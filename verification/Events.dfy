/** The swipe event that travels through the pipeline. */
module Events {
  import opened Options

  datatype InOutEvent = InOutEvent(
    eventId: string,
    employeeId: string,
    doorId: string,
    direction: string,
    eventTime: int,
    status: string,
    reason: Option<string>,
    cardUid: string,
    sourceIp: string)
}
