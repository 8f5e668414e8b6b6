/** A Redis keyspace with expiring keys, and the three key families the services share. */
module Redis {
  import opened Options

  const HOURS_24: int := 24 * 60 * 60 * 1_000_000_000

  datatype Entry = Entry(value: string, expires: int)

  type Store = map<string, Entry>

  function Get(store: Store, key: string, now: int): Option<string> {
    if key in store && now < store[key].expires then Some(store[key].value) else None
  }

  function Set(store: Store, key: string, value: string, now: int, ttl: int): Store {
    store[key := Entry(value, now + ttl)]
  }

  function PassbackKey(user: string): string {
    "passback:" + user
  }

  function DeniedKey(user: string): string {
    "perm:denied:" + user
  }

  function CardKey(card: string): string {
    "card:" + card
  }

  /** No key serves two purposes or two owners. */
  lemma KeysAreDistinct(a: string, b: string)
    ensures PassbackKey(a) != DeniedKey(b) && PassbackKey(a) != CardKey(b) && DeniedKey(a) != CardKey(b)
    ensures PassbackKey(a) == PassbackKey(b) <==> a == b
    ensures DeniedKey(a) == DeniedKey(b) <==> a == b
    ensures CardKey(a) == CardKey(b) <==> a == b
  {
    assert PassbackKey(a)[1] == 'a' && DeniedKey(b)[1] == 'e';
    assert PassbackKey(a)[0] == 'p' && DeniedKey(a)[0] == 'p' && CardKey(b)[0] == 'c';
    assert PassbackKey(a)[9..] == a && PassbackKey(b)[9..] == b;
    assert DeniedKey(a)[12..] == a && DeniedKey(b)[12..] == b;
    assert CardKey(a)[5..] == a && CardKey(b)[5..] == b;
  }
}
