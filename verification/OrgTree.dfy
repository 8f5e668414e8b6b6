/** Organisation scoping by materialized path (report-api/internal/repository/org.go), and the
    sub-unit totals of the department report built on it
    (report-api/internal/service/report_service.go). The tree is given by the parent links
    alone; the paths are what the code compares. */
module OrgTree {
  import opened Options

  /** A row of org_unit. */
  datatype Unit = Unit(id: string, parentId: Option<string>, path: string)

  /** The first row a lookup by id returns. */
  function Find(rows: seq<Unit>, id: string): Option<Unit>
    decreases |rows|
  {
    if rows == [] then None else if rows[0].id == id then Some(rows[0]) else Find(rows[1..], id)
  }

  lemma {:induction false} FindIsMember(rows: seq<Unit>, id: string)
    ensures Find(rows, id).Some? ==> Find(rows, id).value in rows && Find(rows, id).value.id == id
    ensures Find(rows, id).None? ==> forall u <- rows :: u.id != id
    decreases |rows|
  {
    if rows != [] {
      FindIsMember(rows[1..], id);
      assert rows == [rows[0]] + rows[1..];
    }
  }

  predicate DistinctIds(rows: seq<Unit>) {
    forall i, j :: 0 <= i < j < |rows| ==> rows[i].id != rows[j].id
  }

  lemma FindOwn(rows: seq<Unit>, u: Unit)
    requires DistinctIds(rows) && u in rows
    ensures Find(rows, u.id) == Some(u)
  {
    FindIsMember(rows, u.id);
  }

  /** The rows are well formed: ids are distinct, non-empty and free of slashes, and a path is
      the parent's path (or "/"), the id and a slash. */
  ghost predicate Tree(rows: seq<Unit>) {
    && DistinctIds(rows)
    && (forall u <- rows :: u.id != "" && '/' !in u.id)
    && (forall u <- rows :: PathIsBuilt(rows, u))
  }

  ghost predicate PathIsBuilt(rows: seq<Unit>, u: Unit) {
    if u.parentId.None? then u.path == "/" + (u.id + "/")
    else exists v <- rows :: v.id == u.parentId.value && u.path == v.path + (u.id + "/")
  }

  // ---------------------------------------------------------------------------
  // The parent relation.
  // ---------------------------------------------------------------------------

  /** The unit reached by k steps from child to parent. */
  function Up(rows: seq<Unit>, id: string, k: nat): Option<string>
    decreases k
  {
    var u := Find(rows, id);
    if u.None? then None
    else if k == 0 then Some(id)
    else if u.value.parentId.None? then None
    else Up(rows, u.value.parentId.value, k - 1)
  }

  ghost predicate Ancestor(rows: seq<Unit>, a: string, t: string) {
    exists k: nat :: Up(rows, t, k) == Some(a)
  }

  function ParentOf(rows: seq<Unit>, u: Unit): (v: Unit)
    requires u in rows && u.parentId.Some? && Find(rows, u.parentId.value).Some?
  {
    Find(rows, u.parentId.value).value
  }

  lemma ParentPath(rows: seq<Unit>, u: Unit)
    requires Tree(rows) && u in rows && u.parentId.Some?
    ensures Find(rows, u.parentId.value).Some?
    ensures var v := ParentOf(rows, u); v in rows && v.id == u.parentId.value && u.path == v.path + (u.id + "/")
  {
    assert PathIsBuilt(rows, u);
    var v :| v in rows && v.id == u.parentId.value && u.path == v.path + (u.id + "/");
    FindOwn(rows, v);
  }

  /** Every path begins and ends with a slash and holds something in between. */
  lemma {:induction false} PathShape(rows: seq<Unit>, u: Unit)
    requires Tree(rows) && u in rows
    ensures |u.path| >= 3 && u.path[0] == '/' && u.path[|u.path| - 1] == '/'
    decreases |u.path|
  {
    if u.parentId.Some? {
      ParentPath(rows, u);
      PathShape(rows, ParentOf(rows, u));
    } else {
      assert PathIsBuilt(rows, u);
    }
  }

  /** The text before the last segment of a path determines the segment. */
  lemma LastSegment(x: string, y: string, a: string, b: string)
    requires x != "" && y != "" && x[|x| - 1] == '/' && y[|y| - 1] == '/' && '/' !in a && '/' !in b
    requires x + (a + "/") == y + (b + "/")
    ensures x == y && a == b
  {
    var s := x + (a + "/");
    assert s[|x| - 1] == '/' && s[|y| - 1] == '/';
    assert forall i :: |x| <= i < |s| - 1 ==> s[i] == a[i - |x|];
    assert forall i :: |y| <= i < |s| - 1 ==> s[i] == b[i - |y|];
    assert s[..|x|] == x && s[..|y|] == y;
    assert s[|x|..|s| - 1] == a && s[|y|..|s| - 1] == b;
  }

  /** A path that is a shorter prefix of base + segment + "/" is a prefix of base. */
  lemma ShorterPrefix(p: string, base: string, segment: string)
    requires p != "" && p[|p| - 1] == '/' && '/' !in segment
    requires p <= base + (segment + "/") && |p| < |base| + |segment| + 1
    ensures p <= base
  {
    var s := base + (segment + "/");
    assert p[|p| - 1] == s[|p| - 1];
    assert forall i :: |base| <= i < |s| - 1 ==> s[i] == segment[i - |base|];
  }

  lemma Base(rows: seq<Unit>, u: Unit) returns (base: string)
    requires Tree(rows) && u in rows
    ensures base != "" && base[|base| - 1] == '/' && u.path == base + (u.id + "/")
    ensures u.parentId.None? ==> base == "/"
    ensures u.parentId.Some? ==> Find(rows, u.parentId.value).Some? && base == ParentOf(rows, u).path
  {
    if u.parentId.Some? {
      ParentPath(rows, u);
      PathShape(rows, ParentOf(rows, u));
      base := ParentOf(rows, u).path;
    } else {
      assert PathIsBuilt(rows, u);
      base := "/";
    }
  }

  lemma PathsAreInjective(rows: seq<Unit>, a: Unit, b: Unit)
    requires Tree(rows) && a in rows && b in rows && a.path == b.path
    ensures a == b
  {
    var x := Base(rows, a);
    var y := Base(rows, b);
    LastSegment(x, y, a.id, b.id);
    FindOwn(rows, a);
    FindOwn(rows, b);
  }

  lemma {:induction false} PrefixIsAncestor(rows: seq<Unit>, a: Unit, t: Unit) returns (k: nat)
    requires Tree(rows) && a in rows && t in rows && a.path <= t.path
    ensures Up(rows, t.id, k) == Some(a.id)
    decreases |t.path|
  {
    FindOwn(rows, t);
    if |a.path| == |t.path| {
      PathsAreInjective(rows, a, t);
      return 0;
    }
    var parent := ParentBelow(rows, a, t);
    var j := PrefixIsAncestor(rows, a, parent);
    return j + 1;
  }

  lemma ParentBelow(rows: seq<Unit>, a: Unit, t: Unit) returns (parent: Unit)
    requires Tree(rows) && a in rows && t in rows && a.path <= t.path && |a.path| < |t.path|
    ensures t.parentId.Some? && parent in rows && parent.id == t.parentId.value && Find(rows, parent.id).Some?
    ensures a.path <= parent.path && |parent.path| < |t.path|
  {
    var base := Base(rows, t);
    PathShape(rows, a);
    ShorterPrefix(a.path, base, t.id);
    parent := ParentOf(rows, t);
    FindIsMember(rows, t.parentId.value);
  }

  lemma {:induction false} AncestorIsPrefix(rows: seq<Unit>, a: Unit, t: Unit, k: nat)
    requires Tree(rows) && a in rows && t in rows && Up(rows, t.id, k) == Some(a.id)
    ensures a.path <= t.path && (k > 0 ==> |a.path| < |t.path|)
    decreases k
  {
    FindOwn(rows, a);
    FindOwn(rows, t);
    if k > 0 {
      ParentPath(rows, t);
      AncestorIsPrefix(rows, a, ParentOf(rows, t), k - 1);
    }
  }

  /** The path comparison is the tree order. */
  lemma PrefixIsTreeOrder(rows: seq<Unit>, a: Unit, t: Unit)
    requires Tree(rows) && a in rows && t in rows
    ensures a.path <= t.path <==> Ancestor(rows, a.id, t.id)
  {
    if a.path <= t.path {
      var k := PrefixIsAncestor(rows, a, t);
      assert Up(rows, t.id, k) == Some(a.id);
    }
    if Ancestor(rows, a.id, t.id) {
      var k: nat :| Up(rows, t.id, k) == Some(a.id);
      AncestorIsPrefix(rows, a, t, k);
    }
  }

  // ---------------------------------------------------------------------------
  // IsInSubtree.
  // ---------------------------------------------------------------------------

  /** IsInSubtree; None stands for an id that does not parse or is not in the table. */
  function IsInSubtree(rows: seq<Unit>, parse: string -> Option<string>, requester: string,
                       target: string): Option<bool> {
    var reqId, tgtId := parse(requester), parse(target);
    if reqId.None? || tgtId.None? then None
    else
      var req, tgt := Find(rows, reqId.value), Find(rows, tgtId.value);
      if req.None? || tgt.None? then None
      else
        var (requesterPath, targetPath) := (req.value.path, tgt.value.path);
        Some(|targetPath| >= |requesterPath| && targetPath[..|requesterPath|] == requesterPath)
  }

  ghost predicate Known(rows: seq<Unit>, id: string) {
    exists u <- rows :: u.id == id
  }

  /** IsInSubtree answers exactly for two known units, and then says whether the requester is
      the target or one of its ancestors. */
  lemma SubtreeTestIsAncestry(rows: seq<Unit>, parse: string -> Option<string>, requester: string, target: string)
    requires Tree(rows)
    ensures var r := IsInSubtree(rows, parse, requester, target);
            && (r.Some? <==> (parse(requester).Some? && Known(rows, parse(requester).value)
                              && parse(target).Some? && Known(rows, parse(target).value)))
            && (r.Some? ==> (r.value <==> Ancestor(rows, parse(requester).value, parse(target).value)))
  {
    if parse(requester).Some? && parse(target).Some? {
      var (reqId, tgtId) := (parse(requester).value, parse(target).value);
      FindIsMember(rows, reqId);
      FindIsMember(rows, tgtId);
      if Find(rows, reqId).Some? && Find(rows, tgtId).Some? {
        PrefixIsTreeOrder(rows, Find(rows, reqId).value, Find(rows, tgtId).value);
      }
    }
  }

  /** Ancestry is a partial order on the units. */
  lemma AncestryIsPartialOrder(rows: seq<Unit>, a: Unit, b: Unit, c: Unit)
    requires Tree(rows) && a in rows && b in rows && c in rows
    ensures Ancestor(rows, a.id, a.id)
    ensures Ancestor(rows, a.id, b.id) && Ancestor(rows, b.id, a.id) ==> a == b
    ensures Ancestor(rows, a.id, b.id) && Ancestor(rows, b.id, c.id) ==> Ancestor(rows, a.id, c.id)
  {
    PrefixIsTreeOrder(rows, a, a);
    PrefixIsTreeOrder(rows, a, b);
    PrefixIsTreeOrder(rows, b, a);
    PrefixIsTreeOrder(rows, b, c);
    PrefixIsTreeOrder(rows, a, c);
    if a.path <= b.path && b.path <= a.path {
      PathsAreInjective(rows, a, b);
    }
  }

  // ---------------------------------------------------------------------------
  // LIKE.
  // ---------------------------------------------------------------------------

  /** The SQL pattern match: '%' any text, '_' any character, '\' quotes the next character. */
  predicate Like(s: string, pattern: string)
    decreases |s| + |pattern|
  {
    if pattern == "" then s == ""
    else if pattern[0] == '%' then Like(s, pattern[1..]) || (s != "" && Like(s[1..], pattern))
    else if pattern[0] == '\\' && |pattern| > 1 then s != "" && s[0] == pattern[1] && Like(s[1..], pattern[2..])
    else s != "" && (pattern[0] == '_' || s[0] == pattern[0]) && Like(s[1..], pattern[1..])
  }

  predicate Plain(s: string) {
    '%' !in s && '_' !in s && '\\' !in s
  }

  lemma {:induction false} LikeAnything(s: string)
    ensures Like(s, "%")
    decreases |s|
  {
    if s != "" {
      LikeAnything(s[1..]);
    } else {
      assert Like("", "%"[1..]);
    }
  }

  /** path LIKE concat(prefix, '%') is the prefix test, for a prefix without wildcards. */
  lemma {:induction false} LikeIsPrefix(s: string, prefix: string)
    requires Plain(prefix)
    ensures Like(s, prefix + "%") <==> prefix <= s
    decreases |prefix|
  {
    var pattern := prefix + "%";
    if prefix == "" {
      assert pattern == "%";
      LikeAnything(s);
    } else {
      assert pattern[0] == prefix[0] && pattern[1..] == prefix[1..] + "%";
      assert prefix[0] in prefix;
      if s != "" {
        LikeIsPrefix(s[1..], prefix[1..]);
        assert prefix <= s <==> prefix[0] == s[0] && prefix[1..] <= s[1..] by {
          assert prefix == [prefix[0]] + prefix[1..] && s == [s[0]] + s[1..];
        }
      }
    }
  }

  /** A wildcard in an id would widen the subtree: "/_/" matches the unrelated "/b/". */
  lemma WildcardsWiden()
    ensures Like("/b/", "/_/" + "%") && !("/_/" <= "/b/")
  {
    var p0 := "/_/" + "%";
    var p1, p2, p3 := p0[1..], p0[2..], p0[3..];
    assert p0[1..] == p1 && p1[1..] == p2 && p2[1..] == p3 && p3 == "%";
    var s0 := "/b/";
    var s1, s2, s3 := s0[1..], s0[2..], s0[3..];
    assert s0[1..] == s1 && s1[1..] == s2 && s2[1..] == s3;
    LikeAnything(s3);
    assert Like(s2, p2);
    assert Like(s1, p1);
    assert Like(s0, p0);
    assert "/_/"[1] != "/b/"[1];
  }

  predicate UuidChar(c: char) {
    '0' <= c <= '9' || 'a' <= c <= 'f' || c == '-'
  }

  /** The ids are UUIDs in text. */
  ghost predicate UuidTree(rows: seq<Unit>) {
    Tree(rows) && forall u <- rows :: forall c <- u.id :: UuidChar(c)
  }

  lemma {:induction false} UuidPathsArePlain(rows: seq<Unit>, u: Unit)
    requires UuidTree(rows) && u in rows
    ensures Plain(u.path)
    decreases |u.path|
  {
    var base := Base(rows, u);
    if u.parentId.Some? {
      FindIsMember(rows, u.parentId.value);
      UuidPathsArePlain(rows, ParentOf(rows, u));
    }
  }

  // ---------------------------------------------------------------------------
  // GetSubtreeIDs and GetChildUnits.
  // ---------------------------------------------------------------------------

  /** The ids of the rows below u in the tree, u included, in row order. */
  ghost function Below(rows: seq<Unit>, some: seq<Unit>, u: string): seq<string>
    decreases |some|
  {
    if some == [] then []
    else
      var rest, t := Below(rows, some[..|some| - 1], u), some[|some| - 1];
      if Ancestor(rows, u, t.id) then rest + [t.id] else rest
  }

  lemma {:induction false} BelowMembers(rows: seq<Unit>, some: seq<Unit>, u: string, id: string)
    ensures id in Below(rows, some, u) <==> exists t <- some :: t.id == id && Ancestor(rows, u, id)
    decreases |some|
  {
    if some != [] {
      var init, last := some[..|some| - 1], some[|some| - 1];
      assert some == init + [last];
      BelowMembers(rows, init, u, id);
    }
  }

  lemma BelowStep(rows: seq<Unit>, i: nat, u: string)
    requires i < |rows|
    ensures Below(rows, rows[..i + 1], u) == Below(rows, rows[..i], u) + if Ancestor(rows, u, rows[i].id)
            then [rows[i].id] else []
  {
    assert rows[..i + 1][..i] == rows[..i];
  }

  lemma AtEnd(rows: seq<Unit>)
    ensures rows[..|rows|] == rows
  {
  }

  /** GetSubtreeIDs: the LIKE query returns the unit and its descendants in the parent relation,
      or fails for an unknown unit. */
  method GetSubtreeIDs(rows: seq<Unit>, parse: string -> Option<string>, orgUnitId: string)
    returns (ids: Option<seq<string>>)
    requires UuidTree(rows)
    ensures ids.Some? <==> parse(orgUnitId).Some? && Known(rows, parse(orgUnitId).value)
    ensures ids.Some? ==> ids.value == Below(rows, rows, parse(orgUnitId).value)
  {
    var orgId := parse(orgUnitId);
    if orgId.None? {
      return None;
    }
    var unit := Find(rows, orgId.value);
    FindIsMember(rows, orgId.value);
    if unit.None? {
      return None;
    }
    var path := unit.value.path;
    UuidPathsArePlain(rows, unit.value);
    var found: seq<string> := [];
    for i := 0 to |rows|
      invariant found == Below(rows, rows[..i], orgId.value)
    {
      BelowStep(rows, i, orgId.value);
      LikeIsPrefix(rows[i].path, path);
      PrefixIsTreeOrder(rows, unit.value, rows[i]);
      if Like(rows[i].path, path + "%") {
        found := found + [rows[i].id];
      }
    }
    AtEnd(rows);
    return Some(found);
  }

  /** The rows whose parent is the unit, in row order. */
  function Children(rows: seq<Unit>, id: string): seq<Unit>
    decreases |rows|
  {
    if rows == [] then []
    else
      var rest, u := Children(rows[..|rows| - 1], id), rows[|rows| - 1];
      if u.parentId == Some(id) then rest + [u] else rest
  }

  method GetChildUnits(rows: seq<Unit>, parse: string -> Option<string>, parentId: string)
    returns (units: Option<seq<Unit>>)
    ensures units.Some? == parse(parentId).Some?
    ensures units.Some? ==> units.value == Children(rows, parse(parentId).value)
  {
    var pid := parse(parentId);
    if pid.None? {
      return None;
    }
    var found: seq<Unit> := [];
    for i := 0 to |rows|
      invariant found == Children(rows[..i], pid.value)
    {
      assert rows[..i + 1][..i] == rows[..i];
      if rows[i].parentId == Some(pid.value) {
        found := found + [rows[i]];
      }
    }
    AtEnd(rows);
    return Some(found);
  }

  lemma {:induction false} ChildrenMembers(rows: seq<Unit>, id: string, u: Unit)
    ensures u in Children(rows, id) <==> u in rows && u.parentId == Some(id)
    decreases |rows|
  {
    if rows != [] {
      var init, last := rows[..|rows| - 1], rows[|rows| - 1];
      assert rows == init + [last];
      ChildrenMembers(init, id, u);
    }
  }

  // ---------------------------------------------------------------------------
  // A subtree is the unit and, disjointly, the subtrees of its children.
  // ---------------------------------------------------------------------------

  lemma {:induction false} UpAgain(rows: seq<Unit>, t: string, j: nat, k: nat)
    requires Up(rows, t, j).Some?
    ensures Up(rows, t, j + k) == Up(rows, Up(rows, t, j).value, k)
    decreases j
  {
    if j > 0 {
      UpAgain(rows, Find(rows, t).value.parentId.value, j - 1, k);
    }
  }

  /** No unit is reached from another in two different numbers of steps. */
  lemma StepsAreUnique(rows: seq<Unit>, t: Unit, j: nat, k: nat)
    requires Tree(rows) && t in rows && j < k && Up(rows, t.id, j).Some?
    ensures Up(rows, t.id, k) != Up(rows, t.id, j)
  {
    var a := Up(rows, t.id, j).value;
    UpAgain(rows, t.id, j, k - j);
    if Up(rows, a, k - j) == Some(a) {
      FindIsMember(rows, a);
      AncestorIsPrefix(rows, Find(rows, a).value, Find(rows, a).value, k - j);
    }
  }

  lemma UpOne(rows: seq<Unit>, c: Unit)
    requires Tree(rows) && c in rows && c.parentId.Some?
    ensures Up(rows, c.id, 1) == c.parentId
  {
    FindOwn(rows, c);
    ParentPath(rows, c);
  }

  /** Two children of one unit have no unit below both. */
  lemma ChildrenAreDisjoint(rows: seq<Unit>, u: string, c: Unit, d: Unit, t: Unit)
    requires Tree(rows) && c in rows && d in rows && t in rows
    requires c.parentId == Some(u) && d.parentId == Some(u)
    requires Ancestor(rows, c.id, t.id) && Ancestor(rows, d.id, t.id)
    ensures c == d
  {
    var j: nat :| Up(rows, t.id, j) == Some(c.id);
    var k: nat :| Up(rows, t.id, k) == Some(d.id);
    UpOne(rows, c);
    UpOne(rows, d);
    UpAgain(rows, t.id, j, 1);
    UpAgain(rows, t.id, k, 1);
    if j < k {
      StepsAreUnique(rows, t, j + 1, k + 1);
    } else if k < j {
      StepsAreUnique(rows, t, k + 1, j + 1);
    }
    FindOwn(rows, c);
    FindOwn(rows, d);
  }

  /** A unit strictly below u is below one of u's children. */
  lemma BelowSomeChild(rows: seq<Unit>, u: Unit, t: Unit) returns (c: Unit)
    requires Tree(rows) && u in rows && t in rows && Ancestor(rows, u.id, t.id) && t != u
    ensures c in rows && c.parentId == Some(u.id) && Ancestor(rows, c.id, t.id)
  {
    var k: nat :| Up(rows, t.id, k) == Some(u.id);
    FindOwn(rows, t);
    FindOwn(rows, u);
    assert k > 0;
    UpDefined(rows, t.id, k - 1);
    var id := Up(rows, t.id, k - 1).value;
    UpAgain(rows, t.id, k - 1, 1);
    FindIsMember(rows, id);
    c := Find(rows, id).value;
    FindOwn(rows, c);
    ParentPath(rows, c);
  }

  lemma {:induction false} UpDefined(rows: seq<Unit>, t: string, k: nat)
    requires Up(rows, t, k + 1).Some?
    ensures Up(rows, t, k).Some? && Find(rows, Up(rows, t, k).value).Some?
    decreases k
  {
    if k > 0 {
      UpDefined(rows, Find(rows, t).value.parentId.value, k - 1);
    }
  }

  lemma UnderChildIsUnder(rows: seq<Unit>, u: Unit, c: Unit, t: Unit)
    requires Tree(rows) && u in rows && c in rows && t in rows && c.parentId == Some(u.id) && Ancestor(rows, c.id, t.id)
    ensures Ancestor(rows, u.id, t.id) && t != u
  {
    UpOne(rows, c);
    assert Ancestor(rows, u.id, c.id);
    AncestryIsPartialOrder(rows, u, c, t);
    if t == u {
      AncestryIsPartialOrder(rows, c, u, u);
      var k: nat :| Up(rows, u.id, k) == Some(c.id);
      UpAgain(rows, u.id, k, 1);
      FindOwn(rows, u);
      StepsAreUnique(rows, u, 0, k + 1);
    }
  }

  function In(ids: seq<string>, id: string): nat {
    if id in ids then 1 else 0
  }

  /** How many of the lists hold the id. */
  function Hits(lists: seq<seq<string>>, id: string): nat
    decreases |lists|
  {
    if lists == [] then 0 else Hits(lists[..|lists| - 1], id) + In(lists[|lists| - 1], id)
  }

  /** The answers of GetSubtreeIDs for each unit of a list. */
  ghost function Subtrees(rows: seq<Unit>, units: seq<Unit>): (lists: seq<seq<string>>) {
    seq(|units|, i requires 0 <= i < |units| => Below(rows, rows, units[i].id))
  }

  lemma SubtreesSnoc(rows: seq<Unit>, units: seq<Unit>, u: Unit)
    ensures Subtrees(rows, units + [u]) == Subtrees(rows, units) + [Below(rows, rows, u.id)]
  {
  }

  lemma HitsSnoc(lists: seq<seq<string>>, ids: seq<string>, id: string)
    ensures Hits(lists + [ids], id) == Hits(lists, id) + In(ids, id)
  {
    assert (lists + [ids])[..|lists|] == lists;
  }

  lemma InBelow(rows: seq<Unit>, u: string, t: Unit)
    requires t in rows
    ensures t.id in Below(rows, rows, u) <==> Ancestor(rows, u, t.id)
  {
    BelowMembers(rows, rows, u, t.id);
  }

  /** Among the children in any initial part of the table, at most one covers t: the one in c,
      if it has been met. */
  lemma {:induction false} HitsOne(rows: seq<Unit>, some: seq<Unit>, u: string, c: Unit, t: Unit)
    requires Tree(rows) && t in rows && c in rows && c.parentId == Some(u) && Ancestor(rows, c.id, t.id)
    requires DistinctIds(some) && forall x <- some :: x in rows
    ensures Hits(Subtrees(rows, Children(some, u)), t.id) == if c in some then 1 else 0
    decreases |some|
  {
    if some != [] {
      var init, last := some[..|some| - 1], some[|some| - 1];
      assert some == init + [last];
      HitsOne(rows, init, u, c, t);
      if last.parentId == Some(u) {
        SubtreesSnoc(rows, Children(init, u), last);
        HitsSnoc(Subtrees(rows, Children(init, u)), Below(rows, rows, last.id), t.id);
        InBelow(rows, last.id, t);
        if Ancestor(rows, last.id, t.id) {
          ChildrenAreDisjoint(rows, u, c, last, t);
        }
      }
      assert last in init ==> false;
    }
  }

  lemma {:induction false} HitsNone(lists: seq<seq<string>>, id: string)
    requires forall ids <- lists :: id !in ids
    ensures Hits(lists, id) == 0
    decreases |lists|
  {
    if lists != [] {
      assert lists[|lists| - 1] in lists;
      HitsNone(lists[..|lists| - 1], id);
    }
  }

  /** GetSubtreeIDs of a unit is the unit and the disjoint union of its children's subtrees:
      any id is in the unit's subtree if it is the unit's own or in exactly one child's subtree,
      and no id is in two, or in a child's and the unit's own. */
  lemma SubtreeSplits(rows: seq<Unit>, u: Unit, id: string)
    requires Tree(rows) && u in rows
    ensures In(Below(rows, rows, u.id), id) == In([u.id], id) + Hits(Subtrees(rows, Children(rows, u.id)), id)
  {
    var children := Children(rows, u.id);
    var found := Find(rows, id);
    FindIsMember(rows, id);
    BelowMembers(rows, rows, u.id, id);
    if found.Some? && Ancestor(rows, u.id, id) && id != u.id {
      var c := BelowSomeChild(rows, u, found.value);
      HitsOne(rows, rows, u.id, c, found.value);
    } else {
      forall c <- children ensures id !in Below(rows, rows, c.id) {
        ChildrenMembers(rows, u.id, c);
        BelowMembers(rows, rows, c.id, id);
        if id in Below(rows, rows, c.id) {
          UnderChildIsUnder(rows, u, c, found.value);
        }
      }
      HitsNone(Subtrees(rows, children), id);
      if id == u.id {
        AncestryIsPartialOrder(rows, u, u, u);
      }
    }
  }

  // ---------------------------------------------------------------------------
  // Sub-unit totals.
  // ---------------------------------------------------------------------------

  /** A row of pre_aggregated_reports within the requested dates. */
  datatype ReportRow = ReportRow(orgUnitId: string, entries: nat, exits: nat)

  datatype Column = Entries | Exits

  function Amount(column: Column, r: ReportRow): nat {
    if column.Entries? then r.entries else r.exits
  }

  /** sum(column) over the rows whose org_unit_id is IN the list. */
  function Total(column: Column, reports: seq<ReportRow>, ids: seq<string>): nat
    decreases |reports|
  {
    if reports == [] then 0
    else
      var init, last := reports[..|reports| - 1], reports[|reports| - 1];
      Total(column, init, ids) + In(ids, last.orgUnitId) * Amount(column, last)
  }

  datatype SubUnit = SubUnit(id: string, totalEntries: nat, totalExits: nat)

  function Figure(column: Column, s: SubUnit): nat {
    if column.Entries? then s.totalEntries else s.totalExits
  }

  ghost function Summarised(rows: seq<Unit>, reports: seq<ReportRow>, c: Unit): SubUnit {
    var ids := Below(rows, rows, c.id);
    SubUnit(c.id, Total(Entries, reports, ids), Total(Exits, reports, ids))
  }

  /** The sub-units listed: a child whose summary query fails is left out. */
  ghost function Listed(rows: seq<Unit>, reports: seq<ReportRow>, fails: string -> bool,
                        children: seq<Unit>): seq<SubUnit>
    decreases |children|
  {
    if children == [] then []
    else
      var rest, c := Listed(rows, reports, fails, children[..|children| - 1]), children[|children| - 1];
      if fails(c.id) then rest else rest + [Summarised(rows, reports, c)]
  }

  function Failed(fails: string -> bool, children: seq<Unit>): seq<Unit>
    decreases |children|
  {
    if children == [] then []
    else
      var rest, c := Failed(fails, children[..|children| - 1]), children[|children| - 1];
      if fails(c.id) then rest + [c] else rest
  }

  function FigureSum(column: Column, subUnits: seq<SubUnit>): nat
    decreases |subUnits|
  {
    if subUnits == [] then 0
    else FigureSum(column, subUnits[..|subUnits| - 1]) + Figure(column, subUnits[|subUnits| - 1])
  }

  /** The sub-unit loop of the department report; fails says whose summary query errs. */
  method SubUnits(rows: seq<Unit>, parse: string -> Option<string>, reports: seq<ReportRow>, fails: string -> bool,
                  orgUnitId: string)
    returns (subUnits: Option<seq<SubUnit>>)
    requires UuidTree(rows) && forall u <- rows :: parse(u.id) == Some(u.id)
    ensures subUnits.Some? == parse(orgUnitId).Some?
    ensures subUnits.Some? ==> subUnits.value == Listed(rows, reports, fails, Children(rows, parse(orgUnitId).value))
  {
    var childUnits := GetChildUnits(rows, parse, orgUnitId);
    if childUnits.None? {
      return None;
    }
    var children := childUnits.value;
    var found: seq<SubUnit> := [];
    for i := 0 to |children|
      invariant found == Listed(rows, reports, fails, children[..i])
    {
      var child := children[i];
      assert children[..i + 1][..i] == children[..i];
      ChildrenMembers(rows, parse(orgUnitId).value, child);
      var ids := GetSubtreeIDs(rows, parse, child.id);
      if ids.Some? {
        if !fails(child.id) {
          found := found + [SubUnit(child.id, Total(Entries, reports, ids.value), Total(Exits, reports, ids.value))];
        }
      }
    }
    AtEnd(children);
    return Some(found);
  }

  /** What the list shows: under its own id each child whose query succeeds, with the entries and
      the exits of the rows of its subtree, and nothing else. */
  lemma {:induction false} ListedShows(rows: seq<Unit>, reports: seq<ReportRow>, fails: string -> bool,
                                       children: seq<Unit>)
    ensures var listed := Listed(rows, reports, fails, children);
            && (forall s <- listed :: exists c :: c in children && !fails(c.id) && s.id == c.id)
            && (forall c <- children :: !fails(c.id) ==>
                  SubUnit(c.id, Total(Entries, reports, Below(rows, rows, c.id)),
                          Total(Exits, reports, Below(rows, rows, c.id))) in listed)
            && |listed| + |Failed(fails, children)| == |children|
    decreases |children|
  {
    if children != [] {
      var init, c := children[..|children| - 1], children[|children| - 1];
      assert children == init + [c] && c in children;
      ListedShows(rows, reports, fails, init);
      forall s | s in Listed(rows, reports, fails, children)
          ensures exists x :: x in children && !fails(x.id) && s.id == x.id {
        if s in Listed(rows, reports, fails, init) {
          var x :| x in init && !fails(x.id) && s.id == x.id;
          assert x in children;
        }
      }
    }
  }

  /** The totals of each list, added over the lists. */
  function SumOver(column: Column, reports: seq<ReportRow>, lists: seq<seq<string>>): nat
    decreases |lists|
  {
    if lists == [] then 0
    else SumOver(column, reports, lists[..|lists| - 1]) + Total(column, reports, lists[|lists| - 1])
  }

  lemma TotalSnoc(column: Column, reports: seq<ReportRow>, r: ReportRow, ids: seq<string>)
    ensures Total(column, reports + [r], ids) == Total(column, reports, ids) + In(ids, r.orgUnitId) * Amount(column, r)
  {
    assert (reports + [r])[..|reports|] == reports;
  }

  lemma Distribute(m: nat, n: nat, amount: nat)
    ensures (m + n) * amount == m * amount + n * amount
  {
  }

  /** One more report row adds its number once for each list that holds its unit. */
  lemma {:induction false} SumOverStep(column: Column, reports: seq<ReportRow>, r: ReportRow, lists: seq<seq<string>>)
    ensures SumOver(column, reports + [r], lists)
            == SumOver(column, reports, lists) + Hits(lists, r.orgUnitId) * Amount(column, r)
    decreases |lists|
  {
    if lists != [] {
      var init, last := lists[..|lists| - 1], lists[|lists| - 1];
      SumOverStep(column, reports, r, init);
      TotalSnoc(column, reports, r, last);
      Distribute(Hits(init, r.orgUnitId), In(last, r.orgUnitId), Amount(column, r));
    }
  }

  lemma {:induction false} SumOverNothing(column: Column, lists: seq<seq<string>>)
    ensures SumOver(column, [], lists) == 0
    decreases |lists|
  {
    if lists != [] {
      SumOverNothing(column, lists[..|lists| - 1]);
    }
  }

  /** If every id is in the whole as often as in all the parts, the whole's total is the sum of
      the parts'. */
  lemma {:induction false} PartsAddUp(column: Column, reports: seq<ReportRow>, whole: seq<string>,
                                      parts: seq<seq<string>>)
    requires forall id :: In(whole, id) == Hits(parts, id)
    ensures Total(column, reports, whole) == SumOver(column, reports, parts)
    decreases |reports|
  {
    if reports == [] {
      SumOverNothing(column, parts);
    } else {
      var init, last := reports[..|reports| - 1], reports[|reports| - 1];
      assert reports == init + [last];
      PartsAddUp(column, init, whole, parts);
      SumOverStep(column, init, last, parts);
      TotalSnoc(column, init, last, whole);
    }
  }

  lemma SumOverSnoc(column: Column, reports: seq<ReportRow>, lists: seq<seq<string>>, ids: seq<string>)
    ensures SumOver(column, reports, lists + [ids]) == SumOver(column, reports, lists) + Total(column, reports, ids)
  {
    assert (lists + [ids])[..|lists|] == lists;
  }

  /** A unit's totals are those of its own rows and of its children's subtrees. */
  lemma TotalsSplit(column: Column, rows: seq<Unit>, reports: seq<ReportRow>, u: Unit)
    requires Tree(rows) && u in rows
    ensures Total(column, reports, Below(rows, rows, u.id))
            == Total(column, reports, [u.id]) + SumOver(column, reports, Subtrees(rows, Children(rows, u.id)))
  {
    var whole, below := Below(rows, rows, u.id), Subtrees(rows, Children(rows, u.id));
    forall id ensures In(whole, id) == Hits(below + [[u.id]], id) {
      SubtreeSplits(rows, u, id);
      HitsSnoc(below, [u.id], id);
    }
    PartsAddUp(column, reports, whole, below + [[u.id]]);
    SumOverSnoc(column, reports, below, [u.id]);
  }

  lemma FigureSumSnoc(column: Column, subUnits: seq<SubUnit>, x: SubUnit)
    ensures FigureSum(column, subUnits + [x]) == FigureSum(column, subUnits) + Figure(column, x)
  {
    assert (subUnits + [x])[..|subUnits|] == subUnits;
  }

  lemma {:induction false} ListedOrFailed(column: Column, rows: seq<Unit>, reports: seq<ReportRow>,
                                          fails: string -> bool, children: seq<Unit>)
    ensures SumOver(column, reports, Subtrees(rows, children))
            == FigureSum(column, Listed(rows, reports, fails, children))
                + SumOver(column, reports, Subtrees(rows, Failed(fails, children)))
    decreases |children|
  {
    if children != [] {
      var init, c := children[..|children| - 1], children[|children| - 1];
      assert children == init + [c];
      ListedOrFailed(column, rows, reports, fails, init);
      SubtreesSnoc(rows, init, c);
      SumOverSnoc(column, reports, Subtrees(rows, init), Below(rows, rows, c.id));
      if fails(c.id) {
        SubtreesSnoc(rows, Failed(fails, init), c);
        SumOverSnoc(column, reports, Subtrees(rows, Failed(fails, init)), Below(rows, rows, c.id));
      } else {
        FigureSumSnoc(column, Listed(rows, reports, fails, init), Summarised(rows, reports, c));
      }
    }
  }

  /** Conservation over the department report: a unit's entries and exits are its own rows, the
      listed sub-units and the children whose query failed; so the page adds up if and only if
      the failed children have no traffic. */
  lemma SubUnitsConserve(column: Column, rows: seq<Unit>, reports: seq<ReportRow>, fails: string -> bool, u: Unit)
    requires Tree(rows) && u in rows
    ensures var (whole, own) := (Total(column, reports, Below(rows, rows, u.id)), Total(column, reports, [u.id]));
            var listed := FigureSum(column, Listed(rows, reports, fails, Children(rows, u.id)));
            var missing := SumOver(column, reports, Subtrees(rows, Failed(fails, Children(rows, u.id))));
            whole == own + listed + missing && (whole == own + listed <==> missing == 0)
  {
    TotalsSplit(column, rows, reports, u);
    ListedOrFailed(column, rows, reports, fails, Children(rows, u.id));
  }

  const ROOT: Unit := Unit("a", None, "/a/")
  const LEAF: Unit := Unit("b", Some("a"), "/a/b/")

  lemma RootAndLeaf()
    ensures Tree([ROOT, LEAF])
  {
    var rows := [ROOT, LEAF];
    assert ROOT.id[0] == 'a' && LEAF.id[0] == 'b';
    assert ROOT.path == "/" + (ROOT.id + "/");
    assert LEAF.path == ROOT.path + (LEAF.id + "/");
    assert ROOT in rows && PathIsBuilt(rows, ROOT) && PathIsBuilt(rows, LEAF);
  }

  lemma {:induction false} NoneListed(column: Column, rows: seq<Unit>, reports: seq<ReportRow>, children: seq<Unit>)
    ensures FigureSum(column, Listed(rows, reports, id => true, children)) == 0
    decreases |children|
  {
    if children != [] {
      NoneListed(column, rows, reports, children[..|children| - 1]);
    }
  }

  lemma OneRow(column: Column, r: ReportRow, ids: seq<string>)
    ensures Total(column, [r], ids) == In(ids, r.orgUnitId) * Amount(column, r)
  {
    TotalSnoc(column, [], r, ids);
    assert [] + [r] == [r];
  }

  /** A failing input: a unit with one child, whose only entry it is and whose query fails. The
      page shows the entry in the unit's total and nowhere below it. */
  lemma FailedChildIsMissing()
    ensures var (rows, reports) := ([ROOT, LEAF], [ReportRow(LEAF.id, 1, 0)]);
            && Tree(rows)
            && Total(Entries, reports, Below(rows, rows, ROOT.id)) == 1
            && Total(Entries, reports, [ROOT.id])
                + FigureSum(Entries, Listed(rows, reports, id => true, Children(rows, ROOT.id))) == 0
  {
    var rows, reports := [ROOT, LEAF], [ReportRow(LEAF.id, 1, 0)];
    RootAndLeaf();
    assert ROOT.id[0] != LEAF.id[0];
    assert LEAF.id in Below(rows, rows, ROOT.id) by {
      UpOne(rows, LEAF);
      BelowMembers(rows, rows, ROOT.id, LEAF.id);
    }
    OneRow(Entries, reports[0], Below(rows, rows, ROOT.id));
    OneRow(Entries, reports[0], [ROOT.id]);
    NoneListed(Entries, rows, reports, Children(rows, ROOT.id));
  }
}
