/** Working-directory memory per chat session, in a table that keeps the most recently used sessions. */
module TerminalHubs {
  import opened Strings

  const MAX_SESSIONS: nat := 64

  /** Sessions from least to most recently used, and their hubs. */
  datatype Table<H> = Table(order: seq<string>, hubs: map<string, H>)

  function Without(s: seq<string>, x: string): seq<string> {
    if s == [] then [] else
      var n := |s| - 1;
      if s[n] == x then Without(s[..n], x) else Without(s[..n], x) + [s[n]]
  }

  predicate Distinct(s: seq<string>) {
    s == [] || (s[|s| - 1] !in s[..|s| - 1] && Distinct(s[..|s| - 1]))
  }

  ghost predicate Valid<H>(t: Table<H>) {
    && Distinct(t.order) && |t.order| <= MAX_SESSIONS && "" !in t.order
    && forall x :: x in t.order <==> x in t.hubs
  }

  /** Drop the oldest entries until the table fits. */
  function Trim<H>(t: Table<H>): Table<H>
    decreases |t.order|
  {
    if |t.order| <= MAX_SESSIONS then t else Trim(Table(t.order[1..], t.hubs - {t.order[0]}))
  }

  /** A call for a session; made is the hub it would create. */
  function HubForSpec<H>(t: Table<H>, sid: string, made: H): (Table<H>, H) {
    if sid == "" then (t, made)
    else if sid in t.hubs then (t.(order := Without(t.order, sid) + [sid]), t.hubs[sid])
    else (Trim(Table(t.order + [sid], t.hubs[sid := made])), made)
  }

  lemma {:induction false} WithoutConcat(a: seq<string>, b: seq<string>, x: string)
    ensures Without(a + b, x) == Without(a, x) + Without(b, x)
  {
    if b == [] {
      assert a + b == a;
    } else {
      var n := |b| - 1;
      assert (a + b)[..|a| + n] == a + b[..n];
      WithoutConcat(a, b[..n], x);
    }
  }

  lemma {:induction false} WithoutAbsent(s: seq<string>, x: string)
    requires x !in s
    ensures Without(s, x) == s
  {
    if s != [] {
      var n := |s| - 1;
      assert s == s[..n] + [s[n]];
      WithoutAbsent(s[..n], x);
    }
  }

  lemma WithoutSplit(a: seq<string>, x: string, b: seq<string>)
    requires x !in a && x !in b
    ensures Without(a + [x] + b, x) == a + b
  {
    WithoutConcat(a + [x], b, x);
    WithoutConcat(a, [x], x);
    WithoutAbsent(a, x);
    WithoutAbsent(b, x);
    assert [x][..0] == [];
  }

  lemma {:induction false} DistinctConcat(a: seq<string>, b: seq<string>)
    ensures Distinct(a + b) <==> Distinct(a) && Distinct(b) && forall x <- a :: x !in b
  {
    if b == [] {
      assert a + b == a;
    } else {
      var n := |b| - 1;
      assert (a + b)[..|a| + n] == a + b[..n];
      assert b == b[..n] + [b[n]];
      DistinctConcat(a, b[..n]);
    }
  }

  lemma DistinctAround(a: seq<string>, x: string, b: seq<string>)
    ensures Distinct(a + [x] + b) <==> Distinct(a + b) && x !in a && x !in b
    ensures Distinct(a + [x] + b) ==> Distinct(a) && Distinct(b) && Distinct(a + b + [x])
  {
    DistinctConcat(a + [x], b);
    DistinctConcat(a, [x]);
    DistinctConcat(a, b);
    DistinctConcat(a + b, [x]);
  }

  /** A distinct sequence around one of its elements. */
  lemma Around(s: seq<string>, x: string) returns (a: seq<string>, b: seq<string>)
    requires Distinct(s) && x in s
    ensures s == a + [x] + b && x !in a && x !in b && Without(s, x) == a + b
    ensures Distinct(a + b) && Distinct(a + b + [x])
  {
    var i :| 0 <= i < |s| && s[i] == x;
    a, b := s[..i], s[i + 1..];
    assert s == a + [x] + b;
    DistinctAround(a, x, b);
    WithoutSplit(a, x, b);
  }

  function LastSessions(s: seq<string>): seq<string> {
    if |s| <= MAX_SESSIONS then s else s[|s| - MAX_SESSIONS..]
  }

  lemma TrimsOne<H>(t: Table<H>)
    requires |t.order| <= MAX_SESSIONS + 1
    ensures Trim(t) == if |t.order| <= MAX_SESSIONS then t else Table(t.order[1..], t.hubs - {t.order[0]})
  {
  }

  /** What a call does to the order. */
  lemma CallOrder<H>(t: Table<H>, sid: string, made: H)
    requires Valid(t) && sid != ""
    ensures HubForSpec(t, sid, made).0.order ==
              if sid in t.order then Without(t.order, sid) + [sid] else LastSessions(t.order + [sid])
    ensures LastSessions(t.order + [sid]) == if |t.order| < MAX_SESSIONS then t.order + [sid] else t.order[1..] + [sid]
  {
    TrimsOne(Table(t.order + [sid], t.hubs[sid := made]));
  }

  /** Another session's hub is kept as long as the session is. */
  lemma CallKeepsHubs<H>(t: Table<H>, sid: string, made: H, x: string)
    requires Valid(t) && x in t.order && x != sid && x in HubForSpec(t, sid, made).0.order
    ensures x in HubForSpec(t, sid, made).0.hubs && HubForSpec(t, sid, made).0.hubs[x] == t.hubs[x]
  {
    CallKeepsValid(t, sid, made);
    TrimsOne(Table(t.order + [sid], t.hubs[sid := made]));
  }

  lemma CallKeepsValid<H>(t: Table<H>, sid: string, made: H)
    requires Valid(t)
    ensures Valid(HubForSpec(t, sid, made).0)
  {
    if sid in t.order {
      var a, b := Around(t.order, sid);
    } else if sid != "" {
      var grown := Table(t.order + [sid], t.hubs[sid := made]);
      TrimsOne(grown);
      if |grown.order| > MAX_SESSIONS {
        DropFirstKeepsValid(grown);
      }
    }
  }

  lemma DropFirstKeepsValid<H>(t: Table<H>)
    requires t.order != [] && Distinct(t.order) && |t.order| == MAX_SESSIONS + 1 && "" !in t.order
    requires forall x :: x in t.order <==> x in t.hubs
    ensures Valid(Table(t.order[1..], t.hubs - {t.order[0]}))
  {
    assert t.order == [t.order[0]] + t.order[1..];
    DistinctConcat([t.order[0]], t.order[1..]);
  }

  class TerminalHub {
    var cwd: map<string, string>

    constructor ()
      ensures cwd == map[]
    {
      cwd := map[];
    }

    function Get(key: string): (path: string)
      reads this
      ensures key in cwd ==> path == cwd[key]
      ensures key !in cwd ==> path == ""
    {
      if key in cwd then cwd[key] else ""
    }

    /** Only absolute paths are remembered; anything else leaves the directory as it was. */
    method Set(key: string, path: string)
      modifies this
      ensures Get(key) == if "/" <= Strip(path) then Strip(path) else old(Get(key))
      ensures forall k | k != key :: Get(k) == old(Get(k))
    {
      var p := Strip(path);
      if "/" <= p {
        cwd := cwd[key := p];
      }
    }

    method Reset(key: string)
      modifies this
      ensures Get(key) == "" && forall k | k != key :: Get(k) == old(Get(k))
    {
      cwd := cwd - {key};
    }
  }

  class HubTable {
    var order: seq<string>
    var hubs: map<string, TerminalHub>

    constructor ()
      ensures State() == Table([], map[]) && Valid(State())
    {
      order, hubs := [], map[];
    }

    function State(): Table<TerminalHub>
      reads this
    {
      Table(order, hubs)
    }

    /** The session's hub: the one in the table, or a new and empty one. */
    method HubFor(sid: string) returns (hub: TerminalHub)
      requires Valid(State())
      modifies this
      ensures Valid(State())
      ensures (State(), hub) == HubForSpec(old(State()), sid, hub)
      ensures sid !in old(hubs) ==> fresh(hub) && hub.cwd == map[]
    {
      if sid == "" {
        hub := new TerminalHub();
        return;
      }
      if sid !in hubs {
        hub := new TerminalHub();
        CallKeepsValid(State(), sid, hub);
        hubs := hubs[sid := hub];
        order := order + [sid];
        while |order| > MAX_SESSIONS
          invariant Trim(State()) == HubForSpec(old(State()), sid, hub).0
          invariant hub.cwd == map[]
          decreases |order|
        {
          hubs := hubs - {order[0]};
          order := order[1..];
        }
      } else {
        hub := hubs[sid];
        CallKeepsValid(State(), sid, hub);
        order := Without(order, sid) + [sid];
      }
    }
  }

  // ---------------------------------------------------------------- whole histories

  /** A call for a session, with the hub it would create. */
  datatype Use<H> = Use(sid: string, made: H)

  function After<H>(t: Table<H>, uses: seq<Use<H>>): Table<H> {
    if uses == [] then t else
      var n := |uses| - 1;
      HubForSpec(After(t, uses[..n]), uses[n].sid, uses[n].made).0
  }

  lemma {:induction false} RunKeepsValid<H>(t: Table<H>, uses: seq<Use<H>>)
    requires Valid(t)
    ensures Valid(After(t, uses))
  {
    if uses != [] {
      var n := |uses| - 1;
      RunKeepsValid(t, uses[..n]);
      CallKeepsValid(After(t, uses[..n]), uses[n].sid, uses[n].made);
    }
  }

  /** The distinct sessions of a history by last use, reading it backwards and skipping those seen. */
  function ByLastUse<H>(uses: seq<Use<H>>, seen: set<string>): seq<string> {
    if uses == [] then [] else
      var n := |uses| - 1;
      var x := uses[n].sid;
      if x == "" || x in seen then ByLastUse(uses[..n], seen) else ByLastUse(uses[..n], seen + {x}) + [x]
  }

  lemma {:induction false} ByLastUseSkips<H>(uses: seq<Use<H>>, seen: set<string>, x: string)
    ensures ByLastUse(uses, seen + {x}) == Without(ByLastUse(uses, seen), x)
    ensures Distinct(ByLastUse(uses, seen)) && "" !in ByLastUse(uses, seen)
    ensures forall y <- ByLastUse(uses, seen) :: y !in seen
  {
    if uses != [] {
      var n := |uses| - 1;
      var y := uses[n].sid;
      ByLastUseSkips(uses[..n], seen, x);
      ByLastUseSkips(uses[..n], seen + {y}, x);
      assert seen + {x} + {y} == seen + {y} + {x};
      if y != "" && y !in seen {
        var before := ByLastUse(uses[..n], seen + {y});
        assert (before + [y])[..|before|] == before;
        if x == y {
          assert seen + {y} + {y} == seen + {y};
          WithoutAbsent(before, x);
        }
      }
    }
  }

  /** After any history the table holds exactly the 64 most recently used sessions, in order of last use. */
  lemma {:induction false} TableHoldsMostRecent<H>(uses: seq<Use<H>>)
    ensures Valid(After(Table([], map[]), uses))
    ensures After(Table([], map[]), uses).order == LastSessions(ByLastUse(uses, {}))
  {
    RunKeepsValid(Table([], map[]), uses);
    if uses != [] {
      var n := |uses| - 1;
      TableHoldsMostRecent(uses[..n]);
      var t, x := After(Table([], map[]), uses[..n]), uses[n].sid;
      if x != "" {
        assert {} + {x} == {x};
        ByLastUseSkips(uses[..n], {}, x);
        LastSessionsTouch(ByLastUse(uses[..n], {}), x);
        CallOrder(t, x, uses[n].made);
      }
    }
  }

  lemma LastSessionsAre(first: seq<string>, last: seq<string>)
    requires |last| == MAX_SESSIONS || (first == [] && |last| <= MAX_SESSIONS)
    ensures LastSessions(first + last) == last
  {
  }

  lemma TouchAmongLast(first: seq<string>, last: seq<string>, x: string)
    requires Distinct(first + last) && x in last
    requires |last| == MAX_SESSIONS || (first == [] && |last| <= MAX_SESSIONS)
    ensures LastSessions(Without(first + last, x) + [x]) == Without(last, x) + [x]
  {
    DistinctConcat(first, last);
    var a, b := Around(last, x);
    assert x !in first;
    WithoutConcat(first, last, x);
    WithoutAbsent(first, x);
    assert Without(first + last, x) + [x] == first + (a + b + [x]);
    LastSessionsAre(first, a + b + [x]);
  }

  lemma AddToLast(first: seq<string>, last: seq<string>, x: string)
    requires Distinct(first + last) && x !in last
    requires |last| == MAX_SESSIONS || (first == [] && |last| <= MAX_SESSIONS)
    ensures LastSessions(Without(first + last, x) + [x]) == LastSessions(last + [x])
  {
    WithoutConcat(first, last, x);
    WithoutAbsent(last, x);
    var rest := Without(first, x);
    assert Without(first + last, x) + [x] == rest + last + [x];
    if |last| == MAX_SESSIONS {
      assert rest + last + [x] == (rest + [last[0]]) + (last[1..] + [x]);
      LastSessionsAre(rest + [last[0]], last[1..] + [x]);
      assert last + [x] == [last[0]] + (last[1..] + [x]);
      LastSessionsAre([last[0]], last[1..] + [x]);
    } else {
      assert rest == [] && rest + last + [x] == last + [x];
    }
  }

  lemma SplitLast(all: seq<string>) returns (first: seq<string>)
    ensures all == first + LastSessions(all)
    ensures |LastSessions(all)| == MAX_SESSIONS || (first == [] && |LastSessions(all)| <= MAX_SESSIONS)
  {
    first := all[..|all| - |LastSessions(all)|];
  }

  /** Touching a session among the most recent, or adding one, is touching it in the full order. */
  lemma LastSessionsTouch(all: seq<string>, x: string)
    requires Distinct(all)
    ensures x in LastSessions(all) ==> LastSessions(Without(all, x) + [x]) == Without(LastSessions(all), x) + [x]
    ensures x !in LastSessions(all) ==> LastSessions(Without(all, x) + [x]) == LastSessions(LastSessions(all) + [x])
  {
    var first := SplitLast(all);
    if x in LastSessions(all) {
      TouchAmongLast(first, LastSessions(all), x);
    } else {
      AddToLast(first, LastSessions(all), x);
    }
  }

  // ---------------------------------------------------------------- the hub that a session gets back

  function Sessions<H>(uses: seq<Use<H>>): set<string> {
    set i | 0 <= i < |uses| && uses[i].sid != "" :: uses[i].sid
  }

  /** The sessions after x in the order are exactly the others. */
  ghost predicate Followed(order: seq<string>, x: string, others: set<string>) {
    exists before, tail :: FollowedBy(order, before, x, tail, others)
  }

  predicate FollowedBy(order: seq<string>, before: seq<string>, x: string, tail: seq<string>, others: set<string>) {
    order == before + [x] + tail && others == set y <- tail
  }

  /** Since x was used with hub h: still in the table, followed by just the others used since; or pushed
      out by 64 others. */
  ghost predicate UsedSince<H>(t: Table<H>, x: string, h: H, others: set<string>) {
    Valid(t) &&
    if x in t.order then
      && x in t.hubs && t.hubs[x] == h
      && Followed(t.order, x, others)
    else |others| >= MAX_SESSIONS
  }

  lemma {:induction false} DistinctCounts(s: seq<string>, elements: set<string>)
    requires Distinct(s) && forall y :: y in s <==> y in elements
    ensures |s| == |elements|
  {
    if s != [] {
      var n := |s| - 1;
      assert s == s[..n] + [s[n]];
      DistinctCounts(s[..n], elements - {s[n]});
    }
  }

  lemma {:induction false} RunTracksUse<H>(t: Table<H>, x: string, h: H, uses: seq<Use<H>>)
    requires UsedSince(t, x, h, {}) && x in t.order && x !in Sessions(uses)
    ensures UsedSince(After(t, uses), x, h, Sessions(uses))
  {
    if uses != [] {
      var n := |uses| - 1;
      assert uses == uses[..n] + [uses[n]];
      assert Sessions(uses) == Sessions(uses[..n]) + if uses[n].sid == "" then {} else {uses[n].sid};
      RunTracksUse(t, x, h, uses[..n]);
      CallTracksUse(After(t, uses[..n]), x, h, Sessions(uses[..n]), uses[n]);
    } else {
      assert Sessions(uses) == {};
    }
  }

  lemma CallTracksUse<H>(t: Table<H>, x: string, h: H, others: set<string>, use: Use<H>)
    requires UsedSince(t, x, h, others) && x != use.sid
    ensures UsedSince(HubForSpec(t, use.sid, use.made).0, x, h, others + if use.sid == "" then {} else {use.sid})
  {
    var y := use.sid;
    if y == "" {
      assert others + {} == others;
    } else if x !in t.order {
      CallKeepsValid(t, y, use.made);
      StaysOut(t, x, use);
      MoreIsNoSmaller(others, y);
    } else {
      var before, tail :| FollowedBy(t.order, before, x, tail, others);
      TouchTracksUse(t, x, h, others, use, before, tail);
    }
  }

  lemma StaysOut<H>(t: Table<H>, x: string, use: Use<H>)
    requires Valid(t) && x !in t.order && x != use.sid
    ensures x !in HubForSpec(t, use.sid, use.made).0.order
  {
    if use.sid in t.order {
      var a, b := Around(t.order, use.sid);
    } else if use.sid != "" {
      TrimsOne(Table(t.order + [use.sid], t.hubs[use.sid := use.made]));
    }
  }

  lemma MoreIsNoSmaller(s: set<string>, y: string)
    ensures |s + {y}| >= |s|
  {
    if y in s {
      assert s + {y} == s;
    }
  }

  lemma {:induction false} WithoutMembers(s: seq<string>, x: string)
    ensures forall z :: z in Without(s, x) <==> z in s && z != x
  {
    if s != [] {
      var n := |s| - 1;
      assert s == s[..n] + [s[n]];
      WithoutMembers(s[..n], x);
    }
  }

  /** Moving y to the end, from before x or from after it. */
  lemma MovedToEnd(order: seq<string>, before: seq<string>, x: string, tail: seq<string>, others: set<string>,
                   y: string)
    requires FollowedBy(order, before, x, tail, others) && y != x
    ensures Followed(Without(order, y) + [y], x, others + {y})
  {
    WithoutConcat(before + [x], tail, y);
    WithoutConcat(before, [x], y);
    WithoutAbsent([x], y);
    var front, back := Without(before, y), Without(tail, y);
    WithoutMembers(tail, y);
    assert (set z <- back + [y]) == others + {y};
    assert front + [x] + back + [y] == front + [x] + (back + [y]);
    assert FollowedBy(Without(order, y) + [y], front, x, back + [y], others + {y});
  }

  lemma AddedAtEnd(order: seq<string>, before: seq<string>, x: string, tail: seq<string>, others: set<string>,
                   y: string)
    requires FollowedBy(order, before, x, tail, others)
    ensures Followed(order + [y], x, others + {y})
    ensures before != [] ==> Followed(order[1..] + [y], x, others + {y})
  {
    assert order + [y] == before + [x] + (tail + [y]);
    assert FollowedBy(order + [y], before, x, tail + [y], others + {y});
    if before != [] {
      assert order[1..] + [y] == before[1..] + [x] + (tail + [y]);
      assert FollowedBy(order[1..] + [y], before[1..], x, tail + [y], others + {y});
    }
  }

  lemma TouchTracksUse<H>(
      t: Table<H>, x: string, h: H, others: set<string>, use: Use<H>, before: seq<string>, tail: seq<string>)
    requires UsedSince(t, x, h, others) && x in t.order && x != use.sid && use.sid != ""
    requires FollowedBy(t.order, before, x, tail, others)
    ensures UsedSince(HubForSpec(t, use.sid, use.made).0, x, h, others + {use.sid})
  {
    var y := use.sid;
    CallKeepsValid(t, y, use.made);
    CallOrder(t, y, use.made);
    if y in t.order {
      MovedToEnd(t.order, before, x, tail, others, y);
      CallKeepsHubs(t, y, use.made, x);
    } else {
      AddedAtEnd(t.order, before, x, tail, others, y);
      if |t.order| < MAX_SESSIONS || before != [] {
        CallKeepsHubs(t, y, use.made, x);
      } else {
        PushedOut(t.order, x, tail, others, y);
      }
    }
  }

  lemma PushedOut(order: seq<string>, x: string, tail: seq<string>, others: set<string>, y: string)
    requires FollowedBy(order, [], x, tail, others) && Distinct(order) && |order| == MAX_SESSIONS
    requires y !in order && y != x
    ensures x !in order[1..] + [y] && |others + {y}| == MAX_SESSIONS
  {
    assert order == [x] + tail && order[1..] == tail;
    DistinctConcat([x], tail);
    DistinctCounts(tail, others);
  }

  lemma JustUsed<H>(t: Table<H>, x: string, made: H)
    requires Valid(t) && x != ""
    ensures var (t1, h) := HubForSpec(t, x, made); x in t1.order && UsedSince(t1, x, h, {})
  {
    CallKeepsValid(t, x, made);
    CallOrder(t, x, made);
    if x in t.order {
      LastIsFollowedByNobody(Without(t.order, x), x);
    } else if |t.order| < MAX_SESSIONS {
      LastIsFollowedByNobody(t.order, x);
      TrimsOne(Table(t.order + [x], t.hubs[x := made]));
    } else {
      LastIsFollowedByNobody(t.order[1..], x);
      TrimsOne(Table(t.order + [x], t.hubs[x := made]));
    }
  }

  lemma LastIsFollowedByNobody(before: seq<string>, x: string)
    ensures Followed(before + [x], x, {})
  {
    assert before + [x] == before + [x] + [];
    assert FollowedBy(before + [x], before, x, [], {});
  }

  /** A session that asks again gets the hub it had exactly when fewer than 64 other sessions asked in
      between; otherwise it gets the new one. */
  lemma SameHubIffFewOthers<H>(t: Table<H>, x: string, first: H, between: seq<Use<H>>, again: H)
    requires Valid(t) && x != "" && x !in Sessions(between)
    ensures var (t1, h) := HubForSpec(t, x, first);
            HubForSpec(After(t1, between), x, again).1 == if |Sessions(between)| < 64 then h else again
  {
    var (t1, h) := HubForSpec(t, x, first);
    JustUsed(t, x, first);
    RunTracksUse(t1, x, h, between);
    var t2 := After(t1, between);
    if x in t2.order {
      var before, tail :| FollowedBy(t2.order, before, x, tail, Sessions(between));
      DistinctAround(before, x, tail);
      DistinctCounts(tail, Sessions(between));
    }
  }
}
