/** GPU occupation per user, integrated over the collector's snapshots. */
module Usage {
  import opened Options
  import opened StampedRows

  /** One snapshot: who held how much memory of which GPU. */
  datatype Use = Use(user: string, gpu: string, mem: Option<real>)
  type Snapshot = Row<Use>
  type Key = (string, string)

  datatype Stats = Stats(seconds: real, gbHours: real)

  const GAP_SECONDS := 120
  const KEEP_DAYS := 90

  function Plus(a: Stats, b: Stats): Stats {
    Stats(a.seconds + b.seconds, a.gbHours + b.gbHours)
  }

  predicate Counts(a: Snapshot, b: Snapshot) {
    0 < b.t - a.t <= GAP_SECONDS
  }

  function Mem(s: Snapshot): real {
    if s.body.mem.None? then 0.0 else s.body.mem.value
  }

  function Area(memA: real, memB: real, delta: real): real {
    (memA + memB) / 2.0 / 1024.0 * delta / 3600.0
  }

  /** What the interval between two neighbouring snapshots adds to the counted time, and to the GB-hours. */
  function Time(a: Snapshot, b: Snapshot): real {
    if Counts(a, b) then (b.t - a.t) as real else 0.0
  }

  function GbHours(a: Snapshot, b: Snapshot): real {
    if Counts(a, b) then Area(Mem(a), Mem(b), (b.t - a.t) as real) else 0.0
  }

  /** A measure of intervals added up over a stream. */
  function Total(items: seq<Snapshot>, measure: (Snapshot, Snapshot) -> real): real {
    if |items| < 2 then 0.0 else
      var n := |items| - 1;
      Total(items[..n], measure) + measure(items[n - 1], items[n])
  }

  function Integral(items: seq<Snapshot>): Stats {
    Stats(Total(items, Time), Total(items, GbHours))
  }

  function Days(asked: int): int {
    var days := if asked == 0 then 30 else asked;
    if days < 1 then 1 else if days > KEEP_DAYS then KEEP_DAYS else days
  }

  function Billed(rows: seq<Snapshot>, cutoff: real, excluded: set<string>): seq<Snapshot> {
    if rows == [] then [] else
      var n := |rows| - 1;
      if rows[n].t as real >= cutoff && rows[n].body.user !in excluded
      then Billed(rows[..n], cutoff, excluded) + [rows[n]]
      else Billed(rows[..n], cutoff, excluded)
  }

  function KeyOf(row: Snapshot): Key {
    (row.body.user, row.body.gpu)
  }

  /** One user's snapshots of one GPU, in file order. */
  function Stream(rows: seq<Snapshot>, key: Key): seq<Snapshot> {
    if rows == [] then [] else
      var n := |rows| - 1;
      if KeyOf(rows[n]) == key then Stream(rows[..n], key) + [rows[n]] else Stream(rows[..n], key)
  }

  /** The users' GPUs in order of first appearance. */
  function Keys(rows: seq<Snapshot>): seq<Key> {
    if rows == [] then [] else
      var n := |rows| - 1;
      var before := Keys(rows[..n]);
      if KeyOf(rows[n]) in before then before else before + [KeyOf(rows[n])]
  }

  /** A user's streams, each valued on its own, added up. */
  function UserTotal(value: Key -> Stats, keys: seq<Key>, user: string): Stats {
    if keys == [] then Stats(0.0, 0.0) else
      var n := |keys| - 1;
      if keys[n].0 == user then Plus(UserTotal(value, keys[..n], user), value(keys[n]))
      else UserTotal(value, keys[..n], user)
  }

  function StreamIntegrals(rows: seq<Snapshot>): Key -> Stats {
    key => Integral(Sorted(Stream(rows, key)))
  }

  function Users(keys: seq<Key>): set<string> {
    set key <- keys :: key.0
  }

  /** Every stream is counted, and none twice. */
  lemma {:induction false} KeysNameStreamsOnce(rows: seq<Snapshot>)
    ensures forall key :: key in Keys(rows) <==> Stream(rows, key) != []
    ensures forall i, j | 0 <= i < j < |Keys(rows)| :: Keys(rows)[i] != Keys(rows)[j]
  {
    if rows != [] {
      KeysNameStreamsOnce(rows[..|rows| - 1]);
    }
  }

  /** Exactly the users of these streams, each with the sum over the user's streams. */
  predicate IsSummary(totals: map<string, Stats>, value: Key -> Stats, keys: seq<Key>) {
    totals.Keys == Users(keys) && forall user <- totals :: totals[user] == UserTotal(value, keys, user)
  }

  lemma {:induction false} AbsentUserHasNothing(value: Key -> Stats, keys: seq<Key>, user: string)
    requires user !in Users(keys)
    ensures UserTotal(value, keys, user) == Stats(0.0, 0.0)
  {
    if keys != [] {
      var n := |keys| - 1;
      assert keys[n] in keys && forall key <- keys[..n] :: key in keys;
      AbsentUserHasNothing(value, keys[..n], user);
    }
  }

  lemma SummaryGrows(totals: map<string, Stats>, value: Key -> Stats, order: seq<Key>, n: nat)
    requires n < |order| && IsSummary(totals, value, order[..n])
    ensures var start := if order[n].0 in totals then totals[order[n].0] else Stats(0.0, 0.0);
            IsSummary(totals[order[n].0 := Plus(start, value(order[n]))], value, order[..n + 1])
  {
    var keys := order[..n + 1];
    assert keys == order[..n] + [order[n]] && keys[..n] == order[..n];
    assert Users(keys) == Users(order[..n]) + {order[n].0};
    if order[n].0 !in totals {
      AbsentUserHasNothing(value, order[..n], order[n].0);
    }
  }

  class UsageStore {
    var usage: seq<Snapshot>

    constructor (usage: seq<Snapshot>)
      ensures this.usage == usage
    {
      this.usage := usage;
    }

    method Filter(cutoff: real, excluded: set<string>) returns (rows: seq<Snapshot>)
      ensures rows == Billed(usage, cutoff, excluded)
    {
      rows := [];
      for n := 0 to |usage|
        invariant rows == Billed(usage[..n], cutoff, excluded)
      {
        assert usage[..n + 1][..n] == usage[..n];
        if usage[n].t as real >= cutoff && usage[n].body.user !in excluded {
          rows := rows + [usage[n]];
        }
      }
      assert usage[..|usage|] == usage;
    }

    method Group(rows: seq<Snapshot>) returns (order: seq<Key>, streams: map<Key, seq<Snapshot>>)
      ensures order == Keys(rows) && forall key <- order :: key in streams && streams[key] == Stream(rows, key)
    {
      order, streams := [], map[];
      for n := 0 to |rows|
        invariant order == Keys(rows[..n])
        invariant forall key :: key in order <==> key in streams
        invariant forall key :: Stream(rows[..n], key) == if key in streams then streams[key] else []
      {
        assert rows[..n + 1][..n] == rows[..n];
        var key := KeyOf(rows[n]);
        if key !in streams {
          order := order + [key];
          streams := streams[key := []];
        }
        streams := streams[key := streams[key] + [rows[n]]];
      }
      assert rows[..|rows|] == rows;
    }

    method Integrate(items: seq<Snapshot>, start: Stats) returns (stats: Stats)
      ensures stats == Plus(start, Integral(items))
    {
      stats := start;
      for n := 0 to |items|
        invariant stats == Plus(start, Integral(items[..n]))
      {
        assert items[..n + 1][..n] == items[..n];
        if n > 0 && Counts(items[n - 1], items[n]) {
          var delta := (items[n].t - items[n - 1].t) as real;
          stats := stats.(
            seconds := stats.seconds + delta,
            gbHours := stats.gbHours + Area(Mem(items[n - 1]), Mem(items[n]), delta));
        }
      }
      assert items[..|items|] == items;
    }

    method AddUp(order: seq<Key>, streams: map<Key, seq<Snapshot>>, ghost value: Key -> Stats)
        returns (totals: map<string, Stats>)
      requires forall key <- order :: key in streams && Integral(Sorted(streams[key])) == value(key)
      ensures IsSummary(totals, value, order)
    {
      totals := map[];
      for n := 0 to |order|
        invariant IsSummary(totals, value, order[..n])
      {
        var user := order[n].0;
        var start := if user in totals then totals[user] else Stats(0.0, 0.0);
        assert order[n] in order;
        var stats := Integrate(Sorted(streams[order[n]]), start);
        SummaryGrows(totals, value, order, n);
        totals := totals[user := stats];
      }
      assert order[..|order|] == order;
    }

    /** Every billed user's totals over the window. */
    method UsageSummary(clock: real, days: int, excluded: set<string>) returns (totals: map<string, Stats>)
      ensures var rows := Billed(usage, clock - (Days(days) * 86400) as real, excluded);
              IsSummary(totals, StreamIntegrals(rows), Keys(rows))
    {
      var rows := Filter(clock - (Days(days) * 86400) as real, excluded);
      var order, streams := Group(rows);
      totals := AddUp(order, streams, StreamIntegrals(rows));
    }
  }

  // ---------------------------------------------------------------- the integral

  lemma {:induction false} TotalConcat(a: seq<Snapshot>, b: seq<Snapshot>, measure: (Snapshot, Snapshot) -> real)
    requires a != [] && b != []
    ensures Total(a + b, measure) == Total(a, measure) + measure(a[|a| - 1], b[0]) + Total(b, measure)
  {
    var n := |b| - 1;
    assert (a + b)[..|a| + n] == a + b[..n];
    if n == 0 {
      assert a + b[..0] == a;
    } else {
      TotalConcat(a, b[..n], measure);
    }
  }

  /** The counted time never exceeds the time between the first and the last snapshot. */
  lemma {:induction false} SecondsWithinWindow(items: seq<Snapshot>)
    requires Ordered(items)
    ensures Integral(items).seconds >= 0.0
    ensures items != [] ==> Integral(items).seconds <= (items[|items| - 1].t - items[0].t) as real
  {
    if |items| >= 2 {
      TotalConcat(items[..1], items[1..], Time);
      assert items == items[..1] + items[1..];
      SecondsWithinWindow(items[1..]);
      assert items[1] in items[1..];
    }
  }

  lemma AreaBound(memA: real, memB: real, delta: real, most: real)
    requires 0.0 <= memA <= most && 0.0 <= memB <= most && delta >= 0.0
    ensures 0.0 <= Area(memA, memB, delta) <= most / 1024.0 * delta / 3600.0
  {
    var average := (memA + memB) / 2.0 / 1024.0;
    assert 0.0 <= average <= most / 1024.0;
    assert 0.0 <= average * delta <= most / 1024.0 * delta;
  }

  /** GB-hours are at most the largest memory times the counted time. */
  lemma {:induction false} GbHoursBound(items: seq<Snapshot>, most: real)
    requires forall s <- items :: 0.0 <= Mem(s) <= most
    ensures 0.0 <= Integral(items).gbHours <= most / 1024.0 * Integral(items).seconds / 3600.0
  {
    if |items| >= 2 {
      var n := |items| - 1;
      assert items[n] in items && items[n - 1] in items && forall s <- items[..n] :: s in items;
      GbHoursBound(items[..n], most);
      if Counts(items[n - 1], items[n]) {
        AreaBound(Mem(items[n - 1]), Mem(items[n]), (items[n].t - items[n - 1].t) as real, most);
      }
    }
  }

  // ---------------------------------------------------------------- one more snapshot

  lemma TotalWith(s: seq<Snapshot>, k: nat, x: Snapshot, measure: (Snapshot, Snapshot) -> real)
    requires 0 < k < |s|
    ensures Total(With(s, k, x), measure) + measure(s[k - 1], s[k])
            == Total(s, measure) + measure(s[k - 1], x) + measure(x, s[k])
  {
    assert s == s[..k] + s[k..] && With(s, k, x) == s[..k] + ([x] + s[k..]);
    TotalConcat(s[..k], s[k..], measure);
    TotalConcat(s[..k], [x] + s[k..], measure);
    TotalConcat([x], s[k..], measure);
  }

  lemma TotalAtEnds(s: seq<Snapshot>, k: nat, x: Snapshot, measure: (Snapshot, Snapshot) -> real)
    requires s != [] && (k == 0 || k == |s|)
    ensures Total(With(s, k, x), measure)
            == Total(s, measure) + if k == 0 then measure(x, s[0]) else measure(s[|s| - 1], x)
  {
    if k == 0 {
      assert With(s, k, x) == [x] + s;
      TotalConcat([x], s, measure);
    } else {
      assert With(s, k, x) == s + [x] && (s + [x])[..|s|] == s;
    }
  }

  /** An earlier and a later snapshot at most the gap limit apart enclose the time. */
  predicate Enclosed(rows: seq<Snapshot>, t: int) {
    exists a, b | a in rows && b in rows :: a.t <= t <= b.t && b.t - a.t <= GAP_SECONDS
  }

  predicate Remote(rows: seq<Snapshot>, t: int) {
    forall x <- rows :: x.t - t > GAP_SECONDS || t - x.t > GAP_SECONDS
  }

  lemma {:induction false} OrderedAt(s: seq<Snapshot>, i: nat, j: nat)
    requires Ordered(s) && i <= j < |s|
    ensures s[i].t <= s[j].t
  {
    if i > 0 {
      OrderedAt(s[1..], i - 1, j - 1);
    } else if j > 0 {
      assert s[j] == s[1..][j - 1];
    }
  }

  /** The sorted neighbours of the new snapshot decide whether its time is enclosed or remote. */
  lemma Neighbours(s: seq<Snapshot>, k: nat, x: Snapshot)
    requires Ordered(s) && Splits(s, k, x.t)
    ensures forall i | 0 <= i < k :: s[i].t <= s[k - 1].t <= x.t
    ensures forall i | k <= i < |s| :: x.t <= s[k].t <= s[i].t
  {
    forall i | 0 <= i < k ensures s[i].t <= s[k - 1].t <= x.t {
      OrderedAt(s, i, k - 1);
      assert s[k - 1] in s[..k];
    }
    forall i | k <= i < |s| ensures x.t <= s[k].t <= s[i].t {
      OrderedAt(s, k, i);
      assert s[k..][0] in s[k..];
    }
  }

  lemma EnclosedByNeighbours(s: seq<Snapshot>, k: nat, x: Snapshot)
    requires Ordered(s) && Splits(s, k, x.t)
    ensures Enclosed(s, x.t) <==>
              || (k > 0 && s[k - 1].t == x.t)
              || (k < |s| && s[k].t == x.t)
              || (0 < k < |s| && s[k].t - s[k - 1].t <= GAP_SECONDS)
    ensures Remote(s, x.t) <==>
              && (k > 0 ==> x.t - s[k - 1].t > GAP_SECONDS)
              && (k < |s| ==> s[k].t - x.t > GAP_SECONDS)
  {
    Neighbours(s, k, x);
    if k > 0 { assert s[k - 1] in s; }
    if k < |s| { assert s[k] in s; }
  }

  lemma OneMoreInOrder(s: seq<Snapshot>, k: nat, x: Snapshot)
    requires Ordered(s) && Splits(s, k, x.t)
    ensures Total(With(s, k, x), Time) >= Total(s, Time)
    ensures Total(With(s, k, x), Time) == Total(s, Time) <==> Enclosed(s, x.t) || Remote(s, x.t)
  {
    if s == [] {
      assert With(s, k, x) == [x];
    } else if 0 < k < |s| {
      OneMoreInside(s, k, x);
    } else {
      OneMoreAtEnd(s, k, x);
    }
  }

  lemma OneMoreInside(s: seq<Snapshot>, k: nat, x: Snapshot)
    requires Ordered(s) && Splits(s, k, x.t) && 0 < k < |s|
    ensures Total(With(s, k, x), Time) >= Total(s, Time)
    ensures Total(With(s, k, x), Time) == Total(s, Time) <==> Enclosed(s, x.t) || Remote(s, x.t)
  {
    EnclosedByNeighbours(s, k, x);
    assert s[k - 1].t <= x.t <= s[k].t by {
      Neighbours(s, k, x);
    }
    TimeInside(s[k - 1], x, s[k]);
    TotalWith(s, k, x, Time);
  }

  /** What splitting an interval does to its counted time. */
  lemma TimeInside(a: Snapshot, x: Snapshot, b: Snapshot)
    requires a.t <= x.t <= b.t
    ensures Time(a, x) + Time(x, b) >= Time(a, b)
    ensures Time(a, x) + Time(x, b) == Time(a, b)
            <==> || a.t == x.t || x.t == b.t || b.t - a.t <= GAP_SECONDS
                 || (x.t - a.t > GAP_SECONDS && b.t - x.t > GAP_SECONDS)
  {
  }

  lemma TimeAtEnd(a: Snapshot, b: Snapshot)
    requires a.t <= b.t
    ensures Time(a, b) >= 0.0
    ensures Time(a, b) == 0.0 <==> a.t == b.t || b.t - a.t > GAP_SECONDS
  {
  }

  lemma OneMoreAtEnd(s: seq<Snapshot>, k: nat, x: Snapshot)
    requires Ordered(s) && Splits(s, k, x.t) && s != [] && (k == 0 || k == |s|)
    ensures Total(With(s, k, x), Time) >= Total(s, Time)
    ensures Total(With(s, k, x), Time) == Total(s, Time) <==> Enclosed(s, x.t) || Remote(s, x.t)
  {
    EnclosedByNeighbours(s, k, x);
    assert if k == 0 then x.t <= s[0].t else s[|s| - 1].t <= x.t by {
      Neighbours(s, k, x);
    }
    if k == 0 {
      TimeAtEnd(x, s[0]);
    } else {
      TimeAtEnd(s[|s| - 1], x);
    }
    TotalAtEnds(s, k, x, Time);
  }

  lemma SortedIsTheSame(rows: seq<Snapshot>, t: int)
    ensures Enclosed(Sorted(rows), t) == Enclosed(rows, t) && Remote(Sorted(rows), t) == Remote(rows, t)
  {
    SortedFacts(rows);
    assert forall y :: y in rows <==> y in multiset(rows);
    assert forall y :: y in Sorted(rows) <==> y in multiset(Sorted(rows));
  }

  /** Adding a snapshot anywhere in a stream's file never lowers the counted time, and leaves it as it
      was exactly when the time was enclosed already or is too far from every other snapshot. */
  lemma OneMoreSnapshot(before: seq<Snapshot>, x: Snapshot, after: seq<Snapshot>)
    ensures Integral(Sorted(before + [x] + after)).seconds >= Integral(Sorted(before + after)).seconds
    ensures Integral(Sorted(before + [x] + after)).seconds == Integral(Sorted(before + after)).seconds
            <==> Enclosed(before + after, x.t) || Remote(before + after, x.t)
  {
    var k := SortedWithOneMore(before, x, after);
    SortedFacts(before + after);
    SortedIsTheSame(before + after, x.t);
    OneMoreInOrder(Sorted(before + after), k, x);
  }

  lemma AreasOverChord(a: real, m: real, b: real, d1: real, d2: real)
    ensures Area(a, m, d1) + Area(m, b, d2) == Area(a, b, d1 + d2) <==> m * (d1 + d2) == a * d2 + b * d1
  {
    var scale := 2.0 * 1024.0 * 3600.0;
    assert Area(a, m, d1) * scale == (a + m) * d1;
    assert Area(m, b, d2) * scale == (m + b) * d2;
    assert Area(a, b, d1 + d2) * scale == (a + b) * (d1 + d2);
  }

  /** The snapshot's memory lies on the straight line between its neighbours'. */
  predicate OnTheLine(a: Snapshot, x: Snapshot, b: Snapshot) {
    Mem(x) * (b.t - a.t) as real == Mem(a) * (b.t - x.t) as real + Mem(b) * (x.t - a.t) as real
  }

  lemma GapsOverChord(a: Snapshot, x: Snapshot, b: Snapshot)
    requires a.t < x.t < b.t && Counts(a, b)
    ensures GbHours(a, x) + GbHours(x, b) == GbHours(a, b) <==> OnTheLine(a, x, b)
  {
    var d1, d2 := (x.t - a.t) as real, (b.t - x.t) as real;
    assert (b.t - a.t) as real == d1 + d2;
    AreasOverChord(Mem(a), Mem(x), Mem(b), d1, d2);
  }

  /** Inside a counted gap, a snapshot leaves the GB-hours as they were exactly when it is on the line. */
  lemma OnTheLineAddsNothing(s: seq<Snapshot>, k: nat, x: Snapshot)
    requires 0 < k < |s| && s[k - 1].t < x.t < s[k].t && Counts(s[k - 1], s[k])
    ensures Integral(With(s, k, x)).gbHours == Integral(s).gbHours <==> OnTheLine(s[k - 1], x, s[k])
  {
    TotalWith(s, k, x, GbHours);
    GapsOverChord(s[k - 1], x, s[k]);
  }
}
