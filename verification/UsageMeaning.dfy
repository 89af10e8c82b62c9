/** What the usage totals mean: which snapshots they count, what a stretch of snapshots is worth, and that the order
    of the file does not matter. */
module UsageMeaning {
  import opened Options
  import opened StampedRows
  import opened Usage

  // ---------------------------------------------------------------- what is counted

  /** The snapshot is in the window, billed, and of this user's GPU. */
  predicate Concerns(x: Snapshot, cutoff: real, excluded: set<string>, user: string, gpu: string) {
    x.t as real >= cutoff && x.body.user !in excluded && x.body.user == user && x.body.gpu == gpu
  }

  lemma LastCounts(rows: seq<Snapshot>, x: Snapshot)
    requires rows != []
    ensures multiset(rows)[x]
            == multiset(rows[..|rows| - 1])[x] + if rows[|rows| - 1] == x then 1 else 0
  {
    assert rows == rows[..|rows| - 1] + [rows[|rows| - 1]];
  }

  lemma {:induction false} BilledCounts(rows: seq<Snapshot>, cutoff: real, excluded: set<string>, x: Snapshot)
    ensures multiset(Billed(rows, cutoff, excluded))[x]
            == if x.t as real >= cutoff && x.body.user !in excluded then multiset(rows)[x] else 0
  {
    if rows != [] {
      var n := |rows| - 1;
      BilledCounts(rows[..n], cutoff, excluded, x);
      LastCounts(rows, x);
    }
  }

  lemma {:induction false} StreamCounts(rows: seq<Snapshot>, user: string, gpu: string, x: Snapshot)
    ensures multiset(Stream(rows, (user, gpu)))[x]
            == if x.body.user == user && x.body.gpu == gpu then multiset(rows)[x] else 0
  {
    if rows != [] {
      var n := |rows| - 1;
      StreamCounts(rows[..n], user, gpu, x);
      LastCounts(rows, x);
    }
  }

  /** A user's GPU stream holds exactly the snapshots of the file that concern it, each as often as the file. */
  lemma StreamHoldsExactly(rows: seq<Snapshot>, cutoff: real, excluded: set<string>, user: string, gpu: string,
                           x: Snapshot)
    ensures multiset(Stream(Billed(rows, cutoff, excluded), (user, gpu)))[x]
            == if Concerns(x, cutoff, excluded, user, gpu) then multiset(rows)[x] else 0
  {
    BilledCounts(rows, cutoff, excluded, x);
    StreamCounts(Billed(rows, cutoff, excluded), user, gpu, x);
  }

  /** A user is in the summary if and only if some snapshot in the window concerns the user. */
  lemma BilledUsersAre(rows: seq<Snapshot>, cutoff: real, excluded: set<string>, user: string)
    ensures user in Users(Keys(Billed(rows, cutoff, excluded)))
            <==> exists x <- rows :: Concerns(x, cutoff, excluded, user, x.body.gpu)
  {
    var billed := Billed(rows, cutoff, excluded);
    KeysNameStreamsOnce(billed);
    if key :| key in Keys(billed) && key.0 == user {
      var x := Stream(billed, key)[0];
      assert x in multiset(Stream(billed, key));
      StreamHoldsExactly(rows, cutoff, excluded, key.0, key.1, x);
    }
    if x :| x in rows && Concerns(x, cutoff, excluded, user, x.body.gpu) {
      assert x in multiset(rows);
      StreamHoldsExactly(rows, cutoff, excluded, user, x.body.gpu, x);
      assert x in multiset(Stream(billed, (user, x.body.gpu)));
      assert (user, x.body.gpu) in Keys(billed);
    }
  }

  /** The window asked for: thirty days unless a number is given, and between one day and ninety. */
  lemma DaysTell(asked: int)
    ensures Days(0) == 30
    ensures 1 <= asked <= 90 ==> Days(asked) == asked
    ensures asked < 0 ==> Days(asked) == 1
    ensures asked > 90 ==> Days(asked) == 90
  {
  }

  lemma SplitLast(a: seq<Snapshot>, b: seq<Snapshot>)
    requires b != []
    ensures (a + b)[..|a + b| - 1] == a + b[..|b| - 1] && (a + b)[|a + b| - 1] == b[|b| - 1]
  {
  }

  lemma {:induction false} BilledKeepsOrder(a: seq<Snapshot>, b: seq<Snapshot>, cutoff: real, excluded: set<string>)
    ensures Billed(a + b, cutoff, excluded) == Billed(a, cutoff, excluded) + Billed(b, cutoff, excluded)
  {
    if b == [] {
      assert a + b == a;
    } else {
      SplitLast(a, b);
      BilledKeepsOrder(a, b[..|b| - 1], cutoff, excluded);
    }
  }

  lemma {:induction false} StreamKeepsOrder(a: seq<Snapshot>, b: seq<Snapshot>, key: Key)
    ensures Stream(a + b, key) == Stream(a, key) + Stream(b, key)
  {
    if b == [] {
      assert a + b == a;
    } else {
      SplitLast(a, b);
      StreamKeepsOrder(a, b[..|b| - 1], key);
    }
  }

  /** Both selections go through the file in its order. */
  lemma SelectionsKeepOrder(a: seq<Snapshot>, b: seq<Snapshot>, cutoff: real, excluded: set<string>, key: Key)
    ensures Billed(a + b, cutoff, excluded) == Billed(a, cutoff, excluded) + Billed(b, cutoff, excluded)
    ensures Stream(a + b, key) == Stream(a, key) + Stream(b, key)
  {
    BilledKeepsOrder(a, b, cutoff, excluded);
    StreamKeepsOrder(a, b, key);
  }

  // ---------------------------------------------------------------- what it is worth

  /** Two neighbouring snapshots count for the time between them if that is at most two minutes. */
  lemma TwoSnapshotsCount(a: Snapshot, b: Snapshot)
    requires a.t <= b.t
    ensures Integral([a, b]).seconds == if b.t - a.t <= 120 then (b.t - a.t) as real else 0.0
  {
    var items := [a, b];
    assert items[..1] == [a] && Total([a], Time) == 0.0;
    assert Total(items, Time) == Total(items[..1], Time) + Time(a, b);
  }

  /** Holding a constant amount of memory is worth that many megabytes, as gigabytes, times the counted hours; no
      reading is no memory. */
  lemma {:induction false} ConstantMemory(items: seq<Snapshot>, megabytes: real)
    requires forall s <- items :: (if s.body.mem.Some? then s.body.mem.value else 0.0) == megabytes
    ensures Integral(items).gbHours * 1024.0 * 3600.0 == megabytes * Integral(items).seconds
  {
    if |items| >= 2 {
      var n := |items| - 1;
      assert items[n] in items && items[n - 1] in items && forall s <- items[..n] :: s in items;
      ConstantMemory(items[..n], megabytes);
      ConstantGap(items[n - 1], items[n], megabytes);
    }
  }

  lemma ConstantGap(a: Snapshot, b: Snapshot, megabytes: real)
    requires (if a.body.mem.Some? then a.body.mem.value else 0.0) == megabytes
    requires (if b.body.mem.Some? then b.body.mem.value else 0.0) == megabytes
    ensures GbHours(a, b) * 1024.0 * 3600.0 == megabytes * Time(a, b)
  {
    assert (megabytes + megabytes) / 2.0 == megabytes;
  }

  /** The part of a sum over some streams that is the user's. */
  function SumOfUser(keys: seq<Key>, user: string, amount: Key -> real): real {
    if keys == [] then 0.0 else
      var n := |keys| - 1;
      SumOfUser(keys[..n], user, amount) + if keys[n].0 == user then amount(keys[n]) else 0.0
  }

  /** A user's total is the sum over the user's GPUs, of the counted time and of the GB-hours alike. */
  lemma {:induction false} TotalsAddUp(keys: seq<Key>, user: string, value: Key -> Stats)
    ensures UserTotal(value, keys, user).seconds == SumOfUser(keys, user, key => value(key).seconds)
    ensures UserTotal(value, keys, user).gbHours == SumOfUser(keys, user, key => value(key).gbHours)
  {
    if keys != [] {
      TotalsAddUp(keys[..|keys| - 1], user, value);
    }
  }

  // ---------------------------------------------------------------- the order of the file

  /** Snapshots of the same second say the same. */
  ghost predicate OnePerTime(bag: multiset<Snapshot>) {
    forall x <- bag, y <- bag :: x.t == y.t ==> x == y
  }

  lemma BagOfRest(s: seq<Snapshot>)
    requires s != []
    ensures multiset(s) == multiset{s[0]} + multiset(s[1..])
  {
    assert s == [s[0]] + s[1..];
  }

  lemma OrderedFirst(s: seq<Snapshot>, x: Snapshot)
    requires Ordered(s) && x in multiset(s)
    ensures s[0].t <= x.t
  {
    if x != s[0] {
      BagOfRest(s);
      assert x in s[1..];
    }
  }

  lemma {:induction false} OneOrder(a: seq<Snapshot>, b: seq<Snapshot>)
    requires Ordered(a) && Ordered(b) && multiset(a) == multiset(b) && OnePerTime(multiset(a))
    ensures a == b
  {
    assert |multiset(a)| == |a| && |multiset(b)| == |b|;
    if a != [] {
      BagOfRest(a);
      BagOfRest(b);
      SameFirst(a, b);
      assert multiset(a[1..]) == multiset(a) - multiset{a[0]};
      assert multiset(b[1..]) == multiset(b) - multiset{b[0]};
      assert forall x <- multiset(a[1..]) :: x in multiset(a);
      OneOrder(a[1..], b[1..]);
    }
  }

  lemma SameFirst(a: seq<Snapshot>, b: seq<Snapshot>)
    requires a != [] && b != [] && Ordered(a) && Ordered(b) && multiset(a) == multiset(b) && OnePerTime(multiset(a))
    ensures a[0] == b[0]
  {
    assert a[0] in multiset(b) && b[0] in multiset(a);
    OrderedFirst(a, b[0]);
    OrderedFirst(b, a[0]);
  }

  /** However the snapshots of a stream are ordered in the file, if those of the same second say the same its totals
      are the same. */
  lemma FileOrderDoesNotMatter(one: seq<Snapshot>, two: seq<Snapshot>, user: string, gpu: string)
    requires multiset(one) == multiset(two) && OnePerTime(multiset(Stream(one, (user, gpu))))
    ensures StreamIntegrals(one)((user, gpu)) == StreamIntegrals(two)((user, gpu))
  {
    var a, b := Stream(one, (user, gpu)), Stream(two, (user, gpu));
    forall x ensures multiset(a)[x] == multiset(b)[x] {
      StreamCounts(one, user, gpu, x);
      StreamCounts(two, user, gpu, x);
    }
    SortedFacts(a);
    SortedFacts(b);
    OneOrder(Sorted(a), Sorted(b));
  }
}
