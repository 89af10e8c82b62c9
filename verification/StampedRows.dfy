/** Rows of a jsonl file carrying a time stamp: looking one up, ageing them out, sorting them. Both the
    history of a server's load and the usage snapshots are kept in such rows and rest on these lemmas. */
module StampedRows {
  import opened Options

  datatype Row<T> = Row(t: int, body: T)

  const KEEP_SECONDS := 90 * 86400

  /** The first row with this stamp. */
  function Find<T>(rows: seq<Row<T>>, t: int): Option<T> {
    if rows == [] then None else if rows[0].t == t then Some(rows[0].body) else Find(rows[1..], t)
  }


  predicate Recent(t: int, now: real) {
    t as real >= now - KEEP_SECONDS as real
  }

  function Prune<T>(rows: seq<Row<T>>, now: real): seq<Row<T>> {
    if rows == [] then []
    else if Recent(rows[0].t, now) then [rows[0]] + Prune(rows[1..], now)
    else Prune(rows[1..], now)
  }

  function Insert<T>(row: Row<T>, rows: seq<Row<T>>): seq<Row<T>> {
    if rows == [] || row.t <= rows[0].t then [row] + rows else [rows[0]] + Insert(row, rows[1..])
  }

  /** A stable sort by stamp. */
  function Sorted<T>(rows: seq<Row<T>>): seq<Row<T>> {
    if rows == [] then [] else Insert(rows[0], Sorted(rows[1..]))
  }

  ghost predicate Ordered<T>(rows: seq<Row<T>>) {
    rows == [] || ((forall x <- rows[1..] :: rows[0].t <= x.t) && Ordered(rows[1..]))
  }

  /** No two rows share a stamp. */
  predicate Unique<T>(rows: seq<Row<T>>) {
    rows == [] || (Find(rows[1..], rows[0].t).None? && Unique(rows[1..]))
  }

  lemma {:induction false} UniqueMeans<T>(rows: seq<Row<T>>)
    ensures Unique(rows) <==> forall i, j | 0 <= i < j < |rows| :: rows[i].t != rows[j].t
  {
    if rows != [] {
      UniqueMeans(rows[1..]);
      FindMeansPresent(rows[1..], rows[0].t);
      if Unique(rows) {
        forall i, j | 0 <= i < j < |rows| ensures rows[i].t != rows[j].t {
          assert rows[j] == rows[1..][j - 1] && (i > 0 ==> rows[i] == rows[1..][i - 1]);
        }
      } else if Unique(rows[1..]) {
        var row :| row in rows[1..] && row.t == rows[0].t;
        var j :| 0 <= j < |rows[1..]| && rows[1..][j] == row;
        assert rows[0].t == rows[j + 1].t;
      } else {
        var i, j :| 0 <= i < j < |rows[1..]| && rows[1..][i].t == rows[1..][j].t;
        assert rows[i + 1].t == rows[j + 1].t;
      }
    }
  }

  // ---------------------------------------------------------------- sorting

  lemma {:induction false} InsertFacts<T>(row: Row<T>, rows: seq<Row<T>>)
    ensures multiset(Insert(row, rows)) == multiset(rows) + multiset{row}
    ensures forall x :: x in Insert(row, rows) <==> x == row || x in rows
  {
    if rows != [] && row.t > rows[0].t {
      InsertFacts(row, rows[1..]);
      assert rows == [rows[0]] + rows[1..];
    }
  }

  lemma {:induction false} InsertKeepsOrdered<T>(row: Row<T>, rows: seq<Row<T>>)
    requires Ordered(rows)
    ensures Ordered(Insert(row, rows))
  {
    if rows != [] && row.t > rows[0].t {
      InsertKeepsOrdered(row, rows[1..]);
      InsertFacts(row, rows[1..]);
    }
  }

  lemma {:induction false} SortedFacts<T>(rows: seq<Row<T>>)
    ensures Ordered(Sorted(rows))
    ensures multiset(Sorted(rows)) == multiset(rows)
  {
    if rows != [] {
      SortedFacts(rows[1..]);
      InsertFacts(rows[0], Sorted(rows[1..]));
      InsertKeepsOrdered(rows[0], Sorted(rows[1..]));
      assert rows == [rows[0]] + rows[1..];
    }
  }

  lemma {:induction false} SortedFixesOrdered<T>(rows: seq<Row<T>>)
    requires Ordered(rows)
    ensures Sorted(rows) == rows
  {
    if rows != [] {
      SortedFixesOrdered(rows[1..]);
      assert rows == [rows[0]] + rows[1..];
    }
  }

  /** Adding a row anywhere in the file puts it somewhere in the sorted order and moves nothing else. */
  lemma {:induction false} SortedWithOneMore<T>(before: seq<Row<T>>, row: Row<T>, after: seq<Row<T>>)
    returns (k: nat)
    ensures Splits(Sorted(before + after), k, row.t)
    ensures Sorted(before + [row] + after) == With(Sorted(before + after), k, row)
  {
    if before == [] {
      assert before + after == after && before + [row] + after == [row] + after;
      assert ([row] + after)[1..] == after;
      SortedFacts(after);
      k := InsertPosition(row, Sorted(after));
    } else {
      var first, rest := before[0], before[1..];
      assert (before + after)[1..] == rest + after;
      assert (before + [row] + after)[1..] == rest + [row] + after;
      var j := SortedWithOneMore(rest, row, after);
      SortedFacts(rest + after);
      k := InsertAround(first, Sorted(rest + after), row, j);
    }
  }

  lemma {:induction false} InsertPosition<T>(row: Row<T>, s: seq<Row<T>>) returns (k: nat)
    requires Ordered(s)
    ensures Splits(s, k, row.t) && Insert(row, s) == With(s, k, row)
  {
    if s == [] || row.t <= s[0].t {
      k := 0;
      assert s[0..] == s && With(s, 0, row) == [row] + s;
    } else {
      var j := InsertPosition(row, s[1..]);
      k := j + 1;
      WithTail(s, k, row);
    }
  }

  /** Both sides of position j, by stamp. */
  ghost predicate Splits<T>(s: seq<Row<T>>, j: nat, t: int) {
    j <= |s| && (forall x <- s[..j] :: x.t <= t) && (forall x <- s[j..] :: t <= x.t)
  }

  function With<T>(s: seq<Row<T>>, j: nat, row: Row<T>): seq<Row<T>>
    requires j <= |s|
  {
    s[..j] + [row] + s[j..]
  }

  lemma WithTail<T>(s: seq<Row<T>>, j: nat, row: Row<T>)
    requires 0 < j <= |s|
    ensures With(s, j, row) == [s[0]] + With(s[1..], j - 1, row)
    ensures forall t | Splits(s, j, t) :: Splits(s[1..], j - 1, t)
    ensures forall t | s[0].t <= t && Splits(s[1..], j - 1, t) :: Splits(s, j, t)
  {
    assert s[..j] == [s[0]] + s[1..][..j - 1] && s[j..] == s[1..][j - 1..];
  }

  lemma WithFront<T>(first: Row<T>, s: seq<Row<T>>, j: nat, row: Row<T>)
    requires Splits(s, j, row.t) && first.t <= row.t
    ensures Splits([first] + s, j + 1, row.t)
    ensures With([first] + s, j + 1, row) == [first] + With(s, j, row)
  {
    assert ([first] + s)[1..] == s;
    WithTail([first] + s, j + 1, row);
  }

  lemma InsertAroundFront<T>(first: Row<T>, s: seq<Row<T>>, row: Row<T>) returns (k: nat)
    requires Splits(s, 0, row.t)
    ensures Splits(Insert(first, s), k, row.t)
    ensures Insert(first, With(s, 0, row)) == With(Insert(first, s), k, row)
  {
    var i := Insert(first, s);
    assert s[0..] == s && With(s, 0, row) == [row] + s;
    if first.t <= row.t {
      k := 1;
      assert i == [first] + s;
    } else {
      k := 0;
      InsertFacts(first, s);
      assert With(i, 0, row) == [row] + i && i[0..] == i;
    }
  }

  lemma {:induction false} InsertAround<T>(first: Row<T>, s: seq<Row<T>>, row: Row<T>, j: nat) returns (k: nat)
    requires Splits(s, j, row.t)
    ensures Splits(Insert(first, s), k, row.t)
    ensures Insert(first, With(s, j, row)) == With(Insert(first, s), k, row)
  {
    if j == 0 {
      k := InsertAroundFront(first, s, row);
    } else {
      WithTail(s, j, row);
      assert s[0] in s[..j];
      if first.t <= s[0].t {
        k := j + 1;
        WithFront(first, s, j, row);
      } else {
        var m := InsertAround(first, s[1..], row, j - 1);
        k := m + 1;
        WithFront(s[0], Insert(first, s[1..]), m, row);
      }
    }
  }

  // ---------------------------------------------------------------- finding, ageing out

  lemma {:induction false} PruneInsert<T>(row: Row<T>, rows: seq<Row<T>>, now: real)
    ensures Prune(Insert(row, rows), now)
            == if Recent(row.t, now) then Insert(row, Prune(rows, now)) else Prune(rows, now)
  {
    if rows == [] || row.t <= rows[0].t {
      assert ([row] + rows)[1..] == rows;
    } else {
      PruneInsert(row, rows[1..], now);
      var rest := Insert(row, rows[1..]);
      assert ([rows[0]] + rest)[1..] == rest;
      assert ([rows[0]] + Prune(rows[1..], now))[1..] == Prune(rows[1..], now);
    }
  }

  /** Ageing out and sorting commute. */
  lemma {:induction false} PruneSorted<T>(rows: seq<Row<T>>, now: real)
    ensures Prune(Sorted(rows), now) == Sorted(Prune(rows, now))
  {
    if rows != [] {
      PruneSorted(rows[1..], now);
      PruneInsert(rows[0], Sorted(rows[1..]), now);
      assert ([rows[0]] + Prune(rows[1..], now))[1..] == Prune(rows[1..], now);
    }
  }

  lemma {:induction false} PruneConcat<T>(a: seq<Row<T>>, b: seq<Row<T>>, now: real)
    ensures Prune(a + b, now) == Prune(a, now) + Prune(b, now)
  {
    if a == [] {
      assert a + b == b;
    } else {
      assert (a + b)[1..] == a[1..] + b;
      PruneConcat(a[1..], b, now);
    }
  }

  /** Ageing out keeps exactly the recent rows. */
  lemma {:induction false} PruneFacts<T>(rows: seq<Row<T>>, now: real)
    ensures forall row :: row in Prune(rows, now) <==> row in rows && Recent(row.t, now)
  {
    if rows != [] {
      PruneFacts(rows[1..], now);
      assert rows == [rows[0]] + rows[1..];
    }
  }

  lemma {:induction false} PruneKeepsUnique<T>(rows: seq<Row<T>>, now: real)
    requires Unique(rows)
    ensures Unique(Prune(rows, now))
  {
    if rows != [] {
      PruneKeepsUnique(rows[1..], now);
      FindPrune(rows[1..], now, rows[0].t);
    }
  }

  lemma {:induction false} PruneTwice<T>(rows: seq<Row<T>>, now: real, later: real)
    requires now <= later
    ensures Prune(Prune(rows, now), later) == Prune(rows, later)
  {
    if rows != [] {
      PruneTwice(rows[1..], now, later);
    }
  }

  lemma {:induction false} FindConcat<T>(a: seq<Row<T>>, b: seq<Row<T>>, t: int)
    ensures Find(a + b, t) == if Find(a, t).Some? then Find(a, t) else Find(b, t)
  {
    if a == [] {
      assert a + b == b;
    } else {
      assert (a + b)[1..] == a[1..] + b;
      FindConcat(a[1..], b, t);
    }
  }

  lemma {:induction false} FindInsert<T>(row: Row<T>, rows: seq<Row<T>>, t: int)
    ensures Find(Insert(row, rows), t) == if row.t == t then Some(row.body) else Find(rows, t)
  {
    if rows != [] && row.t > rows[0].t {
      FindInsert(row, rows[1..], t);
    }
  }

  lemma {:induction false} FindSorted<T>(rows: seq<Row<T>>, t: int)
    ensures Find(Sorted(rows), t) == Find(rows, t)
  {
    if rows != [] {
      FindSorted(rows[1..], t);
      FindInsert(rows[0], Sorted(rows[1..]), t);
    }
  }

  lemma {:induction false} FindPrune<T>(rows: seq<Row<T>>, now: real, t: int)
    ensures Find(Prune(rows, now), t) == if Recent(t, now) then Find(rows, t) else None
  {
    if rows != [] {
      FindPrune(rows[1..], now, t);
    }
  }

  lemma {:induction false} FindMeansPresent<T>(rows: seq<Row<T>>, t: int)
    ensures Find(rows, t).Some? <==> exists row :: row in rows && row.t == t
    ensures Find(rows, t).Some? ==> Row(t, Find(rows, t).value) in rows
  {
    if rows != [] {
      FindMeansPresent(rows[1..], t);
      assert rows == [rows[0]] + rows[1..];
    }
  }

  lemma {:induction false} UniqueConcat<T>(a: seq<Row<T>>, b: seq<Row<T>>)
    requires Unique(a) && Unique(b)
    requires forall x <- a :: Find(b, x.t).None?
    ensures Unique(a + b)
  {
    if a == [] {
      assert a + b == b;
    } else {
      assert (a + b)[1..] == a[1..] + b;
      UniqueConcat(a[1..], b);
      FindConcat(a[1..], b, a[0].t);
    }
  }

  lemma {:induction false} InsertKeepsUnique<T>(row: Row<T>, rows: seq<Row<T>>)
    requires Unique(rows) && Find(rows, row.t).None?
    ensures Unique(Insert(row, rows))
  {
    if rows != [] && row.t > rows[0].t {
      InsertKeepsUnique(row, rows[1..]);
      FindInsert(row, rows[1..], rows[0].t);
    }
  }

  lemma {:induction false} SortedKeepsUnique<T>(rows: seq<Row<T>>)
    requires Unique(rows)
    ensures Unique(Sorted(rows))
  {
    if rows != [] {
      SortedKeepsUnique(rows[1..]);
      FindSorted(rows[1..], rows[0].t);
      InsertKeepsUnique(rows[0], Sorted(rows[1..]));
    }
  }
}
