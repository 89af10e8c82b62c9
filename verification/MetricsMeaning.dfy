/** What the numbers of a server's history mean: which minute a time belongs to, what one sample and one merge do to
    it, and how long it is kept. */
module MetricsMeaning {
  import opened Options
  import opened StampedRows
  import opened Metrics
  import opened MetricsRuns

  /** A time belongs to the whole minute that began last. */
  lemma MinuteTells(stamp: real)
    ensures Minute(stamp) % 60 == 0
    ensures Minute(stamp) as real <= stamp < Minute(stamp) as real + 60.0
  {
    var m := (stamp / 60.0).Floor;
    assert m as real <= stamp / 60.0 < m as real + 1.0;
    assert (m * 60) as real == m as real * 60.0;
  }

  /** A GPU's number loses its fraction towards zero. */
  lemma TruncatedTells(x: real)
    ensures x >= 0.0 ==> Truncated(x) as real <= x < Truncated(x) as real + 1.0
    ensures x < 0.0 ==> Truncated(x) as real - 1.0 < x <= Truncated(x) as real
  {
  }

  /** The first sample of a minute is both bounds of what it says, memory in megabytes. */
  lemma FirstSampleReads(cpu: Option<real>, mem: Option<real>, gpu: int, util: Option<real>, usedGb: Option<real>)
    ensures var b := WidenSpec(EMPTY, Sample(cpu, mem, [GpuSample(Some(gpu), util, usedGb)]));
            && Reading(b, Cpu) == (if cpu.Some? then Some(Range(cpu.value, cpu.value)) else None)
            && Reading(b, Mem) == (if mem.Some? then Some(Range(mem.value, mem.value)) else None)
            && Reading(b, Util(gpu)) == (if util.Some? then Some(Range(util.value, util.value)) else None)
            && Reading(b, Used(gpu)) == if usedGb.Some? then Some(Range(usedGb.value * 1024.0, usedGb.value * 1024.0))
                                        else None
  {
    var samples := [GpuSample(Some(gpu), util, usedGb)];
    assert samples[..0] == [] && WidenGpus(map[], samples[..0]) == map[];
  }

  /** After a sample at some clock: a minute that began more than ninety days before is gone, the sample's own is
      widened by it, and any other is as it was. */
  lemma SampleTells(rows: seq<Row<Bucket>>, stamp: real, sample: Sample, clock: real, t: int)
    ensures Find(AppendSpec(rows, stamp, sample, clock), t)
            == if clock - t as real > 7_776_000.0 then None
               else if t == Minute(stamp) then Some(WidenSpec(BucketAt(rows, t), sample))
               else Find(rows, t)
  {
    var body := WidenSpec(BucketAt(rows, Minute(stamp)), sample);
    FindPut(rows, Minute(stamp), body, t);
    FindPrune(Put(rows, Minute(stamp), body), clock, t);
  }

  /** After a merge: nothing changes if no line is of an unknown minute; else minutes that began more than ninety
      days before are gone, known ones are as they were, and unknown ones are what their lines make. */
  lemma MergeTells(rows: seq<Row<Bucket>>, lines: seq<Option<Line>>, clock: real, t: int)
    ensures (forall l <- lines :: l.Some? ==> Find(rows, Minute(l.value.stamp)).Some?) ==>
              MergeSpec(rows, lines, clock) == rows
    ensures (exists l <- lines :: l.Some? && Find(rows, Minute(l.value.stamp)).None?) ==>
              Find(MergeSpec(rows, lines, clock), t)
              == if clock - t as real > 7_776_000.0 then None
                 else if Find(rows, t).Some? || LinesAt(lines, t) == [] then Find(rows, t)
                 else Some(Collected(LinesAt(lines, t)))
  {
    var added := Gathered(Stamps(rows), lines);
    if l :| l in lines && l.Some? && Find(rows, Minute(l.value.stamp)).None? {
      UnknownLineIsGathered(rows, lines, l);
      FindPrune(Sorted(rows + added), clock, t);
      if Recent(t, clock) {
        MergeFillsGaps(rows, lines, clock, t);
      }
    } else {
      KnownLinesGatherNothing(rows, lines);
    }
  }

  lemma {:induction false} LineIsAtItsMinute(lines: seq<Option<Line>>, l: Option<Line>)
    requires l in lines && l.Some?
    ensures LinesAt(lines, Minute(l.value.stamp)) != []
  {
    var n := |lines| - 1;
    if lines[n] != l {
      assert lines == lines[..n] + [lines[n]];
      LineIsAtItsMinute(lines[..n], l);
    }
  }

  lemma UnknownLineIsGathered(rows: seq<Row<Bucket>>, lines: seq<Option<Line>>, l: Option<Line>)
    requires l in lines && l.Some? && Find(rows, Minute(l.value.stamp)).None?
    ensures Gathered(Stamps(rows), lines) != []
  {
    StampsFind(rows, Minute(l.value.stamp));
    LineIsAtItsMinute(lines, l);
    GatheredIsCollected(Stamps(rows), lines, Minute(l.value.stamp));
  }

  lemma {:induction false} KnownLinesGatherNothing(rows: seq<Row<Bucket>>, lines: seq<Option<Line>>)
    requires forall l <- lines :: l.Some? ==> Find(rows, Minute(l.value.stamp)).Some?
    ensures Gathered(Stamps(rows), lines) == []
  {
    if lines != [] {
      var n := |lines| - 1;
      assert lines[n] in lines && forall l <- lines[..n] :: l in lines;
      KnownLinesGatherNothing(rows, lines[..n]);
      if lines[n].Some? {
        StampsFind(rows, Minute(lines[n].value.stamp));
      }
    }
  }

  /** The positions of the well-formed lines in minutes that are known, or that are not. */
  function LinesIn(known: set<int>, lines: seq<Option<Line>>, inKnown: bool): set<int> {
    set i | 0 <= i < |lines| && lines[i].Some? && (Minute(lines[i].value.stamp) in known) == inKnown
  }

  lemma LinesInOneMore(known: set<int>, lines: seq<Option<Line>>, inKnown: bool)
    requires lines != []
    ensures var n := |lines| - 1;
            |LinesIn(known, lines, inKnown)|
            == |LinesIn(known, lines[..n], inKnown)|
               + if lines[n].Some? && (Minute(lines[n].value.stamp) in known) == inKnown then 1 else 0
  {
    var n := |lines| - 1;
    var all, front := LinesIn(known, lines, inKnown), LinesIn(known, lines[..n], inKnown);
    forall i ensures i in front <==> i in all && i != n {
      assert 0 <= i < n ==> lines[..n][i] == lines[i];
    }
    assert front == all - {n};
  }

  /** A merge reports how many well-formed lines fell in known minutes and how many did not. */
  lemma {:induction false} CountsAreExact(known: set<int>, lines: seq<Option<Line>>, inKnown: bool)
    ensures CountLines(known, lines, inKnown) == |LinesIn(known, lines, inKnown)|
  {
    if lines == [] {
      assert LinesIn(known, lines, inKnown) == {};
    } else {
      var n := |lines| - 1;
      CountsAreExact(known, lines[..n], inKnown);
      LinesInOneMore(known, lines, inKnown);
    }
  }
}
