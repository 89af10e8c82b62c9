/** Minute buckets of one server's load: live samples widen them, collector files fill the gaps. */
module Metrics {
  import opened Options
  import opened StampedRows

  /** A lower and an upper bound, once a value was seen. */
  datatype Range = Range(lo: real, hi: real)
  type Span = Option<Range>

  datatype GpuSpan = GpuSpan(util: Span, usedMb: Span)

  datatype Bucket = Bucket(cpu: Span, mem: Span, gpus: map<int, GpuSpan>)

  const EMPTY := Bucket(None, None, map[])

  /** One GPU of a live sample; the index is absent when it is not a number. */
  datatype GpuSample = GpuSample(index: Option<int>, util: Option<real>, usedGb: Option<real>)

  datatype Sample = Sample(cpu: Option<real>, mem: Option<real>, gpus: seq<GpuSample>)

  /** A well-formed GPU chunk of a collector line, and a line whose stamp is a number. */
  datatype Chunk = Chunk(index: real, util: real, usedMb: real)
  datatype Line = Line(stamp: real, cpu: Option<real>, mem: Option<real>, chunks: seq<Option<Chunk>>)

  function Minute(stamp: real): int {
    (stamp / 60.0).Floor * 60
  }

  /** int() of a float drops the fraction. */
  function Truncated(x: real): int {
    if x < 0.0 then -((-x).Floor) else x.Floor
  }

  function Point(value: Option<real>): Span {
    if value.None? then None else Some(Range(value.value, value.value))
  }

  function Widened(span: Span, value: Option<real>): Span {
    if value.None? then span
    else if span.None? then Point(value)
    else
      var v := value.value;
      Some(Range(if v < span.value.lo then v else span.value.lo, if v > span.value.hi then v else span.value.hi))
  }

  function UsedMb(gpu: GpuSample): Option<real> {
    if gpu.usedGb.None? then None else Some(gpu.usedGb.value * 1024.0)
  }

  function GpuAt(gpus: map<int, GpuSpan>, i: int): GpuSpan {
    if i in gpus then gpus[i] else GpuSpan(None, None)
  }

  function WidenGpus(gpus: map<int, GpuSpan>, samples: seq<GpuSample>): map<int, GpuSpan> {
    if samples == [] then gpus else
      var n := |samples| - 1;
      var before, last := WidenGpus(gpus, samples[..n]), samples[n];
      if last.index.None? then before else
        var i := last.index.value;
        before[i := GpuSpan(Widened(GpuAt(before, i).util, last.util), Widened(GpuAt(before, i).usedMb, UsedMb(last)))]
  }

  function WidenSpec(b: Bucket, s: Sample): Bucket {
    Bucket(Widened(b.cpu, s.cpu), Widened(b.mem, s.mem), WidenGpus(b.gpus, s.gpus))
  }

  function BucketAt(rows: seq<Row<Bucket>>, t: int): Bucket {
    if Find(rows, t).None? then EMPTY else Find(rows, t).value
  }

  /** The first row with this stamp replaced, or a row added at the end. */
  function Put<T>(rows: seq<Row<T>>, t: int, body: T): seq<Row<T>> {
    if rows == [] then [Row(t, body)]
    else if rows[0].t == t then [Row(t, body)] + rows[1..]
    else [rows[0]] + Put(rows[1..], t, body)
  }

  function AppendSpec(rows: seq<Row<Bucket>>, stamp: real, sample: Sample, clock: real): seq<Row<Bucket>> {
    var t := Minute(stamp);
    Prune(Put(rows, t, WidenSpec(BucketAt(rows, t), sample)), clock)
  }

  function GpuPoints(chunks: seq<Option<Chunk>>): map<int, GpuSpan> {
    if chunks == [] then map[] else
      var n := |chunks| - 1;
      var before := GpuPoints(chunks[..n]);
      if chunks[n].None? then before else
        var c := chunks[n].value;
        before[Truncated(c.index) := GpuSpan(Point(Some(c.util)), Point(Some(c.usedMb)))]
  }

  /** A collector line over a bucket: a missing load value leaves the earlier one, the GPUs are replaced. */
  function Overlaid(b: Bucket, line: Line): Bucket {
    Bucket(
      if line.cpu.Some? then Point(line.cpu) else b.cpu,
      if line.mem.Some? then Point(line.mem) else b.mem,
      GpuPoints(line.chunks))
  }

  function Stamps(rows: seq<Row<Bucket>>): set<int> {
    set row <- rows :: row.t
  }

  /** The new buckets made of the lines whose minute is not known. */
  function Gathered(known: set<int>, lines: seq<Option<Line>>): seq<Row<Bucket>> {
    if lines == [] then [] else
      var n := |lines| - 1;
      var before := Gathered(known, lines[..n]);
      if lines[n].None? || Minute(lines[n].value.stamp) in known then before else
        var t := Minute(lines[n].value.stamp);
        Put(before, t, Overlaid(BucketAt(before, t), lines[n].value))
  }

  function MergeSpec(rows: seq<Row<Bucket>>, lines: seq<Option<Line>>, clock: real): seq<Row<Bucket>> {
    var added := Gathered(Stamps(rows), lines);
    if added == [] then rows else Prune(Sorted(rows + added), clock)
  }

  /** How many lines fall in known minutes, or in unknown ones. */
  function CountLines(known: set<int>, lines: seq<Option<Line>>, inKnown: bool): nat {
    if lines == [] then 0 else
      var n := |lines| - 1;
      CountLines(known, lines[..n], inKnown)
      + if lines[n].Some? && (Minute(lines[n].value.stamp) in known) == inKnown then 1 else 0
  }

  lemma {:induction false} PutAt<T>(rows: seq<Row<T>>, i: nat, t: int, body: T)
    requires i <= |rows| && (forall j | 0 <= j < i :: rows[j].t != t)
    requires i < |rows| ==> rows[i].t == t
    ensures Put(rows, t, body) == if i < |rows| then rows[i := Row(t, body)] else rows + [Row(t, body)]
    ensures Find(rows, t) == if i < |rows| then Some(rows[i].body) else None
  {
    if i > 0 {
      PutAt(rows[1..], i - 1, t, body);
    }
  }

  class MetricsStore {
    var hist: seq<Row<Bucket>>

    constructor ()
      ensures hist == []
    {
      hist := [];
    }

    method Locate(rows: seq<Row<Bucket>>, t: int) returns (i: nat)
      ensures i <= |rows| && forall j | 0 <= j < i :: rows[j].t != t
      ensures i < |rows| ==> rows[i].t == t
    {
      i := 0;
      while i < |rows| && rows[i].t != t
        invariant i <= |rows| && forall j | 0 <= j < i :: rows[j].t != t
      {
        i := i + 1;
      }
    }

    method Widen(bucket: Bucket, sample: Sample) returns (b: Bucket)
      ensures b == WidenSpec(bucket, sample)
    {
      b := bucket.(cpu := Widened(bucket.cpu, sample.cpu), mem := Widened(bucket.mem, sample.mem));
      for n := 0 to |sample.gpus|
        invariant b == WidenSpec(bucket, sample.(gpus := sample.gpus[..n]))
      {
        assert sample.gpus[..n + 1][..n] == sample.gpus[..n];
        var gpu := sample.gpus[n];
        if gpu.index.Some? {
          var span := GpuAt(b.gpus, gpu.index.value);
          span := span.(util := Widened(span.util, gpu.util));
          span := span.(usedMb := Widened(span.usedMb, UsedMb(gpu)));
          b := b.(gpus := b.gpus[gpu.index.value := span]);
        }
      }
      assert sample.gpus[..|sample.gpus|] == sample.gpus;
    }

    /** Fold one live sample into its minute. */
    method AppendSample(stamp: real, sample: Sample, clock: real)
      modifies this
      ensures hist == AppendSpec(old(hist), stamp, sample, clock)
    {
      var minute := Minute(stamp);
      var rows := hist;
      var i := Locate(rows, minute);
      if i == |rows| {
        rows := rows + [Row(minute, EMPTY)];
      }
      var b := Widen(rows[i].body, sample);
      rows := rows[i := Row(minute, b)];
      PutAt(hist, i, minute, b);
      assert rows == Put(hist, minute, b);
      hist := Prune(rows, clock);
    }

    /** Merge the lines of a collector file. */
    method MergeHistTsv(lines: seq<Option<Line>>, clock: real) returns (added: nat, duplicate: nat)
      modifies this
      ensures hist == MergeSpec(old(hist), lines, clock)
      ensures added == CountLines(Stamps(old(hist)), lines, false)
      ensures duplicate == CountLines(Stamps(old(hist)), lines, true)
    {
      var known := Stamps(hist);
      var unseen := [];
      added, duplicate := 0, 0;
      for n := 0 to |lines|
        invariant hist == old(hist)
        invariant unseen == Gathered(known, lines[..n])
        invariant added == CountLines(known, lines[..n], false)
        invariant duplicate == CountLines(known, lines[..n], true)
      {
        assert lines[..n + 1][..n] == lines[..n];
        if lines[n].Some? {
          var line := lines[n].value;
          var minute := Minute(line.stamp);
          if minute in known {
            duplicate := duplicate + 1;
          } else {
            var gpus := ParseGpus(line.chunks);
            var i := Locate(unseen, minute);
            ghost var was := unseen;
            if i == |unseen| {
              unseen := unseen + [Row(minute, EMPTY)];
            }
            var b := unseen[i].body;
            if line.cpu.Some? { b := b.(cpu := Point(line.cpu)); }
            if line.mem.Some? { b := b.(mem := Point(line.mem)); }
            b := b.(gpus := gpus);
            unseen := unseen[i := Row(minute, b)];
            PutAt(was, i, minute, b);
            added := added + 1;
          }
        }
      }
      assert lines[..|lines|] == lines;
      if unseen != [] {
        hist := Prune(Sorted(hist + unseen), clock);
      }
    }

    method ParseGpus(chunks: seq<Option<Chunk>>) returns (gpus: map<int, GpuSpan>)
      ensures gpus == GpuPoints(chunks)
    {
      gpus := map[];
      for n := 0 to |chunks|
        invariant gpus == GpuPoints(chunks[..n])
      {
        assert chunks[..n + 1][..n] == chunks[..n];
        if chunks[n].Some? {
          var c := chunks[n].value;
          gpus := gpus[Truncated(c.index) := GpuSpan(Point(Some(c.util)), Point(Some(c.usedMb)))];
        }
      }
      assert chunks[..|chunks|] == chunks;
    }
  }
}
