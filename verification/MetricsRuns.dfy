/** What a server's history means after any mix of live samples and collector files. */
module MetricsRuns {
  import opened Options
  import opened StampedRows
  import opened Metrics

  /** One quantity that a bucket follows. */
  datatype Channel = Cpu | Mem | Util(gpu: int) | Used(gpu: int)

  function Reading(b: Bucket, ch: Channel): Span {
    match ch
    case Cpu => b.cpu
    case Mem => b.mem
    case Util(i) => GpuAt(b.gpus, i).util
    case Used(i) => GpuAt(b.gpus, i).usedMb
  }

  function Listed(value: Option<real>): seq<real> {
    if value.None? then [] else [value.value]
  }

  /** What one sample says about a channel. */
  function Values(s: Sample, ch: Channel): seq<real> {
    match ch
    case Cpu => Listed(s.cpu)
    case Mem => Listed(s.mem)
    case _ => GpuValues(s.gpus, ch)
  }

  function GpuValues(gpus: seq<GpuSample>, ch: Channel): seq<real>
    requires ch.Util? || ch.Used?
  {
    if gpus == [] then [] else
      var last := gpus[|gpus| - 1];
      GpuValues(gpus[..|gpus| - 1], ch)
      + if last.index == Some(ch.gpu) then Listed(if ch.Util? then last.util else UsedMb(last)) else []
  }

  /** A span is the exact extent of the values seen: both its bounds were seen, and bound them all. */
  predicate Spans(span: Span, values: seq<real>) {
    match span
    case None => values == []
    case Some(r) => r.lo in values && r.hi in values && forall v <- values :: r.lo <= v <= r.hi
  }

  /** So it depends on the values alone, not on the order they came in. */
  lemma SpansAgree(a: Span, b: Span, va: seq<real>, vb: seq<real>)
    requires Spans(a, va) && Spans(b, vb) && (forall v :: v in va <==> v in vb)
    ensures a == b
  {
    if va != [] {
      assert va[0] in va;
    }
    if vb != [] {
      assert vb[0] in vb;
    }
  }

  lemma WidenedSpans(span: Span, values: seq<real>, value: Option<real>)
    requires Spans(span, values)
    ensures Spans(Widened(span, value), values + Listed(value))
  {
    var all := values + Listed(value);
    assert value.None? ==> all == values;
    assert value.Some? ==> value.value == all[|values|];
  }

  lemma {:induction false} WidenGpusSpans(gpus: map<int, GpuSpan>, samples: seq<GpuSample>, ch: Channel,
                                          seen: seq<real>)
    requires ch.Util? || ch.Used?
    requires Spans(Reading(EMPTY.(gpus := gpus), ch), seen)
    ensures Spans(Reading(EMPTY.(gpus := WidenGpus(gpus, samples)), ch), seen + GpuValues(samples, ch))
  {
    if samples == [] {
      assert seen + [] == seen;
    } else {
      var n := |samples| - 1;
      WidenGpusSpans(gpus, samples[..n], ch, seen);
      var before := Reading(EMPTY.(gpus := WidenGpus(gpus, samples[..n])), ch);
      var values := seen + GpuValues(samples[..n], ch);
      var last := samples[n];
      if last.index == Some(ch.gpu) {
        var value := if ch.Util? then last.util else UsedMb(last);
        WidenedSpans(before, values, value);
        assert seen + GpuValues(samples, ch) == values + Listed(value);
      } else {
        assert seen + GpuValues(samples, ch) == values;
      }
    }
  }

  lemma WidenSpans(b: Bucket, s: Sample, ch: Channel, seen: seq<real>)
    requires Spans(Reading(b, ch), seen)
    ensures Spans(Reading(WidenSpec(b, s), ch), seen + Values(s, ch))
  {
    match ch
    case Cpu => WidenedSpans(b.cpu, seen, s.cpu);
    case Mem => WidenedSpans(b.mem, seen, s.mem);
    case _ => WidenGpusSpans(b.gpus, s.gpus, ch, seen);
  }

  // ---------------------------------------------------------------- rows

  lemma {:induction false} FindPut<T>(rows: seq<Row<T>>, t: int, body: T, x: int)
    ensures Find(Put(rows, t, body), x) == if x == t then Some(body) else Find(rows, x)
  {
    if rows != [] && rows[0].t != t {
      FindPut(rows[1..], t, body, x);
    }
  }

  lemma {:induction false} PutKeepsUnique<T>(rows: seq<Row<T>>, t: int, body: T)
    requires Unique(rows)
    ensures Unique(Put(rows, t, body))
  {
    if rows != [] && rows[0].t != t {
      PutKeepsUnique(rows[1..], t, body);
      FindPut(rows[1..], t, body, rows[0].t);
    }
  }

  lemma StampsFind(rows: seq<Row<Bucket>>, t: int)
    ensures t in Stamps(rows) <==> Find(rows, t).Some?
  {
    FindMeansPresent(rows, t);
  }

  /** The collector lines of one minute. */
  function LinesAt(lines: seq<Option<Line>>, t: int): seq<Line> {
    if lines == [] then [] else
      var n := |lines| - 1;
      if lines[n].Some? && Minute(lines[n].value.stamp) == t then LinesAt(lines[..n], t) + [lines[n].value]
      else LinesAt(lines[..n], t)
  }

  function Load(line: Line, ch: Channel): Option<real> {
    if ch.Cpu? then line.cpu else line.mem
  }

  function LastLoad(lines: seq<Line>, ch: Channel): Option<real> {
    if lines == [] then None else
      var n := |lines| - 1;
      if Load(lines[n], ch).Some? then Load(lines[n], ch) else LastLoad(lines[..n], ch)
  }

  /** The bucket that a minute's collector lines make: the last load values, the last line's GPUs. */
  function Collected(lines: seq<Line>): Bucket
    requires lines != []
  {
    Bucket(Point(LastLoad(lines, Cpu)), Point(LastLoad(lines, Mem)),
           GpuPoints(lines[|lines| - 1].chunks))
  }

  lemma CollectedGrows(lines: seq<Line>, line: Line)
    ensures Collected(lines + [line]) == Overlaid(if lines == [] then EMPTY else Collected(lines), line)
  {
    var all := lines + [line];
    assert all[..|lines|] == lines && all[|all| - 1] == line;
    assert LastLoad(all, Cpu) == if line.cpu.Some? then line.cpu else LastLoad(lines, Cpu);
    assert LastLoad(all, Mem) == if line.mem.Some? then line.mem else LastLoad(lines, Mem);
  }

  lemma {:induction false} GatheredIsCollected(known: set<int>, lines: seq<Option<Line>>, t: int)
    ensures Find(Gathered(known, lines), t)
            == if t in known || LinesAt(lines, t) == [] then None else Some(Collected(LinesAt(lines, t)))
  {
    if lines != [] {
      var n := |lines| - 1;
      GatheredIsCollected(known, lines[..n], t);
      if lines[n].Some? {
        var m := Minute(lines[n].value.stamp);
        var before := Gathered(known, lines[..n]);
        FindPut(before, m, Overlaid(BucketAt(before, m), lines[n].value), t);
        if m == t {
          var earlier := LinesAt(lines[..n], t);
          CollectedGrows(earlier, lines[n].value);
        }
      }
    }
  }

  lemma {:induction false} GatheredIsUnique(known: set<int>, lines: seq<Option<Line>>)
    ensures Unique(Gathered(known, lines))
  {
    if lines != [] {
      var n := |lines| - 1;
      GatheredIsUnique(known, lines[..n]);
      if lines[n].Some? {
        var t, before := Minute(lines[n].value.stamp), Gathered(known, lines[..n]);
        PutKeepsUnique(before, t, Overlaid(BucketAt(before, t), lines[n].value));
      }
    }
  }

  /** What a merge leaves at any minute: the bucket that was there, untouched; else what the lines make. */
  lemma MergeFillsGaps(rows: seq<Row<Bucket>>, lines: seq<Option<Line>>, clock: real, t: int)
    requires Recent(t, clock)
    ensures Find(MergeSpec(rows, lines, clock), t)
            == if Find(rows, t).Some? || LinesAt(lines, t) == [] then Find(rows, t)
               else Some(Collected(LinesAt(lines, t)))
  {
    var added := Gathered(Stamps(rows), lines);
    StampsFind(rows, t);
    GatheredIsCollected(Stamps(rows), lines, t);
    FindConcat(rows, added, t);
    FindSorted(rows + added, t);
    FindPrune(Sorted(rows + added), clock, t);
  }

  lemma GatheredIsNew(rows: seq<Row<Bucket>>, lines: seq<Option<Line>>)
    ensures forall row <- Gathered(Stamps(rows), lines) :: Find(rows, row.t).None?
  {
    var added := Gathered(Stamps(rows), lines);
    forall row <- added ensures Find(rows, row.t).None? {
      FindMeansPresent(added, row.t);
      StampsFind(rows, row.t);
      GatheredIsCollected(Stamps(rows), lines, row.t);
    }
  }

  // ---------------------------------------------------------------- merging twice

  /** Merging a text again, at the same time or later, only ages rows out; at the same time it changes nothing. */
  lemma MergeAgain(rows: seq<Row<Bucket>>, lines: seq<Option<Line>>, clock: real, later: real)
    requires clock <= later
    ensures var once := MergeSpec(rows, lines, clock);
            var twice := MergeSpec(once, lines, later);
            twice == once || twice == Prune(once, later)
    ensures MergeSpec(MergeSpec(rows, lines, clock), lines, clock) == MergeSpec(rows, lines, clock)
  {
    SecondMerge(rows, lines, clock, later);
    SecondMerge(rows, lines, clock, clock);
    var added := Gathered(Stamps(rows), lines);
    if added != [] {
      PruneTwice(Sorted(rows + added), clock, clock);
    }
  }

  lemma SecondMerge(rows: seq<Row<Bucket>>, lines: seq<Option<Line>>, clock: real, later: real)
    requires clock <= later
    ensures var once := MergeSpec(rows, lines, clock);
            var twice := MergeSpec(once, lines, later);
            if Gathered(Stamps(once), lines) == [] then twice == once else twice == Prune(once, later)
    ensures Gathered(Stamps(rows), lines) == [] ==> MergeSpec(rows, lines, later) == rows
  {
    var added := Gathered(Stamps(rows), lines);
    if added != [] {
      var once := MergeSpec(rows, lines, clock);
      var again := Gathered(Stamps(once), lines);
      forall row <- again ensures !Recent(row.t, later) {
        GatheredIsNew(once, lines);
        FindMeansPresent(again, row.t);
        GatheredIsCollected(Stamps(once), lines, row.t);
        if Recent(row.t, clock) {
          MergeFillsGaps(rows, lines, clock, row.t);
        }
      }
      PruneAll(again, later);
      PruneConcat(once, again, later);
      PruneSorted(once + again, later);
      assert Prune(once, later) + [] == Prune(once, later);
      PruneSorted(rows + added, clock);
      SortedFacts(Prune(rows + added, clock));
      SortedFixesOrdered(once);
      PruneSorted(once, later);
    }
  }

  lemma {:induction false} PruneAll<T>(rows: seq<Row<T>>, now: real)
    requires forall row <- rows :: !Recent(row.t, now)
    ensures Prune(rows, now) == []
  {
    if rows != [] {
      assert rows[0] in rows && forall row <- rows[1..] :: row in rows;
      PruneAll(rows[1..], now);
    }
  }

  // ---------------------------------------------------------------- runs

  datatype Feed =
    | Live(stamp: real, sample: Sample, clock: real)
    | Merge(lines: seq<Option<Line>>, clock: real)

  function Next(rows: seq<Row<Bucket>>, feed: Feed): seq<Row<Bucket>> {
    match feed
    case Live(stamp, sample, clock) => AppendSpec(rows, stamp, sample, clock)
    case Merge(lines, clock) => MergeSpec(rows, lines, clock)
  }

  function After(rows: seq<Row<Bucket>>, feeds: seq<Feed>): seq<Row<Bucket>> {
    if feeds == [] then rows else Next(After(rows, feeds[..|feeds| - 1]), feeds[|feeds| - 1])
  }

  /** Minute stamps stay unique over every mix of live samples and merges. */
  lemma {:induction false} RunKeepsUnique(rows: seq<Row<Bucket>>, feeds: seq<Feed>)
    requires Unique(rows)
    ensures Unique(After(rows, feeds))
  {
    if feeds != [] {
      var before, feed := After(rows, feeds[..|feeds| - 1]), feeds[|feeds| - 1];
      RunKeepsUnique(rows, feeds[..|feeds| - 1]);
      match feed {
        case Live(stamp, sample, clock) =>
          var t := Minute(stamp);
          var body := WidenSpec(BucketAt(before, t), sample);
          PutKeepsUnique(before, t, body);
          PruneKeepsUnique(Put(before, t, body), clock);
        case Merge(lines, clock) =>
          var added := Gathered(Stamps(before), lines);
          GatheredIsUnique(Stamps(before), lines);
          GatheredNeverKnown(before, lines);
          UniqueConcat(before, added);
          SortedKeepsUnique(before + added);
          PruneKeepsUnique(Sorted(before + added), clock);
      }
    }
  }

  lemma GatheredNeverKnown(rows: seq<Row<Bucket>>, lines: seq<Option<Line>>)
    ensures forall row <- rows :: Find(Gathered(Stamps(rows), lines), row.t).None?
  {
    forall row <- rows ensures Find(Gathered(Stamps(rows), lines), row.t).None? {
      GatheredIsCollected(Stamps(rows), lines, row.t);
    }
  }

  /** A live sample of the minute. */
  predicate IsLiveAt(feed: Feed, t: int) {
    feed.Live? && Minute(feed.stamp) == t
  }

  /** A feed that makes the minute if it is not there yet. */
  predicate Opens(feed: Feed, t: int) {
    IsLiveAt(feed, t) || (feed.Merge? && LinesAt(feed.lines, t) != [])
  }

  predicate Opened(feeds: seq<Feed>, t: int) {
    feeds != [] && (Opened(feeds[..|feeds| - 1], t) || Opens(feeds[|feeds| - 1], t))
  }

  /** The last value that a line has for one of a GPU's channels. */
  function LastGpuValue(chunks: seq<Option<Chunk>>, ch: Channel): Option<real>
    requires ch.Util? || ch.Used?
  {
    if chunks == [] then None else
      var n := |chunks| - 1;
      if chunks[n].Some? && Truncated(chunks[n].value.index) == ch.gpu
      then Some(if ch.Util? then chunks[n].value.util else chunks[n].value.usedMb)
      else LastGpuValue(chunks[..n], ch)
  }

  /** What a file's lines of one minute say about a channel. */
  function FileValue(lines: seq<Line>, ch: Channel): Option<real>
    requires lines != []
  {
    match ch
    case Cpu => LastLoad(lines, Cpu)
    case Mem => LastLoad(lines, Mem)
    case _ => LastGpuValue(lines[|lines| - 1].chunks, ch)
  }

  lemma {:induction false} GpuPointsRead(chunks: seq<Option<Chunk>>, ch: Channel)
    requires ch.Util? || ch.Used?
    ensures Reading(EMPTY.(gpus := GpuPoints(chunks)), ch) == Point(LastGpuValue(chunks, ch))
  {
    if chunks != [] {
      GpuPointsRead(chunks[..|chunks| - 1], ch);
    }
  }

  lemma CollectedReads(lines: seq<Line>, ch: Channel)
    requires lines != []
    ensures Reading(Collected(lines), ch) == Point(FileValue(lines, ch))
  {
    match ch
    case Cpu =>
    case Mem =>
    case _ => GpuPointsRead(lines[|lines| - 1].chunks, ch);
  }

  /** What one feed says about a channel of a minute: a file speaks only when it opens the minute. */
  function FeedValues(feed: Feed, t: int, ch: Channel, known: bool): seq<real> {
    match feed
    case Live(stamp, sample, _) => if Minute(stamp) == t then Values(sample, ch) else []
    case Merge(lines, _) =>
      if known || LinesAt(lines, t) == [] then [] else Listed(FileValue(LinesAt(lines, t), ch))
  }

  /** Everything a run says about a channel of a minute. */
  function MinuteValues(feeds: seq<Feed>, t: int, ch: Channel, known: bool): seq<real> {
    if feeds == [] then [] else
      var n := |feeds| - 1;
      MinuteValues(feeds[..n], t, ch, known) + FeedValues(feeds[n], t, ch, known || Opened(feeds[..n], t))
  }

  /** The minute never ages out. */
  predicate StaysRecent(feeds: seq<Feed>, t: int) {
    feeds == [] || (StaysRecent(feeds[..|feeds| - 1], t) && Recent(t, feeds[|feeds| - 1].clock))
  }

  lemma FeedSpans(rows: seq<Row<Bucket>>, feed: Feed, t: int, ch: Channel, seen: seq<real>)
    requires Spans(Reading(BucketAt(rows, t), ch), seen) && Recent(t, feed.clock)
    ensures Spans(Reading(BucketAt(Next(rows, feed), t), ch), seen + FeedValues(feed, t, ch, Find(rows, t).Some?))
    ensures Find(Next(rows, feed), t).Some? <==> Find(rows, t).Some? || Opens(feed, t)
  {
    assert seen + [] == seen;
    match feed
    case Live(stamp, sample, clock) =>
      var m := Minute(stamp);
      var body := WidenSpec(BucketAt(rows, m), sample);
      FindPut(rows, m, body, t);
      FindPrune(Put(rows, m, body), clock, t);
      WidenSpans(BucketAt(rows, t), sample, ch, seen);
    case Merge(lines, clock) =>
      MergeFillsGaps(rows, lines, clock, t);
      if Find(rows, t).None? && LinesAt(lines, t) != [] {
        CollectedReads(LinesAt(lines, t), ch);
        var told := Listed(FileValue(LinesAt(lines, t), ch));
        assert seen == [] && seen + told == told;
      }
  }

  /** Over every run in which a minute does not age out: its bucket holds exactly the extent of the values it
      held before, of those of the file that opened it, if one did, and of all the live values since, on
      every channel. */
  lemma {:induction false} MinuteSpansItsSamples(
      rows: seq<Row<Bucket>>, feeds: seq<Feed>, t: int, ch: Channel, seen: seq<real>)
    requires Spans(Reading(BucketAt(rows, t), ch), seen) && StaysRecent(feeds, t)
    ensures Spans(Reading(BucketAt(After(rows, feeds), t), ch), seen + MinuteValues(feeds, t, ch, Find(rows, t).Some?))
    ensures Find(After(rows, feeds), t).Some? <==> Find(rows, t).Some? || Opened(feeds, t)
  {
    if feeds == [] {
      assert seen + [] == seen;
    } else {
      var n := |feeds| - 1;
      var known := Find(rows, t).Some?;
      MinuteSpansItsSamples(rows, feeds[..n], t, ch, seen);
      FeedSpans(After(rows, feeds[..n]), feeds[n], t, ch, seen + MinuteValues(feeds[..n], t, ch, known));
      MinuteValuesGrow(feeds, t, ch, known, seen);
    }
  }

  lemma MinuteValuesGrow(feeds: seq<Feed>, t: int, ch: Channel, known: bool, seen: seq<real>)
    requires feeds != []
    ensures var n := |feeds| - 1;
            seen + MinuteValues(feeds, t, ch, known)
            == seen + MinuteValues(feeds[..n], t, ch, known)
               + FeedValues(feeds[n], t, ch, known || Opened(feeds[..n], t))
  {
    var n := |feeds| - 1;
    Associates(seen, MinuteValues(feeds[..n], t, ch, known),
               FeedValues(feeds[n], t, ch, known || Opened(feeds[..n], t)));
  }

  lemma Associates(a: seq<real>, b: seq<real>, c: seq<real>)
    ensures a + (b + c) == a + b + c
  {
  }

  /** Two runs that say the same values about a minute leave the same readings there, in whatever order
      the values arrived. */
  lemma ArrivalOrderDoesNotMatter(rows: seq<Row<Bucket>>, one: seq<Feed>, two: seq<Feed>, t: int, ch: Channel)
    requires Find(rows, t).None? && StaysRecent(one, t) && StaysRecent(two, t)
    requires forall v :: v in MinuteValues(one, t, ch, false) <==> v in MinuteValues(two, t, ch, false)
    ensures Reading(BucketAt(After(rows, one), t), ch) == Reading(BucketAt(After(rows, two), t), ch)
  {
    MinuteSpansItsSamples(rows, one, t, ch, []);
    MinuteSpansItsSamples(rows, two, t, ch, []);
    SpansAgree(Reading(BucketAt(After(rows, one), t), ch), Reading(BucketAt(After(rows, two), t), ch),
               [] + MinuteValues(one, t, ch, false), [] + MinuteValues(two, t, ch, false));
  }
}
