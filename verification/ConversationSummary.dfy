/** The summary of what left the active window: what each row's line says, what one archiving makes of the summary,
    and what is left of it all after any run. */
module ConversationSummary {
  import opened Options
  import opened Strings
  import opened Conversation
  import opened ConversationRuns

  /** The rows that a step moves from the active window to the archive. */
  function MovedTo(s: Session, s': Session): seq<Row> {
    if |s'.archived| > |s.archived| then s'.archived[|s.archived|..] else []
  }

  function Moved(s: Session, op: Op): seq<Row> {
    MovedTo(s, Apply(s, op))
  }

  /** One line for every row that a run archives, as the row is when it is moved. */
  function LinesMoved(s: Session, ops: seq<Op>): seq<string>
    decreases |ops|
  {
    if ops == [] then [] else SummaryLines(Moved(s, ops[0])) + LinesMoved(Apply(s, ops[0]), ops[1..])
  }

  /** A row's line names its role and gives its words in order, one space apart, as far as 500 characters go. */
  lemma SummaryLineTells(row: Row)
    ensures var words := Join(" ", Words(row.content));
            SummaryLine(row) == (if row.role == User then "- 用户: " else "- 助手: ")
                                + if |words| <= 500 then words else words[..500]
  {
    assert "- " + "用户" + ": " == "- 用户: " && "- " + "助手" + ": " == "- 助手: ";
  }

  /** Each row moved gives its own line, in order. */
  lemma LinesTellRows(rows: seq<Row>)
    ensures |SummaryLines(rows)| == |rows|
    ensures forall i | 0 <= i < |rows| ::
              var words := Join(" ", Words(rows[i].content));
              SummaryLines(rows)[i] == (if rows[i].role == User then "- 用户: " else "- 助手: ")
                                       + if |words| <= 500 then words else words[..500]
  {
    forall row: Row ensures var words := Join(" ", Words(row.content));
                            SummaryLine(row) == (if row.role == User then "- 用户: " else "- 助手: ")
                                                + if |words| <= 500 then words else words[..500] {
      SummaryLineTells(row);
    }
  }

  /** The newest 6000 characters of a text; if any are missing, it says so first. */
  function Newest(text: string): string {
    if |text| <= 6000 then text else "[更早摘要已截断]\n" + text[|text| - 6000..]
  }

  /** The summary after a step: as it was, or with a line for each row moved, cut to its newest part. */
  predicate Summarizes(s: Session, s': Session) {
    var moved := MovedTo(s, s');
    var head := if Strip(s.summary) == "" then [] else [Strip(s.summary)];
    s'.summary == if moved == [] then s.summary else Newest(Join("\n", head + SummaryLines(moved)))
  }

  lemma TailIsNewest(text: string)
    ensures Conversation.Tail(text) == Newest(text)
  {
  }

  lemma SummarizeIs(previous: string, moved: seq<Row>)
    ensures var head := if Strip(previous) == "" then [] else [Strip(previous)];
            Summarize(previous, moved) == Newest(Join("\n", head + SummaryLines(moved)))
  {
    var head := if Strip(previous) == "" then [] else [Strip(previous)];
    assert [] + SummaryLines(moved) == SummaryLines(moved);
    TailIsNewest(Join("\n", head + SummaryLines(moved)));
  }

  lemma ArchiveSummarizes(s: Session, keep: nat)
    requires keep > 0
    ensures Summarizes(s, ArchiveSpec(s, keep))
  {
    if |s.messages| > keep {
      var moved := s.messages[..|s.messages| - keep];
      assert MovedTo(s, ArchiveSpec(s, keep)) == moved;
      SummarizeIs(s.summary, moved);
    }
  }

  lemma BoundedSummarizes(s: Session, grown: Session)
    requires |grown.archived| == |s.archived| && grown.summary == s.summary
    ensures Summarizes(s, Bounded(grown))
  {
    if |grown.messages| > MAX_MESSAGES {
      ArchiveSummarizes(grown, MAX_MESSAGES);
    }
    assert MovedTo(s, Bounded(grown)) == MovedTo(grown, Bounded(grown));
  }

  lemma SameEndSummarizes(s: Session, one: Session, two: Session)
    requires Summarizes(s, one) && two.archived == one.archived && two.summary == one.summary
    ensures Summarizes(s, two)
  {
  }

  lemma KeepingSummarizes(s: Session, s': Session)
    requires |s'.archived| == |s.archived| && s'.summary == s.summary
    ensures Summarizes(s, s')
  {
  }

  lemma PatchSummary(s: Session, text: string)
    ensures Summarizes(s, PatchSpec(s, text))
  {
    if s.messages != [] && s.messages[|s.messages| - 1].role == Assistant {
      KeepingSummarizes(s, PatchSpec(s, text));
    } else {
      BoundedSummarizes(s, s.(messages := s.messages + [Row(Assistant, text, None, None, "")]));
    }
  }

  lemma BeginSummary(s: Session, requestId: string, question: string)
    ensures Summarizes(s, BeginTurnSpec(s, requestId, question).0)
  {
    var s' := BeginTurnSpec(s, requestId, question).0;
    if KnownRequest(Log(s), requestId) {
      KeepingSummarizes(s, s');
    } else {
      var s1 := InterruptOrphan(s);
      var grown := s1.(messages := s1.messages + OpeningRows(requestId, question));
      BoundedSummarizes(s, grown);
      SameEndSummarizes(s, Bounded(grown), s');
    }
  }

  lemma StepSummary(s: Session, op: Op)
    ensures Summarizes(s, Apply(s, op))
  {
    match op
    case Append(role, content) =>
      BoundedSummarizes(s, s.(messages := s.messages + [Row(role, content, None, None, "")]));
    case Patch(text) => PatchSummary(s, text);
    case Compact(keep) => ArchiveSummarizes(s, KeepClamp(keep));
    case Begin(requestId, question) => BeginSummary(s, requestId, question);
    case _ => KeepingSummarizes(s, Apply(s, op));
  }

  // A summary line may end in one space: that of a blank row, or of one cut off between two words. The next
  // archiving drops that space. The following lemmas show that it drops nothing else.

  predicate NoSpace(s: string) {
    forall i | 0 <= i < |s| :: !IsSpace(s[i])
  }

  lemma {:induction false} WordHasNoSpace(s: string)
    ensures NoSpace(s[..WordLength(s)])
  {
    if s != "" && !IsSpace(s[0]) {
      WordHasNoSpace(s[1..]);
      assert forall i | 0 < i < WordLength(s) :: s[..WordLength(s)][i] == s[1..][..WordLength(s[1..])][i - 1];
    }
  }

  lemma {:induction false} WordsAreSolid(s: string)
    ensures forall word <- Words(s) :: word != "" && NoSpace(word)
    decreases |s|
  {
    var t := LStrip(s);
    if t != "" {
      WordHasNoSpace(t);
      WordsAreSolid(t[WordLength(t)..]);
    }
  }

  lemma {:induction false} WordEnds(word: string, rest: string)
    requires NoSpace(word) && (rest == "" || IsSpace(rest[0]))
    ensures WordLength(word + rest) == |word|
  {
    if word == "" {
      assert word + rest == rest;
    } else {
      assert (word + rest)[1..] == word[1..] + rest;
      WordEnds(word[1..], rest);
    }
  }

  /** Words are the stretches between spaces, all of them and in order: white space in front does not matter, and a
      word goes on to the next space or the end. */
  lemma WordsTell(word: string, rest: string, blanks: string)
    requires word != "" && NoSpace(word) && (rest == "" || IsSpace(rest[0]))
    requires forall i | 0 <= i < |blanks| :: IsSpace(blanks[i])
    ensures Words(blanks) == [] && Words(blanks + (word + rest)) == [word] + Words(rest)
  {
    assert LStrip(blanks) == "";
    var s := blanks + (word + rest);
    assert s[|blanks|] == word[0];
    assert FirstNonSpace(s, 0) == |blanks| && LStrip(s) == word + rest;
    WordEnds(word, rest);
    assert (word + rest)[..|word|] == word && (word + rest)[|word|..] == rest;
  }

  /** The text starts with no space, and no two spaces are next to each other. */
  predicate SinglySpaced(s: string) {
    && (s != "" ==> !IsSpace(s[0]))
    && forall i | 0 <= i < |s| - 1 :: !IsSpace(s[i]) || !IsSpace(s[i + 1])
  }

  lemma SpacedConcat(word: string, rest: string)
    requires word != "" && NoSpace(word) && SinglySpaced(rest)
    ensures SinglySpaced(word + " " + rest)
  {
    var s := word + " " + rest;
    forall i | 0 <= i < |s| - 1 ensures !IsSpace(s[i]) || !IsSpace(s[i + 1]) {
      if i < |word| {
        assert s[i] == word[i];
      } else if i == |word| {
        assert rest != "" ==> s[i + 1] == rest[0];
      } else {
        assert s[i] == rest[i - |word| - 1] && s[i + 1] == rest[i - |word|];
      }
    }
  }

  lemma {:induction false} JoinedAreSinglySpaced(words: seq<string>)
    requires forall word <- words :: word != "" && NoSpace(word)
    ensures SinglySpaced(Join(" ", words))
  {
    if |words| == 1 {
      assert words[0] in words;
    } else if |words| > 1 {
      assert words[0] in words && forall word <- words[1..] :: word in words;
      JoinedAreSinglySpaced(words[1..]);
      SpacedConcat(words[0], Join(" ", words[1..]));
    }
  }

  /** The text starts with no space and ends in at most one. */
  predicate WellEnded(s: string) {
    && s != "" && !IsSpace(s[0])
    && (IsSpace(s[|s| - 1]) ==> |s| > 1 && !IsSpace(s[|s| - 2]))
  }

  function Unspaced(s: string): string
    requires s != ""
  {
    if IsSpace(s[|s| - 1]) then s[..|s| - 1] else s
  }

  lemma StripWellEnded(s: string)
    requires WellEnded(s)
    ensures Strip(s) == Unspaced(s) && Strip(s) != ""
  {
    assert LStrip(s) == s;
  }

  lemma LineIsWellEnded(row: Row)
    ensures WellEnded(SummaryLine(row))
  {
    WordsAreSolid(row.content);
    JoinedAreSinglySpaced(Words(row.content));
    var words := Join(" ", Words(row.content));
    var said := if |words| <= 500 then words else words[..500];
    var head := if row.role == User then "- 用户: " else "- 助手: ";
    SummaryLineTells(row);
    var line := head + said;
    assert line[0] == '-' && line[|head| - 2] == ':';
    if |said| >= 2 {
      assert line[|line| - 1] == words[|said| - 1] && line[|line| - 2] == words[|said| - 2];
    }
  }

  lemma {:induction false} JoinIsWellEnded(lines: seq<string>)
    requires lines != [] && forall line <- lines :: WellEnded(line)
    ensures WellEnded(Join("\n", lines))
  {
    assert lines[0] in lines;
    if |lines| > 1 {
      assert forall line <- lines[1..] :: line in lines;
      JoinIsWellEnded(lines[1..]);
      ConcatIsWellEnded(lines[0], Join("\n", lines[1..]));
    }
  }

  lemma ConcatIsWellEnded(a: string, b: string)
    requires a != "" && !IsSpace(a[0]) && WellEnded(b)
    ensures WellEnded(a + "\n" + b)
  {
    var s := a + "\n" + b;
    assert s[|s| - 1] == b[|b| - 1] && (|b| > 1 ==> s[|s| - 2] == b[|b| - 2]);
  }

  lemma LastOfConcat(front: string, kept: string, more: string)
    requires |kept| + |more| >= 6000
    ensures Newest(front + kept + "\n" + more)
            == if |front + kept + "\n" + more| <= 6000 then front + kept + "\n" + more
               else "[更早摘要已截断]\n" + (kept + "\n" + more)[|kept + "\n" + more| - 6000..]
  {
    assert front + kept + "\n" + more == front + (kept + "\n" + more);
  }

  /** Cutting early and again loses nothing that cutting once would keep. */
  lemma NewestOfNewest(text: string, more: string)
    requires WellEnded(text) && more != ""
    ensures Strip(Newest(text)) != ""
    ensures Newest(Strip(Newest(text)) + "\n" + more) == Newest(Strip(text) + "\n" + more)
  {
    StripWellEnded(text);
    if |text| > 6000 {
      var notice, front, kept := "[更早摘要已截断]\n", text[..|text| - 6000], text[|text| - 6000..];
      NoticeIsWellEnded(kept);
      StripWellEnded(notice + kept);
      assert Unspaced(notice + kept) == notice + Unspaced(kept);
      assert text == front + kept && Unspaced(text) == front + Unspaced(kept);
      LastOfConcat(notice, Unspaced(kept), more);
      LastOfConcat(front, Unspaced(kept), more);
    }
  }

  lemma NoticeIsWellEnded(kept: string)
    requires |kept| >= 2 && (IsSpace(kept[|kept| - 1]) ==> !IsSpace(kept[|kept| - 2]))
    ensures WellEnded("[更早摘要已截断]\n" + kept)
  {
    var s := "[更早摘要已截断]\n" + kept;
    assert s[0] == '[' && s[|s| - 1] == kept[|kept| - 1] && s[|s| - 2] == kept[|kept| - 2];
  }

  // ---------------------------------------------------------------- the summary over runs

  /** The text with the lines of one archiving. */
  function Grown(text: string, lines: seq<string>): string {
    if lines == [] then text else if text == "" then Join("\n", lines) else Strip(text) + "\n" + Join("\n", lines)
  }

  /** All that a run's archiving says, if nothing is cut off. */
  function WholeText(text: string, s: Session, ops: seq<Op>): string
    decreases |ops|
  {
    if ops == [] then text
    else WholeText(Grown(text, SummaryLines(Moved(s, ops[0]))), Apply(s, ops[0]), ops[1..])
  }

  lemma GrownIsWellEnded(text: string, rows: seq<Row>)
    requires text == "" || WellEnded(text)
    ensures rows != [] ==> WellEnded(Join("\n", SummaryLines(rows))) && WellEnded(Grown(text, SummaryLines(rows)))
  {
    if rows != [] {
      var lines := SummaryLines(rows);
      forall line <- lines ensures WellEnded(line) {
        var i :| 0 <= i < |rows| && line == SummaryLine(rows[i]);
        LineIsWellEnded(rows[i]);
      }
      JoinIsWellEnded(lines);
      if text != "" {
        StripWellEnded(text);
        ConcatIsWellEnded(Strip(text), Join("\n", lines));
      }
    }
  }

  lemma StepSummarizes(s: Session, op: Op, text: string)
    requires s.summary == Newest(text) && (text == "" || WellEnded(text))
    ensures Apply(s, op).summary == Newest(Grown(text, SummaryLines(Moved(s, op))))
  {
    var rows := Moved(s, op);
    StepSummary(s, op);
    GrownIsWellEnded(text, rows);
    if rows != [] {
      var more := Join("\n", SummaryLines(rows));
      if text == "" {
        assert Strip("") == "" && [] + SummaryLines(rows) == SummaryLines(rows);
      } else {
        NewestOfNewest(text, more);
        JoinConcat([Strip(s.summary)], SummaryLines(rows));
      }
    }
  }

  /** Over every run, however it spreads its archiving over compactions and full windows: the summary is exactly the
      newest 6000 characters of all that its archiving says, with a notice in front if there is more. */
  lemma {:induction false} RunSummarizes(s: Session, ops: seq<Op>, text: string)
    requires s.summary == Newest(text) && (text == "" || WellEnded(text))
    ensures ApplyAll(s, ops).summary == Newest(WholeText(text, s, ops))
    decreases |ops|
  {
    if ops != [] {
      StepSummarizes(s, ops[0], text);
      GrownIsWellEnded(text, Moved(s, ops[0]));
      RunSummarizes(Apply(s, ops[0]), ops[1..], Grown(text, SummaryLines(Moved(s, ops[0]))));
    }
  }

  lemma {:induction false} JoinConcat(a: seq<string>, b: seq<string>)
    requires a != [] && b != []
    ensures Join("\n", a + b) == Join("\n", a) + "\n" + Join("\n", b)
  {
    if |a| == 1 {
      assert (a + b)[1..] == b;
    } else {
      JoinConcat(a[1..], b);
      assert (a + b)[1..] == a[1..] + b;
    }
  }

  predicate CleanLines(lines: seq<string>) {
    forall line <- lines :: line != "" && Trimmed(line)
  }

  lemma {:induction false} JoinIsTrimmed(lines: seq<string>)
    requires lines != [] && CleanLines(lines)
    ensures Join("\n", lines) != "" && Strip(Join("\n", lines)) == Join("\n", lines)
  {
    assert lines[0] in lines;
    if |lines| > 1 {
      assert forall line <- lines[1..] :: line in lines;
      JoinIsTrimmed(lines[1..]);
    }
    StripFixesTrimmed(Join("\n", lines));
  }

  /** And where no line ends in a space, the text is simply one line per archived row: how many archivings it took
      makes no difference. */
  lemma {:induction false} CleanTextIsAllLines(s: Session, ops: seq<Op>, lines: seq<string>)
    requires CleanLines(lines + LinesMoved(s, ops))
    ensures WholeText(Join("\n", lines), s, ops) == Join("\n", lines + LinesMoved(s, ops))
    decreases |ops|
  {
    if ops == [] {
      assert lines + LinesMoved(s, ops) == lines;
    } else {
      var added := SummaryLines(Moved(s, ops[0]));
      var rest := LinesMoved(Apply(s, ops[0]), ops[1..]);
      assert lines + LinesMoved(s, ops) == (lines + added) + rest;
      assert forall line <- lines :: line in lines + LinesMoved(s, ops);
      CleanTextGrows(lines, added);
      CleanTextIsAllLines(Apply(s, ops[0]), ops[1..], lines + added);
    }
  }

  lemma CleanTextGrows(lines: seq<string>, added: seq<string>)
    requires CleanLines(lines)
    ensures Grown(Join("\n", lines), added) == Join("\n", lines + added)
  {
    if added == [] || lines == [] {
      assert lines + added == if added == [] then lines else added;
    } else {
      JoinIsTrimmed(lines);
      JoinConcat(lines, added);
    }
  }
}
