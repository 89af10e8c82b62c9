/** Skill files: the printer, the parser, and the store that uses them. The text operations come first,
    then what a parser gets of a printed file, then the store. */
module Skills {
  import opened Options
  import opened Strings

  const FENCE := "---"
  const MAX_SKILLS := 50
  const MAX_BODY_BYTES := 16 * 1024
  const MAX_DESCRIPTION := 200

  // ---------------------------------------------------------------- the text operations used

  predicate IsLineBreak(c: char) {
    var n := c as int;
    0x0A <= n <= 0x0D || 0x1C <= n <= 0x1E || n == 0x85 || n == 0x2028 || n == 0x2029
  }

  predicate FenceAt(s: string, i: nat) {
    i + 2 < |s| && s[i] == '-' && s[i + 1] == '-' && s[i + 2] == '-'
  }

  /** The first fence at or after a position. */
  function FindFence(s: string, from: nat): (r: Option<nat>)
    ensures r.Some? ==> from <= r.value && FenceAt(s, r.value) && forall i | from <= i < r.value :: !FenceAt(s, i)
    ensures r.None? ==> forall i | from <= i :: !FenceAt(s, i)
    decreases |s| - from
  {
    if from + 3 > |s| then None else if FenceAt(s, from) then Some(from) else FindFence(s, from + 1)
  }

  /** The first colon at or after a position, or the end. */
  function FindColon(line: string, from: nat): (n: nat)
    requires from <= |line|
    ensures from <= n <= |line| && forall i | from <= i < n :: line[i] != ':'
    ensures n < |line| ==> line[n] == ':'
    decreases |line| - from
  {
    if from == |line| || line[from] == ':' then from else FindColon(line, from + 1)
  }

  /** The first line break at or after a position, or the end. */
  function FindBreak(s: string, from: nat): (n: nat)
    requires from <= |s|
    ensures from <= n <= |s| && forall i | from <= i < n :: !IsLineBreak(s[i])
    ensures n < |s| ==> IsLineBreak(s[n])
    decreases |s| - from
  {
    if from == |s| || IsLineBreak(s[from]) then from else FindBreak(s, from + 1)
  }

  /** str.splitlines(): every line break ends a line, and "\r\n" is one. */
  function Lines(s: string): seq<string>
    decreases |s|
  {
    var n := FindBreak(s, 0);
    if s == "" then []
    else if n == |s| then [s]
    else [s[..n]] + Lines(if s[n] == '\r' && n + 1 < |s| && s[n + 1] == '\n' then s[n + 2..] else s[n + 1..])
  }

  /** The first position that holds no newline, at or after a position. */
  function FirstNonNewline(s: string, from: nat): (n: nat)
    requires from <= |s|
    ensures from <= n <= |s| && forall i | from <= i < n :: s[i] == '\n'
    ensures n < |s| ==> s[n] != '\n'
    decreases |s| - from
  {
    if from == |s| || s[from] != '\n' then from else FirstNonNewline(s, from + 1)
  }

  function LStripNewlines(s: string): string {
    s[FirstNonNewline(s, 0)..]
  }

  function LowerChar(c: char): char {
    if 'A' <= c <= 'Z' then c + 32 as char else c
  }

  function Lower(s: string): string {
    if s == "" then "" else Lower(s[..|s| - 1]) + [LowerChar(s[|s| - 1])]
  }

  // ---------------------------------------------------------------- printing and parsing

  type Meta = map<string, string>

  function Front(name: string, description: string): string {
    "\n" + ("name:" + (" " + name)) + "\n" + ("description:" + (" " + description)) + "\n"
  }

  function Tail(body: string): string {
    "\n\n" + Strip(body) + "\n"
  }

  function Render(name: string, description: string, body: string): string {
    FENCE + Front(name, description) + FENCE + Tail(body)
  }

  function WithLine(meta: Meta, line: string): Meta {
    var n := FindColon(line, 0);
    if n == |line| then meta else meta[Lower(Strip(line[..n])) := Strip(line[n + 1..])]
  }

  function MetaOf(lines: seq<string>): Meta {
    if lines == [] then map[] else WithLine(MetaOf(lines[..|lines| - 1]), lines[|lines| - 1])
  }

  /** Between the first two fences, if the text starts with one and has another: the metadata. */
  function Parse(text: string): (Meta, string) {
    if !(FENCE <= text) || FindFence(text, 3).None? then (map[], text)
    else
      var n := FindFence(text, 3).value;
      (MetaOf(Lines(Strip(text[3..n]))), LStripNewlines(text[n + 3..]))
  }

  method ParseLines(lines: seq<string>) returns (meta: Meta)
    ensures meta == MetaOf(lines)
  {
    meta := map[];
    for i := 0 to |lines|
      invariant meta == MetaOf(lines[..i])
    {
      assert lines[..i + 1][..i] == lines[..i];
      meta := WithLine(meta, lines[i]);
    }
    assert lines[..|lines|] == lines;
  }

  method ParseSkillMd(text: string) returns (meta: Meta, body: string)
    ensures (meta, body) == Parse(text)
  {
    meta, body := map[], text;
    if FENCE <= text {
      var second := FindFence(text, 3);
      if second.Some? {
        meta := ParseLines(Lines(Strip(text[3..second.value])));
        body := LStripNewlines(text[second.value + 3..]);
      }
    }
  }

  // ---------------------------------------------------------------- stripping

  lemma {:induction false} RStripDrops(s: string, blanks: string)
    requires (forall c <- blanks :: IsSpace(c)) && (s != "" ==> !IsSpace(s[|s| - 1]))
    ensures RStrip(s + blanks) == s
  {
    if blanks == "" {
      assert s + blanks == s;
    } else {
      var n := |blanks| - 1;
      assert (s + blanks)[..|s| + n] == s + blanks[..n];
      assert (s + blanks)[|s| + n] == blanks[n];
      RStripDrops(s, blanks[..n]);
    }
  }

  lemma {:induction false} LStripDrops(blanks: string, s: string)
    requires (forall c <- blanks :: IsSpace(c)) && (s != "" ==> !IsSpace(s[0]))
    ensures LStrip(blanks + s) == s
  {
    if blanks == "" {
      assert blanks + s == s;
    } else {
      assert (blanks + s)[1..] == blanks[1..] + s;
      LStripDrops(blanks[1..], s);
    }
  }

  lemma StripDrops(before: string, s: string, after: string)
    requires (forall c <- before :: IsSpace(c)) && (forall c <- after :: IsSpace(c)) && Trimmed(s) && s != ""
    ensures Strip(before + s + after) == s
  {
    assert before + s + after == before + (s + after);
    assert (s + after)[0] == s[0];
    LStripDrops(before, s + after);
    RStripDrops(s, after);
  }

  lemma StripIsTrimmed(s: string)
    ensures Trimmed(Strip(s))
  {
  }

  /** What stripping leaves is a piece of the string. */
  lemma StripIsPiece(s: string) returns (i: nat)
    ensures i + |Strip(s)| <= |s| && Strip(s) == s[i..i + |Strip(s)|]
  {
    i := |s| - |LStrip(s)|;
  }

  // ---------------------------------------------------------------- values without fences or line breaks

  predicate NoFence(s: string) {
    forall i | 0 <= i < |s| :: !FenceAt(s, i)
  }

  predicate OneLine(s: string) {
    forall c <- s :: !IsLineBreak(c)
  }

  predicate Clean(s: string) {
    Trimmed(s) && NoFence(s) && OneLine(s)
  }

  lemma PieceHasNoFence(s: string, i: nat, j: nat)
    requires NoFence(s) && i <= j <= |s|
    ensures NoFence(s[i..j])
  {
    forall k | 0 <= k < |s[i..j]| ensures !FenceAt(s[i..j], k) {
      assert !FenceAt(s, i + k);
    }
  }

  lemma {:induction false} LinesAreClean(s: string)
    requires NoFence(s)
    ensures forall line <- Lines(s) :: NoFence(line) && OneLine(line)
    decreases |s|
  {
    var n := FindBreak(s, 0);
    if n < |s| {
      var m := if s[n] == '\r' && n + 1 < |s| && s[n + 1] == '\n' then n + 2 else n + 1;
      PieceHasNoFence(s, 0, n);
      PieceHasNoFence(s, m, |s|);
      assert s[m..] == s[m..|s|] && s[..n] == s[0..n];
      LinesAreClean(s[m..]);
    }
  }

  lemma StripKeepsClean(s: string)
    requires NoFence(s) && OneLine(s)
    ensures Clean(Strip(s))
  {
    var i := StripIsPiece(s);
    PieceHasNoFence(s, i, i + |Strip(s)|);
    StripIsTrimmed(s);
  }

  lemma LineIsClean(meta: Meta, line: string)
    requires NoFence(line) && OneLine(line) && forall key <- meta :: Clean(meta[key])
    ensures forall key <- WithLine(meta, line) :: Clean(WithLine(meta, line)[key])
  {
    var k := FindColon(line, 0);
    if k < |line| {
      PieceHasNoFence(line, k + 1, |line|);
      assert line[k + 1..] == line[k + 1..|line|];
      StripKeepsClean(line[k + 1..]);
    }
  }

  lemma {:induction false} MetaIsClean(lines: seq<string>)
    requires forall line <- lines :: NoFence(line) && OneLine(line)
    ensures forall key <- MetaOf(lines) :: Clean(MetaOf(lines)[key])
  {
    if lines != [] {
      var n := |lines| - 1;
      assert lines[n] in lines && forall l <- lines[..n] :: l in lines;
      MetaIsClean(lines[..n]);
      LineIsClean(MetaOf(lines[..n]), lines[n]);
    }
  }

  /** Whatever the text, every value that is parsed is trimmed, on one line and without fences. */
  lemma ParsedValuesAreClean(text: string)
    ensures forall key <- Parse(text).0 :: Clean(Parse(text).0[key])
  {
    if FENCE <= text && FindFence(text, 3).Some? {
      var n := FindFence(text, 3).value;
      var front := text[3..n];
      forall k | 0 <= k < |front| ensures !FenceAt(front, k) {
        assert !FenceAt(text, 3 + k);
      }
      var i := StripIsPiece(front);
      PieceHasNoFence(front, i, i + |Strip(front)|);
      LinesAreClean(Strip(front));
      MetaIsClean(Lines(Strip(front)));
    }
  }

  // ---------------------------------------------------------------- parsing what was printed

  lemma NoFenceConcat(a: string, b: string)
    requires NoFence(a) && NoFence(b) && (a == "" || a[|a| - 1] != '-' || b == "" || b[0] != '-')
    ensures NoFence(a + b)
  {
    forall k | 0 <= k < |a + b| ensures !FenceAt(a + b, k) {
      if k < |a| {
        assert !FenceAt(a, k);
      } else {
        assert !FenceAt(b, k - |a|);
      }
    }
  }

  lemma FrontHasNoFence(name: string, description: string)
    requires NoFence(name) && NoFence(description)
    ensures NoFence(Front(name, description))
  {
    var first, second := "name:" + (" " + name), "description:" + (" " + description);
    NoFenceConcat(" ", name);
    NoFenceConcat("name:", " " + name);
    NoFenceConcat(" ", description);
    NoFenceConcat("description:", " " + description);
    NoFenceConcat("\n", first);
    NoFenceConcat("\n" + first, "\n");
    NoFenceConcat("\n" + first + "\n", second);
    NoFenceConcat("\n" + first + "\n" + second, "\n");
  }

  lemma SecondFence(front: string, rest: string)
    requires NoFence(front) && front != "" && front[|front| - 1] == '\n'
    ensures FindFence(FENCE + front + FENCE + rest, 3) == Some(3 + |front|)
  {
    var text := FENCE + front + FENCE + rest;
    assert FenceAt(text, 3 + |front|);
    assert text[2 + |front|] == '\n';
    assert forall j | 0 <= j < |front| :: text[3 + j] == front[j];
    forall i | 3 <= i < 3 + |front| ensures !FenceAt(text, i) {
      assert !FenceAt(front, i - 3);
    }
  }

  lemma FencedPieces(front: string, rest: string)
    ensures (FENCE + front + FENCE + rest)[3..3 + |front|] == front
    ensures (FENCE + front + FENCE + rest)[3 + |front| + 3..] == rest
    ensures FENCE <= FENCE + front + FENCE + rest
  {
  }

  /** A fenced front, whatever follows: the second fence is the one that closes it. */
  lemma FencedParses(front: string, rest: string)
    requires NoFence(front) && front != "" && front[|front| - 1] == '\n'
    ensures Parse(FENCE + front + FENCE + rest) == (MetaOf(Lines(Strip(front))), LStripNewlines(rest))
  {
    SecondFence(front, rest);
    FencedPieces(front, rest);
  }

  lemma RStripSkips(s: string)
    requires s != "" && IsSpace(s[|s| - 1])
    ensures RStrip(s) == RStrip(s[..|s| - 1])
  {
  }

  lemma {:induction false} RStripConcat(a: string, b: string)
    ensures RStrip(a + b) == if RStrip(b) == "" then RStrip(a) else a + RStrip(b)
  {
    if b == "" {
      assert a + b == a;
    } else {
      var n := |b| - 1;
      LastOfConcat(a, b);
      if IsSpace(b[n]) {
        RStripConcat(a, b[..n]);
        RStripSkips(a + b);
        RStripSkips(b);
      } else {
        RStripStays(a + b);
        RStripStays(b);
      }
    }
  }

  lemma LastOfConcat(a: string, b: string)
    requires b != ""
    ensures (a + b)[..|a + b| - 1] == a + b[..|b| - 1] && (a + b)[|a + b| - 1] == b[|b| - 1]
  {
  }

  lemma RStripStays(s: string)
    requires s != "" && !IsSpace(s[|s| - 1])
    ensures RStrip(s) == s
  {
  }

  lemma StrippedLines(one: string, two: string)
    requires one != "" && !IsSpace(one[0]) && RStrip(two) != ""
    ensures Strip("\n" + one + "\n" + two + "\n") == one + "\n" + RStrip(two)
  {
    var rest := one + "\n" + two + "\n";
    assert "\n" + one + "\n" + two + "\n" == "\n" + rest && rest[0] == one[0];
    LStripDrops("\n", rest);
    RStripConcat(one + "\n" + two, "\n");
    assert "\n"[..0] == "";
    RStripConcat(one + "\n", two);
  }

  lemma BreakAfter(line: string, rest: string)
    requires OneLine(line) && (rest == "" || IsLineBreak(rest[0]))
    ensures FindBreak(line + rest, 0) == |line|
  {
    forall i | 0 <= i < |line| ensures !IsLineBreak((line + rest)[i]) {
      assert (line + rest)[i] == line[i] && line[i] in line;
    }
    assert rest != "" ==> (line + rest)[|line|] == rest[0];
  }

  lemma TwoLines(one: string, two: string)
    requires OneLine(one) && OneLine(two) && two != ""
    ensures Lines(one + "\n" + two) == [one, two]
  {
    var s := one + "\n" + two;
    assert s == one + ("\n" + two);
    BreakAfter(one, "\n" + two);
    assert s[..|one|] == one && s[|one| + 1..] == two;
    BreakAfter(two, "");
    assert two + "" == two;
    assert Lines(two) == [two];
  }

  lemma ColonAfter(key: string, rest: string)
    requires forall c <- key :: c != ':'
    ensures FindColon(key + ":" + rest, 0) == |key|
  {
    forall i | 0 <= i < |key| ensures (key + ":" + rest)[i] != ':' {
      assert (key + ":" + rest)[i] == key[i] && key[i] in key;
    }
    assert (key + ":" + rest)[|key|] == ':';
  }

  lemma KeyLine(meta: Meta, key: string, rest: string, value: string)
    requires key != "" && Trimmed(key) && Lower(key) == key && (forall c <- key :: c != ':')
    requires Strip(rest) == value
    ensures WithLine(meta, key + ":" + rest) == meta[key := value]
  {
    ColonAfter(key, rest);
    KeyPieces(key, rest);
    StripFixesTrimmed(key);
  }

  lemma KeyPieces(key: string, rest: string)
    ensures (key + ":" + rest)[..|key|] == key && (key + ":" + rest)[|key| + 1..] == rest
    ensures |key + ":" + rest| > |key|
  {
  }

  /** A value after a space, its trailing space stripped with the front's. */
  lemma SpaceThenValue(value: string)
    requires Trimmed(value)
    ensures Strip(" " + value) == value && Strip(RStrip(" " + value)) == value
  {
    LStripDrops(" ", value);
    StripFixesTrimmed(value);
    RStripConcat(" ", value);
    RStripDrops("", " ");
    assert "" + " " == " ";
  }

  /** The stripped end of a key's line. */
  lemma KeyThenValue(key: string, value: string)
    ensures RStrip(key + ":" + (" " + value)) == key + ":" + RStrip(" " + value)
  {
    RStripConcat(key + ":", " " + value);
    assert key + ":" + "" == key + ":";
  }

  lemma TwoKeysParse(k1: string, v1: string, k2: string, v2: string)
    requires k1 != "" && Trimmed(k1) && Lower(k1) == k1 && OneLine(k1) && (forall c <- k1 :: c != ':')
    requires k2 != "" && Trimmed(k2) && Lower(k2) == k2 && OneLine(k2) && (forall c <- k2 :: c != ':')
    requires Clean(v1) && Clean(v2)
    ensures MetaOf(Lines(Strip("\n" + (k1 + ":" + (" " + v1)) + "\n" + (k2 + ":" + (" " + v2)) + "\n")))
            == map[k1 := v1, k2 := v2]
  {
    var one, end := k1 + ":" + (" " + v1), RStrip(" " + v2);
    var two := k2 + ":" + end;
    KeyThenValue(k2, v2);
    assert one[0] == k1[0];
    StrippedLines(one, k2 + ":" + (" " + v2));
    TwoLines(one, two);
    SpaceThenValue(v1);
    SpaceThenValue(v2);
    KeyLine(map[], k1, " " + v1, v1);
    KeyLine(map[k1 := v1], k2, end, v2);
    TwoLinesMeta(one, two);
  }

  lemma TwoLinesMeta(one: string, two: string)
    ensures MetaOf([one, two]) == WithLine(WithLine(map[], one), two)
  {
    assert [one, two][..1] == [one] && [one, two][1] == two;
    assert [one][..0] == [] && MetaOf([]) == map[];
    assert MetaOf([one]) == WithLine(MetaOf([one][..0]), one);
  }

  lemma {:induction false} LowerKeeps(s: string)
    requires forall i | 0 <= i < |s| :: LowerChar(s[i]) == s[i]
    ensures Lower(s) == s
  {
    if s != "" {
      assert s == s[..|s| - 1] + [s[|s| - 1]];
      LowerKeeps(s[..|s| - 1]);
    }
  }

  lemma FrontParses(name: string, description: string)
    requires Clean(name) && Clean(description)
    ensures MetaOf(Lines(Strip(Front(name, description)))) == map["name" := name, "description" := description]
  {
    assert "name" + ":" == "name:" && "description" + ":" == "description:";
    LowerKeeps("name");
    LowerKeeps("description");
    TwoKeysParse("name", name, "description", description);
  }

  lemma BodyParses(body: string)
    ensures LStripNewlines(Tail(body)) == if Strip(body) == "" then "" else Strip(body) + "\n"
  {
    StripIsTrimmed(body);
    TailParses(Strip(body));
  }

  lemma TailParses(stripped: string)
    requires Trimmed(stripped)
    ensures LStripNewlines("\n\n" + stripped + "\n") == if stripped == "" then "" else stripped + "\n"
  {
    var s := "\n\n" + stripped + "\n";
    var n := FirstNonNewline(s, 0);
    assert s[0] == '\n' && s[1] == '\n';
    if stripped == "" {
      assert |s| == 3 && s[2] == '\n';
    } else {
      assert s[2] == stripped[0] && IsSpace('\n');
      assert s[2..] == stripped + "\n";
    }
  }

  /** Parsing a printed file gives back what was printed exactly when name and description are clean and
      the body is not blank; a body may hold fences, and a description colons. */
  lemma ParseUndoesRender(name: string, description: string, body: string)
    ensures Parse(Render(name, description, body))
              == (map["name" := name, "description" := description], Strip(body) + "\n")
            <==> Clean(name) && Clean(description) && Strip(body) != ""
  {
    var text := Render(name, description, body);
    var meta := map["name" := name, "description" := description];
    ParsedValuesAreClean(text);
    if Parse(text).0 == meta {
      assert meta["name"] == name && meta["description"] == description;
    }
    if Clean(name) && Clean(description) {
      RenderedParses(name, description, body);
    }
  }

  lemma RenderedParses(name: string, description: string, body: string)
    requires Clean(name) && Clean(description)
    ensures Parse(Render(name, description, body))
            == (map["name" := name, "description" := description], if Strip(body) == "" then "" else Strip(body) + "\n")
  {
    FrontHasNoFence(name, description);
    FencedParses(Front(name, description), Tail(body));
    FrontParses(name, description);
    BodyParses(body);
  }

  /** Printing again what was read from a printed file gives the same file. */
  lemma RenderAgainIsTheSame(name: string, description: string, body: string)
    requires Clean(name) && Clean(description)
    ensures var (meta, b) := Parse(Render(name, description, body));
            && "name" in meta && "description" in meta
            && Render(meta["name"], meta["description"], b) == Render(name, description, body)
  {
    RenderedParses(name, description, body);
    StripIsTrimmed(body);
    StrippedAgain(Strip(body));
  }

  lemma StrippedAgain(stripped: string)
    requires Trimmed(stripped)
    ensures Strip(if stripped == "" then "" else stripped + "\n") == stripped
  {
    if stripped != "" {
      StripDrops("", stripped, "\n");
      assert "" + stripped + "\n" == stripped + "\n";
    }
  }

  // ---------------------------------------------------------------- the store

  datatype WriteReply = Written(description: string) | InvalidName | CapReached | DescriptionRequired | BodyTooLong
  datatype ReadReply = Read(description: string, content: string) | BadName | NotFound

  predicate IsName(name: string) {
    && 0 < |name| <= 64 && name[0] != '-'
    && forall c <- name :: 'a' <= c <= 'z' || '0' <= c <= '9' || c == '-'
  }

  function ByteLength(s: string): nat {
    if s == "" then 0 else
      var n := s[0] as int;
      (if n < 0x80 then 1 else if n < 0x800 then 2 else if n < 0x1_0000 then 3 else 4) + ByteLength(s[1..])
  }

  function Shortened(description: string): string {
    var d := Strip(description);
    if |d| <= MAX_DESCRIPTION then d else d[..MAX_DESCRIPTION]
  }

  type Files = map<string, string>

  /** What read_text() makes of a file's characters: "\r\n" and "\r" arrive as "\n". */
  function Universal(s: string): string {
    if s == "" then "" else Translated(s) + Universal(s[1..])
  }

  /** What the first character becomes: a carriage return vanishes before a newline, else turns into one. */
  function Translated(s: string): string
    requires s != ""
  {
    if s[0] != '\r' then [s[0]] else if |s| > 1 && s[1] == '\n' then "" else "\n"
  }

  function WriteSpec(own: Files, name: string, description: string, body: string): (Files, WriteReply) {
    if !IsName(name) then (own, InvalidName)
    else if name !in own && |own| >= MAX_SKILLS then (own, CapReached)
    else if Shortened(description) == "" then (own, DescriptionRequired)
    else if ByteLength(body) > MAX_BODY_BYTES then (own, BodyTooLong)
    else (own[name := Render(name, Shortened(description), body)], Written(Shortened(description)))
  }

  function ReadSpec(own: Files, builtin: Files, name: string): ReadReply {
    if !IsName(name) then BadName
    else if name !in own && name !in builtin then NotFound
    else
      var (meta, body) := Parse(Universal(if name in own then own[name] else builtin[name]));
      Read(if "description" in meta then meta["description"] else "", body)
  }

  class SkillStore {
    var own: Files
    const builtin: Files

    constructor (builtin: Files)
      ensures this.builtin == builtin && own == map[]
    {
      this.builtin, own := builtin, map[];
    }

    method Write(name: string, description: string, body: string) returns (reply: WriteReply)
      modifies this
      ensures (own, reply) == WriteSpec(old(own), name, description, body)
    {
      if !IsName(name) { return InvalidName; }
      if name !in own && |own| >= MAX_SKILLS { return CapReached; }
      var d := Strip(description);
      if |d| > MAX_DESCRIPTION { d := d[..MAX_DESCRIPTION]; }
      if d == "" { return DescriptionRequired; }
      if ByteLength(body) > MAX_BODY_BYTES { return BodyTooLong; }
      own := own[name := Render(name, d, body)];
      return Written(d);
    }

    method Read(name: string) returns (reply: ReadReply)
      ensures reply == ReadSpec(own, builtin, name)
    {
      if !IsName(name) { return BadName; }
      var text := "";
      if name in own {
        text := own[name];
      } else if name in builtin {
        text := builtin[name];
      } else {
        return NotFound;
      }
      var meta, body := ParseSkillMd(Universal(text));
      return ReadReply.Read(if "description" in meta then meta["description"] else "", body);
    }
  }

  // ---------------------------------------------------------------- what a reader gets of what was written

  lemma NameIsTrimmedLine(name: string)
    requires IsName(name)
    ensures Trimmed(name) && OneLine(name)
  {
    assert name[0] in name && name[|name| - 1] in name;
  }

  /** Fences of a text's middle part, by their position in the whole. */
  lemma FencesInMiddle(before: string, name: string, after: string, k: nat)
    requires k + 2 < |name|
    ensures FenceAt(FENCE + (before + name + after), 3 + |before| + k) <==> FenceAt(name, k)
  {
    var text := FENCE + (before + name + after);
    var n := 3 + |before| + k;
    assert text[n] == name[k] && text[n + 1] == name[k + 1] && text[n + 2] == name[k + 2];
  }

  lemma NoFenceBefore(before: string, rest: string, i: nat)
    requires (forall c <- before :: c != '-') && 3 <= i < 3 + |before|
    ensures !FenceAt(FENCE + (before + rest), i)
  {
    assert (FENCE + (before + rest))[i] == before[i - 3] && before[i - 3] in before;
  }

  /** The second fence of a printed file is the first fence inside the name, if it has one. */
  lemma FenceInName(before: string, name: string, after: string, j: nat)
    requires FindFence(name, 0) == Some(j) && forall c <- before :: c != '-'
    ensures FindFence(FENCE + (before + name + after), 3) == Some(3 + |before| + j)
  {
    var text := FENCE + (before + name + after);
    FencesInMiddle(before, name, after, j);
    forall i | 3 <= i < 3 + |before| + j ensures !FenceAt(text, i) {
      if i < 3 + |before| {
        NoFenceBefore(before, name + after, i);
        assert before + (name + after) == before + name + after;
      } else {
        FencesInMiddle(before, name, after, i - 3 - |before|);
      }
    }
  }

  lemma CutAtFence(before: string, name: string, after: string, j: nat)
    requires j <= |name|
    ensures (FENCE + (before + name + after))[3..3 + |before| + j] == before + name[..j]
  {
  }

  lemma MetaOfKeyLine(key: string, end: string)
    requires key != "" && Trimmed(key) && Lower(key) == key && OneLine(key) && (forall c <- key :: c != ':')
    requires OneLine(end)
    ensures MetaOf(Lines(key + ":" + end)) == map[key := Strip(end)]
  {
    LoneLine(key + ":" + end);
    KeyLine(map[], key, end, Strip(end));
  }

  lemma OneKeyParses(key: string, value: string)
    requires key != "" && Trimmed(key) && Lower(key) == key && OneLine(key) && (forall c <- key :: c != ':')
    requires OneLine(value)
    ensures MetaOf(Lines(Strip("\n" + (key + ":" + (" " + value))))) == map[key := Strip(RStrip(" " + value))]
  {
    assert (key + ":" + (" " + value))[0] == key[0];
    StrippedLine(key + ":" + (" " + value));
    KeyThenValue(key, value);
    assert OneLine(RStrip(" " + value));
    MetaOfKeyLine(key, RStrip(" " + value));
  }

  lemma StrippedLine(line: string)
    requires line != "" && !IsSpace(line[0])
    ensures Strip("\n" + line) == RStrip(line)
  {
    LStripDrops("\n", line);
  }

  lemma LoneLine(line: string)
    requires OneLine(line) && line != ""
    ensures MetaOf(Lines(line)) == WithLine(map[], line)
  {
    BreakAfter(line, "");
    assert line + "" == line && Lines(line) == [line];
    assert [line][..0] == [] && MetaOf([]) == map[];
    assert MetaOf([line]) == WithLine(MetaOf([line][..0]), line);
  }

  const BEFORE_NAME := "\n" + ("name:" + " ")

  function AfterName(description: string, body: string): string {
    "\n" + ("description:" + (" " + description)) + "\n" + FENCE + Tail(body)
  }

  lemma RenderAroundName(name: string, description: string, body: string)
    ensures Render(name, description, body) == FENCE + (BEFORE_NAME + name + AfterName(description, body))
  {
    RenderShape(name, "description:" + (" " + description), Tail(body));
  }

  lemma RenderShape(name: string, line: string, tail: string)
    ensures FENCE + ("\n" + ("name:" + (" " + name)) + "\n" + line + "\n") + FENCE + tail
            == FENCE + (BEFORE_NAME + name + ("\n" + line + "\n" + FENCE + tail))
  {
  }

  lemma FrontAroundName(piece: string)
    ensures BEFORE_NAME + piece == "\n" + ("name" + ":" + (" " + piece))
  {
  }

  lemma ParseBetweenFences(text: string, front: string)
    requires FENCE <= text && FindFence(text, 3) == Some(3 + |front|) && text[3..3 + |front|] == front
    ensures Parse(text).0 == MetaOf(Lines(Strip(front)))
  {
  }

  lemma CutNameParses(piece: string)
    requires OneLine(piece)
    ensures MetaOf(Lines(Strip(BEFORE_NAME + piece))).Keys == {"name"}
  {
    FrontAroundName(piece);
    LowerKeeps("name");
    OneKeyParses("name", piece);
  }

  lemma FencedNameIsAllThatParses(name: string, after: string)
    requires OneLine(name) && !NoFence(name)
    ensures Parse(FENCE + (BEFORE_NAME + name + after)).0.Keys == {"name"}
  {
    var j := FindFence(name, 0).value;
    FenceInName(BEFORE_NAME, name, after, j);
    CutAtFence(BEFORE_NAME, name, after, j);
    ParseBetweenFences(FENCE + (BEFORE_NAME + name + after), BEFORE_NAME + name[..j]);
    CutNameParses(name[..j]);
  }

  predicate NoReturn(s: string) {
    forall c <- s :: c != '\r'
  }

  /** Without carriage returns before it, the rest is translated on its own. */
  lemma {:induction false} UniversalAfter(before: string, s: string)
    requires NoReturn(before)
    ensures Universal(before + s) == before + Universal(s)
  {
    if before == "" {
      assert before + s == s;
    } else {
      assert (before + s)[1..] == before[1..] + s && before[0] in before;
      assert forall c <- before[1..] :: c in before;
      UniversalAfter(before[1..], s);
    }
  }

  lemma {:induction false} UniversalHasNoReturn(s: string)
    ensures NoReturn(Universal(s))
  {
    if s != "" {
      UniversalHasNoReturn(s[1..]);
    }
  }

  lemma UniversalFixesIff(s: string)
    ensures Universal(s) == s <==> NoReturn(s)
  {
    UniversalHasNoReturn(s);
    if NoReturn(s) {
      UniversalAfter(s, "");
      assert s + "" == s;
    }
  }

  /** Text that does not end in white space is translated on its own, and keeps its last character. */
  lemma {:induction false} UniversalKeepsEnd(s: string, after: string)
    requires s != "" && !IsSpace(s[|s| - 1])
    ensures Universal(s + after) == Universal(s) + Universal(after)
    ensures Universal(s) != "" && Universal(s)[|Universal(s)| - 1] == s[|s| - 1]
  {
    var rest := s[1..];
    assert (s + after)[1..] == rest + after;
    assert IsSpace('\r') && Translated(s + after) == Translated(s);
    if rest == "" {
      assert rest + after == after && Universal(s) == [s[0]] + "";
    } else {
      UniversalKeepsEnd(rest, after);
      Associate(Translated(s), Universal(rest), Universal(after));
    }
  }

  lemma Associate(a: string, b: string, c: string)
    ensures a + (b + c) == a + b + c
  {
  }

  lemma UniversalKeepsTrimmed(s: string)
    requires Trimmed(s) && s != ""
    ensures Trimmed(Universal(s)) && Universal(s) != ""
    ensures Universal(s + "\n") == Universal(s) + "\n"
  {
    UniversalKeepsEnd(s, "\n");
    assert IsSpace('\r') && Universal("\n") == "\n";
    assert Universal(s)[0] == s[0];
  }

  lemma NoReturnConcat(a: string, b: string)
    requires NoReturn(a) && NoReturn(b)
    ensures NoReturn(a + b)
  {
  }

  lemma FrontHasNoReturn(name: string, description: string)
    requires NoReturn(name) && NoReturn(description)
    ensures NoReturn(FENCE + Front(name, description) + FENCE)
  {
    var first, second := "name:" + (" " + name), "description:" + (" " + description);
    NoReturnConcat(" ", name);
    NoReturnConcat("name:", " " + name);
    NoReturnConcat(" ", description);
    NoReturnConcat("description:", " " + description);
    NoReturnConcat("\n", first);
    NoReturnConcat("\n" + first, "\n");
    NoReturnConcat("\n" + first + "\n", second);
    NoReturnConcat("\n" + first + "\n" + second, "\n");
    NoReturnConcat(FENCE, Front(name, description));
    NoReturnConcat(FENCE + Front(name, description), FENCE);
  }

  lemma OneLineHasNoReturn(s: string)
    requires OneLine(s)
    ensures NoReturn(s)
  {
    assert IsLineBreak('\r');
  }

  /** What is read of a printed file with clean front is the same front with the body's breaks translated. */
  lemma UniversalRender(name: string, description: string, body: string)
    requires OneLine(name) && OneLine(description) && Strip(body) != ""
    ensures Universal(Render(name, description, body)) == Render(name, description, Universal(Strip(body)))
    ensures Strip(Universal(Strip(body))) == Universal(Strip(body)) != ""
  {
    OneLineHasNoReturn(name);
    OneLineHasNoReturn(description);
    FrontHasNoReturn(name, description);
    StripIsTrimmed(body);
    UniversalKeepsTrimmed(Strip(body));
    StripFixesTrimmed(Universal(Strip(body)));
    UniversalTail(FENCE + Front(name, description) + FENCE, Strip(body));
  }

  lemma UniversalTail(front: string, stripped: string)
    requires NoReturn(front) && Universal(stripped + "\n") == Universal(stripped) + "\n"
    ensures Universal(front + ("\n\n" + stripped + "\n")) == front + ("\n\n" + Universal(stripped) + "\n")
  {
    UniversalAfter(front, "\n\n" + stripped + "\n");
    assert "\n\n" + stripped + "\n" == "\n\n" + (stripped + "\n");
    UniversalAfter("\n\n", stripped + "\n");
    assert "\n\n" + (Universal(stripped) + "\n") == "\n\n" + Universal(stripped) + "\n";
  }

  /** A fence in the name hides the description from readers, too. */
  lemma FencedNameIsHiddenFromReaders(name: string, description: string, body: string)
    requires OneLine(name) && !NoFence(name)
    ensures "description" !in Parse(Universal(Render(name, description, body))).0
  {
    var after := AfterName(description, body);
    RenderAroundName(name, description, body);
    OneLineHasNoReturn(name);
    NoReturnConcat(BEFORE_NAME, name);
    NoReturnConcat(FENCE, BEFORE_NAME + name);
    assert FENCE + (BEFORE_NAME + name + after) == FENCE + (BEFORE_NAME + name) + after;
    UniversalAfter(FENCE + (BEFORE_NAME + name), after);
    assert FENCE + (BEFORE_NAME + name + Universal(after)) == FENCE + (BEFORE_NAME + name) + Universal(after);
    FencedNameIsAllThatParses(name, Universal(after));
  }

  /** What a reader gets of a written skill with a clean front. */
  lemma CleanFrontIsRead(name: string, description: string, body: string)
    requires Clean(name) && Clean(description)
    ensures Parse(Universal(Render(name, description, body)))
            == (map["name" := name, "description" := description],
                if Strip(body) == "" then "" else Universal(Strip(body)) + "\n")
  {
    if Strip(body) == "" {
      BlankRender(name, description, body);
      RenderedParses(name, description, body);
    } else {
      UniversalRender(name, description, body);
      RenderedParses(name, description, Universal(Strip(body)));
    }
  }

  lemma BlankRender(name: string, description: string, body: string)
    requires OneLine(name) && OneLine(description) && Strip(body) == ""
    ensures Universal(Render(name, description, body)) == Render(name, description, body)
  {
    OneLineHasNoReturn(name);
    OneLineHasNoReturn(description);
    FrontHasNoReturn(name, description);
    NoReturnConcat(FENCE + Front(name, description) + FENCE, Tail(body));
    UniversalFixesIff(Render(name, description, body));
  }

  /** A read right after a write parses the file just written. */
  lemma WrittenIsRead(own: Files, builtin: Files, name: string, description: string, body: string)
    requires WriteSpec(own, name, description, body).1.Written?
    ensures IsName(name) && Shortened(description) != ""
    ensures var (meta, content) := Parse(Universal(Render(name, Shortened(description), body)));
            ReadSpec(WriteSpec(own, name, description, body).0, builtin, name)
            == Read(if "description" in meta then meta["description"] else "", content)
  {
  }

  lemma SameBeforeNewline(a: string, b: string)
    ensures a + "\n" == b + "\n" <==> a == b
  {
    if a + "\n" == b + "\n" {
      assert (a + "\n")[..|a|] == a && (b + "\n")[..|b|] == b;
    }
  }

  /** The same for one text: what its parse says of a description and a body. */
  lemma ReadBackIff(name: string, d: string, body: string)
    requires OneLine(name) && Trimmed(name) && d != ""
    ensures var (meta, content) := Parse(Universal(Render(name, d, body)));
            ("description" in meta && meta["description"] == d && content == Strip(body) + "\n")
            <==> NoFence(name) && Clean(d) && Strip(body) != "" && NoReturn(Strip(body))
  {
    var (meta, content) := Parse(Universal(Render(name, d, body)));
    ParsedValuesAreClean(Universal(Render(name, d, body)));
    if !NoFence(name) {
      FencedNameIsHiddenFromReaders(name, d, body);
    } else if Clean(d) {
      CleanFrontIsRead(name, d, body);
      UniversalFixesIff(Strip(body));
      assert content == Strip(body) + "\n" <==> Strip(body) != "" && Universal(Strip(body)) == Strip(body) by {
        SameBeforeNewline(Universal(Strip(body)), Strip(body));
      }
    }
  }

  /** Reading a skill that was just written gives back the description kept and the stripped body exactly
      when the name holds no fence, the description (after shortening) is clean, and the body is not blank
      and holds no carriage return between its ends. */
  lemma WriteThenReadIff(own: Files, builtin: Files, name: string, description: string, body: string)
    requires WriteSpec(own, name, description, body).1.Written?
    ensures ReadSpec(WriteSpec(own, name, description, body).0, builtin, name)
              == Read(Shortened(description), Strip(body) + "\n")
            <==> NoFence(name) && Clean(Shortened(description)) && Strip(body) != "" && NoReturn(Strip(body))
  {
    WrittenIsRead(own, builtin, name, description, body);
    NameIsTrimmedLine(name);
    ReadBackIff(name, Shortened(description), body);
  }

  lemma AcceptedIsWritten(own: Files, name: string, description: string, body: string)
    requires IsName(name) && |own| < MAX_SKILLS && 4 * |body| <= MAX_BODY_BYTES
    requires Trimmed(description) && 0 < |description| <= MAX_DESCRIPTION
    ensures WriteSpec(own, name, description, body).1 == Written(description)
    ensures Shortened(description) == description
  {
    StripFixesTrimmed(description);
    BytesAtMost(body);
  }

  lemma {:induction false} BytesAtMost(s: string)
    ensures ByteLength(s) <= 4 * |s|
  {
    if s != "" {
      BytesAtMost(s[1..]);
    }
  }

  lemma StoredButChanged(own: Files, builtin: Files, name: string, d: string, body: string)
    requires IsName(name) && |own| < MAX_SKILLS && 4 * |body| <= MAX_BODY_BYTES
    requires Trimmed(d) && 0 < |d| <= MAX_DESCRIPTION && Trimmed(body)
    requires !NoFence(name) || !NoReturn(body)
    ensures WriteSpec(own, name, d, body).1 == Written(d)
    ensures ReadSpec(WriteSpec(own, name, d, body).0, builtin, name) != Read(d, body + "\n")
  {
    AcceptedIsWritten(own, name, d, body);
    StripFixesTrimmed(body);
    WriteThenReadIff(own, builtin, name, d, body);
  }

  /** Three dashes in a name: the skill is stored, and reading it does not give it back. */
  lemma FencedNameIsLost(own: Files, builtin: Files)
    requires |own| < MAX_SKILLS
    ensures WriteSpec(own, "a---b", "d", "x").1 == Written("d")
    ensures ReadSpec(WriteSpec(own, "a---b", "d", "x").0, builtin, "a---b") != Read("d", "x" + "\n")
  {
    var name := "a---b";
    assert FenceAt(name, 1);
    StoredButChanged(own, builtin, name, "d", "x");
  }

  /** A carriage return inside a body: the skill is stored, and reading it does not give it back. */
  lemma ReturnInBodyIsLost(own: Files, builtin: Files)
    requires |own| < MAX_SKILLS
    ensures WriteSpec(own, "ab", "d", "a\r\nb").1 == Written("d")
    ensures ReadSpec(WriteSpec(own, "ab", "d", "a\r\nb").0, builtin, "ab") != Read("d", "a\r\nb" + "\n")
  {
    var body := "a\r\nb";
    assert body[1] in body;
    StoredButChanged(own, builtin, "ab", "d", body);
  }
}
