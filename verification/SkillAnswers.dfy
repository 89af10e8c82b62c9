/** Which check turns away a skill, what of it is stored, and what the metadata of a file is made of: its lines, their
    keys and their values. */
module SkillAnswers {
  import opened Options
  import opened Checks
  import opened Strings
  import opened Skills

  // ---------------------------------------------------------------- storing

  /** A lower-case ASCII letter or a digit, by code. */
  predicate Plain(c: char) {
    48 <= c as int <= 57 || 97 <= c as int <= 122
  }

  predicate WellNamed(name: string) {
    1 <= |name| <= 64 && Plain(name[0]) && forall c <- name :: Plain(c) || c == '-'
  }

  lemma WellNamedIffName(name: string)
    ensures WellNamed(name) <==> IsName(name)
  {
    if name != "" {
      assert name[0] in name;
    }
  }

  predicate Blank(s: string) {
    forall c <- s :: IsSpace(c)
  }

  lemma BlankIffStripped(s: string)
    ensures Blank(s) <==> Strip(s) == ""
  {
    var n := FirstNonSpace(s, 0);
    if n < |s| {
      assert s[n] in s;
    }
    if !Blank(s) {
      assert LStrip(s) != "";
    }
  }

  /** How many bytes UTF-8 takes for a text: those of its parts, and one to four for a character. */
  lemma {:induction false} BytesOfParts(a: string, b: string)
    ensures ByteLength(a + b) == ByteLength(a) + ByteLength(b)
  {
    if a == "" {
      assert a + b == b;
    } else {
      assert (a + b)[1..] == a[1..] + b;
      BytesOfParts(a[1..], b);
    }
  }

  lemma BytesOfOne(c: char)
    ensures ByteLength([c]) == if c as int <= 0x7F then 1 else if c as int <= 0x7FF then 2
                               else if c as int <= 0xFFFF then 3 else 4
  {
    assert [c][1..] == "";
  }

  function Refusal(reply: WriteReply): Option<WriteReply> {
    if reply.Written? then None else Some(reply)
  }

  function WriteChecks(own: Files, name: string, description: string, body: string): seq<Check<WriteReply>> {
    [Check(WellNamed(name), InvalidName),
     Check(name in own || |own| < 50, CapReached),
     Check(!Blank(description), DescriptionRequired),
     Check(ByteLength(body) <= 16384, BodyTooLong)]
  }

  /** A write answers by its checks. It keeps the first two hundred characters of the description without the white
      space around it, and writes the one file; a refusal writes nothing. */
  lemma WriteAnswers(own: Files, name: string, description: string, body: string)
    ensures var (own', reply) := WriteSpec(own, name, description, body);
            && AnswersTo(WriteChecks(own, name, description, body), Refusal(reply))
            && (!reply.Written? ==> own' == own)
            && (reply.Written? ==>
                  && reply.description <= Strip(description)
                  && |reply.description| == (if |Strip(description)| <= 200 then |Strip(description)| else 200)
                  && own' == own[name := Render(name, reply.description, body)])
  {
    WellNamedIffName(name);
    BlankIffStripped(description);
    var c := WriteChecks(own, name, description, body);
    var k := FirstFailing(c);
    assert c == [c[0], c[1], c[2], c[3]];
  }

  /** A read is refused for a bad name or an absent skill, and an own skill hides a built-in one. */
  lemma ReadAnswers(own: Files, builtin: Files, name: string)
    ensures var reply := ReadSpec(own, builtin, name);
            && (reply == BadName <==> !WellNamed(name))
            && (reply == NotFound <==> WellNamed(name) && name !in own && name !in builtin)
            && (name in own ==> reply == ReadSpec(own, map[], name))
            && (name !in own ==> reply == ReadSpec(builtin, map[], name))
  {
    WellNamedIffName(name);
  }

  // ---------------------------------------------------------------- metadata

  predicate NoBreak(s: string) {
    forall i | 0 <= i < |s| :: !IsLineBreak(s[i])
  }

  /** One line break: a carriage return with the newline after it, or any other by itself. */
  predicate OneBreak(s: string, rest: string) {
    s == "\r\n" || (|s| == 1 && IsLineBreak(s[0]) && !(s == "\r" && rest != "" && rest[0] == '\n'))
  }

  /** A text without a break is one line, and a text with one is the line before it and the lines after it. */
  lemma LinesTell(line: string, ending: string, rest: string)
    requires NoBreak(line) && OneBreak(ending, rest)
    ensures Lines(line) == if line == "" then [] else [line]
    ensures Lines(line + ending + rest) == [line] + Lines(rest)
  {
    var s := line + ending + rest;
    assert s[|line|] == ending[0] && forall i | 0 <= i < |line| :: s[i] == line[i];
    assert FindBreak(s, 0) == |line| && s[..|line|] == line;
    if ending == "\r\n" {
      assert s[|line| + 1] == '\n' && s[|line| + 2..] == rest;
    } else {
      assert s[|line| + 1..] == rest && (rest != "" ==> s[|line| + 1] == rest[0]);
    }
  }

  /** The text before the first colon of a line, if it has one, and the text after it. */
  predicate SplitsAt(line: string, n: nat) {
    n < |line| && line[n] == ':' && forall i | 0 <= i < n :: line[i] != ':'
  }

  /** The same text in lower case, as far as ASCII letters go. */
  predicate LowerOf(s: string, low: string) {
    && |low| == |s|
    && forall i | 0 <= i < |s| ::
         low[i] == if 65 <= s[i] as int <= 90 then (s[i] as int + 32) as char else s[i]
  }

  lemma {:induction false} LowerIsLower(s: string)
    ensures LowerOf(s, Lower(s))
  {
    if s != "" {
      LowerIsLower(s[..|s| - 1]);
    }
  }

  lemma LowerIsUnique(s: string, one: string, two: string)
    requires LowerOf(s, one) && LowerOf(s, two)
    ensures one == two
  {
  }

  /** The line sets a key: its trimmed beginning, up to the first colon, in lower case. */
  ghost predicate Sets(line: string, key: string, n: nat) {
    SplitsAt(line, n) && LowerOf(Strip(line[..n]), key)
  }

  ghost predicate SetsKey(line: string, key: string) {
    exists n: nat :: Sets(line, key, n)
  }

  lemma LineSets(meta: Meta, line: string, key: string)
    ensures forall n: nat | Sets(line, key, n) ::
              key in WithLine(meta, line) && WithLine(meta, line)[key] == Strip(line[n + 1..])
    ensures !SetsKey(line, key) ==>
              (key in WithLine(meta, line) <==> key in meta)
              && (key in meta ==> WithLine(meta, line)[key] == meta[key])
  {
    var n := FindColon(line, 0);
    if n < |line| {
      LowerIsLower(Strip(line[..n]));
      assert SplitsAt(line, n);
      forall m: nat | Sets(line, key, m) ensures m == n && key == Lower(Strip(line[..n])) {
        LowerIsUnique(Strip(line[..n]), key, Lower(Strip(line[..n])));
      }
      assert key == Lower(Strip(line[..n])) ==> Sets(line, key, n);
    }
  }

  /** Line i is the last to set the key, at its colon n, and the metadata has what it says; or no line sets it. */
  ghost predicate LastSets(lines: seq<string>, meta: Meta, key: string, i: nat, n: nat) {
    if key in meta then
      && i < |lines| && Sets(lines[i], key, n) && meta[key] == Strip(lines[i][n + 1..])
      && forall j | i < j < |lines| :: !SetsKey(lines[j], key)
    else forall j | 0 <= j < |lines| :: !SetsKey(lines[j], key)
  }

  lemma OneMoreLine(front: seq<string>, line: string, meta: Meta, key: string, i: nat, n: nat)
      returns (i': nat, n': nat)
    requires LastSets(front, meta, key, i, n)
    ensures LastSets(front + [line], WithLine(meta, line), key, i', n')
  {
    LineSets(meta, line, key);
    assert (front + [line])[|front|] == line;
    if SetsKey(line, key) {
      i' := |front|;
      n' :| Sets(line, key, n');
    } else {
      i', n' := i, n;
    }
  }

  /** A key's value is what the last line that sets it says, and a key that no line sets is not there. */
  lemma {:induction false} LastLineSets(lines: seq<string>, key: string) returns (i: nat, n: nat)
    ensures LastSets(lines, MetaOf(lines), key, i, n)
  {
    i, n := 0, 0;
    if lines != [] {
      var last := |lines| - 1;
      i, n := LastLineSets(lines[..last], key);
      i, n := OneMoreLine(lines[..last], lines[last], MetaOf(lines[..last]), key, i, n);
      assert lines == lines[..last] + [lines[last]];
    }
  }
}
