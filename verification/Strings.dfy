/** The few Python string operations the modelled code relies on: str.strip() and its one-sided forms,
    str.split() without a separator, and str.join(). White space is what those methods take for white
    space, control characters included. */
module Strings {

  /** The characters that str.strip() and str.split() treat as white space. */
  predicate IsSpace(c: char) {
    var n := c as int;
    || 0x09 <= n <= 0x0D || 0x1C <= n <= 0x20 || n == 0x85 || n == 0xA0 || n == 0x1680
    || 0x2000 <= n <= 0x200A || n == 0x2028 || n == 0x2029 || n == 0x202F || n == 0x205F || n == 0x3000
  }

  /** The first position that holds no space, at or after a position. */
  function FirstNonSpace(s: string, from: nat): (n: nat)
    requires from <= |s|
    ensures from <= n <= |s| && forall i | from <= i < n :: IsSpace(s[i])
    ensures n < |s| ==> !IsSpace(s[n])
    decreases |s| - from
  {
    if from == |s| || !IsSpace(s[from]) then from else FirstNonSpace(s, from + 1)
  }

  /** The end of the last character that is no space, before a position. */
  function LastNonSpace(s: string, to: nat): (n: nat)
    requires to <= |s|
    ensures n <= to && forall i | n <= i < to :: IsSpace(s[i])
    ensures n > 0 ==> !IsSpace(s[n - 1])
  {
    if to == 0 || !IsSpace(s[to - 1]) then to else LastNonSpace(s, to - 1)
  }

  function LStrip(s: string): string {
    s[FirstNonSpace(s, 0)..]
  }

  function RStrip(s: string): string {
    s[..LastNonSpace(s, |s|)]
  }

  function Strip(s: string): (r: string)
    ensures |r| <= |s|
    ensures r != "" ==> !IsSpace(r[0]) && !IsSpace(r[|r| - 1])
  {
    RStrip(LStrip(s))
  }

  /** A string that str.strip() leaves alone. */
  predicate Trimmed(s: string) {
    s != "" ==> !IsSpace(s[0]) && !IsSpace(s[|s| - 1])
  }

  lemma StripFixesTrimmed(s: string)
    ensures Strip(s) == s <==> Trimmed(s)
  {
  }

  function WordLength(s: string): (n: nat)
    ensures n <= |s|
    ensures s != "" && !IsSpace(s[0]) ==> n > 0
  {
    if s == "" || IsSpace(s[0]) then 0 else 1 + WordLength(s[1..])
  }

  /** str.split() without a separator. */
  function Words(s: string): seq<string>
    decreases |s|
  {
    var t := LStrip(s);
    if t == "" then [] else
      var n := WordLength(t);
      [t[..n]] + Words(t[n..])
  }

  function Join(sep: string, parts: seq<string>): string {
    if parts == [] then "" else if |parts| == 1 then parts[0] else parts[0] + sep + Join(sep, parts[1..])
  }
}
