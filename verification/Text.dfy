/** Python's white space, line boundaries and string methods, on code points. */
module Text {

  // str.isspace, which \s and strip share.
  predicate IsSpace(c: char) {
    var n := c as int;
    || 0x09 <= n <= 0x0d || 0x1c <= n <= 0x20 || n == 0x85 || n == 0xa0 || n == 0x1680 || 0x2000 <= n <= 0x200a
    || n == 0x2028 || n == 0x2029 || n == 0x202f || n == 0x205f || n == 0x3000
  }

  // Where str.splitlines splits.
  predicate IsLineBreak(c: char) {
    var n := c as int;
    0x0a <= n <= 0x0d || 0x1c <= n <= 0x1e || n == 0x85 || n == 0x2028 || n == 0x2029
  }

  predicate IsControl(c: char) {
    c as int <= 0x1f || c as int == 0x7f
  }

  function LeftStrip(s: string): string {
    if s != [] && IsSpace(s[0]) then LeftStrip(s[1..]) else s
  }

  function RightStrip(s: string): string {
    if s != [] && IsSpace(s[|s| - 1]) then RightStrip(s[..|s| - 1]) else s
  }

  function Strip(s: string): string {
    RightStrip(LeftStrip(s))
  }

  // No white space at either end.
  ghost predicate Trimmed(s: string) {
    s != [] ==> !IsSpace(s[0]) && !IsSpace(s[|s| - 1])
  }

  lemma {:induction false} LeftStripTrims(s: string)
    ensures LeftStrip(s) != [] ==> !IsSpace(LeftStrip(s)[0])
    ensures forall c :: c in LeftStrip(s) ==> c in s
  {
    if s != [] && IsSpace(s[0]) { LeftStripTrims(s[1..]); }
  }

  lemma {:induction false} RightStripTrims(s: string)
    ensures RightStrip(s) != [] ==> !IsSpace(RightStrip(s)[|RightStrip(s)| - 1])
    ensures RightStrip(s) <= s
  {
    if s != [] && IsSpace(s[|s| - 1]) { RightStripTrims(s[..|s| - 1]); }
  }

  lemma StripTrims(s: string)
    ensures Trimmed(Strip(s)) && forall c :: c in Strip(s) ==> c in s
  {
    LeftStripTrims(s);
    RightStripTrims(LeftStrip(s));
  }

  lemma StripTrimmed(s: string)
    requires Trimmed(s)
    ensures Strip(s) == s
  {}

  function Join(parts: seq<string>): string {
    if parts == [] then ""
    else if |parts| == 1 then parts[0]
    else parts[0] + "\n" + Join(parts[1..])
  }

  function FirstBreak(s: string): (n: nat)
    ensures n <= |s| && (n < |s| ==> IsLineBreak(s[n])) && forall i :: 0 <= i < n ==> !IsLineBreak(s[i])
  {
    if s == [] || IsLineBreak(s[0]) then 0 else 1 + FirstBreak(s[1..])
  }

  // The pair \r\n is one boundary.
  function SplitLines(s: string): seq<string> {
    if s == [] then []
    else
      var n := FirstBreak(s);
      if n == |s| then [s]
      else if s[n] == '\r' && n + 1 < |s| && s[n + 1] == '\n' then [s[..n]] + SplitLines(s[n + 2..])
      else [s[..n]] + SplitLines(s[n + 1..])
  }

  ghost predicate OneLine(s: string) {
    forall c :: c in s ==> !IsLineBreak(c)
  }

  lemma SplitFirstLine(line: string, rest: string)
    requires OneLine(line)
    ensures SplitLines(line + "\n" + rest) == [line] + SplitLines(rest)
  {
    var s := line + "\n" + rest;
    var n := FirstBreak(s);
    assert s[|line|] == '\n';
    assert forall i :: 0 <= i < |line| ==> s[i] == line[i] && line[i] in line;
    assert n == |line|;
    assert s[..n] == line && s[n + 1..] == rest;
  }

  // Joined lines come apart again.
  lemma {:induction false} SplitJoined(parts: seq<string>)
    requires parts != [] && forall p :: p in parts ==> OneLine(p)
    ensures SplitLines(Join(parts) + "\n") == parts
  {
    if |parts| == 1 {
      SplitFirstLine(parts[0], "");
      assert parts[0] + "\n" + "" == Join(parts) + "\n";
    } else {
      SplitJoined(parts[1..]);
      SplitFirstLine(parts[0], Join(parts[1..]) + "\n");
      assert parts[0] + "\n" + (Join(parts[1..]) + "\n") == Join(parts) + "\n";
    }
  }

  lemma {:induction false} JoinEnds(parts: seq<string>)
    requires parts != [] && parts[|parts| - 1] != []
    ensures var last := parts[|parts| - 1]; Join(parts) != [] && Join(parts)[|Join(parts)| - 1] == last[|last| - 1]
  {
    if |parts| > 1 {
      JoinEnds(parts[1..]);
    }
  }
}
