/** Python's view of text: lines and white space. */
module Text {
  import opened Prelude

  /** The characters `str.splitlines` breaks at. */
  predicate IsBreak(c: char) {
    c in {'\n', '\r', '\U{B}', '\U{C}', '\U{1C}', '\U{1D}', '\U{1E}', '\U{85}', '\U{2028}', '\U{2029}'}
  }

  /** The characters `str.strip` removes. */
  predicate IsSpace(c: char) {
    || IsBreak(c) || c in {' ', '\t', '\U{1F}', '\U{A0}', '\U{1680}', '\U{202F}', '\U{205F}', '\U{3000}'}
    || '\U{2000}' <= c <= '\U{200A}'
  }

  function LeftStrip(s: string): (r: string)
    ensures |r| <= |s|
  {
    if s != [] && IsSpace(s[0]) then LeftStrip(s[1..]) else s
  }

  function RightStrip(s: string): string {
    if s != [] && IsSpace(s[|s| - 1]) then RightStrip(s[..|s| - 1]) else s
  }

  function Strip(s: string): string {
    RightStrip(LeftStrip(s))
  }

  predicate Unbroken(s: string) {
    forall i | 0 <= i < |s| :: !IsBreak(s[i])
  }

  lemma {:induction false} LeftStripMeaning(s: string)
    ensures LeftStrip(s) == [] || !IsSpace(LeftStrip(s)[0])
    ensures Unbroken(s) ==> Unbroken(LeftStrip(s))
    ensures s != [] && !IsSpace(s[0]) ==> LeftStrip(s) == s
  {
    hide IsSpace, IsBreak;
    if s != [] {
      LeftStripMeaning(s[1..]);
    }
  }

  lemma {:induction false} RightStripMeaning(s: string)
    ensures RightStrip(s) <= s
    ensures RightStrip(s) == [] || !IsSpace(RightStrip(s)[|RightStrip(s)| - 1])
    ensures s != [] && !IsSpace(s[0]) ==> RightStrip(s) != []
    ensures s != [] && !IsSpace(s[|s| - 1]) ==> RightStrip(s) == s
  {
    hide IsSpace, IsBreak;
    if s != [] {
      RightStripMeaning(s[..|s| - 1]);
    }
  }

  /** Stripping twice is stripping once, and adds no line break. */
  lemma StripMeaning(s: string)
    ensures Strip(Strip(s)) == Strip(s)
    ensures Unbroken(s) ==> Unbroken(Strip(s))
  {
    LeftStripMeaning(s);
    var t := LeftStrip(s);
    RightStripMeaning(t);
    var r := RightStrip(t);
    assert r != [] ==> r[0] == t[0];
    LeftStripMeaning(r);
    RightStripMeaning(r);
    hide IsSpace, IsBreak, LeftStrip, RightStrip;
  }

  /** Trimming takes white space off both ends, and leaves none there. */
  lemma StripSplits(s: string) returns (before: string, after: string)
    ensures s == before + Strip(s) + after
    ensures forall i | 0 <= i < |before| :: IsSpace(before[i])
    ensures forall i | 0 <= i < |after| :: IsSpace(after[i])
    ensures Strip(s) != "" ==> !IsSpace(Strip(s)[0]) && !IsSpace(Strip(s)[|Strip(s)| - 1])
  {
    hide IsSpace;
    before := LeftSplits(s);
    after := RightSplits(LeftStrip(s));
    LeftStripMeaning(s);
    RightStripMeaning(LeftStrip(s));
    assert Strip(s) != "" ==> Strip(s)[0] == LeftStrip(s)[0];
  }

  lemma {:induction false} LeftSplits(s: string) returns (before: string)
    ensures s == before + LeftStrip(s) && forall i | 0 <= i < |before| :: IsSpace(before[i])
  {
    hide IsSpace;
    before := "";
    if s != "" && IsSpace(s[0]) {
      var rest := LeftSplits(s[1..]);
      before := [s[0]] + rest;
    }
  }

  lemma {:induction false} RightSplits(s: string) returns (after: string)
    ensures s == RightStrip(s) + after && forall i | 0 <= i < |after| :: IsSpace(after[i])
  {
    hide IsSpace;
    after := "";
    if s != "" && IsSpace(s[|s| - 1]) {
      var rest := RightSplits(s[..|s| - 1]);
      after := rest + [s[|s| - 1]];
    }
  }

  /** The length of the first line. */
  function FirstBreak(s: string): (n: nat)
    ensures n <= |s| && Unbroken(s[..n]) && (n < |s| ==> IsBreak(s[n]))
  {
    if s == [] || IsBreak(s[0]) then 0
    else
      var n := FirstBreak(s[1..]) + 1;
      assert s[..n] == [s[0]] + s[1..][..n - 1];
      n
  }

  function SplitLines(s: string): seq<string>
    decreases |s|
  {
    if s == [] then []
    else
      var n := FirstBreak(s);
      if n == |s| then [s]
      else [s[..n]] + SplitLines(s[n + if s[n..n + 1] == "\r" && n + 1 < |s| && s[n + 1] == '\n' then 2 else 1..])
  }

  /** `"\n".join(lines)` */
  function Join(lines: seq<string>): string {
    if lines == [] then "" else if |lines| == 1 then lines[0] else lines[0] + "\n" + Join(lines[1..])
  }

  lemma {:induction false} FirstBreakIs(s: string, n: nat)
    requires n <= |s| && Unbroken(s[..n]) && (n < |s| ==> IsBreak(s[n]))
    ensures FirstBreak(s) == n
  {
  }

  lemma {:induction false} SplitLinesUnbroken(s: string)
    ensures forall i | 0 <= i < |SplitLines(s)| :: Unbroken(SplitLines(s)[i])
    decreases |s|
  {
    hide IsBreak;
    if s != [] {
      var n := FirstBreak(s);
      assert s[..|s|] == s;
      if n < |s| {
        SplitLinesUnbroken(s[n + if s[n..n + 1] == "\r" && n + 1 < |s| && s[n + 1] == '\n' then 2 else 1..]);
      }
    }
  }

  /** The first line ends at the first break, and a carriage return with its line feed is
      one break. */
  lemma SplitAtBreak(line: string, br: string, rest: string)
    requires Unbroken(line)
    requires br == "\r\n" || (|br| == 1 && IsBreak(br[0]) && !(br == "\r" && rest != "" && rest[0] == '\n'))
    ensures SplitLines(line + br + rest) == [line] + SplitLines(rest)
  {
    hide IsBreak;
    var s := line + br + rest;
    assert IsBreak('\r') by { CarriageReturn(); }
    assert s[..|line|] == line && s[|line|..|line| + 1] == br[..1];
    FirstBreakIs(s, |line|);
    assert s[|line| + |br|..] == rest;
    assert |br| == 1 ==> br[..1] == br;
  }

  lemma CarriageReturn()
    ensures IsBreak('\r')
  {
  }

  /** Joining lines and splitting again gives the lines back. */
  lemma {:induction false} SplitOfJoin(lines: seq<string>)
    requires forall i | 0 <= i < |lines| :: lines[i] != "" && Unbroken(lines[i])
    ensures SplitLines(Join(lines)) == lines
  {
    if lines == [] {
    } else if |lines| == 1 {
      assert lines[0][..|lines[0]|] == lines[0];
      FirstBreakIs(lines[0], |lines[0]|);
    } else {
      var first, rest := lines[0], Join(lines[1..]);
      var s := first + "\n" + rest;
      assert s[..|first|] == first;
      FirstBreakIs(s, |first|);
      assert s[|first|..|first| + 1] == "\n";
      assert s[|first| + 1..] == rest;
      SplitOfJoin(lines[1..]);
    }
  }
}
