/** `validate_authorized_keys_block`: all of a block of public keys, or none of it. */
module AuthorizedKeys {
  import opened Prelude
  import opened Text

  const MAX_KEYS := 20
  const MAX_LINE_LEN := 8192
  const MIN_KEY_BODY_BYTES := 32

  datatype Result<+T> = Accepted(value: T) | Refused

  const KEY_TYPES: set<string> := {
    "ssh-ed25519", "ssh-rsa", "ecdsa-sha2-nistp256", "ecdsa-sha2-nistp384", "ecdsa-sha2-nistp521",
    "sk-ssh-ed25519@openssh.com", "sk-ecdsa-sha2-nistp256@openssh.com"
  }

  /** Up to the first space. */
  function Word(s: string): (w: string)
    ensures |w| <= |s| && (|w| < |s| ==> s[|w|] == ' ')
  {
    if s == [] || s[0] == ' ' then [] else [s[0]] + Word(s[1..])
  }

  function AfterWord(s: string): string {
    if |Word(s)| == |s| then "" else s[|Word(s)| + 1..]
  }

  predicate IsBase64Char(c: char) {
    'A' <= c <= 'Z' || 'a' <= c <= 'z' || '0' <= c <= '9' || c == '+' || c == '/'
  }

  /** [A-Za-z0-9+/]+=* */
  predicate IsBody(s: string, started: bool) {
    if s == [] then started
    else if IsBase64Char(s[0]) then IsBody(s[1..], true)
    else started && forall i | 0 <= i < |s| :: s[i] == '='
  }

  predicate Printable(s: string) {
    forall i | 0 <= i < |s| :: ' ' <= s[i] <= '~'
  }

  /** A bare key line: type, body and an optional comment, nothing before the type. How
      many bytes the body decodes to, if it is base64 at all, is a parameter. */
  predicate KeyLine(line: string, decode: string -> Option<nat>) {
    var rest := AfterWord(line);
    && |line| <= MAX_LINE_LEN && (forall i | 0 <= i < |line| :: line[i] >= ' ')
    && Word(line) in KEY_TYPES && IsBody(Word(rest), false) && Printable(AfterWord(rest))
    && decode(Word(rest)).Some? && decode(Word(rest)).value >= MIN_KEY_BODY_BYTES
  }

  /** The non-blank lines of a block, trimmed. */
  function Lines(raw: seq<string>): seq<string> {
    if raw == [] then []
    else (if Strip(raw[0]) == "" then [] else [Strip(raw[0])]) + Lines(raw[1..])
  }

  /** What a block is worth: its trimmed lines, all of them good. */
  function Keys(text: string, decode: string -> Option<nat>): Result<seq<string>> {
    var lines := Lines(SplitLines(text));
    if lines == [] || |lines| > MAX_KEYS then Refused
    else if exists i | 0 <= i < |lines| :: !KeyLine(lines[i], decode) then Refused
    else Accepted(lines)
  }

  method ValidateBlock(text: string, decode: string -> Option<nat>) returns (r: Result<seq<string>>)
    ensures r == Keys(text, decode)
  {
    var lines := Lines(SplitLines(text));
    hide Lines, SplitLines, KeyLine;
    if lines == [] {
      return Refused;
    }
    if |lines| > MAX_KEYS {
      return Refused;
    }
    var validated := [];
    for i := 0 to |lines|
      invariant validated == lines[..i]
      invariant forall j | 0 <= j < i :: KeyLine(lines[j], decode)
    {
      if !KeyLine(lines[i], decode) {
        return Refused;
      }
      validated := validated + [lines[i]];
    }
    assert validated == lines;
    r := Accepted(validated);
  }

  lemma {:induction false} LinesMeaning(raw: seq<string>)
    requires forall i | 0 <= i < |raw| :: Unbroken(raw[i])
    ensures forall i | 0 <= i < |Lines(raw)| ::
              Lines(raw)[i] != "" && Unbroken(Lines(raw)[i]) && Strip(Lines(raw)[i]) == Lines(raw)[i]
  {
    hide Strip, Unbroken;
    if raw != [] {
      StripMeaning(raw[0]);
      LinesMeaning(raw[1..]);
    }
  }

  /** Each line counts trimmed, unless nothing is left of it. */
  lemma {:induction false} LinesOneByOne(before: seq<string>, line: string, after: seq<string>)
    ensures Lines(before + [line] + after) == Lines(before) + (if Strip(line) == "" then [] else [Strip(line)]) + Lines(after)
  {
    hide Strip;
    var all := before + [line] + after;
    if before == [] {
      assert all == [line] + after && all[1..] == after;
    } else {
      assert all[1..] == before[1..] + [line] + after;
      LinesOneByOne(before[1..], line, after);
    }
  }

  lemma {:induction false} LinesOfTrimmed(lines: seq<string>)
    requires forall i | 0 <= i < |lines| :: lines[i] != "" && Strip(lines[i]) == lines[i]
    ensures Lines(lines) == lines
  {
    if lines != [] {
      LinesOfTrimmed(lines[1..]);
    }
  }

  /** What one block yields is a block that yields the same keys again, in order. */
  lemma Revalidates(text: string, decode: string -> Option<nat>)
    requires Keys(text, decode).Accepted?
    ensures Keys(Join(Keys(text, decode).value), decode) == Keys(text, decode)
  {
    var keys := Keys(text, decode).value;
    SplitLinesUnbroken(text);
    LinesMeaning(SplitLines(text));
    SplitOfJoin(keys);
    LinesOfTrimmed(keys);
    hide KeyLine, SplitLines, Lines, Join, Strip, Unbroken;
  }

  /** Every accepted line starts with its key type: nothing can stand before it. */
  lemma NoOptions(text: string, decode: string -> Option<nat>, i: nat)
    requires Keys(text, decode).Accepted? && i < |Keys(text, decode).value|
    ensures var line := Keys(text, decode).value[i];
            Word(line) in KEY_TYPES && Word(line) + " " <= line
  {
    hide Printable, Lines, SplitLines;
    var line := Keys(text, decode).value[i];
    assert KeyLine(line, decode);
    assert AfterWord(line) != "";
    WordIsPrefix(line);
    assert line[..|Word(line)| + 1] == Word(line) + " ";
  }

  lemma {:induction false} WordIsPrefix(s: string)
    ensures Word(s) <= s
  {
    if s != [] && s[0] != ' ' {
      WordIsPrefix(s[1..]);
    }
  }

  // ---- Every good block is accepted ---------------------------------------

  /** n base64 digits and then padding. */
  ghost predicate Padded(b: string, n: int) {
    0 <= n <= |b| && (forall i | 0 <= i < n :: IsBase64Char(b[i])) && (forall i | n <= i < |b| :: b[i] == '=')
  }

  /** Type, body and comment of a key line, with nothing in front. */
  ghost predicate Spells(line: string, kind: string, body: string, comment: Option<string>) {
    line == kind + " " + body + if comment.Some? then " " + comment.value else ""
  }

  predicate Known(kind: string) {
    || kind == "ssh-ed25519" || kind == "ssh-rsa"
    || kind == "ecdsa-sha2-nistp256" || kind == "ecdsa-sha2-nistp384" || kind == "ecdsa-sha2-nistp521"
    || kind == "sk-ssh-ed25519@openssh.com" || kind == "sk-ecdsa-sha2-nistp256@openssh.com"
  }

  ghost predicate GoodKey(kind: string, body: string, comment: Option<string>, decode: string -> Option<nat>) {
    && Known(kind)
    && (exists n :: n > 0 && Padded(body, n)) && decode(body).Some? && decode(body).value >= 32
    && (comment.Some? ==> forall i | 0 <= i < |comment.value| :: ' ' <= comment.value[i] <= '~')
  }

  ghost predicate GoodLine(line: string, decode: string -> Option<nat>) {
    |line| <= 8192 && exists kind, body, comment :: Spells(line, kind, body, comment) && GoodKey(kind, body, comment, decode)
  }

  lemma {:induction false} BodyMeaning(b: string, started: bool)
    ensures IsBody(b, started) <==> exists n :: (started || n > 0) && Padded(b, n)
  {
    if b == "" {
      assert started ==> Padded(b, 0);
    } else if IsBase64Char(b[0]) {
      var rest := b[1..];
      BodyMeaning(rest, true);
      if n :| Padded(rest, n) {
        assert Padded(b, n + 1);
      }
      if n :| (started || n > 0) && Padded(b, n) {
        assert n > 0;
        assert Padded(rest, n - 1);
      }
    } else {
      assert started && (forall i | 0 <= i < |b| :: b[i] == '=') ==> Padded(b, 0);
    }
  }

  lemma BodyHasNoSpace(b: string, n: int)
    requires Padded(b, n)
    ensures ' ' !in b && Plain(b)
  {
  }

  /** A line is accepted exactly if it is a known type, a base64 body that decodes to 32
      bytes or more, and perhaps a printable comment, each after one space, in at most
      8192 characters. */
  lemma KeyLineMeaning(line: string, decode: string -> Option<nat>)
    ensures KeyLine(line, decode) <==> GoodLine(line, decode)
  {
    if KeyLine(line, decode) {
      KeyLineIsGood(line, decode);
    }
    if GoodLine(line, decode) {
      var kind, body, comment :| Spells(line, kind, body, comment) && GoodKey(kind, body, comment, decode);
      GoodIsKeyLine(line, kind, body, comment, decode);
    }
  }

  lemma WordSplits(s: string)
    ensures ' ' !in Word(s) && s == Word(s) + if |Word(s)| == |s| then "" else " " + AfterWord(s)
    ensures |Word(s)| == |s| ==> AfterWord(s) == ""
  {
    WordIsPrefix(s);
    WordHasNoSpace(s);
  }

  lemma {:induction false} WordHasNoSpace(s: string)
    ensures ' ' !in Word(s)
  {
    if s != "" && s[0] != ' ' {
      WordHasNoSpace(s[1..]);
    }
  }

  lemma KeyLineIsGood(line: string, decode: string -> Option<nat>)
    requires KeyLine(line, decode)
    ensures GoodLine(line, decode)
  {
    hide Word, AfterWord, IsBody, Known, KEY_TYPES;
    KnownMeaning(Word(line));
    var kind, rest := Word(line), AfterWord(line);
    var body := Word(rest);
    var comment := if |body| == |rest| then None else Some(AfterWord(rest));
    WordSplits(line);
    WordSplits(rest);
    BodyMeaning(body, false);
    assert body != "" by {
      var n :| n > 0 && Padded(body, n);
    }
    assert Spells(line, kind, body, comment) && GoodKey(kind, body, comment, decode);
  }

  lemma GoodIsKeyLine(line: string, kind: string, body: string, comment: Option<string>, decode: string -> Option<nat>)
    requires |line| <= 8192 && Spells(line, kind, body, comment) && GoodKey(kind, body, comment, decode)
    ensures KeyLine(line, decode)
  {
    hide Word, AfterWord, IsBody, IsBase64Char, Known, KEY_TYPES, Plain;
    var tail := if comment.Some? then " " + comment.value else "";
    var n :| n > 0 && Padded(body, n);
    BodyHasNoSpace(body, n);
    BodyMeaning(body, false);
    KnownMeaning(kind);
    KindIsPlain(kind);
    CommentIsPlain(comment);
    hide Padded;
    assert line == kind + (" " + (body + tail));
    WordOf(kind, " " + (body + tail));
    assert (" " + (body + tail))[1..] == body + tail;
    WordOf(body, tail);
    assert comment.Some? ==> tail[1..] == comment.value;
    PlainAppend(body, tail);
    PlainAppend(" ", body + tail);
    PlainAppend(kind, " " + (body + tail));
    PlainMeaning(line);
  }

  lemma PlainMeaning(s: string)
    requires Plain(s)
    ensures forall i | 0 <= i < |s| :: s[i] >= ' '
  {
  }

  lemma CommentIsPlain(comment: Option<string>)
    requires comment.Some? ==> forall i | 0 <= i < |comment.value| :: ' ' <= comment.value[i] <= '~'
    ensures Plain(if comment.Some? then " " + comment.value else "") && Plain(" ")
  {
  }

  ghost predicate Plain(s: string) {
    forall i | 0 <= i < |s| :: s[i] >= ' '
  }

  lemma PlainAppend(a: string, b: string)
    ensures Plain(a) && Plain(b) ==> Plain(a + b)
  {
  }

  ghost predicate Solid(s: string) {
    forall i | 0 <= i < |s| :: s[i] > ' '
  }

  lemma PlainKinds()
    ensures Solid("ssh-ed25519") && Solid("ssh-rsa")
    ensures Solid("ecdsa-sha2-nistp256") && Solid("ecdsa-sha2-nistp384") && Solid("ecdsa-sha2-nistp521")
  {
  }

  lemma SecurityKeyKinds()
    ensures Solid("sk-ssh-ed25519@openssh.com") && Solid("sk-ecdsa-sha2-nistp256@openssh.com")
  {
  }

  lemma KindIsPlain(kind: string)
    requires Known(kind)
    ensures ' ' !in kind && Plain(kind)
  {
    hide Solid;
    PlainKinds();
    SecurityKeyKinds();
    assert Solid(kind);
    SolidMeaning(kind);
  }

  lemma KnownMeaning(kind: string)
    ensures Known(kind) <==> kind in KEY_TYPES
  {
  }

  lemma SolidMeaning(s: string)
    requires Solid(s)
    ensures ' ' !in s && Plain(s)
  {
  }

  /** Good lines that are trimmed survive being joined into a block. */
  lemma JoinedBlock(lines: seq<string>, decode: string -> Option<nat>)
    requires 1 <= |lines| <= 20
    requires forall i | 0 <= i < |lines| :: lines[i] != "" && Unbroken(lines[i]) && Strip(lines[i]) == lines[i]
    requires forall i | 0 <= i < |lines| :: GoodLine(lines[i], decode)
    ensures Keys(Join(lines), decode) == Accepted(lines)
  {
    SplitOfJoin(lines);
    LinesOfTrimmed(lines);
    GoodBlock(Join(lines), decode);
    hide Keys, GoodLine, Lines, SplitLines, Join, Unbroken, Strip;
  }

  /** A block of one to twenty good lines is accepted whole, and any other refused. */
  lemma GoodBlock(text: string, decode: string -> Option<nat>)
    ensures var lines := Lines(SplitLines(text));
            Keys(text, decode) ==
              if 1 <= |lines| <= 20 && forall i | 0 <= i < |lines| :: GoodLine(lines[i], decode) then Accepted(lines)
              else Refused
  {
    hide KeyLine, GoodLine, Lines, SplitLines;
    forall line: string
      ensures KeyLine(line, decode) <==> GoodLine(line, decode)
    {
      KeyLineMeaning(line, decode);
    }
  }

  lemma {:induction false} WordOf(w: string, rest: string)
    requires ' ' !in w && (rest == "" || rest[0] == ' ')
    ensures Word(w + rest) == w
    ensures AfterWord(w + rest) == if rest == "" then "" else rest[1..]
  {
    if w == "" {
      assert w + rest == rest;
    } else {
      assert (w + rest)[1..] == w[1..] + rest;
      WordOf(w[1..], rest);
    }
  }
}
