/** The vendor frame layer: SOF | opcode | length | payload[length], cut into
    notifications wherever the link's MTU falls and resynchronised on SOF. */
module Frames {
  import opened Prelude

  const SOF: Byte := 0xAA

  predicate SofFree(s: Bytes) {
    forall i | 0 <= i < |s| :: s[i] != SOF
  }

  /** Total length a header declares. */
  function Declared(h: Bytes): int
    requires |h| >= 3
  {
    3 + h[2] as int
  }

  predicate WellFormed(f: Bytes) {
    |f| >= 3 && f[0] == SOF && |f| == Declared(f)
  }

  /** What a reassembler may be left holding: nothing, or the start of one frame. */
  predicate Pending(r: Bytes) {
    r == [] || (r[0] == SOF && (|r| < 3 || |r| < Declared(r)))
  }

  /** Position of the first SOF, or the length when there is none. */
  function FindSof(s: Bytes): (k: nat)
    ensures k <= |s| && SofFree(s[..k])
    ensures k < |s| ==> s[k] == SOF
  {
    if s == [] || s[0] == SOF then 0
    else
      var k := FindSof(s[1..]);
      assert s[..k + 1] == [s[0]] + s[1..][..k];
      k + 1
  }

  lemma {:induction false} FindSofUnique(s: Bytes, k: nat)
    requires k <= |s| && SofFree(s[..k])
    requires k < |s| ==> s[k] == SOF
    ensures FindSof(s) == k
  {
  }

  datatype Parsed = Parsed(frames: seq<Bytes>, rest: Bytes)

  /** What one pass over a whole byte stream yields. */
  function Parse(s: Bytes): (p: Parsed)
    decreases |s|
  {
    var b := s[FindSof(s)..];
    if Pending(b) then Parsed([], b)
    else
      var n := Declared(b);
      var p := Parse(b[n..]);
      Parsed([b[..n]] + p.frames, p.rest)
  }

  lemma ParseAfterJunk(junk: Bytes, s: Bytes)
    requires SofFree(junk)
    requires s != [] ==> s[0] == SOF
    ensures Parse(junk + s) == Parse(s)
  {
    FindSofUnique(junk + s, |junk|);
    FindSofUnique(s, 0);
    assert (junk + s)[|junk|..] == s;
    assert s[0..] == s;
  }

  lemma ParseAfterFrame(f: Bytes, s: Bytes)
    requires WellFormed(f)
    ensures Parse(f + s) == Parsed([f] + Parse(s).frames, Parse(s).rest)
  {
  }

  lemma ParsePending(r: Bytes)
    requires Pending(r)
    ensures Parse(r) == Parsed([], r)
  {
  }

  /** One step of Parse: the bytes it skips, then the frame it takes or the tail it keeps. */
  lemma ParseStep(s: Bytes) returns (junk: Bytes, f: Bytes, t: Bytes)
    ensures SofFree(junk) && s == junk + (f + t)
    ensures f == [] ==> Pending(t) && Parse(s) == Parsed([], t)
    ensures f != [] ==>
              && WellFormed(f) && |t| < |s|
              && Parse(s) == Parsed([f] + Parse(t).frames, Parse(t).rest)
  {
    var k := FindSof(s);
    junk, t := s[..k], s[k..];
    if Pending(t) {
      f := [];
    } else {
      f, t := t[..Declared(t)], t[Declared(t)..];
    }
  }

  // ---- The wire grammar, and Parse as its exact inverse -------------------

  /** A byte stream laid out as junk, frame, junk, frame, ..., junk, unfinished frame. */
  function Wire(junk: seq<Bytes>, frames: seq<Bytes>, rest: Bytes): Bytes
    requires |junk| == |frames| + 1
  {
    if frames == [] then junk[0] + rest
    else junk[0] + (frames[0] + Wire(junk[1..], frames[1..], rest))
  }

  ghost predicate WireOk(junk: seq<Bytes>, frames: seq<Bytes>, rest: Bytes) {
    && |junk| == |frames| + 1
    && (forall i | 0 <= i < |junk| :: SofFree(junk[i]))
    && (forall i | 0 <= i < |frames| :: WellFormed(frames[i]))
    && Pending(rest)
  }

  /** Every legal layout is read back as exactly its frames and its unfinished tail. */
  lemma {:induction false} ParseOfWire(junk: seq<Bytes>, frames: seq<Bytes>, rest: Bytes)
    requires WireOk(junk, frames, rest)
    ensures Parse(Wire(junk, frames, rest)) == Parsed(frames, rest)
    decreases |frames|
  {
    hide Parse, FindSof;
    if frames == [] {
      ParseAfterJunk(junk[0], rest);
      ParsePending(rest);
    } else {
      var f, tail := frames[0], Wire(junk[1..], frames[1..], rest);
      assert WireOk(junk[1..], frames[1..], rest);
      ParseOfWire(junk[1..], frames[1..], rest);
      ParseAfterFrame(f, tail);
      ParseAfterJunk(junk[0], f + tail);
      assert [f] + frames[1..] == frames;
    }
  }

  lemma WirePrepend(j: Bytes, f: Bytes, junk: seq<Bytes>, frames: seq<Bytes>, rest: Bytes)
    requires SofFree(j) && WellFormed(f) && WireOk(junk, frames, rest)
    ensures WireOk([j] + junk, [f] + frames, rest)
    ensures Wire([j] + junk, [f] + frames, rest) == j + (f + Wire(junk, frames, rest))
  {
  }

  /** Every byte stream at all is such a layout of what Parse returns: nothing is
      invented, reordered or dropped except bytes before a SOF. */
  lemma {:induction false} WireOfParse(s: Bytes) returns (junk: seq<Bytes>)
    ensures WireOk(junk, Parse(s).frames, Parse(s).rest)
    ensures Wire(junk, Parse(s).frames, Parse(s).rest) == s
    decreases |s|
  {
    hide Parse, FindSof;
    var j, f, t := ParseStep(s);
    if f == [] {
      junk := [j];
      assert f + t == t;
    } else {
      var later := WireOfParse(t);
      junk := [j] + later;
      WirePrepend(j, f, later, Parse(t).frames, Parse(t).rest);
    }
  }

  /** The leftover never outgrows one frame less a byte, and every frame carries
      the length it declares. */
  lemma {:induction false} ParseShape(s: Bytes)
    ensures Pending(Parse(s).rest) && |Parse(s).rest| <= 257
    ensures forall i | 0 <= i < |Parse(s).frames| :: WellFormed(Parse(s).frames[i])
  {
    var junk := WireOfParse(s);
  }

  // ---- Fragmentation ------------------------------------------------------

  /** Cutting a stream in two changes neither the frames nor the leftover. */
  lemma {:induction false} ParseCut(a: Bytes, b: Bytes)
    ensures var p := Parse(a); var q := Parse(p.rest + b);
            Parse(a + b) == Parsed(p.frames + q.frames, q.rest)
    decreases |a|
  {
    hide Parse, FindSof, Pending;
    var junk, f, t := ParseStep(a);
    if f == [] {
      assert f + t == t;
      CutInTail(junk, t, b);
      assert [] + Parse(t + b).frames == Parse(t + b).frames;
    } else {
      var q := Parse(Parse(t).rest + b);
      ParseCut(t, b);
      assert a + b == junk + (f + (t + b));
      ParseAfterFrame(f, t + b);
      ParseAfterJunk(junk, f + (t + b));
      assert [f] + (Parse(t).frames + q.frames) == ([f] + Parse(t).frames) + q.frames;
    }
  }

  lemma CutInTail(junk: Bytes, t: Bytes, b: Bytes)
    requires SofFree(junk) && Pending(t)
    ensures Parse(junk + t + b) == Parse(t + b)
  {
    hide Parse, FindSof;
    if t == [] {
      var j, f, u := ParseStep(b);
      var h := f + u;
      assert t + b == b && b == j + h && junk + t + b == (junk + j) + h;
      ParseAfterJunk(j, h);
      ParseAfterJunk(junk + j, h);
    } else {
      assert junk + t + b == junk + (t + b);
      ParseAfterJunk(junk, t + b);
    }
  }

  function Concat(chunks: seq<Bytes>): Bytes {
    if chunks == [] then [] else Concat(chunks[..|chunks| - 1]) + chunks[|chunks| - 1]
  }

  // ---- The reassembler ----------------------------------------------------

  /** `FrameReassembler`: a buffer edited in place. */
  class FrameReassembler {
    var buffer: Bytes

    constructor ()
      ensures buffer == []
    {
      buffer := [];
    }

    /** Detach the next complete frame, resynchronising first when the head is not SOF. */
    method TakeFrame() returns (frame: Option<Bytes>)
      modifies this
      ensures frame.None? ==> Parse(old(buffer)) == Parsed([], buffer)
      ensures frame.Some? ==>
                var later := Parse(buffer);
                && |buffer| < |old(buffer)|
                && Parse(old(buffer)) == Parsed([frame.value] + later.frames, later.rest)
    {
      ghost var was := buffer;
      if buffer != [] && buffer[0] != SOF {
        var idx := FindSof(buffer);
        if idx == |buffer| {
          buffer := [];
          return None;
        }
        buffer := buffer[idx..];
      }
      assert buffer == was[FindSof(was)..];
      if |buffer| < 3 {
        return None;
      }
      var total := Declared(buffer);
      if |buffer| < total {
        return None;
      }
      frame := Some(buffer[..total]);
      buffer := buffer[total..];
    }

    /** Append a notification and return every frame it completes. */
    method Push(data: Bytes) returns (frames: seq<Bytes>)
      modifies this
      ensures Parsed(frames, buffer) == Parse(old(buffer) + data)
    {
      hide Parse, FindSof;
      buffer := buffer + data;
      ghost var all := Parse(buffer);
      frames := [];
      var frame := TakeFrame();
      while frame.Some?
        invariant frame.Some? ==>
            var later := Parse(buffer);
            all == Parsed(frames + [frame.value] + later.frames, later.rest)
        invariant frame.None? ==> all == Parsed(frames, buffer)
        decreases frame.Some?, |buffer|
      {
        frames := frames + [frame.value];
        ghost var before := Parse(buffer);
        frame := TakeFrame();
        assert frame.Some? ==>
            frames + before.frames == frames + [frame.value] + Parse(buffer).frames;
        assert frame.None? ==> frames + before.frames == frames;
      }
    }
  }

  /** Pushing any fragmentation, notification by notification, into a fresh
      reassembler gives what one push of the whole stream gives. */
  method Reassemble(chunks: seq<Bytes>) returns (frames: seq<Bytes>, rest: Bytes)
    ensures Parsed(frames, rest) == Parse(Concat(chunks))
  {
    var r := new FrameReassembler();
    frames := [];
    for i := 0 to |chunks|
      invariant Parsed(frames, r.buffer) == Parse(Concat(chunks[..i]))
    {
      ghost var sofar := Concat(chunks[..i]);
      assert chunks[..i + 1][..i] == chunks[..i];
      assert Concat(chunks[..i + 1]) == sofar + chunks[i];
      ParseCut(sofar, chunks[i]);
      var more := r.Push(chunks[i]);
      frames := frames + more;
    }
    assert chunks[..|chunks|] == chunks;
    rest := r.buffer;
  }
}
