/** The frame splitter inside `LlamaClient::onReadyRead`
    (daemon/src/llama_client.cpp): bytes are cut at every blank line. */
module Framing {
  import opened Wrappers

  datatype Split = Split(frames: seq<Bytes>, rest: Bytes)

  /** A blank line: two line feeds. */
  predicate SeparatorAt(b: Bytes, i: nat) {
    i + 2 <= |b| && b[i] == 10 && b[i + 1] == 10
  }

  predicate HasNoSeparator(b: Bytes) {
    forall i: nat :: i + 2 <= |b| ==> !SeparatorAt(b, i)
  }

  /** `indexOf("\n\n")`: the first blank line, or |b| when there is none. */
  function FirstSeparator(b: Bytes): (i: nat)
    ensures i <= |b|
    ensures i < |b| ==> SeparatorAt(b, i)
    ensures forall j: nat :: j < i ==> !SeparatorAt(b, j)
    ensures i == |b| ==> HasNoSeparator(b)
  {
    if |b| < 2 then |b|
    else if SeparatorAt(b, 0) then 0
    else
      var i := FirstSeparator(b[1..]);
      assert forall j: nat :: 0 < j < |b| ==> (SeparatorAt(b, j) <==> SeparatorAt(b[1..], j - 1));
      i + 1
  }

  /** All frames of a buffer and what is left of it. */
  function SplitFrames(b: Bytes): Split
    decreases |b|
  {
    var i := FirstSeparator(b);
    if i == |b| then Split([], b)
    else
      var tail := SplitFrames(b[i + 2..]);
      Split([b[..i]] + tail.frames, tail.rest)
  }

  /** The bytes of a list of frames on the wire. */
  function Encode(frames: seq<Bytes>): Bytes {
    if frames == [] then [] else frames[0] + [10, 10] + Encode(frames[1..])
  }

  /** A frame that can be told from its neighbours. */
  predicate IsFrame(f: Bytes) {
    HasNoSeparator(f) && (f == [] || f[|f| - 1] != 10)
  }

  ghost predicate AreFrames(frames: seq<Bytes>) {
    forall i :: 0 <= i < |frames| ==> IsFrame(frames[i])
  }

  // ---- Splitting loses nothing ---------------------------------------------------

  lemma FirstSeparatorUnique(b: Bytes, i: nat)
    requires SeparatorAt(b, i) && forall j: nat :: j < i ==> !SeparatorAt(b, j)
    ensures FirstSeparator(b) == i
  {
  }

  lemma FrameBeforeSeparator(b: Bytes)
    requires FirstSeparator(b) < |b|
    ensures IsFrame(b[..FirstSeparator(b)])
  {
    var i := FirstSeparator(b);
    var f := b[..i];
    assert forall j: nat :: j + 2 <= |f| ==> (SeparatorAt(f, j) <==> SeparatorAt(b, j));
    if i > 0 && f[i - 1] == 10 {
      assert SeparatorAt(b, i - 1);
    }
  }

  lemma {:induction false} SplitLosesNothing(b: Bytes)
    ensures var s := SplitFrames(b);
            Encode(s.frames) + s.rest == b && HasNoSeparator(s.rest) && AreFrames(s.frames)
    decreases |b|
  {
    var i := FirstSeparator(b);
    if i < |b| {
      SplitLosesNothing(b[i + 2..]);
      FrameBeforeSeparator(b);
      RejoinFirstFrame(b, SplitFrames(b[i + 2..]));
    } else {
      assert Encode([]) + b == b;
    }
  }

  lemma {:induction false} RejoinFirstFrame(b: Bytes, tail: Split)
    requires FirstSeparator(b) < |b|
    requires Encode(tail.frames) + tail.rest == b[FirstSeparator(b) + 2..]
    ensures Encode([b[..FirstSeparator(b)]] + tail.frames) + tail.rest == b
  {
  }

  lemma FirstSeparatorAfterFrame(f: Bytes, more: Bytes)
    requires IsFrame(f)
    ensures FirstSeparator(f + [10, 10] + more) == |f|
  {
    var b := f + [10, 10] + more;
    assert SeparatorAt(b, |f|);
    forall j: nat | j < |f| ensures !SeparatorAt(b, j) {
      if j + 1 < |f| {
        assert !SeparatorAt(f, j);
      }
    }
    FirstSeparatorUnique(b, |f|);
  }

  lemma {:induction false} SplitInvertsEncode(frames: seq<Bytes>, rest: Bytes)
    requires AreFrames(frames) && HasNoSeparator(rest)
    ensures SplitFrames(Encode(frames) + rest) == Split(frames, rest)
  {
    if frames == [] {
      assert Encode(frames) + rest == rest;
    } else {
      var more := Encode(frames[1..]) + rest;
      var b := Encode(frames) + rest;
      assert b == frames[0] + [10, 10] + more;
      FirstSeparatorAfterFrame(frames[0], more);
      assert b[..|frames[0]|] == frames[0];
      assert b[|frames[0]| + 2..] == more;
      SplitInvertsEncode(frames[1..], rest);
    }
  }

  /** Splitting is the inverse of encoding: a buffer splits into these frames and this rest
      exactly when it is their encoding followed by the rest. */
  lemma SplitIsExact(b: Bytes, frames: seq<Bytes>, rest: Bytes)
    ensures SplitFrames(b) == Split(frames, rest) <==>
            b == Encode(frames) + rest && AreFrames(frames) && HasNoSeparator(rest)
  {
    SplitLosesNothing(b);
    if b == Encode(frames) + rest && AreFrames(frames) && HasNoSeparator(rest) {
      SplitInvertsEncode(frames, rest);
    }
  }

  lemma {:induction false} SplitFirstFrame(b: Bytes)
    requires FirstSeparator(b) < |b|
    ensures var i := FirstSeparator(b);
            && i + 2 <= |b|
            && SplitFrames(b).frames == [b[..i]] + SplitFrames(b[i + 2..]).frames
            && SplitFrames(b).rest == SplitFrames(b[i + 2..]).rest
  {
  }

  // ---- Splitting can be interrupted anywhere --------------------------------------

  lemma FirstSeparatorExtends(x: Bytes, y: Bytes)
    requires FirstSeparator(x) < |x|
    ensures FirstSeparator(x + y) == FirstSeparator(x)
  {
    var i := FirstSeparator(x);
    assert forall j: nat :: j < i ==> (SeparatorAt(x + y, j) <==> SeparatorAt(x, j));
    FirstSeparatorUnique(x + y, i);
  }

  lemma {:induction false} FirstFrameExtends(x: Bytes, y: Bytes)
    requires FirstSeparator(x) < |x|
    ensures var i := FirstSeparator(x);
            && i + 2 <= |x|
            && SplitFrames(x + y).frames == [x[..i]] + SplitFrames(x[i + 2..] + y).frames
            && SplitFrames(x + y).rest == SplitFrames(x[i + 2..] + y).rest
  {
    var i := FirstSeparator(x);
    FirstSeparatorExtends(x, y);
    SplitFirstFrame(x + y);
    assert (x + y)[..i] == x[..i];
    assert (x + y)[i + 2..] == x[i + 2..] + y;
  }

  lemma Associates(f: Bytes, a: seq<Bytes>, b: seq<Bytes>)
    ensures [f] + (a + b) == ([f] + a) + b
  {
  }

  /** Splitting `x` first and then its rest with `y` behind it gives what splitting `x + y`
      at once gives. */
  lemma {:induction false} SplitResumes(x: Bytes, y: Bytes)
    ensures var first := SplitFrames(x);
            var more := SplitFrames(first.rest + y);
            SplitFrames(x + y) == Split(first.frames + more.frames, more.rest)
    decreases |x|, 1
  {
    var i := FirstSeparator(x);
    if i < |x| {
      SplitResumesAfter(x, y, SplitFrames(x[i + 2..]));
    } else {
      assert [] + SplitFrames(x + y).frames == SplitFrames(x + y).frames;
    }
  }

  lemma {:induction false} SplitResumesAfter(x: Bytes, y: Bytes, tail: Split)
    requires FirstSeparator(x) < |x| && tail == SplitFrames(x[FirstSeparator(x) + 2..])
    ensures var first := SplitFrames(x);
            var more := SplitFrames(first.rest + y);
            SplitFrames(x + y) == Split(first.frames + more.frames, more.rest)
    decreases |x|, 0
  {
    var i := FirstSeparator(x);
    SplitResumes(x[i + 2..], y);
    SplitFirstFrame(x);
    FirstFrameExtends(x, y);
    Associates(x[..i], tail.frames, SplitFrames(tail.rest + y).frames);
  }
}
