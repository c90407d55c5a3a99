/** Re-chunking interleaved PCM into fixed-size planar AAC frames (`src/export/export.cpp`). */
module AacChunking {
  import opened Gcds

  datatype AacFrame<V> = AacFrame(left: seq<V>, right: seq<V>, pts: int)

  /** Left and right samples woven back together. */
  function Weave<V>(frame: AacFrame<V>): seq<V>
    requires |frame.left| == |frame.right|
  {
    seq(2 * |frame.left|, j requires 0 <= j < 2 * |frame.left| =>
      if j % 2 == 0 then frame.left[j / 2] else frame.right[j / 2])
  }

  predicate Planar<V>(frames: seq<AacFrame<V>>, frameSize: nat) {
    forall k :: 0 <= k < |frames| ==>
      |frames[k].left| == frameSize && |frames[k].right| == frameSize && frames[k].pts == k * frameSize
  }

  function WeaveAll<V>(frames: seq<AacFrame<V>>): seq<V>
    requires forall k :: 0 <= k < |frames| ==> |frames[k].left| == |frames[k].right|
  {
    if frames == [] then [] else WeaveAll(frames[..|frames| - 1]) + Weave(frames[|frames| - 1])
  }

  lemma {:induction false} WeaveLength<V>(frames: seq<AacFrame<V>>, frameSize: nat)
    requires Planar(frames, frameSize)
    ensures |WeaveAll(frames)| == 2 * (|frames| * frameSize)
  {
    if frames != [] {
      WeaveLength(frames[..|frames| - 1], frameSize);
      assert |frames| * frameSize == (|frames| - 1) * frameSize + frameSize;
    }
  }

  /** Silence added so that a number of sample pairs fills whole frames, computed before encoding starts. */
  function TrailingPadding(total: nat, frameSize: nat): int
    requires frameSize > 0
  {
    (total + frameSize - 1) / frameSize * frameSize - total
  }

  /** The padding is the least that reaches a multiple of the frame size. */
  lemma PaddingIsLeast(total: nat, frameSize: nat, frames: nat)
    requires frameSize > 0
    requires frames * frameSize >= total && (frames == 0 || (frames - 1) * frameSize < total)
    ensures TrailingPadding(total, frameSize) == frames * frameSize - total
  {
    var q := (total + frameSize - 1) / frameSize;
    assert q * frameSize <= total + frameSize - 1 < (q + 1) * frameSize;
    NextMultiple(frames, frameSize);
    if q < frames {
      MulAtMost(q + 1, frames, frameSize);
    } else if frames < q {
      MulAtMost(frames + 1, q, frameSize);
    }
  }

  lemma NextMultiple(k: int, n: int)
    ensures (k + 1) * n == k * n + n
    ensures (k - 1) * n == k * n - n
  {
  }

  class AacWriter<V> {
    const frameSize: nat
    const silence: V
    var pending: seq<V>
    var encoded: int
    var frames: seq<AacFrame<V>>

    ghost predicate Valid()
      reads this
    {
      frameSize > 0 && Planar(frames, frameSize) && encoded == |frames| * frameSize
    }

    /** Everything written so far: the emitted frames, woven, and what still waits for a full frame. */
    ghost function Received(): seq<V>
      requires Valid()
      reads this
    {
      WeaveAll(frames) + pending
    }

    constructor (frameSize: nat, silence: V)
      requires frameSize > 0
      ensures Valid() && this.frameSize == frameSize && this.silence == silence
      ensures Received() == [] && pending == [] && frames == []
    {
      this.frameSize, this.silence := frameSize, silence;
      pending, encoded, frames := [], 0, [];
    }

    /** Encodes one frame with the next presentation time. */
    method Emit(left: seq<V>, right: seq<V>)
      requires Valid() && |left| == frameSize && |right| == frameSize
      modifies this`encoded, this`frames
      ensures Valid() && frames == old(frames) + [AacFrame(left, right, old(encoded))]
      ensures WeaveAll(frames) == WeaveAll(old(frames)) + Weave(AacFrame(left, right, old(encoded)))
    {
      frames := frames + [AacFrame(left, right, encoded)];
      encoded := encoded + frameSize;
      assert frames[..|frames| - 1] == old(frames);
    }

    /** `write_aac`: any chunk size; whole frames leave as soon as they are complete. */
    method Write(samples: seq<V>)
      requires Valid()
      modifies this`pending, this`encoded, this`frames
      ensures Valid() && old(frames) <= frames
      ensures Received() == old(Received()) + samples
      ensures |pending| < 2 * frameSize
    {
      pending := pending + samples;
      assert Received() == old(Received()) + samples;
      while |pending| >= 2 * frameSize
        invariant Valid() && old(frames) <= frames
        invariant Received() == old(Received()) + samples
        decreases |pending|
      {
        hide Weave, WeaveAll;
        var left, right := Planes(pending, frameSize, encoded);
        TakenApart(WeaveAll(frames), pending, 2 * frameSize);
        Emit(left, right);
        pending := pending[2 * frameSize..];
      }
    }

    /**
     `finish_aac`: the last partial frame is filled with silence. For an even number of samples the
     frames hold all of them followed by exactly the silence that was announced up front.
     */
    method Finish()
      requires Valid() && |pending| < 2 * frameSize
      modifies this`pending, this`encoded, this`frames
      ensures Valid() && pending == [] && old(frames) <= frames
      ensures |old(Received())| % 2 == 0 ==>
                && TrailingPadding(|old(Received())| / 2, frameSize) >= 0
                && Received() == old(Received())
                                 + seq(2 * TrailingPadding(|old(Received())| / 2, frameSize), i => silence)
    {
      hide TrailingPadding, Weave;
      WeaveLength(frames, frameSize);
      if pending == [] {
        NextMultiple(|frames|, frameSize);
        PaddingIsLeast(|Received()| / 2, frameSize, |frames|);
        return;
      }
      var left, right := FinalPlanes(pending, frameSize, silence);
      ghost var woven, waiting, emitted := WeaveAll(frames), pending, |frames|;
      Emit(left, right);
      pending := [];
      if |woven + waiting| % 2 == 0 {
        LastFrame(woven, waiting, AacFrame(left, right, old(encoded)), emitted, frameSize, silence);
      }
    }
  }

  /** The next frame's planes: every other one of the waiting samples. */
  method Planes<V>(pending: seq<V>, frameSize: nat, ghost time: int) returns (left: seq<V>, right: seq<V>)
    requires |pending| >= 2 * frameSize
    ensures |left| == |right| == frameSize
    ensures Weave(AacFrame(left, right, time)) == pending[..2 * frameSize]
  {
    left, right := [], [];
    for i := 0 to frameSize
      invariant |left| == i && |right| == i
      invariant forall k :: 0 <= k < i ==> left[k] == pending[2 * k] && right[k] == pending[2 * k + 1]
    {
      left := left + [pending[2 * i]];
      right := right + [pending[2 * i + 1]];
    }
  }

  lemma TakenApart<V>(woven: seq<V>, waiting: seq<V>, n: nat)
    requires n <= |waiting|
    ensures woven + waiting == (woven + waiting[..n]) + waiting[n..]
  {
  }

  /** The last frame's planes: the waiting samples, then silence. */
  method FinalPlanes<V>(pending: seq<V>, frameSize: nat, silence: V) returns (left: seq<V>, right: seq<V>)
    ensures |left| == |right| == frameSize
    ensures forall k :: 0 <= k < frameSize ==>
              && left[k] == (if k < |pending| / 2 then pending[2 * k] else silence)
              && right[k] == (if k < |pending| / 2 then pending[2 * k + 1] else silence)
  {
    var valid := |pending| / 2;
    left, right := [], [];
    for i := 0 to frameSize
      invariant |left| == i && |right| == i
      invariant forall k :: 0 <= k < i ==>
                  && left[k] == (if k < valid then pending[2 * k] else silence)
                  && right[k] == (if k < valid then pending[2 * k + 1] else silence)
    {
      left := left + [if i < valid then pending[2 * i] else silence];
      right := right + [if i < valid then pending[2 * i + 1] else silence];
    }
  }

  /** A last frame of waiting samples and silence adds exactly the announced padding. */
  lemma LastFrame<V>(woven: seq<V>, waiting: seq<V>, last: AacFrame<V>, emitted: nat, frameSize: nat, silence: V)
    requires |woven| == 2 * (emitted * frameSize) && 0 < |waiting| < 2 * frameSize && |waiting| % 2 == 0
    requires |last.left| == |last.right| == frameSize
    requires forall k :: 0 <= k < frameSize ==>
               && last.left[k] == (if k < |waiting| / 2 then waiting[2 * k] else silence)
               && last.right[k] == (if k < |waiting| / 2 then waiting[2 * k + 1] else silence)
    ensures var padding := TrailingPadding(|woven + waiting| / 2, frameSize);
            && padding >= 0
            && woven + Weave(last) == (woven + waiting) + seq(2 * padding, i => silence)
  {
    var total := |woven + waiting| / 2;
    assert total == emitted * frameSize + |waiting| / 2;
    NextMultiple(emitted, frameSize);
    PaddingIsLeast(total, frameSize, emitted + 1);
    hide TrailingPadding;
    assert Weave(last) == waiting + seq(2 * frameSize - |waiting|, i => silence);
  }
}
