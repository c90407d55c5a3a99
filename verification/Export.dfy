/** Exporting a sequence: frame totals, audio packets and the counting loop (`src/export/export.cpp`). */
module Exporting {
  import opened Wrappers
  import opened Gcds
  import opened RationalTimes
  import opened Model
  import opened SequencePlans
  import opened Samples
  import opened Rendering
  import opened AacChunking

  const INT_MAX: int := 0x7fff_ffff

  datatype ExportError =
    | EmptySequence
    | TimeBaseLimit
    | Render(error: RenderError)
    | Discontinuous
    | ExcessFrames
    | CountMismatch
    | InvalidPcm
    | PcmTooLarge

  // ----- totals

  /** `av_rescale_rnd` rounding up: exact, except that the extreme values pass through and overflow is marked. */
  function RescaleUp(a: int64, b: int64, c: int64): int64
    requires a >= 0 && b >= 0 && c > 0
  {
    if a == MAX then a
    else
      var scaled := a * b;
      var quotient := if scaled % c == 0 then scaled / c else scaled / c + 1;
      if 0 <= quotient <= MAX then quotient else -MAX - 1
  }

  function FrameCount(plan: SequencePlan): Result<int64, ExportError> {
    if plan.duration == Zero then Failure(EmptySequence)
    else if plan.duration.rate > INT_MAX || plan.frameDuration.value > INT_MAX || plan.frameDuration.rate > INT_MAX then
      Failure(TimeBaseLimit)
    else if plan.frameDuration.value == 0 then
      Success(-MAX - 1)
    else
      RateProductFits(plan.frameDuration.value, plan.duration.rate);
      Success(RescaleUp(plan.duration.value, plan.frameDuration.rate, plan.frameDuration.value * plan.duration.rate))
  }

  /** `frame_count`: refused for an empty sequence and for time bases beyond 32 bits; otherwise, within the renderer's
      limits, the number of frames that start before the end. */
  method CountFrames(plan: SequencePlan) returns (r: Result<int64, ExportError>)
    ensures r == FrameCount(plan)
    ensures r == Failure(EmptySequence) <==> plan.duration == Zero
    ensures r == Failure(TimeBaseLimit) <==> plan.duration != Zero && !SmallTimeBases(plan)
    ensures r.Failure? ==> r.error in {EmptySequence, TimeBaseLimit}
    ensures r.Success? && WithinLimits(plan) ==> r.value == FirstFrame(plan, plan.duration.Seconds())
  {
    hide RationalTime.Seconds, WithinLimits, FirstFrame;
    if plan.duration == Zero {
      return Failure(EmptySequence);
    }
    if plan.duration.rate > 0x7fff_ffff || plan.frameDuration.value > 0x7fff_ffff
       || plan.frameDuration.rate > 0x7fff_ffff
    {
      return Failure(TimeBaseLimit);
    }
    r := FrameCount(plan);
    if WithinLimits(plan) { FrameCountIsExact(plan); }
  }

  /** The time bases of the sequence and of its frames fit the encoder's 32 bits. */
  predicate SmallTimeBases(plan: SequencePlan) {
    plan.duration.rate < 0x8000_0000 && plan.frameDuration.value < 0x8000_0000 && plan.frameDuration.rate < 0x8000_0000
  }

  lemma RateProductFits(a: int, b: int)
    requires 0 < a <= INT_MAX && 0 < b <= INT_MAX
    ensures 0 < a * b <= MAX
  {
    MulAtMost(a, INT_MAX, b);
    MulAtLeast(a, b);
  }

  /** Within the renderer's limits the count is the number of frames that start before the end. */
  lemma FrameCountIsExact(plan: SequencePlan)
    requires WithinLimits(plan) && FrameCount(plan).Success?
    ensures FrameCount(plan).value == FirstFrame(plan, plan.duration.Seconds())
  {
    var d, f := plan.duration, plan.frameDuration;
    PositiveFrame(f);
    RateProductFits(f.value, d.rate);
    DurationBelowMax(d);
    FirstFrameInRange(plan);
    var a, c := d.value * f.rate, f.value * d.rate;
    assert a >= 0 by { MulAtMost(0, d.value, f.rate); }
    assert d.Seconds() / f.Seconds() == a as real / c as real by { QuotientOfTimes(d, f); }
    RoundedQuotient(a, c);
  }

  lemma PositiveFrame(f: Time)
    requires 1.0 / 60.0 <= f.Seconds()
    ensures f.value > 0
  {
  }

  lemma DurationBelowMax(d: Time)
    requires d.Seconds() <= 86400.0 && d.rate <= INT_MAX
    ensures d.value < MAX
  {
    QuotientLess(86400, 1, d.value, d.rate);
  }

  lemma FirstFrameInRange(plan: SequencePlan)
    requires WithinLimits(plan)
    ensures 0 <= FirstFrame(plan, plan.duration.Seconds()) < FRAME_LIMIT
  {
    StartInRange(plan, plan.duration, 0);
  }

  lemma QuotientOfTimes(d: Time, f: Time)
    requires f.value > 0
    ensures f.Seconds() > 0.0
    ensures d.Seconds() / f.Seconds() == (d.value * f.rate) as real / (f.value * d.rate) as real
  {
    var a, b, p, q := d.value as real, d.rate as real, f.value as real, f.rate as real;
    assert f.Seconds() == p / q;
    assert p / q > 0.0;
    assert (d.value * f.rate) as real == a * q && (f.value * d.rate) as real == p * b;
    assert p * b > 0.0;
    var x := (a / b) / (p / q);
    assert x * (p / q) == a / b;
    assert x * (p * b) == a * q by {
      assert (p / q) * q == p && (a / b) * b == a;
      assert x * (p * b) == (x * (p / q)) * (q * b);
      assert (a / b) * (q * b) == a * q;
    }
    QuotientOrder(x, a * q, p * b);
  }

  // ----- PCM packets

  datatype PcmPacket<V> = PcmPacket(pts: int, samples: seq<V>)

  function PcmSamples<V>(packets: seq<PcmPacket<V>>): seq<V> {
    if packets == [] then [] else PcmSamples(packets[..|packets| - 1]) + packets[|packets| - 1].samples
  }

  /** Each packet is stamped with the number of sample pairs before it. */
  predicate Stamped<V>(packets: seq<PcmPacket<V>>) {
    forall k :: 0 <= k < |packets| ==> 2 * packets[k].pts == |PcmSamples(packets[..k])|
  }

  /** The reference encoder's frame, whose capacity is the size of the last block written to it. */
  class PcmWriter<V> {
    var capacity: nat
    var packets: seq<PcmPacket<V>>

    constructor ()
      ensures capacity == 480 && packets == []
    {
      capacity, packets := 480, [];
    }

    /** `write_pcm`. */
    method Write(samples: seq<V>, start: int) returns (error: Option<ExportError>)
      modifies this
      ensures error == Some(InvalidPcm) <==> samples == [] || |samples| % 2 != 0
      ensures error == Some(PcmTooLarge) <==> error != Some(InvalidPcm) && |samples| / 2 > old(capacity)
      ensures error.Some? ==> capacity == old(capacity) && packets == old(packets)
      ensures error.None? ==> capacity == |samples| / 2 && packets == old(packets) + [PcmPacket(start, samples)]
      ensures error.Some? ==> error.value == InvalidPcm || error.value == PcmTooLarge
    {
      if samples == [] || |samples| % 2 != 0 {
        return Some(InvalidPcm);
      }
      var count := |samples| / 2;
      if count > capacity {
        return Some(PcmTooLarge);
      }
      capacity := count;
      packets := packets + [PcmPacket(start, samples)];
      return None;
    }
  }

  lemma AppendPacket<V>(packets: seq<PcmPacket<V>>, packet: PcmPacket<V>)
    requires Stamped(packets) && 2 * packet.pts == |PcmSamples(packets)|
    ensures Stamped(packets + [packet])
    ensures PcmSamples(packets + [packet]) == PcmSamples(packets) + packet.samples
  {
    var all := packets + [packet];
    assert all[..|packets|] == packets;
    forall k | 0 <= k < |packets|
      ensures all[..k] == packets[..k]
    {
    }
  }

  // ----- the export loop

  datatype Preset = LosslessReference | Mp4H264

  datatype Exported<V, F> = Exported(
    frames: int,
    samples: int,
    video: seq<Picture<F>>,
    pcm: seq<PcmPacket<V>>,
    aac: seq<AacFrame<V>>
  )

  /** Both audio encoders; the preset decides which one is fed. */
  class Muxer<V, F> {
    const preset: Preset
    const pcm: PcmWriter<V>
    const aac: AacWriter<V>
    var video: seq<Picture<F>>

    ghost predicate Valid()
      reads this, pcm, aac
    {
      && aac.Valid() && Stamped(pcm.packets) && |aac.pending| < 2 * aac.frameSize
      && (if preset == LosslessReference then aac.Received() == [] else pcm.packets == [])
    }

    /** All audio handed to the muxer so far. */
    ghost function Audio(): seq<V>
      requires aac.Valid()
      reads this, pcm, aac
    {
      if preset == LosslessReference then PcmSamples(pcm.packets) else aac.Received()
    }

    constructor (preset: Preset, frameSize: nat, silence: V)
      requires frameSize > 0
      ensures Valid() && Audio() == [] && video == [] && this.preset == preset && pcm.capacity == 480
      ensures fresh(pcm) && fresh(aac) && aac.frameSize == frameSize && aac.silence == silence
    {
      this.preset, video := preset, [];
      pcm := new PcmWriter();
      aac := new AacWriter(frameSize, silence);
    }

    method WriteAudio(samples: seq<V>, start: int) returns (error: Option<ExportError>)
      requires Valid() && 0 < |samples| <= 2 * pcm.capacity && |samples| % 2 == 0
      requires 2 * start == |Audio()|
      modifies pcm, aac
      ensures error.None? && Valid() && Audio() == old(Audio()) + samples
      ensures pcm.capacity == if preset == LosslessReference then |samples| / 2 else old(pcm.capacity)
    {
      error := None;
      if preset == LosslessReference {
        AppendPacket(pcm.packets, PcmPacket(start, samples));
        error := pcm.Write(samples, start);
      } else {
        aac.Write(samples);
      }
    }
  }

  /** What a finished export holds. */
  ghost predicate Complete<V, F>(plan: SequencePlan, footage: Footage<V, F>, preset: Preset, frameSize: nat,
                                 out: Exported<V, F>)
    requires WithinLimits(plan)
  {
    var total, frames := FinishSample(plan), FirstFrame(plan, plan.duration.Seconds());
    && total >= 0 && 0 <= frames <= FRAME_LIMIT && frameSize > 0
    && out.samples == total && out.frames == frames
    && out.video == FramesOf(plan, footage, 0, frames)
    && (preset == LosslessReference ==>
          Stamped(out.pcm) && PcmSamples(out.pcm) == AudioOf(plan, footage, 0, total))
    && (preset == Mp4H264 ==>
          && Planar(out.aac, frameSize) && TrailingPadding(total, frameSize) >= 0
          && WeaveAll(out.aac) == AudioOf(plan, footage, 0, total)
                                  + seq(2 * TrailingPadding(total, frameSize), i => footage.silence))
  }

  /** One turn of the export loop's inner part: each picture takes the next frame number. */
  method WritePictures<V, F>(muxer: Muxer<V, F>, pictures: seq<Picture<F>>, frames: int, total: int)
    returns (error: Option<ExportError>, next: int)
    requires frames + |pictures| <= total
    modifies muxer
    ensures error.None? && next == frames + |pictures|
    ensures muxer.video == old(muxer.video) + pictures
  {
    next := frames;
    for k := 0 to |pictures|
      invariant next == frames + k && muxer.video == old(muxer.video) + pictures[..k]
    {
      if next >= total {
        assert false;
        return Some(ExcessFrames), next;
      }
      muxer.video := muxer.video + [pictures[k]];
      next := next + 1;
    }
    return None, next;
  }

  lemma AudioExtends<V, F>(plan: SequencePlan, footage: Footage<V, F>, from: int, middle: int, to: int)
    requires from <= middle <= to
    ensures AudioOf(plan, footage, from, to)
            == AudioOf(plan, footage, from, middle) + AudioOf(plan, footage, middle, to)
  {
    hide SampleAt;
    var whole := AudioOf(plan, footage, from, to);
    var parts := AudioOf(plan, footage, from, middle) + AudioOf(plan, footage, middle, to);
    forall j | 0 <= j < |whole|
      ensures whole[j] == parts[j]
    {
      if j >= 2 * (middle - from) {
        var i := j - 2 * (middle - from);
        assert i / 2 == j / 2 - (middle - from) && i % 2 == j % 2;
      }
    }
  }

  lemma FramesExtend<V, F>(plan: SequencePlan, footage: Footage<V, F>, from: int, middle: int, to: int)
    requires WithinLimits(plan) && 0 <= from <= middle <= to <= FRAME_LIMIT
    ensures FramesOf(plan, footage, from, to)
            == FramesOf(plan, footage, from, middle) + FramesOf(plan, footage, middle, to)
  {
    hide FrameAt, WithinLimits;
  }

  /** The export after `samples` sample pairs and `frames` frames. */
  ghost predicate InProgress<V, F>(plan: SequencePlan, footage: Footage<V, F>, renderer: Renderer<V, F>,
                                   muxer: Muxer<V, F>, frames: int, samples: int)
    requires WithinLimits(plan)
    reads renderer, muxer, muxer.pcm, muxer.aac
  {
    && renderer.Valid() && renderer.plan == plan && renderer.footage == footage
    && muxer.Valid() && muxer.aac.silence == footage.silence
    && 0 <= samples == renderer.sample <= FinishSample(plan)
    && frames == renderer.frame == FirstFrame(plan, Lesser(Instant(samples), plan.duration.Seconds()))
    && muxer.video == FramesOf(plan, footage, 0, frames)
    && muxer.Audio() == AudioOf(plan, footage, 0, samples)
    && (muxer.pcm.capacity == 480 || samples == FinishSample(plan))
  }

  /** No sample of the mix is a floating-point value that is not finite. */
  ghost predicate AllFinite<V, F>(plan: SequencePlan, footage: Footage<V, F>) {
    forall s: int, channel: nat :: footage.finite(RawSample(plan, footage, s, channel))
  }

  /** Nothing stands in the way of an export. */
  ghost predicate Exportable<V, F>(plan: SequencePlan, footage: Footage<V, F>, present: set<nat>) {
    && SourcesPresent(plan, present)
    && plan.duration != Zero && SmallTimeBases(plan) && WithinLimits(plan) && AcceptedTracks(plan)
    && StreamsResolved(plan) && Computable(plan) && AllFinite(plan, footage)
  }

  /** The body of the export loop: the next chunk, its checks and its packets. */
  method ExportChunk<V, F>(renderer: Renderer<V, F>, muxer: Muxer<V, F>, frames: int, samples: int, totalFrames: int)
    returns (r: Result<(bool, int, int), ExportError>)
    requires WithinLimits(renderer.plan)
    requires InProgress(renderer.plan, renderer.footage, renderer, muxer, frames, samples)
    requires totalFrames == FirstFrame(renderer.plan, renderer.plan.duration.Seconds())
    modifies renderer, muxer, muxer.pcm, muxer.aac
    ensures r.Failure? ==> r.error in {Render(MissingStream), Render(TimestampOverflow), Render(NonFiniteSample)}
    ensures StreamsResolved(renderer.plan) ==> r != Failure(Render(MissingStream))
    ensures Computable(renderer.plan) ==> r != Failure(Render(TimestampOverflow))
    ensures AllFinite(renderer.plan, renderer.footage) ==> r != Failure(Render(NonFiniteSample))
    ensures r.Success? ==> InProgress(renderer.plan, renderer.footage, renderer, muxer, r.value.1, r.value.2)
    ensures r.Success? ==> if r.value.0 then && samples == FinishSample(renderer.plan)
                                             && r.value == (true, frames, samples)
                           else samples < r.value.2
  {
    hide RationalTime.Seconds, ValidPlan, StreamsResolved, FirstFrame, FrameAt, SampleAt, WithinLimits, Computable;
    hide SlotsReady, SlotsFollow, Tracking, NotSoughtAgain, RawSample, SampleMissing, FrameMissing, SoundsAt, PictureAt;
    ghost var plan, footage := renderer.plan, renderer.footage;
    var next := renderer.Next();
    if next.Failure? {
      return Failure(Render(next.error));
    }
    var chunk := next.value;
    if chunk.end {
      return Success((true, frames, samples));
    }
    if chunk.sample != samples {
      assert false;
      return Failure(Discontinuous);
    }
    var error := muxer.WriteAudio(chunk.audio, chunk.sample);
    AudioExtends(plan, footage, 0, samples, renderer.sample);
    FramesBeforeEnd(plan, Instant(renderer.sample));
    LaterFrames(plan, samples, renderer.sample);
    FramesExtend(plan, footage, 0, frames, renderer.frame);
    var written;
    error, written := WritePictures(muxer, chunk.pictures, frames, totalFrames);
    return Success((false, written, samples + |chunk.audio| / 2));
  }

  lemma LaterFrames(plan: SequencePlan, samples: int, next: int)
    requires WithinLimits(plan) && samples <= next
    ensures FirstFrame(plan, Lesser(Instant(samples), plan.duration.Seconds()))
         <= FirstFrame(plan, Lesser(Instant(next), plan.duration.Seconds()))
  {
    hide RationalTime.Seconds, FirstFrame;
    FirstFrameMonotone(plan, Lesser(Instant(samples), plan.duration.Seconds()),
                       Lesser(Instant(next), plan.duration.Seconds()));
  }

  /** Opens the renderer at zero and an empty muxer. */
  method BeginExport<V, F>(plan: SequencePlan, footage: Footage<V, F>, present: set<nat>, preset: Preset,
                           frameSize: nat)
    returns (r: Result<(Renderer<V, F>, Muxer<V, F>), ExportError>)
    requires ValidPlan(plan) && footage.Valid() && frameSize > 0
    ensures r.Failure? ==> r.error in {Render(BeyondLimits), Render(SourceMissing), Render(TimestampOverflow)}
    ensures SourcesPresent(plan, present) ==> r != Failure(Render(SourceMissing))
    ensures WithinLimits(plan) && AcceptedTracks(plan) ==> r != Failure(Render(BeyondLimits))
    ensures Computable(plan) ==> r != Failure(Render(TimestampOverflow))
    ensures r.Success? ==>
              var (renderer, muxer) := r.value;
              && WithinLimits(plan) && AcceptedTracks(plan) && SourcesPresent(plan, present)
              && renderer.plan == plan && renderer.footage == footage
              && fresh(renderer) && fresh(muxer) && fresh(muxer.pcm) && fresh(muxer.aac)
              && muxer.preset == preset && muxer.aac.frameSize == frameSize
              && InProgress(plan, footage, renderer, muxer, 0, 0)
  {
    hide RationalTime.Seconds, ValidPlan, FirstFrame, FrameAt, SampleAt, WithinLimits, AcceptedTracks, Computable;
    hide SlotsReady, SlotsFollow, Overflows, EvaluationNeeded, SourcesPresent;
    ExportStart(plan);
    var started := Open(plan, footage, present, Zero, 0);
    if started.Failure? {
      if started.error == TimestampOverflow {
        assert EvaluationOverflows(plan, Zero) && Zero.Seconds() == Instant(0);
        OverflowingSample(plan, 0);
      }
      return Failure(Render(started.error));
    }
    var muxer := new Muxer(preset, frameSize, footage.silence);
    StartOfExport(plan);
    return Success((started.value, muxer));
  }

  /** Flushes the audio encoder once every sample and frame has been written. */
  method FinishExport<V, F>(renderer: Renderer<V, F>, muxer: Muxer<V, F>, frames: int, samples: int)
    returns (out: Exported<V, F>)
    requires WithinLimits(renderer.plan)
    requires InProgress(renderer.plan, renderer.footage, renderer, muxer, frames, samples)
    requires samples == FinishSample(renderer.plan)
    modifies muxer.aac
    ensures Complete(renderer.plan, renderer.footage, muxer.preset, muxer.aac.frameSize, out)
  {
    hide RationalTime.Seconds, ValidPlan, FirstFrame, FrameAt, SampleAt, WithinLimits, SlotsReady, SlotsFollow;
    AllFramesAtEnd(renderer.plan, samples);
    if muxer.preset == Mp4H264 {
      muxer.aac.Finish();
    }
    return Exported(frames, samples, muxer.video, muxer.pcm.packets, muxer.aac.frames);
  }

  /**
   `export_sequence`, from the totals to the last packet. The audio is the per-sample mix of the whole
   sequence and the video every frame before its end, once and in order; the three consistency checks
   of the loop and the packet size check never fire.
   */
  method ExportSequence<V, F>(plan: SequencePlan, footage: Footage<V, F>, present: set<nat>, preset: Preset,
                              frameSize: nat)
    returns (r: Result<Exported<V, F>, ExportError>)
    requires ValidPlan(plan) && footage.Valid() && frameSize > 0
    ensures r.Success? ==> WithinLimits(plan) && Complete(plan, footage, preset, frameSize, r.value)
    ensures r.Failure? ==> r.error !in {Discontinuous, ExcessFrames, CountMismatch, InvalidPcm, PcmTooLarge}
    ensures r.Failure? ==> r.error != Render(InvalidBoundary)
    ensures StreamsResolved(plan) ==> r != Failure(Render(MissingStream))
    ensures r == Failure(EmptySequence) <==> plan.duration == Zero
    ensures r == Failure(TimeBaseLimit) <==> plan.duration != Zero && !SmallTimeBases(plan)
    ensures r.Success? ==> AcceptedTracks(plan) && SourcesPresent(plan, present)
    ensures Exportable(plan, footage, present) ==> r.Success?
  {
    hide RationalTime.Seconds, ValidPlan, StreamsResolved, FirstFrame, FrameAt, SampleAt, WithinLimits, FrameCount;
    hide Complete;
    hide AcceptedTracks, SourcesPresent, Computable, AllFinite;
    var counted := CountFrames(plan);
    if counted.Failure? {
      return Failure(counted.error);
    }
    var totalFrames := counted.value;
    var ceiling := SampleCeil(plan.duration);
    if ceiling.None? {
      ConversionFails(plan, plan.duration);
      return Failure(Render(TimestampOverflow));
    }
    var totalSamples := ceiling.value;
    var started := BeginExport(plan, footage, present, preset, frameSize);
    if started.Failure? {
      return Failure(started.error);
    }
    var renderer, muxer := started.value.0, started.value.1;
    var frames, samples := 0, 0;
    var done := false;
    while !done
      invariant fresh(renderer) && fresh(muxer) && fresh(muxer.pcm) && fresh(muxer.aac)
      invariant renderer.plan == plan && renderer.footage == footage
      invariant muxer.preset == preset && muxer.aac.frameSize == frameSize
      invariant InProgress(plan, footage, renderer, muxer, frames, samples)
      invariant done ==> samples == totalSamples
      decreases totalSamples - samples, !done
    {
      var turn := ExportChunk(renderer, muxer, frames, samples, totalFrames);
      if turn.Failure? {
        return Failure(turn.error);
      }
      done, frames, samples := turn.value.0, turn.value.1, turn.value.2;
    }
    AllFramesAtEnd(plan, samples);
    if samples != totalSamples || frames != totalFrames {
      assert false;
      return Failure(CountMismatch);
    }
    var out := FinishExport(renderer, muxer, frames, samples);
    return Success(out);
  }

  lemma ExportStart(plan: SequencePlan)
    ensures Zero.Seconds() == 0.0 <= plan.duration.Seconds()
    ensures FrameSeconds(plan, 0) <= Zero.Seconds() + plan.frameDuration.Seconds()
  {
    SecondsNonnegative(plan.duration);
    SecondsNonnegative(plan.frameDuration);
  }

  lemma StartOfExport(plan: SequencePlan)
    requires WithinLimits(plan)
    ensures Ceiling(Zero.Seconds() * 48000.0) == 0 && FirstFrame(plan, Zero.Seconds()) == 0 <= FinishSample(plan)
    ensures Lesser(Instant(0), plan.duration.Seconds()) == Zero.Seconds()
    ensures 0 <= FirstFrame(plan, plan.duration.Seconds()) < FRAME_LIMIT
  {
    ZeroSeconds();
    SecondsNonnegative(plan.duration);
    hide RationalTime.Seconds, FirstFrame;
    FirstFrameIsFirst(plan, 0.0, 0);
    FirstFrameIsFirst(plan, 0.0, -1);
    StartInRange(plan, plan.duration, 0);
    assert Instant(0) == 0.0;
  }

  lemma FramesBeforeEnd(plan: SequencePlan, x: real)
    requires WithinLimits(plan)
    ensures FirstFrame(plan, Lesser(x, plan.duration.Seconds())) <= FirstFrame(plan, plan.duration.Seconds())
  {
    hide RationalTime.Seconds, FirstFrame;
    FirstFrameMonotone(plan, Lesser(x, plan.duration.Seconds()), plan.duration.Seconds());
  }

  lemma AllFramesAtEnd(plan: SequencePlan, samples: int)
    requires samples == FinishSample(plan)
    ensures Lesser(Instant(samples), plan.duration.Seconds()) == plan.duration.Seconds()
  {
    hide RationalTime.Seconds;
    CeilingBounds(plan.duration.Seconds() * 48000.0);
  }
}
