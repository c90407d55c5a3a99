/** Rendering a plan in blocks of audio and frames of video (`src/decode/renderer.cpp`). */
module Rendering {
  import opened Wrappers
  import opened Gcds
  import opened RationalTimes
  import opened Model
  import opened SequencePlans
  import opened Samples

  /** Everything the renderer takes from decoders and floating-point arithmetic. */
  datatype Footage<!V, !F> = Footage(
    silence: V,
    blend: (V, nat, V) -> V,
    finite: V -> bool,
    clamp: V -> V,
    blocks: (nat, uint32) -> seq<Block<V>>,
    streamEnd: (nat, uint32) -> int,
    image: (nat, uint32, real) -> Option<F>,
    black: F
  ) {
    ghost predicate Valid() {
      forall media, stream :: OrderedBlocks(blocks(media, stream))
    }
  }

  datatype Picture<F> = Picture(position: Time, clip: uint64, image: F)

  datatype Chunk<V, F> = Chunk(sample: int, audio: seq<V>, pictures: seq<Picture<F>>, end: bool)

  datatype RenderError =
    | BadPosition
    | BeyondLimits
    | SourceMissing
    | TimestampOverflow
    | MissingStream
    | InvalidBoundary
    | NonFiniteSample

  // ----- the reference: one sample, one frame at a time

  function Instant(s: int): real { s as real / 48000.0 }

  function SourceSample(cue: Cue): int { (cue.source * 48000.0).Floor }

  function CueClip(plan: SequencePlan, cue: Cue): Option<LayerClip> {
    if cue.layer < |plan.layers| && cue.clip < |plan.layers[cue.layer].clips| then
      Some(plan.layers[cue.layer].clips[cue.clip])
    else None
  }

  /** What one cue holds at its source sample. */
  function CueValue<V, F>(plan: SequencePlan, footage: Footage<V, F>, cue: Cue, channel: nat): Option<V> {
    var clip := CueClip(plan, cue);
    if clip.None? || cue.stream.None? then None
    else ValueAt(footage.blocks(clip.value.media, cue.stream.value),
                 footage.streamEnd(clip.value.media, cue.stream.value), SourceSample(cue), channel)
  }

  /** The ordered fold of the first `n` cues. */
  function MixCues<V, F>(plan: SequencePlan, footage: Footage<V, F>, cues: seq<Cue>, n: nat, channel: nat): V
    requires n <= |cues|
  {
    if n == 0 then footage.silence
    else Blended(footage.blend, MixCues(plan, footage, cues, n - 1, channel), cues[n - 1].gainMilli,
                 CueValue(plan, footage, cues[n - 1], channel))
  }

  /** The unclamped mix at sample `s`. */
  function RawSample<V, F>(plan: SequencePlan, footage: Footage<V, F>, s: int, channel: nat): V {
    var cues := SoundsAt(plan, Instant(s), |plan.layers|);
    MixCues(plan, footage, cues, |cues|, channel)
  }

  function SampleAt<V, F>(plan: SequencePlan, footage: Footage<V, F>, s: int, channel: nat): V {
    footage.clamp(RawSample(plan, footage, s, channel))
  }

  function FrameAt<V, F>(plan: SequencePlan, footage: Footage<V, F>, position: Time): Picture<F> {
    var cue := PictureAt(plan, position.Seconds(), |plan.layers|);
    if cue.None? then
      Picture(position, 0, footage.black)
    else
      var clip := CueClip(plan, cue.value);
      if clip.None? then Picture(position, 0, footage.black)
      else
        var image := if cue.value.stream.None? then None
                     else footage.image(clip.value.media, cue.value.stream.value, cue.value.source);
        Picture(position, clip.value.id, if image.None? then footage.black else image.value)
  }

  // ----- limits the renderer accepts

  predicate WithinLimits(plan: SequencePlan) {
    && plan.frameDuration.value <= 1000000000 && plan.frameDuration.rate <= 1000000000
    && plan.duration.Seconds() <= 86400.0
    && 1.0 / 60.0 <= plan.frameDuration.Seconds() <= 1.0
  }

  /** Indices of frames the renderer can form; larger ones are never reached. */
  const FRAME_LIMIT: int := 86400 * 60 + 61

  lemma FrameIndexFits(plan: SequencePlan, k: int)
    requires WithinLimits(plan) && 0 <= k <= FRAME_LIMIT
    ensures 0 <= k * plan.frameDuration.value <= MAX
  {
    hide RationalTime.Seconds;
    MulAtMost(k, FRAME_LIMIT, plan.frameDuration.value);
    MulAtMost(0, k, plan.frameDuration.value);
  }

  /** The exact instant of frame `k`. */
  function FrameSeconds(plan: SequencePlan, k: int): real {
    k as real * plan.frameDuration.Seconds()
  }

  function FrameTime(plan: SequencePlan, k: int): (t: Time)
    requires WithinLimits(plan) && 0 <= k <= FRAME_LIMIT
    ensures t.Seconds() == FrameSeconds(plan, k)
  {
    FrameIndexFits(plan, k);
    ScaledSeconds(plan.frameDuration, k);
    Make(k * plan.frameDuration.value, plan.frameDuration.rate).value
  }

  lemma FrameBelowLimit(plan: SequencePlan, k: int)
    requires WithinLimits(plan) && 0 <= k && FrameSeconds(plan, k) <= 86400.0
    ensures k <= 86400 * 60
  {
    hide RationalTime.Seconds;
    RealMulAtMost(1.0 / 60.0, plan.frameDuration.Seconds(), k as real);
  }

  lemma FramesIncrease(plan: SequencePlan, j: int, k: int)
    requires WithinLimits(plan) && j < k
    ensures FrameSeconds(plan, j) < FrameSeconds(plan, k)
  {
    hide RationalTime.Seconds;
    assert (k - j) as real * plan.frameDuration.Seconds() > 0.0;
  }

  // ----- decoder slots

  /**
   A layer's decoder: which clip it was last positioned for, how many blocks it has read since, the
   source sample it would deliver next, and how often it was made to seek.
   */
  datatype Slot = Slot(clip: uint64, media: nat, stream: uint32, read: nat, next: int, seeks: nat)

  const IDLE := Slot(0, 0, 0, 0, 0, 0)

  function SourceSampleOf(clip: LayerClip, s: int): int {
    (SourceInstant(clip, Instant(s)) * 48000.0).Floor
  }

  /** The decoder has not run past what its clip shows at sample `s`. */
  ghost predicate SlotReady<V, F>(footage: Footage<V, F>, layer: Layer, slot: Slot, s: int) {
    slot.clip != 0 ==>
      forall k :: 0 <= k < |layer.clips| && layer.clips[k].id == slot.clip ==>
        && slot.media == layer.clips[k].media
        && ReadyAt(footage.blocks(slot.media, slot.stream), slot.read, SourceSampleOf(layer.clips[k], s))
  }

  lemma SlotReadyLater<V, F>(footage: Footage<V, F>, layer: Layer, slot: Slot, s: int, t: int)
    requires SlotReady(footage, layer, slot, s) && s <= t
    ensures SlotReady(footage, layer, slot, t)
  {
    hide RationalTime.Seconds;
    forall k | 0 <= k < |layer.clips|
      ensures SourceSampleOf(layer.clips[k], s) <= SourceSampleOf(layer.clips[k], t)
    {
      FloorMonotone(SourceInstant(layer.clips[k], Instant(s)) * 48000.0,
                    SourceInstant(layer.clips[k], Instant(t)) * 48000.0);
    }
  }

  lemma FloorMonotone(x: real, y: real)
    requires x <= y
    ensures x.Floor <= y.Floor
  {
  }

  /**
   Positions a slot for a clip's source sample: another stream opens a new decoder, another clip seeks,
   and the same clip carries on where it stopped.
   */
  function Positioned(slot: Slot, clip: LayerClip, stream: uint32, source: int): Slot {
    var kept := if slot.clip == 0 || slot.media != clip.media || slot.stream != stream
                  then slot.(clip := 0, media := clip.media, stream := stream) else slot;
    if kept.clip != clip.id then kept.(clip := clip.id, read := 0, next := source, seeks := kept.seeks + 1) else kept
  }

  // ----- requests to a decoder are contiguous between seeks

  /** A slot that was last positioned for clip `k` of layer `i`: the clip is heard there, from the slot's own stream. */
  predicate PlayedBy(plan: SequencePlan, i: nat, k: nat, slot: Slot)
    requires i < |plan.layers| && k < |plan.layers[i].clips|
  {
    var layer, clip := plan.layers[i], plan.layers[i].clips[k];
    && layer.playback.enabled && Heard(plan, layer, clip)
    && slot.media == clip.media
    && SelectStream(plan.media[clip.media], AudioTrack, clip.routing.audio) == Some(slot.stream)
  }

  /** At sample `s` the slot stands exactly at what its clip sounds then, unless that clip is over. */
  ghost predicate SlotFollows(plan: SequencePlan, i: nat, slot: Slot, s: int)
    requires i < |plan.layers|
  {
    forall k :: 0 <= k < |plan.layers[i].clips| && plan.layers[i].clips[k].id == slot.clip ==>
      var clip := plan.layers[i].clips[k];
      && PlayedBy(plan, i, k, slot) && clip.Start() <= Instant(s)
      && (slot.next == SourceSampleOf(clip, s) || clip.Finish() <= Instant(s))
  }

  ghost predicate SlotsFollow(plan: SequencePlan, slots: seq<Slot>, s: int) {
    |slots| == |plan.layers| && forall i :: 0 <= i < |slots| ==> SlotFollows(plan, i, slots[i], s)
  }

  /**
   What mixing a clip's samples `[at, end)` does to its slot. A slot of the same clip is asked for exactly
   the sample it stands at and does not seek; any other seeks once. Either way it ends behind the request.
   */
  predicate SlotMoved(clip: LayerClip, stream: uint32, before: Slot, after: Slot, at: int, end: int) {
    && after.clip == clip.id && after.media == clip.media && after.stream == stream
    && after.next == SourceSampleOf(clip, end)
    && if before.clip == clip.id
       then before.next == SourceSampleOf(clip, at) && after.seeks == before.seeks && after.read >= before.read
       else after.seeks == before.seeks + 1
  }

  /** A stretch `[at, end)` moves the slots of the layers heard in it and leaves the others alone. */
  ghost predicate SlotsMoved(plan: SequencePlan, before: seq<Slot>, after: seq<Slot>, at: int, end: int) {
    && |before| == |after| == |plan.layers|
    && forall i :: 0 <= i < |plan.layers| ==> OneSlotMoved(plan, i, before[i], after[i], at, end)
  }

  ghost predicate OneSlotMoved(plan: SequencePlan, i: nat, before: Slot, after: Slot, at: int, end: int)
    requires i < |plan.layers|
  {
    var cue := AudioCue(plan, i, Instant(at));
    if cue.None? then after == before
    else
      && cue.value.clip < |plan.layers[i].clips| && cue.value.stream.Some?
      && SlotMoved(plan.layers[i].clips[cue.value.clip], cue.value.stream.value, before, after, at, end)
  }

  /** A slot whose clip is the one heard at sample `at` stands exactly at the requested source sample. */
  lemma RequestContinues(plan: SequencePlan, i: nat, slot: Slot, at: int)
    requires i < |plan.layers| && SlotFollows(plan, i, slot, at) && AudioCue(plan, i, Instant(at)).Some?
    ensures var cue := AudioCue(plan, i, Instant(at)).value;
            && cue.clip < |plan.layers[i].clips|
            && var clip := plan.layers[i].clips[cue.clip];
               slot.clip == clip.id ==>
                 slot.media == clip.media && cue.stream == Some(slot.stream) && slot.next == SourceSampleOf(clip, at)
  {
    hide RationalTime.Seconds, SelectStream, SourceSampleOf;
  }

  /** The clip of the slot, if it has not ended, is the one heard. */
  lemma SlotIsHeard(plan: SequencePlan, i: nat, slot: Slot, k: nat, s: int)
    requires ValidPlan(plan) && i < |plan.layers|
    requires k < |plan.layers[i].clips| && plan.layers[i].clips[k].id == slot.clip
    requires SlotFollows(plan, i, slot, s) && Instant(s) < plan.layers[i].clips[k].Finish()
    ensures AudioCue(plan, i, Instant(s)).Some? && AudioCue(plan, i, Instant(s)).value.clip == k
  {
    hide RationalTime.Seconds, SelectStream, SourceSampleOf, ValidLayer, SourceInstant;
    CoveringIsShown(plan.layers[i], plan.media, plan.duration, k, Instant(s));
  }

  /** Slots keep following over a stretch. */
  lemma SlotsFollowOn(plan: SequencePlan, before: seq<Slot>, after: seq<Slot>, at: int, end: int)
    requires ValidPlan(plan) && SlotsFollow(plan, before, at) && SlotsMoved(plan, before, after, at, end) && at <= end
    ensures SlotsFollow(plan, after, end)
  {
    hide ValidPlan, SlotFollows, OneSlotMoved, RationalTime.Seconds;
    forall i | 0 <= i < |after|
      ensures SlotFollows(plan, i, after[i], end)
    {
      OneSlotFollowsOn(plan, i, before[i], after[i], at, end);
    }
  }

  lemma OneSlotFollowsOn(plan: SequencePlan, i: nat, before: Slot, after: Slot, at: int, end: int)
    requires ValidPlan(plan) && i < |plan.layers| && at <= end
    requires SlotFollows(plan, i, before, at) && OneSlotMoved(plan, i, before, after, at, end)
    ensures SlotFollows(plan, i, after, end)
  {
    hide ValidPlan, RationalTime.Seconds, SelectStream, SourceSampleOf, SourceInstant, Heard;
    var clips := plan.layers[i].clips;
    ClipIdsDistinct(plan, i);
    assert Instant(at) <= Instant(end);
    forall k | 0 <= k < |clips| && clips[k].id == after.clip
      ensures PlayedBy(plan, i, k, after) && clips[k].Start() <= Instant(end)
      ensures after.next == SourceSampleOf(clips[k], end) || clips[k].Finish() <= Instant(end)
    {
      if AudioCue(plan, i, Instant(at)).None? && Instant(at) < clips[k].Finish() {
        SlotIsHeard(plan, i, before, k, at);
      }
    }
  }

  /** The slots of the layers heard at the last sample before `s` stand right behind that sample. */
  ghost predicate Tracking(plan: SequencePlan, slots: seq<Slot>, s: int) {
    |slots| == |plan.layers| && forall i :: 0 <= i < |plan.layers| ==> SlotTracks(plan, i, slots[i], s)
  }

  ghost predicate SlotTracks(plan: SequencePlan, i: nat, slot: Slot, s: int)
    requires i < |plan.layers|
  {
    var cue := AudioCue(plan, i, Instant(s - 1));
    cue.Some? ==>
      && cue.value.clip < |plan.layers[i].clips|
      && slot.clip == plan.layers[i].clips[cue.value.clip].id
      && slot.next == SourceSampleOf(plan.layers[i].clips[cue.value.clip], s)
  }

  lemma StretchIsTracked(plan: SequencePlan, before: seq<Slot>, after: seq<Slot>, at: int, end: int, b: real)
    requires SlotsMoved(plan, before, after, at, end) && at < end
    requires NoEdgeBetween(plan, |plan.layers|, Instant(at), b) && Instant(end - 1) < b
    ensures Tracking(plan, after, end)
  {
    hide RationalTime.Seconds, AudioCue, VideoCue, SourceSampleOf, NoEdgeBetween, OneSlotMoved, Instant;
    forall i | 0 <= i < |plan.layers|
      ensures SlotTracks(plan, i, after[i], end)
    {
      assert Instant(at) <= Instant(end - 1) by { InstantsAscend(at, end - 1); }
      CuesAdvance(plan, i, Instant(at), b, Instant(end - 1));
      assert OneSlotMoved(plan, i, before[i], after[i], at, end);
      MovedTracks(plan, i, before[i], after[i], at, end);
    }
  }

  lemma InstantsAscend(s: int, t: int)
    requires s <= t
    ensures Instant(s) <= Instant(t)
  {
  }

  lemma MovedTracks(plan: SequencePlan, i: nat, before: Slot, after: Slot, at: int, end: int)
    requires i < |plan.layers| && OneSlotMoved(plan, i, before, after, at, end)
    requires AudioCue(plan, i, Instant(end - 1))
             == Advance(AudioCue(plan, i, Instant(at)), Instant(end - 1) - Instant(at))
    ensures SlotTracks(plan, i, after, end)
  {
    hide RationalTime.Seconds, AudioCue, SourceSampleOf, Instant;
  }

  /** A clip that was playing at sample `from` and still is at the last sample before `to` was never sought again. */
  ghost predicate NotSoughtAgain(plan: SequencePlan, before: seq<Slot>, after: seq<Slot>, to: int) {
    && |before| == |after| == |plan.layers|
    && forall i, k :: 0 <= i < |plan.layers| && 0 <= k < |plan.layers[i].clips| ==>
         before[i].clip == plan.layers[i].clips[k].id && Instant(to - 1) < plan.layers[i].clips[k].Finish() ==>
           after[i].clip == before[i].clip && after[i].seeks == before[i].seeks
  }

  lemma StillNotSought(plan: SequencePlan, first: seq<Slot>, before: seq<Slot>, after: seq<Slot>, at: int, end: int)
    requires ValidPlan(plan) && SlotsFollow(plan, before, at) && SlotsMoved(plan, before, after, at, end) && at < end
    requires first == before || NotSoughtAgain(plan, first, before, at)
    ensures NotSoughtAgain(plan, first, after, end)
  {
    hide RationalTime.Seconds, ValidPlan, SlotFollows, OneSlotMoved;
    forall i, k | 0 <= i < |plan.layers| && 0 <= k < |plan.layers[i].clips|
                  && first[i].clip == plan.layers[i].clips[k].id && Instant(end - 1) < plan.layers[i].clips[k].Finish()
      ensures after[i].clip == first[i].clip && after[i].seeks == first[i].seeks
    {
      assert Instant(at - 1) < Instant(at) <= Instant(end - 1);
      assert before[i].clip == first[i].clip && before[i].seeks == first[i].seeks;
      SlotIsHeard(plan, i, before[i], k, at);
      HeardIsKept(plan, i, k, before[i], after[i], at, end);
    }
  }

  lemma HeardIsKept(plan: SequencePlan, i: nat, k: nat, before: Slot, after: Slot, at: int, end: int)
    requires i < |plan.layers| && k < |plan.layers[i].clips| && OneSlotMoved(plan, i, before, after, at, end)
    requires AudioCue(plan, i, Instant(at)).Some? && AudioCue(plan, i, Instant(at)).value.clip == k
    requires before.clip == plan.layers[i].clips[k].id
    ensures after.clip == before.clip && after.seeks == before.seeks
  {
    hide RationalTime.Seconds, AudioCue, SourceSampleOf;
  }

  // ----- samples between boundaries

  /** Advancing by whole samples advances the source sample by as many. */
  lemma AdvancedSample(source: real, at: int, s: int)
    ensures ((source + (Instant(s) - Instant(at))) * 48000.0).Floor == (source * 48000.0).Floor + (s - at)
  {
    assert (source + (Instant(s) - Instant(at))) * 48000.0 == source * 48000.0 + (s - at) as real;
  }

  lemma AudioCueLayer(plan: SequencePlan, i: nat, x: real)
    requires i < |plan.layers| && AudioCue(plan, i, x).Some?
    ensures var cue := AudioCue(plan, i, x).value;
            && cue.layer == i && cue.clip < |plan.layers[i].clips|
            && cue.source == SourceInstant(plan.layers[i].clips[cue.clip], x)
  {
    hide RationalTime.Seconds, SelectStream;
  }

  ghost predicate InLayerOrder(plan: SequencePlan, x: real, cues: seq<Cue>, n: nat)
    requires n <= |plan.layers|
  {
    && (forall i :: 0 <= i < |cues| ==> cues[i].layer < n && Some(cues[i]) == AudioCue(plan, cues[i].layer, x))
    && (forall i, j :: 0 <= i < j < |cues| ==> cues[i].layer < cues[j].layer)
  }

  lemma {:induction false} SoundsInLayerOrder(plan: SequencePlan, x: real, n: nat)
    requires n <= |plan.layers|
    ensures InLayerOrder(plan, x, SoundsAt(plan, x, n), n)
  {
    hide RationalTime.Seconds, AudioCue;
    if n > 0 {
      SoundsInLayerOrder(plan, x, n - 1);
      if AudioCue(plan, n - 1, x).Some? { AudioCueLayer(plan, n - 1, x); }
    }
  }

  /** The value item `i` adds at sample `s`, when the block was evaluated at sample `at`. */
  function ItemValue<V, F>(plan: SequencePlan, footage: Footage<V, F>, at: int, cue: Cue, s: int,
                           channel: nat): Option<V>
  {
    CueValue(plan, footage, cue.(source := cue.source + (Instant(s) - Instant(at))), channel)
  }

  /** The mix of the first `n` items at sample `s`, when the block was evaluated at sample `at`. */
  function PartialMix<V, F>(plan: SequencePlan, footage: Footage<V, F>, at: int, s: int, n: nat, channel: nat): V
    requires n <= |SoundsAt(plan, Instant(at), |plan.layers|)|
  {
    MixCues(plan, footage, AdvanceAll(SoundsAt(plan, Instant(at), |plan.layers|), Instant(s) - Instant(at)), n, channel)
  }

  /** Up to the boundary the block's items, advanced, are what each sample would evaluate to. */
  lemma PartialMixIsRaw<V, F>(plan: SequencePlan, footage: Footage<V, F>, at: int, b: real, s: int, channel: nat)
    requires NoEdgeBetween(plan, |plan.layers|, Instant(at), b) && at <= s && Instant(s) < b
    ensures var n := |SoundsAt(plan, Instant(at), |plan.layers|)|;
            PartialMix(plan, footage, at, s, n, channel) == RawSample(plan, footage, s, channel)
  {
    hide RationalTime.Seconds, MixCues, SoundsAt, PictureAt, NoEdgeBetween;
    ConstantUntilBoundary(plan, |plan.layers|, Instant(at), b, Instant(s));
  }

  lemma PartialMixStep<V, F>(plan: SequencePlan, footage: Footage<V, F>, at: int, s: int, n: nat, channel: nat)
    requires n < |SoundsAt(plan, Instant(at), |plan.layers|)|
    ensures var cue := SoundsAt(plan, Instant(at), |plan.layers|)[n];
            PartialMix(plan, footage, at, s, n + 1, channel)
            == Blended(footage.blend, PartialMix(plan, footage, at, s, n, channel), cue.gainMilli,
                       ItemValue(plan, footage, at, cue, s, channel))
  {
    hide RationalTime.Seconds, SoundsAt, CueValue;
  }

  /** An item's value is read from its own stream, one source sample per output sample. */
  lemma ItemValueIsStream<V, F>(plan: SequencePlan, footage: Footage<V, F>, at: int, cue: Cue, s: int, channel: nat)
    requires cue.layer < |plan.layers| && cue.clip < |plan.layers[cue.layer].clips| && cue.stream.Some?
    ensures var media := plan.layers[cue.layer].clips[cue.clip].media;
            ItemValue(plan, footage, at, cue, s, channel)
            == ValueAt(footage.blocks(media, cue.stream.value), footage.streamEnd(media, cue.stream.value),
                       SourceSample(cue) + (s - at), channel)
  {
    hide RationalTime.Seconds, ValueAt;
    AdvancedSample(cue.source, at, s);
  }

  /** The slots of every layer are ready for sample `s`. */
  ghost predicate SlotsReady<V, F>(plan: SequencePlan, footage: Footage<V, F>, slots: seq<Slot>, s: int) {
    |slots| == |plan.layers|
    && forall i :: 0 <= i < |slots| ==> SlotReady(footage, plan.layers[i], slots[i], s)
  }

  /**
   The body of the loop over audio contributions: mixes item `n` of a block evaluated at sample `at`
   into the buffer, whose first sample is `base`.
   */
  method MixItem<V, F>(plan: SequencePlan, footage: Footage<V, F>, item: Contribution, slot: Slot, base: int, at: int,
                       end: int, buffer: array<V>, ghost n: nat)
    returns (r: Result<Slot, RenderError>)
    requires ValidPlan(plan) && footage.Valid()
    requires base <= at < end && 2 * (end - base) <= buffer.Length
    requires n < |SoundsAt(plan, Instant(at), |plan.layers|)|
    requires SoundsAt(plan, Instant(at), |plan.layers|)[n] == Exact(item)
    requires item.layer < |plan.layers| && SlotReady(footage, plan.layers[item.layer], slot, at)
    requires SlotFollows(plan, item.layer, slot, at)
    requires forall j :: 2 * (at - base) <= j < 2 * (end - base) ==>
               buffer[j] == PartialMix(plan, footage, at, base + j / 2, n, j % 2)
    modifies buffer
    ensures r.Failure? ==> r.error == MissingStream || r.error == TimestampOverflow
    ensures r == Failure(MissingStream) <==> item.stream.None?
    ensures r == Failure(TimestampOverflow) <==> item.stream.Some? && SampleFloor(item.source).None?
    ensures r.Success? ==> SlotReady(footage, plan.layers[item.layer], r.value, end)
    ensures r.Success? ==> OneSlotMoved(plan, item.layer, slot, r.value, at, end)
    ensures r.Success? ==> forall j :: 2 * (at - base) <= j < 2 * (end - base) ==>
              buffer[j] == PartialMix(plan, footage, at, base + j / 2, n + 1, j % 2)
    ensures forall j :: 0 <= j < 2 * (at - base) || 2 * (end - base) <= j < buffer.Length ==>
              buffer[j] == old(buffer[j])
  {
    hide RationalTime.Seconds, SoundsAt, ValueAt, PartialMix, ValidPlan, SlotReady, Positioned, AudioCue, SlotFollows;
    hide SourceSampleOf, OneSlotMoved;
    if item.stream.None? {
      return Failure(MissingStream);
    }
    SoundsInLayerOrder(plan, Instant(at), |plan.layers|);
    AudioCueLayer(plan, item.layer, Instant(at));
    var layer := plan.layers[item.layer];
    var clip := layer.clips[item.clip];
    var stream := item.stream.value;
    RequestContinues(plan, item.layer, slot, at);
    PositionedIsReady(plan, footage, item.layer, item.clip, slot, stream, at);
    var blocks := footage.blocks(clip.media, stream);
    var source := SampleFloor(item.source);
    if source.None? {
      return Failure(TimestampOverflow);
    }
    SourceIsFloor(plan, item, at);
    var ready := Positioned(slot, clip, stream, source.value);
    ghost var before := buffer[..];
    var read := Mix(blocks, footage.streamEnd(clip.media, stream), ready.read, source.value, buffer,
                    at - base, end - at, footage.blend, item.gainMilli);
    ItemMixed(plan, footage, item, base, at, end, n, before, buffer[..]);
    SourceAdvances(clip, at, end);
    var moved := ready.(read := read, next := source.value + (end - at));
    MixedIsReady(plan, footage, item.layer, item.clip, moved, end);
    ItemMovesSlot(plan, item, slot, stream, moved, at, end);
    return Success(moved);
  }

  /** Mixing one item's stream extends the partial mix by that item at every sample. */
  lemma ItemMixed<V, F>(plan: SequencePlan, footage: Footage<V, F>, item: Contribution, base: int, at: int, end: int,
                        n: nat, before: seq<V>, after: seq<V>)
    requires base <= at < end && 2 * (end - base) <= |before| == |after|
    requires n < |SoundsAt(plan, Instant(at), |plan.layers|)|
    requires SoundsAt(plan, Instant(at), |plan.layers|)[n] == Exact(item)
    requires item.layer < |plan.layers| && item.clip < |plan.layers[item.layer].clips| && item.stream.Some?
    requires forall j :: 2 * (at - base) <= j < 2 * (end - base) ==>
               before[j] == PartialMix(plan, footage, at, base + j / 2, n, j % 2)
    requires var media, stream := plan.layers[item.layer].clips[item.clip].media, item.stream.value;
             forall j :: 2 * (at - base) <= j < 2 * (end - base) ==>
               after[j] == Blended(footage.blend, before[j], item.gainMilli,
                                   ValueAt(footage.blocks(media, stream), footage.streamEnd(media, stream),
                                           SourceSample(Exact(item)) + (j / 2 - (at - base)), j % 2))
    ensures forall j :: 2 * (at - base) <= j < 2 * (end - base) ==>
              after[j] == PartialMix(plan, footage, at, base + j / 2, n + 1, j % 2)
  {
    hide RationalTime.Seconds, SoundsAt, ValueAt, PartialMix, SourceSample, ItemValue;
    forall j | 2 * (at - base) <= j < 2 * (end - base)
      ensures after[j] == PartialMix(plan, footage, at, base + j / 2, n + 1, j % 2)
    {
      PartialMixStep(plan, footage, at, base + j / 2, n, j % 2);
      ItemValueIsStream(plan, footage, at, Exact(item), base + j / 2, j % 2);
    }
  }

  /** The requested source sample is the one the clip sounds. */
  lemma SourceIsFloor(plan: SequencePlan, item: Contribution, at: int)
    requires item.layer < |plan.layers| && item.clip < |plan.layers[item.layer].clips|
    requires AudioCue(plan, item.layer, Instant(at)) == Some(Exact(item)) && SampleFloor(item.source).Some?
    ensures SampleFloor(item.source).value == SourceSampleOf(plan.layers[item.layer].clips[item.clip], at)
  {
    hide RationalTime.Seconds, AudioCue;
    AudioCueLayer(plan, item.layer, Instant(at));
  }

  lemma PositionedIsReady<V, F>(plan: SequencePlan, footage: Footage<V, F>, i: nat, k: nat, slot: Slot, stream: uint32,
                                s: int)
    requires ValidPlan(plan) && i < |plan.layers| && k < |plan.layers[i].clips|
    requires SlotReady(footage, plan.layers[i], slot, s)
    ensures var clip := plan.layers[i].clips[k];
            var ready := Positioned(slot, clip, stream, SourceSampleOf(clip, s));
            && ready.clip == clip.id && ready.media == clip.media && ready.stream == stream
            && ReadyAt(footage.blocks(clip.media, stream), ready.read, SourceSampleOf(clip, s))
            && (if slot.clip == clip.id && slot.media == clip.media && slot.stream == stream then ready == slot
                else ready.next == SourceSampleOf(clip, s) && ready.seeks == slot.seeks + 1)
  {
    hide RationalTime.Seconds, ValidPlan, SourceSampleOf;
    ClipIdsDistinct(plan, i);
  }

  lemma ItemMovesSlot(plan: SequencePlan, item: Contribution, before: Slot, stream: uint32, after: Slot, at: int,
                      end: int)
    requires item.layer < |plan.layers| && item.clip < |plan.layers[item.layer].clips| && item.stream == Some(stream)
    requires AudioCue(plan, item.layer, Instant(at)) == Some(Exact(item))
    requires SlotMoved(plan.layers[item.layer].clips[item.clip], stream, before, after, at, end)
    ensures OneSlotMoved(plan, item.layer, before, after, at, end)
  {
    hide RationalTime.Seconds, AudioCue, SlotMoved;
  }

  lemma MixedIsReady<V, F>(plan: SequencePlan, footage: Footage<V, F>, i: nat, k: nat, slot: Slot, s: int)
    requires ValidPlan(plan) && i < |plan.layers| && k < |plan.layers[i].clips|
    requires slot.clip == plan.layers[i].clips[k].id && slot.media == plan.layers[i].clips[k].media
    requires ReadyAt(footage.blocks(slot.media, slot.stream), slot.read, SourceSampleOf(plan.layers[i].clips[k], s))
    ensures SlotReady(footage, plan.layers[i], slot, s)
  {
    hide RationalTime.Seconds, ValidPlan, SourceSampleOf;
    ClipIdsDistinct(plan, i);
  }

  lemma SourceAdvances(clip: LayerClip, at: int, s: int)
    ensures SourceSampleOf(clip, s) == SourceSampleOf(clip, at) + (s - at)
  {
    hide RationalTime.Seconds;
    AdvancedSample(SourceInstant(clip, Instant(at)), at, s);
    assert SourceInstant(clip, Instant(s)) == SourceInstant(clip, Instant(at)) + (Instant(s) - Instant(at));
  }

  lemma ClipIdsDistinct(plan: SequencePlan, i: nat)
    requires ValidPlan(plan) && i < |plan.layers|
    ensures forall k :: 0 <= k < |plan.layers[i].clips| ==> plan.layers[i].clips[k].id > 0
    ensures forall j, k :: 0 <= j < k < |plan.layers[i].clips| ==>
              plan.layers[i].clips[j].id != plan.layers[i].clips[k].id
  {
    hide RationalTime.Seconds, Plus;
    assert ValidLayer(plan.layers[i], plan.media, plan.duration);
  }

  /** The slots when the first `n` items of a block `[at, end)` have been mixed. */
  ghost predicate SlotsAdvanced<V, F>(plan: SequencePlan, footage: Footage<V, F>, before: seq<Slot>, slots: seq<Slot>,
                                      items: seq<Contribution>, n: nat, at: int, end: int)
  {
    && n <= |items| && |before| == |slots| == |plan.layers|
    && (forall i :: 0 <= i < |slots| ==>
          if exists m :: 0 <= m < n && items[m].layer == i
          then SlotReady(footage, plan.layers[i], slots[i], end) && OneSlotMoved(plan, i, before[i], slots[i], at, end)
          else slots[i] == before[i])
  }

  lemma NothingAdvanced<V, F>(plan: SequencePlan, footage: Footage<V, F>, slots: seq<Slot>, items: seq<Contribution>,
                              at: int, end: int)
    requires |slots| == |plan.layers|
    ensures SlotsAdvanced(plan, footage, slots, slots, items, 0, at, end)
  {
  }

  lemma SlotOfNextItem<V, F>(plan: SequencePlan, footage: Footage<V, F>, before: seq<Slot>, slots: seq<Slot>,
                             items: seq<Contribution>, n: nat, at: int, end: int)
    requires SlotsAdvanced(plan, footage, before, slots, items, n, at, end) && n < |items|
    requires InLayerOrder(plan, Instant(at), ExactAll(items), |plan.layers|)
    ensures items[n].layer < |slots| && slots[items[n].layer] == before[items[n].layer]
    ensures forall m :: 0 <= m < n ==> items[m].layer != items[n].layer
  {
    hide RationalTime.Seconds, SlotReady, AudioCue, OneSlotMoved;
    forall i | 0 <= i < |items|
      ensures ExactAll(items)[i].layer == items[i].layer
    {
    }
    assert items[n].layer < |slots|;
    forall m | 0 <= m < n
      ensures items[m].layer < items[n].layer
    {
      assert ExactAll(items)[m].layer < ExactAll(items)[n].layer;
    }
  }

  lemma SlotOfItemMixed<V, F>(plan: SequencePlan, footage: Footage<V, F>, before: seq<Slot>, slots: seq<Slot>,
                              items: seq<Contribution>, n: nat, at: int, end: int, slot: Slot)
    requires SlotsAdvanced(plan, footage, before, slots, items, n, at, end) && n < |items| && items[n].layer < |slots|
    requires forall m :: 0 <= m < n ==> items[m].layer != items[n].layer
    requires SlotReady(footage, plan.layers[items[n].layer], slot, end)
    requires OneSlotMoved(plan, items[n].layer, before[items[n].layer], slot, at, end)
    ensures SlotsAdvanced(plan, footage, before, slots[items[n].layer := slot], items, n + 1, at, end)
  {
    hide RationalTime.Seconds, SlotReady, OneSlotMoved;
  }

  /** Every layer that is heard has its item. */
  lemma {:induction false} EveryCueListed(plan: SequencePlan, x: real, i: nat, n: nat)
    requires i < n <= |plan.layers| && AudioCue(plan, i, x).Some?
    ensures AudioCue(plan, i, x).value in SoundsAt(plan, x, n)
  {
    hide RationalTime.Seconds, AudioCue;
    if i < n - 1 { EveryCueListed(plan, x, i, n - 1); }
  }

  lemma AllSlotsMoved<V, F>(plan: SequencePlan, footage: Footage<V, F>, before: seq<Slot>, slots: seq<Slot>,
                            items: seq<Contribution>, at: int, end: int)
    requires SlotsAdvanced(plan, footage, before, slots, items, |items|, at, end) && at <= end
    requires SlotsReady(plan, footage, before, at) && ExactAll(items) == SoundsAt(plan, Instant(at), |plan.layers|)
    ensures SlotsReady(plan, footage, slots, end) && SlotsMoved(plan, before, slots, at, end)
  {
    hide RationalTime.Seconds, SlotReady, AudioCue, SoundsAt, OneSlotMoved;
    forall i | 0 <= i < |slots|
      ensures SlotReady(footage, plan.layers[i], slots[i], end) && OneSlotMoved(plan, i, before[i], slots[i], at, end)
    {
      if !exists m :: 0 <= m < |items| && items[m].layer == i {
        SlotReadyLater(footage, plan.layers[i], before[i], at, end);
        SilentLayerStays(plan, items, i, slots[i], at, end);
      }
    }
  }

  lemma SilentLayerStays(plan: SequencePlan, items: seq<Contribution>, i: nat, slot: Slot, at: int, end: int)
    requires ExactAll(items) == SoundsAt(plan, Instant(at), |plan.layers|) && i < |plan.layers|
    requires forall m :: 0 <= m < |items| ==> items[m].layer != i
    ensures OneSlotMoved(plan, i, slot, slot, at, end)
  {
    hide RationalTime.Seconds, AudioCue, SoundsAt;
    if AudioCue(plan, i, Instant(at)).Some? {
      AudioCueLayer(plan, i, Instant(at));
      EveryCueListed(plan, Instant(at), i, |plan.layers|);
    }
  }

  /** Mixes every contribution of one evaluation, top to bottom, into the samples up to its boundary. */
  method MixBlock<V, F>(plan: SequencePlan, footage: Footage<V, F>, slots: seq<Slot>, base: int, at: int, end: int,
                        ghost boundary: real, items: seq<Contribution>, buffer: array<V>)
    returns (r: Result<seq<Slot>, RenderError>)
    requires ValidPlan(plan) && footage.Valid() && SlotsReady(plan, footage, slots, at) && SlotsFollow(plan, slots, at)
    requires base <= at < end && 2 * (end - base) <= buffer.Length
    requires ExactAll(items) == SoundsAt(plan, Instant(at), |plan.layers|)
    requires NoEdgeBetween(plan, |plan.layers|, Instant(at), boundary) && Instant(end - 1) < boundary
    requires forall j :: 2 * (at - base) <= j < 2 * (end - base) ==> buffer[j] == footage.silence
    modifies buffer
    ensures r.Failure? ==> r.error == MissingStream || r.error == TimestampOverflow
    ensures r == Failure(MissingStream) ==> exists i :: 0 <= i < |items| && items[i].stream.None?
    ensures r == Failure(TimestampOverflow) ==> exists i :: 0 <= i < |items| && SampleFloor(items[i].source).None?
    ensures r.Success? ==> forall i :: 0 <= i < |items| ==> items[i].stream.Some?
    ensures r.Success? ==> SlotsReady(plan, footage, r.value, end) && SlotsMoved(plan, slots, r.value, at, end)
    ensures r.Success? ==> forall j :: 2 * (at - base) <= j < 2 * (end - base) ==>
              buffer[j] == RawSample(plan, footage, base + j / 2, j % 2)
    ensures forall j :: 0 <= j < 2 * (at - base) || 2 * (end - base) <= j < buffer.Length ==>
              buffer[j] == old(buffer[j])
  {
    hide RationalTime.Seconds, SoundsAt, PictureAt, RawSample, SlotReady, NoEdgeBetween, ValidPlan, SlotFollows;
    hide OneSlotMoved;
    hide SlotsAdvanced, AudioCue;
    SoundsInLayerOrder(plan, Instant(at), |plan.layers|);
    NothingAdvanced(plan, footage, slots, items, at, end);
    var advanced := slots;
    forall j | 2 * (at - base) <= j < 2 * (end - base)
      ensures buffer[j] == PartialMix(plan, footage, at, base + j / 2, 0, j % 2)
    {
    }
    for n := 0 to |items|
      invariant SlotsAdvanced(plan, footage, slots, advanced, items, n, at, end) && |advanced| == |slots|
      invariant forall i :: 0 <= i < n ==> items[i].stream.Some?
      invariant forall j :: 2 * (at - base) <= j < 2 * (end - base) ==>
                  buffer[j] == PartialMix(plan, footage, at, base + j / 2, n, j % 2)
      invariant forall j :: 0 <= j < 2 * (at - base) || 2 * (end - base) <= j < buffer.Length ==>
                  buffer[j] == old(buffer[j])
    {
      hide PartialMix;
      SlotOfNextItem(plan, footage, slots, advanced, items, n, at, end);
      var item := items[n];
      assert ExactAll(items)[n] == Exact(item);
      var mixed := MixItem(plan, footage, item, advanced[item.layer], base, at, end, buffer, n);
      if mixed.Failure? {
        return Failure(mixed.error);
      }
      SlotOfItemMixed(plan, footage, slots, advanced, items, n, at, end, mixed.value);
      advanced := advanced[item.layer := mixed.value];
    }
    AllSlotsMoved(plan, footage, slots, advanced, items, at, end);
    forall j | 2 * (at - base) <= j < 2 * (end - base)
      ensures buffer[j] == RawSample(plan, footage, base + j / 2, j % 2)
    {
      PartialMixIsRaw(plan, footage, at, boundary, base + j / 2, j % 2);
    }
    return Success(advanced);
  }

  /** `poster`: the exact picture at an instant, black where nothing is shown. */
  method Poster<V, F>(plan: SequencePlan, footage: Footage<V, F>, position: Time)
    returns (r: Result<Picture<F>, RenderError>)
    requires ValidPlan(plan)
    ensures r.Success? ==> r.value == FrameAt(plan, footage, position)
    ensures r.Failure? ==> r.error == MissingStream || r.error == TimestampOverflow || r.error == BadPosition
    ensures r == Failure(BadPosition) <==> position.Seconds() > plan.duration.Seconds()
    ensures r == Failure(TimestampOverflow) ==>
              position.Seconds() < plan.duration.Seconds()
              && exists i :: 0 <= i < |plan.layers| && Overflows(plan.layers[i], position)
    ensures r == Failure(MissingStream) ==>
              var cue := PictureAt(plan, position.Seconds(), |plan.layers|); cue.Some? && cue.value.stream.None?
    ensures r.Success? ==>
              var cue := PictureAt(plan, position.Seconds(), |plan.layers|); cue.Some? ==> cue.value.stream.Some?
  {
    hide RationalTime.Seconds, SoundsAt, NoEdgeBetween, IsEdge, ValidPlan, Overflows;
    var evaluated := Evaluate(plan, position);
    if evaluated.Failure? {
      return Failure(if evaluated.error == OutsideSequence then BadPosition else TimestampOverflow);
    }
    var item := evaluated.value.video;
    if item.None? {
      return Success(Picture(position, 0, footage.black));
    }
    PictureInRange(plan, position.Seconds(), |plan.layers|);
    if item.value.stream.None? {
      return Failure(MissingStream);
    }
    var clip := plan.layers[item.value.layer].clips[item.value.clip];
    var image := footage.image(clip.media, item.value.stream.value, item.value.source.Seconds());
    return Success(Picture(position, clip.id, if image.None? then footage.black else image.value));
  }

  lemma {:induction false} PictureInRange(plan: SequencePlan, x: real, n: nat)
    requires n <= |plan.layers|
    ensures var cue := PictureAt(plan, x, n);
            cue.Some? ==> cue.value.layer < n && cue.value.clip < |plan.layers[cue.value.layer].clips|
  {
    hide RationalTime.Seconds, SelectStream;
    if n > 0 {
      PictureInRange(plan, x, n - 1);
    }
  }

  // ----- frames on the output grid

  /** The first frame index at or after an instant. */
  function FirstFrame(plan: SequencePlan, x: real): int
    requires WithinLimits(plan)
  {
    Ceiling(x / plan.frameDuration.Seconds())
  }

  lemma FirstFrameIsFirst(plan: SequencePlan, x: real, k: int)
    requires WithinLimits(plan)
    ensures k < FirstFrame(plan, x) <==> FrameSeconds(plan, k) < x
  {
    hide RationalTime.Seconds;
    var f := plan.frameDuration.Seconds();
    BelowCeiling(k, x / f);
    QuotientOrder(k as real, x, f);
  }

  lemma FirstFrameMonotone(plan: SequencePlan, x: real, y: real)
    requires WithinLimits(plan) && x <= y
    ensures FirstFrame(plan, x) <= FirstFrame(plan, y)
  {
    hide RationalTime.Seconds;
    FirstFrameIsFirst(plan, x, FirstFrame(plan, x) - 1);
    FirstFrameIsFirst(plan, y, FirstFrame(plan, x) - 1);
  }

  function Lesser(x: real, y: real): real { if x < y then x else y }

  function Lower(a: int, b: int): int { if a < b then a else b }

  /** The number of samples in the whole sequence. */
  function FinishSample(plan: SequencePlan): int { Ceiling(plan.duration.Seconds() * 48000.0) }

  function Larger(a: int, b: int): int { if a < b then b else a }

  /** Frames `from` to `to`, each the exact picture at its own instant. */
  function FramesOf<V, F>(plan: SequencePlan, footage: Footage<V, F>, from: int, to: int): seq<Picture<F>>
    requires WithinLimits(plan) && 0 <= from <= to <= FRAME_LIMIT
  {
    seq(to - from, j requires 0 <= j < to - from => FrameAt(plan, footage, FrameTime(plan, from + j)))
  }

  /** Interleaved samples from `from` up to `to`, each mixed on its own. */
  function AudioOf<V, F>(plan: SequencePlan, footage: Footage<V, F>, from: int, to: int): seq<V>
    requires from <= to
  {
    seq(2 * (to - from), j requires 0 <= j < 2 * (to - from) => SampleAt(plan, footage, from + j / 2, j % 2))
  }

  /** Every clip a playing layer can show or sound has a stream to read. */
  ghost predicate StreamsResolved(plan: SequencePlan) {
    forall i, k :: 0 <= i < |plan.layers| && 0 <= k < |plan.layers[i].clips| && plan.layers[i].playback.enabled ==>
      var clip := plan.layers[i].clips[k];
      && (Visible(plan, plan.layers[i], clip) ==>
            SelectStream(plan.media[clip.media], VideoTrack, clip.routing.video).Some?)
      && (Heard(plan, plan.layers[i], clip) ==>
            SelectStream(plan.media[clip.media], AudioTrack, clip.routing.audio).Some?)
  }

  lemma {:induction false} ResolvedCuesHaveStreams(plan: SequencePlan, x: real, n: nat)
    requires StreamsResolved(plan) && n <= |plan.layers|
    ensures PictureAt(plan, x, n).Some? ==> PictureAt(plan, x, n).value.stream.Some?
    ensures forall i :: 0 <= i < |SoundsAt(plan, x, n)| ==> SoundsAt(plan, x, n)[i].stream.Some?
  {
    hide RationalTime.Seconds, SelectStream;
    if n > 0 {
      ResolvedCuesHaveStreams(plan, x, n - 1);
    }
  }

  /** The instants at which rendering evaluates the plan: every sample and every output frame. */
  ghost predicate EvaluationNeeded(plan: SequencePlan, t: Time) {
    && t.Seconds() < plan.duration.Seconds()
    && ((exists s: int :: t.Seconds() == Instant(s)) || (exists k: int :: t.Seconds() == FrameSeconds(plan, k)))
  }

  /**
   The instants it converts to samples: the duration, the clip edges, and the source instant of a clip that is
   covered at a sample.
   */
  ghost predicate ConversionNeeded(plan: SequencePlan, t: Time) {
    || t == plan.duration
    || IsEdge(plan, |plan.layers|, t.Seconds())
    || exists s: int, i: nat :: i < |SoundsAt(plan, Instant(s), |plan.layers|)|
                                && t.Seconds() == SoundsAt(plan, Instant(s), |plan.layers|)[i].source
  }

  /** Every exact computation that rendering needs fits 64 bits. */
  ghost predicate Computable(plan: SequencePlan) {
    && (forall t: Time, i :: EvaluationNeeded(plan, t) && 0 <= i < |plan.layers| ==> !Overflows(plan.layers[i], t))
    && (forall t: Time :: ConversionNeeded(plan, t) ==> t.value * SAMPLE_RATE <= MAX)
  }

  // ----- why a sample or a frame cannot be rendered

  ghost predicate EvaluationOverflows(plan: SequencePlan, t: Time) {
    t.Seconds() < plan.duration.Seconds() && exists i :: 0 <= i < |plan.layers| && Overflows(plan.layers[i], t)
  }

  /** A clip heard at the sample has no stream. */
  ghost predicate SampleMissing(plan: SequencePlan, s: int) {
    var cues := SoundsAt(plan, Instant(s), |plan.layers|);
    exists i :: 0 <= i < |cues| && cues[i].stream.None?
  }

  /** The clip shown at the frame has no stream. */
  ghost predicate FrameMissing(plan: SequencePlan, k: int) {
    var cue := PictureAt(plan, FrameSeconds(plan, k), |plan.layers|);
    cue.Some? && cue.value.stream.None?
  }

  /** A time computed at the sample does not fit: a source instant, its sample, or the next boundary's. */
  ghost predicate SampleOverflows(plan: SequencePlan, s: int) {
    || (exists t: Time :: t.Seconds() == Instant(s) && EvaluationOverflows(plan, t))
    || (exists b: Time :: IsNextBoundary(plan, |plan.layers|, Instant(s), b.Seconds()) && SampleCeil(b).None?)
    || (exists c: Time, i: nat :: && i < |SoundsAt(plan, Instant(s), |plan.layers|)|
                                  && c.Seconds() == SoundsAt(plan, Instant(s), |plan.layers|)[i].source
                                  && SampleFloor(c).None?)
  }

  ghost predicate FrameOverflows(plan: SequencePlan, k: int) {
    exists t: Time :: t.Seconds() == FrameSeconds(plan, k) && EvaluationOverflows(plan, t)
  }

  ghost predicate SampleFails(plan: SequencePlan, s: int, error: RenderError) {
    || (error == MissingStream && SampleMissing(plan, s))
    || (error == TimestampOverflow && SampleOverflows(plan, s))
  }

  ghost predicate FrameFails(plan: SequencePlan, k: int, error: RenderError) {
    || (error == MissingStream && FrameMissing(plan, k))
    || (error == TimestampOverflow && FrameOverflows(plan, k))
  }

  /** What fails at one sample stands for the whole plan. */
  lemma FailingSample(plan: SequencePlan, s: int, error: RenderError)
    requires SampleFails(plan, s, error)
    ensures error == MissingStream || error == TimestampOverflow
    ensures error == MissingStream ==> !StreamsResolved(plan)
    ensures error == TimestampOverflow ==> !Computable(plan)
  {
    hide RationalTime.Seconds, StreamsResolved, SoundsAt, IsNextBoundary;
    if error == MissingStream {
      if StreamsResolved(plan) { ResolvedCuesHaveStreams(plan, Instant(s), |plan.layers|); }
    } else {
      OverflowingSample(plan, s);
    }
  }

  lemma OverflowingSample(plan: SequencePlan, s: int)
    requires SampleOverflows(plan, s)
    ensures !Computable(plan)
  {
    hide RationalTime.Seconds, SoundsAt, IsNextBoundary, Overflows, IsEdge;
    if t: Time :| t.Seconds() == Instant(s) && EvaluationOverflows(plan, t) {
      assert EvaluationNeeded(plan, t);
    } else if b: Time :| IsNextBoundary(plan, |plan.layers|, Instant(s), b.Seconds()) && SampleCeil(b).None? {
      BoundaryNeeded(plan, Instant(s), b);
    } else {
      var c: Time, i: nat :| && i < |SoundsAt(plan, Instant(s), |plan.layers|)|
                             && c.Seconds() == SoundsAt(plan, Instant(s), |plan.layers|)[i].source
                             && SampleFloor(c).None?;
      assert ConversionNeeded(plan, c);
    }
  }

  lemma FailingFrame(plan: SequencePlan, k: int, error: RenderError)
    requires FrameFails(plan, k, error)
    ensures error == MissingStream || error == TimestampOverflow
    ensures error == MissingStream ==> !StreamsResolved(plan)
    ensures error == TimestampOverflow ==> !Computable(plan)
  {
    hide RationalTime.Seconds, StreamsResolved, PictureAt, ConversionNeeded, Overflows;
    if error == MissingStream {
      if StreamsResolved(plan) { ResolvedCuesHaveStreams(plan, FrameSeconds(plan, k), |plan.layers|); }
    } else {
      var t: Time :| t.Seconds() == FrameSeconds(plan, k) && EvaluationOverflows(plan, t);
      assert EvaluationNeeded(plan, t);
    }
  }

  lemma BoundaryNeeded(plan: SequencePlan, x: real, t: Time)
    requires IsNextBoundary(plan, |plan.layers|, x, t.Seconds())
    ensures ConversionNeeded(plan, t)
  {
    hide RationalTime.Seconds, IsEdge, NoEdgeBetween, SoundsAt;
    EqualIffSameInstant(t, plan.duration);
  }

  lemma ConversionFails(plan: SequencePlan, t: Time)
    requires ConversionNeeded(plan, t) && (SampleFloor(t).None? || SampleCeil(t).None?)
    ensures !Computable(plan)
  {
    hide Overflows, EvaluationNeeded, ConversionNeeded, RationalTime.Seconds;
  }

  /** A stretch whose first sample misses no stream misses none. */
  lemma NoneMissing(plan: SequencePlan, at: int, end: int, b: real, items: seq<Contribution>)
    requires ExactAll(items) == SoundsAt(plan, Instant(at), |plan.layers|)
    requires NoEdgeBetween(plan, |plan.layers|, Instant(at), b) && Instant(end - 1) < b
    requires forall i :: 0 <= i < |items| ==> items[i].stream.Some?
    ensures forall s :: at <= s < end ==> !SampleMissing(plan, s)
  {
    hide RationalTime.Seconds, SoundsAt, PictureAt, NoEdgeBetween;
    forall s | at <= s < end
      ensures !SampleMissing(plan, s)
    {
      ConstantUntilBoundary(plan, |plan.layers|, Instant(at), b, Instant(s));
      assert forall i :: 0 <= i < |items| ==> ExactAll(items)[i].stream == items[i].stream;
    }
  }

  class Renderer<V, F> {
    const plan: SequencePlan
    const footage: Footage<V, F>
    var sample: int
    var frame: int
    var slots: seq<Slot>

    ghost predicate Valid()
      reads this
    {
      && ValidPlan(plan) && WithinLimits(plan) && footage.Valid()
      && 0 <= sample && 0 <= frame < FRAME_LIMIT
      && SlotsReady(plan, footage, slots, sample) && SlotsFollow(plan, slots, sample)
    }

    /**
     The constructor after its checks. `estimate` stands for the floating-point guess of the frame
     index, off by less than a frame; the correction loop can only raise it.
     */
    constructor (plan: SequencePlan, footage: Footage<V, F>, start: Time, estimate: int)
      requires ValidPlan(plan) && WithinLimits(plan) && footage.Valid()
      requires start.Seconds() <= plan.duration.Seconds() && SampleCeil(start).Some?
      requires 0 <= estimate && FrameSeconds(plan, estimate) <= start.Seconds() + plan.frameDuration.Seconds()
      ensures Valid() && this.plan == plan && this.footage == footage
      ensures sample == Ceiling(start.Seconds() * 48000.0)
      ensures frame == Larger(estimate, FirstFrame(plan, start.Seconds()))
    {
      this.plan, this.footage := plan, footage;
      sample := SampleCeil(start).value;
      slots := seq(|plan.layers|, i => IDLE);
      var first := CorrectedFrame(plan, start, estimate);
      frame := first;
      new;
      hide RationalTime.Seconds, ValidPlan, SlotReady;
      IdleSlotsReady(plan, footage, slots, sample);
      StartInRange(plan, start, estimate);
    }

    /**
     One turn of the block loop: evaluation at sample `at`, its boundary, and the mix up to it. The buffer
     begins at the renderer's sample and is still silent from `at` on.
     */
    method FillStretch(at: int, stop: int, buffer: array<V>) returns (r: Result<int, RenderError>)
      requires ValidPlan(plan) && WithinLimits(plan) && footage.Valid()
      requires SlotsReady(plan, footage, slots, at) && SlotsFollow(plan, slots, at)
      requires 0 <= sample <= at < stop && Instant(stop - 1) < plan.duration.Seconds()
      requires buffer.Length == 2 * (stop - sample)
      requires forall j :: 2 * (at - sample) <= j < buffer.Length ==> buffer[j] == footage.silence
      modifies this`slots, buffer
      ensures r.Failure? ==> SampleFails(plan, at, r.error)
      ensures r.Success? ==> forall s :: at <= s < r.value ==> !SampleMissing(plan, s)
      ensures r.Success? ==> at < r.value <= stop && SlotsReady(plan, footage, slots, r.value)
      ensures r.Success? ==> SlotsMoved(plan, old(slots), slots, at, r.value) && Tracking(plan, slots, r.value)
      ensures r.Success? ==> forall j :: 2 * (at - sample) <= j < 2 * (r.value - sample) ==>
                buffer[j] == RawSample(plan, footage, sample + j / 2, j % 2)
      ensures r.Success? ==> forall j :: 0 <= j < 2 * (at - sample) || 2 * (r.value - sample) <= j < buffer.Length ==>
                buffer[j] == old(buffer[j])
    {
      hide RationalTime.Seconds, ValidPlan, SlotsReady, RawSample, SoundsAt, PictureAt, NoEdgeBetween, IsEdge;
      hide Footage.Valid, Overflows, WithinLimits, SampleMissing, SlotsFollow, SlotsMoved, Tracking;
      var position := SampleTime(plan, at, stop - 1);
      var evaluated := Evaluate(plan, position);
      if evaluated.Failure? {
        assert evaluated.error == OutsideSequence || evaluated.error == TimeOverflow;
        assert EvaluationOverflows(plan, position);
        return Failure(TimestampOverflow);
      }
      var e := evaluated.value;
      var ceiling := SampleCeil(e.nextBoundary);
      if ceiling.None? {
        return Failure(TimestampOverflow);
      }
      var end := if stop < ceiling.value then stop else ceiling.value;
      BoundaryCeiling(at, end - 1, e.nextBoundary.Seconds());
      if end <= at {
        assert false;
        return Failure(InvalidBoundary);
      }
      var mixed := MixBlock(plan, footage, slots, sample, at, end, e.nextBoundary.Seconds(), e.audio, buffer);
      if mixed.Failure? {
        WhyUnmixed(plan, at, e.audio, mixed.error);
        return Failure(mixed.error);
      }
      NoneMissing(plan, at, end, e.nextBoundary.Seconds(), e.audio);
      StretchIsTracked(plan, slots, mixed.value, at, end, e.nextBoundary.Seconds());
      slots := mixed.value;
      return Success(end);
    }

    /** The block loop of `next`: evaluation, boundary, mixing, until the chunk is full. */
    method FillAudio(count: nat) returns (r: Result<seq<V>, RenderError>)
      requires Valid() && count > 0 && Instant(sample + count - 1) < plan.duration.Seconds()
      modifies this`slots
      ensures r.Failure? ==> exists s :: sample <= s < sample + count && SampleFails(plan, s, r.error)
      ensures r.Success? ==> forall s :: sample <= s < sample + count ==> !SampleMissing(plan, s)
      ensures r.Success? ==>
                SlotsReady(plan, footage, slots, sample + count) && SlotsFollow(plan, slots, sample + count)
      ensures r.Success? ==> Tracking(plan, slots, sample + count)
      ensures r.Success? ==> NotSoughtAgain(plan, old(slots), slots, sample + count)
      ensures r.Success? ==>
                && |r.value| == 2 * count
                && forall j :: 0 <= j < 2 * count ==> r.value[j] == RawSample(plan, footage, sample + j / 2, j % 2)
    {
      hide RationalTime.Seconds, ValidPlan, SlotsReady, RawSample, Footage.Valid, WithinLimits;
      hide SampleFails, SampleMissing, SlotsFollow, SlotsMoved, Tracking, NotSoughtAgain;
      var buffer := new V[2 * count](i => footage.silence);
      var at := sample;
      while at < sample + count
        invariant sample <= at <= sample + count
        invariant SlotsReady(plan, footage, slots, at) && SlotsFollow(plan, slots, at)
        invariant forall s :: sample <= s < at ==> !SampleMissing(plan, s)
        invariant if at == sample then slots == old(slots)
                  else Tracking(plan, slots, at) && NotSoughtAgain(plan, old(slots), slots, at)
        invariant forall j :: 0 <= j < 2 * (at - sample) ==>
                  buffer[j] == RawSample(plan, footage, sample + j / 2, j % 2)
        invariant forall j :: 2 * (at - sample) <= j < 2 * count ==> buffer[j] == footage.silence
      {
        ghost var before := slots;
        var stretch := FillStretch(at, sample + count, buffer);
        if stretch.Failure? {
          return Failure(stretch.error);
        }
        SlotsFollowOn(plan, before, slots, at, stretch.value);
        StillNotSought(plan, old(slots), before, slots, at, stretch.value);
        at := stretch.value;
      }
      return Success(buffer[..]);
    }

    /** The frame loop of `next`: every frame before the block's end and before the sequence's. */
    method FillFrames(endTime: Time) returns (r: Result<seq<Picture<F>>, RenderError>)
      requires ValidPlan(plan) && WithinLimits(plan) && 0 <= frame < FRAME_LIMIT
      modifies this`frame
      ensures r.Failure? ==>
                var end := FirstFrame(plan, Lesser(endTime.Seconds(), plan.duration.Seconds()));
                exists k :: old(frame) <= k < end && FrameFails(plan, k, r.error)
      ensures r.Success? ==> forall k :: old(frame) <= k < frame ==> !FrameMissing(plan, k)
      ensures r.Success? ==>
                && old(frame) <= frame < FRAME_LIMIT
                && frame == Larger(old(frame), FirstFrame(plan, Lesser(endTime.Seconds(), plan.duration.Seconds())))
                && r.value == FramesOf(plan, footage, old(frame), frame)
    {
      hide RationalTime.Seconds, ValidPlan, FirstFrame, FrameSeconds, FrameAt, PictureAt, Overflows;
      ghost var limit := Lesser(endTime.Seconds(), plan.duration.Seconds());
      var pictures: seq<Picture<F>> := [];
      FirstFrameIsFirst(plan, limit, frame);
      while && FrameTime(plan, frame).Seconds() < endTime.Seconds()
            && FrameTime(plan, frame).Seconds() < plan.duration.Seconds()
        invariant old(frame) <= frame < FRAME_LIMIT
        invariant frame == old(frame) || frame <= FirstFrame(plan, limit)
        invariant frame < FirstFrame(plan, limit) <==> FrameTime(plan, frame).Seconds() < limit
        invariant forall k :: old(frame) <= k < frame ==> !FrameMissing(plan, k)
        invariant pictures == FramesOf(plan, footage, old(frame), frame)
        decreases FRAME_LIMIT - frame
      {
        var time := FrameTime(plan, frame);
        var picture := Poster(plan, footage, time);
        if picture.Failure? {
          assert picture.error == TimestampOverflow ==> EvaluationOverflows(plan, time);
          assert FrameFails(plan, frame, picture.error);
          return Failure(picture.error);
        }
        FrameBelowLimit(plan, frame);
        assert FramesOf(plan, footage, old(frame), frame + 1)
            == FramesOf(plan, footage, old(frame), frame) + [picture.value];
        pictures := pictures + [picture.value];
        frame := frame + 1;
        FirstFrameIsFirst(plan, limit, frame);
      }
      return Success(pictures);
    }

    /**
     Why the chunk that begins at sample `from` and frame `first` cannot be rendered: a sample or a frame of
     its own, or a duration that does not fit the sample clock.
     */
    ghost predicate ChunkFails(from: int, first: int, error: RenderError)
      requires WithinLimits(plan)
    {
      var to := Lower(from + 480, FinishSample(plan));
      || (error == TimestampOverflow && SampleCeil(plan.duration).None?)
      || (exists s :: from <= s < to && SampleFails(plan, s, error))
      || (exists k :: && first <= k < FirstFrame(plan, Lesser(Instant(to), plan.duration.Seconds()))
                      && FrameFails(plan, k, error))
    }

    lemma DurationFailsChunk(from: int, first: int)
      requires WithinLimits(plan) && SampleCeil(plan.duration).None?
      ensures ChunkFails(from, first, TimestampOverflow)
    {
    }

    lemma SampleFailsChunk(from: int, first: int, s: int, error: RenderError)
      requires WithinLimits(plan) && from <= s < Lower(from + 480, FinishSample(plan)) && SampleFails(plan, s, error)
      ensures ChunkFails(from, first, error)
    {
      hide RationalTime.Seconds, SampleFails, FrameFails;
    }

    lemma FrameFailsChunk(from: int, first: int, k: int, error: RenderError)
      requires WithinLimits(plan) && first <= k && FrameFails(plan, k, error)
      requires var to := Lower(from + 480, FinishSample(plan));
               k < FirstFrame(plan, Lesser(Instant(to), plan.duration.Seconds()))
      ensures ChunkFails(from, first, error)
    {
      hide RationalTime.Seconds, SampleFails, FrameFails, FirstFrame;
    }

    /**
     `next`. Blocks of 480 samples and splitting at boundaries are unobservable: the chunk's audio is
     the per-sample mix and its pictures are the exact frames whose instants it covers.
     */
    method Next() returns (r: Result<Chunk<V, F>, RenderError>)
      requires Valid()
      modifies this
      ensures r.Failure? ==> r.error in {MissingStream, TimestampOverflow, NonFiniteSample}
      ensures r.Failure? ==> sample == old(sample)
      ensures r == Failure(NonFiniteSample) ==>
                !FiniteBetween(plan, footage, old(sample), Lower(old(sample) + 480, FinishSample(plan)))
      ensures r.Success? ==> FiniteBetween(plan, footage, old(sample), sample)
      ensures r == Failure(MissingStream) || r == Failure(TimestampOverflow) ==>
                ChunkFails(old(sample), old(frame), r.error)
      ensures StreamsResolved(plan) ==> r != Failure(MissingStream)
      ensures Computable(plan) ==> r != Failure(TimestampOverflow)
      ensures r.Success? ==> forall s :: old(sample) <= s < sample ==> !SampleMissing(plan, s)
      ensures r.Success? ==> forall k :: old(frame) <= k < frame ==> !FrameMissing(plan, k)
      ensures r.Success? ==> Valid()
      ensures r.Success? && old(sample) >= FinishSample(plan) ==>
                r.value == Chunk(old(sample), [], [], true) && sample == old(sample) && frame == old(frame)
      ensures r.Success? && old(sample) < FinishSample(plan) ==>
                && sample == Lower(old(sample) + 480, FinishSample(plan))
                && frame == Larger(old(frame), FirstFrame(plan, Lesser(Instant(sample), plan.duration.Seconds())))
                && r.value == Chunk(old(sample), AudioOf(plan, footage, old(sample), sample),
                                    FramesOf(plan, footage, old(frame), frame), false)
      ensures r.Success? && old(sample) < FinishSample(plan) ==>
                Tracking(plan, slots, sample) && NotSoughtAgain(plan, old(slots), slots, sample)
    {
      hide RationalTime.Seconds, ValidPlan, SlotReady, RawSample, FirstFrame, FrameAt, StreamsResolved, Computable;
      hide SlotsFollow, Tracking, NotSoughtAgain, SampleFails, FrameFails, SampleMissing, FrameMissing, SlotsReady;
      hide ChunkFails, FiniteBetween;
      NothingMixed(plan, footage, sample);
      var ceiling := SampleCeil(plan.duration);
      if ceiling.None? {
        ConversionFails(plan, plan.duration);
        DurationFailsChunk(sample, frame);
        return Failure(TimestampOverflow);
      }
      var finish := ceiling.value;
      if sample >= finish {
        return Success(Chunk(sample, [], [], true));
      }
      var count := if 480 < finish - sample then 480 else finish - sample;
      BoundaryCeiling(sample + count - 1, sample + count - 1, plan.duration.Seconds());
      var filled := FillAudio(count);
      if filled.Failure? {
        ghost var s :| sample <= s < sample + count && SampleFails(plan, s, filled.error);
        FailingSample(plan, s, filled.error);
        SampleFailsChunk(sample, frame, s, filled.error);
        return Failure(filled.error);
      }
      var audio := Clamped(plan, footage, sample, count, filled.value);
      if audio.None? {
        return Failure(NonFiniteSample);
      }
      var endTime := Make(sample + count, SAMPLE_RATE).value;
      var framed := FillFrames(endTime);
      if framed.Failure? {
        ghost var k :| && old(frame) <= k && FrameFails(plan, k, framed.error)
                       && k < FirstFrame(plan, Lesser(endTime.Seconds(), plan.duration.Seconds()));
        FailingFrame(plan, k, framed.error);
        FrameFailsChunk(sample, old(frame), k, framed.error);
        return Failure(framed.error);
      }
      r := Success(Chunk(sample, audio.value, framed.value, false));
      sample := sample + count;
    }
  }

  /** Every mixed sample of a stretch is finite. */
  ghost predicate FiniteBetween<V, F>(plan: SequencePlan, footage: Footage<V, F>, from: int, to: int) {
    forall j :: 0 <= j < 2 * (to - from) ==> footage.finite(RawSample(plan, footage, from + j / 2, j % 2))
  }

  lemma NothingMixed<V, F>(plan: SequencePlan, footage: Footage<V, F>, from: int)
    ensures FiniteBetween(plan, footage, from, from)
  {
  }

  /** The check and the clamp of `next`, sample by sample. */
  method Clamped<V, F>(plan: SequencePlan, footage: Footage<V, F>, from: int, count: nat, raw: seq<V>)
    returns (r: Option<seq<V>>)
    requires |raw| == 2 * count
    requires forall j :: 0 <= j < 2 * count ==> raw[j] == RawSample(plan, footage, from + j / 2, j % 2)
    ensures r.Some? <==> FiniteBetween(plan, footage, from, from + count)
    ensures r.Some? ==> r.value == AudioOf(plan, footage, from, from + count)
  {
    hide RationalTime.Seconds, RawSample;
    var audio: seq<V> := [];
    for j := 0 to 2 * count
      invariant forall i :: 0 <= i < j ==> footage.finite(RawSample(plan, footage, from + i / 2, i % 2))
      invariant audio == AudioOf(plan, footage, from, from + count)[..j]
    {
      assert raw[j] == RawSample(plan, footage, from + j / 2, j % 2);
      if !footage.finite(raw[j]) {
        return None;
      }
      audio := audio + [footage.clamp(raw[j])];
      assert AudioOf(plan, footage, from, from + count)[j] == footage.clamp(raw[j]);
    }
    return Some(audio);
  }

  /** The exact instant of a sample inside the plan. */
  method SampleTime(plan: SequencePlan, at: int, last: int) returns (position: Time)
    requires WithinLimits(plan) && 0 <= at <= last && Instant(last) < plan.duration.Seconds()
    ensures position.Seconds() == Instant(at) < plan.duration.Seconds()
    ensures position != plan.duration
  {
    hide RationalTime.Seconds;
    var made := Make(at, SAMPLE_RATE);
    position := made.value;
    EqualIffSameInstant(position, plan.duration);
  }

  lemma BoundaryCeiling(at: int, last: int, b: real)
    ensures Instant(at) < b ==> at < Ceiling(b * 48000.0)
    ensures last < Ceiling(b * 48000.0) ==> Instant(last) < b
  {
    BelowCeiling(at, b * 48000.0);
    BelowCeiling(last, b * 48000.0);
  }

  /** A mix fails only for want of a stream or because a source instant does not fit. */
  lemma WhyUnmixed(plan: SequencePlan, at: int, items: seq<Contribution>, error: RenderError)
    requires ExactAll(items) == SoundsAt(plan, Instant(at), |plan.layers|)
    requires error == MissingStream || error == TimestampOverflow
    requires error == MissingStream ==> exists i :: 0 <= i < |items| && items[i].stream.None?
    requires error == TimestampOverflow ==> exists i :: 0 <= i < |items| && SampleFloor(items[i].source).None?
    ensures SampleFails(plan, at, error)
  {
    hide RationalTime.Seconds, SoundsAt, IsNextBoundary, EvaluationOverflows;
    if error == MissingStream {
      var i: nat :| i < |items| && items[i].stream.None?;
      assert ExactAll(items)[i].stream.None?;
    } else {
      var i: nat :| i < |items| && SampleFloor(items[i].source).None?;
      assert ExactAll(items)[i].source == items[i].source.Seconds();
    }
  }

  lemma IdleSlotsReady<V, F>(plan: SequencePlan, footage: Footage<V, F>, slots: seq<Slot>, s: int)
    requires ValidPlan(plan) && slots == seq(|plan.layers|, i => IDLE)
    ensures SlotsReady(plan, footage, slots, s) && SlotsFollow(plan, slots, s)
  {
    hide ValidPlan, RationalTime.Seconds, SourceSampleOf;
    forall i | 0 <= i < |plan.layers|
      ensures SlotFollows(plan, i, slots[i], s)
    {
      ClipIdsDistinct(plan, i);
    }
  }

  /** The constructor's correction loop: it raises the guess to the first frame at or after the start. */
  method CorrectedFrame(plan: SequencePlan, start: Time, estimate: int) returns (frame: int)
    requires WithinLimits(plan) && start.Seconds() <= plan.duration.Seconds() && 0 <= estimate
    requires FrameSeconds(plan, estimate) <= start.Seconds() + plan.frameDuration.Seconds()
    ensures frame == Larger(estimate, FirstFrame(plan, start.Seconds()))
    ensures frame == FirstFrame(plan, start.Seconds()) <==>
              FrameSeconds(plan, estimate) < start.Seconds() + plan.frameDuration.Seconds()
  {
    hide RationalTime.Seconds, FirstFrame, FrameSeconds, WithinLimits;
    FirstFrameIsFirst(plan, start.Seconds(), estimate - 1);
    PreviousFrame(plan, estimate);
    StartInRange(plan, start, estimate);
    ghost var target := Larger(estimate, FirstFrame(plan, start.Seconds()));
    frame := estimate;
    FirstFrameIsFirst(plan, start.Seconds(), frame);
    while FrameTime(plan, frame).Seconds() < start.Seconds()
      invariant estimate <= frame <= target < FRAME_LIMIT
      invariant frame < FirstFrame(plan, start.Seconds()) <==> FrameTime(plan, frame).Seconds() < start.Seconds()
      decreases FRAME_LIMIT - frame
    {
      frame := frame + 1;
      FirstFrameIsFirst(plan, start.Seconds(), frame);
    }
  }

  lemma PreviousFrame(plan: SequencePlan, k: int)
    ensures FrameSeconds(plan, k - 1) == FrameSeconds(plan, k) - plan.frameDuration.Seconds()
  {
    hide RationalTime.Seconds;
  }

  lemma StartInRange(plan: SequencePlan, start: Time, estimate: int)
    requires WithinLimits(plan) && start.Seconds() <= plan.duration.Seconds() && 0 <= estimate
    requires FrameSeconds(plan, estimate) <= start.Seconds() + plan.frameDuration.Seconds()
    ensures Larger(estimate, FirstFrame(plan, start.Seconds())) < FRAME_LIMIT
    ensures 0 <= Ceiling(start.Seconds() * 48000.0) && 0 <= FirstFrame(plan, start.Seconds())
  {
    SecondsNonnegative(start);
    hide RationalTime.Seconds, FirstFrame;
    var f, first := plan.frameDuration.Seconds(), FirstFrame(plan, start.Seconds());
    BelowCeiling(-1, start.Seconds() * 48000.0);
    FirstFrameIsFirst(plan, start.Seconds(), -1);
    FirstFrameIsFirst(plan, start.Seconds(), first - 1);
    if estimate > 0 {
      assert FrameSeconds(plan, estimate - 1) == FrameSeconds(plan, estimate) - f;
      FrameBelowLimit(plan, estimate - 1);
    }
    if first > 0 {
      FrameBelowLimit(plan, first - 1);
    }
  }

  // ----- opening

  /** The enabled layers of a kind that have clips. */
  function PlayingLayers(layers: seq<Layer>, kind: TrackKind): set<nat> {
    set i: nat | i < |layers| && layers[i].clips != [] && layers[i].playback.enabled && layers[i].kind == kind
  }

  /** At most two video and four audio layers play, and no source range reaches past a day. */
  predicate AcceptedTracks(plan: SequencePlan) {
    && |PlayingLayers(plan.layers, VideoTrack)| <= 2
    && |PlayingLayers(plan.layers, AudioTrack)| <= 4
    && forall i, k :: 0 <= i < |plan.layers| && plan.layers[i].playback.enabled && 0 <= k < |plan.layers[i].clips| ==>
         var end := plan.layers[i].clips[k].source.End(); end.Some? && end.value.Seconds() <= 86400.0
  }

  /** An asset that one of the first `n` layers shows or sounds. */
  ghost predicate IsUsed(plan: SequencePlan, n: nat, m: nat)
    requires n <= |plan.layers|
  {
    exists i, k :: && 0 <= i < n && plan.layers[i].playback.enabled && 0 <= k < |plan.layers[i].clips|
                   && plan.layers[i].clips[k].media == m
                   && (Visible(plan, plan.layers[i], plan.layers[i].clips[k])
                       || Heard(plan, plan.layers[i], plan.layers[i].clips[k]))
  }

  /** Every asset that a playing layer shows or sounds has been probed and is among those on disk. */
  ghost predicate SourcesPresent(plan: SequencePlan, present: set<nat>) {
    forall m: nat :: m < |plan.media| && IsUsed(plan, |plan.layers|, m) ==>
      plan.media[m].source.Some? && m in present
  }

  /** The limits on the plan as a whole: times that multiply safely, a day at most, and 1 to 60 frames a second. */
  method FitsLimits(plan: SequencePlan) returns (ok: bool)
    ensures ok <==> WithinLimits(plan)
  {
    var day, shortest, longest := RationalTime(86400, 1), RationalTime(1, 60), RationalTime(1, 1);
    return !(|| plan.frameDuration.value > 1000000000 || plan.frameDuration.rate > 1000000000
             || plan.duration.Seconds() > day.Seconds() || plan.frameDuration.Seconds() < shortest.Seconds()
             || plan.frameDuration.Seconds() > longest.Seconds());
  }

  /** The source ranges of one layer's clips end within a day. */
  method RangesFit(clips: seq<LayerClip>) returns (ok: bool)
    ensures ok <==> forall k :: 0 <= k < |clips| ==>
                      clips[k].source.End().Some? && clips[k].source.End().value.Seconds() <= 86400.0
  {
    var day := RationalTime(86400, 1);
    assert day.Seconds() == 86400.0;
    hide RationalTime.Seconds, Plus;
    for k := 0 to |clips|
      invariant forall j :: 0 <= j < k ==>
                  clips[j].source.End().Some? && clips[j].source.End().value.Seconds() <= 86400.0
    {
      var end := clips[k].source.End();
      if end.None? || end.value.Seconds() > day.Seconds() { return false; }
    }
    return true;
  }

  /** The assets that one playing layer shows or sounds. */
  method UsedByLayer(plan: SequencePlan, i: nat) returns (used: set<nat>)
    requires ValidPlan(plan) && i < |plan.layers| && plan.layers[i].playback.enabled
    ensures forall m :: m in used ==> m < |plan.media|
    ensures forall m :: m in used || IsUsed(plan, i, m) <==> IsUsed(plan, i + 1, m)
  {
    hide RationalTime.Seconds, Plus;
    var layer := plan.layers[i];
    assert ValidLayer(layer, plan.media, plan.duration);
    used := {};
    for k := 0 to |layer.clips|
      invariant forall m :: m in used ==> m < |plan.media|
      invariant forall m :: m in used <==>
                  exists j :: 0 <= j < k && layer.clips[j].media == m
                              && (Visible(plan, layer, layer.clips[j]) || Heard(plan, layer, layer.clips[j]))
    {
      var clip := layer.clips[k];
      var asset := plan.media[clip.media];
      var videoUsed := layer.kind == VideoTrack && asset.kind != AudioOnly && clip.routing.video.mode != Disabled;
      var audioUsed := && !layer.playback.muted && layer.playback.gainMilli != 0 && asset.kind != VideoOnly
                       && clip.routing.audio.mode != Disabled;
      if videoUsed || audioUsed {
        used := used + {clip.media};
      }
    }
    LayerUses(plan, i, used);
  }

  lemma LayerUses(plan: SequencePlan, i: nat, used: set<nat>)
    requires i < |plan.layers| && plan.layers[i].playback.enabled
    requires var layer := plan.layers[i];
             forall m :: m in used <==>
               exists j :: 0 <= j < |layer.clips| && layer.clips[j].media == m
                           && (Visible(plan, layer, layer.clips[j]) || Heard(plan, layer, layer.clips[j]))
    ensures forall m :: m in used || IsUsed(plan, i, m) <==> IsUsed(plan, i + 1, m)
  {
    hide Visible, Heard;
  }

  /** The loop over the layers: whether they are accepted, and which assets they need. */
  method CheckLayers(plan: SequencePlan) returns (media: Option<set<nat>>)
    requires ValidPlan(plan)
    ensures media.Some? <==> AcceptedTracks(plan)
    ensures media.Some? ==> forall m :: m in media.value ==> m < |plan.media|
    ensures media.Some? ==> forall m :: m in media.value <==> IsUsed(plan, |plan.layers|, m)
  {
    hide RationalTime.Seconds, Plus, ValidPlan, IsUsed, TimeRange.End;
    var video, audio := 0, 0;
    var used: set<nat> := {};
    NothingUsed(plan);
    for i := 0 to |plan.layers|
      invariant video == |PlayingLayers(plan.layers[..i], VideoTrack)|
      invariant audio == |PlayingLayers(plan.layers[..i], AudioTrack)|
      invariant forall m :: m in used ==> m < |plan.media|
      invariant forall m :: m in used <==> IsUsed(plan, i, m)
      invariant forall j, k :: 0 <= j < i && plan.layers[j].playback.enabled && 0 <= k < |plan.layers[j].clips| ==>
                  var end := plan.layers[j].clips[k].source.End(); end.Some? && end.value.Seconds() <= 86400.0
    {
      var layer := plan.layers[i];
      OneMoreLayer(plan.layers, i);
      if layer.clips == [] || !layer.playback.enabled {
        IdleUsesNothing(plan, i);
        continue;
      }
      if layer.kind == VideoTrack {
        video := video + 1;
      } else {
        audio := audio + 1;
      }
      var fit := RangesFit(layer.clips);
      if !fit { return None; }
      var more := UsedByLayer(plan, i);
      used := used + more;
    }
    assert plan.layers[..|plan.layers|] == plan.layers;
    if video > 2 || audio > 4 { return None; }
    return Some(used);
  }

  lemma NothingUsed(plan: SequencePlan)
    ensures forall m :: !IsUsed(plan, 0, m)
  {
  }

  lemma IdleUsesNothing(plan: SequencePlan, i: nat)
    requires i < |plan.layers| && (plan.layers[i].clips == [] || !plan.layers[i].playback.enabled)
    ensures forall m :: IsUsed(plan, i, m) <==> IsUsed(plan, i + 1, m)
  {
    hide Visible, Heard;
  }

  lemma OneMoreLayer(layers: seq<Layer>, i: nat)
    requires i < |layers|
    ensures forall kind ::
              |PlayingLayers(layers[..i + 1], kind)| == |PlayingLayers(layers[..i], kind)|
                + (if layers[i].clips != [] && layers[i].playback.enabled && layers[i].kind == kind then 1 else 0)
  {
    forall kind: TrackKind
      ensures |PlayingLayers(layers[..i + 1], kind)| == |PlayingLayers(layers[..i], kind)|
                + (if layers[i].clips != [] && layers[i].playback.enabled && layers[i].kind == kind then 1 else 0)
    {
      var plays := layers[i].clips != [] && layers[i].playback.enabled && layers[i].kind == kind;
      assert PlayingLayers(layers[..i + 1], kind) == PlayingLayers(layers[..i], kind) + (if plays then {i} else {});
    }
  }

  /** Why rendering cannot begin: the first of the checks that fails, or none. */
  ghost function OpenRefusal(plan: SequencePlan, present: set<nat>, start: Time): Option<RenderError> {
    if start.Seconds() > plan.duration.Seconds() then Some(BadPosition)
    else if start.Seconds() < plan.duration.Seconds() && SomeOverflow(plan, start) then Some(TimestampOverflow)
    else if !WithinLimits(plan) || !AcceptedTracks(plan) then Some(BeyondLimits)
    else if !SourcesPresent(plan, present) then Some(SourceMissing)
    else if SampleCeil(start).None? then Some(TimestampOverflow)
    else None
  }

  ghost predicate SomeOverflow(plan: SequencePlan, position: Time) {
    exists i :: 0 <= i < |plan.layers| && Overflows(plan.layers[i], position)
  }

  /** The constructor with its checks; `present` are the assets whose files are on disk, unchanged. */
  method Open<V, F>(plan: SequencePlan, footage: Footage<V, F>, present: set<nat>, start: Time, estimate: int)
    returns (r: Result<Renderer<V, F>, RenderError>)
    requires ValidPlan(plan) && footage.Valid()
    requires 0 <= estimate && FrameSeconds(plan, estimate) <= start.Seconds() + plan.frameDuration.Seconds()
    ensures r.Failure? <==> OpenRefusal(plan, present, start).Some?
    ensures r.Failure? ==> Some(r.error) == OpenRefusal(plan, present, start)
    ensures r.Success? ==>
              && fresh(r.value) && r.value.Valid() && r.value.plan == plan && r.value.footage == footage
              && WithinLimits(plan) && AcceptedTracks(plan)
              && r.value.sample == Ceiling(start.Seconds() * 48000.0)
              && r.value.frame == Larger(estimate, FirstFrame(plan, start.Seconds()))
  {
    hide RationalTime.Seconds, ValidPlan, AcceptedTracks, FirstFrame, FrameSeconds, Overflows, IsUsed, WithinLimits;
    hide Evaluated, Reports;
    var evaluated := Evaluate(plan, start);
    if evaluated.Failure? {
      return Failure(if evaluated.error == OutsideSequence then BadPosition else TimestampOverflow);
    }
    var fits := FitsLimits(plan);
    if !fits {
      return Failure(BeyondLimits);
    }
    var media := CheckLayers(plan);
    if media.None? {
      return Failure(BeyondLimits);
    }
    if exists m :: m in media.value && (plan.media[m].source.None? || m !in present) {
      return Failure(SourceMissing);
    }
    assert SourcesPresent(plan, present);
    if SampleCeil(start).None? {
      return Failure(TimestampOverflow);
    }
    var renderer := new Renderer(plan, footage, start, estimate);
    return Success(renderer);
  }
}
