/** Playback plans of a sequence and what they show at an instant (`src/playback/sequence.cpp`). */
module SequencePlans {
  import opened Wrappers
  import opened RationalTimes
  import opened Model

  datatype LayerClip = LayerClip(id: uint64, media: nat, position: Time, source: TimeRange, routing: ClipRouting) {
    function End(): Option<Time> { Plus(position, source.duration) }

    function Start(): real { position.Seconds() }

    function Finish(): real { position.Seconds() + source.duration.Seconds() }

    /** Timeline ranges are half-open. */
    predicate Covers(x: real) { Start() <= x < Finish() }
  }

  datatype Layer = Layer(track: uint64, kind: TrackKind, playback: TrackPlayback, clips: seq<LayerClip>)

  datatype SequencePlan = SequencePlan(
    id: uint64,
    revision: uint64,
    duration: Time,
    frameDuration: Time,
    output: SequenceOutput,
    media: seq<MediaAsset>,
    layers: seq<Layer>
  )

  datatype Contribution = Contribution(layer: nat, clip: nat, source: Time, stream: Option<uint32>, gainMilli: uint32)

  datatype Evaluation = Evaluation(video: Option<Contribution>, audio: seq<Contribution>, nextBoundary: Time)

  datatype PlanError = OutsideSequence | TimeOverflow

  // ----- well-formed plans

  predicate ValidLayer(layer: Layer, media: seq<MediaAsset>, duration: Time) {
    && (forall k :: 0 <= k < |layer.clips| ==>
          var c := layer.clips[k];
          && c.id > 0 && c.media < |media| && c.source.duration != Zero
          && c.End().Some? && c.Finish() <= duration.Seconds())
    && (forall k :: 0 < k < |layer.clips| ==> layer.clips[k - 1].Finish() <= layer.clips[k].Start())
    && (forall j, k :: 0 <= j < k < |layer.clips| ==> layer.clips[j].id != layer.clips[k].id)
  }

  predicate ValidPlan(plan: SequencePlan) {
    forall i :: 0 <= i < |plan.layers| ==> ValidLayer(plan.layers[i], plan.media, plan.duration)
  }

  /** The duration is the end of the last clip, and zero for an empty sequence. */
  ghost predicate Tight(plan: SequencePlan) {
    || plan.duration == Zero
    || exists i, k :: 0 <= i < |plan.layers| && 0 <= k < |plan.layers[i].clips|
                      && plan.layers[i].clips[k].Finish() == plan.duration.Seconds()
  }

  lemma PositiveLength(c: LayerClip)
    requires c.source.duration != Zero
    ensures c.Start() < c.Finish()
  {
    EqualIffSameInstant(c.source.duration, Zero);
    SecondsNonnegative(c.source.duration);
    assert Zero.Seconds() == 0.0;
  }

  lemma SecondsNonnegative(t: Time)
    ensures t.Seconds() >= 0.0
  {
  }

  lemma {:induction false} ClipsDisjoint(layer: Layer, media: seq<MediaAsset>, duration: Time, j: nat, k: nat)
    requires ValidLayer(layer, media, duration) && j < k < |layer.clips|
    ensures layer.clips[j].Finish() <= layer.clips[k].Start()
    ensures layer.clips[j].Start() < layer.clips[k].Start()
    decreases k
  {
    hide RationalTime.Seconds;
    PositiveLength(layer.clips[j]);
    if j < k - 1 {
      ClipsDisjoint(layer, media, duration, j, k - 1);
      PositiveLength(layer.clips[k - 1]);
    }
  }

  // ----- the naive reading: scan every clip of every layer at a real instant

  /** What a contribution means, with its source instant as an exact real. */
  datatype Cue = Cue(layer: nat, clip: nat, source: real, stream: Option<uint32>, gainMilli: uint32)

  function Shown(clips: seq<LayerClip>, x: real): (k: Option<nat>)
    ensures k.Some? ==> k.value < |clips| && clips[k.value].Covers(x)
    ensures k.None? ==> forall j :: 0 <= j < |clips| ==> !clips[j].Covers(x)
  {
    if clips == [] then None
    else if clips[0].Covers(x) then Some(0)
    else
      var rest := Shown(clips[1..], x);
      if rest.None? then
        assert forall j :: 0 < j < |clips| ==> clips[j] == clips[1..][j - 1];
        None
      else Some(rest.value + 1)
  }

  /** In a valid layer the clip that covers an instant is the one shown. */
  lemma CoveringIsShown(layer: Layer, media: seq<MediaAsset>, duration: Time, k: nat, x: real)
    requires ValidLayer(layer, media, duration) && k < |layer.clips| && layer.clips[k].Covers(x)
    ensures Shown(layer.clips, x) == Some(k)
  {
    hide RationalTime.Seconds, Shown, ValidLayer;
    var j := Shown(layer.clips, x).value;
    if j < k { ClipsDisjoint(layer, media, duration, j, k); }
    if k < j { ClipsDisjoint(layer, media, duration, k, j); }
  }

  predicate Visible(plan: SequencePlan, layer: Layer, clip: LayerClip) {
    && clip.media < |plan.media|
    && layer.kind == VideoTrack && plan.media[clip.media].kind != AudioOnly && clip.routing.video.mode != Disabled
  }

  predicate Heard(plan: SequencePlan, layer: Layer, clip: LayerClip) {
    && clip.media < |plan.media|
    && !layer.playback.muted && layer.playback.gainMilli != 0
    && plan.media[clip.media].kind != VideoOnly && clip.routing.audio.mode != Disabled
  }

  function SourceInstant(clip: LayerClip, x: real): real {
    clip.source.start.Seconds() + (x - clip.Start())
  }

  function VideoCue(plan: SequencePlan, i: nat, x: real): Option<Cue>
    requires i < |plan.layers|
  {
    var layer := plan.layers[i];
    var k := Shown(layer.clips, x);
    if !layer.playback.enabled || k.None? || !Visible(plan, layer, layer.clips[k.value]) then None
    else
      var clip := layer.clips[k.value];
      Some(Cue(i, k.value, SourceInstant(clip, x),
               SelectStream(plan.media[clip.media], VideoTrack, clip.routing.video), 1000))
  }

  function AudioCue(plan: SequencePlan, i: nat, x: real): Option<Cue>
    requires i < |plan.layers|
  {
    var layer := plan.layers[i];
    var k := Shown(layer.clips, x);
    if !layer.playback.enabled || k.None? || !Heard(plan, layer, layer.clips[k.value]) then None
    else
      var clip := layer.clips[k.value];
      Some(Cue(i, k.value, SourceInstant(clip, x),
               SelectStream(plan.media[clip.media], AudioTrack, clip.routing.audio), layer.playback.gainMilli))
  }

  /** The picture comes from the topmost of the first `n` layers that shows one. */
  function PictureAt(plan: SequencePlan, x: real, n: nat): Option<Cue>
    requires n <= |plan.layers|
  {
    if n == 0 then None
    else
      var above := PictureAt(plan, x, n - 1);
      if above.Some? then above else VideoCue(plan, n - 1, x)
  }

  /** Every heard clip of the first `n` layers, top to bottom. */
  function SoundsAt(plan: SequencePlan, x: real, n: nat): seq<Cue>
    requires n <= |plan.layers|
  {
    if n == 0 then []
    else SoundsAt(plan, x, n - 1) + (var cue := AudioCue(plan, n - 1, x); if cue.Some? then [cue.value] else [])
  }

  function Exact(c: Contribution): Cue {
    Cue(c.layer, c.clip, c.source.Seconds(), c.stream, c.gainMilli)
  }

  function ExactOption(c: Option<Contribution>): Option<Cue> {
    if c.None? then None else Some(Exact(c.value))
  }

  function ExactAll(cs: seq<Contribution>): seq<Cue> {
    seq(|cs|, i requires 0 <= i < |cs| => Exact(cs[i]))
  }

  // ----- boundaries

  /** No clip of the first `n` layers that plays starts or ends strictly between `x` and `b`. */
  ghost predicate NoEdgeBetween(plan: SequencePlan, n: nat, x: real, b: real)
    requires n <= |plan.layers|
  {
    forall i, k :: 0 <= i < n && 0 <= k < |plan.layers[i].clips| && plan.layers[i].playback.enabled ==>
      var c := plan.layers[i].clips[k];
      && (c.Start() <= x || b <= c.Start())
      && (c.Finish() <= x || b <= c.Finish())
  }

  ghost predicate IsEdge(plan: SequencePlan, n: nat, b: real)
    requires n <= |plan.layers|
  {
    exists i, k :: 0 <= i < n && 0 <= k < |plan.layers[i].clips| && plan.layers[i].playback.enabled
                   && (b == plan.layers[i].clips[k].Start() || b == plan.layers[i].clips[k].Finish())
  }

  /** `b` is the least clip edge of a playing layer after `x`, or the duration when there is none. */
  ghost predicate IsNextBoundary(plan: SequencePlan, n: nat, x: real, b: real)
    requires n <= |plan.layers|
  {
    && x < b <= plan.duration.Seconds()
    && NoEdgeBetween(plan, n, x, b)
    && (b == plan.duration.Seconds() || IsEdge(plan, n, b))
  }

  // ----- evaluation

  /** The checked arithmetic evaluation performs for the clip that covers the position. */
  function SourceTimeAt(clip: LayerClip, position: Time): (r: Option<Time>)
    requires clip.Start() <= position.Seconds()
    ensures r.Some? ==> r.value.Seconds() == SourceInstant(clip, position.Seconds())
  {
    var offset := Minus(position, clip.position);
    if offset.None? then None else Plus(clip.source.start, offset.value)
  }

  ghost predicate Overflows(layer: Layer, position: Time) {
    var k := Shown(layer.clips, position.Seconds());
    layer.playback.enabled && k.Some? && SourceTimeAt(layer.clips[k.value], position).None?
  }

  /** `std::upper_bound` over clip positions. */
  method UpperBound(layer: Layer, media: seq<MediaAsset>, duration: Time, position: Time) returns (after: nat)
    requires ValidLayer(layer, media, duration)
    ensures after <= |layer.clips|
    ensures forall k :: 0 <= k < after ==> layer.clips[k].Start() <= position.Seconds()
    ensures forall k :: after <= k < |layer.clips| ==> position.Seconds() < layer.clips[k].Start()
  {
    hide RationalTime.Seconds;
    var low, high := 0, |layer.clips|;
    while low < high
      invariant 0 <= low <= high <= |layer.clips|
      invariant forall k :: 0 <= k < low ==> layer.clips[k].Start() <= position.Seconds()
      invariant forall k :: high <= k < |layer.clips| ==> position.Seconds() < layer.clips[k].Start()
    {
      var middle := low + (high - low) / 2;
      forall k | 0 <= k < |layer.clips| && k != middle
        ensures if k < middle then layer.clips[k].Start() < layer.clips[middle].Start()
                else layer.clips[middle].Start() < layer.clips[k].Start()
      {
        ClipsDisjoint(layer, media, duration, if k < middle then k else middle, if k < middle then middle else k);
      }
      if position.Seconds() < layer.clips[middle].Start() {
        high := middle;
      } else {
        low := middle + 1;
      }
    }
    after := low;
  }

  /** The clip before the upper bound is the only one that can cover the position. */
  lemma UpperBoundFindsShown(layer: Layer, media: seq<MediaAsset>, duration: Time, x: real, after: nat)
    requires ValidLayer(layer, media, duration) && after <= |layer.clips|
    requires forall k :: 0 <= k < after ==> layer.clips[k].Start() <= x
    requires forall k :: after <= k < |layer.clips| ==> x < layer.clips[k].Start()
    ensures Shown(layer.clips, x) ==
            if after > 0 && x < layer.clips[after - 1].Finish() then Some(after - 1) else None
    ensures forall k :: 0 <= k < after - 1 ==> layer.clips[k].Finish() <= x
  {
    hide RationalTime.Seconds, Plus;
    forall k | 0 <= k < after - 1
      ensures layer.clips[k].Finish() <= x
    {
      ClipsDisjoint(layer, media, duration, k, after - 1);
    }
  }

  /** The boundary of one layer: the next start, or the end of the clip being shown. */
  ghost predicate IsLayerBoundary(layer: Layer, x: real, before: real, b: real) {
    && x < b <= before
    && (forall k :: 0 <= k < |layer.clips| ==>
          && (layer.clips[k].Start() <= x || b <= layer.clips[k].Start())
          && (layer.clips[k].Finish() <= x || b <= layer.clips[k].Finish()))
    && (b == before
        || (exists k :: 0 <= k < |layer.clips| && (b == layer.clips[k].Start() || b == layer.clips[k].Finish())))
  }

  function Earlier(a: Time, b: Time): Time {
    if b.Seconds() < a.Seconds() then b else a
  }

  method LayerBoundary(layer: Layer, media: seq<MediaAsset>, duration: Time, position: Time, before: Time)
    returns (boundary: Time, current: Option<nat>)
    requires ValidLayer(layer, media, duration)
    requires position.Seconds() < before.Seconds()
    ensures current == Shown(layer.clips, position.Seconds())
    ensures IsLayerBoundary(layer, position.Seconds(), before.Seconds(), boundary.Seconds())
  {
    hide RationalTime.Seconds, Plus;
    var after := UpperBound(layer, media, duration, position);
    UpperBoundFindsShown(layer, media, duration, position.Seconds(), after);
    boundary, current := before, None;
    if after < |layer.clips| {
      boundary := Earlier(boundary, layer.clips[after].position);
      forall k | after < k < |layer.clips|
        ensures layer.clips[after].Start() < layer.clips[k].Start()
      {
        ClipsDisjoint(layer, media, duration, after, k);
      }
    }
    forall k | 0 <= k < |layer.clips|
      ensures layer.clips[k].Start() < layer.clips[k].Finish()
    {
      PositiveLength(layer.clips[k]);
    }
    if after > 0 {
      var clip := layer.clips[after - 1];
      if position.Seconds() < clip.End().value.Seconds() {
        boundary := Earlier(boundary, clip.End().value);
        current := Some(after - 1);
        if after < |layer.clips| { ClipsDisjoint(layer, media, duration, after - 1, after); }
      }
    }
  }

  lemma ExtendBoundary(plan: SequencePlan, i: nat, x: real, before: real, b: real)
    requires i < |plan.layers| && IsNextBoundary(plan, i, x, before)
    requires if plan.layers[i].playback.enabled then IsLayerBoundary(plan.layers[i], x, before, b) else b == before
    ensures IsNextBoundary(plan, i + 1, x, b)
  {
    hide RationalTime.Seconds;
  }

  /** What evaluation has found in the first `n` layers. */
  ghost predicate Scanned(plan: SequencePlan, n: nat, x: real, e: Evaluation)
    requires n <= |plan.layers|
  {
    && IsNextBoundary(plan, n, x, e.nextBoundary.Seconds())
    && ExactOption(e.video) == PictureAt(plan, x, n)
    && ExactAll(e.audio) == SoundsAt(plan, x, n)
  }

  lemma NothingScanned(plan: SequencePlan, x: real)
    ensures PictureAt(plan, x, 0) == None && SoundsAt(plan, x, 0) == []
    ensures x < plan.duration.Seconds() ==> IsNextBoundary(plan, 0, x, plan.duration.Seconds())
  {
    hide RationalTime.Seconds;
  }

  /** One turn of the loop over layers. */
  method AddLayer(plan: SequencePlan, i: nat, position: Time, e: Evaluation) returns (r: Option<Evaluation>)
    requires ValidPlan(plan) && i < |plan.layers| && Scanned(plan, i, position.Seconds(), e)
    ensures r.None? <==> Overflows(plan.layers[i], position)
    ensures r.Some? ==> Scanned(plan, i + 1, position.Seconds(), r.value)
  {
    hide RationalTime.Seconds, NoEdgeBetween, IsEdge, IsLayerBoundary, SelectStream, Denotes, Plus, Minus;
    ghost var x := position.Seconds();
    var layer := plan.layers[i];
    if !layer.playback.enabled {
      ExtendBoundary(plan, i, x, e.nextBoundary.Seconds(), e.nextBoundary.Seconds());
      return Some(e);
    }
    assert ValidLayer(layer, plan.media, plan.duration);
    var boundary, current := LayerBoundary(layer, plan.media, plan.duration, position, e.nextBoundary);
    ExtendBoundary(plan, i, x, e.nextBoundary.Seconds(), boundary.Seconds());
    var result := e.(nextBoundary := boundary);
    if current.Some? {
      var clip := layer.clips[current.value];
      var offset := Minus(position, clip.position);
      var source := if offset.None? then None else Plus(clip.source.start, offset.value);
      if source.None? {
        return None;
      }
      var asset := plan.media[clip.media];
      if result.video.None? && layer.kind == VideoTrack && asset.kind != AudioOnly
         && clip.routing.video.mode != Disabled
      {
        var stream := ChooseStream(asset, VideoTrack, clip.routing.video);
        result := result.(video := Some(Contribution(i, current.value, source.value, stream, 1000)));
      }
      if !layer.playback.muted && layer.playback.gainMilli != 0 && asset.kind != VideoOnly
         && clip.routing.audio.mode != Disabled
      {
        var stream := ChooseStream(asset, AudioTrack, clip.routing.audio);
        var item := Contribution(i, current.value, source.value, stream, layer.playback.gainMilli);
        result := result.(audio := result.audio + [item]);
        assert ExactAll(e.audio + [item]) == ExactAll(e.audio) + [Exact(item)];
      }
    }
    return Some(result);
  }

  /**
   `SequencePlan::evaluate`. The binary search per layer finds what a scan of every clip finds, and
   the boundary is the next edge of a playing layer. It fails only outside the sequence or when the
   exact source instant of a covering clip does not fit.
   */
  method Evaluate(plan: SequencePlan, position: Time) returns (r: Result<Evaluation, PlanError>)
    requires ValidPlan(plan)
    ensures Answers(plan, position, r)
    ensures r.Success? ==> Reports(plan, position, r.value)
  {
    hide RationalTime.Seconds, Overflows, NoEdgeBetween, IsEdge, PictureAt, SoundsAt, PictureMeant, SoundsMeant;
    ghost var x := position.Seconds();
    PictureIsMeant(plan, x, |plan.layers|);
    SoundsAreMeant(plan, x, |plan.layers|);
    if position.Seconds() > plan.duration.Seconds() {
      return Failure(OutsideSequence);
    }
    var result := Evaluation(None, [], plan.duration);
    EqualIffSameInstant(position, plan.duration);
    NothingScanned(plan, x);
    if position == plan.duration {
      NothingAtEnd(plan, |plan.layers|);
      return Success(result);
    }
    for i := 0 to |plan.layers|
      invariant Scanned(plan, i, x, result)
      invariant forall j :: 0 <= j < i ==> !Overflows(plan.layers[j], position)
    {
      var next := AddLayer(plan, i, position, result);
      if next.None? {
        return Failure(TimeOverflow);
      }
      result := next.value;
    }
    return Success(result);
  }

  /** What evaluation answers: a refusal for exactly one of two reasons, or what the naive scan finds. */
  ghost predicate Answers(plan: SequencePlan, position: Time, r: Result<Evaluation, PlanError>) {
    && (r == Failure(OutsideSequence) <==> position.Seconds() > plan.duration.Seconds())
    && (r == Failure(TimeOverflow) <==>
          && position.Seconds() < plan.duration.Seconds()
          && exists i :: 0 <= i < |plan.layers| && Overflows(plan.layers[i], position))
    && (r.Success? ==> Evaluated(plan, position, r.value))
  }

  /** What a successful evaluation reports, in terms of the naive scan. */
  ghost predicate Evaluated(plan: SequencePlan, position: Time, e: Evaluation) {
    var x, n := position.Seconds(), |plan.layers|;
    && ExactOption(e.video) == PictureAt(plan, x, n)
    && ExactAll(e.audio) == SoundsAt(plan, x, n)
    && (if position == plan.duration then e.nextBoundary == plan.duration
        else IsNextBoundary(plan, n, x, e.nextBoundary.Seconds()))
  }

  // ----- the same in terms of the plan's fields alone

  /** A clip over the instant that can be seen: on an enabled video track, from media with a picture, with its video
      routed somewhere. */
  ghost predicate IsSeen(plan: SequencePlan, i: nat, k: nat, x: real) {
    && i < |plan.layers| && k < |plan.layers[i].clips|
    && var layer, clip := plan.layers[i], plan.layers[i].clips[k];
       && layer.playback.enabled && layer.kind == VideoTrack
       && clip.position.Seconds() <= x < clip.position.Seconds() + clip.source.duration.Seconds()
       && clip.media < |plan.media| && plan.media[clip.media].kind in {VideoOnly, AudioVideo}
       && clip.routing.video.mode in {Automatic, Explicit}
  }

  /** A clip over the instant that can be heard: on an enabled, unmuted track of nonzero gain, from media with sound,
      with its audio routed somewhere. */
  ghost predicate IsHeard(plan: SequencePlan, i: nat, k: nat, x: real) {
    && i < |plan.layers| && k < |plan.layers[i].clips|
    && var layer, clip := plan.layers[i], plan.layers[i].clips[k];
       && layer.playback.enabled && !layer.playback.muted && layer.playback.gainMilli > 0
       && clip.position.Seconds() <= x < clip.position.Seconds() + clip.source.duration.Seconds()
       && clip.media < |plan.media| && plan.media[clip.media].kind in {AudioOnly, AudioVideo}
       && clip.routing.audio.mode in {Automatic, Explicit}
  }

  /** A cue names a clip over the instant, the instant of its source, and the stream its routing stands for. */
  ghost predicate CueMeant(plan: SequencePlan, x: real, cue: Cue, kind: TrackKind) {
    && cue.layer < |plan.layers| && cue.clip < |plan.layers[cue.layer].clips|
    && var clip := plan.layers[cue.layer].clips[cue.clip];
       && clip.media < |plan.media|
       && cue.source == clip.source.start.Seconds() + x - clip.position.Seconds()
       && Denotes(plan.media[clip.media], kind, if kind == VideoTrack then clip.routing.video else clip.routing.audio,
                  cue.stream)
  }

  ghost predicate SeenAs(plan: SequencePlan, x: real, cue: Cue) {
    IsSeen(plan, cue.layer, cue.clip, x) && CueMeant(plan, x, cue, VideoTrack) && cue.gainMilli == 1000
  }

  ghost predicate HeardAs(plan: SequencePlan, x: real, cue: Cue) {
    && IsHeard(plan, cue.layer, cue.clip, x) && CueMeant(plan, x, cue, AudioTrack)
    && cue.gainMilli == plan.layers[cue.layer].playback.gainMilli
  }

  /** The picture of the first `n` layers is the topmost clip that can be seen, at full gain. */
  ghost predicate PictureMeant(plan: SequencePlan, x: real, n: nat, picture: Option<Cue>) {
    match picture
    case None => forall i: nat, k: nat :: i < n ==> !IsSeen(plan, i, k, x)
    case Some(cue) =>
      && cue.layer < n && SeenAs(plan, x, cue)
      && forall i: nat, k: nat :: i < cue.layer ==> !IsSeen(plan, i, k, x)
  }

  /** The sounds of the first `n` layers: one for each layer with a clip that can be heard, top to bottom, at the gain
      of its track. */
  ghost predicate SoundsMeant(plan: SequencePlan, x: real, n: nat, sounds: seq<Cue>) {
    && (forall j :: 0 <= j < |sounds| ==>
          sounds[j].layer < n && HeardAs(plan, x, sounds[j]))
    && (forall i: nat, k: nat :: i < n && IsHeard(plan, i, k, x) ==>
          exists j :: 0 <= j < |sounds| && sounds[j].layer == i)
    && (forall i, j :: 0 <= i < j < |sounds| ==> sounds[i].layer < sounds[j].layer)
  }

  /** What an evaluation reports. */
  ghost predicate Reports(plan: SequencePlan, position: Time, e: Evaluation) {
    var n := |plan.layers|;
    && PictureMeant(plan, position.Seconds(), n, ExactOption(e.video))
    && SoundsMeant(plan, position.Seconds(), n, ExactAll(e.audio))
  }

  lemma CuesAreMeant(plan: SequencePlan, i: nat, x: real)
    requires ValidPlan(plan) && i < |plan.layers|
    ensures var cue := VideoCue(plan, i, x);
            if cue.None? then forall k: nat :: !IsSeen(plan, i, k, x)
            else cue.value.layer == i && SeenAs(plan, x, cue.value)
    ensures var cue := AudioCue(plan, i, x);
            if cue.None? then forall k: nat :: !IsHeard(plan, i, k, x)
            else cue.value.layer == i && HeardAs(plan, x, cue.value)
  {
    hide RationalTime.Seconds, Shown, SelectStream, Denotes, ValidLayer;
    var layer := plan.layers[i];
    forall k: nat | k < |layer.clips| && layer.clips[k].Covers(x)
      ensures Shown(layer.clips, x) == Some(k)
    {
      CoveringIsShown(layer, plan.media, plan.duration, k, x);
    }
    var k := Shown(layer.clips, x);
    if k.Some? && layer.clips[k.value].media < |plan.media| {
      var clip := layer.clips[k.value];
      SelectionDenotes(plan.media[clip.media], VideoTrack, clip.routing.video);
      SelectionDenotes(plan.media[clip.media], AudioTrack, clip.routing.audio);
    }
  }

  lemma {:induction false} PictureIsMeant(plan: SequencePlan, x: real, n: nat)
    requires ValidPlan(plan) && n <= |plan.layers|
    ensures PictureMeant(plan, x, n, PictureAt(plan, x, n))
  {
    hide IsSeen, SeenAs, VideoCue, IsHeard, HeardAs, AudioCue, ValidPlan;
    if n > 0 {
      PictureIsMeant(plan, x, n - 1);
      CuesAreMeant(plan, n - 1, x);
    }
  }

  lemma {:induction false} SoundsAreMeant(plan: SequencePlan, x: real, n: nat)
    requires ValidPlan(plan) && n <= |plan.layers|
    ensures SoundsMeant(plan, x, n, SoundsAt(plan, x, n))
  {
    hide IsHeard, HeardAs, IsSeen, SeenAs, VideoCue, AudioCue, SoundsMeant, ValidPlan;
    if n == 0 {
      NoSounds(plan, x);
    } else {
      SoundsAreMeant(plan, x, n - 1);
      CuesAreMeant(plan, n - 1, x);
      var before, cue := SoundsAt(plan, x, n - 1), AudioCue(plan, n - 1, x);
      if cue.Some? {
        OneMoreSound(plan, x, n - 1, before, cue.value);
      } else {
        NoMoreSound(plan, x, n - 1, before);
        assert SoundsAt(plan, x, n) == before;
      }
    }
  }

  lemma NoSounds(plan: SequencePlan, x: real)
    ensures SoundsMeant(plan, x, 0, [])
  {
  }

  lemma NoMoreSound(plan: SequencePlan, x: real, n: nat, sounds: seq<Cue>)
    requires SoundsMeant(plan, x, n, sounds) && forall k: nat :: !IsHeard(plan, n, k, x)
    ensures SoundsMeant(plan, x, n + 1, sounds)
  {
    hide IsHeard, HeardAs;
  }

  lemma OneMoreSound(plan: SequencePlan, x: real, n: nat, sounds: seq<Cue>, cue: Cue)
    requires SoundsMeant(plan, x, n, sounds) && cue.layer == n && HeardAs(plan, x, cue)
    ensures SoundsMeant(plan, x, n + 1, sounds + [cue])
  {
    hide IsHeard, HeardAs;
    var all := sounds + [cue];
    assert all[|sounds|] == cue;
    forall i: nat, k: nat | i < n + 1 && IsHeard(plan, i, k, x)
      ensures exists j :: 0 <= j < |all| && all[j].layer == i
    {
      if i < n {
        var j :| 0 <= j < |sounds| && sounds[j].layer == i;
        assert all[j].layer == i;
      }
    }
  }

  lemma {:induction false} NothingAtEnd(plan: SequencePlan, n: nat)
    requires ValidPlan(plan) && n <= |plan.layers|
    ensures PictureAt(plan, plan.duration.Seconds(), n) == None
    ensures SoundsAt(plan, plan.duration.Seconds(), n) == []
  {
    hide RationalTime.Seconds, SelectStream, Plus;
    if n > 0 {
      NothingAtEnd(plan, n - 1);
      var layer := plan.layers[n - 1];
      assert ValidLayer(layer, plan.media, plan.duration);
      assert Shown(layer.clips, plan.duration.Seconds()).None?;
    }
  }

  // ----- constancy up to the boundary

  function Advance(cue: Option<Cue>, elapsed: real): Option<Cue> {
    if cue.None? then None else Some(cue.value.(source := cue.value.source + elapsed))
  }

  function AdvanceAll(cues: seq<Cue>, elapsed: real): seq<Cue> {
    seq(|cues|, i requires 0 <= i < |cues| => cues[i].(source := cues[i].source + elapsed))
  }

  lemma {:induction false} SameClipShown(clips: seq<LayerClip>, x: real, y: real)
    requires forall k :: 0 <= k < |clips| ==> clips[k].Covers(x) == clips[k].Covers(y)
    ensures Shown(clips, x) == Shown(clips, y)
  {
    hide RationalTime.Seconds;
    if clips != [] {
      assert clips[0].Covers(x) == clips[0].Covers(y);
      SameClipShown(clips[1..], x, y);
    }
  }

  lemma CoverageUnchanged(plan: SequencePlan, i: nat, x: real, b: real, y: real)
    requires i < |plan.layers| && plan.layers[i].playback.enabled
    requires NoEdgeBetween(plan, |plan.layers|, x, b) && x <= y < b
    ensures Shown(plan.layers[i].clips, x) == Shown(plan.layers[i].clips, y)
  {
    hide RationalTime.Seconds;
    SameClipShown(plan.layers[i].clips, x, y);
  }

  lemma CuesAdvance(plan: SequencePlan, i: nat, x: real, b: real, y: real)
    requires i < |plan.layers| && NoEdgeBetween(plan, |plan.layers|, x, b) && x <= y < b
    ensures VideoCue(plan, i, y) == Advance(VideoCue(plan, i, x), y - x)
    ensures AudioCue(plan, i, y) == Advance(AudioCue(plan, i, x), y - x)
  {
    hide RationalTime.Seconds, SelectStream, NoEdgeBetween;
    if plan.layers[i].playback.enabled {
      CoverageUnchanged(plan, i, x, b, y);
    }
  }

  /**
   Between an instant and its boundary nothing switches: the same clips, streams and gains are
   selected, and every source instant advances by exactly the elapsed time.
   */
  lemma {:induction false} ConstantUntilBoundary(plan: SequencePlan, n: nat, x: real, b: real, y: real)
    requires n <= |plan.layers| && NoEdgeBetween(plan, |plan.layers|, x, b) && x <= y < b
    ensures PictureAt(plan, y, n) == Advance(PictureAt(plan, x, n), y - x)
    ensures SoundsAt(plan, y, n) == AdvanceAll(SoundsAt(plan, x, n), y - x)
  {
    hide RationalTime.Seconds, VideoCue, AudioCue, NoEdgeBetween;
    if n > 0 {
      ConstantUntilBoundary(plan, n - 1, x, b, y);
      CuesAdvance(plan, n - 1, x, b, y);
      assert SoundsAt(plan, y, n) == AdvanceAll(SoundsAt(plan, x, n), y - x);
    }
  }
}
