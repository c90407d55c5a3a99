/** The single-track preview plan (`src/playback/plan.cpp`) and its agreement with the layered one. */
module LinearPlans {
  import opened Wrappers
  import opened RationalTimes
  import opened Model
  import opened SequencePlans
  import opened PlanBuilder
  import Validation

  datatype Segment = Segment(clip: uint64, position: Time, source: TimeRange, asset: MediaAsset) {
    function End(): Option<Time> { Plus(position, source.duration) }

    function Start(): real { position.Seconds() }

    function Finish(): real { position.Seconds() + source.duration.Seconds() }

    predicate Covers(x: real) { Start() <= x < Finish() }

    /** The checked arithmetic for a position the segment covers. */
    function SourceAt(at: Time): Option<Time> {
      var offset := Minus(at, position);
      if offset.None? then None else Plus(source.start, offset.value)
    }
  }

  datatype Plan = Plan(sequence: uint64, revision: uint64, duration: Time, segments: seq<Segment>)

  datatype Sample = Sample(segment: Option<nat>, source: Time, nextBoundary: Time)

  const DAY: Time := RationalTime(86400, 1)
  const MILLISECOND: Time := RationalTime(1, 1000)

  /** Whole milliseconds, rounded down; refused when the scaled value leaves 64 bits. */
  function Milliseconds(time: Time): (r: Option<int>)
    ensures r.Some? <==> time.value * 1000 <= MAX
    ensures r.Some? ==> r.value as real <= time.Seconds() * 1000.0 < (r.value + 1) as real
  {
    if time.value > MAX / 1000 then None
    else
      FloorOfQuotient(time.value * 1000, time.rate);
      ScaledSeconds(time, 1000);
      Some(time.value * 1000 / time.rate)
  }

  predicate WithinPreview(clip: Clip)
    requires clip.End().Some? && clip.source.End().Some?
  {
    && clip.End().value.Seconds() <= DAY.Seconds() && clip.source.End().value.Seconds() <= DAY.Seconds()
    && MILLISECOND.Seconds() <= clip.source.duration.Seconds()
    && Milliseconds(clip.source.End().value).Some? && Milliseconds(clip.source.start).Some?
    && Milliseconds(clip.source.start).value < Milliseconds(clip.source.End().value).value
  }

  /** The only populated track among those given, when there is at most one. */
  ghost predicate OnlyPopulated(tracks: seq<Track>, t: nat) {
    && t < |tracks| && tracks[t].clips != []
    && forall i :: 0 <= i < |tracks| && i != t ==> tracks[i].clips == []
  }

  ghost predicate SeveralPopulated(tracks: seq<Track>) {
    exists i, j :: 0 <= i < j < |tracks| && tracks[i].clips != [] && tracks[j].clips != []
  }

  predicate Previewable(clips: seq<Clip>) {
    forall k :: 0 <= k < |clips| ==> clips[k].End().Some? && clips[k].source.End().Some? && WithinPreview(clips[k])
  }

  /** The first populated track has a clip outside the preview limits. */
  ghost predicate BeyondPreview(tracks: seq<Track>) {
    exists t :: && 0 <= t < |tracks| && (forall i :: 0 <= i < t ==> tracks[i].clips == [])
                && tracks[t].clips != [] && !Previewable(tracks[t].clips)
  }

  function SegmentOf(clip: Clip, media: seq<MediaAsset>): Segment
    requires FindAsset(media, clip.media).Some?
  {
    Segment(clip.id, clip.position, clip.source, media[FindAsset(media, clip.media).value])
  }

  function SegmentsOf(clips: seq<Clip>, media: seq<MediaAsset>): seq<Segment>
    requires Resolved(clips, media)
  {
    seq(|clips|, k requires 0 <= k < |clips| => SegmentOf(clips[k], media))
  }

  /** The two plans describe the same clips, all of them on layer `t`. */
  ghost predicate SameClips(linear: Plan, plan: SequencePlan, t: nat) {
    && t < |plan.layers|
    && (forall i :: 0 <= i < |plan.layers| && i != t ==> plan.layers[i].clips == [])
    && |linear.segments| == |plan.layers[t].clips|
    && forall k :: 0 <= k < |linear.segments| ==>
         && linear.segments[k].clip == plan.layers[t].clips[k].id
         && linear.segments[k].position == plan.layers[t].clips[k].position
         && linear.segments[k].source == plan.layers[t].clips[k].source
  }

  predicate ValidPlan(linear: Plan) {
    && (forall k :: 0 <= k < |linear.segments| ==>
          var s := linear.segments[k];
          s.source.duration != Zero && s.End().Some?)
    && (forall k :: 0 < k < |linear.segments| ==> linear.segments[k - 1].Finish() <= linear.segments[k].Start())
    && linear.duration.Seconds()
       == if linear.segments == [] then 0.0 else linear.segments[|linear.segments| - 1].Finish()
  }

  lemma TrackUsable(project: ProjectSnapshot, s: nat, t: nat)
    requires ValidContent(project) && s < |project.sequences| && t < |project.sequences[s].tracks|
    ensures UsableClips(project.sequences[s].tracks[t].clips, project.media)
  {
    hide RationalTime.Seconds, Plus, ObjectIds, ValidAsset, ValidRouting, ValidText, ValidOutput;
    var track := project.sequences[s].tracks[t];
    assert ValidSequence(project.sequences[s], project.media);
    assert ValidTrack(track, project.media);
    forall k | 0 <= k < |track.clips|
      ensures ValidClip(track.clips[k], project.media, track.kind)
    {
    }
  }

  /** What validation guarantees about a track's clips, as far as planning needs it. */
  ghost predicate UsableClips(clips: seq<Clip>, media: seq<MediaAsset>) {
    && Resolved(clips, media)
    && (forall k :: 0 <= k < |clips| ==>
          clips[k].End().Some? && clips[k].source.End().Some? && clips[k].source.duration != Zero)
    && (forall k :: 0 < k < |clips| ==> clips[k - 1].End().value.Seconds() <= clips[k].position.Seconds())
  }

  /** The limits on one clip: a day of timeline and of source, and at least a millisecond that can be told apart. */
  method FitsPreview(clip: Clip) returns (ok: bool)
    requires clip.End().Some? && clip.source.End().Some?
    ensures ok <==> WithinPreview(clip)
  {
    hide RationalTime.Seconds, Plus;
    var end, sourceEnd := clip.End().value, clip.source.End().value;
    var day, shortest := RationalTime(24 * 60 * 60, 1), RationalTime(1, 1000);
    if end.Seconds() > day.Seconds() || sourceEnd.Seconds() > day.Seconds() { return false; }
    if clip.source.duration.Seconds() < shortest.Seconds() { return false; }
    var last, first := Milliseconds(sourceEnd), Milliseconds(clip.source.start);
    return last.Some? && first.Some? && last.value > first.value;
  }

  /** The inner loop of `make_plan`: one segment a clip, the duration following the last end. */
  method BuildSegments(clips: seq<Clip>, media: seq<MediaAsset>) returns (r: Option<(seq<Segment>, Time)>)
    requires UsableClips(clips, media)
    ensures r.Some? <==> forall k :: 0 <= k < |clips| ==> WithinPreview(clips[k])
    ensures r.Some? ==> r.value.0 == SegmentsOf(clips, media)
    ensures r.Some? ==> forall id, revision :: ValidPlan(Plan(id, revision, r.value.1, r.value.0))
  {
    hide RationalTime.Seconds, Plus, WithinPreview, FindAsset;
    ZeroSeconds();
    var segments: seq<Segment> := [];
    var duration := Zero;
    for k := 0 to |clips|
      invariant segments == SegmentsOf(clips, media)[..k]
      invariant k == 0 ==> duration == Zero
      invariant k > 0 ==> duration == clips[k - 1].End().value
      invariant forall j :: 0 <= j < k ==> WithinPreview(clips[j])
    {
      var clip := clips[k];
      var fits := FitsPreview(clip);
      if !fits {
        return None;
      }
      segments := segments + [Segment(clip.id, clip.position, clip.source, media[FindAsset(media, clip.media).value])];
      assert SegmentsOf(clips, media)[..k + 1] == segments;
      duration := clip.End().value;
    }
    assert segments == SegmentsOf(clips, media);
    return Some((segments, duration));
  }

  /** Why a sequence has no linear plan: the first populated track exceeds the limits, or else there is another one. */
  ghost function PlanRefusal(tracks: seq<Track>): Option<BuildError> {
    if BeyondPreview(tracks) then Some(BeyondPreviewLimits)
    else if SeveralPopulated(tracks) then Some(SeveralPopulatedTracks)
    else None
  }

  /** `make_plan`: refuses clips outside the preview limits and a second populated track, whichever comes first. */
  method MakePlan(project: ProjectSnapshot, id: uint64) returns (r: Result<Plan, BuildError>)
    ensures r == Failure(InvalidProject) <==> !Valid(project)
    ensures r == Failure(SequenceMissing) <==> Valid(project) && FindSequence(project.sequences, id).None?
    ensures Valid(project) && FindSequence(project.sequences, id).Some? ==>
              var tracks := project.sequences[FindSequence(project.sequences, id).value].tracks;
              && (r.Failure? <==> PlanRefusal(tracks).Some?)
              && (r.Failure? ==> Some(r.error) == PlanRefusal(tracks))
              && (r.Success? ==>
                    && r.value.sequence == id && r.value.revision == project.revision && ValidPlan(r.value)
                    && PlansTracks(r.value, tracks, project.media))
  {
    hide RationalTime.Seconds, Valid, ValidContent, BeyondPreview, SeveralPopulated, PlansTracks, ValidPlan;
    var valid := Validation.Validate(project);
    if !valid {
      return Failure(InvalidProject);
    }
    var found := FindSequence(project.sequences, id);
    if found.None? {
      return Failure(SequenceMissing);
    }
    ValidImpliesContent(project);
    r := PlanTracks(project, found.value, Plan(id, project.revision, Zero, []));
  }

  /** The loops of `make_plan`. */
  method PlanTracks(project: ProjectSnapshot, s: nat, empty: Plan) returns (r: Result<Plan, BuildError>)
    requires ValidContent(project) && s < |project.sequences| && empty.segments == [] && empty.duration == Zero
    ensures r.Failure? <==> PlanRefusal(project.sequences[s].tracks).Some?
    ensures r.Failure? ==> Some(r.error) == PlanRefusal(project.sequences[s].tracks)
    ensures r.Success? ==>
              && r.value.sequence == empty.sequence && r.value.revision == empty.revision && ValidPlan(r.value)
              && PlansTracks(r.value, project.sequences[s].tracks, project.media)
  {
    hide RationalTime.Seconds, Plus, ValidContent, WithinPreview, Previewable, SegmentOf;
    ZeroSeconds();
    var tracks, result := project.sequences[s].tracks, empty;
    var populated := false;
    ghost var first := 0;
    for t := 0 to |tracks|
      invariant !populated ==> result == empty && forall i :: 0 <= i < t ==> tracks[i].clips == []
      invariant populated ==>
                  && first < t && tracks[first].clips != [] && Previewable(tracks[first].clips)
                  && (forall i :: 0 <= i < t && i != first ==> tracks[i].clips == [])
                  && Resolved(tracks[first].clips, project.media)
                  && result.segments == SegmentsOf(tracks[first].clips, project.media)
      invariant result.sequence == empty.sequence && result.revision == empty.revision && ValidPlan(result)
    {
      if tracks[t].clips != [] {
        if populated {
          return Failure(SeveralPopulatedTracks);
        }
        populated, first := true, t;
        TrackUsable(project, s, t);
        PreviewableIs(tracks[t].clips, project.media);
        var built := BuildSegments(tracks[t].clips, project.media);
        if built.None? {
          return Failure(BeyondPreviewLimits);
        }
        result := result.(segments := built.value.0, duration := built.value.1);
      }
    }
    if populated { assert OnlyPopulated(tracks, first); }
    return Success(result);
  }

  lemma PreviewableIs(clips: seq<Clip>, media: seq<MediaAsset>)
    requires UsableClips(clips, media)
    ensures Previewable(clips) <==> forall k :: 0 <= k < |clips| ==> WithinPreview(clips[k])
  {
    hide RationalTime.Seconds, Plus, WithinPreview;
  }

  ghost predicate PlansTracks(linear: Plan, tracks: seq<Track>, media: seq<MediaAsset>) {
    if linear.segments == [] then
      forall t :: 0 <= t < |tracks| ==> tracks[t].clips == []
    else
      exists t: nat :: && OnlyPopulated(tracks, t) && Resolved(tracks[t].clips, media)
                  && linear.segments == SegmentsOf(tracks[t].clips, media)
  }

  // ----- sampling

  /** The clip under the position with its exact source instant, and the next edge. */
  ghost predicate Sampled(linear: Plan, position: Time, s: Sample) {
    var x := position.Seconds();
    && (s.segment.Some? ==>
          && s.segment.value < |linear.segments| && linear.segments[s.segment.value].Covers(x)
          && s.source.Seconds() == linear.segments[s.segment.value].source.start.Seconds()
                                   + (x - linear.segments[s.segment.value].Start()))
    && (s.segment.None? ==> forall k :: 0 <= k < |linear.segments| ==> !linear.segments[k].Covers(x))
    && (x < s.nextBoundary.Seconds() || s.nextBoundary == linear.duration)
    && (forall k :: 0 <= k < |linear.segments| ==>
          && (linear.segments[k].Start() <= x || s.nextBoundary.Seconds() <= linear.segments[k].Start())
          && (linear.segments[k].Finish() <= x || s.nextBoundary.Seconds() <= linear.segments[k].Finish()))
    && (s.nextBoundary == linear.duration
        || exists k :: 0 <= k < |linear.segments| && (s.nextBoundary.Seconds() == linear.segments[k].Start()
                                                    || s.nextBoundary.Seconds() == linear.segments[k].Finish()))
  }

  lemma {:induction false} SegmentsDisjoint(linear: Plan, j: nat, k: nat)
    requires ValidPlan(linear) && j < k < |linear.segments|
    ensures linear.segments[j].Finish() <= linear.segments[k].Start()
    ensures linear.segments[j].Start() < linear.segments[j].Finish()
    ensures linear.segments[k].Start() < linear.segments[k].Finish()
    decreases k
  {
    hide RationalTime.Seconds, Plus;
    SegmentLength(linear.segments[j]);
    SegmentLength(linear.segments[k]);
    if j < k - 1 {
      SegmentsDisjoint(linear, j, k - 1);
    }
  }

  lemma SegmentLength(s: Segment)
    requires s.source.duration != Zero
    ensures s.Start() < s.Finish()
  {
    hide RationalTime.Seconds;
    ZeroSeconds();
    EqualIffSameInstant(s.source.duration, Zero);
    SecondsNonnegative(s.source.duration);
  }

  /** The segment that covers the position has no exact source instant there. */
  ghost predicate SourceOverflows(linear: Plan, position: Time) {
    exists k :: 0 <= k < |linear.segments| && linear.segments[k].Covers(position.Seconds())
                && linear.segments[k].SourceAt(position).None?
  }

  lemma OnlyOneCovers(linear: Plan, position: Time, i: nat)
    requires ValidPlan(linear) && i < |linear.segments| && linear.segments[i].Covers(position.Seconds())
    ensures SourceOverflows(linear, position) <==> linear.segments[i].SourceAt(position).None?
  {
    hide RationalTime.Seconds, ValidPlan, Segment.SourceAt;
    forall k | 0 <= k < |linear.segments| && k != i
      ensures !linear.segments[k].Covers(position.Seconds())
    {
      SegmentsDisjoint(linear, if k < i then k else i, if k < i then i else k);
    }
  }

  lemma NoneCovers(linear: Plan, position: Time, i: nat)
    requires ValidPlan(linear) && i <= |linear.segments|
    requires forall k :: 0 <= k < i ==> linear.segments[k].Finish() <= position.Seconds()
    requires i < |linear.segments| ==> position.Seconds() < linear.segments[i].Start()
    ensures !SourceOverflows(linear, position)
    ensures forall k :: 0 <= k < |linear.segments| ==> !linear.segments[k].Covers(position.Seconds())
  {
    hide RationalTime.Seconds, ValidPlan, Segment.SourceAt;
    forall k | i < k < |linear.segments|
      ensures position.Seconds() < linear.segments[k].Start()
    {
      SegmentsDisjoint(linear, i, k);
    }
  }

  /** `Plan::sample`: a linear scan that stops at the first segment starting after or covering the position. */
  method TakeSample(linear: Plan, position: Time) returns (r: Result<Sample, PlanError>)
    requires ValidPlan(linear)
    ensures r == Failure(OutsideSequence) <==> position.Seconds() > linear.duration.Seconds()
    ensures r == Failure(TimeOverflow) <==>
              position.Seconds() <= linear.duration.Seconds() && SourceOverflows(linear, position)
    ensures r.Success? ==> Sampled(linear, position, r.value)
  {
    hide RationalTime.Seconds, Plus, Minus, SourceOverflows;
    ghost var x := position.Seconds();
    if position.Seconds() > linear.duration.Seconds() {
      return Failure(OutsideSequence);
    }
    for i := 0 to |linear.segments|
      invariant forall k :: 0 <= k < i ==> linear.segments[k].Finish() <= x
      invariant forall k :: 0 <= k < i ==> linear.segments[k].Start() <= x
    {
      var segment := linear.segments[i];
      forall k | i < k < |linear.segments|
        ensures segment.Finish() <= linear.segments[k].Start() < linear.segments[k].Finish()
        ensures segment.Start() < segment.Finish()
      {
        SegmentsDisjoint(linear, i, k);
      }
      SegmentLength(segment);
      if position.Seconds() < segment.position.Seconds() {
        NoneCovers(linear, position, i);
        return Success(Sample(None, Zero, segment.position));
      }
      if position.Seconds() < segment.End().value.Seconds() {
        OnlyOneCovers(linear, position, i);
        var offset := Minus(position, segment.position);
        var source := if offset.None? then None else Plus(segment.source.start, offset.value);
        if source.None? {
          return Failure(TimeOverflow);
        }
        return Success(Sample(Some(i), source.value, segment.End().value));
      }
    }
    NoneCovers(linear, position, |linear.segments|);
    return Success(Sample(None, Zero, linear.duration));
  }

  /** Built from the same tracks, the two plans list the same clips and last equally long. */
  lemma PlansCorrespond(linear: Plan, plan: SequencePlan, tracks: seq<Track>) returns (t: nat)
    requires ValidPlan(linear) && linear.segments != [] && PlansTracks(linear, tracks, plan.media)
    requires SequencePlans.ValidPlan(plan) && Tight(plan)
    requires forall i :: 0 <= i < |tracks| ==> Resolved(tracks[i].clips, plan.media)
    requires plan.layers == LayersOf(tracks, plan.media)
    ensures SameClips(linear, plan, t) && linear.duration == plan.duration
    ensures OnlyPopulated(tracks, t)
  {
    hide RationalTime.Seconds, Plus, FindAsset, Tight, SequencePlans.ValidPlan, ValidPlan;
    t :| OnlyPopulated(tracks, t) && linear.segments == SegmentsOf(tracks[t].clips, plan.media);
    assert plan.layers[t] == LayerOf(tracks[t], plan.media);
    forall i | 0 <= i < |plan.layers| && i != t
      ensures plan.layers[i].clips == []
    {
      assert plan.layers[i] == LayerOf(tracks[i], plan.media);
    }
    assert SameClips(linear, plan, t);
    DurationsEqual(linear, plan, t);
  }

  lemma DurationsEqual(linear: Plan, plan: SequencePlan, t: nat)
    requires ValidPlan(linear) && SequencePlans.ValidPlan(plan) && Tight(plan)
    requires linear.segments != [] && SameClips(linear, plan, t)
    ensures linear.duration == plan.duration
  {
    hide RationalTime.Seconds, Plus, SequencePlans.ValidPlan, ValidPlan;
    ZeroSeconds();
    EqualIffSameInstant(linear.duration, plan.duration);
    var last := |linear.segments| - 1;
    LastFinish(linear, plan, t);
    var i, k :| 0 <= i < |plan.layers| && 0 <= k < |plan.layers[i].clips|
                && plan.layers[i].clips[k].Finish() == plan.duration.Seconds();
    assert i == t && linear.segments[k].Finish() == plan.duration.Seconds();
    if k < last { SegmentsDisjoint(linear, k, last); }
  }

  lemma LastFinish(linear: Plan, plan: SequencePlan, t: nat)
    requires ValidPlan(linear) && SequencePlans.ValidPlan(plan)
    requires linear.segments != [] && SameClips(linear, plan, t)
    ensures linear.duration.Seconds() == linear.segments[|linear.segments| - 1].Finish()
    ensures 0.0 < linear.duration.Seconds() <= plan.duration.Seconds()
  {
    hide RationalTime.Seconds, Plus;
    var last := |linear.segments| - 1;
    assert ValidLayer(plan.layers[t], plan.media, plan.duration);
    assert plan.layers[t].clips[last].Finish() == linear.segments[last].Finish();
    SegmentLength(linear.segments[last]);
    SecondsNonnegative(linear.segments[last].position);
  }

  /**
   On a sequence with one populated, enabled track the layered evaluation and the linear sample agree:
   the same boundary, and the same clip and source instant wherever the evaluation contributes.
   */
  lemma LinearAgrees(linear: Plan, plan: SequencePlan, t: nat, position: Time, s: Sample, e: Evaluation)
    requires ValidPlan(linear) && SequencePlans.ValidPlan(plan) && SameClips(linear, plan, t)
    requires plan.layers[t].playback.enabled
    requires linear.duration == plan.duration && position.Seconds() <= plan.duration.Seconds()
    requires Sampled(linear, position, s) && Evaluated(plan, position, e)
    ensures e.nextBoundary == s.nextBoundary
    ensures e.video.Some? ==> s.segment == Some(e.video.value.clip) && e.video.value.source == s.source
    ensures |e.audio| <= 1
    ensures forall i :: 0 <= i < |e.audio| ==> s.segment == Some(e.audio[i].clip) && e.audio[i].source == s.source
  {
    BoundariesAgree(linear, plan, t, position, s, e);
    ContributionsAgree(linear, plan, t, position, s, e);
  }

  lemma BoundariesAgree(linear: Plan, plan: SequencePlan, t: nat, position: Time, s: Sample, e: Evaluation)
    requires ValidPlan(linear) && SequencePlans.ValidPlan(plan) && SameClips(linear, plan, t)
    requires plan.layers[t].playback.enabled
    requires linear.duration == plan.duration && position.Seconds() <= plan.duration.Seconds()
    requires Sampled(linear, position, s) && Evaluated(plan, position, e)
    ensures e.nextBoundary == s.nextBoundary
  {
    hide RationalTime.Seconds, Plus, PictureAt, SoundsAt;
    EqualIffSameInstant(position, plan.duration);
    EqualIffSameInstant(e.nextBoundary, s.nextBoundary);
    var clips := plan.layers[t].clips;
    assert ValidLayer(plan.layers[t], plan.media, plan.duration);
    forall k | 0 <= k < |clips|
      ensures clips[k].Start() == linear.segments[k].Start() && clips[k].Finish() == linear.segments[k].Finish()
      ensures clips[k].Finish() <= plan.duration.Seconds()
      ensures clips[k].Start() < clips[k].Finish()
    {
      PositiveLength(clips[k]);
    }
    if position.Seconds() < plan.duration.Seconds() {
      assert NoEdgeBetween(plan, |plan.layers|, position.Seconds(), e.nextBoundary.Seconds());
      if e.nextBoundary != plan.duration {
        EqualIffSameInstant(e.nextBoundary, plan.duration);
        assert IsEdge(plan, |plan.layers|, e.nextBoundary.Seconds());
      }
    }
  }

  lemma ShownIsSegment(linear: Plan, plan: SequencePlan, t: nat, position: Time, s: Sample)
    requires ValidPlan(linear) && SameClips(linear, plan, t) && Sampled(linear, position, s)
    ensures Shown(plan.layers[t].clips, position.Seconds()) == s.segment
    ensures forall i :: 0 <= i < |plan.layers| && i != t ==> Shown(plan.layers[i].clips, position.Seconds()).None?
  {
    hide RationalTime.Seconds, Plus;
    var shown := Shown(plan.layers[t].clips, position.Seconds());
    if shown.Some? { assert linear.segments[shown.value].Covers(position.Seconds()); }
    if s.segment.Some? { assert plan.layers[t].clips[s.segment.value].Covers(position.Seconds()); }
    if shown.Some? && shown.value < s.segment.value {
      SegmentsDisjoint(linear, shown.value, s.segment.value);
    } else if shown.Some? && shown.value > s.segment.value {
      SegmentsDisjoint(linear, s.segment.value, shown.value);
    }
  }

  lemma SampledSource(linear: Plan, plan: SequencePlan, t: nat, position: Time, s: Sample)
    requires SameClips(linear, plan, t) && Sampled(linear, position, s) && s.segment.Some?
    ensures s.segment.value < |plan.layers[t].clips|
    ensures s.source.Seconds() == SourceInstant(plan.layers[t].clips[s.segment.value], position.Seconds())
  {
    hide RationalTime.Seconds, Plus;
  }

  lemma ContributionsAgree(linear: Plan, plan: SequencePlan, t: nat, position: Time, s: Sample, e: Evaluation)
    requires ValidPlan(linear) && SequencePlans.ValidPlan(plan) && SameClips(linear, plan, t)
    requires Sampled(linear, position, s) && Evaluated(plan, position, e)
    ensures e.video.Some? ==> s.segment == Some(e.video.value.clip) && e.video.value.source == s.source
    ensures |e.audio| <= 1
    ensures forall i :: 0 <= i < |e.audio| ==> s.segment == Some(e.audio[i].clip) && e.audio[i].source == s.source
  {
    hide RationalTime.Seconds, Plus, IsNextBoundary, Sampled, ValidPlan, SequencePlans.ValidPlan, SourceInstant,
      PictureAt, SoundsAt, SelectStream, Shown, Visible, Heard;
    ShownIsSegment(linear, plan, t, position, s);
    if s.segment.Some? { SampledSource(linear, plan, t, position, s); }
    OnlyLayerContributes(plan, t, position.Seconds(), |plan.layers|);
    if e.video.Some? {
      EqualIffSameInstant(e.video.value.source, s.source);
    }
    if e.audio != [] {
      assert ExactAll(e.audio)[0] == Exact(e.audio[0]);
      EqualIffSameInstant(e.audio[0].source, s.source);
    }
  }

  lemma {:induction false} OnlyLayerContributes(plan: SequencePlan, t: nat, x: real, n: nat)
    requires t < |plan.layers| && n <= |plan.layers|
    requires forall i :: 0 <= i < |plan.layers| && i != t ==> Shown(plan.layers[i].clips, x).None?
    ensures PictureAt(plan, x, n) == if t < n then VideoCue(plan, t, x) else None
    ensures SoundsAt(plan, x, n) == if t < n && AudioCue(plan, t, x).Some? then [AudioCue(plan, t, x).value] else []
  {
    hide RationalTime.Seconds, VideoCue, AudioCue;
    if n > 0 {
      OnlyLayerContributes(plan, t, x, n - 1);
      if n - 1 != t { NothingShown(plan, n - 1, x); }
    }
  }

  lemma NothingShown(plan: SequencePlan, i: nat, x: real)
    requires i < |plan.layers| && Shown(plan.layers[i].clips, x).None?
    ensures VideoCue(plan, i, x).None? && AudioCue(plan, i, x).None?
  {
    hide RationalTime.Seconds, SelectStream;
  }

  // ----- sources fit for preview

  datatype SourceError = Unprobed | BadSource | LegacyStarts | SeveralStreams | Unlocated

  /** A legacy stream whose start is not known to be zero; only sound may leave it unknown. */
  predicate Misaligned(stream: SourceStream, media: MediaKind) {
    if stream.startKnown then stream.startTicks != 0 else media != AudioOnly
  }

  ghost predicate TwoOf(streams: seq<SourceStream>, kind: TrackKind) {
    exists i, j :: 0 <= i < j < |streams| && streams[i].kind == kind && streams[j].kind == kind
  }

  ghost predicate SomeMisaligned(streams: seq<SourceStream>, media: MediaKind) {
    exists i :: 0 <= i < |streams| && Misaligned(streams[i], media)
  }

  ghost predicate HasOriginal(locations: seq<MediaLocation>) {
    exists i :: 0 <= i < |locations| && locations[i].role == Original
  }

  /** Why a source cannot be previewed: the first of its checks that fails, or none. */
  ghost function SourceRefusal(asset: MediaAsset): Option<SourceError> {
    if asset.source.None? then Some(Unprobed)
    else
      var source := asset.source.value;
      if !ValidSource(source) then Some(BadSource)
      else if source.timeMode == LegacyPerStream && SomeMisaligned(source.streams, asset.kind) then Some(LegacyStarts)
      else if TwoOf(source.streams, VideoTrack) || TwoOf(source.streams, AudioTrack) then Some(SeveralStreams)
      else if !HasOriginal(asset.locations) then Some(Unlocated)
      else None
  }

  /** How many streams of one kind were counted: none, one, or more. */
  ghost predicate Counted(streams: seq<SourceStream>, kind: TrackKind, n: nat) {
    && (n == 0 ==> forall i :: 0 <= i < |streams| ==> streams[i].kind != kind)
    && (n > 0 ==> exists i :: 0 <= i < |streams| && streams[i].kind == kind)
    && (n > 1 <==> TwoOf(streams, kind))
  }

  lemma CountedNext(streams: seq<SourceStream>, stream: SourceStream, kind: TrackKind, n: nat)
    requires Counted(streams, kind, n)
    ensures Counted(streams + [stream], kind, if stream.kind == kind then n + 1 else n)
  {
    var all := streams + [stream];
    assert all[|streams|] == stream && forall i :: 0 <= i < |streams| ==> all[i] == streams[i];
  }

  /** The loop of `validate_preview_source` over the streams. */
  method CheckStreams(source: SourceMetadata, media: MediaKind) returns (r: Option<SourceError>)
    ensures r == if source.timeMode == LegacyPerStream && SomeMisaligned(source.streams, media) then Some(LegacyStarts)
                 else if TwoOf(source.streams, VideoTrack) || TwoOf(source.streams, AudioTrack) then
                   Some(SeveralStreams)
                 else None
  {
    hide Counted, TwoOf;
    var video, audio := 0, 0;
    NoneCounted();
    for i := 0 to |source.streams|
      invariant 0 <= video && 0 <= audio
      invariant Counted(source.streams[..i], VideoTrack, video) && Counted(source.streams[..i], AudioTrack, audio)
      invariant source.timeMode == LegacyPerStream ==> forall j :: 0 <= j < i ==> !Misaligned(source.streams[j], media)
    {
      var stream := source.streams[i];
      assert source.streams[..i + 1] == source.streams[..i] + [stream];
      CountedNext(source.streams[..i], stream, VideoTrack, video);
      CountedNext(source.streams[..i], stream, AudioTrack, audio);
      if stream.kind == VideoTrack {
        video := video + 1;
      } else {
        audio := audio + 1;
      }
      if source.timeMode == LegacyPerStream
         && ((stream.startKnown && stream.startTicks != 0) || (!stream.startKnown && media != AudioOnly))
      {
        return Some(LegacyStarts);
      }
    }
    assert source.streams[..|source.streams|] == source.streams;
    CountedTwice(source.streams, VideoTrack, video);
    CountedTwice(source.streams, AudioTrack, audio);
    return if video > 1 || audio > 1 then Some(SeveralStreams) else None;
  }

  lemma NoneCounted()
    ensures Counted([], VideoTrack, 0) && Counted([], AudioTrack, 0)
  {
  }

  lemma CountedTwice(streams: seq<SourceStream>, kind: TrackKind, n: nat)
    requires Counted(streams, kind, n)
    ensures n > 1 <==> TwoOf(streams, kind)
  {
  }

  /** `validate_preview_source`. */
  method ValidatePreviewSource(asset: MediaAsset) returns (r: Result<(), SourceError>)
    ensures r.Failure? <==> SourceRefusal(asset).Some?
    ensures r.Failure? ==> Some(r.error) == SourceRefusal(asset)
  {
    hide ValidSource, TwoOf, SomeMisaligned;
    if asset.source.None? {
      return Failure(Unprobed);
    }
    var sound := Validation.CheckSource(asset.source.value);
    if !sound {
      return Failure(BadSource);
    }
    var refused := CheckStreams(asset.source.value, asset.kind);
    if refused.Some? {
      return Failure(refused.value);
    }
    for i := 0 to |asset.locations|
      invariant forall j :: 0 <= j < i ==> asset.locations[j].role != Original
    {
      if asset.locations[i].role == Original {
        return Success(());
      }
    }
    return Failure(Unlocated);
  }
}
