/** Building playback plans from a validated project: the layered plan and the linear one. */
module PlanBuilder {
  import opened Wrappers
  import opened RationalTimes
  import opened Model
  import opened SequencePlans
  import Validation

  datatype BuildError = InvalidProject | SequenceMissing | SeveralPopulatedTracks | BeyondPreviewLimits

  function FindSequence(sequences: seq<Sequence>, id: uint64): (r: Option<nat>)
    ensures r.Some? ==> r.value < |sequences| && sequences[r.value].id == id
    ensures r.None? ==> forall i :: 0 <= i < |sequences| ==> sequences[i].id != id
  {
    if sequences == [] then None
    else if sequences[0].id == id then Some(0)
    else
      var rest := FindSequence(sequences[1..], id);
      if rest.None? then
        assert forall i :: 0 < i < |sequences| ==> sequences[i] == sequences[1..][i - 1];
        None
      else Some(rest.value + 1)
  }

  // ----- the layered plan

  predicate Resolved(clips: seq<Clip>, media: seq<MediaAsset>) {
    forall k :: 0 <= k < |clips| ==> FindAsset(media, clips[k].media).Some?
  }

  function LayerClipOf(clip: Clip, media: seq<MediaAsset>): LayerClip
    requires FindAsset(media, clip.media).Some?
  {
    LayerClip(clip.id, FindAsset(media, clip.media).value, clip.position, clip.source, clip.routing)
  }

  function LayerOf(track: Track, media: seq<MediaAsset>): Layer
    requires Resolved(track.clips, media)
  {
    Layer(track.id, track.kind, track.playback,
          seq(|track.clips|, k requires 0 <= k < |track.clips| => LayerClipOf(track.clips[k], media)))
  }

  function LayersOf(tracks: seq<Track>, media: seq<MediaAsset>): seq<Layer>
    requires forall i :: 0 <= i < |tracks| ==> Resolved(tracks[i].clips, media)
  {
    seq(|tracks|, i requires 0 <= i < |tracks| => LayerOf(tracks[i], media))
  }

  /** Identities of a track's clips occur as one run among all the project's identities. */
  lemma {:induction false} TrackRun(tracks: seq<Track>, t: nat) returns (o: nat)
    requires t < |tracks|
    ensures o + |tracks[t].clips| <= |TrackIds(tracks)|
    ensures TrackIds(tracks)[o..o + |tracks[t].clips|] == ClipIds(tracks[t].clips)
    decreases t
  {
    if t == 0 {
      o := 1;
    } else {
      var rest := TrackRun(tracks[1..], t - 1);
      o := 1 + |tracks[0].clips| + rest;
      var n := |tracks[t].clips|;
      assert TrackIds(tracks)[1 + |tracks[0].clips|..] == TrackIds(tracks[1..]);
      assert TrackIds(tracks)[o..o + n] == TrackIds(tracks[1..])[rest..rest + n];
    }
  }

  lemma {:induction false} SequenceRun(sequences: seq<Sequence>, s: nat) returns (o: nat)
    requires s < |sequences|
    ensures o + |TrackIds(sequences[s].tracks)| <= |SequenceIds(sequences)|
    ensures SequenceIds(sequences)[o..o + |TrackIds(sequences[s].tracks)|] == TrackIds(sequences[s].tracks)
    decreases s
  {
    hide TrackIds;
    if s == 0 {
      o := 1;
    } else {
      var rest := SequenceRun(sequences[1..], s - 1);
      o := 1 + |TrackIds(sequences[0].tracks)| + rest;
      var n := |TrackIds(sequences[s].tracks)|;
      assert SequenceIds(sequences)[1 + |TrackIds(sequences[0].tracks)|..] == SequenceIds(sequences[1..]);
      assert SequenceIds(sequences)[o..o + n] == SequenceIds(sequences[1..])[rest..rest + n];
    }
  }

  lemma ClipIdentitiesDistinct(project: ProjectSnapshot, s: nat, t: nat)
    requires ValidContent(project) && s < |project.sequences| && t < |project.sequences[s].tracks|
    ensures var clips := project.sequences[s].tracks[t].clips;
            && (forall k :: 0 <= k < |clips| ==> clips[k].id > 0)
            && (forall j, k :: 0 <= j < k < |clips| ==> clips[j].id != clips[k].id)
  {
    hide ValidSequence, ValidAsset, TrackIds, SequenceIds, ObjectIds, NoDuplicates, Allocated;
    var clips := project.sequences[s].tracks[t].clips;
    var a := SequenceRun(project.sequences, s);
    var b := TrackRun(project.sequences[s].tracks, t);
    IdentityOfRun(project, project.sequences[s].tracks, clips, a, b);
  }

  lemma IdentityOfRun(project: ProjectSnapshot, tracks: seq<Track>, clips: seq<Clip>, a: nat, b: nat)
    requires NoDuplicates(ObjectIds(project)) && Allocated(ObjectIds(project), project.nextId)
    requires a + |TrackIds(tracks)| <= |SequenceIds(project.sequences)|
    requires SequenceIds(project.sequences)[a..a + |TrackIds(tracks)|] == TrackIds(tracks)
    requires b + |clips| <= |TrackIds(tracks)| && TrackIds(tracks)[b..b + |clips|] == ClipIds(clips)
    ensures forall k :: 0 <= k < |clips| ==> clips[k].id > 0
    ensures forall j, k :: 0 <= j < k < |clips| ==> clips[j].id != clips[k].id
  {
    hide TrackIds, SequenceIds;
    var ids, o := ObjectIds(project), |project.media| + a + b;
    forall k | 0 <= k < |clips|
      ensures clips[k].id == ids[o + k]
    {
      assert clips[k].id == ClipIds(clips)[k] == TrackIds(tracks)[b + k];
      assert TrackIds(tracks)[b + k] == SequenceIds(project.sequences)[a + b + k];
    }
  }

  lemma LayerIsValid(project: ProjectSnapshot, s: nat, t: nat, duration: Time)
    requires ValidContent(project) && s < |project.sequences| && t < |project.sequences[s].tracks|
    requires forall k :: 0 <= k < |project.sequences[s].tracks[t].clips| ==>
               var c := project.sequences[s].tracks[t].clips[k];
               c.End().Some? ==> c.End().value.Seconds() <= duration.Seconds()
    ensures Resolved(project.sequences[s].tracks[t].clips, project.media)
    ensures ValidLayer(LayerOf(project.sequences[s].tracks[t], project.media), project.media, duration)
  {
    hide RationalTime.Seconds, Plus, ObjectIds, ValidAsset, ValidRouting, ValidText, ValidOutput, FindAsset, Supports;
    var track := project.sequences[s].tracks[t];
    assert ValidSequence(project.sequences[s], project.media);
    assert ValidTrack(track, project.media);
    ClipIdentitiesDistinct(project, s, t);
    forall k | 0 <= k < |track.clips|
      ensures ValidClip(track.clips[k], project.media, track.kind)
    {
    }
  }

  /** One turn of the loop over tracks: the layer, and the duration extended to its last end. */
  method BuildLayer(track: Track, media: seq<MediaAsset>, before: Time) returns (layer: Layer, duration: Time)
    requires Resolved(track.clips, media)
    requires forall k :: 0 <= k < |track.clips| ==> track.clips[k].End().Some?
    ensures layer == LayerOf(track, media)
    ensures EndsBy(track.clips, |track.clips|, duration)
    ensures before.Seconds() <= duration.Seconds()
    ensures duration == before || exists j :: 0 <= j < |layer.clips| && layer.clips[j].Finish() == duration.Seconds()
  {
    hide RationalTime.Seconds, Plus;
    var clips: seq<LayerClip> := [];
    duration := before;
    for k := 0 to |track.clips|
      invariant clips == LayerOf(track, media).clips[..k]
      invariant EndsBy(track.clips, k, duration)
      invariant before.Seconds() <= duration.Seconds()
      invariant duration == before || exists j :: 0 <= j < k && clips[j].Finish() == duration.Seconds()
    {
      var clip := track.clips[k];
      var end := clip.End().value;
      if duration.Seconds() < end.Seconds() {
        duration := end;
      }
      var asset := FindAsset(media, clip.media).value;
      clips := clips + [LayerClip(clip.id, asset, clip.position, clip.source, clip.routing)];
      assert LayerOf(track, media).clips[..k + 1] == clips;
      assert clips[k].Finish() == end.Seconds();
    }
    layer := Layer(track.id, track.kind, track.playback, clips);
  }

  /**
   `make_sequence_plan`. A valid project always yields a valid plan: the layers are the tracks, and the
   duration is the end of the last clip.
   */
  method MakeSequencePlan(project: ProjectSnapshot, id: uint64) returns (r: Result<SequencePlan, BuildError>)
    ensures r == Failure(InvalidProject) <==> !Valid(project)
    ensures r == Failure(SequenceMissing) <==> Valid(project) && FindSequence(project.sequences, id).None?
    ensures r.Success? <==> Valid(project) && FindSequence(project.sequences, id).Some?
    ensures r.Success? ==>
              var sequence := project.sequences[FindSequence(project.sequences, id).value];
              && (forall t :: 0 <= t < |sequence.tracks| ==> Resolved(sequence.tracks[t].clips, project.media))
              && ValidPlan(r.value) && Tight(r.value)
              && r.value == SequencePlan(id, project.revision, r.value.duration, sequence.frameDuration,
                                         sequence.output, project.media,
                                         LayersOf(sequence.tracks, project.media))
  {
    hide RationalTime.Seconds, Plus, Valid, ValidContent, ObjectIds, ValidLayer, FindAsset;
    var valid := Validation.Validate(project);
    if !valid {
      return Failure(InvalidProject);
    }
    var found := FindSequence(project.sequences, id);
    if found.None? {
      return Failure(SequenceMissing);
    }
    var s := found.value;
    var tracks := project.sequences[s].tracks;
    ValidImpliesContent(project);
    var layers: seq<Layer> := [];
    var duration := Zero;
    for t := 0 to |tracks|
      invariant forall i :: 0 <= i < t ==> Resolved(tracks[i].clips, project.media)
      invariant layers == LayersOf(tracks[..t], project.media)
      invariant forall i :: 0 <= i < t ==> EndsBy(tracks[i].clips, |tracks[i].clips|, duration)
      invariant duration == Zero || Reached(layers, duration)
    {
      TrackFacts(project, s, t);
      var layer, extended := BuildLayer(tracks[t], project.media, duration);
      KeepReached(layers, layer, duration, extended);
      assert LayersOf(tracks[..t + 1], project.media) == LayersOf(tracks[..t], project.media) + [layer];
      layers, duration := layers + [layer], extended;
    }
    assert tracks[..|tracks|] == tracks;
    var plan := SequencePlan(id, project.revision, duration, project.sequences[s].frameDuration,
                             project.sequences[s].output, project.media, layers);
    forall t | 0 <= t < |layers|
      ensures ValidLayer(layers[t], project.media, duration)
    {
      LayerIsValid(project, s, t, duration);
    }
    return Success(plan);
  }

  ghost predicate EndsBy(clips: seq<Clip>, n: nat, duration: Time)
    requires n <= |clips|
  {
    forall k :: 0 <= k < n ==> clips[k].End().Some? ==> clips[k].End().value.Seconds() <= duration.Seconds()
  }

  ghost predicate Reached(layers: seq<Layer>, duration: Time) {
    exists i, k :: 0 <= i < |layers| && 0 <= k < |layers[i].clips| && layers[i].clips[k].Finish() == duration.Seconds()
  }

  lemma KeepReached(layers: seq<Layer>, layer: Layer, before: Time, duration: Time)
    requires before == Zero || Reached(layers, before)
    requires duration == before || exists j :: 0 <= j < |layer.clips| && layer.clips[j].Finish() == duration.Seconds()
    ensures duration == Zero || Reached(layers + [layer], duration)
  {
    hide RationalTime.Seconds;
    var all := layers + [layer];
    if duration == before && duration != Zero {
      var i, k :| 0 <= i < |layers| && 0 <= k < |layers[i].clips| && layers[i].clips[k].Finish() == before.Seconds();
      assert all[i].clips[k].Finish() == duration.Seconds();
    } else if duration != before {
      assert all[|layers|] == layer;
    }
  }

  lemma ValidImpliesContent(project: ProjectSnapshot)
    requires Valid(project)
    ensures ValidContent(project)
  {
    hide ValidContent, ValidLog;
  }

  lemma TrackFacts(project: ProjectSnapshot, s: nat, t: nat)
    requires ValidContent(project) && s < |project.sequences| && t < |project.sequences[s].tracks|
    ensures Resolved(project.sequences[s].tracks[t].clips, project.media)
    ensures forall k :: 0 <= k < |project.sequences[s].tracks[t].clips| ==>
              project.sequences[s].tracks[t].clips[k].End().Some?
  {
    hide RationalTime.Seconds, Plus, ObjectIds, ValidAsset, ValidRouting, ValidText, ValidOutput, FindAsset, Supports;
    var track := project.sequences[s].tracks[t];
    assert ValidSequence(project.sequences[s], project.media);
    assert ValidTrack(track, project.media);
    forall k | 0 <= k < |track.clips|
      ensures ValidClip(track.clips[k], project.media, track.kind)
    {
    }
  }
}
