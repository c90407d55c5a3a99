/** `apply` as it runs: a command edits the vectors of a private copy in place, restores timeline order and validates
    (`src/commands/editor.cpp`). Each step is proved against the value functions of `Commands`. */
module Candidates {
  import opened Wrappers
  import opened RationalTimes
  import opened Model
  import opened PlanBuilder
  import opened Commands
  import Validation

  // ----- the first match is what a search finds

  lemma {:induction false} FirstTrackIn(tracks: seq<Track>, id: uint64, t: nat)
    requires t < |tracks| && tracks[t].id == id && forall i :: 0 <= i < t ==> tracks[i].id != id
    ensures TrackIn(tracks, id) == Some(t)
  {
    if t > 0 {
      FirstTrackIn(tracks[1..], id, t - 1);
    }
  }

  lemma {:induction false} FirstTrack(sequences: seq<Sequence>, id: uint64, s: nat)
    requires s < |sequences| && TrackIn(sequences[s].tracks, id).Some?
    requires forall i :: 0 <= i < s ==> TrackIn(sequences[i].tracks, id).None?
    ensures FindTrack(sequences, id) == Some(TrackPlace(s, TrackIn(sequences[s].tracks, id).value))
  {
    hide TrackIn;
    if s > 0 {
      FirstTrack(sequences[1..], id, s - 1);
    }
  }

  lemma {:induction false} NoTrack(sequences: seq<Sequence>, id: uint64)
    requires forall i :: 0 <= i < |sequences| ==> TrackIn(sequences[i].tracks, id).None?
    ensures FindTrack(sequences, id).None?
  {
    hide TrackIn;
    if sequences != [] {
      NoTrack(sequences[1..], id);
    }
  }

  lemma {:induction false} FirstClipIn(clips: seq<Clip>, id: uint64, k: nat)
    requires k < |clips| && clips[k].id == id && forall i :: 0 <= i < k ==> clips[i].id != id
    ensures ClipIn(clips, id) == Some(k)
  {
    if k > 0 {
      FirstClipIn(clips[1..], id, k - 1);
    }
  }

  lemma {:induction false} NoClipIn(clips: seq<Clip>, id: uint64)
    requires forall i :: 0 <= i < |clips| ==> clips[i].id != id
    ensures ClipIn(clips, id).None?
  {
    if clips != [] {
      NoClipIn(clips[1..], id);
    }
  }

  lemma {:induction false} FirstClipInTracks(tracks: seq<Track>, id: uint64, t: nat)
    requires t < |tracks| && ClipIn(tracks[t].clips, id).Some?
    requires forall i :: 0 <= i < t ==> ClipIn(tracks[i].clips, id).None?
    ensures ClipInTracks(tracks, id) == Some((t, ClipIn(tracks[t].clips, id).value))
  {
    hide ClipIn;
    if t > 0 {
      FirstClipInTracks(tracks[1..], id, t - 1);
    }
  }

  lemma {:induction false} NoClipInTracks(tracks: seq<Track>, id: uint64)
    requires forall i :: 0 <= i < |tracks| ==> ClipIn(tracks[i].clips, id).None?
    ensures ClipInTracks(tracks, id).None?
  {
    hide ClipIn;
    if tracks != [] {
      NoClipInTracks(tracks[1..], id);
    }
  }

  lemma {:induction false} FirstClip(sequences: seq<Sequence>, id: uint64, s: nat)
    requires s < |sequences| && ClipInTracks(sequences[s].tracks, id).Some?
    requires forall i :: 0 <= i < s ==> ClipInTracks(sequences[i].tracks, id).None?
    ensures var here := ClipInTracks(sequences[s].tracks, id).value;
            FindClip(sequences, id) == Some(ClipPlace(s, here.0, here.1))
  {
    hide ClipInTracks;
    if s > 0 {
      FirstClip(sequences[1..], id, s - 1);
    }
  }

  lemma {:induction false} NoClip(sequences: seq<Sequence>, id: uint64)
    requires forall i :: 0 <= i < |sequences| ==> ClipInTracks(sequences[i].tracks, id).None?
    ensures FindClip(sequences, id).None?
  {
    hide ClipInTracks;
    if sequences != [] {
      NoClip(sequences[1..], id);
    }
  }

  /** `find_track`. */
  method PlaceOfTrack(sequences: seq<Sequence>, id: uint64) returns (place: Option<TrackPlace>)
    ensures place == FindTrack(sequences, id)
  {
    hide TrackIn, FindTrack;
    for s := 0 to |sequences|
      invariant forall i :: 0 <= i < s ==> TrackIn(sequences[i].tracks, id).None?
    {
      var tracks := sequences[s].tracks;
      for t := 0 to |tracks|
        invariant forall i :: 0 <= i < t ==> tracks[i].id != id
      {
        if tracks[t].id == id {
          FirstTrackIn(tracks, id, t);
          FirstTrack(sequences, id, s);
          return Some(TrackPlace(s, t));
        }
      }
    }
    NoTrack(sequences, id);
    return None;
  }

  /** `find_clip`. */
  method PlaceOfClip(sequences: seq<Sequence>, id: uint64) returns (place: Option<ClipPlace>)
    ensures place == FindClip(sequences, id)
  {
    hide ClipIn, ClipInTracks, FindClip;
    for s := 0 to |sequences|
      invariant forall i :: 0 <= i < s ==> ClipInTracks(sequences[i].tracks, id).None?
    {
      var tracks := sequences[s].tracks;
      for t := 0 to |tracks|
        invariant forall i :: 0 <= i < t ==> ClipIn(tracks[i].clips, id).None?
      {
        var clips := tracks[t].clips;
        for k := 0 to |clips|
          invariant forall i :: 0 <= i < k ==> clips[i].id != id
        {
          if clips[k].id == id {
            FirstClipIn(clips, id, k);
            FirstClipInTracks(tracks, id, t);
            FirstClip(sequences, id, s);
            return Some(ClipPlace(s, t, k));
          }
        }
        NoClipIn(clips, id);
      }
      NoClipInTracks(tracks, id);
    }
    NoClip(sequences, id);
    return None;
  }

  lemma {:induction false} FirstLocation(locations: seq<MediaLocation>, role: LocationRole, i: nat)
    requires i <= |locations| && forall j :: 0 <= j < i ==> locations[j].role != role
    requires i < |locations| ==> locations[i].role == role
    ensures LocationIn(locations, role) == if i < |locations| then Some(i) else None
  {
    if i > 0 {
      FirstLocation(locations[1..], role, i - 1);
    }
  }

  /** The search for the location in a role. */
  method PlaceOfLocation(locations: seq<MediaLocation>, role: LocationRole) returns (place: Option<nat>)
    ensures place == LocationIn(locations, role)
  {
    hide LocationIn;
    for i := 0 to |locations|
      invariant forall j :: 0 <= j < i ==> locations[j].role != role
    {
      if locations[i].role == role {
        FirstLocation(locations, role, i);
        return Some(i);
      }
    }
    FirstLocation(locations, role, |locations|);
    return None;
  }

  class Candidate {
    var project: ProjectSnapshot

    constructor (project: ProjectSnapshot)
      ensures this.project == project
    {
      this.project := project;
    }

    /** What a command made of the project, or nothing; a failed candidate is dropped by its owner. */
    ghost predicate Did(edited: Edited, r: Option<CommandResult>)
      reads this
    {
      if r.None? then edited.None? else edited == Some((project, r.value))
    }

    method TakeId() returns (id: Option<uint64>)
      modifies this
      ensures if id.None? then Allocate(old(project)).None? && project == old(project)
              else Allocate(old(project)) == Some((id.value, project))
    {
      if project.nextId == 0xffff_ffff_ffff_ffff { return None; }
      id := Some(project.nextId);
      project := project.(nextId := project.nextId + 1);
    }

    method SetTracks(s: nat, tracks: seq<Track>)
      requires s < |project.sequences|
      modifies this
      ensures project == WithTracks(old(project), s, tracks)
    {
      project := project.(sequences := project.sequences[s := project.sequences[s].(tracks := tracks)]);
    }

    method SetClips(s: nat, t: nat, clips: seq<Clip>)
      requires s < |project.sequences| && t < |project.sequences[s].tracks|
      modifies this
      ensures project == WithClips(old(project), s, t, clips)
    {
      var tracks := project.sequences[s].tracks;
      SetTracks(s, tracks[t := tracks[t].(clips := clips)]);
    }

    // ----- commands on structure

    method CreateSequence(name: string, frameDuration: Time) returns (r: Option<CommandResult>)
      modifies this
      ensures Did(EditStructure(old(project), Command.CreateSequence(name, frameDuration)), r)
    {
      var id :- TakeId();
      var sequence := Sequence(id, name, frameDuration, [], SequenceOutput(1920, 1080, 48000, 2));
      project := project.(sequences := project.sequences + [sequence]);
      return Some(NOTHING.(sequence := Some(id)));
    }

    method CreateTrack(sequence: uint64, kind: TrackKind, name: string) returns (r: Option<CommandResult>)
      modifies this
      ensures Did(EditStructure(old(project), Command.CreateTrack(sequence, kind, name)), r)
    {
      var s :- FindSequence(project.sequences, sequence);
      var id :- TakeId();
      SetTracks(s, project.sequences[s].tracks + [Track(id, name, kind, [], TrackPlayback(true, false, 1000))]);
      return Some(NOTHING.(track := Some(id)));
    }

    method DeleteTrack(track: uint64) returns (r: Option<CommandResult>)
      modifies this
      ensures Did(EditStructure(old(project), Command.DeleteTrack(track)), r)
    {
      var place :- PlaceOfTrack(project.sequences, track);
      var tracks := project.sequences[place.s].tracks;
      SetTracks(place.s, tracks[..place.t] + tracks[place.t + 1..]);
      return Some(NOTHING);
    }

    method ReorderTrack(sequence: uint64, track: uint64, index: nat) returns (r: Option<CommandResult>)
      modifies this
      ensures Did(EditStructure(old(project), Command.ReorderTrack(sequence, track, index)), r)
    {
      var s :- FindSequence(project.sequences, sequence);
      var tracks := project.sequences[s].tracks;
      if index >= |tracks| { return None; }
      var t :- TrackIn(tracks, track);
      var moved := tracks[t];
      tracks := tracks[..t] + tracks[t + 1..];
      SetTracks(s, tracks[..index] + [moved] + tracks[index..]);
      return Some(NOTHING);
    }

    method SetSequenceOutput(sequence: uint64, frameDuration: Time, output: SequenceOutput)
      returns (r: Option<CommandResult>)
      modifies this
      ensures Did(EditStructure(old(project), Command.SetSequenceOutput(sequence, frameDuration, output)), r)
    {
      var s :- FindSequence(project.sequences, sequence);
      project := project.(sequences :=
        project.sequences[s := project.sequences[s].(frameDuration := frameDuration, output := output)]);
      return Some(NOTHING);
    }

    method SetTrackPlayback(track: uint64, playback: TrackPlayback) returns (r: Option<CommandResult>)
      modifies this
      ensures Did(EditStructure(old(project), Command.SetTrackPlayback(track, playback)), r)
    {
      var place :- PlaceOfTrack(project.sequences, track);
      var tracks := project.sequences[place.s].tracks;
      SetTracks(place.s, tracks[place.t := tracks[place.t].(playback := playback)]);
      return Some(NOTHING);
    }

    // ----- commands on media

    method SetAsset(a: nat, asset: MediaAsset)
      requires a < |project.media|
      modifies this
      ensures project == old(project).(media := old(project).media[a := asset])
    {
      project := project.(media := project.media[a := asset]);
    }

    /** Gives an asset a location in a role, or takes it away. */
    method Locate(a: nat, role: LocationRole, uri: Option<string>)
      requires a < |project.media|
      modifies this
      ensures var asset := old(project).media[a];
              var locations := if uri.None? then Unlocated(asset.locations, role)
                               else Located(asset.locations, role, uri.value);
              project == old(project).(media := old(project).media[a := asset.(locations := locations)])
    {
      hide LocationIn;
      var locations := project.media[a].locations;
      var found := PlaceOfLocation(locations, role);
      if uri.None? {
        if found.Some? {
          locations := locations[..found.value] + locations[found.value + 1..];
        }
      } else if found.None? {
        locations := locations + [MediaLocation(role, uri.value)];
      } else {
        locations := locations[found.value := locations[found.value].(uri := uri.value)];
      }
      SetAsset(a, project.media[a].(locations := locations));
    }

    /** `RelinkMedia`: without its original file an asset is unverified. */
    method RelinkMedia(media: uint64, role: LocationRole, uri: Option<string>) returns (r: Option<CommandResult>)
      modifies this
      ensures Did(EditMedia(old(project), Command.RelinkMedia(media, role, uri)), r)
    {
      hide RationalTime.Seconds, Located, Unlocated;
      var a :- FindAsset(project.media, media);
      if role == Original {
        SetAsset(a, project.media[a].(source := None));
      }
      Locate(a, role, uri);
      assert project.media == old(project).media[a := RelinkedAsset(old(project).media[a], role, uri)];
      return Some(NOTHING);
    }

    /** `ReplaceMediaSource`: the new file, with the time convention the asset had. */
    method ReplaceMediaSource(media: uint64, uri: string, source: SourceMetadata) returns (r: Option<CommandResult>)
      modifies this
      ensures Did(EditMedia(old(project), Command.ReplaceMediaSource(media, uri, source)), r)
    {
      hide RationalTime.Seconds, ValidSource, SourceKind, SourceDuration, Located, IsExtreme, FindAsset;
      var sound := Validation.CheckSource(source);
      if !sound { return None; }
      var a :- FindAsset(project.media, media);
      var kind := KindOf(source);
      if kind != Some(project.media[a].kind) { return None; }
      Locate(a, Original, Some(uri));
      var replacement, before := source, project.media[a].source;
      if before.Some? {
        if before.value.timeMode == SharedOrigin && replacement.timeMode != SharedOrigin { return None; }
        replacement := replacement.(timeMode := before.value.timeMode);
      }
      var duration := ComputeSourceDuration(replacement);
      if duration.None? { return None; }
      SetAsset(a, project.media[a].(duration := duration.value, source := Some(replacement)));
      assert project.media == old(project).media[a := ReplacedAsset(old(project).media[a], uri, source).value];
      return Some(NOTHING.(media := Some(media)));
    }

    method RegisterMedia(name: string, kind: MediaKind, duration: Time, locations: seq<MediaLocation>,
                         metadata: Option<SourceMetadata>)
      returns (r: Option<CommandResult>)
      modifies this
      ensures Did(EditMedia(old(project), Command.RegisterMedia(name, kind, duration, locations, metadata)), r)
    {
      var id :- TakeId();
      project := project.(media := project.media + [MediaAsset(id, name, kind, duration, locations, metadata)]);
      return Some(NOTHING.(media := Some(id)));
    }

    method EditOneMedia(command: Command) returns (r: Option<CommandResult>)
      requires command.RegisterMedia? || command.RelinkMedia? || command.ReplaceMediaSource?
      modifies this
      ensures Did(EditMedia(old(project), command), r)
    {
      hide EditMedia;
      match command
      case RegisterMedia(name, kind, duration, locations, metadata) =>
        r := RegisterMedia(name, kind, duration, locations, metadata);
      case RelinkMedia(media, role, uri) => r := RelinkMedia(media, role, uri);
      case ReplaceMediaSource(media, uri, source) => r := ReplaceMediaSource(media, uri, source);
    }

    // ----- commands on clips

    method InsertClip(track: uint64, media: uint64, position: Time, range: TimeRange, routing: ClipRouting)
      returns (r: Option<CommandResult>)
      modifies this
      ensures Did(EditClips(old(project), Command.InsertClip(track, media, position, range, routing)), r)
    {
      var place :- PlaceOfTrack(project.sequences, track);
      var id :- TakeId();
      var clips := project.sequences[place.s].tracks[place.t].clips;
      SetClips(place.s, place.t, clips + [Clip(id, media, position, range, routing)]);
      return Some(NOTHING.(clip := Some(id)));
    }

    /** The clip is erased first and then appended to its destination, which may be the same track. */
    method MoveClip(clip: uint64, track: uint64, position: Time) returns (r: Option<CommandResult>)
      modifies this
      ensures Did(EditClips(old(project), Command.MoveClip(clip, track, position)), r)
    {
      hide RationalTime.Seconds;
      var from :- PlaceOfClip(project.sequences, clip);
      var to :- PlaceOfTrack(project.sequences, track);
      var moved := project.sequences[from.s].tracks[from.t].clips[from.k].(position := position);
      var clips := project.sequences[from.s].tracks[from.t].clips;
      SetClips(from.s, from.t, clips[..from.k] + clips[from.k + 1..]);
      SetClips(to.s, to.t, project.sequences[to.s].tracks[to.t].clips + [moved]);
      return Some(NOTHING);
    }

    method TrimClip(clip: uint64, position: Time, range: TimeRange) returns (r: Option<CommandResult>)
      modifies this
      ensures Did(EditClips(old(project), Command.TrimClip(clip, position, range)), r)
    {
      hide RationalTime.Seconds;
      var place :- PlaceOfClip(project.sequences, clip);
      var clips := project.sequences[place.s].tracks[place.t].clips;
      SetClips(place.s, place.t, clips[place.k := clips[place.k].(position := position, source := range)]);
      return Some(NOTHING);
    }

    method SplitClip(clip: uint64, position: Time) returns (r: Option<CommandResult>)
      modifies this
      ensures Did(EditClips(old(project), Command.SplitClip(clip, position)), r)
    {
      hide RationalTime.Seconds, FindClip;
      var place :- PlaceOfClip(project.sequences, clip);
      var clips := project.sequences[place.s].tracks[place.t].clips;
      var id :- TakeId();
      var left := clips[place.k];
      var end :- left.End();
      if position.Seconds() <= left.position.Seconds() || position.Seconds() >= end.Seconds() { return None; }
      var offset :- Minus(position, left.position);
      var start :- Plus(left.source.start, offset);
      var rest :- Minus(left.source.duration, offset);
      var right := Clip(id, left.media, position, TimeRange(start, rest), left.routing);
      SetClips(place.s, place.t, clips[place.k := left.(source := left.source.(duration := offset))] + [right]);
      return Some(NOTHING.(clip := Some(id)));
    }

    method DeleteClip(clip: uint64) returns (r: Option<CommandResult>)
      modifies this
      ensures Did(EditClips(old(project), Command.DeleteClip(clip)), r)
    {
      var place :- PlaceOfClip(project.sequences, clip);
      var clips := project.sequences[place.s].tracks[place.t].clips;
      SetClips(place.s, place.t, clips[..place.k] + clips[place.k + 1..]);
      return Some(NOTHING);
    }

    method SetClipRouting(clip: uint64, routing: ClipRouting) returns (r: Option<CommandResult>)
      modifies this
      ensures Did(EditClips(old(project), Command.SetClipRouting(clip, routing)), r)
    {
      var place :- PlaceOfClip(project.sequences, clip);
      var clips := project.sequences[place.s].tracks[place.t].clips;
      SetClips(place.s, place.t, clips[place.k := clips[place.k].(routing := routing)]);
      return Some(NOTHING);
    }

    // ----- the whole command

    method EditOneClip(command: Command) returns (r: Option<CommandResult>)
      requires command.InsertClip? || command.MoveClip? || command.TrimClip? || command.SplitClip?
               || command.DeleteClip? || command.SetClipRouting?
      modifies this
      ensures Did(EditClips(old(project), command), r)
    {
      hide EditClips;
      match command
      case InsertClip(track, media, position, range, routing) =>
        r := InsertClip(track, media, position, range, routing);
      case MoveClip(clip, track, position) => r := MoveClip(clip, track, position);
      case TrimClip(clip, position, range) => r := TrimClip(clip, position, range);
      case SplitClip(clip, position) => r := SplitClip(clip, position);
      case DeleteClip(clip) => r := DeleteClip(clip);
      case SetClipRouting(clip, routing) => r := SetClipRouting(clip, routing);
    }

    method EditOneStructure(command: Command) returns (r: Option<CommandResult>)
      requires command.CreateSequence? || command.CreateTrack? || command.DeleteTrack? || command.ReorderTrack?
               || command.SetSequenceOutput? || command.SetTrackPlayback?
      modifies this
      ensures Did(EditStructure(old(project), command), r)
    {
      hide EditStructure;
      match command
      case CreateSequence(name, frameDuration) => r := CreateSequence(name, frameDuration);
      case CreateTrack(sequence, kind, name) => r := CreateTrack(sequence, kind, name);
      case DeleteTrack(track) => r := DeleteTrack(track);
      case ReorderTrack(sequence, track, index) => r := ReorderTrack(sequence, track, index);
      case SetSequenceOutput(sequence, frameDuration, output) =>
        r := SetSequenceOutput(sequence, frameDuration, output);
      case SetTrackPlayback(track, playback) => r := SetTrackPlayback(track, playback);
    }

    method Edit(command: Command) returns (r: Option<CommandResult>)
      modifies this
      ensures Did(Commands.Edit(old(project), command), r)
    {
      hide EditStructure, EditMedia, EditClips;
      if command.RegisterMedia? || command.RelinkMedia? || command.ReplaceMediaSource? {
        r := EditOneMedia(command);
      } else if || command.InsertClip? || command.MoveClip? || command.TrimClip?
                || command.SplitClip? || command.DeleteClip?
                || command.SetClipRouting?
      {
        r := EditOneClip(command);
      } else {
        r := EditOneStructure(command);
      }
    }

    /** The inner loop of `sort_tracks`. */
    method SortOne(s: nat)
      requires s < |project.sequences|
      modifies this
      ensures project == WithTracks(old(project), s, SortTracks(old(project).sequences[s].tracks))
    {
      hide SortClips;
      ghost var before := project;
      var tracks := project.sequences[s].tracks;
      for t := 0 to |tracks|
        invariant s < |project.sequences| && |project.sequences[s].tracks| == |tracks|
        invariant project == WithTracks(before, s, project.sequences[s].tracks)
        invariant forall i :: 0 <= i < t ==>
                  project.sequences[s].tracks[i] == tracks[i].(clips := SortClips(tracks[i].clips))
        invariant forall i :: t <= i < |tracks| ==> project.sequences[s].tracks[i] == tracks[i]
      {
        SetClips(s, t, SortClips(tracks[t].clips));
      }
      assert project.sequences[s].tracks == SortTracks(tracks);
    }

    /** `sort_tracks`. */
    method Sort()
      modifies this
      ensures project == old(project).(sequences := SortSequences(old(project).sequences))
    {
      hide SortTracks;
      var all := project.sequences;
      for s := 0 to |all|
        invariant |project.sequences| == |all| && project == old(project).(sequences := project.sequences)
        invariant forall i :: 0 <= i < s ==> project.sequences[i] == all[i].(tracks := SortTracks(all[i].tracks))
        invariant forall i :: s <= i < |all| ==> project.sequences[i] == all[i]
      {
        SortOne(s);
      }
      assert project.sequences == SortSequences(all);
    }

    /** `apply`. */
    method Apply(command: Command) returns (r: Option<CommandResult>)
      modifies this
      ensures Did(Commands.Apply(old(project), command), r)
    {
      hide Commands.Edit, SortSequences, Model.Valid;
      var result :- Edit(command);
      Sort();
      var valid := Validation.Validate(project);
      if !valid { return None; }
      return Some(result);
    }
  }
}
