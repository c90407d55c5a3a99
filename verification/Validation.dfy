/**
 `validate` as it runs (`src/project/model.cpp`): one pass over the project that keeps the set of IDs met so
 far, proved to accept exactly the projects that `Model.Valid` describes.
 */
module Validation {
  import opened Wrappers
  import opened RationalTimes
  import opened Model

  predicate GoodIds(ids: seq<uint64>, nextId: uint64) {
    NoDuplicates(ids) && Allocated(ids, nextId)
  }

  lemma BadPrefix(a: seq<uint64>, b: seq<uint64>, nextId: uint64)
    requires a <= b && !GoodIds(a, nextId)
    ensures !GoodIds(b, nextId)
  {
    if !NoDuplicates(a) {
      var i, j :| 0 <= i < j < |a| && a[i] == a[j];
      assert b[i] == b[j];
    } else {
      var i :| 0 <= i < |a| && !(0 < a[i] < nextId);
      assert b[i] == a[i];
    }
  }

  /** The IDs met so far. */
  class Registry {
    const nextId: uint64
    var ids: set<uint64>
    ghost var met: seq<uint64>
    ghost var todo: seq<uint64>

    ghost predicate Valid()
      reads this
    {
      GoodIds(met, nextId) && forall id :: id in ids <==> id in met
    }

    /** Every ID of the project, met or still to be met. */
    ghost function Whole(): seq<uint64>
      reads this
    {
      met + todo
    }

    constructor (nextId: uint64, ghost all: seq<uint64>)
      ensures Valid() && todo == all && Whole() == all && this.nextId == nextId
    {
      this.nextId := nextId;
      ids, met, todo := {}, [], all;
    }

    /** `check_id`. */
    method Check(id: uint64) returns (ok: bool)
      requires Valid() && todo != [] && todo[0] == id
      modifies this
      ensures ok ==> Valid() && todo == old(todo)[1..] && Whole() == old(Whole())
      ensures !ok ==> !GoodIds(old(Whole()), nextId)
    {
      ghost var next := met + [id];
      if id == 0 || id >= nextId || id in ids {
        if id in ids {
          ghost var i :| 0 <= i < |met| && met[i] == id;
          assert next[i] == next[|met|];
        } else {
          assert next[|met|] == id;
        }
        BadPrefix(next, Whole(), nextId);
        return false;
      }
      assert Whole() == next + todo[1..];
      ids := ids + {id};
      met, todo := next, todo[1..];
      return true;
    }
  }

  // ----- texts, sources and routings

  /** `validate_text`. */
  method CheckText(text: string) returns (ok: bool)
    ensures ok <==> ValidText(text)
  {
    if text == "" || |text| > 4096 { return false; }
    for i := 0 to |text|
      invariant forall j :: 0 <= j < i ==> text[j] as int >= 32 && text[j] as int != 127
    {
      if text[i] as int < 32 || text[i] as int == 127 { return false; }
    }
    return true;
  }

  /** The checks of `validate_source` on one stream, but for its index. */
  method CheckStream(stream: SourceStream) returns (ok: bool)
    ensures ok <==> ValidStream(stream)
  {
    hide ValidText, RationalTime.Seconds;
    var codec := CheckText(stream.codec);
    if !codec || stream.timeBase == Zero || stream.durationTicks < -1 || stream.durationTicks == 0
       || (!stream.startKnown && stream.startTicks != 0)
    {
      return false;
    }
    match stream.kind
    case VideoTrack =>
      return stream.width != 0 && stream.height != 0 && stream.sampleRate == 0 && stream.channels == 0;
    case AudioTrack =>
      return && stream.sampleRate != 0 && stream.channels != 0 && stream.width == 0 && stream.height == 0
             && stream.frameDuration == Zero && stream.nominalFrameDuration == Zero;
  }

  /** `validate_source`: the streams with the set of indices met so far, and a duration. */
  method CheckSource(source: SourceMetadata) returns (ok: bool)
    ensures ok <==> ValidSource(source)
  {
    hide ValidText, ValidStream, SourceDuration, RationalTime.Seconds;
    var container := CheckText(source.container);
    var version := CheckText(source.probeVersion);
    var configuration := CheckText(source.probeConfiguration);
    if !container || !version || !configuration { return false; }
    if source.byteSize == 0 || source.streams == [] || |source.streams| > 64 { return false; }
    var indices: set<uint32> := {};
    for i := 0 to |source.streams|
      invariant forall j :: 0 <= j < i ==> ValidStream(source.streams[j])
      invariant forall index :: index in indices <==> exists j :: 0 <= j < i && source.streams[j].index == index
      invariant forall j, k :: 0 <= j < k < i ==> source.streams[j].index != source.streams[k].index
    {
      var stream := source.streams[i];
      var fits := CheckStream(stream);
      if !fits || stream.index in indices { return false; }
      indices := indices + {stream.index};
    }
    var duration := ComputeSourceDuration(source);
    return duration.Some?;
  }

  /** One turn of the loop of `validate_routing`. */
  method CheckSelection(selection: StreamSelection, kind: TrackKind, asset: MediaAsset, track: TrackKind)
    returns (ok: bool)
    ensures ok <==> ValidSelection(selection, kind, asset, track)
    ensures ok <==>
            if selection.mode != Explicit then selection.index == 0
            else
              && (kind == VideoTrack ==> track == VideoTrack) && asset.source.Some?
              && var streams := asset.source.value.streams;
                 exists i :: 0 <= i < |streams| && streams[i].kind == kind && streams[i].index == selection.index
  {
    hide SelectStream;
    if selection.mode != Explicit && selection.index != 0 { return false; }
    if selection.mode == Explicit {
      var stream := ChooseStream(asset, kind, selection);
      if stream.None? || (kind == VideoTrack && track != VideoTrack) { return false; }
    }
    return true;
  }

  /** `validate_routing`. */
  method CheckRouting(routing: ClipRouting, asset: MediaAsset, track: TrackKind) returns (ok: bool)
    ensures ok <==> ValidRouting(routing, asset, track)
  {
    hide ValidSelection;
    ok := CheckSelection(routing.video, VideoTrack, asset, track);
    if ok {
      ok := CheckSelection(routing.audio, AudioTrack, asset, track);
    }
  }

  /** `validate_output`. */
  method CheckOutput(output: SequenceOutput) returns (ok: bool)
    ensures ok <==> ValidOutput(output)
  {
    return !(|| output.width < 2 || output.height < 2 || output.width > 3840 || output.height > 2160
             || output.width % 2 != 0 || output.height % 2 != 0 || output.sampleRate != 48000 || output.channels != 2);
  }

  /** The locations of an asset, with the set of roles met so far. */
  method CheckLocations(locations: seq<MediaLocation>) returns (ok: bool)
    ensures ok <==>
            && (forall i :: 0 <= i < |locations| ==> ValidText(locations[i].uri))
            && (forall i, j :: 0 <= i < j < |locations| ==> locations[i].role != locations[j].role)
  {
    hide ValidText;
    var roles: set<LocationRole> := {};
    for i := 0 to |locations|
      invariant forall j :: 0 <= j < i ==> ValidText(locations[j].uri)
      invariant forall role :: role in roles <==> exists j :: 0 <= j < i && locations[j].role == role
      invariant forall j, k :: 0 <= j < k < i ==> locations[j].role != locations[k].role
    {
      if locations[i].role in roles { return false; }
      roles := roles + {locations[i].role};
      var text := CheckText(locations[i].uri);
      if !text { return false; }
    }
    return true;
  }

  /** The checks on one asset, but for its ID. */
  method CheckAsset(asset: MediaAsset) returns (ok: bool)
    ensures ok <==> ValidAsset(asset)
  {
    hide ValidText, ValidSource, SourceDuration, SourceKind, RationalTime.Seconds;
    var name := CheckText(asset.name);
    if !name || asset.duration == Zero { return false; }
    if asset.source.Some? {
      var source := CheckSource(asset.source.value);
      if !source { return false; }
      var duration := ComputeSourceDuration(asset.source.value);
      var kind := KindOf(asset.source.value);
      if duration != Some(asset.duration) || kind != Some(asset.kind) { return false; }
      var located := false;
      for i := 0 to |asset.locations|
        invariant located <==> exists j :: 0 <= j < i && asset.locations[j].role == Original
      {
        located := located || asset.locations[i].role == Original;
      }
      if !located { return false; }
    }
    ok := CheckLocations(asset.locations);
  }

  // ----- clips and tracks

  /** `std::is_sorted` with `clip_less`. */
  method InTimelineOrder(clips: seq<Clip>) returns (ok: bool)
    ensures ok <==> forall i :: 0 < i < |clips| ==> !ClipLess(clips[i], clips[i - 1])
  {
    hide RationalTime.Seconds;
    for i := 0 to |clips|
      invariant forall k :: 0 < k < i ==> !ClipLess(clips[k], clips[k - 1])
    {
      if i > 0 {
        var a, b := clips[i], clips[i - 1];
        if if a.position == b.position then a.id < b.id else a.position.Seconds() < b.position.Seconds() {
          return false;
        }
      }
    }
    return true;
  }

  predicate ValidClips(track: Track, media: seq<MediaAsset>) {
    && (forall i :: 0 <= i < |track.clips| ==> ValidClip(track.clips[i], media, track.kind))
    && Ordered(track.clips)
  }

  /** The checks on one clip: where it ends, if it is valid and does not begin before the clip in front of it ends. */
  method ClipFits(clip: Clip, media: seq<MediaAsset>, track: TrackKind, previousEnd: Time) returns (end: Option<Time>)
    ensures end.Some? <==> ValidClip(clip, media, track) && previousEnd.Seconds() <= clip.position.Seconds()
    ensures end.Some? ==> end == clip.End()
  {
    hide RationalTime.Seconds, Plus, FindAsset, ValidRouting;
    var asset := FindAsset(media, clip.media);
    if asset.None? { return None; }
    if track == VideoTrack && media[asset.value].kind == AudioOnly { return None; }
    if track == AudioTrack && media[asset.value].kind == VideoOnly { return None; }
    var routed := CheckRouting(clip.routing, media[asset.value], track);
    if !routed { return None; }
    var sourceEnd := clip.source.End();
    if clip.source.duration == Zero || sourceEnd.None? { return None; }
    if sourceEnd.value.Seconds() > media[asset.value].duration.Seconds() { return None; }
    if clip.position.Seconds() < previousEnd.Seconds() { return None; }
    return clip.End();
  }

  method CheckClips(track: Track, media: seq<MediaAsset>, registry: Registry, ghost tail: seq<uint64>)
    returns (ok: bool)
    requires registry.Valid() && registry.todo == ClipIds(track.clips) + tail
    modifies registry
    ensures ok ==> registry.Valid() && registry.todo == tail && registry.Whole() == old(registry.Whole())
    ensures ok ==> ValidClips(track, media)
    ensures !ok ==> !ValidClips(track, media) || !GoodIds(old(registry.Whole()), registry.nextId)
  {
    hide RationalTime.Seconds, Plus, ClipLess, ValidClip, ValidClips, Registry.Whole, Registry.Valid, GoodIds;
    var clips := track.clips;
    var sorted := InTimelineOrder(clips);
    if !sorted {
      UnorderedIsInvalid(track, media);
      return false;
    }
    var previousEnd := Zero;
    assert ClipIds(clips)[0..] == ClipIds(clips);
    for i := 0 to |clips|
      invariant registry.Valid() && registry.todo == ClipIds(clips)[i..] + tail
      invariant registry.Whole() == old(registry.Whole())
      invariant forall k :: 0 <= k < i ==> ValidClip(clips[k], media, track.kind) && Clear(clips, k)
      invariant if i == 0 then previousEnd == Zero else clips[i - 1].End() == Some(previousEnd)
    {
      var clip := clips[i];
      var isNew := registry.Check(clip.id);
      if !isNew { return false; }
      assert ClipIds(clips)[i..][1..] == ClipIds(clips)[i + 1..];
      var end := ClipFits(clip, media, track.kind, previousEnd);
      NotBeforeZero(clip.position);
      if end.None? {
        OneClipInvalid(track, media, i);
        return false;
      }
      previousEnd := end.value;
    }
    AllClipsValid(track, media);
    return true;
  }

  /** A clip begins no earlier than the one in front of it ends. */
  predicate Clear(clips: seq<Clip>, k: nat)
    requires k < |clips|
  {
    k > 0 ==> clips[k - 1].End().Some? && clips[k - 1].End().value.Seconds() <= clips[k].position.Seconds()
  }

  lemma UnorderedIsInvalid(track: Track, media: seq<MediaAsset>)
    requires exists i :: 0 < i < |track.clips| && ClipLess(track.clips[i], track.clips[i - 1])
    ensures !ValidClips(track, media)
  {
    hide RationalTime.Seconds, Plus, ClipLess, FindAsset, ValidRouting;
  }

  lemma OneClipInvalid(track: Track, media: seq<MediaAsset>, i: nat)
    requires i < |track.clips| && (!ValidClip(track.clips[i], media, track.kind) || !Clear(track.clips, i))
    ensures !ValidClips(track, media)
  {
    hide RationalTime.Seconds, Plus, ClipLess, FindAsset, ValidRouting;
  }

  lemma AllClipsValid(track: Track, media: seq<MediaAsset>)
    requires forall i :: 0 < i < |track.clips| ==> !ClipLess(track.clips[i], track.clips[i - 1])
    requires forall i :: 0 <= i < |track.clips| ==>
              ValidClip(track.clips[i], media, track.kind) && Clear(track.clips, i)
    ensures ValidClips(track, media)
  {
    hide RationalTime.Seconds, Plus, ClipLess, FindAsset, ValidRouting;
  }

  lemma NotBeforeZero(t: Time)
    ensures t.Seconds() >= Zero.Seconds()
  {
  }

  method CheckTracks(tracks: seq<Track>, media: seq<MediaAsset>, registry: Registry, ghost tail: seq<uint64>)
    returns (ok: bool)
    requires registry.Valid() && registry.todo == TrackIds(tracks) + tail
    modifies registry
    ensures ok ==> registry.Valid() && registry.todo == tail && registry.Whole() == old(registry.Whole())
    ensures ok ==> forall i :: 0 <= i < |tracks| ==> ValidTrack(tracks[i], media)
    ensures !ok ==>
              (exists i :: 0 <= i < |tracks| && !ValidTrack(tracks[i], media))
              || !GoodIds(old(registry.Whole()), registry.nextId)
  {
    hide RationalTime.Seconds, ValidClips, ClipIds, ValidText, Registry.Whole, Registry.Valid, GoodIds;
    for i := 0 to |tracks|
      invariant registry.Valid() && registry.todo == TrackIds(tracks[i..]) + tail
      invariant registry.Whole() == old(registry.Whole())
      invariant forall k :: 0 <= k < i ==> ValidTrack(tracks[k], media)
    {
      var track := tracks[i];
      TrackIdsFirst(tracks[i..], tail);
      assert tracks[i..][0] == track && tracks[i..][1..] == tracks[i + 1..];
      ValidTrackParts(track, media);
      var isNew := registry.Check(track.id);
      if !isNew { return false; }
      var named := CheckText(track.name);
      if !named || track.playback.gainMilli > 4000 { return false; }
      var clips := CheckClips(track, media, registry, TrackIds(tracks[i + 1..]) + tail);
      if !clips { return false; }
    }
    return true;
  }

  lemma TrackIdsFirst(tracks: seq<Track>, tail: seq<uint64>)
    requires tracks != []
    ensures TrackIds(tracks) + tail == [tracks[0].id] + (ClipIds(tracks[0].clips) + (TrackIds(tracks[1..]) + tail))
  {
  }

  lemma ValidTrackParts(track: Track, media: seq<MediaAsset>)
    ensures ValidTrack(track, media) <==>
            ValidText(track.name) && track.playback.gainMilli <= 4000 && ValidClips(track, media)
  {
  }

  method CheckSequences(sequences: seq<Sequence>, media: seq<MediaAsset>, registry: Registry) returns (ok: bool)
    requires registry.Valid() && registry.todo == SequenceIds(sequences)
    modifies registry
    ensures ok ==> registry.Valid() && registry.todo == [] && registry.Whole() == old(registry.Whole())
    ensures ok ==> forall i :: 0 <= i < |sequences| ==> ValidSequence(sequences[i], media)
    ensures !ok ==>
              (exists i :: 0 <= i < |sequences| && !ValidSequence(sequences[i], media))
              || !GoodIds(old(registry.Whole()), registry.nextId)
  {
    hide RationalTime.Seconds, ValidTrack, TrackIds, ValidText, ValidOutput, Registry.Whole, Registry.Valid, GoodIds;
    for i := 0 to |sequences|
      invariant registry.Valid() && registry.todo == SequenceIds(sequences[i..])
      invariant registry.Whole() == old(registry.Whole())
      invariant forall k :: 0 <= k < i ==> ValidSequence(sequences[k], media)
    {
      var sequence := sequences[i];
      assert sequences[i..][0] == sequence && sequences[i..][1..] == sequences[i + 1..];
      SequenceIdsFirst(sequences[i..]);
      var isNew := registry.Check(sequence.id);
      if !isNew { return false; }
      var named := CheckText(sequence.name);
      var shaped := CheckOutput(sequence.output);
      if !named || !shaped || sequence.frameDuration == Zero { return false; }
      var tracks := CheckTracks(sequence.tracks, media, registry, SequenceIds(sequences[i + 1..]));
      if !tracks { return false; }
    }
    return true;
  }

  lemma SequenceIdsFirst(sequences: seq<Sequence>)
    requires sequences != []
    ensures SequenceIds(sequences) == [sequences[0].id] + (TrackIds(sequences[0].tracks) + SequenceIds(sequences[1..]))
  {
  }

  method CheckMedia(media: seq<MediaAsset>, registry: Registry, ghost tail: seq<uint64>) returns (ok: bool)
    requires registry.Valid() && registry.todo == MediaIds(media) + tail
    modifies registry
    ensures ok ==> registry.Valid() && registry.todo == tail && registry.Whole() == old(registry.Whole())
    ensures ok ==> forall i :: 0 <= i < |media| ==> ValidAsset(media[i])
    ensures !ok ==>
              || (exists i :: 0 <= i < |media| && !ValidAsset(media[i]))
              || !GoodIds(old(registry.Whole()), registry.nextId)
  {
    hide RationalTime.Seconds, ValidAsset, Registry.Whole, Registry.Valid, GoodIds;
    for i := 0 to |media|
      invariant registry.Valid() && registry.todo == MediaIds(media)[i..] + tail
      invariant registry.Whole() == old(registry.Whole())
      invariant forall k :: 0 <= k < i ==> ValidAsset(media[k])
    {
      var isNew := registry.Check(media[i].id);
      if !isNew { return false; }
      assert MediaIds(media)[i..][1..] == MediaIds(media)[i + 1..];
      var fits := CheckAsset(media[i]);
      if !fits { return false; }
    }
    return true;
  }

  /** The checks on one audit record: its numbers, its texts, and what it may refer to. */
  method CheckRecord(operations: seq<OperationRecord>, i: nat) returns (ok: bool)
    requires i < |operations|
    ensures ok <==> ValidRecord(operations, i)
  {
    hide ValidText;
    var operation := operations[i];
    if operation.id != i + 1 || operation.revision != i + 1 { return false; }
    var actor := CheckText(operation.actor.id);
    var caption := CheckText(operation.caption);
    if !actor || !caption { return false; }
    if operation.kind == Edit {
      if operation.target != 0 || operation.actions == [] || |operation.actions| > 1024 { return false; }
    } else if || operation.actions != [] || operation.target == 0 || operation.target >= i + 1
              || operations[operation.target - 1].kind != Edit
    {
      return false;
    }
    for k := 0 to |operation.actions|
      invariant forall j :: 0 <= j < k ==> ValidText(operation.actions[j])
    {
      var action := CheckText(operation.actions[k]);
      if !action { return false; }
    }
    return true;
  }

  /** The audit log: contiguous numbers, and undo and redo only of earlier edits. */
  method CheckLog(project: ProjectSnapshot) returns (ok: bool)
    ensures ok <==> ValidLog(project.revision, project.operations)
  {
    hide ValidRecord;
    if |project.operations| > 10000 || project.revision != |project.operations| { return false; }
    for i := 0 to |project.operations|
      invariant forall k :: 0 <= k < i ==> ValidRecord(project.operations, k)
    {
      var fits := CheckRecord(project.operations, i);
      if !fits { return false; }
    }
    return true;
  }

  /** `validate` accepts exactly the valid projects. */
  method Validate(project: ProjectSnapshot) returns (ok: bool)
    ensures ok <==> Model.Valid(project)
  {
    hide RationalTime.Seconds, ValidAsset, ValidSequence, ValidLog, ValidText, MediaIds, SequenceIds, NoDuplicates;
    hide Allocated;
    if project.id == 0 || project.nextId == 0 { return false; }
    var named := CheckText(project.name);
    if !named { return false; }
    var log := CheckLog(project);
    if !log { return false; }
    var registry := new Registry(project.nextId, ObjectIds(project));
    var media := CheckMedia(project.media, registry, SequenceIds(project.sequences));
    if !media { return false; }
    var sequences := CheckSequences(project.sequences, project.media, registry);
    if !sequences { return false; }
    assert registry.Whole() == registry.met;
    return true;
  }
}
