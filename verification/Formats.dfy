/** The five versions of the native format, written down apart from the program that reads and writes them
    (`docs/native-format-v1.md` to `docs/native-format.md`): what the text of each version holds, and the project
    that it stands for. Version 2 added the audit log, version 3 source metadata, version 4 the shared clock and
    duration estimates, version 5 stream routing, track playback and sequence output. */
module Formats {
  import opened Wrappers
  import opened RationalTimes
  import opened SourceTimes
  import opened Model
  import opened Lexing
  import opened Persistence

  // ----- numbers for enumerations

  function TrackNumber(kind: TrackKind): uint32 { if kind.VideoTrack? then 0 else 1 }

  function MediaNumber(kind: MediaKind): uint32 {
    if kind.VideoOnly? then 0 else if kind.AudioOnly? then 1 else 2
  }

  function RoleNumber(role: LocationRole): uint32 { if role.Original? then 0 else 1 }

  function ClockNumber(mode: SourceTimeMode): uint32 { if mode.LegacyPerStream? then 0 else 1 }

  function RouteNumber(mode: StreamMode): uint32 {
    if mode.Automatic? then 0 else if mode.Disabled? then 1 else 2
  }

  function ChangeNumber(kind: ChangeKind): uint32 { if kind.Edit? then 0 else if kind.Undo? then 1 else 2 }

  function ActorNumber(kind: ActorKind): uint32 { if kind.Human? then 0 else if kind.Agent? then 1 else 2 }

  function YesNo(b: bool): uint32 { if b then 1 else 0 }

  // ----- the text of a version

  function TimeText(t: Time, blank: Blank, tail: Doc): Doc {
    Num(t.value, ' ', Num(t.rate, blank, tail))
  }

  function LocationsText(locations: seq<MediaLocation>, tail: Doc): Doc {
    if locations == [] then tail
    else Tag("LOCATION", ' ', Num(RoleNumber(locations[0].role), ' ', Text(locations[0].uri, '\n',
           LocationsText(locations[1..], tail))))
  }

  function EstimateText(version: int, s: SourceStream, tail: Doc): Doc {
    if version >= 4 then TimeText(s.durationEstimate, '\n', tail) else tail
  }

  function StreamText(version: int, s: SourceStream, tail: Doc): Doc {
    Tag("STREAM", ' ', Num(s.index, ' ', Num(TrackNumber(s.kind), ' ', Text(s.codec, ' ',
      TimeText(s.timeBase, ' ', Num(s.durationTicks, ' ', Num(YesNo(s.startKnown), ' ', Num(s.startTicks, ' ',
        TimeText(s.frameDuration, ' ', TimeText(s.nominalFrameDuration, ' ',
          Num(s.width, ' ', Num(s.height, ' ', Num(s.sampleRate, ' ',
            Num(s.channels, if version >= 4 then ' ' else '\n', EstimateText(version, s, tail)))))))))))))))
  }

  function StreamsText(version: int, streams: seq<SourceStream>, tail: Doc): Doc {
    if streams == [] then tail else StreamText(version, streams[0], StreamsText(version, streams[1..], tail))
  }

  function StartText(start: Option<SourceTime>, tail: Doc): Doc {
    if start.None? then Num(0, '\n', tail)
    else
      var t := start.value;
      Num(1, ' ', Num(if t.negative then -t.magnitude.value else t.magnitude.value, ' ',
        Num(t.magnitude.rate, '\n', tail)))
  }

  function ClockText(version: int, m: SourceMetadata, tail: Doc): Doc {
    if version <= 3 then tail
    else Tag("CLOCK", ' ', Num(ClockNumber(m.timeMode), ' ', StartText(m.containerStart, tail)))
  }

  function MetadataText(version: int, m: SourceMetadata, tail: Doc): Doc {
    Tag("METADATA", ' ', Text(m.container, ' ', Text(m.probeVersion, ' ', Text(m.probeConfiguration, ' ',
      Num(m.byteSize, ' ', TimeText(m.containerDuration, ' ', Num(|m.streams|, '\n',
        ClockText(version, m, StreamsText(version, m.streams, tail)))))))))
  }

  function SourceText(version: int, source: Option<SourceMetadata>, tail: Doc): Doc {
    if version <= 2 then tail
    else if source.None? then Tag("SOURCE", ' ', Num(0, '\n', tail))
    else Tag("SOURCE", ' ', Num(1, '\n', MetadataText(version, source.value, tail)))
  }

  function AssetText(version: int, a: MediaAsset, tail: Doc): Doc {
    Tag("ASSET", ' ', Num(a.id, ' ', Num(MediaNumber(a.kind), ' ', Text(a.name, ' ', TimeText(a.duration, ' ',
      Num(|a.locations|, '\n', LocationsText(a.locations, SourceText(version, a.source, tail))))))))
  }

  function AssetsText(version: int, assets: seq<MediaAsset>, tail: Doc): Doc {
    if assets == [] then tail else AssetText(version, assets[0], AssetsText(version, assets[1..], tail))
  }

  function RoutingText(version: int, r: ClipRouting, tail: Doc): Doc {
    if version <= 4 then tail
    else Tag("ROUTING", ' ', Num(RouteNumber(r.video.mode), ' ', Num(r.video.index, ' ',
           Num(RouteNumber(r.audio.mode), ' ', Num(r.audio.index, '\n', tail)))))
  }

  function ClipText(version: int, c: Clip, tail: Doc): Doc {
    Tag("CLIP", ' ', Num(c.id, ' ', Num(c.media, ' ', TimeText(c.position, ' ', TimeText(c.source.start, ' ',
      TimeText(c.source.duration, '\n', RoutingText(version, c.routing, tail)))))))
  }

  function ClipsText(version: int, clips: seq<Clip>, tail: Doc): Doc {
    if clips == [] then tail else ClipText(version, clips[0], ClipsText(version, clips[1..], tail))
  }

  function PlaybackText(version: int, p: TrackPlayback, tail: Doc): Doc {
    if version <= 4 then tail
    else Tag("PLAYBACK", ' ', Num(YesNo(p.enabled), ' ', Num(YesNo(p.muted), ' ', Num(p.gainMilli, '\n', tail))))
  }

  function TrackText(version: int, t: Track, tail: Doc): Doc {
    Tag("TRACK", ' ', Num(t.id, ' ', Num(TrackNumber(t.kind), ' ', Text(t.name, ' ', Num(|t.clips|, '\n',
      PlaybackText(version, t.playback, ClipsText(version, t.clips, tail)))))))
  }

  function TracksText(version: int, tracks: seq<Track>, tail: Doc): Doc {
    if tracks == [] then tail else TrackText(version, tracks[0], TracksText(version, tracks[1..], tail))
  }

  function OutputText(version: int, o: SequenceOutput, tail: Doc): Doc {
    if version <= 4 then tail
    else Tag("OUTPUT", ' ', Num(o.width, ' ', Num(o.height, ' ', Num(o.sampleRate, ' ', Num(o.channels, '\n', tail)))))
  }

  function SequenceText(version: int, s: Sequence, tail: Doc): Doc {
    Tag("SEQUENCE", ' ', Num(s.id, ' ', Text(s.name, ' ', TimeText(s.frameDuration, ' ', Num(|s.tracks|, '\n',
      OutputText(version, s.output, TracksText(version, s.tracks, tail)))))))
  }

  function SequencesText(version: int, sequences: seq<Sequence>, tail: Doc): Doc {
    if sequences == [] then tail
    else SequenceText(version, sequences[0], SequencesText(version, sequences[1..], tail))
  }

  function ActionsText(actions: seq<string>, tail: Doc): Doc {
    if actions == [] then tail else Tag("ACTION", ' ', Text(actions[0], '\n', ActionsText(actions[1..], tail)))
  }

  function OperationText(o: OperationRecord, tail: Doc): Doc {
    Tag("OP", ' ', Num(o.id, ' ', Num(o.revision, ' ', Num(ChangeNumber(o.kind), ' ', Num(o.target, ' ',
      Num(ActorNumber(o.actor.kind), ' ', Text(o.actor.id, ' ', Text(o.caption, ' ', Num(|o.actions|, '\n',
        ActionsText(o.actions, tail))))))))))
  }

  function OperationsText(operations: seq<OperationRecord>, tail: Doc): Doc {
    if operations == [] then tail else OperationText(operations[0], OperationsText(operations[1..], tail))
  }

  function AuditText(version: int, p: ProjectSnapshot, tail: Doc): Doc {
    if version <= 1 then tail
    else Tag("AUDIT", ' ', Num(p.revision, ' ', Num(|p.operations|, '\n', OperationsText(p.operations, tail))))
  }

  function TimelineText(version: int, p: ProjectSnapshot): Doc {
    Tag("SEQUENCES", ' ', Num(|p.sequences|, '\n',
      SequencesText(version, p.sequences, AuditText(version, p, Tag("END", '\n', Done)))))
  }

  function MediaText(version: int, p: ProjectSnapshot): Doc {
    Tag("MEDIA", ' ', Num(|p.media|, '\n', AssetsText(version, p.media, TimelineText(version, p))))
  }

  function VersionDoc(version: int, p: ProjectSnapshot): Doc {
    Tag("NLE_PROJECT", ' ', Num(version, '\n',
      Tag("PROJECT", ' ', Num(p.id, ' ', Num(p.nextId, ' ', Text(p.name, '\n', MediaText(version, p)))))))
  }

  /** The bytes that version `version` of the program wrote for a project. */
  function VersionText(version: int, p: ProjectSnapshot): string {
    Render(VersionDoc(version, p))
  }

  // ----- the project such a text stands for

  function HeldStream(version: int, s: SourceStream): SourceStream {
    if version <= 3 then s.(durationEstimate := RationalTime(0, 1)) else s
  }

  function HeldMetadata(version: int, m: SourceMetadata): SourceMetadata {
    if version <= 3 then
      m.(timeMode := LegacyPerStream, containerStart := None,
         streams := seq(|m.streams|, i requires 0 <= i < |m.streams| => HeldStream(version, m.streams[i])))
    else m
  }

  function HeldAsset(version: int, a: MediaAsset): MediaAsset {
    a.(source := if version <= 2 || a.source.None? then None else Some(HeldMetadata(version, a.source.value)))
  }

  function HeldClip(version: int, c: Clip): Clip {
    if version <= 4 then
      c.(routing := ClipRouting(StreamSelection(Automatic, 0), StreamSelection(Automatic, 0)))
    else c
  }

  function HeldTrack(version: int, t: Track): Track {
    t.(playback := if version <= 4 then TrackPlayback(true, false, 1000) else t.playback,
       clips := seq(|t.clips|, i requires 0 <= i < |t.clips| => HeldClip(version, t.clips[i])))
  }

  function HeldSequence(version: int, s: Sequence): Sequence {
    s.(output := if version <= 4 then SequenceOutput(1920, 1080, 48000, 2) else s.output,
       tracks := seq(|s.tracks|, i requires 0 <= i < |s.tracks| => HeldTrack(version, s.tracks[i])))
  }

  /**
   What a version keeps of a project. Version 1 has no revision and no history, the first two no probe data, version 3
   no shared clock and no estimates; up to version 4 every stream is routed automatically, every track plays
   unmuted at gain one, and every output is 1920 by 1080 pixels with stereo sound at 48 kHz.
   */
  function Held(version: int, p: ProjectSnapshot): ProjectSnapshot {
    p.(revision := if version <= 1 then 0 else p.revision,
       operations := if version <= 1 then [] else p.operations,
       media := seq(|p.media|, i requires 0 <= i < |p.media| => HeldAsset(version, p.media[i])),
       sequences := seq(|p.sequences|, i requires 0 <= i < |p.sequences| => HeldSequence(version, p.sequences[i])))
  }

  // ----- version 5 is what the program writes, and keeps everything

  lemma {:induction false} FiveLocations(locations: seq<MediaLocation>, tail: Doc)
    ensures LocationsText(locations, tail) == WriteLocations(locations, tail)
  {
    if locations != [] { FiveLocations(locations[1..], tail); }
  }

  lemma {:induction false} FiveActions(actions: seq<string>, tail: Doc)
    ensures ActionsText(actions, tail) == WriteActions(actions, tail)
  {
    if actions != [] { FiveActions(actions[1..], tail); }
  }

  lemma {:induction false} FiveOperations(operations: seq<OperationRecord>, tail: Doc)
    ensures OperationsText(operations, tail) == WriteOperations(operations, tail)
  {
    hide WriteActions, ActionsText;
    if operations != [] {
      FiveOperations(operations[1..], tail);
      FiveActions(operations[0].actions, WriteOperations(operations[1..], tail));
    }
  }

  lemma {:induction false} FiveStreams(streams: seq<SourceStream>, tail: Doc)
    ensures StreamsText(5, streams, tail) == WriteStreams(streams, tail)
  {
    if streams != [] { FiveStreams(streams[1..], tail); }
  }

  lemma {:induction false} FiveAssets(assets: seq<MediaAsset>, tail: Doc)
    ensures AssetsText(5, assets, tail) == WriteAssets(assets, tail)
  {
    hide WriteLocations, LocationsText, WriteStreams, StreamsText;
    if assets != [] {
      var rest := WriteAssets(assets[1..], tail);
      FiveAssets(assets[1..], tail);
      FiveLocations(assets[0].locations, WriteSource(assets[0].source, rest));
      if assets[0].source.Some? { FiveStreams(assets[0].source.value.streams, rest); }
    }
  }

  lemma {:induction false} FiveClips(clips: seq<Clip>, tail: Doc)
    ensures ClipsText(5, clips, tail) == WriteClips(clips, tail)
  {
    if clips != [] { FiveClips(clips[1..], tail); }
  }

  lemma {:induction false} FiveTracks(tracks: seq<Track>, tail: Doc)
    ensures TracksText(5, tracks, tail) == WriteTracks(tracks, tail)
  {
    hide ClipsText, WriteClips;
    if tracks != [] {
      FiveTracks(tracks[1..], tail);
      FiveClips(tracks[0].clips, WriteTracks(tracks[1..], tail));
    }
  }

  lemma {:induction false} FiveSequences(sequences: seq<Sequence>, tail: Doc)
    ensures SequencesText(5, sequences, tail) == WriteSequences(sequences, tail)
  {
    hide TracksText, WriteTracks;
    if sequences != [] {
      FiveSequences(sequences[1..], tail);
      FiveTracks(sequences[0].tracks, WriteSequences(sequences[1..], tail));
    }
  }

  /** The program writes version 5. */
  lemma VersionFive(p: ProjectSnapshot)
    ensures VersionText(5, p) == ProjectText(p)
  {
    hide Render, WriteAssets, AssetsText, WriteSequences, SequencesText, WriteOperations, OperationsText;
    FiveOperations(p.operations, EndDoc());
    FiveSequences(p.sequences, AuditDoc(p));
    FiveAssets(p.media, SequencesDoc(p));
  }

  lemma SequenceKept(s: Sequence)
    ensures HeldSequence(5, s) == s
  {
    forall t | 0 <= t < |s.tracks|
      ensures HeldTrack(5, s.tracks[t]) == s.tracks[t]
    {
      assert HeldTrack(5, s.tracks[t]).clips == s.tracks[t].clips;
    }
    assert HeldSequence(5, s).tracks == s.tracks;
  }

  /** Version 5 keeps the whole project. */
  lemma VersionFiveKeeps(p: ProjectSnapshot)
    ensures Held(5, p) == p
  {
    hide HeldSequence;
    forall s | 0 <= s < |p.sequences|
      ensures HeldSequence(5, p.sequences[s]) == p.sequences[s]
    {
      SequenceKept(p.sequences[s]);
    }
    assert Held(5, p).media == p.media;
    assert Held(5, p).sequences == p.sequences;
  }
}
