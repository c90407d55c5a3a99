/** The native project format: version 5 is written, versions 1 to 5 are read (`src/project/persistence.cpp`). */
module Persistence {
  import opened Wrappers
  import opened RationalTimes
  import opened SourceTimes
  import opened Model
  import opened Lexing

  const MAX_BYTES: nat := 16 * 1024 * 1024
  const MAX_RECORDS: nat := 100000

  // ----- codes of enumerations

  function TrackCode(kind: TrackKind): uint32 { match kind case VideoTrack => 0 case AudioTrack => 1 }

  function MediaCode(kind: MediaKind): uint32 {
    match kind case VideoOnly => 0 case AudioOnly => 1 case AudioVideo => 2
  }

  function RoleCode(role: LocationRole): uint32 { match role case Original => 0 case Proxy => 1 }

  function ClockCode(mode: SourceTimeMode): uint32 { match mode case LegacyPerStream => 0 case SharedOrigin => 1 }

  function RouteCode(mode: StreamMode): uint32 { match mode case Automatic => 0 case Disabled => 1 case Explicit => 2 }

  function ChangeCode(kind: ChangeKind): uint32 { match kind case Edit => 0 case Undo => 1 case Redo => 2 }

  function ActorCode(kind: ActorKind): uint32 { match kind case Human => 0 case Agent => 1 case System => 2 }

  function Flag(b: bool): uint32 { if b then 1 else 0 }

  // ----- writing, each part in front of what follows it

  function WriteTime(t: Time, blank: Blank, tail: Doc): Doc {
    Num(t.value, ' ', Num(t.rate, blank, tail))
  }

  function WriteLocations(locations: seq<MediaLocation>, tail: Doc): Doc {
    if locations == [] then tail
    else Tag("LOCATION", ' ', Num(RoleCode(locations[0].role), ' ', Text(locations[0].uri, '\n',
           WriteLocations(locations[1..], tail))))
  }

  function WriteStream(s: SourceStream, tail: Doc): Doc {
    Tag("STREAM", ' ', Num(s.index, ' ', Num(TrackCode(s.kind), ' ', Text(s.codec, ' ',
      WriteTime(s.timeBase, ' ', Num(s.durationTicks, ' ', Num(Flag(s.startKnown), ' ', Num(s.startTicks, ' ',
        WriteTime(s.frameDuration, ' ', WriteTime(s.nominalFrameDuration, ' ',
          Num(s.width, ' ', Num(s.height, ' ', Num(s.sampleRate, ' ', Num(s.channels, ' ',
            WriteTime(s.durationEstimate, '\n', tail)))))))))))))))
  }

  function WriteStreams(streams: seq<SourceStream>, tail: Doc): Doc {
    if streams == [] then tail else WriteStream(streams[0], WriteStreams(streams[1..], tail))
  }

  function WriteStart(start: Option<SourceTime>, tail: Doc): Doc {
    match start
    case None => Num(0, '\n', tail)
    case Some(t) =>
      Num(1, ' ', Num(if t.negative then -t.magnitude.value else t.magnitude.value, ' ',
        Num(t.magnitude.rate, '\n', tail)))
  }

  function WriteMetadata(m: SourceMetadata, tail: Doc): Doc {
    Tag("METADATA", ' ', Text(m.container, ' ', Text(m.probeVersion, ' ', Text(m.probeConfiguration, ' ',
      Num(m.byteSize, ' ', WriteTime(m.containerDuration, ' ', Num(|m.streams|, '\n',
        Tag("CLOCK", ' ', Num(ClockCode(m.timeMode), ' ', WriteStart(m.containerStart,
          WriteStreams(m.streams, tail)))))))))))
  }

  function WriteSource(source: Option<SourceMetadata>, tail: Doc): Doc {
    match source
    case None => Tag("SOURCE", ' ', Num(0, '\n', tail))
    case Some(m) => Tag("SOURCE", ' ', Num(1, '\n', WriteMetadata(m, tail)))
  }

  function WriteAsset(a: MediaAsset, tail: Doc): Doc {
    Tag("ASSET", ' ', Num(a.id, ' ', Num(MediaCode(a.kind), ' ', Text(a.name, ' ', WriteTime(a.duration, ' ',
      Num(|a.locations|, '\n', WriteLocations(a.locations, WriteSource(a.source, tail))))))))
  }

  function WriteAssets(assets: seq<MediaAsset>, tail: Doc): Doc {
    if assets == [] then tail else WriteAsset(assets[0], WriteAssets(assets[1..], tail))
  }

  function WriteRouting(r: ClipRouting, tail: Doc): Doc {
    Tag("ROUTING", ' ', Num(RouteCode(r.video.mode), ' ', Num(r.video.index, ' ',
      Num(RouteCode(r.audio.mode), ' ', Num(r.audio.index, '\n', tail)))))
  }

  function WriteClip(c: Clip, tail: Doc): Doc {
    Tag("CLIP", ' ', Num(c.id, ' ', Num(c.media, ' ', WriteTime(c.position, ' ', WriteTime(c.source.start, ' ',
      WriteTime(c.source.duration, '\n', WriteRouting(c.routing, tail)))))))
  }

  function WriteClips(clips: seq<Clip>, tail: Doc): Doc {
    if clips == [] then tail else WriteClip(clips[0], WriteClips(clips[1..], tail))
  }

  function WritePlayback(p: TrackPlayback, tail: Doc): Doc {
    Tag("PLAYBACK", ' ', Num(Flag(p.enabled), ' ', Num(Flag(p.muted), ' ', Num(p.gainMilli, '\n', tail))))
  }

  function WriteTrack(t: Track, tail: Doc): Doc {
    Tag("TRACK", ' ', Num(t.id, ' ', Num(TrackCode(t.kind), ' ', Text(t.name, ' ', Num(|t.clips|, '\n',
      WritePlayback(t.playback, WriteClips(t.clips, tail)))))))
  }

  function WriteTracks(tracks: seq<Track>, tail: Doc): Doc {
    if tracks == [] then tail else WriteTrack(tracks[0], WriteTracks(tracks[1..], tail))
  }

  function WriteOutput(o: SequenceOutput, tail: Doc): Doc {
    Tag("OUTPUT", ' ', Num(o.width, ' ', Num(o.height, ' ', Num(o.sampleRate, ' ', Num(o.channels, '\n', tail)))))
  }

  function WriteSequence(s: Sequence, tail: Doc): Doc {
    Tag("SEQUENCE", ' ', Num(s.id, ' ', Text(s.name, ' ', WriteTime(s.frameDuration, ' ', Num(|s.tracks|, '\n',
      WriteOutput(s.output, WriteTracks(s.tracks, tail)))))))
  }

  function WriteSequences(sequences: seq<Sequence>, tail: Doc): Doc {
    if sequences == [] then tail else WriteSequence(sequences[0], WriteSequences(sequences[1..], tail))
  }

  function WriteActions(actions: seq<string>, tail: Doc): Doc {
    if actions == [] then tail else Tag("ACTION", ' ', Text(actions[0], '\n', WriteActions(actions[1..], tail)))
  }

  function WriteOperation(o: OperationRecord, tail: Doc): Doc {
    Tag("OP", ' ', Num(o.id, ' ', Num(o.revision, ' ', Num(ChangeCode(o.kind), ' ', Num(o.target, ' ',
      Num(ActorCode(o.actor.kind), ' ', Text(o.actor.id, ' ', Text(o.caption, ' ', Num(|o.actions|, '\n',
        WriteActions(o.actions, tail))))))))))
  }

  function WriteOperations(operations: seq<OperationRecord>, tail: Doc): Doc {
    if operations == [] then tail else WriteOperation(operations[0], WriteOperations(operations[1..], tail))
  }

  function EndDoc(): Doc {
    Tag("END", '\n', Done)
  }

  function AuditDoc(p: ProjectSnapshot): Doc {
    Tag("AUDIT", ' ', Num(p.revision, ' ', Num(|p.operations|, '\n', WriteOperations(p.operations, EndDoc()))))
  }

  function SequencesDoc(p: ProjectSnapshot): Doc {
    Tag("SEQUENCES", ' ', Num(|p.sequences|, '\n', WriteSequences(p.sequences, AuditDoc(p))))
  }

  function MediaDoc(p: ProjectSnapshot): Doc {
    Tag("MEDIA", ' ', Num(|p.media|, '\n', WriteAssets(p.media, SequencesDoc(p))))
  }

  function WriteProject(p: ProjectSnapshot): Doc {
    Tag("NLE_PROJECT", ' ', Num(5, '\n',
      Tag("PROJECT", ' ', Num(p.id, ' ', Num(p.nextId, ' ', Text(p.name, '\n', MediaDoc(p)))))))
  }

  function ProjectText(p: ProjectSnapshot): string {
    Render(WriteProject(p))
  }

  // ----- reading

  function ParseTime(st: State): Parsed<Time> {
    var (value, a) :- Signed64(st);
    var (rate, b) :- Signed64(a);
    var made := Make(value, rate);
    if made.None? then Bad else Good(made.value, b)
  }

  function ParseFlag(st: State): Parsed<bool> {
    var (value, next) :- Unsigned32(st);
    if value > 1 then Bad else Good(value == 1, next)
  }

  function ParseTrackKind(code: int, next: State): Parsed<TrackKind> {
    if code == 0 then Good(VideoTrack, next) else if code == 1 then Good(AudioTrack, next) else Bad
  }

  function ParseMediaKind(code: int, next: State): Parsed<MediaKind> {
    if code == 0 then Good(VideoOnly, next) else if code == 1 then Good(AudioOnly, next)
    else if code == 2 then Good(AudioVideo, next) else Bad
  }

  function ParseRole(code: int, next: State): Parsed<LocationRole> {
    if code == 0 then Good(Original, next) else if code == 1 then Good(Proxy, next) else Bad
  }

  function ParseLocation(st: State): Parsed<MediaLocation> {
    var (_, a) :- Expect(st, "LOCATION");
    var (code, b) :- Unsigned64(a);
    var (role, c) :- ParseRole(code, b);
    var (uri, d) :- Quoted(c);
    Good(MediaLocation(role, uri), d)
  }

  function ParseLocations(n: nat, st: State): Parsed<seq<MediaLocation>> {
    if n == 0 then Good([], st)
    else
      var (first, a) :- ParseLocation(st);
      var (rest, b) :- ParseLocations(n - 1, a);
      Good([first] + rest, b)
  }

  /** Version 4 added the optional duration estimate. */
  function ParseEstimate(version: int, st: State): Parsed<Time> {
    if version >= 4 then ParseTime(st) else Good(Zero, st)
  }

  function ParseStream(version: int, st: State): Parsed<SourceStream> {
    var (_, a) :- Expect(st, "STREAM");
    var (index, b) :- Unsigned32(a);
    var (code, c) :- Unsigned32(b);
    var (kind, d) :- ParseTrackKind(code, c);
    var (codec, e) :- Quoted(d);
    var (timeBase, f) :- ParseTime(e);
    var (durationTicks, g) :- Signed64(f);
    var (startKnown, h) :- ParseFlag(g);
    var (startTicks, i) :- Signed64(h);
    var (frameDuration, j) :- ParseTime(i);
    var (nominal, k) :- ParseTime(j);
    var (width, l) :- Unsigned32(k);
    var (height, m) :- Unsigned32(l);
    var (sampleRate, n) :- Unsigned32(m);
    var (channels, o) :- Unsigned32(n);
    var (estimate, p) :- ParseEstimate(version, o);
    Good(SourceStream(index, kind, codec, timeBase, durationTicks, startTicks, startKnown, frameDuration, nominal,
                      width, height, sampleRate, channels, estimate), p)
  }

  function ParseStreams(version: int, n: nat, st: State): Parsed<seq<SourceStream>> {
    if n == 0 then Good([], st)
    else
      var (first, a) :- ParseStream(version, st);
      var (rest, b) :- ParseStreams(version, n - 1, a);
      Good([first] + rest, b)
  }

  function ParseStart(st: State): Parsed<Option<SourceTime>> {
    var (known, a) :- ParseFlag(st);
    if !known then Good(None, a)
    else
      var (value, b) :- Signed64(a);
      var (rate, c) :- Signed64(b);
      var made := MakeSource(value, rate);
      if made.None? then Bad else Good(made, c)
  }

  /** Version 4 added the time convention and the container's start. */
  function ParseClock(version: int, st: State): Parsed<(SourceTimeMode, Option<SourceTime>)> {
    if version < 4 then Good((LegacyPerStream, None), st)
    else
      var (_, a) :- Expect(st, "CLOCK");
      var (mode, b) :- Unsigned32(a);
      if mode > 1 then Bad
      else
        var (start, c) :- ParseStart(b);
        Good((if mode == 1 then SharedOrigin else LegacyPerStream, start), c)
  }

  function ParseMetadata(version: int, st: State): Parsed<SourceMetadata> {
    var (_, a) :- Expect(st, "METADATA");
    var (container, b) :- Quoted(a);
    var (probeVersion, c) :- Quoted(b);
    var (configuration, d) :- Quoted(c);
    var (byteSize, e) :- Unsigned64(d);
    var (duration, f) :- ParseTime(e);
    var (n, g) :- Count(f);
    var (clock, h) :- ParseClock(version, g);
    if n > 64 then Bad
    else
      var (streams, i) :- ParseStreams(version, n, h);
      Good(SourceMetadata(container, probeVersion, configuration, byteSize, duration, streams, clock.0, clock.1), i)
  }

  /** Version 3 added source metadata. */
  function ParseSource(version: int, st: State): Parsed<Option<SourceMetadata>> {
    if version < 3 then Good(None, st)
    else
      var (_, a) :- Expect(st, "SOURCE");
      var (present, b) :- ParseFlag(a);
      if !present then Good(None, b)
      else
        var (metadata, c) :- ParseMetadata(version, b);
        Good(Some(metadata), c)
  }

  function ParseAsset(version: int, st: State): Parsed<MediaAsset> {
    var (_, a) :- Expect(st, "ASSET");
    var (id, b) :- Unsigned64(a);
    var (code, c) :- Unsigned64(b);
    var (kind, d) :- ParseMediaKind(code, c);
    var (name, e) :- Quoted(d);
    var (duration, f) :- ParseTime(e);
    var (n, g) :- Count(f);
    var (locations, h) :- ParseLocations(n, g);
    var (source, i) :- ParseSource(version, h);
    Good(MediaAsset(id, name, kind, duration, locations, source), i)
  }

  function ParseAssets(version: int, n: nat, st: State): Parsed<seq<MediaAsset>> {
    if n == 0 then Good([], st)
    else
      var (first, a) :- ParseAsset(version, st);
      var (rest, b) :- ParseAssets(version, n - 1, a);
      Good([first] + rest, b)
  }

  function RouteMode(code: int): StreamMode {
    if code == 0 then Automatic else if code == 1 then Disabled else Explicit
  }

  /** Version 5 added stream routing, track playback and sequence output. */
  function ParseRouting(version: int, st: State): Parsed<ClipRouting> {
    if version < 5 then Good(DEFAULT_ROUTING, st)
    else
      var (_, a) :- Expect(st, "ROUTING");
      var (video, b) :- Unsigned32(a);
      var (videoIndex, c) :- Unsigned32(b);
      var (audio, d) :- Unsigned32(c);
      var (audioIndex, e) :- Unsigned32(d);
      if video > 2 || audio > 2 then Bad
      else
        Good(ClipRouting(StreamSelection(RouteMode(video), videoIndex),
                         StreamSelection(RouteMode(audio), audioIndex)), e)
  }

  function ParseClip(version: int, st: State): Parsed<Clip> {
    var (_, a) :- Expect(st, "CLIP");
    var (id, b) :- Unsigned64(a);
    var (media, c) :- Unsigned64(b);
    var (position, d) :- ParseTime(c);
    var (start, e) :- ParseTime(d);
    var (duration, f) :- ParseTime(e);
    var (routing, g) :- ParseRouting(version, f);
    Good(Clip(id, media, position, TimeRange(start, duration), routing), g)
  }

  function ParseClips(version: int, n: nat, st: State): Parsed<seq<Clip>> {
    if n == 0 then Good([], st)
    else
      var (first, a) :- ParseClip(version, st);
      var (rest, b) :- ParseClips(version, n - 1, a);
      Good([first] + rest, b)
  }

  function ParsePlayback(version: int, st: State): Parsed<TrackPlayback> {
    if version < 5 then Good(DEFAULT_PLAYBACK, st)
    else
      var (_, a) :- Expect(st, "PLAYBACK");
      var (enabled, b) :- Unsigned32(a);
      var (muted, c) :- Unsigned32(b);
      if enabled > 1 || muted > 1 then Bad
      else
        var (gain, d) :- Unsigned32(c);
        Good(TrackPlayback(enabled == 1, muted == 1, gain), d)
  }

  function ParseTrack(version: int, st: State): Parsed<Track> {
    var (_, a) :- Expect(st, "TRACK");
    var (id, b) :- Unsigned64(a);
    var (code, c) :- Unsigned64(b);
    var (kind, d) :- ParseTrackKind(code, c);
    var (name, e) :- Quoted(d);
    var (n, f) :- Count(e);
    var (playback, g) :- ParsePlayback(version, f);
    var (clips, h) :- ParseClips(version, n, g);
    Good(Track(id, name, kind, clips, playback), h)
  }

  function ParseTracks(version: int, n: nat, st: State): Parsed<seq<Track>> {
    if n == 0 then Good([], st)
    else
      var (first, a) :- ParseTrack(version, st);
      var (rest, b) :- ParseTracks(version, n - 1, a);
      Good([first] + rest, b)
  }

  function ParseOutput(version: int, st: State): Parsed<SequenceOutput> {
    if version < 5 then Good(DEFAULT_OUTPUT, st)
    else
      var (_, a) :- Expect(st, "OUTPUT");
      var (width, b) :- Unsigned32(a);
      var (height, c) :- Unsigned32(b);
      var (sampleRate, d) :- Unsigned32(c);
      var (channels, e) :- Unsigned32(d);
      Good(SequenceOutput(width, height, sampleRate, channels), e)
  }

  function ParseSequence(version: int, st: State): Parsed<Sequence> {
    var (_, a) :- Expect(st, "SEQUENCE");
    var (id, b) :- Unsigned64(a);
    var (name, c) :- Quoted(b);
    var (frameDuration, d) :- ParseTime(c);
    var (n, e) :- Count(d);
    var (output, f) :- ParseOutput(version, e);
    var (tracks, g) :- ParseTracks(version, n, f);
    Good(Sequence(id, name, frameDuration, tracks, output), g)
  }

  function ParseSequences(version: int, n: nat, st: State): Parsed<seq<Sequence>> {
    if n == 0 then Good([], st)
    else
      var (first, a) :- ParseSequence(version, st);
      var (rest, b) :- ParseSequences(version, n - 1, a);
      Good([first] + rest, b)
  }

  function ParseAction(st: State): Parsed<string> {
    var (_, a) :- Expect(st, "ACTION");
    Quoted(a)
  }

  function ParseActions(n: nat, st: State): Parsed<seq<string>> {
    if n == 0 then Good([], st)
    else
      var (first, a) :- ParseAction(st);
      var (rest, b) :- ParseActions(n - 1, a);
      Good([first] + rest, b)
  }

  function ParseChange(code: int, next: State): Parsed<ChangeKind> {
    if code == 0 then Good(Edit, next) else if code == 1 then Good(Undo, next)
    else if code == 2 then Good(Redo, next) else Bad
  }

  function ParseActorKind(code: int, next: State): Parsed<ActorKind> {
    if code == 0 then Good(Human, next) else if code == 1 then Good(Agent, next)
    else if code == 2 then Good(System, next) else Bad
  }

  function ParseOperation(st: State): Parsed<OperationRecord> {
    var (_, a) :- Expect(st, "OP");
    var (id, b) :- Unsigned64(a);
    var (revision, c) :- Unsigned64(b);
    var (change, d) :- Unsigned32(c);
    var (kind, e) :- ParseChange(change, d);
    var (target, f) :- Unsigned64(e);
    var (actor, g) :- Unsigned32(f);
    var (actorKind, h) :- ParseActorKind(actor, g);
    var (actorId, i) :- Quoted(h);
    var (caption, j) :- Quoted(i);
    var (n, k) :- Count(j);
    if n > MAX_BATCH_COMMANDS then Bad
    else
      var (actions, l) :- ParseActions(n, k);
      Good(OperationRecord(id, revision, Actor(actorId, actorKind), caption, kind, target, actions), l)
  }

  function ParseOperations(n: nat, st: State): Parsed<seq<OperationRecord>> {
    if n == 0 then Good([], st)
    else
      var (first, a) :- ParseOperation(st);
      var (rest, b) :- ParseOperations(n - 1, a);
      Good([first] + rest, b)
  }

  /** Version 2 added the audit log; version 1 migrates to revision zero without one. */
  function ParseAudit(version: int, st: State): Parsed<(uint64, seq<OperationRecord>)> {
    if version < 2 then Good((0, []), st)
    else
      var (_, a) :- Expect(st, "AUDIT");
      var (revision, b) :- Unsigned64(a);
      var (n, c) :- Count(b);
      if n > MAX_OPERATIONS then Bad
      else
        var (operations, d) :- ParseOperations(n, c);
        Good((revision, operations), d)
  }

  datatype Header = Header(version: int, id: uint64, nextId: uint64, name: string)

  function ParseHeader(st: State): Parsed<Header> {
    var (_, a) :- Expect(st, "NLE_PROJECT");
    var (version, b) :- Unsigned32(a);
    if !(1 <= version <= 5) then Bad
    else
      var (_, c) :- Expect(b, "PROJECT");
      var (id, d) :- Unsigned64(c);
      var (nextId, e) :- Unsigned64(d);
      var (name, f) :- Quoted(e);
      Good(Header(version, id, nextId, name), f)
  }

  function ParseMedia(version: int, st: State): Parsed<seq<MediaAsset>> {
    var (_, a) :- Expect(st, "MEDIA");
    var (n, b) :- Count(a);
    ParseAssets(version, n, b)
  }

  function ParseTimeline(version: int, st: State): Parsed<seq<Sequence>> {
    var (_, a) :- Expect(st, "SEQUENCES");
    var (n, b) :- Count(a);
    ParseSequences(version, n, b)
  }

  function ParseEnd(st: State): Parsed<()> {
    var (_, a) :- Expect(st, "END");
    if SkipSpace(a.rest) == "" then Good((), a) else Bad
  }

  function ParseProject(st: State): Parsed<ProjectSnapshot> {
    var (header, a) :- ParseHeader(st);
    var (media, b) :- ParseMedia(header.version, a);
    var (sequences, c) :- ParseTimeline(header.version, b);
    var (audit, d) :- ParseAudit(header.version, c);
    var (_, e) :- ParseEnd(d);
    Good(ProjectSnapshot(header.id, header.name, header.nextId, media, sequences, audit.0, audit.1), e)
  }

  /** `deserialize`. */
  function Deserialize(data: string): Option<ProjectSnapshot> {
    if |data| > MAX_BYTES then None
    else
      var parsed := ParseProject(State(data, MAX_RECORDS));
      if parsed.Bad? || !Valid(parsed.value) then None else Some(parsed.value)
  }

  /** `serialize`: what is written must also be readable under the record budget. */
  function Serialize(p: ProjectSnapshot): Option<string> {
    if !Valid(p) then None
    else
      var data := ProjectText(p);
      if |data| > MAX_BYTES || Deserialize(data).None? then None else Some(data)
  }
}
