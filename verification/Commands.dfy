/** Editing commands applied to a private copy of the project (`apply` in `src/commands/editor.cpp`). */
module Commands {
  import opened Wrappers
  import opened RationalTimes
  import opened Model
  import opened PlanBuilder

  datatype Command =
    | CreateSequence(name: string, frameDuration: Time)
    | CreateTrack(sequence: uint64, kind: TrackKind, name: string)
    | RegisterMedia(name: string, mediaKind: MediaKind, duration: Time, locations: seq<MediaLocation>,
                    metadata: Option<SourceMetadata>)
    | InsertClip(track: uint64, media: uint64, position: Time, range: TimeRange, routing: ClipRouting)
    | MoveClip(clip: uint64, track: uint64, position: Time)
    | TrimClip(clip: uint64, position: Time, range: TimeRange)
    | SplitClip(clip: uint64, position: Time)
    | DeleteClip(clip: uint64)
    | DeleteTrack(track: uint64)
    | ReorderTrack(sequence: uint64, track: uint64, index: nat)
    | RelinkMedia(media: uint64, role: LocationRole, uri: Option<string>)
    | ReplaceMediaSource(media: uint64, newUri: string, replacement: SourceMetadata)
    | SetSequenceOutput(sequence: uint64, frameDuration: Time, output: SequenceOutput)
    | SetTrackPlayback(track: uint64, playback: TrackPlayback)
    | SetClipRouting(clip: uint64, routing: ClipRouting)

  datatype CommandResult = CommandResult(
    sequence: Option<uint64>,
    track: Option<uint64>,
    media: Option<uint64>,
    clip: Option<uint64>
  )

  const NOTHING := CommandResult(None, None, None, None)

  // ----- lookups

  datatype TrackPlace = TrackPlace(s: nat, t: nat)

  datatype ClipPlace = ClipPlace(s: nat, t: nat, k: nat)

  function TrackIn(tracks: seq<Track>, id: uint64): (r: Option<nat>)
    ensures r.Some? ==> r.value < |tracks| && tracks[r.value].id == id
    ensures r.None? ==> forall i :: 0 <= i < |tracks| ==> tracks[i].id != id
  {
    if tracks == [] then None
    else if tracks[0].id == id then Some(0)
    else
      var rest := TrackIn(tracks[1..], id);
      if rest.None? then
        assert forall i :: 0 < i < |tracks| ==> tracks[i] == tracks[1..][i - 1];
        None
      else Some(rest.value + 1)
  }

  function FindTrack(sequences: seq<Sequence>, id: uint64): (r: Option<TrackPlace>)
    ensures r.Some? ==>
              && r.value.s < |sequences| && r.value.t < |sequences[r.value.s].tracks|
              && sequences[r.value.s].tracks[r.value.t].id == id
  {
    if sequences == [] then None
    else
      var here := TrackIn(sequences[0].tracks, id);
      if here.Some? then Some(TrackPlace(0, here.value))
      else
        var rest := FindTrack(sequences[1..], id);
        if rest.None? then None else Some(TrackPlace(rest.value.s + 1, rest.value.t))
  }

  function ClipIn(clips: seq<Clip>, id: uint64): (r: Option<nat>)
    ensures r.Some? ==> r.value < |clips| && clips[r.value].id == id
  {
    if clips == [] then None
    else if clips[0].id == id then Some(0)
    else
      var rest := ClipIn(clips[1..], id);
      if rest.None? then None else Some(rest.value + 1)
  }

  function ClipInTracks(tracks: seq<Track>, id: uint64): (r: Option<(nat, nat)>)
    ensures r.Some? ==>
              && r.value.0 < |tracks| && r.value.1 < |tracks[r.value.0].clips|
              && tracks[r.value.0].clips[r.value.1].id == id
  {
    if tracks == [] then None
    else
      var here := ClipIn(tracks[0].clips, id);
      if here.Some? then Some((0, here.value))
      else
        var rest := ClipInTracks(tracks[1..], id);
        if rest.None? then None else Some((rest.value.0 + 1, rest.value.1))
  }

  function FindClip(sequences: seq<Sequence>, id: uint64): (r: Option<ClipPlace>)
    ensures r.Some? ==> ValidPlace(sequences, r.value) && ClipAt(sequences, r.value).id == id
  {
    if sequences == [] then None
    else
      var here := ClipInTracks(sequences[0].tracks, id);
      if here.Some? then Some(ClipPlace(0, here.value.0, here.value.1))
      else
        var rest := FindClip(sequences[1..], id);
        if rest.None? then None else Some(ClipPlace(rest.value.s + 1, rest.value.t, rest.value.k))
  }

  predicate ValidPlace(sequences: seq<Sequence>, p: ClipPlace) {
    p.s < |sequences| && p.t < |sequences[p.s].tracks| && p.k < |sequences[p.s].tracks[p.t].clips|
  }

  function ClipAt(sequences: seq<Sequence>, p: ClipPlace): Clip
    requires ValidPlace(sequences, p)
  {
    sequences[p.s].tracks[p.t].clips[p.k]
  }

  // ----- replacing parts

  function WithTracks(project: ProjectSnapshot, s: nat, tracks: seq<Track>): ProjectSnapshot
    requires s < |project.sequences|
  {
    project.(sequences := project.sequences[s := project.sequences[s].(tracks := tracks)])
  }

  function WithTrack(project: ProjectSnapshot, s: nat, t: nat, track: Track): ProjectSnapshot
    requires s < |project.sequences| && t < |project.sequences[s].tracks|
  {
    WithTracks(project, s, project.sequences[s].tracks[t := track])
  }

  function WithClips(project: ProjectSnapshot, s: nat, t: nat, clips: seq<Clip>): ProjectSnapshot
    requires s < |project.sequences| && t < |project.sequences[s].tracks|
  {
    WithTrack(project, s, t, project.sequences[s].tracks[t].(clips := clips))
  }

  function WithClip(project: ProjectSnapshot, p: ClipPlace, clip: Clip): ProjectSnapshot
    requires ValidPlace(project.sequences, p)
  {
    WithClips(project, p.s, p.t, project.sequences[p.s].tracks[p.t].clips[p.k := clip])
  }

  function Without<T>(items: seq<T>, k: nat): seq<T>
    requires k < |items|
  {
    items[..k] + items[k + 1..]
  }

  function Inserted<T>(items: seq<T>, k: nat, item: T): seq<T>
    requires k <= |items|
  {
    items[..k] + [item] + items[k..]
  }

  // ----- media edits

  function LocationIn(locations: seq<MediaLocation>, role: LocationRole): (r: Option<nat>)
    ensures r.Some? ==> r.value < |locations| && locations[r.value].role == role
  {
    if locations == [] then None
    else if locations[0].role == role then Some(0)
    else
      var rest := LocationIn(locations[1..], role);
      if rest.None? then None else Some(rest.value + 1)
  }

  function Located(locations: seq<MediaLocation>, role: LocationRole, uri: string): seq<MediaLocation> {
    var found := LocationIn(locations, role);
    if found.None? then locations + [MediaLocation(role, uri)]
    else locations[found.value := locations[found.value].(uri := uri)]
  }

  function Unlocated(locations: seq<MediaLocation>, role: LocationRole): seq<MediaLocation> {
    var found := LocationIn(locations, role);
    if found.None? then locations else Without(locations, found.value)
  }

  /** A replacement keeps the asset's time convention and may not lose the shared clock. */
  function ReplacedAsset(asset: MediaAsset, uri: string, source: SourceMetadata): Option<MediaAsset> {
    if SourceKind(source) != Some(asset.kind) then None
    else if asset.source.Some? && asset.source.value.timeMode == SharedOrigin && source.timeMode != SharedOrigin
    then None
    else
      var replacement := if asset.source.Some? then source.(timeMode := asset.source.value.timeMode) else source;
      var duration := SourceDuration(replacement);
      if duration.None? then None
      else Some(asset.(locations := Located(asset.locations, Original, uri), duration := duration.value,
                       source := Some(replacement)))
  }

  function RelinkedAsset(asset: MediaAsset, role: LocationRole, uri: Option<string>): MediaAsset {
    var unverified := if role == Original then asset.(source := None) else asset;
    unverified.(locations := if uri.None? then Unlocated(asset.locations, role)
                             else Located(asset.locations, role, uri.value))
  }

  // ----- sorting

  function InsertSorted(clips: seq<Clip>, clip: Clip): seq<Clip> {
    if clips == [] || ClipLess(clip, clips[0]) then [clip] + clips
    else [clips[0]] + InsertSorted(clips[1..], clip)
  }

  function SortClips(clips: seq<Clip>): seq<Clip> {
    if clips == [] then [] else InsertSorted(SortClips(clips[..|clips| - 1]), clips[|clips| - 1])
  }

  function SortTracks(tracks: seq<Track>): seq<Track> {
    seq(|tracks|, t requires 0 <= t < |tracks| => tracks[t].(clips := SortClips(tracks[t].clips)))
  }

  function SortSequences(sequences: seq<Sequence>): seq<Sequence> {
    seq(|sequences|, s requires 0 <= s < |sequences| => sequences[s].(tracks := SortTracks(sequences[s].tracks)))
  }

  // ----- the commands

  type Edited = Option<(ProjectSnapshot, CommandResult)>

  /** Takes the next object identity; the last one is never handed out. */
  function Allocate(project: ProjectSnapshot): Option<(uint64, ProjectSnapshot)> {
    if project.nextId == MAX_ID then None else Some((project.nextId, project.(nextId := project.nextId + 1)))
  }

  function EditStructure(project: ProjectSnapshot, command: Command): Edited
    requires command.CreateSequence? || command.CreateTrack? || command.DeleteTrack? || command.ReorderTrack?
             || command.SetSequenceOutput? || command.SetTrackPlayback?
  {
    match command
    case CreateSequence(name, frameDuration) =>
      var taken := Allocate(project);
      if taken.None? then None else
      var (id, next) := taken.value;
      Some((next.(sequences := next.sequences + [Sequence(id, name, frameDuration, [], DEFAULT_OUTPUT)]),
            NOTHING.(sequence := Some(id))))
    case CreateTrack(sequence, kind, name) =>
      var found := FindSequence(project.sequences, sequence);
      var taken := Allocate(project);
      if found.None? || taken.None? then None else
      var (id, next) := taken.value;
      Some((WithTracks(next, found.value,
                       next.sequences[found.value].tracks + [Track(id, name, kind, [], DEFAULT_PLAYBACK)]),
            NOTHING.(track := Some(id))))
    case DeleteTrack(track) =>
      var found := FindTrack(project.sequences, track);
      if found.None? then None else
      Some((WithTracks(project, found.value.s, Without(project.sequences[found.value.s].tracks, found.value.t)),
            NOTHING))
    case ReorderTrack(sequence, track, index) =>
      var found := FindSequence(project.sequences, sequence);
      if found.None? then None else
      var tracks := project.sequences[found.value].tracks;
      var place := TrackIn(tracks, track);
      if index >= |tracks| || place.None? then None else
      Some((WithTracks(project, found.value, Inserted(Without(tracks, place.value), index, tracks[place.value])),
            NOTHING))
    case SetSequenceOutput(sequence, frameDuration, output) =>
      var found := FindSequence(project.sequences, sequence);
      if found.None? then None else
      Some((project.(sequences := project.sequences[found.value :=
               project.sequences[found.value].(frameDuration := frameDuration, output := output)]), NOTHING))
    case SetTrackPlayback(track, playback) =>
      var found := FindTrack(project.sequences, track);
      if found.None? then None else
      Some((WithTrack(project, found.value.s, found.value.t,
                      project.sequences[found.value.s].tracks[found.value.t].(playback := playback)), NOTHING))
  }

  function EditMedia(project: ProjectSnapshot, command: Command): Edited
    requires command.RegisterMedia? || command.RelinkMedia? || command.ReplaceMediaSource?
  {
    match command
    case RegisterMedia(name, kind, duration, locations, metadata) =>
      var taken := Allocate(project);
      if taken.None? then None else
      var (id, next) := taken.value;
      Some((next.(media := next.media + [MediaAsset(id, name, kind, duration, locations, metadata)]),
            NOTHING.(media := Some(id))))
    case RelinkMedia(media, role, uri) =>
      var found := FindAsset(project.media, media);
      if found.None? then None else
      Some((project.(media := project.media[found.value := RelinkedAsset(project.media[found.value], role, uri)]),
            NOTHING))
    case ReplaceMediaSource(media, uri, source) =>
      var found := FindAsset(project.media, media);
      if !ValidSource(source) || found.None? then None else
      var replaced := ReplacedAsset(project.media[found.value], uri, source);
      if replaced.None? then None else
      Some((project.(media := project.media[found.value := replaced.value]), NOTHING.(media := Some(media))))
  }

  /** The two halves of a split; the right one takes the new identity. */
  function SplitHalves(clip: Clip, position: Time, id: uint64): Option<(Clip, Clip)> {
    var end := clip.End();
    if end.None? || position.Seconds() <= clip.position.Seconds() || position.Seconds() >= end.value.Seconds() then None
    else
      var offset := Minus(position, clip.position);
      if offset.None? then None else
      var start := Plus(clip.source.start, offset.value);
      var rest := Minus(clip.source.duration, offset.value);
      if start.None? || rest.None? then None else
      Some((clip.(source := clip.source.(duration := offset.value)),
            Clip(id, clip.media, position, TimeRange(start.value, rest.value), clip.routing)))
  }

  function EditClips(project: ProjectSnapshot, command: Command): Edited
    requires command.InsertClip? || command.MoveClip? || command.TrimClip? || command.SplitClip?
             || command.DeleteClip? || command.SetClipRouting?
  {
    match command
    case InsertClip(track, media, position, range, routing) =>
      var found := FindTrack(project.sequences, track);
      var taken := Allocate(project);
      if found.None? || taken.None? then None else
      var (id, next) := taken.value;
      var clips := next.sequences[found.value.s].tracks[found.value.t].clips;
      Some((WithClips(next, found.value.s, found.value.t, clips + [Clip(id, media, position, range, routing)]),
            NOTHING.(clip := Some(id))))
    case MoveClip(clip, track, position) =>
      var from := FindClip(project.sequences, clip);
      var to := FindTrack(project.sequences, track);
      if from.None? || to.None? then None else
      var moved := ClipAt(project.sequences, from.value).(position := position);
      var lifted := WithClips(project, from.value.s, from.value.t,
                              Without(project.sequences[from.value.s].tracks[from.value.t].clips, from.value.k));
      var clips := lifted.sequences[to.value.s].tracks[to.value.t].clips;
      Some((WithClips(lifted, to.value.s, to.value.t, clips + [moved]), NOTHING))
    case TrimClip(clip, position, range) =>
      var found := FindClip(project.sequences, clip);
      if found.None? then None else
      var trimmed := ClipAt(project.sequences, found.value).(position := position, source := range);
      Some((WithClip(project, found.value, trimmed), NOTHING))
    case SplitClip(clip, position) =>
      var found := FindClip(project.sequences, clip);
      var taken := Allocate(project);
      if found.None? || taken.None? then None else
      var (id, next) := taken.value;
      var halves := SplitHalves(ClipAt(project.sequences, found.value), position, id);
      if halves.None? then None else
      var clips := next.sequences[found.value.s].tracks[found.value.t].clips;
      Some((WithClips(next, found.value.s, found.value.t, clips[found.value.k := halves.value.0] + [halves.value.1]),
            NOTHING.(clip := Some(id))))
    case DeleteClip(clip) =>
      var found := FindClip(project.sequences, clip);
      if found.None? then None else
      Some((WithClips(project, found.value.s, found.value.t,
                      Without(project.sequences[found.value.s].tracks[found.value.t].clips, found.value.k)), NOTHING))
    case SetClipRouting(clip, routing) =>
      var found := FindClip(project.sequences, clip);
      if found.None? then None else
      Some((WithClip(project, found.value, ClipAt(project.sequences, found.value).(routing := routing)), NOTHING))
  }

  function Edit(project: ProjectSnapshot, command: Command): Edited {
    match command
    case RegisterMedia(_, _, _, _, _) => EditMedia(project, command)
    case RelinkMedia(_, _, _) => EditMedia(project, command)
    case ReplaceMediaSource(_, _, _) => EditMedia(project, command)
    case InsertClip(_, _, _, _, _) => EditClips(project, command)
    case MoveClip(_, _, _) => EditClips(project, command)
    case TrimClip(_, _, _) => EditClips(project, command)
    case SplitClip(_, _) => EditClips(project, command)
    case DeleteClip(_) => EditClips(project, command)
    case SetClipRouting(_, _) => EditClips(project, command)
    case _ => EditStructure(project, command)
  }

  /** Edits, restores timeline order on every track and validates the whole candidate. */
  function Apply(project: ProjectSnapshot, command: Command): Edited {
    var edited := Edit(project, command);
    if edited.None? then None else
    var candidate := edited.value.0.(sequences := SortSequences(edited.value.0.sequences));
    if Valid(candidate) then Some((candidate, edited.value.1)) else None
  }

  predicate Creates(command: Command) {
    || command.CreateSequence? || command.CreateTrack? || command.RegisterMedia?
    || command.InsertClip? || command.SplitClip?
  }

  function CreatedId(result: CommandResult, command: Command): Option<uint64> {
    match command
    case CreateSequence(_, _) => result.sequence
    case CreateTrack(_, _, _) => result.track
    case RegisterMedia(_, _, _, _, _) => result.media
    case InsertClip(_, _, _, _, _) => result.clip
    case SplitClip(_, _) => result.clip
    case _ => None
  }

  /**
   Every accepted command leaves a valid project with the same identity, name and log. Creating
   commands hand out exactly the old watermark and raise it by one; no other command moves it.
   */
  lemma ApplyKeeps(project: ProjectSnapshot, command: Command)
    requires Apply(project, command).Some?
    ensures var (after, result) := Apply(project, command).value;
            && Valid(after)
            && after.id == project.id && after.name == project.name
            && after.revision == project.revision && after.operations == project.operations
            && after.nextId == project.nextId + (if Creates(command) then 1 else 0)
            && CreatedId(result, command) == if Creates(command) then Some(project.nextId) else None
  {
    hide Valid, SortSequences, FindClip, FindTrack, SplitHalves, ReplacedAsset, RelinkedAsset, ValidSource;
  }
}
