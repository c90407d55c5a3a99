/** The project model and its validation (`src/project/model.hpp`, `src/project/model.cpp`). */
module Model {
  import opened Wrappers
  import opened Gcds
  import opened RationalTimes
  import opened SourceTimes

  type uint64 = x: int | 0 <= x < 0x1_0000_0000_0000_0000
  type uint32 = x: int | 0 <= x < 0x1_0000_0000

  const MAX_ID: uint64 := 0xffff_ffff_ffff_ffff
  const MAX_OPERATIONS: nat := 10000
  const MAX_BATCH_COMMANDS: nat := 1024
  const MAX_TEXT: nat := 4096

  // ----- audit log

  datatype ActorKind = Human | Agent | System

  datatype Actor = Actor(id: string, kind: ActorKind)

  datatype ChangeKind = Edit | Undo | Redo

  datatype OperationRecord = OperationRecord(
    id: uint64,
    revision: uint64,
    actor: Actor,
    caption: string,
    kind: ChangeKind,
    target: uint64,
    actions: seq<string>
  )

  // ----- media

  datatype TrackKind = VideoTrack | AudioTrack

  datatype MediaKind = VideoOnly | AudioOnly | AudioVideo

  datatype LocationRole = Original | Proxy

  datatype MediaLocation = MediaLocation(role: LocationRole, uri: string)

  datatype SourceStream = SourceStream(
    index: uint32,
    kind: TrackKind,
    codec: string,
    timeBase: Time,
    durationTicks: int64,
    startTicks: int64,
    startKnown: bool,
    frameDuration: Time,
    nominalFrameDuration: Time,
    width: uint32,
    height: uint32,
    sampleRate: uint32,
    channels: uint32,
    durationEstimate: Time
  )

  datatype SourceTimeMode = LegacyPerStream | SharedOrigin

  datatype SourceMetadata = SourceMetadata(
    container: string,
    probeVersion: string,
    probeConfiguration: string,
    byteSize: uint64,
    containerDuration: Time,
    streams: seq<SourceStream>,
    timeMode: SourceTimeMode,
    containerStart: Option<SourceTime>
  )

  datatype MediaAsset = MediaAsset(
    id: uint64,
    name: string,
    kind: MediaKind,
    duration: Time,
    locations: seq<MediaLocation>,
    source: Option<SourceMetadata>
  )

  // ----- timeline

  datatype TimeRange = TimeRange(start: Time, duration: Time) {
    function End(): Option<Time> { Plus(start, duration) }
  }

  datatype StreamMode = Automatic | Disabled | Explicit

  datatype StreamSelection = StreamSelection(mode: StreamMode, index: uint32)

  datatype ClipRouting = ClipRouting(video: StreamSelection, audio: StreamSelection)

  datatype TrackPlayback = TrackPlayback(enabled: bool, muted: bool, gainMilli: uint32)

  datatype SequenceOutput = SequenceOutput(width: uint32, height: uint32, sampleRate: uint32, channels: uint32)

  datatype Clip = Clip(id: uint64, media: uint64, position: Time, source: TimeRange, routing: ClipRouting) {
    function End(): Option<Time> { Plus(position, source.duration) }
  }

  datatype Track = Track(id: uint64, name: string, kind: TrackKind, clips: seq<Clip>, playback: TrackPlayback)

  datatype Sequence = Sequence(
    id: uint64,
    name: string,
    frameDuration: Time,
    tracks: seq<Track>,
    output: SequenceOutput
  )

  datatype ProjectSnapshot = ProjectSnapshot(
    id: uint64,
    name: string,
    nextId: uint64,
    media: seq<MediaAsset>,
    sequences: seq<Sequence>,
    revision: uint64,
    operations: seq<OperationRecord>
  )

  const DEFAULT_ROUTING := ClipRouting(StreamSelection(Automatic, 0), StreamSelection(Automatic, 0))
  const DEFAULT_PLAYBACK := TrackPlayback(true, false, 1000)
  const DEFAULT_OUTPUT := SequenceOutput(1920, 1080, 48000, 2)

  // ----- text and streams

  predicate ValidText(text: string) {
    && 0 < |text| <= MAX_TEXT
    && forall i :: 0 <= i < |text| ==> text[i] as int >= 32 && text[i] as int != 127
  }

  predicate OccursAt(text: string, part: string, i: nat) {
    i + |part| <= |text| && text[i..i + |part|] == part
  }

  predicate Contains(text: string, part: string) {
    exists i :: 0 <= i <= |text| && OccursAt(text, part, i)
  }

  /** A stream's own span; unknown tick counts use the estimate or the fallback. */
  function StreamDuration(stream: SourceStream, fallback: Time): Option<Time> {
    if stream.durationTicks == -1 then
      Some(if stream.durationEstimate == Zero then fallback else stream.durationEstimate)
    else if stream.durationTicks <= 0 || stream.timeBase == Zero then
      None
    else
      var scaled := FromTicks(stream.durationTicks, stream.timeBase);
      if scaled.None? then None else Some(scaled.value.magnitude)
  }

  /** `stream_duration`. */
  method SpanOf(stream: SourceStream, fallback: Time) returns (span: Option<Time>)
    ensures span == StreamDuration(stream, fallback)
  {
    if stream.durationTicks == -1 {
      return Some(if stream.durationEstimate == Zero then fallback else stream.durationEstimate);
    }
    if stream.durationTicks <= 0 || stream.timeBase == Zero {
      return None;
    }
    var ticks :- FromTicks(stream.durationTicks, stream.timeBase);
    return Some(ticks.magnitude);
  }

  /** `std::string::find`, as far as whether there is a match. */
  method Find(text: string, part: string) returns (found: bool)
    ensures found <==> Contains(text, part)
  {
    for i := 0 to |text| + 1
      invariant forall j :: 0 <= j < i ==> !OccursAt(text, part, j)
    {
      if i + |part| <= |text| && text[i..i + |part|] == part {
        assert OccursAt(text, part, i);
        return true;
      }
    }
    return false;
  }

  function StreamStart(source: SourceMetadata, stream: SourceStream): Option<SourceTime> {
    if !stream.startKnown && !(|source.streams| == 1 && stream.kind == AudioTrack) then
      None
    else
      FromTicks(stream.startTicks, stream.timeBase)
  }

  /** The earliest start among the first `n` streams, or nothing when one of them has no known start. */
  ghost predicate IsOriginOf(source: SourceMetadata, n: nat, origin: Option<SourceTime>)
    requires n <= |source.streams|
  {
    && (origin.Some? ==>
          && (forall i :: 0 <= i < n ==>
                && StreamStart(source, source.streams[i]).Some?
                && origin.value.At() <= StreamStart(source, source.streams[i]).value.At())
          && (exists i :: 0 <= i < n && StreamStart(source, source.streams[i]) == origin))
    && (origin.None? ==>
          n == 0 || exists i :: 0 <= i < n && StreamStart(source, source.streams[i]).None?)
  }

  function Origin(source: SourceMetadata, n: nat): (origin: Option<SourceTime>)
    requires n <= |source.streams|
    ensures IsOriginOf(source, n, origin)
  {
    if n == 0 then
      None
    else
      var start := StreamStart(source, source.streams[n - 1]);
      if n == 1 || start.None? then
        start
      else
        var before := Origin(source, n - 1);
        if before.Some? && start.value.At() < before.value.At() then start else before
  }

  function SourceOrigin(source: SourceMetadata): Option<SourceTime> {
    Origin(source, |source.streams|)
  }

  /** `source_origin`: one pass that keeps the earliest start seen so far. */
  method ComputeSourceOrigin(source: SourceMetadata) returns (origin: Option<SourceTime>)
    ensures origin == SourceOrigin(source)
    ensures IsOriginOf(source, |source.streams|, origin)
  {
    origin := None;
    for i := 0 to |source.streams|
      invariant origin == Origin(source, i)
      invariant i > 0 ==> origin.Some?
    {
      var stream := source.streams[i];
      if !stream.startKnown && !(|source.streams| == 1 && stream.kind == AudioTrack) {
        OriginNeedsEveryStart(source, i, |source.streams|);
        return None;
      }
      var start := FromTicks(stream.startTicks, stream.timeBase);
      if start.None? {
        OriginNeedsEveryStart(source, i, |source.streams|);
        return None;
      }
      if origin.None? || start.value.At() < origin.value.At() {
        origin := start;
      }
    }
  }

  lemma OriginNeedsEveryStart(source: SourceMetadata, i: nat, n: nat)
    requires i < n <= |source.streams| && StreamStart(source, source.streams[i]).None?
    ensures Origin(source, n).None?
  {
  }

  function StreamOffset(source: SourceMetadata, stream: SourceStream): Option<Time> {
    var start := FromTicks(stream.startTicks, stream.timeBase);
    var origin := SourceOrigin(source);
    if start.None? || origin.None? then None else Since(start.value, origin.value)
  }

  /** The container duration, measured from the shared origin for Matroska sources. */
  function FallbackDuration(source: SourceMetadata): Option<Time> {
    if source.timeMode == SharedOrigin && Contains(source.container, "matroska") && source.containerDuration != Zero
    then
      var origin := SourceOrigin(source);
      if origin.None? then None else Since(SignedTime(source.containerDuration, false), origin.value)
    else
      Some(source.containerDuration)
  }

  /** How far a stream reaches: its span, moved by its offset under a shared origin. */
  function StreamReach(source: SourceMetadata, stream: SourceStream): (r: Option<Time>)
    ensures r.Some? ==> r.value != Zero
  {
    var fallback := FallbackDuration(source);
    if fallback.None? then None else
      var duration := StreamDuration(stream, fallback.value);
      if duration.None? then None else
        var reach :=
          if source.timeMode == LegacyPerStream then
            duration
          else
            var offset := StreamOffset(source, stream);
            if offset.None? then None
            else if stream.durationTicks != -1 || stream.durationEstimate != Zero then
              Plus(offset.value, duration.value)
            else duration;
        if reach.None? || reach.value == Zero then None else reach
  }

  /** One turn of the loop of `source_duration`: how far a stream reaches. */
  method ReachOf(source: SourceMetadata, stream: SourceStream) returns (reach: Option<Time>)
    ensures reach == StreamReach(source, stream)
  {
    hide RationalTime.Seconds, Contains, Origin, StreamDuration;
    var fallback := source.containerDuration;
    var matroska := Find(source.container, "matroska");
    if source.timeMode == SharedOrigin && matroska && fallback != Zero {
      var origin := ComputeSourceOrigin(source);
      if origin.None? { return None; }
      fallback :- Since(SignedTime(fallback, false), origin.value);
    }
    var span := SpanOf(stream, fallback);
    if span.None? { return None; }
    reach := span;
    if source.timeMode == SharedOrigin {
      var start := FromTicks(stream.startTicks, stream.timeBase);
      var origin := ComputeSourceOrigin(source);
      if start.None? || origin.None? { return None; }
      var offset :- Since(start.value, origin.value);
      if stream.durationTicks != -1 || stream.durationEstimate != Zero {
        reach := Plus(offset, span.value);
      }
    }
    if reach == Some(Zero) { return None; }
  }

  // Exact seconds, in terms of a source's fields.

  ghost function StartSeconds(stream: SourceStream): real {
    stream.startTicks as real * stream.timeBase.Seconds()
  }

  /** A stream has a span of its own: counted in ticks, or estimated. */
  predicate OwnSpan(stream: SourceStream) {
    stream.durationTicks > 0 || stream.durationEstimate.value > 0
  }

  /** The span of its own, or else what the container promises. */
  ghost function SpanSeconds(stream: SourceStream, container: real): real {
    if stream.durationTicks > 0 then stream.durationTicks as real * stream.timeBase.Seconds()
    else if stream.durationEstimate.value > 0 then stream.durationEstimate.Seconds()
    else container
  }

  /**
   How far a stream reaches, exactly. A legacy stream reaches over its span. Under a shared clock its span begins at
   its own start, measured from the earliest start of all; without a span of its own it reaches as far as the
   container, which Matroska measures from zero.
   */
  lemma ReachMeans(source: SourceMetadata, stream: SourceStream) returns (first: nat)
    requires StreamReach(source, stream).Some?
    ensures var reach, container := StreamReach(source, stream).value.Seconds(), source.containerDuration.Seconds();
            if source.timeMode == LegacyPerStream then
              reach == SpanSeconds(stream, container)
            else
              && first < |source.streams|
              && (forall i :: 0 <= i < |source.streams| ==>
                    StartSeconds(source.streams[first]) <= StartSeconds(source.streams[i]))
              && reach == if OwnSpan(stream) then
                            StartSeconds(stream) - StartSeconds(source.streams[first]) + SpanSeconds(stream, container)
                          else if Contains(source.container, "matroska") && source.containerDuration.value > 0 then
                            container - StartSeconds(source.streams[first])
                          else container
    ensures StreamReach(source, stream).value.Seconds() > 0.0
  {
    hide RationalTime.Seconds, Contains, SourceOrigin, StreamDuration, SpanSeconds, StreamOffset, StartSeconds;
    hide FallbackDuration, SignedTime.At;
    first := 0;
    SignOfMagnitude(stream.durationEstimate);
    SignOfMagnitude(source.containerDuration);
    SignOfMagnitude(StreamReach(source, stream).value);
    FallbackMeans(source);
    SpanMeans(stream, FallbackDuration(source).value);
    if OwnSpan(stream) {
      SpanIsOwn(stream, FallbackDuration(source).value.Seconds(), source.containerDuration.Seconds());
    }
    OwnSpanMeans(stream, FallbackDuration(source).value);
    if source.timeMode == SharedOrigin {
      OriginIsNeeded(source, stream);
      first := FirstStart(source);
      OffsetMeans(source, stream, first);
    }
  }

  lemma OriginIsNeeded(source: SourceMetadata, stream: SourceStream)
    requires source.timeMode == SharedOrigin && StreamReach(source, stream).Some?
    ensures SourceOrigin(source).Some? && StreamOffset(source, stream).Some?
  {
    hide RationalTime.Seconds, Contains, SourceOrigin, StreamDuration;
  }

  lemma FallbackMeans(source: SourceMetadata)
    requires FallbackDuration(source).Some?
    ensures FallbackDuration(source).value.Seconds() ==
            if && source.timeMode == SharedOrigin && Contains(source.container, "matroska")
               && source.containerDuration.value > 0
            then source.containerDuration.Seconds() - SourceOrigin(source).value.At()
            else source.containerDuration.Seconds()
  {
    hide RationalTime.Seconds, Contains, SourceOrigin;
    SignOfMagnitude(source.containerDuration);
  }

  lemma OwnSpanMeans(stream: SourceStream, fallback: Time)
    requires StreamDuration(stream, fallback).Some?
    ensures OwnSpan(stream) <==> stream.durationTicks != -1 || stream.durationEstimate != Zero
    ensures !OwnSpan(stream) ==> StreamDuration(stream, fallback) == Some(fallback)
  {
    hide RationalTime.Seconds;
    SignOfMagnitude(stream.durationEstimate);
  }

  lemma OffsetMeans(source: SourceMetadata, stream: SourceStream, first: nat)
    requires SourceOrigin(source).Some? && first < |source.streams|
    requires SourceOrigin(source).value.At() == StartSeconds(source.streams[first])
    ensures StreamOffset(source, stream).Some? ==>
              StreamOffset(source, stream).value.Seconds()
              == StartSeconds(stream) - StartSeconds(source.streams[first])
  {
    hide RationalTime.Seconds, SignedTime.At, Origin, StartSeconds;
    StartsAt(stream);
  }

  /** Where an origin exists it is the start of some stream, and no stream starts earlier. */
  lemma FirstStart(source: SourceMetadata) returns (first: nat)
    requires SourceOrigin(source).Some?
    ensures first < |source.streams| && SourceOrigin(source).value.At() == StartSeconds(source.streams[first])
    ensures forall i :: 0 <= i < |source.streams| ==>
              StartSeconds(source.streams[first]) <= StartSeconds(source.streams[i])
  {
    hide RationalTime.Seconds, StartSeconds, SignedTime.At, Origin;
    var origin := SourceOrigin(source);
    assert IsOriginOf(source, |source.streams|, origin);
    forall i | 0 <= i < |source.streams|
      ensures StreamStart(source, source.streams[i]).Some? ==>
                StreamStart(source, source.streams[i]).value.At() == StartSeconds(source.streams[i])
    {
      StartsAt(source.streams[i]);
    }
    first :| 0 <= first < |source.streams| && StreamStart(source, source.streams[first]) == origin;
  }

  lemma StartsAt(stream: SourceStream)
    ensures FromTicks(stream.startTicks, stream.timeBase).Some? ==>
              FromTicks(stream.startTicks, stream.timeBase).value.At() == StartSeconds(stream)
  {
    hide RationalTime.Seconds, SignedTime.At;
  }

  lemma SpanIsOwn(stream: SourceStream, a: real, b: real)
    requires OwnSpan(stream)
    ensures SpanSeconds(stream, a) == SpanSeconds(stream, b)
  {
  }

  lemma SpanMeans(stream: SourceStream, fallback: Time)
    requires StreamDuration(stream, fallback).Some?
    ensures StreamDuration(stream, fallback).value.Seconds() == SpanSeconds(stream, fallback.Seconds())
  {
    hide RationalTime.Seconds;
    SignOfMagnitude(stream.durationEstimate);
    if stream.durationTicks > 0 { SignedSpan(stream); }
  }

  lemma SignedSpan(stream: SourceStream)
    requires stream.durationTicks > 0 && FromTicks(stream.durationTicks, stream.timeBase).Some?
    ensures FromTicks(stream.durationTicks, stream.timeBase).value.magnitude.Seconds()
            == stream.durationTicks as real * stream.timeBase.Seconds()
  {
    hide RationalTime.Seconds;
    var span := FromTicks(stream.durationTicks, stream.timeBase).value;
    SignOfMagnitude(span.magnitude);
    SignOfMagnitude(stream.timeBase);
  }

  /** Under a shared origin the furthest reach wins; legacy sources keep the shortest stream. */
  predicate Improves(longest: bool, candidate: Time, current: Time) {
    if longest then candidate.Seconds() > current.Seconds() else candidate.Seconds() < current.Seconds()
  }

  /** The extreme of all reaches when every one is known; nothing when one is not, or there is none. */
  ghost predicate IsExtreme(reaches: seq<Option<Time>>, longest: bool, extreme: Option<Time>) {
    if reaches == [] || None in reaches then
      extreme == None
    else
      && extreme in reaches
      && forall r :: r in reaches ==> !Improves(longest, r.value, extreme.value)
  }

  function Extreme(reaches: seq<Option<Time>>, longest: bool): (extreme: Option<Time>) {
    if reaches == [] then
      None
    else
      var n := |reaches| - 1;
      var before := Extreme(reaches[..n], longest);
      if n == 0 || reaches[n].None? then
        reaches[n]
      else if before.Some? && Improves(longest, reaches[n].value, before.value) then
        reaches[n]
      else
        before
  }

  lemma {:induction false} ExtremeIsExtreme(reaches: seq<Option<Time>>, longest: bool)
    ensures IsExtreme(reaches, longest, Extreme(reaches, longest))
  {
    hide RationalTime.Seconds;
    if reaches != [] {
      var n := |reaches| - 1;
      ExtremeIsExtreme(reaches[..n], longest);
      assert reaches == reaches[..n] + [reaches[n]];
    }
  }

  function Reaches(source: SourceMetadata): seq<Option<Time>> {
    seq(|source.streams|, i requires 0 <= i < |source.streams| => StreamReach(source, source.streams[i]))
  }

  function SourceDuration(source: SourceMetadata): Option<Time> {
    Extreme(Reaches(source), source.timeMode == SharedOrigin)
  }

  /** `source_duration`: one pass that keeps the longest (or shortest) reach. */
  method ComputeSourceDuration(source: SourceMetadata) returns (duration: Option<Time>)
    ensures duration == SourceDuration(source)
    ensures IsExtreme(Reaches(source), source.timeMode == SharedOrigin, duration)
  {
    hide RationalTime.Seconds, StreamReach;
    ghost var longest := source.timeMode == SharedOrigin;
    ghost var reaches := Reaches(source);
    ExtremeIsExtreme(reaches, longest);
    duration := None;
    for i := 0 to |source.streams|
      invariant duration == Extreme(reaches[..i], longest)
      invariant i > 0 ==> duration.Some?
    {
      assert reaches[..i + 1][..i] == reaches[..i];
      var reach := ReachOf(source, source.streams[i]);
      assert reach == reaches[i];
      if reach.None? {
        return None;
      }
      if duration.None?
         || (if source.timeMode == SharedOrigin then reach.value.Seconds() > duration.value.Seconds()
             else reach.value.Seconds() < duration.value.Seconds())
      {
        duration := reach;
      }
    }
    assert reaches[..|reaches|] == reaches;
  }

  function SourceKind(source: SourceMetadata): Option<MediaKind> {
    var video := exists i :: 0 <= i < |source.streams| && source.streams[i].kind == VideoTrack;
    var audio := exists i :: 0 <= i < |source.streams| && source.streams[i].kind == AudioTrack;
    if !video && !audio then None
    else Some(if video && audio then AudioVideo else if video then VideoOnly else AudioOnly)
  }

  /** `source_kind`. */
  method KindOf(source: SourceMetadata) returns (kind: Option<MediaKind>)
    ensures kind == SourceKind(source)
  {
    var video, audio := false, false;
    for i := 0 to |source.streams|
      invariant video <==> exists j :: 0 <= j < i && source.streams[j].kind == VideoTrack
      invariant audio <==> exists j :: 0 <= j < i && source.streams[j].kind == AudioTrack
    {
      video := video || source.streams[i].kind == VideoTrack;
      audio := audio || source.streams[i].kind == AudioTrack;
    }
    if !video && !audio { return None; }
    return Some(if video && audio then AudioVideo else if video then VideoOnly else AudioOnly);
  }

  predicate ValidStream(stream: SourceStream) {
    && ValidText(stream.codec)
    && stream.timeBase != Zero
    && stream.durationTicks >= -1 && stream.durationTicks != 0
    && (!stream.startKnown ==> stream.startTicks == 0)
    && (match stream.kind
        case VideoTrack =>
          stream.width > 0 && stream.height > 0 && stream.sampleRate == 0 && stream.channels == 0
        case AudioTrack =>
          && stream.sampleRate > 0 && stream.channels > 0 && stream.width == 0 && stream.height == 0
          && stream.frameDuration == Zero && stream.nominalFrameDuration == Zero)
  }

  predicate ValidSource(source: SourceMetadata) {
    && ValidText(source.container) && ValidText(source.probeVersion) && ValidText(source.probeConfiguration)
    && source.byteSize > 0 && 0 < |source.streams| <= 64
    && (forall i :: 0 <= i < |source.streams| ==> ValidStream(source.streams[i]))
    && (forall i, j :: 0 <= i < j < |source.streams| ==> source.streams[i].index != source.streams[j].index)
    && SourceDuration(source).Some?
  }

  // ----- routing

  predicate Supports(media: MediaKind, track: TrackKind) {
    media == AudioVideo || (media == VideoOnly && track == VideoTrack) || (media == AudioOnly && track == AudioTrack)
  }

  predicate Selects(selection: StreamSelection, kind: TrackKind, stream: SourceStream) {
    stream.kind == kind && (selection.mode == Automatic || stream.index == selection.index)
  }

  function FirstStream(streams: seq<SourceStream>, kind: TrackKind, selection: StreamSelection): Option<uint32> {
    if streams == [] then None
    else if Selects(selection, kind, streams[0]) then Some(streams[0].index)
    else FirstStream(streams[1..], kind, selection)
  }

  function SelectStream(asset: MediaAsset, kind: TrackKind, selection: StreamSelection): Option<uint32> {
    if selection.mode == Disabled || asset.source.None? then None
    else FirstStream(asset.source.value.streams, kind, selection)
  }

  /** The stream a selection stands for, by its index: the first one of the kind, or the one that was named; none when
      the selection is disabled, the file was never probed, or it has no such stream. */
  ghost predicate Denotes(asset: MediaAsset, kind: TrackKind, selection: StreamSelection, stream: Option<uint32>) {
    if selection.mode == Disabled || asset.source.None? then
      stream == None
    else
      var streams := asset.source.value.streams;
      match selection.mode
      case Automatic =>
        if stream.None? then forall i :: 0 <= i < |streams| ==> streams[i].kind != kind
        else
          exists i :: && 0 <= i < |streams| && streams[i].kind == kind && streams[i].index == stream.value
                      && forall j :: 0 <= j < i ==> streams[j].kind != kind
      case Explicit =>
        if exists i :: 0 <= i < |streams| && streams[i].kind == kind && streams[i].index == selection.index
        then stream == Some(selection.index)
        else stream == None
  }

  /** `select_stream`: the first stream of the kind that the selection admits. */
  method ChooseStream(asset: MediaAsset, kind: TrackKind, selection: StreamSelection) returns (stream: Option<uint32>)
    ensures stream == SelectStream(asset, kind, selection)
    ensures Denotes(asset, kind, selection, stream)
  {
    SelectionDenotes(asset, kind, selection);
    if selection.mode == Disabled || asset.source.None? {
      return None;
    }
    var streams := asset.source.value.streams;
    assert streams[0..] == streams;
    for i := 0 to |streams|
      invariant FirstStream(streams[i..], kind, selection) == FirstStream(streams, kind, selection)
    {
      assert streams[i..][1..] == streams[i + 1..];
      if streams[i].kind == kind && (selection.mode == Automatic || streams[i].index == selection.index) {
        return Some(streams[i].index);
      }
    }
    return None;
  }

  lemma {:induction false} FirstStreamIsFirst(streams: seq<SourceStream>, kind: TrackKind, selection: StreamSelection)
    returns (k: nat)
    ensures k <= |streams| && forall j :: 0 <= j < k ==> !Selects(selection, kind, streams[j])
    ensures FirstStream(streams, kind, selection) == if k == |streams| then None else Some(streams[k].index)
    ensures k < |streams| ==> Selects(selection, kind, streams[k])
  {
    k := 0;
    if streams != [] && !Selects(selection, kind, streams[0]) {
      var rest := FirstStreamIsFirst(streams[1..], kind, selection);
      k := rest + 1;
    }
  }

  lemma SelectionDenotes(asset: MediaAsset, kind: TrackKind, selection: StreamSelection)
    ensures Denotes(asset, kind, selection, SelectStream(asset, kind, selection))
  {
    hide FirstStream;
    if selection.mode != Disabled && asset.source.Some? {
      var k := FirstStreamIsFirst(asset.source.value.streams, kind, selection);
    }
  }

  predicate ValidSelection(selection: StreamSelection, kind: TrackKind, asset: MediaAsset, track: TrackKind) {
    && (selection.mode != Explicit ==> selection.index == 0)
    && (selection.mode == Explicit ==>
          SelectStream(asset, kind, selection).Some? && (kind == VideoTrack ==> track == VideoTrack))
  }

  predicate ValidRouting(routing: ClipRouting, asset: MediaAsset, track: TrackKind) {
    && ValidSelection(routing.video, VideoTrack, asset, track)
    && ValidSelection(routing.audio, AudioTrack, asset, track)
  }

  // ----- validation

  predicate ClipLess(a: Clip, b: Clip) {
    if a.position == b.position then a.id < b.id else a.position.Seconds() < b.position.Seconds()
  }

  predicate ValidActor(actor: Actor) {
    ValidText(actor.id)
  }

  predicate ValidRecord(operations: seq<OperationRecord>, i: nat)
    requires i < |operations|
  {
    var operation := operations[i];
    && operation.id == i + 1 && operation.revision == i + 1
    && ValidActor(operation.actor) && ValidText(operation.caption)
    && (match operation.kind
        case Edit => operation.target == 0 && 0 < |operation.actions| <= MAX_BATCH_COMMANDS
        case Undo => ValidTarget(operations, i)
        case Redo => ValidTarget(operations, i))
    && forall j :: 0 <= j < |operation.actions| ==> ValidText(operation.actions[j])
  }

  predicate ValidTarget(operations: seq<OperationRecord>, i: nat)
    requires i < |operations|
  {
    var operation := operations[i];
    operation.actions == [] && 0 < operation.target <= i && operations[operation.target - 1].kind == Edit
  }

  predicate ValidLog(revision: uint64, operations: seq<OperationRecord>) {
    && revision == |operations| <= MAX_OPERATIONS
    && forall i :: 0 <= i < |operations| ==> ValidRecord(operations, i)
  }

  predicate ValidAsset(asset: MediaAsset) {
    && ValidText(asset.name)
    && asset.duration != Zero
    && (asset.source.Some? ==>
          && ValidSource(asset.source.value)
          && SourceDuration(asset.source.value) == Some(asset.duration)
          && SourceKind(asset.source.value) == Some(asset.kind)
          && exists i :: 0 <= i < |asset.locations| && asset.locations[i].role == Original)
    && (forall i :: 0 <= i < |asset.locations| ==> ValidText(asset.locations[i].uri))
    && (forall i, j :: 0 <= i < j < |asset.locations| ==> asset.locations[i].role != asset.locations[j].role)
  }

  predicate ValidOutput(output: SequenceOutput) {
    && 2 <= output.width <= 3840 && 2 <= output.height <= 2160
    && output.width % 2 == 0 && output.height % 2 == 0
    && output.sampleRate == 48000 && output.channels == 2
  }

  function FindAsset(media: seq<MediaAsset>, id: uint64): (r: Option<nat>)
    ensures r.Some? ==> r.value < |media| && media[r.value].id == id
    ensures r.None? ==> forall i :: 0 <= i < |media| ==> media[i].id != id
  {
    if media == [] then None
    else if media[0].id == id then Some(0)
    else
      var rest := FindAsset(media[1..], id);
      if rest.None? then None else Some(rest.value + 1)
  }

  predicate ValidClip(clip: Clip, media: seq<MediaAsset>, track: TrackKind) {
    var found := FindAsset(media, clip.media);
    && found.Some?
    && Supports(media[found.value].kind, track)
    && ValidRouting(clip.routing, media[found.value], track)
    && clip.source.duration != Zero
    && clip.source.End().Some? && clip.source.End().value.Seconds() <= media[found.value].duration.Seconds()
    && clip.End().Some?
  }

  /** Clips sit in timeline order and each starts no earlier than its predecessor ends. */
  predicate Ordered(clips: seq<Clip>)
    requires forall i :: 0 <= i < |clips| ==> clips[i].End().Some?
  {
    && (forall i :: 0 < i < |clips| ==> !ClipLess(clips[i], clips[i - 1]))
    && (forall i :: 0 < i < |clips| ==> clips[i - 1].End().value.Seconds() <= clips[i].position.Seconds())
  }

  predicate ValidTrack(track: Track, media: seq<MediaAsset>) {
    && ValidText(track.name)
    && track.playback.gainMilli <= 4000
    && (forall i :: 0 <= i < |track.clips| ==> ValidClip(track.clips[i], media, track.kind))
    && Ordered(track.clips)
  }

  predicate ValidSequence(sequence: Sequence, media: seq<MediaAsset>) {
    && ValidText(sequence.name)
    && ValidOutput(sequence.output)
    && sequence.frameDuration != Zero
    && forall i :: 0 <= i < |sequence.tracks| ==> ValidTrack(sequence.tracks[i], media)
  }

  // Every object ID in the order validation meets it.

  function ClipIds(clips: seq<Clip>): seq<uint64> {
    seq(|clips|, i requires 0 <= i < |clips| => clips[i].id)
  }

  function TrackIds(tracks: seq<Track>): seq<uint64> {
    if tracks == [] then [] else [tracks[0].id] + ClipIds(tracks[0].clips) + TrackIds(tracks[1..])
  }

  function SequenceIds(sequences: seq<Sequence>): seq<uint64> {
    if sequences == [] then []
    else [sequences[0].id] + TrackIds(sequences[0].tracks) + SequenceIds(sequences[1..])
  }

  function MediaIds(media: seq<MediaAsset>): seq<uint64> {
    seq(|media|, i requires 0 <= i < |media| => media[i].id)
  }

  function ObjectIds(project: ProjectSnapshot): seq<uint64> {
    MediaIds(project.media) + SequenceIds(project.sequences)
  }

  predicate NoDuplicates(ids: seq<uint64>) {
    forall i, j :: 0 <= i < j < |ids| ==> ids[i] != ids[j]
  }

  predicate Allocated(ids: seq<uint64>, nextId: uint64) {
    forall i :: 0 <= i < |ids| ==> 0 < ids[i] < nextId
  }

  /** Everything an edit can change: identity, name, objects and the allocation watermark. */
  predicate ValidContent(project: ProjectSnapshot) {
    && project.id > 0 && project.nextId > 0
    && ValidText(project.name)
    && (forall i :: 0 <= i < |project.media| ==> ValidAsset(project.media[i]))
    && (forall i :: 0 <= i < |project.sequences| ==> ValidSequence(project.sequences[i], project.media))
    && NoDuplicates(ObjectIds(project))
    && Allocated(ObjectIds(project), project.nextId)
  }

  predicate Valid(project: ProjectSnapshot) {
    ValidContent(project) && ValidLog(project.revision, project.operations)
  }
}
