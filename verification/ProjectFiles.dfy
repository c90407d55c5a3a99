/** The native format's reader and writer as they run: one stream consumed under a record budget, one stream appended to
    (`Reader`, `serialize` and `deserialize` in `src/project/persistence.cpp`), each proved against the functions of
    `Persistence`. */
module ProjectFiles {
  import opened Wrappers
  import opened RationalTimes
  import opened SourceTimes
  import opened Model
  import opened Lexing
  import opened Persistence
  import Validation

  /** A step of the reader did what the specification says, and failed exactly when it does. */
  ghost predicate Agrees<T>(r: Option<T>, spec: Parsed<T>, after: State) {
    if r.None? then spec.Bad? else spec == Good(r.value, after)
  }

  /** What a list reads as when `done` has been read and the rest is still to come. */
  ghost function Prepend<T>(done: seq<T>, rest: Parsed<seq<T>>): Parsed<seq<T>> {
    match rest
    case Bad => Bad
    case Good(value, next) => Good(done + value, next)
  }

  lemma PrependOne<T>(done: seq<T>, first: T, rest: Parsed<seq<T>>)
    ensures rest.Good? ==> Prepend(done, Good([first] + rest.value, rest.next)) == Prepend(done + [first], rest)
  {
    if rest.Good? {
      assert done + ([first] + rest.value) == done + [first] + rest.value;
    }
  }

  lemma PrependNone<T>(rest: Parsed<seq<T>>)
    ensures Prepend([], rest) == rest
  {
    if rest.Good? {
      assert [] + rest.value == rest.value;
    }
  }

  lemma PrependAll<T>(done: seq<T>, next: State)
    ensures Prepend(done, Good([], next)) == Good(done, next)
  {
    assert done + [] == done;
  }

  class Reader {
    var rest: string
    var remaining: nat

    function Now(): State
      reads this
    {
      State(rest, remaining)
    }

    constructor (data: string)
      ensures Now() == State(data, MAX_RECORDS)
    {
      rest, remaining := data, 100000;
    }

    /** One token, or one record without a list: the stream moves behind it. */
    method Take<T>(parsed: Parsed<T>) returns (r: Option<T>)
      modifies this
      ensures Agrees(r, parsed, Now())
    {
      if parsed.Bad? { return None; }
      rest, remaining := parsed.next.rest, parsed.next.remaining;
      return Some(parsed.value);
    }

    /** Every announced record is paid for before it is read. */
    method Count() returns (r: Option<nat>)
      modifies this
      ensures Agrees(r, Lexing.Count(old(Now())), Now())
    {
      var value :- Take(Unsigned64(Now()));
      if value > remaining { return None; }
      remaining := remaining - value;
      return Some(value);
    }

    // ----- records without a list

    method ReadTime() returns (r: Option<Time>)
      modifies this
      ensures Agrees(r, ParseTime(old(Now())), Now())
    {
      hide RationalTime.Seconds, Signed64, Make;
      var value :- Take(Signed64(Now()));
      var rate :- Take(Signed64(Now()));
      r := Make(value, rate);
    }

    /** A flag is 0 or 1. */
    method ReadFlag() returns (r: Option<bool>)
      modifies this
      ensures Agrees(r, ParseFlag(old(Now())), Now())
    {
      hide Unsigned32;
      var value :- Take(Unsigned32(Now()));
      if value > 1 { return None; }
      return Some(value == 1);
    }

    method Location() returns (r: Option<MediaLocation>)
      modifies this
      ensures Agrees(r, ParseLocation(old(Now())), Now())
    {
      hide RationalTime.Seconds, Expect, Quoted, Unsigned64;
      var _ :- Take(Expect(Now(), "LOCATION"));
      var code :- Take(Unsigned64(Now()));
      if code > 1 { return None; }
      var uri :- Take(Quoted(Now()));
      return Some(MediaLocation(if code == 0 then Original else Proxy, uri));
    }

    method Stream(version: int) returns (r: Option<SourceStream>)
      modifies this
      ensures Agrees(r, ParseStream(version, old(Now())), Now())
    {
      hide RationalTime.Seconds, Expect, Quoted, Unsigned32, Unsigned64, Signed64, Lexing.Count, ParseTime, ParseFlag;
      var _ :- Take(Expect(Now(), "STREAM"));
      var index :- Take(Unsigned32(Now()));
      var code :- Take(Unsigned32(Now()));
      if code > 1 { return None; }
      var codec :- Take(Quoted(Now()));
      var timeBase :- ReadTime();
      var durationTicks :- Take(Signed64(Now()));
      var startKnown :- ReadFlag();
      var startTicks :- Take(Signed64(Now()));
      var frameDuration :- ReadTime();
      var nominal :- ReadTime();
      var width :- Take(Unsigned32(Now()));
      var height :- Take(Unsigned32(Now()));
      var sampleRate :- Take(Unsigned32(Now()));
      var channels :- Take(Unsigned32(Now()));
      var estimate := Zero;
      if version >= 4 {
        estimate :- ReadTime();
      }
      return Some(SourceStream(index, if code == 0 then VideoTrack else AudioTrack, codec, timeBase, durationTicks,
                               startTicks, startKnown, frameDuration, nominal, width, height, sampleRate, channels,
                               estimate));
    }

    method Start() returns (r: Option<Option<SourceTime>>)
      modifies this
      ensures Agrees(r, ParseStart(old(Now())), Now())
    {
      hide RationalTime.Seconds, Signed64, ParseFlag, MakeSource;
      var known :- ReadFlag();
      if !known { return Some(None); }
      var value :- Take(Signed64(Now()));
      var rate :- Take(Signed64(Now()));
      var made := MakeSource(value, rate);
      if made.None? { return None; }
      return Some(made);
    }

    method Clock(version: int) returns (r: Option<(SourceTimeMode, Option<SourceTime>)>)
      modifies this
      ensures Agrees(r, ParseClock(version, old(Now())), Now())
    {
      hide RationalTime.Seconds, Expect, Unsigned32, ParseStart;
      if version < 4 { return Some((LegacyPerStream, None)); }
      var _ :- Take(Expect(Now(), "CLOCK"));
      var mode :- Take(Unsigned32(Now()));
      if mode > 1 { return None; }
      var start :- Start();
      return Some((if mode == 0 then LegacyPerStream else SharedOrigin, start));
    }

    method Routing(version: int) returns (r: Option<ClipRouting>)
      modifies this
      ensures Agrees(r, ParseRouting(version, old(Now())), Now())
    {
      hide Expect, Unsigned32;
      if version < 5 { return Some(ClipRouting(StreamSelection(Automatic, 0), StreamSelection(Automatic, 0))); }
      var _ :- Take(Expect(Now(), "ROUTING"));
      var video :- Take(Unsigned32(Now()));
      var videoIndex :- Take(Unsigned32(Now()));
      var audio :- Take(Unsigned32(Now()));
      var audioIndex :- Take(Unsigned32(Now()));
      if video > 2 || audio > 2 { return None; }
      return Some(ClipRouting(
        StreamSelection(if video == 0 then Automatic else if video == 1 then Disabled else Explicit, videoIndex),
        StreamSelection(if audio == 0 then Automatic else if audio == 1 then Disabled else Explicit, audioIndex)));
    }

    method Clip(version: int) returns (r: Option<Clip>)
      modifies this
      ensures Agrees(r, ParseClip(version, old(Now())), Now())
    {
      hide RationalTime.Seconds, Expect, Quoted, Unsigned32, Unsigned64, Signed64, Lexing.Count, ParseTime;
      hide ParseRouting;
      var _ :- Take(Expect(Now(), "CLIP"));
      var id :- Take(Unsigned64(Now()));
      var media :- Take(Unsigned64(Now()));
      var position :- ReadTime();
      var start :- ReadTime();
      var duration :- ReadTime();
      var routing :- Routing(version);
      return Some(Model.Clip.Clip(id, media, position, TimeRange(start, duration), routing));
    }

    method Playback(version: int) returns (r: Option<TrackPlayback>)
      modifies this
      ensures Agrees(r, ParsePlayback(version, old(Now())), Now())
    {
      hide Expect, Unsigned32;
      if version < 5 { return Some(TrackPlayback(true, false, 1000)); }
      var _ :- Take(Expect(Now(), "PLAYBACK"));
      var enabled :- Take(Unsigned32(Now()));
      var muted :- Take(Unsigned32(Now()));
      if enabled > 1 || muted > 1 { return None; }
      var gain :- Take(Unsigned32(Now()));
      return Some(TrackPlayback(enabled == 1, muted == 1, gain));
    }

    method Output(version: int) returns (r: Option<SequenceOutput>)
      modifies this
      ensures Agrees(r, ParseOutput(version, old(Now())), Now())
    {
      hide Expect, Unsigned32;
      if version < 5 { return Some(SequenceOutput(1920, 1080, 48000, 2)); }
      var _ :- Take(Expect(Now(), "OUTPUT"));
      var width :- Take(Unsigned32(Now()));
      var height :- Take(Unsigned32(Now()));
      var sampleRate :- Take(Unsigned32(Now()));
      var channels :- Take(Unsigned32(Now()));
      return Some(SequenceOutput(width, height, sampleRate, channels));
    }

    method Action() returns (r: Option<string>)
      modifies this
      ensures Agrees(r, ParseAction(old(Now())), Now())
    {
      hide Expect, Quoted;
      var _ :- Take(Expect(Now(), "ACTION"));
      r := Take(Quoted(Now()));
    }

    method ReadHeader() returns (r: Option<Header>)
      modifies this
      ensures Agrees(r, ParseHeader(old(Now())), Now())
    {
      hide Expect, Quoted, Unsigned32, Unsigned64;
      var _ :- Take(Expect(Now(), "NLE_PROJECT"));
      var version :- Take(Unsigned32(Now()));
      if version < 1 || version > 5 { return None; }
      var _ :- Take(Expect(Now(), "PROJECT"));
      var id :- Take(Unsigned64(Now()));
      var nextId :- Take(Unsigned64(Now()));
      var name :- Take(Quoted(Now()));
      return Some(Header(version, id, nextId, name));
    }

    /** Nothing but blanks may follow the last word. */
    method End() returns (r: Option<()>)
      modifies this
      ensures Agrees(r, ParseEnd(old(Now())), Now())
    {
      hide Expect, SkipSpace;
      var _ :- Take(Expect(Now(), "END"));
      if SkipSpace(rest) != "" { return None; }
      return Some(());
    }

    // ----- lists, and records that hold them

    method Locations(n: nat) returns (r: Option<seq<MediaLocation>>)
      modifies this
      ensures Agrees(r, ParseLocations(n, old(Now())), Now())
    {
      hide RationalTime.Seconds, ParseLocation;
      var result := [];
      PrependNone(ParseLocations(n, Now()));
      for i := 0 to n
        invariant ParseLocations(n, old(Now())) == Prepend(result, ParseLocations(n - i, Now()))
      {
        var location :- Location();
        PrependOne(result, location, ParseLocations(n - i - 1, Now()));
        result := result + [location];
      }
      PrependAll(result, Now());
      return Some(result);
    }

    method Streams(version: int, n: nat) returns (r: Option<seq<SourceStream>>)
      modifies this
      ensures Agrees(r, ParseStreams(version, n, old(Now())), Now())
    {
      hide RationalTime.Seconds, ParseStream;
      var result := [];
      PrependNone(ParseStreams(version, n, Now()));
      for i := 0 to n
        invariant ParseStreams(version, n, old(Now())) == Prepend(result, ParseStreams(version, n - i, Now()))
      {
        var stream :- Stream(version);
        PrependOne(result, stream, ParseStreams(version, n - i - 1, Now()));
        result := result + [stream];
      }
      PrependAll(result, Now());
      return Some(result);
    }

    method Metadata(version: int) returns (r: Option<SourceMetadata>)
      modifies this
      ensures Agrees(r, ParseMetadata(version, old(Now())), Now())
    {
      hide RationalTime.Seconds, Expect, Quoted, Unsigned32, Unsigned64, Signed64, Lexing.Count, ParseTime;
      hide ParseClock, ParseStreams;
      var _ :- Take(Expect(Now(), "METADATA"));
      var container :- Take(Quoted(Now()));
      var probeVersion :- Take(Quoted(Now()));
      var configuration :- Take(Quoted(Now()));
      var byteSize :- Take(Unsigned64(Now()));
      var duration :- ReadTime();
      var n :- Count();
      var clock :- Clock(version);
      if n > 64 { return None; }
      var streams :- Streams(version, n);
      return Some(SourceMetadata(container, probeVersion, configuration, byteSize, duration, streams, clock.0,
                                 clock.1));
    }

    method Source(version: int) returns (r: Option<Option<SourceMetadata>>)
      modifies this
      ensures Agrees(r, ParseSource(version, old(Now())), Now())
    {
      hide RationalTime.Seconds, Expect, Quoted, Unsigned32, Unsigned64, Signed64, Lexing.Count, ParseTime;
      hide ParseFlag, ParseMetadata;
      if version < 3 { return Some(None); }
      var _ :- Take(Expect(Now(), "SOURCE"));
      var present :- ReadFlag();
      if !present { return Some(None); }
      var metadata :- Metadata(version);
      return Some(Some(metadata));
    }

    method Asset(version: int) returns (r: Option<MediaAsset>)
      modifies this
      ensures Agrees(r, ParseAsset(version, old(Now())), Now())
    {
      hide RationalTime.Seconds, Expect, Quoted, Unsigned32, Unsigned64, Signed64, Lexing.Count, ParseTime;
      hide ParseLocations, ParseSource;
      var _ :- Take(Expect(Now(), "ASSET"));
      var id :- Take(Unsigned64(Now()));
      var code :- Take(Unsigned64(Now()));
      if code > 2 { return None; }
      var kind := if code == 0 then VideoOnly else if code == 1 then AudioOnly else AudioVideo;
      var name :- Take(Quoted(Now()));
      var duration :- ReadTime();
      var n :- Count();
      var locations :- Locations(n);
      var source :- Source(version);
      return Some(MediaAsset(id, name, kind, duration, locations, source));
    }

    method Assets(version: int, n: nat) returns (r: Option<seq<MediaAsset>>)
      modifies this
      ensures Agrees(r, ParseAssets(version, n, old(Now())), Now())
    {
      hide RationalTime.Seconds, ParseAsset;
      var result := [];
      PrependNone(ParseAssets(version, n, Now()));
      for i := 0 to n
        invariant ParseAssets(version, n, old(Now())) == Prepend(result, ParseAssets(version, n - i, Now()))
      {
        var asset :- Asset(version);
        PrependOne(result, asset, ParseAssets(version, n - i - 1, Now()));
        result := result + [asset];
      }
      PrependAll(result, Now());
      return Some(result);
    }

    method Clips(version: int, n: nat) returns (r: Option<seq<Clip>>)
      modifies this
      ensures Agrees(r, ParseClips(version, n, old(Now())), Now())
    {
      hide RationalTime.Seconds, ParseClip;
      var result := [];
      PrependNone(ParseClips(version, n, Now()));
      for i := 0 to n
        invariant ParseClips(version, n, old(Now())) == Prepend(result, ParseClips(version, n - i, Now()))
      {
        var clip :- Clip(version);
        PrependOne(result, clip, ParseClips(version, n - i - 1, Now()));
        result := result + [clip];
      }
      PrependAll(result, Now());
      return Some(result);
    }

    method Track(version: int) returns (r: Option<Track>)
      modifies this
      ensures Agrees(r, ParseTrack(version, old(Now())), Now())
    {
      hide RationalTime.Seconds, Expect, Quoted, Unsigned32, Unsigned64, Signed64, Lexing.Count, ParseTime;
      hide ParsePlayback, ParseClips;
      var _ :- Take(Expect(Now(), "TRACK"));
      var id :- Take(Unsigned64(Now()));
      var code :- Take(Unsigned64(Now()));
      if code > 1 { return None; }
      var kind := if code == 0 then VideoTrack else AudioTrack;
      var name :- Take(Quoted(Now()));
      var n :- Count();
      var playback :- Playback(version);
      var clips :- Clips(version, n);
      return Some(Model.Track.Track(id, name, kind, clips, playback));
    }

    method Tracks(version: int, n: nat) returns (r: Option<seq<Track>>)
      modifies this
      ensures Agrees(r, ParseTracks(version, n, old(Now())), Now())
    {
      hide RationalTime.Seconds, ParseTrack;
      var result := [];
      PrependNone(ParseTracks(version, n, Now()));
      for i := 0 to n
        invariant ParseTracks(version, n, old(Now())) == Prepend(result, ParseTracks(version, n - i, Now()))
      {
        var track :- Track(version);
        PrependOne(result, track, ParseTracks(version, n - i - 1, Now()));
        result := result + [track];
      }
      PrependAll(result, Now());
      return Some(result);
    }

    method Sequence(version: int) returns (r: Option<Sequence>)
      modifies this
      ensures Agrees(r, ParseSequence(version, old(Now())), Now())
    {
      hide RationalTime.Seconds, Expect, Quoted, Unsigned32, Unsigned64, Signed64, Lexing.Count, ParseTime;
      hide ParseOutput, ParseTracks;
      var _ :- Take(Expect(Now(), "SEQUENCE"));
      var id :- Take(Unsigned64(Now()));
      var name :- Take(Quoted(Now()));
      var frameDuration :- ReadTime();
      var n :- Count();
      var output :- Output(version);
      var tracks :- Tracks(version, n);
      return Some(Model.Sequence.Sequence(id, name, frameDuration, tracks, output));
    }

    method Sequences(version: int, n: nat) returns (r: Option<seq<Sequence>>)
      modifies this
      ensures Agrees(r, ParseSequences(version, n, old(Now())), Now())
    {
      hide RationalTime.Seconds, ParseSequence;
      var result := [];
      PrependNone(ParseSequences(version, n, Now()));
      for i := 0 to n
        invariant ParseSequences(version, n, old(Now())) == Prepend(result, ParseSequences(version, n - i, Now()))
      {
        var sequence :- Sequence(version);
        PrependOne(result, sequence, ParseSequences(version, n - i - 1, Now()));
        result := result + [sequence];
      }
      PrependAll(result, Now());
      return Some(result);
    }

    method Actions(n: nat) returns (r: Option<seq<string>>)
      modifies this
      ensures Agrees(r, ParseActions(n, old(Now())), Now())
    {
      hide RationalTime.Seconds, ParseAction;
      var result := [];
      PrependNone(ParseActions(n, Now()));
      for i := 0 to n
        invariant ParseActions(n, old(Now())) == Prepend(result, ParseActions(n - i, Now()))
      {
        var action :- Action();
        PrependOne(result, action, ParseActions(n - i - 1, Now()));
        result := result + [action];
      }
      PrependAll(result, Now());
      return Some(result);
    }

    method Operation() returns (r: Option<OperationRecord>)
      modifies this
      ensures Agrees(r, ParseOperation(old(Now())), Now())
    {
      hide RationalTime.Seconds, Expect, Quoted, Unsigned32, Unsigned64, Signed64, Lexing.Count, ParseTime;
      hide ParseActions;
      var _ :- Take(Expect(Now(), "OP"));
      var id :- Take(Unsigned64(Now()));
      var revision :- Take(Unsigned64(Now()));
      var change :- Take(Unsigned32(Now()));
      if change > 2 { return None; }
      var kind := if change == 0 then Edit else if change == 1 then Undo else Redo;
      var target :- Take(Unsigned64(Now()));
      var actor :- Take(Unsigned32(Now()));
      if actor > 2 { return None; }
      var actorKind := if actor == 0 then Human else if actor == 1 then Agent else System;
      var actorId :- Take(Quoted(Now()));
      var caption :- Take(Quoted(Now()));
      var n :- Count();
      if n > 1024 { return None; }
      var actions :- Actions(n);
      return Some(OperationRecord(id, revision, Actor(actorId, actorKind), caption, kind, target, actions));
    }

    method Operations(n: nat) returns (r: Option<seq<OperationRecord>>)
      modifies this
      ensures Agrees(r, ParseOperations(n, old(Now())), Now())
    {
      hide RationalTime.Seconds, ParseOperation;
      var result := [];
      PrependNone(ParseOperations(n, Now()));
      for i := 0 to n
        invariant ParseOperations(n, old(Now())) == Prepend(result, ParseOperations(n - i, Now()))
      {
        var operation :- Operation();
        PrependOne(result, operation, ParseOperations(n - i - 1, Now()));
        result := result + [operation];
      }
      PrependAll(result, Now());
      return Some(result);
    }

    method Audit(version: int) returns (r: Option<(uint64, seq<OperationRecord>)>)
      modifies this
      ensures Agrees(r, ParseAudit(version, old(Now())), Now())
    {
      hide RationalTime.Seconds, Expect, Quoted, Unsigned32, Unsigned64, Signed64, Lexing.Count, ParseTime;
      hide ParseOperations;
      if version < 2 { return Some((0, [])); }
      var _ :- Take(Expect(Now(), "AUDIT"));
      var revision :- Take(Unsigned64(Now()));
      var n :- Count();
      if n > 10000 { return None; }
      var operations :- Operations(n);
      return Some((revision, operations));
    }

    method Project() returns (r: Option<ProjectSnapshot>)
      modifies this
      ensures Agrees(r, ParseProject(old(Now())), Now())
    {
      hide RationalTime.Seconds, Expect, Lexing.Count, ParseHeader, ParseAssets, ParseSequences, ParseAudit, ParseEnd;
      var header :- ReadHeader();
      var _ :- Take(Expect(Now(), "MEDIA"));
      var mediaCount :- Count();
      var media :- Assets(header.version, mediaCount);
      var _ :- Take(Expect(Now(), "SEQUENCES"));
      var sequenceCount :- Count();
      var sequences :- Sequences(header.version, sequenceCount);
      var audit :- Audit(header.version);
      var _ :- End();
      return Some(ProjectSnapshot(header.id, header.name, header.nextId, media, sequences, audit.0, audit.1));
    }
  }

  /** `deserialize`. */
  method ReadProject(data: string) returns (r: Option<ProjectSnapshot>)
    ensures r == Deserialize(data)
  {
    hide RationalTime.Seconds, ParseProject, Valid;
    if |data| > 16 * 1024 * 1024 { return None; }
    var reader := new Reader(data);
    var project :- reader.Project();
    var valid := Validation.Validate(project);
    if !valid { return None; }
    return Some(project);
  }

  /** The output stream, with the part of the document that is still to be written. */
  class Writer {
    var out: string
    ghost var todo: Doc

    /** What the stream holds once everything is written. */
    ghost function Whole(): string
      reads this
    {
      out + Render(todo)
    }

    constructor (ghost doc: Doc)
      ensures todo == doc && Whole() == Render(doc) && out == ""
    {
      out, todo := "", doc;
    }

    method Tag(word: Word, blank: Blank)
      requires todo.Tag? && todo.word == word && todo.blank == blank
      modifies this
      ensures todo == old(todo).tail && Whole() == old(Whole())
    {
      out := out + word + [blank];
      todo := todo.tail;
    }

    method Num(value: int, blank: Blank)
      requires todo.Num? && todo.value == value && todo.blank == blank
      modifies this
      ensures todo == old(todo).tail && Whole() == old(Whole())
    {
      out := out + Decimal(value) + [blank];
      todo := todo.tail;
    }

    method Text(text: string, blank: Blank)
      requires todo.Text? && todo.text == text && todo.blank == blank
      modifies this
      ensures todo == old(todo).tail && Whole() == old(Whole())
    {
      out := out + "\"" + Escaped(text) + "\"" + [blank];
      todo := todo.tail;
    }

    method Time(t: Time, blank: Blank, ghost tail: Doc)
      requires todo == WriteTime(t, blank, tail)
      modifies this
      ensures todo == tail && Whole() == old(Whole())
    {
      Num(t.value, ' ');
      Num(t.rate, blank);
    }

    method Locations(locations: seq<MediaLocation>, ghost tail: Doc)
      requires todo == WriteLocations(locations, tail)
      modifies this
      ensures todo == tail && Whole() == old(Whole())
    {
      hide RationalTime.Seconds, Render;
      for i := 0 to |locations|
        invariant todo == WriteLocations(locations[i..], tail) && Whole() == old(Whole())
      {
        assert locations[i..][0] == locations[i] && locations[i..][1..] == locations[i + 1..];
        Tag("LOCATION", ' ');
        Num(RoleCode(locations[i].role), ' ');
        Text(locations[i].uri, '\n');
      }
    }

    method Stream(s: SourceStream, ghost tail: Doc)
      requires todo == WriteStream(s, tail)
      modifies this
      ensures todo == tail && Whole() == old(Whole())
    {
      hide RationalTime.Seconds, Render;
      Tag("STREAM", ' ');
      Num(s.index, ' ');
      Num(TrackCode(s.kind), ' ');
      Text(s.codec, ' ');
      Num(s.timeBase.value, ' ');
      Num(s.timeBase.rate, ' ');
      Num(s.durationTicks, ' ');
      Num(Flag(s.startKnown), ' ');
      Num(s.startTicks, ' ');
      Num(s.frameDuration.value, ' ');
      Num(s.frameDuration.rate, ' ');
      Num(s.nominalFrameDuration.value, ' ');
      Num(s.nominalFrameDuration.rate, ' ');
      Num(s.width, ' ');
      Num(s.height, ' ');
      Num(s.sampleRate, ' ');
      Num(s.channels, ' ');
      Time(s.durationEstimate, '\n', tail);
    }

    method Streams(streams: seq<SourceStream>, ghost tail: Doc)
      requires todo == WriteStreams(streams, tail)
      modifies this
      ensures todo == tail && Whole() == old(Whole())
    {
      hide RationalTime.Seconds, Render, WriteStream;
      for i := 0 to |streams|
        invariant todo == WriteStreams(streams[i..], tail) && Whole() == old(Whole())
      {
        assert streams[i..][0] == streams[i] && streams[i..][1..] == streams[i + 1..];
        Stream(streams[i], WriteStreams(streams[i + 1..], tail));
      }
    }

    method Start(start: Option<SourceTime>, ghost tail: Doc)
      requires todo == WriteStart(start, tail)
      modifies this
      ensures todo == tail && Whole() == old(Whole())
    {
      hide RationalTime.Seconds, Render;
      if start.None? {
        Num(0, '\n');
      } else {
        var value := start.value.magnitude.value;
        Num(1, ' ');
        Num(if start.value.negative then -value else value, ' ');
        Num(start.value.magnitude.rate, '\n');
      }
    }

    method Source(source: Option<SourceMetadata>, ghost tail: Doc)
      requires todo == WriteSource(source, tail)
      modifies this
      ensures todo == tail && Whole() == old(Whole())
    {
      hide RationalTime.Seconds, Render, WriteStart, WriteStreams;
      Tag("SOURCE", ' ');
      Num(if source.Some? then 1 else 0, '\n');
      if source.Some? {
        var m := source.value;
        Tag("METADATA", ' ');
        Text(m.container, ' ');
        Text(m.probeVersion, ' ');
        Text(m.probeConfiguration, ' ');
        Num(m.byteSize, ' ');
        Num(m.containerDuration.value, ' ');
        Num(m.containerDuration.rate, ' ');
        Num(|m.streams|, '\n');
        Tag("CLOCK", ' ');
        Num(ClockCode(m.timeMode), ' ');
        Start(m.containerStart, WriteStreams(m.streams, tail));
        Streams(m.streams, tail);
      }
    }

    method Asset(a: MediaAsset, ghost tail: Doc)
      requires todo == WriteAsset(a, tail)
      modifies this
      ensures todo == tail && Whole() == old(Whole())
    {
      hide RationalTime.Seconds, Render, WriteLocations, WriteSource;
      Tag("ASSET", ' ');
      Num(a.id, ' ');
      Num(MediaCode(a.kind), ' ');
      Text(a.name, ' ');
      Num(a.duration.value, ' ');
      Num(a.duration.rate, ' ');
      Num(|a.locations|, '\n');
      Locations(a.locations, WriteSource(a.source, tail));
      Source(a.source, tail);
    }

    method Assets(assets: seq<MediaAsset>, ghost tail: Doc)
      requires todo == WriteAssets(assets, tail)
      modifies this
      ensures todo == tail && Whole() == old(Whole())
    {
      hide RationalTime.Seconds, Render, WriteAsset;
      for i := 0 to |assets|
        invariant todo == WriteAssets(assets[i..], tail) && Whole() == old(Whole())
      {
        assert assets[i..][0] == assets[i] && assets[i..][1..] == assets[i + 1..];
        Asset(assets[i], WriteAssets(assets[i + 1..], tail));
      }
    }

    method Clip(c: Clip, ghost tail: Doc)
      requires todo == WriteClip(c, tail)
      modifies this
      ensures todo == tail && Whole() == old(Whole())
    {
      hide RationalTime.Seconds, Render;
      Tag("CLIP", ' ');
      Num(c.id, ' ');
      Num(c.media, ' ');
      Num(c.position.value, ' ');
      Num(c.position.rate, ' ');
      Num(c.source.start.value, ' ');
      Num(c.source.start.rate, ' ');
      Num(c.source.duration.value, ' ');
      Num(c.source.duration.rate, '\n');
      Tag("ROUTING", ' ');
      Num(RouteCode(c.routing.video.mode), ' ');
      Num(c.routing.video.index, ' ');
      Num(RouteCode(c.routing.audio.mode), ' ');
      Num(c.routing.audio.index, '\n');
    }

    method Clips(clips: seq<Clip>, ghost tail: Doc)
      requires todo == WriteClips(clips, tail)
      modifies this
      ensures todo == tail && Whole() == old(Whole())
    {
      hide RationalTime.Seconds, Render, WriteClip;
      for i := 0 to |clips|
        invariant todo == WriteClips(clips[i..], tail) && Whole() == old(Whole())
      {
        assert clips[i..][0] == clips[i] && clips[i..][1..] == clips[i + 1..];
        Clip(clips[i], WriteClips(clips[i + 1..], tail));
      }
    }

    method Track(t: Track, ghost tail: Doc)
      requires todo == WriteTrack(t, tail)
      modifies this
      ensures todo == tail && Whole() == old(Whole())
    {
      hide RationalTime.Seconds, Render, WriteClips;
      Tag("TRACK", ' ');
      Num(t.id, ' ');
      Num(TrackCode(t.kind), ' ');
      Text(t.name, ' ');
      Num(|t.clips|, '\n');
      Tag("PLAYBACK", ' ');
      Num(Flag(t.playback.enabled), ' ');
      Num(Flag(t.playback.muted), ' ');
      Num(t.playback.gainMilli, '\n');
      Clips(t.clips, tail);
    }

    method Tracks(tracks: seq<Track>, ghost tail: Doc)
      requires todo == WriteTracks(tracks, tail)
      modifies this
      ensures todo == tail && Whole() == old(Whole())
    {
      hide RationalTime.Seconds, Render, WriteTrack;
      for i := 0 to |tracks|
        invariant todo == WriteTracks(tracks[i..], tail) && Whole() == old(Whole())
      {
        assert tracks[i..][0] == tracks[i] && tracks[i..][1..] == tracks[i + 1..];
        Track(tracks[i], WriteTracks(tracks[i + 1..], tail));
      }
    }

    method Sequence(s: Sequence, ghost tail: Doc)
      requires todo == WriteSequence(s, tail)
      modifies this
      ensures todo == tail && Whole() == old(Whole())
    {
      hide RationalTime.Seconds, Render, WriteTracks;
      Tag("SEQUENCE", ' ');
      Num(s.id, ' ');
      Text(s.name, ' ');
      Num(s.frameDuration.value, ' ');
      Num(s.frameDuration.rate, ' ');
      Num(|s.tracks|, '\n');
      Tag("OUTPUT", ' ');
      Num(s.output.width, ' ');
      Num(s.output.height, ' ');
      Num(s.output.sampleRate, ' ');
      Num(s.output.channels, '\n');
      Tracks(s.tracks, tail);
    }

    method Sequences(sequences: seq<Sequence>, ghost tail: Doc)
      requires todo == WriteSequences(sequences, tail)
      modifies this
      ensures todo == tail && Whole() == old(Whole())
    {
      hide RationalTime.Seconds, Render, WriteSequence;
      for i := 0 to |sequences|
        invariant todo == WriteSequences(sequences[i..], tail) && Whole() == old(Whole())
      {
        assert sequences[i..][0] == sequences[i] && sequences[i..][1..] == sequences[i + 1..];
        Sequence(sequences[i], WriteSequences(sequences[i + 1..], tail));
      }
    }

    method Actions(actions: seq<string>, ghost tail: Doc)
      requires todo == WriteActions(actions, tail)
      modifies this
      ensures todo == tail && Whole() == old(Whole())
    {
      hide RationalTime.Seconds, Render;
      for i := 0 to |actions|
        invariant todo == WriteActions(actions[i..], tail) && Whole() == old(Whole())
      {
        assert actions[i..][0] == actions[i] && actions[i..][1..] == actions[i + 1..];
        Tag("ACTION", ' ');
        Text(actions[i], '\n');
      }
    }

    method Operation(o: OperationRecord, ghost tail: Doc)
      requires todo == WriteOperation(o, tail)
      modifies this
      ensures todo == tail && Whole() == old(Whole())
    {
      hide RationalTime.Seconds, Render, WriteActions;
      Tag("OP", ' ');
      Num(o.id, ' ');
      Num(o.revision, ' ');
      Num(ChangeCode(o.kind), ' ');
      Num(o.target, ' ');
      Num(ActorCode(o.actor.kind), ' ');
      Text(o.actor.id, ' ');
      Text(o.caption, ' ');
      Num(|o.actions|, '\n');
      Actions(o.actions, tail);
    }

    method Operations(operations: seq<OperationRecord>, ghost tail: Doc)
      requires todo == WriteOperations(operations, tail)
      modifies this
      ensures todo == tail && Whole() == old(Whole())
    {
      hide RationalTime.Seconds, Render, WriteOperation;
      for i := 0 to |operations|
        invariant todo == WriteOperations(operations[i..], tail) && Whole() == old(Whole())
      {
        assert operations[i..][0] == operations[i] && operations[i..][1..] == operations[i + 1..];
        Operation(operations[i], WriteOperations(operations[i + 1..], tail));
      }
    }

    method Project(p: ProjectSnapshot)
      requires todo == WriteProject(p)
      modifies this
      ensures todo == Done && Whole() == old(Whole())
    {
      hide RationalTime.Seconds, Render, WriteAssets, WriteSequences, WriteOperations;
      Tag("NLE_PROJECT", ' ');
      Num(5, '\n');
      Tag("PROJECT", ' ');
      Num(p.id, ' ');
      Num(p.nextId, ' ');
      Text(p.name, '\n');
      Tag("MEDIA", ' ');
      Num(|p.media|, '\n');
      Assets(p.media, SequencesDoc(p));
      Tag("SEQUENCES", ' ');
      Num(|p.sequences|, '\n');
      Sequences(p.sequences, AuditDoc(p));
      Tag("AUDIT", ' ');
      Num(p.revision, ' ');
      Num(|p.operations|, '\n');
      Operations(p.operations, EndDoc());
      Tag("END", '\n');
    }
  }

  /** `serialize`: the text is read back before it is handed out. */
  method WriteProjectText(p: ProjectSnapshot) returns (r: Option<string>)
    ensures r == Serialize(p)
  {
    hide RationalTime.Seconds, WriteProject, Valid, Deserialize;
    var valid := Validation.Validate(p);
    if !valid { return None; }
    var writer := new Writer(WriteProject(p));
    writer.Project(p);
    assert writer.out == ProjectText(p) by { assert writer.out + Render(Done) == writer.out; }
    if |writer.out| > 16 * 1024 * 1024 { return None; }
    var read := ReadProject(writer.out);
    if read.None? { return None; }
    return Some(writer.out);
  }
}
