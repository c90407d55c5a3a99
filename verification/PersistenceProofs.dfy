/** Round trips of the native format, under the record budget, and migration of older versions. */
module PersistenceProofs {
  import opened Wrappers
  import opened RationalTimes
  import opened SourceTimes
  import opened Model
  import opened Lexing
  import opened Persistence
  import opened Formats

  // ----- one token at a time

  lemma CountReads(st: State, value: nat, blank: Blank, tail: Doc)
    requires At(st.rest, Num(value, blank, tail)) && st.remaining <= U64
    ensures var r := Count(st);
            && (r.Good? <==> value <= st.remaining)
            && (r.Good? ==> r.value == value && At(r.next.rest, tail) && r.next.remaining == st.remaining - value)
  {
    NumReads(st, value, blank, tail, 0, if value <= U64 then U64 else value);
    if value > U64 { LargeNumber(st, value); }
  }

  /** A number beyond 64 bits is refused, and so is a count beyond the budget. */
  lemma LargeNumber(st: State, value: nat)
    requires value > U64 && Number(st, 0, value).Good? && Number(st, 0, value).value == value
    ensures Unsigned64(st).Bad?
  {
  }

  lemma TimeReads(st: State, t: Time, blank: Blank, tail: Doc)
    requires At(st.rest, TimeText(t, blank, tail))
    ensures var r := ParseTime(st);
            r.Good? && r.value == t && At(r.next.rest, tail) && r.next.remaining == st.remaining
  {
    hide RationalTime.Seconds;
    NumReads(st, t.value, ' ', Num(t.rate, blank, tail), -MAX - 1, MAX);
    NumReads(Signed64(st).next, t.rate, blank, tail, -MAX - 1, MAX);
    MakeReduced(t);
  }

  /** What the reader's operations do at the beginning of a written token. */
  ghost predicate Faithful() {
    && (forall st: State, w: Word, b: Blank, tail: Doc {:trigger At(st.rest, Tag(w, b, tail))} ::
          At(st.rest, Tag(w, b, tail)) ==>
            Expect(st, w).Good? && At(Expect(st, w).next.rest, tail) && Expect(st, w).next.remaining == st.remaining)
    && (forall st: State, s: string, b: Blank, tail: Doc {:trigger At(st.rest, Text(s, b, tail))} ::
          At(st.rest, Text(s, b, tail)) && |s| <= MAX_TEXT ==>
            && Quoted(st).Good? && Quoted(st).value == s && At(Quoted(st).next.rest, tail)
            && Quoted(st).next.remaining == st.remaining)
    && (forall st: State, v: int, b: Blank, tail: Doc {:trigger At(st.rest, Num(v, b, tail)), Unsigned32(st)} ::
          At(st.rest, Num(v, b, tail)) && 0 <= v <= U32 ==>
            && Unsigned32(st).Good? && Unsigned32(st).value == v && At(Unsigned32(st).next.rest, tail)
            && Unsigned32(st).next.remaining == st.remaining)
    && (forall st: State, v: int, b: Blank, tail: Doc {:trigger At(st.rest, Num(v, b, tail)), Unsigned64(st)} ::
          At(st.rest, Num(v, b, tail)) && 0 <= v <= U64 ==>
            && Unsigned64(st).Good? && Unsigned64(st).value == v && At(Unsigned64(st).next.rest, tail)
            && Unsigned64(st).next.remaining == st.remaining)
    && (forall st: State, v: int, b: Blank, tail: Doc {:trigger At(st.rest, Num(v, b, tail)), Signed64(st)} ::
          At(st.rest, Num(v, b, tail)) && -MAX - 1 <= v <= MAX ==>
            && Signed64(st).Good? && Signed64(st).value == v && At(Signed64(st).next.rest, tail)
            && Signed64(st).next.remaining == st.remaining)
    && (forall st: State, v: nat, b: Blank, tail: Doc {:trigger At(st.rest, Num(v, b, tail)), Count(st)} ::
          At(st.rest, Num(v, b, tail)) && st.remaining <= U64 ==>
            && (Count(st).Good? <==> v <= st.remaining)
            && (Count(st).Good? ==> Count(st).value == v && At(Count(st).next.rest, tail)
                                    && Count(st).next.remaining == st.remaining - v))
    && (forall st: State, t: Time, b: Blank, tail: Doc {:trigger At(st.rest, TimeText(t, b, tail))} ::
          At(st.rest, TimeText(t, b, tail)) ==>
            && ParseTime(st).Good? && ParseTime(st).value == t && At(ParseTime(st).next.rest, tail)
            && ParseTime(st).next.remaining == st.remaining)
  }

  lemma Unsigned32Reads(st: State, v: int, b: Blank, tail: Doc)
    requires At(st.rest, Num(v, b, tail)) && 0 <= v <= U32
    ensures Unsigned32(st).Good? && Unsigned32(st).value == v && At(Unsigned32(st).next.rest, tail)
    ensures Unsigned32(st).next.remaining == st.remaining
  {
    NumReads(st, v, b, tail, 0, U32);
  }

  lemma Unsigned64Reads(st: State, v: int, b: Blank, tail: Doc)
    requires At(st.rest, Num(v, b, tail)) && 0 <= v <= U64
    ensures Unsigned64(st).Good? && Unsigned64(st).value == v && At(Unsigned64(st).next.rest, tail)
    ensures Unsigned64(st).next.remaining == st.remaining
  {
    NumReads(st, v, b, tail, 0, U64);
  }

  lemma Signed64Reads(st: State, v: int, b: Blank, tail: Doc)
    requires At(st.rest, Num(v, b, tail)) && -MAX - 1 <= v <= MAX
    ensures Signed64(st).Good? && Signed64(st).value == v && At(Signed64(st).next.rest, tail)
    ensures Signed64(st).next.remaining == st.remaining
  {
    NumReads(st, v, b, tail, -MAX - 1, MAX);
  }

  lemma ReaderIsFaithful()
    ensures Faithful()
  {
    hide RationalTime.Seconds, At, Expect, Quoted, Unsigned32, Unsigned64, Signed64, Count, ParseTime, TimeText;
    forall st: State, w: Word, b: Blank, tail: Doc | At(st.rest, Tag(w, b, tail))
      ensures Expect(st, w).Good? && At(Expect(st, w).next.rest, tail) && Expect(st, w).next.remaining == st.remaining
    {
      TagReads(st, w, b, tail);
    }
    forall st: State, s: string, b: Blank, tail: Doc | At(st.rest, Text(s, b, tail)) && |s| <= MAX_TEXT
      ensures Quoted(st).Good? && Quoted(st).value == s && At(Quoted(st).next.rest, tail)
      ensures Quoted(st).next.remaining == st.remaining
    {
      TextReads(st, s, b, tail);
    }
    forall st: State, v: int, b: Blank, tail: Doc | At(st.rest, Num(v, b, tail)) && 0 <= v <= U32
      ensures Unsigned32(st).Good? && Unsigned32(st).value == v && At(Unsigned32(st).next.rest, tail)
      ensures Unsigned32(st).next.remaining == st.remaining
    {
      Unsigned32Reads(st, v, b, tail);
    }
    forall st: State, v: int, b: Blank, tail: Doc | At(st.rest, Num(v, b, tail)) && 0 <= v <= U64
      ensures Unsigned64(st).Good? && Unsigned64(st).value == v && At(Unsigned64(st).next.rest, tail)
      ensures Unsigned64(st).next.remaining == st.remaining
    {
      Unsigned64Reads(st, v, b, tail);
    }
    forall st: State, v: int, b: Blank, tail: Doc | At(st.rest, Num(v, b, tail)) && -MAX - 1 <= v <= MAX
      ensures Signed64(st).Good? && Signed64(st).value == v && At(Signed64(st).next.rest, tail)
      ensures Signed64(st).next.remaining == st.remaining
    {
      Signed64Reads(st, v, b, tail);
    }
    forall st: State, v: nat, b: Blank, tail: Doc | At(st.rest, Num(v, b, tail)) && st.remaining <= U64
      ensures Count(st).Good? <==> v <= st.remaining
      ensures Count(st).Good? ==> Count(st).value == v && At(Count(st).next.rest, tail)
                                  && Count(st).next.remaining == st.remaining - v
    {
      CountReads(st, v, b, tail);
    }
    forall st: State, t: Time, b: Blank, tail: Doc | At(st.rest, TimeText(t, b, tail))
      ensures ParseTime(st).Good? && ParseTime(st).value == t && At(ParseTime(st).next.rest, tail)
      ensures ParseTime(st).next.remaining == st.remaining
    {
      TimeReads(st, t, b, tail);
    }
  }

  predicate Fits(text: string) { |text| <= MAX_TEXT }

  // ----- records and texts of each part

  function SourceRecords(source: Option<SourceMetadata>): nat {
    if source.None? then 0 else |source.value.streams|
  }

  function AssetRecords(a: MediaAsset): nat { |a.locations| + SourceRecords(a.source) }

  function AssetsRecords(assets: seq<MediaAsset>): nat {
    if assets == [] then 0 else AssetRecords(assets[0]) + AssetsRecords(assets[1..])
  }

  function TracksRecords(tracks: seq<Track>): nat {
    if tracks == [] then 0 else |tracks[0].clips| + TracksRecords(tracks[1..])
  }

  function SequencesRecords(sequences: seq<Sequence>): nat {
    if sequences == [] then 0
    else |sequences[0].tracks| + TracksRecords(sequences[0].tracks) + SequencesRecords(sequences[1..])
  }

  function OperationsRecords(operations: seq<OperationRecord>): nat {
    if operations == [] then 0 else |operations[0].actions| + OperationsRecords(operations[1..])
  }

  /** Everything the record budget counts. */
  function RecordCount(p: ProjectSnapshot): nat {
    |p.media| + AssetsRecords(p.media) + |p.sequences| + SequencesRecords(p.sequences)
    + |p.operations| + OperationsRecords(p.operations)
  }

  predicate FitLocations(locations: seq<MediaLocation>) {
    forall i :: 0 <= i < |locations| ==> Fits(locations[i].uri)
  }

  predicate FitMetadata(m: SourceMetadata) {
    && Fits(m.container) && Fits(m.probeVersion) && Fits(m.probeConfiguration) && |m.streams| <= 64
    && forall i :: 0 <= i < |m.streams| ==> Fits(m.streams[i].codec)
  }

  predicate FitAsset(a: MediaAsset) {
    Fits(a.name) && FitLocations(a.locations) && (a.source.Some? ==> FitMetadata(a.source.value))
  }

  predicate FitTracks(tracks: seq<Track>) {
    forall i :: 0 <= i < |tracks| ==> Fits(tracks[i].name)
  }

  predicate FitOperation(o: OperationRecord) {
    && Fits(o.actor.id) && Fits(o.caption) && |o.actions| <= MAX_BATCH_COMMANDS
    && forall i :: 0 <= i < |o.actions| ==> Fits(o.actions[i])
  }

  // ----- reading back what was written

  lemma {:induction false} LocationsRead(locations: seq<MediaLocation>, st: State, tail: Doc)
    requires FitLocations(locations) && At(st.rest, LocationsText(locations, tail))
    ensures var r := ParseLocations(|locations|, st);
            r.Good? && r.value == locations && At(r.next.rest, tail) && r.next.remaining == st.remaining
  {
    hide RationalTime.Seconds, At, Expect, Quoted, Unsigned32, Unsigned64, Signed64, Count, ParseTime, TimeText;
    ReaderIsFaithful();
    if locations != [] {
      LocationsRead(locations[1..], ParseLocation(st).next, tail);
    }
  }

  lemma EstimateReads(version: int, s: SourceStream, st: State, tail: Doc)
    requires At(st.rest, EstimateText(version, s, tail))
    ensures var r := ParseEstimate(version, st);
            && r.Good? && r.value == HeldStream(version, s).durationEstimate
            && At(r.next.rest, tail) && r.next.remaining == st.remaining
  {
    hide RationalTime.Seconds, At, ParseTime, TimeText;
    if version >= 4 { TimeReads(st, s.durationEstimate, '\n', tail); }
  }

  /** The stream reader up to and including the number of channels. */
  function StreamHeader(st: State): Parsed<SourceStream> {
    var (_, a) :- Expect(st, "STREAM");
    var (index, b) :- Unsigned32(a);
    var (code, c) :- Unsigned32(b);
    var (kind, d) :- ParseTrackKind(code, c);
    var (codec, e) :- Quoted(d);
    var (timeBase, f) :- ParseTime(e);
    var (durationTicks, g) :- Signed64(f);
    var (startKnown, h) :- ParseFlag(g);
    var (startTicks, i) :- Signed64(h);
    var (frameDuration, j) :- ParseTime(i);
    var (nominal, k) :- ParseTime(j);
    var (width, l) :- Unsigned32(k);
    var (height, m) :- Unsigned32(l);
    var (sampleRate, n) :- Unsigned32(m);
    var (channels, o) :- Unsigned32(n);
    Good(SourceStream(index, kind, codec, timeBase, durationTicks, startTicks, startKnown, frameDuration, nominal,
                      width, height, sampleRate, channels, Zero), o)
  }

  lemma StreamIsHeaderAndEstimate(version: int, st: State)
    ensures var header, r := StreamHeader(st), ParseStream(version, st);
            if header.Bad? || ParseEstimate(version, header.next).Bad? then r.Bad?
            else
              var estimate := ParseEstimate(version, header.next);
              r == Good(header.value.(durationEstimate := estimate.value), estimate.next)
  {
    hide RationalTime.Seconds, Expect, Quoted, Unsigned32, Signed64, ParseTime, ParseTrackKind, ParseFlag;
    hide ParseEstimate;
  }

  lemma StreamHeaderReads(version: int, s: SourceStream, st: State, tail: Doc)
    requires Fits(s.codec) && At(st.rest, StreamText(version, s, tail))
    ensures var r := StreamHeader(st);
            && r.Good? && r.value == s.(durationEstimate := Zero)
            && At(r.next.rest, EstimateText(version, s, tail)) && r.next.remaining == st.remaining
  {
    hide RationalTime.Seconds, At, Expect, Quoted, Unsigned32, Unsigned64, Signed64, Count, ParseTime, TimeText;
    hide EstimateText;
    ReaderIsFaithful();
  }

  lemma StreamReads(version: int, s: SourceStream, st: State, tail: Doc)
    requires Fits(s.codec) && At(st.rest, StreamText(version, s, tail))
    ensures var r := ParseStream(version, st);
            && r.Good? && r.value == HeldStream(version, s)
            && At(r.next.rest, tail) && r.next.remaining == st.remaining
  {
    hide RationalTime.Seconds, At, StreamHeader, ParseStream, ParseEstimate, StreamText, EstimateText;
    StreamHeaderReads(version, s, st, tail);
    EstimateReads(version, s, StreamHeader(st).next, tail);
    StreamIsHeaderAndEstimate(version, st);
  }

  function HeldStreams(version: int, streams: seq<SourceStream>): seq<SourceStream> {
    seq(|streams|, i requires 0 <= i < |streams| => HeldStream(version, streams[i]))
  }

  lemma {:induction false} StreamsRead(version: int, streams: seq<SourceStream>, st: State, tail: Doc)
    requires forall i :: 0 <= i < |streams| ==> Fits(streams[i].codec)
    requires At(st.rest, StreamsText(version, streams, tail))
    ensures var r := ParseStreams(version, |streams|, st);
            && r.Good? && r.value == HeldStreams(version, streams)
            && At(r.next.rest, tail) && r.next.remaining == st.remaining
  {
    hide RationalTime.Seconds, At, StreamText, ParseStream, HeldStream;
    if streams != [] {
      StreamReads(version, streams[0], st, StreamsText(version, streams[1..], tail));
      StreamsRead(version, streams[1..], ParseStream(version, st).next, tail);
    }
  }

  lemma StartReads(start: Option<SourceTime>, st: State, tail: Doc)
    requires At(st.rest, StartText(start, tail))
    ensures var r := ParseStart(st);
            r.Good? && r.value == start && At(r.next.rest, tail) && r.next.remaining == st.remaining
  {
    hide RationalTime.Seconds, At, Expect, Quoted, Unsigned32, Unsigned64, Signed64, Count, ParseTime, TimeText;
    ReaderIsFaithful();
    if start.Some? { SignedReads(start.value); }
  }

  /** A signed timestamp is rebuilt from its signed numerator and its rate. */
  lemma SignedReads(t: SourceTime)
    ensures MakeSource(if t.negative then -t.magnitude.value else t.magnitude.value, t.magnitude.rate) == Some(t)
  {
    hide RationalTime.Seconds;
    MakeReduced(t.magnitude);
  }

  lemma ClockReads(version: int, m: SourceMetadata, st: State, tail: Doc)
    requires At(st.rest, ClockText(version, m, tail))
    ensures var r, held := ParseClock(version, st), HeldMetadata(version, m);
            && r.Good? && r.value == (held.timeMode, held.containerStart)
            && At(r.next.rest, tail) && r.next.remaining == st.remaining
  {
    hide RationalTime.Seconds, At, Expect, Quoted, Unsigned32, Unsigned64, Signed64, Count, ParseTime, TimeText;
    hide StartText, ParseStart, HeldStream;
    ReaderIsFaithful();
    if version >= 4 {
      var mode := Unsigned32(Expect(st, "CLOCK").next).next;
      StartReads(m.containerStart, mode, tail);
    }
  }

  lemma MetadataReads(version: int, m: SourceMetadata, st: State, tail: Doc)
    requires FitMetadata(m) && st.remaining <= MAX_RECORDS && At(st.rest, MetadataText(version, m, tail))
    ensures var r := ParseMetadata(version, st);
            && (r.Good? <==> |m.streams| <= st.remaining)
            && (r.Good? ==>
                  && r.value == HeldMetadata(version, m) && At(r.next.rest, tail)
                  && r.next.remaining == st.remaining - |m.streams|)
  {
    hide RationalTime.Seconds, At, Expect, Quoted, Unsigned32, Unsigned64, Signed64, Count, ParseTime, TimeText;
    hide ClockText, StreamsText, ParseStreams, ParseClock, HeldMetadata;
    ReaderIsFaithful();
    var counted := MetadataHeader(st);
    if counted.Good? {
      ClockReads(version, m, counted.next, StreamsText(version, m.streams, tail));
      StreamsRead(version, m.streams, ParseClock(version, counted.next).next, tail);
      MetadataHeld(version, m);
    }
  }

  lemma MetadataHeld(version: int, m: SourceMetadata)
    ensures HeldMetadata(version, m)
            == m.(timeMode := HeldMetadata(version, m).timeMode,
                  containerStart := HeldMetadata(version, m).containerStart,
                  streams := HeldStreams(version, m.streams))
  {
    if version > 3 { assert HeldStreams(version, m.streams) == m.streams; }
  }

  /** The metadata reader up to and including the number of streams. */
  function MetadataHeader(st: State): Parsed<nat> {
    var (_, a) :- Expect(st, "METADATA");
    var (container, b) :- Quoted(a);
    var (probeVersion, c) :- Quoted(b);
    var (configuration, d) :- Quoted(c);
    var (byteSize, e) :- Unsigned64(d);
    var (duration, f) :- ParseTime(e);
    Count(f)
  }

  function HeldSource(version: int, source: Option<SourceMetadata>): Option<SourceMetadata> {
    if version <= 2 || source.None? then None else Some(HeldMetadata(version, source.value))
  }

  lemma SourceReads(version: int, source: Option<SourceMetadata>, st: State, tail: Doc)
    requires (version > 2 && source.Some? ==> FitMetadata(source.value)) && st.remaining <= MAX_RECORDS
    requires At(st.rest, SourceText(version, source, tail))
    ensures var r, held := ParseSource(version, st), HeldSource(version, source);
            && (r.Good? <==> SourceRecords(held) <= st.remaining)
            && (r.Good? ==> r.value == held && At(r.next.rest, tail)
                            && r.next.remaining == st.remaining - SourceRecords(held))
  {
    hide RationalTime.Seconds, At, Expect, Quoted, Unsigned32, Unsigned64, Signed64, Count, ParseTime, TimeText;
    hide MetadataText, ParseMetadata, FitMetadata, HeldMetadata;
    ReaderIsFaithful();
    if version > 2 && source.Some? {
      MetadataReads(version, source.value, ParseFlag(Expect(st, "SOURCE").next).next, tail);
      StreamsHeld(version, source.value);
    }
  }

  lemma StreamsHeld(version: int, m: SourceMetadata)
    ensures |HeldMetadata(version, m).streams| == |m.streams|
  {
  }

  /** The asset reader up to and including the number of locations. */
  function AssetHeader(st: State): Parsed<nat> {
    var (_, a) :- Expect(st, "ASSET");
    var (id, b) :- Unsigned64(a);
    var (code, c) :- Unsigned64(b);
    var (kind, d) :- ParseMediaKind(code, c);
    var (name, e) :- Quoted(d);
    var (duration, f) :- ParseTime(e);
    Count(f)
  }

  lemma AssetReads(version: int, a: MediaAsset, st: State, tail: Doc)
    requires FitAsset(HeldAsset(version, a)) && st.remaining <= MAX_RECORDS && At(st.rest, AssetText(version, a, tail))
    ensures var r, held := ParseAsset(version, st), HeldAsset(version, a);
            && (r.Good? <==> AssetRecords(held) <= st.remaining)
            && (r.Good? ==>
                  r.value == held && At(r.next.rest, tail) && r.next.remaining == st.remaining - AssetRecords(held))
  {
    hide RationalTime.Seconds, At, Expect, Quoted, Unsigned32, Unsigned64, Signed64, Count, ParseTime, TimeText;
    hide LocationsText, ParseLocations, SourceText, ParseSource, FitLocations, FitMetadata, HeldMetadata;
    ReaderIsFaithful();
    if version > 2 && a.source.Some? { HeldFits(version, a.source.value); }
    var counted := AssetHeader(st);
    if counted.Good? {
      LocationsRead(a.locations, counted.next, SourceText(version, a.source, tail));
      SourceReads(version, a.source, ParseLocations(|a.locations|, counted.next).next, tail);
    }
  }

  lemma HeldFits(version: int, m: SourceMetadata)
    requires FitMetadata(HeldMetadata(version, m))
    ensures FitMetadata(m)
  {
    forall i | 0 <= i < |m.streams|
      ensures Fits(m.streams[i].codec)
    {
      assert Fits(HeldMetadata(version, m).streams[i].codec);
    }
  }

  function HeldAssets(version: int, assets: seq<MediaAsset>): seq<MediaAsset> {
    seq(|assets|, i requires 0 <= i < |assets| => HeldAsset(version, assets[i]))
  }

  lemma {:induction false} AssetsRead(version: int, assets: seq<MediaAsset>, st: State, tail: Doc)
    requires (forall i :: 0 <= i < |assets| ==> FitAsset(HeldAsset(version, assets[i]))) && st.remaining <= MAX_RECORDS
    requires At(st.rest, AssetsText(version, assets, tail))
    ensures var r, held := ParseAssets(version, |assets|, st), HeldAssets(version, assets);
            && (r.Good? <==> AssetsRecords(held) <= st.remaining)
            && (r.Good? ==>
                  r.value == held && At(r.next.rest, tail) && r.next.remaining == st.remaining - AssetsRecords(held))
  {
    hide RationalTime.Seconds, At, AssetText, ParseAsset, FitAsset, AssetRecords, HeldAsset;
    if assets != [] {
      assert HeldAssets(version, assets)[1..] == HeldAssets(version, assets[1..]);
      AssetReads(version, assets[0], st, AssetsText(version, assets[1..], tail));
      if ParseAsset(version, st).Good? {
        AssetsRead(version, assets[1..], ParseAsset(version, st).next, tail);
      }
    }
  }

  lemma ClipReads(version: int, c: Clip, st: State, tail: Doc)
    requires At(st.rest, ClipText(version, c, tail))
    ensures var r := ParseClip(version, st);
            && r.Good? && r.value == HeldClip(version, c)
            && At(r.next.rest, tail) && r.next.remaining == st.remaining
  {
    hide RationalTime.Seconds, At, Expect, Quoted, Unsigned32, Unsigned64, Signed64, Count, ParseTime, TimeText;
    ReaderIsFaithful();
  }

  function HeldClips(version: int, clips: seq<Clip>): seq<Clip> {
    seq(|clips|, i requires 0 <= i < |clips| => HeldClip(version, clips[i]))
  }

  lemma {:induction false} ClipsRead(version: int, clips: seq<Clip>, st: State, tail: Doc)
    requires At(st.rest, ClipsText(version, clips, tail))
    ensures var r := ParseClips(version, |clips|, st);
            && r.Good? && r.value == HeldClips(version, clips)
            && At(r.next.rest, tail) && r.next.remaining == st.remaining
  {
    hide RationalTime.Seconds, At, ClipText, ParseClip, HeldClip;
    if clips != [] {
      ClipReads(version, clips[0], st, ClipsText(version, clips[1..], tail));
      ClipsRead(version, clips[1..], ParseClip(version, st).next, tail);
    }
  }

  lemma PlaybackReads(version: int, p: TrackPlayback, st: State, tail: Doc)
    requires At(st.rest, PlaybackText(version, p, tail))
    ensures var r := ParsePlayback(version, st);
            && r.Good? && r.value == (if version <= 4 then TrackPlayback(true, false, 1000) else p)
            && At(r.next.rest, tail) && r.next.remaining == st.remaining
  {
    hide RationalTime.Seconds, At, Expect, Quoted, Unsigned32, Unsigned64, Signed64, Count, ParseTime, TimeText;
    ReaderIsFaithful();
  }

  /** The track reader up to and including the number of clips. */
  function TrackHeader(st: State): Parsed<nat> {
    var (_, a) :- Expect(st, "TRACK");
    var (id, b) :- Unsigned64(a);
    var (code, c) :- Unsigned64(b);
    var (kind, d) :- ParseTrackKind(code, c);
    var (name, e) :- Quoted(d);
    Count(e)
  }

  lemma TrackReads(version: int, t: Track, st: State, tail: Doc)
    requires Fits(t.name) && st.remaining <= MAX_RECORDS && At(st.rest, TrackText(version, t, tail))
    ensures var r := ParseTrack(version, st);
            && (r.Good? <==> |t.clips| <= st.remaining)
            && (r.Good? ==>
                  && r.value == HeldTrack(version, t) && At(r.next.rest, tail)
                  && r.next.remaining == st.remaining - |t.clips|)
  {
    hide RationalTime.Seconds, At, Expect, Quoted, Unsigned32, Unsigned64, Signed64, Count, ParseTime, TimeText;
    hide ClipsText, ParseClips, PlaybackText, ParsePlayback, HeldClip;
    ReaderIsFaithful();
    var counted := TrackHeader(st);
    if counted.Good? {
      PlaybackReads(version, t.playback, counted.next, ClipsText(version, t.clips, tail));
      ClipsRead(version, t.clips, ParsePlayback(version, counted.next).next, tail);
    }
  }

  function HeldTracks(version: int, tracks: seq<Track>): seq<Track> {
    seq(|tracks|, i requires 0 <= i < |tracks| => HeldTrack(version, tracks[i]))
  }

  lemma {:induction false} TracksRead(version: int, tracks: seq<Track>, st: State, tail: Doc)
    requires FitTracks(tracks) && st.remaining <= MAX_RECORDS && At(st.rest, TracksText(version, tracks, tail))
    ensures var r := ParseTracks(version, |tracks|, st);
            && (r.Good? <==> TracksRecords(tracks) <= st.remaining)
            && (r.Good? ==>
                  && r.value == HeldTracks(version, tracks) && At(r.next.rest, tail)
                  && r.next.remaining == st.remaining - TracksRecords(tracks))
  {
    hide RationalTime.Seconds, At, TrackText, ParseTrack, Fits, HeldTrack;
    if tracks != [] {
      TrackReads(version, tracks[0], st, TracksText(version, tracks[1..], tail));
      if ParseTrack(version, st).Good? {
        TracksRead(version, tracks[1..], ParseTrack(version, st).next, tail);
      }
    }
  }

  lemma OutputReads(version: int, o: SequenceOutput, st: State, tail: Doc)
    requires At(st.rest, OutputText(version, o, tail))
    ensures var r := ParseOutput(version, st);
            && r.Good? && r.value == (if version <= 4 then SequenceOutput(1920, 1080, 48000, 2) else o)
            && At(r.next.rest, tail) && r.next.remaining == st.remaining
  {
    hide RationalTime.Seconds, At, Expect, Quoted, Unsigned32, Unsigned64, Signed64, Count, ParseTime, TimeText;
    ReaderIsFaithful();
  }

  /** The sequence reader up to and including the number of tracks. */
  function SequenceHeader(st: State): Parsed<nat> {
    var (_, a) :- Expect(st, "SEQUENCE");
    var (id, b) :- Unsigned64(a);
    var (name, c) :- Quoted(b);
    var (frameDuration, d) :- ParseTime(c);
    Count(d)
  }

  function SequenceRecords(s: Sequence): nat { |s.tracks| + TracksRecords(s.tracks) }

  lemma SequenceReads(version: int, s: Sequence, st: State, tail: Doc)
    requires Fits(s.name) && FitTracks(s.tracks) && st.remaining <= MAX_RECORDS
    requires At(st.rest, SequenceText(version, s, tail))
    ensures var r := ParseSequence(version, st);
            && (r.Good? <==> SequenceRecords(s) <= st.remaining)
            && (r.Good? ==>
                  && r.value == HeldSequence(version, s) && At(r.next.rest, tail)
                  && r.next.remaining == st.remaining - SequenceRecords(s))
  {
    hide RationalTime.Seconds, At, Expect, Quoted, Unsigned32, Unsigned64, Signed64, Count, ParseTime, TimeText;
    hide TracksText, ParseTracks, OutputText, ParseOutput, FitTracks, HeldTrack;
    ReaderIsFaithful();
    var counted := SequenceHeader(st);
    if counted.Good? {
      OutputReads(version, s.output, counted.next, TracksText(version, s.tracks, tail));
      TracksRead(version, s.tracks, ParseOutput(version, counted.next).next, tail);
    }
  }

  function HeldSequences(version: int, sequences: seq<Sequence>): seq<Sequence> {
    seq(|sequences|, i requires 0 <= i < |sequences| => HeldSequence(version, sequences[i]))
  }

  lemma {:induction false} SequencesRead(version: int, sequences: seq<Sequence>, st: State, tail: Doc)
    requires forall i :: 0 <= i < |sequences| ==> Fits(sequences[i].name) && FitTracks(sequences[i].tracks)
    requires st.remaining <= MAX_RECORDS && At(st.rest, SequencesText(version, sequences, tail))
    ensures var r := ParseSequences(version, |sequences|, st);
            && (r.Good? <==> SequencesRecords(sequences) <= st.remaining)
            && (r.Good? ==>
                  && r.value == HeldSequences(version, sequences) && At(r.next.rest, tail)
                  && r.next.remaining == st.remaining - SequencesRecords(sequences))
  {
    hide RationalTime.Seconds, At, SequenceText, ParseSequence, Fits, FitTracks, TracksRecords, HeldSequence;
    if sequences != [] {
      SequenceReads(version, sequences[0], st, SequencesText(version, sequences[1..], tail));
      if ParseSequence(version, st).Good? {
        SequencesRead(version, sequences[1..], ParseSequence(version, st).next, tail);
      }
    }
  }

  lemma {:induction false} ActionsRead(actions: seq<string>, st: State, tail: Doc)
    requires (forall i :: 0 <= i < |actions| ==> Fits(actions[i])) && At(st.rest, ActionsText(actions, tail))
    ensures var r := ParseActions(|actions|, st);
            r.Good? && r.value == actions && At(r.next.rest, tail) && r.next.remaining == st.remaining
  {
    hide RationalTime.Seconds, At, Expect, Quoted, Unsigned32, Unsigned64, Signed64, Count, ParseTime, TimeText;
    ReaderIsFaithful();
    if actions != [] {
      ActionsRead(actions[1..], ParseAction(st).next, tail);
    }
  }

  /** The operation reader up to and including the number of actions. */
  function OperationHeader(st: State): Parsed<nat> {
    var (_, a) :- Expect(st, "OP");
    var (id, b) :- Unsigned64(a);
    var (revision, c) :- Unsigned64(b);
    var (change, d) :- Unsigned32(c);
    var (kind, e) :- ParseChange(change, d);
    var (target, f) :- Unsigned64(e);
    var (actor, g) :- Unsigned32(f);
    var (actorKind, h) :- ParseActorKind(actor, g);
    var (actorId, i) :- Quoted(h);
    var (caption, j) :- Quoted(i);
    Count(j)
  }

  lemma OperationReads(o: OperationRecord, st: State, tail: Doc)
    requires FitOperation(o) && st.remaining <= MAX_RECORDS && At(st.rest, OperationText(o, tail))
    ensures var r := ParseOperation(st);
            && (r.Good? <==> |o.actions| <= st.remaining)
            && (r.Good? ==> r.value == o && At(r.next.rest, tail) && r.next.remaining == st.remaining - |o.actions|)
  {
    hide RationalTime.Seconds, At, Expect, Quoted, Unsigned32, Unsigned64, Signed64, Count, ParseTime, TimeText;
    hide ActionsText, ParseActions;
    ReaderIsFaithful();
    var counted := OperationHeader(st);
    if counted.Good? {
      ActionsRead(o.actions, counted.next, tail);
    }
  }

  lemma {:induction false} OperationsRead(operations: seq<OperationRecord>, st: State, tail: Doc)
    requires (forall i :: 0 <= i < |operations| ==> FitOperation(operations[i])) && st.remaining <= MAX_RECORDS
    requires At(st.rest, OperationsText(operations, tail))
    ensures var r := ParseOperations(|operations|, st);
            && (r.Good? <==> OperationsRecords(operations) <= st.remaining)
            && (r.Good? ==> r.value == operations && At(r.next.rest, tail)
                            && r.next.remaining == st.remaining - OperationsRecords(operations))
  {
    hide RationalTime.Seconds, At, OperationText, ParseOperation, FitOperation;
    if operations != [] {
      OperationReads(operations[0], st, OperationsText(operations[1..], tail));
      if ParseOperation(st).Good? {
        OperationsRead(operations[1..], ParseOperation(st).next, tail);
      }
    }
  }

  function AuditRecords(p: ProjectSnapshot): nat { |p.operations| + OperationsRecords(p.operations) }

  lemma AuditReads(version: int, p: ProjectSnapshot, st: State, tail: Doc)
    requires version > 1 ==>
               && (forall i :: 0 <= i < |p.operations| ==> FitOperation(p.operations[i]))
               && |p.operations| <= MAX_OPERATIONS
    requires st.remaining <= MAX_RECORDS && At(st.rest, AuditText(version, p, tail))
    ensures var r, records := ParseAudit(version, st), if version <= 1 then 0 else AuditRecords(p);
            && (r.Good? <==> records <= st.remaining)
            && (r.Good? ==>
                  && r.value == (if version <= 1 then (0, []) else (p.revision, p.operations))
                  && At(r.next.rest, tail) && r.next.remaining == st.remaining - records)
  {
    hide RationalTime.Seconds, At, Expect, Quoted, Unsigned32, Unsigned64, Signed64, Count, ParseTime, TimeText;
    hide OperationsText, ParseOperations, FitOperation;
    ReaderIsFaithful();
    if version > 1 {
      var counted := Count(Unsigned64(Expect(st, "AUDIT").next).next);
      if counted.Good? {
        OperationsRead(p.operations, counted.next, tail);
      }
    }
  }

  // ----- whole projects

  /** Texts short enough to be read back; every valid project has only such texts. */
  predicate Fit(p: ProjectSnapshot) {
    && Fits(p.name) && |p.operations| <= MAX_OPERATIONS
    && (forall i :: 0 <= i < |p.media| ==> FitAsset(p.media[i]))
    && (forall i :: 0 <= i < |p.sequences| ==> Fits(p.sequences[i].name) && FitTracks(p.sequences[i].tracks))
    && (forall i :: 0 <= i < |p.operations| ==> FitOperation(p.operations[i]))
  }

  lemma MediaReads(version: int, p: ProjectSnapshot, st: State, tail: Doc)
    requires forall i :: 0 <= i < |p.media| ==> FitAsset(HeldAsset(version, p.media[i]))
    requires st.remaining <= MAX_RECORDS
    requires At(st.rest, Tag("MEDIA", ' ', Num(|p.media|, '\n', AssetsText(version, p.media, tail))))
    ensures var r, n := ParseMedia(version, st), |p.media| + AssetsRecords(HeldAssets(version, p.media));
            && (r.Good? <==> n <= st.remaining)
            && (r.Good? ==>
                  && r.value == HeldAssets(version, p.media) && At(r.next.rest, tail)
                  && r.next.remaining == st.remaining - n)
  {
    hide RationalTime.Seconds, At, Expect, Quoted, Unsigned32, Unsigned64, Signed64, Count, ParseTime, TimeText;
    hide AssetsText, ParseAssets, FitAsset, HeldAsset;
    ReaderIsFaithful();
    var counted := Count(Expect(st, "MEDIA").next);
    if counted.Good? {
      AssetsRead(version, p.media, counted.next, tail);
    }
  }

  lemma TimelineReads(version: int, p: ProjectSnapshot, st: State, tail: Doc)
    requires forall i :: 0 <= i < |p.sequences| ==> Fits(p.sequences[i].name) && FitTracks(p.sequences[i].tracks)
    requires st.remaining <= MAX_RECORDS
    requires At(st.rest, Tag("SEQUENCES", ' ', Num(|p.sequences|, '\n', SequencesText(version, p.sequences, tail))))
    ensures var r, n := ParseTimeline(version, st), |p.sequences| + SequencesRecords(p.sequences);
            && (r.Good? <==> n <= st.remaining)
            && (r.Good? ==>
                  && r.value == HeldSequences(version, p.sequences) && At(r.next.rest, tail)
                  && r.next.remaining == st.remaining - n)
  {
    hide RationalTime.Seconds, At, Expect, Quoted, Unsigned32, Unsigned64, Signed64, Count, ParseTime, TimeText;
    hide SequencesText, ParseSequences, FitTracks, HeldSequence;
    ReaderIsFaithful();
    var counted := Count(Expect(st, "SEQUENCES").next);
    if counted.Good? {
      SequencesRead(version, p.sequences, counted.next, tail);
    }
  }

  lemma HeaderReads(version: nat, p: ProjectSnapshot, st: State)
    requires version <= U32 && Fits(p.name) && At(st.rest, VersionDoc(version, p))
    ensures var r := ParseHeader(st);
            && (r.Good? <==> 1 <= version <= 5)
            && (r.Good? ==>
                  && r.value == Header(version, p.id, p.nextId, p.name)
                  && At(r.next.rest, MediaText(version, p)) && r.next.remaining == st.remaining)
  {
    hide RationalTime.Seconds, At, Expect, Quoted, Unsigned32, Unsigned64, Signed64, Count, ParseTime, TimeText;
    hide MediaText;
    ReaderIsFaithful();
  }

  lemma EndReads(st: State)
    requires At(st.rest, Tag("END", '\n', Done))
    ensures ParseEnd(st).Good?
  {
    TagReads(st, "END", '\n', Done);
  }

  /** Clips and tracks are counted alike in every version. */
  lemma {:induction false} TracksCounted(version: int, tracks: seq<Track>)
    ensures TracksRecords(HeldTracks(version, tracks)) == TracksRecords(tracks)
  {
    hide HeldClip;
    if tracks != [] {
      assert HeldTracks(version, tracks)[1..] == HeldTracks(version, tracks[1..]);
      TracksCounted(version, tracks[1..]);
    }
  }

  lemma {:induction false} SequencesCounted(version: int, sequences: seq<Sequence>)
    ensures SequencesRecords(HeldSequences(version, sequences)) == SequencesRecords(sequences)
  {
    hide HeldTrack, TracksRecords;
    if sequences != [] {
      assert HeldSequences(version, sequences)[1..] == HeldSequences(version, sequences[1..]);
      assert HeldSequence(version, sequences[0]).tracks == HeldTracks(version, sequences[0].tracks);
      TracksCounted(version, sequences[0].tracks);
      SequencesCounted(version, sequences[1..]);
    }
  }

  lemma TracksFit(version: int, s: Sequence)
    requires FitTracks(HeldSequence(version, s).tracks)
    ensures FitTracks(s.tracks)
  {
    forall t | 0 <= t < |s.tracks|
      ensures Fits(s.tracks[t].name)
    {
      assert HeldSequence(version, s).tracks[t].name == s.tracks[t].name;
    }
  }

  /** What is held of a project, part by part. */
  lemma HeldParts(version: int, p: ProjectSnapshot)
    requires Fit(Held(version, p))
    ensures Held(version, p)
            == p.(media := HeldAssets(version, p.media), sequences := HeldSequences(version, p.sequences),
                  revision := if version <= 1 then 0 else p.revision,
                  operations := if version <= 1 then [] else p.operations)
    ensures Fits(p.name)
    ensures version > 1 ==>
              && (forall i :: 0 <= i < |p.operations| ==> FitOperation(p.operations[i]))
              && |p.operations| <= MAX_OPERATIONS
    ensures forall i :: 0 <= i < |p.media| ==> FitAsset(HeldAsset(version, p.media[i]))
    ensures forall i :: 0 <= i < |p.sequences| ==> Fits(p.sequences[i].name) && FitTracks(p.sequences[i].tracks)
  {
    hide FitAsset, HeldAsset, FitOperation;
    forall i | 0 <= i < |p.sequences|
      ensures Fits(p.sequences[i].name) && FitTracks(p.sequences[i].tracks)
    {
      assert Held(version, p).sequences[i] == HeldSequence(version, p.sequences[i]);
      TracksFit(version, p.sequences[i]);
    }
    forall i | 0 <= i < |p.media|
      ensures FitAsset(HeldAsset(version, p.media[i]))
    {
      assert Held(version, p).media[i] == HeldAsset(version, p.media[i]);
    }
  }

  /** What follows the header: media, sequences and the audit log, up to the end. */
  function ParseBody(version: int, st: State)
    : Parsed<(seq<MediaAsset>, seq<Sequence>, (uint64, seq<OperationRecord>))>
  {
    var (media, a) :- ParseMedia(version, st);
    var (sequences, b) :- ParseTimeline(version, a);
    var (audit, c) :- ParseAudit(version, b);
    var (_, d) :- ParseEnd(c);
    Good((media, sequences, audit), d)
  }

  lemma ProjectIsHeaderAndBody(st: State)
    ensures var header, r := ParseHeader(st), ParseProject(st);
            if header.Bad? || ParseBody(header.value.version, header.next).Bad? then r.Bad?
            else
              var body := ParseBody(header.value.version, header.next).value;
              r.Good? && r.value == ProjectSnapshot(header.value.id, header.value.name, header.value.nextId, body.0,
                                                    body.1, body.2.0, body.2.1)
  {
    hide ParseHeader, ParseMedia, ParseTimeline, ParseAudit, ParseEnd;
  }

  /** The records of a project in a version, part by part. */
  function HeldRecords(version: int, p: ProjectSnapshot): nat {
    |p.media| + AssetsRecords(HeldAssets(version, p.media)) + |p.sequences| + SequencesRecords(p.sequences)
    + (if version <= 1 then 0 else AuditRecords(p))
  }

  /** The records of what a version holds are those its text announces. */
  lemma RecordsHeld(version: int, p: ProjectSnapshot)
    requires Fit(Held(version, p))
    ensures RecordCount(Held(version, p)) == HeldRecords(version, p)
  {
    hide Fit, Held, HeldAsset, HeldSequence, FitAsset, FitTracks, FitOperation, SequencesRecords, AssetsRecords;
    HeldParts(version, p);
    SequencesCounted(version, p.sequences);
  }

  lemma BodyReads(version: int, p: ProjectSnapshot, st: State)
    requires forall i :: 0 <= i < |p.media| ==> FitAsset(HeldAsset(version, p.media[i]))
    requires forall i :: 0 <= i < |p.sequences| ==> Fits(p.sequences[i].name) && FitTracks(p.sequences[i].tracks)
    requires version > 1 ==>
               && (forall i :: 0 <= i < |p.operations| ==> FitOperation(p.operations[i]))
               && |p.operations| <= MAX_OPERATIONS
    requires st.remaining <= MAX_RECORDS && At(st.rest, MediaText(version, p))
    ensures var r := ParseBody(version, st);
            && (r.Good? <==> HeldRecords(version, p) <= st.remaining)
            && (r.Good? ==>
                  r.value == (HeldAssets(version, p.media), HeldSequences(version, p.sequences),
                              if version <= 1 then (0, []) else (p.revision, p.operations)))
  {
    hide RationalTime.Seconds, At, ParseMedia, ParseTimeline, ParseAudit, ParseEnd;
    hide AssetsText, SequencesText, AuditText, FitAsset, FitTracks, FitOperation;
    hide HeldAssets, HeldSequences, AssetsRecords, SequencesRecords;
    var last := Tag("END", '\n', Done);
    MediaReads(version, p, st, TimelineText(version, p));
    var media := ParseMedia(version, st);
    if media.Good? {
      TimelineReads(version, p, media.next, AuditText(version, p, last));
      var sequences := ParseTimeline(version, media.next);
      if sequences.Good? {
        AuditReads(version, p, sequences.next, last);
        var audit := ParseAudit(version, sequences.next);
        if audit.Good? {
          EndReads(audit.next);
        }
      }
    }
  }

  /** Reading a text that spells a document of any version succeeds exactly when the version is known and its
      records stay within the budget, and gives what that version holds of the project. */
  lemma VersionReads(version: nat, p: ProjectSnapshot, st: State)
    requires version <= U32 && Fit(Held(version, p)) && st.remaining <= MAX_RECORDS
    requires At(st.rest, VersionDoc(version, p))
    ensures var r := ParseProject(st);
            && (r.Good? <==> 1 <= version <= 5 && RecordCount(Held(version, p)) <= st.remaining)
            && (r.Good? ==> r.value == Held(version, p))
  {
    hide At, VersionDoc, Held, Fit, ParseHeader, ParseBody, ParseProject, MediaText, HeldAssets, HeldSequences;
    hide FitAsset, FitTracks, FitOperation, AssetsRecords, SequencesRecords, OperationsRecords;
    hide RecordCount, HeldRecords;
    HeldParts(version, p);
    RecordsHeld(version, p);
    HeaderReads(version, p, st);
    ProjectIsHeaderAndBody(st);
    if 1 <= version <= 5 {
      BodyReads(version, p, ParseHeader(st).next);
    }
  }

  /** Reading back a written project succeeds exactly within the record budget, and gives the project. */
  lemma ProjectReads(p: ProjectSnapshot, st: State)
    requires Fit(p) && st.remaining <= MAX_RECORDS && st.rest == ProjectText(p)
    ensures var r := ParseProject(st);
            && (r.Good? <==> RecordCount(p) <= st.remaining)
            && (r.Good? ==> r.value == p)
  {
    hide Fit, RecordCount, ParseProject, VersionDoc, ProjectText, Held, At, Render;
    VersionFive(p);
    VersionFiveKeeps(p);
    RenderSpells(VersionDoc(5, p));
    VersionReads(5, p, st);
  }

  /**
   The reading law of every version: a text that spells a document of a version, with any blanks between its tokens, is
   accepted exactly when the version is one of the five, the text and its records stay within the limits, and what the
   version holds of the project is valid; and it is accepted as that.
   */
  lemma VersionAccepted(version: nat, p: ProjectSnapshot, data: string)
    requires version <= U32 && Fit(Held(version, p)) && At(data, VersionDoc(version, p))
    ensures Deserialize(data) ==
            if && 1 <= version <= 5 && |data| <= 16 * 1024 * 1024
               && RecordCount(Held(version, p)) <= 100000 && Valid(Held(version, p))
            then Some(Held(version, p))
            else None
  {
    hide Valid, Fit, ParseProject, VersionDoc, RecordCount, Held, At;
    VersionReads(version, p, State(data, MAX_RECORDS));
  }

  /** In particular what each version wrote. */
  lemma WrittenIsSpelled(version: nat, p: ProjectSnapshot)
    ensures At(VersionText(version, p), VersionDoc(version, p))
  {
    hide At, VersionDoc;
    RenderSpells(VersionDoc(version, p));
  }

  lemma ValidIsFit(p: ProjectSnapshot)
    requires Valid(p)
    ensures Fit(p)
  {
    hide RationalTime.Seconds, ObjectIds, SourceDuration, SourceKind, ValidClip, Ordered, ValidStream, NoDuplicates;
    forall i | 0 <= i < |p.media|
      ensures FitAsset(p.media[i])
    {
      assert ValidAsset(p.media[i]);
      AssetIsFit(p.media[i]);
    }
    forall i | 0 <= i < |p.operations|
      ensures FitOperation(p.operations[i])
    {
      assert ValidRecord(p.operations, i);
    }
    forall i | 0 <= i < |p.sequences|
      ensures Fits(p.sequences[i].name) && FitTracks(p.sequences[i].tracks)
    {
      assert ValidSequence(p.sequences[i], p.media);
    }
  }

  lemma AssetIsFit(a: MediaAsset)
    requires ValidAsset(a)
    ensures FitAsset(a)
  {
    hide RationalTime.Seconds, SourceDuration, SourceKind;
  }

  /** The writer accepts exactly the valid projects within both limits, and the reader then returns them unchanged. */
  lemma RoundTrip(p: ProjectSnapshot)
    ensures Serialize(p).Some? <==> Valid(p) && |ProjectText(p)| <= MAX_BYTES && RecordCount(p) <= MAX_RECORDS
    ensures Serialize(p).Some? ==> Serialize(p).value == ProjectText(p) && Deserialize(Serialize(p).value) == Some(p)
  {
    hide Valid, Fit, ParseProject, ProjectText, RecordCount;
    if Valid(p) {
      ValidIsFit(p);
      ProjectReads(p, State(ProjectText(p), MAX_RECORDS));
    }
  }

  /** Two projects that are written as the same bytes are the same project. */
  lemma TextIdentifiesProject(p: ProjectSnapshot, q: ProjectSnapshot)
    requires Serialize(p).Some? && Serialize(p) == Serialize(q)
    ensures p == q
  {
    hide *;
    RoundTrip(p);
    RoundTrip(q);
  }

  // ----- what the record budget pays for, in every version

  ghost predicate Frugal() {
    && (forall st: State, w: Word :: Expect(st, w).Good? ==> Expect(st, w).next.remaining == st.remaining)
    && (forall st: State :: Quoted(st).Good? ==> Quoted(st).next.remaining == st.remaining)
    && (forall st: State :: Unsigned32(st).Good? ==> Unsigned32(st).next.remaining == st.remaining)
    && (forall st: State :: Unsigned64(st).Good? ==> Unsigned64(st).next.remaining == st.remaining)
    && (forall st: State :: Signed64(st).Good? ==> Signed64(st).next.remaining == st.remaining)
    && (forall st: State :: ParseTime(st).Good? ==> ParseTime(st).next.remaining == st.remaining)
    && (forall st: State :: Count(st).Good? ==> Count(st).next.remaining + Count(st).value == st.remaining)
  }

  lemma ReaderIsFrugal()
    ensures Frugal()
  {
    hide RationalTime.Seconds, Make, SkipSpace, TokenLength, FromChars, Unquoted;
  }

  /** A part was read and used exactly this much of the record budget. */
  ghost predicate Used<T>(st: State, r: Parsed<T>, records: nat) {
    r.Good? ==> st.remaining == r.next.remaining + records
  }

  lemma {:induction false} LocationsUse(n: nat, st: State)
    ensures var r := ParseLocations(n, st); Used(st, r, 0) && (r.Good? ==> |r.value| == n)
  {
    hide RationalTime.Seconds, Make, Expect, Quoted, Unsigned32, Unsigned64, Signed64, Count, ParseTime;
    ReaderIsFrugal();
    if n > 0 && ParseLocation(st).Good? {
      LocationsUse(n - 1, ParseLocation(st).next);
    }
  }

  lemma StreamUses(version: int, st: State)
    ensures Used(st, ParseStream(version, st), 0)
  {
    hide RationalTime.Seconds, Make, Expect, Quoted, Unsigned32, Unsigned64, Signed64, Count, ParseTime;
    ReaderIsFrugal();
  }

  lemma {:induction false} StreamsUse(version: int, n: nat, st: State)
    ensures var r := ParseStreams(version, n, st); Used(st, r, 0) && (r.Good? ==> |r.value| == n)
  {
    hide RationalTime.Seconds, ParseStream;
    if n > 0 {
      StreamUses(version, st);
      if ParseStream(version, st).Good? {
        StreamsUse(version, n - 1, ParseStream(version, st).next);
      }
    }
  }

  lemma ClockUses(version: int, st: State)
    ensures Used(st, ParseClock(version, st), 0)
  {
    hide RationalTime.Seconds, Make, Expect, Quoted, Unsigned32, Unsigned64, Signed64, Count, ParseTime;
    ReaderIsFrugal();
  }

  lemma MetadataUses(version: int, st: State)
    ensures var r := ParseMetadata(version, st); r.Good? ==> Used(st, r, |r.value.streams|)
  {
    hide RationalTime.Seconds, Make, Expect, Quoted, Unsigned32, Unsigned64, Signed64, Count, ParseTime;
    hide ParseClock, ParseStreams;
    ReaderIsFrugal();
    var counted := MetadataHeader(st);
    if counted.Good? {
      ClockUses(version, counted.next);
      var clock := ParseClock(version, counted.next);
      if clock.Good? {
        StreamsUse(version, counted.value, clock.next);
      }
    }
  }

  lemma SourceUses(version: int, st: State)
    ensures var r := ParseSource(version, st); r.Good? ==> Used(st, r, SourceRecords(r.value))
  {
    hide RationalTime.Seconds, Make, Expect, Quoted, Unsigned32, Unsigned64, Signed64, Count, ParseTime;
    hide ParseMetadata;
    ReaderIsFrugal();
    var flag := Expect(st, "SOURCE");
    if flag.Good? && ParseFlag(flag.next).Good? {
      MetadataUses(version, ParseFlag(flag.next).next);
    }
  }

  lemma AssetUses(version: int, st: State)
    ensures var r := ParseAsset(version, st); r.Good? ==> Used(st, r, AssetRecords(r.value))
  {
    hide RationalTime.Seconds, Make, Expect, Quoted, Unsigned32, Unsigned64, Signed64, Count, ParseTime;
    hide ParseLocations, ParseSource;
    ReaderIsFrugal();
    var counted := AssetHeader(st);
    if counted.Good? {
      LocationsUse(counted.value, counted.next);
      var locations := ParseLocations(counted.value, counted.next);
      if locations.Good? {
        SourceUses(version, locations.next);
      }
    }
  }

  lemma {:induction false} AssetsUse(version: int, n: nat, st: State)
    ensures var r := ParseAssets(version, n, st); r.Good? ==> Used(st, r, AssetsRecords(r.value)) && |r.value| == n
  {
    hide RationalTime.Seconds, ParseAsset, AssetRecords;
    if n > 0 {
      AssetUses(version, st);
      if ParseAsset(version, st).Good? {
        AssetsUse(version, n - 1, ParseAsset(version, st).next);
      }
    }
  }

  lemma ClipUses(version: int, st: State)
    ensures Used(st, ParseClip(version, st), 0)
  {
    hide RationalTime.Seconds, Make, Expect, Quoted, Unsigned32, Unsigned64, Signed64, Count, ParseTime;
    ReaderIsFrugal();
  }

  lemma {:induction false} ClipsUse(version: int, n: nat, st: State)
    ensures var r := ParseClips(version, n, st); Used(st, r, 0) && (r.Good? ==> |r.value| == n)
  {
    hide RationalTime.Seconds, ParseClip;
    if n > 0 {
      ClipUses(version, st);
      if ParseClip(version, st).Good? {
        ClipsUse(version, n - 1, ParseClip(version, st).next);
      }
    }
  }

  lemma TrackUses(version: int, st: State)
    ensures var r := ParseTrack(version, st); r.Good? ==> Used(st, r, |r.value.clips|)
  {
    hide RationalTime.Seconds, Make, Expect, Quoted, Unsigned32, Unsigned64, Signed64, Count, ParseTime;
    hide ParseClips;
    ReaderIsFrugal();
    var counted := TrackHeader(st);
    if counted.Good? {
      var playback := ParsePlayback(version, counted.next);
      if playback.Good? {
        ClipsUse(version, counted.value, playback.next);
      }
    }
  }

  lemma {:induction false} TracksUse(version: int, n: nat, st: State)
    ensures var r := ParseTracks(version, n, st); r.Good? ==> Used(st, r, TracksRecords(r.value)) && |r.value| == n
  {
    hide RationalTime.Seconds, ParseTrack;
    if n > 0 {
      TrackUses(version, st);
      if ParseTrack(version, st).Good? {
        TracksUse(version, n - 1, ParseTrack(version, st).next);
      }
    }
  }

  lemma SequenceUses(version: int, st: State)
    ensures var r := ParseSequence(version, st); r.Good? ==> Used(st, r, SequenceRecords(r.value))
  {
    hide RationalTime.Seconds, Make, Expect, Quoted, Unsigned32, Unsigned64, Signed64, Count, ParseTime;
    hide ParseTracks;
    ReaderIsFrugal();
    var counted := SequenceHeader(st);
    if counted.Good? {
      var output := ParseOutput(version, counted.next);
      if output.Good? {
        TracksUse(version, counted.value, output.next);
      }
    }
  }

  lemma {:induction false} SequencesUse(version: int, n: nat, st: State)
    ensures var r := ParseSequences(version, n, st); r.Good? ==>
              Used(st, r, SequencesRecords(r.value)) && |r.value| == n
  {
    hide RationalTime.Seconds, ParseSequence, TracksRecords;
    if n > 0 {
      SequenceUses(version, st);
      if ParseSequence(version, st).Good? {
        SequencesUse(version, n - 1, ParseSequence(version, st).next);
      }
    }
  }

  lemma {:induction false} ActionsUse(n: nat, st: State)
    ensures var r := ParseActions(n, st); Used(st, r, 0) && (r.Good? ==> |r.value| == n)
  {
    hide RationalTime.Seconds, Make, Expect, Quoted, Unsigned32, Unsigned64, Signed64, Count, ParseTime;
    ReaderIsFrugal();
    if n > 0 && ParseAction(st).Good? {
      ActionsUse(n - 1, ParseAction(st).next);
    }
  }

  lemma OperationUses(st: State)
    ensures var r := ParseOperation(st); r.Good? ==> Used(st, r, |r.value.actions|)
  {
    hide RationalTime.Seconds, Make, Expect, Quoted, Unsigned32, Unsigned64, Signed64, Count, ParseTime;
    hide ParseActions;
    ReaderIsFrugal();
    var counted := OperationHeader(st);
    if counted.Good? {
      ActionsUse(counted.value, counted.next);
    }
  }

  lemma {:induction false} OperationsUse(n: nat, st: State)
    ensures var r := ParseOperations(n, st); r.Good? ==> Used(st, r, OperationsRecords(r.value)) && |r.value| == n
  {
    hide RationalTime.Seconds, ParseOperation;
    if n > 0 {
      OperationUses(st);
      if ParseOperation(st).Good? {
        OperationsUse(n - 1, ParseOperation(st).next);
      }
    }
  }

  lemma AuditUses(version: int, st: State)
    ensures var r := ParseAudit(version, st); r.Good? ==> Used(st, r, |r.value.1| + OperationsRecords(r.value.1))
  {
    hide RationalTime.Seconds, Make, Expect, Quoted, Unsigned32, Unsigned64, Signed64, Count, ParseTime;
    hide ParseOperations;
    ReaderIsFrugal();
    var a := Expect(st, "AUDIT");
    if a.Good? && Unsigned64(a.next).Good? {
      var counted := Count(Unsigned64(a.next).next);
      if counted.Good? {
        OperationsUse(counted.value, counted.next);
      }
    }
  }

  lemma MediaUses(version: int, st: State)
    ensures var r := ParseMedia(version, st); r.Good? ==> Used(st, r, |r.value| + AssetsRecords(r.value))
  {
    hide RationalTime.Seconds, Make, Expect, Quoted, Unsigned32, Unsigned64, Signed64, Count, ParseTime;
    hide ParseAssets;
    ReaderIsFrugal();
    var a := Expect(st, "MEDIA");
    if a.Good? && Count(a.next).Good? {
      AssetsUse(version, Count(a.next).value, Count(a.next).next);
    }
  }

  lemma TimelineUses(version: int, st: State)
    ensures var r := ParseTimeline(version, st); r.Good? ==> Used(st, r, |r.value| + SequencesRecords(r.value))
  {
    hide RationalTime.Seconds, Make, Expect, Quoted, Unsigned32, Unsigned64, Signed64, Count, ParseTime;
    hide ParseSequences;
    ReaderIsFrugal();
    var a := Expect(st, "SEQUENCES");
    if a.Good? && Count(a.next).Good? {
      SequencesUse(version, Count(a.next).value, Count(a.next).next);
    }
  }

  lemma HeaderUses(st: State)
    ensures Used(st, ParseHeader(st), 0)
  {
    hide RationalTime.Seconds, Make, Expect, Quoted, Unsigned32, Unsigned64, Signed64, Count, ParseTime;
    ReaderIsFrugal();
  }

  /** Whatever the version, an accepted document announced exactly the records of the project it holds. */
  lemma ProjectUses(st: State)
    ensures var r := ParseProject(st); r.Good? ==> RecordCount(r.value) <= st.remaining
  {
    hide ParseHeader, ParseMedia, ParseTimeline, ParseAudit, ParseEnd;
    var r := ParseProject(st);
    if r.Good? {
      HeaderUses(st);
      var header := ParseHeader(st);
      MediaUses(header.value.version, header.next);
      var media := ParseMedia(header.value.version, header.next);
      TimelineUses(header.value.version, media.next);
      var sequences := ParseTimeline(header.value.version, media.next);
      AuditUses(header.value.version, sequences.next);
    }
  }

  /** A document of any supported version, rewritten as version 5, reads back as the same project
      exactly when the rewritten text is still within the size limit. */
  lemma Migration(data: string)
    requires Deserialize(data).Some?
    ensures var p := Deserialize(data).value;
            && Valid(p)
            && (Serialize(p).Some? <==> |ProjectText(p)| <= MAX_BYTES)
            && (Serialize(p).Some? ==> Deserialize(Serialize(p).value) == Deserialize(data))
  {
    hide Valid, ParseProject, ProjectText, RecordCount;
    ProjectUses(State(data, MAX_RECORDS));
    RoundTrip(Deserialize(data).value);
  }
}
