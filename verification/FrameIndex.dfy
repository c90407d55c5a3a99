/** Decoded frame intervals of a video source (`src/media/frame_index.cpp`). */
module FrameIndexing {
  import opened Wrappers
  import opened RationalTimes
  import opened SourceTimes
  import opened Model

  const MAX_INDEX_FRAMES: nat := 200000

  datatype IndexedFrame = IndexedFrame(position: Time, end: Time)

  /** One decoded record: its best-effort timestamp and its duration, when the decoder reported them. */
  datatype FrameRecord = FrameRecord(pts: Option<int64>, duration: Option<int64>)

  datatype IndexError =
    | MissingTimestamp
    | InexactTimestamp
    | NotIncreasing
    | TooManyFrames
    | InvalidDuration
    | MissingFinalDuration
    | InvalidDirection
    | RangeOverflow

  /** Frames are nonempty half-open intervals, each starting where the one before ends. */
  ghost predicate Contiguous(frames: seq<IndexedFrame>) {
    && (forall i :: 0 <= i < |frames| ==> frames[i].position.Seconds() < frames[i].end.Seconds())
    && (forall i :: 0 < i < |frames| ==> frames[i - 1].end == frames[i].position)
  }

  predicate Holds(frame: IndexedFrame, t: Time) {
    frame.position.Seconds() <= t.Seconds() < frame.end.Seconds()
  }

  // ----- building

  function PositionOf(record: FrameRecord, base: Time, origin: SourceTime): (r: Option<Time>)
    ensures r.Some? ==>
              && record.pts.Some? && FromTicks(record.pts.value, base).Some?
              && r.value.Seconds() == FromTicks(record.pts.value, base).value.At() - origin.At()
  {
    hide RationalTime.Seconds, SignedTime.At;
    if record.pts.None? then None
    else
      var stamp := FromTicks(record.pts.value, base);
      if stamp.None? then None else Since(stamp.value, origin)
  }

  const START: SourceTime := SignedTime(Zero, false)

  lemma StartIsZero()
    ensures START.At() == 0.0
  {
  }

  /** The duration of a record; an absent one counts as zero. */
  function DurationOf(record: FrameRecord, base: Time): (r: Option<Time>)
    ensures r.Some? && record.duration.Some? ==>
              && FromTicks(record.duration.value, base).Some?
              && r.value.Seconds() == FromTicks(record.duration.value, base).value.At()
  {
    hide RationalTime.Seconds, SignedTime.At;
    StartIsZero();
    if record.duration.None? then Some(Zero)
    else
      var stamp := FromTicks(record.duration.value, base);
      if stamp.None? then None else Since(stamp.value, START)
  }

  /** Intervals of the records seen so far; the last one is still open, with its end at its start. */
  ghost predicate OpenIndex(frames: seq<IndexedFrame>, records: seq<FrameRecord>, base: Time, origin: SourceTime) {
    && |frames| == |records| <= MAX_INDEX_FRAMES
    && (forall i :: 0 <= i < |frames| ==> Some(frames[i].position) == PositionOf(records[i], base, origin))
    && (forall i :: 0 < i < |frames| ==>
          && frames[i - 1].end == frames[i].position
          && frames[i - 1].position.Seconds() < frames[i].position.Seconds())
  }

  /** A record that may follow those already indexed. */
  ghost predicate Follows(frames: seq<IndexedFrame>, record: FrameRecord, base: Time, origin: SourceTime) {
    var position := PositionOf(record, base, origin);
    && position.Some? && |frames| < MAX_INDEX_FRAMES
    && (frames != [] ==> frames[|frames| - 1].position.Seconds() < position.value.Seconds())
    && (record.duration.Some? ==> record.duration.value > 0) && DurationOf(record, base).Some?
  }

  /** Why a record may not follow: the first of its checks that fails, or none. */
  ghost function RecordRefusal(frames: seq<IndexedFrame>, record: FrameRecord, base: Time, origin: SourceTime)
    : Option<IndexError>
  {
    var position := PositionOf(record, base, origin);
    if record.pts.None? then Some(MissingTimestamp)
    else if position.None? then Some(InexactTimestamp)
    else if frames != [] && position.value.Seconds() <= frames[|frames| - 1].position.Seconds() then Some(NotIncreasing)
    else if |frames| >= MAX_INDEX_FRAMES then Some(TooManyFrames)
    else if record.duration.Some? && record.duration.value <= 0 then Some(InvalidDuration)
    else if DurationOf(record, base).None? then Some(InexactTimestamp)
    else None
  }

  /** Records that make a complete index. */
  ghost predicate Indexable(records: seq<FrameRecord>, base: Time, origin: SourceTime) {
    && 0 < |records| <= MAX_INDEX_FRAMES
    && Readable(records, base, origin)
    && var last := records[|records| - 1];
       && DurationOf(last, base).value != Zero
       && Plus(PositionOf(last, base, origin).value, DurationOf(last, base).value).Some?
  }

  ghost predicate Readable(records: seq<FrameRecord>, base: Time, origin: SourceTime) {
    && (forall i :: 0 <= i < |records| ==>
          && PositionOf(records[i], base, origin).Some? && DurationOf(records[i], base).Some?
          && (records[i].duration.Some? ==> records[i].duration.value > 0))
    && (forall i :: 0 < i < |records| ==>
          PositionOf(records[i - 1], base, origin).value.Seconds()
          < PositionOf(records[i], base, origin).value.Seconds())
  }

  /** One turn of the loop in `parse_frame_index`: the new frame closes the one before it. */
  method AddFrame(frames: seq<IndexedFrame>, ghost records: seq<FrameRecord>, record: FrameRecord, base: Time,
                  origin: SourceTime)
    returns (r: Result<(seq<IndexedFrame>, Time), IndexError>)
    requires OpenIndex(frames, records, base, origin)
    ensures r.Success? <==> Follows(frames, record, base, origin)
    ensures r.Success? ==>
              && OpenIndex(r.value.0, records + [record], base, origin)
              && DurationOf(record, base) == Some(r.value.1)
              && (record.duration.Some? ==> record.duration.value > 0)
    ensures r.Failure? ==> Some(r.error) == RecordRefusal(frames, record, base, origin)
  {
    hide RationalTime.Seconds, FromTicks, Since;
    if record.pts.None? {
      return Failure(MissingTimestamp);
    }
    var stamp := FromTicks(record.pts.value, base);
    if stamp.None? {
      return Failure(InexactTimestamp);
    }
    var position := Since(stamp.value, origin);
    if position.None? {
      return Failure(InexactTimestamp);
    }
    var closed := frames;
    if frames != [] {
      var last := |frames| - 1;
      if position.value.Seconds() <= frames[last].position.Seconds() {
        return Failure(NotIncreasing);
      }
      closed := frames[last := frames[last].(end := position.value)];
    }
    if |frames| == 200000 {
      return Failure(TooManyFrames);
    }
    var duration := Zero;
    if record.duration.Some? {
      if record.duration.value <= 0 {
        return Failure(InvalidDuration);
      }
      var ticks := FromTicks(record.duration.value, base);
      var exact := if ticks.None? then None else Since(ticks.value, START);
      if exact.None? {
        return Failure(InexactTimestamp);
      }
      duration := exact.value;
    }
    return Success((closed + [IndexedFrame(position.value, position.value)], duration));
  }

  /** The end of `parse_frame_index`: the last frame is closed by its duration. */
  method CloseIndex(frames: seq<IndexedFrame>, ghost records: seq<FrameRecord>, lastDuration: Time, base: Time,
                    origin: SourceTime)
    returns (r: Result<seq<IndexedFrame>, IndexError>)
    requires OpenIndex(frames, records, base, origin) && Readable(records, base, origin)
    requires records != [] ==> DurationOf(records[|records| - 1], base) == Some(lastDuration)
    ensures r.Success? ==>
              && 0 < |r.value| == |records| <= MAX_INDEX_FRAMES && Contiguous(r.value)
              && (forall i :: 0 <= i < |records| ==> Some(r.value[i].position) == PositionOf(records[i], base, origin))
              && var last := |records| - 1;
                 DurationOf(records[last], base).Some? &&
                 r.value[last].end.Seconds()
                 == r.value[last].position.Seconds() + DurationOf(records[last], base).value.Seconds()
    ensures r.Success? <==> Indexable(records, base, origin)
    ensures records == [] ==> r == Failure(MissingFinalDuration)
  {
    hide RationalTime.Seconds, PositionOf, DurationOf, Plus, Contiguous;
    if frames == [] || lastDuration == Zero {
      return Failure(MissingFinalDuration);
    }
    var last := |frames| - 1;
    var end := Plus(frames[last].position, lastDuration);
    if end.None? {
      return Failure(InexactTimestamp);
    }
    PositiveDuration(lastDuration);
    var closed := frames[last := frames[last].(end := end.value)];
    ClosedIsContiguous(frames, records, base, origin, closed);
    return Success(closed);
  }

  /**
   The interval building of `parse_frame_index`, over records already read from text. An accepted index
   has one frame a record, at the record's exact position, and its frames are contiguous.
   */
  method BuildIndex(records: seq<FrameRecord>, base: Time, origin: SourceTime)
    returns (r: Result<seq<IndexedFrame>, IndexError>)
    ensures r.Success? ==>
              && 0 < |r.value| == |records| <= MAX_INDEX_FRAMES && Contiguous(r.value)
              && (forall i :: 0 <= i < |records| ==> Some(r.value[i].position) == PositionOf(records[i], base, origin))
              && var last := |records| - 1;
                 DurationOf(records[last], base).Some? &&
                 r.value[last].end.Seconds()
                 == r.value[last].position.Seconds() + DurationOf(records[last], base).value.Seconds()
    ensures r.Success? <==> Indexable(records, base, origin)
    ensures records == [] ==> r == Failure(MissingFinalDuration)
  {
    hide RationalTime.Seconds, PositionOf, DurationOf, FromTicks, Since, Plus, Contiguous;
    var frames: seq<IndexedFrame> := [];
    var lastDuration := Zero;
    for i := 0 to |records|
      invariant OpenIndex(frames, records[..i], base, origin) && Readable(records[..i], base, origin)
      invariant i > 0 ==> DurationOf(records[i - 1], base) == Some(lastDuration)
    {
      hide OpenIndex, Readable, Indexable, Follows, RecordRefusal;
      var added := AddFrame(frames, records[..i], records[i], base, origin);
      NextReadable(frames, records, i, base, origin);
      if added.Failure? {
        return Failure(added.error);
      }
      frames, lastDuration := added.value.0, added.value.1;
      assert records[..i + 1] == records[..i] + [records[i]];
    }
    assert records[..|records|] == records;
    r := CloseIndex(frames, records, lastDuration, base, origin);
  }

  lemma NextReadable(frames: seq<IndexedFrame>, records: seq<FrameRecord>, i: nat, base: Time, origin: SourceTime)
    requires i < |records| && OpenIndex(frames, records[..i], base, origin) && Readable(records[..i], base, origin)
    ensures Follows(frames, records[i], base, origin) ==> Readable(records[..i + 1], base, origin)
    ensures !Follows(frames, records[i], base, origin) ==> !Indexable(records, base, origin)
  {
    hide RationalTime.Seconds, PositionOf, DurationOf, Plus, Readable, Indexable;
    var seen := records[..i];
    assert records[..i + 1] == seen + [records[i]];
    if i > 0 {
      assert Some(frames[i - 1].position) == PositionOf(seen[i - 1], base, origin);
    }
    if Follows(frames, records[i], base, origin) {
      OneMoreReadable(seen, records[i], base, origin);
    } else if Indexable(records, base, origin) {
      ReadableSoFar(records, i, base, origin);
    }
  }

  lemma OneMoreReadable(seen: seq<FrameRecord>, record: FrameRecord, base: Time, origin: SourceTime)
    requires Readable(seen, base, origin) && PositionOf(record, base, origin).Some? && DurationOf(record, base).Some?
    requires record.duration.Some? ==> record.duration.value > 0
    requires seen != [] ==> PositionOf(seen[|seen| - 1], base, origin).value.Seconds()
                            < PositionOf(record, base, origin).value.Seconds()
    ensures Readable(seen + [record], base, origin)
  {
    hide RationalTime.Seconds, PositionOf, DurationOf;
  }

  lemma ReadableSoFar(records: seq<FrameRecord>, i: nat, base: Time, origin: SourceTime)
    requires i < |records| && Indexable(records, base, origin)
    ensures |records| <= MAX_INDEX_FRAMES
    ensures PositionOf(records[i], base, origin).Some? && DurationOf(records[i], base).Some?
    ensures records[i].duration.Some? ==> records[i].duration.value > 0
    ensures i > 0 ==> && PositionOf(records[i - 1], base, origin).Some?
                      && PositionOf(records[i - 1], base, origin).value.Seconds()
                         < PositionOf(records[i], base, origin).value.Seconds()
  {
    hide RationalTime.Seconds, PositionOf, DurationOf, Plus;
  }

  lemma ClosedIsContiguous(frames: seq<IndexedFrame>, records: seq<FrameRecord>, base: Time, origin: SourceTime,
                           closed: seq<IndexedFrame>)
    requires OpenIndex(frames, records, base, origin) && frames != []
    requires var last := |frames| - 1;
             && |closed| == |frames| && closed == frames[last := closed[last]]
             && closed[last].position == frames[last].position
             && closed[last].position.Seconds() < closed[last].end.Seconds()
    ensures Contiguous(closed)
  {
    hide RationalTime.Seconds, PositionOf;
    forall i | 0 <= i < |closed|
      ensures closed[i].position.Seconds() < closed[i].end.Seconds()
    {
      if i < |closed| - 1 { assert frames[i + 1 - 1].end == frames[i + 1].position; }
    }
    forall i | 0 < i < |closed|
      ensures closed[i - 1].end == closed[i].position
    {
      assert frames[i - 1].end == frames[i].position;
    }
  }

  lemma PositiveDuration(t: Time)
    requires t != Zero
    ensures t.Seconds() > 0.0
  {
    SignOfMagnitude(t);
    hide RationalTime.Seconds;
    EqualIffSameInstant(t, Zero);
  }

  // ----- lookup

  lemma {:induction false} FramesOrdered(frames: seq<IndexedFrame>, i: nat, j: nat)
    requires Contiguous(frames) && i < j < |frames|
    ensures frames[i].end.Seconds() <= frames[j].position.Seconds()
    ensures frames[i].position.Seconds() < frames[j].position.Seconds()
    decreases j
  {
    hide RationalTime.Seconds;
    if i < j - 1 {
      FramesOrdered(frames, i, j - 1);
    }
  }

  /** The number of frames that start at or before an instant (`std::upper_bound`). */
  method UpperBound(frames: seq<IndexedFrame>, t: Time) returns (n: nat)
    requires Contiguous(frames)
    ensures n <= |frames|
    ensures forall i :: 0 <= i < n ==> frames[i].position.Seconds() <= t.Seconds()
    ensures forall i :: n <= i < |frames| ==> t.Seconds() < frames[i].position.Seconds()
  {
    hide RationalTime.Seconds;
    var low, high := 0, |frames|;
    while low < high
      invariant 0 <= low <= high <= |frames|
      invariant forall i :: 0 <= i < low ==> frames[i].position.Seconds() <= t.Seconds()
      invariant forall i :: high <= i < |frames| ==> t.Seconds() < frames[i].position.Seconds()
    {
      var middle := low + (high - low) / 2;
      forall i | 0 <= i < |frames| && i != middle
        ensures if i < middle then frames[i].position.Seconds() < frames[middle].position.Seconds()
                else frames[middle].position.Seconds() < frames[i].position.Seconds()
      {
        FramesOrdered(frames, if i < middle then i else middle, if i < middle then middle else i);
      }
      if t.Seconds() < frames[middle].position.Seconds() { high := middle; } else { low := middle + 1; }
    }
    n := low;
  }

  /** The number of frames that start strictly before an instant (`std::lower_bound`). */
  method LowerBound(frames: seq<IndexedFrame>, t: Time) returns (n: nat)
    requires Contiguous(frames)
    ensures n <= |frames|
    ensures forall i :: 0 <= i < n ==> frames[i].position.Seconds() < t.Seconds()
    ensures forall i :: n <= i < |frames| ==> t.Seconds() <= frames[i].position.Seconds()
  {
    hide RationalTime.Seconds;
    var low, high := 0, |frames|;
    while low < high
      invariant 0 <= low <= high <= |frames|
      invariant forall i :: 0 <= i < low ==> frames[i].position.Seconds() < t.Seconds()
      invariant forall i :: high <= i < |frames| ==> t.Seconds() <= frames[i].position.Seconds()
    {
      var middle := low + (high - low) / 2;
      forall i | 0 <= i < |frames| && i != middle
        ensures if i < middle then frames[i].position.Seconds() < frames[middle].position.Seconds()
                else frames[middle].position.Seconds() < frames[i].position.Seconds()
      {
        FramesOrdered(frames, if i < middle then i else middle, if i < middle then middle else i);
      }
      if frames[middle].position.Seconds() < t.Seconds() { low := middle + 1; } else { high := middle; }
    }
    n := low;
  }

  /** `FrameIndex::at`: the one frame whose interval holds the instant, if any does. */
  method At(frames: seq<IndexedFrame>, t: Time) returns (found: Option<nat>)
    requires Contiguous(frames)
    ensures found.Some? ==> found.value < |frames| && Holds(frames[found.value], t)
    ensures forall i :: 0 <= i < |frames| && Holds(frames[i], t) ==> found == Some(i)
  {
    hide RationalTime.Seconds;
    var after := UpperBound(frames, t);
    if after > 1 {
      forall i | 0 <= i < after - 1
        ensures frames[i].end.Seconds() <= frames[after - 1].position.Seconds()
      {
        FramesOrdered(frames, i, after - 1);
      }
    }
    if after == 0 || t.Seconds() >= frames[after - 1].end.Seconds() {
      return None;
    }
    return Some(after - 1);
  }

  // ----- stepping

  /** How many frames start at or before an instant. */
  function StartsBy(frames: seq<IndexedFrame>, t: real): (n: nat)
    ensures n <= |frames|
  {
    if frames == [] || t < frames[0].position.Seconds() then 0 else 1 + StartsBy(frames[1..], t)
  }

  /** How many frames end at or before an instant. */
  function EndsBy(frames: seq<IndexedFrame>, t: real): (n: nat)
    ensures n <= |frames|
  {
    if frames == [] || t < frames[0].end.Seconds() then 0 else 1 + EndsBy(frames[1..], t)
  }

  lemma {:induction false} StartsByIs(frames: seq<IndexedFrame>, t: real, n: nat)
    requires n <= |frames|
    requires forall i :: 0 <= i < n ==> frames[i].position.Seconds() <= t
    requires n < |frames| ==> t < frames[n].position.Seconds()
    ensures StartsBy(frames, t) == n
  {
    hide RationalTime.Seconds;
    if n > 0 { StartsByIs(frames[1..], t, n - 1); }
  }

  lemma {:induction false} EndsByIs(frames: seq<IndexedFrame>, t: real, n: nat)
    requires n <= |frames|
    requires forall i :: 0 <= i < n ==> frames[i].end.Seconds() <= t
    requires n < |frames| ==> t < frames[n].end.Seconds()
    ensures EndsBy(frames, t) == n
  {
    hide RationalTime.Seconds;
    if n > 0 { EndsByIs(frames[1..], t, n - 1); }
  }

  function Later(a: Time, b: Time): Time {
    if a.Seconds() < b.Seconds() then b else a
  }

  /** Forward: the first start after the position, when it lies before the range's end. */
  function NextFrame(frames: seq<IndexedFrame>, t: Time, start: Time, end: real): Option<Time> {
    var q := StartsBy(frames, t.Seconds());
    if q < |frames| && frames[q].position.Seconds() < end then Some(Later(start, frames[q].position)) else None
  }

  /** Backward: the start of the last frame that is over, when it reaches into the range. */
  function PreviousFrame(frames: seq<IndexedFrame>, t: Time, start: Time): Option<Time> {
    var q := EndsBy(frames, t.Seconds());
    if q > 0 && frames[q - 1].end.Seconds() > start.Seconds() then Some(Later(start, frames[q - 1].position)) else None
  }

  /** Where `at` and the lower bound place an instant among the starts and the ends. */
  lemma PlaceOf(frames: seq<IndexedFrame>, t: Time, current: Option<nat>, bound: nat)
    requires Contiguous(frames) && bound <= |frames|
    requires current.Some? ==> current.value < |frames| && Holds(frames[current.value], t)
    requires forall i :: 0 <= i < |frames| && Holds(frames[i], t) ==> current == Some(i)
    requires forall i :: 0 <= i < bound ==> frames[i].position.Seconds() < t.Seconds()
    requires forall i :: bound <= i < |frames| ==> t.Seconds() <= frames[i].position.Seconds()
    ensures StartsBy(frames, t.Seconds()) == if current.Some? then current.value + 1 else bound
    ensures EndsBy(frames, t.Seconds()) == if current.Some? then current.value else bound
  {
    hide RationalTime.Seconds;
    if current.Some? {
      Inside(frames, t, current.value);
    } else {
      forall i | 0 <= i < |frames|
        ensures !Holds(frames[i], t)
      {
      }
      Outside(frames, t, bound);
    }
  }

  lemma Inside(frames: seq<IndexedFrame>, t: Time, i: nat)
    requires Contiguous(frames) && i < |frames| && Holds(frames[i], t)
    ensures StartsBy(frames, t.Seconds()) == i + 1 && EndsBy(frames, t.Seconds()) == i
  {
    hide RationalTime.Seconds, StartsBy, EndsBy;
    forall j | 0 <= j < i
      ensures frames[j].position.Seconds() <= t.Seconds() && frames[j].end.Seconds() <= t.Seconds()
    {
      FramesOrdered(frames, j, i);
    }
    StartsByIs(frames, t.Seconds(), i + 1);
    EndsByIs(frames, t.Seconds(), i);
  }

  lemma Outside(frames: seq<IndexedFrame>, t: Time, bound: nat)
    requires Contiguous(frames) && bound <= |frames|
    requires forall i :: 0 <= i < |frames| ==> !Holds(frames[i], t)
    requires forall i :: 0 <= i < bound ==> frames[i].position.Seconds() < t.Seconds()
    requires forall i :: bound <= i < |frames| ==> t.Seconds() <= frames[i].position.Seconds()
    ensures StartsBy(frames, t.Seconds()) == bound == EndsBy(frames, t.Seconds())
  {
    hide RationalTime.Seconds, StartsBy, EndsBy;
    forall j | 0 <= j < bound
      ensures frames[j].end.Seconds() <= t.Seconds()
    {
      assert !Holds(frames[j], t);
    }
    if bound < |frames| { assert !Holds(frames[bound], t); }
    StartsByIs(frames, t.Seconds(), bound);
    EndsByIs(frames, t.Seconds(), bound);
  }

  /** `FrameIndex::step`. */
  method Step(frames: seq<IndexedFrame>, t: Time, direction: int, range: TimeRange)
    returns (r: Result<Option<Time>, IndexError>)
    requires Contiguous(frames)
    ensures r == Failure(InvalidDirection) <==> direction != -1 && direction != 1
    ensures r == Failure(RangeOverflow) <==>
              direction == 1 && StartsBy(frames, t.Seconds()) < |frames| && range.End().None?
    ensures r.Failure? ==> r.error == InvalidDirection || r.error == RangeOverflow
    ensures r.Success? && direction == 1 && range.End().Some? ==>
              r.value == NextFrame(frames, t, range.start, range.End().value.Seconds())
    ensures r.Success? && direction == 1 && range.End().None? ==> r.value == None
    ensures direction == -1 ==> r == Success(PreviousFrame(frames, t, range.start))
  {
    hide RationalTime.Seconds, Plus, StartsBy, EndsBy;
    if direction != -1 && direction != 1 {
      return Failure(InvalidDirection);
    }
    if frames == [] {
      assert StartsBy(frames, t.Seconds()) == 0 && EndsBy(frames, t.Seconds()) == 0;
      return Success(None);
    }
    var current := At(frames, t);
    var bound := LowerBound(frames, t);
    PlaceOf(frames, t, current, bound);
    if direction > 0 {
      var next := if current.Some? then current.value + 1 else bound;
      if next < |frames| {
        var end := range.End();
        if end.None? {
          return Failure(RangeOverflow);
        }
        if frames[next].position.Seconds() < end.value.Seconds() {
          var position := frames[next].position;
          return Success(Some(if range.start.Seconds() < position.Seconds() then position else range.start));
        }
      }
    } else {
      var before := if current.Some? then current.value else bound;
      if before != 0 {
        var previous := frames[before - 1];
        if previous.end.Seconds() > range.start.Seconds() {
          var position := previous.position;
          return Success(Some(if range.start.Seconds() < position.Seconds() then position else range.start));
        }
      }
    }
    return Success(None);
  }

  /**
   Forward then backward returns the clamped start of the frame one was in, exactly when that frame does
   not end before the range begins; from inside the range it always does.
   */
  lemma ForwardThenBackward(frames: seq<IndexedFrame>, t: Time, i: nat, start: Time, end: real)
    requires Contiguous(frames) && i < |frames| && Holds(frames[i], t)
    requires NextFrame(frames, t, start, end).Some?
    ensures var back := PreviousFrame(frames, NextFrame(frames, t, start, end).value, start);
            && (back == Some(Later(start, frames[i].position)) <==> start.Seconds() < frames[i].end.Seconds())
            && (start.Seconds() <= t.Seconds() ==> back == Some(Later(start, frames[i].position)))
  {
    hide RationalTime.Seconds, StartsBy, EndsBy;
    Inside(frames, t, i);
    var there := NextFrame(frames, t, start, end).value;
    if start.Seconds() < frames[i].end.Seconds() {
      assert there == frames[i + 1].position;
      Inside(frames, there, i + 1);
    } else {
      BackFromRangeStart(frames, there, start);
    }
  }

  /** From before the range, stepping forward and back can end nowhere: of two frames of one second, in the range of the
      second, a step from inside the first leads to the second, and from there back to none. */
  lemma NowhereToGoBack()
    ensures var half, one, two := RationalTime(1, 2), RationalTime(1, 1), RationalTime(2, 1);
            var frames := [IndexedFrame(Zero, one), IndexedFrame(one, two)];
            && Contiguous(frames) && Holds(frames[0], half)
            && NextFrame(frames, half, one, two.Seconds()) == Some(one)
            && PreviousFrame(frames, one, one) == None
  {
    var half: Time, one: Time, two: Time := RationalTime(1, 2), RationalTime(1, 1), RationalTime(2, 1);
    var frames := [IndexedFrame(Zero, one), IndexedFrame(one, two)];
    assert Zero.Seconds() == 0.0 && half.Seconds() == 0.5 && one.Seconds() == 1.0 && two.Seconds() == 2.0;
    hide RationalTime.Seconds, StartsBy, EndsBy;
    Inside(frames, half, 0);
    Inside(frames, one, 1);
  }

  /** Stepping back from the start of the range finds nothing. */
  lemma BackFromRangeStart(frames: seq<IndexedFrame>, t: Time, start: Time)
    requires t.Seconds() <= start.Seconds()
    ensures PreviousFrame(frames, t, start) == None
  {
    hide RationalTime.Seconds;
    EndsByBound(frames, t.Seconds());
  }

  lemma {:induction false} EndsByBound(frames: seq<IndexedFrame>, t: real)
    ensures forall i :: 0 <= i < EndsBy(frames, t) ==> frames[i].end.Seconds() <= t
  {
    hide RationalTime.Seconds;
    if frames != [] && frames[0].end.Seconds() <= t {
      EndsByBound(frames[1..], t);
      assert forall i :: 0 < i < |frames| ==> frames[i] == frames[1..][i - 1];
    }
  }

  /** The frame starts after `t` and before `end`, in order. */
  function StartsBetween(frames: seq<IndexedFrame>, t: real, end: real): seq<Time> {
    if frames == [] then []
    else
      var n := |frames| - 1;
      StartsBetween(frames[..n], t, end)
      + (if t < frames[n].position.Seconds() < end then [frames[n].position] else [])
  }

  lemma {:induction false} NoneBetween(frames: seq<IndexedFrame>, t: real, end: real, n: nat)
    requires n <= |frames|
    requires forall i :: n <= i < |frames| ==> !(t < frames[i].position.Seconds() < end)
    ensures StartsBetween(frames, t, end) == StartsBetween(frames[..n], t, end)
  {
    hide RationalTime.Seconds;
    if n < |frames| {
      var m := |frames| - 1;
      NoneBetween(frames[..m], t, end, n);
      assert frames[..m][..n] == frames[..n];
    } else {
      assert frames[..n] == frames;
    }
  }

  lemma {:induction false} StartsByBound(frames: seq<IndexedFrame>, t: real)
    requires Contiguous(frames)
    ensures forall i :: 0 <= i < StartsBy(frames, t) ==> frames[i].position.Seconds() <= t
    ensures forall i :: StartsBy(frames, t) <= i < |frames| ==> t < frames[i].position.Seconds()
  {
    hide RationalTime.Seconds;
    if frames != [] {
      StartsByBound(frames[1..], t);
      forall i | 0 < i < |frames|
        ensures frames[0].position.Seconds() < frames[i].position.Seconds() && frames[i] == frames[1..][i - 1]
      {
        FramesOrdered(frames, 0, i);
      }
    }
  }

  /**
   Repeated forward steps inside the range visit every frame start after the position and before the range's
   end, once, in order.
   */
  method StepOn(frames: seq<IndexedFrame>, t: Time, range: TimeRange) returns (visited: seq<Time>)
    requires Contiguous(frames) && range.End().Some? && range.start.Seconds() <= t.Seconds()
    ensures visited == StartsBetween(frames, t.Seconds(), range.End().value.Seconds())
  {
    hide RationalTime.Seconds, Plus, StartsBy, TimeRange.End, Contiguous, NextFrame, PreviousFrame;
    visited := [];
    var position := t;
    var done := false;
    ghost var n, end := StartsBy(frames, t.Seconds()), range.End().value.Seconds();
    StartsByBound(frames, t.Seconds());
    NoneBetween(frames[..n], t.Seconds(), end, 0);
    assert frames[..n][..0] == [];
    while !done
      invariant n <= |frames| && visited == StartsBetween(frames[..n], t.Seconds(), end)
      invariant range.start.Seconds() <= position.Seconds()
      invariant forall i :: 0 <= i < n ==> frames[i].position.Seconds() <= position.Seconds()
      invariant forall i :: n <= i < |frames| ==> position.Seconds() < frames[i].position.Seconds()
      invariant done ==> forall i :: n <= i < |frames| ==> end <= frames[i].position.Seconds()
      invariant t.Seconds() <= position.Seconds()
      decreases |frames| - n, !done
    {
      NextVisited(frames, position, range.start, end, n);
      var stepped := Step(frames, position, 1, range);
      if stepped.value.None? {
        done := true;
      } else {
        assert frames[..n + 1][..n] == frames[..n];
        position := stepped.value.value;
        visited, n := visited + [position], n + 1;
      }
    }
    NoneBetween(frames, t.Seconds(), end, n);
  }

  /** The first start after an instant, and those after it. */
  lemma {:induction false} FirstBetween(frames: seq<IndexedFrame>, t: real, end: real, q: nat)
    requires Contiguous(frames) && q < |frames| && t < frames[q].position.Seconds() < end
    requires q > 0 ==> frames[q - 1].position.Seconds() <= t
    ensures StartsBetween(frames, t, end)
            == [frames[q].position] + StartsBetween(frames, frames[q].position.Seconds(), end)
  {
    hide RationalTime.Seconds;
    var n := |frames| - 1;
    forall i | 0 <= i < q
      ensures frames[i].position.Seconds() <= t
    {
      if i < q - 1 { FramesOrdered(frames, i, q - 1); }
    }
    if q == n {
      assert frames[..n] == frames[..q];
      NoneBetween(frames[..q], t, end, 0);
      NoneBetween(frames[..q], frames[q].position.Seconds(), end, 0);
      assert frames[..q][..0] == [];
    } else {
      FramesOrdered(frames, q, n);
      FirstBetween(frames[..n], t, end, q);
    }
  }

  /**
   Where repeated forward steps lead: every later start before the range's end, with those before the range
   replaced by its own start.
   */
  ghost function Visits(frames: seq<IndexedFrame>, t: real, start: Time, end: real): seq<Time> {
    if exists i :: && 0 <= i < |frames| && t < frames[i].position.Seconds() <= start.Seconds()
                   && frames[i].position.Seconds() < end
    then [start] + StartsBetween(frames, start.Seconds(), end)
    else StartsBetween(frames, t, end)
  }

  /** The same with the range's end, if that fits; otherwise refused exactly when there is a later start. */
  ghost function Walked(frames: seq<IndexedFrame>, t: Time, range: TimeRange): Result<seq<Time>, IndexError>
    requires Contiguous(frames)
  {
    match range.End()
    case Some(end) => Success(Visits(frames, t.Seconds(), range.start, end.Seconds()))
    case None => if StartsBy(frames, t.Seconds()) < |frames| then Failure(RangeOverflow) else Success([])
  }

  /** Repeated forward steps, from wherever they begin. */
  method StepThrough(frames: seq<IndexedFrame>, t: Time, range: TimeRange) returns (r: Result<seq<Time>, IndexError>)
    requires Contiguous(frames)
    ensures r == Walked(frames, t, range)
  {
    hide RationalTime.Seconds, Plus, StartsBy, TimeRange.End, Contiguous, PreviousFrame;
    var stepped := Step(frames, t, 1, range);
    if stepped.Failure? {
      return Failure(stepped.error);
    }
    if range.End().None? {
      return Success([]);
    }
    ghost var q, end := StartsBy(frames, t.Seconds()), range.End().value.Seconds();
    StartsByBound(frames, t.Seconds());
    if stepped.value.None? {
      forall i | q <= i < |frames|
        ensures end <= frames[i].position.Seconds()
      {
        if q < i { FramesOrdered(frames, q, i); }
      }
      NoneBetween(frames, t.Seconds(), end, 0);
      return Success([]);
    }
    var rest := StepOn(frames, stepped.value.value, range);
    FirstBetween(frames, t.Seconds(), end, q);
    forall i | q < i < |frames|
      ensures frames[q].position.Seconds() < frames[i].position.Seconds()
    {
      FramesOrdered(frames, q, i);
    }
    return Success([stepped.value.value] + rest);
  }

  lemma NextVisited(frames: seq<IndexedFrame>, t: Time, start: Time, end: real, n: nat)
    requires Contiguous(frames) && n <= |frames| && start.Seconds() <= t.Seconds()
    requires forall i :: 0 <= i < n ==> frames[i].position.Seconds() <= t.Seconds()
    requires forall i :: n <= i < |frames| ==> t.Seconds() < frames[i].position.Seconds()
    ensures StartsBy(frames, t.Seconds()) == n
    ensures NextFrame(frames, t, start, end)
            == if n < |frames| && frames[n].position.Seconds() < end then Some(frames[n].position) else None
    ensures forall i :: n < i < |frames| ==> frames[n].position.Seconds() < frames[i].position.Seconds()
  {
    hide RationalTime.Seconds, StartsBy;
    StartsByIs(frames, t.Seconds(), n);
    forall i | n < i < |frames|
      ensures frames[n].position.Seconds() < frames[i].position.Seconds()
    {
      FramesOrdered(frames, n, i);
    }
  }
}
