/**
 Splitting a clip cannot be seen or heard: wherever both plans can be evaluated, they show and sound the
 same. Instants behind the split can become impossible to evaluate; it is proved which.
 */
module SplitPlayback {
  import opened Wrappers
  import opened Gcds
  import opened RationalTimes
  import opened Model
  import opened SequencePlans
  import opened PlanBuilder
  import opened Commands

  // ----- timeline order

  /** Later clips start strictly later. */
  ghost predicate Ascending(clips: seq<Clip>) {
    forall i, j :: 0 <= i < j < |clips| ==> clips[i].position.Seconds() < clips[j].position.Seconds()
  }

  ghost predicate Follows(clip: Clip, clips: seq<Clip>) {
    forall i :: 0 <= i < |clips| ==> clips[i].position.Seconds() < clip.position.Seconds()
  }

  lemma LaterIsNotLess(a: Clip, b: Clip)
    requires a.position.Seconds() < b.position.Seconds()
    ensures ClipLess(a, b) && !ClipLess(b, a)
  {
    hide RationalTime.Seconds;
  }

  /** Insertion lands between the clips that start earlier and the ones that start later. */
  lemma {:induction false} InsertBetween(before: seq<Clip>, after: seq<Clip>, clip: Clip)
    requires Follows(clip, before)
    requires after != [] ==> clip.position.Seconds() < after[0].position.Seconds()
    ensures InsertSorted(before + after, clip) == before + [clip] + after
  {
    hide RationalTime.Seconds, ClipLess;
    if before == [] {
      assert before + after == after;
      if after != [] { LaterIsNotLess(clip, after[0]); }
    } else {
      LaterIsNotLess(before[0], clip);
      assert (before + after)[1..] == before[1..] + after;
      InsertBetween(before[1..], after, clip);
      assert before + [clip] + after == [before[0]] + (before[1..] + [clip] + after);
    }
  }

  lemma {:induction false} SortKeepsAscending(clips: seq<Clip>)
    requires Ascending(clips)
    ensures SortClips(clips) == clips
  {
    hide RationalTime.Seconds, ClipLess;
    if clips != [] {
      var n := |clips| - 1;
      SortKeepsAscending(clips[..n]);
      InsertBetween(clips[..n], [], clips[n]);
      assert clips[..n] + [] == clips[..n];
      assert clips[..n] + [clips[n]] + [] == clips;
    }
  }

  lemma SortStep(clips: seq<Clip>, clip: Clip)
    ensures SortClips(clips + [clip]) == InsertSorted(SortClips(clips), clip)
  {
    hide RationalTime.Seconds, ClipLess, InsertSorted;
    assert (clips + [clip])[..|clips|] == clips;
  }

  /** A clip appended out of place is sorted to where its position belongs. */
  lemma SortAppended(before: seq<Clip>, after: seq<Clip>, clip: Clip)
    requires Ascending(before + after) && Follows(clip, before)
    requires after != [] ==> clip.position.Seconds() < after[0].position.Seconds()
    ensures SortClips(before + after + [clip]) == before + [clip] + after
  {
    hide *;
    SortStep(before + after, clip);
    SortKeepsAscending(before + after);
    InsertBetween(before, after, clip);
  }

  lemma ClipLonger(clip: Clip)
    requires clip.source.duration != Zero && clip.End().Some?
    ensures clip.position.Seconds() < clip.End().value.Seconds()
  {
    ZeroSeconds();
    SecondsNonnegative(clip.source.duration);
    hide RationalTime.Seconds, Plus;
    EqualIffSameInstant(clip.source.duration, Zero);
  }

  lemma {:induction false} TrackAscending(clips: seq<Clip>, i: nat, j: nat)
    requires forall k :: 0 <= k < |clips| ==> clips[k].End().Some? && clips[k].source.duration != Zero
    requires Ordered(clips) && i < j < |clips|
    ensures clips[i].End().value.Seconds() <= clips[j].position.Seconds()
    ensures clips[i].position.Seconds() < clips[j].position.Seconds()
    decreases j
  {
    hide RationalTime.Seconds, Plus;
    ClipLonger(clips[i]);
    if i < j - 1 {
      TrackAscending(clips, i, j - 1);
      ClipLonger(clips[j - 1]);
    }
  }

  lemma ValidTrackAscending(project: ProjectSnapshot, s: nat, t: nat)
    requires ValidContent(project) && s < |project.sequences| && t < |project.sequences[s].tracks|
    ensures var clips := project.sequences[s].tracks[t].clips;
            && Ascending(clips) && Resolved(clips, project.media)
            && (forall k :: 0 <= k < |clips| ==> clips[k].End().Some? && clips[k].source.duration != Zero)
            && (forall k :: 0 < k < |clips| ==> clips[k - 1].End().value.Seconds() <= clips[k].position.Seconds())
  {
    hide RationalTime.Seconds, Plus, ObjectIds, ValidAsset, ValidRouting, ValidText, ValidOutput, FindAsset, Supports;
    var track := project.sequences[s].tracks[t];
    assert ValidSequence(project.sequences[s], project.media);
    assert ValidTrack(track, project.media);
    forall k | 0 <= k < |track.clips|
      ensures ValidClip(track.clips[k], project.media, track.kind)
    {
    }
    forall i, j | 0 <= i < j < |track.clips|
      ensures track.clips[i].position.Seconds() < track.clips[j].position.Seconds()
    {
      TrackAscending(track.clips, i, j);
    }
  }

  // ----- the split project

  /** Every track but one is unchanged; on that one, clip `k` is replaced by its two halves. */
  ghost predicate SplitAt(before: ProjectSnapshot, after: ProjectSnapshot, place: ClipPlace, left: Clip, right: Clip) {
    && ValidPlace(before.sequences, place)
    && after.media == before.media && |after.sequences| == |before.sequences|
    && (forall s :: 0 <= s < |before.sequences| ==>
          && after.sequences[s].id == before.sequences[s].id
          && |after.sequences[s].tracks| == |before.sequences[s].tracks|)
    && (forall s, t :: 0 <= s < |before.sequences| && 0 <= t < |before.sequences[s].tracks| ==>
          var old_, new_ := before.sequences[s].tracks[t], after.sequences[s].tracks[t];
          new_ == if s == place.s && t == place.t
                  then old_.(clips := old_.clips[..place.k] + [left, right] + old_.clips[place.k + 1..])
                  else old_)
  }

  /** Two clips that play what one clip played, one after the other. */
  ghost predicate Halves(clip: Clip, left: Clip, right: Clip) {
    && left.media == right.media == clip.media && left.routing == right.routing == clip.routing
    && left.position == clip.position
    && left.source.start == clip.source.start
    && clip.position.Seconds() < right.position.Seconds()
    && clip.position.Seconds() + left.source.duration.Seconds() == right.position.Seconds()
    && right.source.start.Seconds() == clip.source.start.Seconds() + left.source.duration.Seconds()
    && right.position.Seconds() + right.source.duration.Seconds()
       == clip.position.Seconds() + clip.source.duration.Seconds()
    && right.position.Seconds() < clip.position.Seconds() + clip.source.duration.Seconds()
  }

  lemma HalvesOfSplit(clip: Clip, position: Time, id: uint64)
    requires SplitHalves(clip, position, id).Some?
    ensures var (left, right) := SplitHalves(clip, position, id).value;
            Halves(clip, left, right) && left.id == clip.id && right.id == id
  {
    hide RationalTime.Seconds;
  }

  lemma SplitResult(project: ProjectSnapshot, clip: uint64, position: Time)
      returns (place: ClipPlace, left: Clip, right: Clip)
    requires Valid(project) && Apply(project, SplitClip(clip, position)).Some?
    ensures FindClip(project.sequences, clip) == Some(place) && ClipAt(project.sequences, place).id == clip
    ensures SplitHalves(ClipAt(project.sequences, place), position, project.nextId) == Some((left, right))
    ensures Halves(ClipAt(project.sequences, place), left, right)
    ensures left.id == clip && right.id == project.nextId
    ensures SplitAt(project, Apply(project, SplitClip(clip, position)).value.0, place, left, right)
  {
    hide RationalTime.Seconds, Plus, Minus, Valid, ValidContent, SplitHalves, SortClips, FindClip, Halves;
    place := FindClip(project.sequences, clip).value;
    var original := ClipAt(project.sequences, place);
    var halves := SplitHalves(original, position, project.nextId).value;
    HalvesOfSplit(original, position, project.nextId);
    left, right := halves.0, halves.1;
    ValidImpliesContent(project);
    SplitTrackSorted(project, place, left, right);
    SortedTracksStay(project);
  }

  lemma SortedTracksStay(project: ProjectSnapshot)
    requires ValidContent(project)
    ensures forall s, t :: 0 <= s < |project.sequences| && 0 <= t < |project.sequences[s].tracks| ==>
              SortClips(project.sequences[s].tracks[t].clips) == project.sequences[s].tracks[t].clips
  {
    hide RationalTime.Seconds, Plus, ValidContent, SortClips;
    forall s, t | 0 <= s < |project.sequences| && 0 <= t < |project.sequences[s].tracks|
      ensures SortClips(project.sequences[s].tracks[t].clips) == project.sequences[s].tracks[t].clips
    {
      ValidTrackAscending(project, s, t);
      SortKeepsAscending(project.sequences[s].tracks[t].clips);
    }
  }

  lemma SplitTrackSorted(project: ProjectSnapshot, place: ClipPlace, left: Clip, right: Clip)
    requires ValidContent(project) && ValidPlace(project.sequences, place)
    requires Halves(ClipAt(project.sequences, place), left, right)
    ensures var clips := project.sequences[place.s].tracks[place.t].clips;
            SortClips(clips[place.k := left] + [right])
            == clips[..place.k] + [left, right] + clips[place.k + 1..]
  {
    hide RationalTime.Seconds, Plus, ValidContent, SortClips, Halves;
    ValidTrackAscending(project, place.s, place.t);
    var clips := project.sequences[place.s].tracks[place.t].clips;
    var shortened := clips[place.k := left];
    var before, after := shortened[..place.k + 1], shortened[place.k + 1..];
    assert before + after == shortened;
    RightHalfFits(clips, place.k, left, right);
    SortAppended(before, after, right);
    assert before + [right] + after == clips[..place.k] + [left, right] + clips[place.k + 1..];
  }

  /** With its left half in place, the right half belongs directly behind it. */
  lemma RightHalfFits(clips: seq<Clip>, k: nat, left: Clip, right: Clip)
    requires k < |clips| && Ascending(clips) && Halves(clips[k], left, right) && clips[k].End().Some?
    requires k + 1 < |clips| ==> clips[k].End().value.Seconds() <= clips[k + 1].position.Seconds()
    ensures var shortened := clips[k := left];
            && Ascending(shortened) && Follows(right, shortened[..k + 1])
            && (k + 1 < |clips| ==> right.position.Seconds() < shortened[k + 1].position.Seconds())
  {
    hide RationalTime.Seconds;
    var shortened := clips[k := left];
    forall i, j | 0 <= i < j < |shortened|
      ensures shortened[i].position.Seconds() < shortened[j].position.Seconds()
    {
      assert clips[i].position.Seconds() < clips[j].position.Seconds();
    }
    forall i | 0 <= i < k + 1
      ensures shortened[i].position.Seconds() < right.position.Seconds()
    {
      if i < k { assert clips[i].position.Seconds() < clips[k].position.Seconds(); }
    }
  }

  // ----- the split plan

  /** What a viewer gets from a cue, whatever the clip's index has become. */
  ghost predicate SameCue(before: SequencePlan, after: SequencePlan, a: Cue, b: Cue) {
    && a.layer == b.layer && a.source == b.source && a.stream == b.stream && a.gainMilli == b.gainMilli
    && a.layer < |before.layers| && a.clip < |before.layers[a.layer].clips|
    && b.layer < |after.layers| && b.clip < |after.layers[b.layer].clips|
    && before.layers[a.layer].clips[a.clip].media == after.layers[b.layer].clips[b.clip].media
  }

  ghost predicate SameOption(before: SequencePlan, after: SequencePlan, a: Option<Cue>, b: Option<Cue>) {
    (a.None? <==> b.None?) && (a.Some? ==> SameCue(before, after, a.value, b.value))
  }

  ghost predicate SameSounds(before: SequencePlan, after: SequencePlan, a: seq<Cue>, b: seq<Cue>) {
    |a| == |b| && forall i :: 0 <= i < |a| ==> SameCue(before, after, a[i], b[i])
  }

  /** Two layer clips that play one after the other what one played. */
  ghost predicate LayerHalves(clip: LayerClip, left: LayerClip, right: LayerClip) {
    && left.media == right.media == clip.media && left.routing == right.routing == clip.routing
    && left.position == clip.position && left.source.start == clip.source.start
    && clip.Start() < right.Start() < clip.Finish()
    && left.Finish() == right.Start() && right.Finish() == clip.Finish()
    && right.source.start.Seconds() == clip.source.start.Seconds() + (right.Start() - clip.Start())
  }

  lemma HalvesOfLayer(clip: Clip, left: Clip, right: Clip, media: seq<MediaAsset>)
    requires Halves(clip, left, right) && FindAsset(media, clip.media).Some?
    ensures LayerHalves(LayerClipOf(clip, media), LayerClipOf(left, media), LayerClipOf(right, media))
  {
    hide RationalTime.Seconds, FindAsset;
  }

  lemma {:induction false} ShownConcat(a: seq<LayerClip>, b: seq<LayerClip>, x: real)
    ensures Shown(a + b, x) ==
            if Shown(a, x).Some? then Shown(a, x)
            else if Shown(b, x).Some? then Some(Shown(b, x).value + |a|) else None
  {
    hide RationalTime.Seconds;
    if a == [] {
      assert a + b == b;
    } else {
      assert (a + b)[1..] == a[1..] + b;
      ShownConcat(a[1..], b, x);
    }
  }

  /** The index of the clip shown after clip `k` was split. */
  function IndexAfterSplit(shown: Option<nat>, k: nat, inRight: bool): Option<nat> {
    if shown.None? || shown.value < k || (shown.value == k && !inRight) then shown else Some(shown.value + 1)
  }

  lemma ShownFirst(clip: LayerClip, b: seq<LayerClip>, x: real)
    ensures Shown([clip] + b, x) ==
            if clip.Covers(x) then Some(0) else if Shown(b, x).Some? then Some(Shown(b, x).value + 1) else None
  {
    hide RationalTime.Seconds;
    assert ([clip] + b)[1..] == b;
  }

  /** The halves of a clip share out what it covers. */
  lemma CoversAfterSplit(clip: LayerClip, left: LayerClip, right: LayerClip, x: real)
    requires LayerHalves(clip, left, right)
    ensures clip.Covers(x) <==> left.Covers(x) || right.Covers(x)
    ensures !(left.Covers(x) && right.Covers(x))
  {
  }

  /** The clip shown after a split: the same one, or the half that covers the instant. */
  lemma ShownAfterSplit(a: seq<LayerClip>, clip: LayerClip, b: seq<LayerClip>, left: LayerClip, right: LayerClip,
                        x: real)
    requires LayerHalves(clip, left, right)
    ensures Shown(a + [left, right] + b, x) == IndexAfterSplit(Shown(a + [clip] + b, x), |a|, right.Covers(x))
  {
    hide Shown, LayerHalves, RationalTime.Seconds;
    assert a + [clip] + b == a + ([clip] + b);
    assert a + [left, right] + b == a + ([left] + ([right] + b));
    CoversAfterSplit(clip, left, right, x);
    ShownFirst(clip, b, x);
    ShownFirst(right, b, x);
    ShownFirst(left, [right] + b, x);
    ShownConcat(a, [clip] + b, x);
    ShownConcat(a, [left] + ([right] + b), x);
  }

  /** Clip `k` of a layer is replaced by its halves. */
  ghost predicate SplitLayer(before: Layer, after: Layer, k: nat, left: LayerClip, right: LayerClip) {
    && k < |before.clips| && LayerHalves(before.clips[k], left, right)
    && after == before.(clips := before.clips[..k] + [left, right] + before.clips[k + 1..])
  }

  datatype LayerPlace = LayerPlace(layer: nat, clip: nat, left: LayerClip, right: LayerClip)

  /** The two plans have the same layers, except that at `at`, if anywhere, one clip became two halves. */
  ghost predicate SplitPlans(before: SequencePlan, after: SequencePlan, at: Option<LayerPlace>) {
    && before.media == after.media && |before.layers| == |after.layers|
    && (at.Some? ==> at.value.layer < |before.layers|)
    && forall i :: 0 <= i < |before.layers| ==>
         if at.Some? && i == at.value.layer
         then SplitLayer(before.layers[i], after.layers[i], at.value.clip, at.value.left, at.value.right)
         else after.layers[i] == before.layers[i]
  }

  lemma ClipsAfterSplit(before: Layer, after: Layer, k: nat, left: LayerClip, right: LayerClip)
    requires SplitLayer(before, after, k, left, right)
    ensures |after.clips| == |before.clips| + 1 && after.clips[k] == left && after.clips[k + 1] == right
    ensures forall j :: 0 <= j < k ==> after.clips[j] == before.clips[j]
    ensures forall j :: k < j < |before.clips| ==> after.clips[j + 1] == before.clips[j]
    ensures forall j :: k + 1 < j < |after.clips| ==> after.clips[j] == before.clips[j - 1]
  {
    hide RationalTime.Seconds, LayerHalves;
  }

  lemma ShownInSplitLayer(before: Layer, after: Layer, k: nat, left: LayerClip, right: LayerClip, x: real)
    requires SplitLayer(before, after, k, left, right)
    ensures Shown(after.clips, x) == IndexAfterSplit(Shown(before.clips, x), k, right.Covers(x))
  {
    hide RationalTime.Seconds, LayerHalves, Shown;
    assert before.clips == before.clips[..k] + [before.clips[k]] + before.clips[k + 1..];
    ShownAfterSplit(before.clips[..k], before.clips[k], before.clips[k + 1..], left, right, x);
  }

  /** The clips two layers show at an instant come from the same media, with the same routing and source instant. */
  ghost predicate ShowSame(a: seq<LayerClip>, b: seq<LayerClip>, x: real) {
    var i, j := Shown(a, x), Shown(b, x);
    && (i.None? <==> j.None?)
    && (i.Some? ==>
          && a[i.value].media == b[j.value].media && a[i.value].routing == b[j.value].routing
          && SourceInstant(a[i.value], x) == SourceInstant(b[j.value], x))
  }

  lemma SplitShowsSame(before: Layer, after: Layer, k: nat, left: LayerClip, right: LayerClip, x: real)
    requires SplitLayer(before, after, k, left, right)
    ensures ShowSame(before.clips, after.clips, x)
  {
    hide RationalTime.Seconds, Shown;
    ShownInSplitLayer(before, after, k, left, right, x);
    ClipsAfterSplit(before, after, k, left, right);
  }

  lemma LayerShowsSame(before: SequencePlan, after: SequencePlan, at: Option<LayerPlace>, i: nat, x: real)
    requires SplitPlans(before, after, at) && i < |before.layers|
    ensures SameOption(before, after, VideoCue(before, i, x), VideoCue(after, i, x))
    ensures SameOption(before, after, AudioCue(before, i, x), AudioCue(after, i, x))
  {
    hide RationalTime.Seconds, SelectStream, SourceInstant, Shown, LayerHalves;
    if at.Some? && i == at.value.layer {
      SplitShowsSame(before.layers[i], after.layers[i], at.value.clip, at.value.left, at.value.right, x);
    }
  }

  /** Picture and sound of a plan do not change when a clip is split. */
  lemma {:induction false} SplitPlaysSame(before: SequencePlan, after: SequencePlan, at: Option<LayerPlace>, x: real,
                                          n: nat)
    requires SplitPlans(before, after, at) && n <= |before.layers|
    ensures SameOption(before, after, PictureAt(before, x, n), PictureAt(after, x, n))
    ensures SameSounds(before, after, SoundsAt(before, x, n), SoundsAt(after, x, n))
  {
    hide RationalTime.Seconds, VideoCue, AudioCue, SplitPlans, SameCue;
    if n > 0 {
      SplitPlaysSame(before, after, at, x, n - 1);
      LayerShowsSame(before, after, at, n - 1, x);
    }
  }

  // ----- durations and boundaries

  lemma MeetInside(before: Layer, after: Layer, k: nat, left: LayerClip, right: LayerClip)
    requires SplitLayer(before, after, k, left, right)
    ensures k < |before.clips| && before.clips[k].Start() < right.Start() < before.clips[k].Finish()
    ensures left.Start() == before.clips[k].Start() && left.Finish() == right.Start()
    ensures right.Finish() == before.clips[k].Finish()
  {
    hide RationalTime.Seconds;
  }

  /** Every edge of a layer stays an edge; the only new one is where the halves meet. */
  lemma EdgesAfterSplit(before: Layer, after: Layer, k: nat, left: LayerClip, right: LayerClip)
    requires SplitLayer(before, after, k, left, right)
    ensures |after.clips| == |before.clips| + 1 && k < |before.clips| && after.clips[k + 1] == right
    ensures forall j :: 0 <= j < |before.clips| ==>
              && before.clips[j].Start() == after.clips[if j <= k then j else j + 1].Start()
              && before.clips[j].Finish() == after.clips[if j < k then j else j + 1].Finish()
    ensures forall j :: 0 <= j < |after.clips| ==>
              && (after.clips[j].Start() == right.Start()
                  || after.clips[j].Start() == before.clips[if j <= k then j else j - 1].Start())
              && (after.clips[j].Finish() == right.Start()
                  || after.clips[j].Finish() == before.clips[if j < k then j else j - 1].Finish())
  {
    hide RationalTime.Seconds, SplitLayer, LayerHalves, LayerClip.Start, LayerClip.Finish;
    ClipsAfterSplit(before, after, k, left, right);
    MeetInside(before, after, k, left, right);
  }

  lemma SameDuration(before: SequencePlan, after: SequencePlan, at: Option<LayerPlace>)
    requires SplitPlans(before, after, at)
    requires ValidPlan(before) && Tight(before) && ValidPlan(after) && Tight(after)
    ensures before.duration == after.duration
  {
    hide RationalTime.Seconds, LayerClip.Start, LayerClip.Finish, SplitLayer;
    NoLaterEnd(before, after, at);
    NoEarlierEnd(before, after, at);
    EqualIffSameInstant(before.duration, after.duration);
  }

  lemma NoLaterEnd(before: SequencePlan, after: SequencePlan, at: Option<LayerPlace>)
    requires SplitPlans(before, after, at) && ValidPlan(before) && Tight(after)
    ensures after.duration.Seconds() <= before.duration.Seconds()
  {
    hide RationalTime.Seconds, LayerClip.Start, LayerClip.Finish;
    if after.duration == Zero {
      ZeroSeconds();
      SecondsNonnegative(before.duration);
    } else {
      var i, j :| 0 <= i < |after.layers| && 0 <= j < |after.layers[i].clips|
                  && after.layers[i].clips[j].Finish() == after.duration.Seconds();
      assert ValidLayer(before.layers[i], before.media, before.duration);
      if at.Some? && i == at.value.layer {
        var k := at.value.clip;
        EdgesAfterSplit(before.layers[i], after.layers[i], k, at.value.left, at.value.right);
        MeetInside(before.layers[i], after.layers[i], k, at.value.left, at.value.right);
        var n := if j < k then j else if j == k then k else j - 1;
        assert before.layers[i].clips[n].Finish() <= before.duration.Seconds();
        assert before.layers[i].clips[k].Finish() <= before.duration.Seconds();
      } else {
        assert before.layers[i].clips[j].Finish() <= before.duration.Seconds();
      }
    }
  }

  lemma NoEarlierEnd(before: SequencePlan, after: SequencePlan, at: Option<LayerPlace>)
    requires SplitPlans(before, after, at) && ValidPlan(after) && Tight(before)
    ensures before.duration.Seconds() <= after.duration.Seconds()
  {
    hide RationalTime.Seconds, LayerClip.Start, LayerClip.Finish;
    if before.duration == Zero {
      ZeroSeconds();
      SecondsNonnegative(after.duration);
    } else {
      var i, j :| 0 <= i < |before.layers| && 0 <= j < |before.layers[i].clips|
                  && before.layers[i].clips[j].Finish() == before.duration.Seconds();
      assert ValidLayer(after.layers[i], after.media, after.duration);
      if at.Some? && i == at.value.layer {
        var k := at.value.clip;
        EdgesAfterSplit(before.layers[i], after.layers[i], k, at.value.left, at.value.right);
        var n := if j < k then j else j + 1;
        assert after.layers[i].clips[n].Finish() <= after.duration.Seconds();
      } else {
        assert after.layers[i].clips[j].Finish() <= after.duration.Seconds();
      }
    }
  }

  /** The next boundary after a split: where the halves meet, if that comes first, or the old one. */
  function BoundaryAfterSplit(before: SequencePlan, at: Option<LayerPlace>, x: real, b: real): real
    requires at.Some? ==> at.value.layer < |before.layers|
  {
    if at.Some? && before.layers[at.value.layer].playback.enabled && x < at.value.right.Start() < b
    then at.value.right.Start() else b
  }

  lemma SplitBoundary(before: SequencePlan, after: SequencePlan, at: Option<LayerPlace>, x: real, b: real, c: real)
    requires SplitPlans(before, after, at) && before.duration == after.duration
    requires IsNextBoundary(before, |before.layers|, x, b) && IsNextBoundary(after, |after.layers|, x, c)
    ensures c == BoundaryAfterSplit(before, at, x, b)
  {
    hide RationalTime.Seconds, NoEdgeBetween, IsEdge, SplitLayer, LayerClip.Start;
    var n, e := |after.layers|, BoundaryAfterSplit(before, at, x, b);
    NoEdgeAfterSplit(before, after, at, x, b);
    if e != after.duration.Seconds() { EdgeAfterSplit(before, after, at, x, b); }
    BoundaryUnique(after, n, x, c, e);
    BoundaryUnique(after, n, x, e, c);
  }

  lemma BoundaryUnique(plan: SequencePlan, n: nat, x: real, b: real, c: real)
    requires n <= |plan.layers| && IsNextBoundary(plan, n, x, b) && IsNextBoundary(plan, n, x, c)
    ensures b >= c
  {
    hide RationalTime.Seconds, LayerClip.Start, LayerClip.Finish;
  }

  /** No clip of a layer starts or ends strictly between `x` and `b`. */
  ghost predicate NoEdgeOf(layer: Layer, x: real, b: real) {
    forall j :: 0 <= j < |layer.clips| ==>
      && (layer.clips[j].Start() <= x || b <= layer.clips[j].Start())
      && (layer.clips[j].Finish() <= x || b <= layer.clips[j].Finish())
  }

  lemma NoEdgeOfSplit(before: Layer, after: Layer, k: nat, left: LayerClip, right: LayerClip, x: real, b: real, e: real)
    requires SplitLayer(before, after, k, left, right) && NoEdgeOf(before, x, b)
    requires e <= b && (right.Start() <= x || e <= right.Start())
    ensures NoEdgeOf(after, x, e)
  {
    hide RationalTime.Seconds, LayerClip.Start, LayerClip.Finish, SplitLayer;
    ClipsAfterSplit(before, after, k, left, right);
    MeetInside(before, after, k, left, right);
    forall j | 0 <= j < |after.clips|
      ensures after.clips[j].Start() <= x || e <= after.clips[j].Start()
      ensures after.clips[j].Finish() <= x || e <= after.clips[j].Finish()
    {
      var m := if j <= k then j else j - 1;
      assert before.clips[m].Start() <= x || b <= before.clips[m].Start();
    }
  }

  lemma NoEdgeAfterSplit(before: SequencePlan, after: SequencePlan, at: Option<LayerPlace>, x: real, b: real)
    requires SplitPlans(before, after, at) && NoEdgeBetween(before, |before.layers|, x, b)
    ensures NoEdgeBetween(after, |after.layers|, x, BoundaryAfterSplit(before, at, x, b))
  {
    hide RationalTime.Seconds, LayerClip.Start, LayerClip.Finish, SplitLayer;
    var e := BoundaryAfterSplit(before, at, x, b);
    forall i | 0 <= i < |after.layers| && after.layers[i].playback.enabled
      ensures NoEdgeOf(after.layers[i], x, e)
    {
      if at.Some? && i == at.value.layer {
        SplitKeepsPlayback(before.layers[i], after.layers[i], at.value.clip, at.value.left, at.value.right);
        assert NoEdgeOf(before.layers[i], x, b);
        NoEdgeOfSplit(before.layers[i], after.layers[i], at.value.clip, at.value.left, at.value.right, x, b, e);
      } else {
        assert NoEdgeOf(before.layers[i], x, b);
      }
    }
  }

  lemma SplitKeepsPlayback(before: Layer, after: Layer, k: nat, left: LayerClip, right: LayerClip)
    requires SplitLayer(before, after, k, left, right)
    ensures before.playback == after.playback
  {
  }

  lemma EdgeAfterSplit(before: SequencePlan, after: SequencePlan, at: Option<LayerPlace>, x: real, b: real)
    requires SplitPlans(before, after, at)
    requires IsEdge(before, |before.layers|, b) || BoundaryAfterSplit(before, at, x, b) != b
    ensures IsEdge(after, |after.layers|, BoundaryAfterSplit(before, at, x, b))
  {
    hide RationalTime.Seconds, LayerClip.Start, LayerClip.Finish;
    if BoundaryAfterSplit(before, at, x, b) != b {
      var i, k := at.value.layer, at.value.clip;
      EdgesAfterSplit(before.layers[i], after.layers[i], k, at.value.left, at.value.right);
      assert after.layers[i].clips[k + 1].Start() == at.value.right.Start();
    } else {
      var i, j :| 0 <= i < |before.layers| && 0 <= j < |before.layers[i].clips| && before.layers[i].playback.enabled
                  && (b == before.layers[i].clips[j].Start() || b == before.layers[i].clips[j].Finish());
      if at.Some? && i == at.value.layer {
        var k := at.value.clip;
        EdgesAfterSplit(before.layers[i], after.layers[i], k, at.value.left, at.value.right);
        var m, n := if j <= k then j else j + 1, if j < k then j else j + 1;
        assert b == after.layers[i].clips[m].Start() || b == after.layers[i].clips[n].Finish();
      } else {
        assert b == after.layers[i].clips[j].Start() || b == after.layers[i].clips[j].Finish();
      }
    }
  }

  // ----- what evaluation makes of it

  /** Two evaluations show and sound the same; only the boundary where the halves meet is new. */
  ghost predicate SameEvaluation(before: SequencePlan, after: SequencePlan, at: Option<LayerPlace>, t: Time,
                                 a: Evaluation, b: Evaluation)
    requires at.Some? ==> at.value.layer < |before.layers|
  {
    && SameOption(before, after, ExactOption(a.video), ExactOption(b.video))
    && SameSounds(before, after, ExactAll(a.audio), ExactAll(b.audio))
    && b.nextBoundary.Seconds() == BoundaryAfterSplit(before, at, t.Seconds(), a.nextBoundary.Seconds())
  }

  lemma EvaluationsAgree(before: SequencePlan, after: SequencePlan, at: Option<LayerPlace>, t: Time, a: Evaluation,
                         b: Evaluation)
    requires SplitPlans(before, after, at) && before.duration == after.duration
    requires at.Some? ==> at.value.right.Start() < before.duration.Seconds()
    requires Evaluated(before, t, a) && Evaluated(after, t, b)
    ensures SameEvaluation(before, after, at, t, a, b)
  {
    hide RationalTime.Seconds, PictureAt, SoundsAt, SplitPlans, SameOption, SameSounds, IsNextBoundary, LayerClip.Start;
    assert |before.layers| == |after.layers| by { assert SplitPlans(before, after, at); PlansAlike(before, after, at); }
    PlansAlike(before, after, at);
    SplitPlaysSame(before, after, at, t.Seconds(), |before.layers|);
    if t != before.duration {
      SplitBoundary(before, after, at, t.Seconds(), a.nextBoundary.Seconds(), b.nextBoundary.Seconds());
    }
  }

  lemma PlansAlike(before: SequencePlan, after: SequencePlan, at: Option<LayerPlace>)
    requires SplitPlans(before, after, at)
    ensures |before.layers| == |after.layers| && (at.Some? ==> at.value.layer < |before.layers|)
  {
  }

  /** Only the right half computes its source instants anew. */
  lemma OverflowAfterSplit(before: Layer, after: Layer, k: nat, left: LayerClip, right: LayerClip, t: Time)
    requires SplitLayer(before, after, k, left, right)
    ensures var inRight := Shown(before.clips, t.Seconds()) == Some(k) && right.Covers(t.Seconds());
            Overflows(after, t) <==>
              if inRight then before.playback.enabled && SourceTimeAt(right, t).None? else Overflows(before, t)
  {
    hide RationalTime.Seconds, Minus, Plus;
    ShownInSplitLayer(before, after, k, left, right, t.Seconds());
  }

  /**
   The bounds under which the right half of a split at `position` can be evaluated at `t`: both its offset
   into the half and the source instant there fit 64 bits over their common rates.
   */
  predicate InstantFits(clip: Clip, position: Time, t: Time) {
    var inset := Minus(position, clip.position);
    && inset.Some?
    && var start := Plus(clip.source.start, inset.value);
       && start.Some?
       && RationalTimes.Scaled(t, position) <= MAX && CommonRate(t, position) <= MAX
       && var offset := Minus(t, position);
          && offset.Some?
          && RationalTimes.Scaled(start.value, offset.value) + RationalTimes.Scaled(offset.value, start.value) <= MAX
          && CommonRate(start.value, offset.value) <= MAX
  }

  lemma RightHalfEvaluates(clip: Clip, position: Time, id: uint64, media: seq<MediaAsset>, t: Time)
    requires SplitHalves(clip, position, id).Some? && FindAsset(media, clip.media).Some?
    ensures position.Seconds() <= t.Seconds() ==>
              var right := LayerClipOf(SplitHalves(clip, position, id).value.1, media);
              right.position == position && (SourceTimeAt(right, t).Some? <==> InstantFits(clip, position, t))
  {
    hide RationalTime.Seconds, FindAsset;
  }

  // ----- from projects to plans

  /** A plan of sequence `s` as `make_sequence_plan` builds it. */
  ghost predicate PlanOf(plan: SequencePlan, project: ProjectSnapshot, s: nat) {
    && s < |project.sequences| && plan.media == project.media
    && (forall t :: 0 <= t < |project.sequences[s].tracks| ==>
          Resolved(project.sequences[s].tracks[t].clips, project.media))
    && plan.layers == LayersOf(project.sequences[s].tracks, project.media)
    && ValidPlan(plan) && Tight(plan)
  }

  /** Where the plan of sequence `s` differs once the clip at `place` has been split. */
  ghost function LayerPlaceOf(s: nat, place: ClipPlace, left: Clip, right: Clip, media: seq<MediaAsset>)
    : Option<LayerPlace>
    requires FindAsset(media, left.media).Some? && FindAsset(media, right.media).Some?
  {
    if s != place.s then None
    else Some(LayerPlace(place.t, place.k, LayerClipOf(left, media), LayerClipOf(right, media)))
  }

  lemma SplitGivesSplitPlans(project: ProjectSnapshot, after: ProjectSnapshot, place: ClipPlace, left: Clip,
                             right: Clip, s: nat, before: SequencePlan, plan: SequencePlan)
    requires ValidContent(project) && SplitAt(project, after, place, left, right)
    requires Halves(ClipAt(project.sequences, place), left, right)
    requires PlanOf(before, project, s) && PlanOf(plan, after, s)
    ensures FindAsset(project.media, ClipAt(project.sequences, place).media).Some?
    ensures SplitPlans(before, plan, LayerPlaceOf(s, place, left, right, project.media))
  {
    hide RationalTime.Seconds, Plus, ValidContent, FindAsset, LayerHalves, Halves, SplitLayer, ValidPlan, Tight;
    SameMedia(ClipAt(project.sequences, place), left, right);
    ValidTrackAscending(project, place.s, place.t);
    var at := LayerPlaceOf(s, place, left, right, project.media);
    forall t | 0 <= t < |before.layers|
      ensures if at.Some? && t == at.value.layer
              then SplitLayer(before.layers[t], plan.layers[t], at.value.clip, at.value.left, at.value.right)
              else plan.layers[t] == before.layers[t]
    {
      var old_, new_ := project.sequences[s].tracks[t], after.sequences[s].tracks[t];
      assert before.layers[t] == LayerOf(old_, project.media) && plan.layers[t] == LayerOf(new_, project.media);
      if s == place.s && t == place.t { SplitLayerOf(old_, new_, project.media, place.k, left, right); }
    }
  }

  lemma SameMedia(clip: Clip, left: Clip, right: Clip)
    requires Halves(clip, left, right)
    ensures left.media == clip.media == right.media
  {
  }

  lemma SplitLayerOf(old_: Track, new_: Track, media: seq<MediaAsset>, k: nat, left: Clip, right: Clip)
    requires Resolved(old_.clips, media) && Resolved(new_.clips, media) && k < |old_.clips|
    requires Halves(old_.clips[k], left, right)
    requires new_ == old_.(clips := old_.clips[..k] + [left, right] + old_.clips[k + 1..])
    ensures FindAsset(media, left.media).Some? && FindAsset(media, right.media).Some?
    ensures SplitLayer(LayerOf(old_, media), LayerOf(new_, media), k, LayerClipOf(left, media),
                       LayerClipOf(right, media))
  {
    hide RationalTime.Seconds, FindAsset, LayerHalves;
    var a, b := LayerOf(old_, media), LayerOf(new_, media);
    assert left == new_.clips[k] && right == new_.clips[k + 1];
    HalvesOfLayer(old_.clips[k], left, right, media);
    assert b.clips == a.clips[..k] + [LayerClipOf(left, media), LayerClipOf(right, media)] + a.clips[k + 1..];
  }

  /** The instants of a sequence that the right half of a split shows. */
  ghost predicate InRightHalf(project: ProjectSnapshot, clip: uint64, position: Time, s: nat, t: Time) {
    var place := FindClip(project.sequences, clip);
    && place.Some? && s == place.value.s
    && var original := ClipAt(project.sequences, place.value);
       && position.Seconds() <= t.Seconds()
       && t.Seconds() < original.position.Seconds() + original.source.duration.Seconds()
  }

  /** Which layers overflow once a clip has been split. */
  lemma LayerOverflows(before: SequencePlan, after: SequencePlan, at: Option<LayerPlace>, i: nat, t: Time)
    requires SplitPlans(before, after, at) && ValidPlan(before) && i < |before.layers|
    ensures Overflows(after.layers[i], t) <==>
            if at.Some? && i == at.value.layer && at.value.right.Covers(t.Seconds())
            then before.layers[i].playback.enabled && SourceTimeAt(at.value.right, t).None?
            else Overflows(before.layers[i], t)
  {
    hide RationalTime.Seconds, Minus, Plus, Shown, ValidLayer, SourceTimeAt;
    if at.Some? && i == at.value.layer {
      var k := at.value.clip;
      MeetInside(before.layers[i], after.layers[i], k, at.value.left, at.value.right);
      OverflowAfterSplit(before.layers[i], after.layers[i], k, at.value.left, at.value.right, t);
      if at.value.right.Covers(t.Seconds()) {
        CoveringIsShown(before.layers[i], before.media, before.duration, k, t.Seconds());
      }
    }
  }

  /** Outside the right half, evaluation fails after a split exactly as it did before. */
  lemma SameFailures(before: SequencePlan, after: SequencePlan, at: Option<LayerPlace>, t: Time,
                     r0: Result<Evaluation, PlanError>, r1: Result<Evaluation, PlanError>)
    requires SplitPlans(before, after, at) && ValidPlan(before) && before.duration == after.duration
    requires Answers(before, t, r0) && Answers(after, t, r1)
    requires at.None? || !at.value.right.Covers(t.Seconds())
    ensures r0.Failure? <==> r1.Failure?
    ensures r0.Failure? ==> r0.error == r1.error
  {
    hide RationalTime.Seconds, Overflows, Evaluated, LayerClip.Covers, ValidPlan, SplitLayer;
    forall i | 0 <= i < |before.layers|
      ensures Overflows(after.layers[i], t) <==> Overflows(before.layers[i], t)
    {
      LayerOverflows(before, after, at, i, t);
    }
    assert r0.Failure? ==> r0.error == OutsideSequence || r0.error == TimeOverflow;
    assert r1.Failure? ==> r1.error == OutsideSequence || r1.error == TimeOverflow;
  }

  /** Inside the right half it fails when another layer overflows, or the half itself on a playing track. */
  lemma RightHalfFailures(before: SequencePlan, after: SequencePlan, at: LayerPlace, t: Time,
                          r1: Result<Evaluation, PlanError>)
    requires SplitPlans(before, after, Some(at)) && ValidPlan(before) && before.duration == after.duration
    requires Answers(after, t, r1) && at.right.Covers(t.Seconds())
    ensures r1 == Failure(TimeOverflow) <==>
            || (before.layers[at.layer].playback.enabled && SourceTimeAt(at.right, t).None?)
            || (exists i :: 0 <= i < |before.layers| && i != at.layer && Overflows(before.layers[i], t))
  {
    hide RationalTime.Seconds, Overflows, Evaluated, SplitLayer, SourceTimeAt;
    EndsWithin(before, after, at);
    forall i | 0 <= i < |before.layers|
      ensures Overflows(after.layers[i], t) <==>
              if i == at.layer then before.layers[i].playback.enabled && SourceTimeAt(at.right, t).None?
              else Overflows(before.layers[i], t)
    {
      LayerOverflows(before, after, Some(at), i, t);
    }
    assert Overflows(after.layers[at.layer], t)
      <==> before.layers[at.layer].playback.enabled && SourceTimeAt(at.right, t).None?;
  }

  lemma EndsWithin(before: SequencePlan, after: SequencePlan, at: LayerPlace)
    requires SplitPlans(before, after, Some(at)) && ValidPlan(before)
    ensures at.right.Start() < at.right.Finish() <= before.duration.Seconds()
  {
    hide RationalTime.Seconds;
    assert ValidLayer(before.layers[at.layer], before.media, before.duration);
    MeetInside(before.layers[at.layer], after.layers[at.layer], at.clip, at.left, at.right);
  }

  /** What evaluation makes of two plans that differ by a split. */
  lemma SplitPlansAgree(before: SequencePlan, after: SequencePlan, at: Option<LayerPlace>, t: Time,
                        r0: Result<Evaluation, PlanError>, r1: Result<Evaluation, PlanError>)
    requires SplitPlans(before, after, at) && Answers(before, t, r0) && Answers(after, t, r1)
    requires ValidPlan(before) && Tight(before) && ValidPlan(after) && Tight(after)
    ensures before.duration == after.duration && (at.Some? ==> at.value.layer < |before.layers|)
    ensures r0.Success? && r1.Success? ==> SameEvaluation(before, after, at, t, r0.value, r1.value)
    ensures at.None? || !at.value.right.Covers(t.Seconds()) ==>
              (r0.Failure? <==> r1.Failure?) && (r0.Failure? ==> r0.error == r1.error)
    ensures at.Some? && at.value.right.Covers(t.Seconds()) ==>
              (r1 == Failure(TimeOverflow) <==>
                 || (before.layers[at.value.layer].playback.enabled && SourceTimeAt(at.value.right, t).None?)
                 || (exists i :: 0 <= i < |before.layers| && i != at.value.layer && Overflows(before.layers[i], t)))
  {
    hide RationalTime.Seconds, SplitPlans, Answers, ValidPlan, SameEvaluation, Overflows, Tight, SourceTimeAt;
    hide LayerClip.Start, LayerClip.Finish;
    PlansAlike(before, after, at);
    SameDuration(before, after, at);
    if at.Some? { EndsWithin(before, after, at.value); }
    if r0.Success? && r1.Success? {
      AnswersAreEvaluated(before, t, r0);
      AnswersAreEvaluated(after, t, r1);
      EvaluationsAgree(before, after, at, t, r0.value, r1.value);
    }
    if at.Some? && at.value.right.Covers(t.Seconds()) {
      RightHalfFailures(before, after, at.value, t, r1);
    } else {
      SameFailures(before, after, at, t, r0, r1);
    }
  }

  /**
   An accepted split is invisible to playback: where the plans before and after can both be evaluated they
   show the same picture and the same sounds, from the same media, source instant, stream and gain, and the
   only new boundary is the split. Outside the right half evaluation fails exactly as it did before. Inside
   it, evaluation fails exactly when another layer overflows or, on a playing track, the bounds of
   `InstantFits` are exceeded, whether or not it failed before.
   */
  lemma SplitIsInvisible(project: ProjectSnapshot, clip: uint64, position: Time, s: nat, before: SequencePlan,
                         after: SequencePlan, t: Time, r0: Result<Evaluation, PlanError>,
                         r1: Result<Evaluation, PlanError>)
      returns (at: Option<LayerPlace>)
    requires Valid(project) && Apply(project, SplitClip(clip, position)).Some?
    requires PlanOf(before, project, s) && PlanOf(after, Apply(project, SplitClip(clip, position)).value.0, s)
    requires Answers(before, t, r0) && Answers(after, t, r1)
    ensures FindClip(project.sequences, clip).Some? && before.duration == after.duration
    ensures var place := FindClip(project.sequences, clip).value;
            && (at.Some? <==> s == place.s)
            && (at.Some? ==>
                  && at.value.layer == place.t < |before.layers| && at.value.clip == place.k
                  && at.value.right.position == position)
    ensures r0.Success? && r1.Success? ==> SameEvaluation(before, after, at, t, r0.value, r1.value)
    ensures !InRightHalf(project, clip, position, s, t) ==>
              (r0.Failure? <==> r1.Failure?) && (r0.Failure? ==> r0.error == r1.error)
    ensures InRightHalf(project, clip, position, s, t) ==>
              var place := FindClip(project.sequences, clip).value;
              var playing := before.layers[place.t].playback.enabled;
              r1 == Failure(TimeOverflow) <==>
                || (playing && !InstantFits(ClipAt(project.sequences, place), position, t))
                || (exists i :: 0 <= i < |before.layers| && i != place.t && Overflows(before.layers[i], t))
  {
    hide RationalTime.Seconds, Valid, ValidContent, Apply, Halves, SplitAt, SplitPlans, SplitHalves, Answers, ValidPlan;
    hide SameEvaluation, Overflows, InstantFits, FindAsset, FindClip, Tight, SourceTimeAt, LayerClipOf;
    hide LayerClip.Covers;
    var place, left, right := SplitResult(project, clip, position);
    ValidImpliesContent(project);
    var next := Apply(project, SplitClip(clip, position)).value.0;
    SplitGivesSplitPlans(project, next, place, left, right, s, before, after);
    SameMedia(ClipAt(project.sequences, place), left, right);
    at := LayerPlaceOf(s, place, left, right, project.media);
    SplitPlansAgree(before, after, at, t, r0, r1);
    if s == place.s {
      RightCovers(project, clip, position, place, t);
      RightHalfEvaluates(ClipAt(project.sequences, place), position, project.nextId, project.media, t);
    }
  }

  lemma AnswersAreEvaluated(plan: SequencePlan, t: Time, r: Result<Evaluation, PlanError>)
    requires Answers(plan, t, r) && r.Success?
    ensures Evaluated(plan, t, r.value)
  {
  }

  lemma RightCovers(project: ProjectSnapshot, clip: uint64, position: Time, place: ClipPlace, t: Time)
    requires FindClip(project.sequences, clip) == Some(place)
    requires SplitHalves(ClipAt(project.sequences, place), position, project.nextId).Some?
    requires FindAsset(project.media, ClipAt(project.sequences, place).media).Some?
    ensures var right := SplitHalves(ClipAt(project.sequences, place), position, project.nextId).value.1;
            && LayerClipOf(right, project.media).position == position
            && (LayerClipOf(right, project.media).Covers(t.Seconds())
                <==> InRightHalf(project, clip, position, place.s, t))
  {
    hide RationalTime.Seconds, FindClip, FindAsset;
  }

  // ----- an instant lost by a split

  const HALF: Time := RationalTime(1, 2)

  const ONE: Time := RationalTime(1, 1)

  /** The largest multiple of 1/(2^63 - 1) below one half. */
  const BELOW_HALF: Time := RationalTime(0x3FFF_FFFF_FFFF_FFFF, 0x7FFF_FFFF_FFFF_FFFF)

  lemma WholeRate(x: Time, y: Time)
    requires y.rate == 1
    ensures RationalTimes.Scaled(x, y) == x.value && CommonRate(x, y) == x.rate
    ensures RationalTimes.Scaled(y, x) == y.value * x.rate && CommonRate(y, x) == x.rate
  {
    assert Gcd(x.rate, 1) == 1;
    GcdSymmetric(x.rate, 1);
    assert Scale(x, y) == 1 && Scale(y, x) == x.rate;
  }

  lemma SecondsOfConstants()
    ensures HALF.Seconds() == 0.5 && ONE.Seconds() == 1.0 && Zero.Seconds() == 0.0
    ensures 0.0 < BELOW_HALF.Seconds() < 0.5
  {
    QuotientLess(0x3FFF_FFFF_FFFF_FFFF, 0x7FFF_FFFF_FFFF_FFFF, 1, 2);
    QuotientLess(0, 1, 0x3FFF_FFFF_FFFF_FFFF, 0x7FFF_FFFF_FFFF_FFFF);
  }

  /** The offset behind the split has no common rate of 64 bits with it. */
  lemma OffsetOverflows()
    ensures Minus(HALF, BELOW_HALF).None?
  {
    hide RationalTime.Seconds;
    assert Gcd(2, 0x7FFF_FFFF_FFFF_FFFF) == 1;
    assert Scale(HALF, BELOW_HALF) == 0x7FFF_FFFF_FFFF_FFFF;
    assert CommonRate(HALF, BELOW_HALF) == 2 * 0x7FFF_FFFF_FFFF_FFFF;
  }

  lemma FromZero(t: Time)
    ensures Minus(t, Zero) == Some(t) && Plus(Zero, t) == Some(t)
  {
    SecondsNonnegative(t);
    ZeroSeconds();
    WholeRate(t, Zero);
    hide RationalTime.Seconds;
    EqualIffSameInstant(Minus(t, Zero).value, t);
    EqualIffSameInstant(Plus(Zero, t).value, t);
  }

  /**
   A split can make an instant impossible to evaluate: a clip of one second, split at BELOW_HALF, showed
   one half before; afterwards its right half covers one half but cannot compute the source instant.
   */
  lemma SplitCanOverflow(clip: Clip, id: uint64, media: seq<MediaAsset>)
    requires clip.position == Zero && clip.source == TimeRange(Zero, ONE)
    requires FindAsset(media, clip.media).Some?
    ensures SourceTimeAt(LayerClipOf(clip, media), HALF).Some?
    ensures SplitHalves(clip, BELOW_HALF, id).Some?
    ensures var right := LayerClipOf(SplitHalves(clip, BELOW_HALF, id).value.1, media);
            right.Covers(HALF.Seconds()) && SourceTimeAt(right, HALF).None?
  {
    SecondsOfConstants();
    hide RationalTime.Seconds, FindAsset, Plus, Minus;
    FromZero(HALF);
    FromZero(ONE);
    FromZero(BELOW_HALF);
    WholeRate(BELOW_HALF, ONE);
    assert Minus(ONE, BELOW_HALF).Some?;
    OffsetOverflows();
  }
}
