/** Which commands on clips are accepted: `apply` (`src/commands/editor.cpp`), `validate` (`src/project/model.cpp`). */
module Acceptances {
  import opened Wrappers
  import opened RationalTimes
  import opened Model
  import opened SequencePlans
  import opened PlanBuilder
  import opened Commands
  import opened SplitPlayback
  import opened Orderings
  import opened Validation

  // ----- a track in any order

  /** Two clips do not overlap on the timeline. */
  predicate Apart(a: Clip, b: Clip) {
    && a.End().Some? && b.End().Some?
    && (a.End().value.Seconds() <= b.position.Seconds() || b.End().value.Seconds() <= a.position.Seconds())
  }

  ghost predicate AllApart(clips: seq<Clip>) {
    forall a, b :: a in clips && b in clips && a.id != b.id ==> Apart(a, b)
  }

  ghost predicate AllValid(clips: seq<Clip>, media: seq<MediaAsset>, kind: TrackKind) {
    forall c :: c in clips ==> ValidClip(c, media, kind)
  }

  predicate Long(clip: Clip) {
    clip.End().Some? && clip.source.duration != Zero
  }

  lemma ValidIsLong(clip: Clip, media: seq<MediaAsset>, kind: TrackKind)
    requires ValidClip(clip, media, kind)
    ensures Long(clip)
  {
    hide RationalTime.Seconds, Plus, ValidRouting, FindAsset, Supports;
  }

  /** Of clips in order, neighbours that do not overlap follow each other. */
  lemma ApartFollow(a: Clip, b: Clip)
    requires Long(a) && Long(b) && Apart(a, b) && !ClipLess(b, a)
    ensures a.End().value.Seconds() <= b.position.Seconds()
  {
    hide RationalTime.Seconds, Plus;
    ClipLonger(a);
    ClipLonger(b);
  }

  /** A list in order is free of overlaps exactly when each clip starts no earlier than its predecessor ends. */
  lemma OrderedIsApart(clips: seq<Clip>)
    requires InOrder(clips) && DistinctClips(clips) && forall c :: c in clips ==> Long(c)
    ensures (forall i :: 0 <= i < |clips| ==> clips[i].End().Some?) && (Ordered(clips) <==> AllApart(clips))
  {
    hide RationalTime.Seconds, Plus, ClipLess, Clip.End;
    forall i | 0 <= i < |clips|
      ensures Long(clips[i])
    {
      assert clips[i] in clips;
    }
    if AllApart(clips) {
      forall i | 0 < i < |clips|
        ensures clips[i - 1].End().value.Seconds() <= clips[i].position.Seconds()
      {
        assert clips[i - 1] in clips && clips[i] in clips;
        ApartFollow(clips[i - 1], clips[i]);
      }
    }
    if Ordered(clips) {
      forall a, b | a in clips && b in clips && a.id != b.id
        ensures Apart(a, b)
      {
        var i :| 0 <= i < |clips| && clips[i] == a;
        var j :| 0 <= j < |clips| && clips[j] == b;
        if i < j { TrackAscending(clips, i, j); } else { TrackAscending(clips, j, i); }
      }
    }
  }

  /** A sorted track is valid exactly when its clips are valid and do not overlap, in whatever order they were. */
  lemma SortedTrackIsValid(track: Track, media: seq<MediaAsset>)
    requires DistinctClips(track.clips)
    ensures ValidTrack(track.(clips := SortClips(track.clips)), media) <==>
            && ValidText(track.name) && track.playback.gainMilli <= 4000
            && AllValid(track.clips, media, track.kind) && AllApart(track.clips)
  {
    hide RationalTime.Seconds, ValidClip, SortClips, InOrder, ClipLess, ValidText, Apart, Ordered;
    var sorted := SortClips(track.clips);
    SortOrders(track.clips);
    AgainDistinct(track.clips, sorted);
    SameMembers(track.clips, sorted);
    if AllValid(sorted, media, track.kind) {
      forall c | c in sorted
        ensures Long(c)
      {
        ValidIsLong(c, media, track.kind);
      }
      OrderedIsApart(sorted);
    }
    assert (forall i :: 0 <= i < |sorted| ==> ValidClip(sorted[i], media, track.kind))
      <==> AllValid(sorted, media, track.kind);
  }

  lemma SameMembers(a: seq<Clip>, b: seq<Clip>)
    requires multiset(a) == multiset(b)
    ensures forall c :: c in a <==> c in b
  {
    forall c
      ensures c in a <==> c in b
    {
      assert c in a <==> c in multiset(a);
      assert c in b <==> c in multiset(b);
    }
  }

  // ----- IDs

  lemma {:induction false} CountedOnce(ids: seq<uint64>)
    requires NoDuplicates(ids)
    ensures forall x :: multiset(ids)[x] <= 1
  {
    if ids != [] {
      var n := |ids| - 1;
      CountedOnce(ids[..n]);
      assert ids == ids[..n] + [ids[n]];
      assert ids[n] !in ids[..n];
      assert ids[n] !in multiset(ids[..n]);
    }
  }

  lemma OnceIsDistinct(ids: seq<uint64>)
    requires forall x :: multiset(ids)[x] <= 1
    ensures NoDuplicates(ids)
  {
    forall i, j | 0 <= i < j < |ids|
      ensures ids[i] != ids[j]
    {
      assert ids == ids[..j] + [ids[j]] + ids[j + 1..];
      assert ids[..j][i] == ids[i];
      assert ids[i] in multiset(ids[..j]);
      assert multiset(ids)[ids[j]] >= multiset(ids[..j])[ids[j]] + 1;
    }
  }

  /** Fewer IDs than good ones are good, and so is one more that had not been issued. */
  lemma IdsStayGood(before: seq<uint64>, nextId: uint64, after: seq<uint64>, added: seq<uint64>, later: uint64)
    requires GoodIds(before, nextId) && nextId <= later && |added| <= 1
    requires multiset(after) <= multiset(before) + multiset(added)
    requires added != [] ==> nextId <= added[0] < later && 0 < added[0]
    ensures GoodIds(after, later)
  {
    CountedOnce(before);
    assert added != [] ==> added[0] !in before;
    forall x
      ensures multiset(after)[x] <= 1
    {
      assert x in before <==> x in multiset(before);
      assert multiset(after)[x] <= multiset(before)[x] + multiset(added)[x];
    }
    OnceIsDistinct(after);
    forall i | 0 <= i < |after|
      ensures 0 < after[i] < later
    {
      assert after[i] in multiset(after);
      if after[i] in multiset(before) {
        var j :| 0 <= j < |before| && before[j] == after[i];
      } else {
        assert after[i] in multiset(added);
      }
    }
  }

  lemma {:induction false} ClipIdsOf(clips: seq<Clip>, clip: Clip)
    ensures multiset(ClipIds(clips + [clip])) == multiset(ClipIds(clips)) + multiset{clip.id}
  {
    assert ClipIds(clips + [clip]) == ClipIds(clips) + [clip.id];
  }

  lemma {:induction false} InsertedIds(clips: seq<Clip>, clip: Clip)
    ensures multiset(ClipIds(InsertSorted(clips, clip))) == multiset(ClipIds(clips)) + multiset{clip.id}
  {
    hide ClipLess;
    if clips == [] || ClipLess(clip, clips[0]) {
      assert ClipIds([clip] + clips) == [clip.id] + ClipIds(clips);
    } else {
      InsertedIds(clips[1..], clip);
      var rest := InsertSorted(clips[1..], clip);
      assert ClipIds([clips[0]] + rest) == [clips[0].id] + ClipIds(rest);
      assert ClipIds(clips) == [clips[0].id] + ClipIds(clips[1..]);
    }
  }

  lemma {:induction false} SortedIds(clips: seq<Clip>)
    ensures multiset(ClipIds(SortClips(clips))) == multiset(ClipIds(clips))
  {
    hide InsertSorted;
    if clips != [] {
      var n := |clips| - 1;
      SortedIds(clips[..n]);
      InsertedIds(SortClips(clips[..n]), clips[n]);
      ClipIdsOf(clips[..n], clips[n]);
      assert clips == clips[..n] + [clips[n]];
    }
  }

  lemma TracksHead(tracks: seq<Track>)
    requires tracks != []
    ensures multiset(TrackIds(tracks))
            == multiset{tracks[0].id} + multiset(ClipIds(tracks[0].clips)) + multiset(TrackIds(tracks[1..]))
  {
  }

  lemma SequencesHead(sequences: seq<Sequence>)
    requires sequences != []
    ensures multiset(SequenceIds(sequences))
            == multiset{sequences[0].id} + multiset(TrackIds(sequences[0].tracks))
               + multiset(SequenceIds(sequences[1..]))
  {
    hide TrackIds;
  }

  lemma SameHead<T>(head: multiset<T>, a: multiset<T>, b: multiset<T>, c: multiset<T>, d: multiset<T>)
    requires a + b == c + d
    ensures (head + a) + b == (head + c) + d
  {
    assert (head + a) + b == head + (a + b);
    assert (head + c) + d == head + (c + d);
  }

  lemma {:induction false} TrackIdsReplaced(tracks: seq<Track>, t: nat, clips: seq<Clip>)
    requires t < |tracks|
    ensures multiset(TrackIds(tracks[t := tracks[t].(clips := clips)])) + multiset(ClipIds(tracks[t].clips))
            == multiset(TrackIds(tracks)) + multiset(ClipIds(clips))
    decreases t
  {
    hide ClipIds, TrackIds;
    var changed := tracks[t := tracks[t].(clips := clips)];
    TracksHead(tracks);
    TracksHead(changed);
    if t == 0 {
      assert changed[1..] == tracks[1..];
    } else {
      TrackIdsReplaced(tracks[1..], t - 1, clips);
      assert tracks[1..][t - 1] == tracks[t];
      assert changed[1..] == tracks[1..][t - 1 := tracks[t].(clips := clips)];
      SameHead(multiset{tracks[0].id} + multiset(ClipIds(tracks[0].clips)), multiset(TrackIds(changed[1..])),
               multiset(ClipIds(tracks[t].clips)), multiset(TrackIds(tracks[1..])), multiset(ClipIds(clips)));
    }
  }

  lemma {:induction false} SequenceIdsReplaced(sequences: seq<Sequence>, s: nat, tracks: seq<Track>)
    requires s < |sequences|
    ensures multiset(SequenceIds(sequences[s := sequences[s].(tracks := tracks)]))
            + multiset(TrackIds(sequences[s].tracks))
            == multiset(SequenceIds(sequences)) + multiset(TrackIds(tracks))
    decreases s
  {
    hide TrackIds, SequenceIds;
    var changed := sequences[s := sequences[s].(tracks := tracks)];
    SequencesHead(sequences);
    SequencesHead(changed);
    if s == 0 {
      assert changed[1..] == sequences[1..];
    } else {
      SequenceIdsReplaced(sequences[1..], s - 1, tracks);
      assert sequences[1..][s - 1] == sequences[s];
      assert changed[1..] == sequences[1..][s - 1 := sequences[s].(tracks := tracks)];
      SameHead(multiset{sequences[0].id} + multiset(TrackIds(sequences[0].tracks)), multiset(SequenceIds(changed[1..])),
               multiset(TrackIds(sequences[s].tracks)), multiset(SequenceIds(sequences[1..])),
               multiset(TrackIds(tracks)));
    }
  }

  /** Other clips on one track change the project's IDs by just theirs. */
  lemma IdsReplaced(project: ProjectSnapshot, s: nat, t: nat, clips: seq<Clip>)
    requires s < |project.sequences| && t < |project.sequences[s].tracks|
    ensures multiset(ObjectIds(WithClips(project, s, t, clips)))
            + multiset(ClipIds(project.sequences[s].tracks[t].clips))
            == multiset(ObjectIds(project)) + multiset(ClipIds(clips))
  {
    hide TrackIds, SequenceIds, ClipIds;
    hide ObjectIds, MediaIds;
    var tracks := project.sequences[s].tracks;
    var changed := tracks[t := tracks[t].(clips := clips)];
    var after := WithClips(project, s, t, clips);
    TrackIdsReplaced(tracks, t, clips);
    SequenceIdsReplaced(project.sequences, s, changed);
    ObjectsHead(project);
    ObjectsHead(after);
    Chained(multiset(SequenceIds(after.sequences)), multiset(TrackIds(tracks)),
            multiset(SequenceIds(project.sequences)),
            multiset(TrackIds(changed)), multiset(ClipIds(tracks[t].clips)), multiset(ClipIds(clips)));
    SameHead(multiset(MediaIds(project.media)), multiset(SequenceIds(after.sequences)),
             multiset(ClipIds(tracks[t].clips)),
             multiset(SequenceIds(project.sequences)), multiset(ClipIds(clips)));
  }

  lemma Chained<T>(s1: multiset<T>, t0: multiset<T>, s0: multiset<T>, t1: multiset<T>, c0: multiset<T>, c1: multiset<T>)
    requires s1 + t0 == s0 + t1 && t1 + c0 == t0 + c1
    ensures s1 + c0 == s0 + c1
  {
    forall x
      ensures (s1 + c0)[x] == (s0 + c1)[x]
    {
      assert (s1 + t0)[x] == (s0 + t1)[x];
      assert (t1 + c0)[x] == (t0 + c1)[x];
    }
  }

  lemma ObjectsHead(project: ProjectSnapshot)
    ensures multiset(ObjectIds(project)) == multiset(MediaIds(project.media)) + multiset(SequenceIds(project.sequences))
  {
    hide SequenceIds;
  }

  lemma Cancelled<T>(after: multiset<T>, gone: multiset<T>, before: multiset<T>, here: multiset<T>, added: multiset<T>)
    requires after + gone == before + here && here <= gone + added
    ensures after <= before + added
  {
    forall x
      ensures after[x] <= before[x] + added[x]
    {
      assert (after + gone)[x] == (before + here)[x];
      assert here[x] <= (gone + added)[x];
    }
  }

  // ----- one track of a valid project

  function ClipsAt(project: ProjectSnapshot, s: nat, t: nat): seq<Clip>
    requires s < |project.sequences| && t < |project.sequences[s].tracks|
  {
    project.sequences[s].tracks[t].clips
  }

  /** Sorting a valid project in which one track has got other clips sorts that track. */
  lemma SortingOne(project: ProjectSnapshot, s: nat, t: nat, clips: seq<Clip>)
    requires ValidContent(project) && s < |project.sequences| && t < |project.sequences[s].tracks|
    ensures SortSequences(WithClips(project, s, t, clips).sequences)
            == WithClips(project, s, t, SortClips(clips)).sequences
  {
    hide ValidContent, SortClips;
    SortedTracksStay(project);
    var all := WithClips(project, s, t, clips).sequences;
    forall i | 0 <= i < |all|
      ensures SortTracks(all[i].tracks) == WithClips(project, s, t, SortClips(clips)).sequences[i].tracks
    {
    }
  }

  /** Other clips on one track keep the IDs good when they bring no others than one not issued yet. */
  lemma IdsWithClips(project: ProjectSnapshot, s: nat, t: nat, clips: seq<Clip>, nextId: uint64, added: seq<uint64>)
    requires ValidContent(project) && s < |project.sequences| && t < |project.sequences[s].tracks|
    requires project.nextId <= nextId && |added| <= 1 && (added != [] ==> project.nextId <= added[0] < nextId)
    requires multiset(ClipIds(clips)) <= multiset(ClipIds(ClipsAt(project, s, t))) + multiset(added)
    ensures GoodIds(ObjectIds(WithClips(project, s, t, SortClips(clips))), nextId)
  {
    hide ValidSequence, SortClips, ClipIds, ObjectIds, ValidText, ValidAsset;
    var after := WithClips(project, s, t, SortClips(clips));
    SortedIds(clips);
    IdsReplaced(project, s, t, SortClips(clips));
    Cancelled(multiset(ObjectIds(after)), multiset(ClipIds(ClipsAt(project, s, t))), multiset(ObjectIds(project)),
              multiset(ClipIds(SortClips(clips))), multiset(added));
    IdsStayGood(ObjectIds(project), project.nextId, ObjectIds(after), added, nextId);
  }

  /** A valid project stays valid with other clips on one track exactly when those are valid and do not overlap. */
  lemma OneTrackChanged(project: ProjectSnapshot, s: nat, t: nat, clips: seq<Clip>, nextId: uint64)
    requires ValidContent(project) && s < |project.sequences| && t < |project.sequences[s].tracks|
    requires DistinctClips(clips) && nextId > 0
    requires GoodIds(ObjectIds(WithClips(project, s, t, SortClips(clips))), nextId)
    ensures ValidContent(WithClips(project, s, t, SortClips(clips)).(nextId := nextId)) <==>
              AllValid(clips, project.media, project.sequences[s].tracks[t].kind) && AllApart(clips)
  {
    hide ValidTrack, SortClips, ClipIds, AllValid, AllApart, DistinctClips, ObjectIds, ValidText, ValidAsset;
    var after := WithClips(project, s, t, SortClips(clips)).(nextId := nextId);
    SameIds(project, s, t, SortClips(clips), nextId);
    var track := project.sequences[s].tracks[t];
    SortedTrackIsValid(track.(clips := clips), project.media);
    ValidHere(project, s, t);
    assert after.sequences[s].tracks[t] == track.(clips := SortClips(clips));
    if ValidTrack(after.sequences[s].tracks[t], project.media) {
      forall i | 0 <= i < |after.sequences|
        ensures ValidSequence(after.sequences[i], after.media)
      {
        assert ValidSequence(project.sequences[i], project.media);
      }
    } else {
      assert !ValidSequence(after.sequences[s], after.media);
    }
  }

  lemma SameIds(project: ProjectSnapshot, s: nat, t: nat, clips: seq<Clip>, nextId: uint64)
    requires s < |project.sequences| && t < |project.sequences[s].tracks|
    ensures ObjectIds(WithClips(project, s, t, clips).(nextId := nextId)) == ObjectIds(WithClips(project, s, t, clips))
  {
  }

  lemma ValidHere(project: ProjectSnapshot, s: nat, t: nat)
    requires ValidContent(project) && s < |project.sequences| && t < |project.sequences[s].tracks|
    ensures ValidSequence(project.sequences[s], project.media)
    ensures ValidTrack(project.sequences[s].tracks[t], project.media)
    ensures ValidText(project.sequences[s].tracks[t].name) && project.sequences[s].tracks[t].playback.gainMilli <= 4000
  {
    hide ValidText, ValidClip, Ordered, ObjectIds, ValidAsset;
    assert ValidSequence(project.sequences[s], project.media);
  }

  /** In a valid project the clips of a track are valid, do not overlap and have IDs of their own. */
  lemma GoodTrack(project: ProjectSnapshot, s: nat, t: nat)
    requires ValidContent(project) && s < |project.sequences| && t < |project.sequences[s].tracks|
    ensures var clips := ClipsAt(project, s, t);
            && AllValid(clips, project.media, project.sequences[s].tracks[t].kind) && AllApart(clips)
            && DistinctClips(clips) && SortClips(clips) == clips
  {
    hide ValidContent, ValidClip, SortClips, ValidText, Ordered, InOrder, AllApart;
    ValidHere(project, s, t);
    ValidIsInOrder(project, s, t);
    SortedTracksStay(project);
    SortedTrackIsValid(project.sequences[s].tracks[t], project.media);
  }

  /** The ID of every clip is among the project's. */
  lemma ClipIdListed(project: ProjectSnapshot, s: nat, t: nat, k: nat)
    requires s < |project.sequences| && t < |project.sequences[s].tracks| && k < |ClipsAt(project, s, t)|
    ensures ClipsAt(project, s, t)[k].id in ObjectIds(project)
  {
    hide TrackIds, SequenceIds;
    var a := SequenceRun(project.sequences, s);
    var b := TrackRun(project.sequences[s].tracks, t);
    var id := ClipsAt(project, s, t)[k].id;
    assert id == ClipIds(ClipsAt(project, s, t))[k] == TrackIds(project.sequences[s].tracks)[b + k];
    assert id == SequenceIds(project.sequences)[a + b + k];
    assert id == ObjectIds(project)[|project.media| + a + b + k];
  }

  lemma NotListed(project: ProjectSnapshot, s: nat, t: nat, id: uint64)
    requires s < |project.sequences| && t < |project.sequences[s].tracks| && id !in ObjectIds(project)
    ensures forall c :: c in ClipsAt(project, s, t) ==> c.id != id
  {
    hide ObjectIds;
    forall c | c in ClipsAt(project, s, t)
      ensures c.id != id
    {
      var k :| 0 <= k < |ClipsAt(project, s, t)| && ClipsAt(project, s, t)[k] == c;
      ClipIdListed(project, s, t, k);
    }
  }

  // ----- which commands are accepted

  /** The clip may stand on a track of this kind among these clips: it is valid and overlaps none of the others. */
  ghost predicate Fits(clip: Clip, others: seq<Clip>, media: seq<MediaAsset>, kind: TrackKind) {
    ValidClip(clip, media, kind) && forall o :: o in others && o.id != clip.id ==> Apart(o, clip)
  }

  lemma AddedFits(clips: seq<Clip>, clip: Clip, media: seq<MediaAsset>, kind: TrackKind)
    requires AllValid(clips, media, kind) && AllApart(clips) && forall c :: c in clips ==> c.id != clip.id
    ensures AllValid(clips + [clip], media, kind) && AllApart(clips + [clip]) <==> Fits(clip, clips, media, kind)
  {
    hide RationalTime.Seconds, Clip.End, ValidClip;
    assert forall c :: c in clips + [clip] <==> c in clips || c == clip;
  }

  lemma ReplacedFits(clips: seq<Clip>, k: nat, clip: Clip, media: seq<MediaAsset>, kind: TrackKind)
    requires AllValid(clips, media, kind) && AllApart(clips) && DistinctClips(clips)
    requires k < |clips| && clip.id == clips[k].id
    ensures AllValid(clips[k := clip], media, kind) && AllApart(clips[k := clip]) <==> Fits(clip, clips, media, kind)
    ensures DistinctClips(clips[k := clip])
  {
    hide RationalTime.Seconds, Clip.End, ValidClip;
    forall c
      ensures c in clips[k := clip] <==> (c in clips && c.id != clip.id) || c == clip
    {
      if c in clips && c.id != clip.id {
        var i :| 0 <= i < |clips| && clips[i] == c;
        assert clips[k := clip][i] == c;
      }
      if c == clip { assert clips[k := clip][k] == c; }
    }
  }

  /** With an unchanged log, a command is accepted exactly when what it makes has valid content. */
  lemma AcceptedIsValid(project: ProjectSnapshot, command: Command, candidate: ProjectSnapshot)
    requires Valid(project) && Commands.Edit(project, command).Some?
    requires candidate.revision == project.revision && candidate.operations == project.operations
    requires var edited := Commands.Edit(project, command).value.0;
             candidate == edited.(sequences := SortSequences(edited.sequences))
    ensures Apply(project, command).Some? <==> ValidContent(candidate)
  {
    hide ValidContent, ValidLog, Commands.Edit, SortSequences;
  }

  /**
   An insertion is accepted exactly when the track exists, an ID is left, and the new clip fits: valid on a
   track of that kind, within its asset, and overlapping no other clip.
   */
  lemma InsertAccepted(project: ProjectSnapshot, track: uint64, media: uint64, position: Time, range: TimeRange,
                       routing: ClipRouting)
    requires Valid(project)
    ensures var found := FindTrack(project.sequences, track);
            Apply(project, InsertClip(track, media, position, range, routing)).Some? <==>
              && found.Some? && project.nextId != MAX_ID
              && Fits(Clip(project.nextId, media, position, range, routing),
                      ClipsAt(project, found.value.s, found.value.t), project.media,
                      project.sequences[found.value.s].tracks[found.value.t].kind)
  {
    hide RationalTime.Seconds, Valid, ValidContent, SortClips, FindTrack, Fits, AllValid, AllApart, DistinctClips;
    var found := FindTrack(project.sequences, track);
    if found.Some? && project.nextId != MAX_ID {
      var (s, t) := (found.value.s, found.value.t);
      var clips, clip := ClipsAt(project, s, t), Clip(project.nextId, media, position, range, routing);
      ValidImpliesContent(project);
      NewIdIsNew(project);
      GoodTrack(project, s, t);
      NotListed(project, s, t, clip.id);
      ClipIdsOf(clips, clip);
      DistinctWith(clips, clip);
      SortingOne(project, s, t, clips + [clip]);
      IdsWithClips(project, s, t, clips + [clip], project.nextId + 1, [clip.id]);
      OneTrackChanged(project, s, t, clips + [clip], project.nextId + 1);
      AddedFits(clips, clip, project.media, project.sequences[s].tracks[t].kind);
      AcceptedIsValid(project, InsertClip(track, media, position, range, routing),
                      WithClips(project, s, t, SortClips(clips + [clip])).(nextId := project.nextId + 1));
    }
  }

  lemma NewIdIsNew(project: ProjectSnapshot)
    requires ValidContent(project)
    ensures project.nextId !in ObjectIds(project) && project.nextId > 0
  {
    hide ObjectIds, ValidSequence, ValidAsset;
  }

  lemma DistinctWith(clips: seq<Clip>, clip: Clip)
    requires DistinctClips(clips) && forall c :: c in clips ==> c.id != clip.id
    ensures DistinctClips(clips + [clip])
  {
  }

  /** A trim is accepted exactly when the clip exists and, so trimmed, fits among the other clips of its track. */
  lemma TrimAccepted(project: ProjectSnapshot, clip: uint64, position: Time, range: TimeRange)
    requires Valid(project)
    ensures var found := FindClip(project.sequences, clip);
            Apply(project, TrimClip(clip, position, range)).Some? <==>
              && found.Some?
              && Fits(ClipAt(project.sequences, found.value).(position := position, source := range),
                      ClipsAt(project, found.value.s, found.value.t), project.media,
                      project.sequences[found.value.s].tracks[found.value.t].kind)
  {
    hide RationalTime.Seconds, Valid, ValidContent, SortClips, FindClip, Fits, AllValid, AllApart, DistinctClips;
    var found := FindClip(project.sequences, clip);
    if found.Some? {
      ReplacementAccepted(project, TrimClip(clip, position, range), found.value,
                          ClipAt(project.sequences, found.value).(position := position, source := range));
    }
  }

  /** Another routing is accepted exactly when the clip exists and with it is valid where it is. */
  lemma RoutingAccepted(project: ProjectSnapshot, clip: uint64, routing: ClipRouting)
    requires Valid(project)
    ensures var found := FindClip(project.sequences, clip);
            Apply(project, SetClipRouting(clip, routing)).Some? <==>
              && found.Some?
              && Fits(ClipAt(project.sequences, found.value).(routing := routing),
                      ClipsAt(project, found.value.s, found.value.t), project.media,
                      project.sequences[found.value.s].tracks[found.value.t].kind)
  {
    hide RationalTime.Seconds, Valid, ValidContent, SortClips, FindClip, Fits, AllValid, AllApart, DistinctClips;
    var found := FindClip(project.sequences, clip);
    if found.Some? {
      ReplacementAccepted(project, SetClipRouting(clip, routing), found.value,
                          ClipAt(project.sequences, found.value).(routing := routing));
    }
  }

  lemma ReplacementAccepted(project: ProjectSnapshot, command: Command, place: ClipPlace, clip: Clip)
    requires Valid(project) && ValidPlace(project.sequences, place) && clip.id == ClipAt(project.sequences, place).id
    requires Commands.Edit(project, command) == Some((WithClip(project, place, clip), NOTHING))
    ensures Apply(project, command).Some? <==>
              Fits(clip, ClipsAt(project, place.s, place.t), project.media,
                   project.sequences[place.s].tracks[place.t].kind)
  {
    hide RationalTime.Seconds, Valid, ValidContent, SortClips, Fits, AllValid, AllApart, DistinctClips;
    hide Commands.Edit;
    var clips := ClipsAt(project, place.s, place.t);
    var replaced := clips[place.k := clip];
    ValidImpliesContent(project);
    NewIdIsNew(project);
    GoodTrack(project, place.s, place.t);
    ReplacedFits(clips, place.k, clip, project.media, project.sequences[place.s].tracks[place.t].kind);
    assert ClipIds(replaced) == ClipIds(clips);
    SortingOne(project, place.s, place.t, replaced);
    IdsWithClips(project, place.s, place.t, replaced, project.nextId, []);
    OneTrackChanged(project, place.s, place.t, replaced, project.nextId);
    AcceptedIsValid(project, command, WithClips(project, place.s, place.t, SortClips(replaced)));
  }

  // ----- taking a clip off

  lemma WithoutMembers(clips: seq<Clip>, k: nat)
    requires DistinctClips(clips) && k < |clips|
    ensures DistinctClips(Without(clips, k))
    ensures forall c :: c in Without(clips, k) <==> c in clips && c.id != clips[k].id
  {
    var rest := Without(clips, k);
    forall c
      ensures c in rest <==> c in clips && c.id != clips[k].id
    {
      if c in clips && c.id != clips[k].id {
        var i :| 0 <= i < |clips| && clips[i] == c;
        assert rest[if i < k then i else i - 1] == c;
      }
    }
  }

  lemma WithoutIds(clips: seq<Clip>, k: nat)
    requires k < |clips|
    ensures multiset(ClipIds(Without(clips, k))) + multiset{clips[k].id} == multiset(ClipIds(clips))
  {
    assert ClipIds(clips) == ClipIds(clips)[..k] + [clips[k].id] + ClipIds(clips)[k + 1..];
    assert ClipIds(Without(clips, k)) == ClipIds(clips)[..k] + ClipIds(clips)[k + 1..];
  }

  lemma WithoutKeeps(clips: seq<Clip>, k: nat, media: seq<MediaAsset>, kind: TrackKind)
    requires AllValid(clips, media, kind) && AllApart(clips) && DistinctClips(clips) && k < |clips|
    ensures var rest := Without(clips, k);
            && AllValid(rest, media, kind) && AllApart(rest) && DistinctClips(rest)
            && (forall c :: c in rest <==> c in clips && c.id != clips[k].id)
            && multiset(ClipIds(rest)) + multiset{clips[k].id} == multiset(ClipIds(clips))
  {
    hide RationalTime.Seconds, ValidClip, Apart, Without, ClipIds, DistinctClips;
    WithoutMembers(clips, k);
    WithoutIds(clips, k);
  }

  /** The project with the clip at a place taken off. */
  function Lifted(project: ProjectSnapshot, place: ClipPlace): ProjectSnapshot
    requires ValidPlace(project.sequences, place)
  {
    WithClips(project, place.s, place.t, Without(ClipsAt(project, place.s, place.t), place.k))
  }

  lemma SortedRest(project: ProjectSnapshot, place: ClipPlace)
    requires ValidContent(project) && ValidPlace(project.sequences, place)
    ensures var rest := Without(ClipsAt(project, place.s, place.t), place.k); SortClips(rest) == rest
  {
    hide RationalTime.Seconds, ValidContent, SortClips, Plus;
    ValidTrackAscending(project, place.s, place.t);
    SortKeepsAscending(Without(ClipsAt(project, place.s, place.t), place.k));
  }

  /** A valid project stays valid without one of its clips, whose ID is then free. */
  lemma LiftedIsValid(project: ProjectSnapshot, place: ClipPlace)
    requires ValidContent(project) && ValidPlace(project.sequences, place)
    ensures ValidContent(Lifted(project, place))
    ensures SortSequences(Lifted(project, place).sequences) == Lifted(project, place).sequences
    ensures ClipAt(project.sequences, place).id !in ObjectIds(Lifted(project, place))
    ensures multiset(ObjectIds(Lifted(project, place))) + multiset{ClipAt(project.sequences, place).id}
            == multiset(ObjectIds(project))
  {
    hide RationalTime.Seconds, ValidContent, SortClips, AllValid, AllApart, DistinctClips, ObjectIds, ClipIds;
    var (s, t) := (place.s, place.t);
    var clips := ClipsAt(project, s, t);
    var rest, id := Without(clips, place.k), clips[place.k].id;
    NewIdIsNew(project);
    GoodTrack(project, s, t);
    WithoutKeeps(clips, place.k, project.media, project.sequences[s].tracks[t].kind);
    SortedRest(project, place);
    SortingOne(project, s, t, rest);
    IdsWithClips(project, s, t, rest, project.nextId, []);
    OneTrackChanged(project, s, t, rest, project.nextId);
    assert WithClips(project, s, t, rest).(nextId := project.nextId) == Lifted(project, place);
    IdsReplaced(project, s, t, rest);
    OneLess(multiset(ObjectIds(Lifted(project, place))), multiset(ObjectIds(project)), multiset(ClipIds(rest)), id);
    IdGone(project, Lifted(project, place), id);
  }

  lemma OneLess(after: multiset<uint64>, before: multiset<uint64>, rest: multiset<uint64>, id: uint64)
    requires after + (rest + multiset{id}) == before + rest
    ensures after + multiset{id} == before
  {
    forall x
      ensures (after + multiset{id})[x] == before[x]
    {
      assert (after + (rest + multiset{id}))[x] == (before + rest)[x];
    }
  }

  lemma IdGone(project: ProjectSnapshot, after: ProjectSnapshot, id: uint64)
    requires ValidContent(project) && multiset(ObjectIds(after)) + multiset{id} == multiset(ObjectIds(project))
    ensures id !in ObjectIds(after)
  {
    hide ObjectIds, ValidSequence, ValidAsset;
    CountedOnce(ObjectIds(project));
    assert multiset(ObjectIds(project))[id] <= 1;
    assert id in ObjectIds(after) <==> id in multiset(ObjectIds(after));
  }

  /** A deletion is accepted exactly when the clip exists. */
  lemma DeletionAccepted(project: ProjectSnapshot, clip: uint64)
    requires Valid(project)
    ensures Apply(project, DeleteClip(clip)).Some? <==> FindClip(project.sequences, clip).Some?
  {
    hide RationalTime.Seconds, Valid, ValidContent, FindClip, SortSequences, Without, ObjectIds, SortClips;
    var found := FindClip(project.sequences, clip);
    if found.Some? {
      ValidImpliesContent(project);
      LiftedIsValid(project, found.value);
      AcceptedIsValid(project, DeleteClip(clip), Lifted(project, found.value));
    }
  }

  /**
   A move is accepted exactly when the clip and the destination exist and the moved clip fits there: its asset
   suits that kind of track, and at the new position it overlaps no other clip.
   */
  lemma MoveAccepted(project: ProjectSnapshot, clip: uint64, track: uint64, position: Time)
    requires Valid(project)
    ensures var from, to := FindClip(project.sequences, clip), FindTrack(project.sequences, track);
            Apply(project, MoveClip(clip, track, position)).Some? <==>
              && from.Some? && to.Some?
              && Fits(ClipAt(project.sequences, from.value).(position := position),
                      ClipsAt(project, to.value.s, to.value.t), project.media,
                      project.sequences[to.value.s].tracks[to.value.t].kind)
  {
    hide RationalTime.Seconds, Valid, ValidContent, SortClips, FindClip, FindTrack, Fits, SortSequences, Without;
    hide AllValid, AllApart, DistinctClips, ObjectIds;
    var from, to := FindClip(project.sequences, clip), FindTrack(project.sequences, track);
    if from.Some? && to.Some? {
      ValidImpliesContent(project);
      var moved := ClipAt(project.sequences, from.value).(position := position);
      var lifted := Lifted(project, from.value);
      LiftedIsValid(project, from.value);
      LandingAccepted(project, lifted, to.value.s, to.value.t, moved);
      SameFit(project, from.value, to.value.s, to.value.t, moved);
      AcceptedIsValid(project, MoveClip(clip, track, position),
                      WithClips(lifted, to.value.s, to.value.t,
                                SortClips(ClipsAt(lifted, to.value.s, to.value.t) + [moved])));
    }
  }

  /** Putting a lifted clip down is valid exactly when it fits there. */
  lemma LandingAccepted(project: ProjectSnapshot, lifted: ProjectSnapshot, s: nat, t: nat, clip: Clip)
    requires ValidContent(project) && ValidContent(lifted) && lifted.nextId == project.nextId
    requires s < |lifted.sequences| && t < |lifted.sequences[s].tracks| && clip.id !in ObjectIds(lifted)
    requires multiset(ObjectIds(lifted)) + multiset{clip.id} == multiset(ObjectIds(project))
    ensures var clips := ClipsAt(lifted, s, t);
            && SortSequences(WithClips(lifted, s, t, clips + [clip]).sequences)
               == WithClips(lifted, s, t, SortClips(clips + [clip])).sequences
            && (ValidContent(WithClips(lifted, s, t, SortClips(clips + [clip]))) <==>
                  Fits(clip, clips, lifted.media, lifted.sequences[s].tracks[t].kind))
  {
    hide RationalTime.Seconds, ValidContent, SortClips, Fits, AllValid, AllApart, DistinctClips, ObjectIds, ClipIds;
    var clips := ClipsAt(lifted, s, t);
    var after := WithClips(lifted, s, t, SortClips(clips + [clip]));
    NewIdIsNew(project);
    GoodTrack(lifted, s, t);
    NotListed(lifted, s, t, clip.id);
    DistinctWith(clips, clip);
    SortingOne(lifted, s, t, clips + [clip]);
    ClipIdsOf(clips, clip);
    SortedIds(clips + [clip]);
    IdsReplaced(lifted, s, t, SortClips(clips + [clip]));
    OneMore(multiset(ObjectIds(after)), multiset(ObjectIds(lifted)), multiset(ClipIds(clips)), clip.id);
    IdsOfValid(project);
    IdsStayGood(ObjectIds(project), project.nextId, ObjectIds(after), [], project.nextId);
    OneTrackChanged(lifted, s, t, clips + [clip], lifted.nextId);
    AddedFits(clips, clip, lifted.media, lifted.sequences[s].tracks[t].kind);
    assert after.(nextId := lifted.nextId) == after;
  }

  lemma OneMore(after: multiset<uint64>, before: multiset<uint64>, clips: multiset<uint64>, id: uint64)
    requires after + clips == before + (clips + multiset{id})
    ensures after == before + multiset{id}
  {
    forall x
      ensures after[x] == (before + multiset{id})[x]
    {
      assert (after + clips)[x] == (before + (clips + multiset{id}))[x];
    }
  }

  lemma IdsOfValid(project: ProjectSnapshot)
    requires ValidContent(project)
    ensures GoodIds(ObjectIds(project), project.nextId)
  {
    hide ObjectIds, ValidSequence, ValidAsset;
  }

  /** Whether the clip has been lifted makes no difference to what else it could overlap. */
  lemma SameFit(project: ProjectSnapshot, place: ClipPlace, s: nat, t: nat, clip: Clip)
    requires ValidContent(project) && ValidPlace(project.sequences, place)
    requires s < |project.sequences| && t < |project.sequences[s].tracks|
    requires clip.id == ClipAt(project.sequences, place).id
    ensures var lifted, kind := Lifted(project, place), project.sequences[s].tracks[t].kind;
            && lifted.media == project.media && s < |lifted.sequences| && t < |lifted.sequences[s].tracks|
            && lifted.sequences[s].tracks[t].kind == kind
            && (Fits(clip, ClipsAt(lifted, s, t), project.media, kind) <==>
                  Fits(clip, ClipsAt(project, s, t), project.media, kind))
  {
    hide RationalTime.Seconds, ValidContent, ValidClip, Apart, Without, AllValid, AllApart, DistinctClips;
    if s == place.s && t == place.t {
      GoodTrack(project, s, t);
      WithoutKeeps(ClipsAt(project, s, t), place.k, project.media, project.sequences[s].tracks[t].kind);
    }
  }

  // ----- splitting

  /** The ends of both halves, on the timeline and in the source, fit 64 bits. */
  predicate EndsKnown(left: Clip, right: Clip) {
    left.End().Some? && left.source.End().Some? && right.End().Some? && right.source.End().Some?
  }

  lemma HalvesAreValid(clip: Clip, left: Clip, right: Clip, media: seq<MediaAsset>, kind: TrackKind)
    requires ValidClip(clip, media, kind) && Halves(clip, left, right)
    ensures ValidClip(left, media, kind) <==> left.End().Some? && left.source.End().Some?
    ensures ValidClip(right, media, kind) <==> right.End().Some? && right.source.End().Some?
  {
    hide RationalTime.Seconds, Plus, FindAsset, ValidRouting, Supports;
    ZeroSeconds();
  }

  lemma HalvesStayApart(clip: Clip, left: Clip, right: Clip, other: Clip)
    requires Halves(clip, left, right) && EndsKnown(left, right) && Apart(other, clip)
    ensures Apart(other, left) && Apart(other, right)
  {
    hide RationalTime.Seconds, Plus;
  }

  lemma HalvesAreApart(clip: Clip, left: Clip, right: Clip)
    requires Halves(clip, left, right) && EndsKnown(left, right)
    ensures Apart(left, right)
  {
    hide RationalTime.Seconds, Plus;
  }

  lemma HalvesFit(clips: seq<Clip>, k: nat, left: Clip, right: Clip, media: seq<MediaAsset>, kind: TrackKind)
    requires AllValid(clips, media, kind) && AllApart(clips) && DistinctClips(clips) && k < |clips|
    requires Halves(clips[k], left, right) && left.id == clips[k].id
    requires forall c :: c in clips ==> c.id != right.id
    ensures var all := clips[k := left] + [right];
            DistinctClips(all) && (AllValid(all, media, kind) && AllApart(all) <==> EndsKnown(left, right))
  {
    hide RationalTime.Seconds, Clip.End, TimeRange.End, ValidClip, Halves, Apart;
    var clip, shortened := clips[k], clips[k := left];
    assert clip in clips;
    HalvesAreValid(clip, left, right, media, kind);
    ReplacedFits(clips, k, left, media, kind);
    forall c | c in shortened
      ensures c.id != right.id && (c in clips || c == left)
    {
    }
    DistinctWith(shortened, right);
    assert forall c :: c in shortened + [right] <==> c in shortened || c == right;
    assert shortened[k] == left;
    if EndsKnown(left, right) {
      HalvesAreApart(clip, left, right);
      forall o | o in clips && o.id != left.id
        ensures Apart(o, left) && Apart(o, right)
      {
        HalvesStayApart(clip, left, right, o);
      }
      forall o | o in shortened
        ensures Apart(o, right)
      {
        if o != left { assert o in clips && o.id != left.id by { OnlyLeft(clips, k, left, o); } }
      }
      AddedFits(shortened, right, media, kind);
    }
  }

  lemma OnlyLeft(clips: seq<Clip>, k: nat, left: Clip, other: Clip)
    requires DistinctClips(clips) && k < |clips| && left.id == clips[k].id
    requires other in clips[k := left] && other != left
    ensures other in clips && other.id != left.id
  {
    var i :| 0 <= i < |clips| && clips[k := left][i] == other;
    assert clips[i] == other;
  }

  /**
   A split is accepted exactly when the clip exists, an ID is left, the position lies inside the clip with an
   exact offset, and the ends of both halves fit 64 bits; it never fails for an overlap or a range.
   */
  lemma SplitAccepted(project: ProjectSnapshot, clip: uint64, position: Time)
    requires Valid(project)
    ensures var found := FindClip(project.sequences, clip);
            Apply(project, SplitClip(clip, position)).Some? <==>
              && found.Some? && project.nextId != MAX_ID
              && var halves := SplitHalves(ClipAt(project.sequences, found.value), position, project.nextId);
                 halves.Some? && EndsKnown(halves.value.0, halves.value.1)
  {
    hide RationalTime.Seconds, Valid, ValidContent, SortClips, FindClip, SplitHalves, SortSequences, EndsKnown, Halves;
    hide AllValid, AllApart, DistinctClips, ObjectIds, ClipIds;
    var found := FindClip(project.sequences, clip);
    if found.Some? && project.nextId != MAX_ID {
      var original := ClipAt(project.sequences, found.value);
      var halves := SplitHalves(original, position, project.nextId);
      if halves.Some? {
        HalvesOfSplit(original, position, project.nextId);
        SplitIsChecked(project, found.value, SplitClip(clip, position), halves.value.0, halves.value.1);
      }
    }
  }

  lemma SplitIds(clips: seq<Clip>, k: nat, left: Clip, right: Clip)
    requires k < |clips| && left.id == clips[k].id
    ensures multiset(ClipIds(clips[k := left] + [right])) == multiset(ClipIds(clips)) + multiset([right.id])
  {
    assert ClipIds(clips[k := left]) == ClipIds(clips);
    ClipIdsOf(clips[k := left], right);
  }

  lemma SplitIsChecked(project: ProjectSnapshot, place: ClipPlace, command: Command, left: Clip, right: Clip)
    requires Valid(project) && ValidPlace(project.sequences, place) && project.nextId != MAX_ID
    requires Halves(ClipAt(project.sequences, place), left, right)
    requires left.id == ClipAt(project.sequences, place).id && right.id == project.nextId
    requires Commands.Edit(project, command).Some?
    requires var clips := ClipsAt(project, place.s, place.t);
             Commands.Edit(project, command).value.0
             == WithClips(project, place.s, place.t, clips[place.k := left] + [right]).(nextId := project.nextId + 1)
    ensures Apply(project, command).Some? <==> EndsKnown(left, right)
  {
    hide RationalTime.Seconds, Valid, ValidContent, SortClips, SortSequences, EndsKnown, Halves, Commands.Edit;
    hide AllValid, AllApart, DistinctClips, ObjectIds, ClipIds;
    var (s, t) := (place.s, place.t);
    var clips := ClipsAt(project, s, t);
    var all := clips[place.k := left] + [right];
    ValidImpliesContent(project);
    NewIdIsNew(project);
    GoodTrack(project, s, t);
    NotListed(project, s, t, right.id);
    HalvesFit(clips, place.k, left, right, project.media, project.sequences[s].tracks[t].kind);
    SplitIds(clips, place.k, left, right);
    SortingOne(project, s, t, all);
    IdsWithClips(project, s, t, all, project.nextId + 1, [right.id]);
    OneTrackChanged(project, s, t, all, project.nextId + 1);
    AcceptedIsValid(project, command, WithClips(project, s, t, SortClips(all)).(nextId := project.nextId + 1));
  }
}
