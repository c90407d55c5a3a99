/** What every command that is not about clips writes, that it writes nothing else, and when it is accepted: `apply`
    (`src/commands/editor.cpp`) followed by `validate` (`src/project/model.cpp`). */
module CommandEffects {
  import opened Wrappers
  import opened RationalTimes
  import opened Model
  import opened PlanBuilder
  import opened Commands
  import opened ClipTables
  import opened SplitPlayback
  import opened Validation
  import opened Acceptances

  // ----- sorting leaves what is in order

  ghost predicate Settled(sequences: seq<Sequence>) {
    forall s, t :: 0 <= s < |sequences| && 0 <= t < |sequences[s].tracks| ==>
      SortClips(sequences[s].tracks[t].clips) == sequences[s].tracks[t].clips
  }

  lemma SettledStays(sequences: seq<Sequence>)
    requires Settled(sequences)
    ensures SortSequences(sequences) == sequences
  {
    hide SortClips;
    forall s | 0 <= s < |sequences|
      ensures SortTracks(sequences[s].tracks) == sequences[s].tracks
    {
    }
  }

  /** With its tracks in order and its log unchanged, an edit is accepted exactly when it leaves valid content, and
      nothing is changed after it. */
  lemma EditAccepted(project: ProjectSnapshot, command: Command)
    requires Valid(project) && Commands.Edit(project, command).Some?
    requires var after := Commands.Edit(project, command).value.0;
             && Settled(after.sequences)
             && after.revision == project.revision && after.operations == project.operations
    ensures Apply(project, command)
            == if ValidContent(Commands.Edit(project, command).value.0) then Commands.Edit(project, command) else None
  {
    hide ValidContent, ValidLog, Commands.Edit, SortSequences, Settled;
    SettledStays(Commands.Edit(project, command).value.0.sequences);
  }

  // ----- every ID names one thing

  lemma {:induction false} TrackListed(tracks: seq<Track>, t: nat)
    requires t < |tracks|
    ensures tracks[t].id in TrackIds(tracks)
  {
    hide ClipIds;
    if t > 0 {
      TrackListed(tracks[1..], t - 1);
    }
  }

  lemma {:induction false} SequenceListed(sequences: seq<Sequence>, s: nat)
    requires s < |sequences|
    ensures sequences[s].id in SequenceIds(sequences)
    ensures forall t :: 0 <= t < |sequences[s].tracks| ==> sequences[s].tracks[t].id in SequenceIds(sequences)
  {
    hide TrackIds;
    var head := sequences[0];
    assert forall id :: id in SequenceIds(sequences) <==>
             id == head.id || id in TrackIds(head.tracks) || id in SequenceIds(sequences[1..]);
    if s > 0 {
      SequenceListed(sequences[1..], s - 1);
    } else {
      forall t | 0 <= t < |head.tracks|
        ensures head.tracks[t].id in TrackIds(head.tracks)
      {
        TrackListed(head.tracks, t);
      }
    }
  }

  lemma {:induction false} TracksDiffer(tracks: seq<Track>)
    requires NoDuplicates(TrackIds(tracks))
    ensures forall i, j :: 0 <= i < |tracks| && 0 <= j < |tracks| && tracks[i].id == tracks[j].id ==> i == j
  {
    hide ClipIds, NoDuplicates;
    if tracks != [] {
      var head, rest := tracks[0], tracks[1..];
      ClipTables.Apart([head.id] + ClipIds(head.clips), TrackIds(rest));
      TracksDiffer(rest);
      assert head.id in [head.id] + ClipIds(head.clips);
      forall j | 0 < j < |tracks|
        ensures tracks[j].id in TrackIds(rest)
      {
        TrackListed(rest, j - 1);
      }
      forall i, j | 0 <= i < |tracks| && 0 <= j < |tracks| && tracks[i].id == tracks[j].id
        ensures i == j
      {
        if i > 0 && j > 0 { assert rest[i - 1].id == rest[j - 1].id; }
      }
    }
  }

  /** No two tracks and no two sequences share an ID. */
  ghost predicate Distinct(sequences: seq<Sequence>) {
    && (forall i, j :: 0 <= i < |sequences| && 0 <= j < |sequences| && sequences[i].id == sequences[j].id ==> i == j)
    && (forall i, j, k, l ::
          (&& 0 <= i < |sequences| && 0 <= j < |sequences[i].tracks|
           && 0 <= k < |sequences| && 0 <= l < |sequences[k].tracks|
           && sequences[i].tracks[j].id == sequences[k].tracks[l].id) ==> i == k && j == l)
  }

  lemma {:induction false} SequencesDiffer(sequences: seq<Sequence>)
    requires NoDuplicates(SequenceIds(sequences))
    ensures Distinct(sequences)
  {
    hide TrackIds, NoDuplicates;
    if sequences != [] {
      var head, rest := sequences[0], sequences[1..];
      var ids := [head.id] + TrackIds(head.tracks);
      ClipTables.Apart(ids, SequenceIds(rest));
      ClipTables.Apart([head.id], TrackIds(head.tracks));
      SequencesDiffer(rest);
      TracksDiffer(head.tracks);
      assert forall id :: id in ids <==> id == head.id || id in TrackIds(head.tracks);
      HeadDiffers(sequences);
    }
  }

  lemma HeadDiffers(sequences: seq<Sequence>)
    requires sequences != [] && Distinct(sequences[1..])
    requires forall i, j :: (&& 0 <= i < |sequences[0].tracks| && 0 <= j < |sequences[0].tracks|
                             && sequences[0].tracks[i].id == sequences[0].tracks[j].id) ==> i == j
    requires forall id :: id == sequences[0].id || id in TrackIds(sequences[0].tracks) ==>
                            id !in SequenceIds(sequences[1..])
    ensures Distinct(sequences)
  {
    hide TrackIds, SequenceIds;
    var head, rest := sequences[0], sequences[1..];
    forall s | 0 < s < |sequences|
      ensures sequences[s] == rest[s - 1] && sequences[s].id in SequenceIds(rest)
      ensures forall t :: 0 <= t < |sequences[s].tracks| ==> sequences[s].tracks[t].id in SequenceIds(rest)
    {
      SequenceListed(rest, s - 1);
    }
    forall t | 0 <= t < |head.tracks|
      ensures head.tracks[t].id in TrackIds(head.tracks)
    {
      TrackListed(head.tracks, t);
    }
  }

  lemma AllDiffer(project: ProjectSnapshot)
    requires ValidContent(project)
    ensures Distinct(project.sequences)
    ensures forall i, j :: 0 <= i < j < |project.media| ==> project.media[i].id != project.media[j].id
  {
    hide SequenceIds, ValidSequence, ValidAsset, Distinct, NoDuplicates;
    ClipTables.Apart(MediaIds(project.media), SequenceIds(project.sequences));
    SequencesDiffer(project.sequences);
    MediaDiffer(project.media);
  }

  lemma MediaDiffer(media: seq<MediaAsset>)
    requires NoDuplicates(MediaIds(media))
    ensures forall i, j :: 0 <= i < j < |media| ==> media[i].id != media[j].id
  {
    forall i, j | 0 <= i < j < |media|
      ensures media[i].id != media[j].id
    {
      assert MediaIds(media)[i] != MediaIds(media)[j];
    }
  }

  // ----- IDs of longer and shorter lists

  lemma {:induction false} SequenceIdsConcat(a: seq<Sequence>, b: seq<Sequence>)
    ensures SequenceIds(a + b) == SequenceIds(a) + SequenceIds(b)
  {
    hide TrackIds;
    if a == [] {
      assert a + b == b;
    } else {
      assert (a + b)[1..] == a[1..] + b;
      SequenceIdsConcat(a[1..], b);
    }
  }

  lemma {:induction false} TrackIdsConcat(a: seq<Track>, b: seq<Track>)
    ensures TrackIds(a + b) == TrackIds(a) + TrackIds(b)
  {
    hide ClipIds;
    if a == [] {
      assert a + b == b;
    } else {
      assert (a + b)[1..] == a[1..] + b;
      TrackIdsConcat(a[1..], b);
    }
  }

  /** The IDs of valid content stay good when only known ones stay and at most the next one is added. */
  lemma ContentIdsStayGood(project: ProjectSnapshot, after: ProjectSnapshot, added: seq<uint64>)
    requires ValidContent(project) && |added| <= 1 && after.nextId == project.nextId + |added|
    requires added != [] ==> added[0] == project.nextId
    requires multiset(ObjectIds(after)) <= multiset(ObjectIds(project)) + multiset(added)
    ensures GoodIds(ObjectIds(after), after.nextId)
  {
    hide ObjectIds, ValidSequence, ValidAsset;
    IdsStayGood(ObjectIds(project), project.nextId, ObjectIds(after), added, after.nextId);
  }

  /** One part is added to a bag of IDs that has the other two. */
  lemma Added<T>(media: multiset<T>, before: multiset<T>, after: multiset<T>, added: multiset<T>)
    requires after <= before + added
    ensures media + after <= media + before + added
  {
  }

  // ----- creating

  /** A sequence is created exactly when an ID is left, its name is a text and its frames last; it is the last one, has
      no tracks, and its output is 1920 by 1080 pixels with stereo sound at 48 kHz. */
  lemma CreateSequenceMeans(project: ProjectSnapshot, name: string, frameDuration: Time)
    requires Valid(project)
    ensures Apply(project, CreateSequence(name, frameDuration)) ==
            if project.nextId == 0xffff_ffff_ffff_ffff || !ValidText(name) || frameDuration == Zero then None
            else
              var sequence := Sequence(project.nextId, name, frameDuration, [], SequenceOutput(1920, 1080, 48000, 2));
              Some((project.(nextId := project.nextId + 1, sequences := project.sequences + [sequence]),
                    CommandResult(Some(project.nextId), None, None, None)))
  {
    hide RationalTime.Seconds, Valid, ValidContent, SortClips, ValidText, ObjectIds;
    ValidImpliesContent(project);
    if project.nextId != MAX_ID {
      var command := CreateSequence(name, frameDuration);
      var sequence := Sequence(project.nextId, name, frameDuration, [], DEFAULT_OUTPUT);
      var after := project.(nextId := project.nextId + 1, sequences := project.sequences + [sequence]);
      assert Commands.Edit(project, command).value.0 == after;
      SortedTracksStay(project);
      EditAccepted(project, command);
      SequenceAdded(project, after, sequence);
    }
  }

  lemma SequenceAdded(project: ProjectSnapshot, after: ProjectSnapshot, sequence: Sequence)
    requires ValidContent(project) && project.nextId != MAX_ID
    requires sequence.id == project.nextId && sequence.tracks == []
    requires after == project.(nextId := project.nextId + 1, sequences := project.sequences + [sequence])
    ensures ValidContent(after) <==> ValidSequence(sequence, project.media)
  {
    hide RationalTime.Seconds, ValidSequence, ValidAsset, ValidText, MediaIds, SequenceIds;
    SequenceIdsConcat(project.sequences, [sequence]);
    assert SequenceIds([sequence]) == [sequence.id] by { OneSequenceId(sequence); }
    assert ObjectIds(after) == ObjectIds(project) + [sequence.id];
    ContentIdsStayGood(project, after, [sequence.id]);
    assert after.sequences[|project.sequences|] == sequence;
    if ValidSequence(sequence, project.media) {
      forall i | 0 <= i < |after.sequences|
        ensures ValidSequence(after.sequences[i], after.media)
      {
        if i < |project.sequences| { assert after.sequences[i] == project.sequences[i]; }
      }
    }
  }

  lemma OneSequenceId(sequence: Sequence)
    requires sequence.tracks == []
    ensures SequenceIds([sequence]) == [sequence.id]
  {
  }

  /** A track is created exactly when its sequence exists, an ID is left and its name is a text; it is the last one of
      its sequence, without clips, enabled, not muted and at gain one. */
  lemma CreateTrackMeans(project: ProjectSnapshot, sequence: uint64, kind: TrackKind, name: string)
    requires Valid(project)
    ensures var found := FindSequence(project.sequences, sequence);
            Apply(project, CreateTrack(sequence, kind, name)) ==
            if found.None? || project.nextId == 0xffff_ffff_ffff_ffff || !ValidText(name) then None
            else
              var track := Track(project.nextId, name, kind, [], TrackPlayback(true, false, 1000));
              var before := project.sequences[found.value];
              Some((project.(nextId := project.nextId + 1,
                             sequences := project.sequences[found.value :=
                               before.(tracks := before.tracks + [track])]),
                    CommandResult(None, Some(project.nextId), None, None)))
  {
    hide RationalTime.Seconds, Valid, ValidContent, SortClips, ValidText, ObjectIds, FindSequence;
    ValidImpliesContent(project);
    var found := FindSequence(project.sequences, sequence);
    if found.Some? && project.nextId != MAX_ID {
      var command := CreateTrack(sequence, kind, name);
      var track := Track(project.nextId, name, kind, [], DEFAULT_PLAYBACK);
      SortedTracksStay(project);
      NothingToSort();
      EditAccepted(project, command);
      TrackAdded(project, found.value, track);
    }
  }

  lemma NothingToSort()
    ensures SortClips([]) == []
  {
  }

  lemma TrackAdded(project: ProjectSnapshot, s: nat, track: Track)
    requires ValidContent(project) && project.nextId != MAX_ID && s < |project.sequences|
    requires track.id == project.nextId && track.clips == []
    ensures ValidContent(WithTracks(project.(nextId := project.nextId + 1), s, project.sequences[s].tracks + [track]))
            <==> ValidTrack(track, project.media)
  {
    hide RationalTime.Seconds, ValidTrack, ValidAsset, ValidText, ObjectIds, TrackIds, SequenceIds;
    var tracks := project.sequences[s].tracks + [track];
    var after := WithTracks(project.(nextId := project.nextId + 1), s, tracks);
    TrackIdsConcat(project.sequences[s].tracks, [track]);
    assert TrackIds([track]) == [track.id] by { OneTrackId(track); }
    TracksReplaced(project, after, s, tracks, [track.id]);
    ContentIdsStayGood(project, after, [track.id]);
    assert ValidSequence(project.sequences[s], project.media);
    assert tracks[|project.sequences[s].tracks|] == track;
    TracksChanged(project, after, s, tracks);
  }

  lemma OneTrackId(track: Track)
    requires track.clips == []
    ensures TrackIds([track]) == [track.id]
  {
  }

  /** Other tracks in one sequence bring no more IDs than those added. */
  lemma TracksReplaced(project: ProjectSnapshot, after: ProjectSnapshot, s: nat, tracks: seq<Track>, added: seq<uint64>)
    requires s < |project.sequences| && after.media == project.media
    requires after.sequences == project.sequences[s := project.sequences[s].(tracks := tracks)]
    requires multiset(TrackIds(tracks)) <= multiset(TrackIds(project.sequences[s].tracks)) + multiset(added)
    ensures multiset(ObjectIds(after)) <= multiset(ObjectIds(project)) + multiset(added)
  {
    hide TrackIds, SequenceIds, ObjectIds, MediaIds;
    SequenceIdsReplaced(project.sequences, s, tracks);
    Cancelled(multiset(SequenceIds(after.sequences)), multiset(TrackIds(project.sequences[s].tracks)),
              multiset(SequenceIds(project.sequences)), multiset(TrackIds(tracks)), multiset(added));
    ObjectsHead(project);
    ObjectsHead(after);
  }

  /** With good IDs, other tracks in one sequence are valid content exactly when each of them is valid. */
  lemma TracksChanged(project: ProjectSnapshot, after: ProjectSnapshot, s: nat, tracks: seq<Track>)
    requires ValidContent(project) && s < |project.sequences| && GoodIds(ObjectIds(after), after.nextId)
    requires after.sequences == project.sequences[s := project.sequences[s].(tracks := tracks)]
    requires after == project.(nextId := after.nextId, sequences := after.sequences) && after.nextId > 0
    ensures ValidContent(after) <==> forall t :: 0 <= t < |tracks| ==> ValidTrack(tracks[t], project.media)
  {
    hide RationalTime.Seconds, ValidTrack, ValidAsset, ValidText, ObjectIds, ValidOutput;
    assert ValidSequence(project.sequences[s], project.media);
    assert after.sequences[s].tracks == tracks;
    if forall t :: 0 <= t < |tracks| ==> ValidTrack(tracks[t], project.media) {
      forall i | 0 <= i < |after.sequences|
        ensures ValidSequence(after.sequences[i], after.media)
      {
        assert ValidSequence(project.sequences[i], project.media);
      }
    } else {
      assert !ValidSequence(after.sequences[s], after.media);
    }
  }

  // ----- changing structure

  /** An output is changed exactly when the sequence exists, frames last, both sides are even and within 2 to 3840 and
      2 to 2160, and the sound is stereo at 48 kHz; it is the only thing that changes. */
  lemma SetSequenceOutputMeans(project: ProjectSnapshot, sequence: uint64, frameDuration: Time, output: SequenceOutput)
    requires Valid(project)
    ensures var r := Apply(project, SetSequenceOutput(sequence, frameDuration, output));
            && (r.Some? <==>
                  && (exists s :: 0 <= s < |project.sequences| && project.sequences[s].id == sequence)
                  && frameDuration != Zero && 2 <= output.width <= 3840 && 2 <= output.height <= 2160
                  && output.width % 2 == 0 && output.height % 2 == 0
                  && output.sampleRate == 48000 && output.channels == 2)
            && (r.Some? ==>
                  var after := r.value.0;
                  && r.value.1 == CommandResult(None, None, None, None)
                  && after == project.(sequences := after.sequences) && |after.sequences| == |project.sequences|
                  && forall s :: 0 <= s < |project.sequences| ==>
                       var before := project.sequences[s];
                       after.sequences[s] == if before.id == sequence
                                             then before.(frameDuration := frameDuration, output := output)
                                             else before)
  {
    hide RationalTime.Seconds, Valid, ValidContent, SortClips, FindSequence, Distinct, ObjectIds;
    ValidImpliesContent(project);
    AllDiffer(project);
    var found := FindSequence(project.sequences, sequence);
    if found.Some? {
      SortedTracksStay(project);
      EditAccepted(project, SetSequenceOutput(sequence, frameDuration, output));
      OutputChanged(project, found.value, frameDuration, output);
      OnlySequence(project.sequences, found.value);
    }
  }

  lemma OnlySequence(sequences: seq<Sequence>, s: nat)
    requires Distinct(sequences) && s < |sequences|
    ensures forall i :: 0 <= i < |sequences| && i != s ==> sequences[i].id != sequences[s].id
  {
  }

  lemma OutputChanged(project: ProjectSnapshot, s: nat, frameDuration: Time, output: SequenceOutput)
    requires ValidContent(project) && s < |project.sequences|
    ensures var changed := project.sequences[s].(frameDuration := frameDuration, output := output);
            ValidContent(project.(sequences := project.sequences[s := changed])) <==>
              frameDuration != Zero && ValidOutput(output)
  {
    hide RationalTime.Seconds, ValidTrack, ValidAsset, ValidText, ObjectIds, SequenceIds, TrackIds, ValidOutput;
    var changed := project.sequences[s].(frameDuration := frameDuration, output := output);
    var after := project.(sequences := project.sequences[s := changed]);
    SameSequenceIds(project.sequences, s, changed);
    SameObjectIds(project, after);
    assert ValidSequence(project.sequences[s], project.media);
    assert after.sequences[s] == changed;
    if frameDuration != Zero && ValidOutput(output) {
      forall i | 0 <= i < |after.sequences|
        ensures ValidSequence(after.sequences[i], after.media)
      {
        assert ValidSequence(project.sequences[i], project.media);
      }
    } else {
      assert !ValidSequence(after.sequences[s], after.media);
    }
  }

  lemma {:induction false} SameSequenceIds(sequences: seq<Sequence>, s: nat, changed: Sequence)
    requires s < |sequences| && changed.id == sequences[s].id
    requires TrackIds(changed.tracks) == TrackIds(sequences[s].tracks)
    ensures SequenceIds(sequences[s := changed]) == SequenceIds(sequences)
    decreases s
  {
    hide TrackIds;
    var after := sequences[s := changed];
    if s == 0 {
      assert after[1..] == sequences[1..];
    } else {
      assert after[1..] == sequences[1..][s - 1 := changed];
      SameSequenceIds(sequences[1..], s - 1, changed);
    }
  }

  lemma SameObjectIds(project: ProjectSnapshot, after: ProjectSnapshot)
    requires SequenceIds(after.sequences) == SequenceIds(project.sequences) && after.media == project.media
    ensures ObjectIds(after) == ObjectIds(project)
  {
  }

  /** The playback of a track is changed exactly when the track exists and the gain is at most 4000 thousandths; it is
      the only thing that changes. */
  lemma SetTrackPlaybackMeans(project: ProjectSnapshot, track: uint64, playback: TrackPlayback)
    requires Valid(project)
    ensures var r := Apply(project, SetTrackPlayback(track, playback));
            && (r.Some? <==> FindTrack(project.sequences, track).Some? && playback.gainMilli <= 4000)
            && (r.Some? ==>
                  var after := r.value.0;
                  && r.value.1 == CommandResult(None, None, None, None)
                  && after == project.(sequences := after.sequences)
                  && |after.sequences| == |project.sequences|
                  && forall s :: 0 <= s < |project.sequences| ==>
                       PlaybackSet(project.sequences[s], after.sequences[s], track, playback))
  {
    hide RationalTime.Seconds, Valid, ValidContent, SortClips, FindTrack, Distinct, ObjectIds;
    ValidImpliesContent(project);
    AllDiffer(project);
    var found := FindTrack(project.sequences, track);
    if found.Some? {
      var (s, t) := (found.value.s, found.value.t);
      SortedTracksStay(project);
      EditAccepted(project, SetTrackPlayback(track, playback));
      PlaybackChanged(project, s, t, playback);
      OnlyTrack(project.sequences, s, t);
    }
  }

  /** A sequence in which the tracks of one ID have other playback settings, and nothing else differs. */
  ghost predicate PlaybackSet(before: Sequence, after: Sequence, track: uint64, playback: TrackPlayback) {
    && after == before.(tracks := after.tracks) && |after.tracks| == |before.tracks|
    && forall t :: 0 <= t < |before.tracks| ==>
         after.tracks[t] == if before.tracks[t].id == track then before.tracks[t].(playback := playback)
                            else before.tracks[t]
  }

  lemma OnlyTrack(sequences: seq<Sequence>, s: nat, t: nat)
    requires Distinct(sequences) && s < |sequences| && t < |sequences[s].tracks|
    ensures forall i, j :: 0 <= i < |sequences| && 0 <= j < |sequences[i].tracks| && (i != s || j != t) ==>
              sequences[i].tracks[j].id != sequences[s].tracks[t].id
  {
  }

  lemma PlaybackChanged(project: ProjectSnapshot, s: nat, t: nat, playback: TrackPlayback)
    requires ValidContent(project) && s < |project.sequences| && t < |project.sequences[s].tracks|
    ensures ValidContent(WithTrack(project, s, t, project.sequences[s].tracks[t].(playback := playback))) <==>
              playback.gainMilli <= 4000
  {
    hide RationalTime.Seconds, ValidClip, Ordered, ValidAsset, ValidText, ObjectIds, SequenceIds, TrackIds, ValidOutput;
    var tracks := project.sequences[s].tracks[t := project.sequences[s].tracks[t].(playback := playback)];
    var after := WithTracks(project, s, tracks);
    SameTrackIds(project.sequences[s].tracks, t, playback);
    SameSequenceIds(project.sequences, s, after.sequences[s]);
    SameObjectIds(project, after);
    IdsOfValid(project);
    ValidHere(project, s, t);
    TracksChanged(project, after, s, tracks);
    assert ValidSequence(project.sequences[s], project.media);
    assert tracks[t].playback == playback;
    forall i | 0 <= i < |tracks|
      ensures ValidTrack(project.sequences[s].tracks[i], project.media)
      ensures ValidTrack(tracks[i], project.media) <==> i != t || playback.gainMilli <= 4000
    {
    }
  }

  lemma {:induction false} SameTrackIds(tracks: seq<Track>, t: nat, playback: TrackPlayback)
    requires t < |tracks|
    ensures TrackIds(tracks[t := tracks[t].(playback := playback)]) == TrackIds(tracks)
    decreases t
  {
    hide ClipIds;
    var after := tracks[t := tracks[t].(playback := playback)];
    if t == 0 {
      assert after[1..] == tracks[1..];
    } else {
      assert after[1..] == tracks[1..][t - 1 := tracks[t].(playback := playback)];
      SameTrackIds(tracks[1..], t - 1, playback);
    }
  }

  /** A track is deleted, with its clips, exactly when it exists, and nothing else changes. */
  lemma DeleteTrackMeans(project: ProjectSnapshot, track: uint64)
    requires Valid(project)
    ensures var found := FindTrack(project.sequences, track);
            Apply(project, DeleteTrack(track)) ==
            if found.None? then None
            else
              var before := project.sequences[found.value.s];
              var rest := before.tracks[..found.value.t] + before.tracks[found.value.t + 1..];
              Some((project.(sequences := project.sequences[found.value.s := before.(tracks := rest)]),
                    CommandResult(None, None, None, None)))
  {
    hide RationalTime.Seconds, Valid, ValidContent, SortClips, FindTrack, ObjectIds;
    ValidImpliesContent(project);
    var found := FindTrack(project.sequences, track);
    if found.Some? {
      SortedTracksStay(project);
      EditAccepted(project, DeleteTrack(track));
      TrackGone(project, found.value.s, found.value.t);
    }
  }

  lemma TrackGone(project: ProjectSnapshot, s: nat, t: nat)
    requires ValidContent(project) && s < |project.sequences| && t < |project.sequences[s].tracks|
    ensures ValidContent(WithTracks(project, s, Without(project.sequences[s].tracks, t)))
  {
    hide RationalTime.Seconds, ValidTrack, ValidAsset, ValidText, ObjectIds, TrackIds;
    var tracks := project.sequences[s].tracks;
    var rest := Without(tracks, t);
    TrackIdsConcat(tracks[..t], tracks[t + 1..]);
    TrackIdsConcat(tracks[..t], [tracks[t]] + tracks[t + 1..]);
    TrackIdsConcat([tracks[t]], tracks[t + 1..]);
    assert tracks == tracks[..t] + ([tracks[t]] + tracks[t + 1..]);
    TracksKept(project, s, rest);
  }

  /** Fewer tracks, or the same in another order, are valid content. */
  lemma TracksKept(project: ProjectSnapshot, s: nat, tracks: seq<Track>)
    requires ValidContent(project) && s < |project.sequences|
    requires multiset(TrackIds(tracks)) <= multiset(TrackIds(project.sequences[s].tracks))
    requires forall track :: track in tracks ==> track in project.sequences[s].tracks
    ensures ValidContent(WithTracks(project, s, tracks))
  {
    hide RationalTime.Seconds, ValidTrack, ValidAsset, ValidText, ObjectIds, TrackIds;
    var after := WithTracks(project, s, tracks);
    TracksReplaced(project, after, s, tracks, []);
    ContentIdsStayGood(project, after, []);
    assert ValidSequence(project.sequences[s], project.media);
    TracksChanged(project, after, s, tracks);
    forall i | 0 <= i < |tracks|
      ensures ValidTrack(tracks[i], project.media)
    {
      assert tracks[i] in project.sequences[s].tracks;
    }
  }

  /** A reordering is accepted exactly when the sequence exists, has the track, and has that many tracks; what it does
      is said in `Orderings.ReorderMeans`. */
  lemma ReorderAccepted(project: ProjectSnapshot, sequence: uint64, track: uint64, index: nat)
    requires Valid(project)
    ensures Apply(project, ReorderTrack(sequence, track, index)).Some? <==>
            exists s :: && 0 <= s < |project.sequences| && project.sequences[s].id == sequence
                        && index < |project.sequences[s].tracks|
                        && exists t :: 0 <= t < |project.sequences[s].tracks|
                                       && project.sequences[s].tracks[t].id == track
  {
    hide RationalTime.Seconds, Valid, ValidContent, SortClips, FindSequence, TrackIn, ObjectIds, Distinct, Settled;
    hide Inserted, Without;
    ValidImpliesContent(project);
    AllDiffer(project);
    var found := FindSequence(project.sequences, sequence);
    if found.Some? {
      OnlySequence(project.sequences, found.value);
      var tracks := project.sequences[found.value].tracks;
      var place := TrackIn(tracks, track);
      if index < |tracks| && place.Some? {
        ContentIsSettled(project);
        ReorderedSettled(project, found.value, place.value, index);
        EditAccepted(project, ReorderTrack(sequence, track, index));
        TracksPermuted(project, found.value, place.value, index);
      }
    }
  }

  lemma ContentIsSettled(project: ProjectSnapshot)
    requires ValidContent(project)
    ensures Settled(project.sequences)
  {
    hide ValidContent, SortClips;
    SortedTracksStay(project);
  }

  lemma ReorderedSettled(project: ProjectSnapshot, s: nat, from: nat, to: nat)
    requires Settled(project.sequences) && s < |project.sequences|
    requires from < |project.sequences[s].tracks| && to < |project.sequences[s].tracks|
    ensures var tracks := project.sequences[s].tracks;
            Settled(WithTracks(project, s, Inserted(Without(tracks, from), to, tracks[from])).sequences)
  {
    hide SortClips;
    var tracks := project.sequences[s].tracks;
    var moved := Inserted(Without(tracks, from), to, tracks[from]);
    forall t | 0 <= t < |moved|
      ensures SortClips(moved[t].clips) == moved[t].clips
    {
      assert moved[t] in tracks;
    }
  }

  lemma TracksPermuted(project: ProjectSnapshot, s: nat, from: nat, to: nat)
    requires ValidContent(project) && s < |project.sequences|
    requires from < |project.sequences[s].tracks| && to < |project.sequences[s].tracks|
    ensures var tracks := project.sequences[s].tracks;
            ValidContent(WithTracks(project, s, Inserted(Without(tracks, from), to, tracks[from])))
  {
    hide RationalTime.Seconds, ValidContent, TrackIds;
    var tracks := project.sequences[s].tracks;
    var rest := Without(tracks, from);
    var moved := Inserted(rest, to, tracks[from]);
    TrackIdsConcat(tracks[..from], [tracks[from]] + tracks[from + 1..]);
    TrackIdsConcat([tracks[from]], tracks[from + 1..]);
    TrackIdsConcat(tracks[..from], tracks[from + 1..]);
    assert tracks == tracks[..from] + ([tracks[from]] + tracks[from + 1..]);
    TrackIdsConcat(rest[..to], [tracks[from]] + rest[to..]);
    TrackIdsConcat([tracks[from]], rest[to..]);
    TrackIdsConcat(rest[..to], rest[to..]);
    assert rest == rest[..to] + rest[to..];
    assert moved == rest[..to] + ([tracks[from]] + rest[to..]);
    var one := multiset(TrackIds([tracks[from]]));
    assert multiset(TrackIds(tracks)) == multiset(TrackIds(rest)) + one;
    assert multiset(TrackIds(moved)) == multiset(TrackIds(rest)) + one by {
      assert TrackIds(rest) == TrackIds(rest[..to]) + TrackIds(rest[to..]);
      assert TrackIds(moved) == TrackIds(rest[..to]) + (TrackIds([tracks[from]]) + TrackIds(rest[to..]));
    }
    assert forall track :: track in rest ==> track in tracks;
    TracksKept(project, s, moved);
  }

  // ----- media

  lemma {:induction false} FindAssetIn(media: seq<MediaAsset>, a: nat)
    requires a < |media| && forall i :: 0 <= i < a ==> media[i].id != media[a].id
    ensures FindAsset(media, media[a].id) == Some(a)
  {
    if a > 0 {
      FindAssetIn(media[1..], a - 1);
    }
  }

  /** An asset is registered exactly when an ID is left and it is a valid asset; it is the last one. */
  lemma RegisterMediaMeans(project: ProjectSnapshot, name: string, kind: MediaKind, duration: Time,
                           locations: seq<MediaLocation>, metadata: Option<SourceMetadata>)
    requires Valid(project)
    ensures var asset := MediaAsset(project.nextId, name, kind, duration, locations, metadata);
            Apply(project, RegisterMedia(name, kind, duration, locations, metadata)) ==
            if project.nextId == 0xffff_ffff_ffff_ffff || !ValidAsset(asset) then None
            else
              Some((project.(nextId := project.nextId + 1, media := project.media + [asset]),
                    CommandResult(None, None, Some(project.nextId), None)))
  {
    hide RationalTime.Seconds, Valid, ValidContent, SortClips, ValidAsset, ObjectIds;
    ValidImpliesContent(project);
    if project.nextId != MAX_ID {
      var asset := MediaAsset(project.nextId, name, kind, duration, locations, metadata);
      SortedTracksStay(project);
      EditAccepted(project, RegisterMedia(name, kind, duration, locations, metadata));
      AssetAdded(project, asset);
    }
  }

  lemma AssetAdded(project: ProjectSnapshot, asset: MediaAsset)
    requires ValidContent(project) && project.nextId != MAX_ID && asset.id == project.nextId
    ensures ValidContent(project.(nextId := project.nextId + 1, media := project.media + [asset])) <==>
              ValidAsset(asset)
  {
    hide RationalTime.Seconds, ValidSequence, ValidAsset, ValidText, SequenceIds;
    var after := project.(nextId := project.nextId + 1, media := project.media + [asset]);
    assert MediaIds(after.media) == MediaIds(project.media) + [asset.id];
    assert ObjectIds(project) == MediaIds(project.media) + SequenceIds(project.sequences);
    assert ObjectIds(after) == MediaIds(project.media) + [asset.id] + SequenceIds(project.sequences);
    ContentIdsStayGood(project, after, [asset.id]);
    assert after.media[|project.media|] == asset;
    if ValidAsset(asset) {
      forall i | 0 <= i < |after.media|
        ensures ValidAsset(after.media[i])
      {
        if i < |project.media| { assert after.media[i] == project.media[i]; }
      }
      forall i | 0 <= i < |after.sequences|
        ensures ValidSequence(after.sequences[i], after.media)
      {
        SameSequenceValid(project.sequences[i], project.media, after.media);
      }
    }
  }

  /** Adding assets leaves sequences valid. */
  lemma SameSequenceValid(sequence: Sequence, media: seq<MediaAsset>, more: seq<MediaAsset>)
    requires ValidSequence(sequence, media) && media <= more
    ensures ValidSequence(sequence, more)
  {
    hide RationalTime.Seconds, ValidText, ValidOutput, Ordered, ValidClip;
    forall t, k | 0 <= t < |sequence.tracks| && 0 <= k < |sequence.tracks[t].clips|
      ensures ValidClip(sequence.tracks[t].clips[k], more, sequence.tracks[t].kind)
    {
      assert ValidTrack(sequence.tracks[t], media);
      SameClipValid(sequence.tracks[t].clips[k], media, more, sequence.tracks[t].kind);
    }
    forall t | 0 <= t < |sequence.tracks|
      ensures ValidTrack(sequence.tracks[t], more)
    {
      assert ValidTrack(sequence.tracks[t], media);
    }
  }

  lemma SameClipValid(clip: Clip, media: seq<MediaAsset>, more: seq<MediaAsset>, kind: TrackKind)
    requires ValidClip(clip, media, kind) && media <= more
    ensures ValidClip(clip, more, kind)
  {
    hide RationalTime.Seconds, Plus, ValidRouting, Supports;
    FoundAgain(media, more, clip.media);
  }

  lemma {:induction false} FoundAgain(media: seq<MediaAsset>, more: seq<MediaAsset>, id: uint64)
    requires media <= more && FindAsset(media, id).Some?
    ensures FindAsset(more, id) == FindAsset(media, id)
  {
    if media[0].id != id {
      FoundAgain(media[1..], more[1..], id);
    }
  }

  /** Another asset under the same ID is valid content exactly when it is a valid asset and every clip of it still is a
      valid clip: with streams for its routing, and within the new duration. */
  lemma AssetReplaced(project: ProjectSnapshot, a: nat, asset: MediaAsset)
    requires ValidContent(project) && a < |project.media| && asset.id == project.media[a].id
    requires asset.kind == project.media[a].kind
    ensures ValidContent(project.(media := project.media[a := asset])) <==>
              ValidAsset(asset) && ClipsKeep(project.sequences, asset)
  {
    hide RationalTime.Seconds, ValidSequence, ValidAsset, ValidText, SequenceIds, UsesKeep, Distinct;
    var after := project.(media := project.media[a := asset]);
    assert MediaIds(after.media) == MediaIds(project.media);
    assert ObjectIds(after) == ObjectIds(project);
    AllDiffer(project);
    forall s | 0 <= s < |project.sequences|
      ensures ValidSequence(project.sequences[s], after.media) <==> UsesKeep(project.sequences[s], asset)
    {
      UsesDecide(project, s, a, asset);
    }
    assert after.media[a] == asset;
    if ValidAsset(asset) && ClipsKeep(project.sequences, asset) {
      forall i | 0 <= i < |after.media|
        ensures ValidAsset(after.media[i])
      {
        if i != a { assert after.media[i] == project.media[i]; }
      }
    }
  }

  /** The clips of an asset can be taken from it as it is now. */
  ghost predicate UsesKeep(sequence: Sequence, asset: MediaAsset) {
    forall t, k :: 0 <= t < |sequence.tracks| && 0 <= k < |sequence.tracks[t].clips| ==>
      var clip := sequence.tracks[t].clips[k];
      clip.media == asset.id ==>
        && ValidRouting(clip.routing, asset, sequence.tracks[t].kind)
        && clip.source.start.Seconds() + clip.source.duration.Seconds() <= asset.duration.Seconds()
  }

  ghost predicate ClipsKeep(sequences: seq<Sequence>, asset: MediaAsset) {
    forall s :: 0 <= s < |sequences| ==> UsesKeep(sequences[s], asset)
  }

  lemma UsesDecide(project: ProjectSnapshot, s: nat, a: nat, asset: MediaAsset)
    requires ValidContent(project) && s < |project.sequences| && a < |project.media|
    requires asset.id == project.media[a].id && asset.kind == project.media[a].kind
    requires forall i, j :: 0 <= i < j < |project.media| ==> project.media[i].id != project.media[j].id
    ensures ValidSequence(project.sequences[s], project.media[a := asset]) <==> UsesKeep(project.sequences[s], asset)
  {
    hide RationalTime.Seconds, ValidAsset, ValidText, ObjectIds, ValidOutput, Ordered, ValidRouting, ValidClip;
    var sequence, media := project.sequences[s], project.media[a := asset];
    assert ValidSequence(sequence, project.media);
    forall t, k | 0 <= t < |sequence.tracks| && 0 <= k < |sequence.tracks[t].clips|
      ensures var clip, kind := sequence.tracks[t].clips[k], sequence.tracks[t].kind;
              ValidClip(clip, media, kind) <==>
                (clip.media == asset.id ==>
                   && ValidRouting(clip.routing, asset, kind)
                   && clip.source.start.Seconds() + clip.source.duration.Seconds() <= asset.duration.Seconds())
    {
      assert ValidTrack(sequence.tracks[t], project.media);
      ClipDecides(sequence.tracks[t].clips[k], project.media, sequence.tracks[t].kind, a, asset);
    }
    forall t | 0 <= t < |sequence.tracks|
      ensures ValidTrack(sequence.tracks[t], media) <==>
              forall k :: 0 <= k < |sequence.tracks[t].clips| ==>
                ValidClip(sequence.tracks[t].clips[k], media, sequence.tracks[t].kind)
    {
      assert ValidTrack(sequence.tracks[t], project.media);
    }
  }

  lemma ClipDecides(clip: Clip, media: seq<MediaAsset>, kind: TrackKind, a: nat, asset: MediaAsset)
    requires ValidClip(clip, media, kind) && a < |media|
    requires asset.id == media[a].id && asset.kind == media[a].kind
    requires forall i, j :: 0 <= i < j < |media| ==> media[i].id != media[j].id
    ensures ValidClip(clip, media[a := asset], kind) <==>
            (clip.media == asset.id ==>
               && ValidRouting(clip.routing, asset, kind)
               && clip.source.start.Seconds() + clip.source.duration.Seconds() <= asset.duration.Seconds())
  {
    hide RationalTime.Seconds, ValidRouting, Supports, FindAsset;
    var found := FindAsset(media, clip.media).value;
    var after := media[a := asset];
    forall i, j | 0 <= i < j < |after|
      ensures after[i].id != after[j].id
    {
      assert after[i].id == media[i].id && after[j].id == media[j].id;
    }
    FindAssetIn(after, found);
  }

  /** The metadata an asset gets from a new file: as probed, but with the time convention the asset had. */
  function Renewed(asset: MediaAsset, source: SourceMetadata): SourceMetadata {
    match asset.source
    case None => source
    case Some(before) => source.(timeMode := before.timeMode)
  }

  /** Exactly one location in a role, or none; the others as they were. */
  ghost predicate LocatedOnly(before: seq<MediaLocation>, after: seq<MediaLocation>, role: LocationRole,
                              uri: Option<string>)
  {
    && (forall l: MediaLocation :: l.role != role ==> (l in after <==> l in before))
    && (forall l: MediaLocation :: l.role == role ==> (l in after <==> uri == Some(l.uri)))
  }

  /** A project in which one asset became another, and nothing else changed. */
  ghost predicate OneAsset(before: ProjectSnapshot, after: ProjectSnapshot, a: nat, asset: MediaAsset) {
    && a < |before.media| == |after.media| && after == before.(media := after.media) && after.media[a] == asset
    && forall i :: 0 <= i < |before.media| && i != a ==> after.media[i] == before.media[i]
  }

  lemma LocatedTexts(before: seq<MediaLocation>, role: LocationRole, uri: string)
    requires forall i :: 0 <= i < |before| ==> ValidText(before[i].uri)
    requires forall i, j :: 0 <= i < j < |before| ==> before[i].role != before[j].role
    ensures var after := Located(before, role, uri);
            && (forall i, j :: 0 <= i < j < |after| ==> after[i].role != after[j].role)
            && ((forall i :: 0 <= i < |after| ==> ValidText(after[i].uri)) <==> ValidText(uri))
            && (exists i :: 0 <= i < |after| && after[i].role == role)
  {
    hide ValidText, LocationIn;
    LocationFound(before, role);
    var found, after := LocationIn(before, role), Located(before, role, uri);
    var place := if found.None? then |before| else found.value;
    assert after[place] == MediaLocation(role, uri);
  }

  /** What an asset becomes when its original file is replaced: the same asset at the new place, with the new probe data
      and the duration that follows from them. */
  ghost predicate ReplacedBy(before: MediaAsset, after: MediaAsset, uri: string, source: SourceMetadata) {
    && after.id == before.id && after.name == before.name && after.kind == before.kind
    && after.source == Some(Renewed(before, source)) && SourceDuration(Renewed(before, source)) == Some(after.duration)
    && LocatedOnly(before.locations, after.locations, Original, Some(uri))
  }

  /** The file may replace the original of an asset: it was probed well, is of the same kind, does not lose the shared
      clock, has a duration, is named by a text, and every clip of the asset can be taken from it. */
  ghost predicate Replaceable(project: ProjectSnapshot, a: nat, uri: string, source: SourceMetadata) {
    && a < |project.media|
    && var before := project.media[a];
       && ValidSource(source) && SourceKind(source) == Some(before.kind)
       && (before.source.Some? && before.source.value.timeMode == SharedOrigin ==> source.timeMode == SharedOrigin)
       && ValidText(uri) && SourceDuration(Renewed(before, source)).Some?
       && ClipsKeep(project.sequences, before.(source := Some(Renewed(before, source)),
                                               duration := SourceDuration(Renewed(before, source)).value))
  }

  /** When replacing the original file is accepted, what the asset becomes, and that nothing else changes. */
  lemma ReplaceMediaSourceMeans(project: ProjectSnapshot, media: uint64, uri: string, source: SourceMetadata)
    requires Valid(project)
    ensures var r := Apply(project, ReplaceMediaSource(media, uri, source));
            && (r.Some? <==>
                  exists a :: 0 <= a < |project.media| && project.media[a].id == media
                              && Replaceable(project, a, uri, source))
            && (r.Some? ==>
                  && r.value.1 == CommandResult(None, None, Some(media), None)
                  && exists a, asset :: 0 <= a < |project.media| && project.media[a].id == media
                                        && OneAsset(project, r.value.0, a, asset)
                                        && ReplacedBy(project.media[a], asset, uri, source))
  {
    hide RationalTime.Seconds, Valid, ValidContent, SortClips, FindAsset, Replaceable, ReplacedBy, ReplacedAsset;
    hide Distinct, ValidSource, OneAsset;
    ValidImpliesContent(project);
    AllDiffer(project);
    var found := FindAsset(project.media, media);
    if found.Some? {
      var a := found.value;
      var command := ReplaceMediaSource(media, uri, source);
      var replaced := ReplacedAsset(project.media[a], uri, source);
      ReplacementDecides(project, a, uri, source);
      if ValidSource(source) && replaced.Some? {
        SortedTracksStay(project);
        EditAccepted(project, command);
        OneAssetChanged(project, a, replaced.value);
      }
    }
  }

  lemma OneAssetChanged(project: ProjectSnapshot, a: nat, asset: MediaAsset)
    requires a < |project.media|
    ensures OneAsset(project, project.(media := project.media[a := asset]), a, asset)
  {
  }

  lemma ReplacementDecides(project: ProjectSnapshot, a: nat, uri: string, source: SourceMetadata)
    requires ValidContent(project) && a < |project.media|
    ensures var replaced := ReplacedAsset(project.media[a], uri, source);
            && (replaced.Some? ==> ReplacedBy(project.media[a], replaced.value, uri, source))
            && (Replaceable(project, a, uri, source) <==>
                  && ValidSource(source) && replaced.Some?
                  && ValidContent(project.(media := project.media[a := replaced.value])))
  {
    hide RationalTime.Seconds, ValidContent, ValidText, SourceDuration, SourceKind, Located, ClipsKeep, ValidSource;
    var before := project.media[a];
    assert ValidAsset(before) by { AssetOfContent(project, a); }
    var replaced := ReplacedAsset(before, uri, source);
    if replaced.Some? {
      RelinkMeans(before, Original, Some(uri));
      if ValidSource(source) {
        AssetReplaced(project, a, replaced.value);
        ReplacedIsValid(before, uri, source);
        SameUses(project.sequences, replaced.value, before.(source := replaced.value.source,
                                                            duration := replaced.value.duration));
      }
    }
  }

  lemma AssetOfContent(project: ProjectSnapshot, a: nat)
    requires ValidContent(project) && a < |project.media|
    ensures ValidAsset(project.media[a])
  {
    hide ValidAsset, ValidSequence;
  }

  lemma ReplacedIsValid(before: MediaAsset, uri: string, source: SourceMetadata)
    requires ValidAsset(before) && ValidSource(source) && ReplacedAsset(before, uri, source).Some?
    ensures ValidAsset(ReplacedAsset(before, uri, source).value) <==> ValidText(uri)
  {
    hide RationalTime.Seconds, ValidText, ValidStream, SourceDuration, Located;
    LocatedTexts(before.locations, Original, uri);
    RenewedIsValid(before, source);
  }

  lemma RenewedIsValid(before: MediaAsset, source: SourceMetadata)
    requires ValidSource(source) && SourceDuration(Renewed(before, source)).Some?
    ensures ValidSource(Renewed(before, source)) && SourceKind(Renewed(before, source)) == SourceKind(source)
    ensures SourceDuration(Renewed(before, source)).value != Zero
  {
    hide RationalTime.Seconds, ValidText, ValidStream, StreamReach;
    var renewed := Renewed(before, source);
    hide SourceDuration;
    DurationIsReach(renewed);
  }

  lemma DurationIsReach(source: SourceMetadata)
    ensures SourceDuration(source).Some? ==> SourceDuration(source).value != Zero
  {
    hide RationalTime.Seconds, StreamReach;
    ExtremeIsExtreme(Reaches(source), source.timeMode == SharedOrigin);
  }

  /** Clips depend on the source and the duration of their asset only. */
  lemma SameUses(sequences: seq<Sequence>, a: MediaAsset, b: MediaAsset)
    requires a.id == b.id && a.source == b.source && a.duration == b.duration
    ensures ClipsKeep(sequences, a) <==> ClipsKeep(sequences, b)
  {
    hide RationalTime.Seconds, ValidRouting;
    forall routing: ClipRouting, kind: TrackKind
      ensures ValidRouting(routing, a, kind) == ValidRouting(routing, b, kind)
    {
      SameRouting(routing, a, b, kind);
    }
  }

  lemma SameRouting(routing: ClipRouting, a: MediaAsset, b: MediaAsset, kind: TrackKind)
    requires a.source == b.source
    ensures ValidRouting(routing, a, kind) == ValidRouting(routing, b, kind)
  {
  }

  /** When relinking an asset is accepted, what the asset becomes, and that nothing else changes. */
  lemma RelinkMediaMeans(project: ProjectSnapshot, media: uint64, role: LocationRole, uri: Option<string>)
    requires Valid(project)
    ensures var r := Apply(project, RelinkMedia(media, role, uri));
            && (r.Some? <==>
                  exists a :: 0 <= a < |project.media| && project.media[a].id == media
                              && (uri.Some? ==> ValidText(uri.value))
                              && (role == Original ==>
                                    ClipsKeep(project.sequences, project.media[a].(source := None))))
            && (r.Some? ==>
                  && r.value.1 == CommandResult(None, None, None, None)
                  && exists a, asset :: 0 <= a < |project.media| && project.media[a].id == media
                                        && OneAsset(project, r.value.0, a, asset)
                                        && RelinkedTo(project.media[a], asset, role, uri))
  {
    hide RationalTime.Seconds, Valid, ValidContent, SortClips, FindAsset, RelinkedTo, RelinkedAsset;
    hide Distinct, OneAsset, ClipsKeep, ValidText;
    ValidImpliesContent(project);
    AllDiffer(project);
    var found := FindAsset(project.media, media);
    if found.Some? {
      var a := found.value;
      SortedTracksStay(project);
      EditAccepted(project, RelinkMedia(media, role, uri));
      RelinkDecides(project, a, role, uri);
      OneAssetChanged(project, a, RelinkedAsset(project.media[a], role, uri));
    }
  }

  /** What a relinked asset is: the same one with another location in one role, unverified without its original. */
  ghost predicate RelinkedTo(before: MediaAsset, after: MediaAsset, role: LocationRole, uri: Option<string>) {
    && after == before.(locations := after.locations, source := if role == Original then None else before.source)
    && LocatedOnly(before.locations, after.locations, role, uri)
  }

  lemma RolesDiffer(asset: MediaAsset)
    requires ValidAsset(asset)
    ensures forall i, j :: 0 <= i < j < |asset.locations| ==> asset.locations[i].role != asset.locations[j].role
  {
    hide RationalTime.Seconds, ValidText, SourceDuration, SourceKind, ValidSource;
  }

  lemma RelinkedParts(before: MediaAsset, role: LocationRole, uri: Option<string>)
    ensures var after := RelinkedAsset(before, role, uri);
            && after.id == before.id && after.kind == before.kind && after.duration == before.duration
            && after.source == if role == Original then None else before.source
  {
    hide Located, Unlocated;
  }

  lemma RelinkIsMeant(before: MediaAsset, role: LocationRole, uri: Option<string>)
    requires ValidAsset(before)
    ensures RelinkedTo(before, RelinkedAsset(before, role, uri), role, uri)
  {
    hide ValidAsset, RelinkedAsset;
    RolesDiffer(before);
    RelinkMeans(before, role, uri);
  }

  lemma RelinkDecides(project: ProjectSnapshot, a: nat, role: LocationRole, uri: Option<string>)
    requires ValidContent(project) && a < |project.media|
    ensures var after := RelinkedAsset(project.media[a], role, uri);
            && RelinkedTo(project.media[a], after, role, uri)
            && (ValidContent(project.(media := project.media[a := after])) <==>
                  && (uri.Some? ==> ValidText(uri.value))
                  && (role == Original ==> ClipsKeep(project.sequences, project.media[a].(source := None))))
  {
    hide RationalTime.Seconds, ValidContent, ValidText, ClipsKeep, ValidAsset, RelinkedAsset, RelinkedTo;
    var before := project.media[a];
    var after := RelinkedAsset(before, role, uri);
    AssetOfContent(project, a);
    RelinkedParts(before, role, uri);
    RelinkIsMeant(before, role, uri);
    RelinkedIsValid(before, role, uri);
    AssetReplaced(project, a, after);
    AssetReplaced(project, a, before);
    assert project.media[a := before] == project.media;
    SameUses(project.sequences, after, if role == Original then before.(source := None) else before);
  }

  lemma RelinkedIsValid(before: MediaAsset, role: LocationRole, uri: Option<string>)
    requires ValidAsset(before)
    ensures ValidAsset(RelinkedAsset(before, role, uri)) <==> (uri.Some? ==> ValidText(uri.value))
  {
    hide RationalTime.Seconds, ValidText, SourceDuration, SourceKind, ValidSource, Located, Unlocated;
    RelinkMeans(before, role, uri);
    if uri.Some? {
      LocatedTexts(before.locations, role, uri.value);
      KeepsOriginal(before.locations, Located(before.locations, role, uri.value), role);
    } else {
      UnlocatedTexts(before.locations, role);
      KeepsOriginal(before.locations, Unlocated(before.locations, role), role);
    }
  }

  lemma KeepsOriginal(before: seq<MediaLocation>, after: seq<MediaLocation>, role: LocationRole)
    requires forall l: MediaLocation :: l.role != role ==> (l in after <==> l in before)
    ensures role != Original ==>
              ((exists i :: 0 <= i < |after| && after[i].role == Original) <==>
                 (exists i :: 0 <= i < |before| && before[i].role == Original))
  {
    if role != Original {
      if i :| 0 <= i < |after| && after[i].role == Original { assert after[i] in before; }
      if i :| 0 <= i < |before| && before[i].role == Original { assert before[i] in after; }
    }
  }

  lemma UnlocatedTexts(before: seq<MediaLocation>, role: LocationRole)
    requires forall i :: 0 <= i < |before| ==> ValidText(before[i].uri)
    requires forall i, j :: 0 <= i < j < |before| ==> before[i].role != before[j].role
    ensures var after := Unlocated(before, role);
            && (forall i, j :: 0 <= i < j < |after| ==> after[i].role != after[j].role)
            && (forall i :: 0 <= i < |after| ==> ValidText(after[i].uri))
  {
    hide ValidText, LocationIn;
  }
}
