/**
 What the order of clips and tracks is after an edit: `sort_tracks` and the reordering of tracks
 (`src/commands/editor.cpp`).
 */
module Orderings {
  import opened Wrappers
  import opened RationalTimes
  import opened Model
  import opened SequencePlans
  import opened PlanBuilder
  import opened Commands
  import opened SplitPlayback

  // ----- sorting clips

  /** No clip stands before one that is less than it. */
  ghost predicate InOrder(clips: seq<Clip>) {
    forall i, j :: 0 <= i < j < |clips| ==> !ClipLess(clips[j], clips[i])
  }

  lemma ClipOrder(a: Clip, b: Clip, c: Clip)
    ensures ClipLess(a, b) && ClipLess(b, c) ==> ClipLess(a, c)
    ensures !(ClipLess(a, b) && ClipLess(b, a))
    ensures ClipLess(a, b) || ClipLess(b, a) || a.id == b.id
  {
    EqualIffSameInstant(a.position, b.position);
    EqualIffSameInstant(b.position, c.position);
    EqualIffSameInstant(a.position, c.position);
    hide RationalTime.Seconds;
  }

  lemma {:induction false} InsertKeepsOrder(clips: seq<Clip>, clip: Clip)
    requires InOrder(clips)
    ensures multiset(InsertSorted(clips, clip)) == multiset(clips) + multiset{clip}
    ensures InOrder(InsertSorted(clips, clip))
  {
    hide ClipLess;
    if clips == [] || ClipLess(clip, clips[0]) {
      LessThanAll(clips, clip);
    } else {
      assert clips == [clips[0]] + clips[1..];
      InsertKeepsOrder(clips[1..], clip);
      var rest := InsertSorted(clips[1..], clip);
      forall j | 0 <= j < |rest|
        ensures !ClipLess(rest[j], clips[0])
      {
        assert rest[j] in multiset(rest);
        if rest[j] != clip {
          assert rest[j] in multiset(clips[1..]);
          var i :| 0 <= i < |clips[1..]| && clips[1..][i] == rest[j];
          assert clips[i + 1] == rest[j];
        }
      }
    }
  }

  /**
   A clip less than the first of an ordered list is less than all of it, so nothing in the list is less than
   the clip.
   */
  lemma LessThanAll(clips: seq<Clip>, clip: Clip)
    requires InOrder(clips) && (clips != [] ==> ClipLess(clip, clips[0]))
    ensures InOrder([clip] + clips)
  {
    hide ClipLess;
    forall j | 0 <= j < |clips|
      ensures !ClipLess(clips[j], clip)
    {
      ClipOrder(clips[j], clip, clips[0]);
    }
    var all := [clip] + clips;
    forall i, j | 0 <= i < j < |all|
      ensures !ClipLess(all[j], all[i])
    {
      assert all[j] == clips[j - 1];
      if i > 0 { assert all[i] == clips[i - 1]; }
    }
  }

  /** Sorting any list of clips orders them by position, then by ID, and keeps each exactly once. */
  lemma {:induction false} SortOrders(clips: seq<Clip>)
    ensures InOrder(SortClips(clips)) && multiset(SortClips(clips)) == multiset(clips)
  {
    hide ClipLess, InsertSorted;
    if clips != [] {
      var n := |clips| - 1;
      SortOrders(clips[..n]);
      assert clips == clips[..n] + [clips[n]];
      InsertKeepsOrder(SortClips(clips[..n]), clips[n]);
    }
  }

  ghost predicate DistinctClips(clips: seq<Clip>) {
    forall i, j :: 0 <= i < j < |clips| ==> clips[i].id != clips[j].id
  }

  /** Clips with distinct IDs have one order only, so every correct sort returns what `SortClips` does. */
  lemma SortIsUnique(clips: seq<Clip>, sorted: seq<Clip>)
    requires DistinctClips(clips) && multiset(sorted) == multiset(clips) && InOrder(sorted)
    ensures sorted == SortClips(clips)
  {
    hide ClipLess, SortClips;
    SortOrders(clips);
    AgainDistinct(clips, sorted);
    AgainDistinct(clips, SortClips(clips));
    OneOrder(sorted, SortClips(clips));
  }

  lemma AgainDistinct(clips: seq<Clip>, sorted: seq<Clip>)
    requires DistinctClips(clips) && multiset(sorted) == multiset(clips)
    ensures DistinctClips(sorted)
  {
    forall i, j | 0 <= i < j < |sorted|
      ensures sorted[i].id != sorted[j].id
    {
      assert sorted[i] in multiset(sorted) && sorted[j] in multiset(sorted);
      if sorted[i].id == sorted[j].id {
        SameIdSameClip(clips, sorted[i], sorted[j]);
        Twice(sorted, i, j);
        Once(clips, sorted[i]);
      }
    }
  }

  lemma SameIdSameClip(clips: seq<Clip>, a: Clip, b: Clip)
    requires DistinctClips(clips) && a in multiset(clips) && b in multiset(clips) && a.id == b.id
    ensures a == b
  {
    var m := PlaceIn(clips, a);
    var n := PlaceIn(clips, b);
  }

  lemma PlaceIn(clips: seq<Clip>, clip: Clip) returns (m: nat)
    requires clip in multiset(clips)
    ensures m < |clips| && clips[m] == clip
  {
    m :| 0 <= m < |clips| && clips[m] == clip;
  }

  lemma Twice(clips: seq<Clip>, i: nat, j: nat)
    requires i < j < |clips| && clips[i] == clips[j]
    ensures multiset(clips)[clips[i]] >= 2
  {
    assert clips == clips[..j] + [clips[j]] + clips[j + 1..];
    assert clips[..j][i] == clips[i];
    assert clips[i] in multiset(clips[..j]);
  }

  lemma {:induction false} Once(clips: seq<Clip>, clip: Clip)
    requires DistinctClips(clips)
    ensures multiset(clips)[clip] <= 1
  {
    if clips != [] {
      assert clips == [clips[0]] + clips[1..];
      Once(clips[1..], clip);
      if clip == clips[0] && clip in multiset(clips[1..]) {
        var m := PlaceIn(clips[1..], clip);
      }
    }
  }

  lemma FirstsAgree(a: seq<Clip>, b: seq<Clip>)
    requires DistinctClips(a) && multiset(a) == multiset(b) && InOrder(a) && InOrder(b) && a != [] && b != []
    ensures a[0] == b[0]
  {
    hide ClipLess;
    assert a[0] in multiset(a) && b[0] in multiset(b);
    var m := PlaceIn(b, a[0]);
    var n := PlaceIn(a, b[0]);
    assert m > 0 ==> !ClipLess(b[m], b[0]);
    assert n > 0 ==> !ClipLess(a[n], a[0]);
    ClipOrder(a[0], b[0], a[0]);
    if a[0].id == b[0].id { SameIdSameClip(a, a[0], b[0]); }
  }

  lemma TailInOrder(clips: seq<Clip>)
    requires DistinctClips(clips) && InOrder(clips) && clips != []
    ensures DistinctClips(clips[1..]) && InOrder(clips[1..])
    ensures multiset(clips[1..]) == multiset(clips) - multiset{clips[0]}
  {
    hide ClipLess;
    assert clips == [clips[0]] + clips[1..];
  }

  lemma {:induction false} OneOrder(a: seq<Clip>, b: seq<Clip>)
    requires DistinctClips(a) && DistinctClips(b) && multiset(a) == multiset(b) && InOrder(a) && InOrder(b)
    ensures a == b
  {
    hide ClipLess, DistinctClips, InOrder;
    assert |a| == |multiset(a)| == |multiset(b)| == |b|;
    if a != [] {
      FirstsAgree(a, b);
      TailInOrder(a);
      TailInOrder(b);
      OneOrder(a[1..], b[1..]);
      assert a == [a[0]] + a[1..] && b == [b[0]] + b[1..];
    }
  }

  /** In a valid project every track already is in the order sorting gives. */
  lemma ValidIsInOrder(project: ProjectSnapshot, s: nat, t: nat)
    requires ValidContent(project) && s < |project.sequences| && t < |project.sequences[s].tracks|
    ensures InOrder(project.sequences[s].tracks[t].clips) && DistinctClips(project.sequences[s].tracks[t].clips)
  {
    hide RationalTime.Seconds, ValidContent, SortClips, ClipLess;
    ValidTrackAscending(project, s, t);
    SortKeepsAscending(project.sequences[s].tracks[t].clips);
    SortOrders(project.sequences[s].tracks[t].clips);
    ClipIdentitiesDistinct(project, s, t);
  }

  // ----- reordering tracks

  /** Where the track at `i` stands once the one at `from` has been moved to `to`. */
  function MovedIndex(i: nat, from: nat, to: nat): nat {
    if i == from then to
    else
      var closed := if i < from then i else i - 1;
      if closed < to then closed else closed + 1
  }

  lemma MovedItems<T>(items: seq<T>, from: nat, to: nat)
    requires from < |items| && to < |items|
    ensures var moved := Inserted(Without(items, from), to, items[from]);
            |moved| == |items| && multiset(moved) == multiset(items) && Moved(items, moved, from, to)
  {
    hide Inserted, Moved, MovedIndex;
    SamePieces(items, from);
    MovedBack(items, from, to);
    SamePieces(Inserted(Without(items, from), to, items[from]), to);
    ItemsMove(items, from, to);
  }

  lemma ItemsMove<T>(items: seq<T>, from: nat, to: nat)
    requires from < |items| && to < |items|
    ensures Moved(items, Inserted(Without(items, from), to, items[from]), from, to)
  {
  }

  lemma SamePieces<T>(items: seq<T>, k: nat)
    requires k < |items|
    ensures multiset(items) == multiset(Without(items, k)) + multiset{items[k]}
  {
    assert items == items[..k] + [items[k]] + items[k + 1..];
  }

  /** Moving the item back restores the list. */
  lemma MovedBack<T>(items: seq<T>, from: nat, to: nat)
    requires from < |items| && to < |items|
    ensures var moved := Inserted(Without(items, from), to, items[from]);
            && |moved| == |items| && moved[to] == items[from] && Without(moved, to) == Without(items, from)
            && Inserted(Without(moved, to), from, moved[to]) == items
  {
    var rest := Without(items, from);
    var moved := Inserted(rest, to, items[from]);
    assert rest == rest[..to] + rest[to..];
    assert Without(moved, to) == rest;
    assert items == items[..from] + [items[from]] + items[from + 1..];
    assert rest[..from] == items[..from] && rest[from..] == items[from + 1..];
  }

  /** Two other tracks keep their relative order, and no place is taken twice. */
  lemma OthersKeepOrder(i: nat, j: nat, from: nat, to: nat)
    requires i < j
    ensures i != from && j != from ==> MovedIndex(i, from, to) < MovedIndex(j, from, to)
    ensures MovedIndex(i, from, to) != MovedIndex(j, from, to)
  {
  }

  /** What reordering does to the tracks of its sequence, and that it does nothing else. */
  ghost predicate Reordered(project: ProjectSnapshot, after: ProjectSnapshot, s: nat, track: uint64, index: nat)
    requires s < |project.sequences|
  {
    && |after.sequences| == |project.sequences| && after == project.(sequences := after.sequences)
    && (forall i :: 0 <= i < |project.sequences| && i != s ==> after.sequences[i] == project.sequences[i])
    && after.sequences[s] == project.sequences[s].(tracks := after.sequences[s].tracks)
    && var before, tracks := project.sequences[s].tracks, after.sequences[s].tracks;
       && multiset(tracks) == multiset(before) && index < |tracks| == |before| && tracks[index].id == track
       && exists from :: 0 <= from < |before| && before[from].id == track && Moved(before, tracks, from, index)
  }

  ghost predicate Moved<T>(before: seq<T>, after: seq<T>, from: nat, to: nat) {
    forall i :: 0 <= i < |before| ==> MovedIndex(i, from, to) < |after| && after[MovedIndex(i, from, to)] == before[i]
  }

  /**
   An accepted reordering puts the track at the index asked for; the tracks of its sequence are permuted,
   the others keep their relative order, and every other sequence, the media and the clips stay.
   */
  lemma ReorderMeans(project: ProjectSnapshot, sequence: uint64, track: uint64, index: nat)
    requires Valid(project) && Apply(project, ReorderTrack(sequence, track, index)).Some?
    ensures FindSequence(project.sequences, sequence).Some?
    ensures Reordered(project, Apply(project, ReorderTrack(sequence, track, index)).value.0,
                      FindSequence(project.sequences, sequence).value, track, index)
  {
    hide Valid, SortClips, SortTracks, SortSequences, Moved, TrackIn, FindSequence, Without, Inserted;
    var s := FindSequence(project.sequences, sequence).value;
    var tracks := project.sequences[s].tracks;
    var from := TrackIn(tracks, track).value;
    ReorderedSequences(project, sequence, track, index);
    MovedItems(tracks, from, index);
    MovedBack(tracks, from, index);
  }

  /** The tracks of a reordered sequence, which sorting leaves as they are. */
  lemma ReorderedSequences(project: ProjectSnapshot, sequence: uint64, track: uint64, index: nat)
    requires Valid(project) && Apply(project, ReorderTrack(sequence, track, index)).Some?
    ensures FindSequence(project.sequences, sequence).Some?
    ensures var s := FindSequence(project.sequences, sequence).value;
            var tracks := project.sequences[s].tracks;
            && TrackIn(tracks, track).Some? && index < |tracks|
            && var from := TrackIn(tracks, track).value;
               Apply(project, ReorderTrack(sequence, track, index))
               == Some((WithTracks(project, s, Inserted(Without(tracks, from), index, tracks[from])), NOTHING))
  {
    hide Valid, ValidContent, SortClips, TrackIn, FindSequence;
    var s := FindSequence(project.sequences, sequence).value;
    var tracks := project.sequences[s].tracks;
    var from := TrackIn(tracks, track).value;
    ValidImpliesContent(project);
    SortedTracksStay(project);
    var moved := Inserted(Without(tracks, from), index, tracks[from]);
    assert SortTracks(moved) == moved;
    SortingStays(project, s, moved);
  }

  lemma SortingStays(project: ProjectSnapshot, s: nat, tracks: seq<Track>)
    requires s < |project.sequences| && SortTracks(tracks) == tracks
    requires forall s, t :: 0 <= s < |project.sequences| && 0 <= t < |project.sequences[s].tracks| ==>
               SortClips(project.sequences[s].tracks[t].clips) == project.sequences[s].tracks[t].clips
    ensures SortSequences(WithTracks(project, s, tracks).sequences) == WithTracks(project, s, tracks).sequences
  {
    hide SortClips;
    var all := WithTracks(project, s, tracks).sequences;
    forall i | 0 <= i < |all|
      ensures SortTracks(all[i].tracks) == all[i].tracks
    {
    }
  }

  // ----- taking a reordering back

  lemma {:induction false} TrackIdAt(tracks: seq<Track>, t: nat) returns (o: nat)
    requires t < |tracks|
    ensures o < |TrackIds(tracks)| && TrackIds(tracks)[o] == tracks[t].id
    decreases t
  {
    if t == 0 {
      o := 0;
    } else {
      var rest := TrackIdAt(tracks[1..], t - 1);
      o := 1 + |tracks[0].clips| + rest;
    }
  }

  lemma {:induction false} TrackIdsApart(tracks: seq<Track>, i: nat, j: nat)
    requires NoDuplicates(TrackIds(tracks)) && i < j < |tracks|
    ensures tracks[i].id != tracks[j].id
    decreases i
  {
    var rest := TrackIds(tracks[1..]);
    if i == 0 {
      var o := TrackIdAt(tracks[1..], j - 1);
      assert TrackIds(tracks)[0] == tracks[0].id && TrackIds(tracks)[1 + |tracks[0].clips| + o] == rest[o];
    } else {
      forall a, b | 0 <= a < b < |rest|
        ensures rest[a] != rest[b]
      {
        assert TrackIds(tracks)[1 + |tracks[0].clips| + a] == rest[a];
        assert TrackIds(tracks)[1 + |tracks[0].clips| + b] == rest[b];
      }
      TrackIdsApart(tracks[1..], i - 1, j - 1);
    }
  }

  lemma TracksApart(project: ProjectSnapshot, s: nat, i: nat, j: nat)
    requires ValidContent(project) && s < |project.sequences| && i < j < |project.sequences[s].tracks|
    ensures project.sequences[s].tracks[i].id != project.sequences[s].tracks[j].id
  {
    hide ValidSequence, ValidAsset, TrackIds, SequenceIds;
    var tracks := project.sequences[s].tracks;
    var o := SequenceRun(project.sequences, s);
    var ids := TrackIds(tracks);
    forall a, b | 0 <= a < b < |ids|
      ensures ids[a] != ids[b]
    {
      assert ids[a] == SequenceIds(project.sequences)[o + a] && ids[b] == SequenceIds(project.sequences)[o + b];
      assert ids[a] == ObjectIds(project)[|project.media| + o + a];
      assert ids[b] == ObjectIds(project)[|project.media| + o + b];
    }
    TrackIdsApart(tracks, i, j);
  }

  lemma TrackFoundAt(project: ProjectSnapshot, s: nat, t: nat)
    requires ValidContent(project) && s < |project.sequences| && t < |project.sequences[s].tracks|
    ensures TrackIn(project.sequences[s].tracks, project.sequences[s].tracks[t].id) == Some(t)
  {
    hide ValidContent, TrackIn;
    var tracks := project.sequences[s].tracks;
    var found := TrackIn(tracks, tracks[t].id).value;
    if found < t { TracksApart(project, s, found, t); }
    if t < found { TracksApart(project, s, t, found); }
  }

  /** Moving the track back to where it stood restores the project. */
  lemma ReorderUndone(project: ProjectSnapshot, sequence: uint64, track: uint64, index: nat)
    requires Valid(project) && Apply(project, ReorderTrack(sequence, track, index)).Some?
    ensures FindSequence(project.sequences, sequence).Some?
    ensures var s := FindSequence(project.sequences, sequence).value;
            var after := Apply(project, ReorderTrack(sequence, track, index)).value.0;
            && TrackIn(project.sequences[s].tracks, track).Some?
            && Apply(after, ReorderTrack(sequence, track, TrackIn(project.sequences[s].tracks, track).value))
               == Some((project, NOTHING))
  {
    hide Valid, ValidContent, SortClips, SortTracks, SortSequences, TrackIn, FindSequence;
    var command := ReorderTrack(sequence, track, index);
    var s := FindSequence(project.sequences, sequence).value;
    var tracks := project.sequences[s].tracks;
    var from := TrackIn(tracks, track).value;
    var moved := Inserted(Without(tracks, from), index, tracks[from]);
    var after := Apply(project, command).value.0;
    ReorderedSequences(project, sequence, track, index);
    assert after == WithTracks(project, s, moved);
    ApplyKeeps(project, command);
    ValidImpliesContent(project);
    ValidImpliesContent(after);
    MovedBack(tracks, from, index);
    TrackFoundAt(after, s, index);
    SameSequenceFound(project.sequences, s, moved, sequence);
    assert WithTracks(after, s, tracks) == project;
    SortedTracksStay(project);
    SortingAll(project);
  }

  lemma SortingAll(project: ProjectSnapshot)
    requires forall s, t :: 0 <= s < |project.sequences| && 0 <= t < |project.sequences[s].tracks| ==>
               SortClips(project.sequences[s].tracks[t].clips) == project.sequences[s].tracks[t].clips
    ensures SortSequences(project.sequences) == project.sequences
  {
    hide SortClips;
    forall i | 0 <= i < |project.sequences|
      ensures SortTracks(project.sequences[i].tracks) == project.sequences[i].tracks
    {
    }
  }

  lemma {:induction false} SameSequenceFound(sequences: seq<Sequence>, s: nat, tracks: seq<Track>, id: uint64)
    requires s < |sequences|
    ensures FindSequence(sequences[s := sequences[s].(tracks := tracks)], id) == FindSequence(sequences, id)
    decreases s
  {
    var changed := sequences[s := sequences[s].(tracks := tracks)];
    if s == 0 {
      assert changed[1..] == sequences[1..];
    } else {
      assert changed[1..] == sequences[1..][s - 1 := sequences[s].(tracks := tracks)];
      SameSequenceFound(sequences[1..], s - 1, tracks, id);
    }
  }
}
