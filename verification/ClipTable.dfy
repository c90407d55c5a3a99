/** What every command means, seen from above: a project as a flat table of cards, one for each clip and the track it is
    on, beside its bare tracks. Editing nested lists in place refines one change of that table. */
module ClipTables {
  import opened Wrappers
  import opened RationalTimes
  import opened Model
  import opened PlanBuilder
  import opened Commands

  datatype Card = Card(track: uint64, clip: Clip)

  function CardsOf(track: uint64, clips: seq<Clip>): multiset<Card> {
    if clips == [] then multiset{} else multiset{Card(track, clips[0])} + CardsOf(track, clips[1..])
  }

  function TrackCards(tracks: seq<Track>): multiset<Card> {
    if tracks == [] then multiset{} else CardsOf(tracks[0].id, tracks[0].clips) + TrackCards(tracks[1..])
  }

  function Table(sequences: seq<Sequence>): multiset<Card> {
    if sequences == [] then multiset{} else TrackCards(sequences[0].tracks) + Table(sequences[1..])
  }

  /** Tracks without their clips. */
  function BareTracks(tracks: seq<Track>): seq<Track> {
    seq(|tracks|, t requires 0 <= t < |tracks| => tracks[t].(clips := []))
  }

  function Bare(sequences: seq<Sequence>): seq<Sequence> {
    seq(|sequences|, s requires 0 <= s < |sequences| => sequences[s].(tracks := BareTracks(sequences[s].tracks)))
  }

  // ----- cards of changed lists

  lemma {:induction false} CardsConcat(track: uint64, a: seq<Clip>, b: seq<Clip>)
    ensures CardsOf(track, a + b) == CardsOf(track, a) + CardsOf(track, b)
  {
    if a == [] {
      assert a + b == b;
    } else {
      assert (a + b)[1..] == a[1..] + b;
      CardsConcat(track, a[1..], b);
    }
  }

  lemma CardsOne(track: uint64, clip: Clip)
    ensures CardsOf(track, [clip]) == multiset{Card(track, clip)}
  {
  }

  /** A list is what is left without one clip, and that clip. */
  lemma CardsWithout(track: uint64, clips: seq<Clip>, k: nat)
    requires k < |clips|
    ensures CardsOf(track, clips) == CardsOf(track, Without(clips, k)) + multiset{Card(track, clips[k])}
    ensures forall clip :: CardsOf(track, clips[k := clip]) ==
                           CardsOf(track, Without(clips, k)) + multiset{Card(track, clip)}
  {
    hide CardsOf;
    CardsConcat(track, clips[..k], clips[k + 1..]);
    forall clip: Clip
      ensures CardsOf(track, clips[k := clip]) == CardsOf(track, Without(clips, k)) + multiset{Card(track, clip)}
    {
      assert clips[k := clip] == clips[..k] + [clip] + clips[k + 1..];
      CardsConcat(track, clips[..k] + [clip], clips[k + 1..]);
      CardsConcat(track, clips[..k], [clip]);
      CardsOne(track, clip);
    }
    assert clips[k := clips[k]] == clips;
  }

  lemma {:induction false} TracksConcat(a: seq<Track>, b: seq<Track>)
    ensures TrackCards(a + b) == TrackCards(a) + TrackCards(b)
  {
    hide CardsOf;
    if a == [] {
      assert a + b == b;
    } else {
      assert (a + b)[1..] == a[1..] + b;
      TracksConcat(a[1..], b);
    }
  }

  lemma TracksOne(track: Track)
    ensures TrackCards([track]) == CardsOf(track.id, track.clips)
  {
  }

  lemma TracksWithout(tracks: seq<Track>, t: nat)
    requires t < |tracks|
    ensures TrackCards(tracks) == TrackCards(Without(tracks, t)) + CardsOf(tracks[t].id, tracks[t].clips)
    ensures forall track :: TrackCards(tracks[t := track]) ==
                            TrackCards(Without(tracks, t)) + CardsOf(track.id, track.clips)
  {
    hide TrackCards, CardsOf;
    TracksConcat(tracks[..t], tracks[t + 1..]);
    forall track: Track
      ensures TrackCards(tracks[t := track]) == TrackCards(Without(tracks, t)) + CardsOf(track.id, track.clips)
    {
      assert tracks[t := track] == tracks[..t] + [track] + tracks[t + 1..];
      TracksConcat(tracks[..t] + [track], tracks[t + 1..]);
      TracksConcat(tracks[..t], [track]);
      TracksOne(track);
    }
    assert tracks[t := tracks[t]] == tracks;
  }

  lemma TracksInserted(tracks: seq<Track>, i: nat, track: Track)
    requires i <= |tracks|
    ensures TrackCards(Inserted(tracks, i, track)) == TrackCards(tracks) + CardsOf(track.id, track.clips)
  {
    hide TrackCards, CardsOf;
    TracksConcat(tracks[..i] + [track], tracks[i..]);
    TracksConcat(tracks[..i], [track]);
    TracksConcat(tracks[..i], tracks[i..]);
    TracksOne(track);
    assert tracks[..i] + tracks[i..] == tracks;
  }

  lemma {:induction false} TableConcat(a: seq<Sequence>, b: seq<Sequence>)
    ensures Table(a + b) == Table(a) + Table(b)
  {
    hide TrackCards;
    if a == [] {
      assert a + b == b;
    } else {
      assert (a + b)[1..] == a[1..] + b;
      TableConcat(a[1..], b);
    }
  }

  lemma TableOne(sequence: Sequence)
    ensures Table([sequence]) == TrackCards(sequence.tracks)
  {
  }

  /** All cards but those of one sequence. */
  ghost function Elsewhere(sequences: seq<Sequence>, s: nat): multiset<Card>
    requires s < |sequences|
  {
    Table(sequences[..s]) + Table(sequences[s + 1..])
  }

  lemma TableOf(sequences: seq<Sequence>, s: nat, sequence: Sequence)
    requires s < |sequences|
    ensures Table(sequences[s := sequence]) == Elsewhere(sequences, s) + TrackCards(sequence.tracks)
  {
    hide Table, TrackCards;
    assert sequences[s := sequence] == sequences[..s] + [sequence] + sequences[s + 1..];
    TableConcat(sequences[..s] + [sequence], sequences[s + 1..]);
    TableConcat(sequences[..s], [sequence]);
    TableOne(sequence);
  }

  // ----- sorting

  lemma {:induction false} InsertKeepsCards(track: uint64, clips: seq<Clip>, clip: Clip)
    ensures CardsOf(track, InsertSorted(clips, clip)) == CardsOf(track, clips) + multiset{Card(track, clip)}
  {
    hide ClipLess;
    if clips == [] || ClipLess(clip, clips[0]) {
      assert ([clip] + clips)[1..] == clips;
    } else {
      InsertKeepsCards(track, clips[1..], clip);
      var rest := InsertSorted(clips[1..], clip);
      assert ([clips[0]] + rest)[1..] == rest;
    }
  }

  lemma {:induction false} SortKeepsCards(track: uint64, clips: seq<Clip>)
    ensures CardsOf(track, SortClips(clips)) == CardsOf(track, clips)
  {
    if clips != [] {
      var n := |clips| - 1;
      SortKeepsCards(track, clips[..n]);
      InsertKeepsCards(track, SortClips(clips[..n]), clips[n]);
      CardsConcat(track, clips[..n], [clips[n]]);
      CardsOne(track, clips[n]);
      assert clips[..n] + [clips[n]] == clips;
    }
  }

  lemma {:induction false} SortKeepsTrackCards(tracks: seq<Track>)
    ensures TrackCards(SortTracks(tracks)) == TrackCards(tracks)
  {
    hide CardsOf, SortClips;
    if tracks != [] {
      SortKeepsTrackCards(tracks[1..]);
      SortKeepsCards(tracks[0].id, tracks[0].clips);
      assert SortTracks(tracks)[1..] == SortTracks(tracks[1..]);
    }
  }

  /** Restoring the timeline order moves no clip to another track and changes none. */
  lemma {:induction false} SortKeepsTable(sequences: seq<Sequence>)
    ensures Table(SortSequences(sequences)) == Table(sequences)
  {
    hide TrackCards, SortTracks;
    if sequences != [] {
      SortKeepsTable(sequences[1..]);
      SortKeepsTrackCards(sequences[0].tracks);
      assert SortSequences(sequences)[1..] == SortSequences(sequences[1..]);
    }
  }

  lemma SortKeepsBare(sequences: seq<Sequence>)
    ensures Bare(SortSequences(sequences)) == Bare(sequences)
  {
    hide SortClips;
    forall s | 0 <= s < |sequences|
      ensures BareTracks(SortTracks(sequences[s].tracks)) == BareTracks(sequences[s].tracks)
    {
    }
  }

  // ----- one track at a time

  /** The table of a project in which the clips of one track were replaced. */
  lemma ReplacedClips(project: ProjectSnapshot, s: nat, t: nat, clips: seq<Clip>) returns (others: multiset<Card>)
    requires s < |project.sequences| && t < |project.sequences[s].tracks|
    ensures var track := project.sequences[s].tracks[t];
            && Table(project.sequences) == others + CardsOf(track.id, track.clips)
            && Table(WithClips(project, s, t, clips).sequences) == others + CardsOf(track.id, clips)
            && Bare(WithClips(project, s, t, clips).sequences) == Bare(project.sequences)
  {
    var sequence := project.sequences[s];
    var track := sequence.tracks[t];
    KeepsBare(project, s, t, clips);
    hide Table, TrackCards, CardsOf, Elsewhere, Bare, BareTracks;
    TracksWithout(sequence.tracks, t);
    TableOf(project.sequences, s, sequence);
    assert project.sequences[s := sequence] == project.sequences;
    TableOf(project.sequences, s, sequence.(tracks := sequence.tracks[t := track.(clips := clips)]));
    others := Elsewhere(project.sequences, s) + TrackCards(Without(sequence.tracks, t));
  }

  lemma KeepsBare(project: ProjectSnapshot, s: nat, t: nat, clips: seq<Clip>)
    requires s < |project.sequences| && t < |project.sequences[s].tracks|
    ensures Bare(WithClips(project, s, t, clips).sequences) == Bare(project.sequences)
  {
    var after := WithClips(project, s, t, clips).sequences;
    forall i | 0 <= i < |after|
      ensures Bare(after)[i] == Bare(project.sequences)[i]
    {
      assert BareTracks(after[i].tracks) == BareTracks(project.sequences[i].tracks);
    }
  }

  // ----- what the clip commands do

  /** The change of the table that a command on clips stands for; `id` is the identity a new clip takes. */
  ghost predicate ClipsChange(before: multiset<Card>, after: multiset<Card>, command: Command, id: uint64) {
    match command
    case InsertClip(track, media, position, range, routing) =>
      after == before + multiset{Card(track, Clip(id, media, position, range, routing))}
    case MoveClip(clip, track, position) =>
      exists card :: card in before && card.clip.id == clip
                     && after == before - multiset{card} + multiset{Card(track, card.clip.(position := position))}
    case TrimClip(clip, position, range) =>
      exists card :: card in before && card.clip.id == clip
                     && after == before - multiset{card}
                                 + multiset{card.(clip := card.clip.(position := position, source := range))}
    case SplitClip(clip, position) =>
      exists card :: card in before && card.clip.id == clip && SplitHalves(card.clip, position, id).Some?
                     && var halves := SplitHalves(card.clip, position, id).value;
                        after == before - multiset{card}
                                 + multiset{Card(card.track, halves.0), Card(card.track, halves.1)}
    case DeleteClip(clip) =>
      exists card :: card in before && card.clip.id == clip && after == before - multiset{card}
    case SetClipRouting(clip, routing) =>
      exists card :: card in before && card.clip.id == clip
                     && after == before - multiset{card} + multiset{card.(clip := card.clip.(routing := routing))}
    case _ => true
  }

  predicate OnClips(command: Command) {
    command.InsertClip? || command.MoveClip? || command.TrimClip? || command.SplitClip? || command.DeleteClip?
    || command.SetClipRouting?
  }

  /** A clip found at a place is a card of the table. */
  lemma CardAt(project: ProjectSnapshot, place: ClipPlace) returns (card: Card)
    requires ValidPlace(project.sequences, place)
    ensures card in Table(project.sequences) && card.clip == ClipAt(project.sequences, place)
    ensures card.track == project.sequences[place.s].tracks[place.t].id
  {
    var track := project.sequences[place.s].tracks[place.t];
    hide Table, CardsOf;
    var others := ReplacedClips(project, place.s, place.t, track.clips);
    CardsWithout(track.id, track.clips, place.k);
    card := Card(track.id, track.clips[place.k]);
  }

  lemma InsertMeans(project: ProjectSnapshot, command: Command)
    requires command.InsertClip? && EditClips(project, command).Some?
    ensures var after := EditClips(project, command).value.0;
            ClipsChange(Table(project.sequences), Table(after.sequences), command, project.nextId)
            && Bare(after.sequences) == Bare(project.sequences)
  {
    hide Table, CardsOf, Bare, FindTrack;
    var place := FindTrack(project.sequences, command.track).value;
    var (id, next) := Allocate(project).value;
    var clips := next.sequences[place.s].tracks[place.t].clips;
    var clip := Clip(id, command.media, command.position, command.range, command.routing);
    var others := ReplacedClips(next, place.s, place.t, clips + [clip]);
    CardsConcat(command.track, clips, [clip]);
    CardsOne(command.track, clip);
  }

  lemma ChangeMeans(project: ProjectSnapshot, command: Command)
    requires (command.TrimClip? || command.SetClipRouting?) && EditClips(project, command).Some?
    ensures var after := EditClips(project, command).value.0;
            ClipsChange(Table(project.sequences), Table(after.sequences), command, project.nextId)
            && Bare(after.sequences) == Bare(project.sequences)
  {
    hide Table, CardsOf, Bare, FindClip;
    var place := FindClip(project.sequences, command.clip).value;
    var track := project.sequences[place.s].tracks[place.t];
    var clip := track.clips[place.k];
    var changed := if command.TrimClip? then clip.(position := command.position, source := command.range)
                   else clip.(routing := command.routing);
    var card := CardAt(project, place);
    CardsWithout(track.id, track.clips, place.k);
    var others := ReplacedClips(project, place.s, place.t, track.clips[place.k := changed]);
    assert EditClips(project, command).value.0 == WithClips(project, place.s, place.t, track.clips[place.k := changed]);
    assert Table(EditClips(project, command).value.0.sequences)
        == Table(project.sequences) - multiset{card} + multiset{card.(clip := changed)};
  }

  lemma SplitMeans(project: ProjectSnapshot, command: Command)
    requires command.SplitClip? && EditClips(project, command).Some?
    ensures var after := EditClips(project, command).value.0;
            ClipsChange(Table(project.sequences), Table(after.sequences), command, project.nextId)
            && Bare(after.sequences) == Bare(project.sequences)
  {
    hide Table, CardsOf, Bare, FindClip, SplitHalves;
    var place := FindClip(project.sequences, command.clip).value;
    var (id, next) := Allocate(project).value;
    var track := project.sequences[place.s].tracks[place.t];
    var halves := SplitHalves(ClipAt(project.sequences, place), command.position, id).value;
    var clips := track.clips[place.k := halves.0] + [halves.1];
    var card := CardAt(project, place);
    CardsWithout(track.id, track.clips, place.k);
    CardsConcat(track.id, track.clips[place.k := halves.0], [halves.1]);
    CardsOne(track.id, halves.1);
    var others := ReplacedClips(next, place.s, place.t, clips);
    assert EditClips(project, command).value.0 == WithClips(next, place.s, place.t, clips);
    assert Table(EditClips(project, command).value.0.sequences)
        == Table(project.sequences) - multiset{card} + multiset{Card(card.track, halves.0), Card(card.track, halves.1)};
  }

  lemma DeleteMeans(project: ProjectSnapshot, command: Command)
    requires command.DeleteClip? && EditClips(project, command).Some?
    ensures var after := EditClips(project, command).value.0;
            ClipsChange(Table(project.sequences), Table(after.sequences), command, project.nextId)
            && Bare(after.sequences) == Bare(project.sequences)
  {
    hide Table, CardsOf, Bare, FindClip;
    var place := FindClip(project.sequences, command.clip).value;
    var track := project.sequences[place.s].tracks[place.t];
    var card := CardAt(project, place);
    CardsWithout(track.id, track.clips, place.k);
    var others := ReplacedClips(project, place.s, place.t, Without(track.clips, place.k));
    assert Table(EditClips(project, command).value.0.sequences) == Table(project.sequences) - multiset{card};
  }

  lemma MoveMeans(project: ProjectSnapshot, command: Command)
    requires command.MoveClip? && EditClips(project, command).Some?
    ensures var after := EditClips(project, command).value.0;
            ClipsChange(Table(project.sequences), Table(after.sequences), command, project.nextId)
            && Bare(after.sequences) == Bare(project.sequences)
  {
    hide Table, CardsOf, Bare, FindClip, FindTrack;
    var from := FindClip(project.sequences, command.clip).value;
    var to := FindTrack(project.sequences, command.track).value;
    var source := project.sequences[from.s].tracks[from.t];
    var moved := source.clips[from.k].(position := command.position);
    var card := CardAt(project, from);
    CardsWithout(source.id, source.clips, from.k);
    var others := ReplacedClips(project, from.s, from.t, Without(source.clips, from.k));
    var lifted := WithClips(project, from.s, from.t, Without(source.clips, from.k));
    assert Table(lifted.sequences) == Table(project.sequences) - multiset{card};
    var destination := lifted.sequences[to.s].tracks[to.t];
    assert destination.id == command.track;
    var rest := ReplacedClips(lifted, to.s, to.t, destination.clips + [moved]);
    CardsConcat(command.track, destination.clips, [moved]);
    CardsOne(command.track, moved);
    assert Table(EditClips(project, command).value.0.sequences)
        == Table(project.sequences) - multiset{card} + multiset{Card(command.track, moved)};
  }

  /**
   An accepted command on clips changes the table exactly as it says; tracks, sequences and media stay as they
   were.
   */
  lemma ClipCommandsMean(project: ProjectSnapshot, command: Command)
    requires OnClips(command) && Apply(project, command).Some?
    ensures var after := Apply(project, command).value.0;
            && ClipsChange(Table(project.sequences), Table(after.sequences), command, project.nextId)
            && Bare(after.sequences) == Bare(project.sequences) && after.media == project.media
  {
    hide Table, Bare, ClipsChange, Valid, SortSequences;
    var edited := Commands.Edit(project, command).value.0;
    SortKeepsTable(edited.sequences);
    SortKeepsBare(edited.sequences);
    EditedClips(project, command);
    MediaUntouched(project, command);
  }

  lemma EditedClips(project: ProjectSnapshot, command: Command)
    requires OnClips(command) && EditClips(project, command).Some?
    ensures var after := EditClips(project, command).value.0;
            ClipsChange(Table(project.sequences), Table(after.sequences), command, project.nextId)
            && Bare(after.sequences) == Bare(project.sequences)
  {
    hide Table, Bare, ClipsChange, EditClips;
    if command.InsertClip? { InsertMeans(project, command); }
    else if command.MoveClip? { MoveMeans(project, command); }
    else if command.SplitClip? { SplitMeans(project, command); }
    else if command.DeleteClip? { DeleteMeans(project, command); }
    else if command.TrimClip? { ChangeMeans(project, command); }
    else { ChangeMeans(project, command); }
  }

  lemma MediaUntouched(project: ProjectSnapshot, command: Command)
    requires OnClips(command) && EditClips(project, command).Some?
    ensures EditClips(project, command).value.0.media == project.media
  {
    hide FindClip, FindTrack, SplitHalves;
  }

  // ----- what the other commands do

  /** Deleting a track takes its clips along and nothing else; every other command that is not about clips leaves every
      clip on its track. */
  lemma OtherCommandsKeepClips(project: ProjectSnapshot, command: Command)
    requires Model.Valid(project) && !OnClips(command) && Apply(project, command).Some?
    ensures var before, after := Table(project.sequences), Table(Apply(project, command).value.0.sequences);
            forall card ::
              after[card] == if command.DeleteTrack? && card.track == command.track then 0 else before[card]
  {
    hide Table, Valid, SortSequences;
    var edited := Commands.Edit(project, command).value.0;
    SortKeepsTable(edited.sequences);
    if command.DeleteTrack? {
      DeleteTrackMeans(project, command);
    } else if command.RegisterMedia? || command.RelinkMedia? || command.ReplaceMediaSource? {
      SequencesUntouched(project, command);
    } else {
      StructureKeepsTable(project, command);
    }
  }

  lemma SequencesUntouched(project: ProjectSnapshot, command: Command)
    requires command.RegisterMedia? || command.RelinkMedia? || command.ReplaceMediaSource?
    requires EditMedia(project, command).Some?
    ensures EditMedia(project, command).value.0.sequences == project.sequences
  {
    hide RelinkedAsset, ReplacedAsset, ValidSource;
  }

  lemma StructureKeepsTable(project: ProjectSnapshot, command: Command)
    requires command.CreateSequence? || command.CreateTrack? || command.ReorderTrack? || command.SetSequenceOutput?
             || command.SetTrackPlayback?
    requires EditStructure(project, command).Some?
    ensures Table(EditStructure(project, command).value.0.sequences) == Table(project.sequences)
  {
    hide TrackCards, Table, CardsOf, FindTrack, Elsewhere;
    match command
    case CreateSequence(name, frameDuration) =>
      var sequence := Sequence(project.nextId, name, frameDuration, [], DEFAULT_OUTPUT);
      TableConcat(project.sequences, [sequence]);
      TableOne(sequence);
      NoTracksNoCards();
    case CreateTrack(sequence, kind, name) =>
      var s := FindSequence(project.sequences, sequence).value;
      var track := Track(project.nextId, name, kind, [], DEFAULT_PLAYBACK);
      TracksConcat(project.sequences[s].tracks, [track]);
      TracksOne(track);
      NoTracksNoCards();
      SameCards(project.sequences, s, project.sequences[s].(tracks := project.sequences[s].tracks + [track]));
    case ReorderTrack(sequence, track, index) =>
      var s := FindSequence(project.sequences, sequence).value;
      var tracks := project.sequences[s].tracks;
      var t := TrackIn(tracks, track).value;
      TracksWithout(tracks, t);
      TracksInserted(Without(tracks, t), index, tracks[t]);
      SameCards(project.sequences, s, project.sequences[s].(tracks := Inserted(Without(tracks, t), index, tracks[t])));
    case SetSequenceOutput(sequence, frameDuration, output) =>
      var s := FindSequence(project.sequences, sequence).value;
      SameCards(project.sequences, s, project.sequences[s].(frameDuration := frameDuration, output := output));
    case SetTrackPlayback(track, playback) =>
      var place := FindTrack(project.sequences, track).value;
      var tracks := project.sequences[place.s].tracks;
      TracksWithout(tracks, place.t);
      assert tracks[place.t := tracks[place.t]] == tracks;
      SameCards(project.sequences, place.s,
                project.sequences[place.s].(tracks := tracks[place.t := tracks[place.t].(playback := playback)]));
  }

  lemma NoTracksNoCards()
    ensures TrackCards([]) == multiset{} && forall id :: CardsOf(id, []) == multiset{}
  {
  }

  lemma SameCards(sequences: seq<Sequence>, s: nat, sequence: Sequence)
    requires s < |sequences| && TrackCards(sequence.tracks) == TrackCards(sequences[s].tracks)
    ensures Table(sequences[s := sequence]) == Table(sequences)
  {
    hide Table, TrackCards, Elsewhere;
    TableOf(sequences, s, sequence);
    TableOf(sequences, s, sequences[s]);
    assert sequences[s := sequences[s]] == sequences;
  }

  // ----- owners of cards

  lemma {:induction false} CardsBelong(track: uint64, clips: seq<Clip>)
    ensures forall card :: card in CardsOf(track, clips) ==> card.track == track
  {
    if clips != [] { CardsBelong(track, clips[1..]); }
  }

  lemma {:induction false} TrackCardsBelong(tracks: seq<Track>)
    ensures forall card :: card in TrackCards(tracks) ==> card.track in TrackIds(tracks)
  {
    hide CardsOf, ClipIds;
    if tracks != [] {
      CardsBelong(tracks[0].id, tracks[0].clips);
      TrackCardsBelong(tracks[1..]);
    }
  }

  lemma {:induction false} TableBelongs(sequences: seq<Sequence>)
    ensures forall card :: card in Table(sequences) ==> card.track in SequenceIds(sequences)
  {
    hide TrackCards, TrackIds;
    if sequences != [] {
      TrackCardsBelong(sequences[0].tracks);
      TableBelongs(sequences[1..]);
    }
  }

  lemma Apart(a: seq<uint64>, b: seq<uint64>)
    requires NoDuplicates(a + b)
    ensures NoDuplicates(a) && NoDuplicates(b) && forall id :: id in a ==> id !in b
  {
    forall i, j | 0 <= i < j < |a|
      ensures a[i] != a[j]
    {
      assert (a + b)[i] == a[i] && (a + b)[j] == a[j];
    }
    forall i, j | 0 <= i < j < |b|
      ensures b[i] != b[j]
    {
      assert (a + b)[|a| + i] == b[i] && (a + b)[|a| + j] == b[j];
    }
    forall i, j | 0 <= i < |a| && 0 <= j < |b|
      ensures a[i] != b[j]
    {
      assert (a + b)[i] == a[i] && (a + b)[|a| + j] == b[j];
    }
  }

  /** With unique identities, taking a track away takes away exactly the cards that name it. */
  lemma {:induction false} TrackTakenAway(tracks: seq<Track>, t: nat)
    requires t < |tracks| && NoDuplicates(TrackIds(tracks))
    ensures tracks[t].id in TrackIds(tracks)
    ensures forall card :: TrackCards(Without(tracks, t))[card] ==
                           if card.track == tracks[t].id then 0 else TrackCards(tracks)[card]
    decreases t
  {
    hide CardsOf, ClipIds;
    var head, rest := tracks[0], tracks[1..];
    Apart([head.id] + ClipIds(head.clips), TrackIds(rest));
    CardsBelong(head.id, head.clips);
    TrackCardsBelong(rest);
    assert head.id in [head.id] + ClipIds(head.clips);
    if t == 0 {
      assert Without(tracks, 0) == rest;
    } else {
      TrackTakenAway(rest, t - 1);
      assert Without(tracks, t)[0] == head && Without(tracks, t)[1..] == Without(rest, t - 1);
    }
  }

  lemma {:induction false} SequenceTakenAway(sequences: seq<Sequence>, s: nat, t: nat)
    requires s < |sequences| && t < |sequences[s].tracks| && NoDuplicates(SequenceIds(sequences))
    ensures var id := sequences[s].tracks[t].id;
            var after := sequences[s := sequences[s].(tracks := Without(sequences[s].tracks, t))];
            && id in SequenceIds(sequences)
            && forall card :: Table(after)[card] == if card.track == id then 0 else Table(sequences)[card]
    decreases s
  {
    hide TrackCards, TrackIds;
    var head, rest := sequences[0], sequences[1..];
    var after := sequences[s := sequences[s].(tracks := Without(sequences[s].tracks, t))];
    Apart([head.id] + TrackIds(head.tracks), SequenceIds(rest));
    Apart([head.id], TrackIds(head.tracks));
    TrackCardsBelong(head.tracks);
    TableBelongs(rest);
    if s == 0 {
      TrackTakenAway(head.tracks, t);
      assert head.tracks[t].id in [head.id] + TrackIds(head.tracks);
      assert after[1..] == rest;
    } else {
      SequenceTakenAway(rest, s - 1, t);
      assert after[0] == head;
      assert after[1..] == rest[s - 1 := rest[s - 1].(tracks := Without(rest[s - 1].tracks, t))];
      forall card | card in TrackCards(head.tracks)
        ensures card.track != sequences[s].tracks[t].id
      {
        assert card.track in [head.id] + TrackIds(head.tracks);
      }
    }
  }

  lemma DeleteTrackMeans(project: ProjectSnapshot, command: Command)
    requires Model.Valid(project) && command.DeleteTrack? && EditStructure(project, command).Some?
    ensures var after := EditStructure(project, command).value.0;
            forall card :: Table(after.sequences)[card] ==
                           if card.track == command.track then 0 else Table(project.sequences)[card]
  {
    hide Table, FindTrack, SequenceIds, MediaIds, ValidSequence, ValidAsset, ValidLog;
    Apart(MediaIds(project.media), SequenceIds(project.sequences));
    var place := FindTrack(project.sequences, command.track).value;
    SequenceTakenAway(project.sequences, place.s, place.t);
  }

  // ----- media

  /**
   A relinked asset has the new location in its role, or none, and its other locations; without its original
   file it is unverified.
   */
  lemma RelinkMeans(asset: MediaAsset, role: LocationRole, uri: Option<string>)
    requires forall i, j :: 0 <= i < j < |asset.locations| ==> asset.locations[i].role != asset.locations[j].role
    ensures var after := RelinkedAsset(asset, role, uri);
            && (forall l: MediaLocation :: l.role != role ==> (l in after.locations <==> l in asset.locations))
            && (forall l: MediaLocation :: l.role == role ==> (l in after.locations <==> uri == Some(l.uri)))
            && after == asset.(locations := after.locations, source := if role == Original then None else asset.source)
  {
    var found := LocationIn(asset.locations, role);
    LocationFound(asset.locations, role);
    if found.Some? {
      var locations := asset.locations;
      if uri.Some? {
        var after := locations[found.value := locations[found.value].(uri := uri.value)];
        assert after[found.value] == MediaLocation(role, uri.value);
        forall l: MediaLocation | l.role != role && l in locations
          ensures l in after
        {
          var i :| 0 <= i < |locations| && locations[i] == l;
          assert after[i] == l;
        }
      } else {
        var after := Without(locations, found.value);
        forall l: MediaLocation | l.role != role && l in locations
          ensures l in after
        {
          var i :| 0 <= i < |locations| && locations[i] == l;
          assert after[if i < found.value then i else i - 1] == l;
        }
      }
    }
  }

  lemma {:induction false} LocationFound(locations: seq<MediaLocation>, role: LocationRole)
    ensures LocationIn(locations, role).None? ==> forall l :: l in locations ==> l.role != role
  {
    if locations != [] { LocationFound(locations[1..], role); }
  }
}
