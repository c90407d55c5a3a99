/** Saving a project and its two recovery checkpoints (`src/project/document.cpp`). The disk is three file slots: the
    project itself and its two recovery files. A write replaces a file or fails. */
module Documents {
  import opened Wrappers
  import opened RationalTimes
  import opened Model
  import opened Lexing
  import opened Persistence
  import opened PersistenceProofs

  const ENVELOPE_LIMIT: nat := 2 * MAX_BYTES + 128
  const MAX_HEADER: nat := 100
  const MAGIC: Word := "NLE_RECOVERY"

  datatype File = Absent | Regular(bytes: string) | Irregular

  datatype FileError =
    | ProjectUnavailable
    | PermissionDenied
    | SaveConflict
    | SaveFailed
    | RecoveryUnavailable
    | RecoveryAvailable
    | RecoveryFailed
    | Unserializable

  function ReadBytes(file: File, limit: nat): Option<string> {
    if file.Regular? && |file.bytes| <= limit then Some(file.bytes) else None
  }

  // ----- the checkpoint header, taken apart by stream extraction

  function DigitRun(s: string): (n: nat)
    ensures n <= |s| && AllDigits(s[..n])
  {
    if s == "" || !Digit(s[0]) then 0 else 1 + DigitRun(s[1..])
  }

  function ExtractWord(s: string): Option<(string, string)> {
    var t := SkipSpace(s);
    var n := TokenLength(t);
    if n == 0 then None else Some((t[..n], t[n..]))
  }

  /** An unsigned number: a sign is accepted, and a minus sign wraps around. */
  function ExtractNumber(s: string, max: nat): Option<(nat, string)> {
    var t := SkipSpace(s);
    var signed := t != "" && (t[0] == '-' || t[0] == '+');
    var u := if signed then t[1..] else t;
    var n := DigitRun(u);
    if n == 0 then None
    else
      var value := NatValue(u[..n]);
      if value > max then None
      else Some((if signed && t[0] == '-' && value > 0 then max + 1 - value else value, u[n..]))
  }

  /** Extracting a word skips blanks and takes all up to the next one; it fails exactly on blanks alone. */
  lemma WordExtracted(s: string) returns (blanks: string, word: string, rest: string)
    ensures s == blanks + word + rest
    ensures (forall c :: c in blanks ==> c in BLANKS) && (forall c :: c in word ==> c !in BLANKS)
    ensures rest != "" ==> rest[0] in BLANKS
    ensures ExtractWord(s) == if word == "" then None else Some((word, rest))
  {
    var k := Skipped(s);
    TokenStops(s[k..]);
    var n := TokenLength(s[k..]);
    blanks, word, rest := s[..k], s[k..][..n], s[k..][n..];
  }

  lemma {:induction false} DigitsStop(s: string)
    ensures var n := DigitRun(s); n < |s| ==> !('0' <= s[n] <= '9')
  {
    if s != "" { DigitsStop(s[1..]); }
  }

  lemma SignedDigits(t: string) returns (sign: string, digits: string, rest: string)
    ensures t == sign + digits + rest && AllDigits(digits) && (rest != "" ==> !('0' <= rest[0] <= '9'))
    ensures sign == if t != "" && t[0] == '-' then "-" else if t != "" && t[0] == '+' then "+" else ""
    ensures var u := t[|sign|..]; DigitRun(u) == |digits| && u[..|digits|] == digits && u[|digits|..] == rest
  {
    hide DigitRun, AllDigits;
    sign := if t != "" && (t[0] == '-' || t[0] == '+') then [t[0]] else "";
    var u := t[|sign|..];
    DigitsStop(u);
    digits, rest := u[..DigitRun(u)], u[DigitRun(u)..];
    assert t == sign + u;
  }

  /** Extracting a number skips blanks and takes a sign and all digits; it fails exactly without digits or beyond the
      type, and a negative number is taken modulo the type's range. */
  lemma NumberExtracted(s: string, max: nat) returns (blanks: string, sign: string, digits: string, rest: string)
    ensures s == blanks + (sign + digits + rest)
    ensures (forall c :: c in blanks ==> c in BLANKS) && sign in {"", "+", "-"} && AllDigits(digits)
    ensures rest != "" ==> !('0' <= rest[0] <= '9')
    ensures sign == digits == "" && rest != "" ==> rest[0] !in BLANKS && rest[0] != '+' && rest[0] != '-'
    ensures ExtractNumber(s, max) ==
            if digits == "" || NatValue(digits) > max then None
            else if sign == "-" && NatValue(digits) > 0 then Some((max + 1 - NatValue(digits), rest))
            else Some((NatValue(digits), rest))
  {
    hide SkipSpace, DigitRun, NatValue, AllDigits;
    var k := Skipped(s);
    sign, digits, rest := SignedDigits(s[k..]);
    blanks := s[..k];
    assert s == blanks + s[k..];
  }

  /** The sizes of the saved text and of the checkpointed text. */
  function ReadHeader(header: string): Option<(nat, nat)> {
    var magic :- ExtractWord(header);
    var version :- ExtractNumber(magic.1, U32);
    var base :- ExtractNumber(version.1, U64);
    var snapshot :- ExtractNumber(base.1, U64);
    if magic.0 != MAGIC || version.0 != 1 || SkipSpace(snapshot.1) != "" || base.0 > MAX_BYTES || snapshot.0 > MAX_BYTES
    then None
    else Some((base.0, snapshot.0))
  }

  function FirstNewline(s: string): (n: nat)
    ensures n <= |s| && (n < |s| ==> s[n] == '\n') && forall i :: 0 <= i < n ==> s[i] != '\n'
  {
    if s == "" || s[0] == '\n' then 0 else 1 + FirstNewline(s[1..])
  }

  function Header(base: nat, snapshot: nat): string {
    MAGIC + " 1 " + Digits(base) + " " + Digits(snapshot)
  }

  /** What is written: a header, the saved text the checkpoint belongs to, and the checkpointed text. */
  function Envelope(saved: string, next: string): string {
    Header(|saved|, |next|) + "\n" + saved + next
  }

  // ----- reading checkpoints

  datatype Checkpoint = Missing | Damaged | Offered(project: ProjectSnapshot)

  /** The two texts inside an envelope. */
  function Opened(bytes: string): Option<(string, string)> {
    var n := FirstNewline(bytes);
    if n == |bytes| || n > MAX_HEADER then None
    else
      var sizes :- ReadHeader(bytes[..n]);
      if |bytes| != n + 1 + sizes.0 + sizes.1 then None
      else Some((bytes[n + 1..n + 1 + sizes.0], bytes[n + 1 + sizes.0..]))
  }

  /** A checkpoint continues the saved project: same identity, and no earlier revision. */
  predicate Continues(project: ProjectSnapshot, base: ProjectSnapshot) {
    project.id == base.id && project.revision >= base.revision
  }

  /** `read_checkpoint`. */
  function ReadCheckpoint(file: File, saved: string): Checkpoint {
    if file.Absent? then Missing
    else
      var bytes := ReadBytes(file, ENVELOPE_LIMIT);
      var parts := if bytes.None? then None else Opened(bytes.value);
      if parts.None? || parts.value.0 != saved then Damaged
      else
        var project := Deserialize(parts.value.1);
        if project.None? then Damaged
        else if saved == "" then Offered(project.value)
        else
          var base := Deserialize(saved);
          if base.None? || !Continues(project.value, base.value) then Damaged
          else if project.value == base.value then Missing
          else Offered(project.value)
  }

  /** What is offered over a saved project is another project of the same identity, of no earlier revision. */
  lemma OfferedContinues(file: File, saved: string)
    requires saved != "" && ReadCheckpoint(file, saved).Offered?
    ensures Deserialize(saved).Some?
    ensures var base, project := Deserialize(saved).value, ReadCheckpoint(file, saved).project;
            project.id == base.id && project.revision >= base.revision && project != base
  {
    hide Deserialize, Opened;
  }

  /** The two texts of an envelope, after the checks on its header and on the sizes announced there. */
  method OpenEnvelope(bytes: string) returns (parts: Option<(string, string)>)
    ensures parts == Opened(bytes)
  {
    hide ExtractWord, ExtractNumber, SkipSpace, FirstNewline;
    var n := FirstNewline(bytes);
    if n == |bytes| || n > 100 { return None; }
    var magic :- ExtractWord(bytes[..n]);
    var version :- ExtractNumber(magic.1, 0xffff_ffff);
    var base :- ExtractNumber(version.1, 0xffff_ffff_ffff_ffff);
    var snapshot :- ExtractNumber(base.1, 0xffff_ffff_ffff_ffff);
    if magic.0 != "NLE_RECOVERY" || version.0 != 1 || SkipSpace(snapshot.1) != "" { return None; }
    if base.0 > 16 * 1024 * 1024 || snapshot.0 > 16 * 1024 * 1024 { return None; }
    if |bytes| != n + 1 + base.0 + snapshot.0 { return None; }
    var payload := bytes[n + 1..];
    assert payload[..base.0] == bytes[n + 1..n + 1 + base.0] && payload[base.0..] == bytes[n + 1 + base.0..];
    return Some((payload[..base.0], payload[base.0..]));
  }

  /** `read_checkpoint`, check by check. */
  method ReadSlot(file: File, saved: string) returns (checkpoint: Checkpoint)
    ensures checkpoint == ReadCheckpoint(file, saved)
  {
    hide Deserialize, Opened;
    if file.Absent? { return Missing; }
    if file.Irregular? || |file.bytes| > 2 * 16 * 1024 * 1024 + 128 { return Damaged; }
    var parts := OpenEnvelope(file.bytes);
    if parts.None? || parts.value.0 != saved { return Damaged; }
    var project := Deserialize(parts.value.1);
    if project.None? { return Damaged; }
    if saved != "" {
      var base := Deserialize(saved);
      if base.None? || project.value.id != base.value.id || project.value.revision < base.value.revision {
        return Damaged;
      }
      if project == base { return Missing; }
    }
    return Offered(project.value);
  }

  type Slots = s: seq<File> | |s| == 2 witness [Absent, Absent]

  function InSlot(slots: Slots, saved: string, i: nat): Checkpoint
    requires i < 2
  {
    ReadCheckpoint(slots[i], saved)
  }

  /** The slot whose project `recovery` returns: the higher revision, and the first slot on a tie. */
  function Best(slots: Slots, saved: string): Option<nat> {
    var a, b := InSlot(slots, saved, 0), InSlot(slots, saved, 1);
    if a.Offered? && b.Offered? then Some(if b.project.revision > a.project.revision then 1 else 0)
    else if a.Offered? then Some(0)
    else if b.Offered? then Some(1)
    else None
  }

  function Recovered(slots: Slots, saved: string): Option<ProjectSnapshot> {
    var best := Best(slots, saved);
    if best.None? then None else Some(InSlot(slots, saved, best.value).project)
  }

  predicate Warned(slots: Slots, saved: string) {
    InSlot(slots, saved, 0).Damaged? || InSlot(slots, saved, 1).Damaged?
  }

  /** The slot the next checkpoint replaces. */
  function Target(slots: Slots, saved: string): (target: nat)
    ensures target < 2
  {
    var a, b := InSlot(slots, saved, 0), InSlot(slots, saved, 1);
    if a.Offered? && (!b.Offered? || a.project.revision > b.project.revision) then 1 else 0
  }

  /** Both slots offer a checkpoint of the same revision. */
  predicate Tied(slots: Slots, saved: string) {
    && InSlot(slots, saved, 0).Offered? && InSlot(slots, saved, 1).Offered?
    && InSlot(slots, saved, 0).project.revision == InSlot(slots, saved, 1).project.revision
  }

  /** The next checkpoint replaces the very one that `recovery` would return exactly when both slots tie. */
  lemma TargetSparesTheBest(slots: Slots, saved: string)
    ensures Best(slots, saved) == Some(Target(slots, saved)) <==> Tied(slots, saved)
  {
    hide ReadCheckpoint;
  }

  /** Above every valid slot. */
  predicate Newer(slots: Slots, saved: string, revision: int) {
    forall i: nat :: i < 2 && InSlot(slots, saved, i).Offered? ==> revision > InSlot(slots, saved, i).project.revision
  }

  // ----- a written checkpoint reads back

  function PowerOfTen(k: nat): nat {
    if k == 0 then 1 else 10 * PowerOfTen(k - 1)
  }

  lemma {:induction false} DigitsAreFew(n: nat, k: nat)
    requires k > 0 && n < PowerOfTen(k)
    ensures |Digits(n)| <= k
  {
    if n >= 10 {
      DigitsAreFew(n / 10, k - 1);
    }
  }

  lemma {:induction false} DigitRunEnds(digits: string, rest: string)
    requires AllDigits(digits) && (rest == "" || !Digit(rest[0]))
    ensures DigitRun(digits + rest) == |digits|
  {
    if digits == "" {
      assert digits + rest == rest;
    } else {
      assert (digits + rest)[1..] == digits[1..] + rest;
      DigitRunEnds(digits[1..], rest);
    }
  }

  lemma TokenExtracts(digits: string, max: nat, rest: string)
    requires digits != "" && AllDigits(digits) && NatValue(digits) <= max && (rest == "" || Space(rest[0]))
    ensures ExtractNumber(" " + digits + rest, max) == Some((NatValue(digits), rest))
  {
    hide NatValue;
    var s, t := " " + digits + rest, digits + rest;
    DigitRunEnds(digits, rest);
    assert s[1..] == t && Digit(t[0]);
    assert SkipSpace(s) == t;
    assert t[..|digits|] == digits && t[|digits|..] == rest;
  }

  lemma NumberExtracts(n: nat, max: nat, rest: string)
    requires n <= max && (rest == "" || Space(rest[0]))
    ensures ExtractNumber(" " + Digits(n) + rest, max) == Some((n, rest))
  {
    hide Digits;
    DigitsAreDigits(n);
    TokenExtracts(Digits(n), max, rest);
  }

  lemma HeaderReads(base: nat, snapshot: nat)
    requires base <= MAX_BYTES && snapshot <= MAX_BYTES
    ensures ReadHeader(Header(base, snapshot)) == Some((base, snapshot))
  {
    var afterBase := " " + Digits(snapshot) + "";
    var afterVersion := " " + Digits(base) + afterBase;
    var afterMagic := " " + Digits(1) + afterVersion;
    assert Header(base, snapshot) == MAGIC + afterMagic;
    hide Digits, ExtractWord, ExtractNumber, Header;
    NumberExtracts(1, U32, afterVersion);
    NumberExtracts(base, U64, afterBase);
    NumberExtracts(snapshot, U64, "");
    MagicExtracts(afterMagic);
  }

  lemma HeaderIsOneShortLine(base: nat, snapshot: nat)
    requires base <= MAX_BYTES && snapshot <= MAX_BYTES
    ensures |Header(base, snapshot)| <= MAX_HEADER && '\n' !in Header(base, snapshot)
  {
    DigitsAreDigits(base);
    DigitsAreDigits(snapshot);
    EightDigits(base);
    EightDigits(snapshot);
    hide Digits;
  }

  lemma EightDigits(n: nat)
    requires n <= MAX_BYTES
    ensures |Digits(n)| <= 8
  {
    assert PowerOfTen(4) == 10000;
    assert PowerOfTen(8) == 100000000;
    DigitsAreFew(n, 8);
  }

  lemma MagicExtracts(rest: string)
    requires rest != "" && rest[0] == ' '
    ensures ExtractWord(MAGIC + rest) == Some((MAGIC, rest))
  {
    var s := MAGIC + rest;
    TokenEnds(MAGIC, rest);
    assert SkipSpace(s) == s;
    assert s[..|MAGIC|] == MAGIC && s[|MAGIC|..] == rest;
  }

  lemma AbsentIsMissing(saved: string)
    ensures ReadCheckpoint(Absent, saved) == Missing
  {
  }

  lemma {:induction false} NewlineIsFound(line: string, rest: string)
    requires '\n' !in line
    ensures FirstNewline(line + "\n" + rest) == |line|
  {
    var s := line + "\n" + rest;
    if line != "" {
      assert s[1..] == line[1..] + "\n" + rest;
      NewlineIsFound(line[1..], rest);
    }
  }

  lemma EnvelopeOpens(saved: string, next: string)
    requires |saved| <= MAX_BYTES && |next| <= MAX_BYTES
    ensures Opened(Envelope(saved, next)) == Some((saved, next))
    ensures |Envelope(saved, next)| <= ENVELOPE_LIMIT
  {
    hide ReadHeader, Header;
    var header := Header(|saved|, |next|);
    HeaderReads(|saved|, |next|);
    HeaderIsOneShortLine(|saved|, |next|);
    NewlineIsFound(header, saved + next);
    var all := Envelope(saved, next);
    assert all == header + "\n" + (saved + next);
    assert all[..|header|] == header;
    assert all[|header| + 1..|header| + 1 + |saved|] == saved;
    assert all[|header| + 1 + |saved|..] == next;
  }

  /** A checkpoint of a project that can be written is read back and offered, unless it does not continue the saved
      project (then it is refused) or is that project (then there is nothing to recover). */
  lemma CheckpointReadsBack(saved: string, project: ProjectSnapshot)
    requires Serialize(project).Some? && (saved == "" || Deserialize(saved).Some?)
    ensures var read := ReadCheckpoint(Regular(Envelope(saved, Serialize(project).value)), saved);
            if saved == "" then read == Offered(project)
            else
              var base := Deserialize(saved).value;
              if project.id != base.id || project.revision < base.revision then read == Damaged
              else if project == base then read == Missing
              else read == Offered(project)
  {
    hide Serialize, Deserialize, Opened, Envelope, ProjectText, Model.Valid, RecordCount;
    SerializedIsSmall(project);
    SavedIsSmall(saved);
    RoundTrip(project);
    EnvelopeOpens(saved, Serialize(project).value);
  }

  lemma SerializedIsSmall(project: ProjectSnapshot)
    ensures Serialize(project).Some? ==> |Serialize(project).value| <= MAX_BYTES && Serialize(project).value != ""
  {
    hide Valid, Deserialize, ProjectText;
    NoEmptyDocument();
  }

  lemma NoEmptyDocument()
    ensures Deserialize("").None?
  {
    hide Valid;
    assert Token(State("", MAX_RECORDS)).Bad?;
    assert ParseHeader(State("", MAX_RECORDS)).Bad?;
  }

  lemma SavedIsSmall(saved: string)
    ensures Deserialize(saved).Some? ==> |saved| <= MAX_BYTES
  {
    hide Valid, ParseProject;
  }

  // ----- checkpoints belong to one saved text

  /** An envelope is offered under one saved text only: once other bytes have been saved it is offered no more, whether
      or not the clean-up that follows a save could remove it. */
  lemma OfferedUnderOneText(file: File, saved: string, other: string)
    requires ReadCheckpoint(file, saved).Offered? && saved != other
    ensures ReadCheckpoint(file, other).Damaged?
  {
    hide Deserialize, Opened, Continues;
  }

  /** After other bytes have been saved nothing written before is offered, and every leftover is warned about. */
  lemma NothingOldIsOffered(slots: Slots, saved: string, other: string)
    requires saved != other && forall i: nat :: i < 2 ==> slots[i].Absent? || InSlot(slots, saved, i).Offered?
    ensures Recovered(slots, other) == None
    ensures Warned(slots, other) <==> exists i: nat :: i < 2 && !slots[i].Absent?
  {
    hide ReadCheckpoint;
    forall i: nat | i < 2 && !slots[i].Absent?
      ensures InSlot(slots, other, i).Damaged?
    {
      OfferedUnderOneText(slots[i], saved, other);
    }
    AbsentIsMissing(other);
  }

  // ----- one checkpoint, and whole runs of them

  /** How the write of a checkpoint ended: the file was replaced, was left alone, or was torn by a crash. */
  datatype Outcome = Written | Failed | Torn(file: File)

  function Store(slots: Slots, i: nat, file: File): Slots
    requires i < 2
  {
    slots[i := file]
  }

  function AfterCheckpoint(slots: Slots, saved: string, project: ProjectSnapshot, outcome: Outcome): Slots {
    var target := Target(slots, saved);
    match outcome
    case Written => Store(slots, target, Regular(Envelope(saved, ProjectText(project))))
    case Failed => slots
    case Torn(file) => Store(slots, target, file)
  }

  /**
   A project that can be checkpointed and would be offered: writable, continuing the saved one and different
   from it.
   */
  predicate Recoverable(saved: string, project: ProjectSnapshot) {
    && Serialize(project).Some?
    && (saved != "" ==>
          && Deserialize(saved).Some?
          && project.id == Deserialize(saved).value.id && project.revision >= Deserialize(saved).value.revision
          && project != Deserialize(saved).value)
  }

  lemma WrittenIsOffered(slots: Slots, saved: string, project: ProjectSnapshot)
    requires Recoverable(saved, project)
    ensures InSlot(AfterCheckpoint(slots, saved, project, Written), saved, Target(slots, saved)) == Offered(project)
  {
    CheckpointReadsBack(saved, project);
    RoundTrip(project);
    hide Serialize, Deserialize, Envelope, ReadCheckpoint, Target;
  }

  /** The slot a checkpoint leaves alone. */
  function Other(slots: Slots, saved: string): (other: nat)
    ensures other < 2
  {
    1 - Target(slots, saved)
  }

  /** What is in the kept slot does not outrank a project written to slot `target`; on a tie the first slot wins. */
  predicate Yields(kept: Checkpoint, project: ProjectSnapshot, target: nat) {
    kept.Offered? ==>
      || kept.project == project || kept.project.revision < project.revision
      || (kept.project.revision == project.revision && target == 0)
  }

  /** The new checkpoint becomes the one recovery returns exactly when the slot that was kept does not outrank it. */
  lemma NewCheckpointWins(slots: Slots, saved: string, project: ProjectSnapshot)
    requires Recoverable(saved, project)
    ensures Recovered(AfterCheckpoint(slots, saved, project, Written), saved) == Some(project) <==>
            Yields(InSlot(slots, saved, Other(slots, saved)), project, Target(slots, saved))
  {
    hide Serialize, Deserialize, Envelope, ReadCheckpoint, Recoverable, ProjectText, AfterCheckpoint;
    var target := Target(slots, saved);
    var after := AfterCheckpoint(slots, saved, project, Written);
    WrittenIsOffered(slots, saved, project);
    KeptSlot(slots, saved, project, Written);
    if target == 0 {
      assert InSlot(after, saved, 0) == Offered(project);
    } else {
      assert InSlot(after, saved, 1) == Offered(project);
    }
  }

  lemma KeptSlot(slots: Slots, saved: string, project: ProjectSnapshot, outcome: Outcome)
    ensures InSlot(AfterCheckpoint(slots, saved, project, outcome), saved, Other(slots, saved)) ==
            InSlot(slots, saved, Other(slots, saved))
  {
    hide ReadCheckpoint, Envelope, ProjectText;
  }

  /** A torn write leaves recovery as it was exactly when the slots did not tie with two different projects. */
  lemma TornWriteKeepsTheOffer(slots: Slots, saved: string, project: ProjectSnapshot, file: File)
    requires !ReadCheckpoint(file, saved).Offered?
    ensures Recovered(AfterCheckpoint(slots, saved, project, Torn(file)), saved) == Recovered(slots, saved) <==>
            !Tied(slots, saved) || InSlot(slots, saved, 0) == InSlot(slots, saved, 1)
  {
    hide ReadCheckpoint;
  }

  /** Two checkpoints of one revision, taken in a row, tie: the second does not replace the first, and the first is what
      the next write would tear. */
  lemma EqualRevisionsTie(slots: Slots, saved: string, p: ProjectSnapshot, q: ProjectSnapshot)
    requires Recovered(slots, saved).None?
    requires Recoverable(saved, p) && Recoverable(saved, q) && p.revision == q.revision && p != q
    ensures var one := AfterCheckpoint(slots, saved, p, Written);
            var two := AfterCheckpoint(one, saved, q, Written);
            && Tied(two, saved) && Recovered(two, saved) == Some(p)
            && Recovered(AfterCheckpoint(two, saved, q, Torn(Irregular)), saved) == Some(q)
  {
    hide *;
    var one := AfterCheckpoint(slots, saved, p, Written);
    FirstCheckpoint(slots, saved, p);
    SecondCheckpoint(one, saved, q);
    TearTied(AfterCheckpoint(one, saved, q, Written), saved, p, q);
  }

  lemma FirstCheckpoint(slots: Slots, saved: string, p: ProjectSnapshot)
    requires Recoverable(saved, p) && Recovered(slots, saved).None?
    ensures var one := AfterCheckpoint(slots, saved, p, Written);
            InSlot(one, saved, 0) == Offered(p) && !InSlot(one, saved, 1).Offered?
  {
    hide ReadCheckpoint, Recoverable, Envelope, ProjectText;
    WrittenIsOffered(slots, saved, p);
  }

  lemma SecondCheckpoint(slots: Slots, saved: string, q: ProjectSnapshot)
    requires InSlot(slots, saved, 0).Offered? && !InSlot(slots, saved, 1).Offered? && Recoverable(saved, q)
    ensures var two := AfterCheckpoint(slots, saved, q, Written);
            InSlot(two, saved, 0) == InSlot(slots, saved, 0) && InSlot(two, saved, 1) == Offered(q)
  {
    hide ReadCheckpoint, Recoverable, Envelope, ProjectText;
    WrittenIsOffered(slots, saved, q);
  }

  lemma TearTied(slots: Slots, saved: string, p: ProjectSnapshot, q: ProjectSnapshot)
    requires InSlot(slots, saved, 0) == Offered(p) && InSlot(slots, saved, 1) == Offered(q) && p.revision == q.revision
    ensures Tied(slots, saved) && Recovered(slots, saved) == Some(p)
    ensures Recovered(AfterCheckpoint(slots, saved, q, Torn(Irregular)), saved) == Some(q)
  {
    hide ReadCheckpoint;
    IrregularIsDamaged(saved);
  }

  lemma IrregularIsDamaged(saved: string)
    ensures ReadCheckpoint(Irregular, saved) == Damaged
  {
  }

  datatype Attempt = Attempt(project: ProjectSnapshot, outcome: Outcome)

  function Run(slots: Slots, saved: string, attempts: seq<Attempt>): Slots {
    if attempts == [] then slots
    else
      var n := |attempts| - 1;
      AfterCheckpoint(Run(slots, saved, attempts[..n]), saved, attempts[n].project, attempts[n].outcome)
  }

  /** The project of the last attempt that was written, or what could be recovered before. */
  function LastWritten(attempts: seq<Attempt>, before: Option<ProjectSnapshot>): Option<ProjectSnapshot> {
    if attempts == [] then before
    else
      var n := |attempts| - 1;
      if attempts[n].outcome.Written? then Some(attempts[n].project) else LastWritten(attempts[..n], before)
  }

  /** The revision is above that of every attempt that was written. */
  ghost predicate AboveWritten(attempts: seq<Attempt>, revision: int) {
    forall j :: 0 <= j < |attempts| && attempts[j].outcome.Written? ==> attempts[j].project.revision < revision
  }

  /**
   Attempts on recoverable projects, each of a revision above every slot that was valid at the start and above
   every attempt written before it; a revision whose write failed or tore may be tried again.
   */
  ghost predicate Rising(slots: Slots, saved: string, attempts: seq<Attempt>) {
    && !Tied(slots, saved)
    && (forall i :: 0 <= i < |attempts| ==>
          && Recoverable(saved, attempts[i].project)
          && Newer(slots, saved, attempts[i].project.revision)
          && AboveWritten(attempts[..i], attempts[i].project.revision)
          && (attempts[i].outcome.Torn? ==> !ReadCheckpoint(attempts[i].outcome.file, saved).Offered?))
  }

  /** Over any run of checkpoints of rising revision, with writes that fail or tear at any point, recovery returns the
      last project that was written. */
  lemma {:induction false} RunOffersLastWritten(slots: Slots, saved: string, attempts: seq<Attempt>)
    requires Rising(slots, saved, attempts)
    ensures var after := Run(slots, saved, attempts);
            && Recovered(after, saved) == LastWritten(attempts, Recovered(slots, saved))
            && !Tied(after, saved)
            && (forall revision ::
                  Newer(slots, saved, revision) && AboveWritten(attempts, revision) ==> Newer(after, saved, revision))
  {
    hide ReadCheckpoint, Serialize, Deserialize, Envelope, Recoverable, Recovered, Tied, Newer, AfterCheckpoint;
    if attempts != [] {
      var n := |attempts| - 1;
      var before := Run(slots, saved, attempts[..n]);
      StillRising(slots, saved, attempts);
      RunOffersLastWritten(slots, saved, attempts[..n]);
      assert Newer(before, saved, attempts[n].project.revision);
      OneAttempt(before, saved, attempts[n]);
      forall revision | Newer(slots, saved, revision) && AboveWritten(attempts, revision)
        ensures Newer(Run(slots, saved, attempts), saved, revision)
      {
        assert AboveWritten(attempts[..n], revision);
        assert Newer(before, saved, revision);
      }
    }
  }

  lemma StillRising(slots: Slots, saved: string, attempts: seq<Attempt>)
    requires Rising(slots, saved, attempts) && attempts != []
    ensures Rising(slots, saved, attempts[..|attempts| - 1])
  {
    hide ReadCheckpoint, Recoverable, Tied, Newer, AboveWritten;
    var n := |attempts| - 1;
    forall i | 0 <= i < n
      ensures attempts[..n][i] == attempts[i] && attempts[..n][..i] == attempts[..i]
    {
    }
  }

  lemma OneAttempt(slots: Slots, saved: string, attempt: Attempt)
    requires Recoverable(saved, attempt.project) && !Tied(slots, saved)
    requires Newer(slots, saved, attempt.project.revision)
    requires attempt.outcome.Torn? ==> !ReadCheckpoint(attempt.outcome.file, saved).Offered?
    ensures var after := AfterCheckpoint(slots, saved, attempt.project, attempt.outcome);
            && Recovered(after, saved)
               == (if attempt.outcome.Written? then Some(attempt.project) else Recovered(slots, saved))
            && !Tied(after, saved)
            && (forall revision ::
                  (&& Newer(slots, saved, revision)
                   && (attempt.outcome.Written? ==> revision > attempt.project.revision)) ==>
                    Newer(after, saved, revision))
  {
    hide ReadCheckpoint, Serialize, Deserialize, Envelope, Recoverable, ProjectText;
    if attempt.outcome.Written? {
      WrittenIsOffered(slots, saved, attempt.project);
    }
    assert InSlot(slots, saved, 0).Offered? ==> attempt.project.revision > InSlot(slots, saved, 0).project.revision;
    assert InSlot(slots, saved, 1).Offered? ==> attempt.project.revision > InSlot(slots, saved, 1).project.revision;
  }

  // ----- the document

  /** A recovery file that cannot be removed. */
  predicate Stuck(file: File, removable: bool) {
    file.Irregular? || (file.Regular? && !removable)
  }

  /** What is left of the recovery files: they are removed in order, up to the first that cannot be. */
  function Discarded(slots: Slots, removable: seq<bool>): Slots
    requires |removable| == 2
  {
    if Stuck(slots[0], removable[0]) then slots
    else if Stuck(slots[1], removable[1]) then [Absent, slots[1]]
    else [Absent, Absent]
  }

  class DocumentFile {
    const writable: bool
    /** The files on disk, which other programs may change between calls. */
    var main: File
    var slots: Slots
    /** The bytes last opened or saved; empty while the document has never been saved. */
    var bytes: string
    var recoveryAccepted: bool
    var cleanupWarning: bool

    ghost predicate Valid()
      reads this
    {
      bytes == "" || Deserialize(bytes).Some?
    }

    constructor (main: File, slots: Slots, bytes: string, writable: bool)
      requires bytes == "" || Deserialize(bytes).Some?
      ensures Valid() && this.main == main && this.slots == slots && this.bytes == bytes && this.writable == writable
      ensures !recoveryAccepted && !cleanupWarning
    {
      this.main, this.slots, this.bytes, this.writable := main, slots, bytes, writable;
      recoveryAccepted, cleanupWarning := false, false;
    }

    /** `load`: the valid project that was opened or saved last. */
    method Load() returns (r: Result<ProjectSnapshot, FileError>)
      requires Valid()
      ensures r == Failure(ProjectUnavailable) <==> bytes == ""
      ensures r.Success? <==> bytes != ""
      ensures r.Success? ==> Model.Valid(r.value) && Deserialize(bytes) == Some(r.value)
    {
      hide Deserialize, Serialize, Model.Valid;
      if bytes == "" {
        return Failure(ProjectUnavailable);
      }
      Migration(bytes);
      return Success(Deserialize(bytes).value);
    }

    /** `recovery`: one pass over both slots. */
    method Recovery() returns (project: Option<ProjectSnapshot>, warning: bool)
      ensures project == Recovered(slots, bytes) && warning == Warned(slots, bytes)
    {
      hide ReadCheckpoint;
      project, warning := None, false;
      for slot := 0 to 2
        invariant slot == 0 ==> project == None && !warning
        invariant slot == 1 ==> warning == InSlot(slots, bytes, 0).Damaged?
        invariant slot == 1 ==>
                  project == if InSlot(slots, bytes, 0).Offered? then Some(InSlot(slots, bytes, 0).project) else None
        invariant slot == 2 ==> project == Recovered(slots, bytes) && warning == Warned(slots, bytes)
      {
        var candidate := ReadSlot(slots[slot], bytes);
        if candidate.Damaged? {
          warning := true;
        } else if candidate.Offered? && (project.None? || candidate.project.revision > project.value.revision) {
          project := Some(candidate.project);
        }
      }
    }

    method Recover() returns (r: Result<ProjectSnapshot, FileError>)
      modifies `recoveryAccepted
      ensures r.Success? <==> Recovered(slots, bytes).Some?
      ensures r.Success? ==> r.value == Recovered(slots, bytes).value && recoveryAccepted
      ensures r.Failure? ==> r.error == RecoveryUnavailable && recoveryAccepted == old(recoveryAccepted)
    {
      var project, warning := Recovery();
      if project.None? {
        return Failure(RecoveryUnavailable);
      }
      recoveryAccepted := true;
      return Success(project.value);
    }

    /** Whether writing may go on: the user has chosen what to do with what an earlier session left. */
    predicate Chosen()
      reads this
    {
      recoveryAccepted || (Recovered(slots, bytes).None? && !Warned(slots, bytes))
    }

    /** The project file still holds the bytes this document opened or saved. */
    predicate Untouched()
      reads this
    {
      if bytes == "" then main.Absent? else ReadBytes(main, MAX_BYTES) == Some(bytes)
    }

    /** Why a save is refused, in the order of its checks; the replacement of the file comes last. */
    function WriteRefusal(project: ProjectSnapshot): FileError
      reads this
    {
      if !Chosen() then RecoveryAvailable
      else if Serialize(project).None? then Unserializable
      else if !writable then PermissionDenied
      else if !Untouched() then SaveConflict
      else SaveFailed
    }

    method RequireRecoveryChoice() returns (r: Result<(), FileError>)
      ensures r == if Chosen() then Success(()) else Failure(RecoveryAvailable)
    {
      if !recoveryAccepted {
        var project, warning := Recovery();
        if project.Some? || warning {
          return Failure(RecoveryAvailable);
        }
      }
      return Success(());
    }

    method Unchanged() returns (r: Result<(), FileError>)
      ensures r == if !writable then Failure(PermissionDenied)
                   else if Untouched() then Success(())
                   else Failure(SaveConflict)
    {
      if !writable {
        return Failure(PermissionDenied);
      }
      if bytes == "" {
        return if main.Absent? then Success(()) else Failure(SaveConflict);
      }
      return if && main.Regular? && |main.bytes| <= 16 * 1024 * 1024
                && main.bytes == bytes then Success(()) else Failure(SaveConflict);
    }

    /** Removes both recovery files; `removable` says which the file system lets go. */
    method DiscardRecovery(removable: seq<bool>) returns (r: Result<(), FileError>)
      requires |removable| == 2
      modifies `slots, `recoveryAccepted
      ensures r.Success? <==>
              writable && forall i :: 0 <= i < 2 ==> old(slots)[i].Absent? || (old(slots)[i].Regular? && removable[i])
      ensures slots == if writable then Discarded(old(slots), removable) else old(slots)
      ensures r.Success? ==> slots == [Absent, Absent] && recoveryAccepted
      ensures r.Failure? ==> recoveryAccepted == old(recoveryAccepted)
    {
      if !writable {
        return Failure(PermissionDenied);
      }
      for slot := 0 to 2
        invariant recoveryAccepted == old(recoveryAccepted)
        invariant forall i :: 0 <= i < slot ==> slots[i].Absent? && !Stuck(old(slots)[i], removable[i])
        invariant forall i :: slot <= i < 2 ==> slots[i] == old(slots)[i]
      {
        if !slots[slot].Absent? {
          if slots[slot].Irregular? || !removable[slot] {
            return Failure(RecoveryFailed);
          }
          slots := slots[slot := Absent];
        }
      }
      recoveryAccepted := true;
      return Success(());
    }

    /** `save`; `replaced` says whether the file system replaced the project file. */
    method Save(project: ProjectSnapshot, replaced: bool, removable: seq<bool>) returns (r: Result<(), FileError>)
      requires Valid() && |removable| == 2
      modifies `main, `slots, `bytes, `recoveryAccepted, `cleanupWarning
      ensures Valid()
      ensures r.Success? <==>
              old(Chosen()) && Serialize(project).Some? && writable && old(Untouched()) && replaced
      ensures r.Failure? ==>
              && main == old(main) && slots == old(slots) && bytes == old(bytes)
              && recoveryAccepted == old(recoveryAccepted) && cleanupWarning == old(cleanupWarning)
              && r.error == old(WriteRefusal(project))
      ensures r.Success? ==>
              && main == Regular(ProjectText(project)) && bytes == ProjectText(project)
              && Deserialize(bytes) == Some(project) && Untouched()
              && slots == Discarded(old(slots), removable)
              && (cleanupWarning <==> slots != [Absent, Absent])
              && recoveryAccepted == (old(recoveryAccepted) || !cleanupWarning)
              && (forall i: nat :: i < 2 && old(InSlot(slots, bytes, i).Offered?) ==>
                    (InSlot(slots, bytes, i).Offered? <==> !slots[i].Absent? && bytes == old(bytes)))
    {
      hide Serialize, Deserialize, ReadCheckpoint, ProjectText, Recovered, Warned, RecordCount, Model.Valid;
      RoundTrip(project);
      SerializedIsSmall(project);
      var choice := RequireRecoveryChoice();
      if choice.Failure? { return choice; }
      var next := Serialize(project);
      if next.None? { return Failure(Unserializable); }
      var unchanged' := Unchanged();
      if unchanged'.Failure? { return unchanged'; }
      if !replaced { return Failure(SaveFailed); }
      main, bytes := Regular(next.value), next.value;
      cleanupWarning := false;
      var discarded := DiscardRecovery(removable);
      if discarded.Failure? {
        cleanupWarning := true;
      }
      AbsentIsMissing(bytes);
      forall i: nat | i < 2 && old(InSlot(slots, bytes, i).Offered?)
        ensures InSlot(slots, bytes, i).Offered? <==> !slots[i].Absent? && bytes == old(bytes)
      {
        if bytes != old(bytes) { OfferedUnderOneText(old(slots)[i], old(bytes), bytes); }
      }
      return Success(());
    }

    /** The checkpoint would not add anything: the project is the saved one, or the one recovery returns already. */
    predicate AlreadyKept(project: ProjectSnapshot)
      requires Valid()
      reads this
    {
      (bytes != "" && project == Deserialize(bytes).value) || Recovered(slots, bytes) == Some(project)
    }

    /** The project may be checkpointed over the saved one. */
    predicate Continuing(project: ProjectSnapshot)
      requires Valid()
      reads this
    {
      bytes == ""
      || (var base := Deserialize(bytes).value;
          project.id == base.id && project.revision >= base.revision && Serialize(base).Some?)
    }

    /** Why a checkpoint is refused, in the order of its checks. */
    function CheckpointRefusal(project: ProjectSnapshot): FileError
      requires Valid()
      reads this
    {
      var early := WriteRefusal(project);
      if early != SaveFailed then early
      else if && bytes != "" && project.id == Deserialize(bytes).value.id
              && project.revision >= Deserialize(bytes).value.revision && Serialize(Deserialize(bytes).value).None?
      then Unserializable
      else RecoveryFailed
    }

    /** `checkpoint`; `replaced` says whether the file system replaced the recovery file. */
    method Checkpoint(project: ProjectSnapshot, replaced: bool) returns (r: Result<(), FileError>)
      requires Valid()
      modifies `slots, `recoveryAccepted
      ensures Valid()
      ensures r.Success? <==>
              && old(Chosen()) && Serialize(project).Some? && writable && old(Untouched()) && old(Continuing(project))
              && (old(AlreadyKept(project)) || (!old(slots)[Target(old(slots), bytes)].Irregular? && replaced))
      ensures r.Failure? ==> r.error == old(CheckpointRefusal(project))
      ensures r.Failure? || old(AlreadyKept(project)) ==>
                slots == old(slots) && recoveryAccepted == old(recoveryAccepted)
      ensures r.Success? && !old(AlreadyKept(project)) ==>
              && slots == AfterCheckpoint(old(slots), bytes, project, Written) && recoveryAccepted
              && (Newer(old(slots), bytes, project.revision) ==> Recovered(slots, bytes) == Some(project))
    {
      hide Serialize, Deserialize, ReadCheckpoint, ProjectText, Recovered, Warned, Newer, Decimal;
      RoundTrip(project);
      var choice := RequireRecoveryChoice();
      if choice.Failure? { return choice; }
      var next := Serialize(project);
      if next.None? { return Failure(Unserializable); }
      var unchanged' := Unchanged();
      if unchanged'.Failure? { return unchanged'; }
      if bytes != "" {
        var base := Deserialize(bytes).value;
        if project.id != base.id || project.revision < base.revision { return Failure(RecoveryFailed); }
        var text := Serialize(base);
        if text.None? { return Failure(Unserializable); }
        if next == text {
          TextIdentifiesProject(project, base);
          return Success(());
        }
      }
      var first := ReadSlot(slots[0], bytes);
      var second := ReadSlot(slots[1], bytes);
      var target := 0;
      if first.Offered? && (!second.Offered? || first.project.revision > second.project.revision) {
        target := 1;
      }
      var latest, warning := Recovery();
      if latest == Some(project) { return Success(()); }
      if slots[target].Irregular? { return Failure(RecoveryFailed); }
      if !replaced { return Failure(RecoveryFailed); }
      ghost var before := slots;
      var data := "NLE_RECOVERY 1 " + Decimal(|bytes|) + " " + Decimal(|next.value|) + "\n" + bytes + next.value;
      EnvelopeIs(bytes, next.value);
      slots := slots[target := Regular(data)];
      recoveryAccepted := true;
      NewestWins(before, bytes, project);
      return Success(());
    }
  }

  lemma EnvelopeIs(saved: string, next: string)
    ensures Envelope(saved, next)
            == "NLE_RECOVERY 1 " + Decimal(|saved|) + " " + Decimal(|next|) + "\n" + saved + next
  {
    hide Digits;
    assert MAGIC + " 1 " == "NLE_RECOVERY 1 ";
  }

  lemma NewestWins(slots: Slots, saved: string, project: ProjectSnapshot)
    requires Recoverable(saved, project)
    ensures Newer(slots, saved, project.revision) ==>
              Recovered(AfterCheckpoint(slots, saved, project, Written), saved) == Some(project)
  {
    hide Serialize, Deserialize, Envelope, ReadCheckpoint, Recoverable, Recovered, AfterCheckpoint;
    NewCheckpointWins(slots, saved, project);
  }

  /** Opening a document: the file must be there (unless a new document is allowed) and hold a readable project. */
  method Open(main: File, slots: Slots, writable: bool, allowMissing: bool) returns (r: Result<DocumentFile, FileError>)
    ensures r.Success? <==>
            (main.Absent? && allowMissing) || (main.Regular? && Deserialize(main.bytes).Some?)
    ensures r.Success? ==>
            && fresh(r.value) && r.value.Valid() && r.value.Untouched() && !r.value.recoveryAccepted
            && r.value.main == main && r.value.slots == slots && r.value.writable == writable
            && r.value.bytes == (if main.Absent? then "" else main.bytes)
  {
    hide Deserialize;
    NoEmptyDocument();
    if main.Absent? {
      if !allowMissing { return Failure(ProjectUnavailable); }
      var empty := new DocumentFile(main, slots, "", writable);
      return Success(empty);
    }
    if main.Regular? { SavedIsSmall(main.bytes); }
    if main.Irregular? || |main.bytes| > 16 * 1024 * 1024 { return Failure(ProjectUnavailable); }
    var project := Deserialize(main.bytes);
    if project.None? { return Failure(ProjectUnavailable); }
    var document := new DocumentFile(main, slots, main.bytes, writable);
    return Success(document);
  }

  // ----- what calls in sequence come to

  /**
   What was saved is what is loaded, now and by whoever opens the file next; a failed save leaves what was
   loaded before.
   */
  method SaveThenLoad(document: DocumentFile, project: ProjectSnapshot, replaced: bool, removable: seq<bool>,
                      writable: bool)
    returns (saved: Result<(), FileError>, loaded: Result<ProjectSnapshot, FileError>,
             reopened: Result<ProjectSnapshot, FileError>)
    requires document.Valid() && |removable| == 2
    modifies document
    ensures document.Valid()
    ensures saved.Success? ==> loaded == Success(project) && reopened == Success(project)
    ensures saved.Failure? ==> document.bytes == old(document.bytes)
    ensures loaded.Success? <==> saved.Success? || old(document.bytes) != ""
    ensures saved.Failure? && loaded.Success? ==> Deserialize(old(document.bytes)) == Some(loaded.value)
  {
    hide Deserialize, Serialize, ProjectText, ReadCheckpoint, Model.Valid;
    NoEmptyDocument();
    saved := document.Save(project, replaced, removable);
    loaded := document.Load();
    var next := Open(document.main, document.slots, writable, false);
    if next.Failure? {
      reopened := Failure(next.error);
    } else {
      reopened := next.value.Load();
    }
  }

  /**
   A checkpoint above both slots survives a crash: whoever opens the document next is offered exactly that
   project.
   */
  method RecoverAfterCrash(document: DocumentFile, project: ProjectSnapshot, replaced: bool, writable: bool)
    returns (checkpointed: Result<(), FileError>, recovered: Result<ProjectSnapshot, FileError>)
    requires document.Valid()
    modifies document
    ensures document.Valid() && document.main == old(document.main) && document.bytes == old(document.bytes)
    ensures (&& checkpointed.Success? && !old(document.AlreadyKept(project))
             && Newer(old(document.slots), document.bytes, project.revision)) ==> recovered == Success(project)
  {
    hide Deserialize, Serialize, ProjectText, ReadCheckpoint, Recovered, Newer, Envelope;
    checkpointed := document.Checkpoint(project, replaced);
    var next := Open(document.main, document.slots, writable, true);
    if next.Failure? {
      recovered := Failure(next.error);
    } else {
      recovered := next.value.Recover();
    }
    SavedFits(document.bytes);
  }

  /**
   A writable project of the saved project's identity and of a higher revision is checkpointed whenever the choice has
   been made, the file is untouched, the saved project can still be written and neither slot is anything but a file; if
   no slot offers such a revision or a higher one, whoever opens the document next is offered exactly this project. A
   project of another identity or of a lower revision is refused and never offered.
   */
  method CheckpointNewer(document: DocumentFile, project: ProjectSnapshot, replaced: bool, writable: bool)
    returns (checkpointed: Result<(), FileError>, recovered: Result<ProjectSnapshot, FileError>)
    requires document.Valid() && document.bytes != ""
    modifies document
    ensures document.Valid() && document.bytes == old(document.bytes)
    ensures var saved := Deserialize(document.bytes).value;
            (&& project.id == saved.id && project.revision > saved.revision
             && Serialize(project).Some? && Serialize(saved).Some?
             && document.writable && old(document.Chosen()) && old(document.Untouched()) && replaced
             && !old(document.slots)[0].Irregular? && !old(document.slots)[1].Irregular?) ==>
              && checkpointed.Success?
              && (Newer(old(document.slots), document.bytes, project.revision) ==> recovered == Success(project))
    ensures var saved := Deserialize(document.bytes).value;
            project.id != saved.id || project.revision < saved.revision ==>
              && checkpointed.Failure? && document.slots == old(document.slots)
              && (old(document.Untouched()) ==> recovered != Success(project))
  {
    hide Deserialize, Serialize, ProjectText, ReadCheckpoint, Recovered, Newer, Envelope;
    SavedFits(document.bytes);
    if document.AlreadyKept(project) { KeptIsOffered(document, project); }
    checkpointed := document.Checkpoint(project, replaced);
    RecoveredContinues(document.slots, document.bytes);
    var next := Open(document.main, document.slots, writable, true);
    if next.Failure? {
      recovered := Failure(next.error);
    } else {
      recovered := next.value.Recover();
    }
  }

  /** A project of a revision above the saved one that is kept already is the one that recovery returns. */
  lemma KeptIsOffered(document: DocumentFile, project: ProjectSnapshot)
    requires document.Valid() && document.bytes != "" && document.AlreadyKept(project)
    ensures project.revision > Deserialize(document.bytes).value.revision ==>
              && Recovered(document.slots, document.bytes) == Some(project)
              && !Newer(document.slots, document.bytes, project.revision)
  {
    hide Deserialize, ReadCheckpoint;
  }

  lemma RecoveredContinues(slots: Slots, saved: string)
    requires saved != "" && Deserialize(saved).Some?
    ensures Recovered(slots, saved).Some? ==>
              var base, project := Deserialize(saved).value, Recovered(slots, saved).value;
              project.id == base.id && project.revision >= base.revision && project != base
  {
    hide Deserialize, ReadCheckpoint;
    if Recovered(slots, saved).Some? { OfferedContinues(slots[Best(slots, saved).value], saved); }
  }

  lemma SavedFits(bytes: string)
    requires bytes == "" || Deserialize(bytes).Some?
    ensures |bytes| <= MAX_BYTES
  {
    hide Deserialize;
    if bytes != "" { SavedIsSmall(bytes); }
  }

  /**
   Once another program has changed the project file nothing is written any more: neither a save nor a
   checkpoint succeeds, and the other program's file stays as it is.
   */
  method OutsideChangeIsKept(document: DocumentFile, outside: File, project: ProjectSnapshot, replaced: bool,
                             removable: seq<bool>)
    returns (saved: Result<(), FileError>, checkpointed: Result<(), FileError>)
    requires document.Valid() && |removable| == 2
    requires if document.bytes == "" then !outside.Absent? else outside != Regular(document.bytes)
    modifies document
    ensures document.Valid() && saved.Failure? && checkpointed.Failure?
    ensures document.main == outside && document.slots == old(document.slots) && document.bytes == old(document.bytes)
  {
    hide Deserialize, Serialize, ProjectText, ReadCheckpoint, Recovered, Warned;
    document.main := outside;
    var allowed := document.Unchanged();
    saved := document.Save(project, replaced, removable);
    checkpointed := document.Checkpoint(project, replaced);
  }
}
