/** The live editor: transactions, publishing, bounded history and the audit log (`src/commands/editor.cpp`). */
module Editing {
  import opened Wrappers
  import opened Model
  import opened Commands
  import opened History
  import Candidates
  import Validation

  datatype RequestContext = RequestContext(actor: Actor, caption: string, expectedRevision: Option<uint64>)

  datatype HistoryLimits = HistoryLimits(entries: nat, bytes: nat)

  datatype EditError =
    | InvalidContext
    | RevisionConflict
    | InvalidEdit
    | LogFull
    | BudgetExceeded
    | TransactionClosed
    | ForeignTransaction
    | CommandLimit

  /** `check_context`. */
  function CheckContext(context: RequestContext, revision: uint64): Option<EditError> {
    if !ValidActor(context.actor) || !ValidText(context.caption) then Some(InvalidContext)
    else if context.expectedRevision.Some? && context.expectedRevision.value != revision then Some(RevisionConflict)
    else None
  }

  /** `check_context`: an actor and a caption that are texts, and the live revision if one was expected. */
  method RefuseContext(context: RequestContext, revision: uint64) returns (refusal: Option<EditError>)
    ensures refusal == CheckContext(context, revision)
    ensures refusal == Some(InvalidContext) <==> !ValidText(context.actor.id) || !ValidText(context.caption)
    ensures refusal == Some(RevisionConflict) <==>
            && ValidText(context.actor.id) && ValidText(context.caption)
            && exists expected :: context.expectedRevision == Some(expected) && expected != revision
    ensures refusal.None? || refusal.value in {InvalidContext, RevisionConflict}
  {
    hide ValidText;
    var actor := Validation.CheckText(context.actor.id);
    var caption := Validation.CheckText(context.caption);
    if !actor || !caption {
      return Some(InvalidContext);
    }
    if context.expectedRevision.Some? && context.expectedRevision.value != revision {
      return Some(RevisionConflict);
    }
    return None;
  }

  predicate WellFormed(context: RequestContext) {
    ValidActor(context.actor) && ValidText(context.caption)
  }

  function RecordOf(project: ProjectSnapshot, context: RequestContext, kind: ChangeKind, target: uint64,
                    actions: seq<string>): OperationRecord
    requires project.revision < MAX_OPERATIONS
  {
    OperationRecord(project.revision + 1, project.revision + 1, context.actor, context.caption, kind, target, actions)
  }

  /** The candidate with one more record; `append_record` before its validation. */
  function Recorded(project: ProjectSnapshot, context: RequestContext, kind: ChangeKind, target: uint64,
                    actions: seq<string>): ProjectSnapshot
    requires project.revision < MAX_OPERATIONS
  {
    project.(revision := project.revision + 1,
             operations := project.operations + [RecordOf(project, context, kind, target, actions)])
  }

  /** `append_record`. */
  function AppendRecord(project: ProjectSnapshot, context: RequestContext, kind: ChangeKind, target: uint64,
                        actions: seq<string>): Result<ProjectSnapshot, EditError>
    requires project.revision == |project.operations|
  {
    if |project.operations| >= MAX_OPERATIONS then Failure(LogFull)
    else
      var recorded := Recorded(project, context, kind, target, actions);
      if Valid(recorded) then Success(recorded) else Failure(InvalidEdit)
  }

  /** `append_record`, step by step: a full log is refused before anything is changed, an invalid candidate after it. */
  method AddRecord(project: ProjectSnapshot, context: RequestContext, kind: ChangeKind, target: uint64,
                   actions: seq<string>)
    returns (r: Result<ProjectSnapshot, EditError>)
    requires project.revision == |project.operations|
    ensures r == AppendRecord(project, context, kind, target, actions)
    ensures r == Failure(LogFull) <==> project.revision >= 10000
    ensures r.Failure? ==> r.error in {LogFull, InvalidEdit}
    ensures r.Success? ==>
              var number := project.revision + 1;
              var record := OperationRecord(number, number, context.actor, context.caption, kind, target, actions);
              r.value == project.(revision := number, operations := project.operations + [record])
  {
    hide Valid;
    if |project.operations| >= 10000 {
      return Failure(LogFull);
    }
    var candidate := project.(revision := project.revision + 1);
    var record := OperationRecord(candidate.revision, candidate.revision, context.actor, context.caption, kind, target,
                                  actions);
    candidate := candidate.(operations := candidate.operations + [record]);
    var valid := Validation.Validate(candidate);
    return if valid then Success(candidate) else Failure(InvalidEdit);
  }

  /** The candidate with its edit record would not be a valid project. */
  predicate Unrecordable(candidate: ProjectSnapshot, context: RequestContext, actions: seq<string>) {
    candidate.revision < MAX_OPERATIONS ==> !Valid(Recorded(candidate, context, Edit, 0, actions))
  }

  predicate Increasing(ids: seq<uint64>) {
    forall i, j :: 0 <= i < j < |ids| ==> ids[i] < ids[j]
  }

  /** Identities `from` up to `to`. */
  function IdRange(from: uint64, to: uint64): seq<uint64>
    requires from <= to
  {
    seq(to - from, i requires 0 <= i < to - from => from + i)
  }

  /** Every live state so far: revisions count up from the first, logs only grow, the watermark never falls. */
  ghost predicate Linear(past: seq<ProjectSnapshot>) {
    && past != []
    && (forall i :: 0 <= i < |past| ==> past[i].revision == past[0].revision + i == |past[i].operations|)
    && (forall i, j :: 0 <= i < j < |past| ==> past[i].operations <= past[j].operations)
    && (forall i, j :: 0 <= i < j < |past| ==> past[i].nextId <= past[j].nextId)
  }

  lemma LinearExtends(past: seq<ProjectSnapshot>, next: ProjectSnapshot, record: OperationRecord)
    requires Linear(past)
    requires var last := past[|past| - 1];
             && next.revision == last.revision + 1 && next.operations == last.operations + [record]
             && last.nextId <= next.nextId
    ensures Linear(past + [next])
  {
    hide Valid;
    var all := past + [next];
    forall i, j | 0 <= i < j < |all|
      ensures all[i].operations <= all[j].operations && all[i].nextId <= all[j].nextId
    {
      if j == |past| && i < |past| - 1 {
        assert past[i].operations <= past[|past| - 1].operations;
      }
    }
  }

  /** Equal revisions of one session are the same state: there is no going back unnoticed. */
  lemma RevisionIdentifiesState(past: seq<ProjectSnapshot>, i: nat, j: nat)
    requires Linear(past) && i < |past| && j < |past| && past[i].revision == past[j].revision
    ensures past[i] == past[j]
  {
  }

  class Editor {
    var state: ProjectSnapshot
    const limits: HistoryLimits
    var undo: seq<RetainedEdit>
    var redo: seq<RetainedEdit>
    /** Every state that has been live, in order; the last one is the current state. */
    ghost var past: seq<ProjectSnapshot>
    /** Identities issued by committed edits, in order. */
    ghost var issued: seq<uint64>

    ghost predicate Valid()
      reads this
    {
      && Model.Valid(state)
      && Linear(past) && past[|past| - 1] == state
      && Held(undo, state, redo, limits.entries, limits.bytes)
      && LogAgrees(state.operations[past[0].revision..], undo, redo)
      && Increasing(issued) && (forall i :: 0 <= i < |issued| ==> issued[i] < state.nextId)
    }

    ghost function Timeline(): seq<Content>
      reads this
    {
      Line(undo, state, redo)
    }

    constructor (project: ProjectSnapshot, limits: HistoryLimits)
      requires Model.Valid(project)
      ensures Valid() && state == project && this.limits == limits && undo == [] && redo == []
      ensures past == [project] && issued == []
    {
      state, this.limits, undo, redo := project, limits, [], [];
      past, issued := [project], [];
      new;
      hide Model.Valid;
      assert project.revision == |project.operations| by { ValidRevision(project); }
      assert state.operations[past[0].revision..] == [];
    }

    /** The state after a publication: one more live state, newly issued identities. */
    ghost method Advance(next: ProjectSnapshot)
      requires past != [] && state.nextId <= next.nextId
      modifies this`past, this`issued
      ensures past == old(past) + [next] && issued == old(issued) + IdRange(state.nextId, next.nextId)
    {
      past := past + [next];
      issued := issued + IdRange(state.nextId, next.nextId);
    }

    /**
     `publish`. Either nothing changes, or the candidate goes live under one new edit record, redo is
     discarded, and the line of contents is cut after the cursor and extended by the new content.
     `bytes` is the measured size of the history entry.
     */
    method Publish(candidate: ProjectSnapshot, context: RequestContext, actions: seq<string>, bytes: nat)
      returns (r: Result<Option<uint64>, EditError>)
      requires Valid()
      requires candidate.revision == state.revision && candidate.operations == state.operations
      requires state.nextId <= candidate.nextId
      modifies this
      ensures Valid()
      ensures r.Failure? || r == Success(None) ==>
                && state == old(state) && undo == old(undo) && redo == old(redo)
                && past == old(past) && issued == old(issued)
      ensures r == Success(None) <==> candidate == old(state)
      ensures r.Failure? <==> PublishRefusal(old(state), candidate, context, actions, bytes).Some?
      ensures r.Failure? ==> Some(r.error) == PublishRefusal(old(state), candidate, context, actions, bytes)
      ensures r.Success? && r.value.Some? ==> Published(old(state), old(undo), candidate, context, actions, bytes)
      ensures r.Success? && r.value.Some? ==>
                && r.value.value == state.revision && state.nextId == candidate.nextId
                && past == old(past) + [state]
                && issued == old(issued) + IdRange(old(state).nextId, state.nextId)
    {
      hide Model.Valid, Held, LogAgrees, Linear, Increasing, EvictedFrom;
      if candidate == state {
        return Success(None);
      }
      ValidRevision(state);
      var recorded := AddRecord(candidate, context, Edit, 0, actions);
      if recorded.Failure? {
        return Failure(recorded.error);
      }
      var next := recorded.value;
      var retained, n := Retain(candidate, next, bytes);
      if retained.Failure? {
        return Failure(retained.error);
      }
      ghost var entry := RetainedEdit(ContentOnly(state), ContentOnly(candidate), next.revision, bytes);
      PublishKeepsHistory(state, undo, redo, limits, candidate, next, entry, n, retained.value);
      LinearStart(past);
      PublishKeepsLog(state, past[0].revision, undo, redo, RecordOf(candidate, context, Edit, 0, actions), entry, n,
                      retained.value);
      LinearExtends(past, next, RecordOf(candidate, context, Edit, 0, actions));
      IssueKeepsOrder(issued, state.nextId, next.nextId);
      LinearStart(past + [next]);
      Advance(next);
      state := next;
      undo := retained.value;
      redo := [];
      return Success(Some(next.revision));
    }

    /** One history entry alone is larger than the whole history may be. */
    predicate OverBudget(bytes: nat) {
      limits.entries > 0 && bytes > limits.bytes > 0
    }

    /** Why a changed candidate cannot go live: the first of the checks that fails, or none. */
    ghost function PublishRefusal(state: ProjectSnapshot, candidate: ProjectSnapshot, context: RequestContext,
                                  actions: seq<string>, bytes: nat): Option<EditError>
    {
      if candidate == state then None
      else if candidate.revision >= MAX_OPERATIONS then Some(LogFull)
      else if !Model.Valid(Recorded(candidate, context, Edit, 0, actions)) then Some(InvalidEdit)
      else if OverBudget(bytes) then Some(BudgetExceeded)
      else None
    }

    /** Why a command is refused: its context, the command itself, or publishing what it makes. */
    ghost function CommandRefusal(state: ProjectSnapshot, command: Command, context: RequestContext, summary: string,
                                  bytes: nat): Option<EditError>
    {
      var applied := Apply(state, command);
      if CheckContext(context, state.revision).Some? then CheckContext(context, state.revision)
      else if applied.None? then Some(InvalidEdit)
      else PublishRefusal(state, applied.value.0, context, [summary], bytes)
    }

    /** Why a commit is refused: the transaction is closed or another editor's, the live state moved on, its context, or
        publishing the candidate. */
    ghost function CommitRefusal(state: ProjectSnapshot, transaction: Transaction, bytes: nat): Option<EditError>
      reads transaction
    {
      if !transaction.Active() || transaction.owner != this then Some(ForeignTransaction)
      else if transaction.start != state then Some(RevisionConflict)
      else if CheckContext(transaction.context, state.revision).Some? then
        CheckContext(transaction.context, state.revision)
      else PublishRefusal(state, transaction.candidate.value, transaction.context, transaction.actions, bytes)
    }

    /** The history part of `publish`: the new entry, and eviction, on a copy of the undo stack. */
    method Retain(candidate: ProjectSnapshot, next: ProjectSnapshot, bytes: nat)
      returns (r: Result<seq<RetainedEdit>, EditError>, n: nat)
      ensures r.Failure? <==> limits.entries > 0 && limits.bytes > 0 && bytes > limits.bytes
      ensures r.Failure? ==> r.error == BudgetExceeded
      ensures r.Success? ==>
                var entry := RetainedEdit(ContentOnly(state), ContentOnly(candidate), next.revision, bytes);
                && n <= |undo|
                && (if limits.entries == 0 || limits.bytes == 0 then r.value == []
                    else && EvictedFrom(undo, entry, limits, n, r.value)
                         && |r.value| <= limits.entries && Bytes(r.value) <= limits.bytes)
    {
      n := 0;
      if limits.entries == 0 || limits.bytes == 0 {
        return Success([]), n;
      }
      if bytes > limits.bytes {
        return Failure(BudgetExceeded), n;
      }
      var before := state.(revision := 0, operations := []);
      var after := candidate.(revision := 0, operations := []);
      var entry := RetainedEdit(before, after, next.revision, bytes);
      var kept, dropped := Evict(undo + [entry], limits.entries, limits.bytes);
      assert (undo + [entry])[dropped..] == undo[dropped..] + [entry];
      return Success(kept), dropped;
    }

    /**
     `restore`. Undo and redo move the cursor along an unchanged line of contents and never lower the
     watermark. On a non-empty stack they are refused only for a bad context or a full log: the
     restored candidate always validates.
     */
    method Restore(forward: bool, context: RequestContext) returns (r: Result<bool, EditError>)
      requires Valid()
      modifies this
      ensures Valid()
      ensures r != Success(true) ==>
                && state == old(state) && undo == old(undo) && redo == old(redo)
                && past == old(past) && issued == old(issued)
      ensures var refusal := CheckContext(context, old(state).revision);
              var empty := if forward then old(redo) == [] else old(undo) == [];
              r == (if refusal.Some? then Failure(refusal.value)
                    else if empty then Success(false)
                    else if old(state).revision >= MAX_OPERATIONS then Failure(LogFull)
                    else Success(true))
      ensures r == Success(true) ==>
                && Timeline() == old(Timeline())
                && (if forward then undo == old(undo + [redo[|redo| - 1]]) && redo == old(redo[..|redo| - 1])
                    else undo == old(undo[..|undo| - 1]) && redo == old(redo + [undo[|undo| - 1]]))
                && state.nextId == old(state).nextId && past == old(past) + [state] && issued == old(issued)
                && state.revision == old(state).revision + 1
    {
      hide Model.Valid, Held, LogAgrees, Linear, Increasing, Restorable, Line;
      var refusal := RefuseContext(context, state.revision);
      if refusal.Some? {
        return Failure(refusal.value);
      }
      var from := if forward then redo else undo;
      if from == [] {
        return Success(false);
      }
      var edit := from[|from| - 1];
      var target := if forward then edit.after else edit.before;
      var raised := if target.nextId < state.nextId then state.nextId else target.nextId;
      var candidate := target.(nextId := raised, revision := state.revision, operations := state.operations);
      var kind := if forward then Redo else Undo;
      ValidRevision(state);
      RetainedRestorable(undo, state, redo, limits, forward);
      RestorableWatermark(edit, state);
      if state.revision < MAX_OPERATIONS {
        RestoredIsValid(state, edit, target, candidate, context, kind);
      }
      var recorded := AddRecord(candidate, context, kind, edit.operation, []);
      if recorded.Failure? {
        return Failure(recorded.error);
      }
      var next := recorded.value;
      ghost var record := RecordOf(candidate, context, kind, edit.operation, []);
      LinearStart(past);
      RestoreKeepsLog(state, past[0].revision, undo, redo, record, forward);
      LinearExtends(past, next, record);
      LinearStart(past + [next]);
      if forward {
        RedoHolds(undo, state, redo, limits.entries, limits.bytes, next);
        undo, redo := undo + [edit], redo[..|redo| - 1];
      } else {
        UndoHolds(undo, state, redo, limits.entries, limits.bytes, next);
        undo, redo := undo[..|undo| - 1], redo + [edit];
      }
      past := past + [next];
      state := next;
      return Success(true);
    }

    /** `Editor::execute`: one command, published at once. */
    method Execute(command: Command, context: RequestContext, summary: string, bytes: nat)
      returns (r: Result<(CommandResult, Option<uint64>), EditError>)
      requires Valid()
      modifies this
      ensures Valid()
      ensures r.Failure? || r.value.1.None? ==>
                && state == old(state) && undo == old(undo) && redo == old(redo)
                && past == old(past) && issued == old(issued)
      ensures r.Failure? <==> CommandRefusal(old(state), command, context, summary, bytes).Some?
      ensures r.Failure? ==> Some(r.error) == CommandRefusal(old(state), command, context, summary, bytes)
      ensures r.Success? ==> Executed(old(state), old(undo), command, context, summary, bytes, r.value)
      ensures r.Success? && r.value.1.Some? ==>
                && old(state).nextId <= state.nextId
                && past == old(past) + [state] && issued == old(issued) + IdRange(old(state).nextId, state.nextId)
    {
      hide Model.Valid, Held, LogAgrees, Linear, Increasing, Apply, Editor.Published, Creates, CreatedId, CheckContext;
      var refusal := RefuseContext(context, state.revision);
      if refusal.Some? {
        return Failure(refusal.value);
      }
      var copy := new Candidates.Candidate(state);
      var applied := copy.Apply(command);
      if applied.None? {
        return Failure(InvalidEdit);
      }
      ApplyKeeps(state, command);
      var published := Publish(copy.project, context, [summary], bytes);
      if published.Failure? {
        return Failure(published.error);
      }
      return Success((applied.value, published.value));
    }

    /** The command applied to the old state, either without effect or published under one record. */
    ghost predicate Executed(oldState: ProjectSnapshot, oldUndo: seq<RetainedEdit>, command: Command,
                             context: RequestContext, summary: string, bytes: nat,
                             outcome: (CommandResult, Option<uint64>))
      reads this
    {
      var applied := Apply(oldState, command);
      && applied.Some? && outcome.0 == applied.value.1
      && (outcome.1.None? ==> applied.value.0 == oldState)
      && (outcome.1.Some? ==> Published(oldState, oldUndo, applied.value.0, context, [summary], bytes))
    }

    /** `begin`: a private copy of the live state. */
    method Begin(context: RequestContext) returns (r: Result<Transaction, EditError>)
      requires Valid()
      ensures r.Failure? <==> CheckContext(context, state.revision).Some?
      ensures r.Failure? ==> r.error == CheckContext(context, state.revision).value
      ensures r.Success? ==>
                && fresh(r.value) && r.value.Valid() && r.value.owner == this && r.value.context == context
                && r.value.start == state && r.value.candidate == Some(state) && r.value.actions == []
    {
      hide Model.Valid, Held, LogAgrees, Increasing;
      var refusal := RefuseContext(context, state.revision);
      if refusal.Some? {
        return Failure(refusal.value);
      }
      var transaction := new Transaction(state, context, this);
      return Success(transaction);
    }

    /**
     `commit`. Accepted only while the live state still is the one the transaction began from; it
     publishes exactly the previewed content with 1 to 1024 actions. The transaction is closed either way.
     */
    method Commit(transaction: Transaction, bytes: nat) returns (r: Result<Option<uint64>, EditError>)
      requires Valid() && transaction.Valid()
      modifies this, transaction
      ensures Valid()
      ensures !transaction.Active()
      ensures r.Failure? || r == Success(None) ==>
                && state == old(state) && undo == old(undo) && redo == old(redo)
                && past == old(past) && issued == old(issued)
      ensures r.Failure? <==> old(CommitRefusal(state, transaction, bytes)).Some?
      ensures r.Failure? ==> Some(r.error) == old(CommitRefusal(state, transaction, bytes))
      ensures r.Success? ==> old(state) == transaction.start
      ensures r == Success(None) ==> old(transaction.candidate) == Some(old(state))
      ensures r.Success? && r.value.Some? ==>
                && old(transaction.candidate.Some?) && 1 <= |old(transaction.actions)| <= MAX_BATCH_COMMANDS
                && Published(old(state), old(undo), old(transaction.candidate).value, transaction.context,
                             old(transaction.actions), bytes)
                && past == old(past) + [state]
                && issued == old(issued) + IdRange(old(state).nextId, state.nextId)
      ensures r == Failure(InvalidEdit) ==>
                exists i :: 0 <= i < |old(transaction.actions)| && !ValidText(old(transaction.actions)[i])
    {
      hide Model.Valid, Held, LogAgrees, Increasing, Editor.Published, Linear;
      if transaction.candidate.None? || transaction.owner != this {
        transaction.Rollback();
        return Failure(ForeignTransaction);
      }
      ghost var i :| 0 <= i < |past| && past[i] == transaction.start;
      if transaction.base != state.revision {
        RevisionOfPast(past, i);
        transaction.Rollback();
        return Failure(RevisionConflict);
      }
      LinearStart(past);
      RevisionIdentifiesState(past, i, |past| - 1);
      var refusal := RefuseContext(transaction.context, state.revision);
      if refusal.Some? {
        transaction.Rollback();
        return Failure(refusal.value);
      }
      var candidate, actions := transaction.candidate.value, transaction.actions;
      if state.revision < MAX_OPERATIONS && actions != [] {
        CommitIsValid(state, candidate, transaction.context, actions);
      }
      r := Publish(candidate, transaction.context, actions, bytes);
      transaction.Rollback();
    }

    /** `changes_since`: the records after a revision, in order; a revision from the future is refused. */
    method ChangesSince(revision: uint64) returns (r: Result<seq<OperationRecord>, EditError>)
      requires Valid()
      ensures r == Failure(RevisionConflict) <==> revision > state.revision
      ensures r.Failure? ==> r.error == RevisionConflict
      ensures r.Success? ==>
                && state.operations == state.operations[..revision] + r.value
                && forall i :: 0 <= i < |r.value| ==> r.value[i].revision == revision + i + 1
    {
      if revision > state.revision {
        return Failure(RevisionConflict);
      }
      RecordsNumbered(state);
      return Success(state.operations[revision..]);
    }

    /** The relation between an old editor and the one after a publication. */
    ghost predicate Published(oldState: ProjectSnapshot, oldUndo: seq<RetainedEdit>, candidate: ProjectSnapshot,
                              context: RequestContext, actions: seq<string>, bytes: nat)
      reads this
    {
      && candidate.revision < MAX_OPERATIONS && state == Recorded(candidate, context, Edit, 0, actions)
      && redo == []
      && (if limits.entries == 0 || limits.bytes == 0 then undo == []
          else
            var entry := RetainedEdit(ContentOnly(oldState), ContentOnly(candidate), state.revision, bytes);
            exists n :: EvictedFrom(oldUndo, entry, limits, n, undo))
    }
  }

  /** History lost its oldest `n` entries and gained one, and lost no more than the limits demand. */
  ghost predicate EvictedFrom(undo: seq<RetainedEdit>, entry: RetainedEdit, limits: HistoryLimits, n: nat,
                              kept: seq<RetainedEdit>)
  {
    && n <= |undo| && kept == undo[n..] + [entry]
    && (n > 0 ==>
          var larger := (undo + [entry])[n - 1..];
          |larger| > limits.entries || Bytes(larger) > limits.bytes)
  }

  lemma ValidRevision(project: ProjectSnapshot)
    requires Model.Valid(project)
    ensures project.revision == |project.operations| <= MAX_OPERATIONS
    ensures ValidContent(project) && ValidLog(project.revision, project.operations)
  {
    hide ValidContent, ValidRecord;
  }

  lemma LinearStart(past: seq<ProjectSnapshot>)
    requires Linear(past)
    ensures past != [] && past[0].revision <= past[|past| - 1].revision == |past[|past| - 1].operations|
  {
  }

  lemma RetainedRestorable(undo: seq<RetainedEdit>, live: ProjectSnapshot, redo: seq<RetainedEdit>,
                           limits: HistoryLimits, forward: bool)
    requires Held(undo, live, redo, limits.entries, limits.bytes)
    ensures forward && redo != [] ==> Restorable(redo[|redo| - 1], live)
    ensures !forward && undo != [] ==> Restorable(undo[|undo| - 1], live)
  {
    hide Restorable, Chained, Bytes;
  }

  lemma RestorableWatermark(edit: RetainedEdit, live: ProjectSnapshot)
    requires Restorable(edit, live)
    ensures edit.before.nextId <= live.nextId && edit.after.nextId <= live.nextId
  {
    hide ValidContent;
  }

  lemma RestoredIsValid(live: ProjectSnapshot, edit: RetainedEdit, target: ProjectSnapshot, candidate: ProjectSnapshot,
                        context: RequestContext, kind: ChangeKind)
    requires Model.Valid(live) && live.revision < MAX_OPERATIONS && Restorable(edit, live)
    requires target == edit.before || target == edit.after
    requires candidate == target.(nextId := live.nextId, revision := live.revision, operations := live.operations)
    requires WellFormed(context) && (kind == Undo || kind == Redo)
    ensures Model.Valid(Recorded(candidate, context, kind, edit.operation, []))
  {
    hide ValidContent, Model.Valid;
    ValidRevision(live);
    var record := RecordOf(candidate, context, kind, edit.operation, []);
    RaisedWatermark(target, live.nextId, live.revision + 1, live.operations + [record]);
    RestoreRecordValid(live.operations, record);
    AppendedLog(live.operations, record);
    ValidFromParts(Recorded(candidate, context, kind, edit.operation, []));
  }

  lemma RestoreRecordValid(operations: seq<OperationRecord>, record: OperationRecord)
    requires |operations| < MAX_OPERATIONS
    requires record.id == |operations| + 1 == record.revision && record.actions == []
    requires ValidActor(record.actor) && ValidText(record.caption)
    requires record.kind == Undo || record.kind == Redo
    requires 0 < record.target <= |operations| && operations[record.target - 1].kind == Edit
    ensures ValidRecord(operations + [record], |operations|)
  {
    var all := operations + [record];
    assert all[record.target - 1] == operations[record.target - 1];
  }

  lemma ValidFromParts(project: ProjectSnapshot)
    requires ValidContent(project) && ValidLog(project.revision, project.operations)
    ensures Model.Valid(project)
  {
    hide ValidContent, ValidLog;
  }

  lemma RestoreKeepsLog(state: ProjectSnapshot, base: nat, undo: seq<RetainedEdit>, redo: seq<RetainedEdit>,
                        record: OperationRecord, forward: bool)
    requires base <= |state.operations| && LogAgrees(state.operations[base..], undo, redo)
    requires if forward then redo != [] && record.kind == Redo && record.target == redo[|redo| - 1].operation
             else undo != [] && record.kind == Undo && record.target == undo[|undo| - 1].operation
    ensures forward ==> LogAgrees((state.operations + [record])[base..], undo + [redo[|redo| - 1]], redo[..|redo| - 1])
    ensures !forward ==> LogAgrees((state.operations + [record])[base..], undo[..|undo| - 1], redo + [undo[|undo| - 1]])
  {
    hide LogAgrees;
    assert (state.operations + [record])[base..] == state.operations[base..] + [record];
    if forward {
      RedoAgrees(state.operations[base..], undo, redo, record);
    } else {
      UndoAgrees(state.operations[base..], undo, redo, record);
    }
  }

  lemma PublishKeepsHistory(state: ProjectSnapshot, undo: seq<RetainedEdit>, redo: seq<RetainedEdit>,
                            limits: HistoryLimits, candidate: ProjectSnapshot, next: ProjectSnapshot,
                            entry: RetainedEdit, n: nat, history: seq<RetainedEdit>)
    requires Model.Valid(state) && Held(undo, state, redo, limits.entries, limits.bytes) && n <= |undo|
    requires Model.Valid(next) && state.nextId <= candidate.nextId
    requires candidate.operations == state.operations && candidate.revision == state.revision
    requires next == candidate.(revision := next.revision, operations := next.operations)
    requires |next.operations| == |state.operations| + 1 && next.operations[..|state.operations|] == state.operations
    requires next.operations[|state.operations|].kind == Edit
    requires entry.before == ContentOnly(state) && entry.after == ContentOnly(candidate)
    requires entry.operation == |next.operations|
    requires || history == []
             || (&& history == undo[n..] + [entry]
                 && |history| <= limits.entries && Bytes(history) <= limits.bytes)
    ensures Held(history, next, [], limits.entries, limits.bytes)
  {
    hide Model.Valid, Restorable, Line;
    EntryRestorable(state, candidate, next, entry);
    if history == [] {
      EmptyBytes();
    } else {
      EditHolds(undo, state, redo, limits.entries, limits.bytes, next, entry, n);
    }
  }

  lemma EntryRestorable(state: ProjectSnapshot, candidate: ProjectSnapshot, next: ProjectSnapshot, entry: RetainedEdit)
    requires Model.Valid(state) && Model.Valid(next) && state.nextId <= candidate.nextId
    requires next == candidate.(revision := next.revision, operations := next.operations)
    requires next.operations != [] && next.operations[|next.operations| - 1].kind == Edit
    requires entry.before == ContentOnly(state) && entry.after == ContentOnly(candidate)
    requires entry.operation == |next.operations|
    ensures Restorable(entry, next)
  {
    hide ValidContent, Model.Valid;
    ValidRevision(state);
    ValidRevision(next);
    RaisedWatermark(state, state.nextId, 0, []);
    RaisedWatermark(next, next.nextId, 0, []);
  }

  lemma PublishKeepsLog(state: ProjectSnapshot, base: nat, undo: seq<RetainedEdit>, redo: seq<RetainedEdit>,
                        record: OperationRecord, entry: RetainedEdit, n: nat, history: seq<RetainedEdit>)
    requires base <= |state.operations| && LogAgrees(state.operations[base..], undo, redo)
    requires record.kind == Edit && entry.operation == record.id && n <= |undo|
    requires history == [] || history == undo[n..] + [entry]
    ensures LogAgrees((state.operations + [record])[base..], history, [])
  {
    hide LogAgrees;
    assert (state.operations + [record])[base..] == state.operations[base..] + [record];
    if history == [] {
      ClearedAgrees(state.operations[base..], undo, redo, record);
    } else {
      EditAgrees(state.operations[base..], undo, redo, record, entry, n);
    }
  }

  lemma IssueKeepsOrder(issued: seq<uint64>, from: uint64, to: uint64)
    requires Increasing(issued) && (forall i :: 0 <= i < |issued| ==> issued[i] < from) && from <= to
    ensures Increasing(issued + IdRange(from, to))
    ensures forall i :: 0 <= i < |issued + IdRange(from, to)| ==> (issued + IdRange(from, to))[i] < to
  {
  }

  lemma RecordsNumbered(project: ProjectSnapshot)
    requires Model.Valid(project)
    ensures project.revision == |project.operations|
    ensures forall i :: 0 <= i < |project.operations| ==> project.operations[i].revision == i + 1
  {
    hide ValidContent, ValidText;
    forall i | 0 <= i < |project.operations|
      ensures project.operations[i].revision == i + 1
    {
      assert ValidRecord(project.operations, i);
    }
  }

  lemma RevisionOfPast(past: seq<ProjectSnapshot>, i: nat)
    requires Linear(past) && i < |past|
    ensures past[i].revision == past[|past| - 1].revision ==> past[i] == past[|past| - 1]
  {
  }

  /** A staged candidate validates under its record unless an action's text does not. */
  lemma CommitIsValid(state: ProjectSnapshot, candidate: ProjectSnapshot, context: RequestContext, actions: seq<string>)
    requires Model.Valid(state) && Model.Valid(candidate) && state.revision < MAX_OPERATIONS
    requires candidate.revision == state.revision && candidate.operations == state.operations
    requires WellFormed(context) && 0 < |actions| <= MAX_BATCH_COMMANDS
    ensures (forall i :: 0 <= i < |actions| ==> ValidText(actions[i])) ==>
              Model.Valid(Recorded(candidate, context, Edit, 0, actions))
  {
    hide ValidContent, Model.Valid, ValidText;
    ValidRevision(candidate);
    if forall i :: 0 <= i < |actions| ==> ValidText(actions[i]) {
      var record := RecordOf(candidate, context, Edit, 0, actions);
      RaisedWatermark(candidate, candidate.nextId, candidate.revision + 1, candidate.operations + [record]);
      AppendedLog(candidate.operations, record);
      ValidFromParts(Recorded(candidate, context, Edit, 0, actions));
    }
  }

  // ----- transactions

  /** What staging has done to the copy taken at the beginning. */
  ghost predicate StagedFrom(start: ProjectSnapshot, candidate: ProjectSnapshot, actions: seq<string>, commands: nat) {
    && candidate.id == start.id && candidate.name == start.name
    && candidate.revision == start.revision && candidate.operations == start.operations
    && start.nextId <= candidate.nextId
    && |actions| <= commands <= MAX_BATCH_COMMANDS
    && (actions == [] ==> candidate == start)
  }

  class Transaction {
    var candidate: Option<ProjectSnapshot>
    var owner: Editor?
    const context: RequestContext
    const base: uint64
    var actions: seq<string>
    var commands: nat
    /** The live state when the transaction began. */
    ghost const start: ProjectSnapshot

    ghost predicate Active()
      reads this
    {
      candidate.Some? && owner != null
    }

    ghost predicate Valid()
      reads this, owner
    {
      && base == start.revision
      && (candidate.Some? ==> Model.Valid(candidate.value) && StagedFrom(start, candidate.value, actions, commands))
      && (owner != null ==> exists i :: 0 <= i < |owner.past| && owner.past[i] == start)
    }

    constructor (state: ProjectSnapshot, context: RequestContext, owner: Editor)
      requires owner.past != [] && owner.past[|owner.past| - 1] == state && Model.Valid(state)
      ensures Valid() && start == state && candidate == Some(state) && this.owner == owner && this.context == context
      ensures actions == [] && commands == 0
    {
      candidate, this.context, this.owner, base := Some(state), context, owner, state.revision;
      actions, commands, start := [], 0, state;
    }

    method Rollback()
      modifies this
      ensures candidate == None && owner == null && actions == []
    {
      candidate, owner, actions := None, null, [];
    }

    /**
     `Transaction::execute`: stages one command on the private copy. A failed command closes the whole
     transaction, so a successful prefix can never be committed by accident.
     */
    method Stage(command: Command, summary: string) returns (r: Result<CommandResult, EditError>)
      requires Valid()
      modifies this
      ensures Valid()
      ensures r == Failure(TransactionClosed) <==> !old(Active())
      ensures !old(Active()) ==> candidate == old(candidate) && actions == old(actions) && commands == old(commands)
      ensures old(Active()) && r.Failure? ==> !Active() && r.error in {CommandLimit, InvalidEdit}
      ensures r == Failure(CommandLimit) <==> old(Active()) && old(commands) >= MAX_BATCH_COMMANDS
      ensures r == Failure(InvalidEdit) <==>
              && old(Active()) && old(commands) < MAX_BATCH_COMMANDS
              && Apply(old(candidate).value, command).None?
      ensures r.Success? ==>
                && Active() && owner == old(owner) && commands == old(commands) + 1
                && Apply(old(candidate).value, command).Some?
                && candidate == Some(Apply(old(candidate).value, command).value.0)
                && r.value == Apply(old(candidate).value, command).value.1
                && actions == old(actions) + (if candidate != old(candidate) then [summary] else [])
    {
      hide Model.Valid, Apply;
      if candidate.None? || owner == null {
        return Failure(TransactionClosed);
      }
      if commands >= 1024 {
        Rollback();
        return Failure(CommandLimit);
      }
      var copy := new Candidates.Candidate(candidate.value);
      var applied := copy.Apply(command);
      if applied.None? {
        Rollback();
        return Failure(InvalidEdit);
      }
      ApplyKeeps(candidate.value, command);
      if copy.project != candidate.value {
        actions := actions + [summary];
      }
      candidate := Some(copy.project);
      commands := commands + 1;
      return Success(applied.value);
    }
  }

  /**
   Undoing `n` edits and redoing them restores the project's content, its watermark and the whole history;
   only the revision and the log have moved on.
   */
  method UndoThenRedo(editor: Editor, n: nat, context: RequestContext)
    requires editor.Valid() && n <= |editor.undo| && editor.state.revision + 2 * n <= MAX_OPERATIONS
    requires WellFormed(context) && context.expectedRevision.None?
    modifies editor
    ensures editor.Valid() && editor.undo == old(editor.undo) && editor.redo == old(editor.redo)
    ensures ContentOf(editor.state) == old(ContentOf(editor.state)) && editor.state.nextId == old(editor.state.nextId)
    ensures editor.state.revision == old(editor.state.revision) + 2 * n
  {
    hide Model.Valid, Held, LogAgrees, Linear, Increasing, ContentOf;
    ghost var undo, redo := editor.undo, editor.redo;
    var i := 0;
    while i < n
      invariant 0 <= i <= n && editor.Valid() && editor.Timeline() == old(editor.Timeline())
      invariant editor.undo == undo[..|undo| - i] && Stacked(redo, undo, i, editor.redo)
      invariant editor.state.nextId == old(editor.state.nextId)
      invariant editor.state.revision == old(editor.state.revision) + i
    {
      ghost var before := editor.redo;
      var undone := editor.Restore(false, context);
      StackedNext(redo, undo, i, before);
      i := i + 1;
    }
    while i > 0
      invariant 0 <= i <= n && editor.Valid() && editor.Timeline() == old(editor.Timeline())
      invariant editor.undo == undo[..|undo| - i] && Stacked(redo, undo, i, editor.redo)
      invariant editor.state.nextId == old(editor.state.nextId)
      invariant editor.state.revision == old(editor.state.revision) + 2 * n - i
    {
      assert undo[|undo| - i] == editor.redo[|redo| + i - 1];
      assert undo[..|undo| - i] + [undo[|undo| - i]] == undo[..|undo| - i + 1];
      var redone := editor.Restore(true, context);
      i := i - 1;
    }
    assert editor.Timeline()[|editor.undo|] == ContentOf(editor.state);
    assert old(editor.Timeline())[|editor.undo|] == old(ContentOf(editor.state));
  }

  /** The last `n` undo entries have been put on the redo stack, the latest first. */
  ghost predicate Stacked(redo: seq<RetainedEdit>, undo: seq<RetainedEdit>, n: nat, stacked: seq<RetainedEdit>)
    requires n <= |undo|
  {
    && |stacked| == |redo| + n && stacked[..|redo|] == redo
    && forall j :: |undo| - n <= j < |undo| ==> undo[j] == stacked[|redo| + |undo| - 1 - j]
  }

  lemma StackedNext(redo: seq<RetainedEdit>, undo: seq<RetainedEdit>, n: nat, stacked: seq<RetainedEdit>)
    requires n < |undo| && Stacked(redo, undo, n, stacked)
    ensures Stacked(redo, undo, n + 1, stacked + [undo[|undo| - n - 1]])
  {
  }

  /** After a roll-back the transaction takes no command, and committing it leaves the editor as it is. */
  method CommitAfterRollback(editor: Editor, transaction: Transaction, command: Command, summary: string, bytes: nat)
    returns (staged: Result<CommandResult, EditError>, committed: Result<Option<uint64>, EditError>)
    requires editor.Valid() && transaction.Valid()
    modifies editor, transaction
    ensures editor.Valid() && !transaction.Active()
    ensures staged == Failure(TransactionClosed) && committed == Failure(ForeignTransaction)
    ensures editor.state == old(editor.state) && editor.undo == old(editor.undo) && editor.redo == old(editor.redo)
    ensures editor.past == old(editor.past) && editor.issued == old(editor.issued)
  {
    transaction.Rollback();
    staged := transaction.Stage(command, summary);
    committed := editor.Commit(transaction, bytes);
  }
}
