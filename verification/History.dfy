/** What undo history means: a line of contents with a cursor, and the replay of the audit log. */
module History {
  import opened Wrappers
  import opened Model

  // ----- contents

  /** The part of a project that undo restores; revision, log and allocation watermark move on. */
  datatype Content = Content(id: uint64, name: string, media: seq<MediaAsset>, sequences: seq<Sequence>)

  function ContentOf(project: ProjectSnapshot): Content {
    Content(project.id, project.name, project.media, project.sequences)
  }

  /** `content_only`. */
  function ContentOnly(project: ProjectSnapshot): ProjectSnapshot {
    project.(revision := 0, operations := [])
  }

  datatype RetainedEdit = RetainedEdit(before: ProjectSnapshot, after: ProjectSnapshot, operation: uint64, bytes: nat)

  /** The contents reachable by undo and redo, oldest first; the live one is at index `|undo|`. */
  function Line(undo: seq<RetainedEdit>, live: ProjectSnapshot, redo: seq<RetainedEdit>): seq<Content> {
    seq(|undo|, i requires 0 <= i < |undo| => ContentOf(undo[i].before))
    + [ContentOf(live)]
    + seq(|redo|, i requires 0 <= i < |redo| => ContentOf(redo[|redo| - 1 - i].after))
  }

  /** Each step of the line is one retained edit: entries chain, and the live project sits at the cursor. */
  ghost predicate Chained(undo: seq<RetainedEdit>, live: ProjectSnapshot, redo: seq<RetainedEdit>) {
    && (forall i :: 0 <= i < |undo| - 1 ==> ContentOf(undo[i].after) == ContentOf(undo[i + 1].before))
    && (undo != [] ==> ContentOf(undo[|undo| - 1].after) == ContentOf(live))
    && (forall i :: 0 <= i < |redo| - 1 ==> ContentOf(redo[i + 1].after) == ContentOf(redo[i].before))
    && (redo != [] ==> ContentOf(redo[|redo| - 1].before) == ContentOf(live))
  }

  /** What lets an entry be restored later under any newer log and watermark. */
  ghost predicate Restorable(edit: RetainedEdit, live: ProjectSnapshot) {
    && ValidContent(edit.before) && ValidContent(edit.after)
    && edit.before.nextId <= live.nextId && edit.after.nextId <= live.nextId
    && 0 < edit.operation <= |live.operations| && live.operations[edit.operation - 1].kind == Edit
  }

  function Bytes(edits: seq<RetainedEdit>): nat {
    if edits == [] then 0 else Bytes(edits[..|edits| - 1]) + edits[|edits| - 1].bytes
  }

  lemma {:induction false} BytesConcat(a: seq<RetainedEdit>, b: seq<RetainedEdit>)
    ensures Bytes(a + b) == Bytes(a) + Bytes(b)
  {
    if b == [] {
      assert a + b == a;
    } else {
      assert (a + b)[..|a + b| - 1] == a + b[..|b| - 1];
      BytesConcat(a, b[..|b| - 1]);
    }
  }

  /** A larger watermark allocates no fewer identities. */
  lemma RaisedWatermark(project: ProjectSnapshot, nextId: uint64, revision: uint64, operations: seq<OperationRecord>)
    requires ValidContent(project) && project.nextId <= nextId
    ensures ValidContent(project.(nextId := nextId, revision := revision, operations := operations))
  {
    hide ValidAsset, ValidSequence, SequenceIds, NoDuplicates;
    var raised := project.(nextId := nextId, revision := revision, operations := operations);
    assert ObjectIds(raised) == ObjectIds(project);
  }

  /** Appending a well-formed record to a valid log leaves a valid log. */
  lemma AppendedLog(operations: seq<OperationRecord>, record: OperationRecord)
    requires |operations| < MAX_OPERATIONS && ValidLog(|operations|, operations)
    requires ValidRecord(operations + [record], |operations|)
    ensures ValidLog(|operations| + 1, operations + [record])
  {
    var all := operations + [record];
    forall i | 0 <= i < |all|
      ensures ValidRecord(all, i)
    {
      if i < |operations| { OldRecordsStayValid(operations, record, i); }
    }
  }

  lemma OldRecordsStayValid(operations: seq<OperationRecord>, record: OperationRecord, i: nat)
    requires i < |operations| && ValidRecord(operations, i)
    ensures ValidRecord(operations + [record], i)
  {
    var all := operations + [record];
    assert all[i] == operations[i];
    if 0 < all[i].target <= i { assert all[all[i].target - 1] == operations[all[i].target - 1]; }
  }

  // ----- replay

  datatype Stacks = Stacks(undo: seq<uint64>, redo: seq<uint64>)

  /** Rebuilds the two stacks from log records alone; fails when a target is not on top of its stack. */
  function Replay(records: seq<OperationRecord>): Option<Stacks> {
    if records == [] then Some(Stacks([], []))
    else
      var before := Replay(records[..|records| - 1]);
      if before.None? then None
      else ReplayStep(before.value, records[|records| - 1])
  }

  function ReplayStep(stacks: Stacks, record: OperationRecord): Option<Stacks> {
    match record.kind
    case Edit =>
      Some(Stacks(stacks.undo + [record.id], []))
    case Undo =>
      if stacks.undo == [] || stacks.undo[|stacks.undo| - 1] != record.target then None
      else Some(Stacks(stacks.undo[..|stacks.undo| - 1], stacks.redo + [record.target]))
    case Redo =>
      if stacks.redo == [] || stacks.redo[|stacks.redo| - 1] != record.target then None
      else Some(Stacks(stacks.undo + [record.target], stacks.redo[..|stacks.redo| - 1]))
  }

  lemma ReplayAppend(records: seq<OperationRecord>, record: OperationRecord)
    requires Replay(records).Some?
    ensures Replay(records + [record]) == ReplayStep(Replay(records).value, record)
  {
    var all := records + [record];
    assert all[..|all| - 1] == records;
  }

  function Operations(edits: seq<RetainedEdit>): seq<uint64> {
    seq(|edits|, i requires 0 <= i < |edits| => edits[i].operation)
  }

  predicate IsSuffix(part: seq<uint64>, whole: seq<uint64>) {
    |part| <= |whole| && whole[|whole| - |part|..] == part
  }

  /** The records replay to the redo stack exactly and to an undo stack the retained one is the end of. */
  ghost predicate LogAgrees(records: seq<OperationRecord>, undo: seq<RetainedEdit>, redo: seq<RetainedEdit>) {
    var stacks := Replay(records);
    && stacks.Some?
    && stacks.value.redo == Operations(redo)
    && IsSuffix(Operations(undo), stacks.value.undo)
  }

  lemma ClearedAgrees(records: seq<OperationRecord>, undo: seq<RetainedEdit>, redo: seq<RetainedEdit>,
                      record: OperationRecord)
    requires LogAgrees(records, undo, redo) && record.kind == Edit
    ensures LogAgrees(records + [record], [], [])
  {
    ReplayAppend(records, record);
  }

  /** A new edit discards redo; eviction drops the oldest `n` entries. */
  lemma EditAgrees(records: seq<OperationRecord>, undo: seq<RetainedEdit>, redo: seq<RetainedEdit>,
                   record: OperationRecord, last: RetainedEdit, n: nat)
    requires LogAgrees(records, undo, redo) && record.kind == Edit
    requires n <= |undo| && last.operation == record.id
    ensures LogAgrees(records + [record], undo[n..] + [last], [])
  {
    ReplayAppend(records, record);
    var whole, part := Replay(records).value.undo, Operations(undo);
    assert Operations(undo[n..] + [last]) == part[n..] + [record.id];
    assert whole[|whole| - |part|..][n..] == whole[|whole| - |part| + n..];
    assert (whole + [record.id])[|whole| - |part| + n..] == whole[|whole| - |part| + n..] + [record.id];
  }

  lemma UndoAgrees(records: seq<OperationRecord>, undo: seq<RetainedEdit>, redo: seq<RetainedEdit>,
                   record: OperationRecord)
    requires LogAgrees(records, undo, redo) && undo != []
    requires record.kind == Undo && record.target == undo[|undo| - 1].operation
    ensures LogAgrees(records + [record], undo[..|undo| - 1], redo + [undo[|undo| - 1]])
  {
    ReplayAppend(records, record);
    var whole, part := Replay(records).value.undo, Operations(undo);
    assert whole[|whole| - 1] == part[|part| - 1] by {
      assert part[|part| - 1] == whole[|whole| - |part|..][|part| - 1];
    }
    assert Operations(undo[..|undo| - 1]) == part[..|part| - 1];
    assert whole[..|whole| - 1][|whole| - |part|..] == part[..|part| - 1];
    assert Operations(redo + [undo[|undo| - 1]]) == Operations(redo) + [record.target];
  }

  lemma RedoAgrees(records: seq<OperationRecord>, undo: seq<RetainedEdit>, redo: seq<RetainedEdit>,
                   record: OperationRecord)
    requires LogAgrees(records, undo, redo) && redo != []
    requires record.kind == Redo && record.target == redo[|redo| - 1].operation
    ensures LogAgrees(records + [record], undo + [redo[|redo| - 1]], redo[..|redo| - 1])
  {
    ReplayAppend(records, record);
    var whole := Replay(records).value.undo;
    var grown := undo + [redo[|redo| - 1]];
    assert Operations(grown) == Operations(undo) + [record.target];
    assert (whole + [record.target])[|whole| - |undo|..] == Operations(grown);
    assert Operations(redo[..|redo| - 1]) == Operations(redo)[..|redo| - 1];
  }

  // ----- keeping history

  /** Retained edits chain through the live state, can all be restored and respect the limits. */
  ghost predicate Held(undo: seq<RetainedEdit>, live: ProjectSnapshot, redo: seq<RetainedEdit>, entries: nat,
                       bytes: nat)
  {
    && Chained(undo, live, redo)
    && (forall i :: 0 <= i < |undo| ==> Restorable(undo[i], live))
    && (forall i :: 0 <= i < |redo| ==> Restorable(redo[i], live))
    && |undo| + |redo| <= entries && Bytes(undo) + Bytes(redo) <= bytes
  }

  /** A later live state: the log has grown and the watermark has not fallen. */
  predicate Later(live: ProjectSnapshot, next: ProjectSnapshot) {
    live.operations <= next.operations && live.nextId <= next.nextId
  }

  lemma StillRestorable(edit: RetainedEdit, live: ProjectSnapshot, next: ProjectSnapshot)
    requires Restorable(edit, live) && Later(live, next)
    ensures Restorable(edit, next)
  {
    hide ValidContent;
    assert next.operations[edit.operation - 1] == live.operations[edit.operation - 1];
  }

  lemma AllRestorable(edits: seq<RetainedEdit>, live: ProjectSnapshot, next: ProjectSnapshot)
    requires (forall i :: 0 <= i < |edits| ==> Restorable(edits[i], live)) && Later(live, next)
    ensures forall i :: 0 <= i < |edits| ==> Restorable(edits[i], next)
  {
    hide Restorable;
    forall i | 0 <= i < |edits|
      ensures Restorable(edits[i], next)
    {
      StillRestorable(edits[i], live, next);
    }
  }

  lemma BytesOfLast(edits: seq<RetainedEdit>, edit: RetainedEdit)
    ensures Bytes(edits + [edit]) == Bytes(edits) + edit.bytes
  {
    assert (edits + [edit])[..|edits|] == edits;
  }

  /** Undoing moves the cursor one step back along an unchanged line. */
  lemma UndoHolds(undo: seq<RetainedEdit>, live: ProjectSnapshot, redo: seq<RetainedEdit>, entries: nat, bytes: nat,
                  next: ProjectSnapshot)
    requires Held(undo, live, redo, entries, bytes) && undo != [] && Later(live, next)
    requires ContentOf(next) == ContentOf(undo[|undo| - 1].before)
    ensures Held(undo[..|undo| - 1], next, redo + [undo[|undo| - 1]], entries, bytes)
    ensures Line(undo[..|undo| - 1], next, redo + [undo[|undo| - 1]]) == Line(undo, live, redo)
  {
    hide Restorable, ValidContent, ContentOf, Bytes;
    var n := |undo| - 1;
    var edit := undo[n];
    assert undo[..n] + [edit] == undo;
    BytesOfLast(undo[..n], edit);
    BytesOfLast(redo, edit);
    AllRestorable(undo, live, next);
    AllRestorable(redo, live, next);
  }

  /** Redoing moves the cursor one step forward along an unchanged line. */
  lemma RedoHolds(undo: seq<RetainedEdit>, live: ProjectSnapshot, redo: seq<RetainedEdit>, entries: nat, bytes: nat,
                  next: ProjectSnapshot)
    requires Held(undo, live, redo, entries, bytes) && redo != [] && Later(live, next)
    requires ContentOf(next) == ContentOf(redo[|redo| - 1].after)
    ensures Held(undo + [redo[|redo| - 1]], next, redo[..|redo| - 1], entries, bytes)
    ensures Line(undo + [redo[|redo| - 1]], next, redo[..|redo| - 1]) == Line(undo, live, redo)
  {
    hide Restorable, ValidContent, ContentOf, Bytes;
    var n := |redo| - 1;
    var edit := redo[n];
    assert redo[..n] + [edit] == redo;
    BytesOfLast(redo[..n], edit);
    BytesOfLast(undo, edit);
    AllRestorable(undo, live, next);
    AllRestorable(redo, live, next);
  }

  /** A new edit cuts the line after the cursor, drops what eviction drops and appends one content. */
  lemma EditHolds(undo: seq<RetainedEdit>, live: ProjectSnapshot, redo: seq<RetainedEdit>, entries: nat, bytes: nat,
                  next: ProjectSnapshot, edit: RetainedEdit, n: nat)
    requires Held(undo, live, redo, entries, bytes) && Later(live, next) && n <= |undo|
    requires Restorable(edit, next)
    requires ContentOf(edit.before) == ContentOf(live) && ContentOf(edit.after) == ContentOf(next)
    requires |undo[n..] + [edit]| <= entries && Bytes(undo[n..] + [edit]) <= bytes
    ensures Held(undo[n..] + [edit], next, [], entries, bytes)
    ensures Line(undo[n..] + [edit], next, []) == Line(undo, live, redo)[n..|undo| + 1] + [ContentOf(next)]
  {
    hide Restorable, ValidContent, ContentOf, Bytes;
    AllRestorable(undo, live, next);
    var kept := undo[n..] + [edit];
    forall i | 0 <= i < |kept|
      ensures Restorable(kept[i], next)
    {
      if i < |undo| - n { assert kept[i] == undo[n + i]; }
    }
    forall i | 0 <= i < |kept| - 1
      ensures ContentOf(kept[i].after) == ContentOf(kept[i + 1].before)
    {
      assert kept[i] == undo[n + i];
      if i + 1 < |undo| - n { assert kept[i + 1] == undo[n + i + 1]; }
    }
    EmptyBytes();
  }

  lemma EmptyBytes()
    ensures Bytes([]) == 0
  {
  }

  // ----- eviction

  lemma BytesOfFirst(edits: seq<RetainedEdit>)
    requires edits != []
    ensures Bytes(edits) == edits[0].bytes + Bytes(edits[1..])
  {
    assert edits == [edits[0]] + edits[1..];
    BytesConcat([edits[0]], edits[1..]);
    BytesOfLast([], edits[0]);
    assert [] + [edits[0]] == [edits[0]];
  }

  method TotalBytes(edits: seq<RetainedEdit>) returns (total: nat)
    ensures total == Bytes(edits)
  {
    total := 0;
    for i := 0 to |edits|
      invariant total == Bytes(edits[..i])
    {
      assert edits[..i + 1] == edits[..i] + [edits[i]];
      BytesOfLast(edits[..i], edits[i]);
      total := total + edits[i].bytes;
    }
    assert edits[..|edits|] == edits;
  }

  /** Drops the oldest entries, no more of them than the limits demand, and never the newest. */
  method Evict(history: seq<RetainedEdit>, entries: nat, bytes: nat) returns (kept: seq<RetainedEdit>, n: nat)
    requires history != [] && entries > 0 && history[|history| - 1].bytes <= bytes
    ensures n < |history| && kept == history[n..] && |kept| <= entries && Bytes(kept) <= bytes
    ensures n > 0 ==> |history[n - 1..]| > entries || Bytes(history[n - 1..]) > bytes
  {
    kept, n := history, 0;
    var total := TotalBytes(history);
    while |kept| > entries || total > bytes
      invariant n < |history| && kept == history[n..] && total == Bytes(kept)
      invariant n > 0 ==> |history[n - 1..]| > entries || Bytes(history[n - 1..]) > bytes
      decreases |kept|
    {
      BytesOfFirst(kept);
      EmptyBytes();
      total := total - kept[0].bytes;
      kept, n := kept[1..], n + 1;
    }
  }
}
