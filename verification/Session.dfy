/** One agent session over the tool protocol (`src/mcp/session.cpp`): every changing request runs at most once under its
    key, previews and probe jobs are accounted for, and a save stays possible when the record budget runs out. */
module AgentSessions {
  import opened Wrappers
  import opened Model

  const MAX_PAYLOAD: nat := 2 * 1024 * 1024
  const SAVE_RESERVE: nat := 4096
  const ORDINARY_RESERVE: nat := MAX_PAYLOAD + 8192
  const MAX_PROJECT_BYTES: nat := 8 * 1024 * 1024
  const MAX_PROPOSAL_BYTES: nat := 32 * 1024 * 1024
  const MAX_JOBS: nat := 64
  const MAX_PENDING: nat := 2
  const MAX_BATCH: nat := 128

  datatype Policy = Policy(
    allowEdit: bool,
    allowSave: bool,
    allowMedia: bool,
    checkpoints: bool,
    proposalLifetime: nat,
    maxProposals: nat,
    maxRequests: nat,
    maxMemoBytes: nat
  )

  // ----- the record budget

  function Reserve(save: bool): nat {
    if save then SAVE_RESERVE else ORDINARY_RESERVE
  }

  predicate Admits(policy: Policy, count: nat, bytes: nat, fingerprint: nat, save: bool) {
    && count < policy.maxRequests + (if save then 1 else 0)
    && bytes + fingerprint + Reserve(save) <= policy.maxMemoBytes
  }

  /** One recorded request: the sizes of its fingerprint and of its recorded result. */
  datatype Recorded = Recorded(save: bool, fingerprint: nat, result: nat)

  function Spent(records: seq<Recorded>): nat {
    if records == [] then 0
    else
      var n := |records| - 1;
      Spent(records[..n]) + records[n].fingerprint + records[n].result
  }

  /** Every request was admitted when it was recorded. */
  predicate Admitted(policy: Policy, records: seq<Recorded>) {
    forall i :: 0 <= i < |records| ==> Admits(policy, i, Spent(records[..i]), records[i].fingerprint, records[i].save)
  }

  lemma AdmittedWith(policy: Policy, records: seq<Recorded>, next: Recorded)
    requires Admitted(policy, records) && Admits(policy, |records|, Spent(records), next.fingerprint, next.save)
    ensures Admitted(policy, records + [next])
    ensures Spent(records + [next]) == Spent(records) + next.fingerprint + next.result
  {
    hide Admits;
    var all := records + [next];
    assert all[..|records|] == records;
    forall i | 0 <= i < |all|
      ensures Admits(policy, i, Spent(all[..i]), all[i].fingerprint, all[i].save)
    {
      if i < |records| {
        assert all[..i] == records[..i];
      }
    }
  }

  /** While results stay within what was reserved for them, the recorded bytes stay within the budget; and only a save
      can take the last place. */
  lemma BudgetIsKept(policy: Policy, records: seq<Recorded>)
    requires Admitted(policy, records)
    requires forall i :: 0 <= i < |records| ==> records[i].result <= Reserve(records[i].save)
    ensures Spent(records) <= policy.maxMemoBytes
    ensures |records| <= policy.maxRequests + 1
    ensures |records| == policy.maxRequests + 1 ==> records[|records| - 1].save
  {
    if records != [] {
      var n := |records| - 1;
      assert Admits(policy, n, Spent(records[..n]), records[n].fingerprint, records[n].save);
    }
  }

  /**
   Directly after an ordinary request a fresh save is admitted exactly when the save's fingerprint and its
   reserve fit in what the budget has left; a result of at most 2 MiB always leaves room for a fingerprint of
   4096 bytes.
   */
  lemma SaveStaysPossible(policy: Policy, records: seq<Recorded>, fingerprint: nat)
    requires Admitted(policy, records) && records != [] && !records[|records| - 1].save
    ensures Admits(policy, |records|, Spent(records), fingerprint, true) <==>
            Spent(records) + fingerprint + SAVE_RESERVE <= policy.maxMemoBytes
    ensures records[|records| - 1].result <= MAX_PAYLOAD && fingerprint <= 4096 ==>
            Admits(policy, |records|, Spent(records), fingerprint, true)
  {
    var n := |records| - 1;
    assert Admits(policy, n, Spent(records[..n]), records[n].fingerprint, records[n].save);
  }

  /** A result that fills the whole reserve, beyond 2 MiB, can shut every save out. */
  lemma FullReserveShutsSavesOut(policy: Policy, fingerprint: nat)
    requires policy.maxRequests > 0 && policy.maxMemoBytes == fingerprint + ORDINARY_RESERVE
    ensures var records := [Recorded(false, fingerprint, ORDINARY_RESERVE)];
            Admitted(policy, records) && forall f: nat :: !Admits(policy, 1, Spent(records), f, true)
  {
    var records := [Recorded(false, fingerprint, ORDINARY_RESERVE)];
    assert records[..0] == [];
    assert Spent([]) == 0;
    assert Spent(records) == fingerprint + ORDINARY_RESERVE;
  }

  // ----- proposals

  datatype Proposal = Proposal(base: nat, expires: int, bytes: nat)

  /** The accounted bytes of all open proposals with numbers up to `n`. */
  function OpenBytes(proposals: map<nat, Proposal>, n: nat): nat {
    if n == 0 then 0
    else OpenBytes(proposals, n - 1) + (if n in proposals then proposals[n].bytes else 0)
  }

  lemma {:induction false} OpenBytesSame(p: map<nat, Proposal>, q: map<nat, Proposal>, n: nat)
    requires forall id :: id <= n ==> (id in p <==> id in q) && (id in p ==> p[id] == q[id])
    ensures OpenBytes(p, n) == OpenBytes(q, n)
  {
    if n > 0 {
      OpenBytesSame(p, q, n - 1);
    }
  }

  lemma {:induction false} OpenBytesWithout(proposals: map<nat, Proposal>, id: nat, n: nat)
    requires id in proposals && 0 < id <= n
    ensures OpenBytes(proposals - {id}, n) + proposals[id].bytes == OpenBytes(proposals, n)
  {
    if n == id {
      OpenBytesSame(proposals - {id}, proposals, n - 1);
    } else {
      OpenBytesWithout(proposals, id, n - 1);
    }
  }

  /** The open proposals: numbered, within their limits, and with their bytes accounted for. */
  ghost predicate OpenValid(policy: Policy, proposals: map<nat, Proposal>, last: nat, bytes: nat) {
    && |proposals| <= policy.maxProposals
    && (forall id :: id in proposals ==> 0 < id <= last && proposals[id].bytes <= MAX_PROJECT_BYTES)
    && bytes == OpenBytes(proposals, last) <= MAX_PROPOSAL_BYTES
  }

  lemma ProposalAdded(policy: Policy, proposals: map<nat, Proposal>, last: nat, bytes: nat, proposal: Proposal)
    requires OpenValid(policy, proposals, last, bytes) && |proposals| < policy.maxProposals
    requires proposal.bytes <= MAX_PROJECT_BYTES && bytes + proposal.bytes <= MAX_PROPOSAL_BYTES
    ensures last + 1 !in proposals
    ensures OpenValid(policy, proposals[last + 1 := proposal], last + 1, bytes + proposal.bytes)
  {
    OpenBytesSame(proposals, proposals[last + 1 := proposal], last);
  }

  /** Skipping a number changes nothing, neither the proposals nor their bytes. */
  lemma ProposalSkipped(policy: Policy, proposals: map<nat, Proposal>, last: nat, bytes: nat)
    requires OpenValid(policy, proposals, last, bytes)
    ensures bytes == OpenBytes(proposals, last) && OpenValid(policy, proposals, last + 1, bytes)
  {
  }

  // ----- probe jobs

  datatype ProbeState = Running | Ready | Failed | Cancelled | Stale | Committed

  /** The background worker: still at work, ended but not asked yet, or asked and gone. */
  datatype Worker = Working | Ended(succeeded: bool) | Collected

  datatype ProbeJob =
    ProbeJob(state: ProbeState, relink: bool, base: nat, expires: int, stop: bool, worker: Worker, result: bool)

  /** A result is kept exactly while the job is ready; a running job still has its worker. */
  predicate GoodJob(job: ProbeJob) {
    && (job.result <==> job.state.Ready?)
    && (job.state.Running? ==> !job.worker.Collected?)
    && (job.state.Ready? || job.state.Failed? || job.state.Committed? ==> job.worker.Collected?)
  }

  /** How the state of one job may change: forwards only, and out of a final state never. */
  predicate Evolves(a: ProbeState, b: ProbeState) {
    match a
    case Running => true
    case Ready => !b.Running? && !b.Failed?
    case _ => b == a
  }

  /** `refresh_probe`: takes over the worker's result if it has ended; only a running job uses it. */
  function Refreshed(job: ProbeJob): ProbeJob {
    if !job.worker.Ended? then job
    else
      var asked := job.(worker := Collected);
      if !job.state.Running? then asked
      else if job.worker.succeeded then asked.(state := Ready, result := true)
      else asked.(state := Failed)
  }

  /** `refresh_probe`, step by step. */
  method RefreshProbe(job: ProbeJob) returns (asked: ProbeJob)
    ensures asked == Refreshed(job)
  {
    asked := job;
    if job.worker.Ended? {
      asked := asked.(worker := Collected);
      if job.worker.succeeded {
        if job.state.Running? {
          asked := asked.(result := true, state := Ready);
        }
      } else {
        if job.state.Running? {
          asked := asked.(state := Failed);
        }
      }
    }
  }

  /** A job that is dropped loses its result, and its worker is told to stop. */
  function Dropped(job: ProbeJob, state: ProbeState): ProbeJob {
    job.(stop := true, result := false, state := state)
  }

  /** A ready job that is out of date loses its result; its worker has ended and is told nothing. */
  function Outdated(job: ProbeJob): ProbeJob {
    job.(result := false, state := Stale)
  }

  function Expired(job: ProbeJob, now: int): ProbeJob {
    if now >= job.expires && (job.state.Running? || job.state.Ready?) then Dropped(job, Stale) else job
  }

  lemma ExpiredIs(job: ProbeJob, now: int)
    ensures Expired(job, now) == if now >= job.expires && (job.state == Running || job.state == Ready)
                                 then job.(stop := true, result := false, state := Stale) else job
  {
  }

  function Pending(probes: seq<ProbeJob>): nat {
    if probes == [] then 0
    else Pending(probes[..|probes| - 1]) + (if probes[|probes| - 1].worker.Working? then 1 else 0)
  }

  /** The count over the job list of the workers that have not ended. */
  method CountPending(probes: seq<ProbeJob>) returns (pending: nat)
    ensures pending == Pending(probes)
  {
    pending := 0;
    for i := 0 to |probes|
      invariant pending == Pending(probes[..i])
    {
      assert probes[..i + 1][..i] == probes[..i];
      if probes[i].worker.Working? {
        pending := pending + 1;
      }
    }
    assert probes[..|probes|] == probes;
  }

  /** The jobs whose worker is still at work. */
  function AtWork(probes: seq<ProbeJob>): set<nat> {
    set i: nat | i < |probes| && probes[i].worker.Working?
  }

  lemma {:induction false} PendingIsCount(probes: seq<ProbeJob>)
    ensures Pending(probes) == |AtWork(probes)|
  {
    if probes == [] {
      assert AtWork(probes) == {};
    } else {
      var n := |probes| - 1;
      PendingIsCount(probes[..n]);
      assert AtWork(probes) == AtWork(probes[..n]) + (if probes[n].worker.Working? then {n} else {});
    }
  }

  /** Jobs keep their number and may only stop working. */
  predicate Advanced(a: seq<ProbeJob>, b: seq<ProbeJob>) {
    && |a| == |b|
    && forall i :: 0 <= i < |a| ==>
         Evolves(a[i].state, b[i].state) && (b[i].worker.Working? ==> a[i].worker.Working?)
         && b[i].base == a[i].base && b[i].relink == a[i].relink && b[i].expires == a[i].expires
  }

  lemma {:induction false} PendingAdvanced(a: seq<ProbeJob>, b: seq<ProbeJob>)
    requires Advanced(a, b)
    ensures Pending(b) <= Pending(a)
  {
    if a != [] {
      var n := |a| - 1;
      PendingAdvanced(a[..n], b[..n]);
    }
  }

  lemma AdvancedStill(a: seq<ProbeJob>)
    ensures Advanced(a, a)
  {
  }

  lemma AdvancedTwice(a: seq<ProbeJob>, b: seq<ProbeJob>, c: seq<ProbeJob>)
    requires Advanced(a, b) && Advanced(b, c)
    ensures Advanced(a, c)
  {
  }

  /** Only a worker that ends with success gives a job something to commit. */
  ghost predicate Earned(job: ProbeJob) {
    job.worker == Ended(true) || job.state == Ready || job.state == Committed
  }

  /** The job list, the jobs that were committed, each once, and the jobs whose worker ended with success. */
  ghost predicate JobsValid(probes: seq<ProbeJob>, committed: seq<nat>, succeeded: set<nat>) {
    && |probes| <= MAX_JOBS && Pending(probes) <= MAX_PENDING
    && (forall i :: 0 <= i < |probes| ==> GoodJob(probes[i]))
    && (forall i, j :: 0 <= i < j < |committed| ==> committed[i] != committed[j])
    && (forall i :: 0 <= i < |committed| ==> committed[i] < |probes|)
    && (forall i: nat :: i < |probes| ==> (probes[i].state.Committed? <==> i in committed))
    && (forall i: nat :: i < |probes| && Earned(probes[i]) ==> i in succeeded)
  }

  lemma JobsAdvance(a: seq<ProbeJob>, b: seq<ProbeJob>, committed: seq<nat>, succeeded: set<nat>)
    requires JobsValid(a, committed, succeeded) && Advanced(a, b)
    requires forall i :: 0 <= i < |b| ==>
               && GoodJob(b[i]) && (b[i].state.Committed? <==> a[i].state.Committed?)
               && (Earned(b[i]) ==> Earned(a[i]))
    ensures JobsValid(b, committed, succeeded)
  {
    PendingAdvanced(a, b);
  }

  /** The passing of time keeps the job list valid. */
  lemma JobsExpired(a: seq<ProbeJob>, b: seq<ProbeJob>, committed: seq<nat>, succeeded: set<nat>, now: int)
    requires JobsValid(a, committed, succeeded) && |a| == |b|
    requires forall i :: 0 <= i < |a| ==> b[i] == Expired(Refreshed(a[i]), now)
    ensures JobsValid(b, committed, succeeded) && Advanced(a, b)
  {
    forall i | 0 <= i < |a|
      ensures GoodJob(b[i]) && (b[i].state.Committed? <==> a[i].state.Committed?) && (Earned(b[i]) ==> Earned(a[i]))
    {
      assert GoodJob(a[i]);
    }
    JobsAdvance(a, b, committed, succeeded);
  }

  lemma JobAdded(probes: seq<ProbeJob>, committed: seq<nat>, succeeded: set<nat>, job: ProbeJob)
    requires JobsValid(probes, committed, succeeded) && |probes| < MAX_JOBS && Pending(probes) < MAX_PENDING
    requires GoodJob(job) && job.state.Running? && job.worker.Working?
    ensures JobsValid(probes + [job], committed, succeeded)
  {
    var all := probes + [job];
    assert all[..|all| - 1] == probes;
    forall i: nat | i < |all|
      ensures GoodJob(all[i]) && (all[i].state.Committed? <==> i in committed) && (Earned(all[i]) ==> i in succeeded)
    {
      if i < |probes| { assert all[i] == probes[i]; }
    }
  }

  /** Only a job that has its result is committed, and none twice. */
  lemma JobCommitted(probes: seq<ProbeJob>, committed: seq<nat>, succeeded: set<nat>, job: nat)
    requires JobsValid(probes, committed, succeeded) && job < |probes| && probes[job].state.Ready?
    ensures job !in committed && job in succeeded
    ensures var after := probes[job := probes[job].(result := false, state := Committed)];
            JobsValid(after, committed + [job], succeeded) && Advanced(probes, after)
  {
    var after := probes[job := probes[job].(result := false, state := Committed)];
    assert GoodJob(probes[job]);
    PendingAdvanced(probes, after);
    forall i: nat | i < |after|
      ensures GoodJob(after[i]) && (after[i].state.Committed? <==> i in committed + [job])
      ensures Earned(after[i]) ==> i in succeeded
    {
      if i != job { assert after[i] == probes[i]; }
    }
  }

  // ----- paging through the audit log

  /** One page of the changes after a revision, the revision to go on from, and whether there is more. */
  function Page(log: seq<OperationRecord>, since: nat, limit: nat): (seq<OperationRecord>, nat, bool)
    requires since <= |log| && limit > 0
  {
    var changes := log[since..];
    var n := if limit < |changes| then limit else |changes|;
    (changes[..n], if n == 0 then since else changes[n - 1].revision, |changes| > limit)
  }

  /** Every page from a revision on, each continuing where the one before ended. */
  function AllPages(log: seq<OperationRecord>, since: nat, limit: nat): seq<OperationRecord>
    requires since <= |log| && limit > 0 && forall i :: 0 <= i < |log| ==> log[i].revision == i + 1
    decreases |log| - since
  {
    var (page, next, more) := Page(log, since, limit);
    if more then page + AllPages(log, next, limit) else page
  }

  /** Paging from a revision yields every later change once, in order, whatever the page size. */
  lemma {:induction false} PagesCoverTheLog(log: seq<OperationRecord>, since: nat, limit: nat)
    requires since <= |log| && limit > 0 && forall i :: 0 <= i < |log| ==> log[i].revision == i + 1
    ensures AllPages(log, since, limit) == log[since..]
    decreases |log| - since
  {
    var (page, next, more) := Page(log, since, limit);
    if more {
      PagesCoverTheLog(log, next, limit);
      assert log[since..] == log[since..since + limit] + log[since + limit..];
    } else {
      assert page == log[since..];
    }
  }

  // ----- requests and what the surroundings answer

  datatype Code =
    | InvalidArguments
    | WrongSession
    | WrongProject
    | PermissionDenied
    | RevisionConflict
    | JobLimit
    | JobMissing
    | JobPending
    | JobNotReady
    | MediaPathDenied
    | MediaMissing
    | MediaChanged
    | ProjectLimit
    | ProposalLimit
    | ProposalMissing
    | ResponseLimit
    | InvalidEdit
    | SaveFailed
    | IdempotencyConflict
    | SessionLimit
    | SessionExpired

  datatype Tool =
    | ProjectGet
    | ProbeStatus(job: nat)
    | ProbeStart(relink: bool)
    | ProbeCancel(job: nat)
    | MediaCommit(job: nat, relink: bool)
    | EditPreview(commands: nat)
    | EditCommit(proposal: nat)
    | EditRollback(proposal: nat)
    | HistoryStep
    | ProjectSave

  /** A decoded request. `complete`: the four common fields are there; `wellFormed`: revision and key are well formed;
      `extra`: some field is unknown to the tool or missing. */
  datatype Request = Request(
    tool: Tool,
    complete: bool,
    session: string,
    project: nat,
    wellFormed: bool,
    expected: nat,
    key: string,
    extra: bool,
    fingerprint: string
  )

  /** How the editor answers the publication of staged commands: it refuses, finds nothing to change, or publishes. */
  datatype Verdict = Rejected | NoChange | Changed

  datatype Body =
    | Refused(code: Code)
    | Info
    | Status(state: ProbeState)
    | Started(job: nat)
    | CancelResult(cancelled: bool)
    | Previewed(proposal: nat)
    | Closed
    | EditResult(changed: bool, recoveryError: bool)
    | SaveResult(revision: nat)

  datatype Reply = Reply(body: Body, size: nat)

  /**
   Everything outside the session that one call meets: the clock, the file system, the editor (`batch` is the
   accounted size of the staged candidate when its commands apply) and the saver, and how long a reply is when
   written out.
   */
  datatype World = World(
    now: int,
    approved: bool,
    assetExists: bool,
    fileUnchanged: bool,
    batch: Option<nat>,
    verdict: Verdict,
    saved: bool,
    checkpointed: bool,
    size: Body -> nat
  )

  /** The commands apply to a private copy that stays within the project limit. */
  predicate Staged(world: World) {
    world.batch.Some? && world.batch.value <= MAX_PROJECT_BYTES
  }

  datatype Memo = Memo(fingerprint: string, reply: Reply)

  predicate ReadOnly(tool: Tool) {
    tool.ProjectGet? || tool.ProbeStatus?
  }

  /** The recorded requests, in the order they ran. */
  ghost predicate RecordsMatch(memos: map<string, Memo>, executed: seq<string>, records: seq<Recorded>) {
    && |executed| == |records| == |memos|
    && (forall i, j :: 0 <= i < j < |executed| ==> executed[i] != executed[j])
    && (forall i :: 0 <= i < |executed| ==>
          && executed[i] in memos
          && records[i].fingerprint == |memos[executed[i]].fingerprint|
          && records[i].result == memos[executed[i]].reply.size)
    && (forall key :: key in memos ==> key in executed)
  }

  /** What tools and the passing of time change in a session. */
  datatype Desk = Desk(
    revision: nat,
    savedRevision: nat,
    recoveryRevision: Option<nat>,
    recoveryError: bool,
    proposals: map<nat, Proposal>,
    nextProposal: nat,
    probes: seq<ProbeJob>,
    committed: seq<nat>
  )

  class Session {
    const policy: Policy
    const sessionId: string
    const projectId: nat
    const startRevision: nat
    const sessionExpires: int

    /** The revision of the live editor. */
    var revision: nat
    var savedRevision: nat
    var recoveryRevision: Option<nat>
    var recoveryError: bool

    var proposals: map<nat, Proposal>
    var nextProposal: nat
    var proposalBytes: nat

    var probes: seq<ProbeJob>

    var memos: map<string, Memo>
    var memoBytes: nat

    /** The keys that were run, in order, with the sizes that were recorded for them. */
    ghost var executed: seq<string>
    ghost var records: seq<Recorded>
    /** The probe jobs whose result was committed, in order. */
    ghost var committed: seq<nat>
    /** The probe jobs whose worker ended with success. */
    ghost var succeeded: set<nat>

    ghost predicate ProposalsValid()
      reads `proposals, `nextProposal, `proposalBytes
    {
      OpenValid(policy, proposals, nextProposal, proposalBytes)
    }

    ghost predicate ProbesValid()
      reads `probes, `committed, `succeeded
    {
      JobsValid(probes, committed, succeeded)
    }

    ghost predicate RecordsValid()
      reads `memos, `memoBytes, `executed, `records
    {
      && RecordsMatch(memos, executed, records)
      && Admitted(policy, records) && memoBytes == Spent(records)
    }

    ghost function Now(): Desk
      reads `revision, `savedRevision, `recoveryRevision, `recoveryError, `proposals, `nextProposal, `probes, `committed
    {
      Desk(revision, savedRevision, recoveryRevision, recoveryError, proposals, nextProposal, probes, committed)
    }

    /** Unless an error is pending, the live project is as it was at the start, saved, or in a checkpoint. */
    ghost predicate Protected()
      reads `revision, `savedRevision, `recoveryRevision, `recoveryError
    {
      policy.checkpoints && !recoveryError ==>
        revision == startRevision || revision == savedRevision || recoveryRevision == Some(revision)
    }

    /** Every revision was made by a request of its own. */
    ghost predicate Accountable()
      reads `revision, `executed
    {
      startRevision <= revision <= startRevision + |executed|
    }

    ghost predicate Valid()
      reads this
    {
      ProposalsValid() && ProbesValid() && RecordsValid() && Protected() && Accountable()
    }

    constructor (policy: Policy, sessionId: string, projectId: nat, revision: nat, savedRevision: Option<nat>,
                 expires: int)
      ensures Valid()
      ensures this.policy == policy && this.sessionId == sessionId && this.projectId == projectId
      ensures this.revision == startRevision == revision && sessionExpires == expires
      ensures proposals == map[] && probes == [] && memos == map[] && executed == [] && records == []
    {
      this.policy, this.sessionId, this.projectId, this.startRevision, this.sessionExpires :=
        policy, sessionId, projectId, revision, expires;
      this.revision := revision;
      this.savedRevision := if savedRevision.Some? then savedRevision.value else revision;
      recoveryRevision, recoveryError := None, false;
      proposals, nextProposal, proposalBytes := map[], 0, 0;
      probes := [];
      memos, memoBytes := map[], 0;
      executed, records, committed, succeeded := [], [], [], {};
    }

    // ----- what each tool does

    /** A tool that changed nothing but perhaps the revision, when the editor published a change. */
    ghost function Edited(world: World, desk: Desk): Desk {
      if world.verdict.Changed? then desk.(revision := desk.revision + 1) else desk
    }

    function StatusRefusal(request: Request, job: nat, desk: Desk): Option<Code> {
      if !policy.allowMedia then Some(PermissionDenied)
      else if request.session != sessionId then Some(WrongSession)
      else if request.project != projectId then Some(WrongProject)
      else if job >= |desk.probes| then Some(JobMissing)
      else None
    }

    /** The job's state is told, after its worker has been asked. */
    ghost predicate StatusTold(request: Request, job: nat, before: Desk, body: Body, after: Desk) {
      var refusal := StatusRefusal(request, job, before);
      if refusal.Some? then body == Refused(refusal.value) && after == before
      else
        && after == before.(probes := before.probes[job := Refreshed(before.probes[job])])
        && body == Status(after.probes[job].state)
    }

    function StartRefusal(request: Request, relink: bool, world: World, desk: Desk): Option<Code> {
      if !policy.allowMedia then Some(PermissionDenied)
      else if request.expected != desk.revision then Some(RevisionConflict)
      else if |desk.probes| >= MAX_JOBS || Pending(desk.probes) >= MAX_PENDING then Some(JobLimit)
      else if !world.approved then Some(MediaPathDenied)
      else if relink && !world.assetExists then Some(MediaMissing)
      else None
    }

    /** A running job on the live revision is appended under the next number. */
    ghost predicate ProbeStarted(request: Request, relink: bool, world: World, before: Desk, body: Body, after: Desk) {
      var refusal := StartRefusal(request, relink, world, before);
      if refusal.Some? then body == Refused(refusal.value) && after == before
      else
        var job :=
          ProbeJob(Running, relink, before.revision, world.now + policy.proposalLifetime, false, Working, false);
        body == Started(|before.probes|) && after == before.(probes := before.probes + [job])
    }

    /** The worker is asked; a job that still runs or holds a result is given up. */
    ghost predicate ProbeCancelled(job: nat, before: Desk, body: Body, after: Desk) {
      if !policy.allowMedia then body == Refused(PermissionDenied) && after == before
      else if job >= |before.probes| then body == Refused(JobMissing) && after == before
      else
        var asked := Refreshed(before.probes[job]);
        var given := if asked.state.Running? || asked.state.Ready? then Dropped(asked, Cancelled) else asked;
        && after == before.(probes := before.probes[job := given])
        && body == CancelResult(given.state.Cancelled?)
    }

    function MediaRefusal(request: Request, job: nat, relink: bool, world: World, desk: Desk): Option<Code> {
      if !policy.allowMedia || !policy.allowEdit then Some(PermissionDenied)
      else if job >= |desk.probes| then Some(JobMissing)
      else
        var asked := Refreshed(desk.probes[job]);
        if relink != asked.relink then Some(InvalidArguments)
        else if asked.state.Running? then Some(JobPending)
        else if !asked.state.Ready? then Some(JobNotReady)
        else if asked.base != desk.revision || request.expected != desk.revision then Some(RevisionConflict)
        else if !world.approved || !world.fileUnchanged then Some(MediaChanged)
        else if world.batch.None? then Some(InvalidEdit)
        else if world.batch.value > MAX_PROJECT_BYTES then Some(ProjectLimit)
        else if world.verdict.Rejected? then Some(InvalidEdit)
        else None
    }

    /** A ready job is published and committed; one that is out of date goes stale; one refused otherwise stays. */
    ghost predicate MediaCommitted(request: Request, job: nat, relink: bool, world: World, before: Desk, body: Body,
                                   after: Desk)
    {
      var refusal := MediaRefusal(request, job, relink, world, before);
      if refusal == Some(PermissionDenied) || refusal == Some(JobMissing) then
        body == Refused(refusal.value) && after == before
      else
        job < |before.probes|
        && var asked := Refreshed(before.probes[job]);
           if refusal.None? then
             var desk := before.(probes := before.probes[job := asked.(result := false, state := Committed)],
                                 committed := before.committed + [job]);
             body == EditResult(world.verdict.Changed?, false) && after == Edited(world, desk)
           else
             var left := if OutOfDate(Refused(refusal.value)) then Outdated(asked) else asked;
             body == Refused(refusal.value) && after == before.(probes := before.probes[job := left])
    }

    ghost function PreviewRefusal(request: Request, commands: nat, world: World, desk: Desk): Option<Code> {
      if !(0 < commands <= MAX_BATCH) then Some(InvalidArguments)
      else if |desk.proposals| >= policy.maxProposals then Some(ProposalLimit)
      else if request.expected != desk.revision then Some(RevisionConflict)
      else if world.batch.None? then Some(InvalidEdit)
      else if || !Staged(world)
              || OpenBytes(desk.proposals, desk.nextProposal) + world.batch.value > MAX_PROPOSAL_BYTES
      then Some(ProposalLimit)
      else if world.size(Previewed(desk.nextProposal + 1)) > MAX_PAYLOAD then Some(ResponseLimit)
      else None
    }

    /** A proposal on the live revision is opened under the next number; a response that is too long only uses it up. */
    ghost predicate Proposed(request: Request, commands: nat, world: World, before: Desk, body: Body, after: Desk) {
      var refusal := PreviewRefusal(request, commands, world, before);
      var next := before.nextProposal + 1;
      if refusal == Some(ResponseLimit) then body == Refused(ResponseLimit) && after == before.(nextProposal := next)
      else if refusal.Some? then body == Refused(refusal.value) && after == before
      else
        world.batch.Some?
        && var proposal := Proposal(before.revision, world.now + policy.proposalLifetime, world.batch.value);
           && body == Previewed(next)
           && after == before.(proposals := before.proposals[next := proposal], nextProposal := next)
    }

    function CommitRefusal(request: Request, id: nat, world: World, desk: Desk): Option<Code> {
      if !policy.allowEdit then Some(PermissionDenied)
      else if id !in desk.proposals then Some(ProposalMissing)
      else if request.expected != desk.revision || desk.proposals[id].base != desk.revision then Some(RevisionConflict)
      else if world.verdict.Rejected? then Some(InvalidEdit)
      else None
    }

    /** With edit permission the proposal is closed whatever comes of it; on its own base revision it is published. */
    ghost predicate ProposalCommitted(request: Request, id: nat, world: World, before: Desk, body: Body, after: Desk) {
      var refusal := CommitRefusal(request, id, world, before);
      var closed := if policy.allowEdit then before.(proposals := before.proposals - {id}) else before;
      if refusal.Some? then body == Refused(refusal.value) && after == closed
      else body == EditResult(world.verdict.Changed?, false) && after == Edited(world, closed)
    }

    /** The proposal is closed, also when another revision was expected. */
    ghost predicate ProposalRolledBack(request: Request, id: nat, before: Desk, body: Body, after: Desk) {
      && after == before.(proposals := before.proposals - {id})
      && body == if id !in before.proposals then Refused(ProposalMissing)
                 else if request.expected != before.revision then Refused(RevisionConflict)
                 else Closed
    }

    /** One step of undo or redo on the expected revision. */
    ghost predicate HistoryStepped(request: Request, world: World, before: Desk, body: Body, after: Desk) {
      if !policy.allowEdit then body == Refused(PermissionDenied) && after == before
      else if request.expected != before.revision then body == Refused(RevisionConflict) && after == before
      else if world.verdict.Rejected? then body == Refused(InvalidEdit) && after == before
      else body == EditResult(world.verdict.Changed?, false) && after == Edited(world, before)
    }

    /** The live revision is saved, and nothing is pending any more. */
    ghost predicate Saved(request: Request, world: World, before: Desk, body: Body, after: Desk) {
      if !policy.allowSave then body == Refused(PermissionDenied) && after == before
      else if request.expected != before.revision then body == Refused(RevisionConflict) && after == before
      else if !world.saved then body == Refused(SaveFailed) && after == before
      else
        && body == SaveResult(before.revision)
        && after == before.(savedRevision := before.revision, recoveryRevision := None, recoveryError := false)
    }

    /** What the tool asked for makes of the session, and what it answers. */
    ghost predicate Done(request: Request, world: World, before: Desk, body: Body, after: Desk) {
      if request.extra then body == Refused(InvalidArguments) && after == before
      else
        match request.tool
        case ProjectGet => body == Info && after == before
        case ProbeStatus(job) => StatusTold(request, job, before, body, after)
        case ProbeStart(relink) => ProbeStarted(request, relink, world, before, body, after)
        case ProbeCancel(job) => ProbeCancelled(job, before, body, after)
        case MediaCommit(job, relink) => MediaCommitted(request, job, relink, world, before, body, after)
        case EditPreview(commands) => Proposed(request, commands, world, before, body, after)
        case EditCommit(proposal) => ProposalCommitted(request, proposal, world, before, body, after)
        case EditRollback(proposal) => ProposalRolledBack(request, proposal, before, body, after)
        case HistoryStep => HistoryStepped(request, world, before, body, after)
        case ProjectSave => Saved(request, world, before, body, after)
    }

    /** A published change that a recovery checkpoint follows. */
    predicate Checkpointed(body: Body) {
      body.EditResult? && body.changed && policy.checkpoints
    }

    /** The tool, and after a published change the checkpoint: it protects the new revision, or an error is pending. */
    ghost predicate Ran(request: Request, world: World, before: Desk, body: Body, after: Desk) {
      if !Checkpointed(body) then Done(request, world, before, body, after)
      else
        && Done(request, world, before, body.(recoveryError := false),
                after.(recoveryRevision := before.recoveryRevision, recoveryError := before.recoveryError))
        && body.recoveryError == after.recoveryError == !world.checkpointed
        && after.recoveryRevision == (if world.checkpointed then Some(after.revision) else before.recoveryRevision)
    }

    /** What the time of a call makes of the session before the call is looked at. */
    ghost function Aged(desk: Desk, now: int): Desk {
      desk.(
        proposals := map id | id in desk.proposals && desk.proposals[id].expires > now :: desk.proposals[id],
        probes := seq(|desk.probes|, i requires 0 <= i < |desk.probes| => AgedJob(desk.probes[i], now))
      )
    }

    function AgedJob(job: ProbeJob, now: int): ProbeJob {
      var asked := Expired(Refreshed(job), now);
      if now >= sessionExpires then Stopped(asked) else asked
    }

    // ----- time passing

    /** A background worker ends, at any time. */
    method WorkerEnds(job: nat, success: bool)
      requires ProbesValid() && job < |probes| && probes[job].worker.Working?
      modifies `probes, `succeeded
      ensures ProbesValid() && Advanced(old(probes), probes)
      ensures probes == old(probes)[job := old(probes)[job].(worker := Ended(success))]
      ensures succeeded == old(succeeded) + (if success then {job} else {})
    {
      var after := probes[job := probes[job].(worker := Ended(success))];
      PendingAdvanced(probes, after);
      probes := after;
      if success {
        succeeded := succeeded + {job};
      }
    }

    method ExpireProposals(now: int)
      requires ProposalsValid()
      modifies `proposals, `proposalBytes
      ensures ProposalsValid()
      ensures forall id :: id in proposals <==> id in old(proposals) && old(proposals)[id].expires > now
      ensures forall id :: id in proposals ==> proposals[id] == old(proposals)[id]
    {
      for id := 1 to nextProposal + 1
        invariant ProposalsValid()
        invariant forall k :: k in proposals <==> k in old(proposals) && (k < id ==> old(proposals)[k].expires > now)
        invariant forall k :: k in proposals ==> proposals[k] == old(proposals)[k]
      {
        if id in proposals && proposals[id].expires <= now {
          OpenBytesWithout(proposals, id, nextProposal);
          proposalBytes := proposalBytes - proposals[id].bytes;
          proposals := proposals - {id};
        }
      }
    }

    method ExpireProbes(now: int)
      requires ProbesValid()
      modifies `probes
      ensures ProbesValid() && Advanced(old(probes), probes)
      ensures forall i :: 0 <= i < |probes| ==> probes[i] == Expired(Refreshed(old(probes)[i]), now)
    {
      hide Expired, Refreshed, JobsValid, Advanced;
      for i := 0 to |probes|
        invariant |probes| == |old(probes)|
        invariant forall k :: 0 <= k < i ==> probes[k] == Expired(Refreshed(old(probes)[k]), now)
        invariant forall k :: i <= k < |probes| ==> probes[k] == old(probes)[k]
      {
        var job := RefreshProbe(probes[i]);
        if now >= job.expires && (job.state.Running? || job.state.Ready?) {
          job := job.(stop := true, result := false, state := Stale);
        }
        assert job == Expired(Refreshed(old(probes)[i]), now) by { ExpiredIs(Refreshed(old(probes)[i]), now); }
        probes := probes[i := job];
      }
      JobsExpired(old(probes), probes, committed, succeeded, now);
    }

    // ----- probe jobs

    method StartProbe(request: Request, relink: bool, world: World) returns (body: Body)
      requires ProbesValid()
      modifies `probes
      ensures ProbesValid()
      ensures body.Started? <==>
              && policy.allowMedia && request.expected == revision && |old(probes)| < MAX_JOBS
              && Pending(old(probes)) < MAX_PENDING && world.approved && (relink ==> world.assetExists)
      ensures body.Started? ==>
              && body.job == |old(probes)| && |probes| == |old(probes)| + 1 && probes[..|old(probes)|] == old(probes)
              && probes[body.job].state.Running? && probes[body.job].base == revision
              && probes[body.job].relink == relink
      ensures !body.Started? ==> body.Refused? && probes == old(probes)
      ensures ProbeStarted(request, relink, world, old(Now()), body, Now())
    {
      hide JobsValid, Pending;
      if !policy.allowMedia { return Refused(PermissionDenied); }
      if request.expected != revision { return Refused(RevisionConflict); }
      if |probes| >= 64 { return Refused(JobLimit); }
      var pending := CountPending(probes);
      if pending >= 2 { return Refused(JobLimit); }
      if !world.approved { return Refused(MediaPathDenied); }
      if relink && !world.assetExists { return Refused(MediaMissing); }
      var job := ProbeJob(Running, relink, revision, world.now + policy.proposalLifetime, false, Working, false);
      JobAdded(probes, committed, succeeded, job);
      assert (probes + [job])[..|probes|] == probes;
      probes := probes + [job];
      return Started(|probes| - 1);
    }

    /** Looks a job up and takes over what its worker has produced. */
    method FindJob(job: nat) returns (found: bool)
      requires ProbesValid()
      modifies `probes
      ensures ProbesValid() && Advanced(old(probes), probes)
      ensures found == (job < |probes|)
      ensures found ==> probes == old(probes)[job := Refreshed(old(probes)[job])] && !probes[job].worker.Ended?
      ensures !found ==> probes == old(probes)
    {
      if job >= |probes| { return false; }
      var asked := RefreshProbe(probes[job]);
      var after := probes[job := asked];
      JobsAdvance(probes, after, committed, succeeded);
      probes := after;
      return true;
    }

    method ProbeStatusOf(request: Request, job: nat) returns (body: Body)
      requires ProbesValid()
      modifies `probes
      ensures ProbesValid() && Advanced(old(probes), probes)
      ensures body.Status? <==>
              policy.allowMedia && request.session == sessionId && request.project == projectId && job < |probes|
      ensures !body.Status? ==> body.Refused?
      ensures body.Status? ==> probes == old(probes)[job := Refreshed(old(probes)[job])]
      ensures body.Status? ==> probes[job].state == body.state && (body.state.Ready? <==> probes[job].result)
      ensures StatusTold(request, job, old(Now()), body, Now())
    {
      if !policy.allowMedia { return Refused(PermissionDenied); }
      if request.session != sessionId { return Refused(WrongSession); }
      if request.project != projectId { return Refused(WrongProject); }
      var found := FindJob(job);
      if !found { return Refused(JobMissing); }
      return Status(probes[job].state);
    }

    method CancelProbe(job: nat) returns (body: Body)
      requires ProbesValid()
      modifies `probes
      ensures ProbesValid() && Advanced(old(probes), probes)
      ensures body.CancelResult? <==> policy.allowMedia && job < |probes|
      ensures !body.CancelResult? ==> body.Refused?
      ensures body.CancelResult? ==> (body.cancelled <==> probes[job].state.Cancelled?)
      ensures body.CancelResult? ==>
              var asked := Refreshed(old(probes)[job]);
              var given := if asked.state.Running? || asked.state.Ready? then Dropped(asked, Cancelled) else asked;
              probes == old(probes)[job := given]
      ensures ProbeCancelled(job, old(Now()), body, Now())
    {
      if !policy.allowMedia { return Refused(PermissionDenied); }
      var found := FindJob(job);
      if !found { return Refused(JobMissing); }
      if probes[job].state.Running? || probes[job].state.Ready? {
        Drop(job);
      }
      return CancelResult(probes[job].state.Cancelled?);
    }

    /** A running or ready job is given up. */
    method Drop(job: nat)
      requires ProbesValid() && job < |probes|
      requires probes[job].state.Running? || probes[job].state.Ready?
      modifies `probes
      ensures ProbesValid() && Advanced(old(probes), probes)
      ensures probes == old(probes)[job := Dropped(old(probes)[job], Cancelled)]
    {
      var after := probes[job := probes[job].(stop := true, result := false, state := Cancelled)];
      JobsAdvance(probes, after, committed, succeeded);
      probes := after;
    }

    method GoStale(job: nat)
      requires ProbesValid() && job < |probes| && probes[job].state.Ready?
      modifies `probes
      ensures ProbesValid() && Advanced(old(probes), probes)
      ensures probes == old(probes)[job := Outdated(old(probes)[job])]
    {
      var after := probes[job := probes[job].(result := false, state := Stale)];
      JobsAdvance(probes, after, committed, succeeded);
      probes := after;
    }

    /** The replies that make a ready job stale: the project or the file has changed since the probe. */
    static predicate OutOfDate(body: Body) {
      body == Refused(RevisionConflict) || body == Refused(MediaChanged)
    }

    /** Publishes the result of a ready job, once, or leaves everything as it is. */
    method PublishMedia(job: nat, world: World) returns (body: Body)
      requires ProbesValid() && job < |probes| && probes[job].state.Ready?
      modifies `probes, `committed, `revision
      ensures ProbesValid() && Advanced(old(probes), probes)
      ensures body.EditResult? <==> Staged(world) && !world.verdict.Rejected?
      ensures body.EditResult? ==>
              && body == EditResult(world.verdict.Changed?, false)
              && probes == old(probes)[job := old(probes)[job].(result := false, state := Committed)]
              && committed == old(committed) + [job]
              && revision == old(revision) + (if world.verdict.Changed? then 1 else 0)
      ensures !body.EditResult? ==>
              && body == Refused(if world.batch.Some? && !Staged(world) then ProjectLimit else InvalidEdit)
              && probes == old(probes) && committed == old(committed) && revision == old(revision)
    {
      hide JobsValid, Advanced, GoodJob;
      AdvancedStill(probes);
      if world.batch.None? { return Refused(InvalidEdit); }
      if world.batch.value > 8 * 1024 * 1024 { return Refused(ProjectLimit); }
      if world.verdict.Rejected? { return Refused(InvalidEdit); }
      JobCommitted(probes, committed, succeeded, job);
      probes := probes[job := probes[job].(result := false, state := Committed)];
      committed := committed + [job];
      if world.verdict.Changed? {
        revision := revision + 1;
      }
      return EditResult(world.verdict.Changed?, false);
    }

    /** Commits a ready job. A job whose file or revision is out of date goes stale; one whose edit is refused stays. */
    method CommitMedia(request: Request, job: nat, relink: bool, world: World) returns (body: Body)
      requires ProbesValid()
      modifies `probes, `committed, `revision
      ensures ProbesValid() && Advanced(old(probes), probes)
      ensures body.EditResult? <==>
              && policy.allowMedia && policy.allowEdit && job < |old(probes)| && relink == old(probes)[job].relink
              && Refreshed(old(probes)[job]).state.Ready? && old(probes)[job].base == old(revision) == request.expected
              && world.approved && world.fileUnchanged && Staged(world) && !world.verdict.Rejected?
      ensures body.EditResult? ==>
              && committed == old(committed) + [job] && probes[job].state.Committed? && !body.recoveryError
              && body.changed == world.verdict.Changed?
      ensures !body.EditResult? ==> body.Refused? && committed == old(committed)
      ensures revision == old(revision) + (if body.EditResult? && body.changed then 1 else 0)
      ensures MediaCommitted(request, job, relink, world, old(Now()), body, Now())
    {
      hide JobsValid, Advanced, Refreshed, Outdated;
      AdvancedStill(probes);
      if !policy.allowMedia || !policy.allowEdit { return Refused(PermissionDenied); }
      var found := FindJob(job);
      if !found { return Refused(JobMissing); }
      ghost var asked := probes;
      if relink != probes[job].relink { return Refused(InvalidArguments); }
      if probes[job].state.Running? { return Refused(JobPending); }
      if !probes[job].state.Ready? { return Refused(JobNotReady); }
      if probes[job].base != revision || request.expected != revision {
        GoStale(job);
        AdvancedTwice(old(probes), asked, probes);
        return Refused(RevisionConflict);
      }
      if !world.approved || !world.fileUnchanged {
        GoStale(job);
        AdvancedTwice(old(probes), asked, probes);
        return Refused(MediaChanged);
      }
      body := PublishMedia(job, world);
      AdvancedTwice(old(probes), asked, probes);
    }

    // ----- proposals

    method Preview(request: Request, commands: nat, world: World) returns (body: Body)
      requires ProposalsValid()
      modifies `proposals, `nextProposal, `proposalBytes
      ensures ProposalsValid()
      ensures body.Previewed? <==>
              && 0 < commands <= MAX_BATCH && |old(proposals)| < policy.maxProposals && request.expected == revision
              && Staged(world) && old(proposalBytes) + world.batch.value <= MAX_PROPOSAL_BYTES
              && world.size(Previewed(old(nextProposal) + 1)) <= MAX_PAYLOAD
      ensures body.Previewed? ==>
              && body.proposal == nextProposal == old(nextProposal) + 1 && body.proposal !in old(proposals)
              && proposals == old(proposals)[body.proposal :=
                   Proposal(revision, world.now + policy.proposalLifetime, world.batch.value)]
      ensures old(nextProposal) <= nextProposal <= old(nextProposal) + 1
      ensures !body.Previewed? ==> body.Refused? && proposals == old(proposals) && proposalBytes == old(proposalBytes)
      ensures body.Refused? && body.code.ProposalLimit? ==>
              |old(proposals)| >= policy.maxProposals
              || (world.batch.Some? && (world.batch.value > MAX_PROJECT_BYTES
                                        || old(proposalBytes) + world.batch.value > MAX_PROPOSAL_BYTES))
      ensures Proposed(request, commands, world, old(Now()), body, Now())
    {
      hide OpenValid, OpenBytes;
      ProposalSkipped(policy, proposals, nextProposal, proposalBytes);
      if commands == 0 || commands > 128 { return Refused(InvalidArguments); }
      if |proposals| >= policy.maxProposals { return Refused(ProposalLimit); }
      if request.expected != revision { return Refused(RevisionConflict); }
      if world.batch.None? { return Refused(InvalidEdit); }
      var bytes := world.batch.value;
      if bytes > 8 * 1024 * 1024 || proposalBytes + bytes > 32 * 1024 * 1024 { return Refused(ProposalLimit); }
      nextProposal := nextProposal + 1;
      if world.size(Previewed(nextProposal)) > 2 * 1024 * 1024 { return Refused(ResponseLimit); }
      var proposal := Proposal(revision, world.now + policy.proposalLifetime, bytes);
      ProposalAdded(policy, proposals, nextProposal - 1, proposalBytes, proposal);
      proposals := proposals[nextProposal := proposal];
      proposalBytes := proposalBytes + bytes;
      return Previewed(nextProposal);
    }

    /** A commit or roll-back closes the proposal first, whatever comes of it. */
    method CloseProposal(id: nat)
      requires ProposalsValid() && id in proposals
      modifies `proposals, `proposalBytes
      ensures ProposalsValid() && proposals == old(proposals) - {id}
      ensures proposalBytes + old(proposals)[id].bytes == old(proposalBytes)
    {
      OpenBytesWithout(proposals, id, nextProposal);
      proposalBytes := proposalBytes - proposals[id].bytes;
      proposals := proposals - {id};
    }

    method CommitProposal(request: Request, id: nat, world: World) returns (body: Body)
      requires ProposalsValid()
      modifies `proposals, `proposalBytes, `revision
      ensures ProposalsValid()
      ensures body.EditResult? <==>
              && policy.allowEdit && id in old(proposals)
              && request.expected == old(revision) == old(proposals)[id].base
              && !world.verdict.Rejected?
      ensures body.EditResult? ==> body.changed == world.verdict.Changed? && !body.recoveryError
      ensures !body.EditResult? ==> body.Refused?
      ensures proposals == if policy.allowEdit then old(proposals) - {id} else old(proposals)
      ensures revision == old(revision) + (if body.EditResult? && body.changed then 1 else 0)
      ensures ProposalCommitted(request, id, world, old(Now()), body, Now())
    {
      if !policy.allowEdit { return Refused(PermissionDenied); }
      if id !in proposals {
        assert proposals - {id} == proposals;
        return Refused(ProposalMissing);
      }
      var base := proposals[id].base;
      CloseProposal(id);
      if request.expected != revision || base != revision { return Refused(RevisionConflict); }
      if world.verdict.Rejected? { return Refused(InvalidEdit); }
      if world.verdict.Changed? {
        revision := revision + 1;
      }
      return EditResult(world.verdict.Changed?, false);
    }

    method RollBackProposal(request: Request, id: nat) returns (body: Body)
      requires ProposalsValid()
      modifies `proposals, `proposalBytes
      ensures ProposalsValid() && proposals == old(proposals) - {id}
      ensures body.Closed? <==> id in old(proposals) && request.expected == revision
      ensures !body.Closed? ==> body.Refused?
      ensures ProposalRolledBack(request, id, old(Now()), body, Now())
    {
      if id !in proposals {
        assert proposals - {id} == proposals;
        return Refused(ProposalMissing);
      }
      CloseProposal(id);
      if request.expected != revision { return Refused(RevisionConflict); }
      return Closed;
    }

    // ----- history and saving

    method StepHistory(request: Request, world: World) returns (body: Body)
      modifies `revision
      ensures body.EditResult? <==> policy.allowEdit && request.expected == old(revision) && !world.verdict.Rejected?
      ensures body.EditResult? ==> body.changed == world.verdict.Changed? && !body.recoveryError
      ensures !body.EditResult? ==> body.Refused?
      ensures revision == old(revision) + (if body.EditResult? && body.changed then 1 else 0)
      ensures HistoryStepped(request, world, old(Now()), body, Now())
    {
      if !policy.allowEdit { return Refused(PermissionDenied); }
      if request.expected != revision { return Refused(RevisionConflict); }
      if world.verdict.Rejected? { return Refused(InvalidEdit); }
      if world.verdict.Changed? {
        revision := revision + 1;
      }
      return EditResult(world.verdict.Changed?, false);
    }

    method Save(request: Request, world: World) returns (body: Body)
      requires Protected()
      modifies `savedRevision, `recoveryRevision, `recoveryError
      ensures Protected()
      ensures body.SaveResult? <==> policy.allowSave && request.expected == revision && world.saved
      ensures body.SaveResult? ==>
                body.revision == savedRevision == revision && recoveryRevision == None && !recoveryError
      ensures !body.SaveResult? ==>
              && body.Refused? && savedRevision == old(savedRevision)
              && recoveryRevision == old(recoveryRevision) && recoveryError == old(recoveryError)
      ensures Saved(request, world, old(Now()), body, Now())
    {
      if !policy.allowSave { return Refused(PermissionDenied); }
      if request.expected != revision { return Refused(RevisionConflict); }
      if !world.saved { return Refused(SaveFailed); }
      savedRevision := revision;
      recoveryError := false;
      recoveryRevision := None;
      return SaveResult(savedRevision);
    }

    // ----- dispatch

    /** Jobs keep their numbers, only evolve, and a commit is never taken back. */
    twostate predicate JobsStepped()
      reads `probes, `committed
    {
      && |old(probes)| <= |probes| && Advanced(old(probes), probes[..|old(probes)|])
      && old(committed) <= committed
    }

    /** Open proposals do not change, and new ones get new numbers. */
    twostate predicate ProposalsStepped()
      reads `proposals, `nextProposal
    {
      && old(nextProposal) <= nextProposal
      && forall id :: id in proposals ==>
           if id in old(proposals) then proposals[id] == old(proposals)[id] else id > old(nextProposal)
    }

    method RunJob(request: Request, world: World) returns (body: Body)
      requires ProbesValid()
      requires match request.tool
               case ProbeStatus(_) => true
               case ProbeStart(_) => true
               case ProbeCancel(_) => true
               case MediaCommit(_, _) => true
               case _ => false
      modifies `probes, `committed, `revision
      ensures ProbesValid() && JobsStepped()
      ensures body.EditResult? ==> request.tool.MediaCommit? && !body.recoveryError
      ensures revision == old(revision) + (if body.EditResult? && body.changed then 1 else 0)
      ensures ReadOnly(request.tool) ==> committed == old(committed)
      ensures !request.extra ==> Done(request, world, old(Now()), body, Now())
    {
      hide JobsValid, GoodJob, Refreshed, Evolves;
      match request.tool
      case ProbeStatus(job) =>
        body := ProbeStatusOf(request, job);
      case ProbeStart(relink) =>
        body := StartProbe(request, relink, world);
        if body.Started? { assert probes[..|old(probes)|] == old(probes); }
        AdvancedStill(old(probes));
      case ProbeCancel(job) =>
        body := CancelProbe(job);
      case MediaCommit(job, relink) =>
        body := CommitMedia(request, job, relink, world);
      assert |probes| == |old(probes)| ==> probes[..|old(probes)|] == probes;
    }

    method RunProposal(request: Request, world: World) returns (body: Body)
      requires ProposalsValid()
      requires request.tool.EditPreview? || request.tool.EditCommit? || request.tool.EditRollback?
      modifies `proposals, `nextProposal, `proposalBytes, `revision
      ensures ProposalsValid() && ProposalsStepped()
      ensures body.EditResult? ==> !body.recoveryError
      ensures revision == old(revision) + (if body.EditResult? && body.changed then 1 else 0)
      ensures !request.extra ==> Done(request, world, old(Now()), body, Now())
    {
      hide OpenBytes, ProposalsValid, Staged, Proposed, ProposalCommitted, ProposalRolledBack;
      hide StatusTold, ProbeStarted, ProbeCancelled, MediaCommitted, HistoryStepped, Saved;
      match request.tool
      case EditPreview(commands) =>
        body := Preview(request, commands, world);
      case EditCommit(proposal) =>
        body := CommitProposal(request, proposal, world);
      case EditRollback(proposal) =>
        body := RollBackProposal(request, proposal);
    }

    /** One tool, without the recovery checkpoint. */
    method RunTool(request: Request, world: World) returns (body: Body)
      requires ProposalsValid() && ProbesValid() && Protected()
      modifies `proposals, `nextProposal, `proposalBytes, `probes, `committed, `revision, `savedRevision,
               `recoveryRevision, `recoveryError
      ensures ProposalsValid() && ProbesValid() && JobsStepped() && ProposalsStepped()
      ensures revision == old(revision) + (if body.EditResult? && body.changed then 1 else 0)
      ensures revision == old(revision) ==> Protected()
      ensures ReadOnly(request.tool) ==> !body.EditResult? && proposals == old(proposals) && committed == old(committed)
      ensures body.EditResult? ==> !body.recoveryError && !request.tool.ProjectSave?
      ensures !request.tool.ProjectSave? ==>
              recoveryRevision == old(recoveryRevision) && recoveryError == old(recoveryError)
      ensures Done(request, world, old(Now()), body, Now())
    {
      hide ProposalsValid, ProbesValid, Protected, Evolves;
      hide Proposed, ProposalCommitted, ProposalRolledBack, StatusTold, ProbeStarted, ProbeCancelled, MediaCommitted;
      hide HistoryStepped, Saved;
      AdvancedStill(probes);
      assert probes[..|probes|] == probes;
      if request.extra { return Refused(InvalidArguments); }
      match request.tool
      case ProjectGet =>
        body := Info;
      case EditPreview(_) =>
        body := RunProposal(request, world);
      case EditCommit(_) =>
        body := RunProposal(request, world);
      case EditRollback(_) =>
        body := RunProposal(request, world);
      case HistoryStep =>
        body := StepHistory(request, world);
      case ProjectSave =>
        body := Save(request, world);
      case _ =>
        body := RunJob(request, world);
    }

    /** `run` and the recovery checkpoint that follows every change. */
    method Run(request: Request, world: World) returns (body: Body)
      requires ProposalsValid() && ProbesValid() && Protected()
      modifies `proposals, `nextProposal, `proposalBytes, `probes, `committed, `revision, `savedRevision,
               `recoveryRevision, `recoveryError
      ensures ProposalsValid() && ProbesValid() && Protected() && JobsStepped() && ProposalsStepped()
      ensures revision == old(revision) + (if body.EditResult? && body.changed then 1 else 0)
      ensures ReadOnly(request.tool) ==>
                revision == old(revision) && proposals == old(proposals) && committed == old(committed)
      ensures Ran(request, world, old(Now()), body, Now())
    {
      hide ProposalsValid, ProbesValid, JobsStepped, ProposalsStepped, Done;
      body := RunTool(request, world);
      if body.EditResult? && body.changed && policy.checkpoints {
        if world.checkpointed {
          recoveryRevision := Some(revision);
          recoveryError := false;
        } else {
          recoveryError := true;
        }
        body := body.(recoveryError := recoveryError);
      }
    }

    /** Every probe job is told to stop once the session has expired. */
    method StopEverything()
      requires ProbesValid()
      modifies `probes
      ensures ProbesValid() && Advanced(old(probes), probes)
      ensures forall i :: 0 <= i < |probes| ==>
                probes[i].stop && !probes[i].result && !probes[i].state.Running? && !probes[i].state.Ready?
      ensures forall i :: 0 <= i < |probes| ==> probes[i] == Stopped(old(probes)[i])
    {
      for i := 0 to |probes|
        invariant |probes| == |old(probes)|
        invariant forall k :: 0 <= k < i ==> probes[k] == Stopped(old(probes)[k])
        invariant forall k :: i <= k < |probes| ==> probes[k] == old(probes)[k]
      {
        var job := probes[i].(stop := true, result := false);
        if job.state.Running? || job.state.Ready? {
          job := job.(state := Stale);
        }
        probes := probes[i := job];
      }
      JobsAdvance(old(probes), probes, committed, succeeded);
    }

    /** The request passes the checks in front of the records. */
    predicate Addressed(request: Request) {
      request.complete && request.session == sessionId && request.project == projectId && request.wellFormed
    }

    /** A changing request that is new here, and that the record budget admits. */
    predicate Fresh(request: Request)
      reads `memos, `memoBytes
    {
      && Addressed(request) && request.key !in memos && !(request.tool.ProjectSave? && request.extra)
      && Admits(policy, |memos|, memoBytes, |request.fingerprint|, request.tool.ProjectSave?)
    }

    /** A changing request that the session will run now. */
    predicate Runs(request: Request, now: int)
      reads `memos, `memoBytes
    {
      now < sessionExpires && !ReadOnly(request.tool) && Fresh(request)
    }

    /** The same request as the one recorded under its key. */
    predicate Repeated(request: Request)
      reads `memos
    {
      Addressed(request) && request.key in memos && memos[request.key].fingerprint == request.fingerprint
    }

    /** What passes by itself before a call is looked at: old proposals and old jobs expire. */
    method Age(now: int)
      requires ProposalsValid() && ProbesValid()
      modifies `proposals, `proposalBytes, `probes
      ensures ProposalsValid() && ProbesValid() && Advanced(old(probes), probes)
      ensures forall id :: id in proposals <==> id in old(proposals) && old(proposals)[id].expires > now
      ensures forall id :: id in proposals ==> proposals[id] == old(proposals)[id]
      ensures now >= sessionExpires ==> NothingRuns()
      ensures Now() == Aged(old(Now()), now)
    {
      hide ProposalsValid, JobsValid, GoodJob, Expired, Refreshed, Evolves;
      ExpireProposals(now);
      ExpireProbes(now);
      if now >= sessionExpires {
        ghost var aged := probes;
        StopEverything();
        AdvancedTwice(old(probes), aged, probes);
      }
      assert proposals == Aged(old(Now()), now).proposals;
      assert probes == Aged(old(Now()), now).probes;
    }

    lemma ProposalNumbers()
      requires ProposalsValid()
      ensures forall id :: id in proposals ==> id <= nextProposal
    {
    }

    /** No job is running or holds a result. */
    predicate NothingRuns()
      reads `probes
    {
      forall i :: 0 <= i < |probes| ==> !probes[i].state.Running? && !probes[i].state.Ready?
    }

    /** Runs a fresh request, or one that only reads, and records the reply of the former under its key. */
    method Execute(request: Request, world: World) returns (reply: Reply)
      requires Valid() && (ReadOnly(request.tool) || Fresh(request))
      modifies this
      ensures Valid() && JobsStepped() && ProposalsStepped() && succeeded == old(succeeded)
      ensures ReadOnly(request.tool) ==>
              && memos == old(memos) && executed == old(executed)
              && revision == old(revision) && committed == old(committed) && proposals == old(proposals)
      ensures !ReadOnly(request.tool) ==>
              && executed == old(executed) + [request.key]
              && memos == old(memos)[request.key := Memo(request.fingerprint, reply)]
      ensures records == old(records) + (if ReadOnly(request.tool) then [] else [RecordOf(request, reply)])
      ensures revision == old(revision) + (if reply.body.EditResult? && reply.body.changed then 1 else 0)
      ensures Ran(request, world, old(Now()), reply.body, Now()) && reply.size == world.size(reply.body)
    {
      hide ProposalsValid, ProbesValid, Protected, RecordsValid, JobsStepped, ProposalsStepped, Admits, Done;
      var body := Run(request, world);
      reply := Reply(body, world.size(body));
      if !request.tool.ProjectGet? && !request.tool.ProbeStatus? {
        Remember(request, reply);
      }
    }

    /** What is recorded for a request that ran. */
    static function RecordOf(request: Request, reply: Reply): Recorded {
      Recorded(request.tool.ProjectSave?, |request.fingerprint|, reply.size)
    }

    /** A request whose tool is run now. */
    predicate Served(request: Request, now: int)
      reads `memos, `memoBytes
    {
      now < sessionExpires && (ReadOnly(request.tool) || Fresh(request))
    }

    /**
     Answers one call. Time passes first. A request that reads, and a changing one exactly when it is fresh,
     then does what its tool does, and the latter is recorded under its key; a repeated one gets the recorded
     reply; everything else is refused without a change, for exactly the first failing check.
     */
    method Call(request: Request, world: World) returns (reply: Reply)
      requires Valid()
      modifies this
      ensures Valid()
      ensures old(Runs(request, world.now)) ==>
              && executed == old(executed) + [request.key]
              && memos == old(memos)[request.key := Memo(request.fingerprint, reply)]
      ensures !old(Runs(request, world.now)) ==>
              && memos == old(memos) && executed == old(executed)
              && revision == old(revision) && committed == old(committed)
      ensures if old(Served(request, world.now))
              then && Ran(request, world, Aged(old(Now()), world.now), reply.body, Now())
                   && reply.size == world.size(reply.body)
              else Now() == Aged(old(Now()), world.now)
      ensures records == old(records) + (if old(Runs(request, world.now)) then [RecordOf(request, reply)] else [])
      ensures old(Runs(request, world.now)) ==>
              revision == old(revision) + (if reply.body.EditResult? && reply.body.changed then 1 else 0)
      ensures world.now < sessionExpires && !ReadOnly(request.tool) && old(Repeated(request)) ==>
              reply == old(memos)[request.key].reply
      ensures (&& world.now < sessionExpires && !ReadOnly(request.tool)
               && !old(Fresh(request)) && !old(Repeated(request))) ==>
              reply.body.Refused? && old(Explains(request, Some(reply.body.code)))
      ensures world.now >= sessionExpires ==> reply.body == Refused(SessionExpired) && NothingRuns()
      ensures JobsStepped() && ProposalsStepped() && succeeded == old(succeeded)
      ensures forall id :: id in proposals && id in old(proposals) ==> old(proposals)[id].expires > world.now
    {
      hide ProposalsValid, ProbesValid, Protected, RecordsValid, Admits, Evolves, Done, Aged;
      ProposalNumbers();
      Age(world.now);
      label aged:
      assert probes[..|old(probes)|] == probes;
      if world.now >= sessionExpires {
        return Reply(Refused(SessionExpired), world.size(Refused(SessionExpired)));
      }
      if request.tool.ProjectGet? || request.tool.ProbeStatus? {
        reply := Execute(request, world);
      } else {
        var refusal := Refusal(request);
        if refusal.Some? {
          return Reply(Refused(refusal.value), world.size(Refused(refusal.value)));
        }
        if request.key in memos {
          return memos[request.key].reply;
        }
        reply := Execute(request, world);
      }
      AdvancedTwice(old(probes), old@aged(probes), probes[..|old(probes)|]);
    }

    /** Which check a changing request fails; it fails none exactly when it is fresh or repeated. */
    ghost predicate Explains(request: Request, code: Option<Code>)
      reads `memos, `memoBytes
    {
      var here := request.complete && request.session == sessionId;
      var unseen := Addressed(request) && request.key !in memos;
      var badSave := request.tool.ProjectSave? && request.extra;
      && (code.None? <==> Fresh(request) || Repeated(request))
      && (code == Some(WrongSession) <==> request.complete && request.session != sessionId)
      && (code == Some(WrongProject) <==> here && request.project != projectId)
      && (code == Some(InvalidArguments) <==>
            || !request.complete
            || (here && request.project == projectId && !request.wellFormed)
            || (unseen && badSave))
      && (code == Some(IdempotencyConflict) <==>
            Addressed(request) && request.key in memos && memos[request.key].fingerprint != request.fingerprint)
      && (code == Some(SessionLimit) <==>
            && unseen && !badSave
            && !Admits(policy, |memos|, memoBytes, |request.fingerprint|, request.tool.ProjectSave?))
    }

    /** Why a changing request is not run and not answered from the records, in the order the checks are made. */
    method Refusal(request: Request) returns (code: Option<Code>)
      ensures Explains(request, code)
    {
      if !request.complete { return Some(InvalidArguments); }
      if request.session != sessionId { return Some(WrongSession); }
      if request.project != projectId { return Some(WrongProject); }
      if !request.wellFormed { return Some(InvalidArguments); }
      if request.key in memos {
        return if memos[request.key].fingerprint != request.fingerprint then Some(IdempotencyConflict) else None;
      }
      var save := request.tool.ProjectSave?;
      if save && request.extra { return Some(InvalidArguments); }
      if |memos| >= policy.maxRequests + (if save then 1 else 0)
         || memoBytes + |request.fingerprint| + (if save then 4096 else 2 * 1024 * 1024 + 8192) > policy.maxMemoBytes
      {
        return Some(SessionLimit);
      }
      return None;
    }

    /** The session's own records keep the budget, and leave a save possible after any ordinary request. */
    lemma SaveStaysFresh(request: Request)
      requires RecordsValid() && records != []
      requires !records[|records| - 1].save && records[|records| - 1].result <= MAX_PAYLOAD
      requires Addressed(request) && request.tool.ProjectSave? && !request.extra
      requires request.key !in memos && |request.fingerprint| <= 4096
      ensures Fresh(request)
    {
      hide Admitted, Spent, Admits;
      SaveStaysPossible(policy, records, |request.fingerprint|);
    }

    /** What has become of a job when a call comes in: a running one has failed or is ready once its worker has ended
        so, and a running or ready one is stale once it or the session has expired. */
    lemma AgedJobMeans(job: ProbeJob, now: int)
      requires GoodJob(job)
      ensures AgedJob(job, now).state ==
              if job.state == Running && job.worker == Ended(false) then Failed
              else if && (job.state == Running || job.state == Ready)
                      && (now >= job.expires || now >= sessionExpires) then Stale
              else if job.state == Running && job.worker == Ended(true) then Ready
              else job.state
      ensures AgedJob(job, now).result <==> AgedJob(job, now).state == Ready
      ensures var aged := AgedJob(job, now);
              aged.base == job.base && aged.relink == job.relink && aged.expires == job.expires
      ensures AgedJob(job, now).worker == if job.worker.Ended? then Collected else job.worker
    {
    }

    /** Whatever was committed came from a worker that ended with success. */
    lemma CommittedSucceeded()
      requires ProbesValid()
      ensures forall job :: job in committed ==> job in succeeded
    {
      hide Pending;
    }

    /** The status of a job that is known here is the state it has come to. */
    lemma StatusRan(request: Request, world: World, before: Desk, body: Body, after: Desk)
      requires request.tool.ProbeStatus? && !request.extra && Ran(request, world, before, body, after)
      requires policy.allowMedia && request.session == sessionId && request.project == projectId
      requires request.tool.job < |before.probes| && !before.probes[request.tool.job].worker.Ended?
      ensures body == Status(before.probes[request.tool.job].state)
    {
    }

    /** Asking for the status of a job that has been asked changes nothing. */
    lemma StatusStays(request: Request, world: World, before: Desk, body: Body, after: Desk)
      requires request.tool.ProbeStatus? && !request.extra && Ran(request, world, before, body, after)
      requires request.tool.job < |before.probes| && !before.probes[request.tool.job].worker.Ended?
      ensures after.probes == before.probes
    {
    }

    /** A started job runs on the live revision, for the lifetime of a proposal. */
    lemma StartRan(request: Request, world: World, before: Desk, body: Body, after: Desk)
      requires request.tool.ProbeStart? && !request.extra && Ran(request, world, before, body, after)
      requires body.Started?
      ensures policy.allowMedia && after.revision == before.revision && body.job < |after.probes|
      ensures after.probes[body.job]
              == ProbeJob(Running, request.tool.relink, before.revision, world.now + policy.proposalLifetime, false,
                          Working, false)
    {
    }

    /** When the commit of a job that has been asked publishes. */
    lemma MediaRan(request: Request, world: World, before: Desk, body: Body, after: Desk)
      requires request.tool.MediaCommit? && !request.extra && Ran(request, world, before, body, after)
      requires request.tool.job < |before.probes| && !before.probes[request.tool.job].worker.Ended?
      ensures body.EditResult? <==>
              && policy.allowMedia && policy.allowEdit
              && before.probes[request.tool.job].relink == request.tool.relink
              && before.probes[request.tool.job].state == Ready
              && before.probes[request.tool.job].base == before.revision == request.expected
              && world.approved && world.fileUnchanged
              && world.batch.Some? && world.batch.value <= 8 * 1024 * 1024 && !world.verdict.Rejected?
      ensures body.EditResult? ==> request.tool.job in after.committed
    {
      if body.EditResult? { assert (before.committed + [request.tool.job])[|before.committed|] == request.tool.job; }
    }

    lemma KeysDiffer()
      requires RecordsValid()
      ensures forall i, j :: 0 <= i < j < |executed| ==> executed[i] != executed[j]
    {
    }

    lemma AgedProposals(desk: Desk, now: int)
      ensures var aged := Aged(desk, now);
              && aged.revision == desk.revision
              && forall id :: id in aged.proposals <==> id in desk.proposals && desk.proposals[id].expires > now
      ensures var aged := Aged(desk, now);
              forall id :: id in aged.proposals ==> aged.proposals[id] == desk.proposals[id]
    {
    }

    /** An accepted preview opened a proposal on the live revision. */
    lemma PreviewRan(request: Request, world: World, before: Desk, body: Body, after: Desk)
      requires request.tool.EditPreview? && !request.extra && body.Previewed?
      requires Ran(request, world, before, body, after)
      ensures after.revision == before.revision && body.proposal in after.proposals
      ensures after.proposals[body.proposal].base == before.revision
      ensures after.proposals[body.proposal].expires == world.now + policy.proposalLifetime
    {
      hide OpenBytes;
    }

    /** When a save succeeds, and that nothing is pending then. */
    lemma SaveRan(request: Request, world: World, before: Desk, body: Body, after: Desk)
      requires request.tool.ProjectSave? && !request.extra && Ran(request, world, before, body, after)
      ensures body.SaveResult? <==> policy.allowSave && request.expected == before.revision && world.saved
      ensures body.SaveResult? ==>
                body.revision == after.savedRevision == after.revision && !after.recoveryError
      ensures after.revision == before.revision
    {
    }

    /** When the commit of a proposal publishes, and that it closes it. */
    lemma CommitRan(request: Request, world: World, before: Desk, body: Body, after: Desk)
      requires request.tool.EditCommit? && !request.extra && Ran(request, world, before, body, after)
      ensures policy.allowEdit ==> request.tool.proposal !in after.proposals
      ensures body.EditResult? <==>
              && policy.allowEdit && request.tool.proposal in before.proposals
              && request.expected == before.revision == before.proposals[request.tool.proposal].base
              && !world.verdict.Rejected?
      ensures after.revision == before.revision + (if body.EditResult? && world.verdict.Changed? then 1 else 0)
    {
    }

    /** Every recorded reply stayed within what was reserved for it. */
    ghost predicate WithinReserves()
      reads `records
    {
      forall i :: 0 <= i < |records| ==> records[i].result <= Reserve(records[i].save)
    }

    lemma MemoBytesKept()
      requires RecordsValid() && WithinReserves()
      ensures memoBytes <= policy.maxMemoBytes && |memos| <= policy.maxRequests + 1
    {
      hide Admitted, Spent;
      BudgetIsKept(policy, records);
    }

    /** Keeps the reply under the request's key for the rest of the session. */
    method Remember(request: Request, reply: Reply)
      requires RecordsValid() && Fresh(request)
      modifies `memos, `memoBytes, `executed, `records
      ensures RecordsValid()
      ensures executed == old(executed) + [request.key]
      ensures memos == old(memos)[request.key := Memo(request.fingerprint, reply)]
      ensures records == old(records) + [RecordOf(request, reply)]
    {
      hide RecordsMatch, Admitted, Spent, Admits;
      ghost var next := RecordOf(request, reply);
      MatchedSizes(memos, executed, records);
      AdmittedWith(policy, records, next);
      RecordedWith(memos, executed, records, request.key, Memo(request.fingerprint, reply), next);
      memoBytes := memoBytes + |request.fingerprint| + reply.size;
      memos := memos[request.key := Memo(request.fingerprint, reply)];
      executed := executed + [request.key];
      records := records + [next];
    }
  }

  /** What the expiry of the session does to a job. */
  function Stopped(job: ProbeJob): ProbeJob {
    job.(stop := true, result := false, state := if job.state.Running? || job.state.Ready? then Stale else job.state)
  }

  lemma MatchedSizes(memos: map<string, Memo>, executed: seq<string>, records: seq<Recorded>)
    requires RecordsMatch(memos, executed, records)
    ensures |executed| == |records| == |memos|
  {
  }

  lemma RecordedWith(memos: map<string, Memo>, executed: seq<string>, records: seq<Recorded>, key: string, memo: Memo,
                     next: Recorded)
    requires RecordsMatch(memos, executed, records) && key !in memos
    requires next.fingerprint == |memo.fingerprint| && next.result == memo.reply.size
    ensures RecordsMatch(memos[key := memo], executed + [key], records + [next])
  {
    var all := executed + [key];
    forall k | k in memos[key := memo]
      ensures k in all
    {
      if k == key { assert all[|executed|] == key; } else { assert k in executed; }
    }
  }

  // ----- what calls in sequence come to

  /**
   After any ordinary request whose reply is at most 2 MiB, an unexpired save under a new key with a
   fingerprint of at most 4096 bytes is admitted: it runs, and saves exactly when it may, expects the live
   revision and the file can be written.
   */
  method OrdinaryThenSave(session: Session, request: Request, world: World, save: Request, later: World)
    returns (first: Reply, second: Reply)
    requires session.Valid()
    requires session.Runs(request, world.now) && !request.tool.ProjectSave?
    requires session.Addressed(save) && save.tool.ProjectSave? && !save.extra && |save.fingerprint| <= 4096
    requires save.key !in session.memos && save.key != request.key && later.now < session.sessionExpires
    modifies session
    ensures session.Valid()
    ensures first.size <= MAX_PAYLOAD ==> session.executed == old(session.executed) + [request.key, save.key]
    ensures first.size <= MAX_PAYLOAD ==>
              (second.body.SaveResult? <==>
                 session.policy.allowSave && save.expected == session.revision && later.saved)
    ensures first.size <= MAX_PAYLOAD && second.body.SaveResult? ==>
              session.savedRevision == session.revision == second.body.revision && !session.recoveryError
  {
    hide Session.ProposalsValid, Session.ProbesValid, Session.Protected, Session.RecordsValid, Admits, Spent, Admitted;
    hide Session.JobsStepped, Session.ProposalsStepped, Session.Explains, Session.Ran, Session.Aged;
    first := session.Call(request, world);
    ghost var aged := session.Aged(session.Now(), later.now);
    session.AgedProposals(session.Now(), later.now);
    if first.size <= MAX_PAYLOAD { session.SaveStaysFresh(save); }
    second := session.Call(save, later);
    if first.size <= MAX_PAYLOAD { session.SaveRan(save, later, aged, second.body, session.Now()); }
  }

  /** A request sent again, unexpired, is not run again: it gets the same reply, and only time has passed. */
  method SentTwice(session: Session, request: Request, world: World, later: World) returns (first: Reply, second: Reply)
    requires session.Valid() && session.Runs(request, world.now) && later.now < session.sessionExpires
    modifies session
    ensures session.Valid() && second == first
    ensures session.executed == old(session.executed) + [request.key]
    ensures session.revision == old(session.revision) + (if first.body.EditResult? && first.body.changed then 1 else 0)
  {
    hide Session.ProposalsValid, Session.ProbesValid, Session.Protected, Session.RecordsValid, Admits, Session.Ran;
    hide Session.JobsStepped, Session.ProposalsStepped, Session.Explains;
    first := session.Call(request, world);
    second := session.Call(request, later);
  }

  /**
   A preview that was accepted can be committed while it has not expired and the revision is its own; the
   commit publishes what the editor makes of it and closes the proposal, so that no later commit finds it.
   */
  method PreviewThenCommit(session: Session, request: Request, world: World, commit: Request, later: World)
    returns (first: Reply, admitted: bool, second: Reply)
    requires session.Valid()
    requires session.Runs(request, world.now) && request.tool.EditPreview? && !request.extra
    requires !commit.extra && commit.tool.EditCommit?
    modifies session
    ensures session.Valid()
    ensures first.body.Previewed? && admitted && commit.tool.proposal == first.body.proposal ==>
              && (session.policy.allowEdit ==> commit.tool.proposal !in session.proposals)
              && (second.body.EditResult? <==>
                    && session.policy.allowEdit && later.now < world.now + session.policy.proposalLifetime
                    && commit.expected == old(session.revision) && !later.verdict.Rejected?)
              && session.revision
                 == old(session.revision) + (if second.body.EditResult? && later.verdict.Changed? then 1 else 0)
  {
    hide Session.ProposalsValid, Session.ProbesValid, Session.Protected, Session.RecordsValid, Admits;
    hide Session.JobsStepped, Session.ProposalsStepped, Session.Explains, Session.Ran, Session.Aged;
    ghost var aged := session.Aged(session.Now(), world.now);
    first := session.Call(request, world);
    ghost var open := session.Now();
    admitted := session.Runs(commit, later.now);
    second := session.Call(commit, later);
    session.AgedProposals(old(session.Now()), world.now);
    session.AgedProposals(open, later.now);
    if first.body.Previewed? && admitted {
      session.PreviewRan(request, world, aged, first.body, open);
      session.CommitRan(commit, later, session.Aged(open, later.now), second.body, session.Now());
    }
  }

  /** A probe call whose job, if one starts, has its worker end before the next call. */
  method StartAndEnd(session: Session, start: Request, world: World, success: bool) returns (first: Reply)
    requires session.Valid() && session.Runs(start, world.now) && start.tool.ProbeStart? && !start.extra
    modifies session
    ensures session.Valid()
    ensures first.body.Started? ==>
              && session.policy.allowMedia && session.revision == old(session.revision)
              && first.body.job < |session.probes|
              && session.probes[first.body.job]
                 == ProbeJob(Running, start.tool.relink, old(session.revision),
                             world.now + session.policy.proposalLifetime, false, Ended(success), false)
  {
    hide Session.ProposalsValid, JobsValid, Session.Protected, Session.RecordsValid, Admits, Evolves, Session.AgedJob;
    hide Session.JobsStepped, Session.ProposalsStepped, Session.Explains, Session.Ran;
    ghost var aged := session.Aged(session.Now(), world.now);
    first := session.Call(start, world);
    if first.body.Started? {
      session.StartRan(start, world, aged, first.body, session.Now());
      session.WorkerEnds(first.body.job, success);
    }
  }

  /**
   A probe job from its start to its status: once its worker has ended with success it is ready while it has not
   expired and stale afterwards, and once its worker has failed it has failed.
   */
  method StartThenStatus(session: Session, start: Request, world: World, success: bool, status: Request, later: World)
    returns (first: Reply, second: Reply)
    requires session.Valid() && session.Runs(start, world.now) && start.tool.ProbeStart? && !start.extra
    requires later.now < session.sessionExpires && status.tool.ProbeStatus? && !status.extra
    requires status.session == session.sessionId && status.project == session.projectId
    modifies session
    ensures session.Valid()
    ensures first.body.Started? && status.tool.job == first.body.job ==>
            second.body == Status(if !success then Failed
                                  else if later.now < world.now + session.policy.proposalLifetime then Ready
                                  else Stale)
  {
    hide Session.ProposalsValid, JobsValid, Session.Protected, Session.RecordsValid, Admits, Evolves, Session.AgedJob;
    hide Session.JobsStepped, Session.ProposalsStepped, Session.Explains, Session.Ran;
    first := StartAndEnd(session, start, world, success);
    if first.body.Started? {
      session.AgedJobMeans(session.probes[first.body.job], later.now);
    }
    ghost var open := session.Aged(session.Now(), later.now);
    second := session.Call(status, later);
    if first.body.Started? && status.tool.job == first.body.job {
      session.StatusRan(status, later, open, second.body, session.Now());
    }
  }

  /**
   A probe job from its start to its commit: the commit publishes exactly when its worker ended with success and
   neither the job has expired nor the project or the file has changed, and then the job is committed.
   */
  method StartThenCommit(session: Session, start: Request, world: World, success: bool, commit: Request, later: World)
    returns (first: Reply, admitted: bool, second: Reply)
    requires session.Valid() && session.Runs(start, world.now) && start.tool.ProbeStart? && !start.extra
    requires commit.tool.MediaCommit? && !commit.extra
    modifies session
    ensures session.Valid()
    ensures (&& first.body.Started? && admitted
             && commit.tool.job == first.body.job && commit.tool.relink == start.tool.relink) ==>
              && (second.body.EditResult? <==>
                    && success && session.policy.allowEdit
                    && later.now < world.now + session.policy.proposalLifetime
                    && commit.expected == old(session.revision) && later.approved && later.fileUnchanged
                    && later.batch.Some? && later.batch.value <= 8 * 1024 * 1024 && !later.verdict.Rejected?)
              && (second.body.EditResult? ==> first.body.job in session.committed)
    ensures forall job :: job in session.committed ==> job in session.succeeded
  {
    hide Session.ProposalsValid, JobsValid, Session.Protected, Session.RecordsValid, Admits, Evolves, Session.AgedJob;
    hide Session.JobsStepped, Session.ProposalsStepped, Session.Explains, Session.Ran;
    first := StartAndEnd(session, start, world, success);
    if first.body.Started? {
      session.AgedJobMeans(session.probes[first.body.job], later.now);
    }
    ghost var open := session.Aged(session.Now(), later.now);
    admitted := session.Runs(commit, later.now);
    second := session.Call(commit, later);
    if first.body.Started? && admitted && commit.tool.job == first.body.job {
      session.MediaRan(commit, later, open, second.body, session.Now());
    }
    session.CommittedSucceeded();
  }

  /** A job that was cancelled or went stale stays so, whatever its worker returns and however late it is asked. */
  method GivenUpStays(session: Session, job: nat, success: bool, status: Request, later: World) returns (reply: Reply)
    requires session.Valid() && job < |session.probes|
    requires session.probes[job].state == Cancelled || session.probes[job].state == Stale
    requires later.now < session.sessionExpires && status.tool == ProbeStatus(job) && !status.extra
    requires status.session == session.sessionId && status.project == session.projectId
    requires session.policy.allowMedia
    modifies session
    ensures session.Valid() && reply.body == Status(old(session.probes[job].state))
    ensures job < |session.probes| && session.probes[job].state == old(session.probes[job].state)
    ensures !session.probes[job].result
  {
    hide Session.ProposalsValid, Session.Protected, Session.RecordsValid, Admits, Evolves, Session.AgedJob, Pending;
    hide Session.ProposalsStepped, Session.Explains, Session.Ran;
    if session.probes[job].worker.Working? {
      session.WorkerEnds(job, success);
    }
    session.AgedJobMeans(session.probes[job], later.now);
    ghost var open := session.Aged(session.Now(), later.now);
    reply := session.Call(status, later);
    session.StatusRan(status, later, open, reply.body, session.Now());
    session.StatusStays(status, later, open, reply.body, session.Now());
  }

  /** Over any run of calls whose recorded replies stay within their reserves the recorded bytes stay within the budget,
      and every changing request that ran did so under a key of its own. */
  method AnswerAll(session: Session, requests: seq<Request>, worlds: seq<World>) returns (replies: seq<Reply>)
    requires session.Valid() && session.WithinReserves() && |requests| == |worlds|
    modifies session
    ensures session.Valid() && |replies| == |requests|
    ensures old(session.executed) <= session.executed
    ensures forall i, j :: 0 <= i < j < |session.executed| ==> session.executed[i] != session.executed[j]
    ensures (forall i :: 0 <= i < |replies| ==> replies[i].size <= Reserve(requests[i].tool.ProjectSave?)) ==>
              session.memoBytes <= session.policy.maxMemoBytes && |session.memos| <= session.policy.maxRequests + 1
  {
    hide Session.ProposalsValid, Session.ProbesValid, Session.Protected, Session.RecordsValid, Admits, Session.Ran;
    hide Session.JobsStepped, Session.ProposalsStepped, Session.Explains, Session.Aged, RecordsMatch;
    replies := [];
    for i := 0 to |requests|
      invariant session.Valid() && |replies| == i && old(session.executed) <= session.executed
      invariant (forall j :: 0 <= j < i ==> replies[j].size <= Reserve(requests[j].tool.ProjectSave?)) ==>
                  session.WithinReserves()
    {
      var reply := session.Call(requests[i], worlds[i]);
      replies := replies + [reply];
    }
    session.KeysDiffer();
    if forall j :: 0 <= j < |replies| ==> replies[j].size <= Reserve(requests[j].tool.ProjectSave?) {
      session.MemoBytesKept();
    }
  }
}
