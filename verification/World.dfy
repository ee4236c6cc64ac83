// The whole system: one database, the owner lock files, any number of gate attempts, recovery
// sweeps and staging-directory sweeps, a clock. Every step is one read, one committed or rolled
// back transaction, one lock operation or one side effect; any enabled step may come next. The
// clock may move either way.
module World {
  import opened Wrappers
  import opened Domain
  import opened Records
  import opened Integrity
  import opened GateChecks
  import opened GateProtocol
  import Recovery
  import Locks = OwnerLocks
  import Catalog
  import Library
  import Timestamps

  // One call of the executor, from the moment it is made: which attempt made it, under which start
  // record, with which bytes. Whether it ever returns is another matter.
  datatype Run = Run(attempt: nat, sequence: nat, proposalId: string, script: seq<Byte>)

  // A recovery sweep inside its write transaction: the uncommitted log, the starts still to
  // judge, and the probe of the current one.
  // `spared` are the starts left open because a probe of their owner did not say dead.
  datatype Sweep = Sweep(work: seq<Event>, todo: seq<Event>, probe: Option<nat>, spared: seq<Event>)

  // A staging-directory sweep's current candidate, with the owner its name carries.
  datatype Candidate = Candidate(dir: nat, owner: string, probe: Option<nat>)

  datatype World = World(
    db: Db,
    clock: Timestamps.Utc,
    locks: Locks.Table,
    attempts: map<nat, Attempt>,
    runs: seq<Run>,
    sweep: Option<Sweep>,
    staging: map<nat, string>,    // directories, keyed by the attempt that made them, with the owner in the name
    staged: set<nat>,             // attempts inside the staged runner
    candidates: map<nat, Candidate>
  )

  datatype Step =
    | Tick(later: Timestamps.Utc)
    | Propose(library: seq<Revision>, catalog: Option<Domain.Catalog>, citation: Citation, invocation: Invocation,
              minted: Minted, appendOk: bool)
    | Approve(td: TokenDigest, approvalId: string, operator: string)
    | ApproveById(id: string, approvalId: string, operator: string)
    | AppendOther(events: seq<Event>)
    | Lock(step: Locks.Step)
    | EndOwner(owner: string)
    | BeginAttempt(a: nat, call: Call)
    | Gate(a: nat, action: Action)
    | SweepBegin
    | SweepSkip
    | SweepProbe(p: nat)
    | SweepJudge
    | SweepCommit
    | SweepAbort
    | StageCreate(a: nat)
    | StageRemove(a: nat)
    | CandidateList(k: nat, a: nat)
    | CandidateProbe(k: nat, p: nat)
    | CandidateRemove(k: nat)
    | CandidateDrop(k: nat)

  function Initial(clock: Timestamps.Utc): World {
    World(EMPTY, clock, Locks.EMPTY, map[], [], None, map[], {}, map[])
  }

  predicate OtherEvent(e: Event) {
    e.kind != ExecutionStart && e.kind != ExecutionOutcome
  }

  // A process only abandons a probe no sweep is waiting on; a dying sweep aborts first.
  predicate ProbeInUse(w: World, p: nat) {
    || (w.sweep.Some? && w.sweep.value.probe == Some(p))
    || exists k :: k in w.candidates && w.candidates[k].probe == Some(p)
  }

  predicate Verdict(w: World, p: Option<nat>, v: Locks.Verdict) {
    p.Some? && p.value in w.locks.probes && w.locks.probes[p.value].phase == Locks.Done(v)
  }

  predicate Judged(w: World, p: Option<nat>) {
    p.Some? && p.value in w.locks.probes && w.locks.probes[p.value].phase.Done?
  }

  ghost predicate Enabled(w: World, s: Step) {
    match s
    case Tick(later) => true
    case Propose(library, catalog, citation, invocation, m, appendOk) =>
      && w.sweep.None?
      && Library.Loaded(library) && (catalog.Some? ==> Catalog.Loaded(catalog.value))
      && ProposeChecks(library, catalog, citation, invocation).Ok?
      && TtlPositive(m) && m.id != "" && m.now == w.clock
    case Approve(td, approvalId, operator) => w.sweep.None?
    case ApproveById(id, approvalId, operator) => w.sweep.None?
    case AppendOther(events) => w.sweep.None? && forall k :: 0 <= k < |events| ==> OtherEvent(events[k])
    case Lock(step) => !step.Release? && (step.Abandon? ==> !ProbeInUse(w, step.p)) && Locks.Enabled(w.locks, step)
    case EndOwner(o) => Locks.Enabled(w.locks, Locks.Release(o))
    case BeginAttempt(a, call) =>
      && a !in w.attempts && Locks.IsRunning(w.locks, call.owner)
      && Library.Loaded(call.config.library)
      && (call.config.catalog.Some? ==> Catalog.Loaded(call.config.catalog.value))
    case Gate(a, action) => a in w.attempts && Ready(w.attempts[a], action) && (Writes(action) ==> w.sweep.None?)
    case SweepBegin => w.sweep.None?
    case SweepSkip =>
      && w.sweep.Some? && w.sweep.value.todo != [] && w.sweep.value.probe.None?
      && Recovery.HasTerminal(w.sweep.value.work, w.sweep.value.todo[0].proposalRef)
    case SweepProbe(p) =>
      && w.sweep.Some? && w.sweep.value.todo != [] && w.sweep.value.probe.None?
      && !Recovery.HasTerminal(w.sweep.value.work, w.sweep.value.todo[0].proposalRef)
      && Locks.Enabled(w.locks, Locks.Begin(p, w.sweep.value.todo[0].owner))
    case SweepJudge => w.sweep.Some? && w.sweep.value.todo != [] && Judged(w, w.sweep.value.probe)
    case SweepCommit => w.sweep.Some? && w.sweep.value.todo == []
    case SweepAbort => w.sweep.Some?
    case StageCreate(a) => a in w.attempts && w.attempts[a].pc.InExecutor? && a !in w.staging
    case StageRemove(a) => a in w.staged && a in w.attempts && w.attempts[a].pc.InExecutor?
    case CandidateList(k, a) => k !in w.candidates && a in w.staging
    case CandidateProbe(k, p) =>
      k in w.candidates && w.candidates[k].probe.None? && Locks.Enabled(w.locks, Locks.Begin(p, w.candidates[k].owner))
    case CandidateRemove(k) => k in w.candidates && Verdict(w, w.candidates[k].probe, Locks.Dead)
    case CandidateDrop(k) => k in w.candidates
  }

  function Begun(log: seq<Event>): Sweep {
    Sweep(log, Recovery.StartsOf(log), None, [])
  }

  function Committed(db: Db, r: Result<Db, Rejection>): Db {
    if r.Ok? then r.value else db
  }

  // The process is gone: none of its attempts takes another step.
  function Crashed(attempts: map<nat, Attempt>, owner: string): map<nat, Attempt> {
    map a | a in attempts :: if attempts[a].call.owner == owner then attempts[a].(pc := Done) else attempts[a]
  }

  function RunsAfter(runs: seq<Run>, a: nat, at: Attempt, action: Action): seq<Run> {
    if action.CallExecutor? && at.started.Some? then
      var s := at.started.value;
      runs + [Run(a, s.sequence, s.ticket.frozen.id, s.ticket.x.script)]
    else runs
  }

  function AfterGate(w: World, a: nat, action: Action): World
    requires a in w.attempts && Ready(w.attempts[a], action)
  {
    var at := w.attempts[a];
    var (db, next) := Move(w.db, w.clock, at, action);
    w.(db := db, attempts := w.attempts[a := next], runs := RunsAfter(w.runs, a, at, action))
  }

  function JudgedBy(sw: Sweep, verdict: Locks.Verdict): Sweep
    requires sw.todo != []
  {
    Sweep(Recovery.SweepOne(sw.work, sw.todo[0], verdict), sw.todo[1..], None,
      sw.spared + if verdict == Locks.Dead then [] else [sw.todo[0]])
  }

  function AfterJudge(w: World): World
    requires w.sweep.Some? && w.sweep.value.todo != [] && Judged(w, w.sweep.value.probe)
  {
    var sw := w.sweep.value;
    var verdict := w.locks.probes[sw.probe.value].phase.verdict;
    w.(sweep := Some(JudgedBy(sw, verdict)))
  }

  ghost function Apply(w: World, s: Step): World
    requires Enabled(w, s)
  {
    match s
    case Tick(later) => w.(clock := later)
    case Propose(library, catalog, citation, invocation, m, appendOk) =>
      var t := ProposeChecks(library, catalog, citation, invocation).value;
      w.(db := Committed(w.db, OpenProposal(w.db, m, invocation, t, appendOk)))
    case Approve(td, approvalId, operator) =>
      w.(db := Committed(w.db, RecordApproval(w.db, td, approvalId, operator, w.clock)))
    case ApproveById(id, approvalId, operator) =>
      w.(db := Committed(w.db, RecordApprovalById(w.db, id, approvalId, operator, w.clock)))
    case AppendOther(events) => w.(db := w.db.(log := AppendAll(w.db.log, events)))
    case Lock(step) => w.(locks := Locks.Apply(w.locks, step))
    case EndOwner(o) => w.(locks := Locks.Apply(w.locks, Locks.Release(o)), attempts := Crashed(w.attempts, o))
    case BeginAttempt(a, call) => w.(attempts := w.attempts[a := Attempt(call, AtToken, None)])
    case Gate(a, action) => AfterGate(w, a, action)
    case SweepBegin => w.(sweep := Some(Begun(w.db.log)))
    case SweepSkip => w.(sweep := Some(w.sweep.value.(todo := w.sweep.value.todo[1..])))
    case SweepProbe(p) =>
      w.(locks := Locks.Apply(w.locks, Locks.Begin(p, w.sweep.value.todo[0].owner)),
         sweep := Some(w.sweep.value.(probe := Some(p))))
    case SweepJudge => AfterJudge(w)
    case SweepCommit => w.(db := w.db.(log := w.sweep.value.work), sweep := None)
    case SweepAbort => w.(sweep := None)
    case StageCreate(a) => w.(staging := w.staging[a := w.attempts[a].call.owner], staged := w.staged + {a})
    case StageRemove(a) => w.(staging := w.staging - {a}, staged := w.staged - {a})
    case CandidateList(k, a) => w.(candidates := w.candidates[k := Candidate(a, w.staging[a], None)])
    case CandidateProbe(k, p) =>
      w.(locks := Locks.Apply(w.locks, Locks.Begin(p, w.candidates[k].owner)),
         candidates := w.candidates[k := w.candidates[k].(probe := Some(p))])
    case CandidateRemove(k) => w.(staging := w.staging - {w.candidates[k].dir}, candidates := w.candidates - {k})
    case CandidateDrop(k) => w.(candidates := w.candidates - {k})
  }

  /* ---------- The invariant, one predicate per concern ---------- */

  // A binding belongs to a proposal, and was finalized from a template with the provenance the
  // proposal tool gives it.
  ghost predicate ProvenBy(b: BindingRow, p: Proposal) {
    b.proposalId == p.id && Provenance(b.document.template, p.invocation)
  }

  ghost predicate Proven(b: BindingRow, rows: seq<Proposal>) {
    exists i :: 0 <= i < |rows| && ProvenBy(b, rows[i])
  }

  ghost predicate BindingsProven(db: Db) {
    forall b :: 0 <= b < |db.bindings| ==> Proven(db.bindings[b], db.proposals)
  }

  ghost predicate AttemptsKnow(db: Db, attempts: map<nat, Attempt>) {
    forall a :: a in attempts ==> Knows(db, attempts[a])
  }

  // An attempt that still has steps to take belongs to a running owner.
  ghost predicate AttemptsAlive(locks: Locks.Table, attempts: map<nat, Attempt>) {
    forall a :: a in attempts && attempts[a].pc != Done ==> Locks.IsRunning(locks, attempts[a].call.owner)
  }

  ghost predicate StartsDistinct(attempts: map<nat, Attempt>) {
    forall a, b ::
      a in attempts && b in attempts && a != b && attempts[a].started.Some? && attempts[b].started.Some? ==>
      attempts[a].started.value.sequence != attempts[b].started.value.sequence
  }

  // Every owner a start names had locked its file.
  ghost predicate StartOwners(log: seq<Event>, locks: Locks.Table) {
    forall j :: 0 <= j < |log| && log[j].kind == ExecutionStart ==> Locks.Acquired(locks, log[j].owner)
  }

  ghost predicate RunOf(r: Run, attempts: map<nat, Attempt>) {
    && r.attempt in attempts && attempts[r.attempt].started.Some? && !attempts[r.attempt].pc.AtExecute?
    && var s := attempts[r.attempt].started.value;
    && r == Run(r.attempt, s.sequence, s.ticket.frozen.id, s.ticket.x.script)
  }

  ghost predicate RunsFit(runs: seq<Run>, attempts: map<nat, Attempt>) {
    && (forall i :: 0 <= i < |runs| ==> RunOf(runs[i], attempts))
    && (forall i, j :: 0 <= i < j < |runs| ==> runs[i].attempt != runs[j].attempt)
  }

  ghost predicate OutcomesOnce(log: seq<Event>) {
    forall id :: Recovery.CountTerminal(log, Some(id)) <= 1
  }

  // Nothing is ever recorded as the outcome of a proposal that was not started.
  ghost predicate OutcomesStarted(log: seq<Event>, starts: seq<Event>) {
    forall id :: Recovery.CountTerminal(log, Some(id)) > 0 ==> HasStart(starts, id)
  }

  predicate Pending(at: Attempt) {
    Executing(at.pc) && at.started.Some?
  }

  // While an attempt has its outcome still to record, nobody else has recorded one for it.
  ghost predicate PendingOpen(log: seq<Event>, attempts: map<nat, Attempt>) {
    forall a :: a in attempts && Pending(attempts[a]) ==>
      Recovery.CountTerminal(log, Some(attempts[a].started.value.ticket.frozen.id)) == 0
  }

  ghost predicate ProbeOf(locks: Locks.Table, p: nat, owner: string) {
    p in locks.probes && locks.probes[p].owner == owner && locks.probes[p].afterAcquire
  }

  // A start the sweep has still to judge, has closed or found closed, or has left open.
  ghost predicate Disposed(sw: Sweep, start: Event) {
    start in sw.todo || start in sw.spared || Recovery.HasTerminal(sw.work, start.proposalRef)
  }

  ghost predicate Covers(sw: Sweep, log: seq<Event>) {
    forall j :: 0 <= j < |log| && log[j].kind == ExecutionStart ==> Disposed(sw, log[j])
  }

  ghost predicate SweepFits(sw: Sweep, log: seq<Event>, attempts: map<nat, Attempt>, locks: Locks.Table) {
    && log <= sw.work && Gapless(sw.work)
    && (forall j :: |log| <= j < |sw.work| ==> sw.work[j].kind == ExecutionOutcome)
    && OutcomesOnce(sw.work) && OutcomesStarted(sw.work, log) && PendingOpen(sw.work, attempts)
    && (forall k :: 0 <= k < |sw.todo| ==> sw.todo[k] in log && sw.todo[k].kind == ExecutionStart)
    && (sw.probe.Some? ==> sw.todo != [] && ProbeOf(locks, sw.probe.value, sw.todo[0].owner))
    && Covers(sw, log)
  }

  ghost predicate StagingFits(staging: map<nat, string>, staged: set<nat>, candidates: map<nat, Candidate>,
                              attempts: map<nat, Attempt>, locks: Locks.Table) {
    && (forall a :: a in staging ==>
        a in attempts && staging[a] == attempts[a].call.owner && Locks.Acquired(locks, staging[a]))
    && (forall a :: a in staged ==>
        && a in attempts && attempts[a].started.Some? && !attempts[a].pc.AtExecute?
        && (attempts[a].pc.InExecutor? ==> a in staging))
    && (forall k :: k in candidates ==>
          && candidates[k].dir in attempts && candidates[k].owner == attempts[candidates[k].dir].call.owner
          && Locks.Acquired(locks, candidates[k].owner)
          && (candidates[k].probe.Some? ==> ProbeOf(locks, candidates[k].probe.value, candidates[k].owner)))
  }

  ghost predicate Inv(w: World) {
    && DbInv(w.db) && BindingsProven(w.db)
    && Locks.Inv(w.locks)
    && AttemptsKnow(w.db, w.attempts)
    && AttemptsAlive(w.locks, w.attempts)
    && StartsDistinct(w.attempts)
    && StartOwners(w.db.log, w.locks)
    && RunsFit(w.runs, w.attempts)
    && OutcomesOnce(w.db.log) && OutcomesStarted(w.db.log, w.db.log) && PendingOpen(w.db.log, w.attempts)
    && (w.sweep.Some? ==> SweepFits(w.sweep.value, w.db.log, w.attempts, w.locks))
    && StagingFits(w.staging, w.staged, w.candidates, w.attempts, w.locks)
  }

  ghost predicate StepsTo(w: World, next: World) {
    exists s :: Enabled(w, s) && next == Apply(w, s)
  }

  ghost predicate StepAt(tr: seq<World>, i: nat)
    requires i + 1 < |tr|
  {
    StepsTo(tr[i], tr[i + 1])
  }

  // A run: from an empty database, each state reached from the one before by an enabled step.
  ghost predicate IsRun(tr: seq<World>) {
    && tr != [] && tr[0] == Initial(tr[0].clock)
    && forall i: nat :: i + 1 < |tr| ==> StepAt(tr, i)
  }
}
