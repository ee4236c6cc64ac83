// Every step of every gate attempt keeps the system invariant.
module WorldGate {
  import opened Wrappers
  import opened Domain
  import opened Records
  import opened Integrity
  import opened GateChecks
  import opened GateProtocol
  import opened World
  import GateSteps
  import WorldSteps
  import Transactions
  import Recovery
  import Locks = OwnerLocks
  import Timestamps
  import Library

  /* ---------- The shape of a step ---------- */

  predicate CommitsNow(db: Db, now: Timestamps.Utc, at: Attempt, action: Action) {
    action.Commit? && action.appendOk && Resolve(db, Td(at.call), at.call.request.expected, now).Ok?
  }

  // The program counter moves on without a new start record.
  predicate Onward(at: Attempt, next: Attempt) {
    && next.call == at.call && next.started == at.started
    && at.pc != Done
    && !next.pc.AtExecute? && (next.pc.InExecutor? ==> at.pc.AtExecute?)
    && (Pending(next) ==> Pending(at))
  }

  // A step that neither starts nor ends an execution.
  ghost predicate QuietMove(at: Attempt, next: Attempt, log: seq<Event>, nextLog: seq<Event>) {
    Onward(at, next) && WorldSteps.QuietLog(log, nextLog)
  }

  // A step that reads and at most moves the program counter ahead of the execution.
  predicate Before(at: Attempt, next: Attempt) {
    next.call == at.call && next.started == at.started && !Executing(next.pc)
  }

  lemma {:induction false} TokenBefore(db: Db, now: Timestamps.Utc, at: Attempt)
    ensures Before(at, AfterToken(db, now, at))
  {
    hide Resolve, Library.ResolveCitation;
  }

  lemma {:induction false} ChecksBefore(at: Attempt, o: Oracle)
    requires at.pc.AtExamine?
    ensures Before(at, AfterChecks(at, o))
  {
    hide Examine, Library.ResolveCitation;
  }

  lemma {:induction false} AuthorizeBefore(db: Db, at: Attempt)
    requires at.pc.AtAuthorize?
    ensures Before(at, AfterAuthorize(db, at))
  {
    hide FindStanding, FetchApproval, VerifyApprovalRow, Matches;
  }

  lemma {:induction false} VerifyProposalBefore(db: Db, now: Timestamps.Utc, at: Attempt)
    requires at.pc.AtVerifyProposal?
    ensures Before(at, AfterVerifyProposal(db, now, at))
  {
    hide Resolve, VerifyProposal;
  }

  lemma {:induction false} VerifyBindingBefore(db: Db, at: Attempt)
    requires at.pc.AtVerifyBinding?
    ensures Before(at, AfterVerifyBinding(db, at))
  {
    hide FetchBinding, VerifyBinding;
  }

  lemma {:induction false} FailedCommitBefore(db: Db, now: Timestamps.Utc, at: Attempt, action: Action)
    requires DbInv(db) && Knows(db, at) && at.pc.AtCommit? && action.Commit? && !CommitsNow(db, now, at, action)
    ensures
      var (next, at') := AfterCommit(db, now, at, action.appendOk);
      next == db && Before(at, at')
  {
    hide DbInv, Knows, KnowsTicket, AfterCommit, Resolve, Transactions.Dispatched, StartOf;
    GateSteps.AtCommitKnows(db, at);
    GateSteps.CommitDecided(db, now, at, action.appendOk);
  }

  lemma {:induction false} RefusalQuiet(db: Db, e: Event)
    requires OtherEvent(e)
    ensures WorldSteps.QuietLog(db.log, Transactions.WithEvent(db, e).log)
  {
  }

  lemma {:induction false} BeforeIsQuiet(at: Attempt, next: Attempt, log: seq<Event>)
    requires Before(at, next) && at.pc != Done
    ensures QuietMove(at, next, log, log)
  {
  }

  lemma {:induction false} ReadIsQuiet(db: Db, now: Timestamps.Utc, at: Attempt, action: Action)
    requires Ready(at, action) && !Writes(action) && !action.CallExecutor? && !action.ExecutorReturns?
    ensures
      var (next, at') := Move(db, now, at, action);
      QuietMove(at, at', db.log, next.log) && next == db
  {
    hide AfterToken, AfterChecks, AfterAuthorize, AfterVerifyProposal, AfterVerifyBinding, AfterCommit, FetchBinding,
         FailureCode, OutcomeOf, Transactions.WithEvent, QuietMove;
    match action {
      case ReadToken => TokenBefore(db, now, at);
      case ReadBinding =>
      case RunChecks(o) => ChecksBefore(at, o);
      case Authorize => AuthorizeBefore(db, at);
      case VerifyProposalRow => VerifyProposalBefore(db, now, at);
      case VerifyBindingRow => VerifyBindingBefore(db, at);
    }
    BeforeIsQuiet(at, Move(db, now, at, action).1, db.log);
  }

  lemma {:induction false} MoveIsQuiet(db: Db, now: Timestamps.Utc, at: Attempt, action: Action)
    requires DbInv(db) && Knows(db, at) && Ready(at, action)
    requires !CommitsNow(db, now, at, action) && action != RecordOutcome(true)
    ensures
      var (next, at') := Move(db, now, at, action);
      QuietMove(at, at', db.log, next.log) && next.proposals == db.proposals && next.bindings == db.bindings
  {
    hide DbInv, Knows, AfterToken, AfterChecks, AfterAuthorize, AfterVerifyProposal, AfterVerifyBinding, AfterCommit,
         FetchBinding, FailureCode, OutcomeOf, Append, CommitsNow;
    if !Writes(action) && !action.CallExecutor? && !action.ExecutorReturns? {
      ReadIsQuiet(db, now, at, action);
      hide Move, QuietMove, Transactions.WithEvent;
    } else if action.Commit? {
      FailedCommitBefore(db, now, at, action);
      BeforeIsQuiet(at, AfterCommit(db, now, at, action.appendOk).1, db.log);
      hide QuietMove, Before, Transactions.WithEvent;
    } else if action.RecordRefusal? {
      RefusalQuiet(db, RefusalEvent(at.pc.ref, FailureCode(at.pc.reason)));
    }
  }

  // What a step leaves in the database.
  ghost predicate Leaves(db: Db, now: Timestamps.Utc, at: Attempt, action: Action, next: Db)
    requires Ready(at, action)
  {
    if CommitsNow(db, now, at, action) then
      && FindToken(db.proposals, Td(at.call)) < |db.proposals|
      && next == Transactions.Dispatched(db, Td(at.call), now, StartOf(at.call, at.pc.ticket))
    else if action == RecordOutcome(true) then next == Transactions.WithEvent(db, OutcomeOf(at))
    else if action == RecordRefusal(true) then
      next == Transactions.WithEvent(db, RefusalEvent(at.pc.ref, FailureCode(at.pc.reason)))
    else next == db
  }

  // Whatever happens around an attempt, the only things it ever writes are the dispatch
  // transaction, one outcome event and one refusal event.
  lemma {:induction false} MoveFrame(db: Db, now: Timestamps.Utc, at: Attempt, action: Action)
    requires DbInv(db) && Knows(db, at) && Ready(at, action)
    ensures Leaves(db, now, at, action, Move(db, now, at, action).0)
  {
    assert CommitsNow(db, now, at, action) ==> action.Commit?;
    hide DbInv, Knows, Move, CommitsNow, Transactions.Dispatched, StartOf, OutcomeOf, FailureCode,
         Transactions.WithEvent, Ready;
    if !Writes(action) {
      NonWriting(db, now, at, action);
    } else if action.Commit? {
      if CommitsNow(db, now, at, action) {
        CommitWrites(db, now, at, action);
      } else {
        FailedCommitWrites(db, now, at, action);
      }
    } else {
      RecordWrites(db, now, at, action);
    }
  }

  lemma {:induction false} RecordWrites(db: Db, now: Timestamps.Utc, at: Attempt, action: Action)
    requires Ready(at, action) && (action.RecordOutcome? || action.RecordRefusal?)
    ensures
      Move(db, now, at, action).0 ==
        if action == RecordOutcome(true) then Transactions.WithEvent(db, OutcomeOf(at))
        else if action == RecordRefusal(true) then
          Transactions.WithEvent(db, RefusalEvent(at.pc.ref, FailureCode(at.pc.reason)))
        else db
  {
    hide OutcomeOf, FailureCode, Transactions.WithEvent;
  }

  lemma {:induction false} FailedCommitWrites(db: Db, now: Timestamps.Utc, at: Attempt, action: Action)
    requires DbInv(db) && Knows(db, at) && Ready(at, action) && action.Commit? && !CommitsNow(db, now, at, action)
    ensures Move(db, now, at, action).0 == db
  {
    hide DbInv, Knows, AfterCommit, CommitsNow;
    FailedCommitBefore(db, now, at, action);
  }

  lemma {:induction false} CommitWrites(db: Db, now: Timestamps.Utc, at: Attempt, action: Action)
    requires DbInv(db) && Knows(db, at) && Ready(at, action) && CommitsNow(db, now, at, action)
    ensures at.pc.AtCommit? && action.Commit? && FindToken(db.proposals, Td(at.call)) < |db.proposals|
    ensures Move(db, now, at, action).0 == Transactions.Dispatched(db, Td(at.call), now, StartOf(at.call, at.pc.ticket))
  {
    hide DbInv, Knows, AfterCommit, Resolve, Transactions.Dispatched, StartOf, KnowsTicket;
    GateSteps.AtCommitKnows(db, at);
    GateSteps.CommitDecided(db, now, at, action.appendOk);
  }

  /* ---------- Moving one attempt on ---------- */

  lemma {:induction false} SetKnow(a: Db, b: Db, attempts: map<nat, Attempt>, k: nat, at: Attempt)
    requires AttemptsKnow(a, attempts) && Grows(a, b) && DbInv(b) && Knows(b, at)
    ensures AttemptsKnow(b, attempts[k := at])
  {
    WorldSteps.AttemptsKnowStable(a, b, attempts);
    hide Knows, DbInv, Grows;
  }

  lemma {:induction false} OnwardRest(runs: seq<Run>, locks: Locks.Table, attempts: map<nat, Attempt>, a: nat,
          at: Attempt)
    requires a in attempts && Onward(attempts[a], at)
    requires AttemptsAlive(locks, attempts) && StartsDistinct(attempts) && RunsFit(runs, attempts)
    ensures
      var next := attempts[a := at];
      AttemptsAlive(locks, next) && StartsDistinct(next) && RunsFit(runs, next)
  {
    hide Locks.IsRunning;
    forall i | 0 <= i < |runs| ensures RunOf(runs[i], attempts[a := at]) {
      assert RunOf(runs[i], attempts);
    }
  }

  lemma {:induction false} OnwardOpen(log: seq<Event>, attempts: map<nat, Attempt>, a: nat, at: Attempt)
    requires a in attempts && Onward(attempts[a], at) && PendingOpen(log, attempts)
    ensures PendingOpen(log, attempts[a := at])
  {
    hide Recovery.CountTerminal;
  }

  lemma {:induction false} OnwardSweep(sw: Sweep, log: seq<Event>, attempts: map<nat, Attempt>, locks: Locks.Table,
          a: nat, at: Attempt)
    requires a in attempts && Onward(attempts[a], at) && SweepFits(sw, log, attempts, locks)
    ensures SweepFits(sw, log, attempts[a := at], locks)
  {
    OnwardOpen(sw.work, attempts, a, at);
    hide Onward, OutcomesOnce, OutcomesStarted, PendingOpen, ProbeOf;
  }

  lemma {:induction false} OnwardStaging(w: World, a: nat, at: Attempt)
    requires a in w.attempts && Onward(w.attempts[a], at)
    requires StagingFits(w.staging, w.staged, w.candidates, w.attempts, w.locks)
    ensures StagingFits(w.staging, w.staged, w.candidates, w.attempts[a := at], w.locks)
  {
    hide ProbeOf, Locks.Acquired;
  }

  // The executor is called only by an attempt that has not called it yet.
  lemma {:induction false} NewRun(runs: seq<Run>, attempts: map<nat, Attempt>, a: nat, at: Attempt)
    requires a in attempts && attempts[a].pc.AtExecute? && attempts[a].started.Some?
    requires Onward(attempts[a], at) && RunsFit(runs, attempts)
    ensures
      var s := attempts[a].started.value;
      RunsFit(runs + [Run(a, s.sequence, s.ticket.frozen.id, s.ticket.x.script)], attempts[a := at])
  {
    var s := attempts[a].started.value;
    var next := runs + [Run(a, s.sequence, s.ticket.frozen.id, s.ticket.x.script)];
    forall i | 0 <= i < |next| ensures RunOf(next[i], attempts[a := at]) {
      assert i < |runs| ==> RunOf(runs[i], attempts);
    }
    forall i, j | 0 <= i < j < |next| ensures next[i].attempt != next[j].attempt {
      assert RunOf(runs[i], attempts);
    }
  }

  lemma {:induction false} QuietOwners(a: seq<Event>, b: seq<Event>, locks: Locks.Table)
    requires StartOwners(a, locks) && WorldSteps.QuietLog(a, b)
    ensures StartOwners(b, locks)
  {
    hide Locks.Acquired;
  }

  lemma {:induction false} QuietDb(a: Db, now: Timestamps.Utc, attempts: map<nat, Attempt>, k: nat, action: Action)
    requires DbInv(a) && BindingsProven(a) && AttemptsKnow(a, attempts)
    requires k in attempts && Ready(attempts[k], action)
    requires !CommitsNow(a, now, attempts[k], action) && action != RecordOutcome(true)
    ensures
      var (b, at) := Move(a, now, attempts[k], action);
      && Onward(attempts[k], at) && WorldSteps.QuietLog(a.log, b.log)
      && DbInv(b) && BindingsProven(b) && AttemptsKnow(b, attempts[k := at])
  {
    var at := attempts[k];
    assert Knows(a, at);
    hide Move, CommitsNow, Ready, Knows, DbInv, Grows, AttemptsKnow, BindingsProven;
    MoveIsQuiet(a, now, at, action);
    GateSteps.MoveKeeps(a, now, at, action);
    var (b, next) := Move(a, now, at, action);
    hide Onward, WorldSteps.QuietLog;
    SetKnow(a, b, attempts, k, next);
    QuietProven(a, b);
  }

  lemma {:induction false} QuietProven(a: Db, b: Db)
    requires BindingsProven(a) && Grows(a, b) && b.proposals == a.proposals && b.bindings == a.bindings
    ensures BindingsProven(b)
  {
    hide Proven, Grows;
  }

  lemma {:induction false} NonWriting(db: Db, now: Timestamps.Utc, at: Attempt, action: Action)
    requires Ready(at, action) && !Writes(action)
    ensures Move(db, now, at, action).0 == db
  {
    hide AfterToken, AfterChecks, AfterAuthorize, AfterVerifyProposal, AfterVerifyBinding, AfterCommit;
  }

  lemma {:induction false} QuietRuns(runs: seq<Run>, locks: Locks.Table, attempts: map<nat, Attempt>, a: nat,
          action: Action, at: Attempt)
    requires a in attempts && Ready(attempts[a], action) && Onward(attempts[a], at)
    requires RunsFit(runs, attempts) && AttemptsAlive(locks, attempts) && StartsDistinct(attempts)
    ensures RunsFit(RunsAfter(runs, a, attempts[a], action), attempts[a := at])
  {
    OnwardRest(runs, locks, attempts, a, at);
    if action.CallExecutor? && attempts[a].started.Some? {
      NewRun(runs, attempts, a, at);
    }
    hide RunsFit, Onward, StartsDistinct, AttemptsAlive;
  }

  lemma {:induction false} QuietStep(w: World, a: nat, action: Action)
    requires Inv(w) && Enabled(w, Gate(a, action))
    requires !CommitsNow(w.db, w.clock, w.attempts[a], action) && action != RecordOutcome(true)
    ensures Inv(Apply(w, Gate(a, action)))
  {
    var (db, at) := Move(w.db, w.clock, w.attempts[a], action);
    QuietDb(w.db, w.clock, w.attempts, a, action);
    assert Knows(w.db, w.attempts[a]);
    if !Writes(action) {
      NonWriting(w.db, w.clock, w.attempts[a], action);
    }
    hide CommitsNow, Move, Knows, Onward;
    OnwardRest(w.runs, w.locks, w.attempts, a, at);
    QuietRuns(w.runs, w.locks, w.attempts, a, action, at);
    WorldSteps.QuietOutcomes(w.db.log, db.log, w.attempts);
    OnwardOpen(db.log, w.attempts, a, at);
    QuietOwners(w.db.log, db.log, w.locks);
    OnwardStaging(w, a, at);
    if w.sweep.Some? {
      OnwardSweep(w.sweep.value, w.db.log, w.attempts, w.locks, a, at);
    }
    assert Apply(w, Gate(a, action)) == AfterGate(w, a, action);
    hide Ready, DbInv, BindingsProven, AttemptsKnow, AttemptsAlive, StartsDistinct, RunsFit, OutcomesOnce,
         OutcomesStarted, PendingOpen, SweepFits, StagingFits, StartOwners, Locks.Inv, WorldSteps.QuietLog;
  }
}
