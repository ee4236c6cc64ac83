// One `execute` call from its first check to its last record, on a database no other process
// changes meanwhile: the protocol's own steps in sequence, what a refusal leaves untouched, and
// when a dispatch is certain.
module GateRun {
  import opened Wrappers
  import opened Domain
  import opened Records
  import opened Integrity
  import opened GateChecks
  import opened GateProtocol
  import GateSteps
  import Transactions
  import Catalog
  import Library
  import Timestamps

  // What the executor does when called with the frozen invocation and the resolved bytes.
  datatype Report = Reported(outcome: string, code: string) | RaisedTimeout | RaisedOther

  // `injected`: a caller-supplied executor instead of the staged runner.
  datatype Environment = Environment(
    resolveAt: Timestamps.Utc,
    verifyAt: Timestamps.Utc,
    commitAt: Timestamps.Utc,
    oracle: Oracle,
    injected: bool,
    report: Report,
    startOk: bool,
    outcomeOk: bool,
    refusalOk: bool
  )

  // How a report is recorded: an injected executor may say success or unknown, and its timeouts
  // are unknown; the staged runner may also say failure, and never raises on a timeout.
  function Classify(injected: bool, r: Report): (c: (Outcome, string, bool))
    ensures c.0 != Refused
    ensures c.0 == Success ==> !c.2 && r.Reported? && r.outcome == "success"
  {
    match r
    case Reported("success", code) => (Success, if injected then "" else code, false)
    case Reported("unknown", code) => (Unknown, if injected then "" else code, false)
    case Reported("failure", code) => if injected then (Failure, "executor-error", true) else (Failure, code, false)
    case Reported(_, _) => (Failure, "executor-error", true)
    case RaisedTimeout => if injected then (Unknown, "executor-timeout", true) else (Failure, "executor-error", true)
    case RaisedOther => (Failure, "executor-error", true)
  }

  function Rank(pc: Pc): nat {
    match pc
    case AtToken => 9
    case AtBinding(_) => 8
    case AtExamine(_, _) => 7
    case AtAuthorize(_, _) => 6
    case AtVerifyProposal(_, _, _) => 5
    case AtVerifyBinding(_, _, _) => 4
    case AtCommit(_) => 3
    case AtExecute => 2
    case InExecutor => 1
    case _ => 0
  }

  function NextAction(env: Environment, pc: Pc): Action
    requires Rank(pc) > 0
  {
    match pc
    case AtToken => ReadToken
    case AtBinding(_) => ReadBinding
    case AtExamine(_, _) => RunChecks(env.oracle)
    case AtAuthorize(_, _) => Authorize
    case AtVerifyProposal(_, _, _) => VerifyProposalRow
    case AtVerifyBinding(_, _, _) => VerifyBindingRow
    case AtCommit(_) => Commit(env.startOk)
    case AtExecute => CallExecutor
    case InExecutor =>
      ExecutorReturns(Classify(env.injected, env.report).0, Classify(env.injected, env.report).1)
  }

  function TimeOf(env: Environment, pc: Pc): Timestamps.Utc {
    match pc
    case AtVerifyProposal(_, _, _) => env.verifyAt
    case AtCommit(_) => env.commitAt
    case _ => env.resolveAt
  }

  lemma {:induction false} RankFalls(db: Db, env: Environment, at: Attempt)
    requires Rank(at.pc) > 0
    ensures Ready(at, NextAction(env, at.pc))
    ensures Rank(Move(db, TimeOf(env, at.pc), at, NextAction(env, at.pc)).1.pc) < Rank(at.pc)
  {
    hide Library.ResolveCitation, Resolve, Examine, FindStanding, FetchApproval, FetchBinding, VerifyApprovalRow,
         VerifyProposal, VerifyBinding, Dispatch, MaxSequence, StartOf, Classify;
  }

  // Steps up to the point where the verdict is only left to be recorded.
  function Decide(db: Db, env: Environment, at: Attempt): (Db, Attempt)
    decreases Rank(at.pc)
  {
    if Rank(at.pc) == 0 then (db, at)
    else
      RankFalls(db, env, at);
      var (next, at') := Move(db, TimeOf(env, at.pc), at, NextAction(env, at.pc));
      Decide(next, env, at')
  }

  function Conclude(db: Db, env: Environment, at: Attempt): Db {
    match at.pc
    case AtRefusal(reason, ref) =>
      if env.refusalOk then Transactions.WithEvent(db, RefusalEvent(ref, FailureCode(reason))) else db
    case AtOutcome(_, _) =>
      if env.outcomeOk && at.started.Some? then Transactions.WithEvent(db, OutcomeOf(at)) else db
    case _ => db
  }

  function Begin(c: Call): Attempt {
    Attempt(c, AtToken, None)
  }

  function Execution(db: Db, env: Environment, c: Call): Db {
    var (mid, at) := Decide(db, env, Begin(c));
    Conclude(mid, env, at)
  }

  /* ---------- What any decision leaves behind ---------- */

  ghost predicate Undispatched(db: Db, next: Db, at: Attempt) {
    at.pc.AtRefusal? && at.started.None? && next == db
  }

  ghost predicate DispatchedNow(db: Db, next: Db, env: Environment, at: Attempt) {
    && at.pc.AtOutcome? && at.started.Some?
    && var t := at.started.value.ticket;
    && FindToken(db.proposals, Td(at.call)) < |db.proposals|
    && next == Transactions.Dispatched(db, Td(at.call), env.commitAt, StartOf(at.call, t))
  }

  lemma {:induction false} DecideKeeps(db: Db, env: Environment, at: Attempt)
    requires DbInv(db) && Knows(db, at)
    ensures
      var (next, at') := Decide(db, env, at);
      DbInv(next) && Grows(db, next) && Knows(next, at') && at'.call == at.call
    decreases Rank(at.pc)
  {
    hide DbInv, Grows, Knows, Move;
    GrowsReflexive(db);
    if Rank(at.pc) > 0 {
      RankFalls(db, env, at);
      var action, now := NextAction(env, at.pc), TimeOf(env, at.pc);
      GateSteps.MoveKeeps(db, now, at, action);
      CallKept(db, now, at, action);
      var (next, at') := Move(db, now, at, action);
      DecideKeeps(next, env, at');
      GrowsTransitive(db, next, Decide(next, env, at').0);
    }
  }

  lemma {:induction false} CallKept(db: Db, now: Timestamps.Utc, at: Attempt, action: Action)
    requires Ready(at, action)
    ensures Move(db, now, at, action).1.call == at.call
  {
    hide Library.ResolveCitation, Resolve, Examine, FindStanding, FetchApproval, FetchBinding, VerifyApprovalRow,
         VerifyProposal, VerifyBinding, Dispatch, MaxSequence, StartOf, Transactions.WithEvent;
  }

  // A read moves the program counter and nothing else.
  lemma {:induction false} ReadsChangeNothing(db: Db, env: Environment, at: Attempt)
    requires Rank(at.pc) > 3
    ensures Ready(at, NextAction(env, at.pc))
    ensures
      var (next, at') := Move(db, TimeOf(env, at.pc), at, NextAction(env, at.pc));
      next == db && at'.started == at.started && at'.call == at.call && !Executing(at'.pc) && at'.pc != Done
  {
    hide Library.ResolveCitation, Resolve, Examine, FindStanding, FetchApproval, FetchBinding, VerifyApprovalRow,
         VerifyProposal, VerifyBinding;
  }

  lemma {:induction false} CommitDecides(db: Db, env: Environment, at: Attempt)
    requires DbInv(db) && Knows(db, at) && at.pc.AtCommit? && at.started.None?
    ensures
      var (next, at') := Decide(db, env, at);
      Undispatched(db, next, at') || DispatchedNow(db, next, env, at')
  {
    hide Transactions.Dispatched, StartOf, DbInv, AfterCommit, Resolve, Knows, KnowsTicket, Classify;
    GateSteps.AtCommitKnows(db, at);
    GateSteps.CommitDecided(db, env.commitAt, at, env.startOk);
    var (next, at') := AfterCommit(db, env.commitAt, at, env.startOk);
    if at'.pc.AtExecute? {
      ExecuteDecides(next, env, at');
    }
  }

  lemma {:induction false} ExecuteDecides(db: Db, env: Environment, at: Attempt)
    requires at.pc.AtExecute?
    ensures
      var c := Classify(env.injected, env.report);
      Decide(db, env, at) == (db, at.(pc := AtOutcome(c.0, c.1)))
  {
    hide Classify;
    var inside := at.(pc := InExecutor);
    assert Move(db, TimeOf(env, at.pc), at, CallExecutor) == (db, inside);
    assert Decide(db, env, at) == Decide(db, env, inside);
    var c := Classify(env.injected, env.report);
    var over := inside.(pc := AtOutcome(c.0, c.1));
    assert Move(db, TimeOf(env, inside.pc), inside, NextAction(env, inside.pc)) == (db, over);
    assert Decide(db, env, over) == (db, over);
  }

  // A decision is a refusal that changed nothing, or exactly the dispatch transaction.
  lemma {:induction false} RefusalOrDispatch(db: Db, env: Environment, at: Attempt)
    requires DbInv(db) && Knows(db, at) && at.started.None? && Rank(at.pc) > 2
    ensures
      var (next, at') := Decide(db, env, at);
      Undispatched(db, next, at') || DispatchedNow(db, next, env, at')
    decreases Rank(at.pc)
  {
    hide DbInv, Knows, Move, NextAction, TimeOf, Undispatched, DispatchedNow, Grows;
    if at.pc.AtCommit? {
      CommitDecides(db, env, at);
    } else {
      ReadsChangeNothing(db, env, at);
      RankFalls(db, env, at);
      GateSteps.MoveKeeps(db, TimeOf(env, at.pc), at, NextAction(env, at.pc));
      var (next, at') := Move(db, TimeOf(env, at.pc), at, NextAction(env, at.pc));
      if at'.pc.AtRefusal? {
        assert Undispatched(db, next, at') by {
          RefusedHere(db, next, at');
        }
      } else {
        RefusalOrDispatch(next, env, at');
      }
    }
  }

  lemma {:induction false} RefusedHere(db: Db, next: Db, at: Attempt)
    requires at.pc.AtRefusal? && at.started.None? && next == db
    ensures Undispatched(db, next, at)
  {
  }

  // The whole call: a refusal leaves proposals, bindings and approvals untouched and records one
  // refusal event; a dispatch is the one transaction followed by one outcome event.
  lemma {:induction false} ExecutionFrame(db: Db, env: Environment, c: Call)
    requires DbInv(db) && Library.Loaded(c.config.library)
        && (c.config.catalog.Some? ==> Catalog.Loaded(c.config.catalog.value))
    ensures
      var (mid, at) := Decide(db, env, Begin(c));
      var next := Execution(db, env, c);
      && DbInv(next) && Grows(db, next)
      && (at.pc.AtRefusal? ==>
            && next == db.(log := next.log)
            && next.log == if env.refusalOk then Append(db.log, RefusalEvent(at.pc.ref, FailureCode(at.pc.reason)))
                else db.log)
      && (!at.pc.AtRefusal? ==>
            && at.started.Some?
            && DispatchedNow(db, mid, env, at)
            && next == if env.outcomeOk then Transactions.WithEvent(mid, OutcomeOf(at)) else mid)
  {
    hide DbInv, Grows, Decide, DispatchedNow, FailureCode, OutcomeOf, Append;
    assert Knows(db, Begin(c));
    DecideKeeps(db, env, Begin(c));
    RefusalOrDispatch(db, env, Begin(c));
    var (mid, at) := Decide(db, env, Begin(c));
    ConcludeKeeps(mid, env, at);
    assert DispatchedNow(db, mid, env, at) ==> at.pc.AtOutcome? && at.started.Some? by {
      DispatchedStarted(db, mid, env, at);
    }
    GrowsTransitive(db, mid, Execution(db, env, c));
  }

  // A dispatched call has established the whole conjunction.
  lemma {:induction false} ExecutionSound(db: Db, env: Environment, c: Call)
    requires DbInv(db) && Library.Loaded(c.config.library)
        && (c.config.catalog.Some? ==> Catalog.Loaded(c.config.catalog.value))
    ensures
      var at := Decide(db, env, Begin(c)).1;
      at.started.Some? ==>
        && ExaminedHolds(c.config, c.request, at.started.value.ticket.frozen, at.started.value.ticket.x)
        && PathHolds(c.config, at.started.value.ticket)
  {
    assert Knows(db, Begin(c));
    hide DbInv, Grows, Decide, Knows, ExaminedHolds, PathHolds, KnowsStarted;
    DecideKeeps(db, env, Begin(c));
    var (mid, at) := Decide(db, env, Begin(c));
    if at.started.Some? {
      GateSteps.KnownStarted(mid, at);
      GateSteps.StartedFacts(mid, at.call, at.started.value);
    }
  }

  lemma {:induction false} DispatchedStarted(db: Db, next: Db, env: Environment, at: Attempt)
    ensures DispatchedNow(db, next, env, at) ==> at.pc.AtOutcome? && at.started.Some?
  {
  }

  lemma {:induction false} ConcludeKeeps(db: Db, env: Environment, at: Attempt)
    requires DbInv(db)
    ensures DbInv(Conclude(db, env, at)) && Grows(db, Conclude(db, env, at))
  {
    hide DbInv, Grows, Transactions.WithEvent, FailureCode;
    GrowsReflexive(db);
    match at.pc {
      case AtRefusal(reason, ref) => Transactions.AppendKeeps(db, RefusalEvent(ref, FailureCode(reason)));
      case AtOutcome(_, _) =>
        if at.started.Some? {
          Transactions.AppendKeeps(db, OutcomeOf(at));
        }
      case _ =>
    }
  }

  /* ---------- One step of a decision at a time ---------- */

  // One read of a decision.
  lemma {:induction false} DecideStep(db: Db, env: Environment, at: Attempt)
    requires Rank(at.pc) > 3
    ensures Ready(at, NextAction(env, at.pc))
    ensures Decide(db, env, at) == Decide(db, env, Move(db, TimeOf(env, at.pc), at, NextAction(env, at.pc)).1)
  {
    hide Move;
    ReadsChangeNothing(db, env, at);
    RankFalls(db, env, at);
  }

  lemma {:induction false} DecideToken(db: Db, env: Environment, at: Attempt)
    requires at.pc.AtToken?
    ensures Decide(db, env, at) == Decide(db, env, AfterToken(db, env.resolveAt, at))
  {
    hide AfterToken, Decide;
    DecideStep(db, env, at);
  }

  lemma {:induction false} DecideBinding(db: Db, env: Environment, at: Attempt)
    requires at.pc.AtBinding?
    ensures Decide(db, env, at) == Decide(db, env,
        at.(pc := AtExamine(at.pc.frozen, FetchBinding(db, at.pc.frozen.id))))
  {
    hide FetchBinding, Decide;
    DecideStep(db, env, at);
  }

  lemma {:induction false} DecideChecks(db: Db, env: Environment, at: Attempt)
    requires at.pc.AtExamine?
    ensures Decide(db, env, at) == Decide(db, env, AfterChecks(at, env.oracle))
  {
    hide AfterChecks, Decide;
    DecideStep(db, env, at);
  }

  lemma {:induction false} DecideAuthorize(db: Db, env: Environment, at: Attempt)
    requires at.pc.AtAuthorize?
    ensures Decide(db, env, at) == Decide(db, env, AfterAuthorize(db, at))
  {
    hide AfterAuthorize, Decide;
    DecideStep(db, env, at);
  }

  lemma {:induction false} DecideVerifyProposal(db: Db, env: Environment, at: Attempt)
    requires at.pc.AtVerifyProposal?
    ensures Decide(db, env, at) == Decide(db, env, AfterVerifyProposal(db, env.verifyAt, at))
  {
    hide AfterVerifyProposal, Decide;
    DecideStep(db, env, at);
  }

  lemma {:induction false} DecideVerifyBinding(db: Db, env: Environment, at: Attempt)
    requires at.pc.AtVerifyBinding?
    ensures Decide(db, env, at) == Decide(db, env, AfterVerifyBinding(db, at))
  {
    hide AfterVerifyBinding, Decide;
    DecideStep(db, env, at);
  }

  lemma {:induction false} DecideCommit(db: Db, env: Environment, at: Attempt)
    requires at.pc.AtCommit?
    ensures
      var (next, at') := AfterCommit(db, env.commitAt, at, env.startOk);
      Decide(db, env, at) == Decide(next, env, at')
  {
    hide AfterCommit;
  }
}
