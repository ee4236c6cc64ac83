// The two steps of an attempt that mark an execution: the dispatch transaction that starts it
// and the append that ends it.
module WorldDispatch {
  import opened Wrappers
  import opened Domain
  import opened Records
  import opened Integrity
  import opened GateChecks
  import opened GateProtocol
  import opened World
  import GateSteps
  import WorldSteps
  import WorldGate
  import Transactions
  import Recovery
  import Locks = OwnerLocks
  import Timestamps

  /* ---------- Dispatch ---------- */

  // The start record carries a sequence above every start known so far.
  lemma {:induction false} StartRest(db: Db, runs: seq<Run>, locks: Locks.Table, attempts: map<nat, Attempt>, a: nat,
          at: Attempt)
    requires a in attempts && attempts[a].started.None? && attempts[a].pc != Done
    requires at.call == attempts[a].call && at.pc.AtExecute? && at.started.Some?
        && at.started.value.sequence == |db.log| + 1
    requires AttemptsKnow(db, attempts)
    requires AttemptsAlive(locks, attempts) && StartsDistinct(attempts) && RunsFit(runs, attempts)
    ensures
      var next := attempts[a := at];
      AttemptsAlive(locks, next) && StartsDistinct(next) && RunsFit(runs, next)
  {
    forall b | b in attempts && attempts[b].started.Some? ensures attempts[b].started.value.sequence <= |db.log| {
      assert Knows(db, attempts[b]);
      SequenceKnown(db, attempts[b]);
    }
    hide AttemptsKnow, Locks.IsRunning;
    forall i | 0 <= i < |runs| ensures RunOf(runs[i], attempts[a := at]) {
      assert RunOf(runs[i], attempts);
    }
  }

  lemma {:induction false} SequenceKnown(db: Db, at: Attempt)
    requires Knows(db, at) && at.started.Some?
    ensures
      var s := at.started.value;
      1 <= s.sequence <= |db.log| && IsStart(db.log[s.sequence - 1], s.ticket.frozen.id)
  {
    hide KnowsTicket;
  }

  lemma {:induction false} StartOutcomes(log: seq<Event>, e: Event, attempts: map<nat, Attempt>, a: nat, at: Attempt,
          id: string)
    requires Gapless(log) && IsStart(e, id)
    requires OutcomesOnce(log) && OutcomesStarted(log, log) && PendingOpen(log, attempts)
    requires at.started.Some? && at.started.value.ticket.frozen.id == id && !HasStart(log, id)
    ensures
      var next := Append(log, e);
      OutcomesOnce(next) && OutcomesStarted(next, next) && PendingOpen(next, attempts[a := at])
  {
    var next := Append(log, e);
    forall ref ensures Recovery.CountTerminal(next, ref) == Recovery.CountTerminal(log, ref) {
      Recovery.CountAppend(log, e, ref);
    }
    forall i | HasStart(log, i) ensures HasStart(next, i) {
      HasStartAppend(log, e, i);
    }
    hide Append, HasStart, Recovery.CountTerminal;
  }

  lemma {:induction false} StartNamesOwner(log: seq<Event>, e: Event, locks: Locks.Table)
    requires Gapless(log) && StartOwners(log, locks) && Locks.Acquired(locks, e.owner)
    ensures StartOwners(Append(log, e), locks)
  {
    AppendGapless(log, e);
    hide Locks.Acquired;
  }

  lemma {:induction false} StartStaging(w: World, a: nat, at: Attempt)
    requires StagingFits(w.staging, w.staged, w.candidates, w.attempts, w.locks)
    requires a in w.attempts && w.attempts[a].started.None? && at.call == w.attempts[a].call
    ensures StagingFits(w.staging, w.staged, w.candidates, w.attempts[a := at], w.locks)
  {
    hide ProbeOf, Locks.Acquired;
  }

  // An active row has no start record yet.
  lemma {:induction false} NotStarted(db: Db, td: TokenDigest, expected: Option<Digest>, now: Timestamps.Utc)
    requires DbInv(db) && Resolve(db, td, expected, now).Ok?
    ensures !HasStart(db.log, Resolve(db, td, expected, now).value.id)
  {
    Transactions.ResolvedRow(db, td, expected, now);
    hide Resolve;
  }

  // What a commit does to the database and the attempt, with nothing left to unfold.
  ghost predicate Starts(db: Db, at: Attempt, next: Db, at': Attempt) {
    && at.started.None? && at.pc.AtCommit?
    && var t := at.pc.ticket;
    && at' == at.(pc := AtExecute, started := Some(Started(t, |db.log| + 1)))
    && next.bindings == db.bindings && |next.proposals| == |db.proposals|
    && next.log == Append(db.log, StartOf(at.call, t))
    && !HasStart(db.log, t.frozen.id)
  }

  lemma {:induction false} CommitShape(db: Db, now: Timestamps.Utc, at: Attempt, action: Action)
    requires DbInv(db) && Knows(db, at) && Ready(at, action) && WorldGate.CommitsNow(db, now, at, action)
    ensures
      var (next, at') := Move(db, now, at, action);
      Starts(db, at, next, at')
  {
    hide DbInv, Knows, AfterCommit, Resolve, Append, HasStart, StartOf;
    GateSteps.AtCommitKnows(db, at);
    hide ExaminedHolds, PathHolds, KnowsBinding, KnowsApproval;
    GateSteps.CommitDecided(db, now, at, action.appendOk);
    NotStarted(db, Td(at.call), at.call.request.expected, now);
    Transactions.ResolvedRow(db, Td(at.call), at.call.request.expected, now);
  }

  lemma {:induction false} CommitDb(a: Db, now: Timestamps.Utc, attempts: map<nat, Attempt>, k: nat, action: Action)
    requires DbInv(a) && BindingsProven(a) && AttemptsKnow(a, attempts)
    requires k in attempts && Ready(attempts[k], action)
    requires WorldGate.CommitsNow(a, now, attempts[k], action)
    ensures
      var (b, at) := Move(a, now, attempts[k], action);
      && Starts(a, attempts[k], b, at)
      && DbInv(b) && BindingsProven(b) && AttemptsKnow(b, attempts[k := at])
  {
    var at := attempts[k];
    assert Knows(a, at);
    hide Move, WorldGate.CommitsNow, Ready, Knows, DbInv, Grows, AttemptsKnow, BindingsProven;
    CommitShape(a, now, at, action);
    GateSteps.MoveKeeps(a, now, at, action);
    var (b, next) := Move(a, now, at, action);
    WorldGate.SetKnow(a, b, attempts, k, next);
    WorldSteps.ProvenStable(a, b);
  }

  lemma {:induction false} StartFacts(db: Db, now: Timestamps.Utc, locks: Locks.Table, attempts: map<nat, Attempt>,
          a: nat, action: Action)
    requires DbInv(db) && AttemptsAlive(locks, attempts) && a in attempts && attempts[a].pc.AtCommit?
    requires WorldGate.CommitsNow(db, now, attempts[a], action)
    ensures Gapless(db.log) && action.Commit?
    ensures
      var e := StartOf(attempts[a].call, attempts[a].pc.ticket);
      IsStart(e, attempts[a].pc.ticket.frozen.id) && Locks.Acquired(locks, e.owner)
  {
    assert Gapless(db.log);
    hide DbInv, Gapless, Resolve;
  }

  lemma {:induction false} DispatchStep(w: World, a: nat, action: Action)
    requires Inv(w) && Enabled(w, Gate(a, action))
    requires WorldGate.CommitsNow(w.db, w.clock, w.attempts[a], action)
    ensures Inv(Apply(w, Gate(a, action)))
  {
    hide DbInv, BindingsProven, AttemptsKnow, AttemptsAlive, StartsDistinct, RunsFit, OutcomesOnce, OutcomesStarted,
         PendingOpen, SweepFits, StagingFits, StartOwners, Locks.Inv, HasStart, Append, StartOf, Move, Locks.Acquired,
         Locks.IsRunning, Gapless, WorldGate.CommitsNow, Ready;
    var at := w.attempts[a];
    CommitDb(w.db, w.clock, w.attempts, a, action);
    var (db, next) := Move(w.db, w.clock, at, action);
    var e := StartOf(at.call, at.pc.ticket);
    StartFacts(w.db, w.clock, w.locks, w.attempts, a, action);
    StartRest(w.db, w.runs, w.locks, w.attempts, a, next);
    StartOutcomes(w.db.log, e, w.attempts, a, next, at.pc.ticket.frozen.id);
    StartNamesOwner(w.db.log, e, w.locks);
    StartStaging(w, a, next);
  }

  /* ---------- Outcome ---------- */

  // The attempt's own outcome is the first: nobody else may have recorded one, and no other
  // attempt is waiting to record one for the same proposal.
  lemma {:induction false} OutcomeCounts(db: Db, attempts: map<nat, Attempt>, a: nat, e: Event, at: Attempt)
    requires Gapless(db.log) && StartsUnique(db.log) && AttemptsKnow(db, attempts) && StartsDistinct(attempts)
    requires a in attempts && Pending(attempts[a])
    requires e.kind == ExecutionOutcome && e.proposalRef == Some(attempts[a].started.value.ticket.frozen.id)
    requires at == attempts[a].(pc := Done)
    requires OutcomesOnce(db.log) && OutcomesStarted(db.log, db.log) && PendingOpen(db.log, attempts)
    ensures
      var next := Append(db.log, e);
      OutcomesOnce(next) && OutcomesStarted(next, next) && PendingOpen(next, attempts[a := at])
  {
    var id, next := attempts[a].started.value.ticket.frozen.id, Append(db.log, e);
    assert Knows(db, attempts[a]);
    SequenceKnown(db, attempts[a]);
    forall b | b in attempts && b != a && Pending(attempts[b])
      ensures attempts[b].started.value.ticket.frozen.id != id {
      assert Knows(db, attempts[b]);
      SequenceKnown(db, attempts[b]);
      assert attempts[b].started.value.sequence != attempts[a].started.value.sequence;
    }
    hide AttemptsKnow, Knows, StartsDistinct;
    forall ref ensures Recovery.CountTerminal(next, ref)
                       <= Recovery.CountTerminal(db.log, ref) + if ref == Some(id) then 1 else 0 {
      Recovery.CountAppend(db.log, e, ref);
    }
    forall i | HasStart(db.log, i) ensures HasStart(next, i) {
      HasStartAppend(db.log, e, i);
    }
    assert HasStart(db.log, id);
    hide Append, HasStart, Recovery.CountTerminal, StartsUnique, Gapless;
    assert Recovery.CountTerminal(db.log, Some(id)) == 0;
  }

  lemma {:induction false} OutcomeNamesNoOwner(log: seq<Event>, e: Event, locks: Locks.Table)
    requires Gapless(log) && StartOwners(log, locks) && e.kind != ExecutionStart
    ensures StartOwners(Append(log, e), locks)
  {
    AppendGapless(log, e);
    hide Locks.Acquired;
  }

  lemma {:induction false} OutcomeMoves(db: Db, now: Timestamps.Utc, at: Attempt)
    requires Ready(at, RecordOutcome(true))
    ensures
      Move(db, now, at, RecordOutcome(true)) == (db.(log := Append(db.log, OutcomeOf(at))), at.(pc := Done))
  {
    hide OutcomeOf, Append;
  }

  lemma {:induction false} OutcomeDb(a: Db, now: Timestamps.Utc, attempts: map<nat, Attempt>, k: nat)
    requires DbInv(a) && BindingsProven(a) && AttemptsKnow(a, attempts)
    requires k in attempts && Ready(attempts[k], RecordOutcome(true))
    ensures
      var (b, at) := Move(a, now, attempts[k], RecordOutcome(true));
      && at == attempts[k].(pc := Done) && b == a.(log := Append(a.log, OutcomeOf(attempts[k])))
      && DbInv(b) && BindingsProven(b) && AttemptsKnow(b, attempts[k := at])
  {
    var at := attempts[k];
    assert Knows(a, at);
    hide Knows, DbInv, Grows, AttemptsKnow, BindingsProven, Append, Move, OutcomeOf;
    GateSteps.MoveKeeps(a, now, at, RecordOutcome(true));
    OutcomeMoves(a, now, at);
    var (b, next) := Move(a, now, at, RecordOutcome(true));
    WorldGate.SetKnow(a, b, attempts, k, next);
    WorldGate.QuietProven(a, b);
  }

  lemma {:induction false} OutcomeFacts(db: Db, at: Attempt)
    requires DbInv(db) && Ready(at, RecordOutcome(true))
    ensures at.pc.AtOutcome? && at.started.Some?
    ensures Gapless(db.log) && StartsUnique(db.log) && Pending(at) && WorldGate.Onward(at, at.(pc := Done))
    ensures OutcomeOf(at).kind == ExecutionOutcome
        && OutcomeOf(at).proposalRef == Some(at.started.value.ticket.frozen.id)
  {
    assert Gapless(db.log) && StartsUnique(db.log);
    hide DbInv, Gapless, StartsUnique;
  }

  lemma {:induction false} OutcomeStep(w: World, a: nat)
    requires Inv(w) && Enabled(w, Gate(a, RecordOutcome(true)))
    ensures Inv(Apply(w, Gate(a, RecordOutcome(true))))
  {
    hide DbInv, BindingsProven, AttemptsKnow, AttemptsAlive, StartsDistinct, RunsFit, OutcomesOnce, OutcomesStarted,
         PendingOpen, SweepFits, StagingFits, StartOwners, Locks.Inv, HasStart, Append, OutcomeOf, Move,
         Locks.Acquired, Gapless, StartsUnique, Ready, Pending, WorldGate.Onward;
    var at := w.attempts[a];
    OutcomeDb(w.db, w.clock, w.attempts, a);
    OutcomeFacts(w.db, at);
    var (db, next) := Move(w.db, w.clock, at, RecordOutcome(true));
    OutcomeCounts(w.db, w.attempts, a, OutcomeOf(at), next);
    WorldGate.OnwardRest(w.runs, w.locks, w.attempts, a, next);
    OutcomeNamesNoOwner(w.db.log, OutcomeOf(at), w.locks);
    WorldGate.OnwardStaging(w, a, next);
  }

  lemma {:induction false} GateStep(w: World, a: nat, action: Action)
    requires Inv(w) && Enabled(w, Gate(a, action))
    ensures Inv(Apply(w, Gate(a, action)))
  {
    hide Inv, Apply, Ready, Move, WorldGate.CommitsNow;
    if WorldGate.CommitsNow(w.db, w.clock, w.attempts[a], action) {
      DispatchStep(w, a, action);
    } else if action == RecordOutcome(true) {
      OutcomeStep(w, a);
    } else {
      WorldGate.QuietStep(w, a, action);
    }
  }
}
