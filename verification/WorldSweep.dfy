// Recovery sweeps and staging-directory sweeps keep the system invariant. Their writes rest on
// one fact: a probe launched after its owner locked the file says `dead` only of an ended owner.
module WorldSweep {
  import opened Wrappers
  import opened Domain
  import opened Records
  import opened Integrity
  import opened GateChecks
  import opened GateProtocol
  import opened World
  import WorldSteps
  import WorldLocks
  import WorldGate
  import Recovery
  import Locks = OwnerLocks
  import Timestamps

  lemma {:induction false} TickStep(w: World, later: Timestamps.Utc)
    requires Inv(w) && Enabled(w, Tick(later))
    ensures Inv(Apply(w, Tick(later)))
  {
    hide DbInv, BindingsProven, AttemptsKnow, AttemptsAlive, StartsDistinct, RunsFit, OutcomesOnce, OutcomesStarted,
         PendingOpen, SweepFits, StagingFits, StartOwners, Locks.Inv, Timestamps.Before;
  }

  /* ---------- Reading the starts, skipping the finished ones ---------- */

  lemma {:induction false} SweepBeginFits(db: Db, attempts: map<nat, Attempt>, locks: Locks.Table)
    requires DbInv(db) && OutcomesOnce(db.log) && OutcomesStarted(db.log, db.log) && PendingOpen(db.log, attempts)
    ensures SweepFits(Begun(db.log), db.log, attempts, locks)
  {
    hide OutcomesOnce, OutcomesStarted, PendingOpen, Recovery.HasTerminal;
  }

  lemma {:induction false} SweepBeginStep(w: World)
    requires Inv(w) && Enabled(w, SweepBegin)
    ensures Inv(Apply(w, SweepBegin))
  {
    hide DbInv, BindingsProven, AttemptsKnow, AttemptsAlive, StartsDistinct, RunsFit, OutcomesOnce, OutcomesStarted,
         PendingOpen, SweepFits, StagingFits, StartOwners, Locks.Inv;
    SweepBeginFits(w.db, w.attempts, w.locks);
  }

  lemma {:induction false} SkippedCovers(sw: Sweep, log: seq<Event>)
    requires Covers(sw, log) && sw.todo != [] && Recovery.HasTerminal(sw.work, sw.todo[0].proposalRef)
    ensures Covers(sw.(todo := sw.todo[1..]), log)
  {
    hide Recovery.HasTerminal;
    forall j | 0 <= j < |log| && log[j].kind == ExecutionStart ensures Disposed(sw.(todo := sw.todo[1..]), log[j]) {
      assert Disposed(sw, log[j]);
    }
  }

  lemma {:induction false} SweepSkipFits(sw: Sweep, log: seq<Event>, attempts: map<nat, Attempt>, locks: Locks.Table)
    requires SweepFits(sw, log, attempts, locks) && sw.todo != [] && sw.probe.None?
    requires Recovery.HasTerminal(sw.work, sw.todo[0].proposalRef)
    ensures SweepFits(sw.(todo := sw.todo[1..]), log, attempts, locks)
  {
    hide OutcomesOnce, OutcomesStarted, PendingOpen, Recovery.HasTerminal;
    SkippedCovers(sw, log);
    hide Covers;
  }

  lemma {:induction false} SweepSkipStep(w: World)
    requires Inv(w) && Enabled(w, SweepSkip)
    ensures Inv(Apply(w, SweepSkip))
  {
    hide DbInv, BindingsProven, AttemptsKnow, AttemptsAlive, StartsDistinct, RunsFit, OutcomesOnce, OutcomesStarted,
         PendingOpen, SweepFits, StagingFits, StartOwners, Locks.Inv;
    SweepSkipFits(w.sweep.value, w.db.log, w.attempts, w.locks);
  }

  /* ---------- Probing ---------- */

  // A probe launched now on an owner that has locked its file is one that can be trusted.
  lemma {:induction false} FreshProbe(t: Locks.Table, p: nat, o: string)
    requires Locks.Acquired(t, o) && Locks.Enabled(t, Locks.Begin(p, o))
    ensures ProbeOf(Locks.Apply(t, Locks.Begin(p, o)), p, o)
  {
  }

  lemma {:induction false} SweepProbeFits(sw: Sweep, log: seq<Event>, attempts: map<nat, Attempt>, a: Locks.Table,
          p: nat)
    requires SweepFits(sw, log, attempts, a) && sw.todo != [] && sw.probe.None? && StartOwners(log, a)
    requires Locks.Inv(a) && Locks.Enabled(a, Locks.Begin(p, sw.todo[0].owner))
    ensures SweepFits(sw.(probe := Some(p)), log, attempts, Locks.Apply(a, Locks.Begin(p, sw.todo[0].owner)))
  {
    FreshProbe(a, p, sw.todo[0].owner);
    assert Covers(sw.(probe := Some(p)), log);
    hide Covers, OutcomesOnce, OutcomesStarted, PendingOpen, Locks.Acquired, ProbeOf, Locks.Inv, Locks.Apply,
         Locks.Enabled;
  }

  lemma {:induction false} BeginKeeps(w: World, p: nat, o: string)
    requires Inv(w) && Locks.Enabled(w.locks, Locks.Begin(p, o))
    ensures
      var next := Locks.Apply(w.locks, Locks.Begin(p, o));
      && Locks.Inv(next) && AttemptsAlive(next, w.attempts) && StartOwners(w.db.log, next)
      && (w.sweep.Some? ==> SweepFits(w.sweep.value, w.db.log, w.attempts, next))
      && StagingFits(w.staging, w.staged, w.candidates, w.attempts, next)
  {
    var s := Locks.Begin(p, o);
    WorldLocks.LockAdvances(w.locks, s);
    var next := Locks.Apply(w.locks, s);
    hide DbInv, BindingsProven, AttemptsKnow, StartsDistinct, RunsFit, OutcomesOnce, OutcomesStarted, PendingOpen,
         SweepFits, StagingFits, StartOwners, Locks.Inv, WorldLocks.Advance, Locks.Apply, Locks.Enabled,
         Locks.IsRunning;
    WorldLocks.StartOwnersAdvance(w.db.log, w.locks, next, None);
    if w.sweep.Some? {
      WorldLocks.SweepAdvance(w.sweep.value, w.db.log, w.attempts, w.locks, next, None);
    }
    WorldLocks.StagingAdvance(w, next, None);
  }

  lemma {:induction false} SweepProbeStep(w: World, p: nat)
    requires Inv(w) && Enabled(w, SweepProbe(p))
    ensures Inv(Apply(w, SweepProbe(p)))
  {
    BeginKeeps(w, p, w.sweep.value.todo[0].owner);
    hide DbInv, BindingsProven, AttemptsKnow, AttemptsAlive, StartsDistinct, RunsFit, OutcomesOnce, OutcomesStarted,
         PendingOpen, SweepFits, StagingFits, StartOwners, Locks.Inv, Locks.Apply, Locks.Enabled;
    SweepProbeFits(w.sweep.value, w.db.log, w.attempts, w.locks, p);
  }

  lemma {:induction false} CandidateProbeFits(w: World, locks: Locks.Table, k: nat, p: nat)
    requires StagingFits(w.staging, w.staged, w.candidates, w.attempts, locks)
    requires k in w.candidates && ProbeOf(locks, p, w.candidates[k].owner)
    ensures StagingFits(w.staging, w.staged, w.candidates[k := w.candidates[k].(probe := Some(p))], w.attempts, locks)
  {
    hide ProbeOf, Locks.Acquired;
  }

  lemma {:induction false} CandidateOwner(w: World, k: nat)
    requires StagingFits(w.staging, w.staged, w.candidates, w.attempts, w.locks) && k in w.candidates
    ensures Locks.Acquired(w.locks, w.candidates[k].owner)
  {
    hide ProbeOf, Locks.Acquired;
  }

  lemma {:induction false} CandidateProbeStep(w: World, k: nat, p: nat)
    requires Inv(w) && Enabled(w, CandidateProbe(k, p))
    ensures Inv(Apply(w, CandidateProbe(k, p)))
  {
    hide DbInv, BindingsProven, AttemptsKnow, AttemptsAlive, StartsDistinct, RunsFit, OutcomesOnce, OutcomesStarted,
         PendingOpen, SweepFits, StagingFits, StartOwners, Locks.Inv, Locks.Apply, Locks.Enabled, Locks.Acquired,
         ProbeOf;
    BeginKeeps(w, p, w.candidates[k].owner);
    CandidateOwner(w, k);
    FreshProbe(w.locks, p, w.candidates[k].owner);
    CandidateProbeFits(w, Locks.Apply(w.locks, Locks.Begin(p, w.candidates[k].owner)), k, p);
  }

  /* ---------- Judging a start ---------- */

  lemma {:induction false} VerdictDead(t: Locks.Table, p: nat, o: string)
    requires Locks.Inv(t) && ProbeOf(t, p, o) && t.probes[p].phase == Locks.Done(Locks.Dead)
    ensures Locks.HasEnded(t, o)
  {
    Locks.DeadMeansEnded(t, p);
  }

  // A proposal has one start record.
  lemma {:induction false} OneStart(log: seq<Event>, start: Event, k: nat, id: string)
    requires StartsUnique(log) && start in log && start.kind == ExecutionStart && start.proposalRef == Some(id)
    requires k < |log| && IsStart(log[k], id)
    ensures log[k] == start
  {
    var j :| 0 <= j < |log| && log[j] == start;
    assert j == k;
  }

  // No attempt waiting to record this start's outcome can be alive when its owner is dead.
  lemma {:induction false} DeadOwnerHasNoPending(db: Db, attempts: map<nat, Attempt>, locks: Locks.Table,
          start: Event, b: nat)
    requires StartsUnique(db.log) && AttemptsKnow(db, attempts) && AttemptsAlive(locks, attempts)
    requires start in db.log && start.kind == ExecutionStart && Locks.HasEnded(locks, start.owner)
    requires b in attempts && Pending(attempts[b])
    ensures start.proposalRef != Some(attempts[b].started.value.ticket.frozen.id)
  {
    hide StartsUnique, Knows;
    assert Knows(db, attempts[b]) && Locks.IsRunning(locks, attempts[b].call.owner);
    hide AttemptsKnow, AttemptsAlive;
    OwnerKnown(db, attempts[b]);
    var s := attempts[b].started.value;
    if start.proposalRef == Some(s.ticket.frozen.id) {
      OneStart(db.log, start, s.sequence - 1, s.ticket.frozen.id);
    }
  }

  lemma {:induction false} OwnerKnown(db: Db, at: Attempt)
    requires Knows(db, at) && at.started.Some?
    ensures
      var s := at.started.value;
      && 1 <= s.sequence <= |db.log|
      && IsStart(db.log[s.sequence - 1], s.ticket.frozen.id)
      && db.log[s.sequence - 1].owner == at.call.owner
  {
    hide KnowsTicket;
  }

  lemma {:induction false} RecoveredCounts(work: seq<Event>, log: seq<Event>, attempts: map<nat, Attempt>, start: Event)
    requires OutcomesOnce(work) && OutcomesStarted(work, log) && PendingOpen(work, attempts)
    requires start in log && start.kind == ExecutionStart && start.proposalRef.Some?
    requires !Recovery.HasTerminal(work, start.proposalRef)
    requires forall b :: b in attempts && Pending(attempts[b]) ==>
               start.proposalRef != Some(attempts[b].started.value.ticket.frozen.id)
    ensures
      var next := Append(work, Recovery.Recovered(start));
      OutcomesOnce(next) && OutcomesStarted(next, log) && PendingOpen(next, attempts)
  {
    var e := Recovery.Recovered(start);
    forall ref ensures Recovery.CountTerminal(Append(work, e), ref)
                       <= Recovery.CountTerminal(work, ref) + if ref == start.proposalRef then 1 else 0 {
      Recovery.CountAppend(work, e, ref);
    }
    assert HasStart(log, start.proposalRef.value);
    hide Append, HasStart, Recovery.CountTerminal;
  }

  lemma {:induction false} JudgedCovers(sw: Sweep, log: seq<Event>, verdict: Locks.Verdict)
    requires Covers(sw, log) && sw.todo != [] && sw.todo[0].proposalRef.Some?
    ensures Covers(JudgedBy(sw, verdict), log)
  {
    var next := JudgedBy(sw, verdict);
    forall j | 0 <= j < |log| && log[j].kind == ExecutionStart ensures Disposed(next, log[j]) {
      assert Disposed(sw, log[j]);
      Recovery.CountAppend(sw.work, Recovery.Recovered(sw.todo[0]), log[j].proposalRef);
    }
  }

  lemma {:induction false} JudgedFits(sw: Sweep, db: Db, attempts: map<nat, Attempt>, locks: Locks.Table,
          verdict: Locks.Verdict)
    requires SweepFits(sw, db.log, attempts, locks) && sw.todo != []
    requires StartsUnique(db.log) && AttemptsKnow(db, attempts) && AttemptsAlive(locks, attempts)
    requires verdict == Locks.Dead ==> Locks.HasEnded(locks, sw.todo[0].owner)
    ensures SweepFits(JudgedBy(sw, verdict), db.log, attempts, locks)
  {
    JudgedCovers(sw, db.log, verdict);
    hide Covers;
    var start := sw.todo[0];
    assert start in db.log && start.kind == ExecutionStart && start.proposalRef.Some?;
    var e := Recovery.Recovered(start);
    AppendGapless(sw.work, e);
    if !Recovery.HasTerminal(sw.work, start.proposalRef) && verdict == Locks.Dead {
      forall b | b in attempts && Pending(attempts[b])
        ensures start.proposalRef != Some(attempts[b].started.value.ticket.frozen.id)
      {
        DeadOwnerHasNoPending(db, attempts, locks, start, b);
      }
      RecoveredCounts(sw.work, db.log, attempts, start);
    }
    hide OutcomesOnce, OutcomesStarted, PendingOpen, AttemptsKnow, AttemptsAlive, StartsUnique, Recovery.HasTerminal,
         Append;
  }

  lemma {:induction false} SweepJudgeStep(w: World)
    requires Inv(w) && Enabled(w, SweepJudge)
    ensures Inv(Apply(w, SweepJudge))
  {
    assert StartsUnique(w.db.log) && ProbeOf(w.locks, w.sweep.value.probe.value, w.sweep.value.todo[0].owner) by {
      hide BindingsProven, AttemptsKnow, AttemptsAlive, StartsDistinct, RunsFit, OutcomesOnce, OutcomesStarted,
           PendingOpen, StagingFits, StartOwners, Locks.Inv, ProbeOf, Covers;
    }
    hide DbInv, BindingsProven, AttemptsKnow, AttemptsAlive, StartsDistinct, RunsFit, OutcomesOnce, OutcomesStarted,
         PendingOpen, SweepFits, StagingFits, StartOwners, Locks.Inv, StartsUnique, Recovery.SweepOne, JudgedBy,
         ProbeOf;
    var sw := w.sweep.value;
    var verdict := w.locks.probes[sw.probe.value].phase.verdict;
    if verdict == Locks.Dead {
      VerdictDead(w.locks, sw.probe.value, sw.todo[0].owner);
    }
    JudgedFits(sw, w.db, w.attempts, w.locks, verdict);
  }

  /* ---------- Commit or abort ---------- */

  lemma {:induction false} OutcomesExtendStarts(log: seq<Event>, work: seq<Event>, rows: seq<Proposal>)
    requires StartsFit(log, rows) && log <= work
    requires forall j :: |log| <= j < |work| ==> work[j].kind == ExecutionOutcome
    ensures StartsFit(work, rows)
  {
    forall id ensures HasStart(work, id) <==> HasStart(log, id) {
      if HasStart(log, id) {
        var j :| 0 <= j < |log| && IsStart(log[j], id);
        assert IsStart(work[j], id);
      }
      if HasStart(work, id) {
        var j :| 0 <= j < |work| && IsStart(work[j], id);
        assert IsStart(log[j], id);
      }
    }
    hide HasStart;
  }

  lemma {:induction false} SweptDb(db: Db, sw: Sweep, attempts: map<nat, Attempt>, locks: Locks.Table)
    requires DbInv(db) && BindingsProven(db) && AttemptsKnow(db, attempts) && StartOwners(db.log, locks)
    requires SweepFits(sw, db.log, attempts, locks)
    ensures
      var next := db.(log := sw.work);
      && DbInv(next) && BindingsProven(next) && AttemptsKnow(next, attempts) && StartOwners(next.log, locks)
      && OutcomesOnce(next.log) && OutcomesStarted(next.log, next.log) && PendingOpen(next.log, attempts)
  {
    var next := db.(log := sw.work);
    OutcomesExtendStarts(db.log, sw.work, db.proposals);
    assert DbInv(next) by {
      hide BindingsProven, AttemptsKnow, StartOwners, OutcomesOnce, OutcomesStarted, PendingOpen, ProbeOf, StartsFit,
           ApprovalsFit;
    }
    assert forall id :: HasStart(db.log, id) ==> HasStart(sw.work, id) by {
      forall id | HasStart(db.log, id) ensures HasStart(sw.work, id) {
        var j :| 0 <= j < |db.log| && IsStart(db.log[j], id);
        assert IsStart(sw.work[j], id);
      }
    }
    assert Grows(db, next);
    hide DbInv, BindingsProven, AttemptsKnow, HasStart, PendingOpen, OutcomesOnce, Recovery.CountTerminal,
         Locks.Acquired, ProbeOf, Grows;
    WorldSteps.AttemptsKnowStable(db, next, attempts);
    WorldGate.QuietProven(db, next);
  }

  lemma {:induction false} SweepCommitStep(w: World)
    requires Inv(w) && Enabled(w, SweepCommit)
    ensures Inv(Apply(w, SweepCommit))
  {
    hide DbInv, BindingsProven, AttemptsKnow, AttemptsAlive, StartsDistinct, RunsFit, OutcomesOnce, OutcomesStarted,
         PendingOpen, SweepFits, StagingFits, StartOwners, Locks.Inv;
    SweptDb(w.db, w.sweep.value, w.attempts, w.locks);
  }

  lemma {:induction false} SweepAbortStep(w: World)
    requires Inv(w) && Enabled(w, SweepAbort)
    ensures Inv(Apply(w, SweepAbort))
  {
    hide DbInv, BindingsProven, AttemptsKnow, AttemptsAlive, StartsDistinct, RunsFit, OutcomesOnce, OutcomesStarted,
         PendingOpen, SweepFits, StagingFits, StartOwners, Locks.Inv;
  }

  /* ---------- Staging directories ---------- */

  lemma {:induction false} StartedKnown(db: Db, at: Attempt)
    requires Knows(db, at) && Executing(at.pc)
    ensures at.started.Some?
  {
    hide KnowsStarted;
  }

  lemma {:induction false} StageCreateFits(w: World, a: nat)
    requires StagingFits(w.staging, w.staged, w.candidates, w.attempts, w.locks)
    requires a in w.attempts && w.attempts[a].pc.InExecutor? && w.attempts[a].started.Some?
    requires Locks.Acquired(w.locks, w.attempts[a].call.owner)
    ensures StagingFits(w.staging[a := w.attempts[a].call.owner], w.staged + {a}, w.candidates, w.attempts, w.locks)
  {
    hide ProbeOf, Locks.Acquired;
  }

  lemma {:induction false} StageCreateStep(w: World, a: nat)
    requires Inv(w) && Enabled(w, StageCreate(a))
    ensures Inv(Apply(w, StageCreate(a)))
  {
    hide DbInv, BindingsProven, StartsDistinct, RunsFit, OutcomesOnce, OutcomesStarted, PendingOpen, SweepFits,
         StagingFits, StartOwners, Locks.Inv, Knows;
    assert Knows(w.db, w.attempts[a]);
    StartedKnown(w.db, w.attempts[a]);
    StageCreateFits(w, a);
  }

  lemma {:induction false} StageRemoveFits(w: World, a: nat)
    requires StagingFits(w.staging, w.staged, w.candidates, w.attempts, w.locks)
    ensures StagingFits(w.staging - {a}, w.staged - {a}, w.candidates, w.attempts, w.locks)
  {
    hide ProbeOf, Locks.Acquired;
  }

  lemma {:induction false} StageRemoveStep(w: World, a: nat)
    requires Inv(w) && Enabled(w, StageRemove(a))
    ensures Inv(Apply(w, StageRemove(a)))
  {
    hide DbInv, BindingsProven, AttemptsKnow, AttemptsAlive, StartsDistinct, RunsFit, OutcomesOnce, OutcomesStarted,
         PendingOpen, SweepFits, StagingFits, StartOwners, Locks.Inv;
    StageRemoveFits(w, a);
  }

  lemma {:induction false} CandidateListFits(w: World, k: nat, a: nat)
    requires StagingFits(w.staging, w.staged, w.candidates, w.attempts, w.locks) && a in w.staging
    ensures StagingFits(w.staging, w.staged, w.candidates[k := Candidate(a, w.staging[a], None)], w.attempts, w.locks)
  {
    hide ProbeOf, Locks.Acquired;
  }

  lemma {:induction false} CandidateListStep(w: World, k: nat, a: nat)
    requires Inv(w) && Enabled(w, CandidateList(k, a))
    ensures Inv(Apply(w, CandidateList(k, a)))
  {
    hide DbInv, BindingsProven, AttemptsKnow, AttemptsAlive, StartsDistinct, RunsFit, OutcomesOnce, OutcomesStarted,
         PendingOpen, SweepFits, StagingFits, StartOwners, Locks.Inv;
    CandidateListFits(w, k, a);
  }

  // The directory a sweep removes belongs to no execution that is still running.
  lemma {:induction false} RemovedDirIsIdle(w: World, k: nat)
    requires Inv(w) && k in w.candidates && Verdict(w, w.candidates[k].probe, Locks.Dead)
    ensures
      var dir := w.candidates[k].dir;
      && dir in w.attempts && w.attempts[dir].pc == Done
      && Locks.HasEnded(w.locks, w.attempts[dir].call.owner)
  {
    hide DbInv, BindingsProven, AttemptsKnow, StartsDistinct, RunsFit, OutcomesOnce, OutcomesStarted, PendingOpen,
         SweepFits, StartOwners, Locks.Inv, Locks.Acquired;
    VerdictDead(w.locks, w.candidates[k].probe.value, w.candidates[k].owner);
  }

  lemma {:induction false} CandidateRemoveFits(w: World, k: nat)
    requires StagingFits(w.staging, w.staged, w.candidates, w.attempts, w.locks)
    requires k in w.candidates && w.candidates[k].dir in w.attempts && w.attempts[w.candidates[k].dir].pc == Done
    ensures StagingFits(w.staging - {w.candidates[k].dir}, w.staged, w.candidates - {k}, w.attempts, w.locks)
  {
    hide ProbeOf, Locks.Acquired;
  }

  lemma {:induction false} CandidateRemoveStep(w: World, k: nat)
    requires Inv(w) && Enabled(w, CandidateRemove(k))
    ensures Inv(Apply(w, CandidateRemove(k)))
  {
    hide DbInv, BindingsProven, AttemptsKnow, AttemptsAlive, StartsDistinct, RunsFit, OutcomesOnce, OutcomesStarted,
         PendingOpen, SweepFits, StagingFits, StartOwners, Locks.Inv;
    RemovedDirIsIdle(w, k);
    CandidateRemoveFits(w, k);
  }

  lemma {:induction false} CandidateDropFits(w: World, k: nat)
    requires StagingFits(w.staging, w.staged, w.candidates, w.attempts, w.locks)
    ensures StagingFits(w.staging, w.staged, w.candidates - {k}, w.attempts, w.locks)
  {
    hide ProbeOf, Locks.Acquired;
  }

  lemma {:induction false} CandidateDropStep(w: World, k: nat)
    requires Inv(w) && Enabled(w, CandidateDrop(k))
    ensures Inv(Apply(w, CandidateDrop(k)))
  {
    hide DbInv, BindingsProven, AttemptsKnow, AttemptsAlive, StartsDistinct, RunsFit, OutcomesOnce, OutcomesStarted,
         PendingOpen, SweepFits, StagingFits, StartOwners, Locks.Inv;
    CandidateDropFits(w, k);
  }
}
