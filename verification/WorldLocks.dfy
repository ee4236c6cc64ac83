// Lock operations, process ends and the beginning of attempts keep the system invariant.
module WorldLocks {
  import opened Wrappers
  import opened Domain
  import opened Records
  import opened Integrity
  import opened GateChecks
  import opened GateProtocol
  import opened World
  import Recovery
  import Locks = OwnerLocks
  import Catalog
  import Library

  // What every lock step but the end of a process keeps, seen from the rest of the system; `gone`
  // is the probe that was abandoned, if one was.
  ghost predicate Advance(a: Locks.Table, b: Locks.Table, gone: Option<nat>) {
    && (forall o :: Locks.Acquired(a, o) ==> Locks.Acquired(b, o))
    && (forall p: nat, o :: ProbeOf(a, p, o) && gone != Some(p) ==> ProbeOf(b, p, o))
  }

  function Gone(s: Locks.Step): Option<nat> {
    if s.Abandon? then Some(s.p) else None
  }

  lemma {:induction false} LockAdvances(t: Locks.Table, s: Locks.Step)
    requires Locks.Inv(t) && Locks.Enabled(t, s)
    ensures Locks.Inv(Locks.Apply(t, s)) && Advance(t, Locks.Apply(t, s), Gone(s))
    ensures !s.Release? ==> forall o :: Locks.IsRunning(t, o) ==> Locks.IsRunning(Locks.Apply(t, s), o)
  {
    Locks.StepKeepsInv(t, s);
    hide Locks.Inv;
  }

  lemma {:induction false} StartOwnersAdvance(log: seq<Event>, a: Locks.Table, b: Locks.Table, gone: Option<nat>)
    requires StartOwners(log, a) && Advance(a, b, gone)
    ensures StartOwners(log, b)
  {
    hide Locks.Acquired;
  }

  lemma {:induction false} SweepAdvance(sw: Sweep, log: seq<Event>, attempts: map<nat, Attempt>, a: Locks.Table,
          b: Locks.Table, gone: Option<nat>)
    requires SweepFits(sw, log, attempts, a) && Advance(a, b, gone) && (gone.Some? ==> sw.probe != gone)
    ensures SweepFits(sw, log, attempts, b)
  {
    hide OutcomesOnce, OutcomesStarted, PendingOpen, ProbeOf, Locks.Acquired;
  }

  lemma {:induction false} StagingAdvance(w: World, b: Locks.Table, gone: Option<nat>)
    requires StagingFits(w.staging, w.staged, w.candidates, w.attempts, w.locks)
    requires Advance(w.locks, b, gone) && (gone.Some? ==> !ProbeInUse(w, gone.value))
    ensures StagingFits(w.staging, w.staged, w.candidates, w.attempts, b)
  {
    hide ProbeOf, Locks.Acquired;
  }

  lemma {:induction false} LockStep(w: World, s: Locks.Step)
    requires Inv(w) && Enabled(w, Lock(s))
    ensures Inv(Apply(w, Lock(s)))
  {
    LockAdvances(w.locks, s);
    var next := Locks.Apply(w.locks, s);
    StartOwnersAdvance(w.db.log, w.locks, next, Gone(s));
    if w.sweep.Some? {
      SweepAdvance(w.sweep.value, w.db.log, w.attempts, w.locks, next, Gone(s));
    }
    StagingAdvance(w, next, Gone(s));
    hide Locks.Apply, Locks.Inv, Locks.IsRunning, DbInv, BindingsProven, AttemptsKnow, StartsDistinct, StartOwners,
         RunsFit, OutcomesOnce, OutcomesStarted, PendingOpen, SweepFits, StagingFits, Advance;
  }

  /* ---------- The end of a process ---------- */

  lemma {:induction false} CrashedKnow(db: Db, attempts: map<nat, Attempt>, o: string)
    requires AttemptsKnow(db, attempts)
    ensures AttemptsKnow(db, Crashed(attempts, o))
  {
    forall a | a in attempts ensures Knows(db, Crashed(attempts, o)[a]) {
      assert Knows(db, attempts[a]);
      CrashKnows(db, attempts[a]);
    }
  }

  lemma {:induction false} CrashKnows(db: Db, at: Attempt)
    requires Knows(db, at)
    ensures Knows(db, at.(pc := Done))
  {
    hide KnowsStarted, KnowsTicket, KnowsExamined;
  }

  lemma {:induction false} CrashedAlive(t: Locks.Table, attempts: map<nat, Attempt>, o: string)
    requires AttemptsAlive(t, attempts) && Locks.Enabled(t, Locks.Release(o))
    ensures AttemptsAlive(Locks.Apply(t, Locks.Release(o)), Crashed(attempts, o))
  {
  }

  lemma {:induction false} CrashedRest(runs: seq<Run>, log: seq<Event>, attempts: map<nat, Attempt>, o: string)
    requires StartsDistinct(attempts) && RunsFit(runs, attempts) && PendingOpen(log, attempts)
    ensures
      var next := Crashed(attempts, o);
      StartsDistinct(next) && RunsFit(runs, next) && PendingOpen(log, next)
  {
    forall i | 0 <= i < |runs| ensures RunOf(runs[i], Crashed(attempts, o)) {
      assert RunOf(runs[i], attempts);
    }
  }

  lemma {:induction false} CrashedSweep(sw: Sweep, log: seq<Event>, attempts: map<nat, Attempt>, t: Locks.Table,
          o: string)
    requires SweepFits(sw, log, attempts, t)
    ensures SweepFits(sw, log, Crashed(attempts, o), t)
  {
    hide OutcomesOnce, OutcomesStarted, Recovery.CountTerminal, ProbeOf;
  }

  lemma {:induction false} CrashedStaging(w: World, t: Locks.Table, o: string)
    requires StagingFits(w.staging, w.staged, w.candidates, w.attempts, t)
    ensures StagingFits(w.staging, w.staged, w.candidates, Crashed(w.attempts, o), t)
  {
    hide ProbeOf, Locks.Acquired;
  }

  lemma {:induction false} EndOwnerStep(w: World, o: string)
    requires Inv(w) && Enabled(w, EndOwner(o))
    ensures Inv(Apply(w, EndOwner(o)))
  {
    var s := Locks.Release(o);
    LockAdvances(w.locks, s);
    var next := Locks.Apply(w.locks, s);
    StartOwnersAdvance(w.db.log, w.locks, next, None);
    if w.sweep.Some? {
      SweepAdvance(w.sweep.value, w.db.log, w.attempts, w.locks, next, None);
      CrashedSweep(w.sweep.value, w.db.log, w.attempts, next, o);
    }
    StagingAdvance(w, next, None);
    CrashedStaging(w, next, o);
    CrashedAlive(w.locks, w.attempts, o);
    CrashedKnow(w.db, w.attempts, o);
    CrashedRest(w.runs, w.db.log, w.attempts, o);
    hide Locks.Apply, Locks.Inv, Crashed, DbInv, BindingsProven, AttemptsKnow, AttemptsAlive, StartsDistinct,
         StartOwners, RunsFit, OutcomesOnce, OutcomesStarted, PendingOpen, SweepFits, StagingFits, Advance;
  }

  /* ---------- A new attempt ---------- */

  lemma {:induction false} FreshKnows(db: Db, attempts: map<nat, Attempt>, a: nat, at: Attempt)
    requires AttemptsKnow(db, attempts) && at.pc == AtToken && at.started.None?
    requires Library.Loaded(at.call.config.library)
    requires at.call.config.catalog.Some? ==> Catalog.Loaded(at.call.config.catalog.value)
    ensures AttemptsKnow(db, attempts[a := at])
  {
    assert Knows(db, at);
    hide Knows;
  }

  lemma {:induction false} FreshRest(runs: seq<Run>, log: seq<Event>, t: Locks.Table, attempts: map<nat, Attempt>,
          a: nat, at: Attempt)
    requires AttemptsAlive(t, attempts) && StartsDistinct(attempts) && RunsFit(runs, attempts)
        && PendingOpen(log, attempts)
    requires a !in attempts && at.pc == AtToken && at.started.None? && Locks.IsRunning(t, at.call.owner)
    ensures
      var next := attempts[a := at];
      AttemptsAlive(t, next) && StartsDistinct(next) && RunsFit(runs, next) && PendingOpen(log, next)
  {
    hide Locks.IsRunning, Recovery.CountTerminal;
    forall i | 0 <= i < |runs| ensures RunOf(runs[i], attempts[a := at]) {
      assert RunOf(runs[i], attempts);
    }
  }

  lemma {:induction false} FreshSweep(sw: Sweep, log: seq<Event>, attempts: map<nat, Attempt>, t: Locks.Table, a: nat,
          at: Attempt)
    requires SweepFits(sw, log, attempts, t) && at.pc == AtToken
    ensures SweepFits(sw, log, attempts[a := at], t)
  {
    hide OutcomesOnce, OutcomesStarted, Recovery.CountTerminal, ProbeOf;
  }

  lemma {:induction false} FreshStaging(w: World, a: nat, at: Attempt)
    requires StagingFits(w.staging, w.staged, w.candidates, w.attempts, w.locks)
    requires a !in w.attempts && at.pc == AtToken
    ensures StagingFits(w.staging, w.staged, w.candidates, w.attempts[a := at], w.locks)
  {
    hide ProbeOf, Locks.Acquired;
  }

  lemma {:induction false} BeginAttemptStep(w: World, a: nat, call: Call)
    requires Inv(w) && Enabled(w, BeginAttempt(a, call))
    ensures Inv(Apply(w, BeginAttempt(a, call)))
  {
    var at := Attempt(call, AtToken, None);
    FreshKnows(w.db, w.attempts, a, at);
    FreshRest(w.runs, w.db.log, w.locks, w.attempts, a, at);
    if w.sweep.Some? {
      FreshSweep(w.sweep.value, w.db.log, w.attempts, w.locks, a, at);
    }
    FreshStaging(w, a, at);
    hide DbInv, BindingsProven, Locks.Inv, StartOwners, OutcomesOnce, OutcomesStarted, AttemptsKnow, AttemptsAlive,
         StartsDistinct, RunsFit, PendingOpen, SweepFits, StagingFits;
  }
}
