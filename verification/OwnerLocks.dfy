// Execution owners and liveness probes as a protocol over lock files. Creating the file,
// locking it, probing it and ending the process are separate steps of separate processes.
module OwnerLocks {
  import opened Wrappers

  datatype Phase =
    | Created   // the lock file exists, the constructor has not locked it yet
    | Running   // the constructor returned; the process lives and holds the lock
    | Ended     // the process closed the owner or died; the file stays behind
    | Failed    // the constructor found the lock taken and raised

  datatype Holder = Free | ByOwner | ByProbe(probe: nat)

  datatype LockFile = LockFile(phase: Phase, holder: Holder)

  datatype Verdict = Alive | Dead | Indeterminate

  datatype ProbePhase = Opened | Holding | Done(verdict: Verdict)

  // `afterAcquire`: the owner's constructor had already locked the file when the probe began.
  datatype Probe = Probe(owner: string, phase: ProbePhase, afterAcquire: bool)

  datatype Table = Table(files: map<string, LockFile>, probes: map<nat, Probe>)

  datatype Step =
    | Create(o: string)
    | Acquire(o: string)
    | Release(o: string)
    | Begin(p: nat, o: string)
    | OpenFails(p: nat)
    | TryLock(p: nat)
    | Unlock(p: nat)
    | Abandon(p: nat)

  predicate Enabled(t: Table, s: Step) {
    match s
    case Create(o) => o != "" && o !in t.files
    case Acquire(o) => o in t.files && t.files[o].phase == Created
    case Release(o) => o in t.files && t.files[o].phase == Running
    case Begin(p, o) => p !in t.probes
    case OpenFails(p) => p in t.probes && t.probes[p].phase == Opened
    case TryLock(p) => p in t.probes && t.probes[p].phase == Opened && t.probes[p].owner in t.files
    case Unlock(p) => p in t.probes && t.probes[p].phase == Holding && t.probes[p].owner in t.files
    case Abandon(p) => p in t.probes && (t.probes[p].phase == Holding ==> t.probes[p].owner in t.files)
  }

  predicate Acquired(t: Table, o: string) {
    o in t.files && t.files[o].phase in {Running, Ended}
  }

  predicate IsRunning(t: Table, o: string) {
    o in t.files && t.files[o].phase == Running
  }

  predicate HasEnded(t: Table, o: string) {
    o in t.files && t.files[o].phase == Ended
  }

  function FreeFile(t: Table, o: string): Table
    requires o in t.files
  {
    t.(files := t.files[o := t.files[o].(holder := Free)])
  }

  function WithProbe(t: Table, p: nat, phase: ProbePhase): Table
    requires p in t.probes
  {
    t.(probes := t.probes[p := t.probes[p].(phase := phase)])
  }

  function Apply(t: Table, s: Step): Table
    requires Enabled(t, s)
  {
    match s
    case Create(o) => t.(files := t.files[o := LockFile(Created, Free)])
    case Acquire(o) =>
      var next := if t.files[o].holder == Free then LockFile(Running, ByOwner) else t.files[o].(phase := Failed);
      t.(files := t.files[o := next])
    case Release(o) => t.(files := t.files[o := LockFile(Ended, Free)])
    case Begin(p, o) =>
      var phase := if o in t.files then Opened else Done(Indeterminate);
      t.(probes := t.probes[p := Probe(o, phase, Acquired(t, o))])
    case OpenFails(p) => WithProbe(t, p, Done(Indeterminate))
    case TryLock(p) =>
      var o := t.probes[p].owner;
      if t.files[o].holder != Free then WithProbe(t, p, Done(Alive))
      else WithProbe(t.(files := t.files[o := t.files[o].(holder := ByProbe(p))]), p, Holding)
    case Unlock(p) => WithProbe(FreeFile(t, t.probes[p].owner), p, Done(Dead))
    case Abandon(p) =>
      var freed := if t.probes[p].phase == Holding then FreeFile(t, t.probes[p].owner) else t;
      freed.(probes := freed.probes - {p})
  }

  /* ---------- The invariant ---------- */

  ghost predicate FilesInv(t: Table) {
    "" !in t.files && forall o :: o in t.files ==>
      && (t.files[o].holder == ByOwner <==> t.files[o].phase == Running)
      && (t.files[o].holder.ByProbe? ==>
            var p := t.files[o].holder.probe;
            p in t.probes && t.probes[p].owner == o && t.probes[p].phase == Holding)
  }

  ghost predicate ProbeInv(t: Table, p: nat)
    requires p in t.probes
  {
    var pr := t.probes[p];
    && (pr.phase in {Opened, Holding} ==> pr.owner in t.files)
    && (pr.phase == Holding ==> t.files[pr.owner].holder == ByProbe(p))
    && (pr.afterAcquire ==> Acquired(t, pr.owner))
    && (pr.afterAcquire && pr.phase in {Holding, Done(Dead)} ==> HasEnded(t, pr.owner))
  }

  ghost predicate Inv(t: Table) {
    FilesInv(t) && forall p :: p in t.probes ==> ProbeInv(t, p)
  }

  const EMPTY: Table := Table(map[], map[])

  lemma {:induction false} StepKeepsInv(t: Table, s: Step)
    requires Inv(t) && Enabled(t, s)
    ensures Inv(Apply(t, s))
  {
    forall p | p in Apply(t, s).probes ensures ProbeInv(Apply(t, s), p) {
      assert p in t.probes ==> ProbeInv(t, p);
      assert s.Unlock? || s.TryLock? ==> ProbeInv(t, s.p);
    }
    assert s.Unlock? || s.TryLock? || s.Abandon? ==> ProbeInv(t, s.p);
  }

  // A process that ended never comes back.
  lemma {:induction false} StepKeepsEnded(t: Table, s: Step, o: string)
    requires Inv(t) && Enabled(t, s)
    ensures HasEnded(t, o) ==> HasEnded(Apply(t, s), o)
  {
  }

  // A probe that began after the owner locked its file says `dead` only of an ended owner.
  lemma {:induction false} DeadMeansEnded(t: Table, p: nat)
    requires Inv(t) && p in t.probes
    requires t.probes[p].afterAcquire && t.probes[p].phase == Done(Dead)
    ensures HasEnded(t, t.probes[p].owner)
  {
    assert ProbeInv(t, p);
  }

  /* ---------- Runs, and exactly when `dead` can be trusted ---------- */

  predicate Runs(t: Table, steps: seq<Step>)
    decreases |steps|
  {
    steps == [] || (Enabled(t, steps[0]) && Runs(Apply(t, steps[0]), steps[1..]))
  }

  function After(t: Table, steps: seq<Step>): Table
    requires Runs(t, steps)
    decreases |steps|
  {
    if steps == [] then t else After(Apply(t, steps[0]), steps[1..])
  }

  predicate SaysDead(t: Table, p: nat, o: string) {
    p in t.probes && t.probes[p].owner == o && t.probes[p].phase == Done(Dead)
  }

  // Such a verdict is final: no continuation brings the owner back.
  lemma {:induction false} DeadIsFinal(t: Table, steps: seq<Step>, p: nat)
    requires Inv(t) && Runs(t, steps) && p in t.probes
    requires t.probes[p].afterAcquire && t.probes[p].phase == Done(Dead)
    ensures HasEnded(After(t, steps), t.probes[p].owner) && !IsRunning(After(t, steps), t.probes[p].owner)
  {
    DeadMeansEnded(t, p);
    EndedStays(t, steps, t.probes[p].owner);
  }

  lemma {:induction false} EndedStays(t: Table, steps: seq<Step>, o: string)
    requires Inv(t) && Runs(t, steps) && HasEnded(t, o)
    ensures HasEnded(After(t, steps), o)
    decreases |steps|
  {
    hide Apply, Enabled;
    if steps == [] {
    } else {
      StepKeepsInv(t, steps[0]);
      StepKeepsEnded(t, steps[0], o);
      EndedStays(Apply(t, steps[0]), steps[1..], o);
    }
  }

  // Every probe of `o` in `t` began after `o` had locked its file, or `o` never will.
  ghost predicate Trusted(t: Table, p: nat, o: string) {
    && o in t.files && t.files[o].phase != Created
    && (p in t.probes && t.probes[p].owner == o && t.files[o].phase != Failed ==> t.probes[p].afterAcquire)
  }

  lemma {:induction false} TrustedRuns(t: Table, steps: seq<Step>, p: nat, o: string)
    requires Inv(t) && Runs(t, steps) && Trusted(t, p, o)
    ensures SaysDead(After(t, steps), p, o) ==> !IsRunning(After(t, steps), o)
    decreases |steps|
  {
    if steps == [] {
      if SaysDead(t, p, o) && t.files[o].phase != Failed {
        DeadMeansEnded(t, p);
      }
    } else {
      StepKeepsInv(t, steps[0]);
      TrustedRuns(Apply(t, steps[0]), steps[1..], p, o);
    }
  }

  // A probe launched while the constructor is between creating and locking its file.
  function EarlyProbe(t: Table, p: nat, o: string): (steps: seq<Step>)
    requires o in t.files
  {
    var clear := if t.files[o].holder.ByProbe? then [Unlock(t.files[o].holder.probe)] else [];
    clear + [TryLock(p), Unlock(p), Acquire(o)]
  }

  lemma {:induction false} EarlyProbeMisleads(t: Table, p: nat, o: string)
    requires Inv(t) && o in t.files && t.files[o].phase == Created && p !in t.probes
    ensures
      var began := Apply(t, Begin(p, o));
      && Runs(began, EarlyProbe(began, p, o))
      && SaysDead(After(began, EarlyProbe(began, p, o)), p, o)
      && IsRunning(After(began, EarlyProbe(began, p, o)), o)
  {
    var began := Apply(t, Begin(p, o));
    var steps := EarlyProbe(began, p, o);
    var clear := if began.files[o].holder.ByProbe? then Apply(began, Unlock(began.files[o].holder.probe)) else began;
    var a := Apply(clear, TryLock(p));
    var b := Apply(a, Unlock(p));
    var c := Apply(b, Acquire(o));
    EarlyTail(clear, p, o);
    if began.files[o].holder.ByProbe? {
      assert steps[0] == Unlock(began.files[o].holder.probe);
      assert steps[1..] == [TryLock(p), Unlock(p), Acquire(o)];
    } else {
      assert steps == [TryLock(p), Unlock(p), Acquire(o)];
    }
  }

  lemma {:induction false} EarlyTail(t: Table, p: nat, o: string)
    requires o in t.files && t.files[o] == LockFile(Created, Free)
    requires p in t.probes && t.probes[p].owner == o && t.probes[p].phase == Opened
    ensures
      var tail := [TryLock(p), Unlock(p), Acquire(o)];
      Runs(t, tail) && SaysDead(After(t, tail), p, o) && IsRunning(After(t, tail), o)
  {
    var a := Apply(t, TryLock(p));
    var b := Apply(a, Unlock(p));
    var c := Apply(b, Acquire(o));
    assert [TryLock(p), Unlock(p), Acquire(o)][1..] == [Unlock(p), Acquire(o)];
    assert [Unlock(p), Acquire(o)][1..] == [Acquire(o)];
    assert [Acquire(o)][1..] == [];
    assert Runs(c, []) && After(c, []) == c;
    assert Runs(b, [Acquire(o)]) && After(b, [Acquire(o)]) == c;
    assert Runs(a, [Unlock(p), Acquire(o)]) && After(a, [Unlock(p), Acquire(o)]) == c;
  }

  // A continuation in which the verdict is `dead` and yet the owner runs.
  predicate Misled(t: Table, steps: seq<Step>, p: nat, o: string) {
    Runs(t, steps) && SaysDead(After(t, steps), p, o) && IsRunning(After(t, steps), o)
  }

  // `dead` from a probe launched now can be trusted in every continuation exactly when the
  // owner's constructor is not between creating and locking its file.
  lemma {:induction false} DeadTrustedIff(t: Table, p: nat, o: string)
    requires Inv(t) && o in t.files && p !in t.probes
    ensures t.files[o].phase != Created <==> forall steps :: !Misled(Apply(t, Begin(p, o)), steps, p, o)
  {
    var began := Apply(t, Begin(p, o));
    StepKeepsInv(t, Begin(p, o));
    if t.files[o].phase != Created {
      forall steps ensures !Misled(began, steps, p, o) {
        if Runs(began, steps) {
          TrustedRuns(began, steps, p, o);
        }
      }
    } else {
      EarlyProbeMisleads(t, p, o);
      assert Misled(began, EarlyProbe(began, p, o), p, o);
    }
  }
}
