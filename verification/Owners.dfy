// A gate process instance as an object: the constructor creates and locks its file, `Close`
// releases it, `Probe` tries the lock of somebody else. Each is a sequence of lock-protocol steps.
module Owners {
  import opened OwnerLocks

  // The owners directory together with the locks the operating system holds on its files.
  class OwnersDir {
    var table: Table

    constructor ()
      ensures table == EMPTY
    {
      table := EMPTY;
    }
  }

  class ExecutionOwner {
    const dir: OwnersDir
    const id: string
    var closed: bool

    // `id` is freshly minted, so no file of that name exists yet.
    constructor (dir: OwnersDir, id: string)
      requires id != "" && id !in dir.table.files
      modifies dir
      ensures this.dir == dir && this.id == id && !closed
      ensures dir.table == Apply(Apply(old(dir.table), Create(id)), Acquire(id))
      ensures IsRunning(dir.table, id)
      ensures Inv(old(dir.table)) ==> Inv(dir.table)
    {
      this.dir := dir;
      this.id := id;
      closed := false;
      new;
      ghost var t := dir.table;
      dir.table := Apply(dir.table, Create(id));
      dir.table := Apply(dir.table, Acquire(id));
      if Inv(t) {
        StepKeepsInv(t, Create(id));
        StepKeepsInv(Apply(t, Create(id)), Acquire(id));
      }
    }

    ghost predicate Valid()
      reads this, dir
    {
      !closed ==> IsRunning(dir.table, id)
    }

    // Closing twice is closing once.
    method Close()
      requires Valid()
      modifies this, dir
      ensures Valid() && closed
      ensures dir.table == if old(closed) then old(dir.table) else Apply(old(dir.table), Release(id))
      ensures !old(closed) ==> HasEnded(dir.table, id)
      ensures Inv(old(dir.table)) ==> Inv(dir.table)
    {
      if closed {
        return;
      }
      ghost var t := dir.table;
      closed := true;
      dir.table := Apply(dir.table, Release(id));
      if Inv(t) {
        StepKeepsInv(t, Release(id));
      }
    }
  }

  // What a probe that nobody interrupts reports.
  function VerdictNow(t: Table, o: string): Verdict {
    if o !in t.files then Indeterminate else if t.files[o].holder == Free then Dead else Alive
  }

  // It says `dead` of no running owner, `alive` of every running one, and never mistakes a
  // missing file for a dead owner.
  lemma {:induction false} VerdictIsSound(t: Table, o: string)
    requires Inv(t)
    ensures VerdictNow(t, o) == Dead ==> !IsRunning(t, o)
    ensures IsRunning(t, o) ==> VerdictNow(t, o) == Alive
    ensures VerdictNow(t, o) == Dead && t.files[o].phase != Created ==> t.files[o].phase in {Ended, Failed}
    ensures HasEnded(t, o) && !t.files[o].holder.ByProbe? ==> VerdictNow(t, o) == Dead
  {
  }

  method Probe(dir: OwnersDir, id: string, p: nat) returns (v: Verdict)
    requires Inv(dir.table) && p !in dir.table.probes
    modifies dir
    ensures v == VerdictNow(old(dir.table), id)
    ensures dir.table == old(dir.table)
    ensures
      var began := Apply(old(dir.table), Begin(p, id));
      exists steps :: Runs(began, steps) && After(began, steps).files == dir.table.files
                      && p in After(began, steps).probes && After(began, steps).probes[p].phase == Done(v)
  {
    ghost var began := Apply(dir.table, Begin(p, id));
    assert Runs(began, []) && After(began, []) == began;
    if id == "" || id !in dir.table.files {
      v := Indeterminate;
      return;
    }
    ghost var tried := Apply(began, TryLock(p));
    assert Runs(tried, []) && After(tried, []) == tried;
    assert [TryLock(p)][1..] == [];
    if dir.table.files[id].holder != Free {
      v := Alive;
      assert Runs(began, [TryLock(p)]) && After(began, [TryLock(p)]) == tried;
      return;
    }
    var file := dir.table.files[id];
    ghost var unlocked := Apply(tried, Unlock(p));
    assert Runs(unlocked, []) && After(unlocked, []) == unlocked;
    assert [Unlock(p)][1..] == [] && [TryLock(p), Unlock(p)][1..] == [Unlock(p)];
    assert Runs(tried, [Unlock(p)]) && After(tried, [Unlock(p)]) == unlocked;
    assert Runs(began, [TryLock(p), Unlock(p)]) && After(began, [TryLock(p), Unlock(p)]) == unlocked;
    // Locked through the second descriptor, then released; the file is as it was.
    dir.table := dir.table.(files := dir.table.files[id := file.(holder := ByProbe(p))]);
    dir.table := dir.table.(files := dir.table.files[id := file.(holder := Free)]);
    v := Dead;
  }
}
