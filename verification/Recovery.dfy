// Crash recovery: every start without a terminal outcome whose owner is proven dead is closed
// as unknown, inside the transaction that looked for the outcome.
module Recovery {
  import opened Wrappers
  import opened Records
  import opened Integrity
  import opened OwnerLocks

  // What the sweep takes for an outcome already recorded: one with a result, for this very
  // reference. A missing reference equals nothing, as in the database.
  predicate IsTerminal(e: Event, ref: Option<string>) {
    e.kind == ExecutionOutcome && ref.Some? && e.proposalRef == ref && e.outcome.Some?
  }

  function CountTerminal(log: seq<Event>, ref: Option<string>): (n: nat) {
    if log == [] then 0
    else CountTerminal(log[..|log| - 1], ref) + if IsTerminal(log[|log| - 1], ref) then 1 else 0
  }

  predicate HasTerminal(log: seq<Event>, ref: Option<string>) {
    CountTerminal(log, ref) > 0
  }

  function StartsOf(log: seq<Event>): (starts: seq<Event>)
    ensures forall e :: e in starts <==> e in log && e.kind == ExecutionStart
  {
    if log == [] then []
    else
      assert log == log[..|log| - 1] + [log[|log| - 1]];
      StartsOf(log[..|log| - 1]) + if log[|log| - 1].kind == ExecutionStart then [log[|log| - 1]] else []
  }

  function Recovered(start: Event): Event {
    OutcomeEvent(start.proposalRef, None, Unknown, "owner-dead")
  }

  // One start, judged by the probe of its owner.
  function SweepOne(log: seq<Event>, start: Event, verdict: Verdict): seq<Event> {
    if !HasTerminal(log, start.proposalRef) && verdict == Dead then Append(log, Recovered(start)) else log
  }

  function SweepStarts(log: seq<Event>, starts: seq<Event>, verdictOf: string -> Verdict): seq<Event>
    decreases |starts|
  {
    if starts == [] then log
    else SweepStarts(SweepOne(log, starts[0], verdictOf(starts[0].owner)), starts[1..], verdictOf)
  }

  // A whole sweep, with the verdict every owner's probe gives.
  function Reconcile(log: seq<Event>, verdictOf: string -> Verdict): seq<Event> {
    SweepStarts(log, StartsOf(log), verdictOf)
  }

  /* ---------- Counting ---------- */

  lemma {:induction false} CountAppend(log: seq<Event>, e: Event, ref: Option<string>)
    ensures CountTerminal(Append(log, e), ref) == CountTerminal(log, ref) + if IsTerminal(e, ref) then 1 else 0
  {
    assert Append(log, e)[..|log|] == log;
  }

  lemma {:induction false} CountZero(log: seq<Event>, ref: Option<string>)
    ensures CountTerminal(log, ref) == 0 <==> forall j :: 0 <= j < |log| ==> !IsTerminal(log[j], ref)
  {
    if log == [] {
    } else {
      CountZero(log[..|log| - 1], ref);
    }
  }

  // A reference has an outcome exactly when an outcome event with a result names it.
  lemma {:induction false} HasTerminalIff(log: seq<Event>, ref: Option<string>)
    ensures HasTerminal(log, ref) <==>
      ref.Some? && exists e :: e in log && e.kind == ExecutionOutcome && e.proposalRef == ref && e.outcome.Some?
  {
    CountZero(log, ref);
    if HasTerminal(log, ref) {
      var j :| 0 <= j < |log| && IsTerminal(log[j], ref);
      assert log[j] in log;
    }
    if e :| e in log && e.kind == ExecutionOutcome && e.proposalRef == ref && e.outcome.Some? {
      var j :| 0 <= j < |log| && log[j] == e;
    }
  }

  // A start that this sweep must close: no outcome yet, and the owner of a start is dead.
  ghost predicate Due(log: seq<Event>, starts: seq<Event>, verdictOf: string -> Verdict, ref: Option<string>) {
    && ref.Some? && !HasTerminal(log, ref)
    && exists k :: 0 <= k < |starts| && starts[k].proposalRef == ref && verdictOf(starts[k].owner) == Dead
  }

  lemma {:induction false} DueStep(log: seq<Event>, starts: seq<Event>, verdictOf: string -> Verdict,
          ref: Option<string>)
    requires starts != []
    ensures
      var next := SweepOne(log, starts[0], verdictOf(starts[0].owner));
      CountTerminal(next, ref) + (if Due(next, starts[1..], verdictOf, ref) then 1 else 0)
      == CountTerminal(log, ref) + (if Due(log, starts, verdictOf, ref) then 1 else 0)
  {
    var first := starts[0];
    var next := SweepOne(log, first, verdictOf(first.owner));
    CountAppend(log, Recovered(first), ref);
    if ref.Some? && !HasTerminal(log, ref) {
      if first.proposalRef == ref && verdictOf(first.owner) == Dead {
        assert Due(log, starts, verdictOf, ref);
      } else {
        assert CountTerminal(next, ref) == 0;
        if Due(log, starts, verdictOf, ref) {
          var k :| 0 <= k < |starts| && starts[k].proposalRef == ref && verdictOf(starts[k].owner) == Dead;
          assert starts[1..][k - 1] == starts[k];
        }
        if Due(next, starts[1..], verdictOf, ref) {
          var k :| 0 <= k < |starts[1..]| && starts[1..][k].proposalRef == ref
              && verdictOf(starts[1..][k].owner) == Dead;
          assert starts[k + 1] == starts[1..][k];
        }
      }
    }
  }

  lemma {:induction false} SweepCounts(log: seq<Event>, starts: seq<Event>, verdictOf: string -> Verdict,
          ref: Option<string>)
    ensures CountTerminal(SweepStarts(log, starts, verdictOf), ref)
            == CountTerminal(log, ref) + if Due(log, starts, verdictOf, ref) then 1 else 0
    decreases |starts|
  {
    if starts == [] {
    } else {
      DueStep(log, starts, verdictOf, ref);
      SweepCounts(SweepOne(log, starts[0], verdictOf(starts[0].owner)), starts[1..], verdictOf, ref);
    }
  }

  lemma {:induction false} SweepExtends(log: seq<Event>, starts: seq<Event>, verdictOf: string -> Verdict)
    requires Gapless(log)
    ensures
      var next := SweepStarts(log, starts, verdictOf);
      && Gapless(next) && log <= next
      && forall j :: |log| <= j < |next| ==>
           next[j].kind == ExecutionOutcome && next[j].outcome == Some(Unknown) && next[j].failureCode == "owner-dead"
    decreases |starts|
  {
    if starts == [] {
    } else {
      AppendGapless(log, Recovered(starts[0]));
      SweepExtends(SweepOne(log, starts[0], verdictOf(starts[0].owner)), starts[1..], verdictOf);
    }
  }

  /* ---------- What one sweep does ---------- */

  // Each unresolved start of a dead owner gets exactly one `unknown`; a proposal whose starts are
  // finished, or belong to live or indeterminate owners, gets nothing; nothing is rewritten.
  lemma {:induction false} SweepClosesExactlyTheDead(log: seq<Event>, verdictOf: string -> Verdict, id: string)
    requires Gapless(log)
    ensures Gapless(Reconcile(log, verdictOf)) && log <= Reconcile(log, verdictOf)
    ensures
      var due := !HasTerminal(log, Some(id))
                 && exists e :: e in log && IsStart(e, id) && verdictOf(e.owner) == Dead;
      CountTerminal(Reconcile(log, verdictOf), Some(id)) == CountTerminal(log, Some(id)) + if due then 1 else 0
    ensures forall j :: |log| <= j < |Reconcile(log, verdictOf)| ==>
              var e := Reconcile(log, verdictOf)[j];
              e.kind == ExecutionOutcome && e.outcome == Some(Unknown) && e.failureCode == "owner-dead"
  {
    var starts := StartsOf(log);
    SweepExtends(log, starts, verdictOf);
    SweepCounts(log, starts, verdictOf, Some(id));
    if Due(log, starts, verdictOf, Some(id)) {
      var k :| 0 <= k < |starts| && starts[k].proposalRef == Some(id) && verdictOf(starts[k].owner) == Dead;
      assert starts[k] in log && IsStart(starts[k], id);
    }
    if e :| e in log && IsStart(e, id) && verdictOf(e.owner) == Dead {
      assert e in starts;
    }
  }

  /* ---------- Sweeping again ---------- */

  // A start that no outcome event can ever be matched with, and whose owner is dead.
  ghost predicate HasOrphan(starts: seq<Event>, verdictOf: string -> Verdict) {
    exists k :: 0 <= k < |starts| && starts[k].proposalRef.None? && verdictOf(starts[k].owner) == Dead
  }

  lemma {:induction false} SweepAddsNothingIff(log: seq<Event>, starts: seq<Event>, verdictOf: string -> Verdict)
    ensures SweepStarts(log, starts, verdictOf) == log <==>
            !HasOrphan(starts, verdictOf) && forall ref :: !Due(log, starts, verdictOf, ref)
    decreases |starts|
  {
    if starts == [] {
    } else {
      var first := starts[0];
      var next := SweepOne(log, first, verdictOf(first.owner));
      if next == log {
        SweepAddsNothingIff(log, starts[1..], verdictOf);
        NothingDueTail(log, starts, verdictOf);
      } else {
        SweepLonger(next, starts[1..], verdictOf);
        assert first.proposalRef.Some? ==> Due(log, starts, verdictOf, first.proposalRef);
        assert first.proposalRef.None? ==> HasOrphan(starts, verdictOf);
      }
    }
  }

  lemma {:induction false} SweepLonger(log: seq<Event>, starts: seq<Event>, verdictOf: string -> Verdict)
    ensures |SweepStarts(log, starts, verdictOf)| >= |log|
    decreases |starts|
  {
    if starts == [] {
    } else {
      SweepLonger(SweepOne(log, starts[0], verdictOf(starts[0].owner)), starts[1..], verdictOf);
    }
  }

  lemma {:induction false} NothingDueTail(log: seq<Event>, starts: seq<Event>, verdictOf: string -> Verdict)
    requires starts != []
    requires HasTerminal(log, starts[0].proposalRef) || verdictOf(starts[0].owner) != Dead
    ensures HasOrphan(starts, verdictOf) <==> HasOrphan(starts[1..], verdictOf)
    ensures forall ref :: Due(log, starts, verdictOf, ref) <==> Due(log, starts[1..], verdictOf, ref)
  {
    CountZero(log, None);
    assert forall k :: 0 < k < |starts| ==> starts[k] == starts[1..][k - 1];
    if k :| 0 <= k < |starts[1..]| && starts[1..][k].proposalRef.None? && verdictOf(starts[1..][k].owner) == Dead {
      assert starts[k + 1].proposalRef.None?;
    }
    forall ref ensures Due(log, starts, verdictOf, ref) <==> Due(log, starts[1..], verdictOf, ref) {
      if Due(log, starts[1..], verdictOf, ref) {
        var k :| 0 <= k < |starts[1..]| && starts[1..][k].proposalRef == ref && verdictOf(starts[1..][k].owner) == Dead;
        assert starts[k + 1].proposalRef == ref;
      }
    }
  }

  lemma {:induction false} StartsOfExtended(log: seq<Event>, more: seq<Event>)
    requires forall k :: 0 <= k < |more| ==> more[k].kind != ExecutionStart
    ensures StartsOf(log + more) == StartsOf(log)
    decreases |more|
  {
    if more == [] {
      assert log + more == log;
    } else {
      StartsOfExtended(log, more[..|more| - 1]);
      assert (log + more)[..|log + more| - 1] == log + more[..|more| - 1];
    }
  }

  lemma {:induction false} OrphansAreInTheLog(log: seq<Event>, verdictOf: string -> Verdict)
    ensures HasOrphan(StartsOf(log), verdictOf) <==>
            exists e :: e in log && e.kind == ExecutionStart && e.proposalRef.None? && verdictOf(e.owner) == Dead
  {
    var starts := StartsOf(log);
    if HasOrphan(starts, verdictOf) {
      var k :| 0 <= k < |starts| && starts[k].proposalRef.None? && verdictOf(starts[k].owner) == Dead;
      assert starts[k] in log;
    }
    if e :| e in log && e.kind == ExecutionStart && e.proposalRef.None? && verdictOf(e.owner) == Dead {
      assert e in starts;
    }
  }

  lemma {:induction false} NothingLeftDue(log: seq<Event>, starts: seq<Event>, verdictOf: string -> Verdict)
    ensures forall ref :: !Due(SweepStarts(log, starts, verdictOf), starts, verdictOf, ref)
  {
    forall ref ensures !Due(SweepStarts(log, starts, verdictOf), starts, verdictOf, ref) {
      SweepCounts(log, starts, verdictOf, ref);
    }
  }

  lemma {:induction false} SweepLeavesStarts(log: seq<Event>, verdictOf: string -> Verdict)
    requires Gapless(log)
    ensures StartsOf(Reconcile(log, verdictOf)) == StartsOf(log)
  {
    SweepExtends(log, StartsOf(log), verdictOf);
    var once := Reconcile(log, verdictOf);
    assert once == log + once[|log|..];
    StartsOfExtended(log, once[|log|..]);
  }

  // Sweeping twice from one state of the locks is sweeping once, exactly when no start of a dead
  // owner lacks its proposal reference: such a start is closed again by every sweep.
  lemma {:induction false} SweepIdempotentIff(log: seq<Event>, verdictOf: string -> Verdict)
    requires Gapless(log)
    ensures Reconcile(Reconcile(log, verdictOf), verdictOf) == Reconcile(log, verdictOf)
            <==> !exists e :: e in log && e.kind == ExecutionStart && e.proposalRef.None? && verdictOf(e.owner) == Dead
  {
    hide SweepStarts, StartsOf, Due, HasOrphan, Gapless;
    SweepLeavesStarts(log, verdictOf);
    SweepAddsNothingIff(Reconcile(log, verdictOf), StartsOf(log), verdictOf);
    NothingLeftDue(log, StartsOf(log), verdictOf);
    OrphansAreInTheLog(log, verdictOf);
  }

  // The gate's starts always carry their proposal, so on any database the protocol reaches a
  // repeated sweep changes nothing.
  lemma {:induction false} SweepIdempotent(log: seq<Event>, verdictOf: string -> Verdict)
    requires Gapless(log) && StartsUnique(log)
    ensures Reconcile(Reconcile(log, verdictOf), verdictOf) == Reconcile(log, verdictOf)
  {
    SweepIdempotentIff(log, verdictOf);
  }

  lemma {:induction false} OrphanSweptAgain()
    ensures
      var orphan := Event(1, ExecutionStart, None, "o", None, None, None, "");
      var once := Reconcile([orphan], _ => Dead);
      Reconcile(once, _ => Dead) != once
  {
    var orphan := Event(1, ExecutionStart, None, "o", None, None, None, "");
    assert Gapless([orphan]);
    assert orphan in [orphan];
    SweepIdempotentIff([orphan], _ => Dead);
  }
}
