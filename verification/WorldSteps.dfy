// Every step of every process keeps the system invariant.
module WorldSteps {
  import opened Wrappers
  import opened Domain
  import opened Records
  import opened Integrity
  import opened GateChecks
  import opened GateProtocol
  import opened World
  import GateSteps
  import Transactions
  import Recovery
  import Locks = OwnerLocks
  import Timestamps

  /* ---------- Steps that change only the database, outside any sweep ---------- */

  // The new events neither start an execution nor end one.
  ghost predicate QuietLog(a: seq<Event>, b: seq<Event>) {
    a <= b && forall j :: |a| <= j < |b| ==> OtherEvent(b[j])
  }

  lemma {:induction false} CountQuiet(a: seq<Event>, b: seq<Event>, ref: Option<string>)
    requires QuietLog(a, b)
    ensures Recovery.CountTerminal(b, ref) == Recovery.CountTerminal(a, ref)
    decreases |b|
  {
    if |b| > |a| {
      var init := b[..|b| - 1];
      CountQuiet(a, init, ref);
    } else {
      assert a == b;
    }
  }

  lemma {:induction false} AttemptsKnowStable(a: Db, b: Db, attempts: map<nat, Attempt>)
    requires AttemptsKnow(a, attempts) && Grows(a, b) && DbInv(b)
    ensures AttemptsKnow(b, attempts)
  {
    hide Knows, Grows;
    GateSteps.KeepUniqueness(b);
    hide DbInv;
    forall k | k in attempts ensures Knows(b, attempts[k]) {
      KnowsStable(a, b, attempts[k]);
    }
  }

  lemma {:induction false} QuietOutcomes(a: seq<Event>, b: seq<Event>, attempts: map<nat, Attempt>)
    requires QuietLog(a, b) && OutcomesOnce(a) && OutcomesStarted(a, a) && PendingOpen(a, attempts)
    ensures OutcomesOnce(b) && OutcomesStarted(b, b) && PendingOpen(b, attempts)
  {
    forall id | HasStart(a, id) ensures HasStart(b, id) {
      var j :| 0 <= j < |a| && IsStart(a[j], id);
      assert IsStart(b[j], id);
    }
    forall ref ensures Recovery.CountTerminal(b, ref) == Recovery.CountTerminal(a, ref) {
      CountQuiet(a, b, ref);
    }
  }

  lemma {:induction false} DbStep(w: World, db: Db)
    requires Inv(w) && w.sweep.None?
    requires DbInv(db) && BindingsProven(db) && Grows(w.db, db) && QuietLog(w.db.log, db.log)
    ensures Inv(w.(db := db))
  {
    AttemptsKnowStable(w.db, db, w.attempts);
    QuietOutcomes(w.db.log, db.log, w.attempts);
    hide DbInv, BindingsProven, Grows, AttemptsKnow, AttemptsAlive, StartsDistinct, RunsFit, OutcomesOnce,
         OutcomesStarted, PendingOpen, StagingFits, Locks.Inv, Locks.Acquired;
  }

  /* ---------- Bindings keep their provenance ---------- */

  lemma {:induction false} ProvenGrows(b: BindingRow, rows: seq<Proposal>, next: seq<Proposal>)
    requires Proven(b, rows) && RowsGrow(rows, next)
    ensures Proven(b, next)
  {
    hide Provenance;
    var i :| 0 <= i < |rows| && ProvenBy(b, rows[i]);
    assert RowKept(rows[i], next[i]);
    assert ProvenBy(b, next[i]);
  }

  lemma {:induction false} ProvenStable(a: Db, b: Db)
    requires BindingsProven(a) && Grows(a, b) && a.bindings == b.bindings
    ensures BindingsProven(b)
  {
    hide Proven, RowsGrow, ApprovalsGrow;
    forall k | 0 <= k < |b.bindings| ensures Proven(b.bindings[k], b.proposals) {
      ProvenGrows(a.bindings[k], a.proposals, b.proposals);
    }
  }

  lemma {:induction false} OpenProven(db: Db, m: Minted, invocation: Invocation, t: Option<BindingTemplate>,
          appendOk: bool)
    requires DbInv(db) && BindingsProven(db) && TtlPositive(m) && m.id != ""
    requires OpenProposal(db, m, invocation, t, appendOk).Ok?
    requires t.Some? ==> Provenance(t.value, invocation)
    ensures BindingsProven(OpenProposal(db, m, invocation, t, appendOk).value)
  {
    var next := OpenProposal(db, m, invocation, t, appendOk).value;
    Transactions.OpenKeeps(db, m, invocation, t, appendOk);
    hide DbInv, Provenance, Timestamps.Before, Timestamps.Format, RowsGrow, ApprovalsGrow;
    forall k | 0 <= k < |next.bindings| ensures Proven(next.bindings[k], next.proposals) {
      if k < |db.bindings| {
        ProvenGrows(db.bindings[k], db.proposals, next.proposals);
      } else {
        assert ProvenBy(next.bindings[k], next.proposals[|db.proposals|]);
      }
    }
  }

  lemma {:induction false} ProposeStep(w: World, library: seq<Revision>, catalog: Option<Domain.Catalog>,
          citation: Citation, invocation: Invocation, m: Minted, appendOk: bool)
    requires Inv(w) && Enabled(w, Propose(library, catalog, citation, invocation, m, appendOk))
    ensures Inv(Apply(w, Propose(library, catalog, citation, invocation, m, appendOk)))
  {
    var t := ProposeChecks(library, catalog, citation, invocation).value;
    var r := OpenProposal(w.db, m, invocation, t, appendOk);
    if t.Some? {
      ProposedProvenance(library, catalog, citation, invocation);
    }
    if r.Ok? {
      Transactions.OpenKeeps(w.db, m, invocation, t, appendOk);
      OpenProven(w.db, m, invocation, t, appendOk);
      OpenQuiet(w.db, m, invocation, t, appendOk);
      hide ProposeChecks, OpenProposal, Inv;
      DbStep(w, r.value);
    }
  }

  lemma {:induction false} OpenQuiet(db: Db, m: Minted, invocation: Invocation, t: Option<BindingTemplate>,
          appendOk: bool)
    requires TtlPositive(m) && OpenProposal(db, m, invocation, t, appendOk).Ok?
    ensures QuietLog(db.log, OpenProposal(db, m, invocation, t, appendOk).value.log)
  {
    hide Timestamps.Before, Timestamps.Format;
  }

  /* ---------- Approvals and other appends ---------- */

  // A transaction that changes approvals alone.
  lemma {:induction false} ApprovalsStep(w: World, db: Db)
    requires Inv(w) && w.sweep.None?
    requires DbInv(db) && Grows(w.db, db) && db == w.db.(approvals := db.approvals)
    ensures Inv(w.(db := db))
  {
    InvDb(w);
    hide Inv, DbInv, BindingsProven, Grows;
    ProvenStable(w.db, db);
    assert QuietLog(w.db.log, db.log);
    DbStep(w, db);
  }

  lemma {:induction false} ApproveApplied(w: World, td: TokenDigest, id: string, approvalId: string, operator: string)
    requires w.sweep.None?
    ensures Apply(w, Approve(td, approvalId, operator))
        == w.(db := Committed(w.db, RecordApproval(w.db, td, approvalId, operator, w.clock)))
    ensures Apply(w, ApproveById(id, approvalId, operator))
            == w.(db := Committed(w.db, RecordApprovalById(w.db, id, approvalId, operator, w.clock)))
  {
    hide RecordApproval, RecordApprovalById, Committed;
  }

  lemma {:induction false} ApproveStep(w: World, td: TokenDigest, approvalId: string, operator: string)
    requires Inv(w) && w.sweep.None?
    ensures Inv(Apply(w, Approve(td, approvalId, operator)))
  {
    var r := RecordApproval(w.db, td, approvalId, operator, w.clock);
    hide RecordApproval, RecordApprovalById, Inv, DbInv, BindingsProven, Grows, Apply;
    InvDb(w);
    ApproveApplied(w, td, "", approvalId, operator);
    if r.Ok? {
      RecordApprovalsOnly(w.db, td, approvalId, operator, w.clock);
      Transactions.RecordKeeps(w.db, td, approvalId, operator, w.clock);
      ApprovalsStep(w, r.value);
    } else {
      assert w.(db := w.db) == w;
    }
  }

  lemma {:induction false} RecordApprovalsOnly(db: Db, td: TokenDigest, approvalId: string, operator: string,
          now: Timestamps.Utc)
    requires RecordApproval(db, td, approvalId, operator, now).Ok?
    ensures
      var next := RecordApproval(db, td, approvalId, operator, now).value;
      next == db.(approvals := next.approvals)
  {
    hide Resolve, FetchBinding, FetchApproval;
  }

  lemma {:induction false} ByIdApprovalsOnly(db: Db, id: string, approvalId: string, operator: string,
          now: Timestamps.Utc)
    requires RecordApprovalById(db, id, approvalId, operator, now).Ok?
    ensures
      var next := RecordApprovalById(db, id, approvalId, operator, now).value;
      next == db.(approvals := next.approvals)
  {
    hide FetchById, FetchBinding, FetchApproval;
  }

  lemma {:induction false} InvDb(w: World)
    requires Inv(w)
    ensures DbInv(w.db) && BindingsProven(w.db)
  {
  }

  lemma {:induction false} ApproveByIdStep(w: World, id: string, approvalId: string, operator: string)
    requires Inv(w) && w.sweep.None?
    ensures Inv(Apply(w, ApproveById(id, approvalId, operator)))
  {
    var r := RecordApprovalById(w.db, id, approvalId, operator, w.clock);
    hide RecordApproval, RecordApprovalById, Inv, DbInv, BindingsProven, Grows, Apply;
    InvDb(w);
    ApproveApplied(w, Hmac(""), id, approvalId, operator);
    if r.Ok? {
      ByIdApprovalsOnly(w.db, id, approvalId, operator, w.clock);
      Transactions.RecordByIdKeeps(w.db, id, approvalId, operator, w.clock);
      ApprovalsStep(w, r.value);
    } else {
      assert w.(db := w.db) == w;
    }
  }

  lemma {:induction false} AppendAllKeeps(db: Db, es: seq<Event>)
    requires DbInv(db) && forall k :: 0 <= k < |es| ==> OtherEvent(es[k])
    ensures
      var next := db.(log := AppendAll(db.log, es));
      DbInv(next) && Grows(db, next) && QuietLog(db.log, next.log)
    decreases |es|
  {
    AppendAllGapless(db.log, es);
    if es == [] {
      GrowsReflexive(db);
    } else {
      Transactions.AppendKeeps(db, es[0]);
      var mid := Transactions.WithEvent(db, es[0]);
      hide DbInv;
      AppendAllKeeps(mid, es[1..]);
      GrowsTransitive(db, mid, db.(log := AppendAll(db.log, es)));
      hide Grows;
    }
  }

  lemma {:induction false} AppendOtherStep(w: World, es: seq<Event>)
    requires Inv(w) && Enabled(w, AppendOther(es))
    ensures Inv(Apply(w, AppendOther(es)))
  {
    var db := w.db.(log := AppendAll(w.db.log, es));
    InvDb(w);
    AppendAllKeeps(w.db, es);
    hide Inv, AppendAll;
    ProvenStable(w.db, db);
    DbStep(w, db);
  }
}
