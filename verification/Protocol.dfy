// The safety of the one-time execution protocol, over every run of the whole system: any number
// of gates, approval recordings, sweeps, clock ticks, failed appends and crashes, in any order.
module Protocol {
  import opened Wrappers
  import opened Domain
  import opened Records
  import opened Integrity
  import opened GateChecks
  import opened GateProtocol
  import opened World
  import GateSteps
  import WorldSteps
  import WorldLocks
  import WorldDispatch
  import WorldSweep
  import Transactions
  import Catalog
  import Library
  import Recovery
  import Locks = OwnerLocks
  import Timestamps

  /* ---------- The invariant is inductive ---------- */

  lemma {:induction false} InitialInv(clock: Timestamps.Utc)
    ensures Inv(Initial(clock))
  {
    hide Knows, RunOf, Proven, RowSane, BindingSane, ApprovalFits, Disposed, ProbeOf, Pending, Locks.ProbeInv,
         Recovery.HasTerminal;
  }

  lemma {:induction false} StepKeepsInv(w: World, s: Step)
    requires Inv(w) && Enabled(w, s)
    ensures Inv(Apply(w, s))
  {
    hide Inv, Apply;
    match s {
      case Tick(later) => WorldSweep.TickStep(w, later);
      case Propose(library, catalog, citation, invocation, m, ok) =>
        WorldSteps.ProposeStep(w, library, catalog, citation, invocation, m, ok);
      case Approve(td, approvalId, operator) => WorldSteps.ApproveStep(w, td, approvalId, operator);
      case ApproveById(id, approvalId, operator) => WorldSteps.ApproveByIdStep(w, id, approvalId, operator);
      case AppendOther(events) => WorldSteps.AppendOtherStep(w, events);
      case Lock(step) => WorldLocks.LockStep(w, step);
      case EndOwner(owner) => WorldLocks.EndOwnerStep(w, owner);
      case BeginAttempt(a, call) => WorldLocks.BeginAttemptStep(w, a, call);
      case Gate(a, action) => WorldDispatch.GateStep(w, a, action);
      case SweepBegin => WorldSweep.SweepBeginStep(w);
      case SweepSkip => WorldSweep.SweepSkipStep(w);
      case SweepProbe(p) => WorldSweep.SweepProbeStep(w, p);
      case SweepJudge => WorldSweep.SweepJudgeStep(w);
      case SweepCommit => WorldSweep.SweepCommitStep(w);
      case SweepAbort => WorldSweep.SweepAbortStep(w);
      case StageCreate(a) => WorldSweep.StageCreateStep(w, a);
      case StageRemove(a) => WorldSweep.StageRemoveStep(w, a);
      case CandidateList(k, a) => WorldSweep.CandidateListStep(w, k, a);
      case CandidateProbe(k, p) => WorldSweep.CandidateProbeStep(w, k, p);
      case CandidateRemove(k) => WorldSweep.CandidateRemoveStep(w, k);
      case CandidateDrop(k) => WorldSweep.CandidateDropStep(w, k);
    }
  }

  /* ---------- The database only grows ---------- */

  lemma {:induction false} GateGrows(w: World, a: nat, action: Action)
    requires Inv(w) && Enabled(w, Gate(a, action))
    ensures Grows(w.db, Apply(w, Gate(a, action)).db)
  {
    assert DbInv(w.db) && Knows(w.db, w.attempts[a]);
    hide DbInv, Knows, Move, Grows, Inv;
    GateSteps.MoveKeeps(w.db, w.clock, w.attempts[a], action);
  }

  lemma {:induction false} SweepGrows(w: World)
    requires Inv(w) && Enabled(w, SweepCommit)
    ensures Grows(w.db, Apply(w, SweepCommit).db)
  {
    hide DbInv, BindingsProven, AttemptsKnow, AttemptsAlive, StartsDistinct, RunsFit, OutcomesOnce, OutcomesStarted,
         PendingOpen, StagingFits, StartOwners, Locks.Inv;
  }

  lemma {:induction false} OpenGrows(db: Db, m: Minted, invocation: Invocation, t: Option<BindingTemplate>, ok: bool)
    requires DbInv(db) && TtlPositive(m) && m.id != ""
    ensures Grows(db, Committed(db, OpenProposal(db, m, invocation, t, ok)))
  {
    hide DbInv, Grows;
    GrowsReflexive(db);
    if OpenProposal(db, m, invocation, t, ok).Ok? {
      Transactions.OpenKeeps(db, m, invocation, t, ok);
    }
    hide OpenProposal;
  }

  lemma {:induction false} ApproveGrows(db: Db, td: TokenDigest, approvalId: string, operator: string,
          now: Timestamps.Utc)
    requires DbInv(db)
    ensures Grows(db, Committed(db, RecordApproval(db, td, approvalId, operator, now)))
  {
    hide DbInv, Grows, RecordApproval;
    GrowsReflexive(db);
    if RecordApproval(db, td, approvalId, operator, now).Ok? {
      Transactions.RecordKeeps(db, td, approvalId, operator, now);
    }
  }

  lemma {:induction false} ApproveByIdGrows(db: Db, id: string, approvalId: string, operator: string,
          now: Timestamps.Utc)
    requires DbInv(db)
    ensures Grows(db, Committed(db, RecordApprovalById(db, id, approvalId, operator, now)))
  {
    hide DbInv, Grows, RecordApprovalById;
    GrowsReflexive(db);
    if RecordApprovalById(db, id, approvalId, operator, now).Ok? {
      Transactions.RecordByIdKeeps(db, id, approvalId, operator, now);
    }
  }

  lemma {:induction false} ProposeGrows(w: World, s: Step)
    requires DbInv(w.db) && s.Propose? && Enabled(w, s)
    ensures Grows(w.db, Apply(w, s).db)
  {
    hide DbInv, Grows, ProposeChecks, OpenProposal, Committed;
    OpenGrows(w.db, s.minted, s.invocation, ProposeChecks(s.library, s.catalog, s.citation, s.invocation).value,
        s.appendOk);
  }

  lemma {:induction false} AppendGrows(w: World, events: seq<Event>)
    requires DbInv(w.db) && Enabled(w, AppendOther(events))
    ensures Grows(w.db, Apply(w, AppendOther(events)).db)
  {
    hide DbInv, Grows, AppendAll;
    WorldSteps.AppendAllKeeps(w.db, events);
  }

  lemma {:induction false} ApprovalGrows(w: World, s: Step)
    requires DbInv(w.db) && Enabled(w, s) && (s.Approve? || s.ApproveById?)
    ensures Grows(w.db, Apply(w, s).db)
  {
    hide DbInv, Grows, RecordApproval, RecordApprovalById, Committed;
    if s.Approve? {
      ApproveGrows(w.db, s.td, s.approvalId, s.operator, w.clock);
    } else {
      ApproveByIdGrows(w.db, s.id, s.approvalId, s.operator, w.clock);
    }
  }

  predicate Transacts(s: Step) {
    s.Propose? || s.Approve? || s.ApproveById? || s.AppendOther? || s.Gate? || s.SweepCommit?
  }

  lemma {:induction false} OthersLeaveTheDatabase(w: World, s: Step)
    requires Enabled(w, s) && !Transacts(s)
    ensures Apply(w, s).db == w.db
  {
    hide Locks.Apply, Locks.Enabled, Recovery.StartsOf, Crashed, ProposeChecks, Committed;
  }

  lemma {:induction false} StepGrows(w: World, s: Step)
    requires Inv(w) && Enabled(w, s)
    ensures Grows(w.db, Apply(w, s).db)
  {
    hide DbInv, Inv, Grows, Enabled, Apply, BindingsProven;
    WorldSteps.InvDb(w);
    GrowsReflexive(w.db);
    match s {
      case Propose(_, _, _, _, _, _) => ProposeGrows(w, s);
      case Approve(_, _, _) => ApprovalGrows(w, s);
      case ApproveById(_, _, _) => ApprovalGrows(w, s);
      case AppendOther(events) => AppendGrows(w, events);
      case Gate(a, action) => GateGrows(w, a, action);
      case SweepCommit => SweepGrows(w);
      case _ => OthersLeaveTheDatabase(w, s);
    }
  }

  /* ---------- Runs ---------- */

  lemma {:induction false} RunStep(tr: seq<World>, k: nat) returns (s: Step)
    requires IsRun(tr) && k + 1 < |tr|
    ensures Enabled(tr[k], s) && tr[k + 1] == Apply(tr[k], s)
  {
    assert StepAt(tr, k);
    s :| Enabled(tr[k], s) && tr[k + 1] == Apply(tr[k], s);
  }

  lemma {:induction false} RunInv(tr: seq<World>, k: nat)
    requires IsRun(tr) && k < |tr|
    ensures Inv(tr[k])
    decreases k
  {
    if k == 0 {
      InitialInv(tr[0].clock);
    } else {
      hide Inv, Enabled, Apply, IsRun;
      RunInv(tr, k - 1);
      var s := RunStep(tr, k - 1);
      StepKeepsInv(tr[k - 1], s);
    }
  }

  lemma {:induction false} GrowsLog(a: Db, b: Db)
    requires Grows(a, b)
    ensures a.log <= b.log
  {
  }

  // Committed rows, approvals, bindings and events are never rewritten by anything later: the
  // audit log of an earlier state is a prefix of the log of every later one.
  lemma {:induction false} RunGrows(tr: seq<World>, i: nat, k: nat)
    requires IsRun(tr) && i <= k < |tr|
    ensures Grows(tr[i].db, tr[k].db) && tr[i].db.log <= tr[k].db.log
    decreases k
  {
    hide Grows, Enabled, Inv, Apply, IsRun;
    if i == k {
      GrowsReflexive(tr[i].db);
    } else {
      RunGrows(tr, i, k - 1);
      RunInv(tr, k - 1);
      var s := RunStep(tr, k - 1);
      StepGrows(tr[k - 1], s);
      GrowsTransitive(tr[i].db, tr[k - 1].db, tr[k].db);
      GrowsLog(tr[i].db, tr[k].db);
    }
  }

  /* ---------- Starts, runs of the executor, outcomes ---------- */

  // One start at most per proposal, one exactly when it is consumed; the executor runs at most
  // once per proposal, only for a committed start, and only on the bytes that start recorded.
  ghost predicate OneExecution(w: World) {
    && StartsUnique(w.db.log)
    && (forall i :: 0 <= i < |w.db.proposals| ==>
          (w.db.proposals[i].state == Consumed <==> HasStart(w.db.log, w.db.proposals[i].id)))
    && (forall i, j :: 0 <= i < j < |w.runs| ==> w.runs[i].proposalId != w.runs[j].proposalId)
    && (forall i :: 0 <= i < |w.runs| ==> RunStarted(w, w.runs[i]))
  }

  ghost predicate RunStarted(w: World, r: Run) {
    && 1 <= r.sequence <= |w.db.log|
    && IsStart(w.db.log[r.sequence - 1], r.proposalId)
    && w.db.log[r.sequence - 1].script == Some(ScriptSha(r.script))
  }

  lemma {:induction false} StartOfKnown(db: Db, at: Attempt)
    requires Knows(db, at) && at.started.Some?
    ensures
      var s := at.started.value;
      && 1 <= s.sequence <= |db.log|
      && IsStart(db.log[s.sequence - 1], s.ticket.frozen.id)
      && db.log[s.sequence - 1].script == Some(ScriptSha(s.ticket.x.script))
  {
    hide KnowsTicket;
  }

  lemma {:induction false} RunsStarted(w: World)
    requires AttemptsKnow(w.db, w.attempts) && RunsFit(w.runs, w.attempts) && StartsDistinct(w.attempts)
        && StartsUnique(w.db.log)
    ensures forall i :: 0 <= i < |w.runs| ==> RunStarted(w, w.runs[i])
    ensures forall i, j :: 0 <= i < j < |w.runs| ==> w.runs[i].proposalId != w.runs[j].proposalId
  {
    hide Knows, StartsUnique;
    forall i | 0 <= i < |w.runs| ensures RunStarted(w, w.runs[i]) {
      assert RunOf(w.runs[i], w.attempts) && Knows(w.db, w.attempts[w.runs[i].attempt]);
      StartOfKnown(w.db, w.attempts[w.runs[i].attempt]);
    }
    hide AttemptsKnow, RunStarted, StartsUnique;
    forall i, j | 0 <= i < j < |w.runs| ensures w.runs[i].proposalId != w.runs[j].proposalId {
      assert RunOf(w.runs[i], w.attempts) && RunOf(w.runs[j], w.attempts);
      DifferentStarts(w, w.runs[i], w.runs[j]);
    }
  }

  lemma {:induction false} DifferentStarts(w: World, r: Run, q: Run)
    requires StartsUnique(w.db.log) && RunStarted(w, r) && RunStarted(w, q) && r.sequence != q.sequence
    ensures r.proposalId != q.proposalId
  {
  }

  lemma {:induction false} InvOneExecution(w: World)
    requires Inv(w)
    ensures OneExecution(w) && OutcomesOnce(w.db.log)
  {
    hide BindingsProven, AttemptsAlive, OutcomesOnce, OutcomesStarted, PendingOpen, StagingFits, StartOwners,
         Locks.Inv, SweepFits, StartsUnique, Unique, RowsSane, UniqueBindings, BindingsSane, UniqueApprovals,
         ApprovalsFit, Gapless, AttemptsKnow, RunsFit, StartsDistinct, HasStart, RunStarted;
    RunsStarted(w);
  }

  // The executor is called by an attempt whose own start record is already in the shared log.
  lemma {:induction false} StartedBeforeRun(w: World, a: nat)
    requires Inv(w) && Enabled(w, Gate(a, CallExecutor))
    ensures a in w.attempts
    ensures
      var runs := RunsAfter(w.runs, a, w.attempts[a], CallExecutor);
      && |runs| == |w.runs| + 1 && runs[|w.runs|].attempt == a
      && RunStarted(w, runs[|w.runs|])
      && w.db.log[runs[|w.runs|].sequence - 1].owner == w.attempts[a].call.owner
  {
    hide Inv, Knows;
    AttemptKnown(w, a);
    WorldSweep.StartedKnown(w.db, w.attempts[a]);
    StartOfKnown(w.db, w.attempts[a]);
    WorldSweep.OwnerKnown(w.db, w.attempts[a]);
  }

  // Over every run: one start, one execution, one outcome.
  lemma {:induction false} ExecutedAtMostOnce(tr: seq<World>, k: nat, id: string)
    requires IsRun(tr) && k < |tr|
    ensures OneExecution(tr[k]) && Recovery.CountTerminal(tr[k].db.log, Some(id)) <= 1
    ensures Gapless(tr[k].db.log)
  {
    RunInv(tr, k);
    InvOneExecution(tr[k]);
    WorldSteps.InvDb(tr[k]);
    assert Gapless(tr[k].db.log) by {
      hide Inv, IsRun, OneExecution;
    }
    hide Inv, IsRun, OneExecution;
  }

  /* ---------- Approvals ---------- */

  ghost predicate ApprovalsSafe(db: Db) {
    && (forall a, b :: 0 <= a < b < |db.approvals| ==> db.approvals[a].proposalId != db.approvals[b].proposalId)
    && (forall a, i ::
        0 <= a < |db.approvals| && 0 <= i < |db.proposals| && db.approvals[a].proposalId == db.proposals[i].id ==>
          && (db.approvals[a].state == Recorded <==> db.proposals[i].state == Active)
          && (db.approvals[a].state == Used <==> db.proposals[i].state == Consumed))
    && (forall a :: 0 <= a < |db.approvals| ==>
          exists i :: 0 <= i < |db.proposals| && db.approvals[a].proposalId == db.proposals[i].id)
  }

  lemma {:induction false} ApprovalRow(db: Db, a: nat) returns (i: nat)
    requires ApprovalsFit(db.approvals, db.proposals) && a < |db.approvals|
    ensures i < |db.proposals| && db.proposals[i].tokenDigest == db.approvals[a].tokenDigest
    ensures ApprovalFits(db.approvals[a], db.proposals[i])
  {
    assert HasRow(db.proposals, db.approvals[a].tokenDigest);
    i :| 0 <= i < |db.proposals| && db.proposals[i].tokenDigest == db.approvals[a].tokenDigest;
  }

  lemma {:induction false} DbInvApprovalsSafe(db: Db)
    requires Unique(db.proposals) && UniqueApprovals(db.approvals) && ApprovalsFit(db.approvals, db.proposals)
    ensures ApprovalsSafe(db)
  {
    forall a, b | 0 <= a < b < |db.approvals| ensures db.approvals[a].proposalId != db.approvals[b].proposalId {
      var i := ApprovalRow(db, a);
      var k := ApprovalRow(db, b);
    }
    forall a, i | 0 <= a < |db.approvals| && 0 <= i < |db.proposals| && db.approvals[a].proposalId == db.proposals[i].id
      ensures db.approvals[a].state == Recorded <==> db.proposals[i].state == Active
    {
      var k := ApprovalRow(db, a);
    }
    forall a | 0 <= a < |db.approvals|
      ensures exists i :: 0 <= i < |db.proposals| && db.approvals[a].proposalId == db.proposals[i].id
    {
      var k := ApprovalRow(db, a);
      assert db.approvals[a].proposalId == db.proposals[k].id;
    }
  }

  // Over every run: one approval at most per proposal, recorded exactly while the proposal is
  // active and used exactly once it is consumed.
  lemma {:induction false} ApprovedAtMostOnce(tr: seq<World>, k: nat)
    requires IsRun(tr) && k < |tr|
    ensures ApprovalsSafe(tr[k].db)
  {
    RunInv(tr, k);
    WorldSteps.InvDb(tr[k]);
    hide Inv, IsRun, ApprovalsSafe;
    DbInvApprovalsSafe(tr[k].db);
  }

  // The approval that `verify` accepted, through reads made at different times, is the row that
  // the dispatch flipped.
  lemma {:induction false} VerifiedApprovalIsSpent(tr: seq<World>, k: nat, a: nat)
    requires IsRun(tr) && k < |tr| && a in tr[k].attempts
    requires tr[k].attempts[a].started.Some? && tr[k].attempts[a].started.value.ticket.path == ProposalBound
    ensures
      var at := tr[k].attempts[a];
      var db, t := tr[k].db, at.started.value.ticket;
      && t.approval.Some? && t.approval.value.state == Recorded
      && t.approval.value.operator == at.call.config.verifier == at.call.config.operator
      && t.approval.value.proposalId == t.frozen.id
      && t.approval.value.invocationDigest == t.frozen.digest
      && t.approval.value.revisionHash == t.frozen.invocation.revisionHash
      && t.approval.value.expiresAt == t.frozen.expiresAt
      && t.approval.value.bindingDigest == Some(t.x.binding.digest)
      && FetchApproval(db, Td(at.call)) == Some(t.approval.value.(state := Used))
  {
    hide Inv, IsRun, Knows, DbInv;
    RunInv(tr, k);
    AttemptKnown(tr[k], a);
    WorldSteps.InvDb(tr[k]);
    SpentOnce(tr[k].db, tr[k].attempts[a]);
  }

  lemma {:induction false} SpentOnce(db: Db, at: Attempt)
    requires DbInv(db) && Knows(db, at) && at.started.Some? && at.started.value.ticket.path == ProposalBound
    ensures
      var t := at.started.value.ticket;
      && t.approval.Some? && t.approval.value.state == Recorded
      && t.approval.value.operator == at.call.config.verifier == at.call.config.operator
      && t.approval.value.proposalId == t.frozen.id
      && t.approval.value.invocationDigest == t.frozen.digest
      && t.approval.value.revisionHash == t.frozen.invocation.revisionHash
      && t.approval.value.expiresAt == t.frozen.expiresAt
      && t.approval.value.bindingDigest == Some(t.x.binding.digest)
      && FetchApproval(db, Td(at.call)) == Some(t.approval.value.(state := Used))
  {
    hide ExaminedHolds, KnowsBinding;
    var t := at.started.value.ticket;
    assert KnowsTicket(db, at.call, t);
    var i, a := FindToken(db.proposals, Td(at.call)), FindApproval(db.approvals, Td(at.call));
    assert ApprovalFits(db.approvals[a], db.proposals[i]);
  }

  /* ---------- Consumption ---------- */

  // Every consumed proposal was consumed strictly before its expiry.
  lemma {:induction false} ConsumedInTime(tr: seq<World>, k: nat, i: nat)
    requires IsRun(tr) && k < |tr| && i < |tr[k].db.proposals| && tr[k].db.proposals[i].state == Consumed
    ensures
      var p := tr[k].db.proposals[i];
      && p.consumedAt.Some?
      && Timestamps.Parse(p.consumedAt.value).Some? && Timestamps.Parse(p.expiresAt).Some?
      && Timestamps.Before(Timestamps.Parse(p.consumedAt.value).value, Timestamps.Parse(p.expiresAt).value)
  {
    RunInv(tr, k);
    var p := tr[k].db.proposals[i];
    assert RowSane(p) by {
      WorldSteps.InvDb(tr[k]);
      hide Inv, IsRun, RowSane;
    }
    hide Inv, IsRun;
    ConsumedBefore(p);
  }

  lemma {:induction false} ConsumedBefore(p: Proposal)
    requires RowSane(p) && p.state == Consumed
    ensures p.consumedAt.Some? && Timestamps.Parse(p.consumedAt.value).Some? && Timestamps.Parse(p.expiresAt).Some?
    ensures Timestamps.Before(Timestamps.Parse(p.consumedAt.value).value, Timestamps.Parse(p.expiresAt).value)
  {
    hide Timestamps.Format, Timestamps.Parse, Timestamps.Before;
    Timestamps.FormatOrder(Timestamps.Parse(p.consumedAt.value).value, Timestamps.Parse(p.expiresAt).value);
  }

  /* ---------- What a dispatch proves ---------- */

  // Whatever was dispatched, and whatever happened since: the evidence resolved, the binding is
  // intact and still stored, the bytes handed over hash to the digest bound and the digest
  // recorded, catalog and profile were unchanged, every precondition was observed in order with
  // its expected value, exactly one valid authorization path applied, and the invocation is the one
  // the request expected, if it named one.
  lemma {:induction false} DispatchSound(tr: seq<World>, k: nat, a: nat)
    requires IsRun(tr) && k < |tr| && a in tr[k].attempts && tr[k].attempts[a].started.Some?
    ensures
      var at, db := tr[k].attempts[a], tr[k].db;
      var s := at.started.value;
      && ExaminedHolds(at.call.config, at.call.request, s.ticket.frozen, s.ticket.x)
      && PathHolds(at.call.config, s.ticket)
      && FetchBinding(db, s.ticket.frozen.id) == Some(s.ticket.x.binding)
      && 1 <= s.sequence <= |db.log|
      && db.log[s.sequence - 1] == Event(s.sequence, ExecutionStart, Some(s.ticket.frozen.id), at.call.owner,
                                         Some(ScriptSha(s.ticket.x.script)), Some(s.ticket.path), None, "")
      && (at.call.request.expected.Some? ==>
            at.call.request.expected.value == InvocationSha(s.ticket.frozen.invocation))
      && FindToken(db.proposals, Td(at.call)) < |db.proposals|
      && db.proposals[FindToken(db.proposals, Td(at.call))].state == Consumed
  {
    hide Inv, IsRun, ExaminedHolds, PathHolds, Knows, KnowsStarted;
    RunInv(tr, k);
    AttemptKnown(tr[k], a);
    GateSteps.KnownStarted(tr[k].db, tr[k].attempts[a]);
    GateSteps.StartedFacts(tr[k].db, tr[k].attempts[a].call, tr[k].attempts[a].started.value);
  }

  lemma {:induction false} AttemptKnown(w: World, a: nat)
    requires Inv(w) && a in w.attempts
    ensures Knows(w.db, w.attempts[a])
  {
    hide DbInv, BindingsProven, AttemptsAlive, OutcomesOnce, OutcomesStarted, PendingOpen, StagingFits, StartOwners,
         Locks.Inv, SweepFits, RunsFit, StartsDistinct, Knows;
  }

  lemma {:induction false} KnownProvenance(db: Db, c: Call, frozen: Proposal, x: Examined)
    requires DbInv(db) && BindingsProven(db) && KnowsExamined(db, c, frozen, x)
    ensures Provenance(x.binding.document.template, frozen.invocation)
  {
    assert Unique(db.proposals);
    hide ExaminedHolds, Provenance, DbInv;
    var i, b := FindToken(db.proposals, Td(c)), FindBinding(db.bindings, frozen.id);
    var k :| 0 <= k < |db.proposals| && ProvenBy(db.bindings[b], db.proposals[k]);
    assert k == i;
  }

  // Every proposal of a run was opened by the proposal tool, so a script dispatched under a
  // configured catalog is the one that catalog maps to the revision cited at execution time,
  // although the gate never compares the binding's revision with the citation.
  lemma {:induction false} DispatchedScriptIsTheCitedRevisions(tr: seq<World>, k: nat, a: nat)
    requires IsRun(tr) && k < |tr| && a in tr[k].attempts && tr[k].attempts[a].started.Some?
    requires tr[k].attempts[a].call.config.catalog.Some?
    ensures
      var call, t := tr[k].attempts[a].call, tr[k].attempts[a].started.value.ticket;
      var entries := call.config.catalog.value.entries;
      var key := Catalog.Key(call.request.citation, t.frozen.invocation.action, t.frozen.invocation.target);
      && key in entries
      && entries[key].scriptSha == ScriptSha(t.x.script)
      && entries[key].scriptPath == t.x.binding.document.template.scriptPath
  {
    hide Inv, IsRun, Knows;
    RunInv(tr, k);
    AttemptKnown(tr[k], a);
    WorldSteps.InvDb(tr[k]);
    GateSteps.KnownStarted(tr[k].db, tr[k].attempts[a]);
    hide ExaminedHolds, StartOf, DbInv, BindingsProven, Provenance, KnowsRow, KnowsBinding, PathHolds, KnowsApproval;
    var call, t := tr[k].attempts[a].call, tr[k].attempts[a].started.value.ticket;
    hide Library.Loaded, Catalog.Key;
    KnownProvenance(tr[k].db, call, t.frozen, t.x);
    ScriptOfCitedRevision(call.config, call.request, t.frozen, t.x);
  }

  /* ---------- Recovery and staging sweeps ---------- */

  lemma {:induction false} SweepFacts(w: World)
    requires Inv(w) && Enabled(w, SweepJudge)
    ensures Locks.Inv(w.locks) && ProbeOf(w.locks, w.sweep.value.probe.value, w.sweep.value.todo[0].owner)
    ensures w.sweep.value.todo[0].proposalRef.Some?
  {
    hide BindingsProven, AttemptsKnow, AttemptsAlive, StartsDistinct, RunsFit, OutcomesOnce, OutcomesStarted,
         PendingOpen, StagingFits, StartOwners, Locks.Inv, ProbeOf;
  }

  lemma {:induction false} JudgedDead(locks: Locks.Table, sw: Sweep, verdict: Locks.Verdict)
    requires sw.todo != [] && sw.probe.Some? && sw.todo[0].proposalRef.Some?
    requires Locks.Inv(locks) && ProbeOf(locks, sw.probe.value, sw.todo[0].owner)
    requires locks.probes[sw.probe.value].phase == Locks.Done(verdict)
    requires Recovery.SweepOne(sw.work, sw.todo[0], verdict) != sw.work
    ensures Locks.HasEnded(locks, sw.todo[0].owner)
    ensures Recovery.CountTerminal(sw.work, sw.todo[0].proposalRef) == 0
    ensures Recovery.CountTerminal(Recovery.SweepOne(sw.work, sw.todo[0], verdict), sw.todo[0].proposalRef) == 1
  {
    hide Append;
    WorldSweep.VerdictDead(locks, sw.probe.value, sw.todo[0].owner);
    Recovery.CountAppend(sw.work, Recovery.Recovered(sw.todo[0]), sw.todo[0].proposalRef);
  }

  // A sweep that closes a start has proof that its owner ended; it closes it as unknown, once.
  lemma {:induction false} JudgementIsProven(tr: seq<World>, k: nat)
    requires IsRun(tr) && k < |tr| && Enabled(tr[k], SweepJudge)
    ensures
      var sw, next := tr[k].sweep.value, AfterJudge(tr[k]).sweep.value;
      next.work != sw.work ==>
        && Locks.HasEnded(tr[k].locks, sw.todo[0].owner)
        && Recovery.CountTerminal(sw.work, sw.todo[0].proposalRef) == 0
        && Recovery.CountTerminal(next.work, sw.todo[0].proposalRef) == 1
  {
    hide Inv, IsRun, Recovery.SweepOne, Locks.Inv, ProbeOf, Recovery.CountTerminal;
    RunInv(tr, k);
    SweepFacts(tr[k]);
    var sw := tr[k].sweep.value;
    var verdict := tr[k].locks.probes[sw.probe.value].phase.verdict;
    if Recovery.SweepOne(sw.work, sw.todo[0], verdict) != sw.work {
      JudgedDead(tr[k].locks, sw, verdict);
    }
  }

  // A probe of the owner of this start did not say dead.
  ghost predicate FoundAlive(w: World, start: Event) {
    && Enabled(w, SweepJudge) && w.sweep.value.todo[0] == start
    && !Verdict(w, w.sweep.value.probe, Locks.Dead)
  }

  lemma {:induction false} SparedStep(w: World, s: Step, start: Event)
    requires Enabled(w, s) && Apply(w, s).sweep.Some? && start in Apply(w, s).sweep.value.spared
    ensures w.sweep.Some? && (start in w.sweep.value.spared || FoundAlive(w, start))
  {
    hide Locks.Apply, Locks.Enabled, Recovery.StartsOf, Recovery.SweepOne, Recovery.HasTerminal, Crashed,
         ProposeChecks, Committed, Move, Ready;
  }

  // What a sweep spared it had judged, between its beginning and now.
  lemma {:induction false} SparedWasJudged(tr: seq<World>, k: nat, start: Event) returns (i: nat)
    requires IsRun(tr) && k < |tr| && tr[k].sweep.Some? && start in tr[k].sweep.value.spared
    ensures i < k && FoundAlive(tr[i], start) && forall m :: i <= m <= k ==> tr[m].sweep.Some?
    decreases k
  {
    hide Apply, Enabled, FoundAlive;
    if k == 0 {
      assert false;
    } else {
      var s := RunStep(tr, k - 1);
      SparedStep(tr[k - 1], s, start);
      if start in tr[k - 1].sweep.value.spared {
        i := SparedWasJudged(tr, k - 1, start);
      } else {
        i := k - 1;
      }
    }
  }

  predicate Closes(e: Event, start: Event) {
    e.kind == ExecutionOutcome && e.proposalRef == start.proposalRef && e.outcome.Some?
  }

  lemma {:induction false} CommitCovers(w: World, j: nat)
    requires Inv(w) && Enabled(w, SweepCommit) && j < |w.db.log| && w.db.log[j].kind == ExecutionStart
    ensures
      var start := w.db.log[j];
      start in w.sweep.value.spared || Recovery.HasTerminal(w.sweep.value.work, start.proposalRef)
  {
    hide DbInv, BindingsProven, AttemptsKnow, AttemptsAlive, StartsDistinct, RunsFit, OutcomesOnce, OutcomesStarted,
         PendingOpen, StagingFits, StartOwners, Locks.Inv, Recovery.HasTerminal;
    assert Covers(w.sweep.value, w.db.log);
    assert Disposed(w.sweep.value, w.db.log[j]);
  }

  // A sweep that commits leaves no start open but those whose owner it probed, under its write
  // lock, without finding it dead.
  lemma {:induction false} SweepLeavesNoDeadOpen(tr: seq<World>, k: nat, j: nat)
    requires IsRun(tr) && k < |tr| && Enabled(tr[k], SweepCommit)
    requires j < |tr[k].db.log| && tr[k].db.log[j].kind == ExecutionStart
    ensures
      var start := tr[k].db.log[j];
      || (exists e :: e in Apply(tr[k], SweepCommit).db.log && Closes(e, start))
      || exists i :: 0 <= i < k && FoundAlive(tr[i], start) && forall m :: i <= m <= k ==> tr[m].sweep.Some?
  {
    hide IsRun, Inv, FoundAlive, Recovery.HasTerminal;
    RunInv(tr, k);
    CommitCovers(tr[k], j);
    Recovery.HasTerminalIff(tr[k].sweep.value.work, tr[k].db.log[j].proposalRef);
    var start := tr[k].db.log[j];
    if start in tr[k].sweep.value.spared {
      var i := SparedWasJudged(tr, k, start);
    } else {
      var e :| e in tr[k].sweep.value.work && e.kind == ExecutionOutcome && e.proposalRef == start.proposalRef
               && e.outcome.Some?;
      assert Closes(e, start);
    }
  }

  // The staging sweep never removes the directory of an execution that is still running.
  lemma {:induction false} SweepSparesRunningExecutions(tr: seq<World>, k: nat, c: nat)
    requires IsRun(tr) && k < |tr| && c in tr[k].candidates && Verdict(tr[k], tr[k].candidates[c].probe, Locks.Dead)
    ensures
      var dir := tr[k].candidates[c].dir;
      && dir in tr[k].attempts && tr[k].attempts[dir].pc == Done
      && Locks.HasEnded(tr[k].locks, tr[k].attempts[dir].call.owner)
  {
    RunInv(tr, k);
    hide Inv, IsRun;
    WorldSweep.RemovedDirIsIdle(tr[k], c);
  }

  // Inside the staged runner the execution finds its directory in place.
  lemma {:induction false} StagedDirectoryPresent(tr: seq<World>, k: nat, a: nat)
    requires IsRun(tr) && k < |tr| && a in tr[k].staged
    ensures a in tr[k].attempts
    ensures tr[k].attempts[a].pc.InExecutor? ==>
      a in tr[k].staging && tr[k].staging[a] == tr[k].attempts[a].call.owner
  {
    RunInv(tr, k);
    hide IsRun, DbInv, BindingsProven, AttemptsKnow, AttemptsAlive, StartsDistinct, RunsFit, OutcomesOnce,
         OutcomesStarted, PendingOpen, SweepFits, StartOwners, Locks.Inv;
  }
}
