// Every transaction that commits keeps the database invariant and only lets the database grow.
module Transactions {
  import opened Wrappers
  import opened Domain
  import opened Records
  import opened Integrity
  import Timestamps

  /* ---------- Appends ---------- */

  function WithEvent(db: Db, e: Event): Db {
    db.(log := Append(db.log, e))
  }

  lemma {:induction false} AppendKeeps(db: Db, e: Event)
    requires DbInv(db) && e.kind != ExecutionStart
    ensures DbInv(WithEvent(db, e)) && Grows(db, WithEvent(db, e))
  {
    AppendGapless(db.log, e);
    StartsFitAppendOther(db.log, db.proposals, e);
  }

  /* ---------- open_proposal ---------- */

  lemma {:induction false} NewRowSane(m: Minted, invocation: Invocation)
    requires TtlPositive(m) && m.id != ""
    ensures RowSane(NewProposal(m, invocation))
  {
    hide Timestamps.Format, Timestamps.Parse, Timestamps.Before;
    Timestamps.ParseFormat(m.expiry);
  }

  lemma {:induction false} FreshRow(rows: seq<Proposal>, p: Proposal)
    requires Unique(rows) && RowsSane(rows) && RowSane(p)
    requires FindToken(rows, p.tokenDigest) == |rows| && FindId(rows, p.id) == |rows|
    ensures Unique(rows + [p]) && RowsSane(rows + [p])
  {
  }

  lemma {:induction false} FreshRowApprovals(approvals: seq<Approval>, rows: seq<Proposal>, p: Proposal)
    requires ApprovalsFit(approvals, rows)
    requires FindToken(rows, p.tokenDigest) == |rows|
    ensures ApprovalsFit(approvals, rows + [p])
  {
    var next := rows + [p];
    forall a | 0 <= a < |approvals| ensures HasRow(next, approvals[a].tokenDigest) {
      assert HasRow(rows, approvals[a].tokenDigest);
      var i :| 0 <= i < |rows| && rows[i].tokenDigest == approvals[a].tokenDigest;
      assert next[i].tokenDigest == approvals[a].tokenDigest;
    }
    forall a, i | 0 <= a < |approvals| && 0 <= i < |next| && approvals[a].tokenDigest == next[i].tokenDigest
      ensures ApprovalFits(approvals[a], next[i])
    {
      assert HasRow(rows, approvals[a].tokenDigest);
      if i < |rows| {
        assert approvals[a].tokenDigest == rows[i].tokenDigest;
      }
    }
  }

  lemma {:induction false} FreshRowStarts(log: seq<Event>, rows: seq<Proposal>, p: Proposal)
    requires StartsFit(log, rows)
    requires p.state == Active && FindId(rows, p.id) == |rows|
    ensures StartsFit(log, rows + [p])
  {
    var next := rows + [p];
    assert !HasStart(log, p.id);
    forall j | 0 <= j < |log| && log[j].kind == ExecutionStart
      ensures exists i :: 0 <= i < |next| && log[j].proposalRef == Some(next[i].id)
    {
      var i :| 0 <= i < |rows| && log[j].proposalRef == Some(rows[i].id);
      assert log[j].proposalRef == Some(next[i].id);
    }
  }

  lemma {:induction false} FreshBinding(db: Db, m: Minted, invocation: Invocation, template: Option<BindingTemplate>)
    requires UniqueBindings(db.bindings) && BindingsSane(db.bindings)
        && (template.Some? ==> FetchBinding(db, m.id).None?)
    ensures
      var next := db.bindings + NewBindings(m, invocation, template);
      UniqueBindings(next) && BindingsSane(next)
  {
  }

  lemma {:induction false} OpenKeeps(db: Db, m: Minted, invocation: Invocation, template: Option<BindingTemplate>,
          appendOk: bool)
    requires DbInv(db) && TtlPositive(m) && m.id != ""
    requires OpenProposal(db, m, invocation, template, appendOk).Ok?
    ensures
      var next := OpenProposal(db, m, invocation, template, appendOk).value;
      DbInv(next) && Grows(db, next)
  {
    hide Timestamps.Before, Timestamps.Format, RowSane, ApprovalsFit, StartsFit, Unique, UniqueBindings,
         UniqueApprovals, RowsSane, BindingsSane, Gapless, NewBindings, Append;
    NewRowSane(m, invocation);
    var p := NewProposal(m, invocation);
    FreshRow(db.proposals, p);
    FreshRowApprovals(db.approvals, db.proposals, p);
    FreshBinding(db, m, invocation, template);
    FreshRowStarts(db.log, db.proposals, p);
    AppendGapless(db.log, ProposalEvent(m.id));
    StartsFitAppendOther(db.log, db.proposals + [p], ProposalEvent(m.id));
  }

  /* ---------- Approvals ---------- */

  lemma {:induction false} InsertKeeps(db: Db, approvalId: string, operator: string, i: nat,
          binding: Option<BindingRow>)
    requires DbInv(db) && i < |db.proposals| && db.proposals[i].state == Active
    requires InsertApproval(db, NewApproval(approvalId, operator, db.proposals[i], binding)).Ok?
    ensures
      var next := InsertApproval(db, NewApproval(approvalId, operator, db.proposals[i], binding)).value;
      DbInv(next) && Grows(db, next)
  {
    hide StartsFit, Gapless, RowsSane, BindingsSane, UniqueBindings, ApprovalsFit, ApprovalFits, Unique;
    var a := NewApproval(approvalId, operator, db.proposals[i], binding);
    ApprovalOfRow(db.proposals[i], approvalId, operator, binding);
    NewApprovalFits(db.approvals, db.proposals, i, a);
    assert a.tokenDigest == db.proposals[i].tokenDigest;
  }

  lemma {:induction false} ApprovalOfRow(p: Proposal, approvalId: string, operator: string, binding: Option<BindingRow>)
    requires p.state == Active
    ensures ApprovalFits(NewApproval(approvalId, operator, p, binding), p)
  {
  }

  lemma {:induction false} NewApprovalFits(approvals: seq<Approval>, rows: seq<Proposal>, i: nat, a: Approval)
    requires Unique(rows) && ApprovalsFit(approvals, rows)
    requires i < |rows| && a.tokenDigest == rows[i].tokenDigest && ApprovalFits(a, rows[i])
    ensures ApprovalsFit(approvals + [a], rows)
  {
    var next := approvals + [a];
    assert HasRow(rows, a.tokenDigest);
    forall b, k | 0 <= b < |next| && 0 <= k < |rows| && next[b].tokenDigest == rows[k].tokenDigest
      ensures ApprovalFits(next[b], rows[k])
    {
      if b == |approvals| {
        assert k == i;
      }
    }
  }

  lemma {:induction false} ResolvedRow(db: Db, td: TokenDigest, expected: Option<Digest>, now: Timestamps.Utc)
    requires Resolve(db, td, expected, now).Ok?
    ensures
      var i := FindToken(db.proposals, td);
      && i < |db.proposals|
      && Resolve(db, td, expected, now).value == db.proposals[i]
      && db.proposals[i].tokenDigest == td
      && db.proposals[i].state == Active
  {
  }

  lemma {:induction false} FetchedRow(db: Db, id: string, now: Timestamps.Utc)
    requires FetchById(db, id, now).Ok?
    ensures
      var i := FindId(db.proposals, id);
      && i < |db.proposals|
      && FetchById(db, id, now).value == db.proposals[i]
      && db.proposals[i].id == id
      && db.proposals[i].state == Active
  {
  }

  // An approval is recorded only while its proposal is active, once, with the proposal's own fields.
  lemma {:induction false} RecordKeeps(db: Db, td: TokenDigest, approvalId: string, operator: string,
          now: Timestamps.Utc)
    requires DbInv(db) && RecordApproval(db, td, approvalId, operator, now).Ok?
    ensures
      var next := RecordApproval(db, td, approvalId, operator, now).value;
      DbInv(next) && Grows(db, next)
  {
    ResolvedRow(db, td, None, now);
    hide Resolve, DbInv;
    var frozen := Resolve(db, td, None, now).value;
    InsertKeeps(db, approvalId, operator, FindToken(db.proposals, td), FetchBinding(db, frozen.id));
  }

  lemma {:induction false} RecordByIdKeeps(db: Db, id: string, approvalId: string, operator: string,
          now: Timestamps.Utc)
    requires DbInv(db) && RecordApprovalById(db, id, approvalId, operator, now).Ok?
    ensures
      var next := RecordApprovalById(db, id, approvalId, operator, now).value;
      DbInv(next) && Grows(db, next)
  {
    FetchedRow(db, id, now);
    hide FetchById, DbInv;
    InsertKeeps(db, approvalId, operator, FindId(db.proposals, id), FetchBinding(db, id));
  }

  /* ---------- The dispatch transaction ---------- */

  function SpentAt(approvals: seq<Approval>, td: TokenDigest): seq<Approval> {
    var a := FindApproval(approvals, td);
    if a == |approvals| then approvals else approvals[a := approvals[a].(state := Used)]
  }

  // What a committed dispatch leaves behind.
  function Dispatched(db: Db, td: TokenDigest, now: Timestamps.Utc, start: Event): Db
    requires FindToken(db.proposals, td) < |db.proposals|
  {
    var i := FindToken(db.proposals, td);
    Db(db.proposals[i := ConsumedRow(db.proposals[i], now)],
       db.bindings,
       SpentAt(db.approvals, td),
       Append(db.log, start))
  }

  // Under the invariant a recorded approval of an active proposal is never already used, so a
  // dispatch commits exactly when the token check passes and the append persists.
  lemma {:induction false} DispatchDecided(db: Db, td: TokenDigest, expected: Option<Digest>, now: Timestamps.Utc,
          again: Timestamps.Utc, start: Event, appendOk: bool)
    requires DbInv(db)
    ensures Resolve(db, td, expected, now).Ok? ==> FindToken(db.proposals, td) < |db.proposals|
    ensures
      var verdict := Resolve(db, td, expected, now);
      Dispatch(db, td, expected, now, again, start, appendOk) ==
        if verdict.Err? then Err(verdict.error)
        else if !appendOk then Err(WriteFailed)
        else Ok(Dispatched(db, td, now, start))
  {
    hide Timestamps.Format, Timestamps.Parse, Timestamps.Before;
    SwapDecidedByCheck(db, td, expected, now, again);
    hide Swap;
    if Resolve(db, td, expected, now).Ok? {
      ResolvedRow(db, td, expected, now);
      var i, a := FindToken(db.proposals, td), FindApproval(db.approvals, td);
      if a < |db.approvals| {
        assert ApprovalFits(db.approvals[a], db.proposals[i]);
      }
    }
  }

  lemma {:induction false} ConsumedRowSane(p: Proposal, now: Timestamps.Utc)
    requires RowSane(p) && p.state == Active && Timestamps.Before(now, Timestamps.Parse(p.expiresAt).value)
    ensures RowSane(ConsumedRow(p, now))
  {
    TextPredicateIsInstantPredicate(p, now);
    Timestamps.ParseFormat(now);
    hide Timestamps.Format, Timestamps.Parse, Timestamps.Before;
  }

  lemma {:induction false} ConsumedApprovals(approvals: seq<Approval>, rows: seq<Proposal>, i: nat, p: Proposal)
    requires Unique(rows) && UniqueApprovals(approvals) && ApprovalsFit(approvals, rows)
    requires i < |rows| && RowKept(rows[i], p) && p.state == Consumed
    ensures ApprovalsFit(SpentAt(approvals, rows[i].tokenDigest), rows[i := p])
    ensures UniqueApprovals(SpentAt(approvals, rows[i].tokenDigest))
    ensures ApprovalsGrow(approvals, SpentAt(approvals, rows[i].tokenDigest))
  {
    var td, nextRows := rows[i].tokenDigest, rows[i := p];
    var next := SpentAt(approvals, td);
    forall a | 0 <= a < |next| ensures HasRow(nextRows, next[a].tokenDigest) {
      assert HasRow(rows, approvals[a].tokenDigest);
      var k :| 0 <= k < |rows| && rows[k].tokenDigest == approvals[a].tokenDigest;
      assert nextRows[k].tokenDigest == next[a].tokenDigest;
    }
    forall a, k | 0 <= a < |next| && 0 <= k < |nextRows| && next[a].tokenDigest == nextRows[k].tokenDigest
      ensures ApprovalFits(next[a], nextRows[k])
    {
      assert ApprovalFits(approvals[a], rows[k]);
      if k == i {
        assert a == FindApproval(approvals, td);
      }
    }
  }

  lemma {:induction false} ConsumedStarts(log: seq<Event>, rows: seq<Proposal>, i: nat, p: Proposal, start: Event)
    requires Gapless(log) && StartsFit(log, rows) && Unique(rows)
    requires i < |rows| && rows[i].state == Active && RowKept(rows[i], p) && p.state == Consumed
    requires IsStart(start, rows[i].id)
    ensures StartsFit(Append(log, start), rows[i := p])
  {
    AppendGapless(log, start);
    var next, nextRows := Append(log, start), rows[i := p];
    assert !HasStart(log, rows[i].id);
    forall k | 0 <= k < |nextRows| ensures nextRows[k].state == Consumed <==> HasStart(next, nextRows[k].id) {
      HasStartAppend(log, start, rows[k].id);
    }
    forall j | 0 <= j < |next| && next[j].kind == ExecutionStart
      ensures exists k :: 0 <= k < |nextRows| && next[j].proposalRef == Some(nextRows[k].id)
    {
      if j < |log| {
        var k :| 0 <= k < |rows| && log[j].proposalRef == Some(rows[k].id);
        assert next[j].proposalRef == Some(nextRows[k].id);
      } else {
        assert next[j].proposalRef == Some(nextRows[i].id);
      }
    }
    StartsUniqueAppend(log, start, rows[i].id);
  }

  lemma {:induction false} StartsUniqueAppend(log: seq<Event>, start: Event, id: string)
    requires Gapless(log) && StartsUnique(log) && IsStart(start, id) && !HasStart(log, id)
    ensures StartsUnique(Append(log, start))
  {
    AppendGapless(log, start);
    var next := Append(log, start);
    forall j, k | 0 <= j < k < |next| && next[j].kind == ExecutionStart && next[k].kind == ExecutionStart
      ensures next[j].proposalRef != next[k].proposalRef
    {
      if k == |log| {
        assert !IsStart(log[j], id);
      }
    }
  }

  // The dispatch transaction: the token is consumed strictly before its expiry, its one start
  // record is written, and its approval, if any, goes from recorded to used.
  lemma {:induction false} DispatchKeeps(db: Db, td: TokenDigest, expected: Option<Digest>, now: Timestamps.Utc,
          start: Event)
    requires DbInv(db) && Resolve(db, td, expected, now).Ok?
    requires IsStart(start, Resolve(db, td, expected, now).value.id)
    ensures FindToken(db.proposals, td) < |db.proposals|
    ensures DbInv(Dispatched(db, td, now, start)) && Grows(db, Dispatched(db, td, now, start))
  {
    ResolvedRow(db, td, expected, now);
    var i := FindToken(db.proposals, td);
    var p := ConsumedRow(db.proposals[i], now);
    ConsumedRowSane(db.proposals[i], now);
    hide Timestamps.Format, Timestamps.Parse, Timestamps.Before, RowSane, Resolve;
    DispatchedKeeps(db, i, p, start);
  }

  lemma {:induction false} DispatchedKeeps(db: Db, i: nat, p: Proposal, start: Event)
    requires DbInv(db) && i < |db.proposals| && db.proposals[i].state == Active
    requires RowSane(p) && RowKept(db.proposals[i], p) && p.state == Consumed
    requires IsStart(start, p.id)
    ensures
      var next := Db(db.proposals[i := p], db.bindings, SpentAt(db.approvals, p.tokenDigest), Append(db.log, start));
      DbInv(next) && Grows(db, next)
  {
    hide RowSane;
    ConsumedApprovals(db.approvals, db.proposals, i, p);
    ConsumedStarts(db.log, db.proposals, i, p, start);
    AppendGapless(db.log, start);
    hide ApprovalsFit, StartsFit, SpentAt, Append, ApprovalsGrow;
  }
}
