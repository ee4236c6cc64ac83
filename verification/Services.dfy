// The proposal and approval services as objects over the database. Each method runs its
// statements one by one and is proved to be the transaction of module Records it stands for.
module Services {
  import opened Wrappers
  import opened Domain
  import opened Records
  import opened Integrity
  import opened Store
  import opened GateChecks
  import Timestamps

  /* ---------- ProposalService ---------- */

  datatype Issued = Issued(proposalId: string, invocationDigest: Digest, expiresAt: Timestamps.Utc)

  class ProposalService {
    const db: Database

    constructor (db: Database)
      ensures this.db == db
    {
      this.db := db;
    }

    // Insert the row, its binding and its event, or leave no trace.
    method Open(m: Minted, invocation: Invocation, template: Option<BindingTemplate>, appendOk: bool)
      returns (r: Result<Issued, Rejection>)
      requires db.Valid() && db.saved.None?
      modifies db
      ensures db.Valid() && db.saved.None?
      ensures !TtlPositive(m) ==> r == Err(NonPositiveTtl) && db.Contents() == old(db.Contents())
      ensures TtlPositive(m) ==>
        var spec := OpenProposal(old(db.Contents()), m, invocation, template, appendOk);
        && db.Contents() == AfterAttempt(old(db.Contents()), spec)
        && r == if spec.Ok? then Ok(Issued(m.id, InvocationSha(invocation), m.expiry)) else Err(spec.error)
    {
      hide Timestamps.Before, Timestamps.Format, Unique, UniqueBindings, UniqueApprovals, MaxSequence;
      if !TtlPositive(m) {
        return Err(NonPositiveTtl);
      }
      db.Begin();
      var ok := db.InsertProposal(NewProposal(m, invocation));
      if ok && template.Some? {
        var document := template.value.Finalize(m.id, InvocationSha(invocation));
        ok := db.InsertBinding(BindingRow(m.id, BindingSha(document), document));
      }
      if !ok {
        db.Rollback();
        return Err(DuplicateKey);
      }
      ok := db.AppendOn(ProposalEvent(m.id), appendOk);
      if !ok {
        db.Rollback();
        return Err(WriteFailed);
      }
      db.Commit();
      r := Ok(Issued(m.id, InvocationSha(invocation), m.expiry));
    }

    method ResolveToken(td: TokenDigest, expected: Option<Digest>, now: Timestamps.Utc)
      returns (r: Result<Proposal, Rejection>)
      ensures r == Resolve(db.Contents(), td, expected, now)
    {
      hide Timestamps.Parse, Timestamps.Before;
      var i := FindToken(db.proposals, td);
      var row := if i < |db.proposals| then Some(db.proposals[i]) else None;
      var rejection := Check(row, expected, now);
      r := if rejection.Some? then Err(rejection.value) else Ok(row.value);
    }

    // Compare-and-swap, then the callback: start record, then the approval flip. Any failure
    // rolls back everything and leaves the token eligible.
    method Consume(td: TokenDigest, expected: Option<Digest>, now: Timestamps.Utc, again: Timestamps.Utc,
                   start: Event, appendOk: bool, approvals: ApprovalVerifier)
      returns (r: Result<Proposal, Rejection>)
      requires db.Valid() && db.saved.None? && approvals.db == db
      modifies db
      ensures db.Valid() && db.saved.None?
      ensures
        var spec := Dispatch(old(db.Contents()), td, expected, now, again, start, appendOk);
        && db.Contents() == AfterAttempt(old(db.Contents()), spec)
        && (r.Err? <==> spec.Err?) && (r.Err? ==> r.error == spec.error)
        && (r.Ok? ==> RowByToken(db.Contents(), td) == Some(r.value) && r.value.state == Consumed)
    {
      hide Check, Timestamps.Format, Unique, UniqueBindings, UniqueApprovals, UpdateRows, UpdateCount, MaxSequence,
           Timestamps.Parse, Timestamps.Before, UpdateHits, Append;
      ghost var before := db.Contents();
      db.Begin();
      var i := FindToken(db.proposals, td);
      var row := if i < |db.proposals| then Some(db.proposals[i]) else None;
      var verdict := Check(row, expected, now);
      if verdict.Some? {
        db.Rollback();
        return Err(verdict.value);
      }
      var hits := db.ConsumeWhere(td, Timestamps.Format(now));
      if hits != 1 {
        assert hits == 0 by {
          AtMostOneHit(before.proposals, td, Timestamps.Format(now));
        }
        var reread := if i < |db.proposals| then Some(db.proposals[i]) else None;
        var second := Check(reread, expected, again);
        db.Rollback();
        return Err(if second.Some? then second.value else DidNotApply);
      }
      HitConsumes(before.proposals, td, Timestamps.Format(now));
      var appended := db.AppendOn(start, appendOk);
      if !appended {
        db.Rollback();
        return Err(WriteFailed);
      }
      var spent := approvals.SpendOn(td, td);
      if spent.Some? {
        db.Rollback();
        return Err(spent.value);
      }
      i := FindToken(db.proposals, td);
      r := Ok(db.proposals[i]);
      db.Commit();
    }
  }

  // The UNIQUE token column bounds the row count.
  lemma {:induction false} AtMostOneHit(rows: seq<Proposal>, td: TokenDigest, text: string)
    requires Unique(rows)
    ensures UpdateCount(rows, td, text) <= 1
  {
    var i := FindToken(rows, td);
    if i < |rows| && UpdateHits(rows[i], td, text) {
      UpdateCountOne(rows, td, text, i);
    } else {
      NoHit(rows, td, text);
    }
  }

  lemma {:induction false} NoHit(rows: seq<Proposal>, td: TokenDigest, text: string)
    requires forall k :: 0 <= k < |rows| ==> !UpdateHits(rows[k], td, text)
    ensures UpdateCount(rows, td, text) == 0
  {
    if rows == [] {
    } else {
      NoHit(rows[1..], td, text);
    }
  }

  lemma {:induction false} HitConsumes(rows: seq<Proposal>, td: TokenDigest, text: string)
    requires Unique(rows) && UpdateCount(rows, td, text) == 1
    ensures
      var i := FindToken(UpdateRows(rows, td, text), td);
      i < |rows| && UpdateRows(rows, td, text)[i].state == Consumed
  {
    var i := FindToken(rows, td);
    if i == |rows| || !UpdateHits(rows[i], td, text) {
      NoHit(rows, td, text);
    }
    UpdateHitsOne(rows, td, text, i);
    var next := UpdateRows(rows, td, text);
    hide UpdateRows, UpdateCount, UpdateHits;
    assert next[i].tokenDigest == td && forall k :: 0 <= k < i ==> next[k].tokenDigest != td;
    var k := FindToken(next, td);
  }

  /* ---------- ApprovalVerifier ---------- */

  class ApprovalVerifier {
    const db: Database
    const operator: string

    constructor (db: Database, operator: string)
      ensures this.db == db && this.operator == operator
    {
      this.db := db;
      this.operator := operator;
    }

    // Only the configured operator, only while the proposal is eligible, and only once.
    method RecordByToken(td: TokenDigest, presented: string, approvalId: string, now: Timestamps.Utc)
      returns (r: Result<Approval, Rejection>)
      requires db.Valid() && db.saved.None?
      modifies db
      ensures db.Valid() && db.saved.None?
      ensures presented != operator ==> r == Err(OperatorMismatch) && db.Contents() == old(db.Contents())
      ensures presented == operator ==>
        var spec := RecordApproval(old(db.Contents()), td, approvalId, operator, now);
        && db.Contents() == AfterAttempt(old(db.Contents()), spec)
        && (r.Err? <==> spec.Err?) && (r.Err? ==> r.error == spec.error)
        && (r.Ok? ==> db.approvals == old(db.approvals) + [r.value])
    {
      hide Timestamps.Parse, Timestamps.Before, Unique, UniqueBindings, UniqueApprovals;
      if presented != operator {
        return Err(OperatorMismatch);
      }
      db.Begin();
      var i := FindToken(db.proposals, td);
      var row := if i < |db.proposals| then Some(db.proposals[i]) else None;
      var verdict := Check(row, None, now);
      if verdict.Some? {
        db.Rollback();
        return Err(verdict.value);
      }
      var b := FindBinding(db.bindings, row.value.id);
      var binding := if b < |db.bindings| then Some(db.bindings[b]) else None;
      var record := NewApproval(approvalId, operator, row.value, binding);
      var ok := db.InsertApproval(record);
      if !ok {
        db.Rollback();
        return Err(ApprovalAlreadyRecorded);
      }
      db.Commit();
      r := Ok(record);
    }

    method RecordByProposalId(id: string, presented: string, approvalId: string, now: Timestamps.Utc)
      returns (r: Result<Approval, Rejection>)
      requires db.Valid() && db.saved.None?
      modifies db
      ensures db.Valid() && db.saved.None?
      ensures presented != operator ==> r == Err(OperatorMismatch) && db.Contents() == old(db.Contents())
      ensures presented == operator ==>
        var spec := RecordApprovalById(old(db.Contents()), id, approvalId, operator, now);
        && db.Contents() == AfterAttempt(old(db.Contents()), spec)
        && (r.Err? <==> spec.Err?) && (r.Err? ==> r.error == spec.error)
        && (r.Ok? ==> db.approvals == old(db.approvals) + [r.value])
    {
      hide Timestamps.Parse, Timestamps.Before, Unique, UniqueBindings, UniqueApprovals;
      if presented != operator {
        return Err(OperatorMismatch);
      }
      db.Begin();
      var i := if id == "" then |db.proposals| else FindId(db.proposals, id);
      var row := if i < |db.proposals| then Some(db.proposals[i]) else None;
      var verdict := Check(row, None, now);
      if verdict.Some? {
        db.Rollback();
        return Err(verdict.value);
      }
      var b := FindBinding(db.bindings, id);
      if b == |db.bindings| {
        db.Rollback();
        return Err(LegacyProposal);
      }
      var record := NewApproval(approvalId, operator, row.value, Some(db.bindings[b]));
      var ok := db.InsertApproval(record);
      if !ok {
        db.Rollback();
        return Err(ApprovalAlreadyRecorded);
      }
      db.Commit();
      r := Ok(record);
    }

    // The read-only check: operator, approval row, proposal, binding, in that order.
    method Verify(td: TokenDigest, presented: string, now: Timestamps.Utc) returns (r: Result<Approval, Rejection>)
      ensures r == VerifyApproval(db.Contents(), td, operator, presented, now)
    {
      hide Timestamps.Parse, Timestamps.Before;
      if presented != operator {
        return Err(OperatorMismatch);
      }
      var a := FindApproval(db.approvals, td);
      if a == |db.approvals| {
        return Err(HostSupplied);
      }
      var row := db.approvals[a];
      if row.operator != operator {
        return Err(OperatorMismatch);
      }
      if row.state == Used {
        return Err(ApprovalReplayed);
      }
      var i := FindToken(db.proposals, td);
      var live := if i < |db.proposals| then Some(db.proposals[i]) else None;
      var verdict := Check(live, None, now);
      if verdict.Some? {
        return Err(verdict.value);
      }
      if live.value.id != row.proposalId || live.value.digest != row.invocationDigest
         || live.value.invocation.revisionHash != row.revisionHash || live.value.expiresAt != row.expiresAt {
        return Err(InvocationMismatch);
      }
      var b := FindBinding(db.bindings, live.value.id);
      if b == |db.bindings| || row.bindingDigest != Some(db.bindings[b].digest) {
        return Err(InvocationMismatch);
      }
      r := Ok(row);
    }

    // Joins a consumption: refuses to spend for any token but the one being consumed.
    method SpendOn(consumed: TokenDigest, td: TokenDigest) returns (fault: Option<Rejection>)
      requires db.Valid()
      modifies db`approvals
      ensures db.Valid()
      ensures
        var row := RowByToken(old(db.Contents()), td);
        var own := consumed == td && row.Some? && row.value.state == Consumed;
        var spec := Spend(old(db.Contents()), td);
        if !own then fault == Some(ForeignConsumption) && db.approvals == old(db.approvals)
        else
          && (fault.Some? <==> spec.Err?) && (fault.Some? ==> fault.value == spec.error)
          && db.Contents() == AfterAttempt(old(db.Contents()), spec)
    {
      hide Unique, UniqueBindings, UniqueApprovals;
      var i := FindToken(db.proposals, td);
      if consumed != td || i == |db.proposals| || db.proposals[i].state != Consumed {
        return Some(ForeignConsumption);
      }
      if FindApproval(db.approvals, td) == |db.approvals| {
        return None;
      }
      var hit := db.MarkUsed(td);
      fault := if hit then None else Some(ApprovalReplayed);
    }
  }

  // `verify` in one piece, on a database nobody changes meanwhile.
  function VerifyApproval(db: Db, td: TokenDigest, operator: string, presented: string, now: Timestamps.Utc)
    : Result<Approval, Rejection>
  {
    var row := FetchApproval(db, td);
    if presented != operator then Err(OperatorMismatch)
    else if row.None? then Err(HostSupplied)
    else if row.value.operator != operator then Err(OperatorMismatch)
    else if row.value.state == Used then Err(ApprovalReplayed)
    else
      var live := Resolve(db, td, None, now);
      var fault := VerifyProposal(row.value, live);
      if fault.Some? then Err(fault.value)
      else
        var bindingFault := VerifyBinding(row.value, FetchBinding(db, live.value.id));
        if bindingFault.Some? then Err(bindingFault.value) else Ok(row.value)
  }
}
