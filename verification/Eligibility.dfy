// What the services decide, said of the stored rows: who may resolve, consume, approve and verify,
// and what exactly each transaction writes.
module Eligibility {
  import opened Wrappers
  import opened Domain
  import opened Records
  import opened Integrity
  import opened GateChecks
  import Services
  import Transactions
  import Timestamps

  predicate Under(db: Db, td: TokenDigest, p: Proposal) {
    p in db.proposals && p.tokenDigest == td
  }

  predicate Wanted(p: Proposal, expected: Option<Digest>) {
    expected.Some? ==> expected.value == InvocationSha(p.invocation)
  }

  // Strictly before the expiry, by elapsed microseconds.
  predicate Unexpired(p: Proposal, now: Timestamps.Utc) {
    var expiry := Timestamps.Parse(p.expiresAt);
    expiry.Some? && Timestamps.Micros(now) < Timestamps.Micros(expiry.value)
  }

  predicate Eligible(p: Proposal, expected: Option<Digest>, now: Timestamps.Utc) {
    Wanted(p, expected) && p.state == Active && Unexpired(p, now)
  }

  lemma {:induction false} UnexpiredIs(p: Proposal, now: Timestamps.Utc)
    ensures Unexpired(p, now) <==>
      var expiry := Timestamps.Parse(p.expiresAt);
      expiry.Some? && Timestamps.Before(now, expiry.value)
  {
    hide Timestamps.Parse, Timestamps.Before, Timestamps.Micros;
    var expiry := Timestamps.Parse(p.expiresAt);
    if expiry.Some? {
      Timestamps.BeforeIsChronological(now, expiry.value);
    }
  }

  // A row passes every check of its eligibility, or fails the first of them that it can.
  lemma {:induction false} CheckVerdict(p: Proposal, expected: Option<Digest>, now: Timestamps.Utc)
    requires p.digest == InvocationSha(p.invocation)
    ensures Check(Some(p), expected, now) ==
      if !Wanted(p, expected) then Some(InvocationMismatch)
      else if p.state == Consumed then Some(AlreadyConsumed)
      else if !Unexpired(p, now) then Some(Expired)
      else None
  {
    hide Timestamps.Parse, Timestamps.Before, Timestamps.Micros;
    UnexpiredIs(p, now);
  }

  // The row update's comparison of texts picks the rows that are still active and unexpired.
  lemma {:induction false} UpdateHitsIff(p: Proposal, td: TokenDigest, now: Timestamps.Utc)
    requires RowSane(p)
    ensures UpdateHits(p, td, Timestamps.Format(now)) <==>
      p.tokenDigest == td && p.state == Active && Unexpired(p, now)
  {
    hide Timestamps.Format, Timestamps.Parse, Timestamps.Before, Timestamps.Micros;
    UnexpiredIs(p, now);
    TextPredicateIsInstantPredicate(p, now);
  }

  lemma {:induction false} RowUnder(db: Db, td: TokenDigest)
    requires Unique(db.proposals)
    ensures forall p :: RowByToken(db, td) == Some(p) <==> Under(db, td, p)
  {
    forall p | Under(db, td, p) ensures RowByToken(db, td) == Some(p) {
      var i :| 0 <= i < |db.proposals| && db.proposals[i] == p;
      TokenAt(db.proposals, td, i);
    }
  }

  // Resolving by token, decided by the row that stands under it.
  lemma {:induction false} TokenVerdict(db: Db, td: TokenDigest, expected: Option<Digest>, now: Timestamps.Utc)
    requires Unique(db.proposals) && RowsSane(db.proposals)
    ensures forall p :: Resolve(db, td, expected, now) == Ok(p) <==> Under(db, td, p) && Eligible(p, expected, now)
    ensures Resolve(db, td, expected, now) == Err(UnknownToken) <==> forall p :: !Under(db, td, p)
    ensures Resolve(db, td, expected, now) == Err(InvocationMismatch) <==>
      exists p :: Under(db, td, p) && !Wanted(p, expected)
    ensures Resolve(db, td, expected, now) == Err(AlreadyConsumed) <==>
      exists p :: Under(db, td, p) && Wanted(p, expected) && p.state == Consumed
    ensures Resolve(db, td, expected, now) == Err(Rejection.Expired) <==>
      exists p :: Under(db, td, p) && Wanted(p, expected) && p.state == Active && !Unexpired(p, now)
  {
    RowUnder(db, td);
    hide Under, Wanted, Unexpired, Timestamps.Parse, Timestamps.Before;
    var row := RowByToken(db, td);
    if row.Some? {
      assert RowSane(row.value);
      CheckVerdict(row.value, expected, now);
      assert Under(db, td, row.value);
      assert forall p :: Under(db, td, p) ==> p == row.value;
      hide Check, RowByToken;
    } else {
      assert forall p :: !Under(db, td, p);
    }
  }

  // Fetching by proposal id, likewise.
  lemma {:induction false} IdVerdict(db: Db, id: string, now: Timestamps.Utc)
    requires Unique(db.proposals) && RowsSane(db.proposals)
    ensures forall p :: FetchById(db, id, now) == Ok(p) <==> p in db.proposals && p.id == id && Eligible(p, None, now)
    ensures FetchById(db, id, now) == Err(UnknownToken) <==> forall p :: p in db.proposals ==> p.id != id
    ensures FetchById(db, id, now) == Err(AlreadyConsumed) <==>
      exists p :: p in db.proposals && p.id == id && p.state == Consumed
    ensures FetchById(db, id, now) == Err(Rejection.Expired) <==>
      exists p :: p in db.proposals && p.id == id && p.state == Active && !Unexpired(p, now)
  {
    var row := if id == "" then None else RowById(db, id);
    forall p | p in db.proposals && p.id == id ensures row == Some(p) {
      var i :| 0 <= i < |db.proposals| && db.proposals[i] == p;
      assert RowSane(db.proposals[i]);
      IdAt(db.proposals, id, i);
    }
    hide Unexpired, Timestamps.Parse, Timestamps.Before;
    if row.Some? {
      assert RowSane(row.value);
      CheckVerdict(row.value, None, now);
      assert row.value in db.proposals && row.value.id == id;
      hide Check, RowById;
    }
  }

  /* ---------- What the transactions write ---------- */

  ghost predicate ConsumesExactly(db: Db, next: Db, td: TokenDigest, now: Timestamps.Utc, start: Event) {
    && |next.proposals| == |db.proposals| && |next.approvals| == |db.approvals| && next.bindings == db.bindings
    && (forall i :: 0 <= i < |db.proposals| ==>
          var p := db.proposals[i];
          next.proposals[i] ==
            if p.tokenDigest == td then p.(state := Consumed, consumedAt := Some(Timestamps.Format(now))) else p)
    && (forall i :: 0 <= i < |db.approvals| ==>
          var a := db.approvals[i];
          next.approvals[i] == if a.tokenDigest == td then a.(state := Used) else a)
    && next.log == db.log + [start.(sequence := |db.log| + 1)]
  }

  // The dispatch transaction commits exactly for an eligible token whose start record persists; it
  // consumes that row, spends its approval, appends the record and touches nothing else.
  lemma {:induction false} DispatchVerdict(db: Db, td: TokenDigest, expected: Option<Digest>, now: Timestamps.Utc,
          again: Timestamps.Utc, start: Event, appendOk: bool)
    requires DbInv(db)
    ensures
      var r := Dispatch(db, td, expected, now, again, start, appendOk);
      && (r.Ok? <==> appendOk && exists p :: Under(db, td, p) && Eligible(p, expected, now))
      && (r.Ok? ==> ConsumesExactly(db, r.value, td, now, start))
  {
    assert Unique(db.proposals) && RowsSane(db.proposals) && UniqueApprovals(db.approvals) && Gapless(db.log);
    hide DbInv, Dispatch, Resolve, Under, Eligible, RowsSane, Gapless, ConsumesExactly, Transactions.Dispatched;
    Transactions.DispatchDecided(db, td, expected, now, again, start, appendOk);
    TokenVerdict(db, td, expected, now);
    if Dispatch(db, td, expected, now, again, start, appendOk).Ok? {
      assert Under(db, td, Resolve(db, td, expected, now).value);
      DispatchedExactly(db, td, now, start);
    }
  }

  lemma {:induction false} DispatchedExactly(db: Db, td: TokenDigest, now: Timestamps.Utc, start: Event)
    requires Unique(db.proposals) && UniqueApprovals(db.approvals) && Gapless(db.log)
    requires FindToken(db.proposals, td) < |db.proposals|
    ensures ConsumesExactly(db, Transactions.Dispatched(db, td, now, start), td, now, start)
  {
    hide Timestamps.Format, Gapless;
    AppendGapless(db.log, start);
    assert Append(db.log, start) == db.log + [start.(sequence := |db.log| + 1)];
  }

  function OpenedRow(m: Minted, invocation: Invocation): Proposal {
    Proposal(m.id, invocation, InvocationSha(invocation), m.tokenDigest, Timestamps.Format(m.now),
      Timestamps.Format(m.expiry), Active, None)
  }

  function OpenedBindings(m: Minted, invocation: Invocation, template: Option<BindingTemplate>): seq<BindingRow> {
    if template.None? then []
    else
      var document := BindingDocument(m.id, InvocationSha(invocation), template.value);
      [BindingRow(m.id, BindingSha(document), document)]
  }

  // Opening needs a positive time to live, an unused token and id, and an event that persists; it
  // then adds one row, its binding if it has one, and one event.
  lemma {:induction false} OpenVerdict(db: Db, m: Minted, invocation: Invocation, template: Option<BindingTemplate>,
          appendOk: bool)
    requires DbInv(db)
    ensures TtlPositive(m) <==> Timestamps.Micros(m.now) < Timestamps.Micros(m.expiry)
    ensures TtlPositive(m) ==>
      var r := OpenProposal(db, m, invocation, template, appendOk);
      var unused := (forall p :: p in db.proposals ==> p.id != m.id && p.tokenDigest != m.tokenDigest)
        && (template.Some? ==> forall b :: b in db.bindings ==> b.proposalId != m.id);
      && (r == Err(DuplicateKey) <==> !unused) && (r == Err(WriteFailed) <==> unused && !appendOk)
      && (r.Ok? <==> unused && appendOk)
      && (r.Ok? ==> r.value == Db(db.proposals + [OpenedRow(m, invocation)],
                                  db.bindings + OpenedBindings(m, invocation, template), db.approvals,
                                  db.log + [Event(|db.log| + 1, ProposalOpened, None, "", None, None, None, "")]))
  {
    assert Gapless(db.log);
    hide DbInv, Timestamps.Before, Timestamps.Micros, Timestamps.Format, Gapless;
    Timestamps.BeforeIsChronological(m.now, m.expiry);
    AppendGapless(db.log, ProposalEvent(m.id));
    assert Append(db.log, ProposalEvent(m.id))
           == db.log + [Event(|db.log| + 1, ProposalOpened, None, "", None, None, None, "")];
    hide Append;
  }

  function ApprovalFor(approvalId: string, operator: string, p: Proposal, bound: Option<Digest>): Approval {
    Approval(approvalId, p.tokenDigest, p.id, operator, InvocationSha(p.invocation), p.invocation.revisionHash,
      p.expiresAt, bound, Recorded)
  }

  // The digest of the binding stored for a proposal.
  ghost predicate Bound(db: Db, id: string, bound: Option<Digest>) {
    match bound
    case Some(d) => exists b :: b in db.bindings && b.proposalId == id && d == BindingSha(b.document)
    case None => forall b :: b in db.bindings ==> b.proposalId != id
  }

  // One approval more, of this proposal and the binding stored for it.
  ghost predicate Adds(db: Db, next: Db, approvalId: string, operator: string, p: Proposal, bound: Option<Digest>) {
    && Bound(db, p.id, bound)
    && next == db.(approvals := db.approvals + [ApprovalFor(approvalId, operator, p, bound)])
  }

  lemma {:induction false} BindingIsBound(db: Db, id: string)
    requires BindingsSane(db.bindings)
    ensures
      var b := FetchBinding(db, id);
      Bound(db, id, if b.Some? then Some(b.value.digest) else None)
  {
    var b := FetchBinding(db, id);
    if b.Some? {
      assert BindingSane(b.value) && b.value in db.bindings;
    }
  }

  ghost predicate Unapproved(db: Db, td: TokenDigest) {
    forall a :: a in db.approvals ==> a.tokenDigest != td
  }

  // An approval is recorded exactly for an eligible proposal without one, and says which
  // invocation, revision, expiry and binding the operator approved.
  lemma {:induction false} ApproveVerdict(db: Db, td: TokenDigest, approvalId: string, operator: string,
          now: Timestamps.Utc)
    requires DbInv(db)
    ensures
      var r := RecordApproval(db, td, approvalId, operator, now);
      && (r.Ok? <==> Unapproved(db, td) && exists p :: Under(db, td, p) && Eligible(p, None, now))
      && (r == Err(ApprovalAlreadyRecorded) <==>
            !Unapproved(db, td) && exists p :: Under(db, td, p) && Eligible(p, None, now))
      && (r.Ok? ==> exists p, bound ::
            Under(db, td, p) && Eligible(p, None, now) && Adds(db, r.value, approvalId, operator, p, bound))
  {
    assert Unique(db.proposals) && RowsSane(db.proposals) && BindingsSane(db.bindings);
    hide DbInv, Resolve, Under, Eligible, Bound, BindingsSane, FetchBinding, RowsSane, Adds, Unapproved, InsertApproval,
         NewApproval;
    TokenVerdict(db, td, None, now);
    if Resolve(db, td, None, now).Ok? {
      var p := Resolve(db, td, None, now).value;
      assert p in db.proposals && p.tokenDigest == td && RowSane(p) by {
        SaneUnder(db, td, p);
      }
      InsertVerdict(db, approvalId, operator, p);
      assert forall q :: Under(db, td, q) && Eligible(q, None, now) ==> q == p;
    }
  }

  lemma {:induction false} NoneBound(db: Db, id: string)
    ensures Bound(db, id, None) <==> FetchBinding(db, id).None?
  {
    var b := FetchBinding(db, id);
    assert b.Some? ==> b.value in db.bindings;
  }

  lemma {:induction false} InsertVerdict(db: Db, approvalId: string, operator: string, p: Proposal)
    requires BindingsSane(db.bindings) && p.digest == InvocationSha(p.invocation)
    ensures
      var b := FetchBinding(db, p.id);
      var r := InsertApproval(db, NewApproval(approvalId, operator, p, b));
      && r == (if Unapproved(db, p.tokenDigest) then Ok(r.value) else Err(ApprovalAlreadyRecorded))
      && (r.Ok? ==> Adds(db, r.value, approvalId, operator, p, if b.Some? then Some(b.value.digest) else None))
  {
    hide Bound, BindingsSane, FetchBinding;
    BindingIsBound(db, p.id);
    if FetchApproval(db, p.tokenDigest).Some? {
      assert FetchApproval(db, p.tokenDigest).value in db.approvals;
    }
  }

  lemma {:induction false} SaneRow(db: Db, p: Proposal)
    requires RowsSane(db.proposals) && p in db.proposals
    ensures p.digest == InvocationSha(p.invocation)
  {
    var i :| 0 <= i < |db.proposals| && db.proposals[i] == p;
    assert RowSane(db.proposals[i]);
  }

  lemma {:induction false} SaneUnder(db: Db, td: TokenDigest, p: Proposal)
    requires RowsSane(db.proposals) && Under(db, td, p)
    ensures p in db.proposals && p.tokenDigest == td && RowSane(p)
  {
  }

  // By proposal id the same, and only for a proposal with a binding.
  lemma {:induction false} ApproveByIdVerdict(db: Db, id: string, approvalId: string, operator: string,
          now: Timestamps.Utc)
    requires DbInv(db)
    ensures
      var r := RecordApprovalById(db, id, approvalId, operator, now);
      && (r == Err(LegacyProposal) <==>
            Bound(db, id, None) && exists p :: p in db.proposals && p.id == id && Eligible(p, None, now))
      && (r.Ok? <==> !Bound(db, id, None) && exists p ::
            p in db.proposals && p.id == id && Eligible(p, None, now) && Unapproved(db, p.tokenDigest))
      && (r.Ok? ==> exists p, bound: Digest ::
            p in db.proposals && p.id == id && Eligible(p, None, now)
            && Adds(db, r.value, approvalId, operator, p, Some(bound)))
  {
    assert Unique(db.proposals) && RowsSane(db.proposals) && BindingsSane(db.bindings);
    hide DbInv, FetchById, Eligible, BindingsSane, RowsSane, Adds, Unapproved, InsertApproval, NewApproval, Bound;
    IdVerdict(db, id, now);
    NoneBound(db, id);
    if FetchById(db, id, now).Ok? {
      var p := FetchById(db, id, now).value;
      SaneRow(db, p);
      InsertVerdict(db, approvalId, operator, p);
      assert forall q :: q in db.proposals && q.id == id && Eligible(q, None, now) ==> q == p;
    }
  }

  // The proposal under this id can be approved, but for an approval it may already have.
  ghost predicate Approvable(db: Db, id: string, now: Timestamps.Utc, unapproved: bool) {
    && !Bound(db, id, None)
    && exists p :: p in db.proposals && p.id == id && Eligible(p, None, now) &&
         (Unapproved(db, p.tokenDigest) <==> unapproved)
  }

  lemma {:induction false} ApproveByIdRejected(db: Db, id: string, approvalId: string, operator: string,
          now: Timestamps.Utc)
    requires DbInv(db)
    ensures
      var r := RecordApprovalById(db, id, approvalId, operator, now);
      && (r.Ok? <==> Approvable(db, id, now, true))
      && (r == Err(ApprovalAlreadyRecorded) <==> Approvable(db, id, now, false))
      && (r == Err(Rejection.Expired) <==>
            exists p :: p in db.proposals && p.id == id && p.state == Active && !Unexpired(p, now))
      && (r.Err? ==> r.error in {UnknownToken, InvocationMismatch, AlreadyConsumed, Rejection.Expired, LegacyProposal,
                                 ApprovalAlreadyRecorded})
  {
    assert Unique(db.proposals) && RowsSane(db.proposals) && BindingsSane(db.bindings);
    hide DbInv, FetchById, Eligible, BindingsSane, RowsSane, Adds, Unapproved, InsertApproval, NewApproval, Bound,
         Unexpired;
    IdVerdict(db, id, now);
    FetchErrors(db, id, now);
    NoneBound(db, id);
    if FetchById(db, id, now).Ok? {
      var p := FetchById(db, id, now).value;
      SaneRow(db, p);
      InsertVerdict(db, approvalId, operator, p);
      assert forall q :: q in db.proposals && q.id == id && Eligible(q, None, now) ==> q == p;
    }
  }

  lemma {:induction false} FetchErrors(db: Db, id: string, now: Timestamps.Utc)
    ensures
      var r := FetchById(db, id, now);
      r.Err? ==> r.error in {UnknownToken, InvocationMismatch, AlreadyConsumed, Rejection.Expired}
  {
    hide Timestamps.Parse, Timestamps.Before;
  }

  /* ---------- Verifying an approval ---------- */

  // The approval is of this very proposal as it stands, and of the binding stored for it.
  ghost predicate ApprovesStored(db: Db, a: Approval, p: Proposal) {
    && a.proposalId == p.id && a.invocationDigest == p.digest && a.revisionHash == p.invocation.revisionHash
    && a.expiresAt == p.expiresAt
    && exists b :: b in db.bindings && b.proposalId == p.id && a.bindingDigest == Some(b.digest)
  }

  lemma {:induction false} BindingStored(db: Db, a: Approval, p: Proposal)
    requires UniqueBindings(db.bindings)
    ensures ApprovesStored(db, a, p) <==>
              VerifyProposal(a, Ok(p)).None? && VerifyBinding(a, FetchBinding(db, p.id)).None?
  {
    if b :| b in db.bindings && b.proposalId == p.id && a.bindingDigest == Some(b.digest) {
      var i :| 0 <= i < |db.bindings| && db.bindings[i] == b;
      assert FindBinding(db.bindings, p.id) == i;
    }
    var row := FetchBinding(db, p.id);
    if row.Some? {
      assert row.value in db.bindings;
    }
  }

  // A verification succeeds exactly for the configured operator, with an unspent approval of
  // theirs on file for this token, of an eligible proposal and its stored binding.
  lemma {:induction false} VerifyVerdict(db: Db, td: TokenDigest, operator: string, presented: string,
          now: Timestamps.Utc, a: Approval)
    requires DbInv(db)
    ensures Services.VerifyApproval(db, td, operator, presented, now) == Ok(a) <==>
      && presented == operator
      && a in db.approvals && a.tokenDigest == td && a.operator == operator && a.state == Recorded
      && exists p :: Under(db, td, p) && Eligible(p, None, now) && ApprovesStored(db, a, p)
  {
    assert Unique(db.proposals) && RowsSane(db.proposals) && UniqueApprovals(db.approvals)
           && UniqueBindings(db.bindings);
    hide DbInv, Resolve, Under, Eligible, ApprovesStored, FetchBinding, RowsSane, VerifyProposal, VerifyBinding;
    TokenVerdict(db, td, None, now);
    ApprovalOnFile(db, td);
    hide FetchApproval;
    var row, live := FetchApproval(db, td), Resolve(db, td, None, now);
    if row.Some? {
      FailedLive(row.value, live);
      if live.Ok? {
        BindingStored(db, row.value, live.value);
      }
    }
  }

  lemma {:induction false} ApprovalOnFile(db: Db, td: TokenDigest)
    requires UniqueApprovals(db.approvals)
    ensures forall x :: FetchApproval(db, td) == Some(x) <==> x in db.approvals && x.tokenDigest == td
  {
    forall x | x in db.approvals && x.tokenDigest == td ensures FetchApproval(db, td) == Some(x) {
      var i :| 0 <= i < |db.approvals| && db.approvals[i] == x;
    }
  }

  // And it is refused by the first of these that applies.
  lemma {:induction false} VerifyRejected(db: Db, td: TokenDigest, operator: string, presented: string,
          now: Timestamps.Utc)
    requires DbInv(db)
    ensures Services.VerifyApproval(db, td, operator, presented, now) == Err(OperatorMismatch) <==>
      presented != operator || exists x :: x in db.approvals && x.tokenDigest == td && x.operator != operator
    ensures Services.VerifyApproval(db, td, operator, presented, now) == Err(HostSupplied) <==>
      presented == operator && Unapproved(db, td)
    ensures Services.VerifyApproval(db, td, operator, presented, now) == Err(ApprovalReplayed) <==>
      presented == operator
      && exists x :: x in db.approvals && x.tokenDigest == td && x.operator == operator && x.state == Used
  {
    assert UniqueApprovals(db.approvals);
    hide DbInv, Resolve, FetchBinding, VerifyProposal, VerifyBinding;
    ApprovalOnFile(db, td);
    hide FetchApproval;
    var row, live := FetchApproval(db, td), Resolve(db, td, None, now);
    ResolveErrors(db, td, now);
    if row.Some? {
      FailedLive(row.value, live);
      BindingFault(row.value, if live.Ok? then FetchBinding(db, live.value.id) else None);
    }
  }

  lemma {:induction false} FailedLive(a: Approval, live: Result<Proposal, Rejection>)
    ensures live.Err? ==> VerifyProposal(a, live) == Some(live.error)
    ensures live.Ok? ==> VerifyProposal(a, live) in {None, Some(InvocationMismatch)}
  {
  }

  lemma {:induction false} BindingFault(a: Approval, b: Option<BindingRow>)
    ensures VerifyBinding(a, b) in {None, Some(InvocationMismatch)}
  {
  }

  lemma {:induction false} ResolveErrors(db: Db, td: TokenDigest, now: Timestamps.Utc)
    ensures
      var r := Resolve(db, td, None, now);
      r.Err? ==> r.error in {UnknownToken, InvocationMismatch, AlreadyConsumed, Rejection.Expired}
  {
    hide Timestamps.Parse, Timestamps.Before;
  }
}
