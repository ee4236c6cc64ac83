// What every committed transaction keeps true of the database, and how far it may change it.
module Integrity {
  import opened Wrappers
  import opened Domain
  import opened Records
  import Text
  import Timestamps

  /* ---------- The database invariant ---------- */

  ghost predicate Unique(rows: seq<Proposal>) {
    forall i, j :: 0 <= i < j < |rows| ==> rows[i].tokenDigest != rows[j].tokenDigest && rows[i].id != rows[j].id
  }

  ghost predicate UniqueBindings(rows: seq<BindingRow>) {
    forall i, j :: 0 <= i < j < |rows| ==> rows[i].proposalId != rows[j].proposalId
  }

  ghost predicate UniqueApprovals(rows: seq<Approval>) {
    forall i, j :: 0 <= i < j < |rows| ==> rows[i].tokenDigest != rows[j].tokenDigest
  }

  ghost predicate Canonical(text: string) {
    Timestamps.Parse(text).Some? && Timestamps.Format(Timestamps.Parse(text).value) == text
  }

  // The frozen digest is that of the stored invocation, the timestamps are canonical text, and a
  // consumed row was consumed strictly before its expiry.
  ghost predicate RowSane(p: Proposal) {
    && p.id != ""
    && p.digest == InvocationSha(p.invocation)
    && Canonical(p.expiresAt)
    && (p.state == Active <==> p.consumedAt.None?)
    && (p.consumedAt.Some? ==> Canonical(p.consumedAt.value) && Text.Less(p.consumedAt.value, p.expiresAt))
  }

  ghost predicate RowsSane(rows: seq<Proposal>) {
    forall i :: 0 <= i < |rows| ==> RowSane(rows[i])
  }

  ghost predicate BindingSane(b: BindingRow) {
    && b.digest == BindingSha(b.document)
    && b.document.proposalId == b.proposalId
  }

  ghost predicate BindingsSane(rows: seq<BindingRow>) {
    forall i :: 0 <= i < |rows| ==> BindingSane(rows[i])
  }

  // An approval copies its proposal's immutable fields; it is spent exactly when the token is.
  ghost predicate ApprovalFits(a: Approval, p: Proposal) {
    && a.proposalId == p.id
    && a.invocationDigest == p.digest
    && a.revisionHash == p.invocation.revisionHash
    && a.expiresAt == p.expiresAt
    && (a.state == Used <==> p.state == Consumed)
  }

  ghost predicate HasRow(rows: seq<Proposal>, td: TokenDigest) {
    exists i :: 0 <= i < |rows| && rows[i].tokenDigest == td
  }

  ghost predicate ApprovalsFit(approvals: seq<Approval>, rows: seq<Proposal>) {
    && (forall a :: 0 <= a < |approvals| ==> HasRow(rows, approvals[a].tokenDigest))
    && (forall a, i :: 0 <= a < |approvals| && 0 <= i < |rows| && approvals[a].tokenDigest == rows[i].tokenDigest
          ==> ApprovalFits(approvals[a], rows[i]))
  }

  ghost predicate Gapless(log: seq<Event>) {
    forall j :: 0 <= j < |log| ==> log[j].sequence == j + 1
  }

  predicate IsStart(e: Event, id: string) {
    e.kind == ExecutionStart && e.proposalRef == Some(id)
  }

  ghost predicate HasStart(log: seq<Event>, id: string) {
    exists j :: 0 <= j < |log| && IsStart(log[j], id)
  }

  ghost predicate StartsUnique(log: seq<Event>) {
    && (forall j :: 0 <= j < |log| && log[j].kind == ExecutionStart ==> log[j].proposalRef.Some?)
    && (forall j, k :: 0 <= j < k < |log| && log[j].kind == ExecutionStart && log[k].kind == ExecutionStart
          ==> log[j].proposalRef != log[k].proposalRef)
  }

  // A proposal has a start record exactly when it is consumed.
  ghost predicate StartsFit(log: seq<Event>, rows: seq<Proposal>) {
    && StartsUnique(log)
    && (forall i :: 0 <= i < |rows| ==> (rows[i].state == Consumed <==> HasStart(log, rows[i].id)))
    && (forall j :: 0 <= j < |log| && log[j].kind == ExecutionStart ==>
          exists i :: 0 <= i < |rows| && log[j].proposalRef == Some(rows[i].id))
  }

  ghost predicate DbInv(db: Db) {
    && Unique(db.proposals)
    && RowsSane(db.proposals)
    && UniqueBindings(db.bindings)
    && BindingsSane(db.bindings)
    && UniqueApprovals(db.approvals)
    && ApprovalsFit(db.approvals, db.proposals)
    && Gapless(db.log)
    && StartsFit(db.log, db.proposals)
  }

  /* ---------- How the database may grow ---------- */

  // Everything but the one-way consumption mark is immutable.
  ghost predicate RowKept(old_: Proposal, new_: Proposal) {
    && new_ == old_.(state := new_.state, consumedAt := new_.consumedAt)
    && (old_.state == Consumed ==> new_ == old_)
  }

  ghost predicate ApprovalKept(old_: Approval, new_: Approval) {
    && new_ == old_.(state := new_.state)
    && (old_.state == Used ==> new_ == old_)
  }

  ghost predicate RowsGrow(a: seq<Proposal>, b: seq<Proposal>) {
    |a| <= |b| && forall i :: 0 <= i < |a| ==> RowKept(a[i], b[i])
  }

  ghost predicate ApprovalsGrow(a: seq<Approval>, b: seq<Approval>) {
    |a| <= |b| && forall i :: 0 <= i < |a| ==> ApprovalKept(a[i], b[i])
  }

  // Rows and approvals only advance, bindings and log are extended at the end.
  ghost predicate Grows(a: Db, b: Db) {
    RowsGrow(a.proposals, b.proposals) && ApprovalsGrow(a.approvals, b.approvals) && a.bindings <= b.bindings
        && a.log <= b.log
  }

  lemma {:induction false} GrowsReflexive(a: Db)
    ensures Grows(a, a)
  {
  }

  lemma {:induction false} GrowsTransitive(a: Db, b: Db, c: Db)
    requires Grows(a, b) && Grows(b, c)
    ensures Grows(a, c)
  {
    forall i | 0 <= i < |a.proposals| ensures RowKept(a.proposals[i], c.proposals[i]) {
      assert RowKept(a.proposals[i], b.proposals[i]) && RowKept(b.proposals[i], c.proposals[i]);
    }
    forall i | 0 <= i < |a.approvals| ensures ApprovalKept(a.approvals[i], c.approvals[i]) {
      assert ApprovalKept(a.approvals[i], b.approvals[i]) && ApprovalKept(b.approvals[i], c.approvals[i]);
    }
  }

  /* ---------- The audit log ---------- */

  lemma {:induction false} MaxIsLength(log: seq<Event>)
    requires Gapless(log)
    ensures MaxSequence(log) == |log|
  {
    if log == [] {
    } else {
      MaxIsLength(log[..|log| - 1]);
    }
  }

  lemma {:induction false} AppendGapless(log: seq<Event>, e: Event)
    requires Gapless(log)
    ensures Gapless(Append(log, e)) && log <= Append(log, e) && |Append(log, e)| == |log| + 1
    ensures Append(log, e)[|log|] == e.(sequence := |log| + 1)
  {
    MaxIsLength(log);
  }

  // A transaction that appends any number of events leaves no gap, reuses no sequence number
  // and rewrites nothing.
  lemma {:induction false} AppendAllGapless(log: seq<Event>, es: seq<Event>)
    requires Gapless(log)
    ensures Gapless(AppendAll(log, es)) && log <= AppendAll(log, es) && |AppendAll(log, es)| == |log| + |es|
    ensures forall k :: 0 <= k < |es| ==> AppendAll(log, es)[|log| + k] == es[k].(sequence := |log| + k + 1)
    decreases |es|
  {
    if es == [] {
    } else {
      AppendGapless(log, es[0]);
      var next := Append(log, es[0]);
      AppendAllGapless(next, es[1..]);
      var all := AppendAll(next, es[1..]);
      forall k | 0 <= k < |es| ensures all[|log| + k] == es[k].(sequence := |log| + k + 1) {
        if k == 0 {
          assert all[|log|] == next[|log|];
        } else {
          assert es[1..][k - 1] == es[k];
        }
      }
    }
  }

  lemma {:induction false} StartsFitAppendOther(log: seq<Event>, rows: seq<Proposal>, e: Event)
    requires Gapless(log) && StartsFit(log, rows) && e.kind != ExecutionStart
    ensures StartsFit(Append(log, e), rows)
  {
    AppendGapless(log, e);
    var next := Append(log, e);
    forall i | 0 <= i < |rows| ensures HasStart(next, rows[i].id) <==> HasStart(log, rows[i].id) {
      HasStartAppend(log, e, rows[i].id);
    }
  }

  lemma {:induction false} HasStartAppend(log: seq<Event>, e: Event, id: string)
    requires Gapless(log)
    ensures HasStart(Append(log, e), id) <==> HasStart(log, id) || IsStart(e, id)
  {
    AppendGapless(log, e);
    var next := Append(log, e);
    if HasStart(log, id) {
      var j :| 0 <= j < |log| && IsStart(log[j], id);
      assert IsStart(next[j], id);
    }
    if IsStart(e, id) {
      assert IsStart(next[|log|], id);
    }
    if HasStart(next, id) {
      var j :| 0 <= j < |next| && IsStart(next[j], id);
      if j < |log| {
        assert IsStart(log[j], id);
      }
    }
  }

  /* ---------- The compare-and-swap ---------- */

  lemma {:induction false} UpdateRowsAt(rows: seq<Proposal>, td: TokenDigest, text: string)
    ensures forall i :: 0 <= i < |rows| ==>
              UpdateRows(rows, td, text)[i] ==
              if UpdateHits(rows[i], td, text) then rows[i].(state := Consumed, consumedAt := Some(text)) else rows[i]
  {
    if rows == [] {
    } else {
      UpdateRowsAt(rows[1..], td, text);
    }
  }

  lemma {:induction false} UpdateCountOne(rows: seq<Proposal>, td: TokenDigest, text: string, i: nat)
    requires i < |rows| && UpdateHits(rows[i], td, text)
    requires forall k :: 0 <= k < |rows| && k != i ==> rows[k].tokenDigest != td
    ensures UpdateCount(rows, td, text) == 1
  {
    if i == 0 {
      UpdateCountZero(rows[1..], td, text);
    } else {
      UpdateCountOne(rows[1..], td, text, i - 1);
    }
  }

  lemma {:induction false} UpdateCountZero(rows: seq<Proposal>, td: TokenDigest, text: string)
    requires forall k :: 0 <= k < |rows| ==> rows[k].tokenDigest != td
    ensures UpdateCount(rows, td, text) == 0
  {
    if rows == [] {
    } else {
      UpdateCountZero(rows[1..], td, text);
    }
  }

  lemma {:induction false} TokenAt(rows: seq<Proposal>, td: TokenDigest, i: nat)
    requires Unique(rows) && i < |rows| && rows[i].tokenDigest == td
    ensures FindToken(rows, td) == i
  {
    var k := FindToken(rows, td);
  }

  lemma {:induction false} IdAt(rows: seq<Proposal>, id: string, i: nat)
    requires Unique(rows) && i < |rows| && rows[i].id == id
    ensures FindId(rows, id) == i
  {
    var k := FindId(rows, id);
  }

  function ConsumedRow(p: Proposal, now: Timestamps.Utc): Proposal
  {
    p.(state := Consumed, consumedAt := Some(Timestamps.Format(now)))
  }

  // The text predicate of the UPDATE and the instant predicate of the check are the same test.
  lemma {:induction false} TextPredicateIsInstantPredicate(p: Proposal, now: Timestamps.Utc)
    requires RowSane(p)
    ensures Text.Less(Timestamps.Format(now), p.expiresAt)
        <==> Timestamps.Before(now, Timestamps.Parse(p.expiresAt).value)
  {
    Timestamps.FormatOrder(now, Timestamps.Parse(p.expiresAt).value);
  }

  lemma {:induction false} UpdateHitsOne(rows: seq<Proposal>, td: TokenDigest, text: string, i: nat)
    requires Unique(rows) && i < |rows| && UpdateHits(rows[i], td, text)
    ensures UpdateCount(rows, td, text) == 1
    ensures UpdateRows(rows, td, text) == rows[i := rows[i].(state := Consumed, consumedAt := Some(text))]
  {
    UpdateCountOne(rows, td, text, i);
    UpdateRowsAt(rows, td, text);
  }

  lemma {:induction false} SwapRowDecided(db: Db, td: TokenDigest, text: string, first: Option<Rejection>,
          second: Option<Rejection>)
    requires Unique(db.proposals)
    requires first.None? ==> FindToken(db.proposals, td) < |db.proposals|
                             && UpdateHits(db.proposals[FindToken(db.proposals, td)], td, text)
    ensures
      var i := FindToken(db.proposals, td);
      SwapRow(db, td, text, first, second) ==
        if first.Some? then Err(first.value)
        else Ok(db.(proposals := db.proposals[i := db.proposals[i].(state := Consumed, consumedAt := Some(text))]))
  {
    if first.None? {
      UpdateHitsOne(db.proposals, td, text, FindToken(db.proposals, td));
    }
  }

  // After the check the swap hits exactly the one row; the branch that re-checks is never taken.
  lemma {:induction false} SwapDecidedByCheck(db: Db, td: TokenDigest, expected: Option<Digest>, now: Timestamps.Utc,
          again: Timestamps.Utc)
    requires Unique(db.proposals) && RowsSane(db.proposals)
    ensures
      var verdict := Check(RowByToken(db, td), expected, now);
      var i := FindToken(db.proposals, td);
      Swap(db, td, expected, now, again) ==
        if verdict.Some? then Err(verdict.value)
        else Ok(db.(proposals := db.proposals[i := ConsumedRow(db.proposals[i], now)]))
    ensures Swap(db, td, expected, now, again) != Err(DidNotApply)
  {
    hide Timestamps.Format, Timestamps.Parse;
    var row := RowByToken(db, td);
    var first, second := Check(row, expected, now), Check(row, expected, again);
    if first.None? {
      TextPredicateIsInstantPredicate(row.value, now);
    }
    SwapRowDecided(db, td, Timestamps.Format(now), first, second);
  }
}
