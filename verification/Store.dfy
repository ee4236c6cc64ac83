// The database file as an object: four tables, one open transaction at most, the statements the
// services run on it, and the audit log that appends to it.
module Store {
  import opened Wrappers
  import opened Domain
  import opened Records
  import opened Integrity
  import Transactions

  class Database {
    var proposals: seq<Proposal>
    var bindings: seq<BindingRow>
    var approvals: seq<Approval>
    var log: seq<Event>
    var saved: Option<Db>   // what a rollback restores, while a transaction is open

    function Contents(): Db
      reads this
    {
      Db(proposals, bindings, approvals, log)
    }

    // The UNIQUE constraints, which the engine enforces on every insert.
    ghost predicate Valid()
      reads this
    {
      && Unique(proposals) && UniqueBindings(bindings) && UniqueApprovals(approvals)
      && (saved.Some? ==>
          Unique(saved.value.proposals) && UniqueBindings(saved.value.bindings) &&
          UniqueApprovals(saved.value.approvals))
    }

    constructor ()
      ensures Valid() && Contents() == EMPTY && saved.None?
    {
      proposals, bindings, approvals, log, saved := [], [], [], [], None;
    }

    method Begin()
      requires Valid() && saved.None?
      modifies this`saved
      ensures Valid() && saved == Some(Contents())
    {
      saved := Some(Contents());
    }

    method Commit()
      requires Valid() && saved.Some?
      modifies this`saved
      ensures Valid() && saved.None?
    {
      saved := None;
    }

    method Rollback()
      requires Valid() && saved.Some?
      modifies this
      ensures Valid() && saved.None? && Contents() == old(saved.value)
    {
      var before := saved.value;
      proposals, bindings, approvals, log := before.proposals, before.bindings, before.approvals, before.log;
      saved := None;
    }

    // An insert that would repeat a key fails and inserts nothing.
    method InsertProposal(row: Proposal) returns (ok: bool)
      requires Valid()
      modifies this`proposals
      ensures Valid()
      ensures ok <==> RowByToken(old(Contents()), row.tokenDigest).None? && RowById(old(Contents()), row.id).None?
      ensures proposals == old(proposals) + if ok then [row] else []
    {
      ok := FindToken(proposals, row.tokenDigest) == |proposals| && FindId(proposals, row.id) == |proposals|;
      if ok {
        proposals := proposals + [row];
      }
    }

    method InsertBinding(row: BindingRow) returns (ok: bool)
      requires Valid()
      modifies this`bindings
      ensures Valid()
      ensures ok <==> FetchBinding(old(Contents()), row.proposalId).None?
      ensures bindings == old(bindings) + if ok then [row] else []
    {
      ok := FindBinding(bindings, row.proposalId) == |bindings|;
      if ok {
        bindings := bindings + [row];
      }
    }

    method InsertApproval(row: Approval) returns (ok: bool)
      requires Valid()
      modifies this`approvals
      ensures Valid()
      ensures ok <==> FetchApproval(old(Contents()), row.tokenDigest).None?
      ensures approvals == old(approvals) + if ok then [row] else []
    {
      ok := FindApproval(approvals, row.tokenDigest) == |approvals|;
      if ok {
        approvals := approvals + [row];
      }
    }

    // The consuming UPDATE; the count is the engine's row count.
    method ConsumeWhere(td: TokenDigest, nowText: string) returns (count: nat)
      requires Valid()
      modifies this`proposals
      ensures Valid()
      ensures proposals == UpdateRows(old(proposals), td, nowText)
      ensures count == UpdateCount(old(proposals), td, nowText)
      ensures count == 0 ==> proposals == old(proposals)
    {
      hide UpdateHits, Unique, UniqueBindings, UniqueApprovals;
      var before := proposals;
      var done: seq<Proposal> := [];
      count := 0;
      for i := 0 to |before|
        invariant proposals == before && |done| == i
        invariant forall k :: 0 <= k < i ==> done[k] == UpdatedRow(before[k], td, nowText)
        invariant count + UpdateCount(before[i..], td, nowText) == UpdateCount(before, td, nowText)
      {
        assert before[i..][0] == before[i] && before[i..][1..] == before[i + 1..];
        if UpdateHits(before[i], td, nowText) {
          count := count + 1;
        }
        done := done + [UpdatedRow(before[i], td, nowText)];
      }
      assert before[|before|..] == [];
      UpdateRowsAt(before, td, nowText);
      assert done == UpdateRows(before, td, nowText);
      KeysKept(before, done, td, nowText);
      if count == 0 {
        NothingHit(before, td, nowText);
      }
      proposals := done;
    }

    method MarkUsed(td: TokenDigest) returns (hit: bool)
      requires Valid()
      modifies this`approvals
      ensures Valid()
      ensures
        var a := FindApproval(old(approvals), td);
        && (hit <==> a < |old(approvals)| && old(approvals)[a].state == Recorded)
        && approvals == if hit then old(approvals)[a := old(approvals)[a].(state := Used)] else old(approvals)
    {
      var a := FindApproval(approvals, td);
      hit := a < |approvals| && approvals[a].state == Recorded;
      if hit {
        approvals := approvals[a := approvals[a].(state := Used)];
      }
    }

    // SELECT MAX(sequence) + 1, then INSERT, inside the caller's transaction.
    method AppendOn(e: Event, persists: bool) returns (ok: bool)
      requires Valid()
      modifies this`log
      ensures Valid() && ok == persists
      ensures log == if ok then Append(old(log), e) else old(log)
    {
      ok := persists;
      if ok {
        var last := 0;
        for i := 0 to |log|
          invariant log == old(log) && last == MaxSequence(log[..i])
        {
          assert log[..i + 1][..i] == log[..i];
          last := if log[i].sequence > last then log[i].sequence else last;
        }
        assert log[..|log|] == log;
        log := log + [e.(sequence := last + 1)];
      }
    }
  }

  function UpdatedRow(p: Proposal, td: TokenDigest, text: string): Proposal {
    if UpdateHits(p, td, text) then p.(state := Consumed, consumedAt := Some(text)) else p
  }

  lemma {:induction false} KeysKept(a: seq<Proposal>, b: seq<Proposal>, td: TokenDigest, text: string)
    requires Unique(a) && |a| == |b| && forall k :: 0 <= k < |a| ==> b[k] == UpdatedRow(a[k], td, text)
    ensures Unique(b)
  {
    hide UpdateHits;
    assert forall k :: 0 <= k < |a| ==> b[k].tokenDigest == a[k].tokenDigest && b[k].id == a[k].id;
  }

  lemma {:induction false} NothingHit(rows: seq<Proposal>, td: TokenDigest, text: string)
    requires UpdateCount(rows, td, text) == 0
    ensures UpdateRows(rows, td, text) == rows
  {
    hide UpdateHits;
    if rows == [] {
    } else {
      NothingHit(rows[1..], td, text);
      assert rows == [rows[0]] + rows[1..];
    }
  }

  function AfterAttempt(before: Db, r: Result<Db, Rejection>): Db {
    if r.Ok? then r.value else before
  }

  /* ---------- AuditLog ---------- */

  class AuditLog {
    const db: Database

    constructor (db: Database)
      ensures this.db == db
    {
      this.db := db;
    }

    // A standalone append is its own transaction.
    method Record(e: Event, persists: bool) returns (ok: bool)
      requires db.Valid() && db.saved.None?
      modifies db
      ensures db.Valid() && db.saved.None? && ok == persists
      ensures db.Contents() == if ok then Transactions.WithEvent(old(db.Contents()), e) else old(db.Contents())
    {
      db.Begin();
      ok := db.AppendOn(e, persists);
      if ok {
        db.Commit();
      } else {
        db.Rollback();
      }
    }

    // Several events recorded in one transaction: all of them or none.
    method RecordAll(es: seq<Event>, persists: seq<bool>) returns (ok: bool)
      requires db.Valid() && db.saved.None? && |persists| == |es|
      modifies db
      ensures db.Valid() && db.saved.None?
      ensures ok <==> forall k :: 0 <= k < |es| ==> persists[k]
      ensures db.Contents() == if ok then old(db.Contents()).(log := AppendAll(old(db.log), es)) else old(db.Contents())
    {
      var before := db.Contents();
      db.Begin();
      for i := 0 to |es|
        invariant db.Valid() && db.saved == Some(before)
        invariant forall k :: 0 <= k < i ==> persists[k]
        invariant db.Contents() == before.(log := db.log)
        invariant AppendAll(db.log, es[i..]) == AppendAll(before.log, es)
      {
        var appended := db.AppendOn(es[i], persists[i]);
        if !appended {
          db.Rollback();
          return false;
        }
        assert es[i..][0] == es[i] && es[i..][1..] == es[i + 1..];
      }
      db.Commit();
      ok := true;
    }
  }
}
