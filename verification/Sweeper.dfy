// Startup housekeeping: closing the starts of dead owners in the audit log, and removing the
// staging directories they left behind.
module Sweeper {
  import opened Wrappers
  import opened Text
  import opened Records
  import opened Integrity
  import opened OwnerLocks
  import opened Owners
  import opened Store
  import Recovery

  /* ---------- reconcile_interrupted_executions ---------- */

  datatype Finding = Recovered | Unresolved(verdict: Verdict)

  datatype Reconciliation = Reconciliation(owner: string, proposalRef: Option<string>, finding: Finding)

  function VerdictsOf(t: Table): string -> Verdict {
    (o: string) => VerdictNow(t, o)
  }

  function LineOf(log: seq<Event>, start: Event, verdict: Verdict): seq<Reconciliation> {
    if Recovery.HasTerminal(log, start.proposalRef) then []
    else if verdict == Dead then [Reconciliation(start.owner, start.proposalRef, Recovered)]
    else [Reconciliation(start.owner, start.proposalRef, Unresolved(verdict))]
  }

  // What a sweep reports: one line per start without an outcome when its turn came.
  function ReportOf(log: seq<Event>, starts: seq<Event>, verdictOf: string -> Verdict): seq<Reconciliation>
    decreases |starts|
  {
    if starts == [] then []
    else
      var (s, verdict) := (starts[0], verdictOf(starts[0].owner));
      LineOf(log, s, verdict) + ReportOf(Recovery.SweepOne(log, s, verdict), starts[1..], verdictOf)
  }

  function RecoveredBy(line: Reconciliation): seq<Event> {
    if line.finding == Recovered then [OutcomeEvent(line.proposalRef, None, Unknown, "owner-dead")] else []
  }

  function RecoveredIn(report: seq<Reconciliation>): seq<Event> {
    if report == [] then [] else RecoveredBy(report[0]) + RecoveredIn(report[1..])
  }

  lemma {:induction false} RecoveredInConcat(a: seq<Reconciliation>, b: seq<Reconciliation>)
    ensures RecoveredIn(a + b) == RecoveredIn(a) + RecoveredIn(b)
  {
    hide RecoveredBy;
    if a == [] {
      assert a + b == b;
    } else {
      assert (a + b)[1..] == a[1..] + b && (a + b)[0] == a[0];
      RecoveredInConcat(a[1..], b);
    }
  }

  // The report accounts for exactly what was appended, line by line, and never lists a dead
  // owner as unresolved.
  lemma {:induction false} ReportAccounts(log: seq<Event>, starts: seq<Event>, verdictOf: string -> Verdict)
    ensures
      var report := ReportOf(log, starts, verdictOf);
      && Recovery.SweepStarts(log, starts, verdictOf) == AppendAll(log, RecoveredIn(report))
      && forall k :: 0 <= k < |report| ==> report[k].finding != Unresolved(Dead)
    decreases |starts|
  {
    if starts == [] {
    } else {
      var s := starts[0];
      var next := Recovery.SweepOne(log, s, verdictOf(s.owner));
      ReportAccounts(next, starts[1..], verdictOf);
      var report, rest := ReportOf(log, starts, verdictOf), ReportOf(next, starts[1..], verdictOf);
      var line := report[..|report| - |rest|];
      assert report == line + rest;
      RecoveredInConcat(line, rest);
      if next != log || (!Recovery.HasTerminal(log, s.proposalRef) && verdictOf(s.owner) == Dead) {
        var e := Recovery.Recovered(s);
        assert line == [Reconciliation(s.owner, s.proposalRef, Recovered)];
        assert line[1..] == [];
        assert RecoveredIn(line) == [e];
        assert ([e] + RecoveredIn(rest))[1..] == RecoveredIn(rest);
      } else {
        assert RecoveredIn(line) == [] by {
          assert |line| <= 1;
          assert line != [] ==> line[1..] == [];
        }
        assert [] + RecoveredIn(rest) == RecoveredIn(rest);
      }
    }
  }

  // One start: look for an outcome, probe the owner, append.
  method SweepStart(db: Database, owners: OwnersDir, start: Event, appendOk: bool, p: nat)
    returns (ok: bool, line: seq<Reconciliation>)
    requires db.Valid() && Inv(owners.table) && p !in owners.table.probes
    modifies db`log, owners
    ensures db.Valid() && owners.table == old(owners.table)
    ensures !ok ==> !appendOk
    ensures ok ==>
      var verdict := VerdictNow(owners.table, start.owner);
      && db.log == Recovery.SweepOne(old(db.log), start, verdict)
      && line == LineOf(old(db.log), start, verdict)
  {
    hide Unique, UniqueBindings, UniqueApprovals, Inv, Append;
    if Recovery.HasTerminal(db.log, start.proposalRef) {
      return true, [];
    }
    var verdict := Owners.Probe(owners, start.owner, p);
    if verdict != Dead {
      return true, [Reconciliation(start.owner, start.proposalRef, Unresolved(verdict))];
    }
    ok := db.AppendOn(Recovery.Recovered(start), appendOk);
    line := [Reconciliation(start.owner, start.proposalRef, Recovered)];
  }

  // One write transaction: read the starts, then treat them in turn. An append that fails undoes
  // the whole sweep. `broken` are the starts whose append would fail.
  method Reconcile(db: Database, owners: OwnersDir, broken: set<nat>, p: nat)
    returns (r: Result<seq<Reconciliation>, Rejection>)
    requires db.Valid() && db.saved.None? && Inv(owners.table) && p !in owners.table.probes
    modifies db, owners
    ensures db.Valid() && db.saved.None? && owners.table == old(owners.table)
    ensures r.Err? ==> db.Contents() == old(db.Contents()) && broken != {}
    ensures r.Ok? ==>
      var verdictOf := VerdictsOf(old(owners.table));
      && db.Contents() == old(db.Contents()).(log := Recovery.Reconcile(old(db.log), verdictOf))
      && r.value == ReportOf(old(db.log), Recovery.StartsOf(old(db.log)), verdictOf)
  {
    hide Unique, UniqueBindings, UniqueApprovals, Inv, Recovery.SweepOne, LineOf, Recovery.StartsOf;
    ghost var before := db.Contents();
    ghost var verdictOf := VerdictsOf(owners.table);
    db.Begin();
    var starts := ReadStarts(db.log);
    var report: seq<Reconciliation> := [];
    for i := 0 to |starts|
      invariant db.Valid() && db.saved == Some(before) && owners.table == old(owners.table)
      invariant db.Contents() == before.(log := db.log)
      invariant Recovery.SweepStarts(db.log, starts[i..], verdictOf)
          == Recovery.SweepStarts(before.log, starts, verdictOf)
      invariant report + ReportOf(db.log, starts[i..], verdictOf) == ReportOf(before.log, starts, verdictOf)
    {
      assert starts[i..][0] == starts[i] && starts[i..][1..] == starts[i + 1..];
      var ok, line := SweepStart(db, owners, starts[i], i !in broken, p);
      if !ok {
        db.Rollback();
        return Err(WriteFailed);
      }
      report := report + line;
    }
    db.Commit();
    assert starts[|starts|..] == [];
    r := Ok(report);
  }

  method ReadStarts(log: seq<Event>) returns (starts: seq<Event>)
    ensures starts == Recovery.StartsOf(log)
  {
    starts := [];
    for i := 0 to |log|
      invariant starts == Recovery.StartsOf(log[..i])
    {
      assert log[..i + 1][..i] == log[..i];
      if log[i].kind == ExecutionStart {
        starts := starts + [log[i]];
      }
    }
    assert log[..|log|] == log;
  }

  /* ---------- sweep_exec_tmp_leftovers ---------- */

  const PREFIX := "ops-guard-exec-"

  // The name the staged runner gives its directory.
  function StagedName(owner: string, suffix: string): string {
    PREFIX + owner + "-" + suffix
  }

  // The owner a directory name attributes it to.
  function AttributedOwner(name: string): (owner: Option<string>)
  {
    var from, to := |PREFIX|, |PREFIX| + HEX_ID_LENGTH;
    if |name| > to + 1 && name[..from] == PREFIX && HexId(name[from..to]) && name[to] == '-'
        && name[to + 1] != '\n' then
      Some(name[from..to])
    else None
  }

  // A name is attributed to an owner exactly when the runner could have given it for that owner.
  lemma {:induction false} AttributionIsExact(name: string, owner: string)
    ensures AttributedOwner(name) == Some(owner) <==>
            HexId(owner) && exists suffix ::
              suffix != "" && suffix[0] != '\n' && name == "ops-guard-exec-" + owner + "-" + suffix
  {
    var from, to := |PREFIX|, |PREFIX| + HEX_ID_LENGTH;
    if AttributedOwner(name) == Some(owner) {
      var suffix := name[to + 1..];
      assert name == name[..from] + name[from..to] + [name[to]] + suffix;
      assert name == StagedName(owner, suffix);
    }
    if suffix :| HexId(owner) && suffix != "" && suffix[0] != '\n' && name == StagedName(owner, suffix) {
      assert name[..from] == PREFIX;
      assert name[from..to] == owner;
      assert name[to] == '-' && name[to + 1] == suffix[0];
    }
  }

  // `link`: a symbolic link or junction; `stuck`: the file system refuses to remove it.
  datatype Entry = Entry(name: string, directory: bool, link: bool, stuck: bool)

  predicate Removable(t: Table, e: Entry) {
    && !e.link && e.directory
    && AttributedOwner(e.name).Some?
    && VerdictNow(t, AttributedOwner(e.name).value) == Dead
  }

  predicate Goes(t: Table, e: Entry) {
    Removable(t, e) && !e.stuck
  }

  function Kept(t: Table, entries: seq<Entry>): seq<Entry> {
    if entries == [] then []
    else Kept(t, entries[..|entries| - 1]) + if Goes(t, entries[|entries| - 1]) then [] else [entries[|entries| - 1]]
  }

  function Gone(t: Table, entries: seq<Entry>): seq<string> {
    if entries == [] then []
    else Gone(t, entries[..|entries| - 1]) + if Goes(t, entries[|entries| - 1]) then [entries[|entries| - 1].name]
        else []
  }

  lemma {:induction false} KeptAre(t: Table, entries: seq<Entry>)
    ensures forall e :: e in Kept(t, entries) <==> e in entries && !Goes(t, e)
    ensures forall n :: n in Gone(t, entries) <==> exists e :: e in entries && e.name == n && Goes(t, e)
    ensures |Kept(t, entries)| + |Gone(t, entries)| == |entries|
  {
    hide Goes;
    if entries == [] {
    } else {
      var init, last := entries[..|entries| - 1], entries[|entries| - 1];
      KeptAre(t, init);
      assert entries == init + [last];
      forall n ensures n in Gone(t, entries) <==> exists e :: e in entries && e.name == n && Goes(t, e) {
        if n in Gone(t, init) {
          var e :| e in init && e.name == n && Goes(t, e);
          assert e in entries;
        } else if n in Gone(t, entries) {
          assert last in entries;
        }
      }
    }
  }

  method SweepLeftovers(owners: OwnersDir, entries: seq<Entry>, p: nat) returns (kept: seq<Entry>, removed: seq<string>)
    requires Inv(owners.table) && p !in owners.table.probes
    modifies owners
    ensures owners.table == old(owners.table)
    ensures forall e :: e in kept <==> e in entries && (Removable(owners.table, e) ==> e.stuck)
    ensures forall n :: n in removed <==>
      exists e :: e in entries && e.name == n && Removable(owners.table, e) && !e.stuck
    ensures |kept| + |removed| == |entries|
  {
    hide Inv;
    kept, removed := [], [];
    for i := 0 to |entries|
      invariant owners.table == old(owners.table)
      invariant kept == Kept(owners.table, entries[..i]) && removed == Gone(owners.table, entries[..i])
    {
      var goes := SweepEntry(owners, entries[i], p);
      assert entries[..i + 1][..i] == entries[..i];
      hide Goes;
      if goes {
        removed := removed + [entries[i].name];
      } else {
        kept := kept + [entries[i]];
      }
    }
    assert entries[..|entries|] == entries;
    KeptAre(owners.table, entries);
  }

  // One candidate: its kind, its name, then its owner's lock.
  method SweepEntry(owners: OwnersDir, e: Entry, p: nat) returns (goes: bool)
    requires Inv(owners.table) && p !in owners.table.probes
    modifies owners
    ensures owners.table == old(owners.table) && goes == Goes(owners.table, e)
  {
    hide Inv, AttributedOwner;
    if e.link || !e.directory || AttributedOwner(e.name).None? {
      return false;
    }
    var verdict := Owners.Probe(owners, AttributedOwner(e.name).value, p);
    goes := verdict == Dead && !e.stuck;
  }

  // Nothing that carries a running owner's id is removed.
  lemma {:induction false} RunningOwnersKeepTheirDirectories(t: Table, entries: seq<Entry>, e: Entry, owner: string,
          suffix: string)
    requires Inv(t) && IsRunning(t, owner) && e in entries && e.name == StagedName(owner, suffix)
    requires HexId(owner)
    ensures e in Kept(t, entries)
  {
    KeptAre(t, entries);
    if Removable(t, e) {
      var named := AttributedOwner(e.name).value;
      AttributionIsExact(e.name, named);
      assert e.name[|PREFIX|..|PREFIX| + HEX_ID_LENGTH] == owner;
      VerdictIsSound(t, owner);
    }
  }
}
