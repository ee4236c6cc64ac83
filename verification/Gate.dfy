// The execution gate as an object: one `Execute` call, statement by statement, proved to be the
// protocol's own sequence of steps.
module Gate {
  import opened Wrappers
  import opened Domain
  import opened Records
  import opened Integrity
  import opened GateChecks
  import opened GateProtocol
  import opened GateRun
  import opened Store
  import opened Services
  import Observation
  import Library
  import Timestamps

  datatype Returned =
    | NotDispatched(reason: RefusalCode, ref: Option<string>)
    | WasDispatched(proposalId: string, path: AuthorizationPath, outcome: Outcome)

  datatype Raised = AuditWriteFailure | ExecutorFault

  // What the caller sees, given how the call was decided and which records persist.
  function ResultOf(env: Environment, at: Attempt): Result<Returned, Raised> {
    match at.pc
    case AtRefusal(reason, ref) => if env.refusalOk then Ok(NotDispatched(reason, ref)) else Err(AuditWriteFailure)
    case AtOutcome(outcome, _) =>
      if !env.outcomeOk then Err(AuditWriteFailure)
      else if Classify(env.injected, env.report).2 || at.started.None? then Err(ExecutorFault)
      else Ok(WasDispatched(at.started.value.ticket.frozen.id, at.started.value.ticket.path, outcome))
    case _ => Err(AuditWriteFailure)
  }

  /* ---------- The decision in four stretches ---------- */

  lemma {:induction false} RefusedIsDecided(db: Db, env: Environment, at: Attempt)
    requires at.pc.AtRefusal?
    ensures Decide(db, env, at) == (db, at)
  {
  }

  lemma {:induction false} DecideToken0(db: Db, env: Environment, c: Call)
    ensures
      var cited := Library.ResolveCitation(c.config.library, c.request.citation);
      var frozen := Resolve(db, Td(c), c.request.expected, env.resolveAt);
      Decide(db, env, Begin(c)) ==
        if cited.Err? then (db, Refuse(Begin(c), EvidenceRejected, None))
        else if frozen.Err? then (db, Refuse(Begin(c), TokenRejected(frozen.error), None))
        else Decide(db, env, Attempt(c, AtBinding(frozen.value), None))
  {
    hide Resolve, Library.ResolveCitation, Decide;
    DecideToken(db, env, Begin(c));
    var next := AfterToken(db, env.resolveAt, Begin(c));
    if next.pc.AtRefusal? {
      RefusedIsDecided(db, env, next);
    }
  }

  lemma {:induction false} DecideExamination(db: Db, env: Environment, c: Call, p: Proposal)
    requires Library.ResolveCitation(c.config.library, c.request.citation).Ok?
    ensures
      var ev := Library.ResolveCitation(c.config.library, c.request.citation).value;
      var x := Examine(c.config, c.request, ev, p, FetchBinding(db, p.id), env.oracle);
      Decide(db, env, Attempt(c, AtBinding(p), None)) ==
        if x.Err? then (db, Refuse(Begin(c), x.error, Some(p.id)))
        else Decide(db, env, Attempt(c, AtAuthorize(p, x.value), None))
  {
    hide Examine, Library.ResolveCitation, Decide, FetchBinding;
    DecideBinding(db, env, Attempt(c, AtBinding(p), None));
    var at := Attempt(c, AtExamine(p, FetchBinding(db, p.id)), None);
    DecideChecks(db, env, at);
    var next := AfterChecks(at, env.oracle);
    if next.pc.AtRefusal? {
      RefusedIsDecided(db, env, next);
    }
  }

  lemma {:induction false} DecideStanding(db: Db, env: Environment, c: Call, p: Proposal, x: Examined)
    ensures
      var standing := c.config.policy.standing;
      var at := Attempt(c, AtAuthorize(p, x), None);
      var row := FetchApproval(db, Td(c));
      Decide(db, env, at) ==
        if FindStanding(standing, p.invocation, x.binding.document.template, ScriptSha(x.script)) < |standing| then
          Decide(db, env, at.(pc := AtCommit(Ticket(p, x, Standing, None))))
        else if VerifyApprovalRow(c.config, row).Some? then (db, Refuse(at, NoAuthorizationPath, Some(p.id)))
        else Decide(db, env, at.(pc := AtVerifyProposal(p, x, row.value)))
  {
    hide FindStanding, FetchApproval, Decide;
    var at := Attempt(c, AtAuthorize(p, x), None);
    DecideAuthorize(db, env, at);
    var next := AfterAuthorize(db, at);
    if next.pc.AtRefusal? {
      RefusedIsDecided(db, env, next);
    }
  }

  lemma {:induction false} DecideVerification(db: Db, env: Environment, c: Call, p: Proposal, x: Examined, a: Approval)
    ensures
      var at := Attempt(c, AtVerifyProposal(p, x, a), None);
      Decide(db, env, at) ==
        if VerifyProposal(a, Resolve(db, Td(c), None, env.verifyAt)).Some?
            || VerifyBinding(a, FetchBinding(db, p.id)).Some? then
          (db, Refuse(at, NoAuthorizationPath, Some(p.id)))
        else Decide(db, env, at.(pc := AtCommit(Ticket(p, x, ProposalBound, Some(a)))))
  {
    hide VerifyProposal, VerifyBinding, Resolve, FetchBinding, Decide;
    var at := Attempt(c, AtVerifyProposal(p, x, a), None);
    DecideVerifyProposal(db, env, at);
    var next := AfterVerifyProposal(db, env.verifyAt, at);
    if next.pc.AtRefusal? {
      RefusedIsDecided(db, env, next);
    } else {
      DecideVerifyBinding(db, env, next);
      var last := AfterVerifyBinding(db, next);
      if last.pc.AtRefusal? {
        RefusedIsDecided(db, env, last);
      }
    }
  }

  // The authorization choice: a standing match, else the recorded approval.
  function Choice(db: Db, env: Environment, config: Config, td: TokenDigest, p: Proposal, x: Examined): Option<Ticket> {
    var standing := config.policy.standing;
    if FindStanding(standing, p.invocation, x.binding.document.template, ScriptSha(x.script)) < |standing| then
      Some(Ticket(p, x, Standing, None))
    else
      var a := VerifyApproval(db, td, config.verifier, config.operator, env.verifyAt);
      if a.Ok? then Some(Ticket(p, x, ProposalBound, Some(a.value))) else None
  }

  lemma {:induction false} VerifyInPieces(db: Db, env: Environment, config: Config, td: TokenDigest, p: Proposal)
    requires RowByToken(db, td) == Some(p)
    ensures
      var row := FetchApproval(db, td);
      VerifyApproval(db, td, config.verifier, config.operator, env.verifyAt).Ok? <==>
        VerifyApprovalRow(config, row).None?
        && VerifyProposal(row.value, Resolve(db, td, None, env.verifyAt)).None?
        && VerifyBinding(row.value, FetchBinding(db, p.id)).None?
    ensures
      var v := VerifyApproval(db, td, config.verifier, config.operator, env.verifyAt);
      v.Ok? ==> FetchApproval(db, td) == Some(v.value)
  {
    hide Check, FetchBinding, FetchApproval;
  }

  lemma {:induction false} DecideChoice(db: Db, env: Environment, c: Call, p: Proposal, x: Examined)
    requires RowByToken(db, Td(c)) == Some(p)
    ensures
      var at := Attempt(c, AtAuthorize(p, x), None);
      var choice := Choice(db, env, c.config, Td(c), p, x);
      Decide(db, env, at) ==
        if choice.None? then (db, Refuse(at, NoAuthorizationPath, Some(p.id)))
        else Decide(db, env, at.(pc := AtCommit(choice.value)))
  {
    hide FindStanding, Decide, VerifyApproval, VerifyApprovalRow, VerifyProposal, VerifyBinding, Resolve, FetchBinding,
         FetchApproval, RowByToken;
    DecideStanding(db, env, c, p, x);
    VerifyInPieces(db, env, c.config, Td(c), p);
    var row := FetchApproval(db, Td(c));
    if VerifyApprovalRow(c.config, row).None? {
      assert row.Some? by {
        RowPresent(c.config, row);
      }
      DecideVerification(db, env, c, p, x, row.value);
    }
  }

  lemma {:induction false} RowPresent(config: Config, row: Option<Approval>)
    requires VerifyApprovalRow(config, row).None?
    ensures row.Some?
  {
  }

  lemma {:induction false} DecideDispatch(db: Db, env: Environment, c: Call, t: Ticket)
    ensures
      var at := Attempt(c, AtCommit(t), None);
      var r := Dispatch(db, Td(c), c.request.expected, env.commitAt, env.commitAt, StartOf(c, t), env.startOk);
      var report := Classify(env.injected, env.report);
      Decide(db, env, at) ==
        if r.Err? then (db, Refuse(at, DispatchRefused(r.error), Some(t.frozen.id)))
        else (r.value, Attempt(c, AtOutcome(report.0, report.1), Some(Started(t, MaxSequence(db.log) + 1))))
  {
    hide Dispatch, Decide, Classify, StartOf, MaxSequence;
    var at := Attempt(c, AtCommit(t), None);
    DecideCommit(db, env, at);
    var (next, at') := AfterCommit(db, env.commitAt, at, env.startOk);
    if at'.pc.AtRefusal? {
      RefusedIsDecided(next, env, at');
    } else {
      ExecuteDecides(next, env, at');
    }
  }

  /* ---------- The gate ---------- */

  class ExecutionGate {
    const db: Database
    const proposals: ProposalService
    const approvals: ApprovalVerifier
    const audit: AuditLog
    const config: Config
    const owner: string

    constructor (db: Database, config: Config, owner: string)
      ensures this.db == db && this.config == config && this.owner == owner
      ensures Configured()
    {
      this.db, this.config, this.owner := db, config, owner;
      proposals := new ProposalService(db);
      approvals := new ApprovalVerifier(db, config.verifier);
      audit := new AuditLog(db);
    }

    // All services share the one database.
    predicate Configured() {
      proposals.db == db && approvals.db == db && audit.db == db && approvals.operator == config.verifier
    }

    method RecordRefusal(env: Environment, at: Attempt) returns (r: Result<Returned, Raised>)
      requires Configured() && db.Valid() && db.saved.None? && at.pc.AtRefusal?
      modifies db
      ensures db.Valid() && db.saved.None?
      ensures db.Contents() == Conclude(old(db.Contents()), env, at) && r == ResultOf(env, at)
    {
      hide Unique, UniqueBindings, UniqueApprovals, FailureCode;
      var ok := audit.Record(RefusalEvent(at.pc.ref, FailureCode(at.pc.reason)), env.refusalOk);
      r := if ok then Ok(NotDispatched(at.pc.reason, at.pc.ref)) else Err(AuditWriteFailure);
    }

    // The checks between the token and the authorization choice.
    method CheckAll(request: Request, ev: Evidence, p: Proposal, source: Option<seq<Byte>>, clock: Observation.Clock,
                    deadlineSeconds: int, turns: seq<Observation.Turn>)
      returns (x: Result<Examined, RefusalCode>, readings: seq<Reading>)
      requires |ev.preconditions| <= |turns|
      modifies clock
      ensures x == Examine(config, request, ev, p, old(FetchBinding(db.Contents(), p.id)), Oracle(source, readings))
    {
      readings := [];
      var b := FindBinding(db.bindings, p.id);
      if b == |db.bindings| {
        return Err(BindingMissing), readings;
      }
      var row := db.bindings[b];
      if row.digest != BindingSha(row.document) {
        return Err(BindingCorrupt), readings;
      }
      if row.document.invocationDigest != p.digest {
        return Err(BindingMismatch), readings;
      }
      var t := row.document.template;
      if source.None? {
        return Err(ScriptUnresolved), readings;
      }
      if ScriptSha(source.value) != t.scriptSha {
        return Err(ScriptMismatch), readings;
      }
      if config.catalog.Some? {
        if !EntryUnchanged(config.catalog.value, t, p.invocation) {
          return Err(CatalogChanged), readings;
        }
        if !ProfileUnchanged(config.catalog.value, t) {
          return Err(ProfileChanged), readings;
        }
      }
      if !Describes(ev, p.invocation, request.citation) {
        return Err(EvidenceMismatch), readings;
      }
      hide EntryUnchanged, ProfileUnchanged, Describes, ObserveFrom, Observation.Loop;
      var observed, taken, _ := Observation.Observe(config.policy, request.citation, ev.preconditions,
          deadlineSeconds, clock, turns);
      readings := taken;
      x := if observed.Err? then Err(observed.error) else Ok(Examined(row, source.value, observed.value));
    }

    method Choose(env: Environment, request: Request, p: Proposal, x: Examined) returns (t: Option<Ticket>)
      requires Configured()
      ensures t == Choice(db.Contents(), env, config, Hmac(request.token), p, x)
    {
      hide VerifyApproval, Matches;
      var standing := config.policy.standing;
      for i := 0 to |standing|
        invariant FindStanding(standing[i..], p.invocation, x.binding.document.template, ScriptSha(x.script)) + i
                  == FindStanding(standing, p.invocation, x.binding.document.template, ScriptSha(x.script))
      {
        assert standing[i..][0] == standing[i] && standing[i..][1..] == standing[i + 1..];
        if Matches(standing[i], p.invocation, x.binding.document.template, ScriptSha(x.script)) {
          return Some(Ticket(p, x, Standing, None));
        }
      }
      var a := approvals.Verify(Hmac(request.token), config.operator, env.verifyAt);
      t := if a.Ok? then Some(Ticket(p, x, ProposalBound, Some(a.value))) else None;
    }

    // `executed` is what the executor was called with, if it was called.
    method Execute(request: Request, env: Environment, clock: Observation.Clock, deadlineSeconds: int,
            turns: seq<Observation.Turn>)
      returns (r: Result<Returned, Raised>, readings: seq<Reading>, executed: Option<(Invocation, seq<Byte>)>)
      requires Configured() && db.Valid() && db.saved.None?
      requires Library.ResolveCitation(config.library, request.citation).Ok? ==>
                 |Library.ResolveCitation(config.library, request.citation).value.preconditions| <= |turns|
      modifies db, clock
      ensures db.Valid() && db.saved.None?
      ensures
        var seen := env.(oracle := Oracle(env.oracle.source, readings));
        var (mid, at) := Decide(old(db.Contents()), seen, Begin(Call(owner, request, config)));
        && db.Contents() == Conclude(mid, seen, at)
        && r == ResultOf(seen, at)
        && (executed.Some? <==> at.pc.AtOutcome?)
        && (executed.Some? && at.started.Some? ==>
              executed.value == (at.started.value.ticket.frozen.invocation, at.started.value.ticket.x.script))
    {
      hide Unique, UniqueBindings, UniqueApprovals, Decide, Resolve, Examine, Library.ResolveCitation, Dispatch,
           Choice, Classify, StartOf, MaxSequence, FailureCode, FetchBinding;
      var c := Call(owner, request, config);
      ghost var d0 := db.Contents();
      var start := Begin(c);
      executed, readings := None, [];
      var unseen := env.(oracle := Oracle(env.oracle.source, []));
      var cited := Library.ResolveCitation(config.library, request.citation);
      DecideToken0(d0, unseen, c);
      if cited.Err? {
        r := RecordRefusal(unseen, Refuse(start, EvidenceRejected, None));
        return;
      }
      var frozen := proposals.ResolveToken(Hmac(request.token), request.expected, env.resolveAt);
      if frozen.Err? {
        r := RecordRefusal(unseen, Refuse(start, TokenRejected(frozen.error), None));
        return;
      }
      var p := frozen.value;
      var x, taken := CheckAll(request, cited.value, p, env.oracle.source, clock, deadlineSeconds, turns);
      readings := taken;
      var seen := env.(oracle := Oracle(env.oracle.source, readings));
      DecideToken0(d0, seen, c);
      DecideExamination(d0, seen, c, p);
      if x.Err? {
        r := RecordRefusal(seen, Refuse(start, x.error, Some(p.id)));
        return;
      }
      ResolvedIsTheRow(d0, Hmac(request.token), request.expected, env.resolveAt);
      DecideChoice(d0, seen, c, p, x.value);
      var ticket := Choose(seen, request, p, x.value);
      if ticket.None? {
        r := RecordRefusal(seen, Refuse(start, NoAuthorizationPath, Some(p.id)));
        return;
      }
      TicketIs(d0, seen, config, Hmac(request.token), p, x.value);
      r, executed := DispatchTicket(request, seen, ticket.value);
    }

    // The dispatch transaction, then the executor on exactly the bytes that were checked, then the
    // outcome.
    method DispatchTicket(request: Request, env: Environment, t: Ticket)
      returns (r: Result<Returned, Raised>, executed: Option<(Invocation, seq<Byte>)>)
      requires Configured() && db.Valid() && db.saved.None?
      requires RowByToken(db.Contents(), Hmac(request.token)) == Some(t.frozen)
      modifies db
      ensures db.Valid() && db.saved.None?
      ensures
        var (mid, at) := Decide(old(db.Contents()), env, Attempt(Call(owner, request, config), AtCommit(t), None));
        && db.Contents() == Conclude(mid, env, at)
        && r == ResultOf(env, at)
        && (executed.Some? <==> at.pc.AtOutcome?)
        && (executed.Some? ==>
            at.started.Some? && at.started.value.ticket == t && executed.value == (t.frozen.invocation, t.x.script))
    {
      hide Unique, UniqueBindings, UniqueApprovals, Decide, Dispatch, Classify, StartOf, MaxSequence, FailureCode,
           RowByToken;
      var c := Call(owner, request, config);
      ghost var d0 := db.Contents();
      executed := None;
      DecideDispatch(d0, env, c, t);
      var consumed := proposals.Consume(Hmac(request.token), request.expected, env.commitAt, env.commitAt,
          StartOf(c, t), env.startOk, approvals);
      if consumed.Err? {
        r := RecordRefusal(env, Refuse(Begin(c), DispatchRefused(consumed.error), Some(t.frozen.id)));
        return;
      }
      ConsumedInvocation(d0, Hmac(request.token), request.expected, t.frozen, env.commitAt, StartOf(c, t), env.startOk);
      executed := Some((consumed.value.invocation, t.x.script));
      var (outcome, code, raises) := Classify(env.injected, env.report);
      var ok := audit.Record(OutcomeEvent(Some(t.frozen.id), Some(t.path), outcome, code), env.outcomeOk);
      r := if !ok then Err(AuditWriteFailure) else if raises then Err(ExecutorFault)
          else Ok(WasDispatched(t.frozen.id, t.path, outcome));
    }
  }

  lemma {:induction false} ResolvedIsTheRow(db: Db, td: TokenDigest, expected: Option<Digest>, now: Timestamps.Utc)
    requires Resolve(db, td, expected, now).Ok?
    ensures RowByToken(db, td) == Some(Resolve(db, td, expected, now).value)
  {
    hide Timestamps.Parse, Timestamps.Before;
  }

  lemma {:induction false} TicketIs(db: Db, env: Environment, config: Config, td: TokenDigest, p: Proposal, x: Examined)
    ensures
      var t := Choice(db, env, config, td, p, x);
      t.Some? ==> t.value.frozen == p && t.value.x == x
  {
    hide FindStanding, VerifyApproval;
  }

  // Consuming changes nothing of the invocation that was frozen.
  lemma {:induction false} ConsumedInvocation(db: Db, td: TokenDigest, expected: Option<Digest>, p: Proposal,
          now: Timestamps.Utc, start: Event, ok: bool)
    requires Unique(db.proposals) && RowByToken(db, td) == Some(p)
    requires Dispatch(db, td, expected, now, now, start, ok).Ok?
    ensures
      var next := Dispatch(db, td, expected, now, now, start, ok).value;
      RowByToken(next, td).Some? && RowByToken(next, td).value.invocation == p.invocation
  {
    var i := FindToken(db.proposals, td);
    UpdateRowsAt(db.proposals, td, Timestamps.Format(now));
    var rows := UpdateRows(db.proposals, td, Timestamps.Format(now));
    hide Check, Timestamps.Format, UpdateCount, MaxSequence, UpdateHits;
    assert Dispatch(db, td, expected, now, now, start, ok).value.proposals == rows;
    assert rows[i].tokenDigest == td;
    assert forall k :: 0 <= k < i ==> rows[k].tokenDigest != td;
    assert FindToken(rows, td) == i;
  }
}
