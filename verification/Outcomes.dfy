// What a gate call decides and reports, said of its inputs: why it refuses, which authorization
// path it takes, and which outcome it records and returns.
module Outcomes {
  import opened Wrappers
  import opened Domain
  import opened Records
  import opened Integrity
  import opened GateChecks
  import opened GateProtocol
  import opened GateRun
  import opened Gate
  import Eligibility
  import Services
  import Catalog
  import Library
  import Timestamps
  import Transactions

  /* ---------- Refusals ---------- */

  // The first four checks after the token, each in force once those before it passed.
  predicate Intact(row: Option<BindingRow>) {
    row.Some? && row.value.digest == BindingSha(row.value.document)
  }

  predicate OwnBinding(frozen: Proposal, row: Option<BindingRow>) {
    Intact(row) && row.value.document.invocationDigest == frozen.digest
  }

  predicate ScriptRead(frozen: Proposal, row: Option<BindingRow>, o: Oracle) {
    OwnBinding(frozen, row) && o.source.Some?
  }

  predicate ScriptHolds(frozen: Proposal, row: Option<BindingRow>, o: Oracle) {
    ScriptRead(frozen, row, o) && ScriptSha(o.source.value) == row.value.document.template.scriptSha
  }

  predicate EntryHolds(config: Config, frozen: Proposal, row: Option<BindingRow>, o: Oracle) {
    && ScriptHolds(frozen, row, o)
    && (config.catalog.Some? ==> Mapped(config.catalog.value, row.value.document.template, frozen.invocation))
  }

  predicate ProfileHolds(config: Config, frozen: Proposal, row: Option<BindingRow>, o: Oracle) {
    && EntryHolds(config, frozen, row, o)
    && (config.catalog.Some? ==>
          && var t, profiles := row.value.document.template, config.catalog.value.profiles;
          && t.profileId in profiles && t.profileDigest == ProfileSha(profiles[t.profileId]))
  }

  predicate EvidenceHolds(config: Config, request: Request, ev: Evidence, frozen: Proposal, row: Option<BindingRow>,
                          o: Oracle) {
    && ProfileHolds(config, frozen, row, o)
    && frozen.invocation == Described(ev, request.citation, frozen.invocation.arguments)
  }

  // Why the checks refuse: each code stands for the first condition that fails, and they pass, up
  // to the observations, exactly when none does.
  lemma {:induction false} RefusalReasons(config: Config, request: Request, ev: Evidence, frozen: Proposal,
          row: Option<BindingRow>, o: Oracle)
    ensures
      var r := Examine(config, request, ev, frozen, row, o);
      && (r == Err(BindingMissing) <==> row.None?)
      && (r == Err(BindingCorrupt) <==> row.Some? && !Intact(row))
      && (r == Err(BindingMismatch) <==> Intact(row) && !OwnBinding(frozen, row))
      && (r == Err(ScriptUnresolved) <==> OwnBinding(frozen, row) && !ScriptRead(frozen, row, o))
      && (r == Err(ScriptMismatch) <==> ScriptRead(frozen, row, o) && !ScriptHolds(frozen, row, o))
      && (r == Err(CatalogChanged) <==> ScriptHolds(frozen, row, o) && !EntryHolds(config, frozen, row, o))
      && (r == Err(ProfileChanged) <==> EntryHolds(config, frozen, row, o) && !ProfileHolds(config, frozen, row, o))
      && (r == Err(EvidenceMismatch) <==>
            ProfileHolds(config, frozen, row, o) && !EvidenceHolds(config, request, ev, frozen, row, o))
      && (EvidenceHolds(config, request, ev, frozen, row, o) ==>
            var seen := ObserveFrom(config.policy, request.citation, ev.preconditions, o.readings, 0);
            r == if seen.Err? then Err(seen.error) else Ok(Examined(row.value, o.source.value, seen.value)))
  {
    ObservationCodes(config.policy, request.citation, ev.preconditions, o.readings, 0);
    hide ObserveFrom;
  }

  predicate ObservationCode(c: RefusalCode) {
    || c.PreconditionUnmapped? || c.PreconditionDeadline? || c.PreconditionTimeout? || c.ObserverFailed?
    || c.PreconditionMismatch?
  }

  lemma {:induction false} ObservationCodes(policy: Policy, c: Citation, ps: seq<Precondition>,
          readings: seq<Reading>, i: nat)
    requires i <= |ps|
    ensures
      var r := ObserveFrom(policy, c, ps, readings, i);
      r.Err? ==> ObservationCode(r.error)
    decreases |ps| - i
  {
    if i == |ps| {
    } else {
      ObservationCodes(policy, c, ps, readings, i + 1);
    }
  }

  predicate MappedAt(policy: Policy, c: Citation, k: nat) {
    ObserverKey(c.runbookId, c.revision, c.contentHash, k) in policy.observers
  }

  predicate PassedAt(policy: Policy, c: Citation, ps: seq<Precondition>, readings: seq<Reading>, k: nat)
    requires k < |ps|
  {
    MappedAt(policy, c, k) && k < |readings| && readings[k] == Reading.Reported(ps[k].expected)
  }

  // What refuses at precondition `k`: no binding, or the reading, if there is one.
  function FaultAt(policy: Policy, c: Citation, ps: seq<Precondition>, readings: seq<Reading>, k: nat): RefusalCode
    requires k < |ps|
  {
    if !MappedAt(policy, c, k) then PreconditionUnmapped(k)
    else if k >= |readings| || readings[k] == PastDeadline then PreconditionDeadline(k)
    else if readings[k] == TimedOut then PreconditionTimeout(k)
    else if readings[k] == ObserverError then ObserverFailed(k)
    else PreconditionMismatch(k)
  }

  // The loop refuses exactly at the first precondition that did not pass, with what went wrong there.
  lemma {:induction false} ObservationRefusal(policy: Policy, c: Citation, ps: seq<Precondition>,
          readings: seq<Reading>, i: nat, k: nat)
    requires i <= k < |ps|
    requires forall j :: i <= j < k ==> PassedAt(policy, c, ps, readings, j)
    ensures !PassedAt(policy, c, ps, readings, k) ==>
      ObserveFrom(policy, c, ps, readings, i) == Err(FaultAt(policy, c, ps, readings, k))
    decreases k - i
  {
    if i == k {
    } else {
      ObservationRefusal(policy, c, ps, readings, i + 1, k);
      assert PassedAt(policy, c, ps, readings, i);
    }
  }

  predicate OpensWith(text: string, head: string) {
    |head| <= |text| && text[..|head|] == head
  }

  // The code on a refusal event tells its kind.
  lemma {:induction false} CodesTellTheKind(c: RefusalCode)
    ensures BindingRefusal(c) <==> OpensWith(FailureCode(c), "binding-")
    ensures ObservationCode(c) <==> OpensWith(FailureCode(c), "precondition-")
    ensures FailureCode(c) == "" <==> !BindingRefusal(c) && !ObservationCode(c)
  {
    var code := FailureCode(c);
    if BindingRefusal(c) {
      assert code == "binding-" + code[8..];
    } else if ObservationCode(c) {
      assert code == "precondition-" + code[13..];
    } else {
      assert code == "";
    }
    assert OpensWith(code, "binding-") ==> code[..8][0] == 'b';
    assert OpensWith(code, "precondition-") ==> code[..13][0] == 'p';
  }

  lemma {:induction false} CodesListed(c: RefusalCode)
    ensures (c == BindingMissing ==> FailureCode(c) == "binding-missing")
      && (c == BindingCorrupt ==> FailureCode(c) == "binding-corrupt")
      && (c == BindingMismatch ==> FailureCode(c) == "binding-mismatch")
      && (c == ScriptUnresolved ==> FailureCode(c) == "binding-script-unresolved")
      && (c == ScriptMismatch ==> FailureCode(c) == "binding-script-mismatch")
      && (c == CatalogChanged ==> FailureCode(c) == "binding-catalog-changed")
      && (c == ProfileChanged ==> FailureCode(c) == "binding-profile-changed")
      && (c.PreconditionUnmapped? ==> FailureCode(c) == "precondition-unmapped")
      && (c.PreconditionDeadline? ==> FailureCode(c) == "precondition-deadline")
      && (c.PreconditionTimeout? ==> FailureCode(c) == "precondition-timeout")
      && (c.ObserverFailed? ==> FailureCode(c) == "precondition-observer-error")
      && (c.PreconditionMismatch? ==> FailureCode(c) == "precondition-mismatch")
  {
  }

  /* ---------- The authorization path ---------- */

  ghost predicate StandingRecord(config: Config, p: Proposal, x: Examined) {
    exists k :: 0 <= k < |config.policy.standing| &&
      Permits(config.policy.standing[k], p.invocation, x.binding.document.template, x.script)
  }

  // The path is Standing exactly when a standing record permits this very invocation, script and
  // profile; else it is the proposal's own approval, exactly when one verifies; else there is none.
  lemma {:induction false} PathChosen(db: Db, env: Environment, config: Config, td: TokenDigest, p: Proposal,
          x: Examined)
    ensures
      var choice := Choice(db, env, config, td, p, x);
      var verified := Services.VerifyApproval(db, td, config.verifier, config.operator, env.verifyAt);
      if StandingRecord(config, p, x) then choice == Some(Ticket(p, x, Standing, None))
      else if verified.Ok? then choice == Some(Ticket(p, x, ProposalBound, Some(verified.value)))
      else choice == None
  {
    hide Services.VerifyApproval, Permits, Matches;
    var standing, t := config.policy.standing, x.binding.document.template;
    forall k | 0 <= k < |standing|
      ensures Matches(standing[k], p.invocation, t, ScriptSha(x.script))
              <==> Permits(standing[k], p.invocation, t, x.script)
    {
      MatchesIff(standing[k], p.invocation, t, x.script);
    }
    var i := FindStanding(standing, p.invocation, t, ScriptSha(x.script));
  }

  /* ---------- The outcome ---------- */

  function OutcomeText(o: Outcome): string {
    match o
    case Success => "success"
    case Failure => "failure"
    case Unknown => "unknown"
    case Refused => "refused"
  }

  // An injected executor may report success or unknown; the staged runner may report failure too.
  predicate Understood(injected: bool, r: Report) {
    r.Reported? && (r.outcome in {"success", "unknown"} || (!injected && r.outcome == "failure"))
  }

  // What is recorded of an executor's report.
  predicate RecordedAs(injected: bool, r: Report, o: Outcome, code: string) {
    if Understood(injected, r) then OutcomeText(o) == r.outcome && code == if injected then "" else r.code
    else if injected && r.RaisedTimeout? then o == Unknown && code == "executor-timeout"
    else o == Failure && code == "executor-error"
  }

  lemma {:induction false} Classified(injected: bool, r: Report)
    ensures
      var c := Classify(injected, r);
      RecordedAs(injected, r, c.0, c.1) && (c.2 <==> !Understood(injected, r))
  {
  }

  // Whatever an attempt has left to decide, an outcome it decides comes from the executor's report.
  lemma {:induction false} DecidedOutcome(db: Db, env: Environment, at: Attempt)
    requires Rank(at.pc) > 0
    ensures
      var pc := Decide(db, env, at).1.pc;
      pc.AtOutcome? ==> RecordedAs(env.injected, env.report, pc.outcome, pc.code)
    decreases Rank(at.pc)
  {
    hide Move, RecordedAs;
    RankFalls(db, env, at);
    var (next, at') := Move(db, TimeOf(env, at.pc), at, NextAction(env, at.pc));
    StepToOutcome(db, env, at);
    if Rank(at'.pc) > 0 {
      DecidedOutcome(next, env, at');
    }
  }

  lemma {:induction false} StepToOutcome(db: Db, env: Environment, at: Attempt)
    requires Rank(at.pc) > 0 && Ready(at, NextAction(env, at.pc))
    ensures
      var pc := Move(db, TimeOf(env, at.pc), at, NextAction(env, at.pc)).1.pc;
      pc.AtOutcome? ==> RecordedAs(env.injected, env.report, pc.outcome, pc.code)
  {
    hide Library.ResolveCitation, Resolve, Examine, FindStanding, FetchApproval, FetchBinding, VerifyApprovalRow,
         VerifyProposal, VerifyBinding, Dispatch, MaxSequence, StartOf, RecordedAs, Classify;
    Classified(env.injected, env.report);
  }

  // The event a dispatched call leaves, and what it returns: the recorded outcome is the reported
  // one; the call raises exactly when the report was not understood or the record did not persist.
  lemma {:induction false} OutcomeReported(db: Db, env: Environment, c: Call)
    requires DbInv(db) && Library.Loaded(c.config.library)
        && (c.config.catalog.Some? ==> Catalog.Loaded(c.config.catalog.value))
    requires Decide(db, env, Begin(c)).1.started.Some?
    ensures
      var (mid, at) := Decide(db, env, Begin(c));
      var t := at.started.value.ticket;
      && at.pc.AtOutcome?
      && RecordedAs(env.injected, env.report, at.pc.outcome, at.pc.code)
      && Execution(db, env, c).log == (if env.outcomeOk then mid.log + [Event(|mid.log| + 1, ExecutionOutcome,
           Some(t.frozen.id), "", None, Some(t.path), Some(at.pc.outcome), at.pc.code)] else mid.log)
      && ResultOf(env, at) == if !env.outcomeOk then Err(AuditWriteFailure)
         else if !Understood(env.injected, env.report) then Err(ExecutorFault)
         else Ok(WasDispatched(t.frozen.id, t.path, at.pc.outcome))
  {
    assert Knows(db, Begin(c));
    hide DbInv, Decide, Knows, RecordedAs, Understood, DispatchedNow, Grows, Transactions.WithEvent, OutcomeOf, Append,
         Conclude;
    ExecutionFrame(db, env, c);
    DecideKeeps(db, env, Begin(c));
    DecidedOutcome(db, env, Begin(c));
    Classified(env.injected, env.report);
    hide Classify;
    var (mid, at) := Decide(db, env, Begin(c));
    StartedExecutes(mid, at);
    DispatchedStarted(db, mid, env, at);
    EventRecorded(mid, at);
  }

  lemma {:induction false} EventRecorded(db: Db, at: Attempt)
    requires DbInv(db) && at.pc.AtOutcome? && at.started.Some?
    ensures
      var t := at.started.value.ticket;
      Transactions.WithEvent(db, OutcomeOf(at)).log == db.log + [Event(|db.log| + 1, ExecutionOutcome,
        Some(t.frozen.id), "", None, Some(t.path), Some(at.pc.outcome), at.pc.code)]
  {
    GaplessLog(db);
    hide DbInv;
    AppendGapless(db.log, OutcomeOf(at));
  }

  // A refused call changes nothing but the log, which gains one refusal event if it persists.
  lemma {:induction false} RefusalReported(db: Db, env: Environment, c: Call)
    requires DbInv(db) && Library.Loaded(c.config.library)
        && (c.config.catalog.Some? ==> Catalog.Loaded(c.config.catalog.value))
    requires Decide(db, env, Begin(c)).1.started.None?
    ensures
      var at := Decide(db, env, Begin(c)).1;
      && at.pc.AtRefusal?
      && Execution(db, env, c) == db.(log := if env.refusalOk then db.log + [Event(|db.log| + 1, Refusal, at.pc.ref,
           "", None, None, Some(Refused), FailureCode(at.pc.reason))] else db.log)
      && ResultOf(env, at) ==
         if env.refusalOk then Ok(NotDispatched(at.pc.reason, at.pc.ref)) else Err(AuditWriteFailure)
  {
    GaplessLog(db);
    hide DbInv, Decide, Grows, FailureCode, DispatchedNow, Gapless;
    ExecutionFrame(db, env, c);
    var at := Decide(db, env, Begin(c)).1;
    if at.pc.AtRefusal? {
      AppendGapless(db.log, RefusalEvent(at.pc.ref, FailureCode(at.pc.reason)));
    }
  }

  lemma {:induction false} StartedExecutes(db: Db, at: Attempt)
    requires Knows(db, at) && at.started.Some?
    ensures !at.pc.AtRefusal?
  {
    hide KnowsStarted;
  }

  lemma {:induction false} GaplessLog(db: Db)
    requires DbInv(db)
    ensures Gapless(db.log)
  {
  }
}
