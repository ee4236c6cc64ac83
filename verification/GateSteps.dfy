// Every step of an attempt keeps the database invariant and the attempt's own knowledge.
module GateSteps {
  import opened Wrappers
  import opened Domain
  import opened Records
  import opened Integrity
  import opened GateChecks
  import opened GateProtocol
  import Transactions
  import Library
  import Timestamps

  lemma {:induction false} TokenStep(db: Db, now: Timestamps.Utc, at: Attempt)
    requires DbInv(db) && Knows(db, at) && at.pc.AtToken?
    ensures Knows(db, AfterToken(db, now, at))
  {
    hide DbInv, KnowsExamined, KnowsTicket, KnowsStarted, Library.ResolveCitation;
    var frozen := Resolve(db, Td(at.call), at.call.request.expected, now);
    if frozen.Ok? {
      Transactions.ResolvedRow(db, Td(at.call), at.call.request.expected, now);
      hide Resolve;
    }
  }

  lemma {:induction false} BindingStep(db: Db, at: Attempt)
    requires DbInv(db) && Knows(db, at) && at.pc.AtBinding?
    ensures Knows(db, at.(pc := AtExamine(at.pc.frozen, FetchBinding(db, at.pc.frozen.id))))
  {
    hide DbInv;
  }

  lemma {:induction false} ChecksStep(db: Db, at: Attempt, o: Oracle)
    requires Knows(db, at) && at.pc.AtExamine?
    ensures Knows(db, AfterChecks(at, o))
  {
    hide KnowsRow, FetchBinding, KnowsTicket, KnowsStarted, Examine, ExaminedHolds, Library.ResolveCitation,
         Library.Loaded;
    var ev := Library.ResolveCitation(at.call.config.library, at.call.request.citation);
    if ev.Ok? && Examine(at.call.config, at.call.request, ev.value, at.pc.frozen, at.pc.row, o).Ok? {
      ExamineSound(at.call.config, at.call.request, ev.value, at.pc.frozen, at.pc.row, o);
    }
  }

  lemma {:induction false} AuthorizeStep(db: Db, at: Attempt)
    requires Knows(db, at) && at.pc.AtAuthorize?
    ensures Knows(db, AfterAuthorize(db, at))
  {
    hide KnowsExamined, KnowsStarted, Matches;
    var frozen, x, standing := at.pc.frozen, at.pc.x, at.call.config.policy.standing;
    var i := FindStanding(standing, frozen.invocation, x.binding.document.template, ScriptSha(x.script));
    if i < |standing| {
      MatchesIff(standing[i], frozen.invocation, x.binding.document.template, x.script);
    }
  }

  lemma {:induction false} VerifyProposalStep(db: Db, now: Timestamps.Utc, at: Attempt)
    requires Knows(db, at) && at.pc.AtVerifyProposal?
    ensures Knows(db, AfterVerifyProposal(db, now, at))
  {
    hide ExaminedHolds, KnowsTicket, KnowsStarted;
    if VerifyProposal(at.pc.approval, Resolve(db, Td(at.call), None, now)).None? {
      Transactions.ResolvedRow(db, Td(at.call), None, now);
      hide Resolve;
    }
  }

  lemma {:induction false} VerifyBindingStep(db: Db, at: Attempt)
    requires Knows(db, at) && at.pc.AtVerifyBinding?
    ensures Knows(db, AfterVerifyBinding(db, at))
  {
    hide ExaminedHolds, KnowsRow;
  }

  // A commit is decided by the token check and the append alone. When it happens the attempt's
  // start record is in the log and the row it froze is consumed.
  lemma {:induction false} CommitDecided(db: Db, now: Timestamps.Utc, at: Attempt, appendOk: bool)
    requires DbInv(db) && at.pc.AtCommit? && KnowsTicket(db, at.call, at.pc.ticket)
    ensures
      var verdict := Resolve(db, Td(at.call), at.call.request.expected, now);
      var t := at.pc.ticket;
      && FindToken(db.proposals, Td(at.call)) < |db.proposals|
      && AfterCommit(db, now, at, appendOk) ==
         if verdict.Err? then (db, Refuse(at, DispatchRefused(verdict.error), Some(t.frozen.id)))
         else if !appendOk then (db, Refuse(at, DispatchRefused(WriteFailed), Some(t.frozen.id)))
         else (Transactions.Dispatched(db, Td(at.call), now, StartOf(at.call, t)),
               at.(pc := AtExecute, started := Some(Started(t, |db.log| + 1))))
  {
    Transactions.DispatchDecided(db, Td(at.call), at.call.request.expected, now, now, StartOf(at.call, at.pc.ticket),
        appendOk);
    MaxIsLength(db.log);
    hide Dispatch, Resolve, Transactions.Dispatched, ExaminedHolds, DbInv;
  }

  lemma {:induction false} AtCommitKnows(db: Db, at: Attempt)
    requires Knows(db, at) && at.pc.AtCommit?
    ensures at.started.None? && KnowsTicket(db, at.call, at.pc.ticket)
  {
    hide KnowsTicket;
  }

  lemma {:induction false} RefusedKnows(db: Db, at: Attempt, reason: RefusalCode, ref: Option<string>)
    requires Knows(db, at) && at.started.None?
    ensures Knows(db, Refuse(at, reason, ref))
  {
    hide KnowsTicket, KnowsExamined;
  }

  lemma {:induction false} StartedKnows(a: Db, b: Db, at: Attempt, s: Started)
    requires Knows(a, at) && KnowsStarted(b, at.call, s)
    ensures Knows(b, at.(pc := AtExecute, started := Some(s)))
  {
    hide KnowsTicket, KnowsExamined, KnowsStarted;
  }

  lemma {:induction false} CommitStep(db: Db, now: Timestamps.Utc, at: Attempt, appendOk: bool)
    requires DbInv(db) && Knows(db, at) && at.pc.AtCommit?
    ensures
      var (next, at') := AfterCommit(db, now, at, appendOk);
      DbInv(next) && Grows(db, next) && Knows(next, at')
  {
    hide AfterCommit, DbInv, Grows, Resolve, Knows, KnowsTicket, KnowsStarted, Transactions.Dispatched, StartOf;
    var t := at.pc.ticket;
    AtCommitKnows(db, at);
    CommitDecided(db, now, at, appendOk);
    var verdict := Resolve(db, Td(at.call), at.call.request.expected, now);
    if verdict.Err? {
      GrowsReflexive(db);
      RefusedKnows(db, at, DispatchRefused(verdict.error), Some(t.frozen.id));
    } else if !appendOk {
      GrowsReflexive(db);
      RefusedKnows(db, at, DispatchRefused(WriteFailed), Some(t.frozen.id));
    } else {
      CommitStarts(db, now, at.call, t);
      StartedKnows(db, Transactions.Dispatched(db, Td(at.call), now, StartOf(at.call, t)), at,
          Started(t, |db.log| + 1));
    }
  }

  lemma {:induction false} CommitStarts(db: Db, now: Timestamps.Utc, c: Call, t: Ticket)
    requires DbInv(db) && KnowsTicket(db, c, t)
    requires Resolve(db, Td(c), c.request.expected, now).Ok?
    ensures FindToken(db.proposals, Td(c)) < |db.proposals|
    ensures
      var next := Transactions.Dispatched(db, Td(c), now, StartOf(c, t));
      && DbInv(next) && Grows(db, next)
      && KnowsStarted(next, c, Started(t, |db.log| + 1))
  {
    var i := FindToken(db.proposals, Td(c));
    Transactions.ResolvedRow(db, Td(c), c.request.expected, now);
    hide Resolve;
    assert StartOf(c, t).proposalRef == Some(db.proposals[i].id);
    Transactions.DispatchKeeps(db, Td(c), c.request.expected, now, StartOf(c, t));
    var next := Transactions.Dispatched(db, Td(c), now, StartOf(c, t));
    KeepUniqueness(next);
    KnowsTicketStable(db, next, c, t);
    AppendGapless(db.log, StartOf(c, t));
    hide DbInv, Grows, KnowsTicket, StartOf;
    TokenAt(next.proposals, Td(c), i);
  }

  // The refinement of every step: it keeps the database invariant, only grows the database, and
  // leaves the attempt knowing what its next step relies on.
  lemma {:induction false} MoveKeeps(db: Db, now: Timestamps.Utc, at: Attempt, action: Action)
    requires DbInv(db) && Knows(db, at) && Ready(at, action)
    ensures
      var (next, at') := Move(db, now, at, action);
      DbInv(next) && Grows(db, next) && Knows(next, at')
  {
    hide DbInv, Grows, AfterToken, AfterChecks, AfterAuthorize, AfterVerifyProposal, AfterVerifyBinding, AfterCommit,
         KnowsStarted, KnowsRow, KnowsBinding, KnowsExamined, KnowsApproval, KnowsTicket, Transactions.WithEvent;
    GrowsReflexive(db);
    match action {
      case ReadToken => TokenStep(db, now, at);
      case ReadBinding => BindingStep(db, at);
      case RunChecks(o) => ChecksStep(db, at, o);
      case Authorize => AuthorizeStep(db, at);
      case VerifyProposalRow => VerifyProposalStep(db, now, at);
      case VerifyBindingRow => VerifyBindingStep(db, at);
      case Commit(ok) => CommitStep(db, now, at, ok);
      case CallExecutor =>
      case ExecutorReturns(outcome, code) =>
      case RecordOutcome(ok) =>
        Transactions.AppendKeeps(db, OutcomeOf(at));
        var next := Transactions.WithEvent(db, OutcomeOf(at));
        KeepUniqueness(next);
        KnowsStable(db, next, at);
        DoneKnows(db, at);
        DoneKnows(next, at);
      case RecordRefusal(ok) =>
        var e := RefusalEvent(at.pc.ref, FailureCode(at.pc.reason));
        Transactions.AppendKeeps(db, e);
        var next := Transactions.WithEvent(db, e);
        KeepUniqueness(next);
        KnowsStable(db, next, at);
        DoneKnows(db, at);
        DoneKnows(next, at);
    }
  }

  lemma {:induction false} KeepUniqueness(db: Db)
    requires DbInv(db)
    ensures Unique(db.proposals) && UniqueBindings(db.bindings) && UniqueApprovals(db.approvals)
  {
  }

  lemma {:induction false} DoneKnows(db: Db, at: Attempt)
    requires Knows(db, at) && (at.pc.AtOutcome? || at.pc.AtRefusal? || at.pc.Done?)
    ensures Knows(db, at.(pc := Done))
  {
    hide KnowsTicket;
  }

  /* ---------- What a started attempt knows ---------- */

  lemma {:induction false} KnownStarted(db: Db, at: Attempt)
    requires Knows(db, at) && at.started.Some?
    ensures KnowsStarted(db, at.call, at.started.value)
    ensures Library.Loaded(at.call.config.library)
  {
    hide KnowsStarted;
  }

  lemma {:induction false} StartedFacts(db: Db, c: Call, s: Started)
    requires KnowsStarted(db, c, s)
    ensures ExaminedHolds(c.config, c.request, s.ticket.frozen, s.ticket.x)
    ensures PathHolds(c.config, s.ticket)
    ensures FetchBinding(db, s.ticket.frozen.id) == Some(s.ticket.x.binding)
    ensures 1 <= s.sequence <= |db.log|
    ensures db.log[s.sequence - 1] == Event(s.sequence, ExecutionStart, Some(s.ticket.frozen.id), c.owner,
        Some(ScriptSha(s.ticket.x.script)), Some(s.ticket.path), None, "")
    ensures c.request.expected.Some? ==> c.request.expected.value == InvocationSha(s.ticket.frozen.invocation)
    ensures FindToken(db.proposals, Td(c)) < |db.proposals|
    ensures db.proposals[FindToken(db.proposals, Td(c))].state == Consumed
  {
    hide ExaminedHolds, PathHolds;
  }
}
