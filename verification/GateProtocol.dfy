// One attempt of the execution gate as a program counter over its database steps. Each read is
// its own connection; only the dispatch, the outcome and the refusal are write transactions.
module GateProtocol {
  import opened Wrappers
  import opened Domain
  import opened Records
  import opened Integrity
  import opened GateChecks
  import Transactions
  import Catalog
  import Library
  import Timestamps

  // What the gate holds when it decides to dispatch.
  datatype Ticket = Ticket(frozen: Proposal, x: Examined, path: AuthorizationPath, approval: Option<Approval>)

  datatype Pc =
    | AtToken
    | AtBinding(frozen: Proposal)
    | AtExamine(frozen: Proposal, row: Option<BindingRow>)
    | AtAuthorize(frozen: Proposal, x: Examined)
    | AtVerifyProposal(frozen: Proposal, x: Examined, approval: Approval)
    | AtVerifyBinding(frozen: Proposal, x: Examined, approval: Approval)
    | AtCommit(ticket: Ticket)
    | AtExecute
    | InExecutor
    | AtOutcome(outcome: Outcome, code: string)
    | AtRefusal(reason: RefusalCode, ref: Option<string>)
    | Done

  // Set when the dispatch transaction commits: the ticket and the sequence of its start record.
  datatype Started = Started(ticket: Ticket, sequence: nat)

  // Who executes what, under which configuration; fixed for the whole attempt.
  datatype Call = Call(owner: string, request: Request, config: Config)

  datatype Attempt = Attempt(call: Call, pc: Pc, started: Option<Started>)

  datatype Action =
    | ReadToken
    | ReadBinding
    | RunChecks(oracle: Oracle)
    | Authorize
    | VerifyProposalRow
    | VerifyBindingRow
    | Commit(appendOk: bool)
    | CallExecutor
    | ExecutorReturns(outcome: Outcome, code: string)
    | RecordOutcome(appendOk: bool)
    | RecordRefusal(appendOk: bool)

  predicate Writes(action: Action) {
    action.Commit? || action.RecordOutcome? || action.RecordRefusal?
  }

  // From the commit of the dispatch transaction to the record of its outcome.
  predicate Executing(pc: Pc) {
    pc.AtExecute? || pc.InExecutor? || pc.AtOutcome?
  }

  predicate Ready(at: Attempt, action: Action) {
    match action
    case ReadToken => at.pc.AtToken?
    case ReadBinding => at.pc.AtBinding?
    case RunChecks(_) => at.pc.AtExamine?
    case Authorize => at.pc.AtAuthorize?
    case VerifyProposalRow => at.pc.AtVerifyProposal?
    case VerifyBindingRow => at.pc.AtVerifyBinding?
    case Commit(_) => at.pc.AtCommit?
    case CallExecutor => at.pc.AtExecute?
    case ExecutorReturns(outcome, _) => at.pc.InExecutor? && outcome != Refused
    case RecordOutcome(_) => at.pc.AtOutcome? && at.started.Some?
    case RecordRefusal(_) => at.pc.AtRefusal?
  }

  function Td(c: Call): TokenDigest {
    Hmac(c.request.token)
  }

  function Refuse(at: Attempt, code: RefusalCode, ref: Option<string>): Attempt {
    at.(pc := AtRefusal(code, ref))
  }

  function StartOf(c: Call, t: Ticket): Event {
    StartEvent(t.frozen.id, c.owner, ScriptSha(t.x.script), t.path)
  }

  function AfterToken(db: Db, now: Timestamps.Utc, at: Attempt): Attempt {
    if Library.ResolveCitation(at.call.config.library, at.call.request.citation).Err? then
      Refuse(at, EvidenceRejected, None)
    else
      var frozen := Resolve(db, Td(at.call), at.call.request.expected, now);
      if frozen.Err? then Refuse(at, TokenRejected(frozen.error), None) else at.(pc := AtBinding(frozen.value))
  }

  function AfterChecks(at: Attempt, o: Oracle): Attempt
    requires at.pc.AtExamine?
  {
    var frozen := at.pc.frozen;
    var ev := Library.ResolveCitation(at.call.config.library, at.call.request.citation);
    if ev.Err? then Refuse(at, EvidenceRejected, None)
    else
      var x := Examine(at.call.config, at.call.request, ev.value, frozen, at.pc.row, o);
      if x.Err? then Refuse(at, x.error, Some(frozen.id)) else at.(pc := AtAuthorize(frozen, x.value))
  }

  function AfterAuthorize(db: Db, at: Attempt): Attempt
    requires at.pc.AtAuthorize?
  {
    var frozen, x := at.pc.frozen, at.pc.x;
    var standing := at.call.config.policy.standing;
    var i := FindStanding(standing, frozen.invocation, x.binding.document.template, ScriptSha(x.script));
    if i < |standing| then at.(pc := AtCommit(Ticket(frozen, x, Standing, None)))
    else
      var row := FetchApproval(db, Td(at.call));
      if VerifyApprovalRow(at.call.config, row).Some? then Refuse(at, NoAuthorizationPath, Some(frozen.id))
      else at.(pc := AtVerifyProposal(frozen, x, row.value))
  }

  function AfterVerifyProposal(db: Db, now: Timestamps.Utc, at: Attempt): Attempt
    requires at.pc.AtVerifyProposal?
  {
    var pc := at.pc;
    if VerifyProposal(pc.approval, Resolve(db, Td(at.call), None, now)).Some? then
      Refuse(at, NoAuthorizationPath, Some(pc.frozen.id))
    else at.(pc := AtVerifyBinding(pc.frozen, pc.x, pc.approval))
  }

  function AfterVerifyBinding(db: Db, at: Attempt): Attempt
    requires at.pc.AtVerifyBinding?
  {
    var pc := at.pc;
    if VerifyBinding(pc.approval, FetchBinding(db, pc.frozen.id)).Some? then
      Refuse(at, NoAuthorizationPath, Some(pc.frozen.id))
    else at.(pc := AtCommit(Ticket(pc.frozen, pc.x, ProposalBound, Some(pc.approval))))
  }

  function AfterCommit(db: Db, now: Timestamps.Utc, at: Attempt, appendOk: bool): (Db, Attempt)
    requires at.pc.AtCommit?
  {
    var t := at.pc.ticket;
    var r := Dispatch(db, Td(at.call), at.call.request.expected, now, now, StartOf(at.call, t), appendOk);
    if r.Err? then (db, Refuse(at, DispatchRefused(r.error), Some(t.frozen.id)))
    else (r.value, at.(pc := AtExecute, started := Some(Started(t, MaxSequence(db.log) + 1))))
  }

  function OutcomeOf(at: Attempt): Event
    requires at.pc.AtOutcome? && at.started.Some?
  {
    var t := at.started.value.ticket;
    OutcomeEvent(Some(t.frozen.id), Some(t.path), at.pc.outcome, at.pc.code)
  }

  // One step of one attempt on the shared database.
  function Move(db: Db, now: Timestamps.Utc, at: Attempt, action: Action): (Db, Attempt)
    requires Ready(at, action)
  {
    match action
    case ReadToken => (db, AfterToken(db, now, at))
    case ReadBinding => (db, at.(pc := AtExamine(at.pc.frozen, FetchBinding(db, at.pc.frozen.id))))
    case RunChecks(o) => (db, AfterChecks(at, o))
    case Authorize => (db, AfterAuthorize(db, at))
    case VerifyProposalRow => (db, AfterVerifyProposal(db, now, at))
    case VerifyBindingRow => (db, AfterVerifyBinding(db, at))
    case Commit(ok) => AfterCommit(db, now, at, ok)
    case CallExecutor => (db, at.(pc := InExecutor))
    case ExecutorReturns(outcome, code) => (db, at.(pc := AtOutcome(outcome, code)))
    case RecordOutcome(ok) => (if ok then Transactions.WithEvent(db, OutcomeOf(at)) else db, at.(pc := Done))
    case RecordRefusal(ok) =>
      (if ok then Transactions.WithEvent(db, RefusalEvent(at.pc.ref, FailureCode(at.pc.reason)))
          else db, at.(pc := Done))
  }

  /* ---------- What an attempt knows of the shared database ---------- */

  // The row under this token is a later version of the one that was read.
  ghost predicate KnowsRow(db: Db, td: TokenDigest, frozen: Proposal) {
    var i := FindToken(db.proposals, td);
    i < |db.proposals| && RowKept(frozen, db.proposals[i])
  }

  ghost predicate KnowsBinding(db: Db, frozen: Proposal, row: BindingRow) {
    FetchBinding(db, frozen.id) == Some(row)
  }

  ghost predicate KnowsApproval(db: Db, td: TokenDigest, a: Approval) {
    var i := FindApproval(db.approvals, td);
    i < |db.approvals| && a.state == Recorded && ApprovalKept(a, db.approvals[i])
  }

  lemma {:induction false} KnowsRowStable(a: Db, b: Db, td: TokenDigest, frozen: Proposal)
    requires KnowsRow(a, td, frozen) && Grows(a, b) && Unique(b.proposals)
    ensures KnowsRow(b, td, frozen)
  {
    var i := FindToken(a.proposals, td);
    TokenAt(b.proposals, td, i);
  }

  lemma {:induction false} KnowsBindingStable(a: Db, b: Db, frozen: Proposal, row: BindingRow)
    requires KnowsBinding(a, frozen, row) && Grows(a, b) && UniqueBindings(b.bindings)
    ensures KnowsBinding(b, frozen, row)
  {
    var i, k := FindBinding(a.bindings, frozen.id), FindBinding(b.bindings, frozen.id);
    assert b.bindings[i] == a.bindings[i];
    assert k == i;
  }

  lemma {:induction false} KnowsApprovalStable(a: Db, b: Db, td: TokenDigest, approval: Approval)
    requires KnowsApproval(a, td, approval) && Grows(a, b) && UniqueApprovals(b.approvals)
    ensures KnowsApproval(b, td, approval)
  {
    var i, k := FindApproval(a.approvals, td), FindApproval(b.approvals, td);
    assert ApprovalKept(a.approvals[i], b.approvals[i]);
    assert k == i;
  }

  // The approval was recorded by the configured operator for this very proposal and binding.
  ghost predicate ApprovalBinds(config: Config, frozen: Proposal, x: Examined, a: Approval) {
    && a.operator == config.verifier == config.operator
    && a.proposalId == frozen.id
    && a.invocationDigest == frozen.digest
    && a.revisionHash == frozen.invocation.revisionHash
    && a.expiresAt == frozen.expiresAt
    && a.bindingDigest == Some(x.binding.digest)
  }

  // Exactly one authorization path, and it is a valid one.
  ghost predicate PathHolds(config: Config, t: Ticket) {
    match t.path
    case Standing =>
      && t.approval.None?
      && exists k :: 0 <= k < |config.policy.standing| &&
           Permits(config.policy.standing[k], t.frozen.invocation, t.x.binding.document.template, t.x.script)
    case ProposalBound => t.approval.Some? && ApprovalBinds(config, t.frozen, t.x, t.approval.value)
  }

  ghost predicate KnowsExamined(db: Db, c: Call, frozen: Proposal, x: Examined) {
    && KnowsRow(db, Td(c), frozen) && frozen.state == Active
    && KnowsBinding(db, frozen, x.binding)
    && ExaminedHolds(c.config, c.request, frozen, x)
  }

  ghost predicate KnowsTicket(db: Db, c: Call, t: Ticket) {
    && KnowsExamined(db, c, t.frozen, t.x)
    && PathHolds(c.config, t)
    && (t.approval.Some? ==> KnowsApproval(db, Td(c), t.approval.value))
  }

  ghost predicate KnowsStarted(db: Db, c: Call, s: Started) {
    && KnowsTicket(db, c, s.ticket)
    && db.proposals[FindToken(db.proposals, Td(c))].state == Consumed
    && 1 <= s.sequence <= |db.log|
    && db.log[s.sequence - 1] == Event(s.sequence, ExecutionStart, Some(s.ticket.frozen.id), c.owner,
                                       Some(ScriptSha(s.ticket.x.script)), Some(s.ticket.path), None, "")
    && (c.request.expected.Some? ==> c.request.expected.value == InvocationSha(s.ticket.frozen.invocation))
  }

  // What holds of an attempt at every point, between any two steps of anybody.
  ghost predicate Knows(db: Db, at: Attempt) {
    && Library.Loaded(at.call.config.library)
    && (at.call.config.catalog.Some? ==> Catalog.Loaded(at.call.config.catalog.value))
    && (Executing(at.pc) ==> at.started.Some?)
    && (at.started.Some? ==> (Executing(at.pc) || at.pc.Done?) && KnowsStarted(db, at.call, at.started.value))
    && match at.pc
       case AtBinding(frozen) => KnowsRow(db, Td(at.call), frozen) && frozen.state == Active
       case AtExamine(frozen, row) =>
         KnowsRow(db, Td(at.call), frozen) && frozen.state == Active
             && (row.Some? ==> KnowsBinding(db, frozen, row.value))
       case AtAuthorize(frozen, x) => KnowsExamined(db, at.call, frozen, x)
       case AtVerifyProposal(frozen, x, a) =>
         KnowsExamined(db, at.call, frozen, x) && KnowsApproval(db, Td(at.call), a)
             && a.operator == at.call.config.verifier == at.call.config.operator
       case AtVerifyBinding(frozen, x, a) =>
         KnowsExamined(db, at.call, frozen, x) && KnowsApproval(db, Td(at.call), a)
             && a.operator == at.call.config.verifier == at.call.config.operator
         && a.proposalId == frozen.id && a.invocationDigest == frozen.digest
         && a.revisionHash == frozen.invocation.revisionHash && a.expiresAt == frozen.expiresAt
       case AtCommit(t) => KnowsTicket(db, at.call, t)
       case _ => true
  }

  lemma {:induction false} KnowsExaminedStable(a: Db, b: Db, c: Call, frozen: Proposal, x: Examined)
    requires KnowsExamined(a, c, frozen, x) && Grows(a, b) && Unique(b.proposals) && UniqueBindings(b.bindings)
    ensures KnowsExamined(b, c, frozen, x)
  {
    KnowsRowStable(a, b, Td(c), frozen);
    KnowsBindingStable(a, b, frozen, x.binding);
  }

  lemma {:induction false} KnowsTicketStable(a: Db, b: Db, c: Call, t: Ticket)
    requires KnowsTicket(a, c, t) && Grows(a, b)
    requires Unique(b.proposals) && UniqueBindings(b.bindings) && UniqueApprovals(b.approvals)
    ensures KnowsTicket(b, c, t)
  {
    KnowsExaminedStable(a, b, c, t.frozen, t.x);
    if t.approval.Some? {
      KnowsApprovalStable(a, b, Td(c), t.approval.value);
    }
  }

  lemma {:induction false} KnowsStartedStable(a: Db, b: Db, c: Call, s: Started)
    requires KnowsStarted(a, c, s) && Grows(a, b)
    requires Unique(b.proposals) && UniqueBindings(b.bindings) && UniqueApprovals(b.approvals)
    ensures KnowsStarted(b, c, s)
  {
    KnowsTicketStable(a, b, c, s.ticket);
    hide KnowsTicket;
    var i := FindToken(a.proposals, Td(c));
    TokenAt(b.proposals, Td(c), i);
    assert RowKept(a.proposals[i], b.proposals[i]);
  }

  // Interference by any committed transaction of any process leaves an attempt's knowledge intact.
  lemma {:induction false} KnowsStable(a: Db, b: Db, at: Attempt)
    requires Knows(a, at) && Grows(a, b)
    requires Unique(b.proposals) && UniqueBindings(b.bindings) && UniqueApprovals(b.approvals)
    ensures Knows(b, at)
  {
    hide KnowsRow, KnowsBinding, KnowsApproval, KnowsStarted, KnowsExamined, KnowsTicket, ExaminedHolds, PathHolds,
         Grows;
    if at.started.Some? {
      KnowsStartedStable(a, b, at.call, at.started.value);
    }
    match at.pc {
      case AtBinding(frozen) => KnowsRowStable(a, b, Td(at.call), frozen);
      case AtExamine(frozen, row) =>
        KnowsRowStable(a, b, Td(at.call), frozen);
        if row.Some? {
          KnowsBindingStable(a, b, frozen, row.value);
        }
      case AtAuthorize(frozen, x) => KnowsExaminedStable(a, b, at.call, frozen, x);
      case AtVerifyProposal(frozen, x, ap) =>
        KnowsExaminedStable(a, b, at.call, frozen, x);
        KnowsApprovalStable(a, b, Td(at.call), ap);
      case AtVerifyBinding(frozen, x, ap) =>
        KnowsExaminedStable(a, b, at.call, frozen, x);
        KnowsApprovalStable(a, b, Td(at.call), ap);
      case AtCommit(t) => KnowsTicketStable(a, b, at.call, t);
      case _ =>
    }
  }
}
