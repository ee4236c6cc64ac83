// The shared database: its rows, the statements the services run on them, and one pure
// function per transaction. A transaction either yields the next database or is refused
// and leaves the database as it was.
module Records {
  import opened Wrappers
  import opened FirstMatch
  import opened Domain
  import Text
  import Timestamps

  datatype ProposalState = Active | Consumed

  datatype Proposal = Proposal(
    id: string,
    invocation: Invocation,
    digest: Digest,
    tokenDigest: TokenDigest,
    createdAt: string,
    expiresAt: string,
    state: ProposalState,
    consumedAt: Option<string>
  )

  datatype BindingRow = BindingRow(proposalId: string, digest: Digest, document: BindingDocument)

  datatype ApprovalState = Recorded | Used

  datatype Approval = Approval(
    approvalId: string,
    tokenDigest: TokenDigest,
    proposalId: string,
    operator: string,
    invocationDigest: Digest,
    revisionHash: Digest,
    expiresAt: string,
    bindingDigest: Option<Digest>,
    state: ApprovalState
  )

  datatype EventKind = ProposalOpened | ExecutionStart | ExecutionOutcome | Refusal | SearchRequest | Guidance

  datatype Outcome = Success | Failure | Unknown | Refused

  datatype AuthorizationPath = Standing | ProposalBound

  // What an event's payload says, as far as any reader looks: the start names the dispatching
  // owner (`owner`, "" when it has none) and the script handed to the executor.
  datatype Event = Event(
    sequence: nat,
    kind: EventKind,
    proposalRef: Option<string>,
    owner: string,
    script: Option<Digest>,
    path: Option<AuthorizationPath>,
    outcome: Option<Outcome>,
    failureCode: string
  )

  datatype Db = Db(
    proposals: seq<Proposal>,
    bindings: seq<BindingRow>,
    approvals: seq<Approval>,
    log: seq<Event>
  )

  const EMPTY: Db := Db([], [], [], [])

  datatype Rejection =
    | UnknownToken
    | InvocationMismatch
    | AlreadyConsumed
    | Expired
    | DidNotApply
    | LegacyProposal
    | ApprovalAlreadyRecorded
    | ApprovalReplayed
    | HostSupplied
    | OperatorMismatch
    | WriteFailed
    | DuplicateKey
    | NonPositiveTtl
    | ForeignConsumption

  /* ---------- SELECT by key ---------- */

  function FindToken(rows: seq<Proposal>, td: TokenDigest): (i: nat)
    ensures i <= |rows|
    ensures i < |rows| ==> rows[i].tokenDigest == td
    ensures forall k :: 0 <= k < i ==> rows[k].tokenDigest != td
  {
    First(rows, (p: Proposal) => p.tokenDigest == td)
  }

  function FindId(rows: seq<Proposal>, id: string): (i: nat)
    ensures i <= |rows|
    ensures i < |rows| ==> rows[i].id == id
    ensures forall k :: 0 <= k < i ==> rows[k].id != id
  {
    First(rows, (p: Proposal) => p.id == id)
  }

  function FindBinding(rows: seq<BindingRow>, id: string): (i: nat)
    ensures i <= |rows|
    ensures i < |rows| ==> rows[i].proposalId == id
    ensures forall k :: 0 <= k < i ==> rows[k].proposalId != id
  {
    First(rows, (b: BindingRow) => b.proposalId == id)
  }

  function FindApproval(rows: seq<Approval>, td: TokenDigest): (i: nat)
    ensures i <= |rows|
    ensures i < |rows| ==> rows[i].tokenDigest == td
    ensures forall k :: 0 <= k < i ==> rows[k].tokenDigest != td
  {
    First(rows, (a: Approval) => a.tokenDigest == td)
  }

  function FetchBinding(db: Db, id: string): Option<BindingRow> {
    var i := FindBinding(db.bindings, id);
    if i < |db.bindings| then Some(db.bindings[i]) else None
  }

  function FetchApproval(db: Db, td: TokenDigest): Option<Approval> {
    var i := FindApproval(db.approvals, td);
    if i < |db.approvals| then Some(db.approvals[i]) else None
  }

  /* ---------- The audit log ---------- */

  // The highest sequence number in use; zero for an empty log.
  function MaxSequence(log: seq<Event>): (m: nat) {
    if log == [] then 0
    else
      var rest := MaxSequence(log[..|log| - 1]);
      var last := log[|log| - 1].sequence;
      if last > rest then last else rest
  }

  function Append(log: seq<Event>, e: Event): seq<Event> {
    log + [e.(sequence := MaxSequence(log) + 1)]
  }

  // Several appends sharing one transaction.
  function AppendAll(log: seq<Event>, es: seq<Event>): seq<Event>
    decreases |es|
  {
    if es == [] then log else AppendAll(Append(log, es[0]), es[1..])
  }

  function ProposalEvent(id: string): Event {
    Event(0, ProposalOpened, None, "", None, None, None, "")
  }

  function StartEvent(id: string, owner: string, script: Digest, path: AuthorizationPath): Event {
    Event(0, ExecutionStart, Some(id), owner, Some(script), Some(path), None, "")
  }

  function OutcomeEvent(id: Option<string>, path: Option<AuthorizationPath>, outcome: Outcome, code: string): Event {
    Event(0, ExecutionOutcome, id, "", None, path, Some(outcome), code)
  }

  function RefusalEvent(id: Option<string>, code: string): Event {
    Event(0, Refusal, id, "", None, None, Some(Refused), code)
  }

  /* ---------- Eligibility ---------- */

  // The order of rejections is fixed: unknown, mismatched, consumed, expired.
  function Check(row: Option<Proposal>, expected: Option<Digest>, now: Timestamps.Utc): Option<Rejection> {
    if row.None? then Some(UnknownToken)
    else if expected.Some? && expected.value != row.value.digest then Some(InvocationMismatch)
    else if row.value.state == Consumed then Some(AlreadyConsumed)
    else
      var expiry := Timestamps.Parse(row.value.expiresAt);
      if expiry.Some? && Timestamps.Before(now, expiry.value) then None else Some(Expired)
  }

  function RowByToken(db: Db, td: TokenDigest): Option<Proposal> {
    var i := FindToken(db.proposals, td);
    if i < |db.proposals| then Some(db.proposals[i]) else None
  }

  function RowById(db: Db, id: string): Option<Proposal> {
    var i := FindId(db.proposals, id);
    if i < |db.proposals| then Some(db.proposals[i]) else None
  }

  function Resolve(db: Db, td: TokenDigest, expected: Option<Digest>, now: Timestamps.Utc)
    : Result<Proposal, Rejection> {
    var row := RowByToken(db, td);
    var rejection := Check(row, expected, now);
    if rejection.Some? then Err(rejection.value) else Ok(row.value)
  }

  function FetchById(db: Db, id: string, now: Timestamps.Utc): Result<Proposal, Rejection> {
    var row := if id == "" then None else RowById(db, id);
    var rejection := Check(row, None, now);
    if rejection.Some? then Err(rejection.value) else Ok(row.value)
  }

  /* ---------- open_proposal ---------- */

  // What the caller mints and reads before the transaction: a fresh id and token, the clock and the ttl.
  datatype Minted = Minted(id: string, tokenDigest: TokenDigest, now: Timestamps.Utc, expiry: Timestamps.Utc)

  predicate TtlPositive(m: Minted) {
    Timestamps.Before(m.now, m.expiry)
  }

  function NewProposal(m: Minted, invocation: Invocation): Proposal
    requires TtlPositive(m)
  {
    Proposal(m.id, invocation, InvocationSha(invocation), m.tokenDigest,
             Timestamps.Format(m.now), Timestamps.Format(m.expiry), Active, None)
  }

  function NewBindings(m: Minted, invocation: Invocation, template: Option<BindingTemplate>): seq<BindingRow> {
    if template.None? then []
    else
      var document := template.value.Finalize(m.id, InvocationSha(invocation));
      [BindingRow(m.id, BindingSha(document), document)]
  }

  // The row, its binding and its audit event are inserted together or not at all. The UNIQUE
  // constraints refuse a token or an id that is already present.
  function OpenProposal(db: Db, m: Minted, invocation: Invocation, template: Option<BindingTemplate>, appendOk: bool)
    : Result<Db, Rejection>
    requires TtlPositive(m)
  {
    if RowByToken(db, m.tokenDigest).Some? || RowById(db, m.id).Some?
       || (template.Some? && FetchBinding(db, m.id).Some?) then
      Err(DuplicateKey)
    else if !appendOk then Err(WriteFailed)
    else Ok(Db(db.proposals + [NewProposal(m, invocation)],
               db.bindings + NewBindings(m, invocation, template),
               db.approvals,
               Append(db.log, ProposalEvent(m.id))))
  }

  /* ---------- Approvals ---------- */

  function NewApproval(approvalId: string, operator: string, row: Proposal, binding: Option<BindingRow>): Approval {
    Approval(approvalId, row.tokenDigest, row.id, operator, row.digest, row.invocation.revisionHash, row.expiresAt,
             if binding.Some? then Some(binding.value.digest) else None, Recorded)
  }

  function InsertApproval(db: Db, a: Approval): Result<Db, Rejection> {
    if FetchApproval(db, a.tokenDigest).Some? then Err(ApprovalAlreadyRecorded)
    else Ok(db.(approvals := db.approvals + [a]))
  }

  function RecordApproval(db: Db, td: TokenDigest, approvalId: string, operator: string, now: Timestamps.Utc)
    : Result<Db, Rejection> {
    var frozen := Resolve(db, td, None, now);
    if frozen.Err? then Err(frozen.error)
    else InsertApproval(db, NewApproval(approvalId, operator, frozen.value, FetchBinding(db, frozen.value.id)))
  }

  function RecordApprovalById(db: Db, id: string, approvalId: string, operator: string, now: Timestamps.Utc)
    : Result<Db, Rejection> {
    var frozen := FetchById(db, id, now);
    if frozen.Err? then Err(frozen.error)
    else
      var binding := FetchBinding(db, id);
      if binding.None? then Err(LegacyProposal)
      else InsertApproval(db, NewApproval(approvalId, operator, frozen.value, binding))
  }

  /* ---------- consume, and the gate's composed callback ---------- */

  // The rows the swap updates: active, under this token, with an expiry behind now as text.
  predicate UpdateHits(row: Proposal, td: TokenDigest, nowText: string) {
    row.tokenDigest == td && row.state == Active && Text.Less(nowText, row.expiresAt)
  }

  function UpdateRows(rows: seq<Proposal>, td: TokenDigest, nowText: string): (r: seq<Proposal>)
    ensures |r| == |rows|
  {
    if rows == [] then []
    else
      var first := if UpdateHits(rows[0], td, nowText)
                   then rows[0].(state := Consumed, consumedAt := Some(nowText)) else rows[0];
      [first] + UpdateRows(rows[1..], td, nowText)
  }

  function UpdateCount(rows: seq<Proposal>, td: TokenDigest, nowText: string): (n: nat) {
    if rows == [] then 0
    else (if UpdateHits(rows[0], td, nowText) then 1 else 0) + UpdateCount(rows[1..], td, nowText)
  }

  // Compare-and-swap on the proposal row, before any callback runs, given the verdict of the
  // first check and of the check repeated when the swap hits nothing.
  function SwapRow(db: Db, td: TokenDigest, nowText: string, first: Option<Rejection>, second: Option<Rejection>)
    : Result<Db, Rejection>
  {
    if first.Some? then Err(first.value)
    else if UpdateCount(db.proposals, td, nowText) != 1 then
      Err(if second.Some? then second.value else DidNotApply)
    else Ok(db.(proposals := UpdateRows(db.proposals, td, nowText)))
  }

  // `again` is the clock read on the branch that checks a second time.
  function Swap(db: Db, td: TokenDigest, expected: Option<Digest>, now: Timestamps.Utc, again: Timestamps.Utc)
    : Result<Db, Rejection>
  {
    var row := RowByToken(db, td);
    SwapRow(db, td, Timestamps.Format(now), Check(row, expected, now), Check(row, expected, again))
  }

  // Spend the recorded approval, if there is one.
  function Spend(db: Db, td: TokenDigest): Result<Db, Rejection> {
    var i := FindApproval(db.approvals, td);
    if i == |db.approvals| then Ok(db)
    else if db.approvals[i].state == Used then Err(ApprovalReplayed)
    else Ok(db.(approvals := db.approvals[i := db.approvals[i].(state := Used)]))
  }

  // The dispatch transaction: swap, start record, spend. `appendOk` is whether the append persists.
  function Dispatch(db: Db, td: TokenDigest, expected: Option<Digest>, now: Timestamps.Utc, again: Timestamps.Utc,
          start: Event, appendOk: bool)
    : Result<Db, Rejection>
  {
    var swapped := Swap(db, td, expected, now, again);
    if swapped.Err? then swapped
    else if !appendOk then Err(WriteFailed)
    else Spend(swapped.value.(log := Append(swapped.value.log, start)), td)
  }
}
