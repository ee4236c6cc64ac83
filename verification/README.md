# One-time execution, modelled and proved

This project models a server that lets an operator approve and then execute, at most once, an
operation proposed from a verified runbook. A proposal freezes an invocation under a one-time
token; an approval is recorded against it; the execution gate re-checks everything, consumes the
token, writes a start record and spends the approval in one transaction, runs the script it
resolved, and records the outcome. Processes may crash anywhere; crash recovery closes what dead
processes left open. All of it shares one database file with an append-only audit log.

The main results are about whole runs. `World` describes the system as a state machine: one
database, owner lock files, any number of gate attempts (each split into its separate reads, its
dispatch transaction, the call of its executor, that call's return and its outcome append),
approval recordings, other audit appends, recovery sweeps that probe while they hold the write
lock, staging-directory sweeps, and a clock that may move either way. Any enabled step may come next, appends may fail, and a process
may end between any two steps. `Protocol` proves the invariant inductive and draws the safety
statements from it. The key argument is stability (`GateProtocol.KnowsStable`): what an attempt
learned through reads at different times is still true when its dispatch commits.

Around that core:

- `Records`, `Integrity`, `Transactions`: the rows, one pure function per transaction, the
  database invariant, and that every transaction keeps it and only lets the database grow.
- `Store`, `Services`, `Owners`, `Sweeper`, `Gate`, `Observation`, `Poller`, `SqlGuard`,
  `PolicyLoading`, `Catalog`, `Library`: the program's objects and loops as classes and methods,
  each proved against those functions. `Gate.ExecutionGate.Execute` is proved to be the protocol's
  own sequence of steps (`GateRun.Decide`).
- `Eligibility`, `Outcomes`: what the services and the gate decide, said of the stored rows and of
  the inputs rather than of the functions that compute it.
- `Completeness`: when a dispatch is certain, and exactly when a binding refusal happens.
- `Numbers`, `JsonText`, `Freeze`, `CanonicalOrder`, `Quoting`: the canonical-JSON freeze boundary.
- `Redaction`, `SensitiveKeys`: write-time redaction, and that the owner named in a start record can
  be read back.
- `Timestamps`, `Calendar`, `Text`: stored timestamps and their text order.
- `Scoring`, `SqlSkips`: what a search score counts, and what the statement guard skips.

## Modelling decisions

- SHA-256 and HMAC are free constructors (`Domain.Digest`, `Domain.TokenDigest`): equal digests
  have equal preimages. Minted ids and tokens are parameters; the UNIQUE constraints refuse a
  repeated one.
- Rows hold invocation values that have been through the freeze boundary, so the program's
  comparisons of canonical bytes are equality of values. `Freeze.SameTextIffSameValue` is what
  justifies this: equal texts mean equal values up to member order.
- Write transactions are atomic and serialized; reads see the last committed state. `Store`
  models rollback as restoring a snapshot.
- Closing an execution owner is the end of its process: none of its attempts takes another step.
  Without that, an outcome append of a closed owner could come after recovery's `unknown`, since
  the gate's own append (`src/ops_guard/gate.py:606-615`) looks for no earlier outcome.
- The consume step always carries the gate's callback (start record, then approval flip), as
  every caller in the repository does.
- Proposals of a run are opened by the proposal tool with a loaded library, and with a loaded
  catalog if one is configured. The provenance theorem needs the catalog; so does the runner
  lookup at `src/ops_guard/gate.py:533`, which would raise outside any handler without one.
- An event keeps only what a reader looks at. The owner id in a start payload is kept as a field;
  `Redaction.OwnerSurvivesIff` is why reading it back from the stored text gives the same id.
- Number tokens are the codec's, whose contract (`Freeze.Faithful`) is what ECMAScript promises of
  number-to-string conversion. Lower-casing and whitespace of full Unicode are parameters of
  `SqlGuard` and `Redaction`; `Library` reads text as ASCII.
- The script source, the observers, the executor and the clock are parameters.

Where the code and its description differ, the model follows the code:

- `src/ops_guard/owner.py:13-15` says a lockable file proves its owner gone. Between creating and
  locking the file it does not: `OwnerLocks.EarlyProbeMisleads` gives the run, and
  `OwnerLocks.DeadTrustedIff` the exact condition. No start record or staging directory names an
  owner in that state, so recovery is not affected.
- `src/ops_guard/recovery.py:43-53` calls repeated sweeps safe. A start record without a proposal
  reference would be closed again by every sweep (`Recovery.OrphanSweptAgain`); the exact
  condition is `Recovery.SweepIdempotentIff`, and the gate never writes such a record.
- An observation wait is never granted past the deadline, but it may begin there: the clock is read
  before the observer is looked up and its worker started (`Observation.LateStartHappens`). Waits
  are on time under every deadline, clock and observer exactly when no precondition the loop can
  reach leaves time in between (`Observation.NeverLateIff`).

## Model

| member | source | states |
|---|---|---|
| Protocol.StepKeepsInv | src/ops_guard/gate.py:152-622 | every step of every process keeps the whole system invariant |
| Protocol.RunGrows | src/ops_guard/audit.py:205-242 | along any run rows, approvals, bindings and events are never rewritten; an earlier audit log is a prefix of every later one |
| Protocol.ExecutedAtMostOnce | src/ops_guard/gate.py:479-541 | in every reachable state a proposal has at most one start, has one exactly when it is consumed, was handed to the executor at most once and on the recorded bytes (counted when the call is made, so also if the process dies inside it), has at most one outcome, and the log has no gap |
| Protocol.StartedBeforeRun | src/ops_guard/gate.py:472-541 | whenever the executor is called, the calling attempt's own start record, naming its owner and these bytes, is already committed |
| Protocol.ApprovedAtMostOnce | src/ops_guard/approvals.py:222-263 | in every reachable state a proposal has at most one approval, recorded exactly while the proposal is active and used exactly once it is consumed |
| Protocol.VerifiedApprovalIsSpent | src/ops_guard/approvals.py:334-369 | the approval a proposal-bound dispatch verified through separate reads is the very row the dispatch flipped, and it binds operator, proposal, invocation, revision and binding |
| Protocol.ConsumedInTime | src/ops_guard/proposals.py:286-305 | every consumed proposal was consumed strictly before its expiry |
| Protocol.DispatchSound | src/ops_guard/gate.py:178-515 | for every dispatched attempt, whatever happened since: evidence resolved, binding intact and stored, bytes hash to the bound and to the recorded digest, catalog and profile unchanged, all preconditions observed in order as expected, one valid path (a standing record that permits this very invocation, script and profile, or the bound approval), the expected digest, if any, is that of the invocation, token consumed |
| Protocol.DispatchedScriptIsTheCitedRevisions | src/ops_guard/gate.py:279-344 | a dispatched script is the one the catalog maps to the revision cited at execution time, although the gate never compares the two |
| Protocol.JudgementIsProven | src/ops_guard/recovery.py:66-96 | when an interleaved sweep closes a start, its owner has ended, there was no outcome before and there is one after |
| Protocol.SweepLeavesNoDeadOpen | src/ops_guard/recovery.py:56-97 | when an interleaved sweep commits, every start has an outcome event with a result, or during this very sweep a probe of its owner did not say dead |
| Protocol.SweepSparesRunningExecutions | src/ops_guard/recovery.py:130-149 | a directory a staging sweep may remove belongs to an attempt that is over and an owner that has ended |
| Protocol.StagedDirectoryPresent | src/ops_guard/recovery.py:111-149 | while an execution is inside the staged runner its directory is there, under its own owner's name |
| WorldGate.MoveFrame | src/ops_guard/gate.py:178-208 | in any interleaving the only things an attempt writes are the dispatch transaction, one outcome event and one refusal event |
| GateProtocol.KnowsStable | src/ops_guard/gate.py:214-446 | any committed transaction of any process leaves everything an attempt learned so far true |
| GateSteps.MoveKeeps | src/ops_guard/gate.py:152-622 | every step of an attempt keeps the database invariant, only grows the database, and leaves the attempt knowing what its next step relies on |
| GateSteps.CommitDecided | src/ops_guard/gate.py:509-516 | a dispatch commits exactly when the token check passes and the start record persists; nothing else can refuse it |
| GateChecks.ObservedInOrder | src/ops_guard/gate.py:351-412 | the observation loop passes only with every index mapped and observed in order with its expected value, and always passes on such readings |
| GateChecks.ExamineSound | src/ops_guard/gate.py:232-412 | passing the gate's checks establishes the conjunction they stand for |
| GateChecks.ProposedProvenance | src/ops_guard/proposal_tool.py:102-163 | a binding resolved by the proposal tool is the catalog entry of the very revision whose hash the invocation carries |
| GateChecks.ScriptOfCitedRevision | src/ops_guard/gate.py:279-344 | such a binding that passes the gate's checks names the entry under the citation presented at execution |
| GateChecks.MatchesIff | src/ops_guard/authorization.py:155-205 | a standing record matches exactly the one invocation, script and profile it permits |
| GateChecks.PreconditionValuesInjective | src/ops_guard/authorization.py:173-197 | no two lists of preconditions freeze to the same values |
| Outcomes.PathChosen | src/ops_guard/gate.py:419-455 | the path is Standing exactly when a standing record permits this invocation, script and profile; else the approval, exactly when one verifies; else none |
| Outcomes.RefusalReasons | src/ops_guard/gate.py:232-344 | each refusal code stands exactly for the first check that fails |
| Outcomes.ObservationRefusal | src/ops_guard/gate.py:351-412 | the observation loop refuses exactly at the first precondition that did not pass, with what went wrong there |
| Outcomes.CodesTellTheKind | src/ops_guard/gate.py:232-412 | binding and precondition refusals, and no others, carry codes of their kind |
| Outcomes.CodesListed | src/ops_guard/gate.py:232-412 | the code of each of them |
| Outcomes.OutcomeReported | src/ops_guard/gate.py:517-622 | the recorded outcome is the reported one, and the call returns it; it raises exactly for reports not understood, recorded as failure, or as unknown for an injected executor's timeout |
| Outcomes.RefusalReported | src/ops_guard/gate.py:152-203 | a refused call leaves one refusal event with its reason's code and changes nothing else |
| GateRun.RefusalOrDispatch | src/ops_guard/gate.py:203-516 | deciding one call either refuses and changes nothing or is exactly the dispatch transaction |
| GateRun.ExecutionFrame | src/ops_guard/gate.py:178-208 | a refused call leaves proposals, bindings and approvals untouched and appends exactly one refusal event; a dispatched one is the dispatch transaction and one outcome event |
| GateRun.ExecutionSound | src/ops_guard/gate.py:203-516 | a dispatched call has established the whole conjunction and its authorization path |
| Gate.ExecutionGate.Execute | src/ops_guard/gate.py:152-622 | the method, statement by statement, is the protocol's sequence of steps; result, database and executor call are those of the decision |
| Gate.ExecutionGate.CheckAll | src/ops_guard/gate.py:232-412 | the checks from binding to observations, in order, with the loop over preconditions |
| Gate.ExecutionGate.Choose | src/ops_guard/gate.py:414-446 | the first matching standing authorization, else the verified approval, else none |
| Gate.ExecutionGate.DispatchTicket | src/ops_guard/gate.py:472-622 | consume, run the executor on the frozen invocation and the checked bytes, record the outcome |
| Gate.ExecutionGate.RecordRefusal | src/ops_guard/gate.py:178-208 | one refusal event, or an audit failure when it cannot persist |
| Completeness.BindingRefusedIff | src/ops_guard/gate.py:232-329 | a binding refusal happens exactly when the script bytes, the bound catalog entry or the bound profile changed |
| Completeness.EvidenceDescribes | src/ops_guard/gate.py:331-344 | any citation of the bound revision, in any loaded library, describes the frozen invocation |
| Completeness.ExaminationPasses | src/ops_guard/gate.py:232-412 | with nothing changed and readings as expected, every check passes on the bound binding and the source's bytes |
| Completeness.OpenedStands | src/ops_guard/proposals.py:156-203 | after opening, an unconsumed proposal and its binding are found unchanged in every later database |
| Completeness.RecordedStands | src/ops_guard/approvals.py:206-263 | an approval recorded by token is on file, unspent, in every later database in which the proposal is unconsumed |
| Completeness.RecordedByIdStands | src/ops_guard/approvals.py:265-319 | so is one recorded by proposal id |
| Completeness.CertainDispatch | src/ops_guard/gate.py:203-516 | eligible, unchanged, observed, authorized and with a persisting start record, the gate dispatches |
| Completeness.ProposedApprovedDispatched | src/ops_guard/gate.py:203-516 | propose, approve, execute: along any history of committed transactions in between, the call dispatches |
| DispatchWitness.SampleDispatches | src/ops_guard/gate.py:203-516 | those conditions can be met together: from an empty database, a proposal under a one-entry catalog with a standing record is opened and its gate call dispatches |
| Integrity.TextPredicateIsInstantPredicate | src/ops_guard/proposals.py:290-330 | the UPDATE's text comparison and the check's instant comparison are the same test |
| Integrity.SwapDecidedByCheck | src/ops_guard/proposals.py:283-305 | after the check the swap hits exactly the one row, and the branch that did not apply is unreachable |
| Integrity.AppendAllGapless | src/ops_guard/audit.py:366-389 | a transaction appending any number of events numbers them without gap or reuse and rewrites nothing |
| Transactions.OpenKeeps | src/ops_guard/proposals.py:156-203 | opening keeps the database invariant and only adds |
| Transactions.RecordKeeps | src/ops_guard/approvals.py:222-263 | recording by token keeps the invariant and only adds |
| Transactions.RecordByIdKeeps | src/ops_guard/approvals.py:282-319 | recording by proposal id keeps the invariant and only adds |
| Transactions.DispatchDecided | src/ops_guard/gate.py:505-516 | under the invariant the composed transaction is decided by token check and append alone: a recorded approval of an active proposal is never a replay |
| Transactions.DispatchKeeps | src/ops_guard/proposals.py:283-314 | the composed transaction keeps the invariant: consumed in time, one start, approval spent with the token |
| Store.Database.constructor | src/ops_guard/store.py:16-35 | an empty database satisfies its UNIQUE constraints |
| Store.Database.Rollback | src/ops_guard/store.py:222-252 | a rolled-back transaction leaves the database as it was |
| Store.Database.InsertProposal | src/ops_guard/proposals.py:157-175 | an insert that repeats a token or id fails and inserts nothing |
| Store.Database.ConsumeWhere | src/ops_guard/proposals.py:289-297 | the UPDATE row by row, with its row count |
| Store.Database.MarkUsed | src/ops_guard/approvals.py:164-175 | recorded-to-used compare-and-swap |
| Store.Database.AppendOn | src/ops_guard/audit.py:366-389 | next sequence by a scan for the maximum, inside the caller's transaction |
| Store.AuditLog.Record | src/ops_guard/audit.py:352-364 | a standalone append is one transaction |
| Store.AuditLog.RecordAll | src/ops_guard/retrieval.py:288-304 | several events in one transaction: all or none |
| Services.ProposalService.Open | src/ops_guard/proposals.py:125-208 | row, binding and event together or not at all; a non-positive ttl is refused first |
| Services.ProposalService.ResolveToken | src/ops_guard/proposals.py:210-218 | read-only eligibility by token |
| Eligibility.TokenVerdict | src/ops_guard/proposals.py:210-218 | resolving succeeds exactly for the row under the token that is active, unexpired and of the expected invocation; each rejection exactly for the first condition that fails |
| Eligibility.IdVerdict | src/ops_guard/proposals.py:252-263 | the same by proposal id |
| Eligibility.UpdateHitsIff | src/ops_guard/proposals.py:286-297 | the row update picks, by text, exactly the active rows of the token that are unexpired in time |
| Eligibility.OpenVerdict | src/ops_guard/proposals.py:125-208 | opening needs a positive time to live, an unused token and id and a persisting event; it adds exactly one row, its binding and one event |
| Services.ProposalService.Consume | src/ops_guard/proposals.py:265-314 | check, swap, callback, commit; any failure rolls everything back |
| Eligibility.DispatchVerdict | src/ops_guard/proposals.py:265-314 | the composed transaction commits exactly for an eligible token and a persisting start; it consumes that row, spends its approval, appends the start and touches nothing else |
| Services.ApprovalVerifier.RecordByToken | src/ops_guard/approvals.py:206-263 | only the configured operator, only while eligible, only once |
| Services.ApprovalVerifier.RecordByProposalId | src/ops_guard/approvals.py:265-319 | the same by proposal id, refusing proposals without a binding |
| Eligibility.ApproveVerdict | src/ops_guard/approvals.py:222-263 | recorded exactly for an eligible proposal without an approval, with its invocation, revision, expiry and binding |
| Eligibility.ApproveByIdVerdict | src/ops_guard/approvals.py:282-319 | the same by proposal id, and only with a binding |
| Services.ApprovalVerifier.Verify | src/ops_guard/approvals.py:321-369 | read-only verification with its order of rejections |
| Eligibility.VerifyVerdict | src/ops_guard/approvals.py:334-369 | verification succeeds exactly with an unspent approval of the configured operator, of the eligible proposal and the binding as they are stored |
| Eligibility.VerifyRejected | src/ops_guard/approvals.py:334-369 | operator, absence and replay are rejected in that order, each exactly when it applies |
| Services.ApprovalVerifier.SpendOn | src/ops_guard/approvals.py:403-435 | spends only for the token being consumed, no-op without an approval, refuses a used one |
| OwnerLocks.StepKeepsInv | src/ops_guard/owner.py:34-116 | every create, lock, close and probe step keeps the lock invariant |
| OwnerLocks.DeadMeansEnded | src/ops_guard/owner.py:78-116 | a probe begun after the owner locked its file says dead only of an ended owner, whatever other probes do |
| OwnerLocks.DeadIsFinal | src/ops_guard/owner.py:13-15 | after such a verdict the owner stays ended in every continuation |
| OwnerLocks.DeadTrustedIff | src/ops_guard/owner.py:34-56 | dead can be trusted in every continuation exactly when the constructor is not between creating and locking the file |
| OwnerLocks.EarlyProbeMisleads | src/ops_guard/owner.py:34-42 | the run in which a probe in that window says dead of an owner that then runs |
| Owners.ExecutionOwner.constructor | src/ops_guard/owner.py:34-42 | create and lock; the owner runs |
| Owners.ExecutionOwner.Close | src/ops_guard/owner.py:58-76 | releases once; a second call changes nothing |
| Owners.Probe | src/ops_guard/owner.py:78-116 | an undisturbed probe reports the lock's state, leaves every lock as it was, and is a run of the step protocol |
| Owners.VerdictIsSound | src/ops_guard/owner.py:13-15 | never dead of a running owner, always alive of one, and dead of an ended one |
| Recovery.SweepClosesExactlyTheDead | src/ops_guard/recovery.py:56-97 | each unresolved start of a dead owner gets exactly one unknown; nothing else is appended or rewritten |
| Recovery.HasTerminalIff | src/ops_guard/recovery.py:66-78 | a start counts as closed exactly when an outcome event with a result names its proposal |
| Recovery.SweepIdempotentIff | src/ops_guard/recovery.py:43-97 | a second sweep changes nothing exactly when no dead owner's start lacks its proposal reference |
| Recovery.SweepIdempotent | src/ops_guard/recovery.py:43-97 | on logs the gate writes, a second sweep changes nothing |
| Recovery.OrphanSweptAgain | src/ops_guard/recovery.py:66-78 | a start without a reference is closed by every sweep |
| Sweeper.Reconcile | src/ops_guard/recovery.py:43-97 | the sweep as one transaction over the starts, with its report; a failed append undoes it |
| Sweeper.ReportAccounts | src/ops_guard/recovery.py:34-40 | the report accounts for exactly the appended events and never lists a dead owner as unresolved |
| Sweeper.SweepLeftovers | src/ops_guard/recovery.py:111-149 | removes exactly the attributable directories of dead owners that the file system lets go |
| Sweeper.AttributionIsExact | src/ops_guard/recovery.py:31-31 | a name is attributed to an owner exactly when it is the prefix, the owner id, a dash and a suffix |
| Text.HexIdIff | src/ops_guard/recovery.py:31-31 | an owner id is 32 lower-case hexadecimal digits |
| Sweeper.RunningOwnersKeepTheirDirectories | src/ops_guard/recovery.py:130-149 | a directory named for a running owner is kept |
| Library.ParsePassages | src/ops_guard/runbooks.py:95-109 | accepted exactly when non-empty, non-blank and without repeated locators; kept in order |
| Text.SpacesListed | src/ops_guard/runbooks.py:95-109 | the characters a blank text may consist of |
| Library.ParsePreconditions | src/ops_guard/runbooks.py:112-125 | accepted exactly when names and expected values are non-blank; kept in order |
| Library.ParseRevision | src/ops_guard/runbooks.py:156-204 | accepted exactly when the document qualifies and its hash recomputes |
| Library.Load | src/ops_guard/retrieval.py:104-121 | holds exactly the qualifying documents, in order and each verified, and reports exactly the positions of the others |
| Library.HashNamesRevision | src/ops_guard/retrieval.py:123-159 | citations with the same hash resolve to the same revision in any loaded libraries |
| Library.Search | src/ops_guard/retrieval.py:161-193 | the sorted top of all scoring passages, with its input checks |
| Library.HitResolves | src/ops_guard/retrieval.py:161-193 | every hit's citation resolves to the same text, operation and preconditions |
| Library.TopOfRanked | src/ops_guard/retrieval.py:161-193 | no omitted hit ranks ahead of a returned one |
| Library.SearchResultsSound | src/ops_guard/retrieval.py:161-193 | the results of a search on a loaded library are ranked, complete up to the limit and resolvable |
| Scoring.TermsAreTheRuns | src/ops_guard/retrieval.py:83-84 | terms are all maximal runs of letters and digits, lower-cased, in order |
| Text.LettersListed | src/ops_guard/retrieval.py:49-49 | the characters of terms and of keywords |
| Text.LowerCaseOf | src/ops_guard/retrieval.py:83-84 | exactly the capitals change in lower case |
| Scoring.HitShows | src/ops_guard/retrieval.py:161-193 | a hit shows its passage, revision and operation, and scores the number of places whose term the question asks for |
| Catalog.Load | src/ops_guard/execution_binding.py:168-294 | succeeds exactly on well-formed documents without repeated keys or script ids, and holds exactly their entries, whatever the platform calls an absolute path |
| Catalog.NeverAmbiguous | src/ops_guard/execution_binding.py:323-377 | on a loaded catalog resolution finds exactly the entry under the key, or none |
| PolicyLoading.ObserverRegistry.Register | src/ops_guard/preconditions.py:122-136 | an observer is registered once and never replaced |
| PolicyLoading.LoadBindings | src/ops_guard/preconditions.py:281-319 | succeeds exactly on valid bindings without repeated preconditions, and holds exactly those |
| PolicyLoading.LookupFindsTheAdapter | src/ops_guard/preconditions.py:147-153 | the timeout lookup of a loaded binding finds a registered adapter, whatever is registered later |
| Observation.Observe | src/ops_guard/gate.py:351-412 | the loop against a clock: its readings decide as the pure loop does, including values thrown away because they took longer than the whole deadline |
| Observation.ReadingIs | src/ops_guard/preconditions.py:174-202 | a reading is a value exactly when the worker answers in time with a non-empty one |
| Observation.WaitsFitTheDeadline | src/ops_guard/gate.py:389-401 | waits together never exceed the deadline, and each is granted before it and fits before it, whatever else takes time |
| Observation.NeverLateIff | src/ops_guard/gate.py:384-401 | every wait begins before the deadline, under every deadline, clock and observer, exactly when no reachable precondition leaves time between reading the clock and waiting |
| Observation.LateByTheSchedule | src/ops_guard/gate.py:384-401 | a wait of a given schedule begins at or past the deadline exactly when the turns before it, its reading and what follows the reading take that long |
| Observation.LateStartHappens | src/ops_guard/preconditions.py:174-189 | a concrete wait that begins past the deadline |
| Numbers.ExactUpToTwo53 | src/ops_guard/invocation.py:119-131 | every integer up to 2^53 in magnitude is its own binary64 value |
| Numbers.Two53IsTight | src/ops_guard/invocation.py:119-131 | 2^53 + 1 rounds to 2^53 and is refused |
| Numbers.GuardedIsExact | src/ops_guard/invocation.py:119-131 | the guard accepts exactly the integers conversion leaves alone |
| Numbers.GuardedIff | src/ops_guard/invocation.py:119-131 | in range, those are exactly the integers with at most 53 significant bits |
| Numbers.GuardedNeverCollide | src/ops_guard/invocation.py:119-131 | no two accepted integers round to the same number |
| Numbers.RoundIsNearest | src/ops_guard/invocation.py:126-131 | no representable number lies closer than the rounded one |
| Numbers.TiesToEven | src/ops_guard/invocation.py:126-131 | a tie rounds to the even neighbour |
| Numbers.OverflowIff | src/ops_guard/invocation.py:126-131 | conversion overflows exactly from halfway beyond the largest finite number on |
| Numbers.RoundIdempotent | src/ops_guard/invocation.py:126-131 | rounding a rounded integer changes nothing |
| JsonText.WrittenIsRead | src/ops_guard/invocation.py:100-107 | writing a value and reading the text gives the value back and consumes exactly its text |
| Freeze.SameIffNormal | src/ops_guard/invocation.py:100-107 | two values have the same normal form exactly when they are equal up to member order and number notation |
| Freeze.FaithfulExists | src/ops_guard/invocation.py:100-107 | the contract assumed of number-to-string conversion can be met |
| Freeze.FreezeDecided | src/ops_guard/invocation.py:47-80 | acceptance is decided by the number guard before writing and after reading; the second serialization never differs |
| Freeze.FrozenReloads | src/ops_guard/invocation.py:47-80 | an accepted value reloads and freezes to the same text |
| CanonicalOrder.KeyLessIff | src/ops_guard/invocation.py:100-107 | keys are ordered by the first UTF-16 unit in which they differ |
| CanonicalOrder.UnitsStandForTheCharacter | src/ops_guard/invocation.py:100-107 | the units are the UTF-16 encoding of the characters |
| CanonicalOrder.PlainKeysOrder | src/ops_guard/invocation.py:100-107 | without supplementary characters it is the order of the characters |
| CanonicalOrder.FrozenTextIsOrdered | src/ops_guard/invocation.py:47-80 | every object in an accepted text lists its members in ascending order of keys |
| Quoting.EscapeIsShortest | src/ops_guard/invocation.py:100-107 | a character that cannot stand for itself is written by a shortest escape, in lower case |
| Freeze.SameTextIffSameValue | src/ops_guard/invocation.py:47-80 | accepted values have equal texts exactly when they are equal up to member order |
| Freeze.AcceptedIntegersNeverCollide | src/ops_guard/invocation.py:119-131 | no two accepted integers share a text |
| Freeze.InvocationReloads | src/ops_guard/proposals.py:333-358 | a stored accepted invocation is never taken for tampered and comes back as the same invocation |
| Redaction.PathsPreserved | src/ops_guard/audit.py:157-180 | every path without a sensitive key leads, in the result, to the redacted form of what it led to |
| Redaction.FailsIff | src/ops_guard/audit.py:157-180 | redaction fails exactly when the walk meets the reserved marker or a value to replace that cannot be fingerprinted |
| Redaction.FailsIffMarked | src/ops_guard/audit.py:157-161 | without fingerprints, exactly when the marker is on a walked path |
| Redaction.RedactsTheSameIff | src/ops_guard/audit.py:157-180 | without fingerprints two payloads redact to the same value exactly when they are equal outside sensitive keys |
| Redaction.DifferOnlyInFingerprints | src/ops_guard/audit.py:162-171 | with fingerprints, exactly when the results differ in nothing but fingerprints |
| Redaction.OwnerSurvivesIff | src/ops_guard/recovery.py:100-108 | the owner id read back from a stored start payload is the dispatching owner's exactly when its key is not sensitive |
| Redaction.DefaultRootsSpareTheOwner | src/ops_guard/audit.py:61-64 | with the default roots it never is |
| SensitiveKeys.StartPayloadNames | src/ops_guard/gate.py:480-491 | the start payload names phase, script, binding, profile, owner and observations |
| SensitiveKeys.SensitiveIff | src/ops_guard/audit.py:75-77 | a key is sensitive exactly when a root occurs anywhere in its normalized text |
| SensitiveKeys.NormalizedIs | src/ops_guard/audit.py:69-72 | the normalized text is the folded key without its separators, in order |
| SensitiveKeys.ReplacedUnderRoot | src/ops_guard/audit.py:162-171 | wherever the walk meets such a key only the marker, the reason and a fingerprint are stored, whatever is beneath |
| SensitiveKeys.DefaultRootsHide | src/ops_guard/audit.py:61-64 | any key with one of the default roots anywhere in it is sensitive |
| SensitiveKeys.DocumentedSpellings | src/ops_guard/audit.py:138-150 | access_token, api-key and authToken are |
| SqlGuard.LeadKeyword | src/ops_guard/store.py:44-83 | the scanner terminates and computes the recursive definition of the lead keyword |
| SqlGuard.AcceptedIff | src/ops_guard/store.py:38-92 | ASCII text is accepted exactly when all letters behind what is skipped form a keyword that ends there and is none of the fifteen blocked ones |
| SqlGuard.PrefixChangesNothing | src/ops_guard/store.py:51-66 | complete skippable text in front changes neither keyword nor verdict |
| SqlSkips.SkipsWholePieces | src/ops_guard/store.py:51-66 | what is skipped is whole pieces (whitespace, parentheses, semicolons, comments up to their first end), all of them, and an unfinished line comment at the end |
| Poller.CallbackRoundTrip | src/ops_guard/telegram_approval.py:249-266 | formatting and parsing callback data are inverse on exactly the well-formed payloads, within the size limit |
| Poller.ApprovalPoller.RunOnce | src/ops_guard/telegram_approval.py:469-493 | one uninterrupted poll of the object is a fetch and the handling of one update after the other, as in the conversation |
| Poller.ApprovalPoller.ApproveProposal | src/ops_guard/telegram_approval.py:446-460 | the outcome of each rejection; a storage fault holds |
| Poller.ClassifyIff | src/ops_guard/telegram_approval.py:425-444 | an update approves a proposal exactly when the configured operator, in the configured chat, answers a message of this bot that carries its id |
| Poller.ApproveOutcomes | src/ops_guard/telegram_approval.py:446-460 | approved, already approved and expired, each exactly for the rows that call for it |
| Poller.NoSecondApproval | src/ops_guard/telegram_approval.py:446-460 | processing a proposal that has an approval never approves it again |
| Poller.ForgottenAreSettled | src/ops_guard/telegram_approval.py:387-392 | over any polls, holds, lost answers, restarts and other transactions, also between two updates of one poll, every forgotten update reached a terminal outcome, and nothing was approved twice |
| Poller.NoUpdateIsLost | src/ops_guard/telegram_approval.py:469-493 | from its arrival on, an update is settled or still with the server |
| Poller.UnsettledIsInLine | src/ops_guard/telegram_approval.py:469-486 | an update that is not settled has a place in line, and a poll delivers it exactly when it asks for more updates than stand before it |
| Poller.HeldIsFirst | src/ops_guard/telegram_approval.py:482-486 | a held update is the first in line when its poll is over |
| Poller.FirstStays | src/ops_guard/telegram_approval.py:469-486 | it stays first until the next poll, whatever arrives and whoever writes, and that poll delivers it first, however few it asks for |
| Poller.HeldStopsThePoll | src/ops_guard/telegram_approval.py:482-486 | a held update ends the poll and leaves offset, ledger and database untouched |
| Timestamps.ParseFormat | src/ops_guard/proposals.py:45-51 | parsing inverts formatting |
| Calendar.FormatIsIso | src/ops_guard/proposals.py:45-51 | the text is YYYY-MM-DDTHH:MM:SS.ffffff+00:00 in decimal |
| Calendar.MonthsClosedForm | src/ops_guard/proposals.py:45-51 | the days before each month by their closed form |
| Calendar.UnixEpoch | src/ops_guard/proposals.py:45-51 | the day count reaches the usual epoch on its day |
| Calendar.StoredIff | src/ops_guard/proposals.py:45-51 | a moment can be stored exactly when it is an instant of the years 1 to 9999 |
| Timestamps.FormatOrder | src/ops_guard/proposals.py:45-51 | text order is field order |
| Timestamps.BeforeIsChronological | src/ops_guard/proposals.py:45-51 | field order is the order of elapsed microseconds over the Gregorian calendar |
| Timestamps.TimestampsOrderIsomorphic | src/ops_guard/proposals.py:45-51 | whatever the time zones, text order is chronological order, equal texts are equal instants, and parsing gives the instant back |

## Left out

- The staged runner itself (temporary files, Windows jobs, process trees, pipes): only its report is modelled, as a parameter of `GateRun.Environment`, and its directory, as `World` steps.
- The risk judge, the evaluation suite, the HTTP service, TLS, bearer tokens, environment and file loading.
- The Telegram client, the notifier's scans and back-off, and the preview text. No claim is made that a preview carries evidence references: the proposal event sets no proposal reference.
- SQLite internals, schema migrations and path comparison.
- The Python-level capability wrapper around a connection; only its statement filter is modelled.
- Catalog.Load: field-by-field type and hexadecimal checks of the document are left out; digests enter as values.
- PolicyLoading.LoadBindings: an adapter's settings are reduced to its timeout, its settings check to the timeouts it allows.
- Library.ParseRevision: that the hash has 64 hexadecimal digits is not checked separately (a hash that recomputes has), and whether the verification time reads as an ISO timestamp is part of the document.
- Field-by-field type and hexadecimal checks of the other configuration documents, including standing-authorization records; standing authorizations enter as parsed values.
- Naive clock values (without a time zone), which the program refuses with an error.
- NaN and infinite floats, which the serializer refuses; negative zero, whose text is that of zero.
- Recursion limits on deeply nested values.
- JSON text with insignificant whitespace, repeated keys or escaped surrogate pairs: canonical text has none, and `JsonText.Parse` is only applied to canonical text.
- A consume without the gate's callback, and the approval flip without consumption (`mark_used_append`), which nothing in the repository composes.
- Library.Search: reads letters, digits and whitespace of ASCII only; the program lower-cases Unicode text before it looks for ASCII terms.
- SqlGuard.AcceptedIff: for ASCII text only, because lower-casing can turn other characters into ASCII letters.
- Redaction.OwnerSurvivesIff: for payloads whose numbers can be serialized at all; for others the append fails and no start record exists.
- Completeness.CertainDispatch: for a call nobody interferes with; with other processes at work the token may be consumed or expire first, which the protocol theorems cover.
- Observation.Observe: a worker that outlives its timeout is a timeout; that its late result is discarded is not modelled further.
- GateRun.ExecutionFrame: does not cover a timeout getter that itself raises, or a registry other than the one the policy was loaded against: the lookup at `src/ops_guard/gate.py:392` is outside the handler, so such a call ends with an exception before its first write and without a refusal event.
