// When the gate must dispatch: a proposal bound from the catalog, still eligible, with nothing
// changed and every record persisting, is never turned away.
module Completeness {
  import opened Wrappers
  import opened Domain
  import opened Records
  import opened Integrity
  import opened GateChecks
  import opened GateProtocol
  import opened GateRun
  import GateSteps
  import Transactions
  import Catalog
  import Library
  import Timestamps

  // Everything the proposal was made from.
  datatype Origin = Origin(library: seq<Revision>, catalog: Domain.Catalog, citation: Citation,
          invocation: Invocation, minted: Minted)

  ghost predicate Proposable(g: Origin) {
    && Library.Loaded(g.library) && Catalog.Loaded(g.catalog)
    && TtlPositive(g.minted) && g.minted.id != ""
    && ProposeChecks(g.library, Some(g.catalog), g.citation, g.invocation).Ok?
  }

  function KeyOf(g: Origin): CatalogKey {
    Catalog.Key(g.citation, g.invocation.action, g.invocation.target)
  }

  function TemplateOf(g: Origin): BindingTemplate
    requires ProposeChecks(g.library, Some(g.catalog), g.citation, g.invocation).Ok?
  {
    ProposeChecks(g.library, Some(g.catalog), g.citation, g.invocation).value.value
  }

  function RowOf(g: Origin): BindingRow
    requires ProposeChecks(g.library, Some(g.catalog), g.citation, g.invocation).Ok?
  {
    var document := TemplateOf(g).Finalize(g.minted.id, InvocationSha(g.invocation));
    BindingRow(g.minted.id, BindingSha(document), document)
  }

  /* ---------- Binding refusals ---------- */

  // The catalog still holds, under the proposal's key, the very entry and profile it was bound to.
  predicate CatalogUnchanged(g: Origin, now: Domain.Catalog)
    requires ProposeChecks(g.library, Some(g.catalog), g.citation, g.invocation).Ok?
  {
    var id := TemplateOf(g).profileId;
    && KeyOf(g) in g.catalog.entries && KeyOf(g) in now.entries && now.entries[KeyOf(g)] == g.catalog.entries[KeyOf(g)]
    && id in g.catalog.profiles && id in now.profiles && now.profiles[id] == g.catalog.profiles[id]
  }

  predicate ScriptUnchanged(g: Origin, o: Oracle)
    requires ProposeChecks(g.library, Some(g.catalog), g.citation, g.invocation).Ok?
  {
    o.source.Some? && ScriptSha(o.source.value) == TemplateOf(g).scriptSha
  }

  lemma {:induction false} TemplateIs(g: Origin)
    requires Proposable(g)
    ensures KeyOf(g) in g.catalog.entries
    ensures
      var t, e := TemplateOf(g), g.catalog.entries[KeyOf(g)];
      && t.profileId in g.catalog.profiles
      && t == Catalog.TemplateOf(e, g.catalog.profiles[t.profileId])
      && e.key == KeyOf(g)
  {
    Catalog.NeverAmbiguous(g.catalog, KeyOf(g));
    var id :| id in g.catalog.profiles;
  }

  // A binding-* refusal happens exactly when the script or the catalog changed under the proposal.
  lemma {:induction false} BindingRefusedIff(g: Origin, config: Config, request: Request, ev: Evidence,
          frozen: Proposal, o: Oracle)
    requires Proposable(g) && config.catalog.Some?
    requires frozen.invocation == g.invocation && frozen.digest == InvocationSha(g.invocation)
    ensures
      var r := Examine(config, request, ev, frozen, Some(RowOf(g)), o);
      (r.Err? && BindingRefusal(r.error)) <==> !(ScriptUnchanged(g, o) && CatalogUnchanged(g, config.catalog.value))
  {
    hide ProposeChecks, Catalog.Loaded, Library.Loaded, CheckCatalog, CatalogUnchanged, Describes, ObserveFrom,
         BindingRefusal, TemplateOf, CheckBinding, CheckScript, ScriptUnchanged;
    NoOtherBindingRefusal(config, request, ev.preconditions, o.readings, 0);
    CatalogCheckIff(g, config.catalog.value);
    FaultsAreBindingRefusals(frozen, RowOf(g), config.catalog, o);
    EvidenceIsNone();
    BindingAndScriptIff(g, frozen, o);
  }

  lemma {:induction false} BindingAndScriptIff(g: Origin, frozen: Proposal, o: Oracle)
    requires Proposable(g) && frozen.digest == InvocationSha(g.invocation)
    ensures CheckBinding(frozen, Some(RowOf(g))).None?
    ensures CheckScript(TemplateOf(g), o.source).None? <==> ScriptUnchanged(g, o)
  {
    hide ProposeChecks, TemplateOf;
  }

  lemma {:induction false} FaultsAreBindingRefusals(frozen: Proposal, row: BindingRow,
          catalog: Option<Domain.Catalog>, o: Oracle)
    ensures
      var t := row.document.template;
      var (a, b, c) := (CheckBinding(frozen, Some(row)), CheckScript(t, o.source),
          CheckCatalog(catalog, t, frozen.invocation));
      && (a.Some? ==> BindingRefusal(a.value)) && (b.Some? ==> BindingRefusal(b.value))
          && (c.Some? ==> BindingRefusal(c.value))
  {
    hide EntryUnchanged, ProfileUnchanged;
  }

  lemma {:induction false} EvidenceIsNone()
    ensures !BindingRefusal(EvidenceMismatch)
  {
  }

  lemma {:induction false} CatalogCheckIff(g: Origin, now: Domain.Catalog)
    requires Proposable(g)
    ensures CheckCatalog(Some(now), TemplateOf(g), g.invocation).None? <==> CatalogUnchanged(g, now)
  {
    TemplateIs(g);
    assert EntryKey(TemplateOf(g), g.invocation) == KeyOf(g);
    hide ProposeChecks, Catalog.Loaded, Library.Loaded;
  }

  lemma {:induction false} NoOtherBindingRefusal(config: Config, request: Request, ps: seq<Precondition>,
          readings: seq<Reading>, i: nat)
    requires i <= |ps|
    ensures
      var r := ObserveFrom(config.policy, request.citation, ps, readings, i);
      r.Err? ==> !BindingRefusal(r.error)
    decreases |ps| - i
  {
    if i < |ps| {
      NoOtherBindingRefusal(config, request, ps, readings, i + 1);
    }
  }

  // Evidence resolved under the same content hash describes the invocation in any loaded library.
  lemma {:induction false} EvidenceDescribes(g: Origin, library: seq<Revision>, citation: Citation)
    requires Proposable(g) && Library.Loaded(library)
    requires Library.ResolveCitation(library, citation).Ok? && citation.contentHash == g.invocation.revisionHash
    ensures Describes(Library.ResolveCitation(library, citation).value, g.invocation, citation)
  {
    Library.HashNamesRevision(g.library, g.citation, library, citation);
    hide Library.ResolveCitation, Library.Loaded, Catalog.Loaded;
  }

  // With observations as expected the examination passes.
  ghost predicate Unchanged(g: Origin, config: Config, request: Request, o: Oracle) {
    && Proposable(g)
    && Library.Loaded(config.library)
    && config.catalog.Some? && Catalog.Loaded(config.catalog.value)
    && Library.ResolveCitation(config.library, request.citation).Ok?
    && request.citation.contentHash == g.invocation.revisionHash
    && CatalogUnchanged(g, config.catalog.value) && ScriptUnchanged(g, o)
  }

  ghost predicate Observed(config: Config, request: Request, o: Oracle) {
    && Library.ResolveCitation(config.library, request.citation).Ok?
    && ReadingsMatch(config.policy, request.citation,
                     Library.ResolveCitation(config.library, request.citation).value.preconditions, o.readings)
  }

  lemma {:induction false} ExaminationPasses(g: Origin, config: Config, request: Request, frozen: Proposal, o: Oracle)
    requires Unchanged(g, config, request, o) && Observed(config, request, o)
    requires frozen.invocation == g.invocation && frozen.digest == InvocationSha(g.invocation)
    ensures
      var ev := Library.ResolveCitation(config.library, request.citation).value;
      var r := Examine(config, request, ev, frozen, Some(RowOf(g)), o);
      r.Ok? && r.value.binding == RowOf(g) && Some(r.value.script) == o.source
  {
    var ev := Library.ResolveCitation(config.library, request.citation).value;
    EvidenceDescribes(g, config.library, request.citation);
    ObservedInOrder(config.policy, request.citation, ev.preconditions, o.readings, 0);
    CatalogCheckIff(g, config.catalog.value);
    hide Library.ResolveCitation, Library.Loaded, Catalog.Loaded, ProposeChecks, Describes, ObserveFrom, CheckCatalog,
         ReadingsMatch, ObservationsHold, CatalogUnchanged;
  }

  /* ---------- The database still says so ---------- */

  // The proposal is in the database, unconsumed, with its binding.
  ghost predicate Stands(db: Db, g: Origin) {
    && Proposable(g)
    && RowByToken(db, g.minted.tokenDigest) == Some(NewProposal(g.minted, g.invocation))
    && FetchBinding(db, g.minted.id) == Some(RowOf(g))
  }

  lemma {:induction false} OpenedStands(before: Db, g: Origin, db: Db)
    requires DbInv(before) && Proposable(g)
    requires OpenProposal(before, g.minted, g.invocation, Some(TemplateOf(g)), true).Ok?
    requires Grows(OpenProposal(before, g.minted, g.invocation, Some(TemplateOf(g)), true).value, db) && DbInv(db)
    requires RowByToken(db, g.minted.tokenDigest).Some? ==> RowByToken(db, g.minted.tokenDigest).value.state == Active
    ensures Stands(db, g)
  {
    var d1 := OpenProposal(before, g.minted, g.invocation, Some(TemplateOf(g)), true).value;
    var p := NewProposal(g.minted, g.invocation);
    var n, b := |before.proposals|, |before.bindings|;
    assert d1.proposals[n] == p && d1.bindings[b] == RowOf(g);
    assert db.bindings[b] == RowOf(g);
    assert RowKept(p, db.proposals[n]) by {
      hide DbInv, OpenProposal, NewProposal, Proposable;
    }
    GateSteps.KeepUniqueness(db);
    assert RowSane(db.proposals[n]);
    hide OpenProposal, ProposeChecks, Timestamps.Format, Timestamps.Before, Grows, DbInv, RowSane;
    TokenAt(db.proposals, p.tokenDigest, n);
    BindingAt(db.bindings, g.minted.id, b);
    assert db.proposals[n].state == Active;
    ActiveIsUnconsumed(db.proposals[n]);
  }

  lemma {:induction false} ActiveIsUnconsumed(p: Proposal)
    requires RowSane(p) && p.state == Active
    ensures p.consumedAt.None?
  {
  }

  lemma {:induction false} BindingAt(rows: seq<BindingRow>, id: string, i: nat)
    requires UniqueBindings(rows) && i < |rows| && rows[i].proposalId == id
    ensures FindBinding(rows, id) == i
  {
    var k := FindBinding(rows, id);
  }

  function StandingApproval(g: Origin, approvalId: string, operator: string): Approval
    requires Proposable(g)
  {
    NewApproval(approvalId, operator, NewProposal(g.minted, g.invocation), Some(RowOf(g)))
  }

  // An approval recorded by token is on file, unspent, as long as the proposal stands.
  lemma {:induction false} RecordedStands(before: Db, g: Origin, approvalId: string, operator: string,
          now: Timestamps.Utc, db: Db)
    requires DbInv(before) && Stands(before, g)
    requires RecordApproval(before, g.minted.tokenDigest, approvalId, operator, now).Ok?
    requires Grows(RecordApproval(before, g.minted.tokenDigest, approvalId, operator, now).value, db) && DbInv(db)
        && Stands(db, g)
    ensures FetchApproval(db, g.minted.tokenDigest) == Some(StandingApproval(g, approvalId, operator))
  {
    hide DbInv, Grows, Check, Timestamps.Format, RowOf, Proposable;
    var td := g.minted.tokenDigest;
    var next := RecordApproval(before, td, approvalId, operator, now).value;
    assert next.approvals == before.approvals + [StandingApproval(g, approvalId, operator)];
    ApprovalPersists(next, db, StandingApproval(g, approvalId, operator), |before.approvals|);
  }

  // So is one recorded by proposal id.
  lemma {:induction false} RecordedByIdStands(before: Db, g: Origin, approvalId: string, operator: string,
          now: Timestamps.Utc, db: Db)
    requires DbInv(before) && Stands(before, g)
    requires RecordApprovalById(before, g.minted.id, approvalId, operator, now).Ok?
    requires Grows(RecordApprovalById(before, g.minted.id, approvalId, operator, now).value, db) && DbInv(db)
        && Stands(db, g)
    ensures FetchApproval(db, g.minted.tokenDigest) == Some(StandingApproval(g, approvalId, operator))
  {
    hide DbInv, Grows, Stands, Proposable, StandingApproval, RecordApprovalById;
    StandingRow(before, g);
    StandingRow(db, g);
    GateSteps.KeepUniqueness(before);
    IdAt(before.proposals, g.minted.id, FindToken(before.proposals, g.minted.tokenDigest));
    InsertedById(before, g, approvalId, operator, now);
    var next := RecordApprovalById(before, g.minted.id, approvalId, operator, now).value;
    ApprovalPersists(next, db, StandingApproval(g, approvalId, operator), |before.approvals|);
  }

  lemma {:induction false} StandingRow(db: Db, g: Origin)
    requires Stands(db, g)
    ensures Proposable(g) && FindToken(db.proposals, g.minted.tokenDigest) < |db.proposals|
    ensures
      var p := db.proposals[FindToken(db.proposals, g.minted.tokenDigest)];
      p == NewProposal(g.minted, g.invocation) && p.id == g.minted.id && p.tokenDigest == g.minted.tokenDigest
          && p.state == Active
    ensures RowByToken(db, g.minted.tokenDigest).Some? && RowByToken(db, g.minted.tokenDigest).value.state == Active
    ensures FetchBinding(db, g.minted.id) == Some(RowOf(g))
  {
    hide Timestamps.Format, RowOf, FetchBinding, Proposable;
  }

  lemma {:induction false} InsertedById(db: Db, g: Origin, approvalId: string, operator: string, now: Timestamps.Utc)
    requires Proposable(g) && FindId(db.proposals, g.minted.id) < |db.proposals|
    requires db.proposals[FindId(db.proposals, g.minted.id)] == NewProposal(g.minted, g.invocation)
    requires FetchBinding(db, g.minted.id) == Some(RowOf(g))
    requires RecordApprovalById(db, g.minted.id, approvalId, operator, now).Ok?
    ensures
      var a := StandingApproval(g, approvalId, operator);
      && a.state == Recorded && a.tokenDigest == g.minted.tokenDigest
      && RecordApprovalById(db, g.minted.id, approvalId, operator, now).value.approvals == db.approvals + [a]
  {
    Transactions.FetchedRow(db, g.minted.id, now);
    hide FetchById, Proposable, RowOf, FetchBinding, Timestamps.Format;
  }

  lemma {:induction false} ApprovalPersists(a: Db, b: Db, approval: Approval, k: nat)
    requires k < |a.approvals| && a.approvals[k] == approval && approval.state == Recorded
    requires Grows(a, b) && DbInv(b)
    requires RowByToken(b, approval.tokenDigest).Some? && RowByToken(b, approval.tokenDigest).value.state == Active
    ensures FetchApproval(b, approval.tokenDigest) == Some(approval)
  {
    var td := approval.tokenDigest;
    assert ApprovalKept(approval, b.approvals[k]);
    var i, n := FindApproval(b.approvals, td), FindToken(b.proposals, td);
    assert i == k;
    assert ApprovalFits(b.approvals[k], b.proposals[n]);
  }

  /* ---------- Certain dispatch ---------- */

  ghost predicate InTime(env: Environment, g: Origin) {
    && Timestamps.Before(env.resolveAt, g.minted.expiry)
    && Timestamps.Before(env.verifyAt, g.minted.expiry)
    && Timestamps.Before(env.commitAt, g.minted.expiry)
  }

  ghost predicate StandingMatch(config: Config, g: Origin, script: seq<Byte>)
    requires Proposable(g)
  {
    exists k :: 0 <= k < |config.policy.standing| &&
      Matches(config.policy.standing[k], g.invocation, TemplateOf(g), ScriptSha(script))
  }

  ghost predicate Authorized(db: Db, config: Config, g: Origin, script: seq<Byte>)
    requires Proposable(g)
  {
    || StandingMatch(config, g, script)
    || (config.operator == config.verifier
        && exists id :: FetchApproval(db, g.minted.tokenDigest) == Some(StandingApproval(g, id, config.verifier)))
  }

  lemma {:induction false} Eligible(db: Db, g: Origin, expected: Option<Digest>, now: Timestamps.Utc)
    requires Stands(db, g) && Timestamps.Before(now, g.minted.expiry)
    requires expected.Some? ==> expected.value == InvocationSha(g.invocation)
    ensures Resolve(db, g.minted.tokenDigest, expected, now) == Ok(NewProposal(g.minted, g.invocation))
  {
    hide Timestamps.Before, Timestamps.Format, Timestamps.Parse, RowOf;
    Timestamps.ParseFormat(g.minted.expiry);
  }

  // Everything about the call and the moment that the theorem assumes.
  ghost predicate Favourable(db: Db, env: Environment, c: Call, g: Origin) {
    && DbInv(db) && Stands(db, g)
    && Unchanged(g, c.config, c.request, env.oracle) && Observed(c.config, c.request, env.oracle)
    && Authorized(db, c.config, g, env.oracle.source.value)
    && InTime(env, g) && env.startOk
    && Td(c) == g.minted.tokenDigest
    && (c.request.expected.Some? ==> c.request.expected.value == InvocationSha(g.invocation))
  }

  lemma {:induction false} CommitEligible(db: Db, env: Environment, c: Call, g: Origin)
    requires Favourable(db, env, c, g)
    ensures DbInv(db) && env.startOk && Resolve(db, Td(c), c.request.expected, env.commitAt).Ok?
  {
    Eligible(db, g, c.request.expected, env.commitAt);
    hide DbInv, Stands, Unchanged, Observed, Authorized, Resolve;
  }

  lemma {:induction false} FromCommit(db: Db, env: Environment, c: Call, g: Origin, at: Attempt)
    requires Favourable(db, env, c, g) && at.call == c && Knows(db, at) && at.pc.AtCommit?
    ensures Decide(db, env, at).1.pc.AtOutcome?
  {
    hide Transactions.Dispatched, StartOf, DbInv, AfterCommit, Resolve, Knows, KnowsTicket, Classify, Favourable,
         Decide;
    CommitEligible(db, env, c, g);
    GateSteps.AtCommitKnows(db, at);
    GateSteps.CommitDecided(db, env.commitAt, at, env.startOk);
    DecideCommit(db, env, at);
    var (next, at') := AfterCommit(db, env.commitAt, at, env.startOk);
    ExecuteDecides(next, env, at');
  }

  lemma {:induction false} ApprovalAccepted(db: Db, env: Environment, c: Call, g: Origin, a: Approval)
    requires Favourable(db, env, c, g) && c.config.operator == c.config.verifier
    requires exists id :: a == StandingApproval(g, id, c.config.verifier)
    ensures VerifyApprovalRow(c.config, Some(a)).None?
    ensures VerifyProposal(a, Resolve(db, Td(c), None, env.verifyAt)).None?
    ensures VerifyBinding(a, FetchBinding(db, g.minted.id)).None?
  {
    hide DbInv, Timestamps.Before, Unchanged, Observed, Authorized, Resolve, Stands, Td;
    Eligible(db, g, None, env.verifyAt);
    StandingRow(db, g);
    var id :| a == StandingApproval(g, id, c.config.verifier);
    hide Favourable;
    StandingAccepted(g, id, c.config);
  }

  lemma {:induction false} StandingAccepted(g: Origin, id: string, config: Config)
    requires Proposable(g) && config.operator == config.verifier
    ensures
      var a := StandingApproval(g, id, config.verifier);
      && VerifyApprovalRow(config, Some(a)).None?
      && VerifyProposal(a, Ok(NewProposal(g.minted, g.invocation))).None?
      && VerifyBinding(a, Some(RowOf(g))).None?
  {
    hide Timestamps.Format, Proposable;
  }

  lemma {:induction false} StandingChosen(db: Db, c: Call, g: Origin, x: Examined)
    requires Proposable(g) && x.binding == RowOf(g) && StandingMatch(c.config, g, x.script)
    ensures AfterAuthorize(db, Attempt(c, AtAuthorize(NewProposal(g.minted, g.invocation), x), None)).pc.AtCommit?
  {
    hide Matches, Timestamps.Format, ProposeChecks;
  }

  lemma {:induction false} ApprovalChosen(db: Db, c: Call, g: Origin, x: Examined, a: Approval)
    requires Proposable(g) && Td(c) == g.minted.tokenDigest && FetchApproval(db, g.minted.tokenDigest) == Some(a)
    requires VerifyApprovalRow(c.config, Some(a)).None?
    ensures
      var p := NewProposal(g.minted, g.invocation);
      var next := AfterAuthorize(db, Attempt(c, AtAuthorize(p, x), None));
      next.pc.AtCommit? || next == Attempt(c, AtVerifyProposal(p, x, a), None)
  {
    hide FindStanding, Timestamps.Format, VerifyApprovalRow, FetchApproval, Proposable, NewProposal;
  }

  lemma {:induction false} CallKeptByAuthorize(db: Db, at: Attempt)
    requires at.pc.AtAuthorize?
    ensures AfterAuthorize(db, at).call == at.call
  {
    hide FindStanding, FetchApproval, VerifyApprovalRow;
  }

  lemma {:induction false} FromAuthorize(db: Db, env: Environment, c: Call, g: Origin, x: Examined)
    requires Favourable(db, env, c, g)
    requires x.binding == RowOf(g) && Some(x.script) == env.oracle.source
    requires Knows(db, Attempt(c, AtAuthorize(NewProposal(g.minted, g.invocation), x), None))
    ensures Decide(db, env, Attempt(c, AtAuthorize(NewProposal(g.minted, g.invocation), x), None)).1.pc.AtOutcome?
  {
    var p := NewProposal(g.minted, g.invocation);
    var at := Attempt(c, AtAuthorize(p, x), None);
    var next := AfterAuthorize(db, at);
    assert Proposable(g) && Authorized(db, c.config, g, x.script) && Td(c) == g.minted.tokenDigest;
    hide Favourable, AfterAuthorize, Knows, Decide, StandingApproval, FetchApproval, StandingMatch, Td, NewProposal,
         RowOf, Proposable;
    DecideAuthorize(db, env, at);
    GateSteps.AuthorizeStep(db, at);
    CallKeptByAuthorize(db, at);
    if StandingMatch(c.config, g, x.script) {
      StandingChosen(db, c, g, x);
    } else {
      var id :| FetchApproval(db, g.minted.tokenDigest) == Some(StandingApproval(g, id, c.config.verifier));
      var a := StandingApproval(g, id, c.config.verifier);
      ApprovalAccepted(db, env, c, g, a);
      ApprovalChosen(db, c, g, x, a);
      if !next.pc.AtCommit? {
        FromVerify(db, env, c, g, x, a);
      }
    }
    if next.pc.AtCommit? {
      FromCommit(db, env, c, g, next);
    }
  }

  lemma {:induction false} VerifiedProposal(db: Db, now: Timestamps.Utc, at: Attempt)
    requires at.pc.AtVerifyProposal? && VerifyProposal(at.pc.approval, Resolve(db, Td(at.call), None, now)).None?
    ensures AfterVerifyProposal(db, now, at) == at.(pc := AtVerifyBinding(at.pc.frozen, at.pc.x, at.pc.approval))
  {
    hide VerifyProposal, Resolve, Td;
  }

  lemma {:induction false} VerifiedBinding(db: Db, at: Attempt)
    requires at.pc.AtVerifyBinding? && VerifyBinding(at.pc.approval, FetchBinding(db, at.pc.frozen.id)).None?
    ensures AfterVerifyBinding(db, at).pc.AtCommit? && AfterVerifyBinding(db, at).call == at.call
  {
    hide VerifyBinding, FetchBinding;
  }

  lemma {:induction false} FromVerify(db: Db, env: Environment, c: Call, g: Origin, x: Examined, a: Approval)
    requires Favourable(db, env, c, g) && c.config.operator == c.config.verifier
    requires exists id :: a == StandingApproval(g, id, c.config.verifier)
    requires Knows(db, Attempt(c, AtVerifyProposal(NewProposal(g.minted, g.invocation), x, a), None))
    ensures Decide(db, env,
        Attempt(c, AtVerifyProposal(NewProposal(g.minted, g.invocation), x, a), None)).1.pc.AtOutcome?
  {
    var p := NewProposal(g.minted, g.invocation);
    var at := Attempt(c, AtVerifyProposal(p, x, a), None);
    assert p.id == g.minted.id;
    hide Favourable, Knows, NewProposal, StandingApproval, VerifyProposal, VerifyBinding, Resolve, FetchBinding,
         VerifyApprovalRow, Decide, AfterVerifyProposal, AfterVerifyBinding, Td;
    ApprovalAccepted(db, env, c, g, a);
    DecideVerifyProposal(db, env, at);
    GateSteps.VerifyProposalStep(db, env.verifyAt, at);
    VerifiedProposal(db, env.verifyAt, at);
    var next := Attempt(c, AtVerifyBinding(p, x, a), None);
    DecideVerifyBinding(db, env, next);
    GateSteps.VerifyBindingStep(db, next);
    VerifiedBinding(db, next);
    FromCommit(db, env, c, g, AfterVerifyBinding(db, next));
  }

  lemma {:induction false} TokenAccepted(db: Db, env: Environment, c: Call, g: Origin)
    requires Favourable(db, env, c, g)
    ensures AfterToken(db, env.resolveAt, Begin(c)) == Attempt(c, AtBinding(NewProposal(g.minted, g.invocation)), None)
  {
    Eligible(db, g, c.request.expected, env.resolveAt);
    hide Resolve, DbInv, NewProposal, RowOf, FetchBinding, Library.ResolveCitation, Authorized, Observed, InTime,
         Proposable, CatalogUnchanged, ScriptUnchanged, Catalog.Loaded, Library.Loaded, Stands;
  }

  lemma {:induction false} BeginKnows(db: Db, env: Environment, c: Call, g: Origin)
    requires Favourable(db, env, c, g)
    ensures Knows(db, Begin(c)) && DbInv(db) && FetchBinding(db, g.minted.id) == Some(RowOf(g))
  {
    hide DbInv, NewProposal, RowOf, FetchBinding, Library.ResolveCitation, Authorized, Observed, InTime,
         CatalogUnchanged, ScriptUnchanged, Catalog.Loaded, Library.Loaded;
  }

  lemma {:induction false} ChecksAccepted(db: Db, env: Environment, c: Call, g: Origin) returns (x: Examined)
    requires Favourable(db, env, c, g)
    ensures x.binding == RowOf(g) && Some(x.script) == env.oracle.source
    ensures
      var p := NewProposal(g.minted, g.invocation);
      AfterChecks(Attempt(c, AtExamine(p, Some(RowOf(g))), None), env.oracle) == Attempt(c, AtAuthorize(p, x), None)
  {
    var p := NewProposal(g.minted, g.invocation);
    hide Timestamps.Format, RowOf, Examine, DbInv, Stands, Authorized, InTime, Observed, Library.ResolveCitation;
    ExaminationPasses(g, c.config, c.request, p, env.oracle);
    x := Examine(c.config, c.request, Library.ResolveCitation(c.config.library, c.request.citation).value, p,
        Some(RowOf(g)), env.oracle).value;
  }

  // Proposed from the catalog, unexpired, unconsumed, nothing changed, observations as expected,
  // authorized, and the start record persists: the gate dispatches.
  lemma {:induction false} CertainDispatch(db: Db, env: Environment, c: Call, g: Origin)
    requires Favourable(db, env, c, g)
    ensures Decide(db, env, Begin(c)).1.pc.AtOutcome?
  {
    var p := NewProposal(g.minted, g.invocation);
    assert p.id == g.minted.id && Proposable(g);
    hide Favourable, Knows, DbInv, NewProposal, RowOf, FetchBinding, Decide, AfterToken, AfterChecks, Proposable;
    TokenAccepted(db, env, c, g);
    BeginKnows(db, env, c, g);
    DecideToken(db, env, Begin(c));
    GateSteps.TokenStep(db, env.resolveAt, Begin(c));
    var bound := Attempt(c, AtBinding(p), None);
    DecideBinding(db, env, bound);
    GateSteps.BindingStep(db, bound);
    var examining := Attempt(c, AtExamine(p, Some(RowOf(g))), None);
    DecideChecks(db, env, examining);
    GateSteps.ChecksStep(db, examining, env.oracle);
    var x := ChecksAccepted(db, env, c, g);
    FromAuthorize(db, env, c, g, x);
  }

  // Along any history of committed transactions since the proposal was opened and approved by
  // token.
  lemma {:induction false} ProposedApprovedDispatched(d0: Db, d2: Db, d4: Db, g: Origin, approvalId: string,
          now: Timestamps.Utc, env: Environment, c: Call)
    requires DbInv(d0) && DbInv(d2) && DbInv(d4) && Proposable(g)
    requires OpenProposal(d0, g.minted, g.invocation, Some(TemplateOf(g)), true).Ok?
    requires Grows(OpenProposal(d0, g.minted, g.invocation, Some(TemplateOf(g)), true).value, d2)
    requires RecordApproval(d2, g.minted.tokenDigest, approvalId, c.config.verifier, now).Ok?
    requires Grows(RecordApproval(d2, g.minted.tokenDigest, approvalId, c.config.verifier, now).value, d4)
    requires RowByToken(d4, g.minted.tokenDigest).Some? ==> RowByToken(d4, g.minted.tokenDigest).value.state == Active
    requires Unchanged(g, c.config, c.request, env.oracle) && Observed(c.config, c.request, env.oracle)
    requires c.config.operator == c.config.verifier && InTime(env, g) && env.startOk && Td(c) == g.minted.tokenDigest
    requires c.request.expected.Some? ==> c.request.expected.value == InvocationSha(g.invocation)
    ensures Decide(d4, env, Begin(c)).1.pc.AtOutcome?
  {
    var d1 := OpenProposal(d0, g.minted, g.invocation, Some(TemplateOf(g)), true).value;
    var td := g.minted.tokenDigest;
    var d3 := RecordApproval(d2, td, approvalId, c.config.verifier, now).value;
    Transactions.ResolvedRow(d2, td, None, now);
    assert RowByToken(d2, td).value.state == Active;
    Transactions.RecordKeeps(d2, td, approvalId, c.config.verifier, now);
    hide OpenProposal, RecordApproval, Decide, DbInv, Grows, Unchanged, Observed, InTime, Td, Stands, Resolve,
         Proposable;
    GrowsTransitive(d2, d3, d4);
    GrowsTransitive(d1, d2, d4);
    OpenedStands(d0, g, d2);
    OpenedStands(d0, g, d4);
    RecordedStands(d2, g, approvalId, c.config.verifier, now, d4);
    CertainDispatch(d4, env, c, g);
  }
}
