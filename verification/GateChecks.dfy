// The checks the execution gate makes between its database steps, each a function of what the
// gate has in hand, and the proposal tool's checks before a proposal is opened.
module GateChecks {
  import opened Wrappers
  import opened Domain
  import opened Records
  import Json
  import Catalog
  import Library

  datatype ObserverKey = ObserverKey(runbookId: string, revision: string, contentHash: Digest, index: nat)

  datatype ObserverBinding = ObserverBinding(observerId: string, timeout: int)

  datatype StandingAuthorization = StandingAuthorization(
    authorizationId: string,
    scriptPath: string,
    scriptSha: Digest,
    action: string,
    target: string,
    arguments: Json.Value,
    preconditions: seq<Precondition>,
    revisionHash: Digest,
    profileDigest: Digest
  )

  datatype Policy = Policy(standing: seq<StandingAuthorization>, observers: map<ObserverKey, ObserverBinding>)

  datatype Config = Config(
    library: seq<Revision>,
    catalog: Option<Domain.Catalog>,
    policy: Policy,
    operator: string,   // the identity the gate presents
    verifier: string    // the identity the approval verifier is configured with
  )

  datatype Request = Request(token: string, citation: Citation, expected: Option<Digest>)

  datatype RefusalCode =
    | EvidenceRejected
    | TokenRejected(rejection: Rejection)
    | BindingMissing
    | BindingCorrupt
    | BindingMismatch
    | ScriptUnresolved
    | ScriptMismatch
    | CatalogChanged
    | ProfileChanged
    | EvidenceMismatch
    | PreconditionUnmapped(index: nat)
    | PreconditionDeadline(index: nat)
    | PreconditionTimeout(index: nat)
    | ObserverFailed(index: nat)
    | PreconditionMismatch(index: nat)
    | NoAuthorizationPath
    | DispatchRefused(rejection: Rejection)

  // The code on the refusal event; reasons without one leave it empty.
  function FailureCode(c: RefusalCode): string {
    match c
    case BindingMissing => "binding-missing"
    case BindingCorrupt => "binding-corrupt"
    case BindingMismatch => "binding-mismatch"
    case ScriptUnresolved => "binding-script-unresolved"
    case ScriptMismatch => "binding-script-mismatch"
    case CatalogChanged => "binding-catalog-changed"
    case ProfileChanged => "binding-profile-changed"
    case PreconditionUnmapped(_) => "precondition-unmapped"
    case PreconditionDeadline(_) => "precondition-deadline"
    case PreconditionTimeout(_) => "precondition-timeout"
    case ObserverFailed(_) => "precondition-observer-error"
    case PreconditionMismatch(_) => "precondition-mismatch"
    case _ => ""
  }

  predicate BindingRefusal(c: RefusalCode) {
    c in {BindingMissing, BindingCorrupt, BindingMismatch, ScriptUnresolved, ScriptMismatch, CatalogChanged,
        ProfileChanged}
  }

  // One precondition's reading: what the observer reported, or why there is no value.
  datatype Reading = Reported(value: string) | TimedOut | ObserverError | PastDeadline

  datatype Observation = Observation(index: nat, observerId: string, value: string)

  /* ---------- The stored binding ---------- */

  function CheckBinding(frozen: Proposal, row: Option<BindingRow>): Option<RefusalCode> {
    if row.None? then Some(BindingMissing)
    else if row.value.digest != BindingSha(row.value.document) then Some(BindingCorrupt)
    else if row.value.document.invocationDigest != frozen.digest then Some(BindingMismatch)
    else None
  }

  // `source` is what the script source yields for the bound path; None when it cannot be read.
  function CheckScript(t: BindingTemplate, source: Option<seq<Byte>>): Option<RefusalCode> {
    if source.None? then Some(ScriptUnresolved)
    else if ScriptSha(source.value) != t.scriptSha then Some(ScriptMismatch)
    else None
  }

  function EntryKey(t: BindingTemplate, inv: Invocation): CatalogKey {
    CatalogKey(t.runbookId, t.revision, t.contentHash, inv.action, inv.target)
  }

  predicate EntryUnchanged(c: Domain.Catalog, t: BindingTemplate, inv: Invocation) {
    var key := EntryKey(t, inv);
    && key in c.entries
    && EntrySha(c.entries[key]) == t.entryDigest
    && c.entries[key].scriptSha == t.scriptSha
    && c.entries[key].scriptPath == t.scriptPath
  }

  predicate ProfileUnchanged(c: Domain.Catalog, t: BindingTemplate) {
    t.profileId in c.profiles && ProfileSha(c.profiles[t.profileId]) == t.profileDigest
  }

  function CheckCatalog(catalog: Option<Domain.Catalog>, t: BindingTemplate, inv: Invocation): Option<RefusalCode> {
    if catalog.None? then None
    else if !EntryUnchanged(catalog.value, t, inv) then Some(CatalogChanged)
    else if !ProfileUnchanged(catalog.value, t) then Some(ProfileChanged)
    else None
  }

  /* ---------- Evidence ---------- */

  function PreconditionValues(ps: seq<Precondition>): (vs: seq<Json.Value>)
    ensures |vs| == |ps|
    ensures forall i :: 0 <= i < |ps| ==> vs[i] == PreconditionValue(ps[i])
  {
    seq(|ps|, i requires 0 <= i < |ps| => PreconditionValue(ps[i]))
  }

  lemma {:induction false} PreconditionValuesInjective(ps: seq<Precondition>, qs: seq<Precondition>)
    ensures PreconditionValues(ps) == PreconditionValues(qs) <==> ps == qs
  {
    if PreconditionValues(ps) == PreconditionValues(qs) {
      assert |ps| == |qs|;
      forall i | 0 <= i < |ps| ensures ps[i] == qs[i] {
        assert PreconditionValues(ps)[i] == PreconditionValue(ps[i]);
        assert PreconditionValues(qs)[i] == PreconditionValue(qs[i]);
      }
    }
  }

  predicate Describes(ev: Evidence, inv: Invocation, citation: Citation) {
    && inv.action == ev.action
    && inv.target == ev.target
    && inv.revisionHash == citation.contentHash
    && inv.preconditions == PreconditionValues(ev.preconditions)
  }

  /* ---------- Observation ---------- */

  function KeyAt(c: Citation, index: nat): ObserverKey {
    ObserverKey(c.runbookId, c.revision, c.contentHash, index)
  }

  // Preconditions are observed in order from `i` on; the first that is unmapped, unread or
  // different refuses.
  function ObserveFrom(policy: Policy, c: Citation, ps: seq<Precondition>, readings: seq<Reading>, i: nat)
    : Result<seq<Observation>, RefusalCode>
    requires i <= |ps|
    decreases |ps| - i
  {
    if i == |ps| then Ok([])
    else if KeyAt(c, i) !in policy.observers then Err(PreconditionUnmapped(i))
    else
      var reading := if i < |readings| then readings[i] else PastDeadline;
      match reading
      case PastDeadline => Err(PreconditionDeadline(i))
      case TimedOut => Err(PreconditionTimeout(i))
      case ObserverError => Err(ObserverFailed(i))
      case Reported(value) =>
        if value != ps[i].expected then Err(PreconditionMismatch(i))
        else
          var rest := ObserveFrom(policy, c, ps, readings, i + 1);
          if rest.Err? then rest
          else Ok([Observation(i, policy.observers[KeyAt(c, i)].observerId, value)] + rest.value)
  }

  ghost predicate ObservationsHold(policy: Policy, c: Citation, ps: seq<Precondition>, obs: seq<Observation>, i: nat) {
    && |obs| + i == |ps|
    && forall k :: 0 <= k < |obs| ==>
         && obs[k].index == i + k
         && ObserverKey(c.runbookId, c.revision, c.contentHash, i + k) in policy.observers
         && obs[k].observerId
            == policy.observers[ObserverKey(c.runbookId, c.revision, c.contentHash, i + k)].observerId
         && obs[k].value == ps[i + k].expected
  }

  ghost predicate ReadingsMatch(policy: Policy, c: Citation, ps: seq<Precondition>, readings: seq<Reading>) {
    && |readings| == |ps|
    && forall k :: 0 <= k < |ps| ==> KeyAt(c, k) in policy.observers && readings[k] == Reported(ps[k].expected)
  }

  // The loop passes exactly when every index was observed, in order, with the expected value.
  lemma {:induction false} ObservedInOrder(policy: Policy, c: Citation, ps: seq<Precondition>, readings: seq<Reading>,
          i: nat)
    requires i <= |ps|
    ensures
      var r := ObserveFrom(policy, c, ps, readings, i);
      r.Ok? ==> ObservationsHold(policy, c, ps, r.value, i)
    ensures ReadingsMatch(policy, c, ps, readings) ==> ObserveFrom(policy, c, ps, readings, i).Ok?
    decreases |ps| - i
  {
    if i < |ps| {
      ObservedInOrder(policy, c, ps, readings, i + 1);
      var r := ObserveFrom(policy, c, ps, readings, i);
      if r.Ok? {
        var rest := ObserveFrom(policy, c, ps, readings, i + 1);
        assert forall k :: 0 < k < |r.value| ==> r.value[k] == rest.value[k - 1];
      }
    }
  }

  /* ---------- Authorization ---------- */

  // All-or-nothing equality; the precondition order is significant.
  predicate Matches(a: StandingAuthorization, inv: Invocation, t: BindingTemplate, scriptSha: Digest) {
    && t.scriptPath == a.scriptPath
    && scriptSha == a.scriptSha
    && inv.action == a.action
    && inv.target == a.target
    && inv.arguments == a.arguments
    && inv.preconditions == PreconditionValues(a.preconditions)
    && inv.revisionHash == a.revisionHash
    && t.profileDigest == a.profileDigest
  }

  // What a standing record permits: one invocation, one script, one runner profile.
  function Permitted(a: StandingAuthorization): Invocation {
    Invocation(a.action, a.target, a.arguments, PreconditionValues(a.preconditions), a.revisionHash)
  }

  predicate Permits(a: StandingAuthorization, inv: Invocation, t: BindingTemplate, script: seq<Byte>) {
    && inv == Permitted(a)
    && t.scriptPath == a.scriptPath && ScriptSha(script) == a.scriptSha && t.profileDigest == a.profileDigest
  }

  // A record matches exactly what it permits.
  lemma {:induction false} MatchesIff(a: StandingAuthorization, inv: Invocation, t: BindingTemplate, script: seq<Byte>)
    ensures Matches(a, inv, t, ScriptSha(script)) <==> Permits(a, inv, t, script)
  {
  }

  function FindStanding(standing: seq<StandingAuthorization>, inv: Invocation, t: BindingTemplate, scriptSha: Digest)
    : (i: nat)
    ensures i <= |standing|
    ensures i < |standing| ==> Matches(standing[i], inv, t, scriptSha)
    ensures i == |standing| ==> forall k :: 0 <= k < |standing| ==> !Matches(standing[k], inv, t, scriptSha)
  {
    if standing == [] then 0
    else if Matches(standing[0], inv, t, scriptSha) then 0
    else 1 + FindStanding(standing[1..], inv, t, scriptSha)
  }

  // `verify` reads the approval, then the proposal, then the binding, on three connections.
  function VerifyApprovalRow(config: Config, row: Option<Approval>): Option<Rejection> {
    if config.operator != config.verifier then Some(OperatorMismatch)
    else if row.None? then Some(HostSupplied)
    else if row.value.operator != config.verifier then Some(OperatorMismatch)
    else if row.value.state == Used then Some(ApprovalReplayed)
    else None
  }

  function VerifyProposal(a: Approval, live: Result<Proposal, Rejection>): Option<Rejection> {
    if live.Err? then Some(live.error)
    else if live.value.id != a.proposalId || live.value.digest != a.invocationDigest
            || live.value.invocation.revisionHash != a.revisionHash || live.value.expiresAt != a.expiresAt then
      Some(InvocationMismatch)
    else None
  }

  function VerifyBinding(a: Approval, binding: Option<BindingRow>): Option<Rejection> {
    if binding.None? || a.bindingDigest != Some(binding.value.digest) then Some(InvocationMismatch) else None
  }

  /* ---------- Everything between the binding read and the authorization choice ---------- */

  // The two oracles the gate consults: the bytes at the bound path, and the observers' readings.
  datatype Oracle = Oracle(source: Option<seq<Byte>>, readings: seq<Reading>)

  datatype Examined = Examined(binding: BindingRow, script: seq<Byte>, observations: seq<Observation>)

  function Examine(config: Config, request: Request, ev: Evidence, frozen: Proposal, row: Option<BindingRow>, o: Oracle)
    : Result<Examined, RefusalCode>
  {
    var bindingFault := CheckBinding(frozen, row);
    if bindingFault.Some? then Err(bindingFault.value)
    else
      var t := row.value.document.template;
      var scriptFault := CheckScript(t, o.source);
      if scriptFault.Some? then Err(scriptFault.value)
      else
        var catalogFault := CheckCatalog(config.catalog, t, frozen.invocation);
        if catalogFault.Some? then Err(catalogFault.value)
        else if !Describes(ev, frozen.invocation, request.citation) then Err(EvidenceMismatch)
        else
          var observed := ObserveFrom(config.policy, request.citation, ev.preconditions, o.readings, 0);
          if observed.Err? then Err(observed.error)
          else Ok(Examined(row.value, o.source.value, observed.value))
  }

  // What the evidence says is to be done, with the arguments left open.
  function Described(ev: Evidence, citation: Citation, arguments: Json.Value): Invocation {
    Invocation(ev.action, ev.target, arguments, PreconditionValues(ev.preconditions), citation.contentHash)
  }

  // The catalog still maps the bound revision and the frozen operation to the bound script, by the
  // very entry the binding was made from.
  predicate Mapped(c: Domain.Catalog, t: BindingTemplate, inv: Invocation) {
    var key := CatalogKey(t.runbookId, t.revision, t.contentHash, inv.action, inv.target);
    && key in c.entries
    && t.entryDigest == EntrySha(c.entries[key])
    && t.scriptSha == c.entries[key].scriptSha && t.scriptPath == c.entries[key].scriptPath
  }

  // The conjunction the gate has established once these checks pass.
  ghost predicate ExaminedHolds(config: Config, request: Request, frozen: Proposal, x: Examined) {
    var t := x.binding.document.template;
    && Library.ResolveCitation(config.library, request.citation).Ok?
    && var ev := Library.ResolveCitation(config.library, request.citation).value;
    && x.binding.digest == BindingSha(x.binding.document)
    && x.binding.document.invocationDigest == frozen.digest
    && ScriptSha(x.script) == t.scriptSha
    && (config.catalog.Some? ==>
          && Mapped(config.catalog.value, t, frozen.invocation)
          && t.profileId in config.catalog.value.profiles
          && t.profileDigest == ProfileSha(config.catalog.value.profiles[t.profileId]))
    && frozen.invocation == Described(ev, request.citation, frozen.invocation.arguments)
    && ObservationsHold(config.policy, request.citation, ev.preconditions, x.observations, 0)
  }

  lemma {:induction false} ExamineSound(config: Config, request: Request, ev: Evidence, frozen: Proposal,
          row: Option<BindingRow>, o: Oracle)
    requires Library.ResolveCitation(config.library, request.citation) == Ok(ev)
    requires Examine(config, request, ev, frozen, row, o).Ok?
    ensures
      var x := Examine(config, request, ev, frozen, row, o).value;
      ExaminedHolds(config, request, frozen, x) && row == Some(x.binding) && o.source == Some(x.script)
  {
    ObservedInOrder(config.policy, request.citation, ev.preconditions, o.readings, 0);
  }

  /* ---------- propose_fix, up to open_proposal ---------- */

  datatype ProposeError = InvalidCitation | EvidenceDiffers | Unresolved(error: Catalog.CatalogError)

  function ProposeChecks(library: seq<Revision>, catalog: Option<Domain.Catalog>, citation: Citation, inv: Invocation)
    : Result<Option<BindingTemplate>, ProposeError>
  {
    var cited := Library.ResolveCitation(library, citation);
    if cited.Err? then Err(InvalidCitation)
    else if !Describes(cited.value, inv, citation) then Err(EvidenceDiffers)
    else if catalog.None? then Ok(None)
    else
      var t := Catalog.ResolveBinding(catalog.value, Catalog.Key(citation, inv.action, inv.target));
      if t.Err? then Err(Unresolved(t.error)) else Ok(Some(t.value))
  }

  // What a binding created through the tool says for ever after: it is the template of an entry
  // under the invocation's own runbook revision, whose content hash names that revision.
  ghost predicate Provenance(t: BindingTemplate, inv: Invocation) {
    && t.contentHash == inv.revisionHash
    && t.contentHash.RevisionSha?
    && t.contentHash.body.runbookId == t.runbookId
    && t.contentHash.body.revision == t.revision
    && t.entryDigest.EntrySha?
    && var e := t.entryDigest.entry;
    && e.key == EntryKey(t, inv)
    && e.scriptPath == t.scriptPath
    && e.scriptSha == t.scriptSha
  }

  lemma {:induction false} ProposedProvenance(library: seq<Revision>, catalog: Option<Domain.Catalog>,
          citation: Citation, inv: Invocation)
    requires Library.Loaded(library) && (catalog.Some? ==> Catalog.Loaded(catalog.value))
    requires ProposeChecks(library, catalog, citation, inv).Ok?
        && ProposeChecks(library, catalog, citation, inv).value.Some?
    ensures Provenance(ProposeChecks(library, catalog, citation, inv).value.value, inv)
  {
    var key := Catalog.Key(citation, inv.action, inv.target);
    Catalog.NeverAmbiguous(catalog.value, key);
    var r := library[Library.FindHash(library, citation.contentHash)];
    assert Library.Verified(r);
  }

  // A binding with such a history that passes the gate's own checks names, at execution time,
  // the entry the catalog holds for the very revision the execution-time citation names.
  lemma {:induction false} ScriptOfCitedRevision(config: Config, request: Request, frozen: Proposal, x: Examined)
    requires Library.Loaded(config.library) && config.catalog.Some?
    requires ExaminedHolds(config, request, frozen, x)
    requires Provenance(x.binding.document.template, frozen.invocation)
    ensures
      var key := Catalog.Key(request.citation, frozen.invocation.action, frozen.invocation.target);
      && key in config.catalog.value.entries
      && config.catalog.value.entries[key].scriptSha == ScriptSha(x.script)
      && config.catalog.value.entries[key].scriptPath == x.binding.document.template.scriptPath
  {
    var t := x.binding.document.template;
    var r := config.library[Library.FindHash(config.library, request.citation.contentHash)];
    assert Library.Verified(r);
    assert EntryKey(t, frozen.invocation) ==
           Catalog.Key(request.citation, frozen.invocation.action, frozen.invocation.target);
  }
}
