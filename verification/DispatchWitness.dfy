// The conditions of certain dispatch can be met: one concrete family of runbooks, catalogs and
// standing records for which the gate dispatches, starting from an empty database.
module DispatchWitness {
  import opened Wrappers
  import opened Domain
  import opened Records
  import opened Integrity
  import opened GateChecks
  import opened GateProtocol
  import opened GateRun
  import opened Completeness
  import Transactions
  import Catalog
  import Library
  import Json
  import Timestamps

  // A runbook of one passage without preconditions, a catalog of one entry, one standing record.
  datatype Sample = Sample(body: RevisionBody, scriptId: string, scriptPath: string, bytes: seq<Byte>,
          profile: RunnerProfile, arguments: Json.Value, minted: Minted, token: string, operator: string)

  predicate Usable(s: Sample) {
    && s.body.runbookId != "" && s.body.revision != "" && s.body.preconditions == []
    && |s.body.passages| == 1 && s.body.passages[0].locator != ""
    && TtlPositive(s.minted) && s.minted.id != "" && s.minted.tokenDigest == Hmac(s.token)
  }

  function SampleCitation(s: Sample): Citation
    requires Usable(s)
  {
    Citation(s.body.runbookId, s.body.revision, RevisionSha(s.body), s.body.passages[0].locator)
  }

  function SampleKey(s: Sample): CatalogKey {
    CatalogKey(s.body.runbookId, s.body.revision, RevisionSha(s.body), s.body.action, s.body.target)
  }

  function SampleOrigin(s: Sample): Origin
    requires Usable(s)
  {
    var entry := CatalogEntry(SampleKey(s), s.scriptId, s.scriptPath, ScriptSha(s.bytes));
    Origin([Revision(s.body, RevisionSha(s.body))],
           Domain.Catalog(map[SampleKey(s) := entry], map[s.profile.profileId := s.profile]),
           SampleCitation(s),
           Invocation(s.body.action, s.body.target, s.arguments, [], RevisionSha(s.body)),
           s.minted)
  }

  function SampleCall(s: Sample): Call
    requires Usable(s)
  {
    var g := SampleOrigin(s);
    var standing := StandingAuthorization("standing", s.scriptPath, ScriptSha(s.bytes), s.body.action, s.body.target,
        s.arguments, [],
                                          RevisionSha(s.body), ProfileSha(s.profile));
    Call("owner", Request(s.token, g.citation, None),
         Config(g.library, Some(g.catalog), Policy([standing], map[]), s.operator, s.operator))
  }

  function SampleEnvironment(s: Sample): Environment {
    Environment(s.minted.now, s.minted.now, s.minted.now, Oracle(Some(s.bytes), []), true,
        Report.Reported("success", ""), true, true, true)
  }

  lemma {:induction false} SampleResolves(s: Sample)
    requires Usable(s)
    ensures
      var g := SampleOrigin(s);
      && Library.Loaded(g.library)
      && Library.ResolveCitation(g.library, g.citation).Ok?
      && Library.ResolveCitation(g.library, g.citation).value.preconditions == []
      && Describes(Library.ResolveCitation(g.library, g.citation).value, g.invocation, g.citation)
  {
    var g := SampleOrigin(s);
    assert Library.Verified(g.library[0]);
    assert Library.FindHash(g.library, g.citation.contentHash) == 0;
    assert Library.FindLocator(s.body.passages, g.citation.locator) == 0;
  }

  lemma {:induction false} SampleProposable(s: Sample)
    requires Usable(s)
    ensures
      var g := SampleOrigin(s);
      && Proposable(g)
      && TemplateOf(g) == Catalog.TemplateOf(CatalogEntry(SampleKey(s), s.scriptId, s.scriptPath, ScriptSha(s.bytes)),
          s.profile)
  {
    var g := SampleOrigin(s);
    SampleResolves(s);
    hide Library.ResolveCitation, Library.Loaded, Describes;
    assert g.catalog.profiles.Keys == {s.profile.profileId};
    assert Catalog.Loaded(g.catalog);
    Catalog.NeverAmbiguous(g.catalog, KeyOf(g));
  }

  lemma {:induction false} SampleUnchanged(s: Sample)
    requires Usable(s)
    ensures
      var (g, c, o) := (SampleOrigin(s), SampleCall(s), Oracle(Some(s.bytes), []));
      Unchanged(g, c.config, c.request, o) && Observed(c.config, c.request, o) && StandingMatch(c.config, g, s.bytes)
  {
    var (g, c) := (SampleOrigin(s), SampleCall(s));
    SampleResolves(s);
    SampleProposable(s);
    hide Library.ResolveCitation, Library.Loaded, Catalog.Loaded, ProposeChecks, Describes;
    assert Matches(c.config.policy.standing[0], g.invocation, TemplateOf(g), ScriptSha(s.bytes));
  }

  // From an empty database: propose under such a catalog, execute at once, and the gate dispatches.
  lemma {:induction false} SampleDispatches(s: Sample)
    requires Usable(s)
    ensures
      var g := SampleOrigin(s);
      && Proposable(g)
      && var d1 := OpenProposal(EMPTY, s.minted, g.invocation, Some(TemplateOf(g)), true);
      && d1.Ok?
      && Decide(d1.value, SampleEnvironment(s), Begin(SampleCall(s))).1.pc.AtOutcome?
  {
    var (g, c, env) := (SampleOrigin(s), SampleCall(s), SampleEnvironment(s));
    SampleProposable(s);
    SampleUnchanged(s);
    assert Td(c) == s.minted.tokenDigest && g.minted == s.minted;
    SampleOpened(g);
    SampleFavourable(s);
    var d1 := OpenProposal(EMPTY, s.minted, g.invocation, Some(TemplateOf(g)), true).value;
    hide Favourable, OpenProposal, SampleOrigin, SampleCall, SampleEnvironment, Decide, Proposable;
    CertainDispatch(d1, env, c, g);
  }

  lemma {:induction false} SampleOpened(g: Origin)
    requires Proposable(g)
    ensures OpenProposal(EMPTY, g.minted, g.invocation, Some(TemplateOf(g)), true).Ok?
    ensures
      var d1 := OpenProposal(EMPTY, g.minted, g.invocation, Some(TemplateOf(g)), true).value;
      DbInv(d1) && Stands(d1, g)
  {
    hide DbInv, Grows, OpenProposal, ProposeChecks, Timestamps.Format, Timestamps.Before, Stands;
    EmptyDatabase(g);
    Transactions.OpenKeeps(EMPTY, g.minted, g.invocation, Some(TemplateOf(g)), true);
    var d1 := OpenProposal(EMPTY, g.minted, g.invocation, Some(TemplateOf(g)), true).value;
    GrowsReflexive(d1);
    assert d1.proposals[0].state == Active;
    OpenedStands(EMPTY, g, d1);
  }

  lemma {:induction false} EmptyDatabase(g: Origin)
    requires Proposable(g)
    ensures DbInv(EMPTY)
    ensures
      var d1 := OpenProposal(EMPTY, g.minted, g.invocation, Some(TemplateOf(g)), true);
      d1.Ok? && d1.value.proposals == [NewProposal(g.minted, g.invocation)]
  {
    hide ProposeChecks, Timestamps.Format, Timestamps.Before;
  }

  lemma {:induction false} SampleFavourable(s: Sample)
    requires Usable(s) && Proposable(SampleOrigin(s))
    requires OpenProposal(EMPTY, s.minted, SampleOrigin(s).invocation, Some(TemplateOf(SampleOrigin(s))), true).Ok?
    ensures
      var g := SampleOrigin(s);
      var d1 := OpenProposal(EMPTY, s.minted, g.invocation, Some(TemplateOf(g)), true).value;
      Favourable(d1, SampleEnvironment(s), SampleCall(s), g)
  {
    var g := SampleOrigin(s);
    assert g.minted == s.minted && Td(SampleCall(s)) == s.minted.tokenDigest && SampleCall(s).request.expected.None?;
    assert SampleEnvironment(s).oracle == Oracle(Some(s.bytes), []) && SampleEnvironment(s).startOk;
    assert InTime(SampleEnvironment(s), g);
    hide SampleOrigin, SampleCall, SampleEnvironment, DbInv, Stands, Unchanged, Observed, StandingMatch, OpenProposal,
         Proposable, InTime, Td;
    SampleOpened(g);
    SampleUnchanged(s);
  }
}
