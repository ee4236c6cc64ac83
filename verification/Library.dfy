// Verified runbook revisions: what qualifies as one, how citations resolve against a loaded
// library, and how a search ranks its passages.
module Library {
  import opened Wrappers
  import opened FirstMatch
  import opened Domain
  import opened Text

  // A document whose fields have the right JSON types; verification metadata may be absent.
  datatype Document = Document(
    runbookId: string,
    revision: string,
    action: string,
    target: string,
    preconditions: seq<Precondition>,
    passages: seq<Passage>,
    verification: Option<Verification>,
    dated: bool,                  // the verification time reads as an ISO timestamp with a time zone
    contentHash: Digest
  )

  datatype LibraryError = Malformed | Unverified | Tampered | UnknownPassage

  /* ---------- parse_revision ---------- */

  function BodyOf(d: Document): RevisionBody
    requires d.verification.Some?
  {
    RevisionBody(d.runbookId, d.revision, d.action, d.target, d.preconditions, d.passages, d.verification.value)
  }

  predicate LocatorsDistinct(ps: seq<Passage>) {
    forall i, j :: 0 <= i < j < |ps| ==> ps[i].locator != ps[j].locator
  }

  predicate PassagesOk(ps: seq<Passage>) {
    && ps != []
    && (forall i :: 0 <= i < |ps| ==> !Blank(ps[i].locator) && !Blank(ps[i].text))
    && LocatorsDistinct(ps)
  }

  predicate Qualifies(d: Document) {
    && d.verification.Some?
    && !Blank(d.runbookId) && !Blank(d.revision) && !Blank(d.action) && !Blank(d.target)
    && (forall i :: 0 <= i < |d.preconditions| ==>
          !Blank(d.preconditions[i].name) && !Blank(d.preconditions[i].expected))
    && PassagesOk(d.passages)
    && !Blank(d.verification.value.verifier) && !Blank(d.verification.value.applicability)
    && d.verification.value.verifiedAt != "" && d.dated
    && d.contentHash == RevisionSha(BodyOf(d))
  }

  method ParsePassages(raw: seq<Passage>) returns (r: Result<seq<Passage>, LibraryError>)
    ensures r.Ok? <==> PassagesOk(raw)
    ensures r.Ok? ==> r.value == raw
  {
    if raw == [] {
      return Err(Malformed);
    }
    var passages, seen := [], {};
    for i := 0 to |raw|
      invariant passages == raw[..i]
      invariant forall l :: l in seen <==> exists k :: 0 <= k < i && raw[k].locator == l
      invariant forall k :: 0 <= k < i ==> !Blank(raw[k].locator) && !Blank(raw[k].text)
      invariant LocatorsDistinct(raw[..i])
    {
      var item := raw[i];
      if Blank(item.locator) || Blank(item.text) || item.locator in seen {
        return Err(Malformed);
      }
      seen := seen + {item.locator};
      passages := passages + [item];
      assert raw[..i + 1] == raw[..i] + [item];
    }
    assert raw[..|raw|] == raw;
    r := Ok(passages);
  }

  method ParsePreconditions(raw: seq<Precondition>) returns (r: Result<seq<Precondition>, LibraryError>)
    ensures r.Ok? <==> forall i :: 0 <= i < |raw| ==> !Blank(raw[i].name) && !Blank(raw[i].expected)
    ensures r.Ok? ==> r.value == raw
  {
    var out := [];
    for i := 0 to |raw|
      invariant out == raw[..i]
      invariant forall k :: 0 <= k < i ==> !Blank(raw[k].name) && !Blank(raw[k].expected)
    {
      if Blank(raw[i].name) || Blank(raw[i].expected) {
        return Err(Malformed);
      }
      out := out + [raw[i]];
    }
    r := Ok(out);
  }

  // The hash must recompute over the literal body.
  method ParseRevision(d: Document) returns (r: Result<Revision, LibraryError>)
    ensures r.Ok? <==> Qualifies(d)
    ensures r.Ok? ==> r.value == Revision(BodyOf(d), d.contentHash)
  {
    if d.verification.None? {
      return Err(Unverified);
    }
    if Blank(d.runbookId) || Blank(d.revision) || Blank(d.action) || Blank(d.target) {
      return Err(Malformed);
    }
    var preconditions := ParsePreconditions(d.preconditions);
    if preconditions.Err? {
      return Err(preconditions.error);
    }
    var passages := ParsePassages(d.passages);
    if passages.Err? {
      return Err(passages.error);
    }
    var v := d.verification.value;
    if Blank(v.verifier) || Blank(v.applicability) || v.verifiedAt == "" || !d.dated {
      return Err(Unverified);
    }
    var body := RevisionBody(d.runbookId, d.revision, d.action, d.target, preconditions.value, passages.value, v);
    if RevisionSha(body) != d.contentHash {
      return Err(Tampered);
    }
    r := Ok(Revision(body, d.contentHash));
  }

  /* ---------- RunbookLibrary.load ---------- */

  // What loading guarantees of every revision the library holds.
  ghost predicate Verified(r: Revision) {
    && r.contentHash == RevisionSha(r.body)
    && r.body.runbookId != "" && r.body.revision != ""
    && LocatorsDistinct(r.body.passages)
    && (forall i :: 0 <= i < |r.body.passages| ==> r.body.passages[i].locator != "")
  }

  ghost predicate Loaded(lib: seq<Revision>) {
    forall i :: 0 <= i < |lib| ==> Verified(lib[i])
  }

  function Accepted(docs: seq<Document>): seq<Revision> {
    if docs == [] then []
    else
      var d := docs[|docs| - 1];
      Accepted(docs[..|docs| - 1]) + if Qualifies(d) then [Revision(BodyOf(d), d.contentHash)] else []
  }

  function Reported(docs: seq<Document>): seq<nat> {
    if docs == [] then []
    else
      var n := |docs| - 1;
      Reported(docs[..n]) + if Qualifies(docs[n]) then [] else [n]
  }

  // Exactly the qualifying documents are held, each verified; every other one is reported, once.
  lemma {:induction false} HeldAreVerified(docs: seq<Document>)
    ensures Loaded(Accepted(docs))
  {
    if docs == [] {
    } else {
      var n := |docs| - 1;
      HeldAreVerified(docs[..n]);
      var held := Accepted(docs[..n]);
      assert Qualifies(docs[n]) ==> Verified(Revision(BodyOf(docs[n]), docs[n].contentHash));
      hide Verified, Qualifies;
      assert Loaded(held) && Loaded(Accepted(docs));
    }
  }

  ghost predicate HoldsQualified(docs: seq<Document>, lib: seq<Revision>) {
    && (forall i: nat :: i < |docs| && Qualifies(docs[i]) ==> Revision(BodyOf(docs[i]), docs[i].contentHash) in lib)
    && (forall r :: r in lib ==>
          exists i: nat :: i < |docs| && Qualifies(docs[i]) && r == Revision(BodyOf(docs[i]), docs[i].contentHash))
  }

  // The documents, sorted into revisions held and positions reported.
  ghost predicate Sorted(docs: seq<Document>, lib: seq<Revision>, rejections: seq<nat>) {
    && HoldsQualified(docs, lib)
    && (forall i: nat :: i in rejections <==> i < |docs| && !Qualifies(docs[i]))
    && |lib| + |rejections| == |docs|
  }

  lemma {:induction false} HeldOrReported(docs: seq<Document>)
    ensures Sorted(docs, Accepted(docs), Reported(docs))
  {
    hide Qualifies, HoldsQualified;
    HeldAreQualified(docs);
    if docs == [] {
    } else {
      var n := |docs| - 1;
      var front := docs[..n];
      HeldOrReported(front);
      assert forall i: nat :: i < n ==> docs[i] == front[i];
    }
  }

  lemma {:induction false} HeldAreQualified(docs: seq<Document>)
    ensures HoldsQualified(docs, Accepted(docs))
  {
    hide Qualifies;
    if docs == [] {
    } else {
      var n := |docs| - 1;
      var front := docs[..n];
      HeldAreQualified(front);
      assert forall i: nat :: i < n ==> docs[i] == front[i];
    }
  }

  method Load(docs: seq<Document>) returns (lib: seq<Revision>, rejections: seq<nat>)
    ensures lib == Accepted(docs) && rejections == Reported(docs)
    ensures Loaded(lib) && Sorted(docs, lib, rejections)
  {
    lib, rejections := [], [];
    for i := 0 to |docs|
      invariant lib == Accepted(docs[..i]) && rejections == Reported(docs[..i])
    {
      var parsed := ParseRevision(docs[i]);
      assert docs[..i + 1][..i] == docs[..i];
      if parsed.Ok? {
        lib := lib + [parsed.value];
      } else {
        rejections := rejections + [i];
      }
    }
    assert docs[..|docs|] == docs;
    HeldAreVerified(docs);
    HeldOrReported(docs);
  }

  /* ---------- RunbookLibrary.resolve_citation ---------- */

  function FindHash(lib: seq<Revision>, hash: Digest): (i: nat)
    ensures i <= |lib|
    ensures i < |lib| ==> lib[i].contentHash == hash
    ensures forall k :: 0 <= k < i ==> lib[k].contentHash != hash
  {
    First(lib, (r: Revision) => r.contentHash == hash)
  }

  function FindLocator(ps: seq<Passage>, locator: string): (i: nat)
    ensures i <= |ps|
    ensures i < |ps| ==> ps[i].locator == locator
    ensures forall k :: 0 <= k < i ==> ps[k].locator != locator
  {
    First(ps, (p: Passage) => p.locator == locator)
  }

  function ResolveCitation(lib: seq<Revision>, c: Citation): Result<Evidence, LibraryError> {
    if c.runbookId == "" || c.revision == "" || c.locator == "" then Err(Malformed)
    else
      var i := FindHash(lib, c.contentHash);
      if i == |lib| then Err(UnknownPassage)
      else
        var b := lib[i].body;
        if c.runbookId != b.runbookId || c.revision != b.revision then Err(Malformed)
        else
          var k := FindLocator(b.passages, c.locator);
          if k == |b.passages| then Err(UnknownPassage)
          else Ok(Evidence(c, b.passages[k], b.action, b.target, b.preconditions, b.verification.verifier))
  }

  // A content hash names one body, so two loaded libraries that resolve citations with the same
  // hash agree on the revision and on everything the evidence says but the passage.
  lemma {:induction false} HashNamesRevision(lib1: seq<Revision>, c1: Citation, lib2: seq<Revision>, c2: Citation)
    requires Loaded(lib1) && Loaded(lib2) && c1.contentHash == c2.contentHash
    requires ResolveCitation(lib1, c1).Ok? && ResolveCitation(lib2, c2).Ok?
    ensures c1.runbookId == c2.runbookId && c1.revision == c2.revision
    ensures
      var e1, e2 := ResolveCitation(lib1, c1).value, ResolveCitation(lib2, c2).value;
      && e1.action == e2.action && e1.target == e2.target
      && e1.preconditions == e2.preconditions
      && (c1.locator == c2.locator ==> e1.passage == e2.passage)
  {
    var r1, r2 := lib1[FindHash(lib1, c1.contentHash)], lib2[FindHash(lib2, c2.contentHash)];
    assert Verified(r1) && Verified(r2);
  }

  /* ---------- RunbookLibrary.search ---------- */

  datatype SearchResult = SearchResult(
    citation: Citation,
    text: string,
    action: string,
    target: string,
    preconditions: seq<Precondition>,
    verification: Verification,
    score: nat
  )

  // The maximal runs of letters and digits, lower-cased; `run` is the run being read.
  function TermsFrom(s: string, run: string): (ts: seq<string>)
    ensures forall i :: 0 <= i < |ts| ==> ts[i] != ""
  {
    if s == "" then (if run == "" then [] else [run])
    else
      var c := LowerChar(s[0]);
      if TermChar(c) then TermsFrom(s[1..], run + [c])
      else (if run == "" then [] else [run]) + TermsFrom(s[1..], "")
  }

  function Terms(s: string): seq<string> {
    TermsFrom(s, "")
  }

  function Score(haystack: seq<string>, wanted: seq<string>): nat {
    if haystack == [] then 0 else (if haystack[0] in wanted then 1 else 0) + Score(haystack[1..], wanted)
  }

  function ResultOf(r: Revision, p: Passage, wanted: seq<string>): SearchResult {
    SearchResult(Citation(r.body.runbookId, r.body.revision, r.contentHash, p.locator), p.text,
                 r.body.action, r.body.target, r.body.preconditions, r.body.verification,
                 Score(Terms(p.text) + Terms(r.body.action + " " + r.body.target), wanted))
  }

  // Passages in library order, skipping those that score nothing.
  function HitsIn(r: Revision, ps: seq<Passage>, wanted: seq<string>): seq<SearchResult> {
    if ps == [] then []
    else
      var last := ResultOf(r, ps[|ps| - 1], wanted);
      HitsIn(r, ps[..|ps| - 1], wanted) + if last.score == 0 then [] else [last]
  }

  function Hits(lib: seq<Revision>, wanted: seq<string>): seq<SearchResult> {
    if lib == [] then []
    else
      var r := lib[|lib| - 1];
      Hits(lib[..|lib| - 1], wanted) + HitsIn(r, r.body.passages, wanted)
  }

  // The sort key: higher score first, then runbook id, then locator.
  predicate Ahead(a: SearchResult, b: SearchResult) {
    || a.score > b.score
    || (a.score == b.score && Less(a.citation.runbookId, b.citation.runbookId))
    || (a.score == b.score && a.citation.runbookId == b.citation.runbookId
        && Less(a.citation.locator, b.citation.locator))
  }

  ghost predicate Ranked(rs: seq<SearchResult>) {
    forall i, j :: 0 <= i < j < |rs| ==> !Ahead(rs[j], rs[i])
  }

  // Being not ahead is a total preorder on the three keys.
  predicate AtOrBehind(a: SearchResult, b: SearchResult) {
    || a.score > b.score
    || (a.score == b.score && Less(a.citation.runbookId, b.citation.runbookId))
    || (a.score == b.score && a.citation.runbookId == b.citation.runbookId
        && (a.citation.locator == b.citation.locator || Less(a.citation.locator, b.citation.locator)))
  }

  lemma {:induction false} NotAheadIs(a: SearchResult, b: SearchResult)
    ensures !Ahead(b, a) <==> AtOrBehind(a, b)
  {
    LessAsymmetric(a.citation.runbookId, b.citation.runbookId);
    LessAsymmetric(a.citation.locator, b.citation.locator);
  }

  lemma {:induction false} LessAsymmetric(a: string, b: string)
    ensures Less(b, a) <==> a != b && !Less(a, b)
  {
    LessTotal(a, b);
    LessIrreflexive(a);
    if Less(a, b) && Less(b, a) {
      LessTransitive(a, b, a);
    }
  }

  lemma {:induction false} NotAheadTransitive(a: SearchResult, b: SearchResult, c: SearchResult)
    requires !Ahead(b, a) && !Ahead(c, b)
    ensures !Ahead(c, a)
  {
    NotAheadIs(a, b);
    NotAheadIs(b, c);
    NotAheadIs(a, c);
    var (ra, rb, rc) := (a.citation.runbookId, b.citation.runbookId, c.citation.runbookId);
    var (la, lb, lc) := (a.citation.locator, b.citation.locator, c.citation.locator);
    if Less(ra, rb) && Less(rb, rc) {
      LessTransitive(ra, rb, rc);
    }
    if Less(la, lb) && Less(lb, lc) {
      LessTransitive(la, lb, lc);
    }
  }

  // The stable sort: a result goes after those it is not ahead of.
  function Insert(x: SearchResult, sorted: seq<SearchResult>): (r: seq<SearchResult>)
    ensures multiset(r) == multiset(sorted) + multiset{x}
  {
    if sorted == [] then [x]
    else if Ahead(x, sorted[0]) then [x] + sorted
    else
      assert sorted == [sorted[0]] + sorted[1..];
      [sorted[0]] + Insert(x, sorted[1..])
  }

  function SortResults(rs: seq<SearchResult>): (r: seq<SearchResult>)
    ensures multiset(r) == multiset(rs)
  {
    if rs == [] then []
    else
      assert rs == rs[..|rs| - 1] + [rs[|rs| - 1]];
      Insert(rs[|rs| - 1], SortResults(rs[..|rs| - 1]))
  }

  lemma {:induction false} InsertRanked(x: SearchResult, sorted: seq<SearchResult>)
    requires Ranked(sorted)
    ensures Ranked(Insert(x, sorted))
  {
    var r := Insert(x, sorted);
    if sorted == [] {
    } else if Ahead(x, sorted[0]) {
      NotAheadIs(x, sorted[0]);
      NotAheadIs(sorted[0], x);
      AheadExcludes(x, sorted[0]);
      forall j | 0 <= j < |sorted| ensures !Ahead(sorted[j], x) {
        if j > 0 {
          NotAheadTransitive(x, sorted[0], sorted[j]);
        }
      }
    } else {
      var rest := Insert(x, sorted[1..]);
      InsertRanked(x, sorted[1..]);
      forall j | 0 <= j < |rest| ensures !Ahead(rest[j], sorted[0]) {
        assert rest[j] in multiset(rest);
        assert rest[j] == x || rest[j] in sorted[1..];
      }
    }
  }

  lemma {:induction false} AheadExcludes(a: SearchResult, b: SearchResult)
    requires Ahead(a, b)
    ensures !Ahead(b, a)
  {
    LessAsymmetric(a.citation.runbookId, b.citation.runbookId);
    LessAsymmetric(a.citation.locator, b.citation.locator);
    LessIrreflexive(a.citation.runbookId);
  }

  lemma {:induction false} SortRanked(rs: seq<SearchResult>)
    ensures Ranked(SortResults(rs))
  {
    if rs == [] {
    } else {
      SortRanked(rs[..|rs| - 1]);
      InsertRanked(rs[|rs| - 1], SortResults(rs[..|rs| - 1]));
    }
  }

  datatype SearchError = EmptyQuestion | BadLimit

  function Top(rs: seq<SearchResult>, limit: nat): seq<SearchResult> {
    if limit < |rs| then rs[..limit] else rs
  }

  method Search(lib: seq<Revision>, question: string, limit: int) returns (r: Result<seq<SearchResult>, SearchError>)
    ensures r.Ok? <==> !Blank(question) && limit >= 1
    ensures r.Ok? ==> r.value == Top(SortResults(Hits(lib, Terms(question))), limit)
  {
    if Blank(question) {
      return Err(EmptyQuestion);
    }
    if limit < 1 {
      return Err(BadLimit);
    }
    var wanted := Terms(question);
    var scored := [];
    for i := 0 to |lib|
      invariant scored == Hits(lib[..i], wanted)
    {
      var revision := lib[i];
      var ps := revision.body.passages;
      assert lib[..i + 1][..i] == lib[..i];
      for k := 0 to |ps|
        invariant scored == Hits(lib[..i], wanted) + HitsIn(revision, ps[..k], wanted)
      {
        var result := ResultOf(revision, ps[k], wanted);
        assert ps[..k + 1][..k] == ps[..k];
        if result.score != 0 {
          scored := scored + [result];
        }
      }
      assert ps[..|ps|] == ps;
    }
    assert lib[..|lib|] == lib;
    r := Ok(Top(SortResults(scored), limit));
  }

  /* ---------- What a search result promises ---------- */

  ghost predicate HitAt(r: Revision, ps: seq<Passage>, k: int, wanted: seq<string>, x: SearchResult) {
    0 <= k < |ps| && x.score > 0 && x == ResultOf(r, ps[k], wanted)
  }

  ghost predicate IsHitIn(r: Revision, ps: seq<Passage>, wanted: seq<string>, x: SearchResult) {
    exists k :: HitAt(r, ps, k, wanted, x)
  }

  // One of the library's passages, scored above zero.
  ghost predicate IsHit(lib: seq<Revision>, wanted: seq<string>, x: SearchResult) {
    exists i :: 0 <= i < |lib| && IsHitIn(lib[i], lib[i].body.passages, wanted, x)
  }

  lemma {:induction false} HitsInAre(r: Revision, ps: seq<Passage>, wanted: seq<string>, x: SearchResult)
    ensures x in HitsIn(r, ps, wanted) <==> IsHitIn(r, ps, wanted, x)
  {
    hide ResultOf;
    if ps == [] {
    } else {
      var init := ps[..|ps| - 1];
      HitsInAre(r, init, wanted, x);
      assert forall k :: 0 <= k < |init| ==> (HitAt(r, init, k, wanted, x) <==> HitAt(r, ps, k, wanted, x));
      assert IsHitIn(r, ps, wanted, x) <==> IsHitIn(r, init, wanted, x) || HitAt(r, ps, |ps| - 1, wanted, x);
    }
  }

  // The hits are exactly the positively scored passages of the library.
  lemma {:induction false} HitsAre(lib: seq<Revision>, wanted: seq<string>, x: SearchResult)
    ensures x in Hits(lib, wanted) <==> IsHit(lib, wanted, x)
  {
    hide HitsIn, IsHitIn;
    if lib == [] {
    } else {
      var init, last := lib[..|lib| - 1], lib[|lib| - 1];
      HitsAre(init, wanted, x);
      HitsInAre(last, last.body.passages, wanted, x);
      assert IsHit(lib, wanted, x) <==> IsHit(init, wanted, x) || IsHitIn(last, last.body.passages, wanted, x) by {
        if i :| 0 <= i < |lib| && IsHitIn(lib[i], lib[i].body.passages, wanted, x) {
          assert i < |init| ==> init[i] == lib[i];
        }
        if i :| 0 <= i < |init| && IsHitIn(init[i], init[i].body.passages, wanted, x) {
          assert lib[i] == init[i];
        }
      }
    }
  }

  ghost predicate Evidences(e: Result<Evidence, LibraryError>, x: SearchResult) {
    && e.Ok?
    && e.value.citation == x.citation
    && e.value.passage == Passage(x.citation.locator, x.text)
    && e.value.action == x.action && e.value.target == x.target
    && e.value.preconditions == x.preconditions
    && e.value.verifier == x.verification.verifier
  }

  // Every hit's citation resolves, in the same library, to the very passage, operation and
  // preconditions the hit shows.
  lemma {:induction false} HitResolves(lib: seq<Revision>, wanted: seq<string>, x: SearchResult)
    requires Loaded(lib) && IsHit(lib, wanted, x)
    ensures Evidences(ResolveCitation(lib, x.citation), x)
  {
    hide Score, Terms;
    var i :| 0 <= i < |lib| && IsHitIn(lib[i], lib[i].body.passages, wanted, x);
    var k :| HitAt(lib[i], lib[i].body.passages, k, wanted, x);
    assert Verified(lib[i]);
    var f := FindHash(lib, x.citation.contentHash);
    assert Verified(lib[f]) && lib[f].body == lib[i].body;
    assert FindLocator(lib[i].body.passages, x.citation.locator) == k;
  }

  // The omitted results complete the answer to all hits, and none is ahead of an answer.
  ghost predicate OmittedBehind(answer: seq<SearchResult>, omitted: seq<SearchResult>, hits: seq<SearchResult>) {
    && multiset(answer) + multiset(omitted) == multiset(hits)
    && forall x, y :: x in answer && y in omitted ==> !Ahead(y, x)
  }

  lemma {:induction false} TopOfRanked(sorted: seq<SearchResult>, hits: seq<SearchResult>, limit: nat)
    requires Ranked(sorted) && multiset(sorted) == multiset(hits)
    ensures
      var answer := Top(sorted, limit);
      && Ranked(answer)
      && |answer| == (if limit < |hits| then limit else |hits|)
      && answer <= sorted && OmittedBehind(answer, sorted[|answer|..], hits)
  {
    hide Ahead;
    var answer := Top(sorted, limit);
    var omitted := sorted[|answer|..];
    assert |multiset(sorted)| == |sorted| && |multiset(hits)| == |hits|;
    assert sorted == answer + omitted;
    forall x, y | x in answer && y in omitted ensures !Ahead(y, x) {
      var i :| 0 <= i < |answer| && answer[i] == x;
      var j :| 0 <= j < |omitted| && omitted[j] == y;
      assert sorted[i] == x && sorted[|answer| + j] == y;
    }
  }

  // The answer is the best `limit` of all positively scored passages, best first: nothing left
  // out ranks ahead of anything returned, and every result's citation resolves to what it shows.
  lemma {:induction false} SearchResultsSound(lib: seq<Revision>, question: string, limit: nat)
    requires Loaded(lib) && limit >= 1
    ensures
      var hits := Hits(lib, Terms(question));
      var answer := Top(SortResults(hits), limit);
      && Ranked(answer)
      && |answer| == (if limit < |hits| then limit else |hits|)
      && (exists omitted :: OmittedBehind(answer, omitted, hits))
    ensures
      forall x :: x in Top(SortResults(Hits(lib, Terms(question))), limit) ==>
        IsHit(lib, Terms(question), x) && Evidences(ResolveCitation(lib, x.citation), x)
  {
    hide Terms, Hits, IsHit, Evidences, ResolveCitation, Loaded;
    var wanted := Terms(question);
    var hits := Hits(lib, wanted);
    SortRanked(hits);
    TopOfRanked(SortResults(hits), hits, limit);
    hide Ranked, OmittedBehind;
    forall x | x in Top(SortResults(hits), limit)
      ensures IsHit(lib, wanted, x) && Evidences(ResolveCitation(lib, x.citation), x)
    {
      AnswerResolves(lib, wanted, limit, x);
    }
  }

  lemma {:induction false} AnswerResolves(lib: seq<Revision>, wanted: seq<string>, limit: nat, x: SearchResult)
    requires Loaded(lib) && x in Top(SortResults(Hits(lib, wanted)), limit)
    ensures IsHit(lib, wanted, x) && Evidences(ResolveCitation(lib, x.citation), x)
  {
    hide Hits, IsHit, Evidences, ResolveCitation, Loaded;
    var sorted := SortResults(Hits(lib, wanted));
    assert x in sorted && x in multiset(sorted);
    HitsAre(lib, wanted, x);
    HitResolves(lib, wanted, x);
  }
}
