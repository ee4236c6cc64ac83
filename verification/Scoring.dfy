// What a search score counts: the terms of a passage and its operation that the question asks for,
// a term being a maximal run of letters and digits.
module Scoring {
  import opened Wrappers
  import opened Domain
  import opened Text
  import opened Library

  /* ---------- Terms ---------- */

  function Lowered(s: string): (t: string)
    ensures |t| == |s| && forall i :: 0 <= i < |s| ==> t[i] == LowerChar(s[i])
  {
    seq(|s|, i requires 0 <= i < |s| => LowerChar(s[i]))
  }

  // The terms with the gaps before, between and behind them.
  function Woven(gaps: seq<string>, ts: seq<string>): string
    requires |gaps| == |ts| + 1
  {
    if ts == [] then gaps[0] else gaps[0] + ts[0] + Woven(gaps[1..], ts[1..])
  }

  predicate AllTerm(s: string) {
    forall i :: 0 <= i < |s| ==> TermChar(s[i])
  }

  predicate NoTerm(s: string) {
    forall i :: 0 <= i < |s| ==> !TermChar(s[i])
  }

  // `t` consists of these terms and gaps: the terms are runs of term characters, the gaps have none
  // and keep the terms apart.
  ghost predicate Splits(t: string, gaps: seq<string>, ts: seq<string>) {
    && |gaps| == |ts| + 1 && t == Woven(gaps, ts)
    && (forall k :: 0 <= k < |ts| ==> ts[k] != "" && AllTerm(ts[k]))
    && (forall k :: 0 <= k < |gaps| ==> NoTerm(gaps[k]))
    && (forall k :: 0 < k < |ts| ==> gaps[k] != "")
  }

  lemma {:induction false} TermsFromSplit(s: string, run: string) returns (gaps: seq<string>)
    requires AllTerm(run)
    ensures Splits(run + Lowered(s), gaps, TermsFrom(s, run))
    decreases |s|
  {
    hide Splits;
    if s == "" {
      assert run + Lowered(s) == run;
      gaps := OneRun(run);
    } else {
      var c := LowerChar(s[0]);
      assert Lowered(s) == [c] + Lowered(s[1..]);
      if TermChar(c) {
        assert run + Lowered(s) == run + [c] + Lowered(s[1..]);
        gaps := TermsFromSplit(s[1..], run + [c]);
      } else {
        var rest := TermsFromSplit(s[1..], "");
        assert "" + Lowered(s[1..]) == Lowered(s[1..]);
        gaps := GapAdded(run, c, Lowered(s[1..]), rest, TermsFrom(s[1..], ""));
        assert run + Lowered(s) == run + ([c] + Lowered(s[1..]));
      }
    }
  }

  lemma {:induction false} OneRun(run: string) returns (gaps: seq<string>)
    requires AllTerm(run)
    ensures Splits(run, gaps, if run == "" then [] else [run])
  {
    gaps := if run == "" then [""] else ["", ""];
    assert run != "" ==> Woven(gaps, [run]) == "" + run + Woven([""], []);
  }

  lemma {:induction false} GapAdded(run: string, c: char, tail: string, rest: seq<string>, ts: seq<string>)
    returns (gaps: seq<string>)
    requires AllTerm(run) && !TermChar(c) && Splits(tail, rest, ts)
    ensures Splits(run + ([c] + tail), gaps, (if run == "" then [] else [run]) + ts)
  {
    var wider := [[c] + rest[0]] + rest[1..];
    assert NoTerm([c] + rest[0]);
    assert Woven(wider, ts) == [c] + tail by {
      assert wider[1..] == rest[1..];
      if ts != [] {
        assert [c] + rest[0] + ts[0] + Woven(rest[1..], ts[1..]) == [c] + (rest[0] + ts[0] + Woven(rest[1..], ts[1..]));
      }
    }
    assert Splits([c] + tail, wider, ts);
    if run == "" {
      gaps := wider;
      assert [] + ts == ts && run + ([c] + tail) == [c] + tail;
    } else {
      gaps := [""] + wider;
      assert gaps[1..] == wider && ([run] + ts)[1..] == ts;
      assert "" + run + ([c] + tail) == run + ([c] + tail);
    }
  }

  // The terms of a text are all its maximal runs of letters and digits, lower-cased, in order.
  lemma {:induction false} TermsAreTheRuns(s: string)
    ensures exists gaps :: Splits(Lowered(s), gaps, Terms(s))
  {
    var gaps := TermsFromSplit(s, "");
    assert "" + Lowered(s) == Lowered(s);
    assert Splits(Lowered(s), gaps, Terms(s));
  }

  /* ---------- Scores ---------- */

  function Asked(haystack: seq<string>, wanted: seq<string>): set<nat> {
    set k: nat | k < |haystack| && haystack[k] in wanted
  }

  // The score is the number of places whose term is asked for.
  lemma {:induction false} ScoreCounts(haystack: seq<string>, wanted: seq<string>)
    ensures Score(haystack, wanted) == |Asked(haystack, wanted)|
  {
    if haystack == [] {
      assert Asked(haystack, wanted) == {};
    } else {
      var last := |haystack| - 1;
      ScoreCounts(haystack[..last], wanted);
      ScoreSnoc(haystack[..last], haystack[last], wanted);
      assert haystack == haystack[..last] + [haystack[last]];
      var front := Asked(haystack[..last], wanted);
      assert Asked(haystack, wanted) == front + if haystack[last] in wanted then {last} else {};
    }
  }

  lemma {:induction false} ScoreSnoc(haystack: seq<string>, term: string, wanted: seq<string>)
    ensures Score(haystack + [term], wanted) == Score(haystack, wanted) + if term in wanted then 1 else 0
  {
    if haystack == [] {
    } else {
      assert (haystack + [term])[1..] == haystack[1..] + [term];
      ScoreSnoc(haystack[1..], term, wanted);
    }
  }

  // A hit shows a passage of its revision, the revision's operation, and how many terms of the two
  // the question asks for.
  lemma {:induction false} HitShows(r: Revision, ps: seq<Passage>, k: nat, wanted: seq<string>, x: SearchResult)
    ensures HitAt(r, ps, k, wanted, x) <==>
      && k < |ps|
      && var haystack := Terms(ps[k].text) + Terms(r.body.action + " " + r.body.target);
      && |Asked(haystack, wanted)| > 0
      && x == SearchResult(Citation(r.body.runbookId, r.body.revision, r.contentHash, ps[k].locator), ps[k].text,
                r.body.action, r.body.target, r.body.preconditions, r.body.verification, |Asked(haystack, wanted)|)
  {
    if k < |ps| {
      ScoreCounts(Terms(ps[k].text) + Terms(r.body.action + " " + r.body.target), wanted);
    }
    hide Score, Terms, Asked;
  }
}
