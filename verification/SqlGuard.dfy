// The statement guard of audit callbacks: find the first keyword behind whitespace, parentheses,
// semicolons and comments, and refuse transaction control and destructive statements.
module SqlGuard {
  import opened Wrappers
  import opened Text

  // How the language classifies whitespace and lower-cases text.
  datatype Chars = Chars(isSpace: char -> bool, lower: string -> string)

  function Lower(s: string): (r: string)
    ensures |r| == |s| && forall i :: 0 <= i < |s| ==> r[i] == LowerChar(s[i])
  {
    if s == "" then "" else [LowerChar(s[0])] + Lower(s[1..])
  }

  predicate Ascii(s: string) {
    forall i :: 0 <= i < |s| ==> s[i] < 128 as char
  }

  // Both classifications are the usual ones on ASCII.
  ghost predicate Standard(u: Chars) {
    && (forall c :: c < 128 as char ==> (u.isSpace(c) <==> AsciiSpace(c)))
    && (forall s :: Ascii(s) ==> u.lower(s) == Lower(s))
  }

  const BLOCKED: set<string> :=
    {"begin", "commit", "end", "rollback", "abort", "savepoint", "release", "vacuum", "attach", "detach", "delete",
        "drop",
     "alter", "truncate", "replace"}

  /* ---------- Skipping ---------- */

  predicate Opens(s: string, marker: string) {
    |marker| <= |s| && s[..|marker|] == marker
  }

  // Behind the first newline, or the end.
  function AfterLine(s: string): (r: string)
    ensures |r| <= |s|
  {
    if s == "" then "" else if s[0] == '\n' then s[1..] else AfterLine(s[1..])
  }

  // Behind the first end of a block comment; None if there is none.
  function AfterBlock(s: string): (r: Option<string>)
    ensures r.Some? ==> |r.value| < |s|
  {
    if s == "" then None else if Opens(s, "*/") then Some(s[2..]) else AfterBlock(s[1..])
  }

  // The statement from its first meaningful character on; None in an unterminated comment.
  function SkipTo(s: string, u: Chars): (r: Option<string>)
    ensures r.Some? ==> |r.value| <= |s|
    decreases |s|
  {
    if s == "" then Some("")
    else if u.isSpace(s[0]) || s[0] in "(;" then SkipTo(s[1..], u)
    else if Opens(s, "--") then SkipTo(AfterLine(s), u)
    else if Opens(s, "/*") then
      var rest := AfterBlock(s[2..]);
      if rest.None? then None else SkipTo(rest.value, u)
    else Some(s)
  }

  /* ---------- The keyword ---------- */

  function TakeWord(s: string, u: Chars): (w: string)
    ensures w <= s && (|w| < |s| ==> u.isSpace(s[|w|]))
    ensures forall i :: 0 <= i < |w| ==> !u.isSpace(w[i])
  {
    if s == "" || u.isSpace(s[0]) then "" else [s[0]] + TakeWord(s[1..], u)
  }

  // Up to the first occurrence of a two-character marker.
  function Cut(w: string, marker: string): (p: string)
    requires |marker| == 2
    ensures p <= w
    ensures |p| < |w| ==> Opens(w[|p|..], marker)
  {
    if w == "" || Opens(w, marker) then "" else [w[0]] + Cut(w[1..], marker)
  }

  function TrimSemicolons(w: string): (p: string)
    ensures p <= w
    ensures forall i :: |p| <= i < |w| ==> w[i] == ';'
    ensures p != "" ==> p[|p| - 1] != ';'
  {
    if w == "" || w[|w| - 1] != ';' then w else TrimSemicolons(w[..|w| - 1])
  }

  predicate PlainWord(w: string) {
    w != "" && forall i :: 0 <= i < |w| ==> Letter(w[i])
  }

  function HeadWord(rest: string, u: Chars): string {
    TrimSemicolons(Cut(Cut(u.lower(TakeWord(rest, u)), "--"), "/*"))
  }

  datatype Rejection = NotAKeyword

  // "" when there is nothing to run; an error when the head is not a plain word.
  function Lead(s: string, u: Chars): Result<string, Rejection> {
    var rest := SkipTo(s, u);
    if rest.None? || rest.value == "" then Ok("")
    else if !PlainWord(HeadWord(rest.value, u)) then Err(NotAKeyword)
    else Ok(HeadWord(rest.value, u))
  }

  predicate Accepted(s: string, u: Chars) {
    Lead(s, u).Ok? && Lead(s, u).value != "" && Lead(s, u).value !in BLOCKED
  }

  predicate StandsAt(s: string, k: nat, pattern: string) {
    k + |pattern| <= |s| && s[k..k + |pattern|] == pattern
  }

  // str.find: the first position at or after `from` where the pattern stands, or the length.
  method Find(s: string, pattern: string, from: nat) returns (i: nat, found: bool)
    requires from <= |s| && pattern != ""
    ensures found ==> from <= i && StandsAt(s, i, pattern)
    ensures !found ==> i == |s|
    ensures forall k :: from <= k < i ==> !StandsAt(s, k, pattern)
  {
    i := from;
    while i + |pattern| <= |s|
      invariant from <= i <= |s|
      invariant forall k :: from <= k < i ==> !StandsAt(s, k, pattern)
    {
      if s[i..i + |pattern|] == pattern {
        return i, true;
      }
      i := i + 1;
    }
    assert forall k :: i <= k ==> !StandsAt(s, k, pattern);
    i, found := |s|, false;
  }

  // The scanner as the store runs it, one index over the text.
  method LeadKeyword(sql: string, u: Chars) returns (r: Result<string, Rejection>)
    ensures r == Lead(sql, u)
  {
    hide HeadWord, PlainWord, AfterLine, AfterBlock;
    var i, n := 0, |sql|;
    while i < n
      invariant 0 <= i <= n
      invariant SkipTo(sql[i..], u) == SkipTo(sql, u)
      decreases n - i
    {
      var s := sql[i..];
      if u.isSpace(sql[i]) || sql[i] in "(;" {
        assert s[1..] == sql[i + 1..];
        i := i + 1;
      } else if Opens(s, "--") {
        var newline, found := Find(sql, "\n", i);
        LineFound(sql, i, newline, found);
        i := if found then newline + 1 else n;
      } else if Opens(s, "/*") {
        var end, found := Find(sql, "*/", i + 2);
        assert s[2..] == sql[i + 2..];
        BlockFound(sql, i + 2, end, found);
        if !found {
          return Ok("");
        }
        i := end + 2;
      } else {
        break;
      }
    }
    if i == n {
      assert sql[i..] == "";
      return Ok("");
    }
    var word := HeadWord(sql[i..], u);
    r := if PlainWord(word) then Ok(word) else Err(NotAKeyword);
  }

  lemma {:induction false} LineFound(sql: string, i: nat, newline: nat, found: bool)
    requires i <= |sql|
    requires found ==> i <= newline && StandsAt(sql, newline, "\n")
    requires !found ==> newline == |sql|
    requires forall k :: i <= k < newline ==> !StandsAt(sql, k, "\n")
    ensures AfterLine(sql[i..]) == if found then sql[newline + 1..] else sql[|sql|..]
    decreases |sql| - i
  {
    if i < |sql| {
      assert sql[i..][1..] == sql[i + 1..];
      assert sql[i..i + 1] == [sql[i]];
      assert StandsAt(sql, i, "\n") <==> sql[i] == '\n';
      if sql[i] != '\n' {
        LineFound(sql, i + 1, newline, found);
      }
    }
  }

  lemma {:induction false} BlockFound(sql: string, i: nat, end: nat, found: bool)
    requires i <= |sql|
    requires found ==> i <= end && StandsAt(sql, end, "*/")
    requires !found ==> end == |sql|
    requires forall k :: i <= k < end ==> !StandsAt(sql, k, "*/")
    ensures AfterBlock(sql[i..]) == if found then Some(sql[end + 2..]) else None
    decreases |sql| - i
  {
    if i < |sql| {
      assert sql[i..][1..] == sql[i + 1..];
      assert i + 2 <= |sql| ==> sql[i..][..2] == sql[i..i + 2] && sql[i..][2..] == sql[i + 2..];
      assert Opens(sql[i..], "*/") <==> StandsAt(sql, i, "*/");
      if !Opens(sql[i..], "*/") {
        BlockFound(sql, i + 1, end, found);
      }
    }
  }

  /* ---------- Skippable prefixes ---------- */

  // Text made of complete pieces: skipped characters, line comments with their newline, closed
  // block comments.
  predicate Complete(p: string, u: Chars)
    decreases |p|
  {
    if p == "" then true
    else if u.isSpace(p[0]) || p[0] in "(;" then Complete(p[1..], u)
    else if Opens(p, "--") then HasNewline(p) && Complete(AfterLine(p), u)
    else Opens(p, "/*") && AfterBlock(p[2..]).Some? && Complete(AfterBlock(p[2..]).value, u)
  }

  predicate HasNewline(s: string) {
    exists i :: 0 <= i < |s| && s[i] == '\n'
  }

  lemma {:induction false} AfterLineConcat(p: string, s: string)
    requires HasNewline(p)
    ensures AfterLine(p + s) == AfterLine(p) + s
  {
    assert (p + s)[1..] == p[1..] + s;
    if p[0] != '\n' {
      var i :| 0 <= i < |p| && p[i] == '\n';
      assert p[1..][i - 1] == '\n';
      AfterLineConcat(p[1..], s);
    }
  }

  lemma {:induction false} AfterBlockConcat(p: string, s: string)
    requires AfterBlock(p).Some?
    ensures AfterBlock(p + s) == Some(AfterBlock(p).value + s)
  {
    assert (p + s)[1..] == p[1..] + s;
    if Opens(p, "*/") {
      assert (p + s)[..2] == p[..2] && (p + s)[2..] == p[2..] + s;
    } else {
      AfterBlockConcat(p[1..], s);
      assert |p| >= 2 by {
        assert AfterBlock(p[1..]).Some?;
        assert p[1..] != "";
      }
      assert (p + s)[..2] == p[..2];
    }
  }

  lemma {:induction false} SkipConcat(p: string, s: string, u: Chars)
    requires Complete(p, u)
    ensures SkipTo(p + s, u) == SkipTo(s, u)
    decreases |p|
  {
    if p == "" {
      assert p + s == s;
    } else if u.isSpace(p[0]) || p[0] in "(;" {
      assert (p + s)[1..] == p[1..] + s;
      SkipConcat(p[1..], s, u);
    } else if Opens(p, "--") {
      assert (p + s)[..2] == p[..2];
      AfterLineConcat(p, s);
      SkipConcat(AfterLine(p), s, u);
    } else {
      assert (p + s)[..2] == p[..2] && (p + s)[2..] == p[2..] + s;
      AfterBlockConcat(p[2..], s);
      SkipConcat(AfterBlock(p[2..]).value, s, u);
    }
  }

  // Putting any complete run of skippable text in front changes neither keyword nor verdict.
  lemma {:induction false} PrefixChangesNothing(p: string, s: string, u: Chars)
    requires Complete(p, u)
    ensures Lead(p + s, u) == Lead(s, u) && (Accepted(p + s, u) <==> Accepted(s, u))
  {
    SkipConcat(p, s, u);
  }

  /* ---------- What acceptance means ---------- */

  // The letters a text begins with, all of them.
  function LetterRun(s: string): (l: string)
    ensures l <= s && (|l| < |s| ==> !Letter(s[|l|]))
    ensures forall i :: 0 <= i < |l| ==> Letter(l[i])
  {
    if s == "" || !Letter(s[0]) then "" else [s[0]] + LetterRun(s[1..])
  }

  // What may stand right behind the keyword: semicolons, then the end, whitespace or a comment.
  predicate KeywordEnds(t: string) {
    if t == "" then true
    else if t[0] == ';' then KeywordEnds(t[1..])
    else AsciiSpace(t[0]) || Opens(t, "--") || Opens(t, "/*")
  }

  lemma {:induction false} LongestRun(s: string, n: nat)
    requires n <= |s| && (forall i :: 0 <= i < n ==> Letter(s[i])) && (n < |s| ==> !Letter(s[n]))
    ensures LetterRun(s) == s[..n]
  {
    assert |LetterRun(s)| == n;
  }

  lemma {:induction false} LowerPrefix(s: string, n: nat)
    requires n <= |s|
    ensures Lower(s)[..n] == Lower(s[..n])
    ensures (forall i :: 0 <= i < n ==> Letter(Lower(s)[i])) <==> (forall i :: 0 <= i < n ==> Letter(s[i]))
  {
    assert forall i :: 0 <= i < n ==> Lower(s)[i] == LowerChar(s[i]);
  }

  // Cutting comments and semicolons off a word leaves a prefix of it, and what comes right behind
  // that prefix is the end, a semicolon or a comment.
  function Trimmed(w: string): string {
    TrimSemicolons(Cut(Cut(w, "--"), "/*"))
  }

  // A text whose first `m` characters are semicolons, and then it ends or a comment or space stands.
  predicate SemicolonsThenEnd(t: string, m: nat) {
    && m <= |t| && (forall i :: 0 <= i < m ==> t[i] == ';')
    && (m == |t| || AsciiSpace(t[m]) || Opens(t[m..], "--") || Opens(t[m..], "/*"))
  }

  lemma {:induction false} OpensFirst(s: string, marker: string)
    requires marker != ""
    ensures Opens(s, marker) ==> s != "" && s[0] == marker[0]
  {
    if Opens(s, marker) {
      assert s[..|marker|][0] == s[0];
    }
  }

  lemma {:induction false} KeywordEndsIff(t: string)
    ensures KeywordEnds(t) <==> exists m: nat :: SemicolonsThenEnd(t, m)
  {
    if t == "" {
      assert SemicolonsThenEnd(t, 0);
    } else if t[0] == ';' {
      KeywordEndsIff(t[1..]);
      if m: nat :| SemicolonsThenEnd(t[1..], m) {
        assert t[m + 1..] == t[1..][m..];
        assert SemicolonsThenEnd(t, m + 1);
      }
      if m: nat :| SemicolonsThenEnd(t, m) {
        OpensFirst(t, "--");
        OpensFirst(t, "/*");
        assert m > 0 by {
          assert t[0..] == t;
        }
        assert t[m..] == t[1..][m - 1..];
        assert SemicolonsThenEnd(t[1..], m - 1);
      }
    } else {
      assert t[0..] == t;
      assert KeywordEnds(t) ==> SemicolonsThenEnd(t, 0);
      assert forall m: nat :: SemicolonsThenEnd(t, m) ==> m == 0;
    }
  }

  lemma {:induction false} CutAt(w: string, marker: string, m: nat)
    requires |marker| == 2 && m <= |w| && (forall k :: 0 <= k < m ==> w[k] != marker[0])
    requires m == |w| || Opens(w[m..], marker)
    ensures Cut(w, marker) == w[..m]
    decreases m
  {
    if m > 0 {
      OpensFirst(w, marker);
      assert w[1..][m - 1..] == w[m..];
      CutAt(w[1..], marker, m - 1);
      assert w[..m] == [w[0]] + w[1..][..m - 1];
    } else {
      assert w[0..] == w;
    }
  }

  lemma {:induction false} TrimAt(w: string, n: nat)
    requires n <= |w| && (forall i :: n <= i < |w| ==> w[i] == ';') && (n > 0 ==> w[n - 1] != ';')
    ensures TrimSemicolons(w) == w[..n]
    decreases |w|
  {
    if n < |w| {
      TrimAt(w[..|w| - 1], n);
      assert w[..|w| - 1][..n] == w[..n];
    } else {
      assert w[..n] == w;
    }
  }

  // `n` letters, semicolons up to `m`, and then a comment or nothing.
  predicate Shape(w: string, n: nat, m: nat) {
    && 0 < n <= m <= |w| && (forall i :: 0 <= i < n ==> Letter(w[i])) && (forall i :: n <= i < m ==> w[i] == ';')
    && (m == |w| || Opens(w[m..], "--") || Opens(w[m..], "/*"))
  }

  lemma {:induction false} ShapeHasNoMarks(w: string, n: nat, m: nat)
    requires Shape(w, n, m)
    ensures forall i :: 0 <= i < m ==> w[i] != '-' && w[i] != '/'
    ensures w[n - 1] != ';'
  {
    assert Letter(w[n - 1]);
    assert forall i :: 0 <= i < m ==> Letter(w[i]) || w[i] == ';';
  }

  // Cutting at either comment leaves the letters and semicolons.
  lemma {:induction false} CutShape(w: string, n: nat, m: nat)
    requires Shape(w, n, m)
    ensures Cut(Cut(w, "--"), "/*") == w[..m]
  {
    ShapeHasNoMarks(w, n, m);
    var b, a := w[..m], Cut(w, "--");
    if m < |w| && !Opens(w[m..], "--") {
      CommentSurvives(w, m);
      assert a[..m] == b;
      assert forall k :: 0 <= k < m ==> a[k] == w[k];
      hide Cut, Opens, Shape;
      CutAt(a, "/*", m);
    } else {
      CutAt(w, "--", m);
      assert b[..m] == b;
      assert forall k :: 0 <= k < m ==> b[k] == w[k];
      hide Cut, Opens, Shape;
      CutAt(b, "/*", m);
    }
  }

  // Such a word trims to its letters.
  lemma {:induction false} TrimmedAt(w: string, n: nat, m: nat)
    requires Shape(w, n, m)
    ensures Trimmed(w) == w[..n]
  {
    hide Cut, TrimSemicolons, Opens, Letter;
    ShapeHasNoMarks(w, n, m);
    CutShape(w, n, m);
    var b := w[..m];
    assert forall i :: n <= i < m ==> b[i] == ';';
    hide Shape;
    TrimAt(b, n);
    assert b[..n] == w[..n];
  }

  // Cutting line comments off leaves a block comment that opens before them.
  lemma {:induction false} CommentSurvives(w: string, m: nat)
    requires m < |w| && (forall i :: 0 <= i < m ==> w[i] != '-') && Opens(w[m..], "/*")
    ensures m + 2 <= |Cut(w, "--")| && Opens(Cut(w, "--")[m..], "/*")
  {
    var a := Cut(w, "--");
    assert w[m..][..2] == [w[m], w[m + 1]];
    assert w[m] == '/' && w[m + 1] == '*';
    if |a| < |w| {
      assert w[|a|..][..2][0] == w[|a|];
      assert w[|a|] == '-';
    }
    assert a[m..][..2] == [a[m], a[m + 1]];
  }

  // Conversely a word that trims to letters has that shape.
  lemma {:induction false} TrimmedShape(w: string) returns (m: nat)
    requires PlainWord(Trimmed(w))
    ensures Shape(w, |Trimmed(w)|, m)
  {
    var a := Cut(w, "--");
    var b := Cut(a, "/*");
    m := |b|;
    if |b| < |a| {
      assert a[|b|..][..2] == w[|b|..][..2];
    }
    var p := Trimmed(w);
    assert forall i :: 0 <= i < |p| ==> w[i] == p[i];
  }

  /* ---------- Lower-casing keeps every mark ---------- */

  lemma {:induction false} LowerOpens(w: string, m: nat)
    requires m <= |w|
    ensures Opens(Lower(w)[m..], "--") <==> Opens(w[m..], "--")
    ensures Opens(Lower(w)[m..], "/*") <==> Opens(w[m..], "/*")
  {
    if m + 2 <= |w| {
      assert Lower(w)[m..][..2] == [LowerChar(w[m]), LowerChar(w[m + 1])];
      assert w[m..][..2] == [w[m], w[m + 1]];
    }
  }

  lemma {:induction false} LowerShape(w: string, n: nat, m: nat)
    ensures Shape(Lower(w), n, m) <==> Shape(w, n, m)
  {
    if m <= |w| {
      LowerOpens(w, m);
      assert forall i :: 0 <= i < |w| ==>
        (Letter(Lower(w)[i]) <==> Letter(w[i])) && (Lower(w)[i] == ';' <==> w[i] == ';');
    }
  }

  // The head of `rest`, its first word up to ASCII whitespace.
  ghost predicate HeadOf(word: string, rest: string) {
    && word <= rest && (forall i :: 0 <= i < |word| ==> !AsciiSpace(word[i]))
    && (|word| < |rest| ==> AsciiSpace(rest[|word|]))
  }

  lemma {:induction false} HeadOpens(word: string, rest: string, m: nat)
    requires HeadOf(word, rest) && m <= |word|
    ensures Opens(word[m..], "--") <==> Opens(rest[m..], "--")
    ensures Opens(word[m..], "/*") <==> Opens(rest[m..], "/*")
  {
    if m + 2 <= |word| {
      assert word[m..][..2] == rest[m..][..2];
    } else if m + 2 <= |rest| {
      assert rest[m..][..2] == [rest[m], rest[m + 1]];
      assert AsciiSpace(rest[|word|]);
    }
  }

  // The same shape in running text, where whitespace may end it too.
  predicate RestShape(s: string, n: nat, m: nat) {
    && 0 < n <= m <= |s| && (forall i :: 0 <= i < n ==> Letter(s[i])) && (forall i :: n <= i < m ==> s[i] == ';')
    && (m == |s| || AsciiSpace(s[m]) || Opens(s[m..], "--") || Opens(s[m..], "/*"))
  }

  lemma {:induction false} HeadShape(word: string, rest: string, n: nat, m: nat)
    requires HeadOf(word, rest)
    ensures Shape(word, n, m) <==> RestShape(rest, n, m)
  {
    assert forall i :: 0 <= i < |word| ==> word[i] == rest[i];
    if m <= |word| {
      HeadOpens(word, rest, m);
      OpensFirst(rest[m..], "--");
      OpensFirst(rest[m..], "/*");
    }
  }

  lemma {:induction false} RestShapeIff(rest: string, n: nat)
    ensures (exists m: nat :: RestShape(rest, n, m)) <==>
            0 < n == |LetterRun(rest)| && KeywordEnds(rest[n..])
  {
    if m: nat :| RestShape(rest, n, m) {
      OpensFirst(rest[m..], "--");
      OpensFirst(rest[m..], "/*");
      LongestRun(rest, n);
      TailOf(rest, n, m);
      assert SemicolonsThenEnd(rest[n..], m - n);
      KeywordEndsIff(rest[n..]);
    }
    if 0 < n == |LetterRun(rest)| && KeywordEnds(rest[n..]) {
      KeywordEndsIff(rest[n..]);
      var k: nat :| SemicolonsThenEnd(rest[n..], k);
      TailOf(rest, n, n + k);
      assert RestShape(rest, n, n + k);
    }
  }

  lemma {:induction false} TailOf(rest: string, n: nat, m: nat)
    requires n <= m <= |rest|
    ensures rest[n..][m - n..] == rest[m..] && (m < |rest| ==> rest[n..][m - n] == rest[m])
    ensures (forall i :: n <= i < m ==> rest[i] == ';') <==> (forall i :: 0 <= i < m - n ==> rest[n..][i] == ';')
  {
    var t := rest[n..];
    assert forall i :: 0 <= i < |t| ==> t[i] == rest[n + i];
    if forall i :: 0 <= i < m - n ==> t[i] == ';' {
      forall i | n <= i < m ensures rest[i] == ';' {
        assert t[i - n] == ';';
      }
    }
  }

  // The trimmed head is a plain word exactly when the text begins with a keyword and its end, and
  // it is then that keyword.
  lemma {:induction false} HeadIff(word: string, rest: string)
    requires HeadOf(word, rest)
    ensures PlainWord(Trimmed(Lower(word))) <==> LetterRun(rest) != "" && KeywordEnds(rest[|LetterRun(rest)|..])
    ensures PlainWord(Trimmed(Lower(word))) ==> Trimmed(Lower(word)) == Lower(LetterRun(rest))
  {
    var w, run := Lower(word), LetterRun(rest);
    hide Shape, RestShape, Trimmed, HeadOf, Lower, LetterRun, KeywordEnds;
    if PlainWord(Trimmed(w)) {
      var m := TrimmedShape(w);
      LowerShape(word, |Trimmed(w)|, m);
      HeadShape(word, rest, |Trimmed(w)|, m);
      RestShapeIff(rest, |Trimmed(w)|);
    }
    if run != "" && KeywordEnds(rest[|run|..]) {
      RestShapeIff(rest, |run|);
      var m: nat :| RestShape(rest, |run|, m);
      HeadShape(word, rest, |run|, m);
      LowerShape(word, |run|, m);
      KeywordTrimmed(word, rest, |run|, m);
    }
  }

  lemma {:induction false} KeywordTrimmed(word: string, rest: string, n: nat, m: nat)
    requires HeadOf(word, rest) && Shape(Lower(word), n, m) && n == |LetterRun(rest)|
    ensures Trimmed(Lower(word)) == Lower(LetterRun(rest)) && PlainWord(Trimmed(Lower(word)))
  {
    TrimmedAt(Lower(word), n, m);
    LowerPrefix(word, n);
    assert word[..n] == rest[..n] == LetterRun(rest);
  }

  lemma {:induction false} WordIsHead(rest: string, u: Chars)
    requires Standard(u) && Ascii(rest)
    ensures HeadOf(TakeWord(rest, u), rest) && Ascii(TakeWord(rest, u))
    ensures HeadWord(rest, u) == Trimmed(Lower(TakeWord(rest, u)))
  {
    var word := TakeWord(rest, u);
    assert forall i :: 0 <= i < |word| ==> word[i] == rest[i];
    hide Lower;
  }

  // ASCII text is accepted exactly when, behind what is skipped, it begins with a keyword that is
  // not a blocked one: all the letters standing there, followed by nothing but semicolons before
  // the end, whitespace or a comment.
  lemma {:induction false} AcceptedIff(s: string, u: Chars)
    requires Standard(u) && Ascii(s)
    ensures Accepted(s, u) <==>
              && SkipTo(s, u).Some?
              && var rest := SkipTo(s, u).value;
              var run := LetterRun(rest);
              && run != "" && KeywordEnds(rest[|run|..])
              && Lower(run) !in {"begin", "commit", "end", "rollback", "abort", "savepoint", "release", "vacuum",
                   "attach", "detach", "delete", "drop", "alter", "truncate", "replace"}
  {
    hide HeadWord, Lower, KeywordEnds, Standard, SkipTo, TakeWord, LetterRun, HeadOf, Trimmed;
    SkipIsSuffix(s, u);
    if SkipTo(s, u).Some? {
      var rest := SkipTo(s, u).value;
      WordIsHead(rest, u);
      HeadIff(TakeWord(rest, u), rest);
      RunOfEmpty(rest);
    }
  }

  lemma {:induction false} RunOfEmpty(rest: string)
    ensures rest == "" ==> LetterRun(rest) == ""
    ensures LetterRun(rest) != "" ==> Lower(LetterRun(rest)) != ""
  {
  }

  lemma {:induction false} SkipIsSuffix(s: string, u: Chars)
    requires Ascii(s)
    ensures SkipTo(s, u).Some? ==> Ascii(SkipTo(s, u).value)
    decreases |s|
  {
    if s == "" {
    } else {
      if u.isSpace(s[0]) || s[0] in "(;" {
        SkipIsSuffix(s[1..], u);
      } else if Opens(s, "--") {
        AfterLineAscii(s);
        SkipIsSuffix(AfterLine(s), u);
      } else if Opens(s, "/*") && AfterBlock(s[2..]).Some? {
        AfterBlockAscii(s[2..]);
        SkipIsSuffix(AfterBlock(s[2..]).value, u);
      }
    }
  }

  lemma {:induction false} AfterLineAscii(s: string)
    requires Ascii(s)
    ensures Ascii(AfterLine(s))
  {
    if s != "" && s[0] != '\n' {
      AfterLineAscii(s[1..]);
    }
  }

  lemma {:induction false} AfterBlockAscii(s: string)
    requires Ascii(s)
    ensures AfterBlock(s).Some? ==> Ascii(AfterBlock(s).value)
  {
    if s != "" && !Opens(s, "*/") {
      AfterBlockAscii(s[1..]);
    }
  }
}
