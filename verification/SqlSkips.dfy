// What the statement guard skips before it looks for a keyword: complete pieces, one after the other.
module SqlSkips {
  import opened Wrappers
  import opened SqlGuard

  function Concat(parts: seq<string>): string {
    if parts == [] then "" else parts[0] + Concat(parts[1..])
  }

  predicate LineComment(p: string) {
    && |p| >= 3 && p[0] == '-' && p[1] == '-' && p[|p| - 1] == '\n'
    && forall i :: 0 <= i < |p| - 1 ==> p[i] != '\n'
  }

  predicate BlockEndsAt(p: string, i: nat) {
    i + 1 < |p| && p[i] == '*' && p[i + 1] == '/'
  }

  // From its opening to the first end behind it.
  predicate BlockComment(p: string) {
    && |p| >= 4 && p[0] == '/' && p[1] == '*' && BlockEndsAt(p, |p| - 2)
    && forall i :: 2 <= i < |p| - 2 ==> !BlockEndsAt(p, i)
  }

  predicate Piece(p: string, u: Chars) {
    (|p| == 1 && (u.isSpace(p[0]) || p[0] == '(' || p[0] == ';')) || LineComment(p) || BlockComment(p)
  }

  // A line comment that the end of the text cuts off.
  predicate OpenLine(p: string) {
    |p| >= 2 && p[0] == '-' && p[1] == '-' && forall i :: 0 <= i < |p| ==> p[i] != '\n'
  }

  predicate OpenBlock(p: string) {
    |p| >= 2 && p[0] == '/' && p[1] == '*' && forall i :: 2 <= i < |p| ==> !BlockEndsAt(p, i)
  }

  // Nothing that could be skipped stands at the front.
  predicate Starts(s: string, u: Chars) {
    s != "" ==>
      && !u.isSpace(s[0]) && s[0] != '(' && s[0] != ';'
      && !(|s| >= 2 && s[0] == '-' && s[1] == '-') && !(|s| >= 2 && s[0] == '/' && s[1] == '*')
  }

  // The text is whole pieces, then possibly an unfinished line comment at its very end, then what
  // the guard reads; or the pieces end in a block comment that is never closed.
  ghost predicate Skipped(s: string, u: Chars, parts: seq<string>, open: string, rest: Option<string>) {
    && (forall k :: 0 <= k < |parts| ==> Piece(parts[k], u))
    && match rest
       case Some(r) =>
         s == Concat(parts) + open + r && Starts(r, u) && (open == "" || (r == "" && OpenLine(open)))
       case None => s == Concat(parts) + open && OpenBlock(open)
  }

  lemma {:induction false} LineSplits(s: string) returns (line: string)
    ensures s == line + AfterLine(s)
    ensures forall i :: 0 <= i < |line| - 1 ==> line[i] != '\n'
    ensures (line != "" && line[|line| - 1] == '\n') || AfterLine(s) == ""
  {
    if s == "" || s[0] == '\n' {
      line := if s == "" then "" else [s[0]];
    } else {
      var more := LineSplits(s[1..]);
      line := [s[0]] + more;
    }
  }

  lemma {:induction false} BlockSplits(s: string) returns (body: string)
    requires AfterBlock(s).Some?
    ensures s == body + AfterBlock(s).value
    ensures |body| >= 2 && BlockEndsAt(body, |body| - 2)
    ensures forall i :: 0 <= i < |body| - 2 ==> !BlockEndsAt(body, i)
  {
    if Opens(s, "*/") {
      body := s[..2];
    } else {
      var more := BlockSplits(s[1..]);
      body := [s[0]] + more;
      assert s == [s[0]] + s[1..];
      assert !BlockEndsAt(body, 0) by {
        assert |s| >= 2 ==> s[..2] == [s[0], s[1]];
      }
      assert forall i :: 0 < i < |body| - 2 ==> (BlockEndsAt(body, i) <==> BlockEndsAt(more, i - 1));
    }
  }

  lemma {:induction false} CommentSplits(s: string) returns (comment: string)
    requires Opens(s, "/*") && AfterBlock(s[2..]).Some?
    ensures s == comment + AfterBlock(s[2..]).value && BlockComment(comment)
  {
    var body := BlockSplits(s[2..]);
    comment := s[..2] + body;
    assert s[..2][0] == '/' && s[..2][1] == '*';
    assert forall i :: 2 <= i < |comment| - 2 ==> (BlockEndsAt(comment, i) <==> BlockEndsAt(body, i - 2));
  }

  lemma {:induction false} NeverClosed(s: string, i: nat)
    requires AfterBlock(s).None?
    ensures !BlockEndsAt(s, i)
    decreases |s|
  {
    if s == "" || i == 0 {
      assert |s| >= 2 ==> s[..2] == [s[0], s[1]];
    } else {
      NeverClosed(s[1..], i - 1);
    }
  }

  lemma {:induction false} Prepend(s: string, u: Chars, p: string, tail: string, parts: seq<string>, open: string,
          rest: Option<string>)
    requires s == p + tail && Piece(p, u) && Skipped(tail, u, parts, open, rest)
    ensures Skipped(s, u, [p] + parts, open, rest)
  {
    assert ([p] + parts)[1..] == parts;
    assert p + (Concat(parts) + open) == p + Concat(parts) + open;
    if rest.Some? {
      assert p + (Concat(parts) + open + rest.value) == p + Concat(parts) + open + rest.value;
    }
  }

  predicate Single(s: string, u: Chars) {
    s != "" && (u.isSpace(s[0]) || s[0] == '(' || s[0] == ';')
  }

  lemma {:induction false} OpensIs(s: string)
    ensures Opens(s, "--") <==> |s| >= 2 && s[0] == '-' && s[1] == '-'
    ensures Opens(s, "/*") <==> |s| >= 2 && s[0] == '/' && s[1] == '*'
  {
    assert |s| >= 2 ==> s[..2] == [s[0], s[1]];
  }

  lemma {:induction false} NothingToSkip(s: string, u: Chars)
    requires Starts(s, u)
    ensures SkipTo(s, u) == Some(s) && Skipped(s, u, [], "", SkipTo(s, u))
  {
    OpensIs(s);
  }

  lemma {:induction false} OpenEnd(s: string, u: Chars)
    requires !Single(s, u) && (OpenLine(s) || OpenBlock(s))
    ensures Skipped(s, u, [], s, SkipTo(s, u))
  {
    OpensIs(s);
    if OpenLine(s) {
      var line := LineSplits(s);
      assert line != "" ==> line[|line| - 1] == s[|line| - 1];
    } else if AfterBlock(s[2..]).Some? {
      var comment := CommentSplits(s);
      assert BlockEndsAt(s, |comment| - 2);
    }
  }

  lemma {:induction false} FirstPiece(s: string, u: Chars) returns (p: string, tail: string)
    requires Single(s, u) || !(Starts(s, u) || OpenLine(s) || OpenBlock(s))
    ensures s == p + tail && Piece(p, u) && |tail| < |s| && SkipTo(s, u) == SkipTo(tail, u)
  {
    OpensIs(s);
    if Single(s, u) {
      p, tail := [s[0]], s[1..];
    } else if Opens(s, "--") {
      p := LineSplits(s);
      tail := AfterLine(s);
      if p[|p| - 1] != '\n' {
        assert false;
      }
    } else if AfterBlock(s[2..]).Some? {
      p := CommentSplits(s);
      tail := AfterBlock(s[2..]).value;
    } else {
      forall i | 2 <= i < |s| ensures !BlockEndsAt(s, i) {
        NeverClosed(s[2..], i - 2);
      }
      assert OpenBlock(s);
    }
  }

  // The guard skips exactly that.
  lemma {:induction false} SkipsWholePieces(s: string, u: Chars) returns (parts: seq<string>, open: string)
    ensures Skipped(s, u, parts, open, SkipTo(s, u))
    decreases |s|
  {
    hide Skipped, SkipTo, Piece, Starts, OpenLine, OpenBlock;
    if !Single(s, u) && (OpenLine(s) || OpenBlock(s)) {
      parts, open := [], s;
      OpenEnd(s, u);
    } else if !Single(s, u) && Starts(s, u) {
      parts, open := [], "";
      NothingToSkip(s, u);
    } else {
      var p, tail := FirstPiece(s, u);
      parts, open := SkipsWholePieces(tail, u);
      Prepend(s, u, p, tail, parts, open, SkipTo(s, u));
      parts := [p] + parts;
    }
  }
}
