// Text comparison as the database performs it: character by character, a proper prefix first; and
// the shapes of text that several components share.
module Text {

  // Lower case, for ASCII letters.
  function LowerChar(c: char): char {
    if 'A' <= c <= 'Z' then (c - 'A') + 'a' else c
  }

  // Whitespace as text processing knows it within ASCII, separators of records included.
  predicate AsciiSpace(c: char) {
    c == ' ' || 9 as char <= c <= 13 as char || 28 as char <= c <= 31 as char
  }

  predicate Letter(c: char) {
    'a' <= c <= 'z' || 'A' <= c <= 'Z'
  }

  // A character a search term may have, once it is in lower case.
  predicate TermChar(c: char) {
    'a' <= c <= 'z' || '0' <= c <= '9'
  }

  const SMALL := "abcdefghijklmnopqrstuvwxyz"
  const CAPITAL := "ABCDEFGHIJKLMNOPQRSTUVWXYZ"
  const DIGITS := "0123456789"

  // The classes, character by character.
  lemma {:induction false} SpacesListed(c: char)
    ensures AsciiSpace(c) <==> c as int in {9, 10, 11, 12, 13, 28, 29, 30, 31, 32}
  {
  }

  lemma {:induction false} InRun(c: char, run: string)
    requires run != "" && forall i :: 0 <= i < |run| ==> run[i] as int == run[0] as int + i
    ensures c in run <==> run[0] <= c <= run[|run| - 1]
  {
    if run[0] <= c <= run[|run| - 1] {
      assert run[c as int - run[0] as int] == c;
    }
  }

  lemma {:induction false} LettersListed(c: char)
    ensures TermChar(c) <==> c in SMALL || c in DIGITS
    ensures Letter(c) <==> c in SMALL || c in CAPITAL
  {
    InRun(c, SMALL);
    InRun(c, CAPITAL);
    InRun(c, DIGITS);
  }

  predicate Blank(s: string) {
    forall i :: 0 <= i < |s| ==> AsciiSpace(s[i])
  }

  lemma {:induction false} BlankIff(s: string)
    ensures Blank(s) <==> forall c :: c in s ==> AsciiSpace(c)
  {
    if forall c :: c in s ==> AsciiSpace(c) {
      assert forall i :: 0 <= i < |s| ==> s[i] in s;
    }
  }

  // Exactly the capitals change, each to the small letter 32 places on.
  lemma {:induction false} LowerCaseOf(c: char)
    ensures c in CAPITAL ==> LowerChar(c) as int == c as int + 32
    ensures c !in CAPITAL ==> LowerChar(c) == c
  {
    InRun(c, CAPITAL);
  }

  const HEX_ID_LENGTH := 32

  // The identifiers the program mints: 128 bits as lower-case hexadecimal digits.
  predicate HexId(s: string) {
    |s| == HEX_ID_LENGTH && forall i :: 0 <= i < |s| ==> '0' <= s[i] <= '9' || 'a' <= s[i] <= 'f'
  }

  lemma {:induction false} HexIdIff(s: string)
    ensures HexId(s) <==> |s| == 32 && forall c :: c in s ==> c in "0123456789abcdef"
  {
    forall c ensures c in "0123456789abcdef" <==> '0' <= c <= '9' || 'a' <= c <= 'f' {
      if '0' <= c <= '9' {
        assert "0123456789abcdef"[c as int - '0' as int] == c;
      } else if 'a' <= c <= 'f' {
        assert "0123456789abcdef"[10 + c as int - 'a' as int] == c;
      }
    }
    assert forall i :: 0 <= i < |s| ==> s[i] in s;
  }

  predicate Less(a: string, b: string) {
    if b == "" then false
    else if a == "" then true
    else if a[0] != b[0] then a[0] < b[0]
    else Less(a[1..], b[1..])
  }

  lemma {:induction false} LessIrreflexive(a: string)
    ensures !Less(a, a)
  {
    if a == "" {
    } else {
      LessIrreflexive(a[1..]);
    }
  }

  lemma {:induction false} LessTransitive(a: string, b: string, c: string)
    requires Less(a, b) && Less(b, c)
    ensures Less(a, c)
  {
    if a != "" && a[0] == b[0] == c[0] {
      LessTransitive(a[1..], b[1..], c[1..]);
    }
  }

  lemma {:induction false} LessTotal(a: string, b: string)
    ensures a == b || Less(a, b) || Less(b, a)
  {
    if a != "" && b != "" && a[0] == b[0] {
      LessTotal(a[1..], b[1..]);
      assert a == [a[0]] + a[1..] && b == [b[0]] + b[1..];
    }
  }

  // Texts whose heads have equal length compare by head first, then by tail.
  lemma {:induction false} LessConcat(p: string, q: string, s: string, t: string)
    requires |p| == |q|
    ensures Less(p + s, q + t) <==> Less(p, q) || (p == q && Less(s, t))
  {
    if p == "" {
      assert p + s == s && q + t == t;
    } else {
      assert (p + s)[1..] == p[1..] + s && (q + t)[1..] == q[1..] + t;
      assert p == [p[0]] + p[1..] && q == [q[0]] + q[1..];
      LessConcat(p[1..], q[1..], s, t);
    }
  }
}
