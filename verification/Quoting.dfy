// How strings are written (RFC 8785, section 3.2.2.2): literally where that is possible, else by the
// shortest escape there is.
module Quoting {
  import opened Wrappers
  import opened JsonText

  // May stand for itself in a string.
  predicate Plain(c: char) {
    c >= ' ' && c != '"' && c != '\\'
  }

  ghost predicate Reads(t: string, c: char) {
    ReadChar(t) == Some((c, |t|))
  }

  lemma {:induction false} PlainStandsForItself(c: char)
    ensures Plain(c) <==> Reads([c], c)
    ensures Plain(c) ==> Escape(c) == [c]
  {
  }

  // No other spelling of the character is shorter, and hexadecimal digits are in lower case.
  lemma {:induction false} EscapeIsShortest(c: char, t: string)
    requires Reads(t, c)
    ensures |Escape(c)| <= |t|
    ensures forall i :: 0 <= i < |Escape(c)| && !Plain(c) ==> !('A' <= Escape(c)[i] <= 'F')
  {
  }

  // Escapes are read in either case.
  lemma {:induction false} HexadecimalRead(n: nat)
    requires n < 16
    ensures HexValue("0123456789abcdef"[n]) == Some(n) && HexValue("0123456789ABCDEF"[n]) == Some(n)
  {
  }

  // The text of a string is its characters' spellings between quotation marks.
  lemma {:induction false} QuoteSpells(s: string, k: nat)
    requires k < |s|
    ensures Quote(s) == "\"" + Escapes(s[..k]) + Escape(s[k]) + Escapes(s[k + 1..]) + "\""
  {
    EscapesSplit(s, k);
  }

  lemma {:induction false} EscapesSplit(s: string, k: nat)
    requires k < |s|
    ensures Escapes(s) == Escapes(s[..k]) + Escape(s[k]) + Escapes(s[k + 1..])
  {
    hide Escape;
    if k == 0 {
      assert s[..0] == "";
    } else {
      EscapesSplit(s[1..], k - 1);
      assert s[..k][1..] == s[1..][..k - 1] && s[1..][k - 1] == s[k] && s[1..][k..] == s[k + 1..];
    }
  }
}
