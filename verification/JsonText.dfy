// Compact JSON text: writing a value with ECMAScript string escapes, and reading it back. The text
// of numbers is the codec's, whose contract is that of ECMAScript's number-to-string conversion.
module JsonText {
  import opened Wrappers
  import opened Json

  datatype Codec = Codec(write: real -> string, read: string -> Option<Number>)

  predicate NumberChar(c: char) {
    '0' <= c <= '9' || c in "+-.eE"
  }

  predicate NumberToken(s: string) {
    s != "" && forall i :: 0 <= i < |s| ==> NumberChar(s[i])
  }

  /* ---------- Strings ---------- */

  function HexDigit(n: nat): char
    requires n < 16
  {
    "0123456789abcdef"[n]
  }

  function HexValue(c: char): Option<nat> {
    if '0' <= c <= '9' then Some((c - '0') as nat)
    else if 'a' <= c <= 'f' then Some((c - 'a') as nat + 10)
    else if 'A' <= c <= 'F' then Some((c - 'A') as nat + 10)
    else None
  }

  function Escape(c: char): (s: string)
    ensures s != ""
  {
    if c == '"' then "\\\""
    else if c == '\\' then "\\\\"
    else if c == 8 as char then "\\b"
    else if c == 12 as char then "\\f"
    else if c == '\n' then "\\n"
    else if c == '\r' then "\\r"
    else if c == '\t' then "\\t"
    else if c < ' ' then "\\u00" + [HexDigit(c as nat / 16), HexDigit(c as nat % 16)]
    else [c]
  }

  function Escapes(s: string): string {
    if s == "" then "" else Escape(s[0]) + Escapes(s[1..])
  }

  function Quote(s: string): string {
    "\"" + Escapes(s) + "\""
  }

  function Simple(c: char): Option<char> {
    match c
    case '"' => Some('"')
    case '\\' => Some('\\')
    case '/' => Some('/')
    case 'b' => Some(8 as char)
    case 'f' => Some(12 as char)
    case 'n' => Some('\n')
    case 'r' => Some('\r')
    case 't' => Some('\t')
    case _ => None
  }

  // Four hexadecimal digits naming a character outside the surrogate range.
  function HexChar(s: string): Option<char>
    requires |s| == 4
  {
    var a, b, c, d := HexValue(s[0]), HexValue(s[1]), HexValue(s[2]), HexValue(s[3]);
    if a.None? || b.None? || c.None? || d.None? then None
    else
      var n := ((a.value * 16 + b.value) * 16 + c.value) * 16 + d.value;
      if n < 0xD800 || 0xE000 <= n < 0x10000 then Some(n as char) else None
  }

  // One character of a string, and how much text it took; None at the closing quote or at a fault.
  function ReadChar(s: string): (r: Option<(char, nat)>)
    ensures r.Some? ==> 0 < r.value.1 <= |s|
  {
    if s == "" || s[0] == '"' || s[0] < ' ' then None
    else if s[0] != '\\' then Some((s[0], 1))
    else if |s| < 2 then None
    else if s[1] != 'u' then (if Simple(s[1]).Some? then Some((Simple(s[1]).value, 2)) else None)
    else if |s| < 6 || HexChar(s[2..6]).None? then None
    else Some((HexChar(s[2..6]).value, 6))
  }

  // The rest of a string after its opening quote, and the text behind its closing quote.
  function ReadString(s: string): (r: Option<(string, string)>)
    ensures r.Some? ==> |r.value.1| < |s|
    decreases |s|
  {
    if s == "" then None
    else if s[0] == '"' then Some(("", s[1..]))
    else
      var first := ReadChar(s);
      if first.None? then None
      else
        var more := ReadString(s[first.value.1..]);
        if more.None? then None else Some(([first.value.0] + more.value.0, more.value.1))
  }

  lemma {:induction false} ReadEscape(c: char, rest: string)
    ensures ReadChar(Escape(c) + rest) == Some((c, |Escape(c)|))
  {
    if c < ' ' && c !in [8 as char, 12 as char, '\n', '\r', '\t'] {
      var n := c as nat;
      var hex := [HexDigit(n / 16), HexDigit(n % 16)];
      assert (Escape(c) + rest)[2..6] == "00" + hex;
      HexRoundTrip(n / 16);
      HexRoundTrip(n % 16);
      assert HexChar("00" + hex) == Some(c);
    }
  }

  lemma {:induction false} HexRoundTrip(n: nat)
    requires n < 16
    ensures HexValue(HexDigit(n)) == Some(n)
  {
  }

  lemma {:induction false} ReadEscapes(s: string, rest: string)
    ensures ReadString(Escapes(s) + "\"" + rest) == Some((s, rest))
  {
    var text := Escapes(s) + "\"" + rest;
    if s == "" {
      assert text == "\"" + rest;
    } else {
      var tail := Escapes(s[1..]) + "\"" + rest;
      assert text == Escape(s[0]) + tail;
      ReadEscape(s[0], tail);
      assert text[|Escape(s[0])|..] == tail;
      ReadEscapes(s[1..], rest);
      assert text[0] != '"' by {
        assert text[0] == Escape(s[0])[0];
      }
      assert s == [s[0]] + s[1..];
    }
  }

  /* ---------- Values ---------- */

  function NumberText(n: Number, c: Codec): string {
    match n
    case Int(i) => c.write(i as real)
    case Float(x) => c.write(x)
  }

  function Write(v: Value, c: Codec): string
    decreases v
  {
    match v
    case Null => "null"
    case Bool(b) => if b then "true" else "false"
    case Num(n) => NumberText(n, c)
    case Str(s) => Quote(s)
    case Arr(items) => if items == [] then "[]" else "[" + WriteItems(items, c)
    case Obj(members) => if members == [] then "{}" else "{" + WriteMembers(members, c)
  }

  function WriteItems(items: seq<Value>, c: Codec): string
    requires items != []
    decreases items
  {
    Write(items[0], c) + if |items| == 1 then "]" else "," + WriteItems(items[1..], c)
  }

  function WriteMembers(members: seq<Member>, c: Codec): string
    requires members != []
    decreases members
  {
    Quote(members[0].key) + ":" + Write(members[0].value, c)
    + if |members| == 1 then "}" else "," + WriteMembers(members[1..], c)
  }

  function TokenLength(s: string): (n: nat)
    ensures n <= |s| && (n < |s| ==> !NumberChar(s[n]))
    ensures forall i :: 0 <= i < n ==> NumberChar(s[i])
  {
    if s == "" || !NumberChar(s[0]) then 0 else 1 + TokenLength(s[1..])
  }

  function ReadNumber(s: string, c: Codec): (r: Option<(Value, string)>)
    ensures r.Some? ==> |r.value.1| < |s|
  {
    var n := TokenLength(s);
    if n == 0 || c.read(s[..n]).None? then None else Some((Num(c.read(s[..n]).value), s[n..]))
  }

  function ReadWord(s: string, word: string, v: Value): (r: Option<(Value, string)>)
    requires word != ""
    ensures r.Some? ==> |r.value.1| < |s|
  {
    if |s| >= |word| && s[..|word|] == word then Some((v, s[|word|..])) else None
  }

  function Parse(s: string, c: Codec): (r: Option<(Value, string)>)
    ensures r.Some? ==> |r.value.1| < |s|
    decreases |s|, 0
  {
    if s == "" then None
    else
      match s[0]
      case 'n' => ReadWord(s, "null", Null)
      case 't' => ReadWord(s, "true", Bool(true))
      case 'f' => ReadWord(s, "false", Bool(false))
      case '"' =>
        var text := ReadString(s[1..]);
        if text.None? then None else Some((Str(text.value.0), text.value.1))
      case '[' =>
        if |s| > 1 && s[1] == ']' then Some((Arr([]), s[2..]))
        else
          var items := ParseItems(s[1..], c);
          if items.None? then None else Some((Arr(items.value.0), items.value.1))
      case '{' =>
        if |s| > 1 && s[1] == '}' then Some((Obj([]), s[2..]))
        else
          var members := ParseMembers(s[1..], c);
          if members.None? then None else Some((Obj(members.value.0), members.value.1))
      case _ => ReadNumber(s, c)
  }

  // The items of a non-empty array, through its closing bracket.
  function ParseItems(s: string, c: Codec): (r: Option<(seq<Value>, string)>)
    ensures r.Some? ==> |r.value.1| < |s|
    decreases |s|, 1
  {
    var first := Parse(s, c);
    if first.None? || first.value.1 == "" then None
    else
      var (v, rest) := first.value;
      if rest[0] == ']' then Some(([v], rest[1..]))
      else if rest[0] == ',' then
        var more := ParseItems(rest[1..], c);
        if more.None? then None else Some(([v] + more.value.0, more.value.1))
      else None
  }

  // One member, and what follows it.
  function ParseMember(s: string, c: Codec): (r: Option<(Member, string)>)
    ensures r.Some? ==> |r.value.1| < |s|
    decreases |s|, 1
  {
    if s == "" || s[0] != '"' then None
    else
      var key := ReadString(s[1..]);
      if key.None? || key.value.1 == "" || key.value.1[0] != ':' then None
      else
        var v := Parse(key.value.1[1..], c);
        if v.None? then None else Some((Member(key.value.0, v.value.0), v.value.1))
  }

  function ParseMembers(s: string, c: Codec): (r: Option<(seq<Member>, string)>)
    ensures r.Some? ==> |r.value.1| < |s|
    decreases |s|, 2
  {
    var first := ParseMember(s, c);
    if first.None? || first.value.1 == "" then None
    else
      var (m, rest) := first.value;
      if rest[0] == '}' then Some(([m], rest[1..]))
      else if rest[0] == ',' then
        var more := ParseMembers(rest[1..], c);
        if more.None? then None else Some(([m] + more.value.0, more.value.1))
      else None
  }

  /* ---------- Reading back what was written ---------- */

  predicate NumberReads(n: Number, c: Codec) {
    NumberToken(NumberText(n, c)) && c.read(NumberText(n, c)).Some?
  }

  predicate Writable(v: Value, c: Codec)
    decreases v
  {
    match v
    case Num(n) => NumberReads(n, c)
    case Arr(items) => forall i :: 0 <= i < |items| ==> Writable(items[i], c)
    case Obj(members) => forall i :: 0 <= i < |members| ==> Writable(members[i].value, c)
    case _ => true
  }

  // The value that comes back: the same, with every number as its token reads.
  function Reread(v: Value, c: Codec): (r: Value)
    requires Writable(v, c)
    decreases v
  {
    match v
    case Num(n) => Num(c.read(NumberText(n, c)).value)
    case Arr(items) => Arr(seq(|items|, i requires 0 <= i < |items| => Reread(items[i], c)))
    case Obj(members) =>
      Obj(seq(|members|, i requires 0 <= i < |members| => Member(members[i].key, Reread(members[i].value, c))))
    case _ => v
  }

  predicate Delimited(rest: string) {
    rest == "" || !NumberChar(rest[0])
  }

  lemma {:induction false} TokenRead(token: string, rest: string)
    requires NumberToken(token) && Delimited(rest)
    ensures TokenLength(token + rest) == |token|
  {
    assert forall i :: 0 <= i < |token| ==> (token + rest)[i] == token[i];
    assert rest != "" ==> (token + rest)[|token|] == rest[0];
  }

  lemma {:induction false} NumberBack(n: Number, c: Codec, rest: string)
    requires NumberReads(n, c) && Delimited(rest)
    ensures Parse(NumberText(n, c) + rest, c) == Some((Num(c.read(NumberText(n, c)).value), rest))
  {
    var token := NumberText(n, c);
    var s := token + rest;
    TokenRead(token, rest);
    assert s[..|token|] == token && s[|token|..] == rest;
    assert s[0] == token[0] && NumberChar(s[0]);
  }

  lemma {:induction false} WordBack(word: string, v: Value, c: Codec, rest: string)
    requires (word, v) in [("null", Null), ("true", Bool(true)), ("false", Bool(false))]
    ensures Parse(word + rest, c) == Some((v, rest))
  {
    var text := word + rest;
    assert text[0] == word[0];
    assert text[..|word|] == word && text[|word|..] == rest;
  }

  lemma {:induction false} StringBack(s: string, c: Codec, rest: string)
    ensures Parse(Quote(s) + rest, c) == Some((Str(s), rest))
  {
    var text := Quote(s) + rest;
    assert text[1..] == Escapes(s) + "\"" + rest;
    ReadEscapes(s, rest);
  }

  lemma {:induction false} ArrayBack(tail: string, c: Codec)
    requires ParseItems(tail, c).Some? && tail != "" && tail[0] != ']'
    ensures Parse("[" + tail, c) == Some((Arr(ParseItems(tail, c).value.0), ParseItems(tail, c).value.1))
  {
    assert ("[" + tail)[1..] == tail;
    hide ParseItems;
  }

  lemma {:induction false} ObjectBack(tail: string, c: Codec)
    requires ParseMembers(tail, c).Some? && tail != "" && tail[0] != '}'
    ensures Parse("{" + tail, c) == Some((Obj(ParseMembers(tail, c).value.0), ParseMembers(tail, c).value.1))
  {
    assert ("{" + tail)[1..] == tail;
    hide ParseMembers;
  }

  lemma {:induction false} EmptyBack(c: Codec, rest: string)
    ensures Parse("[]" + rest, c) == Some((Arr([]), rest)) && Parse("{}" + rest, c) == Some((Obj([]), rest))
  {
    assert ("[]" + rest)[2..] == rest && ("{}" + rest)[2..] == rest;
  }

  function RereadItems(items: seq<Value>, c: Codec): seq<Value>
    requires forall i :: 0 <= i < |items| ==> Writable(items[i], c)
  {
    seq(|items|, i requires 0 <= i < |items| => Reread(items[i], c))
  }

  function RereadMembers(members: seq<Member>, c: Codec): seq<Member>
    requires forall i :: 0 <= i < |members| ==> Writable(members[i].value, c)
  {
    seq(|members|, i requires 0 <= i < |members| => Member(members[i].key, Reread(members[i].value, c)))
  }

  // Writing then reading gives the value back, with nothing left over but what followed it.
  lemma {:induction false} WrittenIsRead(v: Value, c: Codec, rest: string)
    requires Writable(v, c) && Delimited(rest)
    ensures Parse(Write(v, c) + rest, c) == Some((Reread(v, c), rest))
    decreases v, 1
  {
    hide Parse, ParseItems, ParseMembers, WriteItems, WriteMembers, NumberReads, NumberText, Quote;
    match v {
      case Null => WordBack("null", v, c, rest);
      case Bool(b) => WordBack(if b then "true" else "false", v, c, rest);
      case Num(n) => NumberBack(n, c, rest);
      case Str(s) => StringBack(s, c, rest);
      case Arr(items) =>
        EmptyBack(c, rest);
        assert Reread(v, c).items == RereadItems(items, c);
        if items != [] {
          var tail := WriteItems(items, c) + rest;
          ItemsAreRead(items, c, rest);
          ItemStart(items, c);
          ArrayBack(tail, c);
          assert Write(v, c) + rest == "[" + tail;
        }
      case Obj(members) =>
        EmptyBack(c, rest);
        assert Reread(v, c).members == RereadMembers(members, c);
        if members != [] {
          var tail := WriteMembers(members, c) + rest;
          MembersAreRead(members, c, rest);
          MemberStart(members, c);
          ObjectBack(tail, c);
          assert Write(v, c) + rest == "{" + tail;
        }
    }
  }

  lemma {:induction false} MemberStart(members: seq<Member>, c: Codec)
    requires members != []
    ensures WriteMembers(members, c) != "" && WriteMembers(members, c)[0] != '}'
  {
    hide Write, Escapes;
  }

  // No written value begins with a closing bracket.
  lemma {:induction false} ItemStart(items: seq<Value>, c: Codec)
    requires items != [] && Writable(items[0], c)
    ensures WriteItems(items, c) != "" && WriteItems(items, c)[0] != ']'
  {
    var first := Write(items[0], c);
    assert first != "" && first[0] != ']' by {
      match items[0] {
        case Num(n) => assert NumberChar(NumberText(n, c)[0]);
        case _ =>
      }
    }
  }

  lemma {:induction false} ItemsAreRead(items: seq<Value>, c: Codec, rest: string)
    requires items != [] && forall i :: 0 <= i < |items| ==> Writable(items[i], c)
    ensures ParseItems(WriteItems(items, c) + rest, c) == Some((RereadItems(items, c), rest))
    decreases items
  {
    hide Parse, Write, Writable, Reread;
    var first := Write(items[0], c);
    if |items| == 1 {
      assert WriteItems(items, c) + rest == first + ("]" + rest);
      WrittenIsRead(items[0], c, "]" + rest);
      assert ("]" + rest)[1..] == rest;
      assert RereadItems(items, c) == [Reread(items[0], c)];
    } else {
      var more := WriteItems(items[1..], c) + rest;
      assert WriteItems(items, c) + rest == first + ("," + more);
      WrittenIsRead(items[0], c, "," + more);
      assert ("," + more)[1..] == more;
      ItemsAreRead(items[1..], c, rest);
      assert RereadItems(items, c) == [Reread(items[0], c)] + RereadItems(items[1..], c);
    }
  }

  lemma {:induction false} MemberIsRead(m: Member, c: Codec, rest: string)
    requires Writable(m.value, c) && Delimited(rest)
    ensures ParseMember(Quote(m.key) + ":" + Write(m.value, c) + rest, c)
        == Some((Member(m.key, Reread(m.value, c)), rest))
    decreases m, 2
  {
    hide Parse, Write, Writable, Reread, Escapes, ReadString;
    var after := ":" + Write(m.value, c) + rest;
    var text := Quote(m.key) + ":" + Write(m.value, c) + rest;
    assert text[1..] == Escapes(m.key) + "\"" + after;
    ReadEscapes(m.key, after);
    assert after[1..] == Write(m.value, c) + rest;
    WrittenIsRead(m.value, c, rest);
  }

  lemma {:induction false} MembersAreRead(members: seq<Member>, c: Codec, rest: string)
    requires members != [] && forall i :: 0 <= i < |members| ==> Writable(members[i].value, c)
    ensures ParseMembers(WriteMembers(members, c) + rest, c) == Some((RereadMembers(members, c), rest))
    decreases members
  {
    hide ParseMember, Write, Writable, Reread, Quote;
    var first := Quote(members[0].key) + ":" + Write(members[0].value, c);
    if |members| == 1 {
      assert WriteMembers(members, c) + rest == first + ("}" + rest);
      MemberIsRead(members[0], c, "}" + rest);
      assert ("}" + rest)[1..] == rest;
      assert RereadMembers(members, c) == [Member(members[0].key, Reread(members[0].value, c))];
    } else {
      var more := WriteMembers(members[1..], c) + rest;
      assert WriteMembers(members, c) + rest == first + ("," + more);
      MemberIsRead(members[0], c, "," + more);
      assert ("," + more)[1..] == more;
      MembersAreRead(members[1..], c, rest);
      assert RereadMembers(members, c)
          == [Member(members[0].key, Reread(members[0].value, c))] + RereadMembers(members[1..], c);
    }
  }
}
