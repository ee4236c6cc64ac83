// The freeze boundary: canonical JSON with sorted members and binary64 numbers (RFC 8785, sections
// 3.2.2 and 3.2.3), the guards around it, and what a frozen text says about the value behind it.
module Freeze {
  import opened Wrappers
  import opened Json
  import opened JsonText
  import Numbers

  /* ---------- Numbers ---------- */

  // The binary64 number a JSON number stands for; None is an integer out of range.
  function Double(n: Number): Option<real> {
    match n
    case Int(i) => if Numbers.Round64(i).Some? then Some(Numbers.Round64(i).value as real) else None
    case Float(x) => Some(x)
  }

  predicate FractionIs(x: real, m: int, k: nat) {
    Numbers.Abs(m) <= Numbers.TWO_53 && k <= 1074 && x == m as real / Numbers.Pow2(k) as real
  }

  predicate IntegerIs(x: real, n: int) {
    Numbers.Round64(n) == Some(n) && x == n as real
  }

  ghost predicate IsDouble(x: real) {
    (exists n :: IntegerIs(x, n)) || (exists m, k :: FractionIs(x, m, k))
  }

  // What ECMAScript promises of its number-to-string conversion: a token that reads back as a
  // number with the same binary64 value.
  ghost predicate Faithful(c: Codec) {
    forall x :: IsDouble(x) ==>
      && NumberToken(c.write(x)) && c.read(c.write(x)).Some?
      && Double(c.read(c.write(x)).value) == Some(x)
  }

  // From the smallest subnormal number on.
  lemma {:induction false} SmallestIsDouble()
    ensures IsDouble(1 as real / Numbers.Pow2(1074) as real)
  {
    assert FractionIs(1 as real / Numbers.Pow2(1074) as real, 1, 1074);
  }

  lemma {:induction false} DoubleIsDouble(n: Number)
    requires Double(n).Some? && (n.Float? ==> IsDouble(n.x))
    ensures IsDouble(Double(n).value)
  {
    if n.Int? {
      Numbers.RoundIdempotent(n.n);
      assert IntegerIs(Double(n).value, Numbers.Round64(n.n).value);
    }
  }

  // Such conversions exist: here a number m / 2^k is a sign, m ones, a point and k zeros.
  ghost predicate Quotient(x: real, m: int, k: nat) {
    x == m as real / Numbers.Pow2(k) as real
  }

  lemma {:induction false} DoubleIsQuotient(x: real)
    requires IsDouble(x)
    ensures exists m, k :: Quotient(x, m, k)
  {
    if n :| IntegerIs(x, n) {
      assert Quotient(x, n, 0);
    } else {
      var m, k :| FractionIs(x, m, k);
      assert Quotient(x, m, k);
    }
  }

  function Tally(m: int, k: nat): (s: string)
    ensures |s| == Numbers.Abs(m) + k + 2
  {
    [if m < 0 then '-' else '+'] + seq(Numbers.Abs(m), i => '1') + ['.'] + seq(k, i => '0')
  }

  lemma {:induction false} TallyInjective(m: int, k: nat, n: int, l: nat)
    requires Tally(m, k) == Tally(n, l)
    ensures m == n && k == l
  {
    var s, a, b := Tally(m, k), Numbers.Abs(m), Numbers.Abs(n);
    assert s[0] == (if m < 0 then '-' else '+') && s[0] == (if n < 0 then '-' else '+');
    assert s[1 + a] == '.' && s[1 + b] == '.';
    assert (forall i :: 0 < i <= a ==> s[i] == '1') && (forall i :: 0 < i <= b ==> s[i] == '1');
  }

  ghost function Tallied(x: real): string {
    if IsDouble(x) then
      DoubleIsQuotient(x);
      var m, k :| Quotient(x, m, k);
      Tally(m, k)
    else "0"
  }

  ghost function Untallied(s: string): Option<Number> {
    if exists x :: IsDouble(x) && Tallied(x) == s then
      var x :| IsDouble(x) && Tallied(x) == s;
      Some(Float(x))
    else None
  }

  lemma {:induction false} TalliedInjective(x: real, y: real)
    requires IsDouble(x) && IsDouble(y) && Tallied(x) == Tallied(y)
    ensures x == y
  {
    DoubleIsQuotient(x);
    DoubleIsQuotient(y);
    var m, k :| Quotient(x, m, k) && Tallied(x) == Tally(m, k);
    var n, l :| Quotient(y, n, l) && Tallied(y) == Tally(n, l);
    TallyInjective(m, k, n, l);
  }

  lemma {:induction false} FaithfulExists()
    ensures exists c :: Faithful(c)
  {
    var c := Codec(Tallied, Untallied);
    forall x | IsDouble(x)
      ensures NumberToken(c.write(x)) && c.read(c.write(x)).Some? && Double(c.read(c.write(x)).value) == Some(x)
    {
      DoubleIsQuotient(x);
      var y :| IsDouble(y) && Tallied(y) == Tallied(x) && Untallied(Tallied(x)) == Some(Float(y));
      TalliedInjective(x, y);
      var m, k :| Quotient(x, m, k) && Tallied(x) == Tally(m, k);
      assert NumberToken(Tally(m, k));
    }
    assert Faithful(c);
  }

  /* ---------- Keys in UTF-16 order ---------- */

  function Units(c: char): (us: seq<nat>)
    ensures 1 <= |us| <= 2
  {
    var n := c as nat;
    if n < 0x10000 then [n]
    else [0xD800 + (n - 0x10000) / 0x400, 0xDC00 + (n - 0x10000) % 0x400]
  }

  function UnitsOf(s: string): seq<nat> {
    if s == "" then [] else Units(s[0]) + UnitsOf(s[1..])
  }

  predicate UnitsLess(a: seq<nat>, b: seq<nat>) {
    if b == [] then false
    else if a == [] then true
    else if a[0] != b[0] then a[0] < b[0]
    else UnitsLess(a[1..], b[1..])
  }

  predicate KeyLess(a: string, b: string) {
    UnitsLess(UnitsOf(a), UnitsOf(b))
  }

  lemma {:induction false} UnitsLessOrder(a: seq<nat>, b: seq<nat>, c: seq<nat>)
    ensures !UnitsLess(a, a)
    ensures UnitsLess(a, b) && UnitsLess(b, c) ==> UnitsLess(a, c)
    ensures a == b || UnitsLess(a, b) || UnitsLess(b, a)
    decreases |a| + |b| + |c|
  {
    if a == [] {
    } else {
      UnitsLessOrder(a[1..], if b == [] then [] else b[1..], if c == [] then [] else c[1..]);
      assert a == [a[0]] + a[1..];
      assert b != [] ==> b == [b[0]] + b[1..];
    }
  }

  lemma {:induction false} UnitsInjective(s: string, t: string)
    requires UnitsOf(s) == UnitsOf(t)
    ensures s == t
  {
    if s != "" && t != "" {
      assert UnitsOf(s)[0] == UnitsOf(t)[0] && (|UnitsOf(s)| > 1 ==> UnitsOf(s)[1] == UnitsOf(t)[1]);
      assert s[0] == t[0];
      assert UnitsOf(s)[|Units(s[0])|..] == UnitsOf(s[1..]);
      assert UnitsOf(t)[|Units(t[0])|..] == UnitsOf(t[1..]);
      UnitsInjective(s[1..], t[1..]);
      assert s == [s[0]] + s[1..] && t == [t[0]] + t[1..];
    }
  }

  lemma {:induction false} KeyOrder(a: string, b: string, c: string)
    ensures !KeyLess(a, a)
    ensures KeyLess(a, b) && KeyLess(b, c) ==> KeyLess(a, c)
    ensures a == b || KeyLess(a, b) || KeyLess(b, a)
  {
    UnitsLessOrder(UnitsOf(a), UnitsOf(b), UnitsOf(c));
    if UnitsOf(a) == UnitsOf(b) {
      UnitsInjective(a, b);
    }
  }

  /* ---------- Sorted members ---------- */

  ghost predicate DistinctKeys(ms: seq<Member>) {
    forall i, j :: 0 <= i < j < |ms| ==> ms[i].key != ms[j].key
  }

  ghost predicate Sorted(ms: seq<Member>) {
    forall i, j :: 0 <= i < j < |ms| ==> KeyLess(ms[i].key, ms[j].key)
  }

  function Insert(m: Member, sorted: seq<Member>): (r: seq<Member>)
    ensures |r| == |sorted| + 1
    ensures forall x :: x in r <==> x == m || x in sorted
  {
    if sorted == [] then [m]
    else if KeyLess(m.key, sorted[0].key) then [m] + sorted
    else [sorted[0]] + Insert(m, sorted[1..])
  }

  function Sort(ms: seq<Member>): (r: seq<Member>)
    ensures |r| == |ms|
    ensures forall x :: x in r <==> x in ms
  {
    if ms == [] then [] else Insert(ms[0], Sort(ms[1..]))
  }

  lemma {:induction false} PrependSorted(m: Member, ms: seq<Member>)
    requires Sorted(ms) && forall x :: x in ms ==> KeyLess(m.key, x.key)
    ensures Sorted([m] + ms)
  {
    hide KeyLess;
    var r := [m] + ms;
    assert forall i :: 0 < i < |r| ==> r[i] == ms[i - 1];
  }

  lemma {:induction false} InsertSorted(m: Member, sorted: seq<Member>)
    requires Sorted(sorted) && forall x :: x in sorted ==> x.key != m.key
    ensures Sorted(Insert(m, sorted))
  {
    hide KeyLess;
    if sorted == [] {
    } else {
      var first := sorted[0];
      if KeyLess(m.key, first.key) {
        forall x | x in sorted ensures KeyLess(m.key, x.key) {
          KeyOrder(m.key, first.key, x.key);
        }
        PrependSorted(m, sorted);
      } else {
        KeyOrder(m.key, first.key, m.key);
        assert first in sorted;
        InsertSorted(m, sorted[1..]);
        forall x | x in Insert(m, sorted[1..]) ensures KeyLess(first.key, x.key) {
        }
        PrependSorted(first, Insert(m, sorted[1..]));
      }
    }
  }

  lemma {:induction false} SortSorted(ms: seq<Member>)
    requires DistinctKeys(ms)
    ensures Sorted(Sort(ms))
  {
    if ms == [] {
    } else {
      SortSorted(ms[1..]);
      forall x | x in Sort(ms[1..]) ensures x.key != ms[0].key {
        assert x in ms[1..];
      }
      InsertSorted(ms[0], Sort(ms[1..]));
    }
  }

  lemma {:induction false} SortOfSorted(ms: seq<Member>)
    requires Sorted(ms)
    ensures Sort(ms) == ms
  {
    if ms == [] {
    } else {
      SortOfSorted(ms[1..]);
      assert ms == [ms[0]] + ms[1..];
      assert |ms| > 1 ==> KeyLess(ms[0].key, ms[1].key);
    }
  }

  // Sorted sequences over the same members are the same.
  lemma {:induction false} SortedSubset(a: seq<Member>, b: seq<Member>)
    requires Sorted(a) && Sorted(b) && forall x :: x in a ==> x in b
    ensures |a| <= |b| && (|a| == |b| ==> a == b)
    decreases |a|
  {
    if a == [] {
    } else {
      assert a[0] in b;
      var k :| 0 <= k < |b| && b[k] == a[0];
      forall x | x in a[1..] ensures x in b[k + 1..] {
        var i :| 0 <= i < |a[1..]| && a[1..][i] == x;
        assert a[i + 1] == x && KeyLess(a[0].key, x.key);
        assert x in a;
        var j :| 0 <= j < |b| && b[j] == x;
        KeyOrder(x.key, a[0].key, x.key);
        assert !(j < k) && j != k;
        assert b[k + 1..][j - k - 1] == x;
      }
      SortedSubset(a[1..], b[k + 1..]);
      assert a == [a[0]] + a[1..];
    }
  }

  /* ---------- Normal form ---------- */

  // Members sorted, numbers as binary64.
  function Normal(v: Value): Value
    decreases v
  {
    match v
    case Num(n) => if Double(n).Some? then Num(Float(Double(n).value)) else v
    case Arr(items) => Arr(seq(|items|, i requires 0 <= i < |items| => Normal(items[i])))
    case Obj(members) =>
      Obj(Sort(seq(|members|, i requires 0 <= i < |members| => Member(members[i].key, Normal(members[i].value)))))
    case _ => v
  }

  function NormalMembers(ms: seq<Member>): (r: seq<Member>)
    ensures |r| == |ms| && forall i :: 0 <= i < |ms| ==> r[i] == Member(ms[i].key, Normal(ms[i].value))
  {
    seq(|ms|, i requires 0 <= i < |ms| => Member(ms[i].key, Normal(ms[i].value)))
  }

  // What holds of any value the program handles: floats are binary64, dictionary keys differ.
  ghost predicate Sound(v: Value)
    decreases v
  {
    match v
    case Num(n) => n.Float? ==> IsDouble(n.x)
    case Arr(items) => forall i :: 0 <= i < |items| ==> Sound(items[i])
    case Obj(members) => DistinctKeys(members) && forall i :: 0 <= i < |members| ==> Sound(members[i].value)
    case _ => true
  }

  // _reject_unrepresentable_numbers.
  predicate Guard(v: Value)
    decreases v
  {
    match v
    case Num(n) => n.Int? ==> Numbers.Guarded(n.n)
    case Arr(items) => forall i :: 0 <= i < |items| ==> Guard(items[i])
    case Obj(members) => forall i :: 0 <= i < |members| ==> Guard(members[i].value)
    case _ => true
  }

  // What the serializer can write at all: no integer beyond the binary64 range.
  predicate InRange(v: Value)
    decreases v
  {
    match v
    case Num(n) => Double(n).Some?
    case Arr(items) => forall i :: 0 <= i < |items| ==> InRange(items[i])
    case Obj(members) => forall i :: 0 <= i < |members| ==> InRange(members[i].value)
    case _ => true
  }

  lemma {:induction false} GuardInRange(v: Value)
    requires Guard(v)
    ensures InRange(v)
    decreases v
  {
    match v {
      case Num(n) => GuardedNumber(n);
      case Arr(items) =>
        forall i | 0 <= i < |items| ensures InRange(items[i]) {
          GuardInRange(items[i]);
        }
      case Obj(members) =>
        forall i | 0 <= i < |members| ensures InRange(members[i].value) {
          GuardInRange(members[i].value);
        }
      case _ =>
    }
  }

  ghost predicate IsNormal(v: Value)
    decreases v
  {
    match v
    case Num(n) => n.Float? && IsDouble(n.x)
    case Arr(items) => forall i :: 0 <= i < |items| ==> IsNormal(items[i])
    case Obj(members) => Sorted(members) && forall i :: 0 <= i < |members| ==> IsNormal(members[i].value)
    case _ => true
  }

  lemma {:induction false} SortedDistinct(ms: seq<Member>)
    requires Sorted(ms)
    ensures DistinctKeys(ms)
  {
    forall i, j | 0 <= i < j < |ms| ensures ms[i].key != ms[j].key {
      KeyOrder(ms[i].key, ms[j].key, ms[i].key);
    }
  }

  lemma {:induction false} NormalIsNormal(v: Value)
    requires Sound(v) && InRange(v)
    ensures IsNormal(Normal(v))
    decreases v
  {
    match v {
      case Num(n) => DoubleIsDouble(n);
      case Arr(items) =>
        forall i | 0 <= i < |items| ensures IsNormal(Normal(items[i])) {
          NormalIsNormal(items[i]);
        }
      case Obj(members) =>
        var ms := NormalMembers(members);
        assert Normal(v) == Obj(Sort(ms));
        SortSorted(ms);
        forall m | m in Sort(ms) ensures IsNormal(m.value) {
          var i :| 0 <= i < |ms| && ms[i] == m;
          NormalIsNormal(members[i].value);
        }
      case _ =>
    }
  }

  lemma {:induction false} NormalWritable(v: Value, c: Codec)
    requires IsNormal(v) && Faithful(c)
    ensures Writable(v, c)
    decreases v
  {
    match v {
      case Arr(items) =>
        forall i | 0 <= i < |items| ensures Writable(items[i], c) {
          NormalWritable(items[i], c);
        }
      case Obj(members) =>
        forall i | 0 <= i < |members| ensures Writable(members[i].value, c) {
          NormalWritable(members[i].value, c);
        }
      case _ =>
    }
  }

  // What a normal value reads back as is sound, and normalizes to it again.
  lemma {:induction false} RereadNormal(v: Value, c: Codec)
    requires IsNormal(v) && Faithful(c)
    ensures Writable(v, c) && Sound(Reread(v, c)) && InRange(Reread(v, c)) && Normal(Reread(v, c)) == v
    decreases v
  {
    NormalWritable(v, c);
    match v {
      case Num(n) => NumberReread(n.x, c);
      case Arr(items) =>
        forall i | 0 <= i < |items|
          ensures Sound(Reread(items[i], c)) && InRange(Reread(items[i], c)) && Normal(Reread(items[i], c)) == items[i]
        {
          RereadNormal(items[i], c);
        }
        assert Normal(Reread(v, c)).items == items;
      case Obj(members) =>
        forall i | 0 <= i < |members|
          ensures Sound(Reread(members[i].value, c)) && InRange(Reread(members[i].value, c))
          ensures Normal(Reread(members[i].value, c)) == members[i].value
        {
          RereadNormal(members[i].value, c);
        }
        RereadObj(members, c);
      case _ =>
    }
  }

  lemma {:induction false} RereadObj(members: seq<Member>, c: Codec)
    requires Sorted(members) && forall i :: 0 <= i < |members| ==> Writable(members[i].value, c)
    requires forall i :: 0 <= i < |members| ==>
               && Sound(Reread(members[i].value, c)) && InRange(Reread(members[i].value, c))
               && Normal(Reread(members[i].value, c)) == members[i].value
    ensures Writable(Obj(members), c)
    ensures Sound(Reread(Obj(members), c)) && InRange(Reread(Obj(members), c))
        && Normal(Reread(Obj(members), c)) == Obj(members)
  {
    var back := RereadMembers(members, c);
    SortedDistinct(members);
    assert Reread(Obj(members), c) == Obj(back);
    assert NormalMembers(back) == members;
    SortOfSorted(members);
    assert Normal(Obj(back)) == Obj(Sort(NormalMembers(back)));
  }

  lemma {:induction false} NumberReread(x: real, c: Codec)
    requires IsDouble(x) && Faithful(c)
    ensures c.read(c.write(x)).Some?
    ensures
      var n := c.read(c.write(x)).value;
      Double(n) == Some(x) && (n.Float? ==> n.x == x)
  {
  }

  /* ---------- The freeze ---------- */

  datatype Fault = Unrepresentable | Unreadable | DoesNotRoundTrip | WrongShape

  function Canonical(v: Value, c: Codec): string {
    Write(Normal(v), c)
  }

  // canonical_bytes: guard, serialize, read back, guard again, serialize again.
  function FreezeValue(v: Value, c: Codec): Result<string, Fault> {
    if !Guard(v) then Err(Unrepresentable)
    else
      var frozen := Canonical(v, c);
      var back := Parse(frozen, c);
      if back.None? || back.value.1 != "" then Err(Unreadable)
      else if !Guard(back.value.0) || Canonical(back.value.0, c) != frozen then Err(DoesNotRoundTrip)
      else Ok(frozen)
  }

  lemma {:induction false} CanonicalReads(v: Value, c: Codec)
    requires Sound(v) && InRange(v) && Faithful(c)
    ensures Writable(Normal(v), c)
    ensures Parse(Canonical(v, c), c) == Some((Reread(Normal(v), c), ""))
    ensures Sound(Reread(Normal(v), c)) && InRange(Reread(Normal(v), c)) && Normal(Reread(Normal(v), c)) == Normal(v)
  {
    NormalIsNormal(v);
    RereadNormal(Normal(v), c);
    WrittenIsRead(Normal(v), c, "");
    assert Write(Normal(v), c) + "" == Write(Normal(v), c);
  }

  // The serialized text always reads back to a value with the same canonical text, so acceptance
  // is decided by the number guard alone, applied before writing and after reading.
  lemma {:induction false} FreezeDecided(v: Value, c: Codec)
    requires Sound(v) && Faithful(c)
    ensures Guard(v) ==> Writable(Normal(v), c)
    ensures FreezeValue(v, c).Ok? <==> Guard(v) && Guard(Reread(Normal(v), c))
    ensures FreezeValue(v, c).Ok? ==> FreezeValue(v, c).value == Canonical(v, c)
  {
    if Guard(v) {
      GuardInRange(v);
      CanonicalReads(v, c);
    }
  }

  // An accepted value reloads from its text without being taken for tampered, and freezes to the
  // same text again.
  lemma {:induction false} FrozenReloads(v: Value, c: Codec)
    requires Sound(v) && Faithful(c) && FreezeValue(v, c).Ok?
    ensures
      var text := FreezeValue(v, c).value;
      && Parse(text, c).Some? && Parse(text, c).value.1 == ""
      && Sound(Parse(text, c).value.0)
      && FreezeValue(Parse(text, c).value.0, c) == Ok(text)
  {
    FreezeDecided(v, c);
    GuardInRange(v);
    CanonicalReads(v, c);
    var back := Reread(Normal(v), c);
    GuardInRange(back);
    CanonicalReads(back, c);
    FreezeDecided(back, c);
  }

  /* ---------- What equal texts mean ---------- */

  // Equal JSON values: the same members in any order, numbers by binary64 value.
  ghost predicate Same(v: Value, w: Value)
    decreases v
  {
    match v
    case Num(n) => w.Num? && Double(n) == Double(w.num)
    case Arr(items) => w.Arr? && |items| == |w.items| && forall i :: 0 <= i < |items| ==> Same(items[i], w.items[i])
    case Obj(members) =>
      && w.Obj? && |members| == |w.members|
      && forall i :: 0 <= i < |members| ==>
           exists j :: 0 <= j < |w.members| && members[i].key == w.members[j].key
               && Same(members[i].value, w.members[j].value)
    case _ => v == w
  }

  ghost predicate SameMember(m: Member, n: Member) {
    m.key == n.key && Same(m.value, n.value)
  }

  ghost predicate SameMembers(ms: seq<Member>, ns: seq<Member>) {
    |ms| == |ns| && forall i :: 0 <= i < |ms| ==> exists j :: 0 <= j < |ns| && SameMember(ms[i], ns[j])
  }

  lemma {:induction false} SameObj(ms: seq<Member>, ns: seq<Member>)
    ensures Same(Obj(ms), Obj(ns)) <==> SameMembers(ms, ns)
  {
    var v, w := Obj(ms), Obj(ns);
    assert Same(v, w) <==>
      && |v.members| == |w.members|
      && forall i :: 0 <= i < |v.members| ==>
           exists j :: 0 <= j < |w.members| && v.members[i].key == w.members[j].key
               && Same(v.members[i].value, w.members[j].value);
    if SameMembers(ms, ns) {
      forall i | 0 <= i < |v.members|
        ensures exists j ::
          0 <= j < |w.members| && v.members[i].key == w.members[j].key && Same(v.members[i].value, w.members[j].value)
      {
        var j :| 0 <= j < |ns| && SameMember(ms[i], ns[j]);
        assert v.members[i].key == w.members[j].key;
      }
    }
    if Same(v, w) {
      forall i | 0 <= i < |ms| ensures exists j :: 0 <= j < |ns| && SameMember(ms[i], ns[j]) {
        assert v.members[i] == ms[i];
        var j :| 0 <= j < |w.members| && v.members[i].key == w.members[j].key
            && Same(v.members[i].value, w.members[j].value);
        assert SameMember(ms[i], ns[j]);
      }
    }
  }

  lemma {:induction false} SameIffNormal(v: Value, w: Value)
    requires Sound(v) && InRange(v) && Sound(w) && InRange(w)
    ensures Same(v, w) <==> Normal(v) == Normal(w)
    decreases v
  {
    match v {
      case Num(n) =>
      case Arr(items) =>
        if w.Arr? && |items| == |w.items| {
          var a, b := Normal(v).items, Normal(w).items;
          forall i | 0 <= i < |items| ensures Same(items[i], w.items[i]) <==> a[i] == b[i] {
            SameIffNormal(items[i], w.items[i]);
          }
          assert a == b <==> forall i :: 0 <= i < |items| ==> a[i] == b[i];
        } else if w.Arr? {
          assert |Normal(v).items| != |Normal(w).items|;
        }
      case Obj(members) =>
        if w.Obj? {
          SameObj(members, w.members);
          SameMembersIffNormal(members, w.members);
          assert Normal(v) == Obj(Sort(NormalMembers(members)));
          assert Normal(w) == Obj(Sort(NormalMembers(w.members)));
        }
      case _ =>
    }
  }

  lemma {:induction false} GuardedNumber(n: Number)
    requires n.Int? ==> Numbers.Guarded(n.n)
    ensures Double(n).Some?
  {
    if n.Int? {
      Numbers.GuardedIsExact(n.n);
    }
  }

  ghost predicate MembersSound(ms: seq<Member>) {
    DistinctKeys(ms) && forall i :: 0 <= i < |ms| ==> Sound(ms[i].value) && InRange(ms[i].value)
  }

  lemma {:induction false} SameMembersIffNormal(ms: seq<Member>, ns: seq<Member>)
    requires MembersSound(ms) && MembersSound(ns)
    ensures SameMembers(ms, ns) <==> Sort(NormalMembers(ms)) == Sort(NormalMembers(ns))
    decreases ms
  {
    var a, b := NormalMembers(ms), NormalMembers(ns);
    SortSorted(a);
    SortSorted(b);
    forall i, j | 0 <= i < |ms| && 0 <= j < |ns| ensures SameMember(ms[i], ns[j]) <==> a[i] == b[j] {
      SameIffNormal(ms[i].value, ns[j].value);
    }
    if SameMembers(ms, ns) {
      forall x | x in Sort(a) ensures x in Sort(b) {
        var i :| 0 <= i < |a| && a[i] == x;
        var j :| 0 <= j < |ns| && SameMember(ms[i], ns[j]);
        assert b[j] == x;
      }
      SortedSubset(Sort(a), Sort(b));
    }
    if Sort(a) == Sort(b) {
      forall i | 0 <= i < |ms| ensures exists j :: 0 <= j < |ns| && SameMember(ms[i], ns[j]) {
        assert a[i] in Sort(b);
        var j :| 0 <= j < |b| && b[j] == a[i];
        assert SameMember(ms[i], ns[j]);
      }
    }
  }

  // Two accepted values have the same frozen text exactly when they are the same JSON value up to
  // member order.
  lemma {:induction false} SameTextIffSameValue(v: Value, w: Value, c: Codec)
    requires Sound(v) && Sound(w) && Faithful(c) && FreezeValue(v, c).Ok? && FreezeValue(w, c).Ok?
    ensures FreezeValue(v, c) == FreezeValue(w, c) <==> Same(v, w)
  {
    FreezeDecided(v, c);
    FreezeDecided(w, c);
    GuardInRange(v);
    GuardInRange(w);
    CanonicalReads(v, c);
    CanonicalReads(w, c);
    SameIffNormal(v, w);
  }

  // An accepted integer is the number its text says: no other accepted integer shares its text.
  lemma {:induction false} AcceptedIntegersNeverCollide(m: int, n: int, c: Codec)
    requires Faithful(c) && FreezeValue(Num(Int(m)), c).Ok? && FreezeValue(Num(Int(n)), c).Ok?
    requires FreezeValue(Num(Int(m)), c) == FreezeValue(Num(Int(n)), c)
    ensures m == n
  {
    SameTextIffSameValue(Num(Int(m)), Num(Int(n)), c);
    FreezeDecided(Num(Int(m)), c);
    FreezeDecided(Num(Int(n)), c);
    Numbers.GuardedIsExact(m);
    Numbers.GuardedIsExact(n);
    RealsInjective(m, n);
  }

  lemma {:induction false} RealsInjective(m: int, n: int)
    ensures m as real == n as real ==> m == n
  {
    assert (m as real).Floor == m && (n as real).Floor == n;
  }

  /* ---------- Invocations ---------- */

  // A complete invocation with its revision hash as text.
  datatype Payload = Payload(action: string, target: string, arguments: seq<Member>, preconditions: seq<Value>,
          revisionHash: string)

  function ToJson(p: Payload): Value {
    Obj([Member("action", Str(p.action)), Member("target", Str(p.target)), Member("arguments", Obj(p.arguments)),
         Member("preconditions", Arr(p.preconditions)), Member("runbook_revision_hash", Str(p.revisionHash))])
  }

  predicate HasKey(ms: seq<Member>, key: string) {
    exists i :: 0 <= i < |ms| && ms[i].key == key
  }

  function Lookup(ms: seq<Member>, key: string): (v: Value)
    requires HasKey(ms, key)
    ensures exists i :: 0 <= i < |ms| && ms[i] == Member(key, v)
  {
    if ms[0].key == key then assert ms[0] == Member(key, ms[0].value); ms[0].value
    else
      assert HasKey(ms[1..], key) by {
        var i :| 0 <= i < |ms| && ms[i].key == key;
        assert ms[1..][i - 1].key == key;
      }
      var v := Lookup(ms[1..], key);
      assert exists i :: 0 <= i < |ms| && ms[i] == Member(key, v) by {
        var i :| 0 <= i < |ms[1..]| && ms[1..][i] == Member(key, v);
        assert ms[i + 1] == Member(key, v);
      }
      v
  }

  // from_frozen_json: exactly the five keys, with texts, an object and a list where they belong.
  function FromJson(v: Value): Result<Payload, Fault> {
    if !v.Obj? then Err(WrongShape)
    else
      var ms := v.members;
      if |ms| != 5 || !HasKey(ms, "action") || !HasKey(ms, "target") || !HasKey(ms, "arguments")
          || !HasKey(ms, "preconditions")
         || !HasKey(ms, "runbook_revision_hash") then Err(WrongShape)
      else
        var (action, target, arguments) := (Lookup(ms, "action"), Lookup(ms, "target"), Lookup(ms, "arguments"));
        var (preconditions, hash) := (Lookup(ms, "preconditions"), Lookup(ms, "runbook_revision_hash"));
        if !action.Str? || !target.Str? || !hash.Str? || !arguments.Obj? || !preconditions.Arr? then Err(WrongShape)
        else Ok(Payload(action.s, target.s, arguments.members, preconditions.items, hash.s))
  }

  function FreezeInvocation(p: Payload, c: Codec): Result<string, Fault> {
    FreezeValue(ToJson(p), c)
  }

  function LoadInvocation(text: string, c: Codec): Result<Payload, Fault> {
    var v := Parse(text, c);
    if v.None? || v.value.1 != "" then Err(Unreadable) else FromJson(v.value.0)
  }

  // The stored text must re-derive the stored digest (here: the text itself).
  function CheckStored(text: string, c: Codec): Result<Payload, Fault> {
    var p := LoadInvocation(text, c);
    if p.Err? then p
    else
      var again := FreezeInvocation(p.value, c);
      if again == Ok(text) then p else Err(DoesNotRoundTrip)
  }

  lemma {:induction false} SameKeepsKeys(ms: seq<Member>, ns: seq<Member>, key: string)
    requires SameMembers(ms, ns) && DistinctKeys(ns)
    requires HasKey(ms, key) && DistinctKeys(ms)
    ensures HasKey(ns, key) && Same(Lookup(ms, key), Lookup(ns, key))
  {
    var i :| 0 <= i < |ms| && ms[i] == Member(key, Lookup(ms, key));
    var j :| 0 <= j < |ns| && SameMember(ms[i], ns[j]);
    assert ns[j].key == key;
    var k :| 0 <= k < |ns| && ns[k] == Member(key, Lookup(ns, key));
    assert j == k;
  }

  lemma {:induction false} FieldsOf(p: Payload)
    ensures
      var ms := ToJson(p).members;
      && HasKey(ms, "action") && Lookup(ms, "action") == Str(p.action)
      && HasKey(ms, "target") && Lookup(ms, "target") == Str(p.target)
      && HasKey(ms, "arguments") && Lookup(ms, "arguments") == Obj(p.arguments)
      && HasKey(ms, "preconditions") && Lookup(ms, "preconditions") == Arr(p.preconditions)
      && HasKey(ms, "runbook_revision_hash") && Lookup(ms, "runbook_revision_hash") == Str(p.revisionHash)
      && DistinctKeys(ms)
  {
    var ms := ToJson(p).members;
    assert ms[0].key == "action" && ms[1].key == "target" && ms[2].key == "arguments" && ms[3].key == "preconditions"
           && ms[4].key == "runbook_revision_hash";
    assert DistinctKeys(ms) by {
      assert |ms[0].key| == 6 && |ms[1].key| == 6 && |ms[2].key| == 9 && |ms[3].key| == 13 && |ms[4].key| == 21;
      assert ms[0].key[0] != ms[1].key[0];
    }
  }

  lemma {:induction false} FieldSame(p: Payload, v: Value, key: string, expected: Value)
    requires Same(ToJson(p), v) && Sound(v)
    requires HasKey(ToJson(p).members, key) && Lookup(ToJson(p).members, key) == expected
        && DistinctKeys(ToJson(p).members)
    ensures v.Obj? && |v.members| == 5 && HasKey(v.members, key) && Same(expected, Lookup(v.members, key))
  {
    assert |ToJson(p).members| == 5 && v.Obj?;
    hide ToJson, Lookup;
    SameObj(ToJson(p).members, v.members);
    SameKeepsKeys(ToJson(p).members, v.members, key);
  }

  lemma {:induction false} SameShape(v: Value, w: Value)
    requires Same(v, w)
    ensures (v.Str? ==> w == v) && (v.Obj? ==> w.Obj?) && (v.Arr? ==> w.Arr?)
  {
  }

  // A value equal to an invocation's JSON, up to member order, loads as that invocation.
  lemma {:induction false} SameLoads(p: Payload, v: Value)
    requires Same(ToJson(p), v) && Sound(v)
    ensures FromJson(v).Ok?
    ensures
      var q := FromJson(v).value;
      && q.action == p.action && q.target == p.target && q.revisionHash == p.revisionHash
      && Same(Obj(p.arguments), Obj(q.arguments)) && Same(Arr(p.preconditions), Arr(q.preconditions))
  {
    hide ToJson, Lookup, Same, Sound, HasKey, DistinctKeys;
    FieldsOf(p);
    FieldSame(p, v, "action", Str(p.action));
    FieldSame(p, v, "target", Str(p.target));
    FieldSame(p, v, "arguments", Obj(p.arguments));
    FieldSame(p, v, "preconditions", Arr(p.preconditions));
    FieldSame(p, v, "runbook_revision_hash", Str(p.revisionHash));
    var ns := v.members;
    SameShape(Str(p.action), Lookup(ns, "action"));
    SameShape(Str(p.target), Lookup(ns, "target"));
    SameShape(Obj(p.arguments), Lookup(ns, "arguments"));
    SameShape(Arr(p.preconditions), Lookup(ns, "preconditions"));
    SameShape(Str(p.revisionHash), Lookup(ns, "runbook_revision_hash"));
  }

  lemma {:induction false} LookupSound(ms: seq<Member>, key: string)
    requires HasKey(ms, key) && forall i :: 0 <= i < |ms| ==> Sound(ms[i].value) && Guard(ms[i].value)
    ensures Sound(Lookup(ms, key)) && Guard(Lookup(ms, key))
  {
    var v := Lookup(ms, key);
    var i :| 0 <= i < |ms| && ms[i] == Member(key, v);
    hide Lookup;
  }

  lemma {:induction false} LoadedSound(v: Value)
    requires Sound(v) && Guard(v) && FromJson(v).Ok?
    ensures
      var q := FromJson(v).value;
      Sound(Obj(q.arguments)) && Guard(Obj(q.arguments)) && Sound(Arr(q.preconditions)) && Guard(Arr(q.preconditions))
  {
    assert forall i :: 0 <= i < |v.members| ==> Sound(v.members[i].value) && Guard(v.members[i].value);
    hide Lookup, HasKey, Sound, Guard;
    LookupSound(v.members, "arguments");
    LookupSound(v.members, "preconditions");
  }

  lemma {:induction false} JsonSound(p: Payload)
    requires Sound(Obj(p.arguments)) && Guard(Obj(p.arguments)) && Sound(Arr(p.preconditions))
        && Guard(Arr(p.preconditions))
    ensures Sound(ToJson(p)) && Guard(ToJson(p))
  {
    FieldsOf(p);
    hide Lookup, HasKey;
  }

  lemma {:induction false} JsonSame(p: Payload, q: Payload)
    requires q.action == p.action && q.target == p.target && q.revisionHash == p.revisionHash
    requires Same(Obj(p.arguments), Obj(q.arguments)) && Same(Arr(p.preconditions), Arr(q.preconditions))
    ensures Same(ToJson(p), ToJson(q))
  {
    var ms, ns := ToJson(p).members, ToJson(q).members;
    assert SameMember(ms[0], ns[0]) && SameMember(ms[1], ns[1]) && SameMember(ms[2], ns[2]) && SameMember(ms[3], ns[3])
           && SameMember(ms[4], ns[4]);
    hide Same, SameMember;
    assert SameMembers(ms, ns) by {
      forall i | 0 <= i < |ms| ensures exists j :: 0 <= j < |ns| && SameMember(ms[i], ns[j]) {
        assert SameMember(ms[i], ns[i]);
      }
    }
    SameObj(ms, ns);
  }

  lemma {:induction false} ReadBackSame(v: Value, c: Codec)
    requires Sound(v) && Faithful(c) && FreezeValue(v, c).Ok?
    ensures Parse(FreezeValue(v, c).value, c).Some? && Parse(FreezeValue(v, c).value, c).value.1 == ""
    ensures
      var w := Parse(FreezeValue(v, c).value, c).value.0;
      Guard(v) && Sound(w) && Guard(w) && Same(v, w) && Normal(w) == Normal(v)
  {
    hide Same, Sound, Guard, Parse, Normal, Write, Faithful, Writable, InRange;
    FreezeDecided(v, c);
    GuardInRange(v);
    CanonicalReads(v, c);
    var w := Parse(FreezeValue(v, c).value, c).value.0;
    GuardInRange(w);
    SameIffNormal(v, w);
  }

  lemma {:induction false} ReloadedPayload(p: Payload, v: Value, c: Codec)
    requires Sound(ToJson(p)) && Guard(ToJson(p)) && FreezeInvocation(p, c).Ok?
    requires Sound(v) && Guard(v) && Same(ToJson(p), v)
    ensures FromJson(v).Ok?
    ensures FreezeInvocation(FromJson(v).value, c) == FreezeInvocation(p, c)
    ensures Same(ToJson(p), ToJson(FromJson(v).value))
  {
    hide ToJson, FromJson, Same, Sound, Guard, Normal, FreezeValue, InRange;
    SameLoads(p, v);
    LoadedSound(v);
    var q := FromJson(v).value;
    JsonSound(q);
    JsonSame(p, q);
    GuardInRange(ToJson(p));
    GuardInRange(ToJson(q));
    SameIffNormal(ToJson(p), ToJson(q));
    SameText(ToJson(p), ToJson(q), c);
  }

  // An accepted invocation comes back from storage as the same invocation, and re-deriving its
  // digest never takes it for tampered.
  lemma {:induction false} InvocationReloads(p: Payload, c: Codec)
    requires Sound(ToJson(p)) && Faithful(c) && FreezeInvocation(p, c).Ok?
    ensures
      var text := FreezeInvocation(p, c).value;
      && CheckStored(text, c).Ok?
      && FreezeInvocation(CheckStored(text, c).value, c) == Ok(text)
      && Same(ToJson(p), ToJson(CheckStored(text, c).value))
  {
    hide ToJson, FromJson, Same, Sound, Guard, Parse, Normal, Faithful, FreezeValue;
    ReadBackSame(ToJson(p), c);
    ReloadedPayload(p, Parse(FreezeInvocation(p, c).value, c).value.0, c);
  }

  lemma {:induction false} SameText(v: Value, w: Value, c: Codec)
    requires FreezeValue(v, c).Ok? && Guard(w) && Normal(v) == Normal(w)
    ensures FreezeValue(w, c) == FreezeValue(v, c)
  {
    hide Parse, Write, Normal, Guard;
  }
}
