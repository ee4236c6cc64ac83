// The order in which a frozen text lists the members of its objects: by the UTF-16 code units of
// their keys (RFC 8785, section 3.2.3).
module CanonicalOrder {
  import opened Wrappers
  import opened Json
  import opened JsonText
  import opened Freeze
  import Domain
  import Text

  /* ---------- UTF-16 ---------- */

  // The code point that one or two code units stand for.
  function PointOf(us: seq<nat>): int
    requires 1 <= |us| <= 2
  {
    if |us| == 1 then us[0] else 0x10000 + (us[0] as int - 0xD800) * 0x400 + (us[1] as int - 0xDC00)
  }

  // A character is one unit, or a high surrogate and a low one, and they stand for it.
  lemma {:induction false} UnitsStandForTheCharacter(c: char)
    ensures PointOf(Units(c)) == c as int
    ensures |Units(c)| == 1 <==> c as int < 0x10000
    ensures |Units(c)| == 2 ==> 0xD800 <= Units(c)[0] < 0xDC00 <= Units(c)[1] < 0xE000
  {
  }

  /* ---------- Ascending keys ---------- */

  // The two agree up to `k`; there one ends, or has the smaller unit.
  ghost predicate LessAt(a: seq<nat>, b: seq<nat>, k: nat) {
    && k <= |a| && k < |b| && (forall i :: 0 <= i < k ==> a[i] == b[i])
    && (k < |a| ==> a[k] < b[k])
  }

  ghost predicate KeyAscends(a: string, b: string) {
    exists k: nat :: LessAt(UnitsOf(a), UnitsOf(b), k)
  }

  lemma {:induction false} UnitsLessIff(a: seq<nat>, b: seq<nat>)
    ensures UnitsLess(a, b) <==> exists k: nat :: LessAt(a, b, k)
  {
    if a == [] || b == [] || a[0] != b[0] {
      assert b != [] && (a == [] || a[0] < b[0]) ==> LessAt(a, b, 0);
    } else {
      UnitsLessIff(a[1..], b[1..]);
      if k: nat :| LessAt(a[1..], b[1..], k) {
        assert LessAt(a, b, k + 1) by {
          assert forall i :: 0 < i < k + 1 ==> a[i] == a[1..][i - 1] && b[i] == b[1..][i - 1];
        }
      }
      if k: nat :| LessAt(a, b, k) {
        assert LessAt(a[1..], b[1..], k - 1);
      }
    }
  }

  lemma {:induction false} KeyLessIff(a: string, b: string)
    ensures KeyLess(a, b) <==> KeyAscends(a, b)
  {
    UnitsLessIff(UnitsOf(a), UnitsOf(b));
  }

  // Below the supplementary planes it is the order of the characters themselves.
  lemma {:induction false} PlainKeysOrder(a: string, b: string)
    requires forall i :: 0 <= i < |a| ==> a[i] as int < 0x10000
    requires forall i :: 0 <= i < |b| ==> b[i] as int < 0x10000
    ensures KeyLess(a, b) <==> Text.Less(a, b)
  {
    if a == "" || b == "" {
    } else {
      PlainKeysOrder(a[1..], b[1..]);
      assert UnitsOf(a)[1..] == UnitsOf(a[1..]) && UnitsOf(b)[1..] == UnitsOf(b[1..]);
    }
  }

  // But not beyond: a surrogate pair sorts before the characters above the surrogates.
  lemma {:induction false} SurrogatesSortFirst(c: char, d: char)
    requires 0xE000 <= c as int < 0x10000 <= d as int
    ensures KeyLess([d], [c]) && Text.Less([c], [d])
  {
    assert UnitsOf([d]) == Units(d) && UnitsOf([c]) == Units(c);
  }

  // Every object in the value lists its members in ascending order of their keys.
  ghost predicate Ordered(v: Value)
    decreases v
  {
    match v
    case Arr(items) => forall i :: 0 <= i < |items| ==> Ordered(items[i])
    case Obj(members) =>
      && (forall i, j :: 0 <= i < j < |members| ==> KeyAscends(members[i].key, members[j].key))
      && forall i :: 0 <= i < |members| ==> Ordered(members[i].value)
    case _ => true
  }

  lemma {:induction false} RereadOrdered(v: Value, c: Codec)
    requires IsNormal(v) && Writable(v, c)
    ensures Ordered(Reread(v, c))
    decreases v
  {
    hide KeyAscends, KeyLess;
    match v {
      case Arr(items) =>
        var back := Reread(v, c).items;
        forall i | 0 <= i < |back| ensures Ordered(back[i]) {
          RereadOrdered(items[i], c);
        }
      case Obj(members) =>
        var back := RereadMembers(members, c);
        forall i | 0 <= i < |back| ensures Ordered(back[i].value) {
          RereadOrdered(members[i].value, c);
        }
        forall i, j | 0 <= i < j < |back| ensures KeyAscends(back[i].key, back[j].key) {
          KeyLessIff(members[i].key, members[j].key);
        }
      case _ =>
    }
  }

  // A precondition is frozen with its expected value and its name, in that order.
  lemma {:induction false} PreconditionIsOrdered(p: Domain.Precondition)
    ensures
      var v := Domain.PreconditionValue(p);
      && v.Obj? && |v.members| == 2 && Ordered(v)
      && HasKey(v.members, "name") && Lookup(v.members, "name") == Str(p.name)
      && HasKey(v.members, "expected") && Lookup(v.members, "expected") == Str(p.expected)
  {
    var ms := Domain.PreconditionValue(p).members;
    assert ms[0].key == "expected" && ms[1].key == "name";
    assert UnitsOf("expected")[0] == 'e' as nat && UnitsOf("name")[0] == 'n' as nat;
    assert LessAt(UnitsOf("expected"), UnitsOf("name"), 0);
    assert KeyAscends("expected", "name");
  }

  // The text an accepted value freezes to lists the members of every object in it in that order.
  lemma {:induction false} FrozenTextIsOrdered(v: Value, c: Codec)
    requires Sound(v) && Faithful(c) && FreezeValue(v, c).Ok?
    ensures
      var text := FreezeValue(v, c).value;
      Parse(text, c).Some? && Parse(text, c).value.1 == "" && Ordered(Parse(text, c).value.0)
  {
    FreezeDecided(v, c);
    GuardInRange(v);
    CanonicalReads(v, c);
    NormalIsNormal(v);
    RereadOrdered(Normal(v), c);
  }
}
