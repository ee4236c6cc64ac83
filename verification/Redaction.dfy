// Write-time redaction of audit payloads: what it hides, what it keeps, when it refuses, and that
// the owner a start record names can be read back from the stored text.
module Redaction {
  import opened Wrappers
  import opened Json
  import opened JsonText
  import opened Freeze

  const MARKER := "__redacted__"
  const FINGERPRINT := "fingerprint"

  // `fold` lower-cases a text.
  datatype Keys = Keys(roots: set<string>, fold: string -> string)

  // The keyed fingerprint of a value; None when it cannot be serialized.
  type Fingerprinter = Value -> Option<string>

  datatype RedactFault = MarkerReserved | NotSerializable

  predicate Contains(text: string, part: string) {
    |part| <= |text| && (text[..|part|] == part || (text != "" && Contains(text[1..], part)))
  }

  function Stripped(s: string): string {
    if s == "" then "" else (if s[0] in "_- " then "" else [s[0]]) + Stripped(s[1..])
  }

  function Normalized(k: Keys, key: string): string {
    Stripped(k.fold(key))
  }

  predicate Sensitive(k: Keys, key: string) {
    exists root :: root in k.roots && Contains(Normalized(k, key), root)
  }

  function Replacement(reason: string, digest: Option<string>): Value {
    Obj([Member(MARKER, Str(reason))] + if digest.Some? then [Member(FINGERPRINT, Str(digest.value))] else [])
  }

  function Hide(v: Value, reason: string, fp: Option<Fingerprinter>): Result<Value, RedactFault> {
    if fp.None? then Ok(Replacement(reason, None))
    else
      var digest := fp.value(v);
      if digest.None? then Err(NotSerializable) else Ok(Replacement(reason, digest))
  }

  predicate Marked(ms: seq<Member>) {
    HasKey(ms, MARKER)
  }

  function Redact(v: Value, k: Keys, reason: string, fp: Option<Fingerprinter>): Result<Value, RedactFault>
    decreases v
  {
    match v
    case Obj(members) =>
      if Marked(members) then Err(MarkerReserved)
      else
        var r := RedactMembers(members, k, reason, fp);
        if r.Err? then Err(r.error) else Ok(Obj(r.value))
    case Arr(items) =>
      var r := RedactItems(items, k, reason, fp);
      if r.Err? then Err(r.error) else Ok(Arr(r.value))
    case _ => Ok(v)
  }

  function RedactMembers(ms: seq<Member>, k: Keys, reason: string, fp: Option<Fingerprinter>)
    : (r: Result<seq<Member>, RedactFault>)
    ensures r.Ok? ==> |r.value| == |ms|
    decreases ms
  {
    if ms == [] then Ok([])
    else
      var first := if Sensitive(k, ms[0].key) then Hide(ms[0].value, reason, fp)
          else Redact(ms[0].value, k, reason, fp);
      if first.Err? then Err(first.error)
      else
        var rest := RedactMembers(ms[1..], k, reason, fp);
        if rest.Err? then rest else Ok([Member(ms[0].key, first.value)] + rest.value)
  }

  function RedactItems(items: seq<Value>, k: Keys, reason: string, fp: Option<Fingerprinter>)
    : (r: Result<seq<Value>, RedactFault>)
    ensures r.Ok? ==> |r.value| == |items|
    decreases items
  {
    if items == [] then Ok([])
    else
      var first := Redact(items[0], k, reason, fp);
      if first.Err? then Err(first.error)
      else
        var rest := RedactItems(items[1..], k, reason, fp);
        if rest.Err? then rest else Ok([first.value] + rest.value)
  }

  // What happens to one member's value.
  function RedactAt(m: Member, k: Keys, reason: string, fp: Option<Fingerprinter>): Result<Value, RedactFault> {
    if Sensitive(k, m.key) then Hide(m.value, reason, fp) else Redact(m.value, k, reason, fp)
  }

  lemma {:induction false} MembersPointwise(ms: seq<Member>, k: Keys, reason: string, fp: Option<Fingerprinter>)
    ensures
      var r := RedactMembers(ms, k, reason, fp);
      && (r.Ok? <==> forall i :: 0 <= i < |ms| ==> RedactAt(ms[i], k, reason, fp).Ok?)
      && (r.Ok? ==> forall i :: 0 <= i < |ms| ==> r.value[i] == Member(ms[i].key, RedactAt(ms[i], k, reason, fp).value))
      && (r.Err? ==> exists i :: 0 <= i < |ms| && RedactAt(ms[i], k, reason, fp) == Err(r.error))
    decreases |ms|
  {
    if ms == [] {
    } else {
      MembersPointwise(ms[1..], k, reason, fp);
      hide Redact, Hide, Sensitive;
      assert forall i :: 0 < i < |ms| ==> ms[i] == ms[1..][i - 1];
      var rest := RedactMembers(ms[1..], k, reason, fp);
      if RedactAt(ms[0], k, reason, fp).Ok? && rest.Err? {
        var i :| 0 <= i < |ms[1..]| && RedactAt(ms[1..][i], k, reason, fp) == Err(rest.error);
        assert RedactAt(ms[i + 1], k, reason, fp) == Err(rest.error);
      }
    }
  }

  lemma {:induction false} ItemsPointwise(items: seq<Value>, k: Keys, reason: string, fp: Option<Fingerprinter>)
    ensures
      var r := RedactItems(items, k, reason, fp);
      && (r.Ok? <==> forall i :: 0 <= i < |items| ==> Redact(items[i], k, reason, fp).Ok?)
      && (r.Ok? ==> forall i :: 0 <= i < |items| ==> r.value[i] == Redact(items[i], k, reason, fp).value)
      && (r.Err? ==> exists i :: 0 <= i < |items| && Redact(items[i], k, reason, fp) == Err(r.error))
    decreases |items|
  {
    if items == [] {
    } else {
      ItemsPointwise(items[1..], k, reason, fp);
      hide Redact;
      assert forall i :: 0 < i < |items| ==> items[i] == items[1..][i - 1];
      var rest := RedactItems(items[1..], k, reason, fp);
      if Redact(items[0], k, reason, fp).Ok? && rest.Err? {
        var i :| 0 <= i < |items[1..]| && Redact(items[1..][i], k, reason, fp) == Err(rest.error);
        assert Redact(items[i + 1], k, reason, fp) == Err(rest.error);
      }
    }
  }

  /* ---------- Paths the walk follows ---------- */

  // The value at a path of child positions, as long as no key on the way is sensitive.
  function Follow(v: Value, path: seq<nat>, k: Keys): Option<Value>
    decreases |path|
  {
    if path == [] then Some(v)
    else
      match v
      case Arr(items) => if path[0] < |items| then Follow(items[path[0]], path[1..], k) else None
      case Obj(members) =>
        if path[0] < |members| && !Sensitive(k, members[path[0]].key) then
          Follow(members[path[0]].value, path[1..], k)
        else None
      case _ => None
  }

  predicate MarkedAt(v: Value, path: seq<nat>, k: Keys) {
    Follow(v, path, k).Some? && Follow(v, path, k).value.Obj? && Marked(Follow(v, path, k).value.members)
  }

  // An object under a sensitive key that the walk comes across.
  predicate HiddenAt(v: Value, path: seq<nat>, i: nat, k: Keys) {
    && Follow(v, path, k).Some? && Follow(v, path, k).value.Obj?
    && i < |Follow(v, path, k).value.members| && Sensitive(k, Follow(v, path, k).value.members[i].key)
  }

  // Every path the walk follows leads, in the result, to the redacted form of what it led to: a
  // value that is no container is there unchanged, under the same keys.
  lemma {:induction false} PathsPreserved(v: Value, path: seq<nat>, k: Keys, reason: string, fp: Option<Fingerprinter>)
    requires Redact(v, k, reason, fp).Ok? && Follow(v, path, k).Some?
    ensures Redact(Follow(v, path, k).value, k, reason, fp).Ok?
    ensures Follow(Redact(v, k, reason, fp).value, path, k)
        == Some(Redact(Follow(v, path, k).value, k, reason, fp).value)
    decreases |path|
  {
    if path == [] {
    } else {
      match v {
        case Arr(items) =>
          ItemsPointwise(items, k, reason, fp);
          PathsPreserved(items[path[0]], path[1..], k, reason, fp);
        case Obj(members) =>
          MembersPointwise(members, k, reason, fp);
          assert RedactAt(members[path[0]], k, reason, fp).Ok?;
          PathsPreserved(members[path[0]].value, path[1..], k, reason, fp);
      }
    }
  }

  // A fault on the walk: a reserved marker, or a value to replace that cannot be fingerprinted.
  ghost predicate FaultAt(v: Value, path: seq<nat>, i: nat, k: Keys, fp: Option<Fingerprinter>) {
    MarkedAt(v, path, k) || (HiddenAt(v, path, i, k) && Unprintable(v, path, i, k, fp))
  }

  lemma {:induction false} SuccessFindsNoFault(v: Value, path: seq<nat>, i: nat, k: Keys, reason: string,
          fp: Option<Fingerprinter>)
    ensures Redact(v, k, reason, fp).Ok? ==> !FaultAt(v, path, i, k, fp)
  {
    if Redact(v, k, reason, fp).Ok? && Follow(v, path, k).Some? {
      PathsPreserved(v, path, k, reason, fp);
      var x := Follow(v, path, k).value;
      hide Follow, Sensitive;
      if x.Obj? {
        MembersPointwise(x.members, k, reason, fp);
        if i < |x.members| {
          assert RedactAt(x.members[i], k, reason, fp).Ok?;
        }
      }
    }
  }

  // Redaction fails exactly when the walk meets the reserved marker or a value to replace that
  // cannot be fingerprinted.
  lemma {:induction false} FailsIff(v: Value, k: Keys, reason: string, fp: Option<Fingerprinter>)
    ensures Redact(v, k, reason, fp).Err? <==> exists path: seq<nat>, i: nat :: FaultAt(v, path, i, k, fp)
  {
    hide Redact, MarkedAt, HiddenAt;
    if Redact(v, k, reason, fp).Err? {
      var path, i := FaultyPath(v, k, reason, fp);
      assert FaultAt(v, path, i, k, fp);
    }
    if path: seq<nat>, i: nat :| FaultAt(v, path, i, k, fp) {
      SuccessFindsNoFault(v, path, i, k, reason, fp);
    }
  }

  // So without fingerprints only the reserved marker makes it fail.
  lemma {:induction false} FailsIffMarked(v: Value, k: Keys, reason: string)
    ensures Redact(v, k, reason, None).Err? <==> exists path: seq<nat> :: MarkedAt(v, path, k)
  {
    hide Redact, MarkedAt, HiddenAt;
    FailsIff(v, k, reason, None);
    if path: seq<nat> :| MarkedAt(v, path, k) {
      assert FaultAt(v, path, 0, k, None);
    }
  }

  predicate Unprintable(v: Value, path: seq<nat>, i: nat, k: Keys, fp: Option<Fingerprinter>)
    requires HiddenAt(v, path, i, k)
  {
    fp.Some? && fp.value(Follow(v, path, k).value.members[i].value).None?
  }

  lemma {:induction false} FaultyPath(v: Value, k: Keys, reason: string, fp: Option<Fingerprinter>)
    returns (path: seq<nat>, at: nat)
    requires Redact(v, k, reason, fp).Err?
    ensures FaultAt(v, path, at, k, fp)
    decreases v
  {
    path, at := [], 0;
    match v {
      case Obj(members) =>
        if !Marked(members) {
          MembersPointwise(members, k, reason, fp);
          var r := RedactMembers(members, k, reason, fp);
          var i: nat :| i < |members| && RedactAt(members[i], k, reason, fp) == Err(r.error);
          if Sensitive(k, members[i].key) {
            at := i;
          } else {
            var more, deep := FaultyPath(members[i].value, k, reason, fp);
            path, at := [i] + more, deep;
            assert path[1..] == more;
          }
        }
      case Arr(items) =>
        ItemsPointwise(items, k, reason, fp);
        var r := RedactItems(items, k, reason, fp);
        var i: nat :| i < |items| && Redact(items[i], k, reason, fp) == Err(r.error);
        var more, deep := FaultyPath(items[i], k, reason, fp);
        path, at := [i] + more, deep;
        assert path[1..] == more;
    }
  }

  /* ---------- Non-interference ---------- */

  // Equal except beneath sensitive keys.
  predicate EqualOutside(v: Value, w: Value, k: Keys)
    decreases v
  {
    match v
    case Arr(items) => w.Arr? && |items| == |w.items| && forall i :: 0 <= i < |items| ==>
        EqualOutside(items[i], w.items[i], k)
    case Obj(members) =>
      && w.Obj? && |members| == |w.members|
      && forall i :: 0 <= i < |members| ==>
           && members[i].key == w.members[i].key
           && (Sensitive(k, members[i].key) || EqualOutside(members[i].value, w.members[i].value, k))
    case _ => v == w
  }

  // Without fingerprints two payloads redact to the same value exactly when they are equal outside
  // the sensitive keys: nothing beneath one shows, everything else does.
  lemma {:induction false} RedactsTheSameIff(v: Value, w: Value, k: Keys, reason: string)
    requires Redact(v, k, reason, None).Ok?
    ensures EqualOutside(v, w, k) <==> Redact(w, k, reason, None) == Redact(v, k, reason, None)
    decreases v
  {
    match v {
      case Arr(items) =>
        ItemsPointwise(items, k, reason, None);
        if w.Arr? {
          ItemsPointwise(w.items, k, reason, None);
          if |items| == |w.items| {
            forall i | 0 <= i < |items|
              ensures EqualOutside(items[i], w.items[i], k)
                      <==> Redact(w.items[i], k, reason, None) == Redact(items[i], k, reason, None)
            {
              RedactsTheSameIff(items[i], w.items[i], k, reason);
            }
            SameItems(items, w.items, k, reason);
          }
        }
      case Obj(members) =>
        MembersPointwise(members, k, reason, None);
        if w.Obj? {
          MembersPointwise(w.members, k, reason, None);
          if |members| == |w.members| {
            forall i | 0 <= i < |members|
              ensures !Sensitive(k, members[i].key) ==>
                        (EqualOutside(members[i].value, w.members[i].value, k)
                         <==> Redact(w.members[i].value, k, reason, None) == Redact(members[i].value, k, reason, None))
            {
              assert RedactAt(members[i], k, reason, None).Ok?;
              if !Sensitive(k, members[i].key) {
                RedactsTheSameIff(members[i].value, w.members[i].value, k, reason);
              }
            }
            SameRedactedMembers(members, w.members, k, reason);
          }
        }
      case _ =>
    }
  }

  lemma {:induction false} SameItems(items: seq<Value>, ws: seq<Value>, k: Keys, reason: string)
    requires |items| == |ws| && RedactItems(items, k, reason, None).Ok?
    ensures RedactItems(ws, k, reason, None) == RedactItems(items, k, reason, None)
            <==> forall i :: 0 <= i < |items| ==> Redact(ws[i], k, reason, None) == Redact(items[i], k, reason, None)
  {
    ItemsPointwise(items, k, reason, None);
    ItemsPointwise(ws, k, reason, None);
    var r, q := RedactItems(items, k, reason, None), RedactItems(ws, k, reason, None);
    hide Redact, RedactItems;
    if forall i :: 0 <= i < |items| ==> Redact(ws[i], k, reason, None) == Redact(items[i], k, reason, None) {
      assert q.value == r.value;
    }
    if q == r {
      forall i | 0 <= i < |items| ensures Redact(ws[i], k, reason, None) == Redact(items[i], k, reason, None) {
        assert q.value[i] == r.value[i];
      }
    }
  }

  lemma {:induction false} SameRedactedMembers(ms: seq<Member>, ws: seq<Member>, k: Keys, reason: string)
    requires |ms| == |ws| && RedactMembers(ms, k, reason, None).Ok?
    ensures RedactMembers(ws, k, reason, None) == RedactMembers(ms, k, reason, None)
            <==> forall i :: 0 <= i < |ms| ==>
                   && ws[i].key == ms[i].key
                   && (Sensitive(k, ms[i].key)
                       || Redact(ws[i].value, k, reason, None) == Redact(ms[i].value, k, reason, None))
  {
    MembersPointwise(ms, k, reason, None);
    MembersPointwise(ws, k, reason, None);
    var r, q := RedactMembers(ms, k, reason, None), RedactMembers(ws, k, reason, None);
    hide Redact, RedactMembers, Sensitive;
    if forall i :: 0 <= i < |ms| ==>
         ws[i].key == ms[i].key
         && (Sensitive(k, ms[i].key) || Redact(ws[i].value, k, reason, None) == Redact(ms[i].value, k, reason, None)) {
      forall i | 0 <= i < |ms| ensures RedactAt(ws[i], k, reason, None) == RedactAt(ms[i], k, reason, None) {
      }
      assert q.value == r.value;
    }
    if q == r {
      forall i | 0 <= i < |ms|
        ensures ws[i].key == ms[i].key
                && (Sensitive(k, ms[i].key)
                    || Redact(ws[i].value, k, reason, None) == Redact(ms[i].value, k, reason, None))
      {
        assert q.value[i] == r.value[i];
        assert RedactAt(ws[i], k, reason, None).Ok? && RedactAt(ms[i], k, reason, None).Ok?;
      }
    }
  }

  /* ---------- Fingerprints ---------- */

  // A redacted value with the fingerprints taken out of its replacements.
  function Plain(v: Value): Value
    decreases v
  {
    match v
    case Obj(members) =>
      if members != [] && members[0].key == MARKER then Obj([members[0]])
      else Obj(seq(|members|, i requires 0 <= i < |members| => Member(members[i].key, Plain(members[i].value))))
    case Arr(items) => Arr(seq(|items|, i requires 0 <= i < |items| => Plain(items[i])))
    case _ => v
  }

  lemma {:induction false} PlainReplacement(reason: string, digest: Option<string>)
    ensures Plain(Replacement(reason, digest)) == Replacement(reason, None)
  {
    assert Replacement(reason, None).members == [Member(MARKER, Str(reason))];
    assert Replacement(reason, digest).members[0] == Member(MARKER, Str(reason));
  }

  lemma {:induction false} PlainWithout(v: Value, k: Keys, reason: string, f: Fingerprinter)
    requires Redact(v, k, reason, Some(f)).Ok?
    ensures Redact(v, k, reason, None) == Ok(Plain(Redact(v, k, reason, Some(f)).value))
    decreases v
  {
    match v {
      case Arr(items) =>
        ItemsPointwise(items, k, reason, Some(f));
        ItemsPointwise(items, k, reason, None);
        forall i | 0 <= i < |items|
          ensures Redact(items[i], k, reason, None) == Ok(Plain(Redact(items[i], k, reason, Some(f)).value))
        {
          PlainWithout(items[i], k, reason, f);
        }
        assert RedactItems(items, k, reason, None).value == Plain(Redact(v, k, reason, Some(f)).value).items;
      case Obj(members) =>
        MembersPointwise(members, k, reason, Some(f));
        MembersPointwise(members, k, reason, None);
        forall i | 0 <= i < |members|
          ensures RedactAt(members[i], k, reason, None) == Ok(Plain(RedactAt(members[i], k, reason, Some(f)).value))
        {
          assert RedactAt(members[i], k, reason, Some(f)).Ok?;
          if Sensitive(k, members[i].key) {
            PlainReplacement(reason, f(members[i].value));
          } else {
            PlainWithout(members[i].value, k, reason, f);
          }
        }
        var r := RedactMembers(members, k, reason, Some(f)).value;
        assert r != [] ==> r[0].key != MARKER by {
          assert r != [] ==> members[0].key == r[0].key;
          assert !HasKey(members, MARKER);
        }
        assert RedactMembers(members, k, reason, None).value == Plain(Obj(r)).members;
      case _ =>
    }
  }

  // Payloads that differ only beneath sensitive keys redact to values that differ only in their
  // fingerprints.
  lemma {:induction false} DifferOnlyInFingerprints(v: Value, w: Value, k: Keys, reason: string, f: Fingerprinter)
    requires Redact(v, k, reason, Some(f)).Ok? && Redact(w, k, reason, Some(f)).Ok?
    ensures EqualOutside(v, w, k) <==>
            Plain(Redact(v, k, reason, Some(f)).value) == Plain(Redact(w, k, reason, Some(f)).value)
  {
    PlainWithout(v, k, reason, f);
    PlainWithout(w, k, reason, f);
    RedactsTheSameIff(v, w, k, reason);
  }

  /* ---------- The owner of a start ---------- */

  const OWNER_KEY := "owner_id"

  datatype StartPayload = StartPayload(scriptPath: string, scriptSha: string, bindingDigest: string, profileId: string,
                                       owner: string, observations: seq<Value>)

  // The gate's pre-execution payload.
  function StartJson(p: StartPayload): Value {
    Obj([Member("phase", Str("pre-execution")), Member("script_path", Str(p.scriptPath)),
        Member("script_sha256", Str(p.scriptSha)),
         Member("execution_binding_digest", Str(p.bindingDigest)), Member("runner_profile_id", Str(p.profileId)),
         Member(OWNER_KEY, Str(p.owner)), Member("observations", Arr(p.observations))])
  }

  // What crash recovery reads back from the stored text: the owner's id, or nothing.
  function OwnerOf(text: string, c: Codec): string {
    var v := Parse(text, c);
    if v.None? || v.value.1 != "" || !v.value.0.Obj? || !HasKey(v.value.0.members, OWNER_KEY) then ""
    else
      var owner := Lookup(v.value.0.members, OWNER_KEY);
      if owner.Str? then owner.s else ""
  }

  lemma {:induction false} OwnerLookup(v: Value, w: Value)
    requires Same(v, w) && v.Obj? && HasKey(v.members, OWNER_KEY) && DistinctKeys(v.members) && Sound(w)
    ensures w.Obj? && HasKey(w.members, OWNER_KEY)
    ensures Same(Lookup(v.members, OWNER_KEY), Lookup(w.members, OWNER_KEY))
  {
    assert w.Obj?;
    SameObj(v.members, w.members);
    SameKeepsKeys(v.members, w.members, OWNER_KEY);
  }

  lemma {:induction false} StoredReads(v: Value, c: Codec)
    requires Sound(v) && InRange(v) && Faithful(c)
    ensures Parse(Canonical(v, c), c).Some? && Parse(Canonical(v, c), c).value.1 == ""
    ensures Sound(Parse(Canonical(v, c), c).value.0) && Same(v, Parse(Canonical(v, c), c).value.0)
  {
    CanonicalReads(v, c);
    var w := Parse(Canonical(v, c), c).value.0;
    SameIffNormal(v, w);
  }

  lemma {:induction false} RedactSound(v: Value, k: Keys, reason: string, fp: Option<Fingerprinter>)
    requires Sound(v) && InRange(v) && Redact(v, k, reason, fp).Ok?
    ensures Sound(Redact(v, k, reason, fp).value) && InRange(Redact(v, k, reason, fp).value)
    decreases v
  {
    match v {
      case Arr(items) =>
        ItemsPointwise(items, k, reason, fp);
        forall i | 0 <= i < |items|
          ensures Sound(Redact(items[i], k, reason, fp).value) && InRange(Redact(items[i], k, reason, fp).value)
        {
          RedactSound(items[i], k, reason, fp);
        }
      case Obj(members) =>
        MembersPointwise(members, k, reason, fp);
        forall i | 0 <= i < |members|
          ensures Sound(RedactAt(members[i], k, reason, fp).value) && InRange(RedactAt(members[i], k, reason, fp).value)
        {
          assert RedactAt(members[i], k, reason, fp).Ok?;
          if !Sensitive(k, members[i].key) {
            RedactSound(members[i].value, k, reason, fp);
          }
        }
      case _ =>
    }
  }

  lemma {:induction false} StartSound(p: StartPayload)
    requires Sound(Arr(p.observations)) && InRange(Arr(p.observations))
    ensures Sound(StartJson(p)) && InRange(StartJson(p))
    ensures HasKey(StartJson(p).members, OWNER_KEY) && StartJson(p).members[5] == Member(OWNER_KEY, Str(p.owner))
  {
    var ms := StartJson(p).members;
    assert ms[5].key == OWNER_KEY;
    assert DistinctKeys(ms) by {
      assert |ms[0].key| == 5 && |ms[1].key| == 11 && |ms[2].key| == 13 && |ms[3].key| == 24 && |ms[4].key| == 17
             && |ms[5].key| == 8 && |ms[6].key| == 12;
    }
  }

  lemma {:induction false} LookupAt(ms: seq<Member>, i: nat)
    requires DistinctKeys(ms) && i < |ms|
    ensures HasKey(ms, ms[i].key) && Lookup(ms, ms[i].key) == ms[i].value
  {
    assert ms[i].key == ms[i].key;
    var v := Lookup(ms, ms[i].key);
    var k :| 0 <= k < |ms| && ms[k] == Member(ms[i].key, v);
  }

  lemma {:induction false} RedactedOwner(p: StartPayload, k: Keys, reason: string, fp: Option<Fingerprinter>)
    requires Sound(Arr(p.observations)) && InRange(Arr(p.observations)) && Redact(StartJson(p), k, reason, fp).Ok?
    ensures
      var r := Redact(StartJson(p), k, reason, fp).value;
      && r.Obj? && HasKey(r.members, OWNER_KEY) && DistinctKeys(r.members)
      && if Sensitive(k, OWNER_KEY) then Lookup(r.members, OWNER_KEY).Obj?
         else Lookup(r.members, OWNER_KEY) == Str(p.owner)
  {
    StartSound(p);
    var ms := StartJson(p).members;
    hide StartJson, Sensitive, Lookup, HasKey;
    RedactSound(StartJson(p), k, reason, fp);
    MembersPointwise(ms, k, reason, fp);
    var r := RedactMembers(ms, k, reason, fp).value;
    assert RedactAt(ms[5], k, reason, fp).Ok?;
    assert r[5].key == OWNER_KEY && r[5].value == RedactAt(ms[5], k, reason, fp).value;
    LookupAt(r, 5);
  }

  // The owner id of a start survives redaction, serialization and parsing for any observations,
  // exactly when the configured roots do not make its key sensitive.
  lemma {:induction false} OwnerSurvivesIff(p: StartPayload, k: Keys, reason: string, fp: Option<Fingerprinter>,
          c: Codec)
    requires Faithful(c) && p.owner != ""
    requires Sound(Arr(p.observations)) && InRange(Arr(p.observations)) && Redact(StartJson(p), k, reason, fp).Ok?
    ensures
      var text := Canonical(Redact(StartJson(p), k, reason, fp).value, c);
      && (OwnerOf(text, c) == p.owner <==> !Sensitive(k, OWNER_KEY))
      && (Sensitive(k, OWNER_KEY) ==> OwnerOf(text, c) == "")
  {
    hide StartJson, Redact, Sensitive, Lookup, HasKey, Same, Sound, InRange, Parse, Canonical, DistinctKeys, Faithful,
         OwnerOf;
    var r := Redact(StartJson(p), k, reason, fp).value;
    StartSound(p);
    RedactSound(StartJson(p), k, reason, fp);
    RedactedOwner(p, k, reason, fp);
    StoredReads(r, c);
    var w := Parse(Canonical(r, c), c).value.0;
    OwnerLookup(r, w);
    SameShape(Lookup(r.members, OWNER_KEY), Lookup(w.members, OWNER_KEY));
    OwnerFound(Canonical(r, c), c, w);
  }

  lemma {:induction false} OwnerFound(text: string, c: Codec, w: Value)
    requires Parse(text, c) == Some((w, "")) && w.Obj? && HasKey(w.members, OWNER_KEY)
    ensures OwnerOf(text, c) == if Lookup(w.members, OWNER_KEY).Str? then Lookup(w.members, OWNER_KEY).s else ""
  {
    hide Parse, Lookup;
  }

  const DEFAULT_ROOTS := {"password", "secret", "token", "apikey", "authorization", "auth", "credential", "credentials",
                          "privatekey", "cookie", "session"}

  // A root does not occur in a text that lacks its first letter.
  lemma {:induction false} LacksLetter(text: string, root: string)
    requires root != "" && forall i :: 0 <= i < |text| ==> text[i] != root[0]
    ensures !Contains(text, root)
  {
    if text == "" {
    } else {
      LacksLetter(text[1..], root);
      assert |root| <= |text| ==> text[..|root|][0] == text[0];
    }
  }

  lemma {:induction false} StrippedConcat(s: string, t: string)
    ensures Stripped(s + t) == Stripped(s) + Stripped(t)
  {
    if s == "" {
      assert s + t == t;
    } else {
      assert (s + t)[1..] == s[1..] + t;
      StrippedConcat(s[1..], t);
    }
  }

  lemma {:induction false} StrippedPlain(s: string)
    requires forall i :: 0 <= i < |s| ==> s[i] !in "_- "
    ensures Stripped(s) == s
  {
    if s == "" {
    } else {
      StrippedPlain(s[1..]);
      assert s == [s[0]] + s[1..];
    }
  }

  predicate OwnerLetters(s: string) {
    forall i :: 0 <= i < |s| ==> s[i] in "ownerid"
  }

  lemma {:induction false} StrippedParts(a: string, b: string, c: string)
    requires forall i :: 0 <= i < |a| ==> a[i] !in "_- "
    requires |b| == 1 && b[0] in "_- "
    requires forall i :: 0 <= i < |c| ==> c[i] !in "_- "
    ensures Stripped((a + b) + c) == a + c
  {
    StrippedConcat(a + b, c);
    StrippedConcat(a, b);
    StrippedPlain(a);
    StrippedPlain(c);
    assert Stripped(b[1..]) == "";
  }

  lemma {:induction false} StrippedOwner()
    ensures OwnerLetters(Stripped(OWNER_KEY))
  {
    hide Stripped;
    StrippedParts("owner", "_", "id");
    assert OWNER_KEY == ("owner" + "_") + "id";
  }

  // With the default roots the owner always survives.
  lemma {:induction false} DefaultRootsSpareTheOwner(fold: string -> string)
    requires fold(OWNER_KEY) == OWNER_KEY
    ensures !Sensitive(Keys(DEFAULT_ROOTS, fold), OWNER_KEY)
  {
    hide Contains, Stripped;
    StrippedOwner();
    forall root | root in DEFAULT_ROOTS ensures !Contains(Stripped(OWNER_KEY), root) {
      assert root != "" && root[0] in "pstac";
      LacksLetter(Stripped(OWNER_KEY), root);
    }
  }
}
