// Which keys redaction takes for sensitive, and what it stores in place of a value under one.
module SensitiveKeys {
  import opened Wrappers
  import opened Json
  import opened Redaction
  import opened Text

  /* ---------- Sensitive keys ---------- */

  ghost predicate Occurs(text: string, pre: string, part: string, post: string) {
    text == pre + part + post
  }

  lemma {:induction false} ContainsIff(text: string, part: string)
    ensures Contains(text, part) <==> exists pre, post :: Occurs(text, pre, part, post)
  {
    if Contains(text, part) {
      var pre, post := Occurrence(text, part);
    }
    if pre, post :| Occurs(text, pre, part, post) {
      ContainsAt(pre, part, post);
    }
  }

  lemma {:induction false} Occurrence(text: string, part: string) returns (pre: string, post: string)
    requires Contains(text, part)
    ensures Occurs(text, pre, part, post)
  {
    if text[..|part|] == part {
      pre, post := "", text[|part|..];
    } else {
      pre, post := Occurrence(text[1..], part);
      pre := [text[0]] + pre;
      assert text == [text[0]] + text[1..];
    }
  }

  lemma {:induction false} ContainsAt(pre: string, part: string, post: string)
    ensures Contains(pre + part + post, part)
  {
    var text := pre + part + post;
    if pre == "" {
      assert text[..|part|] == part;
    } else {
      ContainsAt(pre[1..], part, post);
      assert text[1..] == pre[1..] + part + post;
    }
  }

  // A key is sensitive exactly when one of the roots occurs anywhere in its normalized text.
  lemma {:induction false} SensitiveIff(k: Keys, key: string)
    ensures Sensitive(k, key) <==>
      exists root, pre, post :: root in k.roots && Occurs(Normalized(k, key), pre, root, post)
  {
    hide Contains, Normalized, Occurs;
    forall root | root in k.roots
      ensures Contains(Normalized(k, key), root) <==> exists pre, post :: Occurs(Normalized(k, key), pre, root, post)
    {
      ContainsIff(Normalized(k, key), root);
    }
  }

  predicate Separator(c: char) {
    c == '_' || c == '-' || c == ' '
  }

  // `t` is what is left of `s` without separators: `picks` are the places it is taken from, in order.
  ghost predicate LeftOf(s: string, picks: seq<nat>, t: string) {
    && |t| == |picks|
    && (forall i :: 0 <= i < |picks| ==> picks[i] < |s| && !Separator(s[picks[i]]) && t[i] == s[picks[i]])
    && (forall i, j :: 0 <= i < j < |picks| ==> picks[i] < picks[j])
    && (forall p :: 0 <= p < |s| && !Separator(s[p]) ==> p in picks)
  }

  // The normalized text is the folded key without its separators.
  lemma {:induction false} NormalizedIs(k: Keys, key: string)
    ensures exists picks :: LeftOf(k.fold(key), picks, Normalized(k, key))
  {
    var picks := StrippedPicks(k.fold(key));
    assert LeftOf(k.fold(key), picks, Normalized(k, key));
  }

  lemma {:induction false} StrippedPicks(s: string) returns (picks: seq<nat>)
    ensures LeftOf(s, picks, Stripped(s))
  {
    if s == "" {
      picks := [];
    } else {
      var rest := StrippedPicks(s[1..]);
      picks := Shifted(rest);
      ShiftedLeft(s, rest, Stripped(s[1..]));
      if !Separator(s[0]) {
        FirstLeft(s, picks, Stripped(s[1..]));
        picks := [0] + picks;
      } else {
        hide Shifted, LeftOf, Separator;
        SkippedLeft(s, picks, Stripped(s[1..]));
      }
    }
  }

  function Shifted(picks: seq<nat>): (later: seq<nat>)
    ensures |later| == |picks| && forall i :: 0 <= i < |picks| ==> later[i] == picks[i] + 1
  {
    seq(|picks|, i requires 0 <= i < |picks| => picks[i] + 1)
  }

  // All but the first place of `s` are settled.
  ghost predicate LeftBehind(s: string, picks: seq<nat>, t: string) {
    && |t| == |picks|
    && (forall i :: 0 <= i < |picks| ==> 0 < picks[i] < |s| && !Separator(s[picks[i]]) && t[i] == s[picks[i]])
    && (forall i, j :: 0 <= i < j < |picks| ==> picks[i] < picks[j])
    && (forall p :: 0 < p < |s| && !Separator(s[p]) ==> p in picks)
  }

  lemma {:induction false} ShiftedLeft(s: string, rest: seq<nat>, t: string)
    requires s != "" && LeftOf(s[1..], rest, t)
    ensures LeftBehind(s, Shifted(rest), t)
  {
    var later := Shifted(rest);
    forall p | 0 < p < |s| && !Separator(s[p]) ensures p in later {
      assert s[1..][p - 1] == s[p];
      var j :| 0 <= j < |rest| && rest[j] == p - 1;
      assert later[j] == p;
    }
  }

  lemma {:induction false} FirstLeft(s: string, picks: seq<nat>, t: string)
    requires s != "" && LeftBehind(s, picks, t) && !Separator(s[0])
    ensures LeftOf(s, [0] + picks, [s[0]] + t)
  {
    var all := [0] + picks;
    assert forall p :: p in picks ==> p in all;
    assert all[0] in all;
  }

  lemma {:induction false} SkippedLeft(s: string, picks: seq<nat>, t: string)
    requires s != "" && LeftBehind(s, picks, t) && Separator(s[0])
    ensures LeftOf(s, picks, t)
  {
  }

  /* ---------- What is stored instead ---------- */

  // The marker with the reason and, if there is a fingerprint key, the value's fingerprint.
  function Stored(v: Value, reason: string, fp: Option<Fingerprinter>): Value {
    match fp
    case None => Obj([Member("__redacted__", Str(reason))])
    case Some(mark) =>
      if mark(v).None? then Null
      else Obj([Member("__redacted__", Str(reason)), Member("fingerprint", Str(mark(v).value))])
  }

  lemma {:induction false} HiddenIsStored(v: Value, reason: string, fp: Option<Fingerprinter>)
    requires Hide(v, reason, fp).Ok?
    ensures Hide(v, reason, fp).value == Stored(v, reason, fp)
  {
  }

  // Wherever the walk meets a key with a root in it, only the replacement is stored, whatever is
  // beneath.
  lemma {:induction false} ReplacedUnderRoot(v: Value, path: seq<nat>, i: nat, k: Keys, reason: string,
          fp: Option<Fingerprinter>, root: string, pre: string, post: string)
    requires Redact(v, k, reason, fp).Ok? && Follow(v, path, k).Some? && Follow(v, path, k).value.Obj?
    requires i < |Follow(v, path, k).value.members|
    requires root in k.roots && Occurs(Normalized(k, Follow(v, path, k).value.members[i].key), pre, root, post)
    ensures
      var m := Follow(v, path, k).value.members[i];
      var there := Follow(Redact(v, k, reason, fp).value, path, k);
      && there.Some? && there.value.Obj? && i < |there.value.members|
      && there.value.members[i] == Member(m.key, Stored(m.value, reason, fp))
  {
    PathsPreserved(v, path, k, reason, fp);
    var x := Follow(v, path, k).value;
    hide Follow, Sensitive, Normalized, Occurs, RedactItems, RedactMembers, Hide;
    SensitiveIff(k, x.members[i].key);
    MembersPointwise(x.members, k, reason, fp);
    assert RedactAt(x.members[i], k, reason, fp).Ok?;
    HiddenIsStored(x.members[i].value, reason, fp);
  }

  function AsciiFold(s: string): string {
    seq(|s|, i requires 0 <= i < |s| => LowerChar(s[i]))
  }

  // With the default roots these spellings, and any key that has one of these words in its
  // normalized text, are sensitive.
  lemma {:induction false} DefaultRootsHide(fold: string -> string, key: string, root: string, pre: string,
          post: string)
    requires root in {"password", "secret", "token", "apikey", "authorization", "auth", "credential", "credentials",
                      "privatekey", "cookie", "session"}
    requires Occurs(Normalized(Keys(DEFAULT_ROOTS, fold), key), pre, root, post)
    ensures Sensitive(Keys(DEFAULT_ROOTS, fold), key)
  {
    hide Normalized, Occurs, Sensitive;
    SensitiveIff(Keys(DEFAULT_ROOTS, fold), key);
  }

  lemma {:induction false} DocumentedSpellings()
    ensures
      var k := Keys(DEFAULT_ROOTS, AsciiFold);
      Sensitive(k, "access_token") && Sensitive(k, "api-key") && Sensitive(k, "authToken")
  {
    hide Stripped, Sensitive;
    assert AsciiFold("access_token") == "access_token" && AsciiFold("api-key") == "api-key";
    assert AsciiFold("authToken") == "authtoken";
    StrippedParts("access", "_", "token");
    assert "access_token" == ("access" + "_") + "token" && "access" + "token" == "accesstoken";
    StrippedParts("api", "-", "key");
    assert "api-key" == ("api" + "-") + "key" && "api" + "key" == "apikey";
    StrippedPlain("authtoken");
    assert Occurs("accesstoken", "access", "token", "");
    assert Occurs("apikey", "", "apikey", "");
    assert Occurs("authtoken", "auth", "token", "");
    DefaultRootsHide(AsciiFold, "access_token", "token", "access", "");
    DefaultRootsHide(AsciiFold, "api-key", "apikey", "", "");
    DefaultRootsHide(AsciiFold, "authToken", "token", "auth", "");
  }

  // The payload of a start record names its phase, script, binding, profile and owner.
  lemma {:induction false} StartPayloadNames(p: StartPayload)
    ensures
      var v := StartJson(p);
      && v.Obj?
      && v.members == [Member("phase", Str("pre-execution")), Member("script_path", Str(p.scriptPath)),
           Member("script_sha256", Str(p.scriptSha)), Member("execution_binding_digest", Str(p.bindingDigest)),
           Member("runner_profile_id", Str(p.profileId)), Member("owner_id", Str(p.owner)),
           Member("observations", Arr(p.observations))]
  {
  }
}
