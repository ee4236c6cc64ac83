// The operator's execution catalog: loading it, and resolving the one binding it gives a proposal.
module Catalog {
  import opened Wrappers
  import opened Domain

  // A catalog document whose fields have the right JSON types.
  datatype RawEntry = RawEntry(
    runbookId: string,
    revision: string,
    contentHash: Digest,
    action: string,
    target: string,
    scriptId: string,
    scriptPath: string,
    scriptSha: Digest
  )

  datatype RawCatalog = RawCatalog(profile: RunnerProfile, entries: seq<RawEntry>)

  datatype CatalogError =
    | BadProfile
    | EmptyField(index: nat)
    | DuplicateKey(index: nat)
    | ReusedScriptId(index: nat)
    | Unmapped
    | Ambiguous
    | ProfileCount

  /* ---------- load_execution_catalog ---------- */

  // `isAbsolute` is the platform's own notion of an absolute path.
  predicate ProfileOk(p: RunnerProfile, isAbsolute: string -> bool) {
    && p.profileId != "" && p.workingDirectory != ""
    && p.executable != "" && (isAbsolute(p.executable) || p.executable[0] == '/')
    && p.argv != [] && p.argv[0] == p.executable
    && (forall i :: 0 <= i < |p.argv| ==> p.argv[i] != "")
    && (forall i :: 0 <= i < |p.envAllowlist| ==> p.envAllowlist[i] != "")
    && 1 <= p.timeoutSeconds <= 3600
    && p.outputLimit >= 1024
  }

  predicate FieldsPresent(r: RawEntry) {
    && r.runbookId != "" && r.revision != "" && r.action != "" && r.target != ""
    && r.scriptId != "" && r.scriptPath != ""
  }

  function EntryOf(r: RawEntry): CatalogEntry {
    CatalogEntry(CatalogKey(r.runbookId, r.revision, r.contentHash, r.action, r.target),
                 r.scriptId, r.scriptPath, r.scriptSha)
  }

  ghost predicate EntriesOk(raw: seq<RawEntry>) {
    && (forall i :: 0 <= i < |raw| ==> FieldsPresent(raw[i]))
    && (forall i, j :: 0 <= i < j < |raw| ==>
          EntryOf(raw[i]).key != EntryOf(raw[j]).key && raw[i].scriptId != raw[j].scriptId)
  }

  // What a loaded catalog promises: every entry sits under its own key, no script id is used
  // twice, and there is exactly one runner profile, under its own id.
  ghost predicate Loaded(c: Catalog) {
    && (forall k :: k in c.entries ==> c.entries[k].key == k)
    && (forall k, l :: k in c.entries && l in c.entries && c.entries[k].scriptId == c.entries[l].scriptId ==> k == l)
    && (exists id :: c.profiles.Keys == {id} && c.profiles[id].profileId == id)
  }

  // The map holds exactly the document's entries.
  ghost predicate HoldsExactly(entries: map<CatalogKey, CatalogEntry>, raw: seq<RawEntry>) {
    && (forall i :: 0 <= i < |raw| ==>
        EntryOf(raw[i]).key in entries && entries[EntryOf(raw[i]).key] == EntryOf(raw[i]))
    && (forall key :: key in entries ==>
        exists i :: 0 <= i < |raw| && EntryOf(raw[i]) == entries[key] && entries[key].key == key)
  }

  predicate Names(key: CatalogKey, r: RawEntry) {
    key == CatalogKey(r.runbookId, r.revision, r.contentHash, r.action, r.target)
  }

  // Field by field: each entry under the five fields of its key, and nothing else.
  ghost predicate Maps(entries: map<CatalogKey, CatalogEntry>, raw: seq<RawEntry>) {
    && (forall i :: 0 <= i < |raw| ==>
          var r := raw[i];
          var key := CatalogKey(r.runbookId, r.revision, r.contentHash, r.action, r.target);
          key in entries && entries[key] == CatalogEntry(key, r.scriptId, r.scriptPath, r.scriptSha))
    && (forall key :: key in entries ==> exists i :: 0 <= i < |raw| && Names(key, raw[i]))
  }

  lemma {:induction false} HeldIsMapped(entries: map<CatalogKey, CatalogEntry>, raw: seq<RawEntry>)
    requires HoldsExactly(entries, raw)
    ensures Maps(entries, raw)
  {
    forall key | key in entries
      ensures exists i :: 0 <= i < |raw| && Names(key, raw[i])
    {
      var i :| 0 <= i < |raw| && EntryOf(raw[i]) == entries[key] && entries[key].key == key;
      assert Names(key, raw[i]);
    }
  }

  ghost predicate ScriptIdsAre(ids: set<string>, raw: seq<RawEntry>) {
    forall id :: id in ids <==> exists i :: 0 <= i < |raw| && raw[i].scriptId == id
  }

  lemma {:induction false} EntryAdded(entries: map<CatalogKey, CatalogEntry>, ids: set<string>, raw: seq<RawEntry>,
          item: RawEntry)
    requires EntriesOk(raw) && HoldsExactly(entries, raw) && ScriptIdsAre(ids, raw)
    requires FieldsPresent(item) && EntryOf(item).key !in entries && item.scriptId !in ids
    ensures EntriesOk(raw + [item])
    ensures HoldsExactly(entries[EntryOf(item).key := EntryOf(item)], raw + [item])
    ensures ScriptIdsAre(ids + {item.scriptId}, raw + [item])
  {
    hide FieldsPresent;
    assert forall i :: 0 <= i < |raw| ==> EntryOf(raw[i]).key != EntryOf(item).key && raw[i].scriptId != item.scriptId;
    KeyAdded(entries, raw, item);
    IdAdded(ids, raw, item);
    hide HoldsExactly, ScriptIdsAre, EntryOf;
  }

  lemma {:induction false} KeyAdded(entries: map<CatalogKey, CatalogEntry>, raw: seq<RawEntry>, item: RawEntry)
    requires HoldsExactly(entries, raw) && EntryOf(item).key !in entries
    ensures HoldsExactly(entries[EntryOf(item).key := EntryOf(item)], raw + [item])
  {
    var (next, added) := (raw + [item], entries[EntryOf(item).key := EntryOf(item)]);
    assert next[|raw|] == item;
    assert forall i :: 0 <= i < |raw| ==> next[i] == raw[i];
    hide EntryOf;
    forall key | key in entries
      ensures exists i :: 0 <= i < |next| && EntryOf(next[i]) == added[key] && added[key].key == key {
      var i :| 0 <= i < |raw| && EntryOf(raw[i]) == entries[key] && entries[key].key == key;
      assert EntryOf(next[i]) == added[key];
    }
  }

  lemma {:induction false} IdAdded(ids: set<string>, raw: seq<RawEntry>, item: RawEntry)
    requires ScriptIdsAre(ids, raw)
    ensures ScriptIdsAre(ids + {item.scriptId}, raw + [item])
  {
    var next := raw + [item];
    assert next[|raw|] == item;
    forall id | id in ids ensures exists i :: 0 <= i < |next| && next[i].scriptId == id {
      var i :| 0 <= i < |raw| && raw[i].scriptId == id;
      assert next[i].scriptId == id;
    }
  }

  lemma {:induction false} Repeated(entries: map<CatalogKey, CatalogEntry>, ids: set<string>, raw: seq<RawEntry>,
          k: nat)
    requires k < |raw| && HoldsExactly(entries, raw[..k]) && ScriptIdsAre(ids, raw[..k])
    requires EntryOf(raw[k]).key in entries || raw[k].scriptId in ids
    ensures !EntriesOk(raw)
  {
    if EntryOf(raw[k]).key in entries {
      var i :| 0 <= i < k && EntryOf(raw[..k][i]) == entries[EntryOf(raw[k]).key];
      assert EntryOf(raw[i]).key == EntryOf(raw[k]).key;
    } else {
      var i :| 0 <= i < k && raw[..k][i].scriptId == raw[k].scriptId;
      assert raw[i].scriptId == raw[k].scriptId;
    }
  }

  // Held by their own key, with no script id twice.
  lemma {:induction false} ExactIsLoaded(entries: map<CatalogKey, CatalogEntry>, raw: seq<RawEntry>, p: RunnerProfile)
    requires EntriesOk(raw) && HoldsExactly(entries, raw)
    ensures Loaded(Catalog(entries, map[p.profileId := p]))
  {
    hide FieldsPresent;
    var c := Catalog(entries, map[p.profileId := p]);
    assert c.profiles.Keys == {p.profileId};
  }

  // Loading succeeds exactly on well-formed documents, and the catalog then maps exactly the
  // document's entries.
  // The profile's fields, checked one after the other.
  method CheckProfile(p: RunnerProfile, isAbsolute: string -> bool) returns (ok: bool)
    ensures ok <==> ProfileOk(p, isAbsolute)
  {
    if p.profileId == "" || p.executable == "" || p.workingDirectory == "" || p.argv == [] {
      return false;
    }
    for i := 0 to |p.argv|
      invariant forall k :: 0 <= k < i ==> p.argv[k] != ""
    {
      if p.argv[i] == "" {
        return false;
      }
    }
    if !(isAbsolute(p.executable) || p.executable[0] == '/') || p.argv[0] != p.executable {
      return false;
    }
    for i := 0 to |p.envAllowlist|
      invariant forall k :: 0 <= k < i ==> p.envAllowlist[k] != ""
    {
      if p.envAllowlist[i] == "" {
        return false;
      }
    }
    ok := !(p.timeoutSeconds < 1 || p.timeoutSeconds > 3600 || p.outputLimit < 1024);
  }

  method Load(raw: RawCatalog, isAbsolute: string -> bool) returns (r: Result<Catalog, CatalogError>)
    ensures r.Ok? <==> ProfileOk(raw.profile, isAbsolute) && EntriesOk(raw.entries)
    ensures r.Ok? ==> Loaded(r.value) && Maps(r.value.entries, raw.entries)
    ensures r.Ok? ==> r.value.profiles == map[raw.profile.profileId := raw.profile]
  {
    hide ProfileOk, HoldsExactly, ScriptIdsAre, Loaded, Maps;
    var profileOk := CheckProfile(raw.profile, isAbsolute);
    if !profileOk {
      return Err(BadProfile);
    }
    var entries: map<CatalogKey, CatalogEntry> := map[];
    var scriptIds: set<string> := {};
    NothingHeld();
    for i := 0 to |raw.entries|
      invariant EntriesOk(raw.entries[..i]) && HoldsExactly(entries, raw.entries[..i])
          && ScriptIdsAre(scriptIds, raw.entries[..i])
    {
      var item := raw.entries[i];
      var entry := EntryOf(item);
      if item.runbookId == "" || item.revision == "" || item.action == "" || item.target == "" || item.scriptId == ""
         || item.scriptPath == "" {
        return Err(EmptyField(i));
      }
      if entry.key in entries {
        Repeated(entries, scriptIds, raw.entries, i);
        return Err(DuplicateKey(i));
      }
      if entry.scriptId in scriptIds {
        Repeated(entries, scriptIds, raw.entries, i);
        return Err(ReusedScriptId(i));
      }
      EntryAdded(entries, scriptIds, raw.entries[..i], item);
      assert raw.entries[..i + 1] == raw.entries[..i] + [item];
      scriptIds := scriptIds + {entry.scriptId};
      entries := entries[entry.key := entry];
    }
    assert raw.entries[..|raw.entries|] == raw.entries;
    ExactIsLoaded(entries, raw.entries, raw.profile);
    HeldIsMapped(entries, raw.entries);
    r := Ok(Catalog(entries, map[raw.profile.profileId := raw.profile]));
  }

  lemma {:induction false} NothingHeld()
    ensures HoldsExactly(map[], []) && ScriptIdsAre({}, [])
  {
  }

  /* ---------- resolve_binding ---------- */

  function Key(citation: Citation, action: string, target: string): CatalogKey {
    CatalogKey(citation.runbookId, citation.revision, citation.contentHash, action, target)
  }

  function TemplateOf(e: CatalogEntry, p: RunnerProfile): BindingTemplate {
    BindingTemplate(e.key.runbookId, e.key.revision, e.key.contentHash, e.scriptId, e.scriptPath, e.scriptSha,
                    EntrySha(e), p.profileId, ProfileSha(p))
  }

  // The keys whose five parts equal the proposed ones.
  function Matching(c: Catalog, key: CatalogKey): set<CatalogKey> {
    set k | k in c.entries
         && k.runbookId == key.runbookId && k.revision == key.revision && k.contentHash == key.contentHash
         && k.action == key.action && k.target == key.target
  }

  lemma {:induction false} SingletonMembers<T>(s: set<T>, x: T, y: T)
    requires |s| == 1 && x in s && y in s
    ensures x == y
  {
    assert |s - {x}| == 0;
    assert y in s - {x} || y == x;
  }

  function Only<T(==)>(s: set<T>): (x: T)
    requires |s| == 1
    ensures s == {x}
  {
    assert exists x :: x in s by {
      assert s != {};
    }
    assert forall x, y :: x in s && y in s ==> x == y by {
      forall x, y | x in s && y in s ensures x == y {
        SingletonMembers(s, x, y);
      }
    }
    var x :| x in s;
    x
  }

  function ResolveBinding(c: Catalog, key: CatalogKey): Result<BindingTemplate, CatalogError> {
    var matches := Matching(c, key);
    if |matches| == 0 then Err(Unmapped)
    else if |matches| > 1 then Err(Ambiguous)
    else if |c.profiles| != 1 then Err(ProfileCount)
    else Ok(TemplateOf(c.entries[Only(matches)], c.profiles[Only(c.profiles.Keys)]))
  }

  // On a loaded catalog resolution is never ambiguous: it finds exactly the entry under the key.
  lemma {:induction false} NeverAmbiguous(c: Catalog, key: CatalogKey)
    requires Loaded(c)
    ensures ResolveBinding(c, key) ==
      if key in c.entries then
        var id :| id in c.profiles;
        var e := c.entries[key];
        Ok(BindingTemplate(key.runbookId, key.revision, key.contentHash, e.scriptId, e.scriptPath, e.scriptSha,
                           EntrySha(e), id, ProfileSha(c.profiles[id])))
      else Err(Unmapped)
  {
    var matches := Matching(c, key);
    if key in c.entries {
      assert matches == {key};
      assert Only(matches) in matches;
    } else {
      assert matches == {};
    }
    var id :| c.profiles.Keys == {id} && c.profiles[id].profileId == id;
    assert |c.profiles| == |c.profiles.Keys|;
    assert Only(c.profiles.Keys) in c.profiles.Keys;
  }
}
