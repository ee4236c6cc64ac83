// The operator policy's observer bindings: the registry of adapters, and the strict loading of the
// map the gate looks preconditions up in.
module PolicyLoading {
  import opened Wrappers
  import opened Domain
  import opened GateChecks

  // A binding as the policy document states it; the only setting an adapter takes is its timeout.
  datatype RawBinding = RawBinding(runbookId: string, revision: string, contentHash: Digest, index: int,
          observerId: string, timeout: int)

  datatype PolicyError = AlreadyRegistered | EmptyField(at: nat) | NegativeIndex(at: nat) | DuplicateBinding(at: nat)
                       | UnknownObserver(at: nat) | InvalidSettings(at: nat)

  // Adapters are registered by code, each with the timeouts its settings allow.
  class ObserverRegistry {
    var adapters: map<string, set<int>>

    constructor ()
      ensures adapters == map[]
    {
      adapters := map[];
    }

    // An id is registered once and never replaced.
    method Register(id: string, timeouts: set<int>) returns (fault: Option<PolicyError>)
      modifies this
      ensures fault.None? <==> id !in old(adapters)
      ensures adapters == if fault.None? then old(adapters)[id := timeouts] else old(adapters)
    {
      if id in adapters {
        return Some(AlreadyRegistered);
      }
      adapters := adapters[id := timeouts];
      fault := None;
    }
  }

  function KeyOf(b: RawBinding): ObserverKey
    requires b.index >= 0
  {
    ObserverKey(b.runbookId, b.revision, b.contentHash, b.index)
  }

  predicate BindingOk(b: RawBinding, adapters: map<string, set<int>>) {
    && b.runbookId != "" && b.revision != "" && b.observerId != "" && b.index >= 0
    && b.observerId in adapters && b.timeout in adapters[b.observerId]
  }

  ghost predicate BindingsOk(raw: seq<RawBinding>, adapters: map<string, set<int>>) {
    && (forall i :: 0 <= i < |raw| ==> raw[i].index >= 0 && BindingOk(raw[i], adapters))
    && (forall i, j :: 0 <= i < j < |raw| ==> KeyOf(raw[i]) != KeyOf(raw[j]))
  }

  // The map holds exactly the document's bindings.
  ghost predicate HoldsExactly(observers: map<ObserverKey, ObserverBinding>, raw: seq<RawBinding>) {
    && (forall i :: 0 <= i < |raw| ==>
          && raw[i].index >= 0 && KeyOf(raw[i]) in observers
          && observers[KeyOf(raw[i])] == ObserverBinding(raw[i].observerId, raw[i].timeout))
    && (forall k :: k in observers ==> exists i :: 0 <= i < |raw| && KeyOf(raw[i]) == k)
  }

  predicate Names(k: ObserverKey, b: RawBinding) {
    k.runbookId == b.runbookId && k.revision == b.revision && k.contentHash == b.contentHash && k.index == b.index
  }

  // Field by field: each binding under its revision and index, and nothing else.
  ghost predicate Maps(observers: map<ObserverKey, ObserverBinding>, raw: seq<RawBinding>) {
    && (forall i :: 0 <= i < |raw| ==>
          var b := raw[i];
          && b.index >= 0
          && var key := ObserverKey(b.runbookId, b.revision, b.contentHash, b.index);
          key in observers && observers[key] == ObserverBinding(b.observerId, b.timeout))
    && (forall k :: k in observers ==> exists i :: 0 <= i < |raw| && Names(k, raw[i]))
  }

  lemma {:induction false} HeldIsMapped(observers: map<ObserverKey, ObserverBinding>, raw: seq<RawBinding>)
    requires HoldsExactly(observers, raw)
    ensures Maps(observers, raw)
  {
    forall k | k in observers
      ensures exists i :: 0 <= i < |raw| && Names(k, raw[i])
    {
      var i :| 0 <= i < |raw| && KeyOf(raw[i]) == k;
      assert Names(k, raw[i]);
    }
  }

  // Loading succeeds exactly when every binding is valid and no precondition is bound twice.
  method LoadBindings(raw: seq<RawBinding>, registry: ObserverRegistry)
    returns (r: Result<map<ObserverKey, ObserverBinding>, PolicyError>)
    ensures r.Ok? <==> BindingsOk(raw, registry.adapters)
    ensures r.Ok? ==> Maps(r.value, raw)
  {
    var observers: map<ObserverKey, ObserverBinding> := map[];
    for i := 0 to |raw|
      invariant BindingsOk(raw[..i], registry.adapters)
      invariant HoldsExactly(observers, raw[..i])
    {
      var b := raw[i];
      if b.runbookId == "" || b.revision == "" || b.observerId == "" {
        return Err(EmptyField(i));
      }
      if b.index < 0 {
        return Err(NegativeIndex(i));
      }
      if KeyOf(b) in observers {
        ghost var k :| 0 <= k < i && KeyOf(raw[..i][k]) == KeyOf(b);
        assert raw[..i][k] == raw[k];
        return Err(DuplicateBinding(i));
      }
      if b.observerId !in registry.adapters {
        return Err(UnknownObserver(i));
      }
      if b.timeout !in registry.adapters[b.observerId] {
        return Err(InvalidSettings(i));
      }
      BindingAdded(observers, raw, i, registry.adapters);
      observers := observers[KeyOf(b) := ObserverBinding(b.observerId, b.timeout)];
    }
    assert raw[..|raw|] == raw;
    HeldIsMapped(observers, raw);
    r := Ok(observers);
  }

  // Looking up the timeout of a loaded binding finds a registered adapter, whatever was registered
  // since the policy was loaded.
  lemma {:induction false} LookupFindsTheAdapter(raw: seq<RawBinding>, observers: map<ObserverKey, ObserverBinding>,
          before: map<string, set<int>>, after: map<string, set<int>>, key: ObserverKey)
    requires BindingsOk(raw, before) && HoldsExactly(observers, raw) && key in observers
    requires forall id :: id in before ==> id in after && after[id] == before[id]
    ensures observers[key].observerId in after && observers[key].timeout in after[observers[key].observerId]
  {
    var i :| 0 <= i < |raw| && KeyOf(raw[i]) == key;
    assert BindingOk(raw[i], before);
  }

  lemma {:induction false} BindingAdded(observers: map<ObserverKey, ObserverBinding>, raw: seq<RawBinding>, i: nat,
          adapters: map<string, set<int>>)
    requires i < |raw| && BindingsOk(raw[..i], adapters) && HoldsExactly(observers, raw[..i])
    requires raw[i].index >= 0 && BindingOk(raw[i], adapters) && KeyOf(raw[i]) !in observers
    ensures BindingsOk(raw[..i + 1], adapters)
    ensures HoldsExactly(observers[KeyOf(raw[i]) := ObserverBinding(raw[i].observerId, raw[i].timeout)], raw[..i + 1])
  {
    assert raw[..i + 1] == raw[..i] + [raw[i]];
    KeyAdded(observers, raw[..i], raw[i]);
    StillOk(observers, raw[..i], raw[i], adapters);
  }

  lemma {:induction false} StillOk(observers: map<ObserverKey, ObserverBinding>, raw: seq<RawBinding>, b: RawBinding,
          adapters: map<string, set<int>>)
    requires BindingsOk(raw, adapters) && HoldsExactly(observers, raw)
    requires b.index >= 0 && BindingOk(b, adapters) && KeyOf(b) !in observers
    ensures BindingsOk(raw + [b], adapters)
  {
    hide BindingOk;
  }

  lemma {:induction false} KeyAdded(observers: map<ObserverKey, ObserverBinding>, raw: seq<RawBinding>, b: RawBinding)
    requires HoldsExactly(observers, raw) && b.index >= 0 && KeyOf(b) !in observers
    ensures HoldsExactly(observers[KeyOf(b) := ObserverBinding(b.observerId, b.timeout)], raw + [b])
  {
    var next := raw + [b];
    forall k | k in observers ensures exists j :: 0 <= j < |next| && KeyOf(next[j]) == k {
      var j :| 0 <= j < |raw| && KeyOf(raw[j]) == k;
      assert KeyOf(next[j]) == k;
    }
    assert next[|raw|] == b;
    assert forall j :: 0 <= j < |raw| ==> next[j] == raw[j];
  }
}
