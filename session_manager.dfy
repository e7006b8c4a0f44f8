/** Studio's session state: one dictionary per browser session, whose keys
    the session manager builds as "_oj_<namespace>_<key>" (or "_oj_<key>"
    without a namespace). Values are whatever the pages store; JSON values
    stand for them, with `JNull` for Python's None. The order in which the
    session lists its keys is a parameter. */
module SessionManager {
  import opened Common
  import opened JsonValue

  const GlobalPrefix := "_oj_"

  /** The prefix every key of namespace `ns` starts with. */
  function NsPrefix(ns: string): (p: string)
    ensures StartsWith(p, GlobalPrefix) && |p| == |GlobalPrefix| + |ns| + 1
  {
    GlobalPrefix + ns + "_"
  }

  predicate HasNamespace(ns: Option<string>) {
    ns.Some? && ns.value != ""
  }

  /** `_build_key`: the key can be read back from the full key by dropping
      the namespace prefix (or the global prefix without a namespace). */
  function BuildKey(key: string, ns: Option<string>): (r: string)
    ensures HasNamespace(ns) ==> StartsWith(r, NsPrefix(ns.value)) && r[|NsPrefix(ns.value)|..] == key
    ensures !HasNamespace(ns) ==> StartsWith(r, GlobalPrefix) && r[|GlobalPrefix|..] == key
  {
    if HasNamespace(ns) then GlobalPrefix + ns.value + "_" + key else GlobalPrefix + key
  }

  /** Within one namespace, different keys get different full keys. */
  lemma BuildKeyInjective(k1: string, k2: string, ns: Option<string>)
    requires BuildKey(k1, ns) == BuildKey(k2, ns)
    ensures k1 == k2
  {
  }

  /** Across namespaces they need not: namespace "a" with key "b_k" and
      namespace "a_b" with key "k" share a full key. */
  lemma NamespacesOverlap()
    ensures BuildKey("b_k", Some("a")) == BuildKey("k", Some("a_b"))
  {
    assert GlobalPrefix + "a" + "_" + "b_k" == "_oj_a_b_k";
    assert GlobalPrefix + "a_b" + "_" + "k" == "_oj_a_b_k";
  }

  class SessionState {
    var values: map<string, Json>

    constructor (initial: map<string, Json>)
      ensures values == initial
    {
      values := initial;
    }
  }

  /** `get`: the stored value, or the default when the key is absent. */
  function Get(s: SessionState, key: string, default: Json, ns: Option<string>): (r: Json)
    reads s
    ensures BuildKey(key, ns) in s.values ==> r == s.values[BuildKey(key, ns)]
    ensures BuildKey(key, ns) !in s.values ==> r == default
  {
    var k := BuildKey(key, ns);
    if k in s.values then s.values[k] else default
  }

  function Exists(s: SessionState, key: string, ns: Option<string>): (r: bool)
    reads s
    ensures r <==> BuildKey(key, ns) in s.values
  {
    BuildKey(key, ns) in s.values
  }

  /** `set`. */
  method Set(s: SessionState, key: string, value: Json, ns: Option<string>)
    modifies s
    ensures s.values == old(s.values)[BuildKey(key, ns) := value]
    ensures Get(s, key, JNull, ns) == value
  {
    s.values := s.values[BuildKey(key, ns) := value];
  }

  /** Setting one key leaves every other key of the same namespace as it was. */
  lemma SetKeepsOthers(values: map<string, Json>, key: string, other: string, value: Json, ns: Option<string>)
    requires other != key
    ensures var v := values[BuildKey(key, ns) := value];
      (BuildKey(other, ns) in v <==> BuildKey(other, ns) in values) &&
      (BuildKey(other, ns) in values ==> v[BuildKey(other, ns)] == values[BuildKey(other, ns)])
  {
    if BuildKey(other, ns) == BuildKey(key, ns) {
      BuildKeyInjective(other, key, ns);
    }
  }

  /** `delete`: true exactly when the key was there. */
  method Delete(s: SessionState, key: string, ns: Option<string>) returns (deleted: bool)
    modifies s
    ensures deleted == (BuildKey(key, ns) in old(s.values))
    ensures s.values == old(s.values) - {BuildKey(key, ns)}
    ensures !Exists(s, key, ns)
  {
    var k := BuildKey(key, ns);
    if k in s.values {
      s.values := s.values - {k};
      return true;
    }
    return false;
  }

  /** The listed keys that start with `p`, in order. */
  function Prefixed(order: seq<string>, p: string): (r: seq<string>)
    decreases |order|
    ensures forall k :: k in r <==> k in order && StartsWith(k, p)
    ensures Distinct(order) ==> Distinct(r)
  {
    if |order| == 0 then []
    else
      var rest := Prefixed(order[1..], p);
      assert forall k :: k in order[1..] ==> k in order;
      if StartsWith(order[0], p) then
        assert Distinct(order) ==> order[0] !in rest;
        assert forall k :: 1 <= k <= |rest| ==> ([order[0]] + rest)[k] == rest[k - 1];
        [order[0]] + rest
      else rest
  }

  /** `order` lists every key of the session exactly once. */
  ghost predicate Enumerates(order: seq<string>, values: map<string, Json>) {
    Distinct(order) && forall k :: k in order <==> k in values
  }

  /** `clear_namespace`: deletes exactly the keys starting with the
      namespace prefix and returns how many there were. */
  method ClearNamespace(s: SessionState, ns: string, order: seq<string>) returns (n: nat)
    requires Enumerates(order, s.values)
    modifies s
    ensures s.values == map k | k in old(s.values) && !StartsWith(k, NsPrefix(ns)) :: old(s.values)[k]
    ensures n == |Prefixed(order, NsPrefix(ns))|
  {
    var p := NsPrefix(ns);
    var doomed := Prefixed(order, p);
    var i := 0;
    while i < |doomed|
      invariant 0 <= i <= |doomed|
      invariant forall k :: k in s.values <==> k in old(s.values) && k !in doomed[..i]
      invariant forall k :: k in s.values ==> s.values[k] == old(s.values)[k]
    {
      s.values := s.values - {doomed[i]};
      assert forall k :: k in doomed[..i + 1] <==> k in doomed[..i] || k == doomed[i];
      i := i + 1;
    }
    assert doomed[..i] == doomed;
    return |doomed|;
  }

  /** The count `clear_namespace` returns is the number of keys it removed. */
  lemma ClearCount(order: seq<string>, values: map<string, Json>, ns: string)
    requires Enumerates(order, values)
    ensures var kept := map k | k in values && !StartsWith(k, NsPrefix(ns)) :: values[k];
      |Prefixed(order, NsPrefix(ns))| == |values| - |kept|
  {
    var p := NsPrefix(ns);
    var doomed := Prefixed(order, p);
    var kept := map k | k in values && !StartsWith(k, p) :: values[k];
    DistinctCard(doomed);
    assert values.Keys == kept.Keys + (set k | k in doomed);
    assert kept.Keys * (set k | k in doomed) == {};
  }

  /** Clearing namespace "a" also removes what was stored under namespace
      "a_b", since its keys start with "_oj_a_" too. */
  lemma ClearReachesLongerNamespace(key: string)
    ensures StartsWith(BuildKey(key, Some("a_b")), NsPrefix("a"))
  {
    assert BuildKey(key, Some("a_b")) == "_oj_a_" + ("b_" + key);
  }

  /** `get_namespace_keys`: the keys of the namespace, prefix removed. */
  function NamespaceKeys(order: seq<string>, ns: string): (r: seq<string>)
    decreases |order|
    ensures |r| <= |order|
  {
    var p := NsPrefix(ns);
    if |order| == 0 then []
    else
      var rest := NamespaceKeys(order[1..], ns);
      if StartsWith(order[0], p) then [order[0][|p|..]] + rest else rest
  }

  /** A key is listed for a namespace exactly when it was stored under it
      (`order` lists the session's keys). */
  lemma {:induction false} NamespaceKeysMembers(order: seq<string>, ns: string, key: string)
    requires ns != ""
    ensures key in NamespaceKeys(order, ns) <==> BuildKey(key, Some(ns)) in order
    decreases |order|
  {
    if |order| > 0 {
      NamespaceKeysMembers(order[1..], ns, key);
      var p := NsPrefix(ns);
      var k := BuildKey(key, Some(ns));
      assert order == [order[0]] + order[1..];
      if StartsWith(order[0], p) {
        if order[0][|p|..] == key {
          assert order[0] == p + key;
          assert k == p + key;
        }
        if order[0] == k {
          assert order[0][|p|..] == key;
        }
      } else {
        assert order[0] != k;
      }
    }
  }

  /** `get_or_init`: the stored value, or `initial` (the factory's result)
      stored and returned when the key is absent. */
  method GetOrInit(s: SessionState, key: string, initial: Json, ns: Option<string>) returns (r: Json)
    modifies s
    ensures BuildKey(key, ns) in old(s.values) ==> r == old(s.values)[BuildKey(key, ns)] && s.values == old(s.values)
    ensures BuildKey(key, ns) !in old(s.values) ==> r == initial && s.values == old(s.values)[BuildKey(key, ns) := initial]
  {
    var k := BuildKey(key, ns);
    if k !in s.values {
      s.values := s.values[k := initial];
    }
    return s.values[k];
  }

  /** `update`: stores and returns `updater` applied to the current value
      (None when absent). */
  method Update(s: SessionState, key: string, updater: Json -> Json, ns: Option<string>) returns (r: Json)
    modifies s
    ensures r == updater(old(Get(s, key, JNull, ns)))
    ensures s.values == old(s.values)[BuildKey(key, ns) := r]
  {
    var k := BuildKey(key, ns);
    var current := if k in s.values then s.values[k] else JNull;
    r := updater(current);
    s.values := s.values[k := r];
  }
}
