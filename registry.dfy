/**
 * The mirror registry, `Dictionary<string, AddressableRemoteValue>` keyed by
 * `remoteUrl` with ordinal key comparison, and the scans over it in the
 * dictionary's enumeration order. .NET does not specify that order, so every
 * scan takes it as a parameter `order`, a sequence listing each key once.
 */
module Registry {
  import opened Wrappers
  import opened Strings
  import opened RemoteConfig

  type Locations = map<string, Mirror>

  /** `order` is one possible enumeration order of `registry`: each key exactly once. */
  ghost predicate IsEnumeration(order: seq<string>, registry: Locations)
  {
    && (forall i, j :: 0 <= i < j < |order| ==> order[i] != order[j])
    && (forall k :: k in order <==> k in registry)
  }

  /** The registry holds only mirrors the tool may use. */
  ghost predicate OnlyEnabled(registry: Locations)
  {
    forall k :: k in registry ==> registry[k].enabled
  }

  /** `registry.Values.Where(x => x.enabled).Select(x => x.testUrl)`, in enumeration order. */
  function EnabledTestUrls(order: seq<string>, registry: Locations): (urls: seq<string>)
    requires forall k :: k in order ==> k in registry
    ensures |urls| <= |order|
    ensures forall u :: u in urls <==> exists k :: k in order && registry[k].enabled && registry[k].testUrl == u
  {
    if order == [] then []
    else
      var rest := EnabledTestUrls(order[1..], registry);
      var m := registry[order[0]];
      if m.enabled then [m.testUrl] + rest else rest
  }

  /** A single key contributes its mirror's test URL when the mirror is enabled, and nothing otherwise. */
  lemma EnabledTestUrlsOfKey(k: string, registry: Locations)
    requires k in registry
    ensures EnabledTestUrls([k], registry) == if registry[k].enabled then [registry[k].testUrl] else []
  {
    assert [k][1..] == [];
  }

  /**
   * The racer receives the test URLs in enumeration order: the URLs of a
   * concatenation of key sequences are the concatenation of their URLs.
   */
  lemma {:induction false} EnabledTestUrlsInOrder(o1: seq<string>, o2: seq<string>, registry: Locations)
    requires forall k :: k in o1 + o2 ==> k in registry
    ensures EnabledTestUrls(o1 + o2, registry) == EnabledTestUrls(o1, registry) + EnabledTestUrls(o2, registry)
  {
    if o1 == [] {
      assert o1 + o2 == o2;
    } else {
      var o := o1 + o2;
      assert o[0] == o1[0];
      assert o[1..] == o1[1..] + o2;
      assert forall k :: k in o1[1..] + o2 ==> k in o;
      EnabledTestUrlsInOrder(o1[1..], o2, registry);
    }
  }

  /** `registry.FirstOrDefault(x => x.Value.testUrl == url)`: the position in `order` of the first key whose mirror has that test URL. */
  function FirstWithTestUrl(order: seq<string>, registry: Locations, url: string): (r: Option<nat>)
    requires forall k :: k in order ==> k in registry
    ensures r.Some? ==> r.value < |order| && registry[order[r.value]].testUrl == url
    ensures r.Some? ==> forall j :: 0 <= j < r.value ==> registry[order[j]].testUrl != url
    ensures r.None? ==> forall j :: 0 <= j < |order| ==> registry[order[j]].testUrl != url
  {
    if order == [] then None
    else if registry[order[0]].testUrl == url then Some(0)
    else
      match FirstWithTestUrl(order[1..], registry, url)
      case None => None
      case Some(i) => Some(i + 1)
  }

  /** A test URL that the racer was given belongs to some key, so the lookup of the winner finds one. */
  lemma {:induction false} TestUrlHasKey(order: seq<string>, registry: Locations, url: string)
    requires forall k :: k in order ==> k in registry
    requires url in EnabledTestUrls(order, registry)
    ensures FirstWithTestUrl(order, registry, url).Some?
  {
    var k :| k in order && registry[k].enabled && registry[k].testUrl == url;
    var j :| 0 <= j < |order| && order[j] == k;
  }

  /** The skip-and-test step of the rewrite scan: `key` names an enabled mirror whose key the id contains, ignoring case. */
  predicate Matches(registry: Locations, internalId: string, key: string)
  {
    key in registry && registry[key].enabled && ContainsIgnoreCase(internalId, key)
  }

  /** The position in `order` at which the rewrite scan stops: the first matching key. */
  function FirstMatch(order: seq<string>, registry: Locations, internalId: string): (r: Option<nat>)
    ensures r.Some? ==> r.value < |order| && Matches(registry, internalId, order[r.value])
    ensures r.Some? ==> forall j :: 0 <= j < r.value ==> !Matches(registry, internalId, order[j])
    ensures r.None? ==> forall j :: 0 <= j < |order| ==> !Matches(registry, internalId, order[j])
  {
    if order == [] then None
    else if Matches(registry, internalId, order[0]) then Some(0)
    else
      match FirstMatch(order[1..], registry, internalId)
      case None => None
      case Some(i) => Some(i + 1)
  }

  /** Whatever the enumeration order, the scan stops exactly when some key matches. */
  lemma FirstMatchFindsAny(order: seq<string>, registry: Locations, internalId: string)
    requires IsEnumeration(order, registry)
    ensures FirstMatch(order, registry, internalId).Some? <==> exists k :: Matches(registry, internalId, k)
  {
    if k :| Matches(registry, internalId, k) {
      var j :| 0 <= j < |order| && order[j] == k;
    }
  }
}
