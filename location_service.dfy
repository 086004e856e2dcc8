/**
 * `AddressableLocationService`: a registry of mirrors, the activation of one
 * of them (switching the content catalog), and the memoised rewrite of
 * resource ids that the engine calls on every load once activation has
 * installed it.
 */
module Service {
  import opened Wrappers
  import opened Strings
  import opened RemoteConfig
  import opened Engine
  import opened Registry

  /** `AddressableRemoteResult`. */
  datatype RemoteResult = RemoteResult(success: bool, url: string, error: string)

  /** The error text of a selection in which no mirror answered. */
  const SelectionFailedError: string := "Failed to select remote location after tries."

  /** `_catalogUrl` after activating a mirror: empty exactly when the mirror names no catalog. */
  function CatalogUrlOf(remoteUrl: string, catalogName: string): (r: string)
    ensures r == "" <==> catalogName == ""
  {
    if catalogName == "" then "" else UrlJoin(remoteUrl, catalogName)
  }

  /** The engine calls of an activation that switches mirrors, in the order they are made. */
  function SwitchEffects(catalogUrl: string, hookInstalled: bool): seq<Effect>
  {
    [InitializeAddressables]
    + (if catalogUrl == "" then [] else [LoadContentCatalog(catalogUrl)])
    + [CleanBundleCache]
    + (if hookInstalled then [] else [ClearTransformHook, InstallTransformHook])
  }

  /**
   * The scan does not stop at the empty key. An enabled mirror under `""`
   * matches every id, and `Replace` with an empty old value throws, so this is
   * exactly the condition under which a cache miss is answered.
   */
  predicate ScanAvoidsEmptyKey(order: seq<string>, registry: Locations, internalId: string)
  {
    FirstMatch(order, registry, internalId).Some? ==> order[FirstMatch(order, registry, internalId).value] != ""
  }

  /**
   * The id a cache miss computes: the first enabled key (in enumeration order)
   * that the id contains, ignoring case, replaced ordinally by the active URL;
   * the id itself when no key matches.
   */
  function RewriteOnMiss(internalId: string, order: seq<string>, registry: Locations, activeUrl: string): string
    requires ScanAvoidsEmptyKey(order, registry, internalId)
  {
    match FirstMatch(order, registry, internalId)
    case None => internalId
    case Some(i) => Replace(internalId, order[i], activeUrl)
  }

  /**
   * The scan of the transform hook: walks the registry in enumeration order,
   * stops at the first enabled mirror whose key the id contains ignoring case,
   * and substitutes the active URL for that key.
   */
  method RewriteScan(internalId: string, order: seq<string>, registry: Locations, activeUrl: string) returns (resultId: string)
    requires ScanAvoidsEmptyKey(order, registry, internalId)
    requires forall k :: k in order ==> k in registry
    ensures resultId == RewriteOnMiss(internalId, order, registry, activeUrl)
  {
    resultId := internalId;
    var i := 0;
    while i < |order|
      invariant 0 <= i <= |order|
      invariant resultId == internalId
      invariant forall j :: 0 <= j < i ==> !Matches(registry, internalId, order[j])
    {
      var key := order[i];
      var locationValue := registry[key];
      if locationValue.enabled && ContainsIgnoreCase(internalId, key) {
        assert FirstMatch(order, registry, internalId) == Some(i);
        resultId := Replace(internalId, key, activeUrl);
        break;
      }
      i := i + 1;
    }
  }

  /** A registry without the empty key never makes the scan stop there. */
  lemma NoEmptyKeyAvoidsEmptyKey(order: seq<string>, registry: Locations, internalId: string)
    requires "" !in registry
    ensures ScanAvoidsEmptyKey(order, registry, internalId)
  {
  }

  /** The rewrite does not depend on the enumeration order beyond the choice among matching keys. */
  lemma RewriteOnMissSpec(internalId: string, order: seq<string>, registry: Locations, activeUrl: string)
    requires ScanAvoidsEmptyKey(order, registry, internalId) && IsEnumeration(order, registry)
    ensures (forall k :: !Matches(registry, internalId, k)) ==> RewriteOnMiss(internalId, order, registry, activeUrl) == internalId
    ensures (exists k :: Matches(registry, internalId, k)) ==>
      exists k :: Matches(registry, internalId, k) && k != "" && RewriteOnMiss(internalId, order, registry, activeUrl) == Replace(internalId, k, activeUrl)
  {
    FirstMatchFindsAny(order, registry, internalId);
    match FirstMatch(order, registry, internalId)
    case None =>
    case Some(i) =>
      assert Matches(registry, internalId, order[i]);
  }

  /** A disabled mirror's key is never the one substituted. */
  lemma DisabledMirrorNeverRewrites(internalId: string, order: seq<string>, registry: Locations, key: string)
    requires key in registry && !registry[key].enabled
    ensures forall i :: FirstMatch(order, registry, internalId) == Some(i) ==> order[i] != key
  {
  }

  /** When the scan stops at the active mirror's own key, the rewrite leaves the id as it is. */
  lemma RewriteByActiveKey(internalId: string, order: seq<string>, registry: Locations, activeUrl: string)
    requires ScanAvoidsEmptyKey(order, registry, internalId)
    requires exists i :: FirstMatch(order, registry, internalId) == Some(i) && order[i] == activeUrl
    ensures RewriteOnMiss(internalId, order, registry, activeUrl) == internalId
  {
    var i := FirstMatch(order, registry, internalId).value;
    ReplaceBySelf(internalId, activeUrl);
  }

  /**
   * The scan matches keys ignoring case but replaces them ordinally: when the
   * key it stops at occurs in the id only in another letter case, the id is
   * left as it is.
   */
  lemma CaseOnlyMatchLeavesId(internalId: string, order: seq<string>, registry: Locations, activeUrl: string)
    requires ScanAvoidsEmptyKey(order, registry, internalId)
    requires exists i :: FirstMatch(order, registry, internalId) == Some(i) && !Contains(internalId, order[i])
    ensures RewriteOnMiss(internalId, order, registry, activeUrl) == internalId
  {
    var i := FirstMatch(order, registry, internalId).value;
    ReplaceAbsent(internalId, order[i], activeUrl);
  }

  /**
   * An instance: a mirror keyed `http://cdn-b` stops the scan of the id
   * `HTTP://CDN-B/x`, which keeps its upper-case host.
   */
  lemma CaseOnlyMatchIsNotReplaced()
    ensures var registry := map["http://cdn-b" := Mirror("b", true, "t", "http://cdn-b", "")];
      && FirstMatch(["http://cdn-b"], registry, "HTTP://CDN-B/x") == Some(0)
      && RewriteOnMiss("HTTP://CDN-B/x", ["http://cdn-b"], registry, "http://cdn-a") == "HTTP://CDN-B/x"
  {
    var s, k := "HTTP://CDN-B/x", "http://cdn-b";
    var registry := map[k := Mirror("b", true, "t", k, "")];
    assert Fold(s)[0..|k|] == Fold(k);
    assert Occurs(Fold(s), Fold(k), 0);
    assert Matches(registry, s, k);
    forall j ensures !Occurs(s, k, j) {
      if 0 <= j && j + |k| <= |s| {
        assert s[j..j + |k|][0] == s[j] != 'h';
      }
    }
    CaseOnlyMatchLeavesId(s, [k], registry, "http://cdn-a");
  }

  /** An id whose matched key occurs ordinally and differs from the active URL is changed by the rewrite. */
  lemma RewriteChangesOrdinalMatch(internalId: string, order: seq<string>, registry: Locations, activeUrl: string)
    requires ScanAvoidsEmptyKey(order, registry, internalId)
    requires exists i :: FirstMatch(order, registry, internalId) == Some(i) && order[i] != activeUrl && Contains(internalId, order[i])
    ensures RewriteOnMiss(internalId, order, registry, activeUrl) != internalId
  {
    var i := FirstMatch(order, registry, internalId).value;
    ReplaceChanges(internalId, order[i], activeUrl);
  }

  /**
   * Exactly when a cache miss changes the id: the scan stops at a key that
   * occurs ordinally in the id and is not the active URL itself.
   */
  lemma RewriteChangesExactly(internalId: string, order: seq<string>, registry: Locations, activeUrl: string)
    requires ScanAvoidsEmptyKey(order, registry, internalId)
    ensures RewriteOnMiss(internalId, order, registry, activeUrl) != internalId <==>
      exists i :: FirstMatch(order, registry, internalId) == Some(i) && order[i] != activeUrl && Contains(internalId, order[i])
  {
    match FirstMatch(order, registry, internalId)
    case None =>
    case Some(i) =>
      if order[i] == activeUrl {
        RewriteByActiveKey(internalId, order, registry, activeUrl);
      } else if !Contains(internalId, order[i]) {
        CaseOnlyMatchLeavesId(internalId, order, registry, activeUrl);
      } else {
        RewriteChangesOrdinalMatch(internalId, order, registry, activeUrl);
      }
  }

  class AddressableLocationService {
    var isRemoteLocationActive: bool
    var isEnabled: bool
    var activeLocation: Option<Mirror>
    var remoteLocations: Locations
    var activeRemoteUrl: string
    var catalogUrl: string
    var transformCache: map<ResourceLocation, string>
    /** The engine calls made so far. */
    ghost var effects: seq<Effect>

    /**
     * The active URL and the catalog URL always belong to the active mirror,
     * and both are empty before the first activation.
     */
    ghost predicate ActivationConsistent()
      reads this`activeLocation, this`activeRemoteUrl, this`catalogUrl, this`isRemoteLocationActive
    {
      && (activeLocation.None? ==> activeRemoteUrl == "" && catalogUrl == "" && !isRemoteLocationActive)
      && (activeLocation.Some? ==>
            && activeRemoteUrl == activeLocation.value.remoteUrl
            && catalogUrl == CatalogUrlOf(activeRemoteUrl, activeLocation.value.remoteCatalogName))
    }

    /** The object invariant: activation is consistent, and the cache is empty while the transform is not active. */
    ghost predicate Valid()
      reads this
    {
      && ActivationConsistent()
      && (!isRemoteLocationActive ==> transformCache == map[])
    }

    constructor ()
      ensures Valid()
      ensures !isRemoteLocationActive && isEnabled && activeLocation == None
      ensures remoteLocations == map[] && activeRemoteUrl == "" && catalogUrl == ""
      ensures transformCache == map[] && effects == []
    {
      isRemoteLocationActive := false;
      isEnabled := true;
      activeLocation := None;
      remoteLocations := map[];
      activeRemoteUrl := "";
      catalogUrl := "";
      transformCache := map[];
      effects := [];
    }

    /** Turns the rewrite on or off; touches nothing else. */
    method SetStatus(isActive: bool)
      requires Valid()
      modifies this`isEnabled
      ensures Valid()
      ensures isEnabled == isActive
    {
      isEnabled := isActive;
    }

    /** Upserts an enabled mirror under its `remoteUrl`; ignores a disabled one. */
    method Register(remote: Mirror)
      requires Valid()
      modifies this`remoteLocations
      ensures Valid()
      ensures remoteLocations == if remote.enabled then old(remoteLocations)[remote.remoteUrl := remote] else old(remoteLocations)
      ensures old(OnlyEnabled(remoteLocations)) ==> OnlyEnabled(remoteLocations)
    {
      if !remote.enabled {
        return;
      }
      remoteLocations := remoteLocations[remote.remoteUrl := remote];
    }

    /** Removes the key `remoteUrl`, telling whether it was there. The active mirror stays active. */
    method Remove(remoteUrl: string) returns (removed: bool)
      requires Valid()
      modifies this`remoteLocations
      ensures Valid()
      ensures removed == (remoteUrl in old(remoteLocations))
      ensures remoteLocations == old(remoteLocations) - {remoteUrl}
      ensures old(OnlyEnabled(remoteLocations)) ==> OnlyEnabled(remoteLocations)
    {
      removed := remoteUrl in remoteLocations;
      remoteLocations := remoteLocations - {remoteUrl};
    }

    /** `Remove(AddressableRemoteValue)`: removal by the mirror's `remoteUrl`. */
    method RemoveRemote(remote: Mirror) returns (removed: bool)
      requires Valid()
      modifies this`remoteLocations
      ensures Valid()
      ensures removed == (remote.remoteUrl in old(remoteLocations))
      ensures remoteLocations == old(remoteLocations) - {remote.remoteUrl}
    {
      removed := Remove(remote.remoteUrl);
    }

    /**
     * Races the test URLs of the enabled mirrors and answers with the key of
     * the winner's mirror. An empty registry fails at once, with an empty
     * error, and does not race.
     */
    method SelectRemoteLocation(order: seq<string>, tries: int, timeout: int, racer: Racer) returns (r: RemoteResult)
      requires Valid()
      requires IsEnumeration(order, remoteLocations)
      modifies this`effects
      ensures Valid()
      ensures effects == old(effects) +
        (if remoteLocations == map[] then [] else [RaceEndpoints(EnabledTestUrls(order, remoteLocations), tries, timeout)])
      ensures remoteLocations == map[] ==> r == RemoteResult(false, "", "")
      ensures remoteLocations != map[] ==> r.success == racer(EnabledTestUrls(order, remoteLocations), tries, timeout).success
      ensures remoteLocations != map[] && !r.success ==>
        r.error == SelectionFailedError && r.url == racer(EnabledTestUrls(order, remoteLocations), tries, timeout).url
      ensures r.success ==> r.error == ""
      ensures r.success ==>
        r.url == match FirstWithTestUrl(order, remoteLocations, racer(EnabledTestUrls(order, remoteLocations), tries, timeout).url)
                 case Some(i) => order[i]
                 case None => ""
      ensures r.success && racer(EnabledTestUrls(order, remoteLocations), tries, timeout).url in EnabledTestUrls(order, remoteLocations) ==>
        r.url in remoteLocations && remoteLocations[r.url].testUrl == racer(EnabledTestUrls(order, remoteLocations), tries, timeout).url
    {
      r := RemoteResult(false, "", "");
      if |remoteLocations| == 0 {
        return;
      }
      var checkUrls := EnabledTestUrls(order, remoteLocations);
      effects := effects + [RaceEndpoints(checkUrls, tries, timeout)];
      var best := racer(checkUrls, tries, timeout);
      var resultUrl := best.url;
      if best.success {
        match FirstWithTestUrl(order, remoteLocations, resultUrl)
        case Some(i) =>
          resultUrl := order[i];
        case None =>
          resultUrl := "";
      }
      if best.url in checkUrls {
        TestUrlHasKey(order, remoteLocations, best.url);
      }
      r := RemoteResult(best.success, resultUrl, if best.success then "" else SelectionFailedError);
    }

    /**
     * The outcome of activating `location`: a disabled mirror fails and changes
     * nothing; the already active URL (ignoring case) succeeds and changes
     * nothing; any other mirror becomes active, the cache is emptied, the
     * catalog is reloaded when it is named, and the transform hook is
     * installed unless it already is. The catalog load's own result is not consulted.
     */
    twostate predicate ActivationOutcome(location: Mirror, r: RemoteResult)
      reads this
    {
      && remoteLocations == old(remoteLocations)
      && isEnabled == old(isEnabled)
      && (!location.enabled ==>
            r == RemoteResult(false, location.remoteUrl, "") && unchanged(this))
      && (location.enabled && EqualsIgnoreCase(location.remoteUrl, old(activeRemoteUrl)) ==>
            r == RemoteResult(true, location.remoteUrl, "") && unchanged(this))
      && (location.enabled && !EqualsIgnoreCase(location.remoteUrl, old(activeRemoteUrl)) ==>
            && r == RemoteResult(true, location.remoteUrl, "")
            && activeLocation == Some(location)
            && activeRemoteUrl == location.remoteUrl
            && catalogUrl == CatalogUrlOf(location.remoteUrl, location.remoteCatalogName)
            && transformCache == map[]
            && isRemoteLocationActive
            && effects == old(effects) + SwitchEffects(catalogUrl, old(isRemoteLocationActive)))
    }

    /** `ActivateRemoteLocationAsync(AddressableRemoteValue)`. */
    method ActivateRemoteLocation(location: Mirror) returns (r: RemoteResult)
      requires Valid()
      modifies this
      ensures Valid()
      ensures ActivationOutcome(location, r)
    {
      r := RemoteResult(false, location.remoteUrl, "");
      if !location.enabled {
        return;
      }
      var remoteUrl := location.remoteUrl;
      if EqualsIgnoreCase(remoteUrl, activeRemoteUrl) {
        r := r.(success := true);
        return;
      }
      activeLocation := Some(location);
      activeRemoteUrl := remoteUrl;
      catalogUrl := CatalogUrlOf(activeRemoteUrl, location.remoteCatalogName);
      transformCache := map[];
      // InitializeAsync, LoadContentCatalogAsync when a catalog is named (its
      // result only decides a log line), CleanBundleCache, and the hook
      // installation when the transform is not active yet
      effects := effects + SwitchEffects(catalogUrl, isRemoteLocationActive);
      if !isRemoteLocationActive {
        isRemoteLocationActive := true;
      }
      r := RemoteResult(true, activeRemoteUrl, "");
    }

    /** `ActivateRemoteLocationAsync(string)`: an empty or unregistered URL fails and changes nothing. */
    method ActivateRemoteLocationByUrl(remoteUrl: string) returns (r: RemoteResult)
      requires Valid()
      modifies this
      ensures Valid()
      ensures remoteUrl == "" || remoteUrl !in old(remoteLocations) ==>
        r == RemoteResult(false, remoteUrl, "") && unchanged(this)
      ensures remoteUrl != "" && remoteUrl in old(remoteLocations) ==>
        ActivationOutcome(old(remoteLocations)[remoteUrl], r)
    {
      r := RemoteResult(false, remoteUrl, "");
      if remoteUrl == "" {
        return;
      }
      if remoteUrl !in remoteLocations {
        return;
      }
      r := ActivateRemoteLocation(remoteLocations[remoteUrl]);
    }

    /**
     * Whether the transform rewrites `location`: the transform is active and
     * enabled, a mirror URL is active, and the id already contains that URL,
     * ignoring case.
     */
    function ValidateTransform(location: ResourceLocation): (valid: bool)
      reads this`isRemoteLocationActive, this`isEnabled, this`activeRemoteUrl
      ensures valid <==>
        && isRemoteLocationActive && isEnabled && activeRemoteUrl != ""
        && exists i :: Occurs(Fold(location.internalId), Fold(activeRemoteUrl), i)
    {
      if !isRemoteLocationActive || !isEnabled then false
      else if activeRemoteUrl == "" then false
      else if location.internalId == "" then false
      else ContainsIgnoreCase(location.internalId, activeRemoteUrl)
    }

    /**
     * The hook the engine calls for every resource id. Ids it does not
     * validate come back unchanged and are not cached; a cached location gets
     * its cached id; otherwise the id rewritten by the first enabled matching
     * key is cached and returned.
     */
    method TransformInternalId(location: ResourceLocation, order: seq<string>) returns (id: string)
      requires Valid()
      requires IsEnumeration(order, remoteLocations)
      requires ValidateTransform(location) && location !in transformCache ==>
        ScanAvoidsEmptyKey(order, remoteLocations, location.internalId)
      modifies this`transformCache
      ensures Valid()
      ensures !ValidateTransform(location) ==> id == location.internalId && transformCache == old(transformCache)
      ensures ValidateTransform(location) && location in old(transformCache) ==>
        id == old(transformCache)[location] && transformCache == old(transformCache)
      ensures ValidateTransform(location) && location !in old(transformCache) ==>
        id == RewriteOnMiss(location.internalId, order, remoteLocations, activeRemoteUrl)
        && transformCache == old(transformCache)[location := id]
    {
      var internalId := location.internalId;
      var validationResult := ValidateTransform(location);
      if !validationResult {
        return location.internalId;
      }
      if location in transformCache {
        return transformCache[location];
      }
      var resultId := RewriteScan(internalId, order, remoteLocations, activeRemoteUrl);
      transformCache := transformCache[location := resultId];
      id := resultId;
    }

    /** Empties the registry and the cache and deactivates the transform; the active mirror is kept. */
    method Dispose()
      requires Valid()
      modifies this
      ensures Valid()
      ensures remoteLocations == map[] && transformCache == map[] && !isRemoteLocationActive
      ensures isEnabled == old(isEnabled) && activeLocation == old(activeLocation)
      ensures activeRemoteUrl == old(activeRemoteUrl) && catalogUrl == old(catalogUrl)
      ensures effects == old(effects) + (if old(isRemoteLocationActive) then [] else [ClearTransformHook])
    {
      if !isRemoteLocationActive {
        effects := effects + [ClearTransformHook];
      }
      isRemoteLocationActive := false;
      transformCache := map[];
      remoteLocations := map[];
    }
  }
}
