/**
 * `AddressableLocationHandler`, the earlier form of the location service:
 * the same mirror registry and selection, an activation guarded by the
 * currently active URL, and an uncached transform that rewrites one fixed
 * placeholder path instead of per-mirror keys.
 */
module Handler {
  import opened Wrappers
  import opened Strings
  import opened RemoteConfig
  import opened Engine
  import opened Registry

  /** The engine calls of an activation that switches mirrors, in the order they are made. */
  function HandlerSwitchEffects(catalogUrl: string, hookInstalled: bool): seq<Effect>
  {
    [InitializeAddressables, LoadContentCatalog(catalogUrl), CleanBundleCache]
    + (if hookInstalled then [] else [ClearTransformHook, InstallTransformHook])
  }

  /** Every mirror of the registry is stored under its own `remoteUrl`, as `Register` stores it. */
  ghost predicate KeyedByUrl(registry: Locations)
  {
    forall k :: k in registry ==> registry[k].remoteUrl == k
  }

  class AddressableLocationHandler {
    /** The placeholder path the transform rewrites when the filter path is absent. */
    const remoteLoadPathKey: string
    /** The path the transform rewrites first. */
    const filterCatalogPath: string
    /** What either path is rewritten to. */
    const replacementCatalogPath: string

    var isRemoteLocationActive: bool
    var activeLocation: Option<Mirror>
    var remoteLocations: Locations
    var activeRemoteUrl: string
    var catalogUrl: string
    /** The engine calls made so far. */
    ghost var effects: seq<Effect>

    /** The state of a new handler: nothing active, no URL, no catalog. */
    ghost predicate Dormant()
      reads this`isRemoteLocationActive, this`activeLocation, this`activeRemoteUrl, this`catalogUrl
    {
      !isRemoteLocationActive && activeLocation == None && activeRemoteUrl == "" && catalogUrl == ""
    }

    /**
     * The object invariant: mirrors are stored under their URLs, the active
     * URL and the catalog URL belong to the active mirror (and are empty while
     * there is none), and the transform is only active with a mirror.
     */
    ghost predicate Valid()
      reads this
    {
      && KeyedByUrl(remoteLocations)
      && (activeLocation.None? ==> activeRemoteUrl == "" && catalogUrl == "")
      && (activeLocation.Some? ==>
            && activeRemoteUrl == activeLocation.value.remoteUrl
            && catalogUrl == UrlJoin(activeRemoteUrl, activeLocation.value.remoteCatalogName))
      && (isRemoteLocationActive ==> activeLocation.Some?)
    }

    constructor (remoteLoadPathKey: string, filterCatalogPath: string, replacementCatalogPath: string)
      ensures Valid() && Dormant()
      ensures remoteLocations == map[] && effects == []
      ensures this.remoteLoadPathKey == remoteLoadPathKey
      ensures this.filterCatalogPath == filterCatalogPath
      ensures this.replacementCatalogPath == replacementCatalogPath
    {
      this.remoteLoadPathKey := remoteLoadPathKey;
      this.filterCatalogPath := filterCatalogPath;
      this.replacementCatalogPath := replacementCatalogPath;
      isRemoteLocationActive := false;
      activeLocation := None;
      remoteLocations := map[];
      activeRemoteUrl := "";
      catalogUrl := "";
      effects := [];
    }

    /** Upserts an enabled mirror under its `remoteUrl`; ignores a disabled one. */
    method Register(remote: Mirror)
      requires Valid()
      modifies this`remoteLocations
      ensures Valid()
      ensures remoteLocations == if remote.enabled then old(remoteLocations)[remote.remoteUrl := remote] else old(remoteLocations)
      ensures old(OnlyEnabled(remoteLocations)) ==> OnlyEnabled(remoteLocations)
    {
      if !remote.enabled {
        return;
      }
      remoteLocations := remoteLocations[remote.remoteUrl := remote];
    }

    /** Removes the key `remoteUrl`, telling whether it was there. */
    method Remove(remoteUrl: string) returns (removed: bool)
      requires Valid()
      modifies this`remoteLocations
      ensures Valid()
      ensures removed == (remoteUrl in old(remoteLocations))
      ensures remoteLocations == old(remoteLocations) - {remoteUrl}
      ensures old(OnlyEnabled(remoteLocations)) ==> OnlyEnabled(remoteLocations)
    {
      removed := remoteUrl in remoteLocations;
      remoteLocations := remoteLocations - {remoteUrl};
    }

    /** `Remove(AddressableRemoteValue)`: removal by the mirror's `remoteUrl`. */
    method RemoveRemote(remote: Mirror) returns (removed: bool)
      requires Valid()
      modifies this`remoteLocations
      ensures Valid()
      ensures removed == (remote.remoteUrl in old(remoteLocations))
      ensures remoteLocations == old(remoteLocations) - {remote.remoteUrl}
    {
      removed := Remove(remote.remoteUrl);
    }

    /**
     * Races the test URLs of the enabled mirrors and hands back the racer's
     * verdict as it is: its URL is a test URL, not a registry key. An empty
     * registry fails at once without racing.
     */
    method SelectRemoteLocation(order: seq<string>, tries: int, timeout: int, racer: Racer) returns (r: UrlResult)
      requires Valid()
      requires IsEnumeration(order, remoteLocations)
      modifies this`effects
      ensures Valid()
      ensures effects == old(effects) +
        (if remoteLocations == map[] then [] else [RaceEndpoints(EnabledTestUrls(order, remoteLocations), tries, timeout)])
      ensures remoteLocations == map[] ==> r == UrlResult(false, "")
      ensures remoteLocations != map[] ==> r == racer(EnabledTestUrls(order, remoteLocations), tries, timeout)
      ensures remoteLocations != map[] && r.url in EnabledTestUrls(order, remoteLocations) ==>
        exists k :: k in remoteLocations && remoteLocations[k].enabled && remoteLocations[k].testUrl == r.url
    {
      r := UrlResult(false, "");
      if |remoteLocations| == 0 {
        return;
      }
      var checkUrls := EnabledTestUrls(order, remoteLocations);
      effects := effects + [RaceEndpoints(checkUrls, tries, timeout)];
      r := racer(checkUrls, tries, timeout);
    }

    /**
     * The outcome of activating the mirror registered under `remoteUrl`:
     * without an active URL, or for an unregistered or disabled mirror, it
     * fails and changes nothing; the active URL (ignoring case) succeeds and
     * changes nothing; otherwise that mirror becomes active, the catalog URL is
     * joined from its URL and catalog name (also when the name is empty), the
     * catalog is loaded, and the transform hook is installed unless it already is.
     */
    twostate predicate ActivationOutcome(remoteUrl: string, ok: bool)
      reads this
    {
      && remoteLocations == old(remoteLocations)
      && (old(activeRemoteUrl) == "" ==> !ok && unchanged(this))
      && (old(activeRemoteUrl) != "" && (remoteUrl !in old(remoteLocations) || !old(remoteLocations)[remoteUrl].enabled) ==>
            !ok && unchanged(this))
      && (old(activeRemoteUrl) != "" && remoteUrl in old(remoteLocations) && old(remoteLocations)[remoteUrl].enabled ==>
            && ok
            && (EqualsIgnoreCase(remoteUrl, old(activeRemoteUrl)) ==> unchanged(this))
            && (!EqualsIgnoreCase(remoteUrl, old(activeRemoteUrl)) ==>
                  && activeLocation == Some(old(remoteLocations)[remoteUrl])
                  && activeRemoteUrl == remoteUrl
                  && catalogUrl == UrlJoin(remoteUrl, old(remoteLocations)[remoteUrl].remoteCatalogName)
                  && isRemoteLocationActive
                  && effects == old(effects) + HandlerSwitchEffects(catalogUrl, old(isRemoteLocationActive))))
    }

    /**
     * `ActivateRemoteLocationAsync(string)`. The guard looks at the active URL,
     * which only this method's success path sets, so a handler that has never
     * been activated stays dormant.
     */
    method ActivateRemoteLocation(remoteUrl: string) returns (ok: bool)
      requires Valid()
      modifies this
      ensures Valid()
      ensures ActivationOutcome(remoteUrl, ok)
      ensures old(Dormant()) ==> !ok && Dormant()
    {
      if activeRemoteUrl == "" {
        return false;
      }
      if remoteUrl !in remoteLocations {
        return false;
      }
      var location := remoteLocations[remoteUrl];
      if !location.enabled {
        return false;
      }
      if EqualsIgnoreCase(remoteUrl, activeRemoteUrl) {
        return true;
      }
      effects := effects + [InitializeAddressables];
      activeLocation := Some(location);
      activeRemoteUrl := remoteUrl;
      var catalog := location.remoteCatalogName;
      catalogUrl := UrlJoin(activeRemoteUrl, catalog);
      effects := effects + [LoadContentCatalog(catalogUrl), CleanBundleCache];
      if !isRemoteLocationActive {
        effects := effects + [ClearTransformHook, InstallTransformHook];
      }
      isRemoteLocationActive := true;
      return true;
    }

    /**
     * The path the transform rewrites in `internalId`: the filter path when the
     * id contains it, else the placeholder key when the id contains that, else
     * nothing. An empty filter path is contained in every id and so wins.
     */
    function FilterPath(internalId: string): (filterPath: string)
    {
      if Contains(internalId, filterCatalogPath) then filterCatalogPath
      else if Contains(internalId, remoteLoadPathKey) then remoteLoadPathKey
      else ""
    }

    /** The filter path is one of the two configured paths, occurs in the id, and prefers the filter path. */
    lemma FilterPathSpec(internalId: string)
      ensures FilterPath(internalId) == "" || Contains(internalId, FilterPath(internalId))
      ensures FilterPath(internalId) in {"", filterCatalogPath, remoteLoadPathKey}
      ensures Contains(internalId, filterCatalogPath) <==> FilterPath(internalId) == filterCatalogPath
      ensures filterCatalogPath == "" ==> FilterPath(internalId) == ""
      ensures FilterPath(internalId) == "" && filterCatalogPath != "" ==>
        !Contains(internalId, filterCatalogPath) && (remoteLoadPathKey == "" || !Contains(internalId, remoteLoadPathKey))
    {
      assert Occurs(internalId, [], 0);
    }

    /**
     * The hook handed to the engine: inactive, or when the id already holds
     * the active URL ignoring case, the id is returned as it is; otherwise the
     * filter path, when there is one, is replaced by the replacement path.
     */
    function TransformInternalId(location: ResourceLocation): (id: string)
      reads this`isRemoteLocationActive, this`activeRemoteUrl
      ensures !isRemoteLocationActive ==> id == location.internalId
      ensures ContainsIgnoreCase(location.internalId, activeRemoteUrl) ==> id == location.internalId
      ensures id != location.internalId ==>
        && FilterPath(location.internalId) != ""
        && Contains(location.internalId, FilterPath(location.internalId))
        && id == Replace(location.internalId, FilterPath(location.internalId), replacementCatalogPath)
    {
      var internalId := location.internalId;
      if !isRemoteLocationActive then internalId
      else if ContainsIgnoreCase(internalId, activeRemoteUrl) then internalId
      else
        var filterPath := FilterPath(internalId);
        if filterPath != "" then Replace(internalId, filterPath, replacementCatalogPath) else internalId
    }

    /** A dormant handler's transform is the identity. */
    lemma DormantTransformIsIdentity(location: ResourceLocation)
      requires Dormant()
      ensures TransformInternalId(location) == location.internalId
    {
    }

    /** An empty filter path switches the rewrite off, whatever the placeholder key. */
    lemma EmptyFilterTransformIsIdentity(location: ResourceLocation)
      requires filterCatalogPath == ""
      ensures TransformInternalId(location) == location.internalId
    {
      FilterPathSpec(location.internalId);
    }

    /** The filter path takes precedence over the placeholder key when the id contains both. */
    lemma FilterPathTakesPrecedence(location: ResourceLocation)
      requires isRemoteLocationActive && !ContainsIgnoreCase(location.internalId, activeRemoteUrl)
      requires filterCatalogPath != "" && Contains(location.internalId, filterCatalogPath)
      ensures TransformInternalId(location) == Replace(location.internalId, filterCatalogPath, replacementCatalogPath)
    {
    }

    /** Without the filter path, an id holding the placeholder key has the key replaced. */
    lemma PlaceholderKeyReplaced(location: ResourceLocation)
      requires isRemoteLocationActive && !ContainsIgnoreCase(location.internalId, activeRemoteUrl)
      requires !Contains(location.internalId, filterCatalogPath)
      requires remoteLoadPathKey != "" && Contains(location.internalId, remoteLoadPathKey)
      ensures TransformInternalId(location) == Replace(location.internalId, remoteLoadPathKey, replacementCatalogPath)
    {
    }

    /**
     * When the replacement path holds the active URL ignoring case, the
     * transform settles after one step: a rewritten id is left alone by the
     * next call.
     */
    lemma {:induction false} TransformSettles(location: ResourceLocation)
      requires ContainsIgnoreCase(replacementCatalogPath, activeRemoteUrl)
      ensures TransformInternalId(location.(internalId := TransformInternalId(location))) == TransformInternalId(location)
    {
      var once := TransformInternalId(location);
      if once != location.internalId {
        var filterPath := FilterPath(location.internalId);
        ReplaceInsertsNew(location.internalId, filterPath, replacementCatalogPath);
        ContainsIgnoreCaseThrough(once, replacementCatalogPath, activeRemoteUrl);
      }
    }
  }
}
