/**
 * What the location service sees of its collaborators: the engine's resource
 * locations, the URL racer's verdict, and the engine calls it makes, which the
 * model records in a ghost log instead of performing them.
 */
module Engine {

  /**
   * `IResourceLocation`, as far as the rewrite cache and the transforms use it.
   * The model compares locations by value; the engine hands out the same
   * location object for the same resource.
   */
  datatype ResourceLocation = ResourceLocation(primaryKey: string, internalId: string)

  /** `UrlResult` of `UrlChecker.SelectFastestEndPoint`; its elapsed-time field is not modelled. */
  datatype UrlResult = UrlResult(success: bool, url: string)

  /** `UrlChecker.SelectFastestEndPoint(urls, tries, timeout)`: supplied by the caller of the model. */
  type Racer = (seq<string>, int, int) -> UrlResult

  /** A call into the Addressables engine. */
  datatype Effect =
    | RaceEndpoints(urls: seq<string>, tries: int, timeout: int) // UrlChecker.SelectFastestEndPoint(urls, tries, timeout)
    | InitializeAddressables          // Addressables.InitializeAsync()
    | LoadContentCatalog(url: string) // Addressables.LoadContentCatalogAsync(url)
    | CleanBundleCache                // Addressables.CleanBundleCache()
    | ClearTransformHook              // ResourceManager.InternalIdTransformFunc = null
    | InstallTransformHook            // ResourceManager.InternalIdTransformFunc = TransformInternalId
}
