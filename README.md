# Addressable remote locations

This is a Dafny model of the remote-location part of UniGame Addressable Tools. A game ships with a list of mirrors. Each mirror (`AddressableRemoteValue`) has a test URL, a content URL and a catalog name. A URL racer probes the test URLs of the enabled mirrors to find the fastest one. Activating a mirror loads its content catalog and installs a hook that the Addressables engine calls for every resource id. From then on the hook rewrites resource ids so that they point at the active mirror. The start-up code of the repository (`Runtime/AddressableTools.cs:34-47`) registers the configured mirrors in an `AddressableLocationHandler` and races them, discarding the result; it activates nothing.

The project has these modules:

- `Wrappers`: `Option`.
- `Strings`: the .NET string operations the code relies on:
  - ordinal and ignore-case `Contains`/`IndexOf`;
  - ordinal `Replace`;
  - `TrimEnd`/`TrimStart` of one character;
  - the catalog URL join built from the two trims.
- `RemoteConfig`: the `AddressableRemoteConfig` and `AddressableRemoteValue` records.
- `Engine`: what the component sees of the engine:
  - resource locations;
  - the racer's verdict;
  - the engine calls, kept as a log.
- `Registry`: the mirror dictionary and its scans, such as the LINQ queries and the `foreach` over the dictionary.
- `Service`: `AddressableLocationService`, a class with the source's fields. Its invariant `Valid` says that the active URL and the catalog URL always belong to the active mirror, and that the rewrite cache is empty while the transform is inactive.
- `Handler`: `AddressableLocationHandler`, the older form of the same component. It has no cache, and it rewrites a fixed placeholder path instead of per-mirror keys. Its activation guard tests the active URL, and only activation itself sets that URL. So `ActivateRemoteLocation` proves that a handler which was never activated stays `Dormant` and answers `false` every time.

Modelling decisions:

- **Enumeration order.** .NET does not specify the order in which a `Dictionary` is enumerated. So every scan takes that order as a parameter `order`, constrained by `IsEnumeration`, and each property holds for every order.
- **Racer.** `UrlChecker.SelectFastestEndPoint` is a function parameter, and each race is recorded in the effect log as `RaceEndpoints(urls, tries, timeout)`.
- **Engine calls.** the race, `Addressables.InitializeAsync`, `LoadContentCatalogAsync`, `CleanBundleCache` and the two assignments to `InternalIdTransformFunc` are recorded in a ghost log, `effects`, rather than performed.
- **What the code does.** Where a reader might expect otherwise, the model follows the code:
  - `ValidateTransform` accepts an id only when the id already contains the active URL.
  - `Remove` leaves the active mirror active.
  - Activation is not all-or-nothing: fields change before the catalog load, and the load's result only decides whether a log line is written.

## Model

| member | source | states |
|---|---|---|
| RemoteConfig.NewMirror | Runtime/AddressableRemoteConfig.cs:40-59 | a new mirror is enabled and carries the given name, test URL, content URL and catalog name |
| RemoteConfig.NewConfig | Runtime/AddressableRemoteConfig.cs:17-36 | a new settings asset is enabled, retries 3 times, times out after 10 seconds and lists no mirrors |
| Strings.FoldCharSpec | Runtime/AddressableLocationService.cs:188 | two characters compare equal ignoring case exactly when they are equal or are one ASCII letter in its two cases; a folded character is never an upper-case letter |
| Strings.FoldIdempotent | Runtime/AddressableLocationService.cs:188 | folding an already folded string changes nothing |
| Strings.FoldSlice | Runtime/AddressableLocationService.cs:188 | folding commutes with taking a substring, so an ignore-case occurrence is the fold of a substring of the id |
| Strings.IndexOf | Runtime/AddressableLocationService.cs:220 | the result is the first position where the substring occurs, or none when it occurs nowhere |
| Strings.Contains | Runtime/AddressableLocationHandler.cs:116-119 | true exactly when the substring occurs at some position |
| Strings.ContainsImpliesContainsIgnoreCase | Runtime/AddressableLocationService.cs:188 | an ordinal occurrence is also an ignore-case occurrence |
| Strings.ContainsTransitive | Runtime/AddressableLocationHandler.cs:109-125 | an occurrence inside an occurrence is an occurrence |
| Strings.ContainsIgnoreCaseThrough | Runtime/AddressableLocationHandler.cs:109-125 | a string that ordinally contains b contains, ignoring case, whatever b contains ignoring case |
| Strings.ReplaceAbsent | Runtime/AddressableLocationService.cs:220 | a string without the old value comes back from `Replace` unchanged |
| Strings.ReplaceBySelf | Runtime/AddressableLocationService.cs:220 | replacing a value by itself changes nothing |
| Strings.ReplaceLength | Runtime/AddressableLocationHandler.cs:125 | a replacement no longer (no shorter) than the old value never lengthens (shortens) the string |
| Strings.ReplaceChanges | Runtime/AddressableLocationService.cs:220 | when the old value occurs and differs from the new one, the string changes |
| Strings.ReplaceInsertsNew | Runtime/AddressableLocationHandler.cs:125 | when the old value occurs, the result contains the new value |
| Strings.TrimEndSpec | Runtime/AddressableLocationService.cs:114 | `TrimEnd` keeps a prefix that does not end in the character and drops only that character |
| Strings.TrimStartSpec | Runtime/AddressableLocationService.cs:114 | `TrimStart` keeps a suffix that does not start with the character and drops only that character |
| Strings.UrlJoinPlain | Runtime/AddressableLocationService.cs:114 | a URL without a trailing `/` and a path without a leading `/` are joined by exactly one `/` |
| Strings.UrlJoinTrailingSlash | Runtime/AddressableLocationService.cs:114 | a trailing `/` on the URL does not change the join |
| Strings.UrlJoinLeadingSlash | Runtime/AddressableLocationHandler.cs:82 | a leading `/` on the catalog name does not change the join |
| Registry.EnabledTestUrls | Runtime/AddressableLocationService.cs:63-69 | the racer's inputs are exactly the test URLs of the enabled mirrors, no more of them than mirrors |
| Registry.EnabledTestUrlsOfKey | Runtime/AddressableLocationService.cs:63-69 | one key contributes its mirror's test URL when the mirror is enabled and nothing when it is disabled |
| Registry.EnabledTestUrlsInOrder | Runtime/AddressableLocationService.cs:63-69 | the racer receives the test URLs in enumeration order: the URLs of concatenated key sequences are the concatenated URLs |
| Registry.FirstWithTestUrl | Runtime/AddressableLocationService.cs:77-79 | the lookup finds the first mirror, in enumeration order, with the winning test URL, or none when no mirror has it |
| Registry.TestUrlHasKey | Runtime/AddressableLocationService.cs:71-79 | a winning URL that the racer was given always finds its mirror |
| Registry.FirstMatch | Runtime/AddressableLocationService.cs:211-226 | the scan stops at the first enabled mirror whose key the id contains ignoring case, skipping every earlier key; with no such key it runs to the end |
| Registry.FirstMatchFindsAny | Runtime/AddressableLocationService.cs:211-226 | whatever the enumeration order, the scan stops exactly when some registered key matches |
| Service.CatalogUrlOf | Runtime/AddressableLocationService.cs:112-114 | the catalog URL is empty exactly when the mirror names no catalog |
| Service.NoEmptyKeyAvoidsEmptyKey | Runtime/AddressableLocationService.cs:217-220 | without a mirror under the empty URL, the scan never reaches `Replace` with an empty key |
| Service.RewriteScan | Runtime/AddressableLocationService.cs:208-226 | the loop returns the rewrite of the first matching key, or the id itself |
| Service.RewriteOnMissSpec | Runtime/AddressableLocationService.cs:208-226 | with no matching key the id is unchanged; otherwise the id is rewritten by some matching key, for every enumeration order |
| Service.DisabledMirrorNeverRewrites | Runtime/AddressableLocationService.cs:215 | a disabled mirror's key is never the one substituted |
| Service.RewriteByActiveKey | Runtime/AddressableLocationService.cs:217-220 | when the first matching key is the active URL itself, the rewrite is the identity |
| Service.CaseOnlyMatchLeavesId | Runtime/AddressableLocationService.cs:211-226 | when the key the scan stops at occurs in the id only in another letter case, the rewrite leaves the id as it is, because the match ignores case and the replacement does not |
| Service.CaseOnlyMatchIsNotReplaced | Runtime/AddressableLocationService.cs:211-226 | an instance over a one-mirror registry: the key `http://cdn-b` stops the scan of `HTTP://CDN-B/x`, which comes back unchanged |
| Service.RewriteChangesOrdinalMatch | Runtime/AddressableLocationService.cs:217-220 | a first matching key that occurs ordinally and differs from the active URL changes the id |
| Service.RewriteChangesExactly | Runtime/AddressableLocationService.cs:211-226 | a cache miss changes the id exactly when the scan stops at a key that occurs ordinally in the id and is not the active URL |
| Service.AddressableLocationService.constructor | Runtime/AddressableLocationService.cs:18-25 | a new service is enabled and inactive, with an empty registry, empty URLs and an empty cache |
| Service.AddressableLocationService.SetStatus | Runtime/AddressableLocationService.cs:31-34 | only the enabled flag changes |
| Service.AddressableLocationService.Register | Runtime/AddressableLocationService.cs:36-40 | a disabled mirror is ignored; an enabled one is upserted under its URL; a registry of enabled mirrors stays so |
| Service.AddressableLocationService.Remove | Runtime/AddressableLocationService.cs:47-50 | answers whether the key was present, and removes that key and no other |
| Service.AddressableLocationService.RemoveRemote | Runtime/AddressableLocationService.cs:42-45 | removal by the mirror's URL |
| Service.AddressableLocationService.SelectRemoteLocation | Runtime/AddressableLocationService.cs:52-87 | an empty registry fails with empty URL and error, and no race is logged. Otherwise one race over the enabled test URLs is logged and success is the racer's. A failure carries the racer's URL and the fixed error text. A success has an empty error and names the first key, in enumeration order, whose mirror has the winning test URL, or `""` when none has it |
| Service.AddressableLocationService.ActivateRemoteLocation | Runtime/AddressableLocationService.cs:89-151 | a disabled mirror fails, and the active URL (ignoring case) succeeds, both with nothing changed. Any other mirror becomes active with its catalog URL and an emptied cache. The engine is initialised, the catalog is loaded only when named, and the bundle cache is cleaned. The hook is installed only if not already active. The invariant is kept |
| Service.AddressableLocationService.ActivateRemoteLocationByUrl | Runtime/AddressableLocationService.cs:153-171 | an empty or unregistered URL fails with that URL and nothing changed; a registered one activates its mirror |
| Service.AddressableLocationService.ValidateTransform | Runtime/AddressableLocationService.cs:178-192 | true exactly when the transform is active and enabled, an active URL is set, and the id contains it ignoring case |
| Service.AddressableLocationService.TransformInternalId | Runtime/AddressableLocationService.cs:194-234 | an id that is not validated comes back unchanged and uncached. A cached location gets its cached id. Otherwise the id rewritten by the first matching key is returned and cached. Nothing else changes and the invariant is kept. The only precondition beyond the invariant and the enumeration order is that such a miss does not stop at the empty key |
| Service.AddressableLocationService.Dispose | Runtime/AddressableLocationService.cs:236-246 | registry and cache are emptied and the transform is off. Mirror, URLs and enabled flag are kept. The hook is cleared only when the transform was not active, as written |
| Handler.AddressableLocationHandler.constructor | Runtime/AddressableLocationHandler.cs:17-22 | a new handler is dormant with an empty registry; the three path settings are as given |
| Handler.AddressableLocationHandler.Register | Runtime/AddressableLocationHandler.cs:24-28 | a disabled mirror is ignored; an enabled one is upserted under its URL |
| Handler.AddressableLocationHandler.Remove | Runtime/AddressableLocationHandler.cs:35-38 | answers whether the key was present, and removes that key and no other |
| Handler.AddressableLocationHandler.RemoveRemote | Runtime/AddressableLocationHandler.cs:30-33 | removal by the mirror's URL |
| Handler.AddressableLocationHandler.SelectRemoteLocation | Runtime/AddressableLocationHandler.cs:40-61 | an empty registry fails with an empty URL and no race is logged; otherwise one race over the enabled test URLs is logged and the racer's verdict comes back verbatim, so its URL is a mirror's test URL, not a key |
| Handler.AddressableLocationHandler.ActivateRemoteLocation | Runtime/AddressableLocationHandler.cs:63-100 | with no active URL, or for an unregistered or disabled mirror, it answers false and changes nothing. The active URL (ignoring case) answers true with nothing changed. Otherwise the mirror becomes active with the joined catalog URL, even for an empty catalog name. The engine calls are made and the hook is installed if the handler was inactive. A dormant handler stays dormant and always answers false |
| Handler.AddressableLocationHandler.FilterPathSpec | Runtime/AddressableLocationHandler.cs:114-119 | the path to rewrite is empty or occurs in the id. It is the filter path exactly when the id contains that path. An empty filter path always wins and selects nothing |
| Handler.AddressableLocationHandler.TransformInternalId | Runtime/AddressableLocationHandler.cs:102-131 | inactive, or with the active URL already in the id ignoring case, the id is unchanged; any change replaces a selected path that occurs in the id by the replacement path |
| Handler.AddressableLocationHandler.DormantTransformIsIdentity | Runtime/AddressableLocationHandler.cs:104-105 | a dormant handler's transform is the identity |
| Handler.AddressableLocationHandler.EmptyFilterTransformIsIdentity | Runtime/AddressableLocationHandler.cs:118-126 | an empty filter path switches the rewrite off whatever the placeholder key |
| Handler.AddressableLocationHandler.FilterPathTakesPrecedence | Runtime/AddressableLocationHandler.cs:116-125 | an id holding the filter path has that path replaced, even if it also holds the placeholder key |
| Handler.AddressableLocationHandler.PlaceholderKeyReplaced | Runtime/AddressableLocationHandler.cs:116-125 | without the filter path, an id holding the placeholder key has the key replaced |
| Handler.AddressableLocationHandler.TransformSettles | Runtime/AddressableLocationHandler.cs:109-125 | when the replacement path holds the active URL, transforming a transformed id changes nothing more |

## Left out

- Asynchrony (`UniTask`, `await`) is left out: each operation runs to completion as one step, and interleavings are not modelled.
- The URL racer's probing, timing and retries are left out; it is a function parameter, and the `time` field of `UrlResult` is not modelled.
- SelectRemoteLocation: the default arguments `tries = 3` and `timeout = 5` of both selection methods are not modelled; callers pass both values.
- The Addressables engine calls are recorded in a ghost log rather than performed, and their results are not modelled. The one result the service looks at, that of the catalog load, only decides whether a log line is written.
- Faults of the awaited engine calls are not modelled: each call is taken to complete. A faulting await in an activation would leave the new mirror, URLs and catalog set and the cache emptied, with the hook not installed.
- Logging (`GameLog`) and the JSON serialisation of the result are left out: they have no effect on state or results.
- Case-insensitive comparison folds only ASCII letters, and one fold stands for both comparisons the source uses: `OrdinalIgnoreCase` (`Runtime/AddressableLocationService.cs:188`, `Runtime/AddressableLocationHandler.cs:74,109`) and `InvariantCultureIgnoreCase` (`Runtime/AddressableLocationService.cs:103,217`). Non-ASCII case pairs, and the culture-sensitive comparison's ignorable characters, which can make it differ from the ordinal one even on ASCII input, are not modelled.
- Null strings are modelled as empty strings, which is what Unity serialises. A null `FirstOrDefault` key becomes `""`.
- Mirrors are values, so a caller's later change to a registered `AddressableRemoteValue` object does not reach the registry.
- `IResourceLocation` is compared by value (primary key and internal id), not by reference.
- Service.AddressableLocationService.TransformInternalId: requires that a validated cache miss does not stop the scan at an enabled mirror registered under the empty URL. There the .NET `Replace` throws `ArgumentException`, which the model does not represent. Invalid ids, cache hits and every other miss are answered.
- Handler.AddressableLocationHandler.TransformInternalId: a null `filterCatalogPath` or `RemoteLoadPathKey` would throw in `Contains`. The model takes the three paths as constructor arguments that are never null, because the source leaves them undefined.
- The interface `IAddressableLocationService`, the unused `_activeRemote` field and `RemoteAddressableLocationKey` constant, the read-only accessors, and the rest of the repository are not part of this model. That includes atlases, editor tooling, asset loading and pooling.
