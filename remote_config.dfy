/**
 * The configuration records: `AddressableRemoteConfig`, the settings asset,
 * and `AddressableRemoteValue`, one mirror of the remote content.
 * Unity serialises unset strings as empty strings, so strings are never null here.
 */
module RemoteConfig {

  /** `AddressableRemoteValue`: a mirror. `enabled == false` means the tool must not use it. */
  datatype Mirror = Mirror(
    name: string,
    enabled: bool,
    testUrl: string,
    remoteUrl: string,
    remoteCatalogName: string)

  /** `AddressableRemoteConfig`: the global switch, the probing settings and the configured mirrors. */
  datatype Config = Config(
    enabled: bool,
    urlRetryCount: int,
    timeoutSeconds: int,
    remotes: seq<Mirror>)

  /** `new AddressableRemoteValue { ... }` with every field but `enabled` given: `enabled` keeps its initialiser. */
  function NewMirror(name: string, testUrl: string, remoteUrl: string, remoteCatalogName: string): (m: Mirror)
    ensures m.enabled
    ensures m.name == name && m.testUrl == testUrl
    ensures m.remoteUrl == remoteUrl && m.remoteCatalogName == remoteCatalogName
  {
    Mirror(name, true, testUrl, remoteUrl, remoteCatalogName)
  }

  /** A freshly created settings asset: its field initialisers. */
  function NewConfig(): (c: Config)
    ensures c.enabled
    ensures c.urlRetryCount == 3 && c.timeoutSeconds == 10
    ensures c.remotes == []
  {
    Config(true, 3, 10, [])
  }
}
