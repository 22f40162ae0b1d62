/** The normalised extension record of the current revision and the values it is built from. */
module Records {
  import opened Python
  import opened Host
  import opened Permissions

  /**
   * When an extension was installed or updated: Firefox records the epoch milliseconds found in
   * `extensions.json`, Chromium the extension directory's file times in seconds. Turning either
   * into a `datetime` is not part of this model.
   */
  datatype Instant = EpochMillis(ms: int) | FileTime(seconds: int)

  /** Where an extension lives: the `path` Firefox declares, or the Chromium extension directory. */
  datatype Location = Declared(value: Json) | OnDisk(dir: Path)

  /**
   * `ExtensionInfo`. Fields the source fills straight from an artifact keep the artifact's value,
   * whatever its type (the dataclass does not check its annotations).
   */
  datatype ExtensionInfo = ExtensionInfo(
    username: string,
    browser: string,
    browserShort: string,
    profile: Path,
    extensionId: Json,
    name: Json,
    version: Json,
    extensionType: Json,
    description: Json,
    creator: Json,
    homepageUrl: Json,
    active: Json,
    installDate: Instant,
    updateDate: Instant,
    path: Location,
    userPermissions: Option<Permission>,
    optionalPermissions: Option<Permission>)
}
