/** The extension record of the older revision in `main.py`: the same fields, `id` for the extension id and no short browser name. */
module LegacyRecords {
  import opened Python
  import opened Host
  import opened Permissions
  import opened Records

  datatype LegacyInfo = LegacyInfo(
    username: string,
    browser: string,
    profile: Path,
    id: Json,
    name: Json,
    version: Json,
    extensionType: Json,
    description: Json,
    creator: Json,
    homepageUrl: Json,
    active: Json,
    installDate: Instant,
    updateDate: Instant,
    path: Location,
    userPermissions: Option<Permission>,
    optionalPermissions: Option<Permission>)

  /** The older record a current record corresponds to: the short browser name dropped. */
  function Older(info: ExtensionInfo): (r: LegacyInfo)
    ensures r.id == info.extensionId && r.browser == info.browser && r.profile == info.profile
    ensures r.username == info.username && r.name == info.name && r.version == info.version
    ensures r.extensionType == info.extensionType && r.description == info.description
    ensures r.creator == info.creator && r.homepageUrl == info.homepageUrl && r.active == info.active
    ensures r.installDate == info.installDate && r.updateDate == info.updateDate && r.path == info.path
    ensures r.userPermissions == info.userPermissions && r.optionalPermissions == info.optionalPermissions
  {
    LegacyInfo(info.username, info.browser, info.profile, info.extensionId, info.name, info.version,
               info.extensionType, info.description, info.creator, info.homepageUrl, info.active,
               info.installDate, info.updateDate, info.path, info.userPermissions, info.optionalPermissions)
  }
}
