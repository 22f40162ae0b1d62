/**
 * The Chromium loader of the older revision (`__get_chromium_installed_extensions` in `main.py`):
 * Windows paths only, built from SystemDrive, which must be set before any user is scanned. Each
 * user's scan is inside the `try`, so no user's exception reaches the caller. The locale step
 * reads `_locales/en` only and keeps the catalog's values as they are; the version directory's
 * name is kept verbatim.
 */
module LegacyChromium {
  import opened Python
  import opened Host
  import opened Text
  import opened Sorting
  import opened Gathering
  import opened Permissions
  import opened Records
  import opened LegacyRecords
  import Locale
  import Chromium

  /** `browser.replace(' ', '\\')`: every space-separated word of the browser name is a directory. */
  function BrowserDirs(browser: string): seq<string>
  {
    Split(browser, ' ')
  }

  /** The `User Data` directory that holds `Local State`, written with a doubled separator after the drive. */
  function StateRoot(drive: string, username: string, browser: string): (r: Path)
    ensures |r| >= 7 && r[3] == username && r[|r| - 1] == "User Data"
    ensures |r| == 7 + |BrowserDirs(browser)|
    ensures r[0] == drive && r[1] == "\\\\" && r[2] == "Users" && r[4] == "AppData" && r[5] == "Local"
    ensures r[6..|r| - 1] == BrowserDirs(browser)
  {
    [drive, "\\\\", "Users", username, "AppData", "Local"] + BrowserDirs(browser) + ["User Data"]
  }

  /** The `User Data` directory that holds the profiles, written with a single separator after the drive. */
  function ProfilesRoot(drive: string, username: string, browser: string): (r: Path)
    ensures |r| >= 6 && r[2] == username && r[|r| - 1] == "User Data"
    ensures r[0] == drive && r[5..|r| - 1] == BrowserDirs(browser)
    ensures var state := StateRoot(drive, username, browser); r == state[..1] + state[2..]
  {
    [drive, "Users", username, "AppData", "Local"] + BrowserDirs(browser) + ["User Data"]
  }

  /** The locale catalog directory: always `_locales/en`. */
  function CatalogDir(versionDir: Path): Path
  {
    versionDir + ["_locales", "en"]
  }

  /**
   * The inline resolution of a placeholder field: a dict hit gives its message as stored ("" when
   * absent); a string hit is looked up again as is, and a non-empty second hit gives its message
   * as stored (None when absent), an empty or missing one the string itself; any other hit is a
   * TypeError.
   */
  function ResolveInline(field: Json, messages: Json): (r: Result<Json>)
    ensures !field.JStr? || !messages.JObj? ==> r == Err(AttributeError)
    ensures field.JStr? && messages.JObj? ==>
      var first := Locale.FirstHit(Locale.PlaceholderKey(field.s), messages.members);
      && (first.JObj? ==> r == Ok(GetOr(first.members, "message", JStr(""))))
      && (first.JStr? && !Truthy(Locale.SecondHit(first.s, messages.members)) ==> r == Ok(first))
      && (first.JStr? && Truthy(Locale.SecondHit(first.s, messages.members)) ==>
            r == Get(Locale.SecondHit(first.s, messages.members), "message", JNull))
      && (!first.JObj? && !first.JStr? ==> r == Err(TypeError))
  {
    if !field.JStr? || !messages.JObj? then Err(AttributeError)
    else
      match Locale.FirstHit(Locale.PlaceholderKey(field.s), messages.members)
      case JObj(entry) => Ok(GetOr(entry, "message", JStr("")))
      case JStr(k) =>
        var second := Locale.SecondHit(k, messages.members);
        if Truthy(second) then Get(second, "message", JNull) else Ok(JStr(k))
      case _ => Err(TypeError)
  }

  /**
   * The current revision's resolution is this one followed by `str`: the two fail together, with
   * the same exception, and agree on every value up to `str`.
   */
  lemma ResolveInlineAgainstCurrent(field: Json, messages: Json)
    ensures ResolveInline(field, messages).Ok? <==> Locale.Resolve(field, messages).Ok?
    ensures ResolveInline(field, messages).Err? ==> ResolveInline(field, messages).error == Locale.Resolve(field, messages).error
    ensures ResolveInline(field, messages).Ok? ==> Locale.Resolve(field, messages).value == Str(ResolveInline(field, messages).value)
  {
    if field.JStr? && messages.JObj? {
      var key := Locale.PlaceholderKey(field.s);
      var first := Locale.FirstHit(key, messages.members);
      assert Get(messages, Lower(key), JStr(key)) == Ok(first);
      if first.JStr? {
        assert Get(messages, first.s, JNull) == Ok(Locale.SecondHit(first.s, messages.members));
      }
    }
  }

  /** A nested entry without a message gives None here, where the current revision gives the text "None". */
  lemma ResolveInlineKeepsNone(field: string, catalog: seq<Member>, k: string, entry: seq<Member>)
    requires Lookup(catalog, Lower(Locale.PlaceholderKey(field))) == Some(JStr(k))
    requires Lookup(catalog, k) == Some(JObj(entry)) && entry != [] && !HasKey(entry, "message")
    ensures ResolveInline(JStr(field), JObj(catalog)) == Ok(JNull)
    ensures Locale.Resolve(JStr(field), JObj(catalog)) == Ok("None")
  {
    ResolveInlineAgainstCurrent(JStr(field), JObj(catalog));
  }

  /** The `"MSG" in extension_name` branch: the first file of `_locales/en` is the catalog. */
  function Localize(fs: FileSystem, versionDir: Path, name: Json, description: Json): (r: Result<Chromium.Labels>)
    ensures r.Ok? ==> r.value.kind == "app"
    ensures !fs.IsDir(CatalogDir(versionDir)) ==> r == Err(OSError(CatalogDir(versionDir)))
    ensures fs.IsDir(CatalogDir(versionDir)) && fs.dirs[CatalogDir(versionDir)] == [] ==> r == Err(IndexError)
    ensures r.Ok? ==>
      var dir := CatalogDir(versionDir);
      && fs.IsDir(dir) && fs.dirs[dir] != [] && fs.LoadJson(dir + [fs.dirs[dir][0]]).Ok?
      && var messages := fs.LoadJson(dir + [fs.dirs[dir][0]]).value;
      ResolveInline(name, messages) == Ok(r.value.name)
      && ResolveInline(description, messages) == Ok(r.value.description)
    ensures var dir := CatalogDir(versionDir);
      fs.IsDir(dir) && fs.dirs[dir] != [] ==>
        var file := dir + [fs.dirs[dir][0]];
        && (fs.LoadJson(file).Err? ==> r == Err(fs.LoadJson(file).error))
        && (fs.LoadJson(file).Ok? ==>
              var resolvedName := ResolveInline(name, fs.LoadJson(file).value);
              var resolvedDescription := ResolveInline(description, fs.LoadJson(file).value);
              && (resolvedName.Err? ==> r == Err(resolvedName.error))
              && (resolvedName.Ok? && resolvedDescription.Err? ==> r == Err(resolvedDescription.error))
              && (resolvedName.Ok? && resolvedDescription.Ok? ==>
                    r == Ok(Chromium.Labels(resolvedName.value, resolvedDescription.value, "app"))))
  {
    var dir := CatalogDir(versionDir);
    var entries :- fs.ListDir(dir);
    if |entries| == 0 then Err(IndexError)
    else
      var messages :- fs.LoadJson(dir + [entries[0]]);
      var resolvedName :- ResolveInline(name, messages);
      var resolvedDescription :- ResolveInline(description, messages);
      Ok(Chromium.Labels(resolvedName, resolvedDescription, "app"))
  }

  /**
   * Where `_locales/en` exists the two revisions read the same catalog: they fail together, and
   * the current labels are `str` of these.
   */
  lemma LocalizeAgainstCurrent(fs: FileSystem, versionDir: Path, name: Json, description: Json)
    requires fs.Exists(CatalogDir(versionDir))
    ensures Localize(fs, versionDir, name, description).Ok? <==> Chromium.Localize(fs, versionDir, name, description).Ok?
    ensures Localize(fs, versionDir, name, description).Ok? ==>
      var older := Localize(fs, versionDir, name, description).value;
      Chromium.Localize(fs, versionDir, name, description).value ==
        Chromium.Labels(JStr(Str(older.name)), JStr(Str(older.description)), "app")
  {
    var dir := CatalogDir(versionDir);
    assert Chromium.CatalogDir(fs, versionDir) == dir;
    if fs.IsDir(dir) && fs.dirs[dir] != [] && fs.LoadJson(dir + [fs.dirs[dir][0]]).Ok? {
      var messages := fs.LoadJson(dir + [fs.dirs[dir][0]]).value;
      ResolveInlineAgainstCurrent(name, messages);
      ResolveInlineAgainstCurrent(description, messages);
    }
  }

  /** Without `_locales/en` an app fails here even when `_locales/en-US` would serve the current revision. */
  lemma NoFallbackCatalog(fs: FileSystem, versionDir: Path, name: Json, description: Json)
    requires !fs.Exists(CatalogDir(versionDir))
    ensures Localize(fs, versionDir, name, description) == Err(OSError(versionDir + ["_locales", "en"]))
    ensures Chromium.CatalogDir(fs, versionDir) == versionDir + ["_locales", "en-US"]
  {
  }

  /** The body of the `for extension_folder` loop. */
  function FolderRecord(fs: FileSystem, username: string, browser: string, profile: string, extDir: Path, folder: string)
    : (r: Result<LegacyInfo>)
    ensures r.Ok? ==>
      && r.value.username == username && r.value.browser == browser && r.value.profile == [profile]
      && r.value.id == JStr(folder) && r.value.path == OnDisk(extDir + [folder])
      && r.value.homepageUrl == JStr("") && r.value.active == JBool(true)
      && r.value.optionalPermissions == Some(Permission(JNull, JNull))
    ensures r.Ok? ==>
      && Chromium.VersionOf(fs, extDir + [folder]).Ok? && Chromium.ManifestOf(fs, extDir + [folder]).Ok?
      && r.value.version == JStr(Chromium.VersionOf(fs, extDir + [folder]).value)
    ensures r.Ok? ==>
      var manifest := Chromium.ManifestOf(fs, extDir + [folder]).value;
      && manifest.JObj?
      && r.value.userPermissions ==
           Some(Permission(GetOr(manifest.members, "permissions", JNull), GetOr(manifest.members, "hostPermissions", JNull)))
      && r.value.creator == GetOr(manifest.members, "author", JStr(""))
      && (r.value.extensionType == JStr("app") <==> Contains("MSG", GetOr(manifest.members, "name", JStr(""))) == Ok(true))
      && (r.value.extensionType == JStr("extension") <==> Contains("MSG", GetOr(manifest.members, "name", JStr(""))) == Ok(false))
      && (r.value.extensionType == JStr("extension") ==>
            r.value.name == GetOr(manifest.members, "name", JStr(""))
            && r.value.description == GetOr(manifest.members, "description", JStr("")))
    ensures r.Ok? && r.value.extensionType == JStr("app") ==>
      var folderPath := extDir + [folder];
      var members := Chromium.ManifestOf(fs, folderPath).value.members;
      Localize(fs, folderPath + [Chromium.VersionOf(fs, folderPath).value],
               GetOr(members, "name", JStr("")), GetOr(members, "description", JStr("")))
        == Ok(Chromium.Labels(r.value.name, r.value.description, "app"))
    ensures r.Ok? ==>
      && fs.StampOf(extDir + [folder]).Ok?
      && r.value.installDate == FileTime(fs.StampOf(extDir + [folder]).value.ctime)
      && r.value.updateDate == FileTime(fs.StampOf(extDir + [folder]).value.mtime)
    ensures var folderPath := extDir + [folder];
      r.Ok? <==>
        && Chromium.ManifestOf(fs, folderPath).Ok? && Chromium.ManifestOf(fs, folderPath).value.JObj?
        && var members := Chromium.ManifestOf(fs, folderPath).value.members;
        && var name := GetOr(members, "name", JStr(""));
        && Contains("MSG", name).Ok?
        && (Contains("MSG", name).value ==>
              Localize(fs, folderPath + [Chromium.VersionOf(fs, folderPath).value], name, GetOr(members, "description", JStr(""))).Ok?)
        && fs.StampOf(folderPath).Ok?
  {
    var folderPath := extDir + [folder];
    var version :- Chromium.VersionOf(fs, folderPath);
    var manifest :- fs.LoadJson(folderPath + [version, Chromium.ManifestFile]);
    if !manifest.JObj? then Err(AttributeError)
    else
      var name := GetOr(manifest.members, "name", JStr(""));
      var description := GetOr(manifest.members, "description", JStr(""));
      var isApp :- Contains("MSG", name);
      var labels :- if isApp then Localize(fs, folderPath + [version], name, description)
                    else Ok(Chromium.Labels(name, description, "extension"));
      var stamp :- fs.StampOf(folderPath);
      var block := JObj([Member("permissions", GetOr(manifest.members, "permissions", JNull)),
                         Member("origins", GetOr(manifest.members, "hostPermissions", JNull))]);
      ParseBlock(Permission(GetOr(manifest.members, "permissions", JNull), GetOr(manifest.members, "hostPermissions", JNull)));
      var userPermissions := Parse(block).value;
      Ok(LegacyInfo(
        username, browser, [profile], JStr(folder), labels.name,
        JStr(version), JStr(labels.kind), labels.description,
        GetOr(manifest.members, "author", JStr("")), JStr(""), JBool(true),
        FileTime(stamp.ctime), FileTime(stamp.mtime), OnDisk(folderPath),
        userPermissions, Some(Permission(JNull, JNull))))
  }

  /**
   * For an extension that is not an app the two revisions build the same record but for the
   * version: kept verbatim here, with `_0` removed in the current revision.
   */
  lemma FolderRecordAgainstCurrent(fs: FileSystem, username: string, browser: string, profile: string, extDir: Path, folder: string)
    requires Chromium.ManifestOf(fs, extDir + [folder]).Ok?
    requires var manifest := Chromium.ManifestOf(fs, extDir + [folder]).value;
      manifest.JObj? && Contains("MSG", GetOr(manifest.members, "name", JStr(""))) == Ok(false)
    ensures FolderRecord(fs, username, browser, profile, extDir, folder).Ok?
        <==> Chromium.FolderRecord(fs, username, browser, profile, extDir, folder).Ok?
    ensures FolderRecord(fs, username, browser, profile, extDir, folder).Ok? ==>
      var current := Chromium.FolderRecord(fs, username, browser, profile, extDir, folder).value;
      && current.version == JStr(Chromium.StripVersion(Chromium.VersionOf(fs, extDir + [folder]).value))
      && FolderRecord(fs, username, browser, profile, extDir, folder).value
           == Older(current).(version := JStr(Chromium.VersionOf(fs, extDir + [folder]).value))
  {
  }

  function FolderStep(fs: FileSystem, username: string, browser: string, profile: string, extDir: Path): string -> Partial<LegacyInfo>
  {
    folder => FromResult(FolderRecord(fs, username, browser, profile, extDir, folder))
  }

  /** One profile: nothing when its `Extensions` directory does not exist, otherwise its folders but `Temp`, sorted. */
  function ProfileRecords(fs: FileSystem, username: string, browser: string, root: Path, profile: string): (r: Partial<LegacyInfo>)
    ensures !fs.Exists(root + [profile, Chromium.ExtensionsDir]) ==> r == Partial([], None)
    ensures fs.Exists(root + [profile, Chromium.ExtensionsDir]) && !fs.IsDir(root + [profile, Chromium.ExtensionsDir]) ==>
      r == Partial([], Some(OSError(root + [profile, Chromium.ExtensionsDir])))
    ensures forall rec :: rec in r.items ==> rec.username == username && rec.browser == browser && rec.profile == [profile]
  {
    var extDir := root + [profile, Chromium.ExtensionsDir];
    if !fs.Exists(extDir) then Partial([], None)
    else match fs.ListDir(extDir)
      case Err(e) => Partial([], Some(e))
      case Ok(names) =>
        GatherAll(Chromium.VisibleFolders(names), FolderStep(fs, username, browser, profile, extDir),
                  (rec: LegacyInfo) => rec.username == username && rec.browser == browser && rec.profile == [profile]);
        Gather(Chromium.VisibleFolders(names), FolderStep(fs, username, browser, profile, extDir))
  }

  function ProfileStep(fs: FileSystem, username: string, browser: string, root: Path): string -> Partial<LegacyInfo>
  {
    profile => ProfileRecords(fs, username, browser, root, profile)
  }

  /** Everything inside the `try` for one user: `Local State` read under one root, the profiles under the other. */
  function ProfilesWalk(fs: FileSystem, drive: string, browser: string, username: string): (r: Partial<LegacyInfo>)
    ensures var profiles := Chromium.LocalStateProfiles(fs, StateRoot(drive, username, browser));
      && (profiles.Err? ==> r == Partial([], Some(profiles.error)))
      && (profiles.Ok? ==>
            (r.failure.None? <==> forall profile :: profile in profiles.value ==>
                                    ProfileRecords(fs, username, browser, ProfilesRoot(drive, username, browser), profile).failure.None?))
  {
    match Chromium.LocalStateProfiles(fs, StateRoot(drive, username, browser))
    case Err(e) => Partial([], Some(e))
    case Ok(profiles) =>
      GatherSucceeds(profiles, ProfileStep(fs, username, browser, ProfilesRoot(drive, username, browser)));
      Gather(profiles, ProfileStep(fs, username, browser, ProfilesRoot(drive, username, browser)))
  }

  /** One user: whatever the walk appended before an exception, the exception itself caught. */
  function UserStep(fs: FileSystem, drive: string, browser: string): string -> Partial<LegacyInfo>
  {
    username => Partial(ProfilesWalk(fs, drive, browser, username).items, None)
  }

  /** `__get_chromium_installed_extensions(usernames, browser)`: raises only when SystemDrive is unset. */
  function Installed(host: Host, usernames: seq<string>, browser: string): (r: Result<seq<LegacyInfo>>)
    ensures r.Err? <==> host.systemDrive.None?
    ensures r.Err? ==> r.error == MissingSystemDrive
  {
    match host.systemDrive
    case None => Err(MissingSystemDrive)
    case Some(drive) => Ok(Gather(usernames, UserStep(host.fs, drive, browser)).items)
  }

  /** With SystemDrive set, the result is every user's records, in user order, whatever each user's scan raised. */
  lemma InstalledCollectsAll(host: Host, usernames: seq<string>, browser: string)
    requires host.systemDrive.Some?
    ensures Installed(host, usernames, browser)
      == Ok(Flatten(usernames, UserStep(host.fs, host.systemDrive.value, browser)))
  {
    var step := UserStep(host.fs, host.systemDrive.value, browser);
    if Gather(usernames, step).failure.Some? {
      GatherFailed(usernames, step);
    }
    GatherComplete(usernames, step);
  }

  /** SystemDrive is checked before the first user: without it the scan raises even for no users. */
  lemma InstalledWithoutDrive(host: Host, browser: string)
    requires host.systemDrive.None?
    ensures Installed(host, [], browser) == Err(MissingSystemDrive)
  {
  }

  /** Every record one user's walk appends names the browser scanned. */
  lemma WalkTagged(fs: FileSystem, drive: string, browser: string, username: string)
    ensures forall rec :: rec in ProfilesWalk(fs, drive, browser, username).items ==> rec.browser == browser
  {
    var P := (rec: LegacyInfo) => rec.browser == browser;
    var root := ProfilesRoot(drive, username, browser);
    if Chromium.LocalStateProfiles(fs, StateRoot(drive, username, browser)).Ok? {
      var profiles := Chromium.LocalStateProfiles(fs, StateRoot(drive, username, browser)).value;
      GatherAll(profiles, ProfileStep(fs, username, browser, root), P);
    }
  }

  /** Every record names the browser scanned. */
  lemma InstalledTagged(host: Host, usernames: seq<string>, browser: string)
    requires Installed(host, usernames, browser).Ok?
    ensures forall rec :: rec in Installed(host, usernames, browser).value ==> rec.browser == browser
  {
    var drive := host.systemDrive.value;
    var P := (rec: LegacyInfo) => rec.browser == browser;
    forall u | u in usernames
      ensures forall rec :: rec in UserStep(host.fs, drive, browser)(u).items ==> P(rec)
    {
      WalkTagged(host.fs, drive, browser, u);
    }
    GatherAll(usernames, UserStep(host.fs, drive, browser), P);
  }

  /** The loop body for one extension folder, with the name, description and kind reassigned in the locale branch. */
  method ReadFolder(fs: FileSystem, username: string, browser: string, profile: string, extDir: Path, folder: string)
    returns (r: Result<LegacyInfo>)
    ensures r == FolderRecord(fs, username, browser, profile, extDir, folder)
  {
    var folderPath := extDir + [folder];
    var listing := fs.ListDir(folderPath);
    if listing.Err? {
      return Err(listing.error);
    }
    if |listing.value| == 0 {
      return Err(IndexError);
    }
    var version := listing.value[0];
    var loaded := fs.LoadJson(folderPath + [version, Chromium.ManifestFile]);
    if loaded.Err? {
      return Err(loaded.error);
    }
    var manifest := loaded.value;
    if !manifest.JObj? {
      return Err(AttributeError);
    }
    var name := GetOr(manifest.members, "name", JStr(""));
    var description := GetOr(manifest.members, "description", JStr(""));
    var kind := "extension";
    var isApp := Contains("MSG", name);
    if isApp.Err? {
      return Err(isApp.error);
    }
    if isApp.value {
      var labels := Localize(fs, folderPath + [version], name, description);
      if labels.Err? {
        return Err(labels.error);
      }
      name := labels.value.name;
      description := labels.value.description;
      kind := "app";
    }
    var stamp := fs.StampOf(folderPath);
    if stamp.Err? {
      return Err(stamp.error);
    }
    var block := JObj([Member("permissions", GetOr(manifest.members, "permissions", JNull)),
                       Member("origins", GetOr(manifest.members, "hostPermissions", JNull))]);
    ParseBlock(Permission(GetOr(manifest.members, "permissions", JNull), GetOr(manifest.members, "hostPermissions", JNull)));
    var userPermissions := Parse(block);
    r := Ok(LegacyInfo(
      username, browser, [profile], JStr(folder), name,
      JStr(version), JStr(kind), description,
      GetOr(manifest.members, "author", JStr("")), JStr(""), JBool(true),
      FileTime(stamp.value.ctime), FileTime(stamp.value.mtime), OnDisk(folderPath),
      userPermissions.value, Some(Permission(JNull, JNull))));
  }

  /** The `for extension_folder in extension_folders` loop. */
  method LoadFolders(fs: FileSystem, username: string, browser: string, profile: string, extDir: Path, folders: seq<string>)
    returns (records: seq<LegacyInfo>, failure: Option<Error>)
    ensures Partial(records, failure) == Gather(folders, FolderStep(fs, username, browser, profile, extDir))
  {
    var step := FolderStep(fs, username, browser, profile, extDir);
    records := [];
    var i := 0;
    while i < |folders|
      invariant i <= |folders|
      invariant Partial(records, None) == Gather(folders[..i], step)
    {
      GatherStep(folders, step, i);
      var record := ReadFolder(fs, username, browser, profile, extDir, folders[i]);
      if record.Err? {
        GatherStops(folders, step, i + 1);
        return records, Some(record.error);
      }
      records := records + [record.value];
      i := i + 1;
    }
    assert folders[..i] == folders;
    failure := None;
  }

  /** One profile of the `for profile in chrome_profiles` loop. */
  method LoadProfile(fs: FileSystem, username: string, browser: string, root: Path, profile: string)
    returns (records: seq<LegacyInfo>, failure: Option<Error>)
    ensures Partial(records, failure) == ProfileRecords(fs, username, browser, root, profile)
  {
    var extDir := root + [profile, Chromium.ExtensionsDir];
    if !fs.Exists(extDir) {
      return [], None;
    }
    var listing := fs.ListDir(extDir);
    if listing.Err? {
      return [], Some(listing.error);
    }
    var folders := Chromium.WithoutTemp(listing.value);
    folders := SortBy(folders, Identity);
    records, failure := LoadFolders(fs, username, browser, profile, extDir, folders);
  }

  /** The body of the `try` for one user. */
  method LoadProfiles(fs: FileSystem, drive: string, browser: string, username: string)
    returns (records: seq<LegacyInfo>, failure: Option<Error>)
    ensures Partial(records, failure) == ProfilesWalk(fs, drive, browser, username)
  {
    var profiles := Chromium.LocalStateProfiles(fs, StateRoot(drive, username, browser));
    if profiles.Err? {
      return [], Some(profiles.error);
    }
    var root := ProfilesRoot(drive, username, browser);
    var step := ProfileStep(fs, username, browser, root);
    records := [];
    var i := 0;
    while i < |profiles.value|
      invariant i <= |profiles.value|
      invariant Partial(records, None) == Gather(profiles.value[..i], step)
    {
      GatherStep(profiles.value, step, i);
      var found, stopped := LoadProfile(fs, username, browser, root, profiles.value[i]);
      records := records + found;
      if stopped.Some? {
        GatherStops(profiles.value, step, i + 1);
        return records, stopped;
      }
      i := i + 1;
    }
    assert profiles.value[..i] == profiles.value;
    failure := None;
  }

  /** `__get_chromium_installed_extensions`: the SystemDrive check, then each user inside its own `try`. */
  method GetChromiumInstalledExtensions(host: Host, usernames: seq<string>, browser: string)
    returns (r: Result<seq<LegacyInfo>>)
    ensures r == Installed(host, usernames, browser)
  {
    if host.systemDrive.None? {
      return Err(MissingSystemDrive);
    }
    var drive := host.systemDrive.value;
    var step := UserStep(host.fs, drive, browser);
    var records: seq<LegacyInfo> := [];
    var i := 0;
    while i < |usernames|
      invariant i <= |usernames|
      invariant Partial(records, None) == Gather(usernames[..i], step)
    {
      GatherStep(usernames, step, i);
      var found, caught := LoadProfiles(host.fs, drive, browser, usernames[i]);
      records := records + found;
      i := i + 1;
    }
    assert usernames[..i] == usernames;
    r := Ok(records);
  }
}
