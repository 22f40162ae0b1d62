/**
 * The Chromium loader of the current revision (`__get_chromium_installed_extensions`), shared by
 * Google Chrome and Microsoft Edge: for each user, the profiles named in `Local State`, and in
 * each profile one record per extension folder of `Extensions` (except `Temp`), in name order.
 * An exception inside a user's scan is caught and logged: that user's records so far are kept
 * and the next user is scanned. Only the profile path is computed outside that handler.
 */
module Chromium {
  import opened Python
  import opened Host
  import opened Text
  import opened Sorting
  import opened Gathering
  import opened Permissions
  import opened Records
  import opened ProfilePaths
  import Locale

  const LocalStateFile := "Local State"
  const ExtensionsDir := "Extensions"
  const TempFolder := "Temp"
  const ManifestFile := "manifest.json"

  /** `browser_short`: "Chrome" for Google Chrome and "Edge" for any other name. */
  function BrowserShort(browser: string): (r: string)
    ensures r == "Chrome" <==> browser == "Google Chrome"
    ensures r == "Edge" <==> browser != "Google Chrome"
  {
    if browser == "Google Chrome" then "Chrome" else "Edge"
  }

  /** `extension_version.replace('_0', '')`. */
  function StripVersion(version: string): (r: string)
    ensures |r| <= |version|
    ensures IsSubstring("_0", version) ==> |r| <= |version| - 2
  {
    ReplaceShrinks(version, "_0", "");
    Replace(version, "_0", "")
  }

  /** The name, description and kind of an extension after the optional locale step. */
  datatype Labels = Labels(name: Json, description: Json, kind: string)

  /** `_locales/en` under the version directory when it exists, otherwise `_locales/en-US`. */
  function CatalogDir(fs: FileSystem, versionDir: Path): (r: Path)
    ensures fs.Exists(versionDir + ["_locales", "en"]) ==> r == versionDir + ["_locales", "en"]
    ensures !fs.Exists(versionDir + ["_locales", "en"]) ==> r == versionDir + ["_locales", "en-US"]
  {
    var en := versionDir + ["_locales", "en"];
    if fs.Exists(en) then en else versionDir + ["_locales", "en-US"]
  }

  /**
   * The `"MSG" in name` branch: the first file listed in the catalog directory is the catalog,
   * and the name and then the description are resolved through it.
   */
  function Localize(fs: FileSystem, versionDir: Path, name: Json, description: Json): (r: Result<Labels>)
    ensures r.Ok? ==> r.value.kind == "app" && r.value.name.JStr? && r.value.description.JStr?
    ensures !fs.IsDir(CatalogDir(fs, versionDir)) ==> r == Err(OSError(CatalogDir(fs, versionDir)))
    ensures fs.IsDir(CatalogDir(fs, versionDir)) && fs.dirs[CatalogDir(fs, versionDir)] == [] ==> r == Err(IndexError)
    ensures r.Ok? ==>
      var dir := CatalogDir(fs, versionDir);
      && fs.IsDir(dir) && fs.dirs[dir] != [] && fs.LoadJson(dir + [fs.dirs[dir][0]]).Ok?
      && var messages := fs.LoadJson(dir + [fs.dirs[dir][0]]).value;
      Locale.Resolve(name, messages) == Ok(r.value.name.s)
      && Locale.Resolve(description, messages) == Ok(r.value.description.s)
    ensures var dir := CatalogDir(fs, versionDir);
      fs.IsDir(dir) && fs.dirs[dir] != [] ==>
        var file := dir + [fs.dirs[dir][0]];
        && (fs.LoadJson(file).Err? ==> r == Err(fs.LoadJson(file).error))
        && (fs.LoadJson(file).Ok? ==>
              var resolvedName := Locale.Resolve(name, fs.LoadJson(file).value);
              var resolvedDescription := Locale.Resolve(description, fs.LoadJson(file).value);
              && (resolvedName.Err? ==> r == Err(resolvedName.error))
              && (resolvedName.Ok? && resolvedDescription.Err? ==> r == Err(resolvedDescription.error))
              && (resolvedName.Ok? && resolvedDescription.Ok? ==>
                    r == Ok(Labels(JStr(resolvedName.value), JStr(resolvedDescription.value), "app"))))
  {
    var dir := CatalogDir(fs, versionDir);
    var entries :- fs.ListDir(dir);
    if |entries| == 0 then Err(IndexError)
    else
      var messages :- fs.LoadJson(dir + [entries[0]]);
      var resolvedName :- Locale.Resolve(name, messages);
      var resolvedDescription :- Locale.Resolve(description, messages);
      Ok(Labels(JStr(resolvedName), JStr(resolvedDescription), "app"))
  }

  /** The first entry `os.listdir` gives for an extension folder: the version directory's name. */
  function VersionOf(fs: FileSystem, folderPath: Path): (r: Result<string>)
    ensures r.Ok? <==> fs.IsDir(folderPath) && fs.dirs[folderPath] != []
    ensures r.Ok? ==> r.value == fs.dirs[folderPath][0]
  {
    var versions :- fs.ListDir(folderPath);
    if |versions| == 0 then Err(IndexError) else Ok(versions[0])
  }

  /** The manifest of an extension folder: `<folder>/<version>/manifest.json`. */
  function ManifestOf(fs: FileSystem, folderPath: Path): (r: Result<Json>)
    ensures fs.IsDir(folderPath) && fs.dirs[folderPath] != [] ==>
      r == fs.LoadJson(folderPath + [fs.dirs[folderPath][0], ManifestFile])
    ensures !(fs.IsDir(folderPath) && fs.dirs[folderPath] != []) ==> r.Err?
  {
    var version :- VersionOf(fs, folderPath);
    fs.LoadJson(folderPath + [version, ManifestFile])
  }

  /**
   * The body of the `for extension_folder` loop: one record for the folder `extDir/folder` of
   * profile `profile`.
   */
  function FolderRecord(fs: FileSystem, username: string, browser: string, profile: string, extDir: Path, folder: string)
    : (r: Result<ExtensionInfo>)
    ensures r.Ok? ==>
      && r.value.username == username && r.value.browser == browser
      && r.value.browserShort == BrowserShort(browser) && r.value.profile == [profile]
      && r.value.extensionId == JStr(folder) && r.value.path == OnDisk(extDir + [folder])
      && r.value.homepageUrl == JStr("") && r.value.active == JBool(true)
      && r.value.optionalPermissions == Some(Permission(JNull, JNull))
    ensures r.Ok? ==>
      && VersionOf(fs, extDir + [folder]).Ok? && ManifestOf(fs, extDir + [folder]).Ok?
      && r.value.version == JStr(StripVersion(VersionOf(fs, extDir + [folder]).value))
    ensures r.Ok? ==>
      var manifest := ManifestOf(fs, extDir + [folder]).value;
      && manifest.JObj?
      && r.value.userPermissions ==
           Some(Permission(GetOr(manifest.members, "permissions", JNull), GetOr(manifest.members, "hostPermissions", JNull)))
      && r.value.creator == GetOr(manifest.members, "author", JStr(""))
      && (r.value.extensionType == JStr("app") <==> Contains("MSG", GetOr(manifest.members, "name", JStr(""))) == Ok(true))
      && (r.value.extensionType == JStr("extension") <==> Contains("MSG", GetOr(manifest.members, "name", JStr(""))) == Ok(false))
      && (r.value.extensionType == JStr("extension") ==>
            r.value.name == GetOr(manifest.members, "name", JStr(""))
            && r.value.description == GetOr(manifest.members, "description", JStr("")))
    ensures r.Ok? && r.value.extensionType == JStr("app") ==>
      var folderPath := extDir + [folder];
      var members := ManifestOf(fs, folderPath).value.members;
      Localize(fs, folderPath + [VersionOf(fs, folderPath).value],
               GetOr(members, "name", JStr("")), GetOr(members, "description", JStr("")))
        == Ok(Labels(r.value.name, r.value.description, "app"))
    ensures r.Ok? ==>
      && fs.StampOf(extDir + [folder]).Ok?
      && r.value.installDate == FileTime(fs.StampOf(extDir + [folder]).value.ctime)
      && r.value.updateDate == FileTime(fs.StampOf(extDir + [folder]).value.mtime)
    ensures var folderPath := extDir + [folder];
      r.Ok? <==>
        && ManifestOf(fs, folderPath).Ok? && ManifestOf(fs, folderPath).value.JObj?
        && var members := ManifestOf(fs, folderPath).value.members;
        && var name := GetOr(members, "name", JStr(""));
        && Contains("MSG", name).Ok?
        && (Contains("MSG", name).value ==>
              Localize(fs, folderPath + [VersionOf(fs, folderPath).value], name, GetOr(members, "description", JStr(""))).Ok?)
        && fs.StampOf(folderPath).Ok?
  {
    var folderPath := extDir + [folder];
    var version :- VersionOf(fs, folderPath);
    var manifest :- fs.LoadJson(folderPath + [version, ManifestFile]);
    if !manifest.JObj? then Err(AttributeError)
    else
      var name := GetOr(manifest.members, "name", JStr(""));
      var description := GetOr(manifest.members, "description", JStr(""));
      var isApp :- Contains("MSG", name);
      var labels :- if isApp then Localize(fs, folderPath + [version], name, description)
                    else Ok(Labels(name, description, "extension"));
      var stamp :- fs.StampOf(folderPath);
      var block := JObj([Member("permissions", GetOr(manifest.members, "permissions", JNull)),
                         Member("origins", GetOr(manifest.members, "hostPermissions", JNull))]);
      ParseBlock(Permission(GetOr(manifest.members, "permissions", JNull), GetOr(manifest.members, "hostPermissions", JNull)));
      var userPermissions := Parse(block).value;
      Ok(ExtensionInfo(
        username, browser, BrowserShort(browser), [profile], JStr(folder), labels.name,
        JStr(StripVersion(version)), JStr(labels.kind), labels.description,
        GetOr(manifest.members, "author", JStr("")), JStr(""), JBool(true),
        FileTime(stamp.ctime), FileTime(stamp.mtime), OnDisk(folderPath),
        userPermissions, Some(Permission(JNull, JNull))))
  }

  /** `[e for e in os.listdir(extensions_path) if e != "Temp"]`. */
  function WithoutTemp(names: seq<string>): (r: seq<string>)
    ensures forall n :: n in r <==> n in names && n != TempFolder
    ensures TempFolder !in names ==> r == names
    decreases |names|
  {
    if names == [] then []
    else
      var init := WithoutTemp(names[..|names| - 1]);
      var last := names[|names| - 1];
      assert names == names[..|names| - 1] + [last];
      if last == TempFolder then init else init + [last]
  }

  /** The extension folders a profile's scan visits: all but `Temp`, sorted. */
  function VisibleFolders(names: seq<string>): (r: seq<string>)
    ensures SortedBy(r, Identity)
    ensures multiset(r) == multiset(WithoutTemp(names))
    ensures forall n :: n in r <==> n in names && n != TempFolder
  {
    var folders := SortBy(WithoutTemp(names), Identity);
    assert forall n :: n in folders <==> n in multiset(folders);
    assert forall n :: n in WithoutTemp(names) <==> n in multiset(WithoutTemp(names));
    folders
  }

  function FolderStep(fs: FileSystem, username: string, browser: string, profile: string, extDir: Path): string -> Partial<ExtensionInfo>
  {
    folder => FromResult(FolderRecord(fs, username, browser, profile, extDir, folder))
  }

  /** One profile: nothing when it has no `Extensions` directory, otherwise its visible folders in order. */
  function ProfileRecords(fs: FileSystem, username: string, browser: string, root: Path, profile: string): (r: Partial<ExtensionInfo>)
    ensures !fs.Exists(root + [profile, ExtensionsDir]) ==> r == Partial([], None)
    ensures fs.Exists(root + [profile, ExtensionsDir]) && !fs.IsDir(root + [profile, ExtensionsDir]) ==>
      r == Partial([], Some(OSError(root + [profile, ExtensionsDir])))
    ensures forall rec :: rec in r.items ==>
      rec.username == username && rec.browser == browser && rec.browserShort == BrowserShort(browser) && rec.profile == [profile]
  {
    var extDir := root + [profile, ExtensionsDir];
    if !fs.Exists(extDir) then Partial([], None)
    else match fs.ListDir(extDir)
      case Err(e) => Partial([], Some(e))
      case Ok(names) =>
        GatherAll(VisibleFolders(names), FolderStep(fs, username, browser, profile, extDir),
                  (rec: ExtensionInfo) => rec.username == username && rec.browser == browser
                                          && rec.browserShort == BrowserShort(browser) && rec.profile == [profile]);
        Gather(VisibleFolders(names), FolderStep(fs, username, browser, profile, extDir))
  }

  function ProfileStep(fs: FileSystem, username: string, browser: string, root: Path): string -> Partial<ExtensionInfo>
  {
    profile => ProfileRecords(fs, username, browser, root, profile)
  }

  /** `local_state.get('profile').get('info_cache').keys()`. */
  function LocalStateProfiles(fs: FileSystem, root: Path): (r: Result<seq<string>>)
    ensures r.Ok? ==> forall i, j :: 0 <= i < j < |r.value| ==> r.value[i] != r.value[j]
    ensures r.Ok? <==>
      && fs.LoadJson(root + [LocalStateFile]).Ok? && fs.LoadJson(root + [LocalStateFile]).value.JObj?
      && var profile := GetOr(fs.LoadJson(root + [LocalStateFile]).value.members, "profile", JNull);
      && profile.JObj? && GetOr(profile.members, "info_cache", JNull).JObj?
    ensures r.Ok? ==>
      var profile := GetOr(fs.LoadJson(root + [LocalStateFile]).value.members, "profile", JNull);
      forall k :: k in r.value <==> HasKey(GetOr(profile.members, "info_cache", JNull).members, k)
    ensures r.Ok? ==>
      var profile := GetOr(fs.LoadJson(root + [LocalStateFile]).value.members, "profile", JNull);
      r.value == Keys(GetOr(profile.members, "info_cache", JNull).members)
  {
    var state :- fs.LoadJson(root + [LocalStateFile]);
    var profile :- Get(state, "profile", JNull);
    var cache :- Get(profile, "info_cache", JNull);
    if cache.JObj? then Ok(Keys(cache.members)) else Err(AttributeError)
  }

  /** Everything inside the `try`: the profiles of `Local State`, one after the other, until one raises. */
  function ProfilesWalk(fs: FileSystem, username: string, browser: string, root: Path): (r: Partial<ExtensionInfo>)
    ensures LocalStateProfiles(fs, root).Err? ==> r == Partial([], Some(LocalStateProfiles(fs, root).error))
    ensures LocalStateProfiles(fs, root).Ok? ==>
      (r.failure.None? <==> forall profile :: profile in LocalStateProfiles(fs, root).value ==>
                              ProfileRecords(fs, username, browser, root, profile).failure.None?)
    ensures forall rec :: rec in r.items ==>
      rec.username == username && rec.browser == browser && rec.browserShort == BrowserShort(browser)
  {
    match LocalStateProfiles(fs, root)
    case Err(e) => Partial([], Some(e))
    case Ok(profiles) =>
      GatherSucceeds(profiles, ProfileStep(fs, username, browser, root));
      GatherAll(profiles, ProfileStep(fs, username, browser, root),
                (rec: ExtensionInfo) => rec.username == username && rec.browser == browser && rec.browserShort == BrowserShort(browser));
      Gather(profiles, ProfileStep(fs, username, browser, root))
  }

  /** One user: the profile path may raise (outside the `try`); the walk's exception is caught, its records kept. */
  function UserRecords(host: Host, browser: string, username: string): (r: Partial<ExtensionInfo>)
    ensures r.failure.None? <==> ChromeProfilePath(host, username, browser).Ok?
    ensures ChromeProfilePath(host, username, browser).Err? ==> r == Partial([], Some(ChromeProfilePath(host, username, browser).error))
    ensures forall rec :: rec in r.items ==>
      rec.username == username && rec.browser == browser && rec.browserShort == BrowserShort(browser)
  {
    match ChromeProfilePath(host, username, browser)
    case Err(e) => Partial([], Some(e))
    case Ok(root) => Partial(ProfilesWalk(host.fs, username, browser, root).items, None)
  }

  function UserStep(host: Host, browser: string): string -> Partial<ExtensionInfo>
  {
    username => UserRecords(host, browser, username)
  }

  /** `__get_chromium_installed_extensions(usernames, browser)`. */
  function Installed(host: Host, usernames: seq<string>, browser: string): (r: Result<seq<ExtensionInfo>>)
    ensures r.Ok? <==> forall u :: u in usernames ==> ChromeProfilePath(host, u, browser).Ok?
    ensures r.Err? ==> exists u :: u in usernames && ChromeProfilePath(host, u, browser).Err?
                                   && ChromeProfilePath(host, u, browser).error == r.error
    ensures r.Ok? ==> forall rec :: rec in r.value ==> rec.username in usernames
  {
    GatherResult(usernames, UserStep(host, browser));
    GatherAll(usernames, UserStep(host, browser), (rec: ExtensionInfo) => rec.username in usernames);
    ToResult(Gather(usernames, UserStep(host, browser)))
  }

  /** The suffix `_0` that Chromium appends to version directories is dropped. */
  lemma StripVersionExample()
    ensures StripVersion("137.0.1_0") == "137.0.1"
  {
    assert "137.0.1_0" == "137.0.1" + "_0";
    ReplaceKeepsPrefix("137.0.1", "_0", "_0", "");
    assert Replace("_0", "_0", "") == "" + Replace("", "_0", "");
    assert "137.0.1" + "" == "137.0.1";
  }

  /** A version name without `_0` is kept as it is. */
  lemma StripVersionPlain(version: string)
    requires !IsSubstring("_0", version)
    ensures StripVersion(version) == version
  {
    ReplaceAbsent(version, "_0", "");
  }

  /** One pass of removal can join the pieces around a `_0` into a new `_0`: `__00` becomes `_0`. */
  lemma StripVersionResidue()
    ensures StripVersion("__00") == "_0"
    ensures IsSubstring("_0", StripVersion("__00"))
  {
    var v := "__00";
    assert v[1] == '_';
    assert v[1..][..2] == "_0" && v[1..][2..] == "0";
    assert StripVersion("0") == "0";
    assert StripVersion(v[1..]) == "0";
    assert OccursAt("_0", "_0", 0);
  }

  /** Folders scanned without exception give one record each, the k-th for the k-th folder. */
  lemma FoldersOneRecordEach(fs: FileSystem, username: string, browser: string, profile: string, extDir: Path, folders: seq<string>)
    requires Gather(folders, FolderStep(fs, username, browser, profile, extDir)).failure.None?
    ensures var items := Gather(folders, FolderStep(fs, username, browser, profile, extDir)).items;
      && |items| == |folders|
      && forall k :: 0 <= k < |folders| ==>
           items[k].extensionId == JStr(folders[k]) && items[k].path == OnDisk(extDir + [folders[k]])
  {
    var step := FolderStep(fs, username, browser, profile, extDir);
    GatherOneEach(folders, step);
    var items := Gather(folders, step).items;
    forall k | 0 <= k < |folders|
      ensures items[k].extensionId == JStr(folders[k]) && items[k].path == OnDisk(extDir + [folders[k]])
    {
      assert step(folders[k]) == FromResult(FolderRecord(fs, username, browser, profile, extDir, folders[k]));
    }
  }

  /**
   * A profile scanned without exception has one record per visible folder, in sorted folder
   * order: the k-th record's id is the k-th folder, and its path is that folder.
   */
  lemma ProfileOneRecordPerFolder(fs: FileSystem, username: string, browser: string, root: Path, profile: string)
    requires ProfileRecords(fs, username, browser, root, profile).failure.None?
    requires fs.Exists(root + [profile, ExtensionsDir])
    ensures fs.IsDir(root + [profile, ExtensionsDir])
    ensures var extDir := root + [profile, ExtensionsDir];
      var folders := VisibleFolders(fs.dirs[extDir]);
      var items := ProfileRecords(fs, username, browser, root, profile).items;
      && |items| == |folders|
      && forall k :: 0 <= k < |folders| ==>
           items[k].extensionId == JStr(folders[k]) && items[k].path == OnDisk(extDir + [folders[k]])
  {
    var extDir := root + [profile, ExtensionsDir];
    assert fs.ListDir(extDir).Ok?;
    var folders := VisibleFolders(fs.dirs[extDir]);
    var step := FolderStep(fs, username, browser, profile, extDir);
    assert ProfileRecords(fs, username, browser, root, profile) == Gather(folders, step);
    FoldersOneRecordEach(fs, username, browser, profile, extDir, folders);
  }

  /** The records of a profile scanned without exception are in ascending id order, and none is `Temp`. */
  lemma ProfileRecordsSorted(fs: FileSystem, username: string, browser: string, root: Path, profile: string)
    requires ProfileRecords(fs, username, browser, root, profile).failure.None?
    ensures var items := ProfileRecords(fs, username, browser, root, profile).items;
      && (forall k :: 0 <= k < |items| ==> items[k].extensionId.JStr? && items[k].extensionId != JStr(TempFolder))
      && (forall i, j :: 0 <= i < j < |items| ==> LessEq(items[i].extensionId.s, items[j].extensionId.s))
  {
    var extDir := root + [profile, ExtensionsDir];
    if fs.Exists(extDir) {
      ProfileOneRecordPerFolder(fs, username, browser, root, profile);
      var folders := VisibleFolders(fs.dirs[extDir]);
      var items := ProfileRecords(fs, username, browser, root, profile).items;
      forall k | 0 <= k < |items| ensures items[k].extensionId.JStr? && items[k].extensionId != JStr(TempFolder) {
        assert folders[k] in folders;
      }
      forall i, j | 0 <= i < j < |items| ensures LessEq(items[i].extensionId.s, items[j].extensionId.s) {
        assert LessEq(Identity(folders[i]), Identity(folders[j]));
      }
    }
  }

  /** Once the profile path is known, a user's scan never raises; its records are those the walk appended before any exception. */
  lemma UserCatches(host: Host, browser: string, username: string)
    requires ChromeProfilePath(host, username, browser).Ok?
    ensures UserRecords(host, browser, username).failure.None?
    ensures UserRecords(host, browser, username).items
      == ProfilesWalk(host.fs, username, browser, ChromeProfilePath(host, username, browser).value).items
  {
  }

  /**
   * A profile that raises does not lose the records of the profiles before it: the user's records
   * start with everything the earlier profiles yielded.
   */
  lemma UserKeepsEarlierProfiles(host: Host, browser: string, username: string, j: nat)
    requires ChromeProfilePath(host, username, browser).Ok?
    requires var root := ChromeProfilePath(host, username, browser).value;
      LocalStateProfiles(host.fs, root).Ok? && j <= |LocalStateProfiles(host.fs, root).value|
    ensures var root := ChromeProfilePath(host, username, browser).value;
      var profiles := LocalStateProfiles(host.fs, root).value;
      Gather(profiles[..j], ProfileStep(host.fs, username, browser, root)).items <= UserRecords(host, browser, username).items
  {
    var root := ChromeProfilePath(host, username, browser).value;
    var profiles := LocalStateProfiles(host.fs, root).value;
    var step := ProfileStep(host.fs, username, browser, root);
    assert profiles == profiles[..j] + profiles[j..];
    GatherAppend(profiles[..j], profiles[j..], step);
  }

  /** When every user's profile path is known, the scan completes: every user's records, in user order. */
  lemma InstalledWhenPathsKnown(host: Host, usernames: seq<string>, browser: string)
    requires forall u :: u in usernames ==> ChromeProfilePath(host, u, browser).Ok?
    ensures Installed(host, usernames, browser) == Ok(Flatten(usernames, UserStep(host, browser)))
  {
    var step := UserStep(host, browser);
    if Gather(usernames, step).failure.Some? {
      GatherFailed(usernames, step);
    }
    GatherComplete(usernames, step);
  }

  /** A user whose scan hits an exception does not stop the next one from being scanned. */
  lemma InstalledContinues(host: Host, usernames: seq<string>, browser: string, next: string)
    requires Installed(host, usernames, browser).Ok?
    requires ChromeProfilePath(host, next, browser).Ok?
    ensures Installed(host, usernames + [next], browser) ==
      Ok(Installed(host, usernames, browser).value
         + ProfilesWalk(host.fs, next, browser, ChromeProfilePath(host, next, browser).value).items)
  {
    GatherAppend(usernames, [next], UserStep(host, browser));
    assert [next][..0] == [];
  }

  /** The profile path is outside the `try`: on an unsupported platform the scan of any user raises. */
  lemma InstalledUnsupported(host: Host, usernames: seq<string>, browser: string)
    requires !Supported(host.platform) && usernames != []
    ensures Installed(host, usernames, browser) == Err(UnsupportedPlatform)
  {
    GatherStep(usernames, UserStep(host, browser), 0);
    assert usernames[..0] == [];
    GatherStops(usernames, UserStep(host, browser), 1);
  }

  /** Every record of a Chromium scan names the browser scanned and its short name. */
  lemma InstalledTagged(host: Host, usernames: seq<string>, browser: string)
    requires Installed(host, usernames, browser).Ok?
    ensures forall rec :: rec in Installed(host, usernames, browser).value ==>
      rec.browser == browser && rec.browserShort == BrowserShort(browser)
  {
    var P := (rec: ExtensionInfo) => rec.browser == browser && rec.browserShort == BrowserShort(browser);
    GatherAll(usernames, UserStep(host, browser), P);
  }

  /** The loop body for one extension folder, with `extension_name` and `extension_type` reassigned in the locale branch. */
  method ReadFolder(fs: FileSystem, username: string, browser: string, profile: string, extDir: Path, folder: string)
    returns (r: Result<ExtensionInfo>)
    ensures r == FolderRecord(fs, username, browser, profile, extDir, folder)
  {
    var folderPath := extDir + [folder];
    var listing := fs.ListDir(folderPath);
    if listing.Err? {
      return Err(listing.error);
    }
    if |listing.value| == 0 {
      return Err(IndexError);
    }
    var version := listing.value[0];
    var loaded := fs.LoadJson(folderPath + [version, ManifestFile]);
    if loaded.Err? {
      return Err(loaded.error);
    }
    var manifest := loaded.value;
    if !manifest.JObj? {
      return Err(AttributeError);
    }
    var name := GetOr(manifest.members, "name", JStr(""));
    var description := GetOr(manifest.members, "description", JStr(""));
    var kind := "extension";
    var isApp := Contains("MSG", name);
    if isApp.Err? {
      return Err(isApp.error);
    }
    if isApp.value {
      var labels := Localize(fs, folderPath + [version], name, description);
      if labels.Err? {
        return Err(labels.error);
      }
      name := labels.value.name;
      description := labels.value.description;
      kind := "app";
    }
    var stamp := fs.StampOf(folderPath);
    if stamp.Err? {
      return Err(stamp.error);
    }
    var block := JObj([Member("permissions", GetOr(manifest.members, "permissions", JNull)),
                       Member("origins", GetOr(manifest.members, "hostPermissions", JNull))]);
    ParseBlock(Permission(GetOr(manifest.members, "permissions", JNull), GetOr(manifest.members, "hostPermissions", JNull)));
    var userPermissions := Parse(block);
    r := Ok(ExtensionInfo(
      username, browser, BrowserShort(browser), [profile], JStr(folder), name,
      JStr(StripVersion(version)), JStr(kind), description,
      GetOr(manifest.members, "author", JStr("")), JStr(""), JBool(true),
      FileTime(stamp.value.ctime), FileTime(stamp.value.mtime), OnDisk(folderPath),
      userPermissions.value, Some(Permission(JNull, JNull))));
  }

  /** The `for extension_folder in extension_folders` loop. */
  method LoadFolders(fs: FileSystem, username: string, browser: string, profile: string, extDir: Path, folders: seq<string>)
    returns (records: seq<ExtensionInfo>, failure: Option<Error>)
    ensures Partial(records, failure) == Gather(folders, FolderStep(fs, username, browser, profile, extDir))
  {
    var step := FolderStep(fs, username, browser, profile, extDir);
    records := [];
    var i := 0;
    while i < |folders|
      invariant i <= |folders|
      invariant Partial(records, None) == Gather(folders[..i], step)
    {
      GatherStep(folders, step, i);
      var record := ReadFolder(fs, username, browser, profile, extDir, folders[i]);
      if record.Err? {
        GatherStops(folders, step, i + 1);
        return records, Some(record.error);
      }
      records := records + [record.value];
      i := i + 1;
    }
    assert folders[..i] == folders;
    failure := None;
  }

  /** One profile of the `for profile in chrome_profiles` loop: the `Temp` filter, the in-place sort, the folders. */
  method LoadProfile(fs: FileSystem, username: string, browser: string, root: Path, profile: string)
    returns (records: seq<ExtensionInfo>, failure: Option<Error>)
    ensures Partial(records, failure) == ProfileRecords(fs, username, browser, root, profile)
  {
    var extDir := root + [profile, ExtensionsDir];
    if !fs.Exists(extDir) {
      return [], None;
    }
    var listing := fs.ListDir(extDir);
    if listing.Err? {
      return [], Some(listing.error);
    }
    var folders := WithoutTemp(listing.value);
    folders := SortBy(folders, Identity);
    records, failure := LoadFolders(fs, username, browser, profile, extDir, folders);
  }

  /** The body of the `try`: `Local State`, then each profile in turn. */
  method LoadProfiles(fs: FileSystem, username: string, browser: string, root: Path)
    returns (records: seq<ExtensionInfo>, failure: Option<Error>)
    ensures Partial(records, failure) == ProfilesWalk(fs, username, browser, root)
  {
    var profiles := LocalStateProfiles(fs, root);
    if profiles.Err? {
      return [], Some(profiles.error);
    }
    var step := ProfileStep(fs, username, browser, root);
    records := [];
    var i := 0;
    while i < |profiles.value|
      invariant i <= |profiles.value|
      invariant Partial(records, None) == Gather(profiles.value[..i], step)
    {
      GatherStep(profiles.value, step, i);
      var found, stopped := LoadProfile(fs, username, browser, root, profiles.value[i]);
      records := records + found;
      if stopped.Some? {
        GatherStops(profiles.value, step, i + 1);
        return records, stopped;
      }
      i := i + 1;
    }
    assert profiles.value[..i] == profiles.value;
    failure := None;
  }

  /** `__get_chromium_installed_extensions`: the per-user `try`/`except` keeps what was appended before the exception. */
  method GetChromiumInstalledExtensions(host: Host, usernames: seq<string>, browser: string)
    returns (r: Result<seq<ExtensionInfo>>)
    ensures r == Installed(host, usernames, browser)
  {
    var step := UserStep(host, browser);
    var records: seq<ExtensionInfo> := [];
    var i := 0;
    while i < |usernames|
      invariant i <= |usernames|
      invariant Partial(records, None) == Gather(usernames[..i], step)
    {
      GatherStep(usernames, step, i);
      var root := ChromeProfilePath(host, usernames[i], browser);
      if root.Err? {
        GatherStops(usernames, step, i + 1);
        return Err(root.error);
      }
      var found, caught := LoadProfiles(host.fs, usernames[i], browser, root.value);
      records := records + found;
      i := i + 1;
    }
    assert usernames[..i] == usernames;
    r := Ok(records);
  }
}
