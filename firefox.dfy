/**
 * The Firefox loader of the current revision (`__get_firefox_installed_extensions`): for each user,
 * the `extensions.json` of every profile directory, in path order, and one record per addon
 * listed there, in file order. Nothing is caught, so the first exception ends the scan.
 */
module Firefox {
  import opened Python
  import opened Host
  import opened Text
  import opened Sorting
  import opened Gathering
  import opened Permissions
  import opened Records
  import opened ProfilePaths

  const ExtensionsFile := "extensions.json"
  const FirefoxName := "Mozilla Firefox"

  /** `datetime.fromtimestamp(float(value) / 1000)`, kept as the milliseconds `float` reads. */
  function Millis(value: Json): (r: Result<Instant>)
    ensures r.Ok? <==> Number(value).Ok?
    ensures r.Ok? ==> r.value == EpochMillis(Number(value).value)
  {
    var ms :- Number(value);
    Ok(EpochMillis(ms))
  }

  /**
   * One addon entry as a record. The keyword arguments are evaluated in order, so the exception
   * raised is the first of: the addon not being a dict, its `defaultLocale` not being a dict,
   * `float` of `installDate`, of `updateDate`, `Permission.parse` of `userPermissions`, of
   * `optionalPermissions`.
   */
  function AddonRecord(username: string, profile: Path, addon: Json): (r: Result<ExtensionInfo>)
    ensures !addon.JObj? ==> r == Err(AttributeError)
    ensures addon.JObj? ==>
      var locale := GetOr(addon.members, "defaultLocale", JObj([]));
      var installDate := Millis(GetOr(addon.members, "installDate", JNum(0)));
      var updateDate := Millis(GetOr(addon.members, "updateDate", JNum(0)));
      var userPermissions := Parse(GetOr(addon.members, "userPermissions", JNull));
      var optionalPermissions := Parse(GetOr(addon.members, "optionalPermissions", JNull));
      && (r.Ok? <==> locale.JObj? && installDate.Ok? && updateDate.Ok? && userPermissions.Ok? && optionalPermissions.Ok?)
      && (!locale.JObj? ==> r == Err(AttributeError))
      && (locale.JObj? && installDate.Err? ==> r == Err(installDate.error))
      && (locale.JObj? && installDate.Ok? && updateDate.Err? ==> r == Err(updateDate.error))
      && (locale.JObj? && installDate.Ok? && updateDate.Ok? && userPermissions.Err? ==> r == Err(userPermissions.error))
      && (locale.JObj? && installDate.Ok? && updateDate.Ok? && userPermissions.Ok? && optionalPermissions.Err? ==>
            r == Err(optionalPermissions.error))
    ensures r.Ok? ==>
      r.value.username == username && r.value.browser == FirefoxName && r.value.browserShort == "Firefox"
      && r.value.profile == profile && r.value.path.Declared?
      && r.value.installDate.EpochMillis? && r.value.updateDate.EpochMillis?
  {
    match addon
    case JObj(fields) =>
      var locale := GetOr(fields, "defaultLocale", JObj([]));
      if !locale.JObj? then Err(AttributeError)
      else
        var installDate :- Millis(GetOr(fields, "installDate", JNum(0)));
        var updateDate :- Millis(GetOr(fields, "updateDate", JNum(0)));
        var userPermissions :- Parse(GetOr(fields, "userPermissions", JNull));
        var optionalPermissions :- Parse(GetOr(fields, "optionalPermissions", JNull));
        Ok(ExtensionInfo(
          username, FirefoxName, "Firefox", profile,
          GetOr(fields, "id", JStr("")),
          GetOr(locale.members, "name", JStr("")),
          GetOr(fields, "version", JStr("")),
          GetOr(fields, "type", JStr("")),
          GetOr(locale.members, "description", JStr("")),
          GetOr(locale.members, "creator", JStr("")),
          GetOr(locale.members, "homepageURL", JStr("")),
          GetOr(fields, "active", JBool(false)),
          installDate, updateDate,
          Declared(GetOr(fields, "path", JStr(""))),
          userPermissions, optionalPermissions))
    case _ => Err(AttributeError)
  }

  /** The permission block a parsed permission is written as in `extensions.json`. */
  function BlockOf(p: Option<Permission>): Json
  {
    match p
    case None => JNull
    case Some(q) => Block(q)
  }

  /** The `defaultLocale` entry a Firefox record's localised fields are read from. */
  function LocaleOf(info: ExtensionInfo): seq<Member>
  {
    [Member("name", info.name),
     Member("description", info.description),
     Member("creator", info.creator),
     Member("homepageURL", info.homepageUrl)]
  }

  /** The `extensions.json` entry a Firefox record is read from: every field under its own key. */
  function AddonOf(info: ExtensionInfo): Json
    requires info.installDate.EpochMillis? && info.updateDate.EpochMillis? && info.path.Declared?
  {
    JObj([
      Member("id", info.extensionId),
      Member("defaultLocale", JObj(LocaleOf(info))),
      Member("version", info.version),
      Member("type", info.extensionType),
      Member("active", info.active),
      Member("installDate", JNum(info.installDate.ms)),
      Member("updateDate", JNum(info.updateDate.ms)),
      Member("path", info.path.value),
      Member("userPermissions", BlockOf(info.userPermissions)),
      Member("optionalPermissions", BlockOf(info.optionalPermissions))])
  }

  /** Each identifying key of the entry `AddonOf` writes finds the field it was written from. */
  lemma AddonOfIdentity(info: ExtensionInfo)
    requires info.installDate.EpochMillis? && info.updateDate.EpochMillis? && info.path.Declared?
    ensures var fields := AddonOf(info).members;
      && GetOr(fields, "id", JStr("")) == info.extensionId
      && GetOr(fields, "defaultLocale", JObj([])) == JObj(LocaleOf(info))
      && GetOr(fields, "version", JStr("")) == info.version
      && GetOr(fields, "type", JStr("")) == info.extensionType
  {
    var fields := AddonOf(info).members;
    GetOrAt(fields, 0, "id", JStr(""));
    GetOrAt(fields, 1, "defaultLocale", JObj([]));
    GetOrAt(fields, 2, "version", JStr(""));
    GetOrAt(fields, 3, "type", JStr(""));
  }

  /** The same for the activity, date and path keys. */
  lemma AddonOfState(info: ExtensionInfo)
    requires info.installDate.EpochMillis? && info.updateDate.EpochMillis? && info.path.Declared?
    ensures var fields := AddonOf(info).members;
      && GetOr(fields, "active", JBool(false)) == info.active
      && GetOr(fields, "installDate", JNum(0)) == JNum(info.installDate.ms)
      && GetOr(fields, "updateDate", JNum(0)) == JNum(info.updateDate.ms)
      && GetOr(fields, "path", JStr("")) == info.path.value
  {
    var fields := AddonOf(info).members;
    GetOrAt(fields, 4, "active", JBool(false));
    GetOrAt(fields, 5, "installDate", JNum(0));
    GetOrAt(fields, 6, "updateDate", JNum(0));
    GetOrAt(fields, 7, "path", JStr(""));
  }

  /** The same for the two permission blocks. */
  lemma AddonOfPermissions(info: ExtensionInfo)
    requires info.installDate.EpochMillis? && info.updateDate.EpochMillis? && info.path.Declared?
    ensures var fields := AddonOf(info).members;
      && GetOr(fields, "userPermissions", JNull) == BlockOf(info.userPermissions)
      && GetOr(fields, "optionalPermissions", JNull) == BlockOf(info.optionalPermissions)
  {
    var fields := AddonOf(info).members;
    GetOrAt(fields, 8, "userPermissions", JNull);
    GetOrAt(fields, 9, "optionalPermissions", JNull);
  }

  /** The same for the `defaultLocale` entry. */
  lemma LocaleOfFields(info: ExtensionInfo)
    ensures var locale := LocaleOf(info);
      && GetOr(locale, "name", JStr("")) == info.name
      && GetOr(locale, "description", JStr("")) == info.description
      && GetOr(locale, "creator", JStr("")) == info.creator
      && GetOr(locale, "homepageURL", JStr("")) == info.homepageUrl
  {
    var locale := LocaleOf(info);
    GetOrAt(locale, 0, "name", JStr(""));
    GetOrAt(locale, 1, "description", JStr(""));
    GetOrAt(locale, 2, "creator", JStr(""));
    GetOrAt(locale, 3, "homepageURL", JStr(""));
  }

  /** A parsed permission written back as its block parses to itself. */
  lemma ParseBlockOf(p: Option<Permission>)
    ensures Parse(BlockOf(p)) == Ok(p)
  {
    if p.Some? {
      ParseBlock(p.value);
    }
  }

  /**
   * The record read from an addon dict whose `defaultLocale` is a dict, when the dates and
   * permission blocks convert: each field is the value under the key that names it.
   */
  lemma AddonRecordFields(info: ExtensionInfo, addon: Json, locale: seq<Member>)
    requires addon.JObj?
    requires info.browser == FirefoxName && info.browserShort == "Firefox"
    requires GetOr(addon.members, "defaultLocale", JObj([])) == JObj(locale)
    requires GetOr(addon.members, "id", JStr("")) == info.extensionId
    requires GetOr(locale, "name", JStr("")) == info.name
    requires GetOr(addon.members, "version", JStr("")) == info.version
    requires GetOr(addon.members, "type", JStr("")) == info.extensionType
    requires GetOr(locale, "description", JStr("")) == info.description
    requires GetOr(locale, "creator", JStr("")) == info.creator
    requires GetOr(locale, "homepageURL", JStr("")) == info.homepageUrl
    requires GetOr(addon.members, "active", JBool(false)) == info.active
    requires Millis(GetOr(addon.members, "installDate", JNum(0))) == Ok(info.installDate)
    requires Millis(GetOr(addon.members, "updateDate", JNum(0))) == Ok(info.updateDate)
    requires info.path == Declared(GetOr(addon.members, "path", JStr("")))
    requires Parse(GetOr(addon.members, "userPermissions", JNull)) == Ok(info.userPermissions)
    requires Parse(GetOr(addon.members, "optionalPermissions", JNull)) == Ok(info.optionalPermissions)
    ensures AddonRecord(info.username, info.profile, addon) == Ok(info)
  {
    var r := AddonRecord(info.username, info.profile, addon);
    assert r.Ok?;
    assert r.value == info;
  }

  /** The activity, date, path and permission keys of the entry `AddonOf` writes convert back to the record's fields. */
  lemma AddonOfConverts(info: ExtensionInfo)
    requires info.installDate.EpochMillis? && info.updateDate.EpochMillis? && info.path.Declared?
    ensures var fields := AddonOf(info).members;
      && GetOr(fields, "active", JBool(false)) == info.active
      && Millis(GetOr(fields, "installDate", JNum(0))) == Ok(info.installDate)
      && Millis(GetOr(fields, "updateDate", JNum(0))) == Ok(info.updateDate)
      && info.path == Declared(GetOr(fields, "path", JStr("")))
      && Parse(GetOr(fields, "userPermissions", JNull)) == Ok(info.userPermissions)
      && Parse(GetOr(fields, "optionalPermissions", JNull)) == Ok(info.optionalPermissions)
  {
    AddonOfState(info);
    AddonOfPermissions(info);
    ParseBlockOf(info.userPermissions);
    ParseBlockOf(info.optionalPermissions);
  }

  /** Every field of a Firefox record comes from the addon key that names it: reading back the entry a record is written as gives the record. */
  lemma AddonRoundTrip(info: ExtensionInfo)
    requires info.browser == FirefoxName && info.browserShort == "Firefox"
    requires info.installDate.EpochMillis? && info.updateDate.EpochMillis? && info.path.Declared?
    ensures AddonRecord(info.username, info.profile, AddonOf(info)) == Ok(info)
  {
    AddonOfIdentity(info);
    AddonOfConverts(info);
    LocaleOfFields(info);
    AddonRecordFields(info, AddonOf(info), LocaleOf(info));
  }

  /** An addon entry with no keys at all gets every default: empty strings, inactive, epoch 0, no permissions. */
  lemma AddonDefaults(username: string, profile: Path)
    ensures AddonRecord(username, profile, JObj([])) ==
      Ok(ExtensionInfo(username, FirefoxName, "Firefox", profile, JStr(""), JStr(""), JStr(""), JStr(""),
                       JStr(""), JStr(""), JStr(""), JBool(false), EpochMillis(0), EpochMillis(0),
                       Declared(JStr("")), None, None))
  {
    assert forall k :: !HasKey([], k);
  }

  /** `os.path.join(root, name)` for every child that is a directory, in listing order. */
  function ProfileDirs(fs: FileSystem, root: Path, names: seq<string>): (r: seq<Path>)
    ensures forall p :: p in r <==> exists n :: n in names && p == root + [n] && fs.IsDir(p)
    ensures |r| <= |names|
    decreases |names|
  {
    if names == [] then []
    else
      var init := ProfileDirs(fs, root, names[..|names| - 1]);
      var last := root + [names[|names| - 1]];
      assert forall n :: n in names <==> n in names[..|names| - 1] || n == names[|names| - 1] by {
        assert names == names[..|names| - 1] + [names[|names| - 1]];
      }
      if fs.IsDir(last) then init + [last] else init
  }

  /** The `extensions.json` path of every profile that has one, in profile order. */
  function ExistingTargets(fs: FileSystem, profiles: seq<Path>): (r: seq<Path>)
    ensures forall t :: t in r <==> exists p :: p in profiles && t == p + [ExtensionsFile] && fs.Exists(t)
    ensures |r| <= |profiles|
    decreases |profiles|
  {
    if profiles == [] then []
    else
      var init := ExistingTargets(fs, profiles[..|profiles| - 1]);
      var target := profiles[|profiles| - 1] + [ExtensionsFile];
      assert forall p :: p in profiles <==> p in profiles[..|profiles| - 1] || p == profiles[|profiles| - 1] by {
        assert profiles == profiles[..|profiles| - 1] + [profiles[|profiles| - 1]];
      }
      if fs.Exists(target) then init + [target] else init
  }

  /** The sort key of `ext_files.sort()`: the joined path string. */
  function PathKey(sep: char): Path -> string
  {
    p => Render(p, sep)
  }

  /** The sorted `extensions.json` files under a profile root. */
  function ExtensionFiles(host: Host, root: Path): (r: Result<seq<Path>>)
    ensures r.Ok? <==> host.fs.IsDir(root)
    ensures r.Ok? ==> SortedBy(r.value, PathKey(host.Separator()))
    ensures r.Ok? ==> forall t :: t in r.value <==>
      exists n :: n in host.fs.dirs[root] && host.fs.IsDir(root + [n])
                  && t == root + [n] + [ExtensionsFile] && host.fs.Exists(t)
  {
    var names :- host.fs.ListDir(root);
    var files := ExistingTargets(host.fs, ProfileDirs(host.fs, root, names));
    var sorted := SortBy(files, PathKey(host.Separator()));
    assert forall t :: t in sorted <==> t in files by {
      assert forall t :: t in sorted <==> t in multiset(sorted);
      assert forall t :: t in files <==> t in multiset(files);
    }
    Ok(sorted)
  }

  /** `data.get("addons", [])`, iterated. */
  function Addons(fs: FileSystem, file: Path): (r: Result<seq<Json>>)
    ensures r.Ok? ==> fs.LoadJson(file).Ok? && fs.LoadJson(file).value.JObj?
    ensures fs.LoadJson(file).Err? ==> r == Err(fs.LoadJson(file).error)
    ensures fs.LoadJson(file).Ok? && !fs.LoadJson(file).value.JObj? ==> r == Err(AttributeError)
    ensures fs.LoadJson(file).Ok? && fs.LoadJson(file).value.JObj? ==>
      r == Iter(GetOr(fs.LoadJson(file).value.members, "addons", JArr([])))
  {
    var data :- fs.LoadJson(file);
    var addons :- Get(data, "addons", JArr([]));
    Iter(addons)
  }

  function AddonStep(username: string, profile: Path): Json -> Partial<ExtensionInfo>
  {
    addon => FromResult(AddonRecord(username, profile, addon))
  }

  /** The records of one `extensions.json`, in addon order. */
  function FileRecords(username: string, fs: FileSystem, file: Path): (r: Partial<ExtensionInfo>)
    ensures Addons(fs, file).Err? ==> r == Partial([], Some(Addons(fs, file).error))
    ensures forall rec :: rec in r.items ==>
      rec.username == username && rec.browser == FirefoxName && rec.browserShort == "Firefox" && rec.profile == Dirname(file)
  {
    match Addons(fs, file)
    case Err(e) => Partial([], Some(e))
    case Ok(addons) =>
      GatherAll(addons, AddonStep(username, Dirname(file)),
                (rec: ExtensionInfo) => rec.username == username && rec.browser == FirefoxName && rec.browserShort == "Firefox"
                       && rec.profile == Dirname(file));
      Gather(addons, AddonStep(username, Dirname(file)))
  }

  function FileStep(username: string, fs: FileSystem): Path -> Partial<ExtensionInfo>
  {
    file => FileRecords(username, fs, file)
  }

  /** The records of one user, file by file. */
  function UserRecords(host: Host, username: string): (r: Result<seq<ExtensionInfo>>)
    ensures FirefoxProfilePath(host, username).Err? ==> r == Err(FirefoxProfilePath(host, username).error)
    ensures r.Ok? <==>
      && FirefoxProfilePath(host, username).Ok?
      && ExtensionFiles(host, FirefoxProfilePath(host, username).value).Ok?
      && forall file :: file in ExtensionFiles(host, FirefoxProfilePath(host, username).value).value ==>
           FileRecords(username, host.fs, file).failure.None?
    ensures r.Ok? ==>
      r.value == Flatten(ExtensionFiles(host, FirefoxProfilePath(host, username).value).value, FileStep(username, host.fs))
  {
    var root :- FirefoxProfilePath(host, username);
    var files :- ExtensionFiles(host, root);
    GatherResult(files, FileStep(username, host.fs));
    ToResult(Gather(files, FileStep(username, host.fs)))
  }

  function UserStep(host: Host): string -> Partial<ExtensionInfo>
  {
    username => FromResults(UserRecords(host, username))
  }

  /** `__get_firefox_installed_extensions(usernames)`: user by user; the first exception is the result. */
  function Installed(host: Host, usernames: seq<string>): (r: Result<seq<ExtensionInfo>>)
    ensures r.Err? ==> exists u :: u in usernames && UserRecords(host, u) == Err(r.error)
  {
    GatherResult(usernames, UserStep(host));
    ToResult(Gather(usernames, UserStep(host)))
  }

  /** Every record of the scan belongs to one of the users scanned. */
  lemma InstalledOwnedByUsers(host: Host, usernames: seq<string>)
    requires Installed(host, usernames).Ok?
    ensures forall rec :: rec in Installed(host, usernames).value ==> rec.username in usernames
  {
    forall u | u in usernames && UserRecords(host, u).Ok?
      ensures forall rec :: rec in UserRecords(host, u).value ==> rec.username in usernames
    {
      UserRecordsTagged(host, u);
    }
    GatherAll(usernames, UserStep(host), (rec: ExtensionInfo) => rec.username in usernames);
  }

  /** How many addons the files list between them (files that do not load count none). */
  function AddonCount(fs: FileSystem, files: seq<Path>): nat
    decreases |files|
  {
    if files == [] then 0
    else
      var last := files[|files| - 1];
      AddonCount(fs, files[..|files| - 1]) + (match Addons(fs, last) case Ok(addons) => |addons| case Err(_) => 0)
  }

  /** A file that loads without exception yields one record per addon, the k-th from the k-th addon. */
  lemma FileRecordsOnePerAddon(username: string, fs: FileSystem, file: Path)
    requires FileRecords(username, fs, file).failure.None?
    ensures Addons(fs, file).Ok?
    ensures |FileRecords(username, fs, file).items| == |Addons(fs, file).value|
    ensures forall k :: 0 <= k < |Addons(fs, file).value| ==>
      AddonRecord(username, Dirname(file), Addons(fs, file).value[k]) == Ok(FileRecords(username, fs, file).items[k])
  {
    var addons := Addons(fs, file).value;
    var step := AddonStep(username, Dirname(file));
    GatherOneEach(addons, step);
    forall k | 0 <= k < |addons|
      ensures AddonRecord(username, Dirname(file), addons[k]) == Ok(FileRecords(username, fs, file).items[k])
    {
      assert step(addons[k]) == FromResult(AddonRecord(username, Dirname(file), addons[k]));
    }
  }

  /** A user's files that load without exception yield exactly as many records as they list addons. */
  lemma {:induction false} FilesRecordCount(username: string, fs: FileSystem, files: seq<Path>)
    requires Gather(files, FileStep(username, fs)).failure.None?
    ensures |Gather(files, FileStep(username, fs)).items| == AddonCount(fs, files)
    decreases |files|
  {
    if files != [] {
      var init := files[..|files| - 1];
      var last := files[|files| - 1];
      FilesRecordCount(username, fs, init);
      FileRecordsOnePerAddon(username, fs, last);
    }
  }

  /** Every record of a user's scan belongs to that user and to Firefox. */
  lemma UserRecordsTagged(host: Host, username: string)
    requires UserRecords(host, username).Ok?
    ensures forall rec :: rec in UserRecords(host, username).value ==>
      rec.username == username && rec.browserShort == "Firefox" && rec.browser == FirefoxName
  {
    var root := FirefoxProfilePath(host, username).value;
    var files := ExtensionFiles(host, root).value;
    var P := (rec: ExtensionInfo) => rec.username == username && rec.browserShort == "Firefox" && rec.browser == FirefoxName;
    GatherAll(files, FileStep(username, host.fs), P);
  }

  /** Every record of a Firefox scan is tagged Firefox. */
  lemma InstalledTagged(host: Host, usernames: seq<string>)
    requires Installed(host, usernames).Ok?
    ensures forall rec :: rec in Installed(host, usernames).value ==> rec.browser == FirefoxName && rec.browserShort == "Firefox"
  {
    var P := (rec: ExtensionInfo) => rec.browser == FirefoxName && rec.browserShort == "Firefox";
    forall u | u in usernames
      ensures forall rec :: rec in UserStep(host)(u).items ==> P(rec)
    {
      if UserRecords(host, u).Ok? {
        UserRecordsTagged(host, u);
      }
    }
    GatherAll(usernames, UserStep(host), P);
  }

  /** The number of records of a user is the number of addons their `extensions.json` files list. */
  lemma UserRecordCount(host: Host, username: string)
    requires UserRecords(host, username).Ok?
    ensures var files := ExtensionFiles(host, FirefoxProfilePath(host, username).value).value;
      |UserRecords(host, username).value| == AddonCount(host.fs, files)
  {
    var files := ExtensionFiles(host, FirefoxProfilePath(host, username).value).value;
    FilesRecordCount(username, host.fs, files);
  }

  /** A scan that completes is every user's records, in user order. */
  lemma InstalledConcatenates(host: Host, usernames: seq<string>)
    requires Installed(host, usernames).Ok?
    ensures forall i :: 0 <= i < |usernames| ==> UserRecords(host, usernames[i]).Ok?
    ensures Installed(host, usernames).value == Flatten(usernames, UserStep(host))
  {
    GatherComplete(usernames, UserStep(host));
  }

  /** Nothing is caught: one user whose records raise makes the whole scan raise. */
  lemma InstalledAborts(host: Host, usernames: seq<string>, i: nat)
    requires i < |usernames| && UserRecords(host, usernames[i]).Err?
    ensures Installed(host, usernames).Err?
  {
    GatherStep(usernames, UserStep(host), i);
    GatherStops(usernames, UserStep(host), i + 1);
  }

  /** On an unsupported platform a scan of any user raises. */
  lemma InstalledUnsupported(host: Host, usernames: seq<string>)
    requires !Supported(host.platform) && usernames != []
    ensures Installed(host, usernames).Err?
  {
    InstalledAborts(host, usernames, 0);
  }

  /** The `for profile in profiles` loop: the existing `extensions.json` files, appended in order. */
  method CollectExtensionFiles(fs: FileSystem, profiles: seq<Path>) returns (files: seq<Path>)
    ensures files == ExistingTargets(fs, profiles)
  {
    files := [];
    var i := 0;
    while i < |profiles|
      invariant i <= |profiles|
      invariant files == ExistingTargets(fs, profiles[..i])
    {
      assert profiles[..i + 1][..i] == profiles[..i];
      var target := profiles[i] + [ExtensionsFile];
      if fs.Exists(target) {
        files := files + [target];
      }
      i := i + 1;
    }
    assert profiles[..i] == profiles;
  }

  /** Listing, filtering and sorting the `extensions.json` files of a profile root. */
  method FindExtensionFiles(host: Host, root: Path) returns (r: Result<seq<Path>>)
    ensures r == ExtensionFiles(host, root)
  {
    var listing := host.fs.ListDir(root);
    if listing.Err? {
      return Err(listing.error);
    }
    var profiles := ProfileDirs(host.fs, root, listing.value);
    var files := CollectExtensionFiles(host.fs, profiles);
    files := SortBy(files, PathKey(host.Separator()));
    r := Ok(files);
  }

  /** The `for addon in addons` loop: one record appended per addon until one raises. */
  method LoadAddons(username: string, profile: Path, addons: seq<Json>) returns (records: seq<ExtensionInfo>, failure: Option<Error>)
    ensures Partial(records, failure) == Gather(addons, AddonStep(username, profile))
  {
    records := [];
    var i := 0;
    while i < |addons|
      invariant i <= |addons|
      invariant Partial(records, None) == Gather(addons[..i], AddonStep(username, profile))
    {
      GatherStep(addons, AddonStep(username, profile), i);
      var record := AddonRecord(username, profile, addons[i]);
      if record.Err? {
        GatherStops(addons, AddonStep(username, profile), i + 1);
        return records, Some(record.error);
      }
      records := records + [record.value];
      i := i + 1;
    }
    assert addons[..i] == addons;
    failure := None;
  }

  /** The `for ext_file in ext_files` loop: each file's records appended until one raises. */
  method LoadFiles(username: string, fs: FileSystem, files: seq<Path>) returns (records: seq<ExtensionInfo>, failure: Option<Error>)
    ensures Partial(records, failure) == Gather(files, FileStep(username, fs))
  {
    records := [];
    var i := 0;
    while i < |files|
      invariant i <= |files|
      invariant Partial(records, None) == Gather(files[..i], FileStep(username, fs))
    {
      GatherStep(files, FileStep(username, fs), i);
      var addons := Addons(fs, files[i]);
      if addons.Err? {
        GatherStops(files, FileStep(username, fs), i + 1);
        return records, Some(addons.error);
      }
      var found, stopped := LoadAddons(username, Dirname(files[i]), addons.value);
      records := records + found;
      if stopped.Some? {
        GatherStops(files, FileStep(username, fs), i + 1);
        return records, stopped;
      }
      i := i + 1;
    }
    assert files[..i] == files;
    failure := None;
  }

  /** The body of the `for username` loop: the profile root, its files, their records. */
  method ScanUser(host: Host, username: string) returns (r: Result<seq<ExtensionInfo>>)
    ensures r == UserRecords(host, username)
    ensures FromResults(r) == UserStep(host)(username)
  {
    var root := FirefoxProfilePath(host, username);
    if root.Err? {
      return Err(root.error);
    }
    var files := FindExtensionFiles(host, root.value);
    if files.Err? {
      return Err(files.error);
    }
    var found, failure := LoadFiles(username, host.fs, files.value);
    if failure.Some? {
      return Err(failure.value);
    }
    r := Ok(found);
  }

  /** `__get_firefox_installed_extensions`. */
  method GetFirefoxInstalledExtensions(host: Host, usernames: seq<string>) returns (r: Result<seq<ExtensionInfo>>)
    ensures r == Installed(host, usernames)
  {
    var records: seq<ExtensionInfo> := [];
    var i := 0;
    while i < |usernames|
      invariant i <= |usernames|
      invariant Gather(usernames[..i], UserStep(host)) == Partial(records, None)
    {
      var user := ScanUser(host, usernames[i]);
      GatherPropagates(usernames, UserStep(host), i, records, user);
      if user.Err? {
        return Err(user.error);
      }
      records := records + user.value;
      i := i + 1;
    }
    GatherDone(usernames, UserStep(host), records);
    r := Ok(records);
  }

}
