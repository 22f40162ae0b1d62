/**
 * The Firefox loader of the older revision (`get_firefox_installed_extensions` in `main.py`):
 * the same walk as the current one from a fixed `C:\Users\<user>\...\Profiles` root on every
 * platform, with the addon kind read from the capitalised key `Type`.
 */
module LegacyFirefox {
  import opened Python
  import opened Host
  import opened Gathering
  import opened Permissions
  import opened Records
  import opened LegacyRecords
  import Firefox
  import ProfilePaths

  /** The profile root, written out in the code for drive `C:` with a doubled separator after the drive. */
  function ProfilesRoot(username: string): (r: Path)
    ensures |r| == 9 && r[3] == username
    ensures r[..3] == ["C:", "\\\\", "Users"]
    ensures r[4..] == ["AppData", "Roaming", "Mozilla", "Firefox", "Profiles"]
  {
    ["C:", "\\\\", "Users", username, "AppData", "Roaming", "Mozilla", "Firefox", "Profiles"]
  }

  /** The fixed root is the current revision's Windows profile path on drive `C:`. */
  lemma ProfilesRootAgainstCurrent(host: Host, username: string)
    requires host.platform == "win32" && host.systemDrive == Some("C:")
    ensures ProfilePaths.FirefoxProfilePath(host, username) == Ok(ProfilesRoot(username))
  {
  }

  /** One addon entry as an older record: as in the current revision, but with the kind under `Type`. */
  function AddonRecord(username: string, profile: Path, addon: Json): (r: Result<LegacyInfo>)
    ensures !addon.JObj? ==> r == Err(AttributeError)
    ensures addon.JObj? ==>
      var locale := GetOr(addon.members, "defaultLocale", JObj([]));
      var installDate := Firefox.Millis(GetOr(addon.members, "installDate", JNum(0)));
      var updateDate := Firefox.Millis(GetOr(addon.members, "updateDate", JNum(0)));
      var userPermissions := Parse(GetOr(addon.members, "userPermissions", JNull));
      var optionalPermissions := Parse(GetOr(addon.members, "optionalPermissions", JNull));
      && (r.Ok? <==> locale.JObj? && installDate.Ok? && updateDate.Ok? && userPermissions.Ok? && optionalPermissions.Ok?)
      && (!locale.JObj? ==> r == Err(AttributeError))
      && (locale.JObj? && installDate.Err? ==> r == Err(installDate.error))
      && (locale.JObj? && installDate.Ok? && updateDate.Err? ==> r == Err(updateDate.error))
      && (locale.JObj? && installDate.Ok? && updateDate.Ok? && userPermissions.Err? ==> r == Err(userPermissions.error))
      && (locale.JObj? && installDate.Ok? && updateDate.Ok? && userPermissions.Ok? && optionalPermissions.Err? ==>
            r == Err(optionalPermissions.error))
    ensures r.Ok? ==> r.value.browser == Firefox.FirefoxName && r.value.username == username && r.value.profile == profile
  {
    match addon
    case JObj(fields) =>
      var locale := GetOr(fields, "defaultLocale", JObj([]));
      if !locale.JObj? then Err(AttributeError)
      else
        var installDate :- Firefox.Millis(GetOr(fields, "installDate", JNum(0)));
        var updateDate :- Firefox.Millis(GetOr(fields, "updateDate", JNum(0)));
        var userPermissions :- Parse(GetOr(fields, "userPermissions", JNull));
        var optionalPermissions :- Parse(GetOr(fields, "optionalPermissions", JNull));
        Ok(LegacyInfo(
          username, Firefox.FirefoxName, profile,
          GetOr(fields, "id", JStr("")),
          GetOr(locale.members, "name", JStr("")),
          GetOr(fields, "version", JStr("")),
          GetOr(fields, "Type", JStr("")),
          GetOr(locale.members, "description", JStr("")),
          GetOr(locale.members, "creator", JStr("")),
          GetOr(locale.members, "homepageURL", JStr("")),
          GetOr(fields, "active", JBool(false)),
          installDate, updateDate,
          Declared(GetOr(fields, "path", JStr(""))),
          userPermissions, optionalPermissions))
    case _ => Err(AttributeError)
  }

  /**
   * The two revisions read an addon alike except for its kind: they fail together, and when they
   * succeed the older record is the current one with the kind taken from `Type` instead of `type`.
   */
  lemma AddonRecordAgainstCurrent(username: string, profile: Path, addon: Json)
    ensures AddonRecord(username, profile, addon).Ok? <==> Firefox.AddonRecord(username, profile, addon).Ok?
    ensures AddonRecord(username, profile, addon).Err? ==>
      AddonRecord(username, profile, addon) == Firefox.AddonRecord(username, profile, addon).PropagateFailure()
    ensures AddonRecord(username, profile, addon).Ok? ==>
      AddonRecord(username, profile, addon).value ==
        Older(Firefox.AddonRecord(username, profile, addon).value).(extensionType := GetOr(addon.members, "Type", JStr("")))
  {
  }

  /** An addon that declares only `type` gets the empty kind here, where the current revision keeps it. */
  lemma TypeKeyIgnored()
    ensures var addon := JObj([Member("type", JStr("extension"))]);
      && AddonRecord("alice", [], addon).Ok?
      && AddonRecord("alice", [], addon).value.extensionType == JStr("")
      && Firefox.AddonRecord("alice", [], addon).value.extensionType == JStr("extension")
  {
    var fields := [Member("type", JStr("extension"))];
    assert !HasKey(fields, "Type") && !HasKey(fields, "defaultLocale");
    assert !HasKey(fields, "installDate") && !HasKey(fields, "updateDate");
    assert !HasKey(fields, "userPermissions") && !HasKey(fields, "optionalPermissions");
    LookupAt(fields, 0);
  }

  function AddonStep(username: string, profile: Path): Json -> Partial<LegacyInfo>
  {
    addon => FromResult(AddonRecord(username, profile, addon))
  }

  /** The records of one `extensions.json`, in addon order. */
  function FileRecords(username: string, fs: FileSystem, file: Path): (r: Partial<LegacyInfo>)
    ensures Firefox.Addons(fs, file).Err? ==> r == Partial([], Some(Firefox.Addons(fs, file).error))
    ensures forall rec :: rec in r.items ==>
      rec.username == username && rec.browser == Firefox.FirefoxName && rec.profile == Dirname(file)
  {
    match Firefox.Addons(fs, file)
    case Err(e) => Partial([], Some(e))
    case Ok(addons) =>
      GatherAll(addons, AddonStep(username, Dirname(file)),
                (rec: LegacyInfo) => rec.username == username && rec.browser == Firefox.FirefoxName && rec.profile == Dirname(file));
      Gather(addons, AddonStep(username, Dirname(file)))
  }

  function FileStep(username: string, fs: FileSystem): Path -> Partial<LegacyInfo>
  {
    file => FileRecords(username, fs, file)
  }

  /** One user: the fixed root, its sorted `extensions.json` files, their records. */
  function UserRecords(host: Host, username: string): (r: Result<seq<LegacyInfo>>)
    ensures !host.fs.IsDir(ProfilesRoot(username)) ==> r == Err(OSError(ProfilesRoot(username)))
    ensures r.Ok? <==>
      && host.fs.IsDir(ProfilesRoot(username))
      && forall file :: file in Firefox.ExtensionFiles(host, ProfilesRoot(username)).value ==>
           FileRecords(username, host.fs, file).failure.None?
    ensures r.Ok? ==> r.value == Flatten(Firefox.ExtensionFiles(host, ProfilesRoot(username)).value, FileStep(username, host.fs))
  {
    var files :- Firefox.ExtensionFiles(host, ProfilesRoot(username));
    GatherResult(files, FileStep(username, host.fs));
    ToResult(Gather(files, FileStep(username, host.fs)))
  }

  function UserStep(host: Host): string -> Partial<LegacyInfo>
  {
    username => FromResults(UserRecords(host, username))
  }

  /** `get_firefox_installed_extensions(usernames)`: nothing is caught. */
  function Installed(host: Host, usernames: seq<string>): (r: Result<seq<LegacyInfo>>)
    ensures r.Err? ==> exists u :: u in usernames && UserRecords(host, u) == Err(r.error)
    ensures r.Ok? ==> r.value == Flatten(usernames, UserStep(host))
  {
    GatherResult(usernames, UserStep(host));
    ToResult(Gather(usernames, UserStep(host)))
  }

  /** A user without the fixed profile root makes the whole scan raise. */
  lemma InstalledNeedsRoot(host: Host, usernames: seq<string>, i: nat)
    requires i < |usernames| && !host.fs.IsDir(ProfilesRoot(usernames[i]))
    ensures Installed(host, usernames).Err?
  {
    GatherStep(usernames, UserStep(host), i);
    GatherStops(usernames, UserStep(host), i + 1);
  }

  /** Every record of one user belongs to that user and to Firefox. */
  lemma UserRecordsTagged(host: Host, username: string)
    requires UserRecords(host, username).Ok?
    ensures forall rec :: rec in UserRecords(host, username).value ==> rec.browser == Firefox.FirefoxName && rec.username == username
  {
    var files := Firefox.ExtensionFiles(host, ProfilesRoot(username)).value;
    var Q := (rec: LegacyInfo) => rec.browser == Firefox.FirefoxName && rec.username == username;
    GatherAll(files, FileStep(username, host.fs), Q);
  }

  /** Every record of the scan belongs to the user whose profiles it came from, and to Firefox. */
  lemma InstalledTagged(host: Host, usernames: seq<string>)
    requires Installed(host, usernames).Ok?
    ensures forall rec :: rec in Installed(host, usernames).value ==> rec.browser == Firefox.FirefoxName && rec.username in usernames
  {
    var P := (rec: LegacyInfo) => rec.browser == Firefox.FirefoxName && rec.username in usernames;
    forall u | u in usernames
      ensures forall rec :: rec in UserStep(host)(u).items ==> P(rec)
    {
      if UserRecords(host, u).Ok? {
        UserRecordsTagged(host, u);
      }
    }
    GatherAll(usernames, UserStep(host), P);
  }

  /** The `for addon in addons` loop. */
  method LoadAddons(username: string, profile: Path, addons: seq<Json>) returns (records: seq<LegacyInfo>, failure: Option<Error>)
    ensures Partial(records, failure) == Gather(addons, AddonStep(username, profile))
  {
    records := [];
    var i := 0;
    while i < |addons|
      invariant i <= |addons|
      invariant Partial(records, None) == Gather(addons[..i], AddonStep(username, profile))
    {
      GatherStep(addons, AddonStep(username, profile), i);
      var record := AddonRecord(username, profile, addons[i]);
      if record.Err? {
        GatherStops(addons, AddonStep(username, profile), i + 1);
        return records, Some(record.error);
      }
      records := records + [record.value];
      i := i + 1;
    }
    assert addons[..i] == addons;
    failure := None;
  }

  /** The `for ext_file in ext_files` loop. */
  method LoadFiles(username: string, fs: FileSystem, files: seq<Path>) returns (records: seq<LegacyInfo>, failure: Option<Error>)
    ensures Partial(records, failure) == Gather(files, FileStep(username, fs))
  {
    records := [];
    var i := 0;
    while i < |files|
      invariant i <= |files|
      invariant Partial(records, None) == Gather(files[..i], FileStep(username, fs))
    {
      GatherStep(files, FileStep(username, fs), i);
      var addons := Firefox.Addons(fs, files[i]);
      if addons.Err? {
        GatherStops(files, FileStep(username, fs), i + 1);
        return records, Some(addons.error);
      }
      var found, stopped := LoadAddons(username, Dirname(files[i]), addons.value);
      records := records + found;
      if stopped.Some? {
        GatherStops(files, FileStep(username, fs), i + 1);
        return records, stopped;
      }
      i := i + 1;
    }
    assert files[..i] == files;
    failure := None;
  }

  /** The body of the `for username` loop: the fixed root's files, their records. */
  method ScanUser(host: Host, username: string) returns (r: Result<seq<LegacyInfo>>)
    ensures FromResults(r) == UserStep(host)(username)
    ensures r == UserRecords(host, username)
  {
    var files := Firefox.FindExtensionFiles(host, ProfilesRoot(username));
    if files.Err? {
      return Err(files.error);
    }
    var found, failure := LoadFiles(username, host.fs, files.value);
    if failure.Some? {
      return Err(failure.value);
    }
    r := Ok(found);
  }

  /** `get_firefox_installed_extensions`. */
  method GetFirefoxInstalledExtensions(host: Host, usernames: seq<string>) returns (r: Result<seq<LegacyInfo>>)
    ensures r == Installed(host, usernames)
  {
    var records: seq<LegacyInfo> := [];
    var i := 0;
    while i < |usernames|
      invariant i <= |usernames|
      invariant Gather(usernames[..i], UserStep(host)) == Partial(records, None)
    {
      var user := ScanUser(host, usernames[i]);
      GatherPropagates(usernames, UserStep(host), i, records, user);
      if user.Err? {
        return Err(user.error);
      }
      records := records + user.value;
      i := i + 1;
    }
    GatherDone(usernames, UserStep(host), records);
    r := Ok(records);
  }
}
