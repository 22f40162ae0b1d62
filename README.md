# Browser extension scanner — a verified Dafny model

The scanner lists the extensions installed for every user of a machine, in Mozilla Firefox,
Google Chrome and Microsoft Edge. For each extension it produces one `ExtensionInfo` record:
user, browser, profile, id, name, version, kind, description, author, homepage, active flag,
install/update time, location and the two permission blocks.

It reads:

- Firefox's `extensions.json` in every profile directory;
- Chromium's `Local State` and `Extensions/<id>/<version>/manifest.json`, resolving
  `__MSG_…__` placeholders through `_locales/<lang>/messages.json`.

It also includes a client for the CRXcavator risk-report service.

The project models three source files.

- `src/extensions.py`, the current revision of the scanner. It covers:
  - permission parsing;
  - locale placeholder resolution;
  - per-platform profile paths;
  - the Firefox and Chromium loaders;
  - browser detection;
  - `get_extension_info`.
- `main.py`, the older revision of the same scanner. It has:
  - Windows-only paths;
  - detection that never raises;
  - a Firefox kind read from the key `Type`;
  - inline locale resolution without `str`;
  - no `en-US` fallback;
  - a verbatim version.

  Its lemmas relate it to the current revision.
- `src/crxcavator.py`, covering:
  - the report URL;
  - the gate on the HTTP response;
  - the risk score, its band and the three detail totals.

How the model represents the program:

- **Python values.** What `json.load` returns is a `Python.Json`. A dict is a member list in
  document order: a lookup finds the last binding of a key, and `keys()` gives each key once.
- **Exceptions.** The exceptions the scanner raises are `Python.Error` values, carried in a
  `Result`.
- **The machine.** A `Host.Host` bundles the platform string, the `SystemDrive` variable, what
  `shutil.which` finds, and an in-memory file system. Paths are sequences of components.
- **Loaders.** Each loader is written twice:
  - as a specification function, a fold (`Gathering.Gather`) that appends records until the
    first exception;
  - as methods with `while` loops, mirroring the source's nested `for` loops, each proved equal
    to its specification.

What the code does in the cases where a reader might expect otherwise:

- **Firefox errors are fatal.** The Firefox loader catches nothing, so one user's missing
  profile directory or malformed `extensions.json` ends the whole scan (`Firefox.InstalledAborts`).
- **Unsupported platforms raise in the loaders.** An unsupported platform raises in both loaders.
  The loader does not treat it as "browser absent". `get_extension_info` never reaches that
  exception, though: in both revisions detection answers False on such a platform, so the scan
  there is the empty list (`Scan.Detect`, `LegacyScan.UnsupportedPlatformEmpty`).
- **Chromium recovery is per user.** A profile's exception ends that user's Chromium scan; the
  records appended before it are kept. There is no per-profile recovery.
- **Version directory.** The version directory is the first entry the listing gives, not the
  lexicographically first.
- **Version strip.** `replace('_0', '')` removes every occurrence of `_0`, not a suffix. It can
  leave a new `_0` behind: `__00` becomes `_0` (`Chromium.StripVersionResidue`).
- **Nested locale entries.** A non-empty second entry gives `str` of its `message`, so a
  missing message gives the text `None`. An empty second entry counts as missing.
- **Record order.** Records are not re-sorted globally. They come Firefox first, then Chrome,
  then Edge, and within each browser by user, then file or profile, then addon or folder.
  Chromium profiles come in the order `info_cache` first binds them in `Local State`.
- **Not in the source.** Permission-risk classification and network-connection correlation do
  not occur in the source files, and are not part of this model.

## Model

| member | source | states |
|---|---|---|
| Text.RemovePrefix | src/extensions.py:252-253 | `str.removeprefix`: the prefix is dropped exactly when present, otherwise the string is unchanged |
| Text.RemoveSuffix | src/extensions.py:252-253 | `str.removesuffix`: the suffix is dropped exactly when present, otherwise the string is unchanged |
| Text.Lower | src/extensions.py:204 | `str.lower()`: the same length, each character mapped by itself, and no capital letter left |
| Text.ReplaceChar | src/extensions.py:204 | replacing one character by another keeps the length and changes exactly the positions holding that character |
| Text.ReplaceAbsent | src/extensions.py:377 | `str.replace` of a pattern that does not occur leaves the string unchanged |
| Text.ReplaceKeepsPrefix | src/extensions.py:377 | a prefix without the pattern's first character passes through `str.replace` untouched |
| Text.ReplaceShrinks | src/extensions.py:377 | `str.replace` by a shorter replacement never lengthens a string, and shortens it by at least the difference when the pattern occurs |
| Text.LowerConcat | src/extensions.py:204 | `str.lower` of a concatenation is the concatenation of the lowered parts |
| Text.LessEqTotal | src/extensions.py:121 | the string order `list.sort` uses is total |
| Text.LessEqTransitive | src/extensions.py:121 | the string order is transitive |
| Text.LessEqAntisymmetric | src/extensions.py:326 | the string order is antisymmetric, so sorted folder names are in a unique order |
| Text.DigitsRoundTrip | src/crxcavator.py:41 | the digits of a natural number read back as that number |
| Text.DecimalRoundTrip | src/crxcavator.py:41 | `int(str(n)) == n` for every integer, negative ones included |
| Python.Lookup | src/extensions.py:127 | a dict lookup finds a key exactly when some member has it, and returns a value bound to that key |
| Python.LookupAt | src/extensions.py:127 | a member that no later member overrides is what the lookup of its key finds |
| Python.GetOrAt | src/extensions.py:135-145 | `get` with any default finds a member that no later member rebinds |
| Python.Get | src/extensions.py:127 | `obj.get(key, default)`: AttributeError exactly for a non-dict, otherwise the bound value or the default |
| Python.GetOr | src/extensions.py:135-145 | `get` on a known dict never raises, and gives the bound value when the key is present, the default otherwise |
| Python.Keys | src/extensions.py:317-318 | `dict.keys()`: exactly the keys present, each once, in the order of their first binding in the document |
| Python.Iter | src/extensions.py:129 | `for addon in addons`: a list gives its items, a string one item per character, a dict its keys (each once, as strings); TypeError exactly for values that are not a list, string or dict |
| Python.Contains | src/extensions.py:343 | `"MSG" in x`: a substring test on a string, membership of the string in a list, key membership in a dict; TypeError exactly for every other value |
| Python.Str | src/extensions.py:281-282 | `str(x)`: a string is itself, None is `None` |
| Python.Number | src/extensions.py:147 | `float`/`int` of a JSON value: numbers convert to themselves, numeric text parses, other values raise |
| Python.NumberOfStr | src/crxcavator.py:41 | `int(str(n)) == n` on JSON values |
| Sorting.Insert | src/extensions.py:121 | inserting into a sorted list keeps it sorted and adds exactly that element |
| Sorting.SortBy | src/extensions.py:121 | `list.sort()`: the result is sorted and a permutation of the input |
| Sorting.SortedUnique | src/extensions.py:326 | two sorted permutations of the same list of names are equal |
| Host.FileSystem.ListDir | src/extensions.py:115-116 | `os.listdir`: the children of a directory, OSError for anything else |
| Host.FileSystem.LoadJson | src/extensions.py:124-125 | `json.load` of a file: succeeds exactly for an existing file that parses, with its value |
| Host.FileSystem.StampOf | src/extensions.py:362-365 | `getctime`/`getmtime`: succeed exactly for a path the file system has times for |
| Host.Dirname | src/extensions.py:134 | `os.path.dirname`: the path without its last component |
| Permissions.Parse | src/extensions.py:22-31 | None gives None, a dict gives its `permissions` and `origins` (None when absent), anything else is a TypeError; both directions of each case (main.py:24-33 is the same code) |
| Permissions.ParseBlock | src/extensions.py:367-368 | the block a permission is written as parses back to that permission |
| Permissions.AbsentIsNotEmpty | src/extensions.py:24-29 | an absent block gives no permission, an empty dict a permission with both fields None |
| ProfilePaths.FirefoxProfilePath | src/extensions.py:84-103 | the Firefox profile root per platform: raises exactly on an unsupported platform or on Windows without SystemDrive; Windows gives the drive, `\\`, `Users`, the user, `AppData`, `Roaming`, `Mozilla`, `Firefox`, `Profiles`; Linux the relative `home/<user>/.mozilla/firefox`; macOS the relative `Users/<user>/Library/Application Support/Firefox/Profiles` |
| ProfilePaths.ChromeProfilePath | src/extensions.py:190-216 | the Chromium user-data root: raises exactly on an unsupported platform, on Windows without SystemDrive, or on Windows/macOS with a one-word browser name; Linux gives the relative `home/<user>/.config/<name>`; Windows the drive, `\\`, `Users`, the user, `AppData`, `Local`, the name's first two words, `User Data`; macOS the relative `Users/<user>/Library/Application Support/<word 1>/<word 2>` |
| ProfilePaths.LinuxDirNameShape | src/extensions.py:204 | the Linux directory name has the browser name's length, with spaces as `-` and no capitals |
| ProfilePaths.ProfilePathsSeparateUsers | src/extensions.py:84-103 | different users never get the same profile root |
| ProfilePaths.SplitWhole | src/extensions.py:197 | a name without spaces splits into itself |
| ProfilePaths.SplitTwoWords | src/extensions.py:197 | two words joined by one space split back into those words |
| ProfilePaths.BrowserWords | src/extensions.py:197-200 | "Google Chrome" and "Microsoft Edge" give the two directories of the Windows and macOS layouts |
| ProfilePaths.LinuxDirNameTwoWords | src/extensions.py:204-206 | a two-word browser name gives its words lower-cased and joined by `-` (so `Google Chrome` lives in `google-chrome`, `Microsoft Edge` in `microsoft-edge`) |
| Locale.PlaceholderKey | src/extensions.py:276-277 | `__MSG_` is removed exactly when the field starts with it, then `__` exactly when what remains ends with it |
| Locale.Resolve | src/extensions.py:275-296 | the name and description resolution: fails exactly for a non-string field, a non-dict catalog, a first hit that is neither dict nor string, or a non-empty nested hit that is not a dict; TypeError and AttributeError told apart |
| Locale.PlaceholderKeyRoundTrip | src/extensions.py:276-277 | `__MSG_key__` names exactly `key` |
| Locale.ResolveDirect | src/extensions.py:280-282 | a dict hit resolves to its message |
| Locale.ResolveDirectNoMessage | src/extensions.py:280-282 | a dict hit without message resolves to "" |
| Locale.ResolveNested | src/extensions.py:283-289 | a string hit naming a non-empty entry resolves to that entry's message |
| Locale.ResolveNestedMiss | src/extensions.py:290-291 | a string hit whose second lookup is missing or empty resolves to the string itself |
| Locale.ResolveUnlowered | src/extensions.py:278-279 | a missing lower-cased key falls back to the stripped key as written |
| Locale.ResolveExampleDirect | src/extensions.py:251-272 | `__MSG_foo__` with `foo → {message: Bar}` gives `Bar` |
| Locale.ResolveExampleNested | src/extensions.py:251-272 | `__MSG_foo__` with `foo → other_key → {message: Baz}` gives `Baz` |
| Locale.ResolveExampleNestedMiss | src/extensions.py:251-272 | with `other_key` absent the result is `other_key` |
| Firefox.Millis | src/extensions.py:146-149 | the install and update times: the milliseconds `float` reads, and its exception |
| Firefox.AddonRecord | src/extensions.py:129-155 | one addon as a record: AttributeError for a non-dict; for a dict, succeeds exactly when `defaultLocale` (default `{}`) is a dict and both times and both permission blocks convert, and otherwise raises the first failure in the order `defaultLocale`, `installDate`, `updateDate`, `userPermissions`, `optionalPermissions`; a record tagged with the user, Firefox and the profile directory |
| Firefox.AddonRecordFields | src/extensions.py:130-155 | every field of the record is the value under the key that names it, or that key's default |
| Firefox.AddonRoundTrip | src/extensions.py:130-155 | the entry a Firefox record is written as reads back as that record |
| Firefox.AddonDefaults | src/extensions.py:135-154 | an empty addon dict gets every default: empty strings, inactive, epoch 0, no permissions |
| Firefox.ParseBlockOf | src/extensions.py:151-154 | a parsed permission or its absence written back parses to itself |
| Firefox.ProfileDirs | src/extensions.py:115-116 | the profile candidates are exactly the children that are directories |
| Firefox.ExistingTargets | src/extensions.py:117-120 | the collected files are exactly the existing `extensions.json` of the profiles |
| Firefox.ExtensionFiles | src/extensions.py:113-121 | the files of a profile root: fails exactly when the root is not a directory, sorted by path, exactly the existing `extensions.json` of child directories |
| Firefox.Addons | src/extensions.py:124-127 | `data.get("addons", [])`, iterated: the file's load error when it does not load, AttributeError when it is not a dict, otherwise the iteration of its `addons` value (default `[]`) |
| Firefox.FileRecords | src/extensions.py:123-157 | one `extensions.json`: its load or iteration error with no records, and every record tagged with the user, Firefox and the file's directory |
| Firefox.UserRecords | src/extensions.py:108-157 | one user: the profile path's error propagates; succeeds exactly when the path, the file listing and every file's scan succeed, and is then the concatenation of the files' records in file order |
| Firefox.Installed | src/extensions.py:106-159 | the scan: any exception is one user's exception |
| Firefox.InstalledOwnedByUsers | src/extensions.py:106-159 | every record of a completed scan belongs to one of the users scanned |
| Firefox.FileRecordsOnePerAddon | src/extensions.py:129-157 | a file scanned without exception gives one record per addon, the k-th from the k-th addon |
| Firefox.FilesRecordCount | src/extensions.py:123-157 | files scanned without exception give as many records as they list addons |
| Firefox.UserRecordCount | src/extensions.py:109-157 | a user's records number the addons of their files |
| Firefox.UserRecordsTagged | src/extensions.py:130-134 | every record of a user's scan belongs to that user and to Firefox |
| Firefox.InstalledTagged | src/extensions.py:106-159 | every record of the scan is tagged Firefox |
| Firefox.InstalledConcatenates | src/extensions.py:106-159 | a scan that completes is every user's records, in user order |
| Firefox.InstalledAborts | src/extensions.py:106-159 | one user's exception makes the whole scan raise |
| Firefox.InstalledUnsupported | src/extensions.py:100-102 | on an unsupported platform the scan of any user raises |
| Firefox.CollectExtensionFiles | src/extensions.py:117-120 | the `for profile` loop appends exactly the existing targets, in order |
| Firefox.FindExtensionFiles | src/extensions.py:113-121 | listing, filtering and sorting in place give the sorted files |
| Firefox.LoadAddons | src/extensions.py:129-157 | the addon loop appends one record per addon until the first exception |
| Firefox.LoadFiles | src/extensions.py:123-157 | the file loop, with the addon loop nested |
| Firefox.ScanUser | src/extensions.py:108-157 | the body of the user loop computes one user's records, or their exception |
| Firefox.GetFirefoxInstalledExtensions | src/extensions.py:106-159 | the user loop computes the scan |
| Chromium.BrowserShort | src/extensions.py:302-305 | "Chrome" exactly for Google Chrome, "Edge" for any other name |
| Chromium.StripVersion | src/extensions.py:377 | `replace('_0', '')` never lengthens the version, and removes at least two characters when `_0` occurs |
| Chromium.CatalogDir | src/extensions.py:344-348 | `_locales/en` when it exists, else `_locales/en-US` |
| Chromium.Localize | src/extensions.py:343-359 | the locale branch: OSError without the catalog directory, IndexError when it is empty, the first catalog file's load error, the name's and then the description's resolution error; when both resolve, kind `app` with the two resolved strings |
| Chromium.VersionOf | src/extensions.py:329-330 | the version directory is the first listed entry; fails exactly when the folder is not a non-empty directory |
| Chromium.ManifestOf | src/extensions.py:329-335 | the manifest is `manifest.json` in the first listed entry of a non-empty folder; any other folder fails |
| Chromium.FolderRecord | src/extensions.py:328-391 | one folder's record: succeeds exactly when the manifest loads as a dict, `"MSG" in name` does not raise, the locale step succeeds for an app, and the folder has times; id and path from the folder, version with `_0` removed, permissions from `permissions`/`hostPermissions`, author, install and update times from the folder's ctime and mtime, kind `app` exactly when the name contains MSG, an app's labels from the locale step, an extension's from the manifest |
| Chromium.WithoutTemp | src/extensions.py:324-325 | exactly the children other than `Temp` |
| Chromium.VisibleFolders | src/extensions.py:324-326 | the folders visited: sorted, a permutation of the children other than `Temp` |
| Chromium.LocalStateProfiles | src/extensions.py:314-318 | succeeds exactly when `Local State` loads as a dict whose `profile` is a dict whose `info_cache` is a dict; the profiles are then `info_cache.keys()`: exactly its keys, each once, in document order |
| Chromium.ProfileRecords | src/extensions.py:321-394 | one profile: no records and no exception without an `Extensions` entry, OSError when it is not a directory, every record tagged with the user, the browser, its short name and the profile |
| Chromium.ProfilesWalk | src/extensions.py:314-394 | the body of the `try`: the `Local State` error with no records, otherwise an exception exactly when some profile raises; every record tagged with the user and browser |
| Chromium.UserRecords | src/extensions.py:307-397 | one user: an exception exactly when the profile path (outside the `try`) raises, with no records; every record tagged with the user and browser |
| Chromium.Installed | src/extensions.py:299-399 | the scan succeeds exactly when every user's profile path is known; its exception is one user's profile-path exception; every record belongs to one of the users scanned |
| Chromium.StripVersionExample | src/extensions.py:377 | `137.0.1_0` becomes `137.0.1` |
| Chromium.StripVersionPlain | src/extensions.py:377 | a version without `_0` is kept |
| Chromium.StripVersionResidue | src/extensions.py:377 | `__00` becomes `_0`: one pass can leave the suffix behind |
| Chromium.FoldersOneRecordEach | src/extensions.py:328-391 | folders scanned without exception give one record each, in folder order |
| Chromium.ProfileOneRecordPerFolder | src/extensions.py:320-391 | a profile scanned without exception has one record per visible folder, the k-th for the k-th folder |
| Chromium.ProfileRecordsSorted | src/extensions.py:324-326 | a profile's records are in ascending id order, and none is `Temp` |
| Chromium.UserCatches | src/extensions.py:313-397 | once the profile path is known a user's scan never raises and keeps what was appended |
| Chromium.UserKeepsEarlierProfiles | src/extensions.py:320-397 | an exception in one profile keeps the earlier profiles' records |
| Chromium.InstalledWhenPathsKnown | src/extensions.py:307-399 | with every profile path known the scan completes with every user's records, in user order |
| Chromium.InstalledContinues | src/extensions.py:395-397 | one more user appends exactly what that user's walk gathered |
| Chromium.InstalledUnsupported | src/extensions.py:308-309 | the profile path is outside the `try`: an unsupported platform raises |
| Chromium.InstalledTagged | src/extensions.py:370-374 | every record names the browser scanned and its short name |
| Chromium.ReadFolder | src/extensions.py:329-391 | the loop body, with name, description and kind reassigned, computes the folder's record |
| Chromium.LoadFolders | src/extensions.py:328-391 | the folder loop appends records until the first exception |
| Chromium.LoadProfile | src/extensions.py:321-326 | filter and in-place sort, then the folder loop |
| Chromium.LoadProfiles | src/extensions.py:314-394 | the body of the `try`: `Local State`, then each profile |
| Chromium.GetChromiumInstalledExtensions | src/extensions.py:299-399 | the user loop with its `try`/`except` computes the scan |
| Scan.DetectAsWritten | src/extensions.py:55-81 | detection as written (also 162-187, 223-244): raises exactly on Windows without SystemDrive for Firefox and Chrome, or on Linux/macOS when the executable is not on the PATH; otherwise on Windows present exactly when the fixed executable exists (Firefox and Chrome under SystemDrive, Edge under `C:`) |
| Scan.Detect | src/extensions.py:55-81 | detection as intended: raises only for a missing SystemDrive; on Windows present exactly when the fixed executable exists (Firefox and Chrome under SystemDrive, Edge under `C:`); on Linux/macOS present exactly when found on the PATH and existing; false on other platforms |
| Scan.DetectAgrees | src/extensions.py:55-81 | where the code as written answers, the intended detection answers the same |
| Scan.DetectRaisesWithoutExecutable | src/extensions.py:65-75 | Linux without `firefox` on the PATH: TypeError as written, absent as intended |
| Scan.BrowserRecords | src/extensions.py:406-413 | one browser's part: a detection exception propagates, an undetected browser gives no records, a detected one gives exactly its loader's result (`get_firefox_installed_extensions`, or the Chromium loader for Chrome or Edge) |
| Scan.BrowserRecordsOwnedByUsers | src/extensions.py:406-413 | every record of one browser's part belongs to one of the users scanned |
| Scan.ExtensionInfoList | src/extensions.py:402-415 | the list succeeds exactly when the three parts do, and is then the Firefox part, then the Chrome part, then the Edge part; otherwise the first failing part's exception, in that order |
| Scan.BrowserRecordsTagged | src/extensions.py:406-413 | each browser's part carries that browser's short name |
| Scan.PartsInRankOrder | src/extensions.py:402-415 | three parts tagged Firefox, Chrome and Edge, concatenated in that order, are ordered by browser |
| Scan.ExtensionInfoOrder | src/extensions.py:402-415 | the list is the Firefox part followed by the Chrome part and the Edge part, and is therefore ordered by browser |
| Scan.UndetectedContributesNothing | src/extensions.py:406-413 | an undetected browser contributes no record |
| Scan.ScanBrowser | src/extensions.py:406-413 | one detect-then-extend step computes that browser's part, with the corrected detection `Scan.Detect` |
| Scan.GetExtensionInfo | src/extensions.py:402-415 | the three steps compute the list, with the corrected detection `Scan.Detect` |
| LegacyRecords.Older | main.py:36-53 | the older record has every field of the current one (user, browser, profile, id, name, version, kind, description, author, homepage, active, dates, path, both permission blocks), the short browser name dropped |
| LegacyFirefox.ProfilesRoot | main.py:89 | the fixed profile root: `C:`, `\\`, `Users`, the user, `AppData`, `Roaming`, `Mozilla`, `Firefox`, `Profiles` |
| LegacyFirefox.ProfilesRootAgainstCurrent | main.py:89 | on Windows with SystemDrive `C:` the fixed root is the current revision's Firefox profile root (src/extensions.py:84-90) |
| LegacyFirefox.AddonRecord | main.py:104-125 | one addon as an older record: AttributeError for a non-dict; for a dict, succeeds exactly when `defaultLocale` is a dict and both times and both permission blocks convert, and otherwise raises the first failure in the order `defaultLocale`, `installDate`, `updateDate`, `userPermissions`, `optionalPermissions`; tagged with the user, Firefox and the profile |
| LegacyFirefox.AddonRecordAgainstCurrent | main.py:105-125 | both revisions fail together on the same exception, and agree but for the kind, read here from `Type` |
| LegacyFirefox.TypeKeyIgnored | main.py:112 | an addon with only `type` gets the empty kind here and its type in the current revision |
| LegacyFirefox.FileRecords | main.py:98-127 | one `extensions.json`: its load or iteration error with no records, and every record tagged with the user, Firefox and the file's directory |
| LegacyFirefox.UserRecords | main.py:89-127 | one user: OSError for the fixed root when it is not a directory; succeeds exactly when the root is a directory and every file's scan succeeds, and is then the concatenation of the files' records |
| LegacyFirefox.Installed | main.py:82-129 | the scan: any exception is one user's exception; a scan that completes is every user's records, in user order |
| LegacyFirefox.InstalledNeedsRoot | main.py:89-91 | any user without the fixed root makes the scan raise, on every platform |
| LegacyFirefox.InstalledTagged | main.py:105-108 | every record is Firefox's and belongs to one of the users scanned |
| LegacyFirefox.UserRecordsTagged | main.py:97-108 | every record of one user's scan belongs to that user and to Firefox |
| LegacyFirefox.LoadAddons | main.py:104-127 | the addon loop appends records until the first exception |
| LegacyFirefox.LoadFiles | main.py:98-127 | the file loop, with the addon loop nested |
| LegacyFirefox.ScanUser | main.py:89-127 | the body of the user loop computes one user's records, or their exception |
| LegacyFirefox.GetFirefoxInstalledExtensions | main.py:82-129 | the user loop computes the scan |
| LegacyChromium.StateRoot | main.py:194-200 | `Local State`'s directory: the drive, the doubled separator, `Users`, the user, `AppData`, `Local`, every space-separated word of the browser name, `User Data` |
| LegacyChromium.ProfilesRoot | main.py:194-210 | the profiles' directory: the same path as the state root without the doubled separator, starting with the drive |
| LegacyChromium.ResolveInline | main.py:242-258 | inline resolution keeps the catalog value: a dict hit's message ("" when absent), a non-empty nested hit's `get("message")` (None when absent, AttributeError when it is not a dict), the string itself for an empty or missing nested hit, TypeError for other hits, AttributeError for a non-string field or non-dict catalog |
| LegacyChromium.ResolveInlineAgainstCurrent | main.py:242-258 | the current resolution fails exactly when this one does, with the same exception, and is `str` of its value |
| LegacyChromium.ResolveInlineKeepsNone | main.py:251-253 | a nested entry without message gives None here and the text `None` in the current revision |
| LegacyChromium.Localize | main.py:235-279 | the locale branch: only `_locales/en`; OSError without it, IndexError when empty, the catalog file's load error, the name's and then the description's resolution error; when both resolve, kind `app` with the values as resolved inline |
| LegacyChromium.LocalizeAgainstCurrent | main.py:235-240 | with `_locales/en` present both revisions fail together and the current labels are `str` of these |
| LegacyChromium.NoFallbackCatalog | main.py:235-237 | without `_locales/en` the locale branch raises where the current revision reads `en-US` |
| LegacyChromium.FolderRecord | main.py:216-310 | one folder's record, as in the current revision (success condition, app labels from the locale step, dates from the folder's ctime and mtime) but the version is kept verbatim and there is no short name |
| LegacyChromium.FolderRecordAgainstCurrent | main.py:296 | for a non-app both revisions fail together and agree but for the version, whose `_0` only the current one removes |
| LegacyChromium.ProfileRecords | main.py:209-313 | one profile: no records and no exception without an `Extensions` entry, OSError when it is not a directory, every record tagged with the user, browser and profile |
| LegacyChromium.ProfilesWalk | main.py:202-313 | the body of the `try`: `Local State` read under the state root, its error with no records; otherwise an exception exactly when some profile under the profiles root raises |
| LegacyChromium.Installed | main.py:192-199 | raises exactly when SystemDrive is unset |
| LegacyChromium.InstalledCollectsAll | main.py:199-316 | with SystemDrive set the result is every user's records, whatever a user's scan raised |
| LegacyChromium.InstalledWithoutDrive | main.py:195-197 | SystemDrive is checked before any user: no users still raises |
| LegacyChromium.InstalledTagged | main.py:290-292 | every record names the browser scanned |
| LegacyChromium.WalkTagged | main.py:202-292 | every record one user's walk appends names the browser scanned |
| LegacyChromium.ReadFolder | main.py:216-310 | the loop body computes the folder's record |
| LegacyChromium.LoadFolders | main.py:216-310 | the folder loop appends records until the first exception |
| LegacyChromium.LoadProfile | main.py:209-214 | filter and in-place sort, then the folder loop |
| LegacyChromium.LoadProfiles | main.py:202-313 | the body of the `try` for one user |
| LegacyChromium.GetChromiumInstalledExtensions | main.py:192-318 | the drive check and the user loop compute the scan |
| LegacyScan.Detect | main.py:56-79 | detection (also 132-155, 162-185): Windows probes fixed `C:` paths; Linux/macOS answer Chrome and Edge present, Firefox absent, without probing; false elsewhere |
| LegacyScan.UnixWithoutDriveRaises | main.py:321-330 | on Linux/macOS without SystemDrive the whole scan raises, for any users |
| LegacyScan.UnsupportedPlatformEmpty | main.py:321-332 | on other platforms the list is empty |
| LegacyScan.BrowserRecords | main.py:325-330 | one browser's part: no records when undetected; a detected browser gives exactly its loader's result; a detected Chromium browser raises exactly when SystemDrive is unset, with that exception |
| LegacyScan.ExtensionInfoList | main.py:321-332 | the list succeeds exactly when the three parts do, and is then the Firefox part, then the Chrome part, then the Edge part; otherwise the first failing part's exception, in that order |
| LegacyScan.BrowserRecordsTagged | main.py:325-330 | each browser's part names that browser |
| LegacyScan.PartsInRankOrder | main.py:321-332 | three parts tagged with the three browser names, concatenated in that order, are ordered by browser |
| LegacyScan.PartsTagged | main.py:325-330 | the three parts carry the names of the three browsers |
| LegacyScan.ListOfParts | main.py:321-332 | a list that succeeds is the concatenation of three parts that succeed |
| LegacyScan.ExtensionInfoOrder | main.py:321-332 | the list is the Firefox part followed by Chrome's and Edge's, and is therefore ordered by browser |
| LegacyScan.ScanBrowser | main.py:325-330 | one detect-then-extend step |
| LegacyScan.GetExtensionInfo | main.py:321-332 | the three steps compute the list |
| Crxcavator.Level | src/crxcavator.py:42-49 | Low exactly up to 377, Medium exactly from 378 to 478, High exactly above 478; never `N/A` |
| Crxcavator.LevelMonotone | src/crxcavator.py:42-49 | a higher score never gives a lower band |
| Crxcavator.SectionTotal | src/crxcavator.py:21-23 | a section's total, "" when the section or its total is missing, AttributeError when the section is not a dict |
| Crxcavator.ParseDetail | src/crxcavator.py:19-29 | the detail holds the three section totals, and fails exactly when one of them does |
| Crxcavator.RiskOf | src/crxcavator.py:40 | `response.get('data').get('risk')` succeeds exactly when the response and its data are dicts |
| Crxcavator.ParseReport | src/crxcavator.py:39-55 | the score is `int` of the risk's total, 0 when missing; the level is its band; the detail is parsed from the same risk dict; the errors of `get`, `int` and the detail propagate in that order, and when none occurs the report parses |
| Crxcavator.EmptyRiskIsLow | src/crxcavator.py:41-43 | a risk without total and sections gives score 0, Low and three empty details |
| Crxcavator.MissingDataRaises | src/crxcavator.py:40 | a response without `data` raises AttributeError |
| Crxcavator.ReportUrl | src/crxcavator.py:59-60 | the URL starts with the base URL and a `/` |
| Crxcavator.ReportUrlParts | src/crxcavator.py:59-60 | the URL is the base URL, `/`, the id, `/`, the version, `?platform=` and the platform |
| Crxcavator.ReportUrlInjective | src/crxcavator.py:59-60 | ids without `/` and versions without `?` give distinct URLs to distinct (id, version, platform) |
| Crxcavator.Gate | src/crxcavator.py:63-68 | None exactly when the status is not 200 or the body is `null\n`; otherwise the parsed report or its exception |
| Crxcavator.GetRiskReport | src/crxcavator.py:58-68 | the response of the report URL, gated; a report's level is Low, Medium or High |

Helpers without a contract of their own stand for these pieces of Python:

- `Scan.WindowsExecutable`: the executables the current revision probes on Windows
  (src/extensions.py:62-63, 169-170, 227), Firefox and Chrome under SystemDrive, Edge under a
  written-out `C:`.
- `LegacyScan.WindowsExecutable`: the older revision's fixed probes (main.py:60, 136, 166); the
  Firefox path has a single backslash after `C:`, the other two a doubled one.
- `LegacyChromium.BrowserDirs`: `browser.replace(' ', '\\')` (main.py:194), as directories.
- `LegacyChromium.CatalogDir`: `_locales/en` under the version directory (main.py:235-236).
- `ProfilePaths.LinuxDirName`: `browser.replace(' ', '-').lower()` (src/extensions.py:204).
- `Firefox.PathKey`: the string `ext_files.sort()` compares (src/extensions.py:121).
- `Locale.FirstHit`: `messages.get(name_field.lower(), name_field)` (src/extensions.py:278-279).
- `Locale.SecondHit`: `messages.get(ext_name_obj, None)` (src/extensions.py:285-286).
- `Host.Host.Which`: `shutil.which`; `Host.FileSystem.Exists`: `os.path.exists`;
  `Host.FileSystem.IsDir`: `os.path.isdir`.
- `Text.Replace`: `str.replace`; `Text.Split`: `str.split` with a one-character separator.

Their properties are stated by the rows above that use them: for example
`ProfilePaths.LinuxDirNameShape` and `ProfilePaths.LinuxDirNameTwoWords`, `Text.ReplaceShrinks`,
`ProfilePaths.SplitTwoWords` and `Locale.ResolveUnlowered`.

The Linux and macOS roots (`home/<user>/…`, `Users/<user>/…`) are relative paths, as in the
source (src/extensions.py:92-97, 203-213). The program resolves them against its working
directory, so they name the users' directories only when it runs from `/`.

## Left out

- Real I/O. The following become inputs:
  - file reads, directory listings and file times become the in-memory `Host.FileSystem`;
  - `os.getenv("SystemDrive")` becomes `Host.systemDrive`;
  - `shutil.which` becomes `Host.onPath`;
  - `psutil.users()` becomes the user-name sequence;
  - `requests.get` becomes a function from URL to response.
- `json.loads` of a response body. The decoded value is given alongside the text, and the model
  does not tie the two together. A body that is not JSON is not modelled.
- The order of `os.listdir`. It is taken as given, so the version directory and the catalog
  file are whatever entry the listing gives first, and no ordering is claimed for them.
- Path rendering. Paths are component sequences. `os.path.join`, ntpath drive handling and the
  trailing separator of the older Firefox root are left out.
  - A doubled backslash after the drive is kept as a component of its own, so `C:\\Users` and
    `C:\Users` are different paths here. In the older revision's f-strings and literals
    (main.py:60, 89, 136, 166, 200) Windows opens the same directory for both.
  - Only the Firefox sort key renders a path to a string, with the host's separator.
- `ProfilePaths.FirefoxProfilePath`, `ProfilePaths.ChromeProfilePath`, `Scan.WindowsExecutable`:
  keep the drive as the first component. The current revision builds these paths with
  `os.path.join(drive, '\\\\', ...)` (src/extensions.py:62-63, 89-90, 169-170, 199-200).
  From Python 3.12 on, ntpath reads the doubled backslash as the start of a UNC root and drops
  the drive, so the Windows paths the program opens are not on SystemDrive. The model does not
  capture that loss.
- Timestamps. `datetime.fromtimestamp` and its range errors, the division by 1000, and the OS
  clock are left out. Dates are kept as the raw epoch milliseconds or the file-time seconds.
- Floating point. JSON numbers are integers. `float()`/`int()` of text accept optionally signed
  digit strings only, without surrounding whitespace, underscores, or decimal and exponent
  forms.
- Unicode. `str.lower()` folds only A–Z. `repr` does not escape quotes inside strings.
- Exception messages and logging are left out, and so are:
  - `get_root_dir` and `main`;
  - the `__main__` exit-code blocks;
  - the debug `print` at main.py:232-233.
- The text UI in `src/main.py`. It is not part of this model.
- Permission-risk classification and connection correlation. They are not part of this model,
  because no source file implements them.
- `Firefox.AddonRecord`, `LegacyFirefox.AddonRecord`: the dataclasses do not check their field
  types, so fields hold whatever JSON value the artifact has. The model does not check field
  types either.
- `Chromium.FolderRecord`, `LegacyChromium.FolderRecord`: the Chromium `profile` field is the
  profile key from `Local State`. It is stored as a one-component path.
- `Scan.ScanBrowser`, `Scan.GetExtensionInfo`, `Scan.BrowserRecords`, `Scan.ExtensionInfoList`:
  use the corrected detection `Scan.Detect`, not the
  code as written. On Linux or macOS with a browser missing from the PATH, the code as written
  raises a TypeError (`Scan.DetectAsWritten`, see "Findings"). The model's scan reports that
  browser absent and goes on. The aggregation over the as-written detection is not modelled.
- Loop structure. Each nested `for` loop is a method of its own, called from the enclosing
  loop's method, rather than one method with nested `while` loops.

## Findings

| source | as written | input that shows it | evidently intended | confidence | as-written member | corrected member |
|---|---|---|---|---|---|---|
| src/extensions.py:67-75 | on Linux and macOS the result of `shutil.which('firefox')` goes straight to `os.path.exists`. `which` gives None for a browser not on the PATH, and `os.path.exists(None)` raises TypeError, so `get_extension_info` raises instead of skipping the browser. The same code is at 173-181 for Chrome and 230-238 for Edge | platform `linux`, no `firefox` on the PATH | a browser that is not on the PATH is reported as not installed | not executed | Scan.DetectAsWritten, Scan.DetectRaisesWithoutExecutable | Scan.Detect |
