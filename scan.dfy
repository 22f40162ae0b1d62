/**
 * `get_extension_info` of the current revision: detect each browser, and append the Firefox
 * records, then the Chrome records, then the Edge records. Detection is modelled twice: as the
 * code is written, where a browser missing from the PATH on Linux or macOS makes
 * `os.path.exists(None)` raise a TypeError, and as evidently intended, where it is reported
 * absent. The scan uses the intended detection.
 */
module Scan {
  import opened Python
  import opened Host
  import opened Records
  import Firefox
  import Chromium
  import ProfilePaths

  /** The three browsers the scan looks for. */
  datatype Product = MozillaFirefox | GoogleChrome | MicrosoftEdge {
    /** The name `shutil.which` is asked for on Linux and macOS. */
    function Executable(): string
    {
      match this
      case MozillaFirefox => "firefox"
      case GoogleChrome => "chrome"
      case MicrosoftEdge => "edge"
    }
  }

  /** The executable probed on Windows. Edge's path is written out with its drive; the others take SystemDrive. */
  function WindowsExecutable(product: Product, drive: string): Path
  {
    match product
    case MozillaFirefox => [drive, "\\\\", "Program Files", "Mozilla Firefox", "firefox.exe"]
    case GoogleChrome => [drive, "\\\\", "Program Files", "Google", "Chrome", "Application", "chrome.exe"]
    case MicrosoftEdge => ["C:", "\\\\", "Program Files (x86)", "Microsoft", "Edge", "Application", "msedge.exe"]
  }

  /** Windows needs SystemDrive for the Firefox and Chrome probes, and raises without it. */
  predicate NeedsDrive(host: Host, product: Product)
  {
    host.platform == "win32" && product != MicrosoftEdge && host.systemDrive.None?
  }

  /**
   * `__is_firefox_installed`, `__is_chrome_installed`, `__is_edge_installed` as written: on Linux
   * and macOS the result of `shutil.which` goes straight to `os.path.exists`, which raises
   * a TypeError for None.
   */
  function DetectAsWritten(host: Host, product: Product): (r: Result<bool>)
    ensures r.Err? <==>
      NeedsDrive(host, product)
      || ((host.platform == "linux" || host.platform == "darwin") && host.Which(product.Executable()).None?)
    ensures host.platform == "win32" && r.Ok? ==>
      r.value == host.fs.Exists(WindowsExecutable(product, if product == MicrosoftEdge then "C:" else host.systemDrive.value))
  {
    if host.platform == "win32" then
      if product == MicrosoftEdge then Ok(host.fs.Exists(WindowsExecutable(product, "C:")))
      else match host.systemDrive
        case None => Err(MissingSystemDrive)
        case Some(drive) => Ok(host.fs.Exists(WindowsExecutable(product, drive)))
    else if host.platform == "linux" || host.platform == "darwin" then
      match host.Which(product.Executable())
      case None => Err(TypeError)
      case Some(p) => Ok(host.fs.Exists(p))
    else Ok(false)
  }

  /** The detection as evidently intended: a browser `shutil.which` does not find is absent. */
  function Detect(host: Host, product: Product): (r: Result<bool>)
    ensures r.Err? <==> NeedsDrive(host, product)
    ensures r.Err? ==> r.error == MissingSystemDrive
    ensures host.platform == "win32" && r.Ok? ==>
      r.value == host.fs.Exists(WindowsExecutable(product, if product == MicrosoftEdge then "C:" else host.systemDrive.value))
    ensures (host.platform == "linux" || host.platform == "darwin") ==>
      r == Ok(host.Which(product.Executable()).Some? && host.fs.Exists(host.Which(product.Executable()).value))
    ensures !ProfilePaths.Supported(host.platform) ==> r == Ok(false)
  {
    if host.platform == "win32" then
      if product == MicrosoftEdge then Ok(host.fs.Exists(WindowsExecutable(product, "C:")))
      else match host.systemDrive
        case None => Err(MissingSystemDrive)
        case Some(drive) => Ok(host.fs.Exists(WindowsExecutable(product, drive)))
    else if host.platform == "linux" || host.platform == "darwin" then
      match host.Which(product.Executable())
      case None => Ok(false)
      case Some(p) => Ok(host.fs.Exists(p))
    else Ok(false)
  }

  /** Where the code as written gives an answer, the intended detection gives the same one. */
  lemma DetectAgrees(host: Host, product: Product)
    requires DetectAsWritten(host, product).Ok?
    ensures Detect(host, product) == DetectAsWritten(host, product)
  {
  }

  /** On Linux, with no `firefox` on the PATH, the detection as written raises where the intended one answers "absent". */
  lemma DetectRaisesWithoutExecutable()
    ensures var host := Host("linux", None, map[], FileSystem(map[], map[], map[]));
      DetectAsWritten(host, MozillaFirefox) == Err(TypeError) && Detect(host, MozillaFirefox) == Ok(false)
  {
  }

  /** The records of one browser, or none when it is not detected. */
  function BrowserRecords(host: Host, usernames: seq<string>, product: Product): (r: Result<seq<ExtensionInfo>>)
    ensures Detect(host, product).Err? ==> r == Err(Detect(host, product).error)
    ensures Detect(host, product) == Ok(false) ==> r == Ok([])
    ensures Detect(host, product) == Ok(true) ==>
      r == (match product
            case MozillaFirefox => Firefox.Installed(host, usernames)
            case GoogleChrome => Chromium.Installed(host, usernames, "Google Chrome")
            case MicrosoftEdge => Chromium.Installed(host, usernames, "Microsoft Edge"))
  {
    var found :- Detect(host, product);
    if !found then Ok([])
    else match product
      case MozillaFirefox => Firefox.Installed(host, usernames)
      case GoogleChrome => Chromium.Installed(host, usernames, "Google Chrome")
      case MicrosoftEdge => Chromium.Installed(host, usernames, "Microsoft Edge")
  }

  /** `get_extension_info` for the users `psutil.users()` reports. */
  function ExtensionInfoList(host: Host, usernames: seq<string>): (r: Result<seq<ExtensionInfo>>)
    ensures var firefox := BrowserRecords(host, usernames, MozillaFirefox);
      var chrome := BrowserRecords(host, usernames, GoogleChrome);
      var edge := BrowserRecords(host, usernames, MicrosoftEdge);
      && (r.Ok? <==> firefox.Ok? && chrome.Ok? && edge.Ok?)
      && (firefox.Err? ==> r == Err(firefox.error))
      && (firefox.Ok? && chrome.Err? ==> r == Err(chrome.error))
      && (firefox.Ok? && chrome.Ok? && edge.Err? ==> r == Err(edge.error))
      && (r.Ok? ==> r.value == firefox.value + chrome.value + edge.value)
  {
    var firefox :- BrowserRecords(host, usernames, MozillaFirefox);
    var chrome :- BrowserRecords(host, usernames, GoogleChrome);
    var edge :- BrowserRecords(host, usernames, MicrosoftEdge);
    Ok(firefox + chrome + edge)
  }

  /** Every record of one browser's part belongs to one of the users scanned. */
  lemma BrowserRecordsOwnedByUsers(host: Host, usernames: seq<string>, product: Product)
    requires BrowserRecords(host, usernames, product).Ok?
    ensures forall rec :: rec in BrowserRecords(host, usernames, product).value ==> rec.username in usernames
  {
    if Detect(host, product).value && product == MozillaFirefox {
      Firefox.InstalledOwnedByUsers(host, usernames);
    }
  }

  /** Every record of one browser's part carries that browser's short name. */
  lemma BrowserRecordsTagged(host: Host, usernames: seq<string>, product: Product)
    requires BrowserRecords(host, usernames, product).Ok?
    ensures forall rec :: rec in BrowserRecords(host, usernames, product).value ==>
      rec.browserShort == (match product case MozillaFirefox => "Firefox" case GoogleChrome => "Chrome" case MicrosoftEdge => "Edge")
  {
    if Detect(host, product).value {
      match product {
        case MozillaFirefox => Firefox.InstalledTagged(host, usernames);
        case GoogleChrome => Chromium.InstalledTagged(host, usernames, "Google Chrome");
        case MicrosoftEdge => Chromium.InstalledTagged(host, usernames, "Microsoft Edge");
      }
    }
  }

  /** The position of a browser's records in the list: Firefox, then Chrome, then Edge. */
  function Rank(browserShort: string): int
  {
    if browserShort == "Firefox" then 0 else if browserShort == "Chrome" then 1 else 2
  }

  /** Three parts, each tagged with one short name, concatenated in rank order are ordered by rank. */
  lemma PartsInRankOrder(firefox: seq<ExtensionInfo>, chrome: seq<ExtensionInfo>, edge: seq<ExtensionInfo>)
    requires forall rec :: rec in firefox ==> rec.browserShort == "Firefox"
    requires forall rec :: rec in chrome ==> rec.browserShort == "Chrome"
    requires forall rec :: rec in edge ==> rec.browserShort == "Edge"
    ensures var list := firefox + chrome + edge;
      && (forall k :: 0 <= k < |list| ==> list[k].browserShort in ["Firefox", "Chrome", "Edge"])
      && (forall i, j :: 0 <= i < j < |list| ==> Rank(list[i].browserShort) <= Rank(list[j].browserShort))
  {
    var list := firefox + chrome + edge;
    forall k | 0 <= k < |list|
      ensures Rank(list[k].browserShort) == (if k < |firefox| then 0 else if k < |firefox| + |chrome| then 1 else 2)
      ensures list[k].browserShort in ["Firefox", "Chrome", "Edge"]
    {
      if k < |firefox| {
        assert list[k] == firefox[k] && firefox[k] in firefox;
      } else if k < |firefox| + |chrome| {
        assert list[k] == chrome[k - |firefox|] && chrome[k - |firefox|] in chrome;
      } else {
        assert list[k] == edge[k - |firefox| - |chrome|] && edge[k - |firefox| - |chrome|] in edge;
      }
    }
  }

  /** The list is all Firefox records, then all Chrome records, then all Edge records. */
  lemma ExtensionInfoOrder(host: Host, usernames: seq<string>)
    requires ExtensionInfoList(host, usernames).Ok?
    ensures var list := ExtensionInfoList(host, usernames).value;
      && list == BrowserRecords(host, usernames, MozillaFirefox).value
                 + BrowserRecords(host, usernames, GoogleChrome).value
                 + BrowserRecords(host, usernames, MicrosoftEdge).value
      && (forall k :: 0 <= k < |list| ==> list[k].browserShort in ["Firefox", "Chrome", "Edge"])
      && (forall i, j :: 0 <= i < j < |list| ==> Rank(list[i].browserShort) <= Rank(list[j].browserShort))
  {
    BrowserRecordsTagged(host, usernames, MozillaFirefox);
    BrowserRecordsTagged(host, usernames, GoogleChrome);
    BrowserRecordsTagged(host, usernames, MicrosoftEdge);
    PartsInRankOrder(BrowserRecords(host, usernames, MozillaFirefox).value,
                     BrowserRecords(host, usernames, GoogleChrome).value,
                     BrowserRecords(host, usernames, MicrosoftEdge).value);
  }

  /** A browser that is not detected contributes nothing. */
  lemma UndetectedContributesNothing(host: Host, usernames: seq<string>, product: Product)
    requires Detect(host, product) == Ok(false)
    ensures BrowserRecords(host, usernames, product) == Ok([])
  {
  }

  /** One `if __is_<browser>_installed(): extension_info_list.extend(...)` step. */
  method ScanBrowser(host: Host, usernames: seq<string>, product: Product) returns (r: Result<seq<ExtensionInfo>>)
    ensures r == BrowserRecords(host, usernames, product)
  {
    var found := Detect(host, product);
    if found.Err? {
      return Err(found.error);
    }
    if !found.value {
      return Ok([]);
    }
    match product {
      case MozillaFirefox =>
        r := Firefox.GetFirefoxInstalledExtensions(host, usernames);
      case GoogleChrome =>
        r := Chromium.GetChromiumInstalledExtensions(host, usernames, "Google Chrome");
      case MicrosoftEdge =>
        r := Chromium.GetChromiumInstalledExtensions(host, usernames, "Microsoft Edge");
    }
  }

  /** `get_extension_info`: Firefox, then Chrome, then Edge, each appended to the list. */
  method GetExtensionInfo(host: Host, usernames: seq<string>) returns (r: Result<seq<ExtensionInfo>>)
    ensures r == ExtensionInfoList(host, usernames)
  {
    var extensionInfoList: seq<ExtensionInfo> := [];
    var firefox := ScanBrowser(host, usernames, MozillaFirefox);
    if firefox.Err? {
      return Err(firefox.error);
    }
    extensionInfoList := extensionInfoList + firefox.value;
    var chrome := ScanBrowser(host, usernames, GoogleChrome);
    if chrome.Err? {
      return Err(chrome.error);
    }
    extensionInfoList := extensionInfoList + chrome.value;
    var edge := ScanBrowser(host, usernames, MicrosoftEdge);
    if edge.Err? {
      return Err(edge.error);
    }
    extensionInfoList := extensionInfoList + edge.value;
    assert [] + firefox.value == firefox.value;
    assert ExtensionInfoList(host, usernames) == Ok(firefox.value + chrome.value + edge.value);
    r := Ok(extensionInfoList);
  }
}
