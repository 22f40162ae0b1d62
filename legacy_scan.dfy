/**
 * `get_extension_info` of the older revision: the same three steps as the current one, with
 * detection that never raises. On Windows it probes fixed paths on drive `C:`; on Linux and macOS
 * it answers without probing: Firefox absent, Chrome and Edge present.
 */
module LegacyScan {
  import opened Python
  import opened Host
  import opened LegacyRecords
  import opened Scan
  import LegacyFirefox
  import LegacyChromium

  /** The executable probed on Windows, as written in the code. */
  function WindowsExecutable(product: Product): Path
  {
    match product
    case MozillaFirefox => ["C:", "Program Files", "Mozilla Firefox", "firefox.exe"]
    case GoogleChrome => ["C:", "\\\\", "Program Files", "Google", "Chrome", "Application", "chrome.exe"]
    case MicrosoftEdge => ["C:", "\\\\", "Program Files (x86)", "Microsoft", "Edge", "Application", "msedge.exe"]
  }

  /** `is_firefox_installed`, `is_chrome_installed`, `is_edge_installed`. */
  function Detect(host: Host, product: Product): (r: bool)
    ensures host.platform == "win32" ==> (r <==> host.fs.Exists(WindowsExecutable(product)))
    ensures host.platform == "linux" || host.platform == "darwin" ==> (r <==> product != MozillaFirefox)
    ensures host.platform != "win32" && host.platform != "linux" && host.platform != "darwin" ==> !r
  {
    if host.platform == "win32" then host.fs.Exists(WindowsExecutable(product))
    else if host.platform == "linux" || host.platform == "darwin" then product != MozillaFirefox
    else false
  }

  /** The records of one browser, or none when it is not detected. */
  function BrowserRecords(host: Host, usernames: seq<string>, product: Product): (r: Result<seq<LegacyInfo>>)
    ensures !Detect(host, product) ==> r == Ok([])
    ensures Detect(host, product) && product != MozillaFirefox ==>
      (r.Err? <==> host.systemDrive.None?) && (r.Err? ==> r.error == MissingSystemDrive)
    ensures Detect(host, product) ==>
      r == (match product
            case MozillaFirefox => LegacyFirefox.Installed(host, usernames)
            case GoogleChrome => LegacyChromium.Installed(host, usernames, "Google Chrome")
            case MicrosoftEdge => LegacyChromium.Installed(host, usernames, "Microsoft Edge"))
  {
    if !Detect(host, product) then Ok([])
    else match product
      case MozillaFirefox => LegacyFirefox.Installed(host, usernames)
      case GoogleChrome => LegacyChromium.Installed(host, usernames, "Google Chrome")
      case MicrosoftEdge => LegacyChromium.Installed(host, usernames, "Microsoft Edge")
  }

  /** `get_extension_info` for the users `psutil.users()` reports. */
  function ExtensionInfoList(host: Host, usernames: seq<string>): (r: Result<seq<LegacyInfo>>)
    ensures var firefox := BrowserRecords(host, usernames, MozillaFirefox);
      var chrome := BrowserRecords(host, usernames, GoogleChrome);
      var edge := BrowserRecords(host, usernames, MicrosoftEdge);
      && (r.Ok? <==> firefox.Ok? && chrome.Ok? && edge.Ok?)
      && (firefox.Err? ==> r == Err(firefox.error))
      && (firefox.Ok? && chrome.Err? ==> r == Err(chrome.error))
      && (firefox.Ok? && chrome.Ok? && edge.Err? ==> r == Err(edge.error))
      && (r.Ok? ==> r.value == firefox.value + chrome.value + edge.value)
  {
    var firefox :- BrowserRecords(host, usernames, MozillaFirefox);
    var chrome :- BrowserRecords(host, usernames, GoogleChrome);
    var edge :- BrowserRecords(host, usernames, MicrosoftEdge);
    Ok(firefox + chrome + edge)
  }

  /**
   * On Linux and macOS Chrome is always taken as installed, and its scan needs SystemDrive, which
   * those systems do not set: the whole scan raises, for any list of users.
   */
  lemma UnixWithoutDriveRaises(host: Host, usernames: seq<string>)
    requires host.platform == "linux" || host.platform == "darwin"
    requires host.systemDrive.None?
    ensures ExtensionInfoList(host, usernames) == Err(MissingSystemDrive)
  {
  }

  /** On a platform that is none of the three, nothing is detected and the list is empty. */
  lemma UnsupportedPlatformEmpty(host: Host, usernames: seq<string>)
    requires host.platform != "win32" && host.platform != "linux" && host.platform != "darwin"
    ensures ExtensionInfoList(host, usernames) == Ok([])
  {
    assert BrowserRecords(host, usernames, MozillaFirefox) == Ok([]);
    var none: seq<LegacyInfo> := [];
    assert none + none + none == none;
  }

  /** Every record of one browser's part names that browser. */
  lemma BrowserRecordsTagged(host: Host, usernames: seq<string>, product: Product)
    requires BrowserRecords(host, usernames, product).Ok?
    ensures forall rec :: rec in BrowserRecords(host, usernames, product).value ==>
      rec.browser == (match product
                      case MozillaFirefox => "Mozilla Firefox"
                      case GoogleChrome => "Google Chrome"
                      case MicrosoftEdge => "Microsoft Edge")
  {
    if Detect(host, product) {
      match product {
        case MozillaFirefox => LegacyFirefox.InstalledTagged(host, usernames);
        case GoogleChrome => LegacyChromium.InstalledTagged(host, usernames, "Google Chrome");
        case MicrosoftEdge => LegacyChromium.InstalledTagged(host, usernames, "Microsoft Edge");
      }
    }
  }

  /** The position of a browser's records in the list: Firefox, then Chrome, then Edge. */
  function BrowserRank(browser: string): int
  {
    if browser == "Mozilla Firefox" then 0 else if browser == "Google Chrome" then 1 else 2
  }

  /** Three parts, each tagged with one browser, concatenated in rank order are ordered by rank. */
  lemma PartsInRankOrder(firefox: seq<LegacyInfo>, chrome: seq<LegacyInfo>, edge: seq<LegacyInfo>)
    requires forall rec :: rec in firefox ==> rec.browser == "Mozilla Firefox"
    requires forall rec :: rec in chrome ==> rec.browser == "Google Chrome"
    requires forall rec :: rec in edge ==> rec.browser == "Microsoft Edge"
    ensures var list := firefox + chrome + edge;
      && (forall k :: 0 <= k < |list| ==> list[k].browser in ["Mozilla Firefox", "Google Chrome", "Microsoft Edge"])
      && (forall i, j :: 0 <= i < j < |list| ==> BrowserRank(list[i].browser) <= BrowserRank(list[j].browser))
  {
    var list := firefox + chrome + edge;
    forall k | 0 <= k < |list|
      ensures BrowserRank(list[k].browser) == (if k < |firefox| then 0 else if k < |firefox| + |chrome| then 1 else 2)
      ensures list[k].browser in ["Mozilla Firefox", "Google Chrome", "Microsoft Edge"]
    {
      if k < |firefox| {
        assert list[k] == firefox[k] && firefox[k] in firefox;
      } else if k < |firefox| + |chrome| {
        assert list[k] == chrome[k - |firefox|] && chrome[k - |firefox|] in chrome;
      } else {
        assert list[k] == edge[k - |firefox| - |chrome|] && edge[k - |firefox| - |chrome|] in edge;
      }
    }
  }

  /** Each of the three parts of a scan names its browser. */
  lemma PartsTagged(host: Host, usernames: seq<string>,
                               firefox: seq<LegacyInfo>, chrome: seq<LegacyInfo>, edge: seq<LegacyInfo>)
    requires BrowserRecords(host, usernames, MozillaFirefox) == Ok(firefox)
    requires BrowserRecords(host, usernames, GoogleChrome) == Ok(chrome)
    requires BrowserRecords(host, usernames, MicrosoftEdge) == Ok(edge)
    ensures forall rec :: rec in firefox ==> rec.browser == "Mozilla Firefox"
    ensures forall rec :: rec in chrome ==> rec.browser == "Google Chrome"
    ensures forall rec :: rec in edge ==> rec.browser == "Microsoft Edge"
  {
    BrowserRecordsTagged(host, usernames, MozillaFirefox);
    BrowserRecordsTagged(host, usernames, GoogleChrome);
    BrowserRecordsTagged(host, usernames, MicrosoftEdge);
  }

  /** A list that completes is the three browsers' parts joined in order. */
  lemma ListOfParts(host: Host, usernames: seq<string>)
    requires ExtensionInfoList(host, usernames).Ok?
    ensures BrowserRecords(host, usernames, MozillaFirefox).Ok?
    ensures BrowserRecords(host, usernames, GoogleChrome).Ok?
    ensures BrowserRecords(host, usernames, MicrosoftEdge).Ok?
    ensures ExtensionInfoList(host, usernames).value ==
      BrowserRecords(host, usernames, MozillaFirefox).value
      + BrowserRecords(host, usernames, GoogleChrome).value
      + BrowserRecords(host, usernames, MicrosoftEdge).value
  {
  }

  /** The list is all Firefox records, then all Chrome records, then all Edge records. */
  lemma ExtensionInfoOrder(host: Host, usernames: seq<string>)
    requires ExtensionInfoList(host, usernames).Ok?
    ensures var list := ExtensionInfoList(host, usernames).value;
      && list == BrowserRecords(host, usernames, MozillaFirefox).value
                 + BrowserRecords(host, usernames, GoogleChrome).value
                 + BrowserRecords(host, usernames, MicrosoftEdge).value
      && (forall k :: 0 <= k < |list| ==> list[k].browser in ["Mozilla Firefox", "Google Chrome", "Microsoft Edge"])
      && (forall i, j :: 0 <= i < j < |list| ==> BrowserRank(list[i].browser) <= BrowserRank(list[j].browser))
  {
    ListOfParts(host, usernames);
    var firefox := BrowserRecords(host, usernames, MozillaFirefox).value;
    var chrome := BrowserRecords(host, usernames, GoogleChrome).value;
    var edge := BrowserRecords(host, usernames, MicrosoftEdge).value;
    PartsTagged(host, usernames, firefox, chrome, edge);
    PartsInRankOrder(firefox, chrome, edge);
  }

  /** One `if is_<browser>_installed(): extension_info_list.extend(...)` step. */
  method ScanBrowser(host: Host, usernames: seq<string>, product: Product) returns (r: Result<seq<LegacyInfo>>)
    ensures r == BrowserRecords(host, usernames, product)
  {
    if !Detect(host, product) {
      return Ok([]);
    }
    match product {
      case MozillaFirefox =>
        r := LegacyFirefox.GetFirefoxInstalledExtensions(host, usernames);
      case GoogleChrome =>
        r := LegacyChromium.GetChromiumInstalledExtensions(host, usernames, "Google Chrome");
      case MicrosoftEdge =>
        r := LegacyChromium.GetChromiumInstalledExtensions(host, usernames, "Microsoft Edge");
    }
  }

  /** `get_extension_info`: Firefox, then Chrome, then Edge, each appended to the list. */
  method GetExtensionInfo(host: Host, usernames: seq<string>) returns (r: Result<seq<LegacyInfo>>)
    ensures r == ExtensionInfoList(host, usernames)
  {
    var extensionInfoList: seq<LegacyInfo> := [];
    var firefox := ScanBrowser(host, usernames, MozillaFirefox);
    if firefox.Err? {
      return Err(firefox.error);
    }
    extensionInfoList := extensionInfoList + firefox.value;
    var chrome := ScanBrowser(host, usernames, GoogleChrome);
    if chrome.Err? {
      return Err(chrome.error);
    }
    extensionInfoList := extensionInfoList + chrome.value;
    var edge := ScanBrowser(host, usernames, MicrosoftEdge);
    if edge.Err? {
      return Err(edge.error);
    }
    extensionInfoList := extensionInfoList + edge.value;
    assert [] + firefox.value == firefox.value;
    r := Ok(extensionInfoList);
  }
}
