/** Where each browser keeps a user's profiles, per platform (current revision). */
module ProfilePaths {
  import opened Python
  import opened Host
  import opened Text

  predicate Supported(platform: string)
  {
    platform == "win32" || platform == "linux" || platform == "darwin"
  }

  /** The component of a profile path that holds the user name. */
  function UserIndex(platform: string): nat
  {
    if platform == "win32" then 3 else 1
  }

  /**
   * `__get_firefox_profile_path`: a fixed location under the user's home on each supported
   * platform; an unsupported platform raises, and so does Windows without SystemDrive.
   */
  function FirefoxProfilePath(host: Host, username: string): (r: Result<Path>)
    ensures r.Err? <==> !Supported(host.platform) || (host.platform == "win32" && host.systemDrive.None?)
    ensures r.Err? ==> r.error == (if Supported(host.platform) then MissingSystemDrive else UnsupportedPlatform)
    ensures r.Ok? ==> UserIndex(host.platform) < |r.value| && r.value[UserIndex(host.platform)] == username
    ensures r.Ok? && host.platform == "win32" ==>
      r.value == [host.systemDrive.value, "\\\\", "Users", username, "AppData", "Roaming", "Mozilla", "Firefox", "Profiles"]
    ensures host.platform == "linux" ==> r == Ok(["home", username, ".mozilla", "firefox"])
    ensures host.platform == "darwin" ==> r == Ok(["Users", username, "Library", "Application Support", "Firefox", "Profiles"])
  {
    if host.platform == "win32" then
      match host.systemDrive
      case None => Err(MissingSystemDrive)
      case Some(drive) =>
        Ok([drive, "\\\\", "Users", username, "AppData", "Roaming", "Mozilla", "Firefox", "Profiles"])
    else if host.platform == "linux" then
      Ok(["home", username, ".mozilla", "firefox"])
    else if host.platform == "darwin" then
      Ok(["Users", username, "Library", "Application Support", "Firefox", "Profiles"])
    else Err(UnsupportedPlatform)
  }

  /** The Linux configuration directory name: spaces become '-', then lower case. */
  function LinuxDirName(browser: string): string
  {
    Lower(Replace(browser, " ", "-"))
  }

  /**
   * `__get_chrome_profile_path`: Windows and macOS use the first two space-separated words of the
   * browser name as two directories, Linux one directory named by `LinuxDirName`.
   */
  function ChromeProfilePath(host: Host, username: string, browser: string): (r: Result<Path>)
    ensures r.Err? <==>
      !Supported(host.platform)
      || (host.platform == "win32" && host.systemDrive.None?)
      || (host.platform != "linux" && |Split(browser, ' ')| < 2)
    ensures r.Err? && !Supported(host.platform) ==> r.error == UnsupportedPlatform
    ensures r.Ok? ==> UserIndex(host.platform) < |r.value| && r.value[UserIndex(host.platform)] == username
    ensures r.Ok? && host.platform == "linux" ==> r.value == ["home", username, ".config", LinuxDirName(browser)]
    ensures r.Ok? && host.platform != "linux" ==>
      var words := Split(browser, ' ');
      r.value[|r.value| - 2..] == (if host.platform == "win32" then [words[1], "User Data"] else [words[0], words[1]])
    ensures r.Ok? && host.platform == "win32" ==>
      var words := Split(browser, ' ');
      r.value == [host.systemDrive.value, "\\\\", "Users", username, "AppData", "Local", words[0], words[1], "User Data"]
    ensures r.Ok? && host.platform == "darwin" ==>
      var words := Split(browser, ' ');
      r.value == ["Users", username, "Library", "Application Support", words[0], words[1]]
  {
    if host.platform == "win32" then
      match host.systemDrive
      case None => Err(MissingSystemDrive)
      case Some(drive) =>
        var words := Split(browser, ' ');
        if |words| < 2 then Err(IndexError)
        else Ok([drive, "\\\\", "Users", username, "AppData", "Local", words[0], words[1], "User Data"])
    else if host.platform == "linux" then
      Ok(["home", username, ".config", LinuxDirName(browser)])
    else if host.platform == "darwin" then
      var words := Split(browser, ' ');
      if |words| < 2 then Err(IndexError)
      else Ok(["Users", username, "Library", "Application Support", words[0], words[1]])
    else Err(UnsupportedPlatform)
  }

  /** The Linux directory name keeps the browser name's length, has no spaces and no capitals. */
  lemma LinuxDirNameShape(browser: string)
    ensures |LinuxDirName(browser)| == |browser|
    ensures forall i :: 0 <= i < |browser| ==>
      LinuxDirName(browser)[i] == (if browser[i] == ' ' then '-' else LowerChar(browser[i]))
    ensures forall i :: 0 <= i < |browser| ==> LinuxDirName(browser)[i] != ' ' && !('A' <= LinuxDirName(browser)[i] <= 'Z')
  {
    ReplaceChar(browser, ' ', '-');
  }

  /** Profiles of different users never share a directory, for either browser family. */
  lemma ProfilePathsSeparateUsers(host: Host, u: string, v: string, browser: string)
    requires u != v
    ensures FirefoxProfilePath(host, u).Ok? ==> FirefoxProfilePath(host, u) != FirefoxProfilePath(host, v)
    ensures ChromeProfilePath(host, u, browser).Ok? ==> ChromeProfilePath(host, u, browser) != ChromeProfilePath(host, v, browser)
  {
  }

  /** A string without `sep` splits into itself alone. */
  lemma {:induction false} SplitWhole(s: string, sep: char)
    requires sep !in s
    ensures Split(s, sep) == [s]
    decreases |s|
  {
    if s != [] {
      SplitWhole(s[1..], sep);
      assert [s[0]] + s[1..] == s;
    }
  }

  /** Two words joined by one separator split back into those two words. */
  lemma {:induction false} SplitTwoWords(a: string, b: string, sep: char)
    requires sep !in a && sep !in b
    ensures Split(a + [sep] + b, sep) == [a, b]
    decreases |a|
  {
    var s := a + [sep] + b;
    if a == [] {
      assert s[1..] == b;
      SplitWhole(b, sep);
    } else {
      assert s[1..] == a[1..] + [sep] + b;
      SplitTwoWords(a[1..], b, sep);
      assert [a[0]] + a[1..] == a;
    }
  }

  /** The two browser names split into the two directories the Windows and macOS layouts use. */
  lemma BrowserWords()
    ensures Split("Google Chrome", ' ') == ["Google", "Chrome"]
    ensures Split("Microsoft Edge", ' ') == ["Microsoft", "Edge"]
  {
    assert "Google Chrome" == "Google" + [' '] + "Chrome";
    SplitTwoWords("Google", "Chrome", ' ');
    assert "Microsoft Edge" == "Microsoft" + [' '] + "Edge";
    SplitTwoWords("Microsoft", "Edge", ' ');
  }

  /** Two words joined by a space give the Linux directory name of the two words lowered and joined by '-'. */
  lemma LinuxDirNameTwoWords(a: string, b: string)
    requires ' ' !in a && ' ' !in b
    ensures LinuxDirName(a + " " + b) == Lower(a) + "-" + Lower(b)
  {
    assert a + " " + b == a + (" " + b);
    ReplaceKeepsPrefix(a, " " + b, " ", "-");
    assert (" " + b)[..1] == " " && (" " + b)[1..] == b;
    assert Replace(" " + b, " ", "-") == "-" + Replace(b, " ", "-");
    ReplaceKeepsPrefix(b, "", " ", "-");
    assert b + "" == b;
    var replaced := a + "-" + b;
    assert Replace(a + " " + b, " ", "-") == replaced;
    LowerConcat(a + "-", b);
    LowerConcat(a, "-");
    assert Lower("-") == "-";
  }
}
