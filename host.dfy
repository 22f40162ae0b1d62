/**
 * The machine the scanner looks at, as plain data: `sys.platform`, the SystemDrive environment
 * variable, what `shutil.which` finds on the PATH, and an in-memory file tree standing for the
 * calls into `os`, `os.path` and `json.load`.
 */
module Host {
  import opened Python
  import Text

  /** A filesystem path as its components, as `os.path.join` receives them. */
  type Path = seq<string>

  /** What `json.load` makes of a file: a value, or a decode error. */
  datatype FileData = Parsed(value: Json) | Unparsable

  /** A directory's creation and modification times in whole seconds (`os.path.getctime`, `getmtime`). */
  datatype Stamp = Stamp(ctime: int, mtime: int)

  /**
   * Directories with their listing in `os.listdir` order (which the OS does not specify), files
   * with their contents, and the time stamps `os.path` reports.
   */
  datatype FileSystem = FileSystem(dirs: map<Path, seq<string>>, files: map<Path, FileData>, stamps: map<Path, Stamp>) {

    /** `os.path.isdir(p)` */
    predicate IsDir(p: Path) { p in dirs }

    /** `os.path.exists(p)` */
    predicate Exists(p: Path) { p in dirs || p in files }

    /** `os.listdir(p)`; raises unless `p` is a directory. */
    function ListDir(p: Path): (r: Result<seq<string>>)
      ensures r.Ok? <==> IsDir(p)
      ensures r.Ok? ==> r.value == dirs[p]
      ensures r.Err? ==> r.error == OSError(p)
    {
      if p in dirs then Ok(dirs[p]) else Err(OSError(p))
    }

    /** `json.load(open(p))`; raises when `p` is not a file or not JSON. */
    function LoadJson(p: Path): (r: Result<Json>)
      ensures r.Ok? <==> p in files && files[p].Parsed?
      ensures r.Ok? ==> r.value == files[p].value
    {
      if p !in files then Err(OSError(p))
      else match files[p]
        case Parsed(v) => Ok(v)
        case Unparsable => Err(JSONDecodeError(p))
    }

    /** `os.path.getctime(p)` and `os.path.getmtime(p)`. */
    function StampOf(p: Path): (r: Result<Stamp>)
      ensures r.Ok? <==> p in stamps
    {
      if p in stamps then Ok(stamps[p]) else Err(OSError(p))
    }
  }

  datatype Host = Host(platform: string, systemDrive: Option<string>, onPath: map<string, Path>, fs: FileSystem) {

    /** `shutil.which(name)`: the executable's path, or None. */
    function Which(name: string): Option<Path>
    {
      if name in onPath then Some(onPath[name]) else None
    }

    /** `os.sep` */
    function Separator(): char
    {
      if platform == "win32" then '\\' else '/'
    }
  }

  /** `os.path.dirname`: the path without its last component (the empty path stays empty). */
  function Dirname(p: Path): (r: Path)
    ensures |p| > 0 ==> r + [p[|p| - 1]] == p
    ensures p == [] ==> r == []
  {
    if p == [] then [] else p[..|p| - 1]
  }

  /** The path as a string, components joined with `sep`. */
  function Render(p: Path, sep: char): string
  {
    Text.Join(p, [sep])
  }
}
