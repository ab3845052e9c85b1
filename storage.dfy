/**
 * The file system as the controllers see it: the set of paths that exist,
 * with the `fs` calls they make on it.
 */
module Storage {
  type Path = string

  /** How `fs.unlink` ends: removed, `ENOENT`, or any other error (the file stays). */
  datatype UnlinkResult = Removed | NoEntry | OtherError

  /** The file set after an unlink that hits another error exactly when `fault` holds. */
  function AfterUnlink(files: set<Path>, p: Path, fault: bool): set<Path>
  {
    if fault then files else files - {p}
  }

  class Disk {
    var files: set<Path>

    constructor(initial: set<Path>)
      ensures files == initial
    {
      files := initial;
    }

    /** `fs.existsSync`. */
    method Exists(p: Path) returns (present: bool)
      ensures present <==> p in files
    {
      present := p in files;
    }

    /** Opening a write stream on `p`: creates the file, or truncates it. */
    method Create(p: Path)
      modifies this
      ensures files == old(files) + {p}
    {
      files := files + {p};
    }

    /**
     * `fs.unlink` / `fs.unlinkSync`; `fault` says whether the environment
     * refuses to remove an existing file (a permission error, say).
     */
    method Unlink(p: Path, fault: bool) returns (r: UnlinkResult)
      modifies this
      ensures r == (if p !in old(files) then NoEntry else if fault then OtherError else Removed)
      ensures files == AfterUnlink(old(files), p, fault)
    {
      if p !in files {
        r := NoEntry;
      } else if fault {
        r := OtherError;
      } else {
        r := Removed;
        files := files - {p};
      }
    }
  }
}
