/** The local filesystem, reduced to the paths that exist: regular files and
    directories are kept apart because the archiver asks `os.path.isfile` in
    one place and `os.path.exists` in the others. */
module Files {

  class FileSystem {
    var files: set<string>
    var dirs: set<string>

    /** The paths `os.path.exists` answers true for. */
    function Existing(): set<string>
      reads this
    {
      files + dirs
    }

    constructor (files: set<string>, dirs: set<string>)
      ensures this.files == files && this.dirs == dirs
    {
      this.files := files;
      this.dirs := dirs;
    }

    /** safe_mkdir: create the directory only when nothing exists at that path. */
    method SafeMkdir(path: string)
      modifies this
      ensures files == old(files)
      ensures dirs == old(dirs) + ({path} - old(Existing()))
      ensures path in Existing()
    {
      if path !in files + dirs {
        dirs := dirs + {path};
      }
    }
  }
}
