/**
 * The part of the file system the core touches: a set of directories and a
 * map from file paths to contents, with the few OS calls it makes.
 */
module FileSystem {
  import opened Outcomes
  import opened Urls

  class FileSystem {
    var dirs: set<string>
    var files: map<string, string>

    /** `os.path.exists`. */
    predicate Exists(p: string)
      reads this
    {
      p in dirs || p in files
    }

    constructor (dirs: set<string>, files: map<string, string>)
      ensures this.dirs == dirs && this.files == files
    {
      this.dirs, this.files := dirs, files;
    }

    /** `os.mkdir(p)`, where `parent` is the directory `p` is created in. */
    method MakeDir(p: string, parent: string) returns (o: Outcome)
      modifies this
      ensures o == (if parent in old(files) then Raised(NotADirectoryError(p))
                    else if parent !in old(dirs) then Raised(FileNotFoundError(p))
                    else if old(Exists(p)) then Raised(FileExistsError(p)) else Done)
      ensures dirs == (if o.Done? then old(dirs) + {p} else old(dirs))
      ensures files == old(files)
    {
      if parent in files {
        return Raised(NotADirectoryError(p));
      }
      if parent !in dirs {
        return Raised(FileNotFoundError(p));
      }
      if Exists(p) {
        return Raised(FileExistsError(p));
      }
      dirs := dirs + {p};
      o := Done;
    }

    /** `open(p, 'a').close()`: creates an empty file when the parent
        directory exists and `p` is absent; reports the OSError otherwise. */
    method Touch(p: string, parent: string) returns (ok: bool)
      modifies this
      ensures ok <==> parent in old(dirs) && p !in old(dirs)
      ensures files == (if ok && p !in old(files) then old(files)[p := ""] else old(files))
      ensures dirs == old(dirs)
    {
      ok := parent in dirs && p !in dirs;
      if ok && p !in files {
        files := files[p := ""];
      }
    }

    /** `os.unlink(p)`. */
    method Unlink(p: string) returns (o: Outcome)
      modifies this
      ensures o == (if p in old(dirs) then Raised(IsADirectoryError(p))
                    else if p in old(files) then Done
                    else Raised(FileNotFoundError(p)))
      ensures files == (if o.Done? then old(files) - {p} else old(files))
      ensures dirs == old(dirs)
    {
      if p in dirs {
        o := Raised(IsADirectoryError(p));
      } else if p in files {
        files := files - {p};
        o := Done;
      } else {
        o := Raised(FileNotFoundError(p));
      }
    }

    /** A clone writing its working copy: `root` now exists as a directory. */
    method AddDir(root: string)
      modifies this
      ensures dirs == old(dirs) + {root} && files == old(files)
    {
      dirs := dirs + {root};
    }

    /** `rmtree(root)`: removes the directory `root` and everything beneath
        it; a regular file or a missing path raises and nothing changes. */
    method RemoveTree(root: string) returns (o: Outcome)
      modifies this
      ensures o == (if root in old(files) then Raised(NotADirectoryError(root))
                    else if root !in old(dirs) then Raised(FileNotFoundError(root)) else Done)
      ensures o.Done? ==>
        && dirs == (set d | d in old(dirs) && !Under(d, root))
        && files == (map f | f in old(files) && !Under(f, root) :: old(files)[f])
        && !Exists(root)
      ensures o.Raised? ==> dirs == old(dirs) && files == old(files)
    {
      if root in files {
        return Raised(NotADirectoryError(root));
      }
      if root !in dirs {
        return Raised(FileNotFoundError(root));
      }
      dirs := set d | d in dirs && !Under(d, root);
      files := map f | f in files && !Under(f, root) :: files[f];
      o := Done;
    }
  }
}
