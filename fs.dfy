/**
 * The spool as the server sees it through the C library: regular files with
 * their contents, directories with their creation times, and the paths where
 * creating or writing fails for a reason other than "already exists"
 * (permissions, a full disk).
 */
module Fs {
  import opened CLib

  /** What open(path, O_CREAT|O_EXCL) reports. */
  datatype CreateResult = Created | AlreadyExists | CreateFailed

  /** The text strerror(ENOENT) gives, used where a missing file is reported. */
  const ENOENT_TEXT: string := "No such file or directory"

  /** strerror(EACCES) and strerror(EISDIR): why creating or writing a path fails. */
  const EACCES_TEXT: string := "Permission denied"
  const EISDIR_TEXT: string := "Is a directory"

  /** Path p names an entry directly inside the directory whose path plus "/" is pre. */
  predicate InDirectory(p: string, pre: string) {
    |p| > |pre| && p[..|pre|] == pre && '/' !in p[|pre|..]
  }

  /** The names of the paths directly inside directory d. */
  function Listing(paths: set<string>, d: string): (r: set<string>)
    ensures forall n :: n in r ==> n != [] && '/' !in n && d + "/" + n in paths
  {
    var pre := d + "/";
    var r := set p | p in paths && InDirectory(p, pre) :: p[|pre|..];
    assert forall n :: n in r ==> n != [] && '/' !in n && d + "/" + n in paths by {
      forall n | n in r
        ensures n != [] && '/' !in n && d + "/" + n in paths
      {
        var p :| p in paths && InDirectory(p, pre) && n == p[|pre|..];
        assert p == pre + n;
      }
    }
    r
  }

  /**
   * What fopen(path, "r") followed by reading to the end yields on a spool
   * with these files and directories: a file's contents; a directory opens
   * but reads as nothing; anything else fails.
   */
  function Opened(files: map<string, string>, dirs: map<string, int>, p: string): (r: Option<string>)
    ensures r.Some? <==> p in files || p in dirs
    ensures p in files ==> r == Some(files[p])
  {
    if p in files then Some(files[p]) else if p in dirs then Some("") else None
  }

  class FileSystem {
    var files: map<string, string>
    var dirs: map<string, int>
    var denied: set<string>

    /** No path is both a regular file and a directory. */
    predicate Valid()
      reads this
    {
      files.Keys !! dirs.Keys
    }

    /** stat(path) succeeds. */
    predicate Exists(p: string)
      reads this
    {
      p in files || p in dirs
    }

    predicate IsDir(p: string)
      reads this
    {
      p in dirs
    }

    /**
     * What fopen(path, "r") followed by reading to the end yields: a file's
     * contents; a directory opens but reads as nothing; anything else fails.
     */
    function Read(p: string): (r: Option<string>)
      reads this
      ensures r.Some? <==> Exists(p)
      ensures p in files ==> r == Some(files[p])
    {
      Opened(files, dirs, p)
    }

    /** st_ctime of an existing path; regular files carry no time in this model. */
    function Ctime(p: string): int
      reads this
    {
      if p in dirs then dirs[p] else 0
    }

    /** The names directly inside directory d, as readdir lists them (without "." and ".."). */
    function Entries(d: string): (r: set<string>)
      reads this
      ensures forall n :: n in r ==> n != [] && '/' !in n && Exists(d + "/" + n)
    {
      Listing(files.Keys + dirs.Keys, d)
    }

    /** The reason strerror gives when opening p for writing fails. */
    function WriteError(p: string): string
      reads this
    {
      if p in dirs then EISDIR_TEXT else EACCES_TEXT
    }

    constructor (files0: map<string, string>, dirs0: map<string, int>, denied0: set<string>)
      requires files0.Keys !! dirs0.Keys
      ensures files == files0 && dirs == dirs0 && denied == denied0 && Valid()
    {
      files := files0;
      dirs := dirs0;
      denied := denied0;
    }

    /** fopen(path, "w") and writing data: the file is created or truncated and holds data. */
    method WriteFile(p: string, data: string) returns (ok: bool)
      requires Valid()
      modifies this`files
      ensures Valid()
      ensures ok <==> p !in dirs && p !in denied
      ensures files == if ok then old(files)[p := data] else old(files)
    {
      ok := p !in dirs && p !in denied;
      if ok {
        files := files[p := data];
      }
    }

    /** open(path, O_CREAT|O_EXCL|O_WRONLY): fails with EEXIST on any existing path. */
    method CreateExclusive(p: string) returns (r: CreateResult)
      requires Valid()
      modifies this`files
      ensures Valid()
      ensures r == AlreadyExists <==> old(Exists(p))
      ensures r == CreateFailed <==> !old(Exists(p)) && p in denied
      ensures files == if r == Created then old(files)[p := ""] else old(files)
    {
      if p in files || p in dirs {
        return AlreadyExists;
      }
      if p in denied {
        return CreateFailed;
      }
      files := files[p := ""];
      return Created;
    }

    /** write() on a descriptor open on file p: the bytes go at its end. */
    method Append(p: string, data: string)
      requires p in files
      modifies this`files
      ensures files == old(files)[p := old(files[p]) + data]
    {
      files := files[p := files[p] + data];
    }

    /** mkdir(path): fails on an existing or denied path. */
    method MakeDir(p: string, now: int) returns (ok: bool)
      requires Valid()
      modifies this`dirs
      ensures Valid()
      ensures ok <==> !old(Exists(p)) && p !in denied
      ensures dirs == if ok then old(dirs)[p := now] else old(dirs)
    {
      ok := p !in files && p !in dirs && p !in denied;
      if ok {
        dirs := dirs[p := now];
      }
    }
  }
}
