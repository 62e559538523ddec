/**
 * The Group object: a newsgroup's counters and settings as loaded from its
 * directory in the spool, and what the server does with it: load and save
 * its two files, split a posted message, rewrite its headers, find an
 * article by message id, and post an article under the group's lock.
 */
module GroupObject {
  import opened CLib
  import opened Subs
  import opened Configuration
  import opened Fs
  import opened Articles
  import opened Groups
  import opened GroupHeaders

  /** The lock this process holds on the group's ".lock" file. */
  datatype LockState = Unlocked | Shared | Exclusive

  /** The fields _Copy copies: the counters, the settings, the name, the creation time and validity. */
  datatype GroupState = GroupState(info: Info, conf: GroupConf, name: string, ctime: int, valid: bool)

  /** The settings of a group whose ".config" has not been read. */
  const DefaultConf: GroupConf := GroupConf("", "news", "-", "-", "root", 0, 0)

  function InfoPath(d: string): string {
    d + "/.info"
  }

  function ConfigPath(d: string): string {
    d + "/.config"
  }

  /**
   * The counters BuildInfo makes of group directory d: none when it cannot
   * be opened, else those of its article files, inside modulus directories
   * or not.
   */
  predicate Counts(i: Info, files: map<string, string>, dirs: map<string, int>, d: string, modDirs: bool) {
    if d !in dirs then i == Info(0, 0, 0)
    else if modDirs then Summarizes(i, ModNumbers(files, dirs, d, Listing(files.Keys + dirs.Keys, d)))
    else Summarizes(i, FlatNumbers(files, d, Listing(files.Keys + dirs.Keys, d)))
  }

  /**
   * The counters LoadInfo leaves, starting from i0, when it succeeds: those
   * read from ".info" (a directory reads as nothing), or, when there is no
   * ".info", those BuildInfo makes.
   */
  predicate LoadedInfo(i0: Info, i: Info, files: map<string, string>, dirs: map<string, int>, d: string, modDirs: bool) {
    var p := InfoPath(d);
    if p in files then i == InfoRead(i0, files[p])
    else if p in dirs then i == InfoRead(i0, "")
    else Counts(i, files, dirs, d, modDirs)
  }

  /** Path p exists among the given files and directories (what stat would report). */
  predicate OnDisk(files: map<string, string>, dirs: map<string, int>, p: string) {
    p in files || p in dirs
  }

  /**
   * Load(g) succeeds on a spool with these files, directories and denied
   * paths, for a Group whose name was name0: the name is short enough, the
   * directory of name0 exists (Load stats it before taking the new name),
   * g's directory has a ".config", and its ".info" exists or can be
   * written when the counters have to be rebuilt.
   */
  predicate Loads(spool: string, files: map<string, string>, dirs: map<string, int>, denied: set<string>,
                  name0: string, g: string)
  {
    var d := GroupDir(spool, g);
    |g| < GROUP_MAX && OnDisk(files, dirs, GroupDir(spool, name0)) && OnDisk(files, dirs, ConfigPath(d)) &&
    (OnDisk(files, dirs, InfoPath(d)) || InfoPath(d) !in denied)
  }

  /** No ".config" path is an ".info" path. */
  lemma ConfigNotInfo(a: string, b: string)
    ensures ConfigPath(a) != InfoPath(b)
  {
    var x, y := ConfigPath(a), InfoPath(b);
    assert x[|x| - 1] == 'g';
    assert y[|y| - 1] == 'o';
  }

  /**
   * Writing the ".info" of a group that loads changes for no other group
   * whether it loads: the write only adds a path Load needs to be there or
   * writable already.
   */
  lemma LoadsKept(spool: string, files: map<string, string>, dirs: map<string, int>, denied: set<string>,
                  name0: string, a: string, text: string)
    requires Loads(spool, files, dirs, denied, name0, a)
    ensures forall b :: Loads(spool, files[InfoPath(GroupDir(spool, a)) := text], dirs, denied, name0, b) ==
                        Loads(spool, files, dirs, denied, name0, b)
  {
    forall b
      ensures Loads(spool, files[InfoPath(GroupDir(spool, a)) := text], dirs, denied, name0, b) ==
              Loads(spool, files, dirs, denied, name0, b)
    {
      ConfigNotInfo(GroupDir(spool, b), GroupDir(spool, a));
    }
  }

  /** Two spools whose ".config" files are the same. */
  ghost predicate SameConfigs(files: map<string, string>, files0: map<string, string>) {
    forall d {:trigger ConfigPath(d)} ::
      (ConfigPath(d) in files <==> ConfigPath(d) in files0) &&
      (ConfigPath(d) in files ==> files[ConfigPath(d)] == files0[ConfigPath(d)])
  }

  /** Writing an ".info" changes no ".config". */
  lemma InfoKeepsConfigs(files: map<string, string>, files0: map<string, string>, a: string, text: string)
    requires SameConfigs(files, files0)
    ensures SameConfigs(files[InfoPath(a) := text], files0)
  {
    forall d
      ensures ConfigPath(d) != InfoPath(a)
    {
      ConfigNotInfo(d, a);
    }
  }

  /**
   * The settings LoadConfig leaves, starting from c0, when it succeeds:
   * directory d has a ".config" and the settings are read from it (a
   * directory reads as nothing).
   */
  predicate ConfigLoaded(c0: GroupConf, c: GroupConf, files: map<string, string>, dirs: map<string, int>, d: string) {
    var p := ConfigPath(d);
    OnDisk(files, dirs, p) && c == ConfRead(c0, if p in files then files[p] else "")
  }

  /** The settings as SaveConfig writes them: each string field up to its first NUL. */
  function WrittenConf(c: GroupConf): (w: GroupConf)
    ensures w.postok == c.postok && w.postlimit == c.postlimit
    ensures Saveable(c) ==> w == c
  {
    c.(desc := CStr(c.desc), creator := CStr(c.creator), ccpost := CStr(c.ccpost),
       replyto := CStr(c.replyto), voidemail := CStr(c.voidemail))
  }

  /** What SaveConfig writes of settings that can be saved, LoadConfig reads back as they were. */
  lemma SavedConfigReads(before: GroupConf, c: GroupConf)
    requires Saveable(c)
    ensures ConfRead(before, ConfText(WrittenConf(c))) == c
  {
    ConfRoundTrip(before, c);
  }

  /** LoadInfo's loop over the lines fgets reads from ".info", applying each to the counters in turn. */
  method ReadCounters(i0: Info, data: string) returns (i: Info)
    ensures i == InfoRead(i0, data)
  {
    var chunks := FgetsChunks(data, LINE_LEN - 1);
    i := i0;
    var k := 0;
    while k < |chunks|
      invariant 0 <= k <= |chunks|
      invariant InfoChunks(i, chunks[k..]) == InfoRead(i0, data)
    {
      assert chunks[k..][1..] == chunks[k + 1..];
      i := InfoLine(i, chunks[k]);
      k := k + 1;
    }
  }

  /**
   * LoadConfig's reading of ".config": the ccpost addresses start empty,
   * each line read applies to the settings in turn, and no address at all
   * is written "-".
   */
  method ReadSettings(c0: GroupConf, data: string) returns (c: GroupConf)
    ensures c == ConfRead(c0, data)
  {
    var chunks := FgetsChunks(data, LINE_LEN - 1);
    c := c0.(ccpost := "");
    var k := 0;
    while k < |chunks|
      invariant 0 <= k <= |chunks|
      invariant ConfChunks(c, chunks[k..]) == ConfChunks(c0.(ccpost := ""), chunks)
    {
      assert chunks[k..][1..] == chunks[k + 1..];
      c := ConfLine(c, chunks[k]);
      k := k + 1;
    }
    if c.ccpost == "" {
      c := c.(ccpost := "-");
    }
  }

  /**
   * FindArticleByMessageID's look at one file: fgets chunks into the line
   * buffer (which held the file's path) until a blank line or a
   * "Message-Id:" header, then the buffer is compared with the id.
   */
  method MatchFile(data: string, path: string, id: string) returns (m: bool)
    ensures m == IdMatches(data, path, id)
  {
    var chunks := FgetsChunks(data, 1024);
    var line := if |path| <= 1023 then path else path[..1023];
    var k := 0;
    while k < |chunks|
      invariant 0 <= k <= |chunks|
      invariant StopIndex(chunks, k) == StopIndex(chunks, 0)
      invariant line == if k == 0 then ScanBuffer([], path) else chunks[k - 1]
    {
      line := chunks[k];
      if StopsScan(line) {
        break;
      }
      k := k + 1;
    }
    assert k < |chunks| ==> StopIndex(chunks, k) == k;
    assert line == ScanBuffer(chunks, path);
    var b := CStr(line);
    m := At(b, 0) != '\n' && NamesId(b, id);
  }

  /** A "Path:" header with a space inserted after the colon when there is none, then "host, " after the space. */
  method RewritePath(h: string, host: string) returns (r: string)
    requires IsPath(h)
    ensures r == PathRewritten(h, host)
  {
    r := h;
    if |r| == 5 || r[5] != ' ' {
      r := r[..5] + " " + r[5..];
    }
    assert r[..6] == h[..5] + " " && r[6..] == PathHosts(h);
    r := r[..6] + (host + ", ") + r[6..];
  }

  /** The loop of Post that erases the regenerated headers, staying at the index of an erased one. */
  method StripHeaders(head: seq<string>) returns (h: seq<string>)
    ensures h == Stripped(head)
  {
    h := head;
    var t := 0;
    ghost var j := 0;
    while t < |h|
      invariant 0 <= j <= |head| && t <= |h|
      invariant h[..t] == Stripped(head[..j]) && h[t..] == head[j..]
      decreases |h| - t
    {
      assert head[..j + 1] == head[..j] + [head[j]];
      StrippedSnoc(head[..j], head[j]);
      if Regenerated(h[t]) {
        h := h[..t] + h[t + 1..];
      } else {
        t := t + 1;
      }
      j := j + 1;
    }
    assert head[..j] == head;
  }

  /** Writing each line and then the line end. */
  method JoinLines(ls: seq<string>, eol: string) returns (s: string)
    ensures s == Joined(ls, eol)
  {
    s := "";
    var t := 0;
    while t < |ls|
      invariant 0 <= t <= |ls|
      invariant s + Joined(ls[t..], eol) == Joined(ls, eol)
    {
      assert ls[t..][1..] == ls[t + 1..];
      assert Joined(ls[t..], eol) == ls[t] + eol + Joined(ls[t + 1..], eol);
      assert s + ls[t] + eol + Joined(ls[t + 1..], eol) == s + (ls[t] + eol + Joined(ls[t + 1..], eol));
      s := s + ls[t] + eol;
      t := t + 1;
    }
  }

  /** The group a header names: "Newsgroups: " exactly, then a word of at most 254 characters. */
  function NewsgroupsWord(h: string): Option<string> {
    var c := CStr(h);
    if "Newsgroups: " <= c then ScanWord(c[12..], 254) else None
  }

  /** The group named by the first header from k on that names one. */
  function PostGroup(head: seq<string>, k: nat): Option<string>
    requires k <= |head|
    decreases |head| - k
  {
    if k == |head| then None
    else if NewsgroupsWord(head[k]).Some? then NewsgroupsWord(head[k])
    else PostGroup(head, k + 1)
  }

  /** PostGroup finds a group exactly when some header names one, and then the first such. */
  lemma {:induction false} PostGroupFirst(head: seq<string>, k: nat)
    requires k <= |head|
    ensures PostGroup(head, k).Some? <==> exists j :: k <= j < |head| && NewsgroupsWord(head[j]).Some?
    ensures PostGroup(head, k).Some? ==>
      exists j :: k <= j < |head| && NewsgroupsWord(head[j]) == PostGroup(head, k) &&
                  forall i :: k <= i < j ==> NewsgroupsWord(head[i]).None?
    decreases |head| - k
  {
    if k < |head| && NewsgroupsWord(head[k]).None? {
      PostGroupFirst(head, k + 1);
      if PostGroup(head, k).Some? {
        var j :| k + 1 <= j < |head| && NewsgroupsWord(head[j]) == PostGroup(head, k + 1) &&
                 forall i :: k + 1 <= i < j ==> NewsgroupsWord(head[i]).None?;
        assert forall i :: k <= i < j ==> NewsgroupsWord(head[i]).None?;
      }
    }
  }

  /** Post's search for the group to post to. */
  method FindPostGroup(head: seq<string>) returns (found: bool, g: string)
    ensures found <==> PostGroup(head, 0).Some?
    ensures found ==> PostGroup(head, 0) == Some(g)
  {
    found, g := false, "";
    var t := 0;
    while !found && t < |head|
      invariant 0 <= t <= |head|
      invariant !found ==> PostGroup(head, t) == PostGroup(head, 0)
      invariant found ==> PostGroup(head, 0) == Some(g)
    {
      var w := NewsgroupsWord(head[t]);
      if w.Some? {
        found, g := true, w.value;
      }
      t := t + 1;
    }
  }

  /** The flat path of article n of directory d holds a file matching id. */
  predicate FoundAt(fs: FileSystem, d: string, id: string, n: nat)
    reads fs
  {
    var p := d + "/" + Ultos(n);
    var r := fs.Read(p);
    r.Some? && IdMatches(r.value, p, id)
  }

  /**
   * The slow path of FindArticleByMessageID: the numbers lo to hi in turn,
   * stopping at the first whose file matches (0 when none does).
   */
  method ScanForId(fs: FileSystem, d: string, id: string, lo: nat, hi: nat) returns (number: nat)
    ensures number != 0 ==>
      lo <= number <= hi && FoundAt(fs, d, id, number) && forall t :: lo <= t < number ==> !FoundAt(fs, d, id, t)
    ensures number == 0 ==> (lo == 0 && FoundAt(fs, d, id, 0)) || forall t :: lo <= t <= hi ==> !FoundAt(fs, d, id, t)
  {
    number := 0;
    var temp := lo;
    while temp <= hi
      invariant lo <= temp
      invariant forall t :: lo <= t < temp ==> !FoundAt(fs, d, id, t)
      decreases hi + 1 - temp
    {
      var m := MatchAt(fs, d, id, temp);
      if m {
        return temp;
      }
      temp := temp + 1;
    }
  }

  /** Open the flat path of article n and look at the file, if there is one. */
  method MatchAt(fs: FileSystem, d: string, id: string, n: nat) returns (m: bool)
    ensures m == FoundAt(fs, d, id, n)
  {
    var path := d + "/" + Ultos(n);
    var file := fs.Read(path);
    m := false;
    if file.Some? {
      m := MatchFile(file.value, path, id);
    }
  }

  /* ------------------------------------------------- posting's pieces */

  /** What running the spam filter command on the message tells Post. */
  datatype FilterVerdict = FilterPassed | FilterRejected | FilterFailed

  lemma {:induction false} SubsetCard<T>(a: set<T>, b: set<T>)
    requires a <= b
    ensures |a| <= |b|
    decreases |a|
  {
    if a != {} {
      var x :| x in a;
      SubsetCard(a - {x}, b - {x});
    }
  }

  /** Article paths of different numbers differ. */
  lemma NumberPathEq(d: string, modDirs: bool, a: nat, b: nat)
    ensures NumberPath(d, modDirs, a) == NumberPath(d, modDirs, b) ==> a == b
  {
    if NumberPath(d, modDirs, a) == NumberPath(d, modDirs, b) {
      NumberPathInjective(d, modDirs, a, b);
    }
  }

  /** A modulus directory lies directly in the group directory. */
  lemma ModDirIn(d: string, n: nat)
    ensures InDirectory(ModDir(d, true, n), d + "/")
  {
    var u := Ultos((n / 1000) * 1000);
    DigitsHaveNoSlash((n / 1000) * 1000);
    assert ModDir(d, true, n) == (d + "/") + u;
    assert ModDir(d, true, n)[|d + "/"|..] == u;
  }

  /** An article inside a modulus directory is not directly in the group directory. */
  lemma ModArticleNotIn(d: string, n: nat)
    ensures !InDirectory(NumberPath(d, true, n), d + "/")
  {
    var u := Ultos((n / 1000) * 1000);
    var p := NumberPath(d, true, n);
    assert p == (d + "/") + (u + "/" + Ultos(n));
    assert p[|d + "/"|..] == u + "/" + Ultos(n);
    assert (u + "/" + Ultos(n))[|u|] == '/';
  }

  /** No article path is the ".info" path. */
  lemma NotInfoPath(d: string, modDirs: bool, n: nat)
    ensures NumberPath(d, modDirs, n) != InfoPath(d) && ModDir(d, modDirs, n) != InfoPath(d)
  {
    var u := if modDirs then Ultos((n / 1000) * 1000) else Ultos(n);
    var p := NumberPath(d, modDirs, n);
    assert p == (d + "/") + (u + if modDirs then "/" + Ultos(n) else "");
    assert p[|d| + 1] == u[0];
    assert InfoPath(d)[|d| + 1] == '.';
    assert ModDir(d, modDirs, n) == d || ModDir(d, modDirs, n)[|d| + 1] == u[0];
  }

  /** The reasons Post gives when it cannot create article file n. */
  predicate CreateError(denied: set<string>, files: map<string, string>, dirs: map<string, int>,
                        d: string, modDirs: bool, n: nat, err: string)
  {
    var md := ModDir(d, true, n);
    var p := NumberPath(d, modDirs, n);
    (modDirs && md in files && err == md + " is not a directory (expected a modulus dir)") ||
    (modDirs && md !in files && md !in dirs && md in denied &&
     err == "can't create modulus dir: mkdir(" + md + ",0777): " + EACCES_TEXT) ||
    (p !in files && p !in dirs && p in denied && err == p + ": " + EACCES_TEXT)
  }

  /**
   * Writing ".info" changes neither the article paths nor the reasons an
   * allocation fails: where files1 and files0 differ at most there, both
   * give the same answers.
   */
  lemma ArticlesBesideInfo(denied: set<string>, files1: map<string, string>, files0: map<string, string>, info: string,
                           dirs: map<string, int>, d: string, modDirs: bool, lo: nat, hi: nat, err: string)
    requires files1 == files0 || files1 == files0[InfoPath(d) := info]
    ensures forall m :: lo <= m <= hi ==>
      (NumberPath(d, modDirs, m) in files1 <==> NumberPath(d, modDirs, m) in files0)
    ensures CreateError(denied, files1, dirs, d, modDirs, hi, err) == CreateError(denied, files0, dirs, d, modDirs, hi, err)
  {
    forall m | lo <= m <= hi
      ensures NumberPath(d, modDirs, m) in files1 <==> NumberPath(d, modDirs, m) in files0
    {
      NotInfoPath(d, modDirs, m);
    }
    NotInfoPath(d, modDirs, hi);
    NotInfoPath(d, true, hi);
  }

  /**
   * One attempt of Post's allocation loop: in modulus mode make sure the
   * modulus directory of n exists, then create article file n exclusively.
   */
  method TryArticle(fs: FileSystem, d: string, modDirs: bool, n: nat, now: int)
    returns (r: CreateResult, err: string)
    requires fs.Valid()
    modifies fs`files, fs`dirs
    ensures fs.Valid()
    ensures r == AlreadyExists ==>
      fs.files == old(fs.files) && (NumberPath(d, modDirs, n) in old(fs.files) || NumberPath(d, modDirs, n) in old(fs.dirs))
    ensures r == Created ==>
      NumberPath(d, modDirs, n) !in old(fs.files) && NumberPath(d, modDirs, n) !in old(fs.dirs) &&
      fs.files == old(fs.files)[NumberPath(d, modDirs, n) := ""]
    ensures r == CreateFailed ==>
      fs.files == old(fs.files) && CreateError(fs.denied, old(fs.files), old(fs.dirs), d, modDirs, n, err)
    ensures forall p :: p in old(fs.dirs) ==> p in fs.dirs && fs.dirs[p] == old(fs.dirs)[p]
    ensures forall p :: p in fs.dirs && p !in old(fs.dirs) ==> modDirs && InDirectory(p, d + "/") && fs.dirs[p] == now
  {
    var path: string;
    if modDirs {
      var md := d + "/" + Ultos((n / 1000) * 1000);
      if !fs.Exists(md) {
        var made := fs.MakeDir(md, now);
        if !made {
          return CreateFailed, "can't create modulus dir: mkdir(" + md + ",0777): " + EACCES_TEXT;
        }
        ModDirIn(d, n);
        ModArticleNotIn(d, n);
      } else if !fs.IsDir(md) {
        return CreateFailed, md + " is not a directory (expected a modulus dir)";
      }
      path := md + "/" + Ultos(n);
    } else {
      path := d + "/" + Ultos(n);
    }
    assert path == NumberPath(d, modDirs, n);
    r := fs.CreateExclusive(path);
    err := if r == CreateFailed then path + ": " + EACCES_TEXT else "";
  }

  /** Skipping an existing article path leaves fewer existing paths to skip. */
  lemma SkipExisting(existing: set<string>, skipped: set<string>, d: string, modDirs: bool, n: nat)
    requires skipped <= existing && NumberPath(d, modDirs, n) in existing
    requires forall m :: n <= m ==> NumberPath(d, modDirs, m) !in skipped
    ensures var s := skipped + {NumberPath(d, modDirs, n)};
      s <= existing && |skipped| < |s| <= |existing| &&
      forall m :: n + 1 <= m ==> NumberPath(d, modDirs, m) !in s
  {
    var path := NumberPath(d, modDirs, n);
    SubsetCard(skipped + {path}, existing);
    forall m | n + 1 <= m
      ensures NumberPath(d, modDirs, m) != path
    {
      NumberPathEq(d, modDirs, m, n);
    }
  }

  /**
   * The directories dirs0 grew into dirs: every old one is kept with its
   * time, and every new one is a modulus directory of d made at now.
   */
  ghost predicate DirsGrown(dirs: map<string, int>, dirs0: map<string, int>, d: string, modDirs: bool, now: int) {
    (forall p :: p in dirs0 ==> p in dirs && dirs[p] == dirs0[p]) &&
    (forall p :: p in dirs && p !in dirs0 ==> modDirs && InDirectory(p, d + "/") && dirs[p] == now)
  }

  lemma DirsGrownTrans(dirs2: map<string, int>, dirs1: map<string, int>, dirs0: map<string, int>,
                       d: string, modDirs: bool, now: int)
    requires DirsGrown(dirs1, dirs0, d, modDirs, now) && DirsGrown(dirs2, dirs1, d, modDirs, now)
    ensures DirsGrown(dirs2, dirs0, d, modDirs, now)
  {
  }

  /**
   * The state of the allocation loop at number n: every number from lo
   * below n is taken on the spool as it was (files0, dirs0), and the
   * paths skipped so far are existing ones, none of them n or above.
   */
  ghost predicate Allocating(files0: map<string, string>, dirs0: map<string, int>, d: string, modDirs: bool,
                             lo: nat, n: nat, existing: set<string>, skipped: set<string>)
  {
    lo <= n &&
    (forall m :: lo <= m < n ==> OnDisk(files0, dirs0, NumberPath(d, modDirs, m))) &&
    skipped <= existing &&
    forall m :: n <= m ==> NumberPath(d, modDirs, m) !in skipped
  }

  /** An article path that exists once the modulus directories are made existed before: the loop goes on to n + 1. */
  lemma AllocatingNext(files0: map<string, string>, dirs0: map<string, int>, dirs: map<string, int>, d: string,
                       modDirs: bool, lo: nat, n: nat, now: int, existing: set<string>, skipped: set<string>)
    requires Allocating(files0, dirs0, d, modDirs, lo, n, existing, skipped) && existing == files0.Keys + dirs0.Keys
    requires DirsGrown(dirs, dirs0, d, modDirs, now)
    requires NumberPath(d, modDirs, n) in files0 || NumberPath(d, modDirs, n) in dirs
    ensures var s := skipped + {NumberPath(d, modDirs, n)};
      Allocating(files0, dirs0, d, modDirs, lo, n + 1, existing, s) && |skipped| < |s| <= |existing|
  {
    var path := NumberPath(d, modDirs, n);
    if path !in files0 && path !in dirs0 {
      ModArticleNotIn(d, n);
    }
    SkipExisting(existing, skipped, d, modDirs, n);
  }

  /**
   * Post's allocation of an article number: from lo upwards, the first
   * number whose article file can be created exclusively.
   */
  method CreateArticle(fs: FileSystem, d: string, modDirs: bool, lo: nat, now: int)
    returns (ok: bool, n: nat, err: string)
    requires fs.Valid()
    modifies fs`files, fs`dirs
    ensures fs.Valid() && lo <= n
    ensures forall m :: lo <= m < n ==> OnDisk(old(fs.files), old(fs.dirs), NumberPath(d, modDirs, m))
    ensures ok ==> !OnDisk(old(fs.files), old(fs.dirs), NumberPath(d, modDirs, n)) &&
                   fs.files == old(fs.files)[NumberPath(d, modDirs, n) := ""]
    ensures !ok ==> fs.files == old(fs.files) && CreateError(fs.denied, old(fs.files), old(fs.dirs), d, modDirs, n, err)
    ensures forall p :: p in old(fs.dirs) ==> p in fs.dirs && fs.dirs[p] == old(fs.dirs)[p]
    ensures forall p :: p in fs.dirs && p !in old(fs.dirs) ==> modDirs && InDirectory(p, d + "/") && fs.dirs[p] == now
  {
    ghost var files0, dirs0 := fs.files, fs.dirs;
    ghost var existing := fs.files.Keys + fs.dirs.Keys;
    ghost var skipped: set<string> := {};
    n := lo;
    while true
      invariant fs.Valid() && fs.files == files0 && DirsGrown(fs.dirs, dirs0, d, modDirs, now)
      invariant Allocating(files0, dirs0, d, modDirs, lo, n, existing, skipped)
      decreases |existing| - |skipped|
    {
      var r;
      ghost var dirs1 := fs.dirs;
      r, err := TryArticle(fs, d, modDirs, n, now);
      DirsGrownTrans(fs.dirs, dirs1, dirs0, d, modDirs, now);
      if r != AlreadyExists {
        return r == Created, n, err;
      }
      AllocatingNext(files0, dirs0, dirs1, d, modDirs, lo, n, now, existing, skipped);
      skipped := skipped + {NumberPath(d, modDirs, n)};
      n := n + 1;
    }
  }

  /** Post's rejection messages. */
  const NO_NEWSGROUPS := "article has no 'Newsgroups' field"
  const NO_SUCH_GROUP := "no such group"
  const FILTER_FAILED := "spam filter command failed to execute"
  const FILTER_REJECTED := "spam filter rejected message"
  function PostingDisabled(g: string): string {
    "posting disabled for group '" + g + "'"
  }

  /** How Post's checks after loading the group end. */
  datatype Admission = Admitted | NoSuchGroup | Disabled | FilterDown | SpamRejected

  /**
   * The order of Post's checks: the group must load, posting must be
   * enabled (or forced), and a configured spam filter must pass the article.
   */
  function Admitting(valid: bool, postok: int, force: bool, spamFilter: string, filter: FilterVerdict): (a: Admission)
    ensures a == Admitted <==> valid && (postok != 0 || force) && (At(spamFilter, 0) == '\0' || filter == FilterPassed)
    ensures a == NoSuchGroup <==> !valid
    ensures a == SpamRejected ==> filter == FilterRejected
  {
    if !valid then NoSuchGroup
    else if postok == 0 && !force then Disabled
    else if At(spamFilter, 0) == '\0' then Admitted
    else match filter
      case FilterPassed => Admitted
      case FilterFailed => FilterDown
      case FilterRejected => SpamRejected
  }

  /** The message each refusal leaves in errmsg. */
  function Refusal(a: Admission, g: string): string {
    match a
    case NoSuchGroup => NO_SUCH_GROUP
    case Disabled => PostingDisabled(g)
    case FilterDown => FILTER_FAILED
    case SpamRejected => FILTER_REJECTED
    case Admitted => ""
  }

  /** files differs from files0 at most in group directory d's ".info", which then holds counters i. */
  predicate InfoOnly(files: map<string, string>, files0: map<string, string>, d: string, i: Info) {
    files == files0 || files == files0[InfoPath(d) := InfoText(i)]
  }

  /**
   * The spool after an article with text is filed at path in group
   * directory d, starting from files0: the article written, and ".info"
   * saved with the advanced counters i where it can be written (dirs and
   * denied as after the filing), else at most rebuilt with the counters i0
   * loaded before.
   */
  predicate Stored(files: map<string, string>, files0: map<string, string>, dirs: map<string, int>,
                  denied: set<string>, d: string, path: string, text: string, i0: Info, i: Info)
  {
    var written := files0[path := text];
    var p := InfoPath(d);
    if p !in dirs && p !in denied then files == written[p := InfoText(i)] else InfoOnly(files, written, d, i0)
  }

  /** A filed article holds its text, and no path but it and ".info" changed. */
  lemma StoredArticle(files: map<string, string>, files0: map<string, string>, dirs: map<string, int>,
                     denied: set<string>, d: string, path: string, text: string, i0: Info, i: Info)
    requires path != InfoPath(d) && Stored(files, files0, dirs, denied, d, path, text, i0, i)
    ensures path in files && files[path] == text
    ensures forall q :: q != path && q != InfoPath(d) ==> (q in files <==> q in files0) && (q in files ==> files[q] == files0[q])
  {
  }

  /**
   * Store's spool, written over a spool files1 that Load may have given a
   * rebuilt ".info", is Stored from the spool before the load.
   */
  lemma StoredBesideInfo(files: map<string, string>, files1: map<string, string>, files0: map<string, string>,
                         dirs: map<string, int>, denied: set<string>, d: string, path: string, text: string,
                         i0: Info, i: Info)
    requires path != InfoPath(d) && InfoOnly(files1, files0, d, i0)
    requires files == (if InfoPath(d) !in dirs && InfoPath(d) !in denied
                       then files1[path := text][InfoPath(d) := InfoText(i)] else files1[path := text])
    ensures Stored(files, files0, dirs, denied, d, path, text, i0, i)
  {
    if files1 != files0 {
      assert files1[path := text] == files0[path := text][InfoPath(d) := InfoText(i0)];
    }
  }

  /** The counters Post saves after filing article n over the counters i it loaded. */
  function Advanced(i: Info, n: nat): (r: Info)
    ensures r.end == n && r.total == i.total + 1
    ensures r.start == if i.total == 0 && i.start == 0 then 1 else i.start
  {
    Info(if i.total == 0 && i.start == 0 then 1 else i.start, n, i.total + 1)
  }

  /**
   * What Post does with header h0 and body for a Group whose counters and
   * settings were i0 and c0, on a spool whose files and directories were
   * files0 and dirs0 and are files and dirs after. The group the first
   * Newsgroups line names is loaded and admitted (force skips its postok
   * switch; verdict is the spam filter's), and the article is given the
   * first free number above the End loaded. posted says whether it was
   * filed and err why not; head and tconf are the header filed and the
   * group's settings; counters and number are the counters loaded and the
   * number tried last.
   */
  ghost predicate Filing(cfg: Settings, ovs: seq<string>, remoteip: string, date: string, now: int, force: bool,
                         verdict: FilterVerdict, i0: Info, c0: GroupConf, h0: seq<string>, body: seq<string>,
                         denied: set<string>, files0: map<string, string>, dirs0: map<string, int>,
                         files: map<string, string>, dirs: map<string, int>,
                         posted: bool, err: string, head: seq<string>, tconf: GroupConf, counters: Info, number: nat)
  {
    var mod := cfg.msgModDirs != 0;
    (PostGroup(h0, 0).None? ==> !posted && err == NO_NEWSGROUPS && files == files0 && dirs == dirs0) &&
    (PostGroup(h0, 0).Some? ==>
      var g := PostGroup(h0, 0).value; var d := GroupDir(cfg.spoolDir, g);
      var c := ConfRead(c0, if ConfigPath(d) in files0 then files0[ConfigPath(d)] else "");
      var a := Admitting(Loads(cfg.spoolDir, files0, dirs0, denied, g, g), c.postok, force, cfg.spamFilter, verdict);
      (!posted ==> InfoOnly(files, files0, d, counters)) &&
      (a != Admitted ==> !posted && err == Refusal(a, g) && dirs == dirs0) &&
      (a == Admitted ==>
        LoadedInfo(i0, counters, files0, dirs0, d, mod) && counters.end < number && DirsGrown(dirs, dirs0, d, mod, now) &&
        (forall m :: counters.end < m < number ==> OnDisk(files0, dirs0, NumberPath(d, mod, m))) &&
        (!posted ==> CreateError(denied, files0, dirs0, d, mod, number, err)) &&
        (posted ==>
          var path := NumberPath(d, mod, number);
          !OnDisk(files0, dirs0, path) && tconf == c &&
          head == Reordered(ovs, Stripped(h0) + AddedHeaders(cfg.serverName, g, number, date, remoteip, |body|)) &&
          Stored(files, files0, dirs, denied, d, path, MessageText(head, body, "\n"), counters, Advanced(counters, number)))))
  }

  /**
   * What Submit leaves for group g with header h0 and body, stated over
   * the Group's validity and settings afterwards, for a Group whose
   * counters and settings were i0 and c0, on a spool whose files and
   * directories were files0 and dirs0 and are files and dirs after: valid
   * exactly when g loads, a refusal with Admitting's reason, and an
   * admitted article refused with a creation error or filed at the first
   * free number above the End loaded.
   */
  ghost predicate Submitted(cfg: Settings, ovs: seq<string>, remoteip: string, date: string, now: int, force: bool,
                            verdict: FilterVerdict, i0: Info, c0: GroupConf, g: string, h0: seq<string>, body: seq<string>,
                            denied: set<string>, files0: map<string, string>, dirs0: map<string, int>,
                            files: map<string, string>, dirs: map<string, int>, valid: bool, conf: GroupConf,
                            rc: int, err: string, head: seq<string>, counters: Info, number: nat)
  {
    var d := GroupDir(cfg.spoolDir, g); var mod := cfg.msgModDirs != 0;
    var a := Admitting(valid, conf.postok, force, cfg.spamFilter, verdict);
    (valid <==> Loads(cfg.spoolDir, files0, dirs0, denied, g, g)) &&
    (valid ==> LoadedInfo(i0, counters, files0, dirs0, d, mod) && ConfigLoaded(c0, conf, files0, dirs0, d)) &&
    (rc == 0 || rc == -1) && (rc == -1 ==> head == h0 && InfoOnly(files, files0, d, counters)) &&
    (a != Admitted ==> rc == -1 && err == Refusal(a, g) && dirs == dirs0) &&
    (a == Admitted ==>
      var path := NumberPath(d, mod, number);
      counters.end < number && DirsGrown(dirs, dirs0, d, mod, now) &&
      (forall m :: counters.end < m < number ==> OnDisk(files0, dirs0, NumberPath(d, mod, m))) &&
      (rc == -1 ==> CreateError(denied, files0, dirs0, d, mod, number, err)) &&
      (rc == 0 ==>
        !OnDisk(files0, dirs0, path) &&
        head == Reordered(ovs, Stripped(h0) + AddedHeaders(cfg.serverName, g, number, date, remoteip, |body|)) &&
        Stored(files, files0, dirs, denied, d, path, MessageText(head, body, "\n"), counters, Advanced(counters, number))))
  }

  /**
   * What Submit leaves for the group the Newsgroups line names is the
   * Filing of the spool: the group is valid exactly when it loads, and
   * then its settings are read from its ".config".
   */
  lemma FilingOf(cfg: Settings, ovs: seq<string>, remoteip: string, date: string, now: int, force: bool,
                 verdict: FilterVerdict, i0: Info, c0: GroupConf, h0: seq<string>, body: seq<string>,
                 denied: set<string>, files0: map<string, string>, dirs0: map<string, int>,
                 files: map<string, string>, dirs: map<string, int>, valid: bool, conf: GroupConf,
                 rc: int, err: string, head: seq<string>, counters: Info, number: nat)
    requires PostGroup(h0, 0).Some?
    requires Submitted(cfg, ovs, remoteip, date, now, force, verdict, i0, c0, PostGroup(h0, 0).value, h0, body,
                       denied, files0, dirs0, files, dirs, valid, conf, rc, err, head, counters, number)
    ensures Filing(cfg, ovs, remoteip, date, now, force, verdict, i0, c0, h0, body, denied, files0, dirs0, files, dirs,
                   rc == 0, err, head, conf, counters, number)
  {
  }

  class Group {
    var info: Info
    var conf: GroupConf
    var name: string
    /** The group's directory, as the last call of Dirname computed it. */
    var dirname: string
    var ctime: int
    var valid: bool
    var errmsg: string
    ghost var lock: LockState

    function State(): GroupState
      reads this
    {
      GroupState(info, conf, name, ctime, valid)
    }

    constructor ()
      ensures State() == GroupState(Info(0, 0, 0), DefaultConf, "", 0, false)
      ensures dirname == "" && errmsg == "" && lock == Unlocked
    {
      info := Info(0, 0, 0);
      conf := DefaultConf;
      name := "";
      dirname := "";
      ctime := 0;
      valid := false;
      errmsg := "";
      lock := Unlocked;
    }

    /** The copy constructor: the copied fields of o; directory and message start empty. */
    constructor Copy(o: Group)
      ensures State() == o.State()
      ensures dirname == "" && errmsg == "" && lock == Unlocked
    {
      info := o.info;
      conf := o.conf;
      name := o.name;
      dirname := "";
      ctime := o.ctime;
      valid := o.valid;
      errmsg := "";
      lock := Unlocked;
    }

    /** operator=: the copied fields of o; this group keeps its directory and message. */
    method Assign(o: Group)
      modifies this
      ensures State() == old(o.State())
      ensures dirname == old(dirname) && errmsg == old(errmsg) && lock == old(lock)
    {
      var st := o.State();
      info := st.info;
      conf := st.conf;
      name := st.name;
      ctime := st.ctime;
      valid := st.valid;
    }

    method SetStart(v: nat)
      modifies this`info
      ensures info == old(info).(start := v)
    {
      info := info.(start := v);
    }

    method SetEnd(v: nat)
      modifies this`info
      ensures info == old(info).(end := v)
    {
      info := info.(end := v);
    }

    method SetTotal(v: nat)
      modifies this`info
      ensures info == old(info).(total := v)
    {
      info := info.(total := v);
    }

    method SetName(v: string)
      modifies this`name
      ensures name == v
    {
      name := v;
    }

    /** Postings are copied by mail when ccpost is not "-". */
    predicate IsCCPost()
      reads this
    {
      conf.ccpost != "-"
    }

    /** Mail carries a Reply-To when replyto is not "-". */
    predicate IsReplyTo()
      reads this
    {
      conf.replyto != "-"
    }

    /** Dirname: compute the group's directory from the spool and the current name, and keep it. */
    method Dirname(cfg: Settings) returns (d: string)
      modifies this`dirname
      ensures d == dirname == GroupDir(cfg.spoolDir, name)
    {
      dirname := GroupDir(cfg.spoolDir, name);
      d := dirname;
    }

    /** WriteLock: take the exclusive lock (its failure is not modelled). */
    method WriteLock(cfg: Settings)
      requires lock == Unlocked
      modifies this`dirname, this`lock
      ensures dirname == GroupDir(cfg.spoolDir, name) && lock == Exclusive
    {
      var _ := Dirname(cfg);
      lock := Exclusive;
    }

    /** ReadLock: take the shared lock. */
    method ReadLock(cfg: Settings)
      requires lock == Unlocked
      modifies this`dirname, this`lock
      ensures dirname == GroupDir(cfg.spoolDir, name) && lock == Shared
    {
      var _ := Dirname(cfg);
      lock := Shared;
    }

    method Unlock()
      modifies this`lock
      ensures lock == Unlocked
    {
      lock := Unlocked;
    }

    /** IsValidGroup: the group directory holds a ".config". */
    method IsValidGroup(cfg: Settings, fs: FileSystem) returns (r: bool)
      modifies this`dirname
      ensures dirname == GroupDir(cfg.spoolDir, name)
      ensures r <==> fs.Exists(ConfigPath(dirname))
    {
      var d := Dirname(cfg);
      r := fs.Exists(d + "/.config");
    }

    /**
     * SaveInfo: write the three counter lines to ".info", under the write
     * lock when dolock is set (else the caller holds it).
     */
    method SaveInfo(cfg: Settings, fs: FileSystem, dolock: bool) returns (rc: int)
      requires fs.Valid()
      requires if dolock then lock == Unlocked else lock == Exclusive
      modifies this`dirname, this`errmsg, this`lock, fs`files
      ensures fs.Valid() && lock == old(lock) && dirname == GroupDir(cfg.spoolDir, name)
      ensures var p := InfoPath(dirname);
        (rc == 0 <==> p !in fs.dirs && p !in fs.denied) && (rc == 0 || rc == -1) &&
        fs.files == (if rc == 0 then old(fs.files)[p := InfoText(info)] else old(fs.files)) &&
        errmsg == if rc == 0 then old(errmsg) else p + ": " + fs.WriteError(p)
    {
      var path := Dirname(cfg);
      path := path + "/.info";
      if dolock {
        WriteLock(cfg);
      }
      var ok := fs.WriteFile(path, InfoText(info));
      if !ok {
        errmsg := path + ": " + fs.WriteError(path);
        if dolock {
          Unlock();
        }
        return -1;
      }
      if dolock {
        Unlock();
      }
      return 0;
    }

    /**
     * BuildInfo: count the articles in the directory last computed (the
     * write lock computes it afresh) and save the counters.
     */
    method BuildInfo(cfg: Settings, fs: FileSystem, dolock: bool) returns (rc: int)
      requires fs.Valid()
      requires if dolock then lock == Unlocked else lock == Exclusive
      modifies this`info, this`dirname, this`errmsg, this`lock, fs`files
      ensures fs.Valid() && lock == old(lock) && dirname == GroupDir(cfg.spoolDir, name)
      ensures Counts(info, old(fs.files), fs.dirs, if dolock then dirname else old(dirname), cfg.msgModDirs != 0)
      ensures var p := InfoPath(dirname);
        (rc == 0 <==> p !in fs.dirs && p !in fs.denied) && (rc == 0 || rc == -1) &&
        fs.files == (if rc == 0 then old(fs.files)[p := InfoText(info)] else old(fs.files)) &&
        errmsg == if rc == 0 then old(errmsg) else p + ": " + fs.WriteError(p)
    {
      if dolock {
        WriteLock(cfg);
      }
      info := Info(0, 0, 0);
      info := ScanArticles(fs, dirname, cfg.msgModDirs != 0);
      rc := SaveInfo(cfg, fs, false);
      if dolock {
        Unlock();
      }
    }

    /**
     * LoadInfo: read the counters from ".info", keeping those it does not
     * mention; with no ".info", rebuild them if the group has a ".config".
     */
    method LoadInfo(cfg: Settings, fs: FileSystem, dolock: bool) returns (rc: int)
      requires fs.Valid()
      requires if dolock then lock == Unlocked else lock == Exclusive
      modifies this`info, this`dirname, this`errmsg, this`lock, fs`files
      ensures fs.Valid() && lock == old(lock) && dirname == GroupDir(cfg.spoolDir, name)
      ensures rc == 0 || rc == -1
      ensures rc == 0 ==> LoadedInfo(old(info), info, old(fs.files), fs.dirs, dirname, cfg.msgModDirs != 0)
      ensures var p := InfoPath(dirname);
        old(fs.Exists(p)) ==> rc == 0 && fs.files == old(fs.files) && errmsg == old(errmsg)
      ensures var p := InfoPath(dirname);
        !old(fs.Exists(p)) && !fs.Exists(ConfigPath(dirname)) ==>
          rc == -1 && errmsg == "invalid group" && info == old(info) && fs.files == old(fs.files)
      ensures var p := InfoPath(dirname);
        !old(fs.Exists(p)) && fs.Exists(ConfigPath(dirname)) ==>
          Counts(info, old(fs.files), fs.dirs, dirname, cfg.msgModDirs != 0) &&
          (rc == 0 <==> p !in fs.denied) &&
          fs.files == (if rc == 0 then old(fs.files)[p := InfoText(info)] else old(fs.files)) &&
          errmsg == if rc == 0 then old(errmsg) else p + ": " + EACCES_TEXT
    {
      var path := Dirname(cfg);
      path := path + "/.info";
      var file := fs.Read(path);
      if file.None? {
        var isValid := IsValidGroup(cfg, fs);
        if !isValid {
          errmsg := "invalid group";
          return -1;
        }
        rc := BuildInfo(cfg, fs, dolock);
        return;
      }
      if dolock {
        ReadLock(cfg);
      }
      info := ReadCounters(info, file.value);
      if dolock {
        Unlock();
      }
      return 0;
    }

    /**
     * LoadConfig: read the settings from ".config", the ccpost addresses
     * gathered afresh ("-" when there are none).
     */
    method LoadConfig(cfg: Settings, fs: FileSystem, dolock: bool) returns (rc: int)
      requires if dolock then lock == Unlocked else lock != Unlocked
      modifies this`conf, this`dirname, this`errmsg, this`lock
      ensures lock == old(lock) && dirname == GroupDir(cfg.spoolDir, name)
      ensures var p := ConfigPath(dirname);
        fs.Exists(p) ==> rc == 0 && conf == ConfRead(old(conf), fs.Read(p).value) && errmsg == old(errmsg)
      ensures var p := ConfigPath(dirname);
        !fs.Exists(p) ==> rc == -1 && conf == old(conf) && errmsg == p + ": " + ENOENT_TEXT
    {
      var path := Dirname(cfg);
      path := path + "/.config";
      var file := fs.Read(path);
      if file.None? {
        errmsg := path + ": " + ENOENT_TEXT;
        return -1;
      }
      if dolock {
        ReadLock(cfg);
      }
      conf := ReadSettings(conf, file.value);
      if dolock {
        Unlock();
      }
      return 0;
    }

    /** SaveConfig: write the seven setting lines to ".config" under the write lock. */
    method SaveConfig(cfg: Settings, fs: FileSystem) returns (rc: int)
      requires fs.Valid() && lock == Unlocked
      modifies this`dirname, this`errmsg, this`lock, fs`files
      ensures fs.Valid() && lock == Unlocked && dirname == GroupDir(cfg.spoolDir, name)
      ensures var p := ConfigPath(dirname);
        (rc == 0 <==> p !in fs.dirs && p !in fs.denied) && (rc == 0 || rc == -1) &&
        fs.files == (if rc == 0 then old(fs.files)[p := ConfText(WrittenConf(conf))] else old(fs.files)) &&
        errmsg == if rc == 0 then old(errmsg) else p + ": " + fs.WriteError(p)
    {
      var path := Dirname(cfg);
      path := path + "/.config";
      WriteLock(cfg);
      var ok := fs.WriteFile(path, ConfText(WrittenConf(conf)));
      if !ok {
        errmsg := path + ": " + fs.WriteError(path);
        Unlock();
        return -1;
      }
      Unlock();
      return 0;
    }

    /**
     * Load(group_name, dolock): check the name's length, stat the directory
     * of the name held so far, take the new name and the directory's
     * creation time, then load the counters and the settings; the group is
     * valid once both have loaded.
     */
    method Load(cfg: Settings, fs: FileSystem, g: string, dolock: bool) returns (rc: int)
      requires fs.Valid()
      requires if dolock then lock == Unlocked else lock == Exclusive
      modifies this, fs`files
      ensures fs.Valid() && lock == old(lock)
      ensures (rc == 0 <==> valid) && (rc == 0 || rc == -1)
      ensures rc == 0 <==> Loads(cfg.spoolDir, old(fs.files), fs.dirs, fs.denied, old(name), g)
      ensures fs.files == old(fs.files) || fs.files == old(fs.files)[InfoPath(dirname) := InfoText(info)]
      ensures rc == -1 ==> fs.files == old(fs.files)
      ensures |g| >= GROUP_MAX ==>
        rc == -1 && errmsg == "Group name too long" &&
        info == old(info) && conf == old(conf) && name == old(name) && ctime == old(ctime) &&
        dirname == old(dirname) && fs.files == old(fs.files)
      ensures var d0 := GroupDir(cfg.spoolDir, old(name));
        |g| < GROUP_MAX && !old(fs.Exists(d0)) ==>
          rc == -1 && errmsg == "invalid group name '" + g + "': " + ENOENT_TEXT &&
          info == old(info) && conf == old(conf) && name == old(name) && ctime == old(ctime) &&
          dirname == d0 && fs.files == old(fs.files)
      ensures var d0 := GroupDir(cfg.spoolDir, old(name)); var d := GroupDir(cfg.spoolDir, g);
        |g| < GROUP_MAX && old(fs.Exists(d0)) ==>
          name == g && ctime == old(fs.Ctime(d0)) && dirname == d &&
          (old(fs.Exists(InfoPath(d))) && fs.Exists(ConfigPath(d)) ==> rc == 0) &&
          (!old(fs.Exists(InfoPath(d))) && !fs.Exists(ConfigPath(d)) ==> rc == -1 && errmsg == "invalid group") &&
          (rc == 0 ==>
            LoadedInfo(old(info), info, old(fs.files), fs.dirs, d, cfg.msgModDirs != 0) &&
            ConfigLoaded(old(conf), conf, old(fs.files), fs.dirs, d))
    {
      valid := false;
      if |g| >= GROUP_MAX {
        errmsg := "Group name too long";
        return -1;
      }
      var d0 := Dirname(cfg);
      if !fs.Exists(d0) {
        errmsg := "invalid group name '" + g + "': " + ENOENT_TEXT;
        return -1;
      }
      ctime := fs.Ctime(d0);
      name := g;
      rc := LoadFiles(cfg, fs, dolock);
      if rc < 0 {
        return -1;
      }
      valid := true;
    }

    /** The second half of Load: the counters, then the settings, of the group now named. */
    method LoadFiles(cfg: Settings, fs: FileSystem, dolock: bool) returns (rc: int)
      requires fs.Valid()
      requires if dolock then lock == Unlocked else lock == Exclusive
      modifies this`info, this`conf, this`dirname, this`errmsg, this`lock, fs`files
      ensures fs.Valid() && lock == old(lock) && dirname == GroupDir(cfg.spoolDir, name) && (rc == 0 || rc == -1)
      ensures fs.files == old(fs.files) || fs.files == old(fs.files)[InfoPath(dirname) := InfoText(info)]
      ensures rc == -1 ==> fs.files == old(fs.files)
      ensures var d := dirname;
        (rc == 0 <==>
          OnDisk(old(fs.files), fs.dirs, ConfigPath(d)) && (OnDisk(old(fs.files), fs.dirs, InfoPath(d)) || InfoPath(d) !in fs.denied)) &&
        (!old(fs.Exists(InfoPath(d))) && !fs.Exists(ConfigPath(d)) ==> errmsg == "invalid group") &&
        (rc == 0 ==>
          LoadedInfo(old(info), info, old(fs.files), fs.dirs, d, cfg.msgModDirs != 0) &&
          ConfigLoaded(old(conf), conf, old(fs.files), fs.dirs, d))
    {
      rc := LoadInfo(cfg, fs, dolock);
      assert ConfigPath(dirname) != InfoPath(dirname);
      if rc < 0 {
        return -1;
      }
      rc := LoadConfig(cfg, fs, dolock);
    }

    /**
     * ParseArticle: walk the message as a C string, filing lines into the
     * header until the empty line, then into the body; always 0.
     */
    method ParseArticle(msg: string, head0: seq<string>, body0: seq<string>)
      returns (rc: int, head: seq<string>, body: seq<string>)
      modifies this`errmsg
      ensures rc == 0 && errmsg == ""
      ensures Parsed(head, body) == Split(CStr(msg), 0, true, "", Parsed(head0, body0))
    {
      errmsg := "";
      var t := CStr(msg);
      head, body := head0, body0;
      var inHead := true;
      var line := "";
      var i := 0;
      while i < |t|
        invariant 0 <= i <= |t|
        invariant Split(t, i, inHead, line, Parsed(head, body)) == Split(t, 0, true, "", Parsed(head0, body0))
        decreases |t| - i
      {
        var c := t[i];
        if c == '\r' {
          i := i + 1;
        } else if c == '\n' {
          if inHead {
            head := head + [line];
          } else {
            body := body + [line];
          }
          line := "";
          if inHead && At(t, i + 1) == '\r' && At(t, i + 2) == '\n' {
            inHead := false;
            i := i + 3;
          } else if inHead && At(t, i + 1) == '\n' {
            inHead := false;
            i := i + 2;
          } else {
            i := i + 1;
          }
        } else {
          line := line + [c];
          i := i + 1;
        }
      }
      rc := 0;
    }

    /** UpdatePath: put the server's name first in every "Path:" header, or add one. */
    method UpdatePath(cfg: Settings, header: seq<string>) returns (h: seq<string>)
      ensures h == PathUpdated(header, cfg.serverName)
    {
      var host := cfg.serverName;
      h := header;
      var found := false;
      var t := 0;
      while t < |h|
        invariant 0 <= t <= |h| == |header|
        invariant h[..t] == PathsRewritten(header, host)[..t] && h[t..] == header[t..]
        invariant found <==> HasPath(header[..t])
      {
        assert header[..t + 1] == header[..t] + [header[t]];
        assert h[t] == header[t];
        if IsPath(h[t]) {
          var r := RewritePath(h[t], host);
          h := h[..t] + [r] + h[t + 1..];
          found := true;
          assert header[..t + 1][t] == header[t];
        }
        t := t + 1;
      }
      if !found {
        assert header[..t] == header;
        assert PathsRewritten(header, host) == header;
        h := h + ["Path: " + host];
      }
    }

    /**
     * ReorderHeader: for each overview entry in turn, move the first
     * remaining header it leads to the new header; the rest follow in order.
     */
    method ReorderHeader(ovs: seq<string>, head: seq<string>) returns (h: seq<string>)
      ensures h == Reordered(ovs, head)
    {
      var rest := head;
      var newhead: seq<string> := [];
      var t := 0;
      while t < |ovs|
        invariant 0 <= t <= |ovs|
        invariant newhead + Reordered(ovs[t..], rest) == Reordered(ovs, head)
      {
        var r := 0;
        while r < |rest| && !Leads(ovs[t], rest[r])
          invariant 0 <= r <= |rest|
          invariant FirstLed(ovs[t], rest, r) == FirstLed(ovs[t], rest, 0)
        {
          r := r + 1;
        }
        assert ovs[t..][1..] == ovs[t + 1..];
        if r < |rest| {
          newhead := newhead + [rest[r]];
          rest := Removed(rest, r);
        }
        t := t + 1;
      }
      var r := 0;
      while r < |rest|
        invariant 0 <= r <= |rest|
        invariant newhead + rest[r..] == Reordered(ovs, head)
      {
        assert rest[r..] == [rest[r]] + rest[r + 1..];
        newhead := newhead + [rest[r]];
        r := r + 1;
      }
      h := newhead;
    }

    /**
     * FindArticleByMessageID: an id of the form "<N-..." gives N at once;
     * otherwise every number from Start to End is tried in turn at the flat
     * article path, and 0 (an error) stands for no match.
     */
    method FindArticleByMessageID(cfg: Settings, fs: FileSystem, id: string) returns (rc: int, number: nat)
      modifies this`dirname, this`errmsg
      ensures FastNumber(id).Some? ==>
        rc == 0 && number == FastNumber(id).value && dirname == old(dirname) && errmsg == old(errmsg)
      ensures FastNumber(id).None? ==>
        dirname == GroupDir(cfg.spoolDir, name) && (rc == 0 <==> number != 0) && (rc == 0 || rc == -1)
      ensures FastNumber(id).None? && number != 0 ==>
        info.start <= number <= info.end && FoundAt(fs, dirname, id, number) &&
        (forall t :: info.start <= t < number ==> !FoundAt(fs, dirname, id, t)) && errmsg == old(errmsg)
      ensures FastNumber(id).None? && number == 0 ==>
        errmsg == "Message-ID not found: " + id &&
        ((info.start == 0 && FoundAt(fs, dirname, id, 0)) ||
         forall t :: info.start <= t <= info.end ==> !FoundAt(fs, dirname, id, t))
    {
      var fast := FastNumber(id);
      if fast.Some? {
        return 0, fast.value;
      }
      var d := Dirname(cfg);
      number := ScanForId(fs, d, id, info.start, info.end);
      if number == 0 {
        errmsg := "Message-ID not found: " + id;
        return -1, 0;
      }
      return 0, number;
    }

    /**
     * Post's checks once the group is locked: load it, then turn the
     * article away when posting is disabled (unless forced) or when a spam
     * filter is configured and fails or rejects it.
     */
    method Admit(cfg: Settings, fs: FileSystem, force: bool, filter: FilterVerdict) returns (rc: int)
      requires fs.Valid() && lock == Exclusive && dirname == GroupDir(cfg.spoolDir, name)
      modifies this, fs`files
      ensures fs.Valid() && lock == Exclusive && name == old(name) && dirname == old(dirname)
      ensures fs.files == old(fs.files) || fs.files == old(fs.files)[InfoPath(dirname) := InfoText(info)]
      ensures old(fs.files).Keys <= fs.files.Keys
      ensures valid <==> Loads(cfg.spoolDir, old(fs.files), fs.dirs, fs.denied, name, name)
      ensures valid ==>
        LoadedInfo(old(info), info, old(fs.files), fs.dirs, dirname, cfg.msgModDirs != 0) &&
        ConfigLoaded(old(conf), conf, old(fs.files), fs.dirs, dirname)
      ensures var a := Admitting(valid, conf.postok, force, cfg.spamFilter, filter);
        (rc == 0 <==> a == Admitted) && (rc == 0 || rc == -1) && (a != Admitted ==> errmsg == Refusal(a, name))
    {
      var g := name;
      rc := Load(cfg, fs, g, false);
      if rc < 0 {
        errmsg := NO_SUCH_GROUP;
        return -1;
      }
      assert ConfigPath(dirname) != InfoPath(dirname);
      if conf.postok == 0 && !force {
        errmsg := PostingDisabled(g);
        return -1;
      }
      if At(cfg.spamFilter, 0) != '\0' {
        if filter == FilterFailed {
          errmsg := FILTER_FAILED;
          return -1;
        }
        if filter == FilterRejected {
          errmsg := FILTER_REJECTED;
          return -1;
        }
      }
      return 0;
    }

    /**
     * The header Post files: the header without the lines the server
     * regenerates, the server's lines appended, reordered for the overview.
     */
    method PostedHeader(server: string, group: string, ovs: seq<string>, head: seq<string>, body: seq<string>,
                        remoteip: string, date: string, n: nat)
      returns (h: seq<string>)
      ensures h == Reordered(ovs, Stripped(head) + AddedHeaders(server, group, n, date, remoteip, |body|))
    {
      h := StripHeaders(head);
      h := h + AddedHeaders(server, group, n, date, remoteip, |body|);
      h := ReorderHeader(ovs, h);
    }

    /**
     * Post's filing of an article in group directory d: allocate the first
     * free number from lo, then write the completed header, the empty line
     * and the body to it, each line ended by a newline.
     */
    method WriteArticle(fs: FileSystem, d: string, modDirs: bool, server: string, group: string,
                        ovs: seq<string>, head: seq<string>, body: seq<string>,
                        remoteip: string, date: string, now: int, lo: nat)
      returns (ok: bool, h: seq<string>, n: nat, err: string)
      requires fs.Valid()
      modifies fs`files, fs`dirs
      ensures fs.Valid() && lo <= n
      ensures forall m :: lo <= m < n ==> OnDisk(old(fs.files), old(fs.dirs), NumberPath(d, modDirs, m))
      ensures DirsGrown(fs.dirs, old(fs.dirs), d, modDirs, now)
      ensures !ok ==> h == head && fs.files == old(fs.files) && CreateError(fs.denied, old(fs.files), old(fs.dirs), d, modDirs, n, err)
      ensures ok ==>
        var path := NumberPath(d, modDirs, n);
        !OnDisk(old(fs.files), old(fs.dirs), path) &&
        h == Reordered(ovs, Stripped(head) + AddedHeaders(server, group, n, date, remoteip, |body|)) &&
        fs.files == old(fs.files)[path := MessageText(h, body, "\n")]
    {
      ok, n, err := CreateArticle(fs, d, modDirs, lo, now);
      if !ok {
        return false, head, n, err;
      }
      h := PostedHeader(server, group, ovs, head, body, remoteip, date, n);
      var text := JoinLines(h, "\n");
      var bodyText := JoinLines(body, "\n");
      var path := NumberPath(d, modDirs, n);
      fs.Append(path, text + "\n" + bodyText);
      assert "" + (text + "\n" + bodyText) == MessageText(h, body, "\n");
    }

    /**
     * Post's allocation and filing: the article written at the next free
     * number above End, the counters advanced and saved (a failed save
     * leaves its message but does not fail the post).
     */
    method Store(cfg: Settings, fs: FileSystem, ovs: seq<string>, head: seq<string>, body: seq<string>,
                 remoteip: string, date: string, now: int)
      returns (rc: int, h: seq<string>, n: nat)
      requires fs.Valid() && lock == Exclusive && dirname == GroupDir(cfg.spoolDir, name)
      modifies this`info, this`dirname, this`errmsg, this`lock, fs`files, fs`dirs
      ensures fs.Valid() && lock == Exclusive && dirname == old(dirname) && (rc == 0 || rc == -1)
      ensures DirsGrown(fs.dirs, old(fs.dirs), dirname, cfg.msgModDirs != 0, now)
      ensures var d := dirname; var mod := cfg.msgModDirs != 0;
        old(info).end < n && (forall m :: old(info).end < m < n ==> OnDisk(old(fs.files), old(fs.dirs), NumberPath(d, mod, m)))
      ensures rc == -1 ==>
        h == head && info == old(info) && fs.files == old(fs.files) &&
        CreateError(fs.denied, old(fs.files), old(fs.dirs), dirname, cfg.msgModDirs != 0, n, errmsg)
      ensures rc == 0 ==>
        var d := dirname; var path := NumberPath(d, cfg.msgModDirs != 0, n);
        !OnDisk(old(fs.files), old(fs.dirs), path) && info == Advanced(old(info), n) &&
        h == Reordered(ovs, Stripped(head) + AddedHeaders(cfg.serverName, name, n, date, remoteip, |body|)) &&
        var written := old(fs.files)[path := MessageText(h, body, "\n")]; var p := InfoPath(d);
        fs.files == (if p !in fs.dirs && p !in fs.denied then written[p := InfoText(info)] else written) &&
        path in fs.files && fs.files[path] == MessageText(h, body, "\n")
    {
      var ok, err;
      ok, h, n, err := WriteArticle(fs, dirname, cfg.msgModDirs != 0, cfg.serverName, name,
                                    ovs, head, body, remoteip, date, now, info.end + 1);
      if !ok {
        errmsg := err;
        return -1, head, n;
      }
      info := Info(if info.total == 0 && info.start == 0 then 1 else info.start, n, info.total + 1);
      var _ := SaveInfo(cfg, fs, false);
      NotInfoPath(dirname, cfg.msgModDirs != 0, n);
      return 0, h, n;
    }

    /**
     * Submit's second half: Store on the spool Admit left, stated against
     * the spool before Admit (files0), which differs at most in ".info".
     */
    method StoreAdmitted(cfg: Settings, fs: FileSystem, ovs: seq<string>, head: seq<string>, body: seq<string>,
                         remoteip: string, date: string, now: int, ghost files0: map<string, string>)
      returns (rc: int, h: seq<string>, n: nat)
      requires fs.Valid() && lock == Exclusive && dirname == GroupDir(cfg.spoolDir, name)
      requires fs.files == files0 || fs.files == files0[InfoPath(dirname) := InfoText(info)]
      modifies this`info, this`dirname, this`errmsg, this`lock, fs`files, fs`dirs
      ensures fs.Valid() && lock == Exclusive && dirname == old(dirname) && (rc == 0 || rc == -1)
      ensures rc == -1 ==> h == head && fs.files == old(fs.files)
      ensures DirsGrown(fs.dirs, old(fs.dirs), dirname, cfg.msgModDirs != 0, now)
      ensures var mod := cfg.msgModDirs != 0; var path := NumberPath(dirname, mod, n);
        old(info).end < n &&
        (forall m :: old(info).end < m < n ==> OnDisk(files0, old(fs.dirs), NumberPath(dirname, mod, m))) &&
        (rc == -1 ==> CreateError(fs.denied, files0, old(fs.dirs), dirname, mod, n, errmsg)) &&
        (rc == 0 ==>
          !OnDisk(files0, old(fs.dirs), path) && info == Advanced(old(info), n) &&
          h == Reordered(ovs, Stripped(head) + AddedHeaders(cfg.serverName, name, n, date, remoteip, |body|)) &&
          Stored(fs.files, files0, fs.dirs, fs.denied, dirname, path, MessageText(h, body, "\n"), old(info), info))
    {
      ghost var files1, i := fs.files, info;
      rc, h, n := Store(cfg, fs, ovs, head, body, remoteip, date, now);
      ArticlesBesideInfo(fs.denied, files1, files0, InfoText(i), old(fs.dirs), dirname, cfg.msgModDirs != 0, i.end + 1, n, errmsg);
      if rc == 0 {
        NotInfoPath(dirname, cfg.msgModDirs != 0, n);
        StoredBesideInfo(fs.files, files1, files0, fs.dirs, fs.denied, dirname, NumberPath(dirname, cfg.msgModDirs != 0, n),
                         MessageText(h, body, "\n"), i, info);
      }
    }

    /**
     * Post's work while the group is locked: admit the article, then store
     * it. A refused article changes no directory; an admitted one is
     * numbered above the End loaded (the counters before the store are
     * returned as loaded, the number tried last as tried).
     */
    method Submit(cfg: Settings, fs: FileSystem, ovs: seq<string>, head: seq<string>, body: seq<string>,
                  remoteip: string, force: bool, date: string, filter: FilterVerdict, now: int)
      returns (rc: int, h: seq<string>, ghost loaded: Info, ghost tried: nat)
      requires fs.Valid() && lock == Exclusive && dirname == GroupDir(cfg.spoolDir, name)
      modifies this, fs`files, fs`dirs
      ensures fs.Valid() && lock == Exclusive && name == old(name) && dirname == old(dirname)
      ensures rc == 0 ==> info == Advanced(loaded, tried)
      ensures Submitted(cfg, ovs, remoteip, date, now, force, filter, old(info), old(conf), name, head, body, fs.denied,
                        old(fs.files), old(fs.dirs), fs.files, fs.dirs, valid, conf, rc, errmsg, h, loaded, tried)
    {
      h := head;
      loaded, tried := info, 0;
      ghost var files0 := fs.files;
      rc := Admit(cfg, fs, force, filter);
      loaded := info;
      ghost var d, v, c, e := dirname, valid, conf, errmsg;
      if rc < 0 {
        return -1, h, loaded, tried;
      }
      rc, h, tried := StoreAdmitted(cfg, fs, ovs, head, body, remoteip, date, now, files0);
      assert dirname == d && valid == v && conf == c;
    }

    /**
     * Post's work for group g, the first the Newsgroups line names: take
     * the name, lock the group, submit the article and unlock.
     */
    method PostTo(cfg: Settings, fs: FileSystem, g: string, ovs: seq<string>, head: seq<string>, body: seq<string>,
                  remoteip: string, force: bool, date: string, filter: FilterVerdict, now: int)
      returns (rc: int, h: seq<string>, ghost loaded: Info, ghost tried: nat)
      requires fs.Valid() && lock == Unlocked && PostGroup(head, 0) == Some(g)
      modifies this, fs`files, fs`dirs
      ensures fs.Valid() && lock == Unlocked && (rc == 0 || rc == -1) && (rc == -1 ==> h == head)
      ensures name == g && dirname == GroupDir(cfg.spoolDir, g)
      ensures valid ==> ConfigLoaded(old(conf), conf, old(fs.files), old(fs.dirs), dirname)
      ensures rc == 0 ==> info == Advanced(loaded, tried)
      ensures Filing(cfg, ovs, remoteip, date, now, force, filter, old(info), old(conf), head, body, fs.denied,
                     old(fs.files), old(fs.dirs), fs.files, fs.dirs, rc == 0, errmsg, h, conf, loaded, tried)
    {
      SetName(g);
      WriteLock(cfg);
      ghost var i0, c0, files0, dirs0 := info, conf, fs.files, fs.dirs;
      rc, h, loaded, tried := Submit(cfg, fs, ovs, head, body, remoteip, force, date, filter, now);
      Unlock();
      FilingOf(cfg, ovs, remoteip, date, now, force, filter, i0, c0, head, body, fs.denied,
               files0, dirs0, fs.files, fs.dirs, valid, conf, rc, errmsg, h, loaded, tried);
    }

    /**
     * Post: find the group in the Newsgroups line, lock it, admit the
     * article and store it. The lock is released on every path; on a
     * rejection the header is left as it was.
     */
    method Post(cfg: Settings, fs: FileSystem, ovs: seq<string>, head: seq<string>, body: seq<string>,
                remoteip: string, force: bool, date: string, filter: FilterVerdict, now: int)
      returns (rc: int, h: seq<string>, ghost loaded: Info, ghost tried: nat)
      requires fs.Valid() && lock == Unlocked
      modifies this, fs`files, fs`dirs
      ensures fs.Valid() && lock == Unlocked && (rc == 0 || rc == -1) && (rc == -1 ==> h == head)
      ensures PostGroup(head, 0).None? ==> State() == old(State())
      ensures PostGroup(head, 0).Some? ==>
        name == PostGroup(head, 0).value && dirname == GroupDir(cfg.spoolDir, name) &&
        (valid ==> ConfigLoaded(old(conf), conf, old(fs.files), old(fs.dirs), dirname)) &&
        (rc == 0 ==> info == Advanced(loaded, tried))
      ensures Filing(cfg, ovs, remoteip, date, now, force, filter, old(info), old(conf), head, body, fs.denied,
                     old(fs.files), old(fs.dirs), fs.files, fs.dirs, rc == 0, errmsg, h, conf, loaded, tried)
    {
      var found, g := FindPostGroup(head);
      if !found {
        errmsg := NO_NEWSGROUPS;
        return -1, head, info, 0;
      }
      rc, h, loaded, tried := PostTo(cfg, fs, g, ovs, head, body, remoteip, force, date, filter, now);
    }
  }
}
