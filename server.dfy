/**
 * The NNTP session of one client: the Server object with the session's
 * current group and article, the AUTHINFO state, and one method per
 * command of CommandLoop. The connection is an input text read from a
 * position and the sequence of writes made to it (each Send is one write
 * of the message and CR LF); mail handed to sendmail is collected in a
 * list.
 */
module NntpServer {
  import opened CLib
  import opened Subs
  import opened Configuration
  import opened Fs
  import opened Articles
  import opened Groups
  import opened GroupHeaders
  import opened GroupObject
  import opened ArticleObject
  import opened NntpWire
  import opened PostWire
  import opened MailCopy
  import opened NntpReplies
  import opened NntpTranscript

  /** What ValidGroup refuses a name for, given whether spool/name exists; "" when it accepts. */
  function GroupRefusal(name: string, exists_: bool): string {
    var e := NameError(name);
    if e != "" then e else if !exists_ then "group does not exist" else ""
  }

  /** Each text sent as a reply line, in order. */
  function Replies(ls: seq<string>): (r: seq<Write>)
    ensures |r| == |ls| && forall i :: 0 <= i < |ls| ==> r[i] == Reply(ls[i])
    decreases |ls|
  {
    if ls == [] then [] else Replies(ls[..|ls| - 1]) + [Reply(ls[|ls| - 1])]
  }

  /** The listings of LIST, LIST ACTIVE.TIMES, LIST NEWSGROUPS and NEWGROUPS. */
  datatype Listing = Active | Times | Descriptions | Names

  /** One group's line in a listing. */
  function ListingLine(kind: Listing, g: GroupState): string {
    match kind
    case Active =>
      Fit(g.name + " " + DecimalInt(Int32Of(g.info.total)) + " " + DecimalInt(Int32Of(g.info.start)) + " " +
          (if g.conf.postok != 0 then "y" else "n"))
    case Times => Fit(g.name + " " + DecimalInt(g.ctime) + " " + g.conf.creator)
    case Descriptions => Fit(g.name + " " + g.conf.desc)
    case Names => g.name
  }

  /** The listing of the groups that loaded, one line each. */
  function ListingText(kind: Listing, gs: seq<GroupState>): seq<Write>
    decreases |gs|
  {
    if gs == [] then [] else ListingText(kind, gs[..|gs| - 1]) + [Reply(ListingLine(kind, gs[|gs| - 1]))]
  }

  function GroupNames(gs: seq<GroupState>): (r: seq<string>)
    ensures |r| == |gs| && forall i :: 0 <= i < |gs| ==> r[i] == gs[i].name
    decreases |gs|
  {
    if gs == [] then [] else GroupNames(gs[..|gs| - 1]) + [gs[|gs| - 1].name]
  }

  /** The names among ns that a fresh Group loads, in order. */
  function LoadingNames(spool: string, files: map<string, string>, dirs: map<string, int>, denied: set<string>,
                        ns: seq<string>): seq<string>
    decreases |ns|
  {
    if ns == [] then []
    else
      var rest := LoadingNames(spool, files, dirs, denied, ns[..|ns| - 1]);
      if Loads(spool, files, dirs, denied, "", ns[|ns| - 1]) then rest + [ns[|ns| - 1]] else rest
  }

  /**
   * The step of ListGroups on the spool: the t-th name is listed exactly
   * when it loads, and the ".info" its loading may write keeps Listed.
   */
  lemma ListedNext(spool: string, files0: map<string, string>, files1: map<string, string>, files2: map<string, string>,
                   dirs: map<string, int>, denied: set<string>, stamp: int, ns: seq<string>, t: nat,
                   listed: seq<GroupState>, g: Option<GroupState>, text: string)
    requires t < |ns| && Listed(spool, files0, files1, dirs, denied, stamp, ns, t, listed)
    requires g.Some? <==> Loads(spool, files1, dirs, denied, "", ns[t])
    requires g.Some? ==>
      g.value.valid && g.value.name == ns[t] && g.value.ctime == stamp &&
      ConfigLoaded(DefaultConf, g.value.conf, files1, dirs, GroupDir(spool, ns[t])) &&
      (files2 == files1 || files2 == files1[InfoPath(GroupDir(spool, ns[t])) := text])
    requires g.None? ==> files2 == files1
    ensures Listed(spool, files0, files2, dirs, denied, stamp, ns, t + 1, if g.Some? then listed + [g.value] else listed)
  {
    var l := if g.Some? then listed + [g.value] else listed;
    SameLoadsAt(spool, files1, files0, dirs, denied, ns[t]);
    ListedStep(spool, files0, dirs, denied, ns, t, listed, g);
    if g.Some? && files2 != files1 {
      LoadsKeptSame(spool, files1, files0, dirs, denied, ns[t], text);
      InfoKeepsConfigs(files1, files0, GroupDir(spool, ns[t]), text);
    }
    if g.Some? {
      EntriesStep(spool, files0, files1, dirs, stamp, listed, g.value);
    }
    InfosStep(spool, files0, files1, files2, ns[t], listed, g, text);
  }

  /** The loop step of ListGroups: one more name of the walk, listed exactly when it loads. */
  lemma ListedStep(spool: string, files: map<string, string>, dirs: map<string, int>, denied: set<string>,
                   ns: seq<string>, t: nat, listed: seq<GroupState>, g: Option<GroupState>)
    requires t < |ns| && GroupNames(listed) == LoadingNames(spool, files, dirs, denied, ns[..t])
    requires g.Some? <==> Loads(spool, files, dirs, denied, "", ns[t])
    requires g.Some? ==> g.value.name == ns[t]
    ensures GroupNames(if g.Some? then listed + [g.value] else listed) == LoadingNames(spool, files, dirs, denied, ns[..t + 1])
  {
    assert ns[..t + 1][..t] == ns[..t];
    if g.Some? {
      assert (listed + [g.value])[..|listed|] == listed;
    }
  }

  /** Two spools on which the same groups load. */
  ghost predicate SameLoads(spool: string, files: map<string, string>, files0: map<string, string>,
                            dirs: map<string, int>, denied: set<string>)
  {
    forall b :: Loads(spool, files, dirs, denied, "", b) == Loads(spool, files0, dirs, denied, "", b)
  }

  lemma SameLoadsAt(spool: string, files: map<string, string>, files0: map<string, string>,
                    dirs: map<string, int>, denied: set<string>, n: string)
    requires SameLoads(spool, files, files0, dirs, denied)
    ensures Loads(spool, files, dirs, denied, "", n) == Loads(spool, files0, dirs, denied, "", n)
  {
  }

  /** Writing the ".info" of a group that loads keeps the same groups loading. */
  lemma LoadsKeptSame(spool: string, files: map<string, string>, files0: map<string, string>,
                      dirs: map<string, int>, denied: set<string>, a: string, text: string)
    requires SameLoads(spool, files, files0, dirs, denied) && Loads(spool, files, dirs, denied, "", a)
    ensures SameLoads(spool, files[InfoPath(GroupDir(spool, a)) := text], files0, dirs, denied)
  {
    LoadsKept(spool, files, dirs, denied, "", a, text);
  }

  /**
   * Every group of gs is valid, carries the creation time stamp, and holds
   * the settings its ".config" on files0 gives.
   */
  ghost predicate Entries(gs: seq<GroupState>, spool: string, files0: map<string, string>, dirs: map<string, int>, stamp: int) {
    forall i :: 0 <= i < |gs| ==>
      gs[i].valid && gs[i].ctime == stamp &&
      ConfigLoaded(DefaultConf, gs[i].conf, files0, dirs, GroupDir(spool, gs[i].name))
  }

  /** A group loaded with the settings of files1, which has files0's ".config" files, extends Entries. */
  lemma EntriesStep(spool: string, files0: map<string, string>, files1: map<string, string>, dirs: map<string, int>,
                    stamp: int, listed: seq<GroupState>, g: GroupState)
    requires Entries(listed, spool, files0, dirs, stamp) && SameConfigs(files1, files0)
    requires g.valid && g.ctime == stamp && ConfigLoaded(DefaultConf, g.conf, files1, dirs, GroupDir(spool, g.name))
    ensures Entries(listed + [g], spool, files0, dirs, stamp)
  {
    var l := listed + [g];
    forall i | 0 <= i < |l|
      ensures l[i].valid && l[i].ctime == stamp && ConfigLoaded(DefaultConf, l[i].conf, files0, dirs, GroupDir(spool, l[i].name))
    {
      if i == |listed| {
        var d := GroupDir(spool, g.name);
        assert ConfigPath(d) in files1 <==> ConfigPath(d) in files0;
      } else {
        assert l[i] == listed[i];
      }
    }
  }

  /** The ".info" paths of the groups gs. */
  function ListedInfos(spool: string, gs: seq<GroupState>): (r: set<string>)
    ensures forall i :: 0 <= i < |gs| ==> InfoPath(GroupDir(spool, gs[i].name)) in r
    decreases |gs|
  {
    if gs == [] then {} else ListedInfos(spool, gs[..|gs| - 1]) + {InfoPath(GroupDir(spool, gs[|gs| - 1].name))}
  }

  /** files differs from files0 only in the ".info" files of the groups gs. */
  ghost predicate InfosOnly(files: map<string, string>, files0: map<string, string>, spool: string, gs: seq<GroupState>) {
    forall p :: p !in ListedInfos(spool, gs) ==> (p in files <==> p in files0) && (p in files ==> files[p] == files0[p])
  }

  /** Listing one more group, whose load may write its ".info", keeps InfosOnly. */
  lemma InfosStep(spool: string, files0: map<string, string>, files1: map<string, string>, files2: map<string, string>,
                  n: string, listed: seq<GroupState>, g: Option<GroupState>, text: string)
    requires InfosOnly(files1, files0, spool, listed)
    requires g.Some? ==> g.value.name == n && (files2 == files1 || files2 == files1[InfoPath(GroupDir(spool, n)) := text])
    requires g.None? ==> files2 == files1
    ensures InfosOnly(files2, files0, spool, if g.Some? then listed + [g.value] else listed)
  {
    if g.Some? {
      var l := listed + [g.value];
      assert l[..|l| - 1] == listed;
      assert ListedInfos(spool, l) == ListedInfos(spool, listed) + {InfoPath(GroupDir(spool, n))};
    }
  }

  /**
   * The state of ListGroups after t names of the walk ns: the groups listed
   * are those of ns[..t] that load on the spool before the listing (files0),
   * the files written since change neither which groups load nor any
   * ".config", and only the ".info" files of the groups listed, and every
   * group listed is valid, stamped with the given creation time, and holds
   * the settings its ".config" gives.
   */
  ghost predicate Listed(spool: string, files0: map<string, string>, files: map<string, string>, dirs: map<string, int>,
                         denied: set<string>, stamp: int, ns: seq<string>, t: nat, listed: seq<GroupState>)
  {
    t <= |ns| &&
    GroupNames(listed) == LoadingNames(spool, files0, dirs, denied, ns[..t]) &&
    SameLoads(spool, files, files0, dirs, denied) &&
    SameConfigs(files, files0) && InfosOnly(files, files0, spool, listed) &&
    Entries(listed, spool, files0, dirs, stamp)
  }

  /**
   * A listing of the walk ns names exactly the groups that load on the
   * spool (files0, dirs, denied), in order; each is valid, carries the
   * creation time stamp, and holds the settings its ".config" gives. The
   * spool files after it differ from files0 at most in the ".info" files of
   * the groups listed, and have the same ".config" files.
   */
  ghost predicate ListsGroups(gs: seq<GroupState>, spool: string, files0: map<string, string>,
                              files: map<string, string>, dirs: map<string, int>,
                              denied: set<string>, stamp: int, ns: seq<string>)
  {
    GroupNames(gs) == LoadingNames(spool, files0, dirs, denied, ns) &&
    Entries(gs, spool, files0, dirs, stamp) && SameConfigs(files, files0) && InfosOnly(files, files0, spool, gs)
  }

  /** The LIST variants, in the order the session tries them; no argument means ACTIVE. */
  datatype ListSub = Extensions | ActiveList | TimesList | Distributions | NewsgroupsList | OverviewFmt | Subscriptions | UnknownList

  function ListSubOf(sub: string): ListSub {
    if EqualsIgnoreCase(sub, "EXTENSIONS") then Extensions
    else if EqualsIgnoreCase(sub, "ACTIVE") || sub == "" then ActiveList
    else if EqualsIgnoreCase(sub, "ACTIVE.TIMES") then TimesList
    else if EqualsIgnoreCase(sub, "DISTRIBUTIONS") || EqualsIgnoreCase(sub, "DISTRIB.PATS") then Distributions
    else if EqualsIgnoreCase(sub, "NEWSGROUPS") then NewsgroupsList
    else if EqualsIgnoreCase(sub, "OVERVIEW.FMT") then OverviewFmt
    else if EqualsIgnoreCase(sub, "SUBSCRIPTIONS") then Subscriptions
    else UnknownList
  }

  /** The loop step of a listing: one more group's line. */
  lemma ListingStep(pre: seq<Write>, kind: Listing, gs: seq<GroupState>, g: GroupState)
    ensures pre + ListingText(kind, gs) + [Reply(ListingLine(kind, g))] == pre + ListingText(kind, gs + [g])
  {
    assert (gs + [g])[..|gs|] == gs;
  }

  /**
   * LISTGROUP as written sets the current article with Article::Load(num),
   * which loads from the group the article was last loaded from: once
   * another group is selected, the article it reads is not the selected
   * group's.
   */
  lemma ListGroupReadsOldGroup(cfg: Settings, g0: string, name: string, n: nat, file: Option<string>)
    requires g0 != "" && g0 != name && |g0| < GROUP_MAX
    ensures ArticleLoaded(g0, cfg, g0, n, file).group == g0 != name
    ensures ArticleLoaded(g0, cfg, g0, n, file).filename == ArticlePath(cfg, g0, n)
  {
  }

  /** Loading by the selected group's name reads that group's file, whatever the article held before. */
  lemma ListGroupReadsSelectedGroup(cfg: Settings, g0: string, name: string, n: nat, file: Option<string>)
    requires |name| < GROUP_MAX
    ensures ArticleLoaded(g0, cfg, name, n, file).group == name
    ensures ArticleLoaded(g0, cfg, name, n, file).filename == ArticlePath(cfg, name, n)
    ensures ArticleLoaded(g0, cfg, name, n, file).number == n
  {
  }

  /** Article n of group g lies under the spool at "/" followed by g's first character. */
  lemma ArticlePathLead(cfg: Settings, g: string, n: nat)
    requires g != [] && g[0] != '.'
    ensures |ArticlePath(cfg, g, n)| > |cfg.spoolDir| + 1 && ArticlePath(cfg, g, n)[|cfg.spoolDir| + 1] == g[0]
  {
    ArticlePathParts(cfg, g, n);
    var a := cfg.spoolDir + "/" + Replaced(g, '.', '/');
    assert a[|cfg.spoolDir| + 1] == Replaced(g, '.', '/')[0] == g[0];
  }

  /**
   * The discrepancy on two groups: when the current article came from
   * alt.old, LISTGROUP comp.new as written loads article n of alt.old, a
   * file that is not article n of comp.new.
   */
  lemma ListGroupOldGroupExample(cfg: Settings, n: nat, file: Option<string>)
    ensures var s := ArticleLoaded("alt.old", cfg, "alt.old", n, file);
      s.group == "alt.old" && s.filename == ArticlePath(cfg, "alt.old", n) &&
      s.filename != ArticlePath(cfg, "comp.new", n)
  {
    ListGroupReadsOldGroup(cfg, "alt.old", "comp.new", n, file);
    ArticlePathLead(cfg, "alt.old", n);
    ArticlePathLead(cfg, "comp.new", n);
  }

  /** Corrected, the same LISTGROUP comp.new loads article n of comp.new, not of alt.old. */
  lemma ListGroupSelectedGroupExample(cfg: Settings, n: nat, file: Option<string>)
    ensures var s := ArticleLoaded("alt.old", cfg, "comp.new", n, file);
      s.group == "comp.new" && s.filename == ArticlePath(cfg, "comp.new", n) &&
      s.filename != ArticlePath(cfg, "alt.old", n)
  {
    ListGroupReadsSelectedGroup(cfg, "alt.old", "comp.new", n, file);
    ArticlePathLead(cfg, "alt.old", n);
    ArticlePathLead(cfg, "comp.new", n);
  }

  /**
   * What POST does with a collected message msg on a spool whose files and
   * directories were files0 and dirs0: the message is split at its empty
   * line, this server goes first in Path, and the result is filed as
   * PostFiled describes, with the spam filter's verdict on that header and body.
   */
  ghost predicate PostOutcome(cfg: Settings, ovs: seq<string>, remoteip: string, date: string, now: int,
                              spam: (seq<string>, seq<string>) -> FilterVerdict, msg: string,
                              fs: FileSystem, files0: map<string, string>, dirs0: map<string, int>,
                              sent0: seq<Write>, sent: seq<Write>, mail0: seq<string>, mail: seq<string>,
                              posted: bool, err: string, head: seq<string>, body: seq<string>, path: string,
                              tconf: GroupConf, counters: Info, number: nat)
    reads fs
  {
    var p := GroupHeaders.Split(CStr(msg), 0, true, "", Parsed([], []));
    var h0 := PathUpdated(p.head, cfg.serverName);
    PostFiled(cfg, ovs, remoteip, date, now, spam(h0, p.body), h0, p.body, fs, files0, dirs0, sent0, sent, mail0, mail,
          posted, err, head, body, path, tconf, counters, number)
  }

  /**
   * What POST does with header h0 and body body0 once they are parsed: a
   * fresh Group files them as Filing describes (the posting switch is not
   * forced), and the session answers 240 and mails the copy the group's
   * settings ask for, or answers 441 with the reason err. sent0/sent and
   * mail0/mail are the writes and the mail before and after; path is the
   * file of a posted article.
   */
  ghost predicate PostFiled(cfg: Settings, ovs: seq<string>, remoteip: string, date: string, now: int, verdict: FilterVerdict,
                        h0: seq<string>, body0: seq<string>,
                        fs: FileSystem, files0: map<string, string>, dirs0: map<string, int>,
                        sent0: seq<Write>, sent: seq<Write>, mail0: seq<string>, mail: seq<string>,
                        posted: bool, err: string, head: seq<string>, body: seq<string>, path: string,
                        tconf: GroupConf, counters: Info, number: nat)
    reads fs
  {
    Filing(cfg, ovs, remoteip, date, now, false, verdict, Info(0, 0, 0), DefaultConf, h0, body0, fs.denied,
           files0, dirs0, fs.files, fs.dirs, posted, err, head, tconf, counters, number) &&
    (!posted ==> sent == sent0 + [Formatted(PostRefused(err))] && mail == mail0) &&
    (posted ==>
      PostGroup(h0, 0).Some? && body == body0 && sent == sent0 + [Reply(POSTED)] &&
      path == NumberPath(GroupDir(cfg.spoolDir, PostGroup(h0, 0).value), cfg.msgModDirs != 0, number) &&
      mail == mail0 + if tconf.ccpost != "-" then [PostCopy(MailOf(tconf), PreservedText(head, POST_FIELDS), body)] else [])
  }

  /**
   * What a message id finds in group directory d with counters lo..hi: the
   * number an id of the form "<N-..." gives; otherwise the first number
   * from lo to hi whose article file carries the id, and nothing when none
   * does (a match at number 0 counts as none, since 0 is the error value).
   */
  ghost predicate IdLookup(fs: FileSystem, d: string, lo: nat, hi: nat, id: string, target: Option<nat>)
    reads fs
  {
    (FastNumber(id).Some? ==> target == Some(FastNumber(id).value)) &&
    (FastNumber(id).None? && target.Some? ==>
      lo <= target.value <= hi && FoundAt(fs, d, id, target.value) &&
      forall t :: lo <= t < target.value ==> !FoundAt(fs, d, id, t)) &&
    (FastNumber(id).None? && target.None? ==>
      (lo == 0 && FoundAt(fs, d, id, 0)) || forall t :: lo <= t <= hi ==> !FoundAt(fs, d, id, t))
  }

  class Server {
    const conf: Configuration
    const fs: FileSystem
    /** The session's current group and current article. */
    const group: Group
    const article: Article
    /** The overview field names (LIST OVERVIEW.FMT, XOVER). */
    const overview: seq<string>
    const remoteip: string
    /** The group names the spool walk of AllGroups finds. */
    const groups: seq<string>
    /** The time DATE reports, the Date header stamped on posts, and the time a new directory gets. */
    const clock: Tm
    const date: string
    const now: int
    /** The spam filter's verdict on a header and body. */
    const spam: (seq<string>, seq<string>) -> FilterVerdict
    /** The writes made to the client so far, in order. */
    var out: seq<Write>
    /** The messages piped to sendmail for ccpost copies. */
    var mailed: seq<string>
    var errmsg: string
    /** CommandLoop's AUTHINFO state: a pending AUTHINFO SIMPLE, and the saved user and password. */
    var authSimple: bool
    var authUser: string
    var authPass: string

    /**
     * Between commands the spool is consistent, the current group holds no
     * lock, and no password is kept.
     */
    ghost predicate Valid()
      reads this, fs, group
    {
      fs.Valid() && group.lock == Unlocked && authPass == ""
    }

    constructor (conf: Configuration, fs: FileSystem, overview: seq<string>, remoteip: string, groups: seq<string>,
                 clock: Tm, date: string, now: int, spam: (seq<string>, seq<string>) -> FilterVerdict)
      requires fs.Valid()
      ensures Valid() && this.conf == conf && this.fs == fs && this.overview == overview && this.remoteip == remoteip
      ensures this.groups == groups && this.clock == clock && this.date == date && this.now == now && this.spam == spam
      ensures fresh(group) && fresh(article) && group.State() == GroupState(Info(0, 0, 0), DefaultConf, "", 0, false)
      ensures article.State() == ArticleState("", "", 0, false, NoHeaders, "")
      ensures out == [] && mailed == [] && errmsg == "" && !authSimple && authUser == "" && authPass == ""
    {
      this.conf := conf;
      this.fs := fs;
      this.overview := overview;
      this.remoteip := remoteip;
      this.groups := groups;
      this.clock := clock;
      this.date := date;
      this.now := now;
      this.spam := spam;
      group := new Group();
      article := new Article();
      out := [];
      mailed := [];
      errmsg := "";
      authSimple := false;
      authUser := "";
      authPass := "";
    }

    /** Send: one write of the message as a C string, then CR LF (see Line). */
    method Send(msg: string)
      modifies this`out
      ensures out == old(out) + [Reply(msg)]
    {
      out := out + [Reply(msg)];
    }

    /** sprintf into the reply buffer, then Send: one formatted reply. */
    method SendReport(r: Report)
      modifies this`out
      ensures out == old(out) + [Formatted(r)]
    {
      out := out + [Formatted(r)];
    }

    /** IsAllowed: an operation the configuration does not allow is answered with 480 and skipped. */
    method IsAllowed(op: AuthBits) returns (ok: bool)
      modifies this`out
      ensures ok == conf.IsAuthAllowed(op)
      ensures out == old(out) + (if ok then [] else [Reply(AUTH_REQUIRED)])
    {
      if !conf.IsAuthAllowed(op) {
        Send(AUTH_REQUIRED);
        return false;
      }
      return true;
    }

    /**
     * ValidGroup: a name with "..", or with a character other than a
     * letter, a digit or a dot, is refused before the spool is looked at;
     * otherwise spool/name must exist.
     */
    method ValidGroup(name: string) returns (rc: int)
      modifies this`errmsg
      ensures var r := GroupRefusal(name, fs.Exists(conf.spoolDir + "/" + name));
        (rc == 0 <==> r == "") && (rc == 0 || rc == -1) && (rc == -1 ==> errmsg == r) && (rc == 0 ==> errmsg == old(errmsg))
    {
      if HasDotDot(name) {
        errmsg := "illegal groupname";
        return -1;
      }
      var t := 0;
      while t < |name|
        invariant 0 <= t <= |name|
        invariant forall i :: 0 <= i < t ==> GroupNameChar(name[i])
      {
        if !GroupNameChar(name[t]) {
          errmsg := "illegal chars in groupname";
          return -1;
        }
        t := t + 1;
      }
      var dirname := conf.spoolDir + "/" + name;
      if !fs.Exists(dirname) {
        errmsg := "group does not exist";
        return -1;
      }
      return 0;
    }

    /** NewGroup: a name ValidGroup accepts, then loaded as the current group. */
    method NewGroup(name: string) returns (rc: int)
      requires Valid()
      modifies this`errmsg, group, fs`files
      ensures Valid()
      ensures var r := old(GroupRefusal(name, fs.Exists(conf.spoolDir + "/" + name)));
        (rc == 0 <==> r == "" && group.valid) && (rc == 0 || rc == -1) &&
        (r != "" ==> errmsg == r && group.State() == old(group.State()) && fs.files == old(fs.files)) &&
        (r == "" ==> (rc == 0 <==> old(Loads(conf.spoolDir, fs.files, fs.dirs, fs.denied, group.name, name)))) &&
        (rc == 0 ==> group.name == name) &&
        (r == "" && rc == -1 ==> errmsg == group.errmsg && fs.files == old(fs.files))
      ensures rc == 0 ==> InfoOnly(fs.files, old(fs.files), GroupDir(conf.spoolDir, name), group.info)
    {
      rc := ValidGroup(name);
      if rc < 0 {
        return -1;
      }
      rc := group.Load(conf.Current(), fs, name, true);
      if rc < 0 {
        errmsg := group.errmsg;
        return -1;
      }
      return 0;
    }

    /** The line after AUTHINFO SIMPLE: its first two words are the user and the password. */
    method AuthContinue(user: string, pass: string)
      requires authSimple
      modifies this`out, this`authSimple, this`authUser, this`authPass, conf`authFlags, conf`slept
      ensures !authSimple
      ensures user == "" || pass == "" ==>
        out == old(out) + [Reply(BAD_ARGUMENT)] && authUser == old(authUser) && authPass == old(authPass) &&
        conf.authFlags == old(conf.authFlags) && conf.slept == old(conf.slept)
      ensures user != "" && pass != "" ==>
        authUser == "" && authPass == "" &&
        var ok := user == conf.authUser && pass == conf.authPass;
        conf.authFlags == (if ok then conf.authProtect else AUTH_FAIL) &&
        conf.slept == old(conf.slept) + (if !ok && conf.authSleep > 0 then [conf.authSleep] else []) &&
        out == old(out) + [Reply(if ok then AUTH_ACCEPTED else AUTH_REJECTED)]
    {
      authSimple := false;
      if user == "" || pass == "" {
        Send(BAD_ARGUMENT);
        return;
      }
      authUser := user;
      authPass := pass;
      var rc := conf.AuthLogin(authUser, authPass);
      if rc < 0 {
        Send(AUTH_REJECTED);
      } else {
        Send(AUTH_ACCEPTED);
      }
      authUser := "";
      authPass := "";
    }

    /**
     * AUTHINFO SIMPLE, USER, PASS and GENERIC (RFC 2980 section 3.1). With
     * authentication not needed SIMPLE, USER and PASS answer 281; PASS
     * needs a saved user; every login attempt clears the saved values.
     */
    method Authinfo(sub: string, value: string)
      requires !authSimple
      modifies this`out, this`authSimple, this`authUser, this`authPass, conf`authFlags, conf`slept
      ensures old(out) <= out
      ensures var needed := old(conf.IsAuthNeeded());
        var simple := EqualsIgnoreCase(sub, "SIMPLE"); var userCmd := EqualsIgnoreCase(sub, "USER");
        var passCmd := EqualsIgnoreCase(sub, "PASS");
        (authSimple <==> simple && needed) &&
        ((simple || userCmd || passCmd) && !needed ==> out == old(out) + [Reply(NO_AUTH_NEEDED)]) &&
        (simple && needed ==> out == old(out) + [Reply(GO_AHEAD)]) &&
        (!simple && (userCmd || passCmd) && needed && value == "" ==> out == old(out) + [Reply(BAD_ARGUMENT)]) &&
        (!simple && userCmd && needed && value != "" ==> out == old(out) + [Reply(SUPPLY_PASSWORD)] && authUser == value) &&
        (!simple && !userCmd && passCmd && needed && value != "" && old(authUser) == "" ==>
          out == old(out) + [Reply(USER_FIRST)]) &&
        (!simple && !userCmd && !passCmd && EqualsIgnoreCase(sub, "GENERIC") ==> out == old(out) + [Reply(NO_GENERIC)]) &&
        (!simple && !userCmd && !passCmd && !EqualsIgnoreCase(sub, "GENERIC") ==> out == old(out) + [Reply(BAD_ARGUMENT)])
      ensures var ok := old(authUser) == conf.authUser && value == conf.authPass;
        var attempt := !EqualsIgnoreCase(sub, "SIMPLE") && !EqualsIgnoreCase(sub, "USER") &&
          EqualsIgnoreCase(sub, "PASS") && old(conf.IsAuthNeeded()) && value != "" && old(authUser) != "";
        (attempt ==>
          authUser == "" && authPass == "" &&
          conf.authFlags == (if ok then conf.authProtect else AUTH_FAIL) &&
          conf.slept == old(conf.slept) + (if !ok && conf.authSleep > 0 then [conf.authSleep] else []) &&
          out == old(out) + [Reply(if ok then AUTH_OK else AUTH_FAILED)]) &&
        (!attempt ==> conf.authFlags == old(conf.authFlags) && conf.slept == old(conf.slept) && authPass == old(authPass))
    {
      if EqualsIgnoreCase(sub, "SIMPLE") {
        if !conf.IsAuthNeeded() {
          Send(NO_AUTH_NEEDED);
          return;
        }
        Send(GO_AHEAD);
        authSimple := true;
      } else if EqualsIgnoreCase(sub, "USER") {
        if !conf.IsAuthNeeded() {
          Send(NO_AUTH_NEEDED);
          return;
        }
        if value == "" {
          Send(BAD_ARGUMENT);
          return;
        }
        authUser := value;
        Send(SUPPLY_PASSWORD);
      } else if EqualsIgnoreCase(sub, "PASS") {
        if !conf.IsAuthNeeded() {
          Send(NO_AUTH_NEEDED);
          return;
        }
        if value == "" {
          Send(BAD_ARGUMENT);
          return;
        }
        if authUser == "" {
          Send(USER_FIRST);
          return;
        }
        authPass := value;
        var rc := conf.AuthLogin(authUser, authPass);
        if rc < 0 {
          Send(AUTH_FAILED);
        } else {
          Send(AUTH_OK);
        }
        authUser := "";
        authPass := "";
      } else if EqualsIgnoreCase(sub, "GENERIC") {
        Send(NO_GENERIC);
      } else {
        Send(BAD_ARGUMENT);
      }
    }

    /** MODE STREAM is refused, MODE READER greets again, anything else is not understood. */
    method Mode(sub: string)
      modifies this`out
      ensures out == old(out) + [Reply(if EqualsIgnoreCase(sub, "stream") then NO_STREAMING
                                     else if EqualsIgnoreCase(sub, "reader") then READER_READY else WHAT)]
    {
      if EqualsIgnoreCase(sub, "stream") {
        Send(NO_STREAMING);
      } else if EqualsIgnoreCase(sub, "reader") {
        Send(READER_READY);
      } else {
        Send(WHAT);
      }
    }

    /**
     * GROUP (RFC 977): load the named group as the current group; on
     * failure answer 411 and put the previous group back; on success make
     * its first article the current article and answer 211.
     */
    method SelectGroup(arg: string) returns (ghost loaded: bool)
      requires Valid()
      modifies this`out, group, article, fs`files
      ensures old(out) <= out
      ensures Valid()
      ensures arg != "" ==> (loaded <==> old(Loads(conf.spoolDir, fs.files, fs.dirs, fs.denied, group.name, arg)))
      ensures !loaded ==> fs.files == old(fs.files)
      ensures loaded ==> InfoOnly(fs.files, old(fs.files), GroupDir(conf.spoolDir, arg), group.info)
      ensures arg == "" ==>
        !loaded && out == old(out) + [Reply(GROUP_SYNTAX)] &&
        group.State() == old(group.State()) && article.State() == old(article.State())
      ensures arg != "" && !loaded ==>
        out == old(out) + [Formatted(GroupMissing(group.errmsg))] &&
        group.State() == old(group.State()) && article.State() == old(article.State())
      ensures loaded ==>
        arg != "" && group.valid && group.name == arg &&
        var cfg := conf.Current(); var n := group.info.start;
        article.State() == ArticleLoaded(old(article.group), cfg, arg, n, fs.Read(ArticlePath(cfg, arg, n))) &&
        out == old(out) + [Formatted(Selected(group.info.total, n, group.info.end, arg))]
    {
      if arg == "" {
        Send(GROUP_SYNTAX);
        return false;
      }
      var cfg := conf.Current();
      var restore := new Group.Copy(group);
      var rc := group.Load(cfg, fs, arg, true);
      if rc < 0 {
        SendReport(GroupMissing(group.errmsg));
        group.Assign(restore);
        return false;
      }
      rc := article.Load(cfg, fs, group.name, group.info.start);
      SendReport(Selected(group.info.total, group.info.start, group.info.end, group.name));
      return true;
    }

    /**
     * NEXT (RFC 977): the article after the current one becomes current
     * when it lies in the group's range and loads; a failed load puts the
     * previous article back.
     */
    method Next()
      modifies this`out, article
      ensures old(out) <= out
      ensures !group.valid ==> out == old(out) + [Reply(NEXT_NO_GROUP)] && article.State() == old(article.State())
      ensures group.valid && !old(article.valid) ==>
        out == old(out) + [Reply(NO_CURRENT)] && article.State() == old(article.State())
      ensures var n := old(article.number) + 1;
        group.valid && old(article.valid) && !(group.info.start <= n <= group.info.end) ==>
          out == old(out) + [Reply(NO_NEXT)] && article.State() == old(article.State())
      ensures var n := old(article.number) + 1; var cfg := conf.Current();
        var st := ArticleLoaded(old(article.group), cfg, group.name, n, fs.Read(ArticlePath(cfg, group.name, n)));
        group.valid && old(article.valid) && group.info.start <= n <= group.info.end ==>
          (st.valid ==> article.State() == st && out == old(out) + [Formatted(Found(StatOnly, n, st.headers.messageid))]) &&
          (!st.valid ==> article.State() == old(article.State()) && out == old(out) + [Formatted(NextMissing(n, st.errmsg))])
    {
      var restore := article.State();
      if !group.valid {
        Send(NEXT_NO_GROUP);
        return;
      }
      if !article.valid {
        Send(NO_CURRENT);
        return;
      }
      var next := article.number + 1;
      if next < group.info.start || next > group.info.end {
        Send(NO_NEXT);
        return;
      }
      var rc := article.Load(conf.Current(), fs, group.name, next);
      if rc < 0 {
        SendReport(NextMissing(next, article.errmsg));
        article.Restore(restore);
        return;
      }
      SendReport(Found(StatOnly, next, article.headers.messageid));
    }

    /**
     * ARTICLE, HEAD, BODY and STAT (RFC 977): pick the article by message
     * id, by number or as the current one; check it against the group's
     * range; load it; answer with the status line and the text asked for.
     * A message id or no argument leaves the current article as it was; a
     * number makes the loaded article current; a failed load is kept.
     */
    method Retrieve(kind: Retrieval, arg: string) returns (target: Option<nat>)
      modifies this`out, article, group`dirname, group`errmsg
      ensures old(out) <= out
      ensures !group.valid ==> target.None? && out == old(out) + [Reply(NOT_IN_GROUP)] && article.State() == old(article.State())
      ensures group.valid && SelectorOf(arg) == Junk ==>
        target.None? && out == old(out) + [Reply(BAD_SELECTOR)] && article.State() == old(article.State())
      ensures group.valid && SelectorOf(arg).ByNumber? ==> target == Some(SelectorOf(arg).n)
      ensures group.valid && SelectorOf(arg) == Current ==> target == Some(old(article.number))
      ensures group.valid && SelectorOf(arg) == ByMessageId && target.None? ==>
        out == old(out) + [Reply(ID_NOT_FOUND)] && article.State() == old(article.State())
      ensures group.valid && SelectorOf(arg) == ByMessageId ==>
        IdLookup(fs, GroupDir(conf.spoolDir, group.name), group.info.start, group.info.end, arg, target)
      ensures target.Some? && !(group.info.start <= target.value <= group.info.end) ==>
        out == old(out) + [Formatted(OutsideRange(group.info.start, group.info.end))] && article.State() == old(article.State())
      ensures target.Some? && group.info.start <= target.value <= group.info.end ==>
        var n := target.value; var cfg := conf.Current(); var path := ArticlePath(cfg, group.name, n);
        var st := ArticleLoaded(old(article.group), cfg, group.name, n, fs.Read(path));
        (!st.valid ==> article.State() == st && out == old(out) + [Formatted(ArticleMissing(st.errmsg))]) &&
        (st.valid ==>
          out == old(out) + [Formatted(Found(kind, n, st.headers.messageid))] + Payload(kind, ValueOr(fs.Read(path), "")) &&
          article.State() == if SelectorOf(arg).ByNumber? then st else old(article.State()))
    {
      target := None;
      if !group.valid {
        Send(NOT_IN_GROUP);
        return;
      }
      var keep;
      target, keep := PickTarget(arg);
      if target.Some? {
        Fetch(kind, target.value, keep);
      }
    }

    /**
     * The first half of a retrieval: the article number the argument names,
     * and whether the current article is to be kept; None once the refusal
     * is sent.
     */
    method PickTarget(arg: string) returns (target: Option<nat>, keep: bool)
      requires group.valid
      modifies this`out, group`dirname, group`errmsg
      ensures SelectorOf(arg) == Junk ==> target.None? && out == old(out) + [Reply(BAD_SELECTOR)]
      ensures SelectorOf(arg).ByNumber? ==> target == Some(SelectorOf(arg).n) && !keep && out == old(out)
      ensures SelectorOf(arg) == Current ==> target == Some(article.number) && keep && out == old(out)
      ensures SelectorOf(arg) == ByMessageId && target.None? ==> out == old(out) + [Reply(ID_NOT_FOUND)]
      ensures SelectorOf(arg) == ByMessageId && target.Some? ==> keep && out == old(out)
      ensures SelectorOf(arg) == ByMessageId ==>
        IdLookup(fs, GroupDir(conf.spoolDir, group.name), group.info.start, group.info.end, arg, target)
    {
      if arg != [] && arg[0] == '<' {
        var rc, number := group.FindArticleByMessageID(conf.Current(), fs, arg);
        if rc < 0 {
          Send(ID_NOT_FOUND);
          return None, false;
        }
        return Some(number), true;
      } else if arg != [] && IsDigit(arg[0]) {
        LeadingDigitScans(arg);
        return Some(ScanULong(arg).value), false;
      } else if arg == [] {
        return Some(article.number), true;
      } else {
        Send(BAD_SELECTOR);
        return None, false;
      }
    }

    /**
     * The second half of a retrieval: check article n against the group's
     * range, load it and answer; when keep is set the current article is
     * put back as it was once the text is sent.
     */
    method Fetch(kind: Retrieval, n: nat, keep: bool)
      modifies this`out, article
      ensures !(group.info.start <= n <= group.info.end) ==>
        out == old(out) + [Formatted(OutsideRange(group.info.start, group.info.end))] && article.State() == old(article.State())
      ensures group.info.start <= n <= group.info.end ==>
        var cfg := conf.Current(); var path := ArticlePath(cfg, group.name, n);
        var st := ArticleLoaded(old(article.group), cfg, group.name, n, fs.Read(path));
        (!st.valid ==> article.State() == st && out == old(out) + [Formatted(ArticleMissing(st.errmsg))]) &&
        (st.valid ==>
          out == old(out) + [Formatted(Found(kind, n, st.headers.messageid))] + Payload(kind, ValueOr(fs.Read(path), "")) &&
          article.State() == if keep then old(article.State()) else st)
    {
      var restore := article.State();
      if n < group.info.start || n > group.info.end {
        SendReport(OutsideRange(group.info.start, group.info.end));
        return;
      }
      var cfg := conf.Current();
      ghost var file := fs.Read(ArticlePath(cfg, group.name, n));
      var rc := article.Load(cfg, fs, group.name, n);
      if rc < 0 {
        SendReport(ArticleMissing(article.errmsg));
        return;
      }
      SendReport(Found(kind, n, article.headers.messageid));
      SendText(kind, file.value);
      if keep {
        article.Restore(restore);
      }
    }

    /** The text after a retrieval's status line, read from the current article's file. */
    method SendText(kind: Retrieval, ghost file: string)
      requires fs.Read(article.filename) == Some(file)
      modifies this`out, article`errmsg
      ensures out == old(out) + Payload(kind, file)
      ensures article.errmsg == old(article.errmsg)
    {
      var rc, sent;
      match kind
      case WholeArticle =>
        rc, sent := article.SendArticle(fs, true, true);
        out := out + [Raw(sent)];
        Send(".");
      case HeadOnly =>
        rc, sent := article.SendHead(fs);
        out := out + [Raw(sent)];
        Send(".");
      case BodyOnly =>
        rc, sent := article.SendBody(fs);
        out := out + [Raw(sent)];
        Send("");
        Send(".");
      case StatOnly =>
    }

    /**
     * XOVER (RFC 2980 section 2.8): the overview records of the articles in
     * the clamped range that load, in ascending order, between 224 and ".".
     */
    method Xover(arg: string)
      modifies this`out
      ensures !group.valid ==> out == old(out) + [Reply(XOVER_NO_GROUP)]
      ensures group.valid ==> var r := XoverRange(arg, group.info.start, group.info.end);
        out == old(out) + [Reply(OVERVIEW_FOLLOWS)] + Overviews(conf.Current(), fs, overview, group.name, r.lo, r.hi + 1) +
               [Reply(END_OF_LIST)]
    {
      if !group.valid {
        Send(XOVER_NO_GROUP);
        return;
      }
      var cfg := conf.Current();
      var name := group.name;
      var r := XoverRange(arg, group.info.start, group.info.end);
      Send(OVERVIEW_FOLLOWS);
      SendOverviews(cfg, name, r.lo, r.hi);
      Send(END_OF_LIST);
    }

    /** XOVER's loop: the overview records of lo..hi in ascending order. */
    method SendOverviews(cfg: Settings, name: string, lo: nat, hi: nat)
      modifies this`out
      ensures out == old(out) + Overviews(cfg, fs, overview, name, lo, hi + 1)
    {
      ghost var line := LineTable(cfg, fs.files, fs.dirs, overview, name);
      if lo <= hi {
        LineTableTabulates(cfg, fs.files, fs.dirs, overview, name);
        SendOverviewRange(cfg, name, lo, hi, line);
      }
    }

    /** The loop itself, over a range that is not empty, whose lines line gives. */
    method SendOverviewRange(cfg: Settings, name: string, lo: nat, hi: nat, ghost line: nat -> seq<Write>)
      requires lo <= hi && Tabulates(line, cfg, fs.files, fs.dirs, overview, name)
      modifies this`out
      ensures out == old(out) + Sweep(line, lo, hi + 1)
    {
      ghost var before := out;
      var t := lo;
      while t <= hi
        invariant lo <= t <= hi + 1
        invariant out == before + Sweep(line, lo, t)
      {
        var w := ListedLine(cfg, name, t, line);
        out := out + w;
        t := t + 1;
      }
    }

    /** The body of XOVER's loop: article t's line. */
    method ListedLine(cfg: Settings, name: string, t: nat, ghost line: nat -> seq<Write>) returns (w: seq<Write>)
      requires Tabulates(line, cfg, fs.files, fs.dirs, overview, name)
      ensures w == line(t)
    {
      w := OverviewFor(cfg, name, t);
    }

    method OverviewFor(cfg: Settings, name: string, n: nat) returns (w: seq<Write>)
      ensures w == OverviewOf(cfg, fs.files, fs.dirs, overview, name, n)
    {
      var a := new Article();
      var rc := a.Load(cfg, fs, name, n);
      w := [];
      if rc == 0 {
        var reply := a.Overview(overview);
        w := [Reply(reply)];
      }
    }

    /** LISTGROUP's article numbers from the current group's Start to its End, between 211 and ".". */
    method ListNumbers()
      modifies this`out
      ensures out == old(out) + [Reply(NUMBERS_FOLLOW)] + NumberLines(group.info.start, group.info.end + 1) + [Reply(END_OF_LIST)]
    {
      Send(NUMBERS_FOLLOW);
      ghost var before := out;
      var lo, hi := group.info.start, group.info.end;
      var t := lo;
      ghost var stop := if lo <= hi then hi + 1 else lo;
      while t <= hi
        invariant lo <= t <= stop
        invariant out == before + NumberLines(lo, t)
      {
        Send(Ultos(t));
        NumberLinesStep(before, lo, t);
        t := t + 1;
      }
      if hi < lo {
        assert NumberLines(lo, t) == [] == NumberLines(lo, hi + 1);
      }
      Send(END_OF_LIST);
    }

    /**
     * The first half of LISTGROUP: an argument is loaded as the current
     * group (411 and the previous group back when it fails); without one a
     * current group must be selected (412).
     */
    method EnterListGroup(arg: string) returns (ok: bool)
      requires Valid()
      modifies this`out, group, fs`files
      ensures Valid()
      ensures arg != "" ==> (ok <==> old(Loads(conf.spoolDir, fs.files, fs.dirs, fs.denied, group.name, arg)))
      ensures arg != "" && !ok ==> out == old(out) + [Formatted(GroupMissing(group.errmsg))] && group.State() == old(group.State())
      ensures arg != "" && ok ==> out == old(out) && group.valid && group.name == arg
      ensures arg == "" ==>
        ok == old(group.valid) && group.State() == old(group.State()) &&
        out == old(out) + (if ok then [] else [Reply(NOT_IN_GROUP)])
      ensures arg == "" || !ok ==> fs.files == old(fs.files)
      ensures arg != "" && ok ==> InfoOnly(fs.files, old(fs.files), GroupDir(conf.spoolDir, arg), group.info)
    {
      var restore := new Group.Copy(group);
      if arg != "" {
        var rc := group.Load(conf.Current(), fs, arg, true);
        if rc < 0 {
          SendReport(GroupMissing(group.errmsg));
          group.Assign(restore);
          return false;
        }
      }
      if arg == "" && !group.valid {
        Send(NOT_IN_GROUP);
        return false;
      }
      return true;
    }

    /**
     * LISTGROUP as the source has it: the current article is set with
     * Article::Load(num), which loads from the group the current article
     * was last loaded from, not from the group just selected.
     */
    method ListGroupAsWritten(arg: string) returns (ok: bool)
      requires Valid()
      modifies this`out, group, article, fs`files
      ensures old(out) <= out
      ensures Valid()
      ensures arg != "" ==> (ok <==> old(Loads(conf.spoolDir, fs.files, fs.dirs, fs.denied, group.name, arg)))
      ensures arg != "" && !ok ==>
        out == old(out) + [Formatted(GroupMissing(group.errmsg))] && group.State() == old(group.State())
      ensures arg == "" && !ok ==>
        !old(group.valid) && out == old(out) + [Reply(NOT_IN_GROUP)] && group.State() == old(group.State())
      ensures arg == "" ==> ok == old(group.valid)
      ensures arg == "" || !ok ==> fs.files == old(fs.files)
      ensures arg != "" && ok ==> InfoOnly(fs.files, old(fs.files), GroupDir(conf.spoolDir, arg), group.info)
      ensures !ok ==> article.State() == old(article.State())
      ensures ok ==>
        group.valid && (arg != "" ==> group.name == arg) && (arg == "" ==> group.State() == old(group.State())) &&
        out == old(out) + [Reply(NUMBERS_FOLLOW)] + NumberLines(group.info.start, group.info.end + 1) + [Reply(END_OF_LIST)]
      ensures ok ==> var cfg := conf.Current(); var g0 := old(article.group); var n := group.info.start;
        (g0 == "" ==> article.State() == old(article.State()).(errmsg := "No group selected")) &&
        (g0 != "" ==> article.State() == ArticleLoaded(g0, cfg, g0, n, fs.Read(ArticlePath(cfg, g0, n))))
    {
      ok := EnterListGroup(arg);
      if !ok {
        return;
      }
      assert out == old(out);
      var rc := article.LoadFromGroup(conf.Current(), fs, group.info.start);
      ListNumbers();
    }

    /**
     * LISTGROUP (RFC 2980 section 2.5): select the group, make its first
     * article the current article, and list the group's article numbers.
     */
    method ListGroup(arg: string) returns (ok: bool)
      requires Valid()
      modifies this`out, group, article, fs`files
      ensures old(out) <= out
      ensures Valid()
      ensures arg != "" ==> (ok <==> old(Loads(conf.spoolDir, fs.files, fs.dirs, fs.denied, group.name, arg)))
      ensures arg != "" && !ok ==>
        out == old(out) + [Formatted(GroupMissing(group.errmsg))] &&
        group.State() == old(group.State()) && article.State() == old(article.State())
      ensures arg == "" && !ok ==>
        !old(group.valid) && out == old(out) + [Reply(NOT_IN_GROUP)] &&
        group.State() == old(group.State()) && article.State() == old(article.State())
      ensures arg == "" || !ok ==> fs.files == old(fs.files)
      ensures arg != "" && ok ==> InfoOnly(fs.files, old(fs.files), GroupDir(conf.spoolDir, arg), group.info)
      ensures ok ==>
        group.valid && (arg != "" ==> group.name == arg) && (arg == "" ==> group.State() == old(group.State())) &&
        var cfg := conf.Current(); var n := group.info.start;
        article.State() == ArticleLoaded(old(article.group), cfg, group.name, n, fs.Read(ArticlePath(cfg, group.name, n))) &&
        out == old(out) + [Reply(NUMBERS_FOLLOW)] + NumberLines(n, group.info.end + 1) + [Reply(END_OF_LIST)]
    {
      ok := EnterListGroup(arg);
      if !ok {
        return;
      }
      assert out == old(out);
      FirstAndNumbers();
    }

    /** The corrected tail of LISTGROUP: load the group's first article, then list the numbers. */
    method FirstAndNumbers()
      requires Valid()
      modifies this`out, article
      ensures Valid() && group.State() == old(group.State())
      ensures var cfg := conf.Current(); var n := group.info.start;
        article.State() == ArticleLoaded(old(article.group), cfg, group.name, n, fs.Read(ArticlePath(cfg, group.name, n))) &&
        out == old(out) + [Reply(NUMBERS_FOLLOW)] + NumberLines(n, group.info.end + 1) + [Reply(END_OF_LIST)]
    {
      var rc := article.Load(conf.Current(), fs, group.name, group.info.start);
      ListNumbers();
    }

    /**
     * The groups of the spool walk that load, in order, each written as a
     * line of the listing; a group that does not load is skipped. Loading
     * a group may write its ".info", which changes neither which groups
     * load nor their settings.
     */
    method ListGroups(kind: Listing) returns (ghost listed: seq<GroupState>)
      requires fs.Valid()
      modifies this`out, fs`files
      ensures fs.Valid()
      ensures out == old(out) + ListingText(kind, listed)
      ensures ListsGroups(listed, conf.spoolDir, old(fs.files), fs.files, fs.dirs, fs.denied, fs.Ctime(GroupDir(conf.spoolDir, "")), groups)
    {
      listed := [];
      var cfg := conf.Current();
      ghost var before, files0 := out, fs.files;
      ghost var stamp := fs.Ctime(GroupDir(cfg.spoolDir, ""));
      var t := 0;
      while t < |groups|
        invariant fs.Valid() && out == before + ListingText(kind, listed)
        invariant Listed(cfg.spoolDir, files0, fs.files, fs.dirs, fs.denied, stamp, groups, t, listed)
      {
        listed := ListOne(kind, cfg, t, listed, files0, before, stamp);
        t := t + 1;
      }
      assert groups[..t] == groups;
    }

    /** The step of ListGroups: the t-th name of the walk, listed when it loads. */
    method ListOne(kind: Listing, cfg: Settings, t: nat, ghost listed: seq<GroupState>, ghost files0: map<string, string>,
                   ghost before: seq<Write>, ghost stamp: int)
      returns (ghost listed': seq<GroupState>)
      requires t < |groups| && fs.Valid() && out == before + ListingText(kind, listed)
      requires stamp == fs.Ctime(GroupDir(cfg.spoolDir, ""))
      requires Listed(cfg.spoolDir, files0, fs.files, fs.dirs, fs.denied, stamp, groups, t, listed)
      modifies this`out, fs`files
      ensures fs.Valid() && out == before + ListingText(kind, listed')
      ensures Listed(cfg.spoolDir, files0, fs.files, fs.dirs, fs.denied, stamp, groups, t + 1, listed')
    {
      ghost var files1 := fs.files;
      var w, g := ListingFor(kind, cfg, groups[t]);
      out := out + w;
      ghost var text := if g.Some? then InfoText(g.value.info) else "";
      ListedNext(cfg.spoolDir, files0, files1, fs.files, fs.dirs, fs.denied, stamp, groups, t, listed, g, text);
      listed' := listed;
      if g.Some? {
        ListingStep(before, kind, listed, g.value);
        listed' := listed + [g.value];
      }
    }

    /** One group of a listing: load it into a fresh Group and take its line if it loads. */
    method ListingFor(kind: Listing, cfg: Settings, name: string) returns (w: seq<Write>, ghost g: Option<GroupState>)
      requires fs.Valid()
      modifies fs`files
      ensures fs.Valid()
      ensures g.Some? <==> Loads(cfg.spoolDir, old(fs.files), fs.dirs, fs.denied, "", name)
      ensures g.Some? ==>
        var d := GroupDir(cfg.spoolDir, name);
        g.value.valid && g.value.name == name && w == [Reply(ListingLine(kind, g.value))] &&
        g.value.ctime == fs.Ctime(GroupDir(cfg.spoolDir, "")) &&
        LoadedInfo(Info(0, 0, 0), g.value.info, old(fs.files), fs.dirs, d, cfg.msgModDirs != 0) &&
        ConfigLoaded(DefaultConf, g.value.conf, old(fs.files), fs.dirs, d) &&
        (fs.files == old(fs.files) || fs.files == old(fs.files)[InfoPath(d) := InfoText(g.value.info)])
      ensures g.None? ==> w == [] && fs.files == old(fs.files)
    {
      var tgroup := new Group();
      var rc := tgroup.Load(cfg, fs, name, true);
      if rc == 0 {
        g := Some(tgroup.State());
        w := [Reply(ListingLine(kind, tgroup.State()))];
      } else {
        g := None;
        w := [];
      }
    }

    /** LIST and its RFC 2980 variants, told apart in the order the session tries them. */
    method List(sub: string, pattern: string)
      requires fs.Valid()
      modifies this`out, fs`files
      ensures old(out) <= out
      ensures fs.Valid()
      ensures ListSubOf(sub) == Extensions ==> out == old(out) + [Reply(EXTENSIONS)] && fs.files == old(fs.files)
      ensures ListSubOf(sub) == ActiveList && EqualsIgnoreCase(sub, "ACTIVE") && pattern != "" ==>
        out == old(out) + [Reply(NO_WILDMAT)] && fs.files == old(fs.files)
      ensures ListSubOf(sub) == ActiveList && !(EqualsIgnoreCase(sub, "ACTIVE") && pattern != "") ==>
        exists gs :: out == old(out) + [Reply(GROUPS_FOLLOW)] + ListingText(Active, gs) + [Reply(END_OF_LIST)] &&
          ListsGroups(gs, conf.spoolDir, old(fs.files), fs.files, fs.dirs, fs.denied, fs.Ctime(GroupDir(conf.spoolDir, "")), groups)
      ensures ListSubOf(sub) == TimesList ==>
        exists gs :: out == old(out) + [Reply(INFO_FOLLOWS)] + ListingText(Times, gs) + [Reply(END_OF_LIST)] &&
          ListsGroups(gs, conf.spoolDir, old(fs.files), fs.files, fs.dirs, fs.denied, fs.Ctime(GroupDir(conf.spoolDir, "")), groups)
      ensures ListSubOf(sub) == NewsgroupsList ==>
        exists gs :: out == old(out) + [Reply(INFO_FOLLOWS)] + ListingText(Descriptions, gs) + [Reply(END_OF_LIST)] &&
          ListsGroups(gs, conf.spoolDir, old(fs.files), fs.files, fs.dirs, fs.denied, fs.Ctime(GroupDir(conf.spoolDir, "")), groups)
      ensures ListSubOf(sub) == Distributions ==> out == old(out) + [Reply(NOT_IMPLEMENTED)] && fs.files == old(fs.files)
      ensures ListSubOf(sub) == OverviewFmt ==>
        out == old(out) + [Reply(INFO_FOLLOWS)] + Replies(overview) + [Reply(END_OF_LIST)] && fs.files == old(fs.files)
      ensures ListSubOf(sub) == Subscriptions ==>
        out == old(out) + [Reply(INFO_FOLLOWS), Reply(SUBSCRIPTION), Reply(END_OF_LIST)] && fs.files == old(fs.files)
      ensures ListSubOf(sub) == UnknownList ==> out == old(out) + [Reply(LIST_SYNTAX)] && fs.files == old(fs.files)
    {
      match ListSubOf(sub)
      case Extensions =>
        Send(EXTENSIONS);
      case ActiveList =>
        if EqualsIgnoreCase(sub, "ACTIVE") && pattern != "" {
          Send(NO_WILDMAT);
          return;
        }
        ListingBlock(GROUPS_FOLLOW, Active);
      case TimesList =>
        ListingBlock(INFO_FOLLOWS, Times);
      case Distributions =>
        Send(NOT_IMPLEMENTED);
      case NewsgroupsList =>
        ListingBlock(INFO_FOLLOWS, Descriptions);
      case OverviewFmt =>
        Send(INFO_FOLLOWS);
        SendAll(overview);
        Send(END_OF_LIST);
      case Subscriptions =>
        Send(INFO_FOLLOWS);
        Send(SUBSCRIPTION);
        Send(END_OF_LIST);
      case UnknownList =>
        Send(LIST_SYNTAX);
    }

    /** Each message in turn, one Send each. */
    method SendAll(ls: seq<string>)
      modifies this`out
      ensures out == old(out) + Replies(ls)
    {
      var t := 0;
      while t < |ls|
        invariant 0 <= t <= |ls|
        invariant out == old(out) + Replies(ls[..t])
      {
        Send(ls[t]);
        assert ls[..t + 1] == ls[..t] + [ls[t]];
        t := t + 1;
      }
      assert ls[..t] == ls;
    }

    /** A listing between its status line and ".". */
    method ListingBlock(status: string, kind: Listing)
      requires fs.Valid()
      modifies this`out, fs`files
      ensures fs.Valid()
      ensures exists gs ::
        out == old(out) + [Reply(status)] + ListingText(kind, gs) + [Reply(END_OF_LIST)] &&
        ListsGroups(gs, conf.spoolDir, old(fs.files), fs.files, fs.dirs, fs.denied, fs.Ctime(GroupDir(conf.spoolDir, "")), groups)
    {
      Send(status);
      var gs := ListGroups(kind);
      Send(END_OF_LIST);
    }

    /** NEWGROUPS (RFC 977): after the date and time words check out, every group is listed. */
    method NewGroups(day: string, time: string)
      requires fs.Valid()
      modifies this`out, fs`files
      ensures old(out) <= out
      ensures fs.Valid()
      ensures NewGroupsError(day, time) != "" ==> out == old(out) + [Reply(NewGroupsError(day, time))] && fs.files == old(fs.files)
      ensures NewGroupsError(day, time) == "" ==>
        exists gs :: out == old(out) + [Reply(NEW_GROUPS_FOLLOW)] + ListingText(Names, gs) + [Reply(END_OF_LIST)] &&
          ListsGroups(gs, conf.spoolDir, old(fs.files), fs.files, fs.dirs, fs.denied, fs.Ctime(GroupDir(conf.spoolDir, "")), groups)
    {
      var e := NewGroupsError(day, time);
      if e != "" {
        Send(e);
        return;
      }
      ListingBlock(NEW_GROUPS_FOLLOW, Names);
    }

    /**
     * The mail copy of a posting for a group with ccpost set: the header
     * fields worth keeping, then the group's addresses and the body.
     */
    method CopyByMail(c: GroupConf, head: seq<string>, body: seq<string>)
      modifies this`mailed
      ensures mailed == old(mailed) + if c.ccpost != "-" then [PostCopy(MailOf(c), PreservedText(head, POST_FIELDS), body)] else []
    {
      if c.ccpost != "-" {
        var preserve := PreserveFields(head, POST_FIELDS);
        mailed := mailed + [PostCopy(MailOf(c), preserve, body)];
      }
    }

    /**
     * POST (RFC 977): read the article up to the terminating line, with the
     * line limit of the session's current group; a posting over it is
     * refused with 411; otherwise split it into header and body, put this
     * server first in Path and post it to the group its Newsgroups line
     * names, with the Path-updated header rewritten by Group::Post. The
     * session's group and article do not change.
     */
    method PostArticle(input: string, pos: nat) returns (next: nat, ghost posted: bool, ghost err: string, ghost head: seq<string>,
                                                         ghost body: seq<string>, ghost path: string, ghost tconf: GroupConf,
                                                         ghost counters: Info, ghost number: nat)
      requires Valid() && pos <= |input|
      modifies this`out, this`mailed, group`errmsg, fs`files, fs`dirs
      ensures old(out) <= out
      ensures Valid() && group.State() == old(group.State())
      ensures var c := Collect(input, group.conf.postlimit, Start(pos));
        next == c.pos && pos <= next <= |input| &&
        (c.toolong ==>
          !posted && fs.files == old(fs.files) && fs.dirs == old(fs.dirs) && mailed == old(mailed) &&
          out == old(out) + [Reply(SEND_ARTICLE)] + [Formatted(PostTooLong(group.conf.postlimit))]) &&
        (!c.toolong ==>
          PostOutcome(conf.Current(), overview, remoteip, date, now, spam, c.msg, fs, old(fs.files), old(fs.dirs),
                      old(out) + [Reply(SEND_ARTICLE)], out, old(mailed), mailed,
                      posted, err, head, body, path, tconf, counters, number))
    {
      posted, err, head, body, path, tconf, counters, number := false, "", [], [], "", DefaultConf, Info(0, 0, 0), 0;
      Send(SEND_ARTICLE);
      var msg, toolong;
      msg, toolong, next := CollectPost(input, pos, group.conf.postlimit);
      CollectEnds(input, group.conf.postlimit, Start(pos));
      if toolong {
        SendReport(PostTooLong(group.conf.postlimit));
        return;
      }
      posted, err, head, body, path, tconf, counters, number := PostCollected(msg);
    }

    /**
     * The second half of POST: split the collected message into header and
     * body, put this server first in Path, and post it to the group its
     * Newsgroups line names; a copy goes by mail when that group asks for one.
     */
    method PostCollected(msg: string) returns (ghost posted: bool, ghost err: string, ghost head: seq<string>,
                                               ghost body: seq<string>, ghost path: string, ghost tconf: GroupConf,
                                               ghost counters: Info, ghost number: nat)
      requires Valid()
      modifies this`out, this`mailed, group`errmsg, fs`files, fs`dirs
      ensures Valid() && group.State() == old(group.State())
      ensures PostOutcome(conf.Current(), overview, remoteip, date, now, spam, msg, fs, old(fs.files), old(fs.dirs),
                          old(out), out, old(mailed), mailed, posted, err, head, body, path, tconf, counters, number)
    {
      var cfg := conf.Current();
      var rc, header, bodyLines := group.ParseArticle(msg, [], []);
      header := group.UpdatePath(cfg, header);
      posted, err, head, body, path, tconf, counters, number := PostParsed(cfg, header, bodyLines, spam(header, bodyLines));
    }

    /** Post a parsed header and body to the group the header names, and answer. */
    method PostParsed(cfg: Settings, header: seq<string>, bodyLines: seq<string>, verdict: FilterVerdict)
      returns (ghost posted: bool, ghost err: string, ghost head: seq<string>, ghost body: seq<string>,
               ghost path: string, ghost tconf: GroupConf, ghost counters: Info, ghost number: nat)
      requires fs.Valid()
      modifies this`out, this`mailed, fs`files, fs`dirs
      ensures fs.Valid()
      ensures PostFiled(cfg, overview, remoteip, date, now, verdict, header, bodyLines, fs, old(fs.files), old(fs.dirs),
                    old(out), out, old(mailed), mailed, posted, err, head, body, path, tconf, counters, number)
    {
      posted, head, body, path, tconf := false, [], [], "", DefaultConf;
      var tgroup := new Group();
      var rc, h;
      rc, h, counters, number := tgroup.Post(cfg, fs, overview, header, bodyLines, remoteip, false, date, verdict, now);
      err := tgroup.errmsg;
      if rc < 0 {
        SendReport(PostRefused(tgroup.errmsg));
        return;
      }
      Send(POSTED);
      CopyByMail(tgroup.conf, h, bodyLines);
      posted, head, body, tconf := true, h, bodyLines, tgroup.conf;
      path := NumberPath(tgroup.dirname, cfg.msgModDirs != 0, number);
    }

    /** POST, for the dispatch: the input it reads and what it keeps. */
    method PostCommand(input: string, pos: nat) returns (next: nat)
      requires Valid() && pos <= |input|
      modifies this`out, this`mailed, group`errmsg, fs`files, fs`dirs
      ensures Valid() && pos <= next <= |input| && old(out) <= out
      ensures group.State() == old(group.State())
    {
      ghost var posted, err, head, body, path, tconf, counters, number;
      next, posted, err, head, body, path, tconf, counters, number := PostArticle(input, pos);
    }

    /** GROUP, LISTGROUP and NEXT: the commands that move the current group or article. */
    method GroupCommand(v: Verb, arg: string)
      requires Valid() && (v.GroupVerb? || v.ListGroupVerb? || v.NextVerb?)
      modifies this`out, group, article, fs`files
      ensures Valid() && old(out) <= out
    {
      if v.GroupVerb? {
        var _ := SelectGroup(arg);
      } else if v.ListGroupVerb? {
        var _ := ListGroup(arg);
      } else {
        Next();
      }
    }

    /** ARTICLE, HEAD, BODY, STAT and XOVER: the commands that read articles of the current group. */
    method ArticleCommand(v: Verb, arg: string)
      requires Valid() && (v.Fetch? || v.XoverVerb?)
      modifies this`out, group`dirname, group`errmsg, article
      ensures Valid() && old(out) <= out
    {
      if v.Fetch? {
        var _ := Retrieve(v.kind, arg);
      } else {
        Xover(arg);
      }
    }

    /** LIST and NEWGROUPS: the commands that list groups. */
    method ListingCommand(v: Verb, arg1: string, arg2: string)
      requires Valid() && (v.ListVerb? || v.NewGroupsVerb?)
      modifies this`out, fs`files
      ensures Valid() && old(out) <= out
    {
      if v.ListVerb? {
        List(arg1, arg2);
      } else {
        NewGroups(arg1, arg2);
      }
    }

    /**
     * One command of CommandLoop: the words after AUTHINFO SIMPLE are the
     * credentials; otherwise the command word's verb v picks the handler, behind
     * the read gate for the reading commands and the post gate for POST.
     * POST reads its article from the input after the command line.
     */
    method Execute(cmd: string, v: Verb, arg1: string, arg2: string, input: string, pos: nat) returns (next: nat, quit: bool)
      requires Valid() && pos <= |input|
      modifies this`out, this`mailed, this`authSimple, this`authUser, this`authPass, conf`authFlags, conf`slept
      modifies group, article, fs`files, fs`dirs
      ensures Valid() && pos <= next <= |input| && old(out) <= out
      ensures quit <==> !old(authSimple) && v == Quit
      ensures quit ==> out == old(out) + [Reply(GOODBYE)]
      ensures old(authSimple) ==>
        !authSimple && next == pos && group.State() == old(group.State()) && article.State() == old(article.State())
      ensures !old(authSimple) && ((NeedsRead(v) && !old(conf.IsAuthAllowed(AUTH_READ))) || (v == PostVerb && !old(conf.IsAuthAllowed(AUTH_POST)))) ==>
        out == old(out) + [Reply(AUTH_REQUIRED)] && next == pos &&
        group.State() == old(group.State()) && article.State() == old(article.State())
      ensures !old(authSimple) && v != PostVerb ==> next == pos
    {
      next, quit := pos, false;
      if authSimple {
        AuthContinue(cmd, arg1);
        return;
      }
      if NeedsRead(v) {
        var ok := IsAllowed(AUTH_READ);
        if !ok {
          return;
        }
      } else if v == PostVerb {
        var ok := IsAllowed(AUTH_POST);
        if !ok {
          return;
        }
      }
      next, quit := Dispatch(v, arg1, arg2, input, pos);
    }

    /** The handler of a command that passed its gate. */
    method Dispatch(v: Verb, arg1: string, arg2: string, input: string, pos: nat) returns (next: nat, quit: bool)
      requires Valid() && pos <= |input| && !authSimple
      modifies this`out, this`mailed, this`authSimple, this`authUser, this`authPass, conf`authFlags, conf`slept
      modifies group, article, fs`files, fs`dirs
      ensures Valid() && pos <= next <= |input| && old(out) <= out
      ensures quit <==> v == Quit
      ensures quit ==> out == old(out) + [Reply(GOODBYE)]
      ensures v != PostVerb ==> next == pos
    {
      next, quit := pos, false;
      match v
      case AuthInfo => Authinfo(arg1, arg2);
      case Check => Send(NOT_A_FEED);
      case TakeThis => Send(NOT_A_FEED);
      case ModeVerb => Mode(arg1);
      case ListVerb => ListingCommand(v, arg1, arg2);
      case ListGroupVerb => GroupCommand(v, arg1);
      case XReplic => Send(NO_XREPLIC);
      case XoverVerb => ArticleCommand(v, arg1);
      case GroupVerb => GroupCommand(v, arg1);
      case Help => Send(HELP_FOLLOWS); Send(HELP_TEXT);
      case NewGroupsVerb => ListingCommand(v, arg1, arg2);
      case NewNews => Send(NO_NEWNEWS);
      case NextVerb => GroupCommand(v, arg1);
      case Fetch(kind) => ArticleCommand(v, arg1);
      case PostVerb => next := PostCommand(input, pos);
      case DateVerb => SendReport(Clock(clock));
      case Quit => Send(GOODBYE); quit := true;
      case Unrecognised => Send(NOT_UNDERSTOOD);
    }

    /**
     * CommandLoop: greet, then read command lines until the client quits or
     * the connection ends; a line without a command word is skipped.
     */
    method CommandLoop(input: string) returns (ghost quit: bool)
      requires Valid()
      modifies this`out, this`mailed, this`authSimple, this`authUser, this`authPass, conf`authFlags, conf`slept
      modifies group, article, fs`files, fs`dirs
      ensures Valid() && old(out) + [Reply(GREETING)] <= out
    {
      Send(GREETING);
      ghost var greeted := out;
      var pos := 0;
      quit := false;
      while true
        invariant pos <= |input| && Valid() && greeted <= out
        decreases |input| - pos
      {
        var found, line, next := ReadCommand(input, pos);
        if !found {
          break;
        }
        match Tokenize(line)
        case Blank =>
          pos := next;
        case Command(c, a1, a2) =>
          var after, q := Execute(c, VerbOf(c), a1, a2, input, next);
          pos := after;
          if q {
            quit := true;
            break;
          }
      }
    }
  }
}
