/**
 * The program's entry points besides the NNTP session: the mail-to-news
 * gateway run from a mail alias (newsd -mailgateway group), which reads a
 * mail message from standard input and posts it to the group, and the
 * scan of the command line that chooses what the program does.
 */
module Newsd {
  import opened CLib
  import opened Subs
  import opened Configuration
  import opened Fs
  import opened Articles
  import opened Groups
  import opened GroupHeaders
  import opened GroupObject
  import opened MailCopy

  /** The header fields the overview database lists, in order (newsd.C). */
  const OVERVIEW: seq<string> := ["Subject:", "From:", "Date:", "Message-ID:", "References:", "Bytes:",
                                  "Lines:", "Xref:full", "Reply-To:"]

  /** %d */
  function Decimal(i: int): string {
    if i < 0 then "-" + Ultos(-i) else Ultos(i)
  }

  /* ------------------------------------------------------ collecting mail */

  /** The collect loop's variables: the line counters, the too-long flag, the message. */
  datatype Gathering = Gathering(linechars: int, linecount: int, toolong: bool, msg: string)

  /** What a byte of mail becomes in the posting: CR is dropped, LF becomes CR LF. */
  function Piece(c: char): string {
    if c == '\r' then "" else if c == '\n' then "\r\n" else [c]
  }

  /** The first k bytes of the mail with their line ends made CR LF. */
  function Normalized(input: string, k: nat): string
    requires k <= |input|
  {
    if k == 0 then "" else Normalized(input, k - 1) + Piece(input[k - 1])
  }

  /**
   * One byte of the collect loop: CR is skipped; any other byte is counted
   * (a line ends at LF or after 80 bytes) and stored unless the line count
   * has passed a positive limit, which marks the message too long instead.
   */
  function Took(g: Gathering, c: char, limit: int): Gathering {
    if c == '\r' then g
    else
      var chars := g.linechars + 1;
      var wrap := chars > 80 || c == '\n';
      var count := if wrap then g.linecount + 1 else g.linecount;
      var g1 := g.(linechars := if wrap then 0 else chars, linecount := count);
      if limit > 0 && count > limit then g1.(toolong := true) else g1.(msg := g.msg + Piece(c))
  }

  /** The collect loop after the first k bytes, started on the message msg0. */
  function Gathered(input: string, limit: int, msg0: string, k: nat): Gathering
    requires k <= |input|
  {
    if k == 0 then Gathering(0, 0, false, msg0) else Took(Gathered(input, limit, msg0, k - 1), input[k - 1], limit)
  }

  /**
   * The collect loop keeps the whole mail or marks it too long, and it is
   * too long exactly when a positive limit is passed. What it holds is
   * always the start of the whole mail, so a message over the limit is
   * never stored past the limit.
   */
  lemma {:induction false} GatheredMeaning(input: string, limit: int, msg0: string, k: nat)
    requires k <= |input|
    ensures var g := Gathered(input, limit, msg0, k);
      (g.toolong <==> limit > 0 && g.linecount > limit) &&
      (!g.toolong ==> g.msg == msg0 + Normalized(input, k)) &&
      g.msg <= msg0 + Normalized(input, k)
  {
    if k > 0 {
      GatheredMeaning(input, limit, msg0, k - 1);
      var g0 := Gathered(input, limit, msg0, k - 1);
      var whole := msg0 + Normalized(input, k - 1);
      assert msg0 + Normalized(input, k) == whole + Piece(input[k - 1]);
      assert whole <= whole + Piece(input[k - 1]);
    }
  }

  /** With no positive limit the gateway keeps the whole mail. */
  lemma UnlimitedKeepsAll(input: string, limit: int, msg0: string)
    requires limit <= 0
    ensures !Gathered(input, limit, msg0, |input|).toolong
    ensures Gathered(input, limit, msg0, |input|).msg == msg0 + Normalized(input, |input|)
  {
    GatheredMeaning(input, limit, msg0, |input|);
  }

  /** The collect loop of the gateway, reading until the input ends. */
  method GatherMail(input: string, limit: int, msg0: string) returns (msg: string, toolong: bool)
    ensures msg == Gathered(input, limit, msg0, |input|).msg
    ensures toolong == Gathered(input, limit, msg0, |input|).toolong
  {
    var linechars, linecount := 0, 0;
    toolong, msg := false, msg0;
    var i := 0;
    while i < |input|
      invariant i <= |input|
      invariant Gathered(input, limit, msg0, i) == Gathering(linechars, linecount, toolong, msg)
    {
      var c := input[i];
      i := i + 1;
      if c == '\r' {
        continue;
      }
      linechars := linechars + 1;
      if linechars > 80 || c == '\n' {
        linechars, linecount := 0, linecount + 1;
      }
      if limit > 0 && linecount > limit {
        toolong := true;
        continue;
      }
      if c == '\n' {
        msg := msg + "\r";
      }
      msg := msg + [c];
    }
  }

  /** The two lines the gateway puts before the mail: the group, and the gateway's mark. */
  function GatewayHeader(group: string, version: string): string {
    "Newsgroups: " + group + "\r\n" + "X-Mail-To-News-Gateway: via newsd " + version + "\r\n"
  }

  /* ------------------------------------------------------ massaging headers */

  /** A mail's "From " envelope line. */
  predicate IsFromLine(h: string) {
    HasPrefixIgnoreCase(h, "From ")
  }

  /** A header that marks a mail loop. */
  predicate IsLoopLine(h: string) {
    HasPrefixIgnoreCase(h, "X-Newsd-Loop:") || HasPrefixIgnoreCase(h, "X-Loop:")
  }

  /** A "From " line becomes "X-Original-From: " with the rest kept; other lines stay. */
  function Rewrite(h: string): string {
    if IsFromLine(h) then "X-Original-From: " + h[5..] else h
  }

  /** The header walk ends with the header passed on, or caught at a loop line. */
  datatype Massage = Passed(head: seq<string>) | Caught(at: nat, head: seq<string>)

  /**
   * The header walk from line t: a "From " line is rewritten, the first
   * other line that marks a loop stops the walk.
   */
  function Massaged(hs: seq<string>, t: nat): Massage
    requires t <= |hs|
    decreases |hs| - t
  {
    if t == |hs| then Passed(hs)
    else if IsFromLine(hs[t]) then Massaged(hs[t := Rewrite(hs[t])], t + 1)
    else if IsLoopLine(hs[t]) then Caught(t, hs)
    else Massaged(hs, t + 1)
  }

  /** A "From " line never reads as a loop mark. */
  lemma FromIsNoLoop(h: string)
    requires IsFromLine(h)
    ensures !IsLoopLine(h)
  {
    assert ToLower(h[0]) == 'f';
  }

  /**
   * A walk from t that passes rewrites every line from t on and finds no
   * loop mark among them; the lines before t are kept.
   */
  lemma {:induction false} PassedMeaning(hs: seq<string>, t: nat)
    requires t <= |hs| && Massaged(hs, t).Passed?
    ensures var r := Massaged(hs, t).head;
      |r| == |hs| &&
      (forall k :: 0 <= k < |hs| ==> r[k] == if k < t then hs[k] else Rewrite(hs[k])) &&
      (forall k :: t <= k < |hs| ==> !IsLoopLine(hs[k]))
    decreases |hs| - t
  {
    if t < |hs| {
      var hs1 := hs[t := Rewrite(hs[t])];
      if IsFromLine(hs[t]) {
        PassedMeaning(hs1, t + 1);
        FromIsNoLoop(hs[t]);
      } else {
        assert hs1 == hs;
        PassedMeaning(hs, t + 1);
      }
      WalkStep(hs, t, hs1, Massaged(hs, t).head, Rewrite, IsLoopLine);
    }
  }

  /**
   * One line of a walk that passes: rewriting line t with f, when it is not
   * bad, extends the rewritten part of the result by that line.
   */
  lemma WalkStep(hs: seq<string>, t: nat, hs1: seq<string>, r: seq<string>, f: string -> string, bad: string -> bool)
    requires t < |hs| && hs1 == hs[t := f(hs[t])] && !bad(hs[t])
    requires |r| == |hs1| && forall k :: 0 <= k < |hs1| ==> r[k] == if k < t + 1 then hs1[k] else f(hs1[k])
    requires forall k :: t + 1 <= k < |hs1| ==> !bad(hs1[k])
    ensures |r| == |hs| && forall k :: 0 <= k < |hs| ==> r[k] == if k < t then hs[k] else f(hs[k])
    ensures forall k :: t <= k < |hs| ==> !bad(hs[k])
  {
    forall k | t <= k < |hs|
      ensures !bad(hs[k])
    {
      if k > t {
        assert hs1[k] == hs[k];
      }
    }
  }

  /**
   * A walk from t that is caught stops at the first line from t on that
   * marks a loop; the lines between are rewritten, all others kept.
   */
  lemma {:induction false} CaughtMeaning(hs: seq<string>, t: nat)
    requires t <= |hs| && Massaged(hs, t).Caught?
    ensures var m := Massaged(hs, t);
      t <= m.at < |hs| && IsLoopLine(hs[m.at]) && |m.head| == |hs| &&
      (forall k :: 0 <= k < |hs| ==> m.head[k] == if t <= k < m.at then Rewrite(hs[k]) else hs[k]) &&
      (forall k :: t <= k < m.at ==> !IsLoopLine(hs[k]))
    decreases |hs| - t
  {
    if IsFromLine(hs[t]) {
      var hs1 := hs[t := Rewrite(hs[t])];
      CaughtMeaning(hs1, t + 1);
      FromIsNoLoop(hs[t]);
    } else if !IsLoopLine(hs[t]) {
      CaughtMeaning(hs, t + 1);
    }
  }

  /** The walk is caught exactly when some line marks a loop. */
  lemma CaughtIff(hs: seq<string>)
    ensures Massaged(hs, 0).Caught? <==> exists k :: 0 <= k < |hs| && IsLoopLine(hs[k])
  {
    if Massaged(hs, 0).Caught? {
      CaughtMeaning(hs, 0);
    } else {
      PassedMeaning(hs, 0);
    }
  }

  /** The header walk of the gateway. */
  method MassageHeader(head: seq<string>) returns (m: Massage)
    ensures m == Massaged(head, 0)
  {
    var h := head;
    var t := 0;
    while t < |h|
      invariant t <= |h|
      invariant Massaged(h, t) == Massaged(head, 0)
    {
      if HasPrefixIgnoreCase(h[t], "From ") {
        var newfrom := "X-Original-From: " + h[t][5..];
        h := h[t := newfrom];
      } else if HasPrefixIgnoreCase(h[t], "X-Newsd-Loop:") || HasPrefixIgnoreCase(h[t], "X-Loop:") {
        return Caught(t, h);
      }
      t := t + 1;
    }
    return Passed(h);
  }

  /* ------------------------------------------------------ dead letters */

  /** Where dropped mail goes. */
  function DeadLetterPath(spoolDir: string): string {
    spoolDir + "/.deadletters"
  }

  /** A dropped message as the dead-letter file receives it: header, empty line, body, empty line. */
  function DeadLetterText(head: seq<string>, body: seq<string>): string {
    MessageText(head, body, "\n") + "\n"
  }

  lemma {:induction false} JoinedSnoc(ls: seq<string>, l: string, eol: string)
    ensures Joined(ls + [l], eol) == Joined(ls, eol) + l + eol
    decreases |ls|
  {
    if ls != [] {
      assert (ls + [l])[1..] == ls[1..] + [l];
      JoinedSnoc(ls[1..], l, eol);
    } else {
      assert Joined([l], eol) == l + eol + Joined([], eol);
    }
  }

  /** Read back on its own, a dead letter gives the dropped header and body (and the closing empty line). */
  lemma DeadLetterParses(head: seq<string>, body: seq<string>)
    requires head != [] && HeaderLines(head) && AllClean(body)
    ensures ParseArticle(DeadLetterText(head, body)) == Parsed(head, body + [""])
  {
    JoinedSnoc(body, "", "\n");
    assert DeadLetterText(head, body) == MessageText(head, body + [""], "\n");
    assert AllClean(body + [""]) by {
      forall k | 0 <= k < |body| + 1
        ensures Clean((body + [""])[k])
      {
        if k < |body| {
          assert (body + [""])[k] == body[k];
        }
      }
    }
    ParseMessage(head, body + [""], "\n");
  }

  /**
   * The spool after text is appended to file p, which is created empty
   * first if need be; a directory or a denied path cannot be opened and
   * gets nothing.
   */
  function Appended(files: map<string, string>, dirs: map<string, int>, denied: set<string>,
                    p: string, text: string): map<string, string>
  {
    if p in dirs || p in denied then files else files[p := (if p in files then files[p] else "") + text]
  }

  /** An append that can open its file leaves what it held followed by the text, and changes no other file. */
  lemma AppendedEnds(files: map<string, string>, dirs: map<string, int>, denied: set<string>, p: string, text: string)
    ensures var a := Appended(files, dirs, denied, p, text);
      (p in dirs || p in denied ==> a == files) &&
      (p !in dirs && p !in denied ==>
        p in a && EndsWith(a[p], text) && a[p][..|a[p]| - |text|] == if p in files then files[p] else "")
    ensures var a := Appended(files, dirs, denied, p, text);
      forall q :: q != p ==> (q in a <==> q in files) && (q in a ==> a[q] == files[q])
  {
  }

  /**
   * DeadLetter: append the message to the dead-letter file of the spool,
   * creating it if need be. A path that cannot be opened gets nothing.
   */
  method DeadLetter(cfg: Settings, fs: FileSystem, head: seq<string>, body: seq<string>)
    requires fs.Valid()
    modifies fs`files
    ensures fs.Valid()
    ensures fs.files == Appended(old(fs.files), old(fs.dirs), fs.denied, DeadLetterPath(cfg.spoolDir),
                                 DeadLetterText(head, body))
  {
    var p := DeadLetterPath(cfg.spoolDir);
    if p in fs.dirs || p in fs.denied {
      return;
    }
    if p !in fs.files {
      var _ := fs.WriteFile(p, "");
    }
    var h := JoinLines(head, "\n");
    var b := JoinLines(body, "\n");
    fs.Append(p, h + "\n" + b + "\n");
  }

  /* ------------------------------------------------------ the gateway */

  /** x is the tail of s. */
  predicate EndsWith(s: string, x: string) {
    |x| <= |s| && s[|s| - |x|..] == x
  }

  /** How the gateway ends. */
  datatype Outcome = UnknownGroup(err: string) | TooLong(limit: int) | NotPosted(err: string) | Looped(line: string) | Gatewayed

  /** What the gateway writes to standard error; nothing when the mail was posted. */
  function Complaint(group: string, builtSpool: string, o: Outcome): (text: string)
    ensures text == "" <==> o == Gatewayed
  {
    match o
    case UnknownGroup(err) => "newsd: Unknown group \"" + group + "\": " + err + "\n"
    case TooLong(limit) => "newsd: Article not posted to " + group + ": longer than " + Decimal(limit) + " lines.\n"
    case NotPosted(err) => "newsd: Article not posted to " + group + ": " + err + ".\n"
    case Looped(line) =>
      "newsd: -mailgateway " + group + ": NOT POSTED: '" + line + "' mail loop detected: message dropped to " +
      builtSpool + "/.deadletters\n"
    case Gatewayed => ""
  }

  /** Split appends to the header lines it is given, never drops them. */
  lemma {:induction false} SplitKeepsHead(t: string, i: nat, inHead: bool, line: string, p: Parsed)
    requires i <= |t|
    ensures p.head <= GroupHeaders.Split(t, i, inHead, line, p).head
    decreases |t| - i
  {
    if i < |t| {
      if t[i] == '\r' {
        SplitKeepsHead(t, i + 1, inHead, line, p);
      } else if t[i] == '\n' {
        var q := Filed(p, inHead, line);
        assert p.head <= q.head;
        if inHead && At(t, i + 1) == '\r' && At(t, i + 2) == '\n' {
          SplitKeepsHead(t, i + 3, false, "", q);
        } else if inHead && At(t, i + 1) == '\n' {
          SplitKeepsHead(t, i + 2, false, "", q);
        } else {
          SplitKeepsHead(t, i + 1, inHead, "", q);
        }
      } else {
        SplitKeepsHead(t, i + 1, inHead, line + [t[i]], p);
      }
    }
  }

  /** A group name the gateway's Newsgroups line carries whole: one word of at most 254 characters. */
  predicate PlainName(g: string) {
    0 < |g| <= 254 && NoSpace(g) && '\0' !in g
  }

  /** A clean first line ended by CR LF, and not followed by an empty line, is the first header line. */
  lemma FirstLineKept(l: string, rest: string)
    requires Clean(l) && rest != [] && rest[0] != '\r' && rest[0] != '\n' && rest[0] != '\0'
    ensures var p := ParseArticle(l + "\r\n" + rest);
      p.head != [] && p.head[0] == l
  {
    var msg := l + "\r\n" + rest;
    var n := |l| + 3;
    forall m | 0 <= m < n
      ensures msg[m] != '\0'
    {
      if m < |l| {
        assert msg[m] == l[m];
      } else if m == |l| + 2 {
        assert msg[m] == rest[0];
      }
    }
    var t := CStr(msg);
    assert |t| >= n;
    forall m | 0 <= m < n
      ensures t[m] == msg[m]
    {
      assert t[m] == msg[..|t|][m];
    }
    assert t[0..|l| + 2] == l + "\r\n" by {
      forall m | 0 <= m < |l| + 2
        ensures t[0..|l| + 2][m] == (l + "\r\n")[m]
      {
        assert t[m] == msg[m];
      }
    }
    assert At(t, |l| + 2) == rest[0] by {
      assert t[|l| + 2] == msg[|l| + 2];
    }
    SplitLine(t, 0, true, Parsed([], []), l, "\r\n");
    SplitKeepsHead(t, |l| + 2, true, "", Filed(Parsed([], []), true, l));
  }

  /** The gateway's own Newsgroups line is the first line of the parsed header. */
  lemma GatewayHeadFirst(group: string, version: string, mail: string)
    requires PlainName(group)
    ensures var p := ParseArticle(GatewayHeader(group, version) + mail);
      p.head != [] && p.head[0] == "Newsgroups: " + group
  {
    var l := "Newsgroups: " + group;
    var rest := "X-Mail-To-News-Gateway: via newsd " + version + "\r\n" + mail;
    assert GatewayHeader(group, version) + mail == l + "\r\n" + rest;
    assert Clean(l) by {
      forall m | 0 <= m < |l|
        ensures l[m] != '\r' && l[m] != '\n' && l[m] != '\0'
      {
        if m >= 12 {
          assert l[m] == group[m - 12];
        }
      }
    }
    FirstLineKept(l, rest);
  }

  /** That line names the group: it is a Newsgroups line whose word is the whole name. */
  lemma GatewayLineNames(group: string)
    requires PlainName(group)
    ensures NewsgroupsWord("Newsgroups: " + group) == Some(group)
    ensures !IsPath("Newsgroups: " + group) && !IsFromLine("Newsgroups: " + group)
    ensures !IsLoopLine("Newsgroups: " + group)
  {
    var l := "Newsgroups: " + group;
    assert l[12..] == group;
    SpaceEndAt(group, 0, 0);
    WordEndAt(group, 0, |group|);
    assert group[0..|group|] == group;
    assert ToLower(l[0]) == 'n';
  }

  /** UpdatePath leaves a first line that is not a Path line where it was. */
  lemma PathUpdatedFirst(hs: seq<string>, host: string)
    requires hs != [] && !IsPath(hs[0])
    ensures PathUpdated(hs, host) != [] && PathUpdated(hs, host)[0] == hs[0]
  {
  }

  /**
   * Whatever Newsgroups lines the mail carries, a passed header names the
   * gateway's group first, so the article goes to that group.
   */
  lemma GatewayTargetsGroup(group: string, version: string, mail: string, host: string)
    requires PlainName(group)
    ensures var m := Massaged(PathUpdated(ParseArticle(GatewayHeader(group, version) + mail).head, host), 0);
      m.Passed? ==> PostGroup(m.head, 0) == Some(group)
  {
    var hs := PathUpdated(ParseArticle(GatewayHeader(group, version) + mail).head, host);
    GatewayHeadFirst(group, version, mail);
    GatewayLineNames(group);
    PathUpdatedFirst(ParseArticle(GatewayHeader(group, version) + mail).head, host);
    var m := Massaged(hs, 0);
    if m.Passed? {
      PassedMeaning(hs, 0);
      assert m.head[0] == Rewrite(hs[0]) == hs[0];
    }
  }

  /** The mail copy the gateway sends for a posting under the settings c to group g. */
  function CopiesFor(c: GroupConf, g: string, h: seq<string>, body: seq<string>): seq<string> {
    if c.ccpost != "-" then [GatewayCopy(MailOf(c), g, PreservedText(h, GATEWAY_FIELDS), body)] else []
  }

  /**
   * What posting the massaged header head and body does, for a Group whose
   * counters and settings were i0 and c0, on a spool whose files and
   * directories were files0 and dirs0 and are files and dirs after: the
   * article is filed as Filing describes, forced and as from localhost; a
   * refusal is NotPosted with Post's message, and a posting goes to the
   * group the Newsgroups line names, at path, with the mail copy that
   * group's settings tconf ask for.
   */
  ghost predicate Delivered(cfg: Settings, date: string, now: int, verdict: FilterVerdict, i0: Info, c0: GroupConf,
                            head: seq<string>, body: seq<string>, denied: set<string>,
                            files0: map<string, string>, dirs0: map<string, int>,
                            files: map<string, string>, dirs: map<string, int>,
                            outcome: Outcome, mail: seq<string>, h: seq<string>, path: string,
                            tconf: GroupConf, counters: Info, number: nat)
  {
    (outcome.NotPosted? || outcome == Gatewayed) &&
    Filing(cfg, OVERVIEW, "localhost", date, now, true, verdict, i0, c0, head, body, denied, files0, dirs0, files, dirs,
           outcome == Gatewayed, if outcome.NotPosted? then outcome.err else "", h, tconf, counters, number) &&
    (outcome.NotPosted? ==> mail == []) &&
    (outcome == Gatewayed ==>
      PostGroup(head, 0).Some? &&
      path == NumberPath(GroupDir(cfg.spoolDir, PostGroup(head, 0).value), cfg.msgModDirs != 0, number) &&
      mail == CopiesFor(tconf, PostGroup(head, 0).value, h, body))
  }

  /**
   * Posting the massaged article: to the group its Newsgroups line names,
   * forced and as from localhost, with a mail copy when that group asks
   * for one.
   */
  method Deliver(cfg: Settings, fs: FileSystem, group: Group, head: seq<string>, body: seq<string>,
                 spam: (seq<string>, seq<string>) -> FilterVerdict, date: string, now: int)
    returns (outcome: Outcome, mail: seq<string>, h: seq<string>, ghost path: string,
             ghost counters: Info, ghost number: nat)
    requires fs.Valid() && group.lock == Unlocked
    modifies group, fs`files, fs`dirs
    ensures fs.Valid() && group.lock == Unlocked
    ensures outcome == Gatewayed ==> PostGroup(head, 0) == Some(group.name)
    ensures Delivered(cfg, date, now, spam(head, body), old(group.info), old(group.conf), head, body, fs.denied,
                      old(fs.files), old(fs.dirs), fs.files, fs.dirs, outcome, mail, h, path, group.conf, counters, number)
  {
    var rc;
    rc, h, counters, number := group.Post(cfg, fs, OVERVIEW, head, body, "localhost", true, date, spam(head, body), now);
    path := NumberPath(group.dirname, cfg.msgModDirs != 0, number);
    if rc < 0 {
      return NotPosted(group.errmsg), [], h, path, counters, number;
    }
    outcome, mail := Gatewayed, [];
    if group.IsCCPost() {
      var preserve := PreserveFields(h, GATEWAY_FIELDS);
      mail := [GatewayCopy(MailOf(group.conf), group.name, preserve, body)];
    }
  }

  /** Splitting the collected mail, putting this server first in Path, and the header walk. */
  method Bless(cfg: Settings, group: Group, msg: string) returns (m: Massage, body: seq<string>)
    modifies group`errmsg
    ensures var p := ParseArticle(msg);
      m == Massaged(PathUpdated(p.head, cfg.serverName), 0) && body == p.body
  {
    var rc, head;
    rc, head, body := group.ParseArticle(msg, [], []);
    head := group.UpdatePath(cfg, head);
    m := MassageHeader(head);
  }

  /**
   * What the gateway does with the header walk's result m and the body: a
   * caught loop appends the message to the dead letters and is Looped at
   * the line that caught it; any other mail is Delivered.
   */
  ghost predicate Disposed(cfg: Settings, date: string, now: int, verdict: FilterVerdict, i0: Info, c0: GroupConf,
                           m: Massage, body: seq<string>, denied: set<string>,
                           files0: map<string, string>, dirs0: map<string, int>,
                           files: map<string, string>, dirs: map<string, int>,
                           outcome: Outcome, mail: seq<string>, h: seq<string>, path: string,
                           tconf: GroupConf, counters: Info, number: nat)
  {
    (m.Caught? ==>
      m.at < |m.head| && outcome == Looped(m.head[m.at]) && mail == [] && dirs == dirs0 &&
      files == Appended(files0, dirs0, denied, DeadLetterPath(cfg.spoolDir), DeadLetterText(m.head, body))) &&
    (m.Passed? ==>
      Delivered(cfg, date, now, verdict, i0, c0, m.head, body, denied, files0, dirs0, files, dirs,
                outcome, mail, h, path, tconf, counters, number))
  }

  /** A looping mail goes to the dead letters; any other is delivered. */
  method Dispose(cfg: Settings, fs: FileSystem, group: Group, m: Massage, body: seq<string>,
                 spam: (seq<string>, seq<string>) -> FilterVerdict, date: string, now: int)
    returns (outcome: Outcome, mail: seq<string>, h: seq<string>, ghost path: string,
             ghost counters: Info, ghost number: nat)
    requires fs.Valid() && group.lock == Unlocked
    requires m.Caught? ==> m.at < |m.head|
    modifies group, fs`files, fs`dirs
    ensures fs.Valid()
    ensures outcome == Gatewayed ==> PostGroup(m.head, 0) == Some(group.name)
    ensures Disposed(cfg, date, now, spam(m.head, body), old(group.info), old(group.conf), m, body, fs.denied,
                     old(fs.files), old(fs.dirs), fs.files, fs.dirs, outcome, mail, h, path, group.conf, counters, number)
  {
    if m.Caught? {
      DeadLetter(cfg, fs, m.head, body);
      return Looped(m.head[m.at]), [], [], "", Info(0, 0, 0), 0;
    }
    outcome, mail, h, path, counters, number := Deliver(cfg, fs, group, m.head, body, spam, date, now);
  }

  /**
   * What the gateway does with the mail input once group groupname is
   * loaded with counters i0 and settings c0, on a spool whose files and
   * directories were files0 and dirs0 and are files and dirs after: the
   * line limit is c0's postlimit, the mail is collected after the
   * gateway's own header lines under that limit (TooLong, changing
   * nothing, when over it), split, Path-updated, walked and Disposed of.
   */
  ghost predicate Forwarded(cfg: Settings, version: string, groupname: string, input: string,
                            spam: (seq<string>, seq<string>) -> FilterVerdict, date: string, now: int, i0: Info, c0: GroupConf,
                            denied: set<string>, files0: map<string, string>, dirs0: map<string, int>,
                            files: map<string, string>, dirs: map<string, int>,
                            outcome: Outcome, mail: seq<string>, limit: int, m: Massage, body: seq<string>,
                            h: seq<string>, path: string, tconf: GroupConf, counters: Info, number: nat)
  {
    var g := Gathered(input, limit, GatewayHeader(groupname, version), |input|);
    limit == c0.postlimit && (outcome.TooLong? <==> g.toolong) &&
    (g.toolong ==> outcome == TooLong(limit) && mail == [] && files == files0 && dirs == dirs0) &&
    (!g.toolong ==>
      var p := ParseArticle(g.msg);
      m == Massaged(PathUpdated(p.head, cfg.serverName), 0) && body == p.body &&
      Disposed(cfg, date, now, spam(m.head, body), i0, c0, m, body, denied, files0, dirs0, files, dirs,
               outcome, mail, h, path, tconf, counters, number))
  }

  /**
   * The gateway after its group is loaded: collect the mail under the
   * group's line limit, bless it, and dispose of it.
   */
  method Forward(cfg: Settings, fs: FileSystem, group: Group, version: string, groupname: string, input: string,
                 spam: (seq<string>, seq<string>) -> FilterVerdict, date: string, now: int)
    returns (outcome: Outcome, mail: seq<string>, limit: int, m: Massage, body: seq<string>, h: seq<string>,
             ghost path: string, ghost counters: Info, ghost number: nat)
    requires fs.Valid() && group.lock == Unlocked
    modifies group, fs`files, fs`dirs
    ensures fs.Valid()
    ensures outcome.TooLong? || outcome.Looped? || outcome.NotPosted? || outcome == Gatewayed
    ensures Forwarded(cfg, version, groupname, input, spam, date, now, old(group.info), old(group.conf), fs.denied,
                      old(fs.files), old(fs.dirs), fs.files, fs.dirs, outcome, mail, limit, m, body, h, path,
                      group.conf, counters, number)
    ensures outcome == Gatewayed ==> PostGroup(m.head, 0) == Some(group.name)
    ensures outcome == Gatewayed && PlainName(groupname) ==> group.name == groupname
  {
    mail, m, body, h, path, counters, number := [], Passed([]), [], [], "", Info(0, 0, 0), 0;
    limit := group.conf.postlimit;
    var msg, toolong := GatherMail(input, limit, GatewayHeader(groupname, version));
    GatheredMeaning(input, limit, GatewayHeader(groupname, version), |input|);
    if toolong {
      return TooLong(limit), mail, limit, m, body, h, path, counters, number;
    }
    m, body := Bless(cfg, group, msg);
    ghost var hs := PathUpdated(ParseArticle(msg).head, cfg.serverName);
    if m.Caught? {
      CaughtMeaning(hs, 0);
    }
    if PlainName(groupname) {
      GatewayTargetsGroup(groupname, version, Normalized(input, |input|), cfg.serverName);
    }
    outcome, mail, h, path, counters, number := Dispose(cfg, fs, group, m, body, spam, date, now);
  }

  /**
   * What the gateway does for group groupname with the mail input, on a
   * spool whose files and directories were files0 and dirs0 and are files
   * and dirs after. The group is UnknownGroup, and nothing changes, exactly
   * when it does not load into a fresh Group; otherwise the mail is
   * Forwarded with the counters info0 and the settings its ".config" gives,
   * on the spool seen after the load, which differs from files0 at most in
   * the group's rebuilt ".info".
   */
  ghost predicate GatewayOutcome(cfg: Settings, version: string, groupname: string, input: string,
                                 spam: (seq<string>, seq<string>) -> FilterVerdict, date: string, now: int,
                                 denied: set<string>, files0: map<string, string>, dirs0: map<string, int>,
                                 files: map<string, string>, dirs: map<string, int>,
                                 outcome: Outcome, mail: seq<string>, limit: int, m: Massage, body: seq<string>,
                                 h: seq<string>, path: string, seen: map<string, string>, info0: Info,
                                 tconf: GroupConf, counters: Info, number: nat)
  {
    var d0 := GroupDir(cfg.spoolDir, groupname);
    (outcome.UnknownGroup? <==> !Loads(cfg.spoolDir, files0, dirs0, denied, "", groupname)) &&
    (outcome.UnknownGroup? ==> files == files0 && dirs == dirs0 && mail == []) &&
    (!outcome.UnknownGroup? ==>
      var c0 := ConfRead(DefaultConf, if ConfigPath(d0) in files0 then files0[ConfigPath(d0)] else "");
      InfoOnly(seen, files0, d0, info0) && LoadedInfo(Info(0, 0, 0), info0, files0, dirs0, d0, cfg.msgModDirs != 0) &&
      Forwarded(cfg, version, groupname, input, spam, date, now, info0, c0, denied, seen, dirs0, files, dirs,
                outcome, mail, limit, m, body, h, path, tconf, counters, number))
  }

  /**
   * MailGateway: load the group, collect the mail under the group's line
   * limit after the gateway's own header lines, split it into header and
   * body, put this server first in Path, rewrite "From " lines and drop a
   * looping mail into the dead-letter file; otherwise post it and mail the
   * group's copy. The exit status is 0 only when the article was posted,
   * and then to the group the gateway was given.
   */
  method MailGateway(cfg: Settings, fs: FileSystem, version: string, groupname: string, input: string,
                     spam: (seq<string>, seq<string>) -> FilterVerdict, date: string, now: int)
    returns (rc: int, outcome: Outcome, mail: seq<string>,
             limit: int, m: Massage, body: seq<string>, h: seq<string>,
             ghost path: string, ghost postedTo: string, ghost tconf: GroupConf,
             ghost seen: map<string, string>, ghost info0: Info, ghost counters: Info, ghost number: nat)
    requires fs.Valid()
    modifies fs`files, fs`dirs
    ensures fs.Valid()
    ensures rc == if outcome == Gatewayed then 0 else 1
    ensures GatewayOutcome(cfg, version, groupname, input, spam, date, now, fs.denied, old(fs.files), old(fs.dirs),
                           fs.files, fs.dirs, outcome, mail, limit, m, body, h, path, seen, info0, tconf, counters, number)
    ensures outcome == Gatewayed ==> PostGroup(m.head, 0) == Some(postedTo)
    ensures outcome == Gatewayed && PlainName(groupname) ==> postedTo == groupname
  {
    mail, limit, m, body, h, path, postedTo, tconf := [], 0, Passed([]), [], [], "", "", DefaultConf;
    counters, number := Info(0, 0, 0), 0;
    var group := new Group();
    var lrc := group.Load(cfg, fs, groupname, true);
    seen, info0 := fs.files, group.info;
    if lrc < 0 {
      return 1, UnknownGroup(group.errmsg), mail, limit, m, body, h, path, postedTo, tconf, seen, info0, counters, number;
    }
    outcome, mail, limit, m, body, h, path, counters, number := Forward(cfg, fs, group, version, groupname, input, spam, date, now);
    postedTo, tconf := group.name, group.conf;
    rc := if outcome == Gatewayed then 0 else 1;
  }

  /* ------------------------------------------------------ the command line */

  /** The settings the command line chooses. */
  datatype Options = Options(conffile: string, mailgateway: Option<string>, newgroup: bool,
                             dodebug: bool, dofork: bool, dorotate: bool)

  /** The scan ends with the settings, or with the usage text after a complaint ("" for -h). */
  datatype Flags = Run(opts: Options) | Usage(complaint: string)

  const NO_FILENAME: string := "newsd: Expected filename after \"-c\"!\n"
  const NO_GROUPNAME: string := "newsd: Expected groupname after \"-mailgateway\"!\n"

  /** The settings before any flag: the built-in configuration file, a forking server. */
  function Defaults(configFile: string): Options {
    Options(configFile, None, false, false, true, false)
  }

  /** The flags main knows. */
  datatype Flag = ConfigOpt | DebugOpt | NoForkOpt | HelpOpt | GatewayOpt | NewGroupOpt | RotateOpt | UnknownOpt

  /**
   * Which flag an argument is, compared as a C string in the order main
   * tests them: any argument starting with -h asks for the usage text.
   */
  function FlagOf(a: string): Flag {
    if a == "-c" then ConfigOpt
    else if a == "-d" then DebugOpt
    else if a == "-f" then NoForkOpt
    else if "-h" <= a then HelpOpt
    else if a == "-mailgateway" then GatewayOpt
    else if a == "-newgroup" then NewGroupOpt
    else if a == "-rotate" then RotateOpt
    else UnknownOpt
  }

  /** -c and -mailgateway take the next argument. */
  predicate TakesName(f: Flag) {
    f == ConfigOpt || f == GatewayOpt
  }

  /** What a flag sets; every flag but -c keeps the server in the foreground. */
  function Set(o: Options, f: Flag, name: string): Options {
    match f
    case ConfigOpt => o.(conffile := name)
    case DebugOpt => o.(dodebug := true, dofork := false)
    case NoForkOpt => o.(dofork := false)
    case GatewayOpt => o.(mailgateway := Some(name), dofork := false)
    case NewGroupOpt => o.(newgroup := true, dofork := false)
    case RotateOpt => o.(dorotate := true, dofork := false)
    case _ => o
  }

  /**
   * The scan of the arguments after the program name: a flag that takes a
   * name without one, -h and an unknown argument end it with the usage text.
   */
  function FlagsOf(args: seq<string>, o: Options): Flags
    decreases |args|
  {
    if args == [] then Run(o)
    else
      var a := CStr(args[0]);
      var f := FlagOf(a);
      if f == HelpOpt then Usage("")
      else if f == UnknownOpt then Usage("newsd: Unknown argument '" + a + "'\n")
      else if TakesName(f) then
        if |args| < 2 then Usage(if f == ConfigOpt then NO_FILENAME else NO_GROUPNAME)
        else FlagsOf(args[2..], Set(o, f, CStr(args[1])))
      else FlagsOf(args[1..], Set(o, f, ""))
  }

  /** The scan in main. */
  method ParseFlags(args: seq<string>, configFile: string) returns (flags: Flags)
    ensures flags == FlagsOf(args, Defaults(configFile))
  {
    var conffile, mailgateway, newgroup := configFile, None, false;
    var dodebug, dofork, dorotate := false, true, false;
    var t := 0;
    while t < |args|
      invariant t <= |args|
      invariant FlagsOf(args[t..], Options(conffile, mailgateway, newgroup, dodebug, dofork, dorotate)) ==
                FlagsOf(args, Defaults(configFile))
    {
      var a := CStr(args[t]);
      assert args[t..][1..] == args[t + 1..];
      match FlagOf(a) {
        case ConfigOpt =>
          t := t + 1;
          if t >= |args| {
            return Usage(NO_FILENAME);
          }
          assert args[t - 1..][2..] == args[t + 1..];
          conffile := CStr(args[t]);
        case DebugOpt =>
          dodebug, dofork := true, false;
        case NoForkOpt =>
          dofork := false;
        case HelpOpt =>
          return Usage("");
        case GatewayOpt =>
          t := t + 1;
          if t >= |args| {
            return Usage(NO_GROUPNAME);
          }
          assert args[t - 1..][2..] == args[t + 1..];
          mailgateway, dofork := Some(CStr(args[t])), false;
        case NewGroupOpt =>
          newgroup, dofork := true, false;
        case RotateOpt =>
          dorotate, dofork := true, false;
        case UnknownOpt =>
          return Usage("newsd: Unknown argument '" + a + "'\n");
      }
      t := t + 1;
    }
    return Run(Options(conffile, mailgateway, newgroup, dodebug, dofork, dorotate));
  }

  /** The arguments scan one after the other: a complete first part hands its settings to the rest. */
  lemma {:induction false} FlagsConcat(a: seq<string>, b: seq<string>, o: Options)
    requires FlagsOf(a, o).Run?
    ensures FlagsOf(a + b, o) == FlagsOf(b, FlagsOf(a, o).opts)
    decreases |a|
  {
    if a == [] {
      assert a + b == b;
    } else {
      var f := FlagOf(CStr(a[0]));
      assert (a + b)[0] == a[0];
      if TakesName(f) {
        assert (a + b)[1] == a[1];
        assert (a + b)[2..] == a[2..] + b;
        FlagsConcat(a[2..], b, Set(o, f, CStr(a[1])));
      } else {
        assert (a + b)[1..] == a[1..] + b;
        FlagsConcat(a[1..], b, Set(o, f, ""));
      }
    }
  }

  /** No flag turns forking back on. */
  lemma {:induction false} ForkStaysOff(args: seq<string>, o: Options)
    requires !o.dofork && FlagsOf(args, o).Run?
    ensures !FlagsOf(args, o).opts.dofork
    decreases |args|
  {
    if args != [] {
      var f := FlagOf(CStr(args[0]));
      if TakesName(f) {
        ForkStaysOff(args[2..], Set(o, f, CStr(args[1])));
      } else {
        ForkStaysOff(args[1..], Set(o, f, ""));
      }
    }
  }

  /** Debugging, the gateway, group creation and log rotation all run in the foreground. */
  predicate Foreground(o: Options) {
    o.dodebug || o.mailgateway.Some? || o.newgroup || o.dorotate ==> !o.dofork
  }

  lemma {:induction false} FlagsForeground(args: seq<string>, o: Options)
    requires Foreground(o) && FlagsOf(args, o).Run?
    ensures Foreground(FlagsOf(args, o).opts)
    decreases |args|
  {
    if args != [] {
      var f := FlagOf(CStr(args[0]));
      if TakesName(f) {
        FlagsForeground(args[2..], Set(o, f, CStr(args[1])));
      } else {
        FlagsForeground(args[1..], Set(o, f, ""));
      }
    }
  }

  /** An argument starting with -h is none of the flags compared before it. */
  lemma HelpFlag(x: string)
    requires "-h" <= x
    ensures FlagOf(x) == HelpOpt
  {
    assert x[1] == 'h';
  }

  /** An argument starting with -h, wherever a flag is read, ends the scan with the usage text. */
  lemma HelpAnywhere(a: seq<string>, f: string, b: seq<string>, o: Options)
    requires FlagsOf(a, o).Run? && "-h" <= CStr(f)
    ensures FlagsOf(a + [f] + b, o) == Usage("")
  {
    FlagsConcat(a, [f] + b, o);
    assert a + [f] + b == a + ([f] + b);
    HelpFlag(CStr(f));
  }

  /** -c or -mailgateway as the last argument is refused for the missing name. */
  lemma MissingName(a: seq<string>, f: string, o: Options)
    requires FlagsOf(a, o).Run? && (CStr(f) == "-c" || CStr(f) == "-mailgateway")
    ensures FlagsOf(a + [f], o) == Usage(if CStr(f) == "-c" then NO_FILENAME else NO_GROUPNAME)
  {
    FlagsConcat(a, [f], o);
    assert FlagOf("-mailgateway") == GatewayOpt by {
      assert "-mailgateway"[1] == 'm';
    }
  }

  /** A flag other than -c, wherever it is read, keeps the server from forking. */
  lemma ForegroundFlag(a: seq<string>, f: string, b: seq<string>, o: Options)
    requires FlagsOf(a, o).Run? && !TakesName(FlagOf(CStr(f)))
    requires FlagsOf(a + [f] + b, o).Run?
    ensures !FlagsOf(a + [f] + b, o).opts.dofork
  {
    FlagsConcat(a, [f] + b, o);
    assert a + [f] + b == a + ([f] + b);
    assert ([f] + b)[1..] == b;
    ForkStaysOff(b, Set(FlagsOf(a, o).opts, FlagOf(CStr(f)), ""));
  }

  /** What main goes on to do with the settings. */
  datatype Mode = RotateLogs | Gateway(group: string) | CreateGroup | Daemon(fork: bool)

  /** Log rotation comes first, then the gateway, then group creation; otherwise the server runs. */
  function ModeOf(o: Options): (r: Mode)
    ensures r.Daemon? ==> !o.dorotate && o.mailgateway.None? && !o.newgroup && r.fork == o.dofork
  {
    if o.dorotate then RotateLogs
    else if o.mailgateway.Some? then Gateway(o.mailgateway.value)
    else if o.newgroup then CreateGroup
    else Daemon(o.dofork)
  }

  /** Only the server can fork into the background. */
  lemma OnlyServerForks(args: seq<string>, configFile: string)
    requires FlagsOf(args, Defaults(configFile)).Run?
    ensures var o := FlagsOf(args, Defaults(configFile)).opts;
      !ModeOf(o).Daemon? ==> !o.dofork
  {
    FlagsForeground(args, Defaults(configFile));
  }
}
