/**
 * What the NNTP session writes for the commands that walk a range of
 * article numbers (XOVER, LISTGROUP) or send an article's text (ARTICLE,
 * HEAD, BODY, STAT), as functions of the spool. The session's output is
 * the sequence of its writes to the connection, one per Send.
 */
module NntpTranscript {
  import opened CLib
  import opened Subs
  import opened Configuration
  import opened Fs
  import opened Articles
  import opened ArticleObject
  import opened NntpReplies

  /** How ARTICLE, HEAD, BODY and STAT pick the article they work on. */
  datatype Selector = ByMessageId | ByNumber(n: nat) | Current | Junk

  /** A leading digit always reads as a number, so "501 bad article number" is never sent. */
  lemma LeadingDigitScans(s: string)
    requires s != [] && IsDigit(s[0])
    ensures ScanULong(s).Some?
  {
    assert SpaceEnd(s, 0) == 0;
    assert DigitEnd(s, 0) > 0;
  }

  /** An argument "<...>" is a message id, a leading digit a number, none the current article. */
  function SelectorOf(arg: string): Selector {
    if arg != [] && arg[0] == '<' then ByMessageId
    else if arg != [] && IsDigit(arg[0]) then LeadingDigitScans(arg); ByNumber(ScanULong(arg).value)
    else if arg == [] then Current
    else Junk
  }

  /**
   * What follows a retrieval's status line, write by write: the article, its
   * head or its body, then the end line; nothing for STAT.
   */
  function Payload(kind: Retrieval, file: string): seq<Write> {
    match kind
    case WholeArticle => [Raw(Sent(file, true, true)), Reply(".")]
    case HeadOnly => [Raw(Sent(file, true, false)), Reply(".")]
    case BodyOnly => [Raw(Sent(file, false, true)), Reply(""), Reply(".")]
    case StatOnly => []
  }

  /** The article a fresh Article holds after Load(name, n), on a spool with these files and directories. */
  function Fresh(cfg: Settings, files: map<string, string>, dirs: map<string, int>, name: string, n: nat): ArticleState {
    ArticleLoaded("", cfg, name, n, Opened(files, dirs, ArticlePath(cfg, name, n)))
  }

  /** XOVER's line for article n: its overview record when it loads, nothing when it does not. */
  function OverviewOf(cfg: Settings, files: map<string, string>, dirs: map<string, int>, ovs: seq<string>, name: string, n: nat): seq<Write> {
    var st := Fresh(cfg, files, dirs, name, n);
    if st.valid then [Reply(OverviewLine(n, st.headers, ovs))] else []
  }

  /** XOVER's line of every article number of the group. */
  function LineTable(cfg: Settings, files: map<string, string>, dirs: map<string, int>, ovs: seq<string>, name: string): nat -> seq<Write> {
    (n: nat) => OverviewOf(cfg, files, dirs, ovs, name, n)
  }

  /**
   * line holds XOVER's line for every number. Its instances are drawn only
   * where a line is computed, so a loop over the lines does not look inside
   * any of them.
   */
  ghost predicate Tabulates(line: nat -> seq<Write>, cfg: Settings, files: map<string, string>, dirs: map<string, int>, ovs: seq<string>, name: string) {
    forall n {:trigger OverviewOf(cfg, files, dirs, ovs, name, n)} :: line(n) == OverviewOf(cfg, files, dirs, ovs, name, n)
  }

  lemma LineTableTabulates(cfg: Settings, files: map<string, string>, dirs: map<string, int>, ovs: seq<string>, name: string)
    ensures Tabulates(LineTable(cfg, files, dirs, ovs, name), cfg, files, dirs, ovs, name)
  {
  }

  /** Appending to the last part of a three-part sequence. */
  lemma SnocPlace(a: seq<Write>, b: seq<Write>, c: seq<Write>, d: seq<Write>)
    ensures (a + b + c) + d == a + b + (c + d)
    ensures a + b == a + b + []
  {
  }

  /** The writes line(lo), ..., line(t - 1), one after the other. */
  function Sweep(line: nat -> seq<Write>, lo: nat, t: nat): seq<Write>
    decreases t
  {
    if t <= lo then [] else Sweep(line, lo, t - 1) + line(t - 1)
  }

  /** Every number k of a sweep has its place between the numbers before it and those after it. */
  lemma {:induction false} SweepAt(line: nat -> seq<Write>, lo: nat, k: nat, t: nat)
    requires lo <= k < t
    ensures Sweep(line, lo, t) == Sweep(line, lo, k) + line(k) + Sweep(line, k + 1, t)
    decreases t
  {
    if t - 1 > k {
      SweepAt(line, lo, k, t - 1);
      SnocPlace(Sweep(line, lo, k), line(k), Sweep(line, k + 1, t - 1), line(t - 1));
    } else {
      SnocPlace(Sweep(line, lo, k), line(k), [], []);
    }
  }

  /** A sweep over numbers with no writes writes nothing. */
  lemma {:induction false} SweepNone(line: nat -> seq<Write>, lo: nat, t: nat)
    requires forall n :: lo <= n < t ==> line(n) == []
    ensures Sweep(line, lo, t) == []
    decreases t
  {
    if t > lo {
      SweepNone(line, lo, t - 1);
    }
  }

  /** XOVER's lines for the numbers lo up to t - 1, in ascending order, one write each. */
  function Overviews(cfg: Settings, fs: FileSystem, ovs: seq<string>, name: string, lo: nat, t: nat): seq<Write>
    reads fs
  {
    Sweep(LineTable(cfg, fs.files, fs.dirs, ovs, name), lo, t)
  }

  /**
   * Every number k of the range has its place: the lines before it are
   * those of lo..k-1, then k's own line (empty when k does not load), then
   * those of k+1..t-1.
   */
  lemma OverviewsAt(cfg: Settings, fs: FileSystem, ovs: seq<string>, name: string, lo: nat, k: nat, t: nat)
    requires lo <= k < t
    ensures Overviews(cfg, fs, ovs, name, lo, t) ==
            Overviews(cfg, fs, ovs, name, lo, k) + OverviewOf(cfg, fs.files, fs.dirs, ovs, name, k) + Overviews(cfg, fs, ovs, name, k + 1, t)
  {
    SweepAt(LineTable(cfg, fs.files, fs.dirs, ovs, name), lo, k, t);
  }

  /** A range in which no article loads gets no lines at all. */
  lemma OverviewsNone(cfg: Settings, fs: FileSystem, ovs: seq<string>, name: string, lo: nat, t: nat)
    requires forall n :: lo <= n < t ==> !Fresh(cfg, fs.files, fs.dirs, name, n).valid
    ensures Overviews(cfg, fs, ovs, name, lo, t) == []
  {
    var line := LineTable(cfg, fs.files, fs.dirs, ovs, name);
    forall n | lo <= n < t
      ensures line(n) == []
    {
      assert !Fresh(cfg, fs.files, fs.dirs, name, n).valid;
    }
    SweepNone(line, lo, t);
  }

  /** LISTGROUP's lines for the numbers lo up to t - 1. */
  function NumberLines(lo: nat, t: nat): seq<Write>
    decreases t
  {
    if t <= lo then [] else NumberLines(lo, t - 1) + [Reply(Ultos(t - 1))]
  }

  /** The loop step of LISTGROUP: one more number written. */
  lemma NumberLinesStep(pre: seq<Write>, lo: nat, t: nat)
    requires lo <= t
    ensures pre + NumberLines(lo, t) + [Reply(Ultos(t))] == pre + NumberLines(lo, t + 1)
  {
    assert NumberLines(lo, t + 1) == NumberLines(lo, t) + [Reply(Ultos(t))];
  }

  /** Every number of lo..t-1 is listed once, in its place. */
  lemma {:induction false} NumberLinesAt(lo: nat, k: nat, t: nat)
    requires lo <= k < t
    ensures NumberLines(lo, t) == NumberLines(lo, k) + [Reply(Ultos(k))] + NumberLines(k + 1, t)
    decreases t
  {
    if t - 1 > k {
      NumberLinesAt(lo, k, t - 1);
      SnocPlace(NumberLines(lo, k), [Reply(Ultos(k))], NumberLines(k + 1, t - 1), [Reply(Ultos(t - 1))]);
    } else {
      SnocPlace(NumberLines(lo, k), [Reply(Ultos(k))], [], []);
    }
  }
}
