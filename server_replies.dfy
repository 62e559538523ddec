/**
 * The texts of the NNTP session: how a reply goes on the wire, the fixed
 * replies, the formatted ones (cut to the reply buffer as snprintf cuts
 * them), and how a command word is recognised.
 */
module NntpReplies {
  import opened CLib
  import opened Subs
  import opened Configuration

  /** What Send writes for a message: the message as a C string, then CR LF. */
  function Line(msg: string): string {
    CStr(msg) + "\r\n"
  }

  /**
   * One write to the connection: a message sent with Send, a reply
   * formatted from values into the reply buffer and then sent, or an
   * article's text as Article::SendArticle writes it.
   */
  datatype Write = Reply(msg: string) | Formatted(report: Report) | Raw(text: string)

  /** The bytes a sequence of writes puts on the wire. */
  function Wire(ws: seq<Write>): string {
    Render(WireOf, ws)
  }

  /** The bytes one write puts on the wire. */
  function WireOf(w: Write): string {
    match w
    case Reply(m) => Line(m)
    case Formatted(r) => Line(ReportText(r))
    case Raw(t) => t
  }

  /** Writes rendered one after the other, each by f. */
  function Render(f: Write -> string, ws: seq<Write>): string
    decreases |ws|
  {
    if ws == [] then "" else Render(f, ws[..|ws| - 1]) + f(ws[|ws| - 1])
  }

  lemma {:induction false} RenderAppend(f: Write -> string, a: seq<Write>, b: seq<Write>)
    ensures Render(f, a + b) == Render(f, a) + Render(f, b)
    decreases |b|
  {
    if b == [] {
      assert a + b == a;
    } else {
      var init := b[..|b| - 1];
      assert (a + b)[..|a + b| - 1] == a + init;
      RenderAppend(f, a, init);
    }
  }

  /** The wire text of writes made one after the other is their texts one after the other. */
  lemma WireAppend(a: seq<Write>, b: seq<Write>)
    ensures Wire(a + b) == Wire(a) + Wire(b)
  {
    RenderAppend(WireOf, a, b);
  }

  /** snprintf into the reply buffer of LINE_LEN bytes: at most LINE_LEN - 1 characters are kept. */
  function Fit(s: string): (r: string)
    ensures |r| < LINE_LEN && |r| <= |s| && r == s[..|r|]
    ensures |s| < LINE_LEN ==> r == s
  {
    if |s| < LINE_LEN then s else s[..LINE_LEN - 1]
  }

  /** printf's %d. */
  function DecimalInt(i: int): string {
    if i < 0 then "-" + Ultos(-i) else Ultos(i)
  }

  /* ------------------------------------------------------- fixed replies */

  const GREETING: string := "200 newsd news server ready - posting ok"
  const AUTH_REQUIRED: string := "480 Authentication required"
  const BAD_ARGUMENT: string := "501 Bad or unknown argument"
  const AUTH_REJECTED: string := "452 Authorization rejected"
  const AUTH_ACCEPTED: string := "250 Authenticated OK"
  const NO_AUTH_NEEDED: string := "281 No authentication needed"
  const GO_AHEAD: string := "350 Go ahead with username and password"
  const SUPPLY_PASSWORD: string := "381 Now supply your password"
  const USER_FIRST: string := "482 User must be specified first"
  const AUTH_FAILED: string := "482 Authentication failed"
  const AUTH_OK: string := "281 Authenticated OK"
  const NO_GENERIC: string := "501 'AUTHINFO GENERIC' not supported"
  const NOT_A_FEED: string := "400 not accepting articles - we are not a news feed"
  const NO_STREAMING: string := "500 Streaming not implemented on this server"
  const READER_READY: string := "200 erco's newsd server ready (posting ok)"
  const WHAT: string := "500 What?"
  const NO_XREPLIC: string := "437 'xreplic' not implemented on this server"
  const NO_NEWNEWS: string := "501 Command not implemented on server"
  const GOODBYE: string := "205 goodbye."
  const NOT_UNDERSTOOD: string := "500 Command not understood"
  const GROUP_SYNTAX: string := "501 syntax error; expected 'GROUP <group-name>'"
  const NOT_IN_GROUP: string := "412 Not currently in newsgroup"
  const XOVER_NO_GROUP: string := "412 Not in a newsgroup"
  const NEXT_NO_GROUP: string := "412 no newsgroup selected"
  const NO_CURRENT: string := "420 no article has been selected"
  const NO_NEXT: string := "421 no next article in this group"
  const ID_NOT_FOUND: string := "430 no such article found"
  const BAD_NUMBER: string := "501 bad article number"
  const BAD_SELECTOR: string := "501 bad argument"
  const OVERVIEW_FOLLOWS: string := "224 overview follows"
  const NUMBERS_FOLLOW: string := "211 list of article numbers follow"
  const SEND_ARTICLE: string := "340 Continue posting; Period on a line by itself to end"
  const POSTED: string := "240 Article posted successfully."
  const END_OF_LIST: string := "."

  const HELP_FOLLOWS: string := "100 help text follows"
  const HELP_TEXT: string :=
    "CHECK\r\nTAKETHIS\r\nMODE [stream|reader]\r\n" +
    "LIST [active|active.times|distributions|distrib.pats|newsgroups|overview.fmt|subscriptions]\r\n" +
    "LISTGROUP [newsgroup]\r\nXREPLIC\r\nXOVER [msg#|msg#-|msg#-msg#]\r\nGROUP newsgroup\r\nHELP\r\n" +
    "NEWGROUPS [YY]yymmdd hhmmss [GMT|UTC] [distributions]\r\nNEWNEWS\r\nNEXT\r\n" +
    "HEAD [msg#|<msgid>]\r\nBODY [msg#|<msgid>]\r\nARTICLE [msg#|<msgid>]\r\n" +
    "AUTHINFO [user|pass] <value>\r\nAUTHINFO simple\r\nSTAT [msg#|<msgid>]\r\nPOST\r\nDATE\r\nQUIT\r\n."
  const EXTENSIONS: string := "202 Extensions supported:\r\nLISTGROUP\r\nMODE\r\nXREPLIC\r\nXOVER\r\nDATE\r\n."
  const NO_WILDMAT: string := "501 LIST ACTIVE <wildmat>: wildmats not supported"
  const GROUPS_FOLLOW: string := "215 list of newsgroups follows"
  const INFO_FOLLOWS: string := "215 information follows"
  const NOT_IMPLEMENTED: string := "503 Not implemented on this server"
  const LIST_SYNTAX: string := "501 Syntax error"
  const SUBSCRIPTION: string := "rush.general"

  /* --------------------------------------------------- formatted replies */

  /** The GROUP reply: 211, the estimated count, first and last number, and the name. */
  function GroupSelected(total: nat, start: nat, end: nat, name: string): string {
    Fit("211 " + Ultos(total) + " " + Ultos(start) + " " + Ultos(end) + " " + name + " group selected")
  }

  /** Counters that fit an unsigned long and a name below GROUP_MAX are never cut. */
  lemma GroupSelectedWhole(total: nat, start: nat, end: nat, name: string)
    requires total <= ULONG_MAX && start <= ULONG_MAX && end <= ULONG_MAX && |name| < GROUP_MAX
    ensures GroupSelected(total, start, end, name) ==
            "211 " + Ultos(total) + " " + Ultos(start) + " " + Ultos(end) + " " + name + " group selected"
  {
    UltosLength64(total);
    UltosLength64(start);
    UltosLength64(end);
  }

  function NoSuchGroup(err: string): string {
    Fit("411 No such newsgroup: " + err)
  }

  function NextFailed(n: nat, err: string): string {
    Fit("421 error retrieving article " + Ultos(n) + ": " + err)
  }

  function OutOfRange(start: nat, end: nat): string {
    Fit("423 no such article in group (range " + Ultos(start) + "-" + Ultos(end) + ")")
  }

  function NoSuchArticle(err: string): string {
    Fit("430 no such article: " + err)
  }

  function TooLong(limit: int): string {
    Fit("411 Not Posted: article exceeds sanity line limit of " + DecimalInt(limit) + ".")
  }

  function NotPosted(err: string): string {
    Fit("441 " + err)
  }

  /** The four ways of asking for an article. */
  datatype Retrieval = WholeArticle | HeadOnly | BodyOnly | StatOnly

  /** The code of a retrieval's status line, with its space. */
  function Code(kind: Retrieval): (r: string)
    ensures |r| == 4 && r[3] == ' '
  {
    match kind
    case WholeArticle => "220 "
    case HeadOnly => "221 "
    case BodyOnly => "222 "
    case StatOnly => "223 "
  }

  /** What a retrieval's status line says follows. */
  function Follows(kind: Retrieval): (r: string)
    ensures |r| < 64 && r != [] && r[0] == ' '
  {
    match kind
    case WholeArticle => " article retrieved - head and body follow"
    case HeadOnly => " article retrieved - head follows"
    case BodyOnly => " article retrieved - body follows"
    case StatOnly => " article retrieved - request text separately"
  }

  /** The status line of a retrieval (and of NEXT, which is STAT's). */
  function Retrieved(kind: Retrieval, n: nat, id: string): string {
    Fit(Code(kind) + Ultos(n) + " " + id + Follows(kind))
  }

  /** A numeral after a four-character code, then a space: scanning from the code's end reads the number. */
  lemma NumberAfterCode(code: string, d: string, rest: string, n: nat)
    requires |code| == 4 && d == Ultos(n) && n <= ULONG_MAX && rest != [] && rest[0] == ' '
    requires |rest| < LINE_LEN - 24
    ensures var r := Fit(code + d + rest); |r| > 4 && r[..4] == code && ScanULong(r[4..]) == Some(n)
  {
    UltosLength64(n);
    assert Fit(code + d + rest) == code + d + rest;
    assert (code + d + rest)[4..] == [] + Ultos(n) + rest;
    ScanULongUltos([], n, rest);
  }

  /**
   * A status line is never cut for a number that fits an unsigned long and
   * an id below FIELD_MAX, so a client reading the number after the code
   * gets the article's number back.
   */
  lemma RetrievedNumber(kind: Retrieval, n: nat, id: string)
    requires n <= ULONG_MAX && |id| < FIELD_MAX
    ensures var r := Retrieved(kind, n, id);
      |r| > 4 && r[..4] == Code(kind) && ScanULong(r[4..]) == Some(n)
  {
    RetrievedAround(Code(kind), n, id, Follows(kind));
  }

  /** A status line made of a code, the number, the id and a tail starting with a space. */
  lemma RetrievedAround(code: string, n: nat, id: string, tail: string)
    requires |code| == 4 && n <= ULONG_MAX && |id| < FIELD_MAX && tail != [] && tail[0] == ' ' && |tail| < 64
    ensures var r := Fit(code + Ultos(n) + " " + id + tail); |r| > 4 && r[..4] == code && ScanULong(r[4..]) == Some(n)
  {
    var rest := " " + id + tail;
    assert code + Ultos(n) + " " + id + tail == code + Ultos(n) + rest;
    NumberAfterCode(code, Ultos(n), rest, n);
  }

  /* ----------------------------------------------------------- ValidGroup */

  /** The name holds two dots in a row. */
  predicate HasDotDot(name: string) {
    exists i :: 0 <= i < |name| - 1 && name[i] == '.' && name[i + 1] == '.'
  }

  predicate GroupNameChar(c: char) {
    'a' <= c <= 'z' || 'A' <= c <= 'Z' || '0' <= c <= '9' || c == '.'
  }

  /** Why ValidGroup turns a name away before looking at the spool, or "" when it does not. */
  function NameError(name: string): string {
    if HasDotDot(name) then "illegal groupname"
    else if exists i :: 0 <= i < |name| && !GroupNameChar(name[i]) then "illegal chars in groupname"
    else ""
  }

  /**
   * A name ValidGroup lets through cannot leave the spool: it has no slash
   * and no "..", so spool + "/" + name is one directory directly below it.
   */
  lemma NameStaysInSpool(name: string)
    requires NameError(name) == ""
    ensures '/' !in name && !HasDotDot(name)
    ensures forall i :: 0 <= i < |name| ==> GroupNameChar(name[i])
  {
  }

  /* ------------------------------------------------------------- NEWGROUPS */

  /** One sscanf "%2d" at i: a sign and a digit, or one or two digits; where it stops. */
  function TwoDigitField(s: string, i: nat): Option<nat> {
    if i < |s| && (s[i] == '+' || s[i] == '-') then
      (if i + 1 < |s| && IsDigit(s[i + 1]) then Some(i + 2) else None)
    else if i < |s| && IsDigit(s[i]) then
      (if i + 1 < |s| && IsDigit(s[i + 1]) then Some(i + 2) else Some(i + 1))
    else None
  }

  /** sscanf(s, "%2d%2d%2d", ...) == 3 on a word without white space. */
  predicate ThreeFields(s: string) {
    match TwoDigitField(s, 0)
    case None => false
    case Some(i) =>
      match TwoDigitField(s, i)
      case None => false
      case Some(j) => TwoDigitField(s, j).Some?
  }

  /** Six digits always read as three fields, as in "031225". */
  lemma SixDigitsRead(s: string)
    requires |s| == 6 && AllDigits(s)
    ensures ThreeFields(s)
  {
    assert TwoDigitField(s, 0) == Some(2);
    assert TwoDigitField(s, 2) == Some(4);
    assert TwoDigitField(s, 4) == Some(6);
  }

  const DATE_MISSING: string := "501 Bad or missing date/time arguments"
  const DATE_BAD: string := "501 Bad date/time argument"
  const NEW_GROUPS_FOLLOW: string := "231 list of new newsgroups follows"

  /** How NEWGROUPS judges its date and time words, or "" when it accepts them. */
  function NewGroupsError(date: string, time: string): string {
    if |date| != 6 || |time| != 6 then DATE_MISSING
    else if !ThreeFields(date) || !ThreeFields(time) then DATE_BAD
    else ""
  }

  /* ------------------------------------------------------------------ DATE */

  /** The broken-down UTC time gmtime gives (years since 1900, months from 0). */
  datatype Tm = Tm(year: int, mon: int, mday: int, hour: int, min: int, sec: int)

  /** printf's %02d. */
  function TwoDigits(v: int): (r: string)
    ensures 0 <= v < 100 ==> |r| == 2 && AllDigits(r) && DecimalValue(r) == v
  {
    if 0 <= v < 100 then
      var r := [DigitChar(v / 10), DigitChar(v % 10)];
      assert r[..1] == [DigitChar(v / 10)] && r[..1][..0] == [];
      assert DecimalValue(r[..1]) == v / 10;
      r
    else DecimalInt(v)
  }

  /** The DATE reply: 111 and YYYYMMDDhhmmss in UTC (RFC 2980 section 3.2). */
  function DateReply(tm: Tm): string {
    Fit("111 " + DecimalInt(tm.year + 1900) + TwoDigits(tm.mon + 1) + TwoDigits(tm.mday) +
        TwoDigits(tm.hour) + TwoDigits(tm.min) + TwoDigits(tm.sec))
  }

  /* ------------------------------------------------------------- reports */

  /** The formatted replies, by the values they are formatted from. */
  datatype Report =
    | Selected(total: nat, start: nat, end: nat, name: string)
    | GroupMissing(err: string)
    | NextMissing(n: nat, err: string)
    | OutsideRange(start: nat, end: nat)
    | ArticleMissing(err: string)
    | PostTooLong(limit: int)
    | PostRefused(err: string)
    | Found(kind: Retrieval, n: nat, id: string)
    | Clock(tm: Tm)

  /** A formatted reply's text, as sprintf leaves it in the reply buffer. */
  function ReportText(r: Report): (text: string)
    ensures |text| < LINE_LEN
  {
    match r
    case Selected(total, start, end, name) => GroupSelected(total, start, end, name)
    case GroupMissing(err) => NoSuchGroup(err)
    case NextMissing(n, err) => NextFailed(n, err)
    case OutsideRange(start, end) => OutOfRange(start, end)
    case ArticleMissing(err) => NoSuchArticle(err)
    case PostTooLong(limit) => TooLong(limit)
    case PostRefused(err) => NotPosted(err)
    case Found(kind, n, id) => Retrieved(kind, n, id)
    case Clock(tm) => DateReply(tm)
  }

  /* --------------------------------------------------------- command words */

  /** The commands CommandLoop knows, as strcasecmp tells them apart. */
  datatype Verb = AuthInfo | Check | TakeThis | ModeVerb | ListVerb | ListGroupVerb | XReplic | XoverVerb
                | GroupVerb | Help | NewGroupsVerb | NewNews | NextVerb | Fetch(kind: Retrieval)
                | PostVerb | DateVerb | Quit | Unrecognised

  function VerbOf(cmd: string): Verb {
    if EqualsIgnoreCase(cmd, "AUTHINFO") then AuthInfo
    else if EqualsIgnoreCase(cmd, "CHECK") then Check
    else if EqualsIgnoreCase(cmd, "TAKETHIS") then TakeThis
    else if EqualsIgnoreCase(cmd, "MODE") then ModeVerb
    else if EqualsIgnoreCase(cmd, "LIST") then ListVerb
    else if EqualsIgnoreCase(cmd, "LISTGROUP") then ListGroupVerb
    else if EqualsIgnoreCase(cmd, "XREPLIC") then XReplic
    else if EqualsIgnoreCase(cmd, "XOVER") then XoverVerb
    else if EqualsIgnoreCase(cmd, "GROUP") then GroupVerb
    else if EqualsIgnoreCase(cmd, "HELP") then Help
    else if EqualsIgnoreCase(cmd, "NEWGROUPS") then NewGroupsVerb
    else if EqualsIgnoreCase(cmd, "NEWNEWS") then NewNews
    else if EqualsIgnoreCase(cmd, "NEXT") then NextVerb
    else if EqualsIgnoreCase(cmd, "HEAD") then Fetch(HeadOnly)
    else if EqualsIgnoreCase(cmd, "BODY") then Fetch(BodyOnly)
    else if EqualsIgnoreCase(cmd, "ARTICLE") then Fetch(WholeArticle)
    else if EqualsIgnoreCase(cmd, "STAT") then Fetch(StatOnly)
    else if EqualsIgnoreCase(cmd, "POST") then PostVerb
    else if EqualsIgnoreCase(cmd, "DATE") then DateVerb
    else if EqualsIgnoreCase(cmd, "QUIT") then Quit
    else Unrecognised
  }

  /** Which commands pass the read gate, which the post gate, and which none. */
  predicate NeedsRead(v: Verb) {
    v.ListVerb? || v.ListGroupVerb? || v.XoverVerb? || v.GroupVerb? || v.NewGroupsVerb? || v.NextVerb? || v.Fetch? || v.DateVerb?
  }
}
