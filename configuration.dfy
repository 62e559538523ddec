/**
 * The server-wide configuration: its defaults, the directive file that overrides
 * them, and the authentication state (which operations need a login, and the
 * login itself).
 */
module Configuration {
  import opened CLib
  import opened Subs
  import opened ConfigSyntax

  /** Authentication flag bits. */
  type AuthBits = bv8
  const AUTH_FAIL: AuthBits := 0
  const AUTH_READ: AuthBits := 1
  const AUTH_POST: AuthBits := 2
  const AUTH_ALL: AuthBits := 3
  const AUTH_NOAUTH: AuthBits := 4

  /** Log levels. */
  const L_ERROR: int := 0
  const L_INFO: int := 1
  const L_DEBUG: int := 2

  /** Size of the line buffer the directive file is read with. */
  const CONF_LINE: nat := 1024

  /** The shared buffer limits: a protocol or file line, a group name, a header value. */
  const LINE_LEN: nat := 4096
  const GROUP_MAX: nat := 1024
  const FIELD_MAX: nat := 1024

  /** IsAuthNeeded: authentication is on unless the NOAUTH bit is set. */
  predicate AuthNeeded(flags: AuthBits) {
    flags & AUTH_NOAUTH == 0
  }

  /** IsAuthAllowed: may an operation with bit op go ahead under these flags and protections? */
  predicate AuthAllowed(flags: AuthBits, protect: AuthBits, op: AuthBits) {
    if flags & AUTH_NOAUTH != 0 then true
    else if protect & op == 0 then true
    else flags & op == op
  }

  /** The values every directive can change, gathered in one record. */
  datatype Settings = Settings(
    hostnameLookups: int,
    norecurseMsgDir: int,
    msgModDirs: int,
    errorLog: string,
    logLevel: int,
    maxClients: nat,
    serverName: string,
    sendMail: string,
    spamFilter: string,
    spoolDir: string,
    timeout: nat,
    user: string,
    authUser: string,
    authPass: string,
    authSleep: nat,
    authFlags: AuthBits,
    authProtect: AuthBits)

  /** The directives Load knows, as strcasecmp tells them apart. */
  datatype Directive =
    | HostnameLookups | NoRecurseMsgDir | MsgModDirs | Listen | ErrorLog | LogLevel
    | MaxClients | MaxLogSize | ServerName | SendMail | SpamFilter | SpoolDir | Timeout
    | User | AuthUser | AuthPass | AuthProtect | AuthSleep | Unknown

  /**
   * The directive a name selects. strcasecmp(name, "Timeout") == 0 holds
   * exactly when the lower-cased name is "timeout", and likewise for the rest;
   * LogFile is the old spelling of ErrorLog and NewsHostname of ServerName.
   */
  function DirectiveNamed(name: string): Directive {
    LowerDirective(Lower(name))
  }

  function LowerDirective(l: string): Directive {
    if l == "hostnamelookups" then HostnameLookups
    else if l == "norecursemsgdir" then NoRecurseMsgDir
    else if l == "msgmoddirs" then MsgModDirs
    else if l == "listen" then Listen
    else if l == "logfile" || l == "errorlog" then ErrorLog
    else if l == "loglevel" then LogLevel
    else if l == "maxclients" then MaxClients
    else if l == "maxlogsize" then MaxLogSize
    else if l == "newshostname" || l == "servername" then ServerName
    else if l == "sendmail" then SendMail
    else if l == "spamfilter" then SpamFilter
    else if l == "spooldir" then SpoolDir
    else if l == "timeout" then Timeout
    else if l == "user" then User
    else if l == "auth.user" then AuthUser
    else if l == "auth.pass" then AuthPass
    else if l == "auth.protect" then AuthProtect
    else if l == "auth.sleep" then AuthSleep
    else Unknown
  }

  /** An on/off value: off and no give 0, on and yes give 1, anything else is a bad value. */
  function Switch(v: string): (r: Option<int>)
    ensures r.Some? ==> r.value == 0 || r.value == 1
  {
    var l := Lower(v);
    if l == "off" || l == "no" then Some(0)
    else if l == "on" || l == "yes" then Some(1)
    else None
  }

  /** A count given with strtol: accepted when the whole value is read and is not negative. */
  function Count(v: string): (r: Option<nat>)
    ensures r.Some? ==> r.value < 0x1_0000_0000
  {
    var (lv, e) := StrToL(v);
    if lv < 0 || e != |v| then None else Some(UInt32Of(lv))
  }

  /** One directive applied to the settings; a bad value leaves them as they were. */
  function Apply(st: Settings, name: string, v: string): Settings {
    ApplyKind(st, DirectiveNamed(name), v)
  }

  predicate KeywordDirective(d: Directive) {
    d.HostnameLookups? || d.NoRecurseMsgDir? || d.MsgModDirs? || d.LogLevel? || d.AuthProtect?
  }

  predicate NumberDirective(d: Directive) {
    d.MaxClients? || d.Timeout? || d.AuthSleep?
  }

  predicate CredentialDirective(d: Directive) {
    d.AuthUser? || d.AuthPass?
  }

  function ApplyKind(st: Settings, d: Directive, v: string): Settings {
    if KeywordDirective(d) then KeywordEffect(st, d, v)
    else if NumberDirective(d) then NumberEffect(st, d, v)
    else if CredentialDirective(d) then CredentialEffect(st, d, v)
    else TextEffect(st, d, v)
  }

  /** The directives whose value is one of a few keywords; any other value is bad. */
  function KeywordEffect(st: Settings, d: Directive, v: string): Settings
    requires KeywordDirective(d)
  {
    var l := Lower(v);
    match d
    case HostnameLookups =>
      if l == "double" then st.(hostnameLookups := 2)
      else if Switch(v).Some? then st.(hostnameLookups := Switch(v).value)
      else st
    case NoRecurseMsgDir => if Switch(v).Some? then st.(norecurseMsgDir := Switch(v).value) else st
    case MsgModDirs => if Switch(v).Some? then st.(msgModDirs := Switch(v).value) else st
    case LogLevel =>
      if l == "error" then st.(logLevel := L_ERROR)
      else if l == "info" then st.(logLevel := L_INFO)
      else if l == "debug" then st.(logLevel := L_DEBUG)
      else st
    case AuthProtect =>
      if l == "post" then st.(authProtect := AUTH_POST)
      else if l == "read" then st.(authProtect := AUTH_READ)
      else if l == "all" then st.(authProtect := AUTH_POST | AUTH_READ)
      else if l == "-" then st.(authProtect := 0)
      else st
  }

  /** The numeric directives: a bad number leaves the setting alone. */
  function NumberEffect(st: Settings, d: Directive, v: string): Settings
    requires NumberDirective(d)
  {
    match d
    case MaxClients => if Count(v).Some? then st.(maxClients := Count(v).value) else st
    case Timeout => if Count(v).Some? then st.(timeout := Count(v).value) else st
    case AuthSleep => if ScanUInt(v).Some? then st.(authSleep := ScanUInt(v).value) else st
  }

  /** Auth.User and Auth.Pass store the value; "-" turns authentication off, anything else resets it to FAIL. */
  function CredentialEffect(st: Settings, d: Directive, v: string): Settings
    requires CredentialDirective(d)
  {
    var flags := if v == "-" then AUTH_NOAUTH else AUTH_FAIL;
    if d.AuthUser? then st.(authUser := v, authFlags := flags)
    else st.(authPass := v, authFlags := flags)
  }

  /** The directives that take their value as it stands, and those that change nothing modelled. */
  function TextEffect(st: Settings, d: Directive, v: string): Settings
    requires !KeywordDirective(d) && !NumberDirective(d) && !CredentialDirective(d)
  {
    match d
    case ErrorLog => st.(errorLog := v)
    case ServerName => st.(serverName := v)
    case SendMail => st.(sendMail := v)
    case SpamFilter => st.(spamFilter := v)
    case SpoolDir => st.(spoolDir := v)
    case User => st.(user := v)
    case Listen => st
    case MaxLogSize => st
    case Unknown => st
  }

  /** The effect of one line (one fgets chunk) of the file. */
  function ApplyLine(st: Settings, chunk: string): Settings {
    match DirectiveOf(chunk)
    case Blank => st
    case Entry(n, v) => Apply(st, n, v)
  }

  function ApplyLines(st: Settings, chunks: seq<string>): Settings
    decreases |chunks|
  {
    if chunks == [] then st else ApplyLines(ApplyLine(st, chunks[0]), chunks[1..])
  }

  /** The settings after reading a directive file; None when the file cannot be opened. */
  function Loaded(st: Settings, file: Option<string>): Settings {
    match file
    case None => st
    case Some(data) => ApplyLines(st, FgetsChunks(data, CONF_LINE))
  }

  /** Directive names are compared without regard to case. */
  lemma ApplyIgnoresNameCase(st: Settings, n1: string, n2: string, v: string)
    requires EqualsIgnoreCase(n1, n2)
    ensures Apply(st, n1, v) == Apply(st, n2, v)
  {
    EqualsIgnoreCaseLower(n1, n2);
  }

  /** strtol reads back a rendered number and stops at its end. */
  lemma StrToLUltos(n: nat)
    requires n <= LONG_MAX
    ensures StrToL(Ultos(n)) == (n, |Ultos(n)|)
  {
    ParseDigitsAfterSpace([], Ultos(n), []);
    assert [] + Ultos(n) + [] == Ultos(n);
  }

  /** A count accepts any number that fits an unsigned int, written in decimal. */
  lemma CountAccepts(n: nat)
    requires n < 0x1_0000_0000
    ensures Count(Ultos(n)) == Some(n)
  {
    StrToLUltos(n);
  }

  /** A negative number is refused. */
  lemma CountRefusesNegative(n: nat)
    requires 0 < n <= LONG_MAX
    ensures Count("-" + Ultos(n)) == None
  {
    var d := Ultos(n);
    var v := "-" + d;
    assert forall m :: 1 <= m < |v| ==> v[m] == d[m - 1];
    SpaceEndAt(v, 0, 0);
    DigitEndAt(v, 1, |v|);
    assert v[1..|v|] == d;
  }

  /** Characters after the number make the value bad. */
  lemma CountRefusesTrailing(n: nat, junk: string)
    requires n <= LONG_MAX && |junk| > 0 && !IsDigit(junk[0])
    ensures Count(Ultos(n) + junk) == None
  {
    ParseDigitsAfterSpace([], Ultos(n), junk);
    assert [] + Ultos(n) + junk == Ultos(n) + junk;
  }

  lemma NamedMaxClients()
    ensures DirectiveNamed("MaxClients") == MaxClients
  {
    assert Lower("MaxClients") == "maxclients";
  }

  lemma NamedTimeout()
    ensures DirectiveNamed("Timeout") == Timeout
  {
    assert Lower("Timeout") == "timeout";
  }

  lemma NamedAuthUser()
    ensures DirectiveNamed("Auth.User") == AuthUser
  {
    assert Lower("Auth.User") == "auth.user";
  }

  lemma NamedAuthPass()
    ensures DirectiveNamed("Auth.Pass") == AuthPass
  {
    assert Lower("Auth.Pass") == "auth.pass";
  }

  /** Timeout and MaxClients set their value exactly when the count is good. */
  lemma TimeoutDirective(st: Settings, v: string)
    ensures Apply(st, "Timeout", v) == (if Count(v).Some? then st.(timeout := Count(v).value) else st)
  {
    NamedTimeout();
    assert Apply(st, "Timeout", v) == NumberEffect(st, Timeout, v);
  }

  lemma MaxClientsDirective(st: Settings, v: string)
    ensures Apply(st, "MaxClients", v) == (if Count(v).Some? then st.(maxClients := Count(v).value) else st)
  {
    NamedMaxClients();
    assert Apply(st, "MaxClients", v) == NumberEffect(st, MaxClients, v);
  }

  /** Auth.User and Auth.Pass switch authentication on exactly when the value is not "-". */
  lemma AuthCredentialSwitchesAuth(st: Settings, v: string)
    ensures AuthNeeded(Apply(st, "Auth.User", v).authFlags) <==> v != "-"
    ensures AuthNeeded(Apply(st, "Auth.Pass", v).authFlags) <==> v != "-"
    ensures Apply(st, "Auth.User", v).authUser == v && Apply(st, "Auth.Pass", v).authPass == v
  {
    NamedAuthUser();
    NamedAuthPass();
  }

  /** The on/off directives take on, yes, off and no in any case, and nothing else. */
  lemma SwitchValues(v: string)
    ensures Switch(v) == Some(1) <==> EqualsIgnoreCase(v, "on") || EqualsIgnoreCase(v, "yes")
    ensures Switch(v) == Some(0) <==> EqualsIgnoreCase(v, "off") || EqualsIgnoreCase(v, "no")
  {
    EqualsIgnoreCaseLower(v, "on");
    EqualsIgnoreCaseLower(v, "yes");
    EqualsIgnoreCaseLower(v, "off");
    EqualsIgnoreCaseLower(v, "no");
    assert Lower("on") == "on" && Lower("yes") == "yes" && Lower("off") == "off" && Lower("no") == "no";
  }

  /** A file made of short lines applies the directive of each line, in order. */
  lemma LoadedLines(st: Settings, ls: seq<string>)
    requires forall i :: 0 <= i < |ls| ==> IsLine(ls[i]) && |ls[i]| <= CONF_LINE - 1
    ensures Loaded(st, Some(Concat(ls))) == ApplyLines(st, ls)
  {
    LinesChunks(ls, CONF_LINE);
  }

  /** White space and a comment (or nothing) make a line that changes nothing. */
  lemma CommentLineIgnored(st: Settings, w: string, comment: string)
    requires AllSpace(w) && (comment == [] || comment[0] == '#')
    ensures ApplyLine(st, w + comment) == st
  {
    assert '#' !in w && '\0' !in w by { assert forall m :: 0 <= m < |w| ==> IsSpace(w[m]); }
    CommentCut(w, comment);
    TrimmedLengthAt(w, |w|, 0);
  }

  /** The file holding the single line "Timeout N" sets the timeout to N and nothing else. */
  lemma LoadedTimeout(st: Settings, n: nat)
    requires n < 0x1_0000_0000
    ensures Loaded(st, Some("Timeout " + Ultos(n) + "\n")) == st.(timeout := n)
  {
    var d := Ultos(n);
    var l := "Timeout " + d + "\n";
    UltosLength32(n);
    TimeoutLine(d);
    SingleLineLoaded(st, l);
    assert ApplyLine(st, l) == Apply(st, "Timeout", d);
    TimeoutDirective(st, d);
    CountAccepts(n);
  }

  /** A file of one short line is that line applied. */
  lemma SingleLineLoaded(st: Settings, l: string)
    requires IsLine(l) && |l| <= CONF_LINE - 1
    ensures Loaded(st, Some(l)) == ApplyLine(st, l)
  {
    assert Concat([l]) == l;
    LoadedLines(st, [l]);
    assert [l][1..] == [];
  }

  /** The line "Timeout D" for a short numeral D is a line of the file, and its directive is Timeout D. */
  lemma TimeoutLine(d: string)
    requires 0 < |d| <= 10 && AllDigits(d)
    ensures var l := "Timeout " + d + "\n";
      IsLine(l) && |l| <= CONF_LINE - 1 && DirectiveOf(l) == Entry("Timeout", d)
  {
    assert !IsSpace(d[0]) && !IsSpace(d[|d| - 1]) && '#' !in d && '\0' !in d && '\n' !in d by {
      assert forall m :: 0 <= m < |d| ==> IsDigit(d[m]);
    }
    var name: string := "Timeout";
    assert NoSpace(name) && '#' !in name && '\0' !in name;
    assert "Timeout " + d + "\n" == name + " " + d + "\n";
    EntryLine(name, d);
  }

  /** Whatever the other bits say, NOAUTH allows every operation. */
  lemma NoAuthAllowsAll(protect: AuthBits, op: AuthBits)
    ensures AuthAllowed(AUTH_NOAUTH, protect, op) && !AuthNeeded(AUTH_NOAUTH)
  {
  }

  /** With authentication on, a protected operation is allowed exactly when its bits are all granted. */
  lemma ProtectedOperation(flags: AuthBits, protect: AuthBits, op: AuthBits)
    requires AuthNeeded(flags) && protect & op != 0
    ensures AuthAllowed(flags, protect, op) <==> flags & op == op
  {
  }

  /** After a good login the flags equal the protections, and reading and posting are allowed. */
  lemma LoginGrantsProtected(protect: AuthBits, op: AuthBits)
    requires protect & AUTH_NOAUTH == 0
    requires op == AUTH_READ || op == AUTH_POST
    ensures AuthAllowed(protect, protect, op)
  {
  }

  /** After a failed login only unprotected operations are allowed. */
  lemma FailedLoginDeniesProtected(protect: AuthBits, op: AuthBits)
    requires op != 0
    ensures AuthAllowed(AUTH_FAIL, protect, op) <==> protect & op == 0
  {
  }

  class Configuration {
    var hostnameLookups: int
    var norecurseMsgDir: int
    var msgModDirs: int
    var errorLog: string
    var logLevel: int
    var maxClients: nat
    var serverName: string
    var sendMail: string
    var spamFilter: string
    var spoolDir: string
    var timeout: nat
    var user: string
    var authUser: string
    var authPass: string
    var authSleep: nat
    var authFlags: AuthBits
    var authProtect: AuthBits
    /** The pauses sleep() has made, in seconds, in order. */
    var slept: seq<nat>

    function Current(): Settings
      reads this
    {
      Settings(hostnameLookups, norecurseMsgDir, msgModDirs, errorLog, logLevel, maxClients,
        serverName, sendMail, spamFilter, spoolDir, timeout, user, authUser, authPass,
        authSleep, authFlags, authProtect)
    }

    /**
     * The defaults. The host name (from gethostname), the spool directory and
     * the sendmail path (both fixed when the program is built) come in as
     * parameters.
     */
    constructor (hostname: string, spoolDefault: string, sendmailDefault: string)
      ensures hostnameLookups == 0 && norecurseMsgDir == 1 && msgModDirs == 0
      ensures errorLog == "stderr" && logLevel == L_INFO && maxClients == 0
      ensures serverName == hostname && sendMail == sendmailDefault + " -t"
      ensures spamFilter == "" && spoolDir == spoolDefault && timeout == 12 * 3600 && user == "news"
      ensures authUser == "-" && authPass == "-" && authSleep == 5
      ensures authFlags == AUTH_NOAUTH && authProtect == 0 && slept == []
      ensures !IsAuthNeeded()
    {
      hostnameLookups := 0;
      norecurseMsgDir := 1;
      msgModDirs := 0;
      errorLog := "stderr";
      logLevel := L_INFO;
      maxClients := 0;
      serverName := hostname;
      sendMail := sendmailDefault + " -t";
      spamFilter := "";
      spoolDir := spoolDefault;
      timeout := 12 * 3600;
      user := "news";
      authUser := "-";
      authPass := "-";
      authSleep := 5;
      authFlags := AUTH_NOAUTH;
      authProtect := 0;
      slept := [];
    }

    predicate IsAuthNeeded()
      reads this
    {
      AuthNeeded(authFlags)
    }

    predicate IsAuthAllowed(op: AuthBits)
      reads this
    {
      AuthAllowed(authFlags, authProtect, op)
    }

    /** Name of the rotated error log: the log's name with ".O" after it. */
    function OldLogFilename(): (r: string)
      reads this
      ensures |r| == |errorLog| + 2 && r[..|errorLog|] == errorLog && r[|errorLog|..] == ".O"
    {
      errorLog + ".O"
    }

    /**
     * AuthLogin: matching user and password grant the protected operations
     * (the flags become the protections) and give 1; anything else puts the
     * flags at FAIL and gives -1, after sleeping Auth.Sleep seconds when
     * that is positive.
     */
    method AuthLogin(u: string, p: string) returns (rc: int)
      modifies this`authFlags, this`slept
      ensures u == authUser && p == authPass ==> rc == 1 && authFlags == authProtect && slept == old(slept)
      ensures !(u == authUser && p == authPass) ==>
        rc == -1 && authFlags == AUTH_FAIL && slept == old(slept) + (if authSleep > 0 then [authSleep] else [])
    {
      if authUser == u && authPass == p {
        authFlags := authProtect;
        return 1;
      }
      if authSleep > 0 {
        slept := slept + [authSleep];
      }
      authFlags := AUTH_FAIL;
      return -1;
    }

    method SetHostnameLookups(h: int)
      modifies this`hostnameLookups
      ensures hostnameLookups == h
    {
      hostnameLookups := h;
    }

    method SetErrorLog(f: string)
      modifies this`errorLog
      ensures errorLog == f
    {
      errorLog := f;
    }

    method SetLogLevel(l: int)
      modifies this`logLevel
      ensures logLevel == l
    {
      logLevel := l;
    }

    /** MaxClients takes an unsigned int: the long it is given is cut to 32 bits. */
    method SetMaxClients(v: int)
      modifies this`maxClients
      ensures maxClients == UInt32Of(v)
    {
      maxClients := UInt32Of(v);
    }

    method SetServerName(h: string)
      modifies this`serverName
      ensures serverName == h
    {
      serverName := h;
    }

    method SetSendMail(c: string)
      modifies this`sendMail
      ensures sendMail == c
    {
      sendMail := c;
    }

    method SetSpamFilter(d: string)
      modifies this`spamFilter
      ensures spamFilter == d
    {
      spamFilter := d;
    }

    method SetSpoolDir(d: string)
      modifies this`spoolDir
      ensures spoolDir == d
    {
      spoolDir := d;
    }

    /** Timeout takes an unsigned int: the long it is given is cut to 32 bits. */
    method SetTimeout(v: int)
      modifies this`timeout
      ensures timeout == UInt32Of(v)
    {
      timeout := UInt32Of(v);
    }

    method SetUser(u: string)
      modifies this`user
      ensures user == u
    {
      user := u;
    }

    method SetMsgModDirs(v: int)
      modifies this`msgModDirs
      ensures msgModDirs == v
    {
      msgModDirs := v;
    }

    method SetNoRecurseMsgDir(v: int)
      modifies this`norecurseMsgDir
      ensures norecurseMsgDir == v
    {
      norecurseMsgDir := v;
    }

    /** Decode one directive into the fields, through their setters. */
    method ApplyDirective(name: string, v: string)
      modifies this
      ensures Current() == Apply(old(Current()), name, v)
      ensures slept == old(slept)
    {
      var d := DirectiveNamed(name);
      if KeywordDirective(d) {
        ApplyKeyword(d, v);
      } else if NumberDirective(d) {
        ApplyNumber(d, v);
      } else if CredentialDirective(d) {
        ApplyCredential(d, v);
      } else {
        ApplyText(d, v);
      }
    }

    /** The directives whose value is one of a few keywords. */
    method ApplyKeyword(d: Directive, v: string)
      requires KeywordDirective(d)
      modifies this
      ensures Current() == KeywordEffect(old(Current()), d, v)
      ensures slept == old(slept)
    {
      var l := Lower(v);
      match d {
        case HostnameLookups =>
          if l == "double" { SetHostnameLookups(2); }
          else if Switch(v).Some? { SetHostnameLookups(Switch(v).value); }
        case NoRecurseMsgDir =>
          if Switch(v).Some? { SetNoRecurseMsgDir(Switch(v).value); }
        case MsgModDirs =>
          if Switch(v).Some? { SetMsgModDirs(Switch(v).value); }
        case LogLevel =>
          if l == "error" { SetLogLevel(L_ERROR); }
          else if l == "info" { SetLogLevel(L_INFO); }
          else if l == "debug" { SetLogLevel(L_DEBUG); }
        case AuthProtect =>
          if l == "post" { authProtect := AUTH_POST; }
          else if l == "read" { authProtect := AUTH_READ; }
          else if l == "all" { authProtect := AUTH_POST | AUTH_READ; }
          else if l == "-" { authProtect := 0; }
      }
    }

    /** The directives whose value is a number: strtol for the counts, sscanf %u for Auth.Sleep. */
    method ApplyNumber(d: Directive, v: string)
      requires NumberDirective(d)
      modifies this
      ensures Current() == NumberEffect(old(Current()), d, v)
      ensures slept == old(slept)
    {
      if d.AuthSleep? {
        var n := ScanUInt(v);
        if n.Some? { authSleep := n.value; }
      } else {
        var (lv, e) := StrToL(v);
        if !(lv < 0 || e != |v|) {
          if d.MaxClients? { SetMaxClients(lv); } else { SetTimeout(lv); }
        }
      }
    }

    /** Auth.User and Auth.Pass: store the value, and "-" switches authentication off. */
    method ApplyCredential(d: Directive, v: string)
      requires CredentialDirective(d)
      modifies this
      ensures Current() == CredentialEffect(old(Current()), d, v)
      ensures slept == old(slept)
    {
      if d.AuthUser? {
        authUser := v;
        authFlags := if authUser == "-" then AUTH_NOAUTH else AUTH_FAIL;
      } else {
        authPass := v;
        authFlags := if authPass == "-" then AUTH_NOAUTH else AUTH_FAIL;
      }
    }

    /** The directives whose value is taken as it stands, and those that change nothing here. */
    method ApplyText(d: Directive, v: string)
      requires !KeywordDirective(d) && !NumberDirective(d) && !CredentialDirective(d)
      modifies this
      ensures Current() == TextEffect(old(Current()), d, v)
      ensures slept == old(slept)
    {
      match d {
        case ErrorLog => SetErrorLog(v);
        case ServerName => SetServerName(v);
        case SendMail => SetSendMail(v);
        case SpamFilter => SetSpamFilter(v);
        case SpoolDir => SetSpoolDir(v);
        case User => SetUser(v);
        case Listen =>
        case MaxLogSize =>
        case Unknown =>
      }
    }

    /** Load: read the directive file line by line and apply each directive in turn. */
    method Load(file: Option<string>)
      modifies this
      ensures Current() == Loaded(old(Current()), file)
      ensures slept == old(slept)
    {
      if file.None? {
        return;
      }
      var chunks := FgetsChunks(file.value, CONF_LINE);
      var i := 0;
      while i < |chunks|
        invariant 0 <= i <= |chunks|
        invariant ApplyLines(Current(), chunks[i..]) == Loaded(old(Current()), file)
        invariant slept == old(slept)
      {
        var d := SplitDirective(chunks[i]);
        assert chunks[i..][1..] == chunks[i + 1..];
        match d {
          case Blank =>
          case Entry(n, v) => ApplyDirective(n, v);
        }
        i := i + 1;
      }
    }
  }

}
