/**
 * The Article object: one article of a group, loaded from its file in the
 * spool, and the operations the session runs on it.
 */
module ArticleObject {
  import opened CLib
  import opened Subs
  import opened Configuration
  import opened Fs
  import opened Articles

  /* ------------------------------------------------------------ loading */

  function ValueOr(o: Option<string>, d: string): string {
    match o
    case Some(v) => v
    case None => d
  }

  /** Every field of an article, as _Copy copies them. */
  datatype ArticleState = ArticleState(group: string, filename: string, number: nat, valid: bool,
                                       headers: Headers, errmsg: string)

  /**
   * What Load(groupname, num) leaves in an article whose group was group0,
   * given what reading the article's file yields.
   */
  function ArticleLoaded(group0: string, cfg: Settings, groupname: string, num: nat, file: Option<string>): ArticleState {
    if |groupname| >= GROUP_MAX then ArticleState(group0, "", num, false, NoHeaders, "Group name too long")
    else
      var path := ArticlePath(cfg, groupname, num);
      match file
      case None =>
        ArticleState(groupname, path, num, false, NoHeaders,
                     "article " + Ultos(num) + " no longer exists: '" + path + "': " + ENOENT_TEXT)
      case Some(data) =>
        var h := ArticleHeaders(data);
        if h.messageid == "" then ArticleState(groupname, path, num, false, h, "No 'Message-ID' field")
        else if h.from == "" then ArticleState(groupname, path, num, false, h, "No 'From' field")
        else ArticleState(groupname, path, num, true, h, "")
  }

  /**
   * Loading a stored article: its Message-ID and From are the values of the
   * last such fields of its header, and it is valid exactly when both are
   * present and not empty.
   */
  lemma LoadStoredArticle(group0: string, cfg: Settings, g: string, n: nat, hs: seq<Field>, body: string)
    requires |g| < GROUP_MAX && forall j :: 0 <= j < |hs| ==> StoredField(hs[j])
    ensures var st := ArticleLoaded(group0, cfg, g, n, Some(Concat(HeaderFileLines(hs)) + body));
      var id := ValueOr(LastValue(hs, "Message-ID:"), "");
      var from := ValueOr(LastValue(hs, "From:"), "");
      st.headers.messageid == id && st.headers.from == from &&
      st.group == g && st.filename == ArticlePath(cfg, g, n) &&
      (st.valid <==> id != "" && from != "")
  {
    var data := Concat(HeaderFileLines(hs)) + body;
    LoadedFile(group0, cfg, g, n, data);
    StoredValues(hs, body);
  }

  /** A file that opens: the header is the file's, and the article is valid when Message-ID and From are set. */
  lemma LoadedFile(group0: string, cfg: Settings, g: string, n: nat, data: string)
    requires |g| < GROUP_MAX
    ensures var st := ArticleLoaded(group0, cfg, g, n, Some(data));
      st.headers == ArticleHeaders(data) && st.group == g && st.filename == ArticlePath(cfg, g, n) &&
      (st.valid <==> st.headers.messageid != "" && st.headers.from != "")
  {
  }

  /** The Message-ID and From of a stored header are the values of its last such fields. */
  lemma StoredValues(hs: seq<Field>, body: string)
    requires forall j :: 0 <= j < |hs| ==> StoredField(hs[j])
    ensures var h := ArticleHeaders(Concat(HeaderFileLines(hs)) + body);
      h.messageid == ValueOr(LastValue(hs, "Message-ID:"), "") && h.from == ValueOr(LastValue(hs, "From:"), "")
  {
    ArticleHeadersOfFile(hs, body);
    RecordValues(hs);
  }

  lemma RecordValues(hs: seq<Field>)
    ensures var h := Record(NoHeaders, hs);
      h.messageid == ValueOr(LastValue(hs, "Message-ID:"), "") && h.from == ValueOr(LastValue(hs, "From:"), "")
  {
    RecordText(NoHeaders, hs, MessageIdSlot);
    RecordText(NoHeaders, hs, FromSlot);
  }

  lemma UnfoldContinue(ts: seq<string>, i: nat, key: string, val: string)
    requires i < |ts| && ts[i] != [] && IsBlank(ts[i][0])
    ensures Unfold(ts, i, key, val) == Unfold(ts, i + 1, key, Capped(val + ts[i][1..]))
  {
  }

  lemma RecordCons(h: Headers, f: Field, fs: seq<Field>)
    ensures Record(h, [f] + fs) == Record(ParseHeader(h, f), fs)
  {
    assert ([f] + fs)[1..] == fs;
  }

  /** A continuation line of the header loop adds its text to the pending value. */
  lemma ReadContinuation(h: Headers, ts: seq<string>, i: nat, key: string, val: string)
    requires i < |ts| && ts[i] != [] && IsBlank(ts[i][0])
    ensures Record(h, Unfold(ts, i, key, val)) == Record(h, Unfold(ts, i + 1, key, Capped(val + ts[i][1..])))
  {
    UnfoldContinue(ts, i, key, val);
  }

  /**
   * The empty line ends the header loop: the kept values are h with the
   * pending field (if any) stored, which is h'.
   */
  lemma ReadEnd(h: Headers, h': Headers, ts: seq<string>, i: nat, key: string, val: string)
    requires i < |ts| && ts[i] == []
    requires h' == if key != [] then ParseHeader(h, Field(key, val)) else h
    ensures Record(h, Unfold(ts, i, key, val)) == h'
  {
    UnfoldEnd(ts, i, key, val);
    if key != [] {
      RecordCons(h, Field(key, val), []);
      assert [Field(key, val)] + [] == [Field(key, val)];
    }
  }

  /** A field line stores the pending field (if any), giving h', and becomes the pending field. */
  lemma ReadField(h: Headers, h': Headers, ts: seq<string>, i: nat, key: string, val: string)
    requires i < |ts| && ts[i] != [] && !IsBlank(ts[i][0])
    requires h' == if key != [] then ParseHeader(h, Field(key, val)) else h
    ensures Record(h, Unfold(ts, i, key, val)) ==
            Record(h', Unfold(ts, i + 1, SplitKeyValue(ts[i]).key, SplitKeyValue(ts[i]).val))
  {
    UnfoldStep(ts, i, key, val);
    var f := SplitKeyValue(ts[i]);
    if key != [] {
      RecordCons(h, Field(key, val), Unfold(ts, i + 1, f.key, f.val));
    } else {
      assert [] + Unfold(ts, i + 1, f.key, f.val) == Unfold(ts, i + 1, f.key, f.val);
    }
  }

  /** i held between lo and hi. */
  function Clamp(i: nat, lo: nat, hi: nat): nat
    requires lo <= hi
  {
    if i < lo then lo else if i > hi then hi else i
  }

  /** One more item inside lo..hi adds its text; one outside leaves the clamped range as it is. */
  lemma ClampStep(f: string -> string, cs: seq<string>, lo: nat, hi: nat, i: nat)
    requires lo <= hi <= |cs| && i < |cs|
    ensures lo <= i < hi ==>
      ConcatMap(f, cs[lo..Clamp(i + 1, lo, hi)]) == ConcatMap(f, cs[lo..Clamp(i, lo, hi)]) + f(cs[i])
    ensures !(lo <= i < hi) ==> Clamp(i + 1, lo, hi) == Clamp(i, lo, hi)
  {
    if lo <= i < hi {
      assert cs[lo..i + 1] == cs[lo..i] + [cs[i]];
      ConcatMapAppend(f, cs[lo..i], [cs[i]]);
      ConcatMapOne(f, cs[i]);
    }
  }

  lemma ColumnValuesSnoc(h: Headers, names: seq<string>, r: nat)
    requires r < |names|
    ensures ColumnValues(h, names[..r + 1]) == ColumnValues(h, names[..r]) + [ColumnValue(h, names[r])]
  {
  }

  lemma TabJoinSnoc(vs: seq<Option<string>>, v: Option<string>)
    ensures TabJoin(vs + [v]) == TabJoin(vs) + Tabbed(v)
  {
    assert (vs + [v])[..|vs|] == vs;
  }

  /** The text Overview adds for one overview header name: a tab and the field, or nothing. */
  method OverviewColumn(h: Headers, name: string) returns (piece: string)
    ensures piece == Tabbed(ColumnValue(h, name))
  {
    piece := "";
    if EqualsIgnoreCase(name, "Subject:") {
      piece := "\t" + Sanitized(h.subject);
    } else if EqualsIgnoreCase(name, "From:") {
      piece := "\t" + Sanitized(h.from);
    } else if EqualsIgnoreCase(name, "Date:") {
      piece := "\t" + Sanitized(h.date);
    } else if EqualsIgnoreCase(name, "Message-ID:") {
      piece := "\t" + Sanitized(h.messageid);
    } else if EqualsIgnoreCase(name, "References:") {
      piece := "\t" + Sanitized(h.references);
    } else if EqualsIgnoreCase(name, "Lines:") {
      piece := "\t";
      if h.lines > 0 {
        piece := piece + Ultos(h.lines);
      }
    } else if EqualsIgnoreCase(name, "Bytes:") {
      piece := "\t";  // byte counts are not kept
    } else if EqualsIgnoreCase(name, "Xref:full") {
      piece := "\t";
      if h.xref != "" {
        piece := piece + "Xref: " + Sanitized(h.xref);
      }
    }
  }

  /** Where SendArticle is in the file: the header, its end, or the body. */
  datatype Mode = HeadMode | SepMode | BodyMode

  /** The mode in which SendArticle handles line i when line k is the separator. */
  function ModeAt(k: nat, i: nat): Mode {
    if i < k then HeadMode else if i == k then SepMode else BodyMode
  }

  /** Whether SendArticle writes a line handled in mode m. */
  predicate Sends(m: Mode, head: bool, body: bool) {
    (m == HeadMode && head) || (m == BodyMode && body) || (m == SepMode && head && body)
  }

  /** The lines written are exactly those of the range SendRange picks. */
  lemma SendsAt(n: nat, k: nat, head: bool, body: bool, i: nat)
    requires k <= n && i < n
    ensures var r := SendRange(n, k, head, body);
      Sends(ModeAt(k, i), head, body) <==> r.lo <= i < r.hi
    ensures !body && i == k ==> Clamp(i, SendRange(n, k, head, body).lo, SendRange(n, k, head, body).hi) ==
                                SendRange(n, k, head, body).hi
  {
  }

  /**
   * The loop of SendArticle over the lines fgets reads: the mode moves from
   * the header to the separator to the body, and each line is sent when its
   * part is asked for; without the body, the loop stops at the separator.
   */
  method SendLines(cs: seq<string>, head: bool, body: bool) returns (sent: string)
    requires forall j :: 0 <= j < |cs| ==> cs[j] != []
    ensures var r := SendRange(|cs|, SepIndex(cs, 0), head, body); sent == ConcatMap(WireText, cs[r.lo..r.hi])
  {
    sent := SendLinesAs(cs, head, body, WireText);
  }

  /**
   * f gives the text written for each chunk. The loop reasons about f
   * alone; WireText is looked into only where a line is written.
   */
  ghost predicate WritesWire(f: string -> string) {
    forall c {:trigger WireText(c)} :: f(c) == WireText(c)
  }

  /** SendLines' loop, with the text of a chunk written f. */
  method SendLinesAs(cs: seq<string>, head: bool, body: bool, ghost f: string -> string) returns (sent: string)
    requires forall j :: 0 <= j < |cs| ==> cs[j] != []
    requires WritesWire(f)
    ensures var r := SendRange(|cs|, SepIndex(cs, 0), head, body); sent == ConcatMap(f, cs[r.lo..r.hi])
  {
    var mode := HeadMode;
    var i := 0;
    sent := "";
    SendingStart(f, cs, head, body);
    while i < |cs|
      invariant Sending(f, cs, head, body, i, mode, sent)
    {
      var stop;
      mode, sent, stop := SendLine(cs, head, body, i, mode, sent, f);
      if stop {
        return;
      }
      i := i + 1;
    }
    SendingEnd(f, cs, head, body, i, mode, sent);
  }

  /**
   * The state of SendArticle's loop before line i, with k the separator:
   * the mode is that of the line before, the loop has not gone past the
   * separator when the body is not asked for, and what was sent is the
   * text of the lines of the range SendRange picks up to line i.
   */
  ghost predicate Sending(f: string -> string, cs: seq<string>, head: bool, body: bool, i: nat, mode: Mode, sent: string) {
    var k := SepIndex(cs, 0);
    var r := SendRange(|cs|, k, head, body);
    i <= |cs| && (mode == if i == 0 then HeadMode else ModeAt(k, i - 1)) && (!body ==> i <= k) &&
    sent == ConcatMap(f, cs[r.lo..Clamp(i, r.lo, r.hi)])
  }

  lemma SendingStart(f: string -> string, cs: seq<string>, head: bool, body: bool)
    ensures Sending(f, cs, head, body, 0, HeadMode, "")
  {
    var r := SendRange(|cs|, SepIndex(cs, 0), head, body);
    assert cs[r.lo..Clamp(0, r.lo, r.hi)] == [];
  }

  lemma SendingEnd(f: string -> string, cs: seq<string>, head: bool, body: bool, i: nat, mode: Mode, sent: string)
    requires Sending(f, cs, head, body, i, mode, sent) && i >= |cs|
    ensures var r := SendRange(|cs|, SepIndex(cs, 0), head, body); sent == ConcatMap(f, cs[r.lo..r.hi])
  {
  }

  /**
   * One pass of SendArticle's loop, on line i: the mode moves on, and the
   * line is sent when its part is asked for; the loop stops at the
   * separator when the body is not.
   */
  method SendLine(cs: seq<string>, head: bool, body: bool, i: nat, mode: Mode, sent: string, ghost f: string -> string)
      returns (mode': Mode, sent': string, stop: bool)
    requires forall j :: 0 <= j < |cs| ==> cs[j] != []
    requires i < |cs| && Sending(f, cs, head, body, i, mode, sent) && WritesWire(f)
    ensures stop ==> var r := SendRange(|cs|, SepIndex(cs, 0), head, body); sent' == ConcatMap(f, cs[r.lo..r.hi])
    ensures !stop ==> Sending(f, cs, head, body, i + 1, mode', sent')
  {
    ghost var k := SepIndex(cs, 0);
    ghost var r := SendRange(|cs|, k, head, body);
    var c := cs[i];
    mode', sent', stop := mode, sent, false;
    if mode == SepMode {
      mode' := BodyMode;
    } else if c[0] == '\n' && mode == HeadMode {
      mode' := SepMode;
    }
    assert mode' == ModeAt(k, i);
    SendsAt(|cs|, k, head, body, i);
    if mode' == SepMode && !body {
      stop := true;
      return;
    }
    ClampStep(f, cs, r.lo, r.hi, i);
    if (mode' == HeadMode && head) || (mode' == BodyMode && body) || (mode' == SepMode && head && body) {
      sent' := sent + WireText(c);
    }
  }

  /* ------------------------------------------------------------ article */

  class Article {
    var group: string
    var filename: string
    var number: nat
    var valid: bool
    /** The kept header values: from, date, messageid, subject, references, xref and lines. */
    var headers: Headers
    var errmsg: string

    function State(): ArticleState
      reads this
    {
      ArticleState(group, filename, number, valid, headers, errmsg)
    }

    constructor ()
      ensures State() == ArticleState("", "", 0, false, NoHeaders, "")
    {
      group := "";
      filename := "";
      number := 0;
      valid := false;
      headers := NoHeaders;
      errmsg := "";
    }

    /** _Copy: take every field from a saved article. */
    method Restore(st: ArticleState)
      modifies this
      ensures State() == st
    {
      group := st.group;
      filename := st.filename;
      number := st.number;
      valid := st.valid;
      headers := st.headers;
      errmsg := st.errmsg;
    }

    /** _ParseHeader: store a field the article keeps; -1 for any other. */
    method ParseHeaderField(key: string, val: string) returns (rc: int)
      modifies this`headers
      ensures headers == ParseHeader(old(headers), Field(key, val))
      ensures rc == 0 <==> exists s: Slot :: EqualsIgnoreCase(key, SlotName(s))
      ensures rc == 0 || rc == -1
    {
      rc := 0;
      if EqualsIgnoreCase(key, "Subject:") { headers := headers.(subject := val); }
      else if EqualsIgnoreCase(key, "From:") { headers := headers.(from := val); }
      else if EqualsIgnoreCase(key, "Date:") { headers := headers.(date := val); }
      else if EqualsIgnoreCase(key, "Xref:") { headers := headers.(xref := val); }
      else if EqualsIgnoreCase(key, "Message-ID:") { headers := headers.(messageid := val); }
      else if EqualsIgnoreCase(key, "References:") { headers := headers.(references := val); }
      else if EqualsIgnoreCase(key, "Lines:") { headers := headers.(lines := Atoi(val)); }
      else {
        rc := -1;
        assert forall s: Slot :: !EqualsIgnoreCase(key, SlotName(s)) by {
          forall s: Slot ensures !EqualsIgnoreCase(key, SlotName(s)) {
            match s
            case SubjectSlot =>
            case FromSlot =>
            case DateSlot =>
            case XrefSlot =>
            case MessageIdSlot =>
            case ReferencesSlot =>
            case LinesSlot =>
          }
        }
      }
      if rc == 0 {
        assert EqualsIgnoreCase(key, SlotName(SubjectSlot)) || EqualsIgnoreCase(key, SlotName(FromSlot)) ||
               EqualsIgnoreCase(key, SlotName(DateSlot)) || EqualsIgnoreCase(key, SlotName(XrefSlot)) ||
               EqualsIgnoreCase(key, SlotName(MessageIdSlot)) || EqualsIgnoreCase(key, SlotName(ReferencesSlot)) ||
               EqualsIgnoreCase(key, SlotName(LinesSlot));
      }
    }

    /**
     * The header loop of Load: read the file's lines until the empty one,
     * folding continuation lines into the pending field and handing each
     * completed field to ParseHeaderField.
     */
    method ReadHeader(data: string)
      modifies this`headers
      ensures headers == Record(old(headers), Unfold(LoadTexts(data), 0, "", ""))
    {
      var chunks := FgetsChunks(data, LINE_LEN - 1);
      ghost var ts := LoadTexts(data);
      ghost var final := Record(headers, Unfold(ts, 0, "", ""));
      var key, val := "", "";
      var i := 0;
      while i < |chunks|
        invariant 0 <= i <= |chunks| && |ts| == |chunks|
        invariant Record(headers, Unfold(ts, i, key, val)) == final
      {
        var s := BeforeCrlf(CStr(chunks[i]));
        assert s == ts[i];
        var done;
        done, key, val := ReadLine(ts, i, s, key, val, final);
        if done {
          break;
        }
        i := i + 1;
      }
    }

    /**
     * One pass of ReadHeader's loop on text s = ts[i]: a continuation adds to
     * the pending value; otherwise the pending field is stored, and an empty
     * text ends the header while any other starts the next field.
     */
    method ReadLine(ghost ts: seq<string>, i: nat, s: string, key: string, val: string, ghost final: Headers)
        returns (done: bool, key': string, val': string)
      requires i < |ts| && s == ts[i] && Record(headers, Unfold(ts, i, key, val)) == final
      modifies this`headers
      ensures done ==> headers == final
      ensures !done ==> Record(headers, Unfold(ts, i + 1, key', val')) == final
    {
      done, key', val' := false, key, val;
      if s != [] && IsBlank(s[0]) {
        ReadContinuation(headers, ts, i, key, val);
        val' := Capped(val + s[1..]);
      } else {
        ghost var before := headers;
        if key != [] {
          var ignored := ParseHeaderField(key, val);
        }
        if s == [] {
          ReadEnd(before, headers, ts, i, key, val);
          done := true;
        } else {
          ReadField(before, headers, ts, i, key, val);
          var f := SplitKeyValue(s);
          key', val' := f.key, f.val;
        }
      }
    }

    /**
     * Load(groupname, num): clear the fields (the group stays until the name
     * is accepted), read the article's header and keep its values; valid once
     * it has a Message-ID and a From.
     */
    method Load(cfg: Settings, fs: FileSystem, groupname: string, num: nat) returns (rc: int)
      modifies this
      ensures State() == ArticleLoaded(old(group), cfg, groupname, num, fs.Read(ArticlePath(cfg, groupname, num)))
      ensures rc == if valid then 0 else -1
    {
      filename := "";
      number := num;
      valid := false;
      headers := NoHeaders;
      errmsg := "";
      if |groupname| >= GROUP_MAX {
        errmsg := "Group name too long";
        return -1;
      }
      group := groupname;
      filename := ArticlePath(cfg, groupname, number);
      var file := fs.Read(filename);
      if file.None? {
        errmsg := "article " + Ultos(number) + " no longer exists: '" + filename + "': " + ENOENT_TEXT;
        return -1;
      }
      ReadHeader(file.value);
      if headers.messageid == "" {
        errmsg := "No 'Message-ID' field";
        return -1;
      }
      if headers.from == "" {
        errmsg := "No 'From' field";
        return -1;
      }
      valid := true;
      return 0;
    }

    /** Load(num): the article of that number in the current group, which must be set. */
    method LoadFromGroup(cfg: Settings, fs: FileSystem, num: nat) returns (rc: int)
      modifies this
      ensures old(group) == "" ==> rc == -1 && State() == old(State()).(errmsg := "No group selected")
      ensures old(group) != "" ==>
        State() == ArticleLoaded(old(group), cfg, old(group), num, fs.Read(ArticlePath(cfg, old(group), num))) &&
        rc == if valid then 0 else -1
    {
      if group == "" {
        errmsg := "No group selected";
        return -1;
      }
      rc := Load(cfg, fs, group, num);
    }

    /**
     * SendArticle: write the article's header lines when head is set, its body
     * lines when body is set, and the empty line between them when both are.
     */
    method SendArticle(fs: FileSystem, head: bool, body: bool) returns (rc: int, sent: string)
      modifies this`errmsg
      ensures fs.Read(filename).None? ==>
        rc == -1 && sent == "" && errmsg == "article " + Ultos(number) + " no longer exists: " + ENOENT_TEXT
      ensures fs.Read(filename).Some? ==>
        rc == 0 && sent == Sent(fs.Read(filename).value, head, body) && errmsg == old(errmsg)
    {
      var file := fs.Read(filename);
      if file.None? {
        errmsg := "article " + Ultos(number) + " no longer exists: " + ENOENT_TEXT;
        return -1, "";
      }
      sent := SendLines(FgetsChunks(file.value, LINE_LEN), head, body);
      rc := 0;
    }

    /** SendHead: the header lines only. */
    method SendHead(fs: FileSystem) returns (rc: int, sent: string)
      modifies this`errmsg
      ensures fs.Read(filename).None? ==> rc == -1 && sent == ""
      ensures fs.Read(filename).Some? ==> rc == 0 && sent == Sent(fs.Read(filename).value, true, false) && errmsg == old(errmsg)
    {
      rc, sent := SendArticle(fs, true, false);
    }

    /** SendBody: the body lines only. */
    method SendBody(fs: FileSystem) returns (rc: int, sent: string)
      modifies this`errmsg
      ensures fs.Read(filename).None? ==> rc == -1 && sent == ""
      ensures fs.Read(filename).Some? ==> rc == 0 && sent == Sent(fs.Read(filename).value, false, true) && errmsg == old(errmsg)
    {
      rc, sent := SendArticle(fs, false, true);
    }

    /** Overview: the article's overview line for the overview header names (RFC 2980 section 2.8). */
    method Overview(names: seq<string>) returns (reply: string)
      ensures reply == OverviewLine(number, headers, names)
    {
      var columns := "";
      var r := 0;
      while r < |names|
        invariant 0 <= r <= |names|
        invariant columns == TabJoin(ColumnValues(headers, names[..r]))
      {
        var piece := OverviewColumn(headers, names[r]);
        ColumnValuesSnoc(headers, names, r);
        TabJoinSnoc(ColumnValues(headers, names[..r]), ColumnValue(headers, names[r]));
        columns := columns + piece;
        r := r + 1;
      }
      assert names[..|names|] == names;
      reply := Ultos(number) + columns;
    }
  }
}
