/**
 * An article in the spool: where its file lives, how its header is read
 * (RFC 822 section 3.1.1 unfolding and the fields the server keeps), how it is
 * sent to a client (CRLF line ends, dot-stuffing, head and body selection) and
 * its overview record (RFC 2980 section 2.8).
 */
module Articles {
  import opened CLib
  import opened Subs
  import opened Configuration
  import opened Fs

  /* ---------------------------------------------------------------- paths */

  /**
   * The directory that holds article n of a group directory dir: dir itself,
   * or dir/m with m = n rounded down to a multiple of 1000 when the spool uses
   * modulus directories.
   */
  function ModDir(dir: string, modDirs: bool, n: nat): string {
    if modDirs then dir + "/" + Ultos((n / 1000) * 1000) else dir
  }

  /** The path of article n in group directory dir. */
  function NumberPath(dir: string, modDirs: bool, n: nat): string {
    ModDir(dir, modDirs, n) + "/" + Ultos(n)
  }

  /** GetArticlePath: the group's dots become slashes; the spool directory is taken as it is. */
  function ArticlePath(cfg: Settings, group: string, n: nat): string {
    NumberPath(cfg.spoolDir + "/" + Replaced(group, '.', '/'), cfg.msgModDirs != 0, n)
  }

  /** Two strings that end in "/" followed by a slash-free part end in the same part. */
  lemma SlashSuffix(x: string, u: string, y: string, v: string)
    requires x + "/" + u == y + "/" + v && '/' !in u && '/' !in v
    ensures u == v
  {
    var s := x + "/" + u;
    assert s[|s| - |u| - 1] == '/' && s[|s| - |v| - 1] == '/';
    assert s[|s| - |u|..] == u && s[|s| - |v|..] == v;
  }

  lemma DigitsHaveNoSlash(n: nat)
    ensures '/' !in Ultos(n)
  {
    var u := Ultos(n);
    assert forall i :: 0 <= i < |u| ==> IsDigit(u[i]);
  }

  /** Different article numbers have different paths. */
  lemma NumberPathInjective(dir: string, modDirs: bool, a: nat, b: nat)
    requires NumberPath(dir, modDirs, a) == NumberPath(dir, modDirs, b)
    ensures a == b
  {
    DigitsHaveNoSlash(a);
    DigitsHaveNoSlash(b);
    SlashSuffix(ModDir(dir, modDirs, a), Ultos(a), ModDir(dir, modDirs, b), Ultos(b));
    UltosInjective(a, b);
  }

  /**
   * The path begins with the spool directory exactly as configured, then the
   * group name with its dots made slashes, and ends with "/" and the number.
   */
  lemma ArticlePathParts(cfg: Settings, group: string, n: nat)
    ensures var p := ArticlePath(cfg, group, n); var a := cfg.spoolDir + "/" + Replaced(group, '.', '/');
      |p| > |a| && p[..|a|] == a && '.' !in a[|cfg.spoolDir| + 1..] &&
      p[|p| - |Ultos(n)|..] == Ultos(n) && p[|p| - |Ultos(n)| - 1] == '/'
  {
    var g := Replaced(group, '.', '/');
    var a := cfg.spoolDir + "/" + g;
    var d := ModDir(a, cfg.msgModDirs != 0, n);
    var u := Ultos(n);
    var p := d + "/" + u;
    assert d[..|a|] == a;
    assert p[..|a|] == a;
    assert p[|p| - |u|..] == u;
    assert a[|cfg.spoolDir| + 1..] == g;
    ReplacedHasNoFrom(group, '.', '/');
  }

  /* ------------------------------------------------------ header reading */

  predicate IsBlank(c: char) { c == ' ' || c == '\t' }

  /** strspn(s + i, " \t") + i: the end of the run of blanks from index i. */
  function BlankEnd(s: string, i: nat): (n: nat)
    requires i <= |s|
    ensures i <= n <= |s|
    ensures forall m :: i <= m < n ==> IsBlank(s[m])
    ensures n < |s| ==> !IsBlank(s[n])
    decreases |s| - i
  {
    if i < |s| && IsBlank(s[i]) then BlankEnd(s, i + 1) else i
  }

  lemma {:induction false} BlankEndAt(s: string, i: nat, n: nat)
    requires i <= n <= |s|
    requires forall m :: i <= m < n ==> IsBlank(s[m])
    requires n < |s| ==> !IsBlank(s[n])
    ensures BlankEnd(s, i) == n
    decreases |s| - i
  {
    if i < n {
      BlankEndAt(s, i + 1, n);
    }
  }

  /** A header field as read: the key with its colon, and the value. */
  datatype Field = Field(key: string, val: string)

  /**
   * SplitKeyValue: the key is the text up to and including the first colon,
   * the value the rest after any spaces and tabs; a text without a colon is
   * malformed and gives an empty key and value.
   */
  function SplitKeyValue(s: string): (f: Field)
    ensures ':' !in s ==> f == Field("", "")
    ensures ':' in s ==> |f.key| > 0 && f.key[|f.key| - 1] == ':' && ':' !in f.key[..|f.key| - 1]
    ensures ':' in s ==> f.key <= s
    ensures f.val == [] || !IsBlank(f.val[0])
  {
    var k := IndexOf(s, ':', 0);
    if k == |s| then Field("", "")
    else
      assert s[..k + 1][..k] == s[..k];
      Field(s[..k + 1], s[BlankEnd(s, k + 1)..])
  }

  /** The inverse direction: a key, a colon, blanks and a value split into that key and value. */
  lemma SplitKeyValueOf(k: string, w: string, v: string)
    requires ':' !in k && forall i :: 0 <= i < |w| ==> IsBlank(w[i])
    requires v == [] || !IsBlank(v[0])
    ensures SplitKeyValue(k + ":" + w + v) == Field(k + ":", v)
  {
    var s := k + ":" + w + v;
    assert forall m :: 0 <= m < |k| ==> s[m] == k[m];
    assert s[|k|] == ':';
    IndexOfAt(s, ':', 0, |k|);
    var e := |k| + 1 + |w|;
    assert forall m :: |k| + 1 <= m < e ==> s[m] == w[m - |k| - 1];
    assert e < |s| ==> s[e] == v[0];
    BlankEndAt(s, |k| + 1, e);
    assert s[..|k| + 1] == k + ":";
    assert s[e..] == v;
  }

  /** A value that grew past the field limit is cut to FIELD_MAX - 1 characters. */
  function Capped(v: string): (r: string)
    ensures |r| < FIELD_MAX && r <= v
    ensures |v| < FIELD_MAX ==> r == v
  {
    if |v| >= FIELD_MAX then v[..FIELD_MAX - 1] else v
  }

  /** The texts Load reads: fgets chunks of at most LINE_LEN - 2 characters, each cut at its first CR or LF. */
  function LoadTexts(data: string): (ts: seq<string>)
  {
    var chunks := FgetsChunks(data, LINE_LEN - 1);
    seq(|chunks|, i requires 0 <= i < |chunks| => BeforeCrlf(CStr(chunks[i])))
  }

  /**
   * The fields the unfolding loop completes when it reads ts from index i with
   * the field (key, val) pending. A text starting with a blank continues the
   * pending value; an empty text ends the header; any other text completes the
   * pending field (when its key is not empty) and starts a new one. A field
   * still pending when the texts run out is never completed.
   */
  function Unfold(ts: seq<string>, i: nat, key: string, val: string): seq<Field>
    requires i <= |ts|
    decreases |ts| - i
  {
    if i == |ts| then []
    else
      var t := ts[i];
      if t != [] && IsBlank(t[0]) then Unfold(ts, i + 1, key, Capped(val + t[1..]))
      else
        var done := if key != [] then [Field(key, val)] else [];
        if t == [] then done
        else
          var f := SplitKeyValue(t);
          done + Unfold(ts, i + 1, f.key, f.val)
  }

  /** A well-formed header field: a colon-terminated key with no other colon, not starting with a blank. */
  predicate WellFormed(f: Field) {
    |f.key| > 0 && f.key[|f.key| - 1] == ':' && ':' !in f.key[..|f.key| - 1] &&
    !IsBlank(f.key[0]) && (f.val == [] || !IsBlank(f.val[0]))
  }

  /** A field written as a header line: the key, one space, the value. */
  function FieldText(f: Field): string {
    f.key + " " + f.val
  }

  lemma FieldTextSplits(f: Field)
    requires WellFormed(f)
    ensures FieldText(f) != [] && !IsBlank(FieldText(f)[0])
    ensures SplitKeyValue(FieldText(f)) == f
  {
    var k0 := f.key[..|f.key| - 1];
    assert f.key == k0 + ":";
    assert FieldText(f) == k0 + ":" + " " + f.val;
    SplitKeyValueOf(k0, " ", f.val);
  }

  /** Texts ts[i..i + |hs|] are the header lines of hs. */
  predicate LinesAt(ts: seq<string>, i: nat, hs: seq<Field>) {
    i + |hs| <= |ts| && forall j :: 0 <= j < |hs| ==> ts[i + j] == FieldText(hs[j])
  }

  /** One step of the unfolding over a text that starts a new field. */
  lemma UnfoldStep(ts: seq<string>, i: nat, key: string, val: string)
    requires i < |ts| && ts[i] != [] && !IsBlank(ts[i][0])
    ensures var f := SplitKeyValue(ts[i]);
      Unfold(ts, i, key, val) == (if key != [] then [Field(key, val)] else []) + Unfold(ts, i + 1, f.key, f.val)
  {
  }

  /** An empty text ends the header, completing the pending field if there is one. */
  lemma UnfoldEnd(ts: seq<string>, i: nat, key: string, val: string)
    requires i < |ts| && ts[i] == []
    ensures Unfold(ts, i, key, val) == if key != [] then [Field(key, val)] else []
  {
  }

  /** The line of a well-formed field completes the pending field p and makes its own field pending. */
  lemma UnfoldField(ts: seq<string>, i: nat, p: Field, h: Field, r: seq<Field>)
    requires i < |ts| && ts[i] == FieldText(h) && WellFormed(h) && p.key != []
    requires Unfold(ts, i + 1, h.key, h.val) == r
    ensures Unfold(ts, i, p.key, p.val) == [p] + r
  {
    FieldTextSplits(h);
    UnfoldStep(ts, i, p.key, p.val);
  }

  lemma LinesAtRest(ts: seq<string>, i: nat, hs: seq<Field>)
    requires LinesAt(ts, i, hs) && hs != []
    ensures LinesAt(ts, i + 1, hs[1..]) && ts[i] == FieldText(hs[0])
  {
    assert ts[i + 0] == FieldText(hs[0]);
    forall j | 0 <= j < |hs[1..]| ensures ts[i + 1 + j] == FieldText(hs[1..][j]) {
      assert ts[i + (j + 1)] == FieldText(hs[j + 1]);
    }
  }

  lemma WellFormedRest(hs: seq<Field>)
    requires hs != [] && forall j :: 0 <= j < |hs| ==> WellFormed(hs[j])
    ensures WellFormed(hs[0]) && forall j :: 0 <= j < |hs[1..]| ==> WellFormed(hs[1..][j])
  {
  }

  /** Header lines then an empty line: with p pending, unfolding completes p and then every field. */
  lemma {:induction false} UnfoldLines(ts: seq<string>, i: nat, p: Field, hs: seq<Field>)
    requires p.key != [] && LinesAt(ts, i, hs) && i + |hs| < |ts| && ts[i + |hs|] == []
    requires forall j :: 0 <= j < |hs| ==> WellFormed(hs[j])
    ensures Unfold(ts, i, p.key, p.val) == [p] + hs
    decreases |hs|
  {
    if hs == [] {
      UnfoldEnd(ts, i, p.key, p.val);
    } else {
      LinesAtRest(ts, i, hs);
      WellFormedRest(hs);
      assert i + 1 + |hs[1..]| == i + |hs|;
      UnfoldLines(ts, i + 1, hs[0], hs[1..]);
      UnfoldField(ts, i, p, hs[0], [hs[0]] + hs[1..]);
      assert [hs[0]] + hs[1..] == hs;
    }
  }

  /** Header lines without an empty line after them: the last field, last, is never completed. */
  lemma {:induction false} UnfoldUnterminated(ts: seq<string>, i: nat, p: Field, hs: seq<Field>, last: Field)
    requires p.key != [] && LinesAt(ts, i, hs + [last]) && i + |hs| + 1 == |ts|
    requires forall j :: 0 <= j < |hs + [last]| ==> WellFormed((hs + [last])[j])
    ensures Unfold(ts, i, p.key, p.val) == [p] + hs
    decreases |hs|
  {
    LinesAtRest(ts, i, hs + [last]);
    WellFormedRest(hs + [last]);
    if hs == [] {
      assert Unfold(ts, i + 1, last.key, last.val) == [];
      UnfoldField(ts, i, p, last, []);
    } else {
      assert (hs + [last])[1..] == hs[1..] + [last];
      UnfoldUnterminated(ts, i + 1, hs[0], hs[1..], last);
      UnfoldField(ts, i, p, hs[0], [hs[0]] + hs[1..]);
      assert [hs[0]] + hs[1..] == hs;
    }
  }

  /** The texts of a header written one field per line. */
  function HeaderTexts(hs: seq<Field>): (ts: seq<string>)
    ensures LinesAt(ts, 0, hs) && |ts| == |hs|
  {
    seq(|hs|, j requires 0 <= j < |hs| => FieldText(hs[j]))
  }

  /** With nothing pending, the first header line only makes its field pending. */
  lemma UnfoldFirst(ts: seq<string>, hs: seq<Field>)
    requires hs != [] && LinesAt(ts, 0, hs) && WellFormed(hs[0])
    ensures Unfold(ts, 0, "", "") == Unfold(ts, 1, hs[0].key, hs[0].val)
  {
    LinesAtRest(ts, 0, hs);
    FieldTextSplits(hs[0]);
    UnfoldStep(ts, 0, "", "");
  }

  /**
   * Reading back a header written one field per line and ended by an empty
   * line gives exactly those fields, whatever follows.
   */
  lemma UnfoldHeader(hs: seq<Field>, rest: seq<string>)
    requires forall j :: 0 <= j < |hs| ==> WellFormed(hs[j])
    ensures Unfold(HeaderTexts(hs) + [[]] + rest, 0, "", "") == hs
  {
    var ts := HeaderTexts(hs) + [[]] + rest;
    assert LinesAt(ts, 0, hs);
    if hs == [] {
      UnfoldEnd(ts, 0, "", "");
    } else {
      WellFormedRest(hs);
      UnfoldFirst(ts, hs);
      LinesAtRest(ts, 0, hs);
      UnfoldLines(ts, 1, hs[0], hs[1..]);
      assert [hs[0]] + hs[1..] == hs;
    }
  }

  /** Without an empty line after it, the last header line is lost. */
  lemma UnfoldWithoutBlankLine(hs: seq<Field>, last: Field)
    requires forall j :: 0 <= j < |hs + [last]| ==> WellFormed((hs + [last])[j])
    ensures Unfold(HeaderTexts(hs + [last]), 0, "", "") == hs
  {
    var ts := HeaderTexts(hs + [last]);
    WellFormedRest(hs + [last]);
    UnfoldFirst(ts, hs + [last]);
    LinesAtRest(ts, 0, hs + [last]);
    if hs == [] {
      assert Unfold(ts, 1, last.key, last.val) == [];
    } else {
      assert (hs + [last])[1..] == hs[1..] + [last];
      UnfoldUnterminated(ts, 1, hs[0], hs[1..], last);
      assert [hs[0]] + hs[1..] == hs;
    }
  }

  /** A continuation line (a leading blank) adds its text, minus that blank, to the value before it. */
  lemma UnfoldContinuation(f: Field, c: string, rest: seq<string>)
    requires WellFormed(f)
    ensures Unfold([FieldText(f), " " + c, []] + rest, 0, "", "") == [Field(f.key, Capped(f.val + c))]
  {
    var ts := [FieldText(f), " " + c, []] + rest;
    FieldTextSplits(f);
    UnfoldStep(ts, 0, "", "");
    assert ts[1][1..] == c;
    UnfoldEnd(ts, 2, f.key, Capped(f.val + c));
  }

  /* ------------------------------------------------------- kept fields */

  /** The header values an article keeps. */
  datatype Headers = Headers(from: string, date: string, messageid: string, subject: string,
                             references: string, xref: string, lines: int)

  const NoHeaders := Headers("", "", "", "", "", "", 0)

  /** The header values kept, each with the header name that sets it. */
  datatype Slot = SubjectSlot | FromSlot | DateSlot | XrefSlot | MessageIdSlot | ReferencesSlot | LinesSlot

  function SlotName(s: Slot): string {
    match s
    case SubjectSlot => "Subject:"
    case FromSlot => "From:"
    case DateSlot => "Date:"
    case XrefSlot => "Xref:"
    case MessageIdSlot => "Message-ID:"
    case ReferencesSlot => "References:"
    case LinesSlot => "Lines:"
  }

  /** The text a slot holds; the Lines: slot holds a number instead. */
  function Text(h: Headers, s: Slot): string
    requires s != LinesSlot
  {
    match s
    case SubjectSlot => h.subject
    case FromSlot => h.from
    case DateSlot => h.date
    case XrefSlot => h.xref
    case MessageIdSlot => h.messageid
    case ReferencesSlot => h.references
  }

  /**
   * _ParseHeader: a field whose key matches one of the kept names, without
   * regard to case, sets that value (Lines: through atoi); any other field
   * changes nothing.
   */
  function ParseHeader(h: Headers, f: Field): Headers {
    var k := f.key;
    if EqualsIgnoreCase(k, "Subject:") then h.(subject := f.val)
    else if EqualsIgnoreCase(k, "From:") then h.(from := f.val)
    else if EqualsIgnoreCase(k, "Date:") then h.(date := f.val)
    else if EqualsIgnoreCase(k, "Xref:") then h.(xref := f.val)
    else if EqualsIgnoreCase(k, "Message-ID:") then h.(messageid := f.val)
    else if EqualsIgnoreCase(k, "References:") then h.(references := f.val)
    else if EqualsIgnoreCase(k, "Lines:") then h.(lines := Atoi(f.val))
    else h
  }

  /** A key that matches one kept name matches no other. */
  lemma SlotNamesDistinct(k: string, s: Slot, t: Slot)
    requires s != t && EqualsIgnoreCase(k, SlotName(s))
    ensures !EqualsIgnoreCase(k, SlotName(t))
  {
    var a := SlotName(s);
    var b := SlotName(t);
    if |a| == |b| && |k| == |a| {
      assert ToLower(k[0]) == ToLower(a[0]);
      assert ToLower(a[0]) != ToLower(b[0]);
    }
  }

  /** One field sets just the slot its key names. */
  lemma ParseHeaderSlot(h: Headers, f: Field, s: Slot)
    ensures s != LinesSlot ==>
      Text(ParseHeader(h, f), s) == if EqualsIgnoreCase(f.key, SlotName(s)) then f.val else Text(h, s)
    ensures s == LinesSlot ==>
      ParseHeader(h, f).lines == if EqualsIgnoreCase(f.key, "Lines:") then Atoi(f.val) else h.lines
  {
    if EqualsIgnoreCase(f.key, SlotName(s)) {
      forall t | t != s ensures !EqualsIgnoreCase(f.key, SlotName(t)) {
        SlotNamesDistinct(f.key, s, t);
      }
      assert !EqualsIgnoreCase(f.key, SlotName(SubjectSlot)) || s == SubjectSlot;
      assert !EqualsIgnoreCase(f.key, SlotName(FromSlot)) || s == FromSlot;
      assert !EqualsIgnoreCase(f.key, SlotName(DateSlot)) || s == DateSlot;
      assert !EqualsIgnoreCase(f.key, SlotName(XrefSlot)) || s == XrefSlot;
      assert !EqualsIgnoreCase(f.key, SlotName(MessageIdSlot)) || s == MessageIdSlot;
      assert !EqualsIgnoreCase(f.key, SlotName(ReferencesSlot)) || s == ReferencesSlot;
    }
  }

  /** The header values after the fields fs, in order, have each passed through _ParseHeader. */
  function Record(h: Headers, fs: seq<Field>): Headers
    decreases |fs|
  {
    if fs == [] then h else Record(ParseHeader(h, fs[0]), fs[1..])
  }

  lemma {:induction false} RecordSnoc(h: Headers, fs: seq<Field>, f: Field)
    ensures Record(h, fs + [f]) == ParseHeader(Record(h, fs), f)
    decreases |fs|
  {
    if fs == [] {
      assert Record(ParseHeader(h, f), []) == ParseHeader(h, f);
    } else {
      assert (fs + [f])[1..] == fs[1..] + [f];
      RecordSnoc(ParseHeader(h, fs[0]), fs[1..], f);
    }
  }

  /** The value of the last field whose key is name, case aside. */
  function LastValue(fs: seq<Field>, name: string): Option<string>
    decreases |fs|
  {
    if fs == [] then None
    else if EqualsIgnoreCase(fs[|fs| - 1].key, name) then Some(fs[|fs| - 1].val)
    else LastValue(fs[..|fs| - 1], name)
  }

  /** Each kept text is the value of the last field with its name, or what it was before when there is none. */
  lemma {:induction false} RecordText(h: Headers, fs: seq<Field>, s: Slot)
    requires s != LinesSlot
    ensures Text(Record(h, fs), s) == match LastValue(fs, SlotName(s)) case Some(v) => v case None => Text(h, s)
    decreases |fs|
  {
    if fs != [] {
      var init := fs[..|fs| - 1];
      var f := fs[|fs| - 1];
      assert init + [f] == fs;
      RecordSnoc(h, init, f);
      ParseHeaderSlot(Record(h, init), f, s);
      RecordText(h, init, s);
    }
  }

  /** The line count is atoi of the last Lines: field, or what it was before when there is none. */
  lemma {:induction false} RecordLines(h: Headers, fs: seq<Field>)
    ensures Record(h, fs).lines == match LastValue(fs, "Lines:") case Some(v) => Atoi(v) case None => h.lines
    decreases |fs|
  {
    if fs != [] {
      var init := fs[..|fs| - 1];
      var f := fs[|fs| - 1];
      assert init + [f] == fs;
      RecordSnoc(h, init, f);
      ParseHeaderSlot(Record(h, init), f, LinesSlot);
      RecordLines(h, init);
    }
  }

  /** The header values Load takes from an article file. */
  function ArticleHeaders(data: string): Headers {
    Record(NoHeaders, Unfold(LoadTexts(data), 0, "", ""))
  }

  /** A header line as a file holds it: no CR, LF or NUL, short enough for one fgets call. */
  predicate StoredField(f: Field) {
    WellFormed(f) && |FieldText(f)| <= LINE_LEN - 3 &&
    '\r' !in FieldText(f) && '\n' !in FieldText(f) && '\0' !in FieldText(f)
  }

  /** A line without its last character (its newline). */
  function Chomp(l: string): string {
    if l == [] then [] else l[..|l| - 1]
  }

  /** A complete line short enough for one fgets call, without CR or NUL. */
  predicate ShortLine(l: string) {
    IsLine(l) && |l| <= LINE_LEN - 2 && '\r' !in l && '\0' !in l
  }

  /** The text Load takes from a short line is the line without its newline. */
  lemma LoadTextOfLine(l: string)
    requires ShortLine(l)
    ensures BeforeCrlf(CStr(l)) == Chomp(l)
  {
    var t := l[..|l| - 1];
    assert CStr(l) == l;
    assert forall m :: 0 <= m < |t| ==> !IsCrlf(l[m]) by {
      forall m | 0 <= m < |t| ensures !IsCrlf(l[m]) {
        assert l[m] == t[m];
      }
    }
    CrlfIndexAt(l, 0, |t|);
  }

  /** Short lines at the front of a file each give Load one text, the line without its newline. */
  lemma LoadTextsOfLines(ls: seq<string>, rest: string)
    requires forall i :: 0 <= i < |ls| ==> ShortLine(ls[i])
    ensures var ts := LoadTexts(Concat(ls) + rest);
      |ts| >= |ls| && forall i :: 0 <= i < |ls| ==> ts[i] == Chomp(ls[i])
  {
    LinesChunksThen(ls, rest, LINE_LEN - 1);
    var chunks := FgetsChunks(Concat(ls) + rest, LINE_LEN - 1);
    forall i | 0 <= i < |ls| ensures LoadTexts(Concat(ls) + rest)[i] == Chomp(ls[i]) {
      assert chunks[i] == ls[i];
      LoadTextOfLine(ls[i]);
    }
  }

  /** The file lines of a header: each field as key, space, value and newline, then the empty line. */
  function HeaderFileLines(hs: seq<Field>): (ls: seq<string>)
    ensures |ls| == |hs| + 1
  {
    seq(|hs|, j requires 0 <= j < |hs| => FieldText(hs[j]) + "\n") + ["\n"]
  }

  lemma HeaderFileLinesShort(hs: seq<Field>)
    requires forall j :: 0 <= j < |hs| ==> StoredField(hs[j])
    ensures var ls := HeaderFileLines(hs);
      forall i :: 0 <= i < |ls| ==> ShortLine(ls[i]) && Chomp(ls[i]) == if i < |hs| then FieldText(hs[i]) else []
  {
    var ls := HeaderFileLines(hs);
    forall i | 0 <= i < |ls|
      ensures ShortLine(ls[i]) && Chomp(ls[i]) == if i < |hs| then FieldText(hs[i]) else []
    {
      if i < |hs| {
        var t := FieldText(hs[i]);
        assert StoredField(hs[i]);
        assert ls[i] == t + "\n";
        assert ls[i][..|ls[i]| - 1] == t;
      } else {
        assert ls[i] == "\n";
      }
    }
  }

  lemma TextsAsHeader(ts: seq<string>, ls: seq<string>, hs: seq<Field>)
    requires |ls| == |hs| + 1 && |ts| >= |ls|
    requires forall i :: 0 <= i < |ls| ==> ts[i] == Chomp(ls[i])
    requires forall i :: 0 <= i < |ls| ==> Chomp(ls[i]) == if i < |hs| then FieldText(hs[i]) else []
    ensures ts == HeaderTexts(hs) + [[]] + ts[|hs| + 1..]
  {
    var texts := HeaderTexts(hs) + [[]] + ts[|hs| + 1..];
    forall i | 0 <= i < |ts| ensures ts[i] == texts[i] {
      if i <= |hs| {
        assert ts[i] == Chomp(ls[i]);
      }
    }
  }

  /** The texts Load reads from a stored header: the header lines, the empty line, then the body's texts. */
  lemma LoadTextsOfHeader(hs: seq<Field>, body: string)
    requires forall j :: 0 <= j < |hs| ==> StoredField(hs[j])
    ensures var ts := LoadTexts(Concat(HeaderFileLines(hs)) + body);
      |ts| > |hs| && ts == HeaderTexts(hs) + [[]] + ts[|hs| + 1..]
  {
    var ls := HeaderFileLines(hs);
    HeaderFileLinesShort(hs);
    LoadTextsOfLines(ls, body);
    TextsAsHeader(LoadTexts(Concat(ls) + body), ls, hs);
  }

  /**
   * Loading an article file that starts with a header written one field per
   * line and an empty line keeps exactly the values those fields set,
   * whatever body follows.
   */
  lemma ArticleHeadersOfFile(hs: seq<Field>, body: string)
    requires forall j :: 0 <= j < |hs| ==> StoredField(hs[j])
    ensures ArticleHeaders(Concat(HeaderFileLines(hs)) + body) == Record(NoHeaders, hs)
  {
    LoadTextsOfHeader(hs, body);
    var ts := LoadTexts(Concat(HeaderFileLines(hs)) + body);
    assert forall j :: 0 <= j < |hs| ==> WellFormed(hs[j]);
    UnfoldHeader(hs, ts[|hs| + 1..]);
  }

  /* ------------------------------------------------------------ sending */

  /** A line longer than LINE_LEN - 4 characters is cut there and given a newline. */
  function Cut(t: string): string {
    if |t| >= LINE_LEN - 4 then t[..LINE_LEN - 4] + "\n" else t
  }

  /** The first CR or LF becomes CR LF and ends the line; a line without one is left as it is. */
  function Crlfed(t: string): string {
    var k := CrlfIndex(t, 0);
    if k < |t| then t[..k] + "\r\n" else t
  }

  /** Dot-stuffing: a line starting with a dot gets one more (RFC 3977 section 3.1.1). */
  function Stuffed(u: string): string {
    if u != [] && u[0] == '.' then "." + u else u
  }

  /** The line SendArticle writes for one fgets chunk, which a NUL in the file ends early. */
  function WireText(c: string): string {
    Stuffed(Crlfed(Cut(CStr(c))))
  }

  /** What a client makes of a received line: a leading dot is dropped (RFC 3977 section 3.1.1). */
  function Unstuffed(w: string): string {
    if w != [] && w[0] == '.' then w[1..] else w
  }

  /** Unstuffing undoes stuffing. */
  lemma UnstuffStuffed(u: string)
    ensures Unstuffed(Stuffed(u)) == u
  {
  }

  /** No line sent for an article is the lone dot that ends a multi-line response. */
  lemma WireTextNotTerminator(c: string)
    ensures WireText(c) != ".\r\n"
  {
    var u := Crlfed(Cut(CStr(c)));
    if u != [] && u[0] == '.' {
      assert Stuffed(u)[1] == '.';
    } else {
      assert Stuffed(u) == u;
    }
  }

  /** A sent line is never longer than LINE_LEN - 1 characters. */
  lemma WireTextBounded(c: string)
    ensures |WireText(c)| <= LINE_LEN - 1
  {
  }

  /** A stored line of the file arrives, once unstuffed, as that line with CR LF for its newline. */
  lemma WireTextOfLine(l: string)
    requires IsLine(l) && |l| < LINE_LEN - 4 && '\r' !in l && '\0' !in l
    ensures Unstuffed(WireText(l)) == Chomp(l) + "\r\n"
    ensures WireText(l)[0] == '.' <==> l[0] == '.'
  {
    var t := Chomp(l);
    assert CStr(l) == l;
    assert Cut(l) == l;
    assert forall m :: 0 <= m < |t| ==> !IsCrlf(l[m]) by {
      forall m | 0 <= m < |t| ensures !IsCrlf(l[m]) {
        assert l[m] == t[m];
      }
    }
    CrlfIndexAt(l, 0, |t|);
    assert Crlfed(l) == t + "\r\n";
    UnstuffStuffed(t + "\r\n");
  }

  /** The chunk that ends the header: an empty line. */
  predicate IsSeparator(c: string) { c != [] && c[0] == '\n' }

  /** Index of the first separator chunk at or after i, or |cs|. */
  function SepIndex(cs: seq<string>, i: nat): (k: nat)
    requires i <= |cs|
    ensures i <= k <= |cs|
    ensures forall m :: i <= m < k ==> !IsSeparator(cs[m])
    ensures k < |cs| ==> IsSeparator(cs[k])
    decreases |cs| - i
  {
    if i < |cs| && !IsSeparator(cs[i]) then SepIndex(cs, i + 1) else i
  }

  lemma {:induction false} SepIndexAt(cs: seq<string>, i: nat, k: nat)
    requires i <= k <= |cs|
    requires forall m :: i <= m < k ==> !IsSeparator(cs[m])
    requires k < |cs| ==> IsSeparator(cs[k])
    ensures SepIndex(cs, i) == k
    decreases |cs| - i
  {
    if i < k {
      SepIndexAt(cs, i + 1, k);
    }
  }

  /** A range lo..hi of chunk indices. */
  datatype Range = Range(lo: nat, hi: nat)

  /** The chunks sent of n chunks whose separator is chunk k (k == n when there is none). */
  function SendRange(n: nat, k: nat, head: bool, body: bool): (r: Range)
    requires k <= n
    ensures r.lo <= r.hi <= n
  {
    if head && body then Range(0, n)           // everything, the separator included
    else if head then Range(0, k)              // the header lines
    else if body then Range(Min(k + 1, n), n)  // what follows the separator; nothing without one
    else Range(0, 0)
  }

  /** What SendArticle writes for an article file holding data. */
  function Sent(data: string, head: bool, body: bool): string {
    var cs := FgetsChunks(data, LINE_LEN);
    var r := SendRange(|cs|, SepIndex(cs, 0), head, body);
    ConcatMap(WireText, cs[r.lo..r.hi])
  }

  /** Texts of items 0..n are those of 0..k, then item k, then k + 1..n. */
  lemma ConcatMapAround(f: string -> string, cs: seq<string>, k: nat)
    requires k < |cs|
    ensures ConcatMap(f, cs[0..|cs|]) == ConcatMap(f, cs[0..k]) + f(cs[k]) + ConcatMap(f, cs[k + 1..|cs|])
  {
    assert cs[0..|cs|] == cs[0..k] + ([cs[k]] + cs[k + 1..|cs|]);
    ConcatMapAppend(f, cs[0..k], [cs[k]] + cs[k + 1..|cs|]);
    ConcatMapAppend(f, [cs[k]], cs[k + 1..|cs|]);
    ConcatMapOne(f, cs[k]);
  }

  /** The whole range is the header range, the separator (if any) and the body range. */
  lemma RangesAround(f: string -> string, cs: seq<string>, k: nat)
    requires k <= |cs|
    ensures var all := SendRange(|cs|, k, true, true);
      var head := SendRange(|cs|, k, true, false);
      var body := SendRange(|cs|, k, false, true);
      ConcatMap(f, cs[all.lo..all.hi]) ==
        ConcatMap(f, cs[head.lo..head.hi]) + (if k < |cs| then f(cs[k]) else "") + ConcatMap(f, cs[body.lo..body.hi])
  {
    if k < |cs| {
      ConcatMapAround(f, cs, k);
    } else {
      assert cs[|cs|..|cs|] == [];
    }
  }

  /**
   * ARTICLE sends what HEAD sends, then the empty line, then what BODY sends
   * (the empty line only when the file has one).
   */
  lemma ArticleIsHeadThenBody(data: string)
    ensures var cs := FgetsChunks(data, LINE_LEN); var k := SepIndex(cs, 0);
      Sent(data, true, true) ==
        Sent(data, true, false) + (if k < |cs| then WireText(cs[k]) else "") + Sent(data, false, true)
  {
    var cs := FgetsChunks(data, LINE_LEN);
    RangesAround(WireText, cs, SepIndex(cs, 0));
  }

  /** The chunks of a file holding short lines, an empty line and a body. */
  lemma ChunksOfFile(ls: seq<string>, body: string)
    requires forall i :: 0 <= i < |ls| ==> IsLine(ls[i]) && |ls[i]| < LINE_LEN - 4
    ensures FgetsChunks(Concat(ls) + "\n" + body, LINE_LEN) == ls + ["\n"] + FgetsChunks(body, LINE_LEN)
  {
    assert Concat(ls) + "\n" + body == Concat(ls) + ("\n" + body);
    LinesChunksThen(ls, "\n" + body, LINE_LEN);
    LineChunk("\n", body, LINE_LEN);
  }

  /**
   * For a file holding header lines, an empty line and a body, HEAD sends
   * exactly the header lines and BODY exactly the body's chunks.
   */
  lemma SentOfFile(ls: seq<string>, body: string)
    requires forall i :: 0 <= i < |ls| ==> IsLine(ls[i]) && |ls[i]| < LINE_LEN - 4 && !IsSeparator(ls[i])
    ensures Sent(Concat(ls) + "\n" + body, true, false) == ConcatMap(WireText, ls)
    ensures Sent(Concat(ls) + "\n" + body, false, true) == ConcatMap(WireText, FgetsChunks(body, LINE_LEN))
  {
    ChunksOfFile(ls, body);
    var cs := ls + ["\n"] + FgetsChunks(body, LINE_LEN);
    SepIndexAt(cs, 0, |ls|);
    assert cs[0..|ls|] == ls;
    assert cs[|ls| + 1..|cs|] == FgetsChunks(body, LINE_LEN);
  }

  /* ----------------------------------------------------------- overview */

  /** SanitizeOverview: tabs separate overview fields, so a tab in a value becomes a space (RFC 2980 section 2.8). */
  function Sanitized(v: string): (r: string)
    ensures '\t' !in r && |r| == |v|
  {
    ReplacedHasNoFrom(v, '\t', ' ');
    Replaced(v, '\t', ' ')
  }

  /** The overview field for one overview header name; None for a name the server does not fill. */
  function ColumnValue(h: Headers, name: string): (r: Option<string>)
    ensures r.Some? ==> '\t' !in r.value
  {
    if EqualsIgnoreCase(name, "Subject:") then Some(Sanitized(h.subject))
    else if EqualsIgnoreCase(name, "From:") then Some(Sanitized(h.from))
    else if EqualsIgnoreCase(name, "Date:") then Some(Sanitized(h.date))
    else if EqualsIgnoreCase(name, "Message-ID:") then Some(Sanitized(h.messageid))
    else if EqualsIgnoreCase(name, "References:") then Some(Sanitized(h.references))
    else if EqualsIgnoreCase(name, "Lines:") then
      if h.lines > 0 then DigitsHaveNoTab(h.lines); Some(Ultos(h.lines)) else Some("")
    else if EqualsIgnoreCase(name, "Bytes:") then Some("")
    else if EqualsIgnoreCase(name, "Xref:full") then
      Some(if h.xref != "" then "Xref: " + Sanitized(h.xref) else "")
    else None
  }

  lemma DigitsHaveNoTab(n: nat)
    ensures '\t' !in Ultos(n)
  {
    var u := Ultos(n);
    assert forall i :: 0 <= i < |u| ==> IsDigit(u[i]);
  }

  /** What the reply gains for one column: a tab and the field, or nothing. */
  function Tabbed(v: Option<string>): string {
    match v
    case Some(x) => "\t" + x
    case None => ""
  }

  /** The columns one after another. */
  function TabJoin(vs: seq<Option<string>>): string
    decreases |vs|
  {
    if vs == [] then [] else TabJoin(vs[..|vs| - 1]) + Tabbed(vs[|vs| - 1])
  }

  /** The fields present, in order. */
  function Present(vs: seq<Option<string>>): seq<string>
    decreases |vs|
  {
    if vs == [] then []
    else
      var init := Present(vs[..|vs| - 1]);
      match vs[|vs| - 1]
      case Some(v) => init + [v]
      case None => init
  }

  /** The overview field of each name, or None. */
  function ColumnValues(h: Headers, names: seq<string>): (vs: seq<Option<string>>)
    ensures |vs| == |names|
    ensures forall i :: 0 <= i < |vs| ==> vs[i].Some? ==> '\t' !in vs[i].value
  {
    seq(|names|, i requires 0 <= i < |names| => ColumnValue(h, names[i]))
  }

  /** The overview line for article n: its number, then the columns (RFC 2980 section 2.8). */
  function OverviewLine(n: nat, h: Headers, names: seq<string>): string {
    Ultos(n) + TabJoin(ColumnValues(h, names))
  }

  /** The tab-separated fields of s. */
  function TabFields(s: string): seq<string>
    decreases |s|
  {
    var k := IndexOf(s, '\t', 0);
    if k == |s| then [s] else [s[..k]] + TabFields(s[k + 1..])
  }

  lemma {:induction false} TabFieldsSnoc(s: string, v: string)
    requires '\t' !in v
    ensures TabFields(s + "\t" + v) == TabFields(s) + [v]
    decreases |s|
  {
    var t := s + "\t" + v;
    var k := IndexOf(s, '\t', 0);
    assert forall m :: 0 <= m < k ==> t[m] == s[m];
    if k == |s| {
      IndexOfAt(t, '\t', 0, |s|);
      assert t[..|s|] == s;
      assert t[|s| + 1..] == v;
      IndexOfAt(v, '\t', 0, |v|);
      assert v[..|v|] == v;
    } else {
      IndexOfAt(t, '\t', 0, k);
      assert t[..k] == s[..k];
      assert t[k + 1..] == s[k + 1..] + "\t" + v;
      TabFieldsSnoc(s[k + 1..], v);
    }
  }

  lemma TabFieldsPlain(s: string)
    requires '\t' !in s
    ensures TabFields(s) == [s]
  {
    IndexOfAt(s, '\t', 0, |s|);
  }

  /** After a tab-free text u, tab-free columns split into the fields present. */
  lemma {:induction false} TabJoinFields(u: string, vs: seq<Option<string>>)
    requires '\t' !in u
    requires forall i :: 0 <= i < |vs| ==> vs[i].Some? ==> '\t' !in vs[i].value
    ensures TabFields(u + TabJoin(vs)) == [u] + Present(vs)
    decreases |vs|
  {
    if vs == [] {
      assert u + [] == u;
      TabFieldsPlain(u);
    } else {
      var init := vs[..|vs| - 1];
      TabJoinFields(u, init);
      match vs[|vs| - 1]
      case Some(v) =>
        assert u + TabJoin(vs) == u + TabJoin(init) + "\t" + v;
        TabFieldsSnoc(u + TabJoin(init), v);
      case None =>
        assert u + TabJoin(vs) == u + TabJoin(init);
    }
  }

  /** Split at its tabs, the overview line is the article number, then one field per name the server fills. */
  lemma OverviewFields(n: nat, h: Headers, names: seq<string>)
    ensures TabFields(OverviewLine(n, h, names)) == [Ultos(n)] + Present(ColumnValues(h, names))
  {
    DigitsHaveNoTab(n);
    TabJoinFields(Ultos(n), ColumnValues(h, names));
  }
}
