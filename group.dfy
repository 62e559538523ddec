/**
 * A newsgroup's directory and the two files in it: the ".info" counters and
 * the ".config" settings, with the tally BuildInfo makes of the articles in a
 * directory listing; and the header and article transformations a posting
 * goes through (ParseArticle, UpdatePath, ReorderHeader, the server's own
 * header lines).
 */
module Groups {
  import opened CLib
  import opened Subs
  import opened Configuration
  import opened Articles
  import opened Fs

  /* ------------------------------------------------------------ directory */

  /** Dirname: spool, "/" and the group name, with every dot of the whole path made a slash. */
  function GroupDir(spool: string, name: string): (d: string)
    ensures |d| == |spool| + 1 + |name| && '.' !in d
  {
    ReplacedHasNoFrom(spool + "/" + name, '.', '/');
    Replaced(spool + "/" + name, '.', '/')
  }

  /** With no dot in the spool path, article n of a group lies where GetArticlePath puts it. */
  lemma GroupDirHoldsArticles(cfg: Settings, name: string, n: nat)
    requires '.' !in cfg.spoolDir
    ensures NumberPath(GroupDir(cfg.spoolDir, name), cfg.msgModDirs != 0, n) == ArticlePath(cfg, name, n)
  {
    var sp := cfg.spoolDir;
    var s := sp + "/" + name;
    var t := sp + "/" + Replaced(name, '.', '/');
    forall i | 0 <= i < |s| ensures Replaced(s, '.', '/')[i] == t[i] {
      if i > |sp| {
        assert s[i] == name[i - |sp| - 1];
      } else if i < |sp| {
        assert s[i] == sp[i];
      }
    }
    assert GroupDir(sp, name) == t;
  }

  /** A dot in the spool path is made a slash too, so the group directory is not under that spool path. */
  lemma DottedSpoolMoves(spool: string, name: string)
    requires '.' in spool
    ensures GroupDir(spool, name) != spool + "/" + Replaced(name, '.', '/')
  {
    var k :| 0 <= k < |spool| && spool[k] == '.';
    assert (spool + "/" + Replaced(name, '.', '/'))[k] == '.';
  }

  /* ---------------------------------------------------------- .info file */

  /** The counters kept in ".info": lowest and highest article number, and how many articles there are. */
  datatype Info = Info(start: nat, end: nat, total: nat)

  /** A line of a counter or setting: the key, the padding that aligns the values, the value. */
  function KeyLine(key: string, pad: string, v: string): string {
    key + pad + v + "\n"
  }

  /** The three lines SaveInfo writes, in order: "start", "end", "total", each padded to twelve columns. */
  function InfoLines(i: Info): seq<string> {
    [KeyLine("start", "       ", Ultos(i.start)),
     KeyLine("end", "         ", Ultos(i.end)),
     KeyLine("total", "       ", Ultos(i.total))]
  }

  function InfoText(i: Info): string {
    Concat(InfoLines(i))
  }

  /**
   * What LoadInfo and LoadConfig examine of one fgets chunk: its C string,
   * less its last character whenever it is longer than one character (the
   * newline, or whatever else ends a chunk cut short).
   */
  function Trimmed(chunk: string): (b: string)
    ensures '\0' !in b
  {
    var c := CStr(chunk);
    if |c| > 1 then c[..|c| - 1] else c
  }

  /** A chunk starting with '#', or a chunk that is a lone newline, is skipped. */
  predicate Skipped(b: string) {
    b != [] && (b[0] == '#' || b[0] == '\n')
  }

  /** sscanf(b, "<key> %lu", &v) == 1: the literal key, then a number after optional white space. */
  function KeyedULong(b: string, key: string): Option<nat> {
    if key <= b then ScanULong(b[|key|..]) else None
  }

  /** The effect of one chunk of ".info" on the counters. */
  function InfoLine(i: Info, chunk: string): Info {
    InfoOfText(i, Trimmed(chunk))
  }

  /** The effect of a trimmed chunk: start is tried first, then end, then total. */
  function InfoOfText(i: Info, b: string): Info {
    if Skipped(b) then i
    else if KeyedULong(b, "start").Some? then i.(start := KeyedULong(b, "start").value)
    else if KeyedULong(b, "end").Some? then i.(end := KeyedULong(b, "end").value)
    else if KeyedULong(b, "total").Some? then i.(total := KeyedULong(b, "total").value)
    else i
  }

  function InfoChunks(i: Info, chunks: seq<string>): Info
    decreases |chunks|
  {
    if chunks == [] then i else InfoChunks(InfoLine(i, chunks[0]), chunks[1..])
  }

  /** The counters after LoadInfo reads a ".info" file holding data, starting from i. */
  function InfoRead(i: Info, data: string): Info {
    InfoChunks(i, FgetsChunks(data, LINE_LEN - 1))
  }

  /** A key, white space and a numeral, as a chunk ending in a newline, is trimmed back to the text. */
  lemma TrimmedKeyLine(key: string, pad: string, d: string)
    requires '\0' !in key && '\0' !in pad && |key| > 0 && AllDigits(d)
    ensures Trimmed(key + pad + d + "\n") == key + pad + d
  {
    var l := key + pad + d + "\n";
    assert '\0' !in d by { assert forall m :: 0 <= m < |d| ==> IsDigit(d[m]); }
    assert '\0' !in l by {
      assert forall m :: 0 <= m < |l| ==> l[m] in key || l[m] in pad || l[m] in d || l[m] == '\n';
    }
    assert l[..|l| - 1] == key + pad + d;
  }

  /** A numeral after white space reads as its value. */
  lemma ScanPaddedNumeral(pad: string, d: string)
    requires AllSpace(pad) && |d| > 0 && AllDigits(d) && DecimalValue(d) <= ULONG_MAX
    ensures ScanULong(pad + d) == Some(DecimalValue(d))
  {
    ParseDigitsAfterSpace(pad, d, []);
    assert pad + d + [] == pad + d;
  }

  lemma ConcatAssoc(a: string, b: string, c: string)
    ensures a + b + c == a + (b + c)
  {
  }

  /** After its key, a keyed line is read by sscanf as the rest of the text. */
  lemma KeyedPrefix(key: string, rest: string)
    ensures KeyedULong(key + rest, key) == ScanULong(rest)
  {
    assert key <= key + rest;
    assert (key + rest)[|key|..] == rest;
  }

  lemma KeyedMismatch(b: string, key: string)
    requires |b| > 0 && |key| > 0 && b[0] != key[0]
    ensures KeyedULong(b, key) == None
  {
  }

  /** The text of a counter line after trimming: its key, then a number sscanf reads. */
  lemma CounterText(key: string, pad: string, d: string)
    requires |key| > 0 && '\0' !in key && AllSpace(pad) && '\0' !in pad
    requires |d| > 0 && AllDigits(d) && DecimalValue(d) <= ULONG_MAX
    ensures var b := Trimmed(key + pad + d + "\n");
      b == key + (pad + d) && b[0] == key[0] && KeyedULong(b, key) == Some(DecimalValue(d))
  {
    TrimmedKeyLine(key, pad, d);
    var rest := pad + d;
    ConcatAssoc(key, pad, d);
    KeyedValue(key, pad, d, rest);
  }

  lemma KeyedValue(key: string, pad: string, d: string, rest: string)
    requires |key| > 0 && AllSpace(pad) && rest == pad + d
    requires |d| > 0 && AllDigits(d) && DecimalValue(d) <= ULONG_MAX
    ensures (key + rest)[0] == key[0] && KeyedULong(key + rest, key) == Some(DecimalValue(d))
  {
    KeyedPrefix(key, rest);
    ScanPaddedNumeral(pad, d);
  }

  lemma StartText(i: Info, b: string, v: nat)
    requires b != [] && b[0] == 's' && KeyedULong(b, "start") == Some(v)
    ensures InfoOfText(i, b) == i.(start := v)
  {
  }

  lemma EndText(i: Info, b: string, v: nat)
    requires b != [] && b[0] == 'e' && KeyedULong(b, "end") == Some(v)
    ensures InfoOfText(i, b) == i.(end := v)
  {
    KeyedMismatch(b, "start");
  }

  lemma TotalText(i: Info, b: string, v: nat)
    requires b != [] && b[0] == 't' && KeyedULong(b, "total") == Some(v)
    ensures InfoOfText(i, b) == i.(total := v)
  {
    KeyedMismatch(b, "start");
    KeyedMismatch(b, "end");
  }

  /** "start", white space and a numeral set start, whatever the white space. */
  lemma StartLine(i: Info, pad: string, d: string)
    requires AllSpace(pad) && '\0' !in pad && |d| > 0 && AllDigits(d) && DecimalValue(d) <= ULONG_MAX
    ensures InfoLine(i, "start" + pad + d + "\n") == i.(start := DecimalValue(d))
  {
    CounterText("start", pad, d);
    StartText(i, Trimmed("start" + pad + d + "\n"), DecimalValue(d));
  }

  lemma EndLine(i: Info, pad: string, d: string)
    requires AllSpace(pad) && '\0' !in pad && |d| > 0 && AllDigits(d) && DecimalValue(d) <= ULONG_MAX
    ensures InfoLine(i, "end" + pad + d + "\n") == i.(end := DecimalValue(d))
  {
    CounterText("end", pad, d);
    EndText(i, Trimmed("end" + pad + d + "\n"), DecimalValue(d));
  }

  lemma TotalLine(i: Info, pad: string, d: string)
    requires AllSpace(pad) && '\0' !in pad && |d| > 0 && AllDigits(d) && DecimalValue(d) <= ULONG_MAX
    ensures InfoLine(i, "total" + pad + d + "\n") == i.(total := DecimalValue(d))
  {
    CounterText("total", pad, d);
    TotalText(i, Trimmed("total" + pad + d + "\n"), DecimalValue(d));
  }

  /** A chunk starting with '#' changes no counter. */
  lemma InfoCommentSkipped(i: Info, chunk: string)
    requires chunk != [] && chunk[0] == '#'
    ensures InfoLine(i, chunk) == i
  {
    var c := CStr(chunk);
    assert |c| > 0 && c[0] == '#';
  }

  lemma PaddedLine(key: string, pad: string, d: string)
    requires |key| + |pad| + |d| < LINE_LEN - 2 && '\n' !in key && '\n' !in pad && AllDigits(d)
    ensures IsLine(KeyLine(key, pad, d)) && |KeyLine(key, pad, d)| <= LINE_LEN - 2
  {
    var l := key + pad + d + "\n";
    assert '\n' !in d by { assert forall m :: 0 <= m < |d| ==> IsDigit(d[m]); }
    assert l[..|l| - 1] == key + pad + d;
  }

  /** The chunks of a saved ".info" are its three lines. */
  lemma InfoChunksOfText(i: Info)
    requires i.start <= ULONG_MAX && i.end <= ULONG_MAX && i.total <= ULONG_MAX
    ensures FgetsChunks(InfoText(i), LINE_LEN - 1) == InfoLines(i)
  {
    UltosLength64(i.start);
    UltosLength64(i.end);
    UltosLength64(i.total);
    PaddedLine("start", "       ", Ultos(i.start));
    PaddedLine("end", "         ", Ultos(i.end));
    PaddedLine("total", "       ", Ultos(i.total));
    LinesChunks(InfoLines(i), LINE_LEN - 1);
  }

  /** Reading back what SaveInfo wrote restores all three counters, whatever they were before. */
  lemma InfoRoundTrip(before: Info, i: Info)
    requires i.start <= ULONG_MAX && i.end <= ULONG_MAX && i.total <= ULONG_MAX
    ensures InfoRead(before, InfoText(i)) == i
  {
    InfoChunksOfText(i);
    SavedCountersRead(before, Ultos(i.start), Ultos(i.end), Ultos(i.total));
  }

  lemma InfoChunksCons(i: Info, c: string, cs: seq<string>)
    ensures InfoChunks(i, [c] + cs) == InfoChunks(InfoLine(i, c), cs)
  {
    assert ([c] + cs)[1..] == cs;
  }

  /** The three counter lines, read in order, set the three counters. */
  lemma SavedCountersRead(before: Info, s: string, e: string, t: string)
    requires |s| > 0 && AllDigits(s) && DecimalValue(s) <= ULONG_MAX
    requires |e| > 0 && AllDigits(e) && DecimalValue(e) <= ULONG_MAX
    requires |t| > 0 && AllDigits(t) && DecimalValue(t) <= ULONG_MAX
    ensures InfoChunks(before, [KeyLine("start", "       ", s), KeyLine("end", "         ", e),
                                KeyLine("total", "       ", t)])
      == Info(DecimalValue(s), DecimalValue(e), DecimalValue(t))
  {
    var s1 := "       ";
    var s2 := "         ";
    assert AllSpace(s1) && AllSpace(s2) && '\0' !in s1 && '\0' !in s2;
    var l1, l2, l3 := KeyLine("start", s1, s), KeyLine("end", s2, e), KeyLine("total", s1, t);
    StartLine(before, s1, s);
    var a := before.(start := DecimalValue(s));
    EndLine(a, s2, e);
    var b := a.(end := DecimalValue(e));
    TotalLine(b, s1, t);
    InfoChunksCons(before, l1, [l2, l3]);
    InfoChunksCons(a, l2, [l3]);
    InfoChunksCons(b, l3, []);
    assert [l1, l2, l3] == [l1] + [l2, l3] && [l2, l3] == [l2] + [l3] && [l3] == [l3] + [];
  }

  /* -------------------------------------------------------- .config file */

  /** The settings kept in ".config". */
  datatype GroupConf = GroupConf(desc: string, creator: string, ccpost: string, replyto: string,
                                 voidemail: string, postok: int, postlimit: int)

  /** sscanf(b, "<key> %255s", w) == 1: the literal key, then a word of at most 255 characters. */
  function KeyedWord(b: string, key: string): Option<string> {
    if key <= b then ScanWord(b[|key|..], 255) else None
  }

  /** sscanf(b, "<key> %d", &v) == 1. */
  function KeyedInt(b: string, key: string): Option<int> {
    if key <= b then ScanInt(b[|key|..]) else None
  }

  /**
   * A ccpost word added to the addresses read so far: after a comma, unless
   * there are none yet, the value so far is "-", or it already ends in a comma.
   */
  function CcJoin(acc: string, w: string): string {
    (if acc != "" && acc != "-" && acc[|acc| - 1] != ',' then acc + "," else acc) + w
  }

  /** The effect of one chunk of ".config" on the settings. */
  function ConfLine(c: GroupConf, chunk: string): GroupConf {
    ConfOfText(c, Trimmed(chunk))
  }

  /**
   * The effect of a trimmed chunk: the first of description (the rest of the
   * line), creator, postok, postlimit, ccpost, replyto and voidemail that the
   * text matches.
   */
  function ConfOfText(c: GroupConf, b: string): GroupConf {
    if Skipped(b) then c
    else if "description " <= b then c.(desc := b[|"description "|..])
    else if KeyedWord(b, "creator").Some? then c.(creator := KeyedWord(b, "creator").value)
    else if KeyedInt(b, "postok").Some? then c.(postok := KeyedInt(b, "postok").value)
    else if KeyedInt(b, "postlimit").Some? then c.(postlimit := KeyedInt(b, "postlimit").value)
    else if KeyedWord(b, "ccpost").Some? then c.(ccpost := CcJoin(c.ccpost, KeyedWord(b, "ccpost").value))
    else if KeyedWord(b, "replyto").Some? then c.(replyto := KeyedWord(b, "replyto").value)
    else if KeyedWord(b, "voidemail").Some? then c.(voidemail := KeyedWord(b, "voidemail").value)
    else c
  }

  function ConfChunks(c: GroupConf, chunks: seq<string>): GroupConf
    decreases |chunks|
  {
    if chunks == [] then c else ConfChunks(ConfLine(c, chunks[0]), chunks[1..])
  }

  /**
   * The settings after LoadConfig reads a ".config" holding data, starting
   * from c: the addresses start empty, and "-" stands for none at the end.
   */
  function ConfRead(c: GroupConf, data: string): (r: GroupConf)
    ensures r.ccpost != ""
  {
    var r := ConfChunks(c.(ccpost := ""), FgetsChunks(data, LINE_LEN - 1));
    if r.ccpost == "" then r.(ccpost := "-") else r
  }

  /** (unsigned long) v for an int v: negative values wrap modulo 2^64. */
  function ULongOfInt(v: int): nat {
    v % (ULONG_MAX + 1)
  }

  lemma SmallULongOfInt(v: int)
    requires 0 <= v <= ULONG_MAX
    ensures ULongOfInt(v) == v
  {
  }

  /** The seven lines SaveConfig writes, each key padded to twelve columns. */
  function ConfLines(c: GroupConf): seq<string> {
    [KeyLine("description", " ", c.desc),
     KeyLine("creator", "     ", c.creator),
     KeyLine("postok", "      ", Ultos(ULongOfInt(c.postok))),
     KeyLine("postlimit", "   ", Ultos(ULongOfInt(c.postlimit))),
     KeyLine("ccpost", "      ", c.ccpost),
     KeyLine("replyto", "     ", c.replyto),
     KeyLine("voidemail", "   ", c.voidemail)]
  }

  function ConfText(c: GroupConf): string {
    Concat(ConfLines(c))
  }

  /** A value %255s reads back whole: non-empty, at most 255 characters, no white space, no NUL. */
  predicate Word(w: string) {
    0 < |w| <= 255 && NoSpace(w) && '\0' !in w
  }

  /** What SaveConfig writes, LoadConfig reads back unchanged. */
  predicate Saveable(c: GroupConf) {
    '\n' !in c.desc && '\0' !in c.desc && |c.desc| < LINE_LEN - 14 &&
    Word(c.creator) && Word(c.ccpost) && Word(c.replyto) && Word(c.voidemail) &&
    0 <= c.postok < 0x8000_0000 && 0 <= c.postlimit < 0x8000_0000
  }

  lemma ScanPaddedWord(pad: string, w: string)
    requires AllSpace(pad) && Word(w)
    ensures ScanWord(pad + w, 255) == Some(w)
  {
    var s := pad + w;
    assert forall m :: 0 <= m < |pad| ==> s[m] == pad[m];
    assert forall m :: |pad| <= m < |s| ==> s[m] == w[m - |pad|];
    SpaceEndAt(s, 0, |pad|);
    WordEndAt(s, |pad|, |s|);
    assert s[|pad|..|s|] == w;
  }

  lemma ScanPaddedInt(pad: string, d: string)
    requires AllSpace(pad) && |d| > 0 && AllDigits(d) && DecimalValue(d) < 0x8000_0000
    ensures ScanInt(pad + d) == Some(DecimalValue(d))
  {
    ParseDigitsAfterSpace(pad, d, []);
    assert pad + d + [] == pad + d;
  }

  lemma KeyedWordPrefix(key: string, rest: string)
    ensures KeyedWord(key + rest, key) == ScanWord(rest, 255)
    ensures KeyedInt(key + rest, key) == ScanInt(rest)
  {
    assert key <= key + rest;
    assert (key + rest)[|key|..] == rest;
  }

  /** A text that differs from a key at some position inside the key is not read with that key. */
  lemma KeyMismatch(b: string, key: string, k: nat)
    requires k < |b| && k < |key| && b[k] != key[k]
    ensures !(key <= b) && KeyedWord(b, key) == None && KeyedInt(b, key) == None
  {
  }

  /** The text of a saved line after trimming: key, padding and value. */
  lemma TrimmedValueLine(key: string, pad: string, v: string)
    requires |key| > 0 && '\0' !in key && '\0' !in pad && '\0' !in v
    ensures Trimmed(KeyLine(key, pad, v)) == key + (pad + v)
  {
    var l := key + pad + v + "\n";
    assert '\0' !in l by {
      assert forall m :: 0 <= m < |l| ==> l[m] in key || l[m] in pad || l[m] in v || l[m] == '\n';
    }
    assert l[..|l| - 1] == key + pad + v;
    ConcatAssoc(key, pad, v);
  }

  lemma KeyAt(key: string, rest: string, k: nat)
    requires k < |key|
    ensures (key + rest)[k] == key[k]
  {
  }

  /* Each setting line, as text after its key: the other keys' tests fail at a differing character. */

  lemma DescriptionText(c: GroupConf, v: string)
    ensures ConfOfText(c, "description" + (" " + v)) == c.(desc := v)
  {
    var b := "description" + (" " + v);
    assert b == "description " + v;
    assert b[|"description "|..] == v;
  }

  lemma CreatorText(c: GroupConf, r: string, w: string)
    requires ScanWord(r, 255) == Some(w)
    ensures ConfOfText(c, "creator" + r) == c.(creator := w)
  {
    var b := "creator" + r;
    KeyedWordPrefix("creator", r);
    KeyAt("creator", r, 0);
    KeyMismatch(b, "description ", 0);
  }

  lemma PostokText(c: GroupConf, r: string, v: int)
    requires ScanInt(r) == Some(v)
    ensures ConfOfText(c, "postok" + r) == c.(postok := v)
  {
    var b := "postok" + r;
    KeyedWordPrefix("postok", r);
    KeyAt("postok", r, 0);
    KeyMismatch(b, "description ", 0);
    KeyMismatch(b, "creator", 0);
  }

  lemma PostlimitText(c: GroupConf, r: string, v: int)
    requires ScanInt(r) == Some(v)
    ensures ConfOfText(c, "postlimit" + r) == c.(postlimit := v)
  {
    var b := "postlimit" + r;
    KeyedWordPrefix("postlimit", r);
    KeyAt("postlimit", r, 0);
    KeyAt("postlimit", r, 4);
    KeyMismatch(b, "description ", 0);
    KeyMismatch(b, "creator", 0);
    KeyMismatch(b, "postok", 4);
  }

  lemma CcpostText(c: GroupConf, r: string, w: string)
    requires ScanWord(r, 255) == Some(w)
    ensures ConfOfText(c, "ccpost" + r) == c.(ccpost := CcJoin(c.ccpost, w))
  {
    var b := "ccpost" + r;
    KeyedWordPrefix("ccpost", r);
    KeyAt("ccpost", r, 0);
    KeyAt("ccpost", r, 1);
    KeyMismatch(b, "description ", 0);
    KeyMismatch(b, "creator", 1);
    KeyMismatch(b, "postok", 0);
    KeyMismatch(b, "postlimit", 0);
  }

  lemma ReplytoText(c: GroupConf, r: string, w: string)
    requires ScanWord(r, 255) == Some(w)
    ensures ConfOfText(c, "replyto" + r) == c.(replyto := w)
  {
    var b := "replyto" + r;
    KeyedWordPrefix("replyto", r);
    KeyAt("replyto", r, 0);
    KeyMismatch(b, "description ", 0);
    KeyMismatch(b, "creator", 0);
    KeyMismatch(b, "postok", 0);
    KeyMismatch(b, "postlimit", 0);
    KeyMismatch(b, "ccpost", 0);
  }

  lemma VoidemailText(c: GroupConf, r: string, w: string)
    requires ScanWord(r, 255) == Some(w)
    ensures ConfOfText(c, "voidemail" + r) == c.(voidemail := w)
  {
    var b := "voidemail" + r;
    KeyedWordPrefix("voidemail", r);
    KeyAt("voidemail", r, 0);
    KeyMismatch(b, "description ", 0);
    KeyMismatch(b, "creator", 0);
    KeyMismatch(b, "postok", 0);
    KeyMismatch(b, "postlimit", 0);
    KeyMismatch(b, "ccpost", 0);
    KeyMismatch(b, "replyto", 0);
  }

  lemma ConfChunksCons(c: GroupConf, l: string, ls: seq<string>)
    ensures ConfChunks(c, [l] + ls) == ConfChunks(ConfLine(c, l), ls)
  {
    assert ([l] + ls)[1..] == ls;
  }

  /* Each saved setting line, read on its own, sets its one setting. */

  lemma IntKeyLine(c: GroupConf, key: string, pad: string, d: string)
    requires |key| > 0 && '\0' !in key && AllSpace(pad) && '\0' !in pad
    requires |d| > 0 && AllDigits(d) && DecimalValue(d) < 0x8000_0000
    ensures ConfLine(c, KeyLine(key, pad, d)) == ConfOfText(c, key + (pad + d))
    ensures ScanInt(pad + d) == Some(DecimalValue(d))
  {
    DigitsHaveNoNewline(d);
    TrimmedValueLine(key, pad, d);
    ScanPaddedInt(pad, d);
  }

  lemma WordKeyLine(c: GroupConf, key: string, pad: string, w: string)
    requires |key| > 0 && '\0' !in key && AllSpace(pad) && '\0' !in pad && Word(w)
    ensures ConfLine(c, KeyLine(key, pad, w)) == ConfOfText(c, key + (pad + w))
    ensures ScanWord(pad + w, 255) == Some(w)
  {
    TrimmedValueLine(key, pad, w);
    ScanPaddedWord(pad, w);
  }

  lemma DescriptionLine(c: GroupConf, v: string)
    requires '\0' !in v
    ensures ConfLine(c, KeyLine("description", " ", v)) == c.(desc := v)
  {
    TrimmedValueLine("description", " ", v);
    DescriptionText(c, v);
  }

  lemma CreatorLine(c: GroupConf, w: string)
    requires Word(w)
    ensures ConfLine(c, KeyLine("creator", "     ", w)) == c.(creator := w)
  {
    WordKeyLine(c, "creator", "     ", w);
    CreatorText(c, "     " + w, w);
  }

  lemma PostokLine(c: GroupConf, d: string)
    requires |d| > 0 && AllDigits(d) && DecimalValue(d) < 0x8000_0000
    ensures ConfLine(c, KeyLine("postok", "      ", d)) == c.(postok := DecimalValue(d))
  {
    IntKeyLine(c, "postok", "      ", d);
    PostokText(c, "      " + d, DecimalValue(d));
  }

  lemma PostlimitLine(c: GroupConf, d: string)
    requires |d| > 0 && AllDigits(d) && DecimalValue(d) < 0x8000_0000
    ensures ConfLine(c, KeyLine("postlimit", "   ", d)) == c.(postlimit := DecimalValue(d))
  {
    IntKeyLine(c, "postlimit", "   ", d);
    PostlimitText(c, "   " + d, DecimalValue(d));
  }

  lemma CcpostLine(c: GroupConf, w: string)
    requires Word(w)
    ensures ConfLine(c, KeyLine("ccpost", "      ", w)) == c.(ccpost := CcJoin(c.ccpost, w))
  {
    WordKeyLine(c, "ccpost", "      ", w);
    CcpostText(c, "      " + w, w);
  }

  lemma ReplytoLine(c: GroupConf, w: string)
    requires Word(w)
    ensures ConfLine(c, KeyLine("replyto", "     ", w)) == c.(replyto := w)
  {
    WordKeyLine(c, "replyto", "     ", w);
    ReplytoText(c, "     " + w, w);
  }

  lemma VoidemailLine(c: GroupConf, w: string)
    requires Word(w)
    ensures ConfLine(c, KeyLine("voidemail", "   ", w)) == c.(voidemail := w)
  {
    WordKeyLine(c, "voidemail", "   ", w);
    VoidemailText(c, "   " + w, w);
  }

  /** A key, padding and a value on one line, short enough for fgets to return it whole. */
  lemma TextLine(key: string, pad: string, v: string)
    requires |key| + |pad| + |v| < LINE_LEN - 2 && '\n' !in key && '\n' !in pad && '\n' !in v
    ensures IsLine(KeyLine(key, pad, v)) && |KeyLine(key, pad, v)| <= LINE_LEN - 2
  {
    var l := key + pad + v + "\n";
    assert l[..|l| - 1] == key + pad + v;
  }

  lemma WordHasNoNewline(w: string)
    requires Word(w)
    ensures '\n' !in w && '\0' !in w
  {
    assert forall m :: 0 <= m < |w| ==> !IsSpace(w[m]);
  }

  lemma DigitsHaveNoNewline(d: string)
    requires AllDigits(d)
    ensures '\n' !in d && '\0' !in d
  {
    assert forall m :: 0 <= m < |d| ==> IsDigit(d[m]);
  }

  /** The chunks of a saved ".config" are its seven lines. */
  lemma ConfChunksOfText(c: GroupConf)
    requires Saveable(c)
    ensures FgetsChunks(ConfText(c), LINE_LEN - 1) == ConfLines(c)
  {
    ConfLinesShort(c);
    LinesChunks(ConfLines(c), LINE_LEN - 1);
  }

  lemma ConfLinesShort(c: GroupConf)
    requires Saveable(c)
    ensures forall k :: 0 <= k < |ConfLines(c)| ==> IsLine(ConfLines(c)[k]) && |ConfLines(c)[k]| <= LINE_LEN - 2
  {
    var ls := ConfLines(c);
    forall k | 0 <= k < |ls| ensures IsLine(ls[k]) && |ls[k]| <= LINE_LEN - 2 {
      if k == 0 {
        TextLine("description", " ", c.desc);
      } else if k == 1 {
        WordTextLine("creator", "     ", c.creator);
      } else if k == 2 {
        NumberTextLine("postok", "      ", ULongOfInt(c.postok));
      } else if k == 3 {
        NumberTextLine("postlimit", "   ", ULongOfInt(c.postlimit));
      } else if k == 4 {
        WordTextLine("ccpost", "      ", c.ccpost);
      } else if k == 5 {
        WordTextLine("replyto", "     ", c.replyto);
      } else {
        WordTextLine("voidemail", "   ", c.voidemail);
      }
    }
  }

  lemma WordTextLine(key: string, pad: string, w: string)
    requires |key| + |pad| <= 12 && '\n' !in key && '\n' !in pad && Word(w)
    ensures IsLine(KeyLine(key, pad, w)) && |KeyLine(key, pad, w)| <= LINE_LEN - 2
  {
    WordHasNoNewline(w);
    TextLine(key, pad, w);
  }

  lemma NumberTextLine(key: string, pad: string, n: nat)
    requires |key| + |pad| <= 12 && '\n' !in key && '\n' !in pad && n <= ULONG_MAX
    ensures IsLine(KeyLine(key, pad, Ultos(n))) && |KeyLine(key, pad, Ultos(n))| <= LINE_LEN - 2
  {
    UltosLength64(n);
    DigitsHaveNoNewline(Ultos(n));
    TextLine(key, pad, Ultos(n));
  }

  /** The seven setting lines, read in order from settings whose addresses are empty, set all seven settings. */
  lemma SavedSettingsRead(c0: GroupConf, c: GroupConf)
    requires c0.ccpost == "" && Saveable(c)
    ensures ConfChunks(c0, ConfLines(c)) == c
  {
    var ls := ConfLines(c);
    var c4 := c0.(desc := c.desc, creator := c.creator, postok := c.postok, postlimit := c.postlimit);
    HeadSettingsRead(c0, c);
    TailSettingsRead(c4, c);
    ConfChunksAppend(c0, ls[..4], ls[4..]);
    assert ls[..4] + ls[4..] == ls;
  }

  /** The description, creator, postok and postlimit lines. */
  lemma HeadSettingsRead(c0: GroupConf, c: GroupConf)
    requires Saveable(c)
    ensures ConfChunks(c0, ConfLines(c)[..4])
      == c0.(desc := c.desc, creator := c.creator, postok := c.postok, postlimit := c.postlimit)
  {
    var po, pl := Ultos(ULongOfInt(c.postok)), Ultos(ULongOfInt(c.postlimit));
    SmallULongOfInt(c.postok);
    SmallULongOfInt(c.postlimit);
    var c1 := c0.(desc := c.desc);
    var c2 := c1.(creator := c.creator);
    var c3 := c2.(postok := c.postok);
    DescriptionLine(c0, c.desc);
    CreatorLine(c1, c.creator);
    PostokLine(c2, po);
    PostlimitLine(c3, pl);
    ConfLinesHead(c);
    FourSteps(c0, c1, c2, c3, c3.(postlimit := c.postlimit),
              KeyLine("description", " ", c.desc), KeyLine("creator", "     ", c.creator),
              KeyLine("postok", "      ", po), KeyLine("postlimit", "   ", pl));
  }

  /** The ccpost, replyto and voidemail lines, read with no addresses yet. */
  lemma TailSettingsRead(c4: GroupConf, c: GroupConf)
    requires c4.ccpost == "" && Saveable(c)
    ensures ConfChunks(c4, ConfLines(c)[4..]) == c4.(ccpost := c.ccpost, replyto := c.replyto, voidemail := c.voidemail)
  {
    var c5 := c4.(ccpost := c.ccpost);
    var c6 := c5.(replyto := c.replyto);
    CcpostLine(c4, c.ccpost);
    assert CcJoin(c4.ccpost, c.ccpost) == c.ccpost;
    ReplytoLine(c5, c.replyto);
    VoidemailLine(c6, c.voidemail);
    ConfLinesTail(c);
    ThreeSteps(c4, c5, c6, c6.(voidemail := c.voidemail),
               KeyLine("ccpost", "      ", c.ccpost), KeyLine("replyto", "     ", c.replyto),
               KeyLine("voidemail", "   ", c.voidemail));
  }

  lemma ConfLinesHead(c: GroupConf)
    ensures ConfLines(c)[..4] == [KeyLine("description", " ", c.desc), KeyLine("creator", "     ", c.creator),
                                  KeyLine("postok", "      ", Ultos(ULongOfInt(c.postok))),
                                  KeyLine("postlimit", "   ", Ultos(ULongOfInt(c.postlimit)))]
  {
  }

  lemma ConfLinesTail(c: GroupConf)
    ensures ConfLines(c)[4..] == [KeyLine("ccpost", "      ", c.ccpost), KeyLine("replyto", "     ", c.replyto),
                                  KeyLine("voidemail", "   ", c.voidemail)]
  {
  }

  lemma {:induction false} ConfChunksAppend(c: GroupConf, a: seq<string>, b: seq<string>)
    ensures ConfChunks(c, a + b) == ConfChunks(ConfChunks(c, a), b)
    decreases |a|
  {
    if a == [] {
      assert a + b == b;
    } else {
      assert (a + b)[1..] == a[1..] + b;
      ConfChunksAppend(ConfLine(c, a[0]), a[1..], b);
    }
  }

  lemma FourSteps(c0: GroupConf, c1: GroupConf, c2: GroupConf, c3: GroupConf, c4: GroupConf,
                  l1: string, l2: string, l3: string, l4: string)
    requires ConfLine(c0, l1) == c1 && ConfLine(c1, l2) == c2 && ConfLine(c2, l3) == c3 && ConfLine(c3, l4) == c4
    ensures ConfChunks(c0, [l1, l2, l3, l4]) == c4
  {
    ConfChunksCons(c0, l1, [l2, l3, l4]);
    ThreeSteps(c1, c2, c3, c4, l2, l3, l4);
    DisplayCons(l1, l2, l3, l4);
  }

  lemma ThreeSteps(c0: GroupConf, c1: GroupConf, c2: GroupConf, c3: GroupConf, l1: string, l2: string, l3: string)
    requires ConfLine(c0, l1) == c1 && ConfLine(c1, l2) == c2 && ConfLine(c2, l3) == c3
    ensures ConfChunks(c0, [l1, l2, l3]) == c3
  {
    ConfChunksCons(c0, l1, [l2, l3]);
    TwoSteps(c1, c2, c3, l2, l3);
    DisplayCons(l1, l2, l3, l3);
  }

  /** Two chunks read one after the other. */
  lemma TwoSteps(c0: GroupConf, c1: GroupConf, c2: GroupConf, l1: string, l2: string)
    requires ConfLine(c0, l1) == c1 && ConfLine(c1, l2) == c2
    ensures ConfChunks(c0, [l1, l2]) == c2
  {
    ConfChunksCons(c0, l1, [l2]);
    ConfChunksCons(c1, l2, []);
    DisplayCons(l1, l2, l2, l2);
  }

  lemma DisplayCons(l1: string, l2: string, l3: string, l4: string)
    ensures [l1, l2, l3, l4] == [l1] + [l2, l3, l4]
    ensures [l1, l2, l3] == [l1] + [l2, l3]
    ensures [l1, l2] == [l1] + [l2] && [l2] == [l2] + []
  {
  }

  /**
   * Reading back what SaveConfig wrote restores every setting, whatever the
   * settings were before, for settings that survive the format (a
   * one-line description, single words for the names and addresses, counts
   * that fit an int).
   */
  lemma ConfRoundTrip(before: GroupConf, c: GroupConf)
    requires Saveable(c)
    ensures ConfRead(before, ConfText(c)) == c
  {
    ConfChunksOfText(c);
    SavedSettingsRead(before.(ccpost := ""), c);
    assert c.ccpost != "";
  }

  /** One line each for two ccpost addresses. */
  function CcpostPair(a: string, b: string): string {
    KeyLine("ccpost", "      ", a) + KeyLine("ccpost", "      ", b)
  }

  /**
   * Several ccpost lines name several addresses: they are joined with commas,
   * except after "-" or after an address that already ends in a comma.
   */
  lemma CcpostAccumulates(c: GroupConf, a: string, b: string)
    requires Word(a) && Word(b)
    ensures var r := ConfRead(c, CcpostPair(a, b));
      (a != "-" && a[|a| - 1] != ',' ==> r.ccpost == a + "," + b) &&
      (a == "-" || a[|a| - 1] == ',' ==> r.ccpost == a + b)
  {
    CcpostPairRead(c, a, b);
  }

  lemma CcpostPairRead(c: GroupConf, a: string, b: string)
    requires Word(a) && Word(b)
    ensures ConfRead(c, CcpostPair(a, b)).ccpost == CcJoin(a, b)
  {
    CcpostPairChunks(a, b);
    var c0 := c.(ccpost := "");
    CcpostLine(c0, a);
    CcpostLine(c0.(ccpost := a), b);
    TwoSteps(c0, c0.(ccpost := a), c0.(ccpost := CcJoin(a, b)),
             KeyLine("ccpost", "      ", a), KeyLine("ccpost", "      ", b));
  }

  lemma CcpostPairChunks(a: string, b: string)
    requires Word(a) && Word(b)
    ensures FgetsChunks(CcpostPair(a, b), LINE_LEN - 1) == [KeyLine("ccpost", "      ", a), KeyLine("ccpost", "      ", b)]
  {
    var l1, l2 := KeyLine("ccpost", "      ", a), KeyLine("ccpost", "      ", b);
    WordTextLine("ccpost", "      ", a);
    WordTextLine("ccpost", "      ", b);
    ConcatPair(l1, l2);
    LinesChunks([l1, l2], LINE_LEN - 1);
  }

  lemma ConcatPair(l1: string, l2: string)
    ensures Concat([l1, l2]) == l1 + l2
  {
    assert [l1, l2][1..] == [l2];
    assert Concat([l2]) == l2 + Concat([]);
  }


  /** No chunk of the file sets ccpost. */
  predicate NoCcpost(chunks: seq<string>) {
    forall k :: 0 <= k < |chunks| ==> !("ccpost" <= Trimmed(chunks[k]))
  }

  lemma {:induction false} ConfChunksKeepCcpost(c: GroupConf, chunks: seq<string>)
    requires NoCcpost(chunks)
    ensures ConfChunks(c, chunks).ccpost == c.ccpost
    decreases |chunks|
  {
    if chunks != [] {
      var b := Trimmed(chunks[0]);
      assert !("ccpost" <= b);
      assert KeyedWord(b, "ccpost") == None;
      assert ConfLine(c, chunks[0]).ccpost == c.ccpost;
      assert NoCcpost(chunks[1..]) by {
        forall k | 0 <= k < |chunks| - 1 ensures !("ccpost" <= Trimmed(chunks[1..][k])) {
          assert chunks[1..][k] == chunks[k + 1];
        }
      }
      ConfChunksKeepCcpost(ConfLine(c, chunks[0]), chunks[1..]);
    }
  }

  /** A ".config" without a ccpost line leaves no addresses to copy postings to: ccpost reads "-". */
  lemma NoCcpostLine(c: GroupConf, data: string)
    requires NoCcpost(FgetsChunks(data, LINE_LEN - 1))
    ensures ConfRead(c, data).ccpost == "-"
  {
    ConfChunksKeepCcpost(c.(ccpost := ""), FgetsChunks(data, LINE_LEN - 1));
  }

  /* ------------------------------------------------- BuildInfo's tally */

  /** A directory entry BuildInfo looks at: its name starts with a digit. */
  predicate DigitLed(name: string) {
    name != [] && IsDigit(name[0])
  }

  /** The article number strtoul reads from a file name. */
  function NumberOfName(n: string): nat {
    StrToUL(n).0
  }

  /**
   * Counters that describe numbered articles: how many there are, and the
   * lowest and highest of their numbers.
   */
  predicate Summarizes<K>(i: Info, nums: map<K, nat>) {
    i.total == |nums| && Bounds(i.start, i.end, nums)
  }

  /** lo and hi are the lowest and highest number, both 0 when there are none. */
  predicate Bounds<K>(lo: nat, hi: nat, nums: map<K, nat>) {
    (nums == map[] ==> lo == 0 && hi == 0) &&
    (nums != map[] ==>
      (exists k :: k in nums && nums[k] == lo) &&
      (exists k :: k in nums && nums[k] == hi) &&
      (forall k :: k in nums ==> lo <= nums[k] <= hi))
  }

  /** One more article numbered v: the first sets both bounds, later ones widen them. */
  function Tally(i: Info, v: nat): Info {
    Info(if v < i.start || i.total == 0 then v else i.start,
         if v > i.end || i.total == 0 then v else i.end,
         i.total + 1)
  }

  /** Tallying an article not yet counted gives the counters of the larger set. */
  lemma TallyAdds<K>(i: Info, nums: map<K, nat>, k: K, v: nat)
    requires Summarizes(i, nums) && k !in nums
    ensures Summarizes(Tally(i, v), nums[k := v])
  {
    var t := Tally(i, v);
    var m := nums[k := v];
    assert |m| == |nums| + 1;
    if nums == map[] {
      assert m.Keys == {k};
    } else {
      var q :| q in nums;
      assert i.total != 0 by {
        assert q in nums.Keys;
        assert |nums.Keys| >= 1;
      }
      var s :| s in nums && nums[s] == i.start;
      var e :| e in nums && nums[e] == i.end;
      assert m[if v < i.start then k else s] == t.start;
      assert m[if v > i.end then k else e] == t.end;
    }
  }

  /** The regular files among entries ns of directory d whose names start with a digit, with their numbers. */
  function FlatNumbers(files: map<string, string>, d: string, ns: set<string>): map<string, nat> {
    map n | n in ns && DigitLed(n) && d + "/" + n in files :: NumberOfName(n)
  }

  /**
   * The articles in modulus directories: for each entry m of ms that is a
   * directory of d whose name starts with a digit, the regular files in it
   * whose names start with a digit, keyed by both names.
   */
  function ModNumbers(files: map<string, string>, dirs: map<string, int>, d: string, ms: set<string>)
    : map<(string, string), nat>
  {
    map m, n | m in ms && DigitLed(m) && d + "/" + m in dirs &&
               n in Listing(files.Keys + dirs.Keys, d + "/" + m) &&
               DigitLed(n) && d + "/" + m + "/" + n in files :: (m, n) := NumberOfName(n)
  }

  /** The articles among entries ns of modulus directory m, keyed by both names. */
  function PairNumbers(files: map<string, string>, d: string, m: string, ns: set<string>): map<(string, string), nat> {
    map n | n in ns && DigitLed(n) && d + "/" + m + "/" + n in files :: (m, n) := NumberOfName(n)
  }

  lemma FlatNumbersAdd(files: map<string, string>, d: string, ns: set<string>, n: string)
    requires n !in ns
    ensures FlatNumbers(files, d, ns + {n}) ==
      if DigitLed(n) && d + "/" + n in files then FlatNumbers(files, d, ns)[n := NumberOfName(n)]
      else FlatNumbers(files, d, ns)
  {
  }

  /**
   * BuildInfo's scan of a group directory without modulus directories:
   * counters that describe the regular files in it whose names start with a
   * digit.
   */
  method TallyFlat(fs: FileSystem, d: string) returns (i: Info)
    ensures Summarizes(i, FlatNumbers(fs.files, d, fs.Entries(d)))
  {
    var files := fs.files;
    var names := fs.Entries(d);
    ghost var entries := names;
    ghost var done: set<string> := {};
    i := Info(0, 0, 0);
    while names != {}
      invariant names !! done && names + done == entries
      invariant Summarizes(i, FlatNumbers(files, d, done))
      decreases |names|
    {
      var n :| n in names;
      FlatNumbersAdd(files, d, done, n);
      if DigitLed(n) && d + "/" + n in files {
        TallyAdds(i, FlatNumbers(files, d, done), n, NumberOfName(n));
        i := Tally(i, NumberOfName(n));
      }
      PickStep(entries, names, done, n);
      names := names - {n};
      done := done + {n};
    }
    PickDone(entries, names, done);
  }

  /** Taking one name out of those left to visit. */
  lemma PickStep<T>(entries: set<T>, names: set<T>, done: set<T>, n: T)
    requires names !! done && names + done == entries && n in names
    ensures (names - {n}) !! (done + {n}) && (names - {n}) + (done + {n}) == entries
    ensures |names - {n}| < |names|
  {
  }

  lemma PickDone<T>(entries: set<T>, names: set<T>, done: set<T>)
    requires names == {} && names + done == entries
    ensures done == entries
  {
  }

  lemma PairNumbersAdd(files: map<string, string>, d: string, m: string, ns: set<string>, n: string)
    requires n !in ns
    ensures PairNumbers(files, d, m, ns + {n}) ==
      if DigitLed(n) && d + "/" + m + "/" + n in files then PairNumbers(files, d, m, ns)[(m, n) := NumberOfName(n)]
      else PairNumbers(files, d, m, ns)
  {
  }

  lemma MergeNone(nums0: map<(string, string), nat>, part: map<(string, string), nat>)
    requires part == map[]
    ensures nums0 + part == nums0
  {
  }

  /** A modulus directory's articles, added to those of the other modulus directories. */
  lemma MergeAdd(nums0: map<(string, string), nat>, part: map<(string, string), nat>, k: (string, string), v: nat)
    requires k !in nums0 && k !in part
    ensures (nums0 + part)[k := v] == nums0 + part[k := v] && k !in nums0 + part
  {
  }

  /** One more article in modulus directory m. */
  lemma ModDirCounted(i: Info, nums0: map<(string, string), nat>, files: map<string, string>, d: string, m: string,
                      done: set<string>, n: string)
    requires Summarizes(i, nums0 + PairNumbers(files, d, m, done)) && forall k :: k in nums0 ==> k.0 != m
    requires n !in done && DigitLed(n) && d + "/" + m + "/" + n in files
    ensures Summarizes(Tally(i, NumberOfName(n)), nums0 + PairNumbers(files, d, m, done + {n}))
  {
    PairNumbersAdd(files, d, m, done, n);
    MergeAdd(nums0, PairNumbers(files, d, m, done), (m, n), NumberOfName(n));
    TallyAdds(i, nums0 + PairNumbers(files, d, m, done), (m, n), NumberOfName(n));
  }

  /**
   * The inner loop of BuildInfo over modulus directory m of d: its articles
   * are tallied on top of those counted so far, which come from other
   * modulus directories.
   */
  method TallyModDir(fs: FileSystem, d: string, m: string, i0: Info, ghost nums0: map<(string, string), nat>)
    returns (i: Info)
    requires Summarizes(i0, nums0) && forall k :: k in nums0 ==> k.0 != m
    ensures Summarizes(i, nums0 + PairNumbers(fs.files, d, m, fs.Entries(d + "/" + m)))
  {
    var files := fs.files;
    var names := fs.Entries(d + "/" + m);
    ghost var entries := names;
    ghost var done: set<string> := {};
    i := i0;
    MergeNone(nums0, PairNumbers(files, d, m, done));
    while names != {}
      invariant names !! done && names + done == entries
      invariant Summarizes(i, nums0 + PairNumbers(files, d, m, done))
      decreases |names|
    {
      var n :| n in names;
      if DigitLed(n) && d + "/" + m + "/" + n in files {
        ModDirCounted(i, nums0, files, d, m, done, n);
        i := Tally(i, NumberOfName(n));
      } else {
        PairNumbersAdd(files, d, m, done, n);
      }
      PickStep(entries, names, done, n);
      names := names - {n};
      done := done + {n};
    }
    PickDone(entries, names, done);
  }

  /** The key of every modulus-directory article names its modulus directory. */
  lemma ModNumbersKeys(files: map<string, string>, dirs: map<string, int>, d: string, ms: set<string>)
    ensures forall k :: k in ModNumbers(files, dirs, d, ms) ==> k.0 in ms
  {
  }

  /** Visiting one more entry m of the group directory adds the articles of m, if it is a modulus directory. */
  lemma ModNumbersAdd(files: map<string, string>, dirs: map<string, int>, d: string, ms: set<string>, m: string)
    requires m !in ms
    ensures ModNumbers(files, dirs, d, ms + {m}) ==
      if DigitLed(m) && d + "/" + m in dirs
      then ModNumbers(files, dirs, d, ms) + PairNumbers(files, d, m, Listing(files.Keys + dirs.Keys, d + "/" + m))
      else ModNumbers(files, dirs, d, ms)
  {
    var l := ModNumbers(files, dirs, d, ms + {m});
    var a := ModNumbers(files, dirs, d, ms);
    var p := if DigitLed(m) && d + "/" + m in dirs
             then PairNumbers(files, d, m, Listing(files.Keys + dirs.Keys, d + "/" + m)) else map[];
    ModNumbersKeys(files, dirs, d, ms);
    forall k | k in l ensures k in a + p && l[k] == (a + p)[k] {
      if k.0 == m {
        assert k in p;
      } else {
        assert k in a;
      }
    }
    forall k | k in a + p ensures k in l {
      if k in p {
        assert k.0 == m;
      }
    }
    assert l == a + p;
  }

  /**
   * BuildInfo's scan of a group directory with modulus directories: counters
   * that describe the regular files whose names start with a digit, in the
   * directories of the group directory whose names start with a digit.
   */
  method TallyModulus(fs: FileSystem, d: string) returns (i: Info)
    ensures Summarizes(i, ModNumbers(fs.files, fs.dirs, d, fs.Entries(d)))
  {
    var names := fs.Entries(d);
    ghost var entries := names;
    ghost var done: set<string> := {};
    i := Info(0, 0, 0);
    while names != {}
      invariant names !! done && names + done == entries
      invariant Summarizes(i, ModNumbers(fs.files, fs.dirs, d, done))
      decreases |names|
    {
      var n :| n in names;
      ModNumbersAdd(fs.files, fs.dirs, d, done, n);
      ModNumbersKeys(fs.files, fs.dirs, d, done);
      if DigitLed(n) && d + "/" + n in fs.dirs {
        i := TallyModDir(fs, d, n, i, ModNumbers(fs.files, fs.dirs, d, done));
      }
      PickStep(entries, names, done, n);
      names := names - {n};
      done := done + {n};
    }
    PickDone(entries, names, done);
  }

  /**
   * The counters BuildInfo computes for group directory d: none when the
   * directory cannot be opened, else those of the modulus directories' or
   * the directory's own article files.
   */
  method ScanArticles(fs: FileSystem, d: string, modDirs: bool) returns (i: Info)
    ensures d !in fs.dirs ==> i == Info(0, 0, 0)
    ensures d in fs.dirs && modDirs ==> Summarizes(i, ModNumbers(fs.files, fs.dirs, d, fs.Entries(d)))
    ensures d in fs.dirs && !modDirs ==> Summarizes(i, FlatNumbers(fs.files, d, fs.Entries(d)))
  {
    if d !in fs.dirs {
      i := Info(0, 0, 0);
    } else if modDirs {
      i := TallyModulus(fs, d);
    } else {
      i := TallyFlat(fs, d);
    }
  }
}
