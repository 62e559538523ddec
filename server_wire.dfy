/**
 * The byte- and line-level parts of the NNTP session: how CommandLoop cuts
 * its input into command lines and words, and how XOVER reads its range.
 */
module NntpWire {
  import opened CLib
  import opened Subs
  import opened Configuration
  import opened Articles

  /* ------------------------------------------------------------ framing */

  /** A command line read from the connection, with the index of the next unread byte. */
  datatype Frame = Got(text: string, next: nat) | Closed

  /**
   * The read loop at the top of CommandLoop, k bytes into the line starting
   * at pos: a LF ends the line, so does reaching LINE_LEN - 2 stored bytes
   * (the byte read then is dropped), and a CR ends it after one more byte
   * is read and dropped. The input running out first closes the session.
   */
  function FrameAt(input: string, pos: nat, k: nat): Frame
    requires pos + k <= |input| && k <= LINE_LEN - 2
    decreases |input| - pos - k
  {
    if pos + k == |input| then Closed
    else if input[pos + k] == '\n' || k == LINE_LEN - 2 then Got(input[pos..pos + k], pos + k + 1)
    else if input[pos + k] == '\r' then Got(input[pos..pos + k], Min(pos + k + 2, |input|))
    else FrameAt(input, pos, k + 1)
  }

  function ReadFrame(input: string, pos: nat): Frame
    requires pos <= |input|
  {
    FrameAt(input, pos, 0)
  }

  predicate NoCrlf(s: string) {
    forall m :: 0 <= m < |s| ==> s[m] != '\r' && s[m] != '\n'
  }

  /** Bytes without CR or LF, short of the length limit, are stored one by one. */
  lemma {:induction false} FrameSkips(input: string, pos: nat, k: nat, n: nat)
    requires pos + n <= |input| && k <= n <= LINE_LEN - 2
    requires forall m :: pos + k <= m < pos + n ==> input[m] != '\r' && input[m] != '\n'
    ensures FrameAt(input, pos, k) == FrameAt(input, pos, n)
    decreases n - k
  {
    if k < n {
      FrameSkips(input, pos, k + 1, n);
    }
  }

  /** A framed line holds neither CR nor LF, fits the limit, and the read moves forward. */
  lemma {:induction false} FrameShape(input: string, pos: nat, k: nat)
    requires pos + k <= |input| && k <= LINE_LEN - 2
    requires forall m :: pos <= m < pos + k ==> input[m] != '\r' && input[m] != '\n'
    ensures var f := FrameAt(input, pos, k);
      f.Got? ==> pos < f.next <= |input| && pos + |f.text| <= |input| && |f.text| <= LINE_LEN - 2 &&
                  NoCrlf(f.text) && f.text == input[pos..pos + |f.text|]
    decreases |input| - pos - k
  {
    if pos + k < |input| && input[pos + k] != '\n' && k != LINE_LEN - 2 && input[pos + k] != '\r' {
      FrameShape(input, pos, k + 1);
    }
  }

  /** A line ended by LF is read as that line, and reading resumes after the LF. */
  lemma FrameOfLf(l: string, rest: string)
    requires NoCrlf(l) && |l| <= LINE_LEN - 2
    ensures ReadFrame(l + "\n" + rest, 0) == Got(l, |l| + 1)
  {
    var input := l + "\n" + rest;
    assert input[..|l|] == l;
    FrameSkips(input, 0, 0, |l|);
  }

  /** A line ended by CR LF is read as that line, and reading resumes after the LF. */
  lemma FrameOfCrlf(l: string, rest: string)
    requires NoCrlf(l) && |l| < LINE_LEN - 2
    ensures ReadFrame(l + "\r\n" + rest, 0) == Got(l, |l| + 2)
  {
    var input := l + "\r\n" + rest;
    assert input[..|l|] == l;
    FrameSkips(input, 0, 0, |l|);
  }

  /** A longer line is cut after LINE_LEN - 2 bytes, and the byte after them is lost. */
  lemma FrameOfLongLine(input: string)
    requires |input| > LINE_LEN - 2 && NoCrlf(input[..LINE_LEN - 2])
    ensures ReadFrame(input, 0) == Got(input[..LINE_LEN - 2], LINE_LEN - 1)
  {
    assert forall m :: 0 <= m < LINE_LEN - 2 ==> input[m] == input[..LINE_LEN - 2][m];
    FrameSkips(input, 0, 0, LINE_LEN - 2);
  }

  /** Input that ends without a line end closes the session. */
  lemma FrameOfUnterminated(input: string)
    requires |input| <= LINE_LEN - 2 && NoCrlf(input)
    ensures ReadFrame(input, 0) == Closed
  {
    FrameSkips(input, 0, 0, |input|);
  }

  /**
   * ReadCommand: read one byte at a time into the line buffer until a line
   * end, the length limit, or the end of the input.
   */
  method ReadCommand(input: string, pos: nat) returns (found: bool, line: string, next: nat)
    requires pos <= |input|
    ensures ReadFrame(input, pos) == if found then Got(line, next) else Closed
    ensures found ==> pos < next <= |input| && NoCrlf(line) && |line| <= LINE_LEN - 2
  {
    FrameShape(input, pos, 0);
    line := "";
    var total := 0;
    var i := pos;
    while true
      invariant i == pos + total && total <= LINE_LEN - 2 && i <= |input|
      invariant line == input[pos..i]
      invariant FrameAt(input, pos, total) == FrameAt(input, pos, 0)
      decreases |input| - i
    {
      if i == |input| {
        return false, "", i;
      }
      var c := input[i];
      i := i + 1;
      if c == '\n' || total >= LINE_LEN - 2 {
        return true, line, i;
      }
      if c == '\r' {
        if i < |input| {
          i := i + 1;
        }
        return true, line, i;
      }
      line := line + [c];
      total := total + 1;
    }
  }

  /* --------------------------------------------------------- tokenising */

  /** What sscanf(s, "%s%s%s", cmd, arg1, arg2) makes of a line. */
  datatype Tokens = Blank | Command(cmd: string, arg1: string, arg2: string)

  /** The first three words of the line (as a C string); a missing argument is empty. */
  function Tokenize(line: string): (t: Tokens)
    ensures t.Command? ==> t.cmd != [] && NoSpace(t.cmd) && NoSpace(t.arg1) && NoSpace(t.arg2)
    ensures t.Command? && t.arg1 == [] ==> t.arg2 == []
  {
    var ws := Words(CStr(line), 3);
    if |ws| == 0 then Blank
    else Command(ws[0], if |ws| > 1 then ws[1] else "", if |ws| > 2 then ws[2] else "")
  }

  /** A line of white space only has no command in it. */
  lemma BlankLineIgnored(line: string)
    requires AllSpace(line)
    ensures Tokenize(line) == Blank
  {
    var s := CStr(line);
    assert forall m :: 0 <= m < |s| ==> s[m] == line[m];
    WordsBlank(s, 0, 3);
  }

  /** Where the words of a + rest lie, for a word a and white space rest. */
  lemma VerbLayout(a: string, rest: string)
    requires a != [] && NoSpace(a) && AllSpace(rest)
    ensures var s := a + rest;
      WordRun(s, 0, |a|) && SpaceRun(s, |a|, |s|) && s[0..|a|] == a
  {
    var s := a + rest;
    assert forall m :: 0 <= m < |a| ==> s[m] == a[m];
    assert forall m :: |a| <= m < |s| ==> s[m] == rest[m - |a|];
    assert s[0..|a|] == a;
  }

  /** A single word is the command, with both arguments empty. */
  lemma TokenizeVerb(a: string, rest: string)
    requires a != [] && NoSpace(a) && AllSpace(rest) && '\0' !in a + rest
    ensures Tokenize(a + rest) == Command(a, "", "")
  {
    var s := a + rest;
    VerbLayout(a, rest);
    WordsBlank(s, |a|, 2);
    MoreWords(s, 0, 0, |a|, 2, []);
  }

  /** Where the words of a + " " + b + " " + c + rest lie. */
  lemma WordsLayout(a: string, b: string, c: string, rest: string)
    requires a != [] && b != [] && c != [] && NoSpace(a) && NoSpace(b) && NoSpace(c)
    requires rest == [] || IsSpace(rest[0])
    ensures var s := a + " " + b + " " + c + rest;
      var i1 := |a| + 1; var i2 := i1 + |b| + 1;
      i2 + |c| <= |s| &&
      WordRun(s, 0, |a|) && SpaceRun(s, |a|, i1) && WordRun(s, i1, i1 + |b|) && SpaceRun(s, i1 + |b|, i2) &&
      WordRun(s, i2, i2 + |c|) && s[0..|a|] == a && s[i1..i1 + |b|] == b && s[i2..i2 + |c|] == c
  {
    var s := a + " " + b + " " + c + rest;
    var i1 := |a| + 1;
    var i2 := i1 + |b| + 1;
    var e := i2 + |c|;
    assert forall m :: 0 <= m < |a| ==> s[m] == a[m];
    assert forall m :: i1 <= m < i1 + |b| ==> s[m] == b[m - i1];
    assert forall m :: i2 <= m < e ==> s[m] == c[m - i2];
    assert s[|a|] == ' ' && s[i1 + |b|] == ' ';
    assert e < |s| ==> s[e] == rest[0];
    assert s[0..|a|] == a && s[i1..i1 + |b|] == b && s[i2..e] == c;
  }

  /** Three words read at the given places. */
  lemma ThreeWords(s: string, b1: nat, e1: nat, b2: nat, e2: nat, b3: nat, e3: nat)
    requires b1 <= e1 <= b2 <= e2 <= b3 <= e3 <= |s|
    requires SpaceRun(s, 0, b1) && WordRun(s, b1, e1) && SpaceRun(s, e1, b2) && WordRun(s, b2, e2)
    requires SpaceRun(s, e2, b3) && WordRun(s, b3, e3)
    ensures Words(s, 3) == [s[b1..e1], s[b2..e2], s[b3..e3]]
  {
    assert WordsFrom(s, e3, 0) == [];
    MoreWords(s, e2, b3, e3, 0, []);
    MoreWords(s, e1, b2, e2, 1, [s[b3..e3]]);
    MoreWords(s, 0, b1, e1, 2, [s[b2..e2], s[b3..e3]]);
  }

  /** Three words separated by white space are the command and its two arguments; later words are ignored. */
  lemma TokenizeWords(a: string, b: string, c: string, rest: string)
    requires a != [] && b != [] && c != [] && NoSpace(a) && NoSpace(b) && NoSpace(c)
    requires rest == [] || IsSpace(rest[0])
    requires '\0' !in a + " " + b + " " + c + rest
    ensures Tokenize(a + " " + b + " " + c + rest) == Command(a, b, c)
  {
    WordsLayout(a, b, c, rest);
    var i1 := |a| + 1;
    var i2 := i1 + |b| + 1;
    ThreeWords(a + " " + b + " " + c + rest, 0, |a|, i1, i1 + |b|, i2, i2 + |c|);
  }

  /* -------------------------------------------------------- XOVER range */

  /**
   * The range XOVER asks for before clamping: no argument means the whole
   * group; "N-M" gives N..M; a leading number without a second one ("N",
   * "N-") runs to End; anything else gives Start..Start.
   */
  function XoverRequest(arg: string, start: nat, end: nat): Range {
    if arg == [] then Range(start, end)
    else match ParseNumber(arg)
      case None => Range(start, start)
      case Some(a) =>
        var lo := ULongOf(a.negative, Magnitude(a));
        if a.end < |arg| && arg[a.end] == '-' then
          match ParseNumber(arg[a.end + 1..])
          case Some(b) => Range(lo, ULongOf(b.negative, Magnitude(b)))
          case None => Range(lo, end)
        else Range(lo, end)
  }

  /** The five sanitising steps: both ends into Start..End, then the start no later than the end. */
  function Clamped(r: Range, start: nat, end: nat): (c: Range)
    ensures c.lo <= c.hi && (start <= end ==> start <= c.lo <= c.hi <= end)
    ensures start <= r.lo <= r.hi <= end ==> c == r
  {
    var s1 := if r.lo < start then start else r.lo;
    var s2 := if s1 > end then end else s1;
    var e1 := if r.hi < start then start else r.hi;
    var e2 := if e1 > end then end else e1;
    Range(if s2 > e2 then e2 else s2, e2)
  }

  function XoverRange(arg: string, start: nat, end: nat): Range {
    Clamped(XoverRequest(arg, start, end), start, end)
  }

  /** A decimal numeral parsed at the start of arg, and what follows it. */
  lemma LeadingNumeral(d: string, rest: string)
    requires d != [] && AllDigits(d) && (rest == [] || !IsDigit(rest[0]))
    ensures ParseNumber(d + rest) == Some(Numeral(false, d, |d|))
  {
    ParseDigitsAfterSpace([], d, rest);
    assert [] + d + rest == d + rest;
  }

  /** XoverRequest on an argument whose two numerals are already known. */
  lemma RequestOfPair(arg: string, a: Numeral, b: Numeral, start: nat, end: nat)
    requires arg != [] && ParseNumber(arg) == Some(a) && a.end < |arg| && arg[a.end] == '-'
    requires ParseNumber(arg[a.end + 1..]) == Some(b)
    ensures XoverRequest(arg, start, end) == Range(ULongOf(a.negative, Magnitude(a)), ULongOf(b.negative, Magnitude(b)))
  {
  }

  /** XoverRequest on an argument with one numeral and nothing after it, or a dash alone. */
  lemma RequestOfOne(arg: string, a: Numeral, start: nat, end: nat)
    requires arg != [] && ParseNumber(arg) == Some(a)
    requires a.end == |arg| || (a.end == |arg| - 1 && arg[a.end] == '-')
    ensures XoverRequest(arg, start, end) == Range(ULongOf(a.negative, Magnitude(a)), end)
  {
    if a.end < |arg| {
      assert arg[a.end + 1..] == [];
    }
  }

  lemma XoverDigitsPair(d: string, e: string, start: nat, end: nat)
    requires d != [] && AllDigits(d) && e != [] && AllDigits(e)
    ensures XoverRequest(d + "-" + e, start, end) ==
            Range(ULongOf(false, DecimalValue(d)), ULongOf(false, DecimalValue(e)))
  {
    var arg := d + ("-" + e);
    assert d + "-" + e == arg;
    LeadingNumeral(d, "-" + e);
    assert arg[|d|] == '-';
    assert arg[|d| + 1..] == e + [];
    LeadingNumeral(e, []);
    RequestOfPair(arg, Numeral(false, d, |d|), Numeral(false, e, |e|), start, end);
  }

  lemma XoverDigitsOpen(d: string, rest: string, start: nat, end: nat)
    requires d != [] && AllDigits(d) && (rest == [] || rest == "-")
    ensures XoverRequest(d + rest, start, end) == Range(ULongOf(false, DecimalValue(d)), end)
  {
    LeadingNumeral(d, rest);
    RequestOfOne(d + rest, Numeral(false, d, |d|), start, end);
  }

  /** "XOVER N-M" asks for exactly N..M. */
  lemma XoverPair(a: nat, b: nat, start: nat, end: nat)
    requires a <= ULONG_MAX && b <= ULONG_MAX
    ensures XoverRequest(Ultos(a) + "-" + Ultos(b), start, end) == Range(a, b)
  {
    XoverDigitsPair(Ultos(a), Ultos(b), start, end);
  }

  /** A bare "XOVER N" runs from N to End, not N..N. */
  lemma XoverBare(a: nat, start: nat, end: nat)
    requires a <= ULONG_MAX
    ensures XoverRequest(Ultos(a), start, end) == Range(a, end)
  {
    XoverDigitsOpen(Ultos(a), [], start, end);
    assert Ultos(a) + [] == Ultos(a);
  }

  /** "XOVER N-" runs from N to End as well. */
  lemma XoverOpen(a: nat, start: nat, end: nat)
    requires a <= ULONG_MAX
    ensures XoverRequest(Ultos(a) + "-", start, end) == Range(a, end)
  {
    XoverDigitsOpen(Ultos(a), "-", start, end);
  }

  /** An argument that does not start with a number gives Start..Start. */
  lemma XoverJunk(arg: string, start: nat, end: nat)
    requires arg != [] && !IsSpace(arg[0]) && !IsDigit(arg[0]) && arg[0] != '+' && arg[0] != '-'
    ensures XoverRequest(arg, start, end) == Range(start, start)
  {
    SpaceEndAt(arg, 0, 0);
    DigitEndAt(arg, 0, 0);
  }
}
