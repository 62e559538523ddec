/**
 * The C library behaviour the server relies on, stated once: character classes,
 * case-insensitive comparison, the C-string view of a buffer, numeric conversion
 * as strtoul/strtol/sscanf perform it, and the way fgets cuts a file into
 * bounded chunks.
 */
module CLib {

  datatype Option<T> = None | Some(value: T)

  const ULONG_MAX: nat := 0xFFFF_FFFF_FFFF_FFFF
  const LONG_MAX: int := 0x7FFF_FFFF_FFFF_FFFF
  const LONG_MIN: int := -0x8000_0000_0000_0000

  /** isspace() in the C locale. */
  predicate IsSpace(c: char) {
    c == ' ' || c == '\t' || c == '\n' || c == '\r' || c == '\U{0B}' || c == '\U{0C}'
  }

  predicate IsDigit(c: char) { '0' <= c <= '9' }

  predicate IsAlnum(c: char) { IsDigit(c) || 'a' <= c <= 'z' || 'A' <= c <= 'Z' }

  function ToLower(c: char): char {
    if 'A' <= c <= 'Z' then (c as int + 32) as char else c
  }

  /** strcasecmp(a, b) == 0 */
  predicate EqualsIgnoreCase(a: string, b: string) {
    |a| == |b| && forall i :: 0 <= i < |a| ==> ToLower(a[i]) == ToLower(b[i])
  }

  /** s with every letter in lower case. */
  function Lower(s: string): (r: string)
    ensures |r| == |s| && forall i :: 0 <= i < |s| ==> r[i] == ToLower(s[i])
  {
    seq(|s|, i requires 0 <= i < |s| => ToLower(s[i]))
  }

  /** strcasecmp equality is equality of the lower-cased texts. */
  lemma EqualsIgnoreCaseLower(a: string, b: string)
    ensures EqualsIgnoreCase(a, b) <==> Lower(a) == Lower(b)
  {
    if Lower(a) == Lower(b) {
      assert forall i :: 0 <= i < |a| ==> Lower(a)[i] == Lower(b)[i];
    }
  }

  /** strncasecmp(s, p, strlen(p)) == 0: s starts with p up to case. */
  predicate HasPrefixIgnoreCase(s: string, p: string) {
    |p| <= |s| && EqualsIgnoreCase(s[..|p|], p)
  }

  predicate AllSpace(s: string) { forall i :: 0 <= i < |s| ==> IsSpace(s[i]) }

  predicate NoSpace(s: string) { forall i :: 0 <= i < |s| ==> !IsSpace(s[i]) }

  predicate AllDigits(s: string) { forall i :: 0 <= i < |s| ==> IsDigit(s[i]) }

  /** Index of the first c in s at or after i, or |s| when there is none. */
  function IndexOf(s: string, c: char, i: nat): (n: nat)
    requires i <= |s|
    ensures i <= n <= |s|
    ensures forall m :: i <= m < n ==> s[m] != c
    ensures n < |s| ==> s[n] == c
    decreases |s| - i
  {
    if i < |s| && s[i] != c then IndexOf(s, c, i + 1) else i
  }

  /** IndexOf is determined by its two properties. */
  lemma {:induction false} IndexOfAt(s: string, c: char, i: nat, n: nat)
    requires i <= n <= |s|
    requires forall m :: i <= m < n ==> s[m] != c
    requires n < |s| ==> s[n] == c
    ensures IndexOf(s, c, i) == n
    decreases |s| - i
  {
    if i < n {
      IndexOfAt(s, c, i + 1, n);
    }
  }

  /** What a C routine sees of a buffer: the characters before the first NUL. */
  function CStr(s: string): (r: string)
    ensures r <= s && '\0' !in r
    ensures |r| < |s| ==> s[|r|] == '\0'
    ensures '\0' !in s ==> r == s
  {
    var n := IndexOf(s, '\0', 0);
    assert forall m :: 0 <= m < n ==> s[..n][m] == s[m];
    s[..n]
  }

  /** Index of the first non-space at or after i: what strspn and scanf skip. */
  function SpaceEnd(s: string, i: nat): (n: nat)
    requires i <= |s|
    ensures i <= n <= |s|
    ensures forall m :: i <= m < n ==> IsSpace(s[m])
    ensures n < |s| ==> !IsSpace(s[n])
    decreases |s| - i
  {
    if i < |s| && IsSpace(s[i]) then SpaceEnd(s, i + 1) else i
  }

  /** Index of the first white-space character at or after i: the end of a scanf %s word. */
  function WordEnd(s: string, i: nat): (n: nat)
    requires i <= |s|
    ensures i <= n <= |s|
    ensures forall m :: i <= m < n ==> !IsSpace(s[m])
    ensures n < |s| ==> IsSpace(s[n])
    decreases |s| - i
  {
    if i < |s| && !IsSpace(s[i]) then WordEnd(s, i + 1) else i
  }

  /** Index of the first non-digit at or after i. */
  function DigitEnd(s: string, i: nat): (n: nat)
    requires i <= |s|
    ensures i <= n <= |s|
    ensures forall m :: i <= m < n ==> IsDigit(s[m])
    ensures n < |s| ==> !IsDigit(s[n])
    decreases |s| - i
  {
    if i < |s| && IsDigit(s[i]) then DigitEnd(s, i + 1) else i
  }

  lemma {:induction false} SpaceEndAt(s: string, i: nat, n: nat)
    requires i <= n <= |s|
    requires forall m :: i <= m < n ==> IsSpace(s[m])
    requires n < |s| ==> !IsSpace(s[n])
    ensures SpaceEnd(s, i) == n
    decreases |s| - i
  {
    if i < n {
      SpaceEndAt(s, i + 1, n);
    }
  }

  lemma {:induction false} WordEndAt(s: string, i: nat, n: nat)
    requires i <= n <= |s|
    requires forall m :: i <= m < n ==> !IsSpace(s[m])
    requires n < |s| ==> IsSpace(s[n])
    ensures WordEnd(s, i) == n
    decreases |s| - i
  {
    if i < n {
      WordEndAt(s, i + 1, n);
    }
  }

  lemma {:induction false} DigitEndAt(s: string, i: nat, n: nat)
    requires i <= n <= |s|
    requires forall m :: i <= m < n ==> IsDigit(s[m])
    requires n < |s| ==> !IsDigit(s[n])
    ensures DigitEnd(s, i) == n
    decreases |s| - i
  {
    if i < n {
      DigitEndAt(s, i + 1, n);
    }
  }

  function DigitValue(c: char): nat
    requires IsDigit(c)
  {
    c as int - '0' as int
  }

  /** The number a string of decimal digits denotes (unbounded). */
  function DecimalValue(s: string): nat
    requires AllDigits(s)
    decreases |s|
  {
    if s == [] then 0 else DecimalValue(s[..|s| - 1]) * 10 + DigitValue(s[|s| - 1])
  }

  /** A number as strtoul/strtol/scanf find it: its sign, its digits, the index just after them. */
  datatype Numeral = Numeral(negative: bool, digits: string, end: nat)

  /**
   * The numeral at the start of s: leading white space, an optional sign, then
   * at least one digit; None when no digit follows.
   */
  function ParseNumber(s: string): (r: Option<Numeral>)
    ensures r.Some? ==> |r.value.digits| > 0 && AllDigits(r.value.digits)
    ensures r.Some? ==> r.value.end <= |s| && (r.value.end < |s| ==> !IsDigit(s[r.value.end]))
  {
    var i := SpaceEnd(s, 0);
    var j := if i < |s| && (s[i] == '+' || s[i] == '-') then i + 1 else i;
    var e := DigitEnd(s, j);
    assert forall m :: 0 <= m < e - j ==> s[j..e][m] == s[j + m];
    if e == j then None
    else Some(Numeral(i < |s| && s[i] == '-', s[j..e], e))
  }

  function Magnitude(n: Numeral): nat
    requires AllDigits(n.digits)
  {
    DecimalValue(n.digits)
  }

  /** strtoul's value for a parsed sign and magnitude: saturating, negation modulo 2^64. */
  function ULongOf(negative: bool, magnitude: nat): (v: nat)
    ensures v <= ULONG_MAX
    ensures !negative && magnitude <= ULONG_MAX ==> v == magnitude
  {
    if magnitude > ULONG_MAX then ULONG_MAX
    else if negative && magnitude > 0 then ULONG_MAX + 1 - magnitude
    else magnitude
  }

  /** strtol's value for a parsed sign and magnitude: saturating at LONG_MIN and LONG_MAX. */
  function LongOf(negative: bool, magnitude: nat): (v: int)
    ensures LONG_MIN <= v <= LONG_MAX
    ensures negative ==> v <= 0
    ensures !negative ==> v >= 0
  {
    if negative then (if magnitude > -LONG_MIN then LONG_MIN else -(magnitude as int))
    else (if magnitude > LONG_MAX then LONG_MAX else magnitude)
  }

  /** Conversion to a 32-bit two's-complement int, as a C cast truncates. */
  function Int32Of(v: int): (r: int)
    ensures -0x8000_0000 <= r < 0x8000_0000
    ensures -0x8000_0000 <= v < 0x8000_0000 ==> r == v
  {
    var m := v % 0x1_0000_0000;
    if m >= 0x8000_0000 then m - 0x1_0000_0000 else m
  }

  /** Conversion to a 32-bit unsigned int. */
  function UInt32Of(v: int): (r: nat)
    ensures r < 0x1_0000_0000
    ensures 0 <= v < 0x1_0000_0000 ==> r == v
  {
    v % 0x1_0000_0000
  }

  /** strtoul(s, &end, 10): (value, end index); with no digits the value is 0 and end is 0. */
  function StrToUL(s: string): (r: (nat, nat))
    ensures r.1 <= |s| && r.0 <= ULONG_MAX
  {
    match ParseNumber(s)
    case None => (0, 0)
    case Some(n) => (ULongOf(n.negative, Magnitude(n)), n.end)
  }

  /** strtol(s, &end, 10): (value, end index). */
  function StrToL(s: string): (r: (int, nat))
    ensures r.1 <= |s|
  {
    match ParseNumber(s)
    case None => (0, 0)
    case Some(n) => (LongOf(n.negative, Magnitude(n)), n.end)
  }

  /** atoi(s), which glibc computes as (int) strtol(s, NULL, 10). */
  function Atoi(s: string): int {
    Int32Of(StrToL(s).0)
  }

  /** sscanf(s, "%lu", &v) == 1 gives Some(v). */
  function ScanULong(s: string): Option<nat> {
    match ParseNumber(s)
    case None => None
    case Some(n) => Some(ULongOf(n.negative, Magnitude(n)))
  }

  /** sscanf(s, "%d", &v) == 1 gives Some(v). */
  function ScanInt(s: string): Option<int> {
    match ParseNumber(s)
    case None => None
    case Some(n) => Some(Int32Of(LongOf(n.negative, Magnitude(n))))
  }

  /** sscanf(s, "%u", &v) == 1 gives Some(v). */
  function ScanUInt(s: string): Option<nat> {
    match ParseNumber(s)
    case None => None
    case Some(n) => Some(UInt32Of(ULongOf(n.negative, Magnitude(n))))
  }

  /** sscanf(s, "%Ns", w) == 1 gives Some(w): white space skipped, then at most N non-space characters. */
  function ScanWord(s: string, width: nat): (r: Option<string>)
    ensures r.Some? ==> 0 < |r.value| <= width && NoSpace(r.value)
  {
    var i := SpaceEnd(s, 0);
    var e := WordEnd(s, i);
    var w := s[i..e];
    assert forall m :: 0 <= m < |w| ==> w[m] == s[i + m];
    if e == i || width == 0 then None else if |w| <= width then Some(w) else Some(w[..width])
  }

  /**
   * sscanf's "%s%s%s…": the first k white-space separated words of s,
   * fewer when the line runs out.
   */
  function Words(s: string, k: nat): (ws: seq<string>)
    ensures |ws| <= k
    ensures forall i :: 0 <= i < |ws| ==> |ws[i]| > 0 && NoSpace(ws[i])
  {
    WordsFrom(s, 0, k)
  }

  function WordsFrom(s: string, i: nat, k: nat): (ws: seq<string>)
    requires i <= |s|
    ensures |ws| <= k
    ensures forall n :: 0 <= n < |ws| ==> |ws[n]| > 0 && NoSpace(ws[n])
    decreases k
  {
    var b := SpaceEnd(s, i);
    var e := WordEnd(s, b);
    assert forall m :: 0 <= m < e - b ==> s[b..e][m] == s[b + m];
    if k == 0 || e == b then [] else [s[b..e]] + WordsFrom(s, e, k - 1)
  }

  /** s[i..j] is white space. */
  predicate SpaceRun(s: string, i: nat, j: nat)
    requires i <= j <= |s|
  {
    forall m :: i <= m < j ==> IsSpace(s[m])
  }

  /** s[i..j] is a whole word: non-empty, no white space, and followed by white space or the end. */
  predicate WordRun(s: string, i: nat, j: nat)
    requires i <= j <= |s|
  {
    i < j && (forall m :: i <= m < j ==> !IsSpace(s[m])) && (j < |s| ==> IsSpace(s[j]))
  }

  /** Skipping white space and reading one word puts that word in front of the ones after it. */
  lemma MoreWords(s: string, i: nat, b: nat, e: nat, k: nat, ws: seq<string>)
    requires i <= b <= e <= |s| && SpaceRun(s, i, b) && WordRun(s, b, e) && WordsFrom(s, e, k) == ws
    ensures WordsFrom(s, i, k + 1) == [s[b..e]] + ws
  {
    SpaceEndAt(s, i, b);
    WordEndAt(s, b, e);
  }

  /** White space alone holds no word. */
  lemma WordsBlank(y: string, i: nat, k: nat)
    requires i <= |y| && SpaceRun(y, i, |y|)
    ensures WordsFrom(y, i, k) == []
  {
    SpaceEndAt(y, i, |y|);
  }

  /** Index just after the first newline of s, or |s| when there is none. */
  function LineLength(s: string): (n: nat)
    ensures n <= |s| && (s != [] ==> n > 0)
    ensures forall i :: 0 <= i < n - 1 ==> s[i] != '\n'
    ensures n < |s| ==> s[n - 1] == '\n'
    decreases |s|
  {
    if s == [] then 0 else if s[0] == '\n' then 1 else 1 + LineLength(s[1..])
  }

  function Min(a: nat, b: nat): nat { if a <= b then a else b }

  /**
   * The chunks successive calls fgets(buf, size, fp) return for a file holding
   * data: each ends at a newline (included) or after size - 1 characters, or at
   * the end of the file.
   */
  function FgetsChunks(data: string, size: nat): (chunks: seq<string>)
    requires size >= 2
    ensures forall i :: 0 <= i < |chunks| ==> 0 < |chunks[i]| <= size - 1
    decreases |data|
  {
    if data == [] then []
    else
      var n := Min(LineLength(data), size - 1);
      [data[..n]] + FgetsChunks(data[n..], size)
  }

  function Concat(ss: seq<string>): string
    decreases |ss|
  {
    if ss == [] then [] else ss[0] + Concat(ss[1..])
  }

  /** Concatenating two lists of texts concatenates their texts. */
  lemma {:induction false} ConcatAppend(a: seq<string>, b: seq<string>)
    ensures Concat(a + b) == Concat(a) + Concat(b)
    decreases |a|
  {
    if a == [] {
      assert a + b == b;
    } else {
      assert (a + b)[1..] == a[1..] + b;
      ConcatAppend(a[1..], b);
    }
  }

  /** The texts f gives for the items of xs, one after another. */
  function ConcatMap(f: string -> string, xs: seq<string>): string
    decreases |xs|
  {
    if xs == [] then [] else ConcatMap(f, xs[..|xs| - 1]) + f(xs[|xs| - 1])
  }

  lemma {:induction false} ConcatMapAppend(f: string -> string, a: seq<string>, b: seq<string>)
    ensures ConcatMap(f, a + b) == ConcatMap(f, a) + ConcatMap(f, b)
    decreases |b|
  {
    if b == [] {
      assert a + b == a;
    } else {
      var init := b[..|b| - 1];
      assert (a + b)[..|a + b| - 1] == a + init;
      ConcatMapAppend(f, a, init);
    }
  }

  lemma ConcatMapOne(f: string -> string, x: string)
    ensures ConcatMap(f, [x]) == f(x)
  {
    assert [x][..0] == [];
  }

  /** A newline-terminated line with no other newline, as a text file holds it. */
  predicate IsLine(l: string) {
    |l| > 0 && l[|l| - 1] == '\n' && '\n' !in l[..|l| - 1]
  }

  /** fgets loses nothing: the chunks put back together are the file. */
  lemma {:induction false} ChunksConcat(data: string, size: nat)
    requires size >= 2
    ensures Concat(FgetsChunks(data, size)) == data
    decreases |data|
  {
    if data != [] {
      var n := Min(LineLength(data), size - 1);
      ChunksConcat(data[n..], size);
      assert data[..n] + data[n..] == data;
    }
  }

  /** A chunk holds a newline only as its last character. */
  lemma {:induction false} ChunkNewlines(data: string, size: nat, k: nat)
    requires size >= 2 && k < |FgetsChunks(data, size)|
    ensures var c := FgetsChunks(data, size)[k]; '\n' !in c[..|c| - 1]
    decreases |data|
  {
    var n := Min(LineLength(data), size - 1);
    if k > 0 {
      ChunkNewlines(data[n..], size, k - 1);
    } else {
      var c := data[..n];
      forall i | 0 <= i < |c| - 1 ensures c[i] != '\n' { assert c[i] == data[i]; }
    }
  }

  /** A short complete line at the front of a file is returned whole by one fgets call. */
  lemma LineChunk(l: string, rest: string, size: nat)
    requires size >= 2 && IsLine(l) && |l| <= size - 1
    ensures FgetsChunks(l + rest, size) == [l] + FgetsChunks(rest, size)
  {
    var data := l + rest;
    var n := LineLength(data);
    assert forall i :: 0 <= i < |l| - 1 ==> data[i] == l[..|l| - 1][i];
    assert data[|l| - 1] == '\n';
    assert n == |l|;
    assert data[..|l|] == l;
    assert data[|l|..] == rest;
  }

  /** The chunks of a text made of short lines are exactly those lines. */
  lemma {:induction false} LinesChunks(ls: seq<string>, size: nat)
    requires size >= 2
    requires forall i :: 0 <= i < |ls| ==> IsLine(ls[i]) && |ls[i]| <= size - 1
    ensures FgetsChunks(Concat(ls), size) == ls
    decreases |ls|
  {
    if ls != [] {
      LineChunk(ls[0], Concat(ls[1..]), size);
      LinesChunks(ls[1..], size);
    }
  }

  /** Short lines at the front of a file come back one per chunk, before the chunks of what follows. */
  lemma {:induction false} LinesChunksThen(ls: seq<string>, rest: string, size: nat)
    requires size >= 2
    requires forall i :: 0 <= i < |ls| ==> IsLine(ls[i]) && |ls[i]| <= size - 1
    ensures FgetsChunks(Concat(ls) + rest, size) == ls + FgetsChunks(rest, size)
    decreases |ls|
  {
    if ls == [] {
      assert Concat(ls) + rest == rest;
    } else {
      assert Concat(ls) + rest == ls[0] + (Concat(ls[1..]) + rest);
      LineChunk(ls[0], Concat(ls[1..]) + rest, size);
      LinesChunksThen(ls[1..], rest, size);
      assert [ls[0]] + (ls[1..] + FgetsChunks(rest, size)) == ls + FgetsChunks(rest, size);
    }
  }

  /** White space, then digits, then a non-digit: scanf reads exactly those digits. */
  lemma ParseDigitsAfterSpace(w: string, d: string, rest: string)
    requires AllSpace(w) && |d| > 0 && AllDigits(d)
    requires rest == [] || !IsDigit(rest[0])
    ensures var r := ParseNumber(w + d + rest);
      r.Some? && !r.value.negative && r.value.digits == d && r.value.end == |w| + |d|
  {
    var s := w + d + rest;
    var e := |w| + |d|;
    assert forall m :: 0 <= m < |w| ==> s[m] == w[m];
    assert forall m :: |w| <= m < e ==> s[m] == d[m - |w|];
    assert e < |s| ==> s[e] == rest[0];
    SpaceEndAt(s, 0, |w|);
    DigitEndAt(s, |w|, e);
    assert s[|w|..e] == d;
  }
}
