/**
 * The shared string subroutines: decimal rendering of an unsigned long, and two
 * routines that rewrite a NUL-terminated character buffer in place.
 */
module Subs {
  import opened CLib

  function DigitChar(d: nat): (c: char)
    requires d < 10
    ensures IsDigit(c) && DigitValue(c) == d
  {
    ('0' as int + d) as char
  }

  /** ultos: the decimal text of n, without leading zeros. */
  function Ultos(n: nat): (s: string)
    ensures |s| > 0 && AllDigits(s)
    ensures DecimalValue(s) == n
    ensures s[0] == '0' ==> n == 0
    decreases n
  {
    if n < 10 then [DigitChar(n)]
    else
      var p := Ultos(n / 10);
      var c := DigitChar(n % 10);
      assert (p + [c])[..|p|] == p;
      p + [c]
  }

  function Pow10(k: nat): nat {
    if k == 0 then 1 else 10 * Pow10(k - 1)
  }

  /** A number below 10^k takes at most k digits. */
  lemma {:induction false} UltosLength(n: nat, k: nat)
    requires 0 < k && n < Pow10(k)
    ensures |Ultos(n)| <= k
    decreases k
  {
    if n >= 10 {
      assert k > 1;
      assert n / 10 < Pow10(k - 1);
      UltosLength(n / 10, k - 1);
    }
  }

  /** A 32-bit number takes at most ten digits. */
  lemma UltosLength32(n: nat)
    requires n < 0x1_0000_0000
    ensures |Ultos(n)| <= 10
  {
    assert Pow10(1) == 10;
    assert Pow10(2) == 100;
    assert Pow10(3) == 1000;
    assert Pow10(4) == 10000;
    assert Pow10(5) == 100000;
    assert Pow10(6) == 1000000;
    assert Pow10(7) == 10000000;
    assert Pow10(8) == 100000000;
    assert Pow10(9) == 1000000000;
    assert Pow10(10) == 10000000000;
    UltosLength(n, 10);
  }

  /** An unsigned long takes at most twenty digits. */
  lemma UltosLength64(n: nat)
    requires n <= ULONG_MAX
    ensures |Ultos(n)| <= 20
  {
    assert Pow10(1) == 10;
    assert Pow10(2) == 100;
    assert Pow10(3) == 1000;
    assert Pow10(4) == 10000;
    assert Pow10(5) == 100000;
    assert Pow10(6) == 1000000;
    assert Pow10(7) == 10000000;
    assert Pow10(8) == 100000000;
    assert Pow10(9) == 1000000000;
    assert Pow10(10) == 10000000000;
    assert Pow10(11) == 100000000000;
    assert Pow10(12) == 1000000000000;
    assert Pow10(13) == 10000000000000;
    assert Pow10(14) == 100000000000000;
    assert Pow10(15) == 1000000000000000;
    assert Pow10(16) == 10000000000000000;
    assert Pow10(17) == 100000000000000000;
    assert Pow10(18) == 1000000000000000000;
    assert Pow10(19) == 10000000000000000000;
    assert Pow10(20) == 100000000000000000000;
    UltosLength(n, 20);
  }

  /** Two numbers with the same decimal text are the same number. */
  lemma UltosInjective(a: nat, b: nat)
    requires Ultos(a) == Ultos(b)
    ensures a == b
  {
  }

  /** Reading back ultos's text with sscanf("%lu") after white space gives the number again. */
  lemma ScanULongUltos(w: string, n: nat, rest: string)
    requires AllSpace(w) && n <= ULONG_MAX
    requires rest == [] || !IsDigit(rest[0])
    ensures ScanULong(w + Ultos(n) + rest) == Some(n)
  {
    ParseDigitsAfterSpace(w, Ultos(n), rest);
  }

  /** strtoul on ultos's text gives the number and stops at its end. */
  lemma StrToULUltos(n: nat, rest: string)
    requires n <= ULONG_MAX
    requires rest == [] || !IsDigit(rest[0])
    ensures StrToUL(Ultos(n) + rest) == (n, |Ultos(n)|)
  {
    ParseDigitsAfterSpace([], Ultos(n), rest);
    assert [] + Ultos(n) + rest == Ultos(n) + rest;
  }

  /** Index of the NUL that ends the C string held in buffer b. */
  function NulIndex(b: seq<char>): (k: nat)
    requires '\0' in b
    ensures k < |b| && b[k] == '\0' && forall i :: 0 <= i < k ==> b[i] != '\0'
    ensures CStr(b) == b[..k]
  {
    IndexOf(b, '\0', 0)
  }

  predicate IsCrlf(c: char) { c == '\r' || c == '\n' }

  /** Index of the first CR or LF in t at or after i, or |t|. */
  function CrlfIndex(t: string, i: nat): (n: nat)
    requires i <= |t|
    ensures i <= n <= |t|
    ensures forall m :: i <= m < n ==> !IsCrlf(t[m])
    ensures n < |t| ==> IsCrlf(t[n])
    decreases |t| - i
  {
    if i < |t| && !IsCrlf(t[i]) then CrlfIndex(t, i + 1) else i
  }

  lemma {:induction false} CrlfIndexAt(t: string, i: nat, n: nat)
    requires i <= n <= |t|
    requires forall m :: i <= m < n ==> !IsCrlf(t[m])
    requires n < |t| ==> IsCrlf(t[n])
    ensures CrlfIndex(t, i) == n
    decreases |t| - i
  {
    if i < n {
      CrlfIndexAt(t, i + 1, n);
    }
  }

  /** The text before the first CR or LF: what TruncateCrlf leaves of a C string. */
  function BeforeCrlf(t: string): (r: string)
    ensures r <= t && '\r' !in r && '\n' !in r
    ensures |r| < |t| ==> t[|r|] == '\r' || t[|r|] == '\n'
  {
    var n := CrlfIndex(t, 0);
    assert forall m :: 0 <= m < n ==> t[..n][m] == t[m];
    t[..n]
  }

  /** A text without CR and LF is left alone, so truncating twice is truncating once. */
  lemma BeforeCrlfIdempotent(t: string)
    ensures BeforeCrlf(BeforeCrlf(t)) == BeforeCrlf(t)
    ensures '\r' !in t && '\n' !in t ==> BeforeCrlf(t) == t
  {
    var r := BeforeCrlf(t);
    CrlfIndexAt(r, 0, |r|);
    assert r[..|r|] == r;
    if '\r' !in t && '\n' !in t {
      CrlfIndexAt(t, 0, |t|);
      assert t[..|t|] == t;
    }
  }

  /** Index in buffer b of the first CR, LF or NUL. */
  function CrlfOrNul(b: seq<char>): (k: nat)
    requires '\0' in b
    ensures k < |b| && (b[k] == '\r' || b[k] == '\n' || b[k] == '\0')
    ensures forall i :: 0 <= i < k ==> b[i] != '\r' && b[i] != '\n' && b[i] != '\0'
  {
    var z := IndexOf(b, '\0', 0);
    var c := CrlfIndex(b[..z], 0);
    assert forall m :: 0 <= m < c ==> b[..z][m] == b[m];
    c
  }

  /** TruncateCrlf_SUBS: store a NUL over the first CR or LF of the C string in s. */
  method TruncateCrlf(s: array<char>)
    requires '\0' in s[..]
    modifies s
    ensures var k := CrlfOrNul(old(s[..])); s[..] == old(s[..])[k := '\0']
    ensures '\0' in s[..] && CStr(s[..]) == BeforeCrlf(CStr(old(s[..])))
  {
    ghost var b := s[..];
    var k := CrlfOrNul(s[..]);
    s[k] := '\0';
    TruncatedView(b, k);
  }

  /** Storing the NUL over the first CR or LF cuts the C string just there. */
  lemma TruncatedView(b: seq<char>, k: nat)
    requires '\0' in b && k == CrlfOrNul(b)
    ensures '\0' in b[k := '\0'] && CStr(b[k := '\0']) == BeforeCrlf(CStr(b))
  {
    var b' := b[k := '\0'];
    assert b'[k] == '\0';
    IndexOfAt(b', '\0', 0, k);
    var c := CStr(b);
    assert k <= |c| by { assert forall m :: 0 <= m < |b| && b[m] == '\0' ==> k <= m; }
    CrlfIndexAt(c, 0, k);
    assert b'[..k] == c[..k];
  }

  /** The text t with every from replaced by to. */
  function Replaced(t: string, from: char, to: char): (r: string)
    ensures |r| == |t|
    ensures forall i :: 0 <= i < |t| ==> r[i] == (if t[i] == from then to else t[i])
  {
    seq(|t|, i requires 0 <= i < |t| => if t[i] == from then to else t[i])
  }

  /** The buffer ReplaceString leaves: the C string rewritten, the NUL and what follows untouched. */
  function ReplacedBuffer(b: seq<char>, from: char, to: char): (r: seq<char>)
    requires '\0' in b
    ensures |r| == |b|
  {
    var k := NulIndex(b);
    Replaced(b[..k], from, to) + b[k..]
  }

  /** ReplaceString_SUBS: walk the C string in s and overwrite each from with to. */
  method ReplaceString(s: array<char>, from: char, to: char)
    requires '\0' in s[..]
    modifies s
    ensures s[..] == ReplacedBuffer(old(s[..]), from, to)
  {
    ghost var b := s[..];
    ghost var k := NulIndex(b);
    var i := 0;
    while s[i] != '\0'
      invariant 0 <= i <= k
      invariant forall j :: 0 <= j < i ==> s[j] == (if b[j] == from then to else b[j])
      invariant forall j :: i <= j < s.Length ==> s[j] == b[j]
      decreases k - i
    {
      assert i < k;
      assert b[..k][i] == b[i];
      if s[i] == from { s[i] := to; }
      i := i + 1;
    }
    assert s[..] == ReplacedBuffer(b, from, to);
  }

  /** Replacing from by a different to leaves no from in the C string's former extent. */
  lemma ReplacedHasNoFrom(t: string, from: char, to: char)
    requires from != to
    ensures from !in Replaced(t, from, to)
  {
    var r := Replaced(t, from, to);
    forall i | 0 <= i < |r| ensures r[i] != from {
      assert r[i] == (if t[i] == from then to else t[i]);
    }
  }

  /** ReplaceString is idempotent on the buffer, even when to is NUL and ends the string early. */
  lemma {:induction false} ReplaceStringIdempotent(b: seq<char>, from: char, to: char)
    requires '\0' in b
    ensures '\0' in ReplacedBuffer(b, from, to)
    ensures var b' := ReplacedBuffer(b, from, to); ReplacedBuffer(b', from, to) == b'
  {
    var k := NulIndex(b);
    var b' := ReplacedBuffer(b, from, to);
    assert b'[k] == b[k] == '\0';
    var k' := NulIndex(b');
    assert k' <= k;
    var b'' := ReplacedBuffer(b', from, to);
    forall j | 0 <= j < |b'| ensures b''[j] == b'[j] {
      if j < k' {
        assert b''[j] == Replaced(b'[..k'], from, to)[j];
        assert b'[j] == Replaced(b[..k], from, to)[j];
        if from != to { assert b'[j] != from; }
      } else {
        assert b''[j] == b'[k'..][j - k'];
      }
    }
    assert b'' == b';
  }
}
