/**
 * The syntax of a line of the server's directive file: a comment runs from '#'
 * to the end of the line, trailing white space is dropped, and what remains is
 * a directive name, white space, and the directive's value.
 */
module ConfigSyntax {
  import opened CLib

  /** The text before the first occurrence of c (strchr then a NUL store). */
  function Before(t: string, c: char): (r: string)
    ensures r <= t && c !in r
    ensures |r| < |t| ==> t[|r|] == c
  {
    var n := IndexOf(t, c, 0);
    assert forall m :: 0 <= m < n ==> t[..n][m] == t[m];
    t[..n]
  }

  /** Length of t[..e] once its trailing white space is dropped. */
  function TrimmedLength(t: string, e: nat): (n: nat)
    requires e <= |t|
    ensures n <= e
    ensures forall m :: n <= m < e ==> IsSpace(t[m])
    ensures n > 0 ==> !IsSpace(t[n - 1])
    decreases e
  {
    if e > 0 && IsSpace(t[e - 1]) then TrimmedLength(t, e - 1) else e
  }

  lemma {:induction false} TrimmedLengthAt(t: string, e: nat, n: nat)
    requires n <= e <= |t|
    requires forall m :: n <= m < e ==> IsSpace(t[m])
    requires n > 0 ==> !IsSpace(t[n - 1])
    ensures TrimmedLength(t, e) == n
    decreases e
  {
    if n < e {
      TrimmedLengthAt(t, e - 1, n);
    }
  }

  /** t without its trailing white space. */
  function TrimEnd(t: string): (r: string)
    ensures r <= t && forall m :: |r| <= m < |t| ==> IsSpace(t[m])
    ensures r != [] ==> !IsSpace(r[|r| - 1])
  {
    t[..TrimmedLength(t, |t|)]
  }

  /** A line of the directive file: blank (or a name with no value), or a name and its value. */
  datatype Line = Blank | Entry(name: string, value: string)

  /**
   * The directive name and value a line of the file holds: comment cut at '#',
   * trailing white space dropped, then the first word and, after white space,
   * the rest.
   */
  function DirectiveOf(line: string): Line {
    SplitTrimmed(TrimEnd(Before(CStr(line), '#')))
  }

  /** Name and value of a line already cut at its comment and stripped of trailing white space. */
  function SplitTrimmed(u: string): Line {
    if |u| == 0 then Blank
    else
      var i := SpaceEnd(u, 0);
      var j := WordEnd(u, i);
      var k := SpaceEnd(u, j);
      if k == |u| then Blank else Entry(u[i..j], u[k..])
  }

  /** The text SplitTrimmed works on holds no comment sign and no NUL. */
  lemma TrimmedClean(line: string)
    ensures var u := TrimEnd(Before(CStr(line), '#')); '#' !in u && '\0' !in u
  {
    var c := CStr(line);
    var t := Before(c, '#');
    var u := TrimEnd(t);
    assert forall m :: 0 <= m < |t| ==> t[m] == c[m];
    assert forall m :: 0 <= m < |u| ==> u[m] == t[m];
  }

  /** What DirectiveOf finds: a non-empty name without white space, and a value trimmed of it. */
  lemma DirectiveParts(line: string)
    ensures match DirectiveOf(line)
      case Blank => true
      case Entry(n, v) =>
        |n| > 0 && NoSpace(n) && '#' !in n && '\0' !in n &&
        |v| > 0 && !IsSpace(v[0]) && !IsSpace(v[|v| - 1]) && '#' !in v && '\0' !in v
  {
    var u := TrimEnd(Before(CStr(line), '#'));
    TrimmedClean(line);
    if |u| > 0 {
      var i := SpaceEnd(u, 0);
      var j := WordEnd(u, i);
      var k := SpaceEnd(u, j);
      if k < |u| {
        SliceFacts(u, i, j, k);
      }
    }
  }

  lemma SliceFacts(u: string, i: nat, j: nat, k: nat)
    requires '#' !in u && '\0' !in u && u != [] && !IsSpace(u[|u| - 1])
    requires i == SpaceEnd(u, 0) && j == WordEnd(u, i) && k == SpaceEnd(u, j) && k < |u|
    ensures var n := u[i..j]; |n| > 0 && NoSpace(n) && '#' !in n && '\0' !in n
    ensures var v := u[k..]; |v| > 0 && !IsSpace(v[0]) && !IsSpace(v[|v| - 1]) && '#' !in v && '\0' !in v
  {
    var n := u[i..j];
    var v := u[k..];
    assert forall m :: 0 <= m < |n| ==> n[m] == u[i + m];
    assert forall m :: 0 <= m < |v| ==> v[m] == u[k + m];
  }

  /** Space, a name, space and a value, with nothing after it: SplitTrimmed takes them apart. */
  lemma SplitTrimmedOf(w1: string, n: string, w2: string, v: string)
    requires AllSpace(w1) && AllSpace(w2) && |w2| > 0
    requires |n| > 0 && NoSpace(n) && |v| > 0 && !IsSpace(v[0])
    ensures SplitTrimmed(w1 + n + w2 + v) == Entry(n, v)
  {
    var u := w1 + n + w2 + v;
    var j := |w1| + |n|;
    var k := j + |w2|;
    assert forall m :: 0 <= m < |w1| ==> u[m] == w1[m];
    assert forall m :: |w1| <= m < j ==> u[m] == n[m - |w1|];
    assert forall m :: j <= m < k ==> u[m] == w2[m - j];
    assert forall m :: k <= m < |u| ==> u[m] == v[m - k];
    SpaceEndAt(u, 0, |w1|);
    WordEndAt(u, |w1|, j);
    SpaceEndAt(u, j, k);
    assert u[|w1|..j] == n;
    assert u[k..] == v;
  }

  /**
   * The converse of DirectiveParts: a line made of white space, a name, white
   * space, a value, trailing white space (the newline, say) and possibly a
   * comment yields exactly that name and value.
   */
  lemma DirectiveOfLine(w1: string, n: string, w2: string, v: string, w3: string, comment: string)
    requires AllSpace(w1) && AllSpace(w2) && |w2| > 0 && AllSpace(w3)
    requires |n| > 0 && NoSpace(n) && '#' !in n && '\0' !in n
    requires |v| > 0 && !IsSpace(v[0]) && !IsSpace(v[|v| - 1]) && '#' !in v && '\0' !in v
    requires comment == [] || comment[0] == '#'
    ensures DirectiveOf(w1 + n + w2 + v + w3 + comment) == Entry(n, v)
  {
    var u := w1 + n + w2 + v;
    var t := u + w3;
    var line := t + comment;
    assert w1 + n + w2 + v + w3 + comment == line;
    assert forall m :: |u| <= m < |t| ==> t[m] == w3[m - |u|];
    assert '\0' !in w1 && '#' !in w1 && '\0' !in w2 && '#' !in w2 by {
      assert forall m :: 0 <= m < |w1| ==> IsSpace(w1[m]);
      assert forall m :: 0 <= m < |w2| ==> IsSpace(w2[m]);
    }
    assert '\0' !in w3 && '#' !in w3 by {
      assert forall m :: 0 <= m < |w3| ==> IsSpace(w3[m]);
    }
    assert '#' !in t && '\0' !in t;
    CommentCut(t, comment);
    assert t[|u| - 1] == v[|v| - 1];
    TrimmedLengthAt(t, |t|, |u|);
    assert t[..|u|] == u;
    SplitTrimmedOf(w1, n, w2, v);
  }

  /** The line "name value" followed by a newline: a line of the file, with that directive. */
  lemma EntryLine(n: string, v: string)
    requires |n| > 0 && NoSpace(n) && '#' !in n && '\0' !in n
    requires |v| > 0 && !IsSpace(v[0]) && !IsSpace(v[|v| - 1]) && '#' !in v && '\0' !in v && '\n' !in v
    ensures IsLine(n + " " + v + "\n") && DirectiveOf(n + " " + v + "\n") == Entry(n, v)
  {
    var l := n + " " + v + "\n";
    assert l[..|l| - 1] == n + " " + v;
    assert '\n' !in n by { assert forall m :: 0 <= m < |n| ==> !IsSpace(n[m]); }
    var w2: string := " ";
    var w3: string := "\n";
    var e: string := [];
    assert AllSpace(w2) && AllSpace(w3) && AllSpace(e);
    assert e + n + w2 + v + w3 + e == l;
    DirectiveOfLine(e, n, w2, v, w3, e);
  }

  /** Text without NUL or '#' followed by a comment: the comment is what Load cuts off. */
  lemma CommentCut(t: string, comment: string)
    requires '#' !in t && '\0' !in t && (comment == [] || comment[0] == '#')
    ensures Before(CStr(t + comment), '#') == t
  {
    var line := t + comment;
    assert forall m :: 0 <= m < |t| ==> line[m] == t[m];
    var c := CStr(line);
    assert |t| <= |c|;
    assert c[..|t|] == t;
    assert |t| < |c| ==> c[|t|] == '#' by {
      if |t| < |c| { assert c[|t|] == line[|t|] == comment[0]; }
    }
    IndexOfAt(c, '#', 0, |t|);
  }

  /** The trailing-white-space loop of Load: back up over white space from the end. */
  method StripTrailing(t: string) returns (u: string)
    ensures u == TrimEnd(t)
  {
    var e := |t|;
    while e > 0 && IsSpace(t[e - 1])
      invariant 0 <= e <= |t| && TrimmedLength(t, e) == TrimmedLength(t, |t|)
    {
      e := e - 1;
    }
    u := t[..e];
  }

  /** Advance from index i over white space. */
  method SkipSpace(u: string, i: nat) returns (k: nat)
    requires i <= |u|
    ensures k == SpaceEnd(u, i)
  {
    k := i;
    while k < |u| && IsSpace(u[k])
      invariant i <= k <= |u| && SpaceEnd(u, k) == SpaceEnd(u, i)
      decreases |u| - k
    {
      k := k + 1;
    }
  }

  /** Advance from index i over non-space characters. */
  method SkipWord(u: string, i: nat) returns (k: nat)
    requires i <= |u|
    ensures k == WordEnd(u, i)
  {
    k := i;
    while k < |u| && !IsSpace(u[k])
      invariant i <= k <= |u| && WordEnd(u, k) == WordEnd(u, i)
      decreases |u| - k
    {
      k := k + 1;
    }
  }

  /**
   * The character walk of Load over one line: cut the comment, strip trailing
   * white space, skip to the name, run past it (its first character is known
   * not to be white space), skip the white space that separates it from the
   * value.
   */
  method SplitDirective(line: string) returns (d: Line)
    ensures d == DirectiveOf(line)
  {
    var u := StripTrailing(Before(CStr(line), '#'));
    if u == [] {
      return Blank;
    }
    var name := SkipSpace(u, 0);
    assert name < |u| by { assert !IsSpace(u[|u| - 1]); }
    var nameEnd := SkipWord(u, name + 1);
    var value := SkipSpace(u, nameEnd);
    if value == |u| {
      return Blank;
    }
    d := Entry(u[name..nameEnd], u[value..]);
  }
}
