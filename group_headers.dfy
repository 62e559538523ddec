/**
 * What a posting goes through on its way into a group: ParseArticle's split
 * of the message into header and body lines, UpdatePath's rewrite of the
 * "Path:" header, the headers Post removes and the ones it adds,
 * ReorderHeader's move of the overview headers to the top, the article file
 * Post writes, and the two ways FindArticleByMessageID recognises an article.
 */
module GroupHeaders {
  import opened CLib
  import opened Subs

  /** The character at k of a C string t, the terminating NUL past its end. */
  function At(t: string, k: nat): char {
    if k < |t| then t[k] else '\0'
  }

  /* ------------------------------------------------------- ParseArticle */

  /** The header and body lines ParseArticle has filed. */
  datatype Parsed = Parsed(head: seq<string>, body: seq<string>)

  /** A line holding no CR, no LF and no NUL. */
  predicate Clean(l: string) {
    '\r' !in l && '\n' !in l && '\0' !in l
  }

  predicate AllClean(ls: seq<string>) {
    forall k :: 0 <= k < |ls| ==> Clean(ls[k])
  }

  /** A completed line goes to the header while the header flag is set, else to the body. */
  function Filed(p: Parsed, inHead: bool, line: string): Parsed {
    if inHead then p.(head := p.head + [line]) else p.(body := p.body + [line])
  }

  /**
   * ParseArticle's walk over the C string t from index i, with the header
   * flag, the line gathered so far and the lines filed so far: CRs are
   * dropped, a LF files the line, and in the header a LF followed by an
   * empty line (LF, or CR LF) ends the header. A last line with no LF is
   * never filed.
   */
  function Split(t: string, i: nat, inHead: bool, line: string, p: Parsed): Parsed
    requires i <= |t|
    decreases |t| - i
  {
    if i == |t| then p
    else if t[i] == '\r' then Split(t, i + 1, inHead, line, p)
    else if t[i] == '\n' then
      var q := Filed(p, inHead, line);
      if inHead && At(t, i + 1) == '\r' && At(t, i + 2) == '\n' then Split(t, i + 3, false, "", q)
      else if inHead && At(t, i + 1) == '\n' then Split(t, i + 2, false, "", q)
      else Split(t, i + 1, inHead, "", q)
    else Split(t, i + 1, inHead, line + [t[i]], p)
  }

  /** ParseArticle(msg, head, body) with head and body empty: the lines it files. */
  function ParseArticle(msg: string): Parsed {
    Split(CStr(msg), 0, true, "", Parsed([], []))
  }

  lemma FiledClean(p: Parsed, inHead: bool, line: string)
    requires AllClean(p.head) && AllClean(p.body) && Clean(line)
    ensures AllClean(Filed(p, inHead, line).head) && AllClean(Filed(p, inHead, line).body)
  {
  }

  /** No line ParseArticle files holds a CR, a LF or a NUL. */
  lemma {:induction false} SplitClean(t: string, i: nat, inHead: bool, line: string, p: Parsed)
    requires i <= |t| && '\0' !in t && Clean(line) && AllClean(p.head) && AllClean(p.body)
    ensures AllClean(Split(t, i, inHead, line, p).head) && AllClean(Split(t, i, inHead, line, p).body)
    decreases |t| - i
  {
    if i < |t| {
      if t[i] == '\r' {
        SplitClean(t, i + 1, inHead, line, p);
      } else if t[i] == '\n' {
        var q := Filed(p, inHead, line);
        FiledClean(p, inHead, line);
        if inHead && At(t, i + 1) == '\r' && At(t, i + 2) == '\n' {
          SplitClean(t, i + 3, false, "", q);
        } else if inHead && At(t, i + 1) == '\n' {
          SplitClean(t, i + 2, false, "", q);
        } else {
          SplitClean(t, i + 1, inHead, "", q);
        }
      } else {
        assert t[i] in t;
        SplitClean(t, i + 1, inHead, line + [t[i]], p);
      }
    }
  }

  lemma ParsedClean(msg: string)
    ensures AllClean(ParseArticle(msg).head) && AllClean(ParseArticle(msg).body)
  {
    SplitClean(CStr(msg), 0, true, "", Parsed([], []));
  }

  /** Lines, each followed by the line end eol. */
  function Joined(ls: seq<string>, eol: string): string
    decreases |ls|
  {
    if ls == [] then [] else ls[0] + eol + Joined(ls[1..], eol)
  }

  predicate LineEnd(eol: string) {
    eol == "\n" || eol == "\r\n"
  }

  /** A message as a client sends it: the header lines, an empty line, the body lines, all ended by eol. */
  function MessageText(hs: seq<string>, bs: seq<string>, eol: string): string {
    Joined(hs, eol) + eol + Joined(bs, eol)
  }

  /** Header lines: not empty, since an empty line ends the header. */
  predicate HeaderLines(hs: seq<string>) {
    forall k :: 0 <= k < |hs| ==> hs[k] != [] && Clean(hs[k])
  }

  /** A slice of t that is a + b splits into a slice that is a and one that is b. */
  lemma SliceSplit(t: string, i: nat, k: nat, a: string, b: string)
    requires i <= k <= |t| && t[i..k] == a + b
    ensures i + |a| <= k && t[i..i + |a|] == a && t[i + |a|..k] == b
  {
    assert t[i..i + |a|] == t[i..k][..|a|];
    assert t[i + |a|..k] == t[i..k][|a|..];
  }

  /** One step of the walk over an ordinary character: it joins the pending line. */
  lemma StepChar(t: string, i: nat, inHead: bool, line: string, p: Parsed)
    requires i < |t| && t[i] != '\r' && t[i] != '\n'
    ensures Split(t, i, inHead, line, p) == Split(t, i + 1, inHead, line + [t[i]], p)
  {
  }

  /** One step over a CR: it is dropped. */
  lemma StepCr(t: string, i: nat, inHead: bool, line: string, p: Parsed)
    requires i < |t| && t[i] == '\r'
    ensures Split(t, i, inHead, line, p) == Split(t, i + 1, inHead, line, p)
  {
  }

  /** One step over a LF that does not end the header: the line is filed. */
  lemma StepLf(t: string, i: nat, inHead: bool, line: string, p: Parsed)
    requires i < |t| && t[i] == '\n'
    requires inHead ==> At(t, i + 1) != '\r' && At(t, i + 1) != '\n'
    ensures Split(t, i, inHead, line, p) == Split(t, i + 1, inHead, "", Filed(p, inHead, line))
  {
  }

  /** A LF in the header followed by LF: the line is filed and the header ends. */
  lemma StepLfLf(t: string, i: nat, line: string, p: Parsed)
    requires i + 1 < |t| && t[i] == '\n' && t[i + 1] == '\n'
    ensures Split(t, i, true, line, p) == Split(t, i + 2, false, "", Filed(p, true, line))
  {
  }

  /** A LF in the header followed by CR LF: the line is filed and the header ends. */
  lemma StepLfCrLf(t: string, i: nat, line: string, p: Parsed)
    requires i + 2 < |t| && t[i] == '\n' && t[i + 1] == '\r' && t[i + 2] == '\n'
    ensures Split(t, i, true, line, p) == Split(t, i + 3, false, "", Filed(p, true, line))
  {
  }

  /** The characters of a clean line are gathered into the pending line. */
  lemma {:induction false} SplitChars(t: string, i: nat, inHead: bool, line: string, p: Parsed, l: string)
    requires i + |l| <= |t| && t[i..i + |l|] == l && Clean(l)
    ensures Split(t, i, inHead, line, p) == Split(t, i + |l|, inHead, line + l, p)
    decreases |l|
  {
    if l == [] {
      assert line + l == line;
    } else {
      assert t[i] == l[0] && l[0] in l;
      StepChar(t, i, inHead, line, p);
      assert t[i + 1..i + |l|] == l[1..];
      assert Clean(l[1..]) by {
        assert forall c :: c in l[1..] ==> c in l;
      }
      SplitChars(t, i + 1, inHead, line + [l[0]], p, l[1..]);
      assert line + [l[0]] + l[1..] == line + l;
    }
  }

  /** A line and its end, when what follows does not end the header, file the line. */
  lemma SplitLine(t: string, i: nat, inHead: bool, p: Parsed, l: string, eol: string)
    requires LineEnd(eol) && Clean(l) && i + |l| + |eol| <= |t| && t[i..i + |l| + |eol|] == l + eol
    requires inHead ==> At(t, i + |l| + |eol|) != '\r' && At(t, i + |l| + |eol|) != '\n'
    ensures Split(t, i, inHead, "", p) == Split(t, i + |l| + |eol|, inHead, "", Filed(p, inHead, l))
  {
    var j := i + |l|;
    var e := j + |eol|;
    SliceSplit(t, i, e, l, eol);
    SplitChars(t, i, inHead, "", p, l);
    assert "" + l == l;
    if eol == "\r\n" {
      SliceAt(t, j, e, eol, 0);
      SliceAt(t, j, e, eol, 1);
      StepCr(t, j, inHead, l, p);
      StepLf(t, j + 1, inHead, l, p);
    } else {
      SliceAt(t, j, e, eol, 0);
      StepLf(t, j, inHead, l, p);
    }
  }

  /** A character of a slice is the character of t at the same place. */
  lemma SliceAt(t: string, i: nat, k: nat, u: string, m: nat)
    requires i <= k <= |t| && t[i..k] == u && m < |u|
    ensures i + m < |t| && t[i + m] == u[m]
  {
    assert t[i..k][m] == t[i + m];
  }

  /** CR LF CR LF after the last header line: the line is filed and the header ends. */
  lemma EndCrlfCrlf(t: string, j: nat, e: nat, l: string, p: Parsed)
    requires j <= e <= |t| && t[j..e] == "\r\n" + "\r\n"
    ensures Split(t, j, true, l, p) == Split(t, e, false, "", Filed(p, true, l))
  {
    var u := "\r\n" + "\r\n";
    SliceAt(t, j, e, u, 0);
    SliceAt(t, j, e, u, 1);
    SliceAt(t, j, e, u, 2);
    SliceAt(t, j, e, u, 3);
    StepCr(t, j, true, l, p);
    StepLfCrLf(t, j + 1, l, p);
  }

  /** LF LF after the last header line: the line is filed and the header ends. */
  lemma EndLfLf(t: string, j: nat, e: nat, l: string, p: Parsed)
    requires j <= e <= |t| && t[j..e] == "\n" + "\n"
    ensures Split(t, j, true, l, p) == Split(t, e, false, "", Filed(p, true, l))
  {
    var u := "\n" + "\n";
    SliceAt(t, j, e, u, 0);
    SliceAt(t, j, e, u, 1);
    StepLfLf(t, j, l, p);
  }

  /** The last header line and the empty line after it file the line and end the header. */
  lemma SplitLastHeader(t: string, i: nat, p: Parsed, l: string, eol: string)
    requires LineEnd(eol) && Clean(l) && i + |l| + 2 * |eol| <= |t| && t[i..i + |l| + 2 * |eol|] == l + eol + eol
    ensures Split(t, i, true, "", p) == Split(t, i + |l| + 2 * |eol|, false, "", Filed(p, true, l))
  {
    if eol == "\r\n" {
      LastHeaderCrlf(t, i, p, l, eol);
    } else {
      LastHeaderLf(t, i, p, l, eol);
    }
  }

  lemma LastHeaderCrlf(t: string, i: nat, p: Parsed, l: string, eol: string)
    requires eol == "\r\n" && Clean(l) && i + |l| + 2 * |eol| <= |t| && t[i..i + |l| + 2 * |eol|] == l + eol + eol
    ensures Split(t, i, true, "", p) == Split(t, i + |l| + 2 * |eol|, false, "", Filed(p, true, l))
  {
    var j := i + |l|;
    assert |eol| == 2;
    assert l + eol + eol == l + ("\r\n" + "\r\n");
    SliceSplit(t, i, j + 4, l, "\r\n" + "\r\n");
    SplitLineChars(t, i, true, p, l);
    EndCrlfCrlf(t, j, j + 4, l, p);
  }

  lemma LastHeaderLf(t: string, i: nat, p: Parsed, l: string, eol: string)
    requires eol == "\n" && Clean(l) && i + |l| + 2 * |eol| <= |t| && t[i..i + |l| + 2 * |eol|] == l + eol + eol
    ensures Split(t, i, true, "", p) == Split(t, i + |l| + 2 * |eol|, false, "", Filed(p, true, l))
  {
    var j := i + |l|;
    assert |eol| == 1;
    assert l + eol + eol == l + ("\n" + "\n");
    SliceSplit(t, i, j + 2, l, "\n" + "\n");
    SplitLineChars(t, i, true, p, l);
    EndLfLf(t, j, j + 2, l, p);
  }

  /** The characters of a clean line, from the start of a line, become the pending line. */
  lemma SplitLineChars(t: string, i: nat, inHead: bool, p: Parsed, l: string)
    requires i + |l| <= |t| && t[i..i + |l|] == l && Clean(l)
    ensures Split(t, i, inHead, "", p) == Split(t, i + |l|, inHead, l, p)
  {
    SplitChars(t, i, inHead, "", p, l);
    assert "" + l == l;
  }

  lemma TailClean(ls: seq<string>)
    requires ls != [] && AllClean(ls)
    ensures Clean(ls[0]) && AllClean(ls[1..])
  {
    assert forall k :: 0 <= k < |ls| - 1 ==> ls[1..][k] == ls[k + 1];
  }

  lemma TailHeaderLines(hs: seq<string>)
    requires hs != [] && HeaderLines(hs)
    ensures hs[0] != [] && Clean(hs[0]) && HeaderLines(hs[1..])
  {
    assert forall k :: 0 <= k < |hs| - 1 ==> hs[1..][k] == hs[k + 1];
  }

  /** Body lines, each with its end, are filed in order. */
  lemma {:induction false} SplitBody(t: string, i: nat, p: Parsed, bs: seq<string>, eol: string)
    requires LineEnd(eol) && AllClean(bs) && i <= |t| && t[i..] == Joined(bs, eol)
    ensures Split(t, i, false, "", p) == p.(body := p.body + bs)
    decreases |bs|
  {
    if bs == [] {
      assert |t[i..]| == 0;
      assert p.body + bs == p.body;
    } else {
      var l := bs[0];
      var j := i + |l| + |eol|;
      TailClean(bs);
      assert t[i..|t|] == (l + eol) + Joined(bs[1..], eol);
      SliceSplit(t, i, |t|, l + eol, Joined(bs[1..], eol));
      SplitLine(t, i, false, p, l, eol);
      assert t[j..] == Joined(bs[1..], eol);
      SplitBody(t, j, Filed(p, false, l), bs[1..], eol);
      assert p.body + [l] + bs[1..] == p.body + bs;
    }
  }

  /** The first of several header lines is filed, and the rest of the header follows. */
  lemma HeadStep(t: string, i: nat, p: Parsed, hs: seq<string>, eol: string)
    requires LineEnd(eol) && |hs| > 1 && HeaderLines(hs)
    requires i + |Joined(hs, eol)| + |eol| <= |t| && t[i..i + |Joined(hs, eol)| + |eol|] == Joined(hs, eol) + eol
    ensures var j := i + |hs[0]| + |eol|;
      j + |Joined(hs[1..], eol)| + |eol| == i + |Joined(hs, eol)| + |eol| &&
      t[j..j + |Joined(hs[1..], eol)| + |eol|] == Joined(hs[1..], eol) + eol &&
      Split(t, i, true, "", p) == Split(t, j, true, "", Filed(p, true, hs[0]))
  {
    var l := hs[0];
    TailHeaderLines(hs);
    var tail := Joined(hs[1..], eol);
    var e := i + |Joined(hs, eol)| + |eol|;
    var j := i + |l| + |eol|;
    assert t[i..e] == (l + eol) + (tail + eol);
    SliceSplit(t, i, e, l + eol, tail + eol);
    TailHeaderLines(hs[1..]);
    assert (tail + eol)[0] == hs[1][0];
    SliceAt(t, j, e, tail + eol, 0);
    assert hs[1][0] in hs[1];
    SplitLine(t, i, true, p, l, eol);
  }

  /** A single header line, then the empty line. */
  lemma HeadLast(t: string, i: nat, p: Parsed, hs: seq<string>, eol: string)
    requires LineEnd(eol) && |hs| == 1 && HeaderLines(hs)
    requires i + |Joined(hs, eol)| + |eol| <= |t| && t[i..i + |Joined(hs, eol)| + |eol|] == Joined(hs, eol) + eol
    ensures Split(t, i, true, "", p) == Split(t, i + |Joined(hs, eol)| + |eol|, false, "", p.(head := p.head + hs))
  {
    TailHeaderLines(hs);
    assert Joined(hs, eol) == hs[0] + eol + [];
    assert Joined(hs, eol) + eol == hs[0] + eol + eol;
    SplitLastHeader(t, i, p, hs[0], eol);
    assert [hs[0]] == hs;
  }

  /** Header lines, each with its end, then the empty line: filed in order, and the header ends. */
  lemma {:induction false} SplitHead(t: string, i: nat, p: Parsed, hs: seq<string>, eol: string)
    requires LineEnd(eol) && hs != [] && HeaderLines(hs)
    requires i + |Joined(hs, eol)| + |eol| <= |t| && t[i..i + |Joined(hs, eol)| + |eol|] == Joined(hs, eol) + eol
    ensures Split(t, i, true, "", p) == Split(t, i + |Joined(hs, eol)| + |eol|, false, "", p.(head := p.head + hs))
    decreases |hs|
  {
    if |hs| == 1 {
      HeadLast(t, i, p, hs, eol);
    } else {
      HeadStep(t, i, p, hs, eol);
      TailHeaderLines(hs);
      SplitHead(t, i + |hs[0]| + |eol|, Filed(p, true, hs[0]), hs[1..], eol);
      assert p.head + [hs[0]] + hs[1..] == p.head + hs;
    }
  }

  /**
   * A message of non-empty clean header lines, an empty line and clean body
   * lines, with LF or CR LF line ends, parses back into exactly those lines.
   */
  lemma ParseMessage(hs: seq<string>, bs: seq<string>, eol: string)
    requires LineEnd(eol) && hs != [] && HeaderLines(hs) && AllClean(bs)
    ensures ParseArticle(MessageText(hs, bs, eol)) == Parsed(hs, bs)
  {
    var t := MessageText(hs, bs, eol);
    MessageShape(hs, bs, eol);
    SplitHead(t, 0, Parsed([], []), hs, eol);
    assert [] + hs == hs;
    SplitBody(t, |Joined(hs, eol)| + |eol|, Parsed(hs, []), bs, eol);
    assert [] + bs == bs;
  }

  /** A message is its own C string, the header and empty line first, the body lines after. */
  lemma MessageShape(hs: seq<string>, bs: seq<string>, eol: string)
    requires LineEnd(eol) && HeaderLines(hs) && AllClean(bs)
    ensures var t := MessageText(hs, bs, eol); var j := |Joined(hs, eol)| + |eol|;
      CStr(t) == t && j <= |t| && t[0..j] == Joined(hs, eol) + eol && t[j..] == Joined(bs, eol)
  {
    var t := MessageText(hs, bs, eol);
    assert AllClean(hs);
    JoinedClean(hs, eol);
    JoinedClean(bs, eol);
    assert '\0' !in t;
    assert t[0..|t|] == (Joined(hs, eol) + eol) + Joined(bs, eol);
    SliceSplit(t, 0, |t|, Joined(hs, eol) + eol, Joined(bs, eol));
  }

  lemma {:induction false} JoinedClean(ls: seq<string>, eol: string)
    requires LineEnd(eol) && AllClean(ls)
    ensures '\0' !in Joined(ls, eol)
    decreases |ls|
  {
    if ls != [] {
      TailClean(ls);
      JoinedClean(ls[1..], eol);
    }
  }

  /* --------------------------------------------------------- UpdatePath */

  /** strncasecmp(h, "Path:", 5) == 0. */
  predicate IsPath(h: string) {
    HasPrefixIgnoreCase(h, "Path:")
  }

  /** The hosts a "Path:" header lists: what follows "Path:" and a space, if there is one. */
  function PathHosts(h: string): string
    requires |h| >= 5
  {
    if |h| > 5 && h[5] == ' ' then h[6..] else h[5..]
  }

  /** A "Path:" header with a space after the colon inserted when missing, and "host, " put after it. */
  function PathRewritten(h: string, host: string): string
    requires |h| >= 5
  {
    h[..5] + " " + host + ", " + PathHosts(h)
  }

  predicate HasPath(hs: seq<string>) {
    exists k :: 0 <= k < |hs| && IsPath(hs[k])
  }

  /** Every "Path:" header rewritten; the others as they were. */
  function PathsRewritten(hs: seq<string>, host: string): (r: seq<string>)
    ensures |r| == |hs|
  {
    seq(|hs|, k requires 0 <= k < |hs| => if IsPath(hs[k]) then PathRewritten(hs[k], host) else hs[k])
  }

  /** UpdatePath: the server's host name put first in every "Path:" header, or a new "Path:" header. */
  function PathUpdated(hs: seq<string>, host: string): seq<string> {
    if HasPath(hs) then PathsRewritten(hs, host) else hs + ["Path: " + host]
  }

  /** A rewritten "Path:" header is still one, and lists host before the hosts it listed. */
  lemma PathRewrittenHosts(h: string, host: string)
    requires IsPath(h)
    ensures IsPath(PathRewritten(h, host))
    ensures PathHosts(PathRewritten(h, host)) == host + ", " + PathHosts(h)
  {
    var r := PathRewritten(h, host);
    assert r[..5] == h[..5];
    assert r[5] == ' ';
    assert r[6..] == host + ", " + PathHosts(h);
  }

  /** The header UpdatePath adds is a "Path:" header listing host alone. */
  lemma NewPathHosts(host: string)
    ensures IsPath("Path: " + host) && PathHosts("Path: " + host) == host
  {
    var h := "Path: " + host;
    assert h[..5] == "Path:";
    assert h[5] == ' ';
    assert h[6..] == host;
  }

  /**
   * After UpdatePath every header that was a "Path:" header still is one and
   * lists host first, every other header is unchanged, and the headers hold
   * a "Path:" header; when there was none, the new one comes last.
   */
  lemma PathUpdatedHeaders(hs: seq<string>, host: string)
    ensures HasPath(PathUpdated(hs, host))
    ensures forall k :: 0 <= k < |hs| && IsPath(hs[k]) ==>
      IsPath(PathUpdated(hs, host)[k]) && PathHosts(PathUpdated(hs, host)[k]) == host + ", " + PathHosts(hs[k])
    ensures forall k :: 0 <= k < |hs| && !IsPath(hs[k]) ==> PathUpdated(hs, host)[k] == hs[k]
    ensures HasPath(hs) ==> |PathUpdated(hs, host)| == |hs|
    ensures !HasPath(hs) ==> PathUpdated(hs, host) == hs + ["Path: " + host]
  {
    var r := PathUpdated(hs, host);
    forall k | 0 <= k < |hs| && IsPath(hs[k])
      ensures IsPath(r[k]) && PathHosts(r[k]) == host + ", " + PathHosts(hs[k])
    {
      PathRewrittenHosts(hs[k], host);
    }
    if HasPath(hs) {
      var k :| 0 <= k < |hs| && IsPath(hs[k]);
      assert IsPath(r[k]);
    } else {
      NewPathHosts(host);
      assert IsPath(r[|hs|]);
    }
  }

  /** At a "Path:" header, UpdatePath leaves the rewritten header. */
  lemma PathUpdatedAt(hs: seq<string>, host: string, k: nat)
    requires k < |hs| && IsPath(hs[k])
    ensures |PathUpdated(hs, host)| == |hs| && PathUpdated(hs, host)[k] == PathRewritten(hs[k], host)
  {
    assert HasPath(hs);
  }

  /** Two servers in turn: the later one's host comes first, then the earlier one's, then the old hosts. */
  lemma PathUpdatedTwice(hs: seq<string>, a: string, b: string, k: nat)
    requires k < |hs| && IsPath(hs[k])
    ensures PathHosts(PathUpdated(PathUpdated(hs, a), b)[k]) == b + ", " + a + ", " + PathHosts(hs[k])
  {
    var r := PathUpdated(hs, a);
    PathUpdatedAt(hs, a, k);
    PathRewrittenHosts(hs[k], a);
    PathUpdatedAt(r, b, k);
    PathRewrittenHosts(r[k], b);
  }

  /* ------------------------------------------------ headers Post replaces */

  /** The headers Post removes, whatever their case, because it writes its own. */
  predicate Regenerated(h: string) {
    HasPrefixIgnoreCase(h, "Lines: ") || HasPrefixIgnoreCase(h, "Message-ID: ") ||
    HasPrefixIgnoreCase(h, "Date: ") || HasPrefixIgnoreCase(h, "NNTP-Posting-Host: ")
  }

  /** The headers with the regenerated ones removed. */
  function Stripped(hs: seq<string>): seq<string>
    decreases |hs|
  {
    if hs == [] then []
    else Stripped(hs[..|hs| - 1]) + (if Regenerated(hs[|hs| - 1]) then [] else [hs[|hs| - 1]])
  }

  /** b keeps the elements of a it holds in a's order: a with some elements removed. */
  predicate SubSeq(b: seq<string>, a: seq<string>)
    decreases |a|
  {
    if b == [] then true
    else if a == [] then false
    else (b[0] == a[0] && SubSeq(b[1..], a[1..])) || SubSeq(b, a[1..])
  }

  lemma {:induction false} SubSeqEmpty(a: seq<string>)
    ensures SubSeq([], a)
  {
  }

  /** Appending an element to both sides, or to the longer one only, keeps the order. */
  lemma {:induction false} SubSeqSnoc(b: seq<string>, a: seq<string>, x: string)
    requires SubSeq(b, a)
    ensures SubSeq(b + [x], a + [x]) && SubSeq(b, a + [x])
    decreases |a|
  {
    if a == [] {
      assert b == [];
      assert (b + [x])[1..] == [] && (a + [x])[1..] == [];
    } else if b == [] {
      assert (a + [x])[1..] == a[1..] + [x];
      SubSeqEmpty((a + [x])[1..]);
      assert (b + [x])[0] == (a + [x])[0] || SubSeq(b + [x], (a + [x])[1..]) by {
        SubSeqSnoc([], a[1..], x);
      }
    } else {
      assert (a + [x])[1..] == a[1..] + [x];
      if b[0] == a[0] && SubSeq(b[1..], a[1..]) {
        SubSeqSnoc(b[1..], a[1..], x);
        assert (b + [x])[1..] == b[1..] + [x];
      } else {
        SubSeqSnoc(b, a[1..], x);
      }
    }
  }

  /** A sequence keeps its own order. */
  lemma {:induction false} SubSeqSelf(a: seq<string>)
    ensures SubSeq(a, a)
    decreases |a|
  {
    if a != [] {
      SubSeqSelf(a[1..]);
    }
  }

  /** Post keeps exactly the headers that are not regenerated, in their order. */
  lemma {:induction false} StrippedHeaders(hs: seq<string>)
    ensures forall h :: h in Stripped(hs) <==> h in hs && !Regenerated(h)
    ensures SubSeq(Stripped(hs), hs)
    decreases |hs|
  {
    if hs == [] {
      SubSeqEmpty(hs);
    } else {
      var init, x := hs[..|hs| - 1], hs[|hs| - 1];
      assert hs == init + [x];
      StrippedHeaders(init);
      var s0 := Stripped(init);
      assert Stripped(hs) == s0 + (if Regenerated(x) then [] else [x]);
      SubSeqSnoc(s0, init, x);
      if Regenerated(x) {
        assert Stripped(hs) == s0;
      }
    }
  }

  lemma StrippedSnoc(hs: seq<string>, x: string)
    ensures Stripped(hs + [x]) == Stripped(hs) + (if Regenerated(x) then [] else [x])
  {
    assert (hs + [x])[..|hs + [x]| - 1] == hs;
  }

  /** The headers the server adds to a posting numbered n in group. */
  function AddedHeaders(server: string, group: string, n: nat, date: string, host: string, lines: nat): seq<string> {
    ["Xref: " + server + " " + group + ":" + Ultos(n),
     "Date: " + date,
     "NNTP-Posting-Host: " + host,
     "Message-ID: " + MessageId(n, group, server),
     "Lines: " + Ultos(UInt32Of(lines))]
  }

  /** The message id of article n of group on server: "<n-group@server>". */
  function MessageId(n: nat, group: string, server: string): string {
    "<" + Ultos(n) + "-" + group + "@" + server + ">"
  }

  lemma KeyMismatch(h: string, key: string, rest: string, p: string)
    requires h == key + rest && 0 < |key| && 0 < |p| && ToLower(key[0]) != ToLower(p[0])
    ensures !HasPrefixIgnoreCase(h, p)
  {
    if |p| <= |h| {
      assert h[..|p|][0] == key[0];
    }
  }

  lemma HasKey(key: string, rest: string)
    ensures HasPrefixIgnoreCase(key + rest, key)
  {
    assert (key + rest)[..|key|] == key;
  }

  /**
   * Of the server's added headers only its own Message-ID line is a
   * "Message-ID: " header and only its own Lines line a "Lines: " header,
   * whatever case is compared.
   */
  lemma AddedHeaderKeys(server: string, group: string, n: nat, date: string, host: string, lines: nat)
    ensures forall k :: 0 <= k < 5 ==>
      (HasPrefixIgnoreCase(AddedHeaders(server, group, n, date, host, lines)[k], "Message-ID: ") <==> k == 3)
    ensures forall k :: 0 <= k < 5 ==>
      (HasPrefixIgnoreCase(AddedHeaders(server, group, n, date, host, lines)[k], "Lines: ") <==> k == 4)
  {
    var a := AddedHeaders(server, group, n, date, host, lines);
    var m, l := "Message-ID: ", "Lines: ";
    KeyMismatch(a[0], "Xref: ", server + " " + group + ":" + Ultos(n), m);
    KeyMismatch(a[0], "Xref: ", server + " " + group + ":" + Ultos(n), l);
    KeyMismatch(a[1], "Date: ", date, m);
    KeyMismatch(a[1], "Date: ", date, l);
    KeyMismatch(a[2], "NNTP-Posting-Host: ", host, m);
    KeyMismatch(a[2], "NNTP-Posting-Host: ", host, l);
    HasKey(m, MessageId(n, group, server));
    KeyMismatch(a[3], m, MessageId(n, group, server), l);
    KeyMismatch(a[4], l, Ultos(UInt32Of(lines)), m);
    HasKey(l, Ultos(UInt32Of(lines)));
  }

  /**
   * After the strip and the additions, the posting's header holds exactly one
   * "Message-ID: " header and one "Lines: " header, both the server's.
   */
  lemma PostedHeaderIds(hs: seq<string>, server: string, group: string, n: nat, date: string, host: string, lines: nat)
    ensures forall k :: 0 <= k < |Stripped(hs) + AddedHeaders(server, group, n, date, host, lines)| ==>
      (HasPrefixIgnoreCase((Stripped(hs) + AddedHeaders(server, group, n, date, host, lines))[k], "Message-ID: ") <==>
       k == |Stripped(hs)| + 3)
    ensures forall k :: 0 <= k < |Stripped(hs) + AddedHeaders(server, group, n, date, host, lines)| ==>
      (HasPrefixIgnoreCase((Stripped(hs) + AddedHeaders(server, group, n, date, host, lines))[k], "Lines: ") <==>
       k == |Stripped(hs)| + 4)
  {
    var s := Stripped(hs);
    var a := AddedHeaders(server, group, n, date, host, lines);
    StrippedHeaders(hs);
    AddedHeaderKeys(server, group, n, date, host, lines);
    forall k | 0 <= k < |s|
      ensures !HasPrefixIgnoreCase(s[k], "Message-ID: ") && !HasPrefixIgnoreCase(s[k], "Lines: ")
    {
      assert s[k] in s;
    }
    forall k | 0 <= k < |s + a| ensures (s + a)[k] == if k < |s| then s[k] else a[k - |s|] { }
  }

  /* ------------------------------------------------------ ReorderHeader */

  /** strncmp(ov, h, strlen(ov)) == 0: the header starts with the overview entry, case counting. */
  predicate Leads(ov: string, h: string) {
    CStr(ov) <= CStr(h)
  }

  /** The index of the first header at or after r that ov leads, or |hs|. */
  function FirstLed(ov: string, hs: seq<string>, r: nat): (k: nat)
    requires r <= |hs|
    ensures r <= k <= |hs|
    ensures forall j :: r <= j < k ==> !Leads(ov, hs[j])
    ensures k < |hs| ==> Leads(ov, hs[k])
    decreases |hs| - r
  {
    if r < |hs| && !Leads(ov, hs[r]) then FirstLed(ov, hs, r + 1) else r
  }

  function Removed(hs: seq<string>, k: nat): seq<string>
    requires k < |hs|
  {
    hs[..k] + hs[k + 1..]
  }

  /**
   * ReorderHeader: for each overview entry in turn, the first remaining
   * header it leads is moved up, after those moved before it; the headers
   * not moved follow.
   */
  function Reordered(ovs: seq<string>, hs: seq<string>): seq<string>
    decreases |ovs|
  {
    if ovs == [] then hs
    else
      var k := FirstLed(ovs[0], hs, 0);
      if k < |hs| then [hs[k]] + Reordered(ovs[1..], Removed(hs, k)) else Reordered(ovs[1..], hs)
  }

  /** The headers moved up, in order. */
  function Moved(ovs: seq<string>, hs: seq<string>): seq<string>
    decreases |ovs|
  {
    if ovs == [] then []
    else
      var k := FirstLed(ovs[0], hs, 0);
      if k < |hs| then [hs[k]] + Moved(ovs[1..], Removed(hs, k)) else Moved(ovs[1..], hs)
  }

  /** The headers left where they were. */
  function Kept(ovs: seq<string>, hs: seq<string>): seq<string>
    decreases |ovs|
  {
    if ovs == [] then hs
    else
      var k := FirstLed(ovs[0], hs, 0);
      if k < |hs| then Kept(ovs[1..], Removed(hs, k)) else Kept(ovs[1..], hs)
  }

  lemma RemovedMultiset(hs: seq<string>, k: nat)
    requires k < |hs|
    ensures multiset(hs) == multiset{hs[k]} + multiset(Removed(hs, k))
  {
    assert hs == hs[..k] + [hs[k]] + hs[k + 1..];
  }

  /** Removing an element keeps the order of the rest. */
  lemma {:induction false} RemovedSubSeq(hs: seq<string>, k: nat)
    requires k < |hs|
    ensures SubSeq(Removed(hs, k), hs)
    decreases k
  {
    if k == 0 {
      assert Removed(hs, k) == hs[1..];
      SubSeqSelf(hs[1..]);
    } else {
      assert Removed(hs, k)[0] == hs[0];
      assert Removed(hs, k)[1..] == Removed(hs[1..], k - 1);
      RemovedSubSeq(hs[1..], k - 1);
    }
  }

  /** Order is transitive. */
  lemma {:induction false} SubSeqTrans(c: seq<string>, b: seq<string>, a: seq<string>)
    requires SubSeq(c, b) && SubSeq(b, a)
    ensures SubSeq(c, a)
    decreases |a|, |b|
  {
    if c != [] {
      assert b != [] && a != [];
      if b[0] == a[0] && SubSeq(b[1..], a[1..]) {
        if c[0] == b[0] && SubSeq(c[1..], b[1..]) {
          SubSeqTrans(c[1..], b[1..], a[1..]);
        } else {
          SubSeqTrans(c, b[1..], a[1..]);
        }
      } else {
        SubSeqTrans(c, b, a[1..]);
      }
    }
  }

  /** ReorderHeader's result is the moved headers, then the rest. */
  lemma {:induction false} ReorderedSplits(ovs: seq<string>, hs: seq<string>)
    ensures Reordered(ovs, hs) == Moved(ovs, hs) + Kept(ovs, hs)
    decreases |ovs|
  {
    if ovs != [] {
      var k := FirstLed(ovs[0], hs, 0);
      if k < |hs| {
        ReorderedSplits(ovs[1..], Removed(hs, k));
      } else {
        ReorderedSplits(ovs[1..], hs);
      }
    }
  }

  /** ReorderHeader loses and duplicates nothing. */
  lemma {:induction false} ReorderedPermutes(ovs: seq<string>, hs: seq<string>)
    ensures multiset(Reordered(ovs, hs)) == multiset(hs)
    decreases |ovs|
  {
    if ovs != [] {
      var k := FirstLed(ovs[0], hs, 0);
      if k < |hs| {
        ReorderedPermutes(ovs[1..], Removed(hs, k));
        RemovedMultiset(hs, k);
      } else {
        ReorderedPermutes(ovs[1..], hs);
      }
    }
  }

  /** The headers not moved keep their original order. */
  lemma {:induction false} KeptInOrder(ovs: seq<string>, hs: seq<string>)
    ensures SubSeq(Kept(ovs, hs), hs)
    decreases |ovs|
  {
    if ovs == [] {
      SubSeqSelf(hs);
    } else {
      var k := FirstLed(ovs[0], hs, 0);
      if k < |hs| {
        KeptInOrder(ovs[1..], Removed(hs, k));
        RemovedSubSeq(hs, k);
        SubSeqTrans(Kept(ovs[1..], Removed(hs, k)), Removed(hs, k), hs);
      } else {
        KeptInOrder(ovs[1..], hs);
      }
    }
  }

  /** Some overview entry leads the header. */
  predicate LedByAny(ovs: seq<string>, h: string) {
    exists t :: 0 <= t < |ovs| && Leads(ovs[t], h)
  }

  lemma LedByTail(ovs: seq<string>, h: string)
    requires ovs != [] && LedByAny(ovs[1..], h)
    ensures LedByAny(ovs, h)
  {
    var t :| 0 <= t < |ovs[1..]| && Leads(ovs[1..][t], h);
    assert ovs[t + 1] == ovs[1..][t];
  }

  /** At most one header moves per overview entry. */
  lemma {:induction false} MovedCount(ovs: seq<string>, hs: seq<string>)
    ensures |Moved(ovs, hs)| <= |ovs|
    decreases |ovs|
  {
    if ovs != [] {
      var k := FirstLed(ovs[0], hs, 0);
      if k < |hs| {
        MovedCount(ovs[1..], Removed(hs, k));
      } else {
        MovedCount(ovs[1..], hs);
      }
    }
  }

  /** Each header moved up is led by an overview entry. */
  lemma {:induction false} MovedLed(ovs: seq<string>, hs: seq<string>)
    ensures forall j :: 0 <= j < |Moved(ovs, hs)| ==> LedByAny(ovs, Moved(ovs, hs)[j])
    decreases |ovs|
  {
    if ovs != [] {
      var k := FirstLed(ovs[0], hs, 0);
      var rest := if k < |hs| then Removed(hs, k) else hs;
      MovedLed(ovs[1..], rest);
      var m := Moved(ovs, hs);
      var mt := Moved(ovs[1..], rest);
      if k < |hs| {
        assert m == [hs[k]] + mt;
        assert Leads(ovs[0], m[0]);
        forall j | 1 <= j < |m| ensures LedByAny(ovs, m[j]) {
          assert m[j] == mt[j - 1];
          LedByTail(ovs, m[j]);
        }
      } else {
        assert m == mt;
        forall j | 0 <= j < |m| ensures LedByAny(ovs, m[j]) {
          LedByTail(ovs, m[j]);
        }
      }
    }
  }

  /** When no overview entry leads any header, ReorderHeader changes nothing. */
  lemma {:induction false} ReorderedNothingLed(ovs: seq<string>, hs: seq<string>)
    requires forall t, r :: 0 <= t < |ovs| && 0 <= r < |hs| ==> !Leads(ovs[t], hs[r])
    ensures Reordered(ovs, hs) == hs
    decreases |ovs|
  {
    if ovs != [] {
      assert FirstLed(ovs[0], hs, 0) == |hs|;
      assert forall t, r :: 0 <= t < |ovs[1..]| && 0 <= r < |hs| ==> !Leads(ovs[1..][t], hs[r]) by {
        assert forall t :: 0 <= t < |ovs[1..]| ==> ovs[1..][t] == ovs[t + 1];
      }
      ReorderedNothingLed(ovs[1..], hs);
    }
  }

  /** The first overview entry's first header comes first. */
  lemma ReorderedFirst(ovs: seq<string>, hs: seq<string>, r: nat)
    requires ovs != [] && r < |hs| && Leads(ovs[0], hs[r])
    ensures Reordered(ovs, hs)[0] == hs[FirstLed(ovs[0], hs, 0)]
    ensures FirstLed(ovs[0], hs, 0) <= r
  {
  }

  /* ---------------------------------------------------- the article file */

  /** The file Post writes: each header line and a LF, a LF, then each body line and a LF. */
  function ArticleFile(hs: seq<string>, bs: seq<string>): string {
    MessageText(hs, bs, "\n")
  }

  /** A posted article file parses back into the header and body written. */
  lemma ArticleFileParses(hs: seq<string>, bs: seq<string>)
    requires hs != [] && HeaderLines(hs) && AllClean(bs)
    ensures ParseArticle(ArticleFile(hs, bs)) == Parsed(hs, bs)
  {
    ParseMessage(hs, bs, "\n");
  }

  /* ------------------------------------------- FindArticleByMessageID */

  /**
   * The fast path: strtoul on the id after its first character; when the
   * number (possibly none at all) is followed by '-', that number is the
   * article, and no file is read.
   */
  function FastNumber(id: string): Option<nat> {
    var rest := if |id| > 0 then id[1..] else [];
    var (v, e) := StrToUL(rest);
    if At(rest, e) == '-' then Some(v) else None
  }

  /** A message id the server generated goes by the fast path to its article number. */
  lemma FastMessageId(n: nat, group: string, server: string)
    requires n <= ULONG_MAX
    ensures FastNumber(MessageId(n, group, server)) == Some(n)
  {
    var id := MessageId(n, group, server);
    var tail := "-" + group + "@" + server + ">";
    assert id[1..] == Ultos(n) + tail;
    StrToULUltos(n, tail);
    assert (Ultos(n) + tail)[|Ultos(n)|] == '-';
  }

  /** The chunk the scan of a file stops at: the first that starts a blank line or a "Message-Id:" header. */
  predicate StopsScan(chunk: string) {
    var b := CStr(chunk);
    At(b, 0) == '\n' || HasPrefixIgnoreCase(b, "Message-Id:")
  }

  function StopIndex(chunks: seq<string>, i: nat): (k: nat)
    requires i <= |chunks|
    ensures i <= k <= |chunks|
    ensures forall j :: i <= j < k ==> !StopsScan(chunks[j])
    ensures k < |chunks| ==> StopsScan(chunks[k])
    decreases |chunks| - i
  {
    if i < |chunks| && !StopsScan(chunks[i]) then StopIndex(chunks, i + 1) else i
  }

  /** After "Message-Id:" and white space, the id and a line end. */
  predicate NamesId(b: string, id: string) {
    |b| >= 11 && var v := b[SpaceEnd(b, 11)..]; var w := CStr(id); w <= v && At(v, |w|) == '\n'
  }

  /**
   * What the line buffer holds once the scan of a file ends: the chunk it
   * stopped at; else, since fgets at the end of the file leaves the buffer
   * as it was, the last chunk read; else, for a file with nothing in it, the
   * article path snprintf wrote there (at most 1023 characters).
   */
  function ScanBuffer(chunks: seq<string>, path: string): string {
    var k := StopIndex(chunks, 0);
    if k < |chunks| then chunks[k]
    else if chunks != [] then chunks[|chunks| - 1]
    else if |path| <= 1023 then path else path[..1023]
  }

  /**
   * An article file at path matches id when the buffer left by the scan
   * does not start a blank line and, after its first eleven characters and
   * white space, holds exactly id and a line end.
   */
  predicate IdMatches(data: string, path: string, id: string) {
    var b := CStr(ScanBuffer(FgetsChunks(data, 1024), path));
    At(b, 0) != '\n' && NamesId(b, id)
  }

  /** A header written as "Message-ID: " and id, in a file that starts with it, matches id. */
  lemma IdMatchesFirstLine(id: string, rest: string, path: string)
    requires Clean(id) && |id| > 0 && !IsSpace(id[0]) && |id| <= 1010
    ensures IdMatches("Message-ID: " + id + "\n" + rest, path, id)
  {
    var l := "Message-ID: " + id + "\n";
    IdLine(id);
    LineChunk(l, rest, 1024);
    assert l + rest == "Message-ID: " + id + "\n" + rest;
    assert StopIndex(FgetsChunks(l + rest, 1024), 0) == 0;
  }

  /**
   * A file with neither a blank line nor a "Message-Id:" header matches an
   * id held in its last line after any eleven characters, such as a last
   * header "References: " and the id.
   */
  lemma LastLineMatches(id: string, path: string)
    requires Clean(id) && |id| > 0 && !IsSpace(id[0]) && |id| <= 1010
    ensures IdMatches("References: " + id + "\n", path, id)
  {
    var l := "References: " + id + "\n";
    LastLineShape(id);
    assert StopIndex([l], 0) == 1;
  }

  /** Such a file is one chunk, and the scan does not stop at it. */
  lemma LastLineShape(id: string)
    requires Clean(id) && |id| > 0 && !IsSpace(id[0]) && |id| <= 1010
    ensures var l := "References: " + id + "\n";
      FgetsChunks(l, 1024) == [l] && !StopsScan(l) && CStr(l) == l && At(l, 0) != '\n' && NamesId(l, id)
  {
    var key, p := "References:", "Message-Id:";
    assert |key| == 11 && key[0] == 'R' && p[0] == 'M';
    assert '\n' !in key && '\0' !in key;
    assert key + " " == "References: ";
    OtherKeyLine(key, id, p);
  }

  /** A one-line file whose key differs from p in its first letter, whatever the case. */
  lemma OtherKeyLine(key: string, id: string, p: string)
    requires |key| == 11 && '\n' !in key && '\0' !in key && 0 < |p| && ToLower(key[0]) != ToLower(p[0])
    requires Clean(id) && |id| > 0 && !IsSpace(id[0]) && |id| <= 1010
    ensures var l := key + " " + id + "\n";
      FgetsChunks(l, 1024) == [l] && !HasPrefixIgnoreCase(l, p) && CStr(l) == l && At(l, 0) != '\n' && NamesId(l, id)
  {
    var l := key + " " + id + "\n";
    KeyIdLine(key, id);
    LineChunk(l, "", 1024);
    assert l + "" == l;
    assert FgetsChunks("", 1024) == [];
    assert l == key + (" " + id + "\n");
    KeyMismatch(l, key, " " + id + "\n", p);
  }

  /** A key of eleven characters, a space, the id and a line end: a line naming the id. */
  lemma KeyIdLine(key: string, id: string)
    requires |key| == 11 && '\n' !in key && '\0' !in key
    requires Clean(id) && |id| > 0 && !IsSpace(id[0])
    ensures var l := key + " " + id + "\n";
      IsLine(l) && CStr(l) == l && l[..11] == key && At(l, 0) == key[0] && NamesId(l, id)
  {
    var l := key + " " + id + "\n";
    assert l[..|l| - 1] == key + " " + id;
    assert '\n' !in key + " " + id;
    assert '\0' !in l;
    assert l[..11] == key;
    assert l[11] == ' ' && l[12] == id[0];
    SpaceEndAt(l, 11, 12);
    assert l[12..] == id + "\n";
  }

  /** The shape of such a header line. */
  lemma IdLine(id: string)
    requires Clean(id) && |id| > 0 && !IsSpace(id[0])
    ensures var l := "Message-ID: " + id + "\n";
      IsLine(l) && CStr(l) == l && StopsScan(l) && At(l, 0) != '\n' && NamesId(l, id)
  {
    KeyIdLine("Message-ID:", id);
  }
}
