/**
 * The copy of a posting that goes out by mail when a group has a ccpost
 * list: the header lines worth keeping, the Bcc list broken into one line
 * per address, and the message the mailer is given. POST and the mail
 * gateway share these rules, each with its own list of kept fields.
 */
module MailCopy {
  import opened CLib
  import opened Groups

  /** A header line that continues the previous one starts with a space or a tab. */
  predicate IsContinuation(h: string) {
    |h| > 0 && (h[0] == ' ' || h[0] == '\t')
  }

  /** The line starts, up to case, with one of the field prefixes ps. */
  predicate Preservable(h: string, ps: seq<string>) {
    exists i :: 0 <= i < |ps| && HasPrefixIgnoreCase(h, ps[i])
  }

  /** The fields POST keeps in the mailed copy (Server.C). */
  const POST_FIELDS: seq<string> := ["From: ", "Subject: ", "References: ", "Xref: ", "Path: ",
                                     "Content-Transfer-Encoding: ", "Content-Type: ", "MIME-Version: ",
                                     "Message-ID: "]

  /** The fields the mail gateway keeps in the mailed copy (newsd.C). */
  const GATEWAY_FIELDS: seq<string> := ["From: ", "Subject: ", "References: ", "Xref: ", "Path: ",
                                        "Content-Type: ", "MIME-Version: ", "Message-ID: "]

  /**
   * Header line k is kept: a field line when it starts with one of the
   * prefixes, a continuation line when the line before it was kept.
   */
  predicate Selected(hs: seq<string>, ps: seq<string>, k: nat)
    requires k < |hs|
    decreases k
  {
    if IsContinuation(hs[k]) then k > 0 && Selected(hs, ps, k - 1) else Preservable(hs[k], ps)
  }

  /** Lines j+1 to k continue line j. */
  predicate ContinuedTo(hs: seq<string>, j: nat, k: nat)
    requires j <= k < |hs|
  {
    forall i :: j < i <= k ==> IsContinuation(hs[i])
  }

  /** A line is kept exactly when it belongs to a kept field: the field line and its continuations. */
  lemma {:induction false} SelectedOwner(hs: seq<string>, ps: seq<string>, k: nat)
    requires k < |hs|
    ensures Selected(hs, ps, k) <==>
      exists j :: 0 <= j <= k && !IsContinuation(hs[j]) && Preservable(hs[j], ps) && ContinuedTo(hs, j, k)
    decreases k
  {
    if IsContinuation(hs[k]) {
      if k > 0 {
        SelectedOwner(hs, ps, k - 1);
        if Selected(hs, ps, k) {
          var j :| 0 <= j <= k - 1 && !IsContinuation(hs[j]) && Preservable(hs[j], ps) && ContinuedTo(hs, j, k - 1);
          assert ContinuedTo(hs, j, k);
        }
        if exists j :: 0 <= j <= k && !IsContinuation(hs[j]) && Preservable(hs[j], ps) && ContinuedTo(hs, j, k) {
          var j :| 0 <= j <= k && !IsContinuation(hs[j]) && Preservable(hs[j], ps) && ContinuedTo(hs, j, k);
          assert j < k;
          assert ContinuedTo(hs, j, k - 1);
        }
      }
    } else {
      if Selected(hs, ps, k) {
        assert ContinuedTo(hs, k, k);
      }
    }
  }

  /** The kept lines among the first n, in their order. */
  function Picked(hs: seq<string>, ps: seq<string>, n: nat): (r: seq<string>)
    requires n <= |hs|
    ensures |r| <= n
    decreases n
  {
    if n == 0 then []
    else Picked(hs, ps, n - 1) + (if Selected(hs, ps, n - 1) then [hs[n - 1]] else [])
  }

  /** Each line followed by a newline, as fprintf(fp, "%s\n") writes them one by one. */
  function Lined(ls: seq<string>): string
    decreases |ls|
  {
    if ls == [] then "" else Lined(ls[..|ls| - 1]) + ls[|ls| - 1] + "\n"
  }

  lemma LinedSnoc(ls: seq<string>, l: string)
    ensures Lined(ls + [l]) == Lined(ls) + l + "\n"
  {
    assert (ls + [l])[..|ls|] == ls;
  }

  /** The kept lines, each written with its newline. */
  function PreservedText(hs: seq<string>, ps: seq<string>): string {
    Lined(Picked(hs, ps, |hs|))
  }

  /**
   * The preserve loop: a field line with one of the prefixes is kept and
   * arms the flag, any other field line clears it, and a continuation line
   * is kept while the flag is armed.
   */
  method PreserveFields(hs: seq<string>, ps: seq<string>) returns (preserve: string)
    ensures preserve == PreservedText(hs, ps)
  {
    preserve := "";
    var pflag := false;
    var t := 0;
    while t < |hs|
      invariant 0 <= t <= |hs|
      invariant preserve == Lined(Picked(hs, ps, t))
      invariant pflag == (t > 0 && Selected(hs, ps, t - 1))
    {
      var h := hs[t];
      if |h| > 0 && (h[0] == ' ' || h[0] == '\t') {
        if pflag {
          assert Picked(hs, ps, t + 1) == Picked(hs, ps, t) + [h];
          LinedSnoc(Picked(hs, ps, t), h);
          preserve := preserve + h + "\n";
        } else {
          assert Picked(hs, ps, t + 1) == Picked(hs, ps, t);
        }
      } else {
        pflag := false;
        if exists i :: 0 <= i < |ps| && HasPrefixIgnoreCase(h, ps[i]) {
          pflag := true;
          assert Picked(hs, ps, t + 1) == Picked(hs, ps, t) + [h];
          LinedSnoc(Picked(hs, ps, t), h);
          preserve := preserve + h + "\n";
        } else {
          assert Picked(hs, ps, t + 1) == Picked(hs, ps, t);
        }
      }
      t := t + 1;
    }
  }

  /* ------------------------------------------------------- BreakLineToFP */

  /** Where splitting a text stands: the finished pieces and the one being gathered. */
  datatype Split = Split(done: seq<string>, pending: string)

  /** Splitting text s at the break characters brk, one character at a time. */
  function Broken(s: string, brk: string): Split
    decreases |s|
  {
    if s == [] then Split([], "")
    else
      var b := Broken(s[..|s| - 1], brk);
      var c := s[|s| - 1];
      if c in brk then Split(if b.pending != "" then b.done + [b.pending] else b.done, "")
      else Split(b.done, b.pending + [c])
  }

  /** The non-empty runs of s between break characters, in order. */
  function Pieces(s: string, brk: string): seq<string> {
    var b := Broken(s, brk);
    if b.pending != "" then b.done + [b.pending] else b.done
  }

  /** Each piece written as prefix, piece, trail. */
  function Emitted(prefix: string, trail: string, ps: seq<string>): string
    decreases |ps|
  {
    if ps == [] then "" else Emitted(prefix, trail, ps[..|ps| - 1]) + prefix + ps[|ps| - 1] + trail
  }

  lemma EmittedSnoc(prefix: string, trail: string, ps: seq<string>, p: string)
    ensures Emitted(prefix, trail, ps + [p]) == Emitted(prefix, trail, ps) + prefix + p + trail
  {
    assert (ps + [p])[..|ps|] == ps;
  }

  /**
   * BreakLineToFP: write one prefix-piece-trail line for every non-empty run
   * of the C string line between characters of brk (a Bcc list "a,b,,c"
   * becomes "Bcc: a", "Bcc: b", "Bcc: c").
   */
  method BreakLine(prefix: string, line: string, trail: string, brk: string) returns (text: string)
    ensures text == Emitted(prefix, trail, Pieces(CStr(line), CStr(brk)))
  {
    var s := CStr(line);
    var b := CStr(brk);
    text := "";
    var addr := "";
    var i := 0;
    while i < |s|
      invariant 0 <= i <= |s|
      invariant Broken(s[..i], b) == Split(Broken(s[..i], b).done, addr)
      invariant text == Emitted(prefix, trail, Broken(s[..i], b).done)
    {
      var c := s[i];
      assert s[..i + 1][..i] == s[..i] && s[..i + 1][i] == c;
      if c in b {
        if addr != "" {
          EmittedSnoc(prefix, trail, Broken(s[..i], b).done, addr);
          text := text + prefix + addr + trail;
        }
        addr := "";
      } else {
        addr := addr + [c];
      }
      i := i + 1;
    }
    assert s[..i] == s;
    if addr != "" {
      EmittedSnoc(prefix, trail, Broken(s, b).done, addr);
      text := text + prefix + addr + trail;
    }
  }

  /** Every piece is non-empty and holds no break character. */
  lemma {:induction false} BrokenShape(s: string, brk: string)
    ensures var b := Broken(s, brk);
      (forall k :: 0 <= k < |b.done| ==> b.done[k] != "" && forall c :: c in b.done[k] ==> c !in brk) &&
      (forall c :: c in b.pending ==> c !in brk)
    decreases |s|
  {
    if s != [] {
      var init := s[..|s| - 1];
      BrokenShape(init, brk);
      var b := Broken(init, brk);
      var c := s[|s| - 1];
      if c in brk {
        if b.pending != "" {
          var d := b.done + [b.pending];
          assert forall k :: 0 <= k < |b.done| ==> d[k] == b.done[k];
          assert d[|b.done|] == b.pending;
        }
      } else {
        forall x | x in b.pending + [c]
          ensures x !in brk
        {
          if x !in b.pending {
            assert x == c;
          }
        }
      }
    }
  }

  lemma PiecesShape(s: string, brk: string)
    ensures forall k :: 0 <= k < |Pieces(s, brk)| ==>
      Pieces(s, brk)[k] != "" && forall c :: c in Pieces(s, brk)[k] ==> c !in brk
  {
    BrokenShape(s, brk);
    var b := Broken(s, brk);
    var r := Pieces(s, brk);
    if b.pending != "" {
      assert r == b.done + [b.pending];
      forall k | 0 <= k < |r|
        ensures r[k] != "" && forall c :: c in r[k] ==> c !in brk
      {
        if k < |b.done| {
          assert r[k] == b.done[k];
        } else {
          assert r[k] == b.pending;
        }
      }
    } else {
      assert r == b.done;
    }
  }

  /** A text without break characters is all pending. */
  lemma {:induction false} BrokenWord(s: string, brk: string)
    requires forall c :: c in s ==> c !in brk
    ensures Broken(s, brk) == Split([], s)
    decreases |s|
  {
    if s != [] {
      var init := s[..|s| - 1];
      BrokenWord(init, brk);
      assert init + [s[|s| - 1]] == s;
    }
  }

  /** A non-empty text without break characters is one piece. */
  lemma PiecesWord(s: string, brk: string)
    requires s != [] && forall c :: c in s ==> c !in brk
    ensures Pieces(s, brk) == [s]
  {
    BrokenWord(s, brk);
    assert [] + [s] == [s];
  }

  /** After a break character, splitting starts afresh. */
  lemma {:induction false} BrokenAfterBreak(a: string, c: char, b: string, brk: string)
    requires c in brk
    ensures Broken(a + [c] + b, brk) == Split(Pieces(a, brk) + Broken(b, brk).done, Broken(b, brk).pending)
    decreases |b|
  {
    if b == [] {
      assert (a + [c] + b)[..|a|] == a;
      assert a + [c] + b == a + [c];
    } else {
      var init := b[..|b| - 1];
      BrokenAfterBreak(a, c, init, brk);
      var w := a + [c] + b;
      assert w[..|w| - 1] == a + [c] + init;
      assert w[|w| - 1] == b[|b| - 1];
      var p := Pieces(a, brk);
      var bi := Broken(init, brk);
      if b[|b| - 1] in brk && bi.pending != "" {
        assert p + bi.done + [bi.pending] == p + (bi.done + [bi.pending]);
      }
    }
  }

  /** A break character divides the pieces: those before it, then those after it. */
  lemma PiecesBreak(a: string, c: char, b: string, brk: string)
    requires c in brk
    ensures Pieces(a + [c] + b, brk) == Pieces(a, brk) + Pieces(b, brk)
  {
    BrokenAfterBreak(a, c, b, brk);
    var p := Pieces(a, brk);
    var bb := Broken(b, brk);
    if bb.pending != "" {
      assert p + bb.done + [bb.pending] == p + (bb.done + [bb.pending]);
    }
  }

  /* ------------------------------------------------------------ messages */

  /** The settings of a group that shape its mailed copies. */
  datatype MailSettings = MailSettings(voidemail: string, ccpost: string, replyto: string, creator: string)

  /** The mail settings of a group's configuration. */
  function MailOf(c: GroupConf): MailSettings {
    MailSettings(c.voidemail, c.ccpost, c.replyto, c.creator)
  }

  /** The Reply-To line, present when replyto is not "-". */
  function ReplyToLine(m: MailSettings): string {
    if m.replyto != "-" then "Reply-To: " + m.replyto + "\n" else ""
  }

  /**
   * The message POST pipes to the mailer: To the group's void address, a
   * Bcc line per ccpost address, the kept fields, Reply-To when set,
   * Errors-To the creator, an empty line and the body lines.
   */
  function PostCopy(m: MailSettings, preserve: string, body: seq<string>): string {
    "To: " + m.voidemail + "\n" + Emitted("Bcc: ", "\n", Pieces(CStr(m.ccpost), ",")) + preserve +
    ReplyToLine(m) + "Errors-To: " + m.creator + "\n" + "\n" + Lined(body)
  }

  /**
   * The message the mail gateway pipes to the mailer: as POST's, but with the
   * ccpost list on a single Bcc line and a "[posted to group]" line before
   * the body.
   */
  function GatewayCopy(m: MailSettings, group: string, preserve: string, body: seq<string>): string {
    "To: " + m.voidemail + "\n" + "Bcc: " + m.ccpost + "\n" + preserve +
    ReplyToLine(m) + "Errors-To: " + m.creator + "\n" + "\n" + "[posted to " + group + "]\n\n" + Lined(body)
  }
}
