/**
 * How POST reads a posting off the connection: CRs are dropped, the dot
 * stuffing of RFC 3977 section 3.1.1 is undone, lines are counted against
 * the group's limit, and a line holding a single dot ends the posting.
 */
module PostWire {
  import opened CLib
  import opened Articles
  import opened NntpWire

  /** Where the dot-stuffing state machine stands: after data, after a LF, or after LF and a dot. */
  datatype DotMode = Normal | AfterNewline | AfterDot

  /** The POST loop's variables: input index, mode, the line counters, the too-long flag, the message. */
  datatype Collector = Collector(pos: nat, mode: DotMode, linechars: int, linecount: int,
                                 toolong: bool, msg: string, done: bool)

  /** The state POST starts in at input index pos. */
  function Start(pos: nat): Collector {
    Collector(pos, Normal, 0, 0, false, "", false)
  }

  /**
   * One byte of the POST loop: CRs are ignored; LF after LF and a dot ends
   * the message; a dot after LF is dropped; any other byte is counted (a
   * line ends at LF or after 80 bytes) and stored unless the line count has
   * passed a positive limit, which marks the posting too long instead.
   */
  function Step(input: string, limit: int, st: Collector): (r: Collector)
    requires st.pos < |input|
    ensures r.pos == st.pos + 1
  {
    var c := input[st.pos];
    var st1 := st.(pos := st.pos + 1);
    if c == '\r' then st1
    else if c == '\n' && st.mode == AfterDot then st1.(done := true)
    else if c == '.' && st.mode == AfterNewline then st1.(mode := AfterDot)
    else
      var chars := st.linechars + 1;
      var wrap := chars > 80 || c == '\n';
      var count := if wrap then st.linecount + 1 else st.linecount;
      var st2 := st1.(mode := if c == '\n' then AfterNewline else Normal,
                      linechars := if wrap then 0 else chars, linecount := count);
      if limit > 0 && count > limit then st2.(toolong := true) else st2.(msg := st.msg + [c])
  }

  /** The POST loop run from st until the message ends or the input runs out. */
  function Collect(input: string, limit: int, st: Collector): Collector
    requires st.pos <= |input|
    decreases |input| - st.pos
  {
    if st.done || st.pos == |input| then st else Collect(input, limit, Step(input, limit, st))
  }

  /** The loop stops somewhere between where it started and the end of the input. */
  lemma {:induction false} CollectEnds(input: string, limit: int, st: Collector)
    requires st.pos <= |input|
    ensures st.pos <= Collect(input, limit, st).pos <= |input|
    decreases |input| - st.pos
  {
    if !st.done && st.pos < |input| {
      CollectEnds(input, limit, Step(input, limit, st));
    }
  }

  /**
   * CollectPost: the byte loop of POST, from input index pos with the line
   * limit of the session's group.
   */
  method CollectPost(input: string, pos: nat, limit: int) returns (msg: string, toolong: bool, next: nat)
    requires pos <= |input|
    ensures var r := Collect(input, limit, Start(pos));
      msg == r.msg && toolong == r.toolong && next == r.pos
  {
    var mode := Normal;
    var linechars, linecount := 0, 0;
    toolong := false;
    msg := "";
    var i := pos;
    while i < |input|
      invariant pos <= i <= |input|
      invariant Collect(input, limit, Collector(i, mode, linechars, linecount, toolong, msg, false)) ==
                Collect(input, limit, Start(pos))
      decreases |input| - i
    {
      ghost var st := Collector(i, mode, linechars, linecount, toolong, msg, false);
      var c := input[i];
      i := i + 1;
      if c == '\r' {
        continue;
      }
      if c == '\n' {
        if mode == AfterDot {
          assert Step(input, limit, st) == Collector(i, mode, linechars, linecount, toolong, msg, true);
          return msg, toolong, i;
        }
        mode := AfterNewline;
      } else if c == '.' && mode == AfterNewline {
        mode := AfterDot;
        continue;
      } else {
        mode := Normal;
      }
      linechars := linechars + 1;
      if linechars > 80 || c == '\n' {
        linechars := 0;
        linecount := linecount + 1;
      }
      if limit > 0 && linecount > limit {
        toolong := true;
        continue;
      }
      msg := msg + [c];
    }
    next := i;
  }

  /** The state without what the limit decides: the counters, the flag and the message. */
  function Shape(st: Collector): Collector {
    st.(linechars := 0, linecount := 0, toolong := false, msg := "")
  }

  /** Where the message ends does not depend on the line limit: reading goes on past it. */
  lemma {:induction false} CollectShape(input: string, l1: int, l2: int, s1: Collector, s2: Collector)
    requires s1.pos <= |input| && Shape(s1) == Shape(s2)
    ensures Shape(Collect(input, l1, s1)) == Shape(Collect(input, l2, s2))
    decreases |input| - s1.pos
  {
    if !s1.done && s1.pos < |input| {
      CollectShape(input, l1, l2, Step(input, l1, s1), Step(input, l2, s2));
    }
  }

  /** The limit never changes where POST stops reading. */
  lemma LimitKeepsEnd(input: string, pos: nat, limit: int)
    requires pos <= |input|
    ensures Collect(input, limit, Start(pos)).pos == Collect(input, 0, Start(pos)).pos
  {
    CollectShape(input, limit, 0, Start(pos), Start(pos));
  }

  /** Once the count has passed a positive limit nothing more is stored, and the posting stays too long. */
  lemma {:induction false} OverLimitDrops(input: string, limit: int, st: Collector)
    requires st.pos <= |input| && limit > 0 && st.linecount > limit
    ensures Collect(input, limit, st).msg == st.msg
    ensures st.toolong ==> Collect(input, limit, st).toolong
    decreases |input| - st.pos
  {
    if !st.done && st.pos < |input| {
      OverLimitDrops(input, limit, Step(input, limit, st));
    }
  }

  /** What the dot-stuffing decoder makes of a text: the bytes kept, the mode it ends in, how much it read, whether it saw the end. */
  datatype Decoded = Decoded(kept: string, mode: DotMode, used: nat, done: bool)

  /** A LF after LF and a dot ends the posting. */
  predicate Ends(c: char, m: DotMode) {
    c == '\n' && m == AfterDot
  }

  /** What the decoder keeps of byte c in mode m: CRs and the dot after a LF are dropped. */
  function Kept(c: char, m: DotMode): string {
    if c == '\r' || (c == '.' && m == AfterNewline) then [] else [c]
  }

  /** The mode after byte c in mode m. */
  function NextMode(c: char, m: DotMode): DotMode {
    if c == '\r' then m
    else if c == '.' && m == AfterNewline then AfterDot
    else if c == '\n' then AfterNewline
    else Normal
  }

  /** The POST loop without line counting, run over the text t from mode m. */
  function Decode(t: string, m: DotMode): (d: Decoded)
    ensures d.used <= |t| && (!d.done ==> d.used == |t|)
    decreases |t|
  {
    if t == [] then Decoded([], m, 0, false)
    else if Ends(t[0], m) then Decoded([], m, 1, true)
    else
      var d := Decode(t[1..], NextMode(t[0], m));
      Decoded(Kept(t[0], m) + d.kept, d.mode, d.used + 1, d.done)
  }

  /** One byte in front of a text. */
  lemma DecodeCons(c: char, t: string, m: DotMode)
    ensures var d := Decode(t, NextMode(c, m));
      Decode([c] + t, m) == if Ends(c, m) then Decoded([], m, 1, true)
                            else Decoded(Kept(c, m) + d.kept, d.mode, d.used + 1, d.done)
  {
    assert ([c] + t)[0] == c && ([c] + t)[1..] == t;
  }

  /** One step of the POST loop with no positive limit is one step of the decoder. */
  lemma StepUnlimited(input: string, limit: int, st: Collector)
    requires limit <= 0 && st.pos < |input| && !st.done
    ensures var r := Step(input, limit, st); var c := input[st.pos];
      r.done == Ends(c, st.mode) && r.toolong == st.toolong &&
      r.msg == (if Ends(c, st.mode) then st.msg else st.msg + Kept(c, st.mode)) &&
      (!r.done ==> r.mode == NextMode(c, st.mode))
  {
  }

  /** With no positive limit, the LF that ends the posting is where collecting and decoding stop. */
  lemma UnlimitedEnd(input: string, limit: int, st: Collector)
    requires limit <= 0 && st.pos < |input| && !st.done && Ends(input[st.pos], st.mode)
    ensures var r := Step(input, limit, st); var d := Decode(input[st.pos..], st.mode);
      r.msg == st.msg + d.kept && r.pos == st.pos + d.used && r.done == d.done && r.toolong == st.toolong
  {
    var c := input[st.pos];
    assert input[st.pos..] == [c] + input[st.pos + 1..];
    DecodeCons(c, input[st.pos + 1..], st.mode);
    StepUnlimited(input, limit, st);
    assert st.msg + [] == st.msg;
  }

  /** With no positive limit, a byte that does not end the posting adds to both sides alike. */
  lemma UnlimitedStep(input: string, limit: int, st: Collector, r: Collector)
    requires limit <= 0 && st.pos < |input| && !st.done && !Ends(input[st.pos], st.mode)
    requires var s1 := Step(input, limit, st); var d1 := Decode(input[st.pos + 1..], s1.mode);
      r.msg == s1.msg + d1.kept && r.pos == s1.pos + d1.used && r.done == d1.done && r.toolong == s1.toolong
    ensures var d := Decode(input[st.pos..], st.mode);
      r.msg == st.msg + d.kept && r.pos == st.pos + d.used && r.done == d.done && r.toolong == st.toolong
  {
    var c := input[st.pos];
    assert input[st.pos..] == [c] + input[st.pos + 1..];
    DecodeCons(c, input[st.pos + 1..], st.mode);
    StepUnlimited(input, limit, st);
    var d1 := Decode(input[st.pos + 1..], NextMode(c, st.mode));
    assert st.msg + (Kept(c, st.mode) + d1.kept) == (st.msg + Kept(c, st.mode)) + d1.kept;
  }

  /** With no positive limit, collecting a posting is decoding the rest of the input. */
  lemma {:induction false} CollectUnlimited(input: string, limit: int, st: Collector)
    requires limit <= 0 && st.pos <= |input| && !st.done
    ensures var r := Collect(input, limit, st); var d := Decode(input[st.pos..], st.mode);
      r.msg == st.msg + d.kept && r.pos == st.pos + d.used && r.done == d.done && r.toolong == st.toolong
    decreases |input| - st.pos
  {
    if st.pos == |input| {
      assert input[st.pos..] == [];
      assert st.msg + [] == st.msg;
    } else if Ends(input[st.pos], st.mode) {
      UnlimitedEnd(input, limit, st);
      StepUnlimited(input, limit, st);
    } else {
      var s1 := Step(input, limit, st);
      StepUnlimited(input, limit, st);
      CollectUnlimited(input, limit, s1);
      UnlimitedStep(input, limit, st, Collect(input, limit, s1));
    }
  }

  /** Decoding a + b when a does not hold the end: b is decoded from the mode a ends in. */
  lemma {:induction false} DecodeAppend(a: string, b: string, m: DotMode)
    requires !Decode(a, m).done
    ensures var da := Decode(a, m); var db := Decode(b, da.mode);
      Decode(a + b, m) == Decoded(da.kept + db.kept, db.mode, |a| + db.used, db.done)
    decreases |a|
  {
    if a == [] {
      assert a + b == b;
    } else {
      var c := a[0];
      var t := a[1..];
      assert a == [c] + t;
      assert a + b == [c] + (t + b);
      DecodeCons(c, t, m);
      DecodeCons(c, t + b, m);
      var m1 := NextMode(c, m);
      DecodeAppend(t, b, m1);
      var d1 := Decode(t, m1);
      var db := Decode(b, d1.mode);
      assert Kept(c, m) + (d1.kept + db.kept) == (Kept(c, m) + d1.kept) + db.kept;
    }
  }

  /** Text without CR or LF, decoded in normal mode, is kept as it is. */
  lemma {:induction false} DecodeText(t: string)
    requires NoCrlf(t)
    ensures Decode(t, Normal) == Decoded(t, Normal, |t|, false)
    decreases |t|
  {
    if t != [] {
      assert NoCrlf(t[1..]) by {
        assert forall m :: 0 <= m < |t| - 1 ==> t[1..][m] == t[m + 1];
      }
      DecodeText(t[1..]);
      assert [t[0]] + t[1..] == t;
    }
  }

  /** The CR LF that ends a line is kept as a LF, after text or after a LF. */
  lemma DecodeCrlf(m: DotMode)
    requires m != AfterDot
    ensures Decode("\r\n", m) == Decoded("\n", AfterNewline, 2, false)
  {
    assert "\r\n"[1..] == "\n" && "\n"[1..] == [];
  }

  /** A line of text and its CR LF, decoded in normal mode, are kept as the text and a LF. */
  lemma DecodeLineTail(t: string)
    requires NoCrlf(t)
    ensures Decode(t + "\r\n", Normal) == Decoded(t + "\n", AfterNewline, |t| + 2, false)
  {
    DecodeText(t);
    DecodeCrlf(Normal);
    DecodeAppend(t, "\r\n", Normal);
  }

  /**
   * A dot-stuffed line that follows a LF is kept as the line itself: the
   * dot the stuffing added is dropped (RFC 3977 section 3.1.1).
   */
  lemma DecodeStuffedLine(l: string)
    requires NoCrlf(l)
    ensures Decode(Stuffed(l) + "\r\n", AfterNewline) == Decoded(l + "\n", AfterNewline, |Stuffed(l)| + 2, false)
  {
    if l == [] {
      assert Stuffed(l) + "\r\n" == "\r\n";
      DecodeCrlf(AfterNewline);
    } else {
      var t := l[1..];
      assert NoCrlf(t) by {
        assert forall m :: 0 <= m < |t| ==> t[m] == l[m + 1];
      }
      DecodeLineTail(t);
      var u := t + "\r\n";
      assert [l[0]] + t == l;
      if l[0] == '.' {
        var w := Stuffed(l) + "\r\n";
        assert w == "." + ([l[0]] + u);
        assert w[0] == '.' && w[1..] == [l[0]] + u;
        assert ([l[0]] + u)[0] == '.' && ([l[0]] + u)[1..] == u;
      } else {
        var w := Stuffed(l) + "\r\n";
        assert w == [l[0]] + u;
        assert w[0] == l[0] && w[1..] == u;
      }
    }
  }

  /** Lines as a client sends them in a posting: dot-stuffed and ended by CR LF. */
  function WireLines(ls: seq<string>): string
    decreases |ls|
  {
    if ls == [] then [] else Stuffed(ls[0]) + "\r\n" + WireLines(ls[1..])
  }

  /** Lines as the server keeps a posting: each ended by a LF. */
  function StoredLines(ls: seq<string>): string
    decreases |ls|
  {
    if ls == [] then [] else ls[0] + "\n" + StoredLines(ls[1..])
  }

  predicate AllNoCrlf(ls: seq<string>) {
    forall k :: 0 <= k < |ls| ==> NoCrlf(ls[k])
  }

  lemma AllNoCrlfTail(ls: seq<string>)
    requires ls != [] && AllNoCrlf(ls)
    ensures NoCrlf(ls[0]) && AllNoCrlf(ls[1..])
  {
    assert forall k :: 0 <= k < |ls| - 1 ==> ls[1..][k] == ls[k + 1];
  }

  /** Stuffed lines that follow a LF are kept as the lines, each with a LF. */
  lemma {:induction false} DecodeWireLines(ls: seq<string>)
    requires AllNoCrlf(ls)
    ensures Decode(WireLines(ls), AfterNewline) == Decoded(StoredLines(ls), AfterNewline, |WireLines(ls)|, false)
    decreases |ls|
  {
    if ls != [] {
      AllNoCrlfTail(ls);
      DecodeStuffedLine(ls[0]);
      DecodeWireLines(ls[1..]);
      DecodeAppend(Stuffed(ls[0]) + "\r\n", WireLines(ls[1..]), AfterNewline);
    }
  }

  /** The end of a posting: a line holding only a dot. */
  const TERMINATOR: string := ".\r\n"

  /** The terminator after a LF ends the posting, whatever follows it. */
  lemma DecodeTerminator(rest: string)
    ensures Decode(TERMINATOR + rest, AfterNewline) == Decoded([], AfterDot, 3, true)
  {
    assert TERMINATOR + rest == ['.'] + (['\r'] + (['\n'] + rest));
    DecodeCons('\n', rest, AfterDot);
    DecodeCons('\r', ['\n'] + rest, AfterDot);
    DecodeCons('.', ['\r'] + (['\n'] + rest), AfterNewline);
  }

  /** The text a client sends for a posting: first line, stuffed lines, terminator. */
  function Posting(first: string, ls: seq<string>): string {
    first + "\r\n" + WireLines(ls) + TERMINATOR
  }

  /** A whole posting decoded: its lines, each with a LF, and nothing after the terminator. */
  lemma DecodePosting(first: string, ls: seq<string>, rest: string)
    requires NoCrlf(first) && AllNoCrlf(ls)
    ensures Decode(Posting(first, ls) + rest, Normal) ==
            Decoded(first + "\n" + StoredLines(ls), AfterDot, |Posting(first, ls)|, true)
  {
    var head := first + "\r\n";
    var body := WireLines(ls);
    DecodeLineTail(first);
    DecodeWireLines(ls);
    DecodeTerminator(rest);
    DecodeAppend(body, TERMINATOR + rest, AfterNewline);
    DecodeAppend(head, body + (TERMINATOR + rest), Normal);
    assert Posting(first, ls) + rest == head + (body + (TERMINATOR + rest));
    assert first + "\n" + StoredLines(ls) + [] == first + "\n" + StoredLines(ls);
  }

  /**
   * A posting as a client sends it, read with no positive line limit: the
   * server keeps every line with a LF and stops right after the
   * terminating dot. The first line is not un-stuffed (the collector starts
   * in normal mode), so a first line starting with a dot would keep both
   * dots; in a posting the first line is a header.
   */
  lemma PostRoundTrip(input: string, pos: nat, limit: int, first: string, ls: seq<string>, rest: string)
    requires limit <= 0 && NoCrlf(first) && AllNoCrlf(ls)
    requires pos <= |input| && input[pos..] == Posting(first, ls) + rest
    ensures var r := Collect(input, limit, Start(pos));
      r.msg == first + "\n" + StoredLines(ls) && !r.toolong && r.done && r.pos == pos + |Posting(first, ls)|
  {
    CollectUnlimited(input, limit, Start(pos));
    DecodePosting(first, ls, rest);
    assert "" + (first + "\n" + StoredLines(ls)) == first + "\n" + StoredLines(ls);
  }
}
