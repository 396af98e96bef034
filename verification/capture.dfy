/** Captured child output (include/sub0log/child.hpp:402-500, include/sub0log/child.hpp:667-672):
    a byte stream, read in whatever pieces the pipe delivers, split into lines. */
module Capture {
  import opened Bytes
  import opened Lists

  const NEWLINE: byte := 0x0A
  const RETURN: byte := 0x0D
  const LINE_CAP := 4096

  datatype Line = Line(text: seq<byte>, truncated: bool)

  // ------------------------------------------------------- the specification

  function Capped(segment: seq<byte>): Line { Line(segment[..Min(|segment|, LINE_CAP)], true) }

  /** A line that a newline ended; the carriage return of a CRLF pair goes, but it counts
      towards the cap first. */
  function Ended(segment: seq<byte>): Line {
    if |segment| > LINE_CAP then Capped(segment)
    else if segment != [] && segment[|segment| - 1] == RETURN then Line(segment[..|segment| - 1], false)
    else Line(segment, false)
  }

  /** What is left when the stream ends: a line if it is not empty, as it stands. */
  function Unended(segment: seq<byte>): seq<Line> {
    if segment == [] then [] else [if |segment| > LINE_CAP then Capped(segment) else Line(segment, false)]
  }

  /** Where the first newline is, or the length of the stream. */
  function FirstNewline(stream: seq<byte>): (n: nat)
    ensures n <= |stream| && (n < |stream| ==> stream[n] == NEWLINE)
    ensures forall k :: 0 <= k < n ==> stream[k] != NEWLINE
  {
    if stream == [] || stream[0] == NEWLINE then 0 else 1 + FirstNewline(stream[1..])
  }

  /** The whole stream split at its newlines. */
  function Lines(stream: seq<byte>): seq<Line>
    decreases |stream|
  {
    var n := FirstNewline(stream);
    if n == |stream| then Unended(stream) else [Ended(stream[..n])] + Lines(stream[n + 1..])
  }

  function Newlines(stream: seq<byte>): nat {
    if stream == [] then 0 else (if stream[0] == NEWLINE then 1 else 0) + Newlines(stream[1..])
  }

  /** The bytes from a to b are one line of the stream: a stands at its start or behind a newline,
      b on a newline or at its end, and no newline is between. */
  ghost predicate IsLine(stream: seq<byte>, a: int, b: int) {
    && 0 <= a <= b <= |stream|
    && (a == 0 || stream[a - 1] == NEWLINE) && (b == |stream| || stream[b] == NEWLINE)
    && forall k :: a <= k < b ==> stream[k] != NEWLINE
  }

  /** What becomes of that line: past 4096 bytes its first 4096, flagged; otherwise all of it, but
      for the carriage return of a CRLF pair. */
  ghost function LineIs(stream: seq<byte>, a: int, b: int): Line
    requires 0 <= a <= b <= |stream|
  {
    if b - a > LINE_CAP then Line(stream[a..a + LINE_CAP], true)
    else if b < |stream| && a < b && stream[b - 1] == RETURN then Line(stream[a..b - 1], false)
    else Line(stream[a..b], false)
  }

  /** There is a line for each newline, and one for a rest that is not empty. */
  lemma {:induction false} LineCount(stream: seq<byte>)
    ensures |Lines(stream)| == Newlines(stream) + if stream != [] && stream[|stream| - 1] != NEWLINE then 1 else 0
    decreases |stream|
  {
    var n := FirstNewline(stream);
    if n == |stream| {
      NoneBefore(stream, n);
    } else {
      hide Lines;
      RestCounts(stream, n);
      LineCount(stream[n + 1..]);
    }
  }

  /** Each line stands where its newlines say. */
  lemma {:induction false} LineAt(stream: seq<byte>, a: nat, b: nat)
    requires a <= b <= |stream| && IsLine(stream, a, b) && (a < b || b < |stream|)
    ensures Newlines(stream[..a]) < |Lines(stream)| && Lines(stream)[Newlines(stream[..a])] == LineIs(stream, a, b)
    decreases |stream|
  {
    hide Lines, LineIs, IsLine, Newlines, Ended;
    if a == 0 {
      FirstIs(stream, b);
    } else {
      var n := FirstNewline(stream);
      LaterIs(stream, n, a, b);
      LineAt(stream[n + 1..], a - n - 1, b - n - 1);
      FrontCounts(stream, n, a);
      LinesUnfold(stream, n);
    }
  }

  lemma FirstIs(stream: seq<byte>, b: nat)
    requires IsLine(stream, 0, b) && (0 < b || b < |stream|)
    ensures Newlines(stream[..0]) == 0 < |Lines(stream)| && Lines(stream)[0] == LineIs(stream, 0, b)
  {
    assert b == FirstNewline(stream);
    assert stream[..b] == stream[0..b];
    if b == |stream| {
      assert stream[..b] == stream;
    }
  }

  lemma LaterIs(stream: seq<byte>, n: nat, a: nat, b: nat)
    requires n == FirstNewline(stream) && IsLine(stream, a, b) && a > 0
    ensures n < a <= b <= |stream| && IsLine(stream[n + 1..], a - n - 1, b - n - 1)
    ensures LineIs(stream[n + 1..], a - n - 1, b - n - 1) == LineIs(stream, a, b)
  {
    hide FirstNewline, LineIs;
    assert stream[a - 1] == NEWLINE;
    LaterLine(stream, n + 1, a, b);
    LaterSame(stream, n + 1, a, b);
  }

  lemma LaterLine(stream: seq<byte>, m: nat, a: nat, b: nat)
    requires IsLine(stream, a, b) && m <= a
    ensures IsLine(stream[m..], a - m, b - m)
  {
    var rest := stream[m..];
    forall k | a - m <= k < b - m
      ensures rest[k] != NEWLINE
    {
      assert rest[k] == stream[m + k];
    }
  }

  lemma LaterSame(stream: seq<byte>, m: nat, a: nat, b: nat)
    requires m <= a <= b <= |stream|
    ensures LineIs(stream[m..], a - m, b - m) == LineIs(stream, a, b)
  {
    SliceOfRest(stream, m, a, b);
    if b - a > LINE_CAP {
      SliceOfRest(stream, m, a, a + LINE_CAP);
    } else if a < b {
      SliceOfRest(stream, m, a, b - 1);
    }
  }

  lemma SliceOfRest(stream: seq<byte>, m: nat, a: nat, b: nat)
    requires m <= a <= b <= |stream|
    ensures stream[m..][a - m..b - m] == stream[a..b]
  {}

  /** Up to the first newline there is none. */
  lemma {:induction false} NoneBefore(stream: seq<byte>, n: nat)
    requires n <= |stream| && forall k :: 0 <= k < n ==> stream[k] != NEWLINE
    ensures Newlines(stream) == Newlines(stream[n..])
    decreases n
  {
    if n == 0 {
      assert stream[0..] == stream;
    } else {
      NoneBefore(stream[1..], n - 1);
      assert stream[1..][n - 1..] == stream[n..];
    }
  }

  lemma RestCounts(stream: seq<byte>, n: nat)
    requires n == FirstNewline(stream) < |stream|
    ensures Newlines(stream) == 1 + Newlines(stream[n + 1..])
    ensures |Lines(stream)| == 1 + |Lines(stream[n + 1..])|
    ensures stream[n + 1..] != [] ==> stream[n + 1..][|stream| - n - 2] == stream[|stream| - 1]
    ensures stream[n + 1..] == [] ==> stream[|stream| - 1] == NEWLINE && |Lines(stream)| == 1
  {
    NoneBefore(stream, n);
    assert stream[n..][1..] == stream[n + 1..];
  }

  lemma FrontCounts(stream: seq<byte>, n: nat, a: nat)
    requires n == FirstNewline(stream) < a <= |stream|
    ensures Newlines(stream[..a]) == 1 + Newlines(stream[n + 1..][..a - n - 1])
  {
    NoneBefore(stream[..a], n);
    assert stream[..a][n..][1..] == stream[n + 1..][..a - n - 1];
  }

  // ------------------------------------------------ what a prefix determines

  /** The bytes since the last newline. */
  function Open(stream: seq<byte>): seq<byte> {
    if stream == [] || stream[|stream| - 1] == NEWLINE then []
    else Open(stream[..|stream| - 1]) + [stream[|stream| - 1]]
  }

  /** The lines that newlines have ended so far. */
  function Closed(stream: seq<byte>): seq<Line> {
    if stream == [] then []
    else
      var before := stream[..|stream| - 1];
      if stream[|stream| - 1] == NEWLINE then Closed(before) + [Ended(Open(before))] else Closed(before)
  }

  lemma {:induction false} AfterNewline(a: seq<byte>, b: seq<byte>)
    ensures Open(a + [NEWLINE] + b) == Open(b)
    ensures Closed(a + [NEWLINE] + b) == Closed(a + [NEWLINE]) + Closed(b)
    decreases |b|
  {
    if b == [] {
      assert a + [NEWLINE] + b == a + [NEWLINE];
    } else {
      var s, last := a + [NEWLINE] + b, |b| - 1;
      hide Ended;
      AfterNewline(a, b[..last]);
      assert s[..|s| - 1] == a + [NEWLINE] + b[..last];
    }
  }

  lemma {:induction false} NoNewlineOpen(s: seq<byte>)
    requires forall k :: 0 <= k < |s| ==> s[k] != NEWLINE
    ensures Open(s) == s && Closed(s) == []
  {
    if s != [] {
      NoNewlineOpen(s[..|s| - 1]);
      assert s == s[..|s| - 1] + [s[|s| - 1]];
    }
  }

  lemma FirstLine(a: seq<byte>, b: seq<byte>)
    requires forall k :: 0 <= k < |a| ==> a[k] != NEWLINE
    ensures Open(a + [NEWLINE] + b) == Open(b) && Closed(a + [NEWLINE] + b) == [Ended(a)] + Closed(b)
  {
    AfterNewline(a, b);
    NoNewlineOpen(a);
    assert (a + [NEWLINE])[..|a|] == a;
  }

  lemma Rejoin(stream: seq<byte>, n: nat)
    requires n < |stream| && stream[n] == NEWLINE
    ensures stream == stream[..n] + [NEWLINE] + stream[n + 1..]
  {}

  /** Splitting from the front, or keeping what a prefix determines: the same lines. */
  lemma {:induction false} LinesAreClosedThenOpen(stream: seq<byte>)
    ensures Lines(stream) == Closed(stream) + Unended(Open(stream))
    decreases |stream|
  {
    var n := FirstNewline(stream);
    if n == |stream| {
      NoNewlineOpen(stream);
    } else {
      LinesUnfold(stream, n);
      hide Lines, Open, Closed, Ended, Unended;
      Rejoin(stream, n);
      FirstLine(stream[..n], stream[n + 1..]);
      LinesAreClosedThenOpen(stream[n + 1..]);
      Regroup([Ended(stream[..n])], Closed(stream[n + 1..]), Unended(Open(stream[n + 1..])));
    }
  }

  lemma LinesUnfold(stream: seq<byte>, n: nat)
    requires n == FirstNewline(stream) < |stream|
    ensures Lines(stream) == [Ended(stream[..n])] + Lines(stream[n + 1..])
  {}

  // -------------------------------------------------------------- the capture

  /** Lines already handed on: the ended ones, and the overlong one under way, once. */
  function Emitted(stream: seq<byte>): seq<Line> {
    Closed(stream) + if |Open(stream)| > LINE_CAP then [Capped(Open(stream))] else []
  }

  /** What one more byte does. */
  lemma OneMore(stream: seq<byte>, c: byte)
    ensures Open(stream + [c]) == if c == NEWLINE then [] else Open(stream) + [c]
    ensures Closed(stream + [c]) == if c == NEWLINE then Closed(stream) + [Ended(Open(stream))] else Closed(stream)
  {
    assert (stream + [c])[..|stream|] == stream;
  }

  lemma EmittedNewline(stream: seq<byte>)
    ensures Emitted(stream + [NEWLINE])
            == Emitted(stream) + if |Open(stream)| > LINE_CAP then [] else [Ended(Open(stream))]
  {
    OneMore(stream, NEWLINE);
  }

  lemma EmittedOther(stream: seq<byte>, c: byte)
    requires c != NEWLINE
    ensures Emitted(stream + [c])
            == Emitted(stream) + if |Open(stream)| == LINE_CAP then [Line(Open(stream), true)] else []
  {
    OneMore(stream, c);
    StillCapped(Open(stream), c);
  }

  lemma StillCapped(open: seq<byte>, c: byte)
    ensures |open| >= LINE_CAP ==> Capped(open + [c]) == Line(open[..LINE_CAP], true)
    ensures |open| == LINE_CAP ==> open[..LINE_CAP] == open
    ensures |open| > LINE_CAP ==> Capped(open) == Line(open[..LINE_CAP], true)
  {}

  function CountTruncated(lines: seq<Line>): nat {
    if lines == [] then 0 else CountTruncated(lines[..|lines| - 1]) + if lines[|lines| - 1].truncated then 1 else 0
  }

  /** The lines handed on, the bytes carried and whether they are being discarded, all as the
      stream so far determines them. */
  ghost predicate Follows(stream: seq<byte>, lines: seq<Line>, carry: seq<byte>, discarding: bool) {
    && lines == Emitted(stream)
    && discarding == (|Open(stream)| > LINE_CAP)
    && carry == if discarding then [] else Open(stream)
  }

  lemma NewlineFollows(stream: seq<byte>, lines: seq<Line>, carry: seq<byte>, discarding: bool, lines': seq<Line>)
    requires Follows(stream, lines, carry, discarding)
    requires lines' == if discarding then lines else lines + [Ended(carry)]
    ensures Follows(stream + [NEWLINE], lines', [], false)
  {
    EmittedNewline(stream);
    OneMore(stream, NEWLINE);
  }

  /** How many of the lines a filter holds back. */
  function CountHeld(suppresses: Line -> bool, lines: seq<Line>): nat {
    if lines == [] then 0
    else CountHeld(suppresses, lines[..|lines| - 1]) + if suppresses(lines[|lines| - 1]) then 1 else 0
  }

  lemma CountsMore(lines: seq<Line>, line: Line, suppresses: Line -> bool)
    ensures CountTruncated(lines + [line]) == CountTruncated(lines) + if line.truncated then 1 else 0
    ensures CountHeld(suppresses, lines + [line]) == CountHeld(suppresses, lines) + if suppresses(line) then 1 else 0
  {
    assert (lines + [line])[..|lines|] == lines;
  }

  /** How many of the first n records offered are taken. */
  function CountTaken(hasRoom: nat -> bool, n: nat): nat {
    if n == 0 then 0 else CountTaken(hasRoom, n - 1) + if hasRoom(n - 1) then 1 else 0
  }

  /** Every captured line is suppressed, unlogged, written or dropped, exactly one of them: a
      suppressed line goes no further, an unbound process logs none of the others, a bound one
      writes those there is room for and drops the rest. */
  ghost predicate Accounts(lines: seq<Line>, suppresses: Line -> bool, bound: bool, hasRoom: nat -> bool,
                           captured: nat, truncated: nat, suppressed: nat, unlogged: nat, written: nat, dropped: nat)
  {
    && captured == |lines| == suppressed + unlogged + written + dropped
    && truncated == CountTruncated(lines)
    && suppressed == CountHeld(suppresses, lines)
    && (if bound then unlogged == 0 else written == dropped == 0)
    && written == CountTaken(hasRoom, written + dropped)
  }

  class LineCapture {
    const suppresses: Line -> bool     // the interceptor's verdict
    const bound: bool                  // whether a Logger takes what is not suppressed
    const hasRoom: nat -> bool         // whether the n-th record offered to it is written
    var carry: seq<byte>
    var discardingOverlong: bool
    var captured: nat
    var truncatedLines: nat
    var suppressed: nat
    var unlogged: nat
    var written: nat
    var dropped: nat
    var lines: seq<Line>               // every line handed on
    /** Everything fed so far. */
    ghost var stream: seq<byte>

    ghost predicate Counted()
      reads this
    {
      Accounts(lines, suppresses, bound, hasRoom, captured, truncatedLines, suppressed, unlogged, written, dropped)
    }

    /** The state is a function of the bytes seen, however they were delivered. */
    ghost predicate Valid()
      reads this
    {
      Counted() && Follows(stream, lines, carry, discardingOverlong)
    }

    constructor (suppresses: Line -> bool, bound: bool, hasRoom: nat -> bool)
      ensures Valid() && stream == [] && this.suppresses == suppresses && this.bound == bound && this.hasRoom == hasRoom
    {
      this.suppresses, this.bound, this.hasRoom := suppresses, bound, hasRoom;
      carry, discardingOverlong := [], false;
      captured, truncatedLines, suppressed, unlogged, written, dropped := 0, 0, 0, 0, 0, 0;
      stream, lines := [], [];
    }

    /** One line: counted before anything can swallow it. */
    method WriteLine(line: Line)
      requires Counted()
      modifies this`captured, this`truncatedLines, this`suppressed, this`unlogged, this`written, this`dropped, this`lines
      ensures Counted() && lines == old(lines) + [line]
    {
      CountsMore(lines, line, suppresses);
      hide CountTruncated, CountHeld;
      captured := captured + 1;
      lines := lines + [line];
      if line.truncated {
        truncatedLines := truncatedLines + 1;
      }
      if suppresses(line) {
        suppressed := suppressed + 1;
        return;
      }
      if !bound {
        unlogged := unlogged + 1;
        return;
      }
      if hasRoom(written + dropped) {
        written := written + 1;
      } else {
        dropped := dropped + 1;
      }
    }

    /** A newline ends a line, or the discarding of one. */
    method TakeNewline()
      requires Valid()
      modifies this
      ensures Valid() && stream == old(stream) + [NEWLINE]
    {
      hide Accounts;
      ghost var before, carried, discarding := lines, carry, discardingOverlong;
      if discardingOverlong {
        discardingOverlong := false;
      } else {
        var text := if carry != [] && carry[|carry| - 1] == RETURN then carry[..|carry| - 1] else carry;
        WriteLine(Line(text, false));
      }
      NewlineFollows(stream, before, carried, discarding, lines);
      carry := [];
      stream := stream + [NEWLINE];
    }

    /** Any other byte is carried, unless the line is already past its cap. */
    method TakeOther(c: byte)
      requires Valid() && c != NEWLINE
      modifies this
      ensures Valid() && stream == old(stream) + [c]
    {
      hide Accounts;
      EmittedOther(stream, c);
      OneMore(stream, c);
      if !discardingOverlong {
        carry := carry + [c];
        if |carry| > LINE_CAP {
          assert carry[..LINE_CAP] == Open(stream);
          WriteLine(Line(carry[..LINE_CAP], true));
          discardingOverlong, carry := true, [];
        }
      }
      stream := stream + [c];
    }

    method Take(c: byte)
      requires Valid()
      modifies this
      ensures Valid() && stream == old(stream) + [c]
    {
      if c == NEWLINE {
        TakeNewline();
      } else {
        TakeOther(c);
      }
    }

    /** One read, of any length. */
    method ProcessChunk(chunk: seq<byte>)
      requires Valid()
      modifies this
      ensures Valid() && stream == old(stream) + chunk
    {
      hide Accounts;
      for i := 0 to |chunk|
        invariant Valid() && stream == old(stream) + chunk[..i]
      {
        Take(chunk[i]);
        TakeOneMore(chunk, i);
      }
      assert chunk[..|chunk|] == chunk;
    }

    /** End of stream: a final partial line is still a line. */
    method Finish()
      requires Valid()
      modifies this
      ensures Counted() && lines == Lines(old(stream))
    {
      hide Accounts;
      LinesAreClosedThenOpen(stream);
      if !discardingOverlong && carry != [] {
        WriteLine(Line(carry, false));
      }
    }
  }

  function Joined(chunks: seq<seq<byte>>): seq<byte> {
    if chunks == [] then [] else Joined(chunks[..|chunks| - 1]) + chunks[|chunks| - 1]
  }

  lemma JoinedMore(chunks: seq<seq<byte>>, i: nat)
    requires i < |chunks|
    ensures Joined(chunks[..i + 1]) == Joined(chunks[..i]) + chunks[i]
  {
    assert chunks[..i + 1][..i] == chunks[..i];
  }

  lemma JoinedNone(chunks: seq<seq<byte>>)
    ensures Joined(chunks[..0]) == []
  {}

  /** A whole stream through any partition into reads: the lines are those of the stream
      split at its newlines, and the four counters account for each of them once. */
  method CaptureAll(chunks: seq<seq<byte>>, suppresses: Line -> bool, bound: bool, hasRoom: nat -> bool)
    returns (lines: seq<Line>, captured: nat, truncated: nat, suppressed: nat, unlogged: nat, written: nat, dropped: nat)
    ensures lines == Lines(Joined(chunks))
    ensures Accounts(lines, suppresses, bound, hasRoom, captured, truncated, suppressed, unlogged, written, dropped)
  {
    hide Lines, Accounts, LineCapture.Valid, Joined;
    var capture := new LineCapture(suppresses, bound, hasRoom);
    JoinedNone(chunks);
    for i := 0 to |chunks|
      invariant capture.Valid() && capture.stream == Joined(chunks[..i]) && fresh(capture)
    {
      capture.ProcessChunk(chunks[i]);
      JoinedMore(chunks, i);
    }
    assert chunks[..|chunks|] == chunks;
    capture.Finish();
    lines, captured, truncated := capture.lines, capture.captured, capture.truncatedLines;
    suppressed, unlogged, written, dropped := capture.suppressed, capture.unlogged, capture.written, capture.dropped;
  }

  /** A 4096-byte line that ends in CRLF is over the cap: its carriage return counts. */
  lemma CrlfAtTheCap(text: seq<byte>)
    requires |text| == LINE_CAP && forall k :: 0 <= k < |text| ==> text[k] != NEWLINE
    ensures Lines(text + [RETURN, NEWLINE]) == [Line(text, true)]
    ensures text[|text| - 1] != RETURN ==> Lines(text + [NEWLINE]) == [Line(text, false)]
  {
    var s, t := text + [RETURN, NEWLINE], text + [NEWLINE];
    NewlineAt(s, LINE_CAP + 1);
    NewlineAt(t, LINE_CAP);
    assert s[..LINE_CAP + 1] == text + [RETURN] && s[LINE_CAP + 2..] == [];
    assert (text + [RETURN])[..LINE_CAP] == text;
    assert t[..LINE_CAP] == text && t[LINE_CAP + 1..] == [];
    assert Lines([]) == [];
  }

  lemma NewlineAt(s: seq<byte>, n: nat)
    requires n < |s| && s[n] == NEWLINE && forall k :: 0 <= k < n ==> s[k] != NEWLINE
    ensures FirstNewline(s) == n
  {
    assert FirstNewline(s) >= n;
  }
}
