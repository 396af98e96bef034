/** Windows command lines (include/sub0log/child.hpp:127-175): quoting an argument list into
    one string, against the backslash-and-quote rules CommandLineToArgvW splits it by. */
module Quoting {
  import opened Lists

  function Slashes(n: nat): (s: string)
    ensures |s| == n
  {
    seq(n, _ => '\\')
  }

  lemma MoreSlashes(n: nat)
    ensures Slashes(n + 1) == Slashes(n) + ['\\'] == ['\\'] + Slashes(n)
  {}

  // -------------------------------------------------------------- the splitter

  /** The rules, uniformly for every argument: white space outside quotes separates; a quote
      after 2n backslashes stands for n of them and switches quoting; after 2n + 1, for n of
      them and a quote; backslashes before anything else stand for themselves. `current` is
      the argument being read, `pending` the backslashes seen since. */
  function Split(s: string, current: string, inArg: bool, quoted: bool, pending: nat): seq<string>
    decreases |s|
  {
    if s == [] then (if inArg then [current + Slashes(pending)] else [])
    else
      var c, rest := s[0], s[1..];
      if c == '\\' then Split(rest, current, true, quoted, pending + 1)
      else if c == '"' then
        if pending % 2 == 1 then Split(rest, current + Slashes(pending / 2) + ['"'], true, quoted, 0)
        else Split(rest, current + Slashes(pending / 2), true, !quoted, 0)
      else if (c == ' ' || c == '\t') && !quoted then
        if inArg then [current + Slashes(pending)] + Split(rest, [], false, false, 0)
        else Split(rest, [], false, false, 0)
      else Split(rest, current + Slashes(pending) + [c], true, quoted, 0)
  }

  function Arguments(line: string): seq<string> { Split(line, [], false, false, 0) }

  // ---------------------------------------------------------------- the quoter

  predicate Plain(arg: string) {
    arg != [] && forall k :: 0 <= k < |arg| ==> arg[k] != ' ' && arg[k] != '\t' && arg[k] != '"'
  }

  /** The text between the quotes, with n backslashes already seen but not yet written. */
  function QuotedBody(arg: string, n: nat): string
    decreases |arg|
  {
    if arg == [] then Slashes(2 * n)
    else if arg[0] == '\\' then QuotedBody(arg[1..], n + 1)
    else if arg[0] == '"' then Slashes(2 * n + 1) + ['"'] + QuotedBody(arg[1..], 0)
    else Slashes(n) + [arg[0]] + QuotedBody(arg[1..], 0)
  }

  function QuotedArgument(arg: string): string {
    if Plain(arg) then arg else ['"'] + QuotedBody(arg, 0) + ['"']
  }

  function CommandLine(argv: seq<string>): string {
    if argv == [] then []
    else if |argv| == 1 then QuotedArgument(argv[0])
    else QuotedArgument(argv[0]) + [' '] + CommandLine(argv[1..])
  }

  lemma {:induction false} BodySize(arg: string, n: nat)
    ensures |QuotedBody(arg, n)| >= |arg| + n
    decreases |arg|
  {
    if arg != [] {
      BodySize(arg[1..], if arg[0] == '\\' then n + 1 else 0);
    }
  }

  /** An argument is left as it is exactly when nothing in it needs quoting. */
  lemma QuotedIffNeeded(arg: string)
    ensures QuotedArgument(arg) == arg
            <==> arg != [] && forall k :: 0 <= k < |arg| ==> arg[k] !in {' ', '\t', '"'}
  {
    BodySize(arg, 0);
  }

  /** Arguments are set off by one space each. */
  lemma {:induction false} OneSpaceBetween(a: seq<string>, b: seq<string>)
    requires a != [] && b != []
    ensures CommandLine(a + b) == CommandLine(a) + [' '] + CommandLine(b)
    decreases |a|
  {
    hide QuotedArgument;
    assert (a + b)[1..] == a[1..] + b;
    if |a| > 1 {
      OneSpaceBetween(a[1..], b);
    }
  }

  method QuoteArgument(arg: string) returns (out: string)
    ensures out == QuotedArgument(arg)
  {
    var special := arg == [];
    for i := 0 to |arg|
      invariant special <==> arg == [] || exists k :: 0 <= k < i && (arg[k] == ' ' || arg[k] == '\t' || arg[k] == '"')
    {
      if arg[i] == ' ' || arg[i] == '\t' || arg[i] == '"' {
        special := true;
      }
    }
    if !special {
      return arg;
    }
    var body := [];
    var backslashes := 0;
    assert arg[0..] == arg;
    for i := 0 to |arg|
      invariant body + QuotedBody(arg[i..], backslashes) == QuotedBody(arg, 0)
    {
      var c := arg[i];
      assert arg[i..][1..] == arg[i + 1..];
      ghost var before := body;
      if c == '\\' {
        backslashes := backslashes + 1;
      } else if c == '"' {
        body := body + (Slashes(backslashes * 2 + 1) + ['"']);
        Regroup(before, Slashes(backslashes * 2 + 1) + ['"'], QuotedBody(arg[i + 1..], 0));
        backslashes := 0;
      } else {
        body := body + (Slashes(backslashes) + [c]);
        Regroup(before, Slashes(backslashes) + [c], QuotedBody(arg[i + 1..], 0));
        backslashes := 0;
      }
    }
    assert arg[|arg|..] == [];
    out := ['"'] + (body + Slashes(backslashes * 2)) + ['"'];
  }

  lemma Regroup(a: string, b: string, c: string)
    ensures (a + b) + c == a + (b + c)
  {}

  method BuildCommandLine(argv: seq<string>) returns (line: string)
    ensures line == CommandLine(argv)
  {
    line := [];
    for i := 0 to |argv|
      invariant line == CommandLine(argv[..i])
    {
      var quoted := QuoteArgument(argv[i]);
      OneMoreArgument(argv, i);
      line := line + (if i != 0 then [' '] + quoted else quoted);
    }
    assert argv[..|argv|] == argv;
  }

  lemma LineAppend(argv: seq<string>, arg: string)
    requires argv != []
    ensures CommandLine(argv + [arg]) == CommandLine(argv) + ([' '] + QuotedArgument(arg))
  {
    hide QuotedArgument;
    OneSpaceBetween(argv, [arg]);
    Regroup(CommandLine(argv), [' '], QuotedArgument(arg));
  }

  lemma OneMoreArgument(argv: seq<string>, i: nat)
    requires i < |argv|
    ensures CommandLine(argv[..i + 1])
            == CommandLine(argv[..i]) + (if i != 0 then [' '] + QuotedArgument(argv[i]) else QuotedArgument(argv[i]))
  {
    TakeOneMore(argv, i);
    if i == 0 {
      assert argv[..1] == [argv[0]] && argv[..0] == [];
    } else {
      LineAppend(argv[..i], argv[i]);
    }
  }

  // -------------------------------------------------------------- round trip

  lemma {:induction false} SlashesSplit(k: nat, s: string, current: string, quoted: bool, pending: nat)
    ensures Split(Slashes(k) + s, current, true, quoted, pending) == Split(s, current, true, quoted, pending + k)
    decreases k
  {
    if k == 0 {
      assert Slashes(0) + s == s;
    } else {
      MoreSlashes(k - 1);
      assert (Slashes(k) + s)[1..] == Slashes(k - 1) + s;
      SlashesSplit(k - 1, s, current, quoted, pending + 1);
    }
  }

  /** A quoted body splits back to its argument and leaves quoting at the closing quote. */
  lemma {:induction false} BodySplits(arg: string, n: nat, current: string, tail: string)
    ensures Split(QuotedBody(arg, n) + ['"'] + tail, current, true, true, 0)
            == Split(tail, current + Slashes(n) + arg, true, false, 0)
    decreases |arg|
  {
    if arg == [] {
      SlashesSplit(2 * n, ['"'] + tail, current, true, 0);
      assert QuotedBody(arg, n) + ['"'] + tail == Slashes(2 * n) + (['"'] + tail);
      assert (['"'] + tail)[1..] == tail && current + Slashes(n) + arg == current + Slashes(n);
    } else if arg[0] == '\\' {
      BodySplits(arg[1..], n + 1, current, tail);
      MoreSlashes(n);
      assert arg == ['\\'] + arg[1..];
      assert current + Slashes(n + 1) + arg[1..] == current + Slashes(n) + arg;
    } else {
      var rest := QuotedBody(arg[1..], 0) + ['"'] + tail;
      BodyUnfolds(arg, n, tail, rest);
      CharSplits(arg[0], n, rest, current);
      BodySplits(arg[1..], 0, current + Slashes(n) + [arg[0]], tail);
      CurrentGrows(current, n, arg);
    }
  }

  lemma BodyUnfolds(arg: string, n: nat, tail: string, rest: string)
    requires arg != [] && arg[0] != '\\' && rest == QuotedBody(arg[1..], 0) + ['"'] + tail
    ensures QuotedBody(arg, n) + ['"'] + tail
            == Slashes(if arg[0] == '"' then 2 * n + 1 else n) + ([arg[0]] + rest)
  {}

  lemma CurrentGrows(current: string, n: nat, arg: string)
    requires arg != []
    ensures current + Slashes(n) + [arg[0]] + Slashes(0) + arg[1..] == current + Slashes(n) + arg
  {
    assert arg == [arg[0]] + arg[1..];
  }

  /** A character inside quotes, with its backslashes as the quoter writes them. */
  lemma CharSplits(c: char, n: nat, rest: string, current: string)
    requires c != '\\'
    ensures Split(Slashes(if c == '"' then 2 * n + 1 else n) + ([c] + rest), current, true, true, 0)
            == Split(rest, current + Slashes(n) + [c], true, true, 0)
  {
    SlashesSplit(if c == '"' then 2 * n + 1 else n, [c] + rest, current, true, 0);
    assert ([c] + rest)[1..] == rest;
  }

  /** Where an argument ends: at the end of the line or at a space. */
  predicate Ends(tail: string) { tail == [] || tail[0] == ' ' }

  function AfterEnd(tail: string): seq<string> {
    if tail == [] then [] else Split(tail[1..], [], false, false, 0)
  }

  lemma EndSplits(tail: string, current: string, pending: nat)
    requires Ends(tail)
    ensures Split(tail, current, true, false, pending) == [current + Slashes(pending)] + AfterEnd(tail)
  {}

  /** A plain argument splits back to itself, backslashes and all. */
  lemma {:induction false} PlainSplits(arg: string, pending: nat, current: string, tail: string)
    requires Ends(tail) && forall k :: 0 <= k < |arg| ==> arg[k] != ' ' && arg[k] != '\t' && arg[k] != '"'
    ensures Split(arg + tail, current, true, false, pending) == [current + Slashes(pending) + arg] + AfterEnd(tail)
    decreases |arg|
  {
    if arg == [] {
      assert arg + tail == tail && current + Slashes(pending) + arg == current + Slashes(pending);
      EndSplits(tail, current, pending);
    } else {
      assert (arg + tail)[1..] == arg[1..] + tail && arg == [arg[0]] + arg[1..];
      if arg[0] == '\\' {
        PlainSplits(arg[1..], pending + 1, current, tail);
        MoreSlashes(pending);
        assert current + Slashes(pending + 1) + arg[1..] == current + Slashes(pending) + arg;
      } else {
        var next := current + Slashes(pending) + [arg[0]];
        PlainSplits(arg[1..], 0, next, tail);
        assert next + Slashes(0) + arg[1..] == current + Slashes(pending) + arg;
      }
    }
  }

  /** One argument, whatever follows it. */
  lemma ArgumentSplits(arg: string, tail: string)
    requires Ends(tail)
    ensures Arguments(QuotedArgument(arg) + tail) == [arg] + AfterEnd(tail)
  {
    if Plain(arg) {
      PlainSplits(arg, 0, [], tail);
      FirstIsInside(arg + tail);
      assert [] + Slashes(0) + arg == arg;
    } else {
      var body := QuotedBody(arg, 0) + ['"'] + tail;
      assert QuotedArgument(arg) + tail == ['"'] + body;
      OpenQuote(body);
      BodySplits(arg, 0, [], tail);
      assert [] + Slashes(0) + arg == arg;
      EndSplits(tail, arg, 0);
      assert arg + Slashes(0) == arg;
    }
  }

  lemma OpenQuote(body: string)
    ensures Arguments(['"'] + body) == Split(body, [], true, true, 0)
  {
    assert (['"'] + body)[1..] == body && [] + Slashes(0) == [];
  }

  lemma FirstIsInside(s: string)
    requires s != [] && s[0] != ' ' && s[0] != '\t'
    ensures Split(s, [], false, false, 0) == Split(s, [], true, false, 0)
  {}

  /** Every list of arguments survives: empty ones, spaces, quotes, runs of backslashes. */
  lemma {:induction false} CommandLineRoundTrip(argv: seq<string>)
    ensures Arguments(CommandLine(argv)) == argv
    decreases |argv|
  {
    if |argv| == 1 {
      assert QuotedArgument(argv[0]) + [] == QuotedArgument(argv[0]);
      ArgumentSplits(argv[0], []);
    } else if |argv| > 1 {
      var tail := [' '] + CommandLine(argv[1..]);
      assert CommandLine(argv) == QuotedArgument(argv[0]) + tail;
      ArgumentSplits(argv[0], tail);
      assert tail[1..] == CommandLine(argv[1..]);
      CommandLineRoundTrip(argv[1..]);
    }
  }
}
