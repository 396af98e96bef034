/** The loops that size and encode an argument list (include/sub0log/encode.hpp:178-264,
    include/sub0log/detail/emit.hpp:362-446). */
module Encoder {
  import opened Bytes
  import opened Lists
  import opened Wire
  import opened Layout
  import opened Decoder
  import opened Encode
  import opened Groups
  import opened Writer

  /** A C string's length, never scanning more than one byte past the ceiling: enough to
      tell "longer than the ceiling" from "exactly at it". */
  method BoundedLength(memory: seq<byte>, start: nat) returns (n: nat)
    requires start <= |memory|
    requires exists z :: start <= z < |memory| && memory[z] == 0
    ensures n <= ARG_CEILING + 1 && start + n < |memory|
    ensures forall i :: start <= i < start + n ==> memory[i] != 0
    ensures n <= ARG_CEILING ==> memory[start + n] == 0
  {
    n := 0;
    while n <= ARG_CEILING && memory[start + n] != 0
      invariant n <= ARG_CEILING + 1 && start + n < |memory|
      invariant forall i :: start <= i < start + n ==> memory[i] != 0
      invariant exists z :: start + n <= z < |memory| && memory[z] == 0
      decreases |memory| - n
    {
      n := n + 1;
    }
  }

  lemma {:induction false} EncodeSnoc(args: seq<Arg>, a: Arg)
    requires ArgOk(a) && forall k :: 0 <= k < |args| ==> ArgOk(args[k])
    ensures EncodeArgs(args + [a]) == EncodeArgs(args) + EncodeArg(a)
    decreases |args|
  {
    if args == [] {
      assert args + [a] == [a] && [a][1..] == [];
    } else {
      assert (args + [a])[1..] == args[1..] + [a];
      EncodeSnoc(args[1..], a);
    }
  }

  lemma {:induction false} ConcatSnoc<T>(parts: seq<seq<T>>, part: seq<T>)
    ensures Concat(parts + [part]) == Concat(parts) + part
    decreases |parts|
  {
    if parts == [] {
      assert parts + [part] == [part] && Concat([part]) == part + Concat([part][1..]);
    } else {
      assert (parts + [part])[1..] == parts[1..] + [part];
      ConcatSnoc(parts[1..], part);
    }
  }

  /** Writes every argument after the last, advancing the output. */
  method EncodeAll(args: seq<Arg>) returns (out: seq<byte>)
    requires forall k :: 0 <= k < |args| ==> ArgOk(args[k])
    ensures out == EncodeArgs(args)
  {
    out := [];
    for i := 0 to |args|
      invariant out == EncodeArgs(args[..i])
    {
      assert args[..i + 1] == args[..i] + [args[i]];
      EncodeSnoc(args[..i], args[i]);
      if args[i].AText? {
        var n := Min(|args[i].bytes|, INLINE_BYTES_CAP);
        out := out + (Le16(n) + args[i].bytes[..n]);
      } else {
        out := out + EncodeFixed(args[i]);
      }
    }
    assert args[..|args|] == args;
  }

  /** One argument: its inline size, what overruns the cap, whether it is past the ceiling. */
  method SizeOne(a: Arg, i: nat) returns (n: nat, over: seq<Overrun>, past: bool)
    requires ArgOk(a)
    ensures n == |EncodeArg(a)| && past == (a.AText? && |a.bytes| > ARG_CEILING)
    ensures FlatMap(OverrunsLinks(), over) == OwnLinks(i, a) && (over == [] <==> OwnLinks(i, a) == [])
  {
    over, past := [], false;
    if a.AText? {
      var length := |a.bytes|;
      if length > ARG_CEILING {
        length, past := ARG_CEILING, true;
      }
      var inl := Min(length, INLINE_BYTES_CAP);
      n := 2 + inl;
      if length > inl {
        over := [Overrun(i, a.bytes[inl..length])];
        assert over[0].data == Overflow(a);
        SoleFlatMap(OverrunsLinks(), over[0]);
      }
    } else {
      n := |EncodeFixed(a)|;
    }
  }

  lemma SoleFlatMap<A, B>(f: A -> seq<B>, x: A)
    ensures FlatMap(f, [x]) == f(x)
  {
    assert FlatMap(f, [x]) == f(x) + FlatMap(f, [x][1..]);
  }

  /** One pass over the arguments: the inline size, what overruns the cap, and whether any
      text is past the ceiling. */
  method SizeArgs(args: seq<Arg>) returns (argsBytes: nat, overruns: seq<Overrun>, pastCeiling: bool)
    requires ArgsOk(args)
    ensures argsBytes == |EncodeArgs(args)|
    ensures FlatMap(OverrunsLinks(), overruns) == Links(args) && (overruns == [] <==> Links(args) == [])
    ensures pastCeiling == Exceeds(args, ARG_CEILING)
  {
    argsBytes, overruns, pastCeiling := 0, [], false;
    ghost var groups := LinkGroups(args);
    for i := 0 to |args|
      invariant argsBytes == |EncodeArgs(args[..i])|
      invariant FlatMap(OverrunsLinks(), overruns) == Concat(groups[..i])
      invariant overruns == [] <==> Concat(groups[..i]) == []
      invariant pastCeiling == Exceeds(args[..i], ARG_CEILING)
    {
      var n, over, past := SizeOne(args[i], i);
      TakeOneMore(args, i);
      TakeOneMore(groups, i);
      EncodeSnoc(args[..i], args[i]);
      ExceedsSnoc(args[..i], args[i], ARG_CEILING);
      ConcatSnoc(groups[..i], groups[i]);
      FlatMapAppend(OverrunsLinks(), overruns, over);
      argsBytes, overruns, pastCeiling := argsBytes + n, overruns + over, pastCeiling || past;
    }
    assert args[..|args|] == args && groups[..|args|] == groups;
  }

  lemma ExceedsSnoc(args: seq<Arg>, a: Arg, cap: nat)
    ensures Exceeds(args + [a], cap) <==> Exceeds(args, cap) || (a.AText? && |a.bytes| > cap)
  {
    var all := args + [a];
    if Exceeds(args, cap) {
      var k :| 0 <= k < |args| && args[k].AText? && |args[k].bytes| > cap;
      assert all[k] == args[k];
    }
    if a.AText? && |a.bytes| > cap {
      assert all[|args|] == a;
    }
  }
}
