/** What a call site writes: arguments, definitions and continuation chains
    (include/sub0log/encode.hpp, include/sub0log/detail/emit.hpp:47-537). */
module Encode {
  import opened Bytes
  import opened Lists
  import opened Wire
  import opened Layout
  import opened Chains
  import opened Decoder

  // -------------------------------------------------------------- arguments

  /** An argument as the call site typed it. */
  datatype Arg =
    | ABool(b: bool)
    | AChar(c: byte)
    | AInt(code: nat, i: int)
    | AUint(code: nat, u: nat)       // unsigned integers and pointers
    | AFloat(code: nat, bits: seq<byte>)
    | AText(bytes: seq<byte>)        // views, strings and C strings

  function Limit(size: nat): int {
    if size == 1 then 256 else if size == 2 then TWO16 else if size == 4 then TWO32 else TWO64
  }

  predicate ArgOk(a: Arg) {
    match a
    case AInt(code, i) =>
      code in {T_I8, T_I16, T_I32, T_I64} && -Limit(FixedSizeOf(code)) / 2 <= i < Limit(FixedSizeOf(code)) / 2
    case AUint(code, u) => code in {T_U8, T_U16, T_U32, T_U64, T_POINTER} && u < Limit(FixedSizeOf(code))
    case AFloat(code, bits) => code in {T_F32, T_F64} && |bits| == FixedSizeOf(code)
    case _ => true
  }

  predicate ArgsOk(args: seq<Arg>) {
    |args| <= 255 && forall k :: 0 <= k < |args| ==> ArgOk(args[k])
  }

  function TypeOf(a: Arg): byte
    requires ArgOk(a)
  {
    match a
    case ABool(_) => T_BOOL
    case AChar(_) => T_CHAR
    case AInt(code, _) => code
    case AUint(code, _) => code
    case AFloat(code, _) => code
    case AText(_) => T_BYTES
  }

  function TypesOf(args: seq<Arg>): (t: seq<byte>)
    requires forall k :: 0 <= k < |args| ==> ArgOk(args[k])
    ensures |t| == |args|
  {
    seq(|args|, k requires 0 <= k < |args| => TypeOf(args[k]))
  }

  function WordBytes(v: nat, size: nat): (s: seq<byte>)
    requires size in {1, 2, 4, 8} && v < Limit(size)
    ensures |s| == size
  {
    if size == 1 then [v] else if size == 2 then Le16(v) else if size == 4 then Le32(v) else Le64(v)
  }

  function EncodeFixed(a: Arg): (s: seq<byte>)
    requires ArgOk(a) && !a.AText?
    ensures |s| == FixedSizeOf(TypeOf(a)) != 0
  {
    match a
    case ABool(b) => [if b then 1 else 0]
    case AChar(c) => [c]
    case AInt(code, i) =>
      WordBytes(if i < 0 then i + Limit(FixedSizeOf(code)) else i, FixedSizeOf(code))
    case AUint(code, u) => WordBytes(u, FixedSizeOf(code))
    case AFloat(_, bits) => bits
  }

  /** An argument whose text was cut to `cap` bytes, as a reader should see it. */
  function Seen(a: Arg, cap: nat): DecodedArg {
    match a
    case ABool(b) => Boolean(b)
    case AChar(c) => Character(c)
    case AInt(_, i) => Signed(i)
    case AUint(_, u) => Unsigned(u)
    case AFloat(_, bits) => Float(bits)
    case AText(bytes) => Text(bytes[..Min(|bytes|, cap)])
  }

  function SeenAll(args: seq<Arg>, cap: nat): (r: seq<DecodedArg>)
    ensures |r| == |args|
  {
    seq(|args|, k requires 0 <= k < |args| => Seen(args[k], cap))
  }

  lemma WordRoundTrip(v: nat, size: nat)
    requires size in {1, 2, 4, 8} && v < Limit(size)
    ensures Word(WordBytes(v, size)) == v
  {
    var s := WordBytes(v, size);
    assert s[0..size] == s;
    if size == 2 {
      LoadLe16(s, 0, v);
    } else if size == 4 {
      LoadLe32(s, 0, v);
    } else if size == 8 {
      LoadLe64(s, 0, v);
    }
  }

  lemma SignedRoundTrip(i: int, size: nat)
    requires size in {1, 2, 4, 8} && -Limit(size) / 2 <= i < Limit(size) / 2
    ensures TwosComplement(if i < 0 then i + Limit(size) else i, 8 * size) == i
  {}

  /** Every fixed-size value survives the wire, sign included. */
  lemma FixedRoundTrip(a: Arg, cap: nat)
    requires ArgOk(a) && !a.AText?
    ensures DecodeFixed(TypeOf(a), EncodeFixed(a)) == Seen(a, cap)
  {
    hide WordBytes, Word, TwosComplement;
    match a
    case AInt(code, i) =>
      var size := FixedSizeOf(code);
      WordRoundTrip(if i < 0 then i + Limit(size) else i, size);
      SignedRoundTrip(i, size);
    case AUint(code, u) =>
      WordRoundTrip(u, FixedSizeOf(code));
    case _ =>
  }

  /** The inline encoding: fixed values raw, text as a u16 length and at most 512 bytes. */
  function EncodeArg(a: Arg): seq<byte>
    requires ArgOk(a)
  {
    if a.AText? then Le16(Min(|a.bytes|, INLINE_BYTES_CAP)) + a.bytes[..Min(|a.bytes|, INLINE_BYTES_CAP)]
    else EncodeFixed(a)
  }

  function EncodeArgs(args: seq<Arg>): seq<byte>
    requires forall k :: 0 <= k < |args| ==> ArgOk(args[k])
  {
    if args == [] then [] else EncodeArg(args[0]) + EncodeArgs(args[1..])
  }

  lemma TakeTextBack(text: seq<byte>, rest: seq<byte>)
    requires |text| < TWO16
    ensures TakeText(Le16(|text|) + text + rest) == Some((text, rest))
  {
    var s := Le16(|text|) + text + rest;
    assert s[0..2] == Le16(|text|);
    LoadLe16(s, 0, |text|);
    assert s[2..2 + |text|] == text && s[2 + |text|..] == rest;
  }

  lemma ArgRoundTrip(a: Arg, types: seq<byte>, tail: seq<byte>)
    requires ArgOk(a)
    ensures ParseArgs([TypeOf(a)] + types, EncodeArg(a) + tail)
            == match ParseArgs(types, tail)
               case None => None
               case Some(args) => Some([Seen(a, INLINE_BYTES_CAP)] + args)
  {
    var s, ts := EncodeArg(a) + tail, [TypeOf(a)] + types;
    assert ts[0] == TypeOf(a) && ts[1..] == types;
    if a.AText? {
      TakeTextBack(a.bytes[..Min(|a.bytes|, INLINE_BYTES_CAP)], tail);
    } else {
      FixedRoundTrip(a, INLINE_BYTES_CAP);
      assert s[..|EncodeFixed(a)|] == EncodeFixed(a) && s[|EncodeFixed(a)|..] == tail;
    }
  }

  /** Parsing what was encoded, whatever bytes follow, gives every argument back up to the inline cap. */
  lemma {:induction false} ArgsRoundTrip(args: seq<Arg>, rest: seq<byte>)
    requires forall k :: 0 <= k < |args| ==> ArgOk(args[k])
    ensures ParseArgs(TypesOf(args), EncodeArgs(args) + rest) == Some(SeenAll(args, INLINE_BYTES_CAP))
    decreases |args|
  {
    if args == [] {
      assert SeenAll(args, INLINE_BYTES_CAP) == [];
    } else {
      hide ParseArgs, EncodeArg, Seen, TypeOf, EncodeArgs, TypesOf, SeenAll;
      EncodeUnfold(args, rest);
      ArgRoundTrip(args[0], TypesOf(args[1..]), EncodeArgs(args[1..]) + rest);
      ArgsRoundTrip(args[1..], rest);
    }
  }

  /** The encoding, the types and the readings of a list, first argument first. */
  lemma EncodeUnfold(args: seq<Arg>, rest: seq<byte>)
    requires args != [] && forall k :: 0 <= k < |args| ==> ArgOk(args[k])
    ensures EncodeArgs(args) + rest == EncodeArg(args[0]) + (EncodeArgs(args[1..]) + rest)
    ensures TypesOf(args) == [TypeOf(args[0])] + TypesOf(args[1..])
    ensures SeenAll(args, INLINE_BYTES_CAP) == [Seen(args[0], INLINE_BYTES_CAP)] + SeenAll(args[1..], INLINE_BYTES_CAP)
  {
    hide EncodeArg, Seen, TypeOf;
    Regroup(EncodeArg(args[0]), EncodeArgs(args[1..]), rest);
    TypesUnfold(args);
    SeenUnfold(args);
  }

  lemma TypesUnfold(args: seq<Arg>)
    requires args != [] && forall k :: 0 <= k < |args| ==> ArgOk(args[k])
    ensures TypesOf(args) == [TypeOf(args[0])] + TypesOf(args[1..])
  {
    hide TypeOf;
  }

  lemma SeenUnfold(args: seq<Arg>)
    requires args != []
    ensures SeenAll(args, INLINE_BYTES_CAP) == [Seen(args[0], INLINE_BYTES_CAP)] + SeenAll(args[1..], INLINE_BYTES_CAP)
  {
    hide Seen;
  }

  // ------------------------------------------------------------ definitions

  predicate SiteOk(s: Site) {
    && s.id < TWO64 && s.subsystem < TWO32 && s.line < TWO32 && s.severity < 256 && |s.types| <= 255
  }

  function DefinitionBytes(argCount: nat, formatLen: nat, fileLen: nat): nat {
    SITE_PREFIX + argCount + 2 + formatLen + 2 + fileLen
  }

  function DefinitionPayload(s: Site, formatLen: nat, fileLen: nat): (p: seq<byte>)
    requires SiteOk(s) && formatLen <= |s.format| && fileLen <= |s.file|
    requires formatLen < TWO16 && fileLen < TWO16
    ensures |p| == DefinitionBytes(|s.types|, formatLen, fileLen)
  {
    Le64(s.id) + Le32(s.subsystem) + Le32(s.line) + [s.severity, |s.types|] + Zeros(6) + s.types
    + Le16(formatLen) + s.format[..formatLen] + Le16(fileLen) + s.file[..fileLen]
  }

  /** A definition reads back with the strings it had room for and every type code. */
  lemma DefinitionRoundTrip(s: Site, formatLen: nat, fileLen: nat)
    requires SiteOk(s) && formatLen <= |s.format| && fileLen <= |s.file|
    requires formatLen < TWO16 && fileLen < TWO16
    ensures ParseSite(DefinitionPayload(s, formatLen, fileLen))
            == Some(s.(format := s.format[..formatLen], file := s.file[..fileLen]))
  {
    var p := DefinitionPayload(s, formatLen, fileLen);
    var prefix := Le64(s.id) + Le32(s.subsystem) + Le32(s.line) + [s.severity, |s.types|] + Zeros(6);
    var format := Le16(formatLen) + s.format[..formatLen];
    var file := Le16(fileLen) + s.file[..fileLen];
    assert p == prefix + s.types + (format + file);
    DefinitionPrefix(prefix, s.id, s.subsystem, s.line, s.severity, |s.types|, s.types + (format + file));
    assert p == prefix + (s.types + (format + file));
    assert p[SITE_PREFIX..SITE_PREFIX + |s.types|] == s.types;
    assert p[SITE_PREFIX + |s.types|..] == format + file;
    TakeTextBack(s.format[..formatLen], file);
    assert file + [] == file;
    TakeTextBack(s.file[..fileLen], []);
  }

  lemma DefinitionPrefix(prefix: seq<byte>, id: nat, subsystem: nat, line: nat, severity: byte, count: byte,
                         rest: seq<byte>)
    requires id < TWO64 && subsystem < TWO32 && line < TWO32
    requires prefix == Le64(id) + Le32(subsystem) + Le32(line) + [severity, count] + Zeros(6)
    ensures var p := prefix + rest;
            && U64(p, 0) == id && U32(p, 8) == subsystem && U32(p, 12) == line
            && p[16] == severity && p[17] == count
  {
    var p := prefix + rest;
    assert p[0..8] == Le64(id) && p[8..12] == Le32(subsystem) && p[12..16] == Le32(line);
    LoadLe64(p, 0, id);
    LoadLe32(p, 8, subsystem);
    LoadLe32(p, 12, line);
  }

  // ----------------------------------------------------------------- chains

  /** The bytes of a text argument past the inline cap that a chain may carry. */
  function Overflow(a: Arg): seq<byte> {
    if a.AText? && |a.bytes| > INLINE_BYTES_CAP then a.bytes[INLINE_BYTES_CAP..Min(|a.bytes|, ARG_CEILING)] else []
  }

  function Slices(data: seq<byte>): (r: seq<seq<byte>>)
    ensures forall k :: 0 <= k < |r| ==> 0 < |r[k]| <= INLINE_BYTES_CAP
  {
    if data == [] then []
    else
      var n := Min(|data|, INLINE_BYTES_CAP);
      [data[..n]] + Slices(data[n..])
  }

  /** Slices lose nothing, and none but the last is short: a chain is as few links as it can be. */
  lemma {:induction false} SlicesAreFull(data: seq<byte>)
    ensures Concat(Slices(data)) == data
    ensures forall k :: 0 <= k < |Slices(data)| - 1 ==> |Slices(data)[k]| == INLINE_BYTES_CAP
    ensures (|Slices(data)| - 1) * INLINE_BYTES_CAP < |data| <= |Slices(data)| * INLINE_BYTES_CAP || data == []
    decreases |data|
  {
    if data != [] {
      var n := Min(|data|, INLINE_BYTES_CAP);
      SlicesAreFull(data[n..]);
      assert data == data[..n] + data[n..];
      forall k | 0 <= k < |Slices(data)| - 1
        ensures |Slices(data)[k]| == INLINE_BYTES_CAP
      {
        if k > 0 {
          assert Slices(data)[k] == Slices(data[n..])[k - 1];
        }
      }
    }
  }

  /** A slice and the argument it extends. */
  datatype Link = Link(arg: nat, slice: seq<byte>)

  function LinksOf(k: nat, slices: seq<seq<byte>>): (r: seq<Link>)
    ensures |r| == |slices|
  {
    seq(|slices|, i requires 0 <= i < |slices| => Link(k, slices[i]))
  }

  function OwnLinks(k: nat, a: Arg): seq<Link> { LinksOf(k, Slices(Overflow(a))) }

  function LinkGroups(args: seq<Arg>): (r: seq<seq<Link>>)
    ensures |r| == |args|
  {
    seq(|args|, k requires 0 <= k < |args| => OwnLinks(k, args[k]))
  }

  function Concat<T>(parts: seq<seq<T>>): seq<T> {
    if parts == [] then [] else parts[0] + Concat(parts[1..])
  }

  /** Argument by argument, the slices of everything that did not fit inline. */
  function Links(args: seq<Arg>): seq<Link> { Concat(LinkGroups(args)) }

  predicate LinkOk(l: Link) { l.arg < 256 && |l.slice| <= INLINE_BYTES_CAP }

  function MessagePayload(site: nat, monoNs: nat, correlation: nat, body: seq<byte>): (p: seq<byte>)
    requires site < TWO64 && monoNs < TWO64 && correlation < TWO64
    ensures |p| == MESSAGE_PREFIX + |body|
  {
    Le64(site) + Le64(monoNs) + Le64(correlation) + body
  }

  function ContinuationRec(site: nat, l: Link, more: bool): Rec
    requires site < TWO64 && LinkOk(l)
  {
    Rec(CONTINUATION, Flags(false, more), Le64(site) + [l.arg] + Zeros(7) + l.slice)
  }

  /** Every link but the last promises another. */
  function ContinuationRecs(site: nat, links: seq<Link>): (r: seq<Rec>)
    requires site < TWO64 && forall k :: 0 <= k < |links| ==> LinkOk(links[k])
    ensures |r| == |links| && RecsOk(r)
  {
    if links == [] then []
    else [ContinuationRec(site, links[0], |links| > 1)] + ContinuationRecs(site, links[1..])
  }

  // ------------------------------------------------ joining a chain back up

  /** Appending one link's slice to the argument it names. */
  function Extend(args: seq<DecodedArg>, l: Link): seq<DecodedArg> {
    if l.arg < |args| && args[l.arg].Text? then args[l.arg := Text(args[l.arg].bytes + l.slice)] else args
  }

  function ExtendAll(args: seq<DecodedArg>, links: seq<Link>): seq<DecodedArg>
    decreases |links|
  {
    if links == [] then args else ExtendAll(Extend(args, links[0]), links[1..])
  }

  lemma {:induction false} ExtendConcat(args: seq<DecodedArg>, a: seq<Link>, b: seq<Link>)
    ensures ExtendAll(args, a + b) == ExtendAll(ExtendAll(args, a), b)
    decreases |a|
  {
    if a == [] {
      assert a + b == b;
    } else {
      assert (a + b)[1..] == a[1..] + b;
      ExtendConcat(Extend(args, a[0]), a[1..], b);
    }
  }

  /** All slices of one argument together append exactly its data. */
  lemma {:induction false} ExtendOne(args: seq<DecodedArg>, k: nat, data: seq<byte>)
    requires k < |args| && args[k].Text?
    ensures ExtendAll(args, LinksOf(k, Slices(data))) == args[k := Text(args[k].bytes + data)]
    decreases |data|
  {
    var links := LinksOf(k, Slices(data));
    if data == [] {
      assert args[k].bytes + data == args[k].bytes;
    } else {
      var n := Min(|data|, INLINE_BYTES_CAP);
      var next := args[k := Text(args[k].bytes + data[..n])];
      assert links[0] == Link(k, data[..n]);
      assert links[1..] == LinksOf(k, Slices(data[n..]));
      ExtendOne(next, k, data[n..]);
      assert data == data[..n] + data[n..];
      assert args[k].bytes + data == (args[k].bytes + data[..n]) + data[n..];
    }
  }

  /** One argument's own links complete it and touch no other. */
  lemma OwnLinksComplete(state: seq<DecodedArg>, k: nat, a: Arg)
    requires k < |state| && state[k] == Seen(a, INLINE_BYTES_CAP)
    ensures ExtendAll(state, OwnLinks(k, a)) == state[k := Seen(a, ARG_CEILING)]
  {
    if a.AText? {
      ExtendOne(state, k, Overflow(a));
      var m := Min(|a.bytes|, INLINE_BYTES_CAP);
      assert a.bytes[..m] + Overflow(a) == a.bytes[..Min(|a.bytes|, ARG_CEILING)];
    } else {
      assert state[k := Seen(a, ARG_CEILING)] == state;
    }
  }

  /** These links turn position i, and nothing else, from one value into another. */
  ghost predicate Turns(links: seq<Link>, i: nat, from: DecodedArg, to: DecodedArg) {
    forall state: seq<DecodedArg> :: i < |state| && state[i] == from ==> ExtendAll(state, links) == state[i := to]
  }

  /** Link groups that each turn their own position turn all of them. */
  lemma {:induction false} GroupsComplete(start: seq<DecodedArg>, finish: seq<DecodedArg>,
                                          groups: seq<seq<Link>>, k: nat)
    requires |start| == |finish| == |groups| && k <= |groups|
    requires forall i :: 0 <= i < |groups| ==> Turns(groups[i], i, start[i], finish[i])
    ensures ExtendAll(finish[..k] + start[k..], Concat(groups[k..])) == finish
    decreases |groups| - k
  {
    if k == |groups| {
      assert finish[..k] + start[k..] == finish && groups[k..] == [];
    } else {
      var state, next := finish[..k] + start[k..], finish[..k + 1] + start[k + 1..];
      MixedAt(start, finish, k);
      ConcatFrom(groups, k);
      GroupsComplete(start, finish, groups, k + 1);
      TurnThenRest(state, next, finish, groups[k], Concat(groups[k + 1..]), k, start[k], finish[k]);
    }
  }

  lemma TurnThenRest(state: seq<DecodedArg>, next: seq<DecodedArg>, finish: seq<DecodedArg>, links: seq<Link>,
                     rest: seq<Link>, k: nat, from: DecodedArg, to: DecodedArg)
    requires Turns(links, k, from, to) && k < |state| && state[k] == from && next == state[k := to]
    requires ExtendAll(next, rest) == finish
    ensures ExtendAll(state, links + rest) == finish
  {
    ExtendConcat(state, links, rest);
  }

  lemma MixedAt<T>(start: seq<T>, finish: seq<T>, k: nat)
    requires |start| == |finish| && k < |start|
    ensures (finish[..k] + start[k..])[k] == start[k]
    ensures (finish[..k] + start[k..])[k := finish[k]] == finish[..k + 1] + start[k + 1..]
  {}

  lemma ConcatFrom<T>(parts: seq<seq<T>>, k: nat)
    requires k < |parts|
    ensures Concat(parts[k..]) == parts[k] + Concat(parts[k + 1..])
  {
    assert parts[k..][1..] == parts[k + 1..];
  }

  /** Inline prefixes extended by all their links are the arguments up to the chain's ceiling. */
  lemma LinksComplete(args: seq<Arg>)
    ensures ExtendAll(SeenAll(args, INLINE_BYTES_CAP), Links(args)) == SeenAll(args, ARG_CEILING)
  {
    var start, finish, groups := SeenAll(args, INLINE_BYTES_CAP), SeenAll(args, ARG_CEILING), LinkGroups(args);
    forall i | 0 <= i < |groups|
      ensures Turns(groups[i], i, start[i], finish[i])
    {
      forall state: seq<DecodedArg> | i < |state| && state[i] == start[i]
        ensures ExtendAll(state, groups[i]) == state[i := finish[i]]
      {
        OwnLinksComplete(state, i, args[i]);
      }
    }
    GroupsComplete(start, finish, groups, 0);
    assert finish[..0] + start[0..] == start && groups[0..] == groups;
  }

  /** Records as a reader loads them when they lie one after another from `base`. */
  function Loaded(recs: seq<Rec>, base: nat, owner: nat): (r: seq<Record>)
    ensures |r| == |recs|
    decreases |recs|
  {
    if recs == [] then []
    else [Record(recs[0].kind, recs[0].flags, recs[0].payload, owner, base)]
         + Loaded(recs[1..], base + Footprint(|recs[0].payload|), owner)
  }

  ghost predicate Fits(d: Decoded, l: Link) {
    l.arg < |d.args| && l.arg < |d.site.types| && d.site.types[l.arg] == T_BYTES && d.args[l.arg].Text?
  }

  /** What the first continuation of a chain does. */
  lemma FirstJoins(d: Decoded, site: nat, l: Link, more: bool, r: Record)
    requires site < TWO64 && LinkOk(l) && Fits(d, l) && r.payload == ContinuationRec(site, l, more).payload
    ensures JoinSlice(d, r) == Some(d.(args := Extend(d.args, l)))
  {
    assert r.payload[8] == l.arg && r.payload[CONTINUATION_PREFIX..] == l.slice;
  }

  lemma LoadedBefore(first: Rec, tail: seq<Rec>, base: nat, owner: nat, rest: seq<Record>)
    ensures Loaded([first] + tail, base, owner) + rest
            == [Record(first.kind, first.flags, first.payload, owner, base)]
               + (Loaded(tail, base + Footprint(|first.payload|), owner) + rest)
  {
    assert ([first] + tail)[1..] == tail;
    Regroup([Record(first.kind, first.flags, first.payload, owner, base)],
            Loaded(tail, base + Footprint(|first.payload|), owner), rest);
  }

  /** A chain as a reader loads it: its first record, and the rest of the chain behind it. */
  lemma ChainUnfold(site: nat, links: seq<Link>, base: nat, owner: nat, rest: seq<Record>) returns (r: Record, next: nat)
    requires site < TWO64 && links != [] && forall k :: 0 <= k < |links| ==> LinkOk(links[k])
    ensures r.kind == CONTINUATION && Continued(r.flags) == (|links| > 1)
    ensures r.payload == ContinuationRec(site, links[0], |links| > 1).payload
    ensures Loaded(ContinuationRecs(site, links), base, owner) + rest
            == [r] + (Loaded(ContinuationRecs(site, links[1..]), next, owner) + rest)
  {
    hide LinkOk, Le64, Zeros, Loaded;
    var first, tail := ContinuationRec(site, links[0], |links| > 1), ContinuationRecs(site, links[1..]);
    next := base + Footprint(|first.payload|);
    r := Record(first.kind, first.flags, first.payload, owner, base);
    LoadedBefore(first, tail, base, owner, rest);
  }

  lemma FollowOne(d: Decoded, d': Decoded, r: Record, rest: seq<Record>, recs: seq<Record>)
    requires recs == [r] + rest && r.kind == CONTINUATION && JoinSlice(d, r) == Some(d')
    ensures FollowChain(JoinSlice, d, recs) == if Continued(r.flags) then FollowChain(JoinSlice, d', rest) else Some(d')
  {
    assert recs[1..] == rest;
  }

  /** Reading a chain's continuations joins exactly its links, whatever follows them. */
  lemma {:induction false} ChainJoins(d: Decoded, site: nat, links: seq<Link>, base: nat, owner: nat,
                                      rest: seq<Record>)
    requires site < TWO64 && links != []
    requires forall k :: 0 <= k < |links| ==> LinkOk(links[k]) && Fits(d, links[k])
    ensures FollowChain(JoinSlice, d, Loaded(ContinuationRecs(site, links), base, owner) + rest)
            == Some(d.(args := ExtendAll(d.args, links)))
    decreases |links|
  {
    var r, next := ChainUnfold(site, links, base, owner, rest);
    var d' := d.(args := Extend(d.args, links[0]));
    FirstJoins(d, site, links[0], |links| > 1, r);
    hide FollowChain, JoinSlice, ContinuationRec, ContinuationRecs, Loaded;
    FollowOne(d, d', r, Loaded(ContinuationRecs(site, links[1..]), next, owner) + rest,
              Loaded(ContinuationRecs(site, links), base, owner) + rest);
    if |links| > 1 {
      ChainJoins(d', site, links[1..], next, owner, rest);
    } else {
      assert ExtendAll(d'.args, links[1..]) == d'.args;
    }
  }
}
