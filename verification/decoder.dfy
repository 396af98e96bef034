/** The typed layer: definitions, arguments and continuation chains
    (include/sub0log/reader.hpp:579-958). */
module Decoder {
  import opened Bytes
  import opened Wire
  import opened Reader
  import opened Chains

  // ------------------------------------------------------------ type codes

  const T_BOOL := 1
  const T_I8 := 2
  const T_U8 := 3
  const T_I16 := 4
  const T_U16 := 5
  const T_I32 := 6
  const T_U32 := 7
  const T_I64 := 8
  const T_U64 := 9
  const T_F32 := 10
  const T_F64 := 11
  const T_CHAR := 12
  const T_BYTES := 13
  const T_POINTER := 14

  /** Wire size of a fixed-size code; 0 for byte strings and for unknown codes. */
  function FixedSizeOf(code: nat): nat {
    if code in {T_BOOL, T_I8, T_U8, T_CHAR} then 1
    else if code in {T_I16, T_U16} then 2
    else if code in {T_I32, T_U32, T_F32} then 4
    else if code in {T_I64, T_U64, T_F64, T_POINTER} then 8
    else 0
  }

  /** An argument as decoded; floating point values stay bit patterns. */
  datatype DecodedArg =
    | Boolean(b: bool)
    | Character(c: byte)
    | Signed(i: int)
    | Unsigned(u: nat)
    | Float(bits: seq<byte>)
    | Text(bytes: seq<byte>)

  function Word(s: seq<byte>): nat
    requires |s| in {1, 2, 4, 8}
  {
    if |s| == 1 then s[0] else if |s| == 2 then U16(s, 0) else if |s| == 4 then U32(s, 0) else U64(s, 0)
  }

  function TwosComplement(v: nat, bits: nat): int {
    if bits == 8 then (if v >= 0x80 then v - 0x100 else v)
    else if bits == 16 then (if v >= 0x8000 then v - TWO16 else v)
    else if bits == 32 then (if v >= 0x8000_0000 then v - TWO32 else v)
    else (if v >= 0x8000_0000_0000_0000 then v - TWO64 else v)
  }

  function DecodeFixed(code: nat, s: seq<byte>): DecodedArg
    requires FixedSizeOf(code) == |s| != 0
  {
    if code == T_BOOL then Boolean(s[0] != 0)
    else if code == T_CHAR then Character(s[0])
    else if code in {T_F32, T_F64} then Float(s)
    else if code in {T_I8, T_I16, T_I32, T_I64} then Signed(TwosComplement(Word(s), 8 * |s|))
    else Unsigned(Word(s))
  }

  // ----------------------------------------------------------- definitions

  datatype Site = Site(id: nat, subsystem: nat, severity: nat, line: nat,
                       format: seq<byte>, file: seq<byte>, types: seq<byte>)

  /** A u16 length, then that many bytes; what is left after them. */
  function TakeText(s: seq<byte>): Option<(seq<byte>, seq<byte>)> {
    if |s| < 2 then None
    else if U16(s, 0) > |s| - 2 then None
    else Some((s[2..2 + U16(s, 0)], s[2 + U16(s, 0)..]))
  }

  function ParseSite(payload: seq<byte>): Option<Site> {
    if |payload| < SITE_PREFIX then None
    else
      var count := payload[17];
      if count > |payload| - SITE_PREFIX then None
      else
        match TakeText(payload[SITE_PREFIX + count..])
        case None => None
        case Some((format, rest)) =>
          match TakeText(rest)
          case None => None
          case Some((file, _)) =>
            Some(Site(U64(payload, 0), U32(payload, 8), payload[16], U32(payload, 12), format, file,
                      payload[SITE_PREFIX..SITE_PREFIX + count]))
  }

  function ParseSubsystem(payload: seq<byte>): Option<(nat, seq<byte>)> {
    if |payload| < SUBSYSTEM_PREFIX then None
    else if U16(payload, 4) > |payload| - SUBSYSTEM_PREFIX then None
    else Some((U32(payload, 0), payload[SUBSYSTEM_PREFIX..SUBSYSTEM_PREFIX + U16(payload, 4)]))
  }

  // -------------------------------------------------------------- messages

  /** The record a view names; a view out of range, which no visit yields, has no payload. */
  function Load(image: seq<byte>, v: View): Record {
    var payload :=
      if v.offset + 8 + v.head.payloadBytes <= |image|
      then image[v.offset + 8..v.offset + 8 + v.head.payloadBytes] else [];
    Record(v.head.kind, v.head.flags, payload, v.owner, v.offset)
  }

  datatype Decoded = Decoded(site: Site, monoNs: nat, correlation: nat, owner: nat, truncated: bool,
                             args: seq<DecodedArg>, offset: nat)

  function ParseArgs(types: seq<byte>, s: seq<byte>): Option<seq<DecodedArg>> {
    if types == [] then Some([])
    else if types[0] == T_BYTES then
      match TakeText(s)
      case None => None
      case Some((text, rest)) =>
        match ParseArgs(types[1..], rest)
        case None => None
        case Some(args) => Some([Text(text)] + args)
    else
      var size := FixedSizeOf(types[0]);
      if size == 0 || size > |s| then None
      else
        match ParseArgs(types[1..], s[size..])
        case None => None
        case Some(args) => Some([DecodeFixed(types[0], s[..size])] + args)
  }

  /** The Message record alone, before any chain it promises. */
  function Opening(sites: map<nat, Site>, r: Record): Option<Decoded> {
    if |r.payload| < MESSAGE_PREFIX then None
    else if U64(r.payload, 0) !in sites then None
    else
      var site := sites[U64(r.payload, 0)];
      match ParseArgs(site.types, r.payload[MESSAGE_PREFIX..])
      case None => None
      case Some(args) =>
        Some(Decoded(site, U64(r.payload, 8), U64(r.payload, 16), r.owner, Truncated(r.flags), args, r.offset))
  }

  /** One slice joined to the argument it names. */
  function JoinSlice(d: Decoded, r: Record): Option<Decoded> {
    if |r.payload| < CONTINUATION_PREFIX then None
    else
      var k := r.payload[8];
      if k < |d.args| && k < |d.site.types| && d.site.types[k] == T_BYTES && d.args[k].Text? then
        Some(d.(args := d.args[k := Text(d.args[k].bytes + r.payload[CONTINUATION_PREFIX..])]))
      else None
  }

  function OpeningIn(sites: map<nat, Site>): Record -> Option<Decoded> { r => Opening(sites, r) }

  /** The messages of a record stream, given what its definitions said. */
  function DecodeWith(sites: map<nat, Site>, recs: seq<Record>): seq<Decoded> {
    Messages(OpeningIn(sites), JoinSlice, recs)
  }

  predicate IsMalformed(r: Record) {
    || (r.kind == SITE_DEFINITION && ParseSite(r.payload).None?)
    || (r.kind == SUBSYSTEM_DEFINITION && ParseSubsystem(r.payload).None?)
  }
  predicate IsOther(r: Record) {
    r.kind !in {MESSAGE, SITE_DEFINITION, CONTINUATION, SUBSYSTEM_DEFINITION}
  }

  // ---------------------------------------- what definitions say, first come

  /** What a well-formed definition says of which id. */
  function SiteSaid(): Record -> Option<(nat, Site)> {
    (r: Record) => if r.kind == SITE_DEFINITION then
                     match ParseSite(r.payload)
                     case Some(s) => Some((s.id, s))
                     case None => None
                   else None
  }

  function NameSaid(): Record -> Option<(nat, seq<byte>)> {
    (r: Record) => if r.kind == SUBSYSTEM_DEFINITION then ParseSubsystem(r.payload) else None
  }

  /** Everything these records say, in order. */
  function Said<V>(say: Record -> Option<(nat, V)>, recs: seq<Record>): seq<(nat, V)> {
    if recs == [] then [] else Opt(say(recs[0])) + Said(say, recs[1..])
  }

  ghost predicate SpokenOf<V(!new)>(said: seq<(nat, V)>, id: nat) { exists k :: 0 <= k < |said| && said[k].0 == id }

  /** The k-th is the first to speak of its id. */
  ghost predicate SpeaksFirst<V(!new)>(said: seq<(nat, V)>, k: int) {
    0 <= k < |said| && forall j :: 0 <= j < k ==> said[j].0 != said[k].0
  }

  /** The first to speak of an id is believed: what is known afterwards is what was known
      before, and of every other id spoken of, what was said first. */
  ghost predicate KeepsFirst<V(!new)>(before: map<nat, V>, said: seq<(nat, V)>, after: map<nat, V>) {
    && (forall id :: id in after <==> id in before || SpokenOf(said, id))
    && (forall id :: id in before && id in after ==> after[id] == before[id])
    && forall k :: SpeaksFirst(said, k) && said[k].0 !in before && said[k].0 in after ==> after[said[k].0] == said[k].1
  }

  function Learn<V>(known: map<nat, V>, said: Option<(nat, V)>): map<nat, V> {
    if said.Some? && said.value.0 !in known then known[said.value.0 := said.value.1] else known
  }

  function LearnAll<V>(known: map<nat, V>, say: Record -> Option<(nat, V)>, recs: seq<Record>): map<nat, V>
    decreases |recs|
  {
    if recs == [] then known else LearnAll(Learn(known, say(recs[0])), say, recs[1..])
  }

  function LearnSites(sites: map<nat, Site>, recs: seq<Record>): map<nat, Site> { LearnAll(sites, SiteSaid(), recs) }

  function LearnNames(names: map<nat, seq<byte>>, recs: seq<Record>): map<nat, seq<byte>> {
    LearnAll(names, NameSaid(), recs)
  }

  lemma {:induction false} LearnKeepsFirst<V(!new)>(known: map<nat, V>, say: Record -> Option<(nat, V)>, recs: seq<Record>)
    ensures KeepsFirst(known, Said(say, recs), LearnAll(known, say, recs))
    decreases |recs|
  {
    if recs != [] {
      var one, rest := say(recs[0]), Said(say, recs[1..]);
      LearnKeepsFirst(Learn(known, one), say, recs[1..]);
      if one.Some? {
        FirstKept(known, one.value, rest, LearnAll(known, say, recs));
      } else {
        assert Said(say, recs) == rest;
      }
    }
  }

  lemma FirstKept<V(!new)>(known: map<nat, V>, one: (nat, V), rest: seq<(nat, V)>, after: map<nat, V>)
    requires KeepsFirst(Learn(known, Some(one)), rest, after)
    ensures KeepsFirst(known, [one] + rest, after)
  {
    hide SpokenOf;
    var said := [one] + rest;
    forall id: nat
      ensures id in after <==> id in known || SpokenOf(said, id)
    {
      SpokenBehind(one, rest, id);
    }
    forall k | 0 <= k < |said| && SpeaksFirst(said, k) && said[k].0 !in known && said[k].0 in after
      ensures after[said[k].0] == said[k].1
    {
      FirstBehind(one, rest, k);
    }
  }

  lemma SpokenBehind<V(!new)>(one: (nat, V), rest: seq<(nat, V)>, id: nat)
    ensures SpokenOf([one] + rest, id) <==> one.0 == id || SpokenOf(rest, id)
  {
    var said := [one] + rest;
    assert said[0] == one;
    if SpokenOf(rest, id) {
      var k :| 0 <= k < |rest| && rest[k].0 == id;
      assert said[k + 1].0 == id;
    }
    if SpokenOf(said, id) && one.0 != id {
      var k :| 0 <= k < |said| && said[k].0 == id;
      assert rest[k - 1].0 == id;
    }
  }

  lemma FirstBehind<V(!new)>(one: (nat, V), rest: seq<(nat, V)>, k: int)
    requires SpeaksFirst([one] + rest, k)
    ensures 0 <= k <= |rest| && (k > 0 ==> SpeaksFirst(rest, k - 1) && ([one] + rest)[k] == rest[k - 1] && rest[k - 1].0 != one.0)
  {
    var said := [one] + rest;
    if k > 0 {
      assert said[0] == one;
      forall j | 0 <= j < k - 1
        ensures rest[j].0 != rest[k - 1].0
      {
        assert said[j + 1] == rest[j];
      }
    }
  }

  // ---------------------------------------- the decoder: two streaming passes

  class TypedDecoder {
    var sites: map<nat, Site>
    var names: map<nat, seq<byte>>
    var undecodable: nat
    var skipped: nat

    constructor ()
      ensures sites == map[] && names == map[] && undecodable == 0 && skipped == 0
    {
      sites, names, undecodable, skipped := map[], map[], 0, 0;
    }

    /** Pass one: every definition is learnt before any message is decoded. */
    method LearnDefinitions(recs: seq<Record>)
      modifies this
      ensures sites == LearnSites(old(sites), recs) && names == LearnNames(old(names), recs)
      ensures KeepsFirst(old(sites), Said(SiteSaid(), recs), sites) && KeepsFirst(old(names), Said(NameSaid(), recs), names)
      ensures undecodable == old(undecodable) + Count(recs, IsMalformed)
      ensures skipped == old(skipped) + Count(recs, IsOther)
    {
      LearnKeepsFirst(sites, SiteSaid(), recs);
      LearnKeepsFirst(names, NameSaid(), recs);
      hide KeepsFirst;
      for i := 0 to |recs|
        invariant LearnSites(sites, recs[i..]) == LearnSites(old(sites), recs)
        invariant LearnNames(names, recs[i..]) == LearnNames(old(names), recs)
        invariant undecodable + Count(recs[i..], IsMalformed) == old(undecodable) + Count(recs, IsMalformed)
        invariant skipped + Count(recs[i..], IsOther) == old(skipped) + Count(recs, IsOther)
      {
        var r := recs[i];
        assert recs[i..][0] == r && recs[i..][1..] == recs[i + 1..];
        if r.kind == SITE_DEFINITION {
          var parsed := ParseSite(r.payload);
          if parsed.None? {
            undecodable := undecodable + 1;
          } else if parsed.value.id !in sites {
            sites := sites[parsed.value.id := parsed.value];
          }
        } else if r.kind == SUBSYSTEM_DEFINITION {
          var parsed := ParseSubsystem(r.payload);
          if parsed.None? {
            undecodable := undecodable + 1;
          } else if parsed.value.0 !in names {
            names := names[parsed.value.0 := parsed.value.1];
          }
        } else if r.kind == MESSAGE || r.kind == CONTINUATION {
        } else {
          skipped := skipped + 1;
        }
      }
    }

    /** One pass over the image. */
    method LoadRecords(reader: SegmentReader) returns (recs: seq<Record>)
      requires reader.Valid()
      modifies reader
      ensures recs == RecordsIn(reader.image)
    {
      hide Open, VisitAll;
      var views := reader.Visit();
      recs := LoadAll(reader.image, views);
    }

    /** Both passes over one frozen image. Every Message ends as exactly one result or one
        undecodable count, every Continuation in one chain or skipped once, and every
        other record as a definition, a malformed one, or skipped. */
    method DecodeAll(reader: SegmentReader) returns (result: seq<Decoded>)
      requires reader.Valid()
      modifies this, reader
      ensures var recs := RecordsIn(reader.image);
              && sites == LearnSites(old(sites), recs) && names == LearnNames(old(names), recs)
              && KeepsFirst(old(sites), Said(SiteSaid(), recs), sites) && KeepsFirst(old(names), Said(NameSaid(), recs), names)
              && result == DecodeWith(sites, recs)
              && EachOnce(OpeningIn(sites), JoinSlice, recs, result,
                          undecodable - old(undecodable) - Count(recs, IsMalformed),
                          skipped - old(skipped) - Count(recs, IsOther))
              && |result| + undecodable == old(undecodable) + Count(recs, IsMessage) + Count(recs, IsMalformed)
              && skipped + Linked(OpeningIn(sites), recs)
                 == old(skipped) + Count(recs, IsOther) + Count(recs, IsContinuation)
    {
      hide KeepsFirst, EachOnce, RecordsIn, Count, Linked, LearnSites, LearnNames;
      var recs := LoadRecords(reader);
      LearnDefinitions(recs);
      recs := LoadRecords(reader);
      var lost, orphans;
      result, lost, orphans := Stream(OpeningIn(sites), JoinSlice, recs);
      ContinuationsConserved(OpeningIn(sites), recs);
      undecodable := undecodable + lost;
      skipped := skipped + orphans;
    }
  }

  function LoadAll(image: seq<byte>, views: seq<View>): (recs: seq<Record>)
    ensures |recs| == |views|
  {
    seq(|views|, k requires 0 <= k < |views| => Load(image, views[k]))
  }

  /** The committed records of an image, in the order `visit` yields them. */
  function RecordsIn(image: seq<byte>): seq<Record> {
    if Open(image).Ok? then LoadAll(image, VisitAll(image, Open(image).header).views) else []
  }
}
