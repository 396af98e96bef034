/** What the reader's parsers accept, on any bytes: exactly what some writer could have laid down
    (include/sub0log/reader.hpp:326-369, include/sub0log/reader.hpp:579-642,
    include/sub0log/reader.hpp:858-919). Every length is believed only as far as its bytes go. */
module Parsing {
  import opened Bytes
  import opened Lists
  import opened Logs
  import opened Wire
  import opened Reader
  import opened Chains
  import opened Decoder
  import opened Encode

  lemma SplitAt(s: seq<byte>, n: nat)
    requires n <= |s|
    ensures s == s[..n] + s[n..]
  {}

  // ----------------------------------------------------------------- texts

  lemma TakeTextIff(s: seq<byte>, text: seq<byte>, rest: seq<byte>)
    ensures TakeText(s) == Some((text, rest)) <==> |text| < TWO16 && s == Le16(|text|) + text + rest
  {
    if TakeText(s) == Some((text, rest)) {
      StoreU16(s, 0);
      assert s == s[0..2] + s[2..2 + U16(s, 0)] + s[2 + U16(s, 0)..];
    }
    if |text| < TWO16 && s == Le16(|text|) + text + rest {
      TakeTextBack(text, rest);
    }
  }

  // ------------------------------------------------------------- arguments

  /** One argument of this type code, and the bytes that spell it. */
  ghost predicate Spells(code: byte, arg: DecodedArg, bytes: seq<byte>) {
    if code == T_BYTES then arg.Text? && |arg.bytes| < TWO16 && bytes == Le16(|arg.bytes|) + arg.bytes
    else FixedSizeOf(code) != 0 && |bytes| == FixedSizeOf(code) && arg == DecodeFixed(code, bytes)
  }

  /** These arguments, spelled one behind the other at the front of these bytes. */
  ghost predicate SpelledIn(types: seq<byte>, args: seq<DecodedArg>, s: seq<byte>) {
    exists parts :: Parts(types, args, s, parts)
  }

  ghost predicate Parts(types: seq<byte>, args: seq<DecodedArg>, s: seq<byte>, parts: seq<seq<byte>>) {
    && |parts| == |args| == |types| && IsPrefix(Concat(parts), s)
    && forall k :: 0 <= k < |parts| ==> Spells(types[k], args[k], parts[k])
  }

  lemma SpelledNone(s: seq<byte>, args: seq<DecodedArg>)
    ensures SpelledIn([], args, s) <==> args == []
  {
    if args == [] {
      assert Parts([], args, s, []);
    }
  }

  /** The first argument's bytes, and then the others'. */
  ghost predicate FirstSpelled(types: seq<byte>, args: seq<DecodedArg>, s: seq<byte>, n: int)
    requires types != []
  {
    && args != [] && 0 <= n <= |s| && Spells(types[0], args[0], s[..n]) && SpelledIn(types[1..], args[1..], s[n..])
  }

  lemma PartsFirst(types: seq<byte>, args: seq<DecodedArg>, s: seq<byte>, parts: seq<seq<byte>>)
    requires types != [] && Parts(types, args, s, parts)
    ensures FirstSpelled(types, args, s, |parts[0]|)
  {
    hide Spells;
    var n, rest := |parts[0]|, parts[1..];
    assert Concat(parts) == parts[0] + Concat(rest);
    assert s[..|Concat(parts)|][..n] == s[..n] == parts[0];
    assert s[n..][..|Concat(rest)|] == s[..|Concat(parts)|][n..] == Concat(rest);
    assert Parts(types[1..], args[1..], s[n..], rest);
  }

  lemma PartsCons(types: seq<byte>, args: seq<DecodedArg>, s: seq<byte>, n: int)
    requires types != [] && FirstSpelled(types, args, s, n)
    ensures SpelledIn(types, args, s)
  {
    hide Spells;
    var rest :| Parts(types[1..], args[1..], s[n..], rest);
    var parts := [s[..n]] + rest;
    assert parts[1..] == rest;
    assert s[..|Concat(parts)|] == s[..n] + s[n..][..|Concat(rest)|];
    forall k | 0 <= k < |parts|
      ensures Spells(types[k], args[k], parts[k])
    {
      if k > 0 {
        assert Spells(types[1..][k - 1], args[1..][k - 1], rest[k - 1]);
      }
    }
    assert Parts(types, args, s, parts);
  }

  lemma SpelledFirst(types: seq<byte>, args: seq<DecodedArg>, s: seq<byte>)
    requires types != []
    ensures SpelledIn(types, args, s) <==> exists n :: FirstSpelled(types, args, s, n)
  {
    hide FirstSpelled;
    if SpelledIn(types, args, s) {
      var parts :| Parts(types, args, s, parts);
      PartsFirst(types, args, s, parts);
    }
    if n :| FirstSpelled(types, args, s, n) {
      PartsCons(types, args, s, n);
    }
  }

  /** How many bytes an argument takes is decided by its front. */
  lemma SpellsOneWay(code: byte, arg: DecodedArg, s: seq<byte>, n: nat)
    requires n <= |s| && Spells(code, arg, s[..n])
    ensures if code == T_BYTES then TakeText(s) == Some((arg.bytes, s[n..])) else n == FixedSizeOf(code)
  {
    if code == T_BYTES {
      SplitAt(s, n);
      TakeTextIff(s, arg.bytes, s[n..]);
    }
  }

  /** Arguments parse exactly when they are spelled at the front of the payload; nothing else is
      ever made of it, and no length reaches past its end. */
  lemma {:induction false} ParsesIffSpelled(types: seq<byte>, s: seq<byte>, args: seq<DecodedArg>)
    ensures ParseArgs(types, s) == Some(args) <==> SpelledIn(types, args, s)
    decreases |types|
  {
    if types == [] {
      SpelledNone(s, args);
    } else {
      hide SpelledIn;
      SpelledFirst(types, args, s);
      if ParseArgs(types, s) == Some(args) {
        ParsedIsSpelled(types, s, args);
      }
      if n :| FirstSpelled(types, args, s, n) {
        ParsesIffSpelled(types[1..], s[n..], args[1..]);
        SpellsOneWay(types[0], args[0], s, n);
        assert args == [args[0]] + args[1..];
      }
    }
  }

  lemma ParsedIsSpelled(types: seq<byte>, s: seq<byte>, args: seq<DecodedArg>)
    requires types != [] && ParseArgs(types, s) == Some(args)
    ensures exists n :: FirstSpelled(types, args, s, n)
    decreases |types|, 0
  {
    var n := 0;
    if types[0] == T_BYTES {
      var (text, rest) := TakeText(s).value;
      TakeTextIff(s, text, rest);
      n := 2 + |text|;
      assert s[n..] == rest && s[..n] == Le16(|text|) + text;
    } else {
      n := FixedSizeOf(types[0]);
    }
    assert args[1..] == ParseArgs(types[1..], s[n..]).value;
    ParsesIffSpelled(types[1..], s[n..], args[1..]);
    assert FirstSpelled(types, args, s, n);
  }

  // ------------------------------------------------------------ definitions

  lemma SubsystemIff(p: seq<byte>, id: nat, name: seq<byte>)
    ensures ParseSubsystem(p) == Some((id, name))
            <==> id < TWO32 && |name| < TWO16 && exists pad, rest :: |pad| == 2 && p == Le32(id) + Le16(|name|) + pad + name + rest
  {
    if ParseSubsystem(p) == Some((id, name)) {
      StoreU32(p, 0);
      StoreU16(p, 4);
      var pad, rest := p[6..8], p[8 + |name|..];
      assert p == p[0..4] + p[4..6] + pad + name + rest;
    }
    if id < TWO32 && |name| < TWO16 {
      forall pad, rest | |pad| == 2 && p == Le32(id) + Le16(|name|) + pad + name + rest
        ensures ParseSubsystem(p) == Some((id, name))
      {
        assert p[0..4] == Le32(id) && p[4..6] == Le16(|name|);
        LoadLe32(p, 0, id);
        LoadLe16(p, 4, |name|);
        assert p[8..8 + |name|] == name;
      }
    }
  }

  /** A definition's bytes: its fixed fields, six bytes of padding, its type codes, its strings,
      and whatever follows. */
  ghost predicate SiteLaid(p: seq<byte>, s: Site, pad: seq<byte>, rest: seq<byte>) {
    && SiteOk(s) && |s.format| < TWO16 && |s.file| < TWO16 && |pad| == 6
    && p == (Le64(s.id) + Le32(s.subsystem) + Le32(s.line) + [s.severity, |s.types|] + pad)
            + (s.types + ((Le16(|s.format|) + s.format) + ((Le16(|s.file|) + s.file) + rest)))
  }

  ghost predicate SiteSpelled(p: seq<byte>, s: Site) { exists pad, rest :: SiteLaid(p, s, pad, rest) }

  lemma PrefixReads(id: nat, subsystem: nat, line: nat, severity: byte, count: byte, pad: seq<byte>, rest: seq<byte>)
    requires id < TWO64 && subsystem < TWO32 && line < TWO32 && |pad| == 6
    ensures var p := (Le64(id) + Le32(subsystem) + Le32(line) + [severity, count] + pad) + rest;
            && U64(p, 0) == id && U32(p, 8) == subsystem && U32(p, 12) == line && p[16] == severity && p[17] == count
            && |p| == SITE_PREFIX + |rest| && p[SITE_PREFIX..] == rest
  {
    var p := (Le64(id) + Le32(subsystem) + Le32(line) + [severity, count] + pad) + rest;
    assert p[0..8] == Le64(id) && p[8..12] == Le32(subsystem) && p[12..16] == Le32(line);
    LoadLe64(p, 0, id);
    LoadLe32(p, 8, subsystem);
    LoadLe32(p, 12, line);
  }

  lemma PrefixWrites(p: seq<byte>)
    requires |p| >= SITE_PREFIX
    ensures p == (Le64(U64(p, 0)) + Le32(U32(p, 8)) + Le32(U32(p, 12)) + [p[16], p[17]] + p[18..24]) + p[SITE_PREFIX..]
  {
    hide Le64, Le32, U64, U32;
    StoreU64(p, 0);
    StoreU32(p, 8);
    StoreU32(p, 12);
    assert p == (p[0..8] + p[8..12] + p[12..16] + [p[16], p[17]] + p[18..24]) + p[SITE_PREFIX..];
  }

  lemma SpelledSiteParses(p: seq<byte>, s: Site)
    requires SiteSpelled(p, s)
    ensures ParseSite(p) == Some(s)
  {
    var pad, rest :| SiteLaid(p, s, pad, rest);
    hide Le64, Le32, Le16, U64, U32, TakeText;
    var strings := (Le16(|s.format|) + s.format) + ((Le16(|s.file|) + s.file) + rest);
    PrefixReads(s.id, s.subsystem, s.line, s.severity, |s.types|, pad, s.types + strings);
    assert p[SITE_PREFIX..] == s.types + strings;
    assert p[SITE_PREFIX..SITE_PREFIX + |s.types|] == p[SITE_PREFIX..][..|s.types|] == s.types;
    assert p[SITE_PREFIX + |s.types|..] == p[SITE_PREFIX..][|s.types|..] == strings;
    TakeTextIff(strings, s.format, (Le16(|s.file|) + s.file) + rest);
    TakeTextIff((Le16(|s.file|) + s.file) + rest, s.file, rest);
  }

  lemma ParsedSiteSpelled(p: seq<byte>, s: Site)
    requires ParseSite(p) == Some(s)
    ensures SiteSpelled(p, s)
  {
    hide Le64, Le32, Le16, U64, U32, TakeText;
    PrefixWrites(p);
    var n := p[17];
    var strings := p[SITE_PREFIX + n..];
    assert p[SITE_PREFIX..] == s.types + strings;
    var (format, behind) := TakeText(strings).value;
    TakeTextIff(strings, format, behind);
    var (file, rest) := TakeText(behind).value;
    TakeTextIff(behind, file, rest);
    assert p == (Le64(s.id) + Le32(s.subsystem) + Le32(s.line) + [s.severity, |s.types|] + p[18..24])
                + (s.types + ((Le16(|s.format|) + s.format) + ((Le16(|s.file|) + s.file) + rest)));
    assert SiteLaid(p, s, p[18..24], rest);
  }

  /** A definition is well formed exactly when it is spelled so. */
  lemma SiteIff(p: seq<byte>, s: Site)
    ensures ParseSite(p) == Some(s) <==> SiteSpelled(p, s)
  {
    if ParseSite(p) == Some(s) {
      ParsedSiteSpelled(p, s);
    }
    if SiteSpelled(p, s) {
      SpelledSiteParses(p, s);
    }
  }

  // ------------------------------------------------------------------ messages

  /** A Message opens exactly when its payload is a known site's id, two words, and that site's
      arguments; it is then those. */
  lemma OpensIff(sites: map<nat, Site>, r: Record, d: Decoded)
    ensures Opening(sites, r) == Some(d)
            <==> && |r.payload| >= MESSAGE_PREFIX && U64(r.payload, 0) in sites && d.site == sites[U64(r.payload, 0)]
                 && d.monoNs == U64(r.payload, 8) && d.correlation == U64(r.payload, 16)
                 && d.owner == r.owner && d.offset == r.offset && d.truncated == Truncated(r.flags)
                 && SpelledIn(d.site.types, d.args, r.payload[MESSAGE_PREFIX..])
  {
    hide SpelledIn, ParseArgs, U64;
    if |r.payload| >= MESSAGE_PREFIX && U64(r.payload, 0) in sites {
      ParsesIffSpelled(sites[U64(r.payload, 0)].types, r.payload[MESSAGE_PREFIX..], d.args);
    }
  }

  // ------------------------------------------------------------ segment headers

  /** The first 64 bytes of an image say this: the magic, this version, and these fields, with
      two and four bytes besides that say nothing. */
  ghost predicate HeaderLaid(image: seq<byte>, g: SegmentHeader, flags: seq<byte>, pad: seq<byte>) {
    && g.headerBytes < TWO32 && g.chunkBytes < TWO32 && g.segmentBytes < TWO64 && g.generation < TWO64
    && g.processId < TWO64 && g.anchorMonoNs < TWO64 && g.anchorWallNs < TWO64
    && |image| >= SEGMENT_HEADER_SIZE && |flags| == 2 && |pad| == 4
    && image[0..8] == Le64(MAGIC) && image[8..10] == Le16(FORMAT_VERSION) && image[10..12] == flags
    && image[12..16] == Le32(g.headerBytes) && image[16..20] == Le32(g.chunkBytes) && image[20..24] == pad
    && image[24..32] == Le64(g.segmentBytes) && image[32..40] == Le64(g.generation) && image[40..48] == Le64(g.processId)
    && image[48..56] == Le64(g.anchorMonoNs) && image[56..64] == Le64(g.anchorWallNs)
  }

  lemma LaidOpens(image: seq<byte>, g: SegmentHeader, flags: seq<byte>, pad: seq<byte>)
    requires HeaderLaid(image, g, flags, pad)
    ensures U64(image, 0) == MAGIC && U16(image, 8) == FORMAT_VERSION && ParseSegmentHeader(image) == g
  {
    hide Le64, Le32, Le16, U64, U32, U16;
    LoadLe64(image, 0, MAGIC);
    LoadLe16(image, 8, FORMAT_VERSION);
    LoadLe32(image, 12, g.headerBytes);
    LoadLe32(image, 16, g.chunkBytes);
    LoadLe64(image, 24, g.segmentBytes);
    LoadLe64(image, 32, g.generation);
    LoadLe64(image, 40, g.processId);
    LoadLe64(image, 48, g.anchorMonoNs);
    LoadLe64(image, 56, g.anchorWallNs);
  }

  lemma OpenedIsLaid(image: seq<byte>)
    requires |image| >= SEGMENT_HEADER_SIZE && U64(image, 0) == MAGIC && U16(image, 8) == FORMAT_VERSION
    ensures HeaderLaid(image, ParseSegmentHeader(image), image[10..12], image[20..24])
  {
    hide Le64, Le32, Le16, U64, U32, U16;
    StoreU64(image, 0);
    StoreU16(image, 8);
    StoreU32(image, 12);
    StoreU32(image, 16);
    StoreU64(image, 24);
    StoreU64(image, 32);
    StoreU64(image, 40);
    StoreU64(image, 48);
    StoreU64(image, 56);
  }

  /** An image opens exactly when its first bytes are such a header, of a geometry that can hold
      a chunk header and that the image has room for; one of another format never does. */
  lemma OpenIff(image: seq<byte>, g: SegmentHeader)
    ensures Open(image) == Ok(g)
            <==> (exists flags, pad :: HeaderLaid(image, g, flags, pad)) && GeometrySane(g) && g.headerBytes <= |image|
    ensures Open(image) == TooSmall <==> |image| < SEGMENT_HEADER_SIZE
    ensures Open(image) == BadMagic <==> |image| >= SEGMENT_HEADER_SIZE && image[0..8] != Le64(MAGIC)
    ensures Open(image) == UnknownVersion
            <==> |image| >= SEGMENT_HEADER_SIZE && image[0..8] == Le64(MAGIC) && image[8..10] != Le16(FORMAT_VERSION)
  {
    hide Le64, Le16, U64, U16, HeaderLaid, ParseSegmentHeader;
    if |image| >= SEGMENT_HEADER_SIZE {
      StoreU64(image, 0);
      StoreU16(image, 8);
      if image[0..8] == Le64(MAGIC) {
        LoadLe64(image, 0, MAGIC);
      }
      if image[8..10] == Le16(FORMAT_VERSION) {
        LoadLe16(image, 8, FORMAT_VERSION);
      }
      if U64(image, 0) == MAGIC && U16(image, 8) == FORMAT_VERSION {
        OpenedIsLaid(image);
      }
    }
    forall flags, pad | HeaderLaid(image, g, flags, pad)
      ensures |image| >= SEGMENT_HEADER_SIZE && U64(image, 0) == MAGIC && U16(image, 8) == FORMAT_VERSION && ParseSegmentHeader(image) == g
    {
      LaidIsLong(image, g, flags, pad);
      LaidOpens(image, g, flags, pad);
    }
  }

  lemma LaidIsLong(image: seq<byte>, g: SegmentHeader, flags: seq<byte>, pad: seq<byte>)
    requires HeaderLaid(image, g, flags, pad)
    ensures |image| >= SEGMENT_HEADER_SIZE
  {}
}
