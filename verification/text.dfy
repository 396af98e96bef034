/** Text export (include/sub0log/json.hpp:23-98): which byte strings count as UTF-8, and an
    encoding of any byte string as JSON that loses nothing. */
module Text {
  import opened Bytes
  import opened Lists
  import opened Wire

  // ----------------------------------------------- UTF-8, section 4 of RFC 3629

  predicate In(b: byte, lo: byte, hi: byte) { lo <= b <= hi }

  predicate Tail(b: byte) { In(b, 0x80, 0xBF) }

  /** One character, by the grammar's own alternatives. */
  predicate Utf8Char(c: seq<byte>) {
    || (|c| == 1 && In(c[0], 0x00, 0x7F))
    || (|c| == 2 && In(c[0], 0xC2, 0xDF) && Tail(c[1]))
    || (|c| == 3 && c[0] == 0xE0 && In(c[1], 0xA0, 0xBF) && Tail(c[2]))
    || (|c| == 3 && In(c[0], 0xE1, 0xEC) && Tail(c[1]) && Tail(c[2]))
    || (|c| == 3 && c[0] == 0xED && In(c[1], 0x80, 0x9F) && Tail(c[2]))
    || (|c| == 3 && In(c[0], 0xEE, 0xEF) && Tail(c[1]) && Tail(c[2]))
    || (|c| == 4 && c[0] == 0xF0 && In(c[1], 0x90, 0xBF) && Tail(c[2]) && Tail(c[3]))
    || (|c| == 4 && In(c[0], 0xF1, 0xF3) && Tail(c[1]) && Tail(c[2]) && Tail(c[3]))
    || (|c| == 4 && c[0] == 0xF4 && In(c[1], 0x80, 0x8F) && Tail(c[2]) && Tail(c[3]))
  }

  /** Any number of characters. */
  ghost predicate Utf8(s: seq<byte>)
    decreases |s|
  {
    s == [] || exists n :: 1 <= n <= |s| && Utf8Char(s[..n]) && Utf8(s[n..])
  }

  /** How many bytes a character with this first byte has; 0 if none starts so. */
  function CharLength(first: byte): nat {
    if first < 0x80 then 1
    else if 0xC2 <= first <= 0xDF then 2
    else if 0xE0 <= first <= 0xEF then 3
    else if 0xF0 <= first <= 0xF4 then 4
    else 0
  }

  lemma LengthIsUnique(c: seq<byte>)
    requires Utf8Char(c)
    ensures c != [] && |c| == CharLength(c[0])
  {}

  /** The first character decides how to go on. */
  lemma FirstCharacter(s: seq<byte>, n: nat)
    requires s != [] && n == CharLength(s[0])
    ensures Utf8(s) <==> 0 < n <= |s| && Utf8Char(s[..n]) && Utf8(s[n..])
  {
    if Utf8(s) {
      var m :| 1 <= m <= |s| && Utf8Char(s[..m]) && Utf8(s[m..]);
      LengthIsUnique(s[..m]);
    }
  }

  /** The code point a head value and its tails spell. */
  function CodePoint(head: nat, tails: seq<byte>): int {
    if tails == [] then head
    else CodePoint(head, tails[..|tails| - 1]) * 64 + (tails[|tails| - 1] as int - 0x80)
  }

  function HeadBits(first: byte): int {
    if first < 0xE0 then first as int - 0xC0 else if first < 0xF0 then first as int - 0xE0 else first as int - 0xF0
  }

  function Minimum(n: nat): nat { if n == 2 then 0x80 else if n == 3 then 0x800 else 0x10000 }

  predicate AllTails(tails: seq<byte>) { forall k :: 0 <= k < |tails| ==> Tail(tails[k]) }

  /** Shortest form, in range, and no surrogate: what the grammar's alternatives amount to. */
  lemma CodeDecides(c: seq<byte>)
    requires c != [] && c[0] >= 0x80 && |c| == CharLength(c[0])
    ensures HeadBits(c[0]) >= 0
    ensures Utf8Char(c) <==>
              AllTails(c[1..]) && var code := CodePoint(HeadBits(c[0]), c[1..]);
                                  Minimum(|c|) <= code <= 0x10FFFF && !(0xD800 <= code <= 0xDFFF)
  {
    var t, h := c[1..], HeadBits(c[0]);
    var a := c[1] as int - 0x80;
    assert t[..0] == [] && t[..1][..0] == [] && t[..1][0] == c[1];
    assert CodePoint(h, t[..1]) == h * 64 + a;
    if |c| == 2 {
      assert t[..1] == t && t[0] == c[1];
    } else {
      var b := c[2] as int - 0x80;
      assert t[..2][..1] == t[..1] && t[..2][1] == c[2] && t[0] == c[1] && t[1] == c[2];
      assert CodePoint(h, t[..2]) == (h * 64 + a) * 64 + b;
      if |c| == 3 {
        assert t[..2] == t;
      } else {
        assert t[..3][..2] == t[..2] && t[..3] == t && t[2] == c[3];
        assert CodePoint(h, t) == ((h * 64 + a) * 64 + b) * 64 + (c[3] as int - 0x80);
      }
    }
  }

  method ValidUtf8(text: seq<byte>) returns (ok: bool)
    ensures ok <==> Utf8(text)
  {
    var i := 0;
    assert text[0..] == text;
    while i < |text|
      invariant 0 <= i <= |text|
      invariant Utf8(text) <==> Utf8(text[i..])
    {
      var first := text[i];
      FirstCharacter(text[i..], CharLength(first));
      if first < 0x80 {
        assert text[i..][..1] == [first];
        i := i + 1;
        continue;
      }
      var n := CharLength(first);
      if n == 0 || |text| - i < n {
        return false;
      }
      ghost var c := text[i..i + n];
      assert text[i..][..n] == c && text[i..][n..] == text[i + n..];
      CodeDecides(c);
      var good := CheckTail(text, i, n);
      if !good {
        return false;
      }
      i := i + n;
    }
    assert text[i..] == [];
    return true;
  }

  /** The inner loop: every tail byte, then the code point's range. */
  method CheckTail(text: seq<byte>, i: nat, n: nat) returns (ok: bool)
    requires i + n <= |text| && 2 <= n && n == CharLength(text[i]) && HeadBits(text[i]) >= 0
    ensures var c := text[i..i + n];
            ok <==> AllTails(c[1..]) && var code := CodePoint(HeadBits(c[0]), c[1..]);
                                        Minimum(n) <= code <= 0x10FFFF && !(0xD800 <= code <= 0xDFFF)
  {
    ghost var tails := text[i..i + n][1..];
    var code := HeadBits(text[i]);
    for j := 0 to n - 1
      invariant AllTails(tails[..j])
      invariant code == CodePoint(HeadBits(text[i]), tails[..j])
    {
      var next := text[i + 1 + j];
      assert tails[j] == next;
      assert tails[..j + 1][..j] == tails[..j];
      if !Tail(next) {
        return false;
      }
      code := code * 64 + (next as int - 0x80);
    }
    assert tails[..n - 1] == tails;
    ok := Minimum(n) <= code <= 0x10FFFF && !(0xD800 <= code <= 0xDFFF);
  }

  // ---------------------------------------- JSON strings, section 7 of RFC 8259

  const QUOTE := 0x22
  const BACKSLASH := 0x5C

  function HexDigit(v: nat): byte
    requires v < 16
  {
    if v < 10 then 0x30 + v else 0x61 + (v - 10)
  }

  function HexValue(b: byte): Option<nat> {
    if 0x30 <= b <= 0x39 then Some(b as int - 0x30)
    else if 0x61 <= b <= 0x66 then Some(b as int - 0x61 + 10)
    else if 0x41 <= b <= 0x46 then Some(b as int - 0x41 + 10)
    else None
  }

  lemma HexRoundTrip(v: nat)
    requires v < 16
    ensures HexValue(HexDigit(v)) == Some(v)
  {}

  function EscapeByte(b: byte): (s: seq<byte>)
    ensures s != []
  {
    if b == QUOTE || b == BACKSLASH then [BACKSLASH, b]
    else if b < 0x20 then [BACKSLASH, 0x75, 0x30, 0x30, HexDigit(b / 16), HexDigit(b % 16)]
    else [b]
  }

  function Escape(text: seq<byte>): seq<byte> {
    if text == [] then [] else EscapeByte(text[0]) + Escape(text[1..])
  }

  function Quoted(text: seq<byte>): seq<byte> { [QUOTE] + Escape(text) + [QUOTE] }

  /** The four digits of a \u escape. */
  function Hex4(s: seq<byte>): Option<nat>
    requires |s| >= 4
  {
    var a, b, c, d := HexValue(s[0]), HexValue(s[1]), HexValue(s[2]), HexValue(s[3]);
    if a.Some? && b.Some? && c.Some? && d.Some?
    then Some(((a.value * 16 + b.value) * 16 + c.value) * 16 + d.value) else None
  }

  /** A character below the surrogates, or above them in the first plane, as UTF-8. */
  function EncodeChar(v: nat): Option<seq<byte>> {
    if v < 0x80 then Some([v])
    else if v < 0x800 then Some([0xC0 + v / 64, 0x80 + v % 64])
    else if v < 0xD800 || 0xE000 <= v < 0x10000 then Some([0xE0 + v / 4096, 0x80 + v / 64 % 64, 0x80 + v % 64])
    else None
  }

  /** What a two-character escape stands for. */
  function ShortEscape(b: byte): Option<byte> {
    if b == QUOTE || b == BACKSLASH || b == 0x2F then Some(b)
    else if b == 0x62 then Some(0x08)
    else if b == 0x66 then Some(0x0C)
    else if b == 0x6E then Some(0x0A)
    else if b == 0x72 then Some(0x0D)
    else if b == 0x74 then Some(0x09)
    else None
  }

  /** One string token read up to its closing quote: the bytes it stands for and what follows. */
  function ReadString(s: seq<byte>): Option<(seq<byte>, seq<byte>)>
    decreases |s|
  {
    if s == [] then None
    else if s[0] == QUOTE then Some(([], s[1..]))
    else if s[0] < 0x20 then None
    else if s[0] != BACKSLASH then Prepend([s[0]], ReadString(s[1..]))
    else if |s| >= 6 && s[1] == 0x75 then
      (match Hex4(s[2..6])
       case None => None
       case Some(v) =>
         match EncodeChar(v)
         case None => None
         case Some(c) => Prepend(c, ReadString(s[6..])))
    else if |s| >= 2 && ShortEscape(s[1]).Some? then Prepend([ShortEscape(s[1]).value], ReadString(s[2..]))
    else None
  }

  function Prepend(c: seq<byte>, rest: Option<(seq<byte>, seq<byte>)>): Option<(seq<byte>, seq<byte>)> {
    if rest.None? then None else Some((c + rest.value.0, rest.value.1))
  }

  lemma EscapedByteReads(b: byte, rest: seq<byte>)
    ensures ReadString(EscapeByte(b) + rest) == Prepend([b], ReadString(rest))
  {
    var s := EscapeByte(b) + rest;
    if b == QUOTE || b == BACKSLASH {
      assert s[2..] == rest;
    } else if b < 0x20 {
      HexRoundTrip(b / 16);
      HexRoundTrip(b % 16);
      assert s[2..6] == [0x30, 0x30, HexDigit(b / 16), HexDigit(b % 16)] && s[6..] == rest;
    } else {
      assert s[1..] == rest;
    }
  }

  /** Reading an escaped string gives every byte back, whatever follows it. */
  lemma {:induction false} QuotedReads(text: seq<byte>, rest: seq<byte>)
    ensures ReadString(Escape(text) + [QUOTE] + rest) == Some((text, rest))
    decreases |text|
  {
    if text == [] {
      assert (Escape(text) + [QUOTE] + rest)[1..] == rest;
    } else {
      var tail := Escape(text[1..]) + [QUOTE] + rest;
      assert Escape(text) + [QUOTE] + rest == EscapeByte(text[0]) + tail;
      EscapedByteReads(text[0], tail);
      QuotedReads(text[1..], rest);
      assert [text[0]] + text[1..] == text;
    }
  }

  lemma {:induction false} EscapeAppend(a: seq<byte>, b: seq<byte>)
    ensures Escape(a + b) == Escape(a) + Escape(b)
    decreases |a|
  {
    if a == [] {
      assert a + b == b;
    } else {
      assert (a + b)[1..] == a[1..] + b;
      EscapeAppend(a[1..], b);
    }
  }

  lemma EscapeMore(text: seq<byte>, i: nat)
    requires i < |text|
    ensures Escape(text[..i + 1]) == Escape(text[..i]) + EscapeByte(text[i])
  {
    assert text[..i + 1] == text[..i] + [text[i]];
    EscapeAppend(text[..i], [text[i]]);
    assert Escape([text[i]]) == EscapeByte(text[i]) + Escape([]);
  }

  method AppendQuoted(out: seq<byte>, text: seq<byte>) returns (r: seq<byte>)
    ensures r == out + Quoted(text)
  {
    var body := [];
    for i := 0 to |text|
      invariant body == Escape(text[..i])
    {
      EscapeMore(text, i);
      var b := text[i];
      if b == QUOTE || b == BACKSLASH {
        body := body + [BACKSLASH, b];
      } else if b < 0x20 {
        body := body + [BACKSLASH, 0x75, 0x30, 0x30, HexDigit(b / 16), HexDigit(b % 16)];
      } else {
        body := body + [b];
      }
    }
    assert text[..|text|] == text;
    r := out + ([QUOTE] + body + [QUOTE]);
  }

  // ------------------------------------------------------------------ hex form

  function Hex(bytes: seq<byte>): seq<byte> {
    if bytes == [] then [] else [HexDigit(bytes[0] / 16), HexDigit(bytes[0] % 16)] + Hex(bytes[1..])
  }

  /** Pairs of digits up to the closing quote. */
  function ReadHex(s: seq<byte>): Option<(seq<byte>, seq<byte>)>
    decreases |s|
  {
    if s == [] then None
    else if s[0] == QUOTE then Some(([], s[1..]))
    else if |s| < 2 || HexValue(s[0]).None? || HexValue(s[1]).None? then None
    else Prepend([HexValue(s[0]).value * 16 + HexValue(s[1]).value], ReadHex(s[2..]))
  }

  lemma {:induction false} HexReads(bytes: seq<byte>, rest: seq<byte>)
    ensures ReadHex(Hex(bytes) + [QUOTE] + rest) == Some((bytes, rest))
    decreases |bytes|
  {
    var s := Hex(bytes) + [QUOTE] + rest;
    if bytes == [] {
      assert s[1..] == rest;
    } else {
      HexRoundTrip(bytes[0] / 16);
      HexRoundTrip(bytes[0] % 16);
      assert s[2..] == Hex(bytes[1..]) + [QUOTE] + rest;
      HexReads(bytes[1..], rest);
      assert [bytes[0]] + bytes[1..] == bytes;
    }
  }

  lemma {:induction false} HexAppend(a: seq<byte>, b: seq<byte>)
    ensures Hex(a + b) == Hex(a) + Hex(b)
    decreases |a|
  {
    if a == [] {
      assert a + b == b;
    } else {
      assert (a + b)[1..] == a[1..] + b;
      HexAppend(a[1..], b);
    }
  }

  // --------------------------------------------------------------- whole values

  function Ascii(s: string): (r: seq<byte>)
    ensures |r| == |s|
  {
    seq(|s|, i requires 0 <= i < |s| => s[i] as int % 256)
  }

  const HEX_PREFIX := "{\"encoding\":\"hex\",\"value\":\""
  const UTF8_PREFIX := "{\"encoding\":\"utf8\",\"value\":\""

  /** A byte string as exported: quoted if it is UTF-8, in hexadecimal otherwise. */
  ghost function Exported(bytes: seq<byte>): seq<byte> {
    if Utf8(bytes) then Ascii(UTF8_PREFIX) + Escape(bytes) + [QUOTE] + Ascii("}")
    else Ascii(HEX_PREFIX) + Hex(bytes) + [QUOTE] + Ascii("}")
  }

  predicate StartsWith(s: seq<byte>, p: seq<byte>) { |p| <= |s| && s[..|p|] == p }

  /** Reads an exported value back: either form, then the closing brace and nothing more. */
  function ReadExported(s: seq<byte>): Option<seq<byte>> {
    var token :=
      if StartsWith(s, Ascii(HEX_PREFIX)) then ReadHex(s[|HEX_PREFIX|..])
      else if StartsWith(s, Ascii(UTF8_PREFIX)) then ReadString(s[|UTF8_PREFIX|..])
      else None;
    if token.Some? && token.value.1 == Ascii("}") then Some(token.value.0) else None
  }

  lemma PrefixesDiffer()
    ensures Ascii(HEX_PREFIX)[13] != Ascii(UTF8_PREFIX)[13]
  {}

  lemma AfterPrefix(p: seq<byte>, rest: seq<byte>)
    ensures StartsWith(p + rest, p) && (p + rest)[|p|..] == rest
  {}

  /** Every byte string, UTF-8 or not, survives the export. */
  lemma ExportRoundTrip(bytes: seq<byte>)
    ensures ReadExported(Exported(bytes)) == Some(bytes)
  {
    var s, close := Exported(bytes), Ascii("}");
    if Utf8(bytes) {
      var p, rest := Ascii(UTF8_PREFIX), Escape(bytes) + [QUOTE] + close;
      assert s == p + rest;
      AfterPrefix(p, rest);
      PrefixesDiffer();
      assert s[..|HEX_PREFIX|][13] == p[13];
      QuotedReads(bytes, close);
    } else {
      var p, rest := Ascii(HEX_PREFIX), Hex(bytes) + [QUOTE] + close;
      assert s == p + rest;
      AfterPrefix(p, rest);
      HexReads(bytes, close);
    }
  }

  /** So no two byte strings share an export. */
  lemma ExportIsInjective(a: seq<byte>, b: seq<byte>)
    requires Exported(a) == Exported(b)
    ensures a == b
  {
    ExportRoundTrip(a);
    ExportRoundTrip(b);
  }

  /** Bytes a JSON string may hold as they are. */
  predicate Plain(s: seq<byte>) { forall k :: 0 <= k < |s| ==> s[k] >= 0x20 && s[k] != QUOTE && s[k] != BACKSLASH }

  lemma {:induction false} PlainEscapes(s: seq<byte>)
    requires Plain(s)
    ensures Escape(s) == s
  {
    if s != [] {
      PlainEscapes(s[1..]);
      assert [s[0]] + s[1..] == s;
    }
  }

  /** A run of plain bytes stands in an escaped string as it is. */
  lemma PlainRun(bytes: seq<byte>, i: nat, j: nat)
    requires i <= j <= |bytes| && Plain(bytes[i..j])
    ensures Escape(bytes) == Escape(bytes[..i]) + bytes[i..j] + Escape(bytes[j..])
  {
    hide Escape;
    var a, run, b := bytes[..i], bytes[i..j], bytes[j..];
    assert bytes == a + run + b;
    EscapeAppend(a + run, b);
    EscapeAppend(a, run);
    PlainEscapes(run);
  }

  /** Hexadecimal is only for what is not UTF-8: every valid text is exported as text, and any
      run of bytes in it without quotes, backslashes and controls stands there unchanged. */
  lemma ExportForm(bytes: seq<byte>, i: nat, j: nat)
    requires i <= j <= |bytes| && Plain(bytes[i..j])
    ensures Utf8(bytes) ==>
              Exported(bytes)
              == Ascii(UTF8_PREFIX) + (Escape(bytes[..i]) + bytes[i..j] + Escape(bytes[j..])) + [QUOTE] + Ascii("}")
    ensures !Utf8(bytes) ==> exists digits :: |digits| == 2 * |bytes| && Exported(bytes) == Ascii(HEX_PREFIX) + digits + [QUOTE] + Ascii("}")
  {
    hide Utf8, Ascii, Escape, Plain;
    PlainRun(bytes, i, j);
    HexSize(bytes);
  }

  lemma {:induction false} HexSize(bytes: seq<byte>)
    ensures |Hex(bytes)| == 2 * |bytes|
  {
    if bytes != [] {
      HexSize(bytes[1..]);
    }
  }

  method AppendHex(out: seq<byte>, bytes: seq<byte>) returns (r: seq<byte>)
    ensures r == out + (Ascii(HEX_PREFIX) + Hex(bytes) + [QUOTE] + Ascii("}"))
  {
    var digits := [];
    for i := 0 to |bytes|
      invariant digits == Hex(bytes[..i])
    {
      HexMore(bytes, i);
      digits := digits + [HexDigit(bytes[i] / 16), HexDigit(bytes[i] % 16)];
    }
    assert bytes[..|bytes|] == bytes;
    r := out + (Ascii(HEX_PREFIX) + digits + [QUOTE] + Ascii("}"));
  }

  lemma HexMore(bytes: seq<byte>, i: nat)
    requires i < |bytes|
    ensures Hex(bytes[..i + 1]) == Hex(bytes[..i]) + [HexDigit(bytes[i] / 16), HexDigit(bytes[i] % 16)]
  {
    assert bytes[..i + 1] == bytes[..i] + [bytes[i]];
    HexAppend(bytes[..i], [bytes[i]]);
    assert Hex([bytes[i]]) == [HexDigit(bytes[i] / 16), HexDigit(bytes[i] % 16)] + Hex([]);
  }

  method AppendText(out: seq<byte>, bytes: seq<byte>) returns (r: seq<byte>)
    ensures r == out + Exported(bytes)
  {
    var ok := ValidUtf8(bytes);
    if !ok {
      r := AppendHex(out, bytes);
      return;
    }
    var quoted := AppendQuoted([], bytes);
    r := out + (Ascii("{\"encoding\":\"utf8\",\"value\":") + quoted + Ascii("}"));
    OpeningQuote();
    Regroup(Ascii("{\"encoding\":\"utf8\",\"value\":"), [QUOTE], Escape(bytes), [QUOTE], Ascii("}"), quoted);
  }

  lemma Regroup(a: seq<byte>, b: seq<byte>, c: seq<byte>, d: seq<byte>, e: seq<byte>, quoted: seq<byte>)
    requires quoted == [] + (b + c + d)
    ensures a + quoted + e == (a + b) + c + d + e
  {}

  lemma OpeningQuote()
    ensures Ascii(UTF8_PREFIX) == Ascii("{\"encoding\":\"utf8\",\"value\":") + [QUOTE]
  {}

  // ------------------------------------------- what comes out is UTF-8 itself

  lemma Utf8Cons(c: seq<byte>, s: seq<byte>)
    requires Utf8Char(c) && Utf8(s)
    ensures Utf8(c + s)
  {
    assert (c + s)[..|c|] == c && (c + s)[|c|..] == s;
  }

  lemma {:induction false} Utf8Append(a: seq<byte>, b: seq<byte>)
    requires Utf8(a) && Utf8(b)
    ensures Utf8(a + b)
    decreases |a|
  {
    if a == [] {
      assert a + b == b;
    } else {
      var n :| 1 <= n <= |a| && Utf8Char(a[..n]) && Utf8(a[n..]);
      Utf8Append(a[n..], b);
      Utf8Step(a, b, n, a[n..] + b);
    }
  }

  lemma Utf8Step(a: seq<byte>, b: seq<byte>, n: nat, rest: seq<byte>)
    requires n <= |a| && Utf8Char(a[..n]) && rest == a[n..] + b && Utf8(rest)
    ensures Utf8(a + b)
  {
    Utf8Cons(a[..n], rest);
    Resplit(a, b, n);
  }

  lemma Resplit(a: seq<byte>, b: seq<byte>, n: nat)
    requires n <= |a|
    ensures a[..n] + (a[n..] + b) == a + b
  {}

  predicate AllAscii(s: seq<byte>) { forall k :: 0 <= k < |s| ==> s[k] < 0x80 }

  lemma {:induction false} AsciiIsUtf8(s: seq<byte>)
    requires AllAscii(s)
    ensures Utf8(s)
    decreases |s|
  {
    if s != [] {
      AsciiIsUtf8(s[1..]);
      assert Utf8Char(s[..1]);
    }
  }

  lemma {:induction false} HighBytesUnescaped(c: seq<byte>)
    requires forall k :: 0 <= k < |c| ==> c[k] >= 0x80
    ensures Escape(c) == c
  {
    if c != [] {
      HighBytesUnescaped(c[1..]);
      assert [c[0]] + c[1..] == c;
    }
  }

  lemma CharEscapes(c: seq<byte>)
    requires Utf8Char(c)
    ensures Utf8(Escape(c))
  {
    if |c| == 1 {
      assert c[1..] == [] && Escape(c) == EscapeByte(c[0]);
      AsciiIsUtf8(EscapeByte(c[0]));
    } else {
      HighBytesUnescaped(c);
      assert c[..|c|] == c && c[|c|..] == [];
      assert Utf8(c[|c|..]);
    }
  }

  lemma {:induction false} EscapeKeepsUtf8(text: seq<byte>)
    requires Utf8(text)
    ensures Utf8(Escape(text))
    decreases |text|
  {
    if text != [] {
      var n :| 1 <= n <= |text| && Utf8Char(text[..n]) && Utf8(text[n..]);
      hide Escape, Utf8Char, Utf8;
      CharEscapes(text[..n]);
      EscapeKeepsUtf8(text[n..]);
      EscapeAppend(text[..n], text[n..]);
      SplitBack(text, n);
      Utf8Append(Escape(text[..n]), Escape(text[n..]));
    }
  }

  lemma {:induction false} HexIsAscii(bytes: seq<byte>)
    ensures AllAscii(Hex(bytes))
  {
    if bytes != [] {
      HexIsAscii(bytes[1..]);
    }
  }

  lemma HexPrefixIsAscii()
    ensures AllAscii(Ascii(HEX_PREFIX))
  {}

  lemma Utf8PrefixIsAscii()
    ensures AllAscii(Ascii(UTF8_PREFIX))
  {}

  lemma CloseIsAscii()
    ensures AllAscii([QUOTE] + Ascii("}"))
  {}

  /** Whatever bytes go in, the exported value is valid UTF-8, as section 8.1 of RFC 8259 asks. */
  lemma ExportIsUtf8(bytes: seq<byte>)
    ensures Utf8(Exported(bytes))
  {
    var close := [QUOTE] + Ascii("}");
    CloseIsAscii();
    AsciiIsUtf8(close);
    if Utf8(bytes) {
      Utf8PrefixIsAscii();
      EscapeKeepsUtf8(bytes);
      FramedIsUtf8(Ascii(UTF8_PREFIX), Escape(bytes), close);
    } else {
      HexPrefixIsAscii();
      HexIsAscii(bytes);
      AsciiIsUtf8(Hex(bytes));
      FramedIsUtf8(Ascii(HEX_PREFIX), Hex(bytes), close);
    }
  }

  lemma FramedIsUtf8(p: seq<byte>, body: seq<byte>, close: seq<byte>)
    requires AllAscii(p) && Utf8(body) && Utf8(close) && |close| == 2
    ensures Utf8(p + body + close[..1] + close[1..])
  {
    AsciiIsUtf8(p);
    Utf8Append(p, body);
    Utf8Append(p + body, close);
    assert p + body + close[..1] + close[1..] == p + body + close;
  }
}
