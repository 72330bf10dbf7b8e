/** The padded standard base64 alphabet of section 4 of RFC 4648, with a decoder as strict as the
    client's: padding is required and canonical, and the bits it leaves over must be zero. */
module Base64 {
  import opened Types

  type Sextet = x: int | 0 <= x < 64

  const Pad := '='

  function Symbol(x: Sextet): char {
    if x < 26 then ('A' as int + x) as char
    else if x < 52 then ('a' as int + (x - 26)) as char
    else if x < 62 then ('0' as int + (x - 52)) as char
    else if x == 62 then '+' else '/'
  }

  function ValueOf(c: char): Option<Sextet> {
    if 'A' <= c <= 'Z' then Some(c as int - 'A' as int)
    else if 'a' <= c <= 'z' then Some(c as int - 'a' as int + 26)
    else if '0' <= c <= '9' then Some(c as int - '0' as int + 52)
    else if c == '+' then Some(62)
    else if c == '/' then Some(63)
    else None
  }

  /** Table 1 of RFC 4648. */
  const UPPER := "ABCDEFGHIJKLMNOPQRSTUVWXYZ"
  const LOWER := "abcdefghijklmnopqrstuvwxyz"
  const ALPHABET := UPPER + LOWER + "0123456789+/"

  lemma UpperCase(x: Sextet)
    requires x < 26
    ensures Symbol(x) == ALPHABET[x]
  {
    assert ALPHABET[x] == UPPER[x];
  }

  lemma LowerCase(x: Sextet)
    requires 26 <= x < 52
    ensures Symbol(x) == ALPHABET[x]
  {
  }

  lemma Digits(x: Sextet)
    requires 52 <= x < 62
    ensures Symbol(x) == ALPHABET[x]
  {
  }

  lemma SymbolsOfTable(x: Sextet)
    ensures |ALPHABET| == 64 && Symbol(x) == ALPHABET[x]
  {
    if x < 26 { UpperCase(x); } else if x < 52 { LowerCase(x); } else if x < 62 { Digits(x); }
  }

  lemma SymbolValue(c: char, x: Sextet)
    ensures ValueOf(c) == Some(x) <==> c == Symbol(x)
    ensures Symbol(x) != Pad && ValueOf(Pad).None?
  {
  }

  // ----- Groups -----

  function First(a: Byte): Sextet { a / 4 }
  function Second(a: Byte, b: Byte): Sextet { a % 4 * 16 + b / 16 }
  function Third(b: Byte, c: Byte): Sextet { b % 16 * 4 + c / 64 }
  function Fourth(c: Byte): Sextet { c % 64 }

  function ByteA(w: Sextet, x: Sextet): Byte { w * 4 + x / 16 }
  function ByteB(x: Sextet, y: Sextet): Byte { x % 16 * 16 + y / 4 }
  function ByteC(y: Sextet, z: Sextet): Byte { y % 4 * 64 + z }

  // Three bytes and four sextets hold the same 24 bits.

  lemma Unpacked(a: Byte, b: Byte, c: Byte)
    ensures ByteA(First(a), Second(a, b)) == a
    ensures ByteB(Second(a, b), Third(b, c)) == b
    ensures ByteC(Third(b, c), Fourth(c)) == c
  {
    assert Second(a, b) / 16 == a % 4 && Second(a, b) % 16 == b / 16;
    assert Third(b, c) / 4 == b % 16 && Third(b, c) % 4 == c / 64;
  }

  lemma Packed(w: Sextet, x: Sextet, y: Sextet, z: Sextet)
    ensures First(ByteA(w, x)) == w
    ensures Second(ByteA(w, x), ByteB(x, y)) == x
    ensures Third(ByteB(x, y), ByteC(y, z)) == y
    ensures Fourth(ByteC(y, z)) == z
  {
    assert ByteA(w, x) / 4 == w && ByteA(w, x) % 4 == x / 16;
    assert ByteB(x, y) / 16 == x % 16 && ByteB(x, y) % 16 == y / 4;
    assert ByteC(y, z) / 64 == y % 4 && ByteC(y, z) % 64 == z;
  }

  // ----- Whole strings -----

  function EncodeGroup(a: Byte, b: Byte, c: Byte): (g: string)
    ensures |g| == 4
  {
    [Symbol(First(a)), Symbol(Second(a, b)), Symbol(Third(b, c)), Symbol(Fourth(c))]
  }

  function Encode(v: Bytes): string {
    if |v| == 0 then ""
    else if |v| == 1 then [Symbol(First(v[0])), Symbol(Second(v[0], 0)), Pad, Pad]
    else if |v| == 2 then [Symbol(First(v[0])), Symbol(Second(v[0], v[1])), Symbol(Third(v[1], 0)), Pad]
    else EncodeGroup(v[0], v[1], v[2]) + Encode(v[3..])
  }

  /** A group that ends in padding. */
  function DecodeLast(p: char, q: char, r: char): Option<Bytes> {
    match (ValueOf(p), ValueOf(q), ValueOf(r))
    case (Some(w), Some(x), Some(y)) => if y % 4 == 0 then Some([ByteA(w, x), ByteB(x, y)]) else None
    case (Some(w), Some(x), None) => if r == Pad && x % 16 == 0 then Some([ByteA(w, x)]) else None
    case _ => None
  }

  function Decode(s: string): Option<Bytes> {
    if |s| == 0 then Some([])
    else if |s| < 4 then None
    else if |s| == 4 && s[3] == Pad then DecodeLast(s[0], s[1], s[2])
    else match (ValueOf(s[0]), ValueOf(s[1]), ValueOf(s[2]), ValueOf(s[3]))
      case (Some(w), Some(x), Some(y), Some(z)) =>
        (match Decode(s[4..])
         case Some(rest) => Some([ByteA(w, x), ByteB(x, y), ByteC(y, z)] + rest)
         case None => None)
      case _ => None
  }

  lemma DecodeOne(w: Sextet, x: Sextet)
    requires x % 16 == 0
    ensures DecodeLast(Symbol(w), Symbol(x), Pad) == Some([ByteA(w, x)])
  {
    SymbolValue(Symbol(w), w);
    SymbolValue(Symbol(x), x);
    SymbolValue(Pad, w);
  }

  lemma DecodeTwo(w: Sextet, x: Sextet, y: Sextet)
    requires y % 4 == 0
    ensures DecodeLast(Symbol(w), Symbol(x), Symbol(y)) == Some([ByteA(w, x), ByteB(x, y)])
  {
    SymbolValue(Symbol(w), w);
    SymbolValue(Symbol(x), x);
    SymbolValue(Symbol(y), y);
  }

  lemma DecodePadded(p: char, q: char, r: char)
    ensures Decode([p, q, r, Pad]) == DecodeLast(p, q, r)
  {
  }

  lemma OneByte(a: Byte)
    ensures Decode(Encode([a])) == Some([a])
  {
    DecodePadded(Symbol(First(a)), Symbol(Second(a, 0)), Pad);
    DecodeOne(First(a), Second(a, 0));
    Unpacked(a, 0, 0);
  }

  lemma TwoBytes(a: Byte, b: Byte)
    ensures Decode(Encode([a, b])) == Some([a, b])
  {
    DecodePadded(Symbol(First(a)), Symbol(Second(a, b)), Symbol(Third(b, 0)));
    DecodeTwo(First(a), Second(a, b), Third(b, 0));
    Unpacked(a, b, 0);
  }

  lemma DecodeGroup(a: Byte, b: Byte, c: Byte, rest: string)
    requires Decode(rest).Some?
    ensures Decode(EncodeGroup(a, b, c) + rest) == Some([a, b, c] + Decode(rest).value)
  {
    var s := EncodeGroup(a, b, c) + rest;
    assert s[0] == Symbol(First(a)) && s[1] == Symbol(Second(a, b));
    assert s[2] == Symbol(Third(b, c)) && s[3] == Symbol(Fourth(c));
    SymbolValue(s[0], First(a));
    SymbolValue(s[1], Second(a, b));
    SymbolValue(s[2], Third(b, c));
    SymbolValue(s[3], Fourth(c));
    Unpacked(a, b, c);
    assert s[4..] == rest;
  }

  lemma EncodeCons(a: Byte, b: Byte, c: Byte, rest: Bytes)
    ensures Encode([a, b, c] + rest) == EncodeGroup(a, b, c) + Encode(rest)
  {
    assert ([a, b, c] + rest)[3..] == rest;
  }

  /** All three padding cases. */
  lemma {:induction false} RoundTrip(v: Bytes)
    ensures Decode(Encode(v)) == Some(v)
  {
    if |v| == 0 {
    } else if |v| == 1 {
      OneByte(v[0]);
      assert v == [v[0]];
    } else if |v| == 2 {
      TwoBytes(v[0], v[1]);
      assert v == [v[0], v[1]];
    } else {
      var a, b, c, rest := v[0], v[1], v[2], v[3..];
      assert v == [a, b, c] + rest;
      RoundTrip(rest);
      EncodeCons(a, b, c, rest);
      DecodeGroup(a, b, c, Encode(rest));
    }
  }

  lemma GroupBack(p: char, q: char, r: char, t: char, w: Sextet, x: Sextet, y: Sextet, z: Sextet)
    requires ValueOf(p) == Some(w) && ValueOf(q) == Some(x) && ValueOf(r) == Some(y) && ValueOf(t) == Some(z)
    ensures EncodeGroup(ByteA(w, x), ByteB(x, y), ByteC(y, z)) == [p, q, r, t]
  {
    SymbolValue(p, w);
    SymbolValue(q, x);
    SymbolValue(r, y);
    SymbolValue(t, z);
    Packed(w, x, y, z);
  }

  lemma LastGroup(p: char, q: char, r: char)
    requires DecodeLast(p, q, r).Some?
    ensures Encode(DecodeLast(p, q, r).value) == [p, q, r, Pad]
  {
    var w, x := ValueOf(p).value, ValueOf(q).value;
    SymbolValue(p, w);
    SymbolValue(q, x);
    if ValueOf(r).Some? {
      var y := ValueOf(r).value;
      SymbolValue(r, y);
      Packed(w, x, y, 0);
      assert ByteC(y, 0) == 0;
    } else {
      Packed(w, x, 0, 0);
      assert ByteB(x, 0) == 0;
    }
  }

  /** Only the encoding of a value decodes to it: the decoder accepts nothing else. */
  lemma {:induction false} OnlyEncodings(s: string)
    ensures Decode(s).Some? ==> Encode(Decode(s).value) == s
  {
    if |s| >= 4 && Decode(s).Some? {
      if |s| == 4 && s[3] == Pad {
        LastGroup(s[0], s[1], s[2]);
        assert s == [s[0], s[1], s[2], Pad];
      } else {
        OnlyEncodings(s[4..]);
        var w, x, y, z := ValueOf(s[0]).value, ValueOf(s[1]).value, ValueOf(s[2]).value, ValueOf(s[3]).value;
        GroupBack(s[0], s[1], s[2], s[3], w, x, y, z);
        EncodeCons(ByteA(w, x), ByteB(x, y), ByteC(y, z), Decode(s[4..]).value);
        assert s == [s[0], s[1], s[2], s[3]] + s[4..];
      }
    }
  }

  /** The decoder accepts exactly the encodings, and inverts them. */
  lemma DecodesExactly(s: string, v: Bytes)
    ensures Decode(s) == Some(v) <==> s == Encode(v)
  {
    RoundTrip(v);
    OnlyEncodings(s);
  }

  /** Four symbols spell the 24 bits of three bytes, the first byte highest. */
  predicate Spells(p: char, q: char, r: char, t: char, a: Byte, b: Byte, c: Byte) {
    exists w: Sextet, x: Sextet, y: Sextet, z: Sextet ::
      && p == ALPHABET[w] && q == ALPHABET[x] && r == ALPHABET[y] && t == ALPHABET[z]
      && w * 0x40000 + x * 0x1000 + y * 0x40 + z == a * 0x10000 + b * 0x100 + c
  }

  lemma GroupSpells(a: Byte, b: Byte, c: Byte)
    ensures var g := EncodeGroup(a, b, c); Spells(g[0], g[1], g[2], g[3], a, b, c)
  {
    var w, x, y, z := First(a), Second(a, b), Third(b, c), Fourth(c);
    SymbolsOfTable(w);
    SymbolsOfTable(x);
    SymbolsOfTable(y);
    SymbolsOfTable(z);
  }

  /** Group `i` of the encoding spells the bytes from `3 * i` on: three bytes by four symbols; a last byte
      or two as if followed by zeros, with pads for the symbols that hold only those. */
  predicate Group(s: string, v: Bytes, i: nat)
    requires 3 * i < |v|
  {
    var left := |v| - 3 * i;
    && |s| >= 4 * i + 4
    && (left <= 3 ==> |s| == 4 * i + 4)
    && var p, q, r, t := s[4 * i], s[4 * i + 1], s[4 * i + 2], s[4 * i + 3];
      && (left >= 3 ==> Spells(p, q, r, t, v[3 * i], v[3 * i + 1], v[3 * i + 2]))
      && (left == 2 ==> t == '=' && Spells(p, q, r, 'A', v[3 * i], v[3 * i + 1], 0))
      && (left == 1 ==> r == '=' && t == '=' && Spells(p, q, 'A', 'A', v[3 * i], 0, 0))
  }

  lemma GroupLater(g: string, s: string, u: Bytes, v: Bytes, i: nat)
    requires |g| == 4 && |u| == 3 && 3 * i < |v| && Group(s, v, i)
    ensures Group(g + s, u + v, i + 1)
  {
    hide Spells;
  }

  lemma PaddedOne(a: Byte)
    ensures Spells(Symbol(First(a)), Symbol(Second(a, 0)), 'A', 'A', a, 0, 0)
  {
    hide Spells, First, Second;
    GroupSpells(a, 0, 0);
    assert Third(0, 0) == 0 && Fourth(0) == 0 && Symbol(0) == 'A';
  }

  lemma PaddedTwo(a: Byte, b: Byte)
    ensures Spells(Symbol(First(a)), Symbol(Second(a, b)), Symbol(Third(b, 0)), 'A', a, b, 0)
  {
    hide Spells, First, Second, Third;
    GroupSpells(a, b, 0);
    assert Fourth(0) == 0 && Symbol(0) == 'A';
  }

  lemma FirstGroup(a: Byte, b: Byte, c: Byte, rest: Bytes)
    ensures Group(Encode([a]), [a], 0) && Group(Encode([a, b]), [a, b], 0)
    ensures Group(EncodeGroup(a, b, c) + Encode(rest), [a, b, c] + rest, 0)
  {
    hide Spells, Symbol, First, Second, Third, Fourth;
    PaddedOne(a);
    PaddedTwo(a, b);
    GroupSpells(a, b, c);
  }

  /** The encoding is the one of section 4 of RFC 4648. */
  lemma {:induction false} StandardEncoding(v: Bytes, i: nat)
    requires 3 * i < |v|
    ensures Group(Encode(v), v, i)
  {
    hide Group, Encode, EncodeGroup;
    if |v| < 3 {
      FirstGroup(v[0], if |v| == 2 then v[1] else 0, 0, []);
      assert v == if |v| == 1 then [v[0]] else [v[0], v[1]];
    } else {
      var a, b, c, rest := v[0], v[1], v[2], v[3..];
      assert v == [a, b, c] + rest;
      EncodeCons(a, b, c, rest);
      if i == 0 {
        FirstGroup(a, b, c, rest);
      } else {
        StandardEncoding(rest, i - 1);
        GroupLater(EncodeGroup(a, b, c), Encode(rest), [a, b, c], rest, i - 1);
      }
    }
  }
}
