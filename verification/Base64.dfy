/** Standard base64, section 4 of RFC 4648, with a strict decoder: only alphabet
    characters, padding only at the end. Unused low bits of the last digit are not
    checked, so some texts decode without being what the encoder writes. */
module Base64 {
  import opened Bytes
  import opened Json

  type Sextet = d: int | 0 <= d < 64

  datatype Symbol = Digit(value: Sextet) | Pad

  // ------------------------------------------------------------------
  // The alphabet
  // ------------------------------------------------------------------

  function CharOf(s: Symbol): char {
    match s
    case Pad => '='
    case Digit(d) =>
      if d < 26 then ('A' as int + d) as char
      else if d < 52 then ('a' as int + (d - 26)) as char
      else if d < 62 then ('0' as int + (d - 52)) as char
      else if d == 62 then '+'
      else '/'
  }

  function SymbolOf(c: char): Decoded<Symbol> {
    if 'A' <= c <= 'Z' then Good(Digit(c as int - 'A' as int))
    else if 'a' <= c <= 'z' then Good(Digit(c as int - 'a' as int + 26))
    else if '0' <= c <= '9' then Good(Digit(c as int - '0' as int + 52))
    else if c == '+' then Good(Digit(62))
    else if c == '/' then Good(Digit(63))
    else if c == '=' then Good(Pad)
    else Bad
  }

  lemma AlphabetRoundTrip(s: Symbol, c: char)
    ensures SymbolOf(CharOf(s)) == Good(s)
    ensures SymbolOf(c) == Good(s) ==> CharOf(s) == c
  {
  }

  function TextOf(symbols: seq<Symbol>): string {
    if symbols == [] then "" else [CharOf(symbols[0])] + TextOf(symbols[1..])
  }

  function SymbolsOf(text: string): Decoded<seq<Symbol>> {
    if text == "" then Good([])
    else
      var s :- SymbolOf(text[0]);
      var rest :- SymbolsOf(text[1..]);
      Good([s] + rest)
  }

  lemma {:induction false} SymbolsOfText(symbols: seq<Symbol>)
    ensures SymbolsOf(TextOf(symbols)) == Good(symbols)
  {
    if symbols == [] {
    } else {
      AlphabetRoundTrip(symbols[0], CharOf(symbols[0]));
      SymbolsOfText(symbols[1..]);
      assert TextOf(symbols)[1..] == TextOf(symbols[1..]);
      assert symbols == [symbols[0]] + symbols[1..];
    }
  }

  lemma {:induction false} TextOfSymbols(text: string)
    requires SymbolsOf(text).Good?
    ensures TextOf(SymbolsOf(text).value) == text
  {
    if text == "" {
    } else {
      var s, rest := SymbolOf(text[0]).value, SymbolsOf(text[1..]).value;
      AlphabetRoundTrip(s, text[0]);
      TextOfSymbols(text[1..]);
      assert ([s] + rest)[1..] == rest;
      assert text == [text[0]] + text[1..];
    }
  }

  // ------------------------------------------------------------------
  // Groups of three bytes and four symbols
  // ------------------------------------------------------------------

  function Group(bytes: seq<Byte>): seq<Symbol> {
    if bytes == [] then []
    else if |bytes| == 1 then Group1(bytes[0])
    else if |bytes| == 2 then Group2(bytes[0], bytes[1])
    else Group3(bytes[0], bytes[1], bytes[2]) + Group(bytes[3..])
  }

  function Group1(a: Byte): seq<Symbol> {
    [Digit(a / 4), Digit(a % 4 * 16), Pad, Pad]
  }

  function Group2(a: Byte, b: Byte): seq<Symbol> {
    [Digit(a / 4), Digit(a % 4 * 16 + b / 16), Digit(b % 16 * 4), Pad]
  }

  function Group3(a: Byte, b: Byte, c: Byte): seq<Symbol> {
    [Digit(a / 4), Digit(a % 4 * 16 + b / 16), Digit(b % 16 * 4 + c / 64), Digit(c % 64)]
  }

  function Ungroup(symbols: seq<Symbol>): Decoded<seq<Byte>> {
    if symbols == [] then Good([])
    else if |symbols| < 4 then Bad
    else
      var head :- Quad(symbols[0], symbols[1], symbols[2], symbols[3], |symbols| == 4);
      var tail :- Ungroup(symbols[4..]);
      Good(head + tail)
  }

  /** One group of four symbols; padding is read only in the last group. */
  function Quad(w: Symbol, x: Symbol, y: Symbol, z: Symbol, last: bool): Decoded<seq<Byte>> {
    match (w, x, y, z)
    case (Digit(d0), Digit(d1), Digit(d2), Digit(d3)) =>
      Good([d0 * 4 + d1 / 16, d1 % 16 * 16 + d2 / 4, d2 % 4 * 64 + d3])
    case (Digit(d0), Digit(d1), Digit(d2), Pad) =>
      if last then Good([d0 * 4 + d1 / 16, d1 % 16 * 16 + d2 / 4]) else Bad
    case (Digit(d0), Digit(d1), Pad, Pad) =>
      if last then Good([d0 * 4 + d1 / 16]) else Bad
    case _ => Bad
  }

  function Encode(bytes: seq<Byte>): string {
    TextOf(Group(bytes))
  }

  function Decode(text: string): Decoded<seq<Byte>> {
    var symbols :- SymbolsOf(text);
    Ungroup(symbols)
  }

  lemma UngroupOne(w: Symbol, x: Symbol, y: Symbol, z: Symbol)
    ensures Ungroup([w, x, y, z]) == Quad(w, x, y, z, true)
  {
    assert [w, x, y, z][4..] == [];
    var head := Quad(w, x, y, z, true);
    if head.Good? {
      assert head.value + [] == head.value;
    }
  }

  lemma UngroupMore(w: Symbol, x: Symbol, y: Symbol, z: Symbol, rest: seq<Symbol>)
    requires rest != []
    ensures var head, tail := Quad(w, x, y, z, false), Ungroup(rest);
            Ungroup([w, x, y, z] + rest) == if head.Good? && tail.Good? then Good(head.value + tail.value) else Bad
  {
    assert ([w, x, y, z] + rest)[4..] == rest;
  }

  lemma GroupMore(a: Byte, b: Byte, c: Byte, tail: seq<Byte>)
    ensures Group([a, b, c] + tail) == Group3(a, b, c) + Group(tail)
  {
    assert ([a, b, c] + tail)[3..] == tail;
  }

  lemma FirstByte(a: Byte, high: int)
    requires 0 <= high < 16
    ensures a / 4 * 4 + (a % 4 * 16 + high) / 16 == a
  {
  }

  lemma SecondByte(low: int, b: Byte, high: int)
    requires 0 <= low < 4 && 0 <= high < 4
    ensures (low * 16 + b / 16) % 16 * 16 + (b % 16 * 4 + high) / 4 == b
  {
    assert (low * 16 + b / 16) % 16 == b / 16;
  }

  lemma ThirdByte(low: int, c: Byte)
    requires 0 <= low < 16
    ensures (low * 4 + c / 64) % 4 * 64 + c % 64 == c
  {
    assert (low * 4 + c / 64) % 4 == c / 64;
  }

  lemma QuadOfGroup1(a: Byte)
    ensures var g := Group1(a); Quad(g[0], g[1], g[2], g[3], true) == Good([a])
  {
    FirstByte(a, 0);
  }

  lemma QuadOfGroup2(a: Byte, b: Byte)
    ensures var g := Group2(a, b); Quad(g[0], g[1], g[2], g[3], true) == Good([a, b])
  {
    FirstByte(a, b / 16);
    SecondByte(a % 4, b, 0);
  }

  lemma QuadOfGroup3(a: Byte, b: Byte, c: Byte, last: bool)
    ensures var g := Group3(a, b, c); Quad(g[0], g[1], g[2], g[3], last) == Good([a, b, c])
  {
    FirstByte(a, b / 16);
    SecondByte(a % 4, b, c / 64);
    ThirdByte(b % 16, c);
  }

  lemma UngroupShort(bytes: seq<Byte>)
    requires 1 <= |bytes| <= 2
    ensures Ungroup(Group(bytes)) == Good(bytes)
  {
    if |bytes| == 1 {
      var g := Group1(bytes[0]);
      QuadOfGroup1(bytes[0]);
      UngroupOne(g[0], g[1], g[2], g[3]);
      assert bytes == [bytes[0]];
    } else {
      var g := Group2(bytes[0], bytes[1]);
      QuadOfGroup2(bytes[0], bytes[1]);
      UngroupOne(g[0], g[1], g[2], g[3]);
      assert bytes == [bytes[0], bytes[1]];
    }
  }

  lemma {:induction false} UngroupGroup(bytes: seq<Byte>)
    ensures Ungroup(Group(bytes)) == Good(bytes)
  {
    if 1 <= |bytes| <= 2 {
      UngroupShort(bytes);
    } else if |bytes| >= 3 {
      var a, b, c, tail := bytes[0], bytes[1], bytes[2], bytes[3..];
      assert bytes == [a, b, c] + tail;
      GroupMore(a, b, c, tail);
      QuadOfGroup3(a, b, c, tail == []);
      var g := Group3(a, b, c);
      if tail == [] {
        UngroupOne(g[0], g[1], g[2], g[3]);
        assert Group(bytes) == g;
      } else {
        UngroupGroup(tail);
        UngroupMore(g[0], g[1], g[2], g[3], Group(tail));
      }
    }
  }

  /** Decoding undoes encoding, on every byte string. */
  lemma DecodeEncode(bytes: seq<Byte>)
    ensures Decode(Encode(bytes)) == Good(bytes)
  {
    SymbolsOfText(Group(bytes));
    UngroupGroup(bytes);
  }

  // ------------------------------------------------------------------
  // Canonical texts
  // ------------------------------------------------------------------

  /** The low bits that the padding of the last group leaves unused are zero. */
  predicate NoStrayBits(symbols: seq<Symbol>) {
    var n := |symbols|;
    n >= 4 && symbols[n - 1].Pad? ==>
      match (symbols[n - 3], symbols[n - 2])
      case (Digit(d1), Pad) => d1 % 16 == 0
      case (_, Digit(d2)) => d2 % 4 == 0
      case _ => true
  }

  lemma SplitByte(high: int, d: Sextet, base: int)
    requires base in {4, 16, 64} && 0 <= high && 0 <= d < base
    ensures (high * base + d) / base == high && (high * base + d) % base == d
  {
  }

  lemma QuadBack3(d0: Sextet, d1: Sextet, d2: Sextet, d3: Sextet)
    ensures Group3(d0 * 4 + d1 / 16, d1 % 16 * 16 + d2 / 4, d2 % 4 * 64 + d3) ==
            [Digit(d0), Digit(d1), Digit(d2), Digit(d3)]
  {
    SplitByte(d0, d1 / 16, 4);
    SplitByte(d1 % 16, d2 / 4, 16);
    SplitByte(d2 % 4, d3, 64);
  }

  lemma QuadBack(w: Symbol, x: Symbol, y: Symbol, z: Symbol)
    requires Quad(w, x, y, z, true).Good?
    ensures Group(Quad(w, x, y, z, true).value) == [w, x, y, z] <==> NoStrayBits([w, x, y, z])
  {
    var v := Quad(w, x, y, z, true).value;
    if z.Digit? {
      QuadBack3(w.value, x.value, y.value, z.value);
      GroupMore(v[0], v[1], v[2], []);
      assert v == [v[0], v[1], v[2]] + [];
    } else if y.Digit? {
      var g := Group2(v[0], v[1]);
      assert Group(v) == g && g[0] == w && g[1] == x && g[3] == z;
      assert g[2] == y <==> y.value % 4 == 0;
    } else {
      var g := Group1(v[0]);
      assert Group(v) == g && g[0] == w && g[2] == y && g[3] == z;
      assert g[1] == x <==> x.value % 16 == 0;
    }
  }

  lemma StrayBitsAreLast(w: Symbol, x: Symbol, y: Symbol, z: Symbol, rest: seq<Symbol>)
    requires |rest| >= 4
    ensures NoStrayBits([w, x, y, z] + rest) <==> NoStrayBits(rest)
  {
    var all := [w, x, y, z] + rest;
    var n, m := |all|, |rest|;
    assert all[n - 1] == rest[m - 1] && all[n - 2] == rest[m - 2] && all[n - 3] == rest[m - 3];
  }

  lemma GroupFirst(w: Symbol, x: Symbol, y: Symbol, z: Symbol, tail: seq<Byte>)
    requires Quad(w, x, y, z, false).Good?
    ensures Group(Quad(w, x, y, z, false).value + tail) == [w, x, y, z] + Group(tail)
  {
    var head := Quad(w, x, y, z, false).value;
    QuadBack3(w.value, x.value, y.value, z.value);
    assert head == [head[0], head[1], head[2]];
    GroupMore(head[0], head[1], head[2], tail);
  }

  lemma {:induction false} GroupUngroup(symbols: seq<Symbol>)
    requires Ungroup(symbols).Good?
    ensures Group(Ungroup(symbols).value) == symbols <==> NoStrayBits(symbols)
  {
    if symbols == [] {
    } else {
      var w, x, y, z, rest := symbols[0], symbols[1], symbols[2], symbols[3], symbols[4..];
      assert symbols == [w, x, y, z] + rest;
      if rest == [] {
        UngroupOne(w, x, y, z);
        QuadBack(w, x, y, z);
      } else {
        UngroupMore(w, x, y, z, rest);
        GroupUngroup(rest);
        var tail := Ungroup(rest).value;
        GroupFirst(w, x, y, z, tail);
        assert ([w, x, y, z] + Group(tail))[4..] == Group(tail);
        StrayBitsAreLast(w, x, y, z, rest);
      }
    }
  }

  /** Exactly which accepted texts are what the encoder would write. */
  lemma EncodeDecode(text: string)
    requires Decode(text).Good?
    ensures Encode(Decode(text).value) == text <==> NoStrayBits(SymbolsOf(text).value)
  {
    var symbols := SymbolsOf(text).value;
    var again := Group(Decode(text).value);
    TextOfSymbols(text);
    GroupUngroup(symbols);
    SymbolsOfText(again);
  }

  // ------------------------------------------------------------------
  // Against the standard's own table and test vectors
  // ------------------------------------------------------------------

  const UPPER := "ABCDEFGHIJKLMNOPQRSTUVWXYZ"
  const LOWER := "abcdefghijklmnopqrstuvwxyz"
  const DIGITS := "0123456789"
  const ALPHABET := UPPER + LOWER + DIGITS + "+/"

  lemma Upper(i: nat)
    requires i < 26
    ensures |UPPER| == 26 && UPPER[i] as int == 'A' as int + i
  {
  }

  lemma Lower(i: nat)
    requires i < 26
    ensures |LOWER| == 26 && LOWER[i] as int == 'a' as int + i
  {
  }

  lemma Digits(i: nat)
    requires i < 10
    ensures |DIGITS| == 10 && DIGITS[i] as int == '0' as int + i
  {
  }

  /** Table 1 of RFC 4648. */
  lemma AlphabetIsTheTable(d: Sextet)
    ensures |ALPHABET| == 64 && CharOf(Digit(d)) == ALPHABET[d] && CharOf(Pad) == '='
  {
    if d < 26 {
      Upper(d);
    } else if d < 52 {
      Lower(d - 26);
    } else if d < 62 {
      Digits(d - 52);
    }
  }

  lemma TextOfFour(w: Symbol, x: Symbol, y: Symbol, z: Symbol)
    ensures TextOf([w, x, y, z]) == [CharOf(w), CharOf(x), CharOf(y), CharOf(z)]
  {
    assert [w, x, y, z][1..] == [x, y, z] && [x, y, z][1..] == [y, z] && [y, z][1..] == [z] && [z][1..] == [];
    assert TextOf([z]) == [CharOf(z)];
    assert TextOf([y, z]) == [CharOf(y), CharOf(z)];
    assert TextOf([x, y, z]) == [CharOf(x), CharOf(y), CharOf(z)];
  }

  /** Section 10 of RFC 4648: "", "f", "fo" and "foo". */
  lemma TestVectors()
    ensures Encode([]) == "" && Encode([102]) == "Zg==" && Encode([102, 111]) == "Zm8="
            && Encode([102, 111, 111]) == "Zm9v"
  {
    VectorF();
    VectorFo();
    VectorFoo();
  }

  lemma VectorF()
    ensures Encode([102]) == "Zg=="
  {
    assert Group([102]) == [Digit(25), Digit(32), Pad, Pad];
    TextOfFour(Digit(25), Digit(32), Pad, Pad);
  }

  lemma VectorFo()
    ensures Encode([102, 111]) == "Zm8="
  {
    assert Group([102, 111]) == [Digit(25), Digit(38), Digit(60), Pad];
    TextOfFour(Digit(25), Digit(38), Digit(60), Pad);
  }

  lemma VectorFoo()
    ensures Encode([102, 111, 111]) == "Zm9v"
  {
    GroupMore(102, 111, 111, []);
    assert [102, 111, 111] + [] == [102, 111, 111];
    assert Group([102, 111, 111]) == [Digit(25), Digit(38), Digit(61), Digit(47)];
    TextOfFour(Digit(25), Digit(38), Digit(61), Digit(47));
  }
}
