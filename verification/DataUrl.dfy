/** The body of a `data:` URL: forgiving base64 (the "Forgiving base64"
    section of the WHATWG Infra Standard) and percent decoding. */
module DataUrl {
  import opened Bytes
  import opened Options

  // ---------------------------------------------------------------- base64

  predicate IsWhitespace(b: Byte) {
    b == 0x20 || b == 0x09 || b == 0x0a || b == 0x0d || b == 0x0c
  }

  function Stripped(input: seq<Byte>): seq<Byte> {
    if input == [] then []
    else (if IsWhitespace(input[0]) then [] else [input[0]]) + Stripped(input[1..])
  }

  /** The value of a symbol of the standard alphabet. */
  function Value(b: Byte): (v: Option<nat>)
    ensures v.Some? ==> v.value < 64
  {
    if 0x41 <= b <= 0x5a then Some((b - 0x41) as nat)
    else if 0x61 <= b <= 0x7a then Some((b - 0x61) as nat + 26)
    else if 0x30 <= b <= 0x39 then Some((b - 0x30) as nat + 52)
    else if b == 0x2b then Some(62)
    else if b == 0x2f then Some(63)
    else None
  }

  predicate AllSymbols(data: seq<Byte>) {
    forall i :: 0 <= i < |data| ==> Value(data[i]).Some?
  }

  function DropPad(data: seq<Byte>): seq<Byte> {
    if data != [] && data[|data| - 1] == 0x3d then data[..|data| - 1] else data
  }

  /** Up to two `=` at the end are dropped, of whole groups only. */
  function Unpadded(data: seq<Byte>): seq<Byte> {
    if |data| % 4 == 0 then DropPad(DropPad(data)) else data
  }

  function Values(data: seq<Byte>): (v: seq<nat>)
    requires AllSymbols(data)
    ensures |v| == |data| && forall i :: 0 <= i < |v| ==> v[i] < 64 && Value(data[i]) == Some(v[i])
  {
    if data == [] then [] else Values(data[..|data| - 1]) + [Value(data[|data| - 1]).value]
  }

  predicate Sextets(values: seq<nat>) {
    forall i :: 0 <= i < |values| ==> values[i] < 64
  }

  /** Four sextets make three octets; a last two make one and a last three
      make two, their spare bits dropped. */
  function Octets(values: seq<nat>): seq<Byte>
    requires Sextets(values)
  {
    if |values| < 2 then []
    else if |values| == 2 then [First(values[0], values[1])]
    else if |values| == 3 then [First(values[0], values[1]), Second(values[1], values[2])]
    else [First(values[0], values[1]), Second(values[1], values[2]), Third(values[2], values[3])] + Octets(values[4..])
  }

  function First(a: nat, b: nat): Byte
    requires a < 64 && b < 64
  {
    (a * 4 + b / 16) as Byte
  }

  function Second(b: nat, c: nat): Byte
    requires b < 64 && c < 64
  {
    (b % 16 * 16 + c / 4) as Byte
  }

  function Third(c: nat, d: nat): Byte
    requires c < 64 && d < 64
  {
    (c % 4 * 64 + d) as Byte
  }

  function Decoded(input: seq<Byte>): Option<seq<Byte>> {
    var data := Unpadded(Stripped(input));
    if |data| % 4 == 1 || !AllSymbols(data) then None else Some(Octets(Values(data)))
  }

  // ------------------------------------------------------- the shift buffer

  const WORD := 0x1_0000_0000

  /** A sextet shifted into a 32-bit word pushes the oldest bits out. */
  function Shifted(buffer: nat, value: nat): nat {
    (buffer * 64 + value) % WORD
  }

  /** Whatever was pushed out, the last twelve bits are the last sextet of
      the old word above the new one. */
  lemma ShiftedLow(buffer: nat, value: nat)
    requires value < 64
    ensures Shifted(buffer, value) % 4096 == (buffer % 64) * 64 + value
  {
    var high, low := buffer / 64, buffer % 64;
    var x := buffer * 64 + value;
    var lost := x / WORD;
    assert x == 4096 * high + 64 * low + value;
    assert Shifted(buffer, value) == 4096 * (high - 0x10_0000 * lost) + (64 * low + value);
  }

  /** The byte eight bits above the last `bits` of the word. */
  function Emitted(buffer: nat, bits: nat): Byte
    requires bits == 0 || bits == 2 || bits == 4
  {
    (if bits == 0 then buffer % 256 else if bits == 2 then (buffer / 4) % 256 else (buffer / 16) % 256) as Byte
  }

  lemma By4(q: nat, r: nat)
    requires r < 4
    ensures (4 * q + r) / 4 == q && (4 * q + r) % 4 == r
  {
  }

  lemma By16(q: nat, r: nat)
    requires r < 16
    ensures (16 * q + r) / 16 == q && (16 * q + r) % 16 == r
  {
  }

  lemma By256(q: nat, r: nat)
    requires r < 256
    ensures (256 * q + r) / 256 == q && (256 * q + r) % 256 == r
  {
  }

  lemma EmitsFirst(word: nat, a: nat, b: nat)
    requires a < 64 && b < 64 && word % 4096 == a * 64 + b
    ensures Emitted(word, 4) == First(a, b)
  {
    var k, e, f := word / 4096, (a * 64 + b) / 16, (a * 64 + b) % 16;
    assert a * 64 + b == 16 * e + f;
    assert word == 16 * (256 * k + e) + f;
    By16(256 * k + e, f);
    By256(k, e);
  }

  lemma EmitsSecond(word: nat, b: nat, c: nat)
    requires b < 64 && c < 64 && word % 4096 == b * 64 + c
    ensures Emitted(word, 2) == Second(b, c)
  {
    var k, g, h := word / 4096, b / 16, b % 16;
    var e, f := (h * 64 + c) / 4, (h * 64 + c) % 4;
    assert b == 16 * g + h && h * 64 + c == 4 * e + f;
    assert word == 4 * (256 * (4 * k + g) + e) + f;
    By4(256 * (4 * k + g) + e, f);
    By256(4 * k + g, e);
  }

  lemma EmitsThird(word: nat, c: nat, d: nat)
    requires c < 64 && d < 64 && word % 4096 == c * 64 + d
    ensures Emitted(word, 0) == Third(c, d)
  {
    var k, g, h := word / 4096, c / 4, c % 4;
    assert c == 4 * g + h;
    assert word == 256 * (16 * k + g) + (h * 64 + d);
    By256(16 * k + g, h * 64 + d);
  }

  /** How many bits `n` sextets leave behind the last whole octet. */
  function SpareBits(n: nat): nat {
    if n % 4 == 0 then 0 else if n % 4 == 1 then 6 else if n % 4 == 2 then 4 else 2
  }

  /** What one more sextet adds to the octets. */
  function Gain(values: seq<nat>, value: nat): seq<Byte>
    requires Sextets(values) && value < 64
  {
    if |values| % 4 == 0 then []
    else
      var last := values[|values| - 1];
      if |values| % 4 == 1 then [First(last, value)]
      else if |values| % 4 == 2 then [Second(last, value)]
      else [Third(last, value)]
  }

  lemma {:induction false} FirstGroupGrows(values: seq<nat>, value: nat)
    requires Sextets(values) && value < 64 && |values| < 4
    ensures Octets(values + [value]) == Octets(values) + Gain(values, value)
  {
    if |values| == 3 {
      assert (values + [value])[4..] == [];
    }
  }

  lemma {:induction false} OctetsUnfold(v: seq<nat>)
    requires Sextets(v) && |v| >= 4
    ensures Octets(v) == [First(v[0], v[1]), Second(v[1], v[2]), Third(v[2], v[3])] + Octets(v[4..])
  {
  }

  lemma GroupThenRest(group: seq<nat>, rest: seq<nat>)
    requires Sextets(group) && |group| == 4 && Sextets(rest)
    ensures Octets(group + rest) == Octets(group) + Octets(rest)
  {
    OctetsUnfold(group + rest);
    OctetsUnfold(group);
    assert (group + rest)[4..] == rest && group[4..] == [];
  }

  lemma SameGain(group: seq<nat>, rest: seq<nat>, value: nat)
    requires Sextets(group) && |group| == 4 && Sextets(rest) && value < 64
    ensures Gain(group + rest, value) == Gain(rest, value)
  {
    assert |group + rest| % 4 == |rest| % 4;
  }

  lemma {:induction false} OctetsGrow(values: seq<nat>, value: nat)
    requires Sextets(values) && value < 64
    ensures Octets(values + [value]) == Octets(values) + Gain(values, value)
    decreases |values|
  {
    if |values| < 4 {
      FirstGroupGrows(values, value);
    } else {
      var group, rest := values[..4], values[4..];
      assert values == group + rest && values + [value] == group + (rest + [value]);
      OctetsGrow(rest, value);
      GroupThenRest(group, rest);
      GroupThenRest(group, rest + [value]);
      SameGain(group, rest, value);
    }
  }

  /** What the decoder's variables say once it has read `values`. */
  predicate Holds(values: seq<nat>, buffer: nat, bits: nat, out: seq<Byte>) {
    && Sextets(values)
    && bits == SpareBits(|values|)
    && out == Octets(values)
    && (values != [] ==> buffer % 64 == values[|values| - 1])
  }

  /** The byte a sextet completes is the one the octets gain. */
  lemma EmitsTheGain(values: seq<nat>, value: nat, buffer: nat)
    requires Sextets(values) && value < 64 && (values != [] ==> buffer % 64 == values[|values| - 1])
    ensures |values| % 4 != 0 ==> Gain(values, value) == [Emitted(Shifted(buffer, value), SpareBits(|values|) - 2)]
  {
    ShiftedLow(buffer, value);
    var word := Shifted(buffer, value);
    if |values| % 4 == 1 {
      EmitsFirst(word, buffer % 64, value);
    } else if |values| % 4 == 2 {
      EmitsSecond(word, buffer % 64, value);
    } else if |values| % 4 == 3 {
      EmitsThird(word, buffer % 64, value);
    }
  }

  lemma LastSextetStays(buffer: nat, value: nat)
    requires value < 64
    ensures Shifted(buffer, value) % 64 == value
  {
    ShiftedLow(buffer, value);
    var word := Shifted(buffer, value);
    assert word == 64 * (64 * (word / 4096) + buffer % 64) + value;
  }

  lemma SpareBitsStep(n: nat)
    ensures if n % 4 == 0 then SpareBits(n) == 0 && SpareBits(n + 1) == 6
            else SpareBits(n) >= 2 && SpareBits(n + 1) == SpareBits(n) - 2
  {
  }

  lemma OneMoreSextet(values: seq<nat>, value: nat, buffer: nat, bits: nat, out: seq<Byte>)
    requires Holds(values, buffer, bits, out) && value < 64
    ensures var word := Shifted(buffer, value);
            if bits + 6 >= 8 then Holds(values + [value], word, bits - 2, out + [Emitted(word, bits - 2)])
            else Holds(values + [value], word, bits + 6, out)
  {
    EmitsTheGain(values, value, buffer);
    LastSextetStays(buffer, value);
    SpareBitsStep(|values|);
    OctetsGrow(values, value);
    assert out + [] == out;
  }

  lemma ValuesSnoc(data: seq<Byte>, k: nat)
    requires k < |data| && AllSymbols(data[..k]) && Value(data[k]).Some?
    ensures AllSymbols(data[..k + 1])
    ensures Values(data[..k + 1]) == Values(data[..k]) + [Value(data[k]).value]
  {
    assert data[..k + 1][..k] == data[..k];
  }

  /** One pass over the data, six bits at a time through a 32-bit buffer. */
  method DecodeSextets(data: seq<Byte>) returns (output: Option<seq<Byte>>)
    ensures output == if AllSymbols(data) then Some(Octets(Values(data))) else None
  {
    var out: seq<Byte> := [];
    var buffer: nat, bits: nat := 0, 0;
    for k := 0 to |data|
      invariant AllSymbols(data[..k])
      invariant Holds(Values(data[..k]), buffer, bits, out)
    {
      var value := Value(data[k]);
      if value.None? {
        return None;
      }
      OneMoreSextet(Values(data[..k]), value.value, buffer, bits, out);
      ValuesSnoc(data, k);
      buffer := Shifted(buffer, value.value);
      bits := bits + 6;
      if bits >= 8 {
        bits := bits - 8;
        out := out + [Emitted(buffer, bits)];
      }
    }
    assert data[..|data|] == data;
    return Some(out);
  }

  method DecodeForgivingBase64(input: seq<Byte>) returns (output: Option<seq<Byte>>)
    ensures output == Decoded(input)
  {
    var data := Stripped(input);
    ghost var stripped := data;
    if |data| % 4 == 0 {
      if data != [] && data[|data| - 1] == 0x3d {
        data := data[..|data| - 1];
      }
      assert data == DropPad(stripped);
      if data != [] && data[|data| - 1] == 0x3d {
        data := data[..|data| - 1];
      }
      assert data == DropPad(DropPad(stripped));
    }
    assert data == Unpadded(stripped);
    if |data| % 4 == 1 {
      return None;
    }
    output := DecodeSextets(data);
  }

  // ---------------------------------------------------------- the encoding

  /** The symbol of the standard alphabet for a sextet. */
  function Symbol(v: nat): (b: Byte)
    requires v < 64
    ensures Value(b) == Some(v) && !IsWhitespace(b) && b != 0x3d
  {
    if v < 26 then (v + 0x41) as Byte
    else if v < 52 then (v + 0x47) as Byte
    else if v < 62 then (v - 4) as Byte
    else if v == 62 then 0x2b
    else 0x2f
  }

  /** Three octets make four sextets; a last one makes two, a last two make
      three, their spare bits zero. */
  function SextetsOf(bytes: seq<Byte>): (v: seq<nat>)
    ensures Sextets(v)
    ensures |v| == (4 * |bytes| + 2) / 3
  {
    if bytes == [] then []
    else
      var a := bytes[0] as nat;
      if |bytes| == 1 then [a / 4, a % 4 * 16]
      else
        var b := bytes[1] as nat;
        if |bytes| == 2 then [a / 4, a % 4 * 16 + b / 16, b % 16 * 4]
        else
          var c := bytes[2] as nat;
          [a / 4, a % 4 * 16 + b / 16, b % 16 * 4 + c / 64, c % 64] + SextetsOf(bytes[3..])
  }

  function Symbols(values: seq<nat>): (data: seq<Byte>)
    requires Sextets(values)
    ensures |data| == |values| && forall i :: 0 <= i < |data| ==> data[i] == Symbol(values[i])
  {
    if values == [] then [] else [Symbol(values[0])] + Symbols(values[1..])
  }

  /** The standard encoding, without its padding. */
  function Encoded(bytes: seq<Byte>): seq<Byte> {
    Symbols(SextetsOf(bytes))
  }

  /** The padding that fills the last group of four. */
  function Padding(bytes: seq<Byte>): seq<Byte> {
    if |bytes| % 3 == 1 then [0x3d, 0x3d] else if |bytes| % 3 == 2 then [0x3d] else []
  }

  lemma FirstBack(a: nat, b: nat)
    requires a < 256 && b < 16
    ensures First(a / 4, a % 4 * 16 + b) as nat == a
  {
    assert a == 4 * (a / 4) + a % 4;
  }

  lemma SecondBack(a: nat, b: nat, c: nat)
    requires a < 4 && b < 256 && c < 4
    ensures Second(a * 16 + b / 16, b % 16 * 4 + c) as nat == b
  {
    var g, h := b / 16, b % 16;
    By16(a, g);
    By4(h, c);
    assert b == 16 * g + h;
  }

  lemma ThirdBack(b: nat, c: nat)
    requires b < 16 && c < 256
    ensures Third(b * 4 + c / 64, c % 64) as nat == c
  {
    assert c == 64 * (c / 64) + c % 64;
  }

  lemma GroupBack(a: nat, b: nat, c: nat)
    requires a < 256 && b < 256 && c < 256
    ensures First(a / 4, a % 4 * 16) as nat == a
    ensures First(a / 4, a % 4 * 16 + b / 16) as nat == a
    ensures Second(a % 4 * 16 + b / 16, b % 16 * 4) as nat == b
    ensures Second(a % 4 * 16 + b / 16, b % 16 * 4 + c / 64) as nat == b
    ensures Third(b % 16 * 4 + c / 64, c % 64) as nat == c
  {
    FirstBack(a, 0);
    FirstBack(a, b / 16);
    SecondBack(a % 4, b, 0);
    SecondBack(a % 4, b, c / 64);
    ThirdBack(b % 16, c);
  }

  lemma {:induction false} ShortBack(bytes: seq<Byte>)
    requires 0 < |bytes| < 3
    ensures Octets(SextetsOf(bytes)) == bytes
  {
    if |bytes| == 1 {
      GroupBack(bytes[0] as nat, 0, 0);
    } else {
      GroupBack(bytes[0] as nat, bytes[1] as nat, 0);
    }
  }

  lemma {:induction false} GroupOfThree(bytes: seq<Byte>)
    requires |bytes| >= 3
    ensures |SextetsOf(bytes)| >= 4 && SextetsOf(bytes)[4..] == SextetsOf(bytes[3..])
    ensures SextetsOf(bytes)[0] == bytes[0] as nat / 4
    ensures SextetsOf(bytes)[1] == bytes[0] as nat % 4 * 16 + bytes[1] as nat / 16
    ensures SextetsOf(bytes)[2] == bytes[1] as nat % 16 * 4 + bytes[2] as nat / 64
    ensures SextetsOf(bytes)[3] == bytes[2] as nat % 64
  {
  }

  /** Four sextets that hold three bytes read back as those bytes. */
  lemma GroupReadBack(v: seq<nat>, a: Byte, b: Byte, c: Byte)
    requires Sextets(v) && |v| >= 4
    requires v[0] == a as nat / 4 && v[1] == a as nat % 4 * 16 + b as nat / 16
    requires v[2] == b as nat % 16 * 4 + c as nat / 64 && v[3] == c as nat % 64
    ensures First(v[0], v[1]) == a && Second(v[1], v[2]) == b && Third(v[2], v[3]) == c
  {
    GroupBack(a as nat, b as nat, c as nat);
  }

  lemma ThreeBack(bytes: seq<Byte>)
    requires |bytes| >= 3
    ensures var v := SextetsOf(bytes);
            |v| >= 4 && First(v[0], v[1]) == bytes[0] && Second(v[1], v[2]) == bytes[1] && Third(v[2], v[3]) == bytes[2]
  {
    GroupOfThree(bytes);
    GroupReadBack(SextetsOf(bytes), bytes[0], bytes[1], bytes[2]);
  }

  lemma {:induction false} OctetsBack(bytes: seq<Byte>)
    ensures Octets(SextetsOf(bytes)) == bytes
    decreases |bytes|
  {
    if bytes == [] {
    } else if |bytes| < 3 {
      ShortBack(bytes);
    } else {
      OctetsBack(bytes[3..]);
      ThreeBack(bytes);
      GroupOfThree(bytes);
      OctetsUnfold(SextetsOf(bytes));
      assert bytes == [bytes[0], bytes[1], bytes[2]] + bytes[3..];
    }
  }

  lemma SymbolsBack(values: seq<nat>)
    requires Sextets(values)
    ensures AllSymbols(Symbols(values)) && Values(Symbols(values)) == values
  {
  }

  lemma GroupsFilled(n: nat)
    ensures ((4 * n + 2) / 3) % 4 == (if n % 3 == 0 then 0 else if n % 3 == 1 then 2 else 3)
  {
    var k, r := n / 3, n % 3;
    assert 4 * n + 2 == 3 * (4 * k) + (4 * r + 2);
    assert (4 * n + 2) / 3 == 4 * k + (4 * r + 2) / 3;
  }

  lemma NoPadInside(bytes: seq<Byte>)
    ensures |Encoded(bytes)| % 4 == (if |bytes| % 3 == 0 then 0 else if |bytes| % 3 == 1 then 2 else 3)
    ensures DropPad(Encoded(bytes)) == Encoded(bytes)
  {
    GroupsFilled(|bytes|);
  }

  lemma PadsDrop(data: seq<Byte>)
    requires DropPad(data) == data
    ensures DropPad(data + [0x3d]) == data && DropPad(data + [0x3d, 0x3d]) == data + [0x3d]
  {
    assert (data + [0x3d])[..|data|] == data;
    assert (data + [0x3d, 0x3d])[..|data| + 1] == data + [0x3d];
  }

  lemma Fills(n: nat)
    ensures n % 4 == 2 ==> (n + 2) % 4 == 0
    ensures n % 4 == 3 ==> (n + 1) % 4 == 0
  {
  }

  lemma PaddingFills(bytes: seq<Byte>)
    ensures (|Encoded(bytes)| + |Padding(bytes)|) % 4 == 0
    ensures |Encoded(bytes)| % 4 == 0 ==> Padding(bytes) == []
  {
    NoPadInside(bytes);
    Fills(|Encoded(bytes)|);
  }

  lemma UnpaddedEncoding(bytes: seq<Byte>, padded: bool)
    ensures Unpadded(Encoded(bytes) + if padded then Padding(bytes) else []) == Encoded(bytes)
  {
    var data := Encoded(bytes);
    NoPadInside(bytes);
    PaddingFills(bytes);
    PadsDrop(data);
    assert data + [] == data;
  }

  lemma EncodedIsAccepted(bytes: seq<Byte>)
    ensures AllSymbols(Encoded(bytes)) && |Encoded(bytes)| % 4 != 1 && Octets(Values(Encoded(bytes))) == bytes
  {
    NoPadInside(bytes);
    SymbolsBack(SextetsOf(bytes));
    OctetsBack(bytes);
  }

  /** The round trip: any text that is the encoding of `bytes` once its
      whitespace is gone, padded or not, decodes to `bytes`. */
  lemma EncodingDecodes(bytes: seq<Byte>, text: seq<Byte>, padded: bool)
    requires Stripped(text) == Encoded(bytes) + if padded then Padding(bytes) else []
    ensures Decoded(text) == Some(bytes)
  {
    UnpaddedEncoding(bytes, padded);
    EncodedIsAccepted(bytes);
  }

  /** Whitespace may stand anywhere: it is gone before anything is read. */
  lemma {:induction false} StrippedAnywhere(a: seq<Byte>, b: seq<Byte>, space: seq<Byte>)
    requires forall i :: 0 <= i < |space| ==> IsWhitespace(space[i])
    ensures Stripped(a + space + b) == Stripped(a + b)
    decreases |a| + |space|
  {
    if a != [] {
      assert (a + space + b)[1..] == a[1..] + space + b && (a + b)[1..] == a[1..] + b;
      StrippedAnywhere(a[1..], b, space);
    } else if space != [] {
      assert (a + space + b)[1..] == a + space[1..] + b;
      StrippedAnywhere(a, b, space[1..]);
    } else {
      assert a + space + b == a + b;
    }
  }

  lemma {:induction false} OctetCount(values: seq<nat>)
    requires Sextets(values) && |values| % 4 != 1
    ensures |Octets(values)| == 6 * |values| / 8
    decreases |values|
  {
    if |values| >= 4 {
      OctetCount(values[4..]);
    }
  }

  /** What is accepted, and how much comes out: n symbols, n not one more
      than a multiple of four, make floor(6n/8) octets. */
  lemma AcceptsExactlySymbols(input: seq<Byte>)
    ensures var data := Unpadded(Stripped(input));
            && (Decoded(input).Some? <==> AllSymbols(data) && |data| % 4 != 1)
            && (Decoded(input).Some? ==> |Decoded(input).value| == 6 * |data| / 8)
  {
    var data := Unpadded(Stripped(input));
    if AllSymbols(data) && |data| % 4 != 1 {
      OctetCount(Values(data));
    }
  }

  // --------------------------------------------------------- percent signs

  function HexValue(b: Byte): (v: Option<nat>)
    ensures v.Some? ==> v.value < 16
  {
    if 0x30 <= b <= 0x39 then Some((b - 0x30) as nat)
    else if 0x61 <= b <= 0x66 then Some((b - 0x61) as nat + 10)
    else if 0x41 <= b <= 0x46 then Some((b - 0x41) as nat + 10)
    else None
  }

  /** A `%` and two hexadecimal digits. */
  predicate EscapeAt(s: seq<Byte>) {
    |s| >= 3 && s[0] == 0x25 && HexValue(s[1]).Some? && HexValue(s[2]).Some?
  }

  function PercentDecoded(input: seq<Byte>): seq<Byte>
    decreases |input|
  {
    if input == [] then []
    else if EscapeAt(input) then
      [(HexValue(input[1]).value * 16 + HexValue(input[2]).value) as Byte] + PercentDecoded(input[3..])
    else [input[0]] + PercentDecoded(input[1..])
  }

  lemma {:induction false} DecodedStep(input: seq<Byte>, i: nat, output: seq<Byte>)
    requires i < |input| && output + PercentDecoded(input[i..]) == PercentDecoded(input)
    ensures if EscapeAt(input[i..]) then
              (output + [(HexValue(input[i + 1]).value * 16 + HexValue(input[i + 2]).value) as Byte])
              + PercentDecoded(input[i + 3..]) == PercentDecoded(input)
            else (output + [input[i]]) + PercentDecoded(input[i + 1..]) == PercentDecoded(input)
  {
    var left := input[i..];
    if EscapeAt(left) {
      assert left[3..] == input[i + 3..];
    } else {
      assert left[1..] == input[i + 1..];
    }
  }

  method PercentDecode(input: seq<Byte>) returns (output: seq<Byte>)
    ensures output == PercentDecoded(input)
  {
    output := [];
    var index := 0;
    assert input[0..] == input;
    while index < |input|
      invariant index <= |input|
      invariant output + PercentDecoded(input[index..]) == PercentDecoded(input)
    {
      var byte := input[index];
      var high := if index + 1 < |input| then HexValue(input[index + 1]) else None;
      var low := if index + 2 < |input| then HexValue(input[index + 2]) else None;
      DecodedStep(input, index, output);
      if byte == 0x25 && high.Some? && low.Some? {
        output := output + [(high.value * 16 + low.value) as Byte];
        index := index + 3;
      } else {
        output := output + [byte];
        index := index + 1;
      }
    }
    assert input[index..] == [];
  }

  /** How a byte is written: as itself, or escaped with digits of either case. */
  datatype Writing = Plain | Escape(upperHigh: bool, upperLow: bool)

  function HexDigit(v: nat, upper: bool): (b: Byte)
    requires v < 16
    ensures HexValue(b) == Some(v)
  {
    if v < 10 then (v + 0x30) as Byte else if upper then (v + 0x37) as Byte else (v + 0x57) as Byte
  }

  function ByteText(b: Byte, w: Writing): seq<Byte> {
    match w
    case Plain => [b]
    case Escape(high, low) => [0x25, HexDigit(b as nat / 16, high), HexDigit(b as nat % 16, low)]
  }

  function Written(bytes: seq<Byte>, ways: seq<Writing>): seq<Byte>
    requires |ways| == |bytes|
  {
    if bytes == [] then [] else ByteText(bytes[0], ways[0]) + Written(bytes[1..], ways[1..])
  }

  /** Percent signs are what must be escaped; anything else may be. */
  lemma {:induction false} PercentRoundTrip(bytes: seq<Byte>, ways: seq<Writing>)
    requires |ways| == |bytes| && forall i :: 0 <= i < |bytes| && bytes[i] == 0x25 ==> ways[i] != Plain
    ensures PercentDecoded(Written(bytes, ways)) == bytes
    decreases |bytes|
  {
    if bytes == [] {
    } else {
      var rest, text := Written(bytes[1..], ways[1..]), Written(bytes, ways);
      PercentRoundTrip(bytes[1..], ways[1..]);
      assert text == ByteText(bytes[0], ways[0]) + rest;
      match ways[0]
      case Plain =>
        assert text[1..] == rest;
      case Escape(_, _) =>
        assert text[3..] == rest;
        assert (bytes[0] as nat / 16) * 16 + bytes[0] as nat % 16 == bytes[0] as nat;
    }
  }
}
