/** Base32 without padding through a 16-bit shifting buffer, against the five-bit grouping of section 6
    of RFC 4648, and the recovery codes made from it. */
module Base32 {
  import opened Arithmetic
  import opened Results

  type Byte = b: int | 0 <= b < 256
  type Bits = seq<bool>

  // ----- bits -----

  function Pow2(n: nat): (p: nat)
    ensures p > 0
  {
    if n == 0 then 1 else 2 * Pow2(n - 1)
  }

  /** The number that a run of bits denotes, most significant bit first. */
  function Val(bits: Bits): (v: nat)
    ensures v < Pow2(|bits|)
  {
    if bits == [] then 0 else 2 * Val(bits[..|bits| - 1]) + if bits[|bits| - 1] then 1 else 0
  }

  /** The n-bit big-endian form of a number. */
  function ToBits(v: nat, n: nat): (bits: Bits)
    ensures |bits| == n
  {
    if n == 0 then [] else ToBits(v / 2, n - 1) + [v % 2 == 1]
  }

  lemma {:induction false} ValOfToBits(v: nat, n: nat)
    requires v < Pow2(n)
    ensures Val(ToBits(v, n)) == v
  {
    if n > 0 {
      ValOfToBits(v / 2, n - 1);
      assert ToBits(v, n)[..n - 1] == ToBits(v / 2, n - 1);
    }
  }

  lemma {:induction false} ToBitsOfVal(bits: Bits)
    ensures ToBits(Val(bits), |bits|) == bits
  {
    if bits != [] {
      ToBitsOfVal(bits[..|bits| - 1]);
    }
  }

  lemma DoubleProduct(x: nat, p: nat, v: nat, bit: nat)
    ensures 2 * (x * p + v) + bit == x * (2 * p) + (2 * v + bit)
  {
    assert x * (2 * p) == 2 * (x * p);
  }

  lemma ValSnoc(bits: Bits, last: bool)
    ensures Val(bits + [last]) == 2 * Val(bits) + if last then 1 else 0
  {
    assert (bits + [last])[..|bits|] == bits;
  }

  lemma {:induction false} ValConcat(a: Bits, b: Bits)
    ensures Val(a + b) == Val(a) * Pow2(|b|) + Val(b)
  {
    if b == [] {
      assert a + b == a;
      assert Val(a) * 1 == Val(a);
    } else {
      var front, last := b[..|b| - 1], b[|b| - 1];
      ValConcat(a, front);
      assert a + b == a + front + [last] && b == front + [last];
      ValSnoc(a + front, last);
      ValSnoc(front, last);
      DoubleProduct(Val(a), Pow2(|front|), Val(front), if last then 1 else 0);
    }
  }

  /** The input as one bit string. */
  function ByteBits(bytes: seq<Byte>): (bits: Bits)
    ensures |bits| == 8 * |bytes|
  {
    if bytes == [] then [] else ByteBits(bytes[..|bytes| - 1]) + ToBits(bytes[|bytes| - 1], 8)
  }

  function Zeros(n: nat): (z: Bits)
    ensures |z| == n && Val(z) == 0
  {
    if n == 0 then []
    else
      var z := Zeros(n - 1) + [false];
      assert z[..n - 1] == Zeros(n - 1);
      z
  }

  // ----- the specification -----

  function Symbol(v: nat): char
    requires v < 32
  {
    if v < 26 then 'A' + v as char else '2' + (v - 26) as char
  }

  /** Consecutive five-bit groups, the last one filled up with zero bits on the right. */
  function Encode(bits: Bits): (text: string)
    ensures |text| == (|bits| + 4) / 5
    decreases |bits|
  {
    if bits == [] then ""
    else if |bits| < 5 then [SymbolOf(bits + Zeros(5 - |bits|))]
    else [SymbolOf(bits[..5])] + Encode(bits[5..])
  }

  function SymbolOf(five: Bits): char
    requires |five| == 5
  {
    assert Pow2(5) == 32;
    Symbol(Val(five))
  }

  // ----- the buffer -----

  lemma PowersOfTwo()
    ensures Pow2(0) == 1 && Pow2(1) == 2 && Pow2(2) == 4 && Pow2(3) == 8 && Pow2(4) == 16 && Pow2(5) == 32
    ensures Pow2(6) == 64 && Pow2(7) == 128 && Pow2(8) == 256 && Pow2(9) == 512 && Pow2(10) == 1024
    ensures Pow2(11) == 2048 && Pow2(12) == 4096
  {
    assert Pow2(4) == 16;
    assert Pow2(8) == 256;
    assert Pow2(12) == 4096;
  }

  /** Shifting a 16-bit register keeps the low bits that are not pushed out of it. */
  lemma ShiftLeft(buffer: nat, low: nat, scale: nat, above: nat)
    requires low > 0 && scale > 0 && above > 0 && low * scale * above == 65536
    ensures (buffer * scale) % 65536 % (low * scale) == (buffer % low) * scale
    ensures exists k: nat :: (buffer * scale) % 65536 == (low * scale) * k + (buffer % low) * scale
  {
    var q, r, t := buffer / low, buffer % low, (buffer * scale) / 65536;
    var d := low * scale;
    assert buffer == low * q + r;
    assert buffer * scale == d * q + r * scale by { Distribute(low, q, r, scale); }
    var m := (buffer * scale) % 65536;
    assert m == buffer * scale - (d * above) * t;
    assert (d * above) * t == d * (above * t);
    assert r * scale < d by { ProductBelow(r, low, scale); }
    var k := q - above * t;
    assert m == d * k + r * scale by { assert d * (q - above * t) == d * q - d * (above * t); }
    if k < 0 {
      ProductGap(d, k, 0);
    }
    Quotient(m, d, k, r * scale);
  }

  lemma Distribute(low: nat, q: nat, r: nat, scale: nat)
    ensures (low * q + r) * scale == low * scale * q + r * scale
  {
    assert (low * q + r) * scale == low * q * scale + r * scale;
    assert low * q * scale == low * scale * q;
  }

  lemma ProductBelow(r: nat, low: nat, scale: nat)
    requires r < low && scale > 0
    ensures r * scale < low * scale
  {
    ProductGap(scale, r, low);
    assert scale * low == low * scale && scale * r == r * scale;
  }

  lemma ShiftedByteFits(buffer: nat, byte: Byte)
    ensures (buffer * 256) % 65536 + byte < 65536
  {
    ShiftLeft(buffer, 256, 256, 1);
    var k: nat :| (buffer * 256) % 65536 == (256 * 256) * k + (buffer % 256) * 256;
  }

  /** Shifting a byte into the 16-bit register keeps every pending bit: at most 4 + 8 are live. */
  lemma ShiftIn(buffer: nat, bits: nat, pending: nat, byte: Byte)
    requires bits < 5 && buffer % Pow2(bits) == pending
    ensures ((buffer * 256) % 65536 + byte) % Pow2(bits + 8) == pending * 256 + byte
  {
    PowersOfTwo();
    var low := Pow2(bits);
    var above := if bits == 0 then 256 else if bits == 1 then 128 else if bits == 2 then 64
        else if bits == 3 then 32 else 16;
    assert low * 256 * above == 65536 && Pow2(bits + 8) == low * 256;
    ShiftLeft(buffer, low, 256, above);
    var k: nat :| (buffer * 256) % 65536 == (low * 256) * k + (buffer % low) * 256;
    assert pending < low;
    Quotient((buffer * 256) % 65536 + byte, low * 256, k, pending * 256 + byte);
  }

  /** Reading the top five pending bits leaves the others pending. */
  lemma TopFive(buffer: nat, rest: nat, high: nat, low: nat)
    requires rest <= 7 && high < 32 && low < Pow2(rest)
    requires buffer % Pow2(rest + 5) == high * Pow2(rest) + low
    ensures (buffer / Pow2(rest)) % 32 == high
    ensures buffer % Pow2(rest) == low
  {
    PowersOfTwo();
    var q := buffer / Pow2(rest + 5);
    assert Pow2(rest + 5) == 32 * Pow2(rest);
    assert buffer == q * Pow2(rest + 5) + high * Pow2(rest) + low;
    Split(q, Pow2(rest), high, low, buffer);
  }

  lemma Split(q: nat, p: nat, high: nat, low: nat, buffer: nat)
    requires p > 0 && high < 32 && low < p && buffer == q * (32 * p) + high * p + low
    ensures (buffer / p) % 32 == high && buffer % p == low
  {
    assert buffer == p * (q * 32 + high) + low;
    Quotient(buffer, p, q * 32 + high, low);
    Quotient(q * 32 + high, 32, q, high);
  }

  /** `buffer` holds the pending bits in its low end; what is above them is stale. */
  predicate Pending(buffer: nat, bits: nat, pending: Bits) {
    bits == |pending| && buffer % Pow2(bits) == Val(pending)
  }

  /** Everything read so far, followed by any tail, encodes to the output, then the pending bits and the tail. */
  ghost predicate Emitted(read: Bits, output: string, pending: Bits) {
    forall tail: Bits :: Encode(read + tail) == output + Encode(pending + tail)
  }

  lemma Regroup(a: Bits, b: Bits, c: Bits)
    ensures a + b + c == a + (b + c)
  {}

  lemma ReadMore(read: Bits, output: string, pending: Bits, more: Bits)
    requires Emitted(read, output, pending)
    ensures Emitted(read + more, output, pending + more)
  {
    forall tail: Bits ensures Encode(read + more + tail) == output + Encode(pending + more + tail) {
      Regroup(read, more, tail);
      Regroup(pending, more, tail);
    }
  }

  lemma FirstGroup(pending: Bits, tail: Bits)
    requires |pending| >= 5
    ensures Encode(pending + tail) == [SymbolOf(pending[..5])] + Encode(pending[5..] + tail)
  {
    var all := pending + tail;
    assert all[..5] == pending[..5] && all[5..] == pending[5..] + tail;
  }

  lemma EmitFive(read: Bits, output: string, pending: Bits)
    requires Emitted(read, output, pending) && |pending| >= 5
    ensures Emitted(read, output + [SymbolOf(pending[..5])], pending[5..])
  {
    forall tail: Bits
      ensures Encode(read + tail) == output + [SymbolOf(pending[..5])] + Encode(pending[5..] + tail)
    {
      assert Encode(read + tail) == output + Encode(pending + tail);
      FirstGroup(pending, tail);
    }
  }

  lemma ReadByte(buffer: nat, bits: nat, pending: Bits, byte: Byte)
    requires bits < 5 && Pending(buffer, bits, pending)
    ensures Pending(ShiftInByte(buffer, byte), bits + 8, pending + ToBits(byte, 8))
  {
    PowersOfTwo();
    ShiftIn(buffer, bits, Val(pending), byte);
    ValOfToBits(byte, 8);
    ValConcat(pending, ToBits(byte, 8));
  }

  /** `(buffer << 8) | byte` on a 16-bit register. */
  function ShiftInByte(buffer: nat, byte: Byte): (r: nat)
    ensures r < 65536
  {
    ShiftedByteFits(buffer, byte);
    (buffer * 256) % 65536 + byte
  }

  /** `(buffer >> shift) & 0b11111`. */
  function IndexAt(buffer: nat, shift: nat): (r: nat)
    ensures r < 32
  {
    (buffer / Pow2(shift)) % 32
  }

  /** `(buffer << fill) & 0b11111` on a 16-bit register. */
  function FilledIndex(buffer: nat, fill: nat): (r: nat)
    ensures r < 32
  {
    ((buffer * Pow2(fill)) % 65536) % 32
  }

  /** The state of the encoding loops: what was read is what was written plus what is pending. */
  ghost predicate Encoder(read: Bits, output: string, buffer: nat, bits: nat, pending: Bits) {
    Pending(buffer, bits, pending) && Emitted(read, output, pending)
  }

  lemma EncoderReads(read: Bits, output: string, buffer: nat, bits: nat, pending: Bits, byte: Byte)
    requires bits < 5 && Encoder(read, output, buffer, bits, pending)
    ensures Encoder(read + ToBits(byte, 8), output, ShiftInByte(buffer, byte), bits + 8, pending + ToBits(byte, 8))
  {
    ReadByte(buffer, bits, pending, byte);
    ReadMore(read, output, pending, ToBits(byte, 8));
  }

  lemma EncoderWrites(read: Bits, output: string, buffer: nat, bits: nat, pending: Bits)
    requires 5 <= bits <= 12 && Encoder(read, output, buffer, bits, pending)
    ensures Encoder(read, output + [Symbol(IndexAt(buffer, bits - 5))], buffer, bits - 5, pending[5..])
  {
    TakeFive(buffer, bits, pending);
    EmitFive(read, output, pending);
  }

  lemma EncoderEnds(read: Bits, output: string, buffer: nat, bits: nat, pending: Bits)
    requires bits < 5 && buffer < 65536 && Encoder(read, output, buffer, bits, pending)
    ensures Encode(read) == if bits > 0 then output + [Symbol(FilledIndex(buffer, 5 - bits))] else output
  {
    assert read + [] == read && pending + [] == pending;
    assert Encode(read + []) == output + Encode(pending + []);
    if bits > 0 {
      LastGroup(buffer, bits, pending);
    }
  }

  method EncodeNoPadding(bytes: seq<Byte>) returns (output: string)
    ensures output == Encode(ByteBits(bytes))
  {
    output := "";
    var buffer, bits := 0, 0;
    ghost var read: Bits, pending: Bits := [], [];
    for i := 0 to |bytes|
      invariant bits < 5 && 0 <= buffer < 65536 && read == ByteBits(bytes[..i])
      invariant Encoder(read, output, buffer, bits, pending)
    {
      assert bytes[..i + 1][..i] == bytes[..i];
      EncoderReads(read, output, buffer, bits, pending, bytes[i]);
      buffer := ShiftInByte(buffer, bytes[i]);
      bits := bits + 8;
      read, pending := read + ToBits(bytes[i], 8), pending + ToBits(bytes[i], 8);
      while bits >= 5
        invariant bits <= 12 && 0 <= buffer < 65536
        invariant Encoder(read, output, buffer, bits, pending)
      {
        EncoderWrites(read, output, buffer, bits, pending);
        output := output + [Symbol(IndexAt(buffer, bits - 5))];
        bits := bits - 5;
        pending := pending[5..];
      }
    }
    assert bytes[..|bytes|] == bytes;
    EncoderEnds(read, output, buffer, bits, pending);
    if bits > 0 {
      output := output + [Symbol(FilledIndex(buffer, 5 - bits))];
    }
  }

  lemma TakeFive(buffer: nat, bits: nat, pending: Bits)
    requires 5 <= bits <= 12 && Pending(buffer, bits, pending)
    ensures IndexAt(buffer, bits - 5) == Val(pending[..5])
    ensures Pending(buffer, bits - 5, pending[5..])
  {
    PowersOfTwo();
    ValConcat(pending[..5], pending[5..]);
    assert pending == pending[..5] + pending[5..];
    TopFive(buffer, bits - 5, Val(pending[..5]), Val(pending[5..]));
  }

  lemma LastGroup(buffer: nat, bits: nat, pending: Bits)
    requires 1 <= bits < 5 && Pending(buffer, bits, pending) && buffer < 65536
    ensures FilledIndex(buffer, 5 - bits) == Val(pending + Zeros(5 - bits))
    ensures Encode(pending) == [SymbolOf(pending + Zeros(5 - bits))]
  {
    PowersOfTwo();
    ValConcat(pending, Zeros(5 - bits));
    if bits == 1 {
      ShiftLeft(buffer, 2, 16, 2048);
    } else if bits == 2 {
      ShiftLeft(buffer, 4, 8, 2048);
    } else if bits == 3 {
      ShiftLeft(buffer, 8, 4, 2048);
    } else {
      ShiftLeft(buffer, 16, 2, 2048);
    }
  }

  // ----- decoding -----

  /** The value of a symbol in either case. */
  function SymbolValue(c: char): (v: Option<nat>)
    ensures v.Some? ==> v.value < 32
  {
    if 'A' <= c <= 'Z' then Some(c as nat - 'A' as nat)
    else if 'a' <= c <= 'z' then Some(c as nat - 'a' as nat)
    else if '2' <= c <= '7' then Some(c as nat - '2' as nat + 26)
    else None
  }

  function DecodeBits(text: string): Option<Bits> {
    if text == "" then Some([])
    else
      match SymbolValue(text[0])
      case None => None
      case Some(v) =>
        var rest := DecodeBits(text[1..]);
        if rest.None? then None else Some(ToBits(v, 5) + rest.value)
  }

  /** The whole bytes at the front of a bit string; fewer than eight bits left over are dropped. */
  function WholeBytes(bits: Bits): seq<Byte> {
    if |bits| < 8 then []
    else
      assert Pow2(8) == 256;
      [Val(bits[..8])] + WholeBytes(bits[8..])
  }

  function Decode(text: string): Option<seq<Byte>> {
    var bits := DecodeBits(text);
    if bits.None? then None else Some(WholeBytes(bits.value))
  }

  function ToLower(s: string): (r: string)
    ensures |r| == |s|
    ensures forall i :: 0 <= i < |s| ==> r[i] == LowerChar(s[i])
  {
    seq(|s|, i requires 0 <= i < |s| => LowerChar(s[i]))
  }

  function LowerChar(c: char): char {
    if 'A' <= c <= 'Z' then 'a' + (c - 'A') else c
  }

  lemma SymbolRoundTrip(five: Bits)
    requires |five| == 5
    ensures SymbolValue(SymbolOf(five)) == Some(Val(five)) && SymbolValue(LowerChar(SymbolOf(five))) == Some(Val(five))
    ensures ToBits(Val(five), 5) == five
  {
    assert Pow2(5) == 32;
    ToBitsOfVal(five);
  }

  /** How many zero bits fill up the last group. */
  function Fill(bits: nat): (n: nat)
    ensures n < 5
  {
    (5 - bits % 5) % 5
  }

  /** The text decodes to these bits, in upper and in lower case. */
  predicate Decodes(text: string, bits: Bits) {
    DecodeBits(text) == Some(bits) && DecodeBits(ToLower(text)) == Some(bits)
  }

  lemma DecodeCons(five: Bits, text: string, rest: Bits)
    requires |five| == 5 && Decodes(text, rest)
    ensures Decodes([SymbolOf(five)] + text, five + rest)
  {
    var c := SymbolOf(five);
    SymbolRoundTrip(five);
    DecodeOne(c, text);
    DecodeOne(LowerChar(c), ToLower(text));
    assert ToLower([c] + text) == [LowerChar(c)] + ToLower(text);
  }

  lemma DecodeOne(c: char, text: string)
    requires SymbolValue(c).Some? && DecodeBits(text).Some?
    ensures DecodeBits([c] + text) == Some(ToBits(SymbolValue(c).value, 5) + DecodeBits(text).value)
  {
    assert ([c] + text)[1..] == text;
  }

  lemma FillStep(n: nat)
    ensures 0 < n < 5 ==> Fill(n) == 5 - n
    ensures n >= 5 ==> Fill(n) == Fill(n - 5)
  {}

  lemma EncodeStep(bits: Bits)
    requires |bits| >= 5
    ensures Encode(bits) == [SymbolOf(bits[..5])] + Encode(bits[5..])
  {}

  lemma DecodeShort(bits: Bits)
    requires 0 < |bits| < 5
    ensures Decodes(Encode(bits), bits + Zeros(Fill(|bits|)))
  {
    FillStep(|bits|);
    var five := bits + Zeros(5 - |bits|);
    assert ToLower("") == "";
    DecodeCons(five, "", []);
    assert five + [] == five && [SymbolOf(five)] + "" == [SymbolOf(five)];
  }

  lemma DecodeLonger(bits: Bits, fill: Bits)
    requires |bits| >= 5 && Decodes(Encode(bits[5..]), bits[5..] + fill)
    ensures Decodes(Encode(bits), bits + fill)
  {
    var five, rest := bits[..5], bits[5..];
    DecodeCons(five, Encode(rest), rest + fill);
    Regroup(five, rest, fill);
    assert five + rest == bits;
    EncodeStep(bits);
  }

  /** Decoding the encoded bits gives them back, followed by the filling zero bits, in either case. */
  lemma {:induction false} DecodeEncodeBits(bits: Bits)
    ensures Decodes(Encode(bits), bits + Zeros(Fill(|bits|)))
    decreases |bits|
  {
    if bits == [] {
      assert ToLower("") == "" && bits + Zeros(0) == [];
    } else if |bits| < 5 {
      DecodeShort(bits);
    } else {
      DecodeEncodeBits(bits[5..]);
      FillStep(|bits|);
      DecodeLonger(bits, Zeros(Fill(|bits|)));
    }
  }

  lemma {:induction false} WholeBytesOfByteBits(bytes: seq<Byte>, tail: Bits)
    requires |tail| < 8
    ensures WholeBytes(ByteBits(bytes) + tail) == bytes
    decreases |bytes|
  {
    if bytes != [] {
      FirstByteBits(bytes);
      var first, bits := ToBits(bytes[0], 8), ByteBits(bytes) + tail;
      assert bits[..8] == first && bits[8..] == ByteBits(bytes[1..]) + tail;
      PowersOfTwo();
      ValOfToBits(bytes[0], 8);
      WholeBytesOfByteBits(bytes[1..], tail);
    }
  }

  lemma {:induction false} FirstByteBits(bytes: seq<Byte>)
    requires bytes != []
    ensures ByteBits(bytes) == ToBits(bytes[0], 8) + ByteBits(bytes[1..])
  {
    if |bytes| > 1 {
      var n := |bytes| - 1;
      FirstByteBits(bytes[..n]);
      assert bytes[..n][1..] == bytes[1..][..n - 1];
      assert bytes[1..][n - 1] == bytes[n];
      Regroup(ToBits(bytes[0], 8), ByteBits(bytes[1..n]), ToBits(bytes[n], 8));
      assert bytes[..n][1..] == bytes[1..n];
    } else {
      assert bytes[..0] == [] && bytes[1..] == [];
      assert [] + ToBits(bytes[0], 8) == ToBits(bytes[0], 8) == ToBits(bytes[0], 8) + [];
    }
  }

  /** Decoding what was encoded returns the bytes, in upper or in lower case. */
  lemma DecodeEncode(bytes: seq<Byte>)
    ensures Decode(Encode(ByteBits(bytes))) == Some(bytes)
    ensures Decode(ToLower(Encode(ByteBits(bytes)))) == Some(bytes)
  {
    DecodeEncodeBits(ByteBits(bytes));
    WholeBytesOfByteBits(bytes, Zeros(Fill(8 * |bytes|)));
  }

  // ----- recovery codes -----

  const MAX_RECOVERY_CODE_BYTES := 128

  /** Groups of four joined by hyphens. */
  function Hyphenate(s: string): string {
    if |s| <= 4 then s else s[..4] + "-" + Hyphenate(s[4..])
  }

  function RecoveryCode(random: seq<Byte>): string {
    "pvrc-" + Hyphenate(ToLower(Encode(ByteBits(random))))
  }

  method RecoveryCodeFromRandom(random: seq<Byte>) returns (output: string)
    requires |random| == 16
    ensures output == RecoveryCode(random)
    ensures |output| == 37
  {
    var encoded := EncodeNoPadding(random);
    var secret := ToLower(encoded);
    output := "pvrc-";
    var index := 0;
    WholeRemains(secret);
    while 4 * index < |secret|
      invariant output + Remaining(secret, index) == RecoveryCode(random)
    {
      AppendChunk(output, secret, index);
      if index > 0 {
        output := output + "-";
      }
      var end := if 4 * index + 4 <= |secret| then 4 * index + 4 else |secret|;
      output := output + secret[4 * index..end];
      index := index + 1;
    }
    RecoveryCodeLength(random);
  }

  /** What the loop still has to append from chunk `index` on. */
  function Remaining(s: string, index: nat): string {
    if 4 * index >= |s| then "" else (if index > 0 then "-" else "") + Hyphenate(s[4 * index..])
  }

  lemma WholeRemains(s: string)
    ensures Remaining(s, 0) == Hyphenate(s)
  {
    assert s[0..] == s;
  }

  lemma RemainingStep(s: string, index: nat)
    requires 4 * index < |s|
    ensures var end := if 4 * index + 4 <= |s| then 4 * index + 4 else |s|;
            Remaining(s, index) == (if index > 0 then "-" else "") + s[4 * index..end] + Remaining(s, index + 1)
  {
    HyphenateFrom(s, index);
    var sep := if index > 0 then "-" else "";
    if 4 * index + 4 < |s| {
      JoinTexts(sep, s[4 * index..4 * index + 4], "-", Hyphenate(s[4 * (index + 1)..]));
    }
  }

  lemma AppendChunk(output: string, s: string, index: nat)
    requires 4 * index < |s|
    ensures var end := if 4 * index + 4 <= |s| then 4 * index + 4 else |s|;
            && (index > 0 ==> output + Remaining(s, index)
                              == output + "-" + s[4 * index..end] + Remaining(s, index + 1))
            && (index == 0 ==> output + Remaining(s, index) == output + s[4 * index..end] + Remaining(s, index + 1))
  {
    var end := if 4 * index + 4 <= |s| then 4 * index + 4 else |s|;
    RemainingStep(s, index);
    if index > 0 {
      Append(output, "-", s[4 * index..end], Remaining(s, index + 1));
    } else {
      Append(output, "", s[4 * index..end], Remaining(s, index + 1));
      assert output + "" == output;
    }
  }

  lemma Append(a: string, b: string, c: string, d: string)
    ensures a + (b + c + d) == a + b + c + d
  {}

  lemma RecoveryCodeLength(random: seq<Byte>)
    requires |random| == 16
    ensures |RecoveryCode(random)| == 37
  {
    var bits := ByteBits(random);
    HyphenatedLength(ToLower(Encode(bits)));
  }

  lemma JoinTexts(a: string, b: string, c: string, d: string)
    ensures a + (b + c + d) == a + b + (c + d)
  {}

  lemma {:induction false} HyphenatedLength(s: string)
    requires s != ""
    ensures |Hyphenate(s)| == |s| + (|s| - 1) / 4
  {
    if |s| > 4 {
      HyphenatedLength(s[4..]);
    }
  }

  lemma HyphenateFrom(s: string, index: nat)
    requires 4 * index < |s|
    ensures Hyphenate(s[4 * index..]) ==
            if 4 * index + 4 >= |s| then s[4 * index..|s|]
            else s[4 * index..4 * index + 4] + "-" + Hyphenate(s[4 * (index + 1)..])
    ensures index == 0 ==> s[4 * index..] == s
  {
    assert 4 * index + 4 < |s| ==> s[4 * index..][..4] == s[4 * index..4 * index + 4];
    assert 4 * index + 4 < |s| ==> s[4 * index..][4..] == s[4 * (index + 1)..];
  }

  function WithoutHyphens(s: string): string {
    if s == "" then "" else (if s[0] == '-' then "" else [s[0]]) + WithoutHyphens(s[1..])
  }

  lemma {:induction false} WithoutHyphensConcat(a: string, b: string)
    ensures WithoutHyphens(a + b) == WithoutHyphens(a) + WithoutHyphens(b)
  {
    if a == "" {
      assert a + b == b;
    } else {
      assert (a + b)[1..] == a[1..] + b;
      WithoutHyphensConcat(a[1..], b);
    }
  }

  lemma {:induction false} NoHyphens(s: string)
    requires forall i :: 0 <= i < |s| ==> s[i] != '-'
    ensures WithoutHyphens(s) == s
  {
    if s != "" {
      NoHyphens(s[1..]);
    }
  }

  lemma {:induction false} HyphensComeOut(s: string)
    requires forall i :: 0 <= i < |s| ==> s[i] != '-'
    ensures WithoutHyphens(Hyphenate(s)) == s
  {
    if |s| <= 4 {
      NoHyphens(s);
    } else {
      NoHyphens(s[..4]);
      HyphensComeOut(s[4..]);
      WithoutHyphensConcat(s[..4] + "-", Hyphenate(s[4..]));
      WithoutHyphensConcat(s[..4], "-");
      assert WithoutHyphens("-") == "" && s == s[..4] + s[4..];
    }
  }

  predicate CodeChar(c: char) {
    'a' <= c <= 'z' || '0' <= c <= '9' || c == '-'
  }

  lemma {:induction false} EncodedChars(bits: Bits)
    ensures forall i :: 0 <= i < |Encode(bits)| ==>
                          CodeChar(LowerChar(Encode(bits)[i])) && LowerChar(Encode(bits)[i]) != '-'
    decreases |bits|
  {
    if |bits| >= 5 {
      EncodedChars(bits[5..]);
    }
  }

  /** Different random bytes give different codes. */
  lemma RecoveryCodeInjective(a: seq<Byte>, b: seq<Byte>)
    requires RecoveryCode(a) == RecoveryCode(b)
    ensures a == b
  {
    var s, t := ToLower(Encode(ByteBits(a))), ToLower(Encode(ByteBits(b)));
    EncodedChars(ByteBits(a));
    EncodedChars(ByteBits(b));
    HyphensComeOut(s);
    HyphensComeOut(t);
    assert Hyphenate(s) == RecoveryCode(a)[5..] == RecoveryCode(b)[5..] == Hyphenate(t);
    DecodeEncode(a);
    DecodeEncode(b);
  }

  function TrimLeft(s: string, isSpace: char -> bool): string {
    if s != "" && isSpace(s[0]) then TrimLeft(s[1..], isSpace) else s
  }

  function TrimRight(s: string, isSpace: char -> bool): string {
    if s != "" && isSpace(s[|s| - 1]) then TrimRight(s[..|s| - 1], isSpace) else s
  }

  /** `isSpace` is Unicode white space; the error is the handler's one refusal. */
  function ValidateRecoveryCode(code: string, isSpace: char -> bool): Result<string, string> {
    var c := ToLower(TrimRight(TrimLeft(code, isSpace), isSpace));
    if c == "" || |c| > MAX_RECOVERY_CODE_BYTES || !("pvrc-" <= c)
       || (exists i :: 0 <= i < |c| && isSpace(c[i])) || (exists i :: 0 <= i < |c| && !CodeChar(c[i]))
    then Err("mfa_verification_failed")
    else Ok(c)
  }

  lemma {:induction false} HyphenatedChars(s: string)
    requires forall i :: 0 <= i < |s| ==> CodeChar(s[i])
    ensures forall i :: 0 <= i < |Hyphenate(s)| ==> CodeChar(Hyphenate(s)[i])
    ensures |Hyphenate(s)| <= 2 * |s|
  {
    if |s| > 4 {
      HyphenatedChars(s[4..]);
    }
  }

  lemma CodeIsFixedPoint(code: string, isSpace: char -> bool)
    requires 0 < |code| <= MAX_RECOVERY_CODE_BYTES && "pvrc-" <= code
    requires forall i :: 0 <= i < |code| ==> CodeChar(code[i])
    requires forall c :: CodeChar(c) ==> !isSpace(c)
    ensures ValidateRecoveryCode(code, isSpace) == Ok(code)
  {
    assert TrimLeft(code, isSpace) == code && TrimRight(code, isSpace) == code;
    assert ToLower(code) == code;
  }

  /** Every issued code is accepted unchanged, and whatever validation returns is accepted unchanged again. */
  lemma IssuedCodesValidate(random: seq<Byte>, isSpace: char -> bool)
    requires |random| == 16 && forall c :: CodeChar(c) ==> !isSpace(c)
    ensures ValidateRecoveryCode(RecoveryCode(random), isSpace) == Ok(RecoveryCode(random))
  {
    var s := ToLower(Encode(ByteBits(random)));
    EncodedChars(ByteBits(random));
    HyphenatedChars(s);
    CodeIsFixedPoint(RecoveryCode(random), isSpace);
  }

  lemma ValidateIsIdempotent(code: string, isSpace: char -> bool)
    requires forall c :: CodeChar(c) ==> !isSpace(c)
    ensures var r := ValidateRecoveryCode(code, isSpace);
            r.Ok? ==> ValidateRecoveryCode(r.value, isSpace) == r
  {
    var r := ValidateRecoveryCode(code, isSpace);
    if r.Ok? {
      CodeIsFixedPoint(r.value, isSpace);
    }
  }
}
