/**
 * The 64-bit command word of the instrument's protocol and its 8-byte,
 * little-endian wire form.
 *
 * A command (code, number, value) occupies the word as
 *   bits 63..56  code
 *   bits 55..52  number (channel or sub-index)
 *   bits 51..0   value, masked to 52 bits
 * The three fields never overlap when code < 32 and number < 16, so the
 * bitwise OR that assembles them is the sum written here.
 */
module CommandCodec {

  type byte = b: nat | b < 256

  const VALUE_MODULUS: int := 0x10_0000_0000_0000      // 2^52, one more than the 52-bit value mask
  const NUMBER_SHIFT: int := 0x10_0000_0000_0000       // 2^52, weight of the number field
  const CODE_SHIFT: int := 0x100_0000_0000_0000        // 2^56, weight of the code field
  const WORD_BYTES: nat := 8

  /** The value field: the value modulo 2^52, i.e. `value & 0xFFFFFFFFFFFFF` on an unbounded integer. */
  function Mask52(value: int): (m: nat)
    ensures m < VALUE_MODULUS
    ensures 0 <= value < VALUE_MODULUS ==> m == value
    ensures -VALUE_MODULUS <= value < 0 ==> m == value + VALUE_MODULUS
  {
    value % VALUE_MODULUS
  }

  /** Reads a 52-bit field back as a two's-complement number. */
  function Signed52(field: nat): (v: int)
    requires field < VALUE_MODULUS
    ensures -VALUE_MODULUS / 2 <= v < VALUE_MODULUS / 2
    ensures Mask52(v) == field
  {
    if field < VALUE_MODULUS / 2 then field else field - VALUE_MODULUS
  }

  /** The command word `code << 56 | number << 52 | (value & 0xFFFFFFFFFFFFF)`. */
  function Word(code: nat, number: nat, value: int): (w: nat)
    requires code < 32 && number < 16
    ensures w < 32 * CODE_SHIFT
  {
    code * CODE_SHIFT + number * NUMBER_SHIFT + Mask52(value)
  }

  /** 256^k, the number of distinct k-byte strings. */
  function Pow256(k: nat): (p: nat)
    ensures p > 0
  {
    if k == 0 then 1 else 256 * Pow256(k - 1)
  }

  /** The low k bytes of w, least significant first (`struct.pack("<Q", w)` for k = 8). */
  function ToLittleEndian(w: nat, k: nat): (bs: seq<byte>)
    ensures |bs| == k
  {
    if k == 0 then [] else [w % 256] + ToLittleEndian(w / 256, k - 1)
  }

  /** The number whose little-endian bytes are bs (`struct.unpack("<Q", bs)` for 8 bytes). */
  function FromLittleEndian(bs: seq<byte>): (w: nat)
    ensures w < Pow256(|bs|)
  {
    if bs == [] then 0 else bs[0] + 256 * FromLittleEndian(bs[1..])
  }

  /** The 8 bytes written to the socket for one command. */
  function Encode(code: nat, number: nat, value: int): (packet: seq<byte>)
    requires code < 32 && number < 16
    ensures |packet| == WORD_BYTES
  {
    ToLittleEndian(Word(code, number, value), WORD_BYTES)
  }

  /** The three fields of a command word as the instrument reads them. */
  datatype Fields = Fields(code: nat, number: nat, field: nat)

  function FieldsOf(w: nat): Fields {
    Fields(w / CODE_SHIFT, (w / NUMBER_SHIFT) % 16, w % VALUE_MODULUS)
  }

  /** Reads an 8-byte packet back into its fields. */
  function Decode(packet: seq<byte>): Fields
    requires |packet| == WORD_BYTES
  {
    FieldsOf(FromLittleEndian(packet))
  }

  // ---------------------------------------------------------------------
  // Division facts used below

  lemma DivModUnique(w: int, d: int, q: int, r: int)
    requires d > 0 && 0 <= r < d && w == d * q + r
    ensures w / d == q && w % d == r
  {
    var q', r' := w / d, w % d;
    assert d * q' + r' == d * q + r;
    assert d * (q - q') == r' - r;
    if q > q' {
      assert d * (q - q') >= d * 1 by { MulMonotone(d, 1, q - q'); }
      assert false;
    } else if q < q' {
      assert d * (q' - q) >= d * 1 by { MulMonotone(d, 1, q' - q); }
      assert false;
    }
  }

  lemma MulMonotone(d: nat, a: int, b: int)
    requires a <= b
    ensures d * a <= d * b
  {
  }

  /** Splitting off the lowest byte: w mod 256p is its low byte plus 256 times (w div 256) mod p. */
  lemma ModSplit(w: nat, p: nat)
    requires p > 0
    ensures w % (256 * p) == w % 256 + 256 * ((w / 256) % p)
  {
    var q, r := w / 256, w % 256;
    var a, b := q / p, q % p;
    assert w == (256 * p) * a + (256 * b + r) by {
      assert q == p * a + b;
      assert w == 256 * q + r;
    }
    assert 256 * b + r < 256 * p by { MulMonotone(256, b + 1, p); }
    DivModUnique(w, 256 * p, a, 256 * b + r);
  }

  // ---------------------------------------------------------------------
  // Round trips

  /** Reading back k little-endian bytes of w gives w modulo 256^k. */
  lemma {:induction false} FromToLittleEndian(w: nat, k: nat)
    ensures FromLittleEndian(ToLittleEndian(w, k)) == w % Pow256(k)
  {
    if k > 0 {
      var bs := ToLittleEndian(w, k);
      assert bs[1..] == ToLittleEndian(w / 256, k - 1);
      FromToLittleEndian(w / 256, k - 1);
      ModSplit(w, Pow256(k - 1));
    }
  }

  /** Writing back the number that k bytes denote gives the same bytes. */
  lemma {:induction false} ToFromLittleEndian(bs: seq<byte>)
    ensures ToLittleEndian(FromLittleEndian(bs), |bs|) == bs
  {
    if bs != [] {
      var w := FromLittleEndian(bs);
      var rest := FromLittleEndian(bs[1..]);
      DivModUnique(w, 256, rest, bs[0]);
      ToFromLittleEndian(bs[1..]);
    }
  }

  /** The word splits back into its code, number and masked value. */
  lemma WordFields(code: nat, number: nat, value: int)
    requires code < 32 && number < 16
    ensures FieldsOf(Word(code, number, value)) == Fields(code, number, Mask52(value))
  {
    var w, m := Word(code, number, value), Mask52(value);
    DivModUnique(w, CODE_SHIFT, code, number * NUMBER_SHIFT + m);
    DivModUnique(w, NUMBER_SHIFT, code * 16 + number, m);
    DivModUnique(code * 16 + number, 16, code, number);
  }

  /**
   * Decoding the 8 bytes sent for (code, number, value) gives back code and
   * number exactly and value modulo 2^52; a negative value arrives as its
   * 52-bit two's complement.
   */
  lemma DecodeEncode(code: nat, number: nat, value: int)
    requires code < 32 && number < 16
    ensures Decode(Encode(code, number, value)) == Fields(code, number, Mask52(value))
    ensures -VALUE_MODULUS / 2 <= value < VALUE_MODULUS / 2 ==>
              Signed52(Decode(Encode(code, number, value)).field) == value
  {
    var w := Word(code, number, value);
    FromToLittleEndian(w, WORD_BYTES);
    assert Pow256(WORD_BYTES) == 0x1_0000_0000_0000_0000;
    assert w % Pow256(WORD_BYTES) == w;
    WordFields(code, number, value);
  }

  /** Every packet whose code is in the command table is the encoding of its own fields. */
  lemma EncodeDecode(packet: seq<byte>)
    requires |packet| == WORD_BYTES && Decode(packet).code < 32
    ensures Encode(Decode(packet).code, Decode(packet).number, Decode(packet).field) == packet
  {
    var w := FromLittleEndian(packet);
    var f := Decode(packet);
    assert w == f.code * CODE_SHIFT + (w % CODE_SHIFT);
    var low := w % CODE_SHIFT;
    DivModUnique(w, NUMBER_SHIFT, f.code * 16 + low / NUMBER_SHIFT, low % NUMBER_SHIFT);
    DivModUnique(f.code * 16 + low / NUMBER_SHIFT, 16, f.code, low / NUMBER_SHIFT);
    assert Word(f.code, f.number, f.field) == w;
    ToFromLittleEndian(packet);
  }
}
