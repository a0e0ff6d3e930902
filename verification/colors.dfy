/** The colour vocabulary of the driver: one LED's on/off triple and the 3-bit packed colour enum. */
module Colors {

  import opened Basics

  /** One LED entry: three independent channel flags (red-on, green-on, blue-on). */
  datatype RGB = RGB(r: bool, g: bool, b: bool)

  /** The entry of a LED with every channel switched off. */
  const Dark: RGB := RGB(false, false, false)

  /** The eight symbolic colours of `Color3Bits`; `Black` is the firmware's `kOff`. */
  datatype Color3Bits = Black | Red | Green | Yellow | Blue | Magenta | Cyan | White

  /** The enum's underlying byte: bit 0 is red, bit 1 green, bit 2 blue. */
  function Code(c: Color3Bits): (v: bv8)
    ensures v < 8
  {
    match c
    case Black => 0
    case Red => 1
    case Green => 2
    case Yellow => 3
    case Blue => 4
    case Magenta => 5
    case Cyan => 6
    case White => 7
  }

  /** The colour named by a byte, when the byte is one of the enum's values. */
  function FromCode(v: bv8): (c: Option<Color3Bits>)
    ensures c.Some? <==> v < 8
    ensures c.Some? ==> Code(c.value) == v
  {
    if v == 0 then Some(Black)
    else if v == 1 then Some(Red)
    else if v == 2 then Some(Green)
    else if v == 3 then Some(Yellow)
    else if v == 4 then Some(Blue)
    else if v == 5 then Some(Magenta)
    else if v == 6 then Some(Cyan)
    else if v == 7 then Some(White)
    else None
  }

  /** Bit `k` of a byte, read as the firmware does: `(val >> k) & 0x01`. */
  function Bit(v: bv8, k: nat): bool
    requires k < 8
  {
    (v >> k) & 1 == 1
  }

  /**
   * Unpacks a colour into its channel triple by reading bits 0, 1 and 2 of its code.
   * The contract says which named colours light which channel.
   */
  function Decode(c: Color3Bits): (e: RGB)
    ensures e.r <==> c == Red || c == Yellow || c == Magenta || c == White
    ensures e.g <==> c == Green || c == Yellow || c == Cyan || c == White
    ensures e.b <==> c == Blue || c == Magenta || c == Cyan || c == White
  {
    var v := Code(c);
    RGB(Bit(v, 0), Bit(v, 1), Bit(v, 2))
  }

  /** Packs a channel triple back into its colour. */
  function Encode(e: RGB): (c: Color3Bits)
    ensures Decode(c) == e
  {
    var v: bv8 := (if e.r then 1 else 0) | (if e.g then 2 else 0) | (if e.b then 4 else 0);
    FromCode(v).value
  }

  /** Every colour is recovered from its channel triple: the packing loses nothing. */
  lemma EncodeDecode(c: Color3Bits)
    ensures Encode(Decode(c)) == c
  {
  }

  /** The codes of distinct colours differ, and every byte below 8 is some colour's code. */
  lemma CodesAreZeroToSeven(c: Color3Bits, c': Color3Bits, v: bv8)
    ensures Code(c) == Code(c') ==> c == c'
    ensures v < 8 ==> Code(FromCode(v).value) == v
  {
  }

  /** Each mixed colour is the bitwise OR of its primaries. */
  lemma MixturesAreUnions()
    ensures Code(Yellow) == Code(Red) | Code(Green)
    ensures Code(Magenta) == Code(Red) | Code(Blue)
    ensures Code(Cyan) == Code(Green) | Code(Blue)
    ensures Code(White) == Code(Red) | Code(Green) | Code(Blue)
    ensures Code(Black) == 0
  {
  }

  /** Channel k of a decoded colour is set exactly when bit k of its code is. */
  lemma DecodeReadsBits(c: Color3Bits)
    ensures Decode(c).r <==> Code(c) & 1 != 0
    ensures Decode(c).g <==> Code(c) & 2 != 0
    ensures Decode(c).b <==> Code(c) & 4 != 0
  {
  }
}
