/**
 * TMDS channel coding (DVI 1.0, section 3.3.3) as the HDMI driver does it:
 * an 8-bit colour component becomes a 10-bit transition-minimised symbol,
 * always in the branch of the algorithm for a running disparity of zero,
 * which the driver assumes for every symbol it encodes.
 */
module Tmds {

  /** The value of bit i alone, 2 to the power i. */
  function BitValue(i: nat): bv8
    requires i < 8
  {
    match i
    case 0 => 0x01 case 1 => 0x02 case 2 => 0x04 case 3 => 0x08
    case 4 => 0x10 case 5 => 0x20 case 6 => 0x40 case _ => 0x80
  }

  /** Bit i of b. */
  predicate Bit(b: bv8, i: nat)
    requires i < 8
  {
    b & BitValue(i) != 0
  }

  /** Number of ones among bits 0 .. n-1 of b; with n = 8, the compiler builtin popcount. */
  function Popcount(b: bv8, n: nat): (k: nat)
    requires n <= 8
    ensures k <= n
  {
    if n == 0 then 0
    else Popcount(b, n - 1) + (if Bit(b, n - 1) then 1 else 0)
  }

  const DataBits: nat := 8

  /** Stage one uses XNOR when b has more than four ones, or exactly four and bit 0 clear. */
  predicate UsesXnor(b: bv8)
  {
    Popcount(b, DataBits) > 4 || (Popcount(b, DataBits) == 4 && b & 1 == 0)
  }

  /**
   * q_m[i] of the DVI encoder: q_m[0] = D[0], and q_m[i] is q_m[i-1] XOR D[i],
   * negated in the XNOR case.
   */
  predicate QmBit(b: bv8, xnor: bool, i: nat)
    requires i < 8
  {
    if i == 0 then Bit(b, 0)
    else (QmBit(b, xnor, i - 1) != Bit(b, i)) != xnor
  }

  /** q_m[0] .. q_m[n-1] packed into the low n bits, as the encoder's loop accumulates them. */
  function QmPrefix(b: bv8, xnor: bool, n: nat): bv16
    requires n <= 8
  {
    if n == 0 then 0
    else QmPrefix(b, xnor, n - 1) | (if QmBit(b, xnor, n - 1) then BitValue(n - 1) as bv16 else 0)
  }

  /** Bit i of the result is the XOR of bits 0 .. i of b. */
  function PrefixXor(b: bv8): bv8
  {
    b ^ (b << 1) ^ (b << 2) ^ (b << 3) ^ (b << 4) ^ (b << 5) ^ (b << 6) ^ (b << 7)
  }

  /** The XNOR chain differs from the XOR chain exactly in its odd positions. */
  function ChainMask(xnor: bool): bv8
  {
    if xnor then 0xAA else 0
  }

  /**
   * Stage two with zero running disparity: in the XNOR case the data bits
   * are inverted and bit 9 is set, otherwise bit 8 is set.
   */
  function Balance(q: bv16, xnor: bool): bv16
  {
    if xnor then (q ^ 0xFF) | (1 << 9) else q | (1 << 8)
  }

  /** The 10-bit symbol: the eight chain bits q_m[0..7] after stage two. */
  function TmdsCode(b: bv8): bv16
  {
    Balance(QmPrefix(b, UsesXnor(b), DataBits), UsesXnor(b))
  }

  /** The encoder of drivers/hdmi/hdmi.c, one data bit per loop step. */
  method TmdsEncode(input: bv8) returns (code: bv16)
    ensures code == TmdsCode(input)
  {
    var useXnor := UsesXnor(input);
    var encoded: bv16 := (input & 1) as bv16;
    var previous := encoded;
    var i := 1;
    EncodeStart(input, useXnor);
    while i < 8
      invariant 1 <= i <= 8
      invariant encoded == QmPrefix(input, useXnor, i)
      invariant previous == if QmBit(input, useXnor, i - 1) then 1 else 0
    {
      var current := ((input >> i) & 1) as bv16;
      var bit := if useXnor then 1 ^ (previous ^ current) else previous ^ current;
      EncodeStep(input, useXnor, i, previous, current, bit);
      PrefixStep(input, useXnor, i, bit);
      encoded := encoded | (bit << i);
      previous := bit;
      i := i + 1;
    }
    code := Balance(encoded, useXnor);
  }

  /** One step of the encoder's loop computes q_m[i] from q_m[i-1] and D[i]. */
  lemma EncodeStep(b: bv8, xnor: bool, i: nat, previous: bv16, current: bv16, bit: bv16)
    requires 1 <= i < 8
    requires previous == if QmBit(b, xnor, i - 1) then 1 else 0
    requires current == ((b >> i) & 1) as bv16
    requires bit == if xnor then 1 ^ (previous ^ current) else previous ^ current
    ensures bit == if QmBit(b, xnor, i) then 1 else 0
  {
    ShiftedBit(b, i);
  }

  /** Placing q_m[i] at bit i extends the chain by one bit. */
  lemma PrefixStep(b: bv8, xnor: bool, i: nat, bit: bv16)
    requires i < 8
    requires bit == if QmBit(b, xnor, i) then 1 else 0
    ensures QmPrefix(b, xnor, i) | (bit << i) == QmPrefix(b, xnor, i + 1)
  {
    ShiftedOne(i);
  }

  /** The loop starts with q_m[0] = D[0]. */
  lemma EncodeStart(b: bv8, xnor: bool)
    ensures QmPrefix(b, xnor, 1) == (b & 1) as bv16
    ensures QmBit(b, xnor, 0) <==> b & 1 == 1
  {
  }

  /** The shift-and-mask reading of bit i used by the encoder is Bit. */
  lemma ShiftedBit(b: bv8, i: nat)
    requires i < 8
    ensures ((b >> i) & 1 == 1) == Bit(b, i)
  {
    assert (1 as bv8) << i == BitValue(i) by {
      match i
      case 0 => case 1 => case 2 => case 3 => case 4 => case 5 => case 6 => case 7 =>
    }
  }

  lemma ShiftedOne(i: nat)
    requires i < 8
    ensures (1 as bv16) << i == BitValue(i) as bv16
  {
    match i
    case 0 => case 1 => case 2 => case 3 => case 4 => case 5 => case 6 => case 7 =>
  }

  lemma BitOfXor(x: bv8, y: bv8, i: nat)
    requires i < 8
    ensures Bit(x ^ y, i) == (Bit(x, i) != Bit(y, i))
  {
    var m := BitValue(i);
    assert (x ^ y) & m == (x & m) ^ (y & m);
  }

  /** Each prefix-XOR bit is the previous one XOR the next input bit. */
  lemma PrefixXorStep(b: bv8, i: nat)
    requires 1 <= i < 8
    ensures Bit(PrefixXor(b), i) == (Bit(PrefixXor(b), i - 1) != Bit(b, i))
  {
  }

  /** The chain mask alternates exactly when XNOR is used. */
  lemma ChainMaskStep(xnor: bool, i: nat)
    requires 1 <= i < 8
    ensures Bit(ChainMask(xnor), i) == (Bit(ChainMask(xnor), i - 1) != xnor)
  {
  }

  /** The DVI chain bit q_m[i] in closed form. */
  lemma {:induction false} QmBitClosed(b: bv8, xnor: bool, i: nat)
    requires i < 8
    ensures QmBit(b, xnor, i) == Bit(PrefixXor(b) ^ ChainMask(xnor), i)
  {
    if i == 0 {
      BitOfXor(PrefixXor(b), ChainMask(xnor), 0);
    } else {
      QmBitClosed(b, xnor, i - 1);
      ClosedStep(b, xnor, i);
    }
  }

  /** The closed form obeys the same recurrence as the chain. */
  lemma ClosedStep(b: bv8, xnor: bool, i: nat)
    requires 1 <= i < 8
    ensures Bit(PrefixXor(b) ^ ChainMask(xnor), i) == ((Bit(PrefixXor(b) ^ ChainMask(xnor), i - 1) != Bit(b, i)) != xnor)
  {
    var p, c := PrefixXor(b), ChainMask(xnor);
    BitOfXor(p, c, i);
    BitOfXor(p, c, i - 1);
    PrefixXorStep(b, i);
    ChainMaskStep(xnor, i);
  }

  /** Bits 0 .. n-1 set. */
  function LowMask(n: nat): bv16
    requires n <= 8
  {
    match n
    case 0 => 0x00 case 1 => 0x01 case 2 => 0x03 case 3 => 0x07 case 4 => 0x0F
    case 5 => 0x1F case 6 => 0x3F case 7 => 0x7F case _ => 0xFF
  }

  lemma LowMaskStep(c: bv8, n: nat)
    requires 1 <= n <= 8
    ensures (c as bv16 & LowMask(n - 1)) | (if Bit(c, n - 1) then BitValue(n - 1) as bv16 else 0) == c as bv16 & LowMask(n)
  {
  }

  lemma {:induction false} QmPrefixClosed(b: bv8, xnor: bool, n: nat)
    requires n <= 8
    ensures QmPrefix(b, xnor, n) == (PrefixXor(b) ^ ChainMask(xnor)) as bv16 & LowMask(n)
  {
    if n > 0 {
      QmPrefixClosed(b, xnor, n - 1);
      QmBitClosed(b, xnor, n - 1);
      LowMaskStep(PrefixXor(b) ^ ChainMask(xnor), n);
    }
  }

  /** The stage-one chain of DVI 1.0, all eight bits, equals the closed form. */
  lemma QmChainClosed(b: bv8, xnor: bool)
    ensures QmPrefix(b, xnor, DataBits) == (PrefixXor(b) ^ ChainMask(xnor)) as bv16
  {
    QmPrefixClosed(b, xnor, DataBits);
  }

  /**
   * Shape of every symbol: below 1024, exactly one of bits 8 and 9 set, bit 9
   * set exactly in the XNOR case, and the data bits are q_m[0..7] of the DVI
   * chain, inverted in the XNOR case.
   */
  lemma TmdsCodeLayout(b: bv8)
    ensures TmdsCode(b) < 1024
    ensures (TmdsCode(b) >> 8) & 3 == 1 || (TmdsCode(b) >> 8) & 3 == 2
    ensures (TmdsCode(b) >> 9) & 1 == 1 <==> UsesXnor(b)
    ensures TmdsCode(b) & 0xFF == (PrefixXor(b) ^ (if UsesXnor(b) then 0x55 else 0)) as bv16
  {
    QmChainClosed(b, UsesXnor(b));
  }

  /** Decoder of DVI 1.0, section 3.3.3: undo the inversion flagged by bit 9, then the chain flagged by bit 8. */
  function TmdsDecode(code: bv16): bv8
  {
    var data := (code & 0xFF) as bv8;
    var q := if (code >> 9) & 1 == 1 then data ^ 0xFF else data;
    if (code >> 8) & 1 == 1 then q ^ (q << 1) else q ^ (q << 1) ^ 0xFE
  }

  /** Every symbol decodes back to its byte. */
  lemma TmdsRoundTrip(b: bv8)
    ensures TmdsDecode(TmdsCode(b)) == b
  {
    TmdsCodeLayout(b);
  }

  /** Distinct bytes get distinct symbols. */
  lemma TmdsInjective(a: bv8, b: bv8)
    ensures TmdsCode(a) == TmdsCode(b) ==> a == b
  {
    TmdsRoundTrip(a);
    TmdsRoundTrip(b);
  }

  /**
   * Complementing all ten bits of a symbol flips bit 8 as well, so a DVI
   * decoder undoes the other chain: the byte comes back with bits 1-7 flipped.
   */
  lemma ComplementedSymbolDecode(b: bv8)
    ensures TmdsDecode(TmdsCode(b) ^ 0x3FF) == b ^ 0xFE
  {
    TmdsCodeLayout(b);
  }

  /**
   * The inversion DVI 1.0 applies to balance a channel: the eight data bits
   * are flipped and bit 9 records it; bit 8 is kept.
   */
  function DviInverted(code: bv16): bv16
  {
    code ^ 0x2FF
  }

  /** A DVI-inverted symbol decodes to the same byte. */
  lemma DviInvertedSymbolDecode(b: bv8)
    ensures TmdsDecode(DviInverted(TmdsCode(b))) == b
  {
    TmdsCodeLayout(b);
  }

  /** The decoder facts the palette needs, on the ten bits a receiver reads. */
  lemma CodeDecodes(b: bv8)
    ensures TmdsDecode(TmdsCode(b) & 0x3FF) == b
    ensures TmdsDecode((TmdsCode(b) & 0x3FF) ^ 0x3FF) == b ^ 0xFE
    ensures TmdsDecode(DviInverted(TmdsCode(b)) & 0x3FF) == b
  {
    TmdsCodeLayout(b);
    TmdsRoundTrip(b);
    ComplementedSymbolDecode(b);
    DviInvertedSymbolDecode(b);
  }
}
