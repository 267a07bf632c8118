/** cmBase32.cxx: the encoder of section 6 of RFC 4648, with a reference decoder. */
module Base32 {
  import opened Digits
  import opened Sequences

  type byte = bv8

  const TABLE: string := "ABCDEFGHIJKLMNOPQRSTUVWXYZ234567"

  const PADDING := '='

  function Numbers(bytes: seq<byte>): (ns: seq<nat>)
    ensures |ns| == |bytes| && InBase(256, ns)
  {
    seq(|bytes|, i requires 0 <= i < |bytes| => bytes[i] as nat)
  }

  /** The character of a digit. */
  function CharOf(d: nat): char
    requires d < 32
  {
    TABLE[d]
  }

  function DigitOf(c: char): nat {
    if 'A' <= c <= 'Z' then c as int - 'A' as int else if '2' <= c <= '7' then c as int - '2' as int + 26 else 0
  }

  lemma CharReadBack(d: nat)
    requires d < 32
    ensures DigitOf(CharOf(d)) == d && CharOf(d) != PADDING
  {
    if d < 26 {
      assert TABLE[d] == ('A' as int + d) as char;
    } else {
      assert TABLE[d] == ('2' as int + d - 26) as char;
    }
  }

  function Chars(ds: seq<nat>): (s: string)
    requires InBase(32, ds)
    ensures |s| == |ds|
  {
    seq(|ds|, i requires 0 <= i < |ds| => CharOf(ds[i]))
  }

  function DigitsOf(s: string): (ds: seq<nat>)
    ensures |ds| == |s|
  {
    seq(|s|, i requires 0 <= i < |s| => DigitOf(s[i]))
  }

  /** The eight digits of five bytes: they denote the same number. */
  function BlockDigits(src: seq<byte>): (ds: seq<nat>)
    requires |src| == 5
    ensures |ds| == 8 && InBase(32, ds)
  {
    ToBase(32, FromBase(256, Numbers(src), 5), 8)
  }

  lemma Powers()
    ensures Pow(256, 1) == 256 && Pow(256, 2) == 65536 && Pow(256, 3) == 16777216 && Pow(256, 4) == 4294967296
    ensures Pow(256, 5) == 1099511627776
    ensures Pow(32, 1) == 32 && Pow(32, 3) == 32768 && Pow(32, 4) == 1048576 && Pow(32, 6) == 1073741824
    ensures Pow(32, 8) == 1099511627776
  {
    assert Pow(256, 0) == 1 && Pow(256, 1) == 256 && Pow(256, 2) == 65536 && Pow(256, 3) == 16777216;
    assert Pow(32, 0) == 1 && Pow(32, 1) == 32 && Pow(32, 2) == 1024 && Pow(32, 3) == 32768 && Pow(32, 4) == 1048576;
    assert Pow(32, 5) == 33554432 && Pow(32, 6) == 1073741824 && Pow(32, 7) == 34359738368;
  }

  /** A block and its digits denote the same number, in base 256 and base 32. */
  lemma BlockKeepsNumber(src: seq<byte>)
    requires |src| == 5
    ensures FromBase(32, BlockDigits(src), 8) == FromBase(256, Numbers(src), 5)
  {
    Powers();
    Fits(256, Numbers(src), 5);
    NumberReadBack(32, FromBase(256, Numbers(src), 5), 8);
  }

  // ---- The text of a byte sequence ----

  function PadCount(remain: nat): nat {
    match remain
    case 1 => 6
    case 2 => 4
    case 3 => 3
    case 4 => 1
    case _ => 0
  }

  /** Zero bytes up to a whole block. */
  function Filled(bytes: seq<byte>): (block: seq<byte>)
    requires |bytes| <= 5
    ensures |block| == 5
  {
    bytes + seq(5 - |bytes|, i => 0)
  }

  function Pads(k: nat): string {
    seq(k, i => PADDING)
  }

  function Encoded(bytes: seq<byte>, padding: bool): string
    decreases |bytes|
  {
    if |bytes| >= 5 then Chars(BlockDigits(bytes[..5])) + Encoded(bytes[5..], padding)
    else if bytes == [] then []
    else Chars(RestDigits(bytes)) + Trailer(|bytes|, padding)
  }

  /** The digits of an incomplete block. */
  function RestDigits(bytes: seq<byte>): (ds: seq<nat>)
    requires |bytes| < 5
    ensures InBase(32, ds) && |ds| == 8 - PadCount(|bytes|)
  {
    BlockDigits(Filled(bytes))[..8 - PadCount(|bytes|)]
  }

  /** The padding after n bytes. */
  function Trailer(n: nat, padding: bool): string {
    if padding then Pads(PadCount(n % 5)) else []
  }

  /** What each byte gives to the digits, shifted and masked as an int of 32 bits. */
  function FirstBits(byte: byte): (nat, nat) {
    var x := byte as bv32;
    (((x >> 3) & 0x1F) as nat, ((x << 2) & 0x1C) as nat)
  }

  function SecondBits(byte: byte): (nat, nat, nat) {
    var x := byte as bv32;
    (((x >> 6) & 0x03) as nat, ((x >> 1) & 0x1F) as nat, ((x << 4) & 0x10) as nat)
  }

  function ThirdBits(byte: byte): (nat, nat) {
    var x := byte as bv32;
    (((x >> 4) & 0x0F) as nat, ((x << 1) & 0x1E) as nat)
  }

  function FourthBits(byte: byte): (nat, nat, nat) {
    var x := byte as bv32;
    (((x >> 7) & 0x01) as nat, ((x >> 2) & 0x1F) as nat, ((x << 3) & 0x18) as nat)
  }

  function FifthBits(byte: byte): (nat, nat) {
    var x := byte as bv32;
    (((x >> 5) & 0x07) as nat, ((x << 0) & 0x1F) as nat)
  }

  /** The eight digits, as the code adds them up. */
  function BitDigits(src: seq<byte>): (ds: seq<nat>)
    requires |src| == 5
    ensures |ds| == 8
  {
    var a, b, c, d, e :=
      FirstBits(src[0]), SecondBits(src[1]), ThirdBits(src[2]), FourthBits(src[3]), FifthBits(src[4]);
    [a.0, a.1 + b.0, b.1, b.2 + c.0, c.1 + d.0, d.1, d.2 + e.0, e.1]
  }

  /** Two or three numbers are the bits of a byte, each at its place in the digits; the last place counts unit. */
  predicate InTwo(p: (nat, nat), byte: nat, unit: nat) {
    p.0 < 32 && p.1 < 32 && p.0 * 32 + p.1 == byte * unit
  }

  predicate InThree(p: (nat, nat, nat), byte: nat, unit: nat) {
    p.0 < 32 && p.1 < 32 && p.2 < 32 && p.0 * 1024 + p.1 * 32 + p.2 == byte * unit
  }

  lemma BitsOfFirst(x: byte)
    ensures InTwo(FirstBits(x), x as nat, 4)
  {
  }

  lemma BitsOfSecond(x: byte)
    ensures InThree(SecondBits(x), x as nat, 16)
  {
  }

  lemma BitsOfThird(x: byte)
    ensures InTwo(ThirdBits(x), x as nat, 2)
  {
  }

  lemma BitsOfFourth(x: byte)
    ensures InThree(FourthBits(x), x as nat, 8)
  {
  }

  lemma BitsOfFifth(x: byte)
    ensures InTwo(FifthBits(x), x as nat, 1)
  {
  }

  lemma Horner8(ds: seq<nat>)
    requires |ds| == 8
    ensures FromBase(32, ds, 8) ==
            ds[0] * 34359738368 + ds[1] * 1073741824 + ds[2] * 33554432 + ds[3] * 1048576
            + ds[4] * 32768 + ds[5] * 1024 + ds[6] * 32 + ds[7]
  {
    assert FromBase(32, ds, 1) == ds[0];
    assert FromBase(32, ds, 3) == ds[0] * 1024 + ds[1] * 32 + ds[2];
    assert FromBase(32, ds, 5) == ds[0] * 1048576 + ds[1] * 32768 + ds[2] * 1024 + ds[3] * 32 + ds[4];
    assert FromBase(32, ds, 7) ==
           ds[0] * 1073741824 + ds[1] * 33554432 + ds[2] * 1048576 + ds[3] * 32768 + ds[4] * 1024 + ds[5] * 32 + ds[6];
  }

  lemma Horner5(ds: seq<nat>)
    requires |ds| == 5
    ensures FromBase(256, ds, 5) == ds[0] * 4294967296 + ds[1] * 16777216 + ds[2] * 65536 + ds[3] * 256 + ds[4]
  {
    assert FromBase(256, ds, 1) == ds[0];
    assert FromBase(256, ds, 3) == ds[0] * 65536 + ds[1] * 256 + ds[2];
  }

  /** The parts of all five bytes, each with its bits. */
  predicate Parts(xs: seq<nat>, a: (nat, nat), b: (nat, nat, nat), c: (nat, nat), d: (nat, nat, nat), e: (nat, nat))
    requires |xs| == 5
  {
    InTwo(a, xs[0], 4) && InThree(b, xs[1], 16) && InTwo(c, xs[2], 2) && InThree(d, xs[3], 8) && InTwo(e, xs[4], 1)
  }

  lemma BitsAreParts(src: seq<byte>)
    requires |src| == 5
    ensures Parts(Numbers(src), FirstBits(src[0]), SecondBits(src[1]), ThirdBits(src[2]), FourthBits(src[3]),
                  FifthBits(src[4]))
  {
    BitsOfFirst(src[0]);
    BitsOfSecond(src[1]);
    BitsOfThird(src[2]);
    BitsOfFourth(src[3]);
    BitsOfFifth(src[4]);
  }

  /** Digits denote the number of the bytes if the parts of each byte add up to it. */
  lemma PartsAddUp(ds: seq<nat>, xs: seq<nat>, a: (nat, nat), b: (nat, nat, nat), c: (nat, nat), d: (nat, nat, nat),
                   e: (nat, nat))
    requires ds == [a.0, a.1 + b.0, b.1, b.2 + c.0, c.1 + d.0, d.1, d.2 + e.0, e.1]
    requires |xs| == 5 && Parts(xs, a, b, c, d, e)
    ensures FromBase(32, ds, 8) == FromBase(256, xs, 5)
  {
    Horner8(ds);
    Horner5(xs);
  }

  lemma BitsKeepNumber(src: seq<byte>)
    requires |src| == 5
    ensures FromBase(32, BitDigits(src), 8) == FromBase(256, Numbers(src), 5)
  {
    BitsAreParts(src);
    PartsAddUp(BitDigits(src), Numbers(src), FirstBits(src[0]), SecondBits(src[1]), ThirdBits(src[2]),
               FourthBits(src[3]), FifthBits(src[4]));
  }

  lemma BitsInRange(src: seq<byte>)
    requires |src| == 5
    ensures InBase(32, BitDigits(src))
  {
  }

  /** The shifts and masks compute the base-32 digits. */
  lemma BitsAreDigits(src: seq<byte>)
    requires |src| == 5
    ensures InBase(32, BitDigits(src)) && BlockDigits(src) == BitDigits(src)
  {
    BitsKeepNumber(src);
    BitsInRange(src);
    WholeReadBack(BitDigits(src));
  }

  lemma WholeReadBack(ds: seq<nat>)
    requires |ds| == 8 && InBase(32, ds)
    ensures ToBase(32, FromBase(32, ds, 8), 8) == ds
  {
    DigitsReadBack(32, ds, 8);
    assert ds[..8] == ds;
  }

  /** Base32Encode5; dst is written slot by slot. */
  method Base32Encode5(src: seq<byte>, dst: array<char>)
    requires |src| == 5 && dst.Length == 8
    modifies dst
    ensures dst[..] == Chars(BlockDigits(src))
  {
    BitsAreDigits(src);
    var bits := BitDigits(src);
    dst[0] := CharOf(bits[0]);
    dst[1] := CharOf(bits[1]);
    dst[2] := CharOf(bits[2]);
    dst[3] := CharOf(bits[3]);
    dst[4] := CharOf(bits[4]);
    dst[5] := CharOf(bits[5]);
    dst[6] := CharOf(bits[6]);
    dst[7] := CharOf(bits[7]);
  }

  /** encodeString. */
  method EncodeString(input: seq<byte>, padding: bool) returns (res: string)
    ensures res == Encoded(input, padding)
  {
    res := [];
    var buffer := new char[8];
    var at := 0;
    assert input[0..] == input;
    while at + 5 <= |input|
      invariant at <= |input|
      invariant res + Encoded(input[at..], padding) == Encoded(input, padding)
    {
      Base32Encode5(input[at..at + 5], buffer);
      BlockStep(input, at, padding, res, buffer[..]);
      res := res + buffer[..];
      at := at + 5;
    }
    if |input| - at != 0 {
      var last := EncodeRest(input[at..], padding, buffer);
      res := res + last;
    }
  }

  lemma BlockStep(input: seq<byte>, at: nat, padding: bool, res: string, block: string)
    requires at + 5 <= |input| && block == Chars(BlockDigits(input[at..at + 5]))
    ensures res + Encoded(input[at..], padding) == res + block + Encoded(input[at + 5..], padding)
  {
    assert input[at..][..5] == input[at..at + 5] && input[at..][5..] == input[at + 5..];
    Associative(res, block, Encoded(input[at + 5..], padding));
  }

  /** The last, incomplete block. */
  method EncodeRest(input: seq<byte>, padding: bool, buffer: array<char>) returns (res: string)
    requires 0 < |input| < 5 && buffer.Length == 8
    modifies buffer
    ensures res == Encoded(input, padding)
  {
    var remain := |input|;
    var padded := new byte[5];
    for i := 0 to remain
      invariant forall j | 0 <= j < i :: padded[j] == input[j]
    {
      padded[i] := input[i];
    }
    for i := remain to 5
      invariant forall j | 0 <= j < remain :: padded[j] == input[j]
      invariant forall j | remain <= j < i :: padded[j] == 0
    {
      padded[i] := 0;
    }
    assert padded[..] == Filled(input);
    Base32Encode5(padded[..], buffer);
    var numPad := 0;
    match remain {
      case 1 => numPad := 6;
      case 2 => numPad := 4;
      case 3 => numPad := 3;
      case 4 => numPad := 1;
      case _ =>
    }
    res := buffer[..8 - numPad];
    assert res == Chars(RestDigits(input));
    if padding {
      res := AppendPads(res, numPad);
    }
  }

  method AppendPads(s: string, numPad: nat) returns (res: string)
    ensures res == s + Pads(numPad)
  {
    res := s;
    for i := 0 to numPad
      invariant res == s + Pads(i)
    {
      res := res + [PADDING];
    }
  }

  /** Whole blocks of eight when padded; otherwise the digits that carry bits, and no more. */
  function TextLength(n: nat, padding: bool): nat {
    if padding then (n + 4) / 5 * 8 else (8 * n + 4) / 5
  }

  /** How many characters the loop and the last block write. */
  function Written(n: nat, padding: bool): nat {
    if n >= 5 then 8 + Written(n - 5, padding) else if n == 0 then 0 else if padding then 8 else 8 - PadCount(n)
  }

  lemma {:induction false} EncodedIsWritten(bytes: seq<byte>, padding: bool)
    ensures |Encoded(bytes, padding)| == Written(|bytes|, padding)
    decreases |bytes|
  {
    if |bytes| >= 5 {
      EncodedIsWritten(bytes[5..], padding);
      NextWritten(bytes, padding);
    } else {
      RestWritten(bytes, padding);
    }
  }

  lemma NextWritten(bytes: seq<byte>, padding: bool)
    requires |bytes| >= 5
    ensures |Encoded(bytes, padding)| == 8 + |Encoded(bytes[5..], padding)|
  {
  }

  lemma RestWritten(bytes: seq<byte>, padding: bool)
    requires |bytes| < 5
    ensures |Encoded(bytes, padding)| == Written(|bytes|, padding)
  {
    TrailerLength(|bytes|, padding);
  }

  lemma TrailerLength(n: nat, padding: bool)
    requires n < 5
    ensures |Trailer(n, padding)| == if padding then PadCount(n) else 0
  {
  }

  lemma {:induction false} WrittenLength(n: nat, padding: bool)
    ensures Written(n, padding) == TextLength(n, padding)
  {
    if n >= 5 {
      WrittenLength(n - 5, padding);
    }
  }

  lemma EncodedLength(bytes: seq<byte>, padding: bool)
    ensures |Encoded(bytes, padding)| == TextLength(|bytes|, padding)
  {
    EncodedIsWritten(bytes, padding);
    WrittenLength(|bytes|, padding);
  }

  // ---- A reference decoder ----

  function Unpadded(s: string): string {
    if s == [] || s[|s| - 1] != PADDING then s else Unpadded(s[..|s| - 1])
  }

  /** As many bytes as the digits carry; digits that are missing from the last block are zero. */
  function DecodedDigits(ds: seq<nat>): seq<nat>
    decreases |ds|
  {
    if |ds| >= 8 then ToBase(256, FromBase(32, ds[..8], 8), 5) + DecodedDigits(ds[8..])
    else
      ZerosAre(8 - |ds|);
      ToBase(256, FromBase(32, ds + Zeros(8 - |ds|), 8), 5)[..|ds| * 5 / 8]
  }

  function Decoded(s: string): seq<nat> {
    DecodedDigits(DigitsOf(Unpadded(s)))
  }

  lemma CharsReadBack(ds: seq<nat>)
    requires InBase(32, ds)
    ensures DigitsOf(Chars(ds)) == ds && forall i | 0 <= i < |ds| :: Chars(ds)[i] != PADDING
  {
    forall i | 0 <= i < |ds| ensures DigitOf(Chars(ds)[i]) == ds[i] && Chars(ds)[i] != PADDING {
      CharReadBack(ds[i]);
    }
  }

  lemma BlockReadBack(src: seq<byte>)
    requires |src| == 5
    ensures ToBase(256, FromBase(32, BlockDigits(src), 8), 5) == Numbers(src)
  {
    BlockKeepsNumber(src);
    DigitsReadBack(256, Numbers(src), 5);
    assert Numbers(src)[..5] == Numbers(src);
  }

  /** The number of an incomplete block, filled up. */
  lemma FilledNumber(bytes: seq<byte>)
    requires 0 < |bytes| < 5
    ensures FromBase(256, Numbers(Filled(bytes)), 5) ==
            FromBase(256, Numbers(bytes), |bytes|) * Scale(|bytes|) * Pow(32, PadCount(|bytes|))
  {
    var n := |bytes|;
    ZerosAre(5 - n);
    assert Numbers(Filled(bytes)) == Numbers(bytes) + Zeros(5 - n);
    AppendZeros(256, Numbers(bytes), 5 - n);
    Rescale(FromBase(256, Numbers(bytes), n), n);
  }

  /** The digits that are cut off an incomplete block are zero. */
  lemma CutDigitsAreZero(bytes: seq<byte>)
    requires 0 < |bytes| < 5
    ensures BlockDigits(Filled(bytes)) == RestDigits(bytes) + Zeros(PadCount(|bytes|))
  {
    FilledNumber(bytes);
    CutZeros(BlockDigits(Filled(bytes)), FromBase(256, Numbers(bytes), |bytes|) * Scale(|bytes|), PadCount(|bytes|));
  }

  lemma CutZeros(block: seq<nat>, w: nat, k: nat)
    requires k <= 8 && block == ToBase(32, w * Pow(32, k), 8)
    ensures |block| == 8 && block == block[..8 - k] + Zeros(k)
  {
    EndsWithZeros(32, w, 8 - k, k);
  }

  function Scale(n: nat): nat {
    match n
    case 1 => 4
    case 2 => 16
    case 3 => 2
    case _ => 8
  }

  lemma Rescale(x: nat, n: nat)
    requires 0 < n < 5
    ensures x * Pow(256, 5 - n) == x * Scale(n) * Pow(32, PadCount(n))
  {
    Powers();
  }

  lemma RestReadBack(bytes: seq<byte>)
    requires 0 < |bytes| < 5
    ensures DecodedDigits(RestDigits(bytes)) == Numbers(bytes)
  {
    CutDigitsAreZero(bytes);
    BlockReadBack(Filled(bytes));
    ShortBlock(RestDigits(bytes), PadCount(|bytes|), BlockDigits(Filled(bytes)), |bytes|);
    FilledNumbers(bytes);
  }

  lemma FilledNumbers(bytes: seq<byte>)
    requires |bytes| <= 5
    ensures Numbers(Filled(bytes))[..|bytes|] == Numbers(bytes)
  {
  }

  lemma ShortBlock(ds: seq<nat>, k: nat, block: seq<nat>, n: nat)
    requires 0 < n < 5 && k == PadCount(n) && |ds| == 8 - k && block == ds + Zeros(k) && |block| == 8
    ensures DecodedDigits(ds) == ToBase(256, FromBase(32, block, 8), 5)[..n]
  {
    assert (8 - k) * 5 / 8 == n;
  }

  /** The digits of a text without its padding. */
  function EncodedDigits(bytes: seq<byte>): (ds: seq<nat>)
    ensures InBase(32, ds)
    decreases |bytes|
  {
    if |bytes| >= 5 then BlockDigits(bytes[..5]) + EncodedDigits(bytes[5..])
    else if bytes == [] then []
    else RestDigits(bytes)
  }

  lemma FirstBlock(block: seq<nat>, rest: seq<nat>)
    requires |block| == 8
    ensures DecodedDigits(block + rest) == ToBase(256, FromBase(32, block, 8), 5) + DecodedDigits(rest)
  {
    assert (block + rest)[..8] == block && (block + rest)[8..] == rest;
  }

  lemma NumbersSplit(bytes: seq<byte>)
    requires |bytes| >= 5
    ensures Numbers(bytes) == Numbers(bytes[..5]) + Numbers(bytes[5..])
  {
  }

  lemma {:induction false} DigitsRoundTrip(bytes: seq<byte>)
    ensures DecodedDigits(EncodedDigits(bytes)) == Numbers(bytes)
    decreases |bytes|
  {
    if |bytes| >= 5 {
      DigitsRoundTrip(bytes[5..]);
      BlockReadBack(bytes[..5]);
      FirstBlock(BlockDigits(bytes[..5]), EncodedDigits(bytes[5..]));
      NumbersSplit(bytes);
    } else if bytes == [] {
      assert DecodedDigits([]) == [];
    } else {
      RestReadBack(bytes);
    }
  }

  lemma CharsConcat(a: seq<nat>, b: seq<nat>)
    requires InBase(32, a) && InBase(32, b)
    ensures Chars(a + b) == Chars(a) + Chars(b)
  {
  }

  lemma SameTrailer(n: nat, padding: bool)
    requires n >= 5
    ensures Trailer(n, padding) == Trailer(n - 5, padding)
  {
  }

  /** A text is its digits and then padding. */
  lemma {:induction false} EncodedIsDigits(bytes: seq<byte>, padding: bool)
    ensures Encoded(bytes, padding) == Chars(EncodedDigits(bytes)) + Trailer(|bytes|, padding)
    decreases |bytes|
  {
    if |bytes| >= 5 {
      EncodedIsDigits(bytes[5..], padding);
      CharsConcat(BlockDigits(bytes[..5]), EncodedDigits(bytes[5..]));
      SameTrailer(|bytes|, padding);
      Associative(Chars(BlockDigits(bytes[..5])), Chars(EncodedDigits(bytes[5..])), Trailer(|bytes|, padding));
    }
  }

  lemma {:induction false} UnpaddedText(s: string, k: nat)
    requires forall i | 0 <= i < |s| :: s[i] != PADDING
    ensures Unpadded(s + Pads(k)) == s
    decreases k
  {
    if k == 0 {
      assert s + Pads(0) == s;
    } else {
      assert (s + Pads(k))[..|s| + k - 1] == s + Pads(k - 1);
      UnpaddedText(s, k - 1);
    }
  }

  /** Decoding gives the bytes back, for every byte sequence, with or without padding. */
  lemma RoundTrip(bytes: seq<byte>, padding: bool)
    ensures Decoded(Encoded(bytes, padding)) == Numbers(bytes)
  {
    var s := Chars(EncodedDigits(bytes));
    EncodedIsDigits(bytes, padding);
    CharsReadBack(EncodedDigits(bytes));
    UnpaddedText(s, if padding then PadCount(|bytes| % 5) else 0);
    DigitsRoundTrip(bytes);
  }

  /** A text is made of capital letters and the digits from 2 to 7; with padding it ends with at most six equals signs,
      which fill the last block of eight. */
  lemma TextShape(bytes: seq<byte>, plain: string, padded: string) returns (k: nat)
    requires plain == Encoded(bytes, false) && padded == Encoded(bytes, true)
    ensures IsAlphabetic(plain)
    ensures k <= 6 && padded == plain + EqualsSigns(k) && |padded| % 8 == 0
  {
    k := PadCount(|bytes| % 5);
    AtMostSix(|bytes| % 5);
    PlainShape(bytes, plain);
    PaddedShape(bytes, plain, padded, k);
    EncodedLength(bytes, true);
    FillsBlocks(|bytes|);
  }

  lemma AtMostSix(remain: nat)
    ensures PadCount(remain) <= 6
  {
  }

  lemma PlainShape(bytes: seq<byte>, plain: string)
    requires plain == Encoded(bytes, false)
    ensures plain == Chars(EncodedDigits(bytes)) && IsAlphabetic(plain)
  {
    EncodedIsDigits(bytes, false);
    assert Chars(EncodedDigits(bytes)) + [] == Chars(EncodedDigits(bytes));
    CharsAreAlphabetic(EncodedDigits(bytes));
  }

  lemma PaddedShape(bytes: seq<byte>, plain: string, padded: string, k: nat)
    requires plain == Chars(EncodedDigits(bytes)) && padded == Encoded(bytes, true) && k == PadCount(|bytes| % 5)
    ensures padded == plain + EqualsSigns(k)
  {
    EncodedIsDigits(bytes, true);
    PadsAreEqualsSigns(k);
  }

  lemma FillsBlocks(n: nat)
    ensures TextLength(n, true) % 8 == 0
  {
  }

  predicate IsAlphabetic(s: string) {
    forall i | 0 <= i < |s| :: 'A' <= s[i] <= 'Z' || '2' <= s[i] <= '7'
  }

  function EqualsSigns(k: nat): string {
    if k == 0 then "" else EqualsSigns(k - 1) + "="
  }

  lemma {:induction false} PadsAreEqualsSigns(k: nat)
    ensures Pads(k) == EqualsSigns(k)
  {
    if k > 0 {
      PadsAreEqualsSigns(k - 1);
      assert Pads(k) == Pads(k - 1) + ['='];
    }
  }

  lemma CharsAreAlphabetic(ds: seq<nat>)
    requires InBase(32, ds)
    ensures IsAlphabetic(Chars(ds))
  {
    forall i | 0 <= i < |ds| ensures 'A' <= Chars(ds)[i] <= 'Z' || '2' <= Chars(ds)[i] <= '7' {
      LetterOrDigit(ds[i]);
    }
  }

  lemma LetterOrDigit(d: nat)
    requires d < 32
    ensures 'A' <= CharOf(d) <= 'Z' || '2' <= CharOf(d) <= '7'
  {
    if d < 26 {
      assert TABLE[d] == ('A' as int + d) as char;
    } else {
      assert TABLE[d] == ('2' as int + d - 26) as char;
    }
  }
}
