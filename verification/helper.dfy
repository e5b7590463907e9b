/** Byte helpers of the encoder: range predicates, bit insertion, big-endian
    packing of numbers and hex strings, and the hex display of a byte array. */
module Helper {
  import opened Wrappers
  import opened Errors

  // ---------------------------------------------------------------------------
  // Bytes as stored in a Uint8Array
  // ---------------------------------------------------------------------------

  /** An element of a Uint8Array. */
  newtype uint8 = x: int | 0 <= x < 256

  /** The conversion a Uint8Array store applies to an integer: wrap modulo 256. */
  function ToUint8(v: int): (b: uint8)
    ensures b as int == v % 256
  {
    (v % 256) as uint8
  }

  /** The byte holding a value already known to be in byte range. */
  function ByteOf(v: int): (b: uint8)
    requires 0 <= v < 256
    ensures b as int == v
  {
    v as uint8
  }

  /** `new Uint8Array(n)`: n zero bytes. */
  function Zeros(n: nat): (r: seq<uint8>)
    ensures |r| == n
    ensures forall i :: 0 <= i < n ==> r[i] == 0
  {
    seq(n, _ => 0)
  }

  /** Value of a byte sequence read big-endian (most significant byte first). */
  function BigEndianValue(bs: seq<uint8>): nat {
    if |bs| == 0 then 0 else BigEndianValue(bs[..|bs| - 1]) * 256 + bs[|bs| - 1] as int
  }

  function Pow256(k: nat): (p: nat)
    ensures p >= 1
  {
    if k == 0 then 1 else 256 * Pow256(k - 1)
  }

  function Pow16(n: nat): (p: nat)
    ensures p >= 1
  {
    if n == 0 then 1 else 16 * Pow16(n - 1)
  }

  function Max(a: int, b: int): int {
    if a < b then b else a
  }

  // ---------------------------------------------------------------------------
  // Range predicates
  // ---------------------------------------------------------------------------

  predicate IsInRangeInclusive(lowerEdge: int, upperEdge: int, input: int) {
    if lowerEdge <= input && input <= upperEdge then true else false
  }

  /** A value is in byte range exactly when a Uint8Array stores it without loss. */
  predicate IsInByteRange(input: int)
    ensures IsInByteRange(input) <==> ToUint8(input) as int == input
  {
    IsInRangeInclusive(0, 255, input)
  }

  // ---------------------------------------------------------------------------
  // Digit strings (the well-formed inputs on which `parseInt` is modelled)
  // ---------------------------------------------------------------------------

  predicate IsHexDigit(ch: char) {
    '0' <= ch <= '9' || 'a' <= ch <= 'f' || 'A' <= ch <= 'F'
  }

  predicate IsHexString(s: string) {
    forall i :: 0 <= i < |s| ==> IsHexDigit(s[i])
  }

  function HexDigitValue(ch: char): (d: nat)
    requires IsHexDigit(ch)
    ensures d < 16
  {
    if '0' <= ch <= '9' then ch as int - '0' as int
    else if 'a' <= ch <= 'f' then ch as int - 'a' as int + 10
    else ch as int - 'A' as int + 10
  }

  /** `parseInt(s, 16)` on a string of hex digits (0 for the empty string). */
  function HexValue(s: string): nat
    requires IsHexString(s)
  {
    if |s| == 0 then 0 else HexValue(s[..|s| - 1]) * 16 + HexDigitValue(s[|s| - 1])
  }

  predicate IsDecimalDigit(ch: char) {
    '0' <= ch <= '9'
  }

  /** A string of decimal digits: the input `parseInt(s, 10)` is modelled on. */
  predicate IsDigits(s: string) {
    forall i :: 0 <= i < |s| ==> IsDecimalDigit(s[i])
  }

  function DecimalDigitValue(ch: char): (d: nat)
    requires IsDecimalDigit(ch)
    ensures d < 10
  {
    ch as int - '0' as int
  }

  /** `parseInt(s, 10)` on a string of decimal digits. The empty string parses to NaN,
      which every Uint8Array store, bitwise operator and array length turns into 0;
      0 stands for it here (and likewise in `HexValue`). */
  function DecimalValue(s: string): nat
    requires IsDigits(s)
  {
    if |s| == 0 then 0 else DecimalValue(s[..|s| - 1]) * 10 + DecimalDigitValue(s[|s| - 1])
  }

  // ---------------------------------------------------------------------------
  // zeroPadding, toHex, displayUint8ArrayAsHex
  // ---------------------------------------------------------------------------

  function Repeat(ch: char, n: nat): (r: string)
    ensures |r| == n
    ensures forall i :: 0 <= i < n ==> r[i] == ch
  {
    seq(n, _ => ch)
  }

  /** Left-pads `input` with '0' up to `size` characters; longer inputs are kept whole. */
  function ZeroPadding(input: string, size: int): (r: string)
    ensures |r| == Max(|input|, size)
    ensures r[|r| - |input|..] == input
    ensures forall i :: 0 <= i < |r| - |input| ==> r[i] == '0'
  {
    if |input| < size then Repeat('0', size - |input|) + input else input
  }

  function UpperHexDigit(d: nat): (ch: char)
    requires d < 16
    ensures IsHexDigit(ch) && HexDigitValue(ch) == d
    ensures !('a' <= ch <= 'f')
  {
    if d < 10 then ('0' as int + d) as char else ('A' as int + d - 10) as char
  }

  /** Two upper-case hex digits naming the byte. */
  function ToHex(b: uint8): (r: string)
    ensures |r| == 2 && IsHexString(r)
    ensures forall i :: 0 <= i < 2 ==> !('a' <= r[i] <= 'f')
    ensures HexValue(r) == b as int
  {
    var v := b as int;
    var r := [UpperHexDigit(v / 16), UpperHexDigit(v % 16)];
    assert r[..1][..0] == [];
    assert HexValue(r[..1]) == v / 16;
    r
  }

  /** The bytes in hex, `separator` between consecutive bytes only. */
  function DisplayHex(bytes: seq<uint8>, separator: string): (r: string)
    ensures |bytes| == 0 ==> r == ""
    ensures |bytes| > 0 ==> |r| == 2 * |bytes| + |separator| * (|bytes| - 1)
  {
    if |bytes| == 0 then ""
    else if |bytes| == 1 then ToHex(bytes[0])
    else ToHex(bytes[0]) + separator + DisplayHex(bytes[1..], separator)
  }

  // ---------------------------------------------------------------------------
  // Hex strings to bytes: hexStringToUint8Array and toByteArray
  // ---------------------------------------------------------------------------

  /** Cuts a hex string into two-character chunks from the left, each parsed as a
      byte; an odd trailing character forms a chunk of its own. */
  function HexChunks(s: string): (r: seq<uint8>)
    requires IsHexString(s)
    ensures |r| == (|s| + 1) / 2
    decreases |s|
  {
    if |s| == 0 then []
    else if |s| == 1 then [ByteOf(HexDigitValue(s[0]))]
    else [ByteOf(HexDigitValue(s[0]) * 16 + HexDigitValue(s[1]))] + HexChunks(s[2..])
  }

  /** `hexStringToUint8Array`: rejects an odd length, otherwise parses the pairs. */
  function HexStringToBytes(hexString: string): (r: Result<seq<uint8>, Error>)
    requires IsHexString(hexString)
    ensures r.Failure? <==> |hexString| % 2 == 1
    ensures r.Failure? ==> r.error == OddHexLength
    ensures r.Success? ==> |r.value| == |hexString| / 2 && BigEndianValue(r.value) == HexValue(hexString)
  {
    if |hexString| % 2 != 0 then Failure(OddHexLength)
    else
      HexChunksValue(hexString);
      Success(HexChunks(hexString))
  }

  /** `toByteArray`: left-pads with '0' to `2 * size` characters, then parses the pairs.
      Up to `2 * size` digits give exactly `size` bytes holding the string's value;
      a longer string is not truncated. */
  function ToByteArray(byteString: string, size: nat): (r: seq<uint8>)
    requires IsHexString(byteString)
    ensures |r| == (Max(|byteString|, 2 * size) + 1) / 2
    ensures |byteString| <= 2 * size ==> |r| == size && BigEndianValue(r) == HexValue(byteString)
  {
    var padded := ZeroPadding(byteString, 2 * size);
    ZeroPaddingValue(byteString, 2 * size);
    if |byteString| <= 2 * size then
      HexChunksValue(padded);
      HexChunks(padded)
    else
      HexChunks(padded)
  }

  lemma {:induction false} HexValueOfZeros(n: nat)
    ensures IsHexString(Repeat('0', n)) && HexValue(Repeat('0', n)) == 0
  {
    if n > 0 {
      assert Repeat('0', n)[..n - 1] == Repeat('0', n - 1);
      HexValueOfZeros(n - 1);
    }
  }

  lemma {:induction false} HexValuePrefixZeros(z: nat, s: string)
    requires IsHexString(s)
    ensures IsHexString(Repeat('0', z) + s)
    ensures HexValue(Repeat('0', z) + s) == HexValue(s)
    decreases |s|
  {
    var t := Repeat('0', z) + s;
    assert IsHexString(t) by {
      forall i | 0 <= i < |t| ensures IsHexDigit(t[i]) {
        if i >= z { assert t[i] == s[i - z]; }
      }
    }
    if |s| == 0 {
      assert t == Repeat('0', z);
      HexValueOfZeros(z);
    } else {
      assert t[..|t| - 1] == Repeat('0', z) + s[..|s| - 1];
      HexValuePrefixZeros(z, s[..|s| - 1]);
    }
  }

  /** Padding a hex string with zeros does not change the number it denotes. */
  lemma ZeroPaddingValue(s: string, size: int)
    requires IsHexString(s)
    ensures IsHexString(ZeroPadding(s, size))
    ensures HexValue(ZeroPadding(s, size)) == HexValue(s)
  {
    if |s| < size {
      HexValuePrefixZeros(size - |s|, s);
    }
  }

  lemma {:induction false} HexChunksAppend(a: string, b: string)
    requires IsHexString(a) && IsHexString(b) && |a| % 2 == 0
    ensures IsHexString(a + b)
    ensures HexChunks(a + b) == HexChunks(a) + HexChunks(b)
    decreases |a|
  {
    assert IsHexString(a + b) by {
      forall i | 0 <= i < |a + b| ensures IsHexDigit((a + b)[i]) {
        if i >= |a| { assert (a + b)[i] == b[i - |a|]; }
      }
    }
    if |a| == 0 {
      assert a + b == b;
    } else {
      assert (a + b)[2..] == a[2..] + b;
      HexChunksAppend(a[2..], b);
    }
  }

  lemma HexValueSnocPair(s: string)
    requires IsHexString(s) && |s| >= 2
    ensures HexValue(s) == HexValue(s[..|s| - 2]) * 256 + HexDigitValue(s[|s| - 2]) * 16 + HexDigitValue(s[|s| - 1])
  {
    assert s[..|s| - 1][..|s| - 2] == s[..|s| - 2];
  }

  lemma BigEndianValueSnoc(bs: seq<uint8>, b: uint8)
    ensures BigEndianValue(bs + [b]) == BigEndianValue(bs) * 256 + b as int
  {
    assert (bs + [b])[..|bs|] == bs;
  }

  /** An even-length hex string and its chunks denote the same number. */
  lemma {:induction false} HexChunksValue(s: string)
    requires IsHexString(s) && |s| % 2 == 0
    ensures BigEndianValue(HexChunks(s)) == HexValue(s)
    decreases |s|
  {
    if |s| > 0 {
      var p, t := s[..|s| - 2], s[|s| - 2..];
      assert IsHexString(p) && IsHexString(t);
      assert s == p + t;
      HexChunksAppend(p, t);
      var pair := ByteOf(HexDigitValue(t[0]) * 16 + HexDigitValue(t[1]));
      assert HexChunks(t) == [pair] by { assert t[2..] == []; }
      assert HexChunks(s) == HexChunks(p) + [pair];
      HexChunksValue(p);
      BigEndianValueSnoc(HexChunks(p), pair);
      assert pair as int == HexDigitValue(t[0]) * 16 + HexDigitValue(t[1]);
      HexValueSnocPair(s);
      assert t[0] == s[|s| - 2] && t[1] == s[|s| - 1];
    }
  }

  /** Reading back the concatenated hex digits of any byte array gives the array. */
  lemma {:induction false} HexRoundTrip(bytes: seq<uint8>)
    ensures IsHexString(DisplayHex(bytes, ""))
    ensures HexStringToBytes(DisplayHex(bytes, "")) == Success(bytes)
  {
    HexDisplayChunks(bytes);
  }

  lemma {:induction false} HexDisplayChunks(bytes: seq<uint8>)
    ensures IsHexString(DisplayHex(bytes, ""))
    ensures HexChunks(DisplayHex(bytes, "")) == bytes
    decreases |bytes|
  {
    if |bytes| == 1 {
      HexChunksOfToHex(bytes[0], "");
      assert ToHex(bytes[0]) + "" == ToHex(bytes[0]);
    } else if |bytes| > 1 {
      var rest := DisplayHex(bytes[1..], "");
      HexDisplayChunks(bytes[1..]);
      HexChunksOfToHex(bytes[0], rest);
      assert DisplayHex(bytes, "") == ToHex(bytes[0]) + rest;
      assert bytes == [bytes[0]] + bytes[1..];
    }
  }

  /** The two hex digits of a byte read back as that byte, whatever follows them. */
  lemma HexChunksOfToHex(b: uint8, rest: string)
    requires IsHexString(rest)
    ensures IsHexString(ToHex(b) + rest)
    ensures HexChunks(ToHex(b) + rest) == [b] + HexChunks(rest)
  {
    var h := ToHex(b);
    var s := h + rest;
    assert s[2..] == rest;
    assert IsHexString(s) by {
      forall i | 0 <= i < |s| ensures IsHexDigit(s[i]) {
        if i >= 2 { assert s[i] == rest[i - 2]; }
      }
    }
    assert HexValue(h) == HexDigitValue(h[0]) * 16 + HexDigitValue(h[1]) by { assert h[..1][..0] == []; }
    assert ByteOf(HexDigitValue(s[0]) * 16 + HexDigitValue(s[1])) as int == b as int;
  }

  /** Byte `i` of the spaced hex view sits at characters `3 * i` and `3 * i + 1`,
      and the character after it (if any) is the separator. */
  lemma {:induction false} DisplayHexPositions(bytes: seq<uint8>, i: nat)
    requires i < |bytes|
    ensures 3 * i + 2 <= |DisplayHex(bytes, " ")|
    ensures DisplayHex(bytes, " ")[3 * i..3 * i + 2] == ToHex(bytes[i])
    ensures i + 1 < |bytes| ==> DisplayHex(bytes, " ")[3 * i + 2] == ' '
    decreases i
  {
    var s := DisplayHex(bytes, " ");
    if |bytes| > 1 {
      var h, rest := ToHex(bytes[0]), DisplayHex(bytes[1..], " ");
      assert s == h + " " + rest;
      if i > 0 {
        DisplayHexPositions(bytes[1..], i - 1);
        ShiftPastFirst(h, rest, 3 * (i - 1));
      }
    }
  }

  /** Positions in `h + " " + rest`, for a two-character `h`, are those of `rest`
      shifted by three. */
  lemma ShiftPastFirst(h: string, rest: string, j: nat)
    requires |h| == 2 && j + 2 <= |rest|
    ensures (h + " " + rest)[3 + j..3 + j + 2] == rest[j..j + 2]
    ensures j + 2 < |rest| ==> (h + " " + rest)[3 + j + 2] == rest[j + 2]
  {
  }

  // ---------------------------------------------------------------------------
  // numberToByteArray
  // ---------------------------------------------------------------------------

  /** The number of bytes a non-negative number needs: the least k with n < 256^k.
      `numberToByteArray` computes it as ceil(log2(n + 1) / 8). */
  function ByteCount(n: nat): (k: nat)
    ensures n < Pow256(k)
    ensures k > 0 ==> Pow256(k - 1) <= n
    decreases n
  {
    if n == 0 then 0 else 1 + ByteCount(n / 256)
  }

  /** The `len` low-order base-256 digits of n, most significant first. */
  function BigEndian(n: nat, len: nat): (r: seq<uint8>)
    ensures |r| == len
    ensures n < Pow256(len) ==> BigEndianValue(r) == n
  {
    if len == 0 then []
    else
      var r := BigEndian(n / 256, len - 1) + [ToUint8(n)];
      BigEndianValueSnoc(BigEndian(n / 256, len - 1), ToUint8(n));
      r
  }

  /** Byte `j` from the right that `numberToByteArray` extracts, `(n >> 8 * j) & 0xFF`:
      the shift works on n taken modulo 2^32 as a signed 32-bit integer and counts its
      distance modulo 32. The distances are 0, 8, 16 or 24, which sign extension does
      not reach under the mask, so from the fifth byte on the four low bytes repeat. */
  function ShiftedByte(n: nat, j: nat): (b: uint8)
    ensures b as int == n % 0x1_0000_0000 / Pow256(j % 4) % 256
  {
    ToUint8(n % 0x1_0000_0000 / Pow256(j % 4))
  }

  /** The `k` bytes the loop of `numberToByteArray` writes, leftmost first. */
  function ShiftedBytes(n: nat, k: nat): (r: seq<uint8>)
    ensures |r| == k
    ensures forall j :: 0 <= j < k ==> r[k - 1 - j] == ShiftedByte(n, j)
  {
    if k == 0 then [] else [ShiftedByte(n, k - 1)] + ShiftedBytes(n, k - 1)
  }

  /** `numberToByteArray(n, size)`: the bytes of n, left-padded with zeros to `size`, or
      as many bytes as n needs when that is more. A negative n makes the byte count NaN
      or -Infinity, so only the `size` zeros remain. Below 2^32 the bytes are n's
      big-endian digits; from 2^32 on the 32-bit shifts make them the digits of n
      modulo 2^32, repeated. */
  function NumberToByteArray(n: int, size: nat): (r: seq<uint8>)
    ensures n < 0 ==> r == Zeros(size)
    ensures n >= 0 ==> |r| == Max(size, ByteCount(n))
    ensures n >= 0 ==> forall j :: 0 <= j < |r| ==>
      r[|r| - 1 - j] == if j < ByteCount(n) then ShiftedByte(n, j) else 0
    ensures 0 <= n < 0x1_0000_0000 ==> BigEndianValue(r) == n
  {
    if n < 0 then Zeros(size)
    else
      var count := ByteCount(n);
      var width := Max(size, count);
      SmallNumberBytes(n, width - count);
      Zeros(width - count) + ShiftedBytes(n, count)
  }

  /** From 2^32 on the shifts wrap: 2^33 + 1 needs five bytes, and its top byte repeats
      its lowest instead of being the 2 of its big-endian digits. */
  lemma WideNumberWraps()
    ensures NumberToByteArray(0x2_0000_0001, 2) == [0x01, 0x00, 0x00, 0x00, 0x01]
    ensures BigEndian(0x2_0000_0001, 5) == [0x02, 0x00, 0x00, 0x00, 0x01]
  {
    var n := 0x2_0000_0001;
    assert ByteCount(n) == 5 by {
      assert n / 256 / 256 / 256 / 256 / 256 == 0;
    }
    WideNumberShifts();
    assert ShiftedBytes(n, 5) == [0x01, 0x00, 0x00, 0x00, 0x01];
    assert Zeros(0) + ShiftedBytes(n, 5) == ShiftedBytes(n, 5);
    WideNumberDigits();
  }

  /** The big-endian digits of 2^33 + 1. */
  lemma WideNumberDigits()
    ensures BigEndian(0x2_0000_0001, 5) == [0x02, 0x00, 0x00, 0x00, 0x01]
  {
    assert BigEndian(0x2, 1) == [0x02];
  }

  /** The shifted bytes of 2^33 + 1: only the low 32 bits take part. */
  lemma WideNumberShifts()
    ensures ShiftedByte(0x2_0000_0001, 0) == 1 && ShiftedByte(0x2_0000_0001, 4) == 1
    ensures ShiftedByte(0x2_0000_0001, 1) == 0 && ShiftedByte(0x2_0000_0001, 2) == 0
    ensures ShiftedByte(0x2_0000_0001, 3) == 0
  {
    assert Pow256(1) == 256 && Pow256(2) == 0x1_0000 && Pow256(3) == 0x100_0000;
  }

  /** Below 2^32, zeros followed by the shifted bytes read back as the number. */
  lemma SmallNumberBytes(n: nat, z: nat)
    ensures n < 0x1_0000_0000 ==> BigEndianValue(Zeros(z) + ShiftedBytes(n, ByteCount(n))) == n
  {
    if n < 0x1_0000_0000 {
      ShiftedBytesSmall(n);
      BigEndianValueZerosPrefix(z, BigEndian(n, ByteCount(n)));
    }
  }

  /** Below 2^32 the shifted bytes are the number's big-endian digits. */
  lemma ShiftedBytesSmall(n: nat)
    requires n < 0x1_0000_0000
    ensures ByteCount(n) <= 4
    ensures ShiftedBytes(n, ByteCount(n)) == BigEndian(n, ByteCount(n))
  {
    var k := ByteCount(n);
    ByteCountBelow32Bits(n);
    forall i | 0 <= i < k
      ensures ShiftedBytes(n, k)[i] == BigEndian(n, k)[i]
    {
      var j := k - 1 - i;
      BigEndianDigit(n, k, j);
      ShiftedByteSmall(n, j);
      assert ShiftedBytes(n, k)[k - 1 - j] == ShiftedByte(n, j);
    }
  }

  lemma ShiftedByteSmall(n: nat, j: nat)
    requires n < 0x1_0000_0000 && j < 4
    ensures ShiftedByte(n, j) as int == n / Pow256(j) % 256
  {
    assert n % 0x1_0000_0000 == n && j % 4 == j;
  }

  /** A number below 2^32 needs at most four bytes. */
  lemma ByteCountBelow32Bits(n: nat)
    requires n < 0x1_0000_0000
    ensures ByteCount(n) <= 4
  {
    var k := ByteCount(n);
    if k > 4 {
      Pow256Monotone(4, k - 1);
    }
  }

  /** Digit `j` from the right of the big-endian digits of n, for the four low digits. */
  lemma {:induction false} BigEndianDigit(n: nat, len: nat, j: nat)
    requires j < len && j < 4
    ensures BigEndian(n, len)[len - 1 - j] as int == n / Pow256(j) % 256
  {
    if j > 0 {
      BigEndianDigit(n / 256, len - 1, j - 1);
      assert Pow256(1) == 256 && Pow256(2) == 65536 && Pow256(3) == 16777216;
      if j == 2 {
        assert n / 256 / 256 == n / 65536;
      } else if j == 3 {
        assert n / 256 / 65536 == n / 16777216;
      }
    }
  }

  lemma {:induction false} BigEndianValueZerosPrefix(z: nat, bs: seq<uint8>)
    ensures BigEndianValue(Zeros(z) + bs) == BigEndianValue(bs)
    decreases |bs|
  {
    if |bs| == 0 {
      assert Zeros(z) + bs == Zeros(z);
      BigEndianValueOfZeros(z);
    } else {
      assert (Zeros(z) + bs)[..|Zeros(z) + bs| - 1] == Zeros(z) + bs[..|bs| - 1];
      BigEndianValueZerosPrefix(z, bs[..|bs| - 1]);
    }
  }

  lemma {:induction false} BigEndianValueOfZeros(z: nat)
    ensures BigEndianValue(Zeros(z)) == 0
  {
    if z > 0 {
      assert Zeros(z)[..z - 1] == Zeros(z - 1);
      BigEndianValueOfZeros(z - 1);
    }
  }

  lemma Pow256Monotone(a: nat, b: nat)
    requires a <= b
    ensures Pow256(a) <= Pow256(b)
    decreases b - a
  {
    if a < b { Pow256Monotone(a, b - 1); }
  }

  /** A number below 256^size packs into exactly `size` bytes. */
  lemma NumberFitsSize(n: nat, size: nat)
    requires n < Pow256(size)
    ensures |NumberToByteArray(n, size)| == size
  {
    var k := ByteCount(n);
    assert k <= size by {
      if k > size {
        Pow256Monotone(size, k - 1);
      }
    }
    assert |NumberToByteArray(n, size)| == Max(size, k);
  }

  /** Two byte sequences of equal length with the same big-endian value are equal. */
  lemma {:induction false} BigEndianValueInjective(a: seq<uint8>, b: seq<uint8>)
    requires |a| == |b| && BigEndianValue(a) == BigEndianValue(b)
    ensures a == b
    decreases |a|
  {
    if |a| > 0 {
      var n := |a| - 1;
      BigEndianValueLast(a);
      BigEndianValueLast(b);
      assert a[n] as int == b[n] as int;
      BigEndianValueInjective(a[..n], b[..n]);
      assert a == a[..n] + [a[n]] && b == b[..n] + [b[n]];
    }
  }

  lemma BigEndianValueLast(a: seq<uint8>)
    requires |a| > 0
    ensures BigEndianValue(a) % 256 == a[|a| - 1] as int
    ensures BigEndianValue(a) / 256 == BigEndianValue(a[..|a| - 1])
  {
    var x := a[|a| - 1] as int;
    var v := BigEndianValue(a[..|a| - 1]);
    assert BigEndianValue(a) == v * 256 + x;
    DivModByte(v, x);
  }

  lemma DivModByte(v: nat, x: int)
    requires 0 <= x < 256
    ensures (v * 256 + x) / 256 == v && (v * 256 + x) % 256 == x
  {
  }

  /** Big-endian packing of a number that fits 2 bytes is its two base-256 digits. */
  lemma NumberToTwoBytes(n: int)
    requires 0 <= n < 65536
    ensures NumberToByteArray(n, 2) == BigEndian(n, 2)
  {
    NumberFitsSize(n, 2);
    BigEndianValueInjective(NumberToByteArray(n, 2), BigEndian(n, 2));
  }

  // ---------------------------------------------------------------------------
  // insertValueInByte
  // ---------------------------------------------------------------------------

  function Pow2(k: nat): (p: nat)
    ensures p >= 1
  {
    if k == 0 then 1 else 2 * Pow2(k - 1)
  }

  /** The bitwise OR of two non-negative integers (JavaScript `|` below 2^31). */
  function BitOr(a: nat, b: nat): nat
    decreases a + b
  {
    if a == 0 then b
    else if b == 0 then a
    else 2 * BitOr(a / 2, b / 2) + (if a % 2 == 1 || b % 2 == 1 then 1 else 0)
  }

  /** `byte & ~(1 << offset)`: clears the single bit at `offset`. */
  function ClearBit(n: nat, k: nat): nat {
    if k == 0 then n - n % 2 else 2 * ClearBit(n / 2, k - 1) + n % 2
  }

  /** `insertValueInByte(byte, value, offset)`: after the three range checks, clears
      the ONE bit at `offset` and ORs in `value << offset`. The result is not reduced
      to a byte. */
  function InsertValueInByte(byte: int, value: int, offset: int): (r: Result<int, Error>)
    ensures !(0 <= byte <= 255) ==> r == Failure(ByteOutOfRange)
    ensures 0 <= byte <= 255 && !(0 <= value <= 255) ==> r == Failure(ValueOutOfRange)
    ensures 0 <= byte <= 255 && 0 <= value <= 255 && !(0 <= offset <= 7) ==> r == Failure(OffsetOutOfRange)
    ensures r.Success? <==> 0 <= byte <= 255 && 0 <= value <= 255 && 0 <= offset <= 7
  {
    if byte < 0 || byte > 255 then Failure(ByteOutOfRange)
    else if value < 0 || value > 255 then Failure(ValueOutOfRange)
    else if offset < 0 || offset > 7 then Failure(OffsetOutOfRange)
    else Success(BitOr(ClearBit(byte, offset), value * Pow2(offset)))
  }

  lemma {:induction false} BitOrZeroLow(a: nat, m: nat, k: nat)
    requires a < Pow2(k)
    ensures BitOr(a, m * Pow2(k)) == a + m * Pow2(k)
    decreases k
  {
    if k > 0 && a != 0 && m != 0 {
      var b := m * Pow2(k);
      assert b == 2 * (m * Pow2(k - 1));
      assert b / 2 == m * Pow2(k - 1) && b % 2 == 0;
      BitOrZeroLow(a / 2, m, k - 1);
    }
  }

  lemma {:induction false} ClearBitOfSmall(a: nat, k: nat)
    requires a < Pow2(k)
    ensures ClearBit(a, k) == a
  {
    if k > 0 {
      ClearBitOfSmall(a / 2, k - 1);
    }
  }

  /** Inserting into a byte whose bits from `offset` up are clear adds `value << offset`:
      the case of the keepalive byte, where bits 0..2 carry the interval and the mode
      is inserted at bit 3. */
  lemma InsertIntoLowBits(byte: nat, value: nat, offset: nat)
    requires byte < Pow2(offset) && value <= 255 && offset <= 7
    ensures InsertValueInByte(byte, value, offset) == Success(byte + value * Pow2(offset))
  {
    ClearBitOfSmall(byte, offset);
    BitOrZeroLow(byte, value, offset);
    Pow2Bound(offset);
    assert byte <= 255;
  }

  lemma Pow2Bound(k: nat)
    requires k <= 7
    ensures Pow2(k) <= 128
    decreases 7 - k
  {
    if k < 7 {
      Pow2Bound(k + 1);
    } else {
      assert Pow2(7) == 128;
    }
  }
}
