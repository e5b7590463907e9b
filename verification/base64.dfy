/** `uint8ArrayToBase64`: the standard base64 encoding of section 4 of RFC 4648
    (alphabet A-Z a-z 0-9 + /, '=' padding), with the decoder that inverts it. */
module Base64 {
  import opened Helper

  /** The character of a 6-bit value: 0..25 are 'A'..'Z', 26..51 'a'..'z', 52..61 '0'..'9',
      62 is '+' and 63 is '/'. */
  function CharOf(i: int): (ch: char)
    requires 0 <= i < 64
    ensures IsBase64Char(ch) && IndexOf(ch) == i
  {
    if i < 26 then ('A' as int + i) as char
    else if i < 52 then ('a' as int + i - 26) as char
    else if i < 62 then ('0' as int + i - 52) as char
    else if i == 62 then '+'
    else '/'
  }

  predicate IsBase64Char(ch: char) {
    'A' <= ch <= 'Z' || 'a' <= ch <= 'z' || '0' <= ch <= '9' || ch == '+' || ch == '/'
  }

  /** The 6-bit value of an alphabet character. */
  function IndexOf(ch: char): (i: int)
    requires IsBase64Char(ch)
    ensures 0 <= i < 64
  {
    if 'A' <= ch <= 'Z' then ch as int - 'A' as int
    else if 'a' <= ch <= 'z' then ch as int - 'a' as int + 26
    else if '0' <= ch <= '9' then ch as int - '0' as int + 52
    else if ch == '+' then 62
    else 63
  }

  /** The four characters of three bytes: each character carries six of the 24 bits,
      most significant first. The decoding equations say the bytes can be read back. */
  function Sextets(b0: int, b1: int, b2: int): (s: string)
    requires 0 <= b0 < 256 && 0 <= b1 < 256 && 0 <= b2 < 256
    ensures |s| == 4 && IsBase64Char(s[0]) && IsBase64Char(s[1]) && IsBase64Char(s[2]) && IsBase64Char(s[3])
    ensures IndexOf(s[0]) * 4 + IndexOf(s[1]) / 16 == b0
    ensures IndexOf(s[1]) % 16 * 16 + IndexOf(s[2]) / 4 == b1
    ensures IndexOf(s[2]) % 4 * 64 + IndexOf(s[3]) == b2
  {
    SplitThree(b0, b1, b2);
    [CharOf(b0 / 4), CharOf(b0 % 4 * 16 + b1 / 16), CharOf(b1 % 16 * 4 + b2 / 64), CharOf(b2 % 64)]
  }

  /** The value of a byte. */
  function Val(b: uint8): (v: int)
    ensures 0 <= v < 256 && ToUint8(v) == b
  {
    b as int
  }

  lemma GroupCount(n: int)
    requires n >= 3
    ensures (n + 2) / 3 == (n - 3 + 2) / 3 + 1
  {
  }

  /** Encodes the bytes three at a time into four characters; a final group of one or
      two bytes is encoded as if completed with zero bytes and its unused characters
      replaced by "==" or "=". */
  function Encode(bytes: seq<uint8>): (s: string)
    ensures |s| == 4 * ((|bytes| + 2) / 3)
    decreases |bytes|
  {
    if |bytes| == 0 then ""
    else if |bytes| == 1 then
      assert (|bytes| + 2) / 3 == 1;
      Sextets(Val(bytes[0]), 0, 0)[..2] + "=="
    else if |bytes| == 2 then
      assert (|bytes| + 2) / 3 == 1;
      Sextets(Val(bytes[0]), Val(bytes[1]), 0)[..3] + "="
    else
      GroupCount(|bytes|);
      Sextets(Val(bytes[0]), Val(bytes[1]), Val(bytes[2])) + Encode(bytes[3..])
  }

  /** A well-formed encoding: groups of four alphabet characters, the last of which may
      end in one or two '='. */
  predicate IsEncoding(s: string)
    decreases |s|
  {
    if |s| == 0 then true
    else if |s| < 4 then false
    else if |s| == 4 && s[2] == '=' && s[3] == '=' then IsBase64Char(s[0]) && IsBase64Char(s[1])
    else if |s| == 4 && s[3] == '=' then IsBase64Char(s[0]) && IsBase64Char(s[1]) && IsBase64Char(s[2])
    else IsBase64Char(s[0]) && IsBase64Char(s[1]) && IsBase64Char(s[2]) && IsBase64Char(s[3]) && IsEncoding(s[4..])
  }

  /** The 6-bit value of a character; 0 for a character outside the alphabet. */
  function SextetOf(ch: char): (i: int)
    ensures 0 <= i < 64
    ensures IsBase64Char(ch) ==> i == IndexOf(ch)
  {
    if IsBase64Char(ch) then IndexOf(ch) else 0
  }

  /** The bytes of one group of four characters: three, or fewer when the group ends
      in padding. */
  function DecodeGroup(g: string): (bytes: seq<uint8>)
    requires |g| == 4
    ensures |bytes| == (if g[2] == '=' then 1 else if g[3] == '=' then 2 else 3)
  {
    var c0, c1, c2, c3 := SextetOf(g[0]), SextetOf(g[1]), SextetOf(g[2]), SextetOf(g[3]);
    var bytes := [ToUint8(c0 * 4 + c1 / 16), ToUint8(c1 % 16 * 16 + c2 / 4), ToUint8(c2 % 4 * 64 + c3)];
    if g[2] == '=' then bytes[..1] else if g[3] == '=' then bytes[..2] else bytes
  }

  /** Decodes group by group; a trailing fragment shorter than a group is ignored. */
  function Decode(s: string): (bytes: seq<uint8>)
    decreases |s|
  {
    if |s| < 4 then [] else DecodeGroup(s[..4]) + Decode(s[4..])
  }

  lemma ByteRoundTrip(b: uint8, v: int)
    requires v == b as int
    ensures ToUint8(v) == b
  {
  }

  /** The three bytes of a full group are recovered from its four 6-bit values. */
  lemma SplitThree(b0: int, b1: int, b2: int)
    requires 0 <= b0 < 256 && 0 <= b1 < 256 && 0 <= b2 < 256
    ensures (b0 / 4) * 4 + (b0 % 4 * 16 + b1 / 16) / 16 == b0
    ensures (b0 % 4 * 16 + b1 / 16) % 16 * 16 + (b1 % 16 * 4 + b2 / 64) / 4 == b1
    ensures (b1 % 16 * 4 + b2 / 64) % 4 * 64 + b2 % 64 == b2
  {
  }

  /** A full group decodes to the three bytes it encodes. */
  lemma GroupRoundTrip(b0: uint8, b1: uint8, b2: uint8)
    ensures DecodeGroup(Sextets(Val(b0), Val(b1), Val(b2))) == [b0, b1, b2]
  {
    var g := Sextets(Val(b0), Val(b1), Val(b2));
    assert g[2] != '=' && g[3] != '=';
  }

  /** A final group of one byte, "xx==", decodes to that byte. */
  lemma LastOne(b0: uint8)
    ensures Encode([b0]) == Sextets(Val(b0), 0, 0)[..2] + "=="
    ensures DecodeGroup(Encode([b0])) == [b0]
  {
    var g := Sextets(Val(b0), 0, 0);
    var s := g[..2] + "==";
    assert s[0] == g[0] && s[1] == g[1] && s[2] == '=';
    assert DecodeGroup(s) == [ToUint8(SextetOf(g[0]) * 4 + SextetOf(g[1]) / 16)];
  }

  /** A final group of two bytes, "xxx=", decodes to those bytes. */
  lemma LastTwo(b0: uint8, b1: uint8)
    ensures Encode([b0, b1]) == Sextets(Val(b0), Val(b1), 0)[..3] + "="
    ensures DecodeGroup(Encode([b0, b1])) == [b0, b1]
  {
    var g := Sextets(Val(b0), Val(b1), 0);
    var s := g[..3] + "=";
    assert s[0] == g[0] && s[1] == g[1] && s[2] == g[2] && s[2] != '=' && s[3] == '=';
    assert DecodeGroup(s) == [ToUint8(SextetOf(g[0]) * 4 + SextetOf(g[1]) / 16),
                              ToUint8(SextetOf(g[1]) % 16 * 16 + SextetOf(g[2]) / 4)];
  }

  /** The encoding of three or more bytes is a full group followed by the encoding of
      the rest. */
  lemma FullGroup(bytes: seq<uint8>)
    requires |bytes| >= 3
    ensures Encode(bytes)[..4] == Sextets(Val(bytes[0]), Val(bytes[1]), Val(bytes[2]))
    ensures Encode(bytes)[4..] == Encode(bytes[3..])
  {
    var g := Sextets(Val(bytes[0]), Val(bytes[1]), Val(bytes[2]));
    assert Encode(bytes) == g + Encode(bytes[3..]);
  }

  /** A string of exactly one group decodes as that group. */
  lemma DecodeOneGroup(s: string)
    requires |s| == 4
    ensures Decode(s) == DecodeGroup(s)
  {
    assert s[..4] == s;
    assert Decode(s[4..]) == [];
  }

  /** A string made of the full group of three bytes followed by a decoding of the
      rest decodes to all of them. */
  lemma DecodeEncodeStep(bytes: seq<uint8>, s: string)
    requires |bytes| >= 3 && |s| >= 4
    requires s[..4] == Sextets(Val(bytes[0]), Val(bytes[1]), Val(bytes[2]))
    requires Decode(s[4..]) == bytes[3..]
    ensures Decode(s) == bytes
  {
    assert Decode(s) == DecodeGroup(s[..4]) + Decode(s[4..]);
    GroupRoundTrip(bytes[0], bytes[1], bytes[2]);
    assert bytes == bytes[..3] + bytes[3..];
    assert bytes[..3] == [bytes[0], bytes[1], bytes[2]];
  }

  /** Decoding the encoding of any byte array gives the array back. */
  lemma {:induction false} DecodeEncode(bytes: seq<uint8>)
    ensures Decode(Encode(bytes)) == bytes
    decreases |bytes|
  {
    if |bytes| == 1 {
      LastOne(bytes[0]);
      DecodeOneGroup(Encode([bytes[0]]));
      assert bytes == [bytes[0]];
    } else if |bytes| == 2 {
      LastTwo(bytes[0], bytes[1]);
      DecodeOneGroup(Encode([bytes[0], bytes[1]]));
      assert bytes == [bytes[0], bytes[1]];
    } else if |bytes| >= 3 {
      DecodeEncode(bytes[3..]);
      FullGroup(bytes);
      DecodeEncodeStep(bytes, Encode(bytes));
    }
  }

  /** Every encoding is well formed. */
  lemma {:induction false} EncodeIsEncoding(bytes: seq<uint8>)
    ensures IsEncoding(Encode(bytes))
    decreases |bytes|
  {
    var s := Encode(bytes);
    if |bytes| == 1 {
      LastOne(bytes[0]);
      assert bytes == [bytes[0]];
    } else if |bytes| == 2 {
      LastTwo(bytes[0], bytes[1]);
      assert bytes == [bytes[0], bytes[1]];
    } else if |bytes| >= 3 {
      FullGroup(bytes);
      EncodeIsEncoding(bytes[3..]);
      assert s[3] == Sextets(Val(bytes[0]), Val(bytes[1]), Val(bytes[2]))[3];
    }
  }
}
