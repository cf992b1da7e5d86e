/** Optional values and call results. */
module Wrappers {
  datatype Option<+T> = None | Some(value: T)

  datatype Result<+T, +E> = Ok(value: T) | Err(error: E)
}

/** Fixed-width integers, big-endian words and hexadecimal text, as the four programs exchange them. */
module Bytes {
  import opened Wrappers

  type byte = b: int | 0 <= b < 256
  type uint32 = v: int | 0 <= v < 0x1_0000_0000
  type bytes32 = s: seq<byte> | |s| == 32 witness seq(32, _ => 0)

  const ZERO32: bytes32 :=
    [0, 0, 0, 0, 0, 0, 0, 0, 0, 0, 0, 0, 0, 0, 0, 0, 0, 0, 0, 0, 0, 0, 0, 0, 0, 0, 0, 0, 0, 0, 0, 0]

  /** The value v in the low `width` bytes, most significant first (the ABI's integer encoding). */
  function BigEndian(width: nat, v: nat): (r: seq<byte>)
    ensures |r| == width
  {
    if width == 0 then [] else BigEndian(width - 1, v / 256) + [v % 256]
  }

  function FromBigEndian(s: seq<byte>): nat {
    if s == [] then 0 else 256 * FromBigEndian(s[..|s| - 1]) + s[|s| - 1]
  }

  function Pow256(n: nat): (p: nat)
    ensures p > 0
  {
    if n == 0 then 1 else 256 * Pow256(n - 1)
  }

  lemma {:induction false} BigEndianRoundTrip(width: nat, v: nat)
    requires v < Pow256(width)
    ensures FromBigEndian(BigEndian(width, v)) == v
  {
    if width == 0 {
    } else {
      BigEndianRoundTrip(width - 1, v / 256);
      var s := BigEndian(width, v);
      assert s[..|s| - 1] == BigEndian(width - 1, v / 256);
    }
  }

  lemma {:induction false} Pow256Monotone(m: nat, n: nat)
    requires m <= n
    ensures Pow256(m) <= Pow256(n)
  {
    if m == n {
    } else {
      Pow256Monotone(m, n - 1);
    }
  }

  /** Values below 2^32 keep their identity in any word of at least four bytes. */
  lemma BigEndianInjective(width: nat, v: nat, w: nat)
    requires width >= 4 && v < 0x1_0000_0000 && w < 0x1_0000_0000
    ensures BigEndian(width, v) == BigEndian(width, w) ==> v == w
  {
    assert Pow256(4) == 256 * (256 * (256 * (256 * Pow256(0)))) == 0x1_0000_0000 by {
      assert Pow256(1) == 256 && Pow256(2) == 65536 && Pow256(3) == 16777216;
    }
    Pow256Monotone(4, width);
    BigEndianRoundTrip(width, v);
    BigEndianRoundTrip(width, w);
  }

  function HexDigit(n: int): char
    requires 0 <= n < 16
  {
    if n < 10 then '0' + n as char else 'a' + (n - 10) as char
  }

  function HexValue(c: char): (r: Option<int>)
    ensures r.Some? ==> 0 <= r.value < 16
  {
    if '0' <= c <= '9' then Some(c as int - '0' as int)
    else if 'a' <= c <= 'f' then Some(c as int - 'a' as int + 10)
    else if 'A' <= c <= 'F' then Some(c as int - 'A' as int + 10)
    else None
  }

  lemma HexDigitValue(n: int)
    requires 0 <= n < 16
    ensures HexValue(HexDigit(n)) == Some(n)
    ensures HexDigit(n) != 'x' && HexDigit(n) != 'X'
  {
  }

  /** hex.EncodeToString and common.Bytes2Hex: two lower-case digits a byte, no prefix. */
  function HexEncode(s: seq<byte>): (r: string)
    ensures |r| == 2 * |s|
  {
    if s == [] then "" else [HexDigit(s[0] / 16), HexDigit(s[0] % 16)] + HexEncode(s[1..])
  }

  /** The bytes hex.DecodeString yields before its first error. */
  function HexPrefix(s: string): (r: seq<byte>)
    ensures 2 * |r| <= |s|
  {
    if |s| < 2 || HexValue(s[0]).None? || HexValue(s[1]).None? then []
    else [16 * HexValue(s[0]).value + HexValue(s[1]).value] + HexPrefix(s[2..])
  }

  /** hex.DecodeString: fails on an odd length or on a character that is no hex digit. */
  function HexDecode(s: string): Option<seq<byte>> {
    if 2 * |HexPrefix(s)| == |s| then Some(HexPrefix(s)) else None
  }

  lemma {:induction false} HexPrefixOfEncode(s: seq<byte>)
    ensures HexPrefix(HexEncode(s)) == s
  {
    if s == [] {
    } else {
      HexDigitValue(s[0] / 16);
      HexDigitValue(s[0] % 16);
      HexPrefixOfEncode(s[1..]);
      assert HexEncode(s)[2..] == HexEncode(s[1..]);
    }
  }

  predicate Has0x(s: string) {
    |s| >= 2 && s[0] == '0' && s[1] == 'x'
  }

  /** strings.TrimPrefix(s, "0x") */
  function TrimHexPrefix(s: string): string {
    if Has0x(s) then s[2..] else s
  }

  /** common.FromHex: drops one "0x" or "0X", pads an odd length, keeps what decodes. */
  function FromHex(s: string): seq<byte> {
    var t := if |s| >= 2 && s[0] == '0' && (s[1] == 'x' || s[1] == 'X') then s[2..] else s;
    HexPrefix(if |t| % 2 == 1 then "0" + t else t)
  }

  /** common.BytesToHash: crops from the left, pads on the left. */
  function FitHash(s: seq<byte>): bytes32 {
    if |s| >= 32 then s[|s| - 32..] else seq(32 - |s|, _ => 0) + s
  }

  /** common.HexToHash */
  function HexToHash(s: string): bytes32 {
    FitHash(FromHex(s))
  }

  lemma EncodedHasNoPrefix(s: seq<byte>)
    ensures TrimHexPrefix(HexEncode(s)) == HexEncode(s)
    ensures |HexEncode(s)| >= 2 ==> HexEncode(s)[1] != 'x' && HexEncode(s)[1] != 'X'
  {
    if s != [] {
      HexDigitValue(s[0] % 16);
    }
  }

  /** Any unprefixed even-length hex text decodes alike through every decoder, with or without a "0x". */
  lemma DecodersAgree(text: string, s: seq<byte>)
    requires HexPrefix(text) == s && |text| == 2 * |s|
    requires |text| >= 2 ==> text[1] != 'x' && text[1] != 'X'
    ensures HexDecode(TrimHexPrefix(text)) == HexDecode(TrimHexPrefix("0x" + text)) == Some(s)
    ensures FromHex(TrimHexPrefix(text)) == FromHex(TrimHexPrefix("0x" + text)) == s
  {
    assert ("0x" + text)[2..] == text;
  }

  /**
    Hex text of n bytes decodes to those bytes through every decoder of the pipeline,
    whether or not it carries a "0x".
   */
  lemma HexSurvives(s: seq<byte>)
    ensures HexDecode(HexEncode(s)) == Some(s)
    ensures HexDecode(TrimHexPrefix(HexEncode(s))) == HexDecode(TrimHexPrefix("0x" + HexEncode(s))) == Some(s)
    ensures |s| == 32 ==> HexToHash(TrimHexPrefix(HexEncode(s))) == s
    ensures |s| == 32 ==> HexToHash(TrimHexPrefix("0x" + HexEncode(s))) == s
  {
    hide HexEncode, HexPrefix, HexDecode, FromHex, TrimHexPrefix, Has0x;
    var text := HexEncode(s);
    HexPrefixOfEncode(s);
    EncodedHasNoPrefix(s);
    DecodersAgree(text, s);
    if |s| == 32 {
      assert FitHash(s) == s;
    }
  }

  predicate IsLowerHex(text: string) {
    forall i :: 0 <= i < |text| ==> '0' <= text[i] <= '9' || 'a' <= text[i] <= 'f'
  }

  /** Hex text has lower-case digits only, and no prefix. */
  lemma {:induction false} HexIsLower(s: seq<byte>)
    ensures IsLowerHex(HexEncode(s))
  {
    if s == [] {
    } else {
      HexIsLower(s[1..]);
      var text := HexEncode(s);
      assert text[2..] == HexEncode(s[1..]);
      forall i | 0 <= i < |text| ensures '0' <= text[i] <= '9' || 'a' <= text[i] <= 'f' {
        assert i >= 2 ==> text[i] == text[2..][i - 2];
      }
    }
  }

  /** Different byte strings have different hex texts. */
  lemma HexInjective(s: seq<byte>, t: seq<byte>)
    requires HexEncode(s) == HexEncode(t)
    ensures s == t
  {
    HexPrefixOfEncode(s);
    HexPrefixOfEncode(t);
  }
}
