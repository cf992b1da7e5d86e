/** Date codes: YYYYMMDD by formatting and parsing (provider) and by arithmetic (relayer). */
module Calendar {
  import opened Wrappers
  import opened Bytes

  type Month = m: int | 1 <= m <= 12 witness 1
  type DayOfMonth = d: int | 1 <= d <= 31 witness 1

  /** A time.Time as the programs see it: an instant in seconds and its calendar date. */
  datatype Timestamp = Timestamp(instant: int, year: int, month: Month, day: DayOfMonth)

  ghost predicate DateBefore(a: Timestamp, b: Timestamp) {
    a.year < b.year || (a.year == b.year && (a.month < b.month || (a.month == b.month && a.day < b.day)))
  }

  function Digit(n: int): char
    requires 0 <= n < 10
  {
    '0' + n as char
  }

  /** Decimal digits of n, zero-padded to at least `width` characters. */
  function Padded(n: nat, width: nat): string
    decreases n + width
  {
    if n == 0 && width == 0 then ""
    else Padded(n / 10, if width == 0 then 0 else width - 1) + [Digit(n % 10)]
  }

  /** time.Format("20060102"): a negative year is printed with a leading minus sign. */
  function FormatDate(t: Timestamp): string {
    (if t.year < 0 then "-" + Padded(-t.year, 4) else Padded(t.year, 4)) + Padded(t.month, 2) + Padded(t.day, 2)
  }

  function ParseDigits(s: string): Option<nat> {
    if s == "" then Some(0)
    else
      var front := ParseDigits(s[..|s| - 1]);
      var last := s[|s| - 1];
      if front.None? || !('0' <= last <= '9') then None
      else Some(10 * front.value + (last as int - '0' as int))
  }

  /** strconv.ParseUint(s, 10, 32) */
  function ParseUint32(s: string): Option<uint32> {
    var n := ParseDigits(s);
    if s == "" || n.None? || n.value >= 0x1_0000_0000 then None else Some(n.value)
  }

  function ProviderDateCode(t: Timestamp): Option<uint32> {
    ParseUint32(FormatDate(t))
  }

  /** The YYYYMMDD number of a date. */
  function DateNumber(t: Timestamp): int {
    t.year * 10000 + t.month * 100 + t.day
  }

  /** uint32(year*10000 + month*100 + day): the conversion keeps the low 32 bits. */
  function RelayerDateCode(t: Timestamp): uint32 {
    DateNumber(t) % 0x1_0000_0000
  }

  lemma ParseOneMore(s: string, n: int)
    requires 0 <= n < 10
    ensures ParseDigits(s).Some? ==> ParseDigits(s + [Digit(n)]) == Some(10 * ParseDigits(s).value + n)
    ensures ParseDigits(s).None? ==> ParseDigits(s + [Digit(n)]).None?
  {
    var t := s + [Digit(n)];
    assert t[..|t| - 1] == s;
  }

  lemma {:induction false} ParsePadded(n: nat, width: nat)
    ensures ParseDigits(Padded(n, width)) == Some(n)
    decreases n + width
  {
    if n == 0 && width == 0 {
      assert Padded(n, width) == "";
    } else {
      hide ParseDigits;
      var w := if width == 0 then 0 else width - 1;
      ParsePadded(n / 10, w);
      ParseOneMore(Padded(n / 10, w), n % 10);
    }
  }

  lemma ParseTwoMore(s: string, n: int)
    requires 0 <= n < 100
    ensures |Padded(n, 2)| == 2
    ensures ParseDigits(s).Some? ==> ParseDigits(s + Padded(n, 2)) == Some(100 * ParseDigits(s).value + n)
    ensures ParseDigits(s).None? ==> ParseDigits(s + Padded(n, 2)).None?
  {
    assert Padded(n / 100, 0) == "";
    assert Padded(n / 10, 1) == [Digit(n / 10)];
    ParseOneMore(s, n / 10);
    ParseOneMore(s + [Digit(n / 10)], n % 10);
    assert s + [Digit(n / 10)] + [Digit(n % 10)] == s + Padded(n, 2);
  }

  lemma {:induction false} MinusNeverParses(s: string)
    requires s != "" && s[0] == '-'
    ensures ParseDigits(s).None?
  {
    if |s| > 1 {
      MinusNeverParses(s[..|s| - 1]);
    }
  }

  /**
    The provider's text route yields a code exactly when the YYYYMMDD number is a uint32 of a
    non-negative year, the code is that number, and the relayer's arithmetic gives the same one.
   */
  lemma DateCodesAgree(t: Timestamp)
    ensures ProviderDateCode(t).Some? <==> t.year >= 0 && DateNumber(t) < 0x1_0000_0000
    ensures ProviderDateCode(t).Some? ==> ProviderDateCode(t).value == DateNumber(t) == RelayerDateCode(t)
  {
    hide Padded, ParseDigits;
    var y := if t.year < 0 then "-" + Padded(-t.year, 4) else Padded(t.year, 4);
    ParseTwoMore(y, t.month);
    ParseTwoMore(y + Padded(t.month, 2), t.day);
    if t.year < 0 {
      MinusNeverParses(y);
    } else {
      ParsePadded(t.year, 4);
    }
  }

  /** Date codes are ordered as dates, hence different dates have different codes. */
  lemma DateCodesOrdered(a: Timestamp, b: Timestamp)
    requires ProviderDateCode(a).Some? && ProviderDateCode(b).Some?
    ensures ProviderDateCode(a).value < ProviderDateCode(b).value <==> DateBefore(a, b)
    ensures ProviderDateCode(a) == ProviderDateCode(b) <==> (a.year, a.month, a.day) == (b.year, b.month, b.day)
  {
    DateCodesAgree(a);
    DateCodesAgree(b);
  }
}

/** The provider's match entity and its canonical identifier. */
module Entity {
  import opened Wrappers
  import opened Bytes
  import opened Calendar

  const PENDING := 1
  const FINISHED := 3

  type Keccak = seq<byte> -> bytes32

  /** The four numbers a match is identified by. */
  datatype Key = Key(comp: uint32, home: uint32, away: uint32, date: uint32)

  datatype Match = Match(
    id: nat, canonicalId: string, start: Timestamp, status: int, provider: int, pmid: string,
    comp: uint32, home: uint32, away: uint32, homeScore: nat, awayScore: nat)

  /** abi.encodePacked of the four uint32 fields: each in its own four bytes, nothing between. */
  function PackKey(k: Key): (r: seq<byte>)
    ensures |r| == 16
  {
    BigEndian(4, k.comp) + BigEndian(4, k.home) + BigEndian(4, k.away) + BigEndian(4, k.date)
  }

  function UnpackKey(s: seq<byte>): (nat, nat, nat, nat)
    requires |s| == 16
  {
    (FromBigEndian(s[..4]), FromBigEndian(s[4..8]), FromBigEndian(s[8..12]), FromBigEndian(s[12..]))
  }

  lemma WordRoundTrip(v: uint32)
    ensures FromBigEndian(BigEndian(4, v)) == v
    ensures BigEndian(4, v) == [v / 0x100_0000, v / 0x1_0000 % 256, v / 0x100 % 256, v % 256]
  {
    assert Pow256(1) == 256 && Pow256(2) == 65536 && Pow256(3) == 16777216;
    BigEndianRoundTrip(4, v);
    assert BigEndian(1, v / 0x100_0000) == [v / 0x100_0000];
    assert BigEndian(2, v / 0x1_0000) == [v / 0x100_0000, v / 0x1_0000 % 256];
    assert BigEndian(3, v / 0x100) == [v / 0x100_0000, v / 0x1_0000 % 256, v / 0x100 % 256];
  }

  /** Unpacking a packed key gives back its four numbers. */
  lemma PackedKeyDecodes(k: Key)
    ensures UnpackKey(PackKey(k)) == (k.comp, k.home, k.away, k.date)
  {
    var s := PackKey(k);
    assert s[..4] == BigEndian(4, k.comp);
    assert s[4..8] == BigEndian(4, k.home);
    assert s[8..12] == BigEndian(4, k.away);
    assert s[12..] == BigEndian(4, k.date);
    WordRoundTrip(k.comp);
    WordRoundTrip(k.home);
    WordRoundTrip(k.away);
    WordRoundTrip(k.date);
  }

  lemma PackInjective(k: Key, l: Key)
    ensures PackKey(k) == PackKey(l) <==> k == l
  {
    PackedKeyDecodes(k);
    PackedKeyDecodes(l);
  }

  /** The contract's match identifier. */
  function KeyHash(keccak: Keccak, k: Key): bytes32 {
    keccak(PackKey(k))
  }

  /** The stored identifier: the contract's own hash, as text; None when the date has no code. */
  function CanonicalId(keccak: Keccak, comp: uint32, home: uint32, away: uint32, start: Timestamp): Option<string> {
    var date := ProviderDateCode(start);
    if date.None? then None else Some(HexEncode(KeyHash(keccak, Key(comp, home, away, date.value))))
  }

  /** Every match the providers build carries the identifier of its own fields. */
  predicate WellMade(keccak: Keccak, m: Match) {
    CanonicalId(keccak, m.comp, m.home, m.away, m.start) == Some(m.canonicalId)
  }

  lemma WordSum(v: uint32)
    ensures v == v / 0x100_0000 * 16777216 + v / 0x1_0000 % 256 * 65536 + v / 0x100 % 256 * 256 + v % 256
  {
  }

  method Uint32ToBytes(v: uint32) returns (b: array<byte>)
    ensures fresh(b) && b[..] == BigEndian(4, v)
    ensures b.Length == 4 && v == b[0] as int * 16777216 + b[1] as int * 65536 + b[2] as int * 256 + b[3]
  {
    b := new byte[4];
    b[0] := v / 0x100_0000;
    b[1] := v / 0x1_0000 % 256;
    b[2] := v / 0x100 % 256;
    b[3] := v % 256;
    WordRoundTrip(v);
    WordSum(v);
  }

  method GenerateMatchId(keccak: Keccak, comp: uint32, home: uint32, away: uint32, matchDay: Timestamp)
    returns (r: Option<string>)
    ensures r == CanonicalId(keccak, comp, home, away, matchDay)
    ensures var date := matchDay.year * 10000 + matchDay.month * 100 + matchDay.day;
      && (r.Some? <==> matchDay.year >= 0 && date <= 4294967295)
      && (r.Some? ==> |r.value| == 64 && IsLowerHex(r.value)
                      && HexDecode(r.value) == Some(keccak(PackKey(Key(comp, home, away, date)))))
  {
    DateCodesAgree(matchDay);
    hide BigEndian, HexEncode, HexDecode, IsLowerHex, FormatDate, ParseUint32;
    var packed: seq<byte> := [];
    var word := Uint32ToBytes(comp);
    packed := packed + word[..];
    word := Uint32ToBytes(home);
    packed := packed + word[..];
    word := Uint32ToBytes(away);
    packed := packed + word[..];
    var date := ParseUint32(FormatDate(matchDay));
    if date.None? {
      return None;
    }
    word := Uint32ToBytes(date.value);
    packed := packed + word[..];
    assert packed == PackKey(Key(comp, home, away, date.value));
    var hash := keccak(packed);
    HexSurvives(hash);
    HexIsLower(hash);
    return Some(HexEncode(hash));
  }

  /** The fresh id is a parameter; a zero status becomes Pending; fails only for a date without a code. */
  method NewMatch(keccak: Keccak, id: nat, start: Timestamp, provider: int, pmid: string,
                  home: uint32, away: uint32, homeScore: nat, awayScore: nat, comp: uint32, status: int)
    returns (r: Option<Match>)
    ensures r.Some? <==> start.year >= 0 && DateNumber(start) < 0x1_0000_0000
    ensures r.Some? ==> WellMade(keccak, r.value)
    ensures r.Some? ==>
      r.value == Match(id, r.value.canonicalId, start, if status == 0 then 1 else status, provider, pmid,
                       comp, home, away, homeScore, awayScore)
  {
    DateCodesAgree(start);
    var status' := status;
    if status' == 0 {
      status' := PENDING;
    }
    var canonicalId := GenerateMatchId(keccak, comp, home, away, start);
    if canonicalId.None? {
      return None;
    }
    return Some(Match(id, canonicalId.value, start, status', provider, pmid, comp, home, away, homeScore, awayScore));
  }
}
