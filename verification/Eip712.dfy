/** The signed digest, as the contract computes it and as the signer computes it. */
module Eip712 {
  import opened Wrappers
  import opened Bytes
  import opened Entity

  type Address = a: int | 0 <= a < 0x1_0000_0000_0000_0000_0000_0000_0000_0000_0000_0000

  const MATCH_TYPE := "Match(" + "bytes32 matchId," + "uint8 homeScore," + "uint8 awayScore" + ")"
  const DOMAIN_TYPE :=
    "EIP712Domain(" + "string name," + "string version," + "uint256 chainId," + "address verifyingContract" + ")"

  datatype Domain = Domain(chainId: nat, contract: Address)

  function TextBytes(s: string): seq<byte> {
    seq(|s|, i requires 0 <= i < |s| => s[i] as int % 256)
  }

  // ---- The contract's side: abi.encode of 32-byte words and OpenZeppelin's typed-data digest ----

  function StructPreimage(keccak: Keccak, matchId: bytes32, home: byte, away: byte): seq<byte> {
    keccak(TextBytes(MATCH_TYPE)) + matchId + BigEndian(32, home) + BigEndian(32, away)
  }

  function DomainSeparator(keccak: Keccak, d: Domain): bytes32 {
    keccak(keccak(TextBytes(DOMAIN_TYPE)) + keccak(TextBytes("SportsPulse")) + keccak(TextBytes("1"))
           + BigEndian(32, d.chainId) + BigEndian(32, d.contract))
  }

  function FinalPreimage(keccak: Keccak, d: Domain, structHash: bytes32): seq<byte> {
    [0x19, 0x01] + DomainSeparator(keccak, d) + structHash
  }

  function Digest(keccak: Keccak, d: Domain, matchId: bytes32, home: byte, away: byte): bytes32 {
    keccak(FinalPreimage(keccak, d, keccak(StructPreimage(keccak, matchId, home, away))))
  }

  lemma StructPreimageInjective(keccak: Keccak, i: bytes32, h: byte, a: byte, i': bytes32, h': byte, a': byte)
    ensures StructPreimage(keccak, i, h, a) == StructPreimage(keccak, i', h', a') <==> (i, h, a) == (i', h', a')
  {
    var s, s' := StructPreimage(keccak, i, h, a), StructPreimage(keccak, i', h', a');
    assert s[32..64] == i && s'[32..64] == i';
    assert s[64..96] == BigEndian(32, h) && s'[64..96] == BigEndian(32, h');
    assert s[96..] == BigEndian(32, a) && s'[96..] == BigEndian(32, a');
    BigEndianInjective(32, h, h');
    BigEndianInjective(32, a, a');
  }

  lemma FinalPreimageInjective(keccak: Keccak, d: Domain, s: bytes32, t: bytes32)
    ensures FinalPreimage(keccak, d, s) == FinalPreimage(keccak, d, t) <==> s == t
  {
    assert FinalPreimage(keccak, d, s)[34..] == s;
    assert FinalPreimage(keccak, d, t)[34..] == t;
  }

  // ---- The signer's side: typed data interpreted field by field ----

  datatype Field = Field(name: string, kind: string)

  datatype Value = Text(text: string) | Number(n: int) | Account(a: Address)

  function EncodeFields(fields: seq<Field>): string {
    if fields == [] then ""
    else fields[0].kind + " " + fields[0].name + (if |fields| == 1 then "" else ",") + EncodeFields(fields[1..])
  }

  function EncodeType(name: string, fields: seq<Field>): string {
    name + "(" + EncodeFields(fields) + ")"
  }

  function EncodeNumber(n: int, width: nat): Option<seq<byte>> {
    if 0 <= n < Pow256(width) then Some(BigEndian(32, n)) else None
  }

  /** A value of the wrong shape, or out of the declared type's range, is refused. */
  function EncodeValue(keccak: Keccak, kind: string, v: Value): (r: Option<seq<byte>>) {
    match v
    case Text(s) =>
      if kind == "string" then Some(keccak(TextBytes(s)))
      else if kind == "bytes32" && Has0x(s) && HexDecode(s[2..]).Some? && |HexDecode(s[2..]).value| == 32
      then HexDecode(s[2..])
      else None
    case Number(n) =>
      if kind == "uint8" then EncodeNumber(n, 1) else if kind == "uint256" then EncodeNumber(n, 32) else None
    case Account(a) =>
      if kind == "address" then Some(BigEndian(32, a)) else None
  }

  function EncodeData(keccak: Keccak, fields: seq<Field>, values: map<string, Value>): Option<seq<byte>> {
    if fields == [] then Some([])
    else if fields[0].name !in values then None
    else
      var first := EncodeValue(keccak, fields[0].kind, values[fields[0].name]);
      var rest := EncodeData(keccak, fields[1..], values);
      if first.None? || rest.None? then None else Some(first.value + rest.value)
  }

  function HashStruct(keccak: Keccak, name: string, fields: seq<Field>, values: map<string, Value>): Option<bytes32> {
    var data := EncodeData(keccak, fields, values);
    if data.None? then None else Some(keccak(keccak(TextBytes(EncodeType(name, fields))) + data.value))
  }

  const MATCH_FIELDS := [Field("matchId", "bytes32"), Field("homeScore", "uint8"), Field("awayScore", "uint8")]

  const DOMAIN_FIELDS := [
    Field("name", "string"), Field("version", "string"),
    Field("chainId", "uint256"), Field("verifyingContract", "address")]

  function MatchMessage(canonicalId: string, home: int, away: int): map<string, Value> {
    map["matchId" := Text(if Has0x(canonicalId) then canonicalId else "0x" + canonicalId),
        "homeScore" := Number(home), "awayScore" := Number(away)]
  }

  function DomainMessage(d: Domain): map<string, Value> {
    map["name" := Text("SportsPulse"), "version" := Text("1"),
        "chainId" := Number(d.chainId), "verifyingContract" := Account(d.contract)]
  }

  /** The digest SignMatch signs; None when the typed data is refused. */
  function SignerDigest(keccak: Keccak, d: Domain, canonicalId: string, home: int, away: int): Option<bytes32> {
    var hashed := HashStruct(keccak, "Match", MATCH_FIELDS, MatchMessage(canonicalId, home, away));
    var separator := HashStruct(keccak, "EIP712Domain", DOMAIN_FIELDS, DomainMessage(d));
    if hashed.None? || separator.None? then None
    else Some(keccak([0x19, 0x01] + separator.value + hashed.value))
  }

  predicate Signable(canonicalId: string, home: int, away: int) {
    && 0 <= home < 256 && 0 <= away < 256
    && HexDecode(TrimHexPrefix(canonicalId)).Some?
    && |HexDecode(TrimHexPrefix(canonicalId)).value| == 32
  }

  /** EIP-712, section "Specification": the bytes whose hash is signed, spelled out for this domain and this struct. */
  function TypedDataBytes(keccak: Keccak, d: Domain, matchId: bytes32, home: byte, away: byte): seq<byte> {
    [25, 1]
    + keccak(keccak(TextBytes("EIP712Domain(" + "string name," + "string version," + "uint256 chainId,"
                              + "address verifyingContract" + ")"))
             + keccak(TextBytes("SportsPulse")) + keccak(TextBytes("1"))
             + BigEndian(32, d.chainId) + BigEndian(32, d.contract))
    + keccak(keccak(TextBytes("Match(" + "bytes32 matchId," + "uint8 homeScore," + "uint8 awayScore" + ")"))
             + matchId + BigEndian(32, home) + BigEndian(32, away))
  }

  lemma DigestOfTypedData(keccak: Keccak, d: Domain, matchId: bytes32, home: byte, away: byte)
    ensures Digest(keccak, d, matchId, home, away) == keccak(TypedDataBytes(keccak, d, matchId, home, away))
  {
    hide TextBytes, BigEndian;
  }

  lemma EncodeFieldsUnfold(fields: seq<Field>, text: string)
    requires fields != []
    requires text == fields[0].kind + " " + fields[0].name + (if |fields| == 1 then "" else ",")
    ensures EncodeFields(fields) == text + EncodeFields(fields[1..])
  {
  }

  lemma MatchTail()
    ensures EncodeFields(MATCH_FIELDS[1..]) == "uint8 homeScore," + ("uint8 awayScore" + "")
  {
    var m := MATCH_FIELDS[1..];
    assert m[1..][1..] == [];
    EncodeFieldsUnfold(m, "uint8 homeScore,");
    EncodeFieldsUnfold(m[1..], "uint8 awayScore");
  }

  lemma MatchTypeString()
    ensures EncodeType("Match", MATCH_FIELDS) == MATCH_TYPE
  {
    EncodeFieldsUnfold(MATCH_FIELDS, "bytes32 matchId,");
    MatchTail();
    hide EncodeFields;
    Reassociate("Match", "(", "Match(", "bytes32 matchId,", "uint8 homeScore,", "uint8 awayScore", "");
  }

  lemma DomainTail()
    ensures EncodeFields(DOMAIN_FIELDS[2..]) == "uint256 chainId," + ("address verifyingContract" + "")
  {
    var d := DOMAIN_FIELDS[2..];
    assert d[1..][1..] == [];
    EncodeFieldsUnfold(d, "uint256 chainId,");
    EncodeFieldsUnfold(d[1..], "address verifyingContract");
  }

  lemma DomainHead()
    ensures EncodeFields(DOMAIN_FIELDS) == "string name," + ("string version," + EncodeFields(DOMAIN_FIELDS[2..]))
  {
    var d := DOMAIN_FIELDS;
    assert d[1..][1..] == d[2..];
    EncodeFieldsUnfold(d, "string name,");
    EncodeFieldsUnfold(d[1..], "string version,");
  }

  lemma DomainTypeString()
    ensures EncodeType("EIP712Domain", DOMAIN_FIELDS) == DOMAIN_TYPE
  {
    DomainHead();
    DomainTail();
    Reassociate("EIP712Domain", "(", "EIP712Domain(",
                "string name,", "string version,", "uint256 chainId,", "address verifyingContract");
  }

  lemma Reassociate(name: string, open: string, head: string, a: string, b: string, c: string, d: string)
    requires name + open == head
    ensures name + open + (a + (b + (c + (d + "")))) + ")" == head + a + b + c + d + ")"
    ensures name + open + (a + (b + (c + ""))) + ")" == head + a + b + c + ")"
  {
  }

  lemma EncodeDataStep(keccak: Keccak, fields: seq<Field>, values: map<string, Value>, first: seq<byte>,
                       rest: seq<byte>)
    requires fields != [] && fields[0].name in values
    requires EncodeValue(keccak, fields[0].kind, values[fields[0].name]) == Some(first)
    requires EncodeData(keccak, fields[1..], values) == Some(rest)
    ensures EncodeData(keccak, fields, values) == Some(first + rest)
  {
    hide EncodeValue;
  }

  lemma EncodeDataRefused(keccak: Keccak, fields: seq<Field>, values: map<string, Value>)
    requires fields != [] && fields[0].name in values
    requires EncodeValue(keccak, fields[0].kind, values[fields[0].name]).None?
             || EncodeData(keccak, fields[1..], values).None?
    ensures EncodeData(keccak, fields, values).None?
  {
    hide EncodeValue;
  }

  lemma EncodeNothing(keccak: Keccak, values: map<string, Value>)
    ensures EncodeData(keccak, [], values) == Some([])
  {
  }

  lemma DomainData(keccak: Keccak, d: Domain)
    requires d.chainId < Pow256(32)
    ensures EncodeData(keccak, DOMAIN_FIELDS, DomainMessage(d))
         == Some(keccak(TextBytes("SportsPulse"))
                 + (keccak(TextBytes("1")) + (BigEndian(32, d.chainId) + (BigEndian(32, d.contract) + []))))
  {
    hide EncodeData, TextBytes, BigEndian, Pow256;
    var f, v := DOMAIN_FIELDS, DomainMessage(d);
    assert f[1..][1..] == f[2..] && f[2..][1..] == f[3..] && f[3..][1..] == [];
    EncodeNothing(keccak, v);
    EncodeDataStep(keccak, f[3..], v, BigEndian(32, d.contract), []);
    EncodeDataStep(keccak, f[2..], v, BigEndian(32, d.chainId), BigEndian(32, d.contract) + []);
    EncodeDataStep(keccak, f[1..], v, keccak(TextBytes("1")),
                   BigEndian(32, d.chainId) + (BigEndian(32, d.contract) + []));
    EncodeDataStep(keccak, f, v, keccak(TextBytes("SportsPulse")),
                   keccak(TextBytes("1")) + (BigEndian(32, d.chainId) + (BigEndian(32, d.contract) + [])));
  }

  lemma Flatten(t: seq<byte>, a: seq<byte>, b: seq<byte>, c: seq<byte>, d: seq<byte>)
    ensures t + (a + (b + (c + (d + [])))) == t + a + b + c + d
    ensures t + (a + (b + (c + []))) == t + a + b + c
  {
  }

  lemma DomainAgrees(keccak: Keccak, d: Domain)
    requires d.chainId < Pow256(32)
    ensures HashStruct(keccak, "EIP712Domain", DOMAIN_FIELDS, DomainMessage(d)) == Some(DomainSeparator(keccak, d))
  {
    hide EncodeData, TextBytes, BigEndian, Pow256, EncodeType, DomainMessage;
    DomainTypeString();
    DomainData(keccak, d);
    Flatten(keccak(TextBytes(DOMAIN_TYPE)), keccak(TextBytes("SportsPulse")), keccak(TextBytes("1")),
            BigEndian(32, d.chainId), BigEndian(32, d.contract));
  }

  /** The fields are refused exactly when the identifier or a score is; and else are the contract's words. */
  lemma MatchData(keccak: Keccak, canonicalId: string, home: int, away: int)
    ensures EncodeData(keccak, MATCH_FIELDS, MatchMessage(canonicalId, home, away)).Some?
            <==> Signable(canonicalId, home, away)
    ensures Signable(canonicalId, home, away) ==>
      EncodeData(keccak, MATCH_FIELDS, MatchMessage(canonicalId, home, away))
      == Some(HexDecode(TrimHexPrefix(canonicalId)).value + (BigEndian(32, home) + (BigEndian(32, away) + [])))
  {
    hide EncodeData, BigEndian, HexDecode;
    var f, v := MATCH_FIELDS, MatchMessage(canonicalId, home, away);
    assert f[1..][1..] == f[2..] && f[2..][1..] == [];
    assert Pow256(1) == 256;
    assert v["matchId"].text[2..] == TrimHexPrefix(canonicalId);
    EncodeNothing(keccak, v);
    if !(0 <= away < 256) {
      EncodeDataRefused(keccak, f[2..], v);
      EncodeDataRefused(keccak, f[1..], v);
      EncodeDataRefused(keccak, f, v);
    } else {
      EncodeDataStep(keccak, f[2..], v, BigEndian(32, away), []);
      if !(0 <= home < 256) {
        EncodeDataRefused(keccak, f[1..], v);
        EncodeDataRefused(keccak, f, v);
      } else {
        EncodeDataStep(keccak, f[1..], v, BigEndian(32, home), BigEndian(32, away) + []);
        if Signable(canonicalId, home, away) {
          EncodeDataStep(keccak, f, v, HexDecode(TrimHexPrefix(canonicalId)).value,
                         BigEndian(32, home) + (BigEndian(32, away) + []));
        } else {
          EncodeDataRefused(keccak, f, v);
        }
      }
    }
  }

  /**
    The signer signs exactly when the identifier is 32 bytes of hex (with or without "0x") and both
    scores fit a uint8; and then the digest is the one the contract checks.
   */
  lemma DigestAgreement(keccak: Keccak, d: Domain, canonicalId: string, home: int, away: int)
    requires d.chainId < Pow256(32)
    ensures SignerDigest(keccak, d, canonicalId, home, away).Some? <==> Signable(canonicalId, home, away)
    ensures Signable(canonicalId, home, away) ==>
      SignerDigest(keccak, d, canonicalId, home, away)
      == Some(Digest(keccak, d, HexDecode(TrimHexPrefix(canonicalId)).value, home, away))
  {
    hide EncodeData, TextBytes, BigEndian, Pow256, EncodeType, DomainMessage, MatchMessage, HexDecode, TrimHexPrefix,
      DomainSeparator;
    DomainAgrees(keccak, d);
    MatchTypeString();
    MatchData(keccak, canonicalId, home, away);
    if Signable(canonicalId, home, away) {
      Flatten(keccak(TextBytes(MATCH_TYPE)), HexDecode(TrimHexPrefix(canonicalId)).value,
              BigEndian(32, home), BigEndian(32, away), []);
    }
  }
}

/** The idealised hash and signature scheme, and what a signer run produces. */
module Crypto {
  import opened Wrappers
  import opened Bytes
  import opened Entity
  import opened Eip712

  /**
    sign(key, digest) is the raw 65-byte signature of the key whose address is `key`;
    recover is ECDSA recovery, None when the signature is malformed.
   */
  datatype Crypto = Crypto(
    keccak: Keccak,
    sign: (Address, bytes32) -> seq<byte>,
    recover: (bytes32, seq<byte>) -> Option<Address>)

  /** The byte strings that are hashed to identify matches and to be signed. */
  ghost predicate Hashed(keccak: Keccak, d: Domain, s: seq<byte>) {
    || (exists k: Key :: s == PackKey(k))
    || (exists k: Key, h: byte, a: byte :: s == StructPreimage(keccak, KeyHash(keccak, k), h, a))
    || (exists k: Key, h: byte, a: byte ::
          s == FinalPreimage(keccak, d, keccak(StructPreimage(keccak, KeyHash(keccak, k), h, a))))
  }

  /** No two of these strings collide, and no packed key hashes to zero. */
  ghost predicate IdealHash(keccak: Keccak, d: Domain) {
    && (forall s, t :: Hashed(keccak, d, s) && Hashed(keccak, d, t) && keccak(s) == keccak(t) ==> s == t)
    && (forall k: Key :: KeyHash(keccak, k) != ZERO32)
  }

  /** signature[64] = recoveryID + 27 */
  function Adjust(raw: seq<byte>): Option<seq<byte>> {
    if |raw| != 65 || raw[64] > 1 then None else Some(raw[64 := raw[64] + 27])
  }

  /** A raw signature ends in a recovery id of 0 or 1; with 27 added to it, it recovers to the key that made it. */
  ghost predicate IdealSign(c: Crypto) {
    forall key: Address, d: bytes32 ::
      && |c.sign(key, d)| == 65 && c.sign(key, d)[64] <= 1
      && c.recover(d, c.sign(key, d)[..64] + [c.sign(key, d)[64] + 27]) == Some(key)
  }

  /** The adjustment keeps the first 64 bytes, adds 27 to the last, and refuses any last byte but 0 and 1. */
  lemma AdjustAdds27(raw: seq<byte>)
    ensures Adjust(raw).Some? <==> |raw| == 65 && raw[64] <= 1
    ensures Adjust(raw).Some? ==> Adjust(raw).value == raw[..64] + [raw[64] + 27]
  {
  }

  ghost predicate Ideal(c: Crypto, d: Domain) {
    IdealHash(c.keccak, d) && IdealSign(c) && d.chainId < Pow256(32)
  }

  /** Equal match identifiers have equal fields. */
  lemma KeyHashInjective(keccak: Keccak, d: Domain, k: Key, l: Key)
    requires IdealHash(keccak, d)
    ensures KeyHash(keccak, k) == KeyHash(keccak, l) <==> k == l
  {
    PackInjective(k, l);
    assert Hashed(keccak, d, PackKey(k)) && Hashed(keccak, d, PackKey(l));
  }

  /** Equal digests of real match identifiers sign the same match and the same scores. */
  lemma DigestInjective(keccak: Keccak, d: Domain, k: Key, h: byte, a: byte, l: Key, h': byte, a': byte)
    requires IdealHash(keccak, d)
    requires Digest(keccak, d, KeyHash(keccak, k), h, a) == Digest(keccak, d, KeyHash(keccak, l), h', a')
    ensures k == l && h == h' && a == a'
  {
    var s := StructPreimage(keccak, KeyHash(keccak, k), h, a);
    var t := StructPreimage(keccak, KeyHash(keccak, l), h', a');
    assert Hashed(keccak, d, s) && Hashed(keccak, d, t);
    assert Hashed(keccak, d, FinalPreimage(keccak, d, keccak(s)));
    assert Hashed(keccak, d, FinalPreimage(keccak, d, keccak(t)));
    FinalPreimageInjective(keccak, d, keccak(s), keccak(t));
    StructPreimageInjective(keccak, KeyHash(keccak, k), h, a, KeyHash(keccak, l), h', a');
    KeyHashInjective(keccak, d, k, l);
  }

  /** Two providers' matches share a canonical identifier exactly when competition, teams and date agree. */
  lemma CanonicalIdIdentifies(keccak: Keccak, d: Domain, m: Match, n: Match)
    requires IdealHash(keccak, d) && WellMade(keccak, m) && WellMade(keccak, n)
    ensures m.canonicalId == n.canonicalId <==>
            && (m.comp, m.home, m.away) == (n.comp, n.home, n.away)
            && (m.start.year, m.start.month, m.start.day) == (n.start.year, n.start.month, n.start.day)
  {
    Calendar.DateCodesOrdered(m.start, n.start);
    var k := Key(m.comp, m.home, m.away, Calendar.ProviderDateCode(m.start).value);
    var l := Key(n.comp, n.home, n.away, Calendar.ProviderDateCode(n.start).value);
    if m.canonicalId == n.canonicalId {
      HexInjective(KeyHash(keccak, k), KeyHash(keccak, l));
      KeyHashInjective(keccak, d, k, l);
    }
  }
}
