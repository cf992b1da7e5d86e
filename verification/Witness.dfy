/** The assumptions can be met: a hash, a signature scheme and a state that satisfy all of them. */
module Witness {
  import opened Wrappers
  import opened Bytes
  import opened Entity
  import opened Eip712
  import opened Crypto
  import opened Oracle
  import opened Tables
  import opened Relayer
  import opened Pipeline

  // ---- The hash ----

  /** A tag and 19 bytes, then zeros: a hash with room for what the model hashes. */
  function Tagged(tag: byte, s: seq<byte>): bytes32
    requires |s| <= 31
  {
    [tag] + s + seq(31 - |s|, _ => 0)
  }

  /**
    No collision on packed keys, nor on the struct and final pre-images of what it makes of them: each length has its
    tag, and all that can differ is kept. The signature of MatchAlreadySubmitted has a tag of its own.
   */
  function ToyKeccak(s: seq<byte>): bytes32 {
    if |s| == 16 then Tagged(1, s)
    else if |s| == 128 then Tagged(2, s[33..49] + [s[95], s[127]])
    else if |s| == 66 then Tagged(3, s[35..53])
    else if |s| == |ALREADY_SUBMITTED| then Tagged(4, [])
    else ZERO32
  }

  const Toy: Keccak := (s: seq<byte>) => ToyKeccak(s)

  /** A packed key, and a struct pre-image of one, in its hash. */
  lemma StructHash(k: Key, h: byte, a: byte)
    ensures |PackKey(k)| == 16 && |StructPreimage(Toy, KeyHash(Toy, k), h, a)| == 128
    ensures KeyHash(Toy, k) == Tagged(1, PackKey(k))
    ensures Toy(StructPreimage(Toy, KeyHash(Toy, k), h, a)) == Tagged(2, PackKey(k) + [h, a])
  {
    LastByte(h);
    LastByte(a);
    hide BigEndian;
    var s := StructPreimage(Toy, KeyHash(Toy, k), h, a);
    assert s[33..49] == PackKey(k);
    assert s[95] == h && s[127] == a;
  }

  lemma LastByte(v: byte)
    ensures BigEndian(32, v)[31] == v
  {
  }

  lemma FinalHash(d: Domain, k: Key, h: byte, a: byte)
    ensures var p := FinalPreimage(Toy, d, Toy(StructPreimage(Toy, KeyHash(Toy, k), h, a)));
      && |p| == 66 && Toy(p) == Tagged(3, PackKey(k) + [h, a])
  {
    StructHash(k, h, a);
    hide StructPreimage;
    var p := FinalPreimage(Toy, d, Toy(StructPreimage(Toy, KeyHash(Toy, k), h, a)));
    assert p[35..53] == PackKey(k) + [h, a];
  }

  /** What a hashed string keeps in its hash. */
  ghost predicate HashedAs(d: Domain, s: seq<byte>, tag: byte, k: Key, h: byte, a: byte) {
    || (tag == 1 && s == PackKey(k) && Toy(s) == Tagged(1, PackKey(k)))
    || (tag == 2 && s == StructPreimage(Toy, KeyHash(Toy, k), h, a) && Toy(s) == Tagged(2, PackKey(k) + [h, a]))
    || (tag == 3 && s == FinalPreimage(Toy, d, Toy(StructPreimage(Toy, KeyHash(Toy, k), h, a)))
        && Toy(s) == Tagged(3, PackKey(k) + [h, a]))
  }

  lemma HashOf(d: Domain, s: seq<byte>) returns (tag: byte, k: Key, h: byte, a: byte)
    requires Hashed(Toy, d, s)
    ensures HashedAs(d, s, tag, k, h, a)
  {
    hide PackKey, StructPreimage, FinalPreimage, Tagged;
    if k0: Key :| s == PackKey(k0) {
      tag, k, h, a := 1, k0, 0, 0;
      StructHash(k, h, a);
    } else if k0: Key, h0: byte, a0: byte :| s == StructPreimage(Toy, KeyHash(Toy, k0), h0, a0) {
      tag, k, h, a := 2, k0, h0, a0;
      StructHash(k, h, a);
    } else {
      var k0: Key, h0: byte, a0: byte :|
        s == FinalPreimage(Toy, d, Toy(StructPreimage(Toy, KeyHash(Toy, k0), h0, a0)));
      tag, k, h, a := 3, k0, h0, a0;
      FinalHash(d, k, h, a);
    }
  }

  lemma TaggedApart(tag: byte, s: seq<byte>, tag': byte, t: seq<byte>)
    requires |s| <= 31 && |t| <= 31 && Tagged(tag, s) == Tagged(tag', t)
    ensures tag == tag' && (|s| == |t| ==> s == t)
  {
    assert Tagged(tag, s)[0] == tag && Tagged(tag', t)[0] == tag';
    if |s| == |t| {
      assert Tagged(tag, s)[1..|s| + 1] == s && Tagged(tag', t)[1..|t| + 1] == t;
    }
  }

  lemma ToyIsInjective(d: Domain, s: seq<byte>, t: seq<byte>)
    requires Hashed(Toy, d, s) && Hashed(Toy, d, t) && Toy(s) == Toy(t)
    ensures s == t
  {
    hide Hashed, PackKey, StructPreimage, FinalPreimage, Tagged, ToyKeccak, Toy;
    var tag, k, h, a := HashOf(d, s);
    var tag', k', h', a' := HashOf(d, t);
    var kept := if tag == 1 then PackKey(k) else PackKey(k) + [h, a];
    var kept' := if tag' == 1 then PackKey(k') else PackKey(k') + [h', a'];
    TaggedApart(tag, kept, tag', kept');
    assert kept[..16] == PackKey(k) && kept'[..16] == PackKey(k');
    PackInjective(k, k');
    if tag != 1 {
      assert kept[16..] == [h, a] && kept'[16..] == [h', a'];
    }
  }

  lemma ToyIsIdeal(d: Domain)
    ensures IdealHash(Toy, d)
  {
    forall s, t | Hashed(Toy, d, s) && Hashed(Toy, d, t) && Toy(s) == Toy(t) ensures s == t {
      ToyIsInjective(d, s, t);
    }
    hide Hashed;
    forall k: Key ensures KeyHash(Toy, k) != ZERO32 {
      assert KeyHash(Toy, k)[0] == 1;
    }
  }

  lemma ToySelectors()
    ensures DistinctSelectors(Toy)
  {
    forall revert, signature | signature in Signatures(revert) && signature != ALREADY_SUBMITTED
      ensures Selector(Toy, signature) != Selector(Toy, ALREADY_SUBMITTED)
    {
      OtherLength(revert, signature);
      assert Selector(Toy, ALREADY_SUBMITTED)[0] == 4;
      assert Selector(Toy, signature)[0] != 4;
    }
  }

  lemma OtherLength(revert: Revert, signature: string)
    requires signature in Signatures(revert) && signature != ALREADY_SUBMITTED
    ensures |signature| != |ALREADY_SUBMITTED|
  {
  }

  // ---- The signatures ----

  /** A signature is its digest and its key. */
  function ToySign(key: Address, digest: bytes32): seq<byte> {
    digest + BigEndian(20, key) + seq(13, _ => 0)
  }

  function ToyRecover(digest: bytes32, signature: seq<byte>): Option<Address> {
    if |signature| != 65 || signature[..32] != digest || signature[64] != 27 then None
    else
      var key := FromBigEndian(signature[32..52]);
      if key < 0x1_0000_0000_0000_0000_0000_0000_0000_0000_0000_0000 then Some(key) else None
  }

  function ToyCrypto(): Crypto {
    Crypto(Toy, (key: Address, digest: bytes32) => ToySign(key, digest),
           (digest: bytes32, signature: seq<byte>) => ToyRecover(digest, signature))
  }

  lemma AddressFits(key: Address)
    ensures FromBigEndian(BigEndian(20, key)) == key
  {
    assert Pow256(4) == 0x1_0000_0000 by { assert Pow256(2) == 0x1_0000; }
    assert Pow256(8) == 0x1_0000_0000_0000_0000 by { assert Pow256(6) == 0x1_0000_0000_0000; }
    assert Pow256(12) == 0x1_0000_0000_0000_0000_0000_0000 by { assert Pow256(10) == 0x1_0000_0000_0000_0000_0000; }
    assert Pow256(16) == 0x1_0000_0000_0000_0000_0000_0000_0000_0000 by {
      assert Pow256(14) == 0x1_0000_0000_0000_0000_0000_0000_0000;
    }
    assert Pow256(20) == 0x1_0000_0000_0000_0000_0000_0000_0000_0000_0000_0000 by {
      assert Pow256(18) == 0x1_0000_0000_0000_0000_0000_0000_0000_0000_0000;
    }
    BigEndianRoundTrip(20, key);
  }

  lemma ToySigns(key: Address, digest: bytes32)
    ensures |ToySign(key, digest)| == 65 && ToySign(key, digest)[64] <= 1
    ensures ToyRecover(digest, ToySign(key, digest)[..64] + [ToySign(key, digest)[64] + 27]) == Some(key)
  {
    hide BigEndian, FromBigEndian;
    AddressFits(key);
    var signature := ToySign(key, digest)[..64] + [ToySign(key, digest)[64] + 27];
    var raw := ToySign(key, digest);
    assert raw[..32] == digest && raw[32..52] == BigEndian(20, key) && raw[64] == 0;
    assert signature[..32] == raw[..32] && signature[32..52] == raw[32..52];
  }

  /** The ideal hash and signatures exist, on every domain. */
  lemma IdealExists(d: Domain)
    requires d.chainId < Pow256(32)
    ensures Ideal(ToyCrypto(), d) && DistinctSelectors(ToyCrypto().keccak)
  {
    ToyIsIdeal(d);
    ToySelectors();
    hide IdealHash, ToySign, ToyRecover;
    forall key: Address, digest: bytes32
      ensures |ToySign(key, digest)| == 65 && ToySign(key, digest)[64] <= 1
        && ToyRecover(digest, ToySign(key, digest)[..64] + [ToySign(key, digest)[64] + 27]) == Some(key)
    {
      ToySigns(key, digest);
    }
  }

  // ---- The state ----

  function DeployedState(owner: Address, competitions: Registry, teams: Registry, signer: Address,
                         cursors: map<CursorKey, int>): State {
    State(Tables(map[], map[], cursors), Deployed(owner, competitions, teams, signer), map[], map[],
          map[], map[], map[], map[], Past({}, {}, {}, {}))
  }

  /** Every deployment that does not revert, with any cursors, is an initial state. */
  lemma InitExists(d: Domain, owner: Address, competitions: seq<string>, teams: seq<string>, signer: Address,
                   cursors: map<CursorKey, int>)
    requires d.chainId < Pow256(32) && signer != 0
    requires AddBatch(NEW_REGISTRY, competitions).Ok? && AddBatch(NEW_REGISTRY, teams).Ok?
    ensures Init(Config(ToyCrypto(), d, {signer}),
                 DeployedState(owner, AddBatch(NEW_REGISTRY, competitions).value,
                               AddBatch(NEW_REGISTRY, teams).value, signer, cursors))
  {
    hide Ideal, ChainInv, AddBatch;
    IdealExists(d);
    DeploymentEstablishes(ToyCrypto(), owner, competitions, teams, signer);
  }
}
