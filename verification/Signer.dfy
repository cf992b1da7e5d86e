/** The signer: a snapshot of the finished matches, then sign and store, match by match. */
module Signer {
  import opened Wrappers
  import opened Bytes
  import opened Entity
  import opened Eip712
  import opened Crypto
  import opened Tables

  datatype SignItem = SignItem(id: Uuid, canonicalId: string, home: nat, away: nat)

  function ItemOf(row: Row): SignItem {
    SignItem(row.id, row.canonicalId, row.homeScore, row.awayScore)
  }

  /** The stored text of a signature; None when the typed data or the recovery id is refused. */
  function Signed(c: Crypto, d: Domain, key: Address, item: SignItem): Option<string> {
    var digest := SignerDigest(c.keccak, d, item.canonicalId, item.home, item.away);
    if digest.None? then None
    else
      var signature := Adjust(c.sign(key, digest.value));
      if signature.None? then None else Some(HexEncode(signature.value))
  }

  function SignOne(c: Crypto, d: Domain, key: Address, matches: map<Ref, Row>, item: SignItem, o: Outcome)
    : map<Ref, Row>
  {
    var signature := Signed(c, d, key, item);
    if signature.None? then matches
    else Resolve(matches, Some(StoreSignature(matches, item.id, signature.value)), o)
  }

  function SignAll(c: Crypto, d: Domain, key: Address, matches: map<Ref, Row>, items: seq<SignItem>, os: seq<Outcome>)
    : map<Ref, Row>
    requires |os| == |items|
  {
    if items == [] then matches
    else
      var n := |items| - 1;
      SignOne(c, d, key, SignAll(c, d, key, matches, items[..n], os[..n]), items[n], os[n])
  }

  /** A store for every item that could be signed, of that item's signature. */
  function SignStatements(c: Crypto, d: Domain, key: Address, items: seq<SignItem>, os: seq<Outcome>): seq<Statement>
    requires |os| == |items|
  {
    if items == [] then []
    else
      var n := |items| - 1;
      var signature := Signed(c, d, key, items[n]);
      SignStatements(c, d, key, items[..n], os[..n])
      + if signature.None? then [] else [WriteSignature(items[n].id, signature.value, os[n])]
  }

  function Items(matches: map<Ref, Row>, refs: seq<Ref>): seq<SignItem>
    requires forall r :: r in refs ==> r in matches
  {
    seq(|refs|, i requires 0 <= i < |refs| => ItemOf(matches[refs[i]]))
  }

  /** Signing succeeds exactly on signable items, and what it stores recovers to the key under the contract's digest. */
  lemma SignedVerifies(c: Crypto, d: Domain, key: Address, item: SignItem)
    requires Ideal(c, d)
    ensures Signed(c, d, key, item).Some? <==> Signable(item.canonicalId, item.home, item.away)
    ensures Signed(c, d, key, item).Some? ==>
      var signature := HexDecode(TrimHexPrefix(Signed(c, d, key, item).value));
      signature.Some?
      && c.recover(Digest(c.keccak, d, HexDecode(TrimHexPrefix(item.canonicalId)).value, item.home, item.away),
                   signature.value) == Some(key)
  {
    hide SignerDigest, Digest, HexEncode, HexDecode, TrimHexPrefix, Adjust, IdealHash;
    DigestAgreement(c.keccak, d, item.canonicalId, item.home, item.away);
    if Signable(item.canonicalId, item.home, item.away) {
      var raw := c.sign(key, SignerDigest(c.keccak, d, item.canonicalId, item.home, item.away).value);
      assert |raw| == 65 && raw[64] <= 1;
      AdjustAdds27(raw);
      HexSurvives(raw[..64] + [raw[64] + 27]);
    }
  }

  /** The store of the match listed as `ref` took. */
  ghost predicate StoreTook(refs: seq<Ref>, os: seq<Outcome>, ref: Ref)
    requires |os| == |refs|
  {
    exists j :: 0 <= j < |refs| && refs[j] == ref && !os[j].Lost?
  }

  lemma StoreTookLast(refs: seq<Ref>, os: seq<Outcome>, ref: Ref)
    requires |os| == |refs| && refs != []
    ensures var n := |refs| - 1;
      StoreTook(refs, os, ref) <==> StoreTook(refs[..n], os[..n], ref) || (refs[n] == ref && !os[n].Lost?)
  {
    var n := |refs| - 1;
    if StoreTook(refs[..n], os[..n], ref) {
      var j :| 0 <= j < n && refs[..n][j] == ref && !os[..n][j].Lost?;
      assert refs[j] == ref && !os[j].Lost?;
    }
    if StoreTook(refs, os, ref) {
      var j :| 0 <= j < |refs| && refs[j] == ref && !os[j].Lost?;
      assert j < n ==> refs[..n][j] == ref && !os[..n][j].Lost?;
    }
  }

  /**
    Isolation: a run gives a row the signature of that row's own identifier and scores, and the status
    Signed, exactly when the row was listed, could be signed and its store took; no other row changes.
   */
  lemma {:induction false} RunIsolation(c: Crypto, d: Domain, key: Address, matches: map<Ref, Row>,
                                        refs: seq<Ref>, os: seq<Outcome>, ref: Ref)
    requires UniqueRowIds(matches) && |os| == |refs| && forall r :: r in refs ==> r in matches
    ensures SignAll(c, d, key, matches, Items(matches, refs), os).Keys == matches.Keys
    ensures ref in matches ==>
      SignAll(c, d, key, matches, Items(matches, refs), os)[ref]
      == if StoreTook(refs, os, ref) && Signed(c, d, key, ItemOf(matches[ref])).Some?
         then matches[ref].(signature := Signed(c, d, key, ItemOf(matches[ref])), status := SIGNED)
         else matches[ref]
  {
    hide Signed;
    if refs == [] {
    } else {
      var n := |refs| - 1;
      var items := Items(matches, refs);
      assert items[..n] == Items(matches, refs[..n]);
      RunIsolation(c, d, key, matches, refs[..n], os[..n], ref);
      StoreTookLast(refs, os, ref);
      assert ref in matches ==> (matches[refs[n]].id == matches[ref].id <==> refs[n] == ref);
    }
  }

  // ---- The program ----

  /** The hash of the typed data for a signable item. */
  function DigestToSign(c: Crypto, d: Domain, item: SignItem): bytes32
    requires Signable(item.canonicalId, item.home, item.away)
  {
    c.keccak(TypedDataBytes(c.keccak, d, HexDecode(TrimHexPrefix(item.canonicalId)).value, item.home, item.away))
  }

  /**
    The text is the raw signature with 27 added to its recovery id, in 130 lower-case hex digits; any other id than
    0 and 1 is refused.
   */
  predicate AdjustedText(raw: seq<byte>, text: Option<string>) {
    && (text.Some? <==> |raw| == 65 && raw[64] <= 1)
    && (text.Some? ==> |text.value| == 130 && IsLowerHex(text.value)
                       && HexDecode(text.value) == Some(raw[..64] + [raw[64] + 27]))
  }

  /** What is stored for an item is the adjusted signature of the hash of its typed data, and nothing if it has none. */
  lemma SignedIsAdjusted(c: Crypto, d: Domain, key: Address, item: SignItem)
    requires d.chainId < Pow256(32)
    ensures !Signable(item.canonicalId, item.home, item.away) ==> Signed(c, d, key, item).None?
    ensures Signable(item.canonicalId, item.home, item.away) ==>
      AdjustedText(c.sign(key, DigestToSign(c, d, item)), Signed(c, d, key, item))
  {
    hide SignerDigest, Digest, TypedDataBytes, HexEncode, HexDecode, TrimHexPrefix, Adjust, IsLowerHex;
    DigestAgreement(c.keccak, d, item.canonicalId, item.home, item.away);
    if Signable(item.canonicalId, item.home, item.away) {
      var id := HexDecode(TrimHexPrefix(item.canonicalId)).value;
      DigestOfTypedData(c.keccak, d, id, item.home, item.away);
      var raw := c.sign(key, DigestToSign(c, d, item));
      AdjustAdds27(raw);
      if Adjust(raw).Some? {
        HexSurvives(Adjust(raw).value);
        HexIsLower(Adjust(raw).value);
      }
    }
  }

  lemma SignedUnfolds(c: Crypto, d: Domain, key: Address, item: SignItem)
    ensures var digest := SignerDigest(c.keccak, d, item.canonicalId, item.home, item.away);
      && (digest.None? ==> Signed(c, d, key, item).None?)
      && (digest.Some? ==>
            var raw := c.sign(key, digest.value);
            Signed(c, d, key, item)
            == if |raw| != 65 || raw[64] > 1 then None else Some(HexEncode(raw[64 := raw[64] + 27])))
  {
    hide SignerDigest, HexEncode;
  }

  method SignMatch(c: Crypto, d: Domain, key: Address, item: SignItem) returns (r: Option<string>)
    ensures r == Signed(c, d, key, item)
    ensures d.chainId < Pow256(32) ==>
      if Signable(item.canonicalId, item.home, item.away)
      then AdjustedText(c.sign(key, DigestToSign(c, d, item)), r)
      else r.None?
  {
    hide SignerDigest, HexEncode, AdjustedText, DigestToSign, Signable, Signed, Pow256;
    SignedUnfolds(c, d, key, item);
    if d.chainId < Pow256(32) {
      SignedIsAdjusted(c, d, key, item);
    }
    var hash := SignerDigest(c.keccak, d, item.canonicalId, item.home, item.away);
    if hash.None? {
      return None;
    }
    var raw := c.sign(key, hash.value);
    if |raw| != 65 {
      return None;
    }
    var signature := new byte[65](i requires 0 <= i < 65 => raw[i]);
    assert signature[..] == raw;
    var recoveryId := signature[64];
    if recoveryId > 1 {
      return None;
    }
    signature[64] := recoveryId + 27;
    assert signature[..] == raw[64 := raw[64] + 27];
    return Some(HexEncode(signature[..]));
  }

  method Run(db: Database, c: Crypto, d: Domain, key: Address)
    returns (ok: bool, refs: seq<Ref>, outcomes: seq<Outcome>)
    requires db.Valid()
    modifies db`matches, db`log
    ensures db.Valid() && IsListing(old(db.matches), FINISHED, refs)
    ensures forall r :: r in refs <==> r in old(db.matches) && old(db.matches)[r].status == 3
    ensures !ok ==> db.matches == old(db.matches) && db.log == old(db.log) + [ReadStatus(FINISHED, false, refs)]
    ensures ok ==> |outcomes| == |refs|
    ensures ok ==> db.matches == SignAll(c, d, key, old(db.matches), Items(old(db.matches), refs), outcomes)
    ensures ok ==> db.log == old(db.log) + [ReadStatus(FINISHED, true, refs)]
                             + SignStatements(c, d, key, Items(old(db.matches), refs), outcomes)
  {
    hide Signed, StoreSignature, AdjustedText, DigestToSign, Signable, Pow256;
    outcomes := [];
    ok, refs := db.FindByStatus(FINISHED);
    if !ok {
      return;
    }
    var matches := Items(db.matches, refs);
    ghost var listed := db.log;
    for i := 0 to |matches|
      invariant db.Valid() && |outcomes| == i
      invariant db.matches == SignAll(c, d, key, old(db.matches), matches[..i], outcomes)
      invariant db.log == listed + SignStatements(c, d, key, matches[..i], outcomes)
    {
      ghost var outcomes0 := outcomes;
      assert matches[..i + 1][..i] == matches[..i];
      var signature := SignMatch(c, d, key, matches[i]);
      var o := Lost;
      if signature.Some? {
        // A failed store is logged; the match stays finished and is found again by the next run.
        o := db.SetSignature(matches[i].id, signature.value);
      }
      outcomes := outcomes + [o];
      assert outcomes[..i] == outcomes0;
    }
    assert matches[..|matches|] == matches;
  }
}
