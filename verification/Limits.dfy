/** Runs of the machine that show what the pipeline does not promise, and exactly when it does. */
module Limits {
  import opened Wrappers
  import opened Bytes
  import opened Calendar
  import opened Entity
  import opened Eip712
  import opened Crypto
  import opened Oracle
  import opened Tables
  import opened Sync
  import opened Signer
  import opened Relayer
  import opened Pipeline
  import opened Invariants
  import opened Safety
  import opened Serial
  import opened Round
  import opened Paths

  // ---- Clean sync runs of finished matches ----

  function CleanSync(key: CursorKey, now: int, ms: seq<Match>): SyncRun {
    SyncRun(key, now, now, true, Some(ms), seq(|ms|, _ => EnqueueTry(0, Done)),
            seq(|ms|, _ => SaveTry(Done, EnqueueTry(0, Done))), Done)
  }

  predicate AllFinished(ms: seq<Match>) {
    forall m :: m in ms ==> m.status == FINISHED
  }

  lemma {:induction false} FinishedKept(ms: seq<Match>, now: int)
    requires AllFinished(ms)
    ensures Filtered(ms, now) == ms
  {
    if ms == [] {
    } else {
      FinishedKept(ms[..|ms| - 1], now);
      assert ms == ms[..|ms| - 1] + [ms[|ms| - 1]];
    }
  }

  /** A clean run saves its finished matches one after another. */
  lemma {:induction false} CleanSaves(t: Tables, ms: seq<Match>, provider: int, tries: seq<SaveTry>)
    requires AllFinished(ms) && |tries| == |ms| && AllDone(tries)
    ensures SaveMatches(t, ms, provider, tries).matches == SaveAll(t.matches, ms)
  {
    hide Upsert, Enqueue;
    if ms == [] {
    } else {
      CleanSaves(t, ms[..|ms| - 1], provider, tries[..|ms| - 1]);
    }
  }

  lemma CleanSynced(t: Tables, key: CursorKey, now: int, ms: seq<Match>)
    requires AllFinished(ms)
    ensures WellFormed(CleanSync(key, now, ms))
    ensures AfterSync(t, CleanSync(key, now, ms)).matches == SaveAll(t.matches, ms)
  {
    hide SaveMatches, SaveAll, EnqueueAll, Filtered;
    FinishedKept(ms, now);
    var r := CleanSync(key, now, ms);
    CleanSaves(AfterStale(t, r), ms, key.provider, r.saves);
  }

  lemma SyncReaches(c: Config, s0: State, s: State, key: CursorKey, now: int, ms: seq<Match>) returns (s': State)
    requires Leads(c, s0, s) && 0 !in s.syncs && 0 !in s.past.retired && AllFinished(ms)
    requires forall m :: m in ms ==> FromApi(c, m, key.provider)
    ensures Leads(c, s0, s') && s'.tables.matches == SaveAll(s.tables.matches, ms)
    ensures s' == s.(tables := s'.tables, past := s.past.(saved := s'.past.saved, passed := s'.past.passed))
  {
    hide Leads, FromApi, SaveAll, AfterSync, WellFormed;
    CleanSynced(s.tables, key, now, ms);
    s' := SyncIsPath(c, s0, s, 0, CleanSync(key, now, ms));
  }

  lemma SavedOne(matches: map<Ref, Row>, m: Match)
    ensures SaveAll(matches, [m]) == Resolve(matches, Upsert(matches, m), Done)
  {
    hide Upsert;
    assert [m][..0] == [];
  }

  lemma SavedTwo(matches: map<Ref, Row>, m: Match, other: Match)
    ensures SaveAll(matches, [m, other])
         == Resolve(SaveAll(matches, [m]), Upsert(SaveAll(matches, [m]), other), Done)
  {
    hide Upsert;
    assert [m, other][..1] == [m];
  }

  // ---- A match that is on chain already ----

  /** What the signer has just issued for a row is not forged in the relayer's calldata for it. */
  lemma FreshUnforged(c: Config, s: State, s': State, key: Address, items: seq<SignItem>, j: nat, row: Row)
    requires Ideal(c.crypto, c.domain) && RowWellMade(c, row) && j < |items| && items[j] == ItemOf(row)
    requires IssuedFor(c, s, s', key, items, |items|) && Signed(c.crypto, c.domain, key, ItemOf(row)).Some?
    ensures RelayMatchOf(SignedRow(c, key, row)).Some?
    ensures Unforged(c, s'.past.issued, Calldata(RelayMatchOf(SignedRow(c, key, row)).value))
  {
    hide Signed, SignerDigest, Digest, HexDecode, TrimHexPrefix, HexToHash, RelayerDateCode, CanonicalId, Calldata,
      RelayMatchOf, IdealHash, IdealSign, Adjust;
    FreshlySigned(c, key, row);
    var signed := SignedRow(c, key, row);
    VerifiedDecodes(c, signed, key);
    VerifiedCalldata(c, signed, key);
    RowHashIsKeyHash(c, row);
    SignedVerifies(c.crypto, c.domain, key, ItemOf(row));
    DigestAgreement(c.crypto.keccak, c.domain, row.canonicalId, row.homeScore, row.awayScore);
    assert SignerDigest(c.crypto.keccak, c.domain, items[j].canonicalId, items[j].home, items[j].away)
        == Some(Digest(c.crypto.keccak, c.domain, RowHash(signed), signed.homeScore, signed.awayScore));
  }

  /** The same result under a second match id of the provider. */
  function Twin(m: Match, pmid: string): Match {
    m.(id := m.id + 1, pmid := pmid)
  }

  ghost predicate TwinsFound(c: Config, s0: State, m: Match, pmid: string) {
    && Init(c, s0) && m.status == FINISHED && FromApi(c, m, m.provider) && Storable(m)
    && pmid != m.pmid && |pmid| <= 255 && Deliverable(c, s0.chain, RowOfMatch(m))
  }

  function TwinRows(m: Match, pmid: string): map<Ref, Row> {
    map[RefOf(m) := RowOfMatch(m), RefOf(Twin(m, pmid)) := RowOfMatch(Twin(m, pmid))]
  }

  function TwinRefs(m: Match, pmid: string): seq<Ref> {
    [RefOf(m), RefOf(Twin(m, pmid))]
  }

  lemma TwinsSynced(c: Config, s0: State, key: CursorKey, m: Match, pmid: string) returns (s: State)
    requires TwinsFound(c, s0, m, pmid) && key.provider == m.provider
    ensures Leads(c, s0, s) && s.tables.matches == TwinRows(m, pmid)
    ensures s.chain == s0.chain && s.past.issued == {} && s.signers == map[] && s.relayers == map[]
    ensures s.sent == map[] && s.receipts == map[]
  {
    hide Leads, ChainInv, Ideal, CanonicalId, SaveAll;
    LeadsHere(c, s0);
    var other := Twin(m, pmid);
    s := SyncReaches(c, s0, s0, key, 0, [m, other]);
    SavedOne(map[], m);
    SavedTwo(map[], m, other);
    assert Upsert(map[], m) == Some(map[RefOf(m) := RowOfMatch(m)]);
    assert Upsert(map[RefOf(m) := RowOfMatch(m)], other) == Some(TwinRows(m, pmid));
  }

  lemma TwinIdentity(c: Config, m: Match, pmid: string)
    ensures RowHash(RowOfMatch(Twin(m, pmid))) == RowHash(RowOfMatch(m))
    ensures KeyOf(RowOfMatch(Twin(m, pmid))) == KeyOf(RowOfMatch(m))
    ensures WellMade(c.crypto.keccak, m) ==> RowWellMade(c, RowOfMatch(m)) && RowWellMade(c, RowOfMatch(Twin(m, pmid)))
  {
    hide HexToHash, TrimHexPrefix, CanonicalId;
  }

  /** Both rows are signed, and the relayer can read both. */
  lemma TwinsSigned(c: Config, key: Address, m: Match, pmid: string, ref: Ref)
    requires Ideal(c.crypto, c.domain) && WellMade(c.crypto.keccak, m) && m.status == FINISHED && pmid != m.pmid
    requires m.homeScore <= 80 && m.awayScore <= 80 && ref in TwinRows(m, pmid)
    ensures IsListing(TwinRows(m, pmid), FINISHED, TwinRefs(m, pmid))
    ensures var after := AllSigned(c, key, TwinRows(m, pmid), TwinRefs(m, pmid));
      && after.Keys == TwinRows(m, pmid).Keys && after[ref] == SignedRow(c, key, TwinRows(m, pmid)[ref])
      && Signed(c.crypto, c.domain, key, ItemOf(TwinRows(m, pmid)[ref])).Some? && VerifiesFor(c, after[ref], key)
  {
    hide Signed, SignAll, CanonicalId, Ideal, HexDecode, TrimHexPrefix, VerifiesFor, HexToHash;
    var rows, refs := TwinRows(m, pmid), TwinRefs(m, pmid);
    TwinIdentity(c, m, pmid);
    assert RowWellMade(c, rows[ref]);
    RowHashIsKeyHash(c, rows[ref]);
    SignedVerifies(c.crypto, c.domain, key, ItemOf(rows[ref]));
    FreshlySigned(c, key, rows[ref]);
    assert StoreTook(refs, Dones(2), ref) by {
      var j :| 0 <= j < 2 && refs[j] == ref;
      assert !Dones(2)[j].Lost?;
    }
    RunIsolation(c.crypto, c.domain, key, rows, refs, Dones(2), ref);
  }

  lemma MatchesOfTwo(matches: map<Ref, Row>, a: Ref, b: Ref)
    requires a in matches && b in matches && RelayMatchOf(matches[a]).Some? && RelayMatchOf(matches[b]).Some?
    ensures SignedMatches(matches, [a, b]) == [RelayMatchOf(matches[a]).value, RelayMatchOf(matches[b]).value]
  {
    hide RelayMatchOf;
    assert [a, b][..1] == [a] && [a][..0] == [];
    assert SignedMatches(matches, [a]) == [RelayMatchOf(matches[a]).value];
  }

  /** The first of two submissions of one identifier is taken, the second reverts as a duplicate. */
  lemma TwinTransactions(c: Config, chain: Chain, row: Row, twin: Row)
    requires Ideal(c.crypto, c.domain) && ChainInv(c.crypto, chain) && ReadyRow(c, chain, row)
    requires VerifiesFor(c, twin, chain.signer) && RowHash(twin) == RowHash(row) && KeyOf(twin) == KeyOf(row)
    requires twin.homeScore <= 80 && twin.awayScore <= 80
    requires RelayMatchOf(row).Some? && RelayMatchOf(twin).Some?
    ensures var first, again := Calldata(RelayMatchOf(row).value), Calldata(RelayMatchOf(twin).value);
      var after := After(c.crypto, c.domain, chain, Submit(first));
      && Exec(c.crypto, c.domain, chain, Submit(first)).Ok? && RowHash(row) in after.stored
      && Exec(c.crypto, c.domain, after, Submit(again)) == Err(MatchAlreadySubmitted(RowHash(row)))
      && After(c.crypto, c.domain, after, Submit(again)) == after
  {
    hide VerifiesFor, RelayMatchOf, Calldata, RowHash, IdealHash, IdealSign, ChainInv, Exec, Refusal,
      Deliverable, RowWellMade, CanonicalId, RelayerDateCode, Grows;
    var first, again := Calldata(RelayMatchOf(row).value), Calldata(RelayMatchOf(twin).value);
    GrowsItself(chain);
    NotStoredYet(c, chain, row);
    CalldataTaken(c, chain, chain, row);
    VerifiedCalldata(c, twin, chain.signer);
    TakenIsStored(c, chain, first);
    ResubmissionIsStable(c.crypto, c.domain, chain, first, [], again);
  }

  lemma TwinResults(c: Config, chain: Chain, ms: seq<RelayMatch>, rejects: bool)
    requires |ms| == 2 && Exec(c.crypto, c.domain, chain, Submit(Calldata(ms[0]))).Ok?
    requires var after := After(c.crypto, c.domain, chain, Submit(Calldata(ms[0])));
      Exec(c.crypto, c.domain, after, Submit(Calldata(ms[1]))) == Err(MatchAlreadySubmitted(Calldata(ms[1]).matchId))
    ensures Results(c, chain, ms, [false, rejects]) == [Sent, if rejects then AlreadySubmitted else Failed]
    ensures RunCalls(c.crypto, c.domain, chain, Calls(ms)) == After(c.crypto, c.domain, chain, Submit(Calldata(ms[0])))
  {
    hide Calldata, Exec;
    var calls := Calls(ms);
    var a, b := Submit(Calldata(ms[0])), Submit(Calldata(ms[1]));
    assert calls[..0] == [] && calls[..1] == [a] && calls == [a, b];
    TwoCalls(c, chain, a, b);
  }

  lemma NotStoredYet(c: Config, chain: Chain, row: Row)
    requires ReadyRow(c, chain, row)
    ensures RowHash(row) !in chain.stored
  {
  }

  lemma TakenIsStored(c: Config, chain: Chain, s: Submission)
    requires Refusal(c.crypto, c.domain, chain, s).None?
    ensures Exec(c.crypto, c.domain, chain, Submit(s)).Ok? && HasEntry(After(c.crypto, c.domain, chain, Submit(s)), s)
    ensures s.matchId == KeyHash(c.crypto.keccak, s.key)
  {
  }

  lemma TwoCalls(c: Config, chain: Chain, a: Call, b: Call)
    ensures RunCalls(c.crypto, c.domain, chain, []) == chain
    ensures RunCalls(c.crypto, c.domain, chain, [a]) == After(c.crypto, c.domain, chain, a)
    ensures RunCalls(c.crypto, c.domain, After(c.crypto, c.domain, chain, a), []) == After(c.crypto, c.domain, chain, a)
    ensures RunCalls(c.crypto, c.domain, chain, [a, b])
         == After(c.crypto, c.domain, After(c.crypto, c.domain, chain, a), b)
  {
    hide Oracle.After;
    assert [a][..0] == [] && [a, b][..1] == [a];
  }

  /**
    A duplicate is recognised when the node rejects it and missed when it is mined: two rows of one identifier are
    synced, signed and relayed; the first is delivered; the second is marked too if its transaction is rejected, but
    stays Signed, its broadcast a failure, if that is mined and reverted, although its identifier is on chain.
   */
  lemma DuplicateStaysSigned(c: Config, s0: State, key: CursorKey, m: Match, pmid: string, rejects: bool)
    returns (s: State)
    requires TwinsFound(c, s0, m, pmid) && key.provider == m.provider
    ensures Leads(c, s0, s) && RowHash(RowOfMatch(Twin(m, pmid))) in s.chain.stored
    ensures s.signers == map[] && s.relayers == map[0 := RelayFlight([], Ready)]
    ensures var signer := s0.chain.signer;
      s.tables.matches == map[
        RefOf(m) := SignedRow(c, signer, RowOfMatch(m)).(status := BROADCASTED),
        RefOf(Twin(m, pmid)) := SignedRow(c, signer, RowOfMatch(Twin(m, pmid))).(
          status := if rejects then BROADCASTED else SIGNED)]
  {
    hide Leads, Ideal, ChainInv, CanonicalId, Storable, Signed, SignAll, MarkAll, RunCalls, Calldata, RowHash, Unforged,
      VerifiesFor, RelayMatchOf, SignedMatches, KeyValid, IssuedFor, SignerDigest, Results, IsListing, Exec,
      Oracle.After;
    var signer, rows, refs := s0.chain.signer, TwinRows(m, pmid), TwinRefs(m, pmid);
    var s1 := TwinsSynced(c, s0, key, m, pmid);
    TwinsSigned(c, signer, m, pmid, refs[0]);
    TwinsSigned(c, signer, m, pmid, refs[1]);
    TwinIdentity(c, m, pmid);
    var s2 := SignIsPath(c, s0, s1, 0, signer, refs, Dones(2));
    var items, signed := Items(rows, refs), s2.tables.matches;
    FreshUnforged(c, s1, s2, signer, items, 0, rows[refs[0]]);
    FreshUnforged(c, s1, s2, signer, items, 1, rows[refs[1]]);
    var ms := [RelayMatchOf(signed[refs[0]]).value, RelayMatchOf(signed[refs[1]]).value];
    MatchesOfTwo(signed, refs[0], refs[1]);
    assert IsListing(signed, SIGNED, refs) by { AllListed(signed, refs); }
    s := RelayIsPath(c, s0, s2, 0, refs, [false, rejects]);
    SignedReady(c, s0.chain, rows[refs[0]]);
    SameIdentity(c, signer, rows[refs[0]]);
    SameIdentity(c, signer, rows[refs[1]]);
    TwinTransactions(c, s0.chain, signed[refs[0]], signed[refs[1]]);
    VerifiedCalldata(c, signed[refs[1]], signer);
    TwinResults(c, s0.chain, ms, rejects);
    TwinsMarked(signed, refs[0], refs[1], ms, if rejects then AlreadySubmitted else Failed);
  }

  lemma AllListed(matches: map<Ref, Row>, refs: seq<Ref>)
    requires |refs| == 2 && refs[0] != refs[1] && matches.Keys == {refs[0], refs[1]}
    requires matches[refs[0]].status == SIGNED && matches[refs[1]].status == SIGNED
    ensures IsListing(matches, SIGNED, refs)
  {
  }

  lemma SignedReady(c: Config, chain: Chain, row: Row)
    requires Ideal(c.crypto, c.domain) && RowWellMade(c, row) && Deliverable(c, chain, row)
    requires Signed(c.crypto, c.domain, chain.signer, ItemOf(row)).Some?
    ensures ReadyRow(c, chain, SignedRow(c, chain.signer, row))
  {
    hide Signed, VerifiesFor, HexToHash, TrimHexPrefix, KeyValid, CanonicalId, Ideal, RelayerDateCode;
    FreshlySigned(c, chain.signer, row);
  }

  /** Marks of a batch of two: the first was sent, the second came to `result`. */
  lemma TwinsMarked(matches: map<Ref, Row>, a: Ref, b: Ref, ms: seq<RelayMatch>, result: BroadcastResult)
    requires matches.Keys == {a, b} && a != b && matches[a].id != matches[b].id && |ms| == 2
    requires RelayMatchOf(matches[a]) == Some(ms[0]) && RelayMatchOf(matches[b]) == Some(ms[1])
    ensures MarkAll(matches, ms, [Sent, result], Dones(2)) == map[
      a := matches[a].(status := BROADCASTED),
      b := if result.Failed? then matches[b] else matches[b].(status := BROADCASTED)]
  {
    hide MarkAll, RelayMatchOf;
    RelayMatchId(matches[a], ms[0]);
    RelayMatchId(matches[b], ms[1]);
    BatchIsolation(matches, ms, [Sent, result], Dones(2), a);
    BatchIsolation(matches, ms, [Sent, result], Dones(2), b);
    assert ms[0].id == matches[a].id && ms[1].id == matches[b].id;
    assert Marked(ms, [Sent, result], Dones(2), matches[a].id);
    assert Marked(ms, [Sent, result], Dones(2), matches[b].id) <==> !result.Failed?;
    forall r ensures r in MarkAll(matches, ms, [Sent, result], Dones(2)) <==> r in matches {
      BatchIsolation(matches, ms, [Sent, result], Dones(2), r);
    }
  }

  // ---- A row saved again between snapshot and store ----

  /** The same match with other scores. */
  function Corrected(m: Match, home: nat, away: nat): Match {
    m.(homeScore := home, awayScore := away)
  }

  /** What the relayer submits for the row. */
  function CalldataOf(row: Row): Submission
    requires RelayMatchOf(row).Some?
  {
    Calldata(RelayMatchOf(row).value)
  }

  function CalldataDigest(c: Config, row: Row): bytes32
    requires RelayMatchOf(row).Some?
  {
    Digest(c.crypto.keccak, c.domain, CalldataOf(row).matchId, CalldataOf(row).home, CalldataOf(row).away)
  }

  /** The row's calldata carries the scores that were signed. */
  predicate CarriesSigned(row: Row, item: SignItem) {
    row.homeScore % 256 == item.home && row.awayScore % 256 == item.away
  }

  /** A traced signature decodes, is of a signable item, and recovers to its key under that item's digest. */
  lemma TracedSignature(c: Config, saved: set<Saved>, ref: Ref, row: Row, key: Address, item: SignItem)
    requires Ideal(c.crypto, c.domain) && RowWellMade(c, row) && SignedAs(c, saved, ref, row, key, item)
    ensures RelayMatchOf(row).Some? && Signable(item.canonicalId, item.home, item.away)
    ensures DigestOf(c, item).Some?
    ensures c.crypto.recover(DigestOf(c, item).value, CalldataOf(row).signature) == Some(key)
    ensures CalldataDigest(c, row) == DigestOf(c, item).value <==> CarriesSigned(row, item)
    ensures CarriesSigned(row, item) ==> SignatureRefusal(c.crypto, c.domain, key, CalldataOf(row)).None?
  {
    hide SignerDigest, Digest, HexDecode, TrimHexPrefix, HexToHash, CanonicalId, RelayerDateCode, Signed, IdealHash,
      IdealSign;
    SignedVerifies(c.crypto, c.domain, key, item);
    DigestAgreement(c.crypto.keccak, c.domain, item.canonicalId, item.home, item.away);
    DigestMatchesIff(c, row, item, RelayMatchOf(row).value.signature);
  }

  /** A service key's signature of scores the row was once saved with, which fits exactly while they are its own. */
  ghost predicate FitsIffUnchanged(c: Config, saved: set<Saved>, ref: Ref, row: Row, key: Address, item: SignItem) {
    && SignedAs(c, saved, ref, row, key, item) && RelayMatchOf(row).Some? && DigestOf(c, item).Some?
    && c.crypto.recover(DigestOf(c, item).value, CalldataOf(row).signature) == Some(key)
    && (CalldataDigest(c, row) == DigestOf(c, item).value <==> CarriesSigned(row, item))
    && (CarriesSigned(row, item) ==> SignatureRefusal(c.crypto, c.domain, key, CalldataOf(row)).None?)
  }

  /**
    In every reachable state, under any overlap, every Signed row carries a service key's signature of its own
    identifier and of scores it was once saved with; the digest the contract computes for the row's calldata is the
    signed one exactly when the row's scores, as the calldata narrows them, are still those.
   */
  lemma SignedUnderOverlap(c: Config, s0: State, s: State, ref: Ref)
    requires Init(c, s0) && Leads(c, s0, s) && ref in s.tables.matches && s.tables.matches[ref].status == SIGNED
    ensures exists key, item :: FitsIffUnchanged(c, s.past.saved, ref, s.tables.matches[ref], key, item)
  {
    hide Init, Leads, Inv, Ideal;
    LeadsToInv(c, s0, s);
    SignedRowTraced(c, s, ref);
    TracedFits(c, s.past.saved, ref, s.tables.matches[ref]);
  }

  lemma SignedRowTraced(c: Config, s: State, ref: Ref)
    requires Inv(c, s) && ref in s.tables.matches && s.tables.matches[ref].status == SIGNED
    ensures Ideal(c.crypto, c.domain) && RowWellMade(c, s.tables.matches[ref])
    ensures SignatureTraced(c, s.past.saved, ref, s.tables.matches[ref])
  {
    hide QueueInv, SignersInv, IssuedInv, StoredInv, RelayInv, ReceiptsInv, BroadcastedInv, RecsInv, SyncsInv,
      PassedInv, Ideal, RowWellMade, SignatureTraced;
    assert RowOk(c, s.past.saved, ref, s.tables.matches[ref]);
  }

  lemma TracedFits(c: Config, saved: set<Saved>, ref: Ref, row: Row)
    requires Ideal(c.crypto, c.domain) && RowWellMade(c, row) && SignatureTraced(c, saved, ref, row)
    requires row.status == SIGNED
    ensures exists key, item :: FitsIffUnchanged(c, saved, ref, row, key, item)
  {
    hide Ideal, RowWellMade, SignedAs, RelayMatchOf, DigestOf, CalldataDigest, CalldataOf, CarriesSigned;
    var key, item :| SignedAs(c, saved, ref, row, key, item);
    TracedSignature(c, saved, ref, row, key, item);
    assert FitsIffUnchanged(c, saved, ref, row, key, item);
  }

  /** The signer has taken its snapshot of a match's one row. */
  lemma SnapshotTaken(c: Config, s0: State, key: CursorKey, m: Match) returns (s: State)
    requires Init(c, s0) && m.status == FINISHED && FromApi(c, m, key.provider) && Storable(m)
    ensures Leads(c, s0, s) && s.tables.matches == map[RefOf(m) := RowOfMatch(m)]
    ensures s.signers == map[0 := SignFlight(s0.chain.signer, [ItemOf(RowOfMatch(m))])]
    ensures s.syncs == map[] && s.past.issued == {} && s.past.retired == {} && s.chain == s0.chain
  {
    hide Leads, ChainInv, Ideal, FromApi;
    LeadsHere(c, s0);
    var s1 := SyncReaches(c, s0, s0, key, 0, [m]);
    SavedOne(map[], m);
    var begin := SignBegin(0, s0.chain.signer, [RefOf(m)]);
    SignLeads(c, s0, s1, begin);
    s := SignNext(c, s1, begin);
    assert Items(s1.tables.matches, [RefOf(m)]) == [ItemOf(RowOfMatch(m))];
  }

  lemma StoredLate(c: Config, s: State, key: Address, item: SignItem, ref: Ref)
    requires s.signers == map[0 := SignFlight(key, [item])] && s.past.issued == {}
    requires s.tables.matches.Keys == {ref} && s.tables.matches[ref].id == item.id
    requires Signed(c.crypto, c.domain, key, item).Some? && DigestOf(c, item).Some?
    ensures var s' := SignStepNext(c, s, 0, Done);
      && s'.tables.matches
         == map[ref := s.tables.matches[ref].(signature := Signed(c.crypto, c.domain, key, item), status := SIGNED)]
      && s'.past.issued == {(key, DigestOf(c, item).value)}
      && s'.chain == s.chain && s'.signers == map[0 := SignFlight(key, [])]
  {
    hide Signed, SignerDigest;
    assert [item][1..] == [];
  }

  /**
    The provider corrects a score between the signer's snapshot and its store: the row ends Signed with the corrected
    scores and a signature of the old ones. The contract computes another digest for it, and with ideal signatures
    refuses it for every key of the service.
   */
  lemma OldScoresStaySigned(c: Config, s0: State, key: CursorKey, m: Match, home: nat, away: nat) returns (s: State)
    requires Init(c, s0) && m.status == FINISHED && FromApi(c, m, key.provider)
    requires Storable(m) && Storable(Corrected(m, home, away)) && m.homeScore < 256 && m.awayScore < 256
    requires (home % 256, away % 256) != (m.homeScore, m.awayScore)
    ensures Leads(c, s0, s) && RefOf(m) in s.tables.matches && s.chain == s0.chain
    ensures s.signers == map[0 := SignFlight(s0.chain.signer, [])]
    ensures var signer, item, row := s0.chain.signer, ItemOf(RowOfMatch(m)), s.tables.matches[RefOf(m)];
      && row == RowOfMatch(Corrected(m, home, away)).(
                  signature := Signed(c.crypto, c.domain, signer, item), status := SIGNED)
      && RelayMatchOf(row).Some? && DigestOf(c, item).Some? && CalldataDigest(c, row) != DigestOf(c, item).value
      && (Unforged(c, s.past.issued, CalldataOf(row)) ==>
            forall k: Address :: k in c.keys ==> SignatureRefusal(c.crypto, c.domain, k, CalldataOf(row)).Some?)
  {
    hide Leads, ChainInv, Ideal, CanonicalId, SaveAll, Signed, SignerDigest, Digest, Signable, HexDecode, TrimHexPrefix,
      Calldata, RelayMatchOf, SignStepNext;
    var ref, signer, item := RefOf(m), s0.chain.signer, ItemOf(RowOfMatch(m));
    var s1 := SnapshotTaken(c, s0, key, m);
    var s2 := SyncReaches(c, s0, s1, key, 0, [Corrected(m, home, away)]);
    SavedOne(s1.tables.matches, Corrected(m, home, away));
    SignedThough(c, signer, m);
    SignLeads(c, s0, s2, SignStep(0, Done));
    s := SignStepNext(c, s2, 0, Done);
    StoredLate(c, s2, signer, item, ref);
    SignatureOfOld(c, signer, m, s.tables.matches[ref]);
  }

  lemma SignedThough(c: Config, key: Address, m: Match)
    requires Ideal(c.crypto, c.domain) && WellMade(c.crypto.keccak, m) && m.homeScore < 256 && m.awayScore < 256
    ensures Signed(c.crypto, c.domain, key, ItemOf(RowOfMatch(m))).Some? && DigestOf(c, ItemOf(RowOfMatch(m))).Some?
  {
    hide Signed, SignerDigest, HexDecode, TrimHexPrefix, HexToHash, CanonicalId, IdealHash, IdealSign;
    RowHashIsKeyHash(c, RowOfMatch(m));
    SignedVerifies(c.crypto, c.domain, key, ItemOf(RowOfMatch(m)));
    DigestAgreement(c.crypto.keccak, c.domain, m.canonicalId, m.homeScore, m.awayScore);
  }

  /** A row with a signature of other scores: its calldata has another digest, and nobody's signature under it. */
  lemma SignatureOfOld(c: Config, signer: Address, m: Match, row: Row)
    requires Ideal(c.crypto, c.domain) && WellMade(c.crypto.keccak, m) && signer in c.keys
    requires row.canonicalId == m.canonicalId && row.id == m.id && row.start == m.start
    requires (row.comp, row.home, row.away) == (m.comp, m.home, m.away)
    requires row.signature == Signed(c.crypto, c.domain, signer, ItemOf(RowOfMatch(m))) && row.signature.Some?
    requires DigestOf(c, ItemOf(RowOfMatch(m))).Some? && !CarriesSigned(row, ItemOf(RowOfMatch(m)))
    ensures RelayMatchOf(row).Some? && CalldataDigest(c, row) != DigestOf(c, ItemOf(RowOfMatch(m))).value
    ensures Unforged(c, {(signer, DigestOf(c, ItemOf(RowOfMatch(m))).value)}, CalldataOf(row)) ==>
      forall k: Address :: k in c.keys ==> SignatureRefusal(c.crypto, c.domain, k, CalldataOf(row)).Some?
  {
    hide Signed, SignerDigest, Digest, HexDecode, TrimHexPrefix, CanonicalId, Ideal, RelayMatchOf, Calldata;
    var item := ItemOf(RowOfMatch(m));
    var ref := RefOf(m);
    TracedSignature(c, {Saved(ref, item.home, item.away)}, ref, row, signer, item);
  }
}
