/** What every reachable state of the pipeline satisfies, part by part, and why each part survives. */
module Invariants {
  import opened Wrappers
  import opened Bytes
  import opened Calendar
  import opened Entity
  import opened Eip712
  import opened Crypto
  import opened Oracle
  import opened Tables
  import opened Sync
  import opened Signer
  import opened Relayer
  import opened Pipeline

  // ---- Rows ----

  predicate RowWellMade(c: Config, row: Row) {
    CanonicalId(c.crypto.keccak, row.comp, row.home, row.away, row.start) == Some(row.canonicalId)
  }

  function KeyOf(row: Row): Key {
    Key(row.comp, row.home, row.away, RelayerDateCode(row.start))
  }

  /** The identifier the relayer submits for a row. */
  function RowHash(row: Row): bytes32 {
    HexToHash(TrimHexPrefix(row.canonicalId))
  }

  /** The stored signature is a service key's on the row's identifier and scores the row was once saved with. */
  ghost predicate SignedAs(c: Config, saved: set<Saved>, ref: Ref, row: Row, key: Address, item: SignItem) {
    && key in c.keys && item.id == row.id && item.canonicalId == row.canonicalId
    && Saved(ref, item.home, item.away) in saved
    && row.signature.Some? && row.signature == Signed(c.crypto, c.domain, key, item)
  }

  ghost predicate SignatureTraced(c: Config, saved: set<Saved>, ref: Ref, row: Row) {
    && (row.status == SIGNED ==> row.signature.Some?)
    && (row.signature.Some? ==> exists key, item :: SignedAs(c, saved, ref, row, key, item))
  }

  ghost predicate RowOk(c: Config, saved: set<Saved>, ref: Ref, row: Row) {
    && RowWellMade(c, row) && Saved(ref, row.homeScore, row.awayScore) in saved
    && (row.status == FINISHED || row.status == SIGNED || row.status == BROADCASTED)
    && SignatureTraced(c, saved, ref, row)
  }

  ghost predicate RowsInv(c: Config, matches: map<Ref, Row>, saved: set<Saved>) {
    && UniqueRowIds(matches)
    && forall r :: r in matches ==> RowOk(c, saved, r, matches[r])
  }

  /** No row disappears or changes its identity. */
  ghost predicate RowsGrow(before: map<Ref, Row>, after: map<Ref, Row>) {
    forall r :: r in before ==>
      r in after && after[r].id == before[r].id && after[r].canonicalId == before[r].canonicalId
  }

  /** Provider, signer, relayer and contract all mean the same 32 bytes by a row's identifier. */
  lemma RowHashIsKeyHash(c: Config, row: Row)
    requires RowWellMade(c, row)
    ensures RowHash(row) == KeyHash(c.crypto.keccak, KeyOf(row))
    ensures HexDecode(TrimHexPrefix(row.canonicalId)) == Some(RowHash(row))
  {
    DateCodesAgree(row.start);
    HexSurvives(KeyHash(c.crypto.keccak, KeyOf(row)));
  }

  /** Only identity, scores, status and signature matter. */
  lemma RowOkFrame(c: Config, saved: set<Saved>, saved': set<Saved>, ref: Ref, row: Row, row': Row)
    requires RowOk(c, saved, ref, row) && SignatureTraced(c, saved', ref, row')
    requires (row'.canonicalId, row'.comp, row'.home, row'.away) == (row.canonicalId, row.comp, row.home, row.away)
    requires row'.start == row.start && Saved(ref, row'.homeScore, row'.awayScore) in saved'
    requires row'.status == FINISHED || row'.status == SIGNED || row'.status == BROADCASTED
    ensures RowOk(c, saved', ref, row')
  {
    hide SignatureTraced;
  }

  /** A signature left alone stays traced while results are added and the row is not made Signed. */
  lemma SignatureKept(c: Config, saved: set<Saved>, saved': set<Saved>, ref: Ref, row: Row, row': Row)
    requires SignatureTraced(c, saved, ref, row) && saved <= saved'
    requires row'.id == row.id && row'.canonicalId == row.canonicalId && row'.signature == row.signature
    requires row'.status == SIGNED ==> row.status == SIGNED
    ensures SignatureTraced(c, saved', ref, row')
  {
    hide Signed;
    if row.signature.Some? {
      var key, item :| SignedAs(c, saved, ref, row, key, item);
      assert SignedAs(c, saved', ref, row', key, item);
    }
  }

  lemma NewRowOk(c: Config, saved: set<Saved>, m: Match)
    requires WellMade(c.crypto.keccak, m) && m.status == FINISHED
    requires Saved(RefOf(m), m.homeScore, m.awayScore) in saved
    ensures RowOk(c, saved, RefOf(m), Row(m.id, m.canonicalId, m.comp, m.home, m.away, m.start,
                                          m.status, m.homeScore, m.awayScore, None))
  {
  }

  lemma UpsertKeepsRows(c: Config, matches: map<Ref, Row>, saved: set<Saved>, m: Match)
    requires RowsInv(c, matches, saved) && WellMade(c.crypto.keccak, m) && m.status == FINISHED
    requires Upsert(matches, m).Some?
    ensures RowsInv(c, Upsert(matches, m).value, saved + {Saved(RefOf(m), m.homeScore, m.awayScore)})
    ensures RowsGrow(matches, Upsert(matches, m).value)
  {
    hide WellMade, RowWellMade, Storable, RowIdTaken, SignatureTraced;
    var after := Upsert(matches, m).value;
    var saved' := saved + {Saved(RefOf(m), m.homeScore, m.awayScore)};
    UpsertKeepsIds(matches, m);
    forall r | r in after ensures RowOk(c, saved', r, after[r]) {
      if r in matches {
        SignatureKept(c, saved, saved', r, matches[r], after[r]);
        RowOkFrame(c, saved, saved', r, matches[r], after[r]);
      } else {
        NewRowOk(c, saved', m);
      }
    }
  }

  lemma MarkKeepsRows(c: Config, matches: map<Ref, Row>, saved: set<Saved>, id: Uuid)
    requires RowsInv(c, matches, saved) && MarkBroadcasted(matches, id).Some?
    ensures RowsInv(c, MarkBroadcasted(matches, id).value, saved)
    ensures RowsGrow(matches, MarkBroadcasted(matches, id).value)
  {
    hide RowWellMade, SignatureTraced;
    var after := MarkBroadcasted(matches, id).value;
    forall r | r in after ensures RowOk(c, saved, r, after[r]) {
      SignatureKept(c, saved, saved, r, matches[r], after[r]);
      RowOkFrame(c, saved, saved, r, matches[r], after[r]);
    }
  }

  // ---- Signer ----

  /** The item is some row's identity with scores that row was once saved with. */
  ghost predicate ItemTraced(matches: map<Ref, Row>, saved: set<Saved>, item: SignItem) {
    exists r :: r in matches && matches[r].id == item.id && matches[r].canonicalId == item.canonicalId
      && Saved(r, item.home, item.away) in saved
  }

  /** The signature of a traced item goes to the row the item was read from, whatever its scores are by now. */
  lemma StoreKeepsRows(c: Config, matches: map<Ref, Row>, saved: set<Saved>, key: Address, item: SignItem)
    requires RowsInv(c, matches, saved) && key in c.keys && ItemTraced(matches, saved, item)
    requires Signed(c.crypto, c.domain, key, item).Some?
    ensures var after := StoreSignature(matches, item.id, Signed(c.crypto, c.domain, key, item).value);
      RowsInv(c, after, saved) && RowsGrow(matches, after)
  {
    hide RowWellMade, Signed, SignatureTraced;
    var after := StoreSignature(matches, item.id, Signed(c.crypto, c.domain, key, item).value);
    var own :| own in matches && matches[own].id == item.id && matches[own].canonicalId == item.canonicalId
      && Saved(own, item.home, item.away) in saved;
    forall r | r in after ensures RowOk(c, saved, r, after[r]) {
      assert RowOk(c, saved, r, matches[r]);
      if matches[r].id == item.id {
        assert r == own;
        NewlySigned(c, saved, r, after[r], key, item);
      } else {
        assert after[r] == matches[r];
      }
      RowOkFrame(c, saved, saved, r, matches[r], after[r]);
    }
  }

  lemma NewlySigned(c: Config, saved: set<Saved>, ref: Ref, row: Row, key: Address, item: SignItem)
    requires SignedAs(c, saved, ref, row, key, item)
    ensures SignatureTraced(c, saved, ref, row)
  {
    hide Signed;
  }

  ghost predicate SignersInv(c: Config, matches: map<Ref, Row>, saved: set<Saved>, signers: map<nat, SignFlight>) {
    forall i :: i in signers ==>
      && signers[i].key in c.keys
      && forall j :: 0 <= j < |signers[i].todo| ==> ItemTraced(matches, saved, signers[i].todo[j])
  }

  /** The digest is that of some row's identifier and scores that row was once saved with. */
  ghost predicate DigestTraced(c: Config, matches: map<Ref, Row>, saved: set<Saved>, digest: bytes32) {
    exists r: Ref, h: byte, w: byte :: r in matches && Saved(r, h, w) in saved
      && digest == Digest(c.crypto.keccak, c.domain, RowHash(matches[r]), h, w)
  }

  ghost predicate IssuedInv(c: Config, matches: map<Ref, Row>, saved: set<Saved>, issued: set<(Address, bytes32)>) {
    forall x :: x in issued ==> DigestTraced(c, matches, saved, x.1)
  }

  lemma SignersGrow(c: Config, matches: map<Ref, Row>, saved: set<Saved>, matches': map<Ref, Row>, saved': set<Saved>,
                    signers: map<nat, SignFlight>)
    requires SignersInv(c, matches, saved, signers) && RowsGrow(matches, matches') && saved <= saved'
    ensures SignersInv(c, matches', saved', signers)
  {
    forall i, j | i in signers && 0 <= j < |signers[i].todo|
      ensures ItemTraced(matches', saved', signers[i].todo[j])
    {
      var item := signers[i].todo[j];
      assert ItemTraced(matches, saved, item);
      var r :| r in matches && matches[r].id == item.id && matches[r].canonicalId == item.canonicalId
        && Saved(r, item.home, item.away) in saved;
      assert r in matches';
    }
  }

  lemma IssuedGrows(c: Config, matches: map<Ref, Row>, saved: set<Saved>, matches': map<Ref, Row>, saved': set<Saved>,
                    issued: set<(Address, bytes32)>)
    requires IssuedInv(c, matches, saved, issued) && RowsGrow(matches, matches') && saved <= saved'
    ensures IssuedInv(c, matches', saved', issued)
  {
    forall x | x in issued ensures DigestTraced(c, matches', saved', x.1) {
      assert DigestTraced(c, matches, saved, x.1);
      var r: Ref, h: byte, w: byte :| r in matches && Saved(r, h, w) in saved
        && x.1 == Digest(c.crypto.keccak, c.domain, RowHash(matches[r]), h, w);
      assert r in matches' && RowHash(matches'[r]) == RowHash(matches[r]);
    }
  }

  /** A digest the signer computes for a traced item is traced. */
  lemma SignedDigestTraced(c: Config, matches: map<Ref, Row>, saved: set<Saved>, item: SignItem)
    requires Ideal(c.crypto, c.domain) && RowsInv(c, matches, saved) && ItemTraced(matches, saved, item)
    requires SignerDigest(c.crypto.keccak, c.domain, item.canonicalId, item.home, item.away).Some?
    ensures DigestTraced(c, matches, saved,
                         SignerDigest(c.crypto.keccak, c.domain, item.canonicalId, item.home, item.away).value)
  {
    hide SignerDigest, Digest, HexDecode, TrimHexPrefix, HexToHash, CanonicalId, RelayerDateCode;
    hide IdealHash, IdealSign, UniqueRowIds;
    DigestAgreement(c.crypto.keccak, c.domain, item.canonicalId, item.home, item.away);
    var r :| r in matches && matches[r].id == item.id && matches[r].canonicalId == item.canonicalId
      && Saved(r, item.home, item.away) in saved;
    assert RowOk(c, saved, r, matches[r]);
    RowHashIsKeyHash(c, matches[r]);
    assert SignerDigest(c.crypto.keccak, c.domain, item.canonicalId, item.home, item.away).value
        == Digest(c.crypto.keccak, c.domain, RowHash(matches[r]), item.home, item.away);
  }

  // ---- Chain ----

  /** A stored result is one its match was once saved with. */
  ghost predicate EntryTraced(matches: map<Ref, Row>, saved: set<Saved>, id: bytes32, e: Entry) {
    exists r :: r in matches && RowHash(matches[r]) == id && Saved(r, e.home, e.away) in saved
  }

  ghost predicate StoredInv(c: Config, matches: map<Ref, Row>, saved: set<Saved>, chain: Chain) {
    && ChainInv(c.crypto, chain) && chain.signer in c.keys
    && forall id :: id in chain.stored ==> EntryTraced(matches, saved, id, chain.stored[id])
  }

  lemma StoredGrows(c: Config, matches: map<Ref, Row>, saved: set<Saved>, matches': map<Ref, Row>, saved': set<Saved>,
                    chain: Chain)
    requires StoredInv(c, matches, saved, chain) && RowsGrow(matches, matches') && saved <= saved'
    ensures StoredInv(c, matches', saved', chain)
  {
    forall id | id in chain.stored ensures EntryTraced(matches', saved', id, chain.stored[id]) {
      var e := chain.stored[id];
      assert EntryTraced(matches, saved, id, e);
      var r :| r in matches && RowHash(matches[r]) == id && Saved(r, e.home, e.away) in saved;
      assert r in matches' && RowHash(matches'[r]) == RowHash(matches[r]);
    }
  }

  /** A digest of a submission for a real key can only be a row's if the identifier and the scores are. */
  lemma DigestPinsResult(c: Config, row: Row, h: byte, w: byte, s: Submission)
    requires Ideal(c.crypto, c.domain) && RowWellMade(c, row) && s.matchId == KeyHash(c.crypto.keccak, s.key)
    requires Digest(c.crypto.keccak, c.domain, s.matchId, s.home, s.away)
          == Digest(c.crypto.keccak, c.domain, RowHash(row), h, w)
    ensures RowHash(row) == s.matchId && h == s.home && w == s.away
  {
    RowHashIsKeyHash(c, row);
    DigestInjective(c.crypto.keccak, c.domain, s.key, s.home, s.away, KeyOf(row), h, w);
  }

  lemma AcceptedMeansIssued(c: Config, issued: set<(Address, bytes32)>, chain: Chain, s: Submission)
    requires chain.signer in c.keys && Unforged(c, issued, s) && Refusal(c.crypto, c.domain, chain, s).None?
    ensures (chain.signer, Digest(c.crypto.keccak, c.domain, s.matchId, s.home, s.away)) in issued
    ensures s.matchId == KeyHash(c.crypto.keccak, s.key)
  {
  }

  /** An accepted submission carries a result its match was once saved with. */
  lemma AcceptedTraced(c: Config, matches: map<Ref, Row>, saved: set<Saved>, issued: set<(Address, bytes32)>,
                       chain: Chain, s: Submission)
    requires Ideal(c.crypto, c.domain) && RowsInv(c, matches, saved) && IssuedInv(c, matches, saved, issued)
    requires chain.signer in c.keys && Unforged(c, issued, s)
    requires Refusal(c.crypto, c.domain, chain, s).None?
    ensures EntryTraced(matches, saved, s.matchId, Entry(s.matchId, s.home, s.away))
  {
    var digest := Digest(c.crypto.keccak, c.domain, s.matchId, s.home, s.away);
    AcceptedMeansIssued(c, issued, chain, s);
    assert DigestTraced(c, matches, saved, (chain.signer, digest).1);
    var r: Ref, h: byte, w: byte :| r in matches && Saved(r, h, w) in saved
      && digest == Digest(c.crypto.keccak, c.domain, RowHash(matches[r]), h, w);
    assert RowOk(c, saved, r, matches[r]);
    DigestPinsResult(c, matches[r], h, w, s);
  }

  /** A call adds at most the entry of its own submission. */
  lemma CallStores(c: Crypto, d: Domain, chain: Chain, call: Call)
    ensures forall id :: id in After(c, d, chain, call).stored ==>
      || (id in chain.stored && After(c, d, chain, call).stored[id] == chain.stored[id])
      || (call.Submit? && Refusal(c, d, chain, call.s).None? && id == call.s.matchId
          && After(c, d, chain, call).stored[id] == Entry(id, call.s.home, call.s.away))
    ensures After(c, d, chain, call).signer == chain.signer
      || (call.Rotate? && After(c, d, chain, call).signer == call.newSigner)
  {
  }

  lemma CallKeepsStored(c: Config, matches: map<Ref, Row>, saved: set<Saved>, issued: set<(Address, bytes32)>,
                        chain: Chain, call: Call)
    requires Ideal(c.crypto, c.domain) && RowsInv(c, matches, saved) && IssuedInv(c, matches, saved, issued)
    requires StoredInv(c, matches, saved, chain)
    requires call.Submit? ==> Unforged(c, issued, call.s)
    requires call.Rotate? ==> call.newSigner in c.keys
    ensures StoredInv(c, matches, saved, After(c.crypto, c.domain, chain, call))
    ensures Grows(chain, After(c.crypto, c.domain, chain, call))
  {
    ExecKeeps(c.crypto, c.domain, chain, call);
    CallStores(c.crypto, c.domain, chain, call);
    if call.Submit? && Refusal(c.crypto, c.domain, chain, call.s).None? {
      AcceptedTraced(c, matches, saved, issued, chain, call.s);
    }
  }

  // ---- Relayer ----

  ghost predicate MatchTraced(matches: map<Ref, Row>, m: RelayMatch) {
    exists r :: r in matches && matches[r].id == m.id && matches[r].canonicalId == m.canonicalId
  }

  ghost predicate FlightOk(matches: map<Ref, Row>, chain: Chain, sent: map<nat, Submission>, f: RelayFlight) {
    && (forall j :: 0 <= j < |f.todo| ==> MatchTraced(matches, f.todo[j]))
    && (f.phase.Waiting? ==> f.todo != [] && f.phase.tx in sent && sent[f.phase.tx] == Calldata(f.todo[0]))
    && (f.phase.Confirmed? ==> f.todo != [] && Calldata(f.todo[0]).matchId in chain.stored)
  }

  ghost predicate RelayInv(matches: map<Ref, Row>, chain: Chain, sent: map<nat, Submission>,
                           relayers: map<nat, RelayFlight>) {
    forall i :: i in relayers ==> FlightOk(matches, chain, sent, relayers[i])
  }

  ghost predicate ReceiptsInv(chain: Chain, sent: map<nat, Submission>, receipts: map<nat, bool>) {
    forall tx :: tx in receipts ==> tx in sent && (receipts[tx] ==> sent[tx].matchId in chain.stored)
  }

  /** A broadcasted row's identifier is on chain. */
  ghost predicate BroadcastedInv(matches: map<Ref, Row>, chain: Chain) {
    forall r :: r in matches && matches[r].status == BROADCASTED ==> RowHash(matches[r]) in chain.stored
  }

  ghost predicate SentGrows(sent: map<nat, Submission>, sent': map<nat, Submission>) {
    forall tx :: tx in sent ==> tx in sent' && sent'[tx] == sent[tx]
  }

  lemma RelayGrows(matches: map<Ref, Row>, chain: Chain, sent: map<nat, Submission>,
                   matches': map<Ref, Row>, chain': Chain, sent': map<nat, Submission>, relayers: map<nat, RelayFlight>)
    requires RelayInv(matches, chain, sent, relayers)
    requires RowsGrow(matches, matches') && Grows(chain, chain') && SentGrows(sent, sent')
    ensures RelayInv(matches', chain', sent', relayers)
  {
    forall i | i in relayers ensures FlightOk(matches', chain', sent', relayers[i]) {
      var f := relayers[i];
      assert FlightOk(matches, chain, sent, f);
      forall j | 0 <= j < |f.todo| ensures MatchTraced(matches', f.todo[j]) {
        assert MatchTraced(matches, f.todo[j]);
        var r :| r in matches && matches[r].id == f.todo[j].id && matches[r].canonicalId == f.todo[j].canonicalId;
        assert r in matches';
      }
    }
  }

  // ---- Queue, sync runs and passed days ----

  ghost predicate QueueInv(queue: map<Ref, QueueEntry>, retired: set<Uuid>) {
    UniqueEntryIds(queue) && forall r :: r in queue ==> queue[r].id !in retired
  }

  /** An entry a reconciler holds is still in the queue under its id, or was removed for good. */
  ghost predicate RecsInv(queue: map<Ref, QueueEntry>, retired: set<Uuid>, recs: map<nat, seq<PageRow>>) {
    forall i, j :: i in recs && 0 <= j < |recs[i]| ==>
      recs[i][j].id in retired || (recs[i][j].ref in queue && queue[recs[i][j].ref].id == recs[i][j].id)
  }

  /** Nothing once saved or queued is lost by the step from t to t'. */
  ghost predicate KeepsAccounted(t: Tables, t': Tables) {
    forall r :: Accounted(t, r) ==> Accounted(t', r)
  }

  ghost predicate FlightAccounts(c: Config, t: Tables, f: SyncFlight) {
    && f.stalePos <= |f.fetched| && f.savePos <= |Kept(f)| && f.queryDay <= f.today
    && (forall m :: m in f.fetched ==> FromApi(c, m, f.key.provider))
    && (!f.missed ==>
          && (forall j :: 0 <= j < f.stalePos && IsStale(f.fetched[j], f.staleNow) ==>
                Accounted(t, RefOf(f.fetched[j])))
          && (forall j :: 0 <= j < f.savePos && Kept(f)[j].status == FINISHED ==> Accounted(t, RefOf(Kept(f)[j]))))
    && (f.fallback ==> f.savePos < |Kept(f)|)
  }

  ghost predicate SyncsInv(c: Config, t: Tables, syncs: map<nat, SyncFlight>) {
    forall i :: i in syncs ==> FlightAccounts(c, t, syncs[i])
  }

  ghost predicate PassedInv(t: Tables, passed: set<Pass>) {
    forall p, m :: p in passed && p.clean && m in p.fetched ==> Accounted(t, RefOf(m))
  }

  lemma {:induction false} KeptOrStale(ms: seq<Match>, now: int)
    ensures forall m :: m in ms <==> m in Filtered(ms, now) || (m in ms && IsStale(m, now))
    ensures forall m :: m in Filtered(ms, now) ==> m in ms && !IsStale(m, now)
  {
    if ms == [] {
    } else {
      KeptOrStale(ms[..|ms| - 1], now);
    }
  }

  lemma AccountsGrow(c: Config, t: Tables, t': Tables, syncs: map<nat, SyncFlight>, passed: set<Pass>)
    requires SyncsInv(c, t, syncs) && PassedInv(t, passed) && KeepsAccounted(t, t')
    ensures SyncsInv(c, t', syncs) && PassedInv(t', passed)
  {
    forall i | i in syncs ensures FlightAccounts(c, t', syncs[i]) {
      assert FlightAccounts(c, t, syncs[i]);
    }
  }

  /** A run through with both loops, nothing missed and nothing in progress, has every match accounted for. */
  lemma DoneAccounts(c: Config, t: Tables, f: SyncFlight)
    requires FlightAccounts(c, t, f) && !f.missed && !HasInProgress(Kept(f))
    requires f.stalePos == |f.fetched| && f.savePos == |Kept(f)|
    ensures forall m :: m in f.fetched ==> Accounted(t, RefOf(m))
  {
    KeptOrStale(f.fetched, f.staleNow);
    forall m | m in f.fetched ensures Accounted(t, RefOf(m)) {
      if m in Kept(f) {
        var j :| 0 <= j < |Kept(f)| && Kept(f)[j] == m;
      } else {
        var j :| 0 <= j < |f.fetched| && f.fetched[j] == m;
      }
    }
  }

  /** A queue insert with a fresh id keeps ids unique, entries in place and matches accounted for. */
  lemma EnqueueKeeps(t: Tables, ref: Ref, try: EnqueueTry, retired: set<Uuid>, recs: map<nat, seq<PageRow>>)
    requires QueueInv(t.queue, retired) && RecsInv(t.queue, retired, recs) && try.id !in retired
    ensures var t' := t.(queue := Resolve(t.queue, Enqueue(t.queue, ref, try.id), try.outcome));
      && QueueInv(t'.queue, retired) && RecsInv(t'.queue, retired, recs) && KeepsAccounted(t, t')
      && (Enqueue(t.queue, ref, try.id).Some? && !try.outcome.Lost? ==> Accounted(t', ref))
  {
  }

  lemma TryKeeps(t: Tables, id: Uuid, o: Outcome, retired: set<Uuid>, recs: map<nat, seq<PageRow>>)
    requires QueueInv(t.queue, retired) && RecsInv(t.queue, retired, recs)
    ensures var t' := t.(queue := Resolve(t.queue, Some(IncrementTries(t.queue, id)), o));
      && QueueInv(t'.queue, retired) && RecsInv(t'.queue, retired, recs) && KeepsAccounted(t, t')
  {
  }

  /** Removing an entry together with the save of its own match loses nothing. */
  lemma DequeueKeeps(t: Tables, row: PageRow, m: Match, retired: set<Uuid>, recs: map<nat, seq<PageRow>>)
    requires QueueInv(t.queue, retired) && RecsInv(t.queue, retired, recs)
    requires row.id in retired || (row.ref in t.queue && t.queue[row.ref].id == row.id)
    requires RefOf(m) == row.ref && SaveAndDequeue(t, m, row.id).Some?
    ensures var t' := SaveAndDequeue(t, m, row.id).value;
      && QueueInv(t'.queue, retired + {row.id}) && RecsInv(t'.queue, retired + {row.id}, recs) && KeepsAccounted(t, t')
  {
  }
}
