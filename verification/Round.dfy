/** One round without faults or overlap: sync, sign, relay. */
module Round {
  import opened Wrappers
  import opened Bytes
  import opened Calendar
  import opened Entity
  import opened Eip712
  import opened Crypto
  import opened Oracle
  import opened Tables
  import opened Sync
  import opened Signer
  import opened Relayer
  import opened Pipeline
  import opened Invariants
  import opened Serial

  function RowOfMatch(m: Match): Row {
    Row(m.id, m.canonicalId, m.comp, m.home, m.away, m.start, m.status, m.homeScore, m.awayScore, None)
  }

  function DateCode(m: Match): uint32 {
    RelayerDateCode(m.start)
  }

  function MatchKey(m: Match): Key {
    Key(m.comp, m.home, m.away, DateCode(m))
  }

  /** Every row is well made, and no row but `ref`'s carries this identifier. */
  ghost predicate Alone(c: Config, matches: map<Ref, Row>, ref: Ref, canonicalId: string) {
    && UniqueRowIds(matches)
    && forall r :: r in matches ==> RowWellMade(c, matches[r]) && (r != ref ==> matches[r].canonicalId != canonicalId)
  }

  /** Every statement of the run is done. */
  ghost predicate Clean(r: SyncRun) {
    && WellFormed(r) && r.readOk && r.fetched.Some? && r.cursorWrite.Done?
    && (forall i :: 0 <= i < |r.stale| ==> r.stale[i].outcome.Done?)
    && AllDone(r.saves)
  }

  ghost predicate AllDone(tries: seq<SaveTry>) {
    forall i :: 0 <= i < |tries| ==> tries[i].save.Done? && tries[i].fallback.outcome.Done?
  }

  /** The match is not in the table yet, nor is its id, and nothing else returned is the same match. */
  ghost predicate NewIn(c: Config, matches: map<Ref, Row>, ms: seq<Match>, m: Match) {
    && Alone(c, matches, RefOf(m), m.canonicalId)
    && RefOf(m) !in matches && !RowIdTaken(matches, m.id)
    && (forall x :: x in ms ==> WellMade(c.crypto.keccak, x))
    && (forall x :: x in ms && x != m ==> RefOf(x) != RefOf(m) && x.id != m.id && x.canonicalId != m.canonicalId)
  }

  /** The contract would take the row's result from the authorised signer. */
  ghost predicate Deliverable(c: Config, chain: Chain, row: Row) {
    && row.home != row.away && 2010 <= row.start.year <= 2100
    && NameOf(chain.competitions, row.comp) != "" && NameOf(chain.teams, row.home) != ""
    && NameOf(chain.teams, row.away) != ""
    && row.homeScore <= 80 && row.awayScore <= 80
    && RowHash(row) !in chain.stored
  }

  /** The date code of such a row is one the contract takes. */
  lemma DeliverableKey(c: Config, chain: Chain, row: Row)
    requires RowWellMade(c, row) && Deliverable(c, chain, row)
    ensures KeyValid(chain, KeyOf(row))
  {
    hide ProviderDateCode, RowHash;
    DateCodesAgree(row.start);
    YearInRange(row.start);
  }

  /** Finished, or signed by this key for what the row says. */
  ghost predicate LeftBehind(c: Config, row: Row, key: Address) {
    row.status == FINISHED || (row.status == SIGNED && VerifiesFor(c, row, key))
  }

  // ---- Sync ----

  lemma SaveOneNew(c: Config, matches: map<Ref, Row>, x: Match, m: Match)
    requires Alone(c, matches, RefOf(m), m.canonicalId) && WellMade(c.crypto.keccak, x)
    requires x == m || (RefOf(x) != RefOf(m) && x.id != m.id && x.canonicalId != m.canonicalId)
    ensures Alone(c, Resolve(matches, Upsert(matches, x), Done), RefOf(m), m.canonicalId)
    ensures x != m && !RowIdTaken(matches, m.id) ==> !RowIdTaken(Resolve(matches, Upsert(matches, x), Done), m.id)
  {
    hide CanonicalId;
    if Upsert(matches, x).Some? {
      UpsertKeepsIds(matches, x);
    }
  }

  /** Through the save loop: the new match ends up as its own row, and alone with its identifier. */
  lemma {:induction false} SavedNew(c: Config, t: Tables, ms: seq<Match>, provider: int, tries: seq<SaveTry>, m: Match)
    requires NewIn(c, t.matches, ms, m) && m.status == FINISHED && Storable(m)
    requires |tries| == |ms| && AllDone(tries)
    ensures Alone(c, SaveMatches(t, ms, provider, tries).matches, RefOf(m), m.canonicalId)
    ensures m !in ms ==> RefOf(m) !in SaveMatches(t, ms, provider, tries).matches
    ensures m !in ms ==> !RowIdTaken(SaveMatches(t, ms, provider, tries).matches, m.id)
    ensures m in ms ==> RefOf(m) in SaveMatches(t, ms, provider, tries).matches
    ensures m in ms ==> SaveMatches(t, ms, provider, tries).matches[RefOf(m)] == RowOfMatch(m)
  {
    hide WellMade, Alone, Enqueue, RowIdTaken;
    if ms == [] {
    } else {
      var n := |ms| - 1;
      var front, x := ms[..n], ms[n];
      assert forall y :: y in ms <==> y in front || y == x;
      SavedNew(c, t, front, provider, tries[..n], m);
      var before := SaveMatches(t, front, provider, tries[..n]);
      SaveOneNew(c, before.matches, x, m);
      assert SaveMatches(t, ms, provider, tries).matches
          == if x.status == FINISHED then Resolve(before.matches, Upsert(before.matches, x), Done) else before.matches;
    }
  }

  lemma SyncedNew(c: Config, t: Tables, r: SyncRun, m: Match)
    requires Clean(r) && NewIn(c, t.matches, r.fetched.value, m) && m in r.fetched.value
    requires m.status == FINISHED && Storable(m)
    ensures Alone(c, AfterSync(t, r).matches, RefOf(m), m.canonicalId)
    ensures RefOf(m) in AfterSync(t, r).matches && AfterSync(t, r).matches[RefOf(m)] == RowOfMatch(m)
  {
    hide WellMade, Alone, RowIdTaken, SaveMatches;
    KeptOrStale(r.fetched.value, r.staleNow);
    var t1 := t.(queue := EnqueueAll(t.queue, r.fetched.value, r.key.provider, r.staleNow, r.stale));
    SavedNew(c, t1, Filtered(r.fetched.value, r.staleNow), r.key.provider, r.saves, m);
  }

  // ---- Sign ----

  function Dones(n: nat): seq<Outcome> {
    seq(n, _ => Done)
  }

  /** The rows after a signer run all of whose stores are done. */
  function AllSigned(c: Config, key: Address, matches: map<Ref, Row>, refs: seq<Ref>): map<Ref, Row>
    requires forall r :: r in refs ==> r in matches
  {
    SignAll(c.crypto, c.domain, key, matches, Items(matches, refs), Dones(|refs|))
  }

  function SignedRow(c: Config, key: Address, row: Row): Row {
    row.(signature := Signed(c.crypto, c.domain, key, ItemOf(row)), status := SIGNED)
  }

  /** The row as a fault-free signer run leaves it. */
  function ToRelay(c: Config, key: Address, row: Row): Row {
    if row.status == FINISHED then SignedRow(c, key, row) else row
  }

  /** A waiting row is ready for the relayer after the signer run, and still alone with its identifier. */
  lemma SignedWaiting(c: Config, matches: map<Ref, Row>, key: Address, refs: seq<Ref>, ref: Ref)
    requires Ideal(c.crypto, c.domain) && ref in matches && Alone(c, matches, ref, matches[ref].canonicalId)
    requires IsListing(matches, FINISHED, refs) && LeftBehind(c, matches[ref], key)
    requires matches[ref].homeScore <= 80 && matches[ref].awayScore <= 80
    ensures var after := AllSigned(c, key, matches, refs);
      && ref in after && after[ref] == ToRelay(c, key, matches[ref]) && after[ref].status == SIGNED
      && Alone(c, after, ref, matches[ref].canonicalId) && VerifiesFor(c, after[ref], key)
  {
    hide Signed, SignAll, CanonicalId, Ideal, HexDecode, TrimHexPrefix, VerifiesFor;
    var row := matches[ref];
    var after := AllSigned(c, key, matches, refs);
    RunIsolation(c.crypto, c.domain, key, matches, refs, Dones(|refs|), ref);
    forall r | r in after
      ensures RowWellMade(c, after[r]) && after[r].id == matches[r].id && after[r].canonicalId == matches[r].canonicalId
    {
      RunIsolation(c.crypto, c.domain, key, matches, refs, Dones(|refs|), r);
    }
    if row.status == FINISHED {
      RowHashIsKeyHash(c, row);
      SignedVerifies(c.crypto, c.domain, key, ItemOf(row));
      var j :| 0 <= j < |refs| && refs[j] == ref;
      assert !Dones(|refs|)[j].Lost?;
      FreshlySigned(c, key, row);
    }
  }

  // ---- Relay ----

  /** The relayer's transactions, in order, as the chain executes them. */
  function Calls(ms: seq<RelayMatch>): seq<Call> {
    seq(|ms|, i requires 0 <= i < |ms| => Submit(Calldata(ms[i])))
  }

  /**
    Without faults a transaction is sent and mined at once; one the contract would revert is either
    rejected by the node with the revert data (`rejects`) or mined and reverted.
   */
  function ResultOf(r: Result<Chain, Revert>, rejects: bool): BroadcastResult {
    if r.Ok? then Sent else if r.error.MatchAlreadySubmitted? && rejects then AlreadySubmitted else Failed
  }

  function Results(c: Config, chain: Chain, ms: seq<RelayMatch>, rejects: seq<bool>): seq<BroadcastResult>
    requires |rejects| == |ms|
  {
    seq(|ms|, i requires 0 <= i < |ms| =>
      ResultOf(Exec(c.crypto, c.domain, RunCalls(c.crypto, c.domain, chain, Calls(ms)[..i]), Submit(Calldata(ms[i]))),
               rejects[i]))
  }

  function RelayedMatches(c: Config, chain: Chain, matches: map<Ref, Row>, ms: seq<RelayMatch>, rejects: seq<bool>)
    : map<Ref, Row>
    requires |rejects| == |ms|
  {
    MarkAll(matches, ms, Results(c, chain, ms, rejects), Dones(|ms|))
  }

  /** Submissions of other matches leave an absent id absent and the signer in place. */
  lemma {:induction false} AbsentAfterOthers(c: Crypto, d: Domain, chain: Chain, calls: seq<Call>, id: bytes32)
    requires id !in chain.stored && forall i :: 0 <= i < |calls| ==> calls[i].Submit? && calls[i].s.matchId != id
    ensures id !in RunCalls(c, d, chain, calls).stored && RunCalls(c, d, chain, calls).signer == chain.signer
  {
    if calls == [] {
    } else {
      AbsentAfterOthers(c, d, chain, calls[..|calls| - 1], id);
      CallStores(c, d, RunCalls(c, d, chain, calls[..|calls| - 1]), calls[|calls| - 1]);
    }
  }

  lemma {:induction false} GrowsFromPrefix(c: Crypto, d: Domain, chain: Chain, calls: seq<Call>, i: nat)
    requires i <= |calls| && IdealHash(c.keccak, d) && ChainInv(c, chain)
    ensures Grows(RunCalls(c, d, chain, calls[..i]), RunCalls(c, d, chain, calls))
  {
    hide After, IdealHash, ChainInv;
    if i == |calls| {
      assert calls[..i] == calls;
    } else {
      var n := |calls| - 1;
      var front := calls[..n];
      GrowsFromPrefix(c, d, chain, front, i);
      assert front[..i] == calls[..i];
      RunKeeps(c, d, chain, front);
      ExecKeeps(c, d, RunCalls(c, d, chain, front), calls[n]);
      GrowsTransitive(RunCalls(c, d, chain, calls[..i]), RunCalls(c, d, chain, front), RunCalls(c, d, chain, calls));
    }
  }

  lemma {:induction false} ListedMatches(matches: map<Ref, Row>, refs: seq<Ref>)
    requires forall r :: r in refs ==> r in matches
    ensures forall r :: r in refs && RelayMatchOf(matches[r]).Some? ==>
      RelayMatchOf(matches[r]).value in SignedMatches(matches, refs)
    ensures forall x :: x in SignedMatches(matches, refs) ==>
      exists r :: r in refs && RelayMatchOf(matches[r]) == Some(x)
  {
    hide RelayMatchOf;
    if refs == [] {
    } else {
      ListedMatches(matches, refs[..|refs| - 1]);
    }
  }

  /** Any other match of the batch is submitted under another identifier. */
  lemma OthersDiffer(c: Config, matches: map<Ref, Row>, refs: seq<Ref>, ref: Ref, x: RelayMatch)
    requires ref in matches && Alone(c, matches, ref, matches[ref].canonicalId)
    requires (forall r :: r in refs ==> r in matches) && x in SignedMatches(matches, refs)
    requires Some(x) != RelayMatchOf(matches[ref])
    ensures Calldata(x).matchId != RowHash(matches[ref])
  {
    hide RowWellMade, HexDecode, HexToHash, SignedMatches, UniqueRowIds;
    ListedMatches(matches, refs);
    var r :| r in refs && RelayMatchOf(matches[r]) == Some(x);
    DifferentHashes(c, matches[r], matches[ref]);
  }

  lemma FirstIndex<T>(xs: seq<T>, x: T) returns (i: nat)
    requires x in xs
    ensures i < |xs| && xs[i] == x && forall j :: 0 <= j < i ==> xs[j] != x
  {
    i := 0;
    while xs[i] != x
      invariant i < |xs| && x in xs[i..] && forall j :: 0 <= j < i ==> xs[j] != x
      decreases |xs| - i
    {
      i := i + 1;
    }
  }

  /** The position of a row's own match in the batch, with only other identifiers before it. */
  lemma OwnPosition(c: Config, matches: map<Ref, Row>, refs: seq<Ref>, ref: Ref) returns (i: nat)
    requires ref in matches && Alone(c, matches, ref, matches[ref].canonicalId)
    requires (forall r :: r in refs ==> r in matches) && ref in refs && RelayMatchOf(matches[ref]).Some?
    ensures i < |SignedMatches(matches, refs)| && SignedMatches(matches, refs)[i] == RelayMatchOf(matches[ref]).value
    ensures forall j :: 0 <= j < i ==> Calldata(SignedMatches(matches, refs)[j]).matchId != RowHash(matches[ref])
  {
    hide Alone, RelayMatchOf, SignedMatches, Calldata, RowHash;
    ListedMatches(matches, refs);
    i := FirstIndex(SignedMatches(matches, refs), RelayMatchOf(matches[ref]).value);
    forall j | 0 <= j < i ensures Calldata(SignedMatches(matches, refs)[j]).matchId != RowHash(matches[ref]) {
      OthersDiffer(c, matches, refs, ref, SignedMatches(matches, refs)[j]);
    }
  }

  lemma DifferentHashes(c: Config, row: Row, other: Row)
    requires RowWellMade(c, row) && RowWellMade(c, other) && row.canonicalId != other.canonicalId
    ensures RowHash(row) != RowHash(other)
  {
    hide HexDecode, HexToHash, TrimHexPrefix;
    RowHashIsKeyHash(c, row);
    RowHashIsKeyHash(c, other);
    DateCodesAgree(row.start);
    DateCodesAgree(other.start);
  }

  /** The contract refuses nothing in the relayer's calldata for the row. */
  ghost predicate ReadyRow(c: Config, chain: Chain, row: Row) {
    RowWellMade(c, row) && VerifiesFor(c, row, chain.signer) && Deliverable(c, chain, row)
  }

  /** The contract takes the relayer's calldata for a ready row, as the row says it. */
  lemma CalldataTaken(c: Config, chain: Chain, chain': Chain, row: Row)
    requires ReadyRow(c, chain, row)
    requires Grows(chain, chain') && chain'.signer == chain.signer && RowHash(row) !in chain'.stored
    ensures Calldata(RelayMatchOf(row).value)
         == Submission(RowHash(row), KeyOf(row), row.homeScore, row.awayScore, RelayMatchOf(row).value.signature)
    ensures Refusal(c.crypto, c.domain, chain', Calldata(RelayMatchOf(row).value)).None?
  {
    hide SignatureRefusal, Grows, RelayMatchOf, RowHash, CanonicalId, VerifiesFor, RelayerDateCode;
    assert RelayMatchOf(row).Some? by { VerifiedDecodes(c, row, chain.signer); }
    VerifiedCalldata(c, row, chain.signer);
    RowHashIsKeyHash(c, row);
    DeliverableKey(c, chain, row);
    KeyValidGrows(chain, chain', KeyOf(row));
    var s := Calldata(RelayMatchOf(row).value);
    assert s == Submission(RowHash(row), KeyOf(row), row.homeScore, row.awayScore, s.signature);
  }

  lemma VerifiedDecodes(c: Config, row: Row, key: Address)
    requires VerifiesFor(c, row, key)
    ensures RelayMatchOf(row).Some?
  {
  }

  lemma MarkedAt(ms: seq<RelayMatch>, rs: seq<BroadcastResult>, os: seq<Outcome>, i: nat)
    requires |rs| == |os| == |ms| && i < |ms| && !rs[i].Failed? && !os[i].Lost?
    ensures Marked(ms, rs, os, ms[i].id)
  {
  }

  /** A submission taken in the middle of a run is stored at its end. */
  lemma TakenStays(c: Config, chain: Chain, calls: seq<Call>, i: nat, s: Submission)
    requires Ideal(c.crypto, c.domain) && ChainInv(c.crypto, chain) && i < |calls| && calls[i] == Submit(s)
    requires Refusal(c.crypto, c.domain, RunCalls(c.crypto, c.domain, chain, calls[..i]), s).None?
    ensures Exec(c.crypto, c.domain, RunCalls(c.crypto, c.domain, chain, calls[..i]), Submit(s)).Ok?
    ensures GetMatch(c.crypto, RunCalls(c.crypto, c.domain, chain, calls), s.key) == Entry(s.matchId, s.home, s.away)
  {
    hide ChainInv, IdealHash, IdealSign, SignatureRefusal;
    assert calls[..i + 1][..i] == calls[..i] && calls[..i + 1][i] == Submit(s);
    GrowsFromPrefix(c.crypto, c.domain, chain, calls, i + 1);
  }

  /** The own transaction of a ready row, behind others' only, is taken and its result stays. */
  lemma OwnTransaction(c: Config, chain: Chain, ms: seq<RelayMatch>, i: nat, row: Row)
    requires Ideal(c.crypto, c.domain) && ChainInv(c.crypto, chain) && ReadyRow(c, chain, row)
    requires i < |ms| && Some(ms[i]) == RelayMatchOf(row)
    requires forall j :: 0 <= j < i ==> Calldata(ms[j]).matchId != RowHash(row)
    ensures Exec(c.crypto, c.domain, RunCalls(c.crypto, c.domain, chain, Calls(ms)[..i]), Submit(Calldata(ms[i]))).Ok?
    ensures GetMatch(c.crypto, RunCalls(c.crypto, c.domain, chain, Calls(ms)), KeyOf(row))
            == Entry(RowHash(row), row.homeScore, row.awayScore)
  {
    hide CanonicalId, IdealHash, IdealSign, RelayMatchOf, ChainInv, KeyValid, VerifiesFor, RowWellMade,
      Exec, Oracle.After, Refusal, Calldata, RunCalls, GetMatch, RowHash, RelayerDateCode;
    var before := RunCalls(c.crypto, c.domain, chain, Calls(ms)[..i]);
    AbsentAfterOthers(c.crypto, c.domain, chain, Calls(ms)[..i], RowHash(row));
    RunKeeps(c.crypto, c.domain, chain, Calls(ms)[..i]);
    CalldataTaken(c, chain, before, row);
    TakenStays(c, chain, Calls(ms), i, Calldata(ms[i]));
  }

  /** The contract returns the row's own scores for its own four fields, and the row says so. */
  ghost predicate IsDelivered(c: Config, end: Chain, rows: map<Ref, Row>, ref: Ref, row: Row) {
    && row.homeScore <= 80 && row.awayScore <= 80
    && GetMatch(c.crypto, end, KeyOf(row)) == Entry(RowHash(row), row.homeScore, row.awayScore)
    && ref in rows && rows[ref] == row.(status := BROADCASTED)
  }

  /** The relayer's part of the round. */
  lemma Delivered(c: Config, chain: Chain, signed: map<Ref, Row>, ref: Ref, refs: seq<Ref>, rejects: seq<bool>)
    requires Ideal(c.crypto, c.domain) && ChainInv(c.crypto, chain)
    requires ref in signed && signed[ref].status == SIGNED && ReadyRow(c, chain, signed[ref])
    requires Alone(c, signed, ref, signed[ref].canonicalId)
    requires IsListing(signed, SIGNED, refs) && |rejects| == |SignedMatches(signed, refs)|
    ensures var ms := SignedMatches(signed, refs);
      IsDelivered(c, RunCalls(c.crypto, c.domain, chain, Calls(ms)),
                  RelayedMatches(c, chain, signed, ms, rejects), ref, signed[ref])
  {
    hide CanonicalId, Alone, KeyHash, Ideal, RelayMatchOf, SignedMatches, ChainInv, VerifiesFor, RowWellMade,
      Exec, Refusal, Marked, MarkAll, RowHash, Calldata, RunCalls, GetMatch, Calls, KeyValid, RelayerDateCode;
    var row := signed[ref];
    VerifiedDecodes(c, row, chain.signer);
    var ms := SignedMatches(signed, refs);
    var i := OwnPosition(c, signed, refs, ref);
    OwnTransaction(c, chain, ms, i, row);
    var rs := Results(c, chain, ms, rejects);
    assert rs[i] == Sent;
    MarkedAt(ms, rs, Dones(|ms|), i);
    RelayMatchId(row, ms[i]);
    BatchIsolation(signed, ms, rs, Dones(|ms|), ref);
  }

  lemma RelayMatchId(row: Row, x: RelayMatch)
    requires RelayMatchOf(row) == Some(x)
    ensures x.id == row.id
  {
  }

  // ---- The whole round ----

  /** The signer and the relayer work through what they find, and every statement of theirs is done. */
  ghost predicate SignAndRelay(c: Config, matches: map<Ref, Row>, key: Address, signRefs: seq<Ref>,
                               relayRefs: seq<Ref>, rejects: seq<bool>) {
    && IsListing(matches, FINISHED, signRefs)
    && (var signed := AllSigned(c, key, matches, signRefs);
        IsListing(signed, SIGNED, relayRefs) && |rejects| == |SignedMatches(signed, relayRefs)|)
  }

  /** Recovery needs the rows and the chain of the round; both are functions of what the round found. */
  function RoundMatches(c: Config, matches: map<Ref, Row>, key: Address, signRefs: seq<Ref>, relayRefs: seq<Ref>)
    : seq<RelayMatch>
    requires forall r :: r in signRefs ==> r in matches
    requires forall r :: r in relayRefs ==> r in AllSigned(c, key, matches, signRefs)
  {
    SignedMatches(AllSigned(c, key, matches, signRefs), relayRefs)
  }

  function RoundRows(c: Config, chain: Chain, matches: map<Ref, Row>, signRefs: seq<Ref>, relayRefs: seq<Ref>,
                     rejects: seq<bool>): map<Ref, Row>
    requires forall r :: r in signRefs ==> r in matches
    requires forall r :: r in relayRefs ==> r in AllSigned(c, chain.signer, matches, signRefs)
    requires |rejects| == |RoundMatches(c, matches, chain.signer, signRefs, relayRefs)|
  {
    var signed := AllSigned(c, chain.signer, matches, signRefs);
    RelayedMatches(c, chain, signed, RoundMatches(c, matches, chain.signer, signRefs, relayRefs), rejects)
  }

  /**
    Recovery: whatever earlier runs failed to do, a row left Finished, or left Signed by the authorised signer, that
    the contract would take and that is alone with its identifier is delivered by the next fault-free sign and relay,
    whatever else they carry and whatever becomes of it.
   */
  lemma Recovery(c: Config, chain: Chain, matches: map<Ref, Row>, ref: Ref, signRefs: seq<Ref>, relayRefs: seq<Ref>,
                 rejects: seq<bool>)
    requires Ideal(c.crypto, c.domain) && ChainInv(c.crypto, chain)
    requires ref in matches && Alone(c, matches, ref, matches[ref].canonicalId)
    requires LeftBehind(c, matches[ref], chain.signer) && Deliverable(c, chain, matches[ref])
    requires SignAndRelay(c, matches, chain.signer, signRefs, relayRefs, rejects)
    ensures var ms := RoundMatches(c, matches, chain.signer, signRefs, relayRefs);
      IsDelivered(c, RunCalls(c.crypto, c.domain, chain, Calls(ms)),
                  RoundRows(c, chain, matches, signRefs, relayRefs, rejects), ref,
                  ToRelay(c, chain.signer, matches[ref]))
  {
    hide KeyValid, Ideal, ChainInv, VerifiesFor, SignAll, RunCalls, MarkAll, SignedMatches, IsDelivered, Signed,
      RowHash;
    var signed := AllSigned(c, chain.signer, matches, signRefs);
    SignedWaiting(c, matches, chain.signer, signRefs, ref);
    SameIdentity(c, chain.signer, matches[ref]);
    assert ReadyRow(c, chain, signed[ref]);
    Delivered(c, chain, signed, ref, relayRefs, rejects);
  }

  /** Signing does not touch what identifies the row. */
  lemma SameIdentity(c: Config, key: Address, row: Row)
    ensures RowHash(ToRelay(c, key, row)) == RowHash(row) && KeyOf(ToRelay(c, key, row)) == KeyOf(row)
  {
    hide HexToHash, TrimHexPrefix, Signed;
  }

  /**
    A sync run without a failed statement returns the new finished match m, which the contract would take;
    the signer and the relayer then work through what they find.
   */
  ghost predicate RoundOf(c: Config, t: Tables, chain: Chain, r: SyncRun, m: Match, signRefs: seq<Ref>,
                          relayRefs: seq<Ref>, rejects: seq<bool>) {
    && Clean(r) && m in r.fetched.value && m.status == FINISHED && Storable(m)
    && NewIn(c, t.matches, r.fetched.value, m) && Deliverable(c, chain, RowOfMatch(m))
    && SignAndRelay(c, AfterSync(t, r).matches, chain.signer, signRefs, relayRefs, rejects)
  }

  /** A match is delivered as the row its first save gave it. */
  ghost predicate MatchDelivered(c: Config, key: Address, end: Chain, rows: map<Ref, Row>, m: Match) {
    && IsDelivered(c, end, rows, RefOf(m), SignedRow(c, key, RowOfMatch(m)))
    && m.homeScore <= 80 && m.awayScore <= 80
    && GetMatch(c.crypto, end, MatchKey(m)) == Entry(KeyHash(c.crypto.keccak, MatchKey(m)), m.homeScore, m.awayScore)
  }

  /**
    A round without faults delivers: a newly finished match whose ids are registered, whose date is in
    range and whose scores are at most 80 is on chain with its own scores, and its row is Broadcasted,
    whatever else the round carries and whatever becomes of it.
   */
  lemma FaultFreeRound(c: Config, t: Tables, chain: Chain, r: SyncRun, m: Match, signRefs: seq<Ref>,
                       relayRefs: seq<Ref>, rejects: seq<bool>)
    requires Ideal(c.crypto, c.domain) && ChainInv(c.crypto, chain)
    requires RoundOf(c, t, chain, r, m, signRefs, relayRefs, rejects)
    ensures var synced := AfterSync(t, r).matches;
      var ms := RoundMatches(c, synced, chain.signer, signRefs, relayRefs);
      MatchDelivered(c, chain.signer, RunCalls(c.crypto, c.domain, chain, Calls(ms)),
                     RoundRows(c, chain, synced, signRefs, relayRefs, rejects), m)
  {
    hide WellMade, CanonicalId, Alone, KeyValid, Signed, AfterSync, Ideal, AllDone, WellFormed, ChainInv, RunCalls,
      RoundMatches, RoundRows, SignAndRelay, RowHash;
    SyncedNew(c, t, r, m);
    Recovery(c, chain, AfterSync(t, r).matches, RefOf(m), signRefs, relayRefs, rejects);
    assert RowWellMade(c, RowOfMatch(m)) by { AloneWellMade(c, AfterSync(t, r).matches, RefOf(m)); }
    SameIdentity(c, chain.signer, RowOfMatch(m));
    RowHashIsKeyHash(c, RowOfMatch(m));
  }

  lemma AloneWellMade(c: Config, matches: map<Ref, Row>, ref: Ref)
    requires ref in matches && Alone(c, matches, ref, matches[ref].canonicalId)
    ensures RowWellMade(c, matches[ref])
  {
  }
}
