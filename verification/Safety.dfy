/** Every action keeps the invariant; hence the pipeline's guarantees hold in every reachable state. */
module Safety {
  import opened Wrappers
  import opened Bytes
  import opened Entity
  import opened Eip712
  import opened Crypto
  import opened Oracle
  import opened Tables
  import opened Sync
  import opened Signer
  import opened Relayer
  import opened Pipeline
  import opened Invariants

  ghost predicate Inv(c: Config, s: State) {
    && Ideal(c.crypto, c.domain)
    && RowsInv(c, s.tables.matches, s.past.saved)
    && QueueInv(s.tables.queue, s.past.retired)
    && SignersInv(c, s.tables.matches, s.past.saved, s.signers)
    && IssuedInv(c, s.tables.matches, s.past.saved, s.past.issued)
    && StoredInv(c, s.tables.matches, s.past.saved, s.chain)
    && RelayInv(s.tables.matches, s.chain, s.sent, s.relayers)
    && ReceiptsInv(s.chain, s.sent, s.receipts)
    && BroadcastedInv(s.tables.matches, s.chain)
    && RecsInv(s.tables.queue, s.past.retired, s.recs)
    && SyncsInv(c, s.tables, s.syncs)
    && PassedInv(s.tables, s.past.passed)
  }

  lemma InitInv(c: Config, s: State)
    requires Init(c, s)
    ensures Inv(c, s)
  {
  }

  // ---- Changes of one part ----

  /** A change of rows that keeps identities, records its results and marks only what is on chain. */
  lemma RowsChange(c: Config, s: State, matches: map<Ref, Row>, saved: set<Saved>)
    requires Inv(c, s) && RowsInv(c, matches, saved) && RowsGrow(s.tables.matches, matches) && s.past.saved <= saved
    requires BroadcastedInv(matches, s.chain)
    ensures Inv(c, s.(tables := s.tables.(matches := matches), past := s.past.(saved := saved)))
  {
    hide Ideal, RowsInv, QueueInv, SignersInv, IssuedInv, StoredInv, RelayInv, ReceiptsInv, BroadcastedInv,
      RecsInv, SyncsInv, PassedInv;
    var m, v := s.tables.matches, s.past.saved;
    SignersGrow(c, m, v, matches, saved, s.signers);
    IssuedGrows(c, m, v, matches, saved, s.past.issued);
    StoredGrows(c, m, v, matches, saved, s.chain);
    RelayGrows(m, s.chain, s.sent, matches, s.chain, s.sent, s.relayers);
    AccountsGrow(c, s.tables, s.tables.(matches := matches), s.syncs, s.past.passed);
  }

  lemma QueueChange(c: Config, s: State, queue: map<Ref, QueueEntry>)
    requires Inv(c, s) && QueueInv(queue, s.past.retired) && RecsInv(queue, s.past.retired, s.recs)
    requires KeepsAccounted(s.tables, s.tables.(queue := queue))
    ensures Inv(c, s.(tables := s.tables.(queue := queue)))
  {
    hide Ideal, RowsInv, QueueInv, SignersInv, IssuedInv, StoredInv, RelayInv, ReceiptsInv, BroadcastedInv,
      RecsInv, SyncsInv, PassedInv;
    AccountsGrow(c, s.tables, s.tables.(queue := queue), s.syncs, s.past.passed);
  }

  /** A save of a finished match, taken or not. */
  lemma SaveChange(c: Config, s: State, m: Match, o: Outcome)
    requires Inv(c, s) && WellMade(c.crypto.keccak, m) && m.status == FINISHED
    ensures var written := Upsert(s.tables.matches, m);
      Inv(c, Record(s, m, Resolve(s.tables.matches, written, o), written.None? || o.Lost?))
  {
    hide Ideal, RowsInv, QueueInv, SignersInv, IssuedInv, StoredInv, RelayInv, ReceiptsInv, RecsInv, SyncsInv,
      PassedInv, WellMade, RowsGrow;
    var written := Upsert(s.tables.matches, m);
    if written.Some? && !o.Lost? {
      UpsertKeepsRows(c, s.tables.matches, s.past.saved, m);
      RowsChange(c, s, written.value, s.past.saved + {Saved(RefOf(m), m.homeScore, m.awayScore)});
    } else {
      assert s.(tables := s.tables.(matches := s.tables.matches)) == s;
    }
  }

  // ---- Sync ----

  lemma SyncFlightChange(c: Config, s: State, i: nat, f: SyncFlight)
    requires Inv(c, s) && FlightAccounts(c, s.tables, f)
    ensures Inv(c, s.(syncs := s.syncs[i := f]))
  {
    hide Ideal, RowsInv, QueueInv, SignersInv, IssuedInv, StoredInv, RelayInv, ReceiptsInv, BroadcastedInv,
      RecsInv, PassedInv, FlightAccounts;
  }

  lemma EnqueueChange(c: Config, s: State, ref: Ref, try: EnqueueTry)
    requires Inv(c, s) && FreshTry(s, try)
    ensures var t' := s.tables.(queue := Resolve(s.tables.queue, Enqueue(s.tables.queue, ref, try.id), try.outcome));
      && Inv(c, s.(tables := t'))
      && (Enqueue(s.tables.queue, ref, try.id).Some? && !try.outcome.Lost? ==> Accounted(t', ref))
  {
    hide Ideal, RowsInv, QueueInv, SignersInv, IssuedInv, StoredInv, RelayInv, ReceiptsInv, BroadcastedInv,
      RecsInv, SyncsInv, PassedInv, Enqueue, KeepsAccounted;
    EnqueueKeeps(s.tables, ref, try, s.past.retired, s.recs);
    QueueChange(c, s, Resolve(s.tables.queue, Enqueue(s.tables.queue, ref, try.id), try.outcome));
  }

  /** The stale loop moves on, its match being accounted for when it is a stale one not missed. */
  lemma FlightStaled(c: Config, t: Tables, f: SyncFlight, missed: bool)
    requires FlightAccounts(c, t, f) && f.stalePos < |f.fetched| && (f.missed ==> missed)
    requires !missed && IsStale(f.fetched[f.stalePos], f.staleNow) ==>
      Accounted(t, Ref(f.key.provider, f.fetched[f.stalePos].pmid))
    ensures FlightAccounts(c, t, f.(stalePos := f.stalePos + 1, missed := missed))
  {
    hide Filtered, IsStale, WellMade;
    assert f.fetched[f.stalePos] in f.fetched;
  }

  lemma SyncStaleKeeps(c: Config, s: State, i: nat, try: EnqueueTry)
    requires Inv(c, s) && SyncEnabled(c, s, SyncStale(i, try))
    ensures Inv(c, SyncStaleNext(s, i, try))
  {
    hide Ideal, RowsInv, QueueInv, SignersInv, IssuedInv, StoredInv, RelayInv, ReceiptsInv, BroadcastedInv,
      RecsInv, PassedInv, Enqueue, IsStale, FlightAccounts, Accounted, FreshTry;
    var f := s.syncs[i];
    var m := f.fetched[f.stalePos];
    assert FlightAccounts(c, s.tables, f);
    var s' := SyncStaleNext(s, i, try);
    if IsStale(m, f.staleNow) {
      EnqueueChange(c, s, Ref(f.key.provider, m.pmid), try);
      var s1 := s.(tables := s'.tables);
      assert FlightAccounts(c, s1.tables, f);
      FlightStaled(c, s1.tables, f, s'.syncs[i].missed);
      SyncFlightChange(c, s1, i, s'.syncs[i]);
    } else {
      FlightStaled(c, s.tables, f, f.missed);
      SyncFlightChange(c, s, i, s'.syncs[i]);
    }
  }

  lemma KeptFromApi(c: Config, t: Tables, f: SyncFlight, j: nat)
    requires FlightAccounts(c, t, f) && j < |Kept(f)|
    ensures FromApi(c, Kept(f)[j], f.key.provider)
  {
    hide Ideal, RowsInv, QueueInv, SignersInv, IssuedInv, StoredInv, RelayInv, ReceiptsInv, BroadcastedInv,
      RecsInv, SyncsInv, PassedInv, WellMade, Filtered;
    KeptOrStale(f.fetched, f.staleNow);
    assert Kept(f)[j] in Kept(f);
  }

  /** The save loop moves on, its match being accounted for when it is a finished one. */
  lemma FlightSaved(c: Config, t: Tables, f: SyncFlight)
    requires FlightAccounts(c, t, f) && f.savePos < |Kept(f)| && !f.fallback
    requires Kept(f)[f.savePos].status == FINISHED ==> Accounted(t, RefOf(Kept(f)[f.savePos]))
    ensures FlightAccounts(c, t, f.(savePos := f.savePos + 1))
  {
    hide Filtered, IsStale, WellMade;
  }

  lemma FlightFallsBack(c: Config, t: Tables, f: SyncFlight)
    requires FlightAccounts(c, t, f) && f.savePos < |Kept(f)|
    ensures FlightAccounts(c, t, f.(fallback := true))
  {
    hide Filtered, IsStale, WellMade;
  }

  lemma FromApiWellMade(c: Config, m: Match, provider: int)
    requires FromApi(c, m, provider)
    ensures WellMade(c.crypto.keccak, m)
  {
  }

  lemma UpsertAccounts(matches: map<Ref, Row>, m: Match)
    requires Upsert(matches, m).Some?
    ensures RefOf(m) in Upsert(matches, m).value
  {
  }

  lemma SyncSaveKeeps(c: Config, s: State, i: nat, o: Outcome)
    requires Inv(c, s) && SyncEnabled(c, s, SyncSave(i, o))
    ensures Inv(c, SyncSaveNext(s, i, o))
  {
    hide Ideal, RowsInv, QueueInv, SignersInv, IssuedInv, StoredInv, RelayInv, ReceiptsInv, BroadcastedInv,
      RecsInv, PassedInv, Filtered, IsStale, WellMade, Upsert, FromApi, FlightAccounts;
    var f := s.syncs[i];
    var m := Kept(f)[f.savePos];
    assert FlightAccounts(c, s.tables, f);
    KeptFromApi(c, s.tables, f, f.savePos);
    var s' := SyncSaveNext(s, i, o);
    if m.status != FINISHED {
      FlightSaved(c, s.tables, f);
      SyncFlightChange(c, s, i, s'.syncs[i]);
    } else {
      assert WellMade(c.crypto.keccak, m) by { FromApiWellMade(c, m, f.key.provider); }
      SaveChange(c, s, m, o);
      var written := Upsert(s.tables.matches, m);
      var s1 := Record(s, m, Resolve(s.tables.matches, written, o), written.None? || o.Lost?);
      assert FlightAccounts(c, s1.tables, f);
      if Succeeds(written, o) {
        UpsertAccounts(s.tables.matches, m);
        FlightSaved(c, s1.tables, f);
      } else {
        FlightFallsBack(c, s1.tables, f);
      }
      SyncFlightChange(c, s1, i, s'.syncs[i]);
    }
  }

  lemma SyncFallbackKeeps(c: Config, s: State, i: nat, try: EnqueueTry)
    requires Inv(c, s) && SyncEnabled(c, s, SyncFallback(i, try))
    ensures Inv(c, SyncNext(c, s, SyncFallback(i, try)))
  {
    hide Ideal, RowsInv, QueueInv, SignersInv, IssuedInv, StoredInv, RelayInv, ReceiptsInv, BroadcastedInv,
      RecsInv, PassedInv, Enqueue, Filtered, IsStale, WellMade;
    var f := s.syncs[i];
    var m := Kept(f)[f.savePos];
    KeptFromApi(c, s.tables, f, f.savePos);
    var s' := SyncNext(c, s, SyncFallback(i, try));
    EnqueueChange(c, s, RefOf(m), try);
    var s1 := s.(tables := s'.tables);
    assert FlightAccounts(c, s1.tables, f);
    SyncFlightChange(c, s1, i, s'.syncs[i]);
    assert s' == s1.(syncs := s1.syncs[i := s'.syncs[i]]);
  }

  lemma CursorsChange(c: Config, s: State, cursors: map<CursorKey, int>, passed: set<Pass>)
    requires Inv(c, s) && PassedInv(s.tables, passed)
    ensures Inv(c, s.(tables := s.tables.(cursors := cursors), past := s.past.(passed := passed)))
  {
    hide Ideal, RowsInv, QueueInv, SignersInv, IssuedInv, StoredInv, RelayInv, ReceiptsInv, BroadcastedInv,
      RecsInv, SyncsInv, PassedInv, FlightAccounts, RefOf;
    var t' := s.tables.(cursors := cursors);
    assert KeepsAccounted(s.tables, t');
    AccountsGrow(c, s.tables, t', s.syncs, passed);
  }

  lemma SyncCursorKeeps(c: Config, s: State, i: nat, o: Outcome)
    requires Inv(c, s) && SyncEnabled(c, s, SyncCursor(i, o))
    ensures Inv(c, SyncCursorNext(s, i, o))
  {
    hide Ideal, RowsInv, QueueInv, SignersInv, IssuedInv, StoredInv, RelayInv, ReceiptsInv, BroadcastedInv,
      RecsInv, Filtered, IsStale, WellMade;
    var f := s.syncs[i];
    var s' := SyncCursorNext(s, i, o);
    if !f.missed && !HasInProgress(Kept(f)) {
      DoneAccounts(c, s.tables, f);
    }
    CursorsChange(c, WithoutSync(s, i), s'.tables.cursors, s'.past.passed);
    assert s' == WithoutSync(s, i).(
      tables := s.tables.(cursors := s'.tables.cursors), past := s.past.(passed := s'.past.passed));
  }

  lemma SyncBeginKeeps(c: Config, s: State, i: nat, key: CursorKey, now: int, staleNow: int, fetched: seq<Match>)
    requires Inv(c, s) && SyncEnabled(c, s, SyncBegin(i, key, now, staleNow, fetched))
    ensures Inv(c, SyncNext(c, s, SyncBegin(i, key, now, staleNow, fetched)))
  {
    hide Ideal, RowsInv, QueueInv, SignersInv, IssuedInv, StoredInv, RelayInv, ReceiptsInv, BroadcastedInv,
      RecsInv, SyncsInv, PassedInv, Filtered, WellMade;
    SyncFlightChange(c, s, i, SyncNext(c, s, SyncBegin(i, key, now, staleNow, fetched)).syncs[i]);
  }

  lemma SyncStopKeeps(c: Config, s: State, i: nat)
    requires Inv(c, s)
    ensures Inv(c, WithoutSync(s, i))
  {
    hide Ideal, RowsInv, QueueInv, SignersInv, IssuedInv, StoredInv, RelayInv, ReceiptsInv, BroadcastedInv,
      RecsInv, PassedInv, FlightAccounts;
  }

  lemma SyncKeeps(c: Config, s: State, a: Action)
    requires Inv(c, s) && SyncEnabled(c, s, a)
    ensures Inv(c, SyncNext(c, s, a))
  {
    hide Ideal, RowsInv, QueueInv, SignersInv, IssuedInv, StoredInv, RelayInv, ReceiptsInv, BroadcastedInv,
      RecsInv, SyncsInv, PassedInv, Inv, Filtered, SyncStaleNext, SyncSaveNext, SyncCursorNext, WithoutSync;
    match a
    case SyncBegin(i, key, now, staleNow, fetched) => SyncBeginKeeps(c, s, i, key, now, staleNow, fetched);
    case SyncStale(i, try) => SyncStaleKeeps(c, s, i, try);
    case SyncSave(i, o) => SyncSaveKeeps(c, s, i, o);
    case SyncFallback(i, try) => SyncFallbackKeeps(c, s, i, try);
    case SyncCursor(i, o) => SyncCursorKeeps(c, s, i, o);
    case SyncStop(i) => SyncStopKeeps(c, s, i);
  }

  // ---- Reconcile ----

  lemma RecFlightChange(c: Config, s: State, i: nat, page: seq<PageRow>)
    requires Inv(c, s)
    requires forall row :: row in page ==>
      row.id in s.past.retired || (row.ref in s.tables.queue && s.tables.queue[row.ref].id == row.id)
    ensures Inv(c, s.(recs := s.recs[i := page]))
  {
    hide Ideal, RowsInv, QueueInv, SignersInv, IssuedInv, StoredInv, RelayInv, ReceiptsInv, BroadcastedInv,
      SyncsInv, PassedInv;
  }

  lemma RecRestChange(c: Config, s: State, i: nat)
    requires Inv(c, s) && i in s.recs && s.recs[i] != []
    ensures Inv(c, s.(recs := s.recs[i := s.recs[i][1..]]))
  {
    hide Ideal, RowsInv, QueueInv, SignersInv, IssuedInv, StoredInv, RelayInv, ReceiptsInv, BroadcastedInv,
      SyncsInv, PassedInv;
    forall row | row in s.recs[i][1..]
      ensures row.id in s.past.retired || (row.ref in s.tables.queue && s.tables.queue[row.ref].id == row.id)
    {
      var j :| 0 <= j < |s.recs[i]| && s.recs[i][j] == row;
    }
    RecFlightChange(c, s, i, s.recs[i][1..]);
  }

  /** The commit of a save and a removal. */
  lemma CommitChange(c: Config, s: State, row: PageRow, m: Match)
    requires Inv(c, s) && FromApi(c, m, row.ref.provider) && m.status == FINISHED && RefOf(m) == row.ref
    requires row.id in s.past.retired || (row.ref in s.tables.queue && s.tables.queue[row.ref].id == row.id)
    requires SaveAndDequeue(s.tables, m, row.id).Some?
    ensures Inv(c, s.(
      tables := SaveAndDequeue(s.tables, m, row.id).value,
      past := s.past.(saved := s.past.saved + {Saved(RefOf(m), m.homeScore, m.awayScore)},
                      retired := s.past.retired + {row.id})))
  {
    hide Ideal, RowsInv, QueueInv, SignersInv, IssuedInv, StoredInv, RelayInv, ReceiptsInv, BroadcastedInv,
      RecsInv, SyncsInv, PassedInv, WellMade, FlightAccounts;
    SaveChange(c, s, m, Done);
    var s1 := Record(s, m, Upsert(s.tables.matches, m).value, false);
    DequeueKeeps(s.tables, row, m, s.past.retired, s.recs);
    var t' := SaveAndDequeue(s.tables, m, row.id).value;
    assert t' == s1.tables.(queue := t'.queue);
    assert KeepsAccounted(s1.tables, t') by {
      assert RefOf(m) in t'.matches;
    }
    AccountsGrow(c, s1.tables, t', s.syncs, s.past.passed);
  }

  lemma RecKeeps(c: Config, s: State, a: Action)
    requires Inv(c, s) && RecEnabled(c, s, a)
    ensures Inv(c, RecNext(c, s, a))
  {
    hide Ideal, RowsInv, QueueInv, SignersInv, IssuedInv, StoredInv, RelayInv, ReceiptsInv, BroadcastedInv,
      SyncsInv, PassedInv, WellMade, Upsert;
    match a
    case RecBegin(i, page) =>
      forall row | row in page ensures row.ref in s.tables.queue && s.tables.queue[row.ref].id == row.id {
        var j :| 0 <= j < |page| && page[j] == row;
      }
      RecFlightChange(c, s, i, page);
    case RecTry(i, o) =>
      var s1 := s.(recs := s.recs[i := s.recs[i][1..]]);
      RecRestChange(c, s, i);
      TryKeeps(s.tables, s.recs[i][0].id, o, s.past.retired, s1.recs);
      QueueChange(c, s1, RecNext(c, s, a).tables.queue);
    case RecSave(i, m, o) =>
      var s1 := s.(recs := s.recs[i := s.recs[i][1..]]);
      RecRestChange(c, s, i);
      if SaveAndDequeue(s.tables, m, s.recs[i][0].id).Some? && !o.Lost? {
        CommitChange(c, s1, s.recs[i][0], m);
      }
    case RecStop(i) =>
  }

  // ---- Signer ----

  lemma ListedTraced(c: Config, s: State, refs: seq<Ref>, status: int)
    requires Inv(c, s) && IsListing(s.tables.matches, status, refs)
    ensures forall j :: 0 <= j < |refs| ==>
      ItemTraced(s.tables.matches, s.past.saved, Items(s.tables.matches, refs)[j])
  {
    hide Ideal, QueueInv, SignersInv, IssuedInv, StoredInv, RelayInv, ReceiptsInv, BroadcastedInv, RecsInv,
      SyncsInv, PassedInv, RowWellMade;
    forall j | 0 <= j < |refs| ensures ItemTraced(s.tables.matches, s.past.saved, Items(s.tables.matches, refs)[j]) {
      assert RowOk(c, s.past.saved, refs[j], s.tables.matches[refs[j]]);
    }
  }

  lemma IssueChange(c: Config, s: State, key: Address, item: SignItem)
    requires Inv(c, s) && ItemTraced(s.tables.matches, s.past.saved, item)
    requires SignerDigest(c.crypto.keccak, c.domain, item.canonicalId, item.home, item.away).Some?
    ensures var digest := SignerDigest(c.crypto.keccak, c.domain, item.canonicalId, item.home, item.away).value;
      Inv(c, s.(past := s.past.(issued := s.past.issued + {(key, digest)})))
  {
    hide Ideal, RowsInv, QueueInv, SignersInv, StoredInv, RelayInv, ReceiptsInv, BroadcastedInv, RecsInv,
      SyncsInv, PassedInv, SignerDigest, DigestTraced, ItemTraced;
    SignedDigestTraced(c, s.tables.matches, s.past.saved, item);
  }

  lemma StoreChange(c: Config, s: State, key: Address, item: SignItem, o: Outcome)
    requires Inv(c, s) && key in c.keys && ItemTraced(s.tables.matches, s.past.saved, item)
    ensures Inv(c, s.(tables := s.tables.(
      matches := SignOne(c.crypto, c.domain, key, s.tables.matches, item, o))))
  {
    hide Ideal, RowsInv, QueueInv, SignersInv, IssuedInv, StoredInv, RelayInv, ReceiptsInv, RecsInv, SyncsInv,
      PassedInv, Signed, RowsGrow, ItemTraced;
    var signature := Signed(c.crypto, c.domain, key, item);
    var matches := SignOne(c.crypto, c.domain, key, s.tables.matches, item, o);
    if signature.Some? && !o.Lost? {
      StoreKeepsRows(c, s.tables.matches, s.past.saved, key, item);
      RowsChange(c, s, matches, s.past.saved);
      assert s.past.(saved := s.past.saved) == s.past;
    }
  }

  lemma SignStepKeeps(c: Config, s: State, i: nat, o: Outcome)
    requires Inv(c, s) && SignEnabled(c, s, SignStep(i, o))
    ensures Inv(c, SignStepNext(c, s, i, o))
  {
    hide Ideal, RowsInv, QueueInv, IssuedInv, StoredInv, RelayInv, ReceiptsInv, BroadcastedInv, RecsInv,
      SyncsInv, PassedInv, SignerDigest, SignOne, ItemTraced;
    var f := s.signers[i];
    var item := f.todo[0];
    var digest := SignerDigest(c.crypto.keccak, c.domain, item.canonicalId, item.home, item.away);
    var s1 := s.(signers := s.signers[i := f.(todo := f.todo[1..])]);
    assert forall j :: 0 <= j < |f.todo[1..]| ==> f.todo[1..][j] == f.todo[j + 1];
    assert Inv(c, s1);
    var s2 := if digest.None? then s1 else s1.(past := s1.past.(issued := s1.past.issued + {(f.key, digest.value)}));
    if digest.Some? {
      IssueChange(c, s1, f.key, item);
    }
    StoreChange(c, s2, f.key, item, o);
  }

  lemma SignKeeps(c: Config, s: State, a: Action)
    requires Inv(c, s) && SignEnabled(c, s, a)
    ensures Inv(c, SignNext(c, s, a))
  {
    hide Ideal, RowsInv, QueueInv, IssuedInv, StoredInv, RelayInv, ReceiptsInv, BroadcastedInv, RecsInv,
      SyncsInv, PassedInv, SignStepNext;
    match a
    case SignBegin(i, signer, refs) => ListedTraced(c, s, refs, FINISHED);
    case SignStep(i, o) => SignStepKeeps(c, s, i, o);
    case SignStop(i) =>
  }

  // ---- Relayer ----

  lemma RelayFlightChange(c: Config, s: State, i: nat, f: RelayFlight)
    requires Inv(c, s) && FlightOk(s.tables.matches, s.chain, s.sent, f)
    ensures Inv(c, s.(relayers := s.relayers[i := f]))
  {
    hide Ideal, RowsInv, QueueInv, SignersInv, IssuedInv, StoredInv, ReceiptsInv, BroadcastedInv, RecsInv,
      SyncsInv, PassedInv, FlightOk;
  }

  lemma RestOk(c: Config, s: State, i: nat)
    requires Inv(c, s) && i in s.relayers && s.relayers[i].todo != []
    ensures FlightOk(s.tables.matches, s.chain, s.sent, Rest(s.relayers[i]))
  {
    hide Ideal, RowsInv, QueueInv, SignersInv, IssuedInv, StoredInv, ReceiptsInv, BroadcastedInv, RecsInv,
      SyncsInv, PassedInv, MatchTraced, Calldata;
    var f := s.relayers[i];
    assert FlightOk(s.tables.matches, s.chain, s.sent, f);
    assert forall j :: 0 <= j < |f.todo| - 1 ==> f.todo[1..][j] == f.todo[j + 1];
  }

  lemma {:induction false} SignedMatchesTraced(matches: map<Ref, Row>, refs: seq<Ref>)
    requires forall r :: r in refs ==> r in matches
    ensures forall m :: m in SignedMatches(matches, refs) ==> MatchTraced(matches, m)
  {
    if refs == [] {
    } else {
      SignedMatchesTraced(matches, refs[..|refs| - 1]);
    }
  }

  lemma SendChange(c: Config, s: State, tx: nat, sub: Submission)
    requires Inv(c, s) && tx !in s.sent
    ensures Inv(c, s.(sent := s.sent[tx := sub]))
  {
    hide Ideal, RowsInv, QueueInv, SignersInv, IssuedInv, StoredInv, RelayInv, BroadcastedInv, RecsInv,
      SyncsInv, PassedInv;
    RelayGrows(s.tables.matches, s.chain, s.sent, s.tables.matches, s.chain, s.sent[tx := sub], s.relayers);
  }

  lemma MarkChange(c: Config, s: State, m: RelayMatch, o: Outcome)
    requires Inv(c, s) && MatchTraced(s.tables.matches, m) && Calldata(m).matchId in s.chain.stored
    ensures Inv(c, s.(tables := s.tables.(matches := MarkOne(s.tables.matches, m, Sent, o))))
  {
    hide Ideal, QueueInv, SignersInv, IssuedInv, StoredInv, RelayInv, ReceiptsInv, RecsInv, SyncsInv,
      PassedInv, RowOk, RowsGrow, RelayMatchOf, HexToHash;
    var written := MarkBroadcasted(s.tables.matches, m.id);
    if written.Some? && !o.Lost? {
      MarkKeepsRows(c, s.tables.matches, s.past.saved, m.id);
      var r :| r in s.tables.matches && s.tables.matches[r].id == m.id
        && s.tables.matches[r].canonicalId == m.canonicalId;
      forall q | q in written.value && written.value[q].status == BROADCASTED
        ensures RowHash(written.value[q]) in s.chain.stored
      {
        assert s.tables.matches[q].id == m.id ==> q == r;
      }
      RowsChange(c, s, written.value, s.past.saved);
      assert s.past.(saved := s.past.saved) == s.past;
    }
  }

  lemma RelaySendKeeps(c: Config, s: State, i: nat, tx: nat, reported: bool)
    requires Inv(c, s) && RelayEnabled(c, s, RelaySend(i, tx, reported))
    ensures Inv(c, RelayNext(c, s, RelaySend(i, tx, reported)))
  {
    hide Ideal, RowsInv, QueueInv, SignersInv, IssuedInv, StoredInv, ReceiptsInv, BroadcastedInv, RecsInv,
      SyncsInv, PassedInv, MatchTraced, Calldata;
    var f := s.relayers[i];
    var s1 := s.(sent := s.sent[tx := Calldata(f.todo[0])]);
    SendChange(c, s, tx, Calldata(f.todo[0]));
    RestOk(c, s1, i);
    assert FlightOk(s1.tables.matches, s1.chain, s1.sent, f);
    RelayFlightChange(c, s1, i, if reported then f.(phase := Waiting(tx)) else Rest(f));
  }

  lemma RelayKeeps(c: Config, s: State, a: Action)
    requires Inv(c, s) && RelayEnabled(c, s, a)
    ensures Inv(c, RelayNext(c, s, a))
  {
    hide Ideal, RowsInv, QueueInv, SignersInv, IssuedInv, StoredInv, BroadcastedInv, RecsInv, SyncsInv,
      PassedInv, MatchTraced, Calldata, Exec, SignedMatches, MarkOne;
    match a
    case RelayBegin(i, refs) =>
      SignedMatchesTraced(s.tables.matches, refs);
      RelayFlightChange(c, s, i, RelayFlight(SignedMatches(s.tables.matches, refs), Ready));
    case RelaySend(i, tx, reported) => RelaySendKeeps(c, s, i, tx, reported);
    case RelayAlready(i) =>
      var f := s.relayers[i];
      assert FlightOk(s.tables.matches, s.chain, s.sent, f);
      AlreadyMeansStored(c, s.chain, Calldata(f.todo[0]));
      RelayFlightChange(c, s, i, f.(phase := Confirmed));
    case RelayReceipt(i) =>
      var f := s.relayers[i];
      assert FlightOk(s.tables.matches, s.chain, s.sent, f);
      RestOk(c, s, i);
      RelayFlightChange(c, s, i, RelayNext(c, s, a).relayers[i]);
    case RelayFail(i) =>
      RestOk(c, s, i);
      RelayFlightChange(c, s, i, Rest(s.relayers[i]));
    case RelayMark(i, o) =>
      var f := s.relayers[i];
      assert FlightOk(s.tables.matches, s.chain, s.sent, f);
      RestOk(c, s, i);
      RelayFlightChange(c, s, i, Rest(f));
      MarkChange(c, s.(relayers := s.relayers[i := Rest(f)]), f.todo[0], o);
    case RelayStop(i) =>
  }

  lemma AlreadyMeansStored(c: Config, chain: Chain, s: Submission)
    requires Exec(c.crypto, c.domain, chain, Submit(s)) == Err(MatchAlreadySubmitted(s.matchId))
    ensures s.matchId in chain.stored
  {
  }

  // ---- Chain ----

  lemma CallChange(c: Config, s: State, call: Call)
    requires Inv(c, s)
    requires call.Submit? ==> Unforged(c, s.past.issued, call.s)
    requires call.Rotate? ==> call.newSigner in c.keys
    ensures Inv(c, s.(chain := After(c.crypto, c.domain, s.chain, call)))
    ensures Grows(s.chain, After(c.crypto, c.domain, s.chain, call))
  {
    hide Ideal, RowsInv, QueueInv, SignersInv, IssuedInv, StoredInv, RelayInv, RecsInv, SyncsInv, PassedInv,
      After, Unforged;
    CallKeepsStored(c, s.tables.matches, s.past.saved, s.past.issued, s.chain, call);
    RelayGrows(s.tables.matches, s.chain, s.sent,
               s.tables.matches, After(c.crypto, c.domain, s.chain, call), s.sent, s.relayers);
  }

  lemma AcceptedIsStored(c: Config, chain: Chain, s: Submission)
    requires Exec(c.crypto, c.domain, chain, Submit(s)).Ok?
    ensures s.matchId in After(c.crypto, c.domain, chain, Submit(s)).stored
  {
  }

  lemma ChainKeeps(c: Config, s: State, a: Action)
    requires Inv(c, s) && ChainEnabled(c, s, a)
    ensures Inv(c, ChainNext(c, s, a))
  {
    hide Ideal, RowsInv, QueueInv, SignersInv, IssuedInv, StoredInv, RelayInv, BroadcastedInv, RecsInv,
      SyncsInv, PassedInv, Unforged, Exec;
    match a
    case Mine(tx) =>
      CallChange(c, s, Submit(s.sent[tx]));
      if Exec(c.crypto, c.domain, s.chain, Submit(s.sent[tx])).Ok? {
        AcceptedIsStored(c, s.chain, s.sent[tx]);
      }
    case Outside(call) => CallChange(c, s, call);
  }

  // ---- Every run ----

  lemma NextKeeps(c: Config, s: State, a: Action)
    requires Inv(c, s) && Enabled(c, s, a)
    ensures Inv(c, Next(c, s, a))
  {
    hide Ideal, RowsInv, QueueInv, SignersInv, IssuedInv, StoredInv, RelayInv, ReceiptsInv, BroadcastedInv,
      RecsInv, SyncsInv, PassedInv, SyncEnabled, RecEnabled, SignEnabled, RelayEnabled, SyncNext, RecNext,
      SignNext, RelayNext, ChainNext;
    if SyncEnabled(c, s, a) {
      SyncKeeps(c, s, a);
    } else if RecEnabled(c, s, a) {
      RecKeeps(c, s, a);
    } else if SignEnabled(c, s, a) {
      SignKeeps(c, s, a);
    } else if RelayEnabled(c, s, a) {
      RelayKeeps(c, s, a);
    } else {
      ChainKeeps(c, s, a);
    }
  }

  lemma {:induction false} Reachable(c: Config, s: State, actions: seq<Action>)
    requires Inv(c, s) && RunFrom(c, s, actions).Some?
    ensures Inv(c, RunFrom(c, s, actions).value)
  {
    hide Ideal, RowsInv, QueueInv, SignersInv, IssuedInv, StoredInv, RelayInv, ReceiptsInv, BroadcastedInv,
      RecsInv, SyncsInv, PassedInv, Enabled, Next, Inv;
    if actions == [] {
    } else {
      var n := |actions| - 1;
      Reachable(c, s, actions[..n]);
      NextKeeps(c, RunFrom(c, s, actions[..n]).value, actions[n]);
    }
  }
}
