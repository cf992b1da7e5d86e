/** The pipeline's promises, over every sequence of actions from an initial state. */
module Guarantees {
  import opened Wrappers
  import opened Bytes
  import opened Entity
  import opened Eip712
  import opened Crypto
  import opened Oracle
  import opened Tables
  import opened Sync
  import opened Signer
  import opened Relayer
  import opened Pipeline
  import opened Invariants
  import opened Safety

  /** The row of x.ref stood in state s as finished with exactly x's scores. */
  ghost predicate StoodFinished(s: State, x: Saved) {
    && x.ref in s.tables.matches && s.tables.matches[x.ref].status == FINISHED
    && s.tables.matches[x.ref].homeScore == x.home && s.tables.matches[x.ref].awayScore == x.away
  }

  /** Passes stay on record, and a result enters the record only by the save that puts it in its row. */
  ghost predicate PastStep(s: State, s': State) {
    && s.past.passed <= s'.past.passed
    && forall x :: x in s'.past.saved ==> x in s.past.saved || StoodFinished(s', x)
  }

  lemma RecordPast(s: State, m: Match, o: Outcome)
    requires m.status == FINISHED
    ensures var written := Upsert(s.tables.matches, m);
      PastStep(s, Record(s, m, Resolve(s.tables.matches, written, o), written.None? || o.Lost?))
  {
  }

  lemma SyncSavePast(c: Config, s: State, i: nat, o: Outcome)
    requires SyncEnabled(c, s, SyncSave(i, o))
    ensures PastStep(s, SyncSaveNext(s, i, o))
  {
    hide Upsert, Filtered, WellMade;
    var m := Kept(s.syncs[i])[s.syncs[i].savePos];
    if m.status == FINISHED {
      RecordPast(s, m, o);
    }
  }

  lemma SyncPast(c: Config, s: State, a: Action)
    requires SyncEnabled(c, s, a)
    ensures PastStep(s, SyncNext(c, s, a))
  {
    hide SyncSaveNext, StoodFinished, Filtered, WellMade, Enqueue;
    if a.SyncSave? {
      SyncSavePast(c, s, a.i, a.o);
    }
  }

  lemma RecPast(c: Config, s: State, a: Action)
    requires RecEnabled(c, s, a)
    ensures PastStep(s, RecNext(c, s, a))
  {
    hide WellMade, IsPage;
    if a.RecSave? && SaveAndDequeue(s.tables, a.m, s.recs[a.i][0].id).Some? && !a.o.Lost? {
      assert StoodFinished(RecNext(c, s, a), Saved(RefOf(a.m), a.m.homeScore, a.m.awayScore));
    }
  }

  lemma SignPast(c: Config, s: State, a: Action)
    requires SignEnabled(c, s, a)
    ensures PastStep(s, SignNext(c, s, a))
  {
    hide SignerDigest, SignOne, IsListing, StoodFinished;
  }

  lemma RelayPast(c: Config, s: State, a: Action)
    requires RelayEnabled(c, s, a)
    ensures PastStep(s, RelayNext(c, s, a))
  {
    hide MarkOne, Exec, IsListing, StoodFinished, SignedMatches;
  }

  lemma ChainPast(c: Config, s: State, a: Action)
    requires ChainEnabled(c, s, a)
    ensures PastStep(s, ChainNext(c, s, a))
  {
    hide Exec, Oracle.After, Unforged, StoodFinished;
  }

  lemma NextPast(c: Config, s: State, a: Action)
    requires Enabled(c, s, a)
    ensures PastStep(s, Next(c, s, a))
  {
    hide PastStep, SyncEnabled, RecEnabled, SignEnabled, RelayEnabled, ChainEnabled,
      SyncNext, RecNext, SignNext, RelayNext, ChainNext;
    if SyncEnabled(c, s, a) {
      SyncPast(c, s, a);
    } else if RecEnabled(c, s, a) {
      RecPast(c, s, a);
    } else if SignEnabled(c, s, a) {
      SignPast(c, s, a);
    } else if RelayEnabled(c, s, a) {
      RelayPast(c, s, a);
    } else {
      ChainPast(c, s, a);
    }
  }

  /** State n of a run. */
  ghost function StateAt(c: Config, s: State, actions: seq<Action>, n: nat): Option<State>
    requires n <= |actions|
  {
    RunFrom(c, s, actions[..n])
  }

  /** The result stood in its row, finished, in state n of the run. */
  ghost predicate StoodAt(c: Config, s: State, actions: seq<Action>, n: nat, x: Saved)
    requires n <= |actions|
  {
    StateAt(c, s, actions, n).Some? && StoodFinished(StateAt(c, s, actions, n).value, x)
  }

  /** Every recorded result stood in its row, finished, at some point of the run. */
  lemma {:induction false} SavedOnce(c: Config, s: State, actions: seq<Action>, x: Saved)
    requires s.past.saved == {} && RunFrom(c, s, actions).Some? && x in RunFrom(c, s, actions).value.past.saved
    ensures exists n :: 0 <= n <= |actions| && StoodAt(c, s, actions, n, x)
  {
    hide Enabled, Next, StoodFinished;
    if actions == [] {
    } else {
      var k := |actions| - 1;
      var front := actions[..k];
      var before := RunFrom(c, s, front).value;
      if x in before.past.saved {
        SavedOnce(c, s, front, x);
        var n :| 0 <= n <= k && StoodAt(c, s, front, n, x);
        assert actions[..n] == front[..n];
        assert StoodAt(c, s, actions, n, x);
      } else {
        NextPast(c, before, actions[k]);
        assert actions[..|actions|] == actions;
        assert StoodAt(c, s, actions, |actions|, x);
      }
    }
  }

  /**
    End-to-end provenance: whatever the interleaving, the failures and the outside callers, every entry
    on chain is of at most 80 each, has a row with its identifier, and that row at some point of the run
    stood finished with exactly the entry's scores.
   */
  lemma EndToEndProvenance(c: Config, s: State, actions: seq<Action>, id: bytes32)
    requires Init(c, s) && RunFrom(c, s, actions).Some? && id in RunFrom(c, s, actions).value.chain.stored
    ensures var end := RunFrom(c, s, actions).value;
      var entry := end.chain.stored[id];
      && entry.matchId == id && entry.home <= 80 && entry.away <= 80
      && (exists r, n :: r in end.tables.matches && RowHash(end.tables.matches[r]) == id
            && 0 <= n <= |actions| && StoodAt(c, s, actions, n, Saved(r, entry.home, entry.away)))
  {
    InitInv(c, s);
    Reachable(c, s, actions);
    var end := RunFrom(c, s, actions).value;
    var entry := end.chain.stored[id];
    assert EntryValid(c.crypto, end.chain, id) && EntryTraced(end.tables.matches, end.past.saved, id, entry);
    var r :| r in end.tables.matches && RowHash(end.tables.matches[r]) == id
      && Saved(r, entry.home, entry.away) in end.past.saved;
    SavedOnce(c, s, actions, Saved(r, entry.home, entry.away));
  }

  /** A row is Broadcasted only while getMatch on its own four fields finds an entry. */
  lemma BroadcastedIsOnChain(c: Config, s: State, actions: seq<Action>, r: Ref)
    requires Init(c, s) && RunFrom(c, s, actions).Some? && r in RunFrom(c, s, actions).value.tables.matches
    ensures var end := RunFrom(c, s, actions).value;
      var row := end.tables.matches[r];
      && (row.status == FINISHED || row.status == SIGNED || row.status == BROADCASTED)
      && (row.status == BROADCASTED ==>
            && RowHash(row) in end.chain.stored
            && GetMatch(c.crypto, end.chain, KeyOf(row)) == end.chain.stored[RowHash(row)]
            && GetMatch(c.crypto, end.chain, KeyOf(row)).matchId == RowHash(row) != ZERO32)
  {
    InitInv(c, s);
    Reachable(c, s, actions);
    var end := RunFrom(c, s, actions).value;
    assert RowOk(c, end.past.saved, r, end.tables.matches[r]);
    RowHashIsKeyHash(c, end.tables.matches[r]);
    if end.tables.matches[r].status == BROADCASTED {
      assert EntryValid(c.crypto, end.chain, RowHash(end.tables.matches[r]));
      assert KeyHash(c.crypto.keccak, KeyOf(end.tables.matches[r])) != ZERO32;
    }
  }

  lemma {:induction false} PassedStays(c: Config, s: State, actions: seq<Action>, n: nat)
    requires n <= |actions| && RunFrom(c, s, actions).Some?
    ensures StateAt(c, s, actions, n).Some?
    ensures StateAt(c, s, actions, n).value.past.passed <= RunFrom(c, s, actions).value.past.passed
  {
    hide Enabled, Next;
    if n == |actions| {
      assert actions[..n] == actions;
    } else {
      var k := |actions| - 1;
      PassedStays(c, s, actions[..k], n);
      assert actions[..k][..n] == actions[..n];
      NextPast(c, RunFrom(c, s, actions[..k]).value, actions[k]);
    }
  }

  /**
    No lost match: once a run has passed a day with every enqueue and every save-or-enqueue taken, each
    match it was returned is in the matches table or the queue, in that state and in every later one.
   */
  lemma NoLostMatch(c: Config, s: State, actions: seq<Action>, n: nat, p: Pass, m: Match)
    requires Init(c, s) && n <= |actions| && RunFrom(c, s, actions).Some?
    requires StateAt(c, s, actions, n).Some? && p in StateAt(c, s, actions, n).value.past.passed
    requires p.clean && m in p.fetched
    ensures Accounted(RunFrom(c, s, actions).value.tables, RefOf(m))
  {
    InitInv(c, s);
    Reachable(c, s, actions);
    PassedStays(c, s, actions, n);
  }
}
