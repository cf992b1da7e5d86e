/** How long a Signed row stays as it is: until a save of its match, or a mark that needs its identifier on chain. */
module Waiting {
  import opened Wrappers
  import opened Bytes
  import opened Entity
  import opened Eip712
  import opened Crypto
  import opened Oracle
  import opened Tables
  import opened Sync
  import opened Signer
  import opened Relayer
  import opened Pipeline
  import opened Invariants
  import opened Safety
  import opened Guarantees
  import opened Round
  import opened Paths
  import opened Limits

  /** The match of which the action saves a result, if the save takes. */
  function SavedRef(s: State, a: Action): Option<Ref> {
    match a
    case SyncSave(i, o) =>
      if i in s.syncs && s.syncs[i].savePos < |Kept(s.syncs[i])| then
        var m := Kept(s.syncs[i])[s.syncs[i].savePos];
        if m.status == FINISHED && Upsert(s.tables.matches, m).Some? && !o.Lost? then Some(RefOf(m)) else None
      else None
    case RecSave(_, m, o) => if Upsert(s.tables.matches, m).Some? && !o.Lost? then Some(RefOf(m)) else None
    case _ => None
  }

  /** The id under which the action marks a row, if the update takes. */
  function MarkedId(s: State, a: Action): Option<Uuid> {
    match a
    case RelayMark(i, o) =>
      if i in s.relayers && s.relayers[i].todo != [] && !o.Lost? then Some(s.relayers[i].todo[0].id) else None
    case _ => None
  }

  /** No signer run has the row in its snapshot. */
  ghost predicate NoSignerHolds(s: State, id: Uuid) {
    forall i, j :: i in s.signers && 0 <= j < |s.signers[i].todo| ==> s.signers[i].todo[j].id != id
  }

  /** The step leaves the row alone, but for a save of its match and a mark of its id. */
  ghost predicate OnlyTouched(s: State, a: Action, s': State, ref: Ref)
    requires ref in s.tables.matches
  {
    var row := s.tables.matches[ref];
    && ref in s'.tables.matches
    && (s'.tables.matches[ref] != row <==> SavedRef(s, a) == Some(ref) || MarkedId(s, a) == Some(row.id))
    && NoSignerHolds(s', row.id)
  }

  ghost predicate WaitingRow(s: State, ref: Ref) {
    && ref in s.tables.matches && s.tables.matches[ref].status == SIGNED
    && NoSignerHolds(s, s.tables.matches[ref].id)
  }

  lemma UpsertTouches(matches: map<Ref, Row>, m: Match, ref: Ref)
    requires ref in matches && matches[ref].status == SIGNED && m.status == FINISHED && Upsert(matches, m).Some?
    ensures ref in Upsert(matches, m).value && (Upsert(matches, m).value[ref] != matches[ref] <==> RefOf(m) == ref)
  {
  }

  lemma SaveTouches(s: State, i: nat, o: Outcome, ref: Ref)
    requires WaitingRow(s, ref) && i in s.syncs && s.syncs[i].savePos < |Kept(s.syncs[i])|
    ensures OnlyTouched(s, SyncSave(i, o), SyncSaveNext(s, i, o), ref)
  {
    hide Kept, Upsert, Succeeds;
    var m := Kept(s.syncs[i])[s.syncs[i].savePos];
    if m.status == FINISHED && Upsert(s.tables.matches, m).Some? {
      UpsertTouches(s.tables.matches, m, ref);
    }
  }

  /** The same rows and signer runs, and an action that neither saves nor marks. */
  lemma NothingTouched(s: State, a: Action, s': State, ref: Ref)
    requires WaitingRow(s, ref) && s'.tables.matches == s.tables.matches && s'.signers == s.signers
    requires SavedRef(s, a) != Some(ref) && MarkedId(s, a).None?
    ensures OnlyTouched(s, a, s', ref)
  {
    hide SavedRef, MarkedId;
  }

  lemma SyncTouches(c: Config, s: State, a: Action, ref: Ref)
    requires WaitingRow(s, ref) && SyncEnabled(c, s, a)
    ensures OnlyTouched(s, a, SyncNext(c, s, a), ref)
  {
    hide Filtered, WellMade, Enqueue, Upsert, HasInProgress, WaitingRow, OnlyTouched, SyncSaveNext;
    if a.SyncSave? {
      SaveTouches(s, a.i, a.o, ref);
    } else {
      NothingTouched(s, a, SyncNext(c, s, a), ref);
    }
  }

  lemma RecTouches(c: Config, s: State, a: Action, ref: Ref)
    requires WaitingRow(s, ref) && RecEnabled(c, s, a)
    ensures OnlyTouched(s, a, RecNext(c, s, a), ref)
  {
    hide WellMade, Upsert, IsPage, OnlyTouched, WaitingRow;
    if SavedRef(s, a).Some? {
      CommitTouches(s, a.i, a.m, a.o, ref);
    } else {
      NothingTouched(s, a, RecNext(c, s, a), ref);
    }
  }

  lemma CommitTouches(s: State, i: nat, m: Match, o: Outcome, ref: Ref)
    requires WaitingRow(s, ref) && i in s.recs && s.recs[i] != [] && m.status == FINISHED
    requires Upsert(s.tables.matches, m).Some? && !o.Lost?
    ensures OnlyTouched(s, RecSave(i, m, o), RecSaveNext(s, i, m, o), ref)
  {
    hide Upsert, MarkReconciled;
    UpsertTouches(s.tables.matches, m, ref);
  }

  lemma SignTouches(c: Config, s: State, a: Action, ref: Ref)
    requires WaitingRow(s, ref) && SignEnabled(c, s, a) && UniqueRowIds(s.tables.matches)
    ensures OnlyTouched(s, a, SignNext(c, s, a), ref)
  {
    hide SignerDigest, Signed;
  }

  lemma RelayTouches(c: Config, s: State, a: Action, ref: Ref)
    requires WaitingRow(s, ref) && RelayEnabled(c, s, a)
    ensures OnlyTouched(s, a, RelayNext(c, s, a), ref)
  {
    hide Exec, IsListing, SignedMatches, Calldata;
  }

  lemma ChainTouches(c: Config, s: State, a: Action, ref: Ref)
    requires WaitingRow(s, ref) && ChainEnabled(c, s, a)
    ensures OnlyTouched(s, a, ChainNext(c, s, a), ref)
  {
    hide Exec, Oracle.After, Unforged;
  }

  lemma UniqueIds(c: Config, s: State)
    requires Inv(c, s)
    ensures UniqueRowIds(s.tables.matches) && Ideal(c.crypto, c.domain) && ChainInv(c.crypto, s.chain)
  {
    hide Ideal, RowOk, QueueInv, SignersInv, IssuedInv, RelayInv, ReceiptsInv, BroadcastedInv, RecsInv,
      SyncsInv, PassedInv, UniqueRowIds, ChainInv, EntryTraced;
  }

  /**
    A Signed row that no signer run holds is changed by a step exactly when that is a taken save of its match or a
    taken mark of its id; and no signer run comes to hold it.
   */
  lemma ChangedIff(c: Config, s: State, a: Action, ref: Ref)
    requires Inv(c, s) && Enabled(c, s, a) && WaitingRow(s, ref)
    ensures OnlyTouched(s, a, Next(c, s, a), ref)
  {
    UniqueIds(c, s);
    hide Inv, OnlyTouched, WaitingRow, SyncEnabled, RecEnabled, SignEnabled, RelayEnabled, ChainEnabled,
      SyncNext, RecNext, SignNext, RelayNext, ChainNext, UniqueRowIds;
    if SyncEnabled(c, s, a) {
      SyncTouches(c, s, a, ref);
    } else if RecEnabled(c, s, a) {
      RecTouches(c, s, a, ref);
    } else if SignEnabled(c, s, a) {
      SignTouches(c, s, a, ref);
    } else if RelayEnabled(c, s, a) {
      RelayTouches(c, s, a, ref);
    } else {
      ChainTouches(c, s, a, ref);
    }
  }

  // ---- While the identifier is not on chain ----

  /** What relay runs and the node work on. */
  function RelayPart(s: State): (Chain, map<nat, Submission>, map<nat, bool>, map<nat, RelayFlight>) {
    (s.chain, s.sent, s.receipts, s.relayers)
  }

  lemma SyncLeavesRelay(c: Config, s: State, a: Action)
    requires SyncEnabled(c, s, a)
    ensures RelayPart(SyncNext(c, s, a)) == RelayPart(s)
  {
    hide Filtered, WellMade, Enqueue, Upsert, HasInProgress;
  }

  lemma RecLeavesRelay(c: Config, s: State, a: Action)
    requires RecEnabled(c, s, a)
    ensures RelayPart(RecNext(c, s, a)) == RelayPart(s)
  {
    hide Upsert, IsPage, WellMade;
  }

  lemma SignLeavesRelay(c: Config, s: State, a: Action)
    requires SignEnabled(c, s, a)
    ensures RelayPart(SignNext(c, s, a)) == RelayPart(s)
  {
    hide SignerDigest, SignOne, IsListing;
  }

  /** Sync runs, reconcilers and signers leave the relay part alone. */
  lemma OthersLeaveRelay(c: Config, s: State, a: Action)
    requires Enabled(c, s, a)
    ensures RelayEnabled(c, s, a) || ChainEnabled(c, s, a) || RelayPart(Next(c, s, a)) == RelayPart(s)
  {
    hide SyncEnabled, RecEnabled, SignEnabled, RelayEnabled, ChainEnabled, SyncNext, RecNext, SignNext, RelayNext,
      ChainNext, RelayPart;
    if SyncEnabled(c, s, a) {
      SyncLeavesRelay(c, s, a);
    } else if RecEnabled(c, s, a) {
      RecLeavesRelay(c, s, a);
    } else if SignEnabled(c, s, a) {
      SignLeavesRelay(c, s, a);
    }
  }

  /** The processes' actions are their own. */
  lemma ActsAlone(c: Config, s: State, a: Action)
    requires Enabled(c, s, a)
    ensures RelayEnabled(c, s, a) ==> Next(c, s, a) == RelayNext(c, s, a) && !ChainEnabled(c, s, a)
    ensures ChainEnabled(c, s, a) ==> Next(c, s, a) == ChainNext(c, s, a) && !RelayEnabled(c, s, a)
    ensures a.RelayMark? ==> RelayEnabled(c, s, a)
  {
    hide WellMade, Kept, IsPage, IsListing, Exec, Unforged, SyncNext, RecNext, SignNext, RelayNext, ChainNext;
  }

  lemma RelayLeavesChain(c: Config, s: State, a: Action)
    requires RelayEnabled(c, s, a)
    ensures RelayNext(c, s, a).chain == s.chain
  {
    hide MarkOne, Exec, IsListing, SignedMatches, Calldata;
  }

  lemma ChainOnlyGrows(c: Config, s: State, a: Action)
    requires Inv(c, s) && Enabled(c, s, a)
    ensures Grows(s.chain, Next(c, s, a).chain)
  {
    hide Inv, Ideal, ChainInv, Grows, Enabled, Next, RelayEnabled, RelayNext, Exec, Oracle.After, Unforged;
    UniqueIds(c, s);
    GrowsItself(s.chain);
    ActsAlone(c, s, a);
    OthersLeaveRelay(c, s, a);
    if RelayEnabled(c, s, a) {
      RelayLeavesChain(c, s, a);
    } else if ChainEnabled(c, s, a) {
      MinedGrows(c, s.chain, if a.Mine? then Submit(s.sent[a.tx]) else a.call);
    }
  }

  lemma MinedGrows(c: Config, chain: Chain, call: Call)
    requires Ideal(c.crypto, c.domain) && ChainInv(c.crypto, chain)
    ensures Grows(chain, After(c.crypto, c.domain, chain, call))
  {
    hide IdealHash, IdealSign, ChainInv, Grows, Oracle.After;
    ExecKeeps(c.crypto, c.domain, chain, call);
  }

  /** Only what is on chain is marked. */
  lemma MarkedIsStored(c: Config, s: State, a: Action, ref: Ref)
    requires Inv(c, s) && Enabled(c, s, a) && ref in s.tables.matches
    requires MarkedId(s, a) == Some(s.tables.matches[ref].id)
    ensures s.relayers[a.i].phase.Confirmed? && RowHash(s.tables.matches[ref]) in s.chain.stored
  {
    hide Ideal, QueueInv, SignersInv, IssuedInv, StoredInv, ReceiptsInv, BroadcastedInv, RecsInv, SyncsInv,
      PassedInv, RowOk, HexToHash, TrimHexPrefix, Enabled, Next, ChainEnabled;
    ActsAlone(c, s, a);
    var f := s.relayers[a.i];
    assert FlightOk(s.tables.matches, s.chain, s.sent, f);
    assert MatchTraced(s.tables.matches, f.todo[0]);
  }

  ghost predicate NeverSaved(c: Config, s: State, actions: seq<Action>, ref: Ref) {
    forall n :: 0 <= n < |actions| && StateAt(c, s, actions, n).Some? ==>
      SavedRef(StateAt(c, s, actions, n).value, actions[n]) != Some(ref)
  }

  /**
    Over any run from a reachable state, a Signed row that no signer run holds stays exactly as it is until a save of
    its match takes or its identifier comes on chain.
   */
  lemma {:induction false} SignedUntilSaved(c: Config, s: State, actions: seq<Action>, ref: Ref)
    requires Inv(c, s) && WaitingRow(s, ref) && RunFrom(c, s, actions).Some? && NeverSaved(c, s, actions, ref)
    requires RowHash(s.tables.matches[ref]) !in RunFrom(c, s, actions).value.chain.stored
    ensures var end := RunFrom(c, s, actions).value;
      WaitingRow(end, ref) && end.tables.matches[ref] == s.tables.matches[ref]
  {
    hide Enabled, Next, Inv, RowHash, SavedRef, NoSignerHolds;
    if actions == [] {
    } else {
      var n := |actions| - 1;
      var front, a := actions[..n], actions[n];
      assert forall k :: 0 <= k <= n ==> front[..k] == actions[..k];
      var before := RunFrom(c, s, front).value;
      Reachable(c, s, front);
      ChainOnlyGrows(c, before, a);
      SignedUntilSaved(c, s, front, ref);
      ChangedIff(c, before, a, ref);
      assert StateAt(c, s, actions, n) == Some(before);
      if MarkedId(before, a) == Some(s.tables.matches[ref].id) {
        MarkedIsStored(c, before, a, ref);
      }
    }
  }

  // ---- Once the identifier is on chain ----

  /** No relay run holds a success for the row: neither a confirmation, nor a transaction that was or may be taken. */
  ghost predicate NoSuccessHeld(s: State, id: Uuid) {
    forall i :: i in s.relayers && s.relayers[i].todo != [] && s.relayers[i].todo[0].id == id ==>
      RevertsOnly(s.receipts, s.relayers[i].phase)
  }

  ghost predicate RevertsOnly(receipts: map<nat, bool>, phase: Phase) {
    !phase.Confirmed? && (phase.Waiting? && phase.tx in receipts ==> !receipts[phase.tx])
  }

  /** The node rejects the row's transaction as a duplicate. */
  predicate RejectsRow(s: State, a: Action, id: Uuid) {
    && a.RelayAlready? && a.i in s.relayers && s.relayers[a.i].todo != []
    && s.relayers[a.i].todo[0].id == id
  }

  lemma RelayKeepsNoSuccess(c: Config, s: State, a: Action, id: Uuid)
    requires RelayEnabled(c, s, a) && NoSuccessHeld(s, id) && !RejectsRow(s, a, id) && s.receipts.Keys <= s.sent.Keys
    ensures NoSuccessHeld(RelayNext(c, s, a), id)
  {
    hide MarkOne, Exec, IsListing, SignedMatches, Calldata;
  }

  /** What a flight waits for is its row's transaction, which reverts when the identifier is on chain. */
  lemma ChainKeepsNoSuccess(c: Config, s: State, a: Action, ref: Ref)
    requires Inv(c, s) && ChainEnabled(c, s, a) && ref in s.tables.matches
    requires NoSuccessHeld(s, s.tables.matches[ref].id) && RowHash(s.tables.matches[ref]) in s.chain.stored
    ensures NoSuccessHeld(ChainNext(c, s, a), s.tables.matches[ref].id)
  {
    hide Ideal, QueueInv, SignersInv, IssuedInv, ReceiptsInv, BroadcastedInv, RecsInv, SyncsInv, PassedInv,
      RowOk, HexToHash, TrimHexPrefix, Exec, Oracle.After, Unforged, ChainInv, EntryTraced;
    var row := s.tables.matches[ref];
    if a.Mine? {
      var s' := ChainNext(c, s, a);
      forall i | i in s.relayers && s.relayers[i].todo != [] && s.relayers[i].todo[0].id == row.id
        ensures RevertsOnly(s'.receipts, s'.relayers[i].phase)
      {
        var f := s.relayers[i];
        assert FlightOk(s.tables.matches, s.chain, s.sent, f) && MatchTraced(s.tables.matches, f.todo[0]);
        assert RevertsOnly(s.receipts, f.phase);
        if f.phase == Waiting(a.tx) {
          StoredReverts(c, s.chain, s.sent[a.tx]);
        }
      }
    }
  }

  lemma StoredReverts(c: Config, chain: Chain, s: Submission)
    requires Ideal(c.crypto, c.domain) && ChainInv(c.crypto, chain) && s.matchId in chain.stored
    ensures Exec(c.crypto, c.domain, chain, Submit(s)).Err?
  {
    hide IdealHash, IdealSign, ChainInv, Exec, Grows;
    GrowsItself(chain);
    DuplicateReverts(c.crypto, c.domain, chain, chain, s);
  }

  lemma NoSuccessKept(c: Config, s: State, a: Action, ref: Ref)
    requires Inv(c, s) && Enabled(c, s, a) && ref in s.tables.matches
    requires NoSuccessHeld(s, s.tables.matches[ref].id) && RowHash(s.tables.matches[ref]) in s.chain.stored
    requires !RejectsRow(s, a, s.tables.matches[ref].id)
    ensures NoSuccessHeld(Next(c, s, a), s.tables.matches[ref].id)
  {
    SentKnown(c, s);
    hide Inv, Enabled, Next, RelayEnabled, ChainEnabled, RelayNext, ChainNext, RowHash, RejectsRow, RevertsOnly;
    ActsAlone(c, s, a);
    OthersLeaveRelay(c, s, a);
    if RelayEnabled(c, s, a) {
      RelayKeepsNoSuccess(c, s, a, s.tables.matches[ref].id);
    } else if ChainEnabled(c, s, a) {
      ChainKeepsNoSuccess(c, s, a, ref);
    }
  }

  lemma SentKnown(c: Config, s: State)
    requires Inv(c, s)
    ensures s.receipts.Keys <= s.sent.Keys
  {
    hide Ideal, RowsInv, QueueInv, SignersInv, IssuedInv, StoredInv, RelayInv, BroadcastedInv, RecsInv, SyncsInv,
      PassedInv;
  }

  ghost predicate NeverRejected(c: Config, s: State, actions: seq<Action>, id: Uuid) {
    forall n :: 0 <= n < |actions| && StateAt(c, s, actions, n).Some? ==>
      !RejectsRow(StateAt(c, s, actions, n).value, actions[n], id)
  }

  /**
    A Signed row whose identifier is on chain already, and for which nobody holds a success, stays exactly as it is
    until a save of its match takes or the node rejects its transaction as a duplicate: mined ones never help.
   */
  lemma {:induction false} DuplicateUntilRejected(c: Config, s: State, actions: seq<Action>, ref: Ref)
    requires Inv(c, s) && WaitingRow(s, ref) && RunFrom(c, s, actions).Some? && NeverSaved(c, s, actions, ref)
    requires RowHash(s.tables.matches[ref]) in s.chain.stored && NoSuccessHeld(s, s.tables.matches[ref].id)
    requires NeverRejected(c, s, actions, s.tables.matches[ref].id)
    ensures var end := RunFrom(c, s, actions).value;
      && WaitingRow(end, ref) && end.tables.matches[ref] == s.tables.matches[ref]
      && RowHash(s.tables.matches[ref]) in end.chain.stored && NoSuccessHeld(end, s.tables.matches[ref].id)
  {
    hide Enabled, Next, Inv, RowHash, SavedRef, NoSignerHolds, NoSuccessHeld, RejectsRow;
    if actions == [] {
    } else {
      var n := |actions| - 1;
      var front, a := actions[..n], actions[n];
      assert forall k :: 0 <= k <= n ==> front[..k] == actions[..k];
      var before := RunFrom(c, s, front).value;
      Reachable(c, s, front);
      ChainOnlyGrows(c, before, a);
      DuplicateUntilRejected(c, s, front, ref);
      ChangedIff(c, before, a, ref);
      assert StateAt(c, s, actions, n) == Some(before);
      NoSuccessKept(c, before, a, ref);
      if MarkedId(before, a) == Some(s.tables.matches[ref].id) {
        MarkNeedsSuccess(c, before, a, ref);
      }
    }
  }

  lemma MarkNeedsSuccess(c: Config, s: State, a: Action, ref: Ref)
    requires Inv(c, s) && Enabled(c, s, a) && ref in s.tables.matches
    requires MarkedId(s, a) == Some(s.tables.matches[ref].id)
    ensures !NoSuccessHeld(s, s.tables.matches[ref].id)
  {
    hide Inv, Enabled, Next, RowHash;
    MarkedIsStored(c, s, a, ref);
  }

  // ---- The rows of Limits ----

  /** A row that ended Signed with a signature of its old scores stays so, until it is saved again or on chain. */
  lemma CorrectedRowWaits(c: Config, s0: State, key: CursorKey, m: Match, home: nat, away: nat) returns (s: State)
    requires Init(c, s0) && m.status == FINISHED && FromApi(c, m, key.provider)
    requires Storable(m) && Storable(Corrected(m, home, away)) && m.homeScore < 256 && m.awayScore < 256
    requires (home % 256, away % 256) != (m.homeScore, m.awayScore)
    ensures Leads(c, s0, s) && WaitingRow(s, RefOf(m))
    ensures RelayMatchOf(s.tables.matches[RefOf(m)]).Some? && DigestOf(c, ItemOf(RowOfMatch(m))).Some?
    ensures CalldataDigest(c, s.tables.matches[RefOf(m)]) != DigestOf(c, ItemOf(RowOfMatch(m))).value
    ensures var ref := RefOf(m);
      forall later :: RunFrom(c, s, later).Some? && NeverSaved(c, s, later, ref) && NotOnChain(c, s, later, ref) ==>
        StandsAt(c, s, later, ref)
  {
    s := OldScoresStaySigned(c, s0, key, m, home, away);
    var ref := RefOf(m);
    hide Init, FromApi, Leads, RelayMatchOf, CalldataDigest, DigestOf, RowHash, NeverSaved, RunFrom, Storable;
    LeadsToInv(c, s0, s);
    forall later | RunFrom(c, s, later).Some? && NeverSaved(c, s, later, ref) && NotOnChain(c, s, later, ref)
      ensures StandsAt(c, s, later, ref)
    {
      SignedUntilSaved(c, s, later, ref);
    }
  }

  /** After the run the row's identifier is not on chain. */
  ghost predicate NotOnChain(c: Config, s: State, later: seq<Action>, ref: Ref)
    requires ref in s.tables.matches && RunFrom(c, s, later).Some?
  {
    RowHash(s.tables.matches[ref]) !in RunFrom(c, s, later).value.chain.stored
  }

  /** After the run the row is as it was. */
  ghost predicate StandsAt(c: Config, s: State, later: seq<Action>, ref: Ref)
    requires ref in s.tables.matches && RunFrom(c, s, later).Some?
  {
    var end := RunFrom(c, s, later).value;
    ref in end.tables.matches && end.tables.matches[ref] == s.tables.matches[ref]
  }

  /** The duplicate whose transaction was mined and reverted stays Signed, until it is saved again or rejected. */
  lemma DuplicateWaits(c: Config, s0: State, key: CursorKey, m: Match, pmid: string) returns (s: State)
    requires TwinsFound(c, s0, m, pmid) && key.provider == m.provider
    ensures Leads(c, s0, s) && WaitingRow(s, RefOf(Twin(m, pmid)))
    ensures RowHash(s.tables.matches[RefOf(Twin(m, pmid))]) in s.chain.stored
    ensures var ref := RefOf(Twin(m, pmid));
      var id := s.tables.matches[ref].id;
      forall later :: RunFrom(c, s, later).Some? && NeverSaved(c, s, later, ref) && NeverRejected(c, s, later, id) ==>
        StandsAt(c, s, later, ref)
  {
    s := DuplicateStaysSigned(c, s0, key, m, pmid, false);
    var ref := RefOf(Twin(m, pmid));
    assert Init(c, s0);
    hide TwinsFound, Init, Leads, NeverSaved, NeverRejected, RunFrom, HexToHash, TrimHexPrefix, Signed;
    LeadsToInv(c, s0, s);
    assert RowHash(s.tables.matches[ref]) == RowHash(RowOfMatch(Twin(m, pmid)));
    hide RowHash;
    forall later | RunFrom(c, s, later).Some? && NeverSaved(c, s, later, ref)
      && NeverRejected(c, s, later, s.tables.matches[ref].id)
      ensures StandsAt(c, s, later, ref)
    {
      DuplicateUntilRejected(c, s, later, ref);
    }
  }
}
