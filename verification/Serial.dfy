/** Whole runs one after another: what holds when no two processes overlap. */
module Serial {
  import opened Wrappers
  import opened Bytes
  import opened Calendar
  import opened Entity
  import opened Eip712
  import opened Crypto
  import opened Oracle
  import opened Tables
  import opened Sync
  import opened Reconcile
  import opened Signer
  import opened Relayer
  import opened Pipeline
  import opened Invariants

  /** One complete process run, with whatever it drew from outside. */
  datatype ProcessRun =
    | SyncProcess(r: SyncRun)
    | ReconcileProcess(events: seq<Event>)
    | SignerProcess(key: Address, refs: seq<Ref>, stores: seq<Outcome>)
    | RelayerProcess(ms: seq<RelayMatch>, results: seq<BroadcastResult>, marks: seq<Outcome>)

  /** The run is one the programs can make from these tables. */
  ghost predicate Possible(c: Config, t: Tables, p: ProcessRun) {
    match p
    case SyncProcess(r) =>
      WellFormed(r) && (r.fetched.Some? ==> forall m :: m in r.fetched.value ==> WellMade(c.crypto.keccak, m))
    case ReconcileProcess(events) =>
      forall i :: 0 <= i < |events| ==> OwedToWellMade(c, events[i])
    case SignerProcess(key, refs, stores) =>
      key in c.keys && |stores| == |refs| && IsListing(t.matches, FINISHED, refs)
    case RelayerProcess(ms, results, marks) => |results| == |marks| == |ms|
  }

  /** The event is the one the program owes to some answer of the API, and an answered match is well made. */
  ghost predicate OwedToWellMade(c: Config, e: Event) {
    exists answer :: Fits(e, answer) && (answer.Some? ==> WellMade(c.crypto.keccak, answer.value))
  }

  lemma OwedIsFinished(c: Config, e: Event)
    requires OwedToWellMade(c, e) && e.Reconciled?
    ensures e.m.status == 3 && WellMade(c.crypto.keccak, e.m)
  {
    hide WellMade;
    var answer :| Fits(e, answer) && (answer.Some? ==> WellMade(c.crypto.keccak, answer.value));
    FitsIff(e, answer);
  }

  function AfterProcess(c: Config, t: Tables, p: ProcessRun): Tables
    requires p.SyncProcess? ==> WellFormed(p.r)
    requires p.SignerProcess? ==> |p.stores| == |p.refs| && forall r :: r in p.refs ==> r in t.matches
    requires p.RelayerProcess? ==> |p.results| == |p.marks| == |p.ms|
  {
    match p
    case SyncProcess(r) => AfterSync(t, r)
    case ReconcileProcess(events) => ApplyEvents(t, events)
    case SignerProcess(key, refs, stores) =>
      t.(matches := SignAll(c.crypto, c.domain, key, t.matches, Items(t.matches, refs), stores))
    case RelayerProcess(ms, results, marks) => t.(matches := MarkAll(t.matches, ms, results, marks))
  }

  /** The signature recovers, under the contract's digest of the row's identifier and its own scores, to the key. */
  ghost predicate VerifiesFor(c: Config, row: Row, key: Address) {
    && row.homeScore < 256 && row.awayScore < 256 && RelayMatchOf(row).Some?
    && c.crypto.recover(Digest(c.crypto.keccak, c.domain, RowHash(row), row.homeScore, row.awayScore),
                        RelayMatchOf(row).value.signature) == Some(key)
  }

  ghost predicate SubmissionVerifies(c: Config, row: Row) {
    exists key :: key in c.keys && VerifiesFor(c, row, key)
  }

  /** Then the relayer's calldata carries those very scores and passes the contract's signature check for the key. */
  lemma VerifiedCalldata(c: Config, row: Row, key: Address)
    requires VerifiesFor(c, row, key)
    ensures var s := Calldata(RelayMatchOf(row).value);
      && (s.matchId, s.key, s.home, s.away) == (RowHash(row), KeyOf(row), row.homeScore, row.awayScore)
      && SignatureRefusal(c.crypto, c.domain, key, s).None?
  {
    hide HexDecode, HexToHash, TrimHexPrefix, Digest, RelayerDateCode;
  }

  ghost predicate RowSound(c: Config, row: Row) {
    RowWellMade(c, row) && (row.status == SIGNED ==> SubmissionVerifies(c, row))
  }

  ghost predicate SignedInv(c: Config, matches: map<Ref, Row>) {
    UniqueRowIds(matches) && forall r :: r in matches ==> RowSound(c, matches[r])
  }

  /** A row that has just been signed verifies under the contract's digest of its current identifier and scores. */
  lemma FreshlySigned(c: Config, key: Address, row: Row)
    requires Ideal(c.crypto, c.domain) && RowWellMade(c, row)
    requires Signed(c.crypto, c.domain, key, ItemOf(row)).Some?
    ensures VerifiesFor(c, row.(signature := Signed(c.crypto, c.domain, key, ItemOf(row)), status := SIGNED), key)
    ensures key in c.keys ==>
      SubmissionVerifies(c, row.(signature := Signed(c.crypto, c.domain, key, ItemOf(row)), status := SIGNED))
  {
    hide Signed, SignerDigest, Digest, HexDecode, TrimHexPrefix, HexToHash, RelayerDateCode, CanonicalId;
    SignedVerifies(c.crypto, c.domain, key, ItemOf(row));
    RowHashIsKeyHash(c, row);
  }

  lemma UpsertKeepsSigned(c: Config, matches: map<Ref, Row>, m: Match, o: Outcome)
    requires SignedInv(c, matches) && WellMade(c.crypto.keccak, m) && m.status == FINISHED
    ensures SignedInv(c, Resolve(matches, Upsert(matches, m), o))
  {
    hide CanonicalId, SubmissionVerifies;
    if Upsert(matches, m).Some? && !o.Lost? {
      UpsertKeepsIds(matches, m);
      var after := Upsert(matches, m).value;
      forall r | r in after ensures RowSound(c, after[r]) {
        assert r in matches ==> RowSound(c, matches[r]);
      }
    }
  }

  lemma {:induction false} SavesKeepSigned(c: Config, t: Tables, ms: seq<Match>, provider: int, tries: seq<SaveTry>)
    requires |tries| == |ms| && SignedInv(c, t.matches) && forall m :: m in ms ==> WellMade(c.crypto.keccak, m)
    ensures SignedInv(c, SaveMatches(t, ms, provider, tries).matches)
  {
    hide SignedInv, WellMade, Upsert, Enqueue;
    if ms == [] {
    } else {
      var n := |ms| - 1;
      SavesKeepSigned(c, t, ms[..n], provider, tries[..n]);
      if ms[n].status == FINISHED {
        UpsertKeepsSigned(c, SaveMatches(t, ms[..n], provider, tries[..n]).matches, ms[n], tries[n].save);
      }
    }
  }

  lemma {:induction false} EventsKeepSigned(c: Config, t: Tables, events: seq<Event>)
    requires SignedInv(c, t.matches) && Possible(c, t, ReconcileProcess(events))
    ensures SignedInv(c, ApplyEvents(t, events).matches)
  {
    hide SignedInv, WellMade, Upsert, OwedToWellMade;
    if events == [] {
    } else {
      var n := |events| - 1;
      EventsKeepSigned(c, t, events[..n]);
      if events[n].Reconciled? {
        OwedIsFinished(c, events[n]);
        UpsertKeepsSigned(c, ApplyEvents(t, events[..n]).matches, events[n].m, events[n].o);
      }
    }
  }

  lemma SignerKeepsSigned(c: Config, t: Tables, key: Address, refs: seq<Ref>, stores: seq<Outcome>)
    requires Ideal(c.crypto, c.domain) && SignedInv(c, t.matches) && Possible(c, t, SignerProcess(key, refs, stores))
    ensures SignedInv(c, SignAll(c.crypto, c.domain, key, t.matches, Items(t.matches, refs), stores))
  {
    hide Signed, SignAll, CanonicalId, SubmissionVerifies, StoreTook, Ideal, RelayMatchOf;
    var after := SignAll(c.crypto, c.domain, key, t.matches, Items(t.matches, refs), stores);
    forall r
      ensures after.Keys == t.matches.Keys
      ensures r in after ==> after[r].id == t.matches[r].id && RowSound(c, after[r])
    {
      RunIsolation(c.crypto, c.domain, key, t.matches, refs, stores, r);
      if r in t.matches {
        assert RowSound(c, t.matches[r]);
        if Signed(c.crypto, c.domain, key, ItemOf(t.matches[r])).Some? {
          FreshlySigned(c, key, t.matches[r]);
        }
      }
    }
  }

  lemma RelayerKeepsSigned(c: Config, t: Tables, ms: seq<RelayMatch>, rs: seq<BroadcastResult>, os: seq<Outcome>)
    requires SignedInv(c, t.matches) && |rs| == |os| == |ms|
    ensures SignedInv(c, MarkAll(t.matches, ms, rs, os))
  {
    hide CanonicalId, SubmissionVerifies, MarkAll, Marked;
    var after := MarkAll(t.matches, ms, rs, os);
    forall r ensures (r in after <==> r in t.matches)
      && (r in after ==> after[r].id == t.matches[r].id && RowSound(c, after[r])) {
      BatchIsolation(t.matches, ms, rs, os, r);
      assert r in t.matches ==> RowSound(c, t.matches[r]);
    }
  }

  lemma ProcessKeepsSigned(c: Config, t: Tables, p: ProcessRun)
    requires Ideal(c.crypto, c.domain) && SignedInv(c, t.matches) && Possible(c, t, p)
    ensures SignedInv(c, AfterProcess(c, t, p).matches)
  {
    hide SignedInv, WellMade, Ideal;
    match p
    case SyncProcess(r) =>
      if r.readOk && r.fetched.Some? {
        KeptOrStale(r.fetched.value, r.staleNow);
        var t1 := t.(queue := EnqueueAll(t.queue, r.fetched.value, r.key.provider, r.staleNow, r.stale));
        SavesKeepSigned(c, t1, Filtered(r.fetched.value, r.staleNow), r.key.provider, r.saves);
      }
    case ReconcileProcess(events) => EventsKeepSigned(c, t, events);
    case SignerProcess(key, refs, stores) => SignerKeepsSigned(c, t, key, refs, stores);
    case RelayerProcess(ms, results, marks) => RelayerKeepsSigned(c, t, ms, results, marks);
  }

  ghost function AfterProcesses(c: Config, t: Tables, ps: seq<ProcessRun>): Option<Tables> {
    if ps == [] then Some(t)
    else
      var n := |ps| - 1;
      var before := AfterProcesses(c, t, ps[..n]);
      if before.None? || !Possible(c, before.value, ps[n]) then None else Some(AfterProcess(c, before.value, ps[n]))
  }

  /**
    With process runs that do not overlap, every Signed row's stored signature passes the contract's
    check on the row's current identifier and scores, after any history of runs and failures.
   */
  lemma {:induction false} SignedRowsVerify(c: Config, t: Tables, ps: seq<ProcessRun>)
    requires Ideal(c.crypto, c.domain) && SignedInv(c, t.matches) && AfterProcesses(c, t, ps).Some?
    ensures SignedInv(c, AfterProcesses(c, t, ps).value.matches)
  {
    hide SignedInv, Possible, AfterProcess, Ideal;
    if ps == [] {
    } else {
      var n := |ps| - 1;
      SignedRowsVerify(c, t, ps[..n]);
      ProcessKeepsSigned(c, AfterProcesses(c, t, ps[..n]).value, ps[n]);
    }
  }

  /**
    When runs do overlap, a row may have been saved again between the signer's snapshot and its store:
    the contract's digest of the row's calldata is the signed one exactly when the narrowed scores are
    still the snapshot's.
   */
  lemma DigestMatchesIff(c: Config, row: Row, item: SignItem, signature: seq<byte>)
    requires Ideal(c.crypto, c.domain) && RowWellMade(c, row) && item.canonicalId == row.canonicalId
    requires Signable(item.canonicalId, item.home, item.away)
    ensures var s := Calldata(RelayMatch(row.id, row.canonicalId, row.comp, row.home, row.away,
                                         row.homeScore, row.awayScore, RelayerDateCode(row.start), signature));
      Some(Digest(c.crypto.keccak, c.domain, s.matchId, s.home, s.away))
      == SignerDigest(c.crypto.keccak, c.domain, item.canonicalId, item.home, item.away)
      <==> row.homeScore % 256 == item.home && row.awayScore % 256 == item.away
  {
    hide HexDecode, TrimHexPrefix, HexToHash, RelayerDateCode, CanonicalId, Digest, SignerDigest;
    var (h, w) := (row.homeScore % 256, row.awayScore % 256);
    DigestAgreement(c.crypto.keccak, c.domain, item.canonicalId, item.home, item.away);
    RowHashIsKeyHash(c, row);
    if Digest(c.crypto.keccak, c.domain, RowHash(row), h, w)
    == Digest(c.crypto.keccak, c.domain, RowHash(row), item.home, item.away) {
      DigestInjective(c.crypto.keccak, c.domain, KeyOf(row), h, w, KeyOf(row), item.home, item.away);
    }
  }
}
