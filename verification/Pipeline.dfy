/**
  The four programs over the shared tables and the chain, one statement or transaction at a time, in any
  interleaving: any number of runs of each in flight, any run stopping at any point, any outside caller.
 */
module Pipeline {
  import opened Wrappers
  import opened Bytes
  import opened Entity
  import opened Eip712
  import opened Crypto
  import opened Oracle
  import opened Tables
  import opened Sync
  import opened Reconcile
  import opened Signer
  import opened Relayer

  /** The ideal primitives, the deployment's domain and the addresses of the service's signing keys. */
  datatype Config = Config(crypto: Crypto, domain: Domain, keys: set<Address>)

  /** A sync run between statements: `stalePos` and `savePos` count the matches its two loops are through with. */
  datatype SyncFlight = SyncFlight(
    key: CursorKey, queryDay: int, today: int, staleNow: int, fetched: seq<Match>,
    stalePos: nat, savePos: nat, fallback: bool, missed: bool)

  datatype SignFlight = SignFlight(key: Address, todo: seq<SignItem>)

  datatype Phase = Ready | Waiting(tx: nat) | Confirmed

  datatype RelayFlight = RelayFlight(todo: seq<RelayMatch>, phase: Phase)

  datatype Saved = Saved(ref: Ref, home: nat, away: nat)

  /** A run that moved its cursor past `day`; `clean` when none of its matches was left unsaved and unqueued. */
  datatype Pass = Pass(key: CursorKey, day: int, today: int, staleNow: int, fetched: seq<Match>, clean: bool)

  /** What has ever happened: results saved, digests signed, queue ids removed, days passed. */
  datatype Past = Past(saved: set<Saved>, issued: set<(Address, bytes32)>, retired: set<Uuid>, passed: set<Pass>)

  datatype State = State(
    tables: Tables, chain: Chain, sent: map<nat, Submission>, receipts: map<nat, bool>,
    syncs: map<nat, SyncFlight>, recs: map<nat, seq<PageRow>>,
    signers: map<nat, SignFlight>, relayers: map<nat, RelayFlight>, past: Past)

  datatype Action =
    | SyncBegin(i: nat, key: CursorKey, now: int, staleNow: int, fetched: seq<Match>)
    | SyncStale(i: nat, try: EnqueueTry)
    | SyncSave(i: nat, o: Outcome)
    | SyncFallback(i: nat, try: EnqueueTry)
    | SyncCursor(i: nat, o: Outcome)
    | SyncStop(i: nat)
    | RecBegin(i: nat, page: seq<PageRow>)
    | RecTry(i: nat, o: Outcome)
    | RecSave(i: nat, m: Match, o: Outcome)
    | RecStop(i: nat)
    | SignBegin(i: nat, signer: Address, refs: seq<Ref>)
    | SignStep(i: nat, o: Outcome)
    | SignStop(i: nat)
    | RelayBegin(i: nat, refs: seq<Ref>)
    | RelaySend(i: nat, tx: nat, reported: bool)
    | RelayAlready(i: nat)
    | RelayReceipt(i: nat)
    | RelayFail(i: nat)
    | RelayMark(i: nat, o: Outcome)
    | RelayStop(i: nat)
    | Mine(tx: nat)
    | Outside(call: Call)

  // ---- Guards ----

  /** What the API conversion guarantees of a returned match. */
  predicate FromApi(c: Config, m: Match, provider: int) {
    WellMade(c.crypto.keccak, m) && m.provider == provider
  }

  /** Ideal signatures: one that recovers to a service key was issued by that key for that digest. */
  predicate Unforged(c: Config, issued: set<(Address, bytes32)>, s: Submission) {
    var digest := Digest(c.crypto.keccak, c.domain, s.matchId, s.home, s.away);
    var signer := c.crypto.recover(digest, s.signature);
    signer.Some? && signer.value in c.keys ==> (signer.value, digest) in issued
  }

  /** Queue ids are fresh: one that has been removed is not drawn again. */
  predicate FreshTry(s: State, try: EnqueueTry) {
    try.id !in s.past.retired
  }

  function Kept(f: SyncFlight): seq<Match> {
    Filtered(f.fetched, f.staleNow)
  }

  ghost predicate SyncEnabled(c: Config, s: State, a: Action) {
    match a
    case SyncBegin(i, key, now, staleNow, fetched) =>
      i !in s.syncs && forall m :: m in fetched ==> FromApi(c, m, key.provider)
    case SyncStale(i, try) =>
      i in s.syncs && s.syncs[i].stalePos < |s.syncs[i].fetched| && FreshTry(s, try)
    case SyncSave(i, o) =>
      && i in s.syncs && s.syncs[i].stalePos == |s.syncs[i].fetched|
      && s.syncs[i].savePos < |Kept(s.syncs[i])| && !s.syncs[i].fallback
    case SyncFallback(i, try) =>
      i in s.syncs && s.syncs[i].savePos < |Kept(s.syncs[i])| && s.syncs[i].fallback && FreshTry(s, try)
    case SyncCursor(i, o) =>
      && i in s.syncs && s.syncs[i].stalePos == |s.syncs[i].fetched|
      && s.syncs[i].savePos == |Kept(s.syncs[i])| && !s.syncs[i].fallback
    case SyncStop(i) => i in s.syncs
    case _ => false
  }

  /** The by-id API echoes the id it was asked for. */
  ghost predicate RecEnabled(c: Config, s: State, a: Action) {
    match a
    case RecBegin(i, page) => i !in s.recs && IsPage(s.tables.queue, BATCH_SIZE, MAX_TRIES, page)
    case RecTry(i, o) => i in s.recs && s.recs[i] != []
    case RecSave(i, m, o) =>
      && i in s.recs && s.recs[i] != [] && m.status == FINISHED
      && FromApi(c, m, s.recs[i][0].ref.provider) && RefOf(m) == s.recs[i][0].ref
    case RecStop(i) => i in s.recs
    case _ => false
  }

  ghost predicate SignEnabled(c: Config, s: State, a: Action) {
    match a
    case SignBegin(i, signer, refs) =>
      i !in s.signers && signer in c.keys && IsListing(s.tables.matches, FINISHED, refs)
    case SignStep(i, o) => i in s.signers && s.signers[i].todo != []
    case SignStop(i) => i in s.signers
    case _ => false
  }

  ghost predicate RelayEnabled(c: Config, s: State, a: Action) {
    match a
    case RelayBegin(i, refs) => i !in s.relayers && IsListing(s.tables.matches, SIGNED, refs)
    case RelaySend(i, tx, reported) =>
      i in s.relayers && s.relayers[i].todo != [] && s.relayers[i].phase.Ready? && tx !in s.sent
    case RelayAlready(i) =>
      && i in s.relayers && s.relayers[i].todo != [] && s.relayers[i].phase.Ready?
      && Exec(c.crypto, c.domain, s.chain, Submit(Calldata(s.relayers[i].todo[0])))
         == Err(MatchAlreadySubmitted(Calldata(s.relayers[i].todo[0]).matchId))
    case RelayReceipt(i) =>
      && i in s.relayers && s.relayers[i].todo != []
      && s.relayers[i].phase.Waiting? && s.relayers[i].phase.tx in s.receipts
    case RelayFail(i) => i in s.relayers && s.relayers[i].todo != [] && !s.relayers[i].phase.Confirmed?
    case RelayMark(i, o) => i in s.relayers && s.relayers[i].todo != [] && s.relayers[i].phase.Confirmed?
    case RelayStop(i) => i in s.relayers
    case _ => false
  }

  /** Rotations authorise service keys only. */
  ghost predicate ChainEnabled(c: Config, s: State, a: Action) {
    match a
    case Mine(tx) => tx in s.sent && tx !in s.receipts && Unforged(c, s.past.issued, s.sent[tx])
    case Outside(call) =>
      && (call.Submit? ==> Unforged(c, s.past.issued, call.s))
      && (call.Rotate? ==> call.newSigner in c.keys)
    case _ => false
  }

  ghost predicate Enabled(c: Config, s: State, a: Action) {
    || SyncEnabled(c, s, a) || RecEnabled(c, s, a) || SignEnabled(c, s, a)
    || RelayEnabled(c, s, a) || ChainEnabled(c, s, a)
  }

  // ---- Effects ----

  function WithoutSync(s: State, i: nat): State {
    s.(syncs := s.syncs - {i})
  }

  ghost function SyncNext(c: Config, s: State, a: Action): State
    requires SyncEnabled(c, s, a)
  {
    match a
    case SyncBegin(i, key, now, staleNow, fetched) =>
      var today := DayOf(now);
      s.(syncs := s.syncs[i := SyncFlight(key, QueryDay(s.tables.cursors, key, today), today, staleNow, fetched,
                                          0, 0, false, false)])
    case SyncStale(i, try) => SyncStaleNext(s, i, try)
    case SyncSave(i, o) => SyncSaveNext(s, i, o)
    case SyncFallback(i, try) =>
      var f := s.syncs[i];
      var written := Enqueue(s.tables.queue, Ref(f.key.provider, Kept(f)[f.savePos].pmid), try.id);
      s.(tables := s.tables.(queue := Resolve(s.tables.queue, written, try.outcome)),
         syncs := s.syncs[i := f.(savePos := f.savePos + 1, fallback := false,
                                  missed := f.missed || written.None? || try.outcome.Lost?)])
    case SyncCursor(i, o) => SyncCursorNext(s, i, o)
    case SyncStop(i) => WithoutSync(s, i)
  }

  function SyncStaleNext(s: State, i: nat, try: EnqueueTry): State
    requires i in s.syncs && s.syncs[i].stalePos < |s.syncs[i].fetched|
  {
    var f := s.syncs[i];
    var m := f.fetched[f.stalePos];
    var f' := f.(stalePos := f.stalePos + 1);
    if IsStale(m, f.staleNow) then
      var written := Enqueue(s.tables.queue, Ref(f.key.provider, m.pmid), try.id);
      s.(tables := s.tables.(queue := Resolve(s.tables.queue, written, try.outcome)),
         syncs := s.syncs[i := f'.(missed := f.missed || written.None? || try.outcome.Lost?)])
    else s.(syncs := s.syncs[i := f'])
  }

  function SyncSaveNext(s: State, i: nat, o: Outcome): State
    requires i in s.syncs && s.syncs[i].savePos < |Kept(s.syncs[i])|
  {
    var f := s.syncs[i];
    var m := Kept(f)[f.savePos];
    if m.status != FINISHED then s.(syncs := s.syncs[i := f.(savePos := f.savePos + 1)])
    else
      var written := Upsert(s.tables.matches, m);
      Record(s, m, Resolve(s.tables.matches, written, o), written.None? || o.Lost?).(
        syncs := s.syncs[i := if Succeeds(written, o) then f.(savePos := f.savePos + 1) else f.(fallback := true)])
  }

  /** The matches table after a save of m that took or was lost, and the record of it. */
  function Record(s: State, m: Match, matches: map<Ref, Row>, lost: bool): State {
    s.(tables := s.tables.(matches := matches),
       past := if lost then s.past
               else s.past.(saved := s.past.saved + {Saved(RefOf(m), m.homeScore, m.awayScore)}))
  }

  function PassOfFlight(f: SyncFlight): Pass {
    Pass(f.key, f.queryDay, f.today, f.staleNow, f.fetched, !f.missed)
  }

  function SyncCursorNext(s: State, i: nat, o: Outcome): State
    requires i in s.syncs
  {
    var f := s.syncs[i];
    var next := NextDay(f.queryDay, f.today, HasInProgress(Kept(f)));
    var cursors := Resolve(s.tables.cursors, Some(s.tables.cursors[f.key := next * DAY]), o);
    WithoutSync(s, i).(
      tables := s.tables.(cursors := cursors),
      past := if o.Lost? || next == f.queryDay then s.past
              else s.past.(passed := s.past.passed + {PassOfFlight(f)}))
  }

  function RecSaveNext(s: State, i: nat, m: Match, o: Outcome): State
    requires i in s.recs && s.recs[i] != []
  {
    var row := s.recs[i][0];
    var s1 := s.(recs := s.recs[i := s.recs[i][1..]]);
    var written := SaveAndDequeue(s.tables, m, row.id);
    if written.None? || o.Lost? then s1
    else
      s1.(tables := written.value,
          past := s.past.(saved := s.past.saved + {Saved(RefOf(m), m.homeScore, m.awayScore)},
                          retired := s.past.retired + {row.id}))
  }

  ghost function RecNext(c: Config, s: State, a: Action): State
    requires RecEnabled(c, s, a)
  {
    match a
    case RecBegin(i, page) => s.(recs := s.recs[i := page])
    case RecTry(i, o) =>
      var queue := Resolve(s.tables.queue, Some(IncrementTries(s.tables.queue, s.recs[i][0].id)), o);
      s.(tables := s.tables.(queue := queue), recs := s.recs[i := s.recs[i][1..]])
    case RecSave(i, m, o) => RecSaveNext(s, i, m, o)
    case RecStop(i) => s.(recs := s.recs - {i})
  }

  /** Signing issues the digest; the row is written afterwards, whatever has become of it since the snapshot. */
  function SignStepNext(c: Config, s: State, i: nat, o: Outcome): State
    requires i in s.signers && s.signers[i].todo != []
  {
    var f := s.signers[i];
    var item := f.todo[0];
    var digest := SignerDigest(c.crypto.keccak, c.domain, item.canonicalId, item.home, item.away);
    s.(tables := s.tables.(matches := SignOne(c.crypto, c.domain, f.key, s.tables.matches, item, o)),
       signers := s.signers[i := f.(todo := f.todo[1..])],
       past := if digest.None? then s.past else s.past.(issued := s.past.issued + {(f.key, digest.value)}))
  }

  ghost function SignNext(c: Config, s: State, a: Action): State
    requires SignEnabled(c, s, a)
  {
    match a
    case SignBegin(i, signer, refs) => s.(signers := s.signers[i := SignFlight(signer, Items(s.tables.matches, refs))])
    case SignStep(i, o) => SignStepNext(c, s, i, o)
    case SignStop(i) => s.(signers := s.signers - {i})
  }

  function Rest(f: RelayFlight): RelayFlight
    requires f.todo != []
  {
    RelayFlight(f.todo[1..], Ready)
  }

  ghost function RelayNext(c: Config, s: State, a: Action): State
    requires RelayEnabled(c, s, a)
  {
    match a
    case RelayBegin(i, refs) =>
      s.(relayers := s.relayers[i := RelayFlight(SignedMatches(s.tables.matches, refs), Ready)])
    case RelaySend(i, tx, reported) =>
      var f := s.relayers[i];
      s.(sent := s.sent[tx := Calldata(f.todo[0])],
         relayers := s.relayers[i := if reported then f.(phase := Waiting(tx)) else Rest(f)])
    case RelayAlready(i) => s.(relayers := s.relayers[i := s.relayers[i].(phase := Confirmed)])
    case RelayReceipt(i) =>
      var f := s.relayers[i];
      if s.receipts[f.phase.tx] then s.(relayers := s.relayers[i := f.(phase := Confirmed)])
      else s.(relayers := s.relayers[i := Rest(f)])
    case RelayFail(i) => s.(relayers := s.relayers[i := Rest(s.relayers[i])])
    case RelayMark(i, o) =>
      var f := s.relayers[i];
      s.(tables := s.tables.(matches := MarkOne(s.tables.matches, f.todo[0], Sent, o)),
         relayers := s.relayers[i := Rest(f)])
    case RelayStop(i) => s.(relayers := s.relayers - {i})
  }

  ghost function ChainNext(c: Config, s: State, a: Action): State
    requires ChainEnabled(c, s, a)
  {
    match a
    case Mine(tx) =>
      s.(chain := After(c.crypto, c.domain, s.chain, Submit(s.sent[tx])),
         receipts := s.receipts[tx := Exec(c.crypto, c.domain, s.chain, Submit(s.sent[tx])).Ok?])
    case Outside(call) => s.(chain := After(c.crypto, c.domain, s.chain, call))
  }

  ghost function Next(c: Config, s: State, a: Action): State
    requires Enabled(c, s, a)
  {
    if SyncEnabled(c, s, a) then SyncNext(c, s, a)
    else if RecEnabled(c, s, a) then RecNext(c, s, a)
    else if SignEnabled(c, s, a) then SignNext(c, s, a)
    else if RelayEnabled(c, s, a) then RelayNext(c, s, a)
    else ChainNext(c, s, a)
  }

  /** The state a sequence of actions leads to; None when one of them is not possible. */
  ghost function RunFrom(c: Config, s: State, actions: seq<Action>): Option<State> {
    if actions == [] then Some(s)
    else
      var n := |actions| - 1;
      var before := RunFrom(c, s, actions[..n]);
      if before.None? || !Enabled(c, before.value, actions[n]) then None
      else Some(Next(c, before.value, actions[n]))
  }

  lemma RunExtends(c: Config, s: State, actions: seq<Action>, a: Action)
    requires RunFrom(c, s, actions).Some? && Enabled(c, RunFrom(c, s, actions).value, a)
    ensures RunFrom(c, s, actions + [a]) == Some(Next(c, RunFrom(c, s, actions).value, a))
  {
    hide Enabled, Next;
    var actions' := actions + [a];
    assert actions'[..|actions'| - 1] == actions;
  }

  /** Empty match and queue tables, nothing in flight, nothing on chain; any cursors, any registries. */
  ghost predicate Init(c: Config, s: State) {
    && Ideal(c.crypto, c.domain) && 0 !in c.keys
    && s.tables.matches == map[] && s.tables.queue == map[]
    && ChainInv(c.crypto, s.chain) && s.chain.stored == map[] && s.chain.signer in c.keys
    && s.sent == map[] && s.receipts == map[]
    && s.syncs == map[] && s.recs == map[] && s.signers == map[] && s.relayers == map[]
    && s.past == Past({}, {}, {}, {})
  }
}
