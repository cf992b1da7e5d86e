/** The three contracts as values: what a call accepts, reverts with and changes. */
module Oracle {
  import opened Wrappers
  import opened Bytes
  import opened Calendar
  import opened Entity
  import opened Eip712
  import opened Crypto

  const MAX_SCORE := 80
  const MAX_BATCH := 200
  const MAX_UINT32: uint32 := 0xFFFF_FFFF

  /** A counter and the names it handed out; an id outside `names` reads as the empty string. */
  datatype Registry = Registry(counter: uint32, names: map<uint32, string>)

  datatype Entry = Entry(matchId: bytes32, home: byte, away: byte)

  const NO_ENTRY := Entry(ZERO32, 0, 0)

  datatype Chain = Chain(
    owner: Address, competitions: Registry, teams: Registry,
    signer: Address, used: set<Address>, stored: map<bytes32, Entry>)

  datatype Submission = Submission(matchId: bytes32, key: Key, home: byte, away: byte, signature: seq<byte>)

  datatype Call =
    | Submit(s: Submission)
    | Rotate(sender: Address, newSigner: Address)
    | AddTeams(sender: Address, names: seq<string>)
    | AddCompetition(sender: Address, name: string)

  datatype Revert =
    | NotOwner
    | CounterOverflow
    | EmptyName
    | TooManyNames(count: nat)
    | InvalidAuthorizedSigner
    | SignerAlreadyUsed(signer: Address)
    | InvalidTeams(home: uint32, away: uint32)
    | InvalidMatchId(matchId: bytes32)
    | InvalidMatchDate(date: uint32)
    | InvalidCompetitionId(comp: uint32)
    | InvalidHomeTeamId(home: uint32)
    | InvalidAwayTeamId(away: uint32)
    | InvalidScores(homeScore: byte, awayScore: byte)
    | MatchAlreadySubmitted(matchId: bytes32)
    | MalformedSignature
    | InvalidSignature(signature: seq<byte>)

  function NameOf(r: Registry, id: uint32): string {
    if id in r.names then r.names[id] else ""
  }

  function Lookup(stored: map<bytes32, Entry>, id: bytes32): Entry {
    if id in stored then stored[id] else NO_ENTRY
  }

  function GetMatch(c: Crypto, chain: Chain, key: Key): Entry {
    Lookup(chain.stored, KeyHash(c.keccak, key))
  }

  /** The first n names appended to a registry, or the revert on the way. */
  function AddUpTo(r: Registry, names: seq<string>, n: nat): Result<Registry, Revert>
    requires n <= |names|
  {
    if n == 0 then Ok(r)
    else
      var before := AddUpTo(r, names, n - 1);
      if before.Err? then before
      else if names[n - 1] == "" then Err(EmptyName)
      else if before.value.counter == MAX_UINT32 then Err(CounterOverflow)
      else
        var id := before.value.counter + 1;
        Ok(Registry(id, before.value.names[id := names[n - 1]]))
  }

  function AddBatch(r: Registry, names: seq<string>): Result<Registry, Revert> {
    if |names| > MAX_BATCH then Err(TooManyNames(|names|)) else AddUpTo(r, names, |names|)
  }

  predicate ValidDate(date: uint32) {
    20100101 <= date <= 21001231
  }

  /** The first check of submitMatch that fails, in the contract's order. */
  function Refusal(c: Crypto, d: Domain, chain: Chain, s: Submission): Option<Revert> {
    if s.key.home == s.key.away then Some(InvalidTeams(s.key.home, s.key.away))
    else if KeyHash(c.keccak, s.key) != s.matchId then Some(InvalidMatchId(s.matchId))
    else if !ValidDate(s.key.date) then Some(InvalidMatchDate(s.key.date))
    else if NameOf(chain.competitions, s.key.comp) == "" then Some(InvalidCompetitionId(s.key.comp))
    else if NameOf(chain.teams, s.key.home) == "" then Some(InvalidHomeTeamId(s.key.home))
    else if NameOf(chain.teams, s.key.away) == "" then Some(InvalidAwayTeamId(s.key.away))
    else if s.home > MAX_SCORE || s.away > MAX_SCORE then Some(InvalidScores(s.home, s.away))
    else if Lookup(chain.stored, s.matchId).matchId != ZERO32 then Some(MatchAlreadySubmitted(s.matchId))
    else SignatureRefusal(c, d, chain.signer, s)
  }

  function SignatureRefusal(c: Crypto, d: Domain, signer: Address, s: Submission): Option<Revert> {
    var recovered := c.recover(Digest(c.keccak, d, s.matchId, s.home, s.away), s.signature);
    if recovered.None? then Some(MalformedSignature)
    else if recovered.value != signer then Some(InvalidSignature(s.signature))
    else None
  }

  function Exec(c: Crypto, d: Domain, chain: Chain, call: Call): Result<Chain, Revert> {
    match call
    case Submit(s) =>
      var refusal := Refusal(c, d, chain, s);
      if refusal.Some? then Err(refusal.value)
      else Ok(chain.(stored := chain.stored[s.matchId := Entry(s.matchId, s.home, s.away)]))
    case Rotate(sender, newSigner) =>
      if sender != chain.owner then Err(NotOwner)
      else if newSigner == 0 then Err(InvalidAuthorizedSigner)
      else if newSigner in chain.used then Err(SignerAlreadyUsed(newSigner))
      else Ok(chain.(used := chain.used + {newSigner}, signer := newSigner))
    case AddTeams(sender, names) =>
      if sender != chain.owner then Err(NotOwner)
      else
        var teams := AddBatch(chain.teams, names);
        if teams.Err? then Err(teams.error) else Ok(chain.(teams := teams.value))
    case AddCompetition(sender, name) =>
      if sender != chain.owner then Err(NotOwner)
      else
        var competitions := AddUpTo(chain.competitions, [name], 1);
        if competitions.Err? then Err(competitions.error) else Ok(chain.(competitions := competitions.value))
  }

  /** A transaction that reverts leaves the chain as it was. */
  function After(c: Crypto, d: Domain, chain: Chain, call: Call): Chain {
    var r := Exec(c, d, chain, call);
    if r.Ok? then r.value else chain
  }

  function RunCalls(c: Crypto, d: Domain, chain: Chain, calls: seq<Call>): Chain {
    if calls == [] then chain
    else After(c, d, RunCalls(c, d, chain, calls[..|calls| - 1]), calls[|calls| - 1])
  }

  function AcceptedOf(c: Crypto, d: Domain, chain: Chain, call: Call): seq<Submission> {
    if call.Submit? && Exec(c, d, chain, call).Ok? then [call.s] else []
  }

  /** The submissions of a run that were accepted, in order. */
  function Accepted(c: Crypto, d: Domain, chain: Chain, calls: seq<Call>): seq<Submission> {
    if calls == [] then []
    else
      var front := calls[..|calls| - 1];
      var last := calls[|calls| - 1];
      Accepted(c, d, chain, front) + AcceptedOf(c, d, RunCalls(c, d, chain, front), last)
  }

  function RotationOf(c: Crypto, d: Domain, chain: Chain, call: Call): seq<Address> {
    if call.Rotate? && Exec(c, d, chain, call).Ok? then [call.newSigner] else []
  }

  /** The addresses a run's successful rotations authorised, in order. */
  function Rotations(c: Crypto, d: Domain, chain: Chain, calls: seq<Call>): seq<Address> {
    if calls == [] then []
    else
      var front := calls[..|calls| - 1];
      var last := calls[|calls| - 1];
      Rotations(c, d, chain, front) + RotationOf(c, d, RunCalls(c, d, chain, front), last)
  }

  // ---- Invariants ----

  /** Names stand exactly at 1..counter and none is empty. */
  ghost predicate Contiguous(r: Registry) {
    && (forall id: uint32 :: id in r.names <==> 1 <= id <= r.counter)
    && (forall id :: id in r.names ==> r.names[id] != "")
  }

  /** Every stored entry names itself by a registered key, with a date in range and scores of at most 80. */
  ghost predicate EntryValid(c: Crypto, chain: Chain, id: bytes32) {
    && id in chain.stored
    && chain.stored[id].matchId == id
    && chain.stored[id].home <= 80 && chain.stored[id].away <= 80
    && exists key: Key :: KeyValid(chain, key) && KeyHash(c.keccak, key) == id
  }

  ghost predicate KeyValid(chain: Chain, key: Key) {
    && key.home != key.away && 20100101 <= key.date <= 21001231
    && NameOf(chain.competitions, key.comp) != ""
    && NameOf(chain.teams, key.home) != "" && NameOf(chain.teams, key.away) != ""
  }

  ghost predicate ChainInv(c: Crypto, chain: Chain) {
    && Contiguous(chain.competitions) && Contiguous(chain.teams)
    && chain.signer != 0 && 0 !in chain.used
    && forall id :: id in chain.stored ==> EntryValid(c, chain, id)
  }

  ghost predicate RegistryGrows(r: Registry, r': Registry) {
    r.counter <= r'.counter && forall id :: id in r.names ==> id in r'.names && r'.names[id] == r.names[id]
  }

  /** Nothing registered, stored or recorded is changed or dropped. */
  ghost predicate Grows(chain: Chain, chain': Chain) {
    && RegistryGrows(chain.competitions, chain'.competitions) && RegistryGrows(chain.teams, chain'.teams)
    && chain.used <= chain'.used && chain'.owner == chain.owner
    && forall id :: id in chain.stored ==> id in chain'.stored && chain'.stored[id] == chain.stored[id]
  }

  lemma {:induction false} AddUpToGrows(r: Registry, names: seq<string>, n: nat)
    requires n <= |names| && Contiguous(r)
    ensures AddUpTo(r, names, n).Ok? ==>
      && Contiguous(AddUpTo(r, names, n).value) && RegistryGrows(r, AddUpTo(r, names, n).value)
      && AddUpTo(r, names, n).value.counter == r.counter + n
      && forall i :: 0 <= i < n ==> NameOf(AddUpTo(r, names, n).value, r.counter + 1 + i) == names[i] != ""
  {
    if n == 0 {
    } else {
      AddUpToGrows(r, names, n - 1);
    }
  }

  const NEW_REGISTRY := Registry(0, map[])

  /** A freshly deployed match registry: no entry, no recorded signer. */
  function Deployed(owner: Address, competitions: Registry, teams: Registry, signer: Address): Chain {
    Chain(owner, competitions, teams, signer, {}, map[])
  }

  /** A deployment that does not revert establishes the invariant. */
  lemma DeploymentEstablishes(c: Crypto, owner: Address, competitions: seq<string>, teams: seq<string>, signer: Address)
    requires AddBatch(NEW_REGISTRY, competitions).Ok? && AddBatch(NEW_REGISTRY, teams).Ok? && signer != 0
    ensures ChainInv(c, Deployed(owner, AddBatch(NEW_REGISTRY, competitions).value,
                                 AddBatch(NEW_REGISTRY, teams).value, signer))
  {
    AddUpToGrows(NEW_REGISTRY, competitions, |competitions|);
    AddUpToGrows(NEW_REGISTRY, teams, |teams|);
  }

  lemma KeyValidGrows(chain: Chain, chain': Chain, key: Key)
    requires Grows(chain, chain') && KeyValid(chain, key)
    ensures KeyValid(chain', key)
  {
  }

  lemma AcceptedIsNew(c: Crypto, d: Domain, chain: Chain, s: Submission)
    requires IdealHash(c.keccak, d) && ChainInv(c, chain) && Refusal(c, d, chain, s).None?
    ensures s.matchId !in chain.stored && s.matchId == KeyHash(c.keccak, s.key)
  {
    assert KeyHash(c.keccak, s.key) != ZERO32;
    assert s.matchId in chain.stored ==> EntryValid(c, chain, s.matchId);
  }

  lemma RefusesInvalid(c: Crypto, d: Domain, chain: Chain, s: Submission)
    requires Refusal(c, d, chain, s).None?
    ensures KeyValid(chain, s.key) && KeyHash(c.keccak, s.key) == s.matchId
    ensures s.home <= 80 && s.away <= 80
  {
  }

  /** Every call keeps the invariant and only adds. */
  lemma ExecKeeps(c: Crypto, d: Domain, chain: Chain, call: Call)
    requires IdealHash(c.keccak, d) && ChainInv(c, chain)
    ensures ChainInv(c, After(c, d, chain, call)) && Grows(chain, After(c, d, chain, call))
  {
    hide KeyHash, SignatureRefusal, IdealHash, AddUpTo, KeyValid;
    var chain' := After(c, d, chain, call);
    if call.AddTeams? && |call.names| <= MAX_BATCH {
      AddUpToGrows(chain.teams, call.names, |call.names|);
    } else if call.AddCompetition? {
      AddUpToGrows(chain.competitions, [call.name], 1);
    } else if call.Submit? && Refusal(c, d, chain, call.s).None? {
      AcceptedIsNew(c, d, chain, call.s);
      RefusesInvalid(c, d, chain, call.s);
    }
    assert Grows(chain, chain');
    forall id | id in chain'.stored ensures EntryValid(c, chain', id) {
      if id in chain.stored {
        assert EntryValid(c, chain, id);
        var key: Key :| KeyValid(chain, key) && KeyHash(c.keccak, key) == id;
        KeyValidGrows(chain, chain', key);
      } else {
        KeyValidGrows(chain, chain', call.s.key);
      }
    }
  }

  lemma {:induction false} RunKeeps(c: Crypto, d: Domain, chain: Chain, calls: seq<Call>)
    requires IdealHash(c.keccak, d) && ChainInv(c, chain)
    ensures ChainInv(c, RunCalls(c, d, chain, calls)) && Grows(chain, RunCalls(c, d, chain, calls))
  {
    if calls == [] {
    } else {
      RunKeeps(c, d, chain, calls[..|calls| - 1]);
      ExecKeeps(c, d, RunCalls(c, d, chain, calls[..|calls| - 1]), calls[|calls| - 1]);
    }
  }

  // ---- Main results ----

  /**
    Once a submission is accepted, after any further calls whatever, a submission of the same id with
    its matching fields and scores of at most 80 reverts with MatchAlreadySubmitted and nothing else.
   */
  lemma ResubmissionIsStable(c: Crypto, d: Domain, chain: Chain, first: Submission, calls: seq<Call>, again: Submission)
    requires IdealHash(c.keccak, d) && ChainInv(c, chain)
    requires Exec(c, d, chain, Submit(first)).Ok?
    requires again.matchId == first.matchId == KeyHash(c.keccak, again.key)
    requires again.home <= 80 && again.away <= 80
    ensures Exec(c, d, RunCalls(c, d, After(c, d, chain, Submit(first)), calls), Submit(again))
            == Err(MatchAlreadySubmitted(first.matchId))
  {
    hide SignatureRefusal, Contiguous;
    var chain1 := After(c, d, chain, Submit(first));
    ExecKeeps(c, d, chain, Submit(first));
    RunKeeps(c, d, chain1, calls);
    KeyHashInjective(c.keccak, d, first.key, again.key);
    KeyValidGrows(chain1, RunCalls(c, d, chain1, calls), first.key);
    assert EntryValid(c, RunCalls(c, d, chain1, calls), first.matchId);
    assert KeyHash(c.keccak, first.key) != ZERO32;
  }

  /** `after` is `before` with one new entry for each accepted submission, and nothing else. */
  ghost predicate FoldOf(c: Crypto, before: map<bytes32, Entry>, accepted: seq<Submission>, after: map<bytes32,
                         Entry>) {
    && (forall i :: 0 <= i < |accepted| ==>
          && accepted[i].matchId == KeyHash(c.keccak, accepted[i].key)
          && accepted[i].matchId !in before && accepted[i].matchId in after
          && after[accepted[i].matchId] == Entry(accepted[i].matchId, accepted[i].home, accepted[i].away))
    && (forall i, j :: 0 <= i < j < |accepted| ==> accepted[i].matchId != accepted[j].matchId)
    && (forall id :: id in before ==> id in after && after[id] == before[id])
    && (forall id :: id in after && id !in before ==> exists i :: 0 <= i < |accepted| && accepted[i].matchId == id)
  }

  lemma FoldStaysDistinct(accepted: seq<Submission>, after: map<bytes32, Entry>, s: Submission)
    requires forall i :: 0 <= i < |accepted| ==> accepted[i].matchId in after
    requires forall i, j :: 0 <= i < j < |accepted| ==> accepted[i].matchId != accepted[j].matchId
    requires s.matchId !in after
    ensures forall i, j :: 0 <= i < j < |accepted + [s]| ==> (accepted + [s])[i].matchId != (accepted + [s])[j].matchId
  {
  }

  lemma FoldStaysCovered(before: map<bytes32, Entry>, accepted: seq<Submission>, after: map<bytes32, Entry>,
                         s: Submission, id: bytes32)
    requires id in after && id !in before ==> exists i :: 0 <= i < |accepted| && accepted[i].matchId == id
    requires (id in after || id == s.matchId) && id !in before
    ensures exists i :: 0 <= i < |accepted + [s]| && (accepted + [s])[i].matchId == id
  {
    if id == s.matchId {
      assert (accepted + [s])[|accepted|].matchId == id;
    } else {
      var i :| 0 <= i < |accepted| && accepted[i].matchId == id;
      assert (accepted + [s])[i].matchId == id;
    }
  }

  lemma FoldExtends(c: Crypto, before: map<bytes32, Entry>, accepted: seq<Submission>, after: map<bytes32, Entry>,
                    s: Submission)
    requires FoldOf(c, before, accepted, after)
    requires s.matchId !in after && s.matchId == KeyHash(c.keccak, s.key)
    ensures FoldOf(c, before, accepted + [s], after[s.matchId := Entry(s.matchId, s.home, s.away)])
  {
    hide KeyHash;
    FoldStaysDistinct(accepted, after, s);
    var after' := after[s.matchId := Entry(s.matchId, s.home, s.away)];
    forall id | id in after' && id !in before
      ensures exists i :: 0 <= i < |accepted + [s]| && (accepted + [s])[i].matchId == id
    {
      FoldStaysCovered(before, accepted, after, s, id);
    }
  }

  /** What a call does to the store: one new entry for an accepted submission, nothing otherwise. */
  lemma StoredByCall(c: Crypto, d: Domain, chain: Chain, call: Call)
    ensures AcceptedOf(c, d, chain, call) != [] ==>
      && call.Submit? && AcceptedOf(c, d, chain, call) == [call.s] && Refusal(c, d, chain, call.s).None?
      && After(c, d, chain, call).stored
         == chain.stored[call.s.matchId := Entry(call.s.matchId, call.s.home, call.s.away)]
    ensures AcceptedOf(c, d, chain, call) == [] ==> After(c, d, chain, call).stored == chain.stored
  {
    hide Refusal, AddBatch, AddUpTo;
  }

  lemma FoldStep(c: Crypto, d: Domain, before: map<bytes32, Entry>, accepted: seq<Submission>, chain: Chain, call: Call)
    requires IdealHash(c.keccak, d) && ChainInv(c, chain) && FoldOf(c, before, accepted, chain.stored)
    ensures FoldOf(c, before, accepted + AcceptedOf(c, d, chain, call), After(c, d, chain, call).stored)
  {
    hide AcceptedOf, After, Refusal, FoldOf, ChainInv, IdealHash;
    StoredByCall(c, d, chain, call);
    if AcceptedOf(c, d, chain, call) == [] {
      assert accepted + [] == accepted;
    } else {
      AcceptedIsNew(c, d, chain, call.s);
      FoldExtends(c, before, accepted, chain.stored, call.s);
    }
  }

  /** The stored map is the fold of the accepted submissions; no id is accepted twice. */
  lemma {:induction false} StoreIsFoldOfAccepted(c: Crypto, d: Domain, chain: Chain, calls: seq<Call>)
    requires IdealHash(c.keccak, d) && ChainInv(c, chain)
    ensures FoldOf(c, chain.stored, Accepted(c, d, chain, calls), RunCalls(c, d, chain, calls).stored)
  {
    if calls == [] {
    } else {
      var front, last := calls[..|calls| - 1], calls[|calls| - 1];
      StoreIsFoldOfAccepted(c, d, chain, front);
      RunKeeps(c, d, chain, front);
      FoldStep(c, d, chain.stored, Accepted(c, d, chain, front), RunCalls(c, d, chain, front), last);
    }
  }

  lemma FoldLookup(c: Crypto, d: Domain, accepted: seq<Submission>, stored: map<bytes32, Entry>, key: Key)
    requires IdealHash(c.keccak, d) && FoldOf(c, map[], accepted, stored)
    ensures forall i :: 0 <= i < |accepted| && accepted[i].key == key ==>
      Lookup(stored, KeyHash(c.keccak, key)) == Entry(KeyHash(c.keccak, key), accepted[i].home, accepted[i].away)
    ensures Lookup(stored, KeyHash(c.keccak, key)) == NO_ENTRY <==>
      forall i :: 0 <= i < |accepted| ==> accepted[i].key != key
  {
    hide Hashed;
    var id := KeyHash(c.keccak, key);
    assert id != ZERO32;
    hide IdealHash, KeyHash;
    if id in stored {
      var j :| 0 <= j < |accepted| && accepted[j].matchId == id;
      KeyHashInjective(c.keccak, d, accepted[j].key, key);
    }
  }

  /**
    From an empty store, getMatch on four fields returns the one entry accepted for them, and the
    zero entry exactly when none was.
   */
  lemma GetMatchReturnsAccepted(c: Crypto, d: Domain, chain: Chain, calls: seq<Call>, key: Key)
    requires IdealHash(c.keccak, d) && ChainInv(c, chain) && chain.stored == map[]
    ensures forall i :: 0 <= i < |Accepted(c, d, chain, calls)| && Accepted(c, d, chain, calls)[i].key == key ==>
      GetMatch(c, RunCalls(c, d, chain, calls), key)
      == Entry(KeyHash(c.keccak, key), Accepted(c, d, chain, calls)[i].home, Accepted(c, d, chain, calls)[i].away)
    ensures GetMatch(c, RunCalls(c, d, chain, calls), key) == NO_ENTRY <==>
      forall i :: 0 <= i < |Accepted(c, d, chain, calls)| ==> Accepted(c, d, chain, calls)[i].key != key
  {
    StoreIsFoldOfAccepted(c, d, chain, calls);
    FoldLookup(c, d, Accepted(c, d, chain, calls), RunCalls(c, d, chain, calls).stored, key);
  }

  /**
    From a deployment, any calls whatever: names stand exactly at 1..counter, the store is the accepted
    submissions and nothing else, each by a registered key, with scores of at most 80.
   */
  lemma RunsFromDeployment(c: Crypto, d: Domain, owner: Address, competitions: seq<string>, teams: seq<string>,
                           signer: Address, calls: seq<Call>)
    requires IdealHash(c.keccak, d) && signer != 0
    requires AddBatch(NEW_REGISTRY, competitions).Ok? && AddBatch(NEW_REGISTRY, teams).Ok?
    ensures var start := Deployed(owner, AddBatch(NEW_REGISTRY, competitions).value,
                                  AddBatch(NEW_REGISTRY, teams).value, signer);
      var end := RunCalls(c, d, start, calls);
      && ChainInv(c, end) && Grows(start, end)
      && FoldOf(c, map[], Accepted(c, d, start, calls), end.stored)
      && HistoryOf(start, Rotations(c, d, start, calls), end)
  {
    hide ChainInv, FoldOf, HistoryOf, Grows, AddBatch, RunCalls, Accepted, Rotations;
    var start := Deployed(owner, AddBatch(NEW_REGISTRY, competitions).value,
                          AddBatch(NEW_REGISTRY, teams).value, signer);
    DeploymentEstablishes(c, owner, competitions, teams, signer);
    RunKeeps(c, d, start, calls);
    StoreIsFoldOfAccepted(c, d, start, calls);
    RotationHistory(c, d, start, calls);
  }

  ghost predicate HistoryOf(start: Chain, r: seq<Address>, end: Chain) {
    && (forall i :: 0 <= i < |r| ==> r[i] != 0 && r[i] !in start.used)
    && (forall i, j :: 0 <= i < j < |r| ==> r[i] != r[j])
    && (forall a :: a in end.used <==> a in start.used || a in r)
    && end.signer == (if r == [] then start.signer else r[|r| - 1])
    && end.owner == start.owner
  }

  lemma RotationStep(c: Crypto, d: Domain, start: Chain, r: seq<Address>, chain: Chain, call: Call)
    requires HistoryOf(start, r, chain) && 0 !in start.used
    ensures HistoryOf(start, r + RotationOf(c, d, chain, call), After(c, d, chain, call))
  {
    hide Refusal, AddBatch, AddUpTo;
    if RotationOf(c, d, chain, call) == [] {
      assert r + [] == r;
    }
  }

  /**
    Rotation targets are non-zero, pairwise distinct and new; the history holds exactly them; the
    authorised signer is the last of them, or the deployment's.
   */
  lemma {:induction false} RotationHistory(c: Crypto, d: Domain, chain: Chain, calls: seq<Call>)
    requires 0 !in chain.used
    ensures HistoryOf(chain, Rotations(c, d, chain, calls), RunCalls(c, d, chain, calls))
  {
    if calls == [] {
    } else {
      hide HistoryOf, After, RotationOf;
      var front := calls[..|calls| - 1];
      RotationHistory(c, d, chain, front);
      RotationStep(c, d, chain, Rotations(c, d, chain, front), RunCalls(c, d, chain, front), calls[|calls| - 1]);
    }
  }

  /**
    Whether an address that has been authorised before can be authorised again by the owner: only the
    deployment's own signer, and only until it is once the target of a rotation.
   */
  lemma {:induction false} SignerReuse(c: Crypto, d: Domain, chain: Chain, calls: seq<Call>, a: Address)
    requires chain.used == {} && chain.signer != 0
    requires a == chain.signer || a in Rotations(c, d, chain, calls)
    ensures Exec(c, d, RunCalls(c, d, chain, calls), Rotate(chain.owner, a)).Ok?
            <==> a == chain.signer && a !in Rotations(c, d, chain, calls)
  {
    RotationHistory(c, d, chain, calls);
  }

  /**
    Nobody but the owner changes the signer, the history or a registry: over any calls of which none is the owner's,
    whatever is submitted meanwhile, they stay as they are.
   */
  lemma {:induction false} StrangersChangeNothing(c: Crypto, d: Domain, chain: Chain, calls: seq<Call>)
    requires forall call :: call in calls ==> call.Submit? || call.sender != chain.owner
    ensures var end := RunCalls(c, d, chain, calls);
      (end.owner, end.signer, end.used, end.teams, end.competitions)
      == (chain.owner, chain.signer, chain.used, chain.teams, chain.competitions)
  {
    hide Refusal, AddBatch, AddUpTo;
    if calls == [] {
    } else {
      StrangersChangeNothing(c, d, chain, calls[..|calls| - 1]);
      assert calls[|calls| - 1] in calls;
    }
  }

  /** A rotation succeeds exactly for the owner, on an address that is not zero and was no rotation's target before. */
  lemma RotatesIff(c: Crypto, d: Domain, chain: Chain, calls: seq<Call>, sender: Address, a: Address)
    requires chain.used == {}
    ensures Exec(c, d, RunCalls(c, d, chain, calls), Rotate(sender, a)).Ok?
            <==> sender == chain.owner && a != 0 && a !in Rotations(c, d, chain, calls)
  {
    RotationHistory(c, d, chain, calls);
  }

  // ---- Dates ----

  /** The YYYYMMDD number of a date lies in the contract's range exactly for the years 2010 to 2100. */
  lemma YearInRange(t: Timestamp)
    ensures 20100101 <= t.year * 10000 + t.month * 100 + t.day <= 21001231 <==> 2010 <= t.year <= 2100
  {
  }

  /**
    For a match that the pipeline can identify, with the code its date has, the contract refuses the date exactly when
    the year is before 2010 or after 2100.
   */
  lemma DateRefusedIff(c: Crypto, d: Domain, chain: Chain, s: Submission, t: Timestamp)
    requires s.key.home != s.key.away && s.matchId == KeyHash(c.keccak, s.key)
    requires ProviderDateCode(t).Some? && s.key.date == RelayerDateCode(t)
    ensures Exec(c, d, chain, Submit(s)) == Err(InvalidMatchDate(s.key.date)) <==> t.year < 2010 || t.year > 2100
  {
    hide ProviderDateCode, Digest, Lookup, KeyHash;
    DateCodesAgree(t);
    YearInRange(t);
  }

  /** The documentation's "previous signers cannot be reused" fails after one rotation away and back. */
  lemma DeploymentSignerReturns(c: Crypto, d: Domain, owner: Address)
    ensures var chain := Deployed(owner, NEW_REGISTRY, NEW_REGISTRY, 1);
      RunCalls(c, d, chain, [Rotate(owner, 2), Rotate(owner, 1)]).signer == 1
      && Rotations(c, d, chain, [Rotate(owner, 2), Rotate(owner, 1)]) == [2, 1]
  {
    var chain := Deployed(owner, NEW_REGISTRY, NEW_REGISTRY, 1);
    var calls := [Rotate(owner, 2), Rotate(owner, 1)];
    assert calls[..1] == [Rotate(owner, 2)] && calls[..1][..0] == [];
    assert RunCalls(c, d, chain, calls[..1]) == chain.(used := {2}, signer := 2);
    assert Rotations(c, d, chain, calls[..1]) == [2];
  }

  /** A batch is all or nothing: it succeeds exactly when every name is non-empty and the ids suffice. */
  lemma {:induction false} BatchSucceedsIff(r: Registry, names: seq<string>, n: nat)
    requires n <= |names|
    ensures AddUpTo(r, names, n).Ok?
            <==> (forall i :: 0 <= i < n ==> names[i] != "") && r.counter + n <= 4294967295
    ensures AddUpTo(r, names, n).Ok? ==> AddUpTo(r, names, n).value.counter == r.counter + n
  {
    if n == 0 {
    } else {
      BatchSucceedsIff(r, names, n - 1);
    }
  }
}
