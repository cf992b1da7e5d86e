/**
  The contracts as deployed objects whose transactions change storage in place. A method that returns
  Err is a revert: the writes it made are undone. Each method is proved against its Oracle function.
 */
module Contracts {
  import opened Wrappers
  import opened Bytes
  import opened Entity
  import opened Eip712
  import opened Crypto
  import opened Oracle

  /** `added` stands at the next ids, in order, and every other id reads as before. */
  ghost predicate Appended(counter: uint32, names: map<uint32, string>, added: seq<string>, counter': uint32,
                           names': map<uint32, string>) {
    && counter' == counter + |added|
    && (forall id: uint32 :: id in names' <==> id in names || counter < id <= counter')
    && (forall id :: id in names' ==>
          names'[id] == if counter < id <= counter' then added[id - counter - 1] else names[id])
  }

  predicate AllNamed(names: seq<string>) {
    forall i :: 0 <= i < |names| ==> names[i] != ""
  }

  lemma NothingAppended(counter: uint32, names: map<uint32, string>)
    ensures Appended(counter, names, [], counter, names)
  {
  }

  lemma OneAppended(counter: uint32, names: map<uint32, string>, added: seq<string>, name: string, counter': uint32,
                    names': map<uint32, string>)
    requires Appended(counter, names, added, counter', names') && counter' < 4294967295
    ensures Appended(counter, names, added + [name], counter' + 1, names'[counter' + 1 := name])
  {
  }

  class TeamRegistry {
    const owner: Address
    var teamIdCounter: uint32
    var teams: map<uint32, string>

    function View(): Registry
      reads this
    {
      Registry(teamIdCounter, teams)
    }

    constructor Empty(owner: Address)
      ensures this.owner == owner && View() == NEW_REGISTRY
    {
      this.owner := owner;
      teamIdCounter := 0;
      teams := map[];
    }

    static method Deploy(sender: Address, teamNames: seq<string>) returns (r: Result<TeamRegistry, Revert>)
      ensures r.Ok? ==> fresh(r.value) && r.value.owner == sender
      ensures r.Ok? ==> AddBatch(NEW_REGISTRY, teamNames) == Ok(r.value.View())
      ensures r.Err? ==> AddBatch(NEW_REGISTRY, teamNames) == Err(r.error)
      ensures r.Ok? <==> |teamNames| <= 200 && AllNamed(teamNames)
      ensures |teamNames| > 200 ==> r == Err(TooManyNames(|teamNames|))
      ensures r.Ok? ==> Appended(0, map[], teamNames, r.value.teamIdCounter, r.value.teams)
    {
      if |teamNames| > MAX_BATCH {
        return Err(TooManyNames(|teamNames|));
      }
      var registry := new TeamRegistry.Empty(sender);
      var added := registry.Add(teamNames);
      if added.Err? {
        return Err(added.error);
      }
      return Ok(registry);
    }

    method AddTeams(sender: Address, teamNames: seq<string>) returns (r: Result<(), Revert>)
      modifies this
      ensures sender != owner ==> r == Err(NotOwner)
      ensures sender == owner && r.Err? ==> AddBatch(old(View()), teamNames) == Err(r.error)
      ensures r.Err? ==> View() == old(View())
      ensures r.Ok? ==> AddBatch(old(View()), teamNames) == Ok(View())
      ensures sender == owner && |teamNames| > 200 ==> r == Err(TooManyNames(|teamNames|))
      ensures r.Ok? <==>
        sender == owner && |teamNames| <= 200 && AllNamed(teamNames) && old(teamIdCounter) + |teamNames| <= 4294967295
      ensures r.Ok? ==> Appended(old(teamIdCounter), old(teams), teamNames, teamIdCounter, teams)
    {
      if sender != owner {
        return Err(NotOwner);
      }
      if |teamNames| > MAX_BATCH {
        return Err(TooManyNames(|teamNames|));
      }
      r := Add(teamNames);
    }

    method Add(teamNames: seq<string>) returns (r: Result<(), Revert>)
      modifies this
      ensures r.Err? ==> View() == old(View()) && AddUpTo(old(View()), teamNames, |teamNames|) == Err(r.error)
      ensures r.Ok? ==> AddUpTo(old(View()), teamNames, |teamNames|) == Ok(View())
      ensures r.Ok? <==> AllNamed(teamNames) && old(teamIdCounter) + |teamNames| <= 4294967295
      ensures r.Ok? ==> Appended(old(teamIdCounter), old(teams), teamNames, teamIdCounter, teams)
    {
      hide Appended;
      BatchSucceedsIff(View(), teamNames, |teamNames|);
      NothingAppended(teamIdCounter, teams);
      var start := teams;
      var counter := teamIdCounter;
      var i := 0;
      while i < |teamNames|
        invariant 0 <= i <= |teamNames| && teamIdCounter == old(teamIdCounter) && start == old(teams)
        invariant AddUpTo(old(View()), teamNames, i) == Ok(Registry(counter, teams))
        invariant Appended(old(teamIdCounter), old(teams), teamNames[..i], counter, teams)
      {
        if teamNames[i] == "" {
          teams := start;
          StaysReverted(old(View()), teamNames, i + 1, |teamNames|);
          return Err(EmptyName);
        }
        if counter == MAX_UINT32 {
          teams := start;
          StaysReverted(old(View()), teamNames, i + 1, |teamNames|);
          return Err(CounterOverflow);
        }
        OneAppended(teamIdCounter, start, teamNames[..i], teamNames[i], counter, teams);
        assert teamNames[..i + 1] == teamNames[..i] + [teamNames[i]];
        counter := counter + 1;
        teams := teams[counter := teamNames[i]];
        i := i + 1;
      }
      assert teamNames[..|teamNames|] == teamNames;
      teamIdCounter := counter;
      return Ok(());
    }
  }

  /** A batch that reverts at one name reverts as a whole, with that error. */
  lemma {:induction false} StaysReverted(r: Registry, names: seq<string>, m: nat, n: nat)
    requires m <= n <= |names| && AddUpTo(r, names, m).Err?
    ensures AddUpTo(r, names, n) == AddUpTo(r, names, m)
  {
    if m == n {
    } else {
      StaysReverted(r, names, m, n - 1);
    }
  }

  class CompetitionRegistry {
    const owner: Address
    var competitionIdCounter: uint32
    var competitions: map<uint32, string>

    function View(): Registry
      reads this
    {
      Registry(competitionIdCounter, competitions)
    }

    constructor Empty(owner: Address)
      ensures this.owner == owner && View() == NEW_REGISTRY
    {
      this.owner := owner;
      competitionIdCounter := 0;
      competitions := map[];
    }

    /** The error of an oversized batch carries the length converted to uint8. */
    static method Deploy(sender: Address, names: seq<string>) returns (r: Result<CompetitionRegistry, Revert>)
      ensures |names| > MAX_BATCH ==> r == Err(TooManyNames(|names| % 256))
      ensures |names| <= MAX_BATCH && r.Err? ==> AddUpTo(NEW_REGISTRY, names, |names|) == Err(r.error)
      ensures r.Ok? ==> fresh(r.value) && r.value.owner == sender
      ensures r.Ok? ==> AddUpTo(NEW_REGISTRY, names, |names|) == Ok(r.value.View())
      ensures r.Ok? <==> |names| <= 200 && AllNamed(names)
      ensures |names| > 200 ==> r == Err(TooManyNames(|names| % 256))
      ensures r.Ok? ==> Appended(0, map[], names, r.value.competitionIdCounter, r.value.competitions)
    {
      hide Appended;
      NothingAppended(0, map[]);
      BatchSucceedsIff(NEW_REGISTRY, names, |names|);
      if |names| > MAX_BATCH {
        return Err(TooManyNames(|names| % 256));
      }
      var registry := new CompetitionRegistry.Empty(sender);
      var counter := registry.competitionIdCounter;
      var i := 0;
      while i < |names|
        invariant 0 <= i <= |names|
        invariant AddUpTo(NEW_REGISTRY, names, i) == Ok(Registry(counter, registry.competitions))
        invariant Appended(0, map[], names[..i], counter, registry.competitions)
      {
        if names[i] == "" {
          StaysReverted(NEW_REGISTRY, names, i + 1, |names|);
          return Err(EmptyName);
        }
        if counter == MAX_UINT32 {
          StaysReverted(NEW_REGISTRY, names, i + 1, |names|);
          return Err(CounterOverflow);
        }
        OneAppended(0, map[], names[..i], names[i], counter, registry.competitions);
        assert names[..i + 1] == names[..i] + [names[i]];
        counter := counter + 1;
        registry.competitions := registry.competitions[counter := names[i]];
        i := i + 1;
      }
      assert names[..|names|] == names;
      registry.competitionIdCounter := counter;
      return Ok(registry);
    }

    method Add(sender: Address, name: string) returns (r: Result<(), Revert>)
      modifies this
      ensures sender != owner ==> r == Err(NotOwner)
      ensures r.Err? ==> View() == old(View())
      ensures sender == owner && r.Err? ==> AddUpTo(old(View()), [name], 1) == Err(r.error)
      ensures r.Ok? ==> AddUpTo(old(View()), [name], 1) == Ok(View())
      ensures r.Ok? <==> sender == owner && name != "" && old(competitionIdCounter) < 4294967295
      ensures r == Err(EmptyName) <==> sender == owner && name == ""
      ensures r.Ok? ==> competitionIdCounter == old(competitionIdCounter) + 1
      ensures r.Ok? ==> competitions == old(competitions)[competitionIdCounter := name]
    {
      assert AddUpTo(View(), [name], 0) == Ok(View());
      if sender != owner {
        return Err(NotOwner);
      }
      if name == "" {
        return Err(EmptyName);
      }
      if competitionIdCounter == MAX_UINT32 {
        return Err(CounterOverflow);
      }
      competitionIdCounter := competitionIdCounter + 1;
      competitions := competitions[competitionIdCounter := name];
      return Ok(());
    }
  }

  /** A non-empty name stands under the id. */
  predicate Named(names: map<uint32, string>, id: uint32) {
    id in names && names[id] != ""
  }

  /** The mapping's slot of the id does not read as empty. */
  predicate HoldsId(matches: map<bytes32, Entry>, id: bytes32) {
    id in matches && matches[id].matchId != ZERO32
  }

  /** Whoever signed the typed data of this result, if anybody did. */
  function SignerOf(crypto: Crypto, domain: Domain, matchId: bytes32, home: byte, away: byte, signature: seq<byte>)
    : Option<Address>
  {
    crypto.recover(crypto.keccak(TypedDataBytes(crypto.keccak, domain, matchId, home, away)), signature)
  }

  class MatchRegistry {
    const crypto: Crypto
    const domain: Domain
    const owner: Address
    const competitionRegistry: CompetitionRegistry
    const teamRegistry: TeamRegistry
    var authorizedSigner: Address
    var signersHistory: set<Address>
    var matches: map<bytes32, Entry>

    /** The three contracts as one value. */
    function View(): Chain
      reads this, competitionRegistry, teamRegistry
    {
      Chain(owner, competitionRegistry.View(), teamRegistry.View(), authorizedSigner, signersHistory, matches)
    }

    constructor Init(crypto: Crypto, domain: Domain, sender: Address, signer: Address,
                     competitions: CompetitionRegistry, teams: TeamRegistry)
      requires signer != 0
      ensures View() == Chain(sender, competitions.View(), teams.View(), signer, {}, map[])
      ensures this.crypto == crypto && this.domain == domain && owner == sender
      ensures competitionRegistry == competitions && teamRegistry == teams
    {
      this.crypto, this.domain, owner := crypto, domain, sender;
      competitionRegistry, teamRegistry := competitions, teams;
      authorizedSigner, signersHistory, matches := signer, {}, map[];
    }

    static method Deploy(crypto: Crypto, domain: Domain, sender: Address, signer: Address,
                         competitions: CompetitionRegistry, teams: TeamRegistry)
      returns (r: Result<MatchRegistry, Revert>)
      ensures r == Err(InvalidAuthorizedSigner) <==> signer == 0
      ensures signer != 0 ==> r.Ok? && fresh(r.value) && r.value.owner == sender
      ensures signer != 0 ==> r.value.crypto == crypto && r.value.domain == domain
      ensures signer != 0 ==> r.value.competitionRegistry == competitions && r.value.teamRegistry == teams
      ensures signer != 0 ==>
        r.value.View() == Chain(sender, competitions.View(), teams.View(), signer, {}, map[])
    {
      if signer == 0 {
        return Err(InvalidAuthorizedSigner);
      }
      var registry := new MatchRegistry.Init(crypto, domain, sender, signer, competitions, teams);
      return Ok(registry);
    }

    method RotateSigner(sender: Address, newSigner: Address) returns (r: Result<(), Revert>)
      modifies this
      ensures View() == After(crypto, domain, old(View()), Rotate(sender, newSigner))
      ensures r.Ok? <==> Exec(crypto, domain, old(View()), Rotate(sender, newSigner)).Ok?
      ensures r.Err? ==> Exec(crypto, domain, old(View()), Rotate(sender, newSigner)) == Err(r.error)
      ensures r.Ok? <==> sender == owner && newSigner != 0 && newSigner !in old(signersHistory)
      ensures r == Err(NotOwner) <==> sender != owner
      ensures r == Err(InvalidAuthorizedSigner) <==> sender == owner && newSigner == 0
      ensures r == Err(SignerAlreadyUsed(newSigner))
        <==> sender == owner && newSigner != 0 && newSigner in old(signersHistory)
      ensures r.Ok? ==> authorizedSigner == newSigner && signersHistory == old(signersHistory) + {newSigner}
      ensures r.Ok? ==> matches == old(matches)
      ensures r.Err? ==> View() == old(View())
    {
      if sender != owner {
        return Err(NotOwner);
      }
      if newSigner == 0 {
        return Err(InvalidAuthorizedSigner);
      }
      if newSigner in signersHistory {
        return Err(SignerAlreadyUsed(newSigner));
      }
      signersHistory := signersHistory + {newSigner};
      authorizedSigner := newSigner;
      return Ok(());
    }

    method SubmitMatch(matchId: bytes32, competitionId: uint32, homeTeamId: uint32, awayTeamId: uint32,
                       homeTeamScore: byte, awayTeamScore: byte, matchDate: uint32, signature: seq<byte>)
      returns (r: Result<(), Revert>)
      modifies this
      ensures var s := Submission(matchId, Key(competitionId, homeTeamId, awayTeamId, matchDate),
                                  homeTeamScore, awayTeamScore, signature);
        && View() == After(crypto, domain, old(View()), Submit(s))
        && (r.Ok? <==> Exec(crypto, domain, old(View()), Submit(s)).Ok?)
        && (r.Err? ==> Exec(crypto, domain, old(View()), Submit(s)) == Err(r.error))
      ensures var teams := homeTeamId != awayTeamId;
        var known := teams && crypto.keccak(PackKey(Key(competitionId, homeTeamId, awayTeamId, matchDate))) == matchId;
        var dated := known && 20100101 <= matchDate <= 21001231;
        var competition := dated && Named(competitionRegistry.competitions, competitionId);
        var home := competition && Named(teamRegistry.teams, homeTeamId);
        var away := home && Named(teamRegistry.teams, awayTeamId);
        var scored := away && homeTeamScore <= 80 && awayTeamScore <= 80;
        var isNew := scored && !HoldsId(old(matches), matchId);
        var signer := SignerOf(crypto, domain, matchId, homeTeamScore, awayTeamScore, signature);
        && (r == Err(InvalidTeams(homeTeamId, awayTeamId)) <==> !teams)
        && (r == Err(InvalidMatchId(matchId)) <==> teams && !known)
        && (r == Err(InvalidMatchDate(matchDate)) <==> known && !dated)
        && (r == Err(InvalidCompetitionId(competitionId)) <==> dated && !competition)
        && (r == Err(InvalidHomeTeamId(homeTeamId)) <==> competition && !home)
        && (r == Err(InvalidAwayTeamId(awayTeamId)) <==> home && !away)
        && (r == Err(InvalidScores(homeTeamScore, awayTeamScore)) <==> away && !scored)
        && (r == Err(MatchAlreadySubmitted(matchId)) <==> scored && !isNew)
        && (r == Err(MalformedSignature) <==> isNew && signer.None?)
        && (r == Err(InvalidSignature(signature)) <==> isNew && signer.Some? && signer != Some(authorizedSigner))
        && (r.Ok? <==> isNew && signer == Some(authorizedSigner))
      ensures r.Ok? ==> matches == old(matches)[matchId := Entry(matchId, homeTeamScore, awayTeamScore)]
      ensures r.Err? ==> matches == old(matches)
      ensures authorizedSigner == old(authorizedSigner) && signersHistory == old(signersHistory)
    {
      if homeTeamId == awayTeamId {
        return Err(InvalidTeams(homeTeamId, awayTeamId));
      }
      if crypto.keccak(PackKey(Key(competitionId, homeTeamId, awayTeamId, matchDate))) != matchId {
        return Err(InvalidMatchId(matchId));
      }
      if matchDate < 20100101 || matchDate > 21001231 {
        return Err(InvalidMatchDate(matchDate));
      }
      if |NameOf(competitionRegistry.View(), competitionId)| == 0 {
        return Err(InvalidCompetitionId(competitionId));
      }
      if |NameOf(teamRegistry.View(), homeTeamId)| == 0 {
        return Err(InvalidHomeTeamId(homeTeamId));
      }
      if |NameOf(teamRegistry.View(), awayTeamId)| == 0 {
        return Err(InvalidAwayTeamId(awayTeamId));
      }
      if homeTeamScore > MAX_SCORE || awayTeamScore > MAX_SCORE {
        return Err(InvalidScores(homeTeamScore, awayTeamScore));
      }
      if Lookup(matches, matchId).matchId != ZERO32 {
        return Err(MatchAlreadySubmitted(matchId));
      }
      var signed := ValidateSignature(matchId, homeTeamScore, awayTeamScore, signature);
      if signed.Err? {
        return Err(signed.error);
      }
      matches := matches[matchId := Entry(matchId, homeTeamScore, awayTeamScore)];
      return Ok(());
    }

    method ValidateSignature(matchId: bytes32, home: byte, away: byte, signature: seq<byte>)
      returns (r: Result<(), Revert>)
      ensures forall key :: var s := Submission(matchId, key, home, away, signature);
        r == (match SignatureRefusal(crypto, domain, authorizedSigner, s) case None => Ok(()) case Some(e) => Err(e))
      ensures var signer := SignerOf(crypto, domain, matchId, home, away, signature);
        && (r == Err(MalformedSignature) <==> signer.None?)
        && (r == Err(InvalidSignature(signature)) <==> signer.Some? && signer != Some(authorizedSigner))
        && (r.Ok? <==> signer == Some(authorizedSigner))
    {
      DigestOfTypedData(crypto.keccak, domain, matchId, home, away);
      var digest := Digest(crypto.keccak, domain, matchId, home, away);
      var signer := crypto.recover(digest, signature);
      if signer.None? {
        return Err(MalformedSignature);
      }
      if signer.value != authorizedSigner {
        return Err(InvalidSignature(signature));
      }
      return Ok(());
    }

    method GetMatch(competitionId: uint32, homeTeamId: uint32, awayTeamId: uint32, matchDate: uint32)
      returns (entry: Entry)
      ensures entry == Oracle.GetMatch(crypto, View(), Key(competitionId, homeTeamId, awayTeamId, matchDate))
      ensures var id := crypto.keccak(PackKey(Key(competitionId, homeTeamId, awayTeamId, matchDate)));
        entry == if id in matches then matches[id] else Entry(ZERO32, 0, 0)
    {
      entry := Lookup(matches, crypto.keccak(PackKey(Key(competitionId, homeTeamId, awayTeamId, matchDate))));
    }
  }

  // ---- The three contracts together ----

  /** One account deployed all three. */
  ghost predicate OneOwner(registry: MatchRegistry) {
    registry.competitionRegistry.owner == registry.teamRegistry.owner == registry.owner
  }

  /** The deployment: the first contract that reverts ends it. */
  method DeployAll(crypto: Crypto, domain: Domain, sender: Address, signer: Address,
                   competitionNames: seq<string>, teamNames: seq<string>)
    returns (r: Result<MatchRegistry, Revert>)
    ensures r.Ok? ==> fresh(r.value) && fresh(r.value.competitionRegistry) && fresh(r.value.teamRegistry)
    ensures r.Ok? ==> OneOwner(r.value) && r.value.crypto == crypto && r.value.domain == domain
    ensures r.Ok? ==> ChainInv(crypto, r.value.View())
    ensures r.Ok? <==>
      && |competitionNames| <= 200 && AllNamed(competitionNames)
      && |teamNames| <= 200 && AllNamed(teamNames) && signer != 0
    ensures r.Ok? <==>
      AddBatch(NEW_REGISTRY, competitionNames).Ok? && AddBatch(NEW_REGISTRY, teamNames).Ok? && signer != 0
    ensures r.Ok? ==>
      r.value.View() == Deployed(sender, AddBatch(NEW_REGISTRY, competitionNames).value,
                                 AddBatch(NEW_REGISTRY, teamNames).value, signer)
  {
    hide ChainInv;
    var competitions := CompetitionRegistry.Deploy(sender, competitionNames);
    if competitions.Err? {
      return Err(competitions.error);
    }
    var teams := TeamRegistry.Deploy(sender, teamNames);
    if teams.Err? {
      return Err(teams.error);
    }
    r := MatchRegistry.Deploy(crypto, domain, sender, signer, competitions.value, teams.value);
    if r.Ok? {
      DeploymentEstablishes(crypto, sender, competitionNames, teamNames, signer);
    }
  }

  /** A transaction to whichever contract it is for. */
  method Transact(registry: MatchRegistry, call: Call) returns (r: Result<(), Revert>)
    requires OneOwner(registry)
    modifies registry, registry.competitionRegistry, registry.teamRegistry
    ensures registry.View() == After(registry.crypto, registry.domain, old(registry.View()), call)
    ensures r.Ok? <==> Exec(registry.crypto, registry.domain, old(registry.View()), call).Ok?
    ensures r.Err? ==> Exec(registry.crypto, registry.domain, old(registry.View()), call) == Err(r.error)
  {
    hide Refusal, AddUpTo;
    match call
    case Submit(s) =>
      r := registry.SubmitMatch(s.matchId, s.key.comp, s.key.home, s.key.away, s.home, s.away, s.key.date, s.signature);
    case Rotate(sender, newSigner) => r := registry.RotateSigner(sender, newSigner);
    case AddTeams(sender, names) => r := registry.teamRegistry.AddTeams(sender, names);
    case AddCompetition(sender, name) => r := registry.competitionRegistry.Add(sender, name);
  }

  /** Any transactions in a row: those that revert leave everything as it was. */
  method TransactAll(registry: MatchRegistry, calls: seq<Call>)
    requires OneOwner(registry)
    modifies registry, registry.competitionRegistry, registry.teamRegistry
    ensures registry.View() == RunCalls(registry.crypto, registry.domain, old(registry.View()), calls)
    ensures IdealHash(registry.crypto.keccak, registry.domain) && old(ChainInv(registry.crypto, registry.View())) ==>
      ChainInv(registry.crypto, registry.View()) && Grows(old(registry.View()), registry.View())
  {
    hide Exec, After, ChainInv, Grows;
    ghost var start := registry.View();
    for i := 0 to |calls|
      invariant registry.View() == RunCalls(registry.crypto, registry.domain, start, calls[..i])
    {
      assert calls[..i + 1][..i] == calls[..i];
      var _ := Transact(registry, calls[i]);
    }
    assert calls[..|calls|] == calls;
    if IdealHash(registry.crypto.keccak, registry.domain) && ChainInv(registry.crypto, start) {
      RunKeeps(registry.crypto, registry.domain, start, calls);
    }
  }
}
