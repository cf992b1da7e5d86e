/** The relayer: signed matches into calldata, one broadcast each, and the row marked when it is on chain. */
module Relayer {
  import opened Wrappers
  import opened Bytes
  import opened Calendar
  import opened Entity
  import opened Eip712
  import opened Crypto
  import opened Oracle
  import opened Tables

  datatype RelayMatch = RelayMatch(
    id: Uuid, canonicalId: string, comp: uint32, home: uint32, away: uint32,
    homeScore: nat, awayScore: nat, start: uint32, signature: seq<byte>)

  /** A row of the query; a missing or undecodable signature skips it. */
  function RelayMatchOf(row: Row): Option<RelayMatch> {
    if row.signature.None? || HexDecode(TrimHexPrefix(row.signature.value)).None? then None
    else Some(RelayMatch(row.id, row.canonicalId, row.comp, row.home, row.away, row.homeScore, row.awayScore,
                         RelayerDateCode(row.start), HexDecode(TrimHexPrefix(row.signature.value)).value))
  }

  /** The arguments of submitMatch: the scores are narrowed to uint8. */
  function Calldata(m: RelayMatch): Submission {
    Submission(HexToHash(TrimHexPrefix(m.canonicalId)), Key(m.comp, m.home, m.away, m.start),
               m.homeScore % 256, m.awayScore % 256, m.signature)
  }

  function SignedMatches(matches: map<Ref, Row>, refs: seq<Ref>): seq<RelayMatch>
    requires forall r :: r in refs ==> r in matches
  {
    if refs == [] then []
    else
      var n := |refs| - 1;
      var last := RelayMatchOf(matches[refs[n]]);
      SignedMatches(matches, refs[..n]) + if last.None? then [] else [last.value]
  }

  // ---- Recognising the revert ----

  datatype ErrorData = NoData | TextData(text: string) | OtherData

  datatype SendError = PlainError | DataError(data: ErrorData)

  const ALREADY_SUBMITTED := "MatchAlreadySubmitted(bytes32)"

  /** The first four bytes of the hash of an error's signature. */
  function Selector(keccak: Keccak, signature: string): seq<byte> {
    keccak(TextBytes(signature))[..4]
  }

  /** The Solidity errors behind a revert of the model. */
  function Signatures(revert: Revert): set<string> {
    match revert
    case NotOwner => {"OwnableUnauthorizedAccount(address)"}
    case CounterOverflow => {"Panic(uint256)"}
    case EmptyName => {"InvalidTeamName()", "InvalidCompetitionName()"}
    case TooManyNames(_) => {"TooManyTeams(uint256)", "TooManyCompetitions(uint8)"}
    case InvalidAuthorizedSigner => {"InvalidAuthorizedSigner()"}
    case SignerAlreadyUsed(_) => {"SignerAlreadyUsed(address)"}
    case InvalidTeams(_, _) => {"InvalidTeams(uint32,uint32)"}
    case InvalidMatchId(_) => {"InvalidMatchId(bytes32)"}
    case InvalidMatchDate(_) => {"InvalidMatchDate(uint32)"}
    case InvalidCompetitionId(_) => {"InvalidCompetitionId(uint32)"}
    case InvalidHomeTeamId(_) => {"InvalidHomeTeamId(uint32)"}
    case InvalidAwayTeamId(_) => {"InvalidAwayTeamId(uint32)"}
    case InvalidScores(_, _) => {"InvalidScores(uint8,uint8)"}
    case MatchAlreadySubmitted(_) => {ALREADY_SUBMITTED}
    case MalformedSignature =>
      {"ECDSAInvalidSignature()", "ECDSAInvalidSignatureLength(uint256)", "ECDSAInvalidSignatureS(bytes32)"}
    case InvalidSignature(_) => {"InvalidSignature(bytes)"}
  }

  /** No other error of the contract has the selector of MatchAlreadySubmitted. */
  ghost predicate DistinctSelectors(keccak: Keccak) {
    forall revert, signature :: signature in Signatures(revert) && signature != ALREADY_SUBMITTED ==>
      Selector(keccak, signature) != Selector(keccak, ALREADY_SUBMITTED)
  }

  function IsMatchAlreadySubmitted(keccak: Keccak, err: SendError): bool {
    match err
    case PlainError => false
    case DataError(NoData) => false
    case DataError(OtherData) => false
    case DataError(TextData(text)) =>
      var bytes := HexDecode(TrimHexPrefix(text));
      bytes.Some? && |bytes.value| >= 4 && bytes.value[..4] == Selector(keccak, ALREADY_SUBMITTED)
  }

  /** The data is what the contract reverted with: an error's selector, then its encoded arguments. */
  ghost predicate HonestData(keccak: Keccak, revert: Revert, data: seq<byte>) {
    exists signature :: signature in Signatures(revert) && Selector(keccak, signature) <= data
  }

  /** The signature of MatchAlreadySubmitted stands behind that revert only. */
  lemma OnlyAlreadySubmitted(revert: Revert, signature: string)
    requires signature in Signatures(revert)
    ensures signature == ALREADY_SUBMITTED <==> revert.MatchAlreadySubmitted?
  {
  }

  /** Honest revert data is recognised, with or without "0x", exactly when the contract said already-submitted. */
  lemma RecognisedIff(keccak: Keccak, revert: Revert, data: seq<byte>)
    requires DistinctSelectors(keccak) && HonestData(keccak, revert, data)
    ensures IsMatchAlreadySubmitted(keccak, DataError(TextData("0x" + HexEncode(data))))
            <==> revert.MatchAlreadySubmitted?
    ensures IsMatchAlreadySubmitted(keccak, DataError(TextData(HexEncode(data)))) <==> revert.MatchAlreadySubmitted?
  {
    hide HexDecode, HexEncode, TrimHexPrefix, Signatures;
    HexSurvives(data);
    var signature :| signature in Signatures(revert) && Selector(keccak, signature) <= data;
    OnlyAlreadySubmitted(revert, signature);
    assert data[..4] == Selector(keccak, signature);
  }

  /**
    Recognised is exactly revert data in text that, after an optional "0x", is hex of at least four bytes, the first
    four of them the start of the hash of the error's signature.
   */
  lemma RecognisedOnlyBySelector(keccak: Keccak, err: SendError)
    ensures IsMatchAlreadySubmitted(keccak, err) <==>
      && err.DataError? && err.data.TextData?
      && SelectedBy(keccak, HexDecode(TrimHexPrefix(err.data.text)))
  {
  }

  predicate SelectedBy(keccak: Keccak, data: Option<seq<byte>>) {
    data.Some? && |data.value| >= 4 && data.value[..4] == keccak(TextBytes("MatchAlreadySubmitted(bytes32)"))[..4]
  }

  // ---- One broadcast ----

  datatype SendAnswer = Pooled(tx: nat) | Rejected(err: SendError)

  datatype ReceiptAnswer = NotFound | QueryError | Receipt(success: bool)

  /** What the node answered during one broadcast, and whether the transaction could be signed. */
  datatype Answers = Answers(nonce: bool, tip: bool, price: bool, gas: bool, signed: bool,
                             send: SendAnswer, polls: seq<ReceiptAnswer>)

  /** One question to the node with its answer. */
  datatype Query =
    | NonceQuery(ok: bool)
    | TipQuery(ok: bool)
    | PriceQuery(ok: bool)
    | GasQuery(ok: bool)
    | TxSigning(ok: bool)
    | Send(s: Submission, answer: SendAnswer)
    | Poll(tx: nat, receipt: ReceiptAnswer)

  function Polls(tx: nat, polls: seq<ReceiptAnswer>): seq<Query> {
    seq(|polls|, i requires 0 <= i < |polls| => Poll(tx, polls[i]))
  }

  /** The questions of a broadcast with these answers, in order: a failed one is the last, but for the gas estimate. */
  function Queries(s: Submission, a: Answers): seq<Query> {
    if !a.nonce then [NonceQuery(false)]
    else if !a.tip then [NonceQuery(true), TipQuery(false)]
    else if !a.price then [NonceQuery(true), TipQuery(true), PriceQuery(false)]
    else
      [NonceQuery(true), TipQuery(true), PriceQuery(true), GasQuery(a.gas), TxSigning(a.signed)]
      + if !a.signed then []
        else [Send(s, a.send)] + if a.send.Pooled? then Polls(a.send.tx, a.polls) else []
  }

  /**
    From the n-th entry on, the log of one broadcast: nonce, tip, price, gas and signing in this order, of which a
    failed one is the last but for the gas estimate; then the transaction; then the polls, if it was accepted.
   */
  ghost predicate AsksInOrder(log: seq<Query>, n: nat, s: Submission, a: Answers) {
    var priced := a.nonce && a.tip && a.price;
    var sends := priced && a.signed;
    var polls := if sends && a.send.Pooled? then |a.polls| else 0;
    && |log| - n == (if !a.nonce then 1 else if !a.tip then 2 else if !a.price then 3 else if !a.signed then 5
                     else 6 + polls)
    && log[n] == NonceQuery(a.nonce)
    && (a.nonce ==> log[n + 1] == TipQuery(a.tip))
    && (a.nonce && a.tip ==> log[n + 2] == PriceQuery(a.price))
    && (priced ==> log[n + 3] == GasQuery(a.gas) && log[n + 4] == TxSigning(a.signed))
    && (sends ==> log[n + 5] == Send(s, a.send))
    && (sends && a.send.Pooled? ==> forall k :: 0 <= k < polls ==> log[n + 6 + k] == Poll(a.send.tx, a.polls[k]))
  }

  lemma QueriesInOrder(log: seq<Query>, s: Submission, a: Answers)
    ensures AsksInOrder(log + Queries(s, a), |log|, s, a)
  {
  }

  datatype BroadcastResult = Sent | AlreadySubmitted | Failed

  /** The first answer that is not NotFound decides; a deadline with none fails. */
  function Awaited(polls: seq<ReceiptAnswer>): BroadcastResult {
    if polls == [] then Failed
    else if polls[0].NotFound? then Awaited(polls[1..])
    else if polls[0] == Receipt(true) then Sent
    else Failed
  }

  function BroadcastOutcome(keccak: Keccak, a: Answers): BroadcastResult {
    if !a.nonce || !a.tip || !a.price || !a.signed then Failed
    else match a.send
      case Rejected(err) => if IsMatchAlreadySubmitted(keccak, err) then AlreadySubmitted else Failed
      case Pooled(_) => Awaited(a.polls)
  }

  /**
    Sent is exactly a transaction that was accepted and whose last poll found a successful receipt; already submitted
    exactly one that was rejected with that revert. The gas estimate never decides.
   */
  ghost predicate OwedTo(keccak: Keccak, a: Answers, r: BroadcastResult) {
    var sends := a.nonce && a.tip && a.price && a.signed;
    && (r == Sent <==> sends && a.send.Pooled? && a.polls != [] && a.polls[|a.polls| - 1] == Receipt(true))
    && (r == AlreadySubmitted <==> sends && a.send.Rejected? && IsMatchAlreadySubmitted(keccak, a.send.err))
  }

  lemma OutcomeIsOwed(keccak: Keccak, a: Answers, expired: nat -> bool)
    requires InTime(a, expired)
    ensures OwedTo(keccak, a, BroadcastOutcome(keccak, a))
  {
    hide IsMatchAlreadySubmitted;
    if a.nonce && a.tip && a.price && a.signed && a.send.Pooled? {
      var n := |a.polls| - 1;
      AwaitedAfterWaiting(a.polls[..n], a.polls[n]);
      assert a.polls == a.polls[..n] + [a.polls[n]];
    }
  }

  /** Nothing the relayer asks before sending has failed. */
  predicate ReachesSend(a: Answers) {
    a.nonce && a.tip && a.price && a.signed
  }

  /** A rejection of the transaction that carries the contract's own already-submitted revert. */
  predicate RejectedAsDuplicate(keccak: Keccak, a: Answers) {
    ReachesSend(a) && a.send.Rejected? && IsMatchAlreadySubmitted(keccak, a.send.err)
  }

  /**
    Without a successful receipt, as for every match that is on chain already, a broadcast is no failure exactly
    when the node rejects the transaction with that revert: one that is mined and reverted is a failure.
   */
  lemma RecognisedOnlyWhenRejected(keccak: Keccak, a: Answers)
    requires Receipt(true) !in a.polls
    ensures BroadcastOutcome(keccak, a) == if RejectedAsDuplicate(keccak, a) then AlreadySubmitted else Failed
  {
    hide IsMatchAlreadySubmitted;
    NeverSent(a.polls);
  }

  lemma {:induction false} NeverSent(polls: seq<ReceiptAnswer>)
    requires Receipt(true) !in polls
    ensures Awaited(polls) == Failed
  {
    if polls == [] {
    } else {
      NeverSent(polls[1..]);
    }
  }

  /**
    Polling goes on exactly until there is an answer or, after a NotFound, the deadline has passed;
    `expired(n)` says whether it has after n polls.
   */
  ghost predicate Waited(polls: seq<ReceiptAnswer>, expired: nat -> bool) {
    && polls != []
    && (forall k :: 0 <= k < |polls| - 1 ==> polls[k].NotFound? && !expired(k + 1))
    && (polls[|polls| - 1].NotFound? ==> expired(|polls|))
  }

  /** So far no answer, and no deadline. */
  ghost predicate Unanswered(polls: seq<ReceiptAnswer>, expired: nat -> bool) {
    forall k :: 0 <= k < |polls| ==> polls[k].NotFound? && !expired(k + 1)
  }

  lemma WaitedOn(polls: seq<ReceiptAnswer>, last: ReceiptAnswer, expired: nat -> bool)
    requires Unanswered(polls, expired)
    ensures last.NotFound? && !expired(|polls| + 1) ==> Unanswered(polls + [last], expired)
    ensures !last.NotFound? || expired(|polls| + 1) ==> Waited(polls + [last], expired)
    ensures Awaited(polls + [last]) == if last == Receipt(true) then Sent else Failed
  {
    AwaitedAfterWaiting(polls, last);
  }

  lemma {:induction false} AwaitedAfterWaiting(polls: seq<ReceiptAnswer>, last: ReceiptAnswer)
    requires forall i :: 0 <= i < |polls| ==> polls[i].NotFound?
    ensures Awaited(polls + [last]) == Awaited([last])
  {
    if polls == [] {
      assert polls + [last] == [last];
    } else {
      assert (polls + [last])[1..] == polls[1..] + [last];
      AwaitedAfterWaiting(polls[1..], last);
    }
  }

  /** An honest node reports already-submitted only when the contract reverts so. */
  function Reported(c: Crypto, d: Domain, chain: Chain, s: Submission, err: SendError): SendError {
    if IsMatchAlreadySubmitted(c.keccak, err) && Exec(c, d, chain, Submit(s)) != Err(MatchAlreadySubmitted(s.matchId))
    then PlainError
    else err
  }

  lemma ReportedMeansStored(c: Crypto, d: Domain, chain: Chain, s: Submission, err: SendError)
    requires IsMatchAlreadySubmitted(c.keccak, Reported(c, d, chain, s, err))
    ensures s.matchId in chain.stored
  {
  }

  /** Executed on the chain `at`, the transaction was accepted or reverted, and the chain has only grown since. */
  ghost predicate MinedOn(c: Crypto, d: Domain, at: Chain, now: Chain, s: Submission, ok: bool) {
    ChainInv(c, at) && ok == Exec(c, d, at, Submit(s)).Ok? && Grows(After(c, d, at, Submit(s)), now)
  }

  /** The entry of a submission that was accepted. */
  function EntryOf(s: Submission): Entry {
    Entry(s.matchId, s.home, s.away)
  }

  ghost predicate HasEntry(chain: Chain, s: Submission) {
    s.matchId in chain.stored && chain.stored[s.matchId] == EntryOf(s)
  }

  lemma MinedIsStored(c: Crypto, d: Domain, at: Chain, now: Chain, s: Submission)
    requires MinedOn(c, d, at, now, s, true)
    ensures HasEntry(now, s)
  {
    hide Refusal, RegistryGrows, ChainInv;
  }

  /** A submission of an identifier that was stored when it was sent is reverted when it is mined. */
  lemma DuplicateReverts(c: Crypto, d: Domain, sentOn: Chain, at: Chain, s: Submission)
    requires IdealHash(c.keccak, d) && ChainInv(c, at) && Grows(sentOn, at) && s.matchId in sentOn.stored
    ensures Exec(c, d, at, Submit(s)).Err?
  {
    hide IdealHash, ChainInv, RegistryGrows, Refusal;
    if Refusal(c, d, at, s).None? {
      AcceptedIsNew(c, d, at, s);
    }
  }

  lemma MinedStays(c: Crypto, d: Domain, at: Chain, now: Chain, later: Chain, s: Submission, ok: bool)
    requires MinedOn(c, d, at, now, s, ok) && Grows(now, later)
    ensures MinedOn(c, d, at, later, s, ok)
  {
    hide Grows, ChainInv, Exec, After;
    GrowsTransitive(After(c, d, at, Submit(s)), now, later);
  }

  /** A node: its chain moves on by itself, mines what was accepted, and is reported honestly. */
  class ChainClient {
    const crypto: Crypto
    const domain: Domain
    var chain: Chain
    var sent: map<nat, Submission>
    var nextTx: nat
    var receipts: map<nat, bool>
    var log: seq<Query>
    /** The chain each transaction met when it was sent, and the one it was executed on. */
    ghost var sentOn: map<nat, Chain>
    ghost var minedOn: map<nat, Chain>

    ghost predicate Sending(tx: nat)
      reads this`chain, this`sent, this`nextTx, this`sentOn
    {
      tx in sent ==> tx < nextTx && tx in sentOn && Grows(sentOn[tx], chain)
    }

    ghost predicate Mined(tx: nat)
      reads this`chain, this`sent, this`receipts, this`sentOn, this`minedOn
    {
      tx in receipts ==>
        && tx in sent && tx in sentOn && tx in minedOn && Grows(sentOn[tx], minedOn[tx])
        && MinedOn(crypto, domain, minedOn[tx], chain, sent[tx], receipts[tx])
    }

    ghost predicate Valid()
      reads this`chain, this`sent, this`nextTx, this`receipts, this`sentOn, this`minedOn
    {
      && IdealHash(crypto.keccak, domain) && ChainInv(crypto, chain)
      && (forall tx :: Sending(tx)) && (forall tx :: Mined(tx))
    }

    /** Anybody's transactions, any number of them. */
    method MoveOn()
      requires Valid()
      modifies this`chain
      ensures Valid() && Grows(old(chain), chain)
    {
      hide IdealHash, ChainInv, Grows, MinedOn, RunCalls;
      var calls: seq<Call> := *;
      RunKeeps(crypto, domain, chain, calls);
      ChainMoves(RunCalls(crypto, domain, chain, calls));
      chain := RunCalls(crypto, domain, chain, calls);
    }

    /** What holds of transactions stays true when the chain grows. */
    lemma ChainMoves(later: Chain)
      requires Valid() && Grows(chain, later)
      ensures forall tx :: tx in sent ==> tx < nextTx && tx in sentOn && Grows(sentOn[tx], later)
      ensures forall tx :: tx in receipts ==>
        && tx in sent && tx in sentOn && tx in minedOn && Grows(sentOn[tx], minedOn[tx])
        && MinedOn(crypto, domain, minedOn[tx], later, sent[tx], receipts[tx])
    {
      hide IdealHash, ChainInv, Grows, MinedOn;
      forall tx | tx in sent ensures tx < nextTx && tx in sentOn && Grows(sentOn[tx], later) {
        assert Sending(tx);
        GrowsTransitive(sentOn[tx], chain, later);
      }
      forall tx | tx in receipts
        ensures tx in sent && tx in sentOn && tx in minedOn && Grows(sentOn[tx], minedOn[tx])
        ensures MinedOn(crypto, domain, minedOn[tx], later, sent[tx], receipts[tx])
      {
        assert Mined(tx);
        MinedStays(crypto, domain, minedOn[tx], chain, later, sent[tx], receipts[tx]);
      }
    }

    method PendingNonceAt() returns (ok: bool)
      requires Valid()
      modifies this`log
      ensures Valid() && log == old(log) + [NonceQuery(ok)]
    {
      ok := *;
      log := log + [NonceQuery(ok)];
    }

    method SuggestGasTipCap() returns (ok: bool)
      requires Valid()
      modifies this`log
      ensures Valid() && log == old(log) + [TipQuery(ok)]
    {
      ok := *;
      log := log + [TipQuery(ok)];
    }

    method SuggestGasPrice() returns (ok: bool)
      requires Valid()
      modifies this`log
      ensures Valid() && log == old(log) + [PriceQuery(ok)]
    {
      ok := *;
      log := log + [PriceQuery(ok)];
    }

    method EstimateGas() returns (ok: bool)
      requires Valid()
      modifies this`log
      ensures Valid() && log == old(log) + [GasQuery(ok)]
    {
      ok := *;
      log := log + [GasQuery(ok)];
    }

    method SignTx() returns (ok: bool)
      requires Valid()
      modifies this`log
      ensures Valid() && log == old(log) + [TxSigning(ok)]
    {
      ok := *;
      log := log + [TxSigning(ok)];
    }

    method AnyError() returns (err: SendError) {
      err := *;
    }

    /** A rejection that reads as already-submitted is the contract's own revert. */
    method SendTransaction(s: Submission) returns (answer: SendAnswer)
      requires Valid()
      modifies this
      ensures Valid() && Grows(old(chain), chain)
      ensures log == old(log) + [Send(s, answer)]
      ensures answer.Pooled? ==> answer.tx in sent && sent[answer.tx] == s
      ensures answer.Pooled? ==> answer.tx in sentOn && Grows(old(chain), sentOn[answer.tx])
      ensures answer.Rejected? && IsMatchAlreadySubmitted(crypto.keccak, answer.err) ==> s.matchId in chain.stored
    {
      hide IdealHash, ChainInv, Reported, MinedOn, Grows;
      MoveOn();
      GrowsItself(chain);
      var accepted: bool, reported: bool := *, *;
      if accepted {
        answer := if reported then Pooled(nextTx) else Rejected(PlainError);
        log := log + [Send(s, answer)];
        Pool(s);
      } else {
        var raw := AnyError();
        var err := Reported(crypto, domain, chain, s, raw);
        if IsMatchAlreadySubmitted(crypto.keccak, err) {
          ReportedMeansStored(crypto, domain, chain, s, raw);
        }
        answer := Rejected(err);
        log := log + [Send(s, answer)];
      }
    }

    /** The transaction enters the mempool. */
    method Pool(s: Submission)
      requires Valid()
      modifies this`sent, this`sentOn, this`nextTx
      ensures Valid() && sent == old(sent)[old(nextTx) := s] && sentOn == old(sentOn)[old(nextTx) := chain]
    {
      hide IdealHash, ChainInv, MinedOn, Grows;
      GrowsItself(chain);
      assert Sending(nextTx) && Mined(nextTx);
      sent, sentOn := sent[nextTx := s], sentOn[nextTx := chain];
      nextTx := nextTx + 1;
      forall tx ensures Sending(tx) && Mined(tx) {
        assert old(Sending(tx) && Mined(tx));
      }
    }

    /** The transaction is executed: an accepted one changes the chain, a reverted one does not. */
    method Mine(tx: nat)
      requires Valid() && tx in sent && tx !in receipts
      modifies this`chain, this`receipts, this`minedOn
      ensures Valid() && chain == After(crypto, domain, old(chain), Submit(sent[tx])) && Grows(old(chain), chain)
      ensures receipts == old(receipts)[tx := Exec(crypto, domain, old(chain), Submit(sent[tx])).Ok?]
    {
      hide IdealHash, ChainInv, Exec, Grows;
      ExecKeeps(crypto, domain, chain, Submit(sent[tx]));
      ChainMoves(After(crypto, domain, chain, Submit(sent[tx])));
      assert Sending(tx);
      GrowsItself(After(crypto, domain, chain, Submit(sent[tx])));
      minedOn := minedOn[tx := chain];
      var r := Exec(crypto, domain, chain, Submit(sent[tx]));
      if r.Ok? {
        chain := r.value;
      }
      receipts := receipts[tx := r.Ok?];
    }

    /** A receipt tells what the contract did with the transaction, on the chain it was mined on. */
    method TransactionReceipt(tx: nat) returns (answer: ReceiptAnswer)
      requires Valid()
      modifies this
      ensures Valid() && Grows(old(chain), chain) && log == old(log) + [Poll(tx, answer)]
      ensures sent == old(sent) && sentOn == old(sentOn)
      ensures answer.Receipt? ==> tx in sent && tx in sentOn && tx in minedOn && Grows(sentOn[tx], minedOn[tx])
      ensures answer.Receipt? ==> MinedOn(crypto, domain, minedOn[tx], chain, sent[tx], answer.success)
    {
      hide IdealHash, ChainInv, MinedOn, Grows;
      MoveOn();
      ghost var moved := chain;
      var mine: bool, found: bool, failed: bool := *, *, *;
      if mine && tx in sent && tx !in receipts {
        Mine(tx);
        GrowsTransitive(old(chain), moved, chain);
      }
      answer := if failed then QueryError else if found && tx in receipts then Receipt(receipts[tx]) else NotFound;
      log := log + [Poll(tx, answer)];
      assert Mined(tx);
    }
  }

  /** By `ticks` polls the deadline has passed. */
  ghost predicate Ends(expired: nat -> bool, ticks: nat) {
    forall k :: k >= ticks ==> expired(k)
  }

  lemma NoPolls(tx: nat, expired: nat -> bool)
    ensures Polls(tx, []) == [] && Unanswered([], expired)
  {
  }

  lemma PollsExtend(tx: nat, polls: seq<ReceiptAnswer>, answer: ReceiptAnswer)
    ensures Polls(tx, polls + [answer]) == Polls(tx, polls) + [Poll(tx, answer)]
  {
  }

  method WaitForReceipt(client: ChainClient, tx: nat, expired: nat -> bool, ghost ticks: nat)
    returns (receipt: Option<bool>, polls: seq<ReceiptAnswer>)
    requires client.Valid() && Ends(expired, ticks)
    modifies client
    ensures client.Valid() && Grows(old(client.chain), client.chain)
    ensures client.sent == old(client.sent) && client.sentOn == old(client.sentOn)
    ensures client.log == old(client.log) + Polls(tx, polls) && Waited(polls, expired)
    ensures polls != [] && (receipt.Some? ==> polls[|polls| - 1] == Receipt(receipt.value))
    ensures receipt.None? ==> !polls[|polls| - 1].Receipt?
    ensures Awaited(polls) == if receipt == Some(true) then Sent else Failed
    ensures receipt.Some? ==> tx in client.sent && tx in client.sentOn && tx in client.minedOn
    ensures receipt.Some? ==> Grows(client.sentOn[tx], client.minedOn[tx])
    ensures receipt.Some? ==>
      MinedOn(client.crypto, client.domain, client.minedOn[tx], client.chain, client.sent[tx], receipt.value)
  {
    hide ChainInv, IdealHash, Grows, Awaited, Waited, Unanswered, Polls, ChainClient.Valid, MinedOn;
    polls := [];
    GrowsItself(client.chain);
    NoPolls(tx, expired);
    while true
      invariant client.Valid() && Grows(old(client.chain), client.chain)
      invariant client.sent == old(client.sent) && client.sentOn == old(client.sentOn)
      invariant client.log == old(client.log) + Polls(tx, polls) && |polls| <= ticks
      invariant Unanswered(polls, expired)
      decreases ticks - |polls|
    {
      ghost var before, asked := client.chain, client.log;
      var answer := client.TransactionReceipt(tx);
      GrowsTransitive(old(client.chain), before, client.chain);
      WaitedOn(polls, answer, expired);
      PollsExtend(tx, polls, answer);
      assert client.log == old(client.log) + Polls(tx, polls + [answer]);
      polls := polls + [answer];
      if answer.Receipt? {
        return Some(answer.success), polls;
      }
      if answer.QueryError? || expired(|polls|) {
        return None, polls;
      }
    }
  }

  /** A transaction with a successful receipt has put its own entry on a chain that did not have the identifier. */
  lemma SentIsNew(client: ChainClient, tx: nat, before: Chain, s: Submission)
    requires client.Valid() && tx in client.sent && tx in client.sentOn && tx in client.minedOn
    requires client.sent[tx] == s && Grows(before, client.sentOn[tx])
    requires Grows(client.sentOn[tx], client.minedOn[tx])
    requires MinedOn(client.crypto, client.domain, client.minedOn[tx], client.chain, s, true)
    ensures HasEntry(client.chain, s) && s.matchId !in before.stored
  {
    hide IdealHash, ChainInv, Exec, RegistryGrows;
    MinedIsStored(client.crypto, client.domain, client.minedOn[tx], client.chain, s);
    if s.matchId in before.stored {
      DuplicateReverts(client.crypto, client.domain, client.sentOn[tx], client.minedOn[tx], s);
    }
  }

  method Broadcast(client: ChainClient, s: Submission, expired: nat -> bool, ghost ticks: nat)
    returns (r: BroadcastResult, answers: Answers)
    requires client.Valid() && Ends(expired, ticks)
    modifies client
    ensures client.Valid() && Grows(old(client.chain), client.chain)
    ensures client.log == old(client.log) + Queries(s, answers) && InTime(answers, expired)
    ensures r == BroadcastOutcome(client.crypto.keccak, answers)
    ensures r.Sent? ==> HasEntry(client.chain, s)
    ensures !r.Failed? ==> s.matchId in client.chain.stored
    ensures s.matchId in old(client.chain).stored ==>
      r == if RejectedAsDuplicate(client.crypto.keccak, answers) then AlreadySubmitted else Failed
  {
    hide ChainInv, IdealHash, Grows, Waited, Polls, IsMatchAlreadySubmitted, ChainClient.Valid, Exec, MinedOn, Awaited,
      Ends;
    ghost var asked := client.log;
    answers := Answers(false, false, false, false, false, Rejected(PlainError), []);
    GrowsItself(client.chain);
    var nonce := client.PendingNonceAt();
    if !nonce {
      return Failed, answers;
    }
    answers := answers.(nonce := true);
    var tip := client.SuggestGasTipCap();
    if !tip {
      return Failed, answers;
    }
    answers := answers.(tip := true);
    var price := client.SuggestGasPrice();
    if !price {
      return Failed, answers;
    }
    // A failed estimate falls back to a constant limit.
    var gas := client.EstimateGas();
    var signed := client.SignTx();
    answers := answers.(price := true, gas := gas, signed := signed);
    assert client.log == asked + [NonceQuery(true), TipQuery(true), PriceQuery(true), GasQuery(gas), TxSigning(signed)];
    if !signed {
      return Failed, answers;
    }
    var send := client.SendTransaction(s);
    answers := answers.(send := send);
    if send.Rejected? {
      if IsMatchAlreadySubmitted(client.crypto.keccak, send.err) {
        return AlreadySubmitted, answers;
      }
      return Failed, answers;
    }
    ghost var sent := client.chain;
    var receipt, polls := WaitForReceipt(client, send.tx, expired, ticks);
    GrowsTransitive(old(client.chain), sent, client.chain);
    answers := answers.(polls := polls);
    if receipt.None? || !receipt.value {
      return Failed, answers;
    }
    SentIsNew(client, send.tx, old(client.chain), s);
    return Sent, answers;
  }

  /** A transaction that was accepted was polled for, and for as long as the deadline allows. */
  ghost predicate InTime(a: Answers, expired: nat -> bool) {
    a.nonce && a.tip && a.price && a.signed && a.send.Pooled? ==> Waited(a.polls, expired)
  }

  lemma GrowsItself(chain: Chain)
    ensures Grows(chain, chain)
  {
  }

  // ---- A batch ----

  function MarkOne(matches: map<Ref, Row>, m: RelayMatch, r: BroadcastResult, o: Outcome): map<Ref, Row> {
    if r.Failed? then matches else Resolve(matches, MarkBroadcasted(matches, m.id), o)
  }

  function MarkAll(matches: map<Ref, Row>, ms: seq<RelayMatch>, rs: seq<BroadcastResult>, os: seq<Outcome>)
    : map<Ref, Row>
    requires |rs| == |os| == |ms|
  {
    if ms == [] then matches
    else
      var n := |ms| - 1;
      MarkOne(MarkAll(matches, ms[..n], rs[..n], os[..n]), ms[n], rs[n], os[n])
  }

  function Failures(rs: seq<BroadcastResult>): nat {
    if rs == [] then 0 else Failures(rs[..|rs| - 1]) + if rs[|rs| - 1].Failed? then 1 else 0
  }

  /** The row's columns, its date as the number YYYYMMDD, and the bytes its signature is the hex text of. */
  ghost predicate ReadFrom(row: Row, m: RelayMatch) {
    && row.signature.Some? && HexDecode(TrimHexPrefix(row.signature.value)) == Some(m.signature)
    && (m.id, m.canonicalId, m.comp, m.home, m.away) == (row.id, row.canonicalId, row.comp, row.home, row.away)
    && (m.homeScore, m.awayScore) == (row.homeScore, row.awayScore)
    && m.start == (row.start.year * 10000 + row.start.month * 100 + row.start.day) % 4294967296
  }

  ghost predicate Reads(matches: map<Ref, Row>, refs: seq<Ref>, m: RelayMatch) {
    exists ref :: ref in refs && ref in matches && ReadFrom(matches[ref], m)
  }

  /** Read are all the rows, and only they, whose signature decodes. */
  lemma {:induction false} SignedAreRead(matches: map<Ref, Row>, refs: seq<Ref>)
    requires forall r :: r in refs ==> r in matches
    ensures forall m :: m in SignedMatches(matches, refs) <==> Reads(matches, refs, m)
  {
    hide HexDecode, TrimHexPrefix;
    if refs == [] {
    } else {
      var n := |refs| - 1;
      var front := refs[..n];
      SignedAreRead(matches, front);
      forall m ensures m in SignedMatches(matches, refs) <==> Reads(matches, refs, m) {
        assert Reads(matches, refs, m) <==> Reads(matches, front, m) || ReadFrom(matches[refs[n]], m) by {
          if Reads(matches, front, m) {
            var ref :| ref in front && ref in matches && ReadFrom(matches[ref], m);
            assert ref in refs;
          }
          if ReadFrom(matches[refs[n]], m) {
            assert refs[n] in refs;
          }
        }
        assert ReadFrom(matches[refs[n]], m) <==> RelayMatchOf(matches[refs[n]]) == Some(m);
      }
    }
  }

  method FindSignedMatches(db: Database) returns (ok: bool, refs: seq<Ref>, ms: seq<RelayMatch>)
    modifies db`log
    ensures IsListing(db.matches, SIGNED, refs) && ms == SignedMatches(db.matches, refs)
    ensures forall r :: r in refs <==> r in db.matches && db.matches[r].status == 4
    ensures forall m :: m in ms <==> Reads(db.matches, refs, m)
    ensures db.log == old(db.log) + [ReadStatus(SIGNED, ok, refs)]
  {
    ok, refs := db.FindByStatus(SIGNED);
    ms := [];
    for i := 0 to |refs|
      invariant db.log == old(db.log) + [ReadStatus(SIGNED, ok, refs)]
      invariant ms == SignedMatches(db.matches, refs[..i])
    {
      assert refs[..i + 1][..i] == refs[..i];
      var row := db.matches[refs[i]];
      // A row that does not scan or whose signature does not decode is skipped.
      if row.signature.Some? && HexDecode(TrimHexPrefix(row.signature.value)).Some? {
        var start := (row.start.year * 10000 + row.start.month * 100 + row.start.day) % 0x1_0000_0000;
        ms := ms + [RelayMatch(row.id, row.canonicalId, row.comp, row.home, row.away, row.homeScore, row.awayScore,
                               start, HexDecode(TrimHexPrefix(row.signature.value)).value)];
      }
    }
    assert refs[..|refs|] == refs;
    SignedAreRead(db.matches, refs);
  }

  /** Every match whose broadcast went through is on chain, with its own scores if it was sent. */
  ghost predicate Lands(chain: Chain, s: Submission, r: BroadcastResult) {
    (!r.Failed? ==> s.matchId in chain.stored) && (r.Sent? ==> HasEntry(chain, s))
  }

  ghost predicate OnChain(chain: Chain, ms: seq<RelayMatch>, rs: seq<BroadcastResult>)
    requires |rs| == |ms|
  {
    forall i :: 0 <= i < |ms| ==> Lands(chain, Calldata(ms[i]), rs[i])
  }

  lemma OnChainExtends(chain: Chain, chain': Chain, ms: seq<RelayMatch>, rs: seq<BroadcastResult>,
                       m: RelayMatch, r: BroadcastResult)
    requires |rs| == |ms| && OnChain(chain, ms, rs) && Grows(chain, chain')
    requires Lands(chain', Calldata(m), r)
    ensures OnChain(chain', ms + [m], rs + [r])
  {
  }

  lemma GrowsTransitive(a: Chain, b: Chain, c: Chain)
    requires Grows(a, b) && Grows(b, c)
    ensures Grows(a, c)
  {
  }

  function MarkStatement(m: RelayMatch, r: BroadcastResult, o: Outcome): seq<Statement> {
    if r.Failed? then [] else [WriteBroadcasted(m.id, o)]
  }

  /** A status update for every match sent or found on chain, and for no other. */
  function MarkStatements(ms: seq<RelayMatch>, rs: seq<BroadcastResult>, os: seq<Outcome>): seq<Statement>
    requires |rs| == |os| == |ms|
  {
    if ms == [] then []
    else
      var n := |ms| - 1;
      MarkStatements(ms[..n], rs[..n], os[..n]) + MarkStatement(ms[n], rs[n], os[n])
  }

  /** The questions of the broadcasts, one after another. */
  function BatchQueries(ms: seq<RelayMatch>, answers: seq<Answers>): seq<Query>
    requires |answers| == |ms|
  {
    if ms == [] then []
    else
      var n := |ms| - 1;
      BatchQueries(ms[..n], answers[..n]) + Queries(Calldata(ms[n]), answers[n])
  }

  /** What came of every broadcast, and that none gave up polling early. */
  ghost predicate Outcomes(keccak: Keccak, answers: seq<Answers>, rs: seq<BroadcastResult>,
                           expired: nat -> nat -> bool) {
    && |answers| == |rs|
    && forall i :: 0 <= i < |rs| ==> rs[i] == BroadcastOutcome(keccak, answers[i]) && InTime(answers[i], expired(i))
  }

  /** Rows of the id have status 5 if they were marked; nothing else changes. */
  ghost predicate OnlyMarked(before: map<Ref, Row>, id: Uuid, marked: bool, after: map<Ref, Row>) {
    && after.Keys == before.Keys
    && forall r :: r in before ==>
         after[r] == if before[r].id == id && marked then before[r].(status := 5) else before[r]
  }

  method BroadcastOne(client: ChainClient, db: Database, m: RelayMatch, expired: nat -> bool, ghost ticks: nat)
    returns (r: BroadcastResult, o: Outcome, answers: Answers)
    requires client.Valid() && db.Valid() && Ends(expired, ticks)
    modifies client, db`matches, db`log
    ensures client.Valid() && db.Valid() && Grows(old(client.chain), client.chain)
    ensures client.log == old(client.log) + Queries(Calldata(m), answers) && InTime(answers, expired)
    ensures r == BroadcastOutcome(client.crypto.keccak, answers)
    ensures AsksInOrder(client.log, |old(client.log)|, Calldata(m), answers)
    ensures OwedTo(client.crypto.keccak, answers, r)
    ensures db.matches == MarkOne(old(db.matches), m, r, o)
    ensures db.log == old(db.log) + MarkStatement(m, r, o)
    ensures OnlyMarked(old(db.matches), m.id, !r.Failed? && !o.Lost?, db.matches)
    ensures db.log == if r.Failed? then old(db.log) else old(db.log) + [WriteBroadcasted(m.id, o)]
    ensures Lands(client.chain, Calldata(m), r)
  {
    hide ChainInv, IdealHash, Grows, Queries, BroadcastOutcome, InTime, AsksInOrder, OwedTo, Calldata;
    r, answers := Broadcast(client, Calldata(m), expired, ticks);
    QueriesInOrder(old(client.log), Calldata(m), answers);
    OutcomeIsOwed(client.crypto.keccak, answers, expired);
    o := Lost;
    if !r.Failed? {
      // Sent or already submitted; a failed update is logged only.
      o := db.SetBroadcasted(m.id);
    }
  }

  /** `expired(i)(n)` says whether the deadline of the i-th broadcast has passed after n polls. */
  method BroadcastMatches(client: ChainClient, db: Database, ms: seq<RelayMatch>, expired: nat -> nat -> bool,
                          ghost ticks: nat)
    returns (failedCount: nat, rs: seq<BroadcastResult>, os: seq<Outcome>, answers: seq<Answers>)
    requires client.Valid() && db.Valid() && forall i: nat :: Ends(expired(i), ticks)
    modifies client, db`matches, db`log
    ensures client.Valid() && db.Valid() && Grows(old(client.chain), client.chain)
    ensures |rs| == |os| == |answers| == |ms| && failedCount == Failures(rs)
    ensures failedCount == |set i | 0 <= i < |ms| && rs[i].Failed?|
    ensures client.log == old(client.log) + BatchQueries(ms, answers)
    ensures Outcomes(client.crypto.keccak, answers, rs, expired)
    ensures db.matches == MarkAll(old(db.matches), ms, rs, os)
    ensures db.log == old(db.log) + MarkStatements(ms, rs, os)
    ensures OnChain(client.chain, ms, rs)
  {
    hide MarkOne, ChainInv, IdealHash, Calldata, Queries, BroadcastOutcome, InTime, Grows, MarkAll, Failures,
      BatchQueries, MarkStatements, Outcomes, OnChain, MarkStatement, Ends, ChainClient.Valid, Database.Valid,
      OnlyMarked, AsksInOrder, OwedTo;
    failedCount, rs, os, answers := 0, [], [], [];
    ghost var start := client.chain;
    NothingBroadcast(client.crypto.keccak, start, db.matches, expired);
    for i := 0 to |ms|
      invariant client.Valid() && db.Valid() && Grows(start, client.chain)
      invariant |rs| == |os| == |answers| == i && failedCount == Failures(rs)
      invariant client.log == old(client.log) + BatchQueries(ms[..i], answers)
      invariant Outcomes(client.crypto.keccak, answers, rs, expired)
      invariant db.matches == MarkAll(old(db.matches), ms[..i], rs, os)
      invariant db.log == old(db.log) + MarkStatements(ms[..i], rs, os)
      invariant OnChain(client.chain, ms[..i], rs)
    {
      ghost var before := client.chain;
      var r, o, a := BroadcastOne(client, db, ms[i], expired(i), ticks);
      GrowsTransitive(start, before, client.chain);
      OnChainExtends(before, client.chain, ms[..i], rs, ms[i], r);
      MarkAllExtends(old(db.matches), ms, i, rs, os, r, o);
      LogsExtend(ms, i, rs, os, answers, r, o, a);
      OutcomesExtend(client.crypto.keccak, answers, rs, expired, a, r);
      if r.Failed? {
        failedCount := failedCount + 1;
      }
      rs, os, answers := rs + [r], os + [o], answers + [a];
      assert ms[..i + 1] == ms[..i] + [ms[i]];
    }
    assert ms[..|ms|] == ms;
    FailuresCount(rs);
    assert (set i | 0 <= i < |ms| && rs[i].Failed?) == FailedAt(rs);
  }

  /** The relayer's run: the signed matches, then their broadcasts; it fails exactly when one of them did. */
  method Run(client: ChainClient, db: Database, expired: nat -> nat -> bool, ghost ticks: nat)
    returns (ok: bool, refs: seq<Ref>, rs: seq<BroadcastResult>, os: seq<Outcome>, answers: seq<Answers>)
    requires client.Valid() && db.Valid() && forall i: nat :: Ends(expired(i), ticks)
    modifies client, db`matches, db`log
    ensures client.Valid() && db.Valid() && IsListing(old(db.matches), SIGNED, refs)
    ensures var ms := SignedMatches(old(db.matches), refs);
      || (!ok && db.matches == old(db.matches) && client.log == old(client.log)
          && db.log == old(db.log) + [ReadStatus(SIGNED, false, refs)])
      || (|rs| == |os| == |answers| == |ms| && (ok <==> Failures(rs) == 0)
          && (ok <==> forall r :: r in rs ==> !r.Failed?)
          && Outcomes(client.crypto.keccak, answers, rs, expired) && OnChain(client.chain, ms, rs)
          && db.matches == MarkAll(old(db.matches), ms, rs, os)
          && db.log == old(db.log) + [ReadStatus(SIGNED, true, refs)] + MarkStatements(ms, rs, os)
          && client.log == old(client.log) + BatchQueries(ms, answers))
  {
    hide MarkAll, MarkStatements, BatchQueries, Outcomes, OnChain, Failures, SignedMatches, IsListing, ChainInv,
      IdealHash;
    var found, ms;
    found, refs, ms := FindSignedMatches(db);
    if !found {
      return false, refs, [], [], [];
    }
    var failed;
    failed, rs, os, answers := BroadcastMatches(client, db, ms, expired, ticks);
    ok := failed == 0;
    NoneFailed(rs);
  }

  lemma NothingBroadcast(keccak: Keccak, chain: Chain, matches: map<Ref, Row>, expired: nat -> nat -> bool)
    ensures Grows(chain, chain) && Failures([]) == 0 && BatchQueries([], []) == [] && Outcomes(keccak, [], [], expired)
    ensures MarkAll(matches, [], [], []) == matches && MarkStatements([], [], []) == [] && OnChain(chain, [], [])
  {
  }

  lemma LogsExtend(ms: seq<RelayMatch>, i: nat, rs: seq<BroadcastResult>, os: seq<Outcome>, answers: seq<Answers>,
                   r: BroadcastResult, o: Outcome, a: Answers)
    requires i < |ms| && |rs| == |os| == |answers| == i
    ensures MarkStatements(ms[..i + 1], rs + [r], os + [o])
         == MarkStatements(ms[..i], rs, os) + MarkStatement(ms[i], r, o)
    ensures BatchQueries(ms[..i + 1], answers + [a]) == BatchQueries(ms[..i], answers) + Queries(Calldata(ms[i]), a)
  {
    hide MarkStatement, Queries, Calldata;
    assert ms[..i + 1][..i] == ms[..i] && (rs + [r])[..i] == rs;
    assert (os + [o])[..i] == os && (answers + [a])[..i] == answers;
  }

  lemma OutcomesExtend(keccak: Keccak, answers: seq<Answers>, rs: seq<BroadcastResult>, expired: nat -> nat -> bool,
                       a: Answers, r: BroadcastResult)
    requires Outcomes(keccak, answers, rs, expired)
    requires r == BroadcastOutcome(keccak, a) && InTime(a, expired(|rs|))
    ensures Outcomes(keccak, answers + [a], rs + [r], expired)
  {
    hide BroadcastOutcome;
  }

  lemma MarkAllExtends(matches: map<Ref, Row>, ms: seq<RelayMatch>, i: nat,
                       rs: seq<BroadcastResult>, os: seq<Outcome>, r: BroadcastResult, o: Outcome)
    requires i < |ms| && |rs| == |os| == i
    ensures MarkAll(matches, ms[..i + 1], rs + [r], os + [o]) == MarkOne(MarkAll(matches, ms[..i], rs, os), ms[i], r, o)
    ensures Failures(rs + [r]) == Failures(rs) + if r.Failed? then 1 else 0
  {
    assert ms[..i + 1][..i] == ms[..i] && (rs + [r])[..i] == rs && (os + [o])[..i] == os;
  }

  /** The failure count is the number of failed broadcasts, no more and no less. */
  lemma {:induction false} FailuresCount(rs: seq<BroadcastResult>)
    ensures Failures(rs) == |FailedAt(rs)|
  {
    if rs == [] {
      assert FailedAt(rs) == {};
    } else {
      var n := |rs| - 1;
      FailuresCount(rs[..n]);
      OneMoreFailed(rs);
      hide FailedAt;
    }
  }

  lemma NoneFailed(rs: seq<BroadcastResult>)
    ensures Failures(rs) == 0 <==> forall r :: r in rs ==> !r.Failed?
  {
    FailuresCount(rs);
    if FailedAt(rs) == {} {
      forall i | 0 <= i < |rs| ensures !rs[i].Failed? {
        assert i !in FailedAt(rs);
      }
    } else {
      var i :| i in FailedAt(rs);
      assert rs[i] in rs;
    }
  }

  function FailedAt(rs: seq<BroadcastResult>): set<int> {
    set i | 0 <= i < |rs| && rs[i].Failed?
  }

  lemma OneMoreFailed(rs: seq<BroadcastResult>)
    requires rs != []
    ensures var n := |rs| - 1;
      n !in FailedAt(rs[..n]) && FailedAt(rs) == if rs[n].Failed? then FailedAt(rs[..n]) + {n} else FailedAt(rs[..n])
  {
    var n := |rs| - 1;
    assert forall i :: 0 <= i < n ==> rs[..n][i] == rs[i];
  }

  /** Some match of the row's id had its broadcast go through and its update take. */
  ghost predicate Marked(ms: seq<RelayMatch>, rs: seq<BroadcastResult>, os: seq<Outcome>, id: Uuid)
    requires |rs| == |os| == |ms|
  {
    exists i :: 0 <= i < |ms| && ms[i].id == id && !rs[i].Failed? && !os[i].Lost?
  }

  lemma MarkedLast(ms: seq<RelayMatch>, rs: seq<BroadcastResult>, os: seq<Outcome>, id: Uuid)
    requires |rs| == |os| == |ms| && ms != []
    ensures var n := |ms| - 1;
      Marked(ms, rs, os, id)
      <==> Marked(ms[..n], rs[..n], os[..n], id) || (ms[n].id == id && !rs[n].Failed? && !os[n].Lost?)
  {
    var n := |ms| - 1;
    if Marked(ms[..n], rs[..n], os[..n], id) {
      var i :| 0 <= i < n && ms[..n][i].id == id && !rs[..n][i].Failed? && !os[..n][i].Lost?;
      assert ms[i].id == id && !rs[i].Failed? && !os[i].Lost?;
    }
    if Marked(ms, rs, os, id) {
      var i :| 0 <= i < |ms| && ms[i].id == id && !rs[i].Failed? && !os[i].Lost?;
      assert i < n ==> ms[..n][i].id == id && !rs[..n][i].Failed? && !os[..n][i].Lost?;
    }
  }

  /**
    Isolation: a row ends Broadcasted exactly when it was or its own broadcast went through and its own
    update took; nothing else of any row changes, and no row appears or disappears.
   */
  lemma {:induction false} BatchIsolation(matches: map<Ref, Row>, ms: seq<RelayMatch>, rs: seq<BroadcastResult>,
                                          os: seq<Outcome>, ref: Ref)
    requires |rs| == |os| == |ms|
    ensures ref in MarkAll(matches, ms, rs, os) <==> ref in matches
    ensures ref in matches ==>
      MarkAll(matches, ms, rs, os)[ref]
      == if Marked(ms, rs, os, matches[ref].id) then matches[ref].(status := BROADCASTED) else matches[ref]
  {
    if ms == [] {
    } else {
      var n := |ms| - 1;
      BatchIsolation(matches, ms[..n], rs[..n], os[..n], ref);
      if ref in matches {
        MarkedLast(ms, rs, os, matches[ref].id);
      }
    }
  }
}
