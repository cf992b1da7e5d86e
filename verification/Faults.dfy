/** A relay run, whatever the node answers and others send, is a run of the pipeline machine. */
module Faults {
  import opened Wrappers
  import opened Entity
  import opened Eip712
  import opened Bytes
  import opened Oracle
  import opened Tables
  import opened Relayer
  import opened Pipeline
  import opened Paths

  /** What others had executed before one broadcast's transaction, its answers, and whether it was executed itself. */
  datatype Turn = Turn(others: seq<Call>, answers: Answers, mined: bool)

  /** The first answer that is not NotFound, if it is a receipt. */
  function FirstReceipt(polls: seq<ReceiptAnswer>): Option<bool> {
    if polls == [] then None
    else if polls[0].NotFound? then FirstReceipt(polls[1..])
    else if polls[0].Receipt? then Some(polls[0].success)
    else None
  }

  /** The node took the transaction in, although it may have reported an error. */
  predicate MayBeMined(keccak: Keccak, a: Answers) {
    ReachesSend(a) && !RejectedAsDuplicate(keccak, a)
  }

  /** The receipt the broadcast ended with. */
  function ReceiptSeen(a: Answers): Option<bool> {
    if ReachesSend(a) && a.send.Pooled? then FirstReceipt(a.polls) else None
  }

  /**
    An honest node: only what it took in is executed, a receipt says what the contract did, and a rejection as
    already submitted is what the contract would have reverted with.
   */
  predicate Honest(c: Config, chain: Chain, s: Submission, t: Turn) {
    var r := Exec(c.crypto, c.domain, RunCalls(c.crypto, c.domain, chain, t.others), Submit(s));
    && (t.mined ==> MayBeMined(c.crypto.keccak, t.answers))
    && (ReceiptSeen(t.answers).Some? ==> t.mined && ReceiptSeen(t.answers).value == r.Ok?)
    && (RejectedAsDuplicate(c.crypto.keccak, t.answers) ==> r == Err(MatchAlreadySubmitted(s.matchId)))
  }

  function ChainAfter(c: Config, chain: Chain, s: Submission, t: Turn): Chain {
    var before := RunCalls(c.crypto, c.domain, chain, t.others);
    if t.mined then After(c.crypto, c.domain, before, Submit(s)) else before
  }

  function ChainAfterAll(c: Config, chain: Chain, ms: seq<RelayMatch>, turns: seq<Turn>): Chain
    requires |turns| == |ms|
  {
    if ms == [] then chain
    else
      var n := |ms| - 1;
      ChainAfter(c, ChainAfterAll(c, chain, ms[..n], turns[..n]), Calldata(ms[n]), turns[n])
  }

  ghost predicate AllHonest(c: Config, chain: Chain, ms: seq<RelayMatch>, turns: seq<Turn>)
    requires |turns| == |ms|
  {
    forall k :: 0 <= k < |ms| ==> Honest(c, ChainAfterAll(c, chain, ms[..k], turns[..k]), Calldata(ms[k]), turns[k])
  }

  /** The machine's terms for others' calls: no forged signature of the service, no rotation to a key it has not. */
  ghost predicate Allowed(c: Config, issued: set<(Address, bytes32)>, call: Call) {
    (call.Submit? ==> Unforged(c, issued, call.s)) && (call.Rotate? ==> call.newSigner in c.keys)
  }

  ghost predicate AllAllowed(c: Config, issued: set<(Address, bytes32)>, turns: seq<Turn>) {
    forall t, call :: t in turns && call in t.others ==> Allowed(c, issued, call)
  }

  function AnswersOf(turns: seq<Turn>): seq<Answers> {
    seq(|turns|, k requires 0 <= k < |turns| => turns[k].answers)
  }

  /** The outcome follows from the receipt. */
  lemma {:induction false} ReceiptDecides(polls: seq<ReceiptAnswer>)
    ensures Awaited(polls) == if FirstReceipt(polls) == Some(true) then Sent else Failed
  {
    if polls == [] {
    } else {
      ReceiptDecides(polls[1..]);
    }
  }

  /** Not rejected as a duplicate, a broadcast is sent exactly when it ended with a successful receipt. */
  lemma OutcomeOf(keccak: Keccak, a: Answers)
    requires !RejectedAsDuplicate(keccak, a)
    ensures BroadcastOutcome(keccak, a) == if ReceiptSeen(a) == Some(true) then Sent else Failed
  {
    hide IsMatchAlreadySubmitted, Awaited, FirstReceipt;
    ReceiptDecides(a.polls);
  }

  /** Others' calls, one after another. */
  lemma {:induction false} OutsidePath(c: Config, s0: State, s: State, calls: seq<Call>)
    requires Leads(c, s0, s) && forall call :: call in calls ==> Allowed(c, s.past.issued, call)
    ensures Leads(c, s0, s.(chain := RunCalls(c.crypto, c.domain, s.chain, calls)))
  {
    hide Leads, Unforged, Exec, Oracle.After;
    if calls == [] {
    } else {
      var n := |calls| - 1;
      OutsidePath(c, s0, s, calls[..n]);
      var before := s.(chain := RunCalls(c.crypto, c.domain, s.chain, calls[..n]));
      assert Allowed(c, s.past.issued, calls[n]);
      ChainLeads(c, s0, before, Outside(calls[n]));
    }
  }

  /** The transaction is in the mempool, and the relayer has given up on it. */
  lemma InMempool(c: Config, s0: State, s: State, i: nat) returns (s': State)
    requires Leads(c, s0, s) && i in s.relayers && s.relayers[i].todo != [] && s.relayers[i].phase.Ready?
    requires s.receipts.Keys <= s.sent.Keys
    ensures Leads(c, s0, s') && OnlyRelayed(s, s', i, Rest(s.relayers[i])) && s'.receipts.Keys <= s'.sent.Keys
    ensures s'.chain == s.chain && s'.tables == s.tables
  {
    hide Leads, Calldata;
    var tx := AboveAll(s.sent.Keys);
    RelayLeads(c, s0, s, RelaySend(i, tx, true));
    var s1 := RelayNext(c, s, RelaySend(i, tx, true));
    RelayLeads(c, s0, s1, RelayFail(i));
    s' := RelayNext(c, s1, RelayFail(i));
    UpdatedTwice(s.relayers, i, s1.relayers[i], s'.relayers[i]);
  }

  lemma NotSent(c: Config, s0: State, s: State, i: nat) returns (s': State)
    requires Leads(c, s0, s) && i in s.relayers && s.relayers[i].todo != [] && s.relayers[i].phase.Ready?
    ensures Leads(c, s0, s') && OnlyRelayed(s, s', i, Rest(s.relayers[i]))
    ensures s'.chain == s.chain && s'.tables == s.tables && s'.receipts == s.receipts && s'.sent == s.sent
  {
    hide Leads, Calldata;
    RelayLeads(c, s0, s, RelayFail(i));
    s' := RelayNext(c, s, RelayFail(i));
  }

  /** Mined, but the relayer gave up on its receipt. */
  lemma Overlooked(c: Config, s0: State, s: State, i: nat) returns (s': State)
    requires Leads(c, s0, s) && i in s.relayers && s.relayers[i].todo != [] && s.relayers[i].phase.Ready?
    requires s.receipts.Keys <= s.sent.Keys && Unforged(c, s.past.issued, Calldata(s.relayers[i].todo[0]))
    ensures Leads(c, s0, s') && OnlyRelayed(s, s', i, Rest(s.relayers[i])) && s'.receipts.Keys <= s'.sent.Keys
    ensures s'.chain == After(c.crypto, c.domain, s.chain, Submit(Calldata(s.relayers[i].todo[0])))
    ensures s'.tables == s.tables
  {
    hide Leads, Unforged, Calldata, Exec, Oracle.After;
    var s1, tx := SentAndMined(c, s0, s, i);
    RelayLeads(c, s0, s1, RelayFail(i));
    s' := RelayNext(c, s1, RelayFail(i));
    UpdatedTwice(s.relayers, i, s1.relayers[i], s'.relayers[i]);
  }

  /** Taken in although an error was reported, and mined. */
  lemma Unreported(c: Config, s0: State, s: State, i: nat) returns (s': State)
    requires Leads(c, s0, s) && i in s.relayers && s.relayers[i].todo != [] && s.relayers[i].phase.Ready?
    requires s.receipts.Keys <= s.sent.Keys && Unforged(c, s.past.issued, Calldata(s.relayers[i].todo[0]))
    ensures Leads(c, s0, s') && OnlyRelayed(s, s', i, Rest(s.relayers[i])) && s'.receipts.Keys <= s'.sent.Keys
    ensures s'.chain == After(c.crypto, c.domain, s.chain, Submit(Calldata(s.relayers[i].todo[0])))
    ensures s'.tables == s.tables
  {
    hide Leads, Unforged, Calldata, Exec, Oracle.After;
    var tx := AboveAll(s.sent.Keys);
    RelayLeads(c, s0, s, RelaySend(i, tx, false));
    var s1 := RelayNext(c, s, RelaySend(i, tx, false));
    ChainLeads(c, s0, s1, Mine(tx));
    s' := ChainNext(c, s1, Mine(tx));
  }

  /** One match of a batch, whatever the answers; others' calls have been executed. */
  lemma BroadcastActs(c: Config, s0: State, s: State, i: nat, t: Turn, o: Outcome) returns (s': State)
    requires Leads(c, s0, s) && i in s.relayers && s.relayers[i].todo != [] && s.relayers[i].phase.Ready?
    requires s.receipts.Keys <= s.sent.Keys && Unforged(c, s.past.issued, Calldata(s.relayers[i].todo[0]))
    requires t.others == [] && Honest(c, s.chain, Calldata(s.relayers[i].todo[0]), t)
    ensures Leads(c, s0, s') && OnlyRelayed(s, s', i, Rest(s.relayers[i])) && s'.receipts.Keys <= s'.sent.Keys
    ensures s'.chain == ChainAfter(c, s.chain, Calldata(s.relayers[i].todo[0]), t)
    ensures s'.tables.matches
         == MarkOne(s.tables.matches, s.relayers[i].todo[0], BroadcastOutcome(c.crypto.keccak, t.answers), o)
  {
    hide Leads, Unforged, Calldata, Exec, MarkBroadcasted, OnlyRelayed, IsMatchAlreadySubmitted, BroadcastOutcome,
      FirstReceipt;
    if RejectedAsDuplicate(c.crypto.keccak, t.answers) {
      RejectedIsAlreadySubmitted(c.crypto.keccak, t.answers);
      s' := Recognised(c, s0, s, i, o);
    } else {
      OutcomeOf(c.crypto.keccak, t.answers);
      match ReceiptSeen(t.answers)
      case Some(true) => s' := Taken(c, s0, s, i, o);
      case Some(false) => s' := Reverted(c, s0, s, i);
      case None =>
        if t.mined {
          if t.answers.send.Pooled? {
            s' := Overlooked(c, s0, s, i);
          } else {
            s' := Unreported(c, s0, s, i);
          }
        } else if ReachesSend(t.answers) && t.answers.send.Pooled? {
          s' := InMempool(c, s0, s, i);
        } else {
          s' := NotSent(c, s0, s, i);
        }
    }
  }

  lemma RejectedIsAlreadySubmitted(keccak: Keccak, a: Answers)
    requires RejectedAsDuplicate(keccak, a)
    ensures BroadcastOutcome(keccak, a) == AlreadySubmitted
  {
    hide IsMatchAlreadySubmitted;
  }

  /** One turn: others' calls, then the match. */
  lemma OneTurn(c: Config, s0: State, s: State, i: nat, t: Turn, o: Outcome) returns (s': State)
    requires Leads(c, s0, s) && i in s.relayers && s.relayers[i].todo != [] && s.relayers[i].phase.Ready?
    requires s.receipts.Keys <= s.sent.Keys && Unforged(c, s.past.issued, Calldata(s.relayers[i].todo[0]))
    requires Honest(c, s.chain, Calldata(s.relayers[i].todo[0]), t)
    requires forall call :: call in t.others ==> Allowed(c, s.past.issued, call)
    ensures Leads(c, s0, s') && OnlyRelayed(s, s', i, Rest(s.relayers[i])) && s'.receipts.Keys <= s'.sent.Keys
    ensures s'.chain == ChainAfter(c, s.chain, Calldata(s.relayers[i].todo[0]), t)
    ensures s'.tables.matches
         == MarkOne(s.tables.matches, s.relayers[i].todo[0], BroadcastOutcome(c.crypto.keccak, t.answers), o)
  {
    hide Leads, Unforged, Calldata, Exec, MarkOne, Allowed, RejectedAsDuplicate, ReceiptSeen, MayBeMined,
      BroadcastOutcome, Oracle.After;
    OutsidePath(c, s0, s, t.others);
    var moved := s.(chain := RunCalls(c.crypto, c.domain, s.chain, t.others));
    s' := BroadcastActs(c, s0, moved, i, t.(others := []), o);
  }

  /** The flight is through with the first k matches of its batch. */
  ghost predicate ThroughTo(c: Config, s: State, s': State, i: nat, ms: seq<RelayMatch>, turns: seq<Turn>,
                            rs: seq<BroadcastResult>, os: seq<Outcome>, k: nat)
    requires k <= |ms| == |turns| == |os| == |rs|
  {
    && OnlyRelayed(s, s', i, RelayFlight(ms[k..], Ready)) && s'.receipts.Keys <= s'.sent.Keys
    && s'.chain == ChainAfterAll(c, s.chain, ms[..k], turns[..k])
    && s'.tables.matches == MarkAll(s.tables.matches, ms[..k], rs[..k], os[..k])
  }

  lemma AfterAllStep(c: Config, chain: Chain, matches: map<Ref, Row>, ms: seq<RelayMatch>, turns: seq<Turn>,
                     rs: seq<BroadcastResult>, os: seq<Outcome>, k: nat)
    requires k < |ms| == |turns| == |os| == |rs|
    ensures ChainAfterAll(c, chain, ms[..k + 1], turns[..k + 1])
         == ChainAfter(c, ChainAfterAll(c, chain, ms[..k], turns[..k]), Calldata(ms[k]), turns[k])
    ensures MarkAll(matches, ms[..k + 1], rs[..k + 1], os[..k + 1])
         == MarkOne(MarkAll(matches, ms[..k], rs[..k], os[..k]), ms[k], rs[k], os[k])
  {
    hide ChainAfter, MarkOne, Calldata;
    assert ms[..k + 1][..k] == ms[..k] && turns[..k + 1][..k] == turns[..k];
    assert rs[..k + 1][..k] == rs[..k] && os[..k + 1][..k] == os[..k];
  }

  lemma {:induction false} FaultyPath(c: Config, s0: State, s: State, i: nat, ms: seq<RelayMatch>, turns: seq<Turn>,
                                      rs: seq<BroadcastResult>, os: seq<Outcome>, k: nat)
    returns (s': State)
    requires Leads(c, s0, s.(relayers := s.relayers[i := RelayFlight(ms, Ready)]))
    requires k <= |ms| == |turns| == |os| == |rs|
    requires s.receipts.Keys <= s.sent.Keys && forall m :: m in ms ==> Unforged(c, s.past.issued, Calldata(m))
    requires AllHonest(c, s.chain, ms, turns) && AllAllowed(c, s.past.issued, turns)
    requires forall j :: 0 <= j < |ms| ==> rs[j] == BroadcastOutcome(c.crypto.keccak, turns[j].answers)
    ensures Leads(c, s0, s') && ThroughTo(c, s, s', i, ms, turns, rs, os, k)
  {
    hide Leads, Unforged, Calldata, Honest, ChainAfter, MarkOne, Allowed, BroadcastOutcome;
    if k == 0 {
      s' := s.(relayers := s.relayers[i := RelayFlight(ms, Ready)]);
      assert ms[0..] == ms;
    } else {
      var before := FaultyPath(c, s0, s, i, ms, turns, rs, os, k - 1);
      hide ChainAfterAll, MarkAll;
      assert ms[k - 1] in ms && turns[k - 1] in turns && ms[k - 1..][0] == ms[k - 1] && ms[k - 1..][1..] == ms[k..];
      s' := OneTurn(c, s0, before, i, turns[k - 1], os[k - 1]);
      AfterAllStep(c, s.chain, s.tables.matches, ms, turns, rs, os, k - 1);
      UpdatedTwice(s.relayers, i, before.relayers[i], s'.relayers[i]);
    }
  }

  /**
    A whole relay run is a run of the machine, whatever the node answers and whatever others send between: the
    results are those the program owes to its answers, the chain has everybody's transactions in their order.
   */
  lemma FaultyRelayIsPath(c: Config, s0: State, s: State, i: nat, refs: seq<Ref>, turns: seq<Turn>,
                          rs: seq<BroadcastResult>, os: seq<Outcome>, expired: nat -> nat -> bool)
    returns (s': State)
    requires Leads(c, s0, s) && i !in s.relayers && IsListing(s.tables.matches, SIGNED, refs)
    requires |turns| == |rs| == |os| == |SignedMatches(s.tables.matches, refs)| && s.receipts.Keys <= s.sent.Keys
    requires forall m :: m in SignedMatches(s.tables.matches, refs) ==> Unforged(c, s.past.issued, Calldata(m))
    requires AllHonest(c, s.chain, SignedMatches(s.tables.matches, refs), turns)
    requires AllAllowed(c, s.past.issued, turns) && Outcomes(c.crypto.keccak, AnswersOf(turns), rs, expired)
    ensures var ms := SignedMatches(s.tables.matches, refs);
      && Leads(c, s0, s') && s'.past == s.past && s'.chain == ChainAfterAll(c, s.chain, ms, turns)
      && s'.tables == s.tables.(matches := MarkAll(s.tables.matches, ms, rs, os))
  {
    hide Leads, Unforged, Calldata, SignedMatches, MarkAll, ChainAfterAll, AllHonest, AllAllowed, BroadcastOutcome,
      InTime;
    var ms := SignedMatches(s.tables.matches, refs);
    RelayLeads(c, s0, s, RelayBegin(i, refs));
    forall j | 0 <= j < |ms| ensures rs[j] == BroadcastOutcome(c.crypto.keccak, turns[j].answers) {
      assert AnswersOf(turns)[j] == turns[j].answers;
    }
    s' := FaultyPath(c, s0, s, i, ms, turns, rs, os, |ms|);
    assert ms[..|ms|] == ms && turns[..|ms|] == turns && rs[..|ms|] == rs && os[..|ms|] == os;
  }
}
