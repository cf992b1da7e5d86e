/** The reconciler: batches of pending entries, each retried at most five times or saved and dequeued. */
module Reconcile {
  import opened Wrappers
  import opened Entity
  import opened Tables

  const BATCH_SIZE := 10
  const MAX_TRIES := 5

  const FOOTBALL_ORG := 1
  const API_FOOTBALL := 2

  /** What processing one entry did: a try counted, or a match saved and the entry removed. */
  datatype Event =
    | Tried(row: PageRow, o: Outcome)
    | Reconciled(row: PageRow, m: Match, o: Outcome)

  function ApplyEvent(t: Tables, e: Event): Tables {
    match e
    case Tried(row, o) => t.(queue := Resolve(t.queue, Some(IncrementTries(t.queue, row.id)), o))
    case Reconciled(row, m, o) => Resolve(t, SaveAndDequeue(t, m, row.id), o)
  }

  function ApplyEvents(t: Tables, es: seq<Event>): Tables {
    if es == [] then t else ApplyEvent(ApplyEvents(t, es[..|es| - 1]), es[|es| - 1])
  }

  /** The write of an event took. */
  predicate Took(t: Tables, e: Event) {
    match e
    case Tried(_, o) => !o.Lost?
    case Reconciled(row, m, o) => !o.Lost? && SaveAndDequeue(t, m, row.id).Some?
  }

  predicate KnownProvider(provider: int) {
    provider == FOOTBALL_ORG || provider == API_FOOTBALL
  }

  /** The event the reconciler owes an entry for which the API gave this answer: an error, or a match. */
  predicate Fits(e: Event, answer: Option<Match>) {
    if KnownProvider(e.row.ref.provider) && answer.Some? && answer.value.status == FINISHED
    then e.Reconciled? && e.m == answer.value
    else e.Tried?
  }

  /** The program's own three tests come to this: saved is what a known provider answers with as finished. */
  lemma FitsIff(e: Event, answer: Option<Match>)
    ensures Fits(e, answer) <==>
      && (e.Reconciled? <==> e.row.ref.provider in {1, 2} && answer.Some? && answer.value.status == 3)
      && (e.Reconciled? ==> e.m == answer.value)
  {
  }

  predicate AnyPending(queue: map<Ref, QueueEntry>) {
    exists r :: r in queue && IsPending(queue, r, MAX_TRIES)
  }

  // ---- The tries left, summed over the queue ----

  function Left(e: QueueEntry): nat {
    if e.tries < MAX_TRIES then MAX_TRIES - e.tries else 0
  }

  ghost function SumLeft(queue: map<Ref, QueueEntry>, refs: set<Ref>): nat
    requires refs <= queue.Keys
  {
    if refs == {} then 0
    else
      var r :| r in refs;
      Left(queue[r]) + SumLeft(queue, refs - {r})
  }

  ghost function TriesLeft(queue: map<Ref, QueueEntry>): nat {
    SumLeft(queue, queue.Keys)
  }

  lemma {:induction false} SumPick(queue: map<Ref, QueueEntry>, refs: set<Ref>, r: Ref)
    requires refs <= queue.Keys && r in refs
    ensures SumLeft(queue, refs) == Left(queue[r]) + SumLeft(queue, refs - {r})
  {
    var s :| s in refs && SumLeft(queue, refs) == Left(queue[s]) + SumLeft(queue, refs - {s});
    if s != r {
      SumPick(queue, refs - {s}, r);
      SumPick(queue, refs - {r}, s);
      assert refs - {s} - {r} == refs - {r} - {s};
    }
  }

  lemma {:induction false} SumSame(queue: map<Ref, QueueEntry>, queue': map<Ref, QueueEntry>, refs: set<Ref>)
    requires refs <= queue.Keys && refs <= queue'.Keys
    requires forall r :: r in refs ==> queue[r] == queue'[r]
    ensures SumLeft(queue, refs) == SumLeft(queue', refs)
  {
    if refs == {} {
    } else {
      var r :| r in refs;
      SumSame(queue, queue', refs - {r});
      SumPick(queue, refs, r);
      SumPick(queue', refs, r);
    }
  }

  /** A counted try of a pending entry takes exactly one from the sum; its removal takes what it had left. */
  lemma EventLowers(queue: map<Ref, QueueEntry>, ref: Ref)
    requires UniqueEntryIds(queue) && IsPending(queue, ref, MAX_TRIES)
    ensures TriesLeft(IncrementTries(queue, queue[ref].id)) == TriesLeft(queue) - 1
    ensures TriesLeft(MarkReconciled(queue, queue[ref].id)) == TriesLeft(queue) - Left(queue[ref])
  {
    var id := queue[ref].id;
    var tried, removed := IncrementTries(queue, id), MarkReconciled(queue, id);
    var others := queue.Keys - {ref};
    SumPick(queue, queue.Keys, ref);
    assert tried.Keys == queue.Keys && removed.Keys == others;
    SumPick(tried, tried.Keys, ref);
    SumSame(queue, tried, others);
    SumSame(queue, removed, others);
  }

  // ---- What any history of events does to the queue ----

  /** Event i removed the entry `id` and, in the same commit, left its match's row with the fetched result. */
  ghost predicate RemovedBy(t: Tables, es: seq<Event>, i: nat, id: Uuid)
    requires i < |es|
  {
    var e, after := es[i], ApplyEvents(t, es[..i + 1]);
    && e.Reconciled? && e.row.id == id && Took(ApplyEvents(t, es[..i]), e)
    && RefOf(e.m) in after.matches
    && after.matches[RefOf(e.m)].status == e.m.status
    && after.matches[RefOf(e.m)].homeScore == e.m.homeScore
    && after.matches[RefOf(e.m)].awayScore == e.m.awayScore
  }

  /** What an event that takes an entry out of the queue has done. */
  lemma EventRemoves(t: Tables, e: Event, ref: Ref)
    requires ref in t.queue && ref !in ApplyEvent(t, e).queue
    ensures e.Reconciled? && e.row.id == t.queue[ref].id && Took(t, e)
    ensures var after := ApplyEvent(t, e).matches;
      && RefOf(e.m) in after && after[RefOf(e.m)].status == e.m.status
      && after[RefOf(e.m)].homeScore == e.m.homeScore && after[RefOf(e.m)].awayScore == e.m.awayScore
  {
    hide Storable, RowIdTaken;
  }

  /** An entry leaves the queue only together with a committed save, under its own id. */
  lemma {:induction false} RemovedOnlyWithSave(t: Tables, es: seq<Event>, ref: Ref)
    requires ref in t.queue && ref !in ApplyEvents(t, es).queue
    ensures exists i :: 0 <= i < |es| && RemovedBy(t, es, i, t.queue[ref].id)
  {
    hide ApplyEvent, Took;
    var n := |es| - 1;
    var front := es[..n];
    if ref !in ApplyEvents(t, front).queue {
      RemovedOnlyWithSave(t, front, ref);
      var i :| 0 <= i < n && RemovedBy(t, front, i, t.queue[ref].id);
      assert es[i] == front[i] && front[..i] == es[..i] && front[..i + 1] == es[..i + 1];
      assert RemovedBy(t, es, i, t.queue[ref].id);
    } else {
      SameIdWhilePresent(t, front, ref);
      EventRemoves(ApplyEvents(t, front), es[n], ref);
      assert es[..n + 1] == es;
      assert RemovedBy(t, es, n, t.queue[ref].id);
    }
  }

  lemma {:induction false} SameIdWhilePresent(t: Tables, es: seq<Event>, ref: Ref)
    requires ref in ApplyEvents(t, es).queue
    ensures ref in t.queue && ApplyEvents(t, es).queue[ref].id == t.queue[ref].id
  {
    if es == [] {
    } else {
      SameIdWhilePresent(t, es[..|es| - 1], ref);
    }
  }

  // ---- The program ----

  datatype Ending = Finished | DeadlineExceeded | QueryFailed

  /** The statement an event is. */
  function StatementOf(e: Event): Statement {
    match e
    case Tried(row, o) => CountTry(row.id, o)
    case Reconciled(row, m, o) => UpsertAndDelete(m, row.id, o)
  }

  function Statements(es: seq<Event>): seq<Statement> {
    seq(|es|, i requires 0 <= i < |es| => StatementOf(es[i]))
  }

  /** All rows of the pages, in order. */
  function Rows(pages: seq<seq<PageRow>>): seq<PageRow> {
    if pages == [] then [] else Rows(pages[..|pages| - 1]) + pages[|pages| - 1]
  }

  /** The match's row has its scores and is finished. */
  ghost predicate LeavesFinished(t: Tables, m: Match) {
    var ref := Ref(m.provider, m.pmid);
    && ref in t.matches && t.matches[ref].status == 3
    && (t.matches[ref].homeScore, t.matches[ref].awayScore) == (m.homeScore, m.awayScore)
  }

  /**
    Some event took the entry `id` out in a commit that left its match's row finished, with the scores that the API
    had answered with as final.
   */
  ghost predicate LeftFinished(t: Tables, es: seq<Event>, api: nat -> Option<Match>, id: Uuid) {
    exists i :: 0 <= i < |es| && FinishedBy(t, es, api, i, id)
  }

  ghost predicate FinishedBy(t: Tables, es: seq<Event>, api: nat -> Option<Match>, i: nat, id: Uuid)
    requires i < |es|
  {
    && es[i].Reconciled? && es[i].row.id == id && !es[i].o.Lost?
    && es[i].row.ref.provider in {1, 2} && api(i) == Some(es[i].m) && es[i].m.status == 3
    && LeavesFinished(ApplyEvents(t, es[..i + 1]), es[i].m)
  }

  /** Over a whole run, an entry leaves the queue only as finished. */
  lemma RemovedOnlyAsFinished(t: Tables, es: seq<Event>, api: nat -> Option<Match>, ref: Ref)
    requires ref in t.queue && ref !in ApplyEvents(t, es).queue
    requires forall i :: 0 <= i < |es| ==> Fits(es[i], api(i))
    ensures LeftFinished(t, es, api, t.queue[ref].id)
  {
    hide ApplyEvents;
    RemovedOnlyWithSave(t, es, ref);
    var i :| 0 <= i < |es| && RemovedBy(t, es, i, t.queue[ref].id);
    FitsIff(es[i], api(i));
    assert FinishedBy(t, es, api, i, t.queue[ref].id);
  }

  /** Every page was read when the entries of the earlier ones were through; the events are of the rows, in order. */
  ghost predicate Batched(t: Tables, pages: seq<seq<PageRow>>, es: seq<Event>) {
    && |es| <= |Rows(pages)|
    && (forall i :: 0 <= i < |es| ==> es[i].row == Rows(pages)[i])
    && (forall k :: 0 <= k < |pages| ==>
          && pages[k] != [] && |Rows(pages[..k])| <= |es|
          && IsPage(ApplyEvents(t, es[..|Rows(pages[..k])|]).queue, BATCH_SIZE, MAX_TRIES, pages[k]))
  }

  /** The statements of a run that is through with these events: each page read, then its entries' statements. */
  function Transcript(pages: seq<seq<PageRow>>, es: seq<Event>): seq<Statement> {
    if pages == [] then []
    else
      var front := pages[..|pages| - 1];
      var done := if |Rows(front)| <= |es| then |Rows(front)| else |es|;
      Transcript(front, es[..done]) + [ReadPage(true)] + Statements(es[done..])
  }

  /** How many writes the caller was told, or had to see, as lost. */
  function Losses(es: seq<Event>): nat {
    if es == [] then 0 else Losses(es[..|es| - 1]) + if es[|es| - 1].o.Lost? then 1 else 0
  }

  /** The entries of the page from i on are still pending under the ids it holds. */
  ghost predicate StillPending(queue: map<Ref, QueueEntry>, page: seq<PageRow>, i: nat) {
    forall j :: i <= j < |page| ==> IsPending(queue, page[j].ref, MAX_TRIES) && queue[page[j].ref].id == page[j].id
  }

  ghost predicate TriesBounded(queue: map<Ref, QueueEntry>) {
    forall r :: r in queue ==> queue[r].tries <= 5
  }

  ghost predicate AllTook(t: Tables, es: seq<Event>) {
    forall i :: 0 <= i < |es| ==> Took(ApplyEvents(t, es[..i]), es[i])
  }

  /** An entry fetched as finished is saved and removed in one transaction; any other answer counts a try. */
  method ProcessEntry(db: Database, row: PageRow, answer: Option<Match>) returns (e: Event)
    requires db.Valid()
    modifies db`matches, db`queue, db`log
    ensures db.Valid() && e.row == row && Fits(e, answer)
    ensures e.Reconciled? <==> row.ref.provider in {1, 2} && answer.Some? && answer.value.status == 3
    ensures e.Reconciled? ==> e.m == answer.value
    ensures e.Reconciled? ==> db.log == old(db.log) + [UpsertAndDelete(answer.value, row.id, e.o)]
    ensures !e.Reconciled? ==> db.log == old(db.log) + [CountTry(row.id, e.o)]
    ensures e.o.Lost? ==> db.State() == old(db.State())
    ensures e.Reconciled? && !e.o.Lost? ==>
      Upserted(old(db.matches), answer.value, db.matches) && Removed(old(db.queue), row.id, db.queue)
    ensures !e.Reconciled? && !e.o.Lost? ==>
      db.matches == old(db.matches) && TryCounted(old(db.queue), row.id, db.queue)
    ensures db.State() == ApplyEvent(old(db.State()), e)
    ensures db.log == old(db.log) + [StatementOf(e)]
    ensures !e.o.Lost? ==> Took(old(db.State()), e)
  {
    if row.ref.provider != FOOTBALL_ORG && row.ref.provider != API_FOOTBALL {
      var o := db.AddTry(row.id);
      return Tried(row, o);
    }
    if answer.None? {
      var o := db.AddTry(row.id);
      return Tried(row, o);
    }
    if answer.value.status != FINISHED {
      var o := db.AddTry(row.id);
      return Tried(row, o);
    }
    // A failed save is logged and counts no try.
    var o := db.SaveAndRemove(answer.value, row.id);
    return Reconciled(row, answer.value, o);
  }

  predicate Ascending(page: seq<PageRow>) {
    forall j, k :: 0 <= j < k < |page| ==> page[j].id < page[k].id
  }

  lemma ProcessedEntry(t: Tables, e: Event, page: seq<PageRow>, i: nat)
    requires UniqueEntryIds(t.queue) && i < |page| && StillPending(t.queue, page, i) && e.row.id == page[i].id
    requires Ascending(page)
    ensures StillPending(ApplyEvent(t, e).queue, page, i + 1)
    ensures TriesBounded(t.queue) ==> TriesBounded(ApplyEvent(t, e).queue)
    ensures TriesLeft(ApplyEvent(t, e).queue) <= TriesLeft(t.queue) - if Took(t, e) then 1 else 0
  {
    hide TriesLeft;
    EventLowers(t.queue, page[i].ref);
  }

  /** Every event was owed to the API's answer and begun before the deadline. */
  ghost predicate Answered(api: nat -> Option<Match>, expired: (nat, nat) -> bool, events: seq<Event>) {
    forall i :: 0 <= i < |events| ==> Fits(events[i], api(i)) && !expired(i, Losses(events[..i]))
  }

  /** What a reconciler run has done so far, from the tables it started with. */
  ghost predicate History(start: Tables, now: Tables, api: nat -> Option<Match>, expired: (nat, nat) -> bool,
                          events: seq<Event>) {
    && now == ApplyEvents(start, events) && Answered(api, expired, events)
    && (TriesBounded(start.queue) ==> TriesBounded(now.queue))
    && (AllTook(start, events) ==> |events| + TriesLeft(now.queue) <= TriesLeft(start.queue))
  }

  lemma AnsweredExtends(api: nat -> Option<Match>, expired: (nat, nat) -> bool, events: seq<Event>, e: Event)
    requires Answered(api, expired, events) && Fits(e, api(|events|)) && !expired(|events|, Losses(events))
    ensures Answered(api, expired, events + [e])
    ensures Losses(events + [e]) == Losses(events) + if e.o.Lost? then 1 else 0
  {
    var events' := events + [e];
    assert events'[..|events|] == events;
    hide Fits, Losses;
    forall i | 0 <= i < |events'| ensures Fits(events'[i], api(i)) && !expired(i, Losses(events'[..i])) {
      if i < |events| {
        assert events'[..i] == events[..i] && events'[i] == events[i];
      }
    }
  }

  lemma TookExtends(start: Tables, events: seq<Event>, e: Event)
    ensures ApplyEvents(start, events + [e]) == ApplyEvent(ApplyEvents(start, events), e)
    ensures AllTook(start, events + [e]) ==> AllTook(start, events) && Took(ApplyEvents(start, events), e)
  {
    hide Took, ApplyEvent;
    var events' := events + [e];
    assert events'[..|events|] == events && events'[|events|] == e;
    assert forall j :: 0 <= j < |events| ==> events'[..j] == events[..j] && events'[j] == events[j];
    if AllTook(start, events') {
      assert Took(ApplyEvents(start, events'[..|events|]), events'[|events|]);
      assert AllTook(start, events);
    }
  }

  lemma HistoryExtends(start: Tables, t: Tables, api: nat -> Option<Match>, expired: (nat, nat) -> bool,
                       events: seq<Event>, e: Event, page: seq<PageRow>, i: nat)
    requires History(start, t, api, expired, events) && Fits(e, api(|events|)) && !expired(|events|, Losses(events))
    requires UniqueEntryIds(t.queue) && i < |page| && StillPending(t.queue, page, i) && e.row.id == page[i].id
    requires Ascending(page)
    ensures History(start, ApplyEvent(t, e), api, expired, events + [e])
    ensures StillPending(ApplyEvent(t, e).queue, page, i + 1)
    ensures TriesLeft(ApplyEvent(t, e).queue) <= TriesLeft(t.queue) - if Took(t, e) then 1 else 0
    ensures Losses(events + [e]) == Losses(events) + if e.o.Lost? then 1 else 0
  {
    hide Took, Fits, ApplyEvent, ApplyEvents, AllTook, Answered, StillPending, TriesBounded, UniqueEntryIds, TriesLeft,
      Losses;
    ProcessedEntry(t, e, page, i);
    AnsweredExtends(api, expired, events, e);
    TookExtends(start, events, e);
  }

  lemma NoStatements()
    ensures Statements([]) == []
  {
  }

  lemma StatementsExtend(es: seq<Event>, e: Event)
    ensures Statements(es + [e]) == Statements(es) + [StatementOf(e)]
  {
  }

  lemma ListedPending(queue: map<Ref, QueueEntry>, page: seq<PageRow>)
    requires IsPage(queue, BATCH_SIZE, MAX_TRIES, page)
    ensures StillPending(queue, page, 0) && Ascending(page)
  {
  }

  /** More losses than `patience` take longer than the two minutes. */
  ghost predicate Impatient(expired: (nat, nat) -> bool, patience: nat) {
    forall n: nat, k: nat :: k > patience ==> expired(n, k)
  }

  /** One batch, entry after entry, until it is done or the deadline has passed. */
  method ProcessPage(db: Database, ghost start: Tables, api: nat -> Option<Match>, expired: (nat, nat) -> bool,
                     ghost patience: nat, events0: seq<Event>, page: seq<PageRow>)
    returns (done: bool, events: seq<Event>)
    requires db.Valid() && IsPage(db.queue, BATCH_SIZE, MAX_TRIES, page) && page != []
    requires History(start, db.State(), api, expired, events0)
    requires Impatient(expired, patience) && Losses(events0) <= patience + 1
    modifies db`matches, db`queue, db`log
    ensures db.Valid() && History(start, db.State(), api, expired, events)
    ensures events0 <= events && |events| <= |events0| + |page|
    ensures forall j :: |events0| <= j < |events| ==> events[j].row == page[j - |events0|]
    ensures db.log == old(db.log) + Statements(events[|events0|..])
    ensures Losses(events0) <= Losses(events) <= patience + 1
    ensures done ==> |events| == |events0| + |page|
    ensures !done ==> expired(|events|, Losses(events))
    ensures done ==> Losses(events0) < Losses(events) || TriesLeft(db.queue) < old(TriesLeft(db.queue))
  {
    hide History, IsPage, StillPending, Fits, Took, ApplyEvent, TriesLeft, Statements, Losses;
    events := events0;
    ListedPending(db.queue, page);
    assert events[|events0|..] == [] && Statements([]) == [] by { NoStatements(); }
    for i := 0 to |page|
      invariant db.Valid() && History(start, db.State(), api, expired, events)
      invariant StillPending(db.queue, page, i)
      invariant events0 <= events && |events| == |events0| + i
      invariant forall j :: |events0| <= j < |events| ==> events[j].row == page[j - |events0|]
      invariant db.log == old(db.log) + Statements(events[|events0|..])
      invariant Losses(events0) <= Losses(events) <= patience + 1
      invariant Losses(events0) < Losses(events) || TriesLeft(db.queue) + i <= old(TriesLeft(db.queue))
    {
      if expired(|events|, Losses(events)) {
        return false, events;
      }
      ghost var before, known := db.State(), events;
      var e := ProcessEntry(db, page[i], api(|events|));
      HistoryExtends(start, before, api, expired, events, e, page, i);
      events := events + [e];
      assert events[|events0|..] == known[|events0|..] + [e];
      StatementsExtend(known[|events0|..], e);
    }
    done := true;
  }

  lemma TranscriptExtends(pages: seq<seq<PageRow>>, es0: seq<Event>, page: seq<PageRow>, es: seq<Event>)
    requires |es0| == |Rows(pages)| && es0 <= es
    ensures Transcript(pages + [page], es) == Transcript(pages, es0) + [ReadPage(true)] + Statements(es[|es0|..])
    ensures Rows(pages + [page]) == Rows(pages) + page
  {
    hide Statements;
    var pages' := pages + [page];
    assert pages'[..|pages|] == pages && es[..|es0|] == es0;
  }

  /** A page read when all earlier ones are through, and the events of its first rows. */
  lemma BatchedExtends(t: Tables, pages: seq<seq<PageRow>>, es0: seq<Event>, page: seq<PageRow>, es: seq<Event>)
    requires Batched(t, pages, es0) && |es0| == |Rows(pages)| && es0 <= es && |es| <= |es0| + |page|
    requires page != [] && IsPage(ApplyEvents(t, es0).queue, BATCH_SIZE, MAX_TRIES, page)
    requires forall j :: |es0| <= j < |es| ==> es[j].row == page[j - |es0|]
    ensures Batched(t, pages + [page], es) && |Rows(pages + [page])| == |es0| + |page|
    ensures Transcript(pages + [page], es) == Transcript(pages, es0) + [ReadPage(true)] + Statements(es[|es0|..])
  {
    hide IsPage, ApplyEvents, Statements, Transcript, Rows;
    TranscriptExtends(pages, es0, page, es);
    var pages' := pages + [page];
    assert pages'[..|pages|] == pages && es[..|es0|] == es0;
    forall k | 0 <= k < |pages|
      ensures pages'[k] != [] && |Rows(pages'[..k])| <= |es|
        && IsPage(ApplyEvents(t, es[..|Rows(pages'[..k])|]).queue, BATCH_SIZE, MAX_TRIES, pages'[k])
    {
      assert pages'[..k] == pages[..k] && pages'[k] == pages[k];
      assert es[..|Rows(pages[..k])|] == es0[..|Rows(pages[..k])|];
    }
  }

  lemma NothingYet(t: Tables, api: nat -> Option<Match>, expired: (nat, nat) -> bool)
    ensures History(t, t, api, expired, []) && Batched(t, [], []) && |Rows([])| == 0 && Transcript([], []) == []
    ensures Losses([]) == 0
  {
  }

  lemma NothingListed(queue: map<Ref, QueueEntry>)
    requires IsPage(queue, BATCH_SIZE, MAX_TRIES, [])
    ensures !AnyPending(queue)
  {
  }

  /** What a run has removed it has saved, and its pages were small. */
  lemma RunRemovesFinished(start: Tables, api: nat -> Option<Match>, expired: (nat, nat) -> bool,
                           pages: seq<seq<PageRow>>, events: seq<Event>)
    requires Answered(api, expired, events) && Batched(start, pages, events)
    ensures forall r :: r in start.queue && r !in ApplyEvents(start, events).queue ==>
      LeftFinished(start, events, api, start.queue[r].id)
    ensures forall page :: page in pages ==> 1 <= |page| <= 10
  {
    hide ApplyEvents, Fits, LeftFinished;
    forall r | r in start.queue && r !in ApplyEvents(start, events).queue
      ensures LeftFinished(start, events, api, start.queue[r].id)
    {
      RemovedOnlyAsFinished(start, events, api, r);
    }
  }

  lemma NonePending(queue: map<Ref, QueueEntry>)
    requires !AnyPending(queue)
    ensures forall r :: r in queue ==> queue[r].tries >= 5
  {
    assert forall r :: r in queue && queue[r].tries < 5 ==> IsPending(queue, r, MAX_TRIES);
  }

  /**
    `api(n)` is the API's answer for the n-th entry processed, an arbitrary one. `expired(n, k)` says whether
    the two-minute deadline has passed when n entries have been processed, k of whose writes were lost; it is
    arbitrary too, but for having passed when more than `patience` writes were lost. While writes take, the
    sum of tries left alone ends the loop.
   */
  method Reconcile(db: Database, api: nat -> Option<Match>, expired: (nat, nat) -> bool, ghost patience: nat)
    returns (result: Ending, ghost pages: seq<seq<PageRow>>, events: seq<Event>)
    requires db.Valid() && Impatient(expired, patience)
    modifies db`matches, db`queue, db`log
    ensures db.Valid() && db.State() == ApplyEvents(old(db.State()), events)
    ensures Batched(old(db.State()), pages, events)
    ensures result.Finished? ==> !AnyPending(db.queue) && |events| == |Rows(pages)|
    ensures result.DeadlineExceeded? ==> expired(|events|, Losses(events))
    ensures db.log == old(db.log) + Transcript(pages, events)
      + (match result
         case Finished => [ReadPage(true)]
         case QueryFailed => [ReadPage(false)]
         case DeadlineExceeded => [])
    ensures Answered(api, expired, events)
    ensures forall r :: r in old(db.queue) && r !in db.queue ==>
      LeftFinished(old(db.State()), events, api, old(db.queue)[r].id)
    ensures forall page :: page in pages ==> 1 <= |page| <= 10
    ensures result.Finished? ==> forall r :: r in db.queue ==> db.queue[r].tries >= 5
    ensures AllTook(old(db.State()), events) ==> |events| + TriesLeft(db.queue) <= TriesLeft(old(db.queue))
  {
    hide Batched, Transcript, Losses, IsPage, TriesLeft, Answered, AllTook, TriesBounded, Rows, ApplyEvents,
      AnyPending, Statements, LeftFinished;
    events, pages := [], [];
    NothingYet(db.State(), api, expired);
    ghost var start := db.State();
    while true
      invariant db.Valid() && History(start, db.State(), api, expired, events)
      invariant Batched(start, pages, events) && |events| == |Rows(pages)|
      invariant db.log == old(db.log) + Transcript(pages, events)
      invariant Losses(events) <= patience + 1
      decreases patience + 1 - Losses(events), TriesLeft(db.queue)
    {
      var queried, page := db.GetPendingReconciliations(BATCH_SIZE, MAX_TRIES);
      if !queried {
        RunRemovesFinished(start, api, expired, pages, events);
        return QueryFailed, pages, events;
      }
      if |page| == 0 {
        NothingListed(db.queue);
        NonePending(db.queue);
        RunRemovesFinished(start, api, expired, pages, events);
        return Finished, pages, events;
      }
      ghost var known := events;
      var done;
      done, events := ProcessPage(db, start, api, expired, patience, events, page);
      BatchedExtends(start, pages, known, page, events);
      pages := pages + [page];
      if !done {
        RunRemovesFinished(start, api, expired, pages, events);
        return DeadlineExceeded, pages, events;
      }
    }
  }

  /**
    A processed entry brings the end of the loop nearer exactly when its write took; otherwise it changes nothing
    at all. A save the database refuses counts no try: the entry is pending again at once.
   */
  lemma LowersIffTook(t: Tables, e: Event, ref: Ref)
    requires UniqueEntryIds(t.queue) && IsPending(t.queue, ref, MAX_TRIES) && e.row.id == t.queue[ref].id
    ensures TriesLeft(ApplyEvent(t, e).queue) < TriesLeft(t.queue) <==> Took(t, e)
    ensures !Took(t, e) ==> ApplyEvent(t, e) == t
  {
    hide TriesLeft, UniqueEntryIds, Upsert;
    EventLowers(t.queue, ref);
  }

  /** While no write takes nothing moves, so that only the deadline, or a failed query, can end the loop. */
  lemma {:induction false} NothingTakenNothingEnds(t: Tables, es: seq<Event>)
    requires AnyPending(t.queue) && forall e :: e in es ==> !Took(t, e)
    ensures ApplyEvents(t, es) == t && AnyPending(ApplyEvents(t, es).queue)
  {
    hide Took, AnyPending;
    if es == [] {
    } else {
      var n := |es| - 1;
      NothingTakenNothingEnds(t, es[..n]);
      UntakenChangesNothing(t, es[n]);
    }
  }

  lemma UntakenChangesNothing(t: Tables, e: Event)
    requires !Took(t, e)
    ensures ApplyEvent(t, e) == t
  {
    hide Upsert, IncrementTries, MarkReconciled;
  }

  /** A refused save counts no try and removes nothing, so the entry is pending again at once. */
  lemma RefusedSaveIsRetried(t: Tables, ref: Ref, m: Match, o: Outcome)
    requires IsPending(t.queue, ref, MAX_TRIES) && Upsert(t.matches, m).None?
    ensures ApplyEvent(t, Reconciled(PageRow(ref, t.queue[ref].id), m, o)) == t
  {
  }

  /** The queue takes match ids that the matches table refuses: once finished, such an entry is pending for ever. */
  lemma LongIdNeverSaved(t: Tables, ref: Ref, events: seq<Event>)
    requires IsPending(t.queue, ref, MAX_TRIES) && |ref.pmid| > 255
    requires forall e :: e in events ==> e.Reconciled? && RefOf(e.m) == ref
    ensures ApplyEvents(t, events) == t && IsPending(ApplyEvents(t, events).queue, ref, MAX_TRIES)
  {
    assert AnyPending(t.queue);
    forall e | e in events ensures !Took(t, e) {
      assert !Storable(e.m);
    }
    NothingTakenNothingEnds(t, events);
  }
}
