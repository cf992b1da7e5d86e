/**
  The programs' specifications are runs of the pipeline machine: what a sync run, a reconciler batch, a
  signer run or a fault-free relay batch makes of the tables is reached by its actions, taken in a row.
 */
module Paths {
  import opened Wrappers
  import opened Bytes
  import opened Entity
  import opened Eip712
  import opened Crypto
  import opened Oracle
  import opened Tables
  import opened Sync
  import opened Reconcile
  import opened Signer
  import opened Relayer
  import opened Pipeline
  import opened Invariants
  import opened Safety
  import opened Guarantees
  import opened Round

  ghost predicate Leads(c: Config, s: State, s': State) {
    exists actions :: RunFrom(c, s, actions) == Some(s')
  }

  lemma LeadsHere(c: Config, s: State)
    ensures Leads(c, s, s)
  {
    assert RunFrom(c, s, []) == Some(s);
  }

  lemma LeadsOn(c: Config, s0: State, s: State, a: Action)
    requires Leads(c, s0, s) && Enabled(c, s, a)
    ensures Leads(c, s0, Next(c, s, a))
  {
    hide Enabled, Next;
    var actions :| RunFrom(c, s0, actions) == Some(s);
    RunExtends(c, s0, actions, a);
  }

  lemma SyncLeads(c: Config, s0: State, s: State, a: Action)
    requires Leads(c, s0, s) && SyncEnabled(c, s, a)
    ensures Leads(c, s0, SyncNext(c, s, a))
  {
    hide SyncEnabled, SyncNext, Leads;
    LeadsOn(c, s0, s, a);
  }

  lemma RecLeads(c: Config, s0: State, s: State, a: Action)
    requires Leads(c, s0, s) && RecEnabled(c, s, a)
    ensures Leads(c, s0, RecNext(c, s, a))
  {
    hide Leads, IsPage, WellMade, Filtered, IsListing, Exec, Unforged, RecNext, SyncNext;
    LeadsOn(c, s0, s, a);
  }

  lemma SignLeads(c: Config, s0: State, s: State, a: Action)
    requires Leads(c, s0, s) && SignEnabled(c, s, a)
    ensures Leads(c, s0, SignNext(c, s, a))
  {
    hide Leads, IsPage, WellMade, Filtered, IsListing, Exec, Unforged, SignNext, SyncNext, RecNext;
    LeadsOn(c, s0, s, a);
  }

  lemma RelayLeads(c: Config, s0: State, s: State, a: Action)
    requires Leads(c, s0, s) && RelayEnabled(c, s, a)
    ensures Leads(c, s0, RelayNext(c, s, a))
  {
    hide Leads, IsPage, WellMade, Filtered, IsListing, Exec, Unforged, RelayNext, SyncNext, RecNext,
      SignNext;
    LeadsOn(c, s0, s, a);
  }

  lemma ChainLeads(c: Config, s0: State, s: State, a: Action)
    requires Leads(c, s0, s) && ChainEnabled(c, s, a)
    ensures Leads(c, s0, ChainNext(c, s, a))
  {
    hide Leads, IsPage, WellMade, Filtered, IsListing, Exec, Unforged, ChainNext, SyncNext, RecNext,
      SignNext, RelayNext;
    LeadsOn(c, s0, s, a);
  }

  // ---- Sync ----

  /** The stale loop of flight f is through with its first k matches. */
  function StaleState(s: State, i: nat, f: SyncFlight, tries: seq<EnqueueTry>, k: nat): State
    requires k <= |f.fetched| == |tries|
  {
    var (ms, provider) := (f.fetched[..k], f.key.provider);
    s.(tables := s.tables.(queue := EnqueueAll(s.tables.queue, ms, provider, f.staleNow, tries[..k])),
       syncs := s.syncs[i := f.(
         stalePos := k,
         missed := f.missed || AnyStaleMissed(s.tables.queue, ms, provider, f.staleNow, tries[..k]))])
  }

  lemma EnqueueAllStep(queue: map<Ref, QueueEntry>, ms: seq<Match>, provider: int, now: int,
                       tries: seq<EnqueueTry>, k: nat)
    requires k < |ms| == |tries|
    ensures var before := EnqueueAll(queue, ms[..k], provider, now, tries[..k]);
      && EnqueueAll(queue, ms[..k + 1], provider, now, tries[..k + 1])
         == EnqueueStale(before, ms[k], provider, now, tries[k])
      && (AnyStaleMissed(queue, ms[..k + 1], provider, now, tries[..k + 1])
          <==> AnyStaleMissed(queue, ms[..k], provider, now, tries[..k])
               || StaleMissed(before, ms[k], provider, now, tries[k]))
  {
    hide EnqueueAll, EnqueueStale, AnyStaleMissed, StaleMissed;
    StaleExtends(queue, ms, provider, now, tries[..k], tries[k]);
    assert tries[..k] + [tries[k]] == tries[..k + 1];
  }

  lemma UpdatedTwice<K, V>(m: map<K, V>, k: K, v: V, w: V)
    ensures m[k := v][k := w] == m[k := w]
  {
  }

  lemma StaleStep(s: State, i: nat, f: SyncFlight, tries: seq<EnqueueTry>, k: nat)
    requires k < |f.fetched| == |tries|
    ensures SyncStaleNext(StaleState(s, i, f, tries, k), i, tries[k]) == StaleState(s, i, f, tries, k + 1)
  {
    hide EnqueueAll, AnyStaleMissed, Enqueue, IsStale;
    EnqueueAllStep(s.tables.queue, f.fetched, f.key.provider, f.staleNow, tries, k);
    var s1 := StaleState(s, i, f, tries, k);
    UpdatedTwice(s.syncs, i, s1.syncs[i], SyncStaleNext(s1, i, tries[k]).syncs[i]);
  }

  lemma {:induction false} StalePath(c: Config, s0: State, s: State, i: nat, f: SyncFlight,
                                     tries: seq<EnqueueTry>, k: nat)
    requires |f.fetched| == |tries| && Leads(c, s0, StaleState(s, i, f, tries, 0))
    requires k <= |tries| && forall t :: t in tries ==> FreshTry(s, t)
    ensures Leads(c, s0, StaleState(s, i, f, tries, k))
  {
    hide Leads, SyncStaleNext, EnqueueAll, AnyStaleMissed;
    if k == 0 {
    } else {
      StalePath(c, s0, s, i, f, tries, k - 1);
      assert tries[k - 1] in tries;
      SyncLeads(c, s0, StaleState(s, i, f, tries, k - 1), SyncStale(i, tries[k - 1]));
      StaleStep(s, i, f, tries, k - 1);
    }
  }

  /** From s to s' the flight i has come to f, and only the tables and the record of results moved. */
  ghost predicate OnlySaved(s: State, s': State, i: nat, f: SyncFlight) {
    && s'.syncs == s.syncs[i := f]
    && s' == s.(tables := s'.tables, syncs := s'.syncs, past := s.past.(saved := s'.past.saved))
  }

  /** The save loop of flight f is through with its first k matches. */
  ghost predicate SavedTo(s: State, s': State, i: nat, f: SyncFlight, saves: seq<SaveTry>, k: nat)
    requires k <= |Kept(f)| == |saves|
  {
    var (ms, provider) := (Kept(f)[..k], f.key.provider);
    && OnlySaved(s, s', i, f.(savePos := k, missed := f.missed || AnySaveMissed(s.tables, ms, provider, saves[..k])))
    && s'.tables == SaveMatches(s.tables, ms, provider, saves[..k])
  }

  lemma SaveMatchesStep(t: Tables, ms: seq<Match>, provider: int, saves: seq<SaveTry>, k: nat)
    requires k < |ms| == |saves|
    ensures var before := SaveMatches(t, ms[..k], provider, saves[..k]);
      && SaveMatches(t, ms[..k + 1], provider, saves[..k + 1]) == SaveOne(before, ms[k], provider, saves[k])
      && (AnySaveMissed(t, ms[..k + 1], provider, saves[..k + 1])
          <==> AnySaveMissed(t, ms[..k], provider, saves[..k]) || SaveMissed(before, ms[k], provider, saves[k]))
  {
    hide SaveMatches, SaveOne, AnySaveMissed, SaveMissed;
    SaveExtends(t, ms, provider, saves[..k], saves[k]);
    assert saves[..k] + [saves[k]] == saves[..k + 1];
  }

  /** Match k is finished, its save is over and was not reported done: its insert comes next. */
  ghost predicate FallsBack(s: State, s': State, i: nat, f: SyncFlight, saves: seq<SaveTry>, k: nat)
    requires k < |Kept(f)| == |saves|
  {
    var (ms, provider) := (Kept(f)[..k], f.key.provider);
    var t := SaveMatches(s.tables, ms, provider, saves[..k]);
    var written := Upsert(t.matches, Kept(f)[k]);
    && Kept(f)[k].status == FINISHED && !Succeeds(written, saves[k].save)
    && OnlySaved(s, s', i, f.(savePos := k, fallback := true,
                              missed := f.missed || AnySaveMissed(s.tables, ms, provider, saves[..k])))
    && s'.tables == t.(matches := Resolve(t.matches, written, saves[k].save))
  }

  lemma SaveActs(s: State, s1: State, i: nat, f: SyncFlight, saves: seq<SaveTry>, k: nat)
    requires k < |Kept(f)| == |saves| && SavedTo(s, s1, i, f, saves, k) && !f.fallback
    ensures var s2 := SyncSaveNext(s1, i, saves[k].save);
      SavedTo(s, s2, i, f, saves, k + 1) || FallsBack(s, s2, i, f, saves, k)
  {
    hide Enqueue, Upsert, Filtered, SaveMatches, AnySaveMissed, Resolve, Succeeds;
    SaveMatchesStep(s.tables, Kept(f), f.key.provider, saves, k);
    UpdatedTwice(s.syncs, i, s1.syncs[i], SyncSaveNext(s1, i, saves[k].save).syncs[i]);
  }

  lemma FallbackActs(c: Config, s: State, s1: State, i: nat, f: SyncFlight, saves: seq<SaveTry>, k: nat)
    requires k < |Kept(f)| == |saves| && FallsBack(s, s1, i, f, saves, k)
    requires FreshTry(s, saves[k].fallback) && !f.fallback
    ensures SyncEnabled(c, s1, SyncFallback(i, saves[k].fallback))
    ensures SavedTo(s, SyncNext(c, s1, SyncFallback(i, saves[k].fallback)), i, f, saves, k + 1)
  {
    hide Enqueue, Upsert, Filtered, SaveMatches, AnySaveMissed, Resolve, Succeeds;
    SaveMatchesStep(s.tables, Kept(f), f.key.provider, saves, k);
    UpdatedTwice(s.syncs, i, s1.syncs[i], SyncNext(c, s1, SyncFallback(i, saves[k].fallback)).syncs[i]);
  }

  lemma SaveStep(c: Config, s0: State, s: State, s1: State, i: nat, f: SyncFlight, saves: seq<SaveTry>, k: nat)
    returns (s2: State)
    requires k < |Kept(f)| == |saves| && SavedTo(s, s1, i, f, saves, k) && Leads(c, s0, s1)
    requires f.stalePos == |f.fetched| && !f.fallback && FreshTry(s, saves[k].fallback)
    ensures Leads(c, s0, s2) && SavedTo(s, s2, i, f, saves, k + 1)
  {
    hide Leads, Filtered, FreshTry, SyncSaveNext, SaveMatches, AnySaveMissed;
    SyncLeads(c, s0, s1, SyncSave(i, saves[k].save));
    s2 := SyncSaveNext(s1, i, saves[k].save);
    SaveActs(s, s1, i, f, saves, k);
    hide SavedTo, FallsBack;
    if FallsBack(s, s2, i, f, saves, k) {
      FallbackActs(c, s, s2, i, f, saves, k);
      SyncLeads(c, s0, s2, SyncFallback(i, saves[k].fallback));
      s2 := SyncNext(c, s2, SyncFallback(i, saves[k].fallback));
    }
  }

  lemma {:induction false} SavePath(c: Config, s0: State, s: State, i: nat, f: SyncFlight, saves: seq<SaveTry>, k: nat)
    returns (s': State)
    requires Leads(c, s0, s) && i in s.syncs && s.syncs[i] == f
    requires f.stalePos == |f.fetched| && f.savePos == 0 && !f.fallback && k <= |Kept(f)| == |saves|
    requires forall t :: t in saves ==> FreshTry(s, t.fallback)
    ensures Leads(c, s0, s') && SavedTo(s, s', i, f, saves, k)
  {
    if k == 0 {
      hide Leads, Filtered;
      s' := s;
    } else {
      hide Leads, SavedTo, Filtered;
      var before := SavePath(c, s0, s, i, f, saves, k - 1);
      assert saves[k - 1] in saves;
      s' := SaveStep(c, s0, s, before, i, f, saves, k - 1);
    }
  }

  /** The pass a sync run leaves on record, if it leaves one; clean exactly when the run missed no match. */
  function PassOf(t: Tables, r: SyncRun): set<Pass>
    requires WellFormed(r) && r.fetched.Some?
  {
    var day := QueryDay(t.cursors, r.key, DayOf(r.now));
    if r.cursorWrite.Lost? || WrittenDay(t, r) == day then {}
    else {Pass(r.key, day, DayOf(r.now), r.staleNow, r.fetched.value, !Misses(t, r))}
  }

  /** A whole sync run, undisturbed, is a run of the machine, and leaves its pass on record. */
  lemma SyncIsPath(c: Config, s0: State, s: State, i: nat, r: SyncRun) returns (s': State)
    requires Leads(c, s0, s) && i !in s.syncs && WellFormed(r) && r.readOk && r.fetched.Some?
    requires forall m :: m in r.fetched.value ==> FromApi(c, m, r.key.provider)
    requires forall t :: t in r.stale ==> FreshTry(s, t)
    requires forall t :: t in r.saves ==> FreshTry(s, t.fallback)
    ensures Leads(c, s0, s') && s'.tables == AfterSync(s.tables, r)
    ensures s'.past.passed == s.past.passed + PassOf(s.tables, r)
    ensures s' == s.(tables := s'.tables, past := s.past.(saved := s'.past.saved, passed := s'.past.passed))
  {
    hide Leads, FromApi, EnqueueAll, SaveMatches, Filtered, HasInProgress, IsStale, AnyStaleMissed, AnySaveMissed,
      QueryDay;
    var today := DayOf(r.now);
    var ms := r.fetched.value;
    var f := SyncFlight(r.key, QueryDay(s.tables.cursors, r.key, today), today, r.staleNow, ms, 0, 0, false, false);
    SyncLeads(c, s0, s, SyncBegin(i, r.key, r.now, r.staleNow, ms));
    var s1 := SyncNext(c, s, SyncBegin(i, r.key, r.now, r.staleNow, ms));
    NothingQueued(s1, i, f, r.stale);
    StalePath(c, s0, s1, i, f, r.stale, |ms|);
    var s2 := StaleState(s1, i, f, r.stale, |ms|);
    var f2 := s2.syncs[i];
    assert ms[..|ms|] == ms && r.stale[..|ms|] == r.stale;
    var s3 := SavePath(c, s0, s2, i, f2, r.saves, |Kept(f2)|);
    assert Kept(f2)[..|Kept(f2)|] == Kept(f2) && r.saves[..|Kept(f2)|] == r.saves;
    SaveKeepsCursors(s2.tables, Kept(f2), r.key.provider, r.saves);
    SyncLeads(c, s0, s3, SyncCursor(i, r.cursorWrite));
    s' := SyncCursorNext(s3, i, r.cursorWrite);
    assert s'.syncs == s.syncs;
  }

  lemma NothingQueued(s: State, i: nat, f: SyncFlight, tries: seq<EnqueueTry>)
    requires i in s.syncs && s.syncs[i] == f && f.stalePos == 0 && |tries| == |f.fetched|
    ensures StaleState(s, i, f, tries, 0) == s
  {
    assert s.syncs[i := f] == s.syncs;
  }

  // ---- Reconcile ----

  function BatchState(s: State, s1: State, i: nat, page: seq<PageRow>, es: seq<Event>, k: nat): State
    requires k <= |es| <= |page|
  {
    s.(tables := ApplyEvents(s.tables, es[..k]), recs := s.recs[i := page[k..]], past := s1.past)
  }

  /** The by-id API answers for the entry that was asked about. */
  ghost predicate Echoes(c: Config, row: PageRow, answer: Option<Match>) {
    answer.Some? ==> FromApi(c, answer.value, row.ref.provider) && RefOf(answer.value) == row.ref
  }

  /** The event is the one the program owes to some answer of the API. */
  ghost predicate EventAllowed(c: Config, e: Event) {
    exists answer :: Fits(e, answer) && Echoes(c, e.row, answer)
  }

  /** Then what it saves is a finished match of its own entry. */
  lemma AllowedIsFinished(c: Config, e: Event)
    requires EventAllowed(c, e) && e.Reconciled?
    ensures e.m.status == 3 && FromApi(c, e.m, e.row.ref.provider) && RefOf(e.m) == e.row.ref
  {
    hide FromApi;
    var answer :| Fits(e, answer) && Echoes(c, e.row, answer);
    FitsIff(e, answer);
  }

  /** The events of a program run are such, whatever the API answered. */
  lemma AnsweredAllowed(c: Config, api: nat -> Option<Match>, expired: (nat, nat) -> bool, es: seq<Event>)
    requires Answered(api, expired, es) && forall i :: 0 <= i < |es| ==> Echoes(c, es[i].row, api(i))
    ensures forall e :: e in es ==> EventAllowed(c, e)
  {
    hide Fits, Echoes;
    forall i | 0 <= i < |es| ensures EventAllowed(c, es[i]) {
      assert Fits(es[i], api(i)) && Echoes(c, es[i].row, api(i));
    }
  }

  /** The events a reconciler may make of a page: one an entry, in order, until the deadline. */
  ghost predicate EventsOf(c: Config, page: seq<PageRow>, es: seq<Event>) {
    |es| <= |page| && forall j :: 0 <= j < |es| ==> es[j].row == page[j] && EventAllowed(c, es[j])
  }

  lemma ApplyEventsStep(t: Tables, es: seq<Event>, k: nat)
    requires k < |es|
    ensures ApplyEvents(t, es[..k + 1]) == ApplyEvent(ApplyEvents(t, es[..k]), es[k])
  {
    hide ApplyEvent;
    assert es[..k + 1][..k] == es[..k];
  }

  function EventAction(i: nat, e: Event): Action {
    match e
    case Tried(_, o) => RecTry(i, o)
    case Reconciled(_, m, o) => RecSave(i, m, o)
  }

  /** One entry's action does to the tables what its event does. */
  lemma EventStep(c: Config, s: State, i: nat, e: Event)
    requires i in s.recs && s.recs[i] != [] && e.row == s.recs[i][0] && RecEnabled(c, s, EventAction(i, e))
    ensures var s' := RecNext(c, s, EventAction(i, e));
      && s'.tables == ApplyEvent(s.tables, e)
      && s' == s.(tables := s'.tables, recs := s.recs[i := s.recs[i][1..]], past := s'.past)
      && s'.past == s.past.(saved := s'.past.saved, retired := s'.past.retired)
  {
    hide IncrementTries, SaveAndDequeue, IsPage, FromApi;
  }

  lemma {:induction false} BatchPath(c: Config, s0: State, s: State, i: nat, page: seq<PageRow>, es: seq<Event>, k: nat)
    returns (s': State)
    requires Leads(c, s0, s.(recs := s.recs[i := page])) && EventsOf(c, page, es) && k <= |es|
    ensures Leads(c, s0, s') && s' == BatchState(s, s', i, page, es, k)
    ensures s'.past == s.past.(saved := s'.past.saved, retired := s'.past.retired)
  {
    hide Leads, ApplyEvents, FromApi, IsPage, EventAllowed;
    if k == 0 {
      s' := s.(recs := s.recs[i := page]);
      assert page[0..] == page && ApplyEvents(s.tables, es[..0]) == s.tables by { NoEvents(s.tables, es); }
    } else {
      var before := BatchPath(c, s0, s, i, page, es, k - 1);
      var a := EventAction(i, es[k - 1]);
      assert page[k - 1..][0] == page[k - 1] && page[k - 1..][1..] == page[k..];
      if es[k - 1].Reconciled? {
        AllowedIsFinished(c, es[k - 1]);
      }
      RecLeads(c, s0, before, a);
      EventStep(c, before, i, es[k - 1]);
      s' := RecNext(c, before, a);
      ApplyEventsStep(s.tables, es, k - 1);
      UpdatedTwice(s.recs, i, page[k - 1..], page[k..]);
    }
  }

  lemma NoEvents(t: Tables, es: seq<Event>)
    ensures ApplyEvents(t, es[..0]) == t
  {
  }

  /** One batch of a reconciler, undisturbed, whole or cut off by the deadline, is a run of the machine. */
  lemma BatchIsPath(c: Config, s0: State, s: State, i: nat, page: seq<PageRow>, es: seq<Event>) returns (s': State)
    requires Leads(c, s0, s) && i !in s.recs && IsPage(s.tables.queue, BATCH_SIZE, MAX_TRIES, page)
    requires EventsOf(c, page, es)
    ensures Leads(c, s0, s') && s'.tables == ApplyEvents(s.tables, es)
    ensures s' == s.(tables := s'.tables, past := s.past.(saved := s'.past.saved, retired := s'.past.retired))
  {
    hide Leads, ApplyEvents, EventsOf, IsPage;
    assert |es| <= |page| by { EventsLength(c, page, es); }
    RecLeads(c, s0, s, RecBegin(i, page));
    var done := BatchPath(c, s0, s, i, page, es, |es|);
    assert es[..|es|] == es;
    RecLeads(c, s0, done, RecStop(i));
    s' := RecNext(c, done, RecStop(i));
    assert s'.recs == s.recs;
  }

  lemma EventsLength(c: Config, page: seq<PageRow>, es: seq<Event>)
    requires EventsOf(c, page, es)
    ensures |es| <= |page|
  {
  }

  lemma {:induction false} ApplyInTwo(t: Tables, es: seq<Event>, k: nat)
    requires k <= |es|
    ensures ApplyEvents(t, es) == ApplyEvents(ApplyEvents(t, es[..k]), es[k..])
  {
    hide ApplyEvent;
    if k == |es| {
      assert es[..k] == es;
    } else {
      var n := |es| - 1;
      ApplyInTwo(t, es[..n], k);
      assert es[..n][..k] == es[..k] && es[k..][..|es| - k - 1] == es[..n][k..] && es[k..][|es| - k - 1] == es[n];
    }
  }

  /** The events of the pages but the last, and what is left for the last. */
  lemma BatchedFront(t: Tables, pages: seq<seq<PageRow>>, es: seq<Event>)
    requires Batched(t, pages, es) && pages != []
    ensures var n := |pages| - 1;
      var k := |Rows(pages[..n])|;
      && k <= |es| <= k + |pages[n]| && Batched(t, pages[..n], es[..k])
      && IsPage(ApplyEvents(t, es[..k]).queue, BATCH_SIZE, MAX_TRIES, pages[n])
      && forall j :: k <= j < |es| ==> es[j].row == pages[n][j - k]
  {
    hide IsPage, ApplyEvents;
    var n := |pages| - 1;
    var front := pages[..n];
    var k := |Rows(front)|;
    forall q | 0 <= q < n
      ensures front[q] != [] && |Rows(front[..q])| <= k
        && IsPage(ApplyEvents(t, es[..k][..|Rows(front[..q])|]).queue, BATCH_SIZE, MAX_TRIES, front[q])
    {
      assert front[..q] == pages[..q];
      PageRowsGrow(front, q);
      assert es[..k][..|Rows(front[..q])|] == es[..|Rows(pages[..q])|];
    }
  }

  lemma {:induction false} PageRowsGrow(pages: seq<seq<PageRow>>, q: nat)
    requires q <= |pages|
    ensures |Rows(pages[..q])| <= |Rows(pages)|
  {
    if q == |pages| {
      assert pages[..q] == pages;
    } else {
      PageRowsGrow(pages[..|pages| - 1], q);
      assert pages[..|pages| - 1][..q] == pages[..q];
    }
  }

  /** A whole reconciler run, undisturbed, with any answers and faults and ended however, is a run of the machine. */
  lemma ReconcileIsPath(c: Config, s0: State, s: State, i: nat, pages: seq<seq<PageRow>>, es: seq<Event>,
                        api: nat -> Option<Match>, expired: (nat, nat) -> bool)
    returns (s': State)
    requires Leads(c, s0, s) && i !in s.recs && Batched(s.tables, pages, es) && Answered(api, expired, es)
    requires forall n :: 0 <= n < |es| ==> Echoes(c, es[n].row, api(n))
    ensures Leads(c, s0, s') && s'.tables == ApplyEvents(s.tables, es)
    ensures s' == s.(tables := s'.tables, past := s.past.(saved := s'.past.saved, retired := s'.past.retired))
  {
    hide Leads, ApplyEvents, IsPage, EventAllowed, Echoes, Batched, Answered;
    AnsweredAllowed(c, api, expired, es);
    s' := PagesPath(c, s0, s, i, pages, es);
  }

  lemma {:induction false} PagesPath(c: Config, s0: State, s: State, i: nat, pages: seq<seq<PageRow>>, es: seq<Event>)
    returns (s': State)
    requires Leads(c, s0, s) && i !in s.recs && Batched(s.tables, pages, es)
    requires forall e :: e in es ==> EventAllowed(c, e)
    ensures Leads(c, s0, s') && s'.tables == ApplyEvents(s.tables, es)
    ensures s' == s.(tables := s'.tables, past := s.past.(saved := s'.past.saved, retired := s'.past.retired))
  {
    hide Leads, ApplyEvents, IsPage, EventAllowed;
    if pages == [] {
      s' := s;
      assert es == [] && es[..0] == es;
      NoEvents(s.tables, es);
    } else {
      var n := |pages| - 1;
      BatchedFront(s.tables, pages, es);
      var k := |Rows(pages[..n])|;
      hide Batched, Rows;
      var before := PagesPath(c, s0, s, i, pages[..n], es[..k]);
      s' := BatchIsPath(c, s0, before, i, pages[n], es[k..]);
      ApplyInTwo(s.tables, es, k);
    }
  }

  // ---- Sign ----

  function SignState(c: Config, s: State, s1: State, i: nat, key: Address, items: seq<SignItem>, os: seq<Outcome>,
                     k: nat)
    : State
    requires k <= |items| == |os|
  {
    s.(tables := s.tables.(matches := SignAll(c.crypto, c.domain, key, s.tables.matches, items[..k], os[..k])),
       signers := s.signers[i := SignFlight(key, items[k..])], past := s1.past)
  }

  /** Only digests were issued, among them those of the first k items. */
  ghost predicate IssuedFor(c: Config, s: State, s': State, key: Address, items: seq<SignItem>, k: nat)
    requires k <= |items|
  {
    && s'.past == s.past.(issued := s'.past.issued) && s.past.issued <= s'.past.issued
    && (forall j :: 0 <= j < k ==>
          var digest := SignerDigest(c.crypto.keccak, c.domain, items[j].canonicalId, items[j].home, items[j].away);
          digest.Some? ==> (key, digest.value) in s'.past.issued)
  }

  lemma SignAllStep(c: Config, key: Address, matches: map<Ref, Row>, items: seq<SignItem>, os: seq<Outcome>, k: nat)
    requires k < |items| == |os|
    ensures SignAll(c.crypto, c.domain, key, matches, items[..k + 1], os[..k + 1])
         == SignOne(c.crypto, c.domain, key, SignAll(c.crypto, c.domain, key, matches, items[..k], os[..k]),
                    items[k], os[k])
  {
    hide SignOne;
    assert items[..k + 1][..k] == items[..k] && os[..k + 1][..k] == os[..k];
  }

  lemma {:induction false} SignPath(c: Config, s0: State, s: State, i: nat, key: Address, items: seq<SignItem>,
                                    os: seq<Outcome>, k: nat)
    returns (s': State)
    requires Leads(c, s0, s.(signers := s.signers[i := SignFlight(key, items)])) && k <= |items| == |os|
    ensures Leads(c, s0, s') && s' == SignState(c, s, s', i, key, items, os, k) && IssuedFor(c, s, s', key, items, k)
  {
    hide Leads, SignAll, SignOne, SignerDigest, IsListing;
    if k == 0 {
      s' := s.(signers := s.signers[i := SignFlight(key, items)]);
      NothingSigned(c, key, s.tables.matches, items, os);
    } else {
      var before := SignPath(c, s0, s, i, key, items, os, k - 1);
      assert items[k - 1..][0] == items[k - 1] && items[k - 1..][1..] == items[k..];
      SignLeads(c, s0, before, SignStep(i, os[k - 1]));
      s' := SignStepNext(c, before, i, os[k - 1]);
      SignAllStep(c, key, s.tables.matches, items, os, k - 1);
      UpdatedTwice(s.signers, i, SignFlight(key, items[k - 1..]), SignFlight(key, items[k..]));
    }
  }

  lemma NothingSigned(c: Config, key: Address, matches: map<Ref, Row>, items: seq<SignItem>, os: seq<Outcome>)
    requires |os| == |items|
    ensures SignAll(c.crypto, c.domain, key, matches, items[..0], os[..0]) == matches && items[0..] == items
  {
  }

  /** A whole signer run, undisturbed, is a run of the machine; it issues the digest of every item it can sign. */
  lemma SignIsPath(c: Config, s0: State, s: State, i: nat, key: Address, refs: seq<Ref>, os: seq<Outcome>)
    returns (s': State)
    requires Leads(c, s0, s) && i !in s.signers && key in c.keys
    requires IsListing(s.tables.matches, FINISHED, refs) && |os| == |refs|
    ensures Leads(c, s0, s') && s' == s.(tables := s'.tables, past := s'.past)
    ensures s'.tables == s.tables.(
      matches := SignAll(c.crypto, c.domain, key, s.tables.matches, Items(s.tables.matches, refs), os))
    ensures IssuedFor(c, s, s', key, Items(s.tables.matches, refs), |refs|)
  {
    hide Leads, SignAll, SignerDigest;
    var items := Items(s.tables.matches, refs);
    SignLeads(c, s0, s, SignBegin(i, key, refs));
    var done := SignPath(c, s0, s, i, key, items, os, |items|);
    assert items[..|items|] == items && os[..|items|] == os;
    SignLeads(c, s0, done, SignStop(i));
    s' := SignNext(c, done, SignStop(i));
    assert s'.signers == s.signers;
  }

  // ---- Relay ----

  lemma {:induction false} AboveAll(xs: set<nat>) returns (n: nat)
    ensures forall x :: x in xs ==> x < n
  {
    if xs == {} {
      n := 0;
    } else {
      var x :| x in xs;
      n := AboveAll(xs - {x});
      n := if n <= x then x + 1 else n;
      assert forall y :: y in xs ==> y == x || y in xs - {x};
    }
  }

  /** From s to s' the relay flight i has come to f, and only the chain, the rows and the mempool moved. */
  ghost predicate OnlyRelayed(s: State, s': State, i: nat, f: RelayFlight) {
    && s'.relayers == s.relayers[i := f]
    && s' == s.(tables := s.tables.(matches := s'.tables.matches), chain := s'.chain, sent := s'.sent,
                receipts := s'.receipts, relayers := s'.relayers)
  }

  /** The transaction is sent and mined at once, and its receipt is there. */
  lemma SentAndMined(c: Config, s0: State, s: State, i: nat) returns (s': State, tx: nat)
    requires Leads(c, s0, s) && i in s.relayers && s.relayers[i].todo != [] && s.relayers[i].phase.Ready?
    requires s.receipts.Keys <= s.sent.Keys && Unforged(c, s.past.issued, Calldata(s.relayers[i].todo[0]))
    ensures Leads(c, s0, s') && OnlyRelayed(s, s', i, s.relayers[i].(phase := Waiting(tx)))
    ensures s'.tables == s.tables && s'.receipts.Keys <= s'.sent.Keys
    ensures s'.chain == After(c.crypto, c.domain, s.chain, Submit(Calldata(s.relayers[i].todo[0])))
    ensures tx in s'.receipts
      && s'.receipts[tx] == Exec(c.crypto, c.domain, s.chain, Submit(Calldata(s.relayers[i].todo[0]))).Ok?
  {
    hide Leads, Unforged, Calldata, Exec, Oracle.After;
    tx := AboveAll(s.sent.Keys);
    RelayLeads(c, s0, s, RelaySend(i, tx, true));
    var s1 := RelayNext(c, s, RelaySend(i, tx, true));
    ChainLeads(c, s0, s1, Mine(tx));
    s' := ChainNext(c, s1, Mine(tx));
  }

  lemma Taken(c: Config, s0: State, s: State, i: nat, o: Outcome) returns (s': State)
    requires Leads(c, s0, s) && i in s.relayers && s.relayers[i].todo != [] && s.relayers[i].phase.Ready?
    requires s.receipts.Keys <= s.sent.Keys && Unforged(c, s.past.issued, Calldata(s.relayers[i].todo[0]))
    requires Exec(c.crypto, c.domain, s.chain, Submit(Calldata(s.relayers[i].todo[0]))).Ok?
    ensures Leads(c, s0, s') && OnlyRelayed(s, s', i, Rest(s.relayers[i])) && s'.receipts.Keys <= s'.sent.Keys
    ensures s'.chain == After(c.crypto, c.domain, s.chain, Submit(Calldata(s.relayers[i].todo[0])))
    ensures s'.tables.matches == MarkOne(s.tables.matches, s.relayers[i].todo[0], Sent, o)
  {
    hide Leads, Unforged, Calldata, Exec, Oracle.After, MarkOne;
    var f := s.relayers[i];
    var s1, tx := SentAndMined(c, s0, s, i);
    RelayLeads(c, s0, s1, RelayReceipt(i));
    var s2 := RelayNext(c, s1, RelayReceipt(i));
    RelayLeads(c, s0, s2, RelayMark(i, o));
    s' := RelayNext(c, s2, RelayMark(i, o));
    UpdatedTwice(s.relayers, i, s1.relayers[i], s2.relayers[i]);
    UpdatedTwice(s.relayers, i, s2.relayers[i], s'.relayers[i]);
  }

  lemma Reverted(c: Config, s0: State, s: State, i: nat) returns (s': State)
    requires Leads(c, s0, s) && i in s.relayers && s.relayers[i].todo != [] && s.relayers[i].phase.Ready?
    requires s.receipts.Keys <= s.sent.Keys && Unforged(c, s.past.issued, Calldata(s.relayers[i].todo[0]))
    requires Exec(c.crypto, c.domain, s.chain, Submit(Calldata(s.relayers[i].todo[0]))).Err?
    ensures Leads(c, s0, s') && OnlyRelayed(s, s', i, Rest(s.relayers[i])) && s'.receipts.Keys <= s'.sent.Keys
    ensures s'.chain == s.chain && s'.tables == s.tables
  {
    hide Leads, Unforged, Calldata, Exec;
    var s1, tx := SentAndMined(c, s0, s, i);
    RelayLeads(c, s0, s1, RelayReceipt(i));
    s' := RelayNext(c, s1, RelayReceipt(i));
    UpdatedTwice(s.relayers, i, s1.relayers[i], s'.relayers[i]);
  }

  lemma Recognised(c: Config, s0: State, s: State, i: nat, o: Outcome) returns (s': State)
    requires Leads(c, s0, s) && i in s.relayers && s.relayers[i].todo != [] && s.relayers[i].phase.Ready?
    requires Exec(c.crypto, c.domain, s.chain, Submit(Calldata(s.relayers[i].todo[0])))
          == Err(MatchAlreadySubmitted(Calldata(s.relayers[i].todo[0]).matchId))
    ensures Leads(c, s0, s') && OnlyRelayed(s, s', i, Rest(s.relayers[i]))
    ensures s'.chain == s.chain && s'.sent == s.sent && s'.receipts == s.receipts
    ensures s'.tables.matches == MarkOne(s.tables.matches, s.relayers[i].todo[0], AlreadySubmitted, o)
  {
    hide Leads, Calldata, Exec, MarkBroadcasted;
    RelayLeads(c, s0, s, RelayAlready(i));
    var s1 := RelayNext(c, s, RelayAlready(i));
    RelayLeads(c, s0, s1, RelayMark(i, o));
    s' := RelayNext(c, s1, RelayMark(i, o));
    UpdatedTwice(s.relayers, i, s1.relayers[i], s'.relayers[i]);
  }

  lemma AlreadyNamesIt(c: Config, chain: Chain, s: Submission)
    requires Exec(c.crypto, c.domain, chain, Submit(s)).Err?
    requires Exec(c.crypto, c.domain, chain, Submit(s)).error.MatchAlreadySubmitted?
    ensures Exec(c.crypto, c.domain, chain, Submit(s)) == Err(MatchAlreadySubmitted(s.matchId))
  {
  }

  /** One match of a fault-free batch. */
  lemma RelayOne(c: Config, s0: State, s: State, i: nat, rejects: bool) returns (s': State)
    requires Leads(c, s0, s) && i in s.relayers && s.relayers[i].todo != [] && s.relayers[i].phase.Ready?
    requires s.receipts.Keys <= s.sent.Keys && Unforged(c, s.past.issued, Calldata(s.relayers[i].todo[0]))
    ensures Leads(c, s0, s') && OnlyRelayed(s, s', i, Rest(s.relayers[i])) && s'.receipts.Keys <= s'.sent.Keys
    ensures s'.chain == After(c.crypto, c.domain, s.chain, Submit(Calldata(s.relayers[i].todo[0])))
    ensures var result := ResultOf(Exec(c.crypto, c.domain, s.chain, Submit(Calldata(s.relayers[i].todo[0]))), rejects);
      s'.tables.matches == MarkOne(s.tables.matches, s.relayers[i].todo[0], result, Done)
  {
    hide Leads, Unforged, Calldata, Exec, MarkBroadcasted;
    var r := Exec(c.crypto, c.domain, s.chain, Submit(Calldata(s.relayers[i].todo[0])));
    if r.Ok? {
      s' := Taken(c, s0, s, i, Done);
    } else if r.error.MatchAlreadySubmitted? && rejects {
      AlreadyNamesIt(c, s.chain, Calldata(s.relayers[i].todo[0]));
      s' := Recognised(c, s0, s, i, Done);
    } else {
      s' := Reverted(c, s0, s, i);
    }
  }

  /** The flight is through with the first k matches of its batch. */
  ghost predicate RelayedTo(c: Config, s: State, s': State, i: nat, ms: seq<RelayMatch>, rejects: seq<bool>, k: nat)
    requires k <= |ms| == |rejects|
  {
    && OnlyRelayed(s, s', i, RelayFlight(ms[k..], Ready)) && s'.receipts.Keys <= s'.sent.Keys
    && s'.chain == RunCalls(c.crypto, c.domain, s.chain, Calls(ms)[..k])
    && s'.tables.matches == MarkAll(s.tables.matches, ms[..k], Results(c, s.chain, ms, rejects)[..k], Dones(k))
  }

  lemma RunCallsStep(c: Config, chain: Chain, ms: seq<RelayMatch>, k: nat)
    requires k < |ms|
    ensures RunCalls(c.crypto, c.domain, chain, Calls(ms)[..k + 1])
         == After(c.crypto, c.domain, RunCalls(c.crypto, c.domain, chain, Calls(ms)[..k]), Submit(Calldata(ms[k])))
  {
    hide Oracle.After, Calldata;
    var calls := Calls(ms)[..k + 1];
    assert calls[..k] == Calls(ms)[..k] && calls[k] == Submit(Calldata(ms[k]));
  }

  lemma MarkAllStep(matches: map<Ref, Row>, ms: seq<RelayMatch>, rs: seq<BroadcastResult>, k: nat)
    requires k < |ms| == |rs|
    ensures MarkAll(matches, ms[..k + 1], rs[..k + 1], Dones(k + 1))
         == MarkOne(MarkAll(matches, ms[..k], rs[..k], Dones(k)), ms[k], rs[k], Done)
  {
    hide MarkOne;
    assert ms[..k + 1][..k] == ms[..k] && rs[..k + 1][..k] == rs[..k] && Dones(k + 1)[..k] == Dones(k);
  }

  lemma RelayStep(c: Config, s0: State, s: State, before: State, i: nat, ms: seq<RelayMatch>, rejects: seq<bool>,
                  k: nat)
    returns (s': State)
    requires k < |ms| == |rejects| && Leads(c, s0, before) && RelayedTo(c, s, before, i, ms, rejects, k)
    requires Unforged(c, s.past.issued, Calldata(ms[k]))
    ensures Leads(c, s0, s') && RelayedTo(c, s, s', i, ms, rejects, k + 1)
  {
    hide Leads, Unforged, Calldata, Exec, Oracle.After, MarkOne, MarkAll, RunCalls, ResultOf, Calls;
    assert ms[k..][0] == ms[k] && ms[k..][1..] == ms[k + 1..];
    s' := RelayOne(c, s0, before, i, rejects[k]);
    RunCallsStep(c, s.chain, ms, k);
    MarkAllStep(s.tables.matches, ms, Results(c, s.chain, ms, rejects), k);
    UpdatedTwice(s.relayers, i, before.relayers[i], s'.relayers[i]);
  }

  lemma {:induction false} RelayPath(c: Config, s0: State, s: State, i: nat, ms: seq<RelayMatch>, rejects: seq<bool>,
                                     k: nat)
    returns (s': State)
    requires Leads(c, s0, s.(relayers := s.relayers[i := RelayFlight(ms, Ready)])) && k <= |ms| == |rejects|
    requires s.receipts.Keys <= s.sent.Keys && forall m :: m in ms ==> Unforged(c, s.past.issued, Calldata(m))
    ensures Leads(c, s0, s') && RelayedTo(c, s, s', i, ms, rejects, k)
  {
    if k == 0 {
      hide Leads, Unforged, Exec, Calldata, After, ResultOf, MarkOne;
      s' := s.(relayers := s.relayers[i := RelayFlight(ms, Ready)]);
      assert ms[0..] == ms && Dones(0) == [] && Calls(ms)[..0] == [];
    } else {
      hide Leads, Unforged, Calldata, RelayedTo;
      var before := RelayPath(c, s0, s, i, ms, rejects, k - 1);
      assert ms[k - 1] in ms;
      s' := RelayStep(c, s0, s, before, i, ms, rejects, k - 1);
    }
  }

  /** A whole fault-free relay batch is a run of the machine. */
  lemma RelayIsPath(c: Config, s0: State, s: State, i: nat, refs: seq<Ref>, rejects: seq<bool>) returns (s': State)
    requires Leads(c, s0, s) && i !in s.relayers && IsListing(s.tables.matches, SIGNED, refs)
    requires |rejects| == |SignedMatches(s.tables.matches, refs)| && s.receipts.Keys <= s.sent.Keys
    requires forall m :: m in SignedMatches(s.tables.matches, refs) ==> Unforged(c, s.past.issued, Calldata(m))
    ensures var ms := SignedMatches(s.tables.matches, refs);
      && Leads(c, s0, s') && s'.past == s.past
      && s'.chain == RunCalls(c.crypto, c.domain, s.chain, Calls(ms))
      && s'.tables == s.tables.(matches := RelayedMatches(c, s.chain, s.tables.matches, ms, rejects))
      && s'.signers == s.signers && s'.relayers == s.relayers[i := RelayFlight([], Ready)]
  {
    hide Leads, Unforged, Calldata, SignedMatches, MarkAll, RunCalls;
    var ms := SignedMatches(s.tables.matches, refs);
    RelayLeads(c, s0, s, RelayBegin(i, refs));
    var done := RelayPath(c, s0, s, i, ms, rejects, |ms|);
    assert ms[..|ms|] == ms && ms[|ms|..] == [] && Calls(ms)[..|ms|] == Calls(ms);
    assert Results(c, s.chain, ms, rejects)[..|ms|] == Results(c, s.chain, ms, rejects);
    s' := done;
  }

  // ---- The whole round ----

  lemma LeadsToInv(c: Config, s0: State, s: State)
    requires Init(c, s0) && Leads(c, s0, s)
    ensures Inv(c, s)
  {
    hide RunFrom, Inv;
    InitInv(c, s0);
    var actions :| RunFrom(c, s0, actions) == Some(s);
    Reachable(c, s0, actions);
  }

  lemma {:induction false} LeadsThrough(c: Config, s0: State, s: State, actions: seq<Action>)
    requires Leads(c, s0, s) && RunFrom(c, s, actions).Some?
    ensures Leads(c, s0, RunFrom(c, s, actions).value)
    ensures s.past.passed <= RunFrom(c, s, actions).value.past.passed
  {
    hide Leads, Enabled, Next;
    if actions == [] {
    } else {
      var n := |actions| - 1;
      LeadsThrough(c, s0, s, actions[..n]);
      LeadsOn(c, s0, RunFrom(c, s, actions[..n]).value, actions[n]);
      NextPast(c, RunFrom(c, s, actions[..n]).value, actions[n]);
    }
  }

  /**
    A sync run that passes its day and misses no match: every match it was returned is in the matches table
    or the queue, then and after any further actions of any process.
   */
  lemma NothingMissedNothingLost(c: Config, s0: State, s: State, r: SyncRun, m: Match, later: seq<Action>)
    returns (s': State)
    requires Init(c, s0) && Leads(c, s0, s) && 0 !in s.syncs && WellFormed(r) && r.readOk && r.fetched.Some?
    requires forall x :: x in r.fetched.value ==> FromApi(c, x, r.key.provider)
    requires forall t :: t in r.stale ==> FreshTry(s, t)
    requires forall t :: t in r.saves ==> FreshTry(s, t.fallback)
    requires PassOf(s.tables, r) != {} && !Misses(s.tables, r) && m in r.fetched.value
    ensures Leads(c, s0, s') && s'.tables == AfterSync(s.tables, r) && Accounted(s'.tables, RefOf(m))
    ensures RunFrom(c, s', later).Some? ==> Accounted(RunFrom(c, s', later).value.tables, RefOf(m))
  {
    hide Init, Leads, RunFrom, FromApi, FreshTry, AfterSync, Misses, Accounted, Inv, WellFormed;
    s' := SyncIsPath(c, s0, s, 0, r);
    var today := DayOf(r.now);
    var p := Pass(r.key, QueryDay(s.tables.cursors, r.key, today), today, r.staleNow, r.fetched.value, true);
    PassAccounts(c, s0, s', p, m);
    if RunFrom(c, s', later).Some? {
      LeadsThrough(c, s0, s', later);
      PassAccounts(c, s0, RunFrom(c, s', later).value, p, m);
    }
  }

  lemma PassAccounts(c: Config, s0: State, s: State, p: Pass, m: Match)
    requires Init(c, s0) && Leads(c, s0, s) && p in s.past.passed && p.clean && m in p.fetched
    ensures Accounted(s.tables, RefOf(m))
  {
    LeadsToInv(c, s0, s);
    hide Init, Leads, Ideal, RowsInv, QueueInv, SignersInv, IssuedInv, StoredInv, RelayInv, ReceiptsInv,
      BroadcastedInv, RecsInv, SyncsInv, Accounted;
  }

  /** The signature is no service key's, or that key has issued it, or it does so for one of these items. */
  ghost predicate OursOnly(c: Config, issued: set<(Address, bytes32)>, key: Address, items: seq<SignItem>,
                           s: Submission) {
    var digest := Digest(c.crypto.keccak, c.domain, s.matchId, s.home, s.away);
    var signer := c.crypto.recover(digest, s.signature);
    signer.Some? && signer.value in c.keys ==>
      || (signer.value, digest) in issued
      || (signer.value == key && exists j :: 0 <= j < |items| && DigestOf(c, items[j]) == Some(digest))
  }

  function DigestOf(c: Config, item: SignItem): Option<bytes32> {
    SignerDigest(c.crypto.keccak, c.domain, item.canonicalId, item.home, item.away)
  }

  lemma OursIsUnforged(c: Config, s: State, s': State, key: Address, items: seq<SignItem>, x: Submission)
    requires IssuedFor(c, s, s', key, items, |items|) && OursOnly(c, s.past.issued, key, items, x)
    ensures Unforged(c, s'.past.issued, x)
  {
    hide SignerDigest, Digest;
  }

  /** Whatever the relayer of this round submits carries a signature that the service has made, or nobody's. */
  ghost predicate NobodyElses(c: Config, s: State, signRefs: seq<Ref>, relayRefs: seq<Ref>)
    requires forall r :: r in signRefs ==> r in s.tables.matches
    requires forall r :: r in relayRefs ==> r in AllSigned(c, s.chain.signer, s.tables.matches, signRefs)
  {
    forall x :: x in RoundMatches(c, s.tables.matches, s.chain.signer, signRefs, relayRefs) ==>
      OursOnly(c, s.past.issued, s.chain.signer, Items(s.tables.matches, signRefs), Calldata(x))
  }

  lemma InvParts(c: Config, s: State)
    requires Inv(c, s)
    ensures Ideal(c.crypto, c.domain) && ChainInv(c.crypto, s.chain) && s.chain.signer in c.keys
    ensures s.receipts.Keys <= s.sent.Keys
  {
  }

  /** A fault-free signer run and a fault-free relay batch, in a row, from any reachable state. */
  lemma SignedAndRelayed(c: Config, s0: State, s: State, signRefs: seq<Ref>, relayRefs: seq<Ref>, rejects: seq<bool>)
    returns (s': State)
    requires Init(c, s0) && Leads(c, s0, s) && 0 !in s.signers && 0 !in s.relayers
    requires SignAndRelay(c, s.tables.matches, s.chain.signer, signRefs, relayRefs, rejects)
    requires NobodyElses(c, s, signRefs, relayRefs)
    ensures Leads(c, s0, s')
    ensures var ms := RoundMatches(c, s.tables.matches, s.chain.signer, signRefs, relayRefs);
      && s'.chain == RunCalls(c.crypto, c.domain, s.chain, Calls(ms))
      && s'.tables.matches == RoundRows(c, s.chain, s.tables.matches, signRefs, relayRefs, rejects)
  {
    hide Init, Leads, Inv, SignAll, SignedMatches, OursOnly, Unforged, Calldata, RunCalls, MarkAll, Ideal, ChainInv,
      IssuedFor;
    LeadsToInv(c, s0, s);
    InvParts(c, s);
    var key, items := s.chain.signer, Items(s.tables.matches, signRefs);
    var signed := SignIsPath(c, s0, s, 0, key, signRefs, Dones(|signRefs|));
    forall x | x in RoundMatches(c, s.tables.matches, key, signRefs, relayRefs)
      ensures Unforged(c, signed.past.issued, Calldata(x))
    {
      OursIsUnforged(c, s, signed, key, items, Calldata(x));
    }
    s' := RelayIsPath(c, s0, signed, 0, relayRefs, rejects);
  }

  /**
    Recovery is a run of the machine: from any reachable state with a waiting row that the contract would take, a
    fault-free sign and relay lead to a reachable state with the row delivered.
   */
  lemma RecoveryIsReached(c: Config, s0: State, s: State, ref: Ref, signRefs: seq<Ref>, relayRefs: seq<Ref>,
                          rejects: seq<bool>)
    returns (s': State)
    requires Init(c, s0) && Leads(c, s0, s) && 0 !in s.signers && 0 !in s.relayers
    requires ref in s.tables.matches && Alone(c, s.tables.matches, ref, s.tables.matches[ref].canonicalId)
    requires LeftBehind(c, s.tables.matches[ref], s.chain.signer) && Deliverable(c, s.chain, s.tables.matches[ref])
    requires SignAndRelay(c, s.tables.matches, s.chain.signer, signRefs, relayRefs, rejects)
    requires NobodyElses(c, s, signRefs, relayRefs)
    ensures Leads(c, s0, s') && Inv(c, s')
    ensures IsDelivered(c, s'.chain, s'.tables.matches, ref, ToRelay(c, s.chain.signer, s.tables.matches[ref]))
  {
    hide Init, Leads, Inv, Alone, LeftBehind, Deliverable, NobodyElses, SignAll, SignedMatches, RunCalls, MarkAll,
      Ideal, ChainInv, IsDelivered, ToRelay;
    LeadsToInv(c, s0, s);
    InvParts(c, s);
    Recovery(c, s.chain, s.tables.matches, ref, signRefs, relayRefs, rejects);
    s' := SignedAndRelayed(c, s0, s, signRefs, relayRefs, rejects);
    LeadsToInv(c, s0, s');
  }

  /** The machine's own conditions on the sync run: what the API returns, and fresh queue ids. */
  ghost predicate SyncAllowed(c: Config, s: State, r: SyncRun) {
    && (r.fetched.Some? ==> forall x :: x in r.fetched.value ==> FromApi(c, x, r.key.provider))
    && (forall t :: t in r.stale ==> FreshTry(s, t)) && (forall t :: t in r.saves ==> FreshTry(s, t.fallback))
  }

  /**
    The delivering round is a run of the machine: from any reachable state it leads to a reachable one with
    the match's own scores on chain and its row Broadcasted, so that all the machine's promises hold there too.
    `synced` is the state between the sync run and the signer run.
   */
  lemma RoundIsReached(c: Config, s0: State, s: State, r: SyncRun, m: Match, signRefs: seq<Ref>,
                       relayRefs: seq<Ref>, rejects: seq<bool>)
    returns (synced: State, s': State)
    requires Init(c, s0) && Leads(c, s0, s) && 0 !in s.syncs && 0 !in s.signers && 0 !in s.relayers
    requires RoundOf(c, s.tables, s.chain, r, m, signRefs, relayRefs, rejects) && SyncAllowed(c, s, r)
    ensures Leads(c, s0, synced) && synced.tables == AfterSync(s.tables, r)
    ensures synced.chain == s.chain && synced.past.issued == s.past.issued
    ensures NobodyElses(c, synced, signRefs, relayRefs) ==>
      && Leads(c, s0, s') && Inv(c, s') && MatchDelivered(c, s.chain.signer, s'.chain, s'.tables.matches, m)
  {
    hide Leads, Init, Inv, FromApi, NewIn, Deliverable, AfterSync, SignAll, SignedMatches, NobodyElses,
      RunCalls, MarkAll, Ideal, ChainInv, FreshTry, Storable, MatchDelivered, Clean, RoundMatches, RoundRows;
    LeadsToInv(c, s0, s);
    InvParts(c, s);
    FaultFreeRound(c, s.tables, s.chain, r, m, signRefs, relayRefs, rejects);
    assert WellFormed(r) && r.readOk && r.fetched.Some? by { CleanReads(r); }
    synced := SyncIsPath(c, s0, s, 0, r);
    if NobodyElses(c, synced, signRefs, relayRefs) {
      s' := SignedAndRelayed(c, s0, synced, signRefs, relayRefs, rejects);
      LeadsToInv(c, s0, s');
    } else {
      s' := synced;
    }
  }

  lemma CleanReads(r: SyncRun)
    requires Clean(r)
    ensures WellFormed(r) && r.readOk && r.fetched.Some?
  {
  }
}
