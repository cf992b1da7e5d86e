/** How often an entry can be tried when several reconcilers run at once. */
module Tries {
  import opened Wrappers
  import opened Entity
  import opened Tables
  import opened Sync
  import opened Reconcile
  import opened Pipeline
  import opened Invariants
  import opened Safety
  import opened Overlap

  predicate Holds(page: seq<PageRow>, id: Uuid) {
    exists j :: 0 <= j < |page| && page[j].id == id
  }

  /** The reconcilers that have the entry on their page still to process. */
  function Holders(recs: map<nat, seq<PageRow>>, id: Uuid): set<nat> {
    set i | i in recs && Holds(recs[i], id)
  }

  /** The tries an entry has had and those it may still get from pages already read. */
  function Load(recs: map<nat, seq<PageRow>>, e: QueueEntry): nat {
    e.tries + |Holders(recs, e.id)|
  }

  /** At most n reconcilers, and no entry's load is above four tries and one for each of them. */
  ghost predicate Within(queue: map<Ref, QueueEntry>, recs: map<nat, seq<PageRow>>, n: nat) {
    && (forall i :: i in recs ==> i < n && Ascending(recs[i]))
    && (forall r :: r in queue ==> Load(recs, queue[r]) <= MAX_TRIES - 1 + n)
  }

  lemma {:induction false} BoundedByIndex(xs: set<nat>, n: nat)
    requires forall i :: i in xs ==> i < n
    ensures |xs| <= n
  {
    if n == 0 {
      assert xs == {};
    } else {
      BoundedByIndex(xs - {n - 1}, n - 1);
      assert xs <= (xs - {n - 1}) + {n - 1};
    }
  }

  lemma {:induction false} SubsetSize(xs: set<nat>, ys: set<nat>)
    requires xs <= ys
    ensures |xs| <= |ys|
  {
    if xs == {} {
    } else {
      var x :| x in xs;
      SubsetSize(xs - {x}, ys - {x});
    }
  }

  /** A page is read: only entries with at most four tries are on it, and at most n reconcilers hold any. */
  lemma PageRead(queue: map<Ref, QueueEntry>, retired: set<Uuid>, recs: map<nat, seq<PageRow>>, n: nat, i: nat,
                 page: seq<PageRow>)
    requires QueueInv(queue, retired) && Within(queue, recs, n) && i < n && i !in recs
    requires IsPage(queue, BATCH_SIZE, MAX_TRIES, page)
    ensures Within(queue, recs[i := page], n)
  {
    var recs' := recs[i := page];
    forall r | r in queue ensures Load(recs', queue[r]) <= MAX_TRIES - 1 + n {
      var id := queue[r].id;
      if Holds(page, id) {
        var j :| 0 <= j < |page| && page[j].id == id;
        assert r == page[j].ref;
        BoundedByIndex(Holders(recs', id), n);
      } else {
        assert Holders(recs', id) == Holders(recs, id);
      }
    }
  }

  /** The head of a page is processed: its load stays when a try is counted, and falls otherwise. */
  lemma HeadProcessed(queue: map<Ref, QueueEntry>, recs: map<nat, seq<PageRow>>, n: nat, i: nat,
                      queue': map<Ref, QueueEntry>)
    requires Within(queue, recs, n) && i in recs && recs[i] != []
    requires TriedAtMost(queue, queue', recs[i][0].id)
    ensures Within(queue', recs[i := recs[i][1..]], n)
  {
    var page, recs' := recs[i], recs[i := recs[i][1..]];
    assert Ascending(page[1..]);
    forall r | r in queue' ensures Load(recs', queue'[r]) <= MAX_TRIES - 1 + n {
      var id := queue[r].id;
      assert Load(recs, queue[r]) <= MAX_TRIES - 1 + n;
      assert Holds(page[1..], id) ==> Holds(page, id) by {
        if Holds(page[1..], id) {
          var j :| 0 <= j < |page[1..]| && page[1..][j].id == id;
          assert page[j + 1].id == id;
        }
      }
      if id == page[0].id {
        assert !Holds(page[1..], id) && Holds(page, id);
        assert Holders(recs', id) == Holders(recs, id) - {i};
      } else {
        SubsetSize(Holders(recs', id), Holders(recs, id));
      }
    }
  }

  lemma Stopped(queue: map<Ref, QueueEntry>, recs: map<nat, seq<PageRow>>, n: nat, i: nat)
    requires Within(queue, recs, n)
    ensures Within(queue, recs - {i}, n)
  {
    forall r | r in queue ensures Load(recs - {i}, queue[r]) <= MAX_TRIES - 1 + n {
      SubsetSize(Holders(recs - {i}, queue[r].id), Holders(recs, queue[r].id));
      assert Load(recs, queue[r]) <= MAX_TRIES - 1 + n;
    }
  }

  /** A new entry starts without a try. */
  lemma Inserted(queue: map<Ref, QueueEntry>, recs: map<nat, seq<PageRow>>, n: nat, ref: Ref, try: EnqueueTry)
    requires Within(queue, recs, n)
    ensures Within(Resolve(queue, Enqueue(queue, ref, try.id), try.outcome), recs, n)
  {
    BoundedByIndex(Holders(recs, try.id), n);
    hide Holders;
  }

  /** From one queue to the next no entry is new and only that of `id` may have one try more. */
  ghost predicate TriedAtMost(queue: map<Ref, QueueEntry>, queue': map<Ref, QueueEntry>, id: Uuid) {
    forall r :: r in queue' ==>
      && r in queue && queue'[r].id == queue[r].id
      && queue'[r].tries <= queue[r].tries + if queue[r].id == id then 1 else 0
  }

  lemma WritesTryAtMost(queue: map<Ref, QueueEntry>, id: Uuid)
    ensures TriedAtMost(queue, queue, id) && TriedAtMost(queue, IncrementTries(queue, id), id)
    ensures TriedAtMost(queue, MarkReconciled(queue, id), id)
  {
  }

  lemma RecKeepsWithin(c: Config, s: State, a: Action, n: nat)
    requires QueueInv(s.tables.queue, s.past.retired) && Within(s.tables.queue, s.recs, n)
    requires RecEnabled(c, s, a) && (a.RecBegin? ==> a.i < n)
    ensures Within(RecNext(c, s, a).tables.queue, RecNext(c, s, a).recs, n)
  {
    hide QueueInv, Within, IsPage, WellMade, Upsert, IncrementTries, MarkReconciled, TriedAtMost;
    if a.RecTry? || a.RecSave? {
      WritesTryAtMost(s.tables.queue, s.recs[a.i][0].id);
    }
    match a
    case RecBegin(i, page) => PageRead(s.tables.queue, s.past.retired, s.recs, n, i, page);
    case RecTry(i, o) => HeadProcessed(s.tables.queue, s.recs, n, i, RecNext(c, s, a).tables.queue);
    case RecSave(i, m, o) => HeadProcessed(s.tables.queue, s.recs, n, i, RecNext(c, s, a).tables.queue);
    case RecStop(i) => Stopped(s.tables.queue, s.recs, n, i);
  }

  /** A sync run changes the queue by at most one insert. */
  ghost predicate InsertsOne(s: State, s': State) {
    && s'.recs == s.recs && s'.past.retired == s.past.retired
    && exists ref, try: EnqueueTry ::
         s'.tables.queue == Resolve(s.tables.queue, Enqueue(s.tables.queue, ref, try.id), try.outcome)
  }

  lemma StaleInserts(s: State, i: nat, try: EnqueueTry)
    requires i in s.syncs && s.syncs[i].stalePos < |s.syncs[i].fetched|
    ensures InsertsOne(s, SyncStaleNext(s, i, try))
  {
    hide Enqueue;
    var ref := Ref(s.syncs[i].key.provider, s.syncs[i].fetched[s.syncs[i].stalePos].pmid);
    assert s.tables.queue == Resolve(s.tables.queue, Enqueue(s.tables.queue, ref, 0), Lost);
    if !IsStale(s.syncs[i].fetched[s.syncs[i].stalePos], s.syncs[i].staleNow) {
      assert SyncStaleNext(s, i, try).tables.queue
        == Resolve(s.tables.queue, Enqueue(s.tables.queue, ref, EnqueueTry(0, Lost).id), EnqueueTry(0, Lost).outcome);
    }
  }

  lemma SameQueueInserts(s: State, s': State)
    requires QueuePart(s') == QueuePart(s)
    ensures InsertsOne(s, s')
  {
    hide Enqueue;
    var try := EnqueueTry(0, Lost);
    assert s.tables.queue == Resolve(s.tables.queue, Enqueue(s.tables.queue, Ref(0, ""), try.id), try.outcome);
  }

  lemma SaveLeavesQueue(s: State, i: nat, o: Outcome)
    requires i in s.syncs && s.syncs[i].savePos < |Kept(s.syncs[i])|
    ensures QueuePart(SyncSaveNext(s, i, o)) == QueuePart(s)
  {
    hide Upsert, Filtered;
  }

  lemma SyncInserts(c: Config, s: State, a: Action)
    requires SyncEnabled(c, s, a)
    ensures InsertsOne(s, SyncNext(c, s, a))
  {
    hide Filtered, WellMade, Enqueue, SyncStaleNext, SyncSaveNext;
    if a.SyncStale? {
      StaleInserts(s, a.i, a.try);
    } else if a.SyncSave? {
      SaveLeavesQueue(s, a.i, a.o);
      SameQueueInserts(s, SyncNext(c, s, a));
    } else if !a.SyncFallback? {
      SameQueueInserts(s, SyncNext(c, s, a));
    }
  }

  lemma SyncKeepsWithin(c: Config, s: State, a: Action, n: nat)
    requires Within(s.tables.queue, s.recs, n) && SyncEnabled(c, s, a)
    ensures Within(SyncNext(c, s, a).tables.queue, SyncNext(c, s, a).recs, n)
  {
    hide SyncEnabled, SyncNext, Within, Enqueue;
    SyncInserts(c, s, a);
    var ref, try: EnqueueTry :|
      SyncNext(c, s, a).tables.queue == Resolve(s.tables.queue, Enqueue(s.tables.queue, ref, try.id), try.outcome);
    Inserted(s.tables.queue, s.recs, n, ref, try);
  }

  lemma InvQueue(c: Config, s: State)
    requires Inv(c, s)
    ensures QueueInv(s.tables.queue, s.past.retired)
  {
  }

  lemma {:induction false} WithinReached(c: Config, s: State, actions: seq<Action>, n: nat)
    requires Init(c, s) && RunFrom(c, s, actions).Some?
    requires forall a: Action :: a in actions && a.RecBegin? ==> a.i < n
    ensures Within(RunFrom(c, s, actions).value.tables.queue, RunFrom(c, s, actions).value.recs, n)
  {
    if actions == [] {
      hide Within;
      EmptyWithin(n);
    } else {
      hide Enabled, Next, Inv, Within, SyncEnabled, RecEnabled, QueueInv, Init;
      var k := |actions| - 1;
      var front := actions[..k];
      WithinReached(c, s, front, n);
      InitInv(c, s);
      Reachable(c, s, front);
      var before := RunFrom(c, s, front).value;
      InvQueue(c, before);
      assert actions[k] in actions;
      if SyncEnabled(c, before, actions[k]) {
        NextIsSync(c, before, actions[k]);
        SyncKeepsWithin(c, before, actions[k], n);
      } else {
        OthersFrame(c, before, actions[k]);
        if RecEnabled(c, before, actions[k]) {
          RecKeepsWithin(c, before, actions[k], n);
        }
      }
    }
  }

  lemma EmptyWithin(n: nat)
    ensures Within(map[], map[], n)
  {
  }

  /**
    With at most n reconcilers at a time no entry ever has more than 4 + n tries, five for a single one, whatever
    the fetches return, whichever writes fail and whatever any number of sync runs insert meanwhile.
   */
  lemma TriesNeverExceed(c: Config, s: State, actions: seq<Action>, n: nat)
    requires Init(c, s) && RunFrom(c, s, actions).Some?
    requires forall a: Action :: a in actions && a.RecBegin? ==> a.i < n
    ensures forall r :: r in RunFrom(c, s, actions).value.tables.queue ==>
      RunFrom(c, s, actions).value.tables.queue[r].tries <= 4 + n
  {
    hide RunFrom, Init, Holders;
    WithinReached(c, s, actions, n);
    var end := RunFrom(c, s, actions).value;
    assert forall r :: r in end.tables.queue ==> Load(end.recs, end.tables.queue[r]) <= MAX_TRIES - 1 + n;
  }

  // ---- The bound is attained ----

  /** Two reconcilers that hold the same page push an entry past five tries. */
  lemma TwoReconcilersExceed(c: Config, s: State, ref: Ref, id: Uuid)
    requires s.tables.queue == map[ref := QueueEntry(id, 4)] && s.recs == map[]
    ensures var page := [PageRow(ref, id)];
      var actions := [RecBegin(0, page), RecBegin(1, page), RecTry(0, Done), RecTry(1, Done)];
      && RunFrom(c, s, actions).Some?
      && RunFrom(c, s, actions).value.tables.queue == map[ref := QueueEntry(id, 6)]
  {
    hide RunFrom, Enabled, Next, IsPage;
    var page := [PageRow(ref, id)];
    OnlyEntryListed(ref, id, MAX_TRIES - 1);
    BothHold(c, s, page);
    BothTry(c, Next(c, Next(c, s, RecBegin(0, page)), RecBegin(1, page)), ref, id);
    RunsFour(c, s, [RecBegin(0, page), RecBegin(1, page), RecTry(0, Done), RecTry(1, Done)]);
  }

  lemma BothHold(c: Config, s: State, page: seq<PageRow>)
    requires s.recs == map[] && IsPage(s.tables.queue, BATCH_SIZE, MAX_TRIES, page)
    ensures var a0, a1 := RecBegin(0, page), RecBegin(1, page);
      && Enabled(c, s, a0) && Enabled(c, Next(c, s, a0), a1)
      && Next(c, Next(c, s, a0), a1).tables.queue == s.tables.queue
      && Next(c, Next(c, s, a0), a1).recs == map[0 := page, 1 := page]
  {
    hide SyncNext, SignNext, RelayNext, ChainNext, IsPage;
  }

  lemma TriedOnce(ref: Ref, id: Uuid, tries: nat)
    ensures IncrementTries(map[ref := QueueEntry(id, tries)], id) == map[ref := QueueEntry(id, tries + 1)]
  {
  }

  lemma OnlyEntryListed(ref: Ref, id: Uuid, tries: nat)
    requires tries < MAX_TRIES
    ensures IsPage(map[ref := QueueEntry(id, tries)], BATCH_SIZE, MAX_TRIES, [PageRow(ref, id)])
  {
    var queue, page := map[ref := QueueEntry(id, tries)], [PageRow(ref, id)];
    forall r | IsPending(queue, r, MAX_TRIES) ensures page[0].ref == r {
    }
  }

  lemma NextTry(c: Config, s: State, i: nat, row: PageRow)
    requires i in s.recs && s.recs[i] == [row]
    ensures Enabled(c, s, RecTry(i, Done))
    ensures Next(c, s, RecTry(i, Done)).tables.queue == IncrementTries(s.tables.queue, row.id)
    ensures Next(c, s, RecTry(i, Done)).recs == s.recs[i := []]
  {
    hide SyncNext, SignNext, RelayNext, ChainNext, IncrementTries;
    assert s.recs[i][1..] == [];
  }

  lemma BothTry(c: Config, s: State, ref: Ref, id: Uuid)
    requires s.tables.queue == map[ref := QueueEntry(id, MAX_TRIES - 1)]
    requires s.recs == map[0 := [PageRow(ref, id)], 1 := [PageRow(ref, id)]]
    ensures var a2, a3 := RecTry(0, Done), RecTry(1, Done);
      && Enabled(c, s, a2) && Enabled(c, Next(c, s, a2), a3)
      && Next(c, Next(c, s, a2), a3).tables.queue == map[ref := QueueEntry(id, MAX_TRIES + 1)]
  {
    hide Enabled, Next, IncrementTries;
    NextTry(c, s, 0, PageRow(ref, id));
    TriedOnce(ref, id, MAX_TRIES - 1);
    NextTry(c, Next(c, s, RecTry(0, Done)), 1, PageRow(ref, id));
    TriedOnce(ref, id, MAX_TRIES);
  }

  /** The state is reached with at most n reconcilers at a time. */
  ghost predicate ReachedBy(c: Config, s0: State, s: State, n: nat) {
    exists actions :: RunFrom(c, s0, actions) == Some(s) && forall a: Action :: a in actions && a.RecBegin? ==> a.i < n
  }

  lemma ReachedOn(c: Config, s0: State, s: State, n: nat, a: Action)
    requires ReachedBy(c, s0, s, n) && Enabled(c, s, a) && (a.RecBegin? ==> a.i < n)
    ensures ReachedBy(c, s0, Next(c, s, a), n)
  {
    hide Enabled, Next;
    var actions :| RunFrom(c, s0, actions) == Some(s) && forall b: Action :: b in actions && b.RecBegin? ==> b.i < n;
    RunExtends(c, s0, actions, a);
    assert forall b :: b in actions + [a] ==> b in actions || b == a;
  }

  lemma NextBegin(c: Config, s: State, i: nat, page: seq<PageRow>)
    requires i !in s.recs && IsPage(s.tables.queue, BATCH_SIZE, MAX_TRIES, page)
    ensures Enabled(c, s, RecBegin(i, page))
    ensures Next(c, s, RecBegin(i, page)).tables.queue == s.tables.queue
    ensures Next(c, s, RecBegin(i, page)).recs == s.recs[i := page]
  {
    hide SyncNext, SignNext, RelayNext, ChainNext, IsPage;
  }

  lemma NextStop(c: Config, s: State, i: nat)
    requires i in s.recs
    ensures Enabled(c, s, RecStop(i))
    ensures Next(c, s, RecStop(i)).tables.queue == s.tables.queue && Next(c, s, RecStop(i)).recs == s.recs - {i}
  {
    hide SyncNext, SignNext, RelayNext, ChainNext;
  }

  /** n reconcilers, the first `done` through with the one entry, the others still holding it. */
  ghost predicate Held(recs: map<nat, seq<PageRow>>, n: nat, done: nat, row: PageRow) {
    && (forall i :: i in recs <==> 0 <= i < n)
    && (forall i :: i in recs ==> recs[i] == if i < done then [] else [row])
  }

  /** The queue is this one entry, with so many tries. */
  predicate At(s: State, ref: Ref, tries: nat) {
    s.tables.queue == map[ref := QueueEntry(0, tries)]
  }

  /** One sync run queues a stale match. */
  lemma OneQueued(c: Config, s0: State, n: nat, key: CursorKey, m: Match, now: int) returns (s: State)
    requires Init(c, s0) && FromApi(c, m, key.provider)
    requires m.status != 3 && m.start.instant < now - 21600
    ensures ReachedBy(c, s0, s, n) && At(s, RefOf(m), 0) && s.recs == map[]
  {
    assert RunFrom(c, s0, []) == Some(s0);
    hide RunFrom, FromApi, IsStale;
    var begin := SyncBegin(0, key, now, now, [m]);
    NextIsSync(c, s0, begin);
    ReachedOn(c, s0, s0, n, begin);
    var s1 := Next(c, s0, begin);
    var stale := SyncStale(0, EnqueueTry(0, Done));
    NextIsSync(c, s1, stale);
    ReachedOn(c, s0, s1, n, stale);
    s := Next(c, s1, stale);
    assert RefOf(m) == Ref(key.provider, m.pmid) by { FromItsProvider(c, m, key.provider); }
  }

  lemma FromItsProvider(c: Config, m: Match, provider: int)
    requires FromApi(c, m, provider)
    ensures m.provider == provider
  {
  }

  /** A whole reconciler run on the one entry counts one try. */
  lemma OneMoreTry(c: Config, s0: State, s: State, n: nat, ref: Ref, tries: nat) returns (s': State)
    requires ReachedBy(c, s0, s, n) && n >= 1 && tries < MAX_TRIES && At(s, ref, tries) && s.recs == map[]
    ensures ReachedBy(c, s0, s', n) && At(s', ref, tries + 1) && s'.recs == map[]
  {
    hide ReachedBy, Enabled, Next, IsPage, IncrementTries;
    var row := PageRow(ref, 0);
    OnlyEntryListed(ref, 0, tries);
    NextBegin(c, s, 0, [row]);
    ReachedOn(c, s0, s, n, RecBegin(0, [row]));
    var s1 := Next(c, s, RecBegin(0, [row]));
    NextTry(c, s1, 0, row);
    TriedOnce(ref, 0, tries);
    ReachedOn(c, s0, s1, n, RecTry(0, Done));
    var s2 := Next(c, s1, RecTry(0, Done));
    NextStop(c, s2, 0);
    ReachedOn(c, s0, s2, n, RecStop(0));
    s' := Next(c, s2, RecStop(0));
  }

  lemma {:induction false} SomeTries(c: Config, s0: State, s: State, n: nat, ref: Ref, tries: nat) returns (s': State)
    requires ReachedBy(c, s0, s, n) && n >= 1 && tries <= MAX_TRIES && At(s, ref, 0) && s.recs == map[]
    ensures ReachedBy(c, s0, s', n) && At(s', ref, tries) && s'.recs == map[]
  {
    hide ReachedBy;
    if tries == 0 {
      s' := s;
    } else {
      s' := SomeTries(c, s0, s, n, ref, tries - 1);
      s' := OneMoreTry(c, s0, s', n, ref, tries - 1);
    }
  }

  /** k of the n reconcilers read the page with the one entry. */
  lemma {:induction false} AllHold(c: Config, s0: State, s: State, n: nat, ref: Ref, tries: nat, k: nat)
    returns (s': State)
    requires ReachedBy(c, s0, s, n) && tries < MAX_TRIES && At(s, ref, tries) && s.recs == map[] && k <= n
    ensures ReachedBy(c, s0, s', n) && At(s', ref, tries) && Held(s'.recs, k, 0, PageRow(ref, 0))
  {
    hide ReachedBy, Enabled, Next, IsPage;
    var row := PageRow(ref, 0);
    if k == 0 {
      s' := s;
    } else {
      var before := AllHold(c, s0, s, n, ref, tries, k - 1);
      OnlyEntryListed(ref, 0, tries);
      NextBegin(c, before, k - 1, [row]);
      ReachedOn(c, s0, before, n, RecBegin(k - 1, [row]));
      s' := Next(c, before, RecBegin(k - 1, [row]));
    }
  }

  /** k of them count their try. */
  lemma {:induction false} AllTry(c: Config, s0: State, s: State, n: nat, ref: Ref, tries: nat, k: nat)
    returns (s': State)
    requires ReachedBy(c, s0, s, n) && At(s, ref, tries) && Held(s.recs, n, 0, PageRow(ref, 0)) && k <= n
    ensures ReachedBy(c, s0, s', n) && At(s', ref, tries + k) && Held(s'.recs, n, k, PageRow(ref, 0))
  {
    hide ReachedBy, Enabled, Next, IncrementTries;
    var row := PageRow(ref, 0);
    if k == 0 {
      s' := s;
    } else {
      var before := AllTry(c, s0, s, n, ref, tries, k - 1);
      NextTry(c, before, k - 1, row);
      TriedOnce(ref, 0, tries + k - 1);
      ReachedOn(c, s0, before, n, RecTry(k - 1, Done));
      s' := Next(c, before, RecTry(k - 1, Done));
    }
  }

  /** The bound is sharp: n reconcilers bring an entry to exactly 4 + n tries, for every n from one on. */
  lemma TriesAttained(c: Config, s0: State, n: nat, key: CursorKey, m: Match, now: int) returns (s: State)
    requires Init(c, s0) && n >= 1 && FromApi(c, m, key.provider)
    requires m.status != 3 && m.start.instant < now - 21600
    ensures ReachedBy(c, s0, s, n) && s.tables.queue == map[RefOf(m) := QueueEntry(0, 4 + n)]
  {
    hide ReachedBy, Init, FromApi, Held;
    s := OneQueued(c, s0, n, key, m, now);
    s := SomeTries(c, s0, s, n, RefOf(m), MAX_TRIES - 1);
    s := AllHold(c, s0, s, n, RefOf(m), MAX_TRIES - 1, n);
    s := AllTry(c, s0, s, n, RefOf(m), MAX_TRIES - 1, n);
  }
}
