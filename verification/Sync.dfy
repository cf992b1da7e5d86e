/** One run of the provider's sync: the day cursor, the stale partition and the save loop. */
module Sync {
  import opened Wrappers
  import opened Entity
  import opened Tables

  const STALE_THRESHOLD := 6 * 3600

  /** The fresh id drawn for a queue insert, and how the insert went. */
  datatype EnqueueTry = EnqueueTry(id: Uuid, outcome: Outcome)

  datatype SaveTry = SaveTry(save: Outcome, fallback: EnqueueTry)

  /** Everything a run draws from outside: two clock readings, the fetch and the fate of each statement. */
  datatype SyncRun = SyncRun(
    key: CursorKey, now: int, staleNow: int, readOk: bool, fetched: Option<seq<Match>>,
    stale: seq<EnqueueTry>, saves: seq<SaveTry>, cursorWrite: Outcome)

  function DayOf(instant: int): int {
    instant / DAY
  }

  /** Not finished, and started more than six hours ago. */
  predicate IsStale(m: Match, now: int) {
    m.status != FINISHED && m.start.instant < now - STALE_THRESHOLD
  }

  function Filtered(ms: seq<Match>, now: int): seq<Match> {
    if ms == [] then []
    else Filtered(ms[..|ms| - 1], now) + if IsStale(ms[|ms| - 1], now) then [] else [ms[|ms| - 1]]
  }

  predicate HasInProgress(ms: seq<Match>) {
    exists m :: m in ms && m.status != FINISHED
  }

  function EnqueueStale(queue: map<Ref, QueueEntry>, m: Match, provider: int, now: int, try: EnqueueTry)
    : map<Ref, QueueEntry>
  {
    if IsStale(m, now) then Resolve(queue, Enqueue(queue, Ref(provider, m.pmid), try.id), try.outcome) else queue
  }

  function EnqueueAll(queue: map<Ref, QueueEntry>, ms: seq<Match>, provider: int, now: int, tries: seq<EnqueueTry>)
    : map<Ref, QueueEntry>
    requires |tries| == |ms|
  {
    if ms == [] then queue
    else
      var n := |ms| - 1;
      EnqueueStale(EnqueueAll(queue, ms[..n], provider, now, tries[..n]), ms[n], provider, now, tries[n])
  }

  /** A finished match is saved, or else queued. */
  function SaveOne(t: Tables, m: Match, provider: int, try: SaveTry): Tables {
    if m.status != FINISHED then t
    else
      var written := Upsert(t.matches, m);
      var t' := t.(matches := Resolve(t.matches, written, try.save));
      if Succeeds(written, try.save) then t'
      else
        t'.(queue := Resolve(t.queue, Enqueue(t.queue, Ref(provider, m.pmid), try.fallback.id), try.fallback.outcome))
  }

  function SaveMatches(t: Tables, ms: seq<Match>, provider: int, tries: seq<SaveTry>): Tables
    requires |tries| == |ms|
  {
    if ms == [] then t
    else
      var n := |ms| - 1;
      SaveOne(SaveMatches(t, ms[..n], provider, tries[..n]), ms[n], provider, tries[n])
  }

  /** The day a run queries: the cursor's day, or today when there is none or it lies ahead. */
  function QueryDay(cursors: map<CursorKey, int>, key: CursorKey, today: int): int {
    if key in cursors && DayOf(cursors[key]) <= today then DayOf(cursors[key]) else today
  }

  function NextDay(queryDay: int, today: int, inProgress: bool): int {
    if inProgress then queryDay else if queryDay < today then queryDay + 1 else today
  }

  predicate WellFormed(r: SyncRun) {
    r.fetched.Some? ==> |r.stale| == |r.fetched.value| && |r.saves| == |Filtered(r.fetched.value, r.staleNow)|
  }

  function AfterSync(t: Tables, r: SyncRun): Tables
    requires WellFormed(r)
  {
    if !r.readOk || r.fetched.None? then t
    else
      var filtered := Filtered(r.fetched.value, r.staleNow);
      var t1 := t.(queue := EnqueueAll(t.queue, r.fetched.value, r.key.provider, r.staleNow, r.stale));
      var t2 := SaveMatches(t1, filtered, r.key.provider, r.saves);
      var next := NextDay(QueryDay(t.cursors, r.key, DayOf(r.now)), DayOf(r.now), HasInProgress(filtered));
      t2.(cursors := Resolve(t.cursors, Some(t.cursors[r.key := next * DAY]), r.cursorWrite))
  }

  // ---- What a run misses ----

  predicate StaleMissed(queue: map<Ref, QueueEntry>, m: Match, provider: int, now: int, try: EnqueueTry) {
    IsStale(m, now) && (Enqueue(queue, Ref(provider, m.pmid), try.id).None? || try.outcome.Lost?)
  }

  /** Some stale match was not inserted into the queue. */
  predicate AnyStaleMissed(queue: map<Ref, QueueEntry>, ms: seq<Match>, provider: int, now: int, tries: seq<EnqueueTry>)
    requires |tries| == |ms|
  {
    if ms == [] then false
    else
      var n := |ms| - 1;
      AnyStaleMissed(queue, ms[..n], provider, now, tries[..n])
      || StaleMissed(EnqueueAll(queue, ms[..n], provider, now, tries[..n]), ms[n], provider, now, tries[n])
  }

  predicate SaveMissed(t: Tables, m: Match, provider: int, try: SaveTry) {
    && m.status == FINISHED && !Succeeds(Upsert(t.matches, m), try.save)
    && (Enqueue(t.queue, Ref(provider, m.pmid), try.fallback.id).None? || try.fallback.outcome.Lost?)
  }

  /** Some finished match was neither reported saved nor inserted into the queue. */
  predicate AnySaveMissed(t: Tables, ms: seq<Match>, provider: int, tries: seq<SaveTry>)
    requires |tries| == |ms|
  {
    if ms == [] then false
    else
      var n := |ms| - 1;
      AnySaveMissed(t, ms[..n], provider, tries[..n])
      || SaveMissed(SaveMatches(t, ms[..n], provider, tries[..n]), ms[n], provider, tries[n])
  }

  predicate Misses(t: Tables, r: SyncRun)
    requires WellFormed(r) && r.fetched.Some?
  {
    var t1 := t.(queue := EnqueueAll(t.queue, r.fetched.value, r.key.provider, r.staleNow, r.stale));
    || AnyStaleMissed(t.queue, r.fetched.value, r.key.provider, r.staleNow, r.stale)
    || AnySaveMissed(t1, Filtered(r.fetched.value, r.staleNow), r.key.provider, r.saves)
  }

  // ---- The statements of a run ----

  function StaleStatements(ms: seq<Match>, provider: int, now: int, tries: seq<EnqueueTry>): seq<Statement>
    requires |tries| == |ms|
  {
    if ms == [] then []
    else
      var n := |ms| - 1;
      StaleStatements(ms[..n], provider, now, tries[..n])
      + if IsStale(ms[n], now) then [InsertEntry(Ref(provider, ms[n].pmid), tries[n].id, tries[n].outcome)] else []
  }

  function SaveStatementsOne(m: Match, provider: int, try: SaveTry): seq<Statement> {
    if m.status != FINISHED then []
    else
      [UpsertMatch(m, try.save)]
      + if try.save.Done? then [] else [InsertEntry(Ref(provider, m.pmid), try.fallback.id, try.fallback.outcome)]
  }

  function SaveStatements(ms: seq<Match>, provider: int, tries: seq<SaveTry>): seq<Statement>
    requires |tries| == |ms|
  {
    if ms == [] then []
    else
      var n := |ms| - 1;
      SaveStatements(ms[..n], provider, tries[..n]) + SaveStatementsOne(ms[n], provider, tries[n])
  }

  /** The day a run writes to its cursor. */
  function WrittenDay(t: Tables, r: SyncRun): int
    requires r.fetched.Some?
  {
    var kept := Filtered(r.fetched.value, r.staleNow);
    NextDay(QueryDay(t.cursors, r.key, DayOf(r.now)), DayOf(r.now), HasInProgress(kept))
  }

  /** After the fetch: every stale match is queued, every finished one saved or else queued, the cursor written last. */
  function DayStatements(t: Tables, r: SyncRun): seq<Statement>
    requires WellFormed(r) && r.fetched.Some?
  {
    StaleStatements(r.fetched.value, r.key.provider, r.staleNow, r.stale)
    + SaveStatements(Filtered(r.fetched.value, r.staleNow), r.key.provider, r.saves)
    + [WriteCursor(r.key, WrittenDay(t, r) * DAY, r.cursorWrite)]
  }

  function SyncStatements(t: Tables, r: SyncRun): seq<Statement>
    requires WellFormed(r)
  {
    [ReadCursor(r.key, r.readOk)] + if !r.readOk || r.fetched.None? then [] else DayStatements(t, r)
  }

  /** The run reached its cursor write and the write took. */
  predicate Completes(r: SyncRun) {
    WellFormed(r) && r.readOk && r.fetched.Some? && !r.cursorWrite.Lost?
  }

  // ---- What the stale partition keeps and queues ----

  /** Kept is what is finished or started at most six hours ago. */
  lemma {:induction false} FilteredIff(ms: seq<Match>, now: int)
    ensures forall m :: m in Filtered(ms, now) <==> m in ms && (m.status == 3 || m.start.instant >= now - 21600)
  {
    if ms == [] {
    } else {
      FilteredIff(ms[..|ms| - 1], now);
    }
  }

  /** Whatever is unfinished started more than six hours ago. */
  ghost predicate NothingRecent(ms: seq<Match>, now: int) {
    forall m :: m in ms && m.status != 3 ==> m.start.instant < now - 21600
  }

  /** One unfinished match of the last six hours keeps the day. */
  lemma InProgressIff(ms: seq<Match>, now: int)
    ensures HasInProgress(Filtered(ms, now)) <==> !NothingRecent(ms, now)
  {
    FilteredIff(ms, now);
    hide Filtered;
  }

  predicate Inserts(e: Statement, m: Match, provider: int) {
    e.InsertEntry? && e.ref == Ref(provider, m.pmid)
  }

  /** The insert is of an unfinished match that started more than six hours ago. */
  ghost predicate InsertsStale(e: Statement, ms: seq<Match>, provider: int, now: int) {
    exists m :: m in ms && m.status != 3 && m.start.instant < now - 21600 && Inserts(e, m, provider)
  }

  /** Inserts are attempted for all such matches, and nothing else is. */
  ghost predicate QueuesStale(statements: seq<Statement>, ms: seq<Match>, provider: int, now: int) {
    && (forall e :: e in statements ==> InsertsStale(e, ms, provider, now))
    && (forall m :: m in ms && m.status != 3 && m.start.instant < now - 21600 ==>
          exists e :: e in statements && Inserts(e, m, provider))
  }

  lemma {:induction false} StaleAreQueued(ms: seq<Match>, provider: int, now: int, tries: seq<EnqueueTry>)
    requires |tries| == |ms|
    ensures QueuesStale(StaleStatements(ms, provider, now, tries), ms, provider, now)
  {
    hide QueuesStale;
    if ms == [] {
      NothingQueuedOf(provider, now);
    } else {
      var n := |ms| - 1;
      StaleAreQueued(ms[..n], provider, now, tries[..n]);
      QueuesOneMore(StaleStatements(ms[..n], provider, now, tries[..n]), ms[..n], ms[n], provider, now, tries[n]);
      assert ms == ms[..n] + [ms[n]];
    }
  }

  lemma NothingQueuedOf(provider: int, now: int)
    ensures QueuesStale([], [], provider, now)
  {
  }

  lemma InsertsOneMore(e: Statement, ms: seq<Match>, m: Match, provider: int, now: int)
    requires InsertsStale(e, ms, provider, now)
          || (m.status != 3 && m.start.instant < now - 21600 && Inserts(e, m, provider))
    ensures InsertsStale(e, ms + [m], provider, now)
  {
    if InsertsStale(e, ms, provider, now) {
      var x :| x in ms && x.status != 3 && x.start.instant < now - 21600 && Inserts(e, x, provider);
      assert x in ms + [m];
    } else {
      assert m in ms + [m];
    }
  }

  lemma QueuesOneMore(statements: seq<Statement>, ms: seq<Match>, m: Match, provider: int, now: int, try: EnqueueTry)
    requires QueuesStale(statements, ms, provider, now)
    ensures var insert := InsertEntry(Ref(provider, m.pmid), try.id, try.outcome);
      QueuesStale(statements + (if m.status != 3 && m.start.instant < now - 21600 then [insert] else []), ms + [m],
                  provider, now)
  {
    var insert := InsertEntry(Ref(provider, m.pmid), try.id, try.outcome);
    assert Inserts(insert, m, provider);
    hide Inserts;
    var more := if m.status != 3 && m.start.instant < now - 21600 then [insert] else [];
    forall e | e in statements + more ensures InsertsStale(e, ms + [m], provider, now) {
      assert e in statements || (e == insert && e in more);
      InsertsOneMore(e, ms, m, provider, now);
    }
    hide InsertsStale;
    forall x | x in ms + [m] && x.status != 3 && x.start.instant < now - 21600
      ensures exists e :: e in statements + more && Inserts(e, x, provider)
    {
      if x in ms {
        var e :| e in statements && Inserts(e, x, provider);
        assert e in statements + more;
      } else {
        assert more == [insert] && insert in statements + more;
      }
    }
  }

  /** Statement k saves a finished match, or queues the one whose save just before was not reported done. */
  predicate SavesOrQueues(statements: seq<Statement>, k: nat, ms: seq<Match>, provider: int)
    requires k < |statements|
  {
    var e := statements[k];
    || (e.UpsertMatch? && e.m in ms && e.m.status == 3)
    || (e.InsertEntry? && k > 0 && statements[k - 1].UpsertMatch? && !statements[k - 1].o.Done?
        && e.ref == Ref(provider, statements[k - 1].m.pmid))
  }

  predicate Queues(statements: seq<Statement>, k: nat) {
    k < |statements| && statements[k].InsertEntry?
  }

  /**
    Exactly the finished matches are saved, and a save is followed by an insert of its match exactly when it was not
    reported done.
   */
  ghost predicate SavesFinished(statements: seq<Statement>, ms: seq<Match>, provider: int) {
    && (forall k :: 0 <= k < |statements| ==> SavesOrQueues(statements, k, ms, provider))
    && (forall k :: 0 <= k < |statements| && statements[k].UpsertMatch? && !statements[k].o.Done? ==>
          Queues(statements, k + 1))
    && (forall m :: m in ms && m.status == 3 ==>
          exists k :: 0 <= k < |statements| && statements[k].UpsertMatch? && statements[k].m == m)
  }

  lemma {:induction false} FinishedAreSaved(ms: seq<Match>, provider: int, tries: seq<SaveTry>)
    requires |tries| == |ms|
    ensures SavesFinished(SaveStatements(ms, provider, tries), ms, provider)
  {
    if ms == [] {
    } else {
      var n := |ms| - 1;
      FinishedAreSaved(ms[..n], provider, tries[..n]);
      SavesOneMore(SaveStatements(ms[..n], provider, tries[..n]), ms[..n], ms[n], provider, tries[n]);
      assert ms == ms[..n] + [ms[n]];
    }
  }

  lemma SavesOneMore(statements: seq<Statement>, ms: seq<Match>, m: Match, provider: int, try: SaveTry)
    requires SavesFinished(statements, ms, provider)
    ensures SavesFinished(statements + SaveStatementsOne(m, provider, try), ms + [m], provider)
  {
    var (all, last) := (statements + SaveStatementsOne(m, provider, try), |statements|);
    assert forall k :: 0 <= k < last ==> all[k] == statements[k];
    forall k | 0 <= k < |all|
      ensures SavesOrQueues(all, k, ms + [m], provider)
      ensures all[k].UpsertMatch? && !all[k].o.Done? ==> Queues(all, k + 1)
    {
      if k < last {
        assert SavesOrQueues(statements, k, ms, provider);
        assert statements[k].UpsertMatch? && !statements[k].o.Done? ==> Queues(statements, k + 1);
      } else {
        assert all[last] == UpsertMatch(m, try.save) && m in ms + [m];
      }
    }
    forall x | x in ms + [m] && x.status == 3
      ensures exists k :: 0 <= k < |all| && all[k].UpsertMatch? && all[k].m == x
    {
      if x in ms {
        var k :| 0 <= k < last && statements[k].UpsertMatch? && statements[k].m == x;
        assert all[k].m == x;
      } else {
        assert all[last] == UpsertMatch(m, try.save);
      }
    }
  }

  // ---- The program ----

  lemma PrefixStep<T>(s: seq<T>, i: int)
    requires 0 <= i < |s|
    ensures s[..i + 1][..i] == s[..i] && s[..i + 1] == s[..i] + [s[i]] && s[..i + 1][i] == s[i]
  {
  }

  lemma StaleExtends(queue: map<Ref, QueueEntry>, ms: seq<Match>, provider: int, now: int,
                     tries: seq<EnqueueTry>, try: EnqueueTry)
    requires |tries| < |ms|
    ensures var i := |tries|;
      && Filtered(ms[..i + 1], now) == Filtered(ms[..i], now) + (if IsStale(ms[i], now) then [] else [ms[i]])
      && EnqueueAll(queue, ms[..i + 1], provider, now, tries + [try])
         == EnqueueStale(EnqueueAll(queue, ms[..i], provider, now, tries), ms[i], provider, now, try)
      && StaleStatements(ms[..i + 1], provider, now, tries + [try])
         == StaleStatements(ms[..i], provider, now, tries)
            + (if IsStale(ms[i], now) then [InsertEntry(Ref(provider, ms[i].pmid), try.id, try.outcome)] else [])
      && (AnyStaleMissed(queue, ms[..i + 1], provider, now, tries + [try])
          <==> AnyStaleMissed(queue, ms[..i], provider, now, tries)
               || StaleMissed(EnqueueAll(queue, ms[..i], provider, now, tries), ms[i], provider, now, try))
  {
    hide IsStale, EnqueueStale, StaleMissed;
    PrefixStep(ms, |tries|);
    assert (tries + [try])[..|tries|] == tries;
  }

  lemma SaveExtends(t: Tables, ms: seq<Match>, provider: int, tries: seq<SaveTry>, try: SaveTry)
    requires |tries| < |ms|
    ensures var i := |tries|;
      && SaveMatches(t, ms[..i + 1], provider, tries + [try])
         == SaveOne(SaveMatches(t, ms[..i], provider, tries), ms[i], provider, try)
      && SaveStatements(ms[..i + 1], provider, tries + [try])
         == SaveStatements(ms[..i], provider, tries) + SaveStatementsOne(ms[i], provider, try)
      && (AnySaveMissed(t, ms[..i + 1], provider, tries + [try])
          <==> AnySaveMissed(t, ms[..i], provider, tries)
               || SaveMissed(SaveMatches(t, ms[..i], provider, tries), ms[i], provider, try))
  {
    hide SaveOne, SaveStatementsOne, SaveMissed;
    PrefixStep(ms, |tries|);
    assert (tries + [try])[..|tries|] == tries;
  }

  lemma NothingSaved(t: Tables, provider: int)
    ensures SaveMatches(t, [], provider, []) == t && SaveStatements([], provider, []) == []
  {
  }

  lemma NothingStale(queue: map<Ref, QueueEntry>, provider: int, now: int)
    ensures Filtered([], now) == [] && EnqueueAll(queue, [], provider, now, []) == queue
    ensures StaleStatements([], provider, now, []) == []
  {
  }

  method FilterStaleMatches(db: Database, ms: seq<Match>, provider: int, now: int)
    returns (filtered: seq<Match>, tries: seq<EnqueueTry>)
    requires db.Valid()
    modifies db`queue, db`log
    ensures db.Valid() && |tries| == |ms| && filtered == Filtered(ms, now)
    ensures db.queue == EnqueueAll(old(db.queue), ms, provider, now, tries)
    ensures db.log == old(db.log) + StaleStatements(ms, provider, now, tries)
    ensures forall m :: m in filtered <==> m in ms && (m.status == 3 || m.start.instant >= now - 21600)
    ensures old(db.log) <= db.log && QueuesStale(db.log[|old(db.log)|..], ms, provider, now)
  {
    hide Filtered, EnqueueAll, StaleStatements, Enqueue, QueuesStale;
    NothingStale(db.queue, provider, now);
    filtered, tries := [], [];
    var staleThreshold := now - STALE_THRESHOLD;
    for i := 0 to |ms|
      invariant db.Valid() && |tries| == i && filtered == Filtered(ms[..i], now)
      invariant db.queue == EnqueueAll(old(db.queue), ms[..i], provider, now, tries)
      invariant db.log == old(db.log) + StaleStatements(ms[..i], provider, now, tries)
    {
      var id: nat := *;
      var outcome := Lost;
      if ms[i].status != FINISHED && ms[i].start.instant < staleThreshold {
        // A failed insert is logged and the match is dropped from the list all the same.
        outcome := db.SaveToReconciliationQueue(Ref(provider, ms[i].pmid), id);
      } else {
        filtered := filtered + [ms[i]];
      }
      StaleExtends(old(db.queue), ms, provider, now, tries, EnqueueTry(id, outcome));
      tries := tries + [EnqueueTry(id, outcome)];
    }
    assert ms[..|ms|] == ms;
    FilteredIff(ms, now);
    StaleAreQueued(ms, provider, now, tries);
    assert db.log[|old(db.log)|..] == StaleStatements(ms, provider, now, tries);
  }

  method SaveFinished(db: Database, ms: seq<Match>, provider: int) returns (tries: seq<SaveTry>)
    requires db.Valid()
    modifies db`matches, db`queue, db`log
    ensures db.Valid() && |tries| == |ms|
    ensures db.State() == SaveMatches(old(db.State()), ms, provider, tries)
    ensures db.log == old(db.log) + SaveStatements(ms, provider, tries)
    ensures old(db.log) <= db.log && SavesFinished(db.log[|old(db.log)|..], ms, provider)
  {
    hide SaveMatches, SaveStatements, Upsert, Enqueue, SavesFinished;
    NothingSaved(db.State(), provider);
    tries := [];
    for i := 0 to |ms|
      invariant db.Valid() && |tries| == i
      invariant db.State() == SaveMatches(old(db.State()), ms[..i], provider, tries)
      invariant db.log == old(db.log) + SaveStatements(ms[..i], provider, tries)
    {
      var id: nat := *;
      var saved, queued := Lost, Lost;
      if ms[i].status == FINISHED {
        saved := db.Save(ms[i]);
        if !saved.Done? {
          queued := db.SaveToReconciliationQueue(Ref(provider, ms[i].pmid), id);
        }
      }
      SaveExtends(old(db.State()), ms, provider, tries, SaveTry(saved, EnqueueTry(id, queued)));
      tries := tries + [SaveTry(saved, EnqueueTry(id, queued))];
    }
    assert ms[..|ms|] == ms;
    FinishedAreSaved(ms, provider, tries);
    assert db.log[|old(db.log)|..] == SaveStatements(ms, provider, tries);
  }

  method HasInProgressMatches(ms: seq<Match>) returns (found: bool)
    ensures found == HasInProgress(ms)
    ensures found <==> exists m :: m in ms && m.status != 3
  {
    for i := 0 to |ms|
      invariant forall j :: 0 <= j < i ==> ms[j].status == FINISHED
    {
      if ms[i].status != FINISHED {
        return true;
      }
    }
    return false;
  }

  method GetQueryDate(db: Database, key: CursorKey, today: int) returns (ok: bool, day: int)
    modifies db`log
    ensures ok ==> day == QueryDay(db.cursors, key, today)
    ensures ok ==> day <= today
    ensures ok && (key !in db.cursors || db.cursors[key] >= (today + 1) * 86400) ==> day == today
    ensures ok && key in db.cursors && db.cursors[key] < (today + 1) * 86400 ==>
      day * 86400 <= db.cursors[key] < (day + 1) * 86400
    ensures db.log == old(db.log) + [ReadCursor(key, ok)]
  {
    var date: Option<int>;
    ok, date := db.GetLastSyncedDate(key);
    if !ok || date.None? {
      return ok, today;
    }
    var lastSyncedDay := date.value / DAY;
    if lastSyncedDay > today {
      return ok, today;
    }
    return ok, lastSyncedDay;
  }

  /** The part of a run after a successful fetch. */
  method SyncDay(db: Database, r: SyncRun, queryDate: int, today: int) returns (run: SyncRun)
    requires db.Valid() && r.readOk && r.fetched.Some?
    requires today == DayOf(r.now) && queryDate == QueryDay(db.cursors, r.key, today)
    modifies db
    ensures db.Valid() && WellFormed(run)
    ensures run == r.(stale := run.stale, saves := run.saves, cursorWrite := run.cursorWrite)
    ensures db.State() == AfterSync(old(db.State()), run)
    ensures db.log == old(db.log) + DayStatements(old(db.State()), run)
  {
    hide EnqueueAll, SaveMatches, Filtered, HasInProgress, StaleStatements, SaveStatements, QueryDay, QueuesStale,
      SavesFinished;
    ghost var t := db.State();
    var filtered, stale := FilterStaleMatches(db, r.fetched.value, r.key.provider, r.staleNow);
    ghost var t1 := db.State();
    var saves := SaveFinished(db, filtered, r.key.provider);
    SaveKeepsCursors(t1, filtered, r.key.provider, saves);
    ghost var t2 := db.State();
    var nextSyncDate;
    var inProgress := HasInProgressMatches(filtered);
    if inProgress {
      nextSyncDate := queryDate;
    } else if queryDate < today {
      nextSyncDate := queryDate + 1;
    } else {
      nextSyncDate := today;
    }
    var written := db.UpdateLastSyncedDate(r.key, nextSyncDate * DAY);
    assert db.State() == t2.(cursors := db.cursors);
    run := r.(stale := stale, saves := saves, cursorWrite := written);
  }

  /** `fetch` answers for the day asked for; the returned run records what was drawn. */
  method Sync(db: Database, key: CursorKey, now: int, staleNow: int, fetch: int -> Option<seq<Match>>)
    returns (ok: bool, run: SyncRun)
    requires db.Valid()
    modifies db
    ensures db.Valid() && WellFormed(run) && run.key == key && run.now == now && run.staleNow == staleNow
    ensures run.readOk ==> run.fetched == fetch(QueryDay(old(db.cursors), key, DayOf(now)))
    ensures db.State() == AfterSync(old(db.State()), run)
    ensures db.log == old(db.log) + SyncStatements(old(db.State()), run)
    ensures run.readOk && run.fetched.Some? ==>
      var owed := OwedCursor(old(db.cursors), key, now, staleNow, run.fetched.value);
      && db.log[|db.log| - 1] == WriteCursor(key, owed, run.cursorWrite)
      && db.cursors == if run.cursorWrite.Lost? then old(db.cursors) else old(db.cursors)[key := owed]
    ensures ok <==> run.readOk && run.fetched.Some? && run.cursorWrite.Done?
  {
    run := SyncRun(key, now, staleNow, false, None, [], [], Lost);
    var today := now / DAY;
    var read, queryDate := GetQueryDate(db, key, today);
    if !read {
      return false, run;
    }
    var response := fetch(queryDate);
    run := run.(readOk := true, fetched := response);
    if response.None? {
      return false, run;
    }
    run := SyncDay(db, run, queryDate, today);
    CursorIsOwed(old(db.State()), run);
    return run.cursorWrite.Done?, run;
  }

  lemma {:induction false} SaveKeepsCursors(t: Tables, ms: seq<Match>, provider: int, tries: seq<SaveTry>)
    requires |tries| == |ms|
    ensures SaveMatches(t, ms, provider, tries).cursors == t.cursors
  {
    if ms == [] {
    } else {
      SaveKeepsCursors(t, ms[..|ms| - 1], provider, tries[..|ms| - 1]);
    }
  }

  // ---- The cursor over runs ----

  /** A run moves only its own cursor: to the queried day or, if that day is past and done, one further. */
  lemma CursorStep(t: Tables, r: SyncRun)
    requires WellFormed(r)
    ensures forall k :: k != r.key ==>
      (k in AfterSync(t, r).cursors <==> k in t.cursors)
      && (k in t.cursors ==> AfterSync(t, r).cursors[k] == t.cursors[k])
    ensures !Completes(r) ==> AfterSync(t, r).cursors == t.cursors
    ensures Completes(r) ==> r.key in AfterSync(t, r).cursors
    ensures Completes(r) && r.key in t.cursors ==>
      DayOf(AfterSync(t, r).cursors[r.key]) <= DayOf(t.cursors[r.key]) + 1
    ensures Completes(r) ==>
      var q, today := QueryDay(t.cursors, r.key, DayOf(r.now)), DayOf(r.now);
      var c := AfterSync(t, r).cursors[r.key];
      c % DAY == 0 && q <= DayOf(c) <= today
      && (DayOf(c) == q + 1 <==> q < today && NothingRecent(r.fetched.value, r.staleNow))
      && (DayOf(c) != q + 1 ==> DayOf(c) == q)
  {
    hide EnqueueAll, SaveMatches, Filtered, HasInProgress;
    if Completes(r) {
      InProgressIff(r.fetched.value, r.staleNow);
    }
  }

  /**
    Where the cursor is owed to stand, in seconds: on the day that was queried, which is the cursor's unless that lies
    ahead, or on the next if that day is past and every unfinished match started more than six hours ago.
   */
  ghost function OwedCursor(cursors: map<CursorKey, int>, key: CursorKey, now: int, staleNow: int, ms: seq<Match>): int
  {
    var today := now / 86400;
    var day := if key in cursors && cursors[key] / 86400 <= today then cursors[key] / 86400 else today;
    if day < today && forall m :: m in ms && m.status != 3 ==> m.start.instant < staleNow - 21600
    then (day + 1) * 86400
    else day * 86400
  }

  lemma CursorIsOwed(t: Tables, r: SyncRun)
    requires WellFormed(r) && r.fetched.Some?
    ensures WrittenDay(t, r) * DAY == OwedCursor(t.cursors, r.key, r.now, r.staleNow, r.fetched.value)
    ensures r.readOk && !r.cursorWrite.Lost? ==>
      AfterSync(t, r).cursors == t.cursors[r.key := OwedCursor(t.cursors, r.key, r.now, r.staleNow, r.fetched.value)]
  {
    hide EnqueueAll, SaveMatches, Filtered, HasInProgress;
    InProgressIff(r.fetched.value, r.staleNow);
  }

  function AfterSyncs(t: Tables, runs: seq<SyncRun>): Tables
    requires forall i :: 0 <= i < |runs| ==> WellFormed(runs[i])
  {
    if runs == [] then t else AfterSync(AfterSyncs(t, runs[..|runs| - 1]), runs[|runs| - 1])
  }

  /** Run i of a history passed day d of `key`: it queried d, and no unfinished match was recent. */
  ghost predicate Passed(t: Tables, runs: seq<SyncRun>, key: CursorKey, i: nat, d: int)
    requires forall j :: 0 <= j < |runs| ==> WellFormed(runs[j])
    requires i < |runs|
  {
    && Completes(runs[i]) && runs[i].key == key
    && QueryDay(AfterSyncs(t, runs[..i]).cursors, key, DayOf(runs[i].now)) == d
    && d < DayOf(runs[i].now)
    && NothingRecent(runs[i].fetched.value, runs[i].staleNow)
  }

  /** The day of the run that first wrote the cursor. */
  ghost predicate FirstSynced(t: Tables, runs: seq<SyncRun>, key: CursorKey, f: nat, day: int)
    requires forall j :: 0 <= j < |runs| ==> WellFormed(runs[j])
  {
    && f < |runs| && Completes(runs[f]) && runs[f].key == key && DayOf(runs[f].now) == day
    && forall i :: 0 <= i < f ==> !(Completes(runs[i]) && runs[i].key == key)
  }

  ghost predicate PassedBySome(t: Tables, runs: seq<SyncRun>, key: CursorKey, d: int)
    requires forall j :: 0 <= j < |runs| ==> WellFormed(runs[j])
  {
    exists i :: 0 <= i < |runs| && Passed(t, runs, key, i, d)
  }

  /** Every day from `first` up to the cursor was passed by a run of the history. */
  ghost predicate NoneSkipped(t: Tables, runs: seq<SyncRun>, key: CursorKey, first: int)
    requires forall i :: 0 <= i < |runs| ==> WellFormed(runs[i])
  {
    && key in AfterSyncs(t, runs).cursors
    && (forall d :: first <= d < DayOf(AfterSyncs(t, runs).cursors[key]) ==>
          PassedBySome(t, runs, key, d))
  }

  lemma NoneSkippedStep(t: Tables, runs: seq<SyncRun>, key: CursorKey, first: int)
    requires runs != [] && forall i :: 0 <= i < |runs| ==> WellFormed(runs[i])
    requires NoneSkipped(t, runs[..|runs| - 1], key, first)
    ensures NoneSkipped(t, runs, key, first)
  {
    var n := |runs| - 1;
    var front := runs[..n];
    var before := AfterSyncs(t, front);
    CursorStep(before, runs[n]);
    forall d | first <= d < DayOf(AfterSyncs(t, runs).cursors[key]) ensures PassedBySome(t, runs, key, d) {
      if d < DayOf(before.cursors[key]) {
        assert PassedBySome(t, front, key, d);
        var i :| 0 <= i < n && Passed(t, front, key, i, d);
        assert front[..i] == runs[..i];
        assert Passed(t, runs, key, i, d);
      } else {
        assert Passed(t, runs, key, n, d);
      }
    }
  }

  /**
    No skipped day: whatever the runs, their failures and their clocks (even running backwards), every
    day from the first synced one up to the cursor was passed by a completed run that queried it.
   */
  lemma {:induction false} NoSkippedDay(t: Tables, runs: seq<SyncRun>, key: CursorKey, f: nat, first: int)
    requires forall i :: 0 <= i < |runs| ==> WellFormed(runs[i])
    requires key !in t.cursors && FirstSynced(t, runs, key, f, first)
    ensures NoneSkipped(t, runs, key, first)
  {
    var n := |runs| - 1;
    if f == n {
      NoCursorYet(t, runs[..n], key);
      CursorStep(AfterSyncs(t, runs[..n]), runs[n]);
    } else {
      NoSkippedDay(t, runs[..n], key, f, first);
      NoneSkippedStep(t, runs, key, first);
    }
  }

  /** The same from where a cursor already stands. */
  lemma {:induction false} NoSkippedDayFrom(t: Tables, runs: seq<SyncRun>, key: CursorKey, first: int)
    requires forall i :: 0 <= i < |runs| ==> WellFormed(runs[i])
    requires key in t.cursors && DayOf(t.cursors[key]) <= first
    ensures NoneSkipped(t, runs, key, first)
  {
    if runs == [] {
    } else {
      NoSkippedDayFrom(t, runs[..|runs| - 1], key, first);
      NoneSkippedStep(t, runs, key, first);
    }
  }

  lemma {:induction false} NoCursorYet(t: Tables, runs: seq<SyncRun>, key: CursorKey)
    requires forall i :: 0 <= i < |runs| ==> WellFormed(runs[i])
    requires key !in t.cursors && forall i :: 0 <= i < |runs| ==> !(Completes(runs[i]) && runs[i].key == key)
    ensures key !in AfterSyncs(t, runs).cursors
  {
    if runs == [] {
    } else {
      NoCursorYet(t, runs[..|runs| - 1], key);
      CursorStep(AfterSyncs(t, runs[..|runs| - 1]), runs[|runs| - 1]);
    }
  }

  // ---- Dropped matches ----

  /** The stale loop queued `ref` at match j. */
  ghost predicate QueuedAt(queue: map<Ref, QueueEntry>, ms: seq<Match>, provider: int, now: int,
                           tries: seq<EnqueueTry>, j: nat, ref: Ref)
    requires |tries| == |ms| && j < |ms|
  {
    && ms[j].status != 3 && ms[j].start.instant < now - 21600
    && Ref(provider, ms[j].pmid) == ref && !tries[j].outcome.Lost?
    && Enqueue(EnqueueAll(queue, ms[..j], provider, now, tries[..j]), ref, tries[j].id).Some?
  }

  /** After the stale loop a match is queued exactly when it was before or one of its own inserts took. */
  lemma {:induction false} StaleQueuedIff(queue: map<Ref, QueueEntry>, ms: seq<Match>, provider: int, now: int,
                                          tries: seq<EnqueueTry>, ref: Ref)
    requires |tries| == |ms|
    ensures ref in EnqueueAll(queue, ms, provider, now, tries) <==>
      ref in queue || exists j :: 0 <= j < |ms| && QueuedAt(queue, ms, provider, now, tries, j, ref)
  {
    if ms == [] {
    } else {
      var n := |ms| - 1;
      var (front, frontTries) := (ms[..n], tries[..n]);
      StaleQueuedIff(queue, front, provider, now, frontTries, ref);
      forall j | 0 <= j < n
        ensures QueuedAt(queue, front, provider, now, frontTries, j, ref)
                <==> QueuedAt(queue, ms, provider, now, tries, j, ref)
      {
        assert front[..j] == ms[..j] && frontTries[..j] == tries[..j];
      }
      if QueuedAt(queue, ms, provider, now, tries, n, ref) {
        assert ref in EnqueueAll(queue, ms, provider, now, tries);
      }
    }
  }

  /** The save loop put `ref` in the matches table or the queue at match j. */
  ghost predicate KeptAt(t: Tables, ms: seq<Match>, provider: int, tries: seq<SaveTry>, j: nat, ref: Ref)
    requires |tries| == |ms| && j < |ms|
  {
    KeptBy(SaveMatches(t, ms[..j], provider, tries[..j]), ms[j], provider, tries[j], ref)
  }

  predicate KeptBy(t: Tables, m: Match, provider: int, try: SaveTry, ref: Ref) {
    var written := Upsert(t.matches, m);
    && m.status == FINISHED
    && ((RefOf(m) == ref && written.Some? && !try.save.Lost?)
        || (Ref(provider, m.pmid) == ref && !Succeeds(written, try.save)
            && Enqueue(t.queue, ref, try.fallback.id).Some? && !try.fallback.outcome.Lost?))
  }

  lemma KeptIff(t: Tables, m: Match, provider: int, try: SaveTry, ref: Ref)
    ensures Accounted(SaveOne(t, m, provider, try), ref) <==> Accounted(t, ref) || KeptBy(t, m, provider, try, ref)
  {
    hide Storable, RowIdTaken, EntryIdTaken;
  }

  /** After the save loop a match is accounted for exactly when it was or one of its own writes took. */
  lemma {:induction false} SavesKeepIff(t: Tables, ms: seq<Match>, provider: int, tries: seq<SaveTry>, ref: Ref)
    requires |tries| == |ms|
    ensures Accounted(SaveMatches(t, ms, provider, tries), ref) <==>
      Accounted(t, ref) || exists j :: 0 <= j < |ms| && KeptAt(t, ms, provider, tries, j, ref)
  {
    hide KeptBy, SaveOne, Accounted;
    if ms == [] {
    } else {
      var n := |ms| - 1;
      var (front, frontTries) := (ms[..n], tries[..n]);
      SavesKeepIff(t, front, provider, frontTries, ref);
      KeptIff(SaveMatches(t, front, provider, frontTries), ms[n], provider, tries[n], ref);
      forall j | 0 <= j < n
        ensures KeptAt(t, front, provider, frontTries, j, ref) <==> KeptAt(t, ms, provider, tries, j, ref)
      {
        assert front[..j] == ms[..j] && frontTries[..j] == tries[..j];
      }
      if KeptBy(SaveMatches(t, front, provider, frontTries), ms[n], provider, tries[n], ref) {
        assert KeptAt(t, ms, provider, tries, n, ref);
      }
    }
  }

  /** Some insert of `ref` as a stale match took. */
  ghost predicate InsertTook(t: Tables, r: SyncRun, ref: Ref)
    requires WellFormed(r) && r.fetched.Some?
  {
    exists j :: 0 <= j < |r.fetched.value|
      && QueuedAt(t.queue, r.fetched.value, r.key.provider, r.staleNow, r.stale, j, ref)
  }

  /** Some save of `ref` as a finished match took, or the insert in its stead. */
  ghost predicate SaveTook(t: Tables, r: SyncRun, ref: Ref)
    requires WellFormed(r) && r.fetched.Some?
  {
    exists j :: 0 <= j < |Filtered(r.fetched.value, r.staleNow)|
      && KeptAt(AfterStale(t, r), Filtered(r.fetched.value, r.staleNow), r.key.provider, r.saves, j, ref)
  }

  function AfterStale(t: Tables, r: SyncRun): Tables
    requires WellFormed(r) && r.fetched.Some?
  {
    t.(queue := EnqueueAll(t.queue, r.fetched.value, r.key.provider, r.staleNow, r.stale))
  }

  /**
    After a run a match is accounted for exactly when it was before, or an insert of it as stale took, or, as a
    finished one, its save or the insert in its stead did. All else is dropped, even if the day is passed.
   */
  lemma AccountedIff(t: Tables, r: SyncRun, ref: Ref)
    requires WellFormed(r) && r.readOk && r.fetched.Some?
    ensures Accounted(AfterSync(t, r), ref) <==> Accounted(t, ref) || InsertTook(t, r, ref) || SaveTook(t, r, ref)
  {
    hide SaveMatches, EnqueueAll, Filtered, QueuedAt, KeptAt, IsStale;
    StaleQueuedIff(t.queue, r.fetched.value, r.key.provider, r.staleNow, r.stale, ref);
    SavesKeepIff(AfterStale(t, r), Filtered(r.fetched.value, r.staleNow), r.key.provider, r.saves, ref);
  }

  /** None of the run's writes to the matches table and the queue took. */
  ghost predicate AllLost(r: SyncRun) {
    && (forall try :: try in r.stale ==> try.outcome.Lost?)
    && (forall try :: try in r.saves ==> try.save.Lost? && try.fallback.outcome.Lost?)
  }

  lemma LostNotKept(t: Tables, r: SyncRun, ref: Ref)
    requires WellFormed(r) && r.readOk && r.fetched.Some? && AllLost(r) && !Accounted(t, ref)
    ensures !Accounted(AfterSync(t, r), ref)
  {
    hide SaveMatches, EnqueueAll, Filtered, IsStale, AfterSync, Accounted, Upsert, Enqueue, WellFormed;
    assert |r.stale| == |r.fetched.value| && |r.saves| == |Filtered(r.fetched.value, r.staleNow)| by { Lengths(r); }
    AccountedIff(t, r, ref);
    assert forall j :: 0 <= j < |r.stale| ==> r.stale[j] in r.stale;
    assert forall j :: 0 <= j < |r.saves| ==> r.saves[j] in r.saves;
  }

  lemma Lengths(r: SyncRun)
    requires WellFormed(r) && r.fetched.Some?
    ensures |r.stale| == |r.fetched.value| && |r.saves| == |Filtered(r.fetched.value, r.staleNow)|
  {
  }

  lemma FilteredOne(m: Match, now: int)
    ensures Filtered([m], now) == if IsStale(m, now) then [] else [m]
  {
    assert [m][..0] == [];
  }

  /** A lost insert drops a stale match: the day is passed and the match is nowhere. */
  lemma LostInsertDropsMatch(t: Tables, key: CursorKey, m: Match, now: int)
    requires key in t.cursors && DayOf(t.cursors[key]) < DayOf(now)
    requires m.status != 3 && m.start.instant < now - 21600
    requires !Accounted(t, RefOf(m)) && m.provider == key.provider
    ensures var r := SyncRun(key, now, now, true, Some([m]), [EnqueueTry(0, Lost)], [], Done);
      && Completes(r) && DayOf(AfterSync(t, r).cursors[key]) == DayOf(t.cursors[key]) + 1
      && !Accounted(AfterSync(t, r), RefOf(m))
  {
    hide AfterSync, Accounted;
    var r := SyncRun(key, now, now, true, Some([m]), [EnqueueTry(0, Lost)], [], Done);
    FilteredOne(m, now);
    LostNotKept(t, r, RefOf(m));
    CursorStep(t, r);
  }

  /** So does the save of a finished match that is lost together with the insert in its stead. */
  lemma LostSaveDropsMatch(t: Tables, key: CursorKey, m: Match, now: int)
    requires key in t.cursors && DayOf(t.cursors[key]) < DayOf(now) && m.status == FINISHED
    requires !Accounted(t, RefOf(m)) && m.provider == key.provider
    ensures var saves := [SaveTry(Lost, EnqueueTry(0, Lost))];
      var r := SyncRun(key, now, now, true, Some([m]), [EnqueueTry(0, Lost)], saves, Done);
      && Completes(r) && DayOf(AfterSync(t, r).cursors[key]) == DayOf(t.cursors[key]) + 1
      && !Accounted(AfterSync(t, r), RefOf(m))
  {
    hide AfterSync, Accounted;
    var saves := [SaveTry(Lost, EnqueueTry(0, Lost))];
    var r := SyncRun(key, now, now, true, Some([m]), [EnqueueTry(0, Lost)], saves, Done);
    FilteredOne(m, now);
    LostNotKept(t, r, RefOf(m));
    CursorStep(t, r);
  }

  /** Once the cursor is past a day, no run whose clock is past it too queries it again. */
  lemma {:induction false} NeverQueriedAgain(t: Tables, runs: seq<SyncRun>, key: CursorKey, d: int)
    requires forall i :: 0 <= i < |runs| ==> WellFormed(runs[i])
    requires key in t.cursors && d < DayOf(t.cursors[key])
    requires forall r :: r in runs && r.key == key ==> d < DayOf(r.now)
    ensures key in AfterSyncs(t, runs).cursors && d < DayOf(AfterSyncs(t, runs).cursors[key])
    ensures forall i :: 0 <= i < |runs| && runs[i].key == key ==>
      d < QueryDay(AfterSyncs(t, runs[..i]).cursors, key, DayOf(runs[i].now))
  {
    hide AfterSync, WellFormed, Completes, NothingRecent;
    if runs == [] {
    } else {
      var n := |runs| - 1;
      var front := runs[..n];
      NeverQueriedAgain(t, front, key, d);
      assert forall i :: 0 <= i < n ==> front[..i] == runs[..i] && front[i] == runs[i];
      assert runs[n] in runs;
      CursorStep(AfterSyncs(t, front), runs[n]);
    }
  }

  /** The run was returned the match. */
  ghost predicate Returns(r: SyncRun, ref: Ref) {
    r.fetched.Some? && exists m :: m in r.fetched.value && (RefOf(m) == ref || Ref(r.key.provider, m.pmid) == ref)
  }

  /** A dropped match is accounted for again only if some later run is returned it anew. */
  lemma {:induction false} DroppedStays(t: Tables, runs: seq<SyncRun>, ref: Ref)
    requires forall i :: 0 <= i < |runs| ==> WellFormed(runs[i])
    requires !Accounted(t, ref) && forall r :: r in runs ==> !Returns(r, ref)
    ensures !Accounted(AfterSyncs(t, runs), ref)
  {
    if runs == [] {
    } else {
      var n := |runs| - 1;
      DroppedStays(t, runs[..n], ref);
      assert runs[n] in runs;
      NotReturnedNotKept(AfterSyncs(t, runs[..n]), runs[n], ref);
    }
  }

  lemma NotReturnedNotKept(t: Tables, r: SyncRun, ref: Ref)
    requires WellFormed(r) && !Accounted(t, ref) && !Returns(r, ref)
    ensures !Accounted(AfterSync(t, r), ref)
  {
    if r.readOk && r.fetched.Some? {
      hide SaveMatches, EnqueueAll, Filtered, AfterSync, Upsert, Enqueue, Accounted, IsStale;
      AccountedIff(t, r, ref);
      KeptAreFetched(r.fetched.value, r.staleNow);
    }
  }

  lemma {:induction false} KeptAreFetched(ms: seq<Match>, now: int)
    ensures forall m :: m in Filtered(ms, now) ==> m in ms
  {
    if ms == [] {
    } else {
      KeptAreFetched(ms[..|ms| - 1], now);
    }
  }

  // ---- Bounded delay ----

  /** Every match returned started more than six hours before the run looked for stale ones. */
  ghost predicate AllOld(r: SyncRun) {
    r.fetched.Some? ==> forall m :: m in r.fetched.value ==> m.start.instant < r.staleNow - 21600
  }

  lemma {:induction false} OldNeverBlock(ms: seq<Match>, now: int)
    requires forall m :: m in ms ==> m.start.instant < now - 21600
    ensures !HasInProgress(Filtered(ms, now))
  {
    if ms == [] {
    } else {
      OldNeverBlock(ms[..|ms| - 1], now);
    }
  }

  /** A completed run on a past day whose matches all started over six hours ago advances by exactly one day. */
  lemma OldDayAdvances(t: Tables, r: SyncRun)
    requires Completes(r) && AllOld(r) && r.key in t.cursors && DayOf(t.cursors[r.key]) < DayOf(r.now)
    ensures AfterSync(t, r).cursors[r.key] == (DayOf(t.cursors[r.key]) + 1) * DAY
  {
    OldNeverBlock(r.fetched.value, r.staleNow);
  }

  /** A cursor k days behind a fixed today is at today after exactly k such runs, and stays there. */
  lemma {:induction false} CatchUp(t: Tables, runs: seq<SyncRun>, key: CursorKey, today: int)
    requires key in t.cursors && DayOf(t.cursors[key]) <= today
    requires forall i :: 0 <= i < |runs| ==> WellFormed(runs[i])
    requires forall i :: 0 <= i < |runs| ==> Completes(runs[i]) && runs[i].key == key && DayOf(runs[i].now) == today
    requires forall i :: 0 <= i < |runs| && i < today - DayOf(t.cursors[key]) ==> AllOld(runs[i])
    ensures key in AfterSyncs(t, runs).cursors
    ensures DayOf(AfterSyncs(t, runs).cursors[key])
            == if |runs| < today - DayOf(t.cursors[key]) then DayOf(t.cursors[key]) + |runs| else today
  {
    if runs == [] {
    } else {
      var front, r := runs[..|runs| - 1], runs[|runs| - 1];
      CatchUp(t, front, key, today);
      var before := AfterSyncs(t, front);
      CursorStep(before, r);
      if DayOf(before.cursors[key]) < today {
        OldDayAdvances(before, r);
      }
    }
  }
}
