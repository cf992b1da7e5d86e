/** Several runs of one program in flight at once: which per-program promises survive that, and which do not. */
module Overlap {
  import opened Wrappers
  import opened Entity
  import opened Eip712
  import opened Crypto
  import opened Oracle
  import opened Tables
  import opened Sync
  import opened Signer
  import opened Relayer
  import opened Pipeline
  import opened Invariants
  import opened Safety
  import opened Guarantees

  // ---- Skipped days ----

  /** The run queried a day before its today, and whatever was unfinished started more than six hours earlier. */
  ghost predicate Justified(p: Pass) {
    p.day < p.today && NothingRecent(p.fetched, p.staleNow)
  }

  /** A justified run queried the day and its cursor write took. */
  ghost predicate DayPassed(passed: set<Pass>, key: CursorKey, d: int) {
    exists p :: p in passed && p.key == key && p.day == d && Justified(p)
  }

  ghost predicate AllPassed(passed: set<Pass>, key: CursorKey, first: int, end: int) {
    forall d :: first <= d < end ==> DayPassed(passed, key, d)
  }

  /** Every day from `first` up to the cursor, and up to the day any run in flight works on, was passed. */
  ghost predicate NoGap(s: State, key: CursorKey, first: int) {
    && (key in s.tables.cursors ==> AllPassed(s.past.passed, key, first, DayOf(s.tables.cursors[key])))
    && (forall i :: i in s.syncs && s.syncs[i].key == key ==> AllPassed(s.past.passed, key, first, s.syncs[i].queryDay))
  }

  lemma PassedMore(passed: set<Pass>, passed': set<Pass>, key: CursorKey, first: int, end: int)
    requires AllPassed(passed, key, first, end) && passed <= passed'
    ensures AllPassed(passed', key, first, end)
  {
    forall d | first <= d < end ensures DayPassed(passed', key, d) {
      assert DayPassed(passed, key, d);
    }
  }

  lemma CursorKeepsNoGap(c: Config, s: State, i: nat, o: Outcome, key: CursorKey, first: int)
    requires NoGap(s, key, first) && SyncEnabled(c, s, SyncCursor(i, o)) && s.syncs[i].queryDay <= s.syncs[i].today
    ensures NoGap(SyncCursorNext(s, i, o), key, first)
  {
    hide AllPassed, HasInProgress, Filtered;
    var s' := SyncCursorNext(s, i, o);
    var f := s.syncs[i];
    forall j | j in s.syncs && s.syncs[j].key == key
      ensures AllPassed(s'.past.passed, key, first, s.syncs[j].queryDay)
    {
      PassedMore(s.past.passed, s'.past.passed, key, first, s.syncs[j].queryDay);
    }
    if f.key == key && !o.Lost? {
      CursorMovesOn(s, i, o, first);
    } else if key in s.tables.cursors {
      PassedMore(s.past.passed, s'.past.passed, key, first, DayOf(s.tables.cursors[key]));
    }
  }

  /** The cursor is set to the run's day, or one further with that day passed. */
  lemma CursorMovesOn(s: State, i: nat, o: Outcome, first: int)
    requires i in s.syncs && !o.Lost? && s.syncs[i].queryDay <= s.syncs[i].today
    requires AllPassed(s.past.passed, s.syncs[i].key, first, s.syncs[i].queryDay)
    ensures var s', key := SyncCursorNext(s, i, o), s.syncs[i].key;
      AllPassed(s'.past.passed, key, first, DayOf(s'.tables.cursors[key]))
  {
    hide Filtered, HasInProgress;
    var s', f := SyncCursorNext(s, i, o), s.syncs[i];
    forall d | first <= d < DayOf(s'.tables.cursors[f.key]) ensures DayPassed(s'.past.passed, f.key, d) {
      if d < f.queryDay {
        assert DayPassed(s.past.passed, f.key, d);
      } else {
        InProgressIff(f.fetched, f.staleNow);
        assert PassOfFlight(f) in s'.past.passed;
      }
    }
  }

  /** A run of `key` that finds no cursor begins on day `first` or earlier. */
  ghost predicate StartsBy(s: State, a: Action, key: CursorKey, first: int) {
    a.SyncBegin? && a.key == key && key !in s.tables.cursors ==> DayOf(a.now) <= first
  }

  lemma QueryDayBounds(cursors: map<CursorKey, int>, key: CursorKey, today: int)
    ensures QueryDay(cursors, key, today) <= if key in cursors then DayOf(cursors[key]) else today
  {
  }

  lemma SyncKeepsNoGap(c: Config, s: State, a: Action, key: CursorKey, first: int)
    requires Inv(c, s) && NoGap(s, key, first) && SyncEnabled(c, s, a) && StartsBy(s, a, key, first)
    ensures NoGap(SyncNext(c, s, a), key, first)
  {
    if a.SyncCursor? {
      hide Ideal, RowsInv, QueueInv, SignersInv, IssuedInv, StoredInv, RelayInv, ReceiptsInv, BroadcastedInv,
        RecsInv, PassedInv, SyncCursorNext, DayPassed, NoGap, Kept;
      assert FlightAccounts(c, s.tables, s.syncs[a.i]);
      CursorKeepsNoGap(c, s, a.i, a.o, key, first);
    } else if a.SyncBegin? {
      hide Inv, WellMade, DayPassed;
      QueryDayBounds(s.tables.cursors, a.key, DayOf(a.now));
    } else {
      hide Inv, SyncNext, SyncEnabled, DayPassed;
      SyncFrame(c, s, a);
    }
  }

  /** Cursors and passes are left alone, and every run works on the day it began with. */
  ghost predicate SyncFramed(s: State, s': State) {
    && s'.tables.cursors == s.tables.cursors && s'.past.passed == s.past.passed
    && (forall i :: i in s'.syncs ==>
          && i in s.syncs && s'.syncs[i].key == s.syncs[i].key
          && s'.syncs[i].queryDay == s.syncs[i].queryDay && s'.syncs[i].today == s.syncs[i].today)
  }

  lemma FlightFrame(s: State, s': State, i: nat)
    requires i in s.syncs && i in s'.syncs && s'.syncs == s.syncs[i := s'.syncs[i]]
    requires (s'.syncs[i].key, s'.syncs[i].queryDay, s'.syncs[i].today)
          == (s.syncs[i].key, s.syncs[i].queryDay, s.syncs[i].today)
    requires s'.tables.cursors == s.tables.cursors && s'.past.passed == s.past.passed
    ensures SyncFramed(s, s')
  {
  }

  lemma StaleFrame(s: State, i: nat, try: EnqueueTry)
    requires i in s.syncs && s.syncs[i].stalePos < |s.syncs[i].fetched|
    ensures SyncFramed(s, SyncStaleNext(s, i, try))
  {
    hide Enqueue, IsStale, Resolve, SyncFramed;
    FlightFrame(s, SyncStaleNext(s, i, try), i);
  }

  lemma SaveFrame(s: State, i: nat, o: Outcome)
    requires i in s.syncs && s.syncs[i].savePos < |Kept(s.syncs[i])|
    ensures SyncFramed(s, SyncSaveNext(s, i, o))
  {
    hide Upsert, Kept, Resolve, Succeeds, SyncFramed;
    FlightFrame(s, SyncSaveNext(s, i, o), i);
  }

  lemma SyncFrame(c: Config, s: State, a: Action)
    requires SyncEnabled(c, s, a) && !a.SyncCursor? && !a.SyncBegin?
    ensures SyncFramed(s, SyncNext(c, s, a))
  {
    hide Filtered, WellMade, Enqueue, SyncStaleNext, SyncSaveNext;
    if a.SyncStale? {
      StaleFrame(s, a.i, a.try);
    } else if a.SyncSave? {
      SaveFrame(s, a.i, a.o);
    }
  }

  /** What sync runs work on: nothing else touches it. */
  function SyncPart(s: State): (map<CursorKey, int>, map<nat, SyncFlight>, set<Pass>) {
    (s.tables.cursors, s.syncs, s.past.passed)
  }

  /** What reconcilers and queue inserts work on. */
  function QueuePart(s: State): (map<Ref, QueueEntry>, map<nat, seq<PageRow>>, set<Uuid>) {
    (s.tables.queue, s.recs, s.past.retired)
  }

  lemma RecFrame(c: Config, s: State, a: Action)
    requires RecEnabled(c, s, a)
    ensures SyncPart(RecNext(c, s, a)) == SyncPart(s)
  {
    hide Upsert, IsPage, WellMade;
  }

  lemma SignFrame(c: Config, s: State, a: Action)
    requires SignEnabled(c, s, a)
    ensures SyncPart(SignNext(c, s, a)) == SyncPart(s) && QueuePart(SignNext(c, s, a)) == QueuePart(s)
  {
    hide SignerDigest, SignOne, IsListing;
  }

  lemma RelayFrame(c: Config, s: State, a: Action)
    requires RelayEnabled(c, s, a)
    ensures SyncPart(RelayNext(c, s, a)) == SyncPart(s) && QueuePart(RelayNext(c, s, a)) == QueuePart(s)
  {
    hide MarkOne, Exec, IsListing, SignedMatches;
  }

  lemma ChainFrame(c: Config, s: State, a: Action)
    requires ChainEnabled(c, s, a)
    ensures SyncPart(ChainNext(c, s, a)) == SyncPart(s) && QueuePart(ChainNext(c, s, a)) == QueuePart(s)
  {
    hide Exec, Oracle.After, Unforged;
  }

  /** An action of no sync run leaves the sync part alone; one of neither sync nor reconciler, the queue part too. */
  lemma OthersFrame(c: Config, s: State, a: Action)
    requires Enabled(c, s, a) && !SyncEnabled(c, s, a)
    ensures SyncPart(Next(c, s, a)) == SyncPart(s)
    ensures RecEnabled(c, s, a) ==> Next(c, s, a) == RecNext(c, s, a)
    ensures !RecEnabled(c, s, a) ==> QueuePart(Next(c, s, a)) == QueuePart(s)
  {
    hide SyncEnabled, RecEnabled, SignEnabled, RelayEnabled, ChainEnabled,
      SyncNext, RecNext, SignNext, RelayNext, ChainNext, SyncPart, QueuePart;
    if RecEnabled(c, s, a) {
      RecFrame(c, s, a);
    } else if SignEnabled(c, s, a) {
      SignFrame(c, s, a);
    } else if RelayEnabled(c, s, a) {
      RelayFrame(c, s, a);
    } else {
      ChainFrame(c, s, a);
    }
  }

  /** Every run of `key` that found no cursor began on day `first` or earlier. */
  ghost predicate AllStartBy(c: Config, s: State, actions: seq<Action>, key: CursorKey, first: int) {
    forall n :: 0 <= n < |actions| && StateAt(c, s, actions, n).Some? ==>
      StartsBy(StateAt(c, s, actions, n).value, actions[n], key, first)
  }

  lemma {:induction false} NoGapReached(c: Config, s: State, actions: seq<Action>, key: CursorKey, first: int)
    requires Inv(c, s) && NoGap(s, key, first) && RunFrom(c, s, actions).Some?
    requires AllStartBy(c, s, actions, key, first)
    ensures NoGap(RunFrom(c, s, actions).value, key, first)
  {
    hide Enabled, Next, Inv, NoGap, StartsBy, SyncEnabled;
    if actions == [] {
    } else {
      var n := |actions| - 1;
      var front := actions[..n];
      assert forall k :: 0 <= k <= n ==> front[..k] == actions[..k];
      assert AllStartBy(c, s, front, key, first);
      NoGapReached(c, s, front, key, first);
      Reachable(c, s, front);
      assert StateAt(c, s, actions, n).Some?;
      var before := RunFrom(c, s, front).value;
      if SyncEnabled(c, before, actions[n]) {
        NextIsSync(c, before, actions[n]);
        SyncKeepsNoGap(c, before, actions[n], key, first);
      } else {
        OthersFrame(c, before, actions[n]);
        SamePartsNoGap(before, Next(c, before, actions[n]), key, first);
      }
    }
  }

  lemma SamePartsNoGap(s: State, s': State, key: CursorKey, first: int)
    requires NoGap(s, key, first) && SyncPart(s') == SyncPart(s)
    ensures NoGap(s', key, first)
  {
    hide AllPassed;
  }

  lemma NextIsSync(c: Config, s: State, a: Action)
    requires SyncEnabled(c, s, a) && Enabled(c, s, a)
    ensures Next(c, s, a) == SyncNext(c, s, a)
  {
    hide SyncEnabled, SyncNext;
  }

  /**
    No skipped day under any overlap of sync runs: every day from the last one on which a run found no
    cursor (or from where the cursor stood) up to the cursor was passed.
   */
  lemma NoSkippedDayOverlapping(c: Config, s: State, actions: seq<Action>, key: CursorKey, first: int)
    requires Init(c, s) && RunFrom(c, s, actions).Some? && AllStartBy(c, s, actions, key, first)
    requires key in s.tables.cursors ==> DayOf(s.tables.cursors[key]) <= first
    ensures var end := RunFrom(c, s, actions).value;
      key in end.tables.cursors ==>
        forall d :: first <= d < DayOf(end.tables.cursors[key]) ==> DayPassed(end.past.passed, key, d)
  {
    InitInv(c, s);
    NoGapReached(c, s, actions, key, first);
  }

  lemma RunsFour(c: Config, s: State, a: seq<Action>)
    requires |a| == 4 && Enabled(c, s, a[0]) && Enabled(c, Next(c, s, a[0]), a[1])
    requires Enabled(c, Next(c, Next(c, s, a[0]), a[1]), a[2])
    requires Enabled(c, Next(c, Next(c, Next(c, s, a[0]), a[1]), a[2]), a[3])
    ensures StateAt(c, s, a, 0) == Some(s) && StateAt(c, s, a, 1) == Some(Next(c, s, a[0]))
    ensures StateAt(c, s, a, 2) == Some(Next(c, Next(c, s, a[0]), a[1]))
    ensures StateAt(c, s, a, 3) == Some(Next(c, Next(c, Next(c, s, a[0]), a[1]), a[2]))
    ensures RunFrom(c, s, a) == Some(Next(c, Next(c, Next(c, Next(c, s, a[0]), a[1]), a[2]), a[3]))
  {
    hide Enabled, Next;
    assert a[..0] == [] && a[..1][..0] == [] && a[..2][..1] == a[..1] && a[..3][..2] == a[..2];
    assert RunFrom(c, s, a[..1]) == Some(Next(c, s, a[0]));
    assert RunFrom(c, s, a[..2]) == Some(Next(c, Next(c, s, a[0]), a[1]));
    assert RunFrom(c, s, a[..3]) == Some(Next(c, Next(c, Next(c, s, a[0]), a[1]), a[2]));
  }

  // ---- Exactly when a day can be skipped ----

  /** A run of `key` that finds no cursor begins on one of these days. */
  ghost predicate StartsOn(s: State, a: Action, key: CursorKey, days: iset<int>) {
    a.SyncBegin? && a.key == key && key !in s.tables.cursors ==> DayOf(a.now) in days
  }

  /** Every run of `key` that found no cursor began on one of these days. */
  ghost predicate AllStartOn(c: Config, s: State, actions: seq<Action>, key: CursorKey, days: iset<int>) {
    forall n :: 0 <= n < |actions| && StateAt(c, s, actions, n).Some? ==>
      StartsOn(StateAt(c, s, actions, n).value, actions[n], key, days)
  }

  /** Action n writes the first cursor of `key`. */
  ghost predicate FirstCursorAt(c: Config, s: State, actions: seq<Action>, key: CursorKey, n: nat)
    requires n < |actions|
  {
    && StateAt(c, s, actions, n).Some? && key !in StateAt(c, s, actions, n).value.tables.cursors
    && StateAt(c, s, actions, n + 1).Some? && key in StateAt(c, s, actions, n + 1).value.tables.cursors
  }

  /** From the day of its first cursor up to its last, no day of `key` is left unpassed. */
  ghost predicate NoGapFromFirst(c: Config, s: State, actions: seq<Action>, key: CursorKey)
    requires RunFrom(c, s, actions).Some?
  {
    var end := RunFrom(c, s, actions).value;
    forall n :: 0 <= n < |actions| && FirstCursorAt(c, s, actions, key, n) && key in end.tables.cursors ==>
      AllPassed(end.past.passed, key, DayOf(StateAt(c, s, actions, n + 1).value.tables.cursors[key]),
                DayOf(end.tables.cursors[key]))
  }

  /** While there is no cursor, the runs in flight work on the days they began on. */
  ghost predicate FlightsOn(s: State, key: CursorKey, days: iset<int>) {
    key !in s.tables.cursors ==>
      forall i :: i in s.syncs && s.syncs[i].key == key ==>
        s.syncs[i].queryDay == s.syncs[i].today && s.syncs[i].today in days
  }

  lemma SyncKeepsFlights(c: Config, s: State, a: Action, key: CursorKey, days: iset<int>)
    requires FlightsOn(s, key, days) && SyncEnabled(c, s, a) && StartsOn(s, a, key, days)
    ensures FlightsOn(SyncNext(c, s, a), key, days)
  {
    if a.SyncCursor? || a.SyncBegin? {
      hide WellMade, Filtered, HasInProgress;
    } else {
      hide SyncEnabled, SyncNext;
      SyncFrame(c, s, a);
    }
  }

  lemma {:induction false} FlightsReached(c: Config, s: State, actions: seq<Action>, key: CursorKey, days: iset<int>)
    requires s.syncs == map[] && RunFrom(c, s, actions).Some? && AllStartOn(c, s, actions, key, days)
    ensures FlightsOn(RunFrom(c, s, actions).value, key, days)
  {
    hide Enabled, Next, StartsOn, SyncEnabled;
    if actions == [] {
    } else {
      var n := |actions| - 1;
      var front := actions[..n];
      assert forall k :: 0 <= k <= n ==> front[..k] == actions[..k];
      assert AllStartOn(c, s, front, key, days);
      FlightsReached(c, s, front, key, days);
      assert StateAt(c, s, actions, n).Some?;
      var before := RunFrom(c, s, front).value;
      if SyncEnabled(c, before, actions[n]) {
        NextIsSync(c, before, actions[n]);
        SyncKeepsFlights(c, before, actions[n], key, days);
      } else {
        OthersFrame(c, before, actions[n]);
      }
    }
  }

  /** The first cursor is on the day on which its run began. */
  lemma FirstCursorDay(c: Config, s: State, a: Action, key: CursorKey, days: iset<int>)
    requires FlightsOn(s, key, days) && Enabled(c, s, a)
    requires key !in s.tables.cursors && key in Next(c, s, a).tables.cursors
    ensures DayOf(Next(c, s, a).tables.cursors[key]) in days
  {
    if !SyncEnabled(c, s, a) {
      hide Enabled, SyncEnabled, Next;
      OthersFrame(c, s, a);
    } else {
      NextIsSync(c, s, a);
      hide Enabled, Next;
      if !a.SyncCursor? && !a.SyncBegin? {
        hide SyncEnabled, SyncNext;
        SyncFrame(c, s, a);
      } else {
        hide WellMade, Filtered, HasInProgress;
      }
    }
  }

  lemma StepAt(c: Config, s: State, actions: seq<Action>, n: nat)
    requires n < |actions| && StateAt(c, s, actions, n).Some? && StateAt(c, s, actions, n + 1).Some?
    ensures var before := StateAt(c, s, actions, n).value;
      Enabled(c, before, actions[n]) && StateAt(c, s, actions, n + 1) == Some(Next(c, before, actions[n]))
  {
    hide Enabled, Next;
    assert actions[..n + 1][..n] == actions[..n];
  }

  lemma AllStartByThatDay(c: Config, s: State, actions: seq<Action>, key: CursorKey, days: iset<int>, first: int)
    requires AllStartOn(c, s, actions, key, days) && first in days && forall x, y :: x in days && y in days ==> x == y
    ensures AllStartBy(c, s, actions, key, first)
  {
    hide RunFrom, DayOf;
  }

  lemma IdleHasNoGap(c: Config, s: State, key: CursorKey, first: int)
    requires Init(c, s) && key !in s.tables.cursors
    ensures Inv(c, s) && NoGap(s, key, first) && s.syncs == map[]
  {
    InitIdle(c, s);
    InitInv(c, s);
    hide Init, Inv, AllPassed;
  }

  /** With all first runs on one day nothing is skipped. */
  lemma OneStartDaySkipsNothing(c: Config, s: State, actions: seq<Action>, key: CursorKey, days: iset<int>)
    requires Init(c, s) && key !in s.tables.cursors && RunFrom(c, s, actions).Some?
    requires AllStartOn(c, s, actions, key, days) && forall x, y :: x in days && y in days ==> x == y
    ensures NoGapFromFirst(c, s, actions, key)
  {
    hide Init, Inv, NoGap, RunFrom, Enabled, Next, AllPassed, AllStartOn, AllStartBy;
    IdleHasNoGap(c, s, key, 0);
    var end := RunFrom(c, s, actions).value;
    forall n | 0 <= n < |actions| && FirstCursorAt(c, s, actions, key, n) && key in end.tables.cursors
      ensures AllPassed(end.past.passed, key, DayOf(StateAt(c, s, actions, n + 1).value.tables.cursors[key]),
                        DayOf(end.tables.cursors[key]))
    {
      var before := StateAt(c, s, actions, n).value;
      StartsOfPrefix(c, s, actions, n, key, days);
      FlightsReached(c, s, actions[..n], key, days);
      StepAt(c, s, actions, n);
      FirstCursorDay(c, before, actions[n], key, days);
      var first := DayOf(StateAt(c, s, actions, n + 1).value.tables.cursors[key]);
      AllStartByThatDay(c, s, actions, key, days, first);
      IdleHasNoGap(c, s, key, first);
      NoGapReached(c, s, actions, key, first);
      assert NoGap(end, key, first);
      EndHasNoGap(end, key, first);
    }
  }

  lemma EndHasNoGap(s: State, key: CursorKey, first: int)
    requires NoGap(s, key, first) && key in s.tables.cursors
    ensures AllPassed(s.past.passed, key, first, DayOf(s.tables.cursors[key]))
  {
  }

  lemma StartsOfPrefix(c: Config, s: State, actions: seq<Action>, n: nat, key: CursorKey, days: iset<int>)
    requires n <= |actions| && AllStartOn(c, s, actions, key, days)
    ensures AllStartOn(c, s, actions[..n], key, days)
  {
    hide RunFrom, StartsOn;
    assert forall k :: 0 <= k <= n ==> actions[..n][..k] == actions[..k];
  }

  function EmptyRun(key: CursorKey, now: int): SyncFlight {
    SyncFlight(key, DayOf(now), DayOf(now), now, [], 0, 0, false, false)
  }

  /** Two runs that begin at t0 and at t1, before either has written its cursor, and are returned nothing. */
  function TwoFirstRuns(key: CursorKey, t0: int, t1: int): seq<Action> {
    [SyncBegin(0, key, t0, t0, []), SyncBegin(1, key, t1, t1, []), SyncCursor(0, Done), SyncCursor(1, Done)]
  }

  lemma FirstRunBegins(c: Config, s: State, i: nat, key: CursorKey, now: int)
    requires i !in s.syncs && key !in s.tables.cursors
    ensures Enabled(c, s, SyncBegin(i, key, now, now, []))
    ensures Next(c, s, SyncBegin(i, key, now, now, [])) == s.(syncs := s.syncs[i := EmptyRun(key, now)])
  {
    hide RecEnabled, SignEnabled, RelayEnabled, ChainEnabled, RecNext, SignNext, RelayNext, ChainNext;
  }

  lemma EmptyRunEnds(c: Config, s: State, i: nat, key: CursorKey, now: int)
    requires i in s.syncs && s.syncs[i] == EmptyRun(key, now)
    ensures Enabled(c, s, SyncCursor(i, Done))
    ensures var s' := Next(c, s, SyncCursor(i, Done));
      && s'.tables.cursors == s.tables.cursors[key := DayOf(now) * DAY]
      && s'.past == s.past && s'.syncs == s.syncs - {i}
  {
    hide RecEnabled, SignEnabled, RelayEnabled, ChainEnabled, RecNext, SignNext, RelayNext, ChainNext;
    assert Filtered([], now) == [];
  }

  lemma InitIdle(c: Config, s: State)
    requires Init(c, s)
    ensures s.syncs == map[] && s.past.passed == {}
  {
  }

  /**
    Two first runs that begin on different days, the later before the earlier one's cursor write: the cursor stands on
    the earlier day, then on the later, and no day was passed.
   */
  lemma OverlappingFirstRunsSkip(c: Config, s: State, key: CursorKey, t0: int, t1: int)
    requires Init(c, s) && key !in s.tables.cursors
    ensures var actions, cursors := TwoFirstRuns(key, t0, t1), s.tables.cursors;
      && StateAt(c, s, actions, 0) == Some(s)
      && StateAt(c, s, actions, 1).Some? && StateAt(c, s, actions, 1).value.tables.cursors == cursors
      && StateAt(c, s, actions, 2).Some? && StateAt(c, s, actions, 2).value.tables.cursors == cursors
      && StateAt(c, s, actions, 3).Some?
      && StateAt(c, s, actions, 3).value.tables.cursors == cursors[key := DayOf(t0) * DAY]
      && RunFrom(c, s, actions).Some?
      && RunFrom(c, s, actions).value.tables.cursors == cursors[key := DayOf(t1) * DAY]
      && RunFrom(c, s, actions).value.past.passed == {}
  {
    hide Init, RunFrom, Enabled, Next, DayOf, StateAt, EmptyRun;
    InitIdle(c, s);
    var a := TwoFirstRuns(key, t0, t1);
    FirstRunBegins(c, s, 0, key, t0);
    var s1 := Next(c, s, a[0]);
    FirstRunBegins(c, s1, 1, key, t1);
    var s2 := Next(c, s1, a[1]);
    EmptyRunEnds(c, s2, 0, key, t0);
    EmptyRunEnds(c, Next(c, s2, a[2]), 1, key, t1);
    RunsFour(c, s, a);
  }

  lemma FirstRunsStartOn(c: Config, s: State, key: CursorKey, days: iset<int>, x: int, y: int)
    requires Init(c, s) && key !in s.tables.cursors && x in days && y in days
    ensures AllStartOn(c, s, TwoFirstRuns(key, x * DAY, y * DAY), key, days)
  {
    hide RunFrom, Init, FirstCursorAt;
    var actions := TwoFirstRuns(key, x * DAY, y * DAY);
    assert DayOf(x * DAY) == x && DayOf(y * DAY) == y;
    forall n | 0 <= n < |actions| && StateAt(c, s, actions, n).Some?
      ensures StartsOn(StateAt(c, s, actions, n).value, actions[n], key, days)
    {
      assert actions[n].SyncBegin? ==> DayOf(actions[n].now) in days;
    }
  }

  /** First runs on two days can leave a gap. */
  lemma TwoStartDaysSkip(c: Config, s: State, key: CursorKey, days: iset<int>, x: int, y: int)
    requires Init(c, s) && key !in s.tables.cursors && x in days && y in days && x < y
    ensures var actions := TwoFirstRuns(key, x * DAY, y * DAY);
      && RunFrom(c, s, actions).Some? && AllStartOn(c, s, actions, key, days)
      && !NoGapFromFirst(c, s, actions, key)
  {
    FirstRunsStartOn(c, s, key, days, x, y);
    OverlappingFirstRunsSkip(c, s, key, x * DAY, y * DAY);
    hide RunFrom, Init, AllStartOn, StateAt;
    assert DayOf(x * DAY) == x && DayOf(y * DAY) == y;
    hide DayOf;
    var actions := TwoFirstRuns(key, x * DAY, y * DAY);
    assert FirstCursorAt(c, s, actions, key, 2);
    assert !DayPassed({}, key, x);
  }

  /**
    Exactly when days can be skipped: of the days on which runs that find no cursor may begin there are two. With at
    most one such day no run of the machine leaves a gap; with two some run does.
   */
  lemma SkipsIff(c: Config, s: State, key: CursorKey, days: iset<int>)
    requires Init(c, s) && key !in s.tables.cursors
    ensures (forall actions :: RunFrom(c, s, actions).Some? && AllStartOn(c, s, actions, key, days) ==>
               NoGapFromFirst(c, s, actions, key))
            <==> (forall x, y :: x in days && y in days ==> x == y)
  {
    hide RunFrom, Init, NoGapFromFirst, AllStartOn;
    if forall x, y :: x in days && y in days ==> x == y {
      forall actions | RunFrom(c, s, actions).Some? && AllStartOn(c, s, actions, key, days)
        ensures NoGapFromFirst(c, s, actions, key)
      {
        OneStartDaySkipsNothing(c, s, actions, key, days);
      }
    } else {
      var x, y :| x in days && y in days && x != y;
      if x < y {
        TwoStartDaysSkip(c, s, key, days, x, y);
      } else {
        TwoStartDaysSkip(c, s, key, days, y, x);
      }
    }
  }
}
