/** The shared database: three tables as maps under their unique keys, and each statement's effect on them. */
module Tables {
  import opened Wrappers
  import opened Bytes
  import opened Calendar
  import opened Entity

  type Uuid = nat

  const SIGNED := 4
  const BROADCASTED := 5
  const DAY := 86400

  datatype Ref = Ref(provider: int, pmid: string)

  datatype Row = Row(
    id: Uuid, canonicalId: string, comp: uint32, home: uint32, away: uint32, start: Timestamp,
    status: int, homeScore: nat, awayScore: nat, signature: Option<string>)

  datatype QueueEntry = QueueEntry(id: Uuid, tries: nat)

  datatype CursorKey = CursorKey(comp: uint32, provider: int)

  datatype Tables = Tables(
    matches: map<Ref, Row>, queue: map<Ref, QueueEntry>, cursors: map<CursorKey, int>)

  /** The match is saved or waiting in the queue. */
  predicate Accounted(t: Tables, ref: Ref) {
    ref in t.matches || ref in t.queue
  }

  /** A write is done, lost, or applied although the caller is told it failed. */
  datatype Outcome = Done | Lost | Unacknowledged

  /** None is a statement the database refuses, whatever the outcome drawn for it. */
  function Resolve<T>(before: T, written: Option<T>, o: Outcome): T {
    if written.None? || o.Lost? then before else written.value
  }

  predicate Succeeds<T>(written: Option<T>, o: Outcome) {
    written.Some? && o.Done?
  }

  function RefOf(m: Match): Ref {
    Ref(m.provider, m.pmid)
  }

  /** The columns are 32-bit signed integers and VARCHAR(255). */
  predicate Storable(m: Match) {
    && m.comp < 0x8000_0000 && m.home < 0x8000_0000 && m.away < 0x8000_0000
    && m.homeScore < 0x8000_0000 && m.awayScore < 0x8000_0000 && |m.pmid| <= 255
  }

  predicate RowIdTaken(matches: map<Ref, Row>, id: Uuid) {
    exists r :: r in matches && matches[r].id == id
  }

  predicate EntryIdTaken(queue: map<Ref, QueueEntry>, id: Uuid) {
    exists r :: r in queue && queue[r].id == id
  }

  /** Save and SaveInTx: a conflict on (provider, provider_match_id) updates status and scores only. */
  function Upsert(matches: map<Ref, Row>, m: Match): Option<map<Ref, Row>> {
    var ref := RefOf(m);
    if !Storable(m) then None
    else if ref in matches then
      Some(matches[ref := matches[ref].(status := m.status, homeScore := m.homeScore, awayScore := m.awayScore)])
    else if RowIdTaken(matches, m.id) then None
    else
      Some(matches[ref := Row(m.id, m.canonicalId, m.comp, m.home, m.away, m.start,
                              m.status, m.homeScore, m.awayScore, None)])
  }

  /** SaveToReconciliationQueue: nothing when the match is already queued. */
  function Enqueue(queue: map<Ref, QueueEntry>, ref: Ref, id: Uuid): Option<map<Ref, QueueEntry>> {
    if ref in queue then Some(queue)
    else if EntryIdTaken(queue, id) then None
    else Some(queue[ref := QueueEntry(id, 0)])
  }

  function IncrementTries(queue: map<Ref, QueueEntry>, id: Uuid): map<Ref, QueueEntry> {
    map r | r in queue :: if queue[r].id == id then queue[r].(tries := queue[r].tries + 1) else queue[r]
  }

  function MarkReconciled(queue: map<Ref, QueueEntry>, id: Uuid): map<Ref, QueueEntry> {
    map r | r in queue && queue[r].id != id :: queue[r]
  }

  /** The transaction of saveAndRemoveFromQueue: both writes or neither. */
  function SaveAndDequeue(t: Tables, m: Match, id: Uuid): Option<Tables> {
    var saved := Upsert(t.matches, m);
    if saved.None? then None else Some(t.(matches := saved.value, queue := MarkReconciled(t.queue, id)))
  }

  function StoreSignature(matches: map<Ref, Row>, id: Uuid, signature: string): map<Ref, Row> {
    map r | r in matches ::
      if matches[r].id == id then matches[r].(signature := Some(signature), status := SIGNED) else matches[r]
  }

  /** BroadcastMatch: refused when no row has the id. */
  function MarkBroadcasted(matches: map<Ref, Row>, id: Uuid): Option<map<Ref, Row>> {
    if !RowIdTaken(matches, id) then None
    else Some(map r | r in matches :: if matches[r].id == id then matches[r].(status := BROADCASTED) else matches[r])
  }

  // ---- What the queries return ----

  ghost predicate UniqueRowIds(matches: map<Ref, Row>) {
    forall r, s :: r in matches && s in matches && matches[r].id == matches[s].id ==> r == s
  }

  ghost predicate UniqueEntryIds(queue: map<Ref, QueueEntry>) {
    forall r, s :: r in queue && s in queue && queue[r].id == queue[s].id ==> r == s
  }

  /** Every row of the given status once, in whatever order the database likes. */
  ghost predicate IsListing(matches: map<Ref, Row>, status: int, refs: seq<Ref>) {
    && (forall i, j :: 0 <= i < j < |refs| ==> refs[i] != refs[j])
    && (forall r :: r in refs <==> r in matches && matches[r].status == status)
  }

  datatype PageRow = PageRow(ref: Ref, id: Uuid)

  predicate IsPending(queue: map<Ref, QueueEntry>, ref: Ref, maxTries: nat) {
    ref in queue && queue[ref].tries < maxTries
  }

  /** The pending entries with the `limit` smallest ids, in order of id. */
  ghost predicate IsPage(queue: map<Ref, QueueEntry>, limit: nat, maxTries: nat, page: seq<PageRow>) {
    && |page| <= limit
    && (forall i :: 0 <= i < |page| ==> IsPending(queue, page[i].ref, maxTries) && queue[page[i].ref].id == page[i].id)
    && (forall i, j :: 0 <= i < j < |page| ==> page[i].id < page[j].id)
    && (forall r :: IsPending(queue, r, maxTries) && (forall i :: 0 <= i < |page| ==> page[i].ref != r) ==>
          |page| == limit && forall i :: 0 <= i < |page| ==> page[i].id < queue[r].id)
  }

  lemma {:induction false} LeastExists(queue: map<Ref, QueueEntry>, refs: set<Ref>)
    requires refs != {} && refs <= queue.Keys
    ensures exists r :: r in refs && forall s :: s in refs ==> queue[r].id <= queue[s].id
  {
    var r :| r in refs;
    if refs != {r} {
      LeastExists(queue, refs - {r});
      var s :| s in refs - {r} && forall u :: u in refs - {r} ==> queue[s].id <= queue[u].id;
      var least := if queue[s].id <= queue[r].id then s else r;
      assert forall u :: u in refs ==> u == r || u in refs - {r};
      assert least in refs && forall u :: u in refs ==> queue[least].id <= queue[u].id;
    } else {
      assert r in refs && forall s :: s in refs ==> queue[r].id <= queue[s].id;
    }
  }

  /** The page taken so far and the pending entries not yet on it, all of larger ids. */
  ghost predicate PageSoFar(queue: map<Ref, QueueEntry>, maxTries: nat, page: seq<PageRow>, rest: set<Ref>) {
    && rest <= queue.Keys
    && (forall r :: r in rest ==> IsPending(queue, r, maxTries))
    && (forall i :: 0 <= i < |page| ==> IsPending(queue, page[i].ref, maxTries) && queue[page[i].ref].id == page[i].id)
    && (forall r :: IsPending(queue, r, maxTries) && (forall i :: 0 <= i < |page| ==> page[i].ref != r) ==> r in rest)
    && (forall i, j :: 0 <= i < j < |page| ==> page[i].id < page[j].id)
    && (forall i, r :: 0 <= i < |page| && r in rest ==> page[i].id < queue[r].id)
  }

  lemma PageStep(queue: map<Ref, QueueEntry>, maxTries: nat, page: seq<PageRow>, rest: set<Ref>, r: Ref)
    requires UniqueEntryIds(queue) && PageSoFar(queue, maxTries, page, rest)
    requires r in rest && forall s :: s in rest ==> queue[r].id <= queue[s].id
    ensures PageSoFar(queue, maxTries, page + [PageRow(r, queue[r].id)], rest - {r})
  {
    var page', rest' := page + [PageRow(r, queue[r].id)], rest - {r};
    forall s | IsPending(queue, s, maxTries) && forall i :: 0 <= i < |page'| ==> page'[i].ref != s
      ensures s in rest'
    {
      assert page'[|page|].ref == r;
      assert forall i :: 0 <= i < |page| ==> page'[i] == page[i];
    }
  }

  // ---- What the statements do, column by column ----

  /**
    The match's row is there: a new one with all its columns and no signature, or the old one with the match's status
    and scores and everything else as it was. All other rows are as they were.
   */
  ghost predicate Upserted(before: map<Ref, Row>, m: Match, after: map<Ref, Row>) {
    var ref := Ref(m.provider, m.pmid);
    && after.Keys == before.Keys + {ref}
    && (forall r :: r in before && r != ref ==> after[r] == before[r])
    && (ref in before ==>
          after[ref] == before[ref].(status := m.status, homeScore := m.homeScore, awayScore := m.awayScore))
    && (ref !in before ==>
          && after[ref] == Row(m.id, m.canonicalId, m.comp, m.home, m.away, m.start, m.status, m.homeScore,
                               m.awayScore, None)
          && forall r :: r in before ==> before[r].id != m.id)
  }

  /**
    The save is refused exactly when a number does not fit a 32-bit signed column, the match id is longer than 255
    characters, or a new row's id is another row's.
   */
  lemma UpsertMeans(matches: map<Ref, Row>, m: Match)
    ensures Upsert(matches, m).None? <==>
      || m.comp > 2147483647 || m.home > 2147483647 || m.away > 2147483647
      || m.homeScore > 2147483647 || m.awayScore > 2147483647 || |m.pmid| > 255
      || (Ref(m.provider, m.pmid) !in matches && exists r :: r in matches && matches[r].id == m.id)
    ensures Upsert(matches, m).Some? ==> Upserted(matches, m, Upsert(matches, m).value)
  {
  }

  /** The entry is queued: as it was, or new with no tries and an id no other has. Others are as they were. */
  ghost predicate Enqueued(before: map<Ref, QueueEntry>, ref: Ref, id: Uuid, after: map<Ref, QueueEntry>) {
    if ref in before then after == before
    else after == before[ref := QueueEntry(id, 0)] && forall r :: r in before ==> before[r].id != id
  }

  /** Entries with the id have one more try; nothing else changes. */
  ghost predicate TryCounted(before: map<Ref, QueueEntry>, id: Uuid, after: map<Ref, QueueEntry>) {
    && after.Keys == before.Keys
    && forall r :: r in before ==>
         after[r] == if before[r].id == id then QueueEntry(id, before[r].tries + 1) else before[r]
  }

  /** The entry with the id is gone; nothing else changes. */
  ghost predicate Removed(before: map<Ref, QueueEntry>, id: Uuid, after: map<Ref, QueueEntry>) {
    forall r ::
      && (r in after <==> r in before && before[r].id != id)
      && (r in after ==> after[r] == before[r])
  }

  /** A statement sent to the database, and what its caller was told. */
  datatype Statement =
    | ReadCursor(key: CursorKey, ok: bool)
    | ReadPage(ok: bool)
    | ReadStatus(status: int, ok: bool, refs: seq<Ref>)
    | UpsertMatch(m: Match, o: Outcome)
    | InsertEntry(ref: Ref, id: Uuid, o: Outcome)
    | CountTry(id: Uuid, o: Outcome)
    | UpsertAndDelete(m: Match, id: Uuid, o: Outcome)
    | WriteCursor(key: CursorKey, date: int, o: Outcome)
    | WriteSignature(id: Uuid, signature: string, o: Outcome)
    | WriteBroadcasted(id: Uuid, o: Outcome)

  /**
    The repositories' statements on one database. The log keeps every statement with its outcome, so that a
    program's contract can say which statements it makes of what it is told, and in which order.
   */
  class Database {
    var matches: map<Ref, Row>
    var queue: map<Ref, QueueEntry>
    var cursors: map<CursorKey, int>
    var log: seq<Statement>

    function State(): Tables
      reads this
    {
      Tables(matches, queue, cursors)
    }

    /** The primary keys hold. */
    ghost predicate Valid()
      reads this
    {
      UniqueRowIds(matches) && UniqueEntryIds(queue)
    }

    method Save(m: Match) returns (o: Outcome)
      requires Valid()
      modifies this`matches, this`log
      ensures Valid() && matches == Resolve(old(matches), Upsert(old(matches), m), o)
      ensures !o.Lost? ==> Upsert(old(matches), m).Some?
      ensures if o.Lost? then matches == old(matches) else Upserted(old(matches), m, matches)
      ensures log == old(log) + [UpsertMatch(m, o)]
    {
      UpsertMeans(matches, m);
      o := *;
      var written := Upsert(matches, m);
      if written.None? {
        o := Lost;
      } else if !o.Lost? {
        matches := written.value;
      }
      log := log + [UpsertMatch(m, o)];
    }

    method SaveToReconciliationQueue(ref: Ref, id: Uuid) returns (o: Outcome)
      requires Valid()
      modifies this`queue, this`log
      ensures Valid() && queue == Resolve(old(queue), Enqueue(old(queue), ref, id), o)
      ensures !o.Lost? ==> Enqueue(old(queue), ref, id).Some?
      ensures if o.Lost? then queue == old(queue) else Enqueued(old(queue), ref, id, queue)
      ensures log == old(log) + [InsertEntry(ref, id, o)]
    {
      o := *;
      var written := Enqueue(queue, ref, id);
      if written.None? {
        o := Lost;
      } else if !o.Lost? {
        queue := written.value;
      }
      log := log + [InsertEntry(ref, id, o)];
    }

    method GetPendingReconciliations(limit: nat, maxTries: nat) returns (ok: bool, page: seq<PageRow>)
      requires Valid()
      modifies this`log
      ensures IsPage(queue, limit, maxTries, page) && log == old(log) + [ReadPage(ok)]
    {
      ok := *;
      log := log + [ReadPage(ok)];
      page := [];
      var rest := set r | r in queue && IsPending(queue, r, maxTries);
      while rest != {} && |page| < limit
        invariant log == old(log) + [ReadPage(ok)] && |page| <= limit && PageSoFar(queue, maxTries, page, rest)
        decreases rest
      {
        LeastExists(queue, rest);
        var r :| r in rest && forall s :: s in rest ==> queue[r].id <= queue[s].id;
        PageStep(queue, maxTries, page, rest, r);
        page := page + [PageRow(r, queue[r].id)];
        rest := rest - {r};
      }
    }

    method AddTry(id: Uuid) returns (o: Outcome)
      requires Valid()
      modifies this`queue, this`log
      ensures Valid() && queue == Resolve(old(queue), Some(IncrementTries(old(queue), id)), o)
      ensures if o.Lost? then queue == old(queue) else TryCounted(old(queue), id, queue)
      ensures log == old(log) + [CountTry(id, o)]
    {
      o := *;
      if !o.Lost? {
        queue := IncrementTries(queue, id);
      }
      log := log + [CountTry(id, o)];
    }

    /** BeginTx, SaveInTx, MarkReconciled and Commit: any step may fail, and then nothing is written. */
    method SaveAndRemove(m: Match, id: Uuid) returns (o: Outcome)
      requires Valid()
      modifies this`matches, this`queue, this`log
      ensures Valid() && State() == Resolve(old(State()), SaveAndDequeue(old(State()), m, id), o)
      ensures !o.Lost? ==> SaveAndDequeue(old(State()), m, id).Some?
      ensures o.Lost? ==> matches == old(matches) && queue == old(queue)
      ensures !o.Lost? ==> Upserted(old(matches), m, matches) && Removed(old(queue), id, queue)
      ensures log == old(log) + [UpsertAndDelete(m, id, o)]
    {
      UpsertMeans(matches, m);
      var begun: bool, saved: bool, marked: bool := *, *, *;
      var written := Upsert(matches, m);
      o := *;
      if !begun || written.None? || !saved || !marked {
        o := Lost;
      } else if !o.Lost? {
        matches := written.value;
        queue := MarkReconciled(queue, id);
      }
      log := log + [UpsertAndDelete(m, id, o)];
    }

    method GetLastSyncedDate(key: CursorKey) returns (ok: bool, date: Option<int>)
      modifies this`log
      ensures ok ==> date == if key in cursors then Some(cursors[key]) else None
      ensures log == old(log) + [ReadCursor(key, ok)]
    {
      ok := *;
      log := log + [ReadCursor(key, ok)];
      date := if key in cursors then Some(cursors[key]) else None;
    }

    method UpdateLastSyncedDate(key: CursorKey, date: int) returns (o: Outcome)
      modifies this`cursors, this`log
      ensures cursors == Resolve(old(cursors), Some(old(cursors)[key := date]), o)
      ensures cursors == if o.Lost? then old(cursors) else old(cursors)[key := date]
      ensures log == old(log) + [WriteCursor(key, date, o)]
    {
      o := *;
      log := log + [WriteCursor(key, date, o)];
      if !o.Lost? {
        cursors := cursors[key := date];
      }
    }

    method FindByStatus(status: int) returns (ok: bool, refs: seq<Ref>)
      modifies this`log
      ensures IsListing(matches, status, refs) && log == old(log) + [ReadStatus(status, ok, refs)]
    {
      ok := *;
      refs := [];
      var rest := set r | r in matches && matches[r].status == status;
      while rest != {}
        invariant forall r :: r in matches && matches[r].status == status <==> r in rest || r in refs
        invariant forall r :: r in refs ==> r !in rest
        invariant forall i, j :: 0 <= i < j < |refs| ==> refs[i] != refs[j]
        decreases rest
      {
        var r :| r in rest;
        refs := refs + [r];
        rest := rest - {r};
      }
      log := log + [ReadStatus(status, ok, refs)];
    }

    method SetSignature(id: Uuid, signature: string) returns (o: Outcome)
      requires Valid()
      modifies this`matches, this`log
      ensures Valid() && matches == Resolve(old(matches), Some(StoreSignature(old(matches), id, signature)), o)
      ensures matches.Keys == old(matches.Keys)
      ensures forall r :: r in matches ==>
        matches[r] == if old(matches)[r].id == id && !o.Lost?
                      then old(matches)[r].(signature := Some(signature), status := 4) else old(matches)[r]
      ensures log == old(log) + [WriteSignature(id, signature, o)]
    {
      o := *;
      log := log + [WriteSignature(id, signature, o)];
      if !o.Lost? {
        matches := StoreSignature(matches, id, signature);
      }
    }

    method SetBroadcasted(id: Uuid) returns (o: Outcome)
      requires Valid()
      modifies this`matches, this`log
      ensures Valid() && matches == Resolve(old(matches), MarkBroadcasted(old(matches), id), o)
      ensures !o.Lost? ==> MarkBroadcasted(old(matches), id).Some?
      ensures matches.Keys == old(matches.Keys)
      ensures forall r :: r in matches ==>
        matches[r] == if old(matches)[r].id == id && !o.Lost? then old(matches)[r].(status := 5) else old(matches)[r]
      ensures !o.Lost? ==> exists r :: r in matches && matches[r].id == id
      ensures log == old(log) + [WriteBroadcasted(id, o)]
    {
      o := *;
      var written := MarkBroadcasted(matches, id);
      if written.None? {
        o := Lost;
      } else if !o.Lost? {
        matches := written.value;
      }
      log := log + [WriteBroadcasted(id, o)];
    }
  }

  // ---- The upsert as a fold ----

  function SaveAll(matches: map<Ref, Row>, ms: seq<Match>): map<Ref, Row> {
    if ms == [] then matches
    else
      var before := SaveAll(matches, ms[..|ms| - 1]);
      Resolve(before, Upsert(before, ms[|ms| - 1]), Done)
  }

  /** `ref` was saved by ms[first] first and by ms[last] last, among the saves the database took. */
  ghost predicate Spans(matches: map<Ref, Row>, ms: seq<Match>, ref: Ref, first: nat, last: nat) {
    && first <= last < |ms| && RefOf(ms[first]) == RefOf(ms[last]) == ref
    && Upsert(SaveAll(matches, ms[..first]), ms[first]).Some? && Upsert(SaveAll(matches, ms[..last]), ms[last]).Some?
    && (forall i :: 0 <= i < first && RefOf(ms[i]) == ref ==> Upsert(SaveAll(matches, ms[..i]), ms[i]).None?)
    && (forall i :: last < i < |ms| && RefOf(ms[i]) == ref ==> Upsert(SaveAll(matches, ms[..i]), ms[i]).None?)
  }

  lemma {:induction false} UntouchedBySaves(matches: map<Ref, Row>, ms: seq<Match>, ref: Ref)
    requires forall i :: 0 <= i < |ms| && RefOf(ms[i]) == ref ==> Upsert(SaveAll(matches, ms[..i]), ms[i]).None?
    ensures ref in SaveAll(matches, ms) <==> ref in matches
    ensures ref in matches ==> SaveAll(matches, ms)[ref] == matches[ref]
  {
    if ms == [] {
    } else {
      var front := ms[..|ms| - 1];
      assert forall i :: 0 <= i < |front| ==> front[..i] == ms[..i];
      UntouchedBySaves(matches, front, ref);
    }
  }

  /**
    After any sequence of saves into an empty table, a match's one row carries the id, the identity,
    the teams and the start of its first taken save and the status and scores of its last.
   */
  lemma {:induction false} UpsertFold(ms: seq<Match>, ref: Ref, first: nat, last: nat)
    requires Spans(map[], ms, ref, first, last)
    ensures ref in SaveAll(map[], ms)
    ensures SaveAll(map[], ms)[ref] == Row(
      ms[first].id, ms[first].canonicalId, ms[first].comp, ms[first].home, ms[first].away, ms[first].start,
      ms[last].status, ms[last].homeScore, ms[last].awayScore, None)
  {
    hide Storable, RowIdTaken;
    var front := ms[..|ms| - 1];
    assert forall i :: 0 <= i <= |front| ==> front[..i] == ms[..i];
    if last < |ms| - 1 {
      UpsertFold(front, ref, first, last);
    } else if first == last {
      UntouchedBySaves(map[], front, ref);
    } else {
      var previous := LastTaken(map[], front, ref, first);
      UpsertFold(front, ref, first, previous);
    }
  }

  /** The last taken save of a match that has one at `first`. */
  lemma {:induction false} LastTaken(matches: map<Ref, Row>, ms: seq<Match>, ref: Ref, first: nat) returns (last: nat)
    requires first < |ms| && RefOf(ms[first]) == ref && Upsert(SaveAll(matches, ms[..first]), ms[first]).Some?
    requires forall i :: 0 <= i < first && RefOf(ms[i]) == ref ==> Upsert(SaveAll(matches, ms[..i]), ms[i]).None?
    ensures Spans(matches, ms, ref, first, last)
  {
    last := |ms| - 1;
    while last > first && !(RefOf(ms[last]) == ref && Upsert(SaveAll(matches, ms[..last]), ms[last]).Some?)
      invariant first <= last < |ms|
      invariant forall i :: last < i < |ms| && RefOf(ms[i]) == ref ==> Upsert(SaveAll(matches, ms[..i]), ms[i]).None?
    {
      last := last - 1;
    }
  }

  /** One row a match and one match a row: the primary key survives every save. */
  lemma UpsertKeepsIds(matches: map<Ref, Row>, m: Match)
    requires UniqueRowIds(matches) && Upsert(matches, m).Some?
    ensures UniqueRowIds(Upsert(matches, m).value)
    ensures Upsert(matches, m).value.Keys == matches.Keys + {RefOf(m)}
  {
    hide Storable;
    var after := Upsert(matches, m).value;
    if RefOf(m) !in matches {
      assert forall r :: r in matches ==> after[r] == matches[r] && matches[r].id != m.id;
    } else {
      assert forall r :: r in matches ==> after[r].id == matches[r].id;
    }
  }
}
