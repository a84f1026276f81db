/**
 The clone itself: the check pass over the whole log, the paged apply with its checkpoints,
 the last retry of the quarantine, and the command that runs them. Paging is proved invisible:
 whatever the batch size, the store ends as if the log had been applied event by event.
*/
module CloneLoop {
  import opened Options
  import opened CloneStore
  import opened HubPages

  // ---- The check pass ----------------------------------------------------------------------

  /** The index of the first event that fails the checks, with the clock that runs ahead. */
  function FirstRefused<B>(r: Rules<B>, es: seq<Event>, clock: nat): (at: Option<nat>)
    ensures at.Some? ==> at.value < |es|
  {
    if es == [] then None
    else if !CheckPulledEvent(r, es[0], clock) then Some(0)
    else
      var rest := FirstRefused(r, es[1..], Max(clock, es[0].lamport));
      if rest.Some? then Some(rest.value + 1) else None
  }

  /** The clock a pass over `es` ends with. */
  function RunningClock(es: seq<Event>, clock: nat): nat {
    if es == [] then clock else Max(RunningClock(es[..|es| - 1], clock), es[|es| - 1].lamport)
  }

  lemma {:induction false} RunningClockFront(es: seq<Event>, clock: nat)
    requires es != []
    ensures RunningClock(es, clock) == RunningClock(es[1..], Max(clock, es[0].lamport))
  {
    if |es| == 1 {
      assert es[..0] == [] && es[1..] == [];
    } else {
      RunningClockFront(es[..|es| - 1], clock);
      assert es[..|es| - 1][1..] == es[1..][..|es| - 2];
    }
  }

  /** A pass over a log in two parts. */
  lemma {:induction false} FirstRefusedConcat<B>(r: Rules<B>, a: seq<Event>, b: seq<Event>, clock: nat)
    requires FirstRefused(r, a, clock).None?
    ensures FirstRefused(r, a + b, clock)
            == var later := FirstRefused(r, b, RunningClock(a, clock));
               if later.Some? then Some(|a| + later.value) else None
    decreases |a|
  {
    if a == [] {
      assert a + b == b;
    } else {
      assert (a + b)[1..] == a[1..] + b;
      RunningClockFront(a, clock);
      FirstRefusedConcat(r, a[1..], b, Max(clock, a[0].lamport));
    }
  }

  lemma FirstRefusedNext<B>(r: Rules<B>, es: seq<Event>, i: nat, clock: nat)
    requires i < |es| && FirstRefused(r, es[..i], clock).None?
    ensures CheckPulledEvent(r, es[i], RunningClock(es[..i], clock)) ==>
              FirstRefused(r, es[..i + 1], clock).None? && RunningClock(es[..i + 1], clock) == Max(RunningClock(es[..i], clock), es[i].lamport)
    ensures !CheckPulledEvent(r, es[i], RunningClock(es[..i], clock)) ==> FirstRefused(r, es, clock) == Some(i)
  {
    FirstRefusedConcat(r, es[..i], es[i..], clock);
    FirstRefusedConcat(r, es[..i], [es[i]], clock);
    assert es == es[..i] + es[i..];
    assert es[..i + 1] == es[..i] + [es[i]];
    assert es[..i + 1][..i] == es[..i];
  }

  datatype Check = Passes | Refuses(event: Event) | PageStuck

  /** The events of one page, against the running clock. */
  method CheckPage<B>(r: Rules<B>, events: seq<Event>, local: nat) returns (bad: Option<Event>, clock: nat)
    ensures var at := FirstRefused(r, events, local);
            && (bad.Some? <==> at.Some?)
            && (at.Some? ==> bad.value == events[at.value])
            && (at.None? ==> clock == RunningClock(events, local))
  {
    clock := local;
    for i := 0 to |events|
      invariant FirstRefused(r, events[..i], local).None?
      invariant clock == RunningClock(events[..i], local)
    {
      FirstRefusedNext(r, events, i, local);
      if !CheckPulledEvent(r, events[i], clock) {
        return Some(events[i]), clock;
      }
      clock := Max(clock, events[i].lamport);
    }
    assert events[..|events|] == events;
    bad := None;
  }

  lemma {:induction false} RunningClockConcat(a: seq<Event>, b: seq<Event>, clock: nat)
    ensures RunningClock(a + b, clock) == RunningClock(b, RunningClock(a, clock))
  {
    if b == [] {
      assert a + b == a;
    } else {
      assert (a + b)[..|a + b| - 1] == a + b[..|b| - 1];
      RunningClockConcat(a, b[..|b| - 1], clock);
    }
  }

  /** The events of `done` passed and left the running clock at `clock`. */
  ghost predicate CheckedTo<B>(r: Rules<B>, done: seq<Event>, local: nat, clock: nat) {
    FirstRefused(r, done, local).None? && clock == RunningClock(done, local)
  }

  /** A passed page extends the passed part. */
  lemma PagePasses<B>(r: Rules<B>, done: seq<Event>, page: seq<Event>, local: nat, clock: nat)
    requires CheckedTo(r, done, local, clock) && FirstRefused(r, page, clock).None?
    ensures CheckedTo(r, done + page, local, RunningClock(page, clock))
  {
    FirstRefusedConcat(r, done, page, local);
    RunningClockConcat(done, page, local);
  }

  /** A refused page decides the whole pass. */
  lemma PageRefuses<B>(r: Rules<B>, done: seq<Event>, page: seq<Event>, left: seq<Event>, local: nat, clock: nat)
    requires CheckedTo(r, done, local, clock) && FirstRefused(r, page, clock).Some?
    ensures CheckSays(r, done + (page + left), local, Refuses(page[FirstRefused(r, page, clock).value]))
  {
    RefusedEarly(r, page, left, clock);
    FirstRefusedConcat(r, done, page + left, local);
  }

  lemma {:induction false} RefusedEarly<B>(r: Rules<B>, a: seq<Event>, b: seq<Event>, clock: nat)
    requires FirstRefused(r, a, clock).Some?
    ensures FirstRefused(r, a + b, clock) == FirstRefused(r, a, clock)
    decreases |a|
  {
    assert (a + b)[1..] == a[1..] + b;
    if CheckPulledEvent(r, a[0], clock) {
      RefusedEarly(r, a[1..], b, Max(clock, a[0].lamport));
    }
  }

  lemma JoinPage(done: seq<Event>, page: seq<Event>, left: seq<Event>)
    ensures done + (page + left) == (done + page) + left
    ensures left == [] ==> (done + page) + left == done + page
    ensures page == [] ==> done + page == done && page + left == left
  {}

  /** What the check pass answers for the events `rest`. */
  ghost predicate CheckSays<B>(r: Rules<B>, rest: seq<Event>, local: nat, out: Check) {
    var bad := FirstRefused(r, rest, local);
    out == if bad.Some? then Refuses(rest[bad.value]) else Passes
  }

  /** Reads every page after `after` and checks every event; writes nothing. */
  method PreflightClone<B>(r: Rules<B>, log: seq<Event>, after: Cursor, local: nat, batchSize: nat) returns (out: Check)
    requires Log(log) && batchSize > 0
    ensures CheckSays(r, Rest(log, after), local, out)
  {
    ghost var done, todo := [], Rest(log, after);
    var clock := local;
    var page := new PageCursor(after);
    while true
      invariant fresh(page) && Reading(log, todo, page.at, page.passed)
      invariant Rest(log, after) == done + todo
      invariant CheckedTo(r, done, local, clock)
      decreases |todo|
    {
      var events, hasMore, ok;
      ghost var left;
      events, hasMore, ok, left := NextPage(log, page, batchSize, todo);
      if !ok {
        return PageStuck;
      }
      JoinPage(done, [], todo);
      if |events| == 0 {
        return Passes;
      }
      ghost var was := clock;
      var bad;
      bad, clock := CheckPage(r, events, clock);
      if bad.Some? {
        PageRefuses(r, done, events, left, local, was);
        return Refuses(bad.value);
      }
      PagePasses(r, done, events, local, was);
      JoinPage(done, events, left);
      done, todo := done + events, left;
      if !hasMore {
        return Passes;
      }
    }
  }

  // ---- The retry of the quarantine -----------------------------------------------------------

  predicate After(after: Option<Cursor>, c: Cursor) {
    after.None? || Before(after.value, c)
  }

  /** `k` names the first quarantined row, in keyset order, past `after`. */
  ghost predicate IsNext(q: map<EventId, Row>, after: Option<Cursor>, k: EventId) {
    && k in q && After(after, At(q[k].event))
    && forall j :: j in q && After(after, At(q[j].event)) ==> !Before(At(q[j].event), At(q[k].event))
  }

  method FindNext(q: map<EventId, Row>, after: Option<Cursor>) returns (k: Option<EventId>)
    requires forall j :: j in q ==> q[j].event.id == j
    ensures k.Some? ==> IsNext(q, after, k.value)
    ensures k.None? ==> forall j :: j in q ==> !After(after, At(q[j].event))
  {
    k := None;
    var rest := q.Keys;
    while rest != {}
      invariant rest <= q.Keys
      invariant k.Some? ==> k.value in q && After(after, At(q[k.value].event))
      invariant k.Some? ==> forall j :: j in q && j !in rest && After(after, At(q[j].event)) ==> !Before(At(q[j].event), At(q[k.value].event))
      invariant k.None? ==> forall j :: j in q && j !in rest ==> !After(after, At(q[j].event))
      decreases rest
    {
      var j :| j in rest;
      if After(after, At(q[j].event)) && (k.None? || Before(At(q[j].event), At(q[k.value].event))) {
        k := Some(j);
      }
      rest := rest - {j};
    }
  }

  datatype RetryOutcome = RetrySkipped | RetryHeld | RetryApplied | RetryDropped

  function RemoveQuarantined<B>(db: Db<B>, id: EventId): Db<B> {
    db.(quarantine := db.quarantine - {id})
  }

  /** One quarantined event: drop an applied one, else check it, and apply it unless it waits. */
  function RetryOne<B>(r: Rules<B>, db: Db<B>, row: Row): (Db<B>, RetryOutcome) {
    var e := row.event;
    if row.source == Push then (db, RetrySkipped)
    else if e.id in db.applied then (RemoveQuarantined(db, e.id), RetryDropped)
    else if !CheckPulledEvent(r, e, db.clock) || Behind(db.quarantine, e) then (db, RetryHeld)
    else
      var a := IdempotentApply(r, db, e);
      if a.Took? then (RemoveQuarantined(a.db, e.id), RetryApplied) else (db, RetryHeld)
  }

  /** Rows of `q` past `after`: what a retry has still to visit. */
  ghost function Remaining(q: map<EventId, Row>, after: Option<Cursor>): set<EventId> {
    set k | k in q && After(after, At(q[k].event))
  }

  lemma RetryOneShrinks<B>(r: Rules<B>, db: Db<B>, after: Option<Cursor>, k: EventId)
    requires Valid(db) && IsNext(db.quarantine, after, k)
    ensures var (d, _) := RetryOne(r, db, db.quarantine[k]);
            && Valid(d) && d.quarantine.Keys <= db.quarantine.Keys
            && (forall j :: j in d.quarantine ==> d.quarantine[j] == db.quarantine[j])
            && Remaining(d.quarantine, Some(At(db.quarantine[k].event))) <= Remaining(db.quarantine, after) - {k}
  {}

  datatype Retried<B> = Retried(db: Db<B>, applied: nat, dropped: nat)

  /** Every row past `after` once, in keyset order. */
  ghost function RetryFrom<B>(r: Rules<B>, db: Db<B>, after: Option<Cursor>): Retried<B>
    requires Valid(db)
    decreases |Remaining(db.quarantine, after)|
  {
    if k :| IsNext(db.quarantine, after, k) then
      RetryOneShrinks(r, db, after, k);
      var (d, o) := RetryOne(r, db, db.quarantine[k]);
      assert |Remaining(d.quarantine, Some(At(db.quarantine[k].event)))| < |Remaining(db.quarantine, after)| by {
        Smaller(Remaining(d.quarantine, Some(At(db.quarantine[k].event))), Remaining(db.quarantine, after), k);
      }
      var rest := RetryFrom(r, d, Some(At(db.quarantine[k].event)));
      Retried(rest.db, rest.applied + (if o == RetryApplied then 1 else 0), rest.dropped + (if o == RetryDropped then 1 else 0))
    else Retried(db, 0, 0)
  }

  lemma Smaller<T>(a: set<T>, b: set<T>, x: T)
    requires a <= b - {x} && x in b
    ensures |a| < |b|
  {
    SubsetSize(a, b - {x});
    assert |b - {x}| == |b| - 1;
  }

  lemma {:induction false} SubsetSize<T>(a: set<T>, b: set<T>)
    requires a <= b
    ensures |a| <= |b|
    decreases a
  {
    if a != {} {
      var x :| x in a;
      SubsetSize(a - {x}, b - {x});
    }
  }

  lemma NextIsUnique(q: map<EventId, Row>, after: Option<Cursor>, j: EventId, k: EventId)
    requires forall i :: i in q ==> q[i].event.id == i
    requires IsNext(q, after, j) && IsNext(q, after, k)
    ensures j == k
  {}

  /** One step of the retry, from its first row. */
  lemma RetryStep<B>(r: Rules<B>, db: Db<B>, after: Option<Cursor>, k: EventId)
    requires Valid(db) && IsNext(db.quarantine, after, k)
    ensures var (d, o) := RetryOne(r, db, db.quarantine[k]);
            && Valid(d)
            && var rest := RetryFrom(r, d, Some(At(db.quarantine[k].event)));
               RetryFrom(r, db, after)
               == Retried(rest.db, rest.applied + (if o == RetryApplied then 1 else 0), rest.dropped + (if o == RetryDropped then 1 else 0))
  {
    RetryOneShrinks(r, db, after, k);
    forall j | IsNext(db.quarantine, after, j)
      ensures j == k
    {
      NextIsUnique(db.quarantine, after, j, k);
    }
  }

  method RetryCloneQuarantinedEvents<B>(r: Rules<B>, store: Store<B>) returns (applied: nat, dropped: nat)
    requires Valid(store.db)
    modifies store`db
    ensures Retried(store.db, applied, dropped) == RetryFrom(r, old(store.db), None)
    ensures Valid(store.db)
  {
    var after: Option<Cursor> := None;
    applied, dropped := 0, 0;
    while true
      invariant Valid(store.db)
      invariant var rest := RetryFrom(r, store.db, after);
                RetryFrom(r, old(store.db), None) == Retried(rest.db, applied + rest.applied, dropped + rest.dropped)
      decreases |Remaining(store.db.quarantine, after)|
    {
      var k := FindNext(store.db.quarantine, after);
      if k.None? {
        return;
      }
      var row := store.db.quarantine[k.value];
      RetryStep(r, store.db, after, k.value);
      RetryOneShrinks(r, store.db, after, k.value);
      var (d, o) := RetryOne(r, store.db, row);
      Smaller(Remaining(d.quarantine, Some(At(row.event))), Remaining(store.db.quarantine, after), k.value);
      store.db := d;
      if o == RetryApplied {
        applied := applied + 1;
      } else if o == RetryDropped {
        dropped := dropped + 1;
      }
      after := Some(At(row.event));
    }
  }

  // ---- The loop ------------------------------------------------------------------------------

  datatype Clone<B> =
    | Cloned(pulled: int)
    | CheckRefused(event: Event)          // nothing was written
    | BatchRefused(event: Event)          // the batches before it were applied
    | BatchBroken(event: Event)
    | PageNotAfterCursor
    | LocalNotEmpty

  /** The position a reader of `done` saved, `saved` when it read nothing. */
  function LastOr(done: seq<Event>, saved: Cursor): Cursor {
    if done == [] then saved else At(done[|done| - 1])
  }

  /**
   Where the loop stands after the events `done`: the store is the fold of exactly those, and
   the checkpoint, once a batch was applied, names the last of them.
  */
  ghost predicate LoopAt<B>(r: Rules<B>, start: Db<B>, saved: Cursor, done: seq<Event>, db: Db<B>, checkpoint: Cursor) {
    && ApplyAll(r, start, done).Good? && db == ApplyAll(r, start, done).db
    && checkpoint == LastOr(done, saved)
  }

  ghost predicate StopsWithin<B>(r: Rules<B>, start: Db<B>, saved: Cursor, rest: seq<Event>, db: Db<B>, checkpoint: Cursor) {
    exists done, left :: rest == done + left && LoopAt(r, start, saved, done, db, checkpoint)
  }

  /** What one run of the loop from `start` over `rest` leaves behind. */
  ghost predicate LoopLeaves<B>(r: Rules<B>, start: Db<B>, saved: Cursor, wasPulled: Cursor, after: Cursor, rest: seq<Event>,
                                out: Clone<B>, db: Db<B>, checkpoint: Cursor, pulled: Cursor)
  {
    match ApplyAll(r, start, rest)
    case Good(d, held) =>
      && Valid(d) && out.Cloned?
      && db == RetryFrom(r, d, None).db
      && out.pulled == |rest| - |held| + RetryFrom(r, d, None).applied
      && pulled == LastOr(rest, after) && checkpoint == LastOr(rest, saved)
    case Refused(e) => out == BatchRefused(e) && pulled == wasPulled && StopsWithin(r, start, saved, rest, db, checkpoint)
    case Broken(e) => out == BatchBroken(e) && pulled == wasPulled && StopsWithin(r, start, saved, rest, db, checkpoint)
  }

  /** The count the loop reports after `done`: the events it did not hold. */
  ghost predicate Counts<B>(r: Rules<B>, start: Db<B>, done: seq<Event>, total: int) {
    var b := ApplyAll(r, start, done);
    b.Good? && total == |done| - |b.held|
  }

  /** One page of the loop: apply it as one transaction, then save the checkpoint. */
  method CloneBatch<B>(r: Rules<B>, store: Store<B>, events: seq<Event>, at: Cursor, ghost start: Db<B>, ghost saved: Cursor, ghost done: seq<Event>, total: int)
    returns (batch: Batch<B>, newTotal: int)
    requires Valid(store.db) && LoopAt(r, start, saved, done, store.db, store.checkpoint)
    requires events != [] && at == At(events[|events| - 1]) && Counts(r, start, done, total)
    modifies store`db, store`checkpoint
    ensures Valid(store.db)
    ensures batch == ApplyAll(r, old(store.db), events)
    ensures batch.Good? ==>
              && LoopAt(r, start, saved, done + events, store.db, store.checkpoint)
              && Counts(r, start, done + events, newTotal)
    ensures !batch.Good? ==>
              && ApplyAll(r, start, done + events) == batch
              && store.db == old(store.db) && store.checkpoint == old(store.checkpoint)
  {
    ApplyAllConcat(r, start, done, events);
    batch := store.ApplyBatchReport(r, events);
    if batch.Good? {
      BatchSettles(r, old(store.db), events);
      store.WriteCloneCheckpoint(at);
      newTotal := total + (|events| - |batch.held|);
    } else {
      newTotal := total;
    }
  }

  lemma LoopStops<B>(r: Rules<B>, start: Db<B>, saved: Cursor, pulled: Cursor, after: Cursor, done: seq<Event>, page: seq<Event>, left: seq<Event>,
                     batch: Batch<B>, db: Db<B>, checkpoint: Cursor, out: Clone<B>)
    requires LoopAt(r, start, saved, done, db, checkpoint)
    requires !batch.Good? && ApplyAll(r, start, done + page) == batch
    requires out == if batch.Refused? then BatchRefused(batch.event) else BatchBroken(batch.event)
    ensures LoopLeaves(r, start, saved, pulled, after, done + (page + left), out, db, checkpoint, pulled)
  {
    ApplyAllConcat(r, start, done + page, left);
    assert (done + page) + left == done + (page + left);
    assert StopsWithin(r, start, saved, done + (page + left), db, checkpoint);
  }

  lemma LoopEnds<B>(r: Rules<B>, start: Db<B>, saved: Cursor, wasPulled: Cursor, after: Cursor, rest: seq<Event>,
                    applied: Db<B>, checkpoint: Cursor, out: Clone<B>, retried: nat, db: Db<B>, pulled: Cursor)
    requires LoopAt(r, start, saved, rest, applied, checkpoint) && Valid(applied)
    requires RetryFrom(r, applied, None).db == db && RetryFrom(r, applied, None).applied == retried
    requires pulled == LastOr(rest, after)
    requires out.Cloned? && Counts(r, start, rest, out.pulled - retried)
    ensures LoopLeaves(r, start, saved, wasPulled, after, rest, out, db, checkpoint, pulled)
  {}

  /** Where the paging stands once `done` was applied and `todo` is still to read. */
  ghost predicate Paged<B>(r: Rules<B>, log: seq<Event>, start: Db<B>, saved: Cursor, after: Cursor, done: seq<Event>, todo: seq<Event>,
                           db: Db<B>, checkpoint: Cursor, at: Cursor, passed: set<EventId>, total: int)
  {
    && Reading(log, todo, at, passed) && Rest(log, after) == done + todo
    && Valid(db) && LoopAt(r, start, saved, done, db, checkpoint)
    && at == LastOr(done, after) && Counts(r, start, done, total)
  }

  lemma PageIsDone(log: seq<Event>, after: Cursor, done: seq<Event>, page: seq<Event>, left: seq<Event>)
    requires Rest(log, after) == done + (page + left) && page != []
    ensures Rest(log, after) == (done + page) + left
    ensures LastOr(done + page, after) == At(page[|page| - 1])
  {
    JoinPage(done, page, left);
  }

  datatype PageEnd<B> = More | LogEnd | Stopped(out: Clone<B>)

  /** One turn of the paging loop. */
  method ClonePage<B>(r: Rules<B>, store: Store<B>, log: seq<Event>, page: PageCursor, batchSize: nat, total: int,
                      ghost start: Db<B>, ghost saved: Cursor, ghost after: Cursor, ghost done: seq<Event>, ghost todo: seq<Event>)
    returns (end: PageEnd<B>, newTotal: int, ghost newDone: seq<Event>, ghost newTodo: seq<Event>)
    requires Log(log) && batchSize > 0
    requires Paged(r, log, start, saved, after, done, todo, store.db, store.checkpoint, page.at, page.passed, total)
    modifies store`db, store`checkpoint, page
    ensures !end.Stopped? ==>
              Paged(r, log, start, saved, after, newDone, newTodo, store.db, store.checkpoint, page.at, page.passed, newTotal)
    ensures end.More? ==> |newTodo| < |todo|
    ensures end.LogEnd? ==> newTodo == []
    ensures end.Stopped? ==>
              LoopLeaves(r, start, saved, store.pulled, after, Rest(log, after), end.out, store.db, store.checkpoint, store.pulled)
  {
    var events, hasMore, ok;
    ghost var left;
    events, hasMore, ok, left := NextPage(log, page, batchSize, todo);
    if !ok {
      return Stopped(PageNotAfterCursor), total, done, todo;
    }
    if |events| == 0 {
      return LogEnd, total, done, todo;
    }
    var batch;
    batch, newTotal := CloneBatch(r, store, events, page.at, start, saved, done, total);
    if !batch.Good? {
      var out := if batch.Refused? then BatchRefused(batch.event) else BatchBroken(batch.event);
      LoopStops(r, start, saved, store.pulled, after, done, events, left, batch, store.db, store.checkpoint, out);
      return Stopped(out), total, done, todo;
    }
    PageIsDone(log, after, done, events, left);
    newDone, newTodo := done + events, left;
    end := if hasMore then More else LogEnd;
  }

  /** The paging part: apply and checkpoint page after page until the log or a batch ends it. */
  method CloneBatches<B>(r: Rules<B>, store: Store<B>, log: seq<Event>, page: PageCursor, batchSize: nat)
    returns (totalPulled: int, failed: Option<Clone<B>>)
    requires Log(log) && batchSize > 0 && Valid(store.db) && page.passed == {page.at.id}
    modifies store`db, store`checkpoint, page
    ensures failed.None? ==>
              var rest := old(Rest(log, page.at));
              && Valid(store.db) && LoopAt(r, old(store.db), old(store.checkpoint), rest, store.db, store.checkpoint)
              && page.at == LastOr(rest, old(page.at))
              && Counts(r, old(store.db), rest, totalPulled)
    ensures failed.Some? ==>
              LoopLeaves(r, old(store.db), old(store.checkpoint), store.pulled, old(page.at), old(Rest(log, page.at)),
                         failed.value, store.db, store.checkpoint, store.pulled)
  {
    ghost var start, saved, after := store.db, store.checkpoint, page.at;
    ghost var done, todo := [], Rest(log, page.at);
    totalPulled := 0;
    while true
      invariant Paged(r, log, start, saved, after, done, todo, store.db, store.checkpoint, page.at, page.passed, totalPulled)
      decreases |todo|
    {
      var end;
      end, totalPulled, done, todo := ClonePage(r, store, log, page, batchSize, totalPulled, start, saved, after, done, todo);
      if end.Stopped? {
        return totalPulled, Some(end.out);
      }
      if end.LogEnd? {
        JoinPage(done, todo, []);
        return totalPulled, None;
      }
    }
  }

  /**
   Pages through the log after `after`. On success the store, the count and the pull cursor are
   those of one fold over the rest of the log followed by one retry; the batch size shows
   nowhere. On a failure the store is the fold of the events before some point, whole batches
   of them, and the checkpoint names the last one.
  */
  method CloneLoop<B>(r: Rules<B>, store: Store<B>, log: seq<Event>, after: Cursor, batchSize: nat) returns (out: Clone<B>)
    requires Log(log) && batchSize > 0 && Valid(store.db)
    modifies store
    ensures LoopLeaves(r, old(store.db), old(store.checkpoint), old(store.pulled), after, Rest(log, after),
                       out, store.db, store.checkpoint, store.pulled)
  {
    ghost var start, saved, wasPulled := store.db, store.checkpoint, store.pulled;
    var page := new PageCursor(after);
    var totalPulled, failed := CloneBatches(r, store, log, page, batchSize);
    if failed.Some? {
      return failed.value;
    }
    ghost var applied := store.db;
    var retried, _ := RetryCloneQuarantinedEvents(r, store);
    totalPulled := totalPulled + retried;
    store.pulled := page.at;
    out := Cloned(totalPulled);
    LoopEnds(r, start, saved, wasPulled, after, Rest(log, after), applied, store.checkpoint, out, retried, store.db, store.pulled);
  }

  /** Check every event, then reset, then clone. A refusal by the check writes nothing. */
  method CheckThenCloneInto<B>(r: Rules<B>, store: Store<B>, log: seq<Event>, since: Cursor, batchSize: nat) returns (out: Clone<B>)
    requires Log(log) && batchSize > 0 && Valid(store.db)
    modifies store
    ensures var bad := FirstRefused(r, Rest(log, since), old(store.db).clock);
            && (out.CheckRefused? <==> bad.Some?)
            && (out.CheckRefused? ==>
                  out.event == Rest(log, since)[bad.value] && store.db == old(store.db)
                  && store.checkpoint == old(store.checkpoint) && store.pulled == old(store.pulled))
            && (!out.CheckRefused? ==>
                  LoopLeaves(r, ResetDb(old(store.db), since), old(store.checkpoint), old(store.pulled), since, Rest(log, since),
                             out, store.db, store.checkpoint, store.pulled))
  {
    var check := PreflightClone(r, log, since, store.db.clock, batchSize);
    if check.Refuses? {
      return CheckRefused(check.event);
    }
    store.ResetCloneState(since);
    out := CloneLoop(r, store, log, since, batchSize);
  }

  /**
   `mtix sync clone`: without --resume it refuses a store that holds events and starts at the
   beginning of the log; with it, it starts at the saved checkpoint. A batch size of 0 or below
   means the default.
  */
  method RunSyncClone<B>(r: Rules<B>, store: Store<B>, log: seq<Event>, hasEvents: bool, resume: bool, batchSize: int) returns (out: Clone<B>)
    requires Log(log) && Valid(store.db)
    modifies store
    ensures out.LocalNotEmpty? <==> hasEvents && !resume
    ensures out.LocalNotEmpty? || out.CheckRefused? ==>
              store.db == old(store.db) && store.checkpoint == old(store.checkpoint) && store.pulled == old(store.pulled)
    ensures var since := if resume then old(store.checkpoint) else START;
            && (!out.LocalNotEmpty? ==> (out.CheckRefused? <==> FirstRefused(r, Rest(log, since), old(store.db).clock).Some?))
            && (!out.LocalNotEmpty? && !out.CheckRefused? ==>
                  LoopLeaves(r, ResetDb(old(store.db), since), old(store.checkpoint), old(store.pulled), since,
                             Rest(log, since), out, store.db, store.checkpoint, store.pulled))
  {
    if hasEvents && !resume {
      return LocalNotEmpty;
    }
    var size := if batchSize <= 0 then 1000 else batchSize;
    var since := if resume then store.checkpoint else START;
    out := CheckThenCloneInto(r, store, log, since, size);
  }
}
