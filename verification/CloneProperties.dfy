/**
 What a completed clone conserves, and what the check pass before it is worth.
*/
module CloneProperties {
  import opened Options
  import opened CloneStore
  import opened HubPages
  import opened CloneLoop

  // ---- Applied or held, never both, never lost ----------------------------------------------

  function Ids(es: seq<Event>): set<EventId> {
    set i | 0 <= i < |es| :: es[i].id
  }

  ghost predicate DistinctIds(es: seq<Event>) {
    forall i, j :: 0 <= i < j < |es| ==> es[i].id != es[j].id
  }

  /** The store has neither applied nor quarantined any of these events. */
  ghost predicate New<B>(db: Db<B>, es: seq<Event>) {
    Ids(es) !! db.applied && Ids(es) !! db.quarantine.Keys
  }

  function NewlyApplied<B>(a: Db<B>, b: Db<B>): set<EventId> { b.applied - a.applied }

  function NewlyHeld<B>(a: Db<B>, b: Db<B>): set<EventId> { b.quarantine.Keys - a.quarantine.Keys }

  lemma {:induction false} IdsNext(es: seq<Event>)
    requires es != [] && DistinctIds(es)
    ensures Ids(es) == Ids(es[..|es| - 1]) + {es[|es| - 1].id}
    ensures es[|es| - 1].id !in Ids(es[..|es| - 1])
  {
    var n := |es| - 1;
    forall id | id in Ids(es)
      ensures id in Ids(es[..n]) + {es[n].id}
    {
      var i :| 0 <= i < |es| && es[i].id == id;
      assert i < n ==> es[..n][i].id == id;
    }
  }

  lemma {:induction false} IdsCount(es: seq<Event>)
    requires DistinctIds(es)
    ensures |Ids(es)| == |es|
  {
    if es != [] {
      IdsNext(es);
      IdsCount(es[..|es| - 1]);
    }
  }

  /** From `a` to `b` each of these ids was applied or held, not both, and nothing else was. */
  ghost predicate Splits<B>(a: Db<B>, b: Db<B>, ids: set<EventId>) {
    NewlyApplied(a, b) !! NewlyHeld(a, b) && NewlyApplied(a, b) + NewlyHeld(a, b) == ids
  }

  lemma OneMoreSplits<B>(r: Rules<B>, start: Db<B>, db: Db<B>, ids: set<EventId>, e: Event)
    requires Valid(db) && Grows(start, db) && Splits(start, db, ids)
    requires e.id !in ids && e.id !in start.applied && e.id !in start.quarantine
    requires ApplyCloneEvent(r, db, e).Kept?
    ensures var k := ApplyCloneEvent(r, db, e);
            && Splits(start, k.db, ids + {e.id})
            && NewlyHeld(start, k.db) == NewlyHeld(start, db) + (if k.hold == HoldNone then {} else {e.id})
            && e.id !in NewlyHeld(start, db)
  {
    OneEventSettles(r, db, e);
    assert e.id !in NewlyApplied(start, db) && e.id !in NewlyHeld(start, db);
    var k := ApplyCloneEvent(r, db, e);
    if k.hold == HoldNone {
      assert NewlyHeld(start, k.db) == NewlyHeld(start, db);
      assert NewlyApplied(start, k.db) == NewlyApplied(start, db) + {e.id};
    } else {
      assert NewlyHeld(start, k.db) == NewlyHeld(start, db) + {e.id};
    }
  }

  /** The report of a batch counts what it held. */
  ghost predicate Accounts<B>(start: Db<B>, b: Batch<B>, ids: set<EventId>) {
    b.Good? && Splits(start, b.db, ids) && |b.held| == |NewlyHeld(start, b.db)|
  }

  lemma OneMoreAccounts<B>(r: Rules<B>, start: Db<B>, b: Batch<B>, ids: set<EventId>, e: Event)
    requires Accounts(start, b, ids) && Valid(b.db) && Grows(start, b.db)
    requires e.id !in ids && e.id !in start.applied && e.id !in start.quarantine
    requires ApplyNext(r, b, e).Good?
    ensures Accounts(start, ApplyNext(r, b, e), ids + {e.id})
  {
    OneMoreSplits(r, start, b.db, ids, e);
  }

  /** A batch splits its new events: each is applied or held, and the report counts the held. */
  lemma {:induction false} FoldPartitions<B>(r: Rules<B>, start: Db<B>, es: seq<Event>)
    requires Valid(start) && DistinctIds(es) && New(start, es) && ApplyAll(r, start, es).Good?
    ensures Accounts(start, ApplyAll(r, start, es), Ids(es))
  {
    if es != [] {
      var n := |es| - 1;
      IdsNext(es);
      FoldPartitions(r, start, es[..n]);
      BatchSettles(r, start, es[..n]);
      assert es[n].id in Ids(es);
      OneMoreAccounts(r, start, ApplyAll(r, start, es[..n]), Ids(es[..n]), es[n]);
    }
  }

  /** No pulled row is kept for an event that is already applied. */
  ghost predicate Separate<B>(db: Db<B>) {
    forall k :: k in db.quarantine && db.quarantine[k].source != Push ==> k !in db.applied
  }

  /** ... among the rows a retry past `after` has visited. */
  ghost predicate SeparateUpTo<B>(db: Db<B>, after: Option<Cursor>) {
    forall k :: k in db.quarantine && db.quarantine[k].source != Push && !After(after, At(db.quarantine[k].event)) ==> k !in db.applied
  }

  /** What a retry keeps: it only ever moves an event from the quarantine to the applied ones. */
  ghost predicate RetryKeeps<B>(a: Db<B>, b: Db<B>) {
    && a.applied <= b.applied && a.clock <= b.clock
    && b.quarantine.Keys <= a.quarantine.Keys && (forall k :: k in b.quarantine ==> b.quarantine[k] == a.quarantine[k])
    && a.applied + a.quarantine.Keys == b.applied + b.quarantine.Keys
    && (forall k :: k in a.quarantine && a.quarantine[k].source == Push ==> k in b.quarantine)
  }

  lemma RetryOneKeeps<B>(r: Rules<B>, db: Db<B>, after: Option<Cursor>, k: EventId)
    requires Valid(db) && IsNext(db.quarantine, after, k) && SeparateUpTo(db, after)
    ensures var (d, o) := RetryOne(r, db, db.quarantine[k]);
            && Valid(d) && RetryKeeps(db, d) && SeparateUpTo(d, Some(At(db.quarantine[k].event)))
            && (Separate(db) ==> Separate(d) && o != RetryDropped)
            && (o == RetryApplied ==> |d.quarantine| + 1 == |db.quarantine|)
            && (o == RetrySkipped || o == RetryHeld ==> d == db)
  {
    var (d, o) := RetryOne(r, db, db.quarantine[k]);
    if o == RetryApplied {
      assert d.quarantine == db.quarantine - {k};
      assert d.quarantine.Keys == db.quarantine.Keys - {k};
    }
    forall j | j in d.quarantine && d.quarantine[j].source != Push && !After(Some(At(db.quarantine[k].event)), At(d.quarantine[j].event))
      ensures j !in d.applied
    {
      if j != k {
        assert !After(after, At(db.quarantine[j].event)) || !Before(At(db.quarantine[j].event), At(db.quarantine[k].event));
      }
    }
  }

  /**
   A whole retry loses nothing, and ends with no pulled row of an applied event. Where there was
   none before, it drops nothing, and each event it applied is one row fewer.
  */
  lemma {:induction false} RetryConserves<B>(r: Rules<B>, db: Db<B>, after: Option<Cursor>)
    requires Valid(db) && SeparateUpTo(db, after)
    ensures var t := RetryFrom(r, db, after);
            && Valid(t.db) && RetryKeeps(db, t.db) && Separate(t.db)
            && (Separate(db) ==> t.dropped == 0 && |db.quarantine| == |t.db.quarantine| + t.applied)
    decreases |Remaining(db.quarantine, after)|
  {
    if k :| IsNext(db.quarantine, after, k) {
      RetryStep(r, db, after, k);
      RetryOneKeeps(r, db, after, k);
      RetryOneShrinks(r, db, after, k);
      var (d, o) := RetryOne(r, db, db.quarantine[k]);
      var past := Some(At(db.quarantine[k].event));
      Smaller(Remaining(d.quarantine, past), Remaining(db.quarantine, after), k);
      RetryConserves(r, d, past);
    } else {
      NoneAfter(db.quarantine, after);
    }
  }

  /** Where no row is next, none is left. */
  lemma NoneAfter(q: map<EventId, Row>, after: Option<Cursor>)
    requires forall k :: !IsNext(q, after, k)
    requires forall k :: k in q ==> q[k].event.id == k
    ensures forall k :: k in q ==> !After(after, At(q[k].event))
  {
    forall k | k in q && After(after, At(q[k].event))
      ensures exists j :: IsNext(q, after, j)
    {
      assert k in Remaining(q, after);
      var least := LeastOf(q, Remaining(q, after));
      assert IsNext(q, after, least);
    }
  }

  lemma {:induction false} LeastOf(q: map<EventId, Row>, ids: set<EventId>) returns (k: EventId)
    requires ids != {} && ids <= q.Keys
    ensures k in ids && forall j :: j in ids ==> !Before(At(q[j].event), At(q[k].event))
    decreases ids
  {
    k :| k in ids;
    if ids != {k} {
      assert ids - {k} != {};
      var other := LeastOf(q, ids - {k});
      if !Before(At(q[k].event), At(q[other].event)) {
        k := other;
      }
    }
  }

  /** The log's events still in the quarantine. */
  function Orphans<B>(db: Db<B>, log: seq<Event>): set<EventId> {
    Ids(log) * db.quarantine.Keys
  }

  lemma StartIsBeforeEverything(log: seq<Event>)
    requires Log(log)
    ensures Passed(log, START) == 0 && Rest(log, START) == log
  {}

  /**
   A clone into a store that has none of the log's events accounts for every one of them: each is
   applied or quarantined and never both, the count it prints and the orphans it leaves add up to
   the log, every orphan is one a resume keeps, and the pull cursor is at the last event.
  */
  lemma FreshCloneConserves<B>(r: Rules<B>, was: Db<B>, log: seq<Event>, saved: Cursor, wasPulled: Cursor,
                               out: Clone<B>, db: Db<B>, checkpoint: Cursor, pulled: Cursor)
    requires Log(log) && Valid(was) && New(ResetDb(was, START), log)
    requires LoopLeaves(r, ResetDb(was, START), saved, wasPulled, START, Rest(log, START), out, db, checkpoint, pulled)
    requires out.Cloned?
    ensures forall id :: id in Ids(log) ==> (id in db.applied <==> id !in db.quarantine)
    ensures out.pulled + |Orphans(db, log)| == |log|
    ensures forall k :: k in Orphans(db, log) ==> db.quarantine[k].source == Pull && db.quarantine[k].cloneOrigin
    ensures pulled == LastOr(log, START)
  {
    var start := ResetDb(was, START);
    StartIsBeforeEverything(log);
    var applied := ApplyAll(r, start, log).db;
    FoldPartitions(r, start, log);
    BatchSettles(r, start, log);
    IdsCount(log);
    HeldIsSeparate(start, applied, log);
    RetryCountsLogRows(r, start, applied, log);
  }

  lemma HeldIsSeparate<B>(start: Db<B>, db: Db<B>, log: seq<Event>)
    requires forall k :: k in start.quarantine ==> start.quarantine[k].source == Push
    requires Grows(start, db) && New(start, log) && Splits(start, db, Ids(log))
    ensures Separate(db)
  {
    forall k | k in db.quarantine && db.quarantine[k].source != Push
      ensures k !in db.applied
    {
      assert k in NewlyHeld(start, db);
      assert k !in NewlyApplied(start, db) && k in Ids(log);
    }
  }

  lemma RetryCountsLogRows<B>(r: Rules<B>, start: Db<B>, db: Db<B>, log: seq<Event>)
    requires Valid(db) && Separate(db) && New(start, log)
    requires forall k :: k in start.quarantine ==> start.quarantine[k].source == Push
    requires Grows(start, db) && AddsOrphansOnly(start, db) && Splits(start, db, Ids(log))
    ensures var t := RetryFrom(r, db, None);
            && (forall id :: id in Ids(log) ==> (id in t.db.applied <==> id !in t.db.quarantine))
            && t.applied + |Orphans(t.db, log)| == |NewlyHeld(start, db)|
            && (forall k :: k in Orphans(t.db, log) ==> t.db.quarantine[k].source == Pull && t.db.quarantine[k].cloneOrigin)
  {
    RetryConserves(r, db, None);
    var t := RetryFrom(r, db, None);
    forall id | id in Ids(log)
      ensures id in t.db.applied <==> id !in t.db.quarantine
      ensures id in t.db.quarantine ==> t.db.quarantine[id].source == Pull && t.db.quarantine[id].cloneOrigin
    {
      assert id in NewlyApplied(start, db) || id in NewlyHeld(start, db);
      assert id in db.applied + db.quarantine.Keys;
    }
    RowsLeft(start, db, t.db, log);
  }

  /** The rows left are the ones that were there before, and the log's orphans. */
  lemma RowsLeft<B>(start: Db<B>, db: Db<B>, t: Db<B>, log: seq<Event>)
    requires forall k :: k in start.quarantine ==> start.quarantine[k].source == Push
    requires New(start, log) && Grows(start, db) && Splits(start, db, Ids(log)) && RetryKeeps(db, t)
    ensures |db.quarantine| - |t.quarantine| == |NewlyHeld(start, db)| - |Orphans(t, log)|
  {
    var was, held, left := start.quarantine.Keys, NewlyHeld(start, db), Orphans(t, log);
    forall k | k in was
      ensures k in db.quarantine.Keys && k in t.quarantine.Keys
    {
      assert db.quarantine[k] == start.quarantine[k];
    }
    Rows(was, held, db.quarantine.Keys, left, t.quarantine.Keys, Ids(log));
  }

  /** Two sets of rows that share `was` differ in size as their remainders do. */
  lemma Rows(was: set<EventId>, held: set<EventId>, rows: set<EventId>, left: set<EventId>, after: set<EventId>, ids: set<EventId>)
    requires was <= after <= rows && held == rows - was && held <= ids && ids !! was && left == ids * after
    ensures |rows| - |after| == |held| - |left|
  {
    assert rows == was + held && after == was + left;
    UnionSize(was, held);
    UnionSize(was, left);
  }

  lemma UnionSize<T>(a: set<T>, b: set<T>)
    requires a !! b
    ensures |a + b| == |a| + |b|
  {}

  // ---- The check pass against the apply ------------------------------------------------------

  /** The events of `es` that are not in the quarantine. */
  function Unheld(es: seq<Event>, q: map<EventId, Row>): seq<Event> {
    if es == [] then []
    else
      var n := |es| - 1;
      Unheld(es[..n], q) + (if es[n].id in q then [] else [es[n]])
  }

  lemma {:induction false} UnheldAgree(es: seq<Event>, a: map<EventId, Row>, b: map<EventId, Row>)
    requires forall i :: 0 <= i < |es| ==> (es[i].id in a <==> es[i].id in b)
    ensures Unheld(es, a) == Unheld(es, b)
  {
    if es != [] {
      UnheldAgree(es[..|es| - 1], a, b);
    }
  }

  lemma UnheldNext(es: seq<Event>, a: map<EventId, Row>, b: map<EventId, Row>, clock: nat)
    requires es != []
    requires forall i :: 0 <= i < |es| - 1 ==> (es[i].id in a <==> es[i].id in b)
    ensures var before, e := RunningClock(Unheld(es[..|es| - 1], a), clock), es[|es| - 1];
            RunningClock(Unheld(es, b), clock) == if e.id in b then before else Max(before, e.lamport)
  {
    var n := |es| - 1;
    UnheldAgree(es[..n], a, b);
    var kept := Unheld(es[..n], b);
    assert (kept + [es[n]])[..|kept|] == kept;
    assert kept + [] == kept;
  }

  /** A new event raises the clock exactly when it is not held. */
  lemma OneEventClock<B>(r: Rules<B>, db: Db<B>, e: Event)
    requires !Settled(db, e.id) && ApplyCloneEvent(r, db, e).Kept?
    ensures var d := ApplyCloneEvent(r, db, e).db;
            d.clock == if e.id in d.quarantine then db.clock else Max(db.clock, e.lamport)
    ensures forall id :: id != e.id ==> (id in ApplyCloneEvent(r, db, e).db.quarantine <==> id in db.quarantine)
  {}

  /** The clock the apply reaches is the running clock of exactly the events it did not hold. */
  lemma {:induction false} ApplyClockIs<B>(r: Rules<B>, start: Db<B>, es: seq<Event>)
    requires Valid(start) && DistinctIds(es) && New(start, es) && ApplyAll(r, start, es).Good?
    ensures var b := ApplyAll(r, start, es);
            b.db.clock == RunningClock(Unheld(es, b.db.quarantine), start.clock)
  {
    if es != [] {
      var n := |es| - 1;
      IdsNext(es);
      ApplyClockIs(r, start, es[..n]);
      FoldPartitions(r, start, es[..n]);
      var before := ApplyAll(r, start, es[..n]).db;
      assert es[n].id in Ids(es);
      assert es[n].id !in NewlyApplied(start, before) && es[n].id !in NewlyHeld(start, before);
      OneEventClock(r, before, es[n]);
      UnheldNext(es, before.quarantine, ApplyAll(r, start, es).db.quarantine, start.clock);
    }
  }

  lemma {:induction false} RunningClockBounds(es: seq<Event>, q: map<EventId, Row>, clock: nat)
    ensures clock <= RunningClock(Unheld(es, q), clock) <= RunningClock(es, clock)
    ensures (forall i :: 0 <= i < |es| ==> es[i].id !in q) ==> RunningClock(Unheld(es, q), clock) == RunningClock(es, clock)
  {
    if es != [] {
      RunningClockBounds(es[..|es| - 1], q, clock);
      UnheldNext(es, q, q, clock);
    }
  }

  /** Passing at a clock is passing at every higher one. */
  lemma CheckIsMonotonic<B>(r: Rules<B>, e: Event, low: nat, high: nat)
    requires low <= high && CheckPulledEvent(r, e, low)
    ensures CheckPulledEvent(r, e, high)
  {}

  /**
   The running clock is at every event at least the clock the apply has there, and the same
   while nothing was held: the check asks no more than the apply does.
  */
  lemma {:induction false} CheckAsksNoMore<B>(r: Rules<B>, start: Db<B>, es: seq<Event>)
    requires Valid(start) && DistinctIds(es) && New(start, es) && ApplyAll(r, start, es).Good?
    ensures ApplyAll(r, start, es).db.clock <= RunningClock(es, start.clock)
    ensures ApplyAll(r, start, es).held == [] ==> ApplyAll(r, start, es).db.clock == RunningClock(es, start.clock)
    ensures FirstRefused(r, es, start.clock).None?
  {
    var b := ApplyAll(r, start, es);
    ApplyClockIs(r, start, es);
    RunningClockBounds(es, b.db.quarantine, start.clock);
    if b.held == [] {
      NothingHeld(r, start, es);
    }
    if es != [] {
      var n := |es| - 1;
      CheckAsksNoMore(r, start, es[..n]);
      CheckIsMonotonic(r, es[n], ApplyAll(r, start, es[..n]).db.clock, RunningClock(es[..n], start.clock));
      FirstRefusedNext(r, es, n, start.clock);
      assert es[..n + 1] == es;
    }
  }

  lemma NothingHeld<B>(r: Rules<B>, start: Db<B>, es: seq<Event>)
    requires Valid(start) && DistinctIds(es) && New(start, es)
    requires ApplyAll(r, start, es).Good? && ApplyAll(r, start, es).held == []
    ensures forall i :: 0 <= i < |es| ==> es[i].id !in ApplyAll(r, start, es).db.quarantine
  {
    FoldPartitions(r, start, es);
    var d := ApplyAll(r, start, es).db;
    assert NewlyHeld(start, d) == {};
    forall i | 0 <= i < |es|
      ensures es[i].id !in d.quarantine
    {
      assert es[i].id in Ids(es);
      assert es[i].id !in start.quarantine.Keys && es[i].id !in NewlyHeld(start, d);
    }
  }

  /** The apply of a longer log stops where the apply of a shorter one did. */
  lemma RefusedAt<B>(r: Rules<B>, start: Db<B>, es: seq<Event>, n: nat)
    requires n < |es| && ApplyAll(r, start, es[..n]).Good?
    requires !CheckPulledEvent(r, es[n], ApplyAll(r, start, es[..n]).db.clock)
    ensures ApplyAll(r, start, es) == Refused(es[n])
  {
    assert es[..n + 1][..n] == es[..n];
    StopIsFinal(r, start, es, n + 1);
  }

  /** The event the apply refuses, and the batch that was good up to it. */
  lemma {:induction false} WhereRefused<B>(r: Rules<B>, start: Db<B>, es: seq<Event>) returns (n: nat)
    requires ApplyAll(r, start, es).Refused?
    ensures n < |es| && ApplyAll(r, start, es[..n]).Good?
    ensures !CheckPulledEvent(r, es[n], ApplyAll(r, start, es[..n]).db.clock)
  {
    var last := |es| - 1;
    if ApplyAll(r, start, es[..last]).Good? {
      n := last;
    } else {
      n := WhereRefused(r, start, es[..last]);
      assert es[..last][..n] == es[..n];
    }
  }

  /** The clock the unheld events before the `n`th leave is too low for the `n`th. */
  ghost predicate RefusedAfterHold<B>(r: Rules<B>, start: Db<B>, log: seq<Event>, n: nat)
    requires n < |log|
  {
    var b := ApplyAll(r, start, log[..n]);
    b.Good? && b.held != [] && !CheckPulledEvent(r, log[n], RunningClock(Unheld(log[..n], b.db.quarantine), start.clock))
  }

  /**
   What the check is worth, for a log the store has nothing of. A log it refuses could not have
   been applied. A log it passes is refused part way exactly when, at some event, an event was
   held before it and the clock of the unheld ones is too low; so never while nothing is held.
  */
  lemma CheckedCloneIsRefusedOnlyAfterAHold<B>(r: Rules<B>, start: Db<B>, log: seq<Event>)
    requires Valid(start) && DistinctIds(log) && New(start, log)
    ensures FirstRefused(r, log, start.clock).Some? ==> !ApplyAll(r, start, log).Good?
    ensures FirstRefused(r, log, start.clock).None? ==>
              (ApplyAll(r, start, log).Refused? <==> exists n :: 0 <= n < |log| && RefusedAfterHold(r, start, log, n))
  {
    if ApplyAll(r, start, log).Good? {
      CheckAsksNoMore(r, start, log);
    }
    if FirstRefused(r, log, start.clock).None? && ApplyAll(r, start, log).Refused? {
      var n := WhereRefused(r, start, log);
      NewPrefix(start, log, n);
      ApplyClockIs(r, start, log[..n]);
      CheckAsksNoMore(r, start, log[..n]);
      FirstRefusedNext(r, log, n, start.clock);
      PassesPrefix(r, log, n + 1, start.clock);
      assert RefusedAfterHold(r, start, log, n);
    }
    forall n | 0 <= n < |log| && RefusedAfterHold(r, start, log, n)
      ensures ApplyAll(r, start, log).Refused?
    {
      NewPrefix(start, log, n);
      ApplyClockIs(r, start, log[..n]);
      RefusedAt(r, start, log, n);
    }
  }

  lemma NewPrefix<B>(start: Db<B>, es: seq<Event>, n: nat)
    requires n <= |es| && New(start, es)
    ensures New(start, es[..n])
  {
    forall id | id in Ids(es[..n])
      ensures id in Ids(es)
    {
      var i :| 0 <= i < n && es[..n][i].id == id;
      assert es[i].id == id;
    }
  }

  // What can be known before the clone: nothing of the dispatch, only the checks.

  /** Every event passes the checks at this clock. */
  ghost predicate AllPass<B>(r: Rules<B>, es: seq<Event>, clock: nat) {
    forall i :: 0 <= i < |es| ==> CheckPulledEvent(r, es[i], clock)
  }

  ghost predicate SameChecks<B>(q: Rules<B>, r: Rules<B>) {
    q.envelope == r.envelope && q.maxJump == r.maxJump
  }

  /** A log whose every event passes at the store's own clock is never refused, whatever is held. */
  lemma {:induction false} NeverRefused<B>(r: Rules<B>, start: Db<B>, es: seq<Event>)
    requires Valid(start) && AllPass(r, es, start.clock)
    ensures !ApplyAll(r, start, es).Refused?
    ensures FirstRefused(r, es, start.clock).None?
    decreases |es|
  {
    if es != [] {
      var n := |es| - 1;
      NeverRefused(r, start, es[..n]);
      if ApplyAll(r, start, es[..n]).Good? {
        BatchSettles(r, start, es[..n]);
        CheckIsMonotonic(r, es[n], start.clock, ApplyAll(r, start, es[..n]).db.clock);
      }
      RunningClockRises(es[..n], start.clock);
      CheckIsMonotonic(r, es[n], start.clock, RunningClock(es[..n], start.clock));
      FirstRefusedNext(r, es, n, start.clock);
      assert es[..n + 1] == es;
    }
  }

  lemma {:induction false} RunningClockRises(es: seq<Event>, clock: nat)
    ensures RunningClock(es, clock) >= clock
  {
    if es != [] {
      RunningClockRises(es[..|es| - 1], clock);
    }
  }

  // Some events the apply never misses a task for: a creation without a parent names none, an
  // unlink or a deletion of what is not there does nothing, and a link to it fails outright. `sure`
  // says which. What else a clone may hold, and the clock it then has, follow from the log alone.

  ghost predicate NeverMisses<B(!new)>(r: Rules<B>, sure: Event -> bool) {
    forall b, e :: sure(e) ==> r.dispatch(b, e) != NotFound
  }

  /** A creation below a parent can always be held, whatever its apply answers. */
  ghost predicate NoChildIsSure(sure: Event -> bool) {
    forall e: Event :: sure(e) && e.op.Create? ==> e.op.parent == []
  }

  /** The rows of a clone that holds all it can: every event not sure, and every one behind those. */
  function Doubtful(q: map<EventId, Row>, es: seq<Event>, sure: Event -> bool): map<EventId, Row> {
    if es == [] then q
    else
      var before, e := Doubtful(q, es[..|es| - 1], sure), es[|es| - 1];
      if Certain(before, e, sure) then before else before[e.id := Row(e, Pull, true)]
  }

  predicate Certain(q: map<EventId, Row>, e: Event, sure: Event -> bool) {
    sure(e) && !Behind(q, e)
  }

  /** The clock of such a clone. */
  function SureClock(q: map<EventId, Row>, es: seq<Event>, sure: Event -> bool, clock: nat): nat {
    if es == [] then clock
    else
      var before, e := es[..|es| - 1], es[|es| - 1];
      var c := SureClock(q, before, sure, clock);
      if Certain(Doubtful(q, before, sure), e, sure) then Max(c, e.lamport) else c
  }

  /** Every event passes the checks at the clock that only the certain events before it leave. */
  ghost predicate PassesWhenSure<B>(r: Rules<B>, start: Db<B>, es: seq<Event>, sure: Event -> bool) {
    forall n :: 0 <= n < |es| ==> CheckPulledEvent(r, es[n], SureClock(start.quarantine, es[..n], sure, start.clock))
  }

  /** A log the store has nothing of. */
  ghost predicate Unread<B>(start: Db<B>, es: seq<Event>) {
    Valid(start) && New(start, es) && DistinctIds(es)
  }

  lemma UnreadPrefix<B>(start: Db<B>, es: seq<Event>, n: nat)
    requires n <= |es| && Unread(start, es)
    ensures Unread(start, es[..n])
  {
    NewPrefix(start, es, n);
  }

  /** The next event of such a log is still new to the store. */
  lemma NotYetSettled<B>(r: Rules<B>, start: Db<B>, es: seq<Event>)
    requires es != [] && Unread(start, es) && ApplyAll(r, start, es[..|es| - 1]).Good?
    ensures !Settled(ApplyAll(r, start, es[..|es| - 1]).db, es[|es| - 1].id)
  {
    var n := |es| - 1;
    var before := ApplyAll(r, start, es[..n]).db;
    UnreadPrefix(start, es, n);
    FoldPartitions(r, start, es[..n]);
    IdsNext(es);
    assert es[n].id in Ids(es);
    assert es[n].id !in NewlyApplied(start, before) && es[n].id !in NewlyHeld(start, before);
  }

  /** ... and new to the doubtful rows. */
  lemma {:induction false} NotYetDoubtful<B>(start: Db<B>, es: seq<Event>, sure: Event -> bool, id: EventId)
    requires id !in start.quarantine && id !in Ids(es)
    ensures id !in Doubtful(start.quarantine, es, sure)
    decreases |es|
  {
    if es != [] {
      var n := |es| - 1;
      assert es[n].id in Ids(es);
      assert Ids(es[..n]) <= Ids(es) by {
        forall i | 0 <= i < n
          ensures es[..n][i].id in Ids(es)
        {
          assert es[i].id in Ids(es);
        }
      }
      NotYetDoubtful(start, es[..n], sure, id);
    }
  }

  ghost predicate RowsIn(a: map<EventId, Row>, b: map<EventId, Row>) {
    forall k :: k in a ==> k in b && b[k] == a[k]
  }

  lemma BehindMore(a: map<EventId, Row>, b: map<EventId, Row>, e: Event)
    requires RowsIn(a, b) && Behind(a, e)
    ensures Behind(b, e)
  {
    var k :| k in a && WaitsFor(e, a[k]);
    assert WaitsFor(e, b[k]);
  }

  /** One event: what a clone holds is doubtful, and what is certain raises its clock. */
  lemma HoldsOnlyDoubtful<B(!new)>(q: Rules<B>, db: Db<B>, doubt: map<EventId, Row>, e: Event, sure: Event -> bool)
    requires NeverMisses(q, sure) && NoChildIsSure(sure) && RowsIn(db.quarantine, doubt)
    requires !Settled(db, e.id) && e.id !in doubt && ApplyCloneEvent(q, db, e).Kept?
    ensures var k := ApplyCloneEvent(q, db, e);
            && RowsIn(k.db.quarantine, if Certain(doubt, e, sure) then doubt else doubt[e.id := Row(e, Pull, true)])
            && k.db.clock >= db.clock && (Certain(doubt, e, sure) ==> k.db.clock >= e.lamport)
  {
    if Behind(db.quarantine, e) {
      BehindMore(db.quarantine, doubt, e);
    } else if sure(e) {
      assert q.dispatch(db.board, e) != NotFound;
    }
  }

  /** Whatever tasks a clone's events find, it holds only doubtful events and has at least that clock. */
  lemma {:induction false} CloneIsAtLeastSure<B(!new)>(q: Rules<B>, start: Db<B>, es: seq<Event>, sure: Event -> bool)
    requires Unread(start, es) && NeverMisses(q, sure) && NoChildIsSure(sure) && ApplyAll(q, start, es).Good?
    ensures RowsIn(ApplyAll(q, start, es).db.quarantine, Doubtful(start.quarantine, es, sure))
    ensures ApplyAll(q, start, es).db.clock >= SureClock(start.quarantine, es, sure, start.clock)
    decreases |es|
  {
    if es != [] {
      var n := |es| - 1;
      UnreadPrefix(start, es, n);
      CloneIsAtLeastSure(q, start, es[..n], sure);
      NotYetSettled(q, start, es);
      IdsNext(es);
      assert es[n].id in Ids(es);
      NotYetDoubtful(start, es[..n], sure, es[n].id);
      HoldsOnlyDoubtful(q, ApplyAll(q, start, es[..n]).db, Doubtful(start.quarantine, es[..n], sure), es[n], sure);
    }
  }

  /** The apply in which only the sure events find what they need. */
  function OnlySureFound<B>(r: Rules<B>, sure: Event -> bool): Rules<B> {
    r.(dispatch := (b, e) => if sure(e) then Applied(b) else NotFound)
  }

  /** The clone of `es` holds exactly the doubtful rows, and has the sure clock. */
  ghost predicate IsSureClone<B>(q: Rules<B>, start: Db<B>, es: seq<Event>, sure: Event -> bool) {
    var b := ApplyAll(q, start, es);
    b.Good? && b.db.quarantine == Doubtful(start.quarantine, es, sure)
    && b.db.clock == SureClock(start.quarantine, es, sure, start.clock)
  }

  lemma OnlySureNext<B>(r: Rules<B>, db: Db<B>, e: Event, sure: Event -> bool)
    requires !Settled(db, e.id)
    ensures var k := ApplyCloneEvent(OnlySureFound(r, sure), db, e);
            && k.Kept?
            && k.db.quarantine == (if Certain(db.quarantine, e, sure) then db.quarantine else db.quarantine[e.id := Row(e, Pull, true)])
            && k.db.clock == if Certain(db.quarantine, e, sure) then Max(db.clock, e.lamport) else db.clock
  {}

  lemma {:induction false} OnlySureIsTheSureClone<B>(r: Rules<B>, start: Db<B>, es: seq<Event>, sure: Event -> bool)
    requires Unread(start, es) && PassesWhenSure(r, start, es, sure)
    ensures IsSureClone(OnlySureFound(r, sure), start, es, sure)
    decreases |es|
  {
    if es != [] {
      var q, n := OnlySureFound(r, sure), |es| - 1;
      UnreadPrefix(start, es, n);
      assert forall k :: 0 <= k < n ==> es[..n][..k] == es[..k] && es[..n][k] == es[k];
      OnlySureIsTheSureClone(r, start, es[..n], sure);
      NotYetSettled(q, start, es);
      OnlySureNext(r, ApplyAll(q, start, es[..n]).db, es[n], sure);
    }
  }

  lemma {:induction false} FirstFailing<B>(r: Rules<B>, start: Db<B>, es: seq<Event>, sure: Event -> bool) returns (n: nat)
    requires !PassesWhenSure(r, start, es, sure)
    ensures n < |es| && PassesWhenSure(r, start, es[..n], sure)
    ensures !CheckPulledEvent(r, es[n], SureClock(start.quarantine, es[..n], sure, start.clock))
    decreases |es|
  {
    var last := |es| - 1;
    assert forall k :: 0 <= k < last ==> es[..last][..k] == es[..k] && es[..last][k] == es[k];
    if PassesWhenSure(r, start, es[..last], sure) {
      n := last;
    } else {
      n := FirstFailing(r, start, es[..last], sure);
      assert es[..last][..n] == es[..n];
    }
  }

  /** A log that fails the condition is refused by a clone in which only the sure events find theirs. */
  lemma OnlySureIsRefused<B(!new)>(r: Rules<B>, start: Db<B>, log: seq<Event>, sure: Event -> bool)
    requires Unread(start, log) && !PassesWhenSure(r, start, log, sure)
    ensures SameChecks(OnlySureFound(r, sure), r) && NeverMisses(OnlySureFound(r, sure), sure)
    ensures ApplyAll(OnlySureFound(r, sure), start, log).Refused?
  {
    var n := FirstFailing(r, start, log, sure);
    UnreadPrefix(start, log, n);
    OnlySureIsTheSureClone(r, start, log[..n], sure);
    RefusedAt(OnlySureFound(r, sure), start, log, n);
  }

  /** And a log that meets it is never refused. */
  lemma PassingWhenSureIsSafe<B(!new)>(q: Rules<B>, start: Db<B>, log: seq<Event>, sure: Event -> bool)
    requires Unread(start, log) && NeverMisses(q, sure) && NoChildIsSure(sure) && PassesWhenSure(q, start, log, sure)
    ensures !ApplyAll(q, start, log).Refused?
  {
    if ApplyAll(q, start, log).Refused? {
      var n := WhereRefused(q, start, log);
      UnreadPrefix(start, log, n);
      CloneIsAtLeastSure(q, start, log[..n], sure);
      CheckIsMonotonic(q, log[n], SureClock(start.quarantine, log[..n], sure, start.clock), ApplyAll(q, start, log[..n]).db.clock);
    }
  }

  /**
   When a clone is safe from a refusal part way, by what the log alone says. All that is known of
   the apply is which events it never misses a task for. Then a log the store has nothing of is
   never refused if and only if every event passes the checks at the clock that the certain events
   before it leave: the sure ones that no doubtful creation before them can hold back. The check
   pass counts all the events before it.
  */
  lemma SafeFromRefusalIff<B(!new)>(r: Rules<B>, start: Db<B>, log: seq<Event>, sure: Event -> bool)
    requires Unread(start, log) && NoChildIsSure(sure)
    ensures (forall q: Rules<B> | SameChecks(q, r) && NeverMisses(q, sure) :: !ApplyAll(q, start, log).Refused?)
            <==> PassesWhenSure(r, start, log, sure)
  {
    if PassesWhenSure(r, start, log, sure) {
      forall q: Rules<B> | SameChecks(q, r) && NeverMisses(q, sure)
        ensures !ApplyAll(q, start, log).Refused?
      {
        assert PassesWhenSure(q, start, log, sure);
        PassingWhenSureIsSafe(q, start, log, sure);
      }
    } else {
      OnlySureIsRefused(r, start, log, sure);
    }
  }

  /** A pass over the whole log is a pass over every part of it. */
  lemma PassesPrefix<B>(r: Rules<B>, es: seq<Event>, n: nat, clock: nat)
    requires n <= |es| && FirstRefused(r, es, clock).None?
    ensures FirstRefused(r, es[..n], clock).None?
  {
    assert es == es[..n] + es[n..];
    if FirstRefused(r, es[..n], clock).Some? {
      RefusedEarly(r, es[..n], es[n..], clock);
    }
  }

  /**
   The hold matters: a log of two events the check passes, whose second the apply refuses. The
   first is held, so the local clock stays at 0 and the second jumps too far.
  */
  lemma CheckCanPassARefusedLog() returns (r: Rules<bool>, start: Db<bool>, log: seq<Event>)
    ensures Valid(start) && Log(log) && New(start, log)
    ensures FirstRefused(r, log, start.clock).None?
    ensures |log| == 2 && ApplyAll(r, start, log) == Refused(log[1])
  {
    r := Rules((b, e) => NotFound, (b, n) => false, e => true, 7);
    start := Db({}, map[], 0, false);
    var first, second := Event(1, 5, [4], 0, Other), Event(2, 12, [5], 0, Other);
    log := [first, second];
    assert log[..1] == [first] && [first][..0] == [] && log[1..] == [second] && [second][1..] == [];
    var b := ApplyAll(r, start, [first]);
    assert ApplyAll(r, start, [first][..0]) == Good(start, []);
    assert !Behind(start.quarantine, first);
    assert b.Good? && b.db.clock == 0;
    RefusedAt(r, start, log, 1);
    assert FirstRefused(r, [second], 5).None?;
  }
}
