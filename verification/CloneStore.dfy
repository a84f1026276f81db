/**
 The local store a hub clone writes: the applied events, the quarantine, the Lamport clock, and
 the apply of one event and of one batch.

 What an event does to the tasks is not modelled: `Rules` carries any dispatch function, so
 everything below holds of every one of them.
*/
module CloneStore {
  // The rank of an event id in the hub's collation; 0 is the empty id.
  type EventId = nat

  // A dot-notation task number: PROJ-4.2 is [4, 2]; [] names no task.
  type Number = seq<nat>

  datatype Op =
    | Create(parent: Number)
    | Link(target: Number)
    | Unlink(target: Number)
    | Other

  // `uid` is 0 for an event that carries none.
  datatype Event = Event(id: EventId, lamport: nat, node: Number, uid: EventId, op: Op)

  // A keyset position (lamport_clock, event_id).
  datatype Cursor = Cursor(lamport: nat, id: EventId)

  const START := Cursor(0, 0)

  function At(e: Event): Cursor { Cursor(e.lamport, e.id) }

  predicate Before(a: Cursor, b: Cursor) {
    a.lamport < b.lamport || (a.lamport == b.lamport && a.id < b.id)
  }

  // A held push event belongs to this store's own queue; a clone-origin row is an orphan.
  datatype Source = Pull | Push

  datatype Row = Row(event: Event, source: Source, cloneOrigin: bool)

  datatype Db<B> = Db(applied: set<EventId>, quarantine: map<EventId, Row>, clock: nat, board: B)

  ghost predicate Valid<B>(db: Db<B>) {
    forall k :: k in db.quarantine ==> db.quarantine[k].event.id == k
  }

  /** What a reset at the start of the log leaves. */
  ghost predicate OnlyPushRows<B>(db: Db<B>) {
    forall k :: k in db.quarantine ==> db.quarantine[k].source == Push
  }

  // ---- The checks ------------------------------------------------------------------------

  const MAX_LAMPORT: nat := 0x20_0000_0000_0000 // 2^53

  datatype Outcome<B> = Applied(board: B) | NotFound | Rejected

  datatype Rules<!B> = Rules(
    dispatch: (B, Event) -> Outcome<B>,  // the per-operation apply
    hasNode: (B, Number) -> bool,        // whether a task row of that number exists
    envelope: Event -> bool,             // the envelope validation
    maxJump: int)                        // sync.max_lamport_jump

  predicate CheckJump(lamport: nat, local: nat, maxJump: int) {
    lamport <= local || (maxJump > 0 && lamport - local <= maxJump)
  }

  predicate CheckPulledEvent<B>(r: Rules<B>, e: Event, local: nat) {
    e.lamport < MAX_LAMPORT && CheckJump(e.lamport, local, r.maxJump) && r.envelope(e)
  }

  // ---- Dependence on a quarantined creation ------------------------------------------------

  /** `top` is `n` or one of the tasks above it. */
  predicate OnLine(n: Number, top: Number) {
    top != [] && top <= n
  }

  predicate DependsOnNumber(e: Event, n: Number) {
    match e.op
    case Create(p) => OnLine(p, n)
    case Link(t) => OnLine(t, n) || (e.uid == 0 && OnLine(e.node, n))
    case Unlink(t) => OnLine(t, n) || (e.uid == 0 && OnLine(e.node, n))
    case Other => e.uid == 0 && OnLine(e.node, n)
  }

  function CreationUid(c: Event): EventId {
    if c.uid != 0 then c.uid else c.id
  }

  predicate WaitsFor(e: Event, row: Row) {
    && row.source != Push && row.event.op.Create? && row.event.id != e.id
    && ((e.uid != 0 && CreationUid(row.event) == e.uid) || DependsOnNumber(e, row.event.node))
  }

  /** A creation the event depends on is in the quarantine. */
  predicate Behind(q: map<EventId, Row>, e: Event) {
    exists k :: k in q && WaitsFor(e, q[k])
  }

  // ---- One event -------------------------------------------------------------------------

  datatype Attempt<B> = Took(db: Db<B>) | Missing | Failed

  function Max(a: nat, b: nat): nat { if a < b then b else a }

  /** Applies an event once; the clock rises to the event's. */
  function IdempotentApply<B>(r: Rules<B>, db: Db<B>, e: Event): Attempt<B> {
    if e.id in db.applied then Took(db)
    else match r.dispatch(db.board, e)
      case Applied(b) => Took(Db(db.applied + {e.id}, db.quarantine, Max(db.clock, e.lamport), b))
      case NotFound => Missing
      case Rejected => Failed
  }

  datatype Hold = HoldNone | HoldMissing | HoldBehind

  datatype Kept<B> = Kept(db: Db<B>, hold: Hold) | Fatal

  function QuarantineOrphan<B>(db: Db<B>, e: Event): Db<B> {
    db.(quarantine := db.quarantine[e.id := Row(e, Pull, true)])
  }

  /** An apply failure that only says the event's task is not in this clone. */
  predicate OrphanFailure<B>(r: Rules<B>, db: Db<B>, e: Event, a: Attempt<B>) {
    a.Missing? || (a.Failed? && e.op.Create? && e.op.parent != [] && !r.hasNode(db.board, e.op.parent))
  }

  function ApplyCloneEvent<B>(r: Rules<B>, db: Db<B>, e: Event): Kept<B> {
    if e.id in db.quarantine then Kept(db, HoldNone)
    else if Behind(db.quarantine, e) then Kept(QuarantineOrphan(db, e), HoldBehind)
    else
      var a := IdempotentApply(r, db, e);
      if a.Took? then Kept(a.db, HoldNone)
      else if OrphanFailure(r, db, e, a) then Kept(QuarantineOrphan(db, e), HoldMissing)
      else Fatal
  }

  // ---- One batch -------------------------------------------------------------------------

  datatype Held = Held(event: Event, behind: bool)

  datatype Batch<B> =
    | Good(db: Db<B>, held: seq<Held>)
    | Refused(event: Event) // an event fails the checks
    | Broken(event: Event)  // an apply failure that is not an orphan

  function ApplyNext<B>(r: Rules<B>, b: Batch<B>, e: Event): Batch<B> {
    if !b.Good? then b
    else if !CheckPulledEvent(r, e, b.db.clock) then Refused(e)
    else
      var k := ApplyCloneEvent(r, b.db, e);
      if k.Fatal? then Broken(e)
      else Good(k.db, if k.hold == HoldNone then b.held else b.held + [Held(e, k.hold == HoldBehind)])
  }

  /** The events in order, each checked against the clock the ones before it left. */
  function ApplyAll<B>(r: Rules<B>, db: Db<B>, es: seq<Event>): Batch<B> {
    if es == [] then Good(db, [])
    else ApplyNext(r, ApplyAll(r, db, es[..|es| - 1]), es[|es| - 1])
  }

  // ---- What one event and one batch keep -----------------------------------------------------

  predicate Settled<B>(db: Db<B>, id: EventId) {
    id in db.applied || id in db.quarantine
  }

  /** Nothing settled is lost: applied events stay, quarantine rows stay as they were. */
  ghost predicate Grows<B>(a: Db<B>, b: Db<B>) {
    && a.applied <= b.applied && a.clock <= b.clock
    && (forall k :: k in a.quarantine ==> k in b.quarantine && b.quarantine[k] == a.quarantine[k])
  }

  lemma OneEventSettles<B>(r: Rules<B>, db: Db<B>, e: Event)
    requires Valid(db)
    ensures var k := ApplyCloneEvent(r, db, e);
            k.Kept? ==>
              && Valid(k.db) && Grows(db, k.db) && Settled(k.db, e.id)
              && k.db.applied <= db.applied + {e.id}
              && k.db.quarantine.Keys <= db.quarantine.Keys + {e.id}
              && (k.hold != HoldNone <==> e.id !in db.quarantine && e.id in k.db.quarantine)
              && (k.hold != HoldNone ==> k.db.quarantine[e.id] == Row(e, Pull, true) && k.db.applied == db.applied)
              && (e.id !in db.applied ==> !(e.id in k.db.applied && e.id in k.db.quarantine && e.id !in db.quarantine))
  {}

  /** Reading a log in two parts is reading it at once. */
  lemma {:induction false} ApplyAllConcat<B>(r: Rules<B>, db: Db<B>, a: seq<Event>, b: seq<Event>)
    ensures ApplyAll(r, db, a + b)
            == var first := ApplyAll(r, db, a);
               if !first.Good? then first
               else
                 var second := ApplyAll(r, first.db, b);
                 if second.Good? then Good(second.db, first.held + second.held) else second
  {
    if b == [] {
      assert a + b == a;
      var first := ApplyAll(r, db, a);
      assert first.Good? ==> first.held + [] == first.held;
    } else {
      var n := |b| - 1;
      ApplyAllConcat(r, db, a, b[..n]);
      assert (a + b)[..|a + b| - 1] == a + b[..n];
      var first := ApplyAll(r, db, a);
      if first.Good? {
        var second := ApplyAll(r, first.db, b[..n]);
        if second.Good? {
          assert forall h: Held :: first.held + (second.held + [h]) == (first.held + second.held) + [h];
        }
      }
    }
  }

  /** The rows a clone adds are orphans it will keep across a resume. */
  ghost predicate AddsOrphansOnly<B>(a: Db<B>, b: Db<B>) {
    forall k :: k in b.quarantine && k !in a.quarantine ==> b.quarantine[k].source == Pull && b.quarantine[k].cloneOrigin
  }

  ghost predicate AllSettled<B>(db: Db<B>, es: seq<Event>) {
    forall i :: 0 <= i < |es| ==> Settled(db, es[i].id)
  }

  lemma GrowsOn<B>(a: Db<B>, b: Db<B>, c: Db<B>, es: seq<Event>)
    requires Grows(a, b) && Grows(b, c)
    ensures Grows(a, c)
    ensures AddsOrphansOnly(a, b) && AddsOrphansOnly(b, c) ==> AddsOrphansOnly(a, c)
    ensures AllSettled(b, es) ==> AllSettled(c, es)
  {
    if AllSettled(b, es) {
      forall i | 0 <= i < |es|
        ensures Settled(c, es[i].id)
      {
        assert Settled(b, es[i].id);
      }
    }
  }

  /** After a batch every event of it is applied or quarantined, and nothing before is lost. */
  lemma {:induction false} BatchSettles<B>(r: Rules<B>, db: Db<B>, es: seq<Event>)
    requires Valid(db) && ApplyAll(r, db, es).Good?
    ensures Valid(ApplyAll(r, db, es).db) && Grows(db, ApplyAll(r, db, es).db)
    ensures AllSettled(ApplyAll(r, db, es).db, es)
    ensures AddsOrphansOnly(db, ApplyAll(r, db, es).db)
  {
    if es != [] {
      var n := |es| - 1;
      BatchSettles(r, db, es[..n]);
      var before, after := ApplyAll(r, db, es[..n]).db, ApplyAll(r, db, es).db;
      OneEventSettles(r, before, es[n]);
      GrowsOn(db, before, after, es[..n]);
      forall i | 0 <= i < |es|
        ensures Settled(after, es[i].id)
      {
        if i < n {
          assert es[..n][i] == es[i];
        }
      }
    }
  }

  /** The store, whose snapshot each transaction replaces. */
  class Store<B> {
    var db: Db<B>
    var checkpoint: Cursor // the clone's saved position
    var pulled: Cursor     // the pull cursor

    constructor (db: Db<B>, checkpoint: Cursor, pulled: Cursor)
      ensures this.db == db && this.checkpoint == checkpoint && this.pulled == pulled
    {
      this.db, this.checkpoint, this.pulled := db, checkpoint, pulled;
    }

    /** One transaction: every event of the batch, or none of them. */
    method ApplyBatchReport(r: Rules<B>, events: seq<Event>) returns (out: Batch<B>)
      modifies this`db
      ensures out == ApplyAll(r, old(db), events)
      ensures db == if out.Good? then out.db else old(db)
    {
      var tx, held := db, [];
      for i := 0 to |events|
        invariant ApplyAll(r, db, events[..i]) == Good(tx, held)
        invariant db == old(db)
      {
        var e := events[i];
        assert events[..i + 1][..i] == events[..i];
        if !CheckPulledEvent(r, e, tx.clock) {
          StopIsFinal(r, db, events, i + 1);
          return Refused(e);
        }
        var k := ApplyCloneEvent(r, tx, e);
        if k.Fatal? {
          StopIsFinal(r, db, events, i + 1);
          return Broken(e);
        }
        if k.hold != HoldNone {
          held := held + [Held(e, k.hold == HoldBehind)];
        }
        tx := k.db;
      }
      assert events[..|events|] == events;
      db := tx;
      out := Good(tx, held);
    }

    method WriteCloneCheckpoint(c: Cursor)
      modifies this`checkpoint
      ensures checkpoint == c
    {
      checkpoint := c;
    }

    /** What a clone rebuilds: a start at the log's beginning drops every pulled row, a resumed
        one keeps the orphans the committed batches held. Push rows are never dropped. */
    method ResetCloneState(since: Cursor)
      modifies this`db
      ensures db == ResetDb(old(db), since)
      ensures db == old(db).(quarantine := db.quarantine)
      ensures forall k :: k in db.quarantine <==>
                k in old(db).quarantine
                && (old(db).quarantine[k].source == Push || (since != START && old(db).quarantine[k].cloneOrigin))
      ensures forall k :: k in db.quarantine ==> db.quarantine[k] == old(db).quarantine[k]
    {
      db := ResetDb(db, since);
    }
  }

  /** A stopped batch reads no further. */
  lemma {:induction false} StopIsFinal<B>(r: Rules<B>, db: Db<B>, es: seq<Event>, i: nat)
    requires i <= |es| && !ApplyAll(r, db, es[..i]).Good?
    ensures ApplyAll(r, db, es) == ApplyAll(r, db, es[..i])
  {
    ApplyAllConcat(r, db, es[..i], es[i..]);
    assert es == es[..i] + es[i..];
  }

  function ResetDb<B>(db: Db<B>, since: Cursor): Db<B> {
    db.(quarantine := map k | k in db.quarantine
                        && (db.quarantine[k].source == Push || (since != START && db.quarantine[k].cloneOrigin))
                        :: db.quarantine[k])
  }
}
