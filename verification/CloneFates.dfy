/**
 What becomes of each event of a clone, told from the checks, the answers of the dispatch and the
 tasks the events name: which batches stop, which events are held, and what the last retry applies.
*/
module CloneFates {
  import opened Options
  import opened CloneStore
  import opened HubPages
  import opened CloneLoop
  import opened CloneProperties

  // ---- Why a batch stops -----------------------------------------------------------------------

  /** Too large, too far ahead of the local clock, or malformed. */
  predicate Unacceptable<B>(r: Rules<B>, e: Event, clock: nat) {
    || e.lamport >= 0x20_0000_0000_0000
    || (e.lamport > clock && (r.maxJump <= 0 || e.lamport > clock + r.maxJump))
    || !r.envelope(e)
  }

  /** A creation whose parent has no row: the one failure that only says what the clone lacks. */
  predicate ParentAbsent<B>(r: Rules<B>, b: B, e: Event) {
    e.op.Create? && e.op.parent != [] && !r.hasNode(b, e.op.parent)
  }

  /** A new event, behind nothing, that the store turns down for any other reason. */
  predicate TurnedDown<B>(r: Rules<B>, d: Db<B>, e: Event) {
    && e.id !in d.applied && e.id !in d.quarantine && !Behind(d.quarantine, e)
    && r.dispatch(d.board, e) == Rejected && !ParentAbsent(r, d.board, e)
  }

  ghost predicate StopsAt<B>(r: Rules<B>, db: Db<B>, es: seq<Event>, n: nat)
    requires n < |es|
  {
    var b := ApplyAll(r, db, es[..n]);
    b.Good? && (Unacceptable(r, es[n], b.db.clock) || TurnedDown(r, b.db, es[n]))
  }

  lemma NextStops<B>(r: Rules<B>, db: Db<B>, es: seq<Event>, n: nat)
    requires n < |es| && ApplyAll(r, db, es[..n]).Good?
    ensures var d := ApplyAll(r, db, es[..n]).db;
            ApplyAll(r, db, es[..n + 1]) ==
              if Unacceptable(r, es[n], d.clock) then Refused(es[n])
              else if TurnedDown(r, d, es[n]) then Broken(es[n])
              else ApplyAll(r, db, es[..n + 1])
    ensures !StopsAt(r, db, es, n) ==> ApplyAll(r, db, es[..n + 1]).Good?
  {
    assert es[..n + 1][..n] == es[..n];
  }

  lemma {:induction false} StopsSomewhere<B>(r: Rules<B>, db: Db<B>, es: seq<Event>, n: nat) returns (k: nat)
    requires n <= |es| && !ApplyAll(r, db, es[..n]).Good?
    ensures k < n && StopsAt(r, db, es, k)
    decreases n
  {
    if n > 0 && ApplyAll(r, db, es[..n - 1]).Good? {
      k := n - 1;
      NextStops(r, db, es, k);
    } else {
      assert n > 0 by {
        assert es[..0] == [];
      }
      k := StopsSomewhere(r, db, es, n - 1);
    }
  }

  /**
   A batch stops if and only if one of its events, after a good batch, is unacceptable at the clock
   there or turned down; and that event names the failure, an unacceptable one as a refusal.
  */
  lemma BatchStopsIff<B>(r: Rules<B>, db: Db<B>, es: seq<Event>)
    ensures !ApplyAll(r, db, es).Good? <==> exists n :: 0 <= n < |es| && StopsAt(r, db, es, n)
    ensures forall n :: 0 <= n < |es| && StopsAt(r, db, es, n) ==>
              ApplyAll(r, db, es)
              == if Unacceptable(r, es[n], ApplyAll(r, db, es[..n]).db.clock) then Refused(es[n]) else Broken(es[n])
  {
    assert es[..|es|] == es;
    if !ApplyAll(r, db, es).Good? {
      var n := StopsSomewhere(r, db, es, |es|);
    }
    forall n | 0 <= n < |es| && StopsAt(r, db, es, n)
      ensures ApplyAll(r, db, es)
              == if Unacceptable(r, es[n], ApplyAll(r, db, es[..n]).db.clock) then Refused(es[n]) else Broken(es[n])
    {
      NextStops(r, db, es, n);
      StopIsFinal(r, db, es, n + 1);
    }
  }

  /** Where the store turns down only creations below an absent parent, no log breaks a batch. */
  lemma {:induction false} OrphansNeverBreak<B(!new)>(r: Rules<B>, db: Db<B>, es: seq<Event>)
    requires forall b, e :: r.dispatch(b, e) == Rejected ==> ParentAbsent(r, b, e)
    ensures !ApplyAll(r, db, es).Broken?
  {
    BatchStopsIff(r, db, es);
    if ApplyAll(r, db, es).Broken? {
      var n :| 0 <= n < |es| && StopsAt(r, db, es, n);
      assert !TurnedDown(r, ApplyAll(r, db, es[..n]).db, es[n]);
    }
  }

  // ---- Which events are held -------------------------------------------------------------------

  /** The tasks an event needs, by number. A uid, where it carries one, names its own task instead. */
  function NeededNumbers(e: Event): set<Number> {
    match e.op
    case Create(p) => {p}
    case Link(t) => {t} + OwnNumber(e)
    case Unlink(t) => {t} + OwnNumber(e)
    case Other => OwnNumber(e)
  }

  function OwnNumber(e: Event): set<Number> { if e.uid == 0 then {e.node} else {} }

  /** The task that `c` creates, by its uid or by its number, is one that `e` needs, or above one. */
  ghost predicate Needs(e: Event, c: Event) {
    || (e.uid != 0 && e.uid == c.uid) || (e.uid != 0 && c.uid == 0 && e.uid == c.id)
    || (c.node != [] && exists n :: n in NeededNumbers(e) && c.node <= n)
  }

  /** A creation among the first `n` events that the store still holds, of a task `e` needs. */
  ghost predicate HeldBefore<B>(d: Db<B>, es: seq<Event>, n: nat, e: Event)
    requires n <= |es|
  {
    exists i :: 0 <= i < n && es[i].id in d.quarantine && es[i].op.Create? && Needs(e, es[i])
  }

  lemma WaitsForIffNeeds(e: Event, row: Row)
    ensures WaitsFor(e, row) <==> row.source != Push && row.event.op.Create? && row.event.id != e.id && Needs(e, row.event)
  {
    if row.event.op.Create? && DependsOnNumber(e, row.event.node) {
      var n := if e.op.Create? then e.op.parent
               else if e.op.Link? && OnLine(e.op.target, row.event.node) then e.op.target
               else if e.op.Unlink? && OnLine(e.op.target, row.event.node) then e.op.target
               else e.node;
      assert n in NeededNumbers(e) && row.event.node <= n;
    }
  }

  /** After a good batch into a store without pulled rows, the pulled rows are the log's held events. */
  lemma {:induction false} PulledRowsAreHeld<B>(r: Rules<B>, start: Db<B>, es: seq<Event>)
    requires Unread(start, es) && OnlyPushRows(start) && ApplyAll(r, start, es).Good?
    ensures var q := ApplyAll(r, start, es).db.quarantine;
            && (forall i :: 0 <= i < |es| && es[i].id in q ==> q[es[i].id] == Row(es[i], Pull, true))
            && (forall k :: k in q && q[k].source != Push ==> exists i :: 0 <= i < |es| && k == es[i].id)
    decreases |es|
  {
    if es != [] {
      var n := |es| - 1;
      UnreadPrefix(start, es, n);
      PulledRowsAreHeld(r, start, es[..n]);
      NotYetSettled(r, start, es);
      BatchSettles(r, start, es[..n]);
      var q, next := ApplyAll(r, start, es[..n]).db.quarantine, ApplyAll(r, start, es).db.quarantine;
      forall i | 0 <= i < |es| && es[i].id in next
        ensures next[es[i].id] == Row(es[i], Pull, true)
      {
        assert i < n ==> es[..n][i] == es[i];
      }
      forall k | k in next && next[k].source != Push
        ensures exists i :: 0 <= i < |es| && k == es[i].id
      {
        if k in q && q[k].source != Push {
          var i :| 0 <= i < n && k == es[..n][i].id;
          assert k == es[i].id;
        } else {
          assert k == es[n].id;
        }
      }
    }
  }

  lemma BehindIffHeldBefore<B>(r: Rules<B>, start: Db<B>, es: seq<Event>, n: nat)
    requires n < |es| && Unread(start, es) && OnlyPushRows(start) && ApplyAll(r, start, es[..n]).Good?
    ensures var d := ApplyAll(r, start, es[..n]).db;
            Behind(d.quarantine, es[n]) <==> HeldBefore(d, es, n, es[n])
  {
    var d := ApplyAll(r, start, es[..n]).db;
    UnreadPrefix(start, es, n);
    PulledRowsAreHeld(r, start, es[..n]);
    if Behind(d.quarantine, es[n]) {
      var k :| k in d.quarantine && WaitsFor(es[n], d.quarantine[k]);
      WaitsForIffNeeds(es[n], d.quarantine[k]);
      var i :| 0 <= i < n && k == es[..n][i].id;
      assert es[..n][i] == es[i] && d.quarantine[es[i].id] == Row(es[i], Pull, true);
    }
    if HeldBefore(d, es, n, es[n]) {
      var i :| 0 <= i < n && es[i].id in d.quarantine && es[i].op.Create? && Needs(es[n], es[i]);
      assert es[..n][i] == es[i];
      WaitsForIffNeeds(es[n], d.quarantine[es[i].id]);
    }
  }

  /** The report's line for the next event, when it is held. */
  lemma NextReport<B>(r: Rules<B>, start: Db<B>, es: seq<Event>, n: nat)
    requires n < |es| && ApplyAll(r, start, es[..n]).Good? && ApplyAll(r, start, es[..n + 1]).Good?
    requires !Settled(ApplyAll(r, start, es[..n]).db, es[n].id)
    ensures var b, next := ApplyAll(r, start, es[..n]), ApplyAll(r, start, es[..n + 1]);
            next.held == b.held + (if es[n].id in next.db.quarantine then [Held(es[n], Behind(b.db.quarantine, es[n]))] else [])
  {
    assert es[..n + 1][..n] == es[..n];
  }

  /**
   In a batch that did not stop, an event is held if and only if a creation it needs is held before
   it, or the dispatch has no task for it there; otherwise the dispatch applied it. The report has
   a line for each held event, which says whether it is the first of the two.
  */
  lemma HeldIff<B>(r: Rules<B>, start: Db<B>, es: seq<Event>, n: nat)
    requires n < |es| && Unread(start, es) && OnlyPushRows(start) && ApplyAll(r, start, es).Good?
    ensures ApplyAll(r, start, es[..n]).Good? && ApplyAll(r, start, es[..n + 1]).Good?
    ensures var d, next := ApplyAll(r, start, es[..n]).db, ApplyAll(r, start, es[..n + 1]).db;
            && (es[n].id in ApplyAll(r, start, es).db.quarantine
                <==> HeldBefore(d, es, n, es[n]) || !r.dispatch(d.board, es[n]).Applied?)
            && (es[n].id in ApplyAll(r, start, es).db.applied <==> es[n].id !in ApplyAll(r, start, es).db.quarantine)
            && (es[n].id in ApplyAll(r, start, es).db.applied ==> r.dispatch(d.board, es[n]) == Applied(next.board))
            && (es[n].id in ApplyAll(r, start, es).db.quarantine ==> next.board == d.board)
            && ApplyAll(r, start, es[..n + 1]).held
               == ApplyAll(r, start, es[..n]).held
                  + (if es[n].id in ApplyAll(r, start, es).db.quarantine then [Held(es[n], HeldBefore(d, es, n, es[n]))] else [])
  {
    FrontIsGood(r, start, es, n + 1);
    FrontIsGood(r, start, es[..n + 1], n);
    assert es[..n + 1][..n] == es[..n];
    BehindIffHeldBefore(r, start, es, n);
    UnreadPrefix(start, es, n + 1);
    NotYetSettled(r, start, es[..n + 1]);
    FoldPartitions(r, start, es);
    assert es[n].id in Ids(es);
    var d, next, end := ApplyAll(r, start, es[..n]).db, ApplyAll(r, start, es[..n + 1]).db, ApplyAll(r, start, es).db;
    NextFate(r, d, es[n]);
    NextReport(r, start, es, n);
    assert es[n].id in NewlyApplied(start, end) <==> es[n].id !in NewlyHeld(start, end);
  }

  lemma FrontIsGood<B>(r: Rules<B>, db: Db<B>, es: seq<Event>, n: nat)
    requires Valid(db) && n <= |es| && ApplyAll(r, db, es).Good?
    ensures ApplyAll(r, db, es[..n]).Good? && Grows(ApplyAll(r, db, es[..n]).db, ApplyAll(r, db, es).db)
  {
    assert es == es[..n] + es[n..];
    ApplyAllConcat(r, db, es[..n], es[n..]);
    BatchSettles(r, db, es[..n]);
    BatchSettles(r, ApplyAll(r, db, es[..n]).db, es[n..]);
  }

  lemma NextFate<B>(r: Rules<B>, d: Db<B>, e: Event)
    requires !Settled(d, e.id) && ApplyCloneEvent(r, d, e).Kept?
    ensures var next := ApplyCloneEvent(r, d, e).db;
            && (e.id in next.quarantine <==> Behind(d.quarantine, e) || !r.dispatch(d.board, e).Applied?)
            && (e.id in next.applied <==> e.id !in next.quarantine)
            && (e.id in next.applied ==> r.dispatch(d.board, e) == Applied(next.board))
            && (e.id in next.quarantine ==> next.board == d.board)
  {}

  // ---- What the retry applies ------------------------------------------------------------------

  /** A row whose event can apply now: pulled, acceptable, waiting for nothing, its task there. */
  predicate Ready<B>(r: Rules<B>, db: Db<B>, row: Row) {
    && row.source == Pull && !Unacceptable(r, row.event, db.clock) && !Behind(db.quarantine, row.event)
    && r.dispatch(db.board, row.event).Applied?
  }

  /** A retry takes out exactly the pulled rows that are applied already or ready, and applies those. */
  lemma RetryTakesReady<B>(r: Rules<B>, db: Db<B>, k: EventId)
    requires Valid(db) && k in db.quarantine
    ensures var d, row := RetryOne(r, db, db.quarantine[k]).0, db.quarantine[k];
            && (k !in d.quarantine <==> row.source == Pull && (k in db.applied || Ready(r, db, row)))
            && (k !in db.applied && Ready(r, db, row) ==>
                  d.applied == db.applied + {k} && r.dispatch(db.board, row.event) == Applied(d.board))
            && d.quarantine == (if k in d.quarantine then db.quarantine else db.quarantine - {k})
            && (k in db.applied || !Ready(r, db, row) ==> d.applied == db.applied && d.board == db.board)
  {}

  // `fits` says which boards agree with a set of applied events: those, say, that have a row for
  // every task created in it.

  /** On every board that fits, with the pulled rows before it applied, the row's event applies. */
  ghost predicate AppliesInTurn<B(!new)>(r: Rules<B>, all: map<EventId, Row>, fits: (B, set<EventId>) -> bool, k: EventId)
    requires k in all
  {
    forall b, applied :: fits(b, applied) && EarlierIn(all, k, applied) ==>
      && r.dispatch(b, all[k].event).Applied?
      && fits(r.dispatch(b, all[k].event).board, applied + {k})
  }

  predicate EarlierIn(all: map<EventId, Row>, k: EventId, applied: set<EventId>)
    requires k in all
  {
    forall j :: j in all && all[j].source == Pull && Before(At(all[j].event), At(all[k].event)) ==> j in applied
  }

  /** Each pulled row is acceptable, waits for earlier rows alone, and applies in its turn. */
  ghost predicate CanDrain<B(!new)>(r: Rules<B>, all: map<EventId, Row>, clock: nat, fits: (B, set<EventId>) -> bool) {
    && (forall k :: k in all ==> all[k].event.id == k)
    && (forall k :: k in all && all[k].source == Pull ==>
          !Unacceptable(r, all[k].event, clock) && AppliesInTurn(r, all, fits, k))
    && (forall j, k :: j in all && k in all && WaitsFor(all[k].event, all[j]) ==> Before(At(all[j].event), At(all[k].event)))
  }

  /** The retry past `after`: the pulled rows before it are applied and gone. */
  ghost predicate Draining<B>(all: map<EventId, Row>, clock: nat, fits: (B, set<EventId>) -> bool, db: Db<B>, after: Option<Cursor>) {
    && Valid(db) && db.clock >= clock && fits(db.board, db.applied)
    && (forall k :: k in db.quarantine ==> k in all && db.quarantine[k] == all[k])
    && (forall k :: k in db.quarantine && all[k].source == Pull ==> After(after, At(all[k].event)))
    && (forall k :: k in all && all[k].source == Pull ==> k in db.quarantine || k in db.applied)
  }

  lemma IsReady<B(!new)>(r: Rules<B>, all: map<EventId, Row>, clock: nat, fits: (B, set<EventId>) -> bool, db: Db<B>, after: Option<Cursor>, k: EventId)
    requires CanDrain(r, all, clock, fits) && Draining(all, clock, fits, db, after)
    requires IsNext(db.quarantine, after, k) && all[k].source == Pull && k !in db.applied
    ensures Ready(r, db, all[k]) && fits(r.dispatch(db.board, all[k].event).board, db.applied + {k})
  {
    assert EarlierIn(all, k, db.applied) && AppliesInTurn(r, all, fits, k);
    forall j | j in db.quarantine
      ensures !WaitsFor(all[k].event, db.quarantine[j])
    {
      assert db.quarantine[j] == all[j];
    }
  }

  lemma DrainsOne<B(!new)>(r: Rules<B>, all: map<EventId, Row>, clock: nat, fits: (B, set<EventId>) -> bool, db: Db<B>, after: Option<Cursor>, k: EventId)
    requires CanDrain(r, all, clock, fits) && Draining(all, clock, fits, db, after) && IsNext(db.quarantine, after, k)
    ensures Draining(all, clock, fits, RetryOne(r, db, all[k]).0, Some(At(all[k].event)))
    ensures RetryOne(r, db, all[k]).0.applied >= db.applied
  {
    var d, past := RetryOne(r, db, all[k]).0, Some(At(all[k].event));
    RetryTakesReady(r, db, k);
    if all[k].source == Pull && k !in db.applied {
      IsReady(r, all, clock, fits, db, after, k);
    }
    forall j | j in d.quarantine && all[j].source == Pull
      ensures After(past, At(all[j].event))
    {
      assert j != k && !Before(At(db.quarantine[j].event), At(db.quarantine[k].event));
    }
  }

  lemma {:induction false} DrainsFrom<B(!new)>(r: Rules<B>, all: map<EventId, Row>, clock: nat, fits: (B, set<EventId>) -> bool, db: Db<B>, after: Option<Cursor>)
    requires CanDrain(r, all, clock, fits) && Draining(all, clock, fits, db, after)
    ensures var t := RetryFrom(r, db, after).db;
            && (forall k :: k in t.quarantine ==> t.quarantine[k].source == Push)
            && (forall k :: k in all && all[k].source == Pull ==> k in t.applied)
            && fits(t.board, t.applied)
    decreases |Remaining(db.quarantine, after)|
  {
    if k :| IsNext(db.quarantine, after, k) {
      var d, past := RetryOne(r, db, db.quarantine[k]).0, Some(At(db.quarantine[k].event));
      RetryStep(r, db, after, k);
      RetryOneShrinks(r, db, after, k);
      Smaller(Remaining(d.quarantine, past), Remaining(db.quarantine, after), k);
      DrainsOne(r, all, clock, fits, db, after, k);
      DrainsFrom(r, all, clock, fits, d, past);
    } else {
      NoneAfter(db.quarantine, after);
    }
  }

  /**
   Progress: when every pulled row is acceptable at the store's clock, none waits for a later one,
   and each applies once those before it are applied, the retry applies them all and leaves none.
  */
  lemma RetryDrains<B(!new)>(r: Rules<B>, db: Db<B>, fits: (B, set<EventId>) -> bool)
    requires CanDrain(r, db.quarantine, db.clock, fits) && fits(db.board, db.applied)
    ensures var t := RetryFrom(r, db, None).db;
            && (forall k :: k in t.quarantine ==> t.quarantine[k].source == Push)
            && (forall k :: k in db.quarantine && db.quarantine[k].source == Pull ==> k in t.applied)
            && fits(t.board, t.applied)
  {
    DrainsFrom(r, db.quarantine, db.clock, fits, db, None);
  }
}
