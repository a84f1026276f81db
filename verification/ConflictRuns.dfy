/**
 What the conflict ledger does over time: one accepted decision, one recorded conflict, and
 whole runs of both. The store appends rows and never rewrites one.
*/
module ConflictRuns {
  import opened Options
  import opened Conflicts

  datatype Resolved = NotFound | IsManual | Checked(verdict: Verdict)

  datatype Listed = Listed(row: Row, unresolved: bool, selfReplay: bool)

  /** The decision row a resolve of `t` appends. */
  function DecisionOn(t: Target, id: nat): Row {
    Row(id, t.node, NullIfEmpty(t.fieldName), t.winner, t.loser, Manual)
  }

  function ListConflicts(events: Events, rows: seq<Row>, upto: nat, nodeFilter: string, all: bool): (out: seq<Listed>)
    requires upto <= |rows|
  {
    if upto == 0 then []
    else
      var rest := ListConflicts(events, rows, upto - 1, nodeFilter, all);
      var r := rows[upto - 1];
      var u := Unresolved(events, rows, r);
      if (nodeFilter == "" || r.node == nodeFilter) && (all || u) then
        rest + [Listed(r, u, SelfReplay(events, r))]
      else rest
  }

  class ConflictStore {
    var rows: seq<Row>
    var events: Events
    var lastId: nat // the AUTOINCREMENT high-water mark

    ghost predicate Valid()
      reads this
    {
      Ledger(rows) && NoEmptyField(rows) && forall r :: r in rows ==> r.id <= lastId
    }

    constructor (events: Events)
      ensures Valid() && rows == [] && this.events == events && lastId == 0
    {
      rows, this.events, lastId := [], events, 0;
    }

    /** The apply engine's insert of a dropped value: a lww or tombstone row. No field is NULL. */
    method Record(node: string, field: string, winner: string, loser: string, resolution: Resolution)
      requires Valid() && resolution != Manual
      modifies this`rows, this`lastId
      ensures Valid() && lastId == old(lastId) + 1
      ensures rows == old(rows) + [Row(lastId, node, NullIfEmpty(field), winner, loser, resolution)]
      ensures forall c :: c in old(rows) ==> (Unresolved(events, rows, c) <==> Unresolved(events, old(rows), c))
      ensures Unresolved(events, rows, rows[|rows| - 1])
              <==> resolution == Lww && !OwnPair(events, rows[|rows| - 1])
    {
      lastId := lastId + 1;
      var n := Row(lastId, node, NullIfEmpty(field), winner, loser, resolution);
      forall c | c in rows
        ensures Unresolved(events, rows + [n], c) <==> Unresolved(events, rows, c)
      {
        RecordingOpensOnlyItself(events, rows, n, c);
      }
      RecordingOpensOnlyItself(events, rows, n, n);
      rows := rows + [n];
    }

    method LookupConflict(id: nat) returns (t: Option<Target>)
      requires Valid()
      ensures t.Some? ==> exists r :: r in rows && r.id == id && t.value == AsTarget(r)
      ensures t.None? ==> forall r :: r in rows ==> r.id != id
    {
      for i := 0 to |rows|
        invariant forall k :: 0 <= k < i ==> rows[k].id != id
      {
        if rows[i].id == id {
          return Some(AsTarget(rows[i]));
        }
      }
      t := None;
    }

    /**
     `mtix sync conflicts resolve`: look the conflict up, refuse a manual row, then check and
     insert in one write transaction. A refusal leaves the ledger as it was.
    */
    method Resolve(id: nat) returns (out: Resolved)
      requires Valid()
      modifies this`rows, this`lastId
      ensures Valid()
      ensures out.NotFound? <==> forall r :: r in old(rows) ==> r.id != id
      ensures out.IsManual? ==> exists r :: r in old(rows) && r.id == id && r.resolution == Manual
      ensures out.Checked? ==>
                exists r :: r in old(rows) && r.id == id && r.resolution != Manual
                            && Decided(events, old(rows), rows, r, lastId, out.verdict)
      ensures if out == Checked(Accepted) then lastId == old(lastId) + 1
              else rows == old(rows) && lastId == old(lastId)
    {
      var t := LookupConflict(id);
      if t.None? {
        return NotFound;
      }
      if t.value.resolution == Manual {
        return IsManual;
      }
      var v := CheckResolveTarget(events, rows, t.value);
      ghost var r :| r in rows && r.id == id && t.value == AsTarget(r);
      if v == Accepted {
        lastId := lastId + 1;
        DecisionIsTaken(events, rows, r, lastId);
        rows := rows + [DecisionOn(t.value, lastId)];
      }
      out := Checked(v);
    }

    method ReadConflicts(nodeFilter: string, all: bool) returns (out: seq<Listed>)
      requires Valid()
      ensures out == ListConflicts(events, rows, |rows|, nodeFilter, all)
    {
      out := [];
      for i := 0 to |rows|
        invariant out == ListConflicts(events, rows, i, nodeFilter, all)
      {
        var r := rows[i];
        var u := Unresolved(events, rows, r);
        if (nodeFilter == "" || r.node == nodeFilter) && (all || u) {
          out := out + [Listed(r, u, SelfReplay(events, r))];
        }
      }
    }
  }

  /**
   `list` shows exactly the unresolved conflicts of the chosen nodes, and with `--all` every row of
   them; a node filter never changes a row's flag.
  */
  lemma {:induction false} ListShowsExactlyUnresolved(events: Events, rows: seq<Row>, upto: nat, nodeFilter: string, all: bool, l: Listed)
    requires upto <= |rows|
    ensures l in ListConflicts(events, rows, upto, nodeFilter, all)
            <==> && l.row in rows[..upto] && (nodeFilter == "" || l.row.node == nodeFilter)
                 && (l.unresolved <==> Unresolved(events, rows, l.row)) && (all || l.unresolved)
                 && (l.selfReplay <==> SelfReplay(events, l.row))
  {
    if upto > 0 {
      ListShowsExactlyUnresolved(events, rows, upto - 1, nodeFilter, all, l);
      assert rows[..upto] == rows[..upto - 1] + [rows[upto - 1]];
    }
  }

  // ---- Which conflicts are self-replays ------------------------------------------------------

  /** The log says another store wrote the event, or does not know it. */
  predicate FromElsewhere(events: Events, e: string) {
    e in events ==> events[e] == AppliedHere
  }

  predicate BothOwn(events: Events, r: Row) {
    !FromElsewhere(events, r.winner) && !FromElsewhere(events, r.loser)
  }

  /**
   What the query and the check say of a conflict, by the events log alone. A conflict between two
   of this store's own events is never open and its resolve always refused. Any other is open
   until a decision on its node and field that is not between own events, and its resolve is
   accepted while no such row, conflict or decision, follows.
  */
  lemma OpenIff(events: Events, rows: seq<Row>, r: Row)
    requires Ledger(rows) && r in rows && r.resolution == Lww && r.field != Some("")
    ensures Unresolved(events, rows, r)
            <==> !BothOwn(events, r) && forall l :: l in rows && SamePair(l, r) && l.id > r.id && l.resolution == Manual ==> BothOwn(events, l)
    ensures Answers(events, rows, AsTarget(r), Accepted)
            <==> !BothOwn(events, r) && forall l :: l in rows && SamePair(l, r) && l.id > r.id && l.resolution != Tombstone ==> BothOwn(events, l)
    ensures BothOwn(events, r) <==> SelfReplay(events, r)
    ensures BothOwn(events, r) ==> Answers(events, rows, AsTarget(r), RefusedSelfReplay)
  {
    SelfReplayIsSeen(events, rows, r);
    LaterIsLaterRow(events, rows, r);
    forall l | l in rows && SamePair(l, r) && l.id > r.id
      ensures l.resolution == Manual ==> (Masks(events, l, r) <==> !BothOwn(events, l))
      ensures LaterRow(events, rows, r, l) <==> l.resolution != Tombstone && !BothOwn(events, l)
    {}
  }

  // ---- One step --------------------------------------------------------------------------

  lemma AppendKeepsLedger(rows: seq<Row>, r: Row)
    requires Ledger(rows) && 0 < r.id && forall x :: x in rows ==> x.id < r.id
    ensures Ledger(rows + [r])
  {}

  /**
   An accepted decision closes the unresolved rows of its own node and field, and no others,
   unless the row it names is a tombstone whose two events are an own pair: that decision is
   inert. Nothing it closes was recorded after the row named.
  */
  lemma DecisionClosesItsPair(events: Events, rows: seq<Row>, r: Row, id: nat, c: Row)
    requires Ledger(rows) && r in rows && r.resolution != Manual && r.field != Some("")
    requires Answers(events, rows, AsTarget(r), Accepted)
    requires forall x :: x in rows ==> x.id < id
    requires c in rows
    ensures Unresolved(events, rows + [DecisionOn(AsTarget(r), id)], c)
            <==> Unresolved(events, rows, c) && (SamePair(c, r) ==> OwnPair(events, r))
    ensures r.resolution == Lww ==> !OwnPair(events, r)
    ensures Unresolved(events, rows, c) && SamePair(c, r) ==> c.id <= r.id
  {
    var d := DecisionOn(AsTarget(r), id);
    var after := rows + [d];
    assert d.field == r.field && OwnPair(events, d) == OwnPair(events, r);
    assert forall m :: m in after <==> m in rows || m == d;
    assert Masks(events, d, c) <==> SamePair(c, r) && !OwnPair(events, r);
    assert d in after;
    PairRowsMembers(events, rows, AsTarget(r));
    assert PairRow(r.id, r.resolution, OwnPair(events, r)) in PairRows(events, rows, AsTarget(r));
    LaterIsLaterRow(events, rows, r);
    if Unresolved(events, rows, c) && SamePair(c, r) && c.id > r.id {
      assert LaterRow(events, rows, r, c);
    }
  }

  /** Nothing of `r`'s node and field is unresolved now, and every other row's flag is as it was. */
  ghost predicate ClosesPair(events: Events, was: seq<Row>, now: seq<Row>, r: Row) {
    && (forall c :: c in now && SamePair(c, r) ==> !Unresolved(events, now, c))
    && (forall c :: c in was && !SamePair(c, r) ==> (Unresolved(events, now, c) <==> Unresolved(events, was, c)))
  }

  /** What an accepted resolve of a conflict does to the flags of all rows. */
  lemma AcceptedConflictClosesPair(events: Events, rows: seq<Row>, r: Row, id: nat)
    requires Ledger(rows) && r in rows && r.resolution == Lww && r.field != Some("")
    requires Answers(events, rows, AsTarget(r), Accepted)
    requires forall x :: x in rows ==> x.id < id
    ensures ClosesPair(events, rows, rows + [DecisionOn(AsTarget(r), id)], r)
  {
    var now := rows + [DecisionOn(AsTarget(r), id)];
    forall c | c in now && SamePair(c, r)
      ensures !Unresolved(events, now, c)
    {
      if c in rows {
        DecisionClosesItsPair(events, rows, r, id, c);
      }
    }
    forall c | c in rows && !SamePair(c, r)
      ensures Unresolved(events, now, c) <==> Unresolved(events, rows, c)
    {
      DecisionClosesItsPair(events, rows, r, id, c);
    }
  }

  /** A resolve of `r` was answered `v`, and the ledger is what that answer leaves. */
  ghost predicate Decided(events: Events, was: seq<Row>, now: seq<Row>, r: Row, id: nat, v: Verdict) {
    && Answers(events, was, AsTarget(r), v)
    && (v == Accepted ==>
          && now == was + [DecisionOn(AsTarget(r), id)]
          && (r.resolution == Lww ==> ClosesPair(events, was, now, r)))
  }

  lemma DecisionIsTaken(events: Events, rows: seq<Row>, r: Row, id: nat)
    requires Ledger(rows) && NoEmptyField(rows) && r in rows && r.resolution != Manual
    requires Answers(events, rows, AsTarget(r), Accepted)
    requires forall x :: x in rows ==> x.id < id
    ensures Decided(events, rows, rows + [DecisionOn(AsTarget(r), id)], r, id, Accepted)
    ensures Ledger(rows + [DecisionOn(AsTarget(r), id)]) && NoEmptyField(rows + [DecisionOn(AsTarget(r), id)])
  {
    AppendKeepsLedger(rows, DecisionOn(AsTarget(r), id));
    if r.resolution == Lww {
      AcceptedConflictClosesPair(events, rows, r, id);
    }
  }

  /** A newly recorded row closes and reopens nothing; only a genuine conflict is unresolved. */
  lemma RecordingOpensOnlyItself(events: Events, rows: seq<Row>, n: Row, c: Row)
    requires Ledger(rows) && n.resolution != Manual
    requires forall x :: x in rows ==> x.id < n.id
    ensures c in rows ==> (Unresolved(events, rows + [n], c) <==> Unresolved(events, rows, c))
    ensures Unresolved(events, rows + [n], n) <==> n.resolution == Lww && !OwnPair(events, n)
  {
    assert forall m :: m in rows + [n] <==> m in rows || m == n;
    forall m | m in rows && Masks(events, m, n)
      ensures false
    {}
  }

  /**
   Why the writers store an empty field as NULL: without it, an accepted decision on an unresolved
   conflict closes the conflict if and only if the stored field is not the empty string.
  */
  lemma WritersMustNormalise(events: Events, rows: seq<Row>, r: Row, id: nat)
    requires Ledger(rows) && r in rows && Unresolved(events, rows, r)
    requires Answers(events, rows, AsTarget(r), Accepted)
    requires forall x :: x in rows ==> x.id < id
    ensures !Unresolved(events, rows + [DecisionOn(AsTarget(r), id)], r) <==> r.field != Some("")
  {
    if r.field != Some("") {
      DecisionClosesItsPair(events, rows, r, id, r);
    } else {
      var d := DecisionOn(AsTarget(r), id);
      assert d.field == None;
      assert forall m :: m in rows + [d] <==> m in rows || m == d;
    }
  }

  // ---- Runs ------------------------------------------------------------------------------

  datatype State = State(rows: seq<Row>, events: Events)

  datatype Op =
    | Record(row: Row)         // a lww or tombstone row, with the next id
    | Resolve(target: Row)     // resolve an existing lww or tombstone row
    | Emit(event: string)      // this store emits a new event
    | Push(event: string)      // a pending event is acknowledged by the hub
    | Mirror(event: string)    // a foreign event is mirrored into the log

  function NextId(rows: seq<Row>): nat {
    if rows == [] then 1 else rows[|rows| - 1].id + 1
  }

  predicate Mentions(rows: seq<Row>, e: string) {
    exists r :: r in rows && (r.winner == e || r.loser == e)
  }

  ghost predicate Enabled(s: State, op: Op) {
    match op
    case Record(r) => r.id == NextId(s.rows) && r.resolution != Manual && r.field != Some("")
    case Resolve(t) => t in s.rows && t.resolution != Manual
    case Emit(e) => e !in s.events && !Mentions(s.rows, e)
    case Push(e) => e in s.events && s.events[e] == Pending
    case Mirror(e) => e !in s.events
  }

  ghost function Step(s: State, op: Op): State
  {
    match op
    case Record(r) => s.(rows := s.rows + [r])
    case Resolve(t) =>
      if Answers(s.events, s.rows, AsTarget(t), Accepted)
      then s.(rows := s.rows + [DecisionOn(AsTarget(t), NextId(s.rows))])
      else s
    case Emit(e) => s.(events := s.events[e := Pending])
    case Push(e) => s.(events := s.events[e := Pushed])
    case Mirror(e) => s.(events := s.events[e := AppliedHere])
  }

  ghost predicate Run(states: seq<State>, ops: seq<Op>) {
    && |states| == |ops| + 1
    && forall i :: 0 <= i < |ops| ==> Enabled(states[i], ops[i]) && states[i + 1] == Step(states[i], ops[i])
  }

  ghost predicate Sound(s: State) {
    Ledger(s.rows) && NoEmptyField(s.rows)
  }

  // A machine that keeps no log: the open conflicts, for each node and field the id of the newest
  // row that takes part, and the events this store emitted.
  type Pair = (string, Option<string>)

  datatype Board = Board(open: set<Row>, mark: map<Pair, nat>, emitted: set<string>)

  function PairOf(r: Row): Pair { (r.node, r.field) }

  function Mark(b: Board, p: Pair): nat {
    if p in b.mark then b.mark[p] else 0
  }

  /** A conflict with an event of another store: not both of its events were emitted here. */
  predicate Genuine(b: Board, r: Row) {
    r.winner !in b.emitted || r.loser !in b.emitted
  }

  function BoardStep(b: Board, op: Op, nextId: nat): Board {
    match op
    case Record(r) =>
      if r.resolution == Lww && Genuine(b, r)
      then b.(open := b.open + {r}, mark := b.mark[PairOf(r) := r.id]) else b
    case Resolve(t) =>
      if !Genuine(b, t) || Mark(b, PairOf(t)) > t.id then b
      else b.(open := (set r | r in b.open && PairOf(r) != PairOf(t)), mark := b.mark[PairOf(t) := nextId])
    case Emit(e) => b.(emitted := b.emitted + {e})
    case Push(_) => b
    case Mirror(_) => b
  }

  function BoardRun(b: Board, states: seq<State>, ops: seq<Op>): Board
    requires |states| >= |ops|
  {
    if ops == [] then b
    else
      var n := |ops| - 1;
      BoardStep(BoardRun(b, states, ops[..n]), ops[n], NextId(states[n].rows))
  }

  /** The events of a log that carry one of the three statuses of an own event. */
  function Emitted(events: Events): set<string> {
    set e | e in events && events[e] in {Pending, Pushed, Conflicted}
  }

  ghost predicate LastLive(events: Events, rows: seq<Row>, p: Pair, id: nat) {
    && (forall r :: r in rows && PairOf(r) == p && !Inert(events, r) && r.resolution != Tombstone ==> r.id <= id)
    && (id == 0 || exists r :: r in rows && PairOf(r) == p && !Inert(events, r) && r.resolution != Tombstone && r.id == id)
  }

  /** The board shows exactly what the query says of the log. */
  ghost predicate Shows(b: Board, s: State) {
    && (forall r :: r in b.open <==> r in s.rows && Unresolved(s.events, s.rows, r))
    && (forall p: Pair :: LastLive(s.events, s.rows, p, Mark(b, p)))
    && b.emitted == Emitted(s.events)
  }

  lemma NextIdIsFresh(rows: seq<Row>)
    requires Ledger(rows)
    ensures 0 < NextId(rows) && forall r :: r in rows ==> r.id < NextId(rows)
  {
    forall r | r in rows
      ensures r.id < NextId(rows)
    {
      var i :| 0 <= i < |rows| && rows[i] == r;
      assert rows[i].id <= rows[|rows| - 1].id;
    }
  }

  lemma EventStepsChangeNoRow(s: State, op: Op)
    requires Enabled(s, op) && (op.Emit? || op.Push? || op.Mirror?)
    ensures forall r :: r in s.rows ==> OwnPair(Step(s, op).events, r) == OwnPair(s.events, r)
    ensures forall r :: r in s.rows ==>
              (Unresolved(Step(s, op).events, s.rows, r) <==> Unresolved(s.events, s.rows, r))
  {
    var e, after := op.event, Step(s, op).events;
    forall r | r in s.rows
      ensures OwnPair(after, r) == OwnPair(s.events, r)
    {
      assert op.Emit? ==> r.winner != e && r.loser != e;
    }
    forall r | r in s.rows
      ensures Unresolved(after, s.rows, r) <==> Unresolved(s.events, s.rows, r)
    {
      forall m | m in s.rows
        ensures Masks(after, m, r) <==> Masks(s.events, m, r)
      {}
    }
  }

  /** A resolve is refused exactly when the board says so. */
  lemma VerdictFromBoard(b: Board, s: State, t: Row)
    requires Sound(s) && Shows(b, s) && t in s.rows && t.resolution != Manual
    ensures Answers(s.events, s.rows, AsTarget(t), Accepted)
            <==> (t.resolution == Lww ==> Genuine(b, t)) && Mark(b, PairOf(t)) <= t.id
  {
    LaterIsLaterRow(s.events, s.rows, t);
    SelfReplayIsSeen(s.events, s.rows, t);
    var m := Mark(b, PairOf(t));
    assert LastLive(s.events, s.rows, PairOf(t), m);
    if m > t.id {
      var r :| r in s.rows && PairOf(r) == PairOf(t) && !Inert(s.events, r) && r.resolution != Tombstone && r.id == m;
      assert LaterRow(s.events, s.rows, t, r);
    }
  }

  lemma BoardFollowsStep(b: Board, s: State, op: Op)
    requires Sound(s) && Shows(b, s) && Enabled(s, op)
    ensures Sound(Step(s, op)) && Shows(BoardStep(b, op, NextId(s.rows)), Step(s, op))
  {
    NextIdIsFresh(s.rows);
    match op
    case Record(r) => BoardFollowsRecord(b, s, r);
    case Resolve(t) => BoardFollowsResolve(b, s, t);
    case _ => BoardFollowsEvent(b, s, op);
  }

  lemma BoardFollowsEvent(b: Board, s: State, op: Op)
    requires Sound(s) && Shows(b, s) && Enabled(s, op) && (op.Emit? || op.Push? || op.Mirror?)
    ensures Sound(Step(s, op)) && Shows(BoardStep(b, op, NextId(s.rows)), Step(s, op))
  {
    var s', b' := Step(s, op), BoardStep(b, op, NextId(s.rows));
    EventStepsChangeNoRow(s, op);
    assert b'.emitted == Emitted(s'.events);
    assert s'.rows == s.rows && b'.mark == b.mark && b'.open == b.open;
    forall p: Pair
      ensures LastLive(s'.events, s'.rows, p, Mark(b', p))
    {
      assert LastLive(s.events, s.rows, p, Mark(b, p));
    }
  }

  lemma BoardFollowsRecord(b: Board, s: State, n: Row)
    requires Sound(s) && Shows(b, s) && Enabled(s, Record(n))
    ensures Sound(Step(s, Record(n))) && Shows(BoardStep(b, Record(n), NextId(s.rows)), Step(s, Record(n)))
  {
    NextIdIsFresh(s.rows);
    AppendKeepsLedger(s.rows, n);
    var after := s.rows + [n];
    var b' := BoardStep(b, Record(n), NextId(s.rows));
    forall r | r in after
      ensures r in b'.open <==> Unresolved(s.events, after, r)
    {
      RecordingOpensOnlyItself(s.events, s.rows, n, r);
    }
    forall p: Pair
      ensures LastLive(s.events, after, p, Mark(b', p))
    {
      assert LastLive(s.events, s.rows, p, Mark(b, p));
      assert n in after;
    }
  }

  lemma BoardFollowsResolve(b: Board, s: State, t: Row)
    requires Sound(s) && Shows(b, s) && Enabled(s, Resolve(t))
    ensures Sound(Step(s, Resolve(t))) && Shows(BoardStep(b, Resolve(t), NextId(s.rows)), Step(s, Resolve(t)))
  {
    NextIdIsFresh(s.rows);
    VerdictFromBoard(b, s, t);
    if Answers(s.events, s.rows, AsTarget(t), Accepted) {
      AppendKeepsLedger(s.rows, DecisionOn(AsTarget(t), NextId(s.rows)));
      DecisionKeepsOpen(b, s, t);
      DecisionKeepsMarks(b, s, t);
    }
  }

  lemma DecisionKeepsOpen(b: Board, s: State, t: Row)
    requires Sound(s) && Shows(b, s) && Enabled(s, Resolve(t)) && Answers(s.events, s.rows, AsTarget(t), Accepted)
    ensures var after := s.rows + [DecisionOn(AsTarget(t), NextId(s.rows))];
            forall c :: c in BoardStep(b, Resolve(t), NextId(s.rows)).open <==> c in after && Unresolved(s.events, after, c)
  {
    NextIdIsFresh(s.rows);
    VerdictFromBoard(b, s, t);
    var id := NextId(s.rows);
    var after := s.rows + [DecisionOn(AsTarget(t), id)];
    forall c | c in after
      ensures c in BoardStep(b, Resolve(t), id).open <==> Unresolved(s.events, after, c)
    {
      if c in s.rows {
        DecisionClosesItsPair(s.events, s.rows, t, id, c);
        assert SamePair(c, t) <==> PairOf(c) == PairOf(t);
      }
    }
  }

  lemma DecisionKeepsMarks(b: Board, s: State, t: Row)
    requires Sound(s) && Shows(b, s) && Enabled(s, Resolve(t)) && Answers(s.events, s.rows, AsTarget(t), Accepted)
    ensures forall p: Pair ::
              LastLive(s.events, s.rows + [DecisionOn(AsTarget(t), NextId(s.rows))], p, Mark(BoardStep(b, Resolve(t), NextId(s.rows)), p))
  {
    NextIdIsFresh(s.rows);
    VerdictFromBoard(b, s, t);
    var d := DecisionOn(AsTarget(t), NextId(s.rows));
    var after := s.rows + [d];
    assert d in after && PairOf(d) == PairOf(t) && OwnPair(s.events, d) == OwnPair(s.events, t);
    forall p: Pair
      ensures LastLive(s.events, after, p, Mark(BoardStep(b, Resolve(t), NextId(s.rows)), p))
    {
      assert LastLive(s.events, s.rows, p, Mark(b, p));
    }
  }

  lemma {:induction false} RunKeepsTheBoard(b: Board, states: seq<State>, ops: seq<Op>)
    requires Run(states, ops) && Sound(states[0]) && Shows(b, states[0])
    ensures Sound(states[|ops|]) && Shows(BoardRun(b, states, ops), states[|ops|])
  {
    if ops != [] {
      var n := |ops| - 1;
      var before := states[..n + 1];
      assert Run(before, ops[..n]);
      RunKeepsTheBoard(b, before, ops[..n]);
      BoardRunPrefix(b, before, states, ops[..n]);
      BoardFollowsStep(BoardRun(b, states, ops[..n]), states[n], ops[n]);
    }
  }

  lemma BoardRunPrefix(b: Board, short: seq<State>, long: seq<State>, ops: seq<Op>)
    requires |ops| <= |short| <= |long| && short == long[..|short|]
    ensures BoardRun(b, short, ops) == BoardRun(b, long, ops)
  {}

  /** The empty ledger shows an empty board. */
  lemma EmptyLedgerIsEmptyBoard(events: Events)
    ensures Sound(State([], events)) && Shows(Board({}, map[], Emitted(events)), State([], events))
  {}

  /**
   Over any run of recorded conflicts, decisions and event acknowledgements from an empty ledger,
   the append-only log and its query are exactly a board of open conflicts: a conflict that not
   only this store's own events made opens one entry, an accepted decision closes all entries of its node and field, and nothing
   else opens, closes or reopens one.
  */
  lemma RunsFollowTheBoard(states: seq<State>, ops: seq<Op>)
    requires Run(states, ops) && states[0].rows == []
    ensures Sound(states[|ops|]) && Shows(BoardRun(Board({}, map[], Emitted(states[0].events)), states, ops), states[|ops|])
  {
    EmptyLedgerIsEmptyBoard(states[0].events);
    RunKeepsTheBoard(Board({}, map[], Emitted(states[0].events)), states, ops);
  }
}
