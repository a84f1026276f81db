/**
 The conflict ledger (sync_conflicts): an append-only log, the declarative rule that says
 which of its rows are unresolved conflicts, and the imperative check that decides whether a
 manual decision may be recorded.

 `Unresolved` is the query's rule; `CheckResolveTarget` and its two loops are the resolve
 transaction's. They are written separately, as in the program, and proved to agree.
*/
module Conflicts {
  import opened Options

  datatype Resolution = Lww | Tombstone | Manual

  // The sync_status of an event in this store's log. Every status but AppliedHere means that
  // this store emitted the event; an event absent from the log was pruned or never held.
  datatype Status = Pending | Pushed | Conflicted | AppliedHere

  type Events = map<string, Status>

  datatype Row = Row(id: nat, node: string, field: Option<string>, winner: string, loser: string,
                     resolution: Resolution)

  // A row as `lookupConflict` returns it: the NULL field has become the empty string.
  datatype Target = Target(id: nat, node: string, fieldName: string, winner: string, loser: string,
                           resolution: Resolution)

  // A row of one node and field, as the resolve check reads it.
  datatype PairRow = PairRow(id: nat, resolution: Resolution, ownPair: bool)

  datatype Verdict =
    | Accepted
    | RefusedSelfReplay
    | ResolveInstead(newest: nat)
    | AlreadyResolved(newest: nat)

  predicate EmittedHere(events: Events, e: string) {
    e in events && events[e] != AppliedHere
  }

  predicate OwnPair(events: Events, r: Row) {
    EmittedHere(events, r.winner) && EmittedHere(events, r.loser)
  }

  predicate SelfReplay(events: Events, r: Row) {
    r.resolution == Lww && OwnPair(events, r)
  }

  /** A self-replay row, or a manual decision taken on an own pair. */
  predicate Inert(events: Events, r: Row) {
    OwnPair(events, r) && (r.resolution == Lww || r.resolution == Manual)
  }

  predicate SamePair(a: Row, b: Row) {
    a.node == b.node && a.field == b.field
  }

  /** Rows appear in conflict_id order; ids start at 1 and are never reused. */
  ghost predicate Ledger(rows: seq<Row>) {
    && (forall i :: 0 <= i < |rows| ==> 0 < rows[i].id)
    && (forall i, j :: 0 <= i < j < |rows| ==> rows[i].id < rows[j].id)
  }

  /** No row stores the empty string as its field (the writers store NULL instead). */
  ghost predicate NoEmptyField(rows: seq<Row>) {
    forall r :: r in rows ==> r.field != Some("")
  }

  // ---- The declarative rule -------------------------------------------------------------

  /** `m` is a decision that masks the conflict `r` in the query. */
  predicate Masks(events: Events, m: Row, r: Row) {
    m.resolution == Manual && SamePair(m, r) && m.id > r.id && !OwnPair(events, m)
  }

  predicate Unresolved(events: Events, rows: seq<Row>, r: Row) {
    && r.resolution == Lww
    && !SelfReplay(events, r)
    && !exists m :: m in rows && Masks(events, m, r)
  }

  // ---- The imperative check --------------------------------------------------------------

  function NullIfEmpty(s: string): Option<string> {
    if s == "" then None else Some(s)
  }

  function FieldText(f: Option<string>): string {
    if f.None? then "" else f.value
  }

  function AsTarget(r: Row): Target {
    Target(r.id, r.node, FieldText(r.field), r.winner, r.loser, r.resolution)
  }

  predicate InPair(r: Row, t: Target) {
    r.node == t.node && r.field == NullIfEmpty(t.fieldName)
  }

  predicate SelfReplayRow(p: PairRow) {
    p.resolution == Lww && p.ownPair
  }

  predicate InertRow(p: PairRow) {
    p.ownPair && (p.resolution == Lww || p.resolution == Manual)
  }

  /** The rows of `t`'s node and field with their own-pair flag, in ledger order. */
  function PairRows(events: Events, rows: seq<Row>, t: Target): (ps: seq<PairRow>) {
    if rows == [] then []
    else
      var rest := PairRows(events, rows[..|rows| - 1], t);
      var r := rows[|rows| - 1];
      if InPair(r, t) then rest + [PairRow(r.id, r.resolution, OwnPair(events, r))] else rest
  }

  method ReadPairRows(events: Events, rows: seq<Row>, t: Target) returns (ps: seq<PairRow>)
    ensures ps == PairRows(events, rows, t)
  {
    ps := [];
    for i := 0 to |rows|
      invariant ps == PairRows(events, rows[..i], t)
    {
      assert rows[..i + 1][..i] == rows[..i];
      if InPair(rows[i], t) {
        ps := ps + [PairRow(rows[i].id, rows[i].resolution, OwnPair(events, rows[i]))];
      }
    }
    assert rows[..|rows|] == rows;
  }

  ghost predicate Later(ps: seq<PairRow>, target: nat) {
    exists p :: p in ps && !InertRow(p) && p.id > target && (p.resolution == Manual || p.resolution == Lww)
  }

  /** `newest` is the greatest id of a conflict that takes part, or `target` when there is none. */
  ghost predicate IsNewest(ps: seq<PairRow>, target: nat, newest: nat) {
    if exists p :: p in ps && !InertRow(p) && p.resolution == Lww && p.id > 0 then
      && (exists p :: p in ps && !InertRow(p) && p.resolution == Lww && p.id == newest)
      && (forall p :: p in ps && !InertRow(p) && p.resolution == Lww ==> p.id <= newest)
    else newest == target
  }

  ghost predicate DecidedAfter(ps: seq<PairRow>, newest: nat) {
    exists p :: p in ps && p.resolution == Manual && !InertRow(p) && p.id > newest
  }

  method LaterDecisions(ps: seq<PairRow>, target: nat)
    returns (later: bool, newest: nat, newestResolved: bool)
    ensures later <==> Later(ps, target)
    ensures IsNewest(ps, target, newest)
    ensures newestResolved <==> DecidedAfter(ps, newest)
  {
    later, newest, newestResolved := false, 0, false;
    for i := 0 to |ps|
      invariant later <==> Later(ps[..i], target)
      invariant forall p :: p in ps[..i] && !InertRow(p) && p.resolution == Lww ==> p.id <= newest
      invariant newest > 0 ==> exists p :: p in ps[..i] && !InertRow(p) && p.resolution == Lww && p.id == newest
    {
      var p := ps[i];
      assert ps[..i + 1] == ps[..i] + [p];
      if !InertRow(p) {
        if p.id > target && (p.resolution == Manual || p.resolution == Lww) {
          later := true;
        }
        if p.resolution == Lww && p.id > newest {
          newest := p.id;
        }
      }
    }
    assert ps[..|ps|] == ps;
    if newest == 0 {
      newest := target;
    }
    for i := 0 to |ps|
      invariant newestResolved <==> DecidedAfter(ps[..i], newest)
    {
      assert ps[..i + 1] == ps[..i] + [ps[i]];
      if ps[i].resolution == Manual && !InertRow(ps[i]) && ps[i].id > newest {
        newestResolved := true;
      }
    }
  }

  /** What the check answers for a target, stated without its loops. */
  ghost predicate Answers(events: Events, rows: seq<Row>, t: Target, v: Verdict) {
    var ps := PairRows(events, rows, t);
    if NamesSelfReplay(ps, t.id) then v == RefusedSelfReplay
    else if !Later(ps, t.id) then v == Accepted
    else match v
      case ResolveInstead(n) => IsNewest(ps, t.id, n) && n > t.id && !DecidedAfter(ps, n)
      case AlreadyResolved(n) => IsNewest(ps, t.id, n) && !(n > t.id && !DecidedAfter(ps, n))
      case _ => false
  }

  method CheckResolveTarget(events: Events, rows: seq<Row>, t: Target) returns (v: Verdict)
    ensures Answers(events, rows, t, v)
  {
    var ps := ReadPairRows(events, rows, t);
    for i := 0 to |ps|
      invariant forall k :: 0 <= k < i ==> !(SelfReplayRow(ps[k]) && ps[k].id == t.id)
    {
      if SelfReplayRow(ps[i]) && ps[i].id == t.id {
        return RefusedSelfReplay;
      }
    }
    var later, newest, newestResolved := LaterDecisions(ps, t.id);
    if !later {
      return Accepted;
    }
    if newest > t.id && !newestResolved {
      return ResolveInstead(newest);
    }
    return AlreadyResolved(newest);
  }

  // ---- The check against the rule --------------------------------------------------------

  lemma PairRowsMembers(events: Events, rows: seq<Row>, t: Target)
    ensures forall p :: p in PairRows(events, rows, t) ==>
              exists r :: r in rows && InPair(r, t) && p == PairRow(r.id, r.resolution, OwnPair(events, r))
    ensures forall r :: r in rows && InPair(r, t) ==>
              PairRow(r.id, r.resolution, OwnPair(events, r)) in PairRows(events, rows, t)
  {
    if rows != [] {
      var init, last := rows[..|rows| - 1], rows[|rows| - 1];
      assert rows == init + [last];
      PairRowsMembers(events, init, t);
    }
  }

  lemma IdsAreUnique(rows: seq<Row>, a: Row, b: Row)
    requires Ledger(rows) && a in rows && b in rows && a.id == b.id
    ensures a == b
  {
    var i :| 0 <= i < |rows| && rows[i] == a;
    var j :| 0 <= j < |rows| && rows[j] == b;
  }

  ghost predicate NamesSelfReplay(ps: seq<PairRow>, target: nat) {
    exists p :: p in ps && SelfReplayRow(p) && p.id == target
  }

  /** The check refuses a target as a self-replay row exactly when it is one. */
  lemma SelfReplayIsSeen(events: Events, rows: seq<Row>, r: Row)
    requires Ledger(rows) && r in rows && r.field != Some("")
    ensures NamesSelfReplay(PairRows(events, rows, AsTarget(r)), r.id) <==> SelfReplay(events, r)
  {
    var t := AsTarget(r);
    var ps := PairRows(events, rows, t);
    PairRowsMembers(events, rows, t);
    assert PairRow(r.id, r.resolution, OwnPair(events, r)) in ps;
    if p :| p in ps && SelfReplayRow(p) && p.id == r.id {
      var o :| o in rows && InPair(o, t) && p == PairRow(o.id, o.resolution, OwnPair(events, o));
      IdsAreUnique(rows, o, r);
    }
  }

  /** A non-inert conflict or decision of `t`'s node and field recorded after it. */
  ghost predicate LaterRow(events: Events, rows: seq<Row>, r: Row, later: Row) {
    && later in rows && SamePair(later, r) && later.id > r.id
    && !Inert(events, later) && later.resolution != Tombstone
  }

  lemma LaterIsLaterRow(events: Events, rows: seq<Row>, r: Row)
    requires r.field != Some("")
    ensures Later(PairRows(events, rows, AsTarget(r)), r.id) <==> exists l :: LaterRow(events, rows, r, l)
  {
    var t := AsTarget(r);
    var ps := PairRows(events, rows, t);
    PairRowsMembers(events, rows, t);
    if Later(ps, r.id) {
      var p :| p in ps && !InertRow(p) && p.id > r.id && (p.resolution == Manual || p.resolution == Lww);
      var l :| l in rows && InPair(l, t) && p == PairRow(l.id, l.resolution, OwnPair(events, l));
      assert LaterRow(events, rows, r, l);
    }
    if l :| LaterRow(events, rows, r, l) {
      assert PairRow(l.id, l.resolution, OwnPair(events, l)) in ps;
    }
  }

  /** `r` is the newest conflict of its node and field that is not a self-replay row. */
  ghost predicate NewestConflict(events: Events, rows: seq<Row>, r: Row) {
    forall l :: l in rows && SamePair(l, r) && l.resolution == Lww && !SelfReplay(events, l) ==> l.id <= r.id
  }

  /**
   The check refines the query: a conflict is accepted exactly when the query calls it
   unresolved and it is the newest conflict of its node and field.
  */
  lemma AcceptedIffUnresolvedAndNewest(events: Events, rows: seq<Row>, r: Row, v: Verdict)
    requires Ledger(rows) && r in rows && r.resolution == Lww && r.field != Some("")
    requires Answers(events, rows, AsTarget(r), v)
    ensures v == Accepted <==> Unresolved(events, rows, r) && NewestConflict(events, rows, r)
  {
    SelfReplayIsSeen(events, rows, r);
    LaterIsLaterRow(events, rows, r);
    if !SelfReplay(events, r) {
      NothingLaterIff(events, rows, r);
    }
  }

  /** No later row that takes part: nothing masks the conflict, and it is the newest. */
  lemma NothingLaterIff(events: Events, rows: seq<Row>, r: Row)
    requires r.resolution == Lww && !SelfReplay(events, r)
    ensures !(exists l :: LaterRow(events, rows, r, l)) <==> Unresolved(events, rows, r) && NewestConflict(events, rows, r)
  {
    if l :| LaterRow(events, rows, r, l) {
      assert l.resolution == Manual ==> Masks(events, l, r);
      assert l.resolution == Lww ==> !SelfReplay(events, l);
    } else {
      forall m | m in rows
        ensures !Masks(events, m, r)
      {
        assert !LaterRow(events, rows, r, m);
      }
      forall l | l in rows && SamePair(l, r) && l.resolution == Lww && !SelfReplay(events, l)
        ensures l.id <= r.id
      {
        assert !LaterRow(events, rows, r, l);
      }
    }
  }

  /**
   The advice of a refusal is right. The row it says to resolve instead would be accepted in
   the same ledger; and when it says the target is already resolved, the node and field have
   nothing unresolved.
  */
  lemma RefusalAdviceIsRight(events: Events, rows: seq<Row>, r: Row, v: Verdict)
    requires Ledger(rows) && r in rows && r.field != Some("")
    requires Answers(events, rows, AsTarget(r), v)
    ensures v.ResolveInstead? ==>
              exists n :: n in rows && n.id == v.newest && SamePair(n, r) && n.resolution == Lww
                          && n.field != Some("") && Answers(events, rows, AsTarget(n), Accepted)
    ensures v.AlreadyResolved? ==>
              forall c :: c in rows && SamePair(c, r) ==> !Unresolved(events, rows, c)
  {
    var t := AsTarget(r);
    var ps := PairRows(events, rows, t);
    PairRowsMembers(events, rows, t);
    if v.ResolveInstead? {
      var p :| p in ps && !InertRow(p) && p.resolution == Lww && p.id == v.newest;
      var n :| n in rows && InPair(n, t) && p == PairRow(n.id, n.resolution, OwnPair(events, n));
      NewestIsAccepted(events, rows, r, n, v.newest);
    } else if v.AlreadyResolved? {
      DecisionCoversPair(events, rows, r, v.newest);
    }
  }

  lemma NewestIsAccepted(events: Events, rows: seq<Row>, r: Row, n: Row, newest: nat)
    requires Ledger(rows) && r in rows && r.field != Some("")
    requires n in rows && SamePair(n, r) && n.resolution == Lww && !SelfReplay(events, n) && n.id == newest
    requires IsNewest(PairRows(events, rows, AsTarget(r)), r.id, newest)
    requires !DecidedAfter(PairRows(events, rows, AsTarget(r)), newest)
    ensures Answers(events, rows, AsTarget(n), Accepted)
  {
    var ps := PairRows(events, rows, AsTarget(r));
    PairRowsMembers(events, rows, AsTarget(r));
    SamePairSameRows(events, rows, AsTarget(r), AsTarget(n));
    LaterIsLaterRow(events, rows, n);
    SelfReplayIsSeen(events, rows, n);
    forall l
      ensures !LaterRow(events, rows, n, l)
    {
      if l in rows && InPair(l, AsTarget(r)) {
        assert PairRow(l.id, l.resolution, OwnPair(events, l)) in ps;
      }
    }
  }

  lemma SamePairSameRows(events: Events, rows: seq<Row>, t: Target, u: Target)
    requires t.node == u.node && t.fieldName == u.fieldName
    ensures PairRows(events, rows, t) == PairRows(events, rows, u)
  {
    if rows != [] {
      SamePairSameRows(events, rows[..|rows| - 1], t, u);
    }
  }

  lemma DecisionCoversPair(events: Events, rows: seq<Row>, r: Row, newest: nat)
    requires Ledger(rows) && r in rows && r.field != Some("")
    requires Later(PairRows(events, rows, AsTarget(r)), r.id)
    requires IsNewest(PairRows(events, rows, AsTarget(r)), r.id, newest)
    requires newest > r.id ==> DecidedAfter(PairRows(events, rows, AsTarget(r)), newest)
    ensures forall c :: c in rows && SamePair(c, r) ==> !Unresolved(events, rows, c)
  {
    var ps := PairRows(events, rows, AsTarget(r));
    PairRowsMembers(events, rows, AsTarget(r));
    LaterIsLaterRow(events, rows, r);
    // Some decision that takes part is later than the newest conflict.
    assert DecidedAfter(ps, newest) by {
      if newest <= r.id {
        var l :| LaterRow(events, rows, r, l);
        assert PairRow(l.id, l.resolution, OwnPair(events, l)) in ps;
      }
    }
    var p :| p in ps && p.resolution == Manual && !InertRow(p) && p.id > newest;
    var m :| m in rows && InPair(m, AsTarget(r)) && p == PairRow(m.id, m.resolution, OwnPair(events, m));
    forall c | c in rows && SamePair(c, r)
      ensures !Unresolved(events, rows, c)
    {
      if c.resolution == Lww && !SelfReplay(events, c) {
        assert PairRow(c.id, c.resolution, OwnPair(events, c)) in ps;
        assert Masks(events, m, c);
      }
    }
  }

  // ---- Rows that take no part ------------------------------------------------------------

  /** The ledger without its self-replay rows and the decisions taken on own pairs. */
  function WithoutInert(events: Events, rows: seq<Row>): (live: seq<Row>) {
    if rows == [] then []
    else
      var rest := WithoutInert(events, rows[..|rows| - 1]);
      var r := rows[|rows| - 1];
      if Inert(events, r) then rest else rest + [r]
  }

  lemma WithoutInertMembers(events: Events, rows: seq<Row>)
    ensures forall r :: r in WithoutInert(events, rows) <==> r in rows && !Inert(events, r)
  {
    if rows != [] {
      assert rows == rows[..|rows| - 1] + [rows[|rows| - 1]];
      WithoutInertMembers(events, rows[..|rows| - 1]);
    }
  }

  /**
   Self-replay rows and the decisions on them change no answer for any other row: the query's
   flag and the check's verdict, with the id it names, are those of the ledger without them.
   Two ledgers that differ only in such rows therefore answer alike.
  */
  lemma InertRowsTakeNoPart(events: Events, rows: seq<Row>, r: Row)
    requires r in rows && !Inert(events, r)
    ensures Unresolved(events, rows, r) <==> Unresolved(events, WithoutInert(events, rows), r)
    ensures Ledger(rows) && r.field != Some("") ==>
              forall v :: Answers(events, rows, AsTarget(r), v)
                          <==> Answers(events, WithoutInert(events, rows), AsTarget(r), v)
  {
    WithoutInertMembers(events, rows);
    forall m | m in rows && Masks(events, m, r)
      ensures m in WithoutInert(events, rows)
    {}
    if Ledger(rows) && r.field != Some("") {
      SameAnswers(events, rows, r);
    }
  }

  lemma SameAnswers(events: Events, rows: seq<Row>, r: Row)
    requires Ledger(rows) && r in rows && !Inert(events, r) && r.field != Some("")
    ensures forall v :: Answers(events, rows, AsTarget(r), v)
                        <==> Answers(events, WithoutInert(events, rows), AsTarget(r), v)
  {
    var t := AsTarget(r);
    var ps, qs := PairRows(events, rows, t), PairRows(events, WithoutInert(events, rows), t);
    InertPairRows(events, rows, t);
    SelfReplayIsSeen(events, rows, r);
    assert !NamesSelfReplay(ps, r.id) && !NamesSelfReplay(qs, r.id);
    SameLivePairRows(ps, qs, t.id);
  }

  lemma InertPairRows(events: Events, rows: seq<Row>, t: Target)
    ensures forall p :: p in PairRows(events, WithoutInert(events, rows), t)
                        <==> p in PairRows(events, rows, t) && !InertRow(p)
  {
    WithoutInertMembers(events, rows);
    PairRowsMembers(events, rows, t);
    PairRowsMembers(events, WithoutInert(events, rows), t);
    forall p | p in PairRows(events, rows, t) && !InertRow(p)
      ensures p in PairRows(events, WithoutInert(events, rows), t)
    {
      var r :| r in rows && InPair(r, t) && p == PairRow(r.id, r.resolution, OwnPair(events, r));
    }
  }

  lemma SameLivePairRows(ps: seq<PairRow>, qs: seq<PairRow>, target: nat)
    requires forall p :: p in qs <==> p in ps && !InertRow(p)
    ensures Later(ps, target) <==> Later(qs, target)
    ensures forall n :: IsNewest(ps, target, n) <==> IsNewest(qs, target, n)
    ensures forall n :: DecidedAfter(ps, n) <==> DecidedAfter(qs, n)
  {}
}
