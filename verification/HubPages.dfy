/**
 Keyset paging over the hub's event log: the page the hub serves after a cursor, and the
 client's own cursor, which refuses a page that does not move forward.
*/
module HubPages {
  import opened CloneStore

  /** The hub's log in (lamport_clock, event_id) order; no event has the empty id. */
  ghost predicate Log(log: seq<Event>) {
    && (forall i :: 0 <= i < |log| ==> log[i].id > 0)
    && (forall i, j :: 0 <= i < j < |log| ==> Before(At(log[i]), At(log[j])) && log[i].id != log[j].id)
  }

  /** How many events of the log are at or before `after`. */
  function Passed(log: seq<Event>, after: Cursor): (n: nat)
    ensures n <= |log|
  {
    if log != [] && !Before(after, At(log[0])) then 1 + Passed(log[1..], after) else 0
  }

  lemma {:induction false} PassedSplits(log: seq<Event>, after: Cursor)
    requires Log(log)
    ensures forall i :: 0 <= i < |log| ==> (i < Passed(log, after) <==> !Before(after, At(log[i])))
  {
    if log != [] && !Before(after, At(log[0])) {
      PassedSplits(log[1..], after);
      forall i | 0 <= i < |log|
        ensures i < Passed(log, after) <==> !Before(after, At(log[i]))
      {
        if i > 0 {
          assert log[1..][i - 1] == log[i];
        }
      }
    }
  }

  /** A cursor at the `n`th event has passed exactly `n` events. */
  lemma PassedAt(log: seq<Event>, n: nat)
    requires Log(log) && 0 < n <= |log|
    ensures Passed(log, At(log[n - 1])) == n
  {
    PassedSplits(log, At(log[n - 1]));
    assert n - 1 < Passed(log, At(log[n - 1]));
    assert n < |log| ==> Before(At(log[n - 1]), At(log[n]));
  }

  function Min(a: nat, b: nat): nat { if a < b then a else b }

  /** Up to `limit` events strictly after `after`, in order, and whether more follow. */
  method PullEvents(log: seq<Event>, after: Cursor, limit: nat) returns (events: seq<Event>, hasMore: bool)
    requires limit > 0
    ensures var k := Passed(log, after);
            && |events| == Min(limit, |log| - k) && events == log[k..k + |events|]
            && (hasMore <==> |log| - k > limit)
  {
    var k := Passed(log, after);
    events := log[k..k + Min(limit, |log| - k)];
    hasMore := |log| - k > limit;
  }

  // ---- The client's cursor -----------------------------------------------------------------

  datatype Place = Place(at: Cursor, passed: set<EventId>)

  function StartAt(c: Cursor): Place { Place(c, {c.id}) }

  /** A page ending at `end` is progress: a higher clock, or an id not yet paged past. */
  predicate Progress(p: Place, end: Cursor) {
    end.lamport > p.at.lamport || (end.lamport == p.at.lamport && end.id !in p.passed)
  }

  function MoveTo(p: Place, end: Cursor): Place {
    Place(end, (if end.lamport > p.at.lamport then {} else p.passed) + {end.id})
  }

  class PageCursor {
    var at: Cursor
    var passed: set<EventId>

    constructor (start: Cursor)
      ensures Place(at, passed) == StartAt(start)
    {
      at, passed := start, {start.id};
    }

    /** Move to the end of a page, or refuse it and stay. */
    method Advance(events: seq<Event>) returns (ok: bool)
      requires events != []
      modifies this
      ensures var was, end := Place(old(at), old(passed)), At(events[|events| - 1]);
              && ok == Progress(was, end)
              && Place(at, passed) == if ok then MoveTo(was, end) else was
    {
      var end := At(events[|events| - 1]);
      if end.lamport > at.lamport {
        passed := {};
      } else if end.lamport == at.lamport && end.id !in passed {
      } else {
        return false;
      }
      passed := passed + {end.id};
      at := end;
      ok := true;
    }
  }

  /** Every id paged past at this clock is at or before the cursor, as on an honest hub. */
  ghost predicate Behaved(p: Place) {
    forall id :: id in p.passed ==> id <= p.at.id
  }

  /** A hub that serves its pages in keyset order is never refused. */
  lemma HonestPageAdvances(log: seq<Event>, p: Place, n: nat)
    requires Log(log) && Behaved(p) && Passed(log, p.at) < n <= |log|
    ensures Progress(p, At(log[n - 1])) && Behaved(MoveTo(p, At(log[n - 1])))
  {
    PassedSplits(log, p.at);
  }

  /** The events after a cursor. */
  function Rest(log: seq<Event>, after: Cursor): seq<Event> {
    log[Passed(log, after)..]
  }

  /** A client at this place still has `todo` to read. */
  ghost predicate Reading(log: seq<Event>, todo: seq<Event>, at: Cursor, passed: set<EventId>) {
    todo == Rest(log, at) && Behaved(Place(at, passed))
  }

  /**
   The next page after the cursor, and the cursor moved to its end; an empty page leaves it.
   The page is the first of the events still to read, up to `limit` of them.
  */
  method NextPage(log: seq<Event>, page: PageCursor, limit: nat, ghost todo: seq<Event>)
    returns (events: seq<Event>, hasMore: bool, ok: bool, ghost left: seq<Event>)
    requires Log(log) && limit > 0 && Reading(log, todo, page.at, page.passed)
    modifies page
    ensures todo == events + left
    ensures events == [] || !hasMore ==> left == []
    ensures ok && Reading(log, left, page.at, page.passed)
    ensures page.at == if events == [] then old(page.at) else At(events[|events| - 1])
  {
    events, hasMore := PullEvents(log, page.at, limit);
    left := todo[|events|..];
    if |events| == 0 {
      return events, hasMore, true, left;
    }
    PageIsTaken(log, todo, Place(page.at, page.passed), |events|);
    ok := page.Advance(events);
  }

  /** Taking the first `m` events still to read is progress, and leaves the rest to read. */
  lemma PageIsTaken(log: seq<Event>, todo: seq<Event>, p: Place, m: nat)
    requires Log(log) && Reading(log, todo, p.at, p.passed) && 0 < m <= |todo|
    ensures var end := At(todo[m - 1]);
            Progress(p, end) && Reading(log, todo[m..], end, MoveTo(p, end).passed)
  {
    var n := Passed(log, p.at);
    assert todo[m - 1] == log[n + m - 1];
    HonestPageAdvances(log, p, n + m);
    PassedAt(log, n + m);
    assert todo[m..] == log[n + m..];
  }

  /** The place after every page end in `ends` was accepted. */
  function Walk(start: Cursor, ends: seq<Cursor>): Place {
    if ends == [] then StartAt(start) else MoveTo(Walk(start, ends[..|ends| - 1]), ends[|ends| - 1])
  }

  ghost predicate AllAccepted(start: Cursor, ends: seq<Cursor>) {
    forall n :: 0 <= n < |ends| ==> Progress(Walk(start, ends[..n]), ends[n])
  }

  /** The place remembers `c`: a page may not end there again. */
  predicate Remembers(p: Place, c: Cursor) {
    c.lamport <= p.at.lamport && (c.lamport == p.at.lamport ==> c.id in p.passed)
  }

  lemma RememberedIsRefused(p: Place, c: Cursor, end: Cursor)
    requires Remembers(p, c) && Progress(p, end)
    ensures c != end && c.lamport <= end.lamport
    ensures Remembers(MoveTo(p, end), c) && Remembers(MoveTo(p, end), end)
  {}

  ghost predicate RemembersAll(p: Place, start: Cursor, ends: seq<Cursor>) {
    Remembers(p, start) && forall c :: c in ends ==> Remembers(p, c)
  }

  lemma NextIsRemembered(p: Place, start: Cursor, ends: seq<Cursor>, end: Cursor)
    requires RemembersAll(p, start, ends) && Progress(p, end)
    ensures RemembersAll(MoveTo(p, end), start, ends + [end])
  {
    RememberedIsRefused(p, start, end);
    forall c | c in ends + [end]
      ensures Remembers(MoveTo(p, end), c)
    {
      if c in ends {
        RememberedIsRefused(p, c, end);
      }
    }
  }

  lemma {:induction false} WalkRemembers(start: Cursor, ends: seq<Cursor>)
    requires AllAccepted(start, ends)
    ensures RemembersAll(Walk(start, ends), start, ends)
  {
    if ends != [] {
      var n := |ends| - 1;
      var init := ends[..n];
      assert forall k :: 0 <= k < n ==> init[..k] == ends[..k];
      WalkRemembers(start, init);
      NextIsRemembered(Walk(start, init), start, init, ends[n]);
      assert init + [ends[n]] == ends;
    }
  }

  /**
   Whatever pages a hub serves, a paging loop never accepts a page end twice nor returns to its
   start, and its clock never falls: over a log with finitely many events every loop stops.
  */
  lemma NoEndIsAcceptedTwice(start: Cursor, ends: seq<Cursor>)
    requires AllAccepted(start, ends)
    ensures forall i, j :: 0 <= i < j < |ends| ==> ends[i] != ends[j] && ends[i].lamport <= ends[j].lamport
    ensures forall j :: 0 <= j < |ends| ==> ends[j] != start && start.lamport <= ends[j].lamport
  {
    forall j | 0 <= j < |ends|
      ensures ends[j] != start && start.lamport <= ends[j].lamport
      ensures forall i :: 0 <= i < j ==> ends[i] != ends[j] && ends[i].lamport <= ends[j].lamport
    {
      EndIsNew(start, ends, j);
    }
  }

  lemma EndIsNew(start: Cursor, ends: seq<Cursor>, j: nat)
    requires AllAccepted(start, ends) && j < |ends|
    ensures ends[j] != start && start.lamport <= ends[j].lamport
    ensures forall i :: 0 <= i < j ==> ends[i] != ends[j] && ends[i].lamport <= ends[j].lamport
  {
    var earlier := ends[..j];
    assert forall k :: 0 <= k < j ==> earlier[..k] == ends[..k];
    WalkRemembers(start, earlier);
    RememberedIsRefused(Walk(start, earlier), start, ends[j]);
    forall i | 0 <= i < j
      ensures ends[i] != ends[j] && ends[i].lamport <= ends[j].lamport
    {
      RememberedIsRefused(Walk(start, earlier), earlier[i], ends[j]);
    }
  }
}
