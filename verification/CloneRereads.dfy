/**
 A page read twice. A clone that dies between a page's commit and its checkpoint leaves the page
 applied and the checkpoint before it, so the resume reads the page again.
*/
module CloneRereads {
  import opened Options
  import opened CloneStore
  import opened HubPages
  import opened CloneLoop
  import opened CloneProperties
  import opened CloneRuns

  /** An applied event that depends on a creation now in the quarantine. */
  ghost predicate HeldAgain<B>(db: Db<B>, e: Event) {
    e.id !in db.quarantine && Behind(db.quarantine, e)
  }

  /** Reading settled events again applies nothing: at most it holds some. */
  lemma {:induction false} ReadingAgain<B>(r: Rules<B>, db: Db<B>, es: seq<Event>)
    requires AllSettled(db, es) && AllPass(r, es, db.clock)
    ensures var b := ApplyAll(r, db, es);
            && b.Good? && b.db == db.(quarantine := b.db.quarantine) && Grows(db, b.db)
            && (forall i :: 0 <= i < |es| && HeldAgain(db, es[i]) ==> es[i].id in b.db.quarantine)
            && ((forall i :: 0 <= i < |es| ==> !HeldAgain(db, es[i])) ==> b == Good(db, []))
  {
    if es != [] {
      var n := |es| - 1;
      var init, e := es[..n], es[n];
      assert forall i :: 0 <= i < n ==> init[i] == es[i];
      assert forall i :: 0 <= i < n ==> Settled(db, es[i].id);
      ReadingAgain(r, db, init);
      var d := ApplyAll(r, db, init).db;
      assert Settled(db, e.id) && CheckPulledEvent(r, e, d.clock);
      if Behind(db.quarantine, e) {
        var k :| k in db.quarantine && WaitsFor(e, db.quarantine[k]);
        assert WaitsFor(e, d.quarantine[k]);
      }
    }
  }

  /** Every event of a page that committed passes the checks at the clock the page left. */
  lemma {:induction false} CommittedPagePasses<B>(r: Rules<B>, db: Db<B>, es: seq<Event>)
    requires Valid(db) && ApplyAll(r, db, es).Good?
    ensures AllPass(r, es, ApplyAll(r, db, es).db.clock)
    decreases |es|
  {
    if es != [] {
      var n := |es| - 1;
      CommittedPagePasses(r, db, es[..n]);
      BatchSettles(r, db, es[..n]);
      var before, after := ApplyAll(r, db, es[..n]).db.clock, ApplyAll(r, db, es).db.clock;
      OneEventSettles(r, ApplyAll(r, db, es[..n]).db, es[n]);
      forall i | 0 <= i < |es|
        ensures CheckPulledEvent(r, es[i], after)
      {
        assert i < n ==> es[..n][i] == es[i];
        CheckIsMonotonic(r, es[i], before, after);
      }
    }
  }

  /** The reset of a resume from a saved checkpoint finds nothing of a running clone to drop. */
  lemma SavedResetKeeps<B>(db: Db<B>, c: Cursor)
    requires CloneRows(db) && c != START
    ensures ResetDb(db, c) == db
  {}

  lemma PageKeepsCloneRows<B>(r: Rules<B>, db: Db<B>, es: seq<Event>)
    requires Valid(db) && CloneRows(db) && ApplyAll(r, db, es).Good?
    ensures CloneRows(ApplyAll(r, db, es).db)
  {
    BatchSettles(r, db, es);
    var d := ApplyAll(r, db, es).db;
    forall k | k in d.quarantine && d.quarantine[k].source == Pull
      ensures d.quarantine[k].cloneOrigin
    {
      assert k in db.quarantine ==> d.quarantine[k] == db.quarantine[k];
    }
  }

  /**
   After a saved checkpoint, reading a committed page again changes nothing if and only if no
   applied event of the page depends on a creation that the page left in the quarantine.
  */
  lemma ReadingAgainIsANoOpIff<B>(r: Rules<B>, db: Db<B>, es: seq<Event>, saved: Cursor)
    requires Valid(db) && CloneRows(db) && ApplyAll(r, db, es).Good? && saved != START
    ensures var d := ApplyAll(r, db, es).db;
            ApplyAll(r, ResetDb(d, saved), es) == Good(d, []) <==> forall i :: 0 <= i < |es| ==> !HeldAgain(d, es[i])
  {
    var d := ApplyAll(r, db, es).db;
    PageKeepsCloneRows(r, db, es);
    SavedResetKeeps(d, saved);
    BatchSettles(r, db, es);
    CommittedPagePasses(r, db, es);
    ReadingAgain(r, d, es);
  }

  // ---- An applied event that is held again -----------------------------------------------------

  /** Two pages, the second of them read again after a crash before its checkpoint. */
  function RereadActs<B>(n: nat, m: nat): seq<Act<B>> {
    [FreshStart, ApplyPage(n), SaveCheckpoint, ApplyPage(m), Crash, ResumeStart, ApplyPage(m)]
  }

  lemma PageStep<B>(r: Rules<B>, log: seq<Event>, s: State<B>, acts: seq<Act<B>>, i: nat, page: seq<Event>, d: Db<B>)
    requires i < |acts| && acts[i] == ApplyPage(|page|) && s.pc.Looping? && page != []
    requires |page| <= |Rest(log, s.pc.at)| && Rest(log, s.pc.at)[..|page|] == page
    requires ApplyAll(r, s.db, page).Good? && ApplyAll(r, s.db, page).db == d
    ensures Exec(r, log, s, acts[i..]) == Exec(r, log, s.(db := d, pc := Committed(At(page[|page| - 1]))), acts[i + 1..])
  {
    OneStep(r, log, s, acts, i, s.(db := d, pc := Committed(At(page[|page| - 1]))));
  }

  ghost predicate Becomes<B>(r: Rules<B>, a: Db<B>, page: seq<Event>, b: Db<B>) {
    ApplyAll(r, a, page).Good? && ApplyAll(r, a, page).db == b
  }

  lemma FirstTwoPages<B>(r: Rules<B>, log: seq<Event>, d0: Db<B>, d1: Db<B>, d2: Db<B>, a: seq<Event>, b: seq<Event>, acts: seq<Act<B>>)
    requires a != [] && b != [] && acts == RereadActs(|a|, |b|)
    requires d0.applied == {} && ResetDb(d0, START) == d0 && FirstRefused(r, Rest(log, START), d0.clock).None?
    requires |a| <= |Rest(log, START)| && Rest(log, START)[..|a|] == a && Rest(log, At(a[|a| - 1])) == b
    requires Becomes(r, d0, a, d1) && Becomes(r, d1, b, d2)
    ensures Exec(r, log, State(d0, START, START, Idle), acts) == Exec(r, log, State(d2, At(a[|a| - 1]), START, Idle), acts[5..])
  {
    var c, end := At(a[|a| - 1]), At(b[|b| - 1]);
    assert acts == acts[0..] && b[..|b|] == b;
    OneStep(r, log, State(d0, START, START, Idle), acts, 0, State(d0, START, START, Looping(START)));
    PageStep(r, log, State(d0, START, START, Looping(START)), acts, 1, a, d1);
    OneStep(r, log, State(d1, START, START, Committed(c)), acts, 2, State(d1, c, START, Looping(c)));
    PageStep(r, log, State(d1, c, START, Looping(c)), acts, 3, b, d2);
    OneStep(r, log, State(d2, c, START, Committed(end)), acts, 4, State(d2, c, START, Idle));
  }

  lemma SecondPageAgain<B>(r: Rules<B>, log: seq<Event>, d2: Db<B>, d3: Db<B>, c: Cursor, a: seq<Event>, b: seq<Event>, acts: seq<Act<B>>)
    requires b != [] && acts == RereadActs(|a|, |b|)
    requires Rest(log, c) == b && FirstRefused(r, b, d2.clock).None? && ResetDb(d2, c) == d2
    requires Becomes(r, d2, b, d3)
    ensures Exec(r, log, State(d2, c, START, Idle), acts[5..]) == Ended(State(d3, c, START, Committed(At(b[|b| - 1]))))
  {
    assert acts[7..] == [] && b[..|b|] == b;
    OneStep(r, log, State(d2, c, START, Idle), acts, 5, State(d2, c, START, Looping(c)));
    PageStep(r, log, State(d2, c, START, Looping(c)), acts, 6, b, d3);
  }

  // The board says whether the task 4 is there: its creation applies, and so does an unlink of it,
  // whose edge may be missing. Nothing else finds its task.

  function OneTask(b: bool, e: Event): Outcome<bool> {
    match e.op
    case Create(p) => if p == [] then Applied(true) else NotFound
    case Unlink(_) => if b then Applied(b) else NotFound
    case _ => NotFound
  }

  function OneTaskRules(): Rules<bool> {
    Rules(OneTask, (b: bool, n: Number) => b && n == [4], (e: Event) => true, 10)
  }

  // The task 4, the removal of its edge to 9.1, and the creation of 9.1, whose parent is missing.
  const TASK := Event(1, 1, [4], 0, Create([]))
  const UNLINK := Event(2, 2, [4], 0, Unlink([9, 1]))
  const ORPHAN := Event(3, 3, [9, 1], 0, Create([9]))

  const BLANK: Db<bool> := Db({}, map[], 0, false)
  const FIRST_READ: Db<bool> := Db({1}, map[], 1, true)
  const ALL_READ: Db<bool> := Db({1, 2}, map[3 := Row(ORPHAN, Pull, true)], 2, true)
  const READ_AGAIN: Db<bool> := ALL_READ.(quarantine := ALL_READ.quarantine[2 := Row(UNLINK, Pull, true)])

  lemma OneApplies(db: Db<bool>, e: Event)
    requires CheckPulledEvent(OneTaskRules(), e, db.clock)
    ensures ApplyAll(OneTaskRules(), db, [e]) == ApplyNext(OneTaskRules(), Good(db, []), e)
  {
    assert [e][..0] == [];
  }

  lemma TwoApply(db: Db<bool>, e: Event, f: Event)
    ensures ApplyAll(OneTaskRules(), db, [e, f]) == ApplyNext(OneTaskRules(), ApplyNext(OneTaskRules(), Good(db, []), e), f)
  {
    assert [e, f][..1] == [e] && [e][..0] == [];
    assert ApplyAll(OneTaskRules(), db, [e]) == ApplyNext(OneTaskRules(), ApplyAll(OneTaskRules(), db, []), e);
  }

  lemma ThreePages()
    ensures var r := OneTaskRules();
            && Becomes(r, BLANK, [TASK], FIRST_READ)
            && Becomes(r, FIRST_READ, [UNLINK, ORPHAN], ALL_READ)
            && Becomes(r, ALL_READ, [UNLINK, ORPHAN], READ_AGAIN)
  {
    OneApplies(BLANK, TASK);
    assert BLANK.applied + {1} == {1};
    assert !Behind(BLANK.quarantine, TASK);
    TwoApply(FIRST_READ, UNLINK, ORPHAN);
    assert !Behind(FIRST_READ.quarantine, UNLINK) && !Behind(FIRST_READ.quarantine, ORPHAN);
    assert FIRST_READ.applied + {2} == {1, 2};
    TwoApply(ALL_READ, UNLINK, ORPHAN);
    assert WaitsFor(UNLINK, ALL_READ.quarantine[3]);
  }

  const LOG := [TASK, UNLINK, ORPHAN]

  lemma TwoPagesOfIt()
    ensures Log(LOG) && Rest(LOG, START) == LOG && LOG[..1] == [TASK]
    ensures Rest(LOG, At(TASK)) == [UNLINK, ORPHAN] && [UNLINK, ORPHAN][..2] == [UNLINK, ORPHAN]
  {
    StartIsBeforeEverything(LOG);
    PassedAt(LOG, 1);
  }

  lemma ChecksPassIt()
    ensures FirstRefused(OneTaskRules(), LOG, 0).None? && FirstRefused(OneTaskRules(), [UNLINK, ORPHAN], 2).None?
  {
    NeverRefused(OneTaskRules(), BLANK, LOG);
    NeverRefused(OneTaskRules(), ALL_READ, [UNLINK, ORPHAN]);
  }

  /** Everything the run below needs of it. */
  lemma OneTaskPages() returns (r: Rules<bool>, log: seq<Event>, d0: Db<bool>, d1: Db<bool>, d2: Db<bool>, d3: Db<bool>, a: seq<Event>, b: seq<Event>)
    ensures log == a + b && |a| == 1 && |b| == 2 && Log(log)
    ensures d0.applied == {} && d0.quarantine == map[] && ResetDb(d0, START) == d0 && FirstRefused(r, Rest(log, START), d0.clock).None?
    ensures Rest(log, START) == log && Rest(log, At(a[0])) == b
    ensures Becomes(r, d0, a, d1) && Becomes(r, d1, b, d2) && Becomes(r, d2, b, d3)
    ensures FirstRefused(r, b, d2.clock).None? && ResetDb(d2, At(a[0])) == d2
    ensures b[0].op.Unlink? && b[0].id in d3.applied && b[0].id in d3.quarantine
  {
    TwoPagesOfIt();
    ChecksPassIt();
    ThreePages();
    r, log, d0, d1, d2, d3, a, b := OneTaskRules(), LOG, BLANK, FIRST_READ, ALL_READ, READ_AGAIN, [TASK], [UNLINK, ORPHAN];
    assert ResetDb(BLANK, START) == BLANK;
  }

  /**
   After a checkpoint it does happen: a second page applies an unlink, then holds the creation of
   the task that the unlink names. The clone stops before the second checkpoint, the resume reads
   the page again, and the unlink ends both applied and quarantined.
  */
  lemma AppliedEventCanBeHeldAgain() returns (r: Rules<bool>, log: seq<Event>, s: State<bool>, last: State<bool>)
    ensures Log(log) && |log| == 3 && log[1].op.Unlink? && Empty(s)
    ensures Exec(r, log, s, RereadActs(1, 2)) == Ended(last)
    ensures log[1].id in last.db.applied && log[1].id in last.db.quarantine
  {
    var d0, d1, d2, d3, a, b;
    r, log, d0, d1, d2, d3, a, b := OneTaskPages();
    var acts: seq<Act<bool>> := RereadActs(|a|, |b|);
    s := State(d0, START, START, Idle);
    FirstTwoPages(r, log, d0, d1, d2, a, b, acts);
    SecondPageAgain(r, log, d2, d3, At(a[0]), a, b, acts);
    last := State(d3, At(a[0]), START, Committed(At(b[1])));
  }

  // ---- The first page --------------------------------------------------------------------------

  /** Every pulled row is for one of these events, and that event is not applied. */
  ghost predicate HeldAmong<B>(db: Db<B>, es: seq<Event>, applied: set<EventId>) {
    forall k :: k in db.quarantine && db.quarantine[k].source == Pull ==>
      k !in applied && exists j :: 0 <= j < |es| && db.quarantine[k] == Row(es[j], Pull, true)
  }

  /** What the first reading of `es` held before the event `es[n]`, it still holds after it. */
  lemma HeldBefore<B>(r: Rules<B>, start: Db<B>, es: seq<Event>, n: nat, j: nat)
    requires Valid(start) && DistinctIds(es) && New(start, es) && ApplyAll(r, start, es).Good?
    requires j < n <= |es| && es[j].id !in ApplyAll(r, start, es).db.applied
    ensures ApplyAll(r, start, es[..n]).Good?
    ensures var d := ApplyAll(r, start, es[..n]).db;
            es[j].id in d.quarantine && d.quarantine[es[j].id] == Row(es[j], Pull, true)
  {
    PrefixIsGood(r, start, es, n);
    PrefixIsGood(r, start, es[..n], j + 1);
    NewPrefix(start, es, j);
    assert es[..n][..j + 1] == es[..j + 1] && es[..j + 1][..j] == es[..j];
    PrefixIsGood(r, start, es[..j + 1], j);
    BatchSettles(r, start, es[..j]);
    var before := ApplyAll(r, start, es[..j]).db;
    NextIsNew(r, start, es, j);
    OneEventSettles(r, before, es[j]);
  }

  lemma PrefixIsGood<B>(r: Rules<B>, db: Db<B>, es: seq<Event>, n: nat)
    requires Valid(db) && n <= |es| && ApplyAll(r, db, es).Good?
    ensures ApplyAll(r, db, es[..n]).Good? && Grows(ApplyAll(r, db, es[..n]).db, ApplyAll(r, db, es).db)
  {
    assert es == es[..n] + es[n..];
    ApplyAllConcat(r, db, es[..n], es[n..]);
    BatchSettles(r, db, es[..n]);
    BatchSettles(r, ApplyAll(r, db, es[..n]).db, es[n..]);
  }

  lemma NextIsNew<B>(r: Rules<B>, start: Db<B>, es: seq<Event>, n: nat)
    requires n < |es| && Valid(start) && DistinctIds(es) && New(start, es) && ApplyAll(r, start, es[..n]).Good?
    ensures !Settled(ApplyAll(r, start, es[..n]).db, es[n].id)
  {
    NewPrefix(start, es, n);
    FoldPartitions(r, start, es[..n]);
    var before := ApplyAll(r, start, es[..n]).db;
    assert es[n].id in Ids(es) && es[n].id !in Ids(es[..n]);
    assert es[n].id !in NewlyApplied(start, before) && es[n].id !in NewlyHeld(start, before);
  }

  /** The first reading applied no event behind a creation it held. */
  lemma AppliedWasNotBehind<B>(r: Rules<B>, start: Db<B>, es: seq<Event>, n: nat, j: nat)
    requires Valid(start) && DistinctIds(es) && New(start, es) && ApplyAll(r, start, es).Good?
    requires j < n < |es| && es[j].id !in ApplyAll(r, start, es).db.applied
    requires es[n].id in ApplyAll(r, start, es).db.applied
    ensures !WaitsFor(es[n], Row(es[j], Pull, true))
  {
    HeldBefore(r, start, es, n, j);
    var before := ApplyAll(r, start, es[..n]).db;
    NextIsNew(r, start, es, n);
    assert es[..n + 1][..n] == es[..n];
    PrefixIsGood(r, start, es, n + 1);
    if WaitsFor(es[n], Row(es[j], Pull, true)) {
      assert WaitsFor(es[n], before.quarantine[es[j].id]);
      assert ApplyCloneEvent(r, before, es[n]).hold == HoldBehind;
      BatchSettles(r, start, es[..n + 1]);
      HeldStaysHeld(r, start, es, n);
    }
  }

  lemma HeldStaysHeld<B>(r: Rules<B>, start: Db<B>, es: seq<Event>, n: nat)
    requires n < |es| && Valid(start) && DistinctIds(es) && New(start, es) && ApplyAll(r, start, es).Good?
    requires ApplyAll(r, start, es[..n + 1]).Good? && es[n].id in ApplyAll(r, start, es[..n + 1]).db.quarantine
    ensures es[n].id !in ApplyAll(r, start, es).db.applied
  {
    PrefixIsGood(r, start, es, n + 1);
    FoldPartitions(r, start, es);
    var d := ApplyAll(r, start, es).db;
    assert es[n].id in Ids(es);
    assert es[n].id in NewlyHeld(start, d);
    assert es[n].id !in NewlyApplied(start, d);
  }

  lemma AppliedIsNotBehind<B>(r: Rules<B>, start: Db<B>, es: seq<Event>, n: nat, db: Db<B>)
    requires Valid(start) && Valid(db) && DistinctIds(es) && New(start, es) && n < |es| && ApplyAll(r, start, es).Good?
    requires HeldAmong(db, es[..n], ApplyAll(r, start, es).db.applied) && es[n].id in ApplyAll(r, start, es).db.applied
    ensures !Behind(db.quarantine, es[n])
  {
    forall k | k in db.quarantine
      ensures !WaitsFor(es[n], db.quarantine[k])
    {
      if db.quarantine[k].source == Pull {
        var j :| 0 <= j < n && db.quarantine[k] == Row(es[..n][j], Pull, true);
        AppliedWasNotBehind(r, start, es, n, j);
      }
    }
  }

  /**
   Before the first checkpoint it cannot happen. A resume then starts from the log's beginning, and
   its reset drops every row that the page held, so reading the page again holds no event that the
   first reading applied.
  */
  lemma {:induction false} FirstPageHoldsNoAppliedEvent<B>(r: Rules<B>, start: Db<B>, es: seq<Event>, n: nat)
    requires Valid(start) && OnlyPushRows(start) && DistinctIds(es) && New(start, es) && n <= |es|
    requires ApplyAll(r, start, es).Good?
    requires ApplyAll(r, ResetDb(ApplyAll(r, start, es).db, START), es[..n]).Good?
    ensures HeldAmong(ApplyAll(r, ResetDb(ApplyAll(r, start, es).db, START), es[..n]).db, es[..n], ApplyAll(r, start, es).db.applied)
    decreases n
  {
    var d := ApplyAll(r, start, es).db;
    var again := ResetDb(d, START);
    if n > 0 {
      BatchSettles(r, start, es);
      assert Valid(again);
      assert es[..n][..n - 1] == es[..n - 1];
      FirstPageHoldsNoAppliedEvent(r, start, es, n - 1);
      BatchSettles(r, again, es[..n - 1]);
      NextIsHeldAmong(r, start, es, n - 1, ApplyAll(r, again, es[..n - 1]).db);
    }
  }

  lemma NextIsHeldAmong<B>(r: Rules<B>, start: Db<B>, es: seq<Event>, n: nat, before: Db<B>)
    requires Valid(start) && DistinctIds(es) && New(start, es) && n < |es| && ApplyAll(r, start, es).Good?
    requires Valid(before) && ApplyAll(r, start, es).db.applied <= before.applied
    requires HeldAmong(before, es[..n], ApplyAll(r, start, es).db.applied) && ApplyCloneEvent(r, before, es[n]).Kept?
    ensures HeldAmong(ApplyCloneEvent(r, before, es[n]).db, es[..n + 1], ApplyAll(r, start, es).db.applied)
  {
    var upTo, applied := es[..n + 1], ApplyAll(r, start, es).db.applied;
    assert upTo[..n] == es[..n] && upTo[n] == es[n];
    if es[n].id in applied {
      AppliedIsNotBehind(r, start, es, n, before);
    }
    RowsStayAmong(r, before, upTo, applied);
  }

  lemma RowsStayAmong<B>(r: Rules<B>, before: Db<B>, es: seq<Event>, applied: set<EventId>)
    requires es != [] && Valid(before) && HeldAmong(before, es[..|es| - 1], applied)
    requires ApplyCloneEvent(r, before, es[|es| - 1]).Kept?
    requires es[|es| - 1].id in applied ==> es[|es| - 1].id in before.applied && !Behind(before.quarantine, es[|es| - 1])
    ensures HeldAmong(ApplyCloneEvent(r, before, es[|es| - 1]).db, es, applied)
  {
    var n := |es| - 1;
    var after := ApplyCloneEvent(r, before, es[n]).db;
    forall k | k in after.quarantine && after.quarantine[k].source == Pull
      ensures k !in applied && exists j :: 0 <= j < |es| && after.quarantine[k] == Row(es[j], Pull, true)
    {
      if k in before.quarantine && after.quarantine[k] == before.quarantine[k] {
        var j :| 0 <= j < n && before.quarantine[k] == Row(es[..n][j], Pull, true);
        assert es[j] == es[..n][j];
      } else {
        assert after.quarantine[k] == Row(es[n], Pull, true);
      }
    }
  }
}
