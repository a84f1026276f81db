/**
 Clones that crash: the store between the transactions of a clone, resumed any number of times.
 The log is fixed; a clone may die between any two transactions.
*/
module CloneRuns {
  import opened Options
  import opened CloneStore
  import opened HubPages
  import opened CloneLoop
  import opened CloneProperties

  datatype Pc =
    | Idle
    | Looping(at: Cursor)                            // between pages
    | Committed(at: Cursor)                          // a page is applied, its checkpoint not saved
    | Retrying(at: Cursor, after: Option<Cursor>)    // the log is read

  datatype State<B> = State(db: Db<B>, checkpoint: Cursor, pulled: Cursor, pc: Pc)

  datatype Act<B> =
    | FreshStart            // the check passed; the reset of a clone without --resume
    | ResumeStart           // the check passed; the reset of a clone with --resume
    | ApplyPage(n: nat)     // one batch's transaction
    | SaveCheckpoint
    | BeginRetry
    | Retry(k: EventId)     // the next quarantined row
    | Finish                // the pull cursor
    | Crash
    | DiscardLocal(board: B)

  predicate StartAllowed<B>(r: Rules<B>, log: seq<Event>, s: State<B>, since: Cursor) {
    s.pc.Idle? && FirstRefused(r, Rest(log, since), s.db.clock).None?
  }

  ghost predicate Enabled<B>(r: Rules<B>, log: seq<Event>, s: State<B>, a: Act<B>) {
    match a
    case FreshStart => s.db.applied == {} && StartAllowed(r, log, s, START)
    case ResumeStart => StartAllowed(r, log, s, s.checkpoint)
    case ApplyPage(n) => s.pc.Looping? && 0 < n <= |Rest(log, s.pc.at)|
    case SaveCheckpoint => s.pc.Committed?
    case BeginRetry => s.pc.Looping? && Rest(log, s.pc.at) == []
    case Retry(k) => s.pc.Retrying? && IsNext(s.db.quarantine, s.pc.after, k)
    case Finish => s.pc.Retrying? && forall k :: !IsNext(s.db.quarantine, s.pc.after, k)
    case Crash => true
    case DiscardLocal(_) => s.pc.Idle?
  }

  ghost function Step<B>(r: Rules<B>, log: seq<Event>, s: State<B>, a: Act<B>): State<B>
    requires Enabled(r, log, s, a)
  {
    match a
    case FreshStart => s.(db := ResetDb(s.db, START), pc := Looping(START))
    case ResumeStart => s.(db := ResetDb(s.db, s.checkpoint), pc := Looping(s.checkpoint))
    case ApplyPage(n) =>
      var page := Rest(log, s.pc.at)[..n];
      var batch := ApplyAll(r, s.db, page);
      if batch.Good? then s.(db := batch.db, pc := Committed(At(page[n - 1]))) else s.(pc := Idle)
    case SaveCheckpoint => s.(checkpoint := s.pc.at, pc := Looping(s.pc.at))
    case BeginRetry => s.(pc := Retrying(s.pc.at, None))
    case Retry(k) =>
      var row := s.db.quarantine[k];
      s.(db := RetryOne(r, s.db, row).0, pc := Retrying(s.pc.at, Some(At(row.event))))
    case Finish => s.(pulled := s.pc.at, pc := Idle)
    case Crash => s.(pc := Idle)
    case DiscardLocal(b) => State(Db({}, map[], 0, b), s.checkpoint, START, Idle)
  }

  datatype Run<B> = Ended(s: State<B>) | NotARun

  ghost function Exec<B>(r: Rules<B>, log: seq<Event>, s: State<B>, acts: seq<Act<B>>): Run<B>
    decreases |acts|
  {
    if acts == [] then Ended(s)
    else if !Enabled(r, log, s, acts[0]) then NotARun
    else Exec(r, log, Step(r, log, s, acts[0]), acts[1..])
  }

  // ---- The checkpoint invariant ----------------------------------------------------------------

  /** Applied, or in the quarantine in a row no resume drops. */
  predicate Kept<B>(db: Db<B>, id: EventId) {
    id in db.applied || (id in db.quarantine && db.quarantine[id].cloneOrigin)
  }

  ghost predicate Covered<B>(log: seq<Event>, db: Db<B>, c: Cursor) {
    forall i :: 0 <= i < Passed(log, c) ==> Kept(db, log[i].id)
  }

  /** A cursor is the start, or names the last event it has passed. */
  ghost predicate OnLog(log: seq<Event>, c: Cursor) {
    c == LastOr(log[..Passed(log, c)], START)
  }

  /** The hub's events are not this store's own unpushed ones. */
  ghost predicate NoOwnRows<B>(log: seq<Event>, db: Db<B>) {
    forall i :: 0 <= i < |log| && log[i].id in db.quarantine ==> db.quarantine[log[i].id].source == Pull
  }

  /** While a clone runs, every pulled row is one it held itself. */
  ghost predicate CloneRows<B>(db: Db<B>) {
    forall k :: k in db.quarantine && db.quarantine[k].source == Pull ==> db.quarantine[k].cloneOrigin
  }

  ghost predicate ReadTo<B>(log: seq<Event>, db: Db<B>, at: Cursor) {
    OnLog(log, at) && Covered(log, db, at) && CloneRows(db)
  }

  ghost predicate PcInv<B>(log: seq<Event>, s: State<B>) {
    match s.pc
    case Idle => true
    case Looping(at) => ReadTo(log, s.db, at)
    case Committed(at) => ReadTo(log, s.db, at)
    case Retrying(at, after) => ReadTo(log, s.db, at) && Passed(log, at) == |log| && SeparateUpTo(s.db, after)
  }

  ghost predicate Inv<B>(log: seq<Event>, s: State<B>) {
    && Valid(s.db) && NoOwnRows(log, s.db)
    && OnLog(log, s.checkpoint) && Covered(log, s.db, s.checkpoint)
    && PcInv(log, s)
  }

  /** The two steps that drop what the checkpoint stands for, while it stands for anything. */
  ghost predicate Careless<B>(log: seq<Event>, s: State<B>, a: Act<B>) {
    (a.FreshStart? || a.DiscardLocal?) && Passed(log, s.checkpoint) > 0
  }

  lemma CoverGrows<B>(log: seq<Event>, a: Db<B>, b: Db<B>, c: Cursor)
    requires Grows(a, b) && Covered(log, a, c)
    ensures Covered(log, b, c)
  {
    forall i | 0 <= i < Passed(log, c)
      ensures Kept(b, log[i].id)
    {
      assert Kept(a, log[i].id);
    }
  }

  lemma NothingCovered<B>(log: seq<Event>, db: Db<B>)
    requires Log(log)
    ensures Passed(log, START) == 0 && OnLog(log, START) && Covered(log, db, START)
  {}

  lemma PageEnd(log: seq<Event>, at: Cursor, n: nat)
    requires Log(log) && 0 < n <= |Rest(log, at)|
    ensures var k := Passed(log, at);
            && At(Rest(log, at)[..n][n - 1]) == At(log[k + n - 1])
            && Passed(log, At(log[k + n - 1])) == k + n && OnLog(log, At(log[k + n - 1]))
            && forall i :: k <= i < k + n ==> Rest(log, at)[..n][i - k] == log[i]
  {
    PassedAt(log, Passed(log, at) + n);
  }

  /** A committed page extends the cover to its last event. */
  lemma PageCovers<B>(r: Rules<B>, log: seq<Event>, db: Db<B>, at: Cursor, n: nat)
    requires Log(log) && Valid(db) && NoOwnRows(log, db) && ReadTo(log, db, at) && 0 < n <= |Rest(log, at)|
    requires ApplyAll(r, db, Rest(log, at)[..n]).Good?
    ensures var d, end := ApplyAll(r, db, Rest(log, at)[..n]).db, At(Rest(log, at)[..n][n - 1]);
            Valid(d) && Grows(db, d) && NoOwnRows(log, d) && ReadTo(log, d, end)
  {
    var page := Rest(log, at)[..n];
    var d := ApplyAll(r, db, page).db;
    PageEnd(log, at, n);
    BatchSettles(r, db, page);
    CoverGrows(log, db, d, at);
    PulledRows(log, db, d);
    CoverExtends(log, d, at, n, At(page[n - 1]));
  }

  lemma CoverExtends<B>(log: seq<Event>, d: Db<B>, at: Cursor, n: nat, end: Cursor)
    requires 0 < n <= |Rest(log, at)| && Passed(log, end) == Passed(log, at) + n
    requires NoOwnRows(log, d) && CloneRows(d) && Covered(log, d, at) && AllSettled(d, Rest(log, at)[..n])
    ensures Covered(log, d, end)
  {
    var page, k := Rest(log, at)[..n], Passed(log, at);
    forall i | 0 <= i < k + n
      ensures Kept(d, log[i].id)
    {
      if i >= k {
        assert page[i - k] == log[i];
        assert Settled(d, page[i - k].id);
      }
    }
  }

  lemma PulledRows<B>(log: seq<Event>, a: Db<B>, b: Db<B>)
    requires NoOwnRows(log, a) && CloneRows(a) && Grows(a, b) && AddsOrphansOnly(a, b)
    ensures NoOwnRows(log, b) && CloneRows(b)
  {
    forall k | k in b.quarantine
      ensures k in a.quarantine ==> b.quarantine[k] == a.quarantine[k]
      ensures k !in a.quarantine ==> b.quarantine[k].source == Pull && b.quarantine[k].cloneOrigin
    {}
  }

  /** A retry moves rows to the applied events; it loses no event of the log. */
  lemma RetryCovers<B>(r: Rules<B>, log: seq<Event>, db: Db<B>, after: Option<Cursor>, k: EventId, at: Cursor)
    requires Valid(db) && NoOwnRows(log, db) && ReadTo(log, db, at) && SeparateUpTo(db, after) && IsNext(db.quarantine, after, k)
    ensures var d := RetryOne(r, db, db.quarantine[k]).0;
            Valid(d) && NoOwnRows(log, d) && ReadTo(log, d, at) && SeparateUpTo(d, Some(At(db.quarantine[k].event)))
    ensures forall c :: Covered(log, db, c) ==> Covered(log, RetryOne(r, db, db.quarantine[k]).0, c)
  {
    RetryOneKeeps(r, db, after, k);
    var d := RetryOne(r, db, db.quarantine[k]).0;
    forall id | Kept(db, id)
      ensures Kept(d, id)
    {
      assert id in d.applied + d.quarantine.Keys;
    }
    forall c | Covered(log, db, c)
      ensures Covered(log, d, c)
    {
      forall i | 0 <= i < Passed(log, c)
        ensures Kept(d, log[i].id)
      {
        assert Kept(db, log[i].id);
      }
    }
  }

  /** A resume keeps what the checkpoint stands for. */
  lemma ResumeCovers<B>(log: seq<Event>, db: Db<B>, c: Cursor)
    requires Log(log) && Valid(db) && NoOwnRows(log, db) && OnLog(log, c) && Covered(log, db, c)
    ensures var d := ResetDb(db, c);
            Valid(d) && NoOwnRows(log, d) && ReadTo(log, d, c)
  {
    var d := ResetDb(db, c);
    forall i | 0 <= i < Passed(log, c)
      ensures Kept(d, log[i].id)
    {
      assert Kept(db, log[i].id);
    }
  }

  /**
   Every step of every clone keeps the checkpoint invariant: the events at or before the saved
   cursor are applied or held where a resume finds them. The exceptions are exactly the two
   careless steps.
  */
  lemma StepInv<B>(r: Rules<B>, log: seq<Event>, s: State<B>, a: Act<B>)
    requires Log(log) && Inv(log, s) && Enabled(r, log, s, a) && !Careless(log, s, a)
    ensures Inv(log, Step(r, log, s, a))
  {
    match a
    case FreshStart =>
      NothingCovered(log, ResetDb(s.db, START));
    case ResumeStart =>
      ResumeCovers(log, s.db, s.checkpoint);
    case ApplyPage(n) =>
      if ApplyAll(r, s.db, Rest(log, s.pc.at)[..n]).Good? {
        PageCovers(r, log, s.db, s.pc.at, n);
        CoverGrows(log, s.db, ApplyAll(r, s.db, Rest(log, s.pc.at)[..n]).db, s.checkpoint);
      }
    case SaveCheckpoint =>
    case BeginRetry =>
    case Retry(k) =>
      RetryCovers(r, log, s.db, s.pc.after, k, s.pc.at);
    case Finish =>
    case Crash =>
    case DiscardLocal(b) =>
  }

  /** A clone that finishes from such a state has the whole log, with the pull cursor at its end. */
  lemma FinishHasTheLog<B>(r: Rules<B>, log: seq<Event>, s: State<B>)
    requires Log(log) && Inv(log, s) && Enabled(r, log, s, Finish)
    ensures HasTheLog(log, Step(r, log, s, Finish))
  {
    NoneAfter(s.db.quarantine, s.pc.after);
  }

  ghost predicate HasTheLog<B>(log: seq<Event>, s: State<B>) {
    && s.pulled == LastOr(log, START)
    && forall i :: 0 <= i < |log| ==> Kept(s.db, log[i].id) && (log[i].id in s.db.applied <==> log[i].id !in s.db.quarantine)
  }

  /** The careless steps break it whenever they are taken: so they are the exact exceptions. */
  lemma CarelessBreaksTheCover<B>(r: Rules<B>, log: seq<Event>, s: State<B>, a: Act<B>)
    requires Log(log) && Inv(log, s) && Enabled(r, log, s, a)
    ensures Careless(log, s, a) <==> !Covered(log, Step(r, log, s, a).db, Step(r, log, s, a).checkpoint)
  {
    if Careless(log, s, a) {
      assert !Kept(Step(r, log, s, a).db, log[0].id);
    } else {
      StepInv(r, log, s, a);
    }
  }

  // ---- Over whole runs -----------------------------------------------------------------------

  /** No step of the run is careless. */
  ghost predicate TakesCare<B>(r: Rules<B>, log: seq<Event>, s: State<B>, acts: seq<Act<B>>)
    decreases |acts|
  {
    acts != [] && Enabled(r, log, s, acts[0]) ==>
      !Careless(log, s, acts[0]) && TakesCare(r, log, Step(r, log, s, acts[0]), acts[1..])
  }

  ghost predicate Empty<B>(s: State<B>) {
    s.db.applied == {} && s.db.quarantine == map[] && s.checkpoint == START && s.pc.Idle?
  }

  lemma EmptyIsCovered<B>(log: seq<Event>, s: State<B>)
    requires Log(log) && Empty(s)
    ensures Inv(log, s)
  {
    NothingCovered(log, s.db);
  }

  /** A run without a careless step keeps the checkpoint invariant, and one that finishes has the log. */
  lemma {:induction false} RunKeepsCover<B>(r: Rules<B>, log: seq<Event>, s: State<B>, acts: seq<Act<B>>)
    requires Log(log) && Inv(log, s) && TakesCare(r, log, s, acts) && Exec(r, log, s, acts).Ended?
    ensures Inv(log, Exec(r, log, s, acts).s)
    ensures acts != [] && acts[|acts| - 1] == Finish ==> HasTheLog(log, Exec(r, log, s, acts).s)
    decreases |acts|
  {
    if acts != [] {
      StepInv(r, log, s, acts[0]);
      var next := Step(r, log, s, acts[0]);
      if acts[1..] == [] {
        assert Exec(r, log, next, []) == Ended(next);
        if acts[0] == Finish {
          FinishHasTheLog(r, log, s);
        }
      } else {
        assert acts[1..][|acts| - 2] == acts[|acts| - 1];
      }
      RunKeepsCover(r, log, next, acts[1..]);
    }
  }

  /**
   However often clones of an empty store crash and resume, and wherever, the checkpoint never
   stands for an event that is neither applied nor held; and the clone that finishes has the log.
  */
  lemma CrashedClonesLoseNothing<B>(r: Rules<B>, log: seq<Event>, s: State<B>, acts: seq<Act<B>>)
    requires Log(log) && Empty(s) && TakesCare(r, log, s, acts) && Exec(r, log, s, acts).Ended?
    ensures Inv(log, Exec(r, log, s, acts).s)
    ensures acts != [] && acts[|acts| - 1] == Finish ==> HasTheLog(log, Exec(r, log, s, acts).s)
  {
    EmptyIsCovered(log, s);
    RunKeepsCover(r, log, s, acts);
  }

  // ---- What a resume can recover -----------------------------------------------------------------

  /** Only resumed clones, which may crash again anywhere. */
  predicate OnlyResumes<B>(acts: seq<Act<B>>) {
    forall i :: 0 <= i < |acts| ==> !acts[i].FreshStart? && !acts[i].DiscardLocal?
  }

  /** Event `i` is behind the checkpoint, and in the store in no way a resume keeps. */
  ghost predicate Lost<B>(log: seq<Event>, s: State<B>, i: nat)
    requires i < |log|
  {
    && Valid(s.db) && NoOwnRows(log, s.db)
    && i < Passed(log, s.checkpoint) && !Kept(s.db, log[i].id)
    && match s.pc
       case Idle => true
       case Looping(at) => i < Passed(log, at) && CloneRows(s.db)
       case Committed(at) => i < Passed(log, at) && CloneRows(s.db)
       case Retrying(at, _) => i < Passed(log, at) && CloneRows(s.db)
  }

  /** A batch changes nothing about an event that is not in it. */
  lemma {:induction false} BatchLeavesOthers<B>(r: Rules<B>, db: Db<B>, es: seq<Event>, id: EventId)
    requires Valid(db) && ApplyAll(r, db, es).Good? && forall i :: 0 <= i < |es| ==> es[i].id != id
    ensures var d := ApplyAll(r, db, es).db;
            (id in d.applied <==> id in db.applied) && (id in d.quarantine <==> id in db.quarantine)
  {
    if es != [] {
      var n := |es| - 1;
      BatchLeavesOthers(r, db, es[..n], id);
      BatchSettles(r, db, es[..n]);
      OneEventSettles(r, ApplyAll(r, db, es[..n]).db, es[n]);
    }
  }

  lemma PageStaysLost<B>(r: Rules<B>, log: seq<Event>, s: State<B>, n: nat, i: nat)
    requires Log(log) && i < |log| && Lost(log, s, i) && Enabled(r, log, s, ApplyPage(n))
    ensures Lost(log, Step(r, log, s, ApplyPage(n)), i)
  {
    var at, db := s.pc.at, s.db;
    var page, k := Rest(log, at)[..n], Passed(log, at);
    PageEnd(log, at, n);
    if ApplyAll(r, db, page).Good? {
      forall j | 0 <= j < |page|
        ensures page[j].id != log[i].id
      {
        assert page[j] == log[k + j];
      }
      BatchLeavesOthers(r, db, page, log[i].id);
      BatchSettles(r, db, page);
      PulledRows(log, db, ApplyAll(r, db, page).db);
      KeptIffSettled(log, db, i);
      KeptIffSettled(log, ApplyAll(r, db, page).db, i);
    }
  }

  lemma KeptIffSettled<B>(log: seq<Event>, db: Db<B>, i: nat)
    requires i < |log| && NoOwnRows(log, db) && CloneRows(db)
    ensures Kept(db, log[i].id) <==> Settled(db, log[i].id)
  {}

  lemma RetryStaysLost<B>(r: Rules<B>, log: seq<Event>, s: State<B>, k: EventId, i: nat)
    requires Log(log) && i < |log| && Lost(log, s, i) && Enabled(r, log, s, Retry(k))
    ensures Lost(log, Step(r, log, s, Retry(k)), i)
  {
    KeptIffSettled(log, s.db, i);
    assert k != log[i].id;
    RetryOneShrinks(r, s.db, s.pc.after, k);
  }

  lemma StepStaysLost<B>(r: Rules<B>, log: seq<Event>, s: State<B>, a: Act<B>, i: nat)
    requires Log(log) && i < |log| && Lost(log, s, i) && Enabled(r, log, s, a)
    requires !a.FreshStart? && !a.DiscardLocal?
    ensures Lost(log, Step(r, log, s, a), i)
  {
    match a
    case ResumeStart => assert !Kept(ResetDb(s.db, s.checkpoint), log[i].id);
    case ApplyPage(n) => PageStaysLost(r, log, s, n, i);
    case Retry(k) => RetryStaysLost(r, log, s, k, i);
    case SaveCheckpoint =>
    case BeginRetry =>
    case Finish =>
    case Crash =>
  }

  lemma {:induction false} RunStaysLost<B>(r: Rules<B>, log: seq<Event>, s: State<B>, acts: seq<Act<B>>, i: nat)
    requires Log(log) && i < |log| && Lost(log, s, i) && OnlyResumes(acts) && Exec(r, log, s, acts).Ended?
    ensures Lost(log, Exec(r, log, s, acts).s, i)
    decreases |acts|
  {
    if acts != [] {
      StepStaysLost(r, log, s, acts[0], i);
      assert OnlyResumes(acts[1..]);
      RunStaysLost(r, log, Step(r, log, s, acts[0]), acts[1..], i);
    }
  }

  lemma {:induction false} ResumesTakeCare<B>(r: Rules<B>, log: seq<Event>, s: State<B>, acts: seq<Act<B>>)
    requires OnlyResumes(acts)
    ensures TakesCare(r, log, s, acts)
    decreases |acts|
  {
    if acts != [] && Enabled(r, log, s, acts[0]) {
      assert OnlyResumes(acts[1..]);
      ResumesTakeCare(r, log, Step(r, log, s, acts[0]), acts[1..]);
    }
  }

  /**
   What a resume can recover, from any store between clones: resumed clones that finish, after
   any number of crashes, have the whole log if and only if the saved checkpoint was covered.
  */
  lemma ResumedCloneHasTheLogIff<B>(r: Rules<B>, log: seq<Event>, s: State<B>, acts: seq<Act<B>>)
    requires Log(log) && s.pc.Idle? && Valid(s.db) && NoOwnRows(log, s.db) && OnLog(log, s.checkpoint)
    requires OnlyResumes(acts) && Exec(r, log, s, acts).Ended? && acts != [] && acts[|acts| - 1] == Finish
    ensures HasTheLog(log, Exec(r, log, s, acts).s) <==> Covered(log, s.db, s.checkpoint)
  {
    if Covered(log, s.db, s.checkpoint) {
      ResumesTakeCare(r, log, s, acts);
      RunKeepsCover(r, log, s, acts);
    } else {
      var i :| 0 <= i < Passed(log, s.checkpoint) && !Kept(s.db, log[i].id);
      RunStaysLost(r, log, s, acts, i);
      assert !Kept(Exec(r, log, s, acts).s.db, log[i].id);
    }
  }

  lemma OneStep<B>(r: Rules<B>, log: seq<Event>, s: State<B>, acts: seq<Act<B>>, i: nat, next: State<B>)
    requires i < |acts| && Enabled(r, log, s, acts[i]) && Step(r, log, s, acts[i]) == next
    ensures Exec(r, log, s, acts[i..]) == Exec(r, log, next, acts[i + 1..])
  {
    assert acts[i..][1..] == acts[i + 1..];
  }

  /**
   After a careless step a resumed clone can report success with nothing: from every store whose
   checkpoint is at the end of the log, discard, start again, stop before the first page, resume.
  */
  lemma CarelessRunLosesTheLog<B>(r: Rules<B>, log: seq<Event>, s: State<B>, b: B)
    requires Log(log) && log != [] && s.pc.Idle? && Passed(log, s.checkpoint) == |log|
    requires FirstRefused(r, log, 0).None?
    ensures var run := Exec(r, log, s, [DiscardLocal(b), FreshStart, Crash, ResumeStart, BeginRetry, Finish]);
            && run.Ended? && run.s.pulled == s.checkpoint
            && forall i :: 0 <= i < |log| ==> !Settled(run.s.db, log[i].id)
  {
    StartIsBeforeEverything(log);
    var c := s.checkpoint;
    var d := Db({}, map[], 0, b);
    assert ResetDb(d, START) == d && ResetDb(d, c) == d;
    assert Rest(log, c) == [];
    var empty, lost := State(d, c, START, Idle), State(d, c, c, Idle);
    var acts := [DiscardLocal(b), FreshStart, Crash, ResumeStart, BeginRetry, Finish];
    assert acts == acts[0..];
    OneStep(r, log, s, acts, 0, empty);
    OneStep(r, log, empty, acts, 1, empty.(pc := Looping(START)));
    OneStep(r, log, empty.(pc := Looping(START)), acts, 2, empty);
    OneStep(r, log, empty, acts, 3, empty.(pc := Looping(c)));
    OneStep(r, log, empty.(pc := Looping(c)), acts, 4, empty.(pc := Retrying(c, None)));
    OneStep(r, log, empty.(pc := Retrying(c, None)), acts, 5, lost);
  }

  // ---- The loop is such a run --------------------------------------------------------------------

  lemma Then<B>(r: Rules<B>, log: seq<Event>, s: State<B>, a: Act<B>, rest: seq<Act<B>>)
    requires Enabled(r, log, s, a)
    ensures Exec(r, log, s, [a] + rest) == Exec(r, log, Step(r, log, s, a), rest)
  {
    assert ([a] + rest)[1..] == rest;
  }

  lemma {:induction false} RetryIsARun<B>(r: Rules<B>, log: seq<Event>, s: State<B>) returns (acts: seq<Act<B>>)
    requires s.pc.Retrying? && Valid(s.db)
    ensures Exec(r, log, s, acts) == Ended(s.(db := RetryFrom(r, s.db, s.pc.after).db, pulled := s.pc.at, pc := Idle))
    decreases |Remaining(s.db.quarantine, s.pc.after)|
  {
    var after := s.pc.after;
    if k :| IsNext(s.db.quarantine, after, k) {
      RetryStep(r, s.db, after, k);
      RetryOneShrinks(r, s.db, after, k);
      var next := Step(r, log, s, Retry(k));
      Smaller(Remaining(next.db.quarantine, next.pc.after), Remaining(s.db.quarantine, after), k);
      var rest := RetryIsARun(r, log, next);
      Then(r, log, s, Retry(k), rest);
      acts := [Retry(k)] + rest;
    } else {
      Then(r, log, s, Finish, []);
      acts := [Finish] + [];
    }
  }

  /** What the loop leaves on success, for any batch size, is the end of a run from its start. */
  lemma CloneLoopIsARun<B>(r: Rules<B>, log: seq<Event>, s: State<B>, out: Clone<B>, db: Db<B>, checkpoint: Cursor, pulled: Cursor)
    returns (acts: seq<Act<B>>)
    requires Log(log) && Valid(s.db) && s.pc.Looping?
    requires LoopLeaves(r, s.db, s.checkpoint, s.pulled, s.pc.at, Rest(log, s.pc.at), out, db, checkpoint, pulled) && out.Cloned?
    ensures Exec(r, log, s, acts) == Ended(State(db, checkpoint, pulled, Idle))
  {
    var rest := Rest(log, s.pc.at);
    if rest == [] {
      var tail := RetryIsARun(r, log, Step(r, log, s, BeginRetry));
      Then(r, log, s, BeginRetry, tail);
      return [BeginRetry] + tail;
    }
    var n := |rest|;
    assert rest[..n] == rest;
    PageEnd(log, s.pc.at, n);
    BatchSettles(r, s.db, rest);
    var s1 := Step(r, log, s, ApplyPage(n));
    var s2 := Step(r, log, s1, SaveCheckpoint);
    assert Rest(log, s2.pc.at) == [];
    var s3 := Step(r, log, s2, BeginRetry);
    var tail := RetryIsARun(r, log, s3);
    Then(r, log, s2, BeginRetry, tail);
    Then(r, log, s1, SaveCheckpoint, [BeginRetry] + tail);
    Then(r, log, s, ApplyPage(n), [SaveCheckpoint] + ([BeginRetry] + tail));
    acts := [ApplyPage(n)] + ([SaveCheckpoint] + ([BeginRetry] + tail));
  }
}
