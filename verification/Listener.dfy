/**
 The waiter's side of the per-board listener: the keep-alive goroutine, its rechecks and what it
 reports, and the lease that leave removes.
*/
module Listener {
  import opened Options

  // ---- One attempt to ensure a listener --------------------------------------------------------

  datatype Probe = LockHeld | LockFree | ProbeError

  // What the attempt meets: the idle clamp, the probe of the lifetime lock, the spawn.
  datatype World = World(clamped: bool, probe: Probe, spawnOk: bool)

  datatype Ensured = AlreadyRunning | Started | Failure

  method EnsureListener(w: World) returns (r: Ensured, spawned: bool)
    ensures r == AlreadyRunning <==> w.probe == LockHeld
    ensures r == Started <==> spawned && w.spawnOk
    ensures spawned <==> w.probe == LockFree
  {
    if w.probe == ProbeError {
      return Failure, false;
    }
    if w.probe == LockHeld {
      return AlreadyRunning, false;
    }
    spawned := true;
    r := if w.spawnOk then Started else Failure;
  }

  predicate Fails(w: World) {
    w.probe == ProbeError || (w.probe == LockFree && !w.spawnOk)
  }

  datatype Line = Running | FirstStart | NotStarted | Restarted | IdleClamped | RefreshFailed

  /**
   One recheck. Unclamped, it ends with the lock seen held, a listener spawned, or a failure;
   clamped it does nothing. `failed` is what the next recheck is told.
  */
  method Recheck(w: World, failedBefore: bool) returns (failed: bool, line: Option<Line>)
    ensures failed <==> if w.clamped then failedBefore else w.probe == ProbeError || (w.probe == LockFree && !w.spawnOk)
    ensures line == Some(NotStarted) <==> !w.clamped && !failedBefore && failed
    ensures line == Some(Restarted) <==> !w.clamped && w.probe == LockFree && w.spawnOk
    ensures line in {None, Some(NotStarted), Some(Restarted)}
    ensures !w.clamped ==> w.probe == LockHeld || (w.probe == LockFree && w.spawnOk) || failed
  {
    if w.clamped {
      return failedBefore, None;
    }
    var state, spawned := EnsureListener(w);
    line := None;
    if state == Failure && !failedBefore {
      line := Some(NotStarted);
    } else if state == Started {
      line := Some(Restarted);
    }
    failed := state == Failure;
  }

  // ---- The keep-alive loop ---------------------------------------------------------------------

  datatype Tick = RecheckTick(w: World) | RefreshTick(writeOk: bool)

  /** The last recheck before `i` that made an attempt. */
  function LastAttempt(ticks: seq<Tick>, i: nat): (at: Option<nat>)
    requires i <= |ticks|
    ensures at.Some? ==> at.value < i && IsAttempt(ticks[at.value]) && forall j :: at.value < j < i ==> !IsAttempt(ticks[j])
    ensures at.None? ==> forall j :: 0 <= j < i ==> !IsAttempt(ticks[j])
  {
    if i == 0 then None
    else if IsAttempt(ticks[i - 1]) then Some(i - 1)
    else LastAttempt(ticks, i - 1)
  }

  predicate IsAttempt(t: Tick) { t.RecheckTick? && !t.w.clamped }

  /** Tick `i` begins a streak of failures: it fails, and the attempt before it did not. */
  predicate StartsStreak(ticks: seq<Tick>, i: nat)
    requires i < |ticks|
  {
    && IsAttempt(ticks[i]) && Fails(ticks[i].w)
    && (LastAttempt(ticks, i).Some? ==> !Fails(ticks[LastAttempt(ticks, i).value].w))
  }

  /**
   The loop, over the ticks it selects before it sees the stop: `lines[i]` is what it printed at
   tick `i`. It reports a failure exactly at the start of each streak of failed attempts,
   whatever clamped rechecks and refreshes come between, and a restart for every spawn.
  */
  method KeepAlive(ticks: seq<Tick>) returns (lines: seq<Option<Line>>)
    ensures |lines| == |ticks|
    ensures forall i :: 0 <= i < |ticks| ==> (lines[i] == Some(NotStarted) <==> StartsStreak(ticks, i))
    ensures forall i :: 0 <= i < |ticks| ==>
              (lines[i] == Some(Restarted) <==> ticks[i].RecheckTick? && !ticks[i].w.clamped && ticks[i].w.probe == LockFree && ticks[i].w.spawnOk)
    ensures forall i :: 0 <= i < |ticks| ==> (lines[i] == Some(RefreshFailed) <==> ticks[i] == RefreshTick(false))
  {
    var failed := false;
    lines := [];
    for n := 0 to |ticks|
      invariant |lines| == n
      invariant failed <==> LastAttempt(ticks, n).Some? && Fails(ticks[LastAttempt(ticks, n).value].w)
      invariant forall i :: 0 <= i < n ==> (lines[i] == Some(NotStarted) <==> StartsStreak(ticks, i))
      invariant forall i :: 0 <= i < n ==>
                  (lines[i] == Some(Restarted) <==> ticks[i].RecheckTick? && !ticks[i].w.clamped && ticks[i].w.probe == LockFree && ticks[i].w.spawnOk)
      invariant forall i :: 0 <= i < n ==> (lines[i] == Some(RefreshFailed) <==> ticks[i] == RefreshTick(false))
    {
      var line: Option<Line>;
      match ticks[n] {
        case RecheckTick(w) => failed, line := Recheck(w, failed);
        case RefreshTick(ok) => line := if ok then None else Some(RefreshFailed);
      }
      lines := lines + [line];
    }
  }

  /** Two failures are reported only when an attempt between them did not fail. */
  lemma ReportsAreSeparated(ticks: seq<Tick>, i: nat, j: nat)
    requires i < j < |ticks| && StartsStreak(ticks, i) && StartsStreak(ticks, j)
    ensures exists k :: i < k < j && IsAttempt(ticks[k]) && !Fails(ticks[k].w)
  {
    var k := LastAttempt(ticks, j).value;
    assert i <= k;
  }

  // ---- With the first attempt of Join --------------------------------------------------------------

  // What Join decides from the board's config.
  datatype Plan = Joins | Declines(quiet: bool)

  /**
   Join up to its keep-alive: the lease comes before the attempt, and no attempt is made while
   the board is idle-clamped. Whatever fails, it prints at most one line and returns.
  */
  method Join(plan: Plan, identified: bool, leaseWritten: bool, w: World) returns (armed: bool, line: Option<Line>, spawned: bool)
    ensures armed <==> plan.Joins? && identified && leaseWritten
    ensures spawned <==> armed && !w.clamped && w.probe == LockFree
    ensures !armed ==> line == if plan == Declines(true) then None else Some(NotStarted)
    ensures armed ==> line == Some(JoinLine(w))
    ensures armed && !w.clamped ==>
              && (line == Some(Running) <==> w.probe == LockHeld)
              && (line == Some(FirstStart) <==> w.probe == LockFree && w.spawnOk)
              && (line == Some(NotStarted) <==> w.probe == ProbeError || (w.probe == LockFree && !w.spawnOk))
    ensures armed && w.clamped ==> line == Some(IdleClamped)
  {
    spawned := false;
    if plan.Declines? {
      return false, if plan.quiet then None else Some(NotStarted), false;
    }
    if !identified || !leaseWritten {
      return false, Some(NotStarted), false;
    }
    if w.clamped {
      return true, Some(IdleClamped), false;
    }
    var state;
    state, spawned := EnsureListener(w);
    armed := true;
    line := Some(match state case Failure => NotStarted case Started => FirstStart case AlreadyRunning => Running);
  }

  function JoinLine(w: World): Line {
    if w.clamped then IdleClamped
    else if Fails(w) then NotStarted
    else if w.probe == LockFree then FirstStart
    else Running
  }

  /** Whether each attempt among the first `n` ticks failed. */
  function Attempts(ticks: seq<Tick>, n: nat): seq<bool>
    requires n <= |ticks|
  {
    if n == 0 then []
    else Attempts(ticks, n - 1) + (if IsAttempt(ticks[n - 1]) then [Fails(ticks[n - 1].w)] else [])
  }

  /** How many streaks of failures there are. */
  function Streaks(fails: seq<bool>): nat {
    if fails == [] then 0
    else
      var n := |fails| - 1;
      Streaks(fails[..n]) + (if fails[n] && (n == 0 || !fails[n - 1]) then 1 else 0)
  }

  /** The lines among the first `n` that report a failure. */
  function Reports(lines: seq<Option<Line>>, n: nat): nat
    requires n <= |lines|
  {
    if n == 0 then 0 else Reports(lines, n - 1) + (if lines[n - 1] == Some(NotStarted) then 1 else 0)
  }

  lemma {:induction false} LastAttemptIsLast(ticks: seq<Tick>, n: nat)
    requires n <= |ticks|
    ensures var last, fails := LastAttempt(ticks, n), Attempts(ticks, n);
            && (last.Some? <==> fails != [])
            && (last.Some? ==> (Fails(ticks[last.value].w) <==> fails[|fails| - 1]))
  {
    if n > 0 {
      LastAttemptIsLast(ticks, n - 1);
    }
  }

  /** The keep-alive loop reports one failure a streak of its own attempts. */
  lemma {:induction false} ReportsAreStreaks(ticks: seq<Tick>, lines: seq<Option<Line>>, n: nat)
    requires |lines| == |ticks| && n <= |ticks|
    requires forall i :: 0 <= i < |ticks| ==> (lines[i] == Some(NotStarted) <==> StartsStreak(ticks, i))
    ensures Reports(lines, n) == Streaks(Attempts(ticks, n))
  {
    if n > 0 {
      ReportsAreStreaks(ticks, lines, n - 1);
      LastAttemptIsLast(ticks, n - 1);
      if IsAttempt(ticks[n - 1]) {
        var fails := Attempts(ticks, n - 1);
        assert (fails + [Fails(ticks[n - 1].w)])[..|fails|] == fails;
      } else {
        assert Attempts(ticks, n) == Attempts(ticks, n - 1);
      }
    }
  }

  /** One attempt in front begins a streak, unless it joins the one that follows. */
  lemma {:induction false} OneMoreInFront(first: bool, fails: seq<bool>)
    ensures Streaks([first] + fails) == Streaks(fails) + (if first && !(fails != [] && fails[0]) then 1 else 0)
  {
    if fails == [] {
      assert [first] + fails == [first] && [first][..0] == [];
    } else {
      var n := |fails| - 1;
      OneMoreInFront(first, fails[..n]);
      assert ([first] + fails)[..n + 1] == [first] + fails[..n];
    }
  }

  /**
   What Join and its keep-alive print together: one failure a streak of attempts, counting
   Join's own, and one more exactly when Join's attempt and the first recheck's both fail.
  */
  lemma JoinRepeatsAFailureIff(w: World, ticks: seq<Tick>, lines: seq<Option<Line>>)
    requires |lines| == |ticks|
    requires forall i :: 0 <= i < |ticks| ==> (lines[i] == Some(NotStarted) <==> StartsStreak(ticks, i))
    ensures var rechecks := Attempts(ticks, |ticks|);
            var printed := (if JoinLine(w) == NotStarted then 1 else 0) + Reports(lines, |ticks|);
            var streaks := Streaks((if w.clamped then [] else [Fails(w)]) + rechecks);
            printed == streaks + (if !w.clamped && Fails(w) && rechecks != [] && rechecks[0] then 1 else 0)
  {
    var rechecks := Attempts(ticks, |ticks|);
    ReportsAreStreaks(ticks, lines, |ticks|);
    OneMoreInFront(Fails(w), rechecks);
    assert [] + rechecks == rechecks;
  }

  // ---- The lease -------------------------------------------------------------------------------

  type Time = int // seconds

  const LEASE_TTL: Time := 900
  const CLOCK_SKEW: Time := 300

  datatype Lease = Lease(armedAt: Time, refreshedAt: Option<Time>)

  function LastSeen(l: Lease): Time {
    if l.refreshedAt.Some? && l.refreshedAt.value > l.armedAt then l.refreshedAt.value else l.armedAt
  }

  predicate Expired(l: Lease, now: Time) {
    LastSeen(l) > now + CLOCK_SKEW || now - LastSeen(l) >= LEASE_TTL
  }

  datatype Keeper = Selecting | Refreshing(at: Time) | Rechecking | Gone

  datatype Leaver = Waiting | Stopping | Removing | Left | Dead

  datatype FileOp = Wrote | Removed

  // `peak` is the latest time the clock has shown: it may step back at any moment.
  datatype State = State(clock: Time, peak: Time, armedAt: Time, lease: Option<Lease>, keeper: Keeper, leaver: Leaver, files: seq<FileOp>)

  function Joined(now: Time): State {
    State(now, now, now, Some(Lease(now, None)), Selecting, Waiting, [Wrote])
  }

  datatype Act =
    | SetClock(t: Time)
    | PickRefresh | WriteLease(ok: bool) | PickRecheck | EndRecheck | PickStop // the keeper
    | CloseStop | SeeFinished | RemoveLease(ok: bool)                          // leave
    | Crash

  predicate Enabled(s: State, a: Act) {
    match a
    case SetClock(_) => true
    case PickRefresh => s.keeper == Selecting
    case WriteLease(_) => s.keeper.Refreshing?
    case PickRecheck => s.keeper == Selecting
    case EndRecheck => s.keeper == Rechecking
    case PickStop => s.keeper == Selecting && s.leaver == Stopping
    case CloseStop => s.leaver == Waiting
    case SeeFinished => s.leaver == Stopping && s.keeper == Gone
    case RemoveLease(_) => s.leaver == Removing
    case Crash => s.leaver != Left
  }

  function Step(s: State, a: Act): State
    requires Enabled(s, a)
  {
    match a
    case SetClock(t) => s.(clock := t, peak := if t > s.peak then t else s.peak)
    case PickRefresh => s.(keeper := Refreshing(s.clock))
    case WriteLease(ok) =>
      if ok then s.(lease := Some(Lease(s.armedAt, Some(s.keeper.at))), keeper := Selecting, files := s.files + [Wrote])
      else s.(keeper := Selecting)
    case PickRecheck => s.(keeper := Rechecking)
    case EndRecheck => s.(keeper := Selecting)
    case PickStop => s.(keeper := Gone)
    case CloseStop => s.(leaver := Stopping)
    case SeeFinished => s.(leaver := Removing)
    case RemoveLease(ok) =>
      if ok then s.(lease := None, leaver := Left, files := s.files + [Removed]) else s.(leaver := Left)
    case Crash => s.(keeper := Gone, leaver := Dead)
  }

  datatype Run = Ended(s: State) | NotARun

  function Exec(s: State, acts: seq<Act>): Run
    decreases |acts|
  {
    if acts == [] then Ended(s)
    else if !Enabled(s, acts[0]) then NotARun
    else Exec(Step(s, acts[0]), acts[1..])
  }

  /** The lease is written, then removed at most once, and never written after that. */
  ghost predicate RemovedLast(files: seq<FileOp>) {
    forall i :: 0 <= i < |files| - 1 ==> files[i] == Wrote
  }

  ghost predicate Inv(s: State) {
    && (s.leaver.Removing? || s.leaver.Left? || s.leaver.Dead? ==> s.keeper == Gone)
    && (s.keeper == Gone ==> s.leaver != Waiting)
    && RemovedLast(s.files) && s.files != []
    && (s.lease.None? <==> s.files[|s.files| - 1] == Removed)
    && (s.lease.None? ==> s.leaver == Left)
    && s.clock <= s.peak && s.armedAt <= s.peak
    && (s.lease.Some? ==> s.lease.value.armedAt == s.armedAt && LastSeen(s.lease.value) <= s.peak)
    && (s.keeper.Refreshing? ==> s.keeper.at <= s.peak)
  }

  lemma StepInv(s: State, a: Act)
    requires Inv(s) && Enabled(s, a)
    ensures Inv(Step(s, a))
    ensures s.leaver == Dead ==> Step(s, a).leaver == Dead && Step(s, a).lease == s.lease
  {}

  /** In every interleaving of refreshes, rechecks, leave and a crash, no write follows the removal. */
  lemma {:induction false} NoWriteAfterRemoval(s: State, acts: seq<Act>)
    requires Inv(s) && Exec(s, acts).Ended?
    ensures Inv(Exec(s, acts).s)
    ensures s.leaver == Dead ==> Exec(s, acts).s.leaver == Dead && Exec(s, acts).s.lease == s.lease
    decreases |acts|
  {
    if acts != [] {
      StepInv(s, acts[0]);
      NoWriteAfterRemoval(Step(s, acts[0]), acts[1..]);
    }
  }

  /** The lease of a waiter that runs is there; the lease of one that left without error is not. */
  lemma LeaseIsThereWhileWaiting(now: Time, acts: seq<Act>)
    requires Exec(Joined(now), acts).Ended?
    ensures var s := Exec(Joined(now), acts).s;
            && RemovedLast(s.files)
            && (s.leaver != Left ==> s.lease.Some?)
            && (s.lease.None? <==> Removed in s.files)
  {
    NoWriteAfterRemoval(Joined(now), acts);
    var s := Exec(Joined(now), acts).s;
    if Removed in s.files {
      var i :| 0 <= i < |s.files| && s.files[i] == Removed;
      assert i == |s.files| - 1;
    }
  }

  /** A crashed waiter's lease expires: for good, one lease life after the latest time it saw. */
  lemma CrashedLeaseExpires(now: Time, acts: seq<Act>, later: seq<Act>)
    requires Exec(Joined(now), acts).Ended? && Exec(Joined(now), acts).s.leaver == Dead
    requires Exec(Exec(Joined(now), acts).s, later).Ended?
    ensures var crashed, s := Exec(Joined(now), acts).s, Exec(Exec(Joined(now), acts).s, later).s;
            s.lease == crashed.lease && s.lease.Some?
            && (s.clock >= crashed.peak + 900 ==> Expired(s.lease.value, s.clock))
  {
    NoWriteAfterRemoval(Joined(now), acts);
    NoWriteAfterRemoval(Exec(Joined(now), acts).s, later);
  }

  /**
   A lease is live from five minutes before the latest time in it to fifteen minutes after, and at
   no other time: that time is the refresh just written, or the arming when the clock has gone back
   before it. A clock may be set to any time, and the keeper may refresh whenever it selects.
  */
  lemma RefreshedLeaseLivesIff(s: State, at: Time, now: Time)
    requires s.keeper == Selecting
    ensures var acts := [SetClock(at), PickRefresh, WriteLease(true), SetClock(now)];
            && Exec(s, acts).Ended?
            && var t := Exec(s, acts).s;
               var seen := if at > s.armedAt then at else s.armedAt;
               t.lease.Some? && t.clock == now && (Expired(t.lease.value, t.clock) <==> now < seen - 300 || now >= seen + 900)
  {
    var acts := [SetClock(at), PickRefresh, WriteLease(true), SetClock(now)];
    var s1 := Step(s, acts[0]);
    var s2 := Step(s1, acts[1]);
    var s3 := Step(s2, acts[2]);
    assert acts[1..][0] == acts[1] && acts[1..][1..] == acts[2..];
    assert acts[2..][0] == acts[2] && acts[2..][1..] == acts[3..];
    assert acts[3..][0] == acts[3] && acts[3..][1..] == [];
    assert Exec(s3, acts[3..]) == Ended(Step(s3, acts[3]));
    assert Exec(s, acts) == Exec(s1, acts[1..]) == Exec(s2, acts[2..]) == Exec(s3, acts[3..]);
  }

  /** The lease that Join wrote, until the first refresh. */
  lemma ArmedLeaseLivesIff(armed: Time, now: Time)
    ensures Exec(Joined(armed), [SetClock(now)]).Ended?
    ensures var t := Exec(Joined(armed), [SetClock(now)]).s;
            t.lease.Some? && (Expired(t.lease.value, t.clock) <==> now < armed - 300 || now >= armed + 900)
  {
    assert [SetClock(now)][1..] == [];
  }

  function StepsToLeave(s: State): nat {
    (if s.keeper.Refreshing? || s.keeper == Rechecking then 1 else 0)
    + match s.leaver
      case Waiting => 4
      case Stopping => if s.keeper == Gone then 2 else 3
      case Removing => 1
      case Left => 0
      case Dead => 0
  }

  /** Leave cannot hang on the keeper: until the lease is dealt with, a step towards it is possible. */
  lemma LeaveCanAlwaysGoOn(s: State) returns (acts: seq<Act>)
    requires Inv(s) && s.leaver != Dead
    ensures Exec(s, acts).Ended? && Exec(s, acts).s.leaver == Left && |acts| == StepsToLeave(s)
    ensures s.leaver != Left ==> Exec(s, acts).s.lease.None?
    decreases StepsToLeave(s)
  {
    if s.leaver == Left {
      return [];
    }
    if s.leaver == Removing {
      acts := [RemoveLease(true)];
      assert acts[1..] == [] && Exec(Step(s, acts[0]), []).Ended?;
      return;
    }
    var first := if s.keeper.Refreshing? then WriteLease(true) else if s.keeper == Rechecking then EndRecheck
                 else if s.leaver == Waiting then CloseStop else if s.keeper == Gone then SeeFinished else PickStop;
    StepInv(s, first);
    var rest := LeaveCanAlwaysGoOn(Step(s, first));
    acts := [first] + rest;
    assert acts[1..] == rest;
  }
}
