/**
 The coalescing runner of the background push: any number of goroutines trigger it, and it runs
 its job on a goroutine of its own, never twice at once, until no trigger is left unserved.
*/
module Coalescing {
  // ---- The critical sections ----------------------------------------------------------------

  datatype Flags = Flags(running: bool, dirty: bool)

  function Triggered(f: Flags): Flags {
    if f.running then Flags(true, true) else Flags(true, f.dirty)
  }

  function Turned(f: Flags): Flags {
    if f.dirty then Flags(f.running, false) else Flags(false, false)
  }

  class CoalescingRunner {
    var running: bool
    var dirty: bool

    function Now(): Flags reads this { Flags(running, dirty) }

    constructor ()
      ensures Now() == Flags(false, false)
    {
      running, dirty := false, false;
    }

    /** Requests one more run; `spawn` says the caller starts the loop's goroutine. */
    method Trigger() returns (spawn: bool)
      modifies this
      ensures spawn == !old(running) && Now() == Triggered(old(Now()))
    {
      if running {
        dirty := true;
        return false;
      }
      running := true;
      spawn := true;
    }

    /** What the loop does under the mutex after a job. */
    method Turn() returns (again: bool)
      modifies this
      ensures again == old(dirty) && Now() == Turned(old(Now()))
    {
      if !dirty {
        running := false;
        return false;
      }
      dirty := false;
      again := true;
    }

    /**
     The loop, when `bursts[i]` triggers arrive during its `i`th job and none after those: it
     runs the job once more for each job a trigger arrived in, and stops at the first without.
    */
    method Loop(bursts: seq<nat>) returns (jobs: nat)
      requires running
      modifies this
      ensures Now() == Flags(false, false)
      ensures jobs == JobsFor(old(dirty), bursts)
    {
      jobs := 0;
      while true
        invariant running && jobs <= JobsFor(old(dirty), bursts)
        invariant JobsFor(old(dirty), bursts) == jobs + JobsFor(dirty, if jobs < |bursts| then bursts[jobs..] else [])
        decreases JobsFor(old(dirty), bursts) - jobs
      {
        var k := if jobs < |bursts| then bursts[jobs] else 0;
        ghost var wasDirty := dirty;
        while k > 0
          invariant running && dirty == (wasDirty || k < (if jobs < |bursts| then bursts[jobs] else 0))
          invariant k <= (if jobs < |bursts| then bursts[jobs] else 0)
        {
          var _ := Trigger();
          k := k - 1;
        }
        jobs := jobs + 1;
        var again := Turn();
        if !again {
          return;
        }
      }
    }
  }

  /** One job, and another while the runner is dirty when a job ends. */
  function JobsFor(dirty: bool, bursts: seq<nat>): (n: nat)
    ensures n >= 1
    decreases |bursts|, dirty
  {
    if bursts == [] then (if dirty then 2 else 1)
    else if dirty || bursts[0] > 0 then 1 + JobsFor(false, bursts[1..])
    else 1
  }

  /** From a clean start: one more job for each of the first jobs in which a trigger arrived. */
  lemma {:induction false} JobsForCounts(bursts: seq<nat>)
    ensures var n := JobsFor(false, bursts);
            && n - 1 <= |bursts| && (forall i :: 0 <= i < n - 1 ==> bursts[i] > 0)
            && (n - 1 < |bursts| ==> bursts[n - 1] == 0)
            && JobsFor(true, bursts) == 1 + JobsFor(false, if bursts == [] then [] else bursts[1..])
  {
    if bursts != [] && bursts[0] > 0 {
      JobsForCounts(bursts[1..]);
      var n := JobsFor(false, bursts);
      forall i | 0 <= i < n - 1
        ensures bursts[i] > 0
      {
        assert i > 0 ==> bursts[i] == bursts[1..][i - 1];
      }
    }
  }

  // ---- All interleavings ----------------------------------------------------------------------

  // A loop goroutine: about to run the job, running it, or back from it.
  datatype Pc = Ready | InJob | AfterJob

  datatype Event = TriggerSeen | JobStarts | JobEnds

  // `spawning` counts the triggers that have released the mutex and not yet started their loop.
  datatype State = State(flags: Flags, spawning: nat, loops: seq<Pc>, history: seq<Event>)

  const IDLE := State(Flags(false, false), 0, [], [])

  datatype Act = Trigger | Spawn | Start(i: nat) | End(i: nat) | Turn(i: nat)

  predicate Enabled(s: State, a: Act) {
    match a
    case Trigger => true
    case Spawn => s.spawning > 0
    case Start(i) => i < |s.loops| && s.loops[i] == Ready
    case End(i) => i < |s.loops| && s.loops[i] == InJob
    case Turn(i) => i < |s.loops| && s.loops[i] == AfterJob
  }

  function Step(s: State, a: Act): State
    requires Enabled(s, a)
  {
    match a
    case Trigger =>
      s.(flags := Triggered(s.flags), spawning := s.spawning + (if s.flags.running then 0 else 1), history := s.history + [TriggerSeen])
    case Spawn => s.(spawning := s.spawning - 1, loops := s.loops + [Ready])
    case Start(i) => s.(loops := s.loops[i := InJob], history := s.history + [JobStarts])
    case End(i) => s.(loops := s.loops[i := AfterJob], history := s.history + [JobEnds])
    case Turn(i) =>
      s.(flags := Turned(s.flags), loops := if s.flags.dirty then s.loops[i := Ready] else s.loops[..i] + s.loops[i + 1..])
  }

  datatype Run = Ended(s: State) | NotARun

  function Exec(s: State, acts: seq<Act>): Run
    decreases |acts|
  {
    if acts == [] then Ended(s)
    else if !Enabled(s, acts[0]) then NotARun
    else Exec(Step(s, acts[0]), acts[1..])
  }

  function Count(h: seq<Event>, e: Event): nat {
    if h == [] then 0 else Count(h[..|h| - 1], e) + (if h[|h| - 1] == e then 1 else 0)
  }

  /** Triggers the history shows after its last job start. */
  function Unserved(h: seq<Event>): nat {
    if h == [] || h[|h| - 1] == JobStarts then 0
    else Unserved(h[..|h| - 1]) + (if h[|h| - 1] == TriggerSeen then 1 else 0)
  }

  function InFlight(h: seq<Event>): int { Count(h, JobStarts) - Count(h, JobEnds) }

  /** No job starts before the one before it ended. */
  ghost predicate OneAtATime(h: seq<Event>) {
    forall n :: 0 <= n <= |h| ==> 0 <= InFlight(h[..n]) <= 1
  }

  /** The job starts the runner still owes: its loop's next one, and one more when dirty. */
  function Owed(s: State): nat {
    s.spawning + (if s.loops != [] && s.loops[0] == Ready then 1 else 0) + (if s.flags.dirty then 1 else 0)
  }

  /** How many steps the runner takes before it is idle, when no trigger comes. */
  function StepsLeft(s: State): nat {
    4 * s.spawning
    + (if s.loops == [] then 0 else match s.loops[0] case Ready => 3 case InJob => 2 case AfterJob => 1)
    + (if s.flags.dirty then 3 else 0)
  }

  ghost predicate Inv(s: State) {
    && s.spawning + |s.loops| == (if s.flags.running then 1 else 0)
    && (s.flags.dirty ==> s.flags.running)
    && OneAtATime(s.history) && InFlight(s.history) == (if s.loops == [InJob] then 1 else 0)
    && Count(s.history, JobStarts) + Owed(s) <= Count(s.history, TriggerSeen)
    && (Unserved(s.history) > 0 ==> Owed(s) > 0)
  }

  lemma HistoryGrows(h: seq<Event>, e: Event)
    ensures forall x :: Count(h + [e], x) == Count(h, x) + (if x == e then 1 else 0)
    ensures Unserved(h + [e]) == if e == JobStarts then 0 else Unserved(h) + (if e == TriggerSeen then 1 else 0)
    ensures OneAtATime(h) && 0 <= InFlight(h + [e]) <= 1 ==> OneAtATime(h + [e])
  {
    assert (h + [e])[..|h|] == h;
    assert forall n :: 0 <= n <= |h| ==> (h + [e])[..n] == h[..n];
    assert (h + [e])[..|h| + 1] == h + [e];
  }

  lemma TriggerInv(s: State)
    requires Inv(s)
    ensures Inv(Step(s, Trigger))
  {
    HistoryGrows(s.history, TriggerSeen);
  }

  /** A step of the runner itself is progress, and adds or loses no owed start. */
  ghost predicate Progress(s: State, t: State) {
    && StepsLeft(t) == StepsLeft(s) - 1
    && Count(t.history, JobStarts) + Owed(t) == Count(s.history, JobStarts) + Owed(s)
  }

  lemma StartInv(s: State, i: nat)
    requires Inv(s) && Enabled(s, Start(i))
    ensures Inv(Step(s, Start(i))) && Progress(s, Step(s, Start(i)))
  {
    HistoryGrows(s.history, JobStarts);
    assert s.loops == [Ready] && s.loops[i := InJob] == [InJob];
  }

  lemma EndInv(s: State, i: nat)
    requires Inv(s) && Enabled(s, End(i))
    ensures Inv(Step(s, End(i))) && Progress(s, Step(s, End(i)))
  {
    HistoryGrows(s.history, JobEnds);
    assert s.loops == [InJob] && s.loops[i := AfterJob] == [AfterJob];
  }

  lemma TurnInv(s: State, i: nat)
    requires Inv(s) && Enabled(s, Turn(i))
    ensures Inv(Step(s, Turn(i))) && Progress(s, Step(s, Turn(i)))
  {
    assert s.loops == [AfterJob] && s.loops[i := Ready] == [Ready] && s.loops[..i] + s.loops[i + 1..] == [];
  }

  lemma SpawnInv(s: State)
    requires Inv(s) && Enabled(s, Spawn)
    ensures Inv(Step(s, Spawn)) && Progress(s, Step(s, Spawn))
  {
    assert s.loops + [Ready] == [Ready];
  }

  lemma StepInv(s: State, a: Act)
    requires Inv(s) && Enabled(s, a)
    ensures Inv(Step(s, a))
    ensures a != Trigger ==> Progress(s, Step(s, a))
  {
    match a
    case Trigger => TriggerInv(s);
    case Spawn => SpawnInv(s);
    case Start(i) => StartInv(s, i);
    case End(i) => EndInv(s, i);
    case Turn(i) => TurnInv(s, i);
  }

  lemma IdleInv()
    ensures Inv(IDLE)
  {}

  /** Whatever the interleaving: at most one loop, one job at a time, no trigger forgotten. */
  lemma {:induction false} EveryInterleaving(s: State, acts: seq<Act>)
    requires Inv(s) && Exec(s, acts).Ended?
    ensures Inv(Exec(s, acts).s)
    decreases |acts|
  {
    if acts != [] {
      StepInv(s, acts[0]);
      EveryInterleaving(Step(s, acts[0]), acts[1..]);
    }
  }

  /** An idle runner has served every trigger: a job started after the last of them. */
  lemma IdleHasServedAll(acts: seq<Act>)
    requires Exec(IDLE, acts).Ended?
    ensures var s := Exec(IDLE, acts).s;
            && OneAtATime(s.history)
            && Count(s.history, JobStarts) <= Count(s.history, TriggerSeen)
            && (!s.flags.running ==> Unserved(s.history) == 0 && s.spawning == 0 && s.loops == [])
  {
    IdleInv();
    EveryInterleaving(IDLE, acts);
  }

  predicate NoTrigger(acts: seq<Act>) {
    forall i :: 0 <= i < |acts| ==> acts[i] != Trigger
  }

  /** Without new triggers each step is progress, and no start is added or lost. */
  lemma {:induction false} QuietRun(s: State, acts: seq<Act>)
    requires Inv(s) && Exec(s, acts).Ended? && NoTrigger(acts)
    ensures var t := Exec(s, acts).s;
            && Inv(t) && StepsLeft(t) + |acts| == StepsLeft(s)
            && Count(t.history, JobStarts) + Owed(t) == Count(s.history, JobStarts) + Owed(s)
    decreases |acts|
  {
    if acts != [] {
      StepInv(s, acts[0]);
      assert NoTrigger(acts[1..]);
      QuietRun(Step(s, acts[0]), acts[1..]);
    }
  }

  ghost predicate CanStep(s: State) {
    exists a :: a != Trigger && Enabled(s, a)
  }

  lemma StuckIsIdle(s: State)
    requires Inv(s)
    ensures CanStep(s) <==> s.flags.running
  {
    if s.flags.running {
      if s.spawning > 0 {
        assert Enabled(s, Spawn);
      } else {
        assert Enabled(s, match s.loops[0] case Ready => Start(0) case InJob => End(0) case AfterJob => Turn(0));
      }
    }
  }

  /** The runner's own steps in a schedule that triggers may interrupt anywhere. */
  function RunnerSteps(acts: seq<Act>): nat
    decreases |acts|
  {
    if acts == [] then 0 else (if acts[0] == Trigger then 0 else 1) + RunnerSteps(acts[1..])
  }

  /** How many of its own steps the runner takes to its next job start, when it owes one. */
  function ToStart(s: State): nat {
    if s.spawning > 0 then 2
    else if s.loops == [] then 0
    else match s.loops[0] case Ready => 1 case InJob => 3 case AfterJob => 2
  }

  predicate Started(s: State, t: State) {
    Count(t.history, JobStarts) > Count(s.history, JobStarts)
  }

  /** A trigger delays no start; a step of the runner starts a job or comes one step closer. */
  lemma StartComesCloser(s: State, a: Act)
    requires Inv(s) && Owed(s) > 0 && Enabled(s, a)
    ensures var t := Step(s, a);
            && Inv(t) && Count(t.history, JobStarts) >= Count(s.history, JobStarts)
            && (Started(s, t) || (Owed(t) > 0 && ToStart(t) + (if a == Trigger then 0 else 1) == ToStart(s)))
  {
    StepInv(s, a);
    match a
    case Trigger => HistoryGrows(s.history, TriggerSeen);
    case Spawn =>
    case Start(i) => HistoryGrows(s.history, JobStarts);
    case End(i) => HistoryGrows(s.history, JobEnds);
    case Turn(i) =>
  }

  lemma {:induction false} StartsNeverShrink(s: State, acts: seq<Act>)
    requires Exec(s, acts).Ended?
    ensures Count(Exec(s, acts).s.history, JobStarts) >= Count(s.history, JobStarts)
    decreases |acts|
  {
    if acts != [] {
      HistoryGrows(s.history, TriggerSeen);
      HistoryGrows(s.history, JobStarts);
      HistoryGrows(s.history, JobEnds);
      StartsNeverShrink(Step(s, acts[0]), acts[1..]);
    }
  }

  /** An owed start comes within `ToStart` steps of the runner, whatever triggers keep arriving. */
  lemma {:induction false} OwedStartComes(s: State, acts: seq<Act>)
    requires Inv(s) && Owed(s) > 0 && Exec(s, acts).Ended?
    ensures RunnerSteps(acts) >= ToStart(s) ==> Started(s, Exec(s, acts).s)
    ensures !Started(s, Exec(s, acts).s) ==> CanStep(Exec(s, acts).s)
    decreases |acts|
  {
    if acts == [] {
      StuckIsIdle(s);
    } else {
      var t := Step(s, acts[0]);
      StartComesCloser(s, acts[0]);
      StartsNeverShrink(t, acts[1..]);
      if !Started(s, t) {
        OwedStartComes(t, acts[1..]);
      }
    }
  }

  /**
   Every trigger is followed by a job start, in every interleaving and under any later triggers:
   from the trigger on, a job starts within three steps of the runner, and until it does the
   runner has a step to take.
  */
  lemma EveryTriggerIsServed(before: seq<Act>, after: seq<Act>)
    requires Exec(IDLE, before).Ended?
    requires Exec(Step(Exec(IDLE, before).s, Trigger), after).Ended?
    ensures var triggered := Step(Exec(IDLE, before).s, Trigger);
            var end := Exec(triggered, after).s;
            && (RunnerSteps(after) >= 3 ==> Started(triggered, end))
            && (!Started(triggered, end) ==> CanStep(end))
  {
    IdleInv();
    EveryInterleaving(IDLE, before);
    StepInv(Exec(IDLE, before).s, Trigger);
    OwedStartComes(Step(Exec(IDLE, before).s, Trigger), after);
  }

  /**
   Once triggers stop, every schedule takes exactly `StepsLeft` steps to idle, with exactly the
   owed starts: at least one when a trigger is unserved.
  */
  lemma QuietRunnerGoesIdle(s: State, acts: seq<Act>)
    requires Inv(s) && Exec(s, acts).Ended? && NoTrigger(acts)
    ensures |acts| <= StepsLeft(s)
    ensures CanStep(Exec(s, acts).s) <==> |acts| < StepsLeft(s)
    ensures |acts| == StepsLeft(s) ==>
              && !Exec(s, acts).s.flags.running
              && Count(Exec(s, acts).s.history, JobStarts) == Count(s.history, JobStarts) + Owed(s)
    ensures Unserved(s.history) > 0 ==> Owed(s) > 0
  {
    QuietRun(s, acts);
    StuckIsIdle(Exec(s, acts).s);
  }

  function Burst(s: State, k: nat): State {
    if k == 0 then s else Step(Burst(s, k - 1), Trigger)
  }

  lemma {:induction false} BurstIs(s: State, k: nat)
    requires k > 0
    ensures Burst(s, k).flags == Flags(true, s.flags.running || s.flags.dirty || k > 1)
    ensures Burst(s, k).loops == s.loops && Burst(s, k).spawning == s.spawning + (if s.flags.running then 0 else 1)
  {
    if k > 1 {
      BurstIs(s, k - 1);
    } else {
      assert Burst(s, 0) == s;
    }
  }

  /**
   However long a burst is, it adds one run to a running runner, or none when a rerun is already
   owed. An idle runner runs once for a single trigger, and twice when more come before its
   first start.
  */
  lemma BurstAddsOneRun(s: State, k: nat)
    requires Inv(s) && k > 0
    ensures s.flags.running ==> Owed(Burst(s, k)) == Owed(s) + (if s.flags.dirty then 0 else 1)
    ensures !s.flags.running ==> Owed(Burst(s, k)) == if k == 1 then 1 else 2
  {
    BurstIs(s, k);
  }
}
