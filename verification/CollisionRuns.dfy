/**
 What every interleaving of collision runs keeps: opposite choices on different machines, runs
 that die anywhere, and other work on every store in between.
*/
module CollisionRuns {
  import opened Options
  import opened TaskStore
  import opened CollisionProtocol

  /** A contestant that does not hold the contested number is not below it either. */
  lemma AtDepthIsNotBelow(c: Collision, tasks: Tasks, u: Uid)
    requires AtDepth(c, tasks, u)
    ensures u in tasks && tasks[u].number != c.number ==> !Under(c.number, tasks[u].number)
  {}

  ghost predicate StoreInv(c: Collision, tasks: Tasks) {
    Distinct(tasks) && AtDepth(c, tasks, c.heldUid) && AtDepth(c, tasks, c.incomingUid)
  }

  /** An open collision, no run yet; any stores. */
  ghost predicate Initial(c: Collision, s: System) {
    && WellFormed(c) && s.hub == HubRow(None, None) && s.runs == map[]
    && forall cl :: cl in s.stores ==> StoreInv(c, s.stores[cl])
  }

  function DecidedLoser(c: Collision, winner: string): Uid {
    if winner == c.heldEvent then c.incomingUid else c.heldUid
  }

  function DecidedWinner(c: Collision, winner: string): Uid {
    if winner == c.heldEvent then c.heldUid else c.incomingUid
  }

  ghost predicate RecordedSomewhere(c: Collision, s: System, winner: string, path: Number) {
    exists cl :: cl in s.stores && DecidedLoser(c, winner) in s.stores[cl]
                 && s.stores[cl][DecidedLoser(c, winner)].number == path
  }

  ghost predicate HubInv(c: Collision, s: System) {
    && (s.hub.decision.Some? ==> s.hub.decision.value == c.heldEvent || s.hub.decision.value == c.incomingEvent)
    && (s.hub.completed.Some? ==>
          s.hub.decision.Some? && s.hub.completed.value != c.number
          && RecordedSomewhere(c, s, s.hub.decision.value, s.hub.completed.value))
  }

  ghost predicate RunInv(c: Collision, s: System, run: Run) {
    && run.client in s.stores
    && (run.pc == Renumbering || run.pc.Finishing? || run.pc.Resolved? ==> s.hub.decision == Some(Winner(c, run.side)))
    && (run.pc.Finishing? || run.pc.Resolved? ==>
          var tasks, loser := s.stores[run.client], LoserUid(c, run.side);
          loser in tasks && tasks[loser].number == run.pc.path != c.number)
    && (run.pc.Resolved? || run.pc.NoOp? ==> s.hub.completed == Some(run.pc.path))
  }

  ghost predicate Inv(c: Collision, s: System) {
    && WellFormed(c) && HubInv(c, s)
    && (forall cl :: cl in s.stores ==> StoreInv(c, s.stores[cl]))
    && (forall r :: r in s.runs ==> RunInv(c, s, s.runs[r]))
  }

  lemma InitialInv(c: Collision, s: System)
    requires Initial(c, s)
    ensures Inv(c, s)
  {}

  lemma LoserOfSide(c: Collision, side: Side)
    requires WellFormed(c)
    ensures DecidedLoser(c, Winner(c, side)) == LoserUid(c, side)
    ensures DecidedWinner(c, Winner(c, side)) == WinnerUid(c, side)
    ensures LoserUid(c, side) != WinnerUid(c, side)
  {}

  /** One step never takes back a decision or a recorded path. */
  lemma HubIsWriteOnce(c: Collision, s: System, a: Act)
    requires Enabled(c, s, a)
    ensures s.hub.decision.Some? ==> Step(c, s, a).hub.decision == s.hub.decision
    ensures s.hub.decision.Some? && s.hub.completed.Some? ==> Step(c, s, a).hub.completed == s.hub.completed
  {}

  /** The move itself: exactly the loser's subtree leaves, and the contestants stay in order. */
  lemma MoveKeepsStoreInv(c: Collision, side: Side, now: Tasks, target: Number)
    requires WellFormed(c) && StoreInv(c, now)
    requires LoserUid(c, side) in now && now[LoserUid(c, side)].number == c.number
    requires NamespaceFree(now, target) && Siblings(c.number, target) && target != c.number
    ensures StoreInv(c, Moved(now, c.number, target)) && StaysPut(now, Moved(now, c.number, target), WinnerUid(c, side))
    ensures Moved(now, c.number, target)[LoserUid(c, side)].number == target
    ensures forall u :: u in now && !Under(c.number, now[u].number) ==> Moved(now, c.number, target)[u] == now[u]
  {
    LoserOfSide(c, side);
    MoveKeepsTasks(now, c.number, target);
    var loser, winner := LoserUid(c, side), WinnerUid(c, side);
    assert c.number[|c.number|..] == [];
    if winner in now {
      // The loser holds the number, so the winner does not, and it is not below it.
      assert now[winner].number != c.number;
      AtDepthIsNotBelow(c, now, winner);
    }
    assert !Under(c.number, target);
  }

  lemma StoresStepInv(c: Collision, s: System, a: Act)
    requires Inv(c, s) && Enabled(c, s, a)
    ensures var s' := Step(c, s, a);
            && s'.stores.Keys == s.stores.Keys
            && forall cl :: cl in s'.stores ==> StoreInv(c, s'.stores[cl])
  {
    var s' := Step(c, s, a);
    if a.Renumber? {
      var run := s.runs[a.run];
      var tasks, loser := s.stores[run.client], LoserUid(c, run.side);
      if Live(tasks, loser) && tasks[loser].number == c.number {
        MoveKeepsStoreInv(c, run.side, tasks, a.target);
      }
    }
  }

  /** The numbers of tasks that a step changes: only a loser's, and only away from the contested one. */
  lemma LoserSettles(c: Collision, s: System, a: Act, cl: nat, u: Uid)
    requires Inv(c, s) && Enabled(c, s, a) && cl in s.stores
    requires u == c.heldUid || u == c.incomingUid
    requires u in s.stores[cl] && s.stores[cl][u].number != c.number
    ensures cl in Step(c, s, a).stores && u in Step(c, s, a).stores[cl]
    ensures Step(c, s, a).stores[cl][u].number == s.stores[cl][u].number
  {
    if a.Renumber? {
      var run := s.runs[a.run];
      var tasks, loser := s.stores[run.client], LoserUid(c, run.side);
      if Live(tasks, loser) && tasks[loser].number == c.number {
        MoveKeepsStoreInv(c, run.side, tasks, a.target);
      }
    }
  }

  lemma HubStepInv(c: Collision, s: System, a: Act)
    requires Inv(c, s) && Enabled(c, s, a)
    ensures HubInv(c, Step(c, s, a))
  {
    var s' := Step(c, s, a);
    HubIsWriteOnce(c, s, a);
    StoresStepInv(c, s, a);
    if s'.hub.completed.Some? {
      var path, loser := s'.hub.completed.value, DecidedLoser(c, s'.hub.decision.value);
      if s.hub.completed.Some? {
        var cl :| cl in s.stores && loser in s.stores[cl] && s.stores[cl][loser].number == path;
        LoserSettles(c, s, a, cl, loser);
      } else {
        assert a.Finish?;
        var run := s.runs[a.run];
        LoserOfSide(c, run.side);
        assert s'.stores[run.client][loser].number == path;
      }
      assert RecordedSomewhere(c, s', s'.hub.decision.value, path);
    }
  }

  /** A run that does not act keeps what it knows. */
  lemma OtherRunInv(c: Collision, s: System, a: Act, r: nat)
    requires Inv(c, s) && Enabled(c, s, a) && r in s.runs
    ensures RunInv(c, Step(c, s, a), s.runs[r])
  {
    HubIsWriteOnce(c, s, a);
    StoresStepInv(c, s, a);
    var run := s.runs[r];
    var loser := LoserUid(c, run.side);
    assert RunInv(c, s, run);
    if run.pc.Finishing? || run.pc.Resolved? {
      LoserSettles(c, s, a, run.client, loser);
    }
  }

  lemma ActingRunInv(c: Collision, s: System, a: Act)
    requires Inv(c, s) && Enabled(c, s, a) && !a.Start? && !a.Local?
    ensures a.run in Step(c, s, a).runs && RunInv(c, Step(c, s, a), Step(c, s, a).runs[a.run])
  {
    var run := s.runs[a.run];
    assert RunInv(c, s, run);
    if a.Renumber? {
      var tasks, loser := s.stores[run.client], LoserUid(c, run.side);
      if Live(tasks, loser) && tasks[loser].number == c.number {
        MoveKeepsStoreInv(c, run.side, tasks, a.target);
      }
    }
  }

  lemma StepInv(c: Collision, s: System, a: Act)
    requires Inv(c, s) && Enabled(c, s, a)
    ensures Inv(c, Step(c, s, a))
  {
    StoresStepInv(c, s, a);
    HubStepInv(c, s, a);
    forall r | r in Step(c, s, a).runs
      ensures RunInv(c, Step(c, s, a), Step(c, s, a).runs[r])
    {
      if !a.Start? && !a.Local? && r == a.run {
        ActingRunInv(c, s, a);
      } else if r in s.runs {
        OtherRunInv(c, s, a, r);
      }
    }
  }

  // ---- Whole traces ----------------------------------------------------------------------

  ghost predicate Trace(c: Collision, ss: seq<System>, acts: seq<Act>) {
    && |ss| == |acts| + 1 && Initial(c, ss[0])
    && forall i :: 0 <= i < |acts| ==> Enabled(c, ss[i], acts[i]) && ss[i + 1] == Step(c, ss[i], acts[i])
  }

  lemma {:induction false} TraceInv(c: Collision, ss: seq<System>, acts: seq<Act>, i: nat)
    requires Trace(c, ss, acts) && i <= |acts|
    ensures Inv(c, ss[i])
  {
    if i == 0 {
      InitialInv(c, ss[0]);
    } else {
      TraceInv(c, ss, acts, i - 1);
      StepInv(c, ss[i - 1], acts[i - 1]);
    }
  }

  lemma HubOnceAt(c: Collision, ss: seq<System>, acts: seq<Act>, k: nat)
    requires Trace(c, ss, acts) && k < |acts|
    ensures ss[k].hub.decision.Some? ==> ss[k + 1].hub.decision == ss[k].hub.decision
    ensures ss[k].hub.completed.Some? ==> ss[k + 1].hub.completed == ss[k].hub.completed
  {
    TraceInv(c, ss, acts, k);
    assert HubInv(c, ss[k]);
    HubIsWriteOnce(c, ss[k], acts[k]);
  }

  /** The hub's decision and its recorded path are each written at most once. */
  lemma {:induction false} DecisionIsWrittenOnce(c: Collision, ss: seq<System>, acts: seq<Act>, i: nat, j: nat)
    requires Trace(c, ss, acts) && i <= j <= |acts|
    ensures ss[i].hub.decision.Some? ==> ss[j].hub.decision == ss[i].hub.decision
    ensures ss[i].hub.completed.Some? ==> ss[j].hub.completed == ss[i].hub.completed
    decreases j
  {
    if i < j {
      DecisionIsWrittenOnce(c, ss, acts, i, j - 1);
      HubOnceAt(c, ss, acts, j - 1);
    }
  }

  /**
   A run changes a store only while the hub's decision names the other side; it then moves the
   loser's subtree off the contested number on its own client, loses no task, and leaves the
   winner and everything outside that subtree where they were.
  */
  lemma StoreChangesOnlyOnceDecided(c: Collision, ss: seq<System>, acts: seq<Act>, i: nat)
    requires Trace(c, ss, acts) && i < |acts|
    requires !acts[i].Local? && ss[i + 1].stores != ss[i].stores
    ensures acts[i].Renumber?
    ensures var run := ss[i].runs[acts[i].run];
            var before, after := ss[i].stores[run.client], ss[i + 1].stores[run.client];
            && ss[i].hub.decision == Some(Winner(c, run.side))
            && ss[i + 1].stores == ss[i].stores[run.client := after]
            && after.Keys == before.Keys && Distinct(after)
            && before[LoserUid(c, run.side)].number == c.number
            && after[LoserUid(c, run.side)].number == acts[i].target
            && (forall u :: u in before && !Under(c.number, before[u].number) ==> after[u] == before[u])
            && (WinnerUid(c, run.side) in before ==> after[WinnerUid(c, run.side)] == before[WinnerUid(c, run.side)])
  {
    TraceInv(c, ss, acts, i);
    assert acts[i].Renumber?;
    var run := ss[i].runs[acts[i].run];
    var before := ss[i].stores[run.client];
    LoserOfSide(c, run.side);
    assert before[LoserUid(c, run.side)].number == c.number;
    MoveKeepsStoreInv(c, run.side, before, acts[i].target);
    var w := WinnerUid(c, run.side);
    if w in before {
      assert before[w].number != c.number && AtDepth(c, before, w);
      AtDepthIsNotBelow(c, before, w);
    }
  }

  /** A contestant a step renumbers is the decided loser, and leaves the contested number. */
  ghost predicate StaysOrLeaves(c: Collision, decision: Option<string>, was: Tasks, now: Tasks, u: Uid) {
    u in was ==>
      && u in now
      && (now[u].number != was[u].number ==>
            was[u].number == c.number && decision.Some? && u == DecidedLoser(c, decision.value))
  }

  lemma StepStaysOrLeaves(c: Collision, s: System, a: Act, cl: nat, u: Uid)
    requires Inv(c, s) && Enabled(c, s, a) && cl in s.stores
    requires u == c.heldUid || u == c.incomingUid
    ensures cl in Step(c, s, a).stores && StaysOrLeaves(c, s.hub.decision, s.stores[cl], Step(c, s, a).stores[cl], u)
  {
    if a.Renumber? {
      var run := s.runs[a.run];
      var tasks, loser := s.stores[run.client], LoserUid(c, run.side);
      assert RunInv(c, s, run);
      LoserOfSide(c, run.side);
      if Live(tasks, loser) && tasks[loser].number == c.number {
        MoveKeepsStoreInv(c, run.side, tasks, a.target);
      }
    }
  }

  lemma StaysOrLeavesOn(c: Collision, before: Option<string>, after: Option<string>, was: Tasks, now: Tasks, next: Tasks, u: Uid)
    requires StaysOrLeaves(c, before, was, now, u) && StaysOrLeaves(c, before, now, next, u)
    requires before.Some? ==> after == before
    ensures StaysOrLeaves(c, after, was, next, u)
  {}

  lemma {:induction false} StoresRemain(c: Collision, ss: seq<System>, acts: seq<Act>, i: nat)
    requires Trace(c, ss, acts) && i <= |acts|
    ensures ss[i].stores.Keys == ss[0].stores.Keys
  {
    if i > 0 {
      StoresRemain(c, ss, acts, i - 1);
      TraceInv(c, ss, acts, i - 1);
      StoresStepInv(c, ss[i - 1], acts[i - 1]);
    }
  }

  lemma OneStepStaysOrLeaves(c: Collision, ss: seq<System>, acts: seq<Act>, k: nat, cl: nat, u: Uid)
    requires Trace(c, ss, acts) && k < |acts| && cl in ss[k].stores
    requires u == c.heldUid || u == c.incomingUid
    ensures cl in ss[k + 1].stores && StaysOrLeaves(c, ss[k].hub.decision, ss[k].stores[cl], ss[k + 1].stores[cl], u)
    ensures ss[k].hub.decision.Some? ==> ss[k + 1].hub.decision == ss[k].hub.decision
  {
    TraceInv(c, ss, acts, k);
    StepStaysOrLeaves(c, ss[k], acts[k], cl, u);
    HubOnceAt(c, ss, acts, k);
  }

  /**
   From any moment of a trace to any later one, on every store that has it, a contestant keeps its
   number, or is the decided winner's loser and has left the contested number.
  */
  lemma {:induction false} TraceStaysOrLeaves(c: Collision, ss: seq<System>, acts: seq<Act>, i: nat, j: nat, cl: nat, u: Uid)
    requires Trace(c, ss, acts) && i <= j <= |acts| && cl in ss[0].stores
    requires u == c.heldUid || u == c.incomingUid
    ensures cl in ss[i].stores && cl in ss[j].stores
    ensures StaysOrLeaves(c, ss[j].hub.decision, ss[i].stores[cl], ss[j].stores[cl], u)
    decreases j
  {
    StoresRemain(c, ss, acts, i);
    if i < j {
      TraceStaysOrLeaves(c, ss, acts, i, j - 1, cl, u);
      OneStepStaysOrLeaves(c, ss, acts, j - 1, cl, u);
      StaysOrLeavesOn(c, ss[j - 1].hub.decision, ss[j].hub.decision, ss[i].stores[cl], ss[j - 1].stores[cl], ss[j].stores[cl], u);
    }
  }

  /** On every store, from when it has the decided winner, the winner keeps its number. */
  lemma WinnerNeverMoves(c: Collision, ss: seq<System>, acts: seq<Act>, i: nat, j: nat, cl: nat)
    requires Trace(c, ss, acts) && i <= j <= |acts| && cl in ss[0].stores
    requires ss[j].hub.decision.Some?
    ensures cl in ss[i].stores && cl in ss[j].stores
    ensures StaysPut(ss[i].stores[cl], ss[j].stores[cl], DecidedWinner(c, ss[j].hub.decision.value))
  {
    TraceInv(c, ss, acts, j);
    TraceStaysOrLeaves(c, ss, acts, i, j, cl, DecidedWinner(c, ss[j].hub.decision.value));
  }

  /** Until the hub has decided, no run has moved either contestant on any store. */
  lemma NobodyMovesWhileOpen(c: Collision, ss: seq<System>, acts: seq<Act>, i: nat, j: nat, cl: nat, u: Uid)
    requires Trace(c, ss, acts) && i <= j <= |acts| && cl in ss[0].stores
    requires u == c.heldUid || u == c.incomingUid
    requires ss[j].hub.decision.None?
    ensures cl in ss[i].stores && cl in ss[j].stores && StaysPut(ss[i].stores[cl], ss[j].stores[cl], u)
  {
    TraceStaysOrLeaves(c, ss, acts, i, j, cl, u);
  }

  /** On every store, from when it has a contestant, its number changes at most once. */
  lemma MovesAtMostOnce(c: Collision, ss: seq<System>, acts: seq<Act>, i: nat, j: nat, k: nat, cl: nat, u: Uid)
    requires Trace(c, ss, acts) && i <= j <= k <= |acts| && cl in ss[0].stores
    requires u == c.heldUid || u == c.incomingUid
    ensures cl in ss[i].stores && cl in ss[j].stores && cl in ss[k].stores
    ensures u in ss[i].stores[cl] ==> u in ss[j].stores[cl] && u in ss[k].stores[cl]
    ensures u in ss[i].stores[cl] && ss[j].stores[cl][u].number != ss[i].stores[cl][u].number ==>
              && ss[i].stores[cl][u].number == c.number
              && ss[k].stores[cl][u].number == ss[j].stores[cl][u].number
  {
    TraceStaysOrLeaves(c, ss, acts, i, j, cl, u);
    TraceStaysOrLeaves(c, ss, acts, j, k, cl, u);
  }

  // ---- Resuming --------------------------------------------------------------------------

  /** The steps of one run in which nothing fails. */
  ghost function CompleteRun(s: System, r: nat, cl: nat, side: Side, target: Number): seq<Act> {
    [Start(r, cl, side), Load(r), Locate(r), Accept(r)]
    + (if s.hub.decision.None? then [] else [Verify(r)])
    + [Renumber(r, target), Finish(r)]
  }

  ghost function ExecAll(c: Collision, s: System, acts: seq<Act>): Option<System>
    decreases |acts|
  {
    if acts == [] then Some(s)
    else if Enabled(c, s, acts[0]) then ExecAll(c, Step(c, s, acts[0]), acts[1..])
    else None
  }

  lemma {:induction false} ExecAllAppend(c: Collision, s: System, acts: seq<Act>, a: Act)
    ensures ExecAll(c, s, acts + [a])
         == var before := ExecAll(c, s, acts);
            if before.Some? && Enabled(c, before.value, a) then Some(Step(c, before.value, a)) else None
    decreases |acts|
  {
    if acts == [] {
      assert [] + [a] == [a] && [a][1..] == [];
    } else {
      assert (acts + [a])[1..] == acts[1..] + [a];
      if Enabled(c, s, acts[0]) {
        ExecAllAppend(c, Step(c, s, acts[0]), acts[1..], a);
      }
    }
  }

  /** The runs the command performs are the runs that resume: read from either end they are one. */
  lemma {:induction false} ExecIsExecAll(c: Collision, s: System, acts: seq<Act>)
    ensures Exec(c, s, acts) == ExecAll(c, s, acts)
  {
    if acts != [] {
      var n := |acts| - 1;
      ExecIsExecAll(c, s, acts[..n]);
      assert acts[..n] + [acts[n]] == acts;
      ExecAllAppend(c, s, acts[..n], acts[n]);
    }
  }

  lemma ExecOne(c: Collision, s: System, a: Act, rest: seq<Act>)
    requires Enabled(c, s, a)
    ensures ExecAll(c, s, [a] + rest) == ExecAll(c, Step(c, s, a), rest)
  {
    assert ([a] + rest)[1..] == rest;
  }

  /** `s` with a run of client `cl` at `pc`, and the hub row `hub`. */
  ghost function At(s: System, hub: HubRow, r: nat, cl: nat, side: Side, pc: Pc): System {
    System(hub, s.stores, s.runs[r := Run(cl, side, pc)])
  }

  lemma GotoAt(s: System, hub: HubRow, r: nat, cl: nat, side: Side, pc: Pc, next: Pc)
    ensures Goto(At(s, hub, r, cl, side, pc), r, next) == At(s, hub, r, cl, side, next)
  {
    assert s.runs[r := Run(cl, side, pc)][r := Run(cl, side, next)] == s.runs[r := Run(cl, side, next)];
  }

  lemma StepsToAccept(c: Collision, s: System, r: nat, cl: nat, side: Side, rest: seq<Act>)
    requires r !in s.runs && cl in s.stores
    requires s.hub.decision.None? || s.hub.decision == Some(Winner(c, side))
    requires s.hub.completed.None? && Live(s.stores[cl], LoserUid(c, side))
    ensures ExecAll(c, s, [Start(r, cl, side)] + ([Load(r)] + ([Locate(r)] + rest)))
            == ExecAll(c, At(s, s.hub, r, cl, side, Accepting), rest)
  {
    GotoAt(s, s.hub, r, cl, side, Loading, Locating);
    GotoAt(s, s.hub, r, cl, side, Locating, Accepting);
    ExecOne(c, s, Start(r, cl, side), [Load(r)] + ([Locate(r)] + rest));
    ExecOne(c, At(s, s.hub, r, cl, side, Loading), Load(r), [Locate(r)] + rest);
    ExecOne(c, At(s, s.hub, r, cl, side, Locating), Locate(r), rest);
  }

  lemma StepsToRenumber(c: Collision, s: System, r: nat, cl: nat, side: Side, rest: seq<Act>)
    requires cl in s.stores && s.hub.completed.None?
    requires s.hub.decision.None? || s.hub.decision == Some(Winner(c, side))
    ensures ExecAll(c, At(s, s.hub, r, cl, side, Accepting),
                    [Accept(r)] + ((if s.hub.decision.None? then [] else [Verify(r)]) + rest))
            == ExecAll(c, At(s, HubRow(Some(Winner(c, side)), None), r, cl, side, Renumbering), rest)
  {
    var hub := HubRow(Some(Winner(c, side)), None);
    var s3 := At(s, s.hub, r, cl, side, Accepting);
    if s.hub.decision.None? {
      assert [] + rest == rest;
      ExecOne(c, s3, Accept(r), rest);
      GotoAt(s, hub, r, cl, side, Accepting, Renumbering);
      assert Step(c, s3, Accept(r)) == Goto(At(s, hub, r, cl, side, Accepting), r, Renumbering);
    } else {
      ExecOne(c, s3, Accept(r), [Verify(r)] + rest);
      GotoAt(s, hub, r, cl, side, Accepting, Verifying);
      GotoAt(s, hub, r, cl, side, Verifying, Renumbering);
      ExecOne(c, At(s, hub, r, cl, side, Verifying), Verify(r), rest);
    }
  }

  lemma MoveLandsAt(c: Collision, tasks: Tasks, target: Number, u: Uid)
    requires u in tasks
    ensures tasks[u].number == c.number ==> Moved(tasks, c.number, target)[u].number == target
  {
    assert c.number[|c.number|..] == [];
  }

  lemma StepsToFinish(c: Collision, s: System, r: nat, cl: nat, side: Side, target: Number)
    requires cl in s.stores && Live(s.stores[cl], LoserUid(c, side))
    requires NamespaceFree(s.stores[cl], target) && Siblings(c.number, target) && target != c.number
    ensures var tasks, loser := s.stores[cl], LoserUid(c, side);
            var moved := tasks[loser].number == c.number;
            var path := if moved then target else tasks[loser].number;
            ExecAll(c, At(s, HubRow(Some(Winner(c, side)), None), r, cl, side, Renumbering),
                    [Renumber(r, target)] + ([Finish(r)] + []))
            == Some(System(HubRow(Some(Winner(c, side)), Some(path)),
                           if moved then s.stores[cl := Moved(tasks, c.number, target)] else s.stores,
                           s.runs[r := Run(cl, side, Resolved(path))]))
  {
    var hub := HubRow(Some(Winner(c, side)), None);
    var s5 := At(s, hub, r, cl, side, Renumbering);
    var s6 := Step(c, s5, Renumber(r, target));
    ExecOne(c, s5, Renumber(r, target), [Finish(r)] + []);
    ExecOne(c, s6, Finish(r), []);
    var s7 := Step(c, s6, Finish(r));
    assert s7.runs == s.runs[r := Run(cl, side, s7.runs[r].pc)];
  }

  /**
   Any number of dead runs, then one run of the decided choice (or of any choice while the hub
   is open) on a client that holds the live loser: it finishes, the loser is off the contested
   number, and the hub records exactly its local number. The loser is moved only if no earlier
   run had moved it. Every later run of that choice, on any client, changes nothing.
  */
  lemma CrashedRunsResume(c: Collision, s: System, r: nat, cl: nat, side: Side, target: Number)
    requires Inv(c, s) && r !in s.runs && cl in s.stores
    requires s.hub.decision.None? || s.hub.decision == Some(Winner(c, side))
    requires s.hub.completed.None? && Live(s.stores[cl], LoserUid(c, side))
    requires NamespaceFree(s.stores[cl], target) && Siblings(c.number, target) && target != c.number
    ensures var tasks, loser := s.stores[cl], LoserUid(c, side);
            var moved := tasks[loser].number == c.number;
            var path := if moved then target else tasks[loser].number;
            && path != c.number
            && ExecAll(c, s, CompleteRun(s, r, cl, side, target))
               == Some(System(HubRow(Some(Winner(c, side)), Some(path)),
                              if moved then s.stores[cl := Moved(tasks, c.number, target)] else s.stores,
                              s.runs[r := Run(cl, side, Resolved(path))]))
            && (moved ==> Moved(tasks, c.number, target)[loser].number == path)
  {
    var tasks, loser := s.stores[cl], LoserUid(c, side);
    var tail := [Renumber(r, target)] + ([Finish(r)] + []);
    var verify := if s.hub.decision.None? then [] else [Verify(r)];
    assert CompleteRun(s, r, cl, side, target)
        == [Start(r, cl, side)] + ([Load(r)] + ([Locate(r)] + ([Accept(r)] + (verify + tail))));
    StepsToAccept(c, s, r, cl, side, [Accept(r)] + (verify + tail));
    StepsToRenumber(c, s, r, cl, side, tail);
    StepsToFinish(c, s, r, cl, side, target);
    MoveLandsAt(c, tasks, target, loser);
    AtDepthIsNotBelow(c, tasks, loser);
  }

  lemma LaterRunsAreNoOps(c: Collision, s: System, r: nat, cl: nat, side: Side)
    requires Inv(c, s) && r !in s.runs && cl in s.stores && s.hub.completed.Some?
    ensures var pc := if s.hub.decision == Some(Winner(c, side)) then NoOp(s.hub.completed.value) else Failed;
            ExecAll(c, s, [Start(r, cl, side), Load(r)]) == Some(s.(runs := s.runs[r := Run(cl, side, pc)]))
  {
    var s1 := Step(c, s, Start(r, cl, side));
    ExecOne(c, s, Start(r, cl, side), [Load(r)]);
    ExecOne(c, s1, Load(r), []);
    assert [Start(r, cl, side), Load(r)] == [Start(r, cl, side)] + [Load(r)];
    assert [Load(r)] == [Load(r)] + [];
    var s2 := Step(c, s1, Load(r));
    assert s2.runs == s.runs[r := s2.runs[r]];
  }

  // ---- Two stores that both hold the loser -------------------------------------------------

  /**
   In any trace, when a run asks the hub to record its move, the hub refuses if and only if it
   already holds another number, and then some other client's store gave the loser that number.
  */
  lemma RecordingRefusedIff(c: Collision, ss: seq<System>, acts: seq<Act>, i: nat, r: nat)
    requires Trace(c, ss, acts) && i <= |acts| && r in ss[i].runs && ss[i].runs[r].pc.Finishing?
    ensures Enabled(c, ss[i], Finish(r))
    ensures var s := ss[i];
            var run := s.runs[r];
            var after := Step(c, s, Finish(r)).runs[r].pc;
            && (after == Failed <==> s.hub.completed.Some? && s.hub.completed.value != run.pc.path)
            && (after == Failed ==>
                  exists cl :: cl in s.stores && cl != run.client && LoserUid(c, run.side) in s.stores[cl]
                               && s.stores[cl][LoserUid(c, run.side)].number == s.hub.completed.value)
  {
    TraceInv(c, ss, acts, i);
    LoserOfSide(c, ss[i].runs[r].side);
  }

  /** So with one store holding the loser, no run is refused and the record is its number. */
  lemma SingleOwnerNeverRefused(c: Collision, ss: seq<System>, acts: seq<Act>, i: nat, r: nat, owner: nat)
    requires Trace(c, ss, acts) && i <= |acts| && r in ss[i].runs && ss[i].runs[r].pc.Finishing?
    requires forall cl :: cl in ss[i].stores && LoserUid(c, ss[i].runs[r].side) in ss[i].stores[cl] ==> cl == owner
    ensures Enabled(c, ss[i], Finish(r))
    ensures Step(c, ss[i], Finish(r)).runs[r].pc == Resolved(ss[i].runs[r].pc.path)
    ensures Step(c, ss[i], Finish(r)).hub.completed == Some(ss[i].runs[r].pc.path)
  {
    TraceInv(c, ss, acts, i);
    RecordingRefusedIff(c, ss, acts, i, r);
    var run := ss[i].runs[r];
    assert LoserUid(c, run.side) in ss[i].stores[run.client];
  }

  /** Both runs of one choice at their local move, on two stores that both hold the loser. */
  ghost predicate BothAboutToMove(c: Collision, s: System) {
    && s.hub == HubRow(Some(Winner(c, Held)), None) && 0 in s.stores && 1 in s.stores
    && 0 in s.runs && s.runs[0] == Run(0, Held, Renumbering)
    && 1 in s.runs && s.runs[1] == Run(1, Held, Renumbering)
    && (forall cl :: cl == 0 || cl == 1 ==>
          Live(s.stores[cl], LoserUid(c, Held)) && s.stores[cl][LoserUid(c, Held)].number == c.number)
  }

  lemma FirstMoves(c: Collision, s: System, p: Number, rest: seq<Act>) returns (m: System)
    requires BothAboutToMove(c, s)
    requires NamespaceFree(s.stores[0], p) && Siblings(c.number, p) && p != c.number
    ensures ExecAll(c, s, [Renumber(0, p)] + rest) == ExecAll(c, m, rest)
    ensures m.hub == s.hub && m.stores.Keys == s.stores.Keys && m.stores[1] == s.stores[1]
    ensures m.runs == s.runs[0 := Run(0, Held, Finishing(p))]
  {
    m := Step(c, s, Renumber(0, p));
    ExecOne(c, s, Renumber(0, p), rest);
  }

  lemma SecondMoves(c: Collision, s: System, p: Number, q: Number, rest: seq<Act>) returns (m: System)
    requires BothAboutToMove(c, s)
    requires NamespaceFree(s.stores[0], p) && Siblings(c.number, p) && p != c.number
    requires NamespaceFree(s.stores[1], q) && Siblings(c.number, q) && q != c.number
    ensures ExecAll(c, s, [Renumber(0, p)] + ([Renumber(1, q)] + rest)) == ExecAll(c, m, rest)
    ensures m.hub == s.hub && 1 in m.stores && 0 in m.stores
    ensures LoserUid(c, Held) in m.stores[1] && m.stores[1][LoserUid(c, Held)].number == q
    ensures m.runs == s.runs[0 := Run(0, Held, Finishing(p))][1 := Run(1, Held, Finishing(q))]
  {
    var m0 := FirstMoves(c, s, p, [Renumber(1, q)] + rest);
    MoveLandsAt(c, m0.stores[1], q, LoserUid(c, Held));
    m := Step(c, m0, Renumber(1, q));
    ExecOne(c, m0, Renumber(1, q), rest);
  }

  lemma SecondRecordIsRefused(c: Collision, m: System, p: Number, q: Number)
    requires m.hub == HubRow(Some(Winner(c, Held)), None) && p != q && 0 in m.stores && 1 in m.stores
    requires 0 in m.runs && m.runs[0] == Run(0, Held, Finishing(p))
    requires 1 in m.runs && m.runs[1] == Run(1, Held, Finishing(q))
    ensures var e := ExecAll(c, m, [Finish(0)] + ([Finish(1)] + []));
            e.Some? && e.value.hub.completed == Some(p) && 1 in e.value.runs
            && e.value.runs[1].pc == Failed && e.value.stores == m.stores
  {
    var m1 := Step(c, m, Finish(0));
    ExecOne(c, m, Finish(0), [Finish(1)] + []);
    ExecOne(c, m1, Finish(1), []);
  }

  /**
   Two stores that both hold the loser can disagree. From such a pair of stores and an open
   collision, two runs of the same choice move it to different free numbers, and the second is
   refused at the hub after its local move.
  */
  lemma TwoOwnersCanDisagree(c: Collision, tasks: Tasks, p: Number, q: Number) returns (acts: seq<Act>, e: System)
    requires Initial(c, System(HubRow(None, None), map[0 := tasks, 1 := tasks], map[]))
    requires Live(tasks, LoserUid(c, Held)) && tasks[LoserUid(c, Held)].number == c.number
    requires p != q && p != c.number && q != c.number && Siblings(c.number, p) && Siblings(c.number, q)
    requires NamespaceFree(tasks, p) && NamespaceFree(tasks, q)
    ensures ExecAll(c, System(HubRow(None, None), map[0 := tasks, 1 := tasks], map[]), acts) == Some(e)
    ensures e.hub.completed == Some(p) && 1 in e.runs && e.runs[1].pc == Failed
    ensures 1 in e.stores && LoserUid(c, Held) in e.stores[1] && e.stores[1][LoserUid(c, Held)].number == q
  {
    var s := System(HubRow(None, None), map[0 := tasks, 1 := tasks], map[]);
    var a := At(s, HubRow(Some(Winner(c, Held)), None), 0, 0, Held, Renumbering);
    var tail := [Renumber(0, p)] + ([Renumber(1, q)] + ([Finish(0)] + ([Finish(1)] + [])));
    var second := [Start(1, 1, Held)] + ([Load(1)] + ([Locate(1)] + ([Accept(1)] + ([Verify(1)] + tail))));
    StepsToAccept(c, s, 0, 0, Held, [Accept(0)] + ([] + second));
    StepsToRenumber(c, s, 0, 0, Held, second);
    acts := [Start(0, 0, Held)] + ([Load(0)] + ([Locate(0)] + ([Accept(0)] + ([] + second))));
    e := SecondOwnerRefused(c, a, tasks, p, q, tail);
  }

  lemma SecondOwnerRefused(c: Collision, a: System, tasks: Tasks, p: Number, q: Number, tail: seq<Act>) returns (e: System)
    requires a.hub == HubRow(Some(Winner(c, Held)), None) && a.stores == map[0 := tasks, 1 := tasks]
    requires a.runs == map[0 := Run(0, Held, Renumbering)]
    requires Live(tasks, LoserUid(c, Held)) && tasks[LoserUid(c, Held)].number == c.number
    requires p != q && p != c.number && q != c.number && Siblings(c.number, p) && Siblings(c.number, q)
    requires NamespaceFree(tasks, p) && NamespaceFree(tasks, q)
    requires tail == [Renumber(0, p)] + ([Renumber(1, q)] + ([Finish(0)] + ([Finish(1)] + [])))
    ensures ExecAll(c, a, [Start(1, 1, Held)] + ([Load(1)] + ([Locate(1)] + ([Accept(1)] + ([Verify(1)] + tail))))) == Some(e)
    ensures e.hub.completed == Some(p) && 1 in e.runs && e.runs[1].pc == Failed
    ensures 1 in e.stores && LoserUid(c, Held) in e.stores[1] && e.stores[1][LoserUid(c, Held)].number == q
  {
    StepsToAccept(c, a, 1, 1, Held, [Accept(1)] + ([Verify(1)] + tail));
    StepsToRenumber(c, a, 1, 1, Held, tail);
    var b := At(a, a.hub, 1, 1, Held, Renumbering);
    var m := SecondMoves(c, b, p, q, [Finish(0)] + ([Finish(1)] + []));
    SecondRecordIsRefused(c, m, p, q);
    e := ExecAll(c, m, [Finish(0)] + ([Finish(1)] + [])).value;
  }
}
