/**
 The command that resolves one collision, run once against a hub and a local store. Every
 call may fail, before or after it took effect. The command is proved to be a run of the
 protocol's transition system, and a run in which nothing fails is proved to finish it.
*/
module CollisionResolve {
  import opened Options
  import opened TaskStore
  import opened CollisionProtocol

  // How one call behaves: it works, it fails without effect, or its effect lands but the
  // caller sees an error.
  datatype Fault = Works | Down | LostReply

  datatype Faults = Faults(load: Fault, locate: Fault, resolve: Fault, verify: Fault,
                           relocate: Fault, renumber: Fault, finish: Fault)

  const NO_FAULTS := Faults(Works, Works, Works, Works, Works, Works, Works)

  datatype Outcome =
    | LoadFailed
    | NoSuchCollision
    | DifferentWinner
    | AlreadyResolved(path: Number)
    | LoserNotHere
    | LocateFailed
    | AcceptFailed
    | MoveFailed(step: string)
    | Done(path: Number)

  datatype Reply<T> = Ok(value: T) | Error

  class CollisionHub {
    const collision: Option<Collision> // None: the hub has no collision of that id
    var row: HubRow

    constructor (collision: Option<Collision>, row: HubRow)
      ensures this.collision == collision && this.row == row
    {
      this.collision, this.row := collision, row;
    }

    method GetCollision(f: Fault) returns (r: Reply<(Option<Collision>, HubRow)>)
      ensures r == if f == Works then Ok((collision, row)) else Error
    {
      r := if f == Works then Ok((collision, row)) else Error;
    }

    method ResolveCollision(winner: string, f: Fault) returns (r: Reply<bool>)
      modifies this`row
      ensures row == if f == Down then old(row) else HubResolve(old(row), winner).0
      ensures r == if f == Works then Ok(HubResolve(old(row), winner).1) else Error
    {
      var (after, accepted) := HubResolve(row, winner);
      if f != Down {
        row := after;
      }
      r := if f == Works then Ok(accepted) else Error;
    }

    method CompleteCollisionMove(winner: string, path: Number, f: Fault) returns (ok: bool)
      modifies this`row
      ensures row == if f == Down then old(row) else HubComplete(old(row), winner, path).0
      ensures ok == (f == Works && HubComplete(old(row), winner, path).1)
    {
      var (after, recorded) := HubComplete(row, winner, path);
      if f != Down {
        row := after;
      }
      ok := f == Works && recorded;
    }
  }

  /** The protocol's view of one client, its hub, and its only run. */
  ghost function View(row: HubRow, tasks: Tasks, side: Side, pc: Pc): System {
    System(row, map[0 := tasks], map[0 := Run(0, side, pc)])
  }

  ghost function Idle(row: HubRow, tasks: Tasks): System {
    System(row, map[0 := tasks], map[])
  }

  /** `acts` took the protocol from the idle system before to the run at `pc` after. */
  ghost predicate Performed(c: Collision, before: System, acts: seq<Act>, side: Side, row: HubRow, tasks: Tasks, pc: Pc) {
    Exec(c, before, acts) == Some(View(row, tasks, side, pc))
  }

  lemma ViewGoes(row: HubRow, tasks: Tasks, side: Side, pc: Pc, next: Pc)
    ensures Goto(View(row, tasks, side, pc), 0, next) == View(row, tasks, side, next)
  {}

  /** A step of the only run leads from a view to a view. */
  lemma StepsToView(c: Collision, row: HubRow, tasks: Tasks, side: Side, pc: Pc, a: Act)
    requires !a.Start? && !a.Local? && a.run == 0 && Enabled(c, View(row, tasks, side, pc), a)
    ensures var s := Step(c, View(row, tasks, side, pc), a);
            && s.stores.Keys == {0} && s.runs.Keys == {0}
            && s == View(s.hub, s.stores[0], side, s.runs[0].pc)
  {
    var s := Step(c, View(row, tasks, side, pc), a);
    assert s.stores == map[0 := s.stores[0]];
    ViewGoes(s.hub, s.stores[0], side, pc, s.runs[0].pc);
  }

  /** One more step of the run, from the view before it to the view after it. */
  ghost method Perform(c: Collision, before: System, acts: seq<Act>, side: Side, row: HubRow, tasks: Tasks, pc: Pc, a: Act)
    returns (more: seq<Act>)
    requires Performed(c, before, acts, side, row, tasks, pc)
    requires !a.Start? && !a.Local? && a.run == 0 && Enabled(c, View(row, tasks, side, pc), a)
    ensures var s := Step(c, View(row, tasks, side, pc), a);
            && s.stores.Keys == {0} && s.runs.Keys == {0}
            && Performed(c, before, more, side, s.hub, s.stores[0], s.runs[0].pc)
  {
    StepsToView(c, row, tasks, side, pc, a);
    more := acts + [a];
    ExecAppend(c, before, acts, a);
  }

  /** The run ends here: a failed call, or a reply that was lost. */
  ghost method Abandon(c: Collision, before: System, acts: seq<Act>, side: Side, row: HubRow, tasks: Tasks, pc: Pc)
    returns (more: seq<Act>)
    requires Performed(c, before, acts, side, row, tasks, pc) && !Ended(pc)
    ensures Performed(c, before, more, side, row, tasks, Failed)
  {
    more := Perform(c, before, acts, side, row, tasks, pc, Die(0));
  }

  method AcceptCollision(hub: CollisionHub, c: Collision, side: Side, f: Faults, ghost before: System, ghost done: seq<Act>, ghost tasks: Tasks)
    returns (ok: bool, ghost acts: seq<Act>)
    requires hub.collision == Some(c)
    requires Performed(c, before, done, side, hub.row, tasks, Accepting)
    modifies hub`row
    ensures Performed(c, before, acts, side, hub.row, tasks, if ok then Renumbering else Failed)
    ensures ok ==> hub.row.decision == Some(Winner(c, side)) && f.resolve == Works
    ensures ok && old(hub.row).decision.Some? ==> f.verify == Works
    ensures f == NO_FAULTS && (old(hub.row).decision.None? || old(hub.row).decision == Some(Winner(c, side))) ==> ok
    ensures hub.row == old(hub.row) || (old(hub.row).decision.None? && hub.row == HubRow(Some(Winner(c, side)), None))
  {
    var winner := Winner(c, side);
    acts := done;
    var reply := hub.ResolveCollision(winner, f.resolve);
    if f.resolve != Down {
      acts := Perform(c, before, acts, side, old(hub.row), tasks, Accepting, Accept(0));
    }
    if reply == Ok(true) {
      return true, acts;
    }
    ghost var pc := if f.resolve == Down then Accepting
                    else if old(hub.row).decision.None? then Renumbering else Verifying;
    if reply == Error {
      acts := Abandon(c, before, acts, side, hub.row, tasks, pc);
      return false, acts;
    }
    var again := hub.GetCollision(f.verify);
    if again == Error {
      acts := Abandon(c, before, acts, side, hub.row, tasks, pc);
      return false, acts;
    }
    acts := Perform(c, before, acts, side, hub.row, tasks, pc, Verify(0));
    ok := again.value.1.decision == Some(winner);
  }

  lemma MoveStep(c: Collision, row: HubRow, tasks: Tasks, side: Side, target: Number)
    requires var loser := LoserUid(c, side);
             Live(tasks, loser) && tasks[loser].number == c.number
    requires NamespaceFree(tasks, target) && Siblings(c.number, target) && target != c.number
    ensures Enabled(c, View(row, tasks, side, Renumbering), Renumber(0, target))
    ensures Step(c, View(row, tasks, side, Renumbering), Renumber(0, target))
         == View(row, Moved(tasks, c.number, target), side, Finishing(target))
  {
    ViewGoes(row, Moved(tasks, c.number, target), side, Renumbering, Finishing(target));
    assert (map[0 := tasks])[0 := Moved(tasks, c.number, target)] == map[0 := Moved(tasks, c.number, target)];
  }

  /** The loser is here, and has moved already or has a free sibling number in reach. */
  predicate CanMove(store: Store, c: Collision, side: Side)
    requires c.number != []
    reads store
  {
    var tasks, loser, parent := store.tasks, LoserUid(c, side), Parent(c.number);
    Live(tasks, loser) && (tasks[loser].number != c.number || HasRoom(tasks, parent, store.Counter(parent)))
  }

  method RenumberCollisionLoser(store: Store, c: Collision, side: Side, f: Faults, ghost before: System, ghost done: seq<Act>, ghost row: HubRow)
    returns (path: Option<Number>, ghost acts: seq<Act>)
    requires WellFormed(c) && store.Valid()
    requires Performed(c, before, done, side, row, store.tasks, Renumbering)
    modifies store
    ensures store.Valid()
    ensures Performed(c, before, acts, side, row, store.tasks, if path.Some? then Finishing(path.value) else Failed)
    ensures path.Some? ==> Live(store.tasks, LoserUid(c, side)) && store.tasks[LoserUid(c, side)].number == path.value != c.number
    ensures f == NO_FAULTS && old(CanMove(store, c, side)) ==> path.Some?
    ensures f.relocate != Works ==> path.None? && store.tasks == old(store.tasks)
    ensures f.renumber != Works && path.Some? ==> store.tasks == old(store.tasks)
  {
    var loser := LoserUid(c, side);
    acts := done;
    ghost var was := store.tasks;
    var current := store.LiveNodeIDByUID(loser);
    if current.None? || f.relocate != Works {
      acts := Abandon(c, before, acts, side, row, was, Renumbering);
      return None, acts;
    }
    if current.value != c.number {
      acts := Perform(c, before, acts, side, row, was, Renumbering, Renumber(0, c.number));
      return current, acts;
    }
    if f.renumber == Down {
      acts := Abandon(c, before, acts, side, row, was, Renumbering);
      return None, acts;
    }
    path, acts := MoveLoser(store, c, side, before, acts, row);
    if path.Some? && f.renumber == LostReply {
      acts := Abandon(c, before, acts, side, row, store.tasks, Finishing(path.value));
      path := None;
    }
  }

  /** The local move of a loser that still holds the contested number. */
  method MoveLoser(store: Store, c: Collision, side: Side, ghost before: System, ghost done: seq<Act>, ghost row: HubRow)
    returns (path: Option<Number>, ghost acts: seq<Act>)
    requires WellFormed(c) && store.Valid()
    requires Live(store.tasks, LoserUid(c, side)) && store.tasks[LoserUid(c, side)].number == c.number
    requires Performed(c, before, done, side, row, store.tasks, Renumbering)
    modifies store
    ensures store.Valid()
    ensures Performed(c, before, acts, side, row, store.tasks, if path.Some? then Finishing(path.value) else Failed)
    ensures path.Some? ==> Live(store.tasks, LoserUid(c, side)) && store.tasks[LoserUid(c, side)].number == path.value != c.number
    ensures old(CanMove(store, c, side)) ==> path.Some?
  {
    ghost var was := store.tasks;
    path := store.RenumberForHubRejection(LoserUid(c, side));
    if path.None? {
      acts := Abandon(c, before, done, side, row, was, Renumbering);
    } else {
      MoveStep(c, row, was, side, path.value);
      acts := Perform(c, before, done, side, row, was, Renumbering, Renumber(0, path.value));
    }
  }

  method RecordMove(hub: CollisionHub, c: Collision, side: Side, path: Number, f: Faults, ghost before: System, ghost done: seq<Act>, ghost tasks: Tasks)
    returns (ok: bool, ghost acts: seq<Act>)
    requires Performed(c, before, done, side, hub.row, tasks, Finishing(path))
    modifies hub`row
    ensures Performed(c, before, acts, side, hub.row, tasks, if ok then Resolved(path) else Failed)
    ensures ok <==> f.finish == Works && HubComplete(old(hub.row), Winner(c, side), path).1
    ensures hub.row == old(hub.row) || hub.row == HubComplete(old(hub.row), Winner(c, side), path).0
    ensures ok ==> hub.row == HubComplete(old(hub.row), Winner(c, side), path).0
  {
    ok := hub.CompleteCollisionMove(Winner(c, side), path, f.finish);
    if f.finish == Down {
      acts := Abandon(c, before, done, side, hub.row, tasks, Finishing(path));
    } else {
      acts := Perform(c, before, done, side, old(hub.row), tasks, Finishing(path), Finish(0));
      if !ok && HubComplete(old(hub.row), Winner(c, side), path).1 {
        acts := Abandon(c, before, acts, side, hub.row, tasks, Resolved(path));
      }
    }
  }

  /** The counter of a run that ended with `out`. */
  function EndOf(out: Outcome): Pc {
    match out
    case Done(p) => Resolved(p)
    case AlreadyResolved(p) => NoOp(p)
    case _ => Failed
  }

  /**
   Accept on the hub, move locally, record the move. The first failing stage ends it, and the
   stage after acceptance is named.
  */
  method ResolveCollisionMove(hub: CollisionHub, store: Store, c: Collision, side: Side, f: Faults, ghost before: System, ghost done: seq<Act>)
    returns (out: Outcome, ghost acts: seq<Act>)
    requires WellFormed(c) && hub.collision == Some(c) && store.Valid()
    requires Performed(c, before, done, side, hub.row, store.tasks, Accepting)
    modifies hub`row, store
    ensures store.Valid()
    ensures Performed(c, before, acts, side, hub.row, store.tasks, EndOf(out))
    ensures out.AcceptFailed? || out.MoveFailed? || out.Done?
    ensures out.AcceptFailed? ==> store.tasks == old(store.tasks)
    ensures out.Done? ==> f.resolve == Works && f.relocate == Works && f.finish == Works
    ensures f.relocate != Works ==> store.tasks == old(store.tasks)
    ensures out.Done? ==>
              && hub.row == HubRow(Some(Winner(c, side)), Some(out.path))
              && Live(store.tasks, LoserUid(c, side))
              && store.tasks[LoserUid(c, side)].number == out.path != c.number
    ensures f == NO_FAULTS && (old(hub.row).decision.None? || old(hub.row) == HubRow(Some(Winner(c, side)), None)) ==>
              out.Done? || (out == MoveFailed("local renumber") && !old(CanMove(store, c, side)))
  {
    var accepted, path, recorded;
    accepted, acts := AcceptCollision(hub, c, side, f, before, done, store.tasks);
    if !accepted {
      return AcceptFailed, acts;
    }
    path, acts := RenumberCollisionLoser(store, c, side, f, before, acts, hub.row);
    if path.None? {
      return MoveFailed("local renumber"), acts;
    }
    recorded, acts := RecordMove(hub, c, side, path.value, f, before, acts, store.tasks);
    if !recorded {
      return MoveFailed("recording completion on the hub"), acts;
    }
    out := Done(path.value);
  }

  /**
   The read-only part, before the hub row is touched: refuse another operator's decision,
   recognise a completed collision, and check that this client holds the loser.
  */
  method CheckBeforeMove(hub: CollisionHub, store: Store, c: Collision, side: Side, f: Faults)
    returns (stop: Option<Outcome>, ghost acts: seq<Act>)
    requires WellFormed(c) && hub.collision == Some(c)
    ensures Performed(c, Idle(hub.row, store.tasks), acts, side, hub.row, store.tasks,
                      if stop.None? then Accepting else EndOf(stop.value))
    ensures stop == if hub.row.decision.Some? && hub.row.decision != Some(Winner(c, side)) then Some(DifferentWinner)
                    else if hub.row.completed.Some? then Some(AlreadyResolved(hub.row.completed.value))
                    else if f.locate != Works then Some(LocateFailed)
                    else if !Live(store.tasks, LoserUid(c, side)) then Some(LoserNotHere)
                    else None
  {
    ghost var before := Idle(hub.row, store.tasks);
    acts := Begin(c, hub.row, store.tasks, side);
    acts := Perform(c, before, acts, side, hub.row, store.tasks, Loading, Load(0));
    if hub.row.decision.Some? && hub.row.decision != Some(Winner(c, side)) {
      return Some(DifferentWinner), acts;
    }
    if hub.row.completed.Some? {
      return Some(AlreadyResolved(hub.row.completed.value)), acts;
    }
    var here := store.LiveNodeIDByUID(LoserUid(c, side));
    if f.locate != Works {
      acts := Abandon(c, before, acts, side, hub.row, store.tasks, Locating);
      return Some(LocateFailed), acts;
    }
    acts := Perform(c, before, acts, side, hub.row, store.tasks, Locating, Locate(0));
    stop := if here.None? then Some(LoserNotHere) else None;
  }

  /**
   `mtix sync collisions resolve` on one client. Whatever fails, the hub and the store end
   where some run of the protocol ends. When nothing fails on a client that holds the live
   loser, and the hub is open or agrees, the run completes whenever a sibling number is in
   reach; and a collision that is already complete is a no-op.
  */
  method ResolveConnectedCollision(hub: CollisionHub, store: Store, side: Side, f: Faults)
    returns (out: Outcome, ghost acts: seq<Act>)
    requires hub.collision.Some? ==> WellFormed(hub.collision.value)
    requires store.Valid()
    modifies hub`row, store
    ensures store.Valid()
    ensures hub.collision.Some? && !out.LoadFailed? ==>
              Performed(hub.collision.value, Idle(old(hub.row), old(store.tasks)), acts, side, hub.row, store.tasks, EndOf(out))
    ensures out.LoadFailed? <==> f.load != Works
    ensures hub.collision.None? ==> out.LoadFailed? || out.NoSuchCollision?
    ensures out.Done? ==> f.locate == Works && f.resolve == Works && f.relocate == Works && f.finish == Works
    ensures !out.Done? && !out.MoveFailed? ==> store.tasks == old(store.tasks)
    ensures !out.Done? && !out.MoveFailed? && !out.AcceptFailed? ==> hub.row == old(hub.row)
    ensures out.Done? ==>
              && hub.collision.Some?
              && var c := hub.collision.value;
                 && hub.row == HubRow(Some(Winner(c, side)), Some(out.path))
                 && Live(store.tasks, LoserUid(c, side))
                 && store.tasks[LoserUid(c, side)].number == out.path != c.number
    ensures f == NO_FAULTS && hub.collision.Some? ==>
              var c, was := hub.collision.value, old(hub.row);
              if was.decision.Some? && was.decision != Some(Winner(c, side)) then out == DifferentWinner
              else if was.completed.Some? then out == AlreadyResolved(was.completed.value)
              else if !Live(old(store.tasks), LoserUid(c, side)) then out == LoserNotHere
              else if old(CanMove(store, c, side)) then out.Done?
              else out.Done? || out == MoveFailed("local renumber")
  {
    acts := [];
    var loaded := hub.GetCollision(f.load);
    if loaded == Error {
      return LoadFailed, acts;
    }
    if loaded.value.0.None? {
      return NoSuchCollision, acts;
    }
    var c := loaded.value.0.value;
    ghost var before := Idle(hub.row, store.tasks);
    var stop;
    stop, acts := CheckBeforeMove(hub, store, c, side, f);
    if stop.Some? {
      return stop.value, acts;
    }
    out, acts := ResolveCollisionMove(hub, store, c, side, f, before, acts);
  }

  ghost method Begin(c: Collision, row: HubRow, tasks: Tasks, side: Side) returns (acts: seq<Act>)
    ensures Performed(c, Idle(row, tasks), acts, side, row, tasks, Loading)
  {
    var before := Idle(row, tasks);
    assert Exec(c, before, []) == Some(before);
    ExecAppend(c, before, [], Start(0, 0, side));
    acts := [] + [Start(0, 0, side)];
    assert before.runs[0 := Run(0, side, Loading)] == map[0 := Run(0, side, Loading)];
  }
}
