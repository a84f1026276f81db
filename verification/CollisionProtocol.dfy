/**
 The resumable protocol that settles one restore collision, as a transition system: one hub
 row, one store per client, and any number of runs on any clients, each with its own choice of
 winner and its own program counter. A run may die between any two steps.
*/
module CollisionProtocol {
  import opened Options
  import opened TaskStore

  datatype Collision = Collision(number: Number, heldEvent: string, incomingEvent: string,
                                 heldUid: Uid, incomingUid: Uid)

  /** Two different creates, of two different tasks, claim one number. */
  predicate WellFormed(c: Collision) {
    && c.number != []
    && c.heldEvent != c.incomingEvent
    && c.heldUid != c.incomingUid && c.heldUid != "" && c.incomingUid != ""
  }

  // The --winner choice.
  datatype Side = Held | Incoming

  function Winner(c: Collision, side: Side): string {
    if side == Held then c.heldEvent else c.incomingEvent
  }

  function LoserUid(c: Collision, side: Side): Uid {
    if side == Held then c.incomingUid else c.heldUid
  }

  function WinnerUid(c: Collision, side: Side): Uid {
    if side == Held then c.heldUid else c.incomingUid
  }

  // The hub's row: the accepted winner, and the loser's recorded new number.
  datatype HubRow = HubRow(decision: Option<string>, completed: Option<Number>)

  /** The guarded update: only an open row takes a decision. */
  function HubResolve(h: HubRow, winner: string): (HubRow, bool) {
    if h.decision.None? then (HubRow(Some(winner), None), true) else (h, false)
  }

  /** Records the local move of the decided winner's loser; never over another number. */
  function HubComplete(h: HubRow, winner: string, path: Number): (HubRow, bool) {
    if h.decision == Some(winner) && (h.completed.None? || h.completed == Some(path))
    then (h.(completed := Some(path)), true) else (h, false)
  }

  datatype Pc =
    | Loading                    // about to read the hub row
    | Locating                   // about to look for the loser locally
    | Accepting                  // about to ask the hub for the decision
    | Verifying                  // the hub had one: about to read which
    | Renumbering                // about to move the loser
    | Finishing(path: Number)    // about to record the move on the hub
    | Resolved(path: Number)
    | NoOp(path: Number)
    | Failed

  /** Nothing is left to fail. A reply can still be lost after the hub recorded the move. */
  predicate Ended(pc: Pc) {
    pc.NoOp? || pc.Failed?
  }

  datatype Run = Run(client: nat, side: Side, pc: Pc)

  datatype System = System(hub: HubRow, stores: map<nat, Tasks>, runs: map<nat, Run>)

  datatype Act =
    | Start(run: nat, client: nat, side: Side)
    | Load(run: nat)
    | Locate(run: nat)
    | Accept(run: nat)
    | Verify(run: nat)
    | Renumber(run: nat, target: Number)
    | Finish(run: nat)
    | Die(run: nat)                          // a crash, a failed call, or a lost reply
    | Local(client: nat, tasks: Tasks)       // any other work on a client's store

  predicate Live(tasks: Tasks, u: Uid) {
    u in tasks && tasks[u].live
  }

  /** A task that was there keeps its number. */
  predicate StaysPut(was: Tasks, now: Tasks, u: Uid) {
    u in was ==> u in now && now[u].number == was[u].number
  }

  /**
   A contestant sits at the contested number's depth: its create carries that number, and a
   renumber of it, or of a task above it, goes to a sibling number.
  */
  predicate AtDepth(c: Collision, tasks: Tasks, u: Uid) {
    u in tasks ==> |tasks[u].number| == |c.number|
  }

  /** Work that does not renumber `u` where the store has it, and may pull it in where not. */
  predicate KeepsContestant(c: Collision, was: Tasks, now: Tasks, u: Uid) {
    StaysPut(was, now, u) && AtDepth(c, now, u)
  }

  ghost predicate Enabled(c: Collision, s: System, a: Act) {
    match a
    case Start(r, cl, _) => r !in s.runs && cl in s.stores
    case Local(cl, tasks) =>
      // Other commands do not renumber the two contestants; everything else may change.
      && cl in s.stores && Distinct(tasks)
      && KeepsContestant(c, s.stores[cl], tasks, c.heldUid) && KeepsContestant(c, s.stores[cl], tasks, c.incomingUid)
    case Die(r) => r in s.runs && !Ended(s.runs[r].pc)
    case _ => a.run in s.runs && s.runs[a.run].client in s.stores && AtStep(c, s, s.runs[a.run], a)
  }

  ghost predicate AtStep(c: Collision, s: System, run: Run, a: Act)
    requires run.client in s.stores
  {
    match a
    case Load(_) => run.pc == Loading
    case Locate(_) => run.pc == Locating
    case Accept(_) => run.pc == Accepting
    case Verify(_) => run.pc == Verifying
    case Finish(_) => run.pc.Finishing?
    case Renumber(_, target) =>
      var tasks := s.stores[run.client];
      var loser := LoserUid(c, run.side);
      && run.pc == Renumbering
      && (Live(tasks, loser) && tasks[loser].number == c.number ==>
            NamespaceFree(tasks, target) && Siblings(c.number, target) && target != c.number)
    case _ => false
  }

  function Goto(s: System, r: nat, pc: Pc): System
    requires r in s.runs
  {
    s.(runs := s.runs[r := s.runs[r].(pc := pc)])
  }

  ghost function Step(c: Collision, s: System, a: Act): System
    requires Enabled(c, s, a)
  {
    match a
    case Start(r, cl, side) => s.(runs := s.runs[r := Run(cl, side, Loading)])
    case Local(cl, tasks) => s.(stores := s.stores[cl := tasks])
    case Die(r) => Goto(s, r, Failed)
    case Load(r) =>
      var winner := Winner(c, s.runs[r].side);
      if s.hub.decision.Some? && s.hub.decision != Some(winner) then Goto(s, r, Failed)
      else if s.hub.completed.Some? then Goto(s, r, NoOp(s.hub.completed.value))
      else Goto(s, r, Locating)
    case Locate(r) =>
      Goto(s, r, if Live(s.stores[s.runs[r].client], LoserUid(c, s.runs[r].side)) then Accepting else Failed)
    case Accept(r) =>
      var (hub, accepted) := HubResolve(s.hub, Winner(c, s.runs[r].side));
      Goto(s.(hub := hub), r, if accepted then Renumbering else Verifying)
    case Verify(r) =>
      Goto(s, r, if s.hub.decision == Some(Winner(c, s.runs[r].side)) then Renumbering else Failed)
    case Renumber(r, target) =>
      var cl := s.runs[r].client;
      var tasks, loser := s.stores[cl], LoserUid(c, s.runs[r].side);
      if !Live(tasks, loser) then Goto(s, r, Failed)
      else if tasks[loser].number != c.number then Goto(s, r, Finishing(tasks[loser].number))
      else Goto(s.(stores := s.stores[cl := Moved(tasks, c.number, target)]), r, Finishing(target))
    case Finish(r) =>
      var path := s.runs[r].pc.path;
      var (hub, recorded) := HubComplete(s.hub, Winner(c, s.runs[r].side), path);
      Goto(s.(hub := hub), r, if recorded then Resolved(path) else Failed)
  }

  /** The state after `acts`, or None when one of them was not enabled. */
  ghost function Exec(c: Collision, s: System, acts: seq<Act>): Option<System> {
    if acts == [] then Some(s)
    else
      var n := |acts| - 1;
      var before := Exec(c, s, acts[..n]);
      if before.Some? && Enabled(c, before.value, acts[n]) then Some(Step(c, before.value, acts[n])) else None
  }

  lemma ExecAppend(c: Collision, s: System, acts: seq<Act>, a: Act)
    requires Exec(c, s, acts).Some? && Enabled(c, Exec(c, s, acts).value, a)
    ensures Exec(c, s, acts + [a]) == Some(Step(c, Exec(c, s, acts).value, a))
  {
    assert (acts + [a])[..|acts|] == acts;
  }
}
