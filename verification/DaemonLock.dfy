/**
 The daemon's lifetime lock and its PID marker: the owner object, the retried start, and every
 interleaving of starts, probes, releases and crashes. The lock goes with the process that holds
 it; the marker file does not.
*/
module DaemonLock {
  import opened Options

  type Pid = nat

  datatype Text = Absent | Names(pid: Pid) | Garbage

  // The lock's holder, the marker file, and the temporary file renamed onto it.
  datatype Files = Files(lock: Option<Pid>, marker: Text, tmp: Text)

  // ---- The owner ------------------------------------------------------------------------------

  datatype Publish = Published | WriteFails | RenameFails

  class Board {
    var files: Files

    constructor (files: Files)
      ensures this.files == files
    {
      this.files := files;
    }
  }

  class DaemonOwner {
    var open: bool
    const pid: Pid

    ghost predicate Valid(f: Files) reads this {
      open ==> f.lock == Some(pid)
    }

    constructor (pid: Pid)
      ensures open && this.pid == pid
    {
      this.open, this.pid := true, pid;
    }

    /**
     Clears the marker if it is its own, then the lock; a second release does nothing. `removes` is
     whether reading and removing the marker work.
    */
    method Release(board: Board, removes: bool)
      requires Valid(board.files)
      modifies this, board
      ensures Valid(board.files) && !open
      ensures !old(open) ==> board.files == old(board.files)
      ensures old(open) ==>
                && board.files.lock.None? && board.files.tmp == old(board.files).tmp
                && board.files.marker == if removes && old(board.files).marker == Names(pid) then Absent else old(board.files).marker
    {
      if !open {
        return;
      }
      if removes && board.files.marker == Names(pid) {
        board.files := board.files.(marker := Absent);
      }
      board.files := board.files.(lock := None);
      open := false;
    }
  }

  datatype Attempt = Held | Acquired | Failed

  // What the system calls on the lock file answer: the directory is named and made and the file
  // opened, the lock call itself works, and the file closes.
  datatype LockFile = LockFile(opens: bool, locks: bool, closes: bool)

  /**
   Takes the lock and publishes the marker. A failed publication releases the lock again; a lock
   held by another counts as held only when the file closes, and nothing is changed then.
  */
  method AcquireDaemonOwnership(board: Board, pid: Pid, file: LockFile, publish: Publish, removes: bool)
    returns (a: Attempt, owner: DaemonOwner?)
    modifies board
    ensures a == Held <==> file == LockFile(true, true, true) && old(board.files.lock).Some?
    ensures a == Acquired <==> owner != null
    ensures a == Acquired <==> file.opens && file.locks && old(board.files.lock).None? && publish == Published
    ensures a == Acquired ==>
              fresh(owner) && owner.open && owner.pid == pid && owner.Valid(board.files)
              && board.files == Files(Some(pid), Names(pid), Absent)
    ensures !file.opens || !file.locks || old(board.files.lock).Some? ==> board.files == old(board.files)
    ensures file.opens && file.locks && old(board.files.lock).None? && publish != Published ==>
              a == Failed && board.files.lock.None? && board.files.marker == (if removes && old(board.files).marker == Names(pid) then Absent else old(board.files).marker)
  {
    if !file.opens || !file.locks {
      return Failed, null;
    }
    if board.files.lock.Some? {
      return if file.closes then Held else Failed, null;
    }
    board.files := board.files.(lock := Some(pid));
    var taken := new DaemonOwner(pid);
    if publish == WriteFails {
      board.files := board.files.(tmp := Garbage);
      taken.Release(board, removes);
      return Failed, null;
    }
    board.files := board.files.(tmp := Names(pid));
    if publish == RenameFails {
      taken.Release(board, removes);
      return Failed, null;
    }
    board.files := board.files.(marker := board.files.tmp, tmp := Absent);
    a, owner := Acquired, taken;
  }

  datatype Start = Owns | StartFailed | AlreadyRunning

  const TRIES := 5

  /**
   A daemon's start, `attempts[i]` being what its `i`th acquisition meets: when the lock is held
   at all six it gives way, or fails when it cannot read whom to name; otherwise it ends as the
   first that found the lock free.
  */
  method DaemonOwnershipFor(attempts: seq<Attempt>, markerReadable: bool) returns (r: Start)
    requires |attempts| == 6
    ensures r == AlreadyRunning <==> AllHeld(attempts) && markerReadable
    ensures AllHeld(attempts) && !markerReadable ==> r == StartFailed
    ensures !AllHeld(attempts) ==>
              exists n :: 0 <= n < |attempts| && AllHeld(attempts[..n]) && attempts[n] == (if r == Owns then Acquired else Failed)
  {
    for i := 0 to TRIES
      invariant AllHeld(attempts[..i])
    {
      if attempts[i] != Held {
        return if attempts[i] == Acquired then Owns else StartFailed;
      }
    }
    var last := attempts[TRIES];
    r := match last
      case Held => if markerReadable then AlreadyRunning else StartFailed
      case Acquired => Owns
      case Failed => StartFailed;
  }

  predicate AllHeld(attempts: seq<Attempt>) {
    forall i :: 0 <= i < |attempts| ==> attempts[i] == Held
  }

  // ---- All interleavings ------------------------------------------------------------------------

  datatype Pc =
    | Out
    | Trying(failed: nat)     // a starting daemon, after `failed` attempts
    | Locked | TmpWritten     // it has the lock, its marker is not yet published
    | Owner
    | Releasing | Removing | Closing
    | Probing                 // a waiter or doctor, which has the lock for an instant
    | TurnedAway

  predicate IsDaemon(pc: Pc) {
    pc.Locked? || pc.TmpWritten? || pc.Owner? || pc.Releasing? || pc.Removing? || pc.Closing?
  }

  predicate Holds(pc: Pc) { IsDaemon(pc) || pc.Probing? }

  // A pid names one live process at a time, and may be used again.
  datatype State = State(files: Files, procs: map<Pid, Pc>)

  function PcOf(s: State, p: Pid): Pc { if p in s.procs then s.procs[p] else Out }

  datatype Op =
    | Launch | TryLock
    | WriteTmp(ok: bool) | Rename(ok: bool)
    | BeginRelease | ReadMarker(ok: bool) | RemoveMarker(ok: bool) | CloseLock
    | Probe | EndProbe
    | Crash

  datatype Act = Act(p: Pid, op: Op)

  predicate Enabled(s: State, a: Act) {
    var pc := PcOf(s, a.p);
    match a.op
    case Launch => pc.Out?
    case TryLock => pc.Trying?
    case WriteTmp(_) => pc.Locked?
    case Rename(_) => pc.TmpWritten?
    case BeginRelease => pc.Owner?
    case ReadMarker(_) => pc.Releasing?
    case RemoveMarker(_) => pc.Removing?
    case CloseLock => pc.Closing?
    case Probe => pc.Out?
    case EndProbe => pc.Probing?
    case Crash => !pc.Out?
  }

  function Go(s: State, p: Pid, f: Files, pc: Pc): State {
    State(f, s.procs[p := pc])
  }

  function Step(s: State, a: Act): State
    requires Enabled(s, a)
  {
    var p, f, pc := a.p, s.files, PcOf(s, a.p);
    match a.op
    case Launch => Go(s, p, f, Trying(0))
    case TryLock =>
      if f.lock.None? then Go(s, p, f.(lock := Some(p)), Locked)
      else Go(s, p, f, if pc.failed < TRIES then Trying(pc.failed + 1) else TurnedAway)
    case WriteTmp(ok) => if ok then Go(s, p, f.(tmp := Names(p)), TmpWritten) else Go(s, p, f.(tmp := Garbage), Releasing)
    case Rename(ok) => if ok then Go(s, p, f.(marker := f.tmp, tmp := Absent), Owner) else Go(s, p, f, Releasing)
    case BeginRelease => Go(s, p, f, Releasing)
    case ReadMarker(ok) => Go(s, p, f, if ok && f.marker == Names(p) then Removing else Closing)
    case RemoveMarker(ok) => Go(s, p, if ok then f.(marker := Absent) else f, Closing)
    case CloseLock => Go(s, p, f.(lock := None), Out)
    case Probe => if f.lock.None? then Go(s, p, f.(lock := Some(p)), Probing) else s
    case EndProbe => Go(s, p, f.(lock := None), Out)
    case Crash => Go(s, p, if f.lock == Some(p) then f.(lock := None) else f, Out)
  }

  datatype Run = Ended(s: State) | NotARun

  function Exec(s: State, acts: seq<Act>): Run
    decreases |acts|
  {
    if acts == [] then Ended(s)
    else if !Enabled(s, acts[0]) then NotARun
    else Exec(Step(s, acts[0]), acts[1..])
  }

  ghost predicate Inv(s: State) {
    && (forall p :: p in s.procs ==> (Holds(s.procs[p]) <==> s.files.lock == Some(p)))
    && (s.files.lock.Some? ==> s.files.lock.value in s.procs)
    && (forall p :: p in s.procs && s.procs[p] == TmpWritten ==> s.files.tmp == Names(p))
    && (forall p :: p in s.procs && s.procs[p] in {Owner, Removing} ==> s.files.marker == Names(p))
  }

  lemma StepInv(s: State, a: Act)
    requires Inv(s) && Enabled(s, a)
    ensures Inv(Step(s, a))
  {}

  /** Before any process runs, whatever files an earlier one left. */
  lemma NobodyRunsInv(f: Files)
    requires f.lock.None?
    ensures Inv(State(f, map[]))
  {}

  lemma {:induction false} RunInv(s: State, acts: seq<Act>)
    requires Inv(s) && Exec(s, acts).Ended?
    ensures Inv(Exec(s, acts).s)
    decreases |acts|
  {
    if acts != [] {
      StepInv(s, acts[0]);
      RunInv(Step(s, acts[0]), acts[1..]);
    }
  }

  /** `acts` led from a board nobody runs on, with whatever files were left there, to `s`. */
  ghost predicate Reached(f: Files, acts: seq<Act>, s: State) {
    f.lock.None? && Exec(State(f, map[]), acts) == Ended(s)
  }

  /**
   Over all runs at most one process has the lock, so at most one owns the board; a published
   owner's marker names it.
  */
  lemma OneOwner(f: Files, acts: seq<Act>, s: State, p: Pid, q: Pid)
    requires Reached(f, acts, s) && Holds(PcOf(s, p))
    ensures Holds(PcOf(s, q)) ==> p == q
    ensures PcOf(s, p).Owner? ==> s.files.marker == Names(p)
  {
    NobodyRunsInv(f);
    RunInv(State(f, map[]), acts);
  }

  /**
   In any run, a step that changes the marker is a step of a daemon that has the lock, so no
   other process is an owner then; one that removes it removes its own name, in its own release.
  */
  lemma WhoChangesTheMarker(f: Files, acts: seq<Act>, s: State, a: Act, q: Pid)
    requires Reached(f, acts, s) && Enabled(s, a) && Step(s, a).files.marker != s.files.marker
    ensures IsDaemon(PcOf(s, a.p)) && (a.op == Rename(true) || a.op == RemoveMarker(true))
    ensures q != a.p ==> !Holds(PcOf(s, q))
    ensures a.op == Rename(true) ==> Step(s, a).files.marker == Names(a.p)
    ensures a.op == RemoveMarker(true) ==> s.files.marker == Names(a.p) && Step(s, a).files.marker == Absent
  {
    NobodyRunsInv(f);
    RunInv(State(f, map[]), acts);
  }

  /** `p` neither begins its release nor dies in this run. */
  predicate Stays(p: Pid, acts: seq<Act>) {
    forall i :: 0 <= i < |acts| && acts[i].p == p ==> acts[i].op != BeginRelease && acts[i].op != Crash
  }

  /**
   Over any run of any processes from a published owner: until its own release begins it stays
   the owner, its marker names it, and no other process is past its own attempts.
  */
  lemma {:induction false} OwnerStaysNamed(s: State, p: Pid, acts: seq<Act>)
    requires Inv(s) && PcOf(s, p).Owner? && Stays(p, acts) && Exec(s, acts).Ended?
    ensures var t := Exec(s, acts).s;
            && Inv(t) && PcOf(t, p).Owner? && t.files.marker == Names(p) && t.files.lock == Some(p)
            && forall q :: q != p ==> !Holds(PcOf(t, q))
    decreases |acts|
  {
    if acts != [] {
      StepInv(s, acts[0]);
      assert Stays(p, acts[1..]);
      OwnerStaysNamed(Step(s, acts[0]), p, acts[1..]);
    }
  }

  lemma OneStep(s: State, acts: seq<Act>, i: nat, next: State)
    requires i < |acts| && Enabled(s, acts[i]) && Step(s, acts[i]) == next
    ensures Exec(s, acts[i..]) == Exec(next, acts[i + 1..])
  {
    assert acts[i..][1..] == acts[i + 1..];
  }

  /** What the owner object does when nothing interrupts it is a run: its start ... */
  lemma AcquireIsARun(s: State, p: Pid)
    requires s.files.lock.None? && PcOf(s, p).Trying?
    ensures Exec(s, [Act(p, TryLock), Act(p, WriteTmp(true)), Act(p, Rename(true))])
         == Ended(State(Files(Some(p), Names(p), Absent), s.procs[p := Owner]))
  {
    var acts := [Act(p, TryLock), Act(p, WriteTmp(true)), Act(p, Rename(true))];
    var s1 := Step(s, acts[0]);
    var s2 := Step(s1, acts[1]);
    var s3 := Step(s2, acts[2]);
    assert acts == acts[0..] && acts[3..] == [];
    OneStep(s, acts, 0, s1);
    OneStep(s1, acts, 1, s2);
    OneStep(s2, acts, 2, s3);
    assert s3.procs == s.procs[p := Owner];
  }

  /** The steps of an owner's release, by whether it can read and remove its marker. */
  function ReleaseActs(p: Pid, readable: bool, unlinks: bool): seq<Act> {
    [Act(p, BeginRelease), Act(p, ReadMarker(readable))] + (if readable then [Act(p, RemoveMarker(unlinks))] else []) + [Act(p, CloseLock)]
  }

  /**
   ... and its release, which from an owner reached in any run leaves the lock free, and no marker
   when it can read and remove it.
  */
  lemma ReleaseIsARun(f: Files, before: seq<Act>, s: State, p: Pid, readable: bool, unlinks: bool)
    requires Reached(f, before, s) && PcOf(s, p).Owner?
    ensures Exec(s, ReleaseActs(p, readable, unlinks))
         == Ended(State(Files(None, if readable && unlinks then Absent else Names(p), s.files.tmp), s.procs[p := Out]))
  {
    NobodyRunsInv(f);
    RunInv(State(f, map[]), before);
    var acts := ReleaseActs(p, readable, unlinks);
    var s1 := Step(s, acts[0]);
    var s2 := Step(s1, acts[1]);
    var s3 := Step(s2, acts[2]);
    assert acts == acts[0..];
    OneStep(s, acts, 0, s1);
    OneStep(s1, acts, 1, s2);
    OneStep(s2, acts, 2, s3);
    if readable {
      OneStep(s3, acts, 3, Step(s3, acts[3]));
      assert Step(s3, acts[3]).procs == s.procs[p := Out];
    } else {
      assert s3.procs == s.procs[p := Out];
    }
  }

  // ---- The probe ---------------------------------------------------------------------------------

  /** What a probe answers. */
  predicate ProbeSaysHeld(s: State) { s.files.lock.Some? }

  /** A daemon has the lock. */
  ghost predicate DaemonRuns(s: State) {
    exists p :: p in s.procs && IsDaemon(s.procs[p])
  }

  /** A probe changes no marker, and its answer is wrong exactly while another probe has the lock. */
  lemma ProbeAnswer(f: Files, acts: seq<Act>, s: State, p: Pid, op: Op)
    requires Reached(f, acts, s) && op in {Probe, EndProbe} && Enabled(s, Act(p, op))
    ensures Step(s, Act(p, op)).files.marker == s.files.marker && Step(s, Act(p, op)).files.tmp == s.files.tmp
    ensures DaemonRuns(s) ==> ProbeSaysHeld(s)
    ensures ProbeSaysHeld(s) && !DaemonRuns(s) <==> s.files.lock.Some? && PcOf(s, s.files.lock.value).Probing?
  {
    NobodyRunsInv(f);
    RunInv(State(f, map[]), acts);
    if s.files.lock.Some? {
      var holder := s.files.lock.value;
      assert Holds(s.procs[holder]);
      assert IsDaemon(s.procs[holder]) ==> DaemonRuns(s);
    }
  }

  // ---- A start that is turned away -----------------------------------------------------------------

  /** `p` does nothing but try the lock in this run; the others do anything. */
  predicate OnlyTries(p: Pid, acts: seq<Act>) {
    forall i :: 0 <= i < |acts| && acts[i].p == p ==> acts[i].op == TryLock
  }

  /** The holder that each attempt of `p` meets, None for a free lock. */
  ghost function Met(s: State, p: Pid, acts: seq<Act>): seq<Option<Pc>>
    requires Exec(s, acts).Ended?
    decreases |acts|
  {
    if acts == [] then []
    else
      var here := if acts[0] != Act(p, TryLock) then []
                  else if s.files.lock.None? then [None]
                  else [Some(PcOf(s, s.files.lock.value))];
      here + Met(Step(s, acts[0]), p, acts[1..])
  }

  predicate AllMetSome(met: seq<Option<Pc>>) {
    forall i :: 0 <= i < |met| ==> met[i].Some?
  }

  /** What a start that has failed `k` times becomes by these attempts. */
  function After(k: nat, met: seq<Option<Pc>>): Pc
    decreases |met|
  {
    if met == [] then Trying(k)
    else if met[0].None? then Locked
    else if k < TRIES then After(k + 1, met[1..])
    else TurnedAway
  }

  lemma OthersChangeNothing(s: State, p: Pid, a: Act)
    requires Enabled(s, a) && a.p != p
    ensures PcOf(Step(s, a), p) == PcOf(s, p)
  {}

  lemma {:induction false} NotTrying(s: State, p: Pid, acts: seq<Act>)
    requires !PcOf(s, p).Trying? && OnlyTries(p, acts) && Exec(s, acts).Ended?
    ensures PcOf(Exec(s, acts).s, p) == PcOf(s, p) && Met(s, p, acts) == []
    decreases |acts|
  {
    if acts != [] {
      assert acts[0].p != p;
      OthersChangeNothing(s, p, acts[0]);
      assert OnlyTries(p, acts[1..]);
      NotTrying(Step(s, acts[0]), p, acts[1..]);
    }
  }

  /** A starting daemon's fate is decided by what its own attempts meet, whoever else runs. */
  lemma {:induction false} StartFollowsItsAttempts(s: State, p: Pid, acts: seq<Act>)
    requires PcOf(s, p).Trying? && OnlyTries(p, acts) && Exec(s, acts).Ended?
    ensures PcOf(Exec(s, acts).s, p) == After(PcOf(s, p).failed, Met(s, p, acts))
    decreases |acts|
  {
    if acts != [] {
      var t, rest := Step(s, acts[0]), acts[1..];
      assert OnlyTries(p, rest);
      if acts[0].p != p {
        OthersChangeNothing(s, p, acts[0]);
        assert [] + Met(t, p, rest) == Met(t, p, rest);
        StartFollowsItsAttempts(t, p, rest);
      } else {
        var here := Met(s, p, acts)[0];
        assert Met(s, p, acts) == [here] + Met(t, p, rest) && ([here] + Met(t, p, rest))[1..] == Met(t, p, rest);
        if PcOf(t, p).Trying? {
          StartFollowsItsAttempts(t, p, rest);
        } else {
          NotTrying(t, p, rest);
        }
      }
    }
  }

  lemma {:induction false} AfterIs(k: nat, met: seq<Option<Pc>>)
    requires k <= TRIES
    ensures After(k, met).TurnedAway? <==> |met| >= TRIES + 1 - k && AllMetSome(met[..TRIES + 1 - k])
    ensures After(k, met).Locked? ==> !AllMetSome(met)
    decreases |met|
  {
    if met != [] && met[0].Some? && k < TRIES {
      AfterIs(k + 1, met[1..]);
      var n := TRIES - k;
      if |met| >= n + 1 {
        assert met[..n + 1] == [met[0]] + met[1..][..n];
        assert AllMetSome(met[..n + 1]) <==> AllMetSome(met[1..][..n]);
      }
      assert forall i :: 1 <= i < |met| ==> met[i] == met[1..][i - 1];
    } else if met != [] {
      var n := TRIES + 1 - k;
      assert |met| >= n ==> met[..n][0] == met[0];
    }
  }

  /** Once a run of attempts has decided the start, it makes no more of them. */
  lemma {:induction false} NoMoreThanSix(s: State, p: Pid, acts: seq<Act>)
    requires PcOf(s, p).Trying? && PcOf(s, p).failed <= TRIES && OnlyTries(p, acts) && Exec(s, acts).Ended?
    ensures |Met(s, p, acts)| <= TRIES + 1 - PcOf(s, p).failed
    decreases |acts|
  {
    if acts != [] {
      var t, rest := Step(s, acts[0]), acts[1..];
      assert OnlyTries(p, rest);
      if acts[0].p != p {
        OthersChangeNothing(s, p, acts[0]);
      }
      if PcOf(t, p).Trying? {
        NoMoreThanSix(t, p, rest);
      } else {
        NotTrying(t, p, rest);
      }
    }
  }

  /**
   When a starting daemon is turned away, exactly: it made all its attempts, six from its launch,
   and at each of them some process had the lock, whatever every other process did meanwhile.
  */
  lemma TurnedAwayIff(s: State, p: Pid, acts: seq<Act>)
    requires PcOf(s, p).Trying? && PcOf(s, p).failed <= TRIES && OnlyTries(p, acts) && Exec(s, acts).Ended?
    ensures PcOf(Exec(s, acts).s, p).TurnedAway?
            <==> |Met(s, p, acts)| + PcOf(s, p).failed == TRIES + 1 && AllMetSome(Met(s, p, acts))
  {
    var met, k := Met(s, p, acts), PcOf(s, p).failed;
    StartFollowsItsAttempts(s, p, acts);
    AfterIs(k, met);
    NoMoreThanSix(s, p, acts);
    assert |met| == TRIES + 1 - k ==> met[..TRIES + 1 - k] == met;
  }

  predicate MetNoDaemon(met: seq<Option<Pc>>) {
    forall i :: 0 <= i < |met| ==> met[i].None? || !IsDaemon(met[i].value)
  }

  predicate MetOnlyProbes(met: seq<Option<Pc>>) {
    forall i :: 0 <= i < |met| ==> met[i] == Some(Probing)
  }

  /** A holder that is no daemon is a probe. */
  lemma {:induction false} HoldersMet(s: State, p: Pid, acts: seq<Act>)
    requires Inv(s) && Exec(s, acts).Ended?
    ensures forall i :: 0 <= i < |Met(s, p, acts)| && Met(s, p, acts)[i].Some? ==> Holds(Met(s, p, acts)[i].value)
    decreases |acts|
  {
    if acts != [] {
      StepInv(s, acts[0]);
      HoldersMet(Step(s, acts[0]), p, acts[1..]);
    }
  }

  /**
   So a board that no daemon holds at its attempts turns a start away exactly when a probe has
   the lock at every one of them: one probe that lasts through all six, or several.
  */
  lemma OnlyProbesTurnAway(f: Files, before: seq<Act>, s: State, p: Pid, acts: seq<Act>)
    requires Reached(f, before, s) && PcOf(s, p) == Trying(0)
    requires OnlyTries(p, acts) && Exec(s, acts).Ended? && MetNoDaemon(Met(s, p, acts))
    ensures PcOf(Exec(s, acts).s, p).TurnedAway? <==> |Met(s, p, acts)| == TRIES + 1 && MetOnlyProbes(Met(s, p, acts))
  {
    NobodyRunsInv(f);
    RunInv(State(f, map[]), before);
    TurnedAwayIff(s, p, acts);
    HoldersMet(s, p, acts);
  }

  lemma {:induction false} ProbeOutlasts(s: State, p: Pid, q: Pid) returns (acts: seq<Act>)
    requires s.files.lock == Some(q) && PcOf(s, q).Probing? && PcOf(s, p).Trying? && PcOf(s, p).failed <= TRIES
    ensures acts == seq(TRIES + 1 - PcOf(s, p).failed, _ => Act(p, TryLock))
    ensures Exec(s, acts).Ended? && PcOf(Exec(s, acts).s, p).TurnedAway? && Exec(s, acts).s.files == s.files
    decreases TRIES - PcOf(s, p).failed
  {
    var a := Act(p, TryLock);
    if PcOf(s, p).failed < TRIES {
      var rest := ProbeOutlasts(Step(s, a), p, q);
      acts := [a] + rest;
      assert acts[1..] == rest;
    } else {
      acts := [a];
      assert acts[1..] == [] && Exec(Step(s, a), []) == Ended(Step(s, a));
    }
  }

  /** It can happen: a probe that keeps the lock turns away a start's six attempts, and no daemon ran. */
  lemma ProbeCanTurnADaemonAway(s: State, p: Pid, q: Pid)
    requires s.files.lock == Some(q) && PcOf(s, q).Probing? && PcOf(s, p).Out? && p != q
    ensures var run := Exec(s, [Act(p, Launch)] + seq(6, _ => Act(p, TryLock)));
            run.Ended? && PcOf(run.s, p).TurnedAway? && run.s.files == s.files
  {
    var t := Step(s, Act(p, Launch));
    var rest := ProbeOutlasts(t, p, q);
    assert ([Act(p, Launch)] + rest)[1..] == rest;
  }

  /**
   The lock decides, not the marker: any process can crash at any time, and once a lock holder has,
   the next start owns the board at its first attempt, whatever name was left in the marker.
  */
  lemma CrashedHolderIsReplaced(f: Files, before: seq<Act>, s: State, p: Pid, q: Pid)
    requires Reached(f, before, s) && Holds(PcOf(s, p)) && PcOf(s, q).Out?
    ensures Enabled(s, Act(p, Crash)) && Step(s, Act(p, Crash)).files == s.files.(lock := None)
    ensures Exec(s, [Act(p, Crash), Act(q, Launch), Act(q, TryLock), Act(q, WriteTmp(true)), Act(q, Rename(true))])
         == Ended(State(Files(Some(q), Names(q), Absent), s.procs[p := Out][q := Owner]))
  {
    NobodyRunsInv(f);
    RunInv(State(f, map[]), before);
    var acts := [Act(p, Crash), Act(q, Launch), Act(q, TryLock), Act(q, WriteTmp(true)), Act(q, Rename(true))];
    var s1 := Step(s, acts[0]);
    var s2 := Step(s1, acts[1]);
    assert acts == acts[0..];
    OneStep(s, acts, 0, s1);
    OneStep(s1, acts, 1, s2);
    AcquireIsARun(s2, q);
    assert acts[2..] == [Act(q, TryLock), Act(q, WriteTmp(true)), Act(q, Rename(true))];
    assert s2.procs[q := Owner] == s.procs[p := Out][q := Owner];
  }
}
