/**
 The outcome record of a background push: two halves, the hub push and the relay pass, kept as
 one comma-joined class string, and the steps that write and resolve it.
*/
module PushOutcome {
  import opened Options

  // ---- Splitting and joining on commas --------------------------------------------------------

  function Split(s: string): (parts: seq<string>)
    ensures |parts| > 0
  {
    if s == "" then [""]
    else
      var rest := Split(s[1..]);
      if s[0] == ',' then [""] + rest else [[s[0]] + rest[0]] + rest[1..]
  }

  function Join(parts: seq<string>): string {
    if parts == [] then "" else if |parts| == 1 then parts[0] else parts[0] + "," + Join(parts[1..])
  }

  lemma {:induction false} SplitOne(s: string)
    requires ',' !in s
    ensures Split(s) == [s]
  {
    if s != "" {
      SplitOne(s[1..]);
      assert [s[0]] + s[1..] == s;
    }
  }

  lemma {:induction false} SplitFirst(a: string, rest: string)
    requires ',' !in a
    ensures Split(a + "," + rest) == [a] + Split(rest)
  {
    var s := a + "," + rest;
    if a == "" {
      assert s[1..] == rest;
    } else {
      SplitFirst(a[1..], rest);
      assert s[1..] == a[1..] + "," + rest && s[0] == a[0];
      assert [a[0]] + a[1..] == a;
      assert ([a[1..]] + Split(rest))[1..] == Split(rest);
    }
  }

  /** Splitting undoes joining, for parts without a comma. */
  lemma {:induction false} SplitJoin(parts: seq<string>)
    requires parts != [] && forall i :: 0 <= i < |parts| ==> ',' !in parts[i]
    ensures Split(Join(parts)) == parts
  {
    if |parts| == 1 {
      SplitOne(parts[0]);
    } else {
      SplitFirst(parts[0], Join(parts[1..]));
      SplitJoin(parts[1..]);
    }
  }

  // ---- Failures and their classes ----------------------------------------------------------------

  // What an error wraps; joined errors wrap several of these.
  datatype Cause = NoDsn | Deadline | Held | Incomplete | OtherCause

  type Failure = set<Cause>

  const RELAY_FAILED := "relay_failed"

  function PushErrorClass(f: Failure): string {
    if NoDsn in f then "no_hub_configured"
    else if Deadline in f then "timeout"
    else if Held in f then "push_held"
    else if Incomplete in f then "push_incomplete"
    else "push_failed"
  }

  /** A hub class is one part, and never the relay's. */
  lemma HubClassIsItsOwn(f: Failure)
    ensures ',' !in PushErrorClass(f) && PushErrorClass(f) != RELAY_FAILED && PushErrorClass(f) != ""
    ensures ',' !in RELAY_FAILED
  {
    assert PushErrorClass(f)[0] != RELAY_FAILED[0];
  }

  // What still fails: the hub's half, the relay's half.
  datatype Halves = Halves(hub: Option<Failure>, relay: bool)

  /** The parts a record of these halves is made of. */
  function Parts(h: Halves): seq<string> {
    (if h.hub.Some? then [PushErrorClass(h.hub.value)] else []) + (if h.relay then [RELAY_FAILED] else [])
  }

  type Time = int

  datatype Record = Record(at: Time, ok: bool, errorClass: string, shown: bool)

  /** The record says exactly these halves failed. */
  ghost predicate Says(rec: Record, h: Halves) {
    && (rec.ok <==> h.hub.None? && !h.relay)
    && (if rec.ok then rec.errorClass == "" else Split(rec.errorClass) == Parts(h))
  }

  // ---- The steps -----------------------------------------------------------------------------------

  function AddressedPushClass(h: Halves): string {
    if h.hub.Some? && h.relay then PushErrorClass(h.hub.value) + "," + RELAY_FAILED
    else if h.relay then RELAY_FAILED
    else if h.hub.Some? then PushErrorClass(h.hub.value)
    else ""
  }

  function Outcome(now: Time, h: Halves): Record {
    Record(now, h.hub.None? && !h.relay, AddressedPushClass(h), false)
  }

  /** The parts a resolve of one half keeps. */
  function Others(parts: seq<string>, relay: bool): seq<string> {
    if parts == [] then []
    else (if (parts[0] == RELAY_FAILED) != relay then [parts[0]] else []) + Others(parts[1..], relay)
  }

  function Resolved(rec: Record, now: Time, relay: bool): Record {
    var parts := Split(rec.errorClass);
    var kept := Others(parts, relay);
    if rec.ok || |kept| == |parts| then rec
    else if kept == [] then Record(now, true, "", false)
    else rec.(errorClass := Join(kept), shown := false)
  }

  lemma OthersNext(parts: seq<string>, i: nat, relay: bool)
    requires i < |parts|
    ensures Others(parts[i..], relay) == (if (parts[i] == RELAY_FAILED) != relay then [parts[i]] else []) + Others(parts[i + 1..], relay)
  {
    assert parts[i..][1..] == parts[i + 1..];
  }

  method KeepOthers(parts: seq<string>, relay: bool) returns (kept: seq<string>)
    ensures kept == Others(parts, relay)
  {
    kept := [];
    for i := 0 to |parts|
      invariant kept + Others(parts[i..], relay) == Others(parts, relay)
    {
      OthersNext(parts, i, relay);
      if (parts[i] == RELAY_FAILED) != relay {
        kept := kept + [parts[i]];
      }
    }
    assert parts[|parts|..] == [];
  }

  class PushRecord {
    var rec: Option<Record>

    constructor ()
      ensures rec.None?
    {
      rec := None;
    }

    /** A record that says exactly these halves; one that cannot be written leaves the old one. */
    method RecordAddressedPushOutcome(now: Time, h: Halves, writeOk: bool) returns (ok: bool)
      modifies this
      ensures ok == writeOk
      ensures rec == if ok then Some(Outcome(now, h)) else old(rec)
      ensures ok ==> Says(rec.value, h)
    {
      if writeOk {
        rec := Some(Record(now, h.hub.None? && !h.relay, AddressedPushClass(h), false));
        OutcomeSays(now, h);
      }
      ok := writeOk;
    }

    /** Clears the half that a completed push, or a completed relay pass, has fixed. */
    method ResolveAddressedPush(now: Time, relay: bool)
      modifies this
      ensures rec == if old(rec).None? then None else Some(Resolved(old(rec).value, now, relay))
    {
      if rec.None? || rec.value.ok {
        return;
      }
      var parts := Split(rec.value.errorClass);
      var kept := KeepOthers(parts, relay);
      if |kept| == |parts| {
        return;
      }
      if |kept| == 0 {
        rec := Some(Record(now, true, "", false));
      } else {
        rec := Some(rec.value.(errorClass := Join(kept), shown := false));
      }
    }
  }

  // ---- Runs ------------------------------------------------------------------------------------------

  datatype Op =
    | Push(now: Time, outcome: Halves)
    | Resolve(now: Time, relay: bool)

  function Written(rec: Option<Record>, op: Op): Option<Record> {
    match op
    case Push(now, h) => Some(Outcome(now, h))
    case Resolve(now, relay) => if rec.None? then None else Some(Resolved(rec.value, now, relay))
  }

  function After(ops: seq<Op>): Option<Record> {
    if ops == [] then None else Written(After(ops[..|ops| - 1]), ops[|ops| - 1])
  }

  /** The halves still failed after a run: those of the last push that nothing resolved since. */
  function StillFailed(ops: seq<Op>): Option<Halves> {
    if ops == [] then None
    else
      var before := StillFailed(ops[..|ops| - 1]);
      match ops[|ops| - 1]
      case Push(_, h) => Some(h)
      case Resolve(_, relay) => if before.None? then None else Some(Cleared(before.value, relay))
  }

  function Cleared(h: Halves, relay: bool): Halves {
    if relay then h.(relay := false) else h.(hub := None)
  }

  lemma OutcomeSays(now: Time, h: Halves)
    ensures Says(Outcome(now, h), h)
  {
    if h.hub.Some? {
      HubClassIsItsOwn(h.hub.value);
      SplitOne(PushErrorClass(h.hub.value));
      SplitFirst(PushErrorClass(h.hub.value), RELAY_FAILED);
    }
    SplitOne(RELAY_FAILED);
  }

  /** The cause that the class of a hub failure names: the first of these that it wraps. */
  function FirstCause(f: Failure): Cause {
    if NoDsn in f then NoDsn
    else if Deadline in f then Deadline
    else if Held in f then Held
    else if Incomplete in f then Incomplete
    else OtherCause
  }

  const NAMES: map<Cause, string> := map[NoDsn := "no_hub_configured", Deadline := "timeout", Held := "push_held",
                                         Incomplete := "push_incomplete", OtherCause := "push_failed"]

  lemma NamesDiffer(a: Cause, b: Cause)
    ensures NAMES[a] == NAMES[b] ==> a == b
    ensures NAMES[a] != "relay_failed" && NAMES[a] != ""
  {
    var m, n := NAMES[a], NAMES[b];
    assert |m| > 6 && |n| > 6;
    assert a != b ==> |m| != |n|;
    assert m[0] != "relay_failed"[0];
  }

  lemma ClassIsTheName(f: Failure)
    ensures PushErrorClass(f) == NAMES[FirstCause(f)]
  {}

  lemma ClassSplits(now: Time, h: Halves)
    ensures Split(Outcome(now, h).errorClass) == if h.hub.None? && !h.relay then [""] else Parts(h)
  {
    OutcomeSays(now, h);
    SplitOne("");
  }

  lemma PartsHold(h: Halves, part: string)
    ensures part in Parts(h) <==> (h.hub.Some? && part == PushErrorClass(h.hub.value)) || (h.relay && part == RELAY_FAILED)
  {}

  /** Whoever splits the class finds a cause's name exactly when it is the hub's, and the relay's. */
  lemma ClassNamesTheCause(now: Time, h: Halves, c: Cause)
    ensures NAMES[c] in Split(Outcome(now, h).errorClass) <==> h.hub.Some? && FirstCause(h.hub.value) == c
    ensures "relay_failed" in Split(Outcome(now, h).errorClass) <==> h.relay
  {
    ClassSplits(now, h);
    HubPartIs(h, NAMES[c]);
    HubPartIs(h, RELAY_FAILED);
    NamesDiffer(c, if h.hub.Some? then FirstCause(h.hub.value) else c);
  }

  lemma HubPartIs(h: Halves, part: string)
    ensures part in Parts(h) <==> (h.hub.Some? && part == NAMES[FirstCause(h.hub.value)]) || (h.relay && part == RELAY_FAILED)
    ensures h.hub.Some? ==> NAMES[FirstCause(h.hub.value)] != RELAY_FAILED
  {
    PartsHold(h, part);
    if h.hub.Some? {
      ClassIsTheName(h.hub.value);
      NamesDiffer(FirstCause(h.hub.value), NoDsn);
    }
  }

  lemma OthersOfParts(h: Halves, relay: bool)
    ensures Others(Parts(h), relay) == Parts(Cleared(h, relay))
  {
    assert [RELAY_FAILED][1..] == [] && Others([RELAY_FAILED], relay) == if relay then [] else [RELAY_FAILED];
    if h.hub.Some? {
      HubClassIsItsOwn(h.hub.value);
      assert Parts(h)[1..] == if h.relay then [RELAY_FAILED] else [];
    } else {
      assert Parts(h) == if h.relay then [RELAY_FAILED] else [];
    }
  }

  /** A resolve clears its own half of what the record says, and only that one. */
  lemma ResolvedSays(rec: Record, h: Halves, now: Time, relay: bool)
    requires Says(rec, h)
    ensures var after := Resolved(rec, now, relay);
            && Says(after, Cleared(h, relay))
            && (Cleared(h, relay) == h ==> after == rec)
            && (Cleared(h, relay) != h ==> !after.shown && after.at == if after.ok then now else rec.at)
  {
    if !rec.ok {
      OthersOfParts(h, relay);
      var kept := Parts(Cleared(h, relay));
      if h.hub.Some? {
        HubClassIsItsOwn(h.hub.value);
      }
      if kept != [] {
        SplitJoin(kept);
      }
    }
  }

  /**
   Over any run of outcomes and resolves, the record's class splits into exactly the halves still
   failed, and the record is OK exactly when neither is left.
  */
  lemma {:induction false} RecordSaysWhatStillFails(ops: seq<Op>)
    ensures After(ops).Some? <==> StillFailed(ops).Some?
    ensures After(ops).Some? ==> Says(After(ops).value, StillFailed(ops).value) && !After(ops).value.shown
  {
    if ops != [] {
      var init, op := ops[..|ops| - 1], ops[|ops| - 1];
      RecordSaysWhatStillFails(init);
      match op
      case Push(now, h) => OutcomeSays(now, h);
      case Resolve(now, relay) =>
        if After(init).Some? {
          ResolvedSays(After(init).value, StillFailed(init).value, now, relay);
        }
    }
  }

  // ---- The two resolves commute -------------------------------------------------------------------

  lemma {:induction false} OthersSplitTheParts(parts: seq<string>, relay: bool)
    ensures |Others(parts, relay)| + |Others(parts, !relay)| == |parts|
    ensures Others(Others(parts, relay), !relay) == []
    ensures forall i :: 0 <= i < |Others(parts, relay)| ==> Others(parts, relay)[i] in parts
  {
    if parts != [] {
      OthersSplitTheParts(parts[1..], relay);
      var rest := Others(parts[1..], relay);
      assert ([parts[0]] + rest)[1..] == rest && [] + rest == rest;
    }
  }

  lemma {:induction false} PartsHaveNoComma(s: string)
    ensures forall i :: 0 <= i < |Split(s)| ==> ',' !in Split(s)[i]
  {
    if s != "" {
      PartsHaveNoComma(s[1..]);
    }
  }

  /** Resolving one half after the other always leaves an OK record, in either order. */
  lemma BothResolvesClear(rec: Record, relay: bool, first: Time, second: Time)
    requires !rec.ok
    ensures var r := Resolved(Resolved(rec, first, relay), second, !relay);
            r.ok && r.errorClass == "" && !r.shown && r.at in {first, second}
  {
    var parts := Split(rec.errorClass);
    OthersSplitTheParts(parts, relay);
    PartsHaveNoComma(rec.errorClass);
    var kept := Others(parts, relay);
    if kept != [] && |kept| != |parts| {
      SplitJoin(kept);
    }
    if |kept| == |parts| {
      assert |Others(parts, !relay)| == 0;
    }
  }

  /** For every record, whatever wrote it: the order of the two resolves shows at most in the time. */
  lemma ResolvesCommute(rec: Record, hubAt: Time, relayAt: Time)
    ensures var a, b := Resolved(Resolved(rec, hubAt, false), relayAt, true), Resolved(Resolved(rec, relayAt, true), hubAt, false);
            a == b.(at := a.at) && (hubAt == relayAt ==> a == b)
  {
    if !rec.ok {
      BothResolvesClear(rec, false, hubAt, relayAt);
      BothResolvesClear(rec, true, relayAt, hubAt);
    }
  }

  // ---- The push that waits for the lock ------------------------------------------------------------

  // What one try meets.
  datatype Try = Try(readOk: bool, pending: bool, pushed: Option<Failure>, held: bool, undrained: bool, cancelled: bool)

  /** The try found the lock held, and may be repeated. */
  predicate Repeats(t: Try, n: nat, heldTries: int) {
    t.readOk && t.pending && t.pushed.None? && t.held && n < heldTries && !t.cancelled
  }

  /** Nothing was pending, or a push had the lock and drained the queue. */
  predicate Succeeds(t: Try) {
    t.readOk && (!t.pending || (t.pushed.None? && !t.held && !t.undrained))
  }

  /** What a try that neither succeeds nor repeats failed of. */
  function Failed(t: Try): Failure {
    if !t.readOk then {OtherCause}
    else if t.pushed.Some? then t.pushed.value
    else if t.held then {Held}
    else {Incomplete}
  }

  function AtLeastZero(n: int): nat { if n < 0 then 0 else n }

  /**
   Tries until one does not find the lock held, `heldTries` more times at most. It succeeds
   exactly when the last try did: a lock held for the whole wait is a failure of its own.
  */
  method PushWaitingForLock(tries: seq<Try>, heldTries: int) returns (err: Option<Failure>, last: nat)
    requires |tries| > AtLeastZero(heldTries)
    ensures last < |tries| && (last > 0 ==> last <= heldTries)
    ensures forall i :: 0 <= i < last ==>
              var t := tries[i];
              t.readOk && t.pending && t.pushed.None? && t.held && !t.cancelled
    ensures var t := tries[last];
            && (t.readOk && t.pending && t.pushed.None? && t.held ==> last >= heldTries || t.cancelled)
            && (err.None? <==> t.readOk && (!t.pending || (t.pushed.None? && !t.held && !t.undrained)))
            && (!t.readOk ==> err == Some({OtherCause}))
    ensures tries[last].readOk && tries[last].pending && tries[last].pushed.None? ==>
              (err == Some({Held}) <==> tries[last].held) && (err == Some({Incomplete}) <==> !tries[last].held && tries[last].undrained)
    ensures tries[last].readOk && tries[last].pending && tries[last].pushed.Some? ==> err == tries[last].pushed
  {
    last := 0;
    while true
      invariant last <= AtLeastZero(heldTries)
      invariant forall i :: 0 <= i < last ==> Repeats(tries[i], i, heldTries)
      decreases AtLeastZero(heldTries) - last
    {
      var t := tries[last];
      if !t.readOk {
        return Some({OtherCause}), last;
      }
      if !t.pending {
        return None, last;
      }
      if t.pushed.Some? {
        return t.pushed, last;
      }
      if t.held {
        if last >= heldTries || t.cancelled {
          return Some({Held}), last;
        }
        last := last + 1;
        continue;
      }
      if t.undrained {
        return Some({Incomplete}), last;
      }
      return None, last;
    }
  }

  datatype Ctx = Live | DeadlineExceeded | Cancelled

  /** A run cut short by its deadline keeps its failure and gains the deadline's. */
  function CutShort(err: Option<Failure>, ctx: Ctx): Option<Failure> {
    if ctx == DeadlineExceeded then Some((if err.Some? then err.value else {}) + {Deadline}) else err
  }

  /**
   The push, the relay pass and the record. `pushCtx` is the context after the push, `endCtx` at
   the end. A cancelled run records nothing, nor does one whose record cannot be written; a run
   whose push the deadline cut short is recorded as failed whatever the push reported, and an OK
   record means both halves succeeded.
  */
  method RunAddressedSendPush(store: PushRecord, hub: bool, tries: seq<Try>, heldTries: int, relayFails: bool, now: Time,
                              pushCtx: Ctx, endCtx: Ctx, writeOk: bool)
    returns (ghost last: nat)
    requires |tries| > AtLeastZero(heldTries)
    modifies store
    ensures last < |tries| && forall i :: 0 <= i < last ==> Repeats(tries[i], i, heldTries)
    ensures endCtx == Cancelled || !writeOk ==> store.rec == old(store.rec)
    ensures endCtx != Cancelled && writeOk ==>
              && store.rec.Some?
              && (store.rec.value.ok <==> !relayFails && (hub ==> pushCtx != DeadlineExceeded && Succeeds(tries[last])))
              && exists h :: Says(store.rec.value, h) && h.relay == relayFails
                             && (h.hub.None? <==> !hub || (pushCtx != DeadlineExceeded && Succeeds(tries[last])))
                             && (hub && pushCtx == DeadlineExceeded ==> PushErrorClass(h.hub.value) in {"timeout", "no_hub_configured"})
                             && (hub && pushCtx != DeadlineExceeded && !Succeeds(tries[last]) ==> h.hub.value == Failed(tries[last]))
  {
    var pushErr: Option<Failure> := None;
    last := 0;
    if hub {
      pushErr, last := PushWaitingForLock(tries, heldTries);
      pushErr := CutShort(pushErr, pushCtx);
    }
    if endCtx == Cancelled {
      return;
    }
    var _ := store.RecordAddressedPushOutcome(now, Halves(pushErr, relayFails), writeOk);
  }
}
