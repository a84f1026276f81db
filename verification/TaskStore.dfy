/**
 One client's tasks, and the renumber that a lost number contest asks for: claim the next
 sibling number, move the task's whole subtree to it, retry while the number is taken.
*/
module TaskStore {
  import opened Options

  // A dot-notation task number inside one project: PROJ-4.2 is [4, 2].
  type Number = seq<nat>

  type Uid = string

  // A soft-deleted task keeps its number.
  datatype Task = Task(number: Number, live: bool)

  type Tasks = map<Uid, Task>

  const MAX_SEQUENCE: nat := 0x7fff_ffff
  const MAX_ATTEMPTS: nat := 10000

  predicate Under(top: Number, n: Number) {
    top <= n
  }

  /** No two tasks hold one number (the nodes table's primary key). */
  ghost predicate Distinct(tasks: Tasks) {
    forall u, v :: u in tasks && v in tasks && tasks[u].number == tasks[v].number ==> u == v
  }

  predicate Holds(tasks: Tasks, n: Number) {
    exists u :: u in tasks && tasks[u].number == n
  }

  /** Neither `n` nor any number below it is held. */
  predicate NamespaceFree(tasks: Tasks, n: Number) {
    forall u :: u in tasks ==> !Under(n, tasks[u].number)
  }

  /** Every task at or below `old` moves to the same place below `new`. */
  function Moved(tasks: Tasks, src: Number, dst: Number): (moved: Tasks)
    ensures moved.Keys == tasks.Keys
  {
    map u | u in tasks ::
      if Under(src, tasks[u].number)
      then Task(dst + tasks[u].number[|src|..], tasks[u].live)
      else tasks[u]
  }

  predicate Siblings(a: Number, b: Number) {
    |a| == |b| && |a| > 0 && a[..|a| - 1] == b[..|b| - 1]
  }

  /**
   A renumber to a free sibling number loses no task, binds no number twice, and moves exactly
   the tasks at or below the old number.
  */
  lemma MoveKeepsTasks(tasks: Tasks, src: Number, dst: Number)
    requires Distinct(tasks) && NamespaceFree(tasks, dst) && src != dst && |src| == |dst|
    ensures Moved(tasks, src, dst).Keys == tasks.Keys
    ensures Distinct(Moved(tasks, src, dst))
    ensures forall u :: u in tasks ==>
              (Moved(tasks, src, dst)[u] == tasks[u] <==> !Under(src, tasks[u].number))
    ensures forall u :: u in tasks ==> Moved(tasks, src, dst)[u].live == tasks[u].live
    ensures NamespaceFree(Moved(tasks, src, dst), src)
  {
    var moved := Moved(tasks, src, dst);
    forall u | u in tasks && Under(src, tasks[u].number)
      ensures moved[u].number[..|src|] == dst && moved[u] != tasks[u]
    {
      assert tasks[u].number[..|src|] == src;
    }
    forall u, v | u in moved && v in moved && moved[u].number == moved[v].number
      ensures u == v
    {
      var a, b := tasks[u].number, tasks[v].number;
      if Under(src, a) && Under(src, b) {
        assert moved[u].number[|src|..] == a[|src|..];
        assert moved[v].number[|src|..] == b[|src|..];
        assert a == src + a[|src|..] && b == src + b[|src|..];
      }
    }
    forall u | u in moved
      ensures !Under(src, moved[u].number)
    {
      if Under(src, tasks[u].number) {
        assert moved[u].number[..|src|] == dst;
      }
    }
  }

  function Parent(n: Number): Number
    requires n != []
  {
    n[..|n| - 1]
  }

  /** Below the child of `parent` whose number is `count` or less. */
  predicate BelowCount(parent: Number, count: nat, n: Number) {
    |n| > |parent| && Under(parent, n) && n[|parent|] <= count
  }

  /** What a claim under `parent` answers while its counter is at `count`. */
  ghost predicate Claims(tasks: Tasks, parent: Number, count: nat, claimed: Option<nat>) {
    var next := count + 1;
    && (claimed.None? <==>
          next > 0x7fff_ffff || (Holds(tasks, parent + [next]) && Holds(tasks, parent + [0x7fff_ffff])))
    && (claimed.Some? ==>
          && next <= claimed.value <= 0x7fff_ffff && !Holds(tasks, parent + [claimed.value])
          && (claimed.value > next ==>
                && Holds(tasks, parent + [next]) && Holds(tasks, parent + [claimed.value - 1])
                && forall k :: claimed.value <= k <= MAX_SEQUENCE ==> !Holds(tasks, parent + [k])))
  }

  /** A number is in reach: the counter is below the limit, nothing is at it, and not too much is in the way. */
  predicate HasRoom(tasks: Tasks, parent: Number, count: nat) {
    count < 0x7fff_ffff && NamespaceFree(tasks, parent + [0x7fff_ffff]) && |tasks| <= 10000
  }

  /** A task is at or below that child number, or a later child number is held. */
  ghost predicate PassedOver(tasks: Tasks, parent: Number, k: nat) {
    !NamespaceFree(tasks, parent + [k]) || exists j :: k < j && Holds(tasks, parent + [j])
  }

  /** Every child number between the two was passed over. */
  ghost predicate NoneMissed(tasks: Tasks, parent: Number, low: nat, high: nat) {
    forall k :: low < k < high ==> PassedOver(tasks, parent, k)
  }

  /** The numbers after `before` up to `count` were tried and not free, or skipped. */
  ghost predicate Tried(tasks: Tasks, parent: Number, before: nat, count: nat) {
    && before <= count && (forall k :: before < k <= count ==> PassedOver(tasks, parent, k))
    && (HasRoom(tasks, parent, before) ==> count < MAX_SEQUENCE)
  }

  /** Each of `blockers` barred one number up to `count`; none is the task at a child number itself. */
  ghost predicate Blocks(tasks: Tasks, parent: Number, count: nat, blockers: set<Uid>) {
    forall u :: u in blockers ==> u in tasks && |tasks[u].number| > |parent| + 1 && BelowCount(parent, count, tasks[u].number)
  }

  lemma HeldIsNotFree(tasks: Tasks, n: Number)
    requires Holds(tasks, n)
    ensures !NamespaceFree(tasks, n)
  {}

  lemma NoneLeft(tasks: Tasks, parent: Number, before: nat, count: nat)
    requires Tried(tasks, parent, before, count) && Claims(tasks, parent, count, None)
    ensures !HasRoom(tasks, parent, before)
  {
    if count < MAX_SEQUENCE {
      HeldIsNotFree(tasks, parent + [MAX_SEQUENCE]);
    }
  }

  lemma SkipsOnlyHeld(tasks: Tasks, parent: Number, before: nat, last: nat, claimed: nat)
    requires Tried(tasks, parent, before, last) && Claims(tasks, parent, last, Some(claimed))
    ensures NoneMissed(tasks, parent, before, claimed)
  {
    forall k | last < k < claimed
      ensures PassedOver(tasks, parent, k)
    {
      assert Holds(tasks, parent + [claimed - 1]);
      if k == claimed - 1 {
        HeldIsNotFree(tasks, parent + [k]);
      }
    }
  }

  lemma TriedNext(tasks: Tasks, parent: Number, before: nat, last: nat, claimed: nat)
    requires Tried(tasks, parent, before, last) && Claims(tasks, parent, last, Some(claimed))
    requires !NamespaceFree(tasks, parent + [claimed])
    ensures Tried(tasks, parent, before, claimed)
  {
    SkipsOnlyHeld(tasks, parent, before, last, claimed);
    assert PassedOver(tasks, parent, claimed);
  }

  lemma BelowChild(tasks: Tasks, parent: Number, k: nat, u: Uid)
    requires u in tasks && Under(parent + [k], tasks[u].number) && !Holds(tasks, parent + [k])
    ensures var n := tasks[u].number;
            |n| > |parent| + 1 && Under(parent, n) && n[|parent|] == k
  {
    var n, top := tasks[u].number, parent + [k];
    assert n[..|top|] == top && top[|parent|] == k && top[..|parent|] == parent;
    assert n[..|parent|] == n[..|top|][..|parent|];
    assert n != top;
  }

  /** A claimed number that is not free has a task below it, which barred no number before. */
  lemma OneMoreBlocker(tasks: Tasks, parent: Number, last: nat, claimed: nat, blockers: set<Uid>)
    returns (more: set<Uid>)
    requires Blocks(tasks, parent, last, blockers) && last < claimed
    requires !NamespaceFree(tasks, parent + [claimed]) && !Holds(tasks, parent + [claimed])
    ensures |more| == |blockers| + 1 && Blocks(tasks, parent, claimed, more)
  {
    var u :| u in tasks && Under(parent + [claimed], tasks[u].number);
    BelowChild(tasks, parent, claimed, u);
    assert u !in blockers;
    more := blockers + {u};
  }

  lemma {:induction false} SubsetSize<T>(a: set<T>, b: set<T>)
    requires a <= b
    ensures |a| <= |b|
  {
    if a != {} {
      var x :| x in a;
      SubsetSize(a - {x}, b - {x});
    }
  }

  class Store {
    var tasks: Tasks
    var counters: map<Number, nat> // the last number handed out under each parent

    ghost predicate Valid()
      reads this
    {
      Distinct(tasks) && forall u :: u in tasks ==> tasks[u].number != []
    }

    function Counter(parent: Number): nat
      reads this
    {
      if parent in counters then counters[parent] else 0
    }

    /** The number of the live task that holds `uid`. */
    method LiveNodeIDByUID(uid: Uid) returns (n: Option<Number>)
      ensures n == if uid in tasks && uid != "" && tasks[uid].live then Some(tasks[uid].number) else None
    {
      if uid in tasks && uid != "" && tasks[uid].live {
        return Some(tasks[uid].number);
      }
      n := None;
    }

    /** The highest child number, up to the limit, that any task under `parent` holds. */
    method HighestChild(parent: Number) returns (high: nat)
      ensures high <= MAX_SEQUENCE && (high > 0 ==> Holds(tasks, parent + [high]))
      ensures forall k :: high < k <= MAX_SEQUENCE ==> !Holds(tasks, parent + [k])
    {
      high := 0;
      var rest := tasks.Keys;
      while rest != {}
        invariant rest <= tasks.Keys && high <= MAX_SEQUENCE && (high > 0 ==> Holds(tasks, parent + [high]))
        invariant forall u, k :: u in tasks && u !in rest && tasks[u].number == parent + [k] && k <= MAX_SEQUENCE ==> k <= high
        decreases rest
      {
        var u :| u in rest;
        var n := tasks[u].number;
        if |n| == |parent| + 1 && n[..|parent|] == parent && high < n[|parent|] <= MAX_SEQUENCE {
          high := n[|parent|];
          assert n == parent + [high];
        }
        rest := rest - {u};
      }
    }

    /**
     The next number under `parent`: one above the counter, or, when a task already holds
     that, past every number held there. The number is never handed out again.
    */
    method ClaimNextSeq(parent: Number) returns (claimed: Option<nat>)
      modifies this`counters
      ensures forall p :: p != parent ==> (p in counters <==> p in old(counters)) && (p in counters ==> counters[p] == old(counters)[p])
      ensures Claims(tasks, parent, if parent in old(counters) then old(counters)[parent] else 0, claimed)
      ensures claimed.Some? ==> Counter(parent) == claimed.value
      ensures claimed.None? ==> Counter(parent) == old(Counter(parent)) + (if old(Counter(parent)) < MAX_SEQUENCE then 1 else 0)
    {
      var value := Counter(parent) + 1;
      if value > MAX_SEQUENCE {
        return None;
      }
      if Holds(tasks, parent + [value]) {
        var high := HighestChild(parent);
        if high < value {
          high := value;
        }
        if high >= MAX_SEQUENCE {
          counters := counters[parent := value];
          return None;
        }
        value := high + 1;
      }
      counters := counters[parent := value];
      claimed := Some(value);
    }

    /**
     Move the task holding `uid` to the next free sibling number. Claims are kept when the
     move fails; the tasks change together or not at all.
    */
    method RenumberForHubRejection(uid: Uid) returns (r: Option<Number>)
      requires Valid()
      modifies this
      ensures Valid()
      ensures r.None? ==> tasks == old(tasks)
      ensures uid !in old(tasks) || uid == "" ==> r.None?
      ensures uid in old(tasks) && uid != "" && old(HasRoom(tasks, Parent(tasks[uid].number), Counter(Parent(tasks[uid].number)))) ==> r.Some?
      ensures r.Some? ==>
                && uid in old(tasks)
                && var from := old(tasks)[uid].number;
                   && |r.value| == |from| && r.value == Parent(from) + [r.value[|from| - 1]] && from != r.value
                   && Siblings(from, r.value)
                   && r.value[|from| - 1] > old(Counter(Parent(from)))
                   && NoneMissed(old(tasks), Parent(from), old(Counter(Parent(from))), r.value[|from| - 1])
                   && NamespaceFree(old(tasks), r.value)
                   && tasks == Moved(old(tasks), from, r.value)
                   && tasks[uid].number == r.value
    {
      if uid !in tasks || uid == "" {
        return None;
      }
      var from := tasks[uid].number;
      var parent := Parent(from);
      ghost var before := Counter(parent);
      ghost var blockers: set<Uid> := {};
      for attempt := 0 to MAX_ATTEMPTS
        invariant tasks == old(tasks) && |blockers| == attempt
        invariant Tried(tasks, parent, before, Counter(parent)) && Blocks(tasks, parent, Counter(parent), blockers)
      {
        ghost var last := Counter(parent);
        var claim := ClaimNextSeq(parent);
        if claim.None? {
          NoneLeft(tasks, parent, before, last);
          return None;
        }
        var target := parent + [claim.value];
        SkipsOnlyHeld(tasks, parent, before, last, claim.value);
        if NamespaceFree(tasks, target) {
          MoveKeepsTasks(tasks, from, target);
          assert from[|from|..] == [];
          tasks := Moved(tasks, from, target);
          return Some(target);
        }
        TriedNext(tasks, parent, before, last, claim.value);
        blockers := OneMoreBlocker(tasks, parent, last, claim.value, blockers);
      }
      SubsetSize(blockers, tasks.Keys - {uid});
      r := None;
    }
  }
}
