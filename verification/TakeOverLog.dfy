/**
 The operator's take-over log: one file for all boards, which every append prunes, by a filter
 that writes over the array it reads. It answers like a log that never forgets.
*/
module TakeOverLog {
  type Time = int // seconds

  const DAY: Time := 86400
  const WINDOW: Time := 3600 // the window of the take-over limit

  datatype Record = Record(agent: string, at: Time, displaced: string, noticeAttempted: bool)

  datatype Stored = Stored(board: string, rec: Record)

  predicate IsRecent(e: Stored, cutoff: Time) { e.rec.at > cutoff }

  /** The entries after the cutoff, in order. */
  function Kept(es: seq<Stored>, cutoff: Time): seq<Stored> {
    KeptOf(es, cutoff, |es|)
  }

  /** ... of the first `n` entries. */
  function KeptOf(es: seq<Stored>, cutoff: Time, n: nat): (r: seq<Stored>)
    requires n <= |es|
    ensures |r| <= n
  {
    if n == 0 then [] else KeptOf(es, cutoff, n - 1) + (if IsRecent(es[n - 1], cutoff) then [es[n - 1]] else [])
  }

  /** Moves the entries after the cutoff to the front of the same array. */
  method FilterInPlace(recs: array<Stored>, cutoff: Time) returns (kept: nat)
    modifies recs
    ensures kept <= recs.Length && recs[..kept] == Kept(old(recs[..]), cutoff)
  {
    kept := 0;
    ghost var was := recs[..];
    for i := 0 to recs.Length
      invariant kept <= i && recs[..kept] == KeptOf(was, cutoff, i)
      invariant forall j :: i <= j < recs.Length ==> recs[j] == was[j]
    {
      if IsRecent(recs[i], cutoff) {
        recs[kept] := recs[i];
        kept := kept + 1;
      }
    }
  }

  /** The entries of a board and an agent since a time, in order. */
  function Matching(es: seq<Stored>, board: string, agent: string, since: Time): (r: seq<Record>) {
    if es == [] then []
    else
      var e := es[|es| - 1];
      Matching(es[..|es| - 1], board, agent, since)
      + (if e.board == board && e.rec.agent == agent && e.rec.at >= since then [e.rec] else [])
  }

  class File {
    var entries: seq<Stored>

    constructor ()
      ensures entries == []
    {
      entries := [];
    }
  }

  class OperatorTakeOverLog {
    const file: File
    const board: string

    constructor (file: File, board: string)
      ensures this.file == file && this.board == board
    {
      this.file, this.board := file, board;
    }

    method Recent(agent: string, since: Time) returns (found: seq<Record>)
      ensures found == Matching(file.entries, board, agent, since)
    {
      found := [];
      var recs := file.entries;
      for i := 0 to |recs|
        invariant found == Matching(recs[..i], board, agent, since)
      {
        assert recs[..i + 1][..i] == recs[..i];
        if recs[i].board == board && recs[i].rec.agent == agent && recs[i].rec.at >= since {
          found := found + [recs[i].rec];
        }
      }
      assert recs[..|recs|] == recs;
    }

    method Append(rec: Record, writeOk: bool) returns (ok: bool)
      modifies file
      ensures ok == writeOk
      ensures file.entries == if ok then Appended(old(file.entries), Stored(board, rec)) else old(file.entries)
    {
      var read := file.entries;
      var recs := new Stored[|read|](i requires 0 <= i < |read| => read[i]);
      assert recs[..] == read;
      var kept := FilterInPlace(recs, rec.at - DAY);
      if !writeOk {
        return false;
      }
      file.entries := recs[..kept] + [Stored(board, rec)];
      ok := true;
    }
  }

  function Appended(es: seq<Stored>, e: Stored): seq<Stored> {
    Kept(es, e.rec.at - DAY) + [e]
  }

  /** The file after these appends, by any boards. */
  function Pruned(log: seq<Stored>): seq<Stored> {
    if log == [] then [] else Appended(Pruned(log[..|log| - 1]), log[|log| - 1])
  }

  // ---- What the pruned file holds --------------------------------------------------------------------

  /** Entry `i` was dropped: some later append came a day or more after it. */
  ghost predicate Dropped(log: seq<Stored>, i: nat)
    requires i < |log|
  {
    exists j :: i < j < |log| && log[j].rec.at - DAY >= log[i].rec.at
  }

  ghost function Drops(log: seq<Stored>): (drops: seq<bool>)
    ensures |drops| == |log|
  {
    seq(|log|, i requires 0 <= i < |log| => Dropped(log, i))
  }

  /** The first `n` entries without those marked, in order. */
  function Unmarked(es: seq<Stored>, marks: seq<bool>, n: nat): seq<Stored>
    requires n <= |es| && n <= |marks|
  {
    if n == 0 then [] else Unmarked(es, marks, n - 1) + Unless(marks[n - 1], es[n - 1])
  }

  function Unless(dropped: bool, e: Stored): seq<Stored> { if dropped then [] else [e] }

  /** The entries of the whole log that no later append dropped, in order. */
  ghost function Undropped(log: seq<Stored>): seq<Stored> {
    Unmarked(log, Drops(log), |log|)
  }

  lemma DroppedByNext(init: seq<Stored>, last: Stored, i: nat)
    requires i < |init|
    ensures Dropped(init + [last], i) <==> Dropped(init, i) || !IsRecent(init[i], last.rec.at - DAY)
  {
    var log := init + [last];
    if Dropped(init, i) {
      var j :| i < j < |init| && init[j].rec.at - DAY >= init[i].rec.at;
      assert log[j] == init[j];
    }
    if Dropped(log, i) {
      var j :| i < j < |log| && log[j].rec.at - DAY >= log[i].rec.at;
      assert j < |init| ==> init[j] == log[j];
    }
    assert log[|init|] == last;
  }

  lemma {:induction false} KeptAgree(a: seq<Stored>, b: seq<Stored>, cutoff: Time, n: nat)
    requires n <= |a|
    ensures KeptOf(a + b, cutoff, n) == KeptOf(a, cutoff, n)
  {
    if n > 0 {
      KeptAgree(a, b, cutoff, n - 1);
    }
  }

  lemma KeptStep(a: seq<Stored>, e: Stored, dropped: bool, cutoff: Time)
    ensures Kept(a + Unless(dropped, e), cutoff) == Kept(a, cutoff) + Unless(dropped || !IsRecent(e, cutoff), e)
  {
    if dropped {
      assert a + [] == a;
    } else {
      KeptAgree(a, [e], cutoff, |a|);
    }
  }

  /** Pruning what is unmarked is marking what the cutoff excludes. */
  lemma {:induction false} KeptUnmarked(es: seq<Stored>, before: seq<bool>, after: seq<bool>, cutoff: Time, n: nat)
    requires n <= |es| && n <= |before| && n <= |after|
    requires forall i :: 0 <= i < n ==> (after[i] <==> before[i] || !IsRecent(es[i], cutoff))
    ensures Unmarked(es, after, n) == Kept(Unmarked(es, before, n), cutoff)
  {
    if n > 0 {
      var e, was, now := es[n - 1], before[n - 1], after[n - 1];
      KeptUnmarked(es, before, after, cutoff, n - 1);
      assert Unmarked(es, before, n) == Unmarked(es, before, n - 1) + Unless(was, e);
      assert now == (was || !IsRecent(e, cutoff));
      KeptStep(Unmarked(es, before, n - 1), e, was, cutoff);
    }
  }

  lemma {:induction false} UnmarkedAgree(a: seq<Stored>, b: seq<Stored>, marks: seq<bool>, n: nat)
    requires n <= |a| && n <= |b| && n <= |marks| && a[..n] == b[..n]
    ensures Unmarked(a, marks, n) == Unmarked(b, marks, n)
  {
    if n > 0 {
      assert a[n - 1] == a[..n][n - 1] && b[n - 1] == b[..n][n - 1];
      assert a[..n - 1] == a[..n][..n - 1] && b[..n - 1] == b[..n][..n - 1];
      UnmarkedAgree(a, b, marks, n - 1);
    }
  }

  /** One more append: the entries too old for it are dropped as well. */
  lemma UndroppedNext(init: seq<Stored>, last: Stored)
    ensures Undropped(init + [last]) == Appended(Undropped(init), last)
  {
    var log, n := init + [last], |init|;
    forall i | 0 <= i < n
      ensures Drops(log)[i] <==> Drops(init)[i] || !IsRecent(init[i], last.rec.at - DAY)
    {
      DroppedByNext(init, last, i);
    }
    KeptUnmarked(init, Drops(init), Drops(log), last.rec.at - DAY, n);
    assert log[..n] == init[..n];
    UnmarkedAgree(log, init, Drops(log), n);
    assert !Dropped(log, n) && log[n] == last;
  }

  /** Whatever the clocks: the file is the whole log less the entries a later append dropped. */
  lemma {:induction false} PrunedIsUndropped(log: seq<Stored>)
    ensures Pruned(log) == Undropped(log)
  {
    if log != [] {
      var n := |log| - 1;
      PrunedIsUndropped(log[..n]);
      assert log[..n] + [log[n]] == log;
      UndroppedNext(log[..n], log[n]);
    }
  }

  // ---- Queries ---------------------------------------------------------------------------------------

  predicate Matches(e: Stored, board: string, agent: string, since: Time) {
    e.board == board && e.rec.agent == agent && e.rec.at >= since
  }

  /** A matching entry among the first `n` was dropped. */
  ghost predicate MissesOne(log: seq<Stored>, n: nat, board: string, agent: string, since: Time)
    requires n <= |log|
  {
    exists i :: 0 <= i < n && Matches(log[i], board, agent, since) && Dropped(log, i)
  }

  lemma MissesNext(log: seq<Stored>, n: nat, board: string, agent: string, since: Time)
    requires 0 < n <= |log|
    ensures MissesOne(log, n, board, agent, since) <==>
            MissesOne(log, n - 1, board, agent, since) || (Matches(log[n - 1], board, agent, since) && Dropped(log, n - 1))
  {
    if MissesOne(log, n, board, agent, since) {
      var i :| 0 <= i < n && Matches(log[i], board, agent, since) && Dropped(log, i);
      assert i < n - 1 ==> MissesOne(log, n - 1, board, agent, since);
    }
  }

  lemma MatchingNext(es: seq<Stored>, e: Stored, board: string, agent: string, since: Time)
    ensures Matching(es + [e], board, agent, since)
            == Matching(es, board, agent, since) + (if Matches(e, board, agent, since) then [e.rec] else [])
    ensures Matching(es + [], board, agent, since) == Matching(es, board, agent, since)
  {
    assert (es + [e])[..|es|] == es && es + [] == es;
  }

  ghost predicate Shorter(pruned: seq<Record>, full: seq<Record>, misses: bool) {
    && |pruned| <= |full|
    && (misses ==> |pruned| < |full|)
    && (!misses ==> pruned == full)
  }

  lemma {:induction false} MissesCount(log: seq<Stored>, n: nat, board: string, agent: string, since: Time)
    requires n <= |log|
    ensures Shorter(Matching(Unmarked(log, Drops(log), n), board, agent, since), Matching(log[..n], board, agent, since),
                    MissesOne(log, n, board, agent, since))
  {
    if n > 0 {
      MissesCount(log, n - 1, board, agent, since);
      MissesNext(log, n, board, agent, since);
      var e := log[n - 1];
      assert log[..n] == log[..n - 1] + [e];
      MatchingNext(log[..n - 1], e, board, agent, since);
      MatchingNext(Unmarked(log, Drops(log), n - 1), e, board, agent, since);
    }
  }

  /** The pruned log answers a query like the whole one exactly when no matching entry was dropped. */
  lemma RecentIsCompleteIff(log: seq<Stored>, board: string, agent: string, since: Time)
    ensures Matching(Pruned(log), board, agent, since) == Matching(log, board, agent, since)
            <==> !MissesOne(log, |log|, board, agent, since)
  {
    PrunedIsUndropped(log);
    MissesCount(log, |log|, board, agent, since);
    assert log[..|log|] == log;
  }

  /**
   So every query for less than a day before the latest time appended is answered in full, for
   any boards and clocks, increasing or not.
  */
  lemma RecentRefinesTheFullLog(log: seq<Stored>, board: string, agent: string, since: Time)
    requires forall i :: 0 <= i < |log| ==> since > log[i].rec.at - 86400
    ensures Matching(Pruned(log), board, agent, since) == Matching(log, board, agent, since)
  {
    RecentIsCompleteIff(log, board, agent, since);
    assert !MissesOne(log, |log|, board, agent, since);
  }

  /** The take-over limit counts every take-over of its window unless an entry is dated 23 hours ahead. */
  lemma TheLimitCountsAll(log: seq<Stored>, board: string, agent: string, now: Time)
    requires forall i :: 0 <= i < |log| ==> log[i].rec.at < now + 82800
    ensures Matching(Pruned(log), board, agent, now - WINDOW) == Matching(log, board, agent, now - 3600)
  {
    RecentRefinesTheFullLog(log, board, agent, now - WINDOW);
  }

  lemma PrunedPair(e: Stored, other: Stored)
    requires other.rec.at == e.rec.at + 86400
    ensures Pruned([e, other]) == [other]
  {
    assert [e, other][..1] == [e] && [e][..0] == [];
    assert Pruned([e]) == [e];
    assert Kept([e], e.rec.at) == [];
  }

  lemma MatchingOne(e: Stored, board: string, agent: string, since: Time)
    ensures Matching([e], board, agent, since) == if Matches(e, board, agent, since) then [e.rec] else []
  {
    assert [e][..0] == [];
  }

  /** The bound is tight: an entry at exactly a day after another one drops it, from any board. */
  lemma ADayLaterDrops(e: Stored, other: Stored)
    requires other.rec.at == e.rec.at + 86400
    ensures e.rec !in Matching(Pruned([e, other]), e.board, e.rec.agent, e.rec.at)
    ensures e.rec in Matching([e, other], e.board, e.rec.agent, e.rec.at)
  {
    PrunedPair(e, other);
    MatchingOne(other, e.board, e.rec.agent, e.rec.at);
    MatchingOne(e, e.board, e.rec.agent, e.rec.at);
    assert [e, other][..1] == [e];
  }
}
