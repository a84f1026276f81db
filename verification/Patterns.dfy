/**
 Leftmost-first matching of the two patterns that read service units: a pattern is a sequence of
 literals, greedy repetitions of a class (some of them captured) and line anchors. A repetition
 takes as many characters as it can and gives them back one at a time.
*/
module Patterns {
  import opened Options

  datatype Class = NotNewline | Digit | Space | NotLt

  predicate Is(k: Class, c: char) {
    match k
    case NotNewline => c != '\n'
    case Digit => '0' <= c <= '9'
    case Space => c in {'\t', '\n', '\r', ' '} || c as int == 12
    case NotLt => c != '<'
  }

  datatype Item =
    | Lit(text: string)
    | Many(chars: Class, min: nat, capture: bool)
    | LineStart
    | LineEnd

  predicate StartsWith(s: string, p: string) {
    |p| <= |s| && s[..|p|] == p
  }

  /** How many characters in front are of the class. */
  function RunOf(k: Class, s: string): (n: nat)
    ensures n <= |s|
    ensures forall i :: 0 <= i < n ==> Is(k, s[i])
    ensures n < |s| ==> !Is(k, s[n])
  {
    if s == "" || !Is(k, s[0]) then 0 else 1 + RunOf(k, s[1..])
  }

  /** The captures of the pattern at the front of `s`; `bol` says a line starts there. */
  function Match(re: seq<Item>, s: string, bol: bool): Option<seq<string>>
    decreases |re|, |s| + 1
  {
    if re == [] then Some([])
    else match re[0]
      case Lit(t) => if StartsWith(s, t) then Match(re[1..], s[|t|..], Bol(s, |t|, bol)) else None
      case Many(k, min, capture) => Try(re, s, bol, RunOf(k, s))
      case LineStart => if bol then Match(re[1..], s, bol) else None
      case LineEnd => if s == "" || s[0] == '\n' then Match(re[1..], s, bol) else None
  }

  /** A line starts after the first `n` characters. */
  predicate Bol(s: string, n: nat, bol: bool)
    requires n <= |s|
  {
    if n == 0 then bol else s[n - 1] == '\n'
  }

  /** A repetition of `n` characters, or else of fewer. */
  function Try(re: seq<Item>, s: string, bol: bool, n: nat): Option<seq<string>>
    requires re != [] && re[0].Many? && n <= |s|
    decreases |re|, n
  {
    if n < re[0].min then None
    else
      var rest := Match(re[1..], s[n..], Bol(s, n, bol));
      if rest.Some? then Some((if re[0].capture then [s[..n]] else []) + rest.value)
      else if n == 0 then None
      else Try(re, s, bol, n - 1)
  }

  /** The captures of the leftmost match. */
  function Find(re: seq<Item>, s: string, bol: bool): Option<seq<string>> {
    var here := Match(re, s, bol);
    if here.Some? || s == "" then here else Find(re, s[1..], s[0] == '\n')
  }

  /** The longest repetition after which the rest matches is the one taken. */
  lemma {:induction false} TakesLongest(re: seq<Item>, s: string, bol: bool, n: nat, k: nat)
    requires re != [] && re[0].Many? && re[0].min <= k <= n <= |s|
    requires forall j :: k < j <= n ==> Match(re[1..], s[j..], Bol(s, j, bol)).None?
    requires Match(re[1..], s[k..], Bol(s, k, bol)).Some?
    ensures Try(re, s, bol, n)
         == Some((if re[0].capture then [s[..k]] else []) + Match(re[1..], s[k..], Bol(s, k, bol)).value)
    decreases n
  {
    if n > k {
      TakesLongest(re, s, bol, n - 1, k);
    }
  }

  /** No repetition works where the rest matches after none. */
  lemma {:induction false} NoneWorks(re: seq<Item>, s: string, bol: bool, n: nat)
    requires re != [] && re[0].Many? && n <= |s|
    requires forall j :: re[0].min <= j <= n ==> Match(re[1..], s[j..], Bol(s, j, bol)).None?
    ensures Try(re, s, bol, n).None?
    decreases n
  {
    if n >= re[0].min && n > 0 {
      NoneWorks(re, s, bol, n - 1);
    }
  }

  /** A repetition of exactly `head`, where nothing longer lets the rest match. */
  lemma ManyThen(re: seq<Item>, head: string, rest: string, bol: bool, n: nat, found: seq<string>)
    requires re != [] && re[0].Many? && re[0].min <= |head| <= n && n == RunOf(re[0].chars, head + rest)
    requires Match(re[1..], rest, Bol(head + rest, |head|, bol)) == Some(found)
    requires forall j :: |head| < j <= n ==> Match(re[1..], (head + rest)[j..], Bol(head + rest, j, bol)).None?
    ensures Match(re, head + rest, bol) == Some((if re[0].capture then [head] else []) + found)
  {
    var s := head + rest;
    assert s[..|head|] == head && s[|head|..] == rest;
    TakesLongest(re, s, bol, n, |head|);
  }

  /** No repetition lets the rest match. */
  lemma ManyFails(re: seq<Item>, s: string, bol: bool)
    requires re != [] && re[0].Many?
    requires forall j :: re[0].min <= j <= RunOf(re[0].chars, s) ==> Match(re[1..], s[j..], Bol(s, j, bol)).None?
    ensures Match(re, s, bol).None?
  {
    NoneWorks(re, s, bol, RunOf(re[0].chars, s));
  }

  /** A text matched nowhere in its first part is searched from the second. */
  lemma {:induction false} FindSkips(re: seq<Item>, a: string, b: string, bol: bool)
    requires forall i :: 0 <= i < |a| ==> Match(re, (a + b)[i..], Bol(a, i, bol)).None?
    ensures Find(re, a + b, bol) == Find(re, b, Bol(a, |a|, bol))
    decreases |a|
  {
    if a == "" {
      assert a + b == b;
    } else {
      var s := a + b;
      assert s[0..] == s && s[1..] == a[1..] + b;
      assert Match(re, s, bol).None? by {
        assert Match(re, s[0..], Bol(a, 0, bol)).None?;
      }
      forall i | 0 <= i < |a[1..]|
        ensures Match(re, (a[1..] + b)[i..], Bol(a[1..], i, a[0] == '\n')).None?
      {
        assert (a[1..] + b)[i..] == s[i + 1..];
        assert Bol(a, i + 1, bol) == Bol(a[1..], i, a[0] == '\n');
      }
      FindSkips(re, a[1..], b, a[0] == '\n');
      assert Bol(a, |a|, bol) == Bol(a[1..], |a[1..]|, a[0] == '\n');
    }
  }

  /** A text with no place for the pattern has no match. */
  lemma {:induction false} FindNone(re: seq<Item>, s: string, bol: bool)
    requires forall i :: 0 <= i <= |s| ==> Match(re, s[i..], Bol(s, i, bol)).None?
    ensures Find(re, s, bol).None?
    decreases |s|
  {
    assert s[0..] == s && Match(re, s[0..], Bol(s, 0, bol)).None?;
    if s != "" {
      forall i | 0 <= i <= |s[1..]|
        ensures Match(re, s[1..][i..], Bol(s[1..], i, s[0] == '\n')).None?
      {
        assert s[1..][i..] == s[i + 1..];
        assert Bol(s, i + 1, bol) == Bol(s[1..], i, s[0] == '\n');
      }
      FindNone(re, s[1..], s[0] == '\n');
    }
  }

  lemma StartsWithAt(s: string, p: string, j: nat)
    requires j < |p|
    ensures StartsWith(s, p) ==> j < |s| && s[j] == p[j]
  {
    if StartsWith(s, p) {
      assert s[..|p|][j] == p[j];
    }
  }

  /** A pattern that begins with a literal matches nowhere but at its first character. */
  lemma LitNeeds(re: seq<Item>, s: string, bol: bool, j: nat)
    requires re != [] && re[0].Lit? && j < |re[0].text|
    requires j < |s| ==> s[j] != re[0].text[j]
    ensures Match(re, s, bol).None?
  {
    StartsWithAt(s, re[0].text, j);
  }

  /** A literal in front is consumed. */
  lemma LitStep(re: seq<Item>, t: string, rest: string, bol: bool)
    requires re != [] && re[0] == Lit(t)
    ensures Match(re, t + rest, bol) == Match(re[1..], rest, Bol(t, |t|, bol))
  {
    assert (t + rest)[..|t|] == t && (t + rest)[|t|..] == rest;
    assert Bol(t + rest, |t|, bol) == Bol(t, |t|, bol);
  }

  lemma {:induction false} RunIs(k: Class, a: string, b: string)
    requires forall i :: 0 <= i < |a| ==> Is(k, a[i])
    requires b != "" ==> !Is(k, b[0])
    ensures RunOf(k, a + b) == |a|
    decreases |a|
  {
    if a == "" {
      assert a + b == b;
    } else {
      assert (a + b)[1..] == a[1..] + b;
      RunIs(k, a[1..], b);
    }
  }

  // ---- What a capture can hold -----------------------------------------------------------------

  /** The pattern captures once, and what it captures is of this class. */
  ghost predicate CapturesOne(re: seq<Item>, k: Class) {
    Groups(re) == 1 && forall i :: 0 <= i < |re| && IsGroup(re[i]) ==> re[i].chars == k
  }

  predicate IsGroup(item: Item) { item.Many? && item.capture }

  function Groups(re: seq<Item>): nat {
    if re == [] then 0 else (if IsGroup(re[0]) then 1 else 0) + Groups(re[1..])
  }

  lemma {:induction false} OneGroup(re: seq<Item>, g: nat)
    requires g < |re| && forall i :: 0 <= i < |re| ==> (IsGroup(re[i]) <==> i == g)
    ensures Groups(re) == 1
    decreases |re|
  {
    if g > 0 {
      OneGroup(re[1..], g - 1);
    } else {
      NoGroup(re[1..]);
    }
  }

  lemma {:induction false} NoGroup(re: seq<Item>)
    requires forall i :: 0 <= i < |re| ==> !IsGroup(re[i])
    ensures Groups(re) == 0
    decreases |re|
  {
    if re != [] {
      NoGroup(re[1..]);
    }
  }

  ghost predicate AllOf(k: Class, captures: seq<string>) {
    forall i, j :: 0 <= i < |captures| && 0 <= j < |captures[i]| ==> Is(k, captures[i][j])
  }

  lemma {:induction false} MatchIsOf(re: seq<Item>, s: string, bol: bool, k: Class)
    requires forall i :: 0 <= i < |re| && IsGroup(re[i]) ==> re[i].chars == k
    ensures var m := Match(re, s, bol); m.Some? ==> |m.value| == Groups(re) && AllOf(k, m.value)
    decreases |re|, |s| + 1
  {
    if re != [] {
      assert forall i :: 0 <= i < |re[1..]| ==> re[1..][i] == re[i + 1];
      match re[0]
      case Lit(t) =>
        if StartsWith(s, t) {
          MatchIsOf(re[1..], s[|t|..], Bol(s, |t|, bol), k);
        }
      case Many(c, _, _) => TryIsOf(re, s, bol, RunOf(c, s), k);
      case LineStart => MatchIsOf(re[1..], s, bol, k);
      case LineEnd => MatchIsOf(re[1..], s, bol, k);
    }
  }

  lemma {:induction false} TryIsOf(re: seq<Item>, s: string, bol: bool, n: nat, k: Class)
    requires re != [] && re[0].Many? && n <= RunOf(re[0].chars, s)
    requires forall i :: 0 <= i < |re| && IsGroup(re[i]) ==> re[i].chars == k
    ensures var m := Try(re, s, bol, n); m.Some? ==> |m.value| == Groups(re) && AllOf(k, m.value)
    decreases |re|, n
  {
    assert forall i :: 0 <= i < |re[1..]| ==> re[1..][i] == re[i + 1];
    MatchIsOf(re[1..], s[n..], Bol(s, n, bol), k);
    if n > 0 {
      TryIsOf(re, s, bol, n - 1, k);
    }
  }

  /** Whatever the text, what such a pattern finds is one text of the class. */
  lemma {:induction false} FoundIsOf(re: seq<Item>, s: string, bol: bool, k: Class)
    requires CapturesOne(re, k)
    ensures var m := Find(re, s, bol); m.Some? ==> |m.value| == 1 && AllOf(k, m.value)
    decreases |s|
  {
    MatchIsOf(re, s, bol, k);
    if s != "" {
      FoundIsOf(re, s[1..], s[0] == '\n', k);
    }
  }
}
