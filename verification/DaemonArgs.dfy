/**
 Telling a running daemon from its command line, without a list of the flags that may precede
 the daemon word, and the grammar of the command lines it has to tell apart.
*/
module DaemonArgs {
  import opened Options

  predicate Dashed(t: string) { t != "" && t[0] == '-' }

  predicate IsServiceVerb(t: string) { t in {"install", "uninstall", "start", "stop", "status", "help"} }

  // The flags that take a value and can stand between the daemon word and its subcommand.
  predicate TakesValue(t: string) { t in {"-C", "--project-dir", "--log-level", "--interval"} }

  /** A dashed word without "=": a long flag or a lone short one, whose value may follow. */
  predicate MayTakeValue(t: string) {
    '=' !in t && |t| > 1 && (t[1] == '-' || |t| == 2)
  }

  // ---- The classifier -------------------------------------------------------------------------

  /** Whether the first word that is neither a flag nor a flag's value is a service verb. */
  function VerbFollows(words: seq<string>): bool {
    if words == [] then false
    else if Dashed(words[0]) && |words[0]| > 1 then
      VerbFollows(if TakesValue(words[0]) && |words| > 1 then words[2..] else words[1..])
    else IsServiceVerb(words[0])
  }

  function Classify(words: seq<string>, afterFlag: bool): bool {
    if words == [] then false
    else if Dashed(words[0]) then Classify(words[1..], MayTakeValue(words[0]))
    else if words[0] == "daemon" then !VerbFollows(words[1..])
    else if afterFlag || words[0] == "sync" then Classify(words[1..], false)
    else false
  }

  method FollowedByServiceVerb(rest: seq<string>) returns (r: bool)
    ensures r == VerbFollows(rest)
  {
    var i := 0;
    while i < |rest|
      invariant VerbFollows(rest) == (i < |rest| && VerbFollows(rest[i..]))
    {
      var tok := rest[i];
      assert rest[i..][1..] == rest[i + 1..];
      if Dashed(tok) && |tok| > 1 {
        if TakesValue(tok) {
          assert i + 1 < |rest| ==> rest[i..][2..] == rest[i + 2..];
          i := i + 1;
        }
      } else {
        return IsServiceVerb(tok);
      }
      i := i + 1;
    }
    r := false;
  }

  method RunsDaemon(args: seq<string>) returns (r: bool)
    ensures r == (args != [] && Classify(args[1..], false))
  {
    var afterFlag := false;
    var i := 1;
    while i < |args|
      invariant 1 <= i
      invariant args != [] ==> i <= |args| && Classify(args[1..], false) == Classify(args[i..], afterFlag)
    {
      var tok := args[i];
      assert args[i..][1..] == args[i + 1..];
      if Dashed(tok) {
        afterFlag := MayTakeValue(tok);
      } else if tok == "daemon" {
        var verb := FollowedByServiceVerb(args[i + 1..]);
        return !verb;
      } else if afterFlag || tok == "sync" {
        afterFlag := false;
      } else {
        return false;
      }
      i := i + 1;
    }
    r := false;
  }

  // ---- The command lines ------------------------------------------------------------------------

  // A flag whose value is the next word, or a flag of one word: a bool, `--name=value`, or a
  // short flag with its value attached. Any value text.
  datatype Flag = Split(name: string, value: string) | OneWord(text: string)

  predicate RootFlag(f: Flag) {
    match f
    case Split(name, _) => name in {"-C", "--project-dir", "--log-level"}
    case OneWord(t) => |t| > 1 && t[0] == '-' && t !in {"-C", "--project-dir", "--log-level", "--interval"}
  }

  const SERVICE_VERBS: set<string> := {"install", "uninstall", "start", "stop", "status", "help"}

  predicate DaemonFlag(f: Flag) { RootFlag(f) || (f.Split? && f.name == "--interval") }

  // program flags [sync flags] daemon flags [verb anything]
  datatype Line = Line(before: seq<Flag>, sync: bool, between: seq<Flag>, after: seq<Flag>, verb: Option<string>, tail: seq<string>)

  predicate InGrammar(l: Line) {
    && (forall i :: 0 <= i < |l.before| ==> RootFlag(l.before[i]))
    && (forall i :: 0 <= i < |l.between| ==> RootFlag(l.between[i]))
    && (forall i :: 0 <= i < |l.after| ==> DaemonFlag(l.after[i]))
    && (!l.sync ==> l.between == [])
    && (if l.verb.Some? then l.verb.value in SERVICE_VERBS else l.tail == [])
  }

  function FlagWords(fs: seq<Flag>): seq<string> {
    if fs == [] then []
    else (match fs[0] case Split(name, v) => [name, v] case OneWord(t) => [t]) + FlagWords(fs[1..])
  }

  /** The words after the program's name. */
  function Words(l: Line): seq<string> {
    FlagWords(l.before) + ((if l.sync then ["sync"] + FlagWords(l.between) else []) + DaemonWords(l))
  }

  function DaemonWords(l: Line): seq<string> {
    ["daemon"] + (FlagWords(l.after) + (if l.verb.Some? then [l.verb.value] + l.tail else []))
  }

  /** A flag's value is the word daemon, in split form. */
  predicate Hides(fs: seq<Flag>) {
    exists i :: 0 <= i < |fs| && fs[i].Split? && fs[i].value == "daemon"
  }

  lemma SplitIsSkipped(name: string, v: string, tail: seq<string>)
    requires DaemonFlag(Split(name, v))
    ensures VerbFollows([name, v] + tail) == VerbFollows(tail)
  {
    assert ([name, v] + tail)[2..] == tail;
    assert Dashed(name) && TakesValue(name);
  }

  lemma OneWordIsSkipped(t: string, tail: seq<string>)
    requires DaemonFlag(OneWord(t))
    ensures VerbFollows([t] + tail) == VerbFollows(tail)
  {
    assert ([t] + tail)[1..] == tail;
  }

  lemma FirstFlag(fs: seq<Flag>, rest: seq<string>)
    requires fs != []
    ensures FlagWords(fs) + rest
         == (match fs[0] case Split(name, v) => [name, v] case OneWord(t) => [t]) + (FlagWords(fs[1..]) + rest)
  {
    var head := match fs[0] case Split(name, v) => [name, v] case OneWord(t) => [t];
    assert FlagWords(fs) == head + FlagWords(fs[1..]);
  }

  lemma {:induction false} FlagsAreSkipped(fs: seq<Flag>, rest: seq<string>)
    requires forall i :: 0 <= i < |fs| ==> DaemonFlag(fs[i])
    ensures VerbFollows(FlagWords(fs) + rest) == VerbFollows(rest)
  {
    if fs == [] {
      assert [] + rest == rest;
    } else {
      var tail := FlagWords(fs[1..]) + rest;
      FlagsAreSkipped(fs[1..], rest);
      FirstFlag(fs, rest);
      match fs[0]
      case Split(name, v) => SplitIsSkipped(name, v, tail);
      case OneWord(t) => OneWordIsSkipped(t, tail);
    }
  }

  lemma HidesFirst(fs: seq<Flag>)
    requires fs != []
    ensures Hides(fs) <==> (fs[0].Split? && fs[0].value == "daemon") || Hides(fs[1..])
  {
    if i :| 0 <= i < |fs| && fs[i].Split? && fs[i].value == "daemon" {
      assert i > 0 ==> fs[1..][i - 1] == fs[i];
    }
  }

  /** A split flag and its value, in front of `tail`. */
  lemma SplitStep(name: string, v: string, tail: seq<string>, afterFlag: bool)
    requires RootFlag(Split(name, v))
    ensures Classify([name, v] + tail, afterFlag)
            == if v == "daemon" then !VerbFollows(tail) else Classify(tail, if Dashed(v) then MayTakeValue(v) else false)
  {
    var words := [name, v] + tail;
    assert words[1..] == [v] + tail && ([v] + tail)[1..] == tail;
    assert Dashed(name) && MayTakeValue(name);
  }

  lemma OneWordStep(t: string, tail: seq<string>, afterFlag: bool)
    requires RootFlag(OneWord(t))
    ensures Classify([t] + tail, afterFlag) == Classify(tail, MayTakeValue(t))
  {
    assert ([t] + tail)[1..] == tail;
  }

  /** The last word reads as a flag whose value is still to come: `--name`, or one short letter. */
  predicate LeavesOpen(word: string) {
    '=' !in word && (word[..if |word| < 2 then |word| else 2] == "--" || (|word| == 2 && word[0] == '-'))
  }

  /** ... after these flags; `open` says what stood before them. */
  predicate EndsOpen(fs: seq<Flag>, open: bool) {
    if fs == [] then open
    else match fs[|fs| - 1]
      case Split(_, v) => LeavesOpen(v)
      case OneWord(t) => LeavesOpen(t)
  }

  lemma OpenIsMayTakeValue(word: string)
    ensures LeavesOpen(word) <==> Dashed(word) && MayTakeValue(word)
  {
    if |word| >= 2 {
      assert word[..2] == [word[0], word[1]];
    }
  }

  /**
   Flags in front of any words: passed over, unless one of their values is the word daemon, which
   reads as the daemon there and then.
  */
  lemma {:induction false} FlagsBefore(fs: seq<Flag>, rest: seq<string>, open: bool)
    requires forall i :: 0 <= i < |fs| ==> RootFlag(fs[i])
    ensures Classify(FlagWords(fs) + rest, open)
            == if Hides(fs) then !VerbFollows(rest) else Classify(rest, EndsOpen(fs, open))
    decreases |fs|
  {
    if fs == [] {
      assert [] + rest == rest;
    } else {
      var tail := FlagWords(fs[1..]) + rest;
      HidesFirst(fs);
      FirstFlag(fs, rest);
      match fs[0]
      case OneWord(t) =>
        OneWordStep(t, tail, open);
        OpenIsMayTakeValue(t);
        FlagsBefore(fs[1..], rest, MayTakeValue(t));
      case Split(name, v) =>
        SplitStep(name, v, tail, open);
        OpenIsMayTakeValue(v);
        FlagsAreSkipped(fs[1..], rest);
        FlagsBefore(fs[1..], rest, LeavesOpen(v));
    }
  }

  /**
   Any other subcommand: its line is classified as a daemon exactly when a flag's value before it is
   the word daemon and it is not named like a service verb, or the flag before it reads as one whose
   value it could be and the words after it classify as a daemon.
  */
  lemma OtherCommandIff(before: seq<Flag>, command: string, args: seq<string>)
    requires forall i :: 0 <= i < |before| ==> RootFlag(before[i])
    requires command !in {"", "daemon", "sync"} && command[0] != '-'
    ensures Classify(FlagWords(before) + ([command] + args), false)
            <==> if Hides(before) then command !in SERVICE_VERBS else EndsOpen(before, false) && Classify(args, false)
  {
    FlagsBefore(before, [command] + args, false);
    assert ([command] + args)[1..] == args;
  }

  /** After the daemon word, the first word that is neither a flag nor a flag's value decides. */
  lemma FirstPlainWordDecides(fs: seq<Flag>, word: string, args: seq<string>)
    requires forall i :: 0 <= i < |fs| ==> DaemonFlag(fs[i])
    requires |word| <= 1 || word[0] != '-'
    ensures Classify(["daemon"] + (FlagWords(fs) + ([word] + args)), false) <==> word !in SERVICE_VERBS
  {
    FlagsAreSkipped(fs, [word] + args);
    var words := FlagWords(fs) + ([word] + args);
    assert (["daemon"] + words)[1..] == words;
    assert |word| == 1 ==> word !in SERVICE_VERBS;
  }

  /** A line without the daemon word is never a daemon's. */
  lemma {:induction false} NoDaemonWordNoDaemon(words: seq<string>, open: bool)
    requires "daemon" !in words
    ensures !Classify(words, open)
  {
    if words != [] {
      if Dashed(words[0]) {
        NoDaemonWordNoDaemon(words[1..], MayTakeValue(words[0]));
      } else {
        NoDaemonWordNoDaemon(words[1..], false);
      }
    }
  }

  lemma DaemonPart(l: Line)
    requires InGrammar(l)
    ensures Classify(DaemonWords(l), false) <==> l.verb.None?
  {
    var end := if l.verb.Some? then [l.verb.value] + l.tail else [];
    assert DaemonWords(l)[1..] == FlagWords(l.after) + end;
    FlagsAreSkipped(l.after, end);
  }

  lemma SyncPart(between: seq<Flag>, words: seq<string>)
    requires forall i :: 0 <= i < |between| ==> RootFlag(between[i])
    requires words != [] && words[0] == "daemon"
    ensures Classify(["sync"] + FlagWords(between) + words, false) == (Hides(between) || Classify(words, false))
    ensures !VerbFollows(["sync"] + FlagWords(between) + words)
  {
    assert (["sync"] + FlagWords(between) + words)[1..] == FlagWords(between) + words;
    FlagsBefore(between, words, false);
  }

  /**
   Every command line of the grammar, of any flags and values: it is classified as a running
   daemon exactly when it has no service verb, or a value before the daemon word is itself the
   word daemon. So no running daemon is missed.
  */
  lemma ClassifiesEveryLine(l: Line)
    requires InGrammar(l)
    ensures Classify(Words(l), false) <==> l.verb.None? || Hides(l.before) || Hides(l.between)
  {
    DaemonPart(l);
    if l.sync {
      SyncPart(l.between, DaemonWords(l));
      FlagsBefore(l.before, ["sync"] + FlagWords(l.between) + DaemonWords(l), false);
    } else {
      assert [] + DaemonWords(l) == DaemonWords(l);
      FlagsBefore(l.before, DaemonWords(l), false);
    }
  }
}
