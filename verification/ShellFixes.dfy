/**
 The composed command of a doctor fix: registering the agents of a board's queued rows. The rows
 are untrusted; whatever ids they choose, the shell reads each as one word in its place.
*/
module ShellFixes {
  import opened Options
  import opened ShellQuote

  /** The command is these pieces, one blank apart. */
  predicate IsCommand(s: string, ps: seq<Piece>) { s + " " == Spaced(ps) }

  lemma Append(s: string, ps: seq<Piece>, t: string, qs: seq<Piece>)
    requires IsCommand(s, ps) && IsCommand(t, qs)
    ensures IsCommand(s + " " + t, ps + qs)
  {
    SpacedConcat(ps, qs);
    assert s + " " + t + " " == (s + " ") + (t + " ");
  }

  lemma OneCommand(p: Piece)
    ensures IsCommand(Text(p), [p])
  {
    SpacedCons(p, []);
    assert [p] + [] == [p];
    assert Text(p) + " " + "" == Text(p) + " ";
  }

  lemma {:induction false} CommentStays(out: seq<Token>, s: string)
    requires NUL !in s && '\n' !in s
    ensures Run(Lexer(out, Comment), s) == Lexer(out, Comment)
    decreases |s|
  {
    if s != "" {
      CommentStays(out, s[1..]);
    }
  }

  lemma NoteRuns(out: seq<Token>, note: string)
    requires NUL !in note && '\n' !in note
    ensures Run(Lexer(out, Blank), "  # " + note) == Lexer(out, Comment)
  {
    var l := Lexer(out, Blank);
    var text := [' '] + note;
    assert "  # " + note == [' '] + ([' '] + (['#'] + text));
    RunCons(l, ' ', [' '] + (['#'] + text));
    RunCons(l, ' ', ['#'] + text);
    RunCons(l, '#', text);
    CommentStays(out, text);
  }

  /** A note after the command does not reach the shell. */
  lemma NoteIsIgnored(s: string, ps: seq<Piece>, note: string)
    requires IsCommand(s, ps) && AllReadable(ps) && NUL !in note && '\n' !in note
    ensures Tokenise(s + "   # " + note) == Some(Meanings(ps))
  {
    var l := Lexer([], Blank);
    PiecesRead([], ps);
    assert [] + Meanings(ps) == Meanings(ps);
    NoteText(s, note);
    RunConcat(l, Spaced(ps), "  # " + note);
    NoteRuns(Meanings(ps), note);
  }

  lemma NoteText(s: string, note: string)
    ensures s + "   # " + note == s + " " + ("  # " + note)
  {
    assert "   # " == " " + "  # ";
    var a, b := " ", "  # ";
    assert s + (a + b) + note == s + a + (b + note);
  }

  // ---- Registering queued agents -------------------------------------------------------------------

  // A queued row's payload, when it decodes.
  datatype Lane = Lane(agent: string, harness: string)

  predicate Letter(c: char) { 'A' <= c <= 'Z' || 'a' <= c <= 'z' }

  predicate Digit(c: char) { '0' <= c <= '9' }

  predicate PlainId(s: string) {
    && 1 <= |s| <= 128 && (Letter(s[0]) || Digit(s[0]))
    && forall i :: 1 <= i < |s| ==> Letter(s[i]) || Digit(s[i]) || s[i] in {'.', '_', ':', '-'}
  }

  predicate PlainHarness(s: string) {
    && 1 <= |s| <= 32 && 'a' <= s[0] <= 'z'
    && forall i :: 1 <= i < |s| ==> 'a' <= s[i] <= 'z' || Digit(s[i]) || s[i] == '-'
  }

  predicate NamesHarness(l: Lane) { PlainHarness(l.harness) && l.harness != "unknown" }

  // The two expressions as ranges of code points: letters and digits, then also dashes, dots,
  // colons and underscores; a lower-case letter, then also digits and dashes.

  type Ranges = seq<(int, int)>

  const ID_FIRST: Ranges := [(48, 57), (65, 90), (97, 122)]

  const ID_REST: Ranges := [(48, 57), (65, 90), (97, 122), (45, 46), (58, 58), (95, 95)]

  const HARNESS_FIRST: Ranges := [(97, 122)]

  const HARNESS_REST: Ranges := [(97, 122), (48, 57), (45, 45)]

  predicate Within(c: char, ranges: Ranges) {
    exists k :: 0 <= k < |ranges| && ranges[k].0 <= c as int <= ranges[k].1
  }

  /** One character of the first ranges, then up to `more` of the others, and nothing else. */
  predicate Reads(s: string, first: Ranges, rest: Ranges, more: nat) {
    s != "" && |s| - 1 <= more && Within(s[0], first) && forall i :: 1 <= i < |s| ==> Within(s[i], rest)
  }

  lemma PlainIsWithin(c: char)
    ensures Letter(c) || Digit(c) <==> Within(c, ID_FIRST)
    ensures Letter(c) || Digit(c) || c in {'.', '_', ':', '-'} <==> Within(c, ID_REST)
    ensures 'a' <= c <= 'z' <==> Within(c, HARNESS_FIRST)
    ensures 'a' <= c <= 'z' || Digit(c) || c == '-' <==> Within(c, HARNESS_REST)
  {
    var n := c as int;
    assert forall r: (int, int) :: r in ID_REST ==> exists k :: 0 <= k < |ID_REST| && ID_REST[k] == r;
    assert ID_FIRST[0] == (48, 57) && ID_FIRST[1] == (65, 90) && ID_FIRST[2] == (97, 122);
    assert ID_REST[0] == (48, 57) && ID_REST[1] == (65, 90) && ID_REST[2] == (97, 122);
    assert ID_REST[3] == (45, 46) && ID_REST[4] == (58, 58) && ID_REST[5] == (95, 95);
    assert HARNESS_FIRST[0] == (97, 122);
    assert HARNESS_REST[0] == (97, 122) && HARNESS_REST[1] == (48, 57) && HARNESS_REST[2] == (45, 45);
  }

  lemma PlainIdIff(s: string)
    ensures PlainId(s) <==> Reads(s, ID_FIRST, ID_REST, 127)
  {
    forall i | 0 <= i < |s|
      ensures Letter(s[i]) || Digit(s[i]) <==> Within(s[i], ID_FIRST)
      ensures Letter(s[i]) || Digit(s[i]) || s[i] in {'.', '_', ':', '-'} <==> Within(s[i], ID_REST)
    {
      PlainIsWithin(s[i]);
    }
  }

  lemma NamesHarnessIff(l: Lane)
    ensures NamesHarness(l) <==> Reads(l.harness, HARNESS_FIRST, HARNESS_REST, 31) && l.harness != "unknown"
  {
    forall i | 0 <= i < |l.harness|
      ensures 'a' <= l.harness[i] <= 'z' <==> Within(l.harness[i], HARNESS_FIRST)
      ensures 'a' <= l.harness[i] <= 'z' || Digit(l.harness[i]) || l.harness[i] == '-' <==> Within(l.harness[i], HARNESS_REST)
    {
      PlainIsWithin(l.harness[i]);
    }
  }

  /** The plain lanes of the rows, each once, in the order they first appear. */
  function Lanes(rows: seq<Option<Lane>>): seq<Lane> {
    if rows == [] then []
    else
      var before, row := Lanes(rows[..|rows| - 1]), rows[|rows| - 1];
      if row.Some? && PlainId(row.value.agent) && row.value !in before then before + [row.value] else before
  }

  lemma {:induction false} LanesAreTheRows(rows: seq<Option<Lane>>)
    ensures forall l :: l in Lanes(rows) <==> Some(l) in rows && Reads(l.agent, ID_FIRST, ID_REST, 127)
    ensures forall i, j :: 0 <= i < j < |Lanes(rows)| ==> Lanes(rows)[i] != Lanes(rows)[j]
  {
    if rows != [] {
      LanesAreTheRows(rows[..|rows| - 1]);
      var row := rows[|rows| - 1];
      if row.Some? {
        PlainIdIff(row.value.agent);
      }
      assert rows == rows[..|rows| - 1] + [rows[|rows| - 1]];
    }
  }

  const REGISTER := [Plain("mtix"), Plain("agent"), Plain("register")]

  function HarnessPieces(l: Lane): seq<Piece> {
    if NamesHarness(l) then [Plain("--harness"), Quoted(l.harness)] else []
  }

  function LaneHead(root: string, l: Lane): seq<Piece> {
    [Plain("cd"), Quoted(root)] + [Oper("&&")] + REGISTER + [Quoted(l.agent)]
  }

  function LanePieces(root: string, l: Lane): seq<Piece> {
    LaneHead(root, l) + HarnessPieces(l)
  }

  function AllLanes(root: string, ls: seq<Lane>): seq<Piece>
    requires ls != []
  {
    if |ls| == 1 then LanePieces(root, ls[0]) else AllLanes(root, ls[..|ls| - 1]) + [Oper(";")] + LanePieces(root, ls[|ls| - 1])
  }

  /** What the shell sees for one lane, whatever its id. */
  function LaneTokens(root: string, l: Lane): seq<Token> {
    Words(["cd", root]) + [Operator("&&")] + Words(["mtix", "agent", "register"]) + Words([l.agent])
    + if NamesHarness(l) then Words(["--harness", l.harness]) else []
  }

  function AllLaneTokens(root: string, ls: seq<Lane>): seq<Token>
    requires ls != []
  {
    if |ls| == 1 then LaneTokens(root, ls[0])
    else AllLaneTokens(root, ls[..|ls| - 1]) + [Operator(";")] + LaneTokens(root, ls[|ls| - 1])
  }

  method LaneCommand(root: string, l: Lane) returns (cmd: string)
    ensures IsCommand(cmd, LanePieces(root, l))
  {
    cmd := "cd " + Quote(root) + " && mtix agent register " + Quote(l.agent);
    HeadIsCommand(root, l);
    if NamesHarness(l) {
      HarnessIsCommand(cmd, LaneHead(root, l), l);
      cmd := cmd + " --harness " + Quote(l.harness);
    } else {
      assert LaneHead(root, l) + [] == LaneHead(root, l);
    }
  }

  lemma HarnessIsCommand(head: string, ps: seq<Piece>, l: Lane)
    requires IsCommand(head, ps) && NamesHarness(l)
    ensures IsCommand(head + " --harness " + Quote(l.harness), ps + HarnessPieces(l))
  {
    TwoCommand(Plain("--harness"), Quoted(l.harness));
    var q := Quote(l.harness);
    Append(head, ps, "--harness" + " " + q, HarnessPieces(l));
    assert " --harness " == " " + "--harness" + " ";
    AroundText(head, " ", "--harness", q);
  }

  lemma AroundText(head: string, blank: string, word: string, q: string)
    ensures head + blank + (word + blank + q) == head + (blank + word + blank) + q
  {}

  lemma TwoCommand(p: Piece, q: Piece)
    ensures IsCommand(Text(p) + " " + Text(q), [p, q])
  {
    OneCommand(p);
    OneCommand(q);
    Append(Text(p), [p], Text(q), [q]);
    assert [p] + [q] == [p, q];
  }

  lemma RegisterIsCommand()
    ensures IsCommand("mtix agent register", REGISTER)
  {
    TwoCommand(Plain("mtix"), Plain("agent"));
    OneCommand(Plain("register"));
    Append("mtix" + " " + "agent", [Plain("mtix"), Plain("agent")], "register", [Plain("register")]);
    assert [Plain("mtix"), Plain("agent")] + [Plain("register")] == REGISTER;
    assert "mtix" + " " + "agent" == "mtix agent";
    assert "mtix agent" + " " + "register" == "mtix agent register";
  }

  lemma HeadIsCommand(root: string, l: Lane)
    ensures IsCommand("cd " + Quote(root) + " && mtix agent register " + Quote(l.agent), LaneHead(root, l))
  {
    var cd, and, id := [Plain("cd"), Quoted(root)], [Oper("&&")], [Quoted(l.agent)];
    TwoCommand(Plain("cd"), Quoted(root));
    OneCommand(Oper("&&"));
    RegisterIsCommand();
    OneCommand(Quoted(l.agent));
    var s := "cd" + " " + Quote(root);
    Append(s, cd, "&&", and);
    Append(s + " " + "&&", cd + and, "mtix agent register", REGISTER);
    Append(s + " " + "&&" + " " + "mtix agent register", cd + and + REGISTER, Quote(l.agent), id);
    HeadText(Quote(root), Quote(l.agent));
  }

  lemma HeadText(a: string, b: string)
    ensures "cd" + " " + a + " " + "&&" + " " + "mtix agent register" + " " + b == "cd " + a + " && mtix agent register " + b
  {
    var middle := " && mtix agent register ";
    assert "cd" + " " == "cd ";
    assert middle == " " + "&&" + " " + "mtix agent register" + " ";
    Regroup("cd" + " " + a, " ", "&&", "mtix agent register", b);
  }

  lemma Regroup(s: string, blank: string, x: string, y: string, b: string)
    ensures s + blank + x + blank + y + blank + b == s + (blank + x + blank + y + blank) + b
  {
    assert s + blank + x + blank + y + blank == s + (blank + x + blank + y + blank);
  }

  /** Lower-case letters and dashes are plain. */
  lemma LowerIsPlain(w: string)
    requires w != "" && forall i :: 0 <= i < |w| ==> 'a' <= w[i] <= 'z' || w[i] == '-'
    ensures Readable(Plain(w))
  {}

  lemma RegisterReads()
    ensures AllReadable(REGISTER) && Meanings(REGISTER) == Words(["mtix", "agent", "register"])
  {
    LowerIsPlain("mtix");
    LowerIsPlain("agent");
    LowerIsPlain("register");
  }

  lemma OneReads(p: Piece)
    requires Readable(p)
    ensures AllReadable([p]) && Meanings([p]) == [Meaning(p)]
  {}

  lemma TwoReads(p: Piece, q: Piece)
    requires Readable(p) && Readable(q)
    ensures AllReadable([p, q]) && Meanings([p, q]) == [Meaning(p), Meaning(q)]
  {}

  lemma HarnessReads(l: Lane)
    ensures AllReadable(HarnessPieces(l))
    ensures Meanings(HarnessPieces(l)) == if NamesHarness(l) then Words(["--harness", l.harness]) else []
  {
    if NamesHarness(l) {
      assert NUL !in l.harness;
      LowerIsPlain("--harness");
      TwoReads(Plain("--harness"), Quoted(l.harness));
      assert Words(["--harness", l.harness]) == [Word("--harness"), Word(l.harness)];
    }
  }

  lemma HeadReads(root: string, l: Lane)
    requires NUL !in root && PlainId(l.agent)
    ensures AllReadable(LaneHead(root, l))
    ensures Meanings(LaneHead(root, l))
         == Words(["cd", root]) + [Operator("&&")] + Words(["mtix", "agent", "register"]) + Words([l.agent])
  {
    var cd, and, id := [Plain("cd"), Quoted(root)], [Oper("&&")], [Quoted(l.agent)];
    LowerIsPlain("cd");
    TwoReads(Plain("cd"), Quoted(root));
    OneReads(Oper("&&"));
    RegisterReads();
    assert NUL !in l.agent;
    OneReads(Quoted(l.agent));
    assert Words(["cd", root]) == [Word("cd"), Word(root)] && Words([l.agent]) == [Word(l.agent)];
    ReadableConcat(cd, and);
    ReadableConcat(cd + and, REGISTER);
    ReadableConcat(cd + and + REGISTER, id);
  }

  lemma LaneReads(root: string, l: Lane)
    requires NUL !in root && PlainId(l.agent)
    ensures AllReadable(LanePieces(root, l)) && Meanings(LanePieces(root, l)) == LaneTokens(root, l)
  {
    HeadReads(root, l);
    HarnessReads(l);
    ReadableConcat(LaneHead(root, l), HarnessPieces(l));
  }

  lemma {:induction false} AllLanesRead(root: string, ls: seq<Lane>)
    requires ls != [] && NUL !in root && forall i :: 0 <= i < |ls| ==> PlainId(ls[i].agent)
    ensures AllReadable(AllLanes(root, ls)) && Meanings(AllLanes(root, ls)) == AllLaneTokens(root, ls)
  {
    var n := |ls| - 1;
    LaneReads(root, ls[n]);
    if n > 0 {
      AllLanesRead(root, ls[..n]);
      ReadableConcat(AllLanes(root, ls[..n]), [Oper(";")]);
      ReadableConcat(AllLanes(root, ls[..n]) + [Oper(";")], LanePieces(root, ls[n]));
      assert Meanings([Oper(";")]) == [Operator(";")];
    }
  }

  /**
   The register fix: one command a lane, joined by semicolons, and a note. The shell runs
   `mtix agent register` in the store's root for exactly the plain lanes, once each, in order;
   no row adds a command, an operator or a word.
  */
  method StrandedRegisterFix(root: string, rows: seq<Option<Lane>>, note: string, placeholder: string) returns (fix: string)
    requires NUL !in note && '\n' !in note
    ensures Lanes(rows) == [] ==> fix == placeholder
    ensures Lanes(rows) != [] && NUL !in root ==> Tokenise(fix) == Some(AllLaneTokens(root, Lanes(rows)))
  {
    var seen: set<Lane> := {};
    var cmds: seq<string> := [];
    for i := 0 to |rows|
      invariant Built(root, rows[..i], seen, cmds)
    {
      var row := rows[i];
      if row.None? || !PlainId(row.value.agent) || row.value in seen {
        RowIsSkipped(root, rows, i, seen, cmds);
        continue;
      }
      var cmd := LaneCommand(root, row.value);
      RowIsAdded(root, rows, i, seen, cmds, cmd);
      seen := seen + {row.value};
      cmds := cmds + [cmd];
    }
    assert rows[..|rows|] == rows;
    if |cmds| == 0 {
      return placeholder;
    }
    fix := JoinSemicolon(cmds) + "   # " + note;
    if NUL !in root {
      LanesAreTheRows(rows);
      forall i | 0 <= i < |Lanes(rows)|
        ensures PlainId(Lanes(rows)[i].agent)
      {
        PlainIdIff(Lanes(rows)[i].agent);
      }
      AllLanesRead(root, Lanes(rows));
      NoteIsIgnored(JoinSemicolon(cmds), AllLanes(root, Lanes(rows)), note);
    }
  }

  function JoinSemicolon(cmds: seq<string>): string {
    if cmds == [] then "" else if |cmds| == 1 then cmds[0] else JoinSemicolon(cmds[..|cmds| - 1]) + " ; " + cmds[|cmds| - 1]
  }

  /** What the loop has built from the first rows. */
  ghost predicate Built(root: string, rows: seq<Option<Lane>>, seen: set<Lane>, cmds: seq<string>) {
    var lanes := Lanes(rows);
    && (forall l :: l in seen <==> l in lanes)
    && (cmds == [] <==> lanes == [])
    && (lanes != [] ==> IsCommand(JoinSemicolon(cmds), AllLanes(root, lanes)))
  }

  lemma RowIsSkipped(root: string, rows: seq<Option<Lane>>, n: nat, seen: set<Lane>, cmds: seq<string>)
    requires n < |rows| && Built(root, rows[..n], seen, cmds)
    requires rows[n].None? || !PlainId(rows[n].value.agent) || rows[n].value in seen
    ensures Built(root, rows[..n + 1], seen, cmds)
  {
    assert rows[..n + 1][..n] == rows[..n];
  }

  lemma LanesNext(rows: seq<Option<Lane>>, n: nat)
    requires n < |rows| && rows[n].Some? && PlainId(rows[n].value.agent) && rows[n].value !in Lanes(rows[..n])
    ensures Lanes(rows[..n + 1]) == Lanes(rows[..n]) + [rows[n].value]
  {
    assert rows[..n + 1][..n] == rows[..n];
  }

  lemma RowIsAdded(root: string, rows: seq<Option<Lane>>, n: nat, seen: set<Lane>, cmds: seq<string>, cmd: string)
    requires n < |rows| && Built(root, rows[..n], seen, cmds)
    requires rows[n].Some? && PlainId(rows[n].value.agent) && rows[n].value !in seen
    requires IsCommand(cmd, LanePieces(root, rows[n].value))
    ensures Built(root, rows[..n + 1], seen + {rows[n].value}, cmds + [cmd])
  {
    var lanes, l := Lanes(rows[..n]), rows[n].value;
    LanesNext(rows, n);
    NextCommand(root, lanes, l, cmds, cmd);
    assert forall x :: x in lanes + [l] <==> x in lanes || x == l;
  }

  lemma NextCommand(root: string, ls: seq<Lane>, l: Lane, cmds: seq<string>, cmd: string)
    requires cmds == [] <==> ls == []
    requires ls != [] ==> IsCommand(JoinSemicolon(cmds), AllLanes(root, ls))
    requires IsCommand(cmd, LanePieces(root, l))
    ensures IsCommand(JoinSemicolon(cmds + [cmd]), AllLanes(root, ls + [l]))
  {
    assert (cmds + [cmd])[..|cmds|] == cmds && (ls + [l])[..|ls|] == ls;
    if ls != [] {
      var joined := JoinSemicolon(cmds);
      OneCommand(Oper(";"));
      Append(joined, AllLanes(root, ls), ";", [Oper(";")]);
      Append(joined + " " + ";", AllLanes(root, ls) + [Oper(";")], cmd, LanePieces(root, l));
      assert joined + " ; " + cmd == joined + " " + ";" + " " + cmd;
    }
  }
}
