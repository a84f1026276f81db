/**
 The service units that the daemon's install writes, and the scan that reads the project
 directory back out of them.
*/
module UnitFiles {
  import opened Options
  import opened Patterns

  // ---- The writer ------------------------------------------------------------------------------

  function Decimal(n: nat): (s: string)
    ensures s != "" && forall i :: 0 <= i < |s| ==> Is(Digit, s[i])
  {
    (if n < 10 then "" else Decimal(n / 10)) + ["0123456789"[n % 10]]
  }

  /** The number a string of digits reads as. */
  function Value(s: string): nat {
    if s == "" then 0
    else 10 * Value(s[..|s| - 1]) + (if '0' <= s[|s| - 1] <= '9' then s[|s| - 1] as int - '0' as int else 0)
  }

  lemma DigitReads(d: nat)
    requires d < 10
    ensures '0' <= "0123456789"[d] <= '9' && "0123456789"[d] as int - '0' as int == d
    ensures d > 0 ==> "0123456789"[d] != '0'
  {}

  lemma ValueNext(front: string, last: char)
    requires '0' <= last <= '9'
    ensures Value(front + [last]) == 10 * Value(front) + (last as int - '0' as int)
  {
    assert (front + [last])[..|front|] == front;
  }

  lemma {:induction false} DecimalReadsBack(n: nat)
    ensures Value(Decimal(n)) == n && (n > 0 ==> Decimal(n)[0] != '0')
  {
    var last := "0123456789"[n % 10];
    var front := if n < 10 then "" else Decimal(n / 10);
    assert Decimal(n) == front + [last];
    DigitReads(n % 10);
    ValueNext(front, last);
    if n >= 10 {
      DecimalReadsBack(n / 10);
    }
  }

  function IntText(n: int): string { if n < 0 then "-" + Decimal(-n) else Decimal(n) }

  function Joined(parts: seq<string>): string {
    if parts == [] then "" else parts[0] + Joined(parts[1..])
  }

  // The property list up to the flag that names the project, cut into short pieces.
  function PlistHead(name: string, exe: string): seq<string> {
    XmlDecl() + Doctype() + DtdUrl() + PlistOpen() + PlistName(name) + PlistExe(exe)
  }

  function XmlDecl(): seq<string> {
    ["<?xml version=\"1.0\" ", "encoding=\"UTF-8\"?>\n"]
  }

  function PlistOpen(): seq<string> {
    ["<plist version=\"1.0\">\n", "<dict>\n    "]
  }

  function Doctype(): seq<string> {
    ["<!DOCTYPE plist PUBLIC ", "\"-//Apple//DTD ", "PLIST 1.0//EN\" "]
  }

  function DtdUrl(): seq<string> {
    ["\"http://www.apple.com", "/DTDs/PropertyList", "-1.0.dtd\">\n"]
  }

  function PlistName(name: string): seq<string> {
    ["<key>Label", "</key>", "<string>" + name, "</string>\n    "]
  }

  function PlistExe(exe: string): seq<string> {
    ["<key>ProgramArguments", "</key>\n    ", "<array>\n        ", "<string>" + exe, "</string>\n        "]
  }

  // `tail` is the rest of the list, from the end of that directory's string on.
  function PlistText(name: string, exe: string, root: string, tail: string): string {
    Plist(PlistHead(name, exe), root, tail)
  }

  function Plist(head: seq<string>, root: string, tail: string): string {
    Joined(head) + FlagAnd(root, tail)
  }

  function FlagAnd(root: string, tail: string): string {
    "<string>-C</string>" + ("\n        " + ("<string>" + (root + ("</string>" + tail))))
  }

  const EXEC := "ExecStart="

  const INTERVAL := " daemon --interval "

  function Lines(lines: seq<string>): string {
    if lines == [] then "" else lines[0] + ("\n" + Lines(lines[1..]))
  }

  function SystemdHead(root: string): seq<string> {
    ["[Unit]", "Description=mtix event dispatcher daemon (" + root + ")", "", "[Service]"]
  }

  function SystemdEnd(): seq<string> {
    ["Restart=always", "RestartSec=2", "", "[Install]", "WantedBy=default.target"]
  }

  // The command line, and what follows it.
  function ExecLine(exe: string, root: string, interval: string, rest: string): string {
    EXEC + (exe + (" -C " + (root + Tail(interval, rest))))
  }

  function Tail(interval: string, rest: string): string {
    INTERVAL + (interval + ("\n" + rest))
  }

  function SystemdText(exe: string, root: string, interval: int): string {
    Lines(SystemdHead(root)) + ExecLine(exe, root, IntText(interval), Lines(SystemdEnd()))
  }

  // ---- The reader ------------------------------------------------------------------------------

  const LIMIT := 0x10000

  const PLIST_FLAG := "<string>-C</string>"

  const PLIST: seq<Item> := [Lit(PLIST_FLAG), Many(Space, 0, false), Lit("<string>"), Many(NotLt, 1, true), Lit("</string>")]

  const FROM_FLAG: seq<Item> := [Lit(" -C "), Many(NotNewline, 1, true), Lit(INTERVAL), Many(Digit, 1, false), LineEnd]

  const SYSTEMD: seq<Item> := [LineStart, Lit(EXEC), Many(NotNewline, 0, false)] + FROM_FLAG

  function FirstCapture(re: seq<Item>, s: string): Option<string> {
    var m := Find(re, s, true);
    if m.Some? && m.value != [] then Some(m.value[0]) else None
  }

  function ReadPart(content: string): string {
    if |content| <= LIMIT then content else content[..LIMIT]
  }

  /** The directory a unit's text names: by the first pattern, else by the second, else none. */
  function UnitRoot(content: string): string {
    FirstOf(FirstCapture(PLIST, ReadPart(content)), FirstCapture(SYSTEMD, ReadPart(content)))
  }

  function FirstOf(plist: Option<string>, systemd: Option<string>): string {
    if plist.Some? then plist.value else if systemd.Some? then systemd.value else ""
  }

  method UnitProjectRoot(content: string) returns (root: string)
    ensures root == UnitRoot(content)
    ensures |content| > 0x10000 ==> root == UnitRoot(content[..0x10000])
  {
    var buf := ReadPart(content);
    var patterns := [PLIST, SYSTEMD];
    for i := 0 to |patterns|
      invariant forall j :: 0 <= j < i ==> FirstCapture(patterns[j], buf).None?
    {
      var m := FirstCapture(patterns[i], buf);
      if m.Some? {
        assert i == 1 ==> FirstCapture(patterns[0], buf).None?;
        return m.value;
      }
    }
    assert FirstCapture(patterns[0], buf).None? && FirstCapture(patterns[1], buf).None?;
    root := "";
  }

  // ---- launchd ---------------------------------------------------------------------------------

  /** A piece that has no bracket but perhaps its first, and differs from the flag at `j`. */
  predicate Differs(piece: string, j: nat) {
    && j < |piece| && j < |PLIST_FLAG| && piece[j] != PLIST_FLAG[j]
    && forall i :: 1 <= i < |piece| ==> piece[i] != '<'
  }

  lemma PieceIsSkipped(piece: string, j: nat, rest: string, bol: bool)
    requires Differs(piece, j)
    ensures Find(PLIST, piece + rest, bol) == Find(PLIST, rest, Bol(piece, |piece|, bol))
  {
    forall i | 0 <= i < |piece|
      ensures Match(PLIST, (piece + rest)[i..], Bol(piece, i, bol)).None?
    {
      var s := (piece + rest)[i..];
      if i == 0 {
        assert s[j] == piece[j];
        LitNeeds(PLIST, s, Bol(piece, i, bol), j);
      } else {
        assert s[0] == piece[i];
        LitNeeds(PLIST, s, Bol(piece, i, bol), 0);
      }
    }
    FindSkips(PLIST, piece, rest, bol);
  }

  ghost predicate AllDiffer(pieces: seq<string>, js: seq<nat>) {
    |pieces| == |js| && forall i :: 0 <= i < |pieces| ==> Differs(pieces[i], js[i])
  }

  lemma {:induction false} PiecesAreSkipped(pieces: seq<string>, js: seq<nat>, rest: string, bol: bool) returns (end: bool)
    requires AllDiffer(pieces, js)
    ensures Find(PLIST, Joined(pieces) + rest, bol) == Find(PLIST, rest, end)
    decreases |pieces|
  {
    if pieces == [] {
      assert "" + rest == rest;
      end := bol;
    } else {
      var tail := Joined(pieces[1..]) + rest;
      assert Joined(pieces) + rest == pieces[0] + tail;
      PieceIsSkipped(pieces[0], js[0], tail, bol);
      end := PiecesAreSkipped(pieces[1..], js[1..], rest, Bol(pieces[0], |pieces[0]|, bol));
    }
  }

  lemma StringDiffers(value: string)
    requires value != "" && value[0] != '-' && '<' !in value
    ensures Differs("<string>" + value, 8)
  {
    var open := "<string>";
    forall i | 1 <= i < |open + value|
      ensures (open + value)[i] != '<'
    {
      if i >= |open| {
        assert (open + value)[i] == value[i - |open|];
      }
    }
    assert (open + value)[8] == value[0];
  }

  lemma DeclDiffers()
    ensures AllDiffer(XmlDecl(), [1, 0]) && AllDiffer(PlistOpen(), [1, 1])
  {}

  lemma DoctypeDiffers()
    ensures AllDiffer(Doctype(), [1, 0, 0])
  {}

  lemma UrlDiffers()
    ensures AllDiffer(DtdUrl(), [0, 0, 0])
  {}

  lemma NameDiffers(name: string)
    requires name != "" && name[0] != '-' && '<' !in name
    ensures AllDiffer(PlistName(name), [1, 1, 8, 1])
  {
    StringDiffers(name);
  }

  lemma ExeDiffers(exe: string)
    requires exe != "" && exe[0] != '-' && '<' !in exe
    ensures AllDiffer(PlistExe(exe), [1, 1, 1, 8, 1])
  {
    StringDiffers(exe);
  }

  lemma HeadDiffers(name: string, exe: string) returns (js: seq<nat>)
    requires name != "" && name[0] != '-' && '<' !in name && exe != "" && exe[0] != '-' && '<' !in exe
    ensures AllDiffer(PlistHead(name, exe), js)
  {
    DeclDiffers();
    DoctypeDiffers();
    UrlDiffers();
    NameDiffers(name);
    ExeDiffers(exe);
    js := [1, 0] + [1, 0, 0] + [0, 0, 0] + [1, 1] + [1, 1, 8, 1] + [1, 1, 1, 8, 1];
  }

  const FROM_STRING: seq<Item> := [Lit("<string>"), Many(NotLt, 1, true), Lit("</string>")]

  /** From the next string on, the pattern captures it. */
  lemma StringMatches(root: string, tail: string, bol: bool)
    requires root != "" && '<' !in root
    ensures Match(FROM_STRING, "<string>" + (root + ("</string>" + tail)), bol) == Some([root])
  {
    var re3, re4 := FROM_STRING[1..], FROM_STRING[1..][1..];
    var s4 := "</string>" + tail;
    var s3 := root + s4;
    LitStep(FROM_STRING, "<string>", s3, bol);
    RunIs(NotLt, root, s4);
    assert s3[..|root|] == root && s3[|root|..] == s4;
    LitStep(re4, "</string>", tail, Bol(s3, |root|, false));
    assert [root] + [] == [root];
    TakesLongest(re3, s3, false, |root|, |root|);
  }

  /** ... and from the flag on, across any blanks, or none. */
  lemma BlanksAreCrossed(ws: string, root: string, tail: string, bol: bool)
    requires forall c :: c in ws ==> c in {' ', '\t', '\n', '\r', '\U{000C}'}
    requires root != "" && '<' !in root
    ensures Match(PLIST, PLIST_FLAG + (ws + ("<string>" + (root + ("</string>" + tail)))), bol) == Some([root])
  {
    var re1 := PLIST[1..];
    var s2 := "<string>" + (root + ("</string>" + tail));
    assert re1[1..] == FROM_STRING;
    LitStep(PLIST, PLIST_FLAG, ws + s2, bol);
    forall i | 0 <= i < |ws|
      ensures Is(Space, ws[i])
    {
      assert ws[i] in ws;
    }
    RunIs(Space, ws, s2);
    assert (ws + s2)[..|ws|] == ws && (ws + s2)[|ws|..] == s2;
    StringMatches(root, tail, Bol(ws + s2, |ws|, Bol(PLIST_FLAG, |PLIST_FLAG|, bol)));
    TakesLongest(re1, ws + s2, Bol(PLIST_FLAG, |PLIST_FLAG|, bol), |ws|, |ws|);
    assert [] + [root] == [root];
  }

  lemma PlistMatches(root: string, tail: string, bol: bool)
    requires root != "" && '<' !in root
    ensures Match(PLIST, FlagAnd(root, tail), bol) == Some([root])
  {
    BlanksAreCrossed("\n        ", root, tail, bol);
  }

  lemma FoundHere(re: seq<Item>, s: string, bol: bool)
    requires Match(re, s, bol).Some?
    ensures Find(re, s, bol) == Match(re, s, bol)
  {}

  lemma FlagIsFound(pieces: seq<string>, js: seq<nat>, root: string, tail: string)
    requires AllDiffer(pieces, js) && root != "" && '<' !in root
    ensures Find(PLIST, Joined(pieces) + FlagAnd(root, tail), true) == Some([root])
  {
    var end := PiecesAreSkipped(pieces, js, FlagAnd(root, tail), true);
    PlistMatches(root, tail, end);
    FoundHere(PLIST, FlagAnd(root, tail), end);
  }

  lemma PlistCapturesOne()
    ensures CapturesOne(PLIST, NotLt)
  {
    OneGroup(PLIST, 3);
  }

  lemma SystemdCapturesOne()
    ensures CapturesOne(SYSTEMD, NotNewline)
  {
    OneGroup(SYSTEMD, 4);
  }

  /**
   launchd: the plist pattern recovers the project directory exactly when it has no bracket,
   whatever else is in it and whatever follows it; and then it is what the reader answers.
  */
  lemma PlistRoundTripIff(name: string, exe: string, root: string, tail: string)
    requires name != "" && name[0] != '-' && '<' !in name && exe != "" && exe[0] != '-' && '<' !in exe
    requires root != "" && |PlistText(name, exe, root, tail)| <= 0x10000
    ensures FirstCapture(PLIST, PlistText(name, exe, root, tail)) == Some(root) <==> '<' !in root
    ensures '<' !in root ==> UnitRoot(PlistText(name, exe, root, tail)) == root
  {
    if '<' !in root {
      var js := HeadDiffers(name, exe);
      ReadByPlist(PlistHead(name, exe), js, root, tail);
    } else {
      PlistCapturesOne();
      FoundIsOf(PLIST, PlistText(name, exe, root, tail), true, NotLt);
    }
  }

  lemma ReadByPlist(head: seq<string>, js: seq<nat>, root: string, tail: string)
    requires AllDiffer(head, js) && root != "" && '<' !in root && |Plist(head, root, tail)| <= 0x10000
    ensures FirstCapture(PLIST, Plist(head, root, tail)) == Some(root) && UnitRoot(Plist(head, root, tail)) == root
  {
    FlagIsFound(head, js, root, tail);
  }

  // ---- systemd ---------------------------------------------------------------------------------

  const FROM_INTERVAL: seq<Item> := [Lit(INTERVAL), Many(Digit, 1, false), LineEnd]

  const FROM_ROOT: seq<Item> := [Many(NotNewline, 1, true)] + FROM_INTERVAL

  /** A line at which the pattern does not match is passed over, with its newline. */
  lemma LineIsSkipped(line: string, rest: string)
    requires '\n' !in line && Match(SYSTEMD, line + ("\n" + rest), true).None?
    ensures Find(SYSTEMD, line + ("\n" + rest), true) == Find(SYSTEMD, rest, true)
  {
    var a := line + "\n";
    assert a + rest == line + ("\n" + rest);
    forall i | 0 <= i < |a|
      ensures Match(SYSTEMD, (a + rest)[i..], Bol(a, i, true)).None?
    {
      if i == 0 {
        assert (a + rest)[0..] == a + rest;
      } else {
        assert a[i - 1] == line[i - 1];
      }
    }
    FindSkips(SYSTEMD, a, rest, true);
    assert a[|a| - 1] == '\n';
  }

  lemma OtherLineIsSkipped(line: string, rest: string)
    requires '\n' !in line && (line == "" || line[0] != 'E')
    ensures Find(SYSTEMD, line + ("\n" + rest), true) == Find(SYSTEMD, rest, true)
  {
    var s := line + ("\n" + rest);
    assert s[0] == if line == "" then '\n' else line[0];
    assert SYSTEMD[1..][0] == Lit(EXEC) && EXEC[0] == 'E';
    LitNeeds(SYSTEMD[1..], s, true, 0);
    LineIsSkipped(line, rest);
  }

  predicate Digits(s: string) {
    s != "" && forall i :: 0 <= i < |s| ==> Is(Digit, s[i])
  }

  predicate BeginsSomething(s: string) { StartsWith(s, INTERVAL) || StartsWith(s, " -C ") }

  lemma NoBlankBeginsNothing(s: string)
    requires s == "" || s[0] != ' '
    ensures !BeginsSomething(s)
  {
    StartsWithAt(s, INTERVAL, 0);
    StartsWithAt(s, " -C ", 0);
  }

  lemma BlankBeginsNothing(s: string, next: char)
    requires |s| > 2 && s[1] == next && (Is(Digit, next) || (next == '-' && s[2] == '-'))
    ensures !BeginsSomething(s)
  {
    StartsWithAt(s, INTERVAL, 1);
    StartsWithAt(s, " -C ", 1);
    StartsWithAt(s, " -C ", 2);
  }

  lemma IntervalShape(t: nat)
    requires 1 <= t < |INTERVAL|
    ensures |INTERVAL| == 19 && INTERVAL[8] == '-' && INTERVAL[9] == '-'
    ensures INTERVAL[t] == ' ' ==> t == 7 || t == 18
  {}

  lemma NothingBeginsInInterval(digits: string, rest: string, t: nat)
    requires Digits(digits) && 1 <= t < |INTERVAL|
    ensures !BeginsSomething(Tail(digits, rest)[t..])
  {
    var tail := Tail(digits, rest);
    var s := tail[t..];
    IntervalShape(t);
    assert s[0] == INTERVAL[t];
    if t == 7 {
      assert s[1] == tail[8] == INTERVAL[8] && s[2] == tail[9] == INTERVAL[9];
      BlankBeginsNothing(s, '-');
    } else if t == 18 {
      assert s[1] == tail[19] == digits[0];
      BlankBeginsNothing(s, digits[0]);
    } else {
      NoBlankBeginsNothing(s);
    }
  }

  lemma NothingBeginsInDigits(digits: string, rest: string, t: nat)
    requires Digits(digits) && |INTERVAL| <= t <= |INTERVAL| + |digits|
    ensures !BeginsSomething(Tail(digits, rest)[t..])
  {
    var line := digits + ("\n" + rest);
    var i := t - |INTERVAL|;
    assert Tail(digits, rest)[t..][0] == line[i];
    assert line[i] == if i < |digits| then digits[i] else '\n';
    NoBlankBeginsNothing(Tail(digits, rest)[t..]);
  }

  /** After the tail's first blank, neither the flag nor another interval begins on its line. */
  lemma NothingBeginsInTail(digits: string, rest: string, t: nat)
    requires Digits(digits) && 1 <= t <= |INTERVAL| + |digits|
    ensures !StartsWith(Tail(digits, rest)[t..], INTERVAL) && !StartsWith(Tail(digits, rest)[t..], " -C ")
  {
    if t < |INTERVAL| {
      NothingBeginsInInterval(digits, rest, t);
    } else {
      NothingBeginsInDigits(digits, rest, t);
    }
  }

  lemma IntervalMatches(digits: string, rest: string, bol: bool)
    requires Digits(digits)
    ensures Match(FROM_INTERVAL, Tail(digits, rest), bol) == Some([])
  {
    var s := digits + ("\n" + rest);
    LitStep(FROM_INTERVAL, INTERVAL, s, bol);
    RunIs(Digit, digits, "\n" + rest);
    assert s[|digits|..] == "\n" + rest;
    var re := FROM_INTERVAL[1..];
    assert Match(re[1..], s[|digits|..], Bol(s, |digits|, false)) == Some([]) by {
      assert re[1..] == [LineEnd] && [LineEnd][1..] == [];
    }
    TakesLongest(re, s, false, |digits|, |digits|);
    var none: seq<string> := [];
    assert none + none == none;
  }

  lemma RunOfLine(line: string, rest: string)
    requires '\n' !in line
    ensures RunOf(NotNewline, line + ("\n" + rest)) == |line|
  {
    RunIs(NotNewline, line, "\n" + rest);
  }

  lemma Regroup(a: string, b: string, c: string, d: string)
    ensures a + (b + (c + d)) == a + b + c + d
  {}

  lemma IntervalIsOneLine()
    ensures '\n' !in INTERVAL
  {}

  lemma TailIsALine(before: string, digits: string, rest: string)
    requires '\n' !in before && Digits(digits)
    ensures RunOf(NotNewline, before + Tail(digits, rest)) == |before| + |INTERVAL| + |digits|
  {
    var line := before + INTERVAL + digits;
    IntervalIsOneLine();
    forall c | c in line
      ensures c != '\n'
    {
      assert c in before || c in INTERVAL || c in digits;
    }
    Regroup(before, INTERVAL, digits, "\n" + rest);
    RunOfLine(line, rest);
  }

  /** After the root's end no second interval begins on the line. */
  lemma NoLaterInterval(root: string, digits: string, rest: string)
    requires Digits(digits)
    ensures forall j, bol :: |root| < j <= |root| + |INTERVAL| + |digits| ==>
              Match(FROM_INTERVAL, (root + Tail(digits, rest))[j..], bol).None?
  {
    forall j, bol: bool | |root| < j <= |root| + |INTERVAL| + |digits|
      ensures Match(FROM_INTERVAL, (root + Tail(digits, rest))[j..], bol).None?
    {
      assert (root + Tail(digits, rest))[j..] == Tail(digits, rest)[j - |root|..];
      NothingBeginsInTail(digits, rest, j - |root|);
    }
  }

  /** After the flag, the longest text an interval can follow is the root itself. */
  lemma RootMatches(root: string, digits: string, rest: string, bol: bool)
    requires root != "" && '\n' !in root && Digits(digits)
    ensures Match(FROM_ROOT, root + Tail(digits, rest), bol) == Some([root])
  {
    var tail := Tail(digits, rest);
    TailIsALine(root, digits, rest);
    assert FROM_ROOT[1..] == FROM_INTERVAL;
    NoLaterInterval(root, digits, rest);
    IntervalMatches(digits, rest, Bol(root + tail, |root|, bol));
    ManyThen(FROM_ROOT, root, tail, bol, |root| + |INTERVAL| + |digits|, []);
    assert [root] + [] == [root];
  }

  // The flag as the writer puts it, and the places where its text stands once more.

  function Flagged(root: string): string { " -C " + root }

  /** The flag's text stands at `q`, with more of the directory behind it. */
  predicate FlagAt(root: string, q: nat) {
    q + 4 < |Flagged(root)| && StartsWith(Flagged(root)[q..], " -C ")
  }

  predicate InnerFlag(root: string) { exists q :: 0 < q < |root| && FlagAt(root, q) }

  ghost predicate LastFlag(root: string, q: nat) {
    FlagAt(root, q) && forall p :: q < p < |root| ==> !FlagAt(root, p)
  }

  lemma {:induction false} FindLastFlag(root: string, q: nat) returns (last: nat)
    requires FlagAt(root, q)
    ensures q <= last && LastFlag(root, last)
    decreases |root| - q
  {
    last := q;
    if p :| q < p < |root| && FlagAt(root, p) {
      last := FindLastFlag(root, p);
    }
  }

  lemma InsideIsNoFlag(root: string, tail: string, q: nat)
    requires q + 4 < |Flagged(root)| && !FlagAt(root, q)
    ensures !StartsWith((Flagged(root) + tail)[q..], " -C ")
  {
    assert (Flagged(root) + tail)[q..][..4] == Flagged(root)[q..][..4];
  }

  /** The directory's end may begin the flag's text, but no interval follows there. */
  lemma NoFlagAcross(root: string, digits: string, rest: string, q: nat, bol: bool)
    requires Digits(digits) && q < |Flagged(root)| <= q + 4
    ensures Match(FROM_FLAG, (Flagged(root) + Tail(digits, rest))[q..], bol).None?
  {
    var tail, n := Tail(digits, rest), |Flagged(root)|;
    var x := (Flagged(root) + tail)[q..];
    assert tail[0] == ' ' == x[n - q] by {
      assert x[n - q] == (Flagged(root) + tail)[n];
    }
    StartsWithAt(x, " -C ", 1);
    StartsWithAt(x, " -C ", 2);
    if StartsWith(x, " -C ") {
      assert FROM_FLAG[1..] == FROM_ROOT;
      assert x[4..] == tail[q + 4 - n..];
      NoRootInTail(digits, rest, q + 4 - n, Bol(x, 4, bol));
    }
  }

  lemma NoFlagInTail(digits: string, rest: string, t: nat, bol: bool)
    requires Digits(digits) && t <= |INTERVAL| + |digits|
    ensures Match(FROM_FLAG, Tail(digits, rest)[t..], bol).None?
  {
    var x := Tail(digits, rest)[t..];
    if t == 0 {
      StartsWithAt(x, " -C ", 1);
      assert x[1] == INTERVAL[1];
    } else {
      NothingBeginsInTail(digits, rest, t);
    }
    LitFails(FROM_FLAG, x, bol);
  }

  /** After the flag's last place it cannot be found once more on the line. */
  lemma NoLaterFlag(root: string, last: nat, digits: string, rest: string, q: nat, bol: bool)
    requires LastFlag(root, last) && Digits(digits)
    requires last < q <= |Flagged(root)| + |INTERVAL| + |digits|
    ensures Match(FROM_FLAG, (Flagged(root) + Tail(digits, rest))[q..], bol).None?
  {
    if q + 4 < |Flagged(root)| {
      InsideIsNoFlag(root, Tail(digits, rest), q);
      LitFails(FROM_FLAG, (Flagged(root) + Tail(digits, rest))[q..], bol);
    } else if q < |Flagged(root)| {
      NoFlagAcross(root, digits, rest, q, bol);
    } else {
      var t := q - |Flagged(root)|;
      assert (Flagged(root) + Tail(digits, rest))[q..] == Tail(digits, rest)[t..];
      NoFlagInTail(digits, rest, t, bol);
    }
  }

  /** Nothing at the front of the tail is followed by an interval. */
  lemma NoRootInTail(digits: string, rest: string, t: nat, bol: bool)
    requires Digits(digits) && t <= 1
    ensures Match(FROM_ROOT, Tail(digits, rest)[t..], bol).None?
  {
    var tail := Tail(digits, rest);
    TailIsALine("", digits, rest);
    assert "" + tail == tail && tail[0..] == tail;
    RunOfRest(NotNewline, tail);
    NoIntervalInTail(digits, rest, t);
    assert FROM_ROOT[1..] == FROM_INTERVAL;
    ManyFails(FROM_ROOT, tail[t..], bol);
  }

  lemma NoIntervalInTail(digits: string, rest: string, t: nat)
    requires Digits(digits) && t <= 1
    ensures forall j, bol :: 1 <= j <= |INTERVAL| + |digits| - t ==> Match(FROM_INTERVAL, Tail(digits, rest)[t..][j..], bol).None?
  {
    var tail := Tail(digits, rest);
    forall j, bol: bool | 1 <= j <= |INTERVAL| + |digits| - t
      ensures Match(FROM_INTERVAL, tail[t..][j..], bol).None?
    {
      assert tail[t..][j..] == tail[t + j..];
      NothingBeginsInTail(digits, rest, t + j);
      LitFails(FROM_INTERVAL, tail[t..][j..], bol);
    }
  }

  lemma LitFails(re: seq<Item>, s: string, bol: bool)
    requires re != [] && re[0].Lit? && !StartsWith(s, re[0].text)
    ensures Match(re, s, bol).None?
  {}

  lemma RunOfRest(k: Class, s: string)
    requires s != "" && Is(k, s[0])
    ensures RunOf(k, s) == 1 + RunOf(k, s[1..])
  {}

  /** From one of its places on, the flag captures the rest of the directory. */
  lemma FlagMatches(root: string, q: nat, digits: string, rest: string, bol: bool)
    requires FlagAt(root, q) && '\n' !in root && Digits(digits)
    ensures Match(FROM_FLAG, Flagged(root)[q..] + Tail(digits, rest), bol) == Some([Flagged(root)[q + 4..]])
  {
    var left := Flagged(root)[q + 4..];
    forall c | c in left
      ensures c in root
    {
      var i :| 0 <= i < |left| && left[i] == c;
      assert c == root[q + i];
    }
    assert Flagged(root)[q..] == " -C " + left;
    Push(" -C ", left, Tail(digits, rest));
    LitStep(FROM_FLAG, " -C ", left + Tail(digits, rest), bol);
    assert FROM_FLAG[1..] == FROM_ROOT;
    RootMatches(left, digits, rest, Bol(" -C ", 4, bol));
  }

  const FROM_ARGS: seq<Item> := [Many(NotNewline, 0, false)] + FROM_FLAG

  /** After the program, the greedy pattern stops at the last place of the flag. */
  lemma ArgsMatch(exe: string, root: string, last: nat, digits: string, rest: string, bol: bool)
    requires '\n' !in exe && '\n' !in root && Digits(digits) && LastFlag(root, last)
    ensures Match(FROM_ARGS, exe + (Flagged(root) + Tail(digits, rest)), bol) == Some([Flagged(root)[last + 4..]])
  {
    var before, flag := exe + Flagged(root)[..last], Flagged(root)[last..] + Tail(digits, rest);
    CutAtFlag(exe, root, last, Tail(digits, rest));
    assert FROM_ARGS[1..] == FROM_FLAG;
    var n := ArgsLine(exe, root, digits, rest);
    NoFlagAfter(exe, root, last, digits, rest, n);
    FlagMatches(root, last, digits, rest, Bol(before + flag, |before|, bol));
    ManyThen(FROM_ARGS, before, flag, bol, n, [Flagged(root)[last + 4..]]);
    assert forall found: seq<string> :: [] + found == found;
  }

  lemma CutAtFlag(exe: string, root: string, q: nat, tail: string)
    requires q <= |Flagged(root)|
    ensures exe + (Flagged(root) + tail) == (exe + Flagged(root)[..q]) + (Flagged(root)[q..] + tail)
  {}

  lemma DropFront(a: string, b: string, j: nat)
    requires |a| <= j <= |a| + |b|
    ensures (a + b)[j..] == b[j - |a|..]
  {}

  lemma NoFlagAt(exe: string, root: string, last: nat, digits: string, rest: string, j: nat, bol: bool)
    requires LastFlag(root, last) && Digits(digits)
    requires |exe| + last < j <= |exe| + |Flagged(root)| + |INTERVAL| + |digits|
    ensures Match(FROM_FLAG, (exe + (Flagged(root) + Tail(digits, rest)))[j..], bol).None?
  {
    DropFront(exe, Flagged(root) + Tail(digits, rest), j);
    NoLaterFlag(root, last, digits, rest, j - |exe|, bol);
  }

  lemma NoFlagAfter(exe: string, root: string, last: nat, digits: string, rest: string, n: nat)
    requires LastFlag(root, last) && Digits(digits) && n == |exe| + |Flagged(root)| + |INTERVAL| + |digits|
    ensures forall j, bol :: |exe| + last < j <= n ==>
              Match(FROM_FLAG, (exe + (Flagged(root) + Tail(digits, rest)))[j..], bol).None?
  {
    forall j, bol: bool | |exe| + last < j <= n
      ensures Match(FROM_FLAG, (exe + (Flagged(root) + Tail(digits, rest)))[j..], bol).None?
    {
      NoFlagAt(exe, root, last, digits, rest, j, bol);
    }
  }

  lemma ArgsLine(exe: string, root: string, digits: string, rest: string) returns (n: nat)
    requires '\n' !in exe && '\n' !in root && Digits(digits)
    ensures n == |exe| + |Flagged(root)| + |INTERVAL| + |digits|
    ensures n == RunOf(NotNewline, exe + (Flagged(root) + Tail(digits, rest)))
  {
    var before := exe + Flagged(root);
    forall c | c in before
      ensures c != '\n'
    {
      assert c in exe || c in " -C " || c in root;
    }
    Push(exe, Flagged(root), Tail(digits, rest));
    TailIsALine(before, digits, rest);
    n := |before| + |INTERVAL| + |digits|;
  }

  /** On the unit's command line the pattern captures the directory from the flag's last place on. */
  lemma ExecMatches(exe: string, root: string, last: nat, digits: string, rest: string)
    requires '\n' !in exe && '\n' !in root && Digits(digits) && LastFlag(root, last)
    ensures Match(SYSTEMD, ExecLine(exe, root, digits, rest), true) == Some([Flagged(root)[last + 4..]])
  {
    assert SYSTEMD[1..][0] == Lit(EXEC) && SYSTEMD[1..][1..] == FROM_ARGS;
    Push(" -C ", root, Tail(digits, rest));
    LitStep(SYSTEMD[1..], EXEC, exe + (Flagged(root) + Tail(digits, rest)), true);
    ArgsMatch(exe, root, last, digits, rest, Bol(EXEC, |EXEC|, true));
  }

  // ---- The whole unit ---------------------------------------------------------------------------

  predicate PlainLine(line: string) { '\n' !in line && (line == "" || line[0] != 'E') }

  lemma OneLine(line: string, lines: string, rest: string)
    ensures (line + ("\n" + lines)) + rest == line + ("\n" + (lines + rest))
  {}

  lemma {:induction false} LinesAreSkipped(lines: seq<string>, rest: string)
    requires forall i :: 0 <= i < |lines| ==> PlainLine(lines[i])
    ensures Find(SYSTEMD, Lines(lines) + rest, true) == Find(SYSTEMD, rest, true)
  {
    if lines == [] {
      assert "" + rest == rest;
    } else {
      OneLine(lines[0], Lines(lines[1..]), rest);
      OtherLineIsSkipped(lines[0], Lines(lines[1..]) + rest);
      LinesAreSkipped(lines[1..], rest);
    }
  }

  lemma HeadIsPlain(root: string)
    requires '\n' !in root
    ensures forall i :: 0 <= i < |SystemdHead(root)| ==> PlainLine(SystemdHead(root)[i])
  {
    DescriptionIsPlain(root);
  }

  lemma DescriptionIsPlain(root: string)
    requires '\n' !in root
    ensures PlainLine("Description=mtix event dispatcher daemon (" + root + ")")
  {
    var open := "Description=mtix event dispatcher daemon (";
    assert '\n' !in open;
    forall c | c in open + root + ")"
      ensures c != '\n'
    {
      assert c in open || c in root || c in ")";
    }
  }

  lemma EndIsPlain()
    ensures forall i :: 0 <= i < |SystemdEnd()| ==> PlainLine(SystemdEnd()[i])
  {}

  predicate NoBracket(line: string) { '<' !in line }

  lemma {:induction false} LinesHaveNoBracket(lines: seq<string>)
    requires forall i :: 0 <= i < |lines| ==> NoBracket(lines[i])
    ensures '<' !in Lines(lines)
  {
    if lines != [] {
      LinesHaveNoBracket(lines[1..]);
    }
  }

  lemma HeadHasNoBracket(root: string)
    requires '<' !in root
    ensures '<' !in Lines(SystemdHead(root))
  {
    var open := "Description=mtix event dispatcher daemon (";
    assert NoBracket(open) && NoBracket(open + root + ")");
    LinesHaveNoBracket(SystemdHead(root));
  }

  lemma EndLinesHaveNoBracket() returns (lines: seq<string>)
    ensures lines == SystemdEnd() && forall i :: 0 <= i < |lines| ==> NoBracket(lines[i])
  {
    lines := SystemdEnd();
  }

  lemma EndHasNoBracket()
    ensures '<' !in Lines(SystemdEnd())
  {
    var lines := EndLinesHaveNoBracket();
    LinesHaveNoBracket(lines);
  }

  /** A text without brackets is no property list. */
  lemma NoBracketNoPlist(s: string)
    requires '<' !in s
    ensures Find(PLIST, s, true).None?
  {
    forall i | 0 <= i <= |s|
      ensures Match(PLIST, s[i..], Bol(s, i, true)).None?
    {
      LitNeeds(PLIST, s[i..], Bol(s, i, true), 0);
    }
    FindNone(PLIST, s, true);
  }

  lemma ExecHasNoBracket(exe: string, root: string, interval: string, rest: string)
    requires '<' !in exe && '<' !in root && '<' !in interval && '<' !in rest
    ensures '<' !in ExecLine(exe, root, interval, rest)
  {
    var parts := [EXEC, exe, " -C ", root, INTERVAL, interval, "\n", rest];
    assert '<' !in EXEC && '<' !in INTERVAL && '<' !in " -C " && '<' !in "\n";
    assert '<' !in Tail(interval, rest);
    assert '<' !in root + Tail(interval, rest);
    assert '<' !in exe + (" -C " + (root + Tail(interval, rest)));
  }

  lemma IntTextIsPlain(interval: int)
    ensures '<' !in IntText(interval) && '\n' !in IntText(interval)
  {}

  /** Without a bracket in its two paths the unit's text holds none. */
  lemma SystemdIsNoPlist(exe: string, root: string, interval: int)
    requires '<' !in exe && '<' !in root
    ensures Find(PLIST, SystemdText(exe, root, interval), true).None?
  {
    HeadHasNoBracket(root);
    EndHasNoBracket();
    IntTextIsPlain(interval);
    ExecHasNoBracket(exe, root, IntText(interval), Lines(SystemdEnd()));
    NoBracketNoPlist(SystemdText(exe, root, interval));
  }

  /** Only the unit's command line can match. */
  lemma SystemdIsRead(exe: string, root: string, interval: int)
    requires '\n' !in exe && '\n' !in root
    ensures Find(SYSTEMD, SystemdText(exe, root, interval), true)
         == Find(SYSTEMD, ExecLine(exe, root, IntText(interval), Lines(SystemdEnd())), true)
  {
    HeadIsPlain(root);
    LinesAreSkipped(SystemdHead(root), ExecLine(exe, root, IntText(interval), Lines(SystemdEnd())));
  }

  // ---- A negative interval ------------------------------------------------------------------------

  /** No digits between an interval's last blank and the line's end, where a minus sign stands. */
  lemma NoIntervalFits(before: string, digits: string, rest: string, j: nat, bol: bool)
    requires '\n' !in before && Digits(digits) && j <= |before| + |INTERVAL| + 1 + |digits|
    ensures Match(FROM_INTERVAL, (before + Tail("-" + digits, rest))[j..], bol).None?
  {
    var s := before + Tail("-" + digits, rest);
    var p := |before| + |INTERVAL| + 1 + |digits|;
    MinusLine(before, digits, rest);
    var x := s[j..];
    if StartsWith(x, INTERVAL) {
      IntervalEnds(s, p, j);
      var y := x[|INTERVAL|..];
      var re := FROM_INTERVAL[1..];
      assert re[1..] == [LineEnd];
      forall k | 1 <= k <= RunOf(Digit, y)
        ensures Match([LineEnd], y[k..], Bol(y, k, Bol(x, |INTERVAL|, bol))).None?
      {
        NotAtTheEnd(s, p, |digits|, j + |INTERVAL|, k);
      }
      NoneWorks(re, y, Bol(x, |INTERVAL|, bol), RunOf(Digit, y));
    }
  }

  /** An interval that begins on a line ends on it, with a blank. */
  lemma IntervalEnds(s: string, p: nat, j: nat)
    requires j <= p < |s| && s[p] == '\n' && StartsWith(s[j..], INTERVAL)
    ensures j + |INTERVAL| <= p && s[j + |INTERVAL| - 1] == ' '
  {
    IntervalIsOneLine();
    forall t | 0 <= t < |INTERVAL|
      ensures s[j + t] == INTERVAL[t] && s[j + t] != '\n'
    {
      StartsWithAt(s[j..], INTERVAL, t);
    }
  }

  lemma MinusLine(before: string, digits: string, rest: string)
    requires '\n' !in before && Digits(digits)
    ensures var s, p := before + Tail("-" + digits, rest), |before| + |INTERVAL| + 1 + |digits|;
            && p < |s| && s[p] == '\n' && s[p - |digits| - 1] == '-'
            && (forall i :: p - |digits| <= i < p ==> Is(Digit, s[i]))
            && (forall i :: 0 <= i < p ==> s[i] != '\n')
  {
    var s, p := before + Tail("-" + digits, rest), |before| + |INTERVAL| + 1 + |digits|;
    IntervalIsOneLine();
    var v := p - |digits| - 1;
    assert s == before + INTERVAL + "-" + digits + "\n" + rest;
    forall i | 0 <= i < p
      ensures s[i] != '\n' && (i >= p - |digits| ==> Is(Digit, s[i]))
    {
      if i < |before| {
        assert s[i] == before[i];
      } else if i < v {
        assert s[i] == INTERVAL[i - |before|];
      } else if i > v {
        assert s[i] == digits[i - v - 1];
      }
    }
  }

  /** Digits after a blank do not reach the end of a line whose last digits follow a minus sign. */
  lemma NotAtTheEnd(s: string, p: nat, digits: nat, start: nat, k: nat)
    requires p < |s| && s[p] == '\n' && 0 < digits < p && s[p - digits - 1] == '-'
    requires forall i :: p - digits <= i < p ==> Is(Digit, s[i])
    requires forall i :: 0 <= i < p ==> s[i] != '\n'
    requires 0 < start <= p && s[start - 1] == ' ' && 1 <= k <= RunOf(Digit, s[start..])
    ensures s[start..][k..] != "" && s[start..][k] != '\n'
  {
    var y := s[start..];
    assert forall i :: start <= i < start + k ==> Is(Digit, y[i - start]) && s[i] == y[i - start];
  }

  lemma NegativeDoesNotMatch(exe: string, root: string, digits: string, rest: string)
    requires '\n' !in exe && '\n' !in root && Digits(digits)
    ensures Match(SYSTEMD, ExecLine(exe, root, "-" + digits, rest), true).None?
  {
    var s := exe + (" -C " + (root + Tail("-" + digits, rest)));
    var before := exe + " -C " + root;
    forall c | c in before
      ensures c != '\n'
    {
      assert c in exe || c in " -C " || c in root;
    }
    Regroup(exe, " -C ", root, Tail("-" + digits, rest));
    var bol := Bol(EXEC, |EXEC|, true);
    forall j | 0 <= j <= RunOf(NotNewline, s)
      ensures Match(FROM_FLAG, s[j..], Bol(s, j, bol)).None?
    {
      NoFlagFits(before, digits, rest, j, Bol(s, j, bol));
    }
    assert FROM_ARGS[1..] == FROM_FLAG;
    NoneWorks(FROM_ARGS, s, bol, RunOf(NotNewline, s));
    assert SYSTEMD[1..][0] == Lit(EXEC) && SYSTEMD[1..][1..] == FROM_ARGS;
    LitStep(SYSTEMD[1..], EXEC, s, true);
  }

  lemma RunStaysOnLine(s: string, p: nat, start: nat)
    requires start <= p < |s| && s[p] == '\n'
    ensures start + RunOf(NotNewline, s[start..]) <= p
  {
    var y := s[start..];
    assert y[p - start] == '\n';
  }

  lemma NoRootFits(before: string, digits: string, rest: string, start: nat, bol: bool)
    requires '\n' !in before && Digits(digits) && start <= |before| + |INTERVAL| + 1 + |digits|
    ensures Match(FROM_ROOT, (before + Tail("-" + digits, rest))[start..], bol).None?
  {
    var s, p := before + Tail("-" + digits, rest), |before| + |INTERVAL| + 1 + |digits|;
    MinusLine(before, digits, rest);
    RunStaysOnLine(s, p, start);
    var y := s[start..];
    forall k | 1 <= k <= RunOf(NotNewline, y)
      ensures Match(FROM_INTERVAL, y[k..], Bol(y, k, bol)).None?
    {
      assert y[k..] == s[start + k..];
      NoIntervalFits(before, digits, rest, start + k, Bol(y, k, bol));
    }
    assert FROM_ROOT[1..] == FROM_INTERVAL;
    NoneWorks(FROM_ROOT, y, bol, RunOf(NotNewline, y));
  }

  /** A flag that begins on a line ends on it. */
  lemma FlagEnds(s: string, p: nat, j: nat)
    requires j <= p < |s| && s[p] == '\n' && StartsWith(s[j..], " -C ")
    ensures j + 4 <= p
  {
    forall i | j <= i < j + 4
      ensures s[i] != '\n'
    {
      StartsWithAt(s[j..], " -C ", i - j);
    }
  }

  lemma NoFlagFits(before: string, digits: string, rest: string, j: nat, bol: bool)
    requires '\n' !in before && Digits(digits)
    requires j <= RunOf(NotNewline, before + Tail("-" + digits, rest))
    ensures Match(FROM_FLAG, (before + Tail("-" + digits, rest))[j..], bol).None?
  {
    var s, p := before + Tail("-" + digits, rest), |before| + |INTERVAL| + 1 + |digits|;
    MinusLine(before, digits, rest);
    var x := s[j..];
    if StartsWith(x, " -C ") {
      FlagEnds(s, p, j);
      assert x[4..] == s[j + 4..];
      assert FROM_FLAG[1..] == FROM_ROOT;
      NoRootFits(before, digits, rest, j + 4, Bol(x, 4, bol));
    }
  }

  function CommandLine(exe: string, root: string, interval: string): string {
    EXEC + (exe + (" -C " + (root + (INTERVAL + interval))))
  }

  lemma Push(a: string, b: string, c: string)
    ensures (a + b) + c == a + (b + c)
  {}

  lemma ExecIsLineAndRest(exe: string, root: string, interval: string, rest: string)
    ensures ExecLine(exe, root, interval, rest) == CommandLine(exe, root, interval) + ("\n" + rest)
  {
    var end := "\n" + rest;
    var s1 := INTERVAL + interval;
    var s2 := root + s1;
    var s3 := " -C " + s2;
    var s4 := exe + s3;
    Push(INTERVAL, interval, end);
    Push(root, s1, end);
    Push(" -C ", s2, end);
    Push(exe, s3, end);
    Push(EXEC, s4, end);
  }

  lemma OneLineConcat(a: string, b: string)
    requires '\n' !in a && '\n' !in b
    ensures '\n' !in a + b
  {}

  lemma CommandIsOneLine(exe: string, root: string, interval: string)
    requires '\n' !in exe && '\n' !in root && '\n' !in interval
    ensures '\n' !in CommandLine(exe, root, interval)
  {
    IntervalIsOneLine();
    OneLineConcat(INTERVAL, interval);
    OneLineConcat(root, INTERVAL + interval);
    OneLineConcat(" -C ", root + (INTERVAL + interval));
    OneLineConcat(exe, " -C " + (root + (INTERVAL + interval)));
    OneLineConcat(EXEC, exe + (" -C " + (root + (INTERVAL + interval))));
  }

  lemma EndIsNotFound()
    ensures Find(SYSTEMD, Lines(SystemdEnd()), true).None?
  {
    EndIsPlain();
    LinesAreSkipped(SystemdEnd(), "");
    assert Lines(SystemdEnd()) + "" == Lines(SystemdEnd());
    LitNeeds(SYSTEMD[1..], "", true, 0);
  }

  lemma NegativeIsNotFound(exe: string, root: string, digits: string)
    requires '\n' !in exe && '\n' !in root && Digits(digits)
    ensures Find(SYSTEMD, ExecLine(exe, root, "-" + digits, Lines(SystemdEnd())), true).None?
  {
    ExecIsLineAndRest(exe, root, "-" + digits, Lines(SystemdEnd()));
    CommandIsOneLine(exe, root, "-" + digits);
    NegativeDoesNotMatch(exe, root, digits, Lines(SystemdEnd()));
    LineIsSkipped(CommandLine(exe, root, "-" + digits), Lines(SystemdEnd()));
    EndIsNotFound();
  }

  /** The directory the pattern finds in a unit whose interval is not negative. */
  lemma SystemdFinds(exe: string, root: string, last: nat, interval: nat)
    requires '\n' !in exe && '\n' !in root && LastFlag(root, last)
    ensures FirstCapture(SYSTEMD, SystemdText(exe, root, interval)) == Some(Flagged(root)[last + 4..])
  {
    var rest := Lines(SystemdEnd());
    SystemdIsRead(exe, root, interval);
    ExecMatches(exe, root, last, Decimal(interval), rest);
    FoundHere(SYSTEMD, ExecLine(exe, root, Decimal(interval), rest), true);
  }

  lemma SystemdFindsNone(exe: string, root: string, interval: int)
    requires '\n' !in exe && '\n' !in root && interval < 0
    ensures FirstCapture(SYSTEMD, SystemdText(exe, root, interval)) == None
  {
    SystemdIsRead(exe, root, interval);
    NegativeIsNotFound(exe, root, Decimal(-interval));
  }

  /** The flag's last place is the writer's own exactly when it has no other. */
  lemma LastFlagIs(root: string) returns (last: nat)
    requires root != ""
    ensures LastFlag(root, last) && (Flagged(root)[last + 4..] == root <==> !InnerFlag(root))
  {
    assert Flagged(root)[0..] == Flagged(root) && Flagged(root)[..4] == " -C " && Flagged(root)[4..] == root;
    assert FlagAt(root, 0);
    last := FindLastFlag(root, 0);
    assert last > 0 ==> FlagAt(root, last) && last < |root|;
  }

  lemma NewlineIsNotCaptured(text: string, root: string)
    requires '\n' in root
    ensures FirstCapture(SYSTEMD, text) != Some(root)
  {
    SystemdCapturesOne();
    FoundIsOf(SYSTEMD, text, true, NotNewline);
  }

  lemma BracketIsNotCaptured(text: string, root: string)
    requires '<' in root
    ensures FirstCapture(PLIST, text) != Some(root) && (FirstCapture(PLIST, text).None? <==> Find(PLIST, text, true).None?)
  {
    PlistCapturesOne();
    FoundIsOf(PLIST, text, true, NotLt);
  }

  /** The second pattern recovers the directory exactly under these three conditions. */
  lemma SystemdCapturesIff(exe: string, root: string, interval: int)
    requires '\n' !in exe && root != ""
    ensures FirstCapture(SYSTEMD, SystemdText(exe, root, interval)) == Some(root)
            <==> '\n' !in root && !InnerFlag(root) && interval >= 0
  {
    if '\n' in root {
      NewlineIsNotCaptured(SystemdText(exe, root, interval), root);
    } else if interval < 0 {
      SystemdFindsNone(exe, root, interval);
    } else {
      var last := LastFlagIs(root);
      SystemdFinds(exe, root, last, interval);
    }
  }

  /**
   systemd: the reader recovers the project directory exactly when the directory has no newline
   and no further flag with text behind it, the interval is not negative, and the text is not
   taken for a property list; without a bracket in the directory it never is.
  */
  lemma SystemdRoundTripIff(exe: string, root: string, interval: int)
    requires '\n' !in exe && '<' !in exe && root != "" && |SystemdText(exe, root, interval)| <= 0x10000
    ensures UnitRoot(SystemdText(exe, root, interval)) == root
            <==> '\n' !in root && !InnerFlag(root) && interval >= 0 && Find(PLIST, SystemdText(exe, root, interval), true).None?
    ensures '<' !in root ==> Find(PLIST, SystemdText(exe, root, interval), true).None?
  {
    SystemdCapturesIff(exe, root, interval);
    if '<' in root {
      BracketIsNotCaptured(SystemdText(exe, root, interval), root);
    } else {
      SystemdIsNoPlist(exe, root, interval);
    }
  }

  // ---- The scan of the unit directory ----------------------------------------------------------------

  // A directory entry, with its text when it can be read.
  datatype Entry = Entry(name: string, content: Option<string>)

  predicate Candidate(name: string, prefix: string, ext: string) {
    StartsWith(name, prefix) && |ext| <= |name| && name[|name| - |ext|..] == ext
  }

  lemma CandidateIff(name: string, prefix: string, ext: string)
    ensures Candidate(name, prefix, ext) <==> (exists a :: name == prefix + a) && (exists b :: name == b + ext)
  {
    if Candidate(name, prefix, ext) {
      assert name == prefix + name[|prefix|..] && name == name[..|name| - |ext|] + ext;
    }
    if a, b :| name == prefix + a && name == b + ext {
      assert (prefix + a)[..|prefix|] == prefix && (b + ext)[|b|..] == ext;
    }
  }

  /** A readable unit that serves the project; `same` compares directories, links resolved. */
  predicate Serves(e: Entry, prefix: string, ext: string, root: string, same: (string, string) -> bool) {
    Candidate(e.name, prefix, ext) && e.content.Some? && Names(UnitRoot(e.content.value), root, same)
  }

  predicate Names(at: string, root: string, same: (string, string) -> bool) { at != "" && same(at, root) }

  ghost predicate AnyServes(entries: seq<Entry>, prefix: string, ext: string, root: string, same: (string, string) -> bool) {
    exists i :: 0 <= i < |entries| && Serves(entries[i], prefix, ext, root, same)
  }

  lemma ServesNext(entries: seq<Entry>, n: nat, prefix: string, ext: string, root: string, same: (string, string) -> bool)
    requires n < |entries|
    ensures AnyServes(entries[..n + 1], prefix, ext, root, same)
            <==> AnyServes(entries[..n], prefix, ext, root, same) || Serves(entries[n], prefix, ext, root, same)
  {
    var before, upTo := entries[..n], entries[..n + 1];
    assert upTo[n] == entries[n];
    if i :| 0 <= i < |before| && Serves(before[i], prefix, ext, root, same) {
      assert upTo[i] == before[i];
    }
    if i :| 0 <= i < |upTo| && Serves(upTo[i], prefix, ext, root, same) {
      assert i < n ==> before[i] == upTo[i];
    }
  }

  function Unreadable(entries: seq<Entry>, prefix: string, ext: string): seq<string> {
    if entries == [] then []
    else
      var e := entries[|entries| - 1];
      Unreadable(entries[..|entries| - 1], prefix, ext)
      + (if Candidate(e.name, prefix, ext) && e.content.None? then [e.name] else [])
  }

  lemma {:induction false} UnreadableIff(entries: seq<Entry>, prefix: string, ext: string, name: string)
    ensures name in Unreadable(entries, prefix, ext)
            <==> Candidate(name, prefix, ext) && Entry(name, None) in entries
  {
    if entries != [] {
      var n := |entries| - 1;
      UnreadableIff(entries[..n], prefix, ext, name);
      assert entries == entries[..n] + [entries[n]];
    }
  }

  /** A unit that the installer wrote for a project is found for every name of its directory. */
  lemma InstalledUnitIsFound(entries: seq<Entry>, i: nat, slug: string, prefix: string, ext: string, exe: string, root: string, interval: nat,
                             asked: string, same: (string, string) -> bool)
    requires i < |entries| && same(root, asked)
    requires entries[i] == Entry(prefix + slug + ext, Some(SystemdText(exe, root, interval)))
    requires '\n' !in exe && '<' !in exe && root != "" && '\n' !in root && '<' !in root && !InnerFlag(root)
    requires |SystemdText(exe, root, interval)| <= 0x10000
    ensures AnyServes(entries, prefix, ext, asked, same)
  {
    SystemdRoundTripIff(exe, root, interval);
    assert prefix + slug + ext == prefix + (slug + ext);
    CandidateIff(entries[i].name, prefix, ext);
    assert Serves(entries[i], prefix, ext, asked, same);
  }

  /** One unreadable entry never changes the answer of the others; each is reported. */
  method UnitRunsProject(entries: seq<Entry>, prefix: string, ext: string, root: string, same: (string, string) -> bool)
    returns (found: bool, skipped: seq<string>)
    ensures found <==> AnyServes(entries, prefix, ext, root, same)
    ensures skipped == Unreadable(entries, prefix, ext)
    ensures found ==> exists e :: e in entries && e.content.Some? && UnitRoot(e.content.value) != "" && same(UnitRoot(e.content.value), root)
    ensures forall name :: name in skipped <==> Candidate(name, prefix, ext) && Entry(name, None) in entries
  {
    found, skipped := false, [];
    for n := 0 to |entries|
      invariant found <==> AnyServes(entries[..n], prefix, ext, root, same)
      invariant skipped == Unreadable(entries[..n], prefix, ext)
    {
      var e := entries[n];
      assert entries[..n + 1][..n] == entries[..n];
      ServesNext(entries, n, prefix, ext, root, same);
      if !Candidate(e.name, prefix, ext) {
        continue;
      }
      if e.content.None? {
        skipped := skipped + [e.name];
      } else {
        var at := UnitProjectRoot(e.content.value);
        if at != "" && same(at, root) {
          found := true;
        }
      }
    }
    assert entries[..|entries|] == entries;
    forall name
      ensures name in skipped <==> Candidate(name, prefix, ext) && Entry(name, None) in entries
    {
      UnreadableIff(entries, prefix, ext, name);
    }
    if i :| 0 <= i < |entries| && Serves(entries[i], prefix, ext, root, same) {
      assert entries[i] in entries;
    }
  }
}
