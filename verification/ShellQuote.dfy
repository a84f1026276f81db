/**
 The commands mtix prints for a person to paste into a shell, read back by the shell: the
 tokeniser follows sections 2.2.1 (escape), 2.2.2 (single quotes) and 2.3 (token recognition)
 of the POSIX.1-2017 Shell Command Language.
*/
module ShellQuote {
  import opened Options

  // ---- The shell's side --------------------------------------------------------------------------

  datatype Token = Word(text: string) | Operator(op: string)

  // Escape carries whether a word has begun: an escaped newline vanishes. Broken marks what a
  // shell cannot read, and everything outside the three sections: an unquoted character that
  // begins an expansion or another kind of quoting.
  datatype Mode =
    | Blank
    | InWord(acc: string)
    | InSingle(acc: string)
    | Escape(acc: string, begun: bool)
    | InOperator(op: string)
    | Comment
    | Broken

  datatype Lexer = Lexer(out: seq<Token>, mode: Mode)

  const NUL: char := '\0'

  predicate IsBlank(c: char) { c == ' ' || c == '\t' }

  predicate StartsOperator(c: char) { c in {'&', '|', ';', '<', '>', '(', ')'} }

  predicate IsOperator(s: string) {
    s in {"&", "&&", "|", "||", ";", ";;", "<", "<<", "<<-", "<&", "<>", ">", ">>", ">&", ">|", "(", ")"}
  }

  predicate BeginsExpansion(c: char) { c in {'$', '`', '"', '*', '?', '[', '~'} }

  function StepBlank(out: seq<Token>, c: char): Lexer {
    if c == NUL || BeginsExpansion(c) then Lexer(out, Broken)
    else if IsBlank(c) then Lexer(out, Blank)
    else if c == '\n' then Lexer(out + [Operator("\n")], Blank)
    else if c == '#' then Lexer(out, Comment)
    else if c == '\'' then Lexer(out, InSingle(""))
    else if c == '\\' then Lexer(out, Escape("", false))
    else if StartsOperator(c) then Lexer(out, InOperator([c]))
    else Lexer(out, InWord([c]))
  }

  function StepWord(out: seq<Token>, acc: string, c: char): Lexer {
    if c == NUL || BeginsExpansion(c) then Lexer(out, Broken)
    else if c == '\'' then Lexer(out, InSingle(acc))
    else if c == '\\' then Lexer(out, Escape(acc, true))
    else if IsBlank(c) || c == '\n' || StartsOperator(c) then StepBlank(out + [Word(acc)], c)
    else Lexer(out, InWord(acc + [c]))
  }

  function Step(l: Lexer, c: char): Lexer {
    match l.mode
    case Blank => StepBlank(l.out, c)
    case InWord(acc) => StepWord(l.out, acc, c)
    case InSingle(acc) =>
      if c == NUL then Lexer(l.out, Broken)
      else if c == '\'' then Lexer(l.out, InWord(acc))
      else Lexer(l.out, InSingle(acc + [c]))
    case Escape(acc, begun) =>
      if c == NUL then Lexer(l.out, Broken)
      else if c == '\n' then Lexer(l.out, if begun then InWord(acc) else Blank)
      else Lexer(l.out, InWord(acc + [c]))
    case InOperator(op) =>
      if IsOperator(op + [c]) then Lexer(l.out, InOperator(op + [c])) else StepBlank(l.out + [Operator(op)], c)
    case Comment => if c == NUL then Lexer(l.out, Broken) else if c == '\n' then StepBlank(l.out, c) else l
    case Broken => l
  }

  function Run(l: Lexer, s: string): Lexer
    decreases |s|
  {
    if s == "" then l else Run(Step(l, s[0]), s[1..])
  }

  /** The tokens, unless the text ends inside a quote or breaks. */
  function Finish(l: Lexer): Option<seq<Token>> {
    match l.mode
    case Blank => Some(l.out)
    case Comment => Some(l.out)
    case InWord(acc) => Some(l.out + [Word(acc)])
    case InOperator(op) => Some(l.out + [Operator(op)])
    case InSingle(_) => None
    case Escape(_, _) => None
    case Broken => None
  }

  function Tokenise(s: string): Option<seq<Token>> {
    Finish(Run(Lexer([], Blank), s))
  }

  lemma {:induction false} RunConcat(l: Lexer, a: string, b: string)
    ensures Run(l, a + b) == Run(Run(l, a), b)
    decreases |a|
  {
    if a == "" {
      assert a + b == b;
    } else {
      assert (a + b)[1..] == a[1..] + b;
      RunConcat(Step(l, a[0]), a[1..], b);
    }
  }

  lemma RunOne(l: Lexer, c: char)
    ensures Run(l, [c]) == Step(l, c)
  {
    assert [c][1..] == "";
  }

  lemma RunCons(l: Lexer, c: char, s: string)
    ensures Run(l, [c] + s) == Run(Step(l, c), s)
  {
    assert ([c] + s)[1..] == s;
  }

  lemma {:induction false} BrokenStays(l: Lexer, s: string)
    requires l.mode.Broken?
    ensures Run(l, s) == l
  {
    if s != "" {
      BrokenStays(l, s[1..]);
    }
  }

  /** A text whose trailing blank would end a token reads the same without it. */
  lemma WithoutTrailingBlank(l: Lexer, s: string)
    requires Run(l, s + " ").mode.Blank?
    ensures Finish(Run(l, s)) == Some(Run(l, s + " ").out)
  {
    RunConcat(l, s, " ");
    RunOne(Run(l, s), ' ');
  }

  // ---- Quoting -----------------------------------------------------------------------------------

  /** Every quote of the text written as close, escaped quote, open. */
  function QuotesEscaped(s: string): string {
    if s == "" then "" else (if s[0] == '\'' then "'\\''" else [s[0]]) + QuotesEscaped(s[1..])
  }

  function Quote(s: string): string {
    "'" + QuotesEscaped(s) + "'"
  }

  lemma EscapedQuote(out: seq<Token>, acc: string)
    ensures Run(Lexer(out, InSingle(acc)), "'\\''") == Lexer(out, InSingle(acc + "'"))
  {
    var l0 := Lexer(out, InSingle(acc));
    var l1, l2, l3 := Lexer(out, InWord(acc)), Lexer(out, Escape(acc, true)), Lexer(out, InWord(acc + "'"));
    RunCons(l0, '\'', "\\''");
    RunCons(l1, '\\', "''");
    RunCons(l2, '\'', "'");
    RunOne(l3, '\'');
  }

  /** Inside the quotes the escaped text adds exactly the text, or breaks on a NUL. */
  lemma {:induction false} InsideQuotes(out: seq<Token>, acc: string, s: string)
    ensures NUL !in s ==> Run(Lexer(out, InSingle(acc)), QuotesEscaped(s)) == Lexer(out, InSingle(acc + s))
    ensures NUL in s ==> Run(Lexer(out, InSingle(acc)), QuotesEscaped(s)).mode.Broken?
    decreases |s|
  {
    if s == "" {
      assert acc + s == acc;
    } else {
      var first := if s[0] == '\'' then "'\\''" else [s[0]];
      RunConcat(Lexer(out, InSingle(acc)), first, QuotesEscaped(s[1..]));
      if s[0] == NUL {
        RunOne(Lexer(out, InSingle(acc)), s[0]);
        BrokenStays(Lexer(out, Broken), QuotesEscaped(s[1..]));
      } else {
        if s[0] == '\'' {
          EscapedQuote(out, acc);
        } else {
          RunOne(Lexer(out, InSingle(acc)), s[0]);
        }
        InsideQuotes(out, acc + [s[0]], s[1..]);
        assert acc + [s[0]] + s[1..] == acc + s;
      }
    }
  }

  lemma OpenQuote(out: seq<Token>)
    ensures Step(Lexer(out, Blank), '\'') == Lexer(out, InSingle(""))
  {
    var c := '\'';
    assert c != NUL && c != '\n' && c != '#';
    assert !BeginsExpansion(c) && !IsBlank(c);
  }

  /** After a blank, a quoted text is one word, the text itself. */
  lemma QuotedWord(out: seq<Token>, s: string)
    ensures NUL !in s ==> Run(Lexer(out, Blank), Quote(s)) == Lexer(out, InWord(s))
    ensures NUL in s ==> Run(Lexer(out, Blank), Quote(s)).mode.Broken?
  {
    var l, inner := Lexer(out, Blank), Lexer(out, InSingle(""));
    var text := QuotesEscaped(s);
    assert Quote(s) == ['\''] + (text + ['\'']);
    RunCons(l, '\'', text + ['\'']);
    OpenQuote(out);
    assert Run(l, Quote(s)) == Run(inner, text + ['\'']);
    RunConcat(inner, text, ['\'']);
    InsideQuotes(out, "", s);
    assert "" + s == s;
    RunOne(Run(inner, text), '\'');
    assert Run(l, Quote(s)) == Step(Run(inner, text), '\'');
  }

  /** A shell reads the quoted text as the single word it quotes exactly when it has no NUL. */
  lemma ShellQuoteRoundTrip(s: string)
    ensures Tokenise(Quote(s)) == Some([Word(s)]) <==> NUL !in s
  {
    QuotedWord([], s);
    assert [] + [Word(s)] == [Word(s)];
  }

  // ---- Commands ------------------------------------------------------------------------------------

  // What a printed command is made of, one blank apart.
  datatype Piece = Plain(word: string) | Quoted(text: string) | Oper(op: string)

  predicate PlainChar(c: char) {
    c != NUL && !BeginsExpansion(c) && !IsBlank(c) && c !in {'\n', '\'', '\\', '#'} && !StartsOperator(c)
  }

  predicate Readable(p: Piece) {
    match p
    case Plain(w) => w != "" && forall i :: 0 <= i < |w| ==> PlainChar(w[i])
    case Quoted(s) => NUL !in s
    case Oper(op) => op in {"&&", ";", ">>", "|"}
  }

  ghost predicate AllReadable(ps: seq<Piece>) {
    forall i :: 0 <= i < |ps| ==> Readable(ps[i])
  }

  lemma ReadableConcat(a: seq<Piece>, b: seq<Piece>)
    requires AllReadable(a) && AllReadable(b)
    ensures AllReadable(a + b) && Meanings(a + b) == Meanings(a) + Meanings(b)
  {
    forall i | 0 <= i < |a + b|
      ensures Readable((a + b)[i])
    {
      assert (a + b)[i] == if i < |a| then a[i] else b[i - |a|];
    }
  }

  function Text(p: Piece): string {
    match p case Plain(w) => w case Quoted(s) => Quote(s) case Oper(op) => op
  }

  function Meaning(p: Piece): Token {
    match p case Plain(w) => Word(w) case Quoted(s) => Word(s) case Oper(op) => Operator(op)
  }

  function Meanings(ps: seq<Piece>): seq<Token> {
    seq(|ps|, i requires 0 <= i < |ps| => Meaning(ps[i]))
  }

  /** The pieces, each followed by a blank. */
  function Spaced(ps: seq<Piece>): string {
    if ps == [] then "" else Text(ps[0]) + " " + Spaced(ps[1..])
  }

  lemma {:induction false} SpacedConcat(a: seq<Piece>, b: seq<Piece>)
    ensures Spaced(a + b) == Spaced(a) + Spaced(b)
  {
    if a == [] {
      assert a + b == b;
    } else {
      assert (a + b)[1..] == a[1..] + b;
      SpacedConcat(a[1..], b);
    }
  }

  lemma {:induction false} PlainTail(out: seq<Token>, acc: string, w: string)
    requires forall i :: 0 <= i < |w| ==> PlainChar(w[i])
    ensures Run(Lexer(out, InWord(acc)), w) == Lexer(out, InWord(acc + w))
    decreases |w|
  {
    if w == "" {
      assert acc + w == acc;
    } else {
      PlainTail(out, acc + [w[0]], w[1..]);
      assert acc + [w[0]] + w[1..] == acc + w;
    }
  }

  lemma OperRuns(out: seq<Token>, op: string)
    requires op in {"&&", ";", ">>", "|"}
    ensures Run(Lexer(out, Blank), op) == Lexer(out, InOperator(op))
  {
    RunOne(Lexer(out, Blank), op[0]);
    if |op| == 1 {
      assert op == [op[0]];
    } else {
      assert op[1..] == [op[1]] && [op[0]] + [op[1]] == op;
      RunOne(Lexer(out, InOperator([op[0]])), op[1]);
    }
  }

  lemma OnePiece(out: seq<Token>, p: Piece)
    requires Readable(p)
    ensures Run(Lexer(out, Blank), Text(p) + " ") == Lexer(out + [Meaning(p)], Blank)
  {
    var l := Lexer(out, Blank);
    RunConcat(l, Text(p), " ");
    RunOne(Run(l, Text(p)), ' ');
    match p
    case Plain(w) =>
      PlainTail(out, [w[0]], w[1..]);
      assert [w[0]] + w[1..] == w;
    case Quoted(s) => QuotedWord(out, s);
    case Oper(op) =>
      OperRuns(out, op);
      assert (op + " ")[|op|] == ' ';
      assert !IsOperator(op + " ");
  }

  lemma {:induction false} PiecesRead(out: seq<Token>, ps: seq<Piece>)
    requires AllReadable(ps)
    ensures Run(Lexer(out, Blank), Spaced(ps)) == Lexer(out + Meanings(ps), Blank)
    decreases |ps|
  {
    if ps == [] {
      assert out + Meanings(ps) == out;
    } else {
      RunConcat(Lexer(out, Blank), Text(ps[0]) + " ", Spaced(ps[1..]));
      OnePiece(out, ps[0]);
      PiecesRead(out + [Meaning(ps[0])], ps[1..]);
      assert out + [Meaning(ps[0])] + Meanings(ps[1..]) == out + Meanings(ps);
    }
  }

  /** A command that is its pieces one blank apart reads as them, with or without the last blank. */
  lemma CommandReads(s: string, ps: seq<Piece>)
    requires s == Spaced(ps) || s + " " == Spaced(ps)
    requires AllReadable(ps)
    ensures Tokenise(s) == Some(Meanings(ps))
  {
    PiecesRead([], ps);
    assert [] + Meanings(ps) == Meanings(ps);
    if s + " " == Spaced(ps) {
      WithoutTrailingBlank(Lexer([], Blank), s);
    }
  }

  function Words(texts: seq<string>): seq<Token> {
    seq(|texts|, i requires 0 <= i < |texts| => Word(texts[i]))
  }

  function QuotedAll(texts: seq<string>): seq<Piece> {
    seq(|texts|, i requires 0 <= i < |texts| => Quoted(texts[i]))
  }

  function JoinBlank(parts: seq<string>): string {
    if parts == [] then "" else if |parts| == 1 then parts[0] else parts[0] + " " + JoinBlank(parts[1..])
  }

  lemma {:induction false} JoinIsSpaced(quoted: seq<string>, texts: seq<string>)
    requires |quoted| == |texts| > 0 && forall i :: 0 <= i < |texts| ==> quoted[i] == Quote(texts[i])
    ensures JoinBlank(quoted) + " " == Spaced(QuotedAll(texts))
  {
    assert QuotedAll(texts)[1..] == QuotedAll(texts[1..]);
    if |texts| > 1 {
      JoinIsSpaced(quoted[1..], texts[1..]);
      assert quoted[0] + " " + JoinBlank(quoted[1..]) + " " == quoted[0] + " " + (JoinBlank(quoted[1..]) + " ");
    } else {
      assert Spaced(QuotedAll(texts[1..])) == "";
    }
  }

  /** The fix for entries a scan cannot read names exactly those paths, whatever they contain. */
  method UnreadableUnitFix(skipped: seq<string>) returns (fix: string)
    ensures (forall i :: 0 <= i < |skipped| ==> NUL !in skipped[i]) ==>
              Tokenise(fix) == Some(Words(["ls", "-l", "--"]) + Words(skipped))
  {
    var quoted := new string[|skipped|];
    for i := 0 to |skipped|
      invariant forall j :: 0 <= j < i ==> quoted[j] == Quote(skipped[j])
    {
      quoted[i] := Quote(skipped[i]);
    }
    fix := "ls -l -- " + JoinBlank(quoted[..]);
    if forall i :: 0 <= i < |skipped| ==> NUL !in skipped[i] {
      ListReads(fix, quoted[..], skipped);
    }
  }

  lemma SpacedCons(p: Piece, ps: seq<Piece>)
    ensures Spaced([p] + ps) == Text(p) + " " + Spaced(ps)
  {
    assert ([p] + ps)[1..] == ps;
  }

  const LIST := [Plain("ls"), Plain("-l"), Plain("--")]

  lemma ListHead()
    ensures Spaced(LIST) == "ls -l -- "
  {
    SpacedCons(Plain("ls"), [Plain("-l"), Plain("--")]);
    SpacedCons(Plain("-l"), [Plain("--")]);
    SpacedCons(Plain("--"), []);
  }

  lemma ListHeadReads()
    ensures AllReadable(LIST) && Meanings(LIST) == Words(["ls", "-l", "--"])
  {}

  lemma QuotedAllReads(texts: seq<string>)
    requires forall i :: 0 <= i < |texts| ==> NUL !in texts[i]
    ensures AllReadable(QuotedAll(texts)) && Meanings(QuotedAll(texts)) == Words(texts)
  {}

  lemma ListReads(fix: string, quoted: seq<string>, skipped: seq<string>)
    requires |quoted| == |skipped| && forall i :: 0 <= i < |skipped| ==> quoted[i] == Quote(skipped[i]) && NUL !in skipped[i]
    requires fix == "ls -l -- " + JoinBlank(quoted)
    ensures Tokenise(fix) == Some(Words(["ls", "-l", "--"]) + Words(skipped))
  {
    ListIsSpaced(fix, quoted, skipped);
    ListHeadReads();
    QuotedAllReads(skipped);
    ReadableConcat(LIST, QuotedAll(skipped));
    CommandReads(fix, LIST + QuotedAll(skipped));
  }

  lemma ListIsSpaced(fix: string, quoted: seq<string>, skipped: seq<string>)
    requires |quoted| == |skipped| && forall i :: 0 <= i < |skipped| ==> quoted[i] == Quote(skipped[i])
    requires fix == "ls -l -- " + JoinBlank(quoted)
    ensures var text := Spaced(LIST + QuotedAll(skipped)); fix == text || fix + " " == text
  {
    ListHead();
    SpacedConcat(LIST, QuotedAll(skipped));
    if skipped != [] {
      JoinIsSpaced(quoted, skipped);
      assert fix + " " == "ls -l -- " + (JoinBlank(quoted) + " ");
    }
  }
}
