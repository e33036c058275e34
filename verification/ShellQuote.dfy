/** The two quoting functions and a tokenizer for the quoting rules of section 2.2 of the
    POSIX.1-2017 Shell Command Language. Command substitutions, backquotes and here-documents are
    not entered: their text is read like any other. Operator characters are one token each. */
module ShellQuote {
  import opened Basics
  import opened Text

  // ---------------------------------------------------------------- the shell

  /** A character of a word: literal, or one the shell may still expand. */
  datatype Mark = Literal(c: char) | Active(c: char)

  datatype Token = Word(chars: seq<Mark>) | Operator(c: char)

  datatype Mode = Bare | Escape | Single | Double | DoubleEscape | Comment

  /** The tokens so far and the word being read, if one has begun. */
  datatype Lexer = Lexer(mode: Mode, word: Option<seq<Mark>>, tokens: seq<Token>)

  const START := Lexer(Bare, None, [])

  predicate IsBlank(c: char) { c == ' ' || c == '\t' }

  predicate IsOperator(c: char) {
    c == '\n' || c == '&' || c == '|' || c == ';' || c == '<' || c == '>' || c == '(' || c == ')'
  }

  function Read(l: Lexer): seq<Mark> { if l.word.Some? then l.word.value else [] }

  function Push(l: Lexer, marks: seq<Mark>): Lexer { l.(word := Some(Read(l) + marks)) }

  function Finish(l: Lexer): Lexer {
    if l.word.Some? then l.(word := None, tokens := l.tokens + [Word(l.word.value)]) else l
  }

  function Step(l: Lexer, c: char): Lexer {
    match l.mode
    case Bare =>
      if c == '\'' then Push(l, []).(mode := Single)
      else if c == '"' then Push(l, []).(mode := Double)
      else if c == '\\' then l.(mode := Escape)
      else if IsBlank(c) then Finish(l)
      else if IsOperator(c) then
        var f := Finish(l);
        f.(tokens := f.tokens + [Operator(c)])
      else if c == '#' && l.word.None? then l.(mode := Comment)
      else Push(l, [Active(c)])
    case Escape =>
      if c == '\n' then l.(mode := Bare) else Push(l, [Literal(c)]).(mode := Bare)
    case Single =>
      if c == '\'' then l.(mode := Bare) else Push(l, [Literal(c)])
    case Double =>
      if c == '"' then l.(mode := Bare)
      else if c == '\\' then l.(mode := DoubleEscape)
      else if c == '$' || c == '`' then Push(l, [Active(c)])
      else Push(l, [Literal(c)])
    case DoubleEscape =>
      var d := l.(mode := Double);
      if c == '$' || c == '`' || c == '"' || c == '\\' then Push(d, [Literal(c)])
      else if c == '\n' then d
      else Push(d, [Literal('\\'), Literal(c)])
    case Comment =>
      if c == '\n' then l.(mode := Bare, tokens := l.tokens + [Operator(c)]) else l
  }

  function Lex(l: Lexer, s: string): Lexer {
    if s == "" then l else Step(Lex(l, s[..|s| - 1]), s[|s| - 1])
  }

  /** The tokens of a whole command line. */
  function Tokens(s: string): seq<Token> { Finish(Lex(START, s)).tokens }

  // ---------------------------------------------------------------- quoting

  function ReplaceQuotes(s: string, repl: string): string {
    if s == "" then ""
    else
      ReplaceQuotes(s[..|s| - 1], repl)
      + if s[|s| - 1] == '\'' then repl else [s[|s| - 1]]
  }

  /** The agent's form: a quote becomes '"'"'. */
  function AgentQuote(s: string): string {
    if s == "" then "''" else "'" + ReplaceQuotes(s, "'\"'\"'") + "'"
  }

  /** The panel's form: a quote becomes '\''. */
  function PanelQuote(s: string): string { "'" + ReplaceQuotes(s, "'\\''") + "'" }

  function Literals(s: string): seq<Mark> { seq(|s|, i requires 0 <= i < |s| => Literal(s[i])) }

  // ---------------------------------------------------------------- quoting is undone

  lemma {:induction false} LexConcat(l: Lexer, s: string, t: string)
    ensures Lex(l, s + t) == Lex(Lex(l, s), t)
  {
    if t == "" {
      assert s + t == s;
    } else {
      LexConcat(l, s, t[..|t| - 1]);
      assert (s + t)[..|s + t| - 1] == s + t[..|t| - 1];
    }
  }

  lemma LexOne(l: Lexer, c: char)
    ensures Lex(l, [c]) == Step(l, c)
  {
    assert [c][..0] == "";
  }

  lemma LexSnoc(l: Lexer, s: string, c: char)
    ensures Lex(l, s + [c]) == Step(Lex(l, s), c)
  {
    LexConcat(l, s, [c]);
    LexOne(Lex(l, s), c);
  }

  /** Inside single quotes the way a quote is written leaves, reads one literal quote and comes
      back. */
  predicate WritesQuote(repl: string) { repl == "'\"'\"'" || repl == "'\\''" }

  lemma PushTwice(l: Lexer, xs: seq<Mark>, ys: seq<Mark>)
    ensures Push(Push(l, xs), ys) == Push(l, xs + ys)
    ensures l.word.Some? ==> Push(l, []) == l
  {
    assert Read(l) + xs + ys == Read(l) + (xs + ys);
    assert Read(l) + [] == Read(l);
  }

  lemma QuoteInsideQuotes(l: Lexer, repl: string)
    requires l.mode.Single? && l.word.Some? && WritesQuote(repl)
    ensures Lex(l, repl) == Push(l, [Literal('\'')])
  {
    LexOne(l, '\'');
    if repl == "'\\''" {
      assert repl == ['\''] + ['\\'] + ['\''] + ['\''];
      var read := Push(l.(mode := Bare), [Literal('\'')]);
      PushTwice(read, [], []);
      assert Step(Step(Step(Step(l, '\''), '\\'), '\''), '\'') == Push(l, [Literal('\'')]);
      LexSnoc(l, ['\''], '\\');
      LexSnoc(l, ['\''] + ['\\'], '\'');
      LexSnoc(l, ['\''] + ['\\'] + ['\''], '\'');
    } else {
      assert repl == ['\''] + ['"'] + ['\''] + ['"'] + ['\''];
      var bare := l.(mode := Bare);
      PushTwice(bare, [], []);
      var read := Push(l.(mode := Double), [Literal('\'')]).(mode := Bare);
      PushTwice(read, [], []);
      assert Step(Step(Step(Step(Step(l, '\''), '"'), '\''), '"'), '\'') == Push(l, [Literal('\'')]);
      LexSnoc(l, ['\''], '"');
      LexSnoc(l, ['\''] + ['"'], '\'');
      LexSnoc(l, ['\''] + ['"'] + ['\''], '"');
      LexSnoc(l, ['\''] + ['"'] + ['\''] + ['"'], '\'');
    }
  }

  lemma {:induction false} QuotedBody(l: Lexer, s: string, repl: string)
    requires l.mode.Single? && l.word.Some? && WritesQuote(repl)
    ensures Lex(l, ReplaceQuotes(s, repl)) == Push(l, Literals(s))
  {
    if s == "" {
      PushTwice(l, [], []);
    } else {
      var front, c := s[..|s| - 1], s[|s| - 1];
      QuotedBody(l, front, repl);
      var m := Push(l, Literals(front));
      assert Literals(s) == Literals(front) + [Literal(c)];
      PushTwice(l, Literals(front), [Literal(c)]);
      if c == '\'' {
        LexConcat(l, ReplaceQuotes(front, repl), repl);
        QuoteInsideQuotes(m, repl);
      } else {
        LexSnoc(l, ReplaceQuotes(front, repl), c);
      }
    }
  }

  lemma QuotedForm(l: Lexer, s: string, repl: string)
    requires l.mode.Bare? && WritesQuote(repl)
    ensures Lex(l, "'" + ReplaceQuotes(s, repl) + "'") == Push(l, Literals(s))
  {
    var m := Step(l, '\'');
    LexOne(l, '\'');
    var quote, body := "'", ReplaceQuotes(s, repl);
    LexConcat(l, quote, body);
    QuotedBody(m, s, repl);
    PushTwice(l.(mode := Single), [], Literals(s));
    assert [] + Literals(s) == Literals(s);
    assert Lex(l, quote + body) == Push(l.(mode := Single), Literals(s));
    LexSnoc(l, quote + body, '\'');
    assert quote + body + "'" == quote + body + ['\''];
  }

  /** Wherever the shell is not inside a quotation, either quoted form adds exactly the characters
      of the value, all literal, to the word being read, and changes nothing else. */
  lemma QuotingIsUndone(l: Lexer, s: string)
    requires l.mode.Bare?
    ensures Lex(l, AgentQuote(s)) == Push(l, Literals(s))
    ensures Lex(l, PanelQuote(s)) == Push(l, Literals(s))
  {
    QuotedForm(l, s, "'\"'\"'");
    QuotedForm(l, s, "'\\''");
    if s == "" {
      assert AgentQuote(s) == PanelQuote(s);
    }
  }

  /** A piece of text that begins and ends between words. */
  predicate BetweenWords(s: string) { Lex(START, s).mode.Bare? && Lex(START, s).word.None? }

  /** The end of the line or a character that ends a word. */
  predicate EndsWord(s: string) { s == "" || IsBlank(s[0]) || IsOperator(s[0]) }

  lemma {:induction false} TokensAccumulate(l: Lexer, done: seq<Token>, s: string)
    ensures Lex(l.(tokens := done + l.tokens), s)
         == Lex(l, s).(tokens := done + Lex(l, s).tokens)
  {
    if s != "" {
      TokensAccumulate(l, done, s[..|s| - 1]);
      var m := Lex(l, s[..|s| - 1]);
      assert Finish(m.(tokens := done + m.tokens)).tokens == done + Finish(m).tokens;
    }
  }

  /** Text after a finished word reads the same as on its own. */
  lemma Continue(tokens: seq<Token>, s: string)
    ensures Lex(START.(tokens := tokens), s)
         == Lex(START, s).(tokens := tokens + Lex(START, s).tokens)
  {
    TokensAccumulate(START, tokens, s);
    assert START.(tokens := tokens + START.tokens) == START.(tokens := tokens);
  }

  lemma EndOfWord(l: Lexer, s: string)
    requires l.mode.Bare? && EndsWord(s)
    ensures Finish(Lex(l, s)).tokens == Finish(Lex(Finish(l), s)).tokens
    ensures s != "" ==> Lex(l, s) == Lex(Finish(l), s)
  {
    if s != "" {
      assert s == s[..1] + s[1..] && s[..1] == [s[0]];
      LexConcat(l, s[..1], s[1..]);
      LexConcat(Finish(l), s[..1], s[1..]);
      LexOne(l, s[0]);
      LexOne(Finish(l), s[0]);
    }
  }

  /** Between any two pieces of text that leave the shell between words, a quoted value is exactly
      one word with exactly the value's characters, none of them open to expansion. */
  lemma QuotedValueIsOneWord(before: string, s: string, after: string)
    requires BetweenWords(before) && EndsWord(after)
    ensures Tokens(before + AgentQuote(s) + after)
         == Tokens(before) + [Word(Literals(s))] + Tokens(after)
    ensures Tokens(before + PanelQuote(s) + after)
         == Tokens(before) + [Word(Literals(s))] + Tokens(after)
  {
    QuotingIsUndone(Lex(START, before), s);
    PushedWord(before, AgentQuote(s), s, after);
    PushedWord(before, PanelQuote(s), s, after);
  }

  lemma PushedWord(before: string, quoted: string, s: string, after: string)
    requires BetweenWords(before) && EndsWord(after)
    requires Lex(Lex(START, before), quoted) == Push(Lex(START, before), Literals(s))
    ensures Tokens(before + quoted + after)
         == Tokens(before) + [Word(Literals(s))] + Tokens(after)
  {
    var l := Lex(START, before);
    var m := Push(l, Literals(s));
    assert Read(l) == [] && Read(l) + Literals(s) == Literals(s);
    LexConcat(START, before, quoted);
    LexConcat(START, before + quoted, after);
    EndOfWord(m, after);
    assert Finish(m) == START.(tokens := Tokens(before) + [Word(Literals(s))]);
    Continue(Tokens(before) + [Word(Literals(s))], after);
  }

  // ---------------------------------------------------------------- nested commands

  /** Text that the tokenizer reads without leaving the unquoted mode. */
  predicate IsPlain(s: string) {
    forall i | 0 <= i < |s| :: s[i] != '\'' && s[i] != '"' && s[i] != '\\' && s[i] != '#'
  }

  lemma {:induction false} PlainText(l: Lexer, s: string)
    requires l.mode.Bare? && IsPlain(s)
    ensures Lex(l, s).mode.Bare?
    ensures s != "" && IsBlank(s[|s| - 1]) ==> Lex(l, s).word.None?
  {
    if s != "" {
      PlainText(l, s[..|s| - 1]);
    }
  }

  lemma {:induction false} DoubleQuoted(l: Lexer, s: string)
    requires l.mode.Double?
    requires forall i | 0 <= i < |s| :: s[i] != '"' && s[i] != '\\'
    ensures Lex(l, s).mode.Double?
  {
    if s != "" {
      DoubleQuoted(l, s[..|s| - 1]);
    }
  }

  /** The command line of a remote execution: a login shell that runs the command it is given. */
  function Wrapped(command: string): string { "bash -lc " + PanelQuote(command) }

  /** The shell at the other end passes the command on unchanged, as one literal word. */
  lemma WrappedCommandIsUnchanged(command: string)
    ensures Tokens(Wrapped(command)) == Tokens("bash -lc ") + [Word(Literals(command))]
  {
    PlainText(START, "bash -lc ");
    QuotedValueIsOneWord("bash -lc ", command, "");
    assert Wrapped(command) == "bash -lc " + PanelQuote(command) + "";
  }

  /** A template with a quoted value between each two of its pieces. */
  function Fill(pieces: seq<string>, values: seq<string>): string
    requires |pieces| == |values| + 1
  {
    if values == [] then pieces[0]
    else
      var n := |values|;
      Fill(pieces[..n], values[..n - 1]) + PanelQuote(values[n - 1]) + pieces[n]
  }

  /** The tokens of each piece on its own, with one literal word for each value. */
  function Filled(pieces: seq<string>, values: seq<string>): seq<Token>
    requires |pieces| == |values| + 1
  {
    if values == [] then Tokens(pieces[0])
    else
      var n := |values|;
      Filled(pieces[..n], values[..n - 1]) + [Word(Literals(values[n - 1]))] + Tokens(pieces[n])
  }

  /** Each value starts between words and the piece after it ends its word. */
  predicate IsTemplate(pieces: seq<string>) {
    && (forall i | 0 <= i < |pieces| - 1 :: BetweenWords(pieces[i]))
    && (forall i | 0 < i < |pieces| :: pieces[i] != "" && EndsWord(pieces[i]))
  }

  lemma {:induction false} TemplateIsExact(pieces: seq<string>, values: seq<string>)
    requires |pieces| == |values| + 1 && IsTemplate(pieces)
    ensures Tokens(Fill(pieces, values)) == Filled(pieces, values)
    ensures BetweenWords(pieces[|values|]) ==> BetweenWords(Fill(pieces, values))
  {
    if values != [] {
      var n := |values|;
      TemplateIsExact(pieces[..n], values[..n - 1]);
      var before, v, last := Fill(pieces[..n], values[..n - 1]), values[n - 1], pieces[n];
      assert pieces[..n][n - 1] == pieces[n - 1];
      QuotedValueIsOneWord(before, v, last);
      LexConcat(START, before, PanelQuote(v));
      LexConcat(START, before + PanelQuote(v), last);
      var l := Lex(START, before);
      QuotingIsUndone(l, v);
      EndOfWord(Push(l, Literals(v)), last);
      Continue(Finish(Push(l, Literals(v))).tokens, last);
    }
  }

  const ROOT_TEST := "if [ "
  const USER_ID := "$(id -u)"
  const IS_ROOT := " -eq 0 ]; then "
  const RUN := "bash -lc "
  const HAS_SUDO := "; elif command -v sudo "
  const SILENT := ">/dev/null 2>&1; then "
  const IF_ROOT := ROOT_TEST + "\"" + USER_ID + "\"" + (IS_ROOT + RUN)
  const ELSE_SUDO := HAS_SUDO + SILENT + "sudo -n " + RUN
  const ELSE_PRINTF := HAS_SUDO + SILENT + "printf " + "'" + "%s\\n" + "'" + " "
  const PIPE_SUDO := " | sudo -S -p " + "'" + "" + "'" + (" " + RUN)
  const OR_ECHO := " || { echo "
  const FAIL_ELSE := " >&2; exit 1; }; else echo "
  const FAIL := " >&2; exit 1; fi"

  function Pieces(password: Option<string>): seq<string> {
    match password
    case Some(_) => [IF_ROOT, ELSE_PRINTF, PIPE_SUDO, OR_ECHO, FAIL_ELSE, FAIL]
    case None => [IF_ROOT, ELSE_SUDO, OR_ECHO, FAIL_ELSE, FAIL]
  }

  function Values(script: string, password: Option<string>, hint: string): seq<string> {
    match password
    case Some(p) => [script, p, script, hint, hint]
    case None => [script, script, hint, hint]
  }

  /** The stored password, if it is not blank, with its white space as it is. */
  function Stored(password: string): Option<string> {
    if Trim(password) == "" then None else Some(password)
  }

  /** The trimmed hint, or the built-in one for a blank hint. */
  function HintOr(hint: string, standard: string): string {
    if Trim(hint) == "" then standard else Trim(hint)
  }

  /** The command that runs a script as root, directly or through sudo; sudo reads its password,
      when one is stored, from the printf in front of it. */
  function Privileged(script: string, password: string, hint: string, standard: string): string {
    if Trim(script) == "" then ""
    else
      var stored := Stored(password);
      Fill(Pieces(stored), Values(Trim(script), stored, HintOr(hint, standard)))
  }

  lemma PlainPiece(s: string)
    requires IsPlain(s) && s != "" && IsBlank(s[|s| - 1])
    ensures BetweenWords(s)
  {
    PlainText(START, s);
  }

  lemma SudoFits()
    ensures IsPlain(HAS_SUDO + SILENT) && BetweenWords(ELSE_SUDO)
  {
    assert IsPlain(HAS_SUDO) && IsPlain(SILENT);
    assert IsPlain("sudo -n ") && IsPlain(RUN);
    assert ELSE_SUDO == HAS_SUDO + SILENT + "sudo -n " + RUN;
    PlainPiece(ELSE_SUDO);
  }

  lemma RootTestFits()
    ensures BetweenWords(IF_ROOT)
  {
    var a, b, c := ROOT_TEST, USER_ID, IS_ROOT + RUN;
    assert IsPlain(a) && IsPlain(IS_ROOT) && IsPlain(RUN);
    assert IsPlain(c) && IsBlank(c[|c| - 1]);
    DoubleQuotedPiece(a, b, c);
  }

  lemma DoubleQuotedPiece(a: string, b: string, c: string)
    requires IsPlain(a) && IsPlain(c) && c != "" && IsBlank(c[|c| - 1])
    requires forall i | 0 <= i < |b| :: b[i] != '"' && b[i] != '\\'
    ensures BetweenWords(a + "\"" + b + "\"" + c)
  {
    var quote := "\"";
    PlainText(START, a);
    LexSnoc(START, a, '"');
    LexConcat(START, a + quote, b);
    DoubleQuoted(Lex(START, a + quote), b);
    LexSnoc(START, a + quote + b, '"');
    LexConcat(START, a + quote + b + quote, c);
    PlainText(Lex(START, a + quote + b + quote), c);
  }

  lemma SingleQuotedPiece(a: string, b: string, c: string)
    requires IsPlain(a) && IsPlain(c) && c != "" && IsBlank(c[|c| - 1])
    requires forall i | 0 <= i < |b| :: b[i] != '\''
    ensures BetweenWords(a + "'" + b + "'" + c)
  {
    PlainText(START, a);
    NoQuotes(b);
    var q := PanelQuote(b);
    assert a + "'" + b + "'" + c == a + q + c;
    LexConcat(START, a, q);
    QuotingIsUndone(Lex(START, a), b);
    assert Lex(START, a + q).mode.Bare?;
    LexConcat(START, a + q, c);
    PlainText(Lex(START, a + q), c);
  }

  lemma {:induction false} NoQuotes(s: string)
    requires forall i | 0 <= i < |s| :: s[i] != '\''
    ensures ReplaceQuotes(s, "'\\''") == s
  {
    if s != "" {
      var front := s[..|s| - 1];
      NoQuotes(front);
      assert s == front + [s[|s| - 1]];
    }
  }

  lemma PrintfFits()
    ensures BetweenWords(ELSE_PRINTF)
  {
    SudoFits();
    assert IsPlain(HAS_SUDO + SILENT + "printf ") by { assert IsPlain("printf "); }
    SingleQuotedPiece(HAS_SUDO + SILENT + "printf ", "%s\\n", " ");
  }

  lemma PipeFits()
    ensures BetweenWords(PIPE_SUDO)
  {
    assert IsPlain(" | sudo -S -p ") && IsPlain(RUN);
    SingleQuotedPiece(" | sudo -S -p ", "", " " + RUN);
  }

  lemma EchoFits()
    ensures BetweenWords(OR_ECHO) && BetweenWords(FAIL_ELSE)
  {
    PlainPiece(OR_ECHO);
    PlainPiece(FAIL_ELSE);
  }

  predicate Follows(s: string) { s != "" && EndsWord(s) }

  lemma PiecesFollow()
    ensures Follows(ELSE_SUDO) && Follows(ELSE_PRINTF) && Follows(PIPE_SUDO)
    ensures Follows(OR_ECHO) && Follows(FAIL_ELSE) && Follows(FAIL)
  {
    assert HAS_SUDO[0] == ';';
    assert ELSE_SUDO[0] == ';' && ELSE_PRINTF[0] == ';' && PIPE_SUDO[0] == ' ';
    assert OR_ECHO[0] == ' ' && FAIL_ELSE[0] == ' ' && FAIL[0] == ' ';
  }

  lemma FourPieces(a: string, b: string, c: string, d: string, e: string)
    requires BetweenWords(a) && BetweenWords(b) && BetweenWords(c) && BetweenWords(d)
    requires Follows(b) && Follows(c) && Follows(d) && Follows(e)
    ensures IsTemplate([a, b, c, d, e])
  {
  }

  lemma FivePieces(a: string, b: string, c: string, d: string, e: string, f: string)
    requires BetweenWords(a) && BetweenWords(b) && BetweenWords(c) && BetweenWords(d)
    requires BetweenWords(e) && Follows(b) && Follows(c) && Follows(d) && Follows(e) && Follows(f)
    ensures IsTemplate([a, b, c, d, e, f])
  {
  }

  lemma PiecesFit(password: Option<string>)
    ensures IsTemplate(Pieces(password))
  {
    SudoFits();
    RootTestFits();
    PrintfFits();
    PipeFits();
    EchoFits();
    PiecesFollow();
    FivePieces(IF_ROOT, ELSE_PRINTF, PIPE_SUDO, OR_ECHO, FAIL_ELSE, FAIL);
    FourPieces(IF_ROOT, ELSE_SUDO, OR_ECHO, FAIL_ELSE, FAIL);
  }

  /** Nested quoting: the outer shell hands the whole command to the inner one as one literal word,
      and the inner one reads the trimmed script, the password and the hint each as one literal
      word in its place, whatever characters they contain. */
  lemma NestedValuesAreUnchanged(script: string, password: string, hint: string, standard: string)
    requires Trim(script) != ""
    ensures var command := Privileged(script, password, hint, standard);
            var stored, said := Stored(password), HintOr(hint, standard);
            && Tokens(Wrapped(command)) == Tokens("bash -lc ") + [Word(Literals(command))]
            && Tokens(command) == Filled(Pieces(stored), Values(Trim(script), stored, said))
  {
    var stored, values := Stored(password),
                          Values(Trim(script), Stored(password), HintOr(hint, standard));
    WrappedCommandIsUnchanged(Privileged(script, password, hint, standard));
    PiecesFit(stored);
    TemplateIsExact(Pieces(stored), values);
  }
}
