/** The words the inner shell reads in the command that runs a script as root: which value stands
    behind which words of the template. */
module ShellWords {
  import opened Basics
  import opened Text
  import opened ShellQuote

  /** A word written without any quoting. */
  function Bareword(s: string): Token {
    Word(seq(|s|, i requires 0 <= i < |s| => Active(s[i])))
  }

  predicate PlainChar(c: char) {
    !IsBlank(c) && !IsOperator(c) && c != '\'' && c != '"' && c != '\\' && c != '#'
  }

  predicate IsBareword(w: string) { w != "" && forall i | 0 <= i < |w| :: PlainChar(w[i]) }

  lemma BarewordGrows(front: string, c: char)
    ensures Bareword(front + [c]).chars == Bareword(front).chars + [Active(c)]
  {
  }

  lemma PlainStep(l: Lexer, front: string, c: char)
    requires l.mode.Bare? && PlainChar(c)
    ensures Step(Push(l, Bareword(front).chars), c) == Push(l, Bareword(front + [c]).chars)
    ensures Step(l, c) == Push(l, [Active(c)])
  {
    PushTwice(l, Bareword(front).chars, [Active(c)]);
    BarewordGrows(front, c);
  }

  lemma {:induction false} PlainWord(l: Lexer, w: string)
    requires l.mode.Bare? && IsBareword(w)
    ensures Lex(l, w) == Push(l, Bareword(w).chars)
  {
    var front, c := w[..|w| - 1], w[|w| - 1];
    PlainStep(l, front, c);
    assert w == front + [c];
    if front == "" {
      OneBarechar(l, c);
    } else {
      PlainWord(l, front);
    }
  }

  lemma OneBarechar(l: Lexer, c: char)
    requires l.mode.Bare? && PlainChar(c)
    ensures Lex(l, [c]) == Push(l, Bareword([c]).chars)
  {
    LexOne(l, c);
    assert Bareword([c]).chars == [Active(c)];
  }

  /** Text that ends between words, and its tokens. */
  predicate Reads(text: string, tokens: seq<Token>) { Lex(START, text) == START.(tokens := tokens) }

  lemma TextReads(text: string)
    requires BetweenWords(text)
    ensures Reads(text, Tokens(text))
  {
  }

  /** One more bare word and the space behind it. */
  lemma OneWord(text: string, tokens: seq<Token>, w: string, more: string)
    requires Reads(text, tokens) && IsBareword(w) && more == text + w + [' ']
    ensures Reads(more, tokens + [Bareword(w)])
  {
    LexConcat(START, text, w);
    PlainWord(START.(tokens := tokens), w);
    assert [] + Bareword(w).chars == Bareword(w).chars;
    LexSnoc(START, text + w, ' ');
  }

  /** One more word in single quotes and the space behind it. */
  lemma OneQuoted(text: string, tokens: seq<Token>, w: string, more: string)
    requires Reads(text, tokens) && (forall i | 0 <= i < |w| :: w[i] != '\'')
    requires more == text + ("'" + w + "'") + [' ']
    ensures Reads(more, tokens + [Word(Literals(w))])
  {
    NoQuotes(w);
    assert PanelQuote(w) == "'" + w + "'";
    QuotedReads(text, tokens, w);
    LexSnoc(START, text + PanelQuote(w), ' ');
  }

  lemma QuotedReads(text: string, tokens: seq<Token>, w: string)
    requires Reads(text, tokens)
    ensures Lex(START, text + PanelQuote(w)) == START.(tokens := tokens, word := Some(Literals(w)))
  {
    LexConcat(START, text, PanelQuote(w));
    QuotingIsUndone(START.(tokens := tokens), w);
    assert [] + Literals(w) == Literals(w);
  }

  function LoginShell(): seq<Token> { [Bareword("bash"), Bareword("-lc")] }

  function PrintfLine(): seq<Token> { [Bareword("printf"), Word(Literals("%s\\n"))] }

  lemma TwoWords(text: string, a: string, b: string)
    requires BetweenWords(text) && IsBareword(a) && IsBareword(b)
    ensures var more := text + (a + [' '] + b + [' ']);
            Tokens(more) == Tokens(text) + [Bareword(a), Bareword(b)] && BetweenWords(more)
  {
    TextReads(text);
    var first, tokens := text + a + [' '], Tokens(text) + [Bareword(a)];
    OneWord(text, Tokens(text), a, first);
    OneWord(first, tokens, b, text + (a + [' '] + b + [' ']));
    assert tokens + [Bareword(b)] == Tokens(text) + [Bareword(a), Bareword(b)];
  }

  lemma WordAndQuoted(text: string, a: string, b: string)
    requires BetweenWords(text) && IsBareword(a) && forall i | 0 <= i < |b| :: b[i] != '\''
    ensures var more := text + (a + [' '] + ("'" + b + "'") + [' ']);
            Tokens(more) == Tokens(text) + [Bareword(a), Word(Literals(b))] && BetweenWords(more)
  {
    TextReads(text);
    var first, tokens := text + a + [' '], Tokens(text) + [Bareword(a)];
    OneWord(text, Tokens(text), a, first);
    OneQuoted(first, tokens, b, text + (a + [' '] + ("'" + b + "'") + [' ']));
    assert tokens + [Word(Literals(b))] == Tokens(text) + [Bareword(a), Word(Literals(b))];
  }

  lemma RunWords(text: string)
    requires BetweenWords(text)
    ensures Tokens(text + RUN) == Tokens(text) + LoginShell()
  {
    TwoWords(text, "bash", "-lc");
    assert "bash" + [' '] + "-lc" + [' '] == RUN;
  }

  lemma PrintfWords(text: string)
    requires BetweenWords(text)
    ensures Tokens(text + ("printf " + "'" + "%s\\n" + "'" + " ")) == Tokens(text) + PrintfLine()
  {
    WordAndQuoted(text, "printf", "%s\\n");
    assert "printf" + [' '] + ("'" + "%s\\n" + "'") + [' '] == "printf " + "'" + "%s\\n" + "'" + " ";
  }

  lemma EchoWord(text: string)
    requires BetweenWords(text)
    ensures Tokens(text + "echo ") == Tokens(text) + [Bareword("echo")]
  {
    TextReads(text);
    assert text + "echo" + [' '] == text + "echo ";
    OneWord(text, Tokens(text), "echo", text + "echo ");
  }

  // ---------------------------------------------------------------- the other two quotations

  /** A backslash before each character that double quotes leave special. */
  function Escaped(s: string): string {
    if s == "" then ""
    else
      var c := s[|s| - 1];
      Escaped(s[..|s| - 1])
      + if c == '$' || c == '`' || c == '"' || c == '\\' then ['\\', c] else [c]
  }

  /** Inside double quotes an escaped text reads as its own characters, all literal. */
  lemma {:induction false} EscapedBody(l: Lexer, s: string)
    requires l.mode.Double? && l.word.Some?
    ensures Lex(l, Escaped(s)) == Push(l, Literals(s))
  {
    if s == "" {
      PushTwice(l, [], []);
      assert Literals(s) == [];
    } else {
      var front, c := s[..|s| - 1], s[|s| - 1];
      EscapedBody(l, front);
      EscapedChar(Push(l, Literals(front)), Escaped(front), l, c);
      OneMoreLiteral(l, front, c, s);
    }
  }

  lemma OneMoreLiteral(l: Lexer, front: string, c: char, s: string)
    requires s == front + [c]
    ensures Push(Push(l, Literals(front)), [Literal(c)]) == Push(l, Literals(s))
  {
    PushTwice(l, Literals(front), [Literal(c)]);
    assert Literals(s) == Literals(front) + [Literal(c)];
  }

  lemma EscapedChar(m: Lexer, before: string, l: Lexer, c: char)
    requires m.mode.Double? && m == Lex(l, before)
    ensures var e := if c == '$' || c == '`' || c == '"' || c == '\\' then ['\\', c] else [c];
            Lex(l, before + e) == Push(m, [Literal(c)])
  {
    if c == '$' || c == '`' || c == '"' || c == '\\' {
      LexSnoc(l, before, '\\');
      LexSnoc(l, before + ['\\'], c);
      assert before + ['\\'] + [c] == before + ['\\', c];
    } else {
      LexSnoc(l, before, c);
    }
  }

  /** In double quotes a dollar sign or a backquote stays open to expansion, and a backslash before any
      other character but a line break is itself one of the word's characters. */
  lemma DoubleQuotesInside(l: Lexer, c: char)
    requires l.mode.Double?
    ensures c == '$' || c == '`' ==> Lex(l, [c]) == Push(l, [Active(c)])
    ensures c !in {'$', '`', '"', '\\', '\n'} ==>
              Lex(l, ['\\', c]) == Push(l, [Literal('\\'), Literal(c)])
    ensures Lex(l, ['\\', '\n']) == l
  {
    LexOne(l, c);
    LexOne(l, '\\');
    LexSnoc(l, ['\\'], c);
    LexSnoc(l, ['\\'], '\n');
    assert ['\\'] + [c] == ['\\', c] && ['\\'] + ['\n'] == ['\\', '\n'];
  }

  /** A comment runs from a number sign between words to the end of the line. */
  lemma {:induction false} CommentsAreSkipped(tokens: seq<Token>, s: string)
    requires forall i | 0 <= i < |s| :: s[i] != '\n'
    ensures Lex(START.(tokens := tokens), "#" + s) == START.(tokens := tokens, mode := Comment)
    ensures Lex(START.(tokens := tokens), "#" + s + "\n")
         == START.(tokens := tokens + [Operator('\n')])
  {
    var l := START.(tokens := tokens);
    if s == "" {
      LexOne(l, '#');
      assert "#" + s == ['#'];
    } else {
      var front := s[..|s| - 1];
      CommentsAreSkipped(tokens, front);
      LexSnoc(l, "#" + front, s[|s| - 1]);
      assert "#" + s == "#" + front + [s[|s| - 1]];
    }
    LexSnoc(l, "#" + s, '\n');
  }

  // ---------------------------------------------------------------- the pieces

  lemma RootPiece()
    ensures Tokens(IF_ROOT) == Tokens("if [ \"$(id -u)\" -eq 0 ]; then ") + LoginShell()
  {
    assert IsPlain(ROOT_TEST) && IsPlain(IS_ROOT);
    DoubleQuotedPiece(ROOT_TEST, USER_ID, IS_ROOT);
    var text := ROOT_TEST + "\"" + USER_ID + "\"" + IS_ROOT;
    assert text == "if [ \"$(id -u)\" -eq 0 ]; then ";
    RunWords(text);
    assert text + RUN == IF_ROOT;
  }

  lemma SudoTestText()
    ensures HAS_SUDO + SILENT == "; elif command -v sudo >/dev/null 2>&1; then "
    ensures BetweenWords(HAS_SUDO + SILENT)
  {
    SudoFits();
    PlainPiece(HAS_SUDO + SILENT);
  }

  lemma SudoPiece()
    ensures Tokens(ELSE_SUDO)
         == Tokens("; elif command -v sudo >/dev/null 2>&1; then ")
            + [Bareword("sudo"), Bareword("-n")] + LoginShell()
  {
    SudoTestText();
    var text := HAS_SUDO + SILENT;
    TwoWords(text, "sudo", "-n");
    assert "sudo" + [' '] + "-n" + [' '] == "sudo -n ";
    RunWords(text + "sudo -n ");
    assert text + "sudo -n " + RUN == ELSE_SUDO;
  }

  lemma PrintfPiece()
    ensures Tokens(ELSE_PRINTF)
         == Tokens("; elif command -v sudo >/dev/null 2>&1; then ") + PrintfLine()
  {
    SudoTestText();
    var text := HAS_SUDO + SILENT;
    PrintfWords(text);
    assert text + ("printf " + "'" + "%s\\n" + "'" + " ") == ELSE_PRINTF;
  }

  lemma PipePiece()
    ensures Tokens(PIPE_SUDO) == Tokens(" | sudo -S -p '' ") + LoginShell()
  {
    assert IsPlain(" | sudo -S -p ");
    SingleQuotedPiece(" | sudo -S -p ", "", " ");
    var text := " | sudo -S -p " + "'" + "" + "'" + " ";
    assert text == " | sudo -S -p '' ";
    RunWords(text);
    assert text + RUN == PIPE_SUDO;
  }

  lemma OrPiece()
    ensures Tokens(OR_ECHO) == Tokens(" || { ") + [Bareword("echo")]
  {
    PlainPiece(" || { ");
    EchoWord(" || { ");
    assert " || { " + "echo " == OR_ECHO;
  }

  lemma ElsePiece()
    ensures Tokens(FAIL_ELSE) == Tokens(" >&2; exit 1; }; else ") + [Bareword("echo")]
  {
    PlainPiece(" >&2; exit 1; }; else ");
    EchoWord(" >&2; exit 1; }; else ");
    assert " >&2; exit 1; }; else " + "echo " == FAIL_ELSE;
  }

  // ---------------------------------------------------------------- the whole command

  lemma FilledFour(a: string, b: string, c: string, d: string, e: string, v: string, w: string,
                   x: string, y: string)
    ensures Filled([a, b, c, d, e], [v, w, x, y])
         == Tokens(a) + [Word(Literals(v))] + Tokens(b) + [Word(Literals(w))] + Tokens(c)
            + [Word(Literals(x))] + Tokens(d) + [Word(Literals(y))] + Tokens(e)
  {
    var ps, vs := [a, b, c, d, e], [v, w, x, y];
    assert ps[..4] == [a, b, c, d] && vs[..3] == [v, w, x];
    assert [a, b, c, d][..3] == [a, b, c] && [v, w, x][..2] == [v, w];
    assert [a, b, c][..2] == [a, b] && [v, w][..1] == [v];
    assert [a, b][..1] == [a] && [v][..0] == [];
    assert Filled([a], []) == Tokens(a);
    assert Filled([a, b], [v]) == Tokens(a) + [Word(Literals(v))] + Tokens(b);
    assert Filled([a, b, c], [v, w])
        == Filled([a, b], [v]) + [Word(Literals(w))] + Tokens(c);
    assert Filled([a, b, c, d], [v, w, x])
        == Filled([a, b, c], [v, w]) + [Word(Literals(x))] + Tokens(d);
  }

  lemma FilledFive(a: string, b: string, c: string, d: string, e: string, f: string, v: string,
                   w: string, x: string, y: string, z: string)
    ensures Filled([a, b, c, d, e, f], [v, w, x, y, z])
         == Filled([a, b, c, d, e], [v, w, x, y]) + [Word(Literals(z))] + Tokens(f)
  {
    var ps, vs := [a, b, c, d, e, f], [v, w, x, y, z];
    assert ps[..5] == [a, b, c, d, e] && vs[..4] == [v, w, x, y];
  }

  /** With a stored password: root's own login shell runs the script; failing that printf writes the
      password, and nothing else, to sudo, whose login shell runs the script; and both failures print
      the hint. Each value is one literal word behind the words of its place. */
  lemma WordsWithPassword(script: string, password: string, hint: string, standard: string)
    requires Trim(script) != "" && Trim(password) != ""
    ensures var said := if Trim(hint) == "" then standard else Trim(hint);
            Tokens(Privileged(script, password, hint, standard))
            == (Tokens("if [ \"$(id -u)\" -eq 0 ]; then ") + LoginShell())
               + [Word(Literals(Trim(script)))]
               + (Tokens("; elif command -v sudo >/dev/null 2>&1; then ") + PrintfLine())
               + [Word(Literals(password))]
               + (Tokens(" | sudo -S -p '' ") + LoginShell()) + [Word(Literals(Trim(script)))]
               + (Tokens(" || { ") + [Bareword("echo")]) + [Word(Literals(said))]
               + (Tokens(" >&2; exit 1; }; else ") + [Bareword("echo")]) + [Word(Literals(said))]
               + Tokens(" >&2; exit 1; fi")
  {
    NestedValuesAreUnchanged(script, password, hint, standard);
    var s, said := Trim(script), HintOr(hint, standard);
    FilledFive(IF_ROOT, ELSE_PRINTF, PIPE_SUDO, OR_ECHO, FAIL_ELSE, FAIL, s, password, s, said, said);
    FilledFour(IF_ROOT, ELSE_PRINTF, PIPE_SUDO, OR_ECHO, FAIL_ELSE, s, password, s, said);
    RootPiece();
    PrintfPiece();
    PipePiece();
    OrPiece();
    ElsePiece();
    assert FAIL == " >&2; exit 1; fi";
  }

  /** Without a stored password: the same without printf, and sudo does not ask for one. */
  lemma WordsWithoutPassword(script: string, password: string, hint: string, standard: string)
    requires Trim(script) != "" && Trim(password) == ""
    ensures var said := if Trim(hint) == "" then standard else Trim(hint);
            Tokens(Privileged(script, password, hint, standard))
            == (Tokens("if [ \"$(id -u)\" -eq 0 ]; then ") + LoginShell())
               + [Word(Literals(Trim(script)))]
               + (Tokens("; elif command -v sudo >/dev/null 2>&1; then ")
                  + [Bareword("sudo"), Bareword("-n")] + LoginShell()) + [Word(Literals(Trim(script)))]
               + (Tokens(" || { ") + [Bareword("echo")]) + [Word(Literals(said))]
               + (Tokens(" >&2; exit 1; }; else ") + [Bareword("echo")]) + [Word(Literals(said))]
               + Tokens(" >&2; exit 1; fi")
  {
    NestedValuesAreUnchanged(script, password, hint, standard);
    var s, said := Trim(script), HintOr(hint, standard);
    FilledFour(IF_ROOT, ELSE_SUDO, OR_ECHO, FAIL_ELSE, FAIL, s, s, said, said);
    RootPiece();
    SudoPiece();
    OrPiece();
    ElsePiece();
    assert FAIL == " >&2; exit 1; fi";
  }
}
