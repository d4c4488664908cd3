/** Shell quoting (internal/ssh/commands.go) against the quoting rules of
    sections 2.2 and 2.3 of the POSIX.1-2017 Shell Command Language. */
module ShellQuoting {
  import opened Common

  // ---------------------------------------------------------------- printer

  const QUOTED_QUOTE: string := "'\"'\"'"

  /** strings.ReplaceAll(arg, "'", QUOTED_QUOTE). */
  function ReplaceQuotes(arg: string): string {
    if arg == "" then ""
    else (if arg[0] == '\'' then QUOTED_QUOTE else [arg[0]]) + ReplaceQuotes(arg[1..])
  }

  function ShellQuote(arg: string): string {
    if arg == "" then "''" else "'" + ReplaceQuotes(arg) + "'"
  }

  // ----------------------------------------------------------------- parser

  /** A character of a word: Literal when quoting removed its meaning, Active
      when the shell may still expand, glob or split on it. */
  datatype Piece = Literal(c: char) | Active(c: char)

  datatype Token = Word(pieces: seq<Piece>) | Operator(c: char)

  datatype Mode = Unquoted | Escaped | SingleQuoted | DoubleQuoted | DoubleEscaped | Comment

  /** The word being built (None between words) and the tokens already delimited. */
  datatype Scanner = Scanner(mode: Mode, word: Option<seq<Piece>>, tokens: seq<Token>) {
    function Text(): seq<Piece> { if word.Some? then word.value else [] }

    function Add(pieces: seq<Piece>): Scanner { this.(word := Some(Text() + pieces)) }

    function EndWord(): Scanner {
      if word.Some? then this.(word := None, tokens := tokens + [Word(word.value)]) else this
    }
  }

  const START: Scanner := Scanner(Unquoted, None, [])

  predicate IsBlank(c: char) { c == ' ' || c == '\t' }

  predicate IsOperator(c: char) { c in "&|;<>()\n" }

  function Step(s: Scanner, c: char): Scanner {
    match s.mode
    case Unquoted =>
      if c == '\\' then s.(mode := Escaped)
      else if c == '\'' then s.Add([]).(mode := SingleQuoted)
      else if c == '"' then s.Add([]).(mode := DoubleQuoted)
      else if IsBlank(c) then s.EndWord()
      else if IsOperator(c) then var e := s.EndWord(); e.(tokens := e.tokens + [Operator(c)])
      else if c == '#' && s.word.None? then s.(mode := Comment)
      else s.Add([Active(c)])
    case Escaped =>
      if c == '\n' then s.(mode := Unquoted) else s.Add([Literal(c)]).(mode := Unquoted)
    case SingleQuoted =>
      if c == '\'' then s.(mode := Unquoted) else s.Add([Literal(c)])
    case DoubleQuoted =>
      if c == '"' then s.(mode := Unquoted)
      else if c == '\\' then s.(mode := DoubleEscaped)
      else if c == '$' || c == '`' then s.Add([Active(c)])
      else s.Add([Literal(c)])
    case DoubleEscaped =>
      if c == '\n' then s.(mode := DoubleQuoted)
      else if c in "$`\"\\" then s.Add([Literal(c)]).(mode := DoubleQuoted)
      else s.Add([Literal('\\'), Literal(c)]).(mode := DoubleQuoted)
    case Comment =>
      if c == '\n' then s.(mode := Unquoted, tokens := s.tokens + [Operator(c)]) else s
  }

  function Scan(s: Scanner, text: string): Scanner
    decreases |text|
  {
    if text == "" then s else Scan(Step(s, text[0]), text[1..])
  }

  /** The tokens of a complete command line. */
  function Tokens(text: string): seq<Token> { Scan(START, text).EndWord().tokens }

  function Literals(text: string): seq<Piece> {
    seq(|text|, i requires 0 <= i < |text| => Literal(text[i]))
  }

  // ------------------------------------------------------------- properties

  lemma {:induction false} ScanAppend(s: Scanner, a: string, b: string)
    ensures Scan(s, a + b) == Scan(Scan(s, a), b)
    decreases |a|
  {
    if a == "" {
      assert a + b == b;
    } else {
      assert (a + b)[1..] == a[1..] + b;
      ScanAppend(Step(s, a[0]), a[1..], b);
    }
  }

  lemma ScanOne(s: Scanner, c: char, rest: string)
    ensures Scan(s, [c] + rest) == Scan(Step(s, c), rest)
  {
    assert ([c] + rest)[1..] == rest;
  }

  lemma ScanEmpty(s: Scanner)
    ensures Scan(s, "") == s
  {}

  lemma QuoteOpens(s: Scanner)
    requires s.mode == Unquoted
    ensures Step(s, '\'') == Scanner(SingleQuoted, Some(s.Text()), s.tokens)
  {
    assert s.Text() + [] == s.Text();
  }

  lemma InsideQuotes(w: seq<Piece>, t: seq<Token>, c: char)
    ensures Step(Scanner(SingleQuoted, Some(w), t), c)
         == if c == '\'' then Scanner(Unquoted, Some(w), t) else Scanner(SingleQuoted, Some(w + [Literal(c)]), t)
  {}

  /** Leaving single quotes, quoting the quote in double quotes and re-entering. */
  lemma ScanQuotedQuote(w: seq<Piece>, t: seq<Token>)
    ensures Scan(Scanner(SingleQuoted, Some(w), t), QUOTED_QUOTE)
         == Scanner(SingleQuoted, Some(w + [Literal('\'')]), t)
  {
    var s0 := Scanner(SingleQuoted, Some(w), t);
    assert QUOTED_QUOTE == ['\''] + (['"'] + (['\''] + (['"'] + (['\''] + []))));
    ScanOne(s0, '\'', ['"'] + (['\''] + (['"'] + (['\''] + []))));
    var s1 := Scanner(Unquoted, Some(w), t);
    ScanOne(s1, '"', ['\''] + (['"'] + (['\''] + [])));
    assert w + [] == w;
    var s2 := Scanner(DoubleQuoted, Some(w), t);
    ScanOne(s2, '\'', ['"'] + (['\''] + []));
    var s3 := Scanner(DoubleQuoted, Some(w + [Literal('\'')]), t);
    ScanOne(s3, '"', ['\''] + []);
    var s4 := Scanner(Unquoted, Some(w + [Literal('\'')]), t);
    ScanOne(s4, '\'', []);
    assert (w + [Literal('\'')]) + [] == w + [Literal('\'')];
  }

  /** What one character of the argument becomes adds that character, literally. */
  lemma ScanHead(w: seq<Piece>, t: seq<Token>, c: char)
    ensures Scan(Scanner(SingleQuoted, Some(w), t), if c == '\'' then QUOTED_QUOTE else [c])
         == Scanner(SingleQuoted, Some(w + [Literal(c)]), t)
  {
    hide Scan, Step;
    if c == '\'' {
      ScanQuotedQuote(w, t);
    } else {
      assert [c] == [c] + "";
      ScanOne(Scanner(SingleQuoted, Some(w), t), c, "");
      InsideQuotes(w, t, c);
      ScanEmpty(Scanner(SingleQuoted, Some(w + [Literal(c)]), t));
    }
  }

  lemma {:induction false} ScanReplaced(w: seq<Piece>, t: seq<Token>, arg: string)
    ensures Scan(Scanner(SingleQuoted, Some(w), t), ReplaceQuotes(arg))
         == Scanner(SingleQuoted, Some(w + Literals(arg)), t)
    decreases |arg|
  {
    if arg == "" {
      assert w + Literals(arg) == w;
    } else {
      hide Scan, Step;
      var head := if arg[0] == '\'' then QUOTED_QUOTE else [arg[0]];
      ScanAppend(Scanner(SingleQuoted, Some(w), t), head, ReplaceQuotes(arg[1..]));
      ScanHead(w, t, arg[0]);
      ScanReplaced(w + [Literal(arg[0])], t, arg[1..]);
      assert (w + [Literal(arg[0])]) + Literals(arg[1..]) == w + Literals(arg);
    }
  }

  /** From any unquoted point, the quoted argument contributes exactly its own
      characters, all literal, to the current word, and the text after it is
      scanned from an unquoted state that depends on arg only through that word. */
  lemma QuotedArgumentScans(s: Scanner, arg: string, rest: string)
    requires s.mode == Unquoted
    ensures Scan(s, ShellQuote(arg) + rest) == Scan(s.Add(Literals(arg)), rest)
    ensures s.Add(Literals(arg)).mode == Unquoted
  {
    var body := ReplaceQuotes(arg);
    var close := ['\''] + rest;
    assert ShellQuote(arg) + rest == ['\''] + (body + close);
    hide Scan, Step, ShellQuote, ReplaceQuotes, Literals;
    var w := s.Text();
    ScanOne(s, '\'', body + close);
    QuoteOpens(s);
    ScanAppend(Scanner(SingleQuoted, Some(w), s.tokens), body, close);
    ScanReplaced(w, s.tokens, arg);
    ScanOne(Scanner(SingleQuoted, Some(w + Literals(arg)), s.tokens), '\'', rest);
    InsideQuotes(w + Literals(arg), s.tokens, '\'');
  }

  lemma {:induction false} ScanKeepsTokens(s: Scanner, done: seq<Token>, text: string)
    ensures Scan(s.(tokens := done + s.tokens), text)
         == Scan(s, text).(tokens := done + Scan(s, text).tokens)
    decreases |text|
  {
    if text == "" {
    } else {
      var n := Step(s, text[0]);
      assert Step(s.(tokens := done + s.tokens), text[0]) == n.(tokens := done + n.tokens) by {
        if s.word.Some? {
          assert (done + s.tokens) + [Word(s.word.value)] == done + (s.tokens + [Word(s.word.value)]);
          assert (done + (s.tokens + [Word(s.word.value)])) + [Operator(text[0])]
              == done + ((s.tokens + [Word(s.word.value)]) + [Operator(text[0])]);
        }
        assert (done + s.tokens) + [Operator(text[0])] == done + (s.tokens + [Operator(text[0])]);
      }
      ScanKeepsTokens(n, done, text[1..]);
    }
  }

  /** A point where one word has just ended. */
  predicate AtBoundary(prefix: string) {
    var s := Scan(START, prefix);
    s.mode == Unquoted && s.word.None?
  }

  /** A blank or an operator ends the word under construction. */
  lemma DelimiterEndsWord(done: seq<Token>, w: seq<Piece>, c: char)
    requires IsBlank(c) || IsOperator(c)
    ensures var first := Step(START, c);
            Step(Scanner(Unquoted, Some(w), done), c) == first.(tokens := (done + [Word(w)]) + first.tokens)
  {}

  lemma WordThenSuffix(done: seq<Token>, w: seq<Piece>, suffix: string)
    requires suffix != "" && (IsBlank(suffix[0]) || IsOperator(suffix[0]))
    ensures var e := Scan(START, suffix);
            Scan(Scanner(Unquoted, Some(w), done), suffix) == e.(tokens := (done + [Word(w)]) + e.tokens)
  {
    var c, rest := suffix[0], suffix[1..];
    assert suffix == [c] + rest;
    ScanOne(Scanner(Unquoted, Some(w), done), c, rest);
    ScanOne(START, c, rest);
    DelimiterEndsWord(done, w, c);
    hide Scan, Step;
    ScanKeepsTokens(Step(START, c), done + [Word(w)], rest);
  }

  lemma EndWordKeepsTokens(e: Scanner, done: seq<Token>)
    ensures e.(tokens := done + e.tokens).EndWord().tokens == done + e.EndWord().tokens
  {
    if e.word.Some? {
      assert (done + e.tokens) + [Word(e.word.value)] == done + (e.tokens + [Word(e.word.value)]);
    }
  }

  /** Between a prefix ending at a word boundary and a suffix starting with a
      blank or an operator, the quoted argument is exactly one word, all of it
      literal, and the tokens before and after it do not depend on it. */
  lemma QuotedArgumentIsOneWord(prefix: string, arg: string, suffix: string)
    requires AtBoundary(prefix)
    requires suffix != "" && (IsBlank(suffix[0]) || IsOperator(suffix[0]))
    ensures Tokens(prefix + ShellQuote(arg) + suffix)
         == Tokens(prefix) + [Word(Literals(arg))] + Tokens(suffix)
  {
    hide Scan, Step, ShellQuote, Literals, IsBlank, IsOperator;
    var s := Scan(START, prefix);
    assert prefix + ShellQuote(arg) + suffix == prefix + (ShellQuote(arg) + suffix);
    ScanAppend(START, prefix, ShellQuote(arg) + suffix);
    QuotedArgumentScans(s, arg, suffix);
    assert [] + Literals(arg) == Literals(arg);
    WordThenSuffix(s.tokens, Literals(arg), suffix);
    EndWordKeepsTokens(Scan(START, suffix), s.tokens + [Word(Literals(arg))]);
  }

  /** Parsing undoes quoting: the literal text of the one parsed word is the argument. */
  function WordText(t: Token): string
    requires t.Word?
  {
    seq(|t.pieces|, i requires 0 <= i < |t.pieces| => t.pieces[i].c)
  }

  lemma QuoteRoundTrip(arg: string)
    ensures Tokens(ShellQuote(arg)) == [Word(Literals(arg))]
    ensures WordText(Word(Literals(arg))) == arg
  {
    var q := ShellQuote(arg);
    var end := START.Add(Literals(arg));
    assert Scan(START, q) == end by {
      QuotedArgumentScans(START, arg, "");
      assert q + "" == q;
    }
    assert end.word.value == Literals(arg);
    assert end.EndWord().tokens == [Word(Literals(arg))];
  }

  lemma QuoteInjective(a: string, b: string)
    requires ShellQuote(a) == ShellQuote(b)
    ensures a == b
  {
    QuoteRoundTrip(a);
    QuoteRoundTrip(b);
  }

  // ------------------------------------------------ interface-name commands

  predicate IsNameChar(c: char) {
    'a' <= c <= 'z' || 'A' <= c <= 'Z' || '0' <= c <= '9' || c in "_.:-"
  }

  /** validateInterfaceName returning nil: `^[a-zA-Z0-9_.:-]+$` with the empty name refused first. */
  predicate ValidInterfaceName(name: string) {
    name != "" && forall i :: 0 <= i < |name| ==> IsNameChar(name[i])
  }

  const TEST_PREFIX := "if [ -d "
  const TEST_SUFFIX := " ]; then echo true; else echo false; fi"

  function InterfaceExistsCommand(iface: string): string {
    TEST_PREFIX + ShellQuote("/sys/class/net/" + iface) + TEST_SUFFIX
  }

  predicate IsPlain(c: char) {
    !IsOperator(c) && c !in "\\'\"#"
  }

  /** Text without quoting characters, operators and '#' stays unquoted. */
  lemma {:induction false} PlainTextStaysUnquoted(s: Scanner, text: string)
    requires s.mode == Unquoted
    requires forall i :: 0 <= i < |text| ==> IsPlain(text[i])
    ensures Scan(s, text).mode == Unquoted
    decreases |text|
  {
    if text == "" {
    } else {
      assert IsPlain(text[0]);
      assert forall i :: 0 <= i < |text[1..]| ==> text[1..][i] == text[i + 1];
      PlainTextStaysUnquoted(Step(s, text[0]), text[1..]);
    }
  }

  lemma TestPrefixEndsAtBoundary()
    ensures AtBoundary(TEST_PREFIX)
  {
    var stem := "if [ -d";
    assert forall i :: 0 <= i < |stem| ==> IsPlain(stem[i]);
    assert TEST_PREFIX == stem + ([' '] + "");
    PlainPrefixEndsAtBoundary(stem);
  }

  lemma PlainPrefixEndsAtBoundary(stem: string)
    requires forall i :: 0 <= i < |stem| ==> IsPlain(stem[i])
    ensures AtBoundary(stem + ([' '] + ""))
  {
    PlainTextStaysUnquoted(START, stem);
    hide Scan, IsPlain, IsOperator;
    ScanAppend(START, stem, [' '] + "");
    var s := Scan(START, stem);
    ScanOne(s, ' ', "");
    ScanEmpty(Step(s, ' '));
  }

  /** Whatever the interface name, the test command tests exactly one path, and
      every token around that path is the same for all names. */
  lemma InterfaceExistsTestsOnePath(iface: string)
    ensures Tokens(InterfaceExistsCommand(iface))
         == Tokens(TEST_PREFIX) + [Word(Literals("/sys/class/net/" + iface))] + Tokens(TEST_SUFFIX)
  {
    TestPrefixEndsAtBoundary();
    QuotedArgumentIsOneWord(TEST_PREFIX, "/sys/class/net/" + iface, TEST_SUFFIX);
  }

  function Actives(text: string): seq<Piece> {
    seq(|text|, i requires 0 <= i < |text| => Active(text[i]))
  }

  /** A valid interface name has no character that means anything to the shell: unquoted, it is one word. */
  lemma {:induction false} ValidNamesNeedNoQuoting(name: string, s: Scanner)
    requires s.mode == Unquoted && forall i :: 0 <= i < |name| ==> IsNameChar(name[i])
    ensures Scan(s, name) == if name == "" then s else s.Add(Actives(name))
    decreases |name|
  {
    if name == "" {
    } else {
      var n := s.Add([Active(name[0])]);
      assert IsNameChar(name[0]);
      NameCharIsPlain(s, name[0]);
      assert forall i :: 0 <= i < |name[1..]| ==> name[1..][i] == name[i + 1];
      ValidNamesNeedNoQuoting(name[1..], n);
      assert (s.Text() + [Active(name[0])]) + Actives(name[1..]) == s.Text() + Actives(name);
      if name[1..] == "" { assert Actives(name) == [Active(name[0])]; }
      hide Step;
    }
  }

  lemma NameCharIsPlain(s: Scanner, c: char)
    requires s.mode == Unquoted && IsNameChar(c)
    ensures Step(s, c) == s.Add([Active(c)])
  {}
}
