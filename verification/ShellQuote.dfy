/** src/aec_bench/agents/_shell.py: quoting a script as one shell word, read back by the
    quoting rules of the POSIX.1-2017 Shell Command Language, section 2.2. */
module ShellQuote {
  import opened Results

  // --------------------------------------------------------------------------- the quoting

  /** `script.replace("'", "'\"'\"'")`. */
  function Escape(script: string): string {
    if script == [] then []
    else (if script[0] == '\'' then "'\"'\"'" else [script[0]]) + Escape(script[1..])
  }

  function QuoteForShell(script: string): string {
    "'" + Escape(script) + "'"
  }

  // ------------------------------------------------------------------------------ the shell

  datatype Mode = Unquoted | SingleQuoted | DoubleQuoted

  const NUL := 0 as char

  predicate IsBlank(c: char) {
    c == ' ' || c == '\t'
  }

  /** The characters of section 2.2 that mean something else than themselves when unquoted,
      besides the quotes, the escape character and blanks. */
  predicate IsSpecial(c: char) {
    c in ['|', '&', ';', '<', '>', '(', ')', '$', '`', '\n', '*', '?', '[', '#', '~', '=', '%']
  }

  function Extend(word: Option<string>, more: string): Option<string> {
    Some(word.GetOr("") + more)
  }

  function Before(word: string, rest: Option<seq<string>>): Option<seq<string>> {
    if rest.Some? then Some([word] + rest.value) else None
  }

  /** Splits `input` into words and removes the quotes. `word` is the word under
      construction. `None` stands for input that is no list of plain words: an unterminated
      quotation, an expansion, an operator, a pattern, or a NUL, which no command line can hold. */
  function Lex(input: string, mode: Mode, word: Option<string>): Option<seq<string>> {
    if input == [] then
      if !mode.Unquoted? then None else if word.Some? then Some([word.value]) else Some([])
    else
      var c, rest := input[0], input[1..];
      if c == NUL then None
      else match mode
        case Unquoted =>
          if c == '\'' then Lex(rest, SingleQuoted, Extend(word, ""))
          else if c == '"' then Lex(rest, DoubleQuoted, Extend(word, ""))
          else if c == '\\' then
            // Section 2.2.1: a backslash keeps the next character; before a newline it vanishes.
            if rest == [] || rest[0] == NUL then None
            else Lex(rest[1..], Unquoted, if rest[0] == '\n' then word else Extend(word, [rest[0]]))
          else if IsBlank(c) then
            if word.Some? then Before(word.value, Lex(rest, Unquoted, None)) else Lex(rest, Unquoted, None)
          else if IsSpecial(c) then None
          else Lex(rest, Unquoted, Extend(word, [c]))
        case SingleQuoted =>
          // Section 2.2.2: everything is literal up to the next single-quote.
          if c == '\'' then Lex(rest, Unquoted, word) else Lex(rest, SingleQuoted, Extend(word, [c]))
        case DoubleQuoted =>
          // Section 2.2.3: `$` and backquote start expansions, and a backslash keeps only
          // these, itself, the double-quote and the newline.
          if c == '"' then Lex(rest, Unquoted, word)
          else if c == '$' || c == '`' then None
          else if c == '\\' && rest != [] && rest[0] in ['$', '`', '"', '\\'] then
            Lex(rest[1..], DoubleQuoted, Extend(word, [rest[0]]))
          else if c == '\\' && rest != [] && rest[0] == '\n' then Lex(rest[1..], DoubleQuoted, word)
          else Lex(rest, DoubleQuoted, Extend(word, [c]))
  }

  function Words(input: string): Option<seq<string>> {
    Lex(input, Unquoted, None)
  }

  // ---------------------------------------------------------------------------- round trips

  /** The five characters written for a single-quote read back as that quote. */
  lemma EscapedQuote(tail: string, word: string)
    ensures Lex("'\"'\"'" + tail, SingleQuoted, Some(word)) == Lex(tail, SingleQuoted, Some(word + "'"))
  {
    var q1, q2, q3, q4 := "\"'\"'" + tail, "'\"'" + tail, "\"'" + tail, "'" + tail;
    assert ("'\"'\"'" + tail)[1..] == q1 && q1[1..] == q2 && q2[1..] == q3 && q3[1..] == q4 && q4[1..] == tail;
    assert word + "" == word && word + "'" + "" == word + "'";
    assert Lex("'\"'\"'" + tail, SingleQuoted, Some(word)) == Lex(q1, Unquoted, Some(word));
    assert Lex(q1, Unquoted, Some(word)) == Lex(q2, DoubleQuoted, Some(word));
    assert Lex(q2, DoubleQuoted, Some(word)) == Lex(q3, DoubleQuoted, Some(word + "'"));
    assert Lex(q3, DoubleQuoted, Some(word + "'")) == Lex(q4, Unquoted, Some(word + "'"));
  }

  /** Inside the quotation, the escaped text reads as the text itself, up to the first NUL. */
  lemma {:induction false} EscapedText(script: string, tail: string, word: string)
    ensures Lex(Escape(script) + ("'" + tail), SingleQuoted, Some(word)) ==
            if NUL in script then None else Lex(tail, Unquoted, Some(word + script))
  {
    if script == [] {
      assert Escape(script) + ("'" + tail) == "'" + tail && ("'" + tail)[1..] == tail;
      assert word + script == word;
    } else {
      var c := script[0];
      var rest := Escape(script[1..]) + ("'" + tail);
      assert script == [c] + script[1..];
      assert word + [c] + script[1..] == word + script;
      if c == '\'' {
        assert Escape(script) + ("'" + tail) == "'\"'\"'" + rest;
        EscapedQuote(rest, word);
      } else {
        assert Escape(script) + ("'" + tail) == [c] + rest;
        assert ([c] + rest)[1..] == rest;
      }
      EscapedText(script[1..], tail, word + [c]);
    }
  }

  /** Wherever a quoted script stands outside other quotation, the shell appends exactly the
      script to the word it is reading; a NUL in the script is refused. */
  lemma QuotedAnywhere(script: string, tail: string, word: Option<string>)
    ensures Lex(QuoteForShell(script) + tail, Unquoted, word) ==
            if NUL in script then None else Lex(tail, Unquoted, Extend(word, script))
  {
    var input := QuoteForShell(script) + tail;
    assert input[1..] == Escape(script) + ("'" + tail);
    EscapedText(script, tail, word.GetOr(""));
    assert word.GetOr("") + "" == word.GetOr("");
  }

  /** The quoted form is one word, and that word is the script, exactly for the scripts a
      command line can hold at all. */
  lemma QuotedIsOneWord(script: string)
    ensures Words(QuoteForShell(script)) == Some([script]) <==> NUL !in script
    ensures NUL in script ==> Words(QuoteForShell(script)) == None
  {
    QuotedAnywhere(script, [], None);
    assert QuoteForShell(script) + [] == QuoteForShell(script);
    assert "" + script == script;
  }

  /** Quoted arguments with a blank after each. */
  function CommandLine(arguments: seq<string>): string {
    if arguments == [] then [] else QuoteForShell(arguments[0]) + (" " + CommandLine(arguments[1..]))
  }

  /** A whole argument list survives, empty arguments included. */
  lemma {:induction false} ArgumentsRoundTrip(arguments: seq<string>)
    requires forall a :: a in arguments ==> NUL !in a
    ensures Words(CommandLine(arguments)) == Some(arguments)
  {
    if arguments != [] {
      var first, rest := arguments[0], arguments[1..];
      QuotedAnywhere(first, " " + CommandLine(rest), None);
      hide QuoteForShell;
      assert (" " + CommandLine(rest))[1..] == CommandLine(rest) && "" + first == first;
      ArgumentsRoundTrip(rest);
      assert arguments == [first] + rest;
    }
  }
}
