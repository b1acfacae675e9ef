/** ShellQuote and the argument lists built from it, read back by the rules of the POSIX shell. */
module ShellQuoting {
  import opened Text
  import opened EnvFiles

  function ShellQuote(value: string): string {
    "'" + ReplaceAll(value, '\'', "'\\''") + "'"
  }

  /** composeServiceArguments: each service quoted, joined by single spaces. */
  function Arguments(services: seq<string>): string {
    if services == [] then ""
    else if |services| == 1 then ShellQuote(services[0])
    else Arguments(services[..|services| - 1]) + " " + ShellQuote(services[|services| - 1])
  }

  // ---- the shell: sections 2.2, 2.2.1, 2.2.2 and 2.3 of the POSIX.1 Shell Command Language ----

  datatype Token = Word(text: string) | Operator(c: char)

  datatype Quoting = Unquoted | Escaped | SingleQuoted | Rejected

  /** The tokens finished so far, the word being read (if one has begun), and the quoting in force. */
  datatype Reader = Reader(tokens: seq<Token>, word: Option<string>, quoting: Quoting)

  const Begin := Reader([], None, Unquoted)

  predicate IsOperator(c: char) {
    c == '|' || c == '&' || c == ';' || c == '<' || c == '>' || c == '(' || c == ')' || c == '\n'
  }

  /** Unquoted, these begin expansions, patterns, comments or double quotes, which this reader refuses. */
  predicate Special(c: char) {
    c == '$' || c == '`' || c == '\"' || c == '*' || c == '?' || c == '[' || c == '#' || c == '~'
  }

  function Begun(word: Option<string>): string {
    if word.Some? then word.value else ""
  }

  function Finish(r: Reader): Reader {
    if r.word.Some? then Reader(r.tokens + [Word(r.word.value)], None, r.quoting) else r
  }

  function ReadChar(r: Reader, c: char): Reader {
    match r.quoting
    case Unquoted =>
      if c == ' ' || c == '\t' then Finish(r)
      else if IsOperator(c) then var f := Finish(r); f.(tokens := f.tokens + [Operator(c)])
      else if c == '\'' then r.(word := Some(Begun(r.word)), quoting := SingleQuoted)
      else if c == '\\' then r.(word := Some(Begun(r.word)), quoting := Escaped)
      else if Special(c) then r.(quoting := Rejected)
      else r.(word := Some(Begun(r.word) + [c]))
    case Escaped =>
      if c == '\n' then r.(quoting := Rejected)
      else r.(word := Some(Begun(r.word) + [c]), quoting := Unquoted)
    case SingleQuoted =>
      if c == '\'' then r.(quoting := Unquoted) else r.(word := Some(Begun(r.word) + [c]))
    case Rejected => r
  }

  function Read(r: Reader, text: string): Reader
    decreases |text|
  {
    if text == "" then r else Read(ReadChar(r, text[0]), text[1..])
  }

  /** The tokens of a command; None where a quote is left open or an expansion would be made. */
  function Tokens(text: string): Option<seq<Token>> {
    var r := Read(Begin, text);
    if r.quoting == Unquoted then Some(Finish(r).tokens) else None
  }

  function AsWords(values: seq<string>): seq<Token> {
    seq(|values|, i requires 0 <= i < |values| => Word(values[i]))
  }

  // ---- reading back ----

  lemma {:induction false} ReadAppend(r: Reader, a: string, b: string)
    ensures Read(r, a + b) == Read(Read(r, a), b)
    decreases |a|
  {
    if a == "" {
      assert a + b == b;
    } else {
      assert (a + b)[0] == a[0] && (a + b)[1..] == a[1..] + b;
      ReadAppend(ReadChar(r, a[0]), a[1..], b);
    }
  }

  lemma ReadTwo(r: Reader, c: char, d: char)
    ensures Read(r, [c, d]) == ReadChar(ReadChar(r, c), d)
  {
    assert [c, d][1..] == [d] && [d][1..] == "";
    assert Read(ReadChar(r, c), [d]) == Read(ReadChar(ReadChar(r, c), d), "");
  }

  /** A quote inside the text closes the quoting, is escaped, and opens it again. */
  lemma EmbeddedQuote(r: Reader)
    requires r.quoting == SingleQuoted && r.word.Some?
    ensures Read(r, "'\\''") == r.(word := Some(r.word.value + "'"))
  {
    var plain := r.(quoting := Unquoted);
    assert "'\\''" == ['\''] + ['\\', '\'', '\''];
    QuoteReads(r, ['\\', '\'', '\'']);
    assert ['\\', '\'', '\''] == ['\\', '\''] + ['\''];
    ReadAppend(plain, ['\\', '\''], ['\'']);
    ReadTwo(plain, '\\', '\'');
    assert ['\''] + "" == ['\''];
    QuoteReads(plain.(word := Some(r.word.value + "'")), "");
  }

  lemma {:induction false} InsideReads(r: Reader, value: string)
    requires r.quoting == SingleQuoted && r.word.Some?
    ensures Read(r, ReplaceAll(value, '\'', "'\\''")) == r.(word := Some(r.word.value + value))
    decreases |value|
  {
    if value == "" {
      assert r.word.value + value == r.word.value;
    } else {
      var first := if value[0] == '\'' then "'\\''" else [value[0]];
      ReadAppend(r, first, ReplaceAll(value[1..], '\'', "'\\''"));
      if value[0] == '\'' {
        EmbeddedQuote(r);
      } else {
        assert Read(r, first) == Read(ReadChar(r, value[0]), first[1..]);
      }
      var next := r.(word := Some(r.word.value + [value[0]]));
      assert Read(r, first) == next;
      InsideReads(next, value[1..]);
      assert next.word.value + value[1..] == r.word.value + value;
    }
  }

  /** Wherever a quoted value stands, it adds exactly its own text to the word being read. */
  lemma QuotedReads(r: Reader, value: string)
    requires r.quoting == Unquoted
    ensures Read(r, ShellQuote(value)) == r.(word := Some(Begun(r.word) + value))
  {
    var inner := ReplaceAll(value, '\'', "'\\''");
    var inside := r.(word := Some(Begun(r.word)), quoting := SingleQuoted);
    var full := inside.(word := Some(Begun(r.word) + value));
    assert ShellQuote(value) == ['\''] + (inner + ['\'']);
    QuoteReads(r, inner + ['\'']);
    ReadAppend(inside, inner, ['\'']);
    InsideReads(inside, value);
    assert ['\''] + "" == ['\''];
    QuoteReads(full, "");
  }

  /** An unescaped single quote opens or closes the quoting. */
  lemma QuoteReads(r: Reader, rest: string)
    requires r.quoting == Unquoted || r.quoting == SingleQuoted
    ensures Read(r, ['\''] + rest)
            == Read(if r.quoting == SingleQuoted then r.(quoting := Unquoted)
                    else r.(word := Some(Begun(r.word)), quoting := SingleQuoted), rest)
  {
    ReadOne(r, '\'', rest);
  }

  lemma ReadOne(r: Reader, c: char, rest: string)
    ensures Read(r, [c] + rest) == Read(ReadChar(r, c), rest)
  {
    assert ([c] + rest)[0] == c && ([c] + rest)[1..] == rest;
  }

  /** ShellQuote(s) is read as one word, s, whatever s holds. */
  lemma QuotedIsOneWord(value: string)
    ensures Tokens(ShellQuote(value)) == Some([Word(value)])
  {
    QuotedReads(Begin, value);
    assert "" + value == value;
    assert Begin.tokens + [Word(value)] == [Word(value)];
  }

  lemma BlankReads(r: Reader)
    requires r.quoting == Unquoted
    ensures Read(r, " ") == Finish(r)
  {
    assert " "[1..] == "";
    assert Read(r, " ") == Read(ReadChar(r, ' '), "");
  }

  /** Between words, an argument list adds its services to the tokens, one word each and in order. */
  lemma {:induction false} ArgumentsRead(r: Reader, services: seq<string>)
    requires r.quoting == Unquoted && r.word == None
    ensures Read(r, Arguments(services)).quoting == Unquoted
    ensures Finish(Read(r, Arguments(services))).tokens == r.tokens + AsWords(services)
    decreases |services|
  {
    if |services| == 1 {
      QuotedReads(r, services[0]);
      assert "" + services[0] == services[0];
    } else if |services| > 1 {
      var init, last := services[..|services| - 1], services[|services| - 1];
      ArgumentsRead(r, init);
      var mid := Read(r, Arguments(init));
      ReadAppend(r, Arguments(init) + " ", ShellQuote(last));
      ReadAppend(r, Arguments(init), " ");
      BlankReads(mid);
      QuotedReads(Finish(mid), last);
      assert "" + last == last;
      assert AsWords(services) == AsWords(init) + [Word(last)];
    }
  }

  /** A command and a list of quoted services is read as the command's tokens and those services. */
  lemma CommandReads(command: string, services: seq<string>)
    requires Tokens(command).Some?
    ensures Tokens(command + " " + Arguments(services)) == Some(Tokens(command).value + AsWords(services))
  {
    var r := Read(Begin, command);
    ReadAppend(Begin, command + " ", Arguments(services));
    ReadAppend(Begin, command, " ");
    BlankReads(r);
    ArgumentsRead(Finish(r), services);
  }

  /** bash -lc with a quoted script: any script arrives as one word. */
  lemma ScriptArrives(script: string)
    ensures Tokens("bash -lc " + ShellQuote(script)) == Some([Word("bash"), Word("-lc"), Word(script)])
  {
    var bash, flag := "bash", "-lc";
    PlainCommand(bash, flag);
    CommandReads(bash + " " + flag, [script]);
    assert Arguments([script]) == ShellQuote(script);
    assert bash + " " + flag + " " + ShellQuote(script) == "bash -lc " + ShellQuote(script);
    assert [Word(bash), Word(flag)] + AsWords([script]) == [Word(bash), Word(flag), Word(script)];
  }

  /** Two stages: the inner shell gets the script back and reads the services quoted inside it unchanged. */
  lemma TwoStagesRead(command: string, services: seq<string>) returns (inner: string)
    requires Tokens(command).Some?
    ensures Tokens("bash -lc " + ShellQuote(command + " " + Arguments(services)))
            == Some([Word("bash"), Word("-lc"), Word(inner)])
    ensures Tokens(inner) == Some(Tokens(command).value + AsWords(services))
  {
    inner := command + " " + Arguments(services);
    CommandReads(command, services);
    ScriptArrives(inner);
  }

  predicate Plain(text: string) {
    text != ""
    && forall i | 0 <= i < |text| ::
         text[i] != ' ' && text[i] != '\t' && text[i] != '\'' && text[i] != '\\'
         && !IsOperator(text[i]) && !Special(text[i])
  }

  lemma {:induction false} PlainReads(r: Reader, text: string)
    requires r.quoting == Unquoted && Plain(text)
    ensures Read(r, text) == r.(word := Some(Begun(r.word) + text))
    decreases |text|
  {
    var next := ReadChar(r, text[0]);
    assert next == r.(word := Some(Begun(r.word) + [text[0]]));
    assert text == [text[0]] + text[1..];
    if |text| > 1 {
      PlainReads(next, text[1..]);
      assert Begun(next.word) + text[1..] == Begun(r.word) + text;
    } else {
      assert text == [text[0]];
    }
  }

  lemma PlainCommand(name: string, flag: string)
    requires Plain(name) && Plain(flag)
    ensures Tokens(name + " " + flag) == Some([Word(name), Word(flag)])
  {
    var r := Read(Begin, name);
    PlainReads(Begin, name);
    assert "" + name == name && "" + flag == flag;
    ReadAppend(Begin, name + " ", flag);
    ReadAppend(Begin, name, " ");
    BlankReads(r);
    assert Finish(r).tokens == [Word(name)];
    PlainReads(Finish(r), flag);
    assert [Word(name)] + [Word(flag)] == [Word(name), Word(flag)];
  }

  /** Different service lists never give the same argument text. */
  lemma ArgumentsInjective(a: seq<string>, b: seq<string>)
    requires Arguments(a) == Arguments(b)
    ensures a == b
  {
    ArgumentsRead(Begin, a);
    ArgumentsRead(Begin, b);
    assert [] + AsWords(a) == AsWords(a) && [] + AsWords(b) == AsWords(b);
    assert |AsWords(a)| == |a| && |AsWords(b)| == |b|;
    forall i | 0 <= i < |a| ensures a[i] == b[i] {
      assert AsWords(a)[i] == Word(a[i]) && AsWords(b)[i] == Word(b[i]);
    }
  }

  /** composeServiceArguments. */
  method ComposeServiceArguments(services: seq<string>) returns (r: string)
    ensures r == Arguments(services)
    ensures Tokens(r) == Some(AsWords(services))
  {
    r := "";
    for i := 0 to |services|
      invariant r == Arguments(services[..i])
    {
      assert services[..i + 1][..i] == services[..i];
      r := if i == 0 then ShellQuote(services[i]) else r + " " + ShellQuote(services[i]);
    }
    assert services[..|services|] == services;
    ArgumentsRead(Begin, services);
    assert [] + AsWords(services) == AsWords(services);
  }
}
