/** The command line handed to a remote shell, and how that shell takes it apart again: token recognition
    and quote removal as in sections 2.2, 2.3 and 2.6.7 of the IEEE Std 1003.1 Shell Command Language. */
module ShellQuoting {
  import opened Json

  // ----- the shell's side -----

  datatype Mode = Plain | Backslash | Single | Double | DoubleBackslash

  /** A word, or one character of an operator such as && or >. */
  datatype Token = Word(text: string) | Operator(symbol: char)

  /** The tokens so far and the word in progress; Refused where the line needs more of the shell: expansions,
      patterns, comments, here-documents, and a number directly before a redirection, which is part of it. */
  datatype Lexer = Lexer(mode: Mode, word: Option<string>, tokens: seq<Token>) | Refused

  const BEGIN := Lexer(Plain, None, [])

  predicate IsBlank(c: char) {
    c == ' ' || c == '\t'
  }

  predicate IsOperator(c: char) {
    c in "|&;()<>\n"
  }

  /** Other characters that mean something to the shell outside quotes. */
  predicate IsSpecial(c: char) {
    c in "$`*?[#~!{}"
  }

  predicate AllDigits(s: string) {
    forall i :: 0 <= i < |s| ==> '0' <= s[i] <= '9'
  }

  /** Right after a "<". */
  predicate AfterLess(word: Option<string>, tokens: seq<Token>) {
    word.None? && tokens != [] && tokens[|tokens| - 1] == Operator('<')
  }

  /** The operator character c is refused here: as part of "<<", or of a redirection with a number. */
  predicate RefusesOperator(word: Option<string>, tokens: seq<Token>, c: char) {
    || (c == '<' && AfterLess(word, tokens))
    || ((c == '<' || c == '>') && word.Some? && word.value != "" && AllDigits(word.value))
  }

  /** The tokens once the word in progress is finished. */
  function Ended(word: Option<string>, tokens: seq<Token>): seq<Token> {
    if word.Some? then tokens + [Word(word.value)] else tokens
  }

  function Extend(word: Option<string>, s: string): Option<string> {
    Some((if word.Some? then word.value else "") + s)
  }

  function LexChar(s: Lexer, c: char): Lexer {
    match s
    case Refused => Refused
    case Lexer(Plain, word, tokens) =>
      if IsBlank(c) then Lexer(Plain, None, Ended(word, tokens))
      else if IsOperator(c) then
        if RefusesOperator(word, tokens, c) then Refused else Lexer(Plain, None, Ended(word, tokens) + [Operator(c)])
      else if c == '\'' then Lexer(Single, Extend(word, ""), tokens)
      else if c == '"' then Lexer(Double, Extend(word, ""), tokens)
      else if c == '\\' then Lexer(Backslash, word, tokens)
      else if IsSpecial(c) then Refused
      else Lexer(Plain, Extend(word, [c]), tokens)
    case Lexer(Backslash, word, tokens) =>
      Lexer(Plain, if c == '\n' then word else Extend(word, [c]), tokens)
    case Lexer(Single, word, tokens) =>
      if c == '\'' then Lexer(Plain, word, tokens) else Lexer(Single, Extend(word, [c]), tokens)
    case Lexer(Double, word, tokens) =>
      if c == '"' then Lexer(Plain, word, tokens)
      else if c == '\\' then Lexer(DoubleBackslash, word, tokens)
      else if c == '$' || c == '`' then Refused
      else Lexer(Double, Extend(word, [c]), tokens)
    case Lexer(DoubleBackslash, word, tokens) =>
      if c in "$`\"\\" then Lexer(Double, Extend(word, [c]), tokens)
      else if c == '\n' then Lexer(Double, word, tokens)
      else Lexer(Double, Extend(word, ['\\', c]), tokens)
  }

  function Lex(s: Lexer, text: string): Lexer
    decreases |text|
  {
    if text == "" then s else Lex(LexChar(s, text[0]), text[1..])
  }

  function Finish(s: Lexer): Option<seq<Token>> {
    match s
    case Lexer(Plain, word, tokens) => Some(Ended(word, tokens))
    case _ => None
  }

  function Words(texts: seq<string>): (r: seq<Token>)
    ensures |r| == |texts| && forall i :: 0 <= i < |r| ==> r[i] == Word(texts[i])
  {
    seq(|texts|, i requires 0 <= i < |texts| => Word(texts[i]))
  }

  /** The words and operators of a line, None if it is anything else. */
  function Split(line: string): Option<seq<Token>> {
    Finish(Lex(BEGIN, line))
  }

  lemma {:induction false} LexAppend(s: Lexer, a: string, b: string)
    ensures Lex(s, a + b) == Lex(Lex(s, a), b)
    decreases |a|
  {
    if a == "" {
      assert a + b == b;
    } else {
      assert (a + b)[1..] == a[1..] + b;
      LexAppend(LexChar(s, a[0]), a[1..], b);
    }
  }

  lemma Lex1(s: Lexer, c: char)
    ensures Lex(s, [c]) == LexChar(s, c)
  {
  }

  lemma Lex3(s: Lexer, a: char, b: char, c: char)
    ensures Lex(s, [a, b, c]) == LexChar(LexChar(LexChar(s, a), b), c)
  {
    assert [a, b, c] == [a] + ([b] + [c]);
    LexAppend(s, [a], [b] + [c]);
    LexAppend(LexChar(s, a), [b], [c]);
    Lex1(s, a);
    Lex1(LexChar(s, a), b);
    Lex1(LexChar(LexChar(s, a), b), c);
  }

  // ----- shlex.quote -----

  predicate IsSafe(c: char) {
    'a' <= c <= 'z' || 'A' <= c <= 'Z' || '0' <= c <= '9' || c in "_@%+=:,./-"
  }

  /** Every single quote as '"'"'. */
  function Escaped(s: string): string {
    if s == "" then "" else (if s[0] == '\'' then "'\"'\"'" else [s[0]]) + Escaped(s[1..])
  }

  predicate AllSafe(s: string) {
    forall i :: 0 <= i < |s| ==> IsSafe(s[i])
  }

  function Quote(s: string): string {
    if s == "" then "''"
    else if AllSafe(s) then s
    else "'" + Escaped(s) + "'"
  }

  /** The lexer with `v`, literally, added to the word in progress. */
  function Insert(s: Lexer, v: string): Lexer {
    if s.Refused? then s else Lexer(s.mode, Extend(s.word, v), s.tokens)
  }

  lemma SafeIsOrdinary(s: Lexer, c: char)
    requires s.Lexer? && s.mode.Plain? && IsSafe(c)
    ensures LexChar(s, c) == Insert(s, [c])
  {
    assert !IsSpecial(c) && !IsOperator(c);
  }

  lemma InsertTwice(s: Lexer, a: string, b: string)
    ensures Insert(Insert(s, a), b) == Insert(s, a + b)
  {
    if s.Lexer? {
      var w := if s.word.Some? then s.word.value else "";
      assert w + a + b == w + (a + b);
    }
  }

  lemma {:induction false} LexSafe(s: Lexer, text: string)
    requires s.Lexer? && s.mode.Plain? && text != "" && AllSafe(text)
    ensures Lex(s, text) == Insert(s, text)
    decreases |text|
  {
    assert text == [text[0]] + text[1..];
    SafeIsOrdinary(s, text[0]);
    LexAppend(s, [text[0]], text[1..]);
    Lex1(s, text[0]);
    if |text| > 1 {
      LexSafe(Insert(s, [text[0]]), text[1..]);
      InsertTwice(s, [text[0]], text[1..]);
    } else {
      assert text == [text[0]];
    }
  }

  /** A quoted single quote inside a single-quoted text. */
  lemma LexQuoteMark(s: Lexer)
    requires s.Lexer? && s.mode.Single? && s.word.Some?
    ensures Lex(s, "'\"'\"'") == Insert(s, "'")
  {
    assert "'\"'\"'" == ['\'', '"', '\''] + ['"', '\''];
    LexAppend(s, ['\'', '"', '\''], ['"', '\'']);
    LexMarkOpened(s);
    LexMarkClosed(Lexer(Double, Some(s.word.value + "'"), s.tokens));
  }

  lemma LexMarkOpened(s: Lexer)
    requires s.Lexer? && s.mode.Single? && s.word.Some?
    ensures Lex(s, ['\'', '"', '\'']) == Lexer(Double, Some(s.word.value + "'"), s.tokens)
  {
    Lex3(s, '\'', '"', '\'');
    var w := s.word.value;
    assert w + "" == w;
  }

  lemma LexMarkClosed(s: Lexer)
    requires s.Lexer? && s.mode.Double? && s.word.Some?
    ensures Lex(s, ['"', '\'']) == Lexer(Single, s.word, s.tokens)
  {
    var w := s.word.value;
    assert w + "" == w;
    assert ['"', '\''] == ['"'] + ['\''];
    LexAppend(s, ['"'], ['\'']);
    Lex1(s, '"');
    Lex1(LexChar(s, '"'), '\'');
  }

  lemma {:induction false} LexEscaped(s: Lexer, text: string)
    requires s.Lexer? && s.mode.Single? && s.word.Some?
    ensures Lex(s, Escaped(text)) == Insert(s, text)
    decreases |text|
  {
    if text == "" {
      assert s.word.value + "" == s.word.value;
    } else {
      var head := if text[0] == '\'' then "'\"'\"'" else [text[0]];
      LexAppend(s, head, Escaped(text[1..]));
      if text[0] == '\'' {
        LexQuoteMark(s);
      } else {
        Lex1(s, text[0]);
      }
      var t := Insert(s, [text[0]]);
      LexEscaped(t, text[1..]);
      InsertTwice(s, [text[0]], text[1..]);
      assert [text[0]] + text[1..] == text;
    }
  }

  /** Outside quotes, a quoted text adds exactly itself to the word in progress. */
  lemma LexQuoted(s: Lexer, text: string)
    requires s.Lexer? && s.mode.Plain?
    ensures Lex(s, Quote(text)) == Insert(s, text)
  {
    var w := if s.word.Some? then s.word.value else "";
    assert w + "" == w;
    if text != "" && AllSafe(text) {
      LexSafe(s, text);
    } else {
      var t := LexChar(s, '\'');
      assert Quote(text) == "'" + (Escaped(text) + "'");
      LexAppend(s, "'", Escaped(text) + "'");
      LexAppend(t, Escaped(text), "'");
      LexEscaped(t, text);
      Lex1(s, '\'');
      Lex1(Insert(t, text), '\'');
    }
  }

  /** shlex.quote does what a caller wants in exactly one place: outside quotes and after no backslash. */
  lemma QuoteWorksIffPlain(s: Lexer)
    requires s.Lexer?
    ensures (forall v :: Lex(s, Quote(v)) == Insert(s, v)) <==> s.mode.Plain?
  {
    if s.mode.Plain? {
      forall v
        ensures Lex(s, Quote(v)) == Insert(s, v)
      {
        LexQuoted(s, v);
      }
    } else {
      QuoteBlank();
      QuotedBlankMisread(s);
    }
  }

  lemma QuoteBlank()
    ensures Quote(" ") == ['\'', ' ', '\'']
  {
    assert !IsSafe(" "[0]);
    assert Escaped(" ") == " " by { assert " "[1..] == ""; }
  }

  lemma QuotedBlankMisread(s: Lexer)
    requires s.Lexer? && !s.mode.Plain?
    ensures Lex(s, ['\'', ' ', '\'']) != Insert(s, " ")
  {
    Lex3(s, '\'', ' ', '\'');
    var t, wanted := Lex(s, ['\'', ' ', '\'']), Insert(s, " ");
    match s.mode
    case Backslash => assert t.mode.Single?;
    case Single => assert t.word == Some("" + ""); assert |wanted.word.value| > 0;
    case Double => assert |t.word.value| == |wanted.word.value| + 2;
    case DoubleBackslash => assert t.mode.Double?;
  }

  // ----- the remote command -----

  /** A command template, taken apart at its {name} placeholders. */
  datatype Piece = Text(text: string) | Placeholder(name: string)

  datatype Param = Param(name: string, text: string)

  datatype Action = Action(command: Option<seq<Piece>>, playbook: Option<string>, script: Option<string>)

  function Lookup(params: seq<Param>, name: string): Option<string> {
    if params == [] then None
    else if params[0].name == name then Some(params[0].text)
    else Lookup(params[1..], name)
  }

  /** template.format with every value quoted; None for a missing parameter. */
  function Render(template: seq<Piece>, params: seq<Param>): Option<string> {
    if template == [] then Some("")
    else
      var rest := Render(template[1..], params);
      if rest.None? then None
      else match template[0]
        case Text(t) => Some(t + rest.value)
        case Placeholder(name) =>
          match Lookup(params, name)
          case None => None
          case Some(v) => Some(Quote(v) + rest.value)
  }

  function Join(parts: seq<string>): string {
    if parts == [] then "" else if |parts| == 1 then parts[0] else parts[0] + " " + Join(parts[1..])
  }

  function QuoteAll(words: seq<string>): seq<string> {
    if words == [] then [] else [Quote(words[0])] + QuoteAll(words[1..])
  }

  function Texts(params: seq<Param>): (r: seq<string>)
    ensures |r| == |params| && forall i :: 0 <= i < |r| ==> r[i] == params[i].text
  {
    if params == [] then [] else [params[0].text] + Texts(params[1..])
  }

  datatype Built = Line(line: string) | MissingParameter | NothingToRun

  /** _build_remote_command; `paramsJson` is json.dumps of the parameters. */
  function BuildRemoteCommand(action: Action, params: seq<Param>, paramsJson: string): Built {
    if action.command.Some? then
      match Render(action.command.value, params)
      case Some(line) => Line(line)
      case None => MissingParameter
    else if action.playbook.Some? then
      Line(Join(["ansible-playbook", Quote(action.playbook.value)]
                + if params != [] then ["--extra-vars", Quote(paramsJson)] else []))
    else if action.script.Some? then
      Line(Join([Quote(action.script.value)] + QuoteAll(Texts(params))))
    else NothingToRun
  }

  // ----- what the line is made of -----

  /** The parameters are the items of the dictionary `values`, in its order. */
  ghost predicate ItemsOf(params: seq<Param>, values: map<string, string>) {
    && (forall i, j :: 0 <= i < j < |params| ==> params[i].name != params[j].name)
    && (forall i :: 0 <= i < |params| ==> params[i].name in values && values[params[i].name] == params[i].text)
    && (forall name :: name in values ==> exists i :: 0 <= i < |params| && params[i].name == name)
  }

  lemma {:induction false} LookupAt(params: seq<Param>, i: nat)
    requires i < |params| && forall j :: 0 <= j < i ==> params[j].name != params[i].name
    ensures Lookup(params, params[i].name) == Some(params[i].text)
    decreases |params|
  {
    if i > 0 {
      assert forall j :: 0 <= j < i - 1 ==> params[1..][j] == params[j + 1];
      LookupAt(params[1..], i - 1);
    }
  }

  lemma {:induction false} LookupNone(params: seq<Param>, name: string)
    requires forall i :: 0 <= i < |params| ==> params[i].name != name
    ensures Lookup(params, name) == None
    decreases |params|
  {
    if params != [] {
      LookupNone(params[1..], name);
    }
  }

  /** A placeholder gets the value of the parameter of its name, if there is one. */
  lemma LookupExactly(params: seq<Param>, values: map<string, string>, name: string)
    requires ItemsOf(params, values)
    ensures Lookup(params, name) == if name in values then Some(values[name]) else None
  {
    if name in values {
      var i :| 0 <= i < |params| && params[i].name == name;
      LookupAt(params, i);
    } else {
      LookupNone(params, name);
    }
  }

  function Concat(parts: seq<string>): string {
    if parts == [] then "" else parts[0] + Concat(parts[1..])
  }

  /** What stands for a piece in the rendered line. */
  function Filled(piece: Piece, values: map<string, string>): string {
    match piece
    case Text(t) => t
    case Placeholder(name) => if name in values then Quote(values[name]) else ""
  }

  ghost predicate PartsOf(template: seq<Piece>, values: map<string, string>, parts: seq<string>) {
    |parts| == |template| && forall i :: 0 <= i < |parts| ==> parts[i] == Filled(template[i], values)
  }

  ghost predicate Provided(template: seq<Piece>, values: map<string, string>) {
    forall i :: 0 <= i < |template| && template[i].Placeholder? ==> template[i].name in values
  }

  /** A template can be filled in exactly if there is a parameter for each of its placeholders; then its texts stay
      as they are and each placeholder becomes its own parameter's value, quoted. */
  lemma {:induction false} RenderExactly(template: seq<Piece>, params: seq<Param>, values: map<string, string>, parts: seq<string>)
    requires ItemsOf(params, values) && PartsOf(template, values, parts)
    ensures Render(template, params) == if Provided(template, values) then Some(Concat(parts)) else None
    decreases |template|
  {
    if template != [] {
      RenderExactly(template[1..], params, values, parts[1..]);
      if template[0].Placeholder? {
        LookupExactly(params, values, template[0].name);
      }
      ProvidedFirst(template, values);
    }
  }

  lemma ProvidedFirst(template: seq<Piece>, values: map<string, string>)
    requires template != []
    ensures Provided(template, values) <==>
      (template[0].Placeholder? ==> template[0].name in values) && Provided(template[1..], values)
  {
    assert forall i :: 0 < i < |template| ==> template[i] == template[1..][i - 1];
  }

  /** A command comes before a playbook and a playbook before a script. A line is built exactly if one of them is
      defined and, for a command, every placeholder has its parameter. */
  lemma BuiltExactly(action: Action, params: seq<Param>, values: map<string, string>, paramsJson: string, parts: seq<string>)
    requires ItemsOf(params, values)
    requires action.command.Some? ==> PartsOf(action.command.value, values, parts)
    ensures var built := BuildRemoteCommand(action, params, paramsJson);
      && (built.NothingToRun? <==> action.command.None? && action.playbook.None? && action.script.None?)
      && (built.MissingParameter? <==> action.command.Some? && !Provided(action.command.value, values))
      && (built.Line? && action.command.Some? ==> built.line == Concat(parts))
  {
    if action.command.Some? {
      RenderExactly(action.command.value, params, values, parts);
    }
  }

  // ----- round trips -----

  lemma WordThenBlank(s: Lexer, word: string)
    requires s.Lexer? && s.mode.Plain? && s.word.None?
    ensures Lex(s, Quote(word)) == Lexer(Plain, Some(word), s.tokens)
    ensures Lex(s, Quote(word) + " ") == Lexer(Plain, None, s.tokens + [Word(word)])
  {
    LexQuoted(s, word);
    assert "" + word == word;
    LexAppend(s, Quote(word), " ");
    Lex1(Insert(s, word), ' ');
  }

  lemma WordsFirst(tokens: seq<Token>, words: seq<string>)
    requires words != []
    ensures tokens + [Word(words[0])] + Words(words[1..]) == tokens + Words(words)
    ensures |words| == 1 ==> Words(words[1..]) == []
  {
  }

  /** A row of quoted words, lexed from between words. */
  lemma {:induction false} LexJoined(s: Lexer, words: seq<string>)
    requires s.Lexer? && s.mode.Plain? && s.word.None?
    ensures Finish(Lex(s, Join(QuoteAll(words)))) == Some(s.tokens + Words(words))
    decreases |words|
  {
    if words == [] {
      assert s.tokens + Words(words) == s.tokens;
    } else {
      WordThenBlank(s, words[0]);
      JoinQuoted(words);
      if |words| == 1 {
        WordsFirst(s.tokens, words);
        assert s.tokens + [Word(words[0])] + [] == s.tokens + [Word(words[0])];
      } else {
        LexAppend(s, Quote(words[0]) + " ", Join(QuoteAll(words[1..])));
        LexJoined(Lexer(Plain, None, s.tokens + [Word(words[0])]), words[1..]);
        WordsFirst(s.tokens, words);
      }
    }
  }

  lemma JoinQuoted(words: seq<string>)
    requires words != []
    ensures Join(QuoteAll(words)) ==
      if |words| == 1 then Quote(words[0]) else Quote(words[0]) + " " + Join(QuoteAll(words[1..]))
  {
  }

  lemma {:induction false} QuoteAllAppend(a: seq<string>, b: seq<string>)
    ensures QuoteAll(a + b) == QuoteAll(a) + QuoteAll(b)
    decreases |a|
  {
    if a == [] {
      assert a + b == b;
    } else {
      assert (a + b)[1..] == a[1..] + b;
      QuoteAllAppend(a[1..], b);
    }
  }

  lemma QuoteOne(word: string)
    ensures QuoteAll([word]) == [Quote(word)]
  {
  }

  /** Script line: the shell sees the script path and then each parameter value, whatever they contain. */
  lemma ScriptRoundTrip(action: Action, params: seq<Param>, paramsJson: string)
    requires action.command.None? && action.playbook.None? && action.script.Some?
    ensures var built := BuildRemoteCommand(action, params, paramsJson);
      built.Line? && Split(built.line) == Some(Words([action.script.value] + Texts(params)))
  {
    var words := [action.script.value] + Texts(params);
    QuoteOne(action.script.value);
    QuoteAllAppend([action.script.value], Texts(params));
    JoinedSplits(words);
  }

  lemma PlainWord(s: string)
    requires s != "" && AllSafe(s)
    ensures Quote(s) == s
  {
  }

  /** Playbook line: the command, the path, and the parameters as one JSON word. */
  lemma PlaybookRoundTrip(action: Action, params: seq<Param>, paramsJson: string)
    requires action.command.None? && action.playbook.Some?
    ensures var built := BuildRemoteCommand(action, params, paramsJson);
      built.Line? && Split(built.line) ==
        Some(Words(["ansible-playbook", action.playbook.value] + if params != [] then ["--extra-vars", paramsJson] else []))
  {
    var head, tail := ["ansible-playbook", action.playbook.value], ["--extra-vars", paramsJson];
    PlainWord("ansible-playbook");
    PlainWord("--extra-vars");
    QuoteTwo("ansible-playbook", action.playbook.value);
    QuoteTwo("--extra-vars", paramsJson);
    QuoteAllAppend(head, tail);
    assert head + [] == head && QuoteAll(head) + [] == QuoteAll(head);
    JoinedSplits(head);
    JoinedSplits(head + tail);
  }

  /** A row of quoted words splits into exactly these words. */
  lemma JoinedSplits(words: seq<string>)
    ensures Split(Join(QuoteAll(words))) == Some(Words(words))
  {
    LexJoined(BEGIN, words);
    assert [] + Words(words) == Words(words);
  }

  lemma QuoteTwo(a: string, b: string)
    ensures QuoteAll([a, b]) == [Quote(a), Quote(b)]
  {
    assert [a, b] == [a] + [b];
    QuoteOne(a);
    QuoteOne(b);
    QuoteAllAppend([a], [b]);
  }

  /** The template lexed with every value inserted as it is. */
  function LexTemplate(s: Lexer, template: seq<Piece>, values: map<string, string>): Lexer
    decreases |template|
  {
    if template == [] then s
    else match template[0]
      case Text(t) => LexTemplate(Lex(s, t), template[1..], values)
      case Placeholder(name) => if name in values then LexTemplate(Insert(s, values[name]), template[1..], values) else Refused
  }

  /** Every placeholder stands outside quotes. The modes do not depend on the values, so this can be
      read off the template. */
  predicate PlaceholdersPlain(s: Lexer, template: seq<Piece>)
    decreases |template|
  {
    template == [] || s.Refused? ||
    (match template[0]
     case Text(t) => PlaceholdersPlain(Lex(s, t), template[1..])
     case Placeholder(_) => s.mode.Plain? && PlaceholdersPlain(Insert(s, "x"), template[1..]))
  }

  /** s is refused, or is in the place where t is: their words may differ, but what is a number in t is the
      same number in s. */
  predicate Follows(s: Lexer, t: Lexer) {
    s.Refused? ||
    (&& t.Lexer? && s.mode == t.mode && s.word.Some? == t.word.Some?
     && AfterLess(s.word, s.tokens) == AfterLess(t.word, t.tokens)
     && (t.word.Some? && AllDigits(t.word.value) ==> s.word == t.word))
  }

  /** Lexers that differ only in what their words are. */
  predicate SameShape(s: Lexer, t: Lexer) {
    Follows(s, t) && Follows(t, s)
  }

  lemma DigitsOfExtended(w: Option<string>, s: string)
    ensures AllDigits(Extend(w, s).value) <==> (w.Some? ==> AllDigits(w.value)) && AllDigits(s)
  {
    var v := if w.Some? then w.value else "";
    assert forall i :: 0 <= i < |v| ==> (v + s)[i] == v[i];
    assert forall i :: 0 <= i < |s| ==> (v + s)[|v| + i] == s[i];
  }

  lemma FollowsChar(s: Lexer, t: Lexer, c: char)
    requires Follows(s, t)
    ensures Follows(LexChar(s, c), LexChar(t, c))
  {
    if s.Lexer? {
      if s.mode.Plain? {
        FollowsPlain(s, t, c);
      } else {
        DigitsOfExtended(t.word, [c]);
        DigitsOfExtended(t.word, ['\\', c]);
      }
    }
  }

  lemma FollowsPlain(s: Lexer, t: Lexer, c: char)
    requires s.Lexer? && s.mode.Plain? && Follows(s, t)
    ensures Follows(LexChar(s, c), LexChar(t, c))
  {
    if IsOperator(c) {
      FollowsOperator(s, t, c);
    } else if IsBlank(c) {
      AfterEnded(s.word, s.tokens);
      AfterEnded(t.word, t.tokens);
    } else {
      DigitsOfExtended(t.word, [c]);
      DigitsOfExtended(t.word, "");
    }
  }

  lemma AfterEnded(word: Option<string>, tokens: seq<Token>)
    ensures AfterLess(None, Ended(word, tokens)) == AfterLess(word, tokens)
  {
  }

  lemma FollowsOperator(s: Lexer, t: Lexer, c: char)
    requires s.Lexer? && s.mode.Plain? && Follows(s, t) && IsOperator(c)
    ensures Follows(LexChar(s, c), LexChar(t, c))
  {
    assert RefusesOperator(t.word, t.tokens, c) ==> RefusesOperator(s.word, s.tokens, c);
  }

  lemma {:induction false} FollowsText(s: Lexer, t: Lexer, text: string)
    requires Follows(s, t)
    ensures Follows(Lex(s, text), Lex(t, text))
    decreases |text|
  {
    if text != "" {
      FollowsChar(s, t, text[0]);
      FollowsText(LexChar(s, text[0]), LexChar(t, text[0]), text[1..]);
    }
  }

  /** A value goes where a letter goes. */
  lemma FollowsInsert(s: Lexer, t: Lexer, v: string)
    requires Follows(s, t)
    ensures Follows(Insert(s, v), Insert(t, "x"))
  {
    if t.Lexer? {
      var w := Extend(t.word, "x").value;
      assert w[|w| - 1] == 'x';
    }
  }

  lemma {:induction false} LexRendered(s: Lexer, shape: Lexer, template: seq<Piece>, params: seq<Param>, values: map<string, string>)
    requires Follows(s, shape) && PlaceholdersPlain(shape, template)
    requires ItemsOf(params, values) && Render(template, params).Some?
    ensures Lex(s, Render(template, params).value) == LexTemplate(s, template, values)
    decreases |template|
  {
    if template != [] {
      var rest := Render(template[1..], params).value;
      match template[0]
      case Text(t) =>
        LexAppend(s, t, rest);
        FollowsText(s, shape, t);
        if shape.Refused? {
          LexRefused(t);
        }
        LexRendered(Lex(s, t), Lex(shape, t), template[1..], params, values);
      case Placeholder(name) =>
        LookupExactly(params, values, name);
        var v := values[name];
        LexAppend(s, Quote(v), rest);
        if s.Refused? {
          LexRefused(Quote(v));
        } else {
          LexQuoted(s, v);
        }
        FollowsInsert(s, shape, v);
        LexRendered(Insert(s, v), Insert(shape, "x"), template[1..], params, values);
    }
  }

  lemma {:induction false} LexRefused(text: string)
    ensures Lex(Refused, text) == Refused
    decreases |text|
  {
    if text != "" {
      LexRefused(text[1..]);
    }
  }

  /** Command line: if the placeholders stand outside quotes, the shell sees the words of the template
      with each value in its place, character by character - never split, expanded or dropped. */
  lemma CommandRoundTrip(action: Action, params: seq<Param>, values: map<string, string>, paramsJson: string)
    requires action.command.Some? && PlaceholdersPlain(BEGIN, action.command.value)
    requires ItemsOf(params, values) && Provided(action.command.value, values)
    ensures var built := BuildRemoteCommand(action, params, paramsJson);
      built.Line? && Split(built.line) == Finish(LexTemplate(BEGIN, action.command.value, values))
  {
    var template := action.command.value;
    RenderExactly(template, params, values, seq(|template|, i requires 0 <= i < |template| => Filled(template[i], values)));
    LexRendered(BEGIN, BEGIN, template, params, values);
  }

  /** The shell reads the rendered template up to any point as the template with each value in its place. */
  ghost predicate ReadLiterally(template: seq<Piece>) {
    forall k, params, values :: 0 <= k <= |template| && ItemsOf(params, values) && Render(template[..k], params).Some? ==>
      Lex(BEGIN, Render(template[..k], params).value) == LexTemplate(BEGIN, template[..k], values)
  }

  lemma {:induction false} PrefixPlain(s: Lexer, template: seq<Piece>, k: nat)
    requires PlaceholdersPlain(s, template) && k <= |template|
    ensures PlaceholdersPlain(s, template[..k])
    decreases |template|
  {
    if k > 0 && !s.Refused? {
      assert template[..k][1..] == template[1..][..k - 1];
      match template[0]
      case Text(t) => PrefixPlain(Lex(s, t), template[1..], k - 1);
      case Placeholder(_) => PrefixPlain(Insert(s, "x"), template[1..], k - 1);
    }
  }

  /** A blank for every placeholder. */
  function BlankValues(template: seq<Piece>): map<string, string> {
    map piece | piece in template && piece.Placeholder? :: piece.name := " "
  }

  predicate AllBlank(template: seq<Piece>, values: map<string, string>) {
    forall i :: 0 <= i < |template| && template[i].Placeholder? ==> template[i].name in values && values[template[i].name] == " "
  }

  /** Every dictionary has items. */
  lemma {:induction false} SomeItems(values: map<string, string>) returns (params: seq<Param>)
    ensures ItemsOf(params, values)
    decreases |values|
  {
    if values == map[] {
      params := [];
    } else {
      var name :| name in values;
      var rest := values - {name};
      assert rest.Keys == values.Keys - {name};
      params := SomeItems(rest);
      OneMoreItem(params, values, name);
      params := [Param(name, values[name])] + params;
    }
  }

  lemma OneMoreItem(params: seq<Param>, values: map<string, string>, name: string)
    requires name in values && ItemsOf(params, values - {name})
    ensures ItemsOf([Param(name, values[name])] + params, values)
  {
    var more := [Param(name, values[name])] + params;
    forall n | n in values
      ensures exists i :: 0 <= i < |more| && more[i].name == n
    {
      if n == name {
        assert more[0].name == n;
      } else {
        assert n in values - {name};
        var i :| 0 <= i < |params| && params[i].name == n;
        assert more[i + 1].name == n;
      }
    }
  }

  /** The shell misreads the rendered template. */
  ghost predicate Misread(s: Lexer, template: seq<Piece>, params: seq<Param>, values: map<string, string>) {
    Render(template, params).Some? && Lex(s, Render(template, params).value) != LexTemplate(s, template, values)
  }

  lemma MisreadLater(s: Lexer, piece: Piece, rest: seq<Piece>, params: seq<Param>, values: map<string, string>)
    requires s.Lexer? && ItemsOf(params, values)
    requires piece.Text? ==> Misread(Lex(s, piece.text), rest, params, values)
    requires piece.Placeholder? ==>
      s.mode.Plain? && piece.name in values && values[piece.name] == " " && Misread(Insert(s, " "), rest, params, values)
    ensures Misread(s, [piece] + rest, params, values)
  {
    assert ([piece] + rest)[1..] == rest;
    var line := Render(rest, params).value;
    match piece
    case Text(t) => LexAppend(s, t, line);
    case Placeholder(name) =>
      LookupExactly(params, values, name);
      LexAppend(s, Quote(" "), line);
      LexQuoted(s, " ");
  }

  lemma MisreadHere(s: Lexer, name: string, params: seq<Param>, values: map<string, string>)
    requires s.Lexer? && !s.mode.Plain? && ItemsOf(params, values) && name in values && values[name] == " "
    ensures Misread(s, [Placeholder(name)], params, values)
  {
    LookupExactly(params, values, name);
    assert [Placeholder(name)][1..] == [];
    assert Render([], params) == Some("") && Quote(" ") + "" == Quote(" ");
    QuoteBlank();
    QuotedBlankMisread(s);
  }

  lemma BlankShape(s: Lexer, shape: Lexer)
    requires s.Lexer? && SameShape(s, shape)
    ensures SameShape(Insert(s, " "), Insert(shape, "x"))
  {
    var u, v := Extend(s.word, " ").value, Extend(shape.word, "x").value;
    assert u[|u| - 1] == ' ' && v[|v| - 1] == 'x';
  }

  /** Up to the first placeholder in a bad place, included, a template of blanks is misread. */
  lemma {:induction false} FirstBadPlaceholder(s: Lexer, shape: Lexer, template: seq<Piece>, params: seq<Param>, values: map<string, string>) returns (k: nat)
    requires SameShape(s, shape) && !PlaceholdersPlain(shape, template) && ItemsOf(params, values) && AllBlank(template, values)
    ensures k <= |template| && Misread(s, template[..k], params, values)
    decreases |template|
  {
    var piece, rest := template[0], template[1..];
    assert forall i :: 0 <= i < |rest| ==> rest[i] == template[i + 1];
    if piece.Placeholder? && !s.mode.Plain? {
      MisreadHere(s, piece.name, params, values);
      k := 1;
      assert template[..1] == [piece];
    } else {
      match piece {
        case Text(t) =>
          FollowsText(s, shape, t);
          FollowsText(shape, s, t);
          k := FirstBadPlaceholder(Lex(s, t), Lex(shape, t), rest, params, values);
        case Placeholder(_) =>
          BlankShape(s, shape);
          k := FirstBadPlaceholder(Insert(s, " "), Insert(shape, "x"), rest, params, values);
      }
      MisreadLater(s, piece, rest[..k], params, values);
      assert template[..k + 1] == [piece] + rest[..k];
      k := k + 1;
    }
  }

  /** The condition is exact: the shell reads every value of a template as it is, whatever the values, exactly if
      no placeholder stands inside quotes or after a backslash. */
  lemma CommandRoundTripIff(template: seq<Piece>)
    ensures ReadLiterally(template) <==> PlaceholdersPlain(BEGIN, template)
  {
    if PlaceholdersPlain(BEGIN, template) {
      forall k, params, values | 0 <= k <= |template| && ItemsOf(params, values) && Render(template[..k], params).Some?
        ensures Lex(BEGIN, Render(template[..k], params).value) == LexTemplate(BEGIN, template[..k], values)
      {
        PrefixPlain(BEGIN, template, k);
        LexRendered(BEGIN, BEGIN, template[..k], params, values);
      }
    } else {
      var values := BlankValues(template);
      var params := SomeItems(values);
      var k := FirstBadPlaceholder(BEGIN, BEGIN, template, params, values);
      assert Misread(BEGIN, template[..k], params, values);
    }
  }

  /** A placeholder that the template itself puts in quotes is not protected: '{x}' with x = "a b" is two words. */
  lemma QuotedPlaceholderSplits()
    ensures var template, params := [Text("'"), Placeholder("x"), Text("'")], [Param("x", "a b")];
      && !PlaceholdersPlain(BEGIN, template)
      && Render(template, params) == Some("'" + Quote("a b") + "'")
      && Split("'" + Quote("a b") + "'") == Some([Word("a"), Word("b")])
  {
    RenderQuotedPlaceholder("x", "a b");
    QuoteTwoLetters('a', 'b');
    assert "a b" == ['a', ' ', 'b'];
    LexTwoLetters();
  }

  lemma QuoteTwoLetters(a: char, b: char)
    requires a != '\'' && b != '\''
    ensures "'" + Quote([a, ' ', b]) + "'" == ['\'', '\'', a] + ([' ', b, '\''] + ['\''])
  {
    var v := [a, ' ', b];
    assert v[1..] == [' ', b] && v[1..][1..] == [b] && v[1..][1..][1..] == [];
    assert Escaped([b]) == [b];
    assert Escaped([' ', b]) == [' '] + [b];
    assert Escaped(v) == [a] + ([' '] + [b]);
    assert !IsSafe(v[1]);
  }

  lemma LexTwoLetters()
    ensures Split(['\'', '\'', 'a'] + ([' ', 'b', '\''] + ['\''])) == Some([Word("a"), Word("b")])
  {
    LexAppend(BEGIN, ['\'', '\'', 'a'], [' ', 'b', '\''] + ['\'']);
    LexTwoLettersStart();
    LexTwoLettersEnd(Lexer(Plain, Some("a"), []));
    assert [] + [Word("a")] == [Word("a")] && [Word("a")] + [Word("b")] == [Word("a"), Word("b")];
  }

  lemma LexTwoLettersStart()
    ensures Lex(BEGIN, ['\'', '\'', 'a']) == Lexer(Plain, Some("a"), [])
  {
    Lex3(BEGIN, '\'', '\'', 'a');
    assert "" + "" == "" && "" + ['a'] == "a";
  }

  lemma LexTwoLettersEnd(s: Lexer)
    requires s.Lexer? && s.mode.Plain? && s.word.Some?
    ensures Lex(s, [' ', 'b', '\''] + ['\'']) == Lexer(Plain, Some("b"), s.tokens + [Word(s.word.value)])
  {
    LexAppend(s, [' ', 'b', '\''], ['\'']);
    Lex3(s, ' ', 'b', '\'');
    assert "" + ['b'] == "b" && "b" + "" == "b";
    Lex1(Lexer(Single, Some("b"), s.tokens + [Word(s.word.value)]), '\'');
  }

  lemma RenderQuotedPlaceholder(x: string, v: string)
    ensures Render([Text("'"), Placeholder(x), Text("'")], [Param(x, v)]) == Some("'" + Quote(v) + "'")
    ensures !PlaceholdersPlain(BEGIN, [Text("'"), Placeholder(x), Text("'")])
  {
    var template, params := [Text("'"), Placeholder(x), Text("'")], [Param(x, v)];
    var tail := template[1..];
    assert tail == [Placeholder(x), Text("'")] && tail[1..] == [Text("'")];
    var last := tail[1..];
    assert last[1..] == [];
    assert Render(last[1..], params) == Some("");
    assert Render(last, params) == Some("'" + "");
    assert "'" + "" == "'";
    assert Lookup(params, x) == Some(v);
    assert Render(tail, params) == Some(Quote(v) + "'");
    assert "'" + (Quote(v) + "'") == "'" + Quote(v) + "'";
    Lex1(BEGIN, '\'');
    assert Lex(BEGIN, "'").mode.Single?;
    assert !PlaceholdersPlain(Lex(BEGIN, "'"), tail);
  }
}
