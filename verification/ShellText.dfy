/** POSIX shell quoting (src/exec/shell.rs) against a small reader of shell text.

    The reader does token recognition and quoting and finds the expansions: sections 2.2.1 to 2.2.3, 2.3 and
    2.6 of the POSIX.1-2017 Shell Command Language. A word is read into units: a character that stands for
    itself, a parameter, or another expansion taken as it is written. What they give is looked up afterwards,
    since the shell expands a command only when it runs it. What the reader does not know (backquotes,
    comments) it rejects. */
module ShellText {
  import opened Wrappers

  // ----- the reader -----

  datatype Unit = Char(c: char) | Param(name: string) | Opaque(text: string)
  type Text = seq<Unit>

  /** `plain` is false for a word that tilde or pathname expansion or field splitting could still change. */
  datatype Token = Word(text: Text, plain: bool) | Op(c: char)

  /** `Dollar` has read a dollar sign and part of a name. `Inside` is in `$(...)` or `${...}`: `stack` are the
      brackets and quotation marks still open in it, and `text` is what was read of it. */
  datatype Mode =
    | Blank | BlankEscape | Bare | Escape | Single | Double | DoubleEscape
    | Dollar(name: string, quoted: bool)
    | Inside(stack: string, text: string, quoted: bool)
    | InsideEscape(stack: string, text: string, quoted: bool)
    | InsideDollar(stack: string, text: string, quoted: bool)
    | Bad
  datatype Reader = Reader(mode: Mode, word: Text, plain: bool, out: seq<Token>)

  const START: Reader := Reader(Blank, [], true, [])

  predicate NameChar(c: char) {
    'a' <= c <= 'z' || 'A' <= c <= 'Z' || '0' <= c <= '9' || c == '_'
  }

  predicate Operator(c: char) {
    c == ';' || c == '&' || c == '|' || c == '<' || c == '>' || c == '(' || c == ')' || c == '\n'
  }

  function Emit(s: Reader): Reader {
    Reader(Blank, [], true, s.out + [Word(s.word, s.plain)])
  }

  /** One more character of a word that is not quoted. */
  function BareStep(s: Reader, c: char): Reader {
    if c == ' ' || c == '\t' then Emit(s)
    else if Operator(c) then var e := Emit(s); e.(out := e.out + [Op(c)])
    else if c == '\'' then s.(mode := Single)
    else if c == '\"' then s.(mode := Double)
    else if c == '\\' then s.(mode := Escape)
    else if c == '$' then s.(mode := Dollar("", false))
    else if c == '`' then s.(mode := Bad)
    else Reader(Bare, s.word + [Char(c)], s.plain && c != '*' && c != '?' && c != '[', s.out)
  }

  function BlankStep(s: Reader, c: char): Reader {
    if c == ' ' || c == '\t' then s
    else if Operator(c) then s.(out := s.out + [Op(c)])
    else if c == '#' then s.(mode := Bad)
    else if c == '\\' then s.(mode := BlankEscape)
    else BareStep(Reader(Bare, [], c != '~', s.out), c)
  }

  function DoubleStep(s: Reader, c: char): Reader {
    if c == '\"' then s.(mode := Bare)
    else if c == '\\' then s.(mode := DoubleEscape)
    else if c == '$' then s.(mode := Dollar("", true))
    else if c == '`' then s.(mode := Bad)
    else Reader(Double, s.word + [Char(c)], s.plain, s.out)
  }

  /** An expansion is read to its end; unquoted, it may still be split. */
  function Expanded(s: Reader, quoted: bool, u: Unit): Reader {
    Reader(if quoted then Double else Bare, s.word + [u], s.plain && quoted, s.out)
  }

  predicate SpecialParameter(c: char) {
    c == '!' || c == '?' || c == '#' || c == '@' || c == '*' || c == '-' || c == '$' || '0' <= c <= '9'
  }

  function DollarStep(s: Reader, name: string, quoted: bool, c: char): Reader {
    if NameChar(c) && (name != "" || !('0' <= c <= '9')) then s.(mode := Dollar(name + [c], quoted))
    else if name != "" then
      var t := Expanded(s, quoted, Param(name));
      if quoted then DoubleStep(t, c) else BareStep(t, c)
    else if c == '(' || c == '{' then s.(mode := Inside([c], ['$', c], quoted))
    else if SpecialParameter(c) then Expanded(s, quoted, Opaque(['$', c]))
    else s.(mode := Bad)
  }

  /** One more character of `$(...)` or `${...}`, by the innermost bracket or quotation mark still open. */
  function InsideStep(s: Reader, stack: string, text: string, quoted: bool, c: char): Reader
    requires stack != ""
  {
    var top, now := stack[|stack| - 1], text + [c];
    var popped := if |stack| == 1 then Expanded(s, quoted, Opaque(now))
                  else s.(mode := Inside(stack[..|stack| - 1], now, quoted));
    if top == '\'' then
      if c == '\'' then popped else s.(mode := Inside(stack, now, quoted))
    else if c == '\\' then s.(mode := InsideEscape(stack, now, quoted))
    else if c == '$' then s.(mode := InsideDollar(stack, now, quoted))
    else if c == '`' || c == '#' || (c == '\'' && top == '{') then s.(mode := Bad)
    else if (top == '\"' && c == '\"') || (top == '(' && c == ')') || (top == '{' && c == '}') then popped
    else if top != '\"' && (c == '\"' || c == '\'' || (top == '(' && c == '(')) then
      s.(mode := Inside(stack + [c], now, quoted))
    else s.(mode := Inside(stack, now, quoted))
  }

  function Step(s: Reader, c: char): Reader {
    match s.mode
    case Blank => BlankStep(s, c)
    case BlankEscape => if c == '\n' then s.(mode := Blank) else Reader(Bare, [Char(c)], true, s.out)
    case Bare => BareStep(s, c)
    case Escape => Reader(Bare, if c == '\n' then s.word else s.word + [Char(c)], s.plain, s.out)
    case Single => if c == '\'' then s.(mode := Bare) else Reader(Single, s.word + [Char(c)], s.plain, s.out)
    case Double => DoubleStep(s, c)
    case DoubleEscape => Reader(Double, s.word + DoubleEscaped(c), s.plain, s.out)
    case Dollar(name, quoted) => DollarStep(s, name, quoted, c)
    case Inside(stack, text, quoted) => if stack == "" then s.(mode := Bad) else InsideStep(s, stack, text, quoted, c)
    case InsideEscape(stack, text, quoted) => s.(mode := Inside(stack, text + [c], quoted))
    case InsideDollar(stack, text, quoted) =>
      if c == '(' || c == '{' then s.(mode := Inside(stack + [c], text + [c], quoted))
      else if stack == "" then s.(mode := Bad)
      else InsideStep(s, stack, text, quoted, c)
    case Bad => s
  }

  /** What a backslash and a character are in double quotes. */
  function DoubleEscaped(c: char): Text {
    if c == '\n' then []
    else if c == '$' || c == '`' || c == '\"' || c == '\\' then [Char(c)]
    else [Char('\\'), Char(c)]
  }

  function Run(s: Reader, text: string): Reader {
    if text == "" then s else Step(Run(s, text[..|text| - 1]), text[|text| - 1])
  }

  /** The tokens of a whole text; None when it ends inside a quotation or an expansion or uses what is not
      modelled. */
  function Tokens(text: string): Option<seq<Token>> {
    var s := Run(START, text);
    match s.mode
    case Blank => Some(s.out)
    case Bare => Some(s.out + [Word(s.word, s.plain)])
    case _ => None
  }

  lemma {:induction false} RunConcat(s: Reader, a: string, b: string)
    ensures Run(s, a + b) == Run(Run(s, a), b)
  {
    if b == "" {
      assert a + b == a;
    } else {
      assert (a + b)[..|a + b| - 1] == a + b[..|b| - 1];
      RunConcat(s, a, b[..|b| - 1]);
    }
  }

  lemma {:induction false} RunOne(s: Reader, c: char)
    ensures Run(s, [c]) == Step(s, c)
  {
    assert [c][..0] == "";
  }

  // ----- what the words give -----

  /** Where a command is run: the parameters that are set, and what each other expansion gives. */
  datatype Sight = Sight(env: map<string, string>, seen: string -> string)

  function UnitValue(see: Sight, u: Unit): string {
    match u
    case Char(c) => [c]
    case Param(name) => if name in see.env then see.env[name] else ""
    case Opaque(text) => see.seen(text)
  }

  function Value(see: Sight, t: Text): string {
    if t == [] then "" else Value(see, t[..|t| - 1]) + UnitValue(see, t[|t| - 1])
  }

  /** Characters that stand for themselves. */
  function Chars(w: string): Text {
    seq(|w|, i requires 0 <= i < |w| => Char(w[i]))
  }

  function AllChars(ws: seq<string>): seq<Text> {
    seq(|ws|, i requires 0 <= i < |ws| => Chars(ws[i]))
  }

  function Resolve(see: Sight, t: Token): Token {
    if t.Word? then Word(Chars(Value(see, t.text)), t.plain) else t
  }

  function ResolveAll(see: Sight, ts: seq<Token>): seq<Token> {
    seq(|ts|, i requires 0 <= i < |ts| => Resolve(see, ts[i]))
  }

  /** The tokens of a command with every expansion made. */
  function Spoken(see: Sight, text: string): Option<seq<Token>> {
    match Tokens(text)
    case Some(ts) => Some(ResolveAll(see, ts))
    case None => None
  }

  lemma {:induction false} ValueConcat(see: Sight, a: Text, b: Text)
    ensures Value(see, a + b) == Value(see, a) + Value(see, b)
  {
    if b == [] {
      assert a + b == a;
    } else {
      assert (a + b)[..|a + b| - 1] == a + b[..|b| - 1];
      ValueConcat(see, a, b[..|b| - 1]);
    }
  }

  lemma {:induction false} ValueChars(see: Sight, w: string)
    ensures Value(see, Chars(w)) == w
  {
    if w != "" {
      assert Chars(w)[..|w| - 1] == Chars(w[..|w| - 1]);
      ValueChars(see, w[..|w| - 1]);
    }
  }

  lemma CharsConcat(a: string, b: string)
    ensures Chars(a + b) == Chars(a) + Chars(b)
  {
  }

  lemma {:induction false} ValueOne(see: Sight, u: Unit)
    ensures Value(see, [u]) == UnitValue(see, u)
  {
    assert [u][..0] == [];
  }

  // ----- quoting -----

  predicate Safe(c: char) {
    'a' <= c <= 'z' || 'A' <= c <= 'Z' || '0' <= c <= '9' || c == '_' || c == '@' || c == '%'
    || c == '+' || c == '=' || c == ':' || c == ',' || c == '.' || c == '/' || c == '-'
  }

  predicate AllSafe(w: string) {
    forall i :: 0 <= i < |w| ==> Safe(w[i])
  }

  /** `word.replace('\'', "'\"'\"'")`. */
  function Escaped(w: string): string {
    if w == "" then "" else
      Escaped(w[..|w| - 1]) + (if w[|w| - 1] == '\'' then "'\"'\"'" else [w[|w| - 1]])
  }

  /** `quote` (src/exec/shell.rs:3-12). */
  function Quote(w: string): string {
    if w != "" && AllSafe(w) then w else "'" + Escaped(w) + "'"
  }

  function JoinWith(parts: seq<string>, sep: string): string {
    if parts == [] then ""
    else if |parts| == 1 then parts[0]
    else JoinWith(parts[..|parts| - 1], sep) + sep + parts[|parts| - 1]
  }

  function QuoteAll(words: seq<string>): seq<string> {
    seq(|words|, i requires 0 <= i < |words| => Quote(words[i]))
  }

  /** `join` (src/exec/shell.rs:13-15). */
  function Join(words: seq<string>): string {
    JoinWith(QuoteAll(words), " ")
  }

  /** `path` (src/exec/shell.rs:16-21). */
  function PathText(word: string): string {
    if "~/" <= word then "\"$HOME\"/" + Quote(word[2..]) else Quote(word)
  }

  // ----- quoting is undone by the reader -----

  /** The reader is between tokens, or inside an unquoted word. */
  predicate Ready(s: Reader) {
    s.mode == Bare || (s.mode == Blank && s.word == [] && s.plain)
  }

  function Typed(s: Reader, w: Text): Reader {
    s.(mode := Bare, word := s.word + w)
  }

  lemma SafeStep(s: Reader, c: char)
    requires Ready(s) && Safe(c)
    ensures Step(s, c) == s.(mode := Bare, word := s.word + [Char(c)])
  {
  }

  lemma CharsNext(word: Text, w: string)
    requires w != ""
    ensures word + Chars(w[..|w| - 1]) + [Char(w[|w| - 1])] == word + Chars(w)
  {
  }

  lemma {:induction false} SafeReads(s: Reader, w: string)
    requires Ready(s) && w != "" && AllSafe(w)
    ensures Run(s, w) == Typed(s, Chars(w))
  {
    var n := |w| - 1;
    CharsNext(s.word, w);
    if n == 0 {
      assert w[..0] == "" && Chars("") == [];
      assert s.word + [] == s.word;
      SafeStep(s, w[0]);
    } else {
      SafeReads(s, w[..n]);
      SafeStep(Typed(s, Chars(w[..n])), w[n]);
    }
  }

  lemma {:induction false} EscapedReads(s: Reader, w: string)
    requires s.mode == Single
    ensures Run(s, Escaped(w)) == s.(word := s.word + Chars(w))
  {
    if w == "" {
      assert s.word + Chars(w) == s.word;
    } else {
      var n := |w| - 1;
      EscapedReads(s, w[..n]);
      var t := s.(word := s.word + Chars(w[..n]));
      CharsNext(s.word, w);
      if w[n] == '\'' {
        RunConcat(s, Escaped(w[..n]), "'\"'\"'");
        QuoteMarkReads(t);
      } else {
        RunConcat(s, Escaped(w[..n]), [w[n]]);
        RunOne(t, w[n]);
      }
    }
  }

  lemma {:induction false} QuoteMarkReads(t: Reader)
    requires t.mode == Single
    ensures Run(t, "'\"'\"'") == t.(word := t.word + [Char('\'')])
  {
    var text := "'\"'\"'";
    RunConcat(t, "'\"'\"", "'");
    RunConcat(t, "'\"'", "\"");
    RunConcat(t, "'\"", "'");
    RunConcat(t, "'", "\"");
    RunOne(t, '\'');
    assert text == "'\"'\"" + "'";
    assert "'\"'\"" == "'\"'" + "\"";
    assert "'\"'" == "'\"" + "'";
    assert "'\"" == "'" + "\"";
    var a := Step(t, '\'');
    RunOne(a, '\"');
    var b := Step(a, '\"');
    RunOne(b, '\'');
    var c := Step(b, '\'');
    RunOne(c, '\"');
    var d := Step(c, '\"');
    RunOne(d, '\'');
  }

  lemma {:induction false} SingleReads(s: Reader, w: string)
    requires Ready(s)
    ensures Run(s, "'" + Escaped(w) + "'") == Typed(s, Chars(w))
  {
    RunConcat(s, "'" + Escaped(w), "'");
    RunConcat(s, "'", Escaped(w));
    RunOne(s, '\'');
    var a := Step(s, '\'');
    EscapedReads(a, w);
    RunOne(a.(word := a.word + Chars(w)), '\'');
  }

  /** Quoted text reads as exactly its word, every character standing for itself, wherever a word may start or
      go on. */
  lemma {:induction false} QuoteReads(s: Reader, w: string)
    requires Ready(s)
    ensures Run(s, Quote(w)) == Typed(s, Chars(w))
  {
    if w != "" && AllSafe(w) {
      SafeReads(s, w);
    } else {
      SingleReads(s, w);
    }
  }

  // ----- parameters inside double quotes -----

  /** `env_name` (src/exec/shell.rs:22-28). */
  predicate EnvName(name: string) {
    && name != "" && NameChar(name[0]) && !('0' <= name[0] <= '9')
    && forall i :: 0 <= i < |name| ==> NameChar(name[i])
  }

  lemma {:induction false} NameReads(a: Reader, name: string)
    requires a.mode == Double && EnvName(name)
    ensures Run(a, "$" + name) == a.(mode := Dollar(name, true))
  {
    var n := |name| - 1;
    NameEnds("$", name);
    RunConcat(a, "$" + name[..n], [name[n]]);
    if n == 0 {
      RunOne(a, '$');
      assert "$" + name[..0] == "$";
    } else {
      NameReads(a, name[..n]);
    }
    NameGoesOn(a, name[..n], name[n]);
    NameEnds("", name);
  }

  lemma NameEnds(front: string, name: string)
    requires name != ""
    ensures front + name == (front + name[..|name| - 1]) + [name[|name| - 1]]
    ensures name == name[..|name| - 1] + [name[|name| - 1]]
  {
  }

  lemma NameGoesOn(a: Reader, name: string, c: char)
    requires a.mode == Double && NameChar(c) && (name == "" ==> !('0' <= c <= '9'))
    ensures Run(a.(mode := Dollar(name, true)), [c]) == a.(mode := Dollar(name + [c], true))
  {
    RunOne(a.(mode := Dollar(name, true)), c);
  }

  /** `$name` is the parameter, up to the character after the name. */
  lemma {:induction false} DollarReads(a: Reader, name: string, c: char)
    requires a.mode == Double && EnvName(name) && !NameChar(c)
    ensures Run(a, "$" + name + [c]) == DoubleStep(a.(word := a.word + [Param(name)]), c)
  {
    NameReads(a, name);
    RunConcat(a, "$" + name, [c]);
    RunOne(a.(mode := Dollar(name, true)), c);
  }

  // ----- lists of words -----

  /** Shell text `t` is one whole word, read as `w`. */
  ghost predicate WordReads(t: string, w: Token)
    requires w.Word?
  {
    forall out :: WordReadsFrom(t, w, out)
  }

  ghost predicate WordReadsFrom(t: string, w: Token, out: seq<Token>)
    requires w.Word?
  {
    Run(START.(out := out), t) == Reader(Bare, w.text, w.plain, out)
  }

  /** ... one that nothing but its parameters can change. */
  ghost predicate ReadsAs(t: string, v: Text) {
    WordReads(t, Word(v, true))
  }

  function AsTokens(values: seq<Text>): seq<Token> {
    seq(|values|, i requires 0 <= i < |values| => Word(values[i], true))
  }

  ghost predicate AllReadAs(texts: seq<string>, values: seq<Text>) {
    |texts| == |values| && forall i :: 0 <= i < |texts| ==> ReadsAs(texts[i], values[i])
  }

  lemma FrontReadsAs(texts: seq<string>, values: seq<Text>, n: nat)
    requires AllReadAs(texts, values) && n <= |texts|
    ensures AllReadAs(texts[..n], values[..n])
  {
  }

  lemma {:induction false} ListReads(texts: seq<string>, values: seq<Text>, out: seq<Token>)
    requires |texts| >= 1 && AllReadAs(texts, values)
    ensures Run(START.(out := out), JoinWith(texts, " "))
            == Reader(Bare, values[|values| - 1], true, out + AsTokens(values[..|values| - 1]))
  {
    var n := |texts| - 1;
    assert ReadsAs(texts[n], values[n]);
    if n == 0 {
      assert WordReadsFrom(texts[0], Word(values[0], true), out);
      assert out + AsTokens(values[..0]) == out;
    } else {
      var front := JoinWith(texts[..n], " ");
      FrontReadsAs(texts, values, n);
      ListReads(texts[..n], values[..n], out);
      assert JoinWith(texts, " ") == front + " " + texts[n];
      assert values[..n][..n - 1] == values[..n - 1];
      NextWord(START.(out := out), front, texts[n], values[n - 1], values[n], out + AsTokens(values[..n - 1]));
      TokensGrow(values, n, out);
    }
  }

  lemma {:induction false} NextWord(s: Reader, front: string, text: string, v: Text, next: Text, out: seq<Token>)
    requires Run(s, front) == Reader(Bare, v, true, out) && ReadsAs(text, next)
    ensures Run(s, front + " " + text) == Reader(Bare, next, true, out + [Word(v, true)])
  {
    RunConcat(s, front + " ", text);
    RunConcat(s, front, " ");
    RunOne(Reader(Bare, v, true, out), ' ');
    assert WordReadsFrom(text, Word(next, true), out + [Word(v, true)]);
  }

  lemma TokensGrow(values: seq<Text>, n: nat, out: seq<Token>)
    requires 1 <= n <= |values|
    ensures out + AsTokens(values[..n - 1]) + [Word(values[n - 1], true)] == out + AsTokens(values[..n])
  {
    assert AsTokens(values[..n]) == AsTokens(values[..n - 1]) + [Word(values[n - 1], true)];
  }

  lemma {:induction false} ListTokens(texts: seq<string>, values: seq<Text>)
    requires |texts| == |values|
    requires forall i :: 0 <= i < |texts| ==> ReadsAs(texts[i], values[i])
    ensures Tokens(JoinWith(texts, " ")) == Some(AsTokens(values))
  {
    if texts == [] {
      assert AsTokens(values) == [];
    } else {
      var n := |values| - 1;
      ListReads(texts, values, []);
      TokensEnd(JoinWith(texts, " "), values[n], [] + AsTokens(values[..n]));
      AsTokensLast(values);
    }
  }

  lemma {:induction false} TokensEnd(text: string, v: Text, out: seq<Token>)
    requires Run(START, text) == Reader(Bare, v, true, out)
    ensures Tokens(text) == Some(out + [Word(v, true)])
  {
  }

  lemma AsTokensLast(values: seq<Text>)
    requires values != []
    ensures [] + AsTokens(values[..|values| - 1]) + [Word(values[|values| - 1], true)] == AsTokens(values)
  {
  }

  lemma QuoteReadsAs(w: string)
    ensures ReadsAs(Quote(w), Chars(w))
  {
    forall out ensures WordReadsFrom(Quote(w), Word(Chars(w), true), out) {
      QuoteReads(START.(out := out), w);
      assert [] + Chars(w) == Chars(w);
    }
  }

  /** Quoting is undone by the shell: the text of `join` reads back as exactly the words, for
      every list of words, empty words and quote characters included, and holds no expansion. */
  lemma JoinRoundTrip(words: seq<string>)
    ensures Tokens(Join(words)) == Some(AsTokens(AllChars(words)))
  {
    forall i | 0 <= i < |words| ensures ReadsAs(QuoteAll(words)[i], AllChars(words)[i]) {
      QuoteReadsAs(words[i]);
    }
    ListTokens(QuoteAll(words), AllChars(words));
  }
}
