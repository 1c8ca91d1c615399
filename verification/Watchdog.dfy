/** The fixed commands of the watchdog around a long-lived agent (`watchdog` in src/exec/ssh.rs:64-93), piece by
    piece, and what the shell reads them as. */
module Watchdog {
  import opened Wrappers
  import opened ShellText
  import opened ShellTokens

  /** A piece of a command: one word as it is written, or an operator character. `Given` is a word with a parameter
      in double quotes, `Special` one with `$!` or `$?`, and `Made` one with the name `mktemp` prints. */
  datatype Kind =
    | Plain(w: string)
    | Bracket(c: char)
    | Quoted(w: string)
    | Given(pre: string, name: string, post: string)
    | Special(pre: string, c: char)
    | Made(pre: string)
    | Oper(c: char)

  /** `gap` says a space follows. */
  datatype Piece = Piece(kind: Kind, gap: bool)

  /** The command substitution that makes the private directory, its quotation and its inner expansion apart. */
  const MKTEMP: string :=
    "$(" + "mktemp -d " + "\"" + ("$" + "{") + "TMPDIR:-/tmp" + "}" + "/fridica.XXXXXXXX" + "\"" + ")"

  function KindText(k: Kind): string {
    match k
    case Plain(w) => w
    case Bracket(c) => [c]
    case Quoted(w) => "'" + Escaped(w) + "'"
    case Given(pre, name, post) => pre + ("\"" + ("$" + name + (if post == "" then "\"" else post + "\"")))
    case Special(pre, c) => pre + ['$', c]
    case Made(pre) => pre + MKTEMP
    case Oper(c) => [c]
  }

  function KindToken(k: Kind): Token {
    match k
    case Plain(w) => W(w)
    case Bracket(c) => Word([Char(c)], c != '[')
    case Quoted(w) => W(w)
    case Given(pre, name, post) => Word(Chars(pre) + [Param(name)] + Chars(post), true)
    case Special(pre, c) => Word(Chars(pre) + [Opaque(['$', c])], false)
    case Made(pre) => Word(Chars(pre) + [Opaque(MKTEMP)], false)
    case Oper(c) => Op(c)
  }

  predicate Good(k: Kind) {
    match k
    case Plain(w) => w != "" && AllSafe(w)
    case Bracket(c) => c == '[' || c == ']' || c == '{' || c == '}'
    case Quoted(w) => true
    case Given(pre, name, post) => AllSafe(pre) && EnvName(name) && AllSafe(post) && (post != "" ==> post[0] == '/')
    case Special(pre, c) => pre != "" && AllSafe(pre) && (c == '!' || c == '?')
    case Made(pre) => pre != "" && AllSafe(pre)
    case Oper(c) => Operator(c)
  }

  function TextOf(ps: seq<Piece>): string {
    if ps == [] then "" else
      var p := ps[|ps| - 1];
      TextOf(ps[..|ps| - 1]) + KindText(p.kind) + (if p.gap then " " else "")
  }

  function ReadOf(ps: seq<Piece>): seq<Token> {
    seq(|ps|, i requires 0 <= i < |ps| => KindToken(ps[i].kind))
  }

  /** Words are apart. */
  predicate Written(ps: seq<Piece>) {
    && (forall i :: 0 <= i < |ps| ==> Good(ps[i].kind))
    && forall i :: 0 < i < |ps| && !ps[i].kind.Oper? && !ps[i - 1].kind.Oper? ==> ps[i - 1].gap
  }

  // ----- each piece -----

  lemma GivenReads(pre: string, name: string, post: string)
    requires Good(Given(pre, name, post))
    ensures WordReads(KindText(Given(pre, name, post)), KindToken(Given(pre, name, post)))
  {
    var k := Given(pre, name, post);
    forall out ensures WordReadsFrom(KindText(k), KindToken(k), out) {
      var s := START.(out := out);
      var tail := "\"" + ("$" + name + (if post == "" then "\"" else post + "\""));
      RunConcat(s, pre, tail);
      if pre != "" {
        SafeReads(s, pre);
      }
      var a := Run(s, pre);
      assert Ready(a) && a.word == Chars(pre) && a.plain && a.out == out;
      InQuotesReads(a, name, post);
    }
  }

  lemma {:induction false} InQuotesReads(a: Reader, name: string, post: string)
    requires Ready(a) && EnvName(name) && AllSafe(post) && (post != "" ==> post[0] == '/')
    ensures Run(a, "\"" + ("$" + name + (if post == "" then "\"" else post + "\"")))
            == Reader(Bare, a.word + [Param(name)] + Chars(post), a.plain, a.out)
  {
    var d := Reader(Double, a.word, a.plain, a.out);
    RunConcat(a, "\"", "$" + name + (if post == "" then "\"" else post + "\""));
    RunOne(a, '\"');
    if post == "" {
      DollarReads(d, name, '\"');
      assert a.word + [Param(name)] + Chars("") == a.word + [Param(name)];
    } else {
      TailReads(d, name, post);
    }
  }

  lemma {:induction false} TailReads(d: Reader, name: string, post: string)
    requires d.mode == Double && EnvName(name) && AllSafe(post) && post != "" && post[0] == '/'
    ensures Run(d, "$" + name + (post + "\"")) == Reader(Bare, d.word + [Param(name)] + Chars(post), d.plain, d.out)
  {
    SlashText("$" + name, post);
    RunConcat(d, "$" + name + ['/'], post[1..] + "\"");
    DollarReads(d, name, '/');
    RestInDouble(d.(word := d.word + [Param(name)] + [Char('/')]), post[1..]);
    SlashFirst(d.word + [Param(name)], post);
  }

  lemma SlashText(front: string, post: string)
    requires post != "" && post[0] == '/'
    ensures front + (post + "\"") == (front + ['/']) + (post[1..] + "\"")
  {
  }

  lemma {:induction false} RestInDouble(f: Reader, t: string)
    requires f.mode == Double && AllSafe(t)
    ensures Run(f, t + "\"") == Reader(Bare, f.word + Chars(t), f.plain, f.out)
  {
    RunConcat(f, t, "\"");
    SafeInDouble(f, t);
    RunOne(f.(word := f.word + Chars(t)), '\"');
  }

  lemma SlashFirst(word: Text, post: string)
    requires post != "" && post[0] == '/'
    ensures word + [Char('/')] + Chars(post[1..]) == word + Chars(post)
  {
  }

  lemma SpecialReads(pre: string, c: char)
    requires Good(Special(pre, c))
    ensures WordReads(pre + ['$', c], KindToken(Special(pre, c)))
  {
    forall out ensures WordReadsFrom(pre + ['$', c], KindToken(Special(pre, c)), out) {
      var s := START.(out := out);
      RunConcat(s, pre, ['$', c]);
      SafeReads(s, pre);
      assert [] + Chars(pre) == Chars(pre);
      var a := Reader(Bare, Chars(pre), true, out);
      assert ['$', c] == ['$'] + [c];
      RunConcat(a, ['$'], [c]);
      RunOne(a, '$');
      RunOne(a.(mode := Dollar("", false)), c);
    }
  }

  /** Inside an expansion these characters change nothing. */
  predicate Calm(c: char) {
    && c != '\'' && c != '\"' && c != '\\' && c != '$' && c != '`' && c != '#'
    && c != '(' && c != ')' && c != '{' && c != '}'
  }

  predicate AllCalm(t: string) {
    forall i :: 0 <= i < |t| ==> Calm(t[i])
  }

  function InsideAt(s: Reader, stack: string, text: string): Reader {
    s.(mode := Inside(stack, text, false))
  }

  lemma {:induction false} CalmReads(s: Reader, stack: string, text: string, t: string)
    requires stack != "" && stack[|stack| - 1] != '\'' && AllCalm(t)
    ensures Run(InsideAt(s, stack, text), t) == InsideAt(s, stack, text + t)
  {
    if t == "" {
      assert text + t == text;
    } else {
      var n := |t| - 1;
      CalmReads(s, stack, text, t[..n]);
      assert text + t[..n] + [t[n]] == text + t;
      assert Calm(t[n]);
    }
  }

  /** A bracket or quotation mark opened inside an expansion. */
  lemma PushReads(s: Reader, stack: string, text: string, c: char)
    requires stack != "" && stack[|stack| - 1] == '(' && c == '\"'
    ensures Run(InsideAt(s, stack, text), [c]) == InsideAt(s, stack + [c], text + [c])
  {
    RunOne(InsideAt(s, stack, text), c);
  }

  lemma BraceReads(s: Reader, stack: string, text: string)
    requires stack != "" && stack[|stack| - 1] == '\"'
    ensures Run(InsideAt(s, stack, text), "$" + "{") == InsideAt(s, stack + ['{'], text + ("$" + "{"))
  {
    RunConcat(InsideAt(s, stack, text), "$", "{");
    RunOne(InsideAt(s, stack, text), '$');
    RunOne(s.(mode := InsideDollar(stack, text + ['$'], false)), '{');
    assert text + ['$'] + ['{'] == text + ("$" + "{");
  }

  lemma PopReads(s: Reader, stack: string, text: string, c: char)
    requires |stack| > 1 && ((stack[|stack| - 1] == '\"' && c == '\"') || (stack[|stack| - 1] == '{' && c == '}'))
    ensures Run(InsideAt(s, stack, text), [c]) == InsideAt(s, stack[..|stack| - 1], text + [c])
  {
    RunOne(InsideAt(s, stack, text), c);
  }

  lemma CloseReads(s: Reader, text: string)
    ensures Run(InsideAt(s, "(", text), ")") == Expanded(s, false, Opaque(text + ")"))
  {
    RunOne(InsideAt(s, "(", text), ')');
  }

  lemma MktempIsCalm()
    ensures AllCalm("mktemp -d ") && AllCalm("TMPDIR:-/tmp") && AllCalm("/fridica.XXXXXXXX")
  {
  }

  lemma {:induction false} MktempReads(a: Reader)
    requires a.mode == Bare
    ensures Run(a, MKTEMP) == Expanded(a, false, Opaque(MKTEMP))
  {
    MktempIsCalm();
    var t1 := "$(";
    var t2 := t1 + "mktemp -d ";
    var t3 := t2 + "\"";
    var t4 := t3 + ("$" + "{");
    var t5 := t4 + "TMPDIR:-/tmp";
    var t6 := t5 + "}";
    var t7 := t6 + "/fridica.XXXXXXXX";
    var t8 := t7 + "\"";
    OpensExpansion(a);
    RunConcat(a, t1, "mktemp -d ");
    CalmReads(a, "(", t1, "mktemp -d ");
    RunConcat(a, t2, "\"");
    PushReads(a, "(", t2, '\"');
    RunConcat(a, t3, "$" + "{");
    BraceReads(a, "(" + ['\"'], t3);
    RunConcat(a, t4, "TMPDIR:-/tmp");
    var deep := "(" + ['\"'] + ['{'];
    CalmReads(a, deep, t4, "TMPDIR:-/tmp");
    RunConcat(a, t5, "}");
    PopReads(a, deep, t5, '}');
    assert deep[..|deep| - 1] == "(" + ['\"'];
    RunConcat(a, t6, "/fridica.XXXXXXXX");
    CalmReads(a, "(" + ['\"'], t6, "/fridica.XXXXXXXX");
    RunConcat(a, t7, "\"");
    PopReads(a, "(" + ['\"'], t7, '\"');
    assert ("(" + ['\"'])[..1] == "(";
    RunConcat(a, t8, ")");
    CloseReads(a, t8);
  }

  lemma {:induction false} OpensExpansion(a: Reader)
    requires a.mode == Bare
    ensures Run(a, "$(") == InsideAt(a, "(", "$(")
  {
    assert "$(" == "$" + "(";
    RunConcat(a, "$", "(");
    RunOne(a, '$');
    RunOne(a.(mode := Dollar("", false)), '(');
  }

  lemma MadeReads(pre: string)
    requires Good(Made(pre))
    ensures WordReads(pre + MKTEMP, KindToken(Made(pre)))
  {
    forall out ensures WordReadsFrom(pre + MKTEMP, KindToken(Made(pre)), out) {
      var s := START.(out := out);
      RunConcat(s, pre, MKTEMP);
      SafeReads(s, pre);
      assert [] + Chars(pre) == Chars(pre);
      MktempReads(Reader(Bare, Chars(pre), true, out));
    }
  }

  lemma BracketWord(c: char)
    requires Good(Bracket(c))
    ensures WordReads([c], Word([Char(c)], c != '['))
  {
    var w := Word([Char(c)], c != '[');
    forall out ensures WordReadsFrom([c], w, out) {
      RunOne(START.(out := out), c);
      assert [] + [Char(c)] == [Char(c)];
    }
  }

  lemma KindReads(k: Kind)
    requires Good(k) && !k.Oper?
    ensures WordReads(KindText(k), KindToken(k))
  {
    match k {
      case Plain(w) =>
        forall out ensures WordReadsFrom(w, W(w), out) {
          SafeReads(START.(out := out), w);
          assert [] + Chars(w) == Chars(w);
        }
      case Bracket(c) => BracketWord(c);
      case Quoted(w) =>
        forall out ensures WordReadsFrom(KindText(k), W(w), out) {
          SingleReads(START.(out := out), w);
          assert [] + Chars(w) == Chars(w);
        }
      case Given(pre, name, post) => GivenReads(pre, name, post);
      case Special(pre, c) => SpecialReads(pre, c);
      case Made(pre) => MadeReads(pre);
    }
  }

  // ----- whole commands -----

  /** After a space or an operator nothing is pending. */
  predicate Closes(p: Piece) {
    p.gap || p.kind.Oper?
  }

  /** What has been read after some pieces. */
  ghost predicate After(ps: seq<Piece>, out: seq<Token>) {
    var t := Run(START.(out := out), TextOf(ps));
    && Ready(t) && Flush(t) == out + ReadOf(ps)
    && (ps == [] || Closes(ps[|ps| - 1]) ==> t == START.(out := out + ReadOf(ps)))
  }

  lemma {:induction false} PiecesReadFrom(ps: seq<Piece>, out: seq<Token>)
    requires Written(ps)
    ensures After(ps, out)
  {
    if ps == [] {
      assert out + ReadOf(ps) == out;
    } else {
      var n := |ps| - 1;
      PiecesReadFrom(ps[..n], out);
      OneMorePiece(ps, out);
    }
  }

  lemma OneMorePiece(ps: seq<Piece>, out: seq<Token>)
    requires ps != [] && Written(ps) && After(ps[..|ps| - 1], out)
    ensures After(ps, out)
  {
    var n := |ps| - 1;
    var p, s, before := ps[n], START.(out := out), TextOf(ps[..n]);
    var t := Run(s, before);
    var token := KindToken(p.kind);
    var read := out + ReadOf(ps[..n]);
    assert ReadOf(ps) == ReadOf(ps[..n]) + [token];
    assert out + ReadOf(ps) == read + [token];
    RunConcat(s, before, KindText(p.kind));
    RunConcat(s, before + KindText(p.kind), if p.gap then " " else "");
    var u := Run(t, KindText(p.kind));
    if p.kind.Oper? {
      OpAfter(t, p.kind.c);
    } else {
      assert t == START.(out := read) by {
        if n > 0 {
          assert ps[..n][n - 1] == ps[n - 1];
        }
      }
      KindReads(p.kind);
      assert WordReadsFrom(KindText(p.kind), token, read);
    }
    assert Ready(u) && Flush(u) == read + [token];
    if p.gap {
      SpaceAfter(u);
    }
  }

  /** A command written from pieces reads as exactly their tokens. */
  lemma {:induction false} PiecesRead(ps: seq<Piece>)
    requires Written(ps)
    ensures Reads(TextOf(ps), ReadOf(ps))
  {
    forall out ensures ReadsFrom(TextOf(ps), ReadOf(ps), out) {
      PiecesReadFrom(ps, out);
    }
  }

  // ----- the commands -----

  function Go(w: string): Piece {
    Piece(Plain(w), true)
  }

  function End(w: string): Piece {
    Piece(Plain(w), false)
  }

  function Mark(c: char): Piece {
    Piece(Oper(c), false)
  }

  function Use(pre: string, name: string): Piece {
    Piece(Given(pre, name, ""), true)
  }

  function UseLast(pre: string, name: string): Piece {
    Piece(Given(pre, name, ""), false)
  }

  const AGENT: string := "FRIDICA_AGENT"
  const FEED: string := "FRIDICA_FEED"
  const PIPE: string := "FRIDICA_IN"
  const DIR: string := "FRIDICA_DIR"

  /** `2>/dev/null`, a space and the next command of the list: `||` or `&&`. */
  function QuietThen(c: char): seq<Piece> {
    [End("2"), Mark('>'), Go("/dev/null"), Mark(c), Piece(Oper(c), true)]
  }

  const QUIETLY: seq<Piece> := [End("2"), Mark('>'), End("/dev/null")]

  /** `kill -SIG -"$FRIDICA_AGENT" 2>/dev/null || kill -SIG "$FRIDICA_AGENT" 2>/dev/null || :`. */
  function KillAgent(sig: string): seq<Piece> {
    [Go("kill"), Go(sig), Use("-", AGENT)] + QuietThen('|')
    + [Go("kill"), Go(sig), Use("", AGENT)] + QuietThen('|') + [End(":")]
  }

  function OrExit97(ps: seq<Piece>): seq<Piece> {
    ps + [Mark('|'), Piece(Oper('|'), true), Go("exit"), End("97")]
  }

  /** `name() { if [ -n "$parameter" ]`. */
  function Guarded(name: string, parameter: string): seq<Piece> {
    [End(name), Mark('('), Piece(Oper(')'), true), Piece(Bracket('{'), true), Go("if"), Piece(Bracket('['), true),
     Go("-n"), Use("", parameter), Piece(Bracket(']'), false)]
  }

  /** The assignments that make the agent's private pipe known. */
  const ASSIGNED: seq<seq<Piece>> :=
    [OrExit97([Piece(Made("FRIDICA_DIR="), true)]),
     [Piece(Given("FRIDICA_IN=", DIR, "/in"), false)],
     [End("FRIDICA_AGENT=")],
     [End("FRIDICA_FEED=")]]

  /** Its stopping and cleaning functions, its traps and the pipe. */
  const PREPARED: seq<seq<Piece>> :=
    [Guarded("fridica_stop", AGENT),
     [Go("then")] + KillAgent("-TERM"),
     [Go("sleep"), End("1")],
     KillAgent("-KILL"),
     [End("fi")],
     [Piece(Bracket('}'), false)],
     Guarded("fridica_clean", FEED),
     [Go("then"), Go("kill"), Use("", FEED)] + QuietThen('|') + [End(":")],
     [Go("wait"), Use("", FEED)] + QuietThen('|') + [End(":")],
     [End("fi")],
     [Go("rm"), Go("-f"), UseLast("", PIPE)],
     [Go("rmdir"), UseLast("", DIR)],
     [Piece(Bracket('}'), false)],
     [Go("trap"), Piece(Quoted("fridica_clean"), true), End("EXIT")],
     [Go("trap"), Piece(Quoted("fridica_stop; exit 143"), true), Go("TERM"), Go("INT"), End("HUP")],
     OrExit97([Go("mkfifo"), Go("-m"), Go("600"), Use("", PIPE)])]

  const UMASK: seq<Piece> := [Go("umask"), End("077")]

  /** The commands before the agent is started. */
  const BEFORE: seq<seq<Piece>> := [UMASK] + ASSIGNED + PREPARED

  /** The commands after it is started. */
  const AFTER: seq<seq<Piece>> :=
    [[Piece(Special("FRIDICA_AGENT=", '!'), false)],
     [Go("exec"), End("3"), Mark('<'), Mark('&'), End("0")],
     [Go("cat"), Mark('<'), Mark('&'), Go("3"), Piece(Oper('>'), true), Use("", PIPE), Piece(Oper('&'), true),
      Piece(Special("FRIDICA_FEED=", '!'), false)],
     [Go("exec"), End("3"), Mark('<'), Mark('&'), End("-")],
     [Go("while"), Go("kill"), Go("-0"), Use("", AGENT)] + QuietThen('&')
     + [Go("kill"), Go("-0"), Use("", FEED)] + QUIETLY,
     [Go("do"), Go("sleep"), End("1")],
     [End("done")],
     [Go("if"), Go("kill"), Go("-0"), Use("", AGENT)] + QUIETLY,
     [Go("then"), End("fridica_stop")],
     [End("fi")],
     [Go("wait"), UseLast("", AGENT)],
     [Piece(Special("FRIDICA_STATUS=", '?'), false)],
     [Go("kill"), Go("-KILL"), Use("-", AGENT)] + QuietThen('|') + [End(":")],
     [Go("exit"), UseLast("", "FRIDICA_STATUS")]]

  function Texts(commands: seq<seq<Piece>>): seq<string> {
    seq(|commands|, i requires 0 <= i < |commands| => TextOf(commands[i]))
  }

  function Readings(commands: seq<seq<Piece>>): seq<seq<Token>> {
    seq(|commands|, i requires 0 <= i < |commands| => ReadOf(commands[i]))
  }

  predicate AllWritten(commands: seq<seq<Piece>>) {
    forall i :: 0 <= i < |commands| ==> Written(commands[i])
  }

  lemma CommandsRead(commands: seq<seq<Piece>>)
    requires AllWritten(commands)
    ensures AllRead(Texts(commands), Readings(commands))
  {
    forall i | 0 <= i < |commands| ensures Reads(TextOf(commands[i]), ReadOf(commands[i])) {
      assert Written(commands[i]);
      PiecesRead(commands[i]);
    }
  }

  lemma NamesAre()
    ensures EnvName(AGENT) && EnvName(FEED) && EnvName(PIPE) && EnvName(DIR) && EnvName("FRIDICA_STATUS")
  {
  }

  lemma WrittenConcat(a: seq<Piece>, b: seq<Piece>)
    requires Written(a) && Written(b) && a != [] && b != []
    requires !b[0].kind.Oper? && !a[|a| - 1].kind.Oper? ==> a[|a| - 1].gap
    ensures Written(a + b)
  {
    var ps := a + b;
    forall i | 0 < i < |ps| && !ps[i].kind.Oper? && !ps[i - 1].kind.Oper? ensures ps[i - 1].gap {
      if i > |a| {
        assert ps[i] == b[i - |a|] && ps[i - 1] == b[i - |a| - 1];
      }
    }
  }

  lemma QuietIsWritten(c: char)
    requires c == '|' || c == '&'
    ensures Written(QuietThen(c)) && Written(QUIETLY)
  {
  }

  lemma KillIsWritten(sig: string)
    requires sig == "-TERM" || sig == "-KILL"
    ensures Written(KillAgent(sig))
  {
    NamesAre();
    QuietIsWritten('|');
    var group, one, end := [Go("kill"), Go(sig), Use("-", AGENT)], [Go("kill"), Go(sig), Use("", AGENT)], [End(":")];
    WrittenConcat(group, QuietThen('|'));
    WrittenConcat(group + QuietThen('|'), one);
    WrittenConcat(group + QuietThen('|') + one, QuietThen('|'));
    WrittenConcat(group + QuietThen('|') + one + QuietThen('|'), end);
  }

  lemma GuardIsWritten(name: string, parameter: string)
    requires (name == "fridica_stop" && parameter == AGENT) || (name == "fridica_clean" && parameter == FEED)
    ensures Written(Guarded(name, parameter))
  {
    NamesAre();
  }

  lemma AssignedIsWritten()
    ensures AllWritten(ASSIGNED) && Written(UMASK)
  {
    NamesAre();
    assert Written([Piece(Made("FRIDICA_DIR="), true)]);
    OrExitIsWritten([Piece(Made("FRIDICA_DIR="), true)]);
    assert Written([Piece(Given("FRIDICA_IN=", DIR, "/in"), false)]);
    assert Written([End("FRIDICA_AGENT=")]);
    assert Written([End("FRIDICA_FEED=")]);
  }

  lemma OrExitIsWritten(ps: seq<Piece>)
    requires ps != [] && Written(ps)
    ensures Written(OrExit97(ps))
  {
    WrittenConcat(ps, [Mark('|'), Piece(Oper('|'), true), Go("exit"), End("97")]);
  }

  lemma FunctionsAreWritten()
    ensures forall i :: 0 <= i < 13 ==> Written(PREPARED[i])
  {
    NamesAre();
    QuietIsWritten('|');
    GuardIsWritten("fridica_stop", AGENT);
    GuardIsWritten("fridica_clean", FEED);
    KillIsWritten("-TERM");
    KillIsWritten("-KILL");
    WrittenConcat([Go("then")], KillAgent("-TERM"));
    WrittenConcat([Go("then"), Go("kill"), Use("", FEED)], QuietThen('|'));
    WrittenConcat([Go("then"), Go("kill"), Use("", FEED)] + QuietThen('|'), [End(":")]);
    WrittenConcat([Go("wait"), Use("", FEED)], QuietThen('|'));
    WrittenConcat([Go("wait"), Use("", FEED)] + QuietThen('|'), [End(":")]);
  }

  lemma TrapsAreWritten()
    ensures forall i :: 13 <= i < 16 ==> Written(PREPARED[i])
  {
    NamesAre();
    OrExitIsWritten([Go("mkfifo"), Go("-m"), Go("600"), Use("", PIPE)]);
  }

  lemma BeforeIsWritten()
    ensures AllWritten(BEFORE)
  {
    AssignedIsWritten();
    FunctionsAreWritten();
    TrapsAreWritten();
    forall i | 0 <= i < |BEFORE| ensures Written(BEFORE[i]) {
      assert BEFORE[i] == if i == 0 then UMASK else if i < 5 then ASSIGNED[i - 1] else PREPARED[i - 5];
    }
  }

  lemma AfterIsWritten()
    ensures AllWritten(AFTER)
  {
    FeedIsWritten();
    WhileIsWritten();
    LoopIsWritten();
    EndIsWritten();
    forall i | 0 <= i < |AFTER| ensures Written(AFTER[i]) {
      assert i < 4 || i == 4 || 5 <= i < 10 || 10 <= i < 14;
    }
  }

  lemma FeedIsWritten()
    ensures forall i :: 0 <= i < 4 ==> Written(AFTER[i])
  {
    NamesAre();
  }

  lemma LoopIsWritten()
    ensures forall i :: 5 <= i < 10 ==> Written(AFTER[i])
  {
    NamesAre();
    QuietIsWritten('&');
    WrittenConcat([Go("if"), Go("kill"), Go("-0"), Use("", AGENT)], QUIETLY);
  }

  lemma EndIsWritten()
    ensures forall i :: 10 <= i < 14 ==> Written(AFTER[i])
  {
    NamesAre();
    QuietIsWritten('|');
    var last := [Go("kill"), Go("-KILL"), Use("-", AGENT)];
    WrittenConcat(last, QuietThen('|'));
    WrittenConcat(last + QuietThen('|'), [End(":")]);
  }

  lemma WhileIsWritten()
    ensures Written(AFTER[4])
  {
    NamesAre();
    QuietIsWritten('&');
    var agent, feed := [Go("while"), Go("kill"), Go("-0"), Use("", AGENT)], [Go("kill"), Go("-0"), Use("", FEED)];
    WrittenConcat(agent, QuietThen('&'));
    WrittenConcat(agent + QuietThen('&'), feed);
    WrittenConcat(agent + QuietThen('&') + feed, QUIETLY);
  }
}
