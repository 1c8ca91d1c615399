/** The whole inner script, read token by token by the remote shell: the words put into the
    templates of RemoteScript come out as themselves and change no token around them. */
module RemoteTokens {
  import opened Wrappers
  import opened ShellText
  import opened Confinement
  import opened ShellTokens
  import opened ShellSession
  import opened Watchdog
  import opened RemoteScript

  /** `"$HOME/tail"` for a fixed tail. */
  lemma HomeFile(tail: string)
    requires AllSafe(tail)
    ensures ReadsAs("\"$HOME/" + tail + "\"", HOME + Chars("/" + tail))
  {
    forall out ensures WordReadsFrom("\"$HOME/" + tail + "\"", Word(HOME + Chars("/" + tail), true), out) {
      var s := START.(out := out);
      var a := Reader(Double, [], true, out);
      assert "\"$HOME/" + tail + "\"" == "\"" + ("$HOME" + ['/']) + tail + "\"";
      RunConcat(s, "\"" + ("$HOME" + ['/']) + tail, "\"");
      RunConcat(s, "\"" + ("$HOME" + ['/']), tail);
      RunConcat(s, "\"", "$HOME" + ['/']);
      RunOne(s, '\"');
      DollarHomeReads(a, '/');
      assert [] + HOME + [Char('/')] == HOME + Chars("/");
      SafeInDouble(Reader(Double, HOME + Chars("/"), true, out), tail);
      HomeTail(tail);
      RunOne(Reader(Double, HOME + Chars("/" + tail), true, out), '\"');
    }
  }

  /** The directory `path` names, `home` being the home directory. */
  function PathValue(home: Text, cwd: string): Text {
    if "~/" <= cwd then home + Chars("/" + cwd[2..]) else Chars(cwd)
  }

  lemma PathReads(cwd: string)
    ensures ReadsAs(PathText(cwd), PathValue(HOME, cwd))
  {
    if "~/" <= cwd {
      HomePathReads(cwd[2..]);
    } else {
      QuoteReadsAs(cwd);
    }
  }

  lemma HomePathReads(tail: string)
    ensures ReadsAs("\"$HOME\"/" + Quote(tail), HOME + Chars("/" + tail))
  {
    forall out ensures WordReadsFrom("\"$HOME\"/" + Quote(tail), Word(HOME + Chars("/" + tail), true), out) {
      var s := START.(out := out);
      assert "\"$HOME\"/" + Quote(tail) == "\"" + ("$HOME" + ['\"']) + "/" + Quote(tail);
      RunConcat(s, "\"" + ("$HOME" + ['\"']) + "/", Quote(tail));
      HomeQuoted(out);
      QuoteReads(Reader(Bare, HOME + Chars("/"), true, out), tail);
      HomeTail(tail);
    }
  }

  lemma HomeQuoted(out: seq<Token>)
    ensures Run(START.(out := out), "\"" + ("$HOME" + ['\"']) + "/") == Reader(Bare, HOME + Chars("/"), true, out)
  {
    var s := START.(out := out);
    var a := Reader(Double, [], true, out);
    RunConcat(s, "\"" + ("$HOME" + ['\"']), "/");
    RunConcat(s, "\"", "$HOME" + ['\"']);
    RunOne(s, '\"');
    DollarHomeReads(a, '\"');
    assert [] + HOME == HOME;
    RunOne(Reader(Bare, HOME, true, out), '/');
  }

  /** What an `export` line assigns. */
  function Export(name: string, value: string): Token {
    Word(Chars(name) + [Char('=')] + Chars(value), true)
  }

  lemma AssignmentReads(name: string, value: string)
    requires EnvName(name)
    ensures WordReads(name + "=" + Quote(value), Export(name, value))
  {
    var text := name + "=" + Quote(value);
    forall out ensures WordReadsFrom(text, Export(name, value), out) {
      var s := START.(out := out);
      RunConcat(s, name + "=", Quote(value));
      SafeReads(s, name + "=");
      CharsConcat(name, "=");
      assert [] + Chars(name + "=") == Chars(name) + [Char('=')];
      QuoteReads(Reader(Bare, Chars(name) + [Char('=')], true, out), value);
    }
  }

  lemma ExportReads(name: string, value: string)
    requires EnvName(name)
    ensures Reads("export " + name + "=" + Quote(value), [W("export"), Export(name, value)])
  {
    var text := name + "=" + Quote(value);
    AssignmentReads(name, value);
    OneWord(text, Export(name, value).text);
    SafeWord("export");
    Spaced("export", text, [W("export")], [Export(name, value)]);
    assert "export" + " " == "export ";
    assert "export" + " " + text == "export " + name + "=" + Quote(value);
    assert [W("export")] + [Export(name, value)] == [W("export"), Export(name, value)];
  }

  lemma BarsRead()
    ensures Reads("||", [Op('|'), Op('|')])
  {
    Nothing();
    Opened("", [], '|');
    assert ['|'] + "" == "|" && [Op('|')] + [] == [Op('|')];
    Opened("|", [Op('|')], '|');
    assert ['|'] + "|" == "||" && [Op('|')] + [Op('|')] == [Op('|'), Op('|')];
  }

  /** `... || exit 98` after some words. */
  lemma OrExit(a: string, ta: seq<Token>)
    requires Reads(a, ta)
    ensures Reads(a + " || exit 98", ta + [Op('|'), Op('|'), W("exit"), W("98")])
  {
    TwoWords("exit", "98");
    BarsRead();
    Spaced("||", "exit" + " " + "98", [Op('|'), Op('|')], [W("exit"), W("98")]);
    assert [Op('|'), Op('|')] + [W("exit"), W("98")] == [Op('|'), Op('|'), W("exit"), W("98")];
    var tail := "||" + " " + ("exit" + " " + "98");
    Spaced(a, tail, ta, [Op('|'), Op('|'), W("exit"), W("98")]);
    assert " " + tail == " || exit 98";
    assert a + " " + tail == a + (" " + tail);
  }

  lemma CdReads(cwd: string)
    ensures Reads("cd " + PathText(cwd) + " || exit 98", CdTokens(HOME, cwd))
  {
    var at := Word(PathValue(HOME, cwd), true);
    SafeWord("cd");
    PathReads(cwd);
    OneWord(PathText(cwd), PathValue(HOME, cwd));
    Spaced("cd", PathText(cwd), [W("cd")], [at]);
    assert "cd" + " " == "cd ";
    OrExit("cd " + PathText(cwd), [W("cd")] + [at]);
    assert [W("cd")] + [at] + [Op('|'), Op('|'), W("exit"), W("98")]
        == [W("cd"), at, Op('|'), Op('|'), W("exit"), W("98")];
  }

  lemma MkdirReads(cwd: string)
    ensures Reads("mkdir -p -- " + PathText(cwd) + " || exit 98", MkdirTokens(HOME, cwd))
  {
    var at := Word(PathValue(HOME, cwd), true);
    var start := "mkdir" + " " + "-p" + " " + "--";
    MkdirWords();
    PathReads(cwd);
    OneWord(PathText(cwd), PathValue(HOME, cwd));
    Spaced(start, PathText(cwd), [W("mkdir"), W("-p"), W("--")], [at]);
    assert start + " " == "mkdir -p -- ";
    OrExit(start + " " + PathText(cwd), [W("mkdir"), W("-p"), W("--")] + [at]);
    assert [W("mkdir"), W("-p"), W("--")] + [at] + [Op('|'), Op('|'), W("exit"), W("98")]
           == [W("mkdir"), W("-p"), W("--"), at, Op('|'), Op('|'), W("exit"), W("98")];
  }

  lemma MkdirWords()
    ensures Reads("mkdir" + " " + "-p" + " " + "--", [W("mkdir"), W("-p"), W("--")])
  {
    TwoWords("mkdir", "-p");
    SafeWord("--");
    Spaced("mkdir" + " " + "-p", "--", [W("mkdir"), W("-p")], [W("--")]);
    assert [W("mkdir"), W("-p")] + [W("--")] == [W("mkdir"), W("-p"), W("--")];
  }

  // ----- the prepared defaults -----

  function TestTokens(file: Text): seq<Token> {
    [Word(Chars("["), false), W("-e"), Word(file, true), W("]")]
  }

  function CreateTokens(file: Text, body: string): seq<Token> {
    [W("printf"), W("%s"), W(body), Op('>'), Word(file, true), Op(')')]
  }

  function PrepareTokens(home: Text, name: string, body: string): seq<Token> {
    var file := home + Chars("/" + name);
    TestTokens(file) + [Op('|'), Op('|'), Op('('), W("umask"), W("077"), Op(';'), W("set"), W("-C"), Op(';')]
        + CreateTokens(file, body)
  }

  lemma TestReads(text: string, file: Text)
    requires ReadsAs(text, file)
    ensures Reads(TestText(text), TestTokens(file))
  {
    OneWord(text, file);
    BracketReads('[', [Word(Chars("["), false)]);
    BracketReads(']', [W("]")]);
    SafeWord("-e");
    Spaced("[", "-e", [Word(Chars("["), false)], [W("-e")]);
    Spaced("[" + " " + "-e", text, [Word(Chars("["), false)] + [W("-e")], [Word(file, true)]);
    Spaced("[" + " " + "-e" + " " + text, "]", [Word(Chars("["), false)] + [W("-e")] + [Word(file, true)], [W("]")]);
    assert "[" + " " + "-e" + " " == "[ -e ";
    assert "[" + " " + "-e" + " " + text + " " + "]" == "[ -e " + text + " ]";
    assert [Word(Chars("["), false)] + [W("-e")] + [Word(file, true)] + [W("]")] == TestTokens(file);
  }

  lemma CreateReads(text: string, file: Text, body: string)
    requires ReadsAs(text, file)
    ensures Reads(CreateText(text, body), CreateTokens(file, body))
  {
    OneWord(text, file);
    QuoteReadsAs(body);
    OneWord(Quote(body), Chars(body));
    TwoWords("printf", "%s");
    OpAlone('>');
    var a := "printf" + " " + "%s";
    Spaced(a, Quote(body), [W("printf"), W("%s")], [W(body)]);
    Spaced(a + " " + Quote(body), ">", [W("printf"), W("%s")] + [W(body)], [Op('>')]);
    Spaced(a + " " + Quote(body) + " " + ">", text, [W("printf"), W("%s")] + [W(body)] + [Op('>')], [Word(file, true)]);
    Closed(a + " " + Quote(body) + " " + ">" + " " + text,
           [W("printf"), W("%s")] + [W(body)] + [Op('>')] + [Word(file, true)], ')');
    assert a + " " == "printf %s ";
    assert a + " " + Quote(body) + " " + ">" + " " + text + [')'] == "printf %s " + Quote(body) + " > " + text + ")";
    assert [W("printf"), W("%s")] + [W(body)] + [Op('>')] + [Word(file, true)] + [Op(')')] == CreateTokens(file, body);
  }

  lemma UmaskReads()
    ensures Reads("(umask 077", [Op('('), W("umask"), W("077")])
  {
    TwoWords("umask", "077");
    Opened("umask" + " " + "077", [W("umask"), W("077")], '(');
    assert ['('] + ("umask" + " " + "077") == "(umask 077";
    assert [Op('(')] + [W("umask"), W("077")] == [Op('('), W("umask"), W("077")];
  }

  lemma PrepareReads(name: string, body: string)
    requires AllSafe(name)
    ensures Reads(PrepareLine(name, body), PrepareTokens(HOME, name, body))
  {
    var text, file := HomeFileText(name), HOME + Chars("/" + name);
    var test, create := TestText(text), CreateText(text, body);
    HomeFile(name);
    TestReads(text, file);
    BarsRead();
    UmaskReads();
    TwoWords("set", "-C");
    CreateReads(text, file, body);
    var bars, open := [Op('|'), Op('|')], [Op('('), W("umask"), W("077")];
    Spaced(test, "||", TestTokens(file), bars);
    Spaced(test + " " + "||", "(umask 077", TestTokens(file) + bars, open);
    var start, starting := test + " " + "||" + " " + "(umask 077", TestTokens(file) + bars + open;
    AfterSemicolon(start, "set" + " " + "-C", starting, [W("set"), W("-C")]);
    AfterSemicolon(start + "; " + ("set" + " " + "-C"), create, starting + [Op(';')] + [W("set"), W("-C")],
                   CreateTokens(file, body));
    PrepareText(test, create);
    assert starting + [Op(';')] + [W("set"), W("-C")] + [Op(';')] + CreateTokens(file, body)
        == PrepareTokens(HOME, name, body);
  }

  lemma PrepareText(test: string, create: string)
    ensures test + " " + "||" + " " + "(umask 077" + "; " + ("set" + " " + "-C") + "; " + create
            == test + " || (umask 077; set -C; " + create
  {
    var middle := " " + "||" + " " + "(umask 077" + "; " + ("set" + " " + "-C") + "; ";
    assert middle == " || (umask 077; set -C; ";
    assert test + " " + "||" + " " + "(umask 077" + "; " + ("set" + " " + "-C") + "; " + create
        == test + middle + create;
  }

  // ----- the agent's line -----

  lemma {:induction false} DecimalSafe(n: nat)
    ensures Decimal(n) != "" && AllSafe(Decimal(n))
  {
    if n >= 10 {
      DecimalSafe(n / 10);
    }
  }

  function ProbeTokens(tool: string): seq<Token> {
    [W("if"), W("command"), W("-v"), W(tool), Op('>'), W("/dev/null"), W("2"), Op('>'), Op('&'), W("1")]
  }

  /** `if command -v tool >/dev/null 2>&1`. */
  lemma ProbeReads(tool: string)
    requires tool != "" && AllSafe(tool)
    ensures Reads("if command -v " + tool + " >/dev/null 2>&1", ProbeTokens(tool))
  {
    TwoWords("if", "command");
    TwoWords("-v", tool);
    Spaced("if" + " " + "command", "-v" + " " + tool, [W("if"), W("command")], [W("-v"), W(tool)]);
    RedirectsRead();
    var a, ta := "if" + " " + "command" + " " + ("-v" + " " + tool), [W("if"), W("command")] + [W("-v"), W(tool)];
    var redirects := [Op('>'), W("/dev/null"), W("2"), Op('>'), Op('&'), W("1")];
    Spaced(a, ">/dev/null 2>&1", ta, redirects);
    assert "if" + " " + "command" + " " + "-v" + " " == "if command -v ";
    assert " " + ">/dev/null 2>&1" == " >/dev/null 2>&1";
    assert a + " " + ">/dev/null 2>&1"
        == ("if" + " " + "command" + " " + "-v" + " ") + tool + (" " + ">/dev/null 2>&1");
    assert ta + redirects == ProbeTokens(tool);
  }

  lemma RedirectsRead()
    ensures Reads(">/dev/null 2>&1", [Op('>'), W("/dev/null"), W("2"), Op('>'), Op('&'), W("1")])
  {
    SafeWord("/dev/null");
    Opened("/dev/null", [W("/dev/null")], '>');
    SafeWord("1");
    Opened("1", [W("1")], '&');
    SafeWord("2");
    AfterOp("2", ['&'] + "1", [W("2")], [Op('&')] + [W("1")], '>');
    Spaced(['>'] + "/dev/null", "2" + ['>'] + (['&'] + "1"), [Op('>')] + [W("/dev/null")],
           [W("2")] + [Op('>')] + ([Op('&')] + [W("1")]));
    assert ['>'] + "/dev/null" + " " + ("2" + ['>'] + (['&'] + "1")) == ">/dev/null 2>&1";
    assert [Op('>')] + [W("/dev/null")] + ([W("2")] + [Op('>')] + ([Op('&')] + [W("1")]))
           == [Op('>'), W("/dev/null"), W("2"), Op('>'), Op('&'), W("1")];
  }

  function TimeoutTokens(seconds: nat, agent: seq<Token>): seq<Token> {
    ProbeTokens("timeout") + [Op(';')]
    + ([W("then"), W("exec"), W("timeout"), W("-k"), W("5"), W(Decimal(seconds))] + agent) + [Op(';')]
    + ([W("else"), W("exec")] + agent) + [Op(';')] + [W("fi")]
  }

  lemma ThenText(first: string, second: string, d: string)
    requires first == "then" + " " + "exec" && second == "timeout" + " " + "-k"
    ensures first + " " + second + " " + ("5" + " " + d) == "then exec timeout -k 5 " + d
  {
    assert first == "then exec" && second == "timeout -k";
    assert first + " " + second == "then exec timeout -k";
    assert first + " " + second + " " + "5" + " " == "then exec timeout -k 5 ";
  }

  lemma {:induction false} ThenReads(seconds: nat)
    ensures Reads("then exec timeout -k 5 " + Decimal(seconds),
                  [W("then"), W("exec"), W("timeout"), W("-k"), W("5"), W(Decimal(seconds))])
  {
    DecimalSafe(seconds);
    TwoWords("then", "exec");
    TwoWords("timeout", "-k");
    TwoWords("5", Decimal(seconds));
    var d := Decimal(seconds);
    var first, second := "then" + " " + "exec", "timeout" + " " + "-k";
    Spaced(first, second, [W("then"), W("exec")], [W("timeout"), W("-k")]);
    Spaced(first + " " + second, "5" + " " + d, [W("then"), W("exec")] + [W("timeout"), W("-k")], [W("5"), W(d)]);
    ThenText(first, second, d);
    assert [W("then"), W("exec")] + [W("timeout"), W("-k")] + [W("5"), W(d)]
           == [W("then"), W("exec"), W("timeout"), W("-k"), W("5"), W(d)];
  }

  lemma TimeoutReads(seconds: nat, agent: string, toks: seq<Token>)
    requires Reads(agent, toks)
    ensures Reads(TimeoutLine(seconds, agent), TimeoutTokens(seconds, toks))
  {
    ProbeReads("timeout");
    ThenReads(seconds);
    TwoWords("else", "exec");
    SafeWord("fi");
    var probe, other := "if command -v " + "timeout" + " >/dev/null 2>&1", "else" + " " + "exec";
    var run := "then exec timeout -k 5 " + Decimal(seconds);
    var running := [W("then"), W("exec"), W("timeout"), W("-k"), W("5"), W(Decimal(seconds))];
    Spaced(run, agent, running, toks);
    Spaced(other, agent, [W("else"), W("exec")], toks);
    AfterSemicolon(probe, run + " " + agent, ProbeTokens("timeout"), running + toks);
    AfterSemicolon(probe + "; " + (run + " " + agent), other + " " + agent,
                   ProbeTokens("timeout") + [Op(';')] + (running + toks), [W("else"), W("exec")] + toks);
    AfterSemicolon(probe + "; " + (run + " " + agent) + "; " + (other + " " + agent), "fi",
                   ProbeTokens("timeout") + [Op(';')] + (running + toks) + [Op(';')]
                       + ([W("else"), W("exec")] + toks), [W("fi")]);
    TimeoutText(seconds, agent, probe, run, other);
  }

  lemma {:induction false} TimeoutText(seconds: nat, agent: string, probe: string, run: string, other: string)
    requires probe == "if command -v " + "timeout" + " >/dev/null 2>&1"
    requires run == "then exec timeout -k 5 " + Decimal(seconds) && other == "else" + " " + "exec"
    ensures probe + "; " + (run + " " + agent) + "; " + (other + " " + agent) + "; " + "fi"
            == TimeoutLine(seconds, agent)
  {
    var d := Decimal(seconds);
    assert "if command -v " + "timeout" == "if command -v timeout";
    assert probe == "if command -v timeout >/dev/null 2>&1";
    assert probe + "; " + "then exec timeout -k 5 " == "if command -v timeout >/dev/null 2>&1; then exec timeout -k 5 ";
    assert "; " + other + " " == "; else exec ";
    assert "; " + "fi" == "; fi";
    TimeoutGroups(probe, "then exec timeout -k 5 ", d, agent, other, "fi");
  }

  lemma TimeoutGroups(probe: string, run: string, d: string, agent: string, other: string, end: string)
    ensures probe + "; " + (run + d + " " + agent) + "; " + (other + " " + agent) + "; " + end
            == (probe + "; " + run) + d + " " + agent + ("; " + other + " ") + agent + ("; " + end)
  {
  }

  function LaunchTokens(agent: seq<Token>, input: Text): seq<Token> {
    ProbeTokens("setsid") + [Op(';')] + ([W("then"), W("setsid")] + agent)
        + [Op('<'), Word(input, true), Op('&'), W("else")]
    + agent + [Op('<'), Word(input, true), Op('&'), W("fi")]
  }

  const INPUT: Text := [Param(PIPE)]

  /** `"$FRIDICA_IN"`: the private pipe. */
  lemma PipeReads()
    ensures Reads("\"$FRIDICA_IN\"", [Word(INPUT, true)])
  {
    forall out ensures WordReadsFrom("\"$FRIDICA_IN\"", Word(INPUT, true), out) {
      var s := START.(out := out);
      var a := Reader(Double, [], true, out);
      assert "$" + "FRIDICA_IN" + ['\"'] == "$FRIDICA_IN\"";
      assert "\"$FRIDICA_IN\"" == "\"" + "$FRIDICA_IN\"";
      RunConcat(s, "\"", "$FRIDICA_IN\"");
      RunOne(s, '\"');
      DollarReads(a, "FRIDICA_IN", '\"');
      assert [] + INPUT == INPUT;
    }
    OneWord("\"$FRIDICA_IN\"", INPUT);
  }

  lemma BackgroundReads(word: string)
    requires word != "" && AllSafe(word)
    ensures Reads("< \"$FRIDICA_IN\" & " + word, [Op('<'), Word(INPUT, true), Op('&'), W(word)])
  {
    var v := Word(INPUT, true);
    var pipe := "\"$FRIDICA_IN\"";
    PipeReads();
    OpAlone('<');
    OpAlone('&');
    SafeWord(word);
    Spaced("<", pipe, [Op('<')], [v]);
    Spaced("<" + " " + pipe, "&", [Op('<')] + [v], [Op('&')]);
    Spaced("<" + " " + pipe + " " + "&", word, [Op('<')] + [v] + [Op('&')], [W(word)]);
    assert "<" + " " + pipe == "< \"$FRIDICA_IN\"";
    assert "<" + " " + pipe + " " + "&" + " " == "< \"$FRIDICA_IN\" & ";
    assert [Op('<')] + [v] + [Op('&')] + [W(word)] == [Op('<'), v, Op('&'), W(word)];
  }

  /** The watchdog's launch line starts exactly the agent, with and without `setsid`. */
  lemma LaunchReads(agent: string, toks: seq<Token>)
    requires Reads(agent, toks)
    ensures Reads(LaunchLine(agent), LaunchTokens(toks, INPUT))
  {
    var v := Word(INPUT, true);
    ProbeReads("setsid");
    TwoWords("then", "setsid");
    BackgroundReads("else");
    BackgroundReads("fi");
    var probe, run := "if command -v " + "setsid" + " >/dev/null 2>&1", "then" + " " + "setsid";
    var otherwise, end := "< \"$FRIDICA_IN\" & " + "else", "< \"$FRIDICA_IN\" & " + "fi";
    var elseToks, endToks := [Op('<'), v, Op('&'), W("else")], [Op('<'), v, Op('&'), W("fi")];
    Spaced(run, agent, [W("then"), W("setsid")], toks);
    AfterSemicolon(probe, run + " " + agent, ProbeTokens("setsid"), [W("then"), W("setsid")] + toks);
    var one := probe + "; " + (run + " " + agent);
    var oneToks := ProbeTokens("setsid") + [Op(';')] + ([W("then"), W("setsid")] + toks);
    Spaced(one, otherwise, oneToks, elseToks);
    Spaced(one + " " + otherwise, agent, oneToks + elseToks, toks);
    Spaced(one + " " + otherwise + " " + agent, end, oneToks + elseToks + toks, endToks);
    LaunchText(agent, probe, run, otherwise, end);
  }

  lemma LaunchText(agent: string, probe: string, run: string, otherwise: string, end: string)
    requires probe == "if command -v " + "setsid" + " >/dev/null 2>&1" && run == "then" + " " + "setsid"
    requires otherwise == "< \"$FRIDICA_IN\" & " + "else" && end == "< \"$FRIDICA_IN\" & " + "fi"
    ensures probe + "; " + (run + " " + agent) + " " + otherwise + " " + agent + " " + end == LaunchLine(agent)
  {
    assert "if command -v " + "setsid" == "if command -v setsid";
    assert probe == "if command -v setsid >/dev/null 2>&1";
    assert run + " " == "then setsid ";
    assert " " + otherwise + " " == " < \"$FRIDICA_IN\" & else ";
    assert " " + end == " < \"$FRIDICA_IN\" & fi";
    LaunchGroups(probe, run, agent, otherwise, end);
    LaunchStarts(probe, run);
  }

  lemma LaunchGroups(probe: string, run: string, agent: string, otherwise: string, end: string)
    ensures probe + "; " + (run + " " + agent) + " " + otherwise + " " + agent + " " + end
            == (probe + "; " + (run + " ")) + agent + (" " + otherwise + " ") + agent + (" " + end)
  {
  }

  lemma LaunchStarts(probe: string, run: string)
    requires probe == "if command -v setsid >/dev/null 2>&1" && run + " " == "then setsid "
    ensures probe + "; " + (run + " ") == "if command -v setsid >/dev/null 2>&1; then setsid "
  {
  }

  // ----- the lines before the agent's -----

  function Directories(home: Text): seq<Token> {
    [W("mkdir"), W("-p"), Word(home + Chars("/" + ".claude/hooks"), true), Word(home + Chars("/" + ".codex"), true)]
  }

  function PreparedTokens(home: Text): seq<seq<Token>> {
    [Directories(home)]
    + seq(|DEFAULTS|, i requires 0 <= i < |DEFAULTS| => PrepareTokens(home, DEFAULTS[i].0, DEFAULTS[i].1))
  }

  lemma FirstPrepareReads()
    ensures Reads("mkdir -p " + HomeFileText(".claude/hooks") + " " + HomeFileText(".codex"), Directories(HOME))
  {
    var a, b := HomeFileText(".claude/hooks"), HomeFileText(".codex");
    var va, vb := HOME + Chars("/" + ".claude/hooks"), HOME + Chars("/" + ".codex");
    HomeFile(".claude/hooks");
    HomeFile(".codex");
    OneWord(a, va);
    OneWord(b, vb);
    TwoWords("mkdir", "-p");
    Spaced("mkdir" + " " + "-p", a, [W("mkdir"), W("-p")], [Word(va, true)]);
    Spaced("mkdir" + " " + "-p" + " " + a, b, [W("mkdir"), W("-p")] + [Word(va, true)], [Word(vb, true)]);
    assert "mkdir" + " " + "-p" + " " == "mkdir -p ";
    assert [W("mkdir"), W("-p")] + [Word(va, true)] + [Word(vb, true)] == Directories(HOME);
  }

  lemma PrepareScriptReads()
    ensures Reads(PrepareScript(), JoinTokens(PreparedTokens(HOME)))
  {
    var lines := ["mkdir -p " + HomeFileText(".claude/hooks") + " " + HomeFileText(".codex")] + PrepareLines(DEFAULTS);
    var toks := PreparedTokens(HOME);
    forall i | 0 <= i < |lines| ensures Reads(lines[i], toks[i]) {
      if i == 0 {
        FirstPrepareReads();
      } else {
        DefaultsSafe(i - 1);
        PrepareReads(DEFAULTS[i - 1].0, DEFAULTS[i - 1].1);
      }
    }
    LinesRead(lines, toks);
  }

  lemma DefaultsSafe(i: nat)
    requires i < |DEFAULTS|
    ensures AllSafe(DEFAULTS[i].0)
  {
  }

  function StartTokens(vars: seq<(string, string)>): seq<seq<Token>> {
    [[W("set"), W("-u")]] + seq(|vars|, i requires 0 <= i < |vars| => [W("export"), Export(vars[i].0, vars[i].1)])
  }

  function CdTokens(home: Text, cwd: string): seq<Token> {
    [W("cd"), Word(PathValue(home, cwd), true), Op('|'), Op('|'), W("exit"), W("98")]
  }

  function MkdirTokens(home: Text, cwd: string): seq<Token> {
    [W("mkdir"), W("-p"), W("--"), Word(PathValue(home, cwd), true), Op('|'), Op('|'), W("exit"), W("98")]
  }

  /** The lines after the exports. */
  function PlaceTokens(home: Text, cwd: string, create: bool, confined: bool): seq<seq<Token>> {
    (if confined then [JoinTokens(PreparedTokens(home))] else []) + (if create then [MkdirTokens(home, cwd)] else [])
    + [CdTokens(home, cwd)]
  }

  /** The tokens of every line before the agent's, `home` being the home directory. */
  function SetupTokens(home: Text, cwd: string, vars: seq<(string, string)>, create: bool,
                       confined: bool): seq<seq<Token>> {
    StartTokens(vars) + PlaceTokens(home, cwd, create, confined)
  }

  lemma StartReads(vars: seq<(string, string)>)
    requires forall i :: 0 <= i < |vars| ==> ValidVar(vars[i])
    ensures AllRead(["set -u"] + Exports(vars), StartTokens(vars))
  {
    SetReads();
    var toks := seq(|vars|, i requires 0 <= i < |vars| => [W("export"), Export(vars[i].0, vars[i].1)]);
    forall i | 0 <= i < |vars| ensures Reads(Exports(vars)[i], toks[i]) {
      assert ValidVar(vars[i]);
      ExportReads(vars[i].0, vars[i].1);
    }
    ReadTogether(["set -u"], [[W("set"), W("-u")]], Exports(vars), toks);
  }

  lemma SetReads()
    ensures AllRead(["set -u"], [[W("set"), W("-u")]])
  {
    TwoWords("set", "-u");
    assert "set" + " " + "-u" == "set -u";
  }

  lemma OneMore(lines: seq<string>, toks: seq<seq<Token>>, line: string, tok: seq<Token>)
    requires AllRead(lines, toks) && Reads(line, tok)
    ensures AllRead(lines + [line], toks + [tok])
  {
  }

  lemma ReadTogether(a: seq<string>, ta: seq<seq<Token>>, b: seq<string>, tb: seq<seq<Token>>)
    requires AllRead(a, ta) && AllRead(b, tb)
    ensures AllRead(a + b, ta + tb)
  {
  }

  lemma SetupLinesRead(cwd: string, vars: seq<(string, string)>, create: bool, confined: bool)
    requires forall i :: 0 <= i < |vars| ==> ValidVar(vars[i])
    ensures AllRead(Setup(cwd, vars, create, confined), SetupTokens(HOME, cwd, vars, create, confined))
  {
    var lines, toks := ["set -u"] + Exports(vars), StartTokens(vars);
    StartReads(vars);
    if confined {
      PrepareScriptReads();
      OneMore(lines, toks, PrepareScript(), JoinTokens(PreparedTokens(HOME)));
      lines, toks := lines + [PrepareScript()], toks + [JoinTokens(PreparedTokens(HOME))];
    }
    if create {
      MkdirReads(cwd);
      OneMore(lines, toks, "mkdir -p -- " + PathText(cwd) + " || exit 98", MkdirTokens(HOME, cwd));
      lines, toks := lines + ["mkdir -p -- " + PathText(cwd) + " || exit 98"], toks + [MkdirTokens(HOME, cwd)];
    }
    CdReads(cwd);
    OneMore(lines, toks, "cd " + PathText(cwd) + " || exit 98", CdTokens(HOME, cwd));
    assert toks + [CdTokens(HOME, cwd)] == SetupTokens(HOME, cwd, vars, create, confined);
  }
}
