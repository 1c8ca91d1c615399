/** The inner script as it is run: read whole, then command by command, each in the environment that the
    exports and assignments before it leave (src/exec/ssh.rs:64-146). */
module RemoteSession {
  import opened Wrappers
  import opened ShellText
  import opened ShellTokens
  import opened ShellSession
  import opened Confinement
  import opened Watchdog
  import opened RemoteScript
  import opened RemoteTokens

  /** The environment after the exports. */
  function Exported(env: Env, vars: seq<(string, string)>): Env {
    if vars == [] then env else
      Exported(env, vars[..|vars| - 1])[vars[|vars| - 1].0 := vars[|vars| - 1].1]
  }

  // ----- the exports -----

  lemma ExportIsFixed(see: Sight, name: string, value: string)
    ensures ResolveAll(see, [W("export"), Export(name, value)]) == [W("export"), Export(name, value)]
  {
    CharsConcat(name, "=");
    CharsConcat(name + "=", value);
    assert Export(name, value).text == Chars(name + "=" + value);
    ValueChars(see, name + "=" + value);
    ValueChars(see, "export");
  }

  lemma {:induction false} ExportPlays(see: Sight, name: string, value: string)
    requires EnvName(name)
    ensures Played(see, [W("export"), Export(name, value)]) == [W("export"), Export(name, value)]
    ensures Left(see, [W("export"), Export(name, value)]) == see.env[name := value]
  {
    var command := [W("export"), Export(name, value)];
    SemiIs(command, []);
    ExportIsFixed(see, name, value);
    ExportSets(see, name, Chars(value));
    ValueChars(see, value);
  }

  lemma {:induction false} JoinOneMore(lines: seq<seq<Token>>, line: seq<Token>)
    requires lines != []
    ensures JoinTokens(lines + [line]) == JoinTokens(lines) + [Op(';')] + line
  {
    assert (lines + [line])[..|lines|] == lines;
  }

  lemma {:induction false} SetPlays(see: Sight)
    ensures Played(see, [W("set"), W("-u")]) == [W("set"), W("-u")] && Left(see, [W("set"), W("-u")]) == see.env
  {
    SetIsStill();
    assert StillIn(see, [W("set"), W("-u")]);
    ValueChars(see, "set");
    ValueChars(see, "-u");
  }

  lemma StartGrows(vars: seq<(string, string)>)
    requires vars != []
    ensures var n := |vars| - 1;
            StartTokens(vars) == StartTokens(vars[..n]) + [[W("export"), Export(vars[n].0, vars[n].1)]]
  {
  }

  lemma {:induction false} StartPlays(see: Sight, vars: seq<(string, string)>)
    requires forall i :: 0 <= i < |vars| ==> ValidVar(vars[i])
    ensures Played(see, JoinTokens(StartTokens(vars))) == JoinTokens(StartTokens(vars))
    ensures Left(see, JoinTokens(StartTokens(vars))) == Exported(see.env, vars)
  {
    if vars == [] {
      assert StartTokens(vars) == [[W("set"), W("-u")]];
      SetPlays(see);
    } else {
      var n := |vars| - 1;
      StartPlays(see, vars[..n]);
      StartGrows(vars);
      assert ValidVar(vars[n]);
      MorePlays(see, StartTokens(vars[..n]), vars[n].0, vars[n].1);
    }
  }

  lemma {:induction false} MorePlays(see: Sight, front: seq<seq<Token>>, name: string, value: string)
    requires front != [] && EnvName(name) && Played(see, JoinTokens(front)) == JoinTokens(front)
    ensures var lines := front + [[W("export"), Export(name, value)]];
            && Played(see, JoinTokens(lines)) == JoinTokens(lines)
            && Left(see, JoinTokens(lines)) == Left(see, JoinTokens(front))[name := value]
  {
    var last := [W("export"), Export(name, value)];
    JoinOneMore(front, last);
    PlayedConcat(see, JoinTokens(front), last);
    ExportPlays(Later(see, JoinTokens(front)), name, value);
  }

  // ----- the lines that change no parameter -----

  /** A command that begins with a plain word other than `export`. */
  lemma FirstIsPlain(w: string, rest: seq<Token>)
    requires '=' !in w && w != "export" && Op(';') !in rest
    ensures Still([W(w)] + rest)
  {
    NoEqualsNoName(Chars(w));
    if W(w) == W("export") {
      SameChars(w, "export");
    }
    InertIsStill([W(w)] + rest);
  }

  lemma SameChars(a: string, b: string)
    requires Chars(a) == Chars(b)
    ensures a == b
  {
    forall i | 0 <= i < |a| ensures a[i] == b[i] {
      assert Chars(a)[i] == Chars(b)[i];
    }
  }

  lemma SetIsStill()
    ensures Still([W("set"), W("-u")])
  {
    FirstIsPlain("set", [W("-u")]);
    assert [W("set")] + [W("-u")] == [W("set"), W("-u")];
  }

  lemma CdIsStill(home: Text, cwd: string)
    ensures Still(CdTokens(home, cwd))
  {
    FirstIsPlain("cd", CdTokens(home, cwd)[1..]);
    assert [W("cd")] + CdTokens(home, cwd)[1..] == CdTokens(home, cwd);
  }

  lemma MkdirIsStill(home: Text, cwd: string)
    ensures Still(MkdirTokens(home, cwd)) && Still(Directories(home))
  {
    FirstIsPlain("mkdir", MkdirTokens(home, cwd)[1..]);
    assert [W("mkdir")] + MkdirTokens(home, cwd)[1..] == MkdirTokens(home, cwd);
    FirstIsPlain("mkdir", Directories(home)[1..]);
    assert [W("mkdir")] + Directories(home)[1..] == Directories(home);
  }

  lemma PrepareIsStill(home: Text, name: string, body: string)
    ensures Still(PrepareTokens(home, name, body))
  {
    var file := home + Chars("/" + name);
    var test := TestTokens(file) + [Op('|'), Op('|'), Op('('), W("umask"), W("077")];
    NoEqualsNoName(Chars("["));
    assert test[0] == Word(Chars("["), false);
    InertIsStill(test);
    FirstIsPlain("set", [W("-C")]);
    FirstIsPlain("printf", CreateTokens(file, body)[1..]);
    assert [W("printf")] + CreateTokens(file, body)[1..] == CreateTokens(file, body);
    StillBoth(test, [W("set")] + [W("-C")]);
    StillBoth(test + [Op(';')] + ([W("set")] + [W("-C")]), CreateTokens(file, body));
    assert test + [Op(';')] + ([W("set")] + [W("-C")]) + [Op(';')] + CreateTokens(file, body)
        == PrepareTokens(home, name, body);
  }

  lemma PreparedIsStill(home: Text)
    ensures Still(JoinTokens(PreparedTokens(home)))
  {
    var lines := PreparedTokens(home);
    forall i | 0 <= i < |lines| ensures Still(lines[i]) {
      if i == 0 {
        MkdirIsStill(home, "");
      } else {
        PrepareIsStill(home, DEFAULTS[i - 1].0, DEFAULTS[i - 1].1);
      }
    }
    StillLines(lines);
  }

  lemma PlaceIsStill(home: Text, cwd: string, create: bool, confined: bool)
    ensures Still(JoinTokens(PlaceTokens(home, cwd, create, confined)))
  {
    PreparedIsStill(home);
    MkdirIsStill(home, cwd);
    CdIsStill(home, cwd);
    StillLines(PlaceTokens(home, cwd, create, confined));
  }

  lemma ProbeIsStill(tool: string)
    ensures Still(ProbeTokens(tool))
  {
    FirstIsPlain("if", ProbeTokens(tool)[1..]);
    assert [W("if")] + ProbeTokens(tool)[1..] == ProbeTokens(tool);
  }

  lemma TimeoutIsStill(seconds: nat, agent: seq<Token>)
    requires Op(';') !in agent
    ensures Still(TimeoutTokens(seconds, agent))
  {
    var start, other := [W("exec"), W("timeout"), W("-k"), W("5"), W(Decimal(seconds))], [W("exec")];
    ProbeIsStill("timeout");
    FirstIsPlain("then", start + agent);
    FirstIsPlain("else", other + agent);
    FirstIsPlain("fi", []);
    var first, second := [W("then")] + (start + agent), [W("else")] + (other + agent);
    StillBoth(ProbeTokens("timeout"), first);
    StillBoth(ProbeTokens("timeout") + [Op(';')] + first, second);
    StillBoth(ProbeTokens("timeout") + [Op(';')] + first + [Op(';')] + second, [W("fi")] + []);
    assert first == [W("then"), W("exec"), W("timeout"), W("-k"), W("5"), W(Decimal(seconds))] + agent;
    assert second == [W("else"), W("exec")] + agent && [W("fi")] + [] == [W("fi")];
  }

  // ----- what their words give -----

  lemma {:induction false} HomeWord(see: Sight, h: string, tail: string)
    requires HomeIs(see, h)
    ensures Value(see, HOME + Chars(tail)) == Value(see, Chars(h) + Chars(tail)) == h + tail
    ensures Chars(Value(see, HOME + Chars(tail))) == Chars(h) + Chars(tail)
  {
    HomeValue(see, h, tail);
    CharsConcat(h, tail);
    ValueChars(see, h + tail);
  }

  lemma {:induction false} PathWord(see: Sight, h: string, cwd: string)
    requires HomeIs(see, h)
    ensures Chars(Value(see, PathValue(HOME, cwd))) == PathValue(Chars(h), cwd)
  {
    if "~/" <= cwd {
      HomeWord(see, h, "/" + cwd[2..]);
    } else {
      ValueChars(see, cwd);
    }
  }

  lemma FixedWord(see: Sight, w: string)
    ensures Resolve(see, W(w)) == W(w)
  {
    ValueChars(see, w);
  }

  lemma CdValues(see: Sight, h: string, cwd: string)
    requires HomeIs(see, h)
    ensures ResolveAll(see, CdTokens(HOME, cwd)) == CdTokens(Chars(h), cwd)
  {
    PathWord(see, h, cwd);
    FixedWord(see, "cd");
    FixedWord(see, "exit");
    FixedWord(see, "98");
  }

  lemma MkdirValues(see: Sight, h: string, cwd: string)
    requires HomeIs(see, h)
    ensures ResolveAll(see, MkdirTokens(HOME, cwd)) == MkdirTokens(Chars(h), cwd)
  {
    PathWord(see, h, cwd);
    FixedWord(see, "mkdir");
    FixedWord(see, "-p");
    FixedWord(see, "--");
    FixedWord(see, "exit");
    FixedWord(see, "98");
  }

  lemma DirectoriesValues(see: Sight, h: string)
    requires HomeIs(see, h)
    ensures ResolveAll(see, Directories(HOME)) == Directories(Chars(h))
  {
    HomeWord(see, h, "/" + ".claude/hooks");
    HomeWord(see, h, "/" + ".codex");
    FixedWord(see, "mkdir");
    FixedWord(see, "-p");
  }

  lemma PrepareValues(see: Sight, h: string, name: string, body: string)
    requires HomeIs(see, h)
    ensures ResolveAll(see, PrepareTokens(HOME, name, body)) == PrepareTokens(Chars(h), name, body)
  {
    var file, given := HOME + Chars("/" + name), Chars(h) + Chars("/" + name);
    HomeWord(see, h, "/" + name);
    TestValues(see, file, given);
    CreateValues(see, file, given, body);
    var middle := [Op('|'), Op('|'), Op('('), W("umask"), W("077"), Op(';'), W("set"), W("-C"), Op(';')];
    FixedWord(see, "umask");
    FixedWord(see, "077");
    FixedWord(see, "set");
    FixedWord(see, "-C");
    assert ResolveAll(see, middle) == middle;
    ResolveConcat(see, TestTokens(file), middle);
    ResolveConcat(see, TestTokens(file) + middle, CreateTokens(file, body));
  }

  lemma {:induction false} TestValues(see: Sight, file: Text, given: Text)
    requires Chars(Value(see, file)) == given
    ensures ResolveAll(see, TestTokens(file)) == TestTokens(given)
  {
    ValueChars(see, "[");
    FixedWord(see, "-e");
    FixedWord(see, "]");
  }

  lemma {:induction false} CreateValues(see: Sight, file: Text, given: Text, body: string)
    requires Chars(Value(see, file)) == given
    ensures ResolveAll(see, CreateTokens(file, body)) == CreateTokens(given, body)
  {
    FixedWord(see, "printf");
    FixedWord(see, "%s");
    FixedWord(see, body);
  }

  lemma PreparedValues(see: Sight, h: string)
    requires HomeIs(see, h)
    ensures ResolveAll(see, JoinTokens(PreparedTokens(HOME))) == JoinTokens(PreparedTokens(Chars(h)))
  {
    var lines, values := PreparedTokens(HOME), PreparedTokens(Chars(h));
    forall i | 0 <= i < |lines| ensures ResolveAll(see, lines[i]) == values[i] {
      if i == 0 {
        DirectoriesValues(see, h);
      } else {
        PrepareValues(see, h, DEFAULTS[i - 1].0, DEFAULTS[i - 1].1);
      }
    }
    ResolveLines(see, lines, values);
  }

  lemma PlaceValues(see: Sight, h: string, cwd: string, create: bool, confined: bool)
    requires HomeIs(see, h)
    ensures ResolveAll(see, JoinTokens(PlaceTokens(HOME, cwd, create, confined)))
            == JoinTokens(PlaceTokens(Chars(h), cwd, create, confined))
  {
    PreparedValues(see, h);
    MkdirValues(see, h, cwd);
    CdValues(see, h, cwd);
    ResolveLines(see, PlaceTokens(HOME, cwd, create, confined), PlaceTokens(Chars(h), cwd, create, confined));
  }

  // ----- the setup -----

  lemma {:induction false} SetupPlays(see: Sight, h: string, cwd: string, vars: seq<(string, string)>, create: bool,
                                      confined: bool)
    requires (forall i :: 0 <= i < |vars| ==> ValidVar(vars[i])) && HomeIs(see.(env := Exported(see.env, vars)), h)
    ensures var ts := JoinTokens(SetupTokens(HOME, cwd, vars, create, confined));
            && Played(see, ts) == JoinTokens(SetupTokens(Chars(h), cwd, vars, create, confined))
            && Left(see, ts) == Exported(see.env, vars)
  {
    var start, place := StartTokens(vars), PlaceTokens(HOME, cwd, create, confined);
    JoinTokensConcat(start, place);
    JoinTokensConcat(start, PlaceTokens(Chars(h), cwd, create, confined));
    PlayedConcat(see, JoinTokens(start), JoinTokens(place));
    StartPlays(see, vars);
    var later := Later(see, JoinTokens(start));
    PlaceIsStill(HOME, cwd, create, confined);
    assert StillIn(later, JoinTokens(place));
    PlaceValues(later, h, cwd, create, confined);
  }

  /** The lines before the agent's, run in turn: every exported value is itself, and the directories and files are
      those of the home directory that the exports leave, an exported HOME included. */
  lemma {:induction false} SetupReads(see: Sight, h: string, cwd: string, vars: seq<(string, string)>, create: bool,
                                      confined: bool)
    requires (forall i :: 0 <= i < |vars| ==> ValidVar(vars[i])) && HomeIs(see.(env := Exported(see.env, vars)), h)
    ensures AllRead(Setup(cwd, vars, create, confined), SetupTokens(HOME, cwd, vars, create, confined))
    ensures var ts := JoinTokens(SetupTokens(HOME, cwd, vars, create, confined));
            && Played(see, ts) == JoinTokens(SetupTokens(Chars(h), cwd, vars, create, confined))
            && Left(see, ts) == Exported(see.env, vars)
  {
    SetupLinesRead(cwd, vars, create, confined);
    SetupPlays(see, h, cwd, vars, create, confined);
  }

  // ----- a short command -----

  lemma TimeoutValues(see: Sight, seconds: nat, agent: seq<Token>, given: seq<Token>)
    requires ResolveAll(see, agent) == given
    ensures ResolveAll(see, TimeoutTokens(seconds, agent)) == TimeoutTokens(seconds, given)
  {
    ProbeValues(see, "timeout");
    var run := [W("then"), W("exec"), W("timeout"), W("-k"), W("5"), W(Decimal(seconds))];
    var other := [W("else"), W("exec")];
    FixedRun(see, seconds);
    FixedWord(see, "else");
    FixedWord(see, "exec");
    assert ResolveAll(see, other) == other;
    FixedWord(see, "fi");
    ResolveConcat(see, run, agent);
    ResolveConcat(see, other, agent);
    ResolveLines(see, [ProbeTokens("timeout"), run + agent, other + agent, [W("fi")]],
                 [ProbeTokens("timeout"), run + given, other + given, [W("fi")]]);
    FourLines(ProbeTokens("timeout"), run + agent, other + agent, [W("fi")]);
    FourLines(ProbeTokens("timeout"), run + given, other + given, [W("fi")]);
  }

  lemma FourLines(a: seq<Token>, b: seq<Token>, c: seq<Token>, d: seq<Token>)
    ensures JoinTokens([a, b, c, d]) == a + [Op(';')] + b + [Op(';')] + c + [Op(';')] + d
  {
    JoinOneMore([a], b);
    JoinOneMore([a] + [b], c);
    JoinOneMore([a] + [b] + [c], d);
    assert [a] + [b] + [c] + [d] == [a, b, c, d];
  }

  lemma {:induction false} FixedRun(see: Sight, seconds: nat)
    ensures var run := [W("then"), W("exec"), W("timeout"), W("-k"), W("5"), W(Decimal(seconds))];
            ResolveAll(see, run) == run
  {
    FixedWord(see, "then");
    FixedWord(see, "exec");
    FixedWord(see, "timeout");
    FixedWord(see, "-k");
    FixedWord(see, "5");
    FixedWord(see, Decimal(seconds));
  }

  lemma ProbeValues(see: Sight, tool: string)
    ensures ResolveAll(see, ProbeTokens(tool)) == ProbeTokens(tool)
  {
    FixedWord(see, "if");
    FixedWord(see, "command");
    FixedWord(see, "-v");
    FixedWord(see, tool);
    FixedWord(see, "/dev/null");
    FixedWord(see, "2");
    FixedWord(see, "1");
  }

  lemma ShortReads(command: seq<string>, cwd: string, vars: seq<(string, string)>, timeout: nat, create: bool,
                   roots: Option<seq<string>>)
    requires Lines(command, cwd, vars, Some(timeout), create, roots).Ok?
    ensures Tokens(JoinWith(Lines(command, cwd, vars, Some(timeout), create, roots).value, "; "))
            == Some(JoinTokens(ShortTokens(command, cwd, vars, timeout, create, ConfinementWords(roots).value,
                                           roots.Some?)))
  {
    var argv := ConfinementWords(roots).value;
    var text, agent := AgentText(argv, command), AsTokens(AgentReadings(argv, command));
    var setup, last := SetupTokens(HOME, cwd, vars, create, roots.Some?), TimeoutTokens(timeout + 5, agent);
    var lines := Setup(cwd, vars, create, roots.Some?) + [TimeoutLine(timeout + 5, text)];
    assert Lines(command, cwd, vars, Some(timeout), create, roots).value == lines;
    AgentReads(command, roots);
    TimeoutReads(timeout + 5, text, agent);
    SetupLinesRead(cwd, vars, create, roots.Some?);
    OneMore(Setup(cwd, vars, create, roots.Some?), setup, TimeoutLine(timeout + 5, text), last);
    LinesRead(lines, setup + [last]);
    TokensOf(JoinWith(lines, "; "), JoinTokens(setup + [last]));
  }

  /** The lines of a short command's script, read. */
  function ShortTokens(command: seq<string>, cwd: string, vars: seq<(string, string)>, timeout: nat, create: bool,
                       argv: seq<string>, confined: bool): seq<seq<Token>>
  {
    SetupTokens(HOME, cwd, vars, create, confined)
        + [TimeoutTokens(timeout + 5, AsTokens(AgentReadings(argv, command)))]
  }

  /** The inner script of a short command: the shell reads it whole as the template, and running it in turn every
      exported value, the working directory, the confinement words and the command come out as exactly
      themselves, for the home directory that the exports leave. */
  lemma {:induction false} InnerScript(see: Sight, h: string, command: seq<string>, cwd: string,
                                       vars: seq<(string, string)>, timeout: nat,
                                       create: bool, roots: Option<seq<string>>)
    requires HomeIs(see.(env := Exported(see.env, vars)), h)
    requires Lines(command, cwd, vars, Some(timeout), create, roots).Ok?
    ensures roots.Some? ==> Confine(roots.value, Some(h)).Ok?
    ensures var ts := JoinTokens(ShortTokens(command, cwd, vars, timeout, create, ConfinementWords(roots).value,
                                             roots.Some?));
            && Tokens(JoinWith(Lines(command, cwd, vars, Some(timeout), create, roots).value, "; ")) == Some(ts)
            && Played(see, ts) == JoinTokens(
                 SetupTokens(Chars(h), cwd, vars, create, roots.Some?)
                 + [TimeoutTokens(timeout + 5, AsTokens(AllChars(AgentWords(command, roots, h))))])
  {
    ShortReads(command, cwd, vars, timeout, create, roots);
    var later := see.(env := Exported(see.env, vars));
    AgentReads(command, roots);
    AgentValues(later, h, command, roots);
    ShortPlays(see, h, cwd, vars, timeout, create, roots.Some?,
               AsTokens(AgentReadings(ConfinementWords(roots).value, command)),
               AsTokens(AllChars(AgentWords(command, roots, h))));
  }

  lemma {:induction false} ShortPlays(see: Sight, h: string, cwd: string, vars: seq<(string, string)>, timeout: nat,
                                      create: bool, confined: bool, agent: seq<Token>, given: seq<Token>)
    requires (forall i :: 0 <= i < |vars| ==> ValidVar(vars[i])) && HomeIs(see.(env := Exported(see.env, vars)), h)
    requires Op(';') !in agent && ResolveAll(see.(env := Exported(see.env, vars)), agent) == given
    ensures Played(see, JoinTokens(SetupTokens(HOME, cwd, vars, create, confined)
                                   + [TimeoutTokens(timeout + 5, agent)]))
            == JoinTokens(SetupTokens(Chars(h), cwd, vars, create, confined) + [TimeoutTokens(timeout + 5, given)])
  {
    var later, last := see.(env := Exported(see.env, vars)), TimeoutTokens(timeout + 5, agent);
    SetupPlays(see, h, cwd, vars, create, confined);
    TimeoutValues(later, timeout + 5, agent, given);
    TimeoutIsStill(timeout + 5, agent);
    LastPlays(see, SetupTokens(HOME, cwd, vars, create, confined), last, later);
    JoinOneMore(SetupTokens(Chars(h), cwd, vars, create, confined), TimeoutTokens(timeout + 5, given));
  }

  lemma {:induction false} LastPlays(see: Sight, setup: seq<seq<Token>>, last: seq<Token>, later: Sight)
    requires setup != [] && Still(last) && Later(see, JoinTokens(setup)) == later
    ensures Played(see, JoinTokens(setup + [last]))
            == Played(see, JoinTokens(setup)) + [Op(';')] + ResolveAll(later, last)
  {
    JoinOneMore(setup, last);
    PlayedConcat(see, JoinTokens(setup), last);
    assert StillIn(later, last);
  }

  lemma AgentReads(command: seq<string>, roots: Option<seq<string>>)
    requires ConfinementWords(roots).Ok? && command != []
    ensures var argv := ConfinementWords(roots).value;
            Reads(AgentText(argv, command), AsTokens(AgentReadings(argv, command)))
    ensures Op(';') !in AsTokens(AgentReadings(ConfinementWords(roots).value, command))
  {
    var argv := ConfinementWords(roots).value;
    PlanIsLong(roots);
    AgentReadsAll(command, argv);
    ManyWords(AgentTexts(argv, command), AgentReadings(argv, command));
  }

  // ----- a long-lived channel -----

  /** The private directory, as `mktemp` names it. */
  function Made(see: Sight): string {
    see.seen(MKTEMP)
  }

  /** The environment the agent is started in. */
  function Prepared(see: Sight): Env {
    see.env[DIR := Made(see)][PIPE := Made(see) + "/in"][AGENT := ""][FEED := ""]
  }

  lemma {:induction false} OneSets(see: Sight, name: string, rest: Text, plain: bool, more: seq<Token>, ts: seq<Token>)
    requires EnvName(name) && ts == [Word(Chars(name) + [Char('=')] + rest, plain)] + more
    requires Op(';') !in more && (more == [] || (|more| >= 2 && more[0] == Op('|') && more[1] == Op('|')))
    ensures Left(see, ts) == see.env[name := Value(see, rest)]
  {
    SemiIs(ts, []);
    AssignmentSets(see, name, rest, plain, more);
  }

  lemma WordIs(pre: string, name: string, rest: Text)
    requires pre == name + "="
    ensures Chars(pre) + rest == Chars(name) + [Char('=')] + rest
  {
    CharsConcat(name, "=");
  }

  lemma {:induction false} DirectorySets(see: Sight)
    ensures Left(see, ReadOf(ASSIGNED[0])) == see.env[DIR := Made(see)]
  {
    NamesAre();
    var more := [Op('|'), Op('|'), W("exit"), W("97")];
    assert "FRIDICA_DIR=" == DIR + "=";
    WordIs("FRIDICA_DIR=", DIR, [Opaque(MKTEMP)]);
    assert ReadOf(ASSIGNED[0]) == [Word(Chars(DIR) + [Char('=')] + [Opaque(MKTEMP)], false)] + more;
    OneSets(see, DIR, [Opaque(MKTEMP)], false, more, ReadOf(ASSIGNED[0]));
    ValueOne(see, Opaque(MKTEMP));
  }

  lemma {:induction false} PipeSets(see: Sight)
    requires DIR in see.env
    ensures Left(see, ReadOf(ASSIGNED[1])) == see.env[PIPE := see.env[DIR] + "/in"]
  {
    NamesAre();
    var rest := [Param(DIR)] + Chars("/in");
    assert "FRIDICA_IN=" == PIPE + "=";
    WordIs("FRIDICA_IN=", PIPE, rest);
    assert Chars("FRIDICA_IN=") + [Param(DIR)] + Chars("/in") == Chars("FRIDICA_IN=") + rest;
    assert ReadOf(ASSIGNED[1]) == [Word(Chars(PIPE) + [Char('=')] + rest, true)] + [];
    OneSets(see, PIPE, rest, true, [], ReadOf(ASSIGNED[1]));
    ValueConcat(see, [Param(DIR)], Chars("/in"));
    ValueOne(see, Param(DIR));
    ValueChars(see, "/in");
  }

  lemma {:induction false} EmptySets(see: Sight, pre: string, name: string, ts: seq<Token>)
    requires EnvName(name) && pre == name + "=" && ts == [W(pre)]
    ensures Left(see, ts) == see.env[name := ""]
  {
    WordIs(pre, name, []);
    assert Chars(pre) + [] == Chars(pre);
    assert ts == [Word(Chars(name) + [Char('=')] + [], true)] + [];
    OneSets(see, name, [], true, [], ts);
  }

  lemma {:induction false} AssignedLeave(see: Sight)
    ensures Left(see, JoinTokens(Readings(ASSIGNED))) == Prepared(see)
  {
    var a, b, c, d := ReadOf(ASSIGNED[0]), ReadOf(ASSIGNED[1]), ReadOf(ASSIGNED[2]), ReadOf(ASSIGNED[3]);
    assert Readings(ASSIGNED) == [a, b, c, d];
    NamesAre();
    var first := see.(env := see.env[DIR := Made(see)]);
    var second := first.(env := first.env[PIPE := Made(see) + "/in"]);
    var third := second.(env := second.env[AGENT := ""]);
    DirectorySets(see);
    PipeSets(first);
    assert "FRIDICA_AGENT=" == AGENT + "=" && "FRIDICA_FEED=" == FEED + "=";
    EmptySets(second, "FRIDICA_AGENT=", AGENT, c);
    EmptySets(third, "FRIDICA_FEED=", FEED, d);
    FourLines(a, b, c, d);
    PlayedConcat(see, a, b);
    PlayedConcat(see, a + [Op(';')] + b, c);
    PlayedConcat(see, a + [Op(';')] + b + [Op(';')] + c, d);
  }

  /** A fixed command that sets nothing. */
  predicate SetsNothing(ps: seq<Piece>) {
    ps != [] && NoSemi(ps) && SetsNone(ps[0].kind)
  }

  predicate NoSemi(ps: seq<Piece>) {
    forall i :: 0 <= i < |ps| ==> ps[i].kind != Oper(';')
  }

  predicate SetsNone(first: Kind) {
    (first.Plain? && first.w != "export" && '=' !in first.w) || first == Bracket('}')
  }

  lemma NothingSet(ps: seq<Piece>)
    requires SetsNothing(ps)
    ensures Still(ReadOf(ps))
  {
    var ts := ReadOf(ps);
    if ps[0].kind.Plain? {
      FirstIsPlain(ps[0].kind.w, ts[1..]);
      assert [ts[0]] + ts[1..] == ts;
    } else {
      NoEqualsNoName([Char('}')]);
      assert ts[0].text != W("export").text;
      InertIsStill(ts);
    }
  }

  lemma KillHasNoSemi(sig: string)
    ensures NoSemi(KillAgent(sig)) && NoSemi(QuietThen('|'))
  {
  }

  lemma FunctionsSetNothing()
    ensures forall i :: 0 <= i < 6 ==> SetsNothing(PREPARED[i])
  {
    KillHasNoSemi("-TERM");
    KillHasNoSemi("-KILL");
    assert PREPARED[1][0] == Go("then") && PREPARED[3][0] == Go("kill");
  }

  lemma CleaningSetsNothing()
    ensures forall i :: 6 <= i < 13 ==> SetsNothing(PREPARED[i])
  {
    KillHasNoSemi("");
    assert PREPARED[7][0] == Go("then") && PREPARED[8][0] == Go("wait");
  }

  lemma TrapsSetNothing()
    ensures forall i :: 13 <= i < 16 ==> SetsNothing(PREPARED[i])
    ensures SetsNothing(UMASK)
  {
    assert PREPARED[15][0] == Go("mkfifo");
  }

  lemma PreparedSetsNothing()
    ensures forall i :: 0 <= i < |PREPARED| ==> SetsNothing(PREPARED[i])
    ensures SetsNothing(UMASK)
  {
    FunctionsSetNothing();
    CleaningSetsNothing();
    TrapsSetNothing();
    forall i | 0 <= i < |PREPARED| ensures SetsNothing(PREPARED[i]) {
      assert i < 6 || 6 <= i < 13 || 13 <= i < 16;
    }
  }

  /** The commands before the agent's leave the pipe's name, whatever was exported under it. */
  lemma {:induction false} BeforeLeaves(see: Sight)
    ensures Left(see, JoinTokens(Readings(BEFORE))) == Prepared(see)
  {
    var umask, setting, prepared := [ReadOf(UMASK)], Readings(ASSIGNED), Readings(PREPARED);
    assert Readings(BEFORE) == umask + setting + prepared;
    PreparedSetsNothing();
    NothingSet(UMASK);
    forall i | 0 <= i < |prepared| ensures Still(prepared[i]) {
      NothingSet(PREPARED[i]);
    }
    StillLines(prepared);
    JoinTokensConcat(umask, setting);
    JoinTokensConcat(umask + setting, prepared);
    PlayedConcat(see, ReadOf(UMASK), JoinTokens(setting));
    PlayedConcat(see, JoinTokens(umask + setting), JoinTokens(prepared));
    assert StillIn(see, ReadOf(UMASK));
    assert Later(see, ReadOf(UMASK)) == see;
    AssignedLeave(see);
    assert StillIn(see.(env := Prepared(see)), JoinTokens(prepared));
  }

  lemma LaunchValues(see: Sight, agent: seq<Token>, given: seq<Token>)
    requires ResolveAll(see, agent) == given && PIPE in see.env
    ensures ResolveAll(see, LaunchTokens(agent, INPUT)) == LaunchTokens(given, Chars(see.env[PIPE]))
  {
    var v := Word(INPUT, true);
    ValueOne(see, Param(PIPE));
    ProbeValues(see, "setsid");
    FixedWord(see, "then");
    FixedWord(see, "setsid");
    FixedWord(see, "else");
    FixedWord(see, "fi");
    var start := [W("then"), W("setsid")];
    var otherwise, end := [Op('<'), v, Op('&'), W("else")], [Op('<'), v, Op('&'), W("fi")];
    var a := ProbeTokens("setsid") + [Op(';')];
    ResolveConcat(see, ProbeTokens("setsid"), [Op(';')]);
    ResolveConcat(see, a, start + agent);
    ResolveConcat(see, start, agent);
    ResolveConcat(see, a + (start + agent), otherwise);
    ResolveConcat(see, a + (start + agent) + otherwise, agent);
    ResolveConcat(see, a + (start + agent) + otherwise + agent, end);
  }

  /** A launch line alone starts exactly the confinement words and the command. */
  lemma LaunchedAgent(see: Sight, h: string, command: seq<string>, roots: Option<seq<string>>)
    requires HomeIs(see, h) && PIPE in see.env && command != [] && ConfinementWords(roots).Ok?
    ensures roots.Some? ==> Confine(roots.value, Some(h)).Ok?
    ensures Spoken(see, LaunchLine(AgentText(ConfinementWords(roots).value, command)))
            == Some(LaunchTokens(AsTokens(AllChars(AgentWords(command, roots, h))), Chars(see.env[PIPE])))
  {
    var argv := ConfinementWords(roots).value;
    var agent := AsTokens(AgentReadings(argv, command));
    AgentReads(command, roots);
    LaunchReads(AgentText(argv, command), agent);
    TokensOf(LaunchLine(AgentText(argv, command)), LaunchTokens(agent, INPUT));
    AgentValues(see, h, command, roots);
    LaunchValues(see, agent, AsTokens(AllChars(AgentWords(command, roots, h))));
  }

  /** The lines of a long-lived channel's script, read. */
  function ScriptTokens(command: seq<string>, cwd: string, vars: seq<(string, string)>, create: bool, argv: seq<string>,
                        confined: bool): seq<seq<Token>>
  {
    SetupTokens(HOME, cwd, vars, create, confined) + Readings(BEFORE)
    + [LaunchTokens(AsTokens(AgentReadings(argv, command)), INPUT)] + Readings(AFTER)
  }

  lemma ScriptLinesRead(setup: seq<string>, setupToks: seq<seq<Token>>, line: string, launch: seq<Token>)
    requires AllRead(setup, setupToks) && Reads(line, launch)
    ensures AllRead(setup + Texts(BEFORE) + [line] + Texts(AFTER),
                    setupToks + Readings(BEFORE) + [launch] + Readings(AFTER))
  {
    BeforeIsWritten();
    AfterIsWritten();
    CommandsRead(BEFORE);
    CommandsRead(AFTER);
    ReadTogether(setup, setupToks, Texts(BEFORE), Readings(BEFORE));
    OneMore(setup + Texts(BEFORE), setupToks + Readings(BEFORE), line, launch);
    ReadTogether(setup + Texts(BEFORE) + [line], setupToks + Readings(BEFORE) + [launch], Texts(AFTER),
                 Readings(AFTER));
  }

  lemma LinesAre(setup: seq<string>, agent: string)
    ensures setup + WatchdogLines(agent) == setup + Texts(BEFORE) + [LaunchLine(agent)] + Texts(AFTER)
  {
  }

  lemma ScriptReads(command: seq<string>, cwd: string, vars: seq<(string, string)>, create: bool,
                    roots: Option<seq<string>>)
    requires Lines(command, cwd, vars, None, create, roots).Ok?
    ensures Tokens(JoinWith(Lines(command, cwd, vars, None, create, roots).value, "; "))
            == Some(JoinTokens(ScriptTokens(command, cwd, vars, create, ConfinementWords(roots).value, roots.Some?)))
  {
    var argv := ConfinementWords(roots).value;
    var text, agent := AgentText(argv, command), AsTokens(AgentReadings(argv, command));
    var setup := Setup(cwd, vars, create, roots.Some?);
    var lines, toks := setup + WatchdogLines(text), ScriptTokens(command, cwd, vars, create, argv, roots.Some?);
    assert Lines(command, cwd, vars, None, create, roots).value == lines;
    AgentReads(command, roots);
    LaunchReads(text, agent);
    SetupLinesRead(cwd, vars, create, roots.Some?);
    ScriptLinesRead(setup, SetupTokens(HOME, cwd, vars, create, roots.Some?), LaunchLine(text),
                    LaunchTokens(agent, INPUT));
    LinesAre(setup, text);
    LinesRead(lines, toks);
    TokensOf(JoinWith(lines, "; "), JoinTokens(toks));
  }

  /** Where the launch line is reached. */
  function Reached(see: Sight, cwd: string, vars: seq<(string, string)>, create: bool, confined: bool): Sight {
    Later(see, JoinTokens(SetupTokens(HOME, cwd, vars, create, confined) + Readings(BEFORE)))
  }

  lemma ReachedIs(see: Sight, h: string, cwd: string, vars: seq<(string, string)>, create: bool, confined: bool)
    returns (at: Sight)
    requires (forall i :: 0 <= i < |vars| ==> ValidVar(vars[i])) && HomeIs(see.(env := Exported(see.env, vars)), h)
    ensures at == Reached(see, cwd, vars, create, confined)
    ensures HomeIs(at, h) && PIPE in at.env && at.env[PIPE] == Made(see) + "/in"
  {
    SetupPlays(see, h, cwd, vars, create, confined);
    at := AfterBefore(see, SetupTokens(HOME, cwd, vars, create, confined), see.(env := Exported(see.env, vars)), h);
  }

  lemma AfterBefore(see: Sight, setup: seq<seq<Token>>, later: Sight, h: string) returns (at: Sight)
    requires setup != [] && see.(env := Left(see, JoinTokens(setup))) == later && HomeIs(later, h)
    ensures at == Later(see, JoinTokens(setup + Readings(BEFORE)))
    ensures HomeIs(at, h) && PIPE in at.env && at.env[PIPE] == Made(see) + "/in"
  {
    var before := BeforeCommands(later);
    ReachedLater(see, setup, before, later);
    at := later.(env := Prepared(later));
    PreparedIs(later, h);
  }

  lemma BeforeCommands(see: Sight) returns (before: seq<seq<Token>>)
    ensures before == Readings(BEFORE) && before != [] && Left(see, JoinTokens(before)) == Prepared(see)
  {
    BeforeLeaves(see);
    before := Readings(BEFORE);
  }

  lemma {:induction false} ReachedLater(see: Sight, setup: seq<seq<Token>>, before: seq<seq<Token>>, later: Sight)
    requires setup != [] && before != [] && see.(env := Left(see, JoinTokens(setup))) == later
    requires Left(later, JoinTokens(before)) == Prepared(later)
    ensures Later(see, JoinTokens(setup + before)) == later.(env := Prepared(later))
  {
    LaterConcat(see, setup, before);
  }

  lemma PreparedIs(see: Sight, h: string)
    requires HomeIs(see, h)
    ensures var at := see.(env := Prepared(see));
            HomeIs(at, h) && PIPE in at.env && at.env[PIPE] == Made(see) + "/in"
  {
    assert PIPE[|PIPE| - 1] == 'N' && AGENT[|AGENT| - 1] == 'T' && FEED[|FEED| - 1] == 'D' && DIR[|DIR| - 1] == 'R';
    assert |"HOME"| == 4;
  }

  /** The whole script of a long-lived channel, the watchdog's own lines included: the shell reads it token by token
      as the template; run in turn, the setup gives every value as itself, and when the launch line is reached
      it starts exactly the confinement words and the command, reading from the pipe in the directory `mktemp`
      named, for the home directory that the exports leave, whatever else was exported. */
  lemma {:induction false} LaunchInScript(see: Sight, h: string, command: seq<string>, cwd: string,
                                          vars: seq<(string, string)>, create: bool, roots: Option<seq<string>>)
    requires HomeIs(see.(env := Exported(see.env, vars)), h)
    requires Lines(command, cwd, vars, None, create, roots).Ok?
    ensures roots.Some? ==> Confine(roots.value, Some(h)).Ok?
    ensures Tokens(JoinWith(Lines(command, cwd, vars, None, create, roots).value, "; "))
            == Some(JoinTokens(ScriptTokens(command, cwd, vars, create, ConfinementWords(roots).value, roots.Some?)))
    ensures Played(see, JoinTokens(SetupTokens(HOME, cwd, vars, create, roots.Some?)))
            == JoinTokens(SetupTokens(Chars(h), cwd, vars, create, roots.Some?))
    ensures ResolveAll(Reached(see, cwd, vars, create, roots.Some?),
                       LaunchTokens(AsTokens(AgentReadings(ConfinementWords(roots).value, command)), INPUT))
            == LaunchTokens(AsTokens(AllChars(AgentWords(command, roots, h))), Chars(Made(see) + "/in"))
  {
    ScriptReads(command, cwd, vars, create, roots);
    SetupPlays(see, h, cwd, vars, create, roots.Some?);
    var at := ReachedIs(see, h, cwd, vars, create, roots.Some?);
    AgentValues(at, h, command, roots);
    LaunchValues(at, AsTokens(AgentReadings(ConfinementWords(roots).value, command)),
                 AsTokens(AllChars(AgentWords(command, roots, h))));
  }
}
