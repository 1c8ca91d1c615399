/** The script sent over SSH, read back by the remote shell (src/exec/ssh.rs:64-146). */
module RemoteScript {
  import opened Wrappers
  import opened ShellText
  import opened Confinement
  import opened Watchdog

  // ----- the templates -----

  const DEFAULTS: seq<(string, string)> :=
    [(".claude/settings.json", "{}"), (".claude/settings.local.json", "{}"), (".codex/config.toml", "")]

  function HomeFileText(name: string): string {
    "\"$HOME/" + name + "\""
  }

  function TestText(file: string): string {
    "[ -e " + file + " ]"
  }

  function CreateText(file: string, body: string): string {
    "printf %s " + Quote(body) + " > " + file + ")"
  }

  /** `prepare_script` (src/exec/sandbox.rs:92-102), one line per default file. */
  function PrepareLine(name: string, body: string): string {
    TestText(HomeFileText(name)) + " || (umask 077; set -C; " + CreateText(HomeFileText(name), body)
  }

  function PrepareLines(defaults: seq<(string, string)>): seq<string> {
    seq(|defaults|, i requires 0 <= i < |defaults| => PrepareLine(defaults[i].0, defaults[i].1))
  }

  function PrepareScript(): string {
    JoinWith(["mkdir -p " + HomeFileText(".claude/hooks") + " " + HomeFileText(".codex")] + PrepareLines(DEFAULTS),
             "; ")
  }

  function Decimal(n: nat): string {
    if n < 10 then [('0' as int + n) as char] else Decimal(n / 10) + [('0' as int + n % 10) as char]
  }

  function TimeoutLine(seconds: nat, agent: string): string {
    "if command -v timeout >/dev/null 2>&1; then exec timeout -k 5 " + Decimal(seconds) + " " + agent
    + "; else exec " + agent + "; fi"
  }

  /** The line of `watchdog` that starts the agent, up to where it stores the agent's process ID. */
  function LaunchLine(agent: string): string {
    "if command -v setsid >/dev/null 2>&1; then setsid " + agent + " < \"$FRIDICA_IN\" & else "
    + agent + " < \"$FRIDICA_IN\" & fi"
  }

  /** The lines of `watchdog` (src/exec/ssh.rs:67-93), command by command. */
  function WatchdogLines(agent: string): seq<string> {
    Texts(BEFORE) + [LaunchLine(agent)] + Texts(AFTER)
  }

  predicate ValidCommand(words: seq<string>) {
    words != [] && words[0] != "" && forall i :: 0 <= i < |words| ==> '\0' !in words[i]
  }

  predicate ValidVar(v: (string, string)) {
    EnvName(v.0) && '\0' !in v.1
  }

  const DEADLINE_LIMIT: nat := 0x1_0000_0000_0000_0000

  function Exports(vars: seq<(string, string)>): seq<string> {
    seq(|vars|, i requires 0 <= i < |vars| => "export " + vars[i].0 + "=" + Quote(vars[i].1))
  }

  /** The agent's own words, behind the confinement words when there are any. */
  function AgentText(argv: seq<string>, command: seq<string>): string {
    var prefix := ShellWords(argv);
    if prefix == "" then Join(command) else prefix + " " + Join(command)
  }

  /** The lines before the agent's. */
  function Setup(cwd: string, vars: seq<(string, string)>, create: bool, confined: bool): seq<string> {
    var start := ["set -u"] + Exports(vars);
    var prepared := if confined then start + [PrepareScript()] else start;
    var made := if create then prepared + ["mkdir -p -- " + PathText(cwd) + " || exit 98"] else prepared;
    made + ["cd " + PathText(cwd) + " || exit 98"]
  }

  predicate ValidRequest(command: seq<string>, cwd: string, vars: seq<(string, string)>) {
    ValidCommand(command) && '\0' !in cwd && cwd != "" && forall i :: 0 <= i < |vars| ==> ValidVar(vars[i])
  }

  function ConfinementWords(roots: Option<seq<string>>): Result<seq<string>> {
    if roots.Some? then Confine(roots.value, None) else Ok([])
  }

  /** The lines of the inner script. */
  function Lines(command: seq<string>, cwd: string, vars: seq<(string, string)>, timeout: Option<nat>, create: bool,
                 roots: Option<seq<string>>): Result<seq<string>>
  {
    var argv := ConfinementWords(roots);
    if !ValidRequest(command, cwd, vars) || argv.Err? || (timeout.Some? && timeout.value + 5 >= DEADLINE_LIMIT) then Err
    else
      var agent := AgentText(argv.value, command);
      Ok(Setup(cwd, vars, create, roots.Some?) + Ending(timeout, agent))
  }

  function Ending(timeout: Option<nat>, agent: string): seq<string> {
    if timeout.Some? then [TimeoutLine(timeout.value + 5, agent)] else WatchdogLines(agent)
  }

  function Remote(lines: seq<string>): string {
    "exec sh -c " + Quote(JoinWith(lines, "; "))
  }

  /** `remote_script_with_confinement` (src/exec/ssh.rs:97-146) as the source does it. */
  method BuildRemoteScript(command: seq<string>, cwd: string, vars: seq<(string, string)>, timeout: Option<nat>,
                           create: bool, roots: Option<seq<string>>) returns (r: Result<string>)
    ensures r == match Lines(command, cwd, vars, timeout, create, roots)
                 case Err => Err
                 case Ok(lines) => Ok(Remote(lines))
  {
    if !ValidRequest(command, cwd, vars) {
      return Err;
    }
    var lines := BuildSetup(cwd, vars, create, roots.Some?);
    var argv: seq<string> := [];
    if roots.Some? {
      var confined := BuildConfinement(roots.value, None);
      if confined.Err? {
        return Err;
      }
      argv := confined.value;
    }
    if timeout.Some? && timeout.value + 5 >= DEADLINE_LIMIT {
      return Err;
    }
    var agent := AgentText(argv, command);
    assert ConfinementWords(roots) == Ok(argv);
    r := Ok(Remote(lines + Ending(timeout, agent)));
  }

  method BuildSetup(cwd: string, vars: seq<(string, string)>, create: bool, confined: bool) returns (lines: seq<string>)
    ensures lines == Setup(cwd, vars, create, confined)
  {
    lines := ["set -u"];
    for i := 0 to |vars|
      invariant lines == ["set -u"] + Exports(vars)[..i]
    {
      lines := lines + ["export " + vars[i].0 + "=" + Quote(vars[i].1)];
    }
    assert Exports(vars)[..|vars|] == Exports(vars);
    if confined {
      lines := lines + [PrepareScript()];
    }
    if create {
      lines := lines + ["mkdir -p -- " + PathText(cwd) + " || exit 98"];
    }
    lines := lines + ["cd " + PathText(cwd) + " || exit 98"];
  }

  /** Which requests have no script, in their own terms. */
  predicate Unfit(command: seq<string>, cwd: string, vars: seq<(string, string)>, timeout: Option<nat>,
                  roots: Option<seq<string>>)
  {
    || command == [] || command[0] == "" || (exists w :: w in command && '\0' in w)
    || cwd == "" || '\0' in cwd || (exists v :: v in vars && (!EnvName(v.0) || '\0' in v.1))
    || (roots.Some? && exists root :: root in roots.value && ('\0' in root || !("/" <= root || "~/" <= root)))
    || (timeout.Some? && timeout.value > 0xFFFF_FFFF_FFFF_FFFF - 5)
  }

  lemma CommandIsUnfit(command: seq<string>)
    ensures !ValidCommand(command) <==> command == [] || command[0] == "" || exists w :: w in command && '\0' in w
  {
    if i :| 0 <= i < |command| && '\0' in command[i] {
      assert command[i] in command;
    }
  }

  lemma VarsAreUnfit(vars: seq<(string, string)>)
    ensures (exists i :: 0 <= i < |vars| && !ValidVar(vars[i]))
            <==> exists v :: v in vars && (!EnvName(v.0) || '\0' in v.1)
  {
    if i :| 0 <= i < |vars| && !ValidVar(vars[i]) {
      assert vars[i] in vars;
    }
  }

  lemma RootsAreUnfit(roots: seq<string>)
    ensures Confine(roots, None).Err?
            <==> exists root :: root in roots && ('\0' in root || !("/" <= root || "~/" <= root))
  {
    if i :| 0 <= i < |roots| && !ValidRoot(roots[i]) {
      assert roots[i] in roots;
    }
  }

  /** A request is refused if and only if it names no command, holds a NUL or an empty directory, exports under a bad
      name, has a root that is neither absolute nor under the home, or a deadline past 64 bits. */
  lemma RefusedExactly(command: seq<string>, cwd: string, vars: seq<(string, string)>, timeout: Option<nat>,
                       create: bool, roots: Option<seq<string>>)
    ensures Lines(command, cwd, vars, timeout, create, roots).Err? <==> Unfit(command, cwd, vars, timeout, roots)
  {
    CommandIsUnfit(command);
    VarsAreUnfit(vars);
    if roots.Some? {
      RootsAreUnfit(roots.value);
    }
    RefusedBy(command, cwd, vars, timeout, create, roots);
  }

  lemma RefusedBy(command: seq<string>, cwd: string, vars: seq<(string, string)>, timeout: Option<nat>,
                  create: bool, roots: Option<seq<string>>)
    ensures Lines(command, cwd, vars, timeout, create, roots).Err? <==>
              || !ValidCommand(command) || '\0' in cwd || cwd == ""
              || (exists i :: 0 <= i < |vars| && !ValidVar(vars[i]))
              || ConfinementWords(roots).Err? || (timeout.Some? && timeout.value + 5 >= DEADLINE_LIMIT)
  {
  }

  /** Each settings file that is later made read-only, the hooks apart, is first created where it is missing: an empty
      object or an empty document. */
  lemma DefaultsCoverSettings(name: string)
    ensures name in SETTINGS && name != ".claude/hooks" <==> exists d :: d in DEFAULTS && d.0 == name
    ensures forall d :: d in DEFAULTS ==> d.1 == if d.0 == ".codex/config.toml" then "" else "{}"
  {
    assert DEFAULTS[0] in DEFAULTS && DEFAULTS[1] in DEFAULTS && DEFAULTS[2] in DEFAULTS;
  }

  // ----- the outer shell -----

  /** The remote login shell sees exactly `exec sh -c` and the inner script, unchanged. */
  lemma {:induction false} OuterShell(lines: seq<string>)
    ensures Tokens(Remote(lines)) == Some(AsTokens(AllChars(["exec", "sh", "-c", JoinWith(lines, "; ")])))
  {
    var inner := JoinWith(lines, "; ");
    var words := ["exec", "sh", "-c", inner];
    JoinRoundTrip(words);
    var q := QuoteAll(words);
    assert q[..3][..2][..1] == ["exec"] && q[..3][..2] == ["exec", "sh"] && q[..3] == ["exec", "sh", "-c"];
    assert JoinWith(q[..3][..2], " ") == "exec" + " " + "sh";
    assert JoinWith(q[..3], " ") == "exec" + " " + "sh" + " " + "-c";
    assert "exec" + " " + "sh" + " " + "-c" + " " == "exec sh -c ";
    assert Join(words) == "exec" + " " + "sh" + " " + "-c" + " " + Quote(inner);
  }

  // ----- the agent's words -----

  /** What the agent runs: the local confinement argv for the remote HOME, then the command. */
  function AgentWords(command: seq<string>, roots: Option<seq<string>>, h: string): seq<string>
    requires roots.Some? ==> Confine(roots.value, Some(h)).Ok?
  {
    (if roots.Some? then Confine(roots.value, Some(h)).value else []) + command
  }

  lemma {:induction false} JoinConcat(a: seq<string>, b: seq<string>, sep: string)
    requires a != [] && b != []
    ensures JoinWith(a + b, sep) == JoinWith(a, sep) + sep + JoinWith(b, sep)
  {
    var n := |b| - 1;
    assert (a + b)[..|a| + n] == a + b[..n];
    if n == 0 {
      assert a + b[..0] == a;
    } else {
      JoinConcat(a, b[..n], sep);
      assert JoinWith(b, sep) == JoinWith(b[..n], sep) + sep + b[n];
      assert JoinWith(a + b, sep) == JoinWith(a + b[..n], sep) + sep + b[n];
      assert JoinWith(a, sep) + sep + JoinWith(b[..n], sep) + sep + b[n]
             == JoinWith(a, sep) + sep + (JoinWith(b[..n], sep) + sep + b[n]);
    }
  }

  /** The texts whose joining is the agent's part of the script. */
  function AgentTexts(argv: seq<string>, command: seq<string>): seq<string> {
    RenderAll(argv) + QuoteAll(command)
  }

  lemma {:induction false} JoinLong(parts: seq<string>, sep: string)
    requires |parts| >= 2 && sep != ""
    ensures JoinWith(parts, sep) != ""
  {
  }

  lemma AgentIsJoined(argv: seq<string>, command: seq<string>)
    requires command != [] && (argv == [] || |argv| >= 2)
    ensures AgentText(argv, command) == JoinWith(AgentTexts(argv, command), " ")
  {
    if argv == [] {
      assert RenderAll(argv) == [];
      assert AgentTexts(argv, command) == QuoteAll(command);
    } else {
      JoinConcat(RenderAll(argv), QuoteAll(command), " ");
      JoinLong(RenderAll(argv), " ");
    }
  }

  /** The agent's words as the shell reads them. */
  function AgentReadings(argv: seq<string>, command: seq<string>): seq<Text> {
    WordTexts(argv) + AllChars(command)
  }

  lemma AgentTextReads(command: seq<string>, argv: seq<string>, i: nat)
    requires i < |argv| + |command|
    ensures ReadsAs(AgentTexts(argv, command)[i], AgentReadings(argv, command)[i])
  {
    if i < |argv| {
      RenderAllReads(argv);
      assert AgentTexts(argv, command)[i] == RenderAll(argv)[i];
      assert AgentReadings(argv, command)[i] == WordTexts(argv)[i];
    } else {
      QuoteReadsAs(command[i - |argv|]);
    }
  }

  lemma AgentReadsAll(command: seq<string>, argv: seq<string>)
    requires command != [] && (argv == [] || |argv| >= 2)
    ensures AgentText(argv, command) == JoinWith(AgentTexts(argv, command), " ")
    ensures |AgentTexts(argv, command)| == |AgentReadings(argv, command)| >= 1
    ensures forall i :: 0 <= i < |AgentTexts(argv, command)| ==>
              ReadsAs(AgentTexts(argv, command)[i], AgentReadings(argv, command)[i])
  {
    AgentIsJoined(argv, command);
    forall i | 0 <= i < |AgentTexts(argv, command)|
      ensures ReadsAs(AgentTexts(argv, command)[i], AgentReadings(argv, command)[i])
    {
      AgentTextReads(command, argv, i);
    }
  }

  lemma PlanIsLong(roots: Option<seq<string>>)
    requires ConfinementWords(roots).Ok?
    ensures ConfinementWords(roots).value == [] || |ConfinementWords(roots).value| >= 2
  {
  }

  /** With HOME set to `h` they are the confinement words for `h` and the command. */
  lemma AgentValues(see: Sight, h: string, command: seq<string>, roots: Option<seq<string>>)
    requires HomeIs(see, h) && ConfinementWords(roots).Ok?
    ensures roots.Some? ==> Confine(roots.value, Some(h)).Ok?
    ensures ResolveAll(see, AsTokens(AgentReadings(ConfinementWords(roots).value, command)))
            == AsTokens(AllChars(AgentWords(command, roots, h)))
  {
    var argv := ConfinementWords(roots).value;
    if roots.Some? {
      PlanStands(h, roots.value);
    }
    var vs := if roots.Some? then Confine(roots.value, Some(h)).value else [];
    WordsAndCommand(see, h, argv, vs, command);
  }

  lemma WordsAndCommand(see: Sight, h: string, argv: seq<string>, vs: seq<string>, command: seq<string>)
    requires HomeIs(see, h) && AllStand(h, argv, vs)
    ensures ResolveAll(see, AsTokens(WordTexts(argv) + AllChars(command))) == AsTokens(AllChars(vs + command))
  {
    AllStandFor(see, h, argv, vs);
    FixedTexts(see, command);
    TokensConcat(WordTexts(argv), AllChars(command));
    TokensConcat(AllChars(vs), AllChars(command));
    ResolveBoth(see, AsTokens(WordTexts(argv)), AsTokens(AllChars(command)));
    assert AllChars(vs + command) == AllChars(vs) + AllChars(command);
  }

  lemma FixedTexts(see: Sight, words: seq<string>)
    ensures ResolveAll(see, AsTokens(AllChars(words))) == AsTokens(AllChars(words))
  {
    forall i | 0 <= i < |words| ensures Value(see, Chars(words[i])) == words[i] {
      ValueChars(see, words[i]);
    }
  }

  lemma TokensConcat(a: seq<Text>, b: seq<Text>)
    ensures AsTokens(a + b) == AsTokens(a) + AsTokens(b)
  {
  }

  lemma ResolveBoth(see: Sight, a: seq<Token>, b: seq<Token>)
    ensures ResolveAll(see, a + b) == ResolveAll(see, a) + ResolveAll(see, b)
  {
  }

  /** The agent's part of the script reads back as the local confinement words and the original
      command. */
  lemma AgentPart(see: Sight, h: string, command: seq<string>, roots: Option<seq<string>>)
    requires HomeIs(see, h) && command != [] && ConfinementWords(roots).Ok?
    ensures roots.Some? ==> Confine(roots.value, Some(h)).Ok?
    ensures Spoken(see, AgentText(ConfinementWords(roots).value, command))
            == Some(AsTokens(AllChars(AgentWords(command, roots, h))))
  {
    var argv := ConfinementWords(roots).value;
    PlanIsLong(roots);
    AgentReadsAll(command, argv);
    ListTokens(AgentTexts(argv, command), AgentReadings(argv, command));
    AgentValues(see, h, command, roots);
  }
}
