/** The bubblewrap argv of a confined worker, and its rendering for a remote shell
    (src/exec/sandbox.rs). */
module Confinement {
  import opened Wrappers
  import opened ShellText

  const STATE: seq<string> := [".codex", ".claude", ".claude.json"]
  const SETTINGS: seq<string> := [".codex/config.toml", ".claude/settings.json", ".claude/settings.local.json",
                                  ".claude/hooks"]
  const BASE: seq<string> :=
    ["bwrap", "--die-with-parent", "--unshare-user", "--unshare-pid", "--ro-bind", "/", "/",
     "--dev-bind", "/dev", "/dev", "--proc", "/proc", "--tmpfs", "/tmp"]

  predicate ValidRoot(root: string) {
    '\0' !in root && ("/" <= root || "~/" <= root)
  }

  function HomeText(home: Option<string>): string {
    if home.Some? then home.value else "$HOME"
  }

  function RootPath(root: string, home: Option<string>): string {
    if "~/" <= root then HomeText(home) + "/" + root[2..] else root
  }

  function RootBinds(roots: seq<string>, home: Option<string>): seq<string> {
    if roots == [] then [] else
      var p := RootPath(roots[|roots| - 1], home);
      RootBinds(roots[..|roots| - 1], home) + ["--bind", p, p]
  }

  function HomeBinds(flag: string, names: seq<string>, home: Option<string>): seq<string> {
    if names == [] then [] else
      var p := HomeText(home) + "/" + names[|names| - 1];
      HomeBinds(flag, names[..|names| - 1], home) + [flag, p, p]
  }

  /** `confinement` (src/exec/sandbox.rs:23-60) as a value. */
  function Confine(roots: seq<string>, home: Option<string>): Result<seq<string>> {
    if exists i :: 0 <= i < |roots| && !ValidRoot(roots[i]) then Err else
      Ok(BASE + RootBinds(roots, home) + HomeBinds("--bind-try", STATE, home)
         + HomeBinds("--ro-bind-try", SETTINGS, home) + ["--"])
  }

  /** `confinement` as the source does it, word by word. */
  method BuildConfinement(roots: seq<string>, home: Option<string>) returns (r: Result<seq<string>>)
    ensures r == Confine(roots, home)
  {
    var words := BASE;
    for i := 0 to |roots|
      invariant forall j :: 0 <= j < i ==> ValidRoot(roots[j])
      invariant words == BASE + RootBinds(roots[..i], home)
    {
      var root := roots[i];
      if '\0' in root || !("/" <= root || "~/" <= root) {
        return Err;
      }
      var path := root;
      if "~/" <= root {
        path := HomeText(home) + "/" + root[2..];
      }
      assert roots[..i + 1][..i] == roots[..i];
      words := words + ["--bind", path, path];
    }
    assert roots[..|roots|] == roots;
    words := AddHomeBinds(words, "--bind-try", STATE, home);
    words := AddHomeBinds(words, "--ro-bind-try", SETTINGS, home);
    r := Ok(words + ["--"]);
  }

  method AddHomeBinds(words: seq<string>, flag: string, names: seq<string>, home: Option<string>)
    returns (out: seq<string>)
    ensures out == words + HomeBinds(flag, names, home)
  {
    out := words;
    for i := 0 to |names|
      invariant out == words + HomeBinds(flag, names[..i], home)
    {
      assert names[..i + 1][..i] == names[..i];
      var path := HomeText(home) + "/" + names[i];
      out := out + [flag, path, path];
    }
    assert names[..|names|] == names;
  }

  // ----- rendering for the remote shell -----

  function Render(w: string): string {
    if "$HOME/" <= w then "\"$HOME/\"" + Quote(w[6..]) else Quote(w)
  }

  function RenderAll(words: seq<string>): seq<string> {
    seq(|words|, i requires 0 <= i < |words| => Render(words[i]))
  }

  /** `shell_words` (src/exec/sandbox.rs:61-70). */
  function ShellWords(words: seq<string>): string {
    JoinWith(RenderAll(words), " ")
  }

  /** What a word of the remote plan stands for when HOME is `h`. */
  predicate Stands(h: string, w: string, v: string) {
    if "$HOME/" <= w then v == h + "/" + w[6..] else v == w
  }

  predicate AllStand(h: string, ws: seq<string>, vs: seq<string>) {
    |ws| == |vs| && forall i :: 0 <= i < |ws| ==> Stands(h, ws[i], vs[i])
  }

  predicate HomeIs(see: Sight, h: string) {
    "HOME" in see.env && see.env["HOME"] == h
  }

  const HOME: Text := [Param("HOME")]

  /** Inside double quotes `$HOME` is the parameter, up to the character after the name. */
  lemma {:induction false} DollarHomeReads(a: Reader, c: char)
    requires a.mode == Double && !NameChar(c)
    ensures Run(a, "$HOME" + [c]) == DoubleStep(a.(word := a.word + HOME), c)
  {
    DollarReads(a, "HOME", c);
    assert "$" + "HOME" == "$HOME";
  }

  /** A word of the remote plan, as the shell reads its rendering. */
  function WordText(w: string): Text {
    if "$HOME/" <= w then HOME + Chars("/") + Chars(w[6..]) else Chars(w)
  }

  function WordTexts(ws: seq<string>): seq<Text> {
    seq(|ws|, i requires 0 <= i < |ws| => WordText(ws[i]))
  }

  lemma HomeReads(out: seq<Token>)
    ensures Run(START.(out := out), "\"$HOME/\"") == Reader(Bare, HOME + Chars("/"), true, out)
  {
    var s := START.(out := out);
    var a := Reader(Double, [], true, out);
    assert "\"$HOME/\"" == "\"" + ("$HOME" + ['/']) + "\"";
    RunConcat(s, "\"" + ("$HOME" + ['/']), "\"");
    RunConcat(s, "\"", "$HOME" + ['/']);
    RunOne(s, '\"');
    DollarHomeReads(a, '/');
    assert [] + HOME + [Char('/')] == HOME + Chars("/");
    RunOne(Reader(Double, HOME + Chars("/"), true, out), '\"');
  }

  lemma RenderReads(w: string)
    ensures ReadsAs(Render(w), WordText(w))
  {
    forall out ensures WordReadsFrom(Render(w), Word(WordText(w), true), out) {
      if "$HOME/" <= w {
        HomeReads(out);
        RunConcat(START.(out := out), "\"$HOME/\"", Quote(w[6..]));
        QuoteReads(Reader(Bare, HOME + Chars("/"), true, out), w[6..]);
      } else {
        QuoteReads(START.(out := out), w);
        assert [] + Chars(w) == Chars(w);
      }
    }
  }

  lemma RenderAllReads(ws: seq<string>)
    ensures forall i :: 0 <= i < |ws| ==> ReadsAs(RenderAll(ws)[i], WordTexts(ws)[i])
  {
    forall i | 0 <= i < |ws| ensures ReadsAs(RenderAll(ws)[i], WordTexts(ws)[i]) {
      RenderReads(ws[i]);
    }
  }

  /** With HOME set to `h`, what is written after it is a path under `h`. */
  lemma {:induction false} HomeValue(see: Sight, h: string, tail: string)
    requires HomeIs(see, h)
    ensures Value(see, HOME + Chars(tail)) == h + tail
  {
    ValueConcat(see, HOME, Chars(tail));
    ValueOne(see, Param("HOME"));
    ValueChars(see, tail);
  }

  lemma HomeTail(tail: string)
    ensures HOME + Chars("/") + Chars(tail) == HOME + Chars("/" + tail)
  {
    CharsConcat("/", tail);
  }

  lemma {:induction false} StandsFor(see: Sight, h: string, w: string, v: string)
    requires HomeIs(see, h) && Stands(h, w, v)
    ensures Value(see, WordText(w)) == v
  {
    if "$HOME/" <= w {
      HomeTail(w[6..]);
      HomeValue(see, h, "/" + w[6..]);
    } else {
      ValueChars(see, w);
    }
  }

  lemma AllStandFor(see: Sight, h: string, ws: seq<string>, vs: seq<string>)
    requires HomeIs(see, h) && AllStand(h, ws, vs)
    ensures ResolveAll(see, AsTokens(WordTexts(ws))) == AsTokens(AllChars(vs))
  {
    forall i | 0 <= i < |ws| ensures Value(see, WordText(ws[i])) == vs[i] {
      StandsFor(see, h, ws[i], vs[i]);
    }
  }

  // ----- remote and local plans agree -----

  lemma StandConcat(h: string, ws: seq<string>, vs: seq<string>, ws': seq<string>, vs': seq<string>)
    requires AllStand(h, ws, vs) && AllStand(h, ws', vs')
    ensures AllStand(h, ws + ws', vs + vs')
  {
  }

  lemma HomePathStands(h: string, tail: string)
    ensures Stands(h, HomeText(None) + "/" + tail, HomeText(Some(h)) + "/" + tail)
  {
    var w := "$HOME" + "/" + tail;
    assert "$HOME" + "/" == "$HOME/";
    assert w[..6] == "$HOME/";
    assert w[6..] == tail;
  }

  lemma FlagStands(h: string, w: string)
    requires w != "" && w[0] != '$'
    ensures Stands(h, w, w)
  {
  }

  lemma {:induction false} RootsStand(h: string, roots: seq<string>)
    requires forall i :: 0 <= i < |roots| ==> ValidRoot(roots[i])
    ensures AllStand(h, RootBinds(roots, None), RootBinds(roots, Some(h)))
  {
    if roots != [] {
      var n := |roots| - 1;
      RootsStand(h, roots[..n]);
      var w, v := RootPath(roots[n], None), RootPath(roots[n], Some(h));
      assert ValidRoot(roots[n]);
      if "~/" <= roots[n] {
        HomePathStands(h, roots[n][2..]);
      } else {
        assert roots[n][0] == '/';
        FlagStands(h, w);
      }
      FlagStands(h, "--bind");
      StandConcat(h, RootBinds(roots[..n], None), RootBinds(roots[..n], Some(h)), ["--bind", w, w], ["--bind", v, v]);
    }
  }

  lemma {:induction false} HomesStand(h: string, flag: string, names: seq<string>)
    requires flag != "" && flag[0] != '$'
    ensures AllStand(h, HomeBinds(flag, names, None), HomeBinds(flag, names, Some(h)))
  {
    if names != [] {
      var n := |names| - 1;
      HomesStand(h, flag, names[..n]);
      HomePathStands(h, names[n]);
      FlagStands(h, flag);
      var w, v := HomeText(None) + "/" + names[n], HomeText(Some(h)) + "/" + names[n];
      StandConcat(h, HomeBinds(flag, names[..n], None), HomeBinds(flag, names[..n], Some(h)), [flag, w, w],
                  [flag, v, v]);
    }
  }

  lemma PlanStands(h: string, roots: seq<string>)
    requires Confine(roots, None).Ok?
    ensures Confine(roots, Some(h)).Ok?
    ensures AllStand(h, Confine(roots, None).value, Confine(roots, Some(h)).value)
  {
    RootsStand(h, roots);
    HomesStand(h, "--bind-try", STATE);
    HomesStand(h, "--ro-bind-try", SETTINGS);
    forall i | 0 <= i < |BASE| ensures Stands(h, BASE[i], BASE[i]) {
      assert BASE[i][0] != '$';
    }
    var ws, vs := BASE + RootBinds(roots, None), BASE + RootBinds(roots, Some(h));
    StandConcat(h, BASE, BASE, RootBinds(roots, None), RootBinds(roots, Some(h)));
    var ws', vs' := HomeBinds("--bind-try", STATE, None), HomeBinds("--bind-try", STATE, Some(h));
    StandConcat(h, ws, vs, ws', vs');
    var ws'', vs'' := HomeBinds("--ro-bind-try", SETTINGS, None), HomeBinds("--ro-bind-try", SETTINGS, Some(h));
    StandConcat(h, ws + ws', vs + vs', ws'', vs'');
    StandConcat(h, ws + ws' + ws'', vs + vs' + vs'', ["--"], ["--"]);
  }

  /** Remote and local confinement agree: for every root list and every HOME, the remote text
      evaluates to exactly the local argv, and one is refused just when the other is. */
  lemma RemoteIsLocal(see: Sight, roots: seq<string>, h: string)
    requires HomeIs(see, h)
    ensures Confine(roots, None).Err? <==> Confine(roots, Some(h)).Err?
    ensures Confine(roots, None).Ok? ==>
              Spoken(see, ShellWords(Confine(roots, None).value))
                  == Some(AsTokens(AllChars(Confine(roots, Some(h)).value)))
  {
    if Confine(roots, None).Ok? {
      var ws, vs := Confine(roots, None).value, Confine(roots, Some(h)).value;
      PlanStands(h, roots);
      RenderAllReads(ws);
      ListTokens(RenderAll(ws), WordTexts(ws));
      AllStandFor(see, h, ws, vs);
    }
  }
}
