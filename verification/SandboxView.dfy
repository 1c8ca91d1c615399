/** What a confined worker's argv means: its flags read into the mounts bubblewrap makes, in order, and what can be
    written through them. */
module SandboxView {
  import opened Wrappers
  import opened PathText
  import opened Confinement

  datatype Kind = Bound | Device | Proc | Tmp
  /** `dest` shows `source`, or a fresh /proc or an empty directory. */
  datatype Mount = Mount(source: string, dest: string, kind: Kind, writable: bool)
  datatype Sandbox = Sandbox(flags: set<string>, mounts: seq<Mount>, command: seq<string>)
  /** Which paths exist on the machine. */
  type Present = string -> bool

  predicate Flag(w: string) {
    w == "--die-with-parent" || w == "--unshare-user" || w == "--unshare-pid"
  }

  predicate Bind(w: string) {
    w == "--bind" || w == "--ro-bind" || w == "--dev-bind" || w == "--bind-try" || w == "--ro-bind-try"
  }

  predicate Fresh(w: string) {
    w == "--proc" || w == "--tmpfs"
  }

  predicate Tried(w: string) {
    w == "--bind-try" || w == "--ro-bind-try"
  }

  /** One bind option; the tried ones are passed over when their source is missing. */
  function BindOf(w: string, source: string, dest: string, present: Present): seq<Mount> {
    if Tried(w) && !present(source) then []
    else [Mount(source, dest, if w == "--dev-bind" then Device else Bound, w != "--ro-bind" && w != "--ro-bind-try")]
  }

  function FreshOf(w: string, dest: string): Mount {
    Mount("", dest, if w == "--proc" then Proc else Tmp, true)
  }

  /** bubblewrap's options up to `--`, and the command after it. */
  function Options(ws: seq<string>, present: Present): Option<Sandbox> {
    if ws == [] then None
    else if ws[0] == "--" then Some(Sandbox({}, [], ws[1..]))
    else if Flag(ws[0]) then
      var rest := Options(ws[1..], present);
      if rest == None then None else Some(rest.value.(flags := rest.value.flags + {ws[0]}))
    else if Fresh(ws[0]) && |ws| >= 2 then
      var rest := Options(ws[2..], present);
      if rest == None then None else Some(rest.value.(mounts := [FreshOf(ws[0], ws[1])] + rest.value.mounts))
    else if Bind(ws[0]) && |ws| >= 3 then
      var rest := Options(ws[3..], present);
      if rest == None then None
      else Some(rest.value.(mounts := BindOf(ws[0], ws[1], ws[2], present) + rest.value.mounts))
    else None
  }

  /** A whole command line that starts with `bwrap`. */
  function ReadArgv(ws: seq<string>, present: Present): Option<Sandbox> {
    if ws != [] && ws[0] == "bwrap" then Options(ws[1..], present) else None
  }

  /** Later covers earlier: mount `i` is the one a path is seen through. */
  ghost predicate LastCovers(ms: seq<Mount>, q: string, i: int) {
    && 0 <= i < |ms| && Within(q, ms[i].dest)
    && forall j :: i < j < |ms| ==> !Within(q, ms[j].dest)
  }

  // ----- reading the argv -----

  function RootMounts(roots: seq<string>, h: string): seq<Mount> {
    seq(|roots|, i requires 0 <= i < |roots| =>
      Mount(RootPath(roots[i], Some(h)), RootPath(roots[i], Some(h)), Bound, true))
  }

  function HomeMounts(names: seq<string>, h: string, writable: bool, present: Present): seq<Mount> {
    if names == [] then [] else
      var p := h + "/" + names[|names| - 1];
      HomeMounts(names[..|names| - 1], h, writable, present)
      + (if present(p) then [Mount(p, p, Bound, writable)] else [])
  }

  lemma {:induction false} BindReads(w: string, source: string, dest: string, rest: seq<string>, present: Present)
    requires Bind(w) && Options(rest, present).Some?
    ensures var s := Options(rest, present).value;
            Options([w, source, dest] + rest, present)
                == Some(s.(mounts := BindOf(w, source, dest, present) + s.mounts))
  {
    var ws := [w, source, dest] + rest;
    assert ws[3..] == rest;
  }

  lemma {:induction false} FreshReads(w: string, dest: string, rest: seq<string>, present: Present)
    requires Fresh(w) && Options(rest, present).Some?
    ensures var s := Options(rest, present).value;
            Options([w, dest] + rest, present) == Some(s.(mounts := [FreshOf(w, dest)] + s.mounts))
  {
    var ws := [w, dest] + rest;
    assert ws[2..] == rest;
  }

  lemma {:induction false} FlagReads(w: string, rest: seq<string>, present: Present)
    requires Flag(w) && Options(rest, present).Some?
    ensures var s := Options(rest, present).value;
            Options([w] + rest, present) == Some(s.(flags := s.flags + {w}))
  {
    assert ([w] + rest)[1..] == rest;
  }

  lemma {:induction false} RootsRead(roots: seq<string>, h: string, rest: seq<string>, present: Present)
    requires Options(rest, present).Some?
    ensures var s := Options(rest, present).value;
            Options(RootBinds(roots, Some(h)) + rest, present) == Some(s.(mounts := RootMounts(roots, h) + s.mounts))
  {
    var s := Options(rest, present).value;
    if roots == [] {
      assert RootBinds(roots, Some(h)) + rest == rest;
      assert RootMounts(roots, h) + s.mounts == s.mounts;
    } else {
      var n := |roots| - 1;
      var p := RootPath(roots[n], Some(h));
      BindReads("--bind", p, p, rest, present);
      RootsRead(roots[..n], h, ["--bind", p, p] + rest, present);
      Grouped(RootBinds(roots[..n], Some(h)), ["--bind", p, p], rest);
      assert RootMounts(roots, h) == RootMounts(roots[..n], h) + [Mount(p, p, Bound, true)];
      Grouped(RootMounts(roots[..n], h), [Mount(p, p, Bound, true)], s.mounts);
    }
  }

  lemma Grouped<T>(a: seq<T>, b: seq<T>, c: seq<T>)
    ensures a + b + c == a + (b + c)
  {
  }

  lemma {:induction false} HomesRead(flag: string, names: seq<string>, h: string, rest: seq<string>, present: Present)
    requires Options(rest, present).Some? && Tried(flag)
    ensures var s := Options(rest, present).value;
            Options(HomeBinds(flag, names, Some(h)) + rest, present)
            == Some(s.(mounts := HomeMounts(names, h, flag == "--bind-try", present) + s.mounts))
  {
    var s := Options(rest, present).value;
    if names == [] {
      assert HomeBinds(flag, names, Some(h)) + rest == rest;
      assert HomeMounts(names, h, flag == "--bind-try", present) + s.mounts == s.mounts;
    } else {
      var n := |names| - 1;
      var p := h + "/" + names[n];
      BindReads(flag, p, p, rest, present);
      HomesRead(flag, names[..n], h, [flag, p, p] + rest, present);
      Grouped(HomeBinds(flag, names[..n], Some(h)), [flag, p, p], rest);
      Grouped(HomeMounts(names[..n], h, flag == "--bind-try", present), BindOf(flag, p, p, present), s.mounts);
    }
  }

  const BASE_MOUNTS: seq<Mount> :=
    [Mount("/", "/", Bound, false), Mount("/dev", "/dev", Device, true), Mount("", "/proc", Proc, true),
     Mount("", "/tmp", Tmp, true)]

  /** Every mount, in order. */
  function MountsOf(roots: seq<string>, h: string, present: Present): seq<Mount> {
    BASE_MOUNTS + RootMounts(roots, h) + HomeMounts(STATE, h, true, present) + HomeMounts(SETTINGS, h, false, present)
  }

  lemma {:induction false} DirectoriesRead(rest: seq<string>, present: Present)
    requires Options(rest, present).Some?
    ensures var s := Options(rest, present).value;
            Options(["--ro-bind", "/", "/"] + (["--dev-bind", "/dev", "/dev"]
                                               + (["--proc", "/proc"] + (["--tmpfs", "/tmp"] + rest))), present)
            == Some(s.(mounts := BASE_MOUNTS + s.mounts))
  {
    var s := Options(rest, present).value;
    var tmp := ["--tmpfs", "/tmp"] + rest;
    var proc := ["--proc", "/proc"] + tmp;
    var dev := ["--dev-bind", "/dev", "/dev"] + proc;
    FreshReads("--tmpfs", "/tmp", rest, present);
    FreshReads("--proc", "/proc", tmp, present);
    BindReads("--dev-bind", "/dev", "/dev", proc, present);
    BindReads("--ro-bind", "/", "/", dev, present);
    FourMounts(BASE_MOUNTS[0], BASE_MOUNTS[1], BASE_MOUNTS[2], BASE_MOUNTS[3], s.mounts);
  }

  lemma FourMounts(a: Mount, b: Mount, c: Mount, d: Mount, rest: seq<Mount>)
    ensures [a] + ([b] + ([c] + ([d] + rest))) == [a, b, c, d] + rest
  {
  }

  lemma {:induction false} FlagsRead(rest: seq<string>, present: Present)
    requires Options(rest, present).Some?
    ensures var s := Options(rest, present).value;
            Options(["--die-with-parent"] + (["--unshare-user"] + (["--unshare-pid"] + rest)), present)
            == Some(s.(flags := s.flags + {"--die-with-parent", "--unshare-user", "--unshare-pid"}))
  {
    var s := Options(rest, present).value;
    FlagReads("--unshare-pid", rest, present);
    FlagReads("--unshare-user", ["--unshare-pid"] + rest, present);
    FlagReads("--die-with-parent", ["--unshare-user"] + (["--unshare-pid"] + rest), present);
    ThreeFlags(s.flags, "--die-with-parent", "--unshare-user", "--unshare-pid");
  }

  lemma ThreeFlags(s: set<string>, a: string, b: string, c: string)
    ensures s + {c} + {b} + {a} == s + {a, b, c}
  {
  }

  lemma BaseParts(rest: seq<string>)
    ensures (BASE + rest)[0] == "bwrap"
    ensures (BASE + rest)[1..] ==
              ["--die-with-parent"] + (["--unshare-user"] + (["--unshare-pid"] + (["--ro-bind", "/", "/"]
              + (["--dev-bind", "/dev", "/dev"] + (["--proc", "/proc"] + (["--tmpfs", "/tmp"] + rest))))))
  {
  }

  lemma {:induction false} BaseReads(rest: seq<string>, present: Present)
    requires Options(rest, present).Some?
    ensures var s := Options(rest, present).value;
            ReadArgv(BASE + rest, present)
            == Some(s.(flags := s.flags + {"--die-with-parent", "--unshare-user", "--unshare-pid"},
                       mounts := BASE_MOUNTS + s.mounts))
  {
    BaseParts(rest);
    DirectoriesRead(rest, present);
    FlagsRead(["--ro-bind", "/", "/"] + (["--dev-bind", "/dev", "/dev"]
                                         + (["--proc", "/proc"] + (["--tmpfs", "/tmp"] + rest))), present);
  }

  lemma {:induction false} EndReads(command: seq<string>, present: Present)
    ensures Options(["--"] + command, present) == Some(Sandbox({}, [], command))
  {
    assert (["--"] + command)[1..] == command;
  }

  lemma {:induction false} ArgvParts(roots: seq<string>, h: string, command: seq<string>)
    requires Confine(roots, Some(h)).Ok?
    ensures Confine(roots, Some(h)).value + command ==
              BASE + (RootBinds(roots, Some(h)) + (HomeBinds("--bind-try", STATE, Some(h))
              + (HomeBinds("--ro-bind-try", SETTINGS, Some(h)) + (["--"] + command))))
  {
    var a, b, c := RootBinds(roots, Some(h)), HomeBinds("--bind-try", STATE, Some(h)), HomeBinds("--ro-bind-try",
                                                                                                 SETTINGS, Some(h));
    FiveParts(BASE, a, b, c, ["--"], command);
  }

  lemma FiveParts<T>(base: seq<T>, a: seq<T>, b: seq<T>, c: seq<T>, d: seq<T>, e: seq<T>)
    ensures base + a + b + c + d + e == base + (a + (b + (c + (d + e))))
  {
  }

  /** The argv, with a command behind it, is read as exactly these flags, mounts and command. */
  lemma ArgvReads(roots: seq<string>, h: string, command: seq<string>, present: Present)
    requires Confine(roots, Some(h)).Ok?
    ensures ReadArgv(Confine(roots, Some(h)).value + command, present)
            == Some(Sandbox({"--die-with-parent", "--unshare-user", "--unshare-pid"}, MountsOf(roots, h, present),
                            command))
  {
    var end := ["--"] + command;
    var settings := HomeBinds("--ro-bind-try", SETTINGS, Some(h)) + end;
    var state := HomeBinds("--bind-try", STATE, Some(h)) + settings;
    EndReads(command, present);
    HomesRead("--ro-bind-try", SETTINGS, h, end, present);
    HomesRead("--bind-try", STATE, h, settings, present);
    RootsRead(roots, h, state, present);
    BaseReads(RootBinds(roots, Some(h)) + state, present);
    ArgvParts(roots, h, command);
    MountParts(BASE_MOUNTS, RootMounts(roots, h), HomeMounts(STATE, h, true, present),
               HomeMounts(SETTINGS, h, false, present));
    NoFlags({"--die-with-parent", "--unshare-user", "--unshare-pid"});
  }

  lemma MountParts<T>(base: seq<T>, a: seq<T>, b: seq<T>, c: seq<T>)
    ensures base + (a + (b + (c + []))) == base + a + b + c
  {
  }

  lemma NoFlags(s: set<string>)
    ensures {} + s == s
  {
  }

  // ----- what the mounts mean -----

  /** A root of the list, the home directory written out. */
  function Given(root: string, h: string): string {
    if "~/" <= root then h + "/" + root[2..] else root
  }

  /** Under a granted root, or under one of the three backend state paths that exist. */
  predicate Granted(q: string, roots: seq<string>, h: string, present: Present) {
    || (exists r :: r in roots && Within(q, Given(r, h)))
    || (present(h + "/.codex") && Within(q, h + "/.codex"))
    || (present(h + "/.claude") && Within(q, h + "/.claude"))
    || (present(h + "/.claude.json") && Within(q, h + "/.claude.json"))
  }

  /** Under one of the four settings paths that exist. */
  predicate Protected(q: string, h: string, present: Present) {
    || (present(h + "/.codex/config.toml") && Within(q, h + "/.codex/config.toml"))
    || (present(h + "/.claude/settings.json") && Within(q, h + "/.claude/settings.json"))
    || (present(h + "/.claude/settings.local.json") && Within(q, h + "/.claude/settings.local.json"))
    || (present(h + "/.claude/hooks") && Within(q, h + "/.claude/hooks"))
  }

  predicate Covered(ms: seq<Mount>, q: string) {
    exists i :: 0 <= i < |ms| && Within(q, ms[i].dest)
  }

  lemma CoveredConcat(a: seq<Mount>, b: seq<Mount>, q: string)
    ensures Covered(a + b, q) <==> Covered(a, q) || Covered(b, q)
  {
    if i :| 0 <= i < |a| && Within(q, a[i].dest) {
      assert (a + b)[i] == a[i];
    }
    if i :| 0 <= i < |b| && Within(q, b[i].dest) {
      assert (a + b)[|a| + i] == b[i];
    }
  }

  /** Seen through the later part if that covers it, and through the earlier one otherwise. */
  lemma CoversLater(a: seq<Mount>, b: seq<Mount>, q: string, i: int)
    requires LastCovers(a + b, q, i)
    ensures Covered(b, q) ==> i >= |a| && LastCovers(b, q, i - |a|)
    ensures !Covered(b, q) ==> i < |a| && LastCovers(a, q, i)
  {
    var ms := a + b;
    if k :| 0 <= k < |b| && Within(q, b[k].dest) {
      assert ms[|a| + k] == b[k];
    }
    assert forall j :: 0 <= j < |b| ==> b[j] == ms[|a| + j];
    assert forall j :: 0 <= j < |a| ==> a[j] == ms[j];
  }

  lemma RootsCover(q: string, roots: seq<string>, h: string)
    ensures Covered(RootMounts(roots, h), q) <==> exists r :: r in roots && Within(q, Given(r, h))
  {
    if r :| r in roots && Within(q, Given(r, h)) {
      var i :| 0 <= i < |roots| && roots[i] == r;
      assert RootMounts(roots, h)[i].dest == Given(r, h);
    }
    if i :| 0 <= i < |roots| && Within(q, RootMounts(roots, h)[i].dest) {
      assert roots[i] in roots && RootMounts(roots, h)[i].dest == Given(roots[i], h);
    }
  }

  lemma {:induction false} HomesCover(q: string, names: seq<string>, h: string, writable: bool, present: Present)
    ensures Covered(HomeMounts(names, h, writable, present), q) <==>
              exists n :: n in names && present(h + "/" + n) && Within(q, h + "/" + n)
    ensures forall m :: m in HomeMounts(names, h, writable, present) ==>
              m.writable == writable && m.kind == Bound && m.source == m.dest
  {
    if names != [] {
      var k := |names| - 1;
      var p := h + "/" + names[k];
      HomesCover(q, names[..k], h, writable, present);
      assert names == names[..k] + [names[k]];
      var last: seq<Mount> := if present(p) then [Mount(p, p, Bound, writable)] else [];
      CoveredConcat(HomeMounts(names[..k], h, writable, present), last, q);
      assert Covered(last, q) <==> present(p) && Within(q, p) by {
        if present(p) {
          assert last[0].dest == p;
        }
      }
      assert names[k] in names;
    }
  }

  lemma {:induction false} StateCovers(q: string, roots: seq<string>, h: string, present: Present)
    ensures Covered(RootMounts(roots, h) + HomeMounts(STATE, h, true, present), q) <==> Granted(q, roots, h, present)
  {
    RootsCover(q, roots, h);
    HomesCover(q, STATE, h, true, present);
    CoveredConcat(RootMounts(roots, h), HomeMounts(STATE, h, true, present), q);
    Tails(h);
    assert STATE == [".codex", ".claude", ".claude.json"];
  }

  lemma {:induction false} SettingsCover(q: string, h: string, present: Present)
    ensures Covered(HomeMounts(SETTINGS, h, false, present), q) <==> Protected(q, h, present)
  {
    HomesCover(q, SETTINGS, h, false, present);
    Tails(h);
    assert SETTINGS == [".codex/config.toml", ".claude/settings.json", ".claude/settings.local.json", ".claude/hooks"];
  }

  lemma Tails(h: string)
    ensures h + "/" + ".codex" == h + "/.codex" && h + "/" + ".claude" == h + "/.claude"
    ensures h + "/" + ".claude.json" == h + "/.claude.json"
            && h + "/" + ".codex/config.toml" == h + "/.codex/config.toml"
    ensures h + "/" + ".claude/settings.json" == h + "/.claude/settings.json"
    ensures h + "/" + ".claude/settings.local.json" == h + "/.claude/settings.local.json"
    ensures h + "/" + ".claude/hooks" == h + "/.claude/hooks"
  {
  }

  lemma BaseMeaning(q: string, i: int)
    requires LastCovers(BASE_MOUNTS, q, i)
    ensures BASE_MOUNTS[i].writable && BASE_MOUNTS[i].kind != Proc <==> Within(q, "/tmp") || Within(q, "/dev")
  {
    assert StripSlash("/tmp") == "/tmp" && StripSlash("/dev") == "/dev" && StripSlash("/proc") == "/proc";
    assert BASE_MOUNTS[1].dest == "/dev" && BASE_MOUNTS[2].dest == "/proc" && BASE_MOUNTS[3].dest == "/tmp";
    if Within(q, "/tmp") || Within(q, "/dev") || Within(q, "/proc") {
      assert q[0] == '/';
      assert q[1] == (if Within(q, "/tmp") then 't' else if Within(q, "/dev") then 'd' else 'p');
    }
  }

  /** What a confined worker can write, for every root list, home and machine: nothing under the four settings
      paths; otherwise exactly what lies under a granted root, the three backend state paths, /tmp or /dev (the
      fresh /proc apart). Every bind shows a path as itself, the namespaces are its own, and behind them the
      command is run unchanged. */
  lemma ConfinementMeaning(roots: seq<string>, h: string, command: seq<string>, present: Present)
    requires Confine(roots, Some(h)).Ok?
    ensures var box := ReadArgv(Confine(roots, Some(h)).value + command, present);
            && box.Some? && box.value.command == command
            && box.value.flags == {"--die-with-parent", "--unshare-user", "--unshare-pid"}
            && (forall m :: m in box.value.mounts && (m.kind.Bound? || m.kind.Device?) ==> m.source == m.dest)
            && (forall q, i :: LastCovers(box.value.mounts, q, i) ==>
                  (box.value.mounts[i].writable && box.value.mounts[i].kind != Proc <==>
                     && !Protected(q, h, present)
                     && (Granted(q, roots, h, present) || Within(q, "/tmp") || Within(q, "/dev"))))
  {
    ArgvReads(roots, h, command, present);
    var ms := MountsOf(roots, h, present);
    forall q, i | LastCovers(ms, q, i)
      ensures ms[i].writable && ms[i].kind != Proc <==>
                && !Protected(q, h, present)
                && (Granted(q, roots, h, present) || Within(q, "/tmp") || Within(q, "/dev"))
    {
      ViewOf(roots, h, present, q, i);
    }
    forall m | m in ms && (m.kind.Bound? || m.kind.Device?) ensures m.source == m.dest {
      HomesCover("", STATE, h, true, present);
      HomesCover("", SETTINGS, h, false, present);
    }
  }

  lemma ViewOf(roots: seq<string>, h: string, present: Present, q: string, i: int)
    requires LastCovers(MountsOf(roots, h, present), q, i)
    ensures var m := MountsOf(roots, h, present)[i];
            m.writable && m.kind != Proc <==>
              && !Protected(q, h, present)
              && (Granted(q, roots, h, present) || Within(q, "/tmp") || Within(q, "/dev"))
  {
    var granted := RootMounts(roots, h) + HomeMounts(STATE, h, true, present);
    var settings := HomeMounts(SETTINGS, h, false, present);
    Grouped(BASE_MOUNTS, RootMounts(roots, h), HomeMounts(STATE, h, true, present));
    assert MountsOf(roots, h, present) == (BASE_MOUNTS + granted) + settings;
    HomesCover(q, STATE, h, true, present);
    HomesCover(q, SETTINGS, h, false, present);
    SettingsCover(q, h, present);
    StateCovers(q, roots, h, present);
    CoversLater(BASE_MOUNTS + granted, settings, q, i);
    if Covered(settings, q) {
      assert settings[i - |BASE_MOUNTS + granted|] in settings;
    } else {
      CoversLater(BASE_MOUNTS, granted, q, i);
      if Covered(granted, q) {
        var m := granted[i - |BASE_MOUNTS|];
        assert m in granted;
        assert m in RootMounts(roots, h) || m in HomeMounts(STATE, h, true, present);
        assert m.writable && m.kind == Bound;
      } else {
        BaseMeaning(q, i);
      }
    }
  }
}
