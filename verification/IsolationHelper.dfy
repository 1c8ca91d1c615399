/** The launch helper's own steps (`main` in src/exec/isolation_helper.py): it admits a request
    exactly when nothing in it must be refused, and what it admits has the meaning proved in
    MountPlan. */
module IsolationHelper {
  import opened Wrappers
  import opened PathText
  import opened MountPlan

  // ----- private files and their masks -----

  function Targets(req: Request, home: string, values: seq<string>): Result<seq<string>> {
    if values == [] then Ok([]) else
      var rest := Targets(req, home, values[..|values| - 1]);
      var last := Target(req, home, values[|values| - 1]);
      if rest.Err? || last.Err? then Err else Ok(rest.value + [last.value])
  }

  function Resolved(fs: Fs, paths: seq<string>): Result<seq<string>> {
    if paths == [] then Ok([]) else
      var rest := Resolved(fs, paths[..|paths| - 1]);
      var last := Path(fs.resolve(paths[|paths| - 1]));
      if rest.Err? || last.Err? then Err else Ok(rest.value + [last.value])
  }

  /** The configured files and what their names resolve to. */
  function PrivateFiles(req: Request, home: string, fs: Fs): Result<seq<string>> {
    var named := Targets(req, home, req.private);
    if named.Err? then Err else
      var actual := Resolved(fs, named.value);
      if actual.Err? then Err else Ok(named.value + actual.value)
  }

  lemma {:induction false} TargetsNormal(req: Request, home: string, values: seq<string>)
    ensures Targets(req, home, values).Ok? ==> NormalAll(Targets(req, home, values).value)
  {
    if values != [] {
      TargetsNormal(req, home, values[..|values| - 1]);
      var v := values[|values| - 1];
      PathNormal(v);
      if req.remote && "~/" <= v {
        PathNormal(home + "/" + v[2..]);
      }
    }
  }

  lemma {:induction false} ResolvedNormal(fs: Fs, paths: seq<string>)
    ensures Resolved(fs, paths).Ok? ==> NormalAll(Resolved(fs, paths).value)
  {
    if paths != [] {
      ResolvedNormal(fs, paths[..|paths| - 1]);
      PathNormal(fs.resolve(paths[|paths| - 1]));
    }
  }

  predicate LexLess(a: string, b: string) {
    b != "" && (a == "" || a[0] < b[0] || (a[0] == b[0] && LexLess(a[1..], b[1..])))
  }

  /** The sort key `(len(p), p)`. */
  predicate Before(a: string, b: string) {
    |a| < |b| || (|a| == |b| && LexLess(a, b))
  }

  function InsertMask(ms: seq<string>, m: string): seq<string> {
    if ms == [] then [m]
    else if ms[|ms| - 1] == m then ms
    else if Before(m, ms[|ms| - 1]) then InsertMask(ms[..|ms| - 1], m) + [ms[|ms| - 1]]
    else ms + [m]
  }

  /** `sorted(set(os.path.dirname(p) for p in private), key=...)`. */
  function SortedMasks(private: seq<string>): seq<string>
    requires NormalAll(private)
  {
    if private == [] then [] else InsertMask(SortedMasks(private[..|private| - 1]), Dirname(private[|private| - 1]))
  }

  /** Shortest first: a mask is kept unless an already kept one holds it. */
  function Choose(masks: seq<string>): seq<string> {
    if masks == [] then [] else
      var kept := Choose(masks[..|masks| - 1]);
      if UnderSome(masks[|masks| - 1], kept) then kept else kept + [masks[|masks| - 1]]
  }

  predicate ByLength(ms: seq<string>) {
    forall i, j :: 0 <= i < j < |ms| ==> |ms[i]| <= |ms[j]|
  }

  lemma {:induction false} InsertKeeps(ms: seq<string>, m: string)
    requires ByLength(ms)
    ensures ByLength(InsertMask(ms, m))
    ensures forall x :: x in InsertMask(ms, m) <==> x in ms || x == m
  {
    if ms != [] && ms[|ms| - 1] != m && Before(m, ms[|ms| - 1]) {
      var init, last := ms[..|ms| - 1], ms[|ms| - 1];
      InsertKeeps(init, m);
      var out := InsertMask(init, m);
      forall i | 0 <= i < |out| ensures |out[i]| <= |last| {
        assert out[i] in out;
        assert out[i] in init || out[i] == m;
      }
      assert ms == init + [last];
    }
  }

  lemma {:induction false} SortedMasksAre(private: seq<string>)
    requires NormalAll(private)
    ensures ByLength(SortedMasks(private))
    ensures forall m :: m in SortedMasks(private) <==> exists p :: p in private && Dirname(p) == m
    ensures NormalAll(SortedMasks(private))
  {
    if private != [] {
      var n := |private| - 1;
      SortedMasksAre(private[..n]);
      InsertKeeps(SortedMasks(private[..n]), Dirname(private[n]));
      DirnameOf(private[n]);
      assert private == private[..n] + [private[n]];
      var ms := SortedMasks(private);
      forall m | m in ms ensures Normal(m) && exists p :: p in private && Dirname(p) == m {
        if m in SortedMasks(private[..n]) {
          var p :| p in private[..n] && Dirname(p) == m;
          assert p in private;
          DirnameOf(p);
        } else {
          assert private[n] in private;
        }
      }
      forall p | p in private ensures Dirname(p) in ms {
        if p in private[..n] {
          assert Dirname(p) in SortedMasks(private[..n]);
        }
      }
    }
  }

  lemma WithinNotShorter(v: string, r: string)
    requires Normal(v) && Normal(r) && Within(v, r)
    ensures |r| <= |v| && (|r| == |v| ==> r == v)
  {
    WithinPrefix(v, r);
  }

  lemma {:induction false} ChooseIs(masks: seq<string>)
    requires ByLength(masks) && NormalAll(masks)
    ensures var kept := Choose(masks);
            && NonNested(kept) && NormalAll(kept) && ByLength(kept)
            && (forall m :: m in kept ==> m in masks)
            && (forall m :: m in masks ==> UnderSome(m, kept))
  {
    if masks != [] {
      var n := |masks| - 1;
      ChooseIs(masks[..n]);
      var before, kept, last := Choose(masks[..n]), Choose(masks), masks[n];
      forall i | 0 <= i < |before| ensures |before[i]| <= |last| {
        assert before[i] in masks[..n];
      }
      if !UnderSome(last, before) {
        forall i | 0 <= i < |before| ensures !Within(before[i], last) && !Within(last, before[i]) {
          if Within(before[i], last) {
            WithinNotShorter(before[i], last);
          }
        }
        assert kept[|before|] == last && Within(last, last);
      }
      forall m | m in masks ensures UnderSome(m, kept) {
        if m in masks[..n] {
          var i :| 0 <= i < |before| && Within(m, before[i]);
          assert kept[i] == before[i];
        } else {
          assert m == last;
        }
      }
    }
  }

  /** The chosen masks are right for the private files, unless one of them lies in the root. */
  lemma {:induction false} ChosenMasks(private: seq<string>)
    requires NormalAll(private) && "/" !in SortedMasks(private)
    ensures MasksFor(private, Choose(SortedMasks(private)))
  {
    SortedMasksAre(private);
    ChooseIs(SortedMasks(private));
  }

  // ----- settings layers -----

  const HOME_LAYERS: seq<string> := ["/.codex/config.toml", "/.claude.json", "/.claude/settings.json",
                                     "/.claude/settings.local.json"]
  const SYSTEM_LAYERS: seq<string> := ["/etc/codex/config.toml", "/etc/codex/managed_config.toml"]
  const PROJECT_LAYERS: seq<string> := ["/.codex/config.toml", "/.mcp.json", "/.claude/settings.json",
                                        "/.claude/settings.local.json"]

  function Below(base: string, tails: seq<string>): seq<string> {
    seq(|tails|, i requires 0 <= i < |tails| => StripSlash(base) + tails[i])
  }

  /** The project layers of a directory and of every ancestor. */
  function Ancestry(directory: string): seq<string>
    requires Normal(directory)
    decreases |directory|
  {
    if directory == "/" then Below(directory, PROJECT_LAYERS) else
      DirnameOf(directory);
      Below(directory, PROJECT_LAYERS) + Ancestry(Dirname(directory))
  }

  /** Every settings file a backend might read; `profiles` are the profile files found beside
      Codex's own. */
  function Layers(home: string, workspace: string, profiles: seq<string>): seq<string>
    requires Normal(workspace)
  {
    Below(home, HOME_LAYERS) + SYSTEM_LAYERS + Below(home + "/.codex/", profiles) + Ancestry(workspace)
  }

  /** A directory entry's name, with the slash before it. */
  predicate EntryNames(profiles: seq<string>) {
    forall i :: 0 <= i < |profiles| ==> Normal(profiles[i]) && profiles[i] != "/"
  }

  lemma BelowNormal(base: string, tails: seq<string>)
    requires Normal(base) && Tails(tails)
    ensures NormalAll(Below(base, tails))
  {
    forall i | 0 <= i < |tails| ensures Normal(StripSlash(base) + tails[i]) {
      if base == "/" {
        assert base[..0] == "";
        assert StripSlash(base) == "";
        assert "" + tails[i] == tails[i];
      } else {
        ConcatNormal(base, tails[i]);
      }
    }
  }

  lemma {:induction false} AncestryNormal(directory: string)
    requires Normal(directory)
    ensures NormalAll(Ancestry(directory))
    decreases |directory|
  {
    ProjectTails();
    BelowNormal(directory, PROJECT_LAYERS);
    if directory != "/" {
      DirnameOf(directory);
      AncestryNormal(Dirname(directory));
    }
  }

  predicate Tails(tails: seq<string>) {
    forall i :: 0 <= i < |tails| ==> Normal(tails[i]) && tails[i] != "/"
  }

  lemma HomeTails()
    ensures Tails(HOME_LAYERS)
  {
    assert Normal(HOME_LAYERS[0]);
    assert Normal(HOME_LAYERS[1]);
    assert Normal(HOME_LAYERS[2]);
    assert Normal(HOME_LAYERS[3]);
  }

  lemma SystemTails()
    ensures Tails(SYSTEM_LAYERS)
  {
    assert Normal(SYSTEM_LAYERS[0]);
    assert Normal(SYSTEM_LAYERS[1]);
  }

  lemma ProjectTails()
    ensures Tails(PROJECT_LAYERS)
  {
    assert Normal(PROJECT_LAYERS[0]);
    assert Normal(PROJECT_LAYERS[1]);
    assert Normal(PROJECT_LAYERS[2]);
    assert Normal(PROJECT_LAYERS[3]);
  }

  lemma NormalConcat(a: seq<string>, b: seq<string>)
    requires NormalAll(a) && NormalAll(b)
    ensures NormalAll(a + b)
  {
  }

  lemma ProfilesBelow(home: string, profiles: seq<string>)
    requires Normal(home) && home != "/" && EntryNames(profiles)
    ensures NormalAll(Below(home + "/.codex/", profiles))
  {
    ConcatNormal(home, "/.codex");
    BelowNormal(home + "/.codex", profiles);
    assert home + "/.codex/" == home + "/.codex" + "/";
    assert (home + "/.codex/")[..|home + "/.codex/"| - 1] == home + "/.codex";
    assert StripSlash(home + "/.codex/") == StripSlash(home + "/.codex");
  }

  lemma LayersNormal(home: string, workspace: string, profiles: seq<string>)
    requires Normal(home) && home != "/" && Normal(workspace) && EntryNames(profiles)
    ensures NormalAll(Layers(home, workspace, profiles))
  {
    HomeTails();
    SystemTails();
    var a, c, d := Below(home, HOME_LAYERS), Below(home + "/.codex/", profiles), Ancestry(workspace);
    BelowNormal(home, HOME_LAYERS);
    ProfilesBelow(home, profiles);
    AncestryNormal(workspace);
    NormalConcat(a, SYSTEM_LAYERS);
    NormalConcat(a + SYSTEM_LAYERS, c);
    NormalConcat(a + SYSTEM_LAYERS + c, d);
  }

  lemma {:induction false} AncestryIs(directory: string, d: string, k: nat)
    requires Normal(directory) && Normal(d) && k < |PROJECT_LAYERS|
    ensures Within(directory, d) ==> StripSlash(d) + PROJECT_LAYERS[k] in Ancestry(directory)
    decreases |directory|
  {
    if Within(directory, d) {
      if d == directory {
        assert Below(directory, PROJECT_LAYERS)[k] == StripSlash(d) + PROJECT_LAYERS[k];
      } else {
        WithinPrefix(directory, d);
        DirnameOf(directory);
        ParentWithin(directory, d);
        AncestryIs(Dirname(directory), d, k);
      }
    }
  }

  lemma {:induction false} AncestryOnly(directory: string, name: string)
    requires Normal(directory) && name in Ancestry(directory)
    ensures exists d, k: nat :: LayerOf(directory, d, k, name)
    decreases |directory|
  {
    if name in Below(directory, PROJECT_LAYERS) {
      var k :| 0 <= k < |PROJECT_LAYERS| && Below(directory, PROJECT_LAYERS)[k] == name;
      assert LayerOf(directory, directory, k, name);
    } else {
      DirnameOf(directory);
      AncestryOnly(Dirname(directory), name);
      var d, k: nat :| LayerOf(Dirname(directory), d, k, name);
      WithinTrans(directory, Dirname(directory), d);
      assert LayerOf(directory, d, k, name);
    }
  }

  /** `name` is the project layer `k` of a directory that holds `directory`. */
  predicate LayerOf(directory: string, d: string, k: nat, name: string) {
    Normal(d) && Within(directory, d) && k < |PROJECT_LAYERS| && name == StripSlash(d) + PROJECT_LAYERS[k]
  }

  /** Exactly these files are settings candidates: the owner's four, the system's two, Codex's profiles, and the
      four project layers of the workspace and of every directory above it, the root included. */
  lemma {:induction false} LayersAre(home: string, workspace: string, profiles: seq<string>, name: string)
    requires Normal(workspace)
    ensures name in Layers(home, workspace, profiles) <==>
              || name in [StripSlash(home) + "/.codex/config.toml", StripSlash(home) + "/.claude.json",
                          StripSlash(home) + "/.claude/settings.json",
                          StripSlash(home) + "/.claude/settings.local.json"]
              || name in ["/etc/codex/config.toml", "/etc/codex/managed_config.toml"]
              || (exists i :: 0 <= i < |profiles| && name == StripSlash(home + "/.codex/") + profiles[i])
              || (exists d :: Normal(d) && Within(workspace, d) && ProjectLayer(d, name))
  {
    OwnerLayers(home, name);
    BelowIs(home + "/.codex/", profiles, name);
    if d :| Normal(d) && Within(workspace, d) && ProjectLayer(d, name) {
      var k := ProjectIndex(d, name);
      AncestryIs(workspace, d, k);
    }
    if name in Ancestry(workspace) {
      AncestryOnly(workspace, name);
      var d, k: nat :| LayerOf(workspace, d, k, name);
      ProjectName(d, k, name);
    }
  }

  lemma {:induction false} OwnerLayers(home: string, name: string)
    ensures name in Below(home, HOME_LAYERS) <==>
              name in [StripSlash(home) + "/.codex/config.toml", StripSlash(home) + "/.claude.json",
                       StripSlash(home) + "/.claude/settings.json", StripSlash(home) + "/.claude/settings.local.json"]
  {
    var below := Below(home, HOME_LAYERS);
    assert |below| == 4;
    assert below == [below[0], below[1], below[2], below[3]];
  }

  lemma {:induction false} ProjectName(d: string, k: nat, name: string)
    requires k < |PROJECT_LAYERS| && name == StripSlash(d) + PROJECT_LAYERS[k]
    ensures ProjectLayer(d, name)
  {
    assert k == 0 || k == 1 || k == 2 || k == 3;
  }

  lemma ProjectIndex(d: string, name: string) returns (k: nat)
    requires ProjectLayer(d, name)
    ensures k < |PROJECT_LAYERS| && name == StripSlash(d) + PROJECT_LAYERS[k]
  {
    k := if name == StripSlash(d) + "/.codex/config.toml" then 0
         else if name == StripSlash(d) + "/.mcp.json" then 1
         else if name == StripSlash(d) + "/.claude/settings.json" then 2
         else 3;
  }

  predicate ProjectLayer(d: string, name: string) {
    name in [StripSlash(d) + "/.codex/config.toml", StripSlash(d) + "/.mcp.json",
             StripSlash(d) + "/.claude/settings.json", StripSlash(d) + "/.claude/settings.local.json"]
  }

  lemma {:induction false} BelowIs(base: string, tails: seq<string>, name: string)
    ensures name in Below(base, tails) <==> exists i :: 0 <= i < |tails| && name == StripSlash(base) + tails[i]
  {
    if i :| 0 <= i < |tails| && name == StripSlash(base) + tails[i] {
      assert Below(base, tails)[i] == name;
    }
  }

  // ----- exactly what is refused -----

  predicate Hidden(selected: seq<string>, roots: seq<string>, name: string) {
    UnderSome(name, selected) && !UnderSome(name, roots)
  }

  /** A settings layer, or `~/.claude.json`: absent, or one plain file. */
  predicate FileOrAbsent(k: Kind) {
    k == Missing || k == File(1)
  }

  predicate DirOrAbsent(k: Kind) {
    k == Missing || k == Dir
  }

  /** A private file that is a directory or has a second name, lies in the root, or under a mount
      source; or a mask that is not a directory. */
  predicate RefusesFiles(fs: Fs, roots: seq<string>, private: seq<string>)
    requires NormalAll(private)
  {
    || (exists p :: p in private && !Unlinked(fs.stat(p)))
    || "/" in SortedMasks(private)
    || (exists p :: p in private && UnderSome(p, roots))
    || (exists m :: m in Choose(SortedMasks(private)) && fs.open(m) != Dir)
  }

  predicate Unlinked(k: Kind) {
    k != Dir && (k.File? ==> k.links == 1)
  }

  /** A settings layer, not hidden by a mask, that is not one plain file. */
  predicate RefusesLayers(fs: Fs, selected: seq<string>, roots: seq<string>, names: seq<string>) {
    exists n :: n in names && !Hidden(selected, roots, n) && !FileOrAbsent(fs.open(n))
  }

  /** Everything `main` refuses for, over the parsed request. */
  predicate Refuses(req: Request, fs: Fs, profiles: seq<string>, home: string, workspace: string, private: seq<string>)
    requires NormalAll(private) && Normal(workspace)
  {
    var roots := [workspace] + StateRoots(home);
    || RefusesFiles(fs, roots, private)
    || fs.open(home) != Dir
    || RefusesLayers(fs, Choose(SortedMasks(private)), roots, Layers(home, workspace, profiles))
    || !WorkspaceOpens(req, fs, workspace) || !StateOpens(req, fs, home)
  }

  predicate Parsed(req: Request, fs: Fs, home: string, workspace: string, private: seq<string>) {
    && Path(req.home) == Ok(home) && home != "/"
    && Target(req, home, req.workspace) == Ok(workspace)
    && PrivateFiles(req, home, fs) == Ok(private)
  }

  function Present(fs: Fs, paths: seq<string>): seq<string> {
    if paths == [] then [] else
      var last := paths[|paths| - 1];
      Present(fs, paths[..|paths| - 1]) + (if fs.open(last) == Missing then [] else [last])
  }

  /** The layers that get a sanitized copy: present, and not already hidden by a mask. */
  function Shown(fs: Fs, selected: seq<string>, roots: seq<string>, names: seq<string>): seq<string> {
    if names == [] then [] else
      var last := names[|names| - 1];
      Shown(fs, selected, roots, names[..|names| - 1])
      + (if Hidden(selected, roots, last) || fs.open(last) == Missing then [] else [last])
  }

  lemma {:induction false} ShownAre(fs: Fs, selected: seq<string>, roots: seq<string>, names: seq<string>)
    ensures forall n :: n in Shown(fs, selected, roots, names) <==>
              n in names && !Hidden(selected, roots, n) && fs.open(n) != Missing
  {
    if names != [] {
      ShownAre(fs, selected, roots, names[..|names| - 1]);
      assert names == names[..|names| - 1] + [names[|names| - 1]];
    }
  }

  lemma {:induction false} PresentAre(fs: Fs, paths: seq<string>)
    ensures forall p :: p in Present(fs, paths) <==> p in paths && fs.open(p) != Missing
  {
    if paths != [] {
      PresentAre(fs, paths[..|paths| - 1]);
      assert paths == paths[..|paths| - 1] + [paths[|paths| - 1]];
    }
  }

  // ----- the helper's steps -----

  /** Masks in order, each kept unless a kept one holds it; a mask at the root refuses. */
  method SelectMasks(masks: seq<string>) returns (r: Result<seq<string>>)
    ensures r.Err? <==> "/" in masks
    ensures r.Ok? ==> r.value == Choose(masks)
  {
    var selected := [];
    for i := 0 to |masks|
      invariant selected == Choose(masks[..i])
      invariant "/" !in masks[..i]
    {
      assert masks[..i + 1][..i] == masks[..i];
      if masks[i] == "/" {
        return Err;
      }
      if !UnderSome(masks[i], selected) {
        selected := selected + [masks[i]];
      }
    }
    assert masks[..|masks|] == masks;
    r := Ok(selected);
  }

  method SortMasks(private: seq<string>) returns (masks: seq<string>)
    requires NormalAll(private)
    ensures masks == SortedMasks(private)
  {
    masks := [];
    for i := 0 to |private|
      invariant masks == SortedMasks(private[..i])
    {
      assert private[..i + 1][..i] == private[..i];
      masks := InsertMask(masks, Dirname(private[i]));
    }
    assert private[..|private|] == private;
  }

  /** Hard links and directories among the private files refuse (src/exec/isolation_helper.py:50-56). */
  method CheckPrivate(private: seq<string>, fs: Fs) returns (ok: bool)
    ensures ok <==> forall p :: p in private ==> Unlinked(fs.stat(p))
  {
    for i := 0 to |private|
      invariant forall p :: p in private[..i] ==> Unlinked(fs.stat(p))
    {
      var info := fs.stat(private[i]);
      if info == Dir || (info.File? && info.links != 1) {
        assert private[i] in private;
        return false;
      }
      assert private[..i + 1] == private[..i] + [private[i]];
    }
    assert private[..|private|] == private;
    ok := true;
  }

  /** The layer loop (src/exec/isolation_settings.py:74-82): hidden layers are skipped unread. */
  method ReadLayers(names: seq<string>, selected: seq<string>, roots: seq<string>, fs: Fs)
    returns (r: Result<seq<string>>)
    ensures r.Err? <==> RefusesLayers(fs, selected, roots, names)
    ensures r.Ok? ==> r.value == Shown(fs, selected, roots, names)
  {
    var shown := [];
    for i := 0 to |names|
      invariant shown == Shown(fs, selected, roots, names[..i])
      invariant forall n :: n in names[..i] && !Hidden(selected, roots, n) ==> FileOrAbsent(fs.open(n))
    {
      assert names[..i + 1] == names[..i] + [names[i]];
      assert names[..i + 1][..i] == names[..i];
      if UnderSome(names[i], selected) && !UnderSome(names[i], roots) {
        continue;
      }
      if fs.open(names[i]) != Missing {
        if fs.open(names[i]) != File(1) {
          assert names[i] in names;
          return Err;
        }
        shown := shown + [names[i]];
      }
    }
    assert names[..|names|] == names;
    r := Ok(shown);
  }

  predicate WorkspaceOpens(req: Request, fs: Fs, workspace: string) {
    fs.open(workspace) == Dir || (fs.open(workspace) == Missing && req.create && !req.preflight)
  }

  predicate StateOpens(req: Request, fs: Fs, home: string) {
    && DirOrAbsent(fs.open(home + "/.codex")) && DirOrAbsent(fs.open(home + "/.claude"))
    && FileOrAbsent(fs.open(home + "/.claude.json"))
    && (fs.open(home + "/.claude/hooks") == Dir || (fs.open(home + "/.claude/hooks") == Missing && req.preflight))
  }

  /** The checks on the private files: the masks, or a refusal. */
  method AdmitFiles(fs: Fs, roots: seq<string>, private: seq<string>) returns (r: Result<seq<string>>)
    requires NormalAll(private)
    ensures r.Err? <==> RefusesFiles(fs, roots, private)
    ensures r.Ok? ==> r.value == Choose(SortedMasks(private))
  {
    var ok := CheckPrivate(private, fs);
    if !ok {
      return Err;
    }
    var masks := SortMasks(private);
    var chosen := SelectMasks(masks);
    if chosen.Err? {
      return Err;
    }
    if (exists p :: p in private && UnderSome(p, roots)) || (exists m :: m in chosen.value && fs.open(m) != Dir) {
      return Err;
    }
    r := chosen;
  }

  /** The checks of `main` over a parsed request: a plan, or a refusal for exactly the listed reasons. */
  method Admit(req: Request, fs: Fs, profiles: seq<string>, home: string, workspace: string, private: seq<string>)
    returns (r: Result<Plan>)
    requires EntryNames(profiles) && Normal(home) && home != "/" && Normal(workspace) && NormalAll(private)
    ensures r.Err? <==> Refuses(req, fs, profiles, home, workspace, private)
    ensures r.Ok? ==> Admitted(r.value, fs) && r.value == PlanFor(req, fs, profiles, home, workspace, private)
  {
    var roots := [workspace] + StateRoots(home);
    var selected := AdmitFiles(fs, roots, private);
    if selected.Err? || fs.open(home) != Dir {
      return Err;
    }
    var settings := ReadLayers(Layers(home, workspace, profiles), selected.value, roots, fs);
    if settings.Err? || !WorkspaceOpens(req, fs, workspace) || !StateOpens(req, fs, home) {
      return Err;
    }
    var hooks := fs.open(home + "/.claude/hooks") == Dir;
    var plan := Plan(private, home, workspace, selected.value, Present(fs, StateRoots(home)), hooks, settings.value,
                     req.preflight);
    IsAdmitted(plan, fs, profiles);
    r := Ok(plan);
  }

  /** What an admitted plan holds: every file named in the request and every alias it resolves to is private; the
      state roots that are present are mounted; and the settings restored are exactly the layers that are present
      and not hidden by a mask outside the workspace and the backend state. */
  lemma PlanHolds(req: Request, fs: Fs, profiles: seq<string>, home: string, workspace: string, private: seq<string>)
    requires EntryNames(profiles) && Normal(workspace) && NormalAll(private)
    requires PrivateFiles(req, home, fs) == Ok(private)
    ensures var plan := PlanFor(req, fs, profiles, home, workspace, private);
            && (forall v :: v in req.private ==>
                  && Target(req, home, v).Ok? && Target(req, home, v).value in plan.private
                  && Path(fs.resolve(Target(req, home, v).value)).Ok?
                  && Path(fs.resolve(Target(req, home, v).value)).value in plan.private)
            && (forall s :: s in plan.states <==> s in StateRoots(home) && fs.open(s) != Missing)
            && (plan.hooks <==> fs.open(home + "/.claude/hooks") == Dir)
            && (forall n :: n in plan.settings <==>
                  && n in Layers(home, workspace, profiles) && fs.open(n) != Missing
                  && (UnderSome(n, plan.selected) ==> UnderSome(n, [workspace] + StateRoots(home))))
  {
    var plan := PlanFor(req, fs, profiles, home, workspace, private);
    PresentAre(fs, StateRoots(home));
    ShownAre(fs, plan.selected, [workspace] + StateRoots(home), Layers(home, workspace, profiles));
    forall v | v in req.private
      ensures Target(req, home, v).Ok? && Target(req, home, v).value in private
      ensures Path(fs.resolve(Target(req, home, v).value)).Ok?
      ensures Path(fs.resolve(Target(req, home, v).value)).value in private
    {
      var named := Targets(req, home, req.private).value;
      TargetsHold(req, home, req.private, v);
      ResolvedHold(fs, named, Target(req, home, v).value);
    }
  }

  lemma {:induction false} TargetsHold(req: Request, home: string, values: seq<string>, v: string)
    requires Targets(req, home, values).Ok? && v in values
    ensures Target(req, home, v).Ok? && Target(req, home, v).value in Targets(req, home, values).value
  {
    var n := |values| - 1;
    if values[n] != v {
      assert values == values[..n] + [values[n]];
      TargetsHold(req, home, values[..n], v);
    }
  }

  lemma {:induction false} ResolvedHold(fs: Fs, paths: seq<string>, p: string)
    requires Resolved(fs, paths).Ok? && p in paths
    ensures Path(fs.resolve(p)).Ok? && Path(fs.resolve(p)).value in Resolved(fs, paths).value
  {
    var n := |paths| - 1;
    if paths[n] != p {
      assert paths == paths[..n] + [paths[n]];
      ResolvedHold(fs, paths[..n], p);
    }
  }

  function PlanFor(req: Request, fs: Fs, profiles: seq<string>, home: string, workspace: string,
                   private: seq<string>): Plan
    requires Normal(workspace) && NormalAll(private)
  {
    var selected := Choose(SortedMasks(private));
    Plan(private, home, workspace, selected, Present(fs, StateRoots(home)), fs.open(home + "/.claude/hooks") == Dir,
         Shown(fs, selected, [workspace] + StateRoots(home), Layers(home, workspace, profiles)), req.preflight)
  }

  /** `main`, up to the exec: the mount plan, or a refusal. */
  method BuildPlan(req: Request, fs: Fs, profiles: seq<string>) returns (r: Result<Plan>)
    requires EntryNames(profiles)
    ensures r.Ok? ==>
              var p := r.value;
              && Parsed(req, fs, p.home, p.workspace, p.private) && Admitted(p, fs)
              && !Refuses(req, fs, profiles, p.home, p.workspace, p.private)
              && p == PlanFor(req, fs, profiles, p.home, p.workspace, p.private)
    ensures r.Err? ==> forall home, workspace, private :: Parsed(req, fs, home, workspace, private) ==>
              NormalAll(private) && Normal(workspace) && Refuses(req, fs, profiles, home, workspace, private)
  {
    var parsed := Path(req.home);
    if parsed.Err? || parsed.value == "/" {
      return Err;
    }
    var home := parsed.value;
    var placed := Target(req, home, req.workspace);
    var files := PrivateFiles(req, home, fs);
    if placed.Err? || files.Err? {
      return Err;
    }
    PathNormal(req.home);
    ParsedNormal(req, fs, home, placed.value, files.value);
    r := Admit(req, fs, profiles, home, placed.value, files.value);
  }

  lemma ParsedNormal(req: Request, fs: Fs, home: string, workspace: string, private: seq<string>)
    requires Target(req, home, req.workspace) == Ok(workspace) && PrivateFiles(req, home, fs) == Ok(private)
    ensures Normal(workspace) && NormalAll(private)
  {
    PathNormal(req.workspace);
    if "~/" <= req.workspace {
      PathNormal(home + "/" + req.workspace[2..]);
    }
    TargetsNormal(req, home, req.private);
    ResolvedNormal(fs, Targets(req, home, req.private).value);
  }

  lemma {:induction false} IsAdmitted(plan: Plan, fs: Fs, profiles: seq<string>)
    requires NormalAll(plan.private) && Normal(plan.home) && plan.home != "/" && Normal(plan.workspace)
             && EntryNames(profiles)
    requires plan.selected == Choose(SortedMasks(plan.private)) && !RefusesFiles(fs, plan.Roots(), plan.private)
    requires plan.states == Present(fs, StateRoots(plan.home))
    requires plan.settings == Shown(fs, plan.selected, plan.Roots(), Layers(plan.home, plan.workspace, profiles))
    requires !RefusesLayers(fs, plan.selected, plan.Roots(), Layers(plan.home, plan.workspace, profiles))
    ensures Admitted(plan, fs)
  {
    ChosenMasks(plan.private);
    OneNameEach(fs, plan.Roots(), plan.private);
    PresentAre(fs, StateRoots(plan.home));
    LayersNormal(plan.home, plan.workspace, profiles);
    var names := Layers(plan.home, plan.workspace, profiles);
    ShownAre(fs, plan.selected, plan.Roots(), names);
    forall n | n in plan.settings ensures Normal(n) && fs.open(n) == File(1) && Layer(plan, n) {
      var i :| 0 <= i < |names| && names[i] == n;
    }
  }

  lemma {:induction false} OneNameEach(fs: Fs, roots: seq<string>, private: seq<string>)
    requires NormalAll(private) && !RefusesFiles(fs, roots, private)
    ensures forall p :: p in private ==> OneName(fs.stat(p)) && !UnderSome(p, roots)
    ensures "/" !in SortedMasks(private) && forall m :: m in Choose(SortedMasks(private)) ==> fs.open(m) == Dir
  {
    forall p | p in private ensures OneName(fs.stat(p)) {
      assert Unlinked(fs.stat(p));
    }
  }
}
