/** The private mount view a confined worker starts in (src/exec/isolation_helper.py, with the
    layer rule of src/exec/isolation_settings.py): which directories are masked, which requests
    are refused, and what the ordered mount list makes writable. */
module MountPlan {
  import opened Wrappers
  import opened PathText

  // ----- the request and the file system it meets -----

  datatype Kind = Missing | File(links: nat) | Dir | Other

  /** `stat` follows links, `open` never does, `resolve` resolves them. */
  datatype Fs = Fs(stat: string -> Kind, open: string -> Kind, resolve: string -> string)

  /** A regular file has nothing beneath it. */
  ghost predicate Tree(fs: Fs) {
    forall p, q :: fs.open(p).File? && Within(q, p) && q != p ==> fs.open(q) == Missing
  }

  datatype Request = Request(remote: bool, home: string, workspace: string, private: seq<string>, preflight: bool,
                             create: bool)

  function Target(req: Request, home: string, value: string): Result<string> {
    if req.remote && "~/" <= value then Path(home + "/" + value[2..]) else Path(value)
  }

  // ----- the mount list -----

  datatype Role = Root | Device | Proc | Tmp | Mask | Workspace | State | Hooks | Settings
  datatype Mount = Mount(dest: string, role: Role, writable: bool)

  const BASE: seq<Mount> :=
    [Mount("/", Root, false), Mount("/dev", Device, true), Mount("/proc", Proc, true), Mount("/tmp", Tmp, true)]

  function StateRoots(home: string): seq<string> {
    [home + "/.codex", home + "/.claude", home + "/.claude.json"]
  }

  function MaskMounts(selected: seq<string>): seq<Mount> {
    seq(|selected|, i requires 0 <= i < |selected| => Mount(selected[i], Mask, true))
  }

  function StateMounts(states: seq<string>, writable: bool): seq<Mount> {
    seq(|states|, i requires 0 <= i < |states| => Mount(states[i], State, writable))
  }

  function SettingsMounts(home: string, names: seq<string>): seq<Mount> {
    seq(|names|, i requires 0 <= i < |names| => Mount(names[i], Settings, names[i] == home + "/.claude.json"))
  }

  datatype Plan = Plan(private: seq<string>, home: string, workspace: string, selected: seq<string>,
                       states: seq<string>, hooks: bool, settings: seq<string>, preflight: bool)
  {
    /** Everything mounted after the masks. */
    function After(): seq<Mount> {
      [Mount(workspace, Workspace, !preflight)] + StateMounts(states, !preflight)
      + (if hooks then [Mount(home + "/.claude/hooks", Hooks, false)] else [])
      + SettingsMounts(home, settings)
    }

    function Mounts(): seq<Mount> {
      BASE + MaskMounts(selected) + After()
    }

    /** The mounts once every mask has been remounted read-only. */
    function Table(): seq<Mount> {
      RemountAll(Mounts(), selected)
    }

    function Roots(): seq<string> {
      [workspace] + StateRoots(home)
    }
  }

  /** `--remount-ro dest`: the topmost mount at exactly `dest` turns read-only, not what lies on it. */
  function Remount(ms: seq<Mount>, dest: string): seq<Mount> {
    if ms == [] then [] else
      var n := |ms| - 1;
      if ms[n].dest == dest then ms[..n] + [ms[n].(writable := false)] else Remount(ms[..n], dest) + [ms[n]]
  }

  function RemountAll(ms: seq<Mount>, dests: seq<string>): seq<Mount> {
    if dests == [] then ms else Remount(RemountAll(ms, dests[..|dests| - 1]), dests[|dests| - 1])
  }

  /** Later covers earlier: mount `i` is the one a path is seen through. */
  ghost predicate LastCovers(ms: seq<Mount>, p: string, i: int) {
    && 0 <= i < |ms| && Within(p, ms[i].dest)
    && forall j :: i < j < |ms| ==> !Within(p, ms[j].dest)
  }

  // ----- what an accepted plan satisfies -----

  predicate NonNested(selected: seq<string>) {
    forall i, j :: 0 <= i < |selected| && 0 <= j < |selected| && i != j ==> !Within(selected[i], selected[j])
  }

  predicate UnderSome(p: string, roots: seq<string>) {
    exists i :: 0 <= i < |roots| && Within(p, roots[i])
  }

  predicate NormalAll(ps: seq<string>) {
    forall i :: 0 <= i < |ps| ==> Normal(ps[i])
  }

  /** Masks chosen for the private files: pairwise apart, each the directory of a private file,
      together holding the directory of every one, none of them the root. */
  predicate MasksFor(private: seq<string>, selected: seq<string>)
    requires NormalAll(private)
  {
    && NormalAll(selected) && NonNested(selected) && "/" !in selected
    && (forall p :: p in private ==> UnderSome(Dirname(p), selected))
    && (forall m :: m in selected ==> exists p :: p in private && Dirname(p) == m)
  }

  /** The layer rule: a settings file already hidden by a mask is not restored, unless it lies in
      the workspace or in backend state. */
  predicate Layer(plan: Plan, name: string) {
    !UnderSome(name, plan.selected) || UnderSome(name, plan.Roots())
  }

  /** No directory, and no file with a second name, which could lie outside every mask. */
  predicate OneName(k: Kind) {
    k == Missing || k == File(1) || k == Other
  }

  ghost predicate Admitted(plan: Plan, fs: Fs) {
    && NormalAll(plan.private) && Normal(plan.home) && plan.home != "/" && Normal(plan.workspace)
    && MasksFor(plan.private, plan.selected)
    && (forall p :: p in plan.private ==> !UnderSome(p, plan.Roots()))
    && (forall p :: p in plan.private ==> OneName(fs.stat(p)))
    && (forall m :: m in plan.selected ==> fs.open(m) == Dir)
    && (forall s :: s in plan.states ==> s in StateRoots(plan.home))
    && (forall n :: n in plan.settings ==> Normal(n) && fs.open(n) == File(1) && Layer(plan, n))
  }

  // ----- remounting -----

  predicate SameMounts(ms: seq<Mount>, ms': seq<Mount>) {
    |ms| == |ms'| && forall i :: 0 <= i < |ms| ==>
      ms'[i].dest == ms[i].dest && ms'[i].role == ms[i].role && (ms'[i].writable ==> ms[i].writable)
  }

  lemma {:induction false} RemountSame(ms: seq<Mount>, dest: string)
    ensures SameMounts(ms, Remount(ms, dest))
  {
    if ms != [] {
      RemountSame(ms[..|ms| - 1], dest);
    }
  }

  lemma {:induction false} RemountHits(ms: seq<Mount>, dest: string, i: nat)
    requires i < |ms| && ms[i].dest == dest && forall j :: i < j < |ms| ==> ms[j].dest != dest
    ensures i < |Remount(ms, dest)| && !Remount(ms, dest)[i].writable
  {
    var n := |ms| - 1;
    RemountSame(ms, dest);
    if i < n {
      RemountHits(ms[..n], dest, i);
    }
  }

  lemma {:induction false} RemountAllSame(ms: seq<Mount>, dests: seq<string>)
    ensures SameMounts(ms, RemountAll(ms, dests))
  {
    if dests != [] {
      var n := |dests| - 1;
      RemountAllSame(ms, dests[..n]);
      RemountSame(RemountAll(ms, dests[..n]), dests[n]);
    }
  }

  lemma {:induction false} RemountAllHits(ms: seq<Mount>, dests: seq<string>, i: nat)
    requires i < |ms| && ms[i].dest in dests && forall j :: i < j < |ms| ==> ms[j].dest != ms[i].dest
    ensures i < |RemountAll(ms, dests)| && !RemountAll(ms, dests)[i].writable
  {
    var n := |dests| - 1;
    var before := RemountAll(ms, dests[..n]);
    RemountAllSame(ms, dests[..n]);
    RemountSame(before, dests[n]);
    if dests[n] == ms[i].dest {
      RemountHits(before, dests[n], i);
    } else {
      assert dests == dests[..n] + [dests[n]];
      RemountAllHits(ms, dests[..n], i);
    }
  }

  lemma CoversSame(ms: seq<Mount>, ms': seq<Mount>, p: string, i: int)
    requires SameMounts(ms, ms')
    ensures LastCovers(ms, p, i) <==> LastCovers(ms', p, i)
  {
  }

  // ----- the meaning of the mount list -----

  lemma HomePathsNormal(home: string)
    requires Normal(home) && home != "/"
    ensures NormalAll(StateRoots(home)) && Normal(home + "/.claude/hooks")
    ensures Within(home + "/.claude/hooks", home + "/.claude")
  {
    ConcatNormal(home, "/.codex");
    ConcatNormal(home, "/.claude");
    ConcatNormal(home, "/.claude.json");
    ConcatNormal(home, "/.claude/hooks");
    WithinPrefix(home + "/.claude/hooks", home + "/.claude");
    assert home + "/.claude" + "/" <= home + "/.claude/hooks" by {
      assert "/.claude" + "/" <= "/.claude/hooks";
      assert home + "/.claude" + "/" == home + ("/.claude" + "/");
    }
  }

  lemma ConcatNormal(a: string, b: string)
    requires Normal(a) && a != "/" && Normal(b) && b != "/"
    ensures Normal(a + b)
  {
    var p := a + b;
    forall i | 0 <= i < |p| - 1 ensures !(p[i] == '/' && p[i + 1] == '/') {
      if i < |a| - 1 {
        assert p[i] == a[i] && p[i + 1] == a[i + 1];
      } else if i >= |a| {
        assert p[i] == b[i - |a|] && p[i + 1] == b[i + 1 - |a|];
      }
    }
  }

  lemma RootsNormal(plan: Plan)
    requires Normal(plan.home) && plan.home != "/" && Normal(plan.workspace)
    ensures NormalAll(plan.Roots())
  {
    HomePathsNormal(plan.home);
  }

  /** Nothing mounted after the masks covers a private file. */
  lemma AfterMasksMiss(plan: Plan, fs: Fs, p: string, m: Mount)
    requires Admitted(plan, fs) && Tree(fs) && p in plan.private && m in plan.After()
    ensures Normal(m.dest) && !Within(p, m.dest)
  {
    RootsNormal(plan);
    HomePathsNormal(plan.home);
    var roots := plan.Roots();
    assert !UnderSome(p, roots);
    assert roots[0] == plan.workspace && roots[2] == plan.home + "/.claude";
    if m.role == Settings {
      SettingsMiss(plan, fs, p, m.dest);
    } else if m.role == Hooks {
      if Within(p, m.dest) {
        WithinTrans(p, m.dest, roots[2]);
      }
    } else if m.role == State {
      StateIsRoot(plan, m.dest);
    }
  }

  lemma StateIsRoot(plan: Plan, dest: string)
    requires dest in StateRoots(plan.home)
    ensures dest in plan.Roots()
  {
    var k :| 0 <= k < 3 && StateRoots(plan.home)[k] == dest;
    assert plan.Roots()[k + 1] == dest;
  }

  lemma SettingsMiss(plan: Plan, fs: Fs, p: string, name: string)
    requires Admitted(plan, fs) && Tree(fs) && p in plan.private && name in plan.settings
    ensures !Within(p, name)
  {
    RootsNormal(plan);
    DirnameOf(p);
    var i :| 0 <= i < |plan.selected| && Within(Dirname(p), plan.selected[i]);
    var mask := plan.selected[i];
    WithinTrans(p, Dirname(p), mask);
    assert mask in plan.selected;
    if Within(p, name) {
      WithinComparable(p, name, mask);
      if UnderSome(name, plan.Roots()) {
        var k :| 0 <= k < |plan.Roots()| && Within(name, plan.Roots()[k]);
        WithinTrans(p, name, plan.Roots()[k]);
      }
    }
  }

  /** The last mount over any private file is a mask. */
  lemma PrivateIsMasked(plan: Plan, fs: Fs, p: string, i: int)
    requires Admitted(plan, fs) && Tree(fs) && p in plan.private && LastCovers(plan.Table(), p, i)
    ensures plan.Table()[i].role == Mask
  {
    var ms := plan.Mounts();
    RemountAllSame(ms, plan.selected);
    CoversSame(ms, plan.Table(), p, i);
    var k := MaskOver(plan, fs, p);
    var n := |BASE| + |plan.selected|;
    if i >= n {
      assert ms[i] == plan.After()[i - n];
      AfterMasksMiss(plan, fs, p, ms[i]);
    }
  }

  lemma MaskOver(plan: Plan, fs: Fs, p: string) returns (k: nat)
    requires Admitted(plan, fs) && Tree(fs) && p in plan.private
    ensures k < |plan.selected| && plan.Mounts()[|BASE| + k].dest == plan.selected[k] && Within(p, plan.selected[k])
  {
    DirnameOf(p);
    k :| 0 <= k < |plan.selected| && Within(Dirname(p), plan.selected[k]);
    WithinTrans(p, Dirname(p), plan.selected[k]);
    assert plan.Mounts()[|BASE| + k].dest == plan.selected[k];
  }

  /** No mask is remounted away: the last mount at a mask's own path is the mask. */
  lemma MaskStaysOnTop(plan: Plan, fs: Fs, k: int)
    requires Admitted(plan, fs) && Tree(fs) && 0 <= k < |plan.selected|
    ensures forall j :: |BASE| + k < j < |plan.Mounts()| ==> plan.Mounts()[j].dest != plan.selected[k]
  {
    var ms := plan.Mounts();
    var n := |BASE| + |plan.selected|;
    forall j | |BASE| + k < j < |ms| ensures ms[j].dest != plan.selected[k] {
      if j < n {
        assert ms[j].dest == plan.selected[j - |BASE|];
        assert plan.selected[k] == plan.selected[j - |BASE|] ==> Within(plan.selected[k], plan.selected[j - |BASE|]);
      } else {
        assert ms[j] == plan.After()[j - n];
        AfterMasksElsewhere(plan, fs, plan.selected[k], ms[j]);
      }
    }
  }

  lemma AfterMasksElsewhere(plan: Plan, fs: Fs, mask: string, m: Mount)
    requires Admitted(plan, fs) && Tree(fs) && mask in plan.selected && m in plan.After()
    ensures m.dest != mask
  {
    var p :| p in plan.private && Dirname(p) == mask;
    DirnameOf(p);
    AfterMasksMiss(plan, fs, p, m);
  }

  predicate MayWrite(plan: Plan, q: string) {
    UnderSome(q, plan.Roots()) || Within(q, "/tmp") || Within(q, "/dev")
  }

  /** Whatever is seen through a writable mount, the fresh /proc apart, lies under the workspace,
      a backend-state root, /tmp or /dev. */
  lemma WritableOnlyThere(plan: Plan, fs: Fs, q: string, i: int)
    requires Admitted(plan, fs) && Tree(fs) && LastCovers(plan.Table(), q, i)
    requires plan.Table()[i].writable && plan.Table()[i].role != Proc
    ensures MayWrite(plan, q)
  {
    var ms := plan.Mounts();
    RemountAllSame(ms, plan.selected);
    var n := |BASE| + |plan.selected|;
    var roots := plan.Roots();
    if i < |BASE| {
      assert ms[i] == BASE[i];
    } else if i < n {
      var k := i - |BASE|;
      assert ms[i] == Mount(plan.selected[k], Mask, true);
      MaskStaysOnTop(plan, fs, k);
      RemountAllHits(ms, plan.selected, i);
    } else {
      var m := plan.After()[i - n];
      assert ms[i] == m && m in plan.After();
      assert roots[0] == plan.workspace && roots[3] == plan.home + "/.claude.json";
      if m.role == State {
        StateIsRoot(plan, m.dest);
      }
    }
  }

  // ----- what is read-only on top, and what stays writable -----

  lemma {:induction false} RemountMisses(ms: seq<Mount>, dest: string, i: nat)
    requires i < |ms| && ms[i].dest != dest
    ensures |Remount(ms, dest)| == |ms| && Remount(ms, dest)[i] == ms[i]
  {
    var n := |ms| - 1;
    RemountSame(ms, dest);
    if ms[n].dest != dest && i < n {
      RemountMisses(ms[..n], dest, i);
    }
  }

  /** A remount touches nothing but the masks. */
  lemma {:induction false} RemountAllMisses(ms: seq<Mount>, dests: seq<string>, i: nat)
    requires i < |ms| && ms[i].dest !in dests
    ensures |RemountAll(ms, dests)| == |ms| && RemountAll(ms, dests)[i] == ms[i]
  {
    RemountAllSame(ms, dests);
    if dests != [] {
      var n := |dests| - 1;
      assert dests == dests[..n] + [dests[n]];
      RemountAllMisses(ms, dests[..n], i);
      RemountMisses(RemountAll(ms, dests[..n]), dests[n], i);
    }
  }

  /** What comes after the masks is in the table as it was mounted. */
  lemma AfterIsKept(plan: Plan, fs: Fs, k: nat)
    requires Admitted(plan, fs) && Tree(fs) && k < |plan.After()|
    ensures var at := |BASE| + |plan.selected| + k; at < |plan.Table()| && plan.Table()[at] == plan.After()[k]
  {
    var at := |BASE| + |plan.selected| + k;
    assert plan.Mounts()[at] == plan.After()[k];
    if plan.After()[k].dest in plan.selected {
      AfterMasksElsewhere(plan, fs, plan.After()[k].dest, plan.After()[k]);
    }
    RemountAllMisses(plan.Mounts(), plan.selected, at);
  }

  /** If a path lies under mount `k` of those after the masks, it is seen through that one or a later one. */
  lemma SeenAfter(plan: Plan, fs: Fs, q: string, i: int, k: nat) returns (j: nat)
    requires Admitted(plan, fs) && Tree(fs) && LastCovers(plan.Table(), q, i)
    requires k < |plan.After()| && Within(q, plan.After()[k].dest)
    ensures k <= j < |plan.After()| && i == |BASE| + |plan.selected| + j && plan.Table()[i] == plan.After()[j]
  {
    AfterIsKept(plan, fs, k);
    RemountAllSame(plan.Mounts(), plan.selected);
    j := i - |BASE| - |plan.selected|;
    AfterIsKept(plan, fs, j);
  }

  function HooksOf(plan: Plan): string {
    plan.home + "/.claude/hooks"
  }

  function ClientOf(plan: Plan): string {
    plan.home + "/.claude.json"
  }

  lemma ClientIsApart(home: string, q: string)
    requires Normal(home) && home != "/"
    ensures !(Within(q, home + "/.claude/hooks") && Within(q, home + "/.claude.json"))
  {
    HomePathsNormal(home);
    var hooks, client, n := home + "/.claude/hooks", home + "/.claude.json", |home| + |"/.claude"|;
    assert hooks[n] == '/' && client[n] == '.';
    assert NormalAll(StateRoots(home)) && StateRoots(home)[2] == client;
    if Within(q, hooks) && Within(q, client) {
      WithinPrefix(q, hooks);
      WithinPrefix(q, client);
    }
  }

  /** Whatever lies at or under the hooks directory is seen through a read-only mount. */
  lemma HooksAreReadOnly(plan: Plan, fs: Fs, q: string, i: int)
    requires Admitted(plan, fs) && Tree(fs) && plan.hooks
    requires Within(q, HooksOf(plan)) && LastCovers(plan.Table(), q, i)
    ensures !plan.Table()[i].writable
  {
    var k := 1 + |plan.states|;
    assert plan.After()[k].dest == HooksOf(plan);
    var j := SeenAfter(plan, fs, q, i, k);
    if j > k {
      assert plan.After()[j].dest == plan.settings[j - k - 1];
      ClientIsApart(plan.home, q);
    }
  }

  /** Every restored settings file is seen through its own copy: a read-only one, but for the client state file,
      whose copy stays writable. */
  lemma SettingsAreReadOnly(plan: Plan, fs: Fs, name: string, i: int)
    requires Admitted(plan, fs) && Tree(fs) && name in plan.settings && LastCovers(plan.Table(), name, i)
    ensures plan.Table()[i].dest == name && plan.Table()[i].role == Settings
    ensures plan.Table()[i].writable <==> name == ClientOf(plan)
  {
    var t :| 0 <= t < |plan.settings| && plan.settings[t] == name;
    var before := 1 + |plan.states| + (if plan.hooks then 1 else 0);
    assert plan.After()[before + t].dest == plan.settings[t];
    var self: string := name;
    WithinItself(self);
    var j := SeenAfter(plan, fs, name, i, before + t);
    var over := plan.settings[j - before];
    assert plan.After()[j].dest == over && over in plan.settings;
    assert fs.open(over) == File(1) && fs.open(name) == File(1);
  }

  lemma WithinItself(p: string)
    ensures Within(p, p)
  {
  }

  /** Whatever lies in the workspace or a backend state root that is present, outside the hooks and the restored
      settings, is seen through a writable mount if and only if the launch is no preflight. */
  lemma RestIsWritable(plan: Plan, fs: Fs, q: string, i: int)
    requires Admitted(plan, fs) && Tree(fs) && LastCovers(plan.Table(), q, i)
    requires Within(q, plan.workspace) || UnderSome(q, plan.states)
    requires !(plan.hooks && Within(q, HooksOf(plan))) && !UnderSome(q, plan.settings)
    ensures plan.Table()[i].writable <==> !plan.preflight
  {
    var k := if Within(q, plan.workspace) then 0 else
      var t :| 0 <= t < |plan.states| && Within(q, plan.states[t]);
      1 + t;
    assert Within(q, plan.After()[k].dest);
    var j := SeenAfter(plan, fs, q, i, k);
    AfterAt(plan, j);
  }

  lemma AfterAt(plan: Plan, j: nat)
    requires j < |plan.After()|
    ensures var m := plan.After()[j];
            || (j <= |plan.states| && m.writable == !plan.preflight)
            || (plan.hooks && m.dest == HooksOf(plan))
            || m.dest in plan.settings
  {
    var before := 1 + |plan.states| + (if plan.hooks then 1 else 0);
    if before <= j {
      assert plan.After()[j].dest == plan.settings[j - before];
    }
  }

  /** So the workspace and each backend state directory are writable, but for a preflight, unless the workspace
      lies in the hooks. */
  lemma DirectoriesAreWritable(plan: Plan, fs: Fs, d: string, i: int)
    requires Admitted(plan, fs) && Tree(fs) && (d == plan.workspace || d in plan.states)
    requires fs.open(d) == Dir && LastCovers(plan.Table(), d, i)
    ensures plan.hooks && Within(d, HooksOf(plan)) ==> d == plan.workspace && !plan.Table()[i].writable
    ensures !(plan.hooks && Within(d, HooksOf(plan))) ==> (plan.Table()[i].writable <==> !plan.preflight)
  {
    WithinItself(d);
    if d in plan.states {
      var t :| 0 <= t < |plan.states| && plan.states[t] == d;
    }
    if UnderSome(d, plan.settings) {
      var t :| 0 <= t < |plan.settings| && Within(d, plan.settings[t]);
    }
    if plan.hooks && Within(d, HooksOf(plan)) {
      HooksAreReadOnly(plan, fs, d, i);
      if d in plan.states {
        StateAboveHooks(plan.home, d);
      }
    } else {
      RestIsWritable(plan, fs, d, i);
    }
  }

  lemma StateAboveHooks(home: string, d: string)
    requires Normal(home) && home != "/" && d in StateRoots(home)
    ensures !Within(d, home + "/.claude/hooks")
  {
    HomePathsNormal(home);
    if Within(d, home + "/.claude/hooks") {
      WithinPrefix(d, home + "/.claude/hooks");
    }
  }

  /** Every path is seen through some mount. */
  lemma {:induction false} SomethingCovers(ms: seq<Mount>, p: string) returns (i: int)
    requires ms != [] && Within(p, ms[0].dest)
    ensures LastCovers(ms, p, i)
  {
    i := |ms| - 1;
    while !Within(p, ms[i].dest)
      invariant 0 <= i < |ms|
      invariant forall j :: i < j < |ms| ==> !Within(p, ms[j].dest)
      decreases i
    {
      i := i - 1;
    }
  }

  /** Mount plan meaning, in one place: for an accepted request the masks are pairwise apart and cover every
      private file's directory, every private file is seen through a read-only mask and has no second name, and a
      writable view (the fresh /proc apart) lies under the workspace, backend state, /tmp or /dev. The hooks and
      what lies in them are read-only; so is every restored settings file but the client state; the rest of the
      workspace and of the backend state is writable if and only if the launch is no preflight. */
  lemma PlanMeaning(plan: Plan, fs: Fs)
    requires Admitted(plan, fs) && Tree(fs)
    ensures NonNested(plan.selected)
    ensures forall p :: p in plan.private ==> UnderSome(Dirname(p), plan.selected)
    ensures forall p :: p in plan.private ==>
              && OneName(fs.stat(p))
              && exists i :: LastCovers(plan.Table(), p, i) && plan.Table()[i].role == Mask && !plan.Table()[i].writable
    ensures forall q, i :: LastCovers(plan.Table(), q, i) && plan.Table()[i].writable ==>
              plan.Table()[i].role == Proc || MayWrite(plan, q)
    ensures forall q, i :: LastCovers(plan.Table(), q, i) && plan.hooks && Within(q, plan.home + "/.claude/hooks") ==>
              !plan.Table()[i].writable
    ensures forall q, i :: LastCovers(plan.Table(), q, i) && q in plan.settings ==>
              (plan.Table()[i].writable <==> q == plan.home + "/.claude.json")
    ensures forall q, i :: LastCovers(plan.Table(), q, i)
                           && (Within(q, plan.workspace) || UnderSome(q, plan.states))
                           && !(plan.hooks && Within(q, plan.home + "/.claude/hooks"))
                           && !UnderSome(q, plan.settings) ==>
              (plan.Table()[i].writable <==> !plan.preflight)
  {
    forall p | p in plan.private
      ensures exists i :: LastCovers(plan.Table(), p, i) && plan.Table()[i].role == Mask && !plan.Table()[i].writable
    {
      PrivateIsHidden(plan, fs, p);
    }
    forall q, i | LastCovers(plan.Table(), q, i) && plan.Table()[i].writable && plan.Table()[i].role != Proc
      ensures MayWrite(plan, q)
    {
      WritableOnlyThere(plan, fs, q, i);
    }
    forall q, i | LastCovers(plan.Table(), q, i) && plan.hooks && Within(q, plan.home + "/.claude/hooks")
      ensures !plan.Table()[i].writable
    {
      HooksAreReadOnly(plan, fs, q, i);
    }
    forall q, i | LastCovers(plan.Table(), q, i) && q in plan.settings
      ensures plan.Table()[i].writable <==> q == plan.home + "/.claude.json"
    {
      SettingsAreReadOnly(plan, fs, q, i);
    }
    forall q, i | LastCovers(plan.Table(), q, i) && (Within(q, plan.workspace) || UnderSome(q, plan.states))
                  && !(plan.hooks && Within(q, plan.home + "/.claude/hooks")) && !UnderSome(q, plan.settings)
      ensures plan.Table()[i].writable <==> !plan.preflight
    {
      RestIsWritable(plan, fs, q, i);
    }
  }

  lemma PrivateIsHidden(plan: Plan, fs: Fs, p: string)
    requires Admitted(plan, fs) && Tree(fs) && p in plan.private
    ensures exists i :: LastCovers(plan.Table(), p, i) && plan.Table()[i].role == Mask && !plan.Table()[i].writable
  {
    RemountAllSame(plan.Mounts(), plan.selected);
    RootHoldsAll(p);
    assert plan.Table()[0].dest == "/";
    var i := SomethingCovers(plan.Table(), p);
    PrivateIsMasked(plan, fs, p, i);
    if plan.Table()[i].writable {
      WritableMask(plan, fs, i);
    }
  }

  lemma WritableMask(plan: Plan, fs: Fs, i: int)
    requires Admitted(plan, fs) && Tree(fs) && 0 <= i < |plan.Table()| && plan.Table()[i].role == Mask
    ensures !plan.Table()[i].writable
  {
    var ms := plan.Mounts();
    RemountAllSame(ms, plan.selected);
    var n := |BASE| + |plan.selected|;
    if |BASE| <= i < n {
      MaskStaysOnTop(plan, fs, i - |BASE|);
      RemountAllHits(ms, plan.selected, i);
    } else if i >= n {
      assert ms[i] == plan.After()[i - n];
    }
  }
}
