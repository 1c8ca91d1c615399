/** Configuration edits: compare-and-replace under a lock, the edit journal, crashes and startup
    recovery, as interleaved steps (src/config/editor.rs:120-203, src/threads/configuration.rs).

    The store's half of the journal is taken by its contract: an intent is recorded only while
    none is pending, and completing one settles it. */
module EditJournal {
  import opened TextTrim
  import opened Wrappers

  type Source = string
  type Print = string
  /** `fingerprint`, as a function value. */
  type Fingerprint = Source -> Print

  ghost predicate Injective(fp: Fingerprint) {
    forall a, b :: fp(a) == fp(b) ==> a == b
  }

  datatype Status = Pending | Completed(applied: bool)
  datatype Intent = Intent(before: Print, after: Print, status: Status)

  /** `Prepared`: not yet locked. `Done`: the file is replaced and the lock given back. */
  datatype Phase = Prepared | Locked | Staged | Checked | Renamed | Synced | Done
  datatype Writer = Writer(before: Print, source: Source, journaled: bool, phase: Phase)
  datatype Recovery = Loaded(seen: Print) | Verified(applied: bool) | Settled(applied: bool)

  /** `file` is what a reader sees; `durable` is what a power loss may bring back. */
  datatype World = World(file: Source, durable: Source, lock: Option<nat>, journal: seq<Intent>,
                         writers: map<nat, Writer>, recovery: Option<Recovery>)

  datatype Event =
    | Begin(w: nat, before: Print, source: Source, journaled: bool)
    | Lock(w: nat) | Stage(w: nat) | Check(w: nat) | Rename(w: nat) | Sync(w: nat) | Unlock(w: nat)
    | Complete(w: nat)
    | Fail(w: nat)                               // an error return; a pending intent stays pending
    | Outside(content: Source, kept: bool)       // some other program writes the file
    | Kill                                       // every process dies
    | PowerLoss(kept: bool)                      // ... and what was not synced may be lost
    | Load | Verify | Settle | Finish            // startup recovery

  predicate PendingLast(journal: seq<Intent>) {
    journal != [] && journal[|journal| - 1].status == Pending
  }

  function Last(journal: seq<Intent>): Intent
    requires journal != []
  {
    journal[|journal| - 1]
  }

  function Close(journal: seq<Intent>, applied: bool): seq<Intent>
    requires journal != []
  {
    journal[|journal| - 1 := Last(journal).(status := Completed(applied))]
  }

  predicate Holding(p: Phase) {
    p == Locked || p == Staged || p == Checked || p == Renamed || p == Synced
  }

  /** `verify` (src/threads/configuration.rs:34-45), for the path the intent names: adopt, abandon or refuse. */
  function Decide(intent: Intent, loaded: Print, disk: Print): Result<bool> {
    if disk != loaded then Err
    else if loaded == intent.after then Ok(true)
    else if loaded == intent.before then Ok(false)
    else Err
  }

  function At(w: World, k: nat, p: Phase): World
    requires k in w.writers
  {
    w.(writers := w.writers[k := w.writers[k].(phase := p)])
  }

  function Gone(w: World, k: nat): World {
    w.(writers := w.writers - {k}, lock := if w.lock == Some(k) then None else w.lock)
  }

  ghost predicate In(w: World, k: nat, p: Phase) {
    k in w.writers && w.writers[k].phase == p
  }

  ghost predicate Next(fp: Fingerprint, w: World, e: Event, w': World) {
    match e
    case Begin(k, before, source, journaled) =>
      && k !in w.writers && (journaled ==> !PendingLast(w.journal) && w.recovery == None)
      && w' == w.(writers := w.writers[k := Writer(before, source, journaled, Prepared)],
                  journal := if journaled then w.journal + [Intent(before, fp(source), Pending)] else w.journal)
    case Lock(k) => In(w, k, Prepared) && w.lock == None && w' == At(w, k, Locked).(lock := Some(k))
    case Stage(k) => In(w, k, Locked) && w' == At(w, k, Staged)
    case Check(k) =>
      In(w, k, Staged) && w' == if fp(w.file) == w.writers[k].before then At(w, k, Checked) else Gone(w, k)
    case Rename(k) => In(w, k, Checked) && w' == At(w, k, Renamed).(file := w.writers[k].source)
    case Sync(k) => In(w, k, Renamed) && w' == At(w, k, Synced).(durable := w.file)
    case Unlock(k) => In(w, k, Synced) && w' == At(w, k, Done).(lock := None)
    case Complete(k) =>
      && In(w, k, Done)
      && w' == (if w.writers[k].journaled && PendingLast(w.journal) then Gone(w, k).(journal := Close(w.journal, true))
                else Gone(w, k))
    case Fail(k) => k in w.writers && w' == Gone(w, k)
    case Outside(content, kept) =>
      (forall k :: k in w.writers ==> w.writers[k].phase != Checked)
      && w' == w.(file := content, durable := if kept then content else w.durable)
    case Kill => w' == w.(writers := map[], lock := None, recovery := None)
    case PowerLoss(kept) =>
      var left := if kept then w.file else w.durable;
      w' == w.(writers := map[], lock := None, recovery := None, file := left, durable := left)
    case Load =>
      && w.recovery == None && (forall k :: k in w.writers ==> !w.writers[k].journaled)
      && w' == w.(recovery := Some(Loaded(fp(w.file))))
    case Verify =>
      && w.recovery.Some? && w.recovery.value.Loaded?
      && w' == w.(recovery :=
           if !PendingLast(w.journal) then None else
             var d := Decide(Last(w.journal), w.recovery.value.seen, fp(w.file));
             if d.Ok? then Some(Verified(d.value)) else None)
    case Settle =>
      && w.recovery.Some? && w.recovery.value.Verified?
      && w' == w.(recovery := Some(Settled(w.recovery.value.applied)), durable := w.file)
    case Finish =>
      && w.recovery.Some? && w.recovery.value.Settled? && PendingLast(w.journal)
      && w' == w.(recovery := None, journal := Close(w.journal, w.recovery.value.applied))
  }

  ghost predicate Run(fp: Fingerprint, ws: seq<World>, es: seq<Event>) {
    |ws| == |es| + 1 && forall i :: 0 <= i < |es| ==> Next(fp, ws[i], es[i], ws[i + 1])
  }

  predicate Quiet(w: World) {
    w.writers == map[] && w.lock == None && w.recovery == None
  }

  // ----- each rename replaces exactly what its `before` names -----

  /** Only the lock holder is past the lock, and a checked writer has seen the file as it is. */
  ghost predicate Guarded(fp: Fingerprint, w: World) {
    forall k :: k in w.writers ==>
      && (Holding(w.writers[k].phase) ==> w.lock == Some(k))
      && (w.writers[k].phase == Checked ==> fp(w.file) == w.writers[k].before)
  }

  lemma StepKeepsGuarded(fp: Fingerprint, w: World, e: Event, w': World)
    requires Guarded(fp, w) && Next(fp, w, e, w')
    ensures Guarded(fp, w')
  {
  }

  lemma {:induction false} RunKeepsGuarded(fp: Fingerprint, ws: seq<World>, es: seq<Event>)
    requires Run(fp, ws, es) && Quiet(ws[0])
    ensures Guarded(fp, ws[|es|])
  {
    var n := |es| - 1;
    if n >= 0 {
      RunKeepsGuarded(fp, ws[..n + 1], es[..n]);
      StepKeepsGuarded(fp, ws[n], es[n], ws[n + 1]);
    }
  }

  /** Compare-and-replace: however writers interleave, a rename puts its own source in place of
      exactly the content its `before` names. */
  lemma RenameIsCompareAndReplace(fp: Fingerprint, ws: seq<World>, es: seq<Event>, i: nat, prepared: Source)
    requires Run(fp, ws, es) && Quiet(ws[0]) && i < |es| && es[i].Rename?
    requires es[i].w in ws[i].writers
    requires Injective(fp) && fp(prepared) == ws[i].writers[es[i].w].before
    ensures ws[i].file == prepared && ws[i + 1].file == ws[i].writers[es[i].w].source
  {
    RunKeepsGuarded(fp, ws[..i + 1], es[..i]);
    assert Next(fp, ws[i], es[i], ws[i + 1]);
  }

  // ----- the journal -----

  /** At most one intent is pending, and it is the last. */
  ghost predicate OnePending(w: World) {
    && (forall i :: 0 <= i < |w.journal| - 1 ==> w.journal[i].status != Pending)
    && (w.recovery.Some? && !w.recovery.value.Loaded? ==> PendingLast(w.journal))
    && (w.recovery.Some? ==> forall k :: k in w.writers ==> !w.writers[k].journaled)
  }

  lemma StepKeepsOnePending(fp: Fingerprint, w: World, e: Event, w': World)
    requires OnePending(w) && Next(fp, w, e, w')
    ensures OnePending(w')
  {
  }

  /** The file had fingerprint `p` at an instant when intent `j` had been recorded. */
  ghost predicate WasOnDisk(fp: Fingerprint, ws: seq<World>, j: int, p: Print) {
    exists i :: 0 <= i < |ws| && j < |ws[i].journal| && fp(ws[i].file) == p
  }

  /** A settled intent tells the truth: after it was recorded its new content was on disk, if it is said to
      be applied, and its old content otherwise. */
  ghost predicate True(fp: Fingerprint, ws: seq<World>, j: int, i: Intent) {
    i.status.Completed? ==> WasOnDisk(fp, ws, j, if i.status.applied then i.after else i.before)
  }

  ghost predicate SettledTruly(fp: Fingerprint, ws: seq<World>, w: World) {
    forall j :: 0 <= j < |w.journal| ==> True(fp, ws, j, w.journal[j])
  }

  /** Decisions under way are true as well. */
  ghost predicate DecidedTruly(fp: Fingerprint, ws: seq<World>, w: World) {
    w.recovery.Some? && !w.recovery.value.Loaded? ==> Decided(fp, ws, w, w.recovery.value.applied)
  }

  ghost predicate RenamedTruly(fp: Fingerprint, ws: seq<World>, w: World) {
    forall k :: k in w.writers && w.writers[k].journaled && Renamer(w.writers[k].phase) ==>
      WasOnDisk(fp, ws, |w.journal| - 1, fp(w.writers[k].source))
  }

  ghost predicate Truthful(fp: Fingerprint, ws: seq<World>, w: World) {
    SettledTruly(fp, ws, w) && DecidedTruly(fp, ws, w) && RenamedTruly(fp, ws, w)
  }

  predicate Renamer(p: Phase) {
    p == Renamed || p == Synced || p == Done
  }

  ghost predicate Decided(fp: Fingerprint, ws: seq<World>, w: World, applied: bool) {
    w.journal != [] && WasOnDisk(fp, ws, |w.journal| - 1,
                                 if applied then Last(w.journal).after else Last(w.journal).before)
  }

  /** A live journaled writer is the author of the pending intent. */
  ghost predicate Authored(fp: Fingerprint, w: World) {
    forall k :: k in w.writers && w.writers[k].journaled ==>
      && PendingLast(w.journal) && Last(w.journal).after == fp(w.writers[k].source)
      && Last(w.journal).before == w.writers[k].before
      && forall j :: j in w.writers && w.writers[j].journaled ==> j == k
  }

  lemma StepKeepsAuthored(fp: Fingerprint, w: World, e: Event, w': World)
    requires Authored(fp, w) && OnePending(w) && Next(fp, w, e, w')
    ensures Authored(fp, w')
  {
  }

  lemma StillOnDisk(fp: Fingerprint, ws: seq<World>, w: World, j: int, p: Print)
    requires WasOnDisk(fp, ws, j, p)
    ensures WasOnDisk(fp, ws + [w], j, p)
  {
    var i :| 0 <= i < |ws| && j < |ws[i].journal| && fp(ws[i].file) == p;
    assert (ws + [w])[i] == ws[i];
  }

  lemma NowOnDisk(fp: Fingerprint, ws: seq<World>, w: World)
    ensures WasOnDisk(fp, ws + [w], |w.journal| - 1, fp(w.file))
  {
    assert (ws + [w])[|ws|] == w;
  }

  lemma StepRenamesTruly(fp: Fingerprint, ws: seq<World>, w: World, e: Event, w': World)
    requires RenamedTruly(fp, ws, w) && Authored(fp, w) && Next(fp, w, e, w')
    ensures RenamedTruly(fp, ws + [w'], w')
  {
    NowOnDisk(fp, ws, w');
    forall k | k in w'.writers && w'.writers[k].journaled && Renamer(w'.writers[k].phase)
      ensures WasOnDisk(fp, ws + [w'], |w'.journal| - 1, fp(w'.writers[k].source))
    {
      if k in w.writers && Renamer(w.writers[k].phase) {
        StillOnDisk(fp, ws, w', |w.journal| - 1, fp(w.writers[k].source));
      }
    }
  }

  lemma StepDecidesTruly(fp: Fingerprint, ws: seq<World>, w: World, e: Event, w': World)
    requires ws != [] && ws[|ws| - 1] == w && OnePending(w)
    requires DecidedTruly(fp, ws, w) && Next(fp, w, e, w')
    ensures DecidedTruly(fp, ws + [w'], w')
  {
    if w'.recovery.Some? && !w'.recovery.value.Loaded? {
      assert w'.journal == w.journal;
      assert WasOnDisk(fp, ws, |w.journal| - 1, fp(w.file));
      StillOnDisk(fp, ws, w', |w.journal| - 1,
                  if w'.recovery.value.applied then Last(w.journal).after else Last(w.journal).before);
    }
  }

  lemma StepSettlesTruly(fp: Fingerprint, ws: seq<World>, w: World, e: Event, w': World)
    requires OnePending(w) && Authored(fp, w) && Truthful(fp, ws, w) && Next(fp, w, e, w')
    ensures SettledTruly(fp, ws + [w'], w')
  {
    forall j | 0 <= j < |w'.journal| ensures True(fp, ws + [w'], j, w'.journal[j]) {
      var now := w'.journal[j];
      if now.status.Completed? {
        assert j < |w.journal|;
        assert True(fp, ws, j, w.journal[j]);
        StillOnDisk(fp, ws, w', j, if now.status.applied then now.after else now.before);
      }
    }
  }

  lemma StepKeepsTruthful(fp: Fingerprint, ws: seq<World>, w: World, e: Event, w': World)
    requires ws != [] && ws[|ws| - 1] == w
    requires OnePending(w) && Authored(fp, w) && Truthful(fp, ws, w) && Next(fp, w, e, w')
    ensures Truthful(fp, ws + [w'], w')
  {
    StepRenamesTruly(fp, ws, w, e, w');
    StepDecidesTruly(fp, ws, w, e, w');
    StepSettlesTruly(fp, ws, w, e, w');
  }

  /** Over every run of edits, crashes, power losses, competing writers and recoveries: at most one
      intent is pending, and every settled intent tells what was on disk after it was recorded. */
  lemma {:induction false} JournalIsTruthful(fp: Fingerprint, ws: seq<World>, es: seq<Event>)
    requires Run(fp, ws, es) && Quiet(ws[0]) && ws[0].journal == []
    ensures OnePending(ws[|es|]) && Authored(fp, ws[|es|]) && Truthful(fp, ws, ws[|es|])
  {
    var n := |es| - 1;
    if n >= 0 {
      JournalIsTruthful(fp, ws[..n + 1], es[..n]);
      assert ws == ws[..n + 1] + [ws[n + 1]];
      StepKeepsOnePending(fp, ws[n], es[n], ws[n + 1]);
      StepKeepsAuthored(fp, ws[n], es[n], ws[n + 1]);
      StepKeepsTruthful(fp, ws[..n + 1], ws[n], es[n], ws[n + 1]);
    }
  }

  // ----- recovery decides exactly -----

  /** Step `i` is the load that recovery at `n` goes by. */
  ghost predicate LoadedAt(fp: Fingerprint, ws: seq<World>, es: seq<Event>, i: int, n: int, seen: Print) {
    && 0 <= i < n <= |es| < |ws| && es[i].Load? && seen == fp(ws[i].file)
    && forall m :: i < m < n ==> !es[m].Load?
  }

  /** Step `v` verified what step `i` loaded, and decided by the content both of them found. */
  ghost predicate DecidedAt(fp: Fingerprint, ws: seq<World>, es: seq<Event>, i: int, v: int, n: int, applied: bool) {
    && 0 <= i < v < n <= |es| < |ws| && es[v].Verify? && LoadedAt(fp, ws, es, i, v, fp(ws[v].file))
    && PendingLast(ws[v].journal) && ws[n].journal == ws[v].journal
    && (if applied then fp(ws[v].file) == Last(ws[v].journal).after
        else fp(ws[v].file) == Last(ws[v].journal).before && fp(ws[v].file) != Last(ws[v].journal).after)
  }

  /** Where recovery stands at `n` goes back to those steps. */
  ghost predicate Trail(fp: Fingerprint, ws: seq<World>, es: seq<Event>, n: int)
    requires 0 <= n < |ws|
  {
    match ws[n].recovery
    case None => true
    case Some(Loaded(seen)) => exists i :: LoadedAt(fp, ws, es, i, n, seen)
    case Some(Verified(applied)) => exists i, v :: DecidedAt(fp, ws, es, i, v, n, applied)
    case Some(Settled(applied)) => exists i, v :: DecidedAt(fp, ws, es, i, v, n, applied)
  }

  /** No step but recovery's own changes the journal while recovery is at work. */
  lemma RecoveryHoldsJournal(fp: Fingerprint, w: World, e: Event, w': World)
    requires OnePending(w) && Authored(fp, w) && Next(fp, w, e, w') && w.recovery.Some? && w'.recovery.Some?
    ensures w'.journal == w.journal && !e.Load?
  {
  }

  lemma LoadedAtGrows(fp: Fingerprint, ws: seq<World>, es: seq<Event>, i: int, n: int, seen: Print)
    requires |ws| == |es| + 1 && 0 <= n < |es| && LoadedAt(fp, ws[..n + 1], es[..n], i, n, seen)
    ensures LoadedAt(fp, ws, es, i, n, seen)
    ensures !es[n].Load? ==> LoadedAt(fp, ws, es, i, n + 1, seen)
  {
    assert es[..n][i] == es[i] && ws[..n + 1][i] == ws[i];
    forall m | i < m < n ensures !es[m].Load? {
      assert es[..n][m] == es[m];
    }
  }

  lemma DecidedAtGrows(fp: Fingerprint, ws: seq<World>, es: seq<Event>, i: int, v: int, n: int, applied: bool)
    requires |ws| == |es| + 1 && n == |es| - 1 && n >= 0 && DecidedAt(fp, ws[..n + 1], es[..n], i, v, n, applied)
    ensures DecidedAt(fp, ws, es, i, v, n, applied)
    ensures ws[n + 1].journal == ws[n].journal ==> DecidedAt(fp, ws, es, i, v, n + 1, applied)
  {
    assert es[..n][v] == es[v] && ws[..n + 1][v] == ws[v] && ws[..n + 1][n] == ws[n];
    assert es[..n][i] == es[i] && ws[..n + 1][i] == ws[i];
    forall m | i < m < v ensures !es[m].Load? {
      assert es[..n][m] == es[m];
    }
  }

  lemma StepKeepsTrail(fp: Fingerprint, ws: seq<World>, es: seq<Event>)
    requires Run(fp, ws, es) && es != []
    requires OnePending(ws[|es| - 1]) && Authored(fp, ws[|es| - 1]) && Trail(fp, ws[..|es|], es[..|es| - 1], |es| - 1)
    ensures Trail(fp, ws, es, |es|)
  {
    var n := |es| - 1;
    var w, w' := ws[n], ws[n + 1];
    assert ws[..n + 1][n] == w;
    assert Next(fp, w, es[n], w');
    if w'.recovery.Some? && w.recovery.Some? {
      RecoveryHoldsJournal(fp, w, es[n], w');
      match w.recovery.value {
        case Loaded(seen) =>
          var i :| LoadedAt(fp, ws[..n + 1], es[..n], i, n, seen);
          LoadedAtGrows(fp, ws, es, i, n, seen);
          if es[n].Verify? {
            assert DecidedAt(fp, ws, es, i, n, n + 1, w'.recovery.value.applied);
          }
        case Verified(applied) =>
          var i, v :| DecidedAt(fp, ws[..n + 1], es[..n], i, v, n, applied);
          DecidedAtGrows(fp, ws, es, i, v, n, applied);
        case Settled(applied) =>
          var i, v :| DecidedAt(fp, ws[..n + 1], es[..n], i, v, n, applied);
          DecidedAtGrows(fp, ws, es, i, v, n, applied);
      }
    } else if w'.recovery.Some? {
      assert es[n].Load?;
      assert LoadedAt(fp, ws, es, n, n + 1, fp(w.file));
    }
  }

  lemma {:induction false} RunKeepsTrail(fp: Fingerprint, ws: seq<World>, es: seq<Event>)
    requires Run(fp, ws, es) && Quiet(ws[0]) && ws[0].journal == []
    ensures Trail(fp, ws, es, |es|)
  {
    var n := |es| - 1;
    if n >= 0 {
      RunKeepsTrail(fp, ws[..n + 1], es[..n]);
      JournalIsTruthful(fp, ws[..n + 1], es[..n]);
      StepKeepsTrail(fp, ws, es);
    }
  }

  /** Over every run, outside writers included: verification adopts the intent exactly when the file holds its
      `after` content now and held it when recovery loaded it, abandons it exactly for the `before` content,
      and otherwise refuses, leaving it pending. */
  lemma VerifyIsExact(fp: Fingerprint, ws: seq<World>, es: seq<Event>) returns (i: int)
    requires Run(fp, ws, es) && Quiet(ws[0]) && ws[0].journal == [] && es != [] && es[|es| - 1].Verify?
    requires PendingLast(ws[|es| - 1].journal)
    ensures 0 <= i < |es| - 1 && LoadedAt(fp, ws, es, i, |es| - 1, fp(ws[i].file))
    ensures var n := |es| - 1;
            var intent, stood := Last(ws[n].journal), fp(ws[n].file) == fp(ws[i].file);
            && ws[n + 1].journal == ws[n].journal && ws[n + 1].file == ws[n].file
            && (ws[n + 1].recovery == Some(Verified(true)) <==> stood && fp(ws[n].file) == intent.after)
            && (ws[n + 1].recovery == Some(Verified(false)) <==>
                  stood && fp(ws[n].file) == intent.before && fp(ws[n].file) != intent.after)
            && (ws[n + 1].recovery == None <==> !(stood && OldOrNew(fp, intent, ws[n].file)))
  {
    var n := |es| - 1;
    RunKeepsTrail(fp, ws[..n + 1], es[..n]);
    assert Next(fp, ws[n], es[n], ws[n + 1]);
    var seen := ws[n].recovery.value.seen;
    i :| LoadedAt(fp, ws[..n + 1], es[..n], i, n, seen);
    LoadedAtGrows(fp, ws, es, i, n, seen);
  }

  /** ... and what it finishes is settled by that content: applied exactly when the disk then held `after`. */
  lemma RecoveryIsExact(fp: Fingerprint, ws: seq<World>, es: seq<Event>) returns (i: int, v: int)
    requires Run(fp, ws, es) && Quiet(ws[0]) && ws[0].journal == [] && es != [] && es[|es| - 1].Finish?
    ensures 0 <= i < v < |es| - 1 && es[v].Verify? && LoadedAt(fp, ws, es, i, v, fp(ws[v].file))
    ensures ws[v].journal == ws[|es| - 1].journal && PendingLast(ws[v].journal)
    ensures OldOrNew(fp, Last(ws[v].journal), ws[v].file)
    ensures ws[|es|].journal == Close(ws[v].journal, fp(ws[v].file) == Last(ws[v].journal).after)
  {
    var n := |es| - 1;
    RunKeepsTrail(fp, ws[..n + 1], es[..n]);
    assert Next(fp, ws[n], es[n], ws[n + 1]);
    var applied := ws[n].recovery.value.applied;
    i, v :| DecidedAt(fp, ws[..n + 1], es[..n], i, v, n, applied);
    DecidedAtGrows(fp, ws, es, i, v, n, applied);
  }

  // ----- when the disk keeps the old or the new content -----

  ghost predicate OldOrNew(fp: Fingerprint, intent: Intent, s: Source) {
    fp(s) == intent.before || fp(s) == intent.after
  }

  /** Some writer, with or without the journal, or some other program puts other content on disk. */
  ghost predicate Alien(fp: Fingerprint, intent: Intent, w: World, e: Event) {
    || (e.Rename? && e.w in w.writers && !OldOrNew(fp, intent, w.writers[e.w].source))
    || (e.Outside? && !OldOrNew(fp, intent, e.content))
  }

  /** From step `b`, which records it, up to `n` one intent is pending. */
  ghost predicate PendingSince(fp: Fingerprint, ws: seq<World>, es: seq<Event>, b: int, n: int) {
    && 0 <= b < n <= |es| && |ws| == |es| + 1 && es[b].Begin? && es[b].journaled
    && forall m :: b < m <= n ==> ws[m].journal == ws[b].journal + [Intent(es[b].before, fp(es[b].source), Pending)]
  }

  function IntentOf(fp: Fingerprint, e: Event): Intent
    requires e.Begin?
  {
    Intent(e.before, fp(e.source), Pending)
  }

  ghost predicate BothOldOrNew(fp: Fingerprint, intent: Intent, w: World) {
    OldOrNew(fp, intent, w.file) && OldOrNew(fp, intent, w.durable)
  }

  lemma StepKeepsOldOrNew(fp: Fingerprint, intent: Intent, w: World, e: Event, w': World)
    requires Next(fp, w, e, w') && BothOldOrNew(fp, intent, w)
    ensures BothOldOrNew(fp, intent, w') || Alien(fp, intent, w, e)
    ensures Alien(fp, intent, w, e) ==> !OldOrNew(fp, intent, w'.file)
  {
  }

  /** Told before it acts: a writer without the journal that names the old or the new content and brings
      another, or an outside program that does. */
  ghost predicate Foreign(fp: Fingerprint, intent: Intent, w: World, e: Event) {
    || (e.Rename? && e.w in w.writers && ForeignWriter(fp, intent, w.writers[e.w]))
    || (e.Outside? && !OldOrNew(fp, intent, e.content))
  }

  ghost predicate ForeignWriter(fp: Fingerprint, intent: Intent, writer: Writer) {
    && !writer.journaled && (writer.before == intent.before || writer.before == intent.after)
    && !OldOrNew(fp, intent, writer.source)
  }

  /** The author's own rename is never alien. */
  lemma AuthorIsNotAlien(fp: Fingerprint, ws: seq<World>, es: seq<Event>, b: int, m: int)
    requires Run(fp, ws, es) && Quiet(ws[0]) && ws[0].journal == [] && PendingSince(fp, ws, es, b, m) && m < |es|
    requires es[m].Rename? && es[m].w in ws[m].writers && ws[m].writers[es[m].w].journaled
    ensures !Alien(fp, IntentOf(fp, es[b]), ws[m], es[m])
  {
    JournalIsTruthful(fp, ws[..m + 1], es[..m]);
    assert Authored(fp, ws[m]);
    assert Last(ws[m].journal) == IntentOf(fp, es[b]);
  }

  /** Every other rename by one of Fridica's writers, stale and competing ones included, is refused by its own
      check or leaves the old or the new content. */
  lemma AlienIsForeign(fp: Fingerprint, ws: seq<World>, es: seq<Event>, b: int, m: int)
    requires Run(fp, ws, es) && Quiet(ws[0]) && ws[0].journal == [] && PendingSince(fp, ws, es, b, m) && m < |es|
    requires BothOldOrNew(fp, IntentOf(fp, es[b]), ws[m])
    ensures Alien(fp, IntentOf(fp, es[b]), ws[m], es[m]) <==> Foreign(fp, IntentOf(fp, es[b]), ws[m], es[m])
  {
    assert Next(fp, ws[m], es[m], ws[m + 1]);
    if es[m].Rename? {
      RunKeepsGuarded(fp, ws[..m + 1], es[..m]);
      if ws[m].writers[es[m].w].journaled {
        AuthorIsNotAlien(fp, ws, es, b, m);
      }
    }
  }

  /** All or nothing, exactly, with any number of competing, stale or unjournaled writers, outside programs,
      crashes and power losses: from when an edit is recorded for as long as it is pending, the file and what a
      power loss would leave of it hold its old or its new content, if and only if they do when it is
      recorded, no outside program puts anything else there, and no unjournaled writer whose `before` names
      the old or the new content renames anything else there. */
  lemma {:induction false} OldOrNewExactly(fp: Fingerprint, ws: seq<World>, es: seq<Event>, b: int, n: int)
    requires Run(fp, ws, es) && Quiet(ws[0]) && ws[0].journal == [] && PendingSince(fp, ws, es, b, n)
    ensures (forall m :: b < m <= n ==> BothOldOrNew(fp, IntentOf(fp, es[b]), ws[m]))
            <==> (&& BothOldOrNew(fp, IntentOf(fp, es[b]), ws[b])
                  && forall m :: b < m < n ==> !Foreign(fp, IntentOf(fp, es[b]), ws[m], es[m]))
    decreases n - b
  {
    var intent := IntentOf(fp, es[b]);
    assert Next(fp, ws[b], es[b], ws[b + 1]);
    if n > b + 1 {
      OldOrNewExactly(fp, ws, es, b, n - 1);
      assert Next(fp, ws[n - 1], es[n - 1], ws[n]);
      if BothOldOrNew(fp, intent, ws[n - 1]) {
        AlienIsForeign(fp, ws, es, b, n - 1);
        StepKeepsOldOrNew(fp, intent, ws[n - 1], es[n - 1], ws[n]);
      }
    }
  }

  ghost predicate Untouched(es: seq<Event>, i: int, n: int) {
    forall m :: i <= m < n && 0 <= m < |es| ==> !es[m].Rename? && !es[m].Outside? && !es[m].PowerLoss?
  }

  lemma {:induction false} UntouchedStays(fp: Fingerprint, ws: seq<World>, es: seq<Event>, i: int, n: int)
    requires Run(fp, ws, es) && 0 <= i <= n <= |es| && Untouched(es, i, n)
    ensures ws[n].file == ws[i].file
    decreases n - i
  {
    if i < n {
      UntouchedStays(fp, ws, es, i, n - 1);
      assert Next(fp, ws[n - 1], es[n - 1], ws[n]);
    }
  }

  /** Recovery settles a pending edit that was recorded on its old content, synced, if no outside program and no
      unjournaled writer that names the old or the new content put another there since, and the file is left
      alone while recovery looks; as applied exactly when the disk holds `after`. Any writers may hold and await
      the lock, and the process may crash, at every step. */
  lemma RecoveryNeverRefuses(fp: Fingerprint, ws: seq<World>, es: seq<Event>, b: int) returns (i: int)
    requires Run(fp, ws, es) && Quiet(ws[0]) && ws[0].journal == [] && es != [] && es[|es| - 1].Verify?
    requires PendingSince(fp, ws, es, b, |es| - 1) && BothOldOrNew(fp, IntentOf(fp, es[b]), ws[b])
    requires forall m :: b < m < |es| ==> !Foreign(fp, IntentOf(fp, es[b]), ws[m], es[m])
    ensures 0 <= i < |es| - 1 && LoadedAt(fp, ws, es, i, |es| - 1, fp(ws[i].file))
    ensures Untouched(es, i, |es| - 1) ==>
              ws[|es|].recovery == Some(Verified(fp(ws[|es|].file) == IntentOf(fp, es[b]).after))
  {
    var n := |es| - 1;
    i := VerifyIsExact(fp, ws, es);
    OldOrNewExactly(fp, ws, es, b, n);
    assert BothOldOrNew(fp, IntentOf(fp, es[b]), ws[n]);
    if Untouched(es, i, n) {
      UntouchedStays(fp, ws, es, i, n);
    }
  }

  // ----- one edit at a time -----

  /** Only journaled edits, one at a time, each prepared from the file as it stands. */
  ghost predicate Alone(fp: Fingerprint, w: World, e: Event) {
    && !e.Outside?
    && (e.Begin? ==> e.journaled && e.before == fp(w.file) && w.writers == map[])
  }

  /** An edit is all or nothing on disk, synced once no intent is pending, and what recovery loaded
      is still there. */
  ghost predicate AllOrNothing(fp: Fingerprint, w: World) {
    WritersHold(w) && DiskHolds(fp, w) && RecoveryHolds(fp, w)
  }

  ghost predicate WritersHold(w: World) {
    && (forall k :: k in w.writers ==> w.writers[k].journaled)
    && (forall k :: k in w.writers && (w.writers[k].phase == Synced || w.writers[k].phase == Done) ==>
        w.durable == w.file)
    && (forall k :: k in w.writers && Renamer(w.writers[k].phase) ==> w.file == w.writers[k].source)
  }

  ghost predicate DiskHolds(fp: Fingerprint, w: World) {
    if PendingLast(w.journal) then OldOrNew(fp, Last(w.journal), w.file) && OldOrNew(fp, Last(w.journal), w.durable)
    else w.durable == w.file
  }

  ghost predicate RecoveryHolds(fp: Fingerprint, w: World) {
    w.recovery.Some? ==>
      && w.writers == map[]
      && (w.recovery.value.Loaded? ==> w.recovery.value.seen == fp(w.file))
      && (w.recovery.value.Settled? ==> w.durable == w.file)
  }

  ghost predicate Safe(fp: Fingerprint, w: World, e: Event) {
    OnePending(w) && Authored(fp, w) && AllOrNothing(fp, w) && Alone(fp, w, e)
  }

  lemma StepKeepsWriters(fp: Fingerprint, w: World, e: Event, w': World)
    requires Safe(fp, w, e) && Next(fp, w, e, w')
    ensures WritersHold(w')
  {
  }

  lemma StepKeepsDisk(fp: Fingerprint, w: World, e: Event, w': World)
    requires Safe(fp, w, e) && Next(fp, w, e, w')
    ensures DiskHolds(fp, w')
  {
  }

  lemma StepKeepsRecovery(fp: Fingerprint, w: World, e: Event, w': World)
    requires Safe(fp, w, e) && Next(fp, w, e, w')
    ensures RecoveryHolds(fp, w')
  {
    if e.Load? {
      assert w.writers == map[];
    }
  }

  lemma StepKeepsAllOrNothing(fp: Fingerprint, w: World, e: Event, w': World)
    requires OnePending(w) && Authored(fp, w) && AllOrNothing(fp, w) && Next(fp, w, e, w') && Alone(fp, w, e)
    ensures AllOrNothing(fp, w')
  {
    StepKeepsWriters(fp, w, e, w');
    StepKeepsDisk(fp, w, e, w');
    StepKeepsRecovery(fp, w, e, w');
  }

  /** With one journaled edit at a time, each prepared from the file as it stands, and no other writer: the file
      is synced whenever no edit is pending, and otherwise both hold its old or its new content, over every
      run of crashes, power losses and recoveries. */
  lemma {:induction false} RunIsAllOrNothing(fp: Fingerprint, ws: seq<World>, es: seq<Event>)
    requires Run(fp, ws, es) && Quiet(ws[0]) && ws[0].journal == [] && ws[0].durable == ws[0].file
    requires forall i :: 0 <= i < |es| ==> Alone(fp, ws[i], es[i])
    ensures AllOrNothing(fp, ws[|es|])
  {
    var n := |es| - 1;
    if n >= 0 {
      RunIsAllOrNothing(fp, ws[..n + 1], es[..n]);
      JournalIsTruthful(fp, ws[..n + 1], es[..n]);
      StepKeepsAllOrNothing(fp, ws[n], es[n], ws[n + 1]);
    }
  }

  // ----- the writer's own steps -----

  const LIMIT: nat := 1024 * 1024

  lemma OneStep(fp: Fingerprint, ws: seq<World>, es: seq<Event>, e: Event, w': World)
    requires Run(fp, ws, es) && Next(fp, ws[|es|], e, w')
    ensures Run(fp, ws + [w'], es + [e])
  {
    var ws', es' := ws + [w'], es + [e];
    forall i | 0 <= i < |es'| ensures Next(fp, ws'[i], es'[i], ws'[i + 1]) {
      if i < |es| {
        assert Next(fp, ws[i], es[i], ws[i + 1]);
      }
    }
  }

  /** The configuration file, its edit lock and journal, and who is at work on it. */
  class ConfigFile {
    var file: Source
    var durable: Source
    var lock: Option<nat>
    var journal: seq<Intent>
    var writers: map<nat, Writer>
    var recovery: Option<Recovery>

    function State(): World
      reads this
    {
      World(file, durable, lock, journal, writers, recovery)
    }

    method Move(k: nat, p: Phase)
      requires k in writers
      modifies this`writers
      ensures State() == At(old(State()), k, p)
    {
      writers := writers[k := writers[k].(phase := p)];
    }

    /** An error return: the lock, if held, is given back. */
    method Fail(k: nat)
      modifies this`writers, this`lock
      ensures State() == Gone(old(State()), k)
    {
      writers := writers - {k};
      if lock == Some(k) {
        lock := None;
      }
    }

    /** The part of `replace` under the lock (src/config/editor.rs:172-195), `trouble` being the phase after
        which the file system refuses the next operation, if it does. */
    method ReplaceLocked(fp: Fingerprint, k: nat, trouble: Option<Phase>, ghost ws0: seq<World>, ghost es0: seq<Event>)
      returns (r: Result<()>, ghost ws: seq<World>, ghost es: seq<Event>)
      requires Run(fp, ws0, es0) && ws0[|es0|] == State()
      requires k in writers && writers[k].phase == Locked && lock == Some(k)
      modifies this
      ensures Run(fp, ws, es) && ws0 <= ws && es0 <= es && ws[|es|] == State()
      ensures r.Ok? <==>
        && fp(old(file)) == old(writers)[k].before
        && !(trouble.Some? && Holding(trouble.value) && trouble != Some(Synced))
      ensures r.Ok? ==> file == durable == old(writers)[k].source && k in writers && writers[k].phase == Done
      ensures r.Err? ==> k !in writers && durable == old(durable)
      ensures r.Err? ==> file == if trouble == Some(Renamed) && fp(old(file)) == old(writers)[k].before
                                 then old(writers)[k].source else old(file)
      ensures lock == None && journal == old(journal) && recovery == old(recovery)
    {
      ws, es := ws0, es0;
      ghost var g := Gone(State(), k);
      if trouble == Some(Locked) {
        OneStep(fp, ws, es, Event.Fail(k), g);
        ws, es := ws + [g], es + [Event.Fail(k)];
        Fail(k);
        return Err, ws, es;
      }
      OneStep(fp, ws, es, Stage(k), At(State(), k, Staged));
      Move(k, Staged);
      ws, es := ws + [State()], es + [Stage(k)];
      if trouble == Some(Staged) {
        OneStep(fp, ws, es, Event.Fail(k), Gone(State(), k));
        Fail(k);
        ws, es := ws + [State()], es + [Event.Fail(k)];
        return Err, ws, es;
      }
      if fp(file) != writers[k].before {
        OneStep(fp, ws, es, Check(k), Gone(State(), k));
        Fail(k);
        ws, es := ws + [State()], es + [Check(k)];
        return Err, ws, es;
      }
      OneStep(fp, ws, es, Check(k), At(State(), k, Checked));
      Move(k, Checked);
      ws, es := ws + [State()], es + [Check(k)];
      if trouble == Some(Checked) {
        OneStep(fp, ws, es, Event.Fail(k), Gone(State(), k));
        Fail(k);
        ws, es := ws + [State()], es + [Event.Fail(k)];
        return Err, ws, es;
      }
      r, ws, es := Persist(fp, k, trouble == Some(Renamed), ws, es);
    }

    /** The rename, the directory's sync and the lock's release. */
    method Persist(fp: Fingerprint, k: nat, unsynced: bool, ghost ws0: seq<World>, ghost es0: seq<Event>)
      returns (r: Result<()>, ghost ws: seq<World>, ghost es: seq<Event>)
      requires Run(fp, ws0, es0) && ws0[|es0|] == State()
      requires k in writers && writers[k].phase == Checked && lock == Some(k)
      modifies this
      ensures Run(fp, ws, es) && ws0 <= ws && es0 <= es && ws[|es|] == State()
      ensures r.Ok? <==> !unsynced
      ensures file == old(writers)[k].source && lock == None && journal == old(journal) && recovery == old(recovery)
      ensures r.Ok? ==> durable == file && k in writers && writers[k].phase == Done
      ensures r.Err? ==> k !in writers && durable == old(durable)
    {
      ws, es := ws0, es0;
      var source := writers[k].source;
      OneStep(fp, ws, es, Rename(k), At(State(), k, Renamed).(file := source));
      Move(k, Renamed);
      file := source;
      ws, es := ws + [State()], es + [Rename(k)];
      if unsynced {
        OneStep(fp, ws, es, Event.Fail(k), Gone(State(), k));
        Fail(k);
        ws, es := ws + [State()], es + [Event.Fail(k)];
        return Err, ws, es;
      }
      OneStep(fp, ws, es, Sync(k), At(State(), k, Synced).(durable := file));
      Move(k, Synced);
      durable := file;
      ws, es := ws + [State()], es + [Sync(k)];
      OneStep(fp, ws, es, Unlock(k), At(State(), k, Done).(lock := None));
      Move(k, Done);
      lock := None;
      ws, es := ws + [State()], es + [Unlock(k)];
      r := Ok(());
    }

    /** `replace` (src/config/editor.rs:127-195), alone while it works: its steps are a run of the transition
        system. A refusal leaves the file as it was, except that one after the rename leaves the new file,
        not yet synced. */
    method Replace(fp: Fingerprint, k: nat, trouble: Option<Phase>)
      returns (r: Result<()>, ghost ws: seq<World>, ghost es: seq<Event>)
      requires k in writers && writers[k].phase == Prepared && lock != Some(k)
      modifies this
      ensures Run(fp, ws, es) && ws[0] == old(State()) && ws[|es|] == State()
      ensures r.Ok? <==>
        && Size(old(writers)[k].source) <= 1024 * 1024 && old(lock) == None && fp(old(file)) == old(writers)[k].before
        && !(trouble.Some? && Holding(trouble.value) && trouble != Some(Synced))
      ensures r.Ok? ==> file == durable == old(writers)[k].source
      ensures r.Err? ==> durable == old(durable) && k !in writers
      ensures r.Err? && trouble != Some(Renamed) ==> file == old(file)
      ensures file == old(file) || file == old(writers)[k].source
      ensures lock == old(lock) && journal == old(journal) && recovery == old(recovery)
    {
      ws, es := [State()], [];
      if Size(writers[k].source) > LIMIT || lock.Some? {
        OneStep(fp, ws, es, Event.Fail(k), Gone(State(), k));
        Fail(k);
        ws, es := ws + [State()], es + [Event.Fail(k)];
        return Err, ws, es;
      }
      OneStep(fp, ws, es, Lock(k), At(State(), k, Locked).(lock := Some(k)));
      Move(k, Locked);
      lock := Some(k);
      ws, es := ws + [State()], es + [Lock(k)];
      r, ws, es := ReplaceLocked(fp, k, trouble, ws, es);
    }
  }
}
