/** Owner controls of a thread (src/threads/controls.rs): one unit of work per control, over the rows
    the store keeps of each thread.

    The store's half is taken by its contract: a stop intent is recorded for every worker of the thread
    that is still live, once; a worker is admitted only in an active thread; wiping keeps the identifiers
    of instructions and erases their text. */
module ThreadControl {
  import opened TextTrim
  import opened Wrappers

  datatype Authority = Owner | System | DesktopReadOnly
  datatype Mode = Active | Paused | Closed | Archived | Cleaned
  datatype Detail = IsActive | IsPaused(who: Authority, reason: string, since: int) | IsClosed | IsArchived | IsCleaned
  datatype Action = Pause(reason: string) | Resume | Retry | Close | Archive | Restore | Clean | Instruct(text: string)

  datatype Instruction = Instruction(id: nat, client: string, text: string)

  /** A thread's rows. `detail` is None when its text cannot be read back; `failed` is the inbox item of
      the last failed decision; `unacknowledged` says a worker control is pending. `live` are the worker rows
      not yet stopped, `stops` the stop intents not yet completed, `running` the workers' processes. */
  datatype Thread = Thread(mode: Mode, detail: Option<Detail>, reason: string, streak: nat, turns: nat, blocked: bool,
                           held: bool, failed: Option<nat>, requeued: seq<nat>, live: seq<string>, stops: seq<string>,
                           running: seq<string>, unacknowledged: bool, instructions: seq<Instruction>,
                           latest: Option<(string, int)>, newest: int, resetAt: int, working: seq<string>,
                           resumed: seq<string>, summary: string)

  datatype Audit = Audit(at: int, actor: Authority, session: string, action: Action)
  datatype World = World(threads: map<string, Thread>, next: nat, audit: seq<Audit>)

  predicate Terminal(m: Mode) {
    m == Closed || m == Archived || m == Cleaned
  }

  predicate Stopping(a: Action) {
    a == Close || a == Archive || a == Clean
  }

  function Prior(t: Thread, now: int): Detail {
    var read := if t.detail.Some? then t.detail.value else IsActive;
    if t.mode == Paused && !read.IsPaused? then IsPaused(Owner, "Unclassified legacy pause", now) else read
  }

  /** Only the owner resumes what the owner paused. */
  predicate CanResume(prior: Detail, actor: Authority) {
    prior.IsPaused? && prior.who == Owner ==> actor == Owner
  }

  /** The new control, or a refusal (src/threads/controls.rs:100-191). */
  function Decide(t: Thread, action: Action, actor: Authority, now: int): Result<(Mode, Detail)> {
    var prior := Prior(t, now);
    match action
    case Pause(reason) =>
      if Terminal(t.mode) || Trim(reason, false) == "" then Err
      else if prior.IsPaused? && prior.who == Owner && actor != Owner then Err
      else Ok((Paused, IsPaused(actor, reason, now)))
    case Resume =>
      if (t.mode == Paused && !CanResume(prior, actor)) || Terminal(t.mode) then Err
      else Ok((Active, IsActive))
    case Instruct(_) =>
      if (t.mode == Paused && !CanResume(prior, actor)) || actor != Owner || Terminal(t.mode) then Err
      else Ok((Active, IsActive))
    case Retry => if t.mode != Active then Err else Ok((Active, IsActive))
    case Restore =>
      if actor != Owner || t.stops != [] || t.unacknowledged || (Terminal(t.mode) && t.live != []) then Err
      else Ok((Active, IsActive))
    case Close => if actor != Owner then Err else Ok((Closed, IsClosed))
    case Archive => if actor != Owner then Err else Ok((Archived, IsArchived))
    case Clean => if actor != Owner then Err else Ok((Cleaned, IsCleaned))
  }

  function SetControl(t: Thread, mode: Mode, detail: Detail, reset: bool): Thread {
    t.(mode := mode, detail := Some(detail), reason := if detail.IsPaused? then detail.reason else "",
       streak := if reset then 0 else t.streak)
  }

  function QueueStops(stops: seq<string>, live: seq<string>): (r: seq<string>)
    ensures forall x :: x in r <==> x in stops || x in live
  {
    if live == [] then stops
    else
      var rest := QueueStops(stops, live[..|live| - 1]);
      var x := live[|live| - 1];
      if x in rest then rest else rest + [x]
  }

  function Erased(instructions: seq<Instruction>): seq<Instruction> {
    seq(|instructions|, i requires 0 <= i < |instructions| => instructions[i].(text := ""))
  }

  function Wipe(t: Thread): Thread {
    t.(instructions := Erased(t.instructions), requeued := [], summary := "")
  }

  /** Where the thread's history starts again on a resume: the latest message is still part of it. */
  function Boundary(t: Thread): int {
    if t.latest.Some? then t.latest.value.1 - 1 else t.newest
  }

  function ResumeAt(t: Thread): Thread {
    var reset := t.(resetAt := Boundary(t));
    if t.latest.Some? && t.latest.value.0 !in t.working then reset.(resumed := t.resumed + [t.latest.value.0])
        else reset
  }

  /** The rows a control sets before any worker, instruction or wipe (src/threads/controls.rs:192-215). */
  function Rearranged(t: Thread, action: Action, mode: Mode, detail: Detail): (r: Thread)
    ensures r.mode == mode && r.live == t.live && r.running == t.running && r.stops == t.stops
            && r.instructions == t.instructions
  {
    var set1 := SetControl(t, mode, detail, mode == Active && action != Restore);
    var set2 := if action == Resume then set1.(turns := 0)
                else if action.Instruct? then set1.(blocked := false)
                else if action == Retry && t.failed.Some? then
                  set1.(requeued := t.requeued + [t.failed.value], failed := None)
                else set1;
    if mode == Active then set2.(held := false) else set2
  }

  /** What a control does besides (src/threads/controls.rs:216-253), `id` being the next inbox row. */
  function Besides(t: Thread, action: Action, id: nat, client: string): Result<Thread> {
    match action
    case Close => Ok(t.(stops := QueueStops(t.stops, t.live)))
    case Archive => Ok(t.(stops := QueueStops(t.stops, t.live)))
    case Clean => Ok(Wipe(t.(stops := QueueStops(t.stops, t.live))))
    case Instruct(text) =>
      if Trim(text, false) == "" then Err
      else Ok(t.(instructions := t.instructions + [Instruction(id, client, text)]))
    case Resume => Ok(ResumeAt(t))
    case _ => Ok(t)
  }

  /** The thread's rows after a control took effect; a retry with nothing to retry has none. */
  function Effect(t: Thread, action: Action, mode: Mode, detail: Detail, id: nat, client: string): Result<Thread> {
    if action == Retry && t.failed == None then Err
    else Besides(Rearranged(t, action, mode, detail), action, id, client)
  }

  /** One control as one unit of work: the new rows and the instruction's inbox row, or nothing at all. */
  function Applied(w: World, session: string, action: Action, actor: Authority, now: int,
                   client: string): Result<World> {
    if session !in w.threads then Err
    else
      var t := w.threads[session];
      var d := Decide(t, action, actor, now);
      if d.Err? then Err
      else
        var e := Effect(t, action, d.value.0, d.value.1, w.next, client);
        if e.Err? then Err
        else Ok(World(w.threads[session := e.value], if action.Instruct? then w.next + 1 else w.next,
                      w.audit + [Audit(now, actor, session, action)]))
  }

  /** `apply` (src/threads/controls.rs:26-47): only the owner, at a finite time. */
  function Apply(w: World, session: string, action: Action, actor: Authority, now: Option<int>): Result<World> {
    if now == None || actor != Owner then Err else Applied(w, session, action, actor, now.value, "")
  }

  predicate IdChar(c: char) {
    'a' <= c <= 'z' || 'A' <= c <= 'Z' || '0' <= c <= '9' || c == '-'
  }

  predicate GoodClient(client: string) {
    8 <= |client| <= 80 && forall i :: 0 <= i < |client| ==> IdChar(client[i])
  }

  function FindInstruction(instructions: seq<Instruction>, client: string): (r: Option<Instruction>)
    ensures r.Some? ==> r.value in instructions && r.value.client == client
    ensures r == None ==> forall i :: 0 <= i < |instructions| ==> instructions[i].client != client
  {
    if instructions == [] then None
    else
      var last := |instructions| - 1;
      var earlier := FindInstruction(instructions[..last], client);
      if earlier.Some? then earlier
      else if instructions[last].client == client then Some(instructions[last])
      else None
  }

  predicate Askable(text: string, client: string, actor: Authority, now: Option<int>) {
    actor == Owner && now.Some? && 1 <= |Trim(text, false)| <= 4000 && GoodClient(client)
  }

  /** `instruct` (src/threads/controls.rs:49-90): the inbox row of the instruction, new or as first accepted. */
  function Instructed(w: World, session: string, text: string, client: string, actor: Authority, now: Option<int>)
    : Result<(World, nat)>
  {
    if !Askable(text, client, actor, now) || session !in w.threads then Err
    else
      var asked := Trim(text, false);
      var existing := FindInstruction(w.threads[session].instructions, client);
      if existing.Some? then
        if existing.value.text != asked then Err else Ok((w, existing.value.id))
      else
        var r := Applied(w, session, Instruct(asked), actor, now.value, client);
        if r.Err? then Err else Ok((r.value, w.next))
  }

  // ----- one control -----

  /** A closed, archived or cleaned thread turns active only by the owner's restore, when no worker of
      it is live and no stop or worker control is pending. */
  lemma OnlyRestoreReopens(t: Thread, action: Action, actor: Authority, now: int)
    requires Terminal(t.mode) && Decide(t, action, actor, now).Ok?
    ensures !Terminal(Decide(t, action, actor, now).value.0) <==> action == Restore
    ensures action == Restore ==> actor == Owner && t.live == [] && t.stops == [] && !t.unacknowledged
  {
  }

  /** The owner's pause: one the owner made, or one nobody is known to have made. */
  predicate OwnersPause(t: Thread) {
    || (t.detail.Some? && t.detail.value.IsPaused? && t.detail.value.who == Owner)
    || (t.mode == Paused && !(t.detail.Some? && t.detail.value.IsPaused?))
  }

  predicate Over(t: Thread) {
    t.mode in {Closed, Archived, Cleaned}
  }

  /** Who may do what, and when. */
  lemma AllowedExactly(t: Thread, action: Action, actor: Authority, now: int)
    ensures Decide(t, action, actor, now).Ok? <==>
              match action
              case Pause(reason) => !Over(t) && Trim(reason, false) != "" && (OwnersPause(t) ==> actor == Owner)
              case Resume => !Over(t) && (t.mode == Paused && OwnersPause(t) ==> actor == Owner)
              case Instruct(_) => !Over(t) && actor == Owner
              case Retry => t.mode == Active
              case Restore => actor == Owner && t.stops == [] && !t.unacknowledged && (Over(t) ==> t.live == [])
              case _ => actor == Owner
  {
  }

  /** What each action does to the thread's rows, every one of them: the mode and its detail; a pause keeps its
      reason; resuming and instructing start the failure streak anew, as a retry does, and release held results;
      resuming also starts the turns anew and takes the history up at the latest message; a retry puts the failed
      turn back in line; an instruction unblocks. Ending a thread queues stops, and cleaning wipes it. */
  lemma ActionsDo(t: Thread, action: Action, actor: Authority, now: int, id: nat, client: string)
    requires Decide(t, action, actor, now).Ok?
    requires var d := Decide(t, action, actor, now).value; Effect(t, action, d.0, d.1, id, client).Ok?
    ensures var d := Decide(t, action, actor, now).value;
            var t' := Effect(t, action, d.0, d.1, id, client).value;
            var active := t.(mode := Active, detail := Some(IsActive), reason := "", held := false);
            var ended := t.(reason := "", stops := QueueStops(t.stops, t.live));
            match action
            case Pause(reason) => t'
                == t.(mode := Paused, detail := Some(IsPaused(actor, reason, now)), reason := reason)
            case Resume =>
              t' == active.(streak := 0, turns := 0,
                            resetAt := if t.latest.Some? then t.latest.value.1 - 1 else t.newest,
                            resumed := if t.latest.Some? && t.latest.value.0 !in t.working
                                       then t.resumed + [t.latest.value.0] else t.resumed)
            case Retry =>
              t.failed.Some? && t' == active.(streak := 0, requeued := t.requeued + [t.failed.value], failed := None)
            case Restore => t' == active
            case Instruct(text) =>
              t' == active.(streak := 0, blocked := false,
                            instructions := t.instructions + [Instruction(id, client, text)])
            case Close => t' == ended.(mode := Closed, detail := Some(IsClosed))
            case Archive => t' == ended.(mode := Archived, detail := Some(IsArchived))
            case Clean =>
              t' == ended.(mode := Cleaned, detail := Some(IsCleaned), requeued := [], summary := "",
                           instructions := Erased(t.instructions))
  {
  }

  /** `instruct` gives the row of an earlier instruction with that client ID if its text is the same, refuses a
      different one, and otherwise takes effect as an owner's control on a thread that is not over. The owner
      asks, at a known time, in 1 to 4000 characters, under an ID of 8 to 80 letters, digits and hyphens. */
  lemma {:induction false} InstructedExactly(w: World, session: string, text: string, client: string, actor: Authority,
                                             now: Option<int>)
    ensures var asked := Trim(text, false);
            var good := actor == Owner && now.Some? && 1 <= |asked| <= 4000 && 8 <= |client| <= 80
                        && (forall c :: c in client ==>
                            'a' <= c <= 'z' || 'A' <= c <= 'Z' || '0' <= c <= '9' || c == '-')
                        && session in w.threads;
            var r := Instructed(w, session, text, client, actor, now);
            && (!good ==> r == Err)
            && (good ==>
                  var t := w.threads[session];
                  match FindInstruction(t.instructions, client)
                  case Some(i) => r == if i.text == asked then Ok((w, i.id)) else Err
                  case None => (r.Ok? <==> !Over(t)) && (r.Ok? ==> r.value.1 == w.next && r.value.0.next == w.next + 1))
  {
    assert GoodClient(client) <==> 8 <= |client| <= 80 && forall c :: c in client ==> IdChar(c);
    if Askable(text, client, actor, now) && session in w.threads {
      var t := w.threads[session];
      AllowedExactly(t, Instruct(Trim(text, false)), Owner, now.value);
      TrimTwice(text, false);
    }
  }

  /** What a committed control leaves in the thread: the control asked for, the workers as they were,
      and a stop for each of them if it was closed, archived or cleaned. */
  ghost predicate Controlled(t: Thread, t': Thread, action: Action, id: nat, client: string) {
    && t'.live == t.live && t'.running == t.running
    && t'.stops == (if Stopping(action) then QueueStops(t.stops, t.live) else t.stops)
    && (Stopping(action) <==> Terminal(t'.mode))
    && (t'.mode == Paused <==> action.Pause?)
    && t'.instructions == (if action.Instruct? then t.instructions + [Instruction(id, client, action.text)]
                           else if action == Clean then Erased(t.instructions) else t.instructions)
  }

  lemma BesidesIs(t: Thread, action: Action, id: nat, client: string)
    requires Besides(t, action, id, client).Ok?
    ensures var t' := Besides(t, action, id, client).value;
            && t'.mode == t.mode && t'.live == t.live && t'.running == t.running
            && t'.stops == (if Stopping(action) then QueueStops(t.stops, t.live) else t.stops)
            && t'.instructions == (if action.Instruct? then t.instructions + [Instruction(id, client, action.text)]
                                   else if action == Clean then Erased(t.instructions) else t.instructions)
  {
  }

  lemma EffectControls(t: Thread, action: Action, actor: Authority, now: int, id: nat, client: string)
    requires Decide(t, action, actor, now).Ok?
    requires var d := Decide(t, action, actor, now).value; Effect(t, action, d.0, d.1, id, client).Ok?
    ensures var d := Decide(t, action, actor, now).value;
            Controlled(t, Effect(t, action, d.0, d.1, id, client).value, action, id, client)
  {
    var d := Decide(t, action, actor, now).value;
    BesidesIs(Rearranged(t, action, d.0, d.1), action, id, client);
  }

  /** A committed control changes one thread, and takes an inbox row exactly for an instruction. */
  lemma AppliedIs(w: World, session: string, action: Action, actor: Authority, now: int, client: string)
    requires Applied(w, session, action, actor, now, client).Ok?
    ensures var w' := Applied(w, session, action, actor, now, client).value;
            && session in w.threads && session in w'.threads && Decide(w.threads[session], action, actor, now).Ok?
            && w'.threads == w.threads[session := w'.threads[session]]
            && Controlled(w.threads[session], w'.threads[session], action, w.next, client)
            && w'.next == (if action.Instruct? then w.next + 1 else w.next)
  {
    EffectControls(w.threads[session], action, actor, now, w.next, client);
  }

  /** Closing, archiving and cleaning commit a stop for every live worker in the same unit. */
  lemma StopsCommitTogether(w: World, session: string, action: Action, actor: Authority, now: int, client: string,
                            worker: string)
    requires Stopping(action) && Applied(w, session, action, actor, now, client).Ok?
    ensures session in w.threads
    ensures var t' := Applied(w, session, action, actor, now, client).value.threads[session];
            && Terminal(t'.mode) && t'.live == w.threads[session].live
            && (worker in t'.live ==> worker in t'.stops)
  {
    AppliedIs(w, session, action, actor, now, client);
  }

  // ----- runs -----

  /** What the rest of the system may do to a thread's rows: never the control, an instruction, or a worker. */
  ghost predicate Elsewhere(t: Thread, t': Thread) {
    && t'.mode == t.mode && t'.detail == t.detail && t'.instructions == t.instructions
    && t'.live == t.live && t'.stops == t.stops && t'.running == t.running
  }

  /** The supervisor's steps (src/threads/runtime.rs:376-411, src/workers/supervisor.rs:441-483). */
  datatype Work =
    | Hire(worker: string)          // a worker's row is made, before any job of its is claimed
    | Launch(worker: string)        // a job of a live worker is claimed and its process started
    | Reconcile                     // terminal threads with live workers get their stops
    | Halt(worker: string)          // the worker's row is stopped
    | Exit(worker: string)          // its process is gone
    | Acknowledge(worker: string)   // the stop is completed, its process confirmed gone

  function Without(xs: seq<string>, x: string): (r: seq<string>)
    ensures forall y :: y in r <==> y in xs && y != x
  {
    if xs == [] then []
    else
      var rest := Without(xs[..|xs| - 1], x);
      if xs[|xs| - 1] == x then rest else rest + [xs[|xs| - 1]]
  }

  function Worked(t: Thread, step: Work): (r: Thread)
    ensures r.mode == t.mode && r.detail == t.detail && r.instructions == t.instructions
  {
    match step
    case Hire(x) => if t.mode == Active then t.(live := t.live + [x]) else t
    case Launch(x) => if t.mode == Active && x in t.live then t.(running := t.running + [x]) else t
    case Reconcile => if Terminal(t.mode) then t.(stops := QueueStops(t.stops, t.live)) else t
    case Halt(x) => t.(live := Without(t.live, x))
    case Exit(x) => t.(running := Without(t.running, x))
    case Acknowledge(x) =>
      if x in t.stops && x !in t.live && x !in t.running then t.(stops := Without(t.stops, x)) else t
  }

  datatype Event =
    | Control(session: string, action: Action, actor: Authority, now: Option<int>)
    | Ask(session: string, text: string, client: string, actor: Authority, now: Option<int>)
    | Open(session: string, thread: Thread)
    | Supervise(session: string, step: Work)
    | Other(session: string, thread: Thread)

  predicate Newborn(t: Thread) {
    t.mode == Active && t.instructions == [] && t.live == [] && t.stops == [] && t.running == []
  }

  ghost function Step(w: World, e: Event): World {
    match e
    case Control(session, action, actor, now) =>
      var r := Apply(w, session, action, actor, now); if r.Ok? then r.value else w
    case Ask(session, text, client, actor, now) =>
      var r := Instructed(w, session, text, client, actor, now); if r.Ok? then r.value.0 else w
    case Open(session, t) => if session !in w.threads && Newborn(t) then w.(threads := w.threads[session := t]) else w
    case Supervise(session, step) =>
      if session in w.threads then w.(threads := w.threads[session := Worked(w.threads[session], step)]) else w
    case Other(session, t) =>
      if session in w.threads && Elsewhere(w.threads[session], t) then w.(threads := w.threads[session := t]) else w
  }

  ghost function Steps(w: World, es: seq<Event>): World
    decreases |es|
  {
    if es == [] then w else Step(Steps(w, es[..|es| - 1]), es[|es| - 1])
  }

  /** What a step does to one thread: nothing, a control, something elsewhere, or its opening. */
  ghost predicate Touched(w: World, w': World, s: string) {
    s in w'.threads && w.next <= w'.next &&
    if s in w.threads then
      || w'.threads[s] == w.threads[s]
      || Elsewhere(w.threads[s], w'.threads[s])
      || (exists step :: w'.threads[s] == Worked(w.threads[s], step))
      || (exists action, client :: Controlled(w.threads[s], w'.threads[s], action, w.next, client)
                                   && (action.Instruct? ==> w'.next > w.next && Fits(w, s, client)))
    else Newborn(w'.threads[s])
  }

  /** A client ID that is new to the thread, or none. */
  ghost predicate Fits(w: World, s: string, client: string) {
    client == "" || (s in w.threads && FindInstruction(w.threads[s].instructions, client) == None)
  }

  lemma ControlTouches(w: World, session: string, action: Action, actor: Authority, now: int, client: string, s: string)
    requires Applied(w, session, action, actor, now, client).Ok? && (action.Instruct? ==> Fits(w, session, client))
    requires s in Applied(w, session, action, actor, now, client).value.threads
    ensures Touched(w, Applied(w, session, action, actor, now, client).value, s)
  {
    AppliedIs(w, session, action, actor, now, client);
  }

  lemma StepTouches(w: World, e: Event, s: string)
    requires s in Step(w, e).threads
    ensures Touched(w, Step(w, e), s)
  {
    match e {
      case Control(session, action, actor, now) =>
        if Apply(w, session, action, actor, now).Ok? {
          ControlTouches(w, session, action, actor, now.value, "", s);
        }
      case Ask(session, text, client, actor, now) =>
        var r := Instructed(w, session, text, client, actor, now);
        if r.Ok? && r.value.0 != w {
          ControlTouches(w, session, Instruct(Trim(text, false)), actor, now.value, client, s);
        }
      case Open(_, _) =>
      case Supervise(_, _) =>
      case Other(_, _) =>
    }
  }

  lemma StepKeepsThread(w: World, e: Event, session: string)
    requires session in w.threads
    ensures session in Step(w, e).threads
  {
  }

  lemma {:induction false} ThreadsStay(w: World, es: seq<Event>, session: string)
    requires session in w.threads
    ensures session in Steps(w, es).threads
    decreases |es|
  {
    if es != [] {
      ThreadsStay(w, es[..|es| - 1], session);
      StepKeepsThread(Steps(w, es[..|es| - 1]), es[|es| - 1], session);
    }
  }

  /** The owner restores a thread whose workers are gone. */
  predicate CleanRestore(w: World, e: Event, session: string) {
    && e.Control? && e.session == session && e.action == Restore && e.actor == Owner && e.now.Some?
    && session in w.threads && w.threads[session].live == [] && w.threads[session].stops == []
    && !w.threads[session].unacknowledged
  }

  ghost predicate RestoredIn(w: World, es: seq<Event>, session: string) {
    exists k :: 0 <= k < |es| && CleanRestore(Steps(w, es[..k]), es[k], session)
  }

  lemma ControlReopens(w: World, session: string, action: Action, actor: Authority, now: Option<int>)
    requires Apply(w, session, action, actor, now).Ok? && session in w.threads && Terminal(w.threads[session].mode)
    requires !Terminal(Apply(w, session, action, actor, now).value.threads[session].mode)
    ensures CleanRestore(w, Control(session, action, actor, now), session)
  {
    AppliedIs(w, session, action, actor, now.value, "");
    OnlyRestoreReopens(w.threads[session], action, actor, now.value);
  }

  lemma AskNeverReopens(w: World, session: string, text: string, client: string, actor: Authority, now: Option<int>)
    requires session in w.threads && Terminal(w.threads[session].mode)
    ensures Instructed(w, session, text, client, actor, now).Ok? ==>
              Instructed(w, session, text, client, actor, now).value.0 == w
  {
  }

  lemma StepReopens(w: World, e: Event, session: string)
    requires session in w.threads && Terminal(w.threads[session].mode)
    requires session in Step(w, e).threads && !Terminal(Step(w, e).threads[session].mode)
    ensures CleanRestore(w, e, session)
  {
    match e {
      case Control(s, action, actor, now) =>
        if Apply(w, s, action, actor, now).Ok? {
          AppliedIs(w, s, action, actor, now.value, "");
          ControlReopens(w, session, action, actor, now);
        }
      case Ask(s, text, client, actor, now) =>
        var r := Instructed(w, s, text, client, actor, now);
        if s == session {
          AskNeverReopens(w, s, text, client, actor, now);
        } else if r.Ok? && r.value.0 != w {
          AppliedIs(w, s, Instruct(Trim(text, false)), actor, now.value, client);
        }
      case Open(_, _) =>
      case Supervise(_, _) =>
      case Other(_, _) =>
    }
  }

  /** Over every run: a terminal thread is found open again only if the owner restored it, at a moment
      when none of its workers was live and no stop was pending. */
  lemma {:induction false} ReopenedOnlyByRestore(w: World, es: seq<Event>, session: string)
    requires session in w.threads && Terminal(w.threads[session].mode)
    requires session in Steps(w, es).threads && !Terminal(Steps(w, es).threads[session].mode)
    ensures RestoredIn(w, es, session)
    decreases |es|
  {
    var n := |es| - 1;
    var before := Steps(w, es[..n]);
    ThreadsStay(w, es[..n], session);
    if Terminal(before.threads[session].mode) {
      StepReopens(before, es[n], session);
    } else {
      ReopenedOnlyByRestore(w, es[..n], session);
      var k :| 0 <= k < n && CleanRestore(Steps(w, es[..n][..k]), es[..n][k], session);
      assert es[..n][..k] == es[..k];
    }
  }

  ghost predicate Stoppable(t: Thread) {
    Terminal(t.mode) ==> forall x :: x in t.live ==> x in t.stops
  }

  ghost predicate AllStoppable(w: World) {
    forall s :: s in w.threads ==> Stoppable(w.threads[s])
  }

  lemma StepStoppable(w: World, e: Event)
    requires AllStoppable(w)
    ensures AllStoppable(Step(w, e))
  {
    forall s | s in Step(w, e).threads ensures Stoppable(Step(w, e).threads[s]) {
      StepTouches(w, e, s);
      TouchedStoppable(w, Step(w, e), s);
    }
  }

  lemma TouchedStoppable(w: World, w': World, s: string)
    requires Touched(w, w', s) && (s in w.threads ==> Stoppable(w.threads[s]))
    ensures Stoppable(w'.threads[s])
  {
    if s in w.threads && exists step :: w'.threads[s] == Worked(w.threads[s], step) {
      var step :| w'.threads[s] == Worked(w.threads[s], step);
      WorkedStops(w.threads[s], step);
    }
  }

  /** The supervisor never takes a stop from a worker that is live or running. */
  lemma WorkedStops(t: Thread, step: Work)
    ensures Stoppable(t) ==> Stoppable(Worked(t, step))
    ensures forall x :: Terminal(t.mode) && StoppingOrGone(t, x) ==> StoppingOrGone(Worked(t, step), x)
  {
  }

  /** Over every run from an empty store: each live worker of a terminal thread has its stop pending. */
  lemma {:induction false} LiveWorkersAreStopped(es: seq<Event>)
    ensures AllStoppable(Steps(World(map[], 0, []), es))
    decreases |es|
  {
    if es != [] {
      LiveWorkersAreStopped(es[..|es| - 1]);
      StepStoppable(Steps(World(map[], 0, []), es[..|es| - 1]), es[|es| - 1]);
    }
  }

  /** A worker of a terminal thread still has its stop pending, or it is gone, row and process. */
  ghost predicate StoppingOrGone(t: Thread, worker: string) {
    worker in t.stops || Vanished(t, worker)
  }

  predicate Vanished(t: Thread, worker: string) {
    worker !in t.live && worker !in t.running
  }

  lemma TouchedStopping(w: World, w': World, s: string, worker: string)
    requires s in w.threads && Touched(w, w', s)
    requires Terminal(w.threads[s].mode) && StoppingOrGone(w.threads[s], worker)
    ensures StoppingOrGone(w'.threads[s], worker)
  {
    if exists step :: w'.threads[s] == Worked(w.threads[s], step) {
      var step :| w'.threads[s] == Worked(w.threads[s], step);
      WorkedStops(w.threads[s], step);
    }
  }

  /** The owner restored the thread at a moment when the worker was gone, its process included. */
  ghost predicate RestoredWithout(w: World, es: seq<Event>, session: string, worker: string)
    decreases |es|
  {
    es != [] &&
    (var before := Steps(w, es[..|es| - 1]);
     || RestoredWithout(w, es[..|es| - 1], session, worker)
     || (CleanRestore(before, es[|es| - 1], session) && Vanished(before.threads[session], worker)))
  }

  lemma {:induction false} StopsBeforeRestore(w: World, es: seq<Event>, session: string, worker: string)
    requires session in w.threads && Terminal(w.threads[session].mode) && StoppingOrGone(w.threads[session], worker)
    ensures session in Steps(w, es).threads
    ensures || RestoredWithout(w, es, session, worker)
            || (Terminal(Steps(w, es).threads[session].mode) && StoppingOrGone(Steps(w, es).threads[session], worker))
    decreases |es|
  {
    if es != [] {
      var before, e := Steps(w, es[..|es| - 1]), es[|es| - 1];
      StopsBeforeRestore(w, es[..|es| - 1], session, worker);
      StepKeepsThread(before, e, session);
      if !RestoredWithout(w, es[..|es| - 1], session, worker) {
        StepTouches(before, e, session);
        TouchedStopping(before, Step(before, e), session, worker);
        if !Terminal(Step(before, e).threads[session].mode) {
          StepReopens(before, e, session);
        }
      }
    }
  }

  /** Rapid restores and interrupted stops cannot leave a closed thread's worker behind: over every run after a
      close, archive or clean commits, whatever the supervisor does and whenever, the thread opens again only
      through a restore that found each worker live at the close stopped and its process gone. */
  lemma {:induction false} ClosedWorkersAreGone(w: World, session: string, action: Action, now: int, worker: string,
                                                es: seq<Event>)
    requires Stopping(action) && Applied(w, session, action, Owner, now, "").Ok?
    requires session in w.threads && worker in w.threads[session].live
    ensures var after := Applied(w, session, action, Owner, now, "").value;
            && session in Steps(after, es).threads
            && (Terminal(Steps(after, es).threads[session].mode) || RestoredWithout(after, es, session, worker))
  {
    AppliedIs(w, session, action, Owner, now, "");
    var after := Applied(w, session, action, Owner, now, "").value;
    assert worker in after.threads[session].stops;
    StopsBeforeRestore(after, es, session, worker);
  }

  // ----- instructions are taken once -----

  ghost predicate OnceEach(t: Thread, next: nat) {
    && (forall i :: 0 <= i < |t.instructions| ==> t.instructions[i].id < next)
    && (forall i, j :: 0 <= i < j < |t.instructions| ==>
          && t.instructions[i].id < t.instructions[j].id
          && (t.instructions[i].client == "" || t.instructions[i].client != t.instructions[j].client))
  }

  ghost predicate AllOnce(w: World) {
    forall s :: s in w.threads ==> OnceEach(w.threads[s], w.next)
  }

  lemma TouchedOnce(w: World, w': World, s: string)
    requires Touched(w, w', s) && (s in w.threads ==> OnceEach(w.threads[s], w.next))
    ensures OnceEach(w'.threads[s], w'.next)
  {
    if s in w.threads && w'.threads[s].instructions != w.threads[s].instructions {
      assert !exists step :: w'.threads[s] == Worked(w.threads[s], step);
      var action, client :| Controlled(w.threads[s], w'.threads[s], action, w.next, client)
                            && (action.Instruct? ==> w'.next > w.next && Fits(w, s, client));
      assert action.Instruct? || action == Clean;
    }
  }

  lemma StepKeepsOnce(w: World, e: Event)
    requires AllOnce(w)
    ensures AllOnce(Step(w, e))
  {
    forall s | s in Step(w, e).threads ensures OnceEach(Step(w, e).threads[s], Step(w, e).next) {
      StepTouches(w, e, s);
      TouchedOnce(w, Step(w, e), s);
    }
  }

  predicate Has(instructions: seq<Instruction>, client: string) {
    exists i :: 0 <= i < |instructions| && instructions[i].client == client
  }

  predicate HasClient(w: World, session: string, client: string) {
    session in w.threads && Has(w.threads[session].instructions, client)
  }

  predicate AcceptedHere(w: World, e: Event, session: string, client: string) {
    e.Ask? && e.session == session && e.client == client && Instructed(w, session, e.text, client, e.actor, e.now).Ok?
  }

  /** Some `instruct` of the run with this client ID was accepted. */
  ghost predicate AcceptedIn(w: World, es: seq<Event>, session: string, client: string)
    decreases |es|
  {
    es != [] &&
    (|| AcceptedIn(w, es[..|es| - 1], session, client)
     || AcceptedHere(Steps(w, es[..|es| - 1]), es[|es| - 1], session, client))
  }

  lemma HasMore(instructions: seq<Instruction>, i: Instruction, client: string)
    ensures Has(instructions + [i], client) <==> Has(instructions, client) || i.client == client
  {
    var more := instructions + [i];
    if Has(instructions, client) {
      var k :| 0 <= k < |instructions| && instructions[k].client == client;
      assert more[k].client == client;
    }
    assert more[|instructions|] == i;
  }

  lemma HasErased(instructions: seq<Instruction>, client: string)
    ensures Has(Erased(instructions), client) <==> Has(instructions, client)
  {
    if Has(instructions, client) {
      var k :| 0 <= k < |instructions| && instructions[k].client == client;
      assert Erased(instructions)[k].client == client;
    }
  }

  lemma ControlledHas(t: Thread, t': Thread, action: Action, id: nat, mine: string, client: string)
    requires Controlled(t, t', action, id, mine)
    ensures Has(t'.instructions, client) <==> Has(t.instructions, client) || (action.Instruct? && mine == client)
  {
    if action.Instruct? {
      HasMore(t.instructions, Instruction(id, mine, action.text), client);
    }
    HasErased(t.instructions, client);
  }

  lemma StepAccepts(w: World, e: Event, session: string, client: string)
    requires client != ""
    ensures HasClient(Step(w, e), session, client) <==>
              HasClient(w, session, client) || AcceptedHere(w, e, session, client)
  {
    match e {
      case Control(s, action, actor, now) =>
        if Apply(w, s, action, actor, now).Ok? {
          AppliedIs(w, s, action, actor, now.value, "");
          ControlledHas(w.threads[s], Step(w, e).threads[s], action, w.next, "", client);
        }
      case Ask(s, text, mine, actor, now) =>
        var r := Instructed(w, s, text, mine, actor, now);
        if r.Ok? {
          if FindInstruction(w.threads[s].instructions, mine) == None {
            AppliedIs(w, s, Instruct(Trim(text, false)), actor, now.value, mine);
            ControlledHas(w.threads[s], Step(w, e).threads[s], Instruct(Trim(text, false)), w.next, mine, client);
          } else {
            var i := FindInstruction(w.threads[s].instructions, mine).value;
            assert Has(w.threads[s].instructions, mine);
          }
        }
      case Open(_, _) =>
      case Supervise(_, _) =>
      case Other(_, _) =>
    }
  }

  /** Over every run from an empty store: a thread holds an instruction with a client ID exactly when an
      `instruct` with that ID was accepted, and it holds only one. */
  lemma {:induction false} QueuedAreAccepted(es: seq<Event>, session: string, client: string)
    requires client != ""
    ensures HasClient(Steps(World(map[], 0, []), es), session, client)
            <==> AcceptedIn(World(map[], 0, []), es, session, client)
    ensures AllOnce(Steps(World(map[], 0, []), es))
    decreases |es|
  {
    var w := World(map[], 0, []);
    RunKeepsOnce(es);
    if es != [] {
      var n := |es| - 1;
      QueuedAreAccepted(es[..n], session, client);
      StepAccepts(Steps(w, es[..n]), es[n], session, client);
    }
  }

  lemma {:induction false} RunKeepsOnce(es: seq<Event>)
    ensures AllOnce(Steps(World(map[], 0, []), es))
    decreases |es|
  {
    if es != [] {
      RunKeepsOnce(es[..|es| - 1]);
      StepKeepsOnce(Steps(World(map[], 0, []), es[..|es| - 1]), es[|es| - 1]);
    }
  }

  // ----- a repeated instruction -----

  /** The thread's instruction with a client ID still has inbox row `id` and text `text`. */
  predicate Holds(w: World, session: string, client: string, id: nat, text: string) {
    session in w.threads
        && FindInstruction(w.threads[session].instructions, client) == Some(Instruction(id, client, text))
  }

  predicate Cleans(e: Event, session: string) {
    e.Control? && e.session == session && e.action == Clean && e.actor == Owner && e.now.Some?
  }

  lemma {:induction false} FindMore(instructions: seq<Instruction>, i: Instruction, client: string)
    requires FindInstruction(instructions, client).Some?
    ensures FindInstruction(instructions + [i], client) == FindInstruction(instructions, client)
  {
    assert (instructions + [i])[..|instructions|] == instructions;
  }

  lemma {:induction false} FindErased(instructions: seq<Instruction>, client: string)
    ensures FindInstruction(Erased(instructions), client) ==
              match FindInstruction(instructions, client) case Some(i) => Some(i.(text := "")) case None => None
  {
    if instructions != [] {
      var last := |instructions| - 1;
      assert Erased(instructions)[..last] == Erased(instructions[..last]);
      FindErased(instructions[..last], client);
    }
  }

  /** An accepted instruction keeps its inbox row in every step, and its text except when cleaned. */
  lemma StepHolds(w: World, e: Event, session: string, client: string, id: nat, text: string)
    requires Holds(w, session, client, id, text)
    ensures Holds(Step(w, e), session, client, id, if Cleans(e, session) then "" else text)
  {
    var instructions := w.threads[session].instructions;
    match e {
      case Control(s, action, actor, now) =>
        if Apply(w, s, action, actor, now).Ok? {
          AppliedIs(w, s, action, actor, now.value, "");
          if s == session && action.Instruct? {
            FindMore(instructions, Instruction(w.next, "", action.text), client);
          } else if s == session && action == Clean {
            FindErased(instructions, client);
          }
        }
      case Ask(s, asked, mine, actor, now) =>
        var r := Instructed(w, s, asked, mine, actor, now);
        if r.Ok? && FindInstruction(w.threads[s].instructions, mine) == None {
          AppliedIs(w, s, Instruct(Trim(asked, false)), actor, now.value, mine);
          if s == session {
            FindMore(instructions, Instruction(w.next, mine, Trim(asked, false)), client);
          }
        }
      case Open(_, _) =>
      case Supervise(_, _) =>
      case Other(_, _) =>
    }
  }

  predicate CleanedIn(es: seq<Event>, session: string) {
    exists k :: 0 <= k < |es| && Cleans(es[k], session)
  }

  lemma CleanedMore(es: seq<Event>, e: Event, session: string)
    ensures CleanedIn(es + [e], session) <==> CleanedIn(es, session) || Cleans(e, session)
  {
    var more := es + [e];
    assert more[|es|] == e;
    if CleanedIn(es, session) {
      var k :| 0 <= k < |es| && Cleans(es[k], session);
      assert Cleans(more[k], session);
    }
    if CleanedIn(more, session) && !Cleans(e, session) {
      var k :| 0 <= k < |more| && Cleans(more[k], session);
      assert Cleans(es[k], session);
    }
  }

  /** The text a held instruction has after a run. */
  function Left(es: seq<Event>, session: string, text: string): string {
    if CleanedIn(es, session) then "" else text
  }

  lemma LeftMore(es: seq<Event>, e: Event, session: string, text: string)
    ensures Left(es + [e], session, text) == if Cleans(e, session) then "" else Left(es, session, text)
  {
    CleanedMore(es, e, session);
  }

  lemma {:induction false} StepsHold(w: World, es: seq<Event>, session: string, client: string, id: nat, text: string)
    requires Holds(w, session, client, id, text)
    ensures Holds(Steps(w, es), session, client, id, Left(es, session, text))
    decreases |es|
  {
    if es != [] {
      var before, e := es[..|es| - 1], es[|es| - 1];
      StepsHold(w, before, session, client, id, text);
      var between, left := Steps(w, before), Left(before, session, text);
      LeftMore(before, e, session, text);
      assert es == before + [e];
      StepHolds(between, e, session, client, id, left);
    }
  }

  lemma AcceptedHolds(w: World, session: string, text: string, client: string, now: Option<int>)
    requires Instructed(w, session, text, client, Owner, now).Ok?
    ensures var r := Instructed(w, session, text, client, Owner, now).value;
            Holds(r.0, session, client, r.1, Trim(text, false))
  {
    var asked := Trim(text, false);
    if FindInstruction(w.threads[session].instructions, client) == None {
      AppliedIs(w, session, Instruct(asked), Owner, now.value, client);
      var t := w.threads[session];
      assert (t.instructions + [Instruction(w.next, client, asked)])[..|t.instructions|] == t.instructions;
    }
  }

  lemma HeldIsRepeated(w: World, session: string, text: string, client: string, id: nat, stored: string, later: int)
    requires Holds(w, session, client, id, stored) && Askable(text, client, Owner, Some(later))
    ensures Instructed(w, session, text, client, Owner, Some(later)) == if stored == Trim(text, false) then Ok((w, id))
            else Err
  {
  }

  lemma HeldChangesNothing(w: World, session: string, text: string, client: string, id: nat, stored: string, later: int)
    requires Holds(w, session, client, id, stored) && Askable(text, client, Owner, Some(later))
    ensures Step(w, Ask(session, text, client, Owner, Some(later))) == w
  {
    HeldIsRepeated(w, session, text, client, id, stored, later);
  }

  lemma AcceptedIsAskable(w: World, session: string, text: string, client: string, now: Option<int>)
    requires Instructed(w, session, text, client, Owner, now).Ok?
    ensures forall later :: Askable(text, client, Owner, Some(later))
    ensures Trim(text, false) != ""
  {
  }

  /** Repeating an accepted instruction, after anything else has happened, changes nothing; it gives the
      original inbox row back exactly when the thread was not cleaned meanwhile, and is refused if it was. */
  lemma {:induction false} RepeatedInstruction(w: World, session: string, text: string, client: string,
                                               now: Option<int>, es: seq<Event>, later: int)
    requires Instructed(w, session, text, client, Owner, now).Ok?
    ensures var first := Instructed(w, session, text, client, Owner, now).value;
            var before := Steps(first.0, es);
            var again := Instructed(before, session, text, client, Owner, Some(later));
            && Step(before, Ask(session, text, client, Owner, Some(later))) == before
            && (again == Ok((before, first.1)) <==> !CleanedIn(es, session))
            && (again == Err <==> CleanedIn(es, session))
  {
    AcceptedHolds(w, session, text, client, now);
    var first := Instructed(w, session, text, client, Owner, now).value;
    var asked := Trim(text, false);
    var stored := Left(es, session, asked);
    var before := Steps(first.0, es);
    StepsHold(first.0, es, session, client, first.1, asked);
    AcceptedIsAskable(w, session, text, client, now);
    HeldIsRepeated(before, session, text, client, first.1, stored, later);
    HeldChangesNothing(before, session, text, client, first.1, stored, later);
  }

  // ----- the unit of work -----

  class Store {
    var threads: map<string, Thread>
    var next: nat
    var audit: seq<Audit>

    function State(): World
      reads this
    {
      World(threads, next, audit)
    }

    /** A unit of work that fails is discarded. */
    method Rollback(saved: World)
      modifies this
      ensures State() == saved
    {
      threads, next, audit := saved.threads, saved.next, saved.audit;
    }

    method Put(session: string, t: Thread)
      modifies this`threads
      ensures threads == old(threads)[session := t]
    {
      threads := threads[session := t];
    }

    /** The store's `queue_worker_stops`, for one thread. */
    method QueueWorkerStops(session: string)
      requires session in threads
      modifies this`threads
      ensures threads == old(threads)[session := old(threads)[session].(stops :=
                QueueStops(old(threads)[session].stops, old(threads)[session].live))]
    {
      var t := threads[session];
      var stops := t.stops;
      for i := 0 to |t.live|
        invariant stops == QueueStops(t.stops, t.live[..i])
      {
        assert t.live[..i + 1][..i] == t.live[..i];
        if t.live[i] !in stops {
          stops := stops + [t.live[i]];
        }
      }
      assert t.live[..|t.live|] == t.live;
      Put(session, t.(stops := stops));
    }

    /** src/threads/controls.rs:192-215: the rows every control sets. */
    method Rearrange(session: string, action: Action, mode: Mode, detail: Detail)
      requires session in threads
      modifies this`threads
      ensures threads == old(threads)[session := Rearranged(old(threads)[session], action, mode, detail)]
    {
      var t := SetControl(threads[session], mode, detail, mode == Active && action != Restore);
      if action == Resume {
        t := t.(turns := 0);
      } else if action == Retry && t.failed.Some? {
        t := t.(requeued := t.requeued + [t.failed.value], failed := None);
      } else if action.Instruct? {
        t := t.(blocked := false);
      }
      if mode == Active {
        t := t.(held := false);
      }
      Put(session, t);
    }

    /** src/threads/controls.rs:216-253. */
    method DoBesides(session: string, action: Action, client: string) returns (ok: bool)
      requires session in threads
      modifies this`threads, this`next
      ensures ok <==> Besides(old(threads)[session], action, old(next), client).Ok?
      ensures ok ==> threads == old(threads)[session := Besides(old(threads)[session], action, old(next), client).value]
      ensures ok ==> next == if action.Instruct? then old(next) + 1 else old(next)
    {
      if Stopping(action) {
        QueueWorkerStops(session);
        if action == Clean {
          Put(session, Wipe(threads[session]));
        }
      } else if action.Instruct? {
        if Trim(action.text, false) == "" {
          return false;
        }
        var asked := threads[session];
        Put(session, asked.(instructions := asked.instructions + [Instruction(next, client, action.text)]));
        next := next + 1;
      } else if action == Resume {
        Put(session, ResumeAt(threads[session]));
      }
      return true;
    }

    method TakeEffect(session: string, action: Action, mode: Mode, detail: Detail, client: string) returns (ok: bool)
      requires session in threads
      modifies this`threads, this`next
      ensures ok <==> Effect(old(threads)[session], action, mode, detail, old(next), client).Ok?
      ensures ok ==>
                threads == old(threads)[session := Effect(old(threads)[session], action, mode, detail, old(next),
                                                          client).value]
      ensures ok ==> next == if action.Instruct? then old(next) + 1 else old(next)
    {
      var nothing := action == Retry && threads[session].failed == None;
      Rearrange(session, action, mode, detail);
      if nothing {
        return false;
      }
      ok := DoBesides(session, action, client);
    }

    /** `apply_tx` (src/threads/controls.rs:92-268), inside the caller's unit of work: a refusal may leave
        rows half changed. */
    method ApplyTx(session: string, action: Action, actor: Authority, now: int, client: string)
      returns (r: Result<Option<nat>>)
      modifies this
      ensures r.Ok? <==> Applied(old(State()), session, action, actor, now, client).Ok?
      ensures r.Ok? ==> State() == Applied(old(State()), session, action, actor, now, client).value
      ensures r.Ok? ==> r.value == if action.Instruct? then Some(old(next)) else None
    {
      if session !in threads {
        return Err;
      }
      var decided := Decide(threads[session], action, actor, now);
      if decided.Err? {
        return Err;
      }
      var instruction := if action.Instruct? then Some(next) else None;
      var ok := TakeEffect(session, action, decided.value.0, decided.value.1, client);
      if !ok {
        return Err;
      }
      audit := audit + [Audit(now, actor, session, action)];
      return Ok(instruction);
    }

    /** `apply`: the whole control, or nothing. */
    method Control(session: string, action: Action, actor: Authority, now: Option<int>) returns (r: Result<()>)
      modifies this
      ensures r.Ok? <==> Apply(old(State()), session, action, actor, now).Ok?
      ensures State() == Step(old(State()), Event.Control(session, action, actor, now))
      ensures r.Err? ==> State() == old(State())
    {
      if now == None || actor != Owner {
        return Err;
      }
      var saved := State();
      var done := ApplyTx(session, action, actor, now.value, "");
      if done.Err? {
        Rollback(saved);
        return Err;
      }
      return Ok(());
    }

    /** `instruct`: one instruction for each client ID. */
    method InstructOnce(session: string, text: string, client: string, actor: Authority, now: Option<int>)
      returns (r: Result<nat>)
      modifies this
      ensures r == match Instructed(old(State()), session, text, client, actor, now)
                   case Ok(v) => Ok(v.1)
                   case Err => Err
      ensures State() == Step(old(State()), Ask(session, text, client, actor, now))
    {
      if !Askable(text, client, actor, now) || session !in threads {
        return Err;
      }
      var asked := Trim(text, false);
      var existing := FindInstruction(threads[session].instructions, client);
      if existing.Some? {
        if existing.value.text != asked {
          return Err;
        }
        return Ok(existing.value.id);
      }
      var saved := State();
      var done := ApplyTx(session, Instruct(asked), actor, now.value, client);
      if done.Err? {
        Rollback(saved);
        return Err;
      }
      return Ok(done.value.value);
    }
  }
}
