/** The approval broker (src/approvals/mod.rs): request tasks, owner decisions, expiry, cancellation
    and reconfiguration as interleaved steps over one lock and one table of durable rows.

    The store's half is taken by its contract: `begin_approval` answers at once for a worker that may
    not run or for an automatic decision, and otherwise inserts a pending row; settling and
    cancelling change pending rows only; a decision that comes too late expires the row. */
module ApprovalBroker {
  import opened Wrappers

  const PERMITS: nat := 128

  datatype Answer = Once | Session | Deny
  datatype Authority = Owner | System | DesktopReadOnly

  datatype Place = Place(machine: string, workspace: string)

  /** `timeout` is None when it is no representable duration. */
  datatype Policy = Policy(never: bool, promptless: bool, timeout: Option<nat>, rules: map<string, Answer>)
  datatype Config = Config(policies: map<Place, Policy>)
  datatype Ask = Ask(worker: string, place: Place, claude: bool, request: string)

  /** An approval carries the time and the configuration it was committed under. */
  datatype Status = Pending | Approved(session: bool, at: int, under: nat) | Denied | Expired | Cancelled
  datatype Row = Row(caller: nat, ask: Ask, version: nat, expires: int, status: Status)

  datatype Why = Rule(version: nat) | Committed(id: nat) | Refused
  /** An answer as given, and the configuration then in force. */
  datatype Given = Given(caller: nat, answer: Answer, why: Why, version: int)
  datatype Start = Immediate(answer: Answer, why: Why) | Waiting(id: nat)

  datatype Stage =
    | Spawned
    | Admitting(id: nat, automatic: Option<Answer>, expires: int)   // holds the configuration
    | Begun(start: Start)                                           // still holds it
    | Polling(id: nat) | Open(id: nat) | Looked(id: nat, seen: Row)

  datatype Task = Task(ask: Ask, stage: Stage)
  datatype Holder = Request(caller: nat) | Reload(config: Config)

  /** `configs` lists every configuration so far, the one in force last; `closed` are the callers
      who stopped waiting. */
  datatype World = World(configs: seq<Config>, holder: Option<Holder>, rows: map<nat, Row>, tasks: map<nat, Task>,
                         free: nat, answers: seq<Given>, asked: map<nat, Ask>, closed: set<nat>, now: int)

  datatype Event =
    | Arrive(r: nat, ask: Ask) | Admit(r: nat, id: nat) | Begin(r: nat, runnable: bool) | Release(r: nat)
    | Check(r: nat) | Look(r: nat) | Act(r: nat, timer: bool)
    | Fail(r: nat)                                  // a store error ends the request's own run without a reply
    | Drop(r: nat)
    | Decide(id: nat, answer: Answer, authority: Authority, fenced: bool)
    | Cancel(worker: string)
    | Withdraw(ids: set<nat>)                       // a stop, an interrupt or restart recovery
    | CancelAll(config: Config) | Adopt | Abandon   // the steps of `reconfigure`
    | Tick(to: int)

  function Automatic(p: Policy, a: Ask): Option<Answer> {
    if p.never || (a.claude && p.promptless) then Some(Deny)
    else if a.request in p.rules then Some(p.rules[a.request])
    else None
  }

  function Version(w: World): nat
    requires w.configs != []
  {
    |w.configs| - 1
  }

  function AnswerOf(s: Status): Answer {
    if s.Approved? then (if s.session then Session else Once) else Deny
  }

  function AnswerTo(w: World, r: nat, answer: Answer, why: Why): seq<Given> {
    if r in w.closed then w.answers else w.answers + [Given(r, answer, why, |w.configs| - 1)]
  }

  /** A request is done with: its permit and its lock come back, and a caller still there has its answer. */
  function Finish(w: World, r: nat, answer: Answer, why: Why): World {
    w.(tasks := w.tasks - {r}, free := w.free + 1, answers := AnswerTo(w, r, answer, why),
       holder := if w.holder == Some(Request(r)) then None else w.holder)
  }

  function Go(w: World, r: nat, stage: Stage): World
    requires r in w.tasks
  {
    w.(tasks := w.tasks[r := w.tasks[r].(stage := stage)])
  }

  /** `settle_approval`: only a pending row changes. */
  function Settle(w: World, id: nat, status: Status): World {
    if id in w.rows && w.rows[id].status == Pending then w.(rows := w.rows[id := w.rows[id].(status := status)])
    else w
  }

  /** What an owner's decision commits on a pending row. */
  function Verdict(row: Row, answer: Answer, fenced: bool, now: int, version: nat): Status {
    if now >= row.expires then Expired
    else if fenced then Cancelled
    else if answer == Deny then Denied
    else Approved(answer == Session, now, version)
  }

  predicate Withdrawn(row: Row, id: nat, ids: set<nat>) {
    row.status == Pending && id in ids
  }

  function WithdrawRows(rows: map<nat, Row>, ids: set<nat>): map<nat, Row> {
    map id | id in rows :: if Withdrawn(rows[id], id, ids) then rows[id].(status := Cancelled) else rows[id]
  }

  function OfWorker(rows: map<nat, Row>, worker: string): set<nat> {
    set id | id in rows && rows[id].ask.worker == worker
  }

  predicate At(w: World, r: nat) {
    r in w.tasks
  }

  function Arrived(w: World, r: nat, ask: Ask): World {
    if r in w.asked then w
    else if w.free == 0 then w.(asked := w.asked[r := ask], answers := AnswerTo(w, r, Deny, Refused))
    else w.(asked := w.asked[r := ask], tasks := w.tasks[r := Task(ask, Spawned)], free := w.free - 1)
  }

  /** Takes the configuration and works out the automatic decision. */
  function Admitted(w: World, r: nat, id: nat): World
    requires w.configs != []
  {
    if !At(w, r) || w.tasks[r].stage != Spawned || w.holder.Some? || id in w.rows then w
    else
      var config := w.configs[Version(w)];
      var ask := w.tasks[r].ask;
      if ask.place !in config.policies then Finish(w, r, Deny, Refused)
      else
        var policy := config.policies[ask.place];
        if policy.timeout.None? then Finish(w, r, Deny, Refused)
        else Go(w, r, Admitting(id, Automatic(policy, ask), w.now + policy.timeout.value)).(holder := Some(Request(r)))
  }

  /** `begin_approval`. */
  function Started(w: World, r: nat, runnable: bool): World
    requires w.configs != []
  {
    if !At(w, r) || !w.tasks[r].stage.Admitting? then w
    else
      var s := w.tasks[r].stage;
      if !runnable then Go(w, r, Begun(Immediate(Deny, Refused)))
      else if s.automatic.Some? then Go(w, r, Begun(Immediate(s.automatic.value, Rule(Version(w)))))
      else
        var row := Row(r, w.tasks[r].ask, Version(w), s.expires, Pending);
        Go(w, r, Begun(Waiting(s.id))).(rows := w.rows[s.id := row])
  }

  function Released(w: World, r: nat): World {
    if !At(w, r) || !w.tasks[r].stage.Begun? then w
    else match w.tasks[r].stage.start
      case Immediate(answer, why) => Finish(w, r, answer, why)
      case Waiting(id) => Go(w, r, Polling(id)).(holder := None)
  }

  function Acted(w: World, r: nat, timer: bool): World {
    if !At(w, r) || !w.tasks[r].stage.Looked? then w
    else
      var s := w.tasks[r].stage;
      if s.seen.status != Pending then Finish(w, r, AnswerOf(s.seen.status), Committed(s.id))
      else if w.now >= s.seen.expires || timer then Go(Settle(w, s.id, Expired), r, Polling(s.id))
      else Go(w, r, Polling(s.id))
  }

  /** One step; a step whose turn it is not changes nothing. */
  function Apply(w: World, e: Event): World
    requires w.configs != []
  {
    match e
    case Arrive(r, ask) => Arrived(w, r, ask)
    case Admit(r, id) => Admitted(w, r, id)
    case Begin(r, runnable) => Started(w, r, runnable)
    case Release(r) => Released(w, r)
    case Check(r) =>
      if !At(w, r) || !w.tasks[r].stage.Polling? then w
      else if r in w.closed then Finish(Settle(w, w.tasks[r].stage.id, Cancelled), r, Deny, Refused)
      else Go(w, r, Open(w.tasks[r].stage.id))
    case Look(r) =>
      if !At(w, r) || !w.tasks[r].stage.Open? || w.tasks[r].stage.id !in w.rows then w
      else Go(w, r, Looked(w.tasks[r].stage.id, w.rows[w.tasks[r].stage.id]))
    case Act(r, timer) => Acted(w, r, timer)
    case Fail(r) => if At(w, r) then Finish(w, r, Deny, Refused) else w
    case Drop(r) => if At(w, r) then w.(closed := w.closed + {r}) else w
    case Decide(id, answer, authority, fenced) =>
      if authority != Owner || w.holder.Some? || id !in w.rows then w
      else Settle(w, id, Verdict(w.rows[id], answer, fenced, w.now, Version(w)))
    case Cancel(worker) => w.(rows := WithdrawRows(w.rows, OfWorker(w.rows, worker)))
    case Withdraw(ids) => w.(rows := WithdrawRows(w.rows, ids))
    case CancelAll(config) =>
      if w.holder.Some? then w
      else w.(rows := WithdrawRows(w.rows, w.rows.Keys), holder := Some(Reload(config)))
    case Adopt =>
      if w.holder.Some? && w.holder.value.Reload? then
        w.(configs := w.configs + [w.holder.value.config], holder := None)
      else w
    case Abandon => if w.holder.Some? && w.holder.value.Reload? then w.(holder := None) else w
    case Tick(to) => if to < w.now then w else w.(now := to)
  }

  lemma ApplyKeepsConfigs(w: World, e: Event)
    requires w.configs != []
    ensures w.configs <= Apply(w, e).configs
  {
  }

  function Steps(w: World, es: seq<Event>): (w': World)
    requires w.configs != []
    ensures w.configs <= w'.configs
    decreases |es|
  {
    if es == [] then w
    else
      var last := |es| - 1;
      var before := Steps(w, es[..last]);
      ApplyKeepsConfigs(before, es[last]);
      Apply(before, es[last])
  }

  function Fresh(config: Config, now: int): World {
    World([config], None, map[], map[], PERMITS, [], map[], {}, now)
  }

  // ----- what every step keeps -----

  /** The lock's holder is the one request between taking and giving back the configuration. */
  ghost predicate Locked(w: World) {
    forall r :: r in w.tasks && (w.tasks[r].stage.Admitting? || w.tasks[r].stage.Begun?) ==>
          w.holder == Some(Request(r))
  }

  ghost predicate Admissible(w: World, r: nat)
    requires w.configs != [] && r in w.tasks && w.tasks[r].stage.Admitting?
  {
    var policies := w.configs[Version(w)].policies;
    && w.tasks[r].stage.id !in w.rows
    && w.tasks[r].ask.place in policies && policies[w.tasks[r].ask.place].timeout.Some?
    && w.tasks[r].stage.automatic == Automatic(policies[w.tasks[r].ask.place], w.tasks[r].ask)
  }

  ghost predicate Owns(w: World, r: nat, id: nat) {
    r in w.tasks && id in w.rows && w.rows[id].caller == r
  }

  ghost predicate Snapshot(w: World, id: nat, seen: Row) {
    id in w.rows && (seen.status != Pending ==> w.rows[id] == seen)
  }

  /** An answer's reason is true: the rule says so, or the caller's own committed row does. */
  ghost predicate Justified(w: World, r: nat, ask: Ask, answer: Answer, why: Why) {
    match why
    case Rule(v) =>
      && v < |w.configs| && ask.place in w.configs[v].policies
      && Automatic(w.configs[v].policies[ask.place], ask) == Some(answer)
    case Committed(id) =>
      && id in w.rows && w.rows[id].caller == r && w.rows[id].status != Pending
      && answer == AnswerOf(w.rows[id].status)
    case Refused => answer == Deny
  }

  /** A rule answers for the configuration with that number. */
  predicate RuleOf(why: Why, version: int) {
    why.Rule? ==> why.version == version
  }

  ghost predicate Settling(w: World, r: nat)
    requires w.configs != [] && r in w.tasks
  {
    match w.tasks[r].stage
    case Spawned => true
    case Admitting(id, automatic, expires) => Admissible(w, r)
    case Begun(start) =>
      (match start
       case Immediate(answer, why) => Justified(w, r, w.tasks[r].ask, answer, why) && RuleOf(why, |w.configs| - 1)
       case Waiting(id) => Owns(w, r, id))
    case Polling(id) => Owns(w, r, id)
    case Open(id) => Owns(w, r, id)
    case Looked(id, seen) => Owns(w, r, id) && Snapshot(w, id, seen)
  }

  ghost predicate TasksHold(w: World)
    requires w.configs != []
  {
    forall r :: r in w.tasks ==> TaskHolds(w, r)
  }

  /** Every pending row was begun under the configuration in force, and none is left while it changes;
      an approval was committed before the row expired, under the configuration it was begun under. */
  ghost predicate RowHolds(w: World, row: Row)
    requires w.configs != []
  {
    && row.version <= Version(w)
    && (row.status == Pending ==> row.version == Version(w) && !(w.holder.Some? && w.holder.value.Reload?))
    && (row.status.Approved? ==> row.status.under == row.version && row.status.at < row.expires)
  }

  ghost predicate RowsHold(w: World)
    requires w.configs != []
  {
    forall id :: id in w.rows ==> RowHolds(w, w.rows[id])
  }

  ghost predicate Answered(w: World, r: nat) {
    exists i :: 0 <= i < |w.answers| && w.answers[i].caller == r
  }

  ghost predicate AnswersHold(w: World) {
    && (forall i :: 0 <= i < |w.answers| ==>
          && w.answers[i].caller in w.asked && w.answers[i].caller !in w.tasks
          && Justified(w, w.answers[i].caller, w.asked[w.answers[i].caller], w.answers[i].answer, w.answers[i].why)
          && RuleOf(w.answers[i].why, w.answers[i].version))
    && (forall i, j :: 0 <= i < j < |w.answers| ==> w.answers[i].caller != w.answers[j].caller)
  }

  /** Nobody is forgotten: whoever asked is being served, has an answer or has gone. */
  ghost predicate NobodyForgotten(w: World) {
    forall r :: r in w.asked ==> r in w.tasks || r in w.closed || Answered(w, r)
  }

  ghost predicate PermitsHold(w: World) {
    w.free + |w.tasks| == PERMITS
  }

  ghost predicate Inv(w: World) {
    && w.configs != [] && Locked(w) && TasksHold(w) && RowsHold(w) && AnswersHold(w)
    && NobodyForgotten(w) && PermitsHold(w)
  }

  /** Settled rows never change, and no row, caller or configuration goes away. */
  ghost predicate RowsGrow(w: World, w': World) {
    forall id :: id in w.rows ==>
      && id in w'.rows && w'.rows[id].caller == w.rows[id].caller
      && (w.rows[id].status != Pending ==> w'.rows[id] == w.rows[id])
  }

  lemma JustifiedStays(w: World, w': World, r: nat, ask: Ask, answer: Answer, why: Why)
    requires Grows(w, w') && Justified(w, r, ask, answer, why)
    ensures Justified(w', r, ask, answer, why)
  {
  }

  /** Whose task a step may change. */
  function Actor(e: Event): Option<nat> {
    match e
    case Arrive(r, _) => Some(r)
    case Admit(r, _) => Some(r)
    case Begin(r, _) => Some(r)
    case Release(r) => Some(r)
    case Check(r) => Some(r)
    case Look(r) => Some(r)
    case Act(r, _) => Some(r)
    case Fail(r) => Some(r)
    case _ => None
  }

  ghost predicate Moved(w: World, w': World, r: nat) {
    && r in w'.tasks && w'.tasks == w.tasks[r := w'.tasks[r]]
    && w'.free == (if r in w.tasks then w.free else w.free - 1)
    && (r in w.tasks || r !in w.asked)
  }

  ghost predicate Left(w: World, w': World, r: nat) {
    r in w.tasks && w'.tasks == w.tasks - {r} && w'.free == w.free + 1
  }

  /** A step changes at most its actor's task, and the permits with it. */
  ghost predicate Shape(w: World, e: Event, w': World) {
    || (w'.tasks == w.tasks && w'.free == w.free)
    || (Actor(e).Some? && (Moved(w, w', Actor(e).value) || Left(w, w', Actor(e).value)))
  }

  /** Whoever is no longer served, or never was, has the last answer or has gone. */
  ghost predicate LeaversAnswered(w: World, w': World) {
    forall r :: (r in w.tasks || r !in w.asked) && r in w'.asked && r !in w'.tasks && r !in w'.closed ==>
      w'.answers != [] && w'.answers[|w'.answers| - 1].caller == r
  }

  ghost predicate AskedGrow(w: World, w': World) {
    forall r :: r in w.asked ==> r in w'.asked && w'.asked[r] == w.asked[r]
  }

  ghost predicate Grows(w: World, w': World) {
    w.configs <= w'.configs && w.closed <= w'.closed && RowsGrow(w, w') && AskedGrow(w, w')
  }

  /** While some request holds the configuration, only its own begin adds a row. */
  ghost predicate HolderAlone(w: World, e: Event, w': World) {
    forall r: nat :: w.holder == Some(Request(r)) && Actor(e) != Some(r) ==>
      w'.configs == w.configs && forall id :: id in w'.rows ==> id in w.rows
  }

  /** What holds of every single step. */
  ghost predicate Steady(w: World, e: Event, w': World) {
    && w'.configs != [] && Locked(w') && RowsHold(w') && Grows(w, w') && Shape(w, e, w') && LeaversAnswered(w, w')
    && HolderAlone(w, e, w')
  }

  lemma FinishSteady(w: World, e: Event, r: nat, answer: Answer, why: Why)
    requires Inv(w) && r in w.tasks && Actor(e) == Some(r)
    ensures Steady(w, e, Finish(w, r, answer, why))
  {
  }

  lemma SettleSteady(w: World, id: nat, status: Status)
    requires Inv(w) && status != Pending
    requires status.Approved? && id in w.rows ==> status.under == Version(w) && status.at < w.rows[id].expires
    ensures forall e :: Steady(w, e, Settle(w, id, status))
  {
  }

  lemma WithdrawSteady(w: World, ids: set<nat>)
    requires Inv(w)
    ensures forall e :: Steady(w, e, w.(rows := WithdrawRows(w.rows, ids)))
  {
  }

  lemma ArriveSteady(w: World, r: nat, ask: Ask)
    requires Inv(w)
    ensures Steady(w, Arrive(r, ask), Arrived(w, r, ask))
  {
  }

  lemma AdmitSteady(w: World, r: nat, id: nat)
    requires Inv(w)
    ensures Steady(w, Admit(r, id), Admitted(w, r, id))
  {
    if r in w.tasks {
      FinishSteady(w, Admit(r, id), r, Deny, Refused);
    }
  }

  lemma BeginSteady(w: World, r: nat, runnable: bool)
    requires Inv(w)
    ensures Steady(w, Begin(r, runnable), Started(w, r, runnable))
  {
    if r in w.tasks {
      assert Settling(w, r);
    }
  }

  lemma ReleaseSteady(w: World, r: nat)
    requires Inv(w)
    ensures Steady(w, Release(r), Released(w, r))
  {
    if r in w.tasks && w.tasks[r].stage.Begun? && w.tasks[r].stage.start.Immediate? {
      FinishSteady(w, Release(r), r, w.tasks[r].stage.start.answer, w.tasks[r].stage.start.why);
    }
  }

  /** Settling a row and ending its task. */
  lemma CancelledSteady(w: World, r: nat, id: nat)
    requires Inv(w) && r in w.tasks
    ensures Steady(w, Check(r), Finish(Settle(w, id, Cancelled), r, Deny, Refused))
  {
    SettleSteady(w, id, Cancelled);
    assert Steady(w, Check(r), Settle(w, id, Cancelled));
    FinishSteady(w, Check(r), r, Deny, Refused);
  }

  /** Settling a row and going on polling. */
  lemma ExpiredSteady(w: World, r: nat, timer: bool, id: nat)
    requires Inv(w) && r in w.tasks && w.tasks[r].stage.Looked?
    ensures Steady(w, Act(r, timer), Go(Settle(w, id, Expired), r, Polling(id)))
  {
    SettleSteady(w, id, Expired);
    assert Steady(w, Act(r, timer), Settle(w, id, Expired));
  }

  lemma ActSteady(w: World, r: nat, timer: bool)
    requires Inv(w)
    ensures Steady(w, Act(r, timer), Acted(w, r, timer))
  {
    if r in w.tasks && w.tasks[r].stage.Looked? {
      var s := w.tasks[r].stage;
      FinishSteady(w, Act(r, timer), r, AnswerOf(s.seen.status), Committed(s.id));
      ExpiredSteady(w, r, timer, s.id);
    }
  }

  lemma DecideSteady(w: World, e: Event)
    requires Inv(w) && e.Decide?
    ensures Steady(w, e, Apply(w, e))
  {
    if e.id in w.rows && w.holder == None {
      SettleSteady(w, e.id, Verdict(w.rows[e.id], e.answer, e.fenced, w.now, Version(w)));
    }
  }

  lemma CancelAllSteady(w: World, config: Config)
    requires Inv(w)
    ensures Steady(w, CancelAll(config), Apply(w, CancelAll(config)))
  {
  }

  lemma ReloadedSteady(w: World, e: Event)
    requires Inv(w) && (e.Adopt? || e.Abandon?)
    ensures Steady(w, e, Apply(w, e))
  {
  }

  lemma OpenSteady(w: World, r: nat)
    requires Inv(w) && r in w.tasks && w.tasks[r].stage.Polling?
    ensures Steady(w, Check(r), Go(w, r, Open(w.tasks[r].stage.id)))
  {
  }

  lemma SameSteady(w: World, e: Event)
    requires Inv(w)
    ensures Steady(w, e, w)
  {
  }

  lemma CheckSteady(w: World, r: nat)
    requires Inv(w)
    ensures Steady(w, Check(r), Apply(w, Check(r)))
  {
    if r in w.tasks && w.tasks[r].stage.Polling? {
      if r in w.closed {
        CancelledSteady(w, r, w.tasks[r].stage.id);
      } else {
        OpenSteady(w, r);
      }
    } else {
      SameSteady(w, Check(r));
    }
  }

  lemma LookSteady(w: World, r: nat)
    requires Inv(w)
    ensures Steady(w, Look(r), Apply(w, Look(r)))
  {
  }

  lemma QuietSteady(w: World, e: Event)
    requires Inv(w) && (e.Drop? || e.Tick?)
    ensures Steady(w, e, Apply(w, e))
  {
  }

  lemma FailSteady(w: World, r: nat)
    requires Inv(w)
    ensures Steady(w, Fail(r), Apply(w, Fail(r)))
  {
    if r in w.tasks {
      FinishSteady(w, Fail(r), r, Deny, Refused);
    }
  }

  lemma WithdrawsSteady(w: World, e: Event)
    requires Inv(w) && (e.Cancel? || e.Withdraw?)
    ensures Steady(w, e, Apply(w, e))
  {
    if e.Cancel? {
      WithdrawSteady(w, OfWorker(w.rows, e.worker));
    } else {
      WithdrawSteady(w, e.ids);
    }
  }

  lemma StepSteady(w: World, e: Event)
    requires Inv(w)
    ensures Steady(w, e, Apply(w, e))
  {
    match e {
      case Arrive(r, ask) => ArriveSteady(w, r, ask);
      case Admit(r, id) => AdmitSteady(w, r, id);
      case Begin(r, runnable) => BeginSteady(w, r, runnable);
      case Release(r) => ReleaseSteady(w, r);
      case Check(r) => CheckSteady(w, r);
      case Look(r) => LookSteady(w, r);
      case Act(r, timer) => ActSteady(w, r, timer);
      case Fail(r) => FailSteady(w, r);
      case Drop(_) => QuietSteady(w, e);
      case Decide(_, _, _, _) => DecideSteady(w, e);
      case Cancel(_) => WithdrawsSteady(w, e);
      case Withdraw(_) => WithdrawsSteady(w, e);
      case CancelAll(config) => CancelAllSteady(w, config);
      case Adopt => ReloadedSteady(w, e);
      case Abandon => ReloadedSteady(w, e);
      case Tick(_) => QuietSteady(w, e);
    }
  }

  /** A task that is not at its turn keeps what holds of it. */
  lemma SettlingStays(w: World, e: Event, w': World, r: nat)
    requires Inv(w) && Steady(w, e, w') && Actor(e) != Some(r)
    requires r in w.tasks && r in w'.tasks && w'.tasks[r] == w.tasks[r]
    ensures Settling(w', r)
  {
    assert Settling(w, r);
    var stage := w.tasks[r].stage;
    if stage.Begun? && stage.start.Immediate? {
      JustifiedStays(w, w', r, w.tasks[r].ask, stage.start.answer, stage.start.why);
    } else if stage.Admitting? {
      assert w.holder == Some(Request(r));
      assert w'.configs == w.configs;
    }
  }

  lemma AdmitSettles(w: World, r: nat, id: nat)
    requires Inv(w) && r in w.tasks && r in Admitted(w, r, id).tasks
    ensures Settling(Admitted(w, r, id), r)
  {
    assert Settling(w, r);
  }

  lemma BeginSettles(w: World, r: nat, runnable: bool)
    requires Inv(w) && r in w.tasks
    ensures r in Started(w, r, runnable).tasks && Settling(Started(w, r, runnable), r)
  {
    assert Settling(w, r);
  }

  lemma ActSettles(w: World, r: nat, timer: bool)
    requires Inv(w) && r in w.tasks && r in Acted(w, r, timer).tasks
    ensures Settling(Acted(w, r, timer), r)
  {
    assert Settling(w, r);
  }

  lemma TurnSettles(w: World, e: Event, r: nat)
    requires Inv(w) && r in w.tasks && r in Apply(w, e).tasks && Actor(e) == Some(r)
    ensures Settling(Apply(w, e), r)
  {
    assert Settling(w, r);
    match e {
      case Admit(_, id) => AdmitSettles(w, r, id);
      case Begin(_, runnable) => BeginSettles(w, r, runnable);
      case Act(_, timer) => ActSettles(w, r, timer);
      case _ =>
    }
  }

  lemma ArrivalSettles(w: World, r: nat, ask: Ask)
    requires Inv(w) && r !in w.tasks && r in Arrived(w, r, ask).tasks
    ensures r in Arrived(w, r, ask).asked && Arrived(w, r, ask).tasks[r].ask == Arrived(w, r, ask).asked[r]
    ensures Settling(Arrived(w, r, ask), r)
  {
  }

  ghost predicate TaskHolds(w: World, r: nat)
    requires w.configs != [] && r in w.tasks
  {
    r in w.asked && w.tasks[r].ask == w.asked[r] && Settling(w, r)
  }

  lemma OthersHold(w: World, e: Event, w': World, r: nat)
    requires Inv(w) && Steady(w, e, w') && r in w'.tasks && Actor(e) != Some(r)
    ensures TaskHolds(w', r)
  {
    SettlingStays(w, e, w', r);
  }

  lemma ActorHolds(w: World, e: Event, r: nat)
    requires Inv(w) && r in Apply(w, e).tasks && Actor(e) == Some(r) && Apply(w, e).configs != []
    ensures TaskHolds(Apply(w, e), r)
  {
    if r in w.tasks {
      TurnSettles(w, e, r);
    } else {
      assert e.Arrive?;
      ArrivalSettles(w, r, e.ask);
    }
  }

  lemma StepTasks(w: World, e: Event)
    requires Inv(w)
    ensures TasksHold(Apply(w, e))
  {
    StepSteady(w, e);
    var w' := Apply(w, e);
    forall r | r in w'.tasks ensures TaskHolds(w', r) {
      if Actor(e) == Some(r) {
        ActorHolds(w, e, r);
      } else {
        OthersHold(w, e, w', r);
      }
    }
  }

  /** The answers after a step: as before, or one more for a caller who is no longer served or never was. */
  ghost predicate OneMore(w: World, w': World) {
    || w'.answers == w.answers
    || exists g: Given ::
         && w'.answers == w.answers + [g] && g.caller !in w'.tasks && g.caller in w'.asked
         && (g.caller in w.tasks || g.caller !in w.asked)
         && Justified(w', g.caller, w'.asked[g.caller], g.answer, g.why) && RuleOf(g.why, g.version)
  }

  lemma FinishAnswers(w: World, r: nat, answer: Answer, why: Why)
    requires Inv(w) && r in w.tasks && Justified(w, r, w.asked[r], answer, why) && RuleOf(why, |w.configs| - 1)
    ensures OneMore(w, Finish(w, r, answer, why))
  {
    var w' := Finish(w, r, answer, why);
    JustifiedStays(w, w', r, w.asked[r], answer, why);
    if r !in w.closed {
      var g := Given(r, answer, why, |w.configs| - 1);
      assert w'.answers == w.answers + [g];
    }
  }

  lemma ArriveAnswers(w: World, r: nat, ask: Ask)
    requires Inv(w)
    ensures OneMore(w, Arrived(w, r, ask))
  {
    var w' := Arrived(w, r, ask);
    if w'.answers != w.answers {
      assert w'.answers == w.answers + [Given(r, Deny, Refused, |w.configs| - 1)];
    }
  }

  lemma ReleaseAnswers(w: World, r: nat)
    requires Inv(w)
    ensures OneMore(w, Released(w, r))
  {
    if r in w.tasks && w.tasks[r].stage.Begun? && w.tasks[r].stage.start.Immediate? {
      assert Settling(w, r);
      FinishAnswers(w, r, w.tasks[r].stage.start.answer, w.tasks[r].stage.start.why);
    }
  }

  lemma ActAnswers(w: World, r: nat, timer: bool)
    requires Inv(w)
    ensures OneMore(w, Acted(w, r, timer))
  {
    if r in w.tasks && w.tasks[r].stage.Looked? && w.tasks[r].stage.seen.status != Pending {
      assert Settling(w, r);
      FinishAnswers(w, r, AnswerOf(w.tasks[r].stage.seen.status), Committed(w.tasks[r].stage.id));
    }
  }

  lemma AdmitAnswers(w: World, r: nat, id: nat)
    requires Inv(w)
    ensures OneMore(w, Admitted(w, r, id))
  {
    if r in w.tasks {
      FinishAnswers(w, r, Deny, Refused);
    }
  }

  lemma StepAnswersOneMore(w: World, e: Event)
    requires Inv(w)
    ensures OneMore(w, Apply(w, e))
  {
    match e {
      case Arrive(r, ask) => ArriveAnswers(w, r, ask);
      case Admit(r, id) => AdmitAnswers(w, r, id);
      case Release(r) => ReleaseAnswers(w, r);
      case Act(r, timer) => ActAnswers(w, r, timer);
      case Fail(r) =>
        if r in w.tasks { FinishAnswers(w, r, Deny, Refused); }
      case _ =>
        assert Apply(w, e).answers == w.answers;
    }
  }

  ghost predicate OnlyNewcomers(w: World, w': World) {
    forall r :: r in w'.tasks ==> r in w.tasks || r !in w.asked
  }

  lemma AnswersKept(w: World, w': World)
    requires AnswersHold(w) && Grows(w, w') && OneMore(w, w') && OnlyNewcomers(w, w')
    requires forall r :: r in w.tasks ==> r in w.asked
    ensures AnswersHold(w')
  {
    forall i | 0 <= i < |w.answers|
      ensures w.answers[i].caller in w'.asked && w.answers[i].caller !in w'.tasks
      ensures w'.asked[w.answers[i].caller] == w.asked[w.answers[i].caller]
      ensures Justified(w', w.answers[i].caller, w.asked[w.answers[i].caller], w.answers[i].answer, w.answers[i].why)
    {
      var g := w.answers[i];
      JustifiedStays(w, w', g.caller, w.asked[g.caller], g.answer, g.why);
    }
  }

  lemma StepAnswers(w: World, e: Event)
    requires Inv(w)
    ensures AnswersHold(Apply(w, e))
  {
    StepSteady(w, e);
    StepAnswersOneMore(w, e);
    AnswersKept(w, Apply(w, e));
  }

  lemma AnsweredStays(w: World, w': World, r: nat)
    requires OneMore(w, w') && Answered(w, r)
    ensures Answered(w', r)
  {
    var i :| 0 <= i < |w.answers| && w.answers[i].caller == r;
    assert w'.answers[i] == w.answers[i];
  }

  lemma ForgetsKept(w: World, e: Event, w': World)
    requires Inv(w) && Steady(w, e, w') && OneMore(w, w')
    ensures NobodyForgotten(w')
  {
    forall r | r in w'.asked ensures r in w'.tasks || r in w'.closed || Answered(w', r) {
      if r in w.asked && r !in w.tasks {
        if r !in w.closed {
          AnsweredStays(w, w', r);
        }
      } else if r !in w'.tasks && r !in w'.closed {
        assert w'.answers[|w'.answers| - 1].caller == r;
      }
    }
  }

  lemma StepForgets(w: World, e: Event)
    requires Inv(w)
    ensures NobodyForgotten(Apply(w, e))
  {
    StepSteady(w, e);
    StepAnswersOneMore(w, e);
    ForgetsKept(w, e, Apply(w, e));
  }

  lemma AddTask(m: map<nat, Task>, r: nat, t: Task)
    ensures |m[r := t]| == if r in m then |m| else |m| + 1
  {
    assert m[r := t].Keys == m.Keys + {r};
  }

  lemma RemoveTask(m: map<nat, Task>, r: nat)
    requires r in m
    ensures |m - {r}| == |m| - 1
  {
    assert (m - {r}).Keys == m.Keys - {r};
  }

  lemma PermitsKept(w: World, e: Event, w': World)
    requires PermitsHold(w) && Shape(w, e, w')
    ensures PermitsHold(w')
  {
    if Actor(e).Some? {
      var r := Actor(e).value;
      if r in w'.tasks {
        AddTask(w.tasks, r, w'.tasks[r]);
      }
      if r in w.tasks {
        RemoveTask(w.tasks, r);
      }
    }
  }

  lemma StepInv(w: World, e: Event)
    requires Inv(w)
    ensures Inv(Apply(w, e))
  {
    StepSteady(w, e);
    StepTasks(w, e);
    StepAnswers(w, e);
    StepForgets(w, e);
    PermitsKept(w, e, Apply(w, e));
  }

  lemma GrowsTrans(a: World, b: World, c: World)
    requires Grows(a, b) && Grows(b, c)
    ensures Grows(a, c)
  {
  }

  lemma {:induction false} StepsFrom(w: World, es: seq<Event>)
    requires Inv(w)
    ensures Inv(Steps(w, es)) && Grows(w, Steps(w, es))
    decreases |es|
  {
    if es != [] {
      var last := |es| - 1;
      StepsFrom(w, es[..last]);
      StepInv(Steps(w, es[..last]), es[last]);
      StepSteady(Steps(w, es[..last]), es[last]);
      GrowsTrans(w, Steps(w, es[..last]), Steps(w, es));
    }
  }

  lemma {:induction false} StepsKeepInv(config: Config, now: int, es: seq<Event>)
    ensures Inv(Steps(Fresh(config, now), es))
  {
    StepsFrom(Fresh(config, now), es);
  }

  // ----- over every interleaving -----

  /** A settled row never changes again, whatever happens after. */
  lemma {:induction false} SettledForGood(config: Config, now: int, es: seq<Event>, more: seq<Event>, id: nat)
    requires id in Steps(Fresh(config, now), es).rows && Steps(Fresh(config, now), es).rows[id].status != Pending
    ensures id in Steps(Fresh(config, now), es + more).rows
    ensures Steps(Fresh(config, now), es + more).rows[id] == Steps(Fresh(config, now), es).rows[id]
  {
    StepsKeepInv(config, now, es);
    StepsFrom(Steps(Fresh(config, now), es), more);
    StepsConcat(Fresh(config, now), es, more);
  }

  /** A caller gets at most one answer. */
  lemma {:induction false} OneAnswerEach(config: Config, now: int, es: seq<Event>, i: nat, j: nat)
    requires i < |Steps(Fresh(config, now), es).answers| && j < |Steps(Fresh(config, now), es).answers|
    requires Steps(Fresh(config, now), es).answers[i].caller == Steps(Fresh(config, now), es).answers[j].caller
    ensures i == j
  {
    StepsKeepInv(config, now, es);
  }

  // ----- rows are asked of the owner only where the policy has it so -----

  /** Each row is its caller's request, begun under a configuration that asks the owner about it. */
  ghost predicate RowsAsked(w: World) {
    forall id :: id in w.rows ==> RowAsked(w, w.rows[id])
  }

  ghost predicate RowAsked(w: World, row: Row) {
    && row.caller in w.asked && w.asked[row.caller] == row.ask
    && row.version < |w.configs| && AsksOwner(w.configs[row.version], row.ask)
  }

  lemma RowAskedStays(w: World, w': World, row: Row, row': Row)
    requires Grows(w, w') && RowAsked(w, row)
    requires row'.caller == row.caller && row'.ask == row.ask && row'.version == row.version
    ensures RowAsked(w', row')
  {
  }

  /** Every step but a begin leaves each row's request as it is, and adds none. */
  lemma RequestsStay(w: World, e: Event)
    requires w.configs != [] && !e.Begin?
    ensures var w' := Apply(w, e);
            forall id :: id in w'.rows ==>
              && id in w.rows && w'.rows[id].caller == w.rows[id].caller
              && w'.rows[id].ask == w.rows[id].ask && w'.rows[id].version == w.rows[id].version
  {
  }

  lemma BeginAsks(w: World, r: nat, runnable: bool)
    requires Inv(w) && RowsAsked(w)
    ensures RowsAsked(Started(w, r, runnable))
  {
    if r in w.tasks && w.tasks[r].stage.Admitting? {
      assert TaskHolds(w, r);
      assert Admissible(w, r);
    }
  }

  /** The one row a begin may add is asked of the owner under the configuration it holds. */
  lemma StepAsks(w: World, e: Event)
    requires Inv(w) && RowsAsked(w)
    ensures RowsAsked(Apply(w, e))
  {
    if e.Begin? {
      BeginAsks(w, e.r, e.runnable);
    } else {
      StepSteady(w, e);
      RequestsStay(w, e);
      var w' := Apply(w, e);
      forall id | id in w'.rows ensures RowAsked(w', w'.rows[id]) {
        RowAskedStays(w, w', w.rows[id], w'.rows[id]);
      }
    }
  }

  lemma {:induction false} StepsAsk(config: Config, now: int, es: seq<Event>)
    ensures RowsAsked(Steps(Fresh(config, now), es))
    decreases |es|
  {
    if es != [] {
      StepsKeepInv(config, now, es[..|es| - 1]);
      StepsAsk(config, now, es[..|es| - 1]);
      StepAsks(Steps(Fresh(config, now), es[..|es| - 1]), es[|es| - 1]);
    }
  }

  /** What lets a caller go ahead: a rule of the configuration in force when it was answered, or the caller's
      own row, approved with that scope before it expired and under the configuration it was begun under. */
  ghost predicate MayGoAhead(w: World, g: Given)
    requires g.caller in w.asked
  {
    || (0 <= g.version < |w.configs| && RuleSays(w.configs[g.version], w.asked[g.caller], g.answer))
    || (exists id :: id in w.rows && ApprovedRow(w.rows[id], g.caller, g.answer))
  }

  /** The configuration lets a request there go ahead at all: approvals are not off, and a Claude worker is one that
      may be asked about. */
  predicate Allows(config: Config, ask: Ask) {
    && ask.place in config.policies && !config.policies[ask.place].never
    && !(ask.claude && config.policies[ask.place].promptless)
  }

  /** ... and one of its rules gives this answer to the request. */
  predicate RuleSays(config: Config, ask: Ask, answer: Answer) {
    && Allows(config, ask) && ask.request in config.policies[ask.place].rules
    && config.policies[ask.place].rules[ask.request] == answer
  }

  /** ... or no rule does, so that the owner is asked. */
  predicate AsksOwner(config: Config, ask: Ask) {
    Allows(config, ask) && ask.request !in config.policies[ask.place].rules && config.policies[ask.place].timeout.Some?
  }

  ghost predicate ApprovedRow(row: Row, r: nat, answer: Answer) {
    && row.caller == r && row.status.Approved? && answer == (if row.status.session then Session else Once)
    && row.status.at < row.expires && row.status.under == row.version
  }

  /** A caller who is told Once or Session has the policy or a committed approval behind it. */
  lemma {:induction false} GoAheadIsBacked(config: Config, now: int, es: seq<Event>, i: nat)
    requires i < |Steps(Fresh(config, now), es).answers| && Steps(Fresh(config, now), es).answers[i].answer != Deny
    ensures var w := Steps(Fresh(config, now), es);
            w.answers[i].caller in w.asked && MayGoAhead(w, w.answers[i])
  {
    StepsKeepInv(config, now, es);
    var w := Steps(Fresh(config, now), es);
    var g := w.answers[i];
    assert Justified(w, g.caller, w.asked[g.caller], g.answer, g.why);
    match g.why {
      case Rule(v) => assert RuleSays(w.configs[v], w.asked[g.caller], g.answer);
      case Committed(id) =>
        assert RowHolds(w, w.rows[id]);
        assert ApprovedRow(w.rows[id], g.caller, g.answer);
      case Refused =>
    }
  }

  /** A caller is told Once or Session only under a configuration that allows it: by a rule of the one then in
      force, or by its own approved row under one that asks the owner. A request that approvals are off for, or
      a Claude one without prompts, is never told either. */
  lemma {:induction false} GoAheadIsAllowed(config: Config, now: int, es: seq<Event>, i: nat)
    requires i < |Steps(Fresh(config, now), es).answers| && Steps(Fresh(config, now), es).answers[i].answer != Deny
    ensures var w := Steps(Fresh(config, now), es);
            var g := w.answers[i];
            && g.caller in w.asked && !g.why.Refused?
            && (g.why.Rule? ==>
                  0 <= g.version < |w.configs| && RuleSays(w.configs[g.version], w.asked[g.caller], g.answer))
            && (g.why.Committed? ==>
                  && g.why.id in w.rows && ApprovedRow(w.rows[g.why.id], g.caller, g.answer)
                  && w.rows[g.why.id].version < |w.configs|
                  && AsksOwner(w.configs[w.rows[g.why.id].version], w.asked[g.caller]))
    ensures var w := Steps(Fresh(config, now), es);
            exists v :: 0 <= v < |w.configs| && Allows(w.configs[v], w.asked[w.answers[i].caller])
  {
    StepsKeepInv(config, now, es);
    StepsAsk(config, now, es);
    var w := Steps(Fresh(config, now), es);
    var g := w.answers[i];
    assert Justified(w, g.caller, w.asked[g.caller], g.answer, g.why);
    assert RuleOf(g.why, g.version);
    if g.why.Committed? {
      assert RowHolds(w, w.rows[g.why.id]) && RowAsked(w, w.rows[g.why.id]);
      assert Allows(w.configs[w.rows[g.why.id].version], w.asked[g.caller]);
    } else {
      assert Allows(w.configs[g.version], w.asked[g.caller]);
    }
  }

  /** A row is pending only where the configuration in force asks the owner about its request. */
  lemma {:induction false} PendingIsAsked(config: Config, now: int, es: seq<Event>, id: nat)
    requires id in Steps(Fresh(config, now), es).rows && Steps(Fresh(config, now), es).rows[id].status == Pending
    ensures var w := Steps(Fresh(config, now), es);
            var row := w.rows[id];
            && AsksOwner(w.configs[|w.configs| - 1], row.ask)
            && row.caller in w.asked && w.asked[row.caller] == row.ask
  {
    StepsAsk(config, now, es);
    PendingIsCurrent(config, now, es, id);
    var w := Steps(Fresh(config, now), es);
    assert RowAsked(w, w.rows[id]);
  }

  /** Every pending row was begun under the configuration in force, with no reload under way. */
  lemma {:induction false} PendingIsCurrent(config: Config, now: int, es: seq<Event>, id: nat)
    requires id in Steps(Fresh(config, now), es).rows && Steps(Fresh(config, now), es).rows[id].status == Pending
    ensures var w := Steps(Fresh(config, now), es);
            w.rows[id].version == Version(w) && !(w.holder.Some? && w.holder.value.Reload?)
  {
    StepsKeepInv(config, now, es);
    var w := Steps(Fresh(config, now), es);
    assert RowHolds(w, w.rows[id]);
  }

  /** There are never more than 128 request tasks. */
  lemma {:induction false} TasksAreBounded(config: Config, now: int, es: seq<Event>)
    ensures |Steps(Fresh(config, now), es).tasks| <= 128
  {
    StepsKeepInv(config, now, es);
  }

  /** Whoever asks is being served, has an answer, or has stopped waiting. */
  lemma {:induction false} NobodyIsForgotten(config: Config, now: int, es: seq<Event>, r: nat)
    requires r in Steps(Fresh(config, now), es).asked
    ensures var w := Steps(Fresh(config, now), es); r in w.tasks || r in w.closed || Answered(w, r)
  {
    StepsKeepInv(config, now, es);
  }

  /** Cancelling a worker's requests cancels exactly its pending rows; withdrawing some, exactly the pending ones
      among them; and a reload's first step, every pending row. */
  lemma CancelsExactly(w: World, e: Event, id: nat)
    requires w.configs != [] && id in w.rows && (e.Cancel? || e.Withdraw? || (e.CancelAll? && w.holder == None))
    ensures var row := w.rows[id];
            var hit := row.status == Pending
                       && (e.CancelAll? || (e.Cancel? && row.ask.worker == e.worker) || (e.Withdraw? && id in e.ids));
            && Apply(w, e).rows.Keys == w.rows.Keys
            && Apply(w, e).rows[id] == (if hit then row.(status := Cancelled) else row)
  {
  }

  /** The owner decides about the row now: with the configuration free and as the owner. */
  predicate OwnerActs(w: World, e: Event, id: nat) {
    e.Decide? && e.id == id && e.authority == Owner && w.holder == None
  }

  /** The row's own request finds it pending and past its time, by the clock or by its timer. */
  predicate TimesOut(w: World, e: Event, id: nat) {
    && e.Act? && e.r in w.tasks && w.tasks[e.r].stage.Looked? && w.tasks[e.r].stage.id == id
    && w.tasks[e.r].stage.seen.status == Pending && (w.now >= w.tasks[e.r].stage.seen.expires || e.timer)
  }

  /** The row is called off: by a fenced decision, for its worker, by name, by a reload, or because its caller left. */
  predicate CallsOff(w: World, e: Event, id: nat)
    requires id in w.rows
  {
    || (OwnerActs(w, e, id) && e.fenced && w.now < w.rows[id].expires)
    || (e.Cancel? && w.rows[id].ask.worker == e.worker) || (e.Withdraw? && id in e.ids)
    || (e.CancelAll? && w.holder == None)
    || (e.Check? && e.r in w.closed && e.r in w.tasks && w.tasks[e.r].stage == Polling(id))
  }

  /** What becomes of a pending row in one step, whatever the step: approved or denied only by the owner, in time and
      not fenced; expired only past its time; cancelled only when called off; and pending in all other cases. */
  lemma SettledExactly(w: World, e: Event, id: nat)
    requires w.configs != [] && id in w.rows && w.rows[id].status == Pending
    requires forall r :: r in w.tasks && w.tasks[r].stage.Admitting? ==> w.tasks[r].stage.id != id
    ensures var row := w.rows[id];
            var inTime := OwnerActs(w, e, id) && w.now < row.expires && !e.fenced;
            && id in Apply(w, e).rows && Apply(w, e).rows[id] == row.(status := Apply(w, e).rows[id].status)
            && (Apply(w, e).rows[id].status.Approved? <==> inTime && e.answer != Deny)
            && (inTime && e.answer != Deny ==>
                  Apply(w, e).rows[id].status == Approved(e.answer == Session, w.now, |w.configs| - 1))
            && (Apply(w, e).rows[id].status == Denied <==> inTime && e.answer == Deny)
            && (Apply(w, e).rows[id].status == Expired <==>
                  (OwnerActs(w, e, id) && row.expires <= w.now) || TimesOut(w, e, id))
            && (Apply(w, e).rows[id].status == Cancelled <==> CallsOff(w, e, id))
  {
  }

  /** A caller answered from its row is told Once or Session by a row approved with that scope, Deny by every other. */
  lemma {:induction false} RowIsTold(config: Config, now: int, es: seq<Event>, i: nat)
    requires i < |Steps(Fresh(config, now), es).answers| && Steps(Fresh(config, now), es).answers[i].why.Committed?
    ensures var w := Steps(Fresh(config, now), es);
            var g := w.answers[i];
            && g.why.id in w.rows && w.rows[g.why.id].caller == g.caller
            && match w.rows[g.why.id].status
               case Approved(session, _, _) => g.answer == (if session then Session else Once)
               case Pending => false
               case _ => g.answer == Deny
  {
    StepsKeepInv(config, now, es);
    var w := Steps(Fresh(config, now), es);
    var g := w.answers[i];
    assert Justified(w, g.caller, w.asked[g.caller], g.answer, g.why);
  }

  // ----- the broker's own code -----

  lemma {:induction false} StepsConcat(w: World, a: seq<Event>, b: seq<Event>)
    requires w.configs != []
    ensures Steps(w, a + b) == Steps(Steps(w, a), b)
    decreases |b|
  {
    if b == [] {
      assert a + b == a;
    } else {
      var last := |b| - 1;
      assert (a + b)[..|a + b| - 1] == a + b[..last];
      StepsConcat(w, a, b[..last]);
    }
  }

  lemma {:induction false} StepsMore(w: World, a: seq<Event>, e: Event)
    requires w.configs != []
    ensures Steps(w, a + [e]) == Apply(Steps(w, a), e)
  {
    assert (a + [e])[..|a|] == a;
  }

  predicate Ready(w: World, r: nat, id: nat) {
    w.configs != [] && w.holder == None && id !in w.rows && r in w.tasks && w.tasks[r].stage == Spawned
  }

  function PolicyOf(w: World, ask: Ask): Option<Policy>
    requires w.configs != []
  {
    var policies := w.configs[Version(w)].policies;
    if ask.place in policies && policies[ask.place].timeout.Some? then Some(policies[ask.place]) else None
  }

  lemma LastPut<K, V>(m: map<K, V>, k: K, a: V, b: V, c: V)
    ensures m[k := a][k := b][k := c] == m[k := c]
  {
  }

  lemma FinishForgets(w: World, r: nat, a: Stage, b: Stage, answer: Answer, why: Why)
    requires r in w.tasks && w.holder == None
    ensures Finish(Go(Go(w, r, a).(holder := Some(Request(r))), r, b), r, answer, why) == Finish(w, r, answer, why)
  {
    assert w.tasks[r := w.tasks[r].(stage := a)][r := w.tasks[r].(stage := b)] - {r} == w.tasks - {r};
  }

  /** The three steps of a request's start, taken together. */
  lemma StartIs(w: World, r: nat, id: nat, runnable: bool)
    requires Ready(w, r, id)
    ensures Apply(Apply(Apply(w, Admit(r, id)), Begin(r, runnable)), Release(r)) ==
      match PolicyOf(w, w.tasks[r].ask)
      case None => Finish(w, r, Deny, Refused)
      case Some(policy) =>
        var ask := w.tasks[r].ask;
        if !runnable then Finish(w, r, Deny, Refused)
        else if policy.never || (ask.claude && policy.promptless) then Finish(w, r, Deny, Rule(Version(w)))
        else if ask.request in policy.rules then Finish(w, r, policy.rules[ask.request], Rule(Version(w)))
        else
          var row := Row(r, ask, Version(w), w.now + policy.timeout.value, Pending);
          Go(w, r, Polling(id)).(rows := w.rows[id := row])
  {
    var ask := w.tasks[r].ask;
    if PolicyOf(w, ask).Some? {
      var policy := PolicyOf(w, ask).value;
      var automatic := Automatic(policy, ask);
      var a := Admitting(id, automatic, w.now + policy.timeout.value);
      assert Apply(w, Admit(r, id)) == Go(w, r, a).(holder := Some(Request(r)));
      if !runnable {
        FinishForgets(w, r, a, Begun(Immediate(Deny, Refused)), Deny, Refused);
      } else if automatic.Some? {
        FinishForgets(w, r, a, Begun(Immediate(automatic.value, Rule(Version(w)))), automatic.value, Rule(Version(w)));
      } else {
        LastPut(w.tasks, r, Task(ask, a), Task(ask, Begun(Waiting(id))), Task(ask, Polling(id)));
      }
    }
  }

  /** What happens around one round of the polling loop: before its check, before its look, before it
      acts; and whether its own timer has fired. */
  datatype Round = Round(beforeCheck: seq<Event>, beforeLook: seq<Event>, beforeAct: seq<Event>, timer: bool)

  class Broker {
    var configs: seq<Config>
    var holder: Option<Holder>
    var rows: map<nat, Row>
    var tasks: map<nat, Task>
    var free: nat
    var answers: seq<Given>
    var asked: map<nat, Ask>
    var closed: set<nat>
    var now: int

    constructor (config: Config, start: int)
      ensures State() == Fresh(config, start)
    {
      configs := [config];
      holder, rows, tasks, free, answers, asked, closed, now := None, map[], map[], PERMITS, [], map[], {}, start;
    }

    function State(): World
      reads this
    {
      World(configs, holder, rows, tasks, free, answers, asked, closed, now)
    }

    /** `settle`: true when the row changed. */
    method SettleRow(id: nat, status: Status) returns (changed: bool)
      modifies this`rows
      ensures State() == Settle(old(State()), id, status)
      ensures changed <==> id in old(rows) && old(rows)[id].status == Pending
    {
      changed := id in rows && rows[id].status == Pending;
      if changed {
        rows := rows[id := rows[id].(status := status)];
      }
    }

    /** `decide` (src/approvals/mod.rs:50-70): an owner's decision is committed exactly when it comes in time for a
        row that is still pending and may still run. */
    method DecideRow(id: nat, answer: Answer, authority: Authority, fenced: bool) returns (r: Result<bool>)
      requires configs != [] && holder == None
      modifies this`rows
      ensures State() == Apply(old(State()), Decide(id, answer, authority, fenced))
      ensures r.Err? <==> authority != Owner
      ensures r == Ok(true) <==>
        && authority == Owner && id in old(rows) && old(rows)[id].status == Pending && now < old(rows)[id].expires
            && !fenced
      ensures authority == Owner && id in old(rows) && old(rows)[id].status == Pending ==>
        rows == old(rows)[id := old(rows)[id].(status :=
          if now >= old(rows)[id].expires then Expired
          else if fenced then Cancelled
          else if answer == Deny then Denied
          else Approved(answer == Session, now, |configs| - 1))]
      ensures !(authority == Owner && id in old(rows) && old(rows)[id].status == Pending) ==> rows == old(rows)
      ensures r != Ok(true) && id in rows && rows[id].status.Approved? ==> rows == old(rows)
    {
      if authority != Owner {
        return Err;
      }
      if id !in rows {
        return Ok(false);
      }
      var verdict := Verdict(rows[id], answer, fenced, now, |configs| - 1);
      var changed := SettleRow(id, verdict);
      r := Ok(changed && (verdict.Approved? || verdict == Denied));
    }

    /** `reconfigure` (src/approvals/mod.rs:176-188): nothing is left pending from the old configuration. */
    method Reconfigure(config: Config)
      requires configs != [] && holder == None
      modifies this
      ensures State() == Apply(Apply(old(State()), CancelAll(config)), Adopt)
      ensures configs == old(configs) + [config] && holder == None
      ensures forall id :: id in rows ==> rows[id].status != Pending
    {
      holder := Some(Reload(config));
      rows := WithdrawRows(rows, rows.Keys);
      configs := configs + [config];
      holder := None;
    }

    /** A request is done with (src/approvals/mod.rs:203-207): its permit comes back and its caller has the answer. */
    method Reply(r: nat, answer: Answer, why: Why)
      requires r in tasks
      modifies this
      ensures State() == Finish(old(State()), r, answer, why)
    {
      if r !in closed {
        answers := answers + [Given(r, answer, why, |configs| - 1)];
      }
      tasks := tasks - {r};
      free := free + 1;
      if holder == Some(Request(r)) {
        holder := None;
      }
    }

    /** `request` (src/approvals/mod.rs:189-209): without a permit nothing is started; the caller is denied at once. */
    method Admission(r: nat, ask: Ask)
      requires r !in asked && r !in closed
      modifies this
      ensures State() == Arrived(old(State()), r, ask)
      ensures old(free) == 0 ==>
                answers == old(answers) + [Given(r, Deny, Refused, |configs| - 1)] && tasks == old(tasks)
      ensures old(free) > 0 ==> r in tasks && tasks[r] == Task(ask, Spawned) && answers == old(answers)
    {
      asked := asked[r := ask];
      if free == 0 {
        answers := answers + [Given(r, Deny, Refused, |configs| - 1)];
      } else {
        free := free - 1;
        tasks := tasks[r := Task(ask, Spawned)];
      }
    }

    /** The first half of `run` (src/approvals/mod.rs:89-133), with the configuration held throughout: a request is
        answered at once, or leaves a row that is pending under the configuration in force. */
    method Start(r: nat, id: nat, runnable: bool)
      requires Ready(State(), r, id)
      modifies this
      ensures State() == Apply(Apply(Apply(old(State()), Admit(r, id)), Begin(r, runnable)), Release(r))
      ensures holder == None
      ensures r in tasks ==> tasks[r].stage == Polling(id) && id in rows && rows[id].status == Pending
                             && rows[id].version == |configs| - 1
    {
      StartIs(State(), r, id, runnable);
      var policies := configs[|configs| - 1].policies;
      var ask := tasks[r].ask;
      if ask.place !in policies || policies[ask.place].timeout.None? {
        Reply(r, Deny, Refused);
        return;
      }
      holder := Some(Request(r));
      var policy := policies[ask.place];
      var expires := now + policy.timeout.value;
      var automatic := Automatic(policy, ask);
      if !runnable {
        Reply(r, Deny, Refused);
        return;
      }
      if automatic.Some? {
        Reply(r, automatic.value, Rule(|configs| - 1));
        return;
      }
      rows := rows[id := Row(r, ask, |configs| - 1, expires, Pending)];
      holder := None;
      tasks := tasks[r := Task(ask, Polling(id))];
    }

    /** Everybody else's steps. */
    method Others(es: seq<Event>)
      requires configs != []
      modifies this
      ensures State() == Steps(old(State()), es)
    {
      var w := Steps(State(), es);
      configs, holder, rows, tasks, free, answers, asked, closed, now :=
        w.configs, w.holder, w.rows, w.tasks, w.free, w.answers, w.asked, w.closed, w.now;
    }

    /** src/approvals/mod.rs:135-139: a caller who is gone has its row cancelled and is served no longer. */
    method CheckOnce(r: nat)
      requires configs != []
      modifies this
      ensures State() == Apply(old(State()), Check(r))
    {
      if r in tasks && tasks[r].stage.Polling? {
        var id := tasks[r].stage.id;
        if r in closed {
          var _ := SettleRow(id, Cancelled);
          Reply(r, Deny, Refused);
        } else {
          tasks := tasks[r := tasks[r].(stage := Open(id))];
        }
      }
    }

    /** src/approvals/mod.rs:140-143: reads the row as it is now. */
    method LookOnce(r: nat)
      requires configs != []
      modifies this
      ensures State() == Apply(old(State()), Look(r))
    {
      if r in tasks && tasks[r].stage.Open? && tasks[r].stage.id in rows {
        tasks := tasks[r := tasks[r].(stage := Looked(tasks[r].stage.id, rows[tasks[r].stage.id]))];
      }
    }

    /** src/approvals/mod.rs:144-163: a settled row is the answer; one that is due expires, and is read again. */
    method ActOnce(r: nat, timer: bool)
      requires configs != []
      modifies this
      ensures State() == Apply(old(State()), Act(r, timer))
    {
      if r in tasks && tasks[r].stage.Looked? {
        var id, seen := tasks[r].stage.id, tasks[r].stage.seen;
        if seen.status != Pending {
          Reply(r, AnswerOf(seen.status), Committed(id));
        } else {
          if now >= seen.expires || timer {
            var _ := SettleRow(id, Expired);
          }
          tasks := tasks[r := tasks[r].(stage := Polling(id))];
        }
      }
    }

    /** One round of the loop (src/approvals/mod.rs:134-172), for a task that was waiting when it began. */
    method PollOnce(r: nat, round: Round) returns (es: seq<Event>)
      requires configs != []
      modifies this
      ensures es == round.beforeCheck + [Check(r)] + round.beforeLook + [Look(r)] + round.beforeAct
              + [Act(r, round.timer)]
      ensures State() == Steps(old(State()), es)
    {
      ghost var start := State();
      Others(round.beforeCheck);
      CheckOnce(r);
      es := round.beforeCheck + [Check(r)];
      StepsMore(start, round.beforeCheck, Check(r));
      Others(round.beforeLook);
      StepsConcat(start, es, round.beforeLook);
      LookOnce(r);
      StepsMore(start, es + round.beforeLook, Look(r));
      es := es + round.beforeLook + [Look(r)];
      Others(round.beforeAct);
      StepsConcat(start, es, round.beforeAct);
      ActOnce(r, round.timer);
      StepsMore(start, es + round.beforeAct, Act(r, round.timer));
      es := es + round.beforeAct + [Act(r, round.timer)];
    }

    /** The whole loop, among any steps of everybody else: an execution is a run of the steps above,
        and a caller it lets go has its answer or has stopped waiting. */
    method Poll(r: nat, rounds: seq<Round>) returns (es: seq<Event>)
      requires Inv(State()) && r in tasks
      modifies this
      ensures State() == Steps(old(State()), es)
      ensures Inv(State()) && Grows(old(State()), State())
      ensures r in tasks || r in closed || Answered(State(), r)
    {
      es := [];
      ghost var start := State();
      var i := 0;
      while i < |rounds| && r in tasks
        invariant 0 <= i <= |rounds|
        invariant State() == Steps(start, es)
        invariant Inv(State()) && Grows(start, State())
      {
        ghost var before := State();
        var more := PollOnce(r, rounds[i]);
        StepsConcat(start, es, more);
        StepsFrom(before, more);
        GrowsTrans(start, before, State());
        es := es + more;
        i := i + 1;
      }
    }
  }
}
