/** Runs of catch-up passes, live deliveries and crashes over one durable ledger, and what
    holds over all of them: exactly-once intake, watermark discipline, and no loss. */
module CatchupRuns {
  import opened Wrappers
  import opened SlackIntake
  import opened Catchup

  // ----- the transition system -----

  datatype Flight = Flight(channel: string, start: Start)
  /** A catch-up service inside `run`: it holds its own pass lock and took `now` on entry. */
  datatype Pass = Pass(now: Instant, flight: Option<Flight>)
  datatype World = World(clock: Instant, ledger: Ledger, passes: map<nat, Pass>)

  datatype Event =
    | Tick(to: Instant)
    | Enter(service: nat)
    | Begin(service: nat, channel: string, window: Instant, started: Option<Instant>, roots: seq<Instant>)
    | Commit(service: nat, reading: Reading, id: nat)
    | Leave(service: nat)                 // the pass ends, fails, is cancelled or crashes
    | Deliver(message: Message, id: nat)  // a scoped, supported live event, redeliveries included
    | Overlook(event: EventId)            // a live mention of the owner that cannot be taken in is noted
    | Threads(waiting: set<Session>)      // threads start or stop waiting for an answer

  ghost predicate Next(cfg: Config, w: World, e: Event, w': World) {
    match e
    case Tick(to) => w.clock <= to && w' == w.(clock := to)
    case Enter(s) => s !in w.passes && w' == w.(passes := w.passes[s := Pass(w.clock, None)])
    case Begin(s, channel, window, started, roots) =>
      && s in w.passes && w.passes[s].flight == None && window > 0 && channel in cfg.channels
      && w' == w.(passes := w.passes[s := w.passes[s].(flight :=
           Some(Flight(channel, StartOf(w.ledger, cfg, channel, window, w.passes[s].now, started, roots))))])
    case Commit(s, reading, id) =>
      && s in w.passes && w.passes[s].flight.Some?
      && var pass := w.passes[s];
         (match CommitOf(w.ledger, cfg, pass.flight.value.channel, pass.flight.value.start, pass.now, reading, id)
         case Err => w' == w.(passes := w.passes - {s})
         case Ok(done) => w' == w.(ledger := done.0, passes := w.passes[s := pass.(flight := None)]))
    case Leave(s) => w' == w.(passes := w.passes - {s})
    case Deliver(m, id) =>
      && Scoped(m, cfg)
      && w'.ledger == (if Acceptable(m, cfg.grace) then Taken(w.ledger, m, cfg, w.clock, id, None) else w.ledger)
      && w' == w.(ledger := w'.ledger)
    case Overlook(event) => w' == w.(ledger := w.ledger.(notes := w.ledger.notes + [DroppedMention(event)]))
    case Threads(waiting) => w' == w.(ledger := w.ledger.(waiting := waiting))
  }

  ghost predicate Run(cfg: Config, ws: seq<World>, es: seq<Event>) {
    && |ws| == |es| + 1
    && forall i :: 0 <= i < |es| ==> Next(cfg, ws[i], es[i], ws[i + 1])
  }

  // ----- what a commit does to the rows -----

  lemma {:induction false} IntakeAllAppends(l: Ledger, ms: seq<Message>, cfg: Config, now: Instant, id: nat)
    requires IntakeAll(l, ms, cfg, now, id).Ok?
    ensures var l' := IntakeAll(l, ms, cfg, now, id).value.0;
            && l.messages <= l'.messages && l.inbox <= l'.inbox && l.mentions <= l'.mentions
            && l' == l.(messages := l'.messages, inbox := l'.inbox, mentions := l'.mentions)
  {
    if ms != [] {
      var n := |ms| - 1;
      IntakeAllAppends(l, ms[..n], cfg, now, id);
      TakenAppends(IntakeAll(l, ms[..n], cfg, now, id).value.0, ms[n], cfg, now, id + n, Some(now - DAY));
    }
  }

  lemma {:induction false} IntakeAllKeepsConsistent(l: Ledger, ms: seq<Message>, cfg: Config, now: Instant, id: nat)
    requires IntakeAll(l, ms, cfg, now, id).Ok? && Consistent(l)
    ensures Consistent(IntakeAll(l, ms, cfg, now, id).value.0)
  {
    if ms != [] {
      var n := |ms| - 1;
      IntakeAllKeepsConsistent(l, ms[..n], cfg, now, id);
      TakenKeepsConsistent(IntakeAll(l, ms[..n], cfg, now, id).value.0, ms[n], cfg, now, id + n, Some(now - DAY));
    }
  }

  lemma {:induction false} IntakeAllKeepsQueueing(l: Ledger, ms: seq<Message>, cfg: Config, now: Instant, id: nat,
                                                  e: EventId)
    requires IntakeAll(l, ms, cfg, now, id).Ok? && HasEvent(l, e)
    ensures var l' := IntakeAll(l, ms, cfg, now, id).value.0; HasEvent(l', e) && (Queued(l', e) <==> Queued(l, e))
  {
    IntakeAllAppends(l, ms, cfg, now, id);
    StoredStays(l, IntakeAll(l, ms, cfg, now, id).value.0);
    if ms != [] {
      var n := |ms| - 1;
      IntakeAllKeepsQueueing(l, ms[..n], cfg, now, id, e);
      TakenKeepsQueueing(IntakeAll(l, ms[..n], cfg, now, id).value.0, ms[n], cfg, now, id + n, Some(now - DAY), e);
    }
  }

  /** What a commit leaves: rows appended by intake, one new mark, one new record. */
  lemma CommitShape(l: Ledger, cfg: Config, channel: string, start: Start, now: Instant, reading: Reading, id: nat)
    requires CommitOf(l, cfg, channel, start, now, reading, id).Ok?
    ensures var (l', added) := CommitOf(l, cfg, channel, start, now, reading, id).value;
            var mark := NewMark(l, channel, start, now, reading.complete);
            && l.messages <= l'.messages && l.inbox <= l'.inbox && l.mentions <= l'.mentions
            && l'.waiting == l.waiting
            && MarkOf(l, channel) == start.mark
            && l'.marks == l.marks[channel := mark]
            && l'.commits == l.commits
                + [PassRecord(channel, now, start.oldest, reading.complete, mark.mark, mark.pinned, added)]
  {
    IntakeAllAppends(l, Prepared(cfg, channel, reading.payloads), cfg, now, id);
  }

  /** The fence: a pass whose starting mark has been changed commits nothing at all. */
  lemma FenceRefuses(cfg: Config, w: World, s: nat, reading: Reading, id: nat, w': World)
    requires Next(cfg, w, Event.Commit(s, reading, id), w')
    requires MarkOf(w.ledger, w.passes[s].flight.value.channel) != w.passes[s].flight.value.start.mark
    ensures w'.ledger == w.ledger
  {
    var pass := w.passes[s];
    if CommitOf(w.ledger, cfg, pass.flight.value.channel, pass.flight.value.start, pass.now, reading, id).Ok? {
      CommitShape(w.ledger, cfg, pass.flight.value.channel, pass.flight.value.start, pass.now, reading, id);
    }
  }

  // ----- exactly once -----

  lemma StepKeepsConsistent(cfg: Config, w: World, e: Event, w': World)
    requires Next(cfg, w, e, w') && Consistent(w.ledger)
    ensures Consistent(w'.ledger)
  {
    match e {
      case Commit(s, reading, id) =>
        var pass := w.passes[s];
        var f := pass.flight.value;
        if CommitOf(w.ledger, cfg, f.channel, f.start, pass.now, reading, id).Ok? {
          var ms := Prepared(cfg, f.channel, reading.payloads);
          IntakeAllKeepsConsistent(w.ledger, ms, cfg, pass.now, id);
          SameRows(IntakeAll(w.ledger, ms, cfg, pass.now, id).value.0, w'.ledger);
        }
      case Deliver(m, id) =>
        TakenKeepsConsistent(w.ledger, m, cfg, w.clock, id, None);
      case Overlook(event) =>
        SameRows(w.ledger, w'.ledger);
      case Threads(waiting) =>
        SameRows(w.ledger, w'.ledger);
      case _ =>
    }
  }

  lemma SameRows(l: Ledger, l': Ledger)
    requires l.messages == l'.messages && l.inbox == l'.inbox && l.mentions == l'.mentions
    ensures Consistent(l) ==> Consistent(l')
    ensures forall e :: HasEvent(l, e) <==> HasEvent(l', e)
    ensures forall e :: Queued(l, e) <==> Queued(l', e)
    ensures forall k :: HasKey(l, k) <==> HasKey(l', k)
  {
    StoredStays(l, l');
    StoredStays(l', l);
  }

  /** Exactly-once intake: over every interleaving of deliveries, redeliveries and passes, a
      (workspace, channel, ts) has at most one stored message, an event at most one inbox item,
      and a message at most one mention obligation. */
  lemma {:induction false} ExactlyOnce(cfg: Config, ws: seq<World>, es: seq<Event>)
    requires Run(cfg, ws, es) && Consistent(ws[0].ledger)
    ensures Consistent(ws[|es|].ledger)
  {
    var n := |es| - 1;
    if n >= 0 {
      ExactlyOnce(cfg, ws[..n + 1], es[..n]);
      StepKeepsConsistent(cfg, ws[n], es[n], ws[n + 1]);
    }
  }

  lemma StepKeepsQueueing(cfg: Config, w: World, e: Event, w': World, id: EventId)
    requires Next(cfg, w, e, w') && HasEvent(w.ledger, id)
    ensures HasEvent(w'.ledger, id) && (Queued(w'.ledger, id) <==> Queued(w.ledger, id))
  {
    match e {
      case Commit(s, reading, n) =>
        var pass := w.passes[s];
        var f := pass.flight.value;
        if CommitOf(w.ledger, cfg, f.channel, f.start, pass.now, reading, n).Ok? {
          var ms := Prepared(cfg, f.channel, reading.payloads);
          IntakeAllKeepsQueueing(w.ledger, ms, cfg, pass.now, n, id);
          SameRows(IntakeAll(w.ledger, ms, cfg, pass.now, n).value.0, w'.ledger);
        }
      case Deliver(m, n) =>
        TakenAppends(w.ledger, m, cfg, w.clock, n, None);
        StoredStays(w.ledger, Taken(w.ledger, m, cfg, w.clock, n, None));
        TakenKeepsQueueing(w.ledger, m, cfg, w.clock, n, None, id);
      case Overlook(event) =>
        SameRows(w.ledger, w'.ledger);
      case Threads(waiting) =>
        SameRows(w.ledger, w'.ledger);
      case _ =>
    }
  }

  /** A message first stored as history is never queued later, and a queued one stays queued. */
  lemma {:induction false} QueueingIsSettled(cfg: Config, ws: seq<World>, es: seq<Event>, id: EventId)
    requires Run(cfg, ws, es) && HasEvent(ws[0].ledger, id)
    ensures HasEvent(ws[|es|].ledger, id) && (Queued(ws[|es|].ledger, id) <==> Queued(ws[0].ledger, id))
  {
    var n := |es| - 1;
    if n >= 0 {
      QueueingIsSettled(cfg, ws[..n + 1], es[..n], id);
      StepKeepsQueueing(cfg, ws[n], es[n], ws[n + 1], id);
    }
  }

  // ----- the same by message -----

  /** An inbox item of the message with a key. */
  ghost predicate ItemOf(l: Ledger, j: int, k: Key) {
    && 0 <= j < |l.inbox|
    && exists i :: 0 <= i < |l.messages| && l.messages[i].message.Place() == k
        && l.messages[i].message.event == l.inbox[j].event
  }

  predicate MessageOf(l: Ledger, i: int, k: Key) {
    0 <= i < |l.messages| && l.messages[i].message.Place() == k
  }

  predicate MentionOf(l: Ledger, i: int, k: Key) {
    0 <= i < |l.mentions| && l.mentions[i].key == k
  }

  ghost predicate QueuedKey(l: Ledger, k: Key) {
    exists j :: ItemOf(l, j, k)
  }

  /** A key has at most one stored message, one inbox item and one obligation. */
  ghost predicate OncePerKey(l: Ledger, k: Key) {
    && (forall i, j :: MessageOf(l, i, k) && MessageOf(l, j, k) ==> i == j)
    && (forall i, j :: ItemOf(l, i, k) && ItemOf(l, j, k) ==> i == j)
    && (forall i, j :: MentionOf(l, i, k) && MentionOf(l, j, k) ==> i == j)
  }

  lemma ConsistentIsOnce(l: Ledger, k: Key)
    requires Consistent(l)
    ensures OncePerKey(l, k)
  {
    forall i, j | ItemOf(l, i, k) && ItemOf(l, j, k) ensures i == j {
      var a :| 0 <= a < |l.messages| && l.messages[a].message.Place() == k
          && l.messages[a].message.event == l.inbox[i].event;
      var b :| 0 <= b < |l.messages| && l.messages[b].message.Place() == k
          && l.messages[b].message.event == l.inbox[j].event;
      assert a == b;
    }
  }

  lemma QueuedByEvent(l: Ledger, i: nat, k: Key)
    requires Consistent(l) && i < |l.messages| && l.messages[i].message.Place() == k
    ensures QueuedKey(l, k) <==> Queued(l, l.messages[i].message.event)
  {
    if QueuedKey(l, k) {
      var j :| ItemOf(l, j, k);
      var a :| 0 <= a < |l.messages| && l.messages[a].message.Place() == k
          && l.messages[a].message.event == l.inbox[j].event;
      assert a == i;
    }
    if Queued(l, l.messages[i].message.event) {
      var j :| 0 <= j < |l.inbox| && l.inbox[j].event == l.messages[i].message.event;
      assert ItemOf(l, j, k);
    }
  }

  lemma StepGrows(cfg: Config, w: World, e: Event, w': World)
    requires Next(cfg, w, e, w')
    ensures w.ledger.messages <= w'.ledger.messages && w.ledger.inbox <= w'.ledger.inbox
  {
    match e {
      case Commit(s, reading, id) =>
        var p := w.passes[s];
        var f := p.flight.value;
        if CommitOf(w.ledger, cfg, f.channel, f.start, p.now, reading, id).Ok? {
          CommitShape(w.ledger, cfg, f.channel, f.start, p.now, reading, id);
        }
      case Deliver(m, id) => TakenAppends(w.ledger, m, cfg, w.clock, id, None);
      case _ =>
    }
  }

  lemma {:induction false} RunGrows(cfg: Config, ws: seq<World>, es: seq<Event>)
    requires Run(cfg, ws, es)
    ensures ws[0].ledger.messages <= ws[|es|].ledger.messages && ws[0].ledger.inbox <= ws[|es|].ledger.inbox
  {
    var n := |es| - 1;
    if n >= 0 {
      RunGrows(cfg, ws[..n + 1], es[..n]);
      StepGrows(cfg, ws[n], es[n], ws[n + 1]);
    }
  }

  /** Exactly once, by message: over every run a (workspace, channel, ts) has at most one stored message, one
      inbox item and one obligation; and one first stored as history is never queued later. */
  lemma ExactlyOnceByKey(cfg: Config, ws: seq<World>, es: seq<Event>, k: Key)
    requires Run(cfg, ws, es) && Consistent(ws[0].ledger)
    ensures OncePerKey(ws[|es|].ledger, k)
    ensures HasKey(ws[0].ledger, k) ==> (QueuedKey(ws[|es|].ledger, k) <==> QueuedKey(ws[0].ledger, k))
  {
    ExactlyOnce(cfg, ws, es);
    ConsistentIsOnce(ws[|es|].ledger, k);
    if HasKey(ws[0].ledger, k) {
      var i :| 0 <= i < |ws[0].ledger.messages| && ws[0].ledger.messages[i].message.Place() == k;
      var event := ws[0].ledger.messages[i].message.event;
      RunGrows(cfg, ws, es);
      QueueingIsSettled(cfg, ws, es, event);
      QueuedByEvent(ws[0].ledger, i, k);
      QueuedByEvent(ws[|es|].ledger, i, k);
    }
  }

  // ----- live messages are queued -----

  /** Every new, acceptable live message in scope that Fridica did not send is queued by its delivery and stays
      queued, once, over every run from there; if it mentions the owner and is not the owner's, it opens the one
      obligation for its place, due after the grace. */
  lemma LiveIsQueuedOnce(cfg: Config, ws: seq<World>, es: seq<Event>, m: Message, id: nat)
    requires Run(cfg, ws, es) && es != [] && es[0] == Event.Deliver(m, id) && Consistent(ws[0].ledger)
    requires cfg.grace > 0 && m.routable && m.source != Self
    requires !HasEvent(ws[0].ledger, m.event) && !HasKey(ws[0].ledger, m.Place())
    ensures exists j :: ItemFor(ws[|es|].ledger, j, m)
    ensures forall i, j :: ItemFor(ws[|es|].ledger, i, m) && ItemFor(ws[|es|].ledger, j, m) ==> i == j
    ensures ws[1].ledger.inbox == ws[0].ledger.inbox + [InboxItem(m.InThread(), m.event, ws[0].clock)]
    ensures ws[1].ledger.mentions ==
              if Mentions(m.text, cfg.owner) && m.sender != cfg.owner then
                ws[0].ledger.mentions
                + [Mention(id, m.InThread(), m.Place(), m.event, ws[0].clock, ws[0].clock + cfg.grace)]
              else ws[0].ledger.mentions
  {
    assert Next(cfg, ws[0], es[0], ws[1]);
    Delivered(cfg, ws[0], m, id, ws[1]);
    QueuedFrom(cfg, ws, es, m.event);
    ExactlyOnce(cfg, ws, es);
    OneItem(ws[|es|].ledger, m);
  }

  lemma QueuedFrom(cfg: Config, ws: seq<World>, es: seq<Event>, event: EventId)
    requires Run(cfg, ws, es) && es != [] && HasEvent(ws[1].ledger, event) && Queued(ws[1].ledger, event)
    ensures Queued(ws[|es|].ledger, event)
  {
    var ws', es' := ws[1..], es[1..];
    QueueingIsSettled(cfg, ws', es', event);
    assert ws'[|es'|] == ws[|es|];
  }

  lemma OneItem(l: Ledger, m: Message)
    requires Consistent(l) && Queued(l, m.event)
    ensures exists j :: ItemFor(l, j, m)
    ensures forall i, j :: ItemFor(l, i, m) && ItemFor(l, j, m) ==> i == j
  {
    var j :| 0 <= j < |l.inbox| && l.inbox[j].event == m.event;
    assert ItemFor(l, j, m);
  }

  lemma Delivered(cfg: Config, w: World, m: Message, id: nat, w': World)
    requires Next(cfg, w, Event.Deliver(m, id), w') && Consistent(w.ledger) && cfg.grace > 0 && m.routable
    requires m.source != Self && !HasEvent(w.ledger, m.event) && !HasKey(w.ledger, m.Place())
    ensures HasEvent(w'.ledger, m.event) && Queued(w'.ledger, m.event)
    ensures w'.ledger.inbox == w.ledger.inbox + [InboxItem(m.InThread(), m.event, w.clock)]
    ensures w'.ledger.mentions ==
              if Mentions(m.text, cfg.owner) && m.sender != cfg.owner then
                w.ledger.mentions + [Mention(id, m.InThread(), m.Place(), m.event, w.clock, w.clock + cfg.grace)]
              else w.ledger.mentions
  {
    DeliveryQueues(cfg, w.ledger, m, w.clock, id);
  }

  lemma DeliveryQueues(cfg: Config, l: Ledger, m: Message, now: Instant, id: nat)
    requires Consistent(l) && m.source != Self && !HasEvent(l, m.event) && !HasKey(l, m.Place())
    ensures var l' := Taken(l, m, cfg, now, id, None);
            && HasEvent(l', m.event) && Queued(l', m.event)
            && l'.inbox == l.inbox + [InboxItem(m.InThread(), m.event, now)]
            && l'.mentions == (if Mentions(m.text, cfg.owner) && m.sender != cfg.owner then
                                 l.mentions + [Mention(id, m.InThread(), m.Place(), m.event, now, now + cfg.grace)]
                               else l.mentions)
  {
    var l' := Taken(l, m, cfg, now, id, None);
    QueuedExactly(l, m, cfg, now, id, None);
    MentionedExactly(l, m, cfg, now, id, None);
    NewIsStored(l, m, cfg, now, id, None);
    assert l'.messages[|l.messages|].message == m;
  }

  predicate ItemFor(l: Ledger, j: int, m: Message) {
    0 <= j < |l.inbox| && l.inbox[j].event == m.event
  }

  // ----- what catch-up stores -----

  /** A stored message that one of the payloads was read as: its item's author, text and thread, from catch-up. */
  ghost predicate FromPayload(cfg: Config, channel: string, ps: seq<Payload>, m: Message) {
    exists p :: p in ps && p.item.supported && ReadFrom(cfg, channel, p, m)
  }

  predicate ReadFrom(cfg: Config, channel: string, p: Payload, m: Message) {
    && m.workspace == cfg.workspace && m.channel == channel && m.ts == p.ts && m.source == Source.Catchup
    && m.sender == p.item.sender && m.text == p.item.text && m.thread == p.item.thread
    && m.event == Caught(channel, p.ts) && m.routable == p.item.routable
  }

  lemma {:induction false} PreparedAreRead(cfg: Config, channel: string, ps: seq<Payload>)
    ensures forall m :: m in Prepared(cfg, channel, ps) ==> FromPayload(cfg, channel, ps, m)
  {
    if ps != [] {
      var n := |ps| - 1;
      PreparedAreRead(cfg, channel, ps[..n]);
      forall m | m in Prepared(cfg, channel, ps) ensures FromPayload(cfg, channel, ps, m) {
        if m in Prepared(cfg, channel, ps[..n]) {
          var p :| p in ps[..n] && p.item.supported && ReadFrom(cfg, channel, p, m);
          assert p in ps;
        } else {
          assert ps[n] in ps && ReadFrom(cfg, channel, ps[n], m);
        }
      }
    }
  }

  lemma {:induction false} IntakeAllAdds(l: Ledger, ms: seq<Message>, cfg: Config, now: Instant, id: nat, i: int)
    requires IntakeAll(l, ms, cfg, now, id).Ok?
    requires |l.messages| <= i < |IntakeAll(l, ms, cfg, now, id).value.0.messages|
    ensures var row := IntakeAll(l, ms, cfg, now, id).value.0.messages[i]; row.message in ms && row.received == now
  {
    var n := |ms| - 1;
    var before := IntakeAll(l, ms[..n], cfg, now, id).value.0;
    if i < |before.messages| {
      IntakeAllAdds(l, ms[..n], cfg, now, id, i);
      assert IntakeAll(l, ms, cfg, now, id).value.0.messages[i] == before.messages[i];
    }
    assert ms == ms[..n] + [ms[n]];
  }

  /** What a commit newly stores is what its pass read: each new row has the author, text and thread of a listed
      item, under that item's place and catch-up ID. */
  lemma CommitStoresWhatWasRead(l: Ledger, cfg: Config, channel: string, start: Start, now: Instant, reading: Reading,
                                id: nat, i: int)
    requires CommitOf(l, cfg, channel, start, now, reading, id).Ok?
    requires |l.messages| <= i < |CommitOf(l, cfg, channel, start, now, reading, id).value.0.messages|
    ensures var row := CommitOf(l, cfg, channel, start, now, reading, id).value.0.messages[i];
            FromPayload(cfg, channel, reading.payloads, row.message) && row.received == now
  {
    IntakeAllAdds(l, Prepared(cfg, channel, reading.payloads), cfg, now, id, i);
    PreparedAreRead(cfg, channel, reading.payloads);
  }

  /** At most a day old, mentioning the owner, or in a thread that waits for an answer. */
  predicate Wanted(cfg: Config, waiting: set<Session>, m: Message, now: Instant) {
    now - m.ts <= 24 * 3600 * 1_000_000 || Mentions(m.text, cfg.owner) || m.InThread() in waiting
  }

  lemma NewIsQueued(l: Ledger, m: Message, cfg: Config, now: Instant, id: nat)
    requires Consistent(l) && m.source == Source.Catchup
    requires Taken(l, m, cfg, now, id, Some(now - DAY)).messages != l.messages
    ensures var l' := Taken(l, m, cfg, now, id, Some(now - DAY));
            && l'.messages == l.messages + [Stored(m, now)]
            && (Queued(l', m.event) <==> Wanted(cfg, l.waiting, m, now))
  {
    NewIsStored(l, m, cfg, now, id, Some(now - DAY));
    QueuedExactly(l, m, cfg, now, id, Some(now - DAY));
  }

  /** A message catch-up newly stores is queued if and only if it is at most a day old, mentions the owner or
      stands in a thread that waits for an answer; other history is stored without work. */
  lemma {:induction false} HistoryIsQueuedExactly(l: Ledger, ms: seq<Message>, cfg: Config, now: Instant, id: nat,
                                                  i: int)
    requires IntakeAll(l, ms, cfg, now, id).Ok? && Consistent(l)
    requires forall m :: m in ms ==> m.source == Source.Catchup
    requires |l.messages| <= i < |IntakeAll(l, ms, cfg, now, id).value.0.messages|
    ensures var l' := IntakeAll(l, ms, cfg, now, id).value.0;
            Queued(l', l'.messages[i].message.event) <==> Wanted(cfg, l.waiting, l'.messages[i].message, now)
  {
    var n := |ms| - 1;
    var before := IntakeAll(l, ms[..n], cfg, now, id).value.0;
    IntakeAllAppends(l, ms[..n], cfg, now, id);
    IntakeAllKeepsConsistent(l, ms[..n], cfg, now, id);
    assert ms[n] in ms;
    if i < |before.messages| {
      HistoryIsQueuedExactly(l, ms[..n], cfg, now, id, i);
      TakenAppends(before, ms[n], cfg, now, id + n, Some(now - DAY));
      assert HasEvent(before, before.messages[i].message.event);
      TakenKeepsQueueing(before, ms[n], cfg, now, id + n, Some(now - DAY), before.messages[i].message.event);
    } else {
      NewIsQueued(before, ms[n], cfg, now, id + n);
    }
  }

  /** ... so with the rest of the commit. */
  lemma CommitQueuesExactly(l: Ledger, cfg: Config, channel: string, start: Start, now: Instant, reading: Reading,
                            id: nat, i: int)
    requires CommitOf(l, cfg, channel, start, now, reading, id).Ok? && Consistent(l)
    requires |l.messages| <= i < |CommitOf(l, cfg, channel, start, now, reading, id).value.0.messages|
    ensures var l' := CommitOf(l, cfg, channel, start, now, reading, id).value.0;
            Queued(l', l'.messages[i].message.event) <==> Wanted(cfg, l.waiting, l'.messages[i].message, now)
  {
    var ms := Prepared(cfg, channel, reading.payloads);
    PreparedAreRead(cfg, channel, reading.payloads);
    forall m | m in ms ensures m.source == Source.Catchup {
      assert FromPayload(cfg, channel, reading.payloads, m);
    }
    HistoryIsQueuedExactly(l, ms, cfg, now, id, i);
    SameRows(IntakeAll(l, ms, cfg, now, id).value.0, CommitOf(l, cfg, channel, start, now, reading, id).value.0);
  }

  lemma {:induction false} DropsAreNoted(notes: seq<Note>, es: seq<EventId>, e: EventId)
    ensures DroppedMention(e) in NoteDrops(notes, es) <==> DroppedMention(e) in notes || e in es
  {
    if es != [] {
      var n := |es| - 1;
      DropsAreNoted(notes, es[..n], e);
      assert es == es[..n] + [es[n]];
      var rest, note := NoteDrops(notes, es[..n]), DroppedMention(es[n]);
      if DropNoted(rest, es[n]) {
        assert note in rest;
      } else {
        assert NoteDrops(notes, es) == rest + [note];
        assert DroppedMention(e) in rest + [note] <==> DroppedMention(e) in rest || e == es[n];
      }
    }
  }

  lemma {:induction false} DroppedAre(cfg: Config, channel: string, ps: seq<Payload>, e: EventId)
    ensures e in Dropped(cfg, channel, ps) <==>
              exists p :: p in ps && !p.item.supported && Mentions(p.item.text, cfg.owner) && e == Caught(channel, p.ts)
  {
    if ps != [] {
      var n := |ps| - 1;
      DroppedAre(cfg, channel, ps[..n], e);
      assert ps == ps[..n] + [ps[n]];
      assert ps[n] in ps;
    }
  }

  /** A read item that cannot be taken in is noted if and only if it mentions the owner. */
  lemma {:induction false} MentionsAreNoted(l: Ledger, cfg: Config, channel: string, start: Start, now: Instant,
                                            reading: Reading, id: nat, e: EventId)
    requires CommitOf(l, cfg, channel, start, now, reading, id).Ok?
    ensures DroppedMention(e) in CommitOf(l, cfg, channel, start, now, reading, id).value.0.notes <==>
              || DroppedMention(e) in l.notes
              || exists p :: p in reading.payloads && !p.item.supported && Mentions(p.item.text, cfg.owner)
                             && e == Caught(channel, p.ts)
  {
    IntakeAllAppends(l, Prepared(cfg, channel, reading.payloads), cfg, now, id);
    var skips := NoteSkips(l.notes, channel, reading.gaps);
    SkipsAreNoDrops(l.notes, channel, reading.gaps, e);
    DropsAreNoted(skips, Dropped(cfg, channel, reading.payloads), e);
    DroppedAre(cfg, channel, reading.payloads, e);
  }

  lemma {:induction false} SkipsAreNoDrops(notes: seq<Note>, channel: string, gaps: seq<(Instant, string)>, e: EventId)
    ensures DroppedMention(e) in NoteSkips(notes, channel, gaps) <==> DroppedMention(e) in notes
  {
    if gaps != [] {
      var last := gaps[|gaps| - 1];
      SkipsAreNoDrops(notes, channel, gaps[..|gaps| - 1], e);
      var rest, note := NoteSkips(notes, channel, gaps[..|gaps| - 1]), SkippedThread(channel, last.0, last.1);
      assert DroppedMention(e) in rest + [note] <==> DroppedMention(e) in rest;
    }
  }

  // ----- where a pass starts, and where it leaves the mark -----

  /** A stored message of the channel, received before the daemon started, if that is known. */
  predicate Earlier(row: Stored, cfg: Config, channel: string, started: Option<Instant>) {
    && row.message.workspace == cfg.workspace && row.message.channel == channel
    && (started.Some? ==> row.received < started.value)
  }

  lemma {:induction false} LatestIsNewest(rows: seq<Stored>, cfg: Config, channel: string, started: Option<Instant>)
    ensures var latest := LatestTs(rows, cfg.workspace, channel, started);
            && (latest == None <==> forall row :: row in rows ==> !Earlier(row, cfg, channel, started))
            && (latest.Some? ==>
                  && (exists row ::
                        row in rows && Earlier(row, cfg, channel, started) && row.message.ts == latest.value)
                  && forall row :: row in rows && Earlier(row, cfg, channel, started) ==>
                        row.message.ts <= latest.value)
  {
    if rows != [] {
      var n := |rows| - 1;
      LatestIsNewest(rows[..n], cfg, channel, started);
      assert rows == rows[..n] + [rows[n]];
      assert rows[n] in rows;
      assert forall row :: row in rows[..n] ==> row in rows;
    }
  }

  /** A pass reads from the window's beginning, or from a minute before the mark if that is earlier; without a
      mark, from a minute before the newest message stored before the start; but never more than seven days back. */
  lemma {:induction false} StartExactly(l: Ledger, cfg: Config, channel: string, window: Instant, now: Instant,
                                        started: Option<Instant>, roots: seq<Instant>)
    ensures var start := StartOf(l, cfg, channel, window, now, started, roots);
            var since := if channel in l.marks then Some(l.marks[channel].mark)
                         else LatestTs(l.messages, cfg.workspace, channel, started);
            && start.mark == (if channel in l.marks then since else None)
            && now - 7 * 24 * 3600 * 1_000_000 <= start.oldest
            && (start.oldest > now - 7 * 24 * 3600 * 1_000_000 ==>
                  start.oldest <= now - window && (since.Some? ==> start.oldest <= since.value - 60 * 1_000_000))
            && (|| start.oldest == now - 7 * 24 * 3600 * 1_000_000 || start.oldest == now - window
                || (since.Some? && start.oldest == since.value - 60 * 1_000_000))
            && (now - window < start.oldest || (since.Some? && since.value - 60 * 1_000_000 < start.oldest) ==>
                  start.oldest == now - 7 * 24 * 3600 * 1_000_000)
  {
  }

  /** A complete pass, or a second truncated one in a row, sets the mark to its own time; a first truncated pass
      pins it where it was, or a minute after the window's beginning; and the second leaves a gap note. */
  lemma {:induction false} MarkExactly(l: Ledger, cfg: Config, channel: string, start: Start, now: Instant,
                                       reading: Reading, id: nat)
    requires Disciplined(l) && CommitOf(l, cfg, channel, start, now, reading, id).Ok?
    ensures var l' := CommitOf(l, cfg, channel, start, now, reading, id).value.0;
            var again := channel in l.marks && l.marks[channel].pinned;
            && l'.marks == l.marks[channel :=
                 if reading.complete || again then Watermark(now, false, 0)
                 else Watermark(if channel in l.marks then l.marks[channel].mark
                                else start.oldest + 60 * 1_000_000, true, 1)]
            && (!reading.complete && again ==>
                  l'.notes != [] && l'.notes[|l'.notes| - 1] == Gap(channel, start.oldest,
                                                                    FirstRead(now, reading.payloads), now, 2))
  {
    IntakeAllAppends(l, Prepared(cfg, channel, reading.payloads), cfg, now, id);
  }

  // ----- watermark discipline -----

  /** Truncation counts are 0 or 1, and 1 exactly on a pinned mark. */
  ghost predicate Counted(l: Ledger) {
    forall c :: c in l.marks ==> (l.marks[c].truncated == if l.marks[c].pinned then 1 else 0)
  }

  /** The last commit record of a channel is pinned exactly when its mark is. */
  ghost predicate LastCommit(l: Ledger, c: string, i: int) {
    && 0 <= i < |l.commits| && l.commits[i].channel == c
    && forall j :: i < j < |l.commits| ==> l.commits[j].channel != c
  }

  ghost predicate Recorded(l: Ledger) {
    && (forall i {:trigger l.commits[i]} :: 0 <= i < |l.commits| ==> l.commits[i].channel in l.marks)
    && forall c, i :: LastCommit(l, c, i) ==> c in l.marks && l.commits[i].pinned == l.marks[c].pinned
  }

  /** Two commits of one channel with none of that channel between them. */
  ghost predicate Consecutive(cs: seq<PassRecord>, i: int, j: int) {
    && 0 <= i < j < |cs| && cs[i].channel == cs[j].channel
    && forall k :: i < k < j ==> cs[k].channel != cs[i].channel
  }

  ghost predicate NoTwoPinned(l: Ledger) {
    forall i, j :: Consecutive(l.commits, i, j) ==> !(l.commits[i].pinned && l.commits[j].pinned)
  }

  ghost predicate Disciplined(l: Ledger) {
    Counted(l) && Recorded(l) && NoTwoPinned(l)
  }

  lemma CommitKeepsDiscipline(l: Ledger, cfg: Config, channel: string, start: Start, now: Instant, reading: Reading,
                              id: nat)
    requires Disciplined(l) && CommitOf(l, cfg, channel, start, now, reading, id).Ok?
    ensures Disciplined(CommitOf(l, cfg, channel, start, now, reading, id).value.0)
  {
    var (l', added) := CommitOf(l, cfg, channel, start, now, reading, id).value;
    var mark := NewMark(l, channel, start, now, reading.complete);
    CommitShape(l, cfg, channel, start, now, reading, id);
    OneMoreCommit(l, l', PassRecord(channel, now, start.oldest, reading.complete, mark.mark, mark.pinned, added), mark);
  }

  lemma OneMoreCommit(l: Ledger, l': Ledger, r: PassRecord, mark: Watermark)
    requires Disciplined(l)
    requires l'.commits == l.commits + [r] && l'.marks == l.marks[r.channel := mark] && r.pinned == mark.pinned
    requires mark.truncated == if mark.pinned then 1 else 0
    requires r.channel in l.marks && l.marks[r.channel].pinned ==> !mark.pinned
    ensures Disciplined(l')
  {
    var n := |l.commits|;
    forall c, i | LastCommit(l', c, i) ensures c in l'.marks && l'.commits[i].pinned == l'.marks[c].pinned {
      if i < n {
        assert l'.commits[n].channel != c;
        assert forall j :: i <= j < n ==> l'.commits[j] == l.commits[j];
        assert LastCommit(l, c, i);
      }
    }
    forall i, j | Consecutive(l'.commits, i, j) ensures !(l'.commits[i].pinned && l'.commits[j].pinned) {
      assert forall k :: i <= k < n ==> l'.commits[k] == l.commits[k];
      if j < n {
        assert Consecutive(l.commits, i, j);
      } else {
        assert LastCommit(l, r.channel, i);
      }
    }
  }

  lemma StepKeepsDiscipline(cfg: Config, w: World, e: Event, w': World)
    requires Next(cfg, w, e, w') && Disciplined(w.ledger)
    ensures Disciplined(w'.ledger)
  {
    match e {
      case Commit(s, reading, id) =>
        var f := w.passes[s].flight.value;
        if CommitOf(w.ledger, cfg, f.channel, f.start, w.passes[s].now, reading, id).Ok? {
          CommitKeepsDiscipline(w.ledger, cfg, f.channel, f.start, w.passes[s].now, reading, id);
        }
      case Deliver(m, id) =>
        TakenAppends(w.ledger, m, cfg, w.clock, id, None);
        SameMarks(w.ledger, w'.ledger);
      case Overlook(event) =>
        SameMarks(w.ledger, w'.ledger);
      case Threads(waiting) =>
        SameMarks(w.ledger, w'.ledger);
      case _ =>
    }
  }

  lemma SameMarks(l: Ledger, l': Ledger)
    requires l.marks == l'.marks && l.commits == l'.commits && Disciplined(l)
    ensures Disciplined(l')
  {
    assert forall c, i :: LastCommit(l', c, i) ==> LastCommit(l, c, i);
  }

  /** Over every run, however many services interleave: the truncation count is 0 or 1, 1 exactly
      when pinned, and no channel is pinned by two commits in a row. */
  lemma {:induction false} PinnedAtMostOnce(cfg: Config, ws: seq<World>, es: seq<Event>)
    requires Run(cfg, ws, es) && Disciplined(ws[0].ledger)
    ensures Disciplined(ws[|es|].ledger)
  {
    var n := |es| - 1;
    if n >= 0 {
      PinnedAtMostOnce(cfg, ws[..n + 1], es[..n]);
      StepKeepsDiscipline(cfg, ws[n], es[n], ws[n + 1]);
    }
  }

  /** When exactly a commit moves its channel's mark back: it advances, and its pass took its
      time before the mark it read. */
  lemma MarkMovesBackExactly(l: Ledger, cfg: Config, channel: string, start: Start, now: Instant, reading: Reading,
                             id: nat)
    requires CommitOf(l, cfg, channel, start, now, reading, id).Ok? && channel in l.marks
    ensures var l' := CommitOf(l, cfg, channel, start, now, reading, id).value.0;
            l'.marks[channel].mark < l.marks[channel].mark
            <==> (reading.complete || l.marks[channel].truncated >= 1) && now < l.marks[channel].mark
  {
    IntakeAllAppends(l, Prepared(cfg, channel, reading.payloads), cfg, now, id);
  }

  /** A first pass that is cut short pins a mark in the future exactly when its window is under a minute and
      no message is stored, or the newest one bears a time after the pass's own. */
  lemma {:induction false} FreshPinExactly(l: Ledger, cfg: Config, channel: string, window: Instant,
                                           started: Option<Instant>,
                                           roots: seq<Instant>, now: Instant, reading: Reading, id: nat)
    requires channel !in l.marks && !reading.complete && window > 0
    requires CommitOf(l, cfg, channel, StartOf(l, cfg, channel, window, now, started, roots), now, reading, id).Ok?
    ensures var l' := CommitOf(l, cfg, channel, StartOf(l, cfg, channel, window, now, started, roots), now, reading,
                               id).value.0;
            var latest := LatestTs(l.messages, cfg.workspace, channel, started);
            && l'.marks[channel].pinned
            && (l'.marks[channel].mark > now <==> window < OVERLAP && (latest == None || latest.value > now))
  {
    CommitShape(l, cfg, channel, StartOf(l, cfg, channel, window, now, started, roots), now, reading, id);
  }

  /** Passes serialized by one pass lock, with windows of at least a minute. */
  ghost predicate Serialized(w: World, e: Event) {
    && (e.Enter? ==> w.passes == map[])
    && (e.Begin? ==> e.window >= OVERLAP)
  }

  ghost predicate MarksPast(w: World) {
    && (forall c :: c in w.ledger.marks ==> w.ledger.marks[c].mark <= w.clock)
    && (forall s, t :: s in w.passes && t in w.passes ==> s == t)
    && (forall s :: s in w.passes ==> PassPast(w, w.passes[s]))
  }

  ghost predicate PassPast(w: World, p: Pass) {
    && p.now <= w.clock
    && (forall c :: c in w.ledger.marks ==> w.ledger.marks[c].mark <= p.now)
    && (p.flight.Some? ==> p.flight.value.start.oldest + OVERLAP <= p.now)
  }

  lemma SerializedStep(cfg: Config, w: World, e: Event, w': World)
    requires Next(cfg, w, e, w') && Serialized(w, e) && MarksPast(w)
    ensures MarksPast(w')
    ensures forall c :: c in w.ledger.marks ==>
              c in w'.ledger.marks && w.ledger.marks[c].mark <= w'.ledger.marks[c].mark
  {
    match e {
      case Commit(s, reading, id) =>
        var p := w.passes[s];
        var f := p.flight.value;
        assert PassPast(w, p);
        if CommitOf(w.ledger, cfg, f.channel, f.start, p.now, reading, id).Ok? {
          CommitShape(w.ledger, cfg, f.channel, f.start, p.now, reading, id);
          IntakeAllAppends(w.ledger, Prepared(cfg, f.channel, reading.payloads), cfg, p.now, id);
          forall t | t in w'.passes ensures PassPast(w', w'.passes[t]) {
            assert t == s;
          }
        } else {
          KeepsPast(w, w');
        }
      case Begin(s, channel, window, started, roots) =>
        assert PassPast(w, w.passes[s]);
        forall t | t in w'.passes ensures PassPast(w', w'.passes[t]) {
          assert t == s;
        }
      case Deliver(m, id) =>
        TakenAppends(w.ledger, m, cfg, w.clock, id, None);
        KeepsPast(w, w');
      case _ =>
        if !e.Enter? {
          KeepsPast(w, w');
        }
    }
  }

  lemma KeepsPast(w: World, w': World)
    requires MarksPast(w) && w'.ledger.marks == w.ledger.marks && w.clock <= w'.clock
    requires forall s :: s in w'.passes ==> s in w.passes && w'.passes[s] == w.passes[s]
    ensures MarksPast(w')
  {
    forall s | s in w'.passes ensures PassPast(w', w'.passes[s]) {
      assert PassPast(w, w.passes[s]);
    }
  }

  /** With passes serialized and windows of at least a minute, no mark ever moves back. */
  lemma {:induction false} MarkNeverMovesBack(cfg: Config, ws: seq<World>, es: seq<Event>, c: string)
    requires Run(cfg, ws, es) && MarksPast(ws[0]) && c in ws[0].ledger.marks
    requires forall i :: 0 <= i < |es| ==> Serialized(ws[i], es[i])
    ensures MarksPast(ws[|es|])
    ensures c in ws[|es|].ledger.marks && ws[0].ledger.marks[c].mark <= ws[|es|].ledger.marks[c].mark
  {
    var n := |es| - 1;
    if n >= 0 {
      MarkNeverMovesBack(cfg, ws[..n + 1], es[..n], c);
      SerializedStep(cfg, ws[n], es[n], ws[n + 1]);
    }
  }

  // ----- no loss -----

  /** The key's message is stored, or a committed pass found it at least seven days old, or it lies
      in the window of a pass that committed a gap note. */
  ghost predicate Accounted(l: Ledger, k: Key) {
    || HasKey(l, k)
    || (exists r :: r in l.commits && r.channel == k.channel && k.ts <= r.at - MAX_WINDOW)
    || (exists n :: n in l.notes && n.Gap? && n.channel == k.channel && n.oldest <= k.ts <= n.at)
  }

  /** Slack shows the message within a minute: a complete reading whose window it lies in holds it. */
  ghost predicate Shown(w: World, e: Event, k: Key) {
    e.Commit? && e.service in w.passes && w.passes[e.service].flight.Some? ==>
      var p := w.passes[e.service];
      p.flight.value.channel == k.channel && e.reading.complete
      && p.flight.value.start.oldest < k.ts <= p.now - OVERLAP ==>
        exists q :: q in e.reading.payloads && q.ts == k.ts && q.item.supported
  }

  /** No live event carries the catch-up ID of another message. */
  ghost predicate Genuine(cfg: Config, e: Event) {
    e.Deliver? && e.message.event.Caught? ==>
      e.message.Place() == Key(cfg.workspace, e.message.event.channel, e.message.event.ts)
  }

  ghost predicate NoForgery(cfg: Config, l: Ledger) {
    forall i :: 0 <= i < |l.messages| && l.messages[i].message.event.Caught? ==>
      var m := l.messages[i].message; m.Place() == Key(cfg.workspace, m.event.channel, m.event.ts)
  }

  /** The start of the guarantee on a channel: the mark it already had, less the overlap, or
      else where the first committed pass began to read. */
  ghost predicate Since(init: Ledger, l: Ledger, c: string, from: Instant) {
    if c in init.marks then from == init.marks[c].mark - OVERLAP
    else exists i :: FirstCommit(l, c, i) && from == l.commits[i].oldest
  }

  ghost predicate FirstCommit(l: Ledger, c: string, i: int) {
    && 0 <= i < |l.commits| && l.commits[i].channel == c
    && forall j :: 0 <= j < i ==> l.commits[j].channel != c
  }

  ghost predicate Caughtup(init: Ledger, l: Ledger, k: Key) {
    k.channel in l.marks ==>
      forall from :: Since(init, l, k.channel, from) && from < k.ts <= l.marks[k.channel].mark - OVERLAP ==>
            Accounted(l, k)
  }

  ghost predicate FlightsReach(w: World) {
    forall s :: s in w.passes && w.passes[s].flight.Some? ==>
      Reaches(w.passes[s].flight.value.start, w.passes[s].now)
  }

  /** A pass that read a mark goes back to its overlap, unless that is over seven days ago. */
  ghost predicate Reaches(start: Start, now: Instant) {
    start.mark.Some? ==> start.oldest <= start.mark.value - OVERLAP || start.oldest == now - MAX_WINDOW
  }

  ghost predicate MarksRecorded(l: Ledger, init: Ledger) {
    && (forall c :: c in init.marks ==> c in l.marks)
    && (forall r :: r in l.commits ==> r.channel in l.marks)
    && forall c :: c in l.marks && c !in init.marks ==> exists i :: FirstCommit(l, c, i)
  }

  ghost predicate Sound(cfg: Config, init: Ledger, w: World, k: Key) {
    NoForgery(cfg, w.ledger) && FlightsReach(w) && MarksRecorded(w.ledger, init) && Caughtup(init, w.ledger, k)
  }

  lemma AccountedStays(l: Ledger, l': Ledger, k: Key)
    requires l.messages <= l'.messages && l.inbox <= l'.inbox && l.commits <= l'.commits
    requires forall n :: n in l.notes ==> n in l'.notes
    requires Accounted(l, k)
    ensures Accounted(l', k)
  {
    StoredStays(l, l');
    assert forall r :: r in l.commits ==> r in l'.commits;
  }

  lemma SinceFixed(init: Ledger, l: Ledger, l': Ledger, c: string, from: Instant)
    requires l.commits <= l'.commits && Since(init, l', c, from)
    requires c !in init.marks ==> exists i :: FirstCommit(l, c, i)
    ensures Since(init, l, c, from)
  {
    if c !in init.marks {
      var i :| FirstCommit(l, c, i);
      assert FirstCommit(l', c, i);
      var j :| FirstCommit(l', c, j) && from == l'.commits[j].oldest;
      assert i == j;
    }
  }

  lemma {:induction false} PreparedHolds(cfg: Config, channel: string, ps: seq<Payload>, q: Payload)
    requires q in ps && q.item.supported
    ensures ToMessage(cfg, channel, q) in Prepared(cfg, channel, ps)
  {
    var n := |ps| - 1;
    if ps[n] != q {
      assert ps == ps[..n] + [ps[n]];
      PreparedHolds(cfg, channel, ps[..n], q);
    }
  }

  lemma {:induction false} PreparedGenuine(cfg: Config, channel: string, ps: seq<Payload>)
    ensures forall m :: m in Prepared(cfg, channel, ps) ==>
              m.event == Caught(m.channel, m.ts) && m.workspace == cfg.workspace
  {
    if ps != [] {
      PreparedGenuine(cfg, channel, ps[..|ps| - 1]);
    }
  }

  lemma {:induction false} IntakeAllStores(l: Ledger, ms: seq<Message>, cfg: Config, now: Instant, id: nat)
    requires IntakeAll(l, ms, cfg, now, id).Ok? && NoForgery(cfg, l)
    requires forall m :: m in ms ==> m.event == Caught(m.channel, m.ts) && m.workspace == cfg.workspace
    ensures NoForgery(cfg, IntakeAll(l, ms, cfg, now, id).value.0)
    ensures forall m :: m in ms ==> HasKey(IntakeAll(l, ms, cfg, now, id).value.0, m.Place())
  {
    if ms != [] {
      var n := |ms| - 1;
      IntakeAllStores(l, ms[..n], cfg, now, id);
      var l1 := IntakeAll(l, ms[..n], cfg, now, id).value.0;
      var l2 := IntakeAll(l, ms, cfg, now, id).value.0;
      assert ms[n] in ms;
      OneStored(l1, ms[n], cfg, now, id + n, Some(now - DAY));
      assert l2 == Taken(l1, ms[n], cfg, now, id + n, Some(now - DAY));
      forall m | m in ms ensures HasKey(l2, m.Place()) {
        if m != ms[n] {
          assert m in ms[..n];
        }
      }
    }
  }

  lemma OneStored(l: Ledger, m: Message, cfg: Config, now: Instant, id: nat, cutoff: Option<Instant>)
    requires NoForgery(cfg, l) && m.event == Caught(m.channel, m.ts) && m.workspace == cfg.workspace
    ensures var l' := Taken(l, m, cfg, now, id, cutoff);
            NoForgery(cfg, l') && HasKey(l', m.Place()) && forall k :: HasKey(l, k) ==> HasKey(l', k)
  {
    var l' := Taken(l, m, cfg, now, id, cutoff);
    TakenAppends(l, m, cfg, now, id, cutoff);
    StoredStays(l, l');
    if HasEvent(l', m.event) {
      var i :| 0 <= i < |l'.messages| && l'.messages[i].message.event == m.event;
    }
  }

  lemma {:induction false} SkipsGrow(notes: seq<Note>, channel: string, gaps: seq<(Instant, string)>)
    ensures notes <= NoteSkips(notes, channel, gaps)
  {
    if gaps != [] {
      SkipsGrow(notes, channel, gaps[..|gaps| - 1]);
    }
  }

  lemma {:induction false} DropsGrow(notes: seq<Note>, es: seq<EventId>)
    ensures notes <= NoteDrops(notes, es)
  {
    if es != [] {
      DropsGrow(notes, es[..|es| - 1]);
    }
  }

  /** A commit keeps every note, and an advancing truncated pass leaves a gap note over its window. */
  lemma {:induction false} CommitNotes(l: Ledger, cfg: Config, channel: string, start: Start, now: Instant,
                                       reading: Reading, id: nat)
    requires CommitOf(l, cfg, channel, start, now, reading, id).Ok?
    ensures var l' := CommitOf(l, cfg, channel, start, now, reading, id).value.0;
            && (forall n :: n in l.notes ==> n in l'.notes)
            && (!reading.complete && Runs(l, channel) >= 2 ==>
                  Gap(channel, start.oldest, FirstRead(now, reading.payloads), now, Runs(l, channel)) in l'.notes)
  {
    IntakeAllAppends(l, Prepared(cfg, channel, reading.payloads), cfg, now, id);
    var skips := NoteSkips(l.notes, channel, reading.gaps);
    SkipsGrow(l.notes, channel, reading.gaps);
    DropsGrow(skips, Dropped(cfg, channel, reading.payloads));
  }

  lemma CommitIsSound(cfg: Config, init: Ledger, l: Ledger, k: Key, start: Start, now: Instant, reading: Reading,
                      id: nat)
    requires k.workspace == cfg.workspace
    requires NoForgery(cfg, l) && MarksRecorded(l, init) && Caughtup(init, l, k) && Reaches(start, now)
    requires CommitOf(l, cfg, k.channel, start, now, reading, id).Ok?
    requires reading.complete && start.oldest < k.ts <= now - OVERLAP ==>
               exists q :: q in reading.payloads && q.ts == k.ts && q.item.supported
    ensures Caughtup(init, CommitOf(l, cfg, k.channel, start, now, reading, id).value.0, k)
  {
    var c := k.channel;
    var l' := CommitOf(l, cfg, c, start, now, reading, id).value.0;
    var ms := Prepared(cfg, c, reading.payloads);
    CommitShape(l, cfg, c, start, now, reading, id);
    var r := l'.commits[|l.commits|];
    CommitNotes(l, cfg, c, start, now, reading, id);
    assert r in l'.commits;
    forall from | Since(init, l', c, from) && from < k.ts <= l'.marks[c].mark - OVERLAP ensures Accounted(l', k) {
      if start.mark == None {
        assert FirstCommit(l', c, |l.commits|) by {
          assert forall j :: 0 <= j < |l.commits| ==> l'.commits[j] == l.commits[j] && l.commits[j] in l.commits;
        }
        assert from == start.oldest;
      } else {
        SinceFixed(init, l, l', c, from);
        if k.ts <= l.marks[c].mark - OVERLAP {
          AccountedStays(l, l', k);
        }
      }
      if reading.complete && start.oldest < k.ts <= now - OVERLAP {
        var q :| q in reading.payloads && q.ts == k.ts && q.item.supported;
        PreparedHolds(cfg, c, reading.payloads, q);
        PreparedGenuine(cfg, c, reading.payloads);
        IntakeAllStores(l, ms, cfg, now, id);
        SameRows(IntakeAll(l, ms, cfg, now, id).value.0, l');
      }
    }
  }

  lemma OtherChannelSound(cfg: Config, init: Ledger, l: Ledger, l': Ledger, k: Key)
    requires MarksRecorded(l, init) && Caughtup(init, l, k)
    requires l.messages <= l'.messages && l.inbox <= l'.inbox && l.commits <= l'.commits
    requires forall n :: n in l.notes ==> n in l'.notes
    requires k.channel in l'.marks ==> k.channel in l.marks && l'.marks[k.channel] == l.marks[k.channel]
    ensures Caughtup(init, l', k)
  {
    if k.channel in l'.marks {
      forall from | Since(init, l', k.channel, from) && from < k.ts <= l'.marks[k.channel].mark - OVERLAP
        ensures Accounted(l', k)
      {
        SinceFixed(init, l, l', k.channel, from);
        AccountedStays(l, l', k);
      }
    }
  }

  lemma CommitKeepsRecorded(init: Ledger, l: Ledger, l': Ledger, r: PassRecord, mark: Watermark)
    requires MarksRecorded(l, init)
    requires l'.commits == l.commits + [r] && l'.marks == l.marks[r.channel := mark]
    ensures MarksRecorded(l', init)
  {
    forall c | c in l'.marks && c !in init.marks ensures exists i :: FirstCommit(l', c, i) {
      if c in l.marks {
        var i :| FirstCommit(l, c, i);
        assert forall j :: 0 <= j <= i ==> l'.commits[j] == l.commits[j];
        assert FirstCommit(l', c, i);
      } else {
        assert forall j :: 0 <= j < |l.commits| ==> l'.commits[j] == l.commits[j] && l.commits[j] in l.commits;
        assert FirstCommit(l', c, |l.commits|);
      }
    }
  }

  lemma CommitKeepsGenuine(cfg: Config, l: Ledger, channel: string, start: Start, now: Instant, reading: Reading,
                           id: nat)
    requires NoForgery(cfg, l) && CommitOf(l, cfg, channel, start, now, reading, id).Ok?
    ensures NoForgery(cfg, CommitOf(l, cfg, channel, start, now, reading, id).value.0)
  {
    var ms := Prepared(cfg, channel, reading.payloads);
    PreparedGenuine(cfg, channel, reading.payloads);
    IntakeAllStores(l, ms, cfg, now, id);
  }

  lemma CommitStepIsSound(cfg: Config, init: Ledger, w: World, s: nat, reading: Reading, id: nat, w': World, k: Key)
    requires Next(cfg, w, Event.Commit(s, reading, id), w') && k.workspace == cfg.workspace
    requires Sound(cfg, init, w, k) && Shown(w, Event.Commit(s, reading, id), k)
    ensures Sound(cfg, init, w', k)
  {
    var p := w.passes[s];
    var f := p.flight.value;
    var l, l' := w.ledger, w'.ledger;
    assert Reaches(f.start, p.now);
    if CommitOf(l, cfg, f.channel, f.start, p.now, reading, id).Ok? {
      CommitShape(l, cfg, f.channel, f.start, p.now, reading, id);
      CommitNotes(l, cfg, f.channel, f.start, p.now, reading, id);
      CommitKeepsGenuine(cfg, l, f.channel, f.start, p.now, reading, id);
      CommitKeepsRecorded(init, l, l', l'.commits[|l.commits|], l'.marks[f.channel]);
      if f.channel == k.channel {
        CommitIsSound(cfg, init, l, k, f.start, p.now, reading, id);
      } else {
        OtherChannelSound(cfg, init, l, l', k);
      }
    }
  }

  lemma SoundStep(cfg: Config, init: Ledger, w: World, e: Event, w': World, k: Key)
    requires Next(cfg, w, e, w') && k.workspace == cfg.workspace
    requires Sound(cfg, init, w, k) && Shown(w, e, k) && Genuine(cfg, e)
    ensures Sound(cfg, init, w', k)
  {
    match e {
      case Commit(s, reading, id) => CommitStepIsSound(cfg, init, w, s, reading, id, w', k);
      case Deliver(m, id) =>
        TakenAppends(w.ledger, m, cfg, w.clock, id, None);
        assert forall c, i :: FirstCommit(w.ledger, c, i) ==> FirstCommit(w'.ledger, c, i);
        OtherChannelSound(cfg, init, w.ledger, w'.ledger, k);
      case Overlook(event) =>
        assert forall c, i :: FirstCommit(w.ledger, c, i) ==> FirstCommit(w'.ledger, c, i);
        OtherChannelSound(cfg, init, w.ledger, w'.ledger, k);
      case Threads(waiting) =>
        assert forall c, i :: FirstCommit(w.ledger, c, i) ==> FirstCommit(w'.ledger, c, i);
        OtherChannelSound(cfg, init, w.ledger, w'.ledger, k);
      case _ =>
    }
  }

  /** No loss. Over every run of complete, truncated, pinned and failed passes by any number of
      services, with live deliveries and crashes between: whatever Slack shows within a minute,
      from where the first committed pass began to read (or from the mark the channel already
      had) up to a minute before the mark, is stored, was at least seven days old at a committed
      pass, or lies in the window of a pass that noted a gap. */
  lemma {:induction false} NoLoss(cfg: Config, ws: seq<World>, es: seq<Event>, k: Key, from: Instant)
    requires Run(cfg, ws, es) && k.workspace == cfg.workspace
    requires ws[0].passes == map[] && NoForgery(cfg, ws[0].ledger)
    requires forall r :: r in ws[0].ledger.commits ==> r.channel in ws[0].ledger.marks
    requires forall i :: 0 <= i < |es| ==> Shown(ws[i], es[i], k) && Genuine(cfg, es[i])
    ensures var init, l := ws[0].ledger, ws[|es|].ledger;
            (k.channel in l.marks && Since(init, l, k.channel, from)
             && from < k.ts <= l.marks[k.channel].mark - OVERLAP) ==> Accounted(l, k)
  {
    RunIsSound(cfg, ws, es, k);
  }

  lemma {:induction false} RunIsSound(cfg: Config, ws: seq<World>, es: seq<Event>, k: Key)
    requires Run(cfg, ws, es) && k.workspace == cfg.workspace
    requires ws[0].passes == map[] && NoForgery(cfg, ws[0].ledger)
    requires forall r :: r in ws[0].ledger.commits ==> r.channel in ws[0].ledger.marks
    requires forall i :: 0 <= i < |es| ==> Shown(ws[i], es[i], k) && Genuine(cfg, es[i])
    ensures Sound(cfg, ws[0].ledger, ws[|es|], k)
  {
    var n := |es| - 1;
    if n >= 0 {
      RunIsSound(cfg, ws[..n + 1], es[..n], k);
      SoundStep(cfg, ws[0].ledger, ws[n], es[n], ws[n + 1], k);
    }
  }

  // ----- where the guarantee does not reach -----

  const EMPTY: Ledger := Ledger([], [], [], {}, map[], [], [])

  const NOTHING: Reading := Reading([], true, [])

  function Oldest(now: Instant, window: Instant): Instant {
    Max(now - window, now - MAX_WINDOW)
  }

  /** Where a pass on an empty ledger begins. */
  lemma EmptyStart(cfg: Config, c: string, window: Instant, now: Instant, started: Option<Instant>)
    ensures StartOf(EMPTY, cfg, c, window, now, started, []) == Start(Oldest(now, window), [], None)
  {
    assert LatestTs([], cfg.workspace, c, started) == None;
  }

  lemma EmptyCommit(cfg: Config, c: string, start: Start, now: Instant) returns (l: Ledger)
    requires start.mark == None
    ensures CommitOf(EMPTY, cfg, c, start, now, NOTHING, 0) == Ok((l, 0))
    ensures c in l.marks && l.marks[c].mark == now && l.messages == [] && l.notes == []
    ensures |l.commits| == 1 && l.commits[0].at == now
  {
    l := CommitOf(EMPTY, cfg, c, start, now, NOTHING, 0).value.0;
  }

  /** A pass of service `s`, entered and begun on an empty ledger. */
  lemma BeginsOnNothing(cfg: Config, c: string, now: Instant, window: Instant, s: nat)
    returns (ws: seq<World>, es: seq<Event>)
    requires c in cfg.channels && window > 0
    ensures Run(cfg, ws, es) && |es| == 2 && es[0] == Enter(s) && es[1] == Begin(s, c, window, None, [])
    ensures ws[0] == World(now, EMPTY, map[])
    ensures ws[2] == World(now, EMPTY, map[s := Pass(now, Some(Flight(c, Start(Oldest(now, window), [], None))))])
  {
    var w0 := World(now, EMPTY, map[]);
    var w1 := w0.(passes := map[s := Pass(now, None)]);
    var w2 := w0.(passes := map[s := Pass(now, Some(Flight(c, Start(Oldest(now, window), [], None))))]);
    EmptyStart(cfg, c, window, now, None);
    ws, es := [w0, w1, w2], [Enter(s), Begin(s, c, window, None, [])];
    assert Next(cfg, w0, es[0], w1) && Next(cfg, w1, es[1], w2);
  }

  lemma RunsJoin(cfg: Config, ws: seq<World>, es: seq<Event>, ws': seq<World>, es': seq<Event>)
    requires Run(cfg, ws, es) && Run(cfg, ws', es') && ws[|es|] == ws'[0]
    ensures Run(cfg, ws + ws'[1..], es + es')
  {
    var all, both := ws + ws'[1..], es + es';
    forall i | 0 <= i < |both| ensures Next(cfg, all[i], both[i], all[i + 1]) {
      if i < |es| {
        assert Next(cfg, ws[i], es[i], ws[i + 1]);
      } else {
        assert Next(cfg, ws'[i - |es|], es'[i - |es|], ws'[i - |es| + 1]);
      }
    }
  }

  lemma OneStep(cfg: Config, w: World, e: Event, w': World)
    requires Next(cfg, w, e, w')
    ensures Run(cfg, [w, w'], [e])
  {
  }

  predicate BeginsAt(w: World, e: Event, c: string, now: Instant, window: Instant) {
    && e.Begin? && e.channel == c && e.window == window
    && e.service in w.passes && w.passes[e.service] == Pass(now, None)
  }

  /** The guarantee cannot start at a first pass that failed. Whatever the times and windows of that pass and
      of the later first committed one: a message after the start of the first that the second's window no
      longer reaches, though it is less than seven days old, is accounted for by nothing. */
  lemma FailedFirstPassMayLose(cfg: Config, k: Key, failed: Instant, window: Instant, later: Instant, window': Instant)
    returns (ws: seq<World>, es: seq<Event>)
    requires k.workspace == cfg.workspace && k.channel in cfg.channels && failed <= later && window > 0 && window' > 0
    requires Oldest(failed, window) < k.ts <= Oldest(later, window') && later - MAX_WINDOW < k.ts <= later - OVERLAP
    ensures Run(cfg, ws, es) && ws[0] == World(failed, EMPTY, map[])
    ensures forall i :: 0 <= i < |es| ==> Shown(ws[i], es[i], k) && Genuine(cfg, es[i])
    ensures |es| == 7 && BeginsAt(ws[1], es[1], k.channel, failed, window) && es[2].Leave?
            && es[2].service == es[1].service
    ensures BeginsAt(ws[5], es[5], k.channel, later, window') && es[6].Commit? && es[6].service == es[5].service
    ensures var l := ws[7].ledger;
            k.channel in l.marks && l.marks[k.channel].mark == later && !Accounted(l, k)
  {
    var c := k.channel;
    var wa, ea := BeginsOnNothing(cfg, c, failed, window, 1);
    var wb, eb := BeginsOnNothing(cfg, c, later, window', 2);
    var w0, start := World(failed, EMPTY, map[]), Start(Oldest(later, window'), [], None);
    assert wa[2].passes - {1} == map[];
    OneStep(cfg, wa[2], Leave(1), w0);
    OneStep(cfg, w0, Tick(later), wb[0]);
    var l := EmptyCommit(cfg, c, start, later);
    var end := World(later, l, map[2 := Pass(later, None)]);
    assert wb[2].passes[2 := Pass(later, None)] == map[2 := Pass(later, None)];
    OneStep(cfg, wb[2], Event.Commit(2, NOTHING, 0), end);
    RunsJoin(cfg, wa, ea, [wa[2], w0], [Leave(1)]);
    RunsJoin(cfg, wa + [w0], ea + [Leave(1)], [w0, wb[0]], [Tick(later)]);
    var front, first := wa + [w0] + [wb[0]], ea + [Leave(1)] + [Tick(later)];
    RunsJoin(cfg, front, first, wb, eb);
    RunsJoin(cfg, front + wb[1..], first + eb, [wb[2], end], [Event.Commit(2, NOTHING, 0)]);
    ws, es := front + wb[1..] + [end], first + eb + [Event.Commit(2, NOTHING, 0)];
    assert !HasKey(l, k);
    assert forall r :: r in l.commits ==> r == l.commits[0];
  }

  /** A complete pass of service 2 at `now`, over a channel that has a mark. */
  lemma MarkedPass(cfg: Config, c: string, l: Ledger, now: Instant, window: Instant)
    returns (ws: seq<World>, es: seq<Event>)
    requires c in cfg.channels && window > 0 && c in l.marks
    ensures Run(cfg, ws, es) && |es| == 3 && es[0] == Enter(2) && es[1] == Begin(2, c, window, None, [])
            && es[2].Commit?
    ensures ws[0] == World(now, l, map[]) && ws[2].ledger == l
    ensures c in ws[3].ledger.marks && ws[3].ledger.marks[c].mark == now
  {
    var start := StartOf(l, cfg, c, window, now, None, []);
    var w0 := World(now, l, map[]);
    var w1 := World(now, l, map[2 := Pass(now, None)]);
    var w2 := World(now, l, map[2 := Pass(now, Some(Flight(c, start)))]);
    var w3 := World(now, CommitOf(l, cfg, c, start, now, NOTHING, 0).value.0, map[2 := Pass(now, None)]);
    ws, es := [w0, w1, w2, w3], [Enter(2), Begin(2, c, window, None, []), Event.Commit(2, NOTHING, 0)];
    assert Next(cfg, w0, es[0], w1) && Next(cfg, w1, es[1], w2) && Next(cfg, w2, es[2], w3);
  }

  /** A truncated first pass pins the mark a minute after its start. */
  lemma CutPass(cfg: Config, c: string, now: Instant, window: Instant)
    returns (ws: seq<World>, es: seq<Event>, l: Ledger)
    requires c in cfg.channels && 0 < window <= MAX_WINDOW
    ensures Run(cfg, ws, es) && |es| == 4 && es[0] == Enter(1) && es[1] == Begin(1, c, window, None, [])
    ensures es[2].Commit? && es[3] == Leave(1)
    ensures ws[0] == World(now, EMPTY, map[]) && ws[4] == World(now, l, map[])
    ensures c in l.marks && l.marks[c].mark == now - window + OVERLAP
  {
    var commit := Event.Commit(1, Reading([], false, []), 0);
    ws, es := BeginsOnNothing(cfg, c, now, window, 1);
    l := CommitOf(EMPTY, cfg, c, Start(Oldest(now, window), [], None), now, Reading([], false, []), 0).value.0;
    var w3, w4 := World(now, l, map[1 := Pass(now, None)]), World(now, l, map[]);
    assert ws[2].passes[1 := Pass(now, None)] == map[1 := Pass(now, None)] && w3.passes - {1} == map[];
    OneStep(cfg, ws[2], commit, w3);
    OneStep(cfg, w3, Leave(1), w4);
    RunsJoin(cfg, ws, es, [ws[2], w3], [commit]);
    RunsJoin(cfg, ws + [w3], es + [commit], [w3, w4], [Leave(1)]);
    ws, es := ws + [w3] + [w4], es + [commit] + [Leave(1)];
  }

  /** A mark moves back with one service, when windows are under a minute: a truncated first pass pins it in
      the future, and a complete one before that instant sets it to its own time. */
  lemma ShortWindowMovesMarkBack(cfg: Config, c: string, first: Instant, window: Instant, later: Instant)
    returns (ws: seq<World>, es: seq<Event>)
    requires c in cfg.channels && 0 < window < OVERLAP && first <= later < first - window + OVERLAP
    ensures Run(cfg, ws, es) && ws[0] == World(first, EMPTY, map[]) && |es| == 8
    ensures forall i :: 0 <= i < 8 ==>
              (es[i].Enter? ==> ws[i].passes == map[]) && (es[i].Begin? ==> es[i].window == window)
    ensures c in ws[7].ledger.marks && c in ws[8].ledger.marks
            && ws[7].ledger.marks[c].mark == first - window + OVERLAP && ws[8].ledger.marks[c].mark == later
  {
    var wa, ea, l := CutPass(cfg, c, first, window);
    var wb, eb := MarkedPass(cfg, c, l, later, window);
    OneStep(cfg, wa[4], Tick(later), wb[0]);
    RunsJoin(cfg, wa, ea, [wa[4], wb[0]], [Tick(later)]);
    RunsJoin(cfg, wa + [wb[0]], ea + [Tick(later)], wb, eb);
    ws, es := wa + [wb[0]] + wb[1..], ea + [Tick(later)] + eb;
  }

  /** A mark moves back with two services, whatever their windows: one takes its time, the other passes and
      commits, and then the first begins on the new mark and commits its earlier time. */
  lemma TwoServicesMoveMarkBack(cfg: Config, c: string, early: Instant, late: Instant, window: Instant)
    returns (ws: seq<World>, es: seq<Event>)
    requires c in cfg.channels && early < late && window > 0
    ensures Run(cfg, ws, es) && ws[0] == World(early, EMPTY, map[]) && |es| == 7
    ensures forall i :: 0 <= i < 7 ==> (es[i].Begin? ==> es[i].window == window)
    ensures c in ws[6].ledger.marks && c in ws[7].ledger.marks
            && ws[6].ledger.marks[c].mark == late && ws[7].ledger.marks[c].mark == early
  {
    var one := Pass(early, None);
    var w0, w1, w2 := World(early, EMPTY, map[]), World(early, EMPTY, map[1 := one]), World(late, EMPTY, map[1 := one]);
    var w3 := World(late, EMPTY, map[1 := one, 2 := Pass(late, None)]);
    var start := Start(Oldest(late, window), [], None);
    EmptyStart(cfg, c, window, late, None);
    var w4 := World(late, EMPTY, map[1 := one, 2 := Pass(late, Some(Flight(c, start)))]);
    var l := EmptyCommit(cfg, c, start, late);
    var w5 := World(late, l, map[1 := one, 2 := Pass(late, None)]);
    var again := StartOf(l, cfg, c, window, early, None, []);
    var w6 := World(late, l, map[1 := Pass(early, Some(Flight(c, again))), 2 := Pass(late, None)]);
    var w7 := World(late, CommitOf(l, cfg, c, again, early, NOTHING, 0).value.0, map[1 := one, 2 := Pass(late, None)]);
    es := [Enter(1), Tick(late), Enter(2), Begin(2, c, window, None, []), Event.Commit(2, NOTHING, 0),
           Begin(1, c, window, None, []), Event.Commit(1, NOTHING, 0)];
    ws := [w0, w1, w2, w3, w4, w5, w6, w7];
    SwapPass(w2.passes, w3.passes, w4.passes, w5.passes, w6.passes, early, late, Flight(c, start), Flight(c, again));
    assert Next(cfg, w0, es[0], w1) && Next(cfg, w1, es[1], w2) && Next(cfg, w2, es[2], w3);
    assert Next(cfg, w3, es[3], w4);
    assert Next(cfg, w4, es[4], w5);
    assert Next(cfg, w5, es[5], w6);
    assert Next(cfg, w6, es[6], w7);
  }

  lemma SwapPass(p2: map<nat, Pass>, p3: map<nat, Pass>, p4: map<nat, Pass>, p5: map<nat, Pass>, p6: map<nat, Pass>,
                 early: Instant, late: Instant, f: Flight, g: Flight)
    requires p2 == map[1 := Pass(early, None)] && p3 == map[1 := Pass(early, None), 2 := Pass(late, None)] && p5 == p3
    requires p4 == map[1 := Pass(early, None), 2 := Pass(late, Some(f))]
    requires p6 == map[1 := Pass(early, Some(g)), 2 := Pass(late, None)]
    ensures p3 == p2[2 := Pass(late, None)] && p4 == p3[2 := Pass(late, Some(f))] && p5 == p4[2 := Pass(late, None)]
    ensures p6 == p5[1 := Pass(early, Some(g))] && p5 == p6[1 := Pass(early, None)]
  {
  }

  /** A stored message bears the catch-up ID of another. */
  ghost predicate Forged(l: Ledger, k: Key) {
    HasEvent(l, Caught(k.channel, k.ts)) && !HasKey(l, k)
  }

  lemma {:induction false} IntakeKeepsForged(l: Ledger, ms: seq<Message>, cfg: Config, now: Instant, id: nat, k: Key)
    requires IntakeAll(l, ms, cfg, now, id).Ok? && Forged(l, k)
    requires forall m :: m in ms ==> m.Place() == k ==> m.event == Caught(k.channel, k.ts)
    ensures Forged(IntakeAll(l, ms, cfg, now, id).value.0, k)
  {
    if ms != [] {
      var n := |ms| - 1;
      IntakeKeepsForged(l, ms[..n], cfg, now, id, k);
      var l1, l2 := IntakeAll(l, ms[..n], cfg, now, id).value.0, IntakeAll(l, ms, cfg, now, id).value.0;
      assert ms[n] in ms;
      TakenAppends(l1, ms[n], cfg, now, id + n, Some(now - DAY));
      StoredStays(l1, l2);
      OnlyItsOwnKey(l1, ms[n], cfg, now, id + n, Some(now - DAY), k);
    }
  }

  /** Taking a message in stores no other key. */
  lemma OnlyItsOwnKey(l: Ledger, m: Message, cfg: Config, now: Instant, id: nat, cutoff: Option<Instant>, k: Key)
    ensures HasKey(Taken(l, m, cfg, now, id, cutoff), k) ==> HasKey(l, k) || (m.Place() == k && !Duplicate(l, m))
  {
    var l' := Taken(l, m, cfg, now, id, cutoff);
    if HasKey(l', k) && !Duplicate(l, m) && m.Place() != k {
      var i :| 0 <= i < |l'.messages| && l'.messages[i].message.Place() == k;
      assert l.messages[i] == l'.messages[i];
    }
  }

  lemma CommitKeepsForged(l: Ledger, cfg: Config, channel: string, start: Start, now: Instant, reading: Reading,
                          id: nat, k: Key)
    requires CommitOf(l, cfg, channel, start, now, reading, id).Ok? && Forged(l, k)
    ensures Forged(CommitOf(l, cfg, channel, start, now, reading, id).value.0, k)
  {
    var ms := Prepared(cfg, channel, reading.payloads);
    PreparedGenuine(cfg, channel, reading.payloads);
    IntakeKeepsForged(l, ms, cfg, now, id, k);
    SameRows(IntakeAll(l, ms, cfg, now, id).value.0, CommitOf(l, cfg, channel, start, now, reading, id).value.0);
  }

  lemma StepKeepsForged(cfg: Config, w: World, e: Event, w': World, k: Key)
    requires Next(cfg, w, e, w') && Forged(w.ledger, k) && !(e.Deliver? && e.message.Place() == k)
    ensures Forged(w'.ledger, k)
  {
    match e {
      case Commit(s, reading, id) =>
        var p := w.passes[s];
        var f := p.flight.value;
        if CommitOf(w.ledger, cfg, f.channel, f.start, p.now, reading, id).Ok? {
          CommitKeepsForged(w.ledger, cfg, f.channel, f.start, p.now, reading, id, k);
        }
      case Deliver(m, id) =>
        TakenAppends(w.ledger, m, cfg, w.clock, id, None);
        StoredStays(w.ledger, Taken(w.ledger, m, cfg, w.clock, id, None));
        OnlyItsOwnKey(w.ledger, m, cfg, w.clock, id, None, k);
      case Overlook(event) =>
        SameRows(w.ledger, w'.ledger);
      case Threads(waiting) =>
        SameRows(w.ledger, w'.ledger);
      case _ =>
    }
  }

  /** A stored message with another's catch-up ID hides that other from every catch-up pass: over any run
      without a live delivery of it, it is not stored. This is why `NoLoss` asks for genuine IDs. */
  lemma {:induction false} ForgedIdHides(cfg: Config, ws: seq<World>, es: seq<Event>, k: Key)
    requires Run(cfg, ws, es) && Forged(ws[0].ledger, k)
    requires forall i :: 0 <= i < |es| ==> !(es[i].Deliver? && es[i].message.Place() == k)
    ensures !HasKey(ws[|es|].ledger, k) && Forged(ws[|es|].ledger, k)
  {
    var n := |es| - 1;
    if n >= 0 {
      ForgedIdHides(cfg, ws[..n + 1], es[..n], k);
      StepKeepsForged(cfg, ws[n], es[n], ws[n + 1], k);
    }
  }

  // ----- refused threads -----

  lemma {:induction false} SkipsNoted(notes: seq<Note>, channel: string, gaps: seq<(Instant, string)>,
                                      gap: (Instant, string))
    requires gap in gaps
    ensures SkipNoted(NoteSkips(notes, channel, gaps), channel, gap.0)
  {
    var n := |gaps| - 1;
    var rest := NoteSkips(notes, channel, gaps[..n]);
    if gaps[n] != gap {
      assert gaps == gaps[..n] + [gaps[n]];
      SkipsNoted(notes, channel, gaps[..n], gap);
      var x :| x in rest && x.SkippedThread? && x.channel == channel && x.root == gap.0;
      assert x in NoteSkips(notes, channel, gaps);
    } else if !SkipNoted(rest, channel, gap.0) {
      assert SkippedThread(channel, gap.0, gap.1) in NoteSkips(notes, channel, gaps);
    }
  }

  /** After a complete pass commits, every thread it knew of, from the store or from the history it read, was
      read to the end of the list served for it, or has a skipped-thread note in the ledger. */
  lemma ThreadsReadOrNoted(l: Ledger, cfg: Config, channel: string, start: Start, now: Instant, reading: Reading,
                           id: nat, script: seq<Response>, threads: seq<ThreadRead>, root: Instant)
    requires RecentSpec(script, start.oldest, start.roots, reading, threads) && reading.complete
    requires Known(root, start.roots, ByTs(HistoryOf(script).outcome.value.items))
    requires CommitOf(l, cfg, channel, start, now, reading, id).Ok?
    ensures var l' := CommitOf(l, cfg, channel, start, now, reading, id).value.0;
            || SkipNoted(l'.notes, channel, root)
            || exists k :: ReadToEnd(script, threads, k) && threads[k].root == root
  {
    var l' := CommitOf(l, cfg, channel, start, now, reading, id).value.0;
    CompleteReadsThreads(script, start.oldest, start.roots, reading, threads, root);
    var k :| 0 <= k < |threads| && threads[k].root == root && Settled(script, threads, k, reading.gaps);
    if threads[k].read.refused.Some? {
      IntakeAllAppends(l, Prepared(cfg, channel, reading.payloads), cfg, now, id);
      SkipsNoted(l.notes, channel, reading.gaps, (root, threads[k].read.refused.value));
      var skips := NoteSkips(l.notes, channel, reading.gaps);
      DropsGrow(skips, Dropped(cfg, channel, reading.payloads));
      var x :| x in skips && x.SkippedThread? && x.channel == channel && x.root == root;
      assert x in l'.notes;
    } else {
      assert ReadToEnd(script, threads, k);
    }
  }
}
