/** Deduplicating Slack intake: `intake_tx` in src/attention/mod.rs, shared by live Socket Mode
    delivery (src/slack/receiver.rs) and catch-up (src/slack/catchup.rs).

    Instants, Slack timestamps included, are integer microseconds: a canonical Slack
    timestamp has six decimals. */
module SlackIntake {
  import opened Wrappers

  type Instant = int

  /** Slack chooses the IDs of live events; catch-up names its own `catchup:{channel}:{ts}`. */
  datatype EventId = Live(id: string) | Caught(channel: string, ts: Instant)
  datatype Key = Key(workspace: string, channel: string, ts: Instant)
  datatype Session = Session(workspace: string, channel: string, root: Instant)
  datatype Source = Socket | Catchup | Self

  /** `routable`: the session ID parses as a thread ID (the parser is not part of this model). */
  datatype Message = Message(event: EventId, workspace: string, channel: string, ts: Instant, thread: Option<Instant>,
                             sender: string, text: string, source: Source, routable: bool)
  {
    function Place(): Key {
      Key(workspace, channel, ts)
    }
    function InThread(): Session {
      Session(workspace, channel, if thread.Some? then thread.value else ts)
    }
  }

  datatype Stored = Stored(message: Message, received: Instant)
  datatype InboxItem = InboxItem(session: Session, event: EventId, queued: Instant)
  datatype Mention = Mention(id: nat, session: Session, key: Key, event: EventId, created: Instant, due: Instant)

  datatype Note =
    | SkippedThread(channel: string, root: Instant, code: string)
    | DroppedMention(event: EventId)
    | Gap(channel: string, oldest: Instant, before: Instant, at: Instant, runs: nat)
  datatype Watermark = Watermark(mark: Instant, pinned: bool, truncated: nat)
  datatype PassRecord = PassRecord(channel: string, at: Instant, oldest: Instant, complete: bool, mark: Instant,
                                   pinned: bool, added: nat)

  /** The durable rows intake and catch-up read and write. */
  datatype Ledger = Ledger(messages: seq<Stored>, inbox: seq<InboxItem>, mentions: seq<Mention>, waiting: set<Session>,
                           marks: map<string, Watermark>, notes: seq<Note>, commits: seq<PassRecord>)

  datatype Config = Config(workspace: string, channels: seq<string>, owner: string, grace: Instant)

  predicate Contains(text: string, part: string) {
    exists i :: 0 <= i <= |text| && part <= text[i..]
  }

  predicate Mentions(text: string, owner: string) {
    Contains(text, "<@" + owner + ">")
  }

  // ----- the meaning of one intake -----

  predicate HasKey(l: Ledger, k: Key) {
    exists i :: 0 <= i < |l.messages| && l.messages[i].message.Place() == k
  }

  predicate HasEvent(l: Ledger, e: EventId) {
    exists i :: 0 <= i < |l.messages| && l.messages[i].message.event == e
  }

  predicate Queued(l: Ledger, e: EventId) {
    exists i :: 0 <= i < |l.inbox| && l.inbox[i].event == e
  }

  /** `keep_message` inserts nothing when the event ID or the (workspace, channel, ts) is stored. */
  predicate Duplicate(l: Ledger, m: Message) {
    HasEvent(l, m.event) || HasKey(l, m.Place())
  }

  predicate Acceptable(m: Message, grace: Instant) {
    grace > 0 && m.routable
  }

  /** Whether an intake is work rather than history: always for live messages; during
      catch-up when recent, mentioning the owner, or in a thread waiting for an answer. */
  predicate IsWork(l: Ledger, m: Message, owner: string, cutoff: Option<Instant>) {
    cutoff == None || m.ts >= cutoff.value || Mentions(m.text, owner) || m.InThread() in l.waiting
  }

  function Taken(l: Ledger, m: Message, cfg: Config, now: Instant, id: nat, cutoff: Option<Instant>): Ledger {
    if Duplicate(l, m) then l else
      var kept := l.(messages := l.messages + [Stored(m, now)]);
      if m.source == Self || !IsWork(l, m, cfg.owner, cutoff) then kept else
        var queued := kept.(inbox := kept.inbox + [InboxItem(m.InThread(), m.event, now)]);
        if Mentions(m.text, cfg.owner) && m.sender != cfg.owner then
          queued.(mentions := queued.mentions + [Mention(id, m.InThread(), m.Place(), m.event, now, now + cfg.grace)])
        else queued
  }

  /** What the store keeps true: one row per key and per event, at most one inbox item per
      stored event, at most one mention obligation per stored key. */
  ghost predicate Consistent(l: Ledger) {
    && (forall i, j :: 0 <= i < j < |l.messages| ==>
          l.messages[i].message.Place() != l.messages[j].message.Place()
          && l.messages[i].message.event != l.messages[j].message.event)
    && (forall i, j :: 0 <= i < j < |l.inbox| ==> l.inbox[i].event != l.inbox[j].event)
    && (forall i :: 0 <= i < |l.inbox| ==> HasEvent(l, l.inbox[i].event))
    && (forall i, j :: 0 <= i < j < |l.mentions| ==> l.mentions[i].key != l.mentions[j].key)
    && (forall i :: 0 <= i < |l.mentions| ==> HasKey(l, l.mentions[i].key) && Queued(l, l.mentions[i].event))
  }

  lemma StoredStays(l: Ledger, l': Ledger)
    requires l.messages <= l'.messages && l.inbox <= l'.inbox
    ensures forall k :: HasKey(l, k) ==> HasKey(l', k)
    ensures forall e :: HasEvent(l, e) ==> HasEvent(l', e)
    ensures forall e :: Queued(l, e) ==> Queued(l', e)
  {
    forall k | HasKey(l, k) ensures HasKey(l', k) {
      var i :| 0 <= i < |l.messages| && l.messages[i].message.Place() == k;
      assert l'.messages[i] == l.messages[i];
    }
    forall e | HasEvent(l, e) ensures HasEvent(l', e) {
      var i :| 0 <= i < |l.messages| && l.messages[i].message.event == e;
      assert l'.messages[i] == l.messages[i];
    }
    forall e | Queued(l, e) ensures Queued(l', e) {
      var i :| 0 <= i < |l.inbox| && l.inbox[i].event == e;
      assert l'.inbox[i] == l.inbox[i];
    }
  }

  /** An intake only appends, and afterwards the message is stored under its key or its event. */
  lemma TakenAppends(l: Ledger, m: Message, cfg: Config, now: Instant, id: nat, cutoff: Option<Instant>)
    ensures var l' := Taken(l, m, cfg, now, id, cutoff);
            && l.messages <= l'.messages && l.inbox <= l'.inbox && l.mentions <= l'.mentions
            && l' == l.(messages := l'.messages, inbox := l'.inbox, mentions := l'.mentions)
            && Duplicate(l', m)
  {
    var l' := Taken(l, m, cfg, now, id, cutoff);
    if !Duplicate(l, m) {
      assert l'.messages[|l.messages|].message == m;
    }
  }

  lemma TakenKeepsConsistent(l: Ledger, m: Message, cfg: Config, now: Instant, id: nat, cutoff: Option<Instant>)
    requires Consistent(l)
    ensures Consistent(Taken(l, m, cfg, now, id, cutoff))
  {
    var l' := Taken(l, m, cfg, now, id, cutoff);
    TakenAppends(l, m, cfg, now, id, cutoff);
    StoredStays(l, l');
    if !Duplicate(l, m) {
      assert l'.messages[|l.messages|].message == m;
      if |l'.inbox| > |l.inbox| {
        assert l'.inbox[|l.inbox|].event == m.event;
      }
    }
  }

  /** Whether a stored message was queued is settled when it is stored. */
  lemma TakenKeepsQueueing(l: Ledger, m: Message, cfg: Config, now: Instant, id: nat, cutoff: Option<Instant>,
                           e: EventId)
    requires HasEvent(l, e)
    ensures Queued(Taken(l, m, cfg, now, id, cutoff), e) <==> Queued(l, e)
  {
    var l' := Taken(l, m, cfg, now, id, cutoff);
    TakenAppends(l, m, cfg, now, id, cutoff);
    StoredStays(l, l');
  }

  // ----- which messages are queued, and which open an obligation -----

  /** A new message is stored as it came, as the last row. */
  lemma NewIsStored(l: Ledger, m: Message, cfg: Config, now: Instant, id: nat, cutoff: Option<Instant>)
    requires !HasEvent(l, m.event) && !HasKey(l, m.Place())
    ensures Taken(l, m, cfg, now, id, cutoff).messages == l.messages + [Stored(m, now)]
  {
  }

  /** A new message's event is queued, for its thread, if and only if Fridica did not send it and it is live,
      or recent enough, or mentions the owner, or its thread waits for an answer. */
  lemma QueuedExactly(l: Ledger, m: Message, cfg: Config, now: Instant, id: nat, cutoff: Option<Instant>)
    requires Consistent(l) && !HasEvent(l, m.event) && !HasKey(l, m.Place())
    ensures var l' := Taken(l, m, cfg, now, id, cutoff);
            && (Queued(l', m.event) <==>
                  && m.source != Self
                  && (cutoff == None || m.ts >= cutoff.value || Mentions(m.text, cfg.owner)
                      || m.InThread() in l.waiting))
            && l'.inbox == if Queued(l', m.event) then l.inbox + [InboxItem(m.InThread(), m.event, now)] else l.inbox
  {
    var l' := Taken(l, m, cfg, now, id, cutoff);
    assert !Queued(l, m.event);
    if |l'.inbox| > |l.inbox| {
      assert l'.inbox[|l.inbox|].event == m.event;
    }
  }

  /** It opens an obligation, due after the grace, if and only if it is queued, mentions the owner and is not the
      owner's own. */
  lemma MentionedExactly(l: Ledger, m: Message, cfg: Config, now: Instant, id: nat, cutoff: Option<Instant>)
    requires Consistent(l) && !HasEvent(l, m.event) && !HasKey(l, m.Place())
    ensures var l' := Taken(l, m, cfg, now, id, cutoff);
            l'.mentions ==
              if Queued(l', m.event) && Mentions(m.text, cfg.owner) && m.sender != cfg.owner then
                l.mentions + [Mention(id, m.InThread(), m.Place(), m.event, now, now + cfg.grace)]
              else l.mentions
  {
    QueuedExactly(l, m, cfg, now, id, cutoff);
  }

  /** A message whose event or place is stored changes no row. */
  lemma RepeatedIsIgnored(l: Ledger, m: Message, cfg: Config, now: Instant, id: nat, cutoff: Option<Instant>)
    requires HasEvent(l, m.event) || HasKey(l, m.Place())
    ensures Taken(l, m, cfg, now, id, cutoff) == l
  {
  }

  // ----- the store, and the transaction body -----

  class Store {
    var messages: seq<Stored>
    var inbox: seq<InboxItem>
    var mentions: seq<Mention>
    var waiting: set<Session>
    var marks: map<string, Watermark>
    var notes: seq<Note>
    var commits: seq<PassRecord>

    function State(): Ledger
      reads this
    {
      Ledger(messages, inbox, mentions, waiting, marks, notes, commits)
    }

    /** A unit of work that fails leaves the rows as they were. */
    method Rollback(saved: Ledger)
      modifies this
      ensures State() == saved
    {
      messages, inbox, mentions := saved.messages, saved.inbox, saved.mentions;
      waiting, marks, notes, commits := saved.waiting, saved.marks, saved.notes, saved.commits;
    }

    /** The store's `keep_message`. */
    method KeepMessage(m: Message, now: Instant) returns (inserted: bool)
      modifies this`messages
      ensures inserted <==> !Duplicate(old(State()), m)
      ensures messages == if inserted then old(messages) + [Stored(m, now)] else old(messages)
    {
      inserted := !Duplicate(State(), m);
      if inserted {
        messages := messages + [Stored(m, now)];
      }
    }

    /** `intake_tx` (src/attention/mod.rs:68-144), inside the caller's unit of work. The result is the
        new inbox row, if the message was queued. */
    method IntakeTx(m: Message, cfg: Config, now: Instant, id: nat, cutoff: Option<Instant>)
      returns (r: Result<Option<nat>>)
      modifies this`messages, this`inbox, this`mentions
      ensures r.Ok? <==> cfg.grace > 0 && m.routable
      ensures State() == if r.Ok? then Taken(old(State()), m, cfg, now, id, cutoff) else old(State())
      ensures r.Ok? ==> (r.value.Some? <==> |inbox| == |old(inbox)| + 1)
      ensures r.Ok? && r.value.Some? ==>
                r.value.value == |old(inbox)| && inbox[r.value.value] == InboxItem(m.InThread(), m.event, now)
    {
      if cfg.grace <= 0 || !m.routable {
        return Err;
      }
      var session := m.InThread();
      var mentioned := Mentions(m.text, cfg.owner);
      var work := true;
      if cutoff.Some? {
        work := m.ts >= cutoff.value || mentioned || session in waiting;
      }
      var inserted := KeepMessage(m, now);
      if !inserted {
        return Ok(None);
      }
      if m.source == Self || !work {
        return Ok(None);
      }
      var row := |inbox|;
      inbox := inbox + [InboxItem(session, m.event, now)];
      if mentioned && m.sender != cfg.owner {
        mentions := mentions + [Mention(id, session, m.Place(), m.event, now, now + cfg.grace)];
      }
      return Ok(Some(row));
    }

    /** The live half (src/slack/receiver.rs:41-86): Ok(true) is an acknowledgement, Ok(false) asks for none.
        Only supported messages in scope are taken in; an unsupported one that mentions the owner is noted. */
    method Receive(envelope: Envelope, cfg: Config, now: Instant, id: nat) returns (r: Result<bool>)
      modifies this
      ensures var scoped := envelope.Events? && envelope.workspace == cfg.workspace && envelope.channel in cfg.channels;
              var taken := scoped && envelope.message.Some?;
              && r == (if envelope.Greeting? then Ok(false)
                       else if taken && !(cfg.grace > 0 && envelope.message.value.routable) then Err
                       else Ok(true))
              && State() == (if r.Ok? && taken then Taken(old(State()), envelope.message.value, cfg, now, id, None)
                             else if scoped && !taken && envelope.isMessage && Mentions(envelope.text, cfg.owner) then
                               old(State()).(notes := old(notes) + [DroppedMention(envelope.event)])
                             else old(State()))
    {
      if envelope.Greeting? {
        return Ok(false);
      }
      var scoped := envelope.Events? && envelope.workspace == cfg.workspace && envelope.channel in cfg.channels;
      if scoped && envelope.message.Some? {
        var taken := IntakeTx(envelope.message.value, cfg, now, id, None);
        if taken.Err? {
          return Err;
        }
      } else if scoped && envelope.isMessage && Mentions(envelope.text, cfg.owner) {
        notes := notes + [DroppedMention(envelope.event)];
      }
      return Ok(true);
    }
  }

  /** A decoded envelope: `hello` and `disconnect`, an event callback, or anything else. `message` is what
      `normalize` makes of the payload, if it supports it; `isMessage` says the event's type is `message`. */
  datatype Envelope =
    | Greeting
    | Events(workspace: string, channel: string, message: Option<Message>, isMessage: bool, text: string,
             event: EventId)
    | Ignored

  predicate Scoped(m: Message, cfg: Config) {
    m.workspace == cfg.workspace && m.channel in cfg.channels
  }
}
