/** The catch-up service itself, step by step: the page loop, one pass's reading, the commit
    transaction, and `run` over every configured channel (src/slack/catchup.rs:54-281). */
module CatchupService {
  import opened Wrappers
  import opened SlackIntake
  import opened Catchup
  import opened CatchupRuns

  /** The transport: what Slack will answer, call after call. Nothing left means a timeout. */
  class Transport {
    var script: seq<Response>

    method Page() returns (response: Response)
      modifies this
      ensures response == if old(script) == [] then Broken else old(script)[0]
      ensures script == if old(script) == [] then [] else old(script)[1..]
    {
      if script == [] {
        return Broken;
      }
      response := script[0];
      script := script[1..];
    }
  }

  lemma PrependTwice(a: seq<Item>, b: seq<Item>, p: Paging)
    ensures Prepend(a, Prepend(b, p)) == Prepend(a + b, p)
  {
    if p.outcome.Ok? {
      assert a + (b + p.outcome.value.items) == a + b + p.outcome.value.items;
    }
  }

  lemma PrependNothing(p: Paging)
    ensures Prepend([], p) == p
  {
    if p.outcome.Ok? {
      assert [] + p.outcome.value.items == p.outcome.value.items;
    }
  }

  /** The answer of a complete pass: it satisfies the `Shown` condition of the runs when the server
      lists the message. */
  lemma {:induction false} ListedIsShown(script: seq<Response>, start: Start, reading: Reading,
                                         threads: seq<ThreadRead>, ts: Instant)
    requires RecentSpec(script, start.oldest, start.roots, reading, threads) && reading.complete && start.oldest < ts
    requires ChainOf(script).Some? ==> Lists(ChainOf(script).value.items, ts)
    ensures exists q :: q in reading.payloads && q.ts == ts && q.item.supported
  {
    CompleteReadsWindow(script, start.oldest, start.roots, reading, threads);
    var items := ChainOf(script).value.items;
    var item :| item in items && item.ts == Some(ts);
    assert InWindow(item, start.oldest);
    assert ReadIn(reading.payloads, item.ts.value, items);
    var p :| p in reading.payloads && p.ts == ts && p.item in items && p.item.ts == Some(ts);
  }

  predicate Lists(items: seq<Item>, ts: Instant) {
    && (exists i :: i in items && i.ts == Some(ts))
    && forall i :: i in items && i.ts == Some(ts) ==> i.supported
  }

  lemma Pick<T>(s: set<T>) returns (x: T)
    requires s != {}
    ensures x in s
  {
    x :| x in s;
  }

  lemma {:induction false} Least(s: set<Instant>) returns (x: Instant)
    requires s != {}
    ensures x in s && forall y :: y in s ==> x <= y
    decreases |s|
  {
    var a := Pick(s);
    var rest := s - {a};
    x := a;
    if rest != {} {
      var z := Least(rest);
      x := Min(a, z);
    }
    forall y | y in s ensures x <= y {
      assert y == a || y in rest;
    }
  }

  method TakeLeast(s: set<Instant>) returns (x: Instant)
    requires s != {}
    ensures x in s && forall y :: y in s ==> x <= y
  {
    ghost var least := Least(s);
    x :| x in s && forall y :: y in s ==> x <= y;
  }

  class Service {
    const cfg: Config
    var store: Store
    var history: Transport

    constructor (cfg: Config, store: Store, history: Transport)
      ensures this.cfg == cfg && this.store == store && this.history == history
    {
      this.cfg := cfg;
      this.store := store;
      this.history := history;
    }

    /** `pages` (src/slack/catchup.rs:226-281). */
    method Pages(threaded: bool, size: nat) returns (r: Result<Read>, size': nat)
      modifies history
      ensures var p := PagesOf(old(history.script), threaded, size, PAGES);
              r == p.outcome && history.script == p.rest && (r.Ok? ==> size' == p.size)
      ensures history == old(history)
    {
      var items := [];
      size' := size;
      ghost var whole := PagesOf(history.script, threaded, size, PAGES);
      PrependNothing(whole);
      for i := 0 to PAGES
        invariant history == old(history)
        invariant whole == Prepend(items, PagesOf(history.script, threaded, size', PAGES - i))
      {
        var response := history.Page();
        match response {
          case Broken => return Err, size';
          case Rejected(code) =>
            if threaded {
              assert items + [] == items;
              return Ok(Read(items, true, Some(code))), size';
            }
            return Err, size';
          case Page(messages, next, hasMore, bytes) =>
            PrependTwice(items, Timed(messages), PagesOf(history.script, threaded, size' + bytes, PAGES - i - 1));
            size' := size' + bytes;
            if size' > CORPUS_LIMIT {
              return Err, size';
            }
            items := items + Timed(messages);
            if next.Invalid? {
              return Err, size';
            }
            if next.End? {
              return Ok(Read(items, !hasMore, None)), size';
            }
        }
      }
      assert items + [] == items;
      r := Ok(Read(items, false, None));
    }
  
    /** `recent` (src/slack/catchup.rs:173-225). Also returns the thread reads it made. */
    method Recent(start: Start) returns (r: Result<Reading>, threads: seq<ThreadRead>)
      modifies history
      ensures history == old(history)
      ensures r.Ok? ==> RecentSpec(old(history.script), start.oldest, start.roots, r.value, threads)
      ensures r.Err? ==> RecentFails(old(history.script), start.roots)
    {
      threads := [];
      ghost var script := history.script;
      var read, size := Pages(false, 0);
      if read.Err? {
        return Err, [];
      }
      var complete := read.value.whole;
      var found := ByTs(read.value.items);
      var first := found;
      var todo := (set x | x in start.roots) + Parents(found);
      var gaps := [];
      while todo != {}
        invariant history == old(history)
        invariant Underread(script, start.roots, first, todo, threads, size, history.script)
        invariant found == WithThreads(first, threads)
        invariant complete <==> read.value.whole && AllWhole(threads)
        invariant gaps == Gaps(threads)
        decreases |todo|
      {
        var root := TakeLeast(todo);
        ReadOn(script, start.roots, first, todo, threads, size, history.script, root);
        var one;
        one, size := Pages(true, size);
        if one.Err? {
          return Err, threads;
        }
        complete := complete && one.value.whole;
        if one.value.refused.Some? {
          gaps := gaps + [(root, one.value.refused.value)];
        }
        found := Join(found, root, one.value.items);
        ThreadAdded(first, threads, ThreadRead(root, one.value));
        threads := threads + [ThreadRead(root, one.value)];
        todo := todo - {root};
      }
      var payloads := Window(found, start.oldest);
      r := Ok(Reading(payloads, complete, gaps));
    }

    /** Adds a thread's items, except its root and what is already found. */
    method Join(found: map<Instant, Item>, root: Instant, items: seq<Item>) returns (all: map<Instant, Item>)
      ensures all == WithThread(found, root, items)
    {
      all := found;
      for i := 0 to |items|
        invariant all == WithThread(found, root, items[..i])
      {
        assert items[..i + 1][..i] == items[..i];
        if items[i].ts.Some? && items[i].ts.value != root && items[i].ts.value !in all {
          all := all[items[i].ts.value := items[i]];
        }
      }
      assert items[..|items|] == items;
    }

    /** The found items inside the window, in timestamp order. */
    method Window(found: map<Instant, Item>, oldest: Instant) returns (payloads: seq<Payload>)
      ensures WindowOf(payloads, found, oldest)
    {
      payloads := [];
      var todo := found.Keys;
      while todo != {}
        invariant todo <= found.Keys
        invariant AscendingPayloads(payloads)
        invariant forall i :: 0 <= i < |payloads| ==> InFound(payloads[i], found, oldest)
        invariant forall i, ts :: 0 <= i < |payloads| && ts in todo ==> payloads[i].ts < ts
        invariant forall ts :: ts in found && ts !in todo && ts >= oldest ==> Listed(payloads, ts)
        decreases |todo|
      {
        var ts := TakeLeast(todo);
        todo := todo - {ts};
        if ts >= oldest {
          ListedMore(payloads, Payload(ts, found[ts]));
          payloads := payloads + [Payload(ts, found[ts])];
        }
      }
      assert forall ts :: ts in found && ts >= oldest ==> Listed(payloads, ts);
    }

    /** `start` (src/slack/catchup.rs:143-172). Which thread roots the store names is up to it. */
    method Begin(channel: string, window: Instant, now: Instant, started: Option<Instant>, roots: seq<Instant>)
      returns (start: Start)
      ensures start == StartOf(store.State(), cfg, channel, window, now, started, roots)
    {
      var mark := if channel in store.marks then Some(store.marks[channel].mark) else None;
      var oldest := now - window;
      if mark.Some? {
        oldest := Min(oldest, mark.value - OVERLAP);
      } else {
        var latest := LatestTs(store.messages, cfg.workspace, channel, started);
        if latest.Some? {
          oldest := Min(oldest, latest.value - OVERLAP);
        }
      }
      start := Start(Max(oldest, now - MAX_WINDOW), roots, mark);
    }

    /** Messages to take in, mentions that cannot be, and the earliest timestamp read
        (src/slack/catchup.rs:82-102). */
    method Sort(channel: string, now: Instant, payloads: seq<Payload>)
      returns (prepared: seq<Message>, dropped: seq<EventId>, firstRead: Instant)
      ensures prepared == Prepared(cfg, channel, payloads) && dropped == Dropped(cfg, channel, payloads)
      ensures firstRead == FirstRead(now, payloads)
    {
      prepared, dropped, firstRead := [], [], now;
      for i := 0 to |payloads|
        invariant prepared == Prepared(cfg, channel, payloads[..i]) && dropped == Dropped(cfg, channel, payloads[..i])
        invariant firstRead == FirstRead(now, payloads[..i])
      {
        assert payloads[..i + 1][..i] == payloads[..i];
        var p := payloads[i];
        firstRead := Min(firstRead, p.ts);
        if p.item.supported {
          prepared := prepared + [ToMessage(cfg, channel, p)];
        } else if Mentions(p.item.text, cfg.owner) {
          dropped := dropped + [Caught(channel, p.ts)];
        }
      }
      assert payloads[..|payloads|] == payloads;
    }

    /** Takes every prepared message in, inside one unit of work; a refusal undoes them all. */
    method TakeAll(prepared: seq<Message>, now: Instant, id: nat) returns (r: Result<nat>)
      modifies store
      ensures match IntakeAll(old(store.State()), prepared, cfg, now, id)
              case Err => r == Err && store.State() == old(store.State())
              case Ok(done) => r == Ok(done.1) && store.State() == done.0
    {
      var saved := store.State();
      var added := 0;
      for i := 0 to |prepared|
        invariant IntakeAll(saved, prepared[..i], cfg, now, id) == Ok((store.State(), added))
      {
        assert prepared[..i + 1][..i] == prepared[..i] && prepared[..i + 1][i] == prepared[i];
        var one := store.IntakeTx(prepared[i], cfg, now, id + i, Some(now - DAY));
        if one.Err? {
          IntakePrefix(saved, prepared, cfg, now, id, i + 1);
          store.Rollback(saved);
          return Err;
        }
        TakenAddsOne(IntakeAll(saved, prepared[..i], cfg, now, id).value.0, prepared[i], cfg, now, id + i,
                     Some(now - DAY));
        if one.value.Some? {
          added := added + 1;
        }
      }
      assert prepared[..|prepared|] == prepared;
      r := Ok(added);
    }

    /** The commit transaction of one channel (src/slack/catchup.rs:103-135). */
    method CommitPass(channel: string, start: Start, now: Instant, reading: Reading, id: nat) returns (r: Result<nat>)
      modifies store
      ensures match CommitOf(old(store.State()), cfg, channel, start, now, reading, id)
              case Err => r == Err && store.State() == old(store.State())
              case Ok(done) => r == Ok(done.1) && store.State() == done.0
    {
      var saved := store.State();
      var prepared, dropped, firstRead := Sort(channel, now, reading.payloads);
      var taken := TakeAll(prepared, now, id);
      if taken.Err? {
        return Err;
      }
      Note(channel, reading.gaps, dropped);
      var current := if channel in store.marks then Some(store.marks[channel].mark) else None;
      if current != start.mark {
        store.Rollback(saved);
        return Err;
      }
      var runs := (if channel in store.marks then store.marks[channel].truncated else 0) + 1;
      var mark := now;
      if !reading.complete && runs < 2 {
        mark := if current.Some? then current.value else start.oldest + OVERLAP;
      }
      var pinned := !reading.complete && runs < 2;
      store.marks := store.marks[channel := Watermark(mark, pinned, if pinned then runs else 0)];
      if !reading.complete && runs >= 2 {
        store.notes := store.notes + [Gap(channel, start.oldest, firstRead, now, runs)];
      }
      store.commits := store.commits
          + [PassRecord(channel, now, start.oldest, reading.complete, mark, pinned, taken.value)];
      r := Ok(taken.value);
    }

    /** Health notes of a commit, each kept once. */
    method Note(channel: string, gaps: seq<(Instant, string)>, dropped: seq<EventId>)
      modifies store`notes
      ensures store.notes == NoteDrops(NoteSkips(old(store.notes), channel, gaps), dropped)
    {
      ghost var before := store.notes;
      for i := 0 to |gaps|
        invariant store.notes == NoteSkips(before, channel, gaps[..i])
      {
        assert gaps[..i + 1][..i] == gaps[..i];
        if !SkipNoted(store.notes, channel, gaps[i].0) {
          store.notes := store.notes + [SkippedThread(channel, gaps[i].0, gaps[i].1)];
        }
      }
      assert gaps[..|gaps|] == gaps;
      ghost var skipped := store.notes;
      for i := 0 to |dropped|
        invariant store.notes == NoteDrops(skipped, dropped[..i])
      {
        assert dropped[..i + 1][..i] == dropped[..i];
        if !DropNoted(store.notes, dropped[i]) {
          store.notes := store.notes + [DroppedMention(dropped[i])];
        }
      }
      assert dropped[..|dropped|] == dropped;
    }

    /** One channel of a pass: read its window, then commit it or fail leaving every row alone. The
        ghost `ws` and `es` extend the run of the transition system this is. */
    method Channel(channel: string, window: Instant, started: Option<Instant>, now: Instant, roots: seq<Instant>,
                   id: nat, ghost w0: World, ghost ws: seq<World>, ghost es: seq<CatchupRuns.Event>)
      returns (r: Result<(nat, bool)>, ghost ws': seq<World>, ghost es': seq<CatchupRuns.Event>)
      requires window > 0 && channel in cfg.channels
      requires Underway(cfg, w0, ws, es, Locked(now, store.State(), None))
      modifies store, history
      ensures store == old(store) && history == old(history)
      ensures r.Err? ==>
                Underway(cfg, w0, ws', es', Unlocked(now, store.State())) && store.State() == old(store.State())
      ensures r.Ok? ==> Underway(cfg, w0, ws', es', Locked(now, store.State(), None))
      ensures r.Ok? ==> exists record :: OneRecord(old(store.commits), record, store.commits, channel, r.value)
    {
      ghost var l := store.State();
      var start := Begin(channel, window, now, started, roots);
      ghost var flight := Some(Flight(channel, start));
      BeginStep(cfg, l, now, channel, window, started, roots);
      ws', es' := Grow(cfg, w0, ws, es, Locked(now, l, None),
                       CatchupRuns.Event.Begin(1, channel, window, started, roots), Locked(now, l, flight));
      ghost var script := history.script;
      var reading, threads := Recent(start);
      if reading.Err? {
        LeaveStep(cfg, l, now, flight);
        ws', es' := Grow(cfg, w0, ws', es', Locked(now, l, flight), Leave(1), Unlocked(now, l));
        return Err, ws', es';
      }
      assert ReadOff(script, start, reading.value, threads);
      ghost var commit := CatchupRuns.Event.Commit(1, reading.value, id);
      CommitStep(cfg, l, now, Flight(channel, start), reading.value, id);
      var added := CommitPass(channel, start, now, reading.value, id);
      if added.Err? {
        ws', es' := Grow(cfg, w0, ws', es', Locked(now, l, flight), commit, Unlocked(now, l));
        return Err, ws', es';
      }
      ws', es' := Grow(cfg, w0, ws', es', Locked(now, l, flight), commit, Locked(now, store.State(), None));
      CommitShape(l, cfg, channel, start, now, reading.value, id);
      assert OneRecord(l.commits, store.commits[|l.commits|], store.commits, channel,
                       (added.value, reading.value.complete));
      r := Ok((added.value, reading.value.complete));
    }

    /** `run` (src/slack/catchup.rs:68-142): one pass over every configured channel under the pass
        lock. What it did is a run of the transition system, given back as `ws` and `es`. */
    method Run(window: Instant, started: Option<Instant>, now: Instant, named: string -> seq<Instant>, id: nat)
      returns (r: Result<Progress>, ghost ws: seq<World>, ghost es: seq<CatchupRuns.Event>)
      modifies store, history
      ensures Underway(cfg, Unlocked(now, old(store.State())), ws, es, Unlocked(now, store.State()))
      ensures r.Ok? ==> window > 0 && old(store.commits) <= store.commits
                        && Reports(r.value, store.commits[|old(store.commits)|..], cfg.channels)
      ensures window <= 0 ==> r == Err && store.State() == old(store.State())
    {
      ghost var w0 := Unlocked(now, store.State());
      ws, es := [w0], [];
      if window <= 0 {
        return Err, ws, es;
      }
      ws, es := Grow(cfg, w0, ws, es, w0, Enter(1), Locked(now, store.State(), None));
      var added, incomplete := 0, [];
      ghost var commits := store.commits;
      ghost var records: seq<PassRecord> := [];
      for c := 0 to |cfg.channels|
        invariant history == old(history) && store == old(store)
        invariant Underway(cfg, w0, ws, es, Locked(now, store.State(), None))
        invariant store.commits == commits + records
        invariant Reports(Progress(added, incomplete), records, cfg.channels[..c])
      {
        var channel := cfg.channels[c];
        var one;
        one, ws, es := Channel(channel, window, started, now, named(channel), id, w0, ws, es);
        if one.Err? {
          return Err, ws, es;
        }
        ghost var record :| OneRecord(commits + records, record, store.commits, channel, one.value);
        assert cfg.channels[..c + 1] == cfg.channels[..c] + [channel];
        ReportOneMore(Progress(added, incomplete), records, cfg.channels[..c], record);
        records := records + [record];
        added := added + one.value.0;
        if !one.value.1 {
          incomplete := incomplete + [channel];
        }
      }
      assert cfg.channels[..|cfg.channels|] == cfg.channels;
      assert store.commits[|commits|..] == records;
      LeaveStep(cfg, store.State(), now, None);
      ws, es := Grow(cfg, w0, ws, es, Locked(now, store.State(), None), Leave(1), Unlocked(now, store.State()));
      r := Ok(Progress(added, incomplete));
    }
  }

  predicate Listed(payloads: seq<Payload>, ts: Instant) {
    exists i :: 0 <= i < |payloads| && payloads[i].ts == ts
  }

  lemma ListedMore(payloads: seq<Payload>, p: Payload)
    ensures Listed(payloads + [p], p.ts)
    ensures forall ts :: Listed(payloads, ts) ==> Listed(payloads + [p], ts)
  {
    var more := payloads + [p];
    assert more[|payloads|] == p;
    forall ts | Listed(payloads, ts) ensures Listed(more, ts) {
      var i :| 0 <= i < |payloads| && payloads[i].ts == ts;
      assert more[i].ts == ts;
    }
  }

  predicate InFound(p: Payload, found: map<Instant, Item>, oldest: Instant) {
    p.ts in found && p.item == found[p.ts] && p.ts >= oldest
  }

  /** Threads read so far, and the roots still to do: all of them known, and above those read. */
  ghost predicate Underread(script: seq<Response>, roots: seq<Instant>, first: map<Instant, Item>, todo: set<Instant>,
                            threads: seq<ThreadRead>, size: nat, rest: seq<Response>) {
    var history := HistoryOf(script);
    && history.outcome.Ok? && first == ByTs(history.outcome.value.items)
    && ThreadsOf(history.rest, history.size, RootsRead(threads)) == Threading(Ok(threads), size, rest)
    && Lowest(RootsRead(threads), roots, first)
    && (forall x :: Known(x, roots, first) <==> x in todo || x in RootsRead(threads))
    && (forall x :: x in todo ==> x !in RootsRead(threads))
  }

  /** Reading on with the least root left: done, it is underway again; failing, the whole reading fails. */
  lemma {:induction false} ReadOn(script: seq<Response>, roots: seq<Instant>, first: map<Instant, Item>,
                                  todo: set<Instant>,
                                  threads: seq<ThreadRead>, size: nat, rest: seq<Response>, root: Instant)
    requires Underread(script, roots, first, todo, threads, size, rest)
    requires root in todo && forall y :: y in todo ==> root <= y
    ensures var p := PagesOf(rest, true, size, PAGES);
            if p.outcome.Err? then RecentFails(script, roots)
            else Underread(script, roots, first, todo - {root}, threads + [ThreadRead(root, p.outcome.value)], p.size,
                           p.rest)
  {
    var history := HistoryOf(script);
    var order := RootsRead(threads) + [root];
    assert order[..|order| - 1] == RootsRead(threads);
    LowestMore(RootsRead(threads), roots, first, todo, root);
    var p := PagesOf(rest, true, size, PAGES);
    if p.outcome.Err? {
      assert ThreadsOf(history.rest, history.size, order).outcome.Err?;
    } else {
      var more := threads + [ThreadRead(root, p.outcome.value)];
      assert RootsRead(more) == order;
      forall x ensures x in order <==> x in RootsRead(threads) || x == root {
        InOrder(RootsRead(threads), root, x);
      }
    }
  }

  lemma InOrder(order: seq<Instant>, root: Instant, x: Instant)
    ensures x in order + [root] <==> x in order || x == root
  {
  }

  lemma LowestMore(order: seq<Instant>, roots: seq<Instant>, first: map<Instant, Item>, todo: set<Instant>,
                   root: Instant)
    requires Lowest(order, roots, first) && root in todo && forall y :: y in todo ==> root <= y
    requires forall x :: Known(x, roots, first) <==> x in todo || x in order
    requires forall x :: x in todo ==> x !in order
    ensures Lowest(order + [root], roots, first)
  {
    forall i | 0 <= i < |order| ensures order[i] < root {
      assert order[i] in order;
    }
  }

  /** One more thread read: what is found, noted and complete with it. */
  lemma {:induction false} ThreadAdded(first: map<Instant, Item>, threads: seq<ThreadRead>, t: ThreadRead)
    ensures WithThreads(first, threads + [t]) == WithThread(WithThreads(first, threads), t.root, t.read.items)
    ensures Gaps(threads + [t])
            == Gaps(threads) + (if t.read.refused.Some? then [(t.root, t.read.refused.value)] else [])
    ensures AllWhole(threads + [t]) <==> AllWhole(threads) && t.read.whole
  {
    assert (threads + [t])[..|threads|] == threads;
    assert t in threads + [t];
  }

  // ----- what a pass reports, and how it is a run -----

  datatype Progress = Progress(added: nat, incomplete: seq<string>)

  function AddedIn(records: seq<PassRecord>): nat {
    if records == [] then 0 else AddedIn(records[..|records| - 1]) + records[|records| - 1].added
  }

  function IncompleteIn(records: seq<PassRecord>): seq<string> {
    if records == [] then [] else
      var last := records[|records| - 1];
      IncompleteIn(records[..|records| - 1]) + (if last.complete then [] else [last.channel])
  }

  /** One commit record per channel, in order; the totals are those of the records. */
  ghost predicate Reports(p: Progress, records: seq<PassRecord>, channels: seq<string>) {
    && |records| == |channels|
    && (forall i :: 0 <= i < |records| ==> records[i].channel == channels[i])
    && p == Progress(AddedIn(records), IncompleteIn(records))
  }

  lemma ReportOneMore(p: Progress, records: seq<PassRecord>, channels: seq<string>, record: PassRecord)
    requires Reports(p, records, channels)
    ensures Reports(Progress(p.added + record.added,
                             if record.complete then p.incomplete else p.incomplete + [record.channel]),
                    records + [record], channels + [record.channel])
  {
    assert (records + [record])[..|records|] == records;
    assert p.incomplete + [] == p.incomplete;
  }

  /** What a commit of the run took in was read off the transport. */
  ghost predicate ReadOff(script: seq<Response>, start: Start, reading: Reading, threads: seq<ThreadRead>) {
    RecentSpec(script, start.oldest, start.roots, reading, threads)
  }

  ghost predicate Witnessed(w: World, e: CatchupRuns.Event) {
    e.Commit? ==>
      && e.service in w.passes && w.passes[e.service].flight.Some?
      && exists script, threads :: ReadOff(script, w.passes[e.service].flight.value.start, e.reading, threads)
  }

  ghost function Unlocked(now: Instant, l: Ledger): World {
    World(now, l, map[])
  }

  ghost function Locked(now: Instant, l: Ledger, flight: Option<Flight>): World {
    World(now, l, map[1 := Pass(now, flight)])
  }

  ghost predicate OneRecord(before: seq<PassRecord>, record: PassRecord, after: seq<PassRecord>, channel: string,
                            done: (nat, bool)) {
    after == before + [record] && record.channel == channel && done == (record.added, record.complete)
  }

  lemma BeginStep(cfg: Config, l: Ledger, now: Instant, channel: string, window: Instant, started: Option<Instant>,
                  roots: seq<Instant>)
    requires window > 0 && channel in cfg.channels
    ensures Next(cfg, Locked(now, l, None), CatchupRuns.Event.Begin(1, channel, window, started, roots),
                 Locked(now, l, Some(Flight(channel, StartOf(l, cfg, channel, window, now, started, roots)))))
  {
  }

  lemma LeaveStep(cfg: Config, l: Ledger, now: Instant, flight: Option<Flight>)
    ensures Next(cfg, Locked(now, l, flight), Leave(1), Unlocked(now, l))
  {
    assert Locked(now, l, flight).passes - {1} == map[];
  }

  lemma CommitStep(cfg: Config, l: Ledger, now: Instant, f: Flight, reading: Reading, id: nat)
    ensures var done := CommitOf(l, cfg, f.channel, f.start, now, reading, id);
            Next(cfg, Locked(now, l, Some(f)), CatchupRuns.Event.Commit(1, reading, id),
                 if done.Ok? then Locked(now, done.value.0, None) else Unlocked(now, l))
  {
    assert Locked(now, l, Some(f)).passes - {1} == map[];
  }

  /** A run from `w0` to `w` in which every commit took in what was read off the transport. */
  ghost predicate Underway(cfg: Config, w0: World, ws: seq<World>, es: seq<CatchupRuns.Event>, w: World) {
    && CatchupRuns.Run(cfg, ws, es) && ws[0] == w0 && ws[|es|] == w
    && forall i :: 0 <= i < |es| ==> Witnessed(ws[i], es[i])
  }

  lemma Grow(cfg: Config, w0: World, ws: seq<World>, es: seq<CatchupRuns.Event>, w: World, e: CatchupRuns.Event,
             w': World)
    returns (ws': seq<World>, es': seq<CatchupRuns.Event>)
    requires Underway(cfg, w0, ws, es, w) && Witnessed(w, e) && Next(cfg, w, e, w')
    ensures Underway(cfg, w0, ws', es', w')
  {
    ws', es' := ws + [w'], es + [e];
  }

  lemma {:induction false} IntakePrefix(l: Ledger, ms: seq<Message>, cfg: Config, now: Instant, id: nat, n: nat)
    requires n <= |ms| && IntakeAll(l, ms[..n], cfg, now, id).Err?
    ensures IntakeAll(l, ms, cfg, now, id).Err?
  {
    if n < |ms| {
      assert ms[..|ms| - 1][..n] == ms[..n];
      IntakePrefix(l, ms[..|ms| - 1], cfg, now, id, n);
    } else {
      assert ms[..n] == ms;
    }
  }

  lemma TakenAddsOne(l: Ledger, m: Message, cfg: Config, now: Instant, id: nat, cutoff: Option<Instant>)
    ensures |l.inbox| <= |Taken(l, m, cfg, now, id, cutoff).inbox| <= |l.inbox| + 1
  {
  }
}
