/** What one catch-up pass over one channel computes: paging, the read window, and the commit
    that moves the durable watermark (src/slack/catchup.rs). The methods that do it are in
    CatchupService; runs of many passes and deliveries are in CatchupRuns. */
module Catchup {
  import opened Wrappers
  import opened SlackIntake

  const SECOND: Instant := 1_000_000
  const OVERLAP: Instant := 60 * SECOND
  const DAY: Instant := 86400 * SECOND
  const MAX_WINDOW: Instant := 7 * DAY
  const PAGES: nat := 10
  const CORPUS_LIMIT: nat := 32 * 1024 * 1024

  /** One message object of a Slack page. `ts` is None when it carries no usable timestamp;
      `supported` says whether `normalize` accepts it. */
  datatype Item = Item(ts: Option<Instant>, thread: Option<Instant>, sender: string, text: string,
                       supported: bool, routable: bool, replies: nat)
  datatype Cursor = End | More(token: string) | Invalid
  /** `Broken`: a timeout, a transport or recording failure, or a response without messages. */
  datatype Response = Page(items: seq<Item>, next: Cursor, hasMore: bool, bytes: nat) | Rejected(code: string) | Broken

  // ----- paging -----

  datatype Read = Read(items: seq<Item>, whole: bool, refused: Option<string>)
  datatype Paging = Paging(outcome: Result<Read>, size: nat, rest: seq<Response>)

  function Timed(items: seq<Item>): (out: seq<Item>)
    ensures forall i :: i in out <==> i in items && i.ts.Some?
  {
    if items == [] then [] else
      var rest := Timed(items[..|items| - 1]);
      if items[|items| - 1].ts.Some? then rest + [items[|items| - 1]] else rest
  }

  function Prepend(items: seq<Item>, p: Paging): Paging {
    if p.outcome.Err? then p else p.(outcome := Ok(p.outcome.value.(items := items + p.outcome.value.items)))
  }

  /** Reading at most `left` pages off the responses still to come. Only a thread may be refused. */
  function PagesOf(script: seq<Response>, threaded: bool, size: nat, left: nat): Paging
    decreases |script|
  {
    if left == 0 then Paging(Ok(Read([], false, None)), size, script)
    else if script == [] then Paging(Err, size, [])
    else
      match script[0]
      case Broken => Paging(Err, size, script[1..])
      case Rejected(code) =>
        Paging(if threaded then Ok(Read([], true, Some(code))) else Err, size, script[1..])
      case Page(items, next, hasMore, bytes) =>
        if size + bytes > CORPUS_LIMIT || next.Invalid? then Paging(Err, size, script[1..])
        else if next.End? then Paging(Ok(Read(Timed(items), !hasMore, None)), size + bytes, script[1..])
        else Prepend(Timed(items), PagesOf(script[1..], threaded, size + bytes, left - 1))
  }

  /** Reference definition: the list a server serves, page by page, up to its last cursor. */
  datatype Chain = Chain(items: seq<Item>, pages: nat, bytes: nat)

  function ChainOf(script: seq<Response>): Option<Chain> {
    if script == [] || !script[0].Page? || script[0].next.Invalid? then None
    else if script[0].next.End? then
      if script[0].hasMore then None else Some(Chain(Timed(script[0].items), 1, script[0].bytes))
    else
      var rest := ChainOf(script[1..]);
      if rest == None then None
      else Some(Chain(Timed(script[0].items) + rest.value.items, rest.value.pages + 1,
                      script[0].bytes + rest.value.bytes))
  }

  /** A read is certified whole, with nothing refused, exactly when the served list ends within
      the page cap and the response budget; and then it is that list. */
  lemma {:induction false} WholeIsEverything(script: seq<Response>, threaded: bool, size: nat, left: nat)
    requires size <= CORPUS_LIMIT
    ensures var p := PagesOf(script, threaded, size, left).outcome;
            (p.Ok? && p.value.whole && p.value.refused == None)
            <==> (ChainOf(script).Some? && ChainOf(script).value.pages <= left
                  && size + ChainOf(script).value.bytes <= CORPUS_LIMIT)
    ensures var p := PagesOf(script, threaded, size, left).outcome;
            p.Ok? && p.value.whole && p.value.refused == None ==> p.value.items == ChainOf(script).value.items
    decreases left
  {
    if left == 0 {
      ChainHasPages(script);
    } else if script != [] && script[0].Page? && script[0].next.More? && size + script[0].bytes <= CORPUS_LIMIT {
      WholeIsEverything(script[1..], threaded, size + script[0].bytes, left - 1);
    }
  }

  lemma {:induction false} ChainHasPages(script: seq<Response>)
    ensures ChainOf(script).Some? ==> ChainOf(script).value.pages >= 1
  {
  }

  // ----- one pass's reading -----

  datatype Payload = Payload(ts: Instant, item: Item)
  datatype ThreadRead = ThreadRead(root: Instant, read: Read)
  datatype Reading = Reading(payloads: seq<Payload>, complete: bool, gaps: seq<(Instant, string)>)

  /** Channel history by timestamp; of two items with one timestamp the later wins. */
  function ByTs(items: seq<Item>): (found: map<Instant, Item>)
    ensures forall ts :: ts in found ==> found[ts] in items && found[ts].ts == Some(ts)
  {
    if items == [] then map[] else
      var last := items[|items| - 1];
      var found := ByTs(items[..|items| - 1]);
      if last.ts.Some? then found[last.ts.value := last] else found
  }

  /** A thread's items join unless they are its root or already found. */
  function WithThread(found: map<Instant, Item>, root: Instant, items: seq<Item>): (all: map<Instant, Item>)
    ensures forall ts :: ts in found ==> ts in all && all[ts] == found[ts]
  {
    if items == [] then found else
      var last := items[|items| - 1];
      var all := WithThread(found, root, items[..|items| - 1]);
      if last.ts.Some? && last.ts.value != root && last.ts.value !in all then all[last.ts.value := last] else all
  }

  function WithThreads(found: map<Instant, Item>, threads: seq<ThreadRead>): (all: map<Instant, Item>)
    ensures forall ts :: ts in found ==> ts in all && all[ts] == found[ts]
  {
    if threads == [] then found else
      var last := threads[|threads| - 1];
      WithThread(WithThreads(found, threads[..|threads| - 1]), last.root, last.read.items)
  }

  function Parents(found: map<Instant, Item>): set<Instant> {
    set ts | ts in found && found[ts].replies > 0
  }

  function Gaps(threads: seq<ThreadRead>): seq<(Instant, string)> {
    if threads == [] then [] else
      var last := threads[|threads| - 1];
      Gaps(threads[..|threads| - 1]) + (if last.read.refused.Some? then [(last.root, last.read.refused.value)] else [])
  }

  ghost predicate AscendingPayloads(ps: seq<Payload>) {
    forall i, j :: 0 <= i < j < |ps| ==> ps[i].ts < ps[j].ts
  }

  /** The payloads are exactly the found items inside the window, in timestamp order. */
  ghost predicate WindowOf(ps: seq<Payload>, found: map<Instant, Item>, oldest: Instant) {
    && AscendingPayloads(ps)
    && (forall i :: 0 <= i < |ps| ==> ps[i].ts in found && ps[i].item == found[ps[i].ts] && ps[i].ts >= oldest)
    && forall ts :: ts in found && ts >= oldest ==> exists i :: 0 <= i < |ps| && ps[i].ts == ts
  }

  /** Thread reads off the responses still to come, root after root; the response budget goes on. */
  datatype Threading = Threading(outcome: Result<seq<ThreadRead>>, size: nat, rest: seq<Response>)

  function ThreadsOf(script: seq<Response>, size: nat, roots: seq<Instant>): Threading {
    if roots == [] then Threading(Ok([]), size, script)
    else
      var n := |roots| - 1;
      var before := ThreadsOf(script, size, roots[..n]);
      if before.outcome.Err? then before
      else
        var p := PagesOf(before.rest, true, before.size, PAGES);
        if p.outcome.Err? then Threading(Err, p.size, p.rest)
        else Threading(Ok(before.outcome.value + [ThreadRead(roots[n], p.outcome.value)]), p.size, p.rest)
  }

  function RootsRead(threads: seq<ThreadRead>): seq<Instant> {
    seq(|threads|, i requires 0 <= i < |threads| => threads[i].root)
  }

  /** A thread the pass knows of: the store named its root, or the history read shows it has replies. */
  predicate Known(root: Instant, roots: seq<Instant>, found: map<Instant, Item>) {
    root in roots || root in Parents(found)
  }

  /** Known roots in order, the lowest ones. */
  ghost predicate Lowest(order: seq<Instant>, roots: seq<Instant>, found: map<Instant, Item>) {
    && (forall i, j :: 0 <= i < j < |order| ==> order[i] < order[j])
    && (forall r :: r in order ==> Known(r, roots, found))
    && (forall r, x :: r in order && Known(x, roots, found) && x !in order ==> r < x)
  }

  function HistoryOf(script: seq<Response>): Paging {
    PagesOf(script, false, 0, PAGES)
  }

  /** The whole meaning of `recent`: every known thread read off the responses in turn after the channel's
      history, what came of it, and when it counts as complete. */
  ghost predicate RecentSpec(script: seq<Response>, oldest: Instant, roots: seq<Instant>, reading: Reading,
                             threads: seq<ThreadRead>) {
    var history := HistoryOf(script);
    && history.outcome.Ok?
    && (var found := ByTs(history.outcome.value.items);
        && Lowest(RootsRead(threads), roots, found)
        && (forall r :: Known(r, roots, found) ==> r in RootsRead(threads))
        && ThreadsOf(history.rest, history.size, RootsRead(threads)).outcome == Ok(threads)
        && WindowOf(reading.payloads, WithThreads(found, threads), oldest))
    && (reading.complete <==> history.outcome.value.whole && AllWhole(threads))
    && reading.gaps == Gaps(threads)
  }

  predicate AllWhole(threads: seq<ThreadRead>) {
    forall t :: t in threads ==> t.read.whole
  }

  /** When `recent` fails: the history cannot be read, or some known thread, those below it being read. */
  ghost predicate RecentFails(script: seq<Response>, roots: seq<Instant>) {
    var history := HistoryOf(script);
    history.outcome.Ok? ==>
      exists order :: Lowest(order, roots, ByTs(history.outcome.value.items))
                      && ThreadsOf(history.rest, history.size, order).outcome.Err?
  }

  /** A complete reading holds every item the server lists in the window. */
  lemma {:induction false} CompleteReadsWindow(script: seq<Response>, oldest: Instant, roots: seq<Instant>,
                                               reading: Reading, threads: seq<ThreadRead>)
    requires RecentSpec(script, oldest, roots, reading, threads) && reading.complete
    ensures ChainOf(script).Some?
    ensures forall item :: item in ChainOf(script).value.items && InWindow(item, oldest) ==>
              ReadIn(reading.payloads, item.ts.value, ChainOf(script).value.items)
  {
    assert HistoryOf(script).outcome.value.whole;
    WholeIsEverything(script, false, 0, PAGES);
    NeverRefused(script, 0, PAGES);
    forall item | item in ChainOf(script).value.items && InWindow(item, oldest)
      ensures ReadIn(reading.payloads, item.ts.value, ChainOf(script).value.items)
    {
      HistoryInWindow(reading.payloads, ChainOf(script).value.items, threads, oldest, item);
    }
  }

  predicate InWindow(item: Item, oldest: Instant) {
    item.ts.Some? && item.ts.value >= oldest
  }

  predicate ReadIn(ps: seq<Payload>, ts: Instant, items: seq<Item>) {
    exists p :: p in ps && p.ts == ts && p.item in items && p.item.ts == Some(ts)
  }

  lemma {:induction false} HistoryInWindow(ps: seq<Payload>, items: seq<Item>, threads: seq<ThreadRead>,
                                           oldest: Instant, item: Item)
    requires WindowOf(ps, WithThreads(ByTs(items), threads), oldest)
    requires item in items && InWindow(item, oldest)
    ensures ReadIn(ps, item.ts.value, items)
  {
    ByTsFinds(items, item);
    var ts := item.ts.value;
    var all := WithThreads(ByTs(items), threads);
    assert ts in all && all[ts] == ByTs(items)[ts];
    var i :| 0 <= i < |ps| && ps[i].ts == ts;
    assert ps[i] in ps;
  }

  // ----- which item stands for a timestamp -----

  /** Item `i` is the last one with that timestamp. */
  predicate LastAt(items: seq<Item>, ts: Instant, i: int) {
    && 0 <= i < |items| && items[i].ts == Some(ts)
    && forall j :: i < j < |items| ==> items[j].ts != Some(ts)
  }

  lemma LastAtMore(items: seq<Item>, ts: Instant, i: int)
    requires items != [] && LastAt(items[..|items| - 1], ts, i) && items[|items| - 1].ts != Some(ts)
    ensures LastAt(items, ts, i)
  {
  }

  lemma {:induction false} ByTsLast(items: seq<Item>, ts: Instant)
    requires items != [] && items[|items| - 1].ts != Some(ts)
    ensures ts in ByTs(items) <==> ts in ByTs(items[..|items| - 1])
    ensures ts in ByTs(items) ==> ByTs(items)[ts] == ByTs(items[..|items| - 1])[ts]
  {
  }

  /** Of history items with one timestamp, the last one counts. */
  lemma {:induction false} LastItemCounts(items: seq<Item>, ts: Instant) returns (i: nat)
    requires ts in ByTs(items)
    ensures LastAt(items, ts, i) && ByTs(items)[ts] == items[i]
    decreases |items|
  {
    var n := |items| - 1;
    if items[n].ts == Some(ts) {
      i := n;
    } else {
      ByTsLast(items, ts);
      i := LastItemCounts(items[..n], ts);
      LastAtMore(items, ts, i);
    }
  }

  /** A thread adds its replies, but neither its root nor what history or an earlier thread found; of two with one
      timestamp the first counts. */
  lemma {:induction false} FirstReplyCounts(found: map<Instant, Item>, root: Instant, items: seq<Item>, ts: Instant)
    ensures ts in WithThread(found, root, items) <==>
              ts in found || (ts != root && exists i :: 0 <= i < |items| && items[i].ts == Some(ts))
    ensures ts in WithThread(found, root, items) ==>
              if ts in found then WithThread(found, root, items)[ts] == found[ts]
              else exists i :: 0 <= i < |items| && items[i].ts == Some(ts)
                               && WithThread(found, root, items)[ts] == items[i]
                               && forall j :: 0 <= j < i ==> items[j].ts != Some(ts)
  {
    if items != [] {
      var n := |items| - 1;
      var init := items[..n];
      FirstReplyCounts(found, root, init, ts);
      assert forall i :: 0 <= i < n ==> items[i] == init[i];
      if ts !in found && ts in WithThread(found, root, items) && ts !in WithThread(found, root, init) {
        assert items[n].ts == Some(ts) && WithThread(found, root, items)[ts] == items[n];
      }
    }
  }

  /** A channel's history is certified whole exactly when the served list ends within ten pages and 32 MiB. */
  lemma {:induction false} HistoryIsWhole(script: seq<Response>)
    ensures var p := HistoryOf(script).outcome;
            (p.Ok? && p.value.whole) <==>
              (ChainOf(script).Some? && ChainOf(script).value.pages <= 10
               && ChainOf(script).value.bytes <= 32 * 1024 * 1024)
  {
    WholeIsEverything(script, false, 0, PAGES);
    NeverRefused(script, 0, PAGES);
  }

  // ----- what a complete reading says of the threads -----

  /** The responses that the reading of thread `k` begins with. */
  function PartFor(script: seq<Response>, threads: seq<ThreadRead>, k: nat): seq<Response>
    requires k <= |threads|
  {
    ThreadsOf(HistoryOf(script).rest, HistoryOf(script).size, RootsRead(threads)[..k]).rest
  }

  /** Thread `k` was read to the end of the list served for it. */
  predicate ReadToEnd(script: seq<Response>, threads: seq<ThreadRead>, k: int) {
    && 0 <= k < |threads|
    && ChainOf(PartFor(script, threads, k)).Some?
    && threads[k].read.items == ChainOf(PartFor(script, threads, k)).value.items
  }

  lemma {:induction false} SizeStaysWithin(script: seq<Response>, threaded: bool, size: nat, left: nat)
    requires size <= CORPUS_LIMIT && PagesOf(script, threaded, size, left).outcome.Ok?
    ensures PagesOf(script, threaded, size, left).size <= CORPUS_LIMIT
    decreases left
  {
    if left > 0 && script[0].Page? && script[0].next.More? {
      SizeStaysWithin(script[1..], threaded, size + script[0].bytes, left - 1);
    }
  }

  /** Each thread's read is what its part of the responses gives. */
  lemma {:induction false} ThreadIsRead(script: seq<Response>, size: nat, roots: seq<Instant>, threads: seq<ThreadRead>,
                                        k: nat)
    requires size <= CORPUS_LIMIT && ThreadsOf(script, size, roots).outcome == Ok(threads) && k < |roots|
    ensures |threads| == |roots| && ThreadsOf(script, size, roots).size <= CORPUS_LIMIT
    ensures var before := ThreadsOf(script, size, roots[..k]);
            && before.outcome == Ok(threads[..k]) && before.size <= CORPUS_LIMIT && threads[k].root == roots[k]
            && PagesOf(before.rest, true, before.size, PAGES).outcome == Ok(threads[k].read)
    decreases |roots|
  {
    var n := |roots| - 1;
    var before := ThreadsOf(script, size, roots[..n]);
    if n > 0 {
      ThreadIsRead(script, size, roots[..n], before.outcome.value, if k < n then k else n - 1);
    }
    LastIsRead(script, size, roots, threads);
    if k < n {
      assert roots[..n][..k] == roots[..k] && threads[..n][..k] == threads[..k];
    }
  }

  lemma {:induction false} LastIsRead(script: seq<Response>, size: nat, roots: seq<Instant>, threads: seq<ThreadRead>)
    requires roots != [] && ThreadsOf(script, size, roots).outcome == Ok(threads)
    requires ThreadsOf(script, size, roots[..|roots| - 1]).size <= CORPUS_LIMIT
    ensures var n := |roots| - 1;
            var before := ThreadsOf(script, size, roots[..n]);
            && before.outcome.Ok? && |threads| == |before.outcome.value| + 1
                && threads[..|threads| - 1] == before.outcome.value
            && ThreadsOf(script, size, roots).size <= CORPUS_LIMIT && threads[|threads| - 1].root == roots[n]
            && PagesOf(before.rest, true, before.size, PAGES).outcome == Ok(threads[|threads| - 1].read)
  {
    var before := ThreadsOf(script, size, roots[..|roots| - 1]);
    SizeStaysWithin(before.rest, true, before.size, PAGES);
  }

  /** In a complete reading every thread the pass knew of, from the store or from the history it read, was
      read to the end of the list served for it, or was refused and is handed on to be noted. */
  lemma CompleteReadsThreads(script: seq<Response>, oldest: Instant, roots: seq<Instant>, reading: Reading,
                             threads: seq<ThreadRead>, root: Instant)
    requires RecentSpec(script, oldest, roots, reading, threads) && reading.complete
    requires Known(root, roots, ByTs(HistoryOf(script).outcome.value.items))
    ensures exists k :: 0 <= k < |threads| && threads[k].root == root && Settled(script, threads, k, reading.gaps)
  {
    var history := HistoryOf(script);
    var order := RootsRead(threads);
    assert root in order;
    var k :| 0 <= k < |order| && order[k] == root;
    SizeStaysWithin(script, false, 0, PAGES);
    ThreadIsRead(history.rest, history.size, order, threads, k);
    var before := ThreadsOf(history.rest, history.size, order[..k]);
    WholeIsEverything(before.rest, true, before.size, PAGES);
    assert threads[k] in threads;
    if threads[k].read.refused.Some? {
      GapsListRefusals(threads, threads[k]);
    }
    assert Settled(script, threads, k, reading.gaps);
  }

  predicate Settled(script: seq<Response>, threads: seq<ThreadRead>, k: int, gaps: seq<(Instant, string)>) {
    && 0 <= k < |threads|
    && (if threads[k].read.refused.Some? then (threads[k].root, threads[k].read.refused.value) in gaps
        else ReadToEnd(script, threads, k))
  }

  /** Every reply read inside the window is among the payloads, but for its thread's root. */
  lemma RepliesAreKept(script: seq<Response>, oldest: Instant, roots: seq<Instant>, reading: Reading,
                       threads: seq<ThreadRead>, k: nat, item: Item)
    requires RecentSpec(script, oldest, roots, reading, threads)
    requires k < |threads| && item in threads[k].read.items && InWindow(item, oldest)
             && item.ts.value != threads[k].root
    ensures exists p :: p in reading.payloads && p.ts == item.ts.value
  {
    var found := ByTs(HistoryOf(script).outcome.value.items);
    RepliesAreFound(found, threads, k, item);
    var ts := item.ts.value;
    var i :| 0 <= i < |reading.payloads| && reading.payloads[i].ts == ts;
    assert reading.payloads[i] in reading.payloads;
  }

  lemma {:induction false} RepliesAreFound(found: map<Instant, Item>, threads: seq<ThreadRead>, k: nat, item: Item)
    requires k < |threads| && item in threads[k].read.items && item.ts.Some? && item.ts.value != threads[k].root
    ensures item.ts.value in WithThreads(found, threads)
    decreases |threads|
  {
    var n := |threads| - 1;
    var before := WithThreads(found, threads[..n]);
    if k < n {
      RepliesAreFound(found, threads[..n], k, item);
    } else {
      ReplyIsFound(before, threads[n].root, threads[n].read.items, item);
    }
  }

  lemma {:induction false} ReplyIsFound(found: map<Instant, Item>, root: Instant, items: seq<Item>, item: Item)
    requires item in items && item.ts.Some? && item.ts.value != root
    ensures item.ts.value in WithThread(found, root, items)
  {
    var n := |items| - 1;
    if items[n] != item {
      assert items == items[..n] + [items[n]];
      ReplyIsFound(found, root, items[..n], item);
    }
  }

  lemma {:induction false} NeverRefused(script: seq<Response>, size: nat, left: nat)
    ensures var p := PagesOf(script, false, size, left).outcome; p.Ok? ==> p.value.refused == None
    decreases left
  {
    if left > 0 && script != [] && script[0].Page? && script[0].next.More? {
      NeverRefused(script[1..], size + script[0].bytes, left - 1);
    }
  }

  lemma {:induction false} ByTsFinds(items: seq<Item>, item: Item)
    requires item in items && item.ts.Some?
    ensures item.ts.value in ByTs(items)
  {
    var n := |items| - 1;
    if items[n] != item {
      assert items == items[..n] + [items[n]];
      ByTsFinds(items[..n], item);
    }
  }

  lemma {:induction false} GapsListRefusals(threads: seq<ThreadRead>, t: ThreadRead)
    requires t in threads && t.read.refused.Some?
    ensures (t.root, t.read.refused.value) in Gaps(threads)
  {
    var n := |threads| - 1;
    if threads[n] != t {
      assert threads == threads[..n] + [threads[n]];
      GapsListRefusals(threads[..n], t);
    }
  }

  // ----- the read window -----

  datatype Start = Start(oldest: Instant, roots: seq<Instant>, mark: Option<Instant>)

  function MarkOf(l: Ledger, channel: string): Option<Instant> {
    if channel in l.marks then Some(l.marks[channel].mark) else None
  }

  /** The store's `latest_message_ts`: the newest stored message received before the daemon started. */
  function LatestTs(messages: seq<Stored>, workspace: string, channel: string,
                    started: Option<Instant>): Option<Instant> {
    if messages == [] then None else
      var last := messages[|messages| - 1];
      var latest := LatestTs(messages[..|messages| - 1], workspace, channel, started);
      if last.message.workspace == workspace && last.message.channel == channel
         && (started == None || last.received < started.value)
         && (latest == None || last.message.ts > latest.value)
      then Some(last.message.ts) else latest
  }

  function Min(a: Instant, b: Instant): Instant { if a <= b then a else b }
  function Max(a: Instant, b: Instant): Instant { if a >= b then a else b }

  /** `start` (src/slack/catchup.rs:143-172). Which thread roots the store names is left open. */
  function StartOf(l: Ledger, cfg: Config, channel: string, window: Instant, now: Instant, started: Option<Instant>,
                   roots: seq<Instant>): Start
  {
    var mark := MarkOf(l, channel);
    var base := if mark.Some? then mark else LatestTs(l.messages, cfg.workspace, channel, started);
    var reach := if base.Some? then base.value - OVERLAP else now - window;
    Start(Max(Min(now - window, reach), now - MAX_WINDOW), roots, mark)
  }

  // ----- the commit -----

  function ToMessage(cfg: Config, channel: string, p: Payload): Message {
    Message(Caught(channel, p.ts), cfg.workspace, channel, p.ts, p.item.thread, p.item.sender, p.item.text,
            Source.Catchup, p.item.routable)
  }

  function Prepared(cfg: Config, channel: string, ps: seq<Payload>): seq<Message> {
    if ps == [] then [] else
      var last := ps[|ps| - 1];
      var rest := Prepared(cfg, channel, ps[..|ps| - 1]);
      if last.item.supported then rest + [ToMessage(cfg, channel, last)] else rest
  }

  function Dropped(cfg: Config, channel: string, ps: seq<Payload>): seq<EventId> {
    if ps == [] then [] else
      var last := ps[|ps| - 1];
      var rest := Dropped(cfg, channel, ps[..|ps| - 1]);
      if !last.item.supported && Mentions(last.item.text, cfg.owner) then rest + [Caught(channel, last.ts)] else rest
  }

  function FirstRead(now: Instant, ps: seq<Payload>): Instant {
    if ps == [] then now else Min(FirstRead(now, ps[..|ps| - 1]), ps[|ps| - 1].ts)
  }

  /** Intake of every prepared message in order; one refusal refuses the pass. */
  function IntakeAll(l: Ledger, ms: seq<Message>, cfg: Config, now: Instant, id: nat): Result<(Ledger, nat)> {
    if ms == [] then Ok((l, 0)) else
      var n := |ms| - 1;
      var rest := IntakeAll(l, ms[..n], cfg, now, id);
      if rest.Err? || !Acceptable(ms[n], cfg.grace) then Err else
        var l' := Taken(rest.value.0, ms[n], cfg, now, id + n, Some(now - DAY));
        Ok((l', rest.value.1 + |l'.inbox| - |rest.value.0.inbox|))
  }

  predicate SkipNoted(notes: seq<Note>, channel: string, root: Instant) {
    exists n :: n in notes && n.SkippedThread? && n.channel == channel && n.root == root
  }

  predicate DropNoted(notes: seq<Note>, e: EventId) {
    exists n :: n in notes && n == DroppedMention(e)
  }

  function NoteSkips(notes: seq<Note>, channel: string, gaps: seq<(Instant, string)>): seq<Note> {
    if gaps == [] then notes else
      var last := gaps[|gaps| - 1];
      var rest := NoteSkips(notes, channel, gaps[..|gaps| - 1]);
      if SkipNoted(rest, channel, last.0) then rest else rest + [SkippedThread(channel, last.0, last.1)]
  }

  /** Skipped threads are noted once per root: the notes so far stay, each new one is of a root the pass was refused,
      with its code, and had no note before; and every refused root has one. */
  lemma {:induction false} SkipsAreNoted(notes: seq<Note>, channel: string, gaps: seq<(Instant, string)>)
    ensures var all := NoteSkips(notes, channel, gaps);
            && notes <= all
            && (forall i :: |notes| <= i < |all| ==>
                  && all[i].SkippedThread? && all[i].channel == channel && (all[i].root, all[i].code) in gaps
                  && forall j :: 0 <= j < i && all[j].SkippedThread? && all[j].channel == channel ==>
                       all[j].root != all[i].root)
            && forall g :: g in gaps ==> SkipNoted(all, channel, g.0)
  {
    if gaps != [] {
      var n := |gaps| - 1;
      SkipsAreNoted(notes, channel, gaps[..n]);
      var rest, all := NoteSkips(notes, channel, gaps[..n]), NoteSkips(notes, channel, gaps);
      assert gaps == gaps[..n] + [gaps[n]];
      assert rest <= all;
      forall g | g in gaps ensures SkipNoted(all, channel, g.0) {
        if g == gaps[n] && !SkipNoted(rest, channel, g.0) {
          assert all[|rest|] in all;
        } else {
          var note :| note in rest && note.SkippedThread? && note.channel == channel && note.root == g.0;
          assert note in all;
        }
      }
    }
  }

  /** A gap ends at the first message read, or at the pass itself. */
  lemma {:induction false} FirstReadIsFirst(now: Instant, ps: seq<Payload>)
    ensures var first := FirstRead(now, ps);
            && first <= now && (forall p :: p in ps ==> first <= p.ts)
            && (first == now || exists p :: p in ps && p.ts == first)
  {
    if ps != [] {
      var n := |ps| - 1;
      FirstReadIsFirst(now, ps[..n]);
      assert ps == ps[..n] + [ps[n]];
      assert ps[n] in ps;
    }
  }

  function NoteDrops(notes: seq<Note>, es: seq<EventId>): seq<Note> {
    if es == [] then notes else
      var rest := NoteDrops(notes, es[..|es| - 1]);
      if DropNoted(rest, es[|es| - 1]) then rest else rest + [DroppedMention(es[|es| - 1])]
  }

  function Runs(l: Ledger, channel: string): nat {
    (if channel in l.marks then l.marks[channel].truncated else 0) + 1
  }

  /** The watermark a commit leaves: a truncated pass pins it once, the next one advances it. */
  function NewMark(l: Ledger, channel: string, start: Start, now: Instant, complete: bool): Watermark {
    var runs := Runs(l, channel);
    var pinned := !complete && runs < 2;
    var current := MarkOf(l, channel);
    Watermark(if !pinned then now else if current.Some? then current.value else start.oldest + OVERLAP,
              pinned, if pinned then runs else 0)
  }

  /** The watermark part of the commit, on the rows as intake left them. */
  function Marked(l: Ledger, channel: string, start: Start, now: Instant, reading: Reading, added: nat): Ledger {
    var runs := Runs(l, channel);
    var w := NewMark(l, channel, start, now, reading.complete);
    var gap := Gap(channel, start.oldest, FirstRead(now, reading.payloads), now, runs);
    l.(marks := l.marks[channel := w],
       notes := if !reading.complete && runs >= 2 then l.notes + [gap] else l.notes,
       commits := l.commits + [PassRecord(channel, now, start.oldest, reading.complete, w.mark, w.pinned, added)])
  }

  /** One channel's commit: intake, notes, fence, watermark and record, all or nothing. */
  function CommitOf(l: Ledger, cfg: Config, channel: string, start: Start, now: Instant, reading: Reading, id: nat)
    : Result<(Ledger, nat)>
  {
    var taken := IntakeAll(l, Prepared(cfg, channel, reading.payloads), cfg, now, id);
    if taken.Err? then Err else
      var noted := taken.value.0.(notes := NoteDrops(NoteSkips(taken.value.0.notes, channel, reading.gaps),
                                                     Dropped(cfg, channel, reading.payloads)));
      if MarkOf(noted, channel) != start.mark then Err
      else Ok((Marked(noted, channel, start, now, reading, taken.value.1), taken.value.1))
  }
}
