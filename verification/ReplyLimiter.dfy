/** The rolling-hour reply limiter: `reserve` in src/attention/mod.rs.

    Instants are integer microseconds. A reply row carries two of them: `made`, when the
    capacity was reserved, and `at`, the instant the store counts it by, which moves
    forward to the delivery instant when the reply is delivered. */
module ReplyLimiter {
  import opened Wrappers

  type Instant = int
  const HOUR: Instant := 3600 * 1_000_000

  datatype Trigger = Owner | Peer | Human
  datatype Phase = Reserved | Sent | Released
  datatype Reply = Reply(session: string, inbox: int, trigger: Trigger, made: Instant, at: Instant, phase: Phase)
  datatype Item = Item(session: string, open: bool, due: Instant)
  datatype Limits = Limits(replies: nat, echoes: nat) {
    /** `Attention::validate`: a zero limit is refused when the configuration loads. */
    predicate Valid() { replies >= 1 && echoes >= 1 }
  }
  datatype Capacity = Granted | Deferred(until: Instant)

  /** The rows one reservation transaction reads and writes. */
  datatype Book = Book(active: set<string>, items: map<int, Item>, replies: seq<Reply>)

  // ----- counting -----

  function Count(rs: seq<Reply>, p: Reply -> bool): (n: nat)
    ensures n <= |rs|
  {
    if rs == [] then 0 else Count(rs[..|rs| - 1], p) + (if p(rs[|rs| - 1]) then 1 else 0)
  }

  lemma {:induction false} CountImplies(rs: seq<Reply>, p: Reply -> bool, q: Reply -> bool)
    requires forall r :: r in rs && p(r) ==> q(r)
    ensures Count(rs, p) <= Count(rs, q)
  {
    if rs != [] {
      CountImplies(rs[..|rs| - 1], p, q);
    }
  }

  lemma {:induction false} CountConcat(a: seq<Reply>, b: seq<Reply>, p: Reply -> bool)
    ensures Count(a + b, p) == Count(a, p) + Count(b, p)
  {
    if b == [] {
      assert a + b == a;
    } else {
      assert (a + b)[..|a + b| - 1] == a + b[..|b| - 1];
      CountConcat(a, b[..|b| - 1], p);
    }
  }

  /** A reply the store counts: reserved or already sent, in this session. */
  predicate Counted(r: Reply, session: string) {
    r.session == session && r.phase != Released
  }

  /** Counted replies of the session younger than an hour at `t`. */
  function Recent(session: string, t: Instant): Reply -> bool {
    (r: Reply) => Counted(r, session) && r.at > t - HOUR
  }

  function RecentPeer(session: string, t: Instant): Reply -> bool {
    (r: Reply) => Counted(r, session) && r.at > t - HOUR && r.trigger == Peer
  }

  /** Reference definition: whether a reply may be reserved at `t`. The owner always may. */
  predicate HasRoom(rs: seq<Reply>, session: string, trigger: Trigger, limits: Limits, t: Instant) {
    trigger == Owner
    || (Count(rs, Recent(session, t)) < limits.replies
        && (trigger == Peer ==> Count(rs, RecentPeer(session, t)) < limits.echoes))
  }

  /** The first instant from `now` on at which these rows leave room. */
  ghost predicate Earliest(rs: seq<Reply>, session: string, trigger: Trigger, limits: Limits, now: Instant,
                           u: Instant) {
    && now <= u
    && HasRoom(rs, session, trigger, limits, u)
    && forall t :: now <= t < u ==> !HasRoom(rs, session, trigger, limits, t)
  }

  /** While the rows stay as they are, capacity only returns as time passes. */
  lemma RoomStays(rs: seq<Reply>, session: string, trigger: Trigger, limits: Limits, t: Instant, t': Instant)
    requires t <= t' && HasRoom(rs, session, trigger, limits, t)
    ensures HasRoom(rs, session, trigger, limits, t')
  {
    CountImplies(rs, Recent(session, t'), Recent(session, t));
    CountImplies(rs, RecentPeer(session, t'), RecentPeer(session, t));
  }

  // ----- what one reservation promises -----

  predicate LiveFor(rs: seq<Reply>, inbox: int, phase: Phase) {
    exists i :: 0 <= i < |rs| && rs[i].inbox == inbox && rs[i].phase == phase
  }

  predicate Open(b: Book, session: string, inbox: int) {
    inbox in b.items && b.items[inbox].session == session && b.items[inbox].open
  }

  /** The whole meaning of one `reserve` transaction, from book `b` to book `b'`. */
  ghost predicate ReserveSpec(b: Book, session: string, inbox: int, trigger: Trigger, now: Instant, limits: Limits,
                              r: Result<Capacity>, b': Book) {
    if session !in b.active || !Open(b, session, inbox) then r == Err && b' == b
    else if LiveFor(b.replies, inbox, Reserved) then r == Ok(Granted) && b' == b
    else if LiveFor(b.replies, inbox, Sent) then r == Err && b' == b
    else if HasRoom(b.replies, session, trigger, limits, now) then
      r == Ok(Granted) && b' == b.(replies := b.replies + [Reply(session, inbox, trigger, now, now, Reserved)])
    else
      && r.Ok? && r.value.Deferred?
      && Earliest(b.replies, session, trigger, limits, now, r.value.until)
      && b' == b.(items := b.items[inbox := b.items[inbox].(due := r.value.until)])
  }

  // ----- the index-from-the-end computation -----

  predicate Ascending(es: seq<Reply>) {
    forall i, j :: 0 <= i < j < |es| ==> es[i].at <= es[j].at
  }

  function Younger(c: Instant): Reply -> bool {
    (r: Reply) => r.at > c
  }

  lemma {:induction false} CountAll(es: seq<Reply>, p: Reply -> bool)
    ensures (forall r :: r in es ==> p(r)) ==> Count(es, p) == |es|
    ensures (forall r :: r in es ==> !p(r)) ==> Count(es, p) == 0
  {
    if es != [] {
      CountAll(es[..|es| - 1], p);
    }
  }

  /** In an ascending list the k-th entry from the end decides whether k entries are younger than `c`. */
  lemma {:induction false} FromTheEnd(es: seq<Reply>, k: nat, c: Instant)
    requires Ascending(es) && 1 <= k <= |es|
    ensures Count(es, Younger(c)) >= k <==> es[|es| - k].at > c
  {
    var n := |es| - k;
    if es[n].at > c {
      CountSlice(es, n, c);
    } else {
      CountPrefix(es, n + 1, c);
    }
  }

  lemma {:induction false} CountSlice(es: seq<Reply>, n: nat, c: Instant)
    requires Ascending(es) && n < |es| && es[n].at > c
    ensures Count(es, Younger(c)) >= |es| - n
  {
    var front, back := es[..n], es[n..];
    assert es == front + back;
    CountConcat(front, back, Younger(c));
    forall i | 0 <= i < |back| ensures back[i].at > c {
      assert back[i] == es[n + i];
    }
    CountAll(back, Younger(c));
  }

  lemma {:induction false} CountPrefix(es: seq<Reply>, n: nat, c: Instant)
    requires Ascending(es) && 1 <= n <= |es| && es[n - 1].at <= c
    ensures Count(es, Younger(c)) <= |es| - n
  {
    var front, back := es[..n], es[n..];
    assert es == front + back;
    CountConcat(front, back, Younger(c));
    forall i | 0 <= i < |front| ensures front[i].at <= c {
      assert front[i] == es[i];
    }
    CountAll(front, Younger(c));
  }

  lemma {:induction false} CountMiddle(front: seq<Reply>, r: Reply, back: seq<Reply>, p: Reply -> bool)
    ensures Count(front + [r] + back, p) == Count(front + back, p) + (if p(r) then 1 else 0)
  {
    CountConcat(front + [r], back, p);
    CountConcat(front, [r], p);
    CountConcat(front, back, p);
    assert [r][..0] == [];
  }

  lemma SameWithout(init: seq<Reply>, last: Reply, front: seq<Reply>, back: seq<Reply>)
    requires multiset(init + [last]) == multiset(front + [last] + back)
    ensures multiset(init) == multiset(front + back)
  {
    assert multiset(init) == multiset(init + [last]) - multiset{last};
    assert multiset(front + back) == multiset(front + [last] + back) - multiset{last};
  }

  lemma {:induction false} CountSplit(rs: seq<Reply>, es: seq<Reply>, p: Reply -> bool)
    requires multiset(rs) == multiset(es)
    ensures Count(rs, p) == Count(es, p)
    decreases |rs|
  {
    if rs == [] {
      assert |multiset(es)| == 0;
      assert es == [];
    } else {
      var init, last := rs[..|rs| - 1], rs[|rs| - 1];
      assert rs == init + [last];
      assert last in multiset(rs);
      assert last in es;
      var i :| 0 <= i < |es| && es[i] == last;
      var front, back := es[..i], es[i + 1..];
      assert es == front + [last] + back;
      SameWithout(init, last, front, back);
      CountSplit(init, front + back, p);
      CountMiddle(front, last, back, p);
    }
  }

  function Keep(rs: seq<Reply>, p: Reply -> bool): (es: seq<Reply>)
    ensures forall r :: r in es <==> r in rs && p(r)
  {
    if rs == [] then [] else
      var rest := Keep(rs[..|rs| - 1], p);
      if p(rs[|rs| - 1]) then rest + [rs[|rs| - 1]] else rest
  }

  lemma {:induction false} KeepCount(rs: seq<Reply>, p: Reply -> bool, q: Reply -> bool, pq: Reply -> bool)
    requires forall r :: r in rs ==> (pq(r) <==> p(r) && q(r))
    ensures Count(Keep(rs, p), q) == Count(rs, pq)
  {
    if rs != [] {
      var init := rs[..|rs| - 1];
      KeepCount(init, p, q, pq);
      var es := Keep(init, p);
      var last := rs[|rs| - 1];
      assert (es + [last])[..|es|] == es;
    }
  }

  lemma {:induction false} KeepAscending(es: seq<Reply>, p: Reply -> bool)
    requires Ascending(es)
    ensures Ascending(Keep(es, p))
  {
    if es != [] {
      var init := es[..|es| - 1];
      KeepAscending(init, p);
      forall r | r in Keep(init, p) ensures r.at <= es[|es| - 1].at {
        var i :| 0 <= i < |init| && init[i] == r;
      }
    }
  }

  /** `events[len - limit].at + 3600` is the first instant at which fewer than `limit` events
      are younger than an hour. */
  lemma {:induction false} DeadlineExact(es: seq<Reply>, limit: nat, t: Instant)
    requires Ascending(es) && limit >= 1
    ensures Count(es, Younger(t - HOUR)) < limit <==> Ready(es, limit, t)
  {
    if |es| >= limit {
      FromTheEnd(es, limit, t - HOUR);
    }
  }

  // ----- the transaction -----

  function IsPeer(): Reply -> bool {
    (r: Reply) => r.trigger == Peer
  }

  /** The counts of the reference definition, read off the events the store returned at `now`. */
  lemma {:induction false} EventCounts(rs: seq<Reply>, es: seq<Reply>, session: string, now: Instant, t: Instant)
    requires multiset(es) == multiset(Keep(rs, Recent(session, now))) && now <= t
    ensures Count(rs, Recent(session, t)) == Count(es, Younger(t - HOUR))
    ensures Count(rs, RecentPeer(session, t)) == Count(Keep(es, IsPeer()), Younger(t - HOUR))
  {
    var kept := Keep(rs, Recent(session, now));
    CountSplit(es, kept, Younger(t - HOUR));
    KeepCount(rs, Recent(session, now), Younger(t - HOUR), Recent(session, t));
    var youngPeer := (r: Reply) => r.trigger == Peer && r.at > t - HOUR;
    KeepCount(es, IsPeer(), Younger(t - HOUR), youngPeer);
    CountSplit(es, kept, youngPeer);
    KeepCount(rs, Recent(session, now), youngPeer, RecentPeer(session, t));
  }

  /** The deadline of one limit has passed at `t`: the loop-free arithmetic of `reserve`. */
  predicate Ready(es: seq<Reply>, limit: nat, t: Instant)
    requires limit >= 1
  {
    |es| < limit || es[|es| - limit].at + HOUR <= t
  }

  lemma {:induction false} RoomByDeadlines(rs: seq<Reply>, es: seq<Reply>, session: string, trigger: Trigger,
                                           limits: Limits, now: Instant, t: Instant)
    requires multiset(es) == multiset(Keep(rs, Recent(session, now))) && Ascending(es)
    requires limits.Valid() && now <= t && trigger != Owner
    ensures HasRoom(rs, session, trigger, limits, t) <==>
            Ready(es, limits.replies, t) && (trigger == Peer ==> Ready(Keep(es, IsPeer()), limits.echoes, t))
  {
    EventCounts(rs, es, session, now, t);
    DeadlineExact(es, limits.replies, t);
    KeepAscending(es, IsPeer());
    DeadlineExact(Keep(es, IsPeer()), limits.echoes, t);
  }

  function Insert(es: seq<Reply>, r: Reply): (out: seq<Reply>)
    ensures multiset(out) == multiset(es) + multiset{r}
  {
    if es == [] || es[|es| - 1].at <= r.at then es + [r] else
      assert es == es[..|es| - 1] + [es[|es| - 1]];
      Insert(es[..|es| - 1], r) + [es[|es| - 1]]
  }

  lemma {:induction false} InsertAscending(es: seq<Reply>, r: Reply)
    requires Ascending(es)
    ensures Ascending(Insert(es, r))
  {
    if es != [] && r.at < es[|es| - 1].at {
      var init, last := es[..|es| - 1], es[|es| - 1];
      InsertAscending(init, r);
      var out := Insert(init, r);
      forall i | 0 <= i < |out| ensures out[i].at <= last.at {
        assert out[i] in multiset(out);
        assert out[i] in multiset(init) || out[i] == r;
      }
    }
  }

  class Desk {
    var active: set<string>
    var items: map<int, Item>
    var replies: seq<Reply>

    ghost function State(): Book
      reads this
    {
      Book(active, items, replies)
    }

    /** The store's `reservation_state`: the phase of the live row for an inbox item. */
    method Prior(inbox: int) returns (phase: Option<Phase>)
      ensures phase == Some(Reserved) <==> LiveFor(replies, inbox, Reserved)
      ensures phase == Some(Sent) <==> LiveFor(replies, inbox, Sent) && !LiveFor(replies, inbox, Reserved)
    {
      if exists i :: 0 <= i < |replies| && replies[i].inbox == inbox && replies[i].phase == Reserved {
        phase := Some(Reserved);
      } else if exists i :: 0 <= i < |replies| && replies[i].inbox == inbox && replies[i].phase == Sent {
        phase := Some(Sent);
      } else {
        phase := None;
      }
    }

    /** The store's `recent_replies`: the session's counted replies of the last hour, oldest first. */
    method RecentReplies(session: string, now: Instant) returns (events: seq<Reply>)
      ensures Ascending(events)
      ensures multiset(events) == multiset(Keep(replies, Recent(session, now)))
    {
      events := [];
      var i := 0;
      while i < |replies|
        invariant 0 <= i <= |replies|
        invariant Ascending(events)
        invariant multiset(events) == multiset(Keep(replies[..i], Recent(session, now)))
      {
        assert replies[..i + 1][..i] == replies[..i];
        if Counted(replies[i], session) && replies[i].at > now - HOUR {
          InsertAscending(events, replies[i]);
          events := Insert(events, replies[i]);
        }
        i := i + 1;
      }
      assert replies[..i] == replies;
    }

    /** The first instant with room, from `now` on (src/attention/mod.rs:174-189). */
    method Deadline(session: string, trigger: Trigger, now: Instant, limits: Limits) returns (until: Instant)
      requires limits.Valid()
      ensures now <= until
      ensures forall t :: now <= t ==> (HasRoom(replies, session, trigger, limits, t) <==> until <= t)
    {
      until := now;
      if trigger != Owner {
        var events := RecentReplies(session, now);
        if |events| >= limits.replies {
          until := Max(until, events[|events| - limits.replies].at + HOUR);
        }
        var peers := Keep(events, IsPeer());
        if trigger == Peer && |peers| >= limits.echoes {
          until := Max(until, peers[|peers| - limits.echoes].at + HOUR);
        }
        forall t | now <= t ensures HasRoom(replies, session, trigger, limits, t) <==> until <= t {
          RoomByDeadlines(replies, events, session, trigger, limits, now, t);
        }
      }
    }

    /** `reserve` (src/attention/mod.rs:146-198), one all-or-nothing transaction. */
    method Reserve(session: string, inbox: int, trigger: Trigger, now: Instant, limits: Limits)
      returns (r: Result<Capacity>)
      requires limits.Valid()
      modifies this
      ensures ReserveSpec(old(State()), session, inbox, trigger, now, limits, r, State())
    {
      if session !in active || !(inbox in items && items[inbox].session == session && items[inbox].open) {
        return Err;
      }
      var prior := Prior(inbox);
      if prior == Some(Reserved) {
        return Ok(Granted);
      }
      if prior == Some(Sent) {
        return Err;
      }
      var until := Deadline(session, trigger, now, limits);
      if until > now {
        items := items[inbox := items[inbox].(due := until)];
        return Ok(Deferred(until));
      }
      replies := replies + [Reply(session, inbox, trigger, now, now, Phase.Reserved)];
      return Ok(Granted);
    }
  }

  function Max(a: Instant, b: Instant): Instant {
    if a >= b then a else b
  }

  // ----- who is granted, and who is deferred -----

  /** The rows of the session, reserved or sent, counted by an instant of the last hour; of peers only, if asked. */
  function LastHour(rs: seq<Reply>, session: string, now: Instant, peers: bool): set<nat> {
    set i: nat | i < |rs| && rs[i].session == session && (rs[i].phase == Phase.Reserved || rs[i].phase == Sent)
                 && now - 3600 * 1_000_000 < rs[i].at && (peers ==> rs[i].trigger == Peer)
  }

  lemma {:induction false} CountIsRows(rs: seq<Reply>, session: string, now: Instant, peers: bool)
    ensures Count(rs, if peers then RecentPeer(session, now) else Recent(session, now))
            == |LastHour(rs, session, now, peers)|
  {
    if rs != [] {
      var n := |rs| - 1;
      CountIsRows(rs[..n], session, now, peers);
      var before, after := LastHour(rs[..n], session, now, peers), LastHour(rs, session, now, peers);
      if n in after {
        assert after == before + {n};
      } else {
        assert after == before;
      }
    }
  }

  predicate Full(rs: seq<Reply>, session: string, trigger: Trigger, limits: Limits, t: Instant) {
    || |LastHour(rs, session, t, false)| >= limits.replies
    || (trigger == Peer && |LastHour(rs, session, t, true)| >= limits.echoes)
  }

  /** When `reserve` counts: the owner's reply is always granted; a person's is deferred if and only if the rows of
      the last hour reach the limit; a peer's if and only if they do, or the peers among them reach theirs. A
      grant appends the row, a deferral sets only when the item is due, to the first instant at which these rows
      leave room. */
  lemma ReservedExactly(b: Book, session: string, inbox: int, trigger: Trigger, now: Instant, limits: Limits,
                        r: Result<Capacity>, b': Book)
    requires session in b.active && Open(b, session, inbox)
    requires forall row :: row in b.replies && row.inbox == inbox ==> row.phase == Released
    requires ReserveSpec(b, session, inbox, trigger, now, limits, r, b')
    ensures trigger == Owner ==> r == Ok(Granted)
    ensures trigger != Owner ==>
              (r.Ok? && r.value.Deferred? <==> Full(b.replies, session, trigger, limits, now))
    ensures r == Ok(Granted) || (r.Ok? && r.value.Deferred? && now < r.value.until)
    ensures r != Ok(Granted) ==>
              && !Full(b.replies, session, trigger, limits, r.value.until)
              && forall t :: now <= t < r.value.until ==> Full(b.replies, session, trigger, limits, t)
    ensures b' == if r == Ok(Granted) then
                    b.(replies := b.replies + [Reply(session, inbox, trigger, now, now, Phase.Reserved)])
                  else b.(items := b.items[inbox := b.items[inbox].(due := r.value.until)])
  {
    forall t ensures trigger != Owner ==>
                       (HasRoom(b.replies, session, trigger, limits, t)
                        <==> !Full(b.replies, session, trigger, limits, t))
    {
      CountIsRows(b.replies, session, t, false);
      CountIsRows(b.replies, session, t, true);
    }
  }

  /** What is refused instead: a thread that is not active, an item that is not open in it, an item with a sent
      reply; one with a reserved reply is granted again without another row. */
  lemma RefusedExactly(b: Book, session: string, inbox: int, trigger: Trigger, now: Instant, limits: Limits,
                       r: Result<Capacity>, b': Book)
    requires ReserveSpec(b, session, inbox, trigger, now, limits, r, b')
    ensures r == Err <==>
              || session !in b.active || inbox !in b.items || b.items[inbox].session != session || !b.items[inbox].open
              || ((exists row :: row in b.replies && row.inbox == inbox && row.phase == Sent)
                  && forall row :: row in b.replies && row.inbox == inbox ==> row.phase != Phase.Reserved)
    ensures r == Err ==> b' == b
    ensures r.Ok? && (exists row :: row in b.replies && row.inbox == inbox && row.phase == Phase.Reserved) ==>
              r.value == Granted && b' == b
  {
    RowsOf(b.replies, inbox, Sent);
    RowsOf(b.replies, inbox, Phase.Reserved);
  }

  lemma RowsOf(rs: seq<Reply>, inbox: int, phase: Phase)
    ensures LiveFor(rs, inbox, phase) <==> exists row :: row in rs && row.inbox == inbox && row.phase == phase
  {
    if row: Reply :| row in rs && row.inbox == inbox && row.phase == phase {
      var i :| 0 <= i < |rs| && rs[i] == row;
    }
  }

  // ----- deferral is exact -----

  lemma EarliestUnique(rs: seq<Reply>, session: string, trigger: Trigger, limits: Limits, now: Instant,
                       u: Instant, u': Instant)
    requires Earliest(rs, session, trigger, limits, now, u) && Earliest(rs, session, trigger, limits, now, u')
    ensures u == u'
  {
  }

  /** `reserve` gets as far as counting: the thread is active, the item open and without a reply. */
  predicate Counts(b: Book, session: string, inbox: int) {
    session in b.active && Open(b, session, inbox)
    && !LiveFor(b.replies, inbox, Phase.Reserved) && !LiveFor(b.replies, inbox, Sent)
  }

  /** Two lists of rows count alike for the session, at every instant. */
  ghost predicate CountAlike(rs: seq<Reply>, rs': seq<Reply>, session: string) {
    forall t :: Count(rs', Recent(session, t)) == Count(rs, Recent(session, t))
                && Count(rs', RecentPeer(session, t)) == Count(rs, RecentPeer(session, t))
  }

  /** When the session's rows count alike, the deferral stands: a retry before its instant is deferred to
      the same one, and one at it or later is granted. */
  lemma AlikeStands(b: Book, session: string, inbox: int, trigger: Trigger, now: Instant, limits: Limits, u: Instant,
                    b': Book, retry: Instant, r: Result<Capacity>, b'': Book)
    requires Earliest(b.replies, session, trigger, limits, now, u) && now <= retry
    requires CountAlike(b.replies, b'.replies, session) && Counts(b', session, inbox)
    requires ReserveSpec(b', session, inbox, trigger, retry, limits, r, b'')
    ensures r == if retry < u then Ok(Deferred(u)) else Ok(Granted)
  {
    assert forall t ::
        HasRoom(b'.replies, session, trigger, limits, t) <==> HasRoom(b.replies, session, trigger, limits, t);
    if retry < u {
      assert Earliest(b'.replies, session, trigger, limits, retry, u);
      EarliestUnique(b'.replies, session, trigger, limits, retry, u, r.value.until);
    } else {
      RoomStays(b.replies, session, trigger, limits, u, retry);
    }
  }

  // ----- the bound on every window of the whole history -----

  /** Live non-owner replies of the session reserved in the window `(t - 3600 s, t]`. */
  function MadeIn(session: string, t: Instant): Reply -> bool {
    (r: Reply) => Counted(r, session) && t - HOUR < r.made <= t && r.trigger != Owner
  }

  function PeerMadeIn(session: string, t: Instant): Reply -> bool {
    (r: Reply) => Counted(r, session) && t - HOUR < r.made <= t && r.trigger == Peer
  }

  ghost predicate WithinLimits(rs: seq<Reply>, session: string, t: Instant, limits: Limits) {
    Count(rs, MadeIn(session, t)) <= limits.replies && Count(rs, PeerMadeIn(session, t)) <= limits.echoes
  }

  ghost predicate OnceEach(rs: seq<Reply>) {
    forall i, j :: 0 <= i < j < |rs| && rs[i].phase != Released && rs[j].phase != Released ==>
      rs[i].inbox != rs[j].inbox
  }

  ghost predicate Inv(b: Book, now: Instant, limits: Limits) {
    && (forall r :: r in b.replies ==> r.made <= r.at <= now && (r.phase == Phase.Reserved ==> r.at == r.made))
    && OnceEach(b.replies)
    && forall session, t :: WithinLimits(b.replies, session, t, limits)
  }

  datatype Event =
    | Reserve(session: string, inbox: int, trigger: Trigger, outcome: Result<Capacity>)
    | Deliver(row: nat)
    | Release(row: nat)
    | Elsewhere

  /** One committed transaction at `now`. Delivery moves the row's `at`; a release frees it;
      everything else may change inbox items and thread activity in any way. */
  ghost predicate Next(b: Book, e: Event, now: Instant, limits: Limits, b': Book) {
    match e
    case Reserve(session, inbox, trigger, outcome) =>
      ReserveSpec(b, session, inbox, trigger, now, limits, outcome, b')
    case Deliver(row) =>
      && row < |b.replies| && b.replies[row].phase == Phase.Reserved
      && b' == b.(replies := b.replies[row := b.replies[row].(at := now, phase := Sent)])
    case Release(row) =>
      && row < |b.replies| && b.replies[row].phase == Phase.Reserved
      && b' == b.(replies := b.replies[row := b.replies[row].(phase := Released)])
    case Elsewhere => b'.replies == b.replies
  }

  /** A run: books between events, each event at its own instant, the clock never going back. */
  ghost predicate Run(books: seq<Book>, events: seq<Event>, times: seq<Instant>, limits: Limits) {
    && |books| == |events| + 1 && |times| == |events|
    && (forall i, j :: 0 <= i < j < |times| ==> times[i] <= times[j])
    && forall i :: 0 <= i < |events| ==> Next(books[i], events[i], times[i], limits, books[i + 1])
  }

  lemma GrantKeepsWindow(b: Book, session: string, inbox: int, trigger: Trigger, now: Instant, limits: Limits,
                         other: string, t: Instant)
    requires Inv(b, now, limits) && HasRoom(b.replies, session, trigger, limits, now)
    ensures WithinLimits(b.replies + [Reply(session, inbox, trigger, now, now, Phase.Reserved)], other, t, limits)
  {
    var rs := b.replies;
    var row := Reply(session, inbox, trigger, now, now, Phase.Reserved);
    assert (rs + [row])[..|rs|] == rs;
    assert WithinLimits(rs, other, t, limits);
    if other == session && t - HOUR < now <= t && trigger != Owner {
      CountImplies(rs, MadeIn(session, t), Recent(session, now));
      if trigger == Peer {
        CountImplies(rs, PeerMadeIn(session, t), RecentPeer(session, now));
      }
    }
  }

  lemma {:induction false} ChangedRow(rs: seq<Reply>, row: nat, r: Reply, p: Reply -> bool)
    requires row < |rs| && (p(r) ==> p(rs[row]))
    ensures Count(rs[row := r], p) <= Count(rs, p)
  {
    var n := |rs| - 1;
    if row < n {
      assert rs[row := r][..n] == rs[..n][row := r];
      ChangedRow(rs[..n], row, r, p);
    } else {
      assert rs[row := r][..n] == rs[..n];
    }
  }

  lemma StepKeepsBound(b: Book, e: Event, last: Instant, now: Instant, limits: Limits, b': Book)
    requires limits.Valid() && last <= now && Inv(b, last, limits) && Next(b, e, now, limits, b')
    ensures Inv(b', now, limits)
  {
    match e {
      case Reserve(session, inbox, trigger, outcome) =>
        if b'.replies != b.replies {
          forall other, t ensures WithinLimits(b'.replies, other, t, limits) {
            GrantKeepsWindow(b, session, inbox, trigger, now, limits, other, t);
          }
        }
      case Deliver(row) =>
        RowChangeKeepsBound(b, row, b.replies[row].(at := now, phase := Sent), limits, b'.replies);
      case Release(row) =>
        RowChangeKeepsBound(b, row, b.replies[row].(phase := Released), limits, b'.replies);
      case Elsewhere =>
    }
  }

  lemma RowChangeKeepsBound(b: Book, row: nat, r: Reply, limits: Limits, rs: seq<Reply>)
    requires row < |b.replies| && (forall session, t :: WithinLimits(b.replies, session, t, limits))
    requires b.replies[row].phase != Released
    requires r.session == b.replies[row].session && r.made == b.replies[row].made && r.trigger == b.replies[row].trigger
    requires rs == b.replies[row := r]
    ensures forall session, t :: WithinLimits(rs, session, t, limits)
  {
    forall session, t ensures WithinLimits(rs, session, t, limits) {
      assert WithinLimits(b.replies, session, t, limits);
      ChangedRow(b.replies, row, r, MadeIn(session, t));
      ChangedRow(b.replies, row, r, PeerMadeIn(session, t));
    }
  }

  /** Rolling-hour bound: in every run from an empty book, every hour-long window of every
      session holds at most the configured number of live non-owner and peer reservations,
      and no inbox item holds two live rows. */
  lemma {:induction false} RollingHourBound(books: seq<Book>, events: seq<Event>, times: seq<Instant>, limits: Limits,
                                            session: string, t: Instant)
    requires limits.Valid() && Run(books, events, times, limits) && books[0].replies == []
    ensures WithinLimits(books[|books| - 1].replies, session, t, limits)
    ensures OnceEach(books[|books| - 1].replies)
  {
    if |events| == 0 {
    } else {
      RunKeepsInv(books, events, times, limits);
    }
  }

  lemma {:induction false} RunKeepsInv(books: seq<Book>, events: seq<Event>, times: seq<Instant>, limits: Limits)
    requires limits.Valid() && Run(books, events, times, limits) && books[0].replies == [] && |events| > 0
    ensures Inv(books[|books| - 1], times[|times| - 1], limits)
  {
    var n := |events| - 1;
    if n == 0 {
      assert Inv(books[0], times[0], limits);
      StepKeepsBound(books[0], events[0], times[0], times[0], limits, books[1]);
    } else {
      RunKeepsInv(books[..n + 1], events[..n], times[..n], limits);
      StepKeepsBound(books[n], events[n], times[n - 1], times[n], limits, books[n + 1]);
    }
  }

  // ----- the same bound over the instants the store counts by -----

  /** Live non-owner replies of the session counted in the window `(t - 3600 s, t]`. */
  function AtIn(session: string, t: Instant): Reply -> bool {
    (r: Reply) => Counted(r, session) && t - HOUR < r.at <= t && r.trigger != Owner
  }

  function PeerAtIn(session: string, t: Instant): Reply -> bool {
    (r: Reply) => Counted(r, session) && t - HOUR < r.at <= t && r.trigger == Peer
  }

  ghost predicate CountedWithin(rs: seq<Reply>, session: string, t: Instant, limits: Limits) {
    Count(rs, AtIn(session, t)) <= limits.replies && Count(rs, PeerAtIn(session, t)) <= limits.echoes
  }

  ghost predicate CountedBound(rs: seq<Reply>, limits: Limits) {
    forall session, t :: CountedWithin(rs, session, t, limits)
  }

  /** A delivery that comes an hour or more after the reply was reserved, when the other replies of the
      last hour already fill a limit that counts it. */
  predicate Overfills(rs: seq<Reply>, row: nat, now: Instant, limits: Limits)
    requires row < |rs|
  {
    var r := rs[row];
    && r.trigger != Owner && r.made <= now - HOUR
    && (|| Count(rs, AtIn(r.session, now)) >= limits.replies
        || (r.trigger == Peer && Count(rs, PeerAtIn(r.session, now)) >= limits.echoes))
  }

  lemma {:induction false} CountUpdated(rs: seq<Reply>, row: nat, r: Reply, p: Reply -> bool)
    requires row < |rs|
    ensures Count(rs[row := r], p) == Count(rs, p) - (if p(rs[row]) then 1 else 0) + (if p(r) then 1 else 0)
  {
    var n := |rs| - 1;
    if row < n {
      assert rs[row := r][..n] == rs[..n][row := r];
      CountUpdated(rs[..n], row, r, p);
    } else {
      assert rs[row := r][..n] == rs[..n];
    }
  }

  predicate Deliverable(rs: seq<Reply>, row: nat, now: Instant) {
    && row < |rs| && rs[row].phase == Phase.Reserved && rs[row].at == rs[row].made
    && forall r :: r in rs ==> r.at <= now
  }

  function Delivered(rs: seq<Reply>, row: nat, now: Instant): seq<Reply>
    requires row < |rs|
  {
    rs[row := rs[row].(at := now, phase := Sent)]
  }

  /** A window that does not reach the delivery gains nothing by it; one that does holds at most the
      replies of the last hour and the delivered one. */
  lemma DeliveredWindow(rs: seq<Reply>, row: nat, now: Instant, limits: Limits, session: string, t: Instant)
    requires Deliverable(rs, row, now) && CountedBound(rs, limits) && !Overfills(rs, row, now, limits)
    ensures CountedWithin(Delivered(rs, row, now), session, t, limits)
  {
    var r := rs[row];
    var r' := r.(at := now, phase := Sent);
    assert CountedWithin(rs, session, t, limits) && CountedWithin(rs, session, now, limits);
    CountUpdated(rs, row, r', AtIn(session, t));
    CountUpdated(rs, row, r', PeerAtIn(session, t));
    if t - HOUR < now <= t {
      CountUpdated(rs, row, r', AtIn(session, now));
      CountUpdated(rs, row, r', PeerAtIn(session, now));
      var rs' := Delivered(rs, row, now);
      forall q | q in rs' ensures q.at <= now {
      }
      CountImplies(rs', AtIn(session, t), AtIn(session, now));
      CountImplies(rs', PeerAtIn(session, t), PeerAtIn(session, now));
    }
  }

  /** When exactly a delivery breaks the bound over the counted instants. */
  lemma DeliveryBreaksExactly(rs: seq<Reply>, row: nat, now: Instant, limits: Limits)
    requires Deliverable(rs, row, now) && CountedBound(rs, limits)
    ensures CountedBound(Delivered(rs, row, now), limits) <==> !Overfills(rs, row, now, limits)
  {
    if Overfills(rs, row, now, limits) {
      var r := rs[row];
      var r' := r.(at := now, phase := Sent);
      CountUpdated(rs, row, r', AtIn(r.session, now));
      CountUpdated(rs, row, r', PeerAtIn(r.session, now));
      assert !CountedWithin(Delivered(rs, row, now), r.session, now, limits);
    } else {
      forall session, t ensures CountedWithin(Delivered(rs, row, now), session, t, limits) {
        DeliveredWindow(rs, row, now, limits, session, t);
      }
    }
  }

  lemma GrantKeepsCounted(rs: seq<Reply>, session: string, inbox: int, trigger: Trigger, now: Instant, limits: Limits,
                          other: string, t: Instant)
    requires CountedBound(rs, limits) && HasRoom(rs, session, trigger, limits, now)
    ensures CountedWithin(rs + [Reply(session, inbox, trigger, now, now, Phase.Reserved)], other, t, limits)
  {
    var row := Reply(session, inbox, trigger, now, now, Phase.Reserved);
    assert (rs + [row])[..|rs|] == rs;
    assert CountedWithin(rs, other, t, limits);
    if other == session && t - HOUR < now <= t && trigger != Owner {
      CountImplies(rs, AtIn(session, t), Recent(session, now));
      if trigger == Peer {
        CountImplies(rs, PeerAtIn(session, t), RecentPeer(session, now));
      }
    }
  }

  predicate LateAndFull(b: Book, e: Event, now: Instant, limits: Limits) {
    e.Deliver? && e.row < |b.replies| && Overfills(b.replies, e.row, now, limits)
  }

  /** Every step keeps the bound over the counted instants, except exactly such a delivery. */
  lemma StepKeepsCounted(b: Book, e: Event, last: Instant, now: Instant, limits: Limits, b': Book)
    requires limits.Valid() && last <= now && Inv(b, last, limits) && Next(b, e, now, limits, b')
    requires CountedBound(b.replies, limits)
    ensures CountedBound(b'.replies, limits) <==> !LateAndFull(b, e, now, limits)
  {
    match e {
      case Reserve(session, inbox, trigger, outcome) =>
        if b'.replies != b.replies {
          forall other, t ensures CountedWithin(b'.replies, other, t, limits) {
            GrantKeepsCounted(b.replies, session, inbox, trigger, now, limits, other, t);
          }
        }
      case Deliver(row) =>
        assert b.replies[row] in b.replies;
        DeliveryBreaksExactly(b.replies, row, now, limits);
      case Release(row) =>
        forall session, t ensures CountedWithin(b'.replies, session, t, limits) {
          assert CountedWithin(b.replies, session, t, limits);
          ChangedRow(b.replies, row, b.replies[row].(phase := Released), AtIn(session, t));
          ChangedRow(b.replies, row, b.replies[row].(phase := Released), PeerAtIn(session, t));
        }
      case Elsewhere =>
    }
  }

  ghost predicate AlwaysBounded(books: seq<Book>, limits: Limits) {
    forall i :: 0 <= i < |books| ==> CountedBound(books[i].replies, limits)
  }

  ghost predicate NeverLateAndFull(books: seq<Book>, events: seq<Event>, times: seq<Instant>, limits: Limits)
    requires |books| > |events| == |times|
  {
    forall i :: 0 <= i < |events| ==> !LateAndFull(books[i], events[i], times[i], limits)
  }

  /** Over every run from an empty book: the instants the store counts by stay within the limits in every
      window, all along, if and only if no delivery came an hour or more after its reservation while the
      other replies of that hour filled a limit. */
  lemma {:induction false} CountedBoundExactly(books: seq<Book>, events: seq<Event>, times: seq<Instant>,
                                               limits: Limits)
    requires limits.Valid() && Run(books, events, times, limits) && books[0].replies == []
    ensures AlwaysBounded(books, limits) <==> NeverLateAndFull(books, events, times, limits)
  {
    var n := |events| - 1;
    if n >= 0 {
      var bs, es, ts := books[..n + 1], events[..n], times[..n];
      CountedBoundExactly(bs, es, ts, limits);
      if n > 0 {
        RunKeepsInv(bs, es, ts, limits);
      }
      var last := if n > 0 then times[n - 1] else times[n];
      assert Inv(books[n], last, limits);
      if CountedBound(books[n].replies, limits) {
        StepKeepsCounted(books[n], events[n], last, times[n], limits, books[n + 1]);
      }
      OneMoreStep(books, events, times, limits);
    }
  }

  /** Both sides, one step further. */
  lemma OneMoreStep(books: seq<Book>, events: seq<Event>, times: seq<Instant>, limits: Limits)
    requires |books| == |events| + 1 == |times| + 1 && events != []
    ensures var n := |events| - 1;
            && (AlwaysBounded(books, limits)
                <==> AlwaysBounded(books[..n + 1], limits) && CountedBound(books[n + 1].replies, limits))
            && (AlwaysBounded(books, limits) ==> CountedBound(books[n].replies, limits))
            && (AlwaysBounded(books[..n + 1], limits) ==> CountedBound(books[n].replies, limits))
            && (NeverLateAndFull(books, events, times, limits) <==>
                  NeverLateAndFull(books[..n + 1], events[..n], times[..n], limits)
                  && !LateAndFull(books[n], events[n], times[n], limits))
  {
    var n := |events| - 1;
    var bs, es, ts := books[..n + 1], events[..n], times[..n];
    if AlwaysBounded(books, limits) {
      forall i | 0 <= i < |bs| ensures CountedBound(bs[i].replies, limits) {
        assert CountedBound(books[i].replies, limits);
      }
    }
    if AlwaysBounded(bs, limits) {
      assert CountedBound(bs[n].replies, limits);
      if CountedBound(books[n + 1].replies, limits) {
        forall i | 0 <= i < |books| ensures CountedBound(books[i].replies, limits) {
          assert i < |bs| ==> CountedBound(bs[i].replies, limits);
        }
      }
    }
    if NeverLateAndFull(books, events, times, limits) {
      forall i | 0 <= i < |es| ensures !LateAndFull(bs[i], es[i], ts[i], limits) {
        assert !LateAndFull(books[i], events[i], times[i], limits);
      }
    }
    if NeverLateAndFull(bs, es, ts, limits) && !LateAndFull(books[n], events[n], times[n], limits) {
      forall i | 0 <= i < |events| ensures !LateAndFull(books[i], events[i], times[i], limits) {
        assert i < n ==> !LateAndFull(bs[i], es[i], ts[i], limits);
      }
    }
  }

  /** Deliveries within the hour keep the counted instants within the limits. */
  lemma PromptDeliveriesKeepBound(books: seq<Book>, events: seq<Event>, times: seq<Instant>, limits: Limits,
                                  session: string, t: Instant)
    requires limits.Valid() && Run(books, events, times, limits) && books[0].replies == []
    requires forall i :: 0 <= i < |events| && events[i].Deliver? && events[i].row < |books[i].replies| ==>
               times[i] < books[i].replies[events[i].row].made + HOUR
    ensures CountedWithin(books[|books| - 1].replies, session, t, limits)
  {
    CountedBoundExactly(books, events, times, limits);
    assert AlwaysBounded(books, limits);
  }

  // ----- a deferral over everything that may happen before the retry -----

  /** A step that leaves the session's rows alone: other sessions' reservations and deliveries, a reservation
      that grants nothing, and anything elsewhere. */
  ghost predicate Bystands(b: Book, e: Event, b': Book, session: string) {
    match e
    case Reserve(other, _, _, _) => other != session || b'.replies == b.replies
    case Deliver(row) => row < |b.replies| ==> b.replies[row].session != session
    case Release(row) => row < |b.replies| ==> b.replies[row].session != session
    case Elsewhere => true
  }

  lemma BystanderCountsAlike(b: Book, e: Event, now: Instant, limits: Limits, b': Book, session: string)
    requires Next(b, e, now, limits, b') && Bystands(b, e, b', session)
    ensures CountAlike(b.replies, b'.replies, session)
  {
    forall t
      ensures Count(b'.replies, Recent(session, t)) == Count(b.replies, Recent(session, t))
              && Count(b'.replies, RecentPeer(session, t)) == Count(b.replies, RecentPeer(session, t))
    {
      if b'.replies != b.replies {
        match e {
          case Reserve(_, _, _, _) =>
            assert b'.replies[..|b.replies|] == b.replies;
          case Deliver(row) =>
            CountUpdated(b.replies, row, b'.replies[row], Recent(session, t));
            CountUpdated(b.replies, row, b'.replies[row], RecentPeer(session, t));
          case Release(row) =>
            CountUpdated(b.replies, row, b'.replies[row], Recent(session, t));
            CountUpdated(b.replies, row, b'.replies[row], RecentPeer(session, t));
          case Elsewhere =>
        }
      }
    }
  }

  lemma {:induction false} BystandersCountAlike(books: seq<Book>, events: seq<Event>, times: seq<Instant>,
                                                limits: Limits, session: string)
    requires Run(books, events, times, limits)
    requires forall i :: 0 <= i < |events| ==> Bystands(books[i], events[i], books[i + 1], session)
    ensures CountAlike(books[0].replies, books[|events|].replies, session)
  {
    var n := |events| - 1;
    if n >= 0 {
      BystandersCountAlike(books[..n + 1], events[..n], times[..n], limits, session);
      BystanderCountsAlike(books[n], events[n], times[n], limits, books[n + 1], session);
    }
  }

  /** A deferral to `u` is exact whatever happens that leaves the session's rows alone: a retry before `u` is
      deferred to `u` again, and one at `u` or later is granted. */
  lemma DeferralExact(b: Book, session: string, inbox: int, trigger: Trigger, now: Instant, limits: Limits, u: Instant,
                      books: seq<Book>, events: seq<Event>, times: seq<Instant>,
                      retry: Instant, r: Result<Capacity>, b': Book)
    requires Run(books, events, times, limits) && now <= retry
    requires ReserveSpec(b, session, inbox, trigger, now, limits, Ok(Deferred(u)), books[0])
    requires forall i :: 0 <= i < |events| ==> Bystands(books[i], events[i], books[i + 1], session)
    requires Counts(books[|events|], session, inbox)
    requires ReserveSpec(books[|events|], session, inbox, trigger, retry, limits, r, b')
    ensures now < u && r == if retry < u then Ok(Deferred(u)) else Ok(Granted)
  {
    BystandersCountAlike(books, events, times, limits, session);
    AlikeStands(b, session, inbox, trigger, now, limits, u, books[|events|], retry, r, b');
  }

  // ----- ... and with the session's own deliveries and releases -----

  /** What deliveries and releases make of a row. */
  predicate Became(r: Reply, r': Reply) {
    && r'.session == r.session && r'.trigger == r.trigger && r'.made == r.made
    && (|| r' == r
        || (r.phase == Phase.Reserved && r'.phase == Sent && r'.at >= r.at)
        || (r.phase == Phase.Reserved && r'.phase == Released && r'.at == r.at))
  }

  /** The rows changed by deliveries and releases, and other sessions' rows added. */
  ghost predicate Progress(rs: seq<Reply>, rs': seq<Reply>, session: string) {
    && |rs| <= |rs'|
    && (forall i :: 0 <= i < |rs| ==> Became(rs[i], rs'[i]))
    && forall i :: |rs| <= i < |rs'| ==> rs'[i].session != session
  }

  /** Nothing is granted in the session. */
  ghost predicate NothingGranted(b: Book, e: Event, b': Book, session: string) {
    e.Reserve? && e.session == session ==> b'.replies == b.replies
  }

  lemma {:induction false} RunProgresses(books: seq<Book>, events: seq<Event>, times: seq<Instant>, limits: Limits,
                                         session: string, now: Instant)
    requires Run(books, events, times, limits)
    requires forall i :: 0 <= i < |times| ==> now <= times[i]
    requires forall r :: r in books[0].replies ==> r.at <= now
    requires forall i :: 0 <= i < |events| ==> NothingGranted(books[i], events[i], books[i + 1], session)
    ensures Progress(books[0].replies, books[|events|].replies, session)
  {
    var n := |events| - 1;
    if n >= 0 {
      RunProgresses(books[..n + 1], events[..n], times[..n], limits, session, now);
      StepProgresses(books[0].replies, books[n], events[n], times[n], limits, books[n + 1], session);
    }
  }

  lemma StepProgresses(rs: seq<Reply>, b: Book, e: Event, now: Instant, limits: Limits, b': Book, session: string)
    requires Progress(rs, b.replies, session) && Next(b, e, now, limits, b') && NothingGranted(b, e, b', session)
    requires forall r :: r in rs ==> r.at <= now
    ensures Progress(rs, b'.replies, session)
  {
    forall i | 0 <= i < |rs| ensures Became(rs[i], b'.replies[i]) {
      assert rs[i] in rs && Became(rs[i], b.replies[i]);
    }
  }

  /** How many rows of a list, with what became of them, are such. */
  function Pairs(rs: seq<Reply>, rs': seq<Reply>, q: (Reply, Reply) -> bool): (n: nat)
    requires |rs| <= |rs'|
  {
    if rs == [] then 0 else
      var i := |rs| - 1;
      Pairs(rs[..i], rs'[..i], q) + (if q(rs[i], rs'[i]) then 1 else 0)
  }

  /** Delivered meanwhile though reserved an hour or more before `u`: counted again at `u`. */
  function Late(session: string, u: Instant, peers: bool): (Reply, Reply) -> bool {
    (r: Reply, r': Reply) =>
      r.session == session && (peers ==> r.trigger == Peer)
      && r.phase == Phase.Reserved && r.at <= u - HOUR && r'.phase == Sent && r'.at > u - HOUR
  }

  /** Released meanwhile, and counted at `u` if it had not been. */
  function Freed(session: string, u: Instant, peers: bool): (Reply, Reply) -> bool {
    (r: Reply, r': Reply) =>
      r.session == session && (peers ==> r.trigger == Peer)
      && r.phase == Phase.Reserved && r.at > u - HOUR && r'.phase == Released
  }

  function RecentOf(session: string, u: Instant, peers: bool): Reply -> bool {
    if peers then RecentPeer(session, u) else Recent(session, u)
  }

  lemma {:induction false} ProgressCounts(rs: seq<Reply>, rs': seq<Reply>, session: string, u: Instant, peers: bool)
    requires Progress(rs, rs', session)
    ensures Count(rs', RecentOf(session, u, peers)) ==
            Count(rs, RecentOf(session, u, peers))
                + Pairs(rs, rs', Late(session, u, peers)) - Pairs(rs, rs', Freed(session, u, peers))
    decreases |rs'|
  {
    if |rs'| > |rs| {
      assert rs'[..|rs'| - 1][..|rs|] == rs'[..|rs|];
      ProgressCounts(rs, rs'[..|rs'| - 1], session, u, peers);
      PairsOfFront(rs, rs', Late(session, u, peers));
      PairsOfFront(rs, rs', Freed(session, u, peers));
    } else if rs != [] {
      var n := |rs| - 1;
      ProgressCounts(rs[..n], rs'[..n], session, u, peers);
      assert Became(rs[n], rs'[n]);
    }
  }

  lemma {:induction false} PairsOfFront(rs: seq<Reply>, rs': seq<Reply>, q: (Reply, Reply) -> bool)
    requires |rs| < |rs'|
    ensures Pairs(rs, rs'[..|rs'| - 1], q) == Pairs(rs, rs', q)
  {
    if rs != [] {
      var i := |rs| - 1;
      assert rs'[..|rs'| - 1][..i] == rs'[..i];
    }
  }

  /** Below a limit at `u`, by the rows as they were at the deferral and what became of them. */
  ghost predicate StaysBelow(rs: seq<Reply>, rs': seq<Reply>, session: string, u: Instant, peers: bool, limit: nat)
    requires |rs| <= |rs'|
  {
    Count(rs, RecentOf(session, u, peers)) + Pairs(rs, rs', Late(session, u, peers))
    < limit + Pairs(rs, rs', Freed(session, u, peers))
  }

  /** Whatever happens short of a grant in the session: a retry at the instant `u` of a deferral is granted if
      and only if the rows then counted at `u`, with those reserved before that hour and delivered since,
      less those released, stay below each limit that counts them. */
  lemma RetryAtDeadline(b: Book, session: string, inbox: int, trigger: Trigger, now: Instant, limits: Limits,
                        u: Instant,
                        books: seq<Book>, events: seq<Event>, times: seq<Instant>, r: Result<Capacity>, b': Book)
    requires Inv(b, now, limits) && Run(books, events, times, limits)
    requires ReserveSpec(b, session, inbox, trigger, now, limits, Ok(Deferred(u)), books[0])
    requires forall i :: 0 <= i < |times| ==> now <= times[i]
    requires forall i :: 0 <= i < |events| ==> NothingGranted(books[i], events[i], books[i + 1], session)
    requires Counts(books[|events|], session, inbox)
    requires ReserveSpec(books[|events|], session, inbox, trigger, u, limits, r, b')
    ensures Progress(b.replies, books[|events|].replies, session)
    ensures r == Ok(Granted) <==>
            && StaysBelow(b.replies, books[|events|].replies, session, u, false, limits.replies)
            && (trigger == Peer ==> StaysBelow(b.replies, books[|events|].replies, session, u, true, limits.echoes))
  {
    RunProgresses(books, events, times, limits, session, now);
    ProgressCounts(b.replies, books[|events|].replies, session, u, false);
    ProgressCounts(b.replies, books[|events|].replies, session, u, true);
    assert !HasRoom(b.replies, session, trigger, limits, now);
  }

  /** A delivery in the session is of a reply reserved less than an hour before `u`. */
  predicate Prompt(b: Book, e: Event, session: string, u: Instant) {
    e.Deliver? && e.row < |b.replies| && b.replies[e.row].session == session ==> b.replies[e.row].made > u - HOUR
  }

  /** So releases, and deliveries of replies reserved less than an hour before, never undo a deferral. */
  lemma PromptDeliveriesGrant(b: Book, session: string, inbox: int, trigger: Trigger, now: Instant, limits: Limits,
                              u: Instant, books: seq<Book>, events: seq<Event>, times: seq<Instant>,
                              r: Result<Capacity>, b': Book)
    requires Inv(b, now, limits) && Run(books, events, times, limits)
    requires ReserveSpec(b, session, inbox, trigger, now, limits, Ok(Deferred(u)), books[0])
    requires forall i :: 0 <= i < |times| ==> now <= times[i]
    requires forall i :: 0 <= i < |events| ==>
               NothingGranted(books[i], events[i], books[i + 1], session) && Prompt(books[i], events[i], session, u)
    requires Counts(books[|events|], session, inbox)
    requires ReserveSpec(books[|events|], session, inbox, trigger, u, limits, r, b')
    ensures r == Ok(Granted)
  {
    RetryAtDeadline(b, session, inbox, trigger, now, limits, u, books, events, times, r, b');
    var rs, rs' := b.replies, books[|events|].replies;
    NotSent(books, events, times, limits, session, now, u);
    NoneLate(rs, rs', session, u, false);
    NoneLate(rs, rs', session, u, true);
    assert HasRoom(rs, session, trigger, limits, u);
  }

  predicate StillDue(r: Reply, session: string, u: Instant) {
    r.session == session && r.at <= u - HOUR && r.phase == Phase.Reserved
  }

  /** The session's replies reserved an hour or more before `u` are not delivered. */
  ghost predicate Unsent(rs: seq<Reply>, rs': seq<Reply>, session: string, u: Instant) {
    forall i :: 0 <= i < |rs| && i < |rs'| && StillDue(rs[i], session, u) ==> rs'[i].phase != Sent
  }

  lemma {:induction false} NotSent(books: seq<Book>, events: seq<Event>, times: seq<Instant>, limits: Limits,
                                   session: string, now: Instant, u: Instant)
    requires Run(books, events, times, limits)
    requires forall i :: 0 <= i < |times| ==> now <= times[i]
    requires forall r :: r in books[0].replies ==> r.at <= now && (r.phase == Phase.Reserved ==> r.at == r.made)
    requires forall i :: 0 <= i < |events| ==>
               NothingGranted(books[i], events[i], books[i + 1], session) && Prompt(books[i], events[i], session, u)
    ensures Unsent(books[0].replies, books[|events|].replies, session, u)
  {
    var n := |events| - 1;
    if n >= 0 {
      NotSent(books[..n + 1], events[..n], times[..n], limits, session, now, u);
      RunProgresses(books[..n + 1], events[..n], times[..n], limits, session, now);
      var rs, rs', rs'' := books[0].replies, books[n].replies, books[n + 1].replies;
      assert Next(books[n], events[n], times[n], limits, books[n + 1]);
      forall i | 0 <= i < |rs| && StillDue(rs[i], session, u) ensures rs''[i].phase != Sent {
        assert rs[i] in rs && Became(rs[i], rs'[i]) && rs'[i].phase != Sent;
        assert Prompt(books[n], events[n], session, u);
      }
    }
  }

  lemma {:induction false} NoneLate(rs: seq<Reply>, rs': seq<Reply>, session: string, u: Instant, peers: bool)
    requires |rs| <= |rs'| && Unsent(rs, rs', session, u)
    ensures Pairs(rs, rs', Late(session, u, peers)) == 0
  {
    if rs != [] {
      NoneLate(rs[..|rs| - 1], rs'[..|rs| - 1], session, u, peers);
    }
  }

  predicate Unanswered(b: Book, session: string, inbox: int) {
    session in b.active && Open(b, session, inbox) && forall r :: r in b.replies ==> r.inbox != inbox
  }

  lemma GrantStep(b: Book, session: string, inbox: int, now: Instant, limits: Limits)
    requires Unanswered(b, session, inbox) && HasRoom(b.replies, session, Human, limits, now)
    ensures Next(b, Reserve(session, inbox, Human, Ok(Granted)), now, limits,
                 b.(replies := b.replies + [Reply(session, inbox, Human, now, now, Phase.Reserved)]))
  {
  }

  lemma DeferStep(b: Book, session: string, inbox: int, now: Instant, limits: Limits, u: Instant)
    requires Unanswered(b, session, inbox) && now < u
    requires forall t :: HasRoom(b.replies, session, Human, limits, t) <==> u <= t
    ensures Next(b, Reserve(session, inbox, Human, Ok(Deferred(u))), now, limits,
                 b.(items := b.items[inbox := b.items[inbox].(due := u)]))
  {
  }

  lemma DeliverStep(b: Book, row: nat, now: Instant, limits: Limits)
    requires row < |b.replies| && b.replies[row].phase == Phase.Reserved
    ensures Next(b, Deliver(row), now, limits,
                 b.(replies := b.replies[row := b.replies[row].(at := now, phase := Sent)]))
  {
  }

  lemma Extend(books: seq<Book>, events: seq<Event>, times: seq<Instant>, limits: Limits, e: Event, now: Instant,
               b: Book)
    requires Run(books, events, times, limits) && Next(books[|events|], e, now, limits, b)
    requires forall i :: 0 <= i < |times| ==> times[i] <= now
    ensures Run(books + [b], events + [e], times + [now], limits)
  {
  }

  /** A thread with two open inbox items. */
  function TwoItems(session: string): Book {
    Book({session}, map[1 := Item(session, true, 0), 2 := Item(session, true, 0)], [])
  }

  function Row(session: string, inbox: int, made: Instant): Reply {
    Reply(session, inbox, Human, made, made, Phase.Reserved)
  }

  function SentAt(r: Reply, at: Instant): Reply {
    r.(at := at, phase := Sent)
  }

  lemma FirstGranted(session: string)
    ensures Next(TwoItems(session), Reserve(session, 1, Human, Ok(Granted)), 0, Limits(1, 1),
                 TwoItems(session).(replies := [Row(session, 1, 0)]))
  {
    GrantStep(TwoItems(session), session, 1, 0, Limits(1, 1));
    assert [] + [Row(session, 1, 0)] == [Row(session, 1, 0)];
  }

  lemma SecondDeferred(session: string, first: Reply, due: Instant, now: Instant)
    requires Counted(first, session) && first.inbox == 1 && now < first.at + HOUR
    ensures var b := Book({session}, map[1 := Item(session, true, 0), 2 := Item(session, true, due)], [first]);
            Next(b, Reserve(session, 2, Human, Ok(Deferred(first.at + HOUR))), now, Limits(1, 1),
                 b.(items := b.items[2 := Item(session, true, first.at + HOUR)]))
  {
    OneRow(first, session, Limits(1, 1));
    var b := Book({session}, map[1 := Item(session, true, 0), 2 := Item(session, true, due)], [first]);
    DeferStep(b, session, 2, now, Limits(1, 1), first.at + HOUR);
  }

  /** A delivery can put a deferral off: with limits of one, the second reply is deferred to the hour's end,
      the first is delivered, and the retry at the hour's end is deferred again, to an hour after the delivery. */
  lemma DeliveryDefersAgain(session: string) returns (books: seq<Book>, events: seq<Event>, times: seq<Instant>)
    ensures Run(books, events, times, Limits(1, 1)) && |books| == 5 && books[0] == TwoItems(session)
    ensures events == [Reserve(session, 1, Human, Ok(Granted)), Reserve(session, 2, Human, Ok(Deferred(HOUR))),
                       Deliver(0), Reserve(session, 2, Human, Ok(Deferred(HOUR + 2)))]
    ensures times == [0, 1, 2, HOUR]
  {
    var first := Row(session, 1, 0);
    var sent := SentAt(first, 2);
    var b1 := TwoItems(session).(replies := [first]);
    var b2 := b1.(items := b1.items[2 := Item(session, true, HOUR)]);
    var b3 := b2.(replies := [sent]);
    var b4 := b3.(items := b3.items[2 := Item(session, true, HOUR + 2)]);
    FirstGranted(session);
    SecondDeferred(session, first, 0, 1);
    DeliverStep(b2, 0, 2, Limits(1, 1));
    SecondDeferred(session, sent, HOUR, HOUR);
    assert b2.items == map[1 := Item(session, true, 0), 2 := Item(session, true, HOUR)];
    books, events, times := RunOfFour(Limits(1, 1), TwoItems(session), b1, b2, b3, b4,
      Reserve(session, 1, Human, Ok(Granted)), Reserve(session, 2, Human, Ok(Deferred(HOUR))),
      Deliver(0), Reserve(session, 2, Human, Ok(Deferred(HOUR + 2))), 0, 1, 2, HOUR);
  }

  lemma RunOfFour(limits: Limits, b0: Book, b1: Book, b2: Book, b3: Book, b4: Book, e0: Event, e1: Event, e2: Event,
                  e3: Event, t0: Instant, t1: Instant, t2: Instant, t3: Instant)
    returns (books: seq<Book>, events: seq<Event>, times: seq<Instant>)
    requires Next(b0, e0, t0, limits, b1) && Next(b1, e1, t1, limits, b2) && Next(b2, e2, t2, limits, b3)
    requires Next(b3, e3, t3, limits, b4) && t0 <= t1 <= t2 <= t3
    ensures books == [b0, b1, b2, b3, b4] && events == [e0, e1, e2, e3] && times == [t0, t1, t2, t3]
    ensures Run(books, events, times, limits)
  {
    Extend([b0], [], [], limits, e0, t0, b1);
    Extend([b0] + [b1], [] + [e0], [] + [t0], limits, e1, t1, b2);
    Extend([b0] + [b1] + [b2], [] + [e0] + [e1], [] + [t0] + [t1], limits, e2, t2, b3);
    Extend([b0] + [b1] + [b2] + [b3], [] + [e0] + [e1] + [e2], [] + [t0] + [t1] + [t2], limits, e3, t3, b4);
    books, events, times := [b0] + [b1] + [b2] + [b3] + [b4], [] + [e0] + [e1] + [e2] + [e3], [] + [t0] + [t1] + [t2]
        + [t3];
  }

  lemma TwoRows(a: Reply, c: Reply, p: Reply -> bool)
    requires p(a) && p(c)
    ensures Count([a, c], p) == 2
  {
    assert [a, c][..1] == [a] && [a][..0] == [];
  }

  lemma SecondGranted(session: string)
    ensures var b := TwoItems(session).(replies := [Row(session, 1, 0)]);
            Next(b, Reserve(session, 2, Human, Ok(Granted)), HOUR + 1, Limits(1, 1),
                 b.(replies := [Row(session, 1, 0), Row(session, 2, HOUR + 1)]))
  {
    var b := TwoItems(session).(replies := [Row(session, 1, 0)]);
    OneRow(Row(session, 1, 0), session, Limits(1, 1));
    GrantStep(b, session, 2, HOUR + 1, Limits(1, 1));
    assert [Row(session, 1, 0)] + [Row(session, 2, HOUR + 1)] == [Row(session, 1, 0), Row(session, 2, HOUR + 1)];
  }

  /** Late deliveries can overfill an hour: two replies, rightly reserved more than an hour apart, are
      delivered within a microsecond of each other. */
  lemma LateDeliveriesMayOverfill(session: string) returns (books: seq<Book>, events: seq<Event>, times: seq<Instant>)
    ensures Run(books, events, times, Limits(1, 1)) && books[0].replies == [] && |books| == 5
    ensures Count(books[4].replies, AtIn(session, HOUR + 3)) == 2
  {
    var a, c := Row(session, 1, 0), Row(session, 2, HOUR + 1);
    var a', c' := SentAt(a, HOUR + 2), SentAt(c, HOUR + 3);
    var b0 := TwoItems(session);
    FirstGranted(session);
    SecondGranted(session);
    DeliverStep(b0.(replies := [a, c]), 0, HOUR + 2, Limits(1, 1));
    assert [a, c][0 := a'] == [a', c];
    DeliverStep(b0.(replies := [a', c]), 1, HOUR + 3, Limits(1, 1));
    assert [a', c][1 := c'] == [a', c'];
    books, events, times := RunOfFour(Limits(1, 1), b0, b0.(replies := [a]), b0.(replies := [a, c]),
      b0.(replies := [a', c]), b0.(replies := [a', c']),
      Reserve(session, 1, Human, Ok(Granted)), Reserve(session, 2, Human, Ok(Granted)), Deliver(0), Deliver(1),
      0, HOUR + 1, HOUR + 2, HOUR + 3);
    TwoRows(a', c', AtIn(session, HOUR + 3));
  }

  /** One counted row leaves room under limits of one exactly an hour after it. */
  lemma OneRow(r: Reply, session: string, limits: Limits)
    requires Counted(r, session) && limits == Limits(1, 1)
    ensures forall t :: HasRoom([r], session, Human, limits, t) <==> r.at + HOUR <= t
  {
    assert [r][..0] == [];
  }
}
