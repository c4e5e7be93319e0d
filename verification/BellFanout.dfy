/** How rings reach the event-stream subscribers (Subscribe and broadcast in bell.go): one bounded
    channel each, fed under the lock and drained by its reader at any time. */
module BellFanout {
  import opened Text

  const CAPACITY := 8

  /** One subscriber's channel, and what has become of the events offered to it: queued, received by
      the reader, or dropped. An event is the number of the broadcast that sent it. */
  datatype Channel = Channel(queue: seq<nat>, received: seq<nat>, dropped: seq<nat>, closed: bool)

  /** subs is the set the bus sends to; a send on a closed channel, or closing one twice, panics. */
  datatype State = State(subs: set<nat>, channels: seq<Channel>, sent: nat, panicked: bool)

  /** The reader takes up to k events. */
  function Receive(c: Channel, k: nat): Channel {
    var n := Min(k, |c.queue|);
    c.(queue := c.queue[n..], received := c.received + c.queue[..n])
  }

  /** A non-blocking send: whether it went through. */
  function TrySend(c: Channel, ev: nat): (Channel, bool) {
    if |c.queue| < CAPACITY then (c.(queue := c.queue + [ev]), true) else (c, false)
  }

  /** A non-blocking receive by the broadcaster itself. */
  function DropOldest(c: Channel): Channel {
    if |c.queue| > 0 then c.(queue := c.queue[1..], dropped := c.dropped + [c.queue[0]]) else c
  }

  /** What the reader takes before each of the three selects. */
  datatype Drain = Drain(first: nat, second: nat, third: nat)

  function Offer(c: Channel, ev: nat, d: Drain): Channel {
    var (once, ok) := TrySend(Receive(c, d.first), ev);
    if ok then once
    else
      var (twice, ok2) := TrySend(Receive(DropOldest(Receive(once, d.second)), d.third), ev);
      if ok2 then twice else twice.(dropped := twice.dropped + [ev])
  }

  /** Nothing was dropped for the new event. */
  predicate Lossless(c: Channel, g: Channel, ev: nat) {
    g.dropped == c.dropped && g.received + g.queue == c.received + c.queue + [ev]
  }

  /** The k-th queued event was dropped for the new one, when all before it had been received. */
  predicate DroppedAt(c: Channel, g: Channel, ev: nat, k: nat) {
    && |c.queue| == CAPACITY && k < CAPACITY
    && g.dropped == c.dropped + [c.queue[k]] && c.received + c.queue[..k] <= g.received
    && g.received + g.queue == c.received + c.queue[..k] + (c.queue[k + 1..] + [ev])
  }

  ghost predicate Offered(c: Channel, g: Channel, ev: nat) {
    && 0 < |g.queue| <= CAPACITY && g.queue[|g.queue| - 1] == ev
    && (Lossless(c, g, ev) || exists k :: DroppedAt(c, g, ev, k))
  }

  /** Whatever the reader does meanwhile, the newest event ends up last in the queue, and at most one
      event is dropped for it: the oldest one queued at that moment, and only out of a full channel. */
  lemma NewestEnqueued(c: Channel, ev: nat, d: Drain)
    requires |c.queue| <= CAPACITY
    ensures Offered(c, Offer(c, ev, d), ev)
  {
    var a := Receive(c, d.first);
    ReceiveKeeps(c, d.first);
    if |a.queue| < CAPACITY {
      Appended(c, a, ev);
    } else {
      assert c.queue[0..] == c.queue && c.received + [] == c.received;
      FullOffer(c, ev, d);
    }
  }

  lemma Appended(c: Channel, a: Channel, ev: nat)
    requires a.received + a.queue == c.received + c.queue && a.dropped == c.dropped
    ensures Lossless(c, a.(queue := a.queue + [ev]), ev)
  {
    assert a.received + (a.queue + [ev]) == a.received + a.queue + [ev];
  }

  lemma FullOffer(c: Channel, ev: nat, d: Drain)
    requires |c.queue| == CAPACITY && Receive(c, d.first) == c
    ensures Offered(c, Offer(c, ev, d), ev)
  {
    var b := Receive(c, d.second);
    var e := DropOldest(b);
    var f := Receive(e, d.third);
    ReceiveKeeps(c, d.second);
    ReceiveKeeps(e, d.third);
    var g := f.(queue := f.queue + [ev]);
    assert Offer(c, ev, d) == g;
    if d.second < CAPACITY {
      var k := d.second;
      DroppedAfter(c, k);
      AppendDropped(c, e, f, ev, k);
    } else {
      assert e == b;
      Appended(c, f, ev);
    }
  }

  lemma DroppedAfter(c: Channel, k: nat)
    requires |c.queue| == CAPACITY && k < CAPACITY
    ensures var e := DropOldest(Receive(c, k));
            && e.queue == c.queue[k + 1..] && e.received == c.received + c.queue[..k]
            && e.dropped == c.dropped + [c.queue[k]]
  {
    assert c.queue[k..][1..] == c.queue[k + 1..];
  }

  lemma AppendDropped(c: Channel, e: Channel, f: Channel, ev: nat, k: nat)
    requires |c.queue| == CAPACITY && k < CAPACITY
    requires e.queue == c.queue[k + 1..] && e.received == c.received + c.queue[..k]
    requires f.received + f.queue == e.received + e.queue && e.received <= f.received
    requires f.dropped == e.dropped == c.dropped + [c.queue[k]]
    ensures DroppedAt(c, f.(queue := f.queue + [ev]), ev, k)
  {
    assert f.received + (f.queue + [ev]) == f.received + f.queue + [ev];
    assert e.received + e.queue + [ev] == e.received + (e.queue + [ev]);
  }

  lemma ReceiveKeeps(c: Channel, k: nat)
    ensures Receive(c, k).received + Receive(c, k).queue == c.received + c.queue
    ensures Receive(c, k).dropped == c.dropped && |Receive(c, k).queue| <= |c.queue|
    ensures c.received <= Receive(c, k).received
  {
    var n := Min(k, |c.queue|);
    assert c.queue[..n] + c.queue[n..] == c.queue;
  }

  // ---- Every interleaving ---------------------------------------------------------------

  datatype Action =
    | Subscribe
    | Unsubscribe(sub: nat)
    | Broadcast(drains: seq<Drain>) // what each reader takes meanwhile
    | Read(sub: nat, k: nat)

  function DrainOf(drains: seq<Drain>, i: nat): Drain {
    if i < |drains| then drains[i] else Drain(0, 0, 0)
  }

  function AfterBroadcast(st: State, drains: seq<Drain>): State {
    State(st.subs,
          seq(|st.channels|, i requires 0 <= i < |st.channels| =>
            if i in st.subs then Offer(st.channels[i], st.sent, DrainOf(drains, i)) else st.channels[i]),
          st.sent + 1,
          st.panicked || exists i :: 0 <= i < |st.channels| && i in st.subs && st.channels[i].closed)
  }

  function AfterUnsubscribe(st: State, i: nat): State {
    if i in st.subs && i < |st.channels|
    then State(st.subs - {i}, st.channels[i := st.channels[i].(closed := true)], st.sent,
               st.panicked || st.channels[i].closed)
    else st
  }

  function Step(st: State, a: Action): State {
    match a
    case Subscribe =>
      st.(subs := st.subs + {|st.channels|}, channels := st.channels + [Channel([], [], [], false)])
    case Unsubscribe(i) => AfterUnsubscribe(st, i)
    case Broadcast(drains) => AfterBroadcast(st, drains)
    case Read(i, k) =>
      if i < |st.channels| then st.(channels := st.channels[i := Receive(st.channels[i], k)]) else st
  }

  const INIT := State({}, [], 0, false)

  ghost predicate Increasing(s: seq<nat>) {
    forall i, j :: 0 <= i < j < |s| ==> s[i] < s[j]
  }

  ghost predicate Below(s: seq<nat>, n: nat) {
    forall i :: 0 <= i < |s| ==> s[i] < n
  }

  /** What the reader has received and what it will receive next, in order. */
  function Stream(c: Channel): seq<nat> {
    c.received + c.queue
  }

  ghost predicate ChannelInv(c: Channel, sent: nat) {
    |c.queue| <= CAPACITY && Increasing(Stream(c)) && Below(Stream(c), sent)
  }

  ghost predicate Inv(st: State) {
    && !st.panicked
    && (forall i :: i in st.subs ==> i < |st.channels| && !st.channels[i].closed)
    && (forall i :: 0 <= i < |st.channels| ==> ChannelInv(st.channels[i], st.sent))
  }

  lemma WithOne(s: seq<nat>, ev: nat)
    requires Increasing(s) && Below(s, ev)
    ensures Increasing(s + [ev]) && Below(s + [ev], ev + 1)
  {
  }

  lemma WithoutOne(a: seq<nat>, q: seq<nat>, k: nat, ev: nat)
    requires Increasing(a + q) && Below(a + q, ev) && k < |q|
    ensures Increasing(a + q[..k] + (q[k + 1..] + [ev])) && Below(a + q[..k] + (q[k + 1..] + [ev]), ev + 1)
  {
    var s, t := a + q, a + q[..k] + q[k + 1..];
    forall i, j | 0 <= i < j < |t|
      ensures t[i] < t[j] && t[j] < ev
    {
      assert t[i] == s[if i < |a| + k then i else i + 1];
      assert t[j] == s[if j < |a| + k then j else j + 1];
    }
    if |t| > 0 { assert t[0] == s[if 0 < |a| + k then 0 else 1]; }
    WithOne(t, ev);
    assert t + [ev] == a + q[..k] + (q[k + 1..] + [ev]);
  }

  lemma OfferKeeps(c: Channel, sent: nat, d: Drain)
    requires ChannelInv(c, sent)
    ensures ChannelInv(Offer(c, sent, d), sent + 1)
  {
    NewestEnqueued(c, sent, d);
    var g := Offer(c, sent, d);
    if Lossless(c, g, sent) {
      WithOne(Stream(c), sent);
    } else {
      var k :| DroppedAt(c, g, sent, k);
      WithoutOne(c.received, c.queue, k, sent);
    }
  }

  lemma EarlierStill(s: seq<nat>, n: nat)
    requires Below(s, n)
    ensures Below(s, n + 1)
  {
  }

  lemma ChannelKeeps(st: State, a: Action, i: nat)
    requires Inv(st) && i < |st.channels|
    ensures var g := Step(st, a); |st.channels| <= |g.channels| && ChannelInv(g.channels[i], g.sent)
  {
    assert ChannelInv(st.channels[i], st.sent);
    EarlierStill(Stream(st.channels[i]), st.sent);
    if a.Broadcast? && i in st.subs { OfferKeeps(st.channels[i], st.sent, DrainOf(a.drains, i)); }
    if a.Read? && i == a.sub { ReceiveKeeps(st.channels[i], a.k); }
  }

  lemma StepKeeps(st: State, a: Action)
    requires Inv(st)
    ensures Inv(Step(st, a))
  {
    var g := Step(st, a);
    forall i | 0 <= i < |g.channels|
      ensures ChannelInv(g.channels[i], g.sent)
    {
      if i < |st.channels| { ChannelKeeps(st, a, i); }
    }
  }

  ghost predicate Run(actions: seq<Action>, tr: seq<State>) {
    && |tr| == |actions| + 1 && tr[0] == INIT
    && forall i :: 0 <= i < |actions| ==> StepAt(actions, tr, i)
  }

  predicate StepAt(actions: seq<Action>, tr: seq<State>, i: nat)
    requires |tr| == |actions| + 1 && i < |actions|
  {
    tr[i + 1] == Step(tr[i], actions[i])
  }

  lemma {:induction false} RunInv(actions: seq<Action>, tr: seq<State>, n: nat)
    requires Run(actions, tr) && n < |tr|
    ensures Inv(tr[n])
  {
    if n > 0 {
      RunInv(actions, tr, n - 1);
      assert StepAt(actions, tr, n - 1);
      StepKeeps(tr[n - 1], actions[n - 1]);
    }
  }

  /** In every interleaving each reader gets events in broadcast order and none twice, and nothing is
      ever sent to a closed channel or closed again, however often unsubscribe is called. */
  lemma OrderedAndSafe(actions: seq<Action>, tr: seq<State>, n: nat, i: nat)
    requires Run(actions, tr) && n < |tr| && i < |tr[n].channels|
    ensures !tr[n].panicked && |tr[n].channels[i].queue| <= 8
    ensures Increasing(tr[n].channels[i].received + tr[n].channels[i].queue)
    ensures i in tr[n].subs ==> !tr[n].channels[i].closed
  {
    RunInv(actions, tr, n);
    assert ChannelInv(tr[n].channels[i], tr[n].sent);
  }

  /** What a subscriber that never reads is left with after being offered these events. */
  function Unread(events: seq<nat>): Channel {
    if events == [] then Channel([], [], [], false)
    else Offer(Unread(events[..|events| - 1]), events[|events| - 1], Drain(0, 0, 0))
  }

  lemma {:induction false} UnreadIsLast(events: seq<nat>)
    ensures Unread(events).received == []
    ensures Unread(events).queue == events[|events| - Min(|events|, CAPACITY)..]
    ensures Unread(events).dropped == events[..|events| - Min(|events|, CAPACITY)]
  {
    if |events| > 0 {
      var shorter, ev := events[..|events| - 1], events[|events| - 1];
      UnreadIsLast(shorter);
      UnreadOffer(Unread(shorter), ev);
      LastOnes(events, |events| - Min(|events|, CAPACITY));
    }
  }

  lemma LastOnes(events: seq<nat>, k: nat)
    requires k < |events|
    ensures events[..|events| - 1][k..] + [events[|events| - 1]] == events[k..]
    ensures events[..|events| - 1][..k] == events[..k]
    ensures k > 0 ==> events[..|events| - 1][k - 1..][1..] == events[..|events| - 1][k..]
    ensures k > 0 ==> events[..|events| - 1][..k - 1] + [events[..|events| - 1][k - 1..][0]] == events[..k]
  {
  }

  lemma UnreadOffer(c: Channel, ev: nat)
    requires |c.queue| <= CAPACITY && c.received == []
    ensures Offer(c, ev, Drain(0, 0, 0))
         == if |c.queue| < CAPACITY then c.(queue := c.queue + [ev])
            else c.(queue := c.queue[1..] + [ev], dropped := c.dropped + [c.queue[0]])
  {
    assert Receive(c, 0) == c;
    if |c.queue| == CAPACITY {
      assert Receive(DropOldest(c), 0) == DropOldest(c);
    }
  }

  /** The numbers of the broadcasts from one count to another. */
  function Between(from: nat, to: nat): (r: seq<nat>)
    requires from <= to
    ensures |r| == to - from && forall k :: 0 <= k < |r| ==> r[k] == from + k
  {
    seq(to - from, k requires 0 <= k => from + k)
  }

  /** The i-th reader takes nothing and stays subscribed. */
  predicate Idle(a: Action, i: nat) {
    match a
    case Subscribe => true
    case Unsubscribe(j) => j != i
    case Broadcast(drains) => DrainOf(drains, i) == Drain(0, 0, 0)
    case Read(j, k) => j != i
  }

  lemma UnreadGrows(events: seq<nat>, ev: nat)
    ensures Unread(events + [ev]) == Offer(Unread(events), ev, Drain(0, 0, 0))
  {
    assert (events + [ev])[..|events|] == events;
  }

  lemma OneMoreUnread(from: nat, to: nat)
    requires from <= to
    ensures Unread(Between(from, to + 1)) == Offer(Unread(Between(from, to)), to, Drain(0, 0, 0))
  {
    UnreadGrows(Between(from, to), to);
    assert Between(from, to + 1) == Between(from, to) + [to];
  }

  lemma IdleStep(st: State, a: Action, i: nat, from: nat)
    requires Idle(a, i) && i in st.subs && i < |st.channels| && from <= st.sent
    requires st.channels[i] == Unread(Between(from, st.sent))
    ensures var g := Step(st, a);
            i in g.subs && i < |g.channels| && from <= g.sent && g.channels[i] == Unread(Between(from, g.sent))
  {
    OneMoreUnread(from, st.sent);
  }

  lemma {:induction false} IdleIsUnread(actions: seq<Action>, tr: seq<State>, from: nat, n: nat, i: nat)
    requires Run(actions, tr) && from < n < |tr| && actions[from] == Subscribe && i == |tr[from].channels|
    requires forall k :: from < k < n ==> Idle(actions[k], i)
    ensures i in tr[n].subs && i < |tr[n].channels| && tr[from].sent <= tr[n].sent
    ensures tr[n].channels[i] == Unread(Between(tr[from].sent, tr[n].sent))
    decreases n
  {
    assert StepAt(actions, tr, n - 1);
    if n > from + 1 {
      IdleIsUnread(actions, tr, from, n - 1, i);
      IdleStep(tr[n - 1], actions[n - 1], i, tr[from].sent);
    }
  }

  /** In every run, a subscriber that never reads holds exactly the last eight of the events broadcast
      since it subscribed, or all of them if there are fewer, and the earlier ones are those dropped. */
  lemma UnreadHoldsLast(actions: seq<Action>, tr: seq<State>, from: nat, n: nat, i: nat)
    requires Run(actions, tr) && from < n < |tr| && actions[from] == Subscribe && i == |tr[from].channels|
    requires forall k :: from < k < n ==> Idle(actions[k], i)
    ensures tr[from].sent <= tr[n].sent && i < |tr[n].channels|
    ensures var events, c := Between(tr[from].sent, tr[n].sent), tr[n].channels[i];
            var m := |events| - Min(|events|, 8);
            c.received == [] && c.queue == events[m..] && c.dropped == events[..m]
  {
    IdleIsUnread(actions, tr, from, n, i);
    UnreadIsLast(Between(tr[from].sent, tr[n].sent));
  }

  /** Everything that was ever offered to a subscriber. */
  function Account(c: Channel): multiset<nat> {
    multiset(c.received) + multiset(c.queue) + multiset(c.dropped)
  }

  lemma Union(a: seq<nat>, b: seq<nat>)
    ensures multiset(a + b) == multiset(a) + multiset(b)
  {
  }

  lemma LosslessAccounts(r: seq<nat>, q: seq<nat>, r2: seq<nat>, q2: seq<nat>, ev: nat)
    requires r2 + q2 == r + q + [ev]
    ensures multiset(r2) + multiset(q2) == multiset(r) + multiset(q) + multiset{ev}
  {
    Union(r2, q2);
    Union(r + q, [ev]);
    Union(r, q);
  }

  lemma DroppedAccounts(r: seq<nat>, q: seq<nat>, r2: seq<nat>, q2: seq<nat>, k: nat, ev: nat)
    requires k < |q| && r2 + q2 == r + q[..k] + (q[k + 1..] + [ev])
    ensures multiset(r2) + multiset(q2) + multiset{q[k]} == multiset(r) + multiset(q) + multiset{ev}
  {
    Union(r2, q2);
    Union(r + q[..k], q[k + 1..] + [ev]);
    Union(r, q[..k]);
    Union(q[k + 1..], [ev]);
    assert q == q[..k] + ([q[k]] + q[k + 1..]);
    Union(q[..k], [q[k]] + q[k + 1..]);
    Union([q[k]], q[k + 1..]);
  }

  lemma OfferAccounts(c: Channel, ev: nat, d: Drain)
    requires |c.queue| <= CAPACITY
    ensures Account(Offer(c, ev, d)) == Account(c) + multiset{ev}
  {
    NewestEnqueued(c, ev, d);
    OfferedAccounts(c, Offer(c, ev, d), ev);
  }

  lemma Sums(rq: multiset<nat>, rq2: multiset<nat>, d: multiset<nat>, d2: multiset<nat>, lost: multiset<nat>, ev: nat)
    requires rq2 + lost == rq + multiset{ev} && d2 == d + lost
    ensures rq2 + d2 == rq + d + multiset{ev}
  {
    forall x: nat
      ensures (rq2 + d2)[x] == (rq + d + multiset{ev})[x]
    {
      assert (rq2 + lost)[x] == (rq + multiset{ev})[x];
    }
  }

  lemma OfferedAccounts(c: Channel, g: Channel, ev: nat)
    requires Offered(c, g, ev)
    ensures Account(g) == Account(c) + multiset{ev}
  {
    var before, after := multiset(c.received) + multiset(c.queue), multiset(g.received) + multiset(g.queue);
    if Lossless(c, g, ev) {
      LosslessAccounts(c.received, c.queue, g.received, g.queue, ev);
      Sums(before, after, multiset(c.dropped), multiset(g.dropped), multiset{}, ev);
    } else {
      var k: nat :| DroppedAt(c, g, ev, k);
      DroppedAccounts(c.received, c.queue, g.received, g.queue, k, ev);
      Union(c.dropped, [c.queue[k]]);
      Sums(before, after, multiset(c.dropped), multiset(g.dropped), multiset{c.queue[k]}, ev);
    }
  }

  lemma ReceiveAccounts(c: Channel, k: nat)
    ensures Account(Receive(c, k)) == Account(c)
  {
    ReceiveKeeps(c, k);
    Union(Receive(c, k).received, Receive(c, k).queue);
    Union(c.received, c.queue);
  }

  lemma OneMoreBetween(from: nat, to: nat)
    requires from <= to
    ensures multiset(Between(from, to + 1)) == multiset(Between(from, to)) + multiset{to}
  {
    assert Between(from, to + 1) == Between(from, to) + [to];
  }

  lemma BroadcastAccounts(st: State, drains: seq<Drain>, i: nat, from: nat)
    requires Inv(st) && i in st.subs && i < |st.channels| && from <= st.sent
    requires Account(st.channels[i]) == multiset(Between(from, st.sent))
    ensures Account(AfterBroadcast(st, drains).channels[i]) == multiset(Between(from, st.sent + 1))
  {
    assert ChannelInv(st.channels[i], st.sent);
    OfferAccounts(st.channels[i], st.sent, DrainOf(drains, i));
    OneMoreBetween(from, st.sent);
  }

  lemma ReadAccounts(st: State, j: nat, k: nat, i: nat)
    requires i < |st.channels|
    ensures var g := Step(st, Read(j, k));
            g.subs == st.subs && g.sent == st.sent && |g.channels| == |st.channels|
            && Account(g.channels[i]) == Account(st.channels[i])
  {
    ReceiveAccounts(st.channels[i], k);
  }

  lemma AccountStep(st: State, a: Action, i: nat, from: nat)
    requires Inv(st) && a != Unsubscribe(i) && i in st.subs && i < |st.channels| && from <= st.sent
    requires Account(st.channels[i]) == multiset(Between(from, st.sent))
    ensures var g := Step(st, a);
            && i in g.subs && i < |g.channels| && from <= g.sent
            && Account(g.channels[i]) == multiset(Between(from, g.sent))
  {
    match a
    case Broadcast(drains) => BroadcastAccounts(st, drains, i, from);
    case Read(j, k) => ReadAccounts(st, j, k, i);
    case Subscribe => assert Step(st, a).channels[i] == st.channels[i];
    case Unsubscribe(j) => assert Step(st, a).channels[i] == st.channels[i];
  }

  /** No event is lost: in every run, whatever its reader does, what a subscriber has received, still has
      queued and has had dropped are together exactly the events broadcast since it subscribed. */
  lemma {:induction false} EveryEventAccounted(actions: seq<Action>, tr: seq<State>, from: nat, n: nat, i: nat)
    requires Run(actions, tr) && from < n < |tr| && actions[from] == Subscribe && i == |tr[from].channels|
    requires forall k :: from < k < n ==> actions[k] != Unsubscribe(i)
    ensures i in tr[n].subs && i < |tr[n].channels| && tr[from].sent <= tr[n].sent
    ensures Account(tr[n].channels[i]) == multiset(Between(tr[from].sent, tr[n].sent))
    decreases n
  {
    assert StepAt(actions, tr, n - 1);
    if n > from + 1 {
      EveryEventAccounted(actions, tr, from, n - 1, i);
      RunInv(actions, tr, n - 1);
      AccountStep(tr[n - 1], actions[n - 1], i, tr[from].sent);
    }
  }

  lemma OfferKeepsOpen(c: Channel, ev: nat, d: Drain)
    ensures Offer(c, ev, d).closed == c.closed
  {
  }

  /** In every run the channels that are open are exactly those of the subscribers. */
  lemma {:induction false} OpenIffSubscribed(actions: seq<Action>, tr: seq<State>, n: nat, i: nat)
    requires Run(actions, tr) && n < |tr|
    ensures i in tr[n].subs <==> i < |tr[n].channels| && !tr[n].channels[i].closed
  {
    if n > 0 {
      var st, a := tr[n - 1], actions[n - 1];
      OpenIffSubscribed(actions, tr, n - 1, i);
      assert StepAt(actions, tr, n - 1);
      if a.Broadcast? && i < |st.channels| { OfferKeepsOpen(st.channels[i], st.sent, DrainOf(a.drains, i)); }
    }
  }

  lemma ClosesStep(st: State, a: Action, i: nat)
    requires i < |st.channels| && (i in st.subs <==> !st.channels[i].closed)
    ensures i < |Step(st, a).channels|
    ensures Step(st, a).channels[i].closed <==> st.channels[i].closed || a == Unsubscribe(i)
  {
    if a.Broadcast? { OfferKeepsOpen(st.channels[i], st.sent, DrainOf(a.drains, i)); }
  }

  lemma ClosedStep(st: State, a: Action, i: nat)
    requires i < |st.channels| && i !in st.subs
    ensures i < |Step(st, a).channels|
    ensures Account(Step(st, a).channels[i]) == Account(st.channels[i])
  {
    match a
    case Read(j, k) => ReadAccounts(st, j, k, i);
    case Broadcast(_) => assert Step(st, a).channels[i] == st.channels[i];
    case Subscribe => assert Step(st, a).channels[i] == st.channels[i];
    case Unsubscribe(j) => assert Step(st, a).channels[i] == st.channels[i];
  }

  /** A channel is closed by the unsubscribe of its own subscriber and by nothing else, and from then on
      nothing is sent to it. */
  lemma ClosedHearsNothing(actions: seq<Action>, tr: seq<State>, n: nat, i: nat)
    requires Run(actions, tr) && n < |actions| && i < |tr[n].channels|
    ensures i < |tr[n + 1].channels|
    ensures tr[n + 1].channels[i].closed <==> tr[n].channels[i].closed || actions[n] == Unsubscribe(i)
    ensures tr[n].channels[i].closed ==> Account(tr[n + 1].channels[i]) == Account(tr[n].channels[i])
  {
    OpenIffSubscribed(actions, tr, n, i);
    assert StepAt(actions, tr, n);
    ClosesStep(tr[n], actions[n], i);
    if tr[n].channels[i].closed { ClosedStep(tr[n], actions[n], i); }
  }

  // ---- The fan-out itself ---------------------------------------------------------------------

  class Fanout {
    var subs: set<nat>
    var channels: seq<Channel>
    var sent: nat

    function St(): State
      reads this
    {
      State(subs, channels, sent, false)
    }

    constructor ()
      ensures St() == INIT && Inv(St())
    {
      subs, channels, sent := {}, [], 0;
    }

    method AddSubscriber() returns (i: nat)
      requires Inv(St())
      modifies this
      ensures St() == Step(old(St()), Subscribe) && Inv(St()) && i == |old(channels)|
    {
      StepKeeps(St(), Subscribe);
      i := |channels|;
      channels := channels + [Channel([], [], [], false)];
      subs := subs + {i};
    }

    method RemoveSubscriber(i: nat)
      requires Inv(St())
      modifies this
      ensures St() == AfterUnsubscribe(old(St()), i) && Inv(St())
    {
      StepKeeps(St(), Unsubscribe(i));
      if i in subs {
        subs := subs - {i};
        channels := channels[i := channels[i].(closed := true)];
      }
    }

    /** Visits the subscribers in the arbitrary order of a Go map. */
    method Send(drains: seq<Drain>)
      requires Inv(St())
      modifies this
      ensures St() == AfterBroadcast(old(St()), drains) && Inv(St())
    {
      StepKeeps(St(), Broadcast(drains));
      ghost var before := channels;
      var rest := subs;
      while rest != {}
        invariant subs == old(subs) && sent == old(sent) && rest <= subs && |channels| == |before|
        invariant forall i :: 0 <= i < |channels| ==>
                    channels[i] == if i in subs && i !in rest then Offer(before[i], sent, DrainOf(drains, i))
                                   else before[i]
        decreases rest
      {
        var i :| i in rest;
        channels := channels[i := Offer(channels[i], sent, DrainOf(drains, i))];
        rest := rest - {i};
      }
      assert channels == AfterBroadcast(old(St()), drains).channels;
      sent := sent + 1;
    }
  }
}
