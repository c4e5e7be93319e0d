/** One pull's muxer (streamRun in streamhub.go): viewers wait on a `ready` channel that is closed
    when the muxer appears and replaced when it is torn down, and every access unit is stamped with a
    wall-clock time derived from its 90 kHz timestamp. */
module StreamRun {
  import opened Text

  // ---- The ready channel -----------------------------------------------------------

  /** What one request in serve is doing. */
  datatype Waiter = Looking | Waiting(channel: nat) | Served | GaveUp

  /** `closed[c]` says whether channel c has been closed; closing one twice would panic. */
  datatype State = State(muxer: bool, ready: nat, closed: seq<bool>, startPts: int,
                         panicked: bool, waiters: map<nat, Waiter>)

  function CloseChannel(st: State, c: nat): (r: State)
    ensures c < |st.closed| && st.closed[c] ==> r.panicked
  {
    if c < |st.closed| && !st.closed[c] then st.(closed := st.closed[c := true]) else st.(panicked := true)
  }

  function AfterWrite(st: State, pts: int, started: bool): State {
    if st.muxer || !started then st else CloseChannel(st.(muxer := true, startPts := pts), st.ready)
  }

  function AfterCloseMuxer(st: State): State {
    if !st.muxer then st else st.(muxer := false, ready := |st.closed|, closed := st.closed + [false])
  }

  function AfterLook(st: State, w: nat): State {
    if w !in st.waiters || st.waiters[w] != Looking then st
    else st.(waiters := st.waiters[w := if st.muxer then Served else Waiting(st.ready)])
  }

  /** The select in serve can take its first branch. */
  predicate CanWake(st: State, w: nat) {
    w in st.waiters && st.waiters[w].Waiting? && st.waiters[w].channel < |st.closed| && st.closed[st.waiters[w].channel]
  }

  datatype Action =
    | Write(pts: int, started: bool) // started: whether the muxer's Start succeeds, when it is called
    | CloseMuxer
    | Arrive(waiter: nat)
    | Look(waiter: nat)
    | Wake(waiter: nat)
    | GiveUp(waiter: nat)            // the ten seconds are over, or the request has gone

  function Step(st: State, a: Action): State {
    match a
    case Write(pts, started) => AfterWrite(st, pts, started)
    case CloseMuxer => AfterCloseMuxer(st)
    case Arrive(w) => if w in st.waiters then st else st.(waiters := st.waiters[w := Looking])
    case Look(w) => AfterLook(st, w)
    case Wake(w) => if CanWake(st, w) then st.(waiters := st.waiters[w := Looking]) else st
    case GiveUp(w) =>
      if w in st.waiters && st.waiters[w].Waiting? then st.(waiters := st.waiters[w := GaveUp]) else st
  }

  const INIT := State(false, 0, [false], 0, false, map[])

  ghost predicate Inv(st: State) {
    && !st.panicked
    && |st.closed| > 0 && st.ready == |st.closed| - 1
    && (st.closed[st.ready] <==> st.muxer)
    && (forall c :: 0 <= c < st.ready ==> st.closed[c])
    && (forall w :: w in st.waiters && st.waiters[w].Waiting? ==> st.waiters[w].channel <= st.ready)
  }

  lemma StepKeeps(st: State, a: Action)
    requires Inv(st)
    ensures Inv(Step(st, a))
  {
  }

  ghost predicate Run(actions: seq<Action>, tr: seq<State>) {
    && |tr| == |actions| + 1 && tr[0] == INIT
    && forall i :: 0 <= i < |actions| ==> StepAt(actions, tr, i)
  }

  predicate StepAt(actions: seq<Action>, tr: seq<State>, i: nat)
    requires |tr| == |actions| + 1 && i < |actions|
  {
    tr[i + 1] == Step(tr[i], actions[i])
  }

  lemma {:induction false} RunInv(actions: seq<Action>, tr: seq<State>, n: nat)
    requires Run(actions, tr) && n < |tr|
    ensures Inv(tr[n])
  {
    if n > 0 {
      RunInv(actions, tr, n - 1);
      assert StepAt(actions, tr, n - 1);
      StepKeeps(tr[n - 1], actions[n - 1]);
    }
  }

  /** In every interleaving no channel is closed twice, the current one is closed exactly while a
      muxer exists, and so a waiting request can go on whenever there is a muxer, and also when the
      muxer it should have seen is already gone. */
  lemma NoWaiterMissesTheMuxer(actions: seq<Action>, tr: seq<State>, n: nat, w: nat)
    requires Run(actions, tr) && n < |tr| && w in tr[n].waiters && tr[n].waiters[w].Waiting?
    ensures !tr[n].panicked && tr[n].ready < |tr[n].closed| && (tr[n].closed[tr[n].ready] <==> tr[n].muxer)
    ensures CanWake(tr[n], w) <==> tr[n].muxer || tr[n].waiters[w].channel != tr[n].ready
  {
    RunInv(actions, tr, n);
  }

  /** While there is a muxer, its start is the timestamp of the access unit that it was started with. */
  lemma {:induction false} StartsAtFirstUnit(actions: seq<Action>, tr: seq<State>, n: nat) returns (i: nat)
    requires Run(actions, tr) && n < |tr| && tr[n].muxer
    ensures i < n && actions[i] == Write(tr[n].startPts, true) && !tr[i].muxer
    ensures forall j :: i < j <= n ==> tr[j].muxer && tr[j].startPts == tr[n].startPts
  {
    RunInv(actions, tr, n - 1);
    assert StepAt(actions, tr, n - 1);
    if tr[n - 1].muxer {
      i := StartsAtFirstUnit(actions, tr, n - 1);
    } else {
      i := n - 1;
    }
  }

  /** A request is served only while there is a muxer, and at once if there is one when it looks. It gives up
      only while it is waiting. */
  lemma ServedIff(actions: seq<Action>, tr: seq<State>, n: nat, w: nat)
    requires Run(actions, tr) && n < |actions| && w in tr[n].waiters && !(tr[n].waiters[w] in {Served, GaveUp})
    ensures w in tr[n + 1].waiters
    ensures tr[n + 1].waiters[w] == Served
       <==> actions[n] == Look(w) && tr[n].waiters[w] == Looking && tr[n].muxer
    ensures tr[n + 1].waiters[w] == GaveUp <==> actions[n] == GiveUp(w) && tr[n].waiters[w].Waiting?
  {
    assert StepAt(actions, tr, n);
  }

  /** Requests come in looking for the muxer, and what has become of one is final. */
  lemma ArrivesAndEnds(actions: seq<Action>, tr: seq<State>, n: nat, w: nat)
    requires Run(actions, tr) && n < |actions|
    ensures w !in tr[n].waiters ==> (w in tr[n + 1].waiters <==> actions[n] == Arrive(w))
    ensures w !in tr[n].waiters && w in tr[n + 1].waiters ==> tr[n + 1].waiters[w] == Looking
    ensures w in tr[n].waiters && tr[n].waiters[w] in {Served, GaveUp} ==>
              w in tr[n + 1].waiters && tr[n + 1].waiters[w] == tr[n].waiters[w]
  {
    assert StepAt(actions, tr, n);
  }

  /** A waiting request is served in two steps of its own while there is a muxer, whichever channel it waits on. */
  lemma WaiterGetsServed(actions: seq<Action>, tr: seq<State>, n: nat, w: nat)
    requires Run(actions, tr) && n < |tr| && w in tr[n].waiters && tr[n].waiters[w].Waiting? && tr[n].muxer
    ensures Step(Step(tr[n], Wake(w)), Look(w)) == tr[n].(waiters := tr[n].waiters[w := Served])
  {
    NoWaiterMissesTheMuxer(actions, tr, n, w);
    assert tr[n].waiters[w := Looking][w := Served] == tr[n].waiters[w := Served];
  }

  // ---- Timestamps ----------------------------------------------------------------------

  const CLOCK_RATE := 90000
  const SECOND := 1_000_000_000
  const TWO_64 := 0x1_0000_0000_0000_0000

  /** Go's int64 arithmetic: results wrap around, division truncates towards zero. */
  function Wrap(x: int): (r: int)
    ensures MIN_INT64 <= r <= MAX_INT64 && (r - x) % TWO_64 == 0
  {
    var m := x % TWO_64;
    if m > MAX_INT64 then m - TWO_64 else m
  }

  function Quot(a: int, b: nat): int
    requires b > 0
  {
    if a >= 0 then a / b else -((-a) / b)
  }

  function Rem(a: int, b: nat): int
    requires b > 0
  {
    a - b * Quot(a, b)
  }

  /** The offset write adds to the muxer's start time, as the code computes it. */
  function WallOffset(rel: int): int {
    Wrap(Wrap(Quot(rel, CLOCK_RATE) * SECOND) + Quot(Wrap(Rem(rel, CLOCK_RATE) * SECOND), CLOCK_RATE))
  }

  /** The same without splitting off the seconds. */
  function NaiveOffset(rel: int): int {
    Quot(Wrap(rel * SECOND), CLOCK_RATE)
  }

  function Exact(rel: int): int {
    Quot(rel * 1_000_000_000, 90_000)
  }

  lemma WrapInRange(x: int)
    requires MIN_INT64 <= x <= MAX_INT64
    ensures Wrap(x) == x
  {
  }

  lemma SplitExact(secs: nat, frac: nat)
    requires frac < CLOCK_RATE
    ensures (CLOCK_RATE * secs + frac) * SECOND / CLOCK_RATE == secs * SECOND + frac * SECOND / CLOCK_RATE
    ensures frac * SECOND / CLOCK_RATE < SECOND
  {
    var q, r := frac * SECOND / CLOCK_RATE, frac * SECOND % CLOCK_RATE;
    assert (CLOCK_RATE * secs + frac) * SECOND == CLOCK_RATE * (secs * SECOND + q) + r;
  }

  /** Nothing wraps when every intermediate value fits. */
  lemma OffsetOf(rel: int, q: int, r: int, t: int)
    requires q == Quot(rel, CLOCK_RATE) && r == Rem(rel, CLOCK_RATE) && t == Quot(r * SECOND, CLOCK_RATE)
    requires MIN_INT64 <= q * SECOND <= MAX_INT64 && MIN_INT64 <= r * SECOND <= MAX_INT64
    requires MIN_INT64 <= q * SECOND + t <= MAX_INT64
    ensures WallOffset(rel) == q * SECOND + t
  {
    WrapInRange(q * SECOND);
    WrapInRange(r * SECOND);
    WrapInRange(q * SECOND + t);
  }

  lemma Magnitude(a: int) returns (secs: int, frac: int)
    requires 0 <= a < CLOCK_RATE * 9223372036
    ensures secs == a / CLOCK_RATE && frac == a - CLOCK_RATE * secs
    ensures 0 <= secs < 9223372036 && 0 <= frac < CLOCK_RATE
    ensures a * SECOND / CLOCK_RATE == secs * SECOND + frac * SECOND / CLOCK_RATE
    ensures frac * SECOND / CLOCK_RATE < SECOND
  {
    secs := a / CLOCK_RATE;
    frac := a - CLOCK_RATE * secs;
    SplitExact(secs, frac);
  }

  /** Over more than 290 years either side of the first frame nothing overflows: the offset is the
      exact rational product, truncated. */
  lemma OffsetIsExact(rel: int)
    requires -CLOCK_RATE * 9223372036 < rel < CLOCK_RATE * 9223372036
    ensures WallOffset(rel) == Exact(rel)
  {
    if rel >= 0 {
      var secs, frac := Magnitude(rel);
      OffsetOf(rel, secs, frac, frac * SECOND / CLOCK_RATE);
    } else {
      var secs, frac := Magnitude(-rel);
      NegativeParts(frac * SECOND);
      OffsetOf(rel, -secs, -frac, -(frac * SECOND / CLOCK_RATE));
      NegativeParts(-rel * SECOND);
    }
  }

  lemma NegativeParts(x: int)
    requires x >= 0
    ensures Quot(-x, CLOCK_RATE) == -(x / CLOCK_RATE)
  {
  }

  lemma QuotMonotone(a: int, b: int)
    requires a <= b
    ensures Quot(a, CLOCK_RATE) <= Quot(b, CLOCK_RATE)
  {
  }

  /** Later timestamps never get earlier wall-clock times within one muxer's life. */
  lemma OffsetMonotone(rel: int, later: int)
    requires -CLOCK_RATE * 9223372036 < rel <= later < CLOCK_RATE * 9223372036
    ensures WallOffset(rel) <= WallOffset(later)
  {
    OffsetIsExact(rel);
    OffsetIsExact(later);
    QuotMonotone(rel * SECOND, later * SECOND);
  }

  /** Without the split the product is right for about 28 hours, and then never again. */
  lemma NaiveOffsetIff(rel: int)
    requires -CLOCK_RATE * 9223372036 < rel < CLOCK_RATE * 9223372036
    ensures NaiveOffset(rel) == Exact(rel) <==> -9223372036 <= rel <= 9223372036
  {
    var x, w := rel * SECOND, Wrap(rel * SECOND);
    if -9223372036 <= rel <= 9223372036 {
      WrapInRange(x);
    } else {
      assert w != x && (w - x) % TWO_64 == 0;
      assert w - x >= TWO_64 || x - w >= TWO_64;
      if w > x { QuotApart(x, w); } else { QuotApart(w, x); }
    }
  }

  lemma QuotApart(a: int, b: int)
    requires b - a >= 2 * CLOCK_RATE
    ensures Quot(a, CLOCK_RATE) != Quot(b, CLOCK_RATE)
  {
  }

  // ---- The object itself ------------------------------------------------------------------

  class StreamRun {
    var muxer: bool
    var ready: nat
    var startPts: int
    // Every channel the run has made so far, by number; true once closed.
    var closed: seq<bool>

    function St(waiters: map<nat, Waiter>): State
      reads this
    {
      State(muxer, ready, closed, startPts, false, waiters)
    }

    constructor ()
      ensures St(map[]) == INIT
    {
      muxer, ready, startPts, closed := false, 0, 0, [false];
    }

    static method WallClock(rel: int) returns (offset: int)
      ensures offset == WallOffset(rel)
    {
      var secs, frac := Quot(rel, CLOCK_RATE), Rem(rel, CLOCK_RATE);
      offset := Wrap(Wrap(secs * SECOND) + Quot(Wrap(frac * SECOND), CLOCK_RATE));
    }

    /** Returns the offset of the access unit's wall-clock time from the muxer's start, or None when
        the muxer cannot be started. The closed channel is open beforehand, so nothing panics. */
    method Write(pts: int, started: bool) returns (offset: Option<int>)
      requires Inv(St(map[]))
      modifies this
      ensures Inv(St(map[])) && St(map[]) == AfterWrite(old(St(map[])), pts, started)
      ensures offset == if muxer then Some(WallOffset(Wrap(pts - startPts))) else None
      ensures !old(muxer) && started ==> startPts == pts && offset == Some(0)
      ensures old(muxer) ==> startPts == old(startPts)
    {
      if !muxer {
        if !started { return None; }
        muxer, startPts := true, pts;
        closed := closed[ready := true];
      }
      var since := WallClock(Wrap(pts - startPts));
      offset := Some(since);
    }

    method CloseMuxer()
      requires Inv(St(map[]))
      modifies this
      ensures Inv(St(map[])) && St(map[]) == AfterCloseMuxer(old(St(map[])))
    {
      if !muxer { return; }
      muxer := false;
      ready := |closed|;
      closed := closed + [false];
    }
  }
}
