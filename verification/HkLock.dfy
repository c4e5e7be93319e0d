/** The door lock tile (hklock.go). Any number of controllers write to it at once, each on its own
    goroutine; only the relock timer is guarded by the mutex, the characteristic writes are not. */
module HkLock {
  import opened Text

  datatype Tile = Secured | Unsecured

  /** A relock timer: armed, gone off and about to write the current state, about to write the target
      state, or over. */
  datatype Timer = Armed | FiredCurrent | FiredTarget | Over

  /** Where a controller's write stands, outside and between the critical sections. */
  datatype Call =
    | Opening      // unlock: the relay is being pulsed
    | Opened       // unlock: about to show Unsecured
    | Scheduling   // unlock: about to schedule the relock
    | Cancelling   // secure: about to cancel the pending relock
    | Securing     // secure: about to show Secured
    | Finished

  datatype State = State(current: Tile, target: Tile, cancelPending: Option<nat>,
                         timers: seq<Timer>, calls: seq<Call>)

  /** cancelPending(): stops the timer if it has not gone off yet. */
  function StopTimer(timers: seq<Timer>, t: nat): (r: seq<Timer>)
    ensures |r| == |timers|
  {
    if t < |timers| && timers[t] == Armed then timers[t := Over] else timers
  }

  function CancelLocked(st: State): State {
    if st.cancelPending.Some?
    then st.(timers := StopTimer(st.timers, st.cancelPending.value), cancelPending := None)
    else st
  }

  function ScheduleRelock(st: State): State {
    var c := CancelLocked(st);
    c.(timers := c.timers + [Armed], cancelPending := Some(|c.timers|))
  }

  datatype Action =
    | Write(target: Tile)           // HomeKit writes the target state on a new goroutine
    | Relay(call: nat, ok: bool)    // the door controller answers
    | Proceed(call: nat)            // a call takes its next step
    | GoOff(timer: nat)             // a timer expires
    | TimerProceed(timer: nat)      // its callback writes the next characteristic

  function Step(st: State, a: Action): State {
    match a
    case Write(v) => st.(target := v, calls := st.calls + [if v == Secured then Cancelling else Opening])
    case Relay(i, ok) =>
      if i < |st.calls| && st.calls[i] == Opening
      then st.(calls := st.calls[i := if ok then Opened else Finished]) else st
    case Proceed(i) => if i < |st.calls| then Advance(st, i) else st
    case GoOff(t) =>
      if t < |st.timers| && st.timers[t] == Armed then st.(timers := st.timers[t := FiredCurrent]) else st
    case TimerProceed(t) =>
      if t < |st.timers| && st.timers[t] == FiredCurrent
      then st.(current := Secured, timers := st.timers[t := FiredTarget])
      else if t < |st.timers| && st.timers[t] == FiredTarget then st.(target := Secured, timers := st.timers[t := Over])
      else st
  }

  function Advance(st: State, i: nat): State
    requires i < |st.calls|
  {
    match st.calls[i]
    case Opened => st.(current := Unsecured, calls := st.calls[i := Scheduling])
    case Scheduling => ScheduleRelock(st).(calls := st.calls[i := Finished])
    case Cancelling => CancelLocked(st).(calls := st.calls[i := Securing])
    case Securing => st.(current := Secured, calls := st.calls[i := Finished])
    case _ => st
  }

  const INIT := State(Secured, Secured, None, [], [])

  // ---- The invariant ------------------------------------------------------------------

  ghost predicate ExistsTimer(timers: seq<Timer>, phase: Timer) {
    exists t :: 0 <= t < |timers| && timers[t] == phase
  }

  ghost predicate ExistsCall(calls: seq<Call>, phase: Call) {
    exists i :: 0 <= i < |calls| && calls[i] == phase
  }

  /** Somebody is still going to show Secured, or to schedule somebody who will. */
  ghost predicate WillSecure(st: State) {
    || ExistsTimer(st.timers, Armed)
    || ExistsTimer(st.timers, FiredCurrent)
    || ExistsCall(st.calls, Scheduling)
    || ExistsCall(st.calls, Securing)
  }

  ghost predicate Inv(st: State) {
    && (forall t :: 0 <= t < |st.timers| && st.timers[t] == Armed ==> st.cancelPending == Some(t))
    && (st.cancelPending.Some? ==> st.cancelPending.value < |st.timers|)
    && (st.current == Unsecured ==> WillSecure(st))
  }

  lemma ProceedKeeps(st: State, i: nat)
    requires Inv(st) && i < |st.calls|
    ensures Inv(Advance(st, i))
  {
    var g := Advance(st, i);
    match st.calls[i]
    case Opened => assert g.calls[i] == Scheduling;
    case Scheduling => assert g.timers[|st.timers|] == Armed;
    case Cancelling => assert g.calls[i] == Securing;
    case Securing =>
    case _ =>
  }

  lemma TimerKeeps(st: State, a: Action)
    requires Inv(st) && (a.GoOff? || a.TimerProceed?)
    ensures Inv(Step(st, a))
  {
    var g := Step(st, a);
    if st.current == Unsecured && g.current == Unsecured {
      if ExistsTimer(st.timers, Armed) {
        var t :| 0 <= t < |st.timers| && st.timers[t] == Armed;
        assert g.timers[t] == Armed || g.timers[t] == FiredCurrent;
      } else if ExistsTimer(st.timers, FiredCurrent) {
        var t :| 0 <= t < |st.timers| && st.timers[t] == FiredCurrent;
        assert g.timers[t] == FiredCurrent;
      }
    }
  }

  lemma CallKeeps(st: State, a: Action)
    requires Inv(st) && (a.Write? || a.Relay?)
    ensures Inv(Step(st, a))
  {
    var g := Step(st, a);
    assert forall k :: 0 <= k < |st.calls| && (st.calls[k] == Scheduling || st.calls[k] == Securing)
             ==> g.calls[k] == st.calls[k];
  }

  lemma StepKeeps(st: State, a: Action)
    requires Inv(st)
    ensures Inv(Step(st, a))
  {
    match a
    case Proceed(i) => if i < |st.calls| { ProceedKeeps(st, i); }
    case Write(_) => CallKeeps(st, a);
    case Relay(_, _) => CallKeeps(st, a);
    case GoOff(_) => TimerKeeps(st, a);
    case TimerProceed(_) => TimerKeeps(st, a);
  }

  // ---- Runs --------------------------------------------------------------------------------

  ghost predicate Run(actions: seq<Action>, tr: seq<State>) {
    && |tr| == |actions| + 1 && tr[0] == INIT
    && forall i :: 0 <= i < |actions| ==> StepAt(actions, tr, i)
  }

  predicate StepAt(actions: seq<Action>, tr: seq<State>, i: nat)
    requires |tr| == |actions| + 1 && i < |actions|
  {
    tr[i + 1] == Step(tr[i], actions[i])
  }

  lemma {:induction false} RunInv(actions: seq<Action>, tr: seq<State>, n: nat)
    requires Run(actions, tr) && n < |tr|
    ensures Inv(tr[n])
  {
    if n > 0 {
      RunInv(actions, tr, n - 1);
      assert StepAt(actions, tr, n - 1);
      StepKeeps(tr[n - 1], actions[n - 1]);
    }
  }

  /** However many writes overlap, at most one relock timer is armed. */
  lemma OneTimerArmed(actions: seq<Action>, tr: seq<State>, n: nat, t: nat, u: nat)
    requires Run(actions, tr) && n < |tr| && t < |tr[n].timers| && u < |tr[n].timers|
    requires tr[n].timers[t] == Armed && tr[n].timers[u] == Armed
    ensures t == u
  {
    RunInv(actions, tr, n);
  }

  /** A tile that shows Unsecured always has somebody left who will show Secured. */
  lemma UnsecuredIsTransient(actions: seq<Action>, tr: seq<State>, n: nat)
    requires Run(actions, tr) && n < |tr| && tr[n].current == Unsecured
    ensures WillSecure(tr[n])
  {
    RunInv(actions, tr, n);
  }

  predicate AtRest(st: State) {
    && (forall t :: 0 <= t < |st.timers| ==> st.timers[t] == Over)
    && (forall i :: 0 <= i < |st.calls| ==> st.calls[i] == Finished)
  }

  /** Once every call and every timer has finished, the tile shows Secured. */
  lemma RestsSecured(actions: seq<Action>, tr: seq<State>, n: nat)
    requires Run(actions, tr) && n < |tr| && AtRest(tr[n])
    ensures tr[n].current == Secured
  {
    RunInv(actions, tr, n);
  }

  // ---- What a write comes to -----------------------------------------------------------------

  /** The target states written so far, in order: one call each. */
  function Writes(actions: seq<Action>): seq<Tile> {
    if actions == [] then []
    else Writes(actions[..|actions| - 1])
         + match actions[|actions| - 1] case Write(v) => [v] case _ => []
  }

  /** A write that secures has nothing to send; only the others go through the relay. */
  predicate OnItsWay(target: Tile, call: Call) {
    if target == Secured then call in {Cancelling, Securing, Finished}
    else call in {Opening, Opened, Scheduling, Finished}
  }

  /** The door controller has confirmed this call's pulse. */
  ghost predicate Pulsed(actions: seq<Action>, tr: seq<State>, n: nat, i: nat)
    requires n <= |actions| < |tr|
  {
    exists k :: 0 <= k < n && actions[k] == Relay(i, true) && i < |tr[k].calls| && tr[k].calls[i] == Opening
  }

  ghost predicate Justified(actions: seq<Action>, tr: seq<State>, n: nat, writes: seq<Tile>)
    requires n <= |actions| < |tr|
  {
    && |tr[n].calls| == |writes|
    && (forall i :: 0 <= i < |writes| ==> OnItsWay(writes[i], tr[n].calls[i]))
    && (forall i :: 0 <= i < |writes| && tr[n].calls[i] in {Opened, Scheduling} ==> Pulsed(actions, tr, n, i))
    && (tr[n].current == Unsecured ==>
          exists i :: 0 <= i < |writes| && writes[i] == Unsecured && Pulsed(actions, tr, n, i))
  }

  lemma PulsedLater(actions: seq<Action>, tr: seq<State>, n: nat, i: nat)
    requires n < |actions| < |tr|
    ensures Pulsed(actions, tr, n, i) ==> Pulsed(actions, tr, n + 1, i)
  {
  }

  lemma JustifiedStep(actions: seq<Action>, tr: seq<State>, n: nat, writes: seq<Tile>)
    requires Run(actions, tr) && n < |actions| && Justified(actions, tr, n, writes)
    ensures Justified(actions, tr, n + 1, writes + match actions[n] case Write(v) => [v] case _ => [])
  {
    var st, after, a := tr[n], tr[n + 1], actions[n];
    assert StepAt(actions, tr, n);
    forall i | 0 <= i < |writes|
      ensures Pulsed(actions, tr, n, i) ==> Pulsed(actions, tr, n + 1, i)
    {
      PulsedLater(actions, tr, n, i);
    }
    if a.Relay? && a.ok && a.call < |st.calls| && st.calls[a.call] == Opening {
      assert Pulsed(actions, tr, n + 1, a.call);
    }
    if after.current == Unsecured && st.current == Secured {
      assert a.Proceed? && st.calls[a.call] == Opened;
      assert OnItsWay(writes[a.call], Opened) && Pulsed(actions, tr, n, a.call);
    }
  }

  /** In every run, the call of a write that secures never pulses the relay; any other gets past the relay
      only when its pulse was confirmed; and the tile shows Unsecured only after a confirmed pulse. */
  lemma {:induction false} UnlockedByPulsesOnly(actions: seq<Action>, tr: seq<State>, n: nat)
    requires Run(actions, tr) && n <= |actions|
    ensures Justified(actions, tr, n, Writes(actions[..n]))
  {
    if n > 0 {
      UnlockedByPulsesOnly(actions, tr, n - 1);
      assert actions[..n][..n - 1] == actions[..n - 1];
      JustifiedStep(actions, tr, n - 1, Writes(actions[..n - 1]));
    }
  }

  /** A call whose pulse fails is over, so the tile never changes on its account. */
  lemma {:induction false} FailedPulseEnds(actions: seq<Action>, tr: seq<State>, k: nat, n: nat, i: nat)
    requires Run(actions, tr) && k < n < |tr| && actions[k] == Relay(i, false)
    requires i < |tr[k].calls| && tr[k].calls[i] == Opening
    ensures tr[k + 1] == tr[k].(calls := tr[k].calls[i := Finished])
    ensures i < |tr[n].calls| && tr[n].calls[i] == Finished
  {
    assert StepAt(actions, tr, k);
    if n > k + 1 {
      FailedPulseEnds(actions, tr, k, n - 1, i);
      assert StepAt(actions, tr, n - 1);
    }
  }

  /** A confirmed pulse, when nothing comes in between, shows Unsecured and arms the one relock timer. */
  lemma UnlockTakesEffect(st: State, i: nat)
    requires Inv(st) && i < |st.calls| && st.calls[i] == Opening
    ensures var g := Step(Step(Step(st, Relay(i, true)), Proceed(i)), Proceed(i));
            && g.current == Unsecured && g.calls == st.calls[i := Finished]
            && g.cancelPending == Some(|st.timers|) && |g.timers| == |st.timers| + 1
            && forall t :: 0 <= t < |g.timers| ==> (g.timers[t] == Armed <==> t == |st.timers|)
  {
    var shown := Step(Step(st, Relay(i, true)), Proceed(i));
    assert shown.timers == st.timers && shown.cancelPending == st.cancelPending;
  }

  /** A write that secures shows Secured at once and leaves no relock timer armed. */
  lemma SecureTakesEffect(st: State)
    requires Inv(st)
    ensures var i := |st.calls|;
            var g := Step(Step(Step(st, Write(Secured)), Proceed(i)), Proceed(i));
            && g.current == Secured && g.target == Secured && g.calls == st.calls + [Finished]
            && forall t :: 0 <= t < |g.timers| ==> g.timers[t] != Armed
  {
    var written := Step(st, Write(Secured));
    assert written.calls[|st.calls|] == Cancelling;
    assert written.timers == st.timers && written.cancelPending == st.cancelPending;
  }

  /** A relock timer that goes off settles both characteristics. */
  lemma RelockTakesEffect(st: State, t: nat)
    requires t < |st.timers| && st.timers[t] == Armed
    ensures var g := Step(Step(Step(st, GoOff(t)), TimerProceed(t)), TimerProceed(t));
            g == st.(current := Secured, target := Secured, timers := st.timers[t := Over])
  {
    var off := Step(st, GoOff(t));
    assert off.timers[t] == FiredCurrent;
    assert Step(off, TimerProceed(t)).timers[t] == FiredTarget;
    assert st.timers[t := FiredCurrent][t := FiredTarget][t := Over] == st.timers[t := Over];
  }

  // ---- The lock itself -----------------------------------------------------------------------

  class HkLock {
    var current: Tile
    var target: Tile
    var cancelPending: Option<nat>
    // The runtime's timers, by number.
    var timers: seq<Timer>

    function St(calls: seq<Call>): State
      reads this
    {
      State(current, target, cancelPending, timers, calls)
    }

    constructor ()
      ensures St([]) == INIT && Inv(St([]))
    {
      current, target, cancelPending, timers := Secured, Secured, None, [];
    }

    /** The body of the mutex in cancel and scheduleRelock: afterwards no timer is armed, and those that
        have gone off are left to their callbacks. */
    method CancelPending(ghost calls: seq<Call>)
      requires Inv(St(calls))
      modifies `cancelPending, `timers
      ensures St(calls) == CancelLocked(old(St(calls))) && cancelPending == None
      ensures |timers| == |old(timers)|
      ensures forall t :: 0 <= t < |timers| ==> timers[t] == if old(timers)[t] == Armed then Over else old(timers)[t]
    {
      if cancelPending.Some? {
        timers := StopTimer(timers, cancelPending.value);
        cancelPending := None;
      }
    }

    /** Afterwards exactly the new timer is armed, so the tile is going to be secured. */
    method Schedule(ghost calls: seq<Call>)
      requires Inv(St(calls))
      modifies `cancelPending, `timers
      ensures St(calls) == ScheduleRelock(old(St(calls))) && Inv(St(calls)) && WillSecure(St(calls))
      ensures |timers| == |old(timers)| + 1
      ensures forall t :: 0 <= t < |timers| ==> (timers[t] == Armed <==> t == |old(timers)|)
    {
      CancelPending(calls);
      cancelPending := Some(|timers|);
      timers := timers + [Armed];
      assert timers[|timers| - 1] == Armed;
    }

    /** One call's next step, for a call that stands at calls[i]. */
    method ProceedCall(calls: seq<Call>, i: nat) returns (next: Call)
      requires i < |calls| && Inv(St(calls))
      modifies this
      ensures St(calls[i := next]) == Advance(old(St(calls)), i) && Inv(St(calls[i := next]))
      ensures next == Scheduling ==> current == Unsecured && WillSecure(St(calls[i := next]))
      ensures next == Securing ==> forall t :: 0 <= t < |timers| ==> timers[t] != Armed
    {
      ProceedKeeps(St(calls), i);
      match calls[i] {
        case Opened => current := Unsecured; next := Scheduling;
        case Scheduling => Schedule(calls); next := Finished;
        case Cancelling => CancelPending(calls); next := Securing;
        case Securing => current := Secured; next := Finished;
        case _ => next := calls[i];
      }
      assert calls[i := next][i] == next;
    }
  }
}
