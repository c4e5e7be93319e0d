/** One HomeKit stream session (hkStreamSession in hkcamera.go). Setting up, starting and stopping
    each take the lock for a moment only, so any number of calls may overlap at any point. */
module HkCamera {
  import opened Text

  /** An SRTP forwarder around a bound socket; closing it twice closes the socket once. */
  datatype Forwarder = Forwarder(socket: nat, closed: bool)

  /** A reader context and the forwarder its reader feeds; `exited` once that reader has returned. */
  datatype Context = Context(forwarder: nat, cancelled: bool, running: bool, exited: bool)

  /** Where one call stands between its critical sections. */
  datatype Call =
    | Bound(socket: nat)                 // SetupEndpoints: the socket is bound, not yet published
    | Replacing(previous: Option<nat>)   // SetupEndpoints: published, the old socket is still to be closed
    | Starting                           // Start, Resume, or the second half of Reconfigure
    | Preparing(socket: nat)             // has read the pending setup
    | Installing(context: nat)           // has a forwarder and a context, not yet installed
    | Launching(context: nat)            // installed, the reader goroutine is about to start
    | Ending(thenStart: bool)            // End or Suspend; the first half of Reconfigure
    | Finished

  datatype State = State(pending: Option<nat>, cancel: Option<nat>, fwd: Option<nat>,
                         open: seq<bool>, forwarders: seq<Forwarder>, contexts: seq<Context>, calls: seq<Call>)

  function CloseSocket(st: State, s: nat): State {
    if s < |st.open| then st.(open := st.open[s := false]) else st
  }

  /** srtpForwarder.Close. */
  function CloseForwarder(st: State, f: nat): State {
    if f >= |st.forwarders| || st.forwarders[f].closed then st
    else CloseSocket(st, st.forwarders[f].socket).(forwarders := st.forwarders[f := st.forwarders[f].(closed := true)])
  }

  function CancelContext(st: State, c: nat): State {
    if c < |st.contexts| then st.(contexts := st.contexts[c := st.contexts[c].(cancelled := true)]) else st
  }

  function StopLocked(st: State): State {
    if st.cancel == None then st
    else
      var stopped := CancelContext(st, st.cancel.value).(cancel := None);
      if st.fwd.Some? then CloseForwarder(stopped, st.fwd.value).(fwd := None) else stopped
  }

  /** The critical section of startStream. */
  function Install(st: State, c: nat): State
    requires c < |st.contexts|
  {
    StopLocked(st).(cancel := Some(c), fwd := Some(st.contexts[c].forwarder))
  }

  datatype Action =
    | SetupEndpoints                       // binds a fresh socket
    | Select(stop: bool, start: bool)      // a session command: start, stop, or both
    | Proceed(call: nat, ok: bool)         // ok: whether marshalling or key setup works
    | ReaderExits(context: nat)

  function Step(st: State, a: Action): State {
    match a
    case SetupEndpoints => st.(open := st.open + [true], calls := st.calls + [Bound(|st.open|)])
    case Select(stop, start) =>
      st.(calls := st.calls + [if stop then Ending(start) else if start then Starting else Finished])
    case Proceed(i, ok) => if i < |st.calls| then Advance(st, i, ok) else st
    case ReaderExits(c) =>
      if c < |st.contexts| && st.contexts[c].running && st.contexts[c].cancelled && !st.contexts[c].exited
      then CloseForwarder(st.(contexts := st.contexts[c := st.contexts[c].(exited := true)]), st.contexts[c].forwarder)
      else st
  }

  function At(st: State, i: nat, c: Call): State
    requires i < |st.calls|
  {
    st.(calls := st.calls[i := c])
  }

  function Advance(st: State, i: nat, ok: bool): State
    requires i < |st.calls|
  {
    match st.calls[i]
    case Bound(s) =>
      if ok then At(st.(pending := Some(s)), i, Replacing(st.pending)) else At(CloseSocket(st, s), i, Finished)
    case Replacing(previous) => At(if previous.Some? then CloseSocket(st, previous.value) else st, i, Finished)
    case Starting => At(st, i, if st.pending.Some? then Preparing(st.pending.value) else Finished)
    case Preparing(s) =>
      if ok then At(st.(forwarders := st.forwarders + [Forwarder(s, false)],
                        contexts := st.contexts + [Context(|st.forwarders|, false, false, false)]),
                    i, Installing(|st.contexts|))
      else At(st, i, Finished)
    case Installing(c) => if c < |st.contexts| then At(Install(st, c), i, Launching(c)) else st
    case Launching(c) =>
      if c < |st.contexts|
      then At(st.(contexts := st.contexts[c := st.contexts[c].(running := true)]), i, Finished)
      else st
    case Ending(thenStart) => At(StopLocked(st), i, if thenStart then Starting else Finished)
    case Finished => st
  }

  const INIT := State(None, None, None, [], [], [], [])

  // ---- The invariant --------------------------------------------------------------------

  ghost predicate HasCall(st: State, c: Call) {
    exists i :: 0 <= i < |st.calls| && st.calls[i] == c
  }

  /** The socket a setup call still has to dispose of. */
  function Carried(c: Call): Option<nat> {
    match c
    case Bound(s) => Some(s)
    case Replacing(previous) => previous
    case _ => None
  }

  /** The socket is the pending setup's, or in the hands of a setup call. */
  ghost predicate Owned(st: State, s: nat) {
    st.pending == Some(s) || InHand(st.calls, s)
  }

  ghost predicate InHand(calls: seq<Call>, s: nat) {
    exists i :: 0 <= i < |calls| && Carried(calls[i]) == Some(s)
  }

  /** An uncancelled context is the stored one or about to be stored. */
  ghost predicate ContextOwned(st: State, c: nat) {
    st.cancel == Some(c) || HasCall(st, Installing(c))
  }

  ghost predicate Inv(st: State) {
    && (forall s :: 0 <= s < |st.open| && st.open[s] ==> Owned(st, s))
    && (forall c :: 0 <= c < |st.contexts| && !st.contexts[c].cancelled ==> ContextOwned(st, c))
    && (st.cancel.Some? ==> st.cancel.value < |st.contexts|) && (st.fwd.Some? ==> st.fwd.value < |st.forwarders|)
    && (forall c :: 0 <= c < |st.contexts| ==> st.contexts[c].forwarder < |st.forwarders|)
    && (forall i :: 0 <= i < |st.calls| && st.calls[i].Installing? ==> st.calls[i].context < |st.contexts|)
  }

  lemma StopLockedFacts(st: State)
    requires st.cancel.Some? ==> st.cancel.value < |st.contexts|
    ensures var g := StopLocked(st);
            && g.pending == st.pending && g.calls == st.calls && g.cancel == None
            && |g.open| == |st.open| && |g.contexts| == |st.contexts|
            && (forall s :: 0 <= s < |g.open| && g.open[s] ==> st.open[s])
            && (forall c :: 0 <= c < |g.contexts| ==>
                  (!g.contexts[c].cancelled <==> !st.contexts[c].cancelled && st.cancel != Some(c)))
  {
  }

  /** A call moved on: every other call still stands where it stood. */
  lemma Others(st: State, g: State, i: nat)
    requires i < |st.calls| == |g.calls| && forall j :: 0 <= j < |st.calls| && j != i ==> g.calls[j] == st.calls[j]
    ensures forall c :: HasCall(st, c) && c != st.calls[i] ==> HasCall(g, c)
  {
    forall c | HasCall(st, c) && c != st.calls[i]
      ensures HasCall(g, c)
    {
      var j :| 0 <= j < |st.calls| && st.calls[j] == c;
      assert g.calls[j] == c;
    }
  }

  /** A socket in some other call's hands stays there. */
  lemma HandsStay(calls: seq<Call>, i: nat, next: Call, s: nat)
    requires i < |calls| && InHand(calls, s) && Carried(calls[i]) != Some(s)
    ensures InHand(calls[i := next], s)
  {
    var j :| 0 <= j < |calls| && Carried(calls[j]) == Some(s);
    assert Carried(calls[i := next][j]) == Some(s);
  }

  lemma SetupKeeps(st: State, i: nat, ok: bool)
    requires Inv(st) && i < |st.calls| && (st.calls[i].Bound? || st.calls[i].Replacing?)
    ensures Inv(Advance(st, i, ok))
  {
    var g := Advance(st, i, ok);
    Others(st, g, i);
    assert g.calls[i] == g.calls[i];
    forall s | 0 <= s < |g.open| && g.open[s]
      ensures Owned(g, s)
    {
      assert Owned(st, s);
      if st.calls[i].Bound? && ok && st.pending == Some(s) { assert Carried(g.calls[i]) == Some(s); }
      if InHand(st.calls, s) && Carried(st.calls[i]) != Some(s) { HandsStay(st.calls, i, g.calls[i], s); }
    }
    forall c | 0 <= c < |g.contexts| && !g.contexts[c].cancelled
      ensures ContextOwned(g, c)
    {
      assert ContextOwned(st, c);
    }
  }

  lemma StartKeeps(st: State, i: nat, ok: bool)
    requires Inv(st) && i < |st.calls| && !st.calls[i].Bound? && !st.calls[i].Replacing?
    requires !st.calls[i].Installing? && !st.calls[i].Ending?
    ensures Inv(Advance(st, i, ok))
  {
    var g := Advance(st, i, ok);
    Others(st, g, i);
    forall s | 0 <= s < |g.open| && g.open[s]
      ensures Owned(g, s)
    {
      assert Owned(st, s);
    }
    forall c | 0 <= c < |g.contexts| && !g.contexts[c].cancelled
      ensures ContextOwned(g, c)
    {
      if c < |st.contexts| {
        assert ContextOwned(st, c);
      } else {
        assert g.calls[i] == Installing(c);
      }
    }
  }

  lemma StopKeeps(st: State, i: nat, ok: bool)
    requires Inv(st) && i < |st.calls| && (st.calls[i].Installing? || st.calls[i].Ending?)
    ensures Inv(Advance(st, i, ok))
  {
    var g := Advance(st, i, ok);
    StopLockedFacts(st);
    Others(st, g, i);
    forall s | 0 <= s < |g.open| && g.open[s]
      ensures Owned(g, s)
    {
      assert Owned(st, s);
    }
    forall c | 0 <= c < |g.contexts| && !g.contexts[c].cancelled
      ensures ContextOwned(g, c)
    {
      assert ContextOwned(st, c);
    }
  }

  lemma OutsideKeeps(st: State, a: Action)
    requires Inv(st) && !a.Proceed?
    ensures Inv(Step(st, a))
  {
    var g := Step(st, a);
    assert forall j :: 0 <= j < |st.calls| ==> g.calls[j] == st.calls[j];
    assert forall c :: HasCall(st, c) ==> HasCall(g, c);
    forall s | 0 <= s < |g.open| && g.open[s]
      ensures Owned(g, s)
    {
      if s < |st.open| { assert Owned(st, s); } else { assert g.calls[|st.calls|] == Bound(s); }
    }
    forall c | 0 <= c < |g.contexts| && !g.contexts[c].cancelled
      ensures ContextOwned(g, c)
    {
      assert ContextOwned(st, c);
    }
  }

  lemma StepKeeps(st: State, a: Action)
    requires Inv(st)
    ensures Inv(Step(st, a))
  {
    if a.Proceed? && a.call < |st.calls| {
      var c := st.calls[a.call];
      if c.Bound? || c.Replacing? { SetupKeeps(st, a.call, a.ok); }
      else if c.Installing? || c.Ending? { StopKeeps(st, a.call, a.ok); }
      else { StartKeeps(st, a.call, a.ok); }
    } else if !a.Proceed? {
      OutsideKeeps(st, a);
    }
  }

  // ---- Runs ------------------------------------------------------------------------------------

  ghost predicate Run(actions: seq<Action>, tr: seq<State>) {
    && |tr| == |actions| + 1 && tr[0] == INIT
    && forall i :: 0 <= i < |actions| ==> StepAt(actions, tr, i)
  }

  predicate StepAt(actions: seq<Action>, tr: seq<State>, i: nat)
    requires |tr| == |actions| + 1 && i < |actions|
  {
    tr[i + 1] == Step(tr[i], actions[i])
  }

  lemma {:induction false} RunInv(actions: seq<Action>, tr: seq<State>, n: nat)
    requires Run(actions, tr) && n < |tr|
    ensures Inv(tr[n])
  {
    if n > 0 {
      RunInv(actions, tr, n - 1);
      assert StepAt(actions, tr, n - 1);
      StepKeeps(tr[n - 1], actions[n - 1]);
    }
  }

  /** In every interleaving no socket and no reader context is lost: each is the session's own or in
      the hands of a call that has not finished. */
  lemma NothingLeaks(actions: seq<Action>, tr: seq<State>, n: nat)
    requires Run(actions, tr) && n < |tr|
    ensures forall s | 0 <= s < |tr[n].open| && tr[n].open[s] :: Owned(tr[n], s)
    ensures forall c | 0 <= c < |tr[n].contexts| && !tr[n].contexts[c].cancelled ::
              tr[n].cancel == Some(c) || HasCall(tr[n], Installing(c))
  {
    RunInv(actions, tr, n);
    var st := tr[n];
    forall c | 0 <= c < |st.contexts| && !st.contexts[c].cancelled
      ensures st.cancel == Some(c) || HasCall(st, Installing(c))
    {
      assert ContextOwned(st, c);
    }
  }

  predicate AtRest(st: State) {
    forall i :: 0 <= i < |st.calls| ==> st.calls[i] == Finished
  }

  /** At rest at most one socket is open and at most one context is uncancelled. */
  lemma AtRestOneOfEach(actions: seq<Action>, tr: seq<State>, n: nat)
    requires Run(actions, tr) && n < |tr| && AtRest(tr[n])
    ensures forall s, t | 0 <= s < |tr[n].open| && 0 <= t < |tr[n].open| ::
              tr[n].open[s] && tr[n].open[t] ==> s == t
    ensures forall c, d | 0 <= c < |tr[n].contexts| && 0 <= d < |tr[n].contexts| ::
              tr[n].contexts[c].cancelled || tr[n].contexts[d].cancelled || c == d
  {
    RunInv(actions, tr, n);
    var st := tr[n];
    forall s, t | 0 <= s < |st.open| && 0 <= t < |st.open| && st.open[s] && st.open[t]
      ensures s == t
    {
      assert Owned(st, s) && Owned(st, t);
    }
    forall c, d | && 0 <= c < |st.contexts| && !st.contexts[c].cancelled
                  && 0 <= d < |st.contexts| && !st.contexts[d].cancelled
      ensures c == d
    {
      assert ContextOwned(st, c) && ContextOwned(st, d);
    }
  }

  // ---- Stopping -----------------------------------------------------------------------------

  /** The live stream sends from this socket. */
  predicate LiveOn(st: State, s: nat) {
    && st.cancel.Some? && st.fwd.Some? && st.fwd.value < |st.forwarders|
    && st.forwarders[st.fwd.value] == Forwarder(s, false)
  }

  /** Stopping closes the live stream's socket and no other. */
  lemma StopLeavesSocketOpenIff(st: State, s: nat)
    requires s < |st.open|
    ensures StopLocked(st).open[s] <==> st.open[s] && !LiveOn(st, s)
  {
  }

  // ---- What ends a stream and what closes a socket ----------------------------------------------

  /** The call is at a point where it stops the stored stream: End, Suspend, or a start about to install. */
  predicate Stops(st: State, a: Action) {
    a.Proceed? && a.call < |st.calls| && (st.calls[a.call].Ending? || st.calls[a.call].Installing?)
  }

  lemma StopContext(st: State, c: nat)
    requires c < |st.contexts|
    ensures |StopLocked(st).contexts| == |st.contexts|
    ensures StopLocked(st).contexts[c]
         == if st.cancel == Some(c) then st.contexts[c].(cancelled := true) else st.contexts[c]
  {
  }

  /** What one step of a call does to a context. */
  lemma AdvanceContext(st: State, i: nat, ok: bool, c: nat)
    requires Inv(st) && i < |st.calls| && c < |st.contexts|
    ensures c < |Advance(st, i, ok).contexts|
    ensures Advance(st, i, ok).contexts[c]
         == if (st.calls[i].Ending? || st.calls[i].Installing?) && st.cancel == Some(c)
            then st.contexts[c].(cancelled := true)
            else if st.calls[i] == Launching(c) then st.contexts[c].(running := true)
            else st.contexts[c]
  {
    StopContext(st, c);
  }

  lemma ExitContext(st: State, d: nat, c: nat)
    requires c < |st.contexts|
    ensures c < |Step(st, ReaderExits(d)).contexts|
    ensures Step(st, ReaderExits(d)).contexts[c]
         == if c == d && st.contexts[c].running && st.contexts[c].cancelled
            then st.contexts[c].(exited := true) else st.contexts[c]
  {
  }

  /** In every run a context is cancelled exactly when it is the stored one and some call stops it. */
  lemma ContextEndsIff(actions: seq<Action>, tr: seq<State>, n: nat, c: nat)
    requires Run(actions, tr) && n < |actions| && c < |tr[n].contexts| && !tr[n].contexts[c].cancelled
    ensures c < |tr[n + 1].contexts| && tr[n + 1].contexts[c].forwarder == tr[n].contexts[c].forwarder
    ensures tr[n + 1].contexts[c].cancelled <==> Stops(tr[n], actions[n]) && tr[n].cancel == Some(c)
  {
    RunInv(actions, tr, n);
    assert StepAt(actions, tr, n);
    ContextStep(tr[n], actions[n], c);
  }

  /** Its reader runs from the launch on, and returns only after the cancellation. */
  lemma ReaderRunsIff(actions: seq<Action>, tr: seq<State>, n: nat, c: nat)
    requires Run(actions, tr) && n < |actions| && c < |tr[n].contexts|
    ensures c < |tr[n + 1].contexts|
    ensures var a, was, now := actions[n], tr[n].contexts[c], tr[n + 1].contexts[c];
            && (now.running <==> was.running || Launches(tr[n], a, c))
            && (now.exited <==> was.exited || (a == ReaderExits(c) && was.running && was.cancelled))
  {
    RunInv(actions, tr, n);
    assert StepAt(actions, tr, n);
    ContextStep(tr[n], actions[n], c);
  }

  predicate Launches(st: State, a: Action, c: nat) {
    a.Proceed? && a.call < |st.calls| && st.calls[a.call] == Launching(c)
  }

  lemma ContextStep(st: State, a: Action, c: nat)
    requires Inv(st) && c < |st.contexts|
    ensures c < |Step(st, a).contexts|
    ensures var was, now := st.contexts[c], Step(st, a).contexts[c];
            && now.forwarder == was.forwarder
            && (now.cancelled <==> was.cancelled || (Stops(st, a) && st.cancel == Some(c)))
            && (now.running <==> was.running || Launches(st, a, c))
            && (now.exited <==> was.exited || (a == ReaderExits(c) && was.running && was.cancelled))
  {
    match a
    case SetupEndpoints =>
    case Select(_, _) =>
    case Proceed(i, ok) => if i < |st.calls| { AdvanceContext(st, i, ok, c); }
    case ReaderExits(d) => ExitContext(st, d, c);
  }

  /** A setup call fails with the socket it has bound, or has replaced it in the pending setup. */
  predicate Disposes(st: State, a: Action, s: nat) {
    && a.Proceed? && a.call < |st.calls|
    && (st.calls[a.call] == Replacing(Some(s)) || (st.calls[a.call] == Bound(s) && !a.ok))
  }

  /** The reader of a cancelled context returns and its forwarder still sends from this socket. */
  predicate LetsGo(st: State, a: Action, s: nat) {
    && a.ReaderExits? && a.context < |st.contexts|
    && st.contexts[a.context].running && st.contexts[a.context].cancelled && !st.contexts[a.context].exited
    && st.contexts[a.context].forwarder < |st.forwarders|
    && st.forwarders[st.contexts[a.context].forwarder] == Forwarder(s, false)
  }

  lemma AdvanceSocket(st: State, i: nat, ok: bool, s: nat)
    requires Inv(st) && i < |st.calls| && s < |st.open| && st.open[s]
    ensures s < |Advance(st, i, ok).open|
    ensures !Advance(st, i, ok).open[s]
       <==> Disposes(st, Proceed(i, ok), s) || (Stops(st, Proceed(i, ok)) && LiveOn(st, s))
  {
    StopLeavesSocketOpenIff(st, s);
    StopLockedFacts(st);
  }

  lemma ExitSocket(st: State, c: nat, s: nat)
    requires Inv(st) && s < |st.open| && st.open[s]
    ensures s < |Step(st, ReaderExits(c)).open|
    ensures !Step(st, ReaderExits(c)).open[s] <==> LetsGo(st, ReaderExits(c), s)
  {
  }

  lemma SocketStep(st: State, a: Action, s: nat)
    requires Inv(st) && s < |st.open| && st.open[s]
    ensures s < |Step(st, a).open|
    ensures !Step(st, a).open[s] <==> Disposes(st, a, s) || (Stops(st, a) && LiveOn(st, s)) || LetsGo(st, a, s)
  {
    match a
    case SetupEndpoints =>
    case Select(_, _) =>
    case Proceed(i, ok) => if i < |st.calls| { AdvanceSocket(st, i, ok, s); }
    case ReaderExits(c) => ExitSocket(st, c, s);
  }

  /** In every run an open socket is closed by exactly these: a setup call that fails or has replaced it, a call
      that stops the stream that is live on it, and the exit of a cancelled reader that fed it. */
  lemma SocketClosesIff(actions: seq<Action>, tr: seq<State>, n: nat, s: nat)
    requires Run(actions, tr) && n < |actions| && s < |tr[n].open| && tr[n].open[s]
    ensures s < |tr[n + 1].open|
    ensures var a, st := actions[n], tr[n];
            !tr[n + 1].open[s] <==> Disposes(st, a, s) || (Stops(st, a) && LiveOn(st, s)) || LetsGo(st, a, s)
  {
    RunInv(actions, tr, n);
    assert StepAt(actions, tr, n);
    SocketStep(tr[n], actions[n], s);
  }

  /** A session that is ended or suspended has nothing stored; a setup that works is the pending one. */
  lemma EndAndSetupTakeEffect(st: State, i: nat)
    requires Inv(st) && i < |st.calls|
    ensures st.calls[i] == Ending(false) ==>
              var g := Step(st, Proceed(i, true)); g.cancel == None && g.calls == st.calls[i := Finished]
    ensures forall s | st.calls[i] == Bound(s) ::
              Step(st, Proceed(i, true)) == st.(pending := Some(s), calls := st.calls[i := Replacing(st.pending)])
  {
    StopLockedFacts(st);
  }

  // ---- The session itself ----------------------------------------------------------------------------

  class StreamSession {
    var pending: Option<nat>
    var cancel: Option<nat>
    var fwd: Option<nat>
    // The runtime's sockets, forwarders and contexts, by number.
    var open: seq<bool>
    var forwarders: seq<Forwarder>
    var contexts: seq<Context>

    function St(calls: seq<Call>): State
      reads this
    {
      State(pending, cancel, fwd, open, forwarders, contexts, calls)
    }

    constructor ()
      ensures St([]) == INIT && Inv(St([]))
    {
      pending, cancel, fwd, open, forwarders, contexts := None, None, None, [], [], [];
    }

    /** Closes the forwarder's socket, unless that has been done before; every other socket stays. */
    method CloseFwd(f: nat, ghost calls: seq<Call>)
      requires Inv(St(calls)) && f < |forwarders|
      modifies `forwarders, `open
      ensures St(calls) == CloseForwarder(old(St(calls)), f) && Inv(St(calls))
      ensures |open| == |old(open)| && |forwarders| == |old(forwarders)| && forwarders[f].closed
      ensures forall s :: 0 <= s < |open| ==> (open[s] <==> old(open)[s] && old(forwarders)[f] != Forwarder(s, false))
    {
      ghost var st := St(calls);
      if !forwarders[f].closed {
        var s := forwarders[f].socket;
        forwarders := forwarders[f := forwarders[f].(closed := true)];
        if s < |open| { open := open[s := false]; }
      }
      ClosingKeeps(st, f);
    }

    /** Afterwards nothing is stored and what was stored is over: its context is cancelled, the socket it
        was live on is closed, and all other sockets stay. */
    method Stop(ghost calls: seq<Call>) returns (stopped: bool)
      requires Inv(St(calls))
      modifies this
      ensures St(calls) == StopLocked(old(St(calls))) && Inv(St(calls))
      ensures stopped == old(cancel).Some? && cancel == None && |contexts| == |old(contexts)|
      ensures stopped ==> contexts[old(cancel).value].cancelled
      ensures |open| == |old(open)|
      ensures forall s :: 0 <= s < |open| ==> (open[s] <==> old(open)[s] && !old(LiveOn(St(calls), s)))
    {
      ghost var st := St(calls);
      StoppingKeeps(st);
      if cancel == None { return false; }
      contexts := contexts[cancel.value := contexts[cancel.value].(cancelled := true)];
      cancel := None;
      if fwd.Some? {
        CloseFwd(fwd.value, calls);
        fwd := None;
      }
      stopped := true;
    }

    /** Stores the stream that the call calls[i] has prepared, in place of whatever was live. */
    method InstallStream(c: nat, ghost calls: seq<Call>, ghost i: nat)
      requires Inv(St(calls)) && i < |calls| && calls[i] == Installing(c)
      modifies this
      ensures St(calls[i := Launching(c)]) == Advance(old(St(calls)), i, true) && Inv(St(calls[i := Launching(c)]))
      ensures cancel == Some(c) && c < |contexts| && fwd == Some(contexts[c].forwarder)
      ensures old(cancel).Some? && old(cancel) != Some(c) ==> contexts[old(cancel).value].cancelled
      ensures |open| == |old(open)|
      ensures forall s :: 0 <= s < |open| ==> (open[s] <==> old(open)[s] && !old(LiveOn(St(calls), s)))
    {
      StopKeeps(St(calls), i, true);
      var f := contexts[c].forwarder;
      var _ := Stop(calls);
      fwd, cancel := Some(f), Some(c);
    }
  }

  lemma ClosingKeeps(st: State, f: nat)
    requires Inv(st) && f < |st.forwarders|
    ensures Inv(CloseForwarder(st, f))
  {
    var g := CloseForwarder(st, f);
    forall s | 0 <= s < |g.open| && g.open[s]
      ensures Owned(g, s)
    {
      assert Owned(st, s);
    }
    assert forall c :: ContextOwned(st, c) ==> ContextOwned(g, c);
  }

  lemma StoppingKeeps(st: State)
    requires Inv(st)
    ensures Inv(StopLocked(st))
  {
    var g := StopLocked(st);
    StopLockedFacts(st);
    forall s | 0 <= s < |g.open| && g.open[s]
      ensures Owned(g, s)
    {
      assert Owned(st, s);
    }
    forall c | 0 <= c < |g.contexts| && !g.contexts[c].cancelled
      ensures ContextOwned(g, c)
    {
      assert ContextOwned(st, c);
    }
  }
}
