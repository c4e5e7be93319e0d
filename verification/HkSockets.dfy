/** Whether the socket a HomeKit stream sends from is open (hkcamera.go): the pending setup, a stream
    and a setup call in progress may share one socket, and each of them may close it. */
module HkSockets {
  import opened Text
  import opened HkCamera

  /** A stream on this socket has been closed. */
  ghost predicate Burned(forwarders: seq<Forwarder>, s: nat) {
    exists f :: 0 <= f < |forwarders| && forwarders[f] == Forwarder(s, true)
  }

  // ---- The invariant ----------------------------------------------------------------------

  /** No socket is in two hands at once. */
  ghost predicate OneOwner(st: State) {
    && (st.pending.Some? ==> st.pending.value < |st.open|)
    && (forall i :: 0 <= i < |st.calls| && Carried(st.calls[i]).Some? ==>
          Carried(st.calls[i]).value < |st.open| && Carried(st.calls[i]) != st.pending)
    && (forall i, j :: 0 <= i < j < |st.calls| && Carried(st.calls[i]).Some? ==>
          Carried(st.calls[i]) != Carried(st.calls[j]))
  }

  ghost predicate InRange(st: State) {
    && (forall f :: 0 <= f < |st.forwarders| ==> st.forwarders[f].socket < |st.open|)
    && (forall c :: 0 <= c < |st.contexts| ==> st.contexts[c].forwarder < |st.forwarders|)
    && (forall i :: 0 <= i < |st.calls| && st.calls[i].Preparing? ==> st.calls[i].socket < |st.open|)
    && (forall i :: 0 <= i < |st.calls| && (st.calls[i].Installing? || st.calls[i].Launching?) ==>
          st.calls[i].context < |st.contexts|)
  }

  /** A socket is open exactly while somebody owns it and no stream on it has been closed. */
  ghost predicate OpenIff(st: State) {
    forall s :: 0 <= s < |st.open| ==> (st.open[s] <==> Owned(st, s) && !Burned(st.forwarders, s))
  }

  /** A start call is about to install this forwarder. */
  ghost predicate Coming(st: State, f: nat) {
    exists i :: 0 <= i < |st.calls| && st.calls[i].Installing? && st.calls[i].context < |st.contexts|
             && st.contexts[st.calls[i].context].forwarder == f
  }

  /** The stored context and forwarder go together; any other forwarder is closed or about to be stored. */
  ghost predicate StreamsKnown(st: State) {
    && (st.cancel == None <==> st.fwd == None)
    && (st.cancel.Some? ==> st.cancel.value < |st.contexts| && st.fwd == Some(st.contexts[st.cancel.value].forwarder))
    && (forall f :: 0 <= f < |st.forwarders| ==> st.forwarders[f].closed || st.fwd == Some(f) || Coming(st, f))
  }

  ghost predicate SocketInv(st: State) {
    OneOwner(st) && InRange(st) && OpenIff(st) && StreamsKnown(st)
  }

  // ---- Closing a forwarder -------------------------------------------------------------------

  lemma BurnedBy(fs: seq<Forwarder>, f: nat, s: nat)
    requires f < |fs|
    ensures Burned(fs[f := fs[f].(closed := true)], s) <==> Burned(fs, s) || s == fs[f].socket
  {
    var gs := fs[f := fs[f].(closed := true)];
    if g :| 0 <= g < |fs| && fs[g] == Forwarder(s, true) {
      assert gs[g] == Forwarder(s, true);
    }
    if g :| 0 <= g < |gs| && gs[g] == Forwarder(s, true) {
      assert g == f || fs[g] == gs[g];
    }
    assert gs[f] == Forwarder(fs[f].socket, true);
  }

  lemma CloseKeepsOpenIff(st: State, f: nat)
    requires OpenIff(st) && InRange(st) && f < |st.forwarders|
    ensures OpenIff(CloseForwarder(st, f)) && InRange(CloseForwarder(st, f))
  {
    var g := CloseForwarder(st, f);
    if !st.forwarders[f].closed {
      forall s | 0 <= s < |g.open|
        ensures g.open[s] <==> Owned(g, s) && !Burned(g.forwarders, s)
      {
        BurnedBy(st.forwarders, f, s);
        assert Owned(g, s) <==> Owned(st, s);
      }
    }
  }

  lemma CloseKeepsStreams(st: State, f: nat)
    requires StreamsKnown(st) && f < |st.forwarders|
    ensures StreamsKnown(CloseForwarder(st, f))
  {
    var g := CloseForwarder(st, f);
    forall k | 0 <= k < |g.forwarders|
      ensures g.forwarders[k].closed || g.fwd == Some(k) || Coming(g, k)
    {
      assert st.forwarders[k].closed || st.fwd == Some(k) || Coming(st, k);
      assert Coming(st, k) ==> Coming(g, k);
    }
  }

  /** Stopping keeps all of it, and leaves open exactly the sockets no live stream was on. */
  lemma StopKeepsSockets(st: State)
    requires OpenIff(st) && InRange(st) && StreamsKnown(st)
    ensures var g := StopLocked(st);
            && OpenIff(g) && InRange(g) && StreamsKnown(g) && g.cancel == None
            && |g.open| == |st.open| && |g.forwarders| == |st.forwarders| && |g.contexts| == |st.contexts|
            && g.pending == st.pending && g.calls == st.calls
            && (forall c :: 0 <= c < |g.contexts| ==> g.contexts[c].forwarder == st.contexts[c].forwarder)
            && (forall f :: 0 <= f < |g.forwarders| ==> g.forwarders[f].socket == st.forwarders[f].socket)
  {
    if st.cancel.Some? {
      var f := st.fwd.value;
      var c := CancelContext(st, st.cancel.value).(cancel := None, fwd := None);
      var h := CloseForwarder(st, f);
      CloseKeepsOpenIff(st, f);
      var g := StopLocked(st);
      assert g == h.(contexts := c.contexts, cancel := None, fwd := None);
      forall s | 0 <= s < |g.open|
        ensures g.open[s] <==> Owned(g, s) && !Burned(g.forwarders, s)
      {
        assert Owned(g, s) <==> Owned(h, s);
      }
      forall k | 0 <= k < |g.forwarders|
        ensures g.forwarders[k].closed || Coming(g, k)
      {
        assert st.forwarders[k].closed || k == f || Coming(st, k);
        assert Coming(st, k) ==> Coming(g, k);
      }
    }
  }

  // ---- Every step ------------------------------------------------------------------------------

  /** A call that carries nothing moved on to another that carries nothing. */
  lemma SameHands(calls: seq<Call>, i: nat, next: Call, s: nat)
    requires i < |calls| && Carried(calls[i]) == None && Carried(next) == None
    ensures InHand(calls[i := next], s) <==> InHand(calls, s)
  {
    var after := calls[i := next];
    if j :| 0 <= j < |calls| && Carried(calls[j]) == Some(s) {
      assert Carried(after[j]) == Some(s);
    }
    if j :| 0 <= j < |after| && Carried(after[j]) == Some(s) {
      assert Carried(calls[j]) == Some(s);
    }
  }

  /** A call let go of what it carried, which nobody else has. */
  lemma LetGo(st: State, i: nat, next: Call, s: nat)
    requires OneOwner(st) && i < |st.calls| && Carried(st.calls[i]).Some? && Carried(next) == None
    ensures InHand(st.calls[i := next], s) <==> InHand(st.calls, s) && Carried(st.calls[i]) != Some(s)
  {
    var after := st.calls[i := next];
    if j :| 0 <= j < |st.calls| && Carried(st.calls[j]) == Some(s) {
      assert j != i ==> Carried(after[j]) == Some(s);
    }
    if j :| 0 <= j < |after| && Carried(after[j]) == Some(s) {
      assert j != i && Carried(st.calls[j]) == Some(s);
      assert Carried(st.calls[i]) != Carried(st.calls[j]) by { if i < j {} else {} }
    }
  }

  /** What a new pending setup does to the hands: the call gives its socket and takes the old one. */
  lemma Swap(st: State, i: nat, s: nat)
    requires OneOwner(st) && i < |st.calls| && st.calls[i].Bound?
    ensures var g := Advance(st, i, true);
            OneOwner(g) && (Owned(g, s) <==> Owned(st, s))
  {
    var g := Advance(st, i, true);
    if j :| 0 <= j < |st.calls| && Carried(st.calls[j]) == Some(s) {
      assert j != i ==> Carried(g.calls[j]) == Some(s);
    }
    if j :| 0 <= j < |g.calls| && Carried(g.calls[j]) == Some(s) {
      assert j != i ==> Carried(st.calls[j]) == Some(s);
    }
    assert Carried(g.calls[i]) == st.pending;
    assert Carried(st.calls[i]) == Some(st.calls[i].socket);
  }

  lemma ComingStays(st: State, g: State, i: nat, f: nat)
    requires Coming(st, f) && i < |st.calls| == |g.calls| && !st.calls[i].Installing?
    requires forall j :: 0 <= j < |st.calls| && j != i ==> g.calls[j] == st.calls[j]
    requires |st.contexts| <= |g.contexts|
    requires forall c :: 0 <= c < |st.contexts| ==> g.contexts[c].forwarder == st.contexts[c].forwarder
    ensures Coming(g, f)
  {
    var j :| 0 <= j < |st.calls| && st.calls[j].Installing? && st.calls[j].context < |st.contexts|
          && st.contexts[st.calls[j].context].forwarder == f;
    assert g.calls[j] == st.calls[j];
  }

  lemma PublishKeeps(st: State, i: nat)
    requires SocketInv(st) && i < |st.calls| && st.calls[i].Bound?
    ensures SocketInv(Advance(st, i, true))
  {
    var g := Advance(st, i, true);
    Swap(st, i, 0);
    forall s | 0 <= s < |g.open|
      ensures g.open[s] <==> Owned(g, s) && !Burned(g.forwarders, s)
    {
      Swap(st, i, s);
    }
    forall f | 0 <= f < |g.forwarders|
      ensures g.forwarders[f].closed || g.fwd == Some(f) || Coming(g, f)
    {
      if Coming(st, f) { ComingStays(st, g, i, f); }
    }
  }

  /** A setup call closes the socket it carries: its own, or the replaced setup's. */
  lemma DisposeKeeps(st: State, i: nat, ok: bool)
    requires SocketInv(st) && i < |st.calls| && ((st.calls[i].Bound? && !ok) || st.calls[i].Replacing?)
    ensures SocketInv(Advance(st, i, ok))
  {
    var g := Advance(st, i, ok);
    forall s | 0 <= s < |g.open|
      ensures g.open[s] <==> Owned(g, s) && !Burned(g.forwarders, s)
    {
      if Carried(st.calls[i]).Some? { LetGo(st, i, Finished, s); } else { SameHands(st.calls, i, Finished, s); }
    }
    forall f | 0 <= f < |g.forwarders|
      ensures g.forwarders[f].closed || g.fwd == Some(f) || Coming(g, f)
    {
      if Coming(st, f) { ComingStays(st, g, i, f); }
    }
  }

  lemma LaunchKeeps(st: State, i: nat, ok: bool)
    requires SocketInv(st) && i < |st.calls|
    requires st.calls[i].Starting? || st.calls[i].Launching? || st.calls[i].Finished? || (st.calls[i].Preparing? && !ok)
    ensures SocketInv(Advance(st, i, ok))
  {
    var g := Advance(st, i, ok);
    forall s | 0 <= s < |g.open|
      ensures g.open[s] <==> Owned(g, s) && !Burned(g.forwarders, s)
    {
      SameHands(st.calls, i, g.calls[i], s);
    }
    forall f | 0 <= f < |g.forwarders|
      ensures g.forwarders[f].closed || g.fwd == Some(f) || Coming(g, f)
    {
      if Coming(st, f) { ComingStays(st, g, i, f); }
    }
  }

  lemma PrepareKeeps(st: State, i: nat)
    requires SocketInv(st) && i < |st.calls| && st.calls[i].Preparing?
    ensures SocketInv(Advance(st, i, true))
  {
    var g := Advance(st, i, true);
    forall s | 0 <= s < |g.open|
      ensures g.open[s] <==> Owned(g, s) && !Burned(g.forwarders, s)
    {
      SameHands(st.calls, i, g.calls[i], s);
      NewUnburned(st.forwarders, st.calls[i].socket, s);
    }
    forall f | 0 <= f < |g.forwarders|
      ensures g.forwarders[f].closed || g.fwd == Some(f) || Coming(g, f)
    {
      if f == |st.forwarders| { assert g.calls[i] == Installing(|st.contexts|); }
      else if Coming(st, f) { ComingStays(st, g, i, f); }
    }
  }

  lemma NewUnburned(fs: seq<Forwarder>, socket: nat, s: nat)
    ensures Burned(fs + [Forwarder(socket, false)], s) <==> Burned(fs, s)
  {
    var gs := fs + [Forwarder(socket, false)];
    if f :| 0 <= f < |fs| && fs[f] == Forwarder(s, true) {
      assert gs[f] == Forwarder(s, true);
    }
    if f :| 0 <= f < |gs| && gs[f] == Forwarder(s, true) {
      assert f < |fs|;
    }
  }

  lemma InstallKeeps(st: State, i: nat, ok: bool)
    requires SocketInv(st) && i < |st.calls| && st.calls[i].Installing?
    ensures SocketInv(Advance(st, i, ok))
  {
    var c := st.calls[i].context;
    var stopped, g := StopLocked(st), Advance(st, i, ok);
    StopKeepsSockets(st);
    forall s | 0 <= s < |g.open|
      ensures g.open[s] <==> Owned(g, s) && !Burned(g.forwarders, s)
    {
      SameHands(st.calls, i, g.calls[i], s);
      assert stopped.open[s] <==> Owned(stopped, s) && !Burned(stopped.forwarders, s);
    }
    forall f | 0 <= f < |g.forwarders|
      ensures g.forwarders[f].closed || g.fwd == Some(f) || Coming(g, f)
    {
      assert stopped.forwarders[f].closed || Coming(stopped, f);
      if Coming(stopped, f) && g.fwd != Some(f) { ComingElsewhere(stopped, g, i, f); }
    }
  }

  lemma ComingElsewhere(st: State, g: State, i: nat, f: nat)
    requires Coming(st, f) && i < |st.calls| == |g.calls| && st.calls[i].Installing?
    requires st.calls[i].context < |st.contexts| && st.contexts[st.calls[i].context].forwarder != f
    requires forall j :: 0 <= j < |st.calls| && j != i ==> g.calls[j] == st.calls[j]
    requires g.contexts == st.contexts
    ensures Coming(g, f)
  {
    var j :| 0 <= j < |st.calls| && st.calls[j].Installing? && st.calls[j].context < |st.contexts|
          && st.contexts[st.calls[j].context].forwarder == f;
    assert g.calls[j] == st.calls[j];
  }

  lemma EndKeeps(st: State, i: nat, ok: bool)
    requires SocketInv(st) && i < |st.calls| && st.calls[i].Ending?
    ensures SocketInv(Advance(st, i, ok))
  {
    var stopped, g := StopLocked(st), Advance(st, i, ok);
    StopKeepsSockets(st);
    forall s | 0 <= s < |g.open|
      ensures g.open[s] <==> Owned(g, s) && !Burned(g.forwarders, s)
    {
      SameHands(st.calls, i, g.calls[i], s);
      assert stopped.open[s] <==> Owned(stopped, s) && !Burned(stopped.forwarders, s);
    }
    forall f | 0 <= f < |g.forwarders|
      ensures g.forwarders[f].closed || g.fwd == Some(f) || Coming(g, f)
    {
      if Coming(stopped, f) { ComingStays(stopped, g, i, f); }
    }
  }

  lemma ExitKeeps(st: State, c: nat)
    requires SocketInv(st)
    ensures SocketInv(Step(st, ReaderExits(c)))
  {
    if c < |st.contexts| && st.contexts[c].running && st.contexts[c].cancelled && !st.contexts[c].exited {
      var h := st.(contexts := st.contexts[c := st.contexts[c].(exited := true)]);
      forall s | 0 <= s < |h.open|
        ensures h.open[s] <==> Owned(h, s) && !Burned(h.forwarders, s)
      {
        assert Owned(h, s) <==> Owned(st, s);
      }
      forall f | 0 <= f < |h.forwarders|
        ensures h.forwarders[f].closed || h.fwd == Some(f) || Coming(h, f)
      {
        assert Coming(st, f) ==> Coming(h, f);
      }
      CloseKeepsOpenIff(h, st.contexts[c].forwarder);
      CloseKeepsStreams(h, st.contexts[c].forwarder);
    }
  }

  lemma HandsAppend(calls: seq<Call>, c: Call, s: nat)
    ensures InHand(calls + [c], s) <==> InHand(calls, s) || Carried(c) == Some(s)
  {
    var after := calls + [c];
    if j :| 0 <= j < |calls| && Carried(calls[j]) == Some(s) {
      assert Carried(after[j]) == Some(s);
    }
    assert Carried(after[|calls|]) == Carried(c);
  }

  lemma ComingAppend(st: State, g: State, c: Call, f: nat)
    requires Coming(st, f) && g.calls == st.calls + [c] && g.contexts == st.contexts
    ensures Coming(g, f)
  {
    var j :| 0 <= j < |st.calls| && st.calls[j].Installing? && st.calls[j].context < |st.contexts|
          && st.contexts[st.calls[j].context].forwarder == f;
    assert g.calls[j] == st.calls[j];
  }

  lemma NewCallKeeps(st: State, a: Action, c: Call)
    requires SocketInv(st)
    requires a == SetupEndpoints || a.Select?
    requires c == if a == SetupEndpoints then Bound(|st.open|)
                  else if a.stop then Ending(a.start) else if a.start then Starting else Finished
    ensures SocketInv(Step(st, a))
  {
    var g := Step(st, a);
    assert g.calls == st.calls + [c];
    forall s | 0 <= s < |g.open|
      ensures g.open[s] <==> Owned(g, s) && !Burned(g.forwarders, s)
    {
      HandsAppend(st.calls, c, s);
    }
    forall f | 0 <= f < |g.forwarders|
      ensures g.forwarders[f].closed || g.fwd == Some(f) || Coming(g, f)
    {
      if Coming(st, f) { ComingAppend(st, g, c, f); }
    }
  }

  lemma StepKeepsSockets(st: State, a: Action)
    requires SocketInv(st)
    ensures SocketInv(Step(st, a))
  {
    match a
    case SetupEndpoints => NewCallKeeps(st, a, Bound(|st.open|));
    case Select(stop, start) =>
      NewCallKeeps(st, a, if stop then Ending(start) else if start then Starting else Finished);
    case ReaderExits(c) => ExitKeeps(st, c);
    case Proceed(i, ok) => if i < |st.calls| { AdvanceKeepsSockets(st, i, ok); }
  }

  lemma AdvanceKeepsSockets(st: State, i: nat, ok: bool)
    requires SocketInv(st) && i < |st.calls|
    ensures SocketInv(Advance(st, i, ok))
  {
    match st.calls[i]
    case Bound(_) => if ok { PublishKeeps(st, i); } else { DisposeKeeps(st, i, ok); }
    case Replacing(_) => DisposeKeeps(st, i, ok);
    case Preparing(_) => if ok { PrepareKeeps(st, i); } else { LaunchKeeps(st, i, ok); }
    case Installing(_) => InstallKeeps(st, i, ok);
    case Ending(_) => EndKeeps(st, i, ok);
    case _ => LaunchKeeps(st, i, ok);
  }

  // ---- Runs ---------------------------------------------------------------------------------------

  lemma {:induction false} RunSockets(actions: seq<Action>, tr: seq<State>, n: nat)
    requires Run(actions, tr) && n < |tr|
    ensures SocketInv(tr[n])
  {
    if n > 0 {
      RunSockets(actions, tr, n - 1);
      assert StepAt(actions, tr, n - 1);
      StepKeepsSockets(tr[n - 1], actions[n - 1]);
    }
  }

  /** In every interleaving, the socket the stored stream sends from is open exactly while it is the
      pending setup's, or a setup call has yet to close it, and no earlier stream on it has been closed. */
  lemma StreamSocketOpenIff(actions: seq<Action>, tr: seq<State>, n: nat)
    requires Run(actions, tr) && n < |tr| && tr[n].fwd.Some?
    ensures tr[n].fwd.value < |tr[n].forwarders| && tr[n].forwarders[tr[n].fwd.value].socket < |tr[n].open|
    ensures var s := tr[n].forwarders[tr[n].fwd.value].socket;
            tr[n].open[s] <==> Owned(tr[n], s) && !Burned(tr[n].forwarders, s)
  {
    RunSockets(actions, tr, n);
  }

  /** When a start call stores its stream, with whatever other calls have done since it read the pending
      setup, the stream's socket is open exactly if, just before, that setup was still pending or yet to
      be closed, and no stream on its socket was live or had been closed. */
  lemma InstalledSocketOpenIff(actions: seq<Action>, tr: seq<State>, n: nat, i: nat)
    requires Run(actions, tr) && n < |actions| && actions[n].Proceed? && actions[n].call == i
    requires i < |tr[n].calls| && tr[n].calls[i].Installing?
    ensures var c := tr[n].calls[i].context;
            && c < |tr[n].contexts| && tr[n].contexts[c].forwarder < |tr[n].forwarders|
            && tr[n + 1].cancel == Some(c) && tr[n + 1].fwd == Some(tr[n].contexts[c].forwarder)
            && var s := tr[n].forwarders[tr[n].contexts[c].forwarder].socket;
               && s < |tr[n].open| == |tr[n + 1].open|
               && (tr[n + 1].open[s] <==>
                   Owned(tr[n], s) && !Burned(tr[n].forwarders, s) && !LiveOn(tr[n], s))
  {
    RunSockets(actions, tr, n);
    assert StepAt(actions, tr, n);
    var s := tr[n].forwarders[tr[n].contexts[tr[n].calls[i].context].forwarder].socket;
    StopLeavesSocketOpenIff(tr[n], s);
  }

  // ---- Whole calls, one at a time -------------------------------------------------------------------

  ghost predicate Reachable(st: State) {
    exists actions, tr :: Run(actions, tr) && tr[|tr| - 1] == st
  }

  lemma ReachableInv(st: State)
    requires Reachable(st)
    ensures SocketInv(st)
  {
    var actions, tr :| Run(actions, tr) && tr[|tr| - 1] == st;
    RunSockets(actions, tr, |tr| - 1);
  }

  lemma InitReachable()
    ensures Reachable(INIT)
  {
    assert Run([], [INIT]);
  }

  lemma StepReachable(st: State, a: Action)
    requires Reachable(st)
    ensures Reachable(Step(st, a))
  {
    var actions, tr :| Run(actions, tr) && tr[|tr| - 1] == st;
    var actions', tr' := actions + [a], tr + [Step(st, a)];
    forall i | 0 <= i < |actions'|
      ensures StepAt(actions', tr', i)
    {
      if i < |actions| { assert StepAt(actions, tr, i); }
    }
    assert Run(actions', tr');
  }

  /** A step of one call, with nothing going wrong. */
  function Once(st: State, i: nat): State {
    Step(st, Proceed(i, true))
  }

  function Twice(st: State, i: nat): State {
    Once(Once(st, i), i)
  }

  /** A SetupEndpoints call from start to end. */
  function SetupCall(st: State): State {
    Twice(Step(st, SetupEndpoints), |st.calls|)
  }

  /** A Start or Resume call from start to end; with `stop` a Reconfigure call. */
  function StartCall(st: State, stop: bool): State {
    var i, chosen := |st.calls|, Step(st, Select(stop, true));
    Twice(Twice(if stop then Once(chosen, i) else chosen, i), i)
  }

  lemma TwiceReachable(st: State, i: nat)
    requires Reachable(st)
    ensures Reachable(Once(st, i)) && Reachable(Twice(st, i))
  {
    StepReachable(st, Proceed(i, true));
    StepReachable(Once(st, i), Proceed(i, true));
  }

  lemma SetupReachable(st: State)
    requires Reachable(st)
    ensures Reachable(SetupCall(st))
  {
    StepReachable(st, SetupEndpoints);
    TwiceReachable(Step(st, SetupEndpoints), |st.calls|);
  }

  lemma StartReachable(st: State, stop: bool)
    requires Reachable(st)
    ensures Reachable(StartCall(st, stop))
  {
    var i, chosen := |st.calls|, Step(st, Select(stop, true));
    StepReachable(st, Select(stop, true));
    TwiceReachable(chosen, i);
    var b := if stop then Once(chosen, i) else chosen;
    TwiceReachable(b, i);
    TwiceReachable(Twice(b, i), i);
  }

  /** A start call up to the point where it has made its forwarder. */
  function Prepared(st: State, i: nat, s: nat): State
    requires i < |st.calls|
  {
    st.(forwarders := st.forwarders + [Forwarder(s, false)],
        contexts := st.contexts + [Context(|st.forwarders|, false, false, false)],
        calls := st.calls[i := Installing(|st.contexts|)])
  }

  lemma StartPrepares(st: State, i: nat, s: nat)
    requires i < |st.calls| && st.calls[i] == Starting && st.pending == Some(s)
    ensures Twice(st, i) == Prepared(st, i, s)
  {
    assert st.calls[i := Preparing(s)][i := Installing(|st.contexts|)] == st.calls[i := Installing(|st.contexts|)];
  }

  lemma PreparedInstalls(st: State, i: nat, s: nat)
    requires SocketInv(st) && i < |st.calls| && st.calls[i] == Starting && st.pending == Some(s)
    ensures var g := Twice(Prepared(st, i, s), i);
            && g.calls == st.calls[i := Finished] && StoredOn(st, g, s)
            && (g.open[s] <==> st.open[s] && !LiveOn(st, s))
  {
    var p := Prepared(st, i, s);
    var stopped := StopLocked(p);
    StopLeavesSocketOpenIff(p, s);
    assert LiveOn(p, s) <==> LiveOn(st, s);
    assert stopped.forwarders[|st.forwarders|] == Forwarder(s, false);
    var c := |st.contexts|;
    assert st.calls[i := Installing(c)][i := Launching(c)][i := Finished] == st.calls[i := Finished];
  }

  /** g has stored a new stream on socket s. */
  predicate StoredOn(st: State, g: State, s: nat) {
    && g.pending == st.pending && g.cancel.Some? && g.fwd == Some(|st.forwarders|)
    && |g.forwarders| == |st.forwarders| + 1 && g.forwarders[|st.forwarders|] == Forwarder(s, false)
    && s < |st.open| == |g.open|
  }

  lemma StartCallEnds(st: State, s: nat)
    requires SocketInv(st) && AtRest(st) && st.pending == Some(s)
    ensures var g := StartCall(st, false);
            AtRest(g) && StoredOn(st, g, s) && (g.open[s] <==> st.open[s] && !LiveOn(st, s))
  {
    var i, a := |st.calls|, Step(st, Select(false, true));
    StepKeepsSockets(st, Select(false, true));
    StartPrepares(a, i, s);
    PreparedInstalls(a, i, s);
    assert LiveOn(a, s) <==> LiveOn(st, s);
  }

  lemma ReconfigureCallEnds(st: State, s: nat)
    requires SocketInv(st) && AtRest(st) && st.pending == Some(s)
    ensures var g := StartCall(st, true);
            AtRest(g) && StoredOn(st, g, s) && (g.open[s] <==> st.open[s] && !LiveOn(st, s))
  {
    var i, a := |st.calls|, Step(st, Select(true, true));
    var b := Advance(a, i, true);
    ReconfigureStops(st, s);
    StartPrepares(b, i, s);
    PreparedInstalls(b, i, s);
  }

  lemma ReconfigureStops(st: State, s: nat)
    requires SocketInv(st) && AtRest(st) && st.pending == Some(s)
    ensures var b := Advance(Step(st, Select(true, true)), |st.calls|, true);
            && SocketInv(b) && b.calls == st.calls + [Starting] && b.pending == st.pending && b.cancel == None
            && |b.forwarders| == |st.forwarders| && |b.open| == |st.open|
            && (b.open[s] <==> st.open[s] && !LiveOn(st, s))
  {
    var i, a := |st.calls|, Step(st, Select(true, true));
    StepKeepsSockets(st, Select(true, true));
    AdvanceKeepsSockets(a, i, true);
    StopKeepsSockets(a);
    StopLeavesSocketOpenIff(a, s);
    assert LiveOn(a, s) <==> LiveOn(st, s);
  }

  /** From rest, a Start, Resume or Reconfigure leaves its stream on an open socket exactly when it is the
      first to use the pending setup: when no stream has been started on that setup's socket before. */
  lemma OnlyFirstStartWorks(st: State, s: nat, stop: bool)
    requires Reachable(st) && AtRest(st) && st.pending == Some(s)
    ensures var g := StartCall(st, stop);
            && Reachable(g) && AtRest(g) && StoredOn(st, g, s)
            && (g.open[s] <==> forall f :: 0 <= f < |st.forwarders| ==> st.forwarders[f].socket != s)
  {
    ReachableInv(st);
    StartReachable(st, stop);
    if stop { ReconfigureCallEnds(st, s); } else { StartCallEnds(st, s); }
    UnusedIff(st, s);
  }

  lemma UnusedIff(st: State, s: nat)
    requires SocketInv(st) && AtRest(st) && st.pending == Some(s)
    ensures st.open[s] && !LiveOn(st, s) <==> forall f :: 0 <= f < |st.forwarders| ==> st.forwarders[f].socket != s
  {
    assert st.open[s] <==> !Burned(st.forwarders, s);
    forall f | 0 <= f < |st.forwarders| && st.forwarders[f].socket == s
      ensures Burned(st.forwarders, s) || LiveOn(st, s)
    {
      assert st.forwarders[f] == Forwarder(s, true) || st.forwarders[f] == Forwarder(s, false);
      assert !Coming(st, f);
    }
  }

  /** From rest, a SetupEndpoints always leaves the stored stream on a closed socket, although nothing has
      stopped that stream. */
  lemma SetupCutsOffStream(st: State)
    requires Reachable(st) && AtRest(st) && st.fwd.Some? && st.cancel.Some?
    ensures var g := SetupCall(st);
            && Reachable(g) && AtRest(g) && g.fwd == st.fwd && g.cancel == st.cancel
            && g.contexts == st.contexts && g.forwarders == st.forwarders
            && st.fwd.value < |st.forwarders| && st.forwarders[st.fwd.value].socket < |g.open|
            && !g.open[st.forwarders[st.fwd.value].socket]
            && g.pending == Some(|st.open|) && |g.open| == |st.open| + 1 && g.open[|st.open|]
  {
    ReachableInv(st);
    SetupReachable(st);
    var s := st.forwarders[st.fwd.value].socket;
    assert !InHand(st.calls, s);
    assert SetupCall(st).calls == st.calls + [Finished];
  }

  /** The runs themselves: after a first setup and start the stream sends from an open socket; a
      Reconfigure, a second Start and a second setup each leave it on a closed one. */
  lemma StreamLosesItsSocket() returns (live: State)
    ensures Reachable(live) && AtRest(live) && live == StartCall(SetupCall(INIT), false)
    ensures live.fwd == Some(0) && live.forwarders == [Forwarder(0, false)] && live.open == [true]
    ensures forall stop :: StoredOn(live, StartCall(live, stop), 0) && !StartCall(live, stop).open[0]
    ensures var g := SetupCall(live); g.fwd == Some(0) && g.cancel == live.cancel && g.open == [false, true]
  {
    InitReachable();
    SetupReachable(INIT);
    var ready := SetupCall(INIT);
    assert ready == State(Some(0), None, None, [true], [], [], [Finished]);
    OnlyFirstStartWorks(ready, 0, false);
    live := StartCall(ready, false);
    assert live.open == [true] && live.forwarders == [Forwarder(0, false)];
    forall stop
      ensures StoredOn(live, StartCall(live, stop), 0) && !StartCall(live, stop).open[0]
    {
      OnlyFirstStartWorks(live, 0, stop);
      assert live.forwarders[0].socket == 0;
    }
    SetupCutsOffStream(live);
  }
}
