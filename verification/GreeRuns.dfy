/** Status and Set calls on the air conditioner client (gree.go), interleaved in any way: each takes the
    client's lock several times, and another call may reset the client in between. */
module GreeRuns {
  import opened Text
  import opened Gree

  // ---- Interleavings --------------------------------------------------------------------------

  /** Where one call of Status or Set stands between its critical sections. */
  datatype Call =
    | StatusEnsures              // Status: its own ensureKey
    | StatusReadsCid
    | RequestEnsures(cid: Option<string>)   // the device id Status has read; None for Set
    | RequestSends(cid: Option<string>)
    | Resets
    | Offline                    // over: Status without a key
    | Failed                     // over: after a reset
    | Answered(answer: Answer)   // over
    | Crashed                    // the address was nil where the code dereferences it

  datatype System = System(client: State, calls: seq<Call>)

  datatype Action =
    | Status
    | Set(known: bool)                      // known: every parameter has a column and there is one
    | Proceed(call: nat, script: Script)

  function Advance(client: State, call: Call, script: Script, mac: string, unpack: Unpack): (Call, State) {
    match call
    case StatusEnsures =>
      var (failure, after) := Ensured(client, script, mac, unpack);
      (if failure.None? then StatusReadsCid else Offline, after)
    case StatusReadsCid => (RequestEnsures(Some(client.cid)), client)
    case RequestEnsures(cid) =>
      var (failure, after) := Ensured(client, script, mac, unpack);
      (if failure.None? then RequestSends(cid) else Resets, after)
    case RequestSends(_) =>
      (match Requested(client, script, unpack)
       case (Ok(answer), after) => (Answered(answer), after)
       case (Err(f), after) => (if f == NilAddress then Crashed else Resets, after))
    case Resets => (Failed, AfterReset(client))
    case _ => (call, client)
  }

  function Step(sys: System, a: Action, mac: string, unpack: Unpack): System {
    match a
    case Status => sys.(calls := sys.calls + [StatusEnsures])
    case Set(known) => sys.(calls := sys.calls + [if known then RequestEnsures(None) else Failed])
    case Proceed(i, script) =>
      if i >= |sys.calls| then sys
      else
        var (call, client) := Advance(sys.client, sys.calls[i], script, mac, unpack);
        System(client, sys.calls[i := call])
  }

  // ---- The invariant ------------------------------------------------------------------------------

  /** An answer opens with the device key and came from the bonded unit itself. */
  predicate Genuine(a: Answer, mac: string, unpack: Unpack) {
    && Bonded(a.client, mac, unpack)
    && a.target == a.client.bond.value.target
    && a.d.src == a.client.addr.value && unpack(a.client.key.value, a.d.pack).Some?
  }

  predicate Sound(call: Call, mac: string, unpack: Unpack) {
    match call
    case RequestEnsures(Some(cid)) => cid == "" || IsOurUnit(cid, mac)
    case RequestSends(Some(cid)) => cid == "" || IsOurUnit(cid, mac)
    case Answered(answer) => Genuine(answer, mac, unpack)
    case Crashed => false
    case _ => true
  }

  ghost predicate Inv(sys: System, mac: string, unpack: Unpack) {
    && Linked(sys.client, mac, unpack)
    && forall i :: 0 <= i < |sys.calls| ==> Sound(sys.calls[i], mac, unpack)
  }

  lemma RequestIsGenuine(st: State, script: Script, mac: string, unpack: Unpack)
    requires Linked(st, mac, unpack)
    ensures var (r, after) := Requested(st, script, unpack);
            && Linked(after, mac, unpack)
            && (r.Ok? ==> Genuine(r.value, mac, unpack))
            && r != Err(NilAddress)
  {
  }

  lemma AdvanceKeeps(client: State, call: Call, script: Script, mac: string, unpack: Unpack)
    requires Linked(client, mac, unpack) && Sound(call, mac, unpack)
    ensures var (next, after) := Advance(client, call, script, mac, unpack);
            Linked(after, mac, unpack) && Sound(next, mac, unpack)
  {
    if (call.StatusEnsures? || call.RequestEnsures?) && client.key.None? {
      HandshakeLinks(client, script, mac, unpack);
    } else if call.RequestSends? {
      RequestIsGenuine(client, script, mac, unpack);
    }
  }

  lemma StepKeeps(sys: System, a: Action, mac: string, unpack: Unpack)
    requires Inv(sys, mac, unpack)
    ensures Inv(Step(sys, a, mac, unpack), mac, unpack)
  {
    if a.Proceed? && a.call < |sys.calls| {
      AdvanceKeeps(sys.client, sys.calls[a.call], a.script, mac, unpack);
    }
  }

  // ---- Runs ---------------------------------------------------------------------------------------------

  ghost predicate Run(actions: seq<Action>, tr: seq<System>, mac: string, unpack: Unpack) {
    && |tr| == |actions| + 1 && tr[0] == System(FRESH, [])
    && forall i :: 0 <= i < |actions| ==> StepAt(actions, tr, i, mac, unpack)
  }

  predicate StepAt(actions: seq<Action>, tr: seq<System>, i: nat, mac: string, unpack: Unpack)
    requires |tr| == |actions| + 1 && i < |actions|
  {
    tr[i + 1] == Step(tr[i], actions[i], mac, unpack)
  }

  lemma {:induction false} RunInv(actions: seq<Action>, tr: seq<System>, mac: string, unpack: Unpack, n: nat)
    requires Run(actions, tr, mac, unpack) && n < |tr|
    ensures Inv(tr[n], mac, unpack)
  {
    if n > 0 {
      RunInv(actions, tr, mac, unpack, n - 1);
      assert StepAt(actions, tr, n - 1, mac, unpack);
      StepKeeps(tr[n - 1], actions[n - 1], mac, unpack);
    }
  }

  /** The id in a scan reply: the cid, or the mac where there is no cid. */
  predicate Reports(scan: Datagram, id: string, unpack: Unpack) {
    match unpack(GENERIC_KEY, scan.pack)
    case None => false
    case Some(inner) => id == if inner.cid == "" then inner.mac else inner.cid
  }

  /** In every interleaving a key comes with the address it was issued from, the device id that was
      scanned there, which is the client's MAC if it has one, and the route its bind took. */
  lemma KeyNeverStrays(actions: seq<Action>, tr: seq<System>, mac: string, unpack: Unpack, n: nat)
    requires Run(actions, tr, mac, unpack) && n < |tr| && tr[n].client.key.Some?
    ensures var c := tr[n].client;
            && c.addr.Some? && c.bond.Some? && Reports(c.bond.value.scan, c.cid, unpack)
            && c.cid != "" && (mac == "" || Normalize(c.cid) == mac)
            && c.bond.value.scan.src == c.bond.value.bind.src == c.addr.value
            && (c.broadcastOnly <==> c.bond.value.target == Broadcast)
  {
    RunInv(actions, tr, mac, unpack, n);
  }

  /** Whatever Status or Set hands out was sent by the unit that answered the scan with the configured
      MAC and that issued the key the answer opens with; the request took the route that bind took. */
  lemma AnswersAreTheUnits(actions: seq<Action>, tr: seq<System>, mac: string, unpack: Unpack, n: nat, i: nat)
    requires Run(actions, tr, mac, unpack) && n < |tr|
    requires i < |tr[n].calls| && tr[n].calls[i].Answered?
    ensures var a := tr[n].calls[i].answer;
            && a.client.bond.Some? && a.client.key.Some?
            && var b := a.client.bond.value;
               && a.d.src == b.bind.src == b.scan.src && a.target == b.target
               && Reports(b.scan, a.client.cid, unpack)
               && a.client.cid != "" && (mac == "" || Normalize(a.client.cid) == mac)
               && unpack(GENERIC_KEY, b.bind.pack).Some?
               && unpack(unpack(GENERIC_KEY, b.bind.pack).value.key, a.d.pack).Some?
  {
    RunInv(actions, tr, mac, unpack, n);
    assert Sound(tr[n].calls[i], mac, unpack);
  }

  /** No interleaving ever dereferences a missing address. */
  lemma NeverCrashes(actions: seq<Action>, tr: seq<System>, mac: string, unpack: Unpack, n: nat, i: nat)
    requires Run(actions, tr, mac, unpack) && n < |tr| && i < |tr[n].calls|
    ensures !tr[n].calls[i].Crashed?
  {
    RunInv(actions, tr, mac, unpack, n);
    assert Sound(tr[n].calls[i], mac, unpack);
  }

  lemma RequestRefused(st: State, script: Script, unpack: Unpack)
    ensures Requested(st, script, unpack).0 == Err(BadKey) <==> !Usable(st.key)
    ensures !Usable(st.key) ==> Requested(st, script, unpack).1 == st
  {
  }

  /** In every run: a call whose key has been reset, or is of no use to AES, by the time it has the lock
      fails in greeEncrypt whatever the network would do. The client is left as it was, no answer is
      handed out, and the call goes on to reset. */
  lemma RequestNeedsKey(actions: seq<Action>, tr: seq<System>, mac: string, unpack: Unpack, n: nat, i: nat)
    requires Run(actions, tr, mac, unpack) && n < |actions| && actions[n].Proceed? && actions[n].call == i
    requires i < |tr[n].calls| && tr[n].calls[i].RequestSends?
    requires tr[n].client.key.Some? ==> |tr[n].client.key.value| !in {16, 24, 32}
    ensures tr[n + 1] == System(tr[n].client, tr[n].calls[i := Resets])
  {
    assert StepAt(actions, tr, n, mac, unpack);
    RequestRefused(tr[n].client, actions[n].script, unpack);
  }

  /** How calls begin: Set gives up at once on a parameter that has no column. */
  lemma CallsBegin(actions: seq<Action>, tr: seq<System>, mac: string, unpack: Unpack, n: nat)
    requires Run(actions, tr, mac, unpack) && n < |actions| && !actions[n].Proceed?
    ensures tr[n + 1].client == tr[n].client
    ensures tr[n + 1].calls
         == tr[n].calls + [if actions[n] == Status then StatusEnsures
                           else if actions[n] == Set(true) then RequestEnsures(None)
                           else Failed]
  {
    assert StepAt(actions, tr, n, mac, unpack);
  }

  /** And how they go on: past an ensureKey exactly when it leaves a key. Without one Status reports the unit
      offline, and a request resets. */
  lemma CallsGoOn(actions: seq<Action>, tr: seq<System>, mac: string, unpack: Unpack, n: nat, i: nat)
    requires Run(actions, tr, mac, unpack) && n < |actions| && actions[n].Proceed? && actions[n].call == i
    requires i < |tr[n].calls|
    ensures i < |tr[n + 1].calls|
    ensures var was, now, keyed := tr[n].calls[i], tr[n + 1].calls[i], tr[n + 1].client.key.Some?;
            match was
            case StatusEnsures => now == if keyed then StatusReadsCid else Offline
            case StatusReadsCid => now == RequestEnsures(Some(tr[n].client.cid))
            case RequestEnsures(cid) => now == if keyed then RequestSends(cid) else Resets
            case RequestSends(_) => now.Answered? || now == Resets
            case Resets => now == Failed
            case _ => now == was
  {
    RunInv(actions, tr, mac, unpack, n);
    assert StepAt(actions, tr, n, mac, unpack);
    var c, was := tr[n].client, tr[n].calls[i];
    if was.StatusEnsures? || was.RequestEnsures? {
      if c.key.None? { HandshakeLinks(c, actions[n].script, mac, unpack); }
    } else if was.RequestSends? {
      RequestIsGenuine(c, actions[n].script, mac, unpack);
    }
  }

  /** A reset forgets all there is to know about the unit except the route, and ends its call. */
  lemma ResetForgets(actions: seq<Action>, tr: seq<System>, mac: string, unpack: Unpack, n: nat, i: nat)
    requires Run(actions, tr, mac, unpack) && n < |actions| && actions[n].Proceed? && actions[n].call == i
    requires i < |tr[n].calls| && tr[n].calls[i] == Resets
    ensures var was, now := tr[n].client, tr[n + 1].client;
            && now.addr == None && now.cid == "" && now.key == None
            && now.broadcastOnly == was.broadcastOnly && now.connected == was.connected
    ensures tr[n + 1].calls == tr[n].calls[i := Failed]
  {
    assert StepAt(actions, tr, n, mac, unpack);
  }

  /** Another call that has failed may reset between a call's ensureKey and its own lock; the
      address is gone as well then, and the request fails before it is used. */
  lemma ResetInBetween(actions: seq<Action>, tr: seq<System>, mac: string, unpack: Unpack, n: nat, i: nat, j: nat)
    requires Run(actions, tr, mac, unpack) && n + 1 < |actions|
    requires actions[n].Proceed? && actions[n].call == j && actions[n + 1].Proceed? && actions[n + 1].call == i
    requires j < |tr[n].calls| && tr[n].calls[j] == Resets
    requires i < |tr[n].calls| && tr[n].calls[i].RequestSends?
    ensures tr[n + 1].client.addr == None && tr[n + 2].client == tr[n + 1].client
    ensures i < |tr[n + 2].calls| && tr[n + 2].calls[i] == Resets
  {
    assert StepAt(actions, tr, n, mac, unpack);
    RequestNeedsKey(actions, tr, mac, unpack, n + 1, i);
  }
}
