/** The viewer-counted camera pulls of streamhub.go. Every method holds the hub's lock from start to
    end, so a run of the hub is a sequence of whole calls, interleaved with timers that go off and
    with idle callbacks that may be late in getting the lock. */
module StreamHub {
  import opened Text

  /** A time.AfterFunc timer: armed, gone off with its callback still waiting for the lock, or over. */
  datatype Phase = Armed | InFlight | Over

  datatype Timer = Timer(cam: string, phase: Phase)

  /** One start-to-stop pull of a camera; `exited` once its goroutine has returned. */
  datatype Pull = Pull(cam: string, cancelled: bool, exited: bool)

  /** One successful acquire, and whether its release function has run. */
  datatype Hold = Hold(cam: string, released: bool)

  datatype Cam = Cam(viewers: int, idleTimer: Option<nat>, run: Option<nat>)

  datatype State = State(cams: map<string, Cam>, closed: bool, timers: seq<Timer>, pulls: seq<Pull>, holds: seq<Hold>)

  // ---- The critical sections --------------------------------------------------------

  /** Timer.Stop: too late once the timer has gone off. */
  function Stop(timers: seq<Timer>, t: Option<nat>): (r: seq<Timer>)
    ensures |r| == |timers|
  {
    if t.Some? && t.value < |timers| && timers[t.value].phase == Armed
    then timers[t.value := timers[t.value].(phase := Over)]
    else timers
  }

  function Cancel(pulls: seq<Pull>, r: Option<nat>): (p: seq<Pull>)
    ensures |p| == |pulls|
  {
    if r.Some? && r.value < |pulls| then pulls[r.value := pulls[r.value].(cancelled := true)] else pulls
  }

  function AfterAcquire(h: State, name: string): (State, Option<nat>) {
    if name !in h.cams || h.closed then (h, None)
    else
      var cam := h.cams[name];
      var start := cam.run == None;
      var run := if start then Some(|h.pulls|) else cam.run;
      (State(h.cams[name := Cam(cam.viewers + 1, None, run)], h.closed, Stop(h.timers, cam.idleTimer),
           if start then h.pulls + [Pull(name, false, false)] else h.pulls, h.holds + [Hold(name, false)]),
       Some(|h.holds|))
  }

  /** The release function of a hold; every call but the first does nothing. */
  function AfterRelease(h: State, id: nat): State {
    if id >= |h.holds| || h.holds[id].released || h.holds[id].cam !in h.cams then h
    else
      var name := h.holds[id].cam;
      var cam := h.cams[name];
      var held := h.holds[id := Hold(name, true)];
      if cam.viewers - 1 > 0 || h.closed
      then h.(cams := h.cams[name := cam.(viewers := cam.viewers - 1)], holds := held)
      else h.(cams := h.cams[name := Cam(cam.viewers - 1, Some(|h.timers|), cam.run)], holds := held,
              timers := h.timers + [Timer(name, Armed)])
  }

  /** The idle callback, once it has the lock. */
  function AfterCallback(h: State, t: nat): State {
    if t >= |h.timers| || h.timers[t].phase != InFlight || h.timers[t].cam !in h.cams then h
    else
      var name := h.timers[t].cam;
      var cam := h.cams[name];
      var over := h.(timers := h.timers[t := Timer(name, Over)]);
      if cam.viewers == 0 && cam.run.Some?
      then over.(pulls := Cancel(h.pulls, cam.run), cams := h.cams[name := cam.(run := None)])
      else over
  }

  predicate IsIdleTimer(h: State, t: nat)
    requires t < |h.timers|
  {
    h.timers[t].cam in h.cams && h.cams[h.timers[t].cam].idleTimer == Some(t)
  }

  predicate IsRun(h: State, r: nat)
    requires r < |h.pulls|
  {
    h.pulls[r].cam in h.cams && h.cams[h.pulls[r].cam].run == Some(r)
  }

  /** Close, up to the point where it starts waiting for the goroutines. */
  function AfterClose(h: State): State {
    State(map name | name in h.cams :: h.cams[name].(run := None), true,
        seq(|h.timers|, t requires 0 <= t < |h.timers| =>
          if IsIdleTimer(h, t) && h.timers[t].phase == Armed then h.timers[t].(phase := Over) else h.timers[t]),
        seq(|h.pulls|, r requires 0 <= r < |h.pulls| =>
          if IsRun(h, r) then h.pulls[r].(cancelled := true) else h.pulls[r]),
        h.holds)
  }

  datatype Action =
    | DoAcquire(cam: string)
    | DoRelease(hold: nat)
    | DoClose
    | GoOff(timer: nat)      // the timer expires
    | DoCallback(timer: nat) // its callback gets the lock
    | Exit(pull: nat)        // a pull goroutine notices its cancellation and returns

  function Step(h: State, a: Action): State {
    match a
    case DoAcquire(cam) => AfterAcquire(h, cam).0
    case DoRelease(id) => AfterRelease(h, id)
    case DoClose => AfterClose(h)
    case GoOff(t) =>
      if t < |h.timers| && h.timers[t].phase == Armed
      then h.(timers := h.timers[t := h.timers[t].(phase := InFlight)]) else h
    case DoCallback(t) => AfterCallback(h, t)
    case Exit(r) =>
      if r < |h.pulls| && h.pulls[r].cancelled
      then h.(pulls := h.pulls[r := h.pulls[r].(exited := true)]) else h
  }

  function Init(names: set<string>): State {
    State(map name | name in names :: Cam(0, None, None), false, [], [], [])
  }

  // ---- The invariant -----------------------------------------------------------------------

  function Holders(holds: seq<Hold>, name: string): set<nat> {
    set i | 0 <= i < |holds| && holds[i].cam == name && !holds[i].released
  }

  ghost predicate CamInv(h: State, name: string)
    requires name in h.cams
  {
    var c := h.cams[name];
    && c.viewers == |Holders(h.holds, name)|
    && (c.idleTimer.Some? ==> c.idleTimer.value < |h.timers| && h.timers[c.idleTimer.value].cam == name)
    && (c.run.Some? ==> c.run.value < |h.pulls| && h.pulls[c.run.value].cam == name && !h.pulls[c.run.value].cancelled)
    && (h.closed ==> c.run == None)
    && (!h.closed && c.viewers > 0 ==> c.run.Some?)
    && (c.run.Some? && c.viewers == 0 ==> Ticking(h, name))
  }

  /** An idle timer of this camera is armed, or its callback is on its way. */
  ghost predicate Ticking(h: State, name: string) {
    exists t :: 0 <= t < |h.timers| && h.timers[t].cam == name && h.timers[t].phase != Over
  }

  ghost predicate TimerInv(h: State, t: nat)
    requires t < |h.timers|
  {
    && h.timers[t].cam in h.cams
    && (h.timers[t].phase == Armed ==>
        !h.closed && h.cams[h.timers[t].cam].idleTimer == Some(t) && h.cams[h.timers[t].cam].viewers == 0)
  }

  ghost predicate PullInv(h: State, r: nat)
    requires r < |h.pulls|
  {
    && h.pulls[r].cam in h.cams
    && (!h.pulls[r].cancelled ==> h.cams[h.pulls[r].cam].run == Some(r))
    && (h.pulls[r].exited ==> h.pulls[r].cancelled)
  }

  ghost predicate Inv(h: State) {
    && (forall name :: name in h.cams ==> CamInv(h, name))
    && (forall t :: 0 <= t < |h.timers| ==> TimerInv(h, t))
    && (forall r :: 0 <= r < |h.pulls| ==> PullInv(h, r))
    && (forall i :: 0 <= i < |h.holds| ==> h.holds[i].cam in h.cams)
  }

  lemma HoldersAcquire(holds: seq<Hold>, name: string, other: string)
    ensures |Holders(holds + [Hold(name, false)], name)| == |Holders(holds, name)| + 1
    ensures other != name ==> Holders(holds + [Hold(name, false)], other) == Holders(holds, other)
  {
    assert Holders(holds + [Hold(name, false)], name) == Holders(holds, name) + {|holds|};
  }

  lemma HoldersRelease(holds: seq<Hold>, id: nat, other: string)
    requires id < |holds| && !holds[id].released
    ensures |Holders(holds[id := Hold(holds[id].cam, true)], holds[id].cam)| == |Holders(holds, holds[id].cam)| - 1
    ensures other != holds[id].cam ==> Holders(holds[id := Hold(holds[id].cam, true)], other) == Holders(holds, other)
  {
    assert id in Holders(holds, holds[id].cam);
    assert Holders(holds[id := Hold(holds[id].cam, true)], holds[id].cam) == Holders(holds, holds[id].cam) - {id};
  }

  lemma AcquireCams(h: State, name: string)
    requires Inv(h) && name in h.cams && !h.closed
    ensures var g := AfterAcquire(h, name).0; forall other :: other in g.cams ==> CamInv(g, other)
  {
    var g := AfterAcquire(h, name).0;
    assert CamInv(h, name);
    forall other | other in g.cams
      ensures CamInv(g, other)
    {
      assert CamInv(h, other);
      HoldersAcquire(h.holds, name, other);
      if other != name && g.cams[other].run.Some? && g.cams[other].viewers == 0 {
        var t :| 0 <= t < |h.timers| && h.timers[t].cam == other && h.timers[t].phase != Over;
        assert g.timers[t] == h.timers[t];
      }
    }
  }

  lemma AcquireTimers(h: State, name: string)
    requires Inv(h) && name in h.cams && !h.closed
    ensures var g := AfterAcquire(h, name).0; forall u :: 0 <= u < |g.timers| ==> TimerInv(g, u)
  {
    var g := AfterAcquire(h, name).0;
    assert CamInv(h, name);
    forall t | 0 <= t < |g.timers|
      ensures TimerInv(g, t)
    {
      assert TimerInv(h, t);
    }
  }

  lemma AcquirePulls(h: State, name: string)
    requires Inv(h) && name in h.cams && !h.closed
    ensures var g := AfterAcquire(h, name).0; forall p :: 0 <= p < |g.pulls| ==> PullInv(g, p)
  {
    var g := AfterAcquire(h, name).0;
    assert CamInv(h, name);
    forall r | 0 <= r < |g.pulls|
      ensures PullInv(g, r)
    {
      if r < |h.pulls| { assert PullInv(h, r); }
    }
  }

  lemma AcquireKeeps(h: State, name: string)
    requires Inv(h)
    ensures Inv(AfterAcquire(h, name).0)
  {
    if name in h.cams && !h.closed {
      AcquireCams(h, name);
      AcquireTimers(h, name);
      AcquirePulls(h, name);
    }
  }

  lemma ReleaseCams(h: State, id: nat)
    requires Inv(h) && id < |h.holds| && !h.holds[id].released
    ensures var g := AfterRelease(h, id); forall other :: other in g.cams ==> CamInv(g, other)
  {
    var g, name := AfterRelease(h, id), h.holds[id].cam;
    assert CamInv(h, name);
    forall other | other in g.cams
      ensures CamInv(g, other)
    {
      assert CamInv(h, other);
      HoldersRelease(h.holds, id, other);
      if g.cams[other].run.Some? && g.cams[other].viewers == 0 {
        if other == name {
          assert g.timers[|h.timers|].cam == name;
        } else {
          var t :| 0 <= t < |h.timers| && h.timers[t].cam == other && h.timers[t].phase != Over;
          assert g.timers[t] == h.timers[t];
        }
      }
    }
  }

  lemma ReleaseTimers(h: State, id: nat)
    requires Inv(h) && id < |h.holds| && !h.holds[id].released
    ensures var g := AfterRelease(h, id); forall u :: 0 <= u < |g.timers| ==> TimerInv(g, u)
  {
    var g, name := AfterRelease(h, id), h.holds[id].cam;
    assert CamInv(h, name);
    forall t | 0 <= t < |g.timers|
      ensures TimerInv(g, t)
    {
      HoldersRelease(h.holds, id, name);
      if t < |h.timers| { assert TimerInv(h, t); }
    }
  }

  lemma ReleasePulls(h: State, id: nat)
    requires Inv(h) && id < |h.holds| && !h.holds[id].released
    ensures var g := AfterRelease(h, id); forall p :: 0 <= p < |g.pulls| ==> PullInv(g, p)
  {
    var g, name := AfterRelease(h, id), h.holds[id].cam;
    assert CamInv(h, name);
    forall r | 0 <= r < |g.pulls|
      ensures PullInv(g, r)
    {
      assert PullInv(h, r);
    }
  }

  lemma ReleaseKeeps(h: State, id: nat)
    requires Inv(h)
    ensures Inv(AfterRelease(h, id))
  {
    if id < |h.holds| && !h.holds[id].released {
      ReleaseCams(h, id);
      ReleaseTimers(h, id);
      ReleasePulls(h, id);
    }
  }

  lemma CallbackCams(h: State, t: nat)
    requires Inv(h) && t < |h.timers| && h.timers[t].phase == InFlight
    ensures var g := AfterCallback(h, t); forall other :: other in g.cams ==> CamInv(g, other)
  {
    var g, name := AfterCallback(h, t), h.timers[t].cam;
    assert TimerInv(h, t) && CamInv(h, name);
    forall other | other in g.cams
      ensures CamInv(g, other)
    {
      assert CamInv(h, other);
      if g.cams[other].run.Some? && g.cams[other].viewers == 0 {
        var u :| 0 <= u < |h.timers| && h.timers[u].cam == other && h.timers[u].phase != Over;
        assert g.timers[u] == h.timers[u];
      }
    }
  }

  lemma CallbackTimers(h: State, t: nat)
    requires Inv(h) && t < |h.timers| && h.timers[t].phase == InFlight
    ensures var g := AfterCallback(h, t); forall u :: 0 <= u < |g.timers| ==> TimerInv(g, u)
  {
    var g, name := AfterCallback(h, t), h.timers[t].cam;
    assert TimerInv(h, t) && CamInv(h, name);
    forall u | 0 <= u < |g.timers|
      ensures TimerInv(g, u)
    {
      assert TimerInv(h, u);
    }
  }

  lemma CallbackPulls(h: State, t: nat)
    requires Inv(h) && t < |h.timers| && h.timers[t].phase == InFlight
    ensures var g := AfterCallback(h, t); forall p :: 0 <= p < |g.pulls| ==> PullInv(g, p)
  {
    var g, name := AfterCallback(h, t), h.timers[t].cam;
    assert TimerInv(h, t) && CamInv(h, name);
    forall r | 0 <= r < |g.pulls|
      ensures PullInv(g, r)
    {
      assert PullInv(h, r);
    }
  }

  lemma CallbackKeeps(h: State, t: nat)
    requires Inv(h)
    ensures Inv(AfterCallback(h, t))
  {
    if t < |h.timers| && h.timers[t].phase == InFlight {
      CallbackCams(h, t);
      CallbackTimers(h, t);
      CallbackPulls(h, t);
    }
  }

  lemma GoOffCams(h: State, t: nat)
    requires Inv(h)
    ensures var g := Step(h, GoOff(t)); forall other :: other in g.cams ==> CamInv(g, other)
  {
    var g := Step(h, GoOff(t));
    forall other | other in g.cams
      ensures CamInv(g, other)
    {
      assert CamInv(h, other);
      if g.cams[other].run.Some? && g.cams[other].viewers == 0 {
        var u :| 0 <= u < |h.timers| && h.timers[u].cam == other && h.timers[u].phase != Over;
        assert g.timers[u].cam == other && g.timers[u].phase != Over;
      }
    }
  }

  lemma GoOffKeeps(h: State, t: nat)
    requires Inv(h)
    ensures Inv(Step(h, GoOff(t)))
  {
    var g := Step(h, GoOff(t));
    GoOffCams(h, t);
    forall u | 0 <= u < |g.timers|
      ensures TimerInv(g, u)
    {
      assert TimerInv(h, u);
    }
    forall r | 0 <= r < |g.pulls|
      ensures PullInv(g, r)
    {
      assert PullInv(h, r);
    }
  }

  lemma ExitKeeps(h: State, r: nat)
    requires Inv(h)
    ensures Inv(Step(h, Exit(r)))
  {
    var g := Step(h, Exit(r));
    forall other | other in g.cams
      ensures CamInv(g, other)
    {
      assert CamInv(h, other);
      assert Ticking(h, other) ==> Ticking(g, other);
    }
    forall u | 0 <= u < |g.timers|
      ensures TimerInv(g, u)
    {
      assert TimerInv(h, u);
    }
    forall p | 0 <= p < |g.pulls|
      ensures PullInv(g, p)
    {
      assert PullInv(h, p);
    }
  }

  lemma CloseKeeps(h: State)
    requires Inv(h)
    ensures Inv(AfterClose(h))
  {
    var g := AfterClose(h);
    forall other | other in g.cams
      ensures CamInv(g, other)
    {
      assert CamInv(h, other);
    }
    forall u | 0 <= u < |g.timers|
      ensures TimerInv(g, u)
    {
      assert TimerInv(h, u);
    }
    forall p | 0 <= p < |g.pulls|
      ensures PullInv(g, p)
    {
      assert PullInv(h, p);
    }
  }

  lemma StepKeeps(h: State, a: Action)
    requires Inv(h)
    ensures Inv(Step(h, a))
  {
    match a
    case DoAcquire(cam) => AcquireKeeps(h, cam);
    case DoRelease(id) => ReleaseKeeps(h, id);
    case DoClose => CloseKeeps(h);
    case GoOff(t) => GoOffKeeps(h, t);
    case DoCallback(t) => CallbackKeeps(h, t);
    case Exit(r) => ExitKeeps(h, r);
  }

  // ---- Runs -----------------------------------------------------------------------------------

  /** tr lists the states some interleaving of actions goes through. */
  ghost predicate Run(names: set<string>, actions: seq<Action>, tr: seq<State>) {
    && |tr| == |actions| + 1 && tr[0] == Init(names)
    && forall i :: 0 <= i < |actions| ==> StepAt(actions, tr, i)
  }

  predicate StepAt(actions: seq<Action>, tr: seq<State>, i: nat)
    requires |tr| == |actions| + 1 && i < |actions|
  {
    tr[i + 1] == Step(tr[i], actions[i])
  }

  lemma {:induction false} RunInv(names: set<string>, actions: seq<Action>, tr: seq<State>, n: nat)
    requires Run(names, actions, tr) && n < |tr|
    ensures Inv(tr[n])
  {
    if n == 0 {
      assert forall name :: name in names ==> Holders([], name) == {};
    } else {
      RunInv(names, actions, tr, n - 1);
      assert StepAt(actions, tr, n - 1);
      StepKeeps(tr[n - 1], actions[n - 1]);
    }
  }

  /** In every interleaving: the viewer count is the number of unreleased acquisitions, a camera has
      at most one uncancelled pull, and it has one whenever it has viewers and the hub is open. */
  lemma OnePullPerWatchedCamera(names: set<string>, actions: seq<Action>, tr: seq<State>, n: nat, name: string)
    requires Run(names, actions, tr) && n < |tr| && name in tr[n].cams
    ensures tr[n].cams[name].viewers == |Holders(tr[n].holds, name)|
    ensures forall p, q :: 0 <= p < q < |tr[n].pulls| && tr[n].pulls[p].cam == name == tr[n].pulls[q].cam
              ==> tr[n].pulls[p].cancelled || tr[n].pulls[q].cancelled
    ensures !tr[n].closed && Holders(tr[n].holds, name) != {} ==>
              exists p :: 0 <= p < |tr[n].pulls| && tr[n].pulls[p].cam == name && !tr[n].pulls[p].cancelled
  {
    RunInv(names, actions, tr, n);
    var h := tr[n];
    assert CamInv(h, name);
    forall p, q | 0 <= p < q < |h.pulls| && h.pulls[p].cam == name == h.pulls[q].cam
      ensures h.pulls[p].cancelled || h.pulls[q].cancelled
    {
      assert PullInv(h, p) && PullInv(h, q);
    }
    if !h.closed && Holders(h.holds, name) != {} {
      assert !h.pulls[h.cams[name].run.value].cancelled;
    }
  }

  /** A viewer that is being served finds no run only when the hub has been closed. */
  lemma ServeFindsRun(names: set<string>, actions: seq<Action>, tr: seq<State>, n: nat, id: nat)
    requires Run(names, actions, tr) && n < |tr| && id < |tr[n].holds| && !tr[n].holds[id].released
    ensures tr[n].holds[id].cam in tr[n].cams
    ensures tr[n].cams[tr[n].holds[id].cam].run == None <==> tr[n].closed
  {
    RunInv(names, actions, tr, n);
    var name := tr[n].holds[id].cam;
    assert CamInv(tr[n], name);
    assert id in Holders(tr[n].holds, name);
  }

  /** A pull nobody watches is on its way out: at rest, an unwatched camera is not pulled. */
  lemma UnwatchedPullEnds(names: set<string>, actions: seq<Action>, tr: seq<State>, n: nat, name: string, p: nat)
    requires Run(names, actions, tr) && n < |tr| && p < |tr[n].pulls| && tr[n].pulls[p].cam == name
    requires Holders(tr[n].holds, name) == {} && !tr[n].pulls[p].cancelled
    ensures Ticking(tr[n], name)
  {
    RunInv(names, actions, tr, n);
    assert PullInv(tr[n], p) && CamInv(tr[n], name);
  }

  // ---- What starts a pull and what ends it ---------------------------------------------------------

  predicate Pulled(h: State, name: string) {
    exists p :: 0 <= p < |h.pulls| && h.pulls[p].cam == name && !h.pulls[p].cancelled
  }

  /** A camera of the hub is joined exactly while the hub is open: the new viewer holds it, its armed timer
      is stopped, and a pull starts only if none is going. */
  ghost predicate Joined(h: State, name: string, g: State, hold: Option<nat>) {
    if name !in h.cams || h.closed then hold == None && g == h
    else
      && hold == Some(|h.holds|) && g.holds == h.holds + [Hold(name, false)]
      && g.pulls == h.pulls + (if Pulled(h, name) then [] else [Pull(name, false, false)])
      && |g.timers| == |h.timers|
      && forall t | 0 <= t < |h.timers| ::
           g.timers[t] == if h.timers[t] == Timer(name, Armed) then Timer(name, Over) else h.timers[t]
  }

  lemma AcquireMeans(h: State, name: string)
    requires Inv(h)
    ensures Joined(h, name, AfterAcquire(h, name).0, AfterAcquire(h, name).1)
  {
    if name in h.cams && !h.closed {
      assert CamInv(h, name);
      forall p | 0 <= p < |h.pulls| && h.pulls[p].cam == name
        ensures h.pulls[p].cancelled || h.cams[name].run == Some(p)
      {
        assert PullInv(h, p);
      }
      forall t | 0 <= t < |h.timers| && h.timers[t] == Timer(name, Armed)
        ensures h.cams[name].idleTimer == Some(t)
      {
        assert TimerInv(h, t);
      }
    }
  }

  predicate SameRuns(h: State, g: State) {
    && g.pulls == h.pulls && g.cams.Keys == h.cams.Keys
    && forall name :: name in h.cams ==> g.cams[name].run == h.cams[name].run
  }

  /** Releasing a hold never ends a pull. The release of the last hold of a camera of an open hub adds one
      armed idle timer of that camera, and no other release adds a timer. */
  ghost predicate Left(h: State, id: nat, g: State)
    requires id < |h.holds|
  {
    if h.holds[id].released then g == h
    else
      var name := h.holds[id].cam;
      && SameRuns(h, g) && g.closed == h.closed
      && g.holds == h.holds[id := Hold(name, true)]
      && (if Holders(g.holds, name) == {} && !h.closed
          then && g.timers == h.timers + [Timer(name, Armed)]
               && name in g.cams && g.cams[name].idleTimer == Some(|h.timers|)
          else g.timers == h.timers)
  }

  lemma ReleaseMeans(h: State, id: nat)
    requires Inv(h) && id < |h.holds|
    ensures Left(h, id, AfterRelease(h, id))
  {
    if !h.holds[id].released {
      var name := h.holds[id].cam;
      assert CamInv(h, name);
      HoldersRelease(h.holds, id, name);
    }
  }

  /** The calls of a run that join and leave. */
  lemma RunsJoinAndLeave(names: set<string>, actions: seq<Action>, tr: seq<State>, n: nat)
    returns (hold: Option<nat>)
    requires Run(names, actions, tr) && n < |actions|
    ensures actions[n].DoAcquire? ==> Joined(tr[n], actions[n].cam, tr[n + 1], hold)
    ensures actions[n].DoRelease? && actions[n].hold < |tr[n].holds| ==> Left(tr[n], actions[n].hold, tr[n + 1])
  {
    RunInv(names, actions, tr, n);
    assert StepAt(actions, tr, n);
    hold := None;
    if actions[n].DoAcquire? {
      hold := AfterAcquire(tr[n], actions[n].cam).1;
      AcquireMeans(tr[n], actions[n].cam);
    } else if actions[n].DoRelease? && actions[n].hold < |tr[n].holds| {
      ReleaseMeans(tr[n], actions[n].hold);
    }
  }

  /** The late half of an idle timer of this camera, while nobody watches it. */
  ghost predicate IdlesOut(h: State, a: Action, name: string) {
    a.DoCallback? && a.timer < |h.timers| && h.timers[a.timer] == Timer(name, InFlight) && Holders(h.holds, name) == {}
  }

  /** In every run a pull is cancelled by nothing but Close and the callback of an idle timer of its camera
      that finds no viewer, and by each of these at once. */
  lemma PullEndsIff(names: set<string>, actions: seq<Action>, tr: seq<State>, n: nat, p: nat)
    requires Run(names, actions, tr) && n < |actions| && p < |tr[n].pulls| && !tr[n].pulls[p].cancelled
    ensures p < |tr[n + 1].pulls| && tr[n + 1].pulls[p].cam == tr[n].pulls[p].cam
    ensures tr[n + 1].pulls[p].cancelled
       <==> actions[n] == DoClose || IdlesOut(tr[n], actions[n], tr[n].pulls[p].cam)
  {
    var h, a := tr[n], actions[n];
    RunInv(names, actions, tr, n);
    var hold := RunsJoinAndLeave(names, actions, tr, n);
    assert StepAt(actions, tr, n);
    assert PullInv(h, p) && CamInv(h, h.pulls[p].cam);
    if a.DoCallback? && a.timer < |h.timers| {
      CallbackMeans(h, a.timer, p);
    }
  }

  lemma CallbackMeans(h: State, t: nat, p: nat)
    requires Inv(h) && t < |h.timers| && p < |h.pulls| && !h.pulls[p].cancelled
    ensures var g := AfterCallback(h, t);
            && |g.pulls| == |h.pulls| && g.pulls[p].cam == h.pulls[p].cam
            && (g.pulls[p].cancelled
                <==> h.timers[t] == Timer(h.pulls[p].cam, InFlight) && Holders(h.holds, h.pulls[p].cam) == {})
  {
    assert PullInv(h, p) && TimerInv(h, t);
    assert CamInv(h, h.pulls[p].cam) && CamInv(h, h.timers[t].cam);
  }

  /** A pull's goroutine returns only once it has been cancelled. */
  lemma PullReturnsIff(names: set<string>, actions: seq<Action>, tr: seq<State>, n: nat, p: nat)
    requires Run(names, actions, tr) && n < |actions| && p < |tr[n].pulls| && !tr[n].pulls[p].exited
    ensures p < |tr[n + 1].pulls|
    ensures tr[n + 1].pulls[p].exited <==> actions[n] == Exit(p) && tr[n].pulls[p].cancelled
  {
    assert StepAt(actions, tr, n);
  }

  /** A hub has the cameras it was made with, and is open until Close. */
  lemma {:induction false} OpenUntilClose(names: set<string>, actions: seq<Action>, tr: seq<State>, n: nat)
    requires Run(names, actions, tr) && n < |tr|
    ensures tr[n].cams.Keys == names
    ensures tr[n].closed <==> exists i :: 0 <= i < n && actions[i] == DoClose
  {
    if n > 0 {
      OpenUntilClose(names, actions, tr, n - 1);
      assert StepAt(actions, tr, n - 1);
      KeysStay(tr[n - 1], actions[n - 1]);
    }
  }

  lemma KeysStay(h: State, a: Action)
    ensures Step(h, a).cams.Keys == h.cams.Keys
    ensures Step(h, a).closed <==> h.closed || a == DoClose
  {
  }

  /** A pull that nobody watches can always be ended by its idle timer, unless somebody joins first. */
  lemma IdlePullStops(names: set<string>, actions: seq<Action>, tr: seq<State>, n: nat, p: nat) returns (t: nat)
    requires Run(names, actions, tr) && n < |tr| && p < |tr[n].pulls| && !tr[n].pulls[p].cancelled
    requires Holders(tr[n].holds, tr[n].pulls[p].cam) == {}
    ensures var off := Step(tr[n], GoOff(t));
            && p < |off.pulls| && IdlesOut(off, DoCallback(t), off.pulls[p].cam)
            && p < |Step(off, DoCallback(t)).pulls| && Step(off, DoCallback(t)).pulls[p].cancelled
  {
    var h, name := tr[n], tr[n].pulls[p].cam;
    UnwatchedPullEnds(names, actions, tr, n, name, p);
    t :| 0 <= t < |h.timers| && h.timers[t].cam == name && h.timers[t].phase != Over;
    RunInv(names, actions, tr, n);
    GoOffKeeps(h, t);
    CallbackMeans(Step(h, GoOff(t)), t, p);
  }

  lemma ClosedStep(h: State, a: Action)
    requires Inv(h) && h.closed
    ensures Step(h, a).closed && |Step(h, a).pulls| == |h.pulls|
  {
  }

  /** After Close, no pull is uncancelled, none ever starts, and no idle timer is armed. */
  lemma {:induction false} ClosedForGood(names: set<string>, actions: seq<Action>, tr: seq<State>, i: nat, n: nat)
    requires Run(names, actions, tr) && i < n < |tr| && actions[i] == DoClose
    ensures tr[n].closed && |tr[n].pulls| == |tr[i].pulls|
    ensures forall p :: 0 <= p < |tr[n].pulls| ==> tr[n].pulls[p].cancelled
    ensures forall t :: 0 <= t < |tr[n].timers| ==> tr[n].timers[t].phase != Armed
    decreases n
  {
    RunInv(names, actions, tr, n);
    RunInv(names, actions, tr, n - 1);
    assert StepAt(actions, tr, n - 1);
    if n > i + 1 {
      ClosedForGood(names, actions, tr, i, n - 1);
      ClosedStep(tr[n - 1], actions[n - 1]);
    }
    forall p | 0 <= p < |tr[n].pulls|
      ensures tr[n].pulls[p].cancelled
    {
      assert PullInv(tr[n], p);
      assert CamInv(tr[n], tr[n].pulls[p].cam);
    }
    forall t | 0 <= t < |tr[n].timers|
      ensures tr[n].timers[t].phase != Armed
    {
      assert TimerInv(tr[n], t);
    }
  }

  // ---- The hub itself ------------------------------------------------------------------------------

  class Hub {
    var cams: map<string, Cam>
    var closed: bool
    // The runtime's timers, pull goroutines and outstanding release functions.
    var timers: seq<Timer>
    var pulls: seq<Pull>
    var holds: seq<Hold>

    function St(): State
      reads this
    {
      State(cams, closed, timers, pulls, holds)
    }

    constructor (names: set<string>)
      ensures St() == Init(names) && Inv(St())
    {
      cams, closed := map name | name in names :: Cam(0, None, None), false;
      timers, pulls, holds := [], [], [];
      new;
      assert forall name :: name in names ==> Holders([], name) == {};
    }

    method Acquire(name: string) returns (hold: Option<nat>)
      requires Inv(St())
      modifies this
      ensures (St(), hold) == AfterAcquire(old(St()), name) && Inv(St())
      ensures Joined(old(St()), name, St(), hold)
    {
      AcquireMeans(St(), name);
      AcquireKeeps(St(), name);
      if name !in cams || closed { return None; }
      var cam := cams[name];
      cam := cam.(viewers := cam.viewers + 1);
      if cam.idleTimer.Some? {
        timers := Stop(timers, cam.idleTimer);
        cam := cam.(idleTimer := None);
      }
      if cam.run == None {
        cam := cam.(run := Some(|pulls|));
        pulls := pulls + [Pull(name, false, false)];
      }
      cams := cams[name := cam];
      hold := Some(|holds|);
      holds := holds + [Hold(name, false)];
    }

    method Release(id: nat)
      requires Inv(St()) && id < |holds|
      modifies this
      ensures St() == AfterRelease(old(St()), id) && Inv(St())
      ensures Left(old(St()), id, St())
    {
      ghost var h := St();
      if holds[id].released { return; }
      var name := holds[id].cam;
      holds := holds[id := Hold(name, true)];
      var cam := cams[name];
      cam := cam.(viewers := cam.viewers - 1);
      if cam.viewers <= 0 && !closed {
        cam := cam.(idleTimer := Some(|timers|));
        timers := timers + [Timer(name, Armed)];
      }
      cams := cams[name := cam];
      ReleaseKeeps(h, id);
      ReleaseMeans(h, id);
    }

    method IdleCallback(t: nat)
      requires Inv(St()) && t < |timers| && timers[t].phase == InFlight
      modifies this
      ensures St() == AfterCallback(old(St()), t) && Inv(St())
    {
      CallbackKeeps(St(), t);
      assert TimerInv(St(), t);
      var name := timers[t].cam;
      timers := timers[t := Timer(name, Over)];
      if cams[name].viewers == 0 && cams[name].run.Some? {
        pulls := Cancel(pulls, cams[name].run);
        cams := cams[name := cams[name].(run := None)];
      }
    }

    /** Stops one camera: its timer if that has not gone off, and its run. */
    method StopCamera(name: string)
      requires name in cams
      modifies `cams, `timers, `pulls
      ensures cams == old(cams)[name := old(cams)[name].(run := None)]
      ensures timers == Stop(old(timers), old(cams)[name].idleTimer)
      ensures pulls == Cancel(old(pulls), old(cams)[name].run)
    {
      if cams[name].idleTimer.Some? {
        timers := Stop(timers, cams[name].idleTimer);
      }
      if cams[name].run.Some? {
        pulls := Cancel(pulls, cams[name].run);
      }
      cams := cams[name := cams[name].(run := None)];
    }

    /** Close visits the cameras in the arbitrary order of a Go map. */
    method Close()
      requires Inv(St())
      modifies this
      ensures St() == AfterClose(old(St())) && Inv(St())
    {
      ghost var h := St();
      closed := true;
      var rest := cams.Keys;
      while rest != {}
        invariant closed && holds == h.holds && rest <= cams.Keys
        invariant Visiting(h, rest, cams, timers, pulls)
        decreases rest
      {
        var name :| name in rest;
        VisitOne(h, rest, cams, timers, pulls, name);
        StopCamera(name);
        rest := rest - {name};
      }
      VisitedAll(h, cams, timers, pulls);
      CloseKeeps(h);
    }
  }

  /** Close half way through: every camera outside `rest` has been stopped. */
  ghost predicate Visiting(h: State, rest: set<string>, cams: map<string, Cam>, timers: seq<Timer>, pulls: seq<Pull>) {
    && cams.Keys == h.cams.Keys && |timers| == |h.timers| && |pulls| == |h.pulls|
    && (forall name :: name in cams ==>
          cams[name] == if name in rest then h.cams[name] else h.cams[name].(run := None))
    && (forall t :: 0 <= t < |timers| ==> timers[t] == TimerVisited(h, rest, t))
    && (forall r :: 0 <= r < |pulls| ==> pulls[r] == PullVisited(h, rest, r))
  }

  function TimerVisited(h: State, rest: set<string>, t: nat): Timer
    requires t < |h.timers|
  {
    if h.timers[t].cam !in rest && IsIdleTimer(h, t) && h.timers[t].phase == Armed
    then h.timers[t].(phase := Over) else h.timers[t]
  }

  function PullVisited(h: State, rest: set<string>, r: nat): Pull
    requires r < |h.pulls|
  {
    if h.pulls[r].cam !in rest && IsRun(h, r) then h.pulls[r].(cancelled := true) else h.pulls[r]
  }

  lemma VisitOne(h: State, rest: set<string>, cams: map<string, Cam>, timers: seq<Timer>, pulls: seq<Pull>,
                 name: string)
    requires Inv(h) && Visiting(h, rest, cams, timers, pulls) && name in rest && name in cams
    ensures Visiting(h, rest - {name}, cams[name := cams[name].(run := None)],
                     Stop(timers, cams[name].idleTimer), Cancel(pulls, cams[name].run))
  {
    assert CamInv(h, name);
    assert cams[name] == h.cams[name];
    var timers', pulls' := Stop(timers, cams[name].idleTimer), Cancel(pulls, cams[name].run);
    forall t | 0 <= t < |timers|
      ensures timers'[t] == TimerVisited(h, rest - {name}, t)
    {
      assert timers[t] == TimerVisited(h, rest, t);
    }
    forall r | 0 <= r < |pulls|
      ensures pulls'[r] == PullVisited(h, rest - {name}, r)
    {
      assert pulls[r] == PullVisited(h, rest, r);
    }
  }

  lemma VisitedAll(h: State, cams: map<string, Cam>, timers: seq<Timer>, pulls: seq<Pull>)
    requires Visiting(h, {}, cams, timers, pulls)
    ensures AfterClose(h) == State(cams, true, timers, pulls, h.holds)
  {
    assert forall t :: 0 <= t < |timers| ==> timers[t] == TimerVisited(h, {}, t);
    assert forall r :: 0 <= r < |pulls| ==> pulls[r] == PullVisited(h, {}, r);
    assert timers == AfterClose(h).timers;
    assert pulls == AfterClose(h).pulls;
    assert cams == AfterClose(h).cams;
  }
}
