/** Switching a stream between its two qualities (streamRunner and Hub.startReader in hub.go). Any
    number of browsers toggle at once; a cancelled reader may take arbitrarily long to exit. */
module QualitySwitch {
  import opened Text

  datatype Quality = SD | HD

  /** One RTSP reader goroutine. */
  datatype Reader = Reader(quality: Quality, cancelled: bool, alive: bool)

  /** Where one startReader call stands. */
  datatype Call =
    | Wanting(quality: Quality)   // waiting for the runner's lock
    | Checking(quality: Quality)  // holds it, about to look at what is running
    | Stopping(quality: Quality)  // holds it, has cancelled the reader, waits on `done`
    | Returned

  /** `current` is the reader that the runner's cancel and done fields belong to. */
  datatype State = State(current: Option<nat>, quality: Option<Quality>, holder: Option<nat>,
                         readers: seq<Reader>, calls: seq<Call>, parentCancelled: bool)

  /** What the runner holds and has started, without the callers. */
  datatype Runner = Runner(current: Option<nat>, quality: Option<Quality>, readers: seq<Reader>)

  function CancelCurrent(r: Runner): Runner {
    if r.current.Some? && r.current.value < |r.readers|
    then r.(readers := r.readers[r.current.value := r.readers[r.current.value].(cancelled := true)])
    else r
  }

  function StartReader(r: Runner, q: Quality): Runner {
    Runner(Some(|r.readers|), Some(q), r.readers + [Reader(q, false, true)])
  }

  function RunnerOf(st: State): Runner {
    Runner(st.current, st.quality, st.readers)
  }

  function With(st: State, r: Runner): State {
    st.(current := r.current, quality := r.quality, readers := r.readers)
  }

  datatype Action =
    | Toggle(quality: Quality)
    | Proceed(call: nat)
    | Exit(reader: nat)
    | CancelParent

  function Step(st: State, a: Action): State {
    match a
    case Toggle(q) => st.(calls := st.calls + [Wanting(q)])
    case Proceed(i) => if i < |st.calls| then Advance(st, i) else st
    case Exit(r) =>
      if r < |st.readers| && (st.readers[r].cancelled || st.parentCancelled)
      then st.(readers := st.readers[r := st.readers[r].(alive := false)]) else st
    case CancelParent => st.(parentCancelled := true)
  }

  function Advance(st: State, i: nat): State
    requires i < |st.calls|
  {
    match st.calls[i]
    case Wanting(q) => if st.holder == None then st.(holder := Some(i), calls := st.calls[i := Checking(q)]) else st
    case Checking(q) =>
      if st.current.Some? && st.quality == Some(q) then Unlock(st, i)
      else if st.current.Some? then With(st, CancelCurrent(RunnerOf(st))).(calls := st.calls[i := Stopping(q)])
      else Unlock(With(st, StartReader(RunnerOf(st), q)), i)
    case Stopping(q) =>
      if st.current.Some? && st.current.value < |st.readers| && !st.readers[st.current.value].alive
      then Unlock(With(st, StartReader(RunnerOf(st), q)), i) else st
    case Returned => st
  }

  function Unlock(st: State, i: nat): State
    requires i < |st.calls|
  {
    st.(holder := None, calls := st.calls[i := Returned])
  }

  const INIT := State(None, None, None, [], [], false)

  predicate Holds(c: Call) {
    c.Checking? || c.Stopping?
  }

  ghost predicate Inv(st: State) {
    && (st.current == if |st.readers| == 0 then None else Some(|st.readers| - 1))
    && (st.quality == if |st.readers| == 0 then None else Some(st.readers[|st.readers| - 1].quality))
    && (forall r :: 0 <= r < |st.readers| && st.readers[r].alive ==> r == |st.readers| - 1)
    && (forall r :: 0 < r < |st.readers| ==> st.readers[r - 1].quality != st.readers[r].quality)
    && (forall i :: 0 <= i < |st.calls| && Holds(st.calls[i]) ==> st.holder == Some(i))
    && (forall i :: 0 <= i < |st.calls| && st.calls[i].Stopping? ==>
          st.quality != Some(st.calls[i].quality) && |st.readers| > 0 && st.readers[|st.readers| - 1].cancelled)
    && (st.holder.Some? ==> st.holder.value < |st.calls| && Holds(st.calls[st.holder.value]))
  }

  lemma StartKeeps(st: State, i: nat, q: Quality)
    requires Inv(st) && i < |st.calls| && Holds(st.calls[i])
    requires st.quality != Some(q) && forall r :: 0 <= r < |st.readers| ==> !st.readers[r].alive
    ensures Inv(Unlock(With(st, StartReader(RunnerOf(st), q)), i))
  {
    var g := Unlock(With(st, StartReader(RunnerOf(st), q)), i);
    assert forall r :: 0 <= r < |st.readers| ==> g.readers[r] == st.readers[r];
    assert forall j :: 0 <= j < |g.calls| ==> !Holds(g.calls[j]);
  }

  lemma CheckKeeps(st: State, i: nat)
    requires Inv(st) && i < |st.calls| && st.calls[i].Checking?
    ensures Inv(Advance(st, i))
  {
    var q := st.calls[i].quality;
    if st.current == None {
      StartKeeps(st, i, q);
    } else {
      var g := Advance(st, i);
      assert forall j :: 0 <= j < |st.calls| && j != i ==> g.calls[j] == st.calls[j];
    }
  }

  lemma AdvanceKeeps(st: State, i: nat)
    requires Inv(st) && i < |st.calls|
    ensures Inv(Advance(st, i))
  {
    match st.calls[i]
    case Wanting(q) =>
    case Checking(q) => CheckKeeps(st, i);
    case Stopping(q) => if !st.readers[st.current.value].alive { StartKeeps(st, i, q); }
    case Returned =>
  }

  lemma StepKeeps(st: State, a: Action)
    requires Inv(st)
    ensures Inv(Step(st, a))
  {
    if a.Proceed? && a.call < |st.calls| {
      AdvanceKeeps(st, a.call);
    }
  }

  ghost predicate Run(actions: seq<Action>, tr: seq<State>) {
    && |tr| == |actions| + 1 && tr[0] == INIT
    && forall i :: 0 <= i < |actions| ==> StepAt(actions, tr, i)
  }

  predicate StepAt(actions: seq<Action>, tr: seq<State>, i: nat)
    requires |tr| == |actions| + 1 && i < |actions|
  {
    tr[i + 1] == Step(tr[i], actions[i])
  }

  lemma {:induction false} RunInv(actions: seq<Action>, tr: seq<State>, n: nat)
    requires Run(actions, tr) && n < |tr|
    ensures Inv(tr[n])
  {
    if n > 0 {
      RunInv(actions, tr, n - 1);
      assert StepAt(actions, tr, n - 1);
      StepKeeps(tr[n - 1], actions[n - 1]);
    }
  }

  /** At most one reader is ever alive, each differs in quality from the one before it, and while no
      switch is under way the published quality is that of the last reader started. */
  lemma OneReaderOfTheRightQuality(actions: seq<Action>, tr: seq<State>, n: nat)
    requires Run(actions, tr) && n < |tr|
    ensures forall r, s :: 0 <= r < s < |tr[n].readers| ==> !(tr[n].readers[r].alive && tr[n].readers[s].alive)
    ensures forall r :: 0 < r < |tr[n].readers| ==> tr[n].readers[r - 1].quality != tr[n].readers[r].quality
    ensures tr[n].holder == None && |tr[n].readers| > 0 ==>
              tr[n].quality == Some(tr[n].readers[|tr[n].readers| - 1].quality)
  {
    RunInv(actions, tr, n);
  }

  /** The lock is exclusive: only one call at a time is past it, and the reader it waits for has been
      told to stop. */
  lemma OneSwitchAtATime(actions: seq<Action>, tr: seq<State>, n: nat, i: nat, j: nat)
    requires Run(actions, tr) && n < |tr| && i < |tr[n].calls| && j < |tr[n].calls|
    requires Holds(tr[n].calls[i]) && Holds(tr[n].calls[j])
    ensures i == j
    ensures tr[n].calls[i].Stopping? ==>
              |tr[n].readers| > 0 && tr[n].readers[|tr[n].readers| - 1].cancelled
  {
    RunInv(actions, tr, n);
  }

  // ---- What a toggle comes to ----------------------------------------------------------------

  predicate Open(c: Call) {
    !c.Returned?
  }

  /** In every run a call keeps the quality it was made for until it returns, and returns with that quality
      published: by the reader that was running already, or by a new one, alive and not cancelled. */
  lemma ToggleTakesEffect(actions: seq<Action>, tr: seq<State>, n: nat, i: nat)
    requires Run(actions, tr) && n < |actions| && i < |tr[n].calls| && Open(tr[n].calls[i])
    ensures i < |tr[n + 1].calls|
    ensures Open(tr[n + 1].calls[i]) ==> tr[n + 1].calls[i].quality == tr[n].calls[i].quality
    ensures !Open(tr[n + 1].calls[i]) ==>
              var q := tr[n].calls[i].quality;
              && tr[n + 1].quality == Some(q) && tr[n + 1].holder == None
              && (if tr[n].quality == Some(q) then tr[n + 1].readers == tr[n].readers
                  else tr[n + 1].readers == tr[n].readers + [Reader(q, false, true)])
  {
    RunInv(actions, tr, n);
    assert StepAt(actions, tr, n);
  }

  /** A toggle that finds the lock free gets through: in two steps of its own when nothing has to stop, and
      otherwise in three, once the reader in the way has exited. */
  lemma SwitchSucceeds(actions: seq<Action>, tr: seq<State>, n: nat, i: nat, q: Quality)
    requires Run(actions, tr) && n < |tr| && i < |tr[n].calls|
    requires tr[n].calls[i] == Wanting(q) && tr[n].holder == None
    ensures var looked := Step(Step(tr[n], Proceed(i)), Proceed(i));
            && |looked.calls| == |tr[n].calls|
            && if |tr[n].readers| == 0 || tr[n].quality == Some(q) then looked.calls[i] == Returned
               else var over := Step(Step(looked, Exit(|tr[n].readers| - 1)), Proceed(i));
                    |over.calls| == |tr[n].calls| && over.calls[i] == Returned
  {
    RunInv(actions, tr, n);
    var held := Step(tr[n], Proceed(i));
    assert held == tr[n].(holder := Some(i), calls := tr[n].calls[i := Checking(q)]);
    var looked := Step(held, Proceed(i));
    if |tr[n].readers| > 0 && tr[n].quality != Some(q) {
      var last := |tr[n].readers| - 1;
      assert looked.calls[i] == Stopping(q) && looked.readers[last].cancelled;
      assert !Step(looked, Exit(last)).readers[last].alive;
    }
  }

  /** A toggle joins as a call that wants its quality; nothing else makes a call. */
  lemma TogglesCall(actions: seq<Action>, tr: seq<State>, n: nat)
    requires Run(actions, tr) && n < |actions|
    ensures actions[n].Toggle? ==> tr[n + 1] == tr[n].(calls := tr[n].calls + [Wanting(actions[n].quality)])
    ensures !actions[n].Toggle? ==> |tr[n + 1].calls| == |tr[n].calls|
    ensures tr[n + 1].parentCancelled <==> tr[n].parentCancelled || actions[n] == CancelParent
  {
    assert StepAt(actions, tr, n);
  }

  /** A reader is told to stop exactly by a call that holds the lock and wants the other quality, and it ends
      exactly when it exits after that or after the end of the whole hub. */
  lemma ReaderEndsIff(actions: seq<Action>, tr: seq<State>, n: nat, r: nat)
    requires Run(actions, tr) && n < |actions| && r < |tr[n].readers|
    ensures r < |tr[n + 1].readers| && tr[n + 1].readers[r].quality == tr[n].readers[r].quality
    ensures !tr[n].readers[r].cancelled ==>
              (tr[n + 1].readers[r].cancelled <==>
                 && r == |tr[n].readers| - 1 && actions[n].Proceed? && actions[n].call < |tr[n].calls|
                 && tr[n].calls[actions[n].call].Checking?
                 && tr[n].calls[actions[n].call].quality != tr[n].readers[r].quality)
    ensures tr[n].readers[r].alive ==>
              (!tr[n + 1].readers[r].alive <==>
                 actions[n] == Exit(r) && (tr[n].readers[r].cancelled || tr[n].parentCancelled))
  {
    RunInv(actions, tr, n);
    assert StepAt(actions, tr, n);
  }

  // ---- The runner itself -----------------------------------------------------------------

  class StreamRunner {
    var current: Option<nat>
    var quality: Option<Quality>
    // The reader goroutines the runtime has been given, by number.
    var readers: seq<Reader>

    function St(): Runner
      reads this
    {
      Runner(current, quality, readers)
    }

    constructor ()
      ensures St() == RunnerOf(INIT)
    {
      current, quality, readers := None, None, [];
    }

    /** The first half of startReader, for the call calls[i] of st, which holds the lock. Either the
        wanted quality is running when it returns, or the reader in the way has been told to stop. */
    method Check(ghost st: State, ghost i: nat, q: Quality) returns (next: Call)
      requires Inv(st) && RunnerOf(st) == St() && i < |st.calls| && st.calls[i] == Checking(q)
      modifies this
      ensures var after := Advance(st, i);
              Inv(after) && RunnerOf(after) == St() && after.calls[i] == next
      ensures next == if quality == Some(q) then Returned else Stopping(q)
      ensures next == Returned ==> |readers| > 0 && readers[|readers| - 1].quality == q
      ensures next != Returned ==> |readers| > 0 && readers[|readers| - 1].cancelled
      ensures old(quality) == Some(q) ==> readers == old(readers)
    {
      CheckKeeps(st, i);
      if current.Some? && quality == Some(q) { return Returned; }
      if current.Some? {
        readers := readers[current.value := readers[current.value].(cancelled := true)];
        return Stopping(q);
      }
      Start(st, i, q);
      next := Returned;
    }

    /** The second half, once nothing is running any more: exactly the new reader is alive, in the
        quality that is published. */
    method Start(ghost st: State, ghost i: nat, q: Quality)
      requires Inv(st) && RunnerOf(st) == St() && i < |st.calls|
      requires Holds(st.calls[i]) && st.calls[i].quality == q
      requires if st.calls[i].Checking? then current == None else current.Some? && !readers[current.value].alive
      modifies this
      ensures St() == StartReader(old(St()), q) && Inv(Unlock(With(st, St()), i))
      ensures quality == Some(q) && |readers| > 0 && readers[|readers| - 1].quality == q
      ensures forall r :: 0 <= r < |readers| ==> (readers[r].alive <==> r == |readers| - 1)
    {
      StartKeeps(st, i, q);
      current, quality := Some(|readers|), Some(q);
      readers := readers + [Reader(q, false, true)];
    }
  }
}
