/** Concurrent ring handlers (Fire starts each on its own goroutine, bell.go): the number is drawn and
    the ring appended in two separate steps, so rings may be appended out of the order of their times
    and of their numbers, and several may share a time. */
module BellHandlers {
  import opened Text
  import opened BellLog

  /** Where one handler stands. */
  datatype Handler =
    | Fetching(stream: string, name: string, time: int)   // waits for the snapshot
    | Numbered(entry: Entry)                              // has its id, is not in the history yet
    | Appended

  /** What the bus remembers, and the list of all rings in the order of their appends. */
  datatype State = State(log: seq<Entry>, history: seq<Entry>, latest: map<string, string>, nextSeq: nat,
                         handlers: seq<Handler>)

  datatype Action =
    | Fire(stream: string, name: string, time: int)
    | Number(handler: nat, jpeg: string)   // the snapshot is there, or has failed
    | Append(handler: nat)

  function EntryFor(h: Handler, jpeg: string, seqNo: nat): Entry
    requires h.Fetching?
  {
    Entry(Event(EventId(h.time, seqNo), h.stream, if h.name == "" then h.stream else h.name, h.time, |jpeg| > 0), jpeg)
  }

  function Step(st: State, a: Action): State {
    match a
    case Fire(stream, name, time) => st.(handlers := st.handlers + [Fetching(stream, name, time)])
    case Number(i, jpeg) =>
      if i < |st.handlers| && st.handlers[i].Fetching?
      then AfterNumber(st, i, EntryFor(st.handlers[i], jpeg, st.nextSeq + 1)) else st
    case Append(i) =>
      if i < |st.handlers| && st.handlers[i].Numbered? then AfterAppend(st, i, st.handlers[i].entry) else st
  }

  function AfterNumber(st: State, i: nat, e: Entry): State
    requires i < |st.handlers|
  {
    st.(nextSeq := st.nextSeq + 1, handlers := st.handlers[i := Numbered(e)])
  }

  function AfterAppend(st: State, i: nat, e: Entry): State
    requires i < |st.handlers|
  {
    State(st.log + [e], Window(st.history + [e]), st.latest[e.event.stream := e.event.eventId], st.nextSeq,
          st.handlers[i := Appended])
  }

  /** A bus that has just replayed these rings; none, when it is new. */
  function Restarted(replayed: seq<Entry>): State {
    State(replayed, Window(replayed), LatestIndex(Window(replayed)), 0, [])
  }

  // ---- The invariant -----------------------------------------------------------------------

  /** Every id in use is an earlier ring's or was made with a number drawn so far, and none is in use
      twice. t0 is the time of the restart. */
  ghost predicate Inv(st: State, t0: int) {
    && st.history == Window(st.log) && IndexSince(st.latest, st.log)
    && UniqueIds(st.log) && AllDrawn(st.log, t0, st.nextSeq)
    && (forall i :: 0 <= i < |st.handlers| && st.handlers[i].Numbered? ==> Pending(st, t0, i))
    && (forall i :: 0 <= i < |st.handlers| && st.handlers[i].Fetching? ==> t0 <= st.handlers[i].time)
    && (forall i, j :: 0 <= i < j < |st.handlers| && st.handlers[i].Numbered? && st.handlers[j].Numbered?
          ==> st.handlers[i].entry.event.eventId != st.handlers[j].entry.event.eventId)
  }

  /** A ring still to be appended has an id of its own. */
  ghost predicate Pending(st: State, t0: int, i: nat)
    requires i < |st.handlers| && st.handlers[i].Numbered?
  {
    && Drawn(st.handlers[i].entry, t0, st.nextSeq)
    && NotIn(st.log, st.handlers[i].entry.event.eventId)
  }

  lemma LogLater(log: seq<Entry>, t0: int, drawn: nat)
    requires AllDrawn(log, t0, drawn)
    ensures AllDrawn(log, t0, drawn + 1)
  {
    forall k | 0 <= k < |log|
      ensures Drawn(log[k], t0, drawn + 1)
    {
      DrawnLater(log[k], t0, drawn);
    }
  }

  /** No ring in the history or on its way there has this id. */
  ghost predicate Free(st: State, id: string) {
    && NotIn(st.log, id)
    && forall j :: 0 <= j < |st.handlers| && st.handlers[j].Numbered? ==> st.handlers[j].entry.event.eventId != id
  }

  lemma NextDiffers(t0: int, drawn: nat, t: int)
    requires t0 <= t
    ensures forall e: Entry | Drawn(e, t0, drawn) :: e.event.eventId != EventId(t, drawn + 1)
  {
    forall e: Entry | Drawn(e, t0, drawn)
      ensures e.event.eventId != EventId(t, drawn + 1)
    {
      NextIsNew(e, t0, drawn, t);
    }
  }

  lemma UndrawnIsFree(st: State, t0: int, id: string)
    requires Inv(st, t0) && forall e: Entry | Drawn(e, t0, st.nextSeq) :: e.event.eventId != id
    ensures Free(st, id)
  {
    forall k | 0 <= k < |st.log|
      ensures st.log[k].event.eventId != id
    {
      assert Drawn(st.log[k], t0, st.nextSeq);
    }
    forall j | 0 <= j < |st.handlers| && st.handlers[j].Numbered?
      ensures st.handlers[j].entry.event.eventId != id
    {
      assert Pending(st, t0, j);
    }
  }

  lemma NextIsFree(st: State, t0: int, t: int)
    requires Inv(st, t0) && t0 <= t
    ensures Free(st, EventId(t, st.nextSeq + 1))
  {
    NextDiffers(t0, st.nextSeq, t);
    UndrawnIsFree(st, t0, EventId(t, st.nextSeq + 1));
  }

  lemma PendingLater(st: State, t0: int, i: nat, e: Entry)
    requires Inv(st, t0) && i < |st.handlers| && Drawn(e, t0, st.nextSeq + 1) && NotIn(st.log, e.event.eventId)
    ensures var g := AfterNumber(st, i, e);
            forall j :: 0 <= j < |g.handlers| && g.handlers[j].Numbered? ==> Pending(g, t0, j)
  {
    var g := AfterNumber(st, i, e);
    forall j | 0 <= j < |g.handlers| && g.handlers[j].Numbered?
      ensures Pending(g, t0, j)
    {
      if j != i {
        assert Pending(st, t0, j);
        DrawnLater(st.handlers[j].entry, t0, st.nextSeq);
      }
    }
  }

  lemma GiveFreeId(st: State, t0: int, i: nat, e: Entry)
    requires Inv(st, t0) && i < |st.handlers| && st.handlers[i].Fetching?
    requires Drawn(e, t0, st.nextSeq + 1) && Free(st, e.event.eventId)
    ensures Inv(AfterNumber(st, i, e), t0)
  {
    LogLater(st.log, t0, st.nextSeq);
    PendingLater(st, t0, i, e);
  }

  lemma NumberKeeps(st: State, t0: int, i: nat, jpeg: string)
    requires Inv(st, t0) && i < |st.handlers| && st.handlers[i].Fetching?
    ensures Inv(Step(st, Number(i, jpeg)), t0)
  {
    NextIsFree(st, t0, st.handlers[i].time);
    var e := EntryFor(st.handlers[i], jpeg, st.nextSeq + 1);
    assert Drawn(e, t0, st.nextSeq + 1);
    GiveFreeId(st, t0, i, e);
  }

  lemma LogAppended(log: seq<Entry>, t0: int, drawn: nat, latest: map<string, string>, e: Entry)
    requires UniqueIds(log) && AllDrawn(log, t0, drawn) && IndexSince(latest, log)
    requires Drawn(e, t0, drawn) && NotIn(log, e.event.eventId)
    ensures UniqueIds(log + [e]) && AllDrawn(log + [e], t0, drawn) && Window(Window(log) + [e]) == Window(log + [e])
    ensures IndexSince(latest[e.event.stream := e.event.eventId], log + [e])
  {
    NewIdUnique(log, e);
    WindowAppend(log, e);
    IndexSinceAppend(latest, log, e);
  }

  lemma StillNotIn(log: seq<Entry>, e: Entry, id: string)
    requires NotIn(log, id) && e.event.eventId != id
    ensures NotIn(log + [e], id)
  {
  }

  lemma AppendKeeps(st: State, t0: int, i: nat)
    requires Inv(st, t0) && i < |st.handlers| && st.handlers[i].Numbered?
    ensures Inv(Step(st, Append(i)), t0)
  {
    var g := Step(st, Append(i));
    var e := st.handlers[i].entry;
    assert Pending(st, t0, i);
    LogAppended(st.log, t0, st.nextSeq, st.latest, e);
    OthersStillPending(st, t0, i);
  }

  lemma OthersStillPending(st: State, t0: int, i: nat)
    requires Inv(st, t0) && i < |st.handlers| && st.handlers[i].Numbered?
    ensures var g := AfterAppend(st, i, st.handlers[i].entry);
            forall j :: 0 <= j < |g.handlers| && g.handlers[j].Numbered? ==> Pending(g, t0, j)
  {
    var e := st.handlers[i].entry;
    var g := AfterAppend(st, i, e);
    forall j | 0 <= j < |g.handlers| && g.handlers[j].Numbered?
      ensures Pending(g, t0, j)
    {
      assert Pending(st, t0, j);
      StillNotIn(st.log, e, st.handlers[j].entry.event.eventId);
    }
  }

  lemma StepKeeps(st: State, t0: int, a: Action)
    requires Inv(st, t0) && (a.Fire? ==> t0 <= a.time)
    ensures Inv(Step(st, a), t0)
  {
    match a
    case Fire(_, _, _) =>
      forall j | 0 <= j < |st.handlers| && st.handlers[j].Numbered?
        ensures Pending(Step(st, a), t0, j)
      {
        assert Pending(st, t0, j);
      }
    case Number(i, jpeg) => if i < |st.handlers| && st.handlers[i].Fetching? { NumberKeeps(st, t0, i, jpeg); }
    case Append(i) => if i < |st.handlers| && st.handlers[i].Numbered? { AppendKeeps(st, t0, i); }
  }

  // ---- Runs ----------------------------------------------------------------------------------

  /** Any interleaving of handlers of rings fired since t0. */
  ghost predicate Steps(t0: int, actions: seq<Action>, tr: seq<State>) {
    && |tr| == |actions| + 1
    && (forall i :: 0 <= i < |actions| && actions[i].Fire? ==> t0 <= actions[i].time)
    && forall i :: 0 <= i < |actions| ==> StepAt(actions, tr, i)
  }

  /** One that starts from a bus that has replayed these rings at time t0. */
  ghost predicate Run(replayed: seq<Entry>, t0: int, actions: seq<Action>, tr: seq<State>) {
    Steps(t0, actions, tr) && tr[0] == Restarted(replayed) && Earlier(replayed, t0)
  }

  predicate StepAt(actions: seq<Action>, tr: seq<State>, i: nat)
    requires |tr| == |actions| + 1 && i < |actions|
  {
    tr[i + 1] == Step(tr[i], actions[i])
  }

  lemma ReplayIndexes(replayed: seq<Entry>)
    ensures IndexSince(LatestIndex(Window(replayed)), replayed)
  {
    assert replayed[|replayed| - |Window(replayed)|..] == Window(replayed);
  }

  lemma StartInv(replayed: seq<Entry>, t0: int)
    requires Earlier(replayed, t0)
    ensures Inv(Restarted(replayed), t0)
  {
    EarlierSeparate(replayed, t0);
    ReplayIndexes(replayed);
    QuietInv(Restarted(replayed), t0);
  }

  lemma QuietInv(st: State, t0: int)
    requires st.handlers == [] && st.history == Window(st.log) && IndexSince(st.latest, st.log)
    requires Separate(st.log, t0, st.nextSeq)
    ensures Inv(st, t0)
  {
  }

  lemma OneStep(t0: int, actions: seq<Action>, tr: seq<State>, i: nat)
    requires Steps(t0, actions, tr) && i < |actions|
    ensures tr[i + 1] == Step(tr[i], actions[i]) && (actions[i].Fire? ==> t0 <= actions[i].time)
  {
    assert StepAt(actions, tr, i);
  }

  lemma {:induction false} StepsInv(t0: int, actions: seq<Action>, tr: seq<State>, n: nat)
    requires Steps(t0, actions, tr) && Inv(tr[0], t0) && n < |tr|
    ensures Inv(tr[n], t0)
  {
    if n > 0 {
      StepsInv(t0, actions, tr, n - 1);
      OneStep(t0, actions, tr, n - 1);
      StepKeeps(tr[n - 1], t0, actions[n - 1]);
    }
  }

  lemma RunInv(replayed: seq<Entry>, t0: int, actions: seq<Action>, tr: seq<State>, n: nat)
    requires Run(replayed, t0, actions, tr) && n < |tr|
    ensures Inv(tr[n], t0)
  {
    StartInv(replayed, t0);
    StepsInv(t0, actions, tr, n);
  }

  // ---- Where the rings come from -----------------------------------------------------------

  /** The Fire calls so far, in order: one handler each. */
  function Fires(actions: seq<Action>): seq<Action> {
    if actions == [] then []
    else
      var last := actions[|actions| - 1];
      Fires(actions[..|actions| - 1]) + if last.Fire? then [last] else []
  }

  /** The entry tells the ring that was fired, under the stream's id where it has no name. */
  predicate Tells(e: Entry, f: Action) {
    && f.Fire? && e.event.stream == f.stream && e.event.time == f.time
    && e.event.name == (if f.name == "" then f.stream else f.name)
    && (e.event.hasSnapshot <==> e.jpeg != "")
  }

  predicate Follows(h: Handler, f: Action) {
    match h
    case Fetching(stream, name, time) => f == Fire(stream, name, time)
    case Numbered(e) => Tells(e, f)
    case Appended => f.Fire?
  }

  predicate AllFollow(hs: seq<Handler>, fires: seq<Action>) {
    |hs| == |fires| && forall i :: 0 <= i < |hs| ==> Follows(hs[i], fires[i])
  }

  /** In every run each handler carries exactly its own ring. */
  lemma {:induction false} HandlersCarryRings(t0: int, actions: seq<Action>, tr: seq<State>, n: nat)
    requires Steps(t0, actions, tr) && tr[0].handlers == [] && n < |tr|
    ensures AllFollow(tr[n].handlers, Fires(actions[..n]))
  {
    if n > 0 {
      HandlersCarryRings(t0, actions, tr, n - 1);
      OneStep(t0, actions, tr, n - 1);
      assert actions[..n][..n - 1] == actions[..n - 1];
      FollowStep(tr[n - 1], actions[n - 1], Fires(actions[..n - 1]));
    }
  }

  lemma FollowStep(st: State, a: Action, fires: seq<Action>)
    requires AllFollow(st.handlers, fires)
    ensures AllFollow(Step(st, a).handlers, fires + if a.Fire? then [a] else [])
  {
    var g := Step(st, a);
    if a.Number? && g != st {
      assert Tells(EntryFor(st.handlers[a.handler], a.jpeg, st.nextSeq + 1), fires[a.handler]);
    }
  }

  lemma NumberStep(st: State, i: nat, jpeg: string)
    requires i < |st.handlers| && st.handlers[i].Fetching?
    ensures var g := Step(st, Number(i, jpeg));
            && g.log == st.log && g.nextSeq == st.nextSeq + 1 && |g.handlers| == |st.handlers|
            && g.handlers[i] == Numbered(EntryFor(st.handlers[i], jpeg, st.nextSeq + 1))
  {
  }

  lemma IdOf(h: Handler, jpeg: string, seqNo: nat)
    requires h.Fetching?
    ensures EntryFor(h, jpeg, seqNo).event.eventId == EventId(h.time, seqNo)
  {
  }

  /** In every run, a handler that has its snapshot numbers its own ring with the next number there is. */
  lemma NumbersOwnRing(replayed: seq<Entry>, t0: int, actions: seq<Action>, tr: seq<State>, n: nat, i: nat)
    requires Run(replayed, t0, actions, tr) && n < |actions| && i < |tr[n].handlers|
    requires actions[n].Number? && actions[n].handler == i && tr[n].handlers[i].Fetching?
    ensures tr[n + 1].log == tr[n].log && tr[n + 1].nextSeq == tr[n].nextSeq + 1
    ensures i < |tr[n + 1].handlers| && tr[n + 1].handlers[i].Numbered? && i < |Fires(actions[..n])|
    ensures var e := tr[n + 1].handlers[i].entry;
            && Tells(e, Fires(actions[..n])[i]) && e.jpeg == actions[n].jpeg
            && e.event.eventId == EventId(e.event.time, tr[n + 1].nextSeq)
  {
    HandlersCarryRings(t0, actions, tr, n);
    OneStep(t0, actions, tr, n);
    NumberStep(tr[n], i, actions[n].jpeg);
    IdOf(tr[n].handlers[i], actions[n].jpeg, tr[n].nextSeq + 1);
    assert Follows(tr[n].handlers[i], Fires(actions[..n])[i]);
  }

  /** In every run, the list of rings grows by exactly the numbered ring of the handler that appends, and each
      handler appends once. */
  lemma AppendsOnce(t0: int, actions: seq<Action>, tr: seq<State>, n: nat, i: nat)
    requires Steps(t0, actions, tr) && n < |actions| && i < |tr[n].handlers|
    ensures i < |tr[n + 1].handlers|
    ensures tr[n].handlers[i].Appended? ==> tr[n + 1].handlers[i].Appended?
    ensures tr[n].handlers[i].Numbered? ==>
              if actions[n] == Append(i)
              then tr[n + 1].log == tr[n].log + [tr[n].handlers[i].entry] && tr[n + 1].handlers[i].Appended?
              else tr[n + 1].handlers[i] == tr[n].handlers[i]
    ensures tr[n + 1].log != tr[n].log ==>
              && actions[n].Append? && actions[n].handler < |tr[n].handlers|
              && tr[n].handlers[actions[n].handler].Numbered?
  {
    OneStep(t0, actions, tr, n);
  }

  /** In every interleaving of handlers, whether the bus is new or has been restarted, with any fire times
      since then in any order: no two rings share an id, the history is the last fifty, and LatestSnapshot
      answers with the newest ring of the stream among those, or with nothing. */
  lemma AnswersInAnyOrder(replayed: seq<Entry>, t0: int, actions: seq<Action>, tr: seq<State>, n: nat, stream: string)
    requires Run(replayed, t0, actions, tr) && n < |tr|
    ensures UniqueIds(tr[n].log) && tr[n].history == Window(tr[n].log)
    ensures Indexed(tr[n].history, tr[n].latest, stream) == Newest(Window(tr[n].log), stream)
  {
    RunInv(replayed, t0, actions, tr, n);
    AnswersNewest(tr[n].latest, tr[n].log, stream);
  }
}
