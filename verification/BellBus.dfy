/** The bell coordinator (bell.go): the ring history it keeps in memory, the queries on it, and the
    handling of one ring. */
module BellBus {
  import opened Text
  import opened BellLog
  import opened BellStore

  /** The table holds the rings and orders them as they were appended. */
  ghost predicate Reloadable(t: Table, log: seq<Entry>) {
    Holds(t, log) && AllRung(log) && UniqueIds(log) && InOrder(t, log)
  }

  /** What the table needs to go on holding the rings: they come in time order and the save works. */
  ghost predicate Kept(t: Table, log: seq<Entry>, e: Entry, saved: bool) {
    saved && Holds(t, log) && AllRung(log) && IncreasingTimes(log + [e])
  }

  lemma SeparateStill(log: seq<Entry>, drawn: nat, e: Entry)
    requires e.event.eventId == EventId(e.event.time, drawn + 1)
    ensures forall t0 | t0 <= e.event.time && Separate(log, t0, drawn) :: Separate(log + [e], t0, drawn + 1)
  {
    forall t0 | t0 <= e.event.time && Separate(log, t0, drawn)
      ensures Separate(log + [e], t0, drawn + 1)
    {
      NumbersKeepSeparate(log, t0, drawn, e);
    }
  }

  lemma KeptRung(log: seq<Entry>, e: Entry)
    requires AllRung(log) && Rung(e)
    ensures AllRung(log + [e])
  {
  }

  class BellBus {
    const store: BellStore
    const history: array<Entry>
    var count: nat
    var latest: map<string, string>
    var nextSeq: nat

    ghost predicate Valid()
      reads this
    {
      history.Length == HISTORY_CAP && count <= HISTORY_CAP
    }

    ghost function Contents(): seq<Entry>
      requires Valid()
      reads this, history
    {
      history[..count]
    }

    /** The bus remembers exactly the window of this list of rings, and its index goes with it. */
    ghost predicate Refines(log: seq<Entry>)
      reads this, history
    {
      Valid() && Contents() == Window(log) && IndexSince(latest, log)
    }

    /** Replays what the store holds; a load that fails leaves the history empty. */
    constructor (store: BellStore, loaded: bool)
      ensures Valid() && this.store == store && fresh(history) && nextSeq == 0
      ensures !loaded ==> Contents() == [] && latest == map[]
      ensures forall log | loaded && Reloadable(store.rows, log) :: Refines(log)
    {
      this.store := store;
      history := new Entry[HISTORY_CAP](_ => Entry(Event("", "", "", 0, false), ""));
      count, latest, nextSeq := 0, map[], 0;
      new;
      if loaded {
        var entries, ids := store.LoadRecent(HISTORY_CAP);
        Replay(entries[..]);
        forall log | Reloadable(store.rows, log)
          ensures Refines(log)
        {
          LoadedIsWindow(store.rows, log, ids);
          WindowIndexes(log);
        }
      }
    }

    method Replay(entries: seq<Entry>)
      requires Valid() && count == 0 && latest == map[] && |entries| <= HISTORY_CAP
      modifies `count, `latest, history
      ensures Valid() && Contents() == entries && latest == LatestIndex(entries)
    {
      var i := 0;
      while i < |entries|
        invariant 0 <= i <= |entries| && Valid() && count == i
        invariant Contents() == entries[..i] && latest == LatestIndex(entries[..i])
      {
        var e := entries[i];
        LatestAppend(entries[..i], e);
        assert entries[..i] + [e] == entries[..i + 1];
        history[count] := e;
        count := count + 1;
        latest := latest[e.event.stream := e.event.eventId];
        i := i + 1;
      }
      assert entries[..i] == entries;
    }

    /** Moves a full array down by one, forgetting the oldest ring. */
    method Slide()
      requires Valid() && count == HISTORY_CAP
      modifies `count, history
      ensures Valid() && count == HISTORY_CAP - 1 && Contents() == old(Contents())[1..]
    {
      var i := 1;
      while i < HISTORY_CAP
        invariant 1 <= i <= HISTORY_CAP && Valid() && count == HISTORY_CAP
        invariant forall k :: 0 <= k < i - 1 ==> history[k] == old(history[k + 1])
        invariant forall k :: i <= k < HISTORY_CAP ==> history[k] == old(history[k])
      {
        history[i - 1] := history[i];
        i := i + 1;
      }
      count := HISTORY_CAP - 1;
    }

    method Put(h: Entry)
      requires Valid() && count < HISTORY_CAP
      modifies `count, history
      ensures Valid() && count == old(count) + 1 && Contents() == old(Contents()) + [h]
    {
      ghost var kept := Contents();
      history[count] := h;
      assert history[..count] == kept;
      count := count + 1;
    }

    /** Appends a ring, sliding the array first when it is full. */
    method AppendHistory(h: Entry)
      requires Valid()
      modifies `count, `latest, history
      ensures Valid() && Contents() == Window(old(Contents()) + [h])
      ensures latest == old(latest)[h.event.stream := h.event.eventId]
    {
      WindowOfOneMore(Contents(), h);
      if count >= HISTORY_CAP {
        Slide();
      }
      Put(h);
      latest := latest[h.event.stream := h.event.eventId];
    }

    /** Appends the ring that comes next in this list of all rings. */
    method Remember(e: Entry, ghost log: seq<Entry>)
      requires Refines(log)
      modifies `count, `latest, history
      ensures Refines(log + [e])
    {
      AppendHistory(e);
      WindowAppend(log, e);
      IndexSinceAppend(old(latest), log, e);
    }

    /** The search both snapshot queries make, newest ring first. */
    method FindById(id: string) returns (answer: Answer)
      requires Valid()
      ensures answer == AnswerOf(ById(Contents(), id))
    {
      var i := count;
      while i > 0
        invariant 0 <= i <= count
        invariant ById(Contents(), id) == ById(history[..i], id)
      {
        var h := history[i - 1];
        assert history[..i][..i - 1] == history[..i - 1];
        if h.event.eventId == id {
          return (h.jpeg, h.event.time, |h.jpeg| > 0);
        }
        i := i - 1;
      }
      answer := NO_ANSWER;
    }

    method LatestSnapshot(stream: string) returns (answer: Answer)
      requires Valid()
      ensures answer == AnswerOf(Indexed(Contents(), latest, stream))
      ensures forall log :: Refines(log) && UniqueIds(log) ==> answer == AnswerOf(Newest(Window(log), stream))
    {
      if stream in latest {
        answer := FindById(latest[stream]);
      } else {
        answer := NO_ANSWER;
      }
      forall log | Refines(log) && UniqueIds(log)
        ensures answer == AnswerOf(Newest(Window(log), stream))
      {
        AnswersNewest(latest, log, stream);
      }
    }

    method SnapshotByEvent(id: string) returns (answer: Answer)
      requires Valid()
      ensures answer == AnswerOf(ById(Contents(), id))
    {
      answer := FindById(id);
    }

    /** The remembered events, newest first. */
    method History() returns (out: array<Event>)
      requires Valid()
      ensures fresh(out) && out.Length == |Contents()|
      ensures forall k :: 0 <= k < out.Length ==> out[k] == Contents()[|Contents()| - 1 - k].event
    {
      out := new Event[count](_ => Event("", "", "", 0, false));
      var i := 0;
      while i < count
        invariant 0 <= i <= count && Valid() && Contents() == old(Contents())
        invariant forall k :: count - i <= k < count ==> out[k] == history[count - 1 - k].event
      {
        out[count - 1 - i] := history[i].event;
        i := i + 1;
      }
    }

    method MakeEventId(t: int) returns (id: string)
      modifies `nextSeq
      ensures nextSeq == old(nextSeq) + 1 && id == EventId(t, nextSeq)
    {
      nextSeq := nextSeq + 1;
      id := Itoa(t) + "-" + Itoa(nextSeq);
    }

    method MakeEntry(stream: string, name: string, t: int, jpeg: string) returns (e: Entry)
      modifies `nextSeq
      ensures nextSeq == old(nextSeq) + 1 && e.event.eventId == EventId(t, nextSeq)
      ensures e.event.stream == stream && e.event.time == t && e.jpeg == jpeg && Rung(e)
      ensures e.event.name == if name == "" then stream else name
    {
      var id := MakeEventId(t);
      e := Entry(Event(id, stream, if name == "" then stream else name, t, |jpeg| > 0), jpeg);
    }

    /** One ring, up to the broadcast. Whatever its time, the bus goes on remembering the last rings in
        the order of their appends, and the sequence number keeps the ids apart. When rings come in
        increasing time order and the save works, the table goes on holding them too, whatever the
        prune does. */
    method Handle(stream: string, name: string, t: int, jpeg: string, saved: bool, pruned: bool, ghost log: seq<Entry>)
      returns (e: Entry)
      requires Refines(log)
      modifies this, history, store
      ensures e.event.stream == stream && e.event.time == t && e.jpeg == jpeg && Rung(e)
      ensures e.event.name == if name == "" then stream else name
      ensures Refines(log + [e])
      ensures forall t0 | t0 <= t && Separate(log, t0, old(nextSeq)) :: Separate(log + [e], t0, nextSeq)
      ensures Kept(old(store.rows), log, e, saved) ==> Holds(store.rows, log + [e])
    {
      e := MakeEntry(stream, name, t, jpeg);
      Remember(e, log);
      SeparateStill(log, old(nextSeq), e);
      Persist(e, saved, pruned, log);
    }

    /** The save, and the prune behind a save that worked. */
    method Persist(e: Entry, saved: bool, pruned: bool, ghost log: seq<Entry>)
      requires Rung(e)
      modifies store
      ensures Kept(old(store.rows), log, e, saved) ==> Holds(store.rows, log + [e])
    {
      store.Save(e, saved);
      if saved {
        store.Prune(HISTORY_CAP, pruned);
        if Kept(old(store.rows), log, e, saved) {
          KeptRung(log, e);
          TimesMakeIdsUnique(log + [e]);
          TableStepHolds(old(store.rows), store.rows, log, e);
        }
      }
    }
  }
}
