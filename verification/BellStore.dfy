/** The table of rings on disk (bellstore.go) and what a restart makes of it. */
module BellStore {
  import opened Text
  import opened BellLog

  // ---- The table on disk ------------------------------------------------------------------------

  datatype Row = Row(stream: string, name: string, firedAt: int, snapshot: string)

  type Table = map<string, Row>

  function RowOf(e: Entry): Row {
    Row(e.event.stream, e.event.name, e.event.time, e.jpeg)
  }

  function EntryOf(id: string, r: Row): Entry {
    Entry(Event(id, r.stream, r.name, r.firedAt, |r.snapshot| > 0), r.snapshot)
  }

  /** INSERT OR REPLACE. */
  function Saved(t: Table, e: Entry): Table {
    t[e.event.eventId := RowOf(e)]
  }

  /** ids is an answer to SELECT event_id ORDER BY fired_at DESC LIMIT limit. */
  ghost predicate IsTop(t: Table, limit: nat, ids: seq<string>) {
    && |ids| == Min(limit, |t|)
    && (forall k :: 0 <= k < |ids| ==> ids[k] in t)
    && (forall j, k :: 0 <= j < k < |ids| ==> ids[j] != ids[k] && t[ids[j]].firedAt >= t[ids[k]].firedAt)
    && (forall id, k :: id in t && id !in ids && 0 <= k < |ids| ==> t[id].firedAt <= t[ids[k]].firedAt)
  }

  function Restrict(t: Table, ids: seq<string>): Table {
    map id | id in t && id in ids :: t[id]
  }

  /** Every row is a ring that has been saved. */
  ghost predicate RowsAreRings(t: Table, log: seq<Entry>) {
    forall id :: id in t ==> exists i :: 0 <= i < |log| && log[i].event.eventId == id && t[id] == RowOf(log[i])
  }

  /** Every remembered ring has its row. */
  ghost predicate WindowSaved(t: Table, log: seq<Entry>) {
    forall i :: 0 <= i < |log| && i >= |log| - HISTORY_CAP ==> InTable(t, log[i])
  }

  ghost predicate Holds(t: Table, log: seq<Entry>) {
    RowsAreRings(t, log) && WindowSaved(t, log)
  }

  predicate InTable(t: Table, e: Entry) {
    e.event.eventId in t && t[e.event.eventId] == RowOf(e)
  }

  lemma SaveKeeps(t: Table, log: seq<Entry>, e: Entry)
    requires Holds(t, log) && UniqueIds(log + [e])
    ensures Holds(Saved(t, e), log + [e])
  {
    var l := log + [e];
    SaveKeepsRings(t, log, e);
    forall i | 0 <= i < |l| && i >= |l| - HISTORY_CAP
      ensures InTable(Saved(t, e), l[i])
    {
      if i < |log| {
        assert l[i] == log[i] && InTable(t, log[i]);
        assert l[i].event.eventId != l[|log|].event.eventId;
      }
    }
  }

  /** The ring a row stands for. */
  lemma RingOf(t: Table, log: seq<Entry>, id: string) returns (i: nat)
    requires RowsAreRings(t, log) && id in t
    ensures i < |log| && log[i].event.eventId == id && t[id] == RowOf(log[i])
  {
    i :| 0 <= i < |log| && log[i].event.eventId == id && t[id] == RowOf(log[i]);
  }

  /** The j-th newest ring. */
  function Back(log: seq<Entry>, j: nat): Entry
    requires j < |log|
  {
    log[|log| - 1 - j]
  }

  ghost predicate InWindow(log: seq<Entry>, id: string) {
    exists i :: 0 <= i < |log| && i >= |log| - HISTORY_CAP && log[i].event.eventId == id
  }

  /** No row of a ring that is no longer remembered is as new as a remembered ring. */
  ghost predicate NoNewerRow(t: Table, log: seq<Entry>) {
    forall id, i :: id in t && !InWindow(log, id) && 0 <= i < |log| && i >= |log| - HISTORY_CAP
      ==> t[id].firedAt < log[i].event.time
  }

  /** The order of times in the table is the order in which the remembered rings were appended. */
  ghost predicate InOrder(t: Table, log: seq<Entry>) {
    IncreasingTimes(Window(log)) && NoNewerRow(t, log)
  }

  lemma WindowTimes(log: seq<Entry>, i: nat, j: nat)
    requires IncreasingTimes(Window(log)) && i < j < |log| && i >= |log| - HISTORY_CAP
    ensures log[i].event.time < log[j].event.time
  {
    var w := Window(log);
    var start := |log| - |w|;
    assert w[i - start] == log[i] && w[j - start] == log[j];
  }

  /** Rings appended in time order are of course in order. */
  lemma IncreasingInOrder(t: Table, log: seq<Entry>)
    requires RowsAreRings(t, log) && IncreasingTimes(log)
    ensures InOrder(t, log)
  {
    forall id, i | id in t && !InWindow(log, id) && 0 <= i < |log| && i >= |log| - HISTORY_CAP
      ensures t[id].firedAt < log[i].event.time
    {
      var j :| 0 <= j < |log| && log[j].event.eventId == id && t[id] == RowOf(log[j]);
    }
  }

  /** ORDER BY ... DESC LIMIT 50 lists exactly the remembered rings, newest first. */
  lemma {:induction false} TopIsWindow(t: Table, log: seq<Entry>, ids: seq<string>, k: nat)
    requires Holds(t, log) && UniqueIds(log) && InOrder(t, log) && IsTop(t, HISTORY_CAP, ids)
    requires k < |log| && k < HISTORY_CAP
    ensures k < |ids| && ids[k] == Back(log, k).event.eventId
  {
    forall j | 0 <= j < k
      ensures j < |ids| && ids[j] == Back(log, j).event.eventId
    {
      TopIsWindow(t, log, ids, j);
    }
    EnoughRows(t, log, k);
    ListedIsNoOlder(t, log, ids, k);
    assert forall j :: 0 <= j < k ==> ids[j] != ids[k];
    NextListed(t, log, ids, k);
  }

  /** A ring with a row that came before the k-th newest one is older. */
  lemma EarlierIsOlder(t: Table, log: seq<Entry>, i: nat, k: nat)
    requires UniqueIds(log) && InOrder(t, log) && k < HISTORY_CAP && i + k + 1 < |log| && InTable(t, log[i])
    ensures log[i].event.time < Back(log, k).event.time
  {
    if i >= |log| - HISTORY_CAP {
      WindowTimes(log, i, |log| - 1 - k);
    } else {
      assert !InWindow(log, log[i].event.eventId);
    }
  }

  /** The k-th row is not one of the k newer rings, which have been listed, and it is not older. */
  lemma NextListed(t: Table, log: seq<Entry>, ids: seq<string>, k: nat)
    requires RowsAreRings(t, log) && UniqueIds(log) && InOrder(t, log)
    requires k < |log| && k < HISTORY_CAP && k < |ids| && ids[k] in t
    requires forall j :: 0 <= j < k ==> Back(log, j).event.eventId != ids[k]
    requires t[ids[k]].firedAt >= Back(log, k).event.time
    ensures ids[k] == Back(log, k).event.eventId
  {
    var i := RingOf(t, log, ids[k]);
    var j := |log| - 1 - i;
    assert log[i] == Back(log, j);
    assert !(0 <= j < k);
    if j > k { EarlierIsOlder(t, log, i, k); }
  }

  lemma EnoughRows(t: Table, log: seq<Entry>, k: nat)
    requires Holds(t, log) && UniqueIds(log) && k < |log| && k < HISTORY_CAP
    ensures |t| > k
  {
    var ids := set i | |log| - 1 - k <= i < |log| :: log[i].event.eventId;
    assert forall i :: |log| - 1 - k <= i < |log| ==> InTable(t, log[i]);
    assert ids <= t.Keys;
    IdsCount(log, |log| - 1 - k);
    CardinalityLe(ids, t.Keys);
  }

  lemma {:induction false} IdsCount(log: seq<Entry>, from: nat)
    requires UniqueIds(log) && from <= |log|
    ensures |set i | from <= i < |log| :: log[i].event.eventId| == |log| - from
    decreases |log| - from
  {
    var ids := set i | from <= i < |log| :: log[i].event.eventId;
    if from < |log| {
      var rest := set i | from + 1 <= i < |log| :: log[i].event.eventId;
      IdsCount(log, from + 1);
      assert ids == rest + {log[from].event.eventId};
      assert log[from].event.eventId !in rest;
    } else {
      assert ids == {};
    }
  }

  lemma {:induction false} CardinalityLe<T>(a: set<T>, b: set<T>)
    requires a <= b
    ensures |a| <= |b|
  {
    if a != {} {
      var x :| x in a;
      CardinalityLe(a - {x}, b - {x});
    }
  }

  /** The k-th listed row is no older than the k-th newest ring: otherwise that ring, being newer,
      would have been listed in its place. */
  lemma ListedIsNoOlder(t: Table, log: seq<Entry>, ids: seq<string>, k: nat)
    requires WindowSaved(t, log) && UniqueIds(log) && IsTop(t, HISTORY_CAP, ids)
    requires k < |log| && k < HISTORY_CAP && k < |ids|
    requires forall j :: 0 <= j < k ==> ids[j] == Back(log, j).event.eventId
    ensures t[ids[k]].firedAt >= Back(log, k).event.time
  {
    var want := Back(log, k).event.eventId;
    assert InTable(t, log[|log| - 1 - k]);
    forall n | 0 <= n < k
      ensures ids[n] != want
    {
      assert Back(log, n) == log[|log| - 1 - n];
    }
    if m :| 0 <= m < |ids| && ids[m] == want {
      assert m >= k;
    }
  }

  lemma PruneKeeps(t: Table, log: seq<Entry>, ids: seq<string>)
    requires Holds(t, log) && UniqueIds(log) && InOrder(t, log) && IsTop(t, HISTORY_CAP, ids)
    ensures Holds(Restrict(t, ids), log)
  {
    forall i | 0 <= i < |log| && i >= |log| - HISTORY_CAP
      ensures InTable(Restrict(t, ids), log[i])
    {
      StaysInTable(t, log, ids, i);
    }
    PruneKeepsRings(t, log, ids);
  }

  lemma StaysInTable(t: Table, log: seq<Entry>, ids: seq<string>, i: nat)
    requires Holds(t, log) && UniqueIds(log) && InOrder(t, log) && IsTop(t, HISTORY_CAP, ids)
    requires i < |log| && i >= |log| - HISTORY_CAP
    ensures InTable(Restrict(t, ids), log[i])
  {
    assert InTable(t, log[i]);
    TopIsWindow(t, log, ids, |log| - 1 - i);
    assert Back(log, |log| - 1 - i) == log[i];
  }

  function Entries(t: Table, ids: seq<string>): seq<Entry>
    requires forall k :: 0 <= k < |ids| ==> ids[k] in t
  {
    seq(|ids|, k requires 0 <= k < |ids| => EntryOf(ids[k], t[ids[k]]))
  }

  function Reverse<T>(s: seq<T>): seq<T> {
    seq(|s|, k requires 0 <= k < |s| => s[|s| - 1 - k])
  }

  lemma ReversedTail(es: seq<Entry>, log: seq<Entry>)
    requires |es| == Min(|log|, HISTORY_CAP)
    requires forall k :: 0 <= k < |es| ==> es[k] == Back(log, k)
    ensures Reverse(es) == Window(log)
  {
    var r, w := Reverse(es), Window(log);
    forall k | 0 <= k < |es|
      ensures r[k] == w[k]
    {
      assert es[|es| - 1 - k] == Back(log, |es| - 1 - k);
    }
  }

  /** What LoadRecent returns, oldest first, is the window. */
  lemma LoadedIsWindow(t: Table, log: seq<Entry>, ids: seq<string>)
    requires Holds(t, log) && AllRung(log) && UniqueIds(log) && InOrder(t, log) && IsTop(t, HISTORY_CAP, ids)
    ensures Reverse(Entries(t, ids)) == Window(log)
  {
    RowsBound(t, log);
    if |log| > 0 { EnoughRows(t, log, Min(|log|, HISTORY_CAP) - 1); }
    assert |ids| == Min(|log|, HISTORY_CAP);
    forall k | 0 <= k < |ids|
      ensures Entries(t, ids)[k] == Back(log, k)
    {
      RowIsRing(t, log, ids, k);
    }
    ReversedTail(Entries(t, ids), log);
  }

  lemma RowIsRing(t: Table, log: seq<Entry>, ids: seq<string>, k: nat)
    requires Holds(t, log) && AllRung(log) && UniqueIds(log) && InOrder(t, log) && IsTop(t, HISTORY_CAP, ids)
    requires k < |ids| && k < |log|
    ensures EntryOf(ids[k], t[ids[k]]) == Back(log, k)
  {
    TopIsWindow(t, log, ids, k);
    assert InTable(t, Back(log, k)) && Rung(Back(log, k));
  }

  lemma RowsBound(t: Table, log: seq<Entry>)
    requires Holds(t, log) && UniqueIds(log)
    ensures |t| <= |log|
  {
    var ids := set i | 0 <= i < |log| :: log[i].event.eventId;
    forall id | id in t
      ensures id in ids
    {
      var i := RingOf(t, log, id);
    }
    assert t.Keys <= ids;
    IdsCount(log, 0);
    CardinalityLe(t.Keys, ids);
  }

  /** A restart changes no answer: the bus rebuilt from the table gives the same history, the same
      latest snapshot of every stream and the same snapshot of every event. */
  lemma RestartChangesNoAnswer(t: Table, log: seq<Entry>, ids: seq<string>, latest: map<string, string>, stream: string)
    requires Holds(t, log) && AllRung(log) && UniqueIds(log) && InOrder(t, log) && IsTop(t, HISTORY_CAP, ids)
    requires IndexSince(latest, log)
    ensures Reverse(Entries(t, ids)) == Window(log)
    ensures Indexed(Window(log), LatestIndex(Window(log)), stream) == Indexed(Window(log), latest, stream)
  {
    LoadedIsWindow(t, log, ids);
    AnswersNewest(latest, log, stream);
    WindowIndexes(log);
    AnswersNewest(LatestIndex(Window(log)), log, stream);
  }

  lemma SaveKeepsRings(t: Table, log: seq<Entry>, e: Entry)
    requires RowsAreRings(t, log)
    ensures RowsAreRings(Saved(t, e), log + [e])
  {
    var l := log + [e];
    forall id | id in Saved(t, e)
      ensures exists i :: 0 <= i < |l| && l[i].event.eventId == id && Saved(t, e)[id] == RowOf(l[i])
    {
      if id == e.event.eventId {
        assert l[|log|] == e;
      } else {
        var i := RingOf(t, log, id);
        assert l[i] == log[i];
      }
    }
  }

  lemma PruneKeepsRings(t: Table, log: seq<Entry>, ids: seq<string>)
    requires RowsAreRings(t, log)
    ensures RowsAreRings(Restrict(t, ids), log)
  {
    forall id | id in Restrict(t, ids)
      ensures exists i :: 0 <= i < |log| && log[i].event.eventId == id && Restrict(t, ids)[id] == RowOf(log[i])
    {
      var i := RingOf(t, log, id);
    }
  }

  /** Whatever the times and ids are, a table never holds anything but rings that were saved. */
  lemma {:induction false} TablesAreRings(ts: seq<Table>, log: seq<Entry>, n: nat, prefix: seq<Entry>)
    requires Tables(ts, log) && n <= |log| && prefix == log[..n]
    ensures RowsAreRings(ts[n], prefix)
  {
    if n > 0 {
      var shorter := log[..n - 1];
      TablesAreRings(ts, log, n - 1, shorter);
      assert TableStep(ts, log, n - 1);
      SaveKeepsRings(ts[n - 1], shorter, log[n - 1]);
      assert shorter + [log[n - 1]] == prefix;
      var saved := Saved(ts[n - 1], log[n - 1]);
      if ts[n] != saved {
        var ids :| IsTop(saved, HISTORY_CAP, ids) && ts[n] == Restrict(saved, ids);
        PruneKeepsRings(saved, prefix, ids);
      }
    }
  }

  // ---- When a restart reorders ------------------------------------------------------------

  ghost predicate DistinctTimes(log: seq<Entry>) {
    forall i, j :: 0 <= i < j < |log| ==> log[i].event.time != log[j].event.time
  }

  /** The reloaded history is the remembered one exactly when every remembered ring has been saved, they
      were appended in time order, and no row of a forgotten ring is newer than one of them. */
  lemma ReloadIsWindowIff(t: Table, log: seq<Entry>, ids: seq<string>)
    requires RowsAreRings(t, log) && AllRung(log) && UniqueIds(log) && DistinctTimes(log)
    requires IsTop(t, HISTORY_CAP, ids)
    ensures Reverse(Entries(t, ids)) == Window(log) <==> WindowSaved(t, log) && InOrder(t, log)
  {
    if WindowSaved(t, log) && InOrder(t, log) {
      LoadedIsWindow(t, log, ids);
    }
    if Reverse(Entries(t, ids)) == Window(log) {
      ReloadLists(t, log, ids);
      ListedSaved(t, log, ids);
      ListedInOrder(t, log, ids);
      ListedNoNewer(t, log, ids);
    }
  }

  /** ids lists the last rings of log, newest first. */
  ghost predicate Lists(t: Table, log: seq<Entry>, ids: seq<string>) {
    |ids| == Min(|log|, HISTORY_CAP) && forall k :: 0 <= k < |ids| ==> Listed(t, log, ids, k)
  }

  predicate Listed(t: Table, log: seq<Entry>, ids: seq<string>, k: nat)
    requires k < |ids|
  {
    k < |log| && ids[k] in t && EntryOf(ids[k], t[ids[k]]) == Back(log, k)
  }

  lemma ReloadLists(t: Table, log: seq<Entry>, ids: seq<string>)
    requires IsTop(t, HISTORY_CAP, ids) && Reverse(Entries(t, ids)) == Window(log)
    ensures Lists(t, log, ids)
  {
    var es := Entries(t, ids);
    assert |es| == |Reverse(es)| == |Window(log)|;
    forall k | 0 <= k < |ids|
      ensures Listed(t, log, ids, k)
    {
      assert Reverse(es)[|es| - 1 - k] == es[k];
      assert Window(log)[|es| - 1 - k] == Back(log, k);
    }
  }

  lemma ListedSaved(t: Table, log: seq<Entry>, ids: seq<string>)
    requires Lists(t, log, ids)
    ensures WindowSaved(t, log)
  {
    forall i | 0 <= i < |log| && i >= |log| - HISTORY_CAP
      ensures InTable(t, log[i])
    {
      assert Listed(t, log, ids, |log| - 1 - i);
    }
  }

  lemma ListedPair(t: Table, log: seq<Entry>, ids: seq<string>, j: nat, k: nat)
    requires Lists(t, log, ids) && IsTop(t, HISTORY_CAP, ids) && DistinctTimes(log) && j < k < |ids|
    ensures k < |log| && Back(log, k).event.time < Back(log, j).event.time
  {
    assert Listed(t, log, ids, j) && Listed(t, log, ids, k);
    assert t[ids[j]].firedAt >= t[ids[k]].firedAt;
    assert log[|log| - 1 - k].event.time != log[|log| - 1 - j].event.time;
  }

  lemma ListedInOrder(t: Table, log: seq<Entry>, ids: seq<string>)
    requires Lists(t, log, ids) && IsTop(t, HISTORY_CAP, ids) && DistinctTimes(log)
    ensures IncreasingTimes(Window(log))
  {
    var w := Window(log);
    forall a, b | 0 <= a < b < |w|
      ensures w[a].event.time < w[b].event.time
    {
      ListedPair(t, log, ids, |w| - 1 - b, |w| - 1 - a);
      assert w[a] == Back(log, |w| - 1 - a) && w[b] == Back(log, |w| - 1 - b);
    }
  }

  lemma ListedNoNewer(t: Table, log: seq<Entry>, ids: seq<string>)
    requires Lists(t, log, ids) && IsTop(t, HISTORY_CAP, ids) && RowsAreRings(t, log) && DistinctTimes(log)
    ensures NoNewerRow(t, log)
  {
    forall id, i | id in t && !InWindow(log, id) && 0 <= i < |log| && i >= |log| - HISTORY_CAP
      ensures t[id].firedAt < log[i].event.time
    {
      NotListed(t, log, ids, id);
      var j := RingOf(t, log, id);
      var k := |log| - 1 - i;
      assert Listed(t, log, ids, k);
      assert i != j;
      assert log[if i < j then i else j].event.time != log[if i < j then j else i].event.time;
    }
  }

  lemma NotListed(t: Table, log: seq<Entry>, ids: seq<string>, id: string)
    requires Lists(t, log, ids) && !InWindow(log, id)
    ensures id !in ids
  {
    forall k | 0 <= k < |ids|
      ensures ids[k] != id
    {
      assert Listed(t, log, ids, k);
      assert log[|log| - 1 - k].event.eventId == ids[k];
    }
  }

  /** Two rings handled in the other order come back from a restart in the order of their times. */
  lemma RestartMayReorder(first: Entry, second: Entry, ids: seq<string>)
    requires Rung(first) && Rung(second) && first.event.time > second.event.time
    requires IsTop(Saved(Saved(map[], first), second), HISTORY_CAP, ids)
    ensures Reverse(Entries(Saved(Saved(map[], first), second), ids)) != Window([first, second])
  {
    var t, log := Saved(Saved(map[], first), second), [first, second];
    TwoRung(first, second);
    TwoTimes(first, second);
    TimesTellApart(first, second);
    TwoUnique(first, second);
    TwoRows(first, second);
    ReloadIsWindowIff(t, log, ids);
    assert Window(log)[0].event.time > Window(log)[1].event.time;
  }

  lemma TwoRows(first: Entry, second: Entry)
    ensures RowsAreRings(Saved(Saved(map[], first), second), [first, second])
  {
    SaveKeepsRings(map[], [], first);
    SaveKeepsRings(Saved(map[], first), [first], second);
    assert [] + [first] == [first] && [first] + [second] == [first, second];
  }

  lemma TimesTellApart(first: Entry, second: Entry)
    requires Rung(first) && Rung(second) && first.event.time != second.event.time
    ensures first.event.eventId != second.event.eventId
  {
    var n: nat :| first.event.eventId == EventId(first.event.time, n);
    var m: nat :| second.event.eventId == EventId(second.event.time, m);
    EventIdInjective(first.event.time, n, second.event.time, m);
  }

  lemma TwoRung(first: Entry, second: Entry)
    requires Rung(first) && Rung(second)
    ensures AllRung([first, second])
  {
    var log := [first, second];
    forall i | 0 <= i < |log|
      ensures Rung(log[i])
    {
      assert log[i] == if i == 0 then first else second;
    }
  }

  lemma TwoTimes(first: Entry, second: Entry)
    requires first.event.time != second.event.time
    ensures DistinctTimes([first, second])
  {
  }

  lemma TwoUnique(first: Entry, second: Entry)
    requires first.event.eventId != second.event.eventId
    ensures UniqueIds([first, second])
  {
  }

  lemma WindowIndexes(log: seq<Entry>)
    ensures IndexSince(LatestIndex(Window(log)), log)
  {
    assert log[|log| - |Window(log)|..] == Window(log);
  }

  /** The tables a store goes through while the rings of log are saved one by one, each save followed
      by a prune that may or may not work. */
  ghost predicate Tables(ts: seq<Table>, log: seq<Entry>) {
    && |ts| == |log| + 1 && ts[0] == map[]
    && forall n :: 0 <= n < |log| ==> TableStep(ts, log, n)
  }

  ghost predicate TableStep(ts: seq<Table>, log: seq<Entry>, n: nat)
    requires |ts| == |log| + 1 && n < |log|
  {
    var saved := Saved(ts[n], log[n]);
    ts[n + 1] == saved || exists ids :: IsTop(saved, HISTORY_CAP, ids) && ts[n + 1] == Restrict(saved, ids)
  }

  lemma TableStepHolds(t: Table, g: Table, log: seq<Entry>, e: Entry)
    requires Holds(t, log) && UniqueIds(log + [e]) && IncreasingTimes(log + [e])
    requires g == Saved(t, e) || exists ids :: IsTop(Saved(t, e), HISTORY_CAP, ids) && g == Restrict(Saved(t, e), ids)
    ensures Holds(g, log + [e])
  {
    SaveKeeps(t, log, e);
    if g != Saved(t, e) {
      var ids :| IsTop(Saved(t, e), HISTORY_CAP, ids) && g == Restrict(Saved(t, e), ids);
      IncreasingInOrder(Saved(t, e), log + [e]);
      PruneKeeps(Saved(t, e), log + [e], ids);
    }
  }

  lemma PrefixOrdered(log: seq<Entry>, n: nat, prefix: seq<Entry>, e: Entry)
    requires UniqueIds(log) && IncreasingTimes(log) && n < |log| && prefix == log[..n] && e == log[n]
    ensures prefix + [e] == log[..n + 1] && UniqueIds(prefix + [e]) && IncreasingTimes(prefix + [e])
  {
    assert forall i :: 0 <= i <= n ==> (prefix + [e])[i] == log[i];
  }

  /** After any number of rings the table still holds every remembered ring. */
  lemma {:induction false} TablesHold(ts: seq<Table>, log: seq<Entry>, n: nat, prefix: seq<Entry>)
    requires Tables(ts, log) && AllRung(log) && IncreasingTimes(log) && n <= |log| && prefix == log[..n]
    ensures Holds(ts[n], prefix)
  {
    if n > 0 {
      var m, shorter := n - 1, log[..n - 1];
      TablesHold(ts, log, m, shorter);
      assert TableStep(ts, log, m);
      TimesMakeIdsUnique(log);
      PrefixOrdered(log, m, shorter, log[m]);
      TableStepHolds(ts[m], ts[n], shorter, log[m]);
    }
  }

  // ---- The store itself -------------------------------------------------------------------------

  lemma {:induction false} MostRecentExists(t: Table, rest: set<string>) returns (best: string)
    requires rest != {} && rest <= t.Keys
    ensures best in rest && forall id :: id in rest ==> t[id].firedAt <= t[best].firedAt
  {
    var id :| id in rest;
    if rest == {id} {
      best := id;
    } else {
      assert rest - {id} != {};
      var other := MostRecentExists(t, rest - {id});
      best := if t[other].firedAt <= t[id].firedAt then id else other;
    }
  }

  /** A list of row ids that is a top list as far as it goes; `rest` are the rows not listed. */
  ghost predicate TopSoFar(t: Table, ids: seq<string>, rest: set<string>) {
    && rest <= t.Keys && |ids| + |rest| == |t|
    && (forall id :: id in t ==> (id in ids <==> id !in rest))
    && (forall k :: 0 <= k < |ids| ==> ids[k] in t)
    && (forall j, k :: 0 <= j < k < |ids| ==> ids[j] != ids[k] && t[ids[j]].firedAt >= t[ids[k]].firedAt)
    && (forall id, k :: id in rest && 0 <= k < |ids| ==> t[id].firedAt <= t[ids[k]].firedAt)
  }

  lemma ListOneMore(t: Table, ids: seq<string>, rest: set<string>, id: string)
    requires TopSoFar(t, ids, rest) && id in rest
    requires forall other :: other in rest ==> t[other].firedAt <= t[id].firedAt
    ensures TopSoFar(t, ids + [id], rest - {id})
  {
  }

  class BellStore {
    var rows: Table

    constructor ()
      ensures rows == map[]
    {
      rows := map[];
    }

    /** SELECT event_id ... ORDER BY fired_at_unix_nano DESC LIMIT limit. */
    method SelectRecent(limit: nat) returns (ids: seq<string>)
      ensures IsTop(rows, limit, ids)
    {
      ids := [];
      var rest := rows.Keys;
      while |ids| < limit && rest != {}
        invariant TopSoFar(rows, ids, rest) && |ids| <= limit
        decreases rest
      {
        ghost var best := MostRecentExists(rows, rest);
        var id :| id in rest && forall other :: other in rest ==> rows[other].firedAt <= rows[id].firedAt;
        ListOneMore(rows, ids, rest, id);
        ids, rest := ids + [id], rest - {id};
      }
    }

    /** A save that works adds the ring to those remembered and touches no other row. */
    method Save(e: Entry, ok: bool)
      modifies this
      ensures rows == if ok then Saved(old(rows), e) else old(rows)
      ensures ok ==> InTable(rows, e)
      ensures forall id :: id != e.event.eventId ==> (id in rows <==> id in old(rows))
      ensures forall id :: id != e.event.eventId && id in rows ==> rows[id] == old(rows)[id]
      ensures ok ==> forall log :: Holds(old(rows), log) && UniqueIds(log + [e]) ==> Holds(rows, log + [e])
    {
      ghost var before := rows;
      if ok {
        rows := rows[e.event.eventId := RowOf(e)];
        forall log | Holds(before, log) && UniqueIds(log + [e])
          ensures Holds(rows, log + [e])
        {
          SaveKeeps(before, log, e);
        }
      }
    }

    method Prune(keep: nat, ok: bool)
      modifies this
      ensures ok && keep > 0 ==> exists ids :: IsTop(old(rows), keep, ids) && rows == Restrict(old(rows), ids)
      ensures !ok || keep == 0 ==> rows == old(rows)
    {
      if ok && keep > 0 {
        var ids := SelectRecent(keep);
        rows := map id | id in rows && id in ids :: rows[id];
        assert rows == Restrict(old(rows), ids);
      }
    }

    /** Reads the rows newest first, then reverses them in place. */
    method LoadRecent(limit: nat) returns (out: array<Entry>, ghost ids: seq<string>)
      ensures IsTop(rows, limit, ids) && out[..] == Reverse(Entries(rows, ids))
      ensures fresh(out)
    {
      var found := SelectRecent(limit);
      ids := found;
      var table := rows;
      out := new Entry[|found|](k requires 0 <= k < |found| && found[k] in table => EntryOf(found[k], table[found[k]]));
      assert out[..] == Entries(rows, ids);
      ReverseInPlace(out);
    }
  }

  method ReverseInPlace(a: array<Entry>)
    modifies a
    ensures a[..] == Reverse(old(a[..]))
  {
    var i, j := 0, a.Length - 1;
    while i < j
      invariant 0 <= i <= j + 1 && j == a.Length - 1 - i
      invariant forall k :: i <= k <= j ==> a[k] == old(a[k])
      invariant forall k :: 0 <= k < i ==> a[k] == old(a[a.Length - 1 - k])
      invariant forall k :: j < k < a.Length ==> a[k] == old(a[a.Length - 1 - k])
    {
      a[i], a[j] := a[j], a[i];
      i, j := i + 1, j - 1;
    }
    assert forall k :: 0 <= k < a.Length ==> a[k] == old(a[..])[a.Length - 1 - k];
  }
}
