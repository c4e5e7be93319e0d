/** What the ring history of bell.go should answer, in terms of the plain list of every ring there
    ever was, and how an index of latest events that is never cleaned can still give that answer. */
module BellLog {
  import opened Text

  const HISTORY_CAP := 50

  /** Time is Unix nanoseconds. */
  datatype Event = Event(eventId: string, stream: string, name: string, time: int, hasSnapshot: bool)

  /** jpeg is empty when the snapshot failed. */
  datatype Entry = Entry(event: Event, jpeg: string)

  /** What a snapshot query answers: image, time and whether there is an image. */
  type Answer = (string, int, bool)

  const NO_ANSWER: Answer := ("", 0, false)

  function AnswerOf(e: Option<Entry>): Answer {
    match e
    case None => NO_ANSWER
    case Some(h) => (h.jpeg, h.event.time, |h.jpeg| > 0)
  }

  // ---- What the queries should say, of the list of all rings ---------------------------

  /** The rings that are remembered: the last fifty. */
  function Window(log: seq<Entry>): seq<Entry> {
    if |log| <= HISTORY_CAP then log else log[|log| - HISTORY_CAP..]
  }

  function Newest(w: seq<Entry>, stream: string): Option<Entry> {
    if |w| == 0 then None
    else if w[|w| - 1].event.stream == stream then Some(w[|w| - 1])
    else Newest(w[..|w| - 1], stream)
  }

  function ById(w: seq<Entry>, id: string): Option<Entry> {
    if |w| == 0 then None
    else if w[|w| - 1].event.eventId == id then Some(w[|w| - 1])
    else ById(w[..|w| - 1], id)
  }

  predicate UniqueIds(log: seq<Entry>) {
    forall i, j :: 0 <= i < j < |log| ==> log[i].event.eventId != log[j].event.eventId
  }

  predicate NotIn(log: seq<Entry>, id: string) {
    forall k :: 0 <= k < |log| ==> log[k].event.eventId != id
  }

  predicate IncreasingTimes(log: seq<Entry>) {
    forall i, j :: 0 <= i < j < |log| ==> log[i].event.time < log[j].event.time
  }

  /** The index: the id of each stream's last ring, evicted or not. */
  function LatestIndex(log: seq<Entry>): map<string, string> {
    if |log| == 0 then map[]
    else LatestIndex(log[..|log| - 1])[log[|log| - 1].event.stream := log[|log| - 1].event.eventId]
  }

  /** What LatestSnapshot does with the index it has. */
  function Indexed(w: seq<Entry>, latest: map<string, string>, stream: string): Option<Entry> {
    if stream in latest then ById(w, latest[stream]) else None
  }

  // ---- The index agrees with the list -----------------------------------------------------

  lemma {:induction false} LatestIsNewest(log: seq<Entry>, stream: string)
    ensures stream in LatestIndex(log) <==> Newest(log, stream).Some?
    ensures stream in LatestIndex(log) ==> LatestIndex(log)[stream] == Newest(log, stream).value.event.eventId
    ensures var e := Newest(log, stream); e.Some? ==> e.value in log && e.value.event.stream == stream
  {
    if |log| > 0 {
      LatestIsNewest(log[..|log| - 1], stream);
    }
  }

  lemma {:induction false} ByIdFinds(w: seq<Entry>, e: Entry)
    requires UniqueIds(w) && e in w
    ensures ById(w, e.event.eventId) == Some(e)
  {
    var i :| 0 <= i < |w| && w[i] == e;
    if i < |w| - 1 {
      assert e in w[..|w| - 1] by { assert w[..|w| - 1][i] == e; }
      ByIdFinds(w[..|w| - 1], e);
    }
  }

  lemma {:induction false} ByIdMisses(w: seq<Entry>, id: string)
    ensures ById(w, id).Some? ==> ById(w, id).value in w && ById(w, id).value.event.eventId == id
  {
    if |w| > 0 {
      ByIdMisses(w[..|w| - 1], id);
    }
  }

  /** The newest ring of a stream in a tail of the list is its newest ring overall, if that is in the
      tail, and there is none otherwise. */
  lemma {:induction false} NewestInTail(log: seq<Entry>, k: nat, stream: string)
    requires k <= |log|
    ensures Newest(log[k..], stream).Some? ==> Newest(log[k..], stream) == Newest(log, stream)
    ensures Newest(log[k..], stream) == None && Newest(log, stream).Some? ==>
              exists i :: 0 <= i < k && log[i] == Newest(log, stream).value
    decreases |log|
  {
    if k < |log| {
      assert log[k..][..|log[k..]| - 1] == log[..|log| - 1][k..];
      NewestInTail(log[..|log| - 1], k, stream);
    } else if Newest(log, stream).Some? {
      LatestIsNewest(log, stream);
    }
  }

  /** LatestSnapshot answers with the newest ring of the stream that is still remembered, or with
      nothing, even when the index points at a ring that has been evicted. */
  lemma IndexedIsNewest(log: seq<Entry>, k: nat, stream: string)
    requires UniqueIds(log) && k <= |log|
    ensures Indexed(log[k..], LatestIndex(log), stream) == Newest(log[k..], stream)
  {
    var w := log[k..];
    LatestIsNewest(log, stream);
    LatestIsNewest(w, stream);
    NewestInTail(log, k, stream);
    if Newest(w, stream).Some? {
      ByIdFinds(w, Newest(w, stream).value);
    } else if stream in LatestIndex(log) {
      ByIdMisses(w, LatestIndex(log)[stream]);
      var i :| 0 <= i < k && log[i] == Newest(log, stream).value;
      assert forall j :: 0 <= j < |w| ==> w[j] == log[k + j];
    }
  }

  /** Sliding the window once more is remembering one more ring. */
  lemma WindowAppend(log: seq<Entry>, h: Entry)
    ensures Window(Window(log) + [h]) == Window(log + [h])
  {
  }

  lemma WindowOfOneMore(w: seq<Entry>, h: Entry)
    requires |w| <= HISTORY_CAP
    ensures Window(w + [h]) == if |w| < HISTORY_CAP then w + [h] else w[1..] + [h]
  {
  }

  lemma LatestAppend(log: seq<Entry>, h: Entry)
    ensures LatestIndex(log + [h]) == LatestIndex(log)[h.event.stream := h.event.eventId]
  {
    assert (log + [h])[..|log|] == log;
  }

  /** The index a bus keeps: built from some tail of the list that reaches back beyond the window,
      as far as the last restart. */
  ghost predicate IndexSince(latest: map<string, string>, log: seq<Entry>) {
    exists k :: 0 <= k <= |log| - |Window(log)| && latest == LatestIndex(log[k..])
  }

  lemma IndexSinceAppend(latest: map<string, string>, log: seq<Entry>, h: Entry)
    requires IndexSince(latest, log)
    ensures IndexSince(latest[h.event.stream := h.event.eventId], log + [h])
  {
    var k :| 0 <= k <= |log| - |Window(log)| && latest == LatestIndex(log[k..]);
    assert (log + [h])[k..] == log[k..] + [h];
    LatestAppend(log[k..], h);
  }

  lemma TailOfTail(log: seq<Entry>, k: nat, start: nat)
    requires k <= start <= |log|
    ensures log[k..][start - k..] == log[start..]
    ensures start == |log| - |Window(log)| ==> log[start..] == Window(log)
  {
  }

  lemma SinceAnswersNewest(log: seq<Entry>, k: nat, stream: string)
    requires UniqueIds(log) && k <= |log| - |Window(log)|
    ensures Indexed(Window(log), LatestIndex(log[k..]), stream) == Newest(Window(log), stream)
  {
    var start := |log| - |Window(log)|;
    TailUnique(log, k);
    IndexedIsNewest(log[k..], start - k, stream);
    TailOfTail(log, k, start);
  }

  lemma TailUnique(log: seq<Entry>, k: nat)
    requires UniqueIds(log) && k <= |log|
    ensures UniqueIds(log[k..])
  {
  }

  /** LatestSnapshot answers with the newest ring of the stream that is still remembered, or with
      nothing, whenever the last restart was. */
  lemma AnswersNewest(latest: map<string, string>, log: seq<Entry>, stream: string)
    requires UniqueIds(log) && IndexSince(latest, log)
    ensures Indexed(Window(log), latest, stream) == Newest(Window(log), stream)
  {
    var k :| 0 <= k <= |log| - |Window(log)| && latest == LatestIndex(log[k..]);
    SinceAnswersNewest(log, k, stream);
  }

  lemma {:induction false} NewestIs(w: seq<Entry>, stream: string, i: nat)
    requires i < |w| && w[i].event.stream == stream
    requires forall j :: i < j < |w| ==> w[j].event.stream != stream
    ensures Newest(w, stream) == Some(w[i])
  {
    if i < |w| - 1 { NewestIs(w[..|w| - 1], stream, i); }
  }

  lemma NewestInWindow(log: seq<Entry>, stream: string, i: nat)
    requires |log| - 50 <= i < |log| && log[i].event.stream == stream
    requires forall j :: i < j < |log| ==> log[j].event.stream != stream
    ensures Newest(Window(log), stream) == Some(log[i])
  {
    var w, start := Window(log), |log| - |Window(log)|;
    assert w == log[start..];
    forall j | i - start < j < |w|
      ensures w[j].event.stream != stream
    {
      assert w[j] == log[start + j];
    }
    NewestIs(w, stream, i - start);
  }

  /** The snapshot answered for a stream is that of its last ring, if that is among the last fifty: the image,
      its time, and whether there is an image at all. */
  lemma LastRingAnswers(latest: map<string, string>, log: seq<Entry>, stream: string, i: nat)
    requires UniqueIds(log) && IndexSince(latest, log)
    requires |log| - 50 <= i < |log| && log[i].event.stream == stream
    requires forall j :: i < j < |log| ==> log[j].event.stream != stream
    ensures AnswerOf(Indexed(Window(log), latest, stream)) == (log[i].jpeg, log[i].event.time, log[i].jpeg != "")
  {
    AnswersNewest(latest, log, stream);
    NewestInWindow(log, stream, i);
  }

  /** And without a ring among them there is no answer. */
  lemma NoRingNoAnswer(latest: map<string, string>, log: seq<Entry>, stream: string)
    requires UniqueIds(log) && IndexSince(latest, log)
    requires forall j :: 0 <= j < |log| && |log| - 50 <= j ==> log[j].event.stream != stream
    ensures AnswerOf(Indexed(Window(log), latest, stream)) == ("", 0, false)
  {
    AnswersNewest(latest, log, stream);
    LatestIsNewest(Window(log), stream);
  }

  /** A query by id answers with the remembered ring of that id. */
  lemma ByIdAnswers(w: seq<Entry>, id: string)
    requires UniqueIds(w)
    ensures forall h | h in w && h.event.eventId == id ::
              AnswerOf(ById(w, id)) == (h.jpeg, h.event.time, h.jpeg != "")
    ensures NotIn(w, id) ==> AnswerOf(ById(w, id)) == ("", 0, false)
  {
    ByIdMisses(w, id);
    forall h | h in w && h.event.eventId == id
      ensures ById(w, id) == Some(h)
    {
      ByIdFinds(w, h);
    }
  }

  // ---- Event ids ------------------------------------------------------------------------------

  function EventId(time: int, seqNo: nat): string {
    Itoa(time) + "-" + Itoa(seqNo)
  }

  lemma {:induction false} DigitsThenDash(a: string, b: string, c: string, d: string)
    requires AllDigits(a) && AllDigits(c)
    requires a + "-" + b == c + "-" + d
    ensures a == c && b == d
  {
    assert (a + "-" + b)[|a|] == '-' && (c + "-" + d)[|c|] == '-';
    assert |a| == |c| by {
      assert |a| < |c| ==> (c + "-" + d)[|a|] == c[|a|] && IsDigit(c[|a|]);
      assert |c| < |a| ==> (a + "-" + b)[|c|] == a[|c|] && IsDigit(a[|c|]);
    }
    assert (a + "-" + b)[..|a|] == a && (c + "-" + d)[..|c|] == c;
    assert (a + "-" + b)[|a| + 1..] == b && (c + "-" + d)[|c| + 1..] == d;
  }

  lemma SignsAgree(t: int, n: nat, u: int, m: nat)
    requires EventId(t, n) == EventId(u, m)
    ensures t < 0 <==> u < 0
  {
    assert t < 0 ==> EventId(t, n)[0] == '-';
    assert u < 0 ==> EventId(u, m)[0] == '-';
    assert t >= 0 ==> EventId(t, n)[0] == NatDigits(t)[0] && IsDigit(NatDigits(t)[0]);
    assert u >= 0 ==> EventId(u, m)[0] == NatDigits(u)[0] && IsDigit(NatDigits(u)[0]);
  }

  lemma DropMinus(t: int, n: nat)
    requires t < 0
    ensures EventId(t, n)[1..] == NatDigits(-t) + "-" + NatDigits(n)
  {
    assert EventId(t, n) == "-" + (NatDigits(-t) + "-" + NatDigits(n));
  }

  /** Two rings have the same id only if they have the same time and the same sequence number. */
  lemma EventIdInjective(t: int, n: nat, u: int, m: nat)
    ensures EventId(t, n) == EventId(u, m) ==> t == u && n == m
  {
    if EventId(t, n) == EventId(u, m) {
      SignsAgree(t, n, u, m);
      if t < 0 {
        DropMinus(t, n);
        DropMinus(u, m);
        DigitsThenDash(NatDigits(-t), NatDigits(n), NatDigits(-u), NatDigits(m));
      } else {
        DigitsThenDash(NatDigits(t), NatDigits(n), NatDigits(u), NatDigits(m));
      }
    }
  }

  /** An entry as handle makes it. */
  ghost predicate Rung(e: Entry) {
    (exists n: nat :: e.event.eventId == EventId(e.event.time, n)) && e.event.hasSnapshot == (|e.jpeg| > 0)
  }

  ghost predicate AllRung(log: seq<Entry>) {
    forall i :: 0 <= i < |log| ==> Rung(log[i])
  }

  /** A ring from before t0, or one whose id was made with a number drawn since then. */
  ghost predicate Drawn(e: Entry, t0: int, drawn: nat) {
    exists n: nat :: e.event.eventId == EventId(e.event.time, n) && (e.event.time < t0 || n <= drawn)
  }

  ghost predicate AllDrawn(log: seq<Entry>, t0: int, drawn: nat) {
    forall i :: 0 <= i < |log| ==> Drawn(log[i], t0, drawn)
  }

  /** From t0 on, a number not drawn before makes an id that no ring has, whatever the times are. */
  lemma NextIsNew(e: Entry, t0: int, drawn: nat, t: int)
    requires Drawn(e, t0, drawn) && t0 <= t
    ensures e.event.eventId != EventId(t, drawn + 1)
  {
    var n: nat :| e.event.eventId == EventId(e.event.time, n) && (e.event.time < t0 || n <= drawn);
    EventIdInjective(e.event.time, n, t, drawn + 1);
  }

  lemma DrawnLater(e: Entry, t0: int, drawn: nat)
    requires Drawn(e, t0, drawn)
    ensures Drawn(e, t0, drawn + 1)
  {
    var n: nat :| e.event.eventId == EventId(e.event.time, n) && (e.event.time < t0 || n <= drawn);
    assert e.event.time < t0 || n <= drawn + 1;
  }

  lemma NewIdUnique(log: seq<Entry>, e: Entry)
    requires UniqueIds(log) && NotIn(log, e.event.eventId)
    ensures UniqueIds(log + [e])
  {
  }

  /** The rings since t0 have ids of their own because the numbers in them differ. */
  ghost predicate Separate(log: seq<Entry>, t0: int, drawn: nat) {
    UniqueIds(log) && AllDrawn(log, t0, drawn)
  }

  /** A ring with the next number, at any time since t0, keeps them so. */
  lemma NumbersKeepSeparate(log: seq<Entry>, t0: int, drawn: nat, e: Entry)
    requires Separate(log, t0, drawn) && e.event.eventId == EventId(e.event.time, drawn + 1) && t0 <= e.event.time
    ensures Separate(log + [e], t0, drawn + 1)
  {
    forall i | 0 <= i < |log|
      ensures log[i].event.eventId != e.event.eventId && Drawn(log[i], t0, drawn + 1)
    {
      assert Drawn(log[i], t0, drawn);
      NextIsNew(log[i], t0, drawn, e.event.time);
      DrawnLater(log[i], t0, drawn);
    }
    NewIdUnique(log, e);
    assert Drawn(e, t0, drawn + 1);
  }

  /** What a restart finds: unique rings, all from before it. */
  ghost predicate Earlier(log: seq<Entry>, t0: int) {
    AllRung(log) && UniqueIds(log) && forall i :: 0 <= i < |log| ==> log[i].event.time < t0
  }

  lemma EarlierSeparate(log: seq<Entry>, t0: int)
    requires Earlier(log, t0)
    ensures Separate(log, t0, 0)
  {
    forall i | 0 <= i < |log|
      ensures Drawn(log[i], t0, 0)
    {
      assert Rung(log[i]);
      var n: nat :| log[i].event.eventId == EventId(log[i].event.time, n);
    }
  }

  /** Strictly increasing ring times make ids unique even though a restart resets the sequence. */
  lemma TimesMakeIdsUnique(log: seq<Entry>)
    requires AllRung(log) && IncreasingTimes(log)
    ensures UniqueIds(log)
  {
    forall i, j | 0 <= i < j < |log|
      ensures log[i].event.eventId != log[j].event.eventId
    {
      assert Rung(log[i]) && Rung(log[j]);
      var n: nat :| log[i].event.eventId == EventId(log[i].event.time, n);
      var m: nat :| log[j].event.eventId == EventId(log[j].event.time, m);
      EventIdInjective(log[i].event.time, n, log[j].event.time, m);
    }
  }
}
