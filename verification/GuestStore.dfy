/** The guest store (gueststore.go): records in memory and in one JSON file that is replaced
    whole by each save. A save may fail and the process may restart between any two calls. */
module GuestStore {
  import opened Text

  const ENROLL_CODE_TTL: int := 10 * 60 * 1_000_000_000
  const ZERO_TIME: int := 0

  datatype Guest = Guest(id: string, name: string, created: int, lastSeen: int,
                         enrolled: bool, revoked: bool, demo: bool)

  datatype Record = Record(guest: Guest, tokenHash: string, codeHash: string, codeExpiry: int)

  datatype StoreError = GuestNotFound | EnrollInvalid | EnrollExpired | SaveFailed

  /** Memory and file. A file that does not exist yet reads as no records. */
  datatype State = State(mem: seq<Record>, disk: seq<Record>)

  /** A call, the random values and clock readings it draws, and whether its save succeeds. */
  datatype Op =
    | Create(name: string, id: string, code: string, now: int, saved: bool)
    | Enroll(code: string, token: string, now: int, seen: int, saved: bool)
    | EnrollDemo(name: string, id: string, token: string, now: int, saved: bool)
    | Revoke(id: string, saved: bool)
    | Authenticate(token: string, now: int, saved: bool)
    | Restart

  datatype Reply =
    | Code(code: string, guest: Guest)
    | Token(token: string, guest: Guest)
    | Known(guest: Guest)
    | Unknown
    | Done
    | Failed(error: StoreError)

  /** SHA-256 in hex, taken to be free of collisions. */
  ghost predicate CollisionFree(h: string -> string) {
    && (forall a, b :: h(a) == h(b) ==> a == b)
    && (forall a :: h(a) != "")
  }

  // ---- One call -------------------------------------------------------------------

  /** The first matching record, or -1. */
  function Find(rs: seq<Record>, match_: Record -> bool): (i: int)
    ensures -1 <= i < |rs|
    ensures i == -1 ==> forall k :: 0 <= k < |rs| ==> !match_(rs[k])
    ensures i != -1 ==> match_(rs[i]) && forall k :: 0 <= k < i ==> !match_(rs[k])
    decreases |rs|
  {
    if rs == [] then -1
    else
      var i := Find(rs[..|rs| - 1], match_);
      if i != -1 then i
      else if match_(rs[|rs| - 1]) then |rs| - 1
      else -1
  }

  function HasCode(hash: string): Record -> bool {
    (r: Record) => r.codeHash != "" && r.codeHash == hash
  }

  function HasToken(hash: string): Record -> bool {
    (r: Record) => r.tokenHash != "" && r.tokenHash == hash
  }

  function HasId(id: string): Record -> bool {
    (r: Record) => r.guest.id == id
  }

  function Save(st: State, saved: bool): State {
    if saved then st.(disk := st.mem) else st
  }

  /** Appends a record, taking it out of memory again when the save fails. */
  function Append(st: State, r: Record, saved: bool): State {
    if saved then State(st.mem + [r], st.mem + [r]) else st
  }

  function Update(st: State, i: nat, r: Record, saved: bool): State
    requires i < |st.mem|
  {
    Save(st.(mem := st.mem[i := r]), saved)
  }

  function Created(op: Op, h: string -> string): Record
    requires op.Create?
  {
    Record(Guest(op.id, op.name, op.now, ZERO_TIME, false, false, false), "", h(op.code), op.now + ENROLL_CODE_TTL)
  }

  function DemoRecord(op: Op, h: string -> string): Record
    requires op.EnrollDemo?
  {
    Record(Guest(op.id, op.name, op.now, op.now, true, false, true), h(op.token), "", ZERO_TIME)
  }

  function Enrolled(r: Record, op: Op, h: string -> string): Record
    requires op.Enroll?
  {
    Record(r.guest.(enrolled := true, lastSeen := op.seen), h(op.token), "", ZERO_TIME)
  }

  /** The record an Enroll call turns into an enrolled one, or the reason it refuses. */
  function Enrollee(st: State, op: Op, h: string -> string): (r: Result<nat, StoreError>)
    requires op.Enroll?
    ensures r.Ok? ==> r.value < |st.mem|
  {
    var i := Find(st.mem, HasCode(h(op.code)));
    if i == -1 || st.mem[i].guest.revoked then Err(EnrollInvalid)
    else if op.now > st.mem[i].codeExpiry then Err(EnrollExpired)
    else Ok(i)
  }

  function Step(st: State, op: Op, h: string -> string): (State, Reply) {
    match op
    case Create(_, _, code, _, saved) =>
      var r := Created(op, h);
      (Append(st, r, saved), if saved then Code(code, r.guest) else Failed(SaveFailed))
    case Enroll(_, token, _, _, saved) =>
      (match Enrollee(st, op, h)
       case Err(e) => (st, Failed(e))
       case Ok(i) =>
         var r := Enrolled(st.mem[i], op, h);
         (Update(st, i, r, saved), if saved then Token(token, r.guest) else Failed(SaveFailed)))
    case EnrollDemo(_, _, token, _, saved) =>
      var r := DemoRecord(op, h);
      (Append(st, r, saved), if saved then Token(token, r.guest) else Failed(SaveFailed))
    case Revoke(id, saved) =>
      var i := Find(st.mem, HasId(id));
      if i == -1 then (st, Failed(GuestNotFound))
      else (Update(st, i, st.mem[i].(guest := st.mem[i].guest.(revoked := true)), saved),
            if saved then Done else Failed(SaveFailed))
    case Authenticate(token, now, saved) =>
      var i := Find(st.mem, HasToken(h(token)));
      if i == -1 || st.mem[i].guest.revoked then (st, Unknown)
      else
        var r := st.mem[i].(guest := st.mem[i].guest.(lastSeen := now));
        (Update(st, i, r, saved), Known(r.guest))
    case Restart => (State(st.disk, st.disk), Done)
  }

  /** The call finds something to change in a record that is already there. */
  predicate Changes(st: State, op: Op, h: string -> string) {
    match op
    case Enroll(_, _, _, _, _) => Enrollee(st, op, h).Ok?
    case Revoke(id, _) => var i := Find(st.mem, HasId(id)); i != -1 && !st.mem[i].guest.revoked
    case Authenticate(token, now, _) =>
      var i := Find(st.mem, HasToken(h(token)));
      i != -1 && !st.mem[i].guest.revoked && st.mem[i].guest.lastSeen != now
    case _ => false
  }

  /** A call whose save fails leaves the file alone. It leaves memory alone too exactly when it changes no
      record that is already there: a new record is taken out again, but a failed Enroll or Revoke, and
      the time a guest was last seen, stay in memory. */
  lemma FailedSaveRestoresIff(st: State, op: Op, h: string -> string)
    requires !op.Restart? && !op.saved
    ensures Step(st, op, h).0.disk == st.disk
    ensures Step(st, op, h).0.mem == st.mem <==> !Changes(st, op, h)
  {
    if op.Enroll? && Enrollee(st, op, h).Ok? {
      var i := Enrollee(st, op, h).value;
      assert Step(st, op, h).0.mem[i].codeHash != st.mem[i].codeHash;
    } else if op.Revoke? && Find(st.mem, HasId(op.id)) != -1 {
      var i := Find(st.mem, HasId(op.id));
      assert Step(st, op, h).0.mem[i].guest.revoked;
    } else if op.Authenticate? && Find(st.mem, HasToken(h(op.token))) != -1 {
      var i := Find(st.mem, HasToken(h(op.token)));
      assert !st.mem[i].guest.revoked ==> Step(st, op, h).0.mem[i].guest.lastSeen == op.now;
    }
  }

  // ---- Runs -----------------------------------------------------------------------

  /** tr lists the states a run goes through, from a store that has never been used. */
  ghost predicate Run(ops: seq<Op>, tr: seq<State>, h: string -> string) {
    && |tr| == |ops| + 1 && tr[0] == State([], [])
    && CollisionFree(h) && Fresh(ops)
    && forall i :: 0 <= i < |ops| ==> StepAt(ops, tr, i, h)
  }

  predicate StepAt(ops: seq<Op>, tr: seq<State>, i: nat, h: string -> string)
    requires |tr| == |ops| + 1 && i < |ops|
  {
    tr[i + 1] == Step(tr[i], ops[i], h).0
  }

  function ReplyAt(ops: seq<Op>, tr: seq<State>, i: nat, h: string -> string): Reply
    requires |tr| == |ops| + 1 && i < |ops|
  {
    Step(tr[i], ops[i], h).1
  }

  predicate Creates(op: Op) {
    op.Create? || op.EnrollDemo?
  }

  /** Random values never repeat: 56 to 256 random bits each. */
  ghost predicate Fresh(ops: seq<Op>) {
    forall i, j :: 0 <= i < j < |ops| ==> FreshPair(ops[i], ops[j])
  }

  predicate FreshPair(a: Op, b: Op) {
    && (Creates(a) && Creates(b) ==> a.id != b.id)
    && (a.Create? && b.Create? ==> a.code != b.code)
    && ((a.Enroll? || a.EnrollDemo?) && (b.Enroll? || b.EnrollDemo?) ==> a.token != b.token)
  }

  // ---- Where the contents of a record come from ---------------------------------------

  /** The token that the i-th call writes into memory, and the guest it writes it for. */
  function Minted(ops: seq<Op>, tr: seq<State>, i: nat, h: string -> string): Option<(string, string)>
    requires i < |ops| < |tr|
  {
    match ops[i]
    case EnrollDemo(_, id, token, _, _) => Some((token, id))
    case Enroll(_, token, _, _, _) =>
      (match Enrollee(tr[i], ops[i], h)
       case Err(_) => None
       case Ok(k) => Some((token, tr[i].mem[k].guest.id)))
    case _ => None
  }

  /** The call made this record: it gave it its code if it still has one, and its guest the id, the name and
      the demo mark. The guest counts as enrolled exactly when the record has a token. */
  predicate MadeBy(op: Op, r: Record, h: string -> string) {
    && Creates(op)
    && r.guest.id == op.id && r.guest.name == op.name && r.guest.created == op.now
    && (r.guest.demo <==> op.EnrollDemo?)
    && (r.guest.enrolled <==> r.tokenHash != "")
    && (r.codeHash != "" ==> op.Create? && r.codeHash == h(op.code) && r.tokenHash == "")
  }

  ghost predicate Made(ops: seq<Op>, n: nat, h: string -> string, r: Record)
    requires n <= |ops|
  {
    exists i :: 0 <= i < n && MadeBy(ops[i], r, h)
  }

  ghost predicate FromToken(ops: seq<Op>, tr: seq<State>, n: nat, h: string -> string, r: Record)
    requires n <= |ops| < |tr|
  {
    exists i :: 0 <= i < n && Minted(ops, tr, i, h).Some?
             && h(Minted(ops, tr, i, h).value.0) == r.tokenHash && Minted(ops, tr, i, h).value.1 == r.guest.id
  }

  ghost predicate Traceable(ops: seq<Op>, tr: seq<State>, n: nat, h: string -> string, r: Record)
    requires n <= |ops| < |tr|
  {
    && Made(ops, n, h, r)
    && (r.tokenHash != "" ==> FromToken(ops, tr, n, h, r))
  }

  ghost predicate Distinct(rs: seq<Record>) {
    && (forall i, j :: 0 <= i < j < |rs| ==> rs[i].guest.id != rs[j].guest.id)
    && (forall i, j :: 0 <= i < j < |rs| && rs[i].codeHash != "" ==> rs[i].codeHash != rs[j].codeHash)
  }

  ghost predicate WellKept(ops: seq<Op>, tr: seq<State>, n: nat, h: string -> string, rs: seq<Record>)
    requires n <= |ops| < |tr|
  {
    Distinct(rs) && forall k :: 0 <= k < |rs| ==> Traceable(ops, tr, n, h, rs[k])
  }

  lemma TraceableLater(ops: seq<Op>, tr: seq<State>, n: nat, m: nat, h: string -> string, r: Record)
    requires n <= m <= |ops| < |tr| && Traceable(ops, tr, n, h, r)
    ensures Traceable(ops, tr, m, h, r)
  {
  }

  /** Appending a record made of fresh values keeps a list well kept. */
  lemma AppendKeeps(ops: seq<Op>, tr: seq<State>, n: nat, h: string -> string, rs: seq<Record>, r: Record)
    requires n < |ops| && Run(ops, tr, h) && WellKept(ops, tr, n, h, rs)
    requires (ops[n].Create? && r == Created(ops[n], h)) || (ops[n].EnrollDemo? && r == DemoRecord(ops[n], h))
    ensures WellKept(ops, tr, n + 1, h, rs + [r])
  {
    assert Traceable(ops, tr, n + 1, h, r) by {
      assert MadeBy(ops[n], r, h);
      if ops[n].EnrollDemo? { assert Minted(ops, tr, n, h) == Some((ops[n].token, ops[n].id)); }
    }
    forall k | 0 <= k < |rs|
      ensures rs[k].guest.id != r.guest.id && (rs[k].codeHash != "" ==> rs[k].codeHash != r.codeHash)
      ensures Traceable(ops, tr, n + 1, h, rs[k])
    {
      assert Traceable(ops, tr, n, h, rs[k]);
      var c :| 0 <= c < n && MadeBy(ops[c], rs[k], h);
      assert FreshPair(ops[c], ops[n]);
      TraceableLater(ops, tr, n, n + 1, h, rs[k]);
    }
  }

  /** So does changing one record without touching its id and without giving it a new code. */
  lemma UpdateKeeps(ops: seq<Op>, tr: seq<State>, n: nat, h: string -> string, rs: seq<Record>, i: nat, r: Record)
    requires n < |ops| < |tr| && i < |rs| && WellKept(ops, tr, n, h, rs)
    requires Traceable(ops, tr, n + 1, h, r)
    requires r.guest.id == rs[i].guest.id && (r.codeHash == "" || r.codeHash == rs[i].codeHash)
    ensures WellKept(ops, tr, n + 1, h, rs[i := r])
  {
    WellKeptLater(ops, tr, n, h, rs);
    assert forall k :: 0 <= k < |rs| && k != i ==> rs[i := r][k] == rs[k];
  }

  lemma WellKeptLater(ops: seq<Op>, tr: seq<State>, n: nat, h: string -> string, rs: seq<Record>)
    requires n < |ops| < |tr| && WellKept(ops, tr, n, h, rs)
    ensures WellKept(ops, tr, n + 1, h, rs)
  {
    forall k | 0 <= k < |rs|
      ensures Traceable(ops, tr, n + 1, h, rs[k])
    {
      TraceableLater(ops, tr, n, n + 1, h, rs[k]);
    }
  }

  lemma EnrolledTraceable(ops: seq<Op>, tr: seq<State>, n: nat, h: string -> string, k: nat)
    requires n < |ops| < |tr| && ops[n].Enroll? && Enrollee(tr[n], ops[n], h) == Ok(k)
    requires Traceable(ops, tr, n, h, tr[n].mem[k]) && CollisionFree(h)
    ensures Traceable(ops, tr, n + 1, h, Enrolled(tr[n].mem[k], ops[n], h))
  {
    var c :| 0 <= c < n && MadeBy(ops[c], tr[n].mem[k], h);
    assert MadeBy(ops[c], Enrolled(tr[n].mem[k], ops[n], h), h);
    assert Minted(ops, tr, n, h) == Some((ops[n].token, tr[n].mem[k].guest.id));
  }

  lemma MarkedTraceable(ops: seq<Op>, tr: seq<State>, n: nat, h: string -> string, r: Record, s: Record)
    requires n < |ops| < |tr| && Traceable(ops, tr, n, h, r)
    requires s == r.(guest := r.guest.(revoked := s.guest.revoked, lastSeen := s.guest.lastSeen))
    ensures Traceable(ops, tr, n + 1, h, s)
  {
    TraceableLater(ops, tr, n, n + 1, h, r);
    var c :| 0 <= c < n && MadeBy(ops[c], r, h);
    assert MadeBy(ops[c], s, h);
  }

  lemma StepKeeps(ops: seq<Op>, tr: seq<State>, n: nat, h: string -> string)
    requires n < |ops| && Run(ops, tr, h)
    requires WellKept(ops, tr, n, h, tr[n].mem) && WellKept(ops, tr, n, h, tr[n].disk)
    ensures WellKept(ops, tr, n + 1, h, tr[n + 1].mem) && WellKept(ops, tr, n + 1, h, tr[n + 1].disk)
  {
    var st, op := tr[n], ops[n];
    assert StepAt(ops, tr, n, h);
    WellKeptLater(ops, tr, n, h, st.mem);
    WellKeptLater(ops, tr, n, h, st.disk);
    match op
    case Create(_, _, _, _, _) => AppendKeeps(ops, tr, n, h, st.mem, Created(op, h));
    case EnrollDemo(_, _, _, _, _) => AppendKeeps(ops, tr, n, h, st.mem, DemoRecord(op, h));
    case Enroll(_, _, _, _, _) =>
      if Enrollee(st, op, h).Ok? {
        var k := Enrollee(st, op, h).value;
        EnrolledTraceable(ops, tr, n, h, k);
        UpdateKeeps(ops, tr, n, h, st.mem, k, Enrolled(st.mem[k], op, h));
      }
    case Revoke(id, _) =>
      var i := Find(st.mem, HasId(id));
      if i != -1 {
        var r := st.mem[i].(guest := st.mem[i].guest.(revoked := true));
        MarkedTraceable(ops, tr, n, h, st.mem[i], r);
        UpdateKeeps(ops, tr, n, h, st.mem, i, r);
      }
    case Authenticate(token, now, _) =>
      var i := Find(st.mem, HasToken(h(token)));
      if i != -1 {
        var r := st.mem[i].(guest := st.mem[i].guest.(lastSeen := now));
        MarkedTraceable(ops, tr, n, h, st.mem[i], r);
        UpdateKeeps(ops, tr, n, h, st.mem, i, r);
      }
    case Restart =>
  }

  /** In every run, memory and file hold records of distinct guests and live codes, every part of
      which was drawn by an earlier call. */
  lemma {:induction false} RunsWellKept(ops: seq<Op>, tr: seq<State>, n: nat, h: string -> string)
    requires n <= |ops| && Run(ops, tr, h)
    ensures WellKept(ops, tr, n, h, tr[n].mem) && WellKept(ops, tr, n, h, tr[n].disk)
  {
    if n > 0 {
      RunsWellKept(ops, tr, n - 1, h);
      StepKeeps(ops, tr, n - 1, h);
    }
  }

  // ---- Searching a list that has changed ------------------------------------------------

  lemma FindIs(rs: seq<Record>, match_: Record -> bool, i: nat)
    requires i < |rs| && match_(rs[i]) && forall k :: 0 <= k < i ==> !match_(rs[k])
    ensures Find(rs, match_) == i
  {
  }

  lemma FindAppend(rs: seq<Record>, r: Record, match_: Record -> bool)
    requires Find(rs, match_) != -1
    ensures Find(rs + [r], match_) == Find(rs, match_)
  {
    FindIs(rs + [r], match_, Find(rs, match_));
  }

  lemma FindUpdate(rs: seq<Record>, k: nat, r: Record, match_: Record -> bool)
    requires k < |rs| && Find(rs, match_) != -1
    requires match_(r) == match_(rs[k]) || (!match_(r) && k != Find(rs, match_))
    ensures Find(rs[k := r], match_) == Find(rs, match_)
  {
    FindIs(rs[k := r], match_, Find(rs, match_));
  }

  // ---- A code yields at most one token ---------------------------------------------------

  ghost predicate Spent(rs: seq<Record>, hash: string) {
    forall k :: 0 <= k < |rs| ==> rs[k].codeHash != hash
  }

  lemma EnrollSpends(ops: seq<Op>, tr: seq<State>, i: nat, h: string -> string) returns (c: nat)
    requires i < |ops| && Run(ops, tr, h)
    requires ops[i].Enroll? && ReplyAt(ops, tr, i, h).Token?
    ensures Spent(tr[i + 1].mem, h(ops[i].code)) && Spent(tr[i + 1].disk, h(ops[i].code))
    ensures c < i && ops[c].Create? && ops[c].code == ops[i].code
  {
    RunsWellKept(ops, tr, i, h);
    assert StepAt(ops, tr, i, h);
    var k := Enrollee(tr[i], ops[i], h).value;
    assert Traceable(ops, tr, i, h, tr[i].mem[k]);
    c :| 0 <= c < i && MadeBy(ops[c], tr[i].mem[k], h);
  }

  lemma StepKeepsSpent(st: State, op: Op, h: string -> string, code: string)
    requires CollisionFree(h) && Spent(st.mem, h(code)) && Spent(st.disk, h(code))
    requires op.Create? ==> op.code != code
    ensures Spent(Step(st, op, h).0.mem, h(code)) && Spent(Step(st, op, h).0.disk, h(code))
  {
  }

  lemma {:induction false} SpentForever(ops: seq<Op>, tr: seq<State>, i: nat, n: nat, h: string -> string, c: nat)
    requires c < i < n <= |ops| && Run(ops, tr, h) && ops[c].Create?
    requires Spent(tr[i + 1].mem, h(ops[c].code)) && Spent(tr[i + 1].disk, h(ops[c].code))
    ensures Spent(tr[n].mem, h(ops[c].code)) && Spent(tr[n].disk, h(ops[c].code))
  {
    if n > i + 1 {
      SpentForever(ops, tr, i, n - 1, h, c);
      assert FreshPair(ops[c], ops[n - 1]);
      assert StepAt(ops, tr, n - 1, h);
      StepKeepsSpent(tr[n - 1], ops[n - 1], h, ops[c].code);
    }
  }

  lemma NoSecondToken(ops: seq<Op>, tr: seq<State>, i: nat, j: nat, h: string -> string)
    requires i < j < |ops| && Run(ops, tr, h)
    requires ops[i].Enroll? && ops[j].Enroll? && ops[i].code == ops[j].code
    requires ReplyAt(ops, tr, i, h).Token?
    ensures ReplyAt(ops, tr, j, h) == Failed(EnrollInvalid)
  {
    var c := EnrollSpends(ops, tr, i, h);
    SpentForever(ops, tr, i, j, h, c);
  }

  /** Each enrolment code yields at most one returned token, whatever fails or restarts in between. */
  lemma OneTokenPerCode(ops: seq<Op>, tr: seq<State>, i: nat, j: nat, h: string -> string)
    requires i < |ops| && j < |ops| && Run(ops, tr, h)
    requires ops[i].Enroll? && ops[j].Enroll? && ops[i].code == ops[j].code
    requires ReplyAt(ops, tr, i, h).Token? && ReplyAt(ops, tr, j, h).Token?
    ensures i == j
  {
    if i < j {
      NoSecondToken(ops, tr, i, j, h);
    } else if j < i {
      NoSecondToken(ops, tr, j, i, h);
    }
  }

  // ---- A returned token works until its guest is revoked ------------------------------------

  /** The token is the live credential of this guest in a list of records. */
  ghost predicate Owns(rs: seq<Record>, hash: string, id: string) {
    var i := Find(rs, HasToken(hash));
    i != -1 && rs[i].guest.id == id && !rs[i].guest.revoked && rs[i].codeHash == ""
  }

  /** A token that is being drawn is not in any record yet. */
  lemma TokenUnused(ops: seq<Op>, tr: seq<State>, i: nat, h: string -> string)
    requires i < |ops| && Run(ops, tr, h) && (ops[i].Enroll? || ops[i].EnrollDemo?)
    ensures forall k :: 0 <= k < |tr[i].mem| ==> tr[i].mem[k].tokenHash != h(ops[i].token)
  {
    RunsWellKept(ops, tr, i, h);
    forall k | 0 <= k < |tr[i].mem|
      ensures tr[i].mem[k].tokenHash != h(ops[i].token)
    {
      assert Traceable(ops, tr, i, h, tr[i].mem[k]);
      if tr[i].mem[k].tokenHash != "" {
        var m :| 0 <= m < i && Minted(ops, tr, m, h).Some?
                 && h(Minted(ops, tr, m, h).value.0) == tr[i].mem[k].tokenHash;
        assert FreshPair(ops[m], ops[i]);
      }
    }
  }

  lemma TokenOwned(ops: seq<Op>, tr: seq<State>, i: nat, h: string -> string)
    requires i < |ops| && Run(ops, tr, h) && ReplyAt(ops, tr, i, h).Token?
    ensures var Token(t, g) := ReplyAt(ops, tr, i, h);
            Owns(tr[i + 1].mem, h(t), g.id) && Owns(tr[i + 1].disk, h(t), g.id)
  {
    TokenUnused(ops, tr, i, h);
    assert StepAt(ops, tr, i, h);
    var mem := tr[i].mem;
    if ops[i].EnrollDemo? {
      FindIs(mem + [DemoRecord(ops[i], h)], HasToken(h(ops[i].token)), |mem|);
    } else {
      var k := Enrollee(tr[i], ops[i], h).value;
      FindIs(mem[k := Enrolled(mem[k], ops[i], h)], HasToken(h(ops[i].token)), k);
    }
  }

  /** A call that is not a revocation of this guest leaves the credential in place. */
  lemma StepKeepsOwner(st: State, op: Op, h: string -> string, t: string, id: string)
    requires CollisionFree(h) && Owns(st.mem, h(t), id) && Owns(st.disk, h(t), id)
    requires !Unseats(op, t, id)
    ensures Owns(Step(st, op, h).0.mem, h(t), id) && Owns(Step(st, op, h).0.disk, h(t), id)
  {
    var i := Find(st.mem, HasToken(h(t)));
    match op
    case Create(_, _, _, _, _) => FindAppend(st.mem, Created(op, h), HasToken(h(t)));
    case EnrollDemo(_, _, _, _, _) => FindAppend(st.mem, DemoRecord(op, h), HasToken(h(t)));
    case Enroll(_, _, _, _, _) =>
      if Enrollee(st, op, h).Ok? {
        var k := Enrollee(st, op, h).value;
        assert k != i;
        FindUpdate(st.mem, k, Enrolled(st.mem[k], op, h), HasToken(h(t)));
      }
    case Revoke(other, _) =>
      var k := Find(st.mem, HasId(other));
      if k != -1 {
        FindUpdate(st.mem, k, st.mem[k].(guest := st.mem[k].guest.(revoked := true)), HasToken(h(t)));
      }
    case Authenticate(token, now, _) =>
      var k := Find(st.mem, HasToken(h(token)));
      if k != -1 {
        FindUpdate(st.mem, k, st.mem[k].(guest := st.mem[k].guest.(lastSeen := now)), HasToken(h(t)));
      }
    case Restart =>
  }

  /** A call that draws this token again or revokes this guest. */
  predicate Unseats(op: Op, token: string, id: string) {
    ((op.Enroll? || op.EnrollDemo?) && op.token == token) || (op.Revoke? && op.id == id)
  }

  lemma {:induction false} OwnerStays(ops: seq<Op>, tr: seq<State>, i: nat, n: nat, h: string -> string,
                                      t: string, id: string)
    requires i < n <= |ops| && Run(ops, tr, h)
    requires Owns(tr[i + 1].mem, h(t), id) && Owns(tr[i + 1].disk, h(t), id)
    requires forall k :: i < k < n ==> !Unseats(ops[k], t, id)
    ensures Owns(tr[n].mem, h(t), id) && Owns(tr[n].disk, h(t), id)
  {
    if n > i + 1 {
      OwnerStays(ops, tr, i, n - 1, h, t, id);
      assert StepAt(ops, tr, n - 1, h);
      StepKeepsOwner(tr[n - 1], ops[n - 1], h, t, id);
    }
  }

  /** Every returned token authenticates as its own guest, after restarts and failed saves too,
      until Revoke is called on that guest. */
  lemma TokenWorks(ops: seq<Op>, tr: seq<State>, i: nat, j: nat, h: string -> string)
    requires i < j < |ops| && Run(ops, tr, h)
    requires ReplyAt(ops, tr, i, h).Token? && ops[j].Authenticate? && ops[j].token == ReplyAt(ops, tr, i, h).token
    requires forall k :: i < k < j && ops[k].Revoke? ==> ops[k].id != ReplyAt(ops, tr, i, h).guest.id
    ensures ReplyAt(ops, tr, j, h).Known? && ReplyAt(ops, tr, j, h).guest.id == ReplyAt(ops, tr, i, h).guest.id
  {
    var Token(t, g) := ReplyAt(ops, tr, i, h);
    TokenOwned(ops, tr, i, h);
    forall k | i < k < j
      ensures !Unseats(ops[k], t, g.id)
    {
      assert FreshPair(ops[i], ops[k]);
    }
    OwnerStays(ops, tr, i, j, h, t, g.id);
  }

  lemma OneMaker(ops: seq<Op>, a: nat, b: nat)
    requires a < |ops| && b < |ops| && Fresh(ops) && Creates(ops[a]) && Creates(ops[b])
    ensures a != b ==> ops[a].id != ops[b].id
  {
    if a < b {
      assert FreshPair(ops[a], ops[b]);
    } else if b < a {
      assert FreshPair(ops[b], ops[a]);
    }
  }

  lemma MintedFor(ops: seq<Op>, tr: seq<State>, i: nat, h: string -> string) returns (c: nat)
    requires i < |ops| && Run(ops, tr, h) && Minted(ops, tr, i, h).Some?
    ensures c <= i && Creates(ops[c]) && Minted(ops, tr, i, h).value.1 == ops[c].id
    ensures ops[i].EnrollDemo? ==> c == i
    ensures ops[i].Enroll? ==> ops[c].Create? && ops[c].code == ops[i].code && c < i
    ensures ops[i].Enroll? ==> MadeBy(ops[c], tr[i].mem[Enrollee(tr[i], ops[i], h).value], h)
  {
    c := i;
    if ops[i].Enroll? {
      RunsWellKept(ops, tr, i, h);
      var k := Enrollee(tr[i], ops[i], h).value;
      assert Traceable(ops, tr, i, h, tr[i].mem[k]);
      c :| 0 <= c < i && MadeBy(ops[c], tr[i].mem[k], h);
    }
  }

  /** And nothing else authenticates: an accepted string was minted by an earlier call as a token of that very
      guest. The guest is the one its creation describes: a demo guest exactly when EnrollDemo drew the token. */
  lemma OnlyTokensWork(ops: seq<Op>, tr: seq<State>, j: nat, h: string -> string) returns (i: nat, c: nat)
    requires j < |ops| && Run(ops, tr, h)
    requires ops[j].Authenticate? && ReplyAt(ops, tr, j, h).Known?
    ensures c <= i < j && Creates(ops[c])
    ensures Minted(ops, tr, i, h) == Some((ops[j].token, ops[c].id))
    ensures ReplyAt(ops, tr, j, h).guest
         == Guest(ops[c].id, ops[c].name, ops[c].now, ops[j].now, true, false, ops[i].EnrollDemo?)
    ensures if ops[i].EnrollDemo? then c == i else ops[i].Enroll? && ops[c].Create? && ops[c].code == ops[i].code
  {
    RunsWellKept(ops, tr, j, h);
    var st := tr[j];
    var k := Find(st.mem, HasToken(h(ops[j].token)));
    assert Traceable(ops, tr, j, h, st.mem[k]);
    i :| 0 <= i < j && Minted(ops, tr, i, h).Some? && h(Minted(ops, tr, i, h).value.0) == st.mem[k].tokenHash
         && Minted(ops, tr, i, h).value.1 == st.mem[k].guest.id;
    var made :| 0 <= made < j && MadeBy(ops[made], st.mem[k], h);
    c := MintedFor(ops, tr, i, h);
    OneMaker(ops, c, made);
  }

  /** The guest a token is returned for. */
  lemma TokenGuests(ops: seq<Op>, tr: seq<State>, i: nat, h: string -> string) returns (c: nat)
    requires i < |ops| && Run(ops, tr, h) && ReplyAt(ops, tr, i, h).Token?
    ensures c <= i && Creates(ops[c]) && (ops[i].Enroll? || ops[i].EnrollDemo?)
    ensures ReplyAt(ops, tr, i, h)
         == Token(ops[i].token, Guest(ops[c].id, ops[c].name, ops[c].now,
                                      if ops[i].Enroll? then ops[i].seen else ops[i].now,
                                      true, false, ops[i].EnrollDemo?))
    ensures if ops[i].EnrollDemo? then c == i else ops[c].Create? && ops[c].code == ops[i].code
  {
    c := MintedFor(ops, tr, i, h);
  }

  // ---- A completed revocation is final -------------------------------------------------------

  ghost predicate Out(rs: seq<Record>, id: string) {
    forall k :: 0 <= k < |rs| && rs[k].guest.id == id ==> rs[k].guest.revoked
  }

  lemma RevokeOusts(ops: seq<Op>, tr: seq<State>, i: nat, h: string -> string) returns (c: nat)
    requires i < |ops| && Run(ops, tr, h)
    requires ops[i].Revoke? && ReplyAt(ops, tr, i, h) == Done
    ensures Out(tr[i + 1].mem, ops[i].id) && Out(tr[i + 1].disk, ops[i].id)
    ensures c < i && Creates(ops[c]) && ops[c].id == ops[i].id
  {
    RunsWellKept(ops, tr, i, h);
    assert StepAt(ops, tr, i, h);
    var k := Find(tr[i].mem, HasId(ops[i].id));
    assert Traceable(ops, tr, i, h, tr[i].mem[k]);
    c :| 0 <= c < i && MadeBy(ops[c], tr[i].mem[k], h);
  }

  lemma StepKeepsOut(st: State, op: Op, h: string -> string, id: string)
    requires Out(st.mem, id) && Out(st.disk, id)
    requires Creates(op) ==> op.id != id
    ensures Out(Step(st, op, h).0.mem, id) && Out(Step(st, op, h).0.disk, id)
  {
  }

  lemma {:induction false} OutForever(ops: seq<Op>, tr: seq<State>, i: nat, n: nat, h: string -> string, c: nat)
    requires c < i < n <= |ops| && Run(ops, tr, h) && Creates(ops[c])
    requires Out(tr[i + 1].mem, ops[c].id) && Out(tr[i + 1].disk, ops[c].id)
    ensures Out(tr[n].mem, ops[c].id) && Out(tr[n].disk, ops[c].id)
  {
    if n > i + 1 {
      OutForever(ops, tr, i, n - 1, h, c);
      assert FreshPair(ops[c], ops[n - 1]);
      assert StepAt(ops, tr, n - 1, h);
      StepKeepsOut(tr[n - 1], ops[n - 1], h, ops[c].id);
    }
  }

  /** Once Revoke has returned without error, that guest never authenticates again. */
  lemma RevokedForGood(ops: seq<Op>, tr: seq<State>, i: nat, j: nat, h: string -> string)
    requires i < j < |ops| && Run(ops, tr, h)
    requires ops[i].Revoke? && ReplyAt(ops, tr, i, h) == Done && ops[j].Authenticate?
    ensures ReplyAt(ops, tr, j, h).Known? ==> ReplyAt(ops, tr, j, h).guest.id != ops[i].id
  {
    var c := RevokeOusts(ops, tr, i, h);
    OutForever(ops, tr, i, j, h, c);
  }

  // ---- A returned code can be used --------------------------------------------------------------

  ghost predicate Live(rs: seq<Record>, hash: string, id: string, expiry: int) {
    var i := Find(rs, HasCode(hash));
    i != -1 && rs[i].guest.id == id && !rs[i].guest.revoked && rs[i].codeExpiry == expiry
  }

  lemma CodeLive(ops: seq<Op>, tr: seq<State>, i: nat, h: string -> string)
    requires i < |ops| && Run(ops, tr, h) && ReplyAt(ops, tr, i, h).Code?
    ensures var g := ReplyAt(ops, tr, i, h).guest;
            && Live(tr[i + 1].mem, h(ops[i].code), g.id, ops[i].now + ENROLL_CODE_TTL)
            && Live(tr[i + 1].disk, h(ops[i].code), g.id, ops[i].now + ENROLL_CODE_TTL)
  {
    var st := tr[i];
    RunsWellKept(ops, tr, i, h);
    assert StepAt(ops, tr, i, h);
    forall k | 0 <= k < |st.mem|
      ensures st.mem[k].codeHash != h(ops[i].code)
    {
      assert Traceable(ops, tr, i, h, st.mem[k]);
      if st.mem[k].codeHash != "" {
        var c :| 0 <= c < i && MadeBy(ops[c], st.mem[k], h);
        assert FreshPair(ops[c], ops[i]);
      }
    }
  }

  lemma StepKeepsCode(st: State, op: Op, h: string -> string, code: string, id: string, expiry: int)
    requires CollisionFree(h) && Live(st.mem, h(code), id, expiry) && Live(st.disk, h(code), id, expiry)
    requires !Touches(op, code, id)
    ensures Live(Step(st, op, h).0.mem, h(code), id, expiry) && Live(Step(st, op, h).0.disk, h(code), id, expiry)
  {
    match op
    case Create(_, _, _, _, _) => FindAppend(st.mem, Created(op, h), HasCode(h(code)));
    case EnrollDemo(_, _, _, _, _) => FindAppend(st.mem, DemoRecord(op, h), HasCode(h(code)));
    case Enroll(_, _, _, _, _) =>
      if Enrollee(st, op, h).Ok? {
        var k := Enrollee(st, op, h).value;
        FindUpdate(st.mem, k, Enrolled(st.mem[k], op, h), HasCode(h(code)));
      }
    case Revoke(other, _) =>
      var k := Find(st.mem, HasId(other));
      if k != -1 {
        FindUpdate(st.mem, k, st.mem[k].(guest := st.mem[k].guest.(revoked := true)), HasCode(h(code)));
      }
    case Authenticate(token, now, _) =>
      var k := Find(st.mem, HasToken(h(token)));
      if k != -1 {
        FindUpdate(st.mem, k, st.mem[k].(guest := st.mem[k].guest.(lastSeen := now)), HasCode(h(code)));
      }
    case Restart =>
  }

  lemma {:induction false} CodeStays(ops: seq<Op>, tr: seq<State>, i: nat, n: nat, h: string -> string,
                                     code: string, id: string, expiry: int)
    requires i < n <= |ops| && Run(ops, tr, h)
    requires Live(tr[i + 1].mem, h(code), id, expiry) && Live(tr[i + 1].disk, h(code), id, expiry)
    requires forall k :: i < k < n ==> !Touches(ops[k], code, id)
    ensures Live(tr[n].mem, h(code), id, expiry) && Live(tr[n].disk, h(code), id, expiry)
  {
    if n > i + 1 {
      CodeStays(ops, tr, i, n - 1, h, code, id, expiry);
      assert StepAt(ops, tr, n - 1, h);
      StepKeepsCode(tr[n - 1], ops[n - 1], h, code, id, expiry);
    }
  }

  /** A call that presents this code or revokes this guest. */
  predicate Touches(op: Op, code: string, id: string) {
    (op.Enroll? && op.code == code) || (op.Revoke? && op.id == id)
  }

  /** A returned code that nobody has presented yet enrols its guest, across restarts: the first Enroll
      succeeds exactly when it comes within ten minutes and its save succeeds. The guest is neither
      enrolled nor a demo guest before, and enrolled under the same id and name after. */
  lemma CodeWorks(ops: seq<Op>, tr: seq<State>, i: nat, j: nat, h: string -> string)
    requires i < j < |ops| && Run(ops, tr, h)
    requires ReplyAt(ops, tr, i, h).Code? && ops[j].Enroll? && ops[j].code == ReplyAt(ops, tr, i, h).code
    requires forall k :: i < k < j ==> !Touches(ops[k], ops[i].code, ops[i].id)
    ensures ReplyAt(ops, tr, i, h).guest == Guest(ops[i].id, ops[i].name, ops[i].now, ZERO_TIME, false, false, false)
    ensures var late := ops[j].now > ops[i].now + 10 * 60 * 1_000_000_000;
            ReplyAt(ops, tr, j, h)
              == if late then Failed(EnrollExpired)
                 else if !ops[j].saved then Failed(SaveFailed)
                 else Token(ops[j].token,
                            Guest(ops[i].id, ops[i].name, ops[i].now, ops[j].seen, true, false, false))
  {
    CodeLive(ops, tr, i, h);
    CodeStays(ops, tr, i, j, h, ops[i].code, ops[i].id, ops[i].now + ENROLL_CODE_TTL);
    if ReplyAt(ops, tr, j, h).Token? {
      var c := TokenGuests(ops, tr, j, h);
      OneMaker(ops, c, i);
    }
  }

  // ---- What a failed save leaves behind -----------------------------------------------------

  lemma EnrollOnly(h: string -> string, r: Record, op: Op, disk: seq<Record>)
    requires CollisionFree(h) && op.Enroll? && r.codeHash == h(op.code) && !r.guest.revoked && op.now <= r.codeExpiry
    ensures var e := Enrolled(r, op, h);
            Step(State([r], disk), op, h)
              == (State([e], if op.saved then [e] else disk),
                  if op.saved then Token(op.token, e.guest) else Failed(SaveFailed))
  {
    FindIs([r], HasCode(h(op.code)), 0);
    assert [r][0 := Enrolled(r, op, h)] == [Enrolled(r, op, h)];
  }

  lemma EnrollSpent(h: string -> string, r: Record, op: Op, disk: seq<Record>)
    requires op.Enroll? && r.codeHash == ""
    ensures Step(State([r], disk), op, h) == (State([r], disk), Failed(EnrollInvalid))
  {
  }

  /** A reachable run in which a failed Enroll loses the code: memory has spent it while the file has
      not, presenting it again is refused, and only a restart brings it back. */
  lemma FailedEnrollSpendsCode(h: string -> string, name: string, id: string, code: string, now: int,
                               t1: string, t2: string, t3: string) returns (ops: seq<Op>, tr: seq<State>)
    requires CollisionFree(h) && t1 != t2 && t1 != t3 && t2 != t3
    ensures ops == [Create(name, id, code, now, true), Enroll(code, t1, now, now, false),
                    Enroll(code, t2, now, now, true), Restart, Enroll(code, t3, now, now, true)]
    ensures Run(ops, tr, h)
    ensures ReplyAt(ops, tr, 1, h) == Failed(SaveFailed) && tr[2].mem != tr[2].disk
    ensures ReplyAt(ops, tr, 2, h) == Failed(EnrollInvalid)
    ensures ReplyAt(ops, tr, 4, h).Token?
  {
    ops := [Create(name, id, code, now, true), Enroll(code, t1, now, now, false),
            Enroll(code, t2, now, now, true), Restart, Enroll(code, t3, now, now, true)];
    var r := Created(ops[0], h);
    var spent, again := Enrolled(r, ops[1], h), Enrolled(r, ops[4], h);
    tr := [State([], []), State([r], [r]), State([spent], [r]), State([spent], [r]), State([r], [r]),
           State([again], [again])];
    assert StepAt(ops, tr, 0, h) by { assert [] + [r] == [r]; }
    EnrollOnly(h, r, ops[1], [r]);
    EnrollSpent(h, spent, ops[2], [r]);
    assert StepAt(ops, tr, 3, h);
    EnrollOnly(h, r, ops[4], [r]);
    assert StepAt(ops, tr, 1, h) && StepAt(ops, tr, 2, h) && StepAt(ops, tr, 4, h);
  }

  lemma RevokeOnly(h: string -> string, r: Record, op: Op, disk: seq<Record>)
    requires op.Revoke? && r.guest.id == op.id && !op.saved
    ensures Step(State([r], disk), op, h)
         == (State([r.(guest := r.guest.(revoked := true))], disk), Failed(SaveFailed))
  {
    FindIs([r], HasId(op.id), 0);
    assert [r][0 := r.(guest := r.guest.(revoked := true))] == [r.(guest := r.guest.(revoked := true))];
  }

  lemma AuthenticateOnly(h: string -> string, r: Record, op: Op, disk: seq<Record>)
    requires CollisionFree(h) && op.Authenticate? && r.tokenHash == h(op.token)
    requires !op.saved && r.guest.lastSeen == op.now
    ensures Step(State([r], disk), op, h) == (State([r], disk), if r.guest.revoked then Unknown else Known(r.guest))
  {
    FindIs([r], HasToken(h(op.token)), 0);
    assert [r][0 := r] == [r];
  }

  /** A reachable run in which a failed Revoke is undone by a restart: the guest is locked out while the
      process lives, and authenticates again afterwards. */
  lemma FailedRevokeIsForgotten(h: string -> string, name: string, id: string, token: string, now: int)
    returns (ops: seq<Op>, tr: seq<State>)
    requires CollisionFree(h)
    ensures ops == [EnrollDemo(name, id, token, now, true), Revoke(id, false), Authenticate(token, now, false),
                    Restart, Authenticate(token, now, false)]
    ensures Run(ops, tr, h)
    ensures ReplyAt(ops, tr, 1, h) == Failed(SaveFailed) && ReplyAt(ops, tr, 2, h) == Unknown
    ensures ReplyAt(ops, tr, 4, h).Known?
  {
    ops := [EnrollDemo(name, id, token, now, true), Revoke(id, false), Authenticate(token, now, false),
            Restart, Authenticate(token, now, false)];
    var r := DemoRecord(ops[0], h);
    var out := r.(guest := r.guest.(revoked := true));
    tr := [State([], []), State([r], [r]), State([out], [r]), State([out], [r]), State([r], [r]), State([r], [r])];
    assert StepAt(ops, tr, 0, h) by { assert [] + [r] == [r]; }
    RevokeOnly(h, r, ops[1], [r]);
    AuthenticateOnly(h, out, ops[2], [r]);
    assert StepAt(ops, tr, 3, h);
    AuthenticateOnly(h, r, ops[4], [r]);
    assert StepAt(ops, tr, 1, h) && StepAt(ops, tr, 2, h) && StepAt(ops, tr, 4, h);
  }

  // ---- The store itself --------------------------------------------------------------------------

  class GuestStore {
    var guests: seq<Record>
    var file: seq<Record>
    const hash: string -> string

    function St(): State
      reads this
    {
      State(guests, file)
    }

    /** OpenGuestStore: whatever the file holds. */
    constructor (file: seq<Record>, hash: string -> string)
      ensures St() == State(file, file) && this.hash == hash
    {
      this.file := file;
      this.hash := hash;
      guests := file;
    }

    method FindRecord(match_: Record -> bool) returns (i: int)
      ensures i == Find(guests, match_)
    {
      i := 0;
      while i < |guests| && !match_(guests[i])
        invariant 0 <= i <= |guests|
        invariant forall k :: 0 <= k < i ==> !match_(guests[k])
      {
        i := i + 1;
      }
      if i == |guests| { i := -1; }
    }

    /** Replaces the file by what memory holds, or leaves it alone. */
    method SaveFile(ok: bool)
      modifies `file
      ensures St() == Save(old(St()), ok)
    {
      if ok { file := guests; }
    }

    method Create(op: Op) returns (reply: Reply)
      requires op.Create?
      modifies this
      ensures (St(), reply) == Step(old(St()), op, hash)
      ensures if op.saved then reply == Code(op.code, Guest(op.id, op.name, op.now, ZERO_TIME, false, false, false))
              else reply == Failed(SaveFailed) && St() == old(St())
    {
      var rec := Created(op, hash);
      guests := guests + [rec];
      SaveFile(op.saved);
      if !op.saved {
        guests := guests[..|guests| - 1];
        return Failed(SaveFailed);
      }
      reply := Code(op.code, rec.guest);
    }

    method Enroll(op: Op) returns (reply: Reply)
      requires op.Enroll?
      modifies this
      ensures (St(), reply) == Step(old(St()), op, hash)
    {
      var i := FindRecord(HasCode(hash(op.code)));
      if i == -1 || guests[i].guest.revoked { return Failed(EnrollInvalid); }
      if op.now > guests[i].codeExpiry { return Failed(EnrollExpired); }
      guests := guests[i := Enrolled(guests[i], op, hash)];
      SaveFile(op.saved);
      if !op.saved { return Failed(SaveFailed); }
      reply := Token(op.token, guests[i].guest);
    }

    method EnrollDemo(op: Op) returns (reply: Reply)
      requires op.EnrollDemo?
      modifies this
      ensures (St(), reply) == Step(old(St()), op, hash)
      ensures if op.saved then reply == Token(op.token, Guest(op.id, op.name, op.now, op.now, true, false, true))
              else reply == Failed(SaveFailed) && St() == old(St())
    {
      var rec := DemoRecord(op, hash);
      guests := guests + [rec];
      SaveFile(op.saved);
      if !op.saved {
        guests := guests[..|guests| - 1];
        return Failed(SaveFailed);
      }
      reply := Token(op.token, rec.guest);
    }

    method Revoke(op: Op) returns (reply: Reply)
      requires op.Revoke?
      modifies this
      ensures (St(), reply) == Step(old(St()), op, hash)
    {
      var i := FindRecord(HasId(op.id));
      if i == -1 { return Failed(GuestNotFound); }
      guests := guests[i := guests[i].(guest := guests[i].guest.(revoked := true))];
      SaveFile(op.saved);
      reply := if op.saved then Done else Failed(SaveFailed);
    }

    method Authenticate(op: Op) returns (reply: Reply)
      requires op.Authenticate?
      modifies this
      ensures (St(), reply) == Step(old(St()), op, hash)
    {
      var i := FindRecord(HasToken(hash(op.token)));
      if i == -1 || guests[i].guest.revoked { return Unknown; }
      guests := guests[i := guests[i].(guest := guests[i].guest.(lastSeen := op.now))];
      SaveFile(op.saved);
      reply := Known(guests[i].guest);
    }
  }
}
