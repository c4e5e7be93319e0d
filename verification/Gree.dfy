/** The air conditioner client (greeClient in gree.go): discovery, binding, requests and reset. Each
    critical section holds the client's lock from end to end; between them any number of Status and Set
    calls interleave. Sockets, clocks and JSON are the environment: a script says how sends end and
    what each turn of a reading loop brings, and `unpack` opens a pack with a key. */
module Gree {
  import opened Text

  // ---- Device ids ----------------------------------------------------------------------

  predicate IsSeparator(c: char) {
    c == ':' || c == '-' || c == '.'
  }

  function WithoutSeparators(mac: string): string {
    if mac == "" then ""
    else (if IsSeparator(mac[0]) then "" else [mac[0]]) + WithoutSeparators(mac[1..])
  }

  /** greeNormalizeMAC. */
  function Normalize(mac: string): string {
    ToLower(WithoutSeparators(mac))
  }

  /** How many characters of a MAC are no separators. */
  function Significant(mac: string): nat {
    if mac == "" then 0 else (if mac[0] in {':', '-', '.'} then 0 else 1) + Significant(mac[1..])
  }

  lemma {:induction false} WithoutSeparatorsAt(mac: string, i: nat)
    requires i <= |mac|
    ensures |WithoutSeparators(mac)| == Significant(mac)
    ensures i < |mac| && mac[i] !in {':', '-', '.'} ==>
              && Significant(mac[..i]) < |WithoutSeparators(mac)|
              && WithoutSeparators(mac)[Significant(mac[..i])] == mac[i]
  {
    if mac != "" {
      WithoutSeparatorsAt(mac[1..], if i == 0 then 0 else i - 1);
      if i > 0 { assert mac[..i][1..] == mac[1..][..i - 1]; }
    }
  }

  /** A normal form is as long as there are characters that are no separators, and each of these
      stands in it, lower-cased, behind those that precede it. */
  lemma NormalizeMeans(mac: string, i: nat)
    requires i <= |mac|
    ensures |Normalize(mac)| == Significant(mac)
    ensures i < |mac| && mac[i] !in {':', '-', '.'} ==>
              && Significant(mac[..i]) < |Normalize(mac)|
              && Normalize(mac)[Significant(mac[..i])]
                 == if 'A' <= mac[i] <= 'Z' then (mac[i] as int + 32) as char else mac[i]
  {
    WithoutSeparatorsAt(mac, i);
  }

  lemma {:induction false} SeparatorsRemoved(a: string, b: string)
    ensures WithoutSeparators(a + b) == WithoutSeparators(a) + WithoutSeparators(b)
  {
    if a == "" {
      assert a + b == b;
    } else {
      assert (a + b)[1..] == a[1..] + b;
      SeparatorsRemoved(a[1..], b);
    }
  }

  lemma {:induction false} NothingToRemove(a: string)
    ensures forall i :: 0 <= i < |WithoutSeparators(a)| ==> !IsSeparator(WithoutSeparators(a)[i])
    ensures (forall i :: 0 <= i < |a| ==> !IsSeparator(a[i])) ==> WithoutSeparators(a) == a
  {
    if a != "" { NothingToRemove(a[1..]); }
  }

  /** A separator anywhere in a MAC makes no difference. */
  lemma SeparatorsDoNotMatter(a: string, sep: char, b: string)
    requires IsSeparator(sep)
    ensures Normalize(a + [sep] + b) == Normalize(a + b)
  {
    SeparatorsRemoved(a + [sep], b);
    SeparatorsRemoved(a, [sep]);
    SeparatorsRemoved(a, b);
    assert WithoutSeparators([sep]) == "";
  }

  /** A normalized MAC is its own normal form, so comparing normal forms is an equivalence. */
  lemma NormalizeIdempotent(mac: string)
    ensures Normalize(Normalize(mac)) == Normalize(mac)
  {
    NothingToRemove(mac);
    var bare := WithoutSeparators(mac);
    forall i | 0 <= i < |bare|
      ensures !IsSeparator(ToLower(bare)[i]) && LowerChar(LowerChar(bare[i])) == LowerChar(bare[i])
    {
    }
    NothingToRemove(ToLower(bare));
  }

  // ---- What the network brings -----------------------------------------------------------

  datatype Addr = Addr(ip: string, port: int)

  /** The string fields of an inner JSON object; an absent field, or one that is not a string, is "". */
  datatype Inner = Inner(cid: string, mac: string, key: string, rest: string)

  datatype Failure = TimedOut | Other

  datatype Datagram = Datagram(src: Addr, pack: string)

  /** Where a packet for the unit is sent. */
  datatype Target = Broadcast | Unicast(addr: Addr)

  /** One turn of a reading loop. */
  datatype Turn =
    | ContextDone(f: Failure)   // ctx.Err() at the head of the loop; an expired deadline is a timeout
    | Unreadable(f: Failure)    // the read fails
    | Received(d: Datagram)

  datatype Exchange = Exchange(sent: Option<Failure>, turns: seq<Turn>)

  /** Everything that may happen to one critical section. */
  datatype Script = Script(listen: bool, scan: Exchange, bind: Target -> Exchange, request: Target -> Exchange)

  /** Parses an envelope's pack and decrypts it; None for anything malformed. */
  type Unpack = (string, string) -> Option<Inner>

  const GENERIC_KEY: string := "a3K8Bx%2r8Y7#xDh"

  function UnitId(inner: Inner): string {
    if inner.cid != "" then inner.cid else inner.mac
  }

  predicate IsOurUnit(id: string, mac: string) {
    id != "" && (mac == "" || Normalize(id) == mac)
  }

  /** The turn brings a well-formed scan reply. */
  predicate Heard(r: Turn, unpack: Unpack) {
    r.Received? && unpack(GENERIC_KEY, r.d.pack).Some?
  }

  function ScanId(r: Turn, unpack: Unpack): string
    requires Heard(r, unpack)
  {
    UnitId(unpack(GENERIC_KEY, r.d.pack).value)
  }

  /** A scan reply of the unit that is looked for. */
  predicate Ours(r: Turn, mac: string, unpack: Unpack) {
    Heard(r, unpack) && IsOurUnit(ScanId(r, unpack), mac)
  }

  /** A scan reply of some other unit. */
  predicate Foreign(r: Turn, mac: string, unpack: Unpack) {
    Heard(r, unpack) && !IsOurUnit(ScanId(r, unpack), mac)
  }

  /** The loop of discoverLocked from its i-th turn: any failure to read ends it. */
  function FindUnit(turns: seq<Turn>, i: nat, mac: string, unpack: Unpack): (k: Option<nat>)
    requires i <= |turns|
    ensures k.Some? ==> k.value < |turns| && Ours(turns[k.value], mac, unpack)
    decreases |turns| - i
  {
    if i == |turns| then None
    else if Ours(turns[i], mac, unpack) then Some(i)
    else if Foreign(turns[i], mac, unpack) then FindUnit(turns, i + 1, mac, unpack)
    else None
  }

  predicate Answers(r: Turn, addr: Addr, key: string, unpack: Unpack) {
    r.Received? && unpack(key, r.d.pack).Some? && r.d.src == addr
  }

  /** The failure a turn without an answer leaves behind. */
  function Blame(r: Turn): Failure {
    if r.Received? then Other else r.f
  }

  /** The loop of readReplyLocked from its i-th turn. */
  function FindReply(turns: seq<Turn>, i: nat, addr: Addr, key: string, unpack: Unpack, last: Failure)
    : (r: Result<nat, Failure>)
    requires i <= |turns|
    ensures r.Ok? ==> r.value < |turns| && Answers(turns[r.value], addr, key, unpack)
    decreases |turns| - i
  {
    if i == |turns| then Err(last)
    else if turns[i].ContextDone? then Err(turns[i].f)
    else if Answers(turns[i], addr, key, unpack) then Ok(i)
    else FindReply(turns, i + 1, addr, key, unpack, Blame(turns[i]))
  }

  /** The k-th turn brings a reply with an id that is the MAC, where there is one, up to case and separators.
      Every turn before it brings a well-formed reply without an id or with the id of another unit. */
  ghost predicate Scanned(turns: seq<Turn>, i: nat, mac: string, unpack: Unpack, k: nat) {
    && i <= k < |turns| && Heard(turns[k], unpack)
    && ScanId(turns[k], unpack) != "" && (mac == "" || Normalize(ScanId(turns[k], unpack)) == mac)
    && forall j :: i <= j < k ==>
         && Heard(turns[j], unpack)
         && (ScanId(turns[j], unpack) == "" || (mac != "" && Normalize(ScanId(turns[j], unpack)) != mac))
  }

  /** One well-formed reply of a scan for a configured MAC: it is accepted when its id, the cid or else the mac,
      is there and has the normal form of the configured one, or none is configured; else it is skipped. */
  lemma ScanReplyDecides(turns: seq<Turn>, i: nat, configured: string, unpack: Unpack, inner: Inner)
    requires i < |turns| && turns[i].Received?
    requires unpack("a3K8Bx%2r8Y7#xDh", turns[i].d.pack) == Some(inner)
    ensures var id := if inner.cid == "" then inner.mac else inner.cid;
            FindUnit(turns, i, Normalize(configured), unpack)
              == if id != "" && Normalize(configured) in {"", Normalize(id)} then Some(i)
                 else FindUnit(turns, i + 1, Normalize(configured), unpack)
  {
    assert Heard(turns[i], unpack);
  }

  /** Discovery accepts exactly the first reply of the unit, provided every turn before it brought a
      well-formed reply of another unit. */
  lemma {:induction false} FindUnitIff(turns: seq<Turn>, i: nat, mac: string, unpack: Unpack, k: nat)
    requires i <= |turns|
    ensures FindUnit(turns, i, mac, unpack) == Some(k) <==> Scanned(turns, i, mac, unpack, k)
    decreases |turns| - i
  {
    if i < |turns| && Foreign(turns[i], mac, unpack) {
      FindUnitIff(turns, i + 1, mac, unpack, k);
      ScannedStep(turns, i, mac, unpack, k);
    }
  }

  lemma ScannedStep(turns: seq<Turn>, i: nat, mac: string, unpack: Unpack, k: nat)
    requires i < |turns| && Foreign(turns[i], mac, unpack)
    ensures Scanned(turns, i, mac, unpack, k) <==> Scanned(turns, i + 1, mac, unpack, k)
  {
  }

  /** A reply is accepted exactly when it is the first one from the unit's address that opens with the
      key, and the context was alive until then. */
  lemma {:induction false} FindReplyIff(turns: seq<Turn>, i: nat, addr: Addr, key: string, unpack: Unpack,
                                        last: Failure, k: nat)
    requires i <= |turns|
    ensures FindReply(turns, i, addr, key, unpack, last) == Ok(k)
       <==> i <= k < |turns| && Answers(turns[k], addr, key, unpack)
            && forall j :: i <= j < k ==> !Answers(turns[j], addr, key, unpack) && !turns[j].ContextDone?
    decreases |turns| - i
  {
    if i < |turns| && !turns[i].ContextDone? && !Answers(turns[i], addr, key, unpack) {
      FindReplyIff(turns, i + 1, addr, key, unpack, Blame(turns[i]), k);
    }
  }

  /** Without an answer the failure reported is that of the context's end, or else of the last turn. */
  lemma {:induction false} NoReplyBlames(turns: seq<Turn>, i: nat, addr: Addr, key: string, unpack: Unpack,
                                         last: Failure, n: nat)
    requires i <= n <= |turns| && (n < |turns| ==> turns[n].ContextDone?)
    requires forall j :: i <= j < n ==> !Answers(turns[j], addr, key, unpack) && !turns[j].ContextDone?
    ensures FindReply(turns, i, addr, key, unpack, last)
         == Err(if n < |turns| then turns[n].f else if i < n then Blame(turns[n - 1]) else last)
    decreases |turns| - i
  {
    if i < n { NoReplyBlames(turns, i + 1, addr, key, unpack, Blame(turns[i]), n); }
  }

  // ---- The client -------------------------------------------------------------------------

  /** How a device key was come by: the accepted scan and bind replies, and where the bind was sent. */
  datatype Bond = Bond(scan: Datagram, bind: Datagram, target: Target)

  /** The fields of greeClient, and the bond behind the current key. */
  datatype State = State(addr: Option<Addr>, cid: string, key: Option<string>, broadcastOnly: bool,
                         connected: bool, bond: Option<Bond>)

  function SendTarget(st: State): Target
    requires st.addr.Some?
  {
    if st.broadcastOnly then Broadcast else Unicast(st.addr.value)
  }

  function AfterReset(st: State): State {
    st.(addr := None, cid := "", key := None, bond := None)
  }

  /** bindLocked: the reply that carries the key. */
  function Bind(addr: Addr, ex: Exchange, unpack: Unpack): (r: Result<Datagram, Failure>)
    ensures r.Ok? ==> unpack(GENERIC_KEY, r.value.pack).Some?
  {
    if ex.sent.Some? then Err(ex.sent.value)
    else match FindReply(ex.turns, 0, addr, GENERIC_KEY, unpack, Other)
         case Err(f) => Err(f)
         case Ok(k) =>
           if unpack(GENERIC_KEY, ex.turns[k].d.pack).value.key == [] then Err(Other) else Ok(ex.turns[k].d)
  }

  /** discoverLocked: the accepted scan reply. */
  function Discovered(connected: bool, script: Script, mac: string, unpack: Unpack): (r: Result<Datagram, Failure>)
    ensures r.Ok? ==> unpack(GENERIC_KEY, r.value.pack).Some?
  {
    if !connected && !script.listen then Err(Other)
    else if script.scan.sent.Some? then Err(script.scan.sent.value)
    else match FindUnit(script.scan.turns, 0, mac, unpack)
         case None => Err(Other)
         case Some(k) => Ok(script.scan.turns[k].d)
  }

  /** The client once a bind reply has been accepted. */
  function Keyed(st: State, scan: Datagram, bind: Datagram, target: Target, unpack: Unpack): State
    requires unpack(GENERIC_KEY, bind.pack).Some?
  {
    st.(key := Some(unpack(GENERIC_KEY, bind.pack).value.key), broadcastOnly := target == Broadcast,
        bond := Some(Bond(scan, bind, target)))
  }

  /** The client once the unit has been found. */
  function Found(st: State, scan: Datagram, unpack: Unpack): State
    requires unpack(GENERIC_KEY, scan.pack).Some?
  {
    st.(addr := Some(scan.src), cid := UnitId(unpack(GENERIC_KEY, scan.pack).value))
  }

  /** The route tried first, and the one to fall back to. */
  function Way(st: State, addr: Addr): Target {
    if st.broadcastOnly then Broadcast else Unicast(addr)
  }

  function OtherWay(st: State, addr: Addr): Target {
    if st.broadcastOnly then Unicast(addr) else Broadcast
  }

  /** The second half of scanAndBindLocked: bind the way that worked last, then the other way; but a
      unit not known to want broadcast gets one only after a timeout. */
  function BindEitherWay(st: State, scan: Datagram, script: Script, unpack: Unpack): (Option<Failure>, State)
  {
    var way, other := Way(st, scan.src), OtherWay(st, scan.src);
    match Bind(scan.src, script.bind(way), unpack)
    case Ok(bind) => (None, Keyed(st, scan, bind, way, unpack))
    case Err(f) =>
      if !st.broadcastOnly && f != TimedOut then (Some(f), st)
      else match Bind(scan.src, script.bind(other), unpack)
           case Ok(bind) => (None, Keyed(st, scan, bind, other, unpack))
           case Err(g) => (Some(g), st)
  }

  /** scanAndBindLocked. */
  function Handshake(st: State, script: Script, mac: string, unpack: Unpack): (Option<Failure>, State) {
    var up := st.(connected := st.connected || script.listen);
    match Discovered(st.connected, script, mac, unpack)
    case Err(f) => (Some(f), up)
    case Ok(scan) => BindEitherWay(Found(up, scan, unpack), scan, script, unpack)
  }

  /** ensureKey. */
  function Ensured(st: State, script: Script, mac: string, unpack: Unpack): (Option<Failure>, State) {
    if st.key.Some? then (None, st) else Handshake(st, script, mac, unpack)
  }

  /** AES takes keys of these lengths only. */
  predicate Usable(key: Option<string>) {
    key.Some? && |key.value| in {16, 24, 32}
  }

  /** A reply that has been handed to the caller, where its request had been sent, and what the client
      knew when it was accepted. */
  datatype Answer = Answer(d: Datagram, target: Target, client: State)

  datatype Trouble = BadKey | NilAddress | Network(f: Failure)

  /** The locked part of request: greeEncrypt comes first and refuses a missing key. */
  function Requested(st: State, script: Script, unpack: Unpack): (Result<Answer, Trouble>, State) {
    if !Usable(st.key) then (Err(BadKey), st)
    else
      var up := st.(connected := st.connected || script.listen);
      if !up.connected then (Err(Network(Other)), up)
      else if st.addr.None? then (Err(NilAddress), up)
      else
        var ex := script.request(SendTarget(st));
        if ex.sent.Some? then (Err(Network(ex.sent.value)), up)
        else match FindReply(ex.turns, 0, st.addr.value, st.key.value, unpack, Other)
             case Err(f) => (Err(Network(f)), up)
             case Ok(k) => (Ok(Answer(ex.turns[k].d, SendTarget(st), up)), up)
  }

  /** The k-th turn brings the first answer from addr, in time. */
  ghost predicate AnsweredAt(turns: seq<Turn>, addr: Addr, key: string, unpack: Unpack, k: nat) {
    && k < |turns| && Answers(turns[k], addr, key, unpack)
    && forall j :: 0 <= j < k ==> !Answers(turns[j], addr, key, unpack) && !turns[j].ContextDone?
  }

  /** A request is answered exactly when there is a key that AES takes, a socket and an address, the send over
      the learned route works, and the unit answers under that key in time; with its first such answer. */
  lemma RequestIff(st: State, script: Script, unpack: Unpack, d: Datagram)
    ensures (Requested(st, script, unpack).0.Ok? && Requested(st, script, unpack).0.value.d == d)
       <==> && st.key.Some? && |st.key.value| in {16, 24, 32} && (st.connected || script.listen) && st.addr.Some?
            && var ex := script.request(if st.broadcastOnly then Broadcast else Unicast(st.addr.value));
               && ex.sent.None?
               && exists k: nat :: AnsweredAt(ex.turns, st.addr.value, st.key.value, unpack, k) && ex.turns[k].d == d
  {
    if Usable(st.key) && st.addr.Some? {
      var ex := script.request(SendTarget(st));
      forall k: nat
        ensures FindReply(ex.turns, 0, st.addr.value, st.key.value, unpack, Other) == Ok(k)
           <==> AnsweredAt(ex.turns, st.addr.value, st.key.value, unpack, k)
      {
        FindReplyIff(ex.turns, 0, st.addr.value, st.key.value, unpack, Other, k);
      }
    }
  }

  const FRESH := State(None, "", None, false, false, None)

  // ---- The invariant ------------------------------------------------------------------------------

  /** The key was issued by the very unit found at addr, over the route that requests now take. */
  predicate Bonded(st: State, mac: string, unpack: Unpack) {
    && st.addr.Some? && st.key.Some? && st.bond.Some?
    && var b := st.bond.value;
       && b.scan.src == b.bind.src == st.addr.value
       && unpack(GENERIC_KEY, b.scan.pack).Some? && UnitId(unpack(GENERIC_KEY, b.scan.pack).value) == st.cid
       && IsOurUnit(st.cid, mac)
       && unpack(GENERIC_KEY, b.bind.pack).Some? && unpack(GENERIC_KEY, b.bind.pack).value.key == st.key.value
       && st.key.value != []
       && b.target == SendTarget(st)
  }

  predicate Linked(st: State, mac: string, unpack: Unpack) {
    && (st.key.Some? ==> Bonded(st, mac, unpack))
    && (st.cid != "" ==> IsOurUnit(st.cid, mac))
  }

  lemma BindFrom(addr: Addr, ex: Exchange, unpack: Unpack)
    requires Bind(addr, ex, unpack).Ok?
    ensures var d := Bind(addr, ex, unpack).value;
            d.src == addr && unpack(GENERIC_KEY, d.pack).Some? && unpack(GENERIC_KEY, d.pack).value.key != []
  {
  }

  lemma BindLinks(st: State, scan: Datagram, script: Script, mac: string, unpack: Unpack)
    requires st.key.None? && Linked(st, mac, unpack) && st.addr == Some(scan.src)
    requires unpack(GENERIC_KEY, scan.pack).Some? && st.cid == UnitId(unpack(GENERIC_KEY, scan.pack).value)
    requires IsOurUnit(st.cid, mac)
    ensures var (failure, after) := BindEitherWay(st, scan, script, unpack);
            Linked(after, mac, unpack) && (failure.None? <==> after.key.Some?)
  {
    var first, second := script.bind(Way(st, scan.src)), script.bind(OtherWay(st, scan.src));
    if Bind(scan.src, first, unpack).Ok? { BindFrom(scan.src, first, unpack); }
    if Bind(scan.src, second, unpack).Ok? { BindFrom(scan.src, second, unpack); }
  }

  lemma HandshakeLinks(st: State, script: Script, mac: string, unpack: Unpack)
    requires st.key.None? && Linked(st, mac, unpack)
    ensures var (failure, after) := Handshake(st, script, mac, unpack);
            Linked(after, mac, unpack) && (failure.None? <==> after.key.Some?)
  {
    var found := Discovered(st.connected, script, mac, unpack);
    if found.Ok? {
      var up := st.(connected := st.connected || script.listen);
      BindLinks(Found(up, found.value, unpack), found.value, script, mac, unpack);
    }
  }

  // ---- When a handshake succeeds ---------------------------------------------------------------------

  ghost predicate Issues(ex: Exchange, addr: Addr, unpack: Unpack) {
    && ex.sent.None?
    && exists k: nat :: AnsweredAt(ex.turns, addr, GENERIC_KEY, unpack, k)
                && unpack(GENERIC_KEY, ex.turns[k].d.pack).value.key != ""
  }

  /** The unit never answered and what ended the wait was a timeout. */
  ghost predicate Ignored(ex: Exchange, addr: Addr, unpack: Unpack) {
    if ex.sent.Some? then ex.sent.value == TimedOut
    else exists n :: 0 <= n <= |ex.turns| && Silent(ex.turns, addr, unpack, n)
  }

  /** No answer in the first n turns, then the end of the context or of the wait, by timeout. */
  ghost predicate Silent(turns: seq<Turn>, addr: Addr, unpack: Unpack, n: nat)
    requires n <= |turns|
  {
    && (forall j :: 0 <= j < n ==> !Answers(turns[j], addr, GENERIC_KEY, unpack) && !turns[j].ContextDone?)
    && (if n < |turns| then turns[n] == ContextDone(TimedOut) else n > 0 && Blame(turns[n - 1]) == TimedOut)
  }

  lemma BindIssuesIff(addr: Addr, ex: Exchange, unpack: Unpack)
    ensures Bind(addr, ex, unpack).Ok? <==> Issues(ex, addr, unpack)
  {
    if ex.sent.None? {
      forall k: nat
        ensures FindReply(ex.turns, 0, addr, GENERIC_KEY, unpack, Other) == Ok(k)
           <==> AnsweredAt(ex.turns, addr, GENERIC_KEY, unpack, k)
      {
        FindReplyIff(ex.turns, 0, addr, GENERIC_KEY, unpack, Other, k);
      }
    }
  }

  lemma {:induction false} FirstStop(turns: seq<Turn>, addr: Addr, unpack: Unpack) returns (n: nat)
    ensures n <= |turns|
    ensures forall j :: 0 <= j < n ==> !Answers(turns[j], addr, GENERIC_KEY, unpack) && !turns[j].ContextDone?
    ensures n < |turns| ==> Answers(turns[n], addr, GENERIC_KEY, unpack) || turns[n].ContextDone?
  {
    n := 0;
    while n < |turns| && !Answers(turns[n], addr, GENERIC_KEY, unpack) && !turns[n].ContextDone?
      invariant n <= |turns|
      invariant forall j :: 0 <= j < n ==> !Answers(turns[j], addr, GENERIC_KEY, unpack) && !turns[j].ContextDone?
    {
      n := n + 1;
    }
  }

  lemma BindIgnoredIff(addr: Addr, ex: Exchange, unpack: Unpack)
    ensures Bind(addr, ex, unpack) == Err(TimedOut) <==> Ignored(ex, addr, unpack)
  {
    if ex.sent.None? {
      var n := FirstStop(ex.turns, addr, unpack);
      if n < |ex.turns| && Answers(ex.turns[n], addr, GENERIC_KEY, unpack) {
        FindReplyIff(ex.turns, 0, addr, GENERIC_KEY, unpack, Other, n);
      } else {
        NoReplyBlames(ex.turns, 0, addr, GENERIC_KEY, unpack, Other, n);
        assert Bind(addr, ex, unpack) == Err(TimedOut) ==> Silent(ex.turns, addr, unpack, n);
      }
      forall m | 0 <= m <= |ex.turns| && Silent(ex.turns, addr, unpack, m)
        ensures m == n
      {
        assert !(m < n);
        assert !(n < m);
      }
    }
  }

  /** A handshake yields a key exactly when the scan reaches the unit and a bind over one of the two
      routes makes it issue one, the second route being tried after a timeout or in broadcast mode. */
  lemma HandshakeIff(st: State, script: Script, mac: string, unpack: Unpack)
    ensures Handshake(st, script, mac, unpack).0.None?
       <==> && (st.connected || script.listen) && script.scan.sent.None?
            && exists k: nat :: Scanned(script.scan.turns, 0, mac, unpack, k)
                        && Bindable(st, script, script.scan.turns[k].d.src, unpack)
  {
    forall k: nat
      ensures FindUnit(script.scan.turns, 0, mac, unpack) == Some(k) <==> Scanned(script.scan.turns, 0, mac, unpack, k)
    {
      FindUnitIff(script.scan.turns, 0, mac, unpack, k);
    }
    var found := FindUnit(script.scan.turns, 0, mac, unpack);
    if found.Some? {
      var src := script.scan.turns[found.value].d.src;
      BindIssuesIff(src, script.bind(Way(st, src)), unpack);
      BindIssuesIff(src, script.bind(OtherWay(st, src)), unpack);
      BindIgnoredIff(src, script.bind(Way(st, src)), unpack);
    }
  }

  /** The unit issues a key over the remembered route, or over the other one where that is tried. */
  ghost predicate Bindable(st: State, script: Script, addr: Addr, unpack: Unpack) {
    if st.broadcastOnly then
      Issues(script.bind(Broadcast), addr, unpack) || Issues(script.bind(Unicast(addr)), addr, unpack)
    else
      || Issues(script.bind(Unicast(addr)), addr, unpack)
      || (Ignored(script.bind(Unicast(addr)), addr, unpack) && Issues(script.bind(Broadcast), addr, unpack))
  }

  /** A handshake keeps the remembered route when a key is issued over it, and changes over when it is not. */
  lemma RouteLearned(st: State, script: Script, mac: string, unpack: Unpack, k: nat)
    requires Handshake(st, script, mac, unpack).0.None? && Scanned(script.scan.turns, 0, mac, unpack, k)
    ensures var src, after := script.scan.turns[k].d.src, Handshake(st, script, mac, unpack).1;
            && after.addr == Some(src)
            && after.broadcastOnly
               == if st.broadcastOnly then Issues(script.bind(Broadcast), src, unpack)
                  else !Issues(script.bind(Unicast(src)), src, unpack)
  {
    var src := script.scan.turns[k].d.src;
    FindUnitIff(script.scan.turns, 0, mac, unpack, k);
    BindIssuesIff(src, script.bind(Broadcast), unpack);
    BindIssuesIff(src, script.bind(Unicast(src)), unpack);
  }

  // ---- The client itself ----------------------------------------------------------------------------------

  class GreeClient {
    const mac: string
    const unpack: Unpack
    var addr: Option<Addr>
    var cid: string
    var key: Option<string>
    var broadcastOnly: bool
    var connected: bool
    ghost var bond: Option<Bond>

    ghost function View(): State
      reads this
    {
      State(addr, cid, key, broadcastOnly, connected, bond)
    }

    ghost predicate Valid()
      reads this
    {
      Linked(View(), mac, unpack)
    }

    constructor (configured: string, unpack: Unpack)
      ensures Valid() && View() == FRESH && mac == Normalize(configured) && this.unpack == unpack
    {
      mac, this.unpack := Normalize(configured), unpack;
      addr, cid, key, broadcastOnly, connected, bond := None, "", None, false, false, None;
    }

    method Reset()
      requires Valid()
      modifies this
      ensures Valid() && View() == AfterReset(old(View()))
    {
      addr, cid, key, bond := None, "", None, None;
    }

    method Listen(listen: bool) returns (ok: bool)
      modifies this`connected
      ensures connected == (old(connected) || listen) && ok == connected
    {
      if !connected { connected := listen; }
      ok := connected;
    }

    method ReadReply(turns: seq<Turn>, key: string) returns (r: Result<nat, Failure>)
      requires addr.Some?
      ensures r == FindReply(turns, 0, addr.value, key, unpack, Other)
    {
      var last := Other;
      var i := 0;
      ghost var expected := FindReply(turns, 0, addr.value, key, unpack, Other);
      while i < |turns|
        invariant 0 <= i <= |turns|
        invariant FindReply(turns, i, addr.value, key, unpack, last) == expected
        decreases |turns| - i
      {
        match turns[i] {
          case ContextDone(f) => return Err(f);
          case Unreadable(f) => last := f;
          case Received(d) =>
            if unpack(key, d.pack).None? {
              last := Other;
            } else if d.src.ip != addr.value.ip || d.src.port != addr.value.port {
              last := Other;
            } else {
              return Ok(i);
            }
        }
        i := i + 1;
      }
      r := Err(last);
    }

    method AwaitUnit(turns: seq<Turn>) returns (k: Option<nat>)
      ensures k == FindUnit(turns, 0, mac, unpack)
      ensures forall j: nat :: k == Some(j) <==> Scanned(turns, 0, mac, unpack, j)
    {
      forall j: nat
        ensures FindUnit(turns, 0, mac, unpack) == Some(j) <==> Scanned(turns, 0, mac, unpack, j)
      {
        FindUnitIff(turns, 0, mac, unpack, j);
      }
      var i := 0;
      while i < |turns|
        invariant 0 <= i <= |turns|
        invariant FindUnit(turns, 0, mac, unpack) == FindUnit(turns, i, mac, unpack)
      {
        if !turns[i].Received? { return None; }
        var inner := unpack(GENERIC_KEY, turns[i].d.pack);
        if inner.None? { return None; }
        var id := inner.value.cid;
        if id == "" { id := inner.value.mac; }
        if IsOurUnit(id, mac) { return Some(i); }
        i := i + 1;
      }
      k := None;
    }

    method Discover(script: Script) returns (r: Result<Datagram, Failure>)
      modifies this`addr, this`cid, this`connected
      ensures r == Discovered(old(connected), script, mac, unpack)
      ensures var up := old(View()).(connected := old(connected) || script.listen);
              View() == if r.Ok? then Found(up, r.value, unpack) else up
    {
      var up := Listen(script.listen);
      if !up { return Err(Other); }
      if script.scan.sent.Some? { return Err(script.scan.sent.value); }
      var k := AwaitUnit(script.scan.turns);
      if k.None? { return Err(Other); }
      var d := script.scan.turns[k.value].d;
      addr, cid := Some(d.src), UnitId(unpack(GENERIC_KEY, d.pack).value);
      r := Ok(d);
    }

    method BindVia(ex: Exchange) returns (r: Result<Datagram, Failure>)
      requires addr.Some?
      ensures r == Bind(addr.value, ex, unpack)
    {
      if ex.sent.Some? { return Err(ex.sent.value); }
      var reply := ReadReply(ex.turns, GENERIC_KEY);
      if reply.Err? { return Err(reply.error); }
      var d := ex.turns[reply.value].d;
      r := if unpack(GENERIC_KEY, d.pack).value.key == "" then Err(Other) else Ok(d);
    }

    method BindUnit(scan: Datagram, script: Script) returns (failure: Option<Failure>)
      requires addr == Some(scan.src)
      modifies this`key, this`broadcastOnly, this`bond
      ensures (failure, View()) == BindEitherWay(old(View()), scan, script, unpack)
    {
      var target := if broadcastOnly then Broadcast else Unicast(scan.src);
      var reply := BindVia(script.bind(target));
      if reply.Err? {
        var retry := broadcastOnly || reply.error == TimedOut;
        if !retry { return Some(reply.error); }
        target := if broadcastOnly then Unicast(scan.src) else Broadcast;
        reply := BindVia(script.bind(target));
        if reply.Err? { return Some(reply.error); }
        broadcastOnly := !broadcastOnly;
      }
      key := Some(unpack(GENERIC_KEY, reply.value.pack).value.key);
      bond := Some(Bond(scan, reply.value, target));
      failure := None;
    }

    method ScanAndBind(script: Script) returns (failure: Option<Failure>)
      requires Valid() && key.None?
      modifies this
      ensures Valid() && (failure, View()) == Handshake(old(View()), script, mac, unpack)
    {
      HandshakeLinks(View(), script, mac, unpack);
      var scan := Discover(script);
      if scan.Err? { return Some(scan.error); }
      failure := BindUnit(scan.value, script);
    }

    method EnsureKey(script: Script) returns (failure: Option<Failure>)
      requires Valid()
      modifies this
      ensures Valid() && (failure, View()) == Ensured(old(View()), script, mac, unpack)
      ensures failure.None? ==> key.Some?
    {
      if key.None? { HandshakeLinks(View(), script, mac, unpack); }
      if key.Some? { return None; }
      failure := ScanAndBind(script);
    }

    /** The locked part of request. */
    method Request(script: Script) returns (r: Result<Datagram, Trouble>, sentTo: Option<Target>)
      requires Valid()
      modifies this`connected
      ensures Valid()
      ensures var (expected, after) := Requested(old(View()), script, unpack);
              && View() == after
              && match expected
                 case Ok(a) => r == Ok(a.d) && sentTo == Some(a.target)
                 case Err(t) => r == Err(t) && (t == BadKey ==> sentTo == None)
    {
      if key.None? || |key.value| !in {16, 24, 32} { return Err(BadKey), None; }
      var up := Listen(script.listen);
      if !up { return Err(Network(Other)), None; }
      var target := if broadcastOnly then Broadcast else Unicast(addr.value);
      var ex := script.request(target);
      sentTo := Some(target);
      if ex.sent.Some? { return Err(Network(ex.sent.value)), sentTo; }
      var reply := ReadReply(ex.turns, key.value);
      r := match reply
           case Ok(k) => Ok(ex.turns[k].d)
           case Err(f) => Err(Network(f));
    }
  }
}
