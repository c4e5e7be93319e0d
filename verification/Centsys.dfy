/** The Centsys gate's trigger packets (centsys_packets.go) and the activation exchange that uses
    them (the retry loop of Open in centsys.go). */
module Centsys {
  import opened Text

  type Bytes = seq<bv8>

  const BASE_KEY: Bytes := [0x38, 0x98, 0x3f, 0xba, 0x4d, 0xbf, 0xab, 0x9c]

  // ---- Obfuscation ------------------------------------------------------------------

  function Key(mac4: Bytes): (k: Bytes)
    requires |mac4| == 4
    ensures |k| == 8
  {
    seq(8, i requires 0 <= i < 8 => if i < 4 then BASE_KEY[i] ^ mac4[i] else BASE_KEY[i])
  }

  function Xor(data: Bytes, key: Bytes): (r: Bytes)
    requires |key| > 0
    ensures |r| == |data|
  {
    seq(|data|, i requires 0 <= i < |data| => data[i] ^ key[i % |key|])
  }

  lemma XorTwice(a: bv8, b: bv8)
    ensures (a ^ b) ^ b == a
  {
  }

  /** Obfuscating is its own inverse, for data of any length. */
  lemma XorInvolution(data: Bytes, key: Bytes)
    requires |key| > 0
    ensures Xor(Xor(data, key), key) == data
  {
    forall i | 0 <= i < |data|
      ensures Xor(Xor(data, key), key)[i] == data[i]
    {
      XorTwice(data[i], key[i % |key|]);
    }
  }

  method DeriveKey(mac4: Bytes) returns (k: array<bv8>)
    requires |mac4| == 4
    ensures fresh(k) && k[..] == Key(mac4)
  {
    k := new bv8[8](_ => 0);
    var i := 0;
    while i < 8
      invariant 0 <= i <= 8
      invariant forall j :: 0 <= j < i ==> k[j] == Key(mac4)[j]
    {
      k[i] := BASE_KEY[i];
      if i < 4 { k[i] := k[i] ^ mac4[i]; }
      i := i + 1;
    }
  }

  method XorBytes(data: Bytes, key: Bytes) returns (out: array<bv8>)
    requires |key| > 0
    ensures fresh(out) && out[..] == Xor(data, key)
  {
    out := new bv8[|data|](_ => 0);
    var i := 0;
    while i < |data|
      invariant 0 <= i <= |data|
      invariant forall j :: 0 <= j < i ==> out[j] == Xor(data, key)[j]
    {
      out[i] := data[i] ^ key[i % |key|];
      i := i + 1;
    }
  }

  // ---- Words of decimal digits --------------------------------------------------------

  /** d << 4k, for a nibble position k. */
  function Shifted(d: bv32, k: nat): bv32
    requires k < 8
  {
    if k == 0 then d else if k == 1 then d << 4 else if k == 2 then d << 8 else if k == 3 then d << 12
    else if k == 4 then d << 16 else if k == 5 then d << 20 else if k == 6 then d << 24 else d << 28
  }

  /** The nibble at position k, least significant first. */
  function Nibble(w: bv32, k: nat): bv32
    requires k < 8
  {
    (if k == 0 then w else if k == 1 then w >> 4 else if k == 2 then w >> 8 else if k == 3 then w >> 12
     else if k == 4 then w >> 16 else if k == 5 then w >> 20 else if k == 6 then w >> 24 else w >> 28) & 0xF
  }

  /** Eight digits or-ed together, each in its own nibble, the first on top. */
  function Packed(a: bv32, b: bv32, c: bv32, d: bv32, e: bv32, f: bv32, g: bv32, h: bv32): bv32 {
    (0 | Shifted(a, 7) | Shifted(b, 6) | Shifted(c, 5) | Shifted(d, 4)
     | Shifted(e, 3) | Shifted(f, 2) | Shifted(g, 1)) | Shifted(h, 0)
  }

  lemma PackedApart(a: bv32, b: bv32, c: bv32, d: bv32, e: bv32, f: bv32, g: bv32, h: bv32)
    requires a <= 9 && b <= 9 && c <= 9 && d <= 9 && e <= 9 && f <= 9 && g <= 9 && h <= 9
    ensures var w := Packed(a, b, c, d, e, f, g, h);
            && Nibble(w, 7) == a && Nibble(w, 6) == b && Nibble(w, 5) == c && Nibble(w, 4) == d
            && Nibble(w, 3) == e && Nibble(w, 2) == f && Nibble(w, 1) == g && Nibble(w, 0) == h
  {
  }

  /** n as a 32-bit word, wrapping around. */
  function Counted(n: nat): bv32 {
    if n == 0 then 0 else Counted(n - 1) + 1
  }

  /** uint32(c - '0'), the subtraction being on bytes. */
  function DigitOf(c: byte): bv32 {
    match c
    case '0' => 0 case '1' => 1 case '2' => 2 case '3' => 3 case '4' => 4
    case '5' => 5 case '6' => 6 case '7' => 7 case '8' => 8 case '9' => 9
    case _ => Counted((c as int + 256 - '0' as int) % 256)
  }

  lemma DigitIsSmall(c: byte)
    requires IsDigit(c)
    ensures DigitOf(c) <= 9
  {
  }

  /** The digits of a phone number from right to left. */
  function Digits(s: seq<byte>): (ds: seq<bv32>)
    ensures |ds| == |s|
  {
    seq(|s|, i requires 0 <= i < |s| => DigitOf(s[|s| - i - 1]))
  }

  /** The i-th digit from the right; nothing beyond the left end. */
  function DigitAt(ds: seq<bv32>, i: nat): bv32 {
    if i < |ds| then ds[i] else 0
  }

  /** The digits numbered `from` to from + m - 1, packed into the top m nibbles. */
  function Word(ds: seq<bv32>, from: nat, m: nat): bv32
    requires m <= 8
  {
    if m == 0 then 0 else Word(ds, from, m - 1) | Shifted(DigitAt(ds, from + m - 1), 8 - m)
  }

  ghost predicate AllDigitBytes(s: seq<byte>) {
    forall i :: 0 <= i < |s| ==> IsDigit(s[i])
  }

  lemma DigitsAreSmall(s: seq<byte>, i: nat)
    requires AllDigitBytes(s)
    ensures DigitAt(Digits(s), i) <= 9
  {
    if i < |s| { DigitIsSmall(s[|s| - i - 1]); }
  }

  lemma WordStep(ds: seq<bv32>, from: nat, m: nat)
    requires 0 < m <= 8
    ensures Word(ds, from, m) == Word(ds, from, m - 1) | Shifted(DigitAt(ds, from + m - 1), 8 - m)
  {
  }

  lemma WordUnrolled(ds: seq<bv32>, from: nat)
    ensures Word(ds, from, 8)
         == Packed(DigitAt(ds, from), DigitAt(ds, from + 1), DigitAt(ds, from + 2), DigitAt(ds, from + 3),
                   DigitAt(ds, from + 4), DigitAt(ds, from + 5), DigitAt(ds, from + 6), DigitAt(ds, from + 7))
  {
    WordStep(ds, from, 1); WordStep(ds, from, 2); WordStep(ds, from, 3); WordStep(ds, from, 4);
    WordStep(ds, from, 5); WordStep(ds, from, 6); WordStep(ds, from, 7); WordStep(ds, from, 8);
  }

  /** Reading a word nibble by nibble gives back every digit that went into it, and zero past the left
      end: the digits do not overlap. */
  lemma WordNibbles(ds: seq<bv32>, from: nat, j: nat)
    requires j < 8 && forall i: nat :: DigitAt(ds, i) <= 9
    ensures Nibble(Word(ds, from, 8), 7 - j) == DigitAt(ds, from + j)
  {
    WordUnrolled(ds, from);
    PackedApart(DigitAt(ds, from), DigitAt(ds, from + 1), DigitAt(ds, from + 2), DigitAt(ds, from + 3),
                DigitAt(ds, from + 4), DigitAt(ds, from + 5), DigitAt(ds, from + 6), DigitAt(ds, from + 7));
    if j == 0 {} else if j == 1 {} else if j == 2 {} else if j == 3 {}
    else if j == 4 {} else if j == 5 {} else if j == 6 {} else {}
  }

  function WithoutPlus(phone: seq<byte>): seq<byte> {
    if phone == [] then []
    else (if phone[0] == '+' then [] else [phone[0]]) + WithoutPlus(phone[1..])
  }

  lemma NothingShifted(w: bv32, k: nat)
    requires k < 8
    ensures w | Shifted(0, k) == w
  {
  }

  lemma PackStep(ds: seq<bv32>, from: nat, m: nat)
    requires m < 8
    ensures from + m < |ds| ==> Word(ds, from, m + 1) == Word(ds, from, m) | Shifted(ds[from + m], 7 - m)
    ensures from + m >= |ds| ==> Word(ds, from, m + 1) == Word(ds, from, m)
  {
    WordStep(ds, from, m + 1);
    if from + m >= |ds| {
      NothingShifted(Word(ds, from, m), 7 - m);
    }
  }

  /** One loop of phoneParts over the digits counted from the right: `from` is 16 for `lower`, 8 for
      `mid` and 0 for `upper`. */
  method PackWord(ds: seq<bv32>, from: nat) returns (w: bv32)
    ensures w == Word(ds, from, 8)
  {
    w := 0;
    for i := from to from + 8
      invariant w == Word(ds, from, i - from)
    {
      PackStep(ds, from, i - from);
      if i < |ds| { w := w | Shifted(ds[i], from + 7 - i); }
    }
  }

  method PhoneParts(phone: seq<byte>) returns (lower: bv32, mid: bv32, upper: bv32)
    ensures var ds := Digits(WithoutPlus(phone));
            lower == Word(ds, 16, 8) && mid == Word(ds, 8, 8) && upper == Word(ds, 0, 8)
  {
    var ds := Digits(WithoutPlus(phone));
    lower := PackWord(ds, 16);
    mid := PackWord(ds, 8);
    upper := PackWord(ds, 0);
  }

  // ---- The identity packet ------------------------------------------------------------------

  /** binary.LittleEndian.PutUint32. */
  function PutUint32(w: bv32): (b: Bytes)
    ensures |b| == 4
  {
    [(w & 0xFF) as bv8, ((w >> 8) & 0xFF) as bv8, ((w >> 16) & 0xFF) as bv8, ((w >> 24) & 0xFF) as bv8]
  }

  function GetUint32(b: Bytes): bv32
    requires |b| >= 4
  {
    (b[0] as bv32) | ((b[1] as bv32) << 8) | ((b[2] as bv32) << 16) | ((b[3] as bv32) << 24)
  }

  lemma Uint32RoundTrip(w: bv32)
    ensures GetUint32(PutUint32(w)) == w
  {
  }

  function Header(packetType: bv8): (h: Bytes)
    ensures |h| == 4
  {
    [1, 1, packetType, 0]
  }

  function IdentityBody(ds: seq<bv32>): (b: Bytes)
    ensures |b| == 12
  {
    PutUint32(Word(ds, 16, 8)) + PutUint32(Word(ds, 8, 8)) + PutUint32(Word(ds, 0, 8))
  }

  function Cmd01(phone: seq<byte>, mac4: Bytes): (p: Bytes)
    requires |mac4| == 4
    ensures |p| == 16 && p[..4] == [1, 1, 1, 0]
  {
    Header(1) + Xor(IdentityBody(Digits(WithoutPlus(phone))), Key(mac4))
  }

  /** The word of the clear body that holds the digits numbered 8 * word to 8 * word + 7. */
  function WordInBody(body: Bytes, word: nat): bv32
    requires |body| == 12 && word < 3
  {
    GetUint32(if word == 0 then body[8..] else if word == 1 then body[4..8] else body[..4])
  }

  /** The digit numbered 8 * word + j from the right, as a reader of the packet finds it. */
  function DigitInPacket(packet: Bytes, mac4: Bytes, word: nat, j: nat): bv32
    requires |mac4| == 4 && |packet| == 16 && word < 3 && j < 8
  {
    Nibble(WordInBody(Xor(packet[4..], Key(mac4)), word), 7 - j)
  }

  lemma WordFound(ds: seq<bv32>, word: nat)
    requires word < 3
    ensures WordInBody(IdentityBody(ds), word) == Word(ds, 8 * word, 8)
  {
    IdentityFields(Word(ds, 16, 8), Word(ds, 8, 8), Word(ds, 0, 8));
  }

  lemma DigitFound(ds: seq<bv32>, word: nat, j: nat)
    requires word < 3 && j < 8 && forall k: nat :: DigitAt(ds, k) <= 9
    ensures Nibble(WordInBody(IdentityBody(ds), word), 7 - j) == DigitAt(ds, 8 * word + j)
  {
    WordFound(ds, word);
    WordNibbles(ds, 8 * word, j);
  }

  lemma IdentityFields(lower: bv32, mid: bv32, upper: bv32)
    ensures var body := PutUint32(lower) + PutUint32(mid) + PutUint32(upper);
            GetUint32(body[..4]) == lower && GetUint32(body[4..8]) == mid && GetUint32(body[8..]) == upper
  {
    ThreeFields(PutUint32(lower), PutUint32(mid), PutUint32(upper));
    Uint32RoundTrip(lower);
    Uint32RoundTrip(mid);
    Uint32RoundTrip(upper);
  }

  lemma ThreeFields(x: Bytes, y: Bytes, z: Bytes)
    requires |x| == |y| == |z| == 4
    ensures (x + y + z)[..4] == x && (x + y + z)[4..8] == y && (x + y + z)[8..] == z
  {
  }

  lemma BodyOpened(header: Bytes, body: Bytes, mac4: Bytes)
    requires |mac4| == 4 && |header| == 4
    ensures Xor((header + Xor(body, Key(mac4)))[4..], Key(mac4)) == body
  {
    assert (header + Xor(body, Key(mac4)))[4..] == Xor(body, Key(mac4));
    XorInvolution(body, Key(mac4));
  }

  /** Every digit of a phone number of at most 24 digits comes back out of the identity packet. */
  lemma PhoneRecovered(phone: seq<byte>, mac4: Bytes, word: nat, j: nat)
    requires |mac4| == 4 && word < 3 && j < 8
    requires AllDigitBytes(WithoutPlus(phone)) && |WithoutPlus(phone)| <= 24
    ensures DigitInPacket(Cmd01(phone, mac4), mac4, word, j) == DigitAt(Digits(WithoutPlus(phone)), 8 * word + j)
  {
    var s := WithoutPlus(phone);
    var ds := Digits(s);
    BodyOpened(Header(1), IdentityBody(ds), mac4);
    forall k: nat
      ensures DigitAt(ds, k) <= 9
    {
      DigitsAreSmall(s, k);
    }
    DigitFound(ds, word, j);
  }

  lemma {:induction false} NoPlus(s: seq<byte>)
    requires AllDigitBytes(s)
    ensures WithoutPlus(s) == s
  {
    if s != [] { NoPlus(s[1..]); }
  }

  /** The number a digit stands for. */
  lemma DigitIs(c: byte)
    requires IsDigit(c)
    ensures DigitOf(c) as int == c as int - '0' as int
  {
  }

  /** Digits are counted from the right, with zeros in front of the number. */
  lemma DigitFromRight(s: seq<byte>, i: nat)
    requires AllDigitBytes(s)
    ensures DigitAt(Digits(s), i) as int == if i < |s| then s[|s| - 1 - i] as int - '0' as int else 0
  {
    if i < |s| { DigitIs(s[|s| - 1 - i]); }
  }

  /** An account number, written with or without its plus sign, is read from the packet digit by digit. */
  lemma AccountRecovered(s: seq<byte>, plus: bool, mac4: Bytes, word: nat, j: nat)
    requires |mac4| == 4 && word < 3 && j < 8 && AllDigitBytes(s) && |s| <= 24
    ensures DigitInPacket(Cmd01(if plus then "+" + s else s, mac4), mac4, word, j) == DigitAt(Digits(s), 8 * word + j)
  {
    var phone := if plus then "+" + s else s;
    NoPlus(s);
    assert plus ==> phone[1..] == s;
    assert WithoutPlus(phone) == s;
    PhoneRecovered(phone, mac4, word, j);
  }

  // ---- Activation ---------------------------------------------------------------------------------

  const TRG: bv8 := 34
  const ACTIVATION_OK: bv8 := 1
  const CONFIGURATION_MISMATCH: bv8 := 7

  /** The activation packet without its challenge. */
  function Cmd03Prefix(mac4: Bytes, configVersion: bv8): (p: Bytes)
    requires |mac4| == 4
    ensures |p| == 8
  {
    Header(3) + Xor([configVersion, 0, TRG, 0], Key(mac4))
  }

  /** The version a gate reads out of an activation packet. */
  function VersionInPacket(packet: Bytes, mac4: Bytes): bv8
    requires |mac4| == 4 && |packet| > 4
  {
    Xor(packet[4..], Key(mac4))[0]
  }

  lemma VersionSent(mac4: Bytes, configVersion: bv8, challenge: Bytes)
    requires |mac4| == 4
    ensures VersionInPacket(Cmd03Prefix(mac4, configVersion) + challenge, mac4) == configVersion
  {
    var key := Key(mac4);
    var x := Xor([configVersion, 0, TRG, 0], key);
    FirstOfBody(Header(3), x, challenge);
    FirstOfXor([configVersion, 0, TRG, 0], key);
    FirstOfXor((Header(3) + x + challenge)[4..], key);
    XorTwice(configVersion, key[0]);
  }

  /** An activation packet as a gate reads it: type 3, the version, and behind it, least significant byte first,
      the id 34 that opens a gate; the challenge follows in the clear. */
  predicate Activates(packet: Bytes, mac4: Bytes, challenge: Bytes, version: bv8)
    requires |mac4| == 4
  {
    && |packet| == 8 + |challenge|
    && packet[..4] == [1, 1, 3, 0] && packet[8..] == challenge
    && Xor(packet[4..8], Key(mac4)) == [version, 0, 34, 0]
  }

  lemma ActivationSent(mac4: Bytes, version: bv8, challenge: Bytes)
    requires |mac4| == 4
    ensures Activates(Cmd03Prefix(mac4, version) + challenge, mac4, challenge, version)
  {
    var body: Bytes := [version, 0, 34, 0];
    var packet := Header(3) + Xor(body, Key(mac4)) + challenge;
    ThreeParts(Header(3), Xor(body, Key(mac4)), challenge);
    XorInvolution(body, Key(mac4));
  }

  lemma ThreeParts(x: Bytes, y: Bytes, z: Bytes)
    requires |x| == |y| == 4
    ensures (x + y + z)[..4] == x && (x + y + z)[4..8] == y && (x + y + z)[8..] == z
  {
  }

  lemma FirstOfXor(data: Bytes, key: Bytes)
    requires |data| > 0 && |key| > 0
    ensures Xor(data, key)[0] == data[0] ^ key[0]
  {
  }

  lemma FirstOfBody(header: Bytes, x: Bytes, challenge: Bytes)
    requires |header| == 4 && |x| > 0
    ensures (header + x + challenge)[4..][0] == x[0]
  {
  }

  /** Response code and configuration version of a reply. */
  function DecodeCmd04(mac4: Bytes, payload: Bytes): Option<(bv8, bv8)>
    requires |mac4| == 4
  {
    if |payload| < 6 then None
    else var body := Xor(payload[4..], Key(mac4)); Some((body[1], body[0]))
  }

  /** A reply is decoded to the code and version its sender put into it, whatever else it carries. */
  lemma ReplyDecoded(mac4: Bytes, header: Bytes, body: Bytes)
    requires |mac4| == 4 && |header| == 4
    ensures DecodeCmd04(mac4, header + Xor(body, Key(mac4)))
         == if |body| >= 2 then Some((body[1], body[0])) else None
  {
    BodyOpened(header, body, mac4);
  }

  datatype Outcome = Opened | PublishFailed | NoReply | ShortReply | Rejected(code: bv8) | KeptRejecting

  /** One round: the packet sent, and how the exchange ends or the version to retry with. */
  function Round(mac4: Bytes, cv: bv8, published: bool, reply: Option<Bytes>): Result<bv8, Outcome>
    requires |mac4| == 4
  {
    if !published then Err(PublishFailed)
    else if reply == None then Err(NoReply)
    else match DecodeCmd04(mac4, reply.value)
         case None => Err(ShortReply)
         case Some((code, gateCv)) =>
           if code != CONFIGURATION_MISMATCH || gateCv == cv
           then Err(if code == ACTIVATION_OK then Opened else Rejected(code))
           else Ok(gateCv)
  }

  /** What the exchange comes to, and the packets it sends. published(k) and reply(k) say what the k-th
      publish and the k-th wait for a reply come to. */
  function Activation(mac4: Bytes, challenge: Bytes, published: nat -> bool, reply: nat -> Option<Bytes>)
    : (Outcome, seq<Bytes>)
    requires |mac4| == 4
  {
    var first := Cmd03Prefix(mac4, 0) + challenge;
    match Round(mac4, 0, published(0), reply(0))
    case Err(e) => (e, [first])
    case Ok(cv) =>
      (match Round(mac4, cv, published(1), reply(1)) case Err(e) => e case Ok(_) => KeptRejecting,
       [first, Cmd03Prefix(mac4, cv) + challenge])
  }

  /** The activation loop of Open. */
  method Activate(mac4: Bytes, challenge: Bytes, published: nat -> bool, reply: nat -> Option<Bytes>)
    returns (outcome: Outcome, sent: seq<Bytes>)
    requires |mac4| == 4
    ensures (outcome, sent) == Activation(mac4, challenge, published, reply)
  {
    ghost var first := Cmd03Prefix(mac4, 0) + challenge;
    var cv: bv8 := 0;
    sent := [];
    var k := 0;
    while k < 2
      invariant 0 <= k <= 2 && |sent| == k
      invariant k == 0 ==> cv == 0
      invariant k >= 1 ==> Round(mac4, 0, published(0), reply(0)).Ok?
      invariant k == 1 ==> sent == [first] && cv == Round(mac4, 0, published(0), reply(0)).value
      invariant k == 2 ==> (KeptRejecting, sent) == Activation(mac4, challenge, published, reply)
    {
      ghost var packet := Cmd03Prefix(mac4, cv) + challenge;
      sent := sent + [Cmd03Prefix(mac4, cv) + challenge];
      assert sent == if k == 0 then [first] else [first, packet];
      if !published(k) { return PublishFailed, sent; }
      var cmd04 := reply(k);
      if cmd04.None? { return NoReply, sent; }
      var decoded := DecodeCmd04(mac4, cmd04.value);
      if decoded.None? { return ShortReply, sent; }
      var (code, gateCv) := decoded.value;
      if code != CONFIGURATION_MISMATCH || gateCv == cv {
        return if code == ACTIVATION_OK then Opened else Rejected(code), sent;
      }
      cv := gateCv;
      k := k + 1;
    }
    outcome := KeptRejecting;
  }

  /** The reply of a gate that accepts only the activation packets of one configuration version. */
  function GateReply(mac4: Bytes, packet: Bytes, wanted: bv8, header: Bytes): Bytes
    requires |mac4| == 4 && |packet| > 4 && |header| == 4
  {
    var code := if VersionInPacket(packet, mac4) == wanted then ACTIVATION_OK else CONFIGURATION_MISMATCH;
    header + Xor([wanted, code], Key(mac4))
  }

  lemma GateRound(mac4: Bytes, challenge: Bytes, cv: bv8, wanted: bv8, header: Bytes)
    requires |mac4| == 4 && |header| == 4
    ensures Round(mac4, cv, true, Some(GateReply(mac4, Cmd03Prefix(mac4, cv) + challenge, wanted, header)))
         == if cv == wanted then Err(Opened) else Ok(wanted)
  {
    VersionSent(mac4, cv, challenge);
    ReplyDecoded(mac4, header, [wanted, ACTIVATION_OK]);
    ReplyDecoded(mac4, header, [wanted, CONFIGURATION_MISMATCH]);
  }

  /** Against such a gate the exchange always opens: at once when it wants version 0, and otherwise on
      the second activation, which carries exactly the version the gate has reported. */
  lemma GateOpens(mac4: Bytes, challenge: Bytes, wanted: bv8, header: Bytes, published: nat -> bool,
                  reply: nat -> Option<Bytes>)
    requires |mac4| == 4 && |header| == 4 && published(0) && published(1)
    requires reply(0) == Some(GateReply(mac4, Cmd03Prefix(mac4, 0) + challenge, wanted, header))
    requires reply(1) == Some(GateReply(mac4, Cmd03Prefix(mac4, wanted) + challenge, wanted, header))
    ensures var (outcome, sent) := Activation(mac4, challenge, published, reply);
            && outcome == Opened && |sent| == (if wanted == 0 then 1 else 2)
            && VersionInPacket(sent[|sent| - 1], mac4) == wanted
  {
    GateRound(mac4, challenge, 0, wanted, header);
    GateRound(mac4, challenge, wanted, wanted, header);
    VersionSent(mac4, wanted, challenge);
  }

  /** What the k-th reply says, if the k-th packet was published and its reply arrived whole. */
  function Consumed(mac4: Bytes, published: nat -> bool, reply: nat -> Option<Bytes>, k: nat): Option<(bv8, bv8)>
    requires |mac4| == 4
  {
    if published(k) && reply(k).Some? then DecodeCmd04(mac4, reply(k).value) else None
  }

  lemma RoundIff(mac4: Bytes, cv: bv8, published: nat -> bool, reply: nat -> Option<Bytes>, k: nat)
    requires |mac4| == 4
    ensures var said, r := Consumed(mac4, published, reply, k), Round(mac4, cv, published(k), reply(k));
            && (r.Ok? <==> said.Some? && said.value.0 == CONFIGURATION_MISMATCH && said.value.1 != cv)
            && (r.Ok? ==> r.value == said.value.1)
            && (r == Err(Opened) <==> said.Some? && said.value.0 == ACTIVATION_OK)
  {
  }

  /** Whatever the network does: the first activation carries version 0. A second one is sent exactly when
      the reply to the first is a mismatch that reports another version, and carries that version. The
      exchange opens the gate exactly when the reply to the last activation decodes to OK. */
  lemma OpenedMeansOk(mac4: Bytes, challenge: Bytes, published: nat -> bool, reply: nat -> Option<Bytes>)
    requires |mac4| == 4
    ensures var (outcome, sent) := Activation(mac4, challenge, published, reply);
            var said := Consumed(mac4, published, reply, 0);
            && 1 <= |sent| <= 2 && Activates(sent[0], mac4, challenge, 0)
            && (|sent| == 2 <==> said.Some? && said.value.0 == 7 && said.value.1 != 0)
            && (|sent| == 2 ==> Activates(sent[1], mac4, challenge, said.value.1))
            && (outcome == Opened <==> Accepted(mac4, published, reply, |sent| - 1))
  {
    RoundIff(mac4, 0, published, reply, 0);
    ActivationSent(mac4, 0, challenge);
    var first := Round(mac4, 0, published(0), reply(0));
    if first.Ok? {
      RoundIff(mac4, first.value, published, reply, 1);
      ActivationSent(mac4, first.value, challenge);
    }
  }

  predicate Accepted(mac4: Bytes, published: nat -> bool, reply: nat -> Option<Bytes>, k: nat)
    requires |mac4| == 4
  {
    var said := Consumed(mac4, published, reply, k);
    said.Some? && said.value.0 == 1
  }
}
