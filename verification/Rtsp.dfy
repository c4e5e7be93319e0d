/** The inbound half of an RTSP session (rtsp.go): one socket carries RTSP responses and,
    interleaved with them, the binary frames of section 10.12 of RFC 2326. */
module Rtsp {
  import opened Text
  import opened Stream
  import opened Headers

  /** EOF is the end of the stream between two messages, Truncated its end inside one. */
  datatype ReadError = EOF | Truncated | BadStatusLine | BadStatusCode | BadContentLength

  /** Why readPackets returned. */
  datatype Stop = StreamEnded(error: ReadError) | WriteFailed

  /** What readResponse returns. */
  datatype Response = Response(code: int, headers: map<string, string>, body: string)

  /** What readInterleaved returns. */
  datatype Frame = Frame(channel: char, payload: string)

  const BUFFER_SIZE := 64 * 1024
  const VIDEO_RTP := '\U{00}'
  const AUDIO_RTP := '\U{02}'

  // ---- What the two readers compute, as functions of the bytes still unread ----

  /** The status code of a status line: the second of at most three space-separated fields. */
  function StatusCode(line: string): Result<int, ReadError> {
    var (version, rest, found) := Cut(line, ' ');
    if !found || !("RTSP/" <= version) then Err(BadStatusLine)
    else match Atoi(Cut(rest, ' ').0)
         case None => Err(BadStatusCode)
         case Some(code) => Ok(code)
  }

  function AddHeader(headers: map<string, string>, line: string): map<string, string> {
    var (before, after, found) := Cut(line, ':');
    if found then headers[ToLower(Trim(before, SPACE)) := Trim(after, SPACE)] else headers
  }

  function ParseHeaders(s: string, headers: map<string, string>)
    : (r: Result<(map<string, string>, string), ReadError>)
    ensures r.Ok? ==> |r.value.1| < |s|
    decreases |s|
  {
    match TakeLine(s)
    case None => Err(Truncated)
    case Some((line, rest)) =>
      var text := TrimRight(line, CRLF);
      if text == "" then Ok((headers, rest)) else ParseHeaders(rest, AddHeader(headers, text))
  }

  function BodyLength(headers: map<string, string>): Result<nat, ReadError> {
    if "content-length" !in headers || headers["content-length"] == "" then Ok(0)
    else match Atoi(headers["content-length"])
         case None => Err(BadContentLength)
         case Some(n) => Ok(if n > 0 then n else 0)
  }

  function TakeBody(code: int, headers: map<string, string>, s: string)
    : (r: Result<(Response, string), ReadError>)
    ensures r.Ok? ==> |r.value.1| <= |s|
  {
    match BodyLength(headers)
    case Err(e) => Err(e)
    case Ok(n) => if n > |s| then Err(Truncated) else Ok((Response(code, headers, s[..n]), s[n..]))
  }

  function ParseResponse(s: string): (r: Result<(Response, string), ReadError>)
    ensures r.Ok? ==> |r.value.1| < |s|
  {
    match TakeLine(s)
    case None => Err(Truncated)
    case Some((line, afterStatus)) =>
      match StatusCode(TrimRight(line, CRLF))
      case Err(e) => Err(e)
      case Ok(code) =>
        match ParseHeaders(afterStatus, map[])
        case Err(e) => Err(e)
        case Ok((headers, rest)) => TakeBody(code, headers, rest)
  }

  /** The 16-bit length of a frame header, most significant byte first. */
  function FrameLength(hi: char, lo: char): nat {
    hi as int * 256 + lo as int
  }

  function NextFrame(s: string): (r: Result<(Frame, string), ReadError>)
    ensures r.Ok? ==> |r.value.1| < |s|
    decreases |s|
  {
    if s == "" then Err(EOF)
    else if s[0] == '$' then
      if |s| < 4 || |s| < 4 + FrameLength(s[2], s[3]) then Err(Truncated)
      else var end := 4 + FrameLength(s[2], s[3]); Ok((Frame(s[1], s[4..end]), s[end..]))
    else match ParseResponse(s)
         case Err(e) => Err(e)
         case Ok((_, rest)) => NextFrame(rest)
  }

  /** Every frame read until the first error, and that error. */
  function AllFrames(s: string): (seq<Frame>, ReadError)
    decreases |s|
  {
    match NextFrame(s)
    case Err(e) => ([], e)
    case Ok((f, rest)) => var (fs, e) := AllFrames(rest); ([f] + fs, e)
  }

  // ---- The wire, described from the sender's side ----------------------------

  function FoldHeaders(lines: seq<string>, headers: map<string, string>): map<string, string> {
    if lines == [] then headers else FoldHeaders(lines[1..], AddHeader(headers, TrimRight(lines[0], CRLF)))
  }

  /** A response as sent: its lines without their newlines, and a body of any bytes. */
  datatype WireResponse = WireResponse(status: string, lines: seq<string>, blank: string, body: string) {
    /** Everything behind the status line. */
    function Tail(): string {
      Lines(lines) + blank + "\n" + body
    }

    function Print(): string {
      status + "\n" + Tail()
    }

    function Headers(): map<string, string> {
      FoldHeaders(lines, map[])
    }

    predicate WellFormed() {
      && '\n' !in status && StatusCode(TrimRight(status, CRLF)).Ok?
      && AllHeaderLines(lines)
      && AllIn(blank, {'\r'})
      && BodyLength(Headers()) == Ok(|body|)
    }

    function Parsed(): Response
      requires WellFormed()
    {
      Response(StatusCode(TrimRight(status, CRLF)).value, Headers(), body)
    }
  }

  datatype Message = Media(frame: Frame) | Reply(response: WireResponse) {
    predicate WellFormed() {
      match this
      case Media(f) => |f.payload| < 65536
      case Reply(w) => w.WellFormed()
    }

    function Print(): string
      requires WellFormed()
    {
      match this
      case Media(f) => PrintFrame(f)
      case Reply(w) => w.Print()
    }
  }

  function PrintFrame(f: Frame): string
    requires |f.payload| < 65536
  {
    ['$', f.channel, (|f.payload| / 256) as char, (|f.payload| % 256) as char] + f.payload
  }

  ghost predicate AllWellFormed(ms: seq<Message>) {
    forall k :: 0 <= k < |ms| ==> ms[k].WellFormed()
  }

  function PrintAll(ms: seq<Message>): string
    requires AllWellFormed(ms)
  {
    if ms == [] then "" else ms[0].Print() + PrintAll(ms[1..])
  }

  /** The frames of a list of messages, in order. */
  function FramesOf(ms: seq<Message>): seq<Frame> {
    if ms == [] then []
    else (if ms[0].Media? then [ms[0].frame] else []) + FramesOf(ms[1..])
  }

  // ---- A printed response is parsed back, whatever follows it --------------------

  lemma {:induction false} HeadersParse(lines: seq<string>, blank: string, rest: string, headers: map<string, string>)
    requires AllHeaderLines(lines) && AllIn(blank, {'\r'})
    ensures ParseHeaders(Lines(lines) + blank + "\n" + rest, headers) == Ok((FoldHeaders(lines, headers), rest))
    decreases |lines|
  {
    if lines == [] {
      assert Lines(lines) + blank + "\n" + rest == blank + "\n" + rest;
      assert '\n' !in blank;
      TakeLineAt(blank, rest);
      assert "" + (blank + "\n") == blank + "\n";
      TrimRightDrops("", blank + "\n", CRLF);
    } else {
      assert HeaderLine(lines[0]);
      var more := Lines(lines[1..]) + blank + "\n" + rest;
      assert Lines(lines) + blank + "\n" + rest == lines[0] + "\n" + more;
      TakeLineAt(lines[0], more);
      TrimRightNewline(lines[0]);
      HeadersParse(lines[1..], blank, rest, AddHeader(headers, TrimRight(lines[0], CRLF)));
    }
  }

  lemma ResponseParses(w: WireResponse, rest: string)
    requires w.WellFormed()
    ensures ParseResponse(w.Print() + rest) == Ok((w.Parsed(), rest))
  {
    Assoc(w.status + "\n", w.Tail(), rest);
    Assoc(Lines(w.lines) + w.blank + "\n", w.body, rest);
    TakeLineAt(w.status, w.Tail() + rest);
    TrimRightNewline(w.status);
    HeadersParse(w.lines, w.blank, w.body + rest, map[]);
    assert (w.body + rest)[..|w.body|] == w.body && (w.body + rest)[|w.body|..] == rest;
  }

  lemma FrameParses(f: Frame, rest: string)
    requires |f.payload| < 65536
    ensures NextFrame(PrintFrame(f) + rest) == Ok((f, rest))
  {
    var s := PrintFrame(f) + rest;
    assert FrameLength(s[2], s[3]) == |f.payload|;
    assert s[4..4 + |f.payload|] == f.payload && s[4 + |f.payload|..] == rest;
  }

  lemma StatusStartsWithR(status: string)
    requires StatusCode(TrimRight(status, CRLF)).Ok?
    ensures status != "" && status[0] == 'R'
  {
    var t := TrimRight(status, CRLF);
    var tail := TrimRightSpec(status, CRLF);
    assert "RTSP/" <= Cut(t, ' ').0 <= t;
  }

  /** A response never starts like a frame, so the demultiplexer skips it. */
  lemma ReplySkipped(w: WireResponse, rest: string)
    requires w.WellFormed()
    ensures NextFrame(w.Print() + rest) == NextFrame(rest)
  {
    ResponseParses(w, rest);
    StatusStartsWithR(w.status);
    assert (w.Print() + rest)[0] == w.status[0];
  }

  lemma MediaRead(f: Frame, rest: string)
    requires |f.payload| < 65536
    ensures AllFrames(PrintFrame(f) + rest) == ([f] + AllFrames(rest).0, AllFrames(rest).1)
  {
    FrameParses(f, rest);
    AllFramesStep(PrintFrame(f) + rest);
  }

  lemma ReplyRead(w: WireResponse, rest: string)
    requires w.WellFormed()
    ensures AllFrames(w.Print() + rest) == AllFrames(rest)
  {
    ReplySkipped(w, rest);
  }

  /** Reading any printed messages returns exactly their frames in order, then goes on behind them. */
  lemma {:induction false} FramesRecovered(ms: seq<Message>, tail: string)
    requires AllWellFormed(ms)
    ensures AllFrames(PrintAll(ms) + tail) == (FramesOf(ms) + AllFrames(tail).0, AllFrames(tail).1)
    decreases |ms|
  {
    if ms == [] {
      assert "" + tail == tail && [] + AllFrames(tail).0 == AllFrames(tail).0;
    } else {
      var rest := PrintAll(ms[1..]) + tail;
      Assoc(ms[0].Print(), PrintAll(ms[1..]), tail);
      FramesRecovered(ms[1..], tail);
      if ms[0].Media? {
        MediaRead(ms[0].frame, rest);
        Assoc([ms[0].frame], FramesOf(ms[1..]), AllFrames(tail).0);
      } else {
        ReplyRead(ms[0].response, rest);
        assert [] + FramesOf(ms[1..]) == FramesOf(ms[1..]);
      }
    }
  }

  /** The whole stream is consumed: a clean end of input is the only way the reading stops. */
  lemma StreamRoundTrip(ms: seq<Message>)
    requires AllWellFormed(ms)
    ensures AllFrames(PrintAll(ms)) == (FramesOf(ms), EOF)
  {
    FramesRecovered(ms, "");
    assert PrintAll(ms) + "" == PrintAll(ms) && FramesOf(ms) + [] == FramesOf(ms);
  }

  // ---- Conversely, only printed messages are accepted -----------------------------

  lemma LinesCons(line: string, lines: seq<string>)
    requires HeaderLine(line) && AllHeaderLines(lines)
    ensures AllHeaderLines([line] + lines)
    ensures Lines([line] + lines) == line + "\n" + Lines(lines)
    ensures forall h :: FoldHeaders([line] + lines, h) == FoldHeaders(lines, AddHeader(h, TrimRight(line, CRLF)))
  {
    assert ([line] + lines)[1..] == lines;
  }

  lemma {:induction false} HeadersSound(s: string, headers: map<string, string>)
    returns (lines: seq<string>, blank: string)
    requires ParseHeaders(s, headers).Ok?
    ensures AllHeaderLines(lines) && AllIn(blank, {'\r'})
    ensures s == Lines(lines) + (blank + "\n") + ParseHeaders(s, headers).value.1
    ensures ParseHeaders(s, headers).value.0 == FoldHeaders(lines, headers)
    decreases |s|
  {
    var bare, rest := TakeLineSound(s);
    var text := TrimRight(bare, CRLF);
    if text == "" {
      lines, blank := [], bare;
      var cr := CarriageReturns(bare);
      assert "" + cr == cr;
      assert Lines([]) + (blank + "\n") == bare + "\n";
    } else {
      var more, b := HeadersSound(rest, AddHeader(headers, text));
      lines, blank := [bare] + more, b;
      LinesCons(bare, more);
      Glue(bare + "\n", Lines(more), blank + "\n", ParseHeaders(rest, AddHeader(headers, text)).value.1);
    }
  }

  /** The stages of an accepted response: status line, headers, body. */
  lemma ResponseStages(s: string) returns (bare: string, rest: string, headers: map<string, string>, behind: string)
    requires ParseResponse(s).Ok?
    ensures s == bare + "\n" + rest && '\n' !in bare && StatusCode(TrimRight(bare, CRLF)).Ok?
    ensures ParseHeaders(rest, map[]) == Ok((headers, behind))
    ensures var (p, after) := ParseResponse(s).value;
            && p == Response(StatusCode(TrimRight(bare, CRLF)).value, headers, p.body)
            && behind == p.body + after && BodyLength(headers) == Ok(|p.body|)
  {
    bare, rest := TakeLineSound(s);
    headers, behind := ParseHeaders(rest, map[]).value.0, ParseHeaders(rest, map[]).value.1;
    BodySound(StatusCode(TrimRight(bare, CRLF)).value, headers, behind);
  }

  lemma BodySound(code: int, headers: map<string, string>, s: string)
    requires TakeBody(code, headers, s).Ok?
    ensures var (p, after) := TakeBody(code, headers, s).value;
            p == Response(code, headers, p.body) && s == p.body + after && BodyLength(headers) == Ok(|p.body|)
  {
  }

  lemma ResponseSound(s: string) returns (w: WireResponse)
    requires ParseResponse(s).Ok?
    ensures w.WellFormed() && w.Parsed() == ParseResponse(s).value.0
    ensures s == w.Print() + ParseResponse(s).value.1
  {
    var bare, rest, headers, behind := ResponseStages(s);
    var lines, blank := HeadersSound(rest, map[]);
    var (p, after) := ParseResponse(s).value;
    w := WireResponse(bare, lines, blank, p.body);
    Resplit(bare, Lines(lines), blank, behind, p.body, after);
  }

  lemma Resplit(bare: string, lines: string, blank: string, behind: string, body: string, after: string)
    requires behind == body + after
    ensures bare + "\n" + (lines + (blank + "\n") + behind) == bare + "\n" + (lines + blank + "\n" + body) + after
  {
    assert lines + (blank + "\n") == lines + blank + "\n";
    Assoc(lines + blank + "\n", body, after);
    Assoc(bare + "\n", lines + blank + "\n" + body, after);
  }

  predicate AllReplies(ms: seq<Message>) {
    forall k :: 0 <= k < |ms| ==> ms[k].Reply?
  }

  predicate IsBytes(s: string) {
    forall i :: 0 <= i < |s| ==> s[i] as int < 256
  }

  lemma LeadingFrameSound(s: string)
    requires NextFrame(s).Ok? && s[0] == '$' && IsBytes(s)
    ensures var (f, rest) := NextFrame(s).value; |f.payload| < 65536 && s == PrintFrame(f) + rest
  {
    var n := FrameLength(s[2], s[3]);
    assert s[2] as int < 256 && s[3] as int < 256;
    assert n / 256 == s[2] as int && n % 256 == s[3] as int;
    assert PrintFrame(NextFrame(s).value.0) == s[..4 + n];
  }

  /** Whatever the peer sends, an accepted frame stands on the wire as a printed frame that only
      well-formed responses precede. */
  lemma {:induction false} FrameSound(s: string) returns (skipped: seq<Message>)
    requires NextFrame(s).Ok? && IsBytes(s)
    ensures AllWellFormed(skipped) && AllReplies(skipped)
    ensures var (f, rest) := NextFrame(s).value;
            |f.payload| < 65536 && s == PrintAll(skipped) + PrintFrame(f) + rest
    decreases |s|
  {
    if s[0] == '$' {
      skipped := [];
      LeadingFrameSound(s);
      var f := NextFrame(s).value.0;
      assert "" + PrintFrame(f) == PrintFrame(f);
    } else {
      var w := ResponseSound(s);
      var behind := ParseResponse(s).value.1;
      IsBytesTail(w.Print(), behind);
      var more := FrameSound(behind);
      skipped := [Reply(w)] + more;
      SkipOneMore(s, w, behind, more);
      RepliesCons(w, more);
    }
  }

  lemma RepliesCons(w: WireResponse, ms: seq<Message>)
    requires AllReplies(ms)
    ensures AllReplies([Reply(w)] + ms)
  {
  }

  lemma SkipOneMore(s: string, w: WireResponse, behind: string, more: seq<Message>)
    requires w.WellFormed() && s == w.Print() + behind && AllWellFormed(more) && NextFrame(behind).Ok?
    requires var (f, rest) := NextFrame(behind).value;
             |f.payload| < 65536 && behind == PrintAll(more) + PrintFrame(f) + rest
    ensures AllWellFormed([Reply(w)] + more)
    ensures var (f, rest) := NextFrame(behind).value;
            s == PrintAll([Reply(w)] + more) + PrintFrame(f) + rest
  {
    PrintAllCons(Reply(w), more);
    var (f, rest) := NextFrame(behind).value;
    Glue(w.Print(), PrintAll(more), PrintFrame(f), rest);
  }

  lemma IsBytesTail(a: string, b: string)
    requires IsBytes(a + b)
    ensures IsBytes(b)
  {
    assert forall i :: 0 <= i < |b| ==> b[i] == (a + b)[|a| + i];
  }

  lemma PrintAllCons(m: Message, ms: seq<Message>)
    requires m.WellFormed() && AllWellFormed(ms)
    ensures AllWellFormed([m] + ms) && PrintAll([m] + ms) == m.Print() + PrintAll(ms)
  {
    assert ([m] + ms)[1..] == ms;
  }

  lemma {:induction false} HeadersEndInside(s: string, headers: map<string, string>)
    ensures ParseHeaders(s, headers) != Err(EOF)
    decreases |s|
  {
    if TakeLine(s).Some? {
      var (line, rest) := TakeLine(s).value;
      HeadersEndInside(rest, AddHeader(headers, TrimRight(line, CRLF)));
    }
  }

  lemma ResponseEndsInside(s: string)
    ensures ParseResponse(s) != Err(EOF)
  {
    if TakeLine(s).Some? { HeadersEndInside(TakeLine(s).value.1, map[]); }
  }

  /** Reading ends cleanly exactly behind whole responses: nothing is left of the stream then. */
  lemma {:induction false} CleanEndSound(s: string) returns (skipped: seq<Message>)
    requires NextFrame(s) == Err(EOF)
    ensures AllWellFormed(skipped) && AllReplies(skipped) && s == PrintAll(skipped)
    decreases |s|
  {
    skipped := [];
    if s != "" {
      CleanStep(s);
      var w := ResponseSound(s);
      var more := CleanEndSound(ParseResponse(s).value.1);
      skipped := [Reply(w)] + more;
      PrintAllCons(Reply(w), more);
      RepliesCons(w, more);
    }
  }

  /** And there it does end cleanly. */
  lemma {:induction false} RepliesEndCleanly(ms: seq<Message>)
    requires AllWellFormed(ms) && AllReplies(ms)
    ensures NextFrame(PrintAll(ms)) == Err(EOF)
  {
    if ms != [] {
      assert ms[0].Reply?;
      ReplySkipped(ms[0].response, PrintAll(ms[1..]));
      RepliesEndCleanly(ms[1..]);
    }
  }

  lemma CleanStep(s: string)
    requires s != "" && NextFrame(s) == Err(EOF)
    ensures ParseResponse(s).Ok? && NextFrame(ParseResponse(s).value.1) == Err(EOF)
  {
    ResponseEndsInside(s);
  }

  // ---- Responses written field by field -------------------------------------------------

  /** The status lines that are accepted, and the code they give. */
  lemma StatusLineIff(line: string, code: int)
    ensures StatusCode(line) == Ok(code)
       <==> exists version, number, more | line == version + " " + (number + more) ::
              IsStatusLine(version, number, more, code)
  {
    if StatusCode(line) == Ok(code) {
      var version, number, more := StatusPieces(line);
    }
    forall v, num, more | line == v + " " + (num + more) && IsStatusLine(v, num, more, code)
      ensures StatusCode(line) == Ok(code)
    {
      StatusLineRead(v, num, more, code);
    }
  }

  lemma StatusPieces(line: string) returns (version: string, number: string, more: string)
    requires StatusCode(line).Ok?
    ensures line == version + " " + (number + more) && IsStatusLine(version, number, more, StatusCode(line).value)
  {
    CutSpec(line, ' ');
    version := Cut(line, ' ').0;
    var rest := Cut(line, ' ').1;
    more := AfterNumber(rest);
    number := Cut(rest, ' ').0;
  }

  lemma AfterNumber(rest: string) returns (more: string)
    ensures rest == Cut(rest, ' ').0 + more && ' ' !in Cut(rest, ' ').0 && (more != "" ==> more[0] == ' ')
  {
    CutSpec(rest, ' ');
    more := if Cut(rest, ' ').2 then " " + Cut(rest, ' ').1 else "";
  }

  /** A protocol version, one space, a number, and nothing or a space and anything. */
  ghost predicate IsStatusLine(version: string, number: string, more: string, code: int) {
    && "RTSP/" <= version && ' ' !in version && ' ' !in number && Atoi(number) == Some(code)
    && (more != "" ==> more[0] == ' ')
  }

  lemma StatusLineRead(version: string, number: string, more: string, code: int)
    requires IsStatusLine(version, number, more, code)
    ensures StatusCode(version + " " + (number + more)) == Ok(code)
  {
    CutAt(version, ' ', number + more);
    if more == "" {
      assert number + more == number;
      IndexByteSpec(number, ' ');
    } else {
      assert number + more == number + " " + more[1..];
      CutAt(number, ' ', more[1..]);
    }
  }

  predicate Names(line: string, key: string) {
    Cut(TrimRight(line, CRLF), ':').2 && ToLower(Trim(Cut(TrimRight(line, CRLF), ':').0, SPACE)) == key
  }

  predicate NoneNames(lines: seq<string>, from: nat, key: string) {
    forall j :: from <= j < |lines| ==> !Names(lines[j], key)
  }

  function ValueOn(line: string): string {
    Trim(Cut(TrimRight(line, CRLF), ':').1, SPACE)
  }

  /** Header names are compared without case, and the last line of a name decides; lines without a colon
      count for nothing. */
  lemma {:induction false} LastLineDecides(lines: seq<string>, m: map<string, string>, key: string)
    ensures key in FoldHeaders(lines, m) <==> key in m || exists i :: 0 <= i < |lines| && Names(lines[i], key)
    ensures NoneNames(lines, 0, key) && key in m ==> FoldHeaders(lines, m)[key] == m[key]
    ensures forall i | 0 <= i < |lines| && Names(lines[i], key) && NoneNames(lines, i + 1, key) ::
              FoldHeaders(lines, m)[key] == ValueOn(lines[i])
  {
    if lines != [] {
      LastLineDecides(lines[1..], AddHeader(m, TrimRight(lines[0], CRLF)), key);
      NamesTail(lines, key);
    }
  }

  lemma NamesTail(lines: seq<string>, key: string)
    requires lines != []
    ensures (exists i :: 0 <= i < |lines| && Names(lines[i], key))
       <==> Names(lines[0], key) || exists i :: 0 <= i < |lines[1..]| && Names(lines[1..][i], key)
    ensures forall i | 1 <= i <= |lines| :: NoneNames(lines, i, key) <==> NoneNames(lines[1..], i - 1, key)
    ensures NoneNames(lines, 0, key) <==> !Names(lines[0], key) && NoneNames(lines[1..], 0, key)
    ensures forall i | 1 <= i < |lines| :: lines[i] == lines[1..][i - 1]
  {
    var rest := lines[1..];
    forall i | 1 <= i <= |lines|
      ensures NoneNames(lines, i, key) <==> NoneNames(rest, i - 1, key)
    {
      assert forall j :: i <= j < |lines| ==> lines[j] == rest[j - 1];
      assert forall j :: i - 1 <= j < |rest| ==> rest[j] == lines[j + 1];
    }
    if i :| 0 <= i < |rest| && Names(rest[i], key) {
      assert Names(lines[i + 1], key);
    }
    if i :| 0 < i < |lines| && Names(lines[i], key) {
      assert Names(rest[i - 1], key);
    }
  }

  /** The response a server writes from a code, a reason, header fields and a body. */
  function Sent(code: int, reason: string, hs: seq<Header>, body: string): WireResponse {
    WireResponse("RTSP/1.0" + " " + (Itoa(code) + (" " + reason + "\r")), LinesOf(hs), "\r", body)
  }

  /** One with the length of the body among its headers, whatever bytes the body holds. */
  function Written(code: int, reason: string, before: seq<Header>, after: seq<Header>, body: string): WireResponse {
    Sent(code, reason, before + [LengthOf(body)] + after, body)
  }

  lemma NoSpaceInNumber(n: int)
    ensures ' ' !in Itoa(n)
  {
  }

  lemma NoNewlineInNumber(n: int)
    ensures '\n' !in Itoa(n)
  {
  }

  lemma Reassemble(version: string, number: string, core: string, tail: string)
    ensures version + " " + (number + (" " + (core + tail) + "\r"))
         == version + " " + (number + (" " + core)) + (tail + "\r")
  {
  }

  lemma StatusTrims(version: string, number: string, reason: string) returns (core: string)
    ensures TrimRight(version + " " + (number + (" " + reason + "\r")), CRLF) == version + " " + (number + (" " + core))
  {
    var tail := TrimRightSpec(reason, CRLF);
    core := TrimRight(reason, CRLF);
    Reassemble(version, number, core, tail);
    var kept := version + " " + (number + (" " + core));
    assert kept[|kept| - 1] == if core == "" then ' ' else core[|core| - 1];
    TrimRightDrops(kept, tail + "\r", CRLF);
  }

  lemma VersionRead()
    ensures "RTSP/" <= "RTSP/1.0" && ' ' !in "RTSP/1.0" && '\n' !in "RTSP/1.0"
  {
  }

  lemma WrittenStatus(code: int, reason: string)
    requires MIN_INT64 <= code <= MAX_INT64 && '\n' !in reason
    ensures var status := "RTSP/1.0" + " " + (Itoa(code) + (" " + reason + "\r"));
            '\n' !in status && StatusCode(TrimRight(status, CRLF)) == Ok(code)
  {
    var core := StatusTrims("RTSP/1.0", Itoa(code), reason);
    VersionRead();
    NoSpaceInNumber(code);
    NoNewlineInNumber(code);
    AtoiItoa(code);
    StatusLineRead("RTSP/1.0", Itoa(code), " " + core, code);
  }

  lemma {:induction false} WrittenFields(hs: seq<Header>, m: map<string, string>)
    requires AllClean(hs)
    ensures FoldHeaders(LinesOf(hs), m) == Fields(hs, m)
  {
    if hs != [] {
      assert LinesOf(hs)[1..] == LinesOf(hs[1..]);
      LineTrims(hs[0]);
      HeaderRead(hs[0]);
      WrittenFields(hs[1..], m[ToLower(hs[0].name) := hs[0].value]);
    }
  }

  /** Such a response is well formed, and means exactly its fields: the code, the headers under their
      lower-cased names, and the body. */
  lemma WrittenMeans(code: int, reason: string, before: seq<Header>, after: seq<Header>, body: string)
    requires MIN_INT64 <= code <= MAX_INT64 && '\n' !in reason && |body| <= MAX_INT64
    requires AllClean(before) && AllClean(after) && NoneNamed(after, "content-length")
    ensures var w := Written(code, reason, before, after, body);
            w.WellFormed() && w.Parsed() == Response(code, Fields(before + [LengthOf(body)] + after, map[]), body)
  {
    var hs := before + [LengthOf(body)] + after;
    LengthClean(body);
    AllCleanAround(before, LengthOf(body), after);
    BlockLines(hs);
    WrittenFields(hs, map[]);
    WrittenStatus(code, reason);
    WrittenLength(before, body, after);
  }

  lemma WrittenLength(before: seq<Header>, body: string, after: seq<Header>)
    requires |body| <= MAX_INT64 && NoneNamed(after, "content-length")
    ensures BodyLength(Fields(before + [LengthOf(body)] + after, map[])) == Ok(|body|)
  {
    LengthStands(before, body, after, map[]);
    DigitsClean(|body|);
    AtoiItoa(|body|);
  }

  /** So the reader gets back the code, the headers and the body that were written, whatever follows. */
  lemma WrittenRead(code: int, reason: string, before: seq<Header>, after: seq<Header>, body: string, rest: string)
    requires MIN_INT64 <= code <= MAX_INT64 && '\n' !in reason && |body| <= MAX_INT64
    requires AllClean(before) && AllClean(after) && NoneNamed(after, "content-length")
    ensures ParseResponse(Written(code, reason, before, after, body).Print() + rest)
         == Ok((Response(code, Fields(before + [LengthOf(body)] + after, map[]), body), rest))
  {
    WrittenMeans(code, reason, before, after, body);
    ResponseParses(Written(code, reason, before, after, body), rest);
  }

  /** Up to its blank line a response reads the same whatever its headers announce. */
  lemma HeadParses(status: string, lines: seq<string>, s: string)
    requires '\n' !in status && StatusCode(TrimRight(status, CRLF)).Ok? && AllHeaderLines(lines)
    ensures ParseResponse(WireResponse(status, lines, "\r", "").Print() + s)
         == TakeBody(StatusCode(TrimRight(status, CRLF)).value, FoldHeaders(lines, map[]), s)
  {
    var w := WireResponse(status, lines, "\r", "");
    Assoc(status + "\n", w.Tail(), s);
    assert w.Tail() == Lines(lines) + "\r" + "\n";
    TakeLineAt(status, w.Tail() + s);
    TrimRightNewline(status);
    HeadersParse(lines, "\r", s, map[]);
  }

  lemma HeadRead(code: int, reason: string, hs: seq<Header>, s: string)
    requires MIN_INT64 <= code <= MAX_INT64 && '\n' !in reason && AllClean(hs)
    ensures ParseResponse(Sent(code, reason, hs, "").Print() + s) == TakeBody(code, Fields(hs, map[]), s)
  {
    WrittenStatus(code, reason);
    BlockLines(hs);
    WrittenFields(hs, map[]);
    HeadParses(Sent(code, reason, hs, "").status, LinesOf(hs), s);
  }

  /** A response without Content-Length has no body: the reading goes on right behind its blank line. */
  lemma UnannouncedRead(code: int, reason: string, hs: seq<Header>, s: string)
    requires MIN_INT64 <= code <= MAX_INT64 && '\n' !in reason
    requires AllClean(hs) && NoneNamed(hs, "content-length")
    ensures var text := Sent(code, reason, hs, "").Print();
            && ParseResponse(text + s) == Ok((Response(code, Fields(hs, map[]), ""), s))
            && NextFrame(text + s) == NextFrame(s)
  {
    HeadRead(code, reason, hs, s);
    FieldsLack(hs, map[], "content-length");
  }

  /** The last Content-Length decides on the body: none for an empty value or a number that is not positive,
      an error for anything else that is no number, and else that many bytes, which must all be there. */
  lemma AnnouncedRead(code: int, reason: string, before: seq<Header>, h: Header, after: seq<Header>, s: string)
    requires MIN_INT64 <= code <= MAX_INT64 && '\n' !in reason
    requires AllClean(before) && h.Clean() && AllClean(after)
    requires ToLower(h.name) == "content-length" && NoneNamed(after, "content-length")
    ensures var hs := before + [h] + after;
            ParseResponse(Sent(code, reason, hs, "").Print() + s)
              == if h.value == "" then Ok((Response(code, Fields(hs, map[]), ""), s))
                 else if Atoi(h.value) == None then Err(BadContentLength)
                 else if Atoi(h.value).value <= 0 then Ok((Response(code, Fields(hs, map[]), ""), s))
                 else if Atoi(h.value).value > |s| then Err(Truncated)
                 else var n := Atoi(h.value).value;
                      Ok((Response(code, Fields(hs, map[]), s[..n]), s[n..]))
  {
    AllCleanAround(before, h, after);
    HeadRead(code, reason, before + [h] + after, s);
    LastStands(before, h, after, map[]);
  }

  // ---- Routing frames to the sinks ---------------------------------------------

  datatype Sink = Video | Audio

  /** Where a frame goes: channel 0 to video, channel 2 to audio when there is an audio writer,
      and nowhere when it is neither or does not decode. */
  function Route<P>(f: Frame, hasAudio: bool, decode: string -> Option<P>): Option<(Sink, P)> {
    if f.channel == VIDEO_RTP && decode(f.payload).Some? then Some((Video, decode(f.payload).value))
    else if f.channel == AUDIO_RTP && hasAudio && decode(f.payload).Some? then Some((Audio, decode(f.payload).value))
    else None
  }

  function Routed<P>(fs: seq<Frame>, hasAudio: bool, decode: string -> Option<P>): seq<(Sink, P)> {
    if fs == [] then []
    else match Route(fs[0], hasAudio, decode)
         case None => Routed(fs[1..], hasAudio, decode)
         case Some(d) => [d] + Routed(fs[1..], hasAudio, decode)
  }

  /** The packets one sink received. */
  function Received<P>(log: seq<(Sink, P)>, sink: Sink): seq<P> {
    if log == [] then []
    else (if log[0].0 == sink then [log[0].1] else []) + Received(log[1..], sink)
  }

  /** The decodable payloads of one channel, in order of arrival. */
  function ChannelPackets<P>(fs: seq<Frame>, channel: char, decode: string -> Option<P>): seq<P> {
    if fs == [] then []
    else (if fs[0].channel == channel && decode(fs[0].payload).Some? then [decode(fs[0].payload).value] else [])
         + ChannelPackets(fs[1..], channel, decode)
  }

  lemma {:induction false} SinksGetTheirChannels<P>(fs: seq<Frame>, hasAudio: bool, decode: string -> Option<P>)
    ensures Received(Routed(fs, hasAudio, decode), Video) == ChannelPackets(fs, 0 as char, decode)
    ensures Received(Routed(fs, hasAudio, decode), Audio)
         == if hasAudio then ChannelPackets(fs, 2 as char, decode) else []
  {
    if fs != [] {
      SinksGetTheirChannels(fs[1..], hasAudio, decode);
      var r := Routed(fs, hasAudio, decode);
      if Route(fs[0], hasAudio, decode).Some? {
        assert r[1..] == Routed(fs[1..], hasAudio, decode);
      }
    }
  }

  lemma {:induction false} RoutedAppend<P>(a: seq<Frame>, f: Frame, hasAudio: bool, decode: string -> Option<P>)
    ensures Routed(a + [f], hasAudio, decode)
         == Routed(a, hasAudio, decode) + match Route(f, hasAudio, decode) case None => [] case Some(d) => [d]
  {
    if a == [] {
      assert a + [f] == [f];
    } else {
      assert (a + [f])[1..] == a[1..] + [f];
      RoutedAppend(a[1..], f, hasAudio, decode);
    }
  }

  ghost predicate NoneFails(fails: nat -> bool, n: nat) {
    forall k :: 0 <= k < n ==> !fails(k)
  }

  /** What readPackets has delivered and why it stopped, for a stream whose k-th write fails iff fails(k). */
  ghost predicate Delivered<P>(s: string, hasAudio: bool, decode: string -> Option<P>, fails: nat -> bool,
                               log: seq<(Sink, P)>, stop: Stop)
  {
    var (fs, end) := AllFrames(s);
    var all := Routed(fs, hasAudio, decode);
    && log <= all
    && NoneFails(fails, |log|)
    && (if stop == WriteFailed then |log| < |all| && fails(|log|) else log == all && stop == StreamEnded(end))
  }

  /** End to end: while the writers succeed, the sinks get exactly the decodable payloads of
      their channels, in the order they were sent, and every byte has been read. */
  lemma PacketsDelivered<P>(ms: seq<Message>, hasAudio: bool, decode: string -> Option<P>, fails: nat -> bool,
                            log: seq<(Sink, P)>, stop: Stop)
    requires AllWellFormed(ms) && (forall k: nat :: !fails(k))
    requires Delivered(PrintAll(ms), hasAudio, decode, fails, log, stop)
    ensures stop == StreamEnded(EOF)
    ensures Received(log, Video) == ChannelPackets(FramesOf(ms), 0 as char, decode)
    ensures Received(log, Audio) == if hasAudio then ChannelPackets(FramesOf(ms), 2 as char, decode) else []
  {
    StreamRoundTrip(ms);
    SinksGetTheirChannels(FramesOf(ms), hasAudio, decode);
  }

  lemma BehindHeader(s: string, n: nat)
    requires 4 + n <= |s|
    ensures s[4..][..n] == s[4..4 + n] && s[4..][n..] == s[4 + n..]
  {
  }

  lemma AllFramesStep(s: string)
    requires NextFrame(s).Ok?
    ensures AllFrames(s) == ([NextFrame(s).value.0] + AllFrames(NextFrame(s).value.1).0,
                             AllFrames(NextFrame(s).value.1).1)
  {
  }

  // ---- The readers themselves ------------------------------------------------------

  method ReadResponse(br: ByteReader) returns (r: Result<Response, ReadError>)
    requires br.Valid()
    modifies br
    ensures br.Valid()
    ensures match ParseResponse(old(br.Rest()))
            case Ok((p, rest)) => r == Ok(p) && br.Rest() == rest
            case Err(e) => r == Err(e)
  {
    ghost var s := br.Rest();
    var statusLine := br.ReadLine();
    if statusLine.None? { return Err(Truncated); }
    var code := StatusCode(TrimRight(statusLine.value, CRLF));
    if code.Err? { return Err(code.error); }

    var headers: map<string, string> := map[];
    ghost var afterStatus := br.Rest();
    while true
      invariant br.Valid()
      invariant ParseHeaders(br.Rest(), headers) == ParseHeaders(afterStatus, map[])
      decreases |br.Rest()|
    {
      var line := br.ReadLine();
      if line.None? { return Err(Truncated); }
      var text := TrimRight(line.value, CRLF);
      if text == "" { break; }
      headers := AddHeader(headers, text);
    }
    assert ParseHeaders(afterStatus, map[]) == Ok((headers, br.Rest()));

    var n := BodyLength(headers);
    if n.Err? { return Err(n.error); }
    var body := br.ReadFull(n.value);
    if body.None? { return Err(Truncated); }
    r := Ok(Response(code.value, headers, body.value));
  }

  class RtspConn {
    const br: ByteReader
    const readBuf: array<byte>

    ghost predicate Valid()
      reads this, br
    {
      br.Valid() && readBuf.Length == BUFFER_SIZE
    }

    constructor (br: ByteReader)
      requires br.Valid()
      ensures Valid() && this.br == br && fresh(readBuf)
    {
      this.br := br;
      readBuf := new byte[BUFFER_SIZE](_ => '\0');
    }

    /** Reads the frame whose '$' has just been consumed. Its payload is left in the first `length`
        cells of the connection's buffer, which the 16-bit length can never overrun. */
    method ReadFrame(ghost s: string) returns (r: Result<(byte, nat), ReadError>)
      requires Valid() && s == "$" + br.Rest()
      modifies br, readBuf
      ensures Valid() && FrameResult(NextFrame(s), r)
    {
      var hdr := new byte[3](_ => '\0');
      var got := br.ReadInto(hdr, 3);
      if !got { return Err(Truncated); }
      assert hdr[..] == s[1..4];
      assert hdr[0] == hdr[..][0] && hdr[1] == hdr[..][1] && hdr[2] == hdr[..][2];
      var length := FrameLength(hdr[1], hdr[2]);
      assert br.Rest() == s[4..];
      var full := br.ReadInto(readBuf, length);
      if !full { return Err(Truncated); }
      BehindHeader(s, length);
      r := Ok((hdr[0], length));
    }

    /** The outcome of a read, against the frame it should have returned. */
    ghost predicate FrameResult(expected: Result<(Frame, string), ReadError>, r: Result<(byte, nat), ReadError>)
      requires Valid()
      reads this, br, readBuf
    {
      match expected
      case Ok((f, rest)) =>
        r.Ok? && r.value.1 < 65536 && f == Frame(r.value.0, readBuf[..r.value.1]) && br.Rest() == rest
      case Err(e) => r == Err(e)
    }

    method ReadInterleaved() returns (r: Result<(byte, nat), ReadError>)
      requires Valid()
      modifies br, readBuf
      ensures Valid() && FrameResult(NextFrame(old(br.Rest())), r)
    {
      while true
        invariant Valid()
        invariant NextFrame(br.Rest()) == NextFrame(old(br.Rest()))
        decreases |br.Rest()|
      {
        ghost var s := br.Rest();
        var first := br.ReadByte();
        if first.None? { return Err(EOF); }
        if first.value == '$' {
          r := ReadFrame(s);
          return;
        }
        br.UnreadByte();
        assert br.Rest() == s;
        var skipped := ReadResponse(br);
        if skipped.Err? { return Err(skipped.error); }
      }
      assert false;
    }

    /** The read loop. `log` stands for what the two track writers have accepted. */
    method ReadPackets<P>(hasAudio: bool, decode: string -> Option<P>, fails: nat -> bool)
      returns (log: seq<(Sink, P)>, stop: Stop)
      requires Valid()
      modifies br, readBuf
      ensures Delivered(old(br.Rest()), hasAudio, decode, fails, log, stop)
    {
      log := [];
      ghost var s := br.Rest();
      ghost var seen: seq<Frame> := [];
      assert [] + AllFrames(s).0 == AllFrames(s).0;
      while true
        invariant Valid()
        invariant AllFrames(s) == (seen + AllFrames(br.Rest()).0, AllFrames(br.Rest()).1)
        invariant log == Routed(seen, hasAudio, decode)
        invariant NoneFails(fails, |log|)
        decreases |br.Rest()|
      {
        ghost var before := br.Rest();
        var frame := ReadInterleaved();
        if frame.Err? {
          StreamEnds(s, before, seen, hasAudio, decode, fails);
          return log, StreamEnded(frame.error);
        }
        var (channel, length) := frame.value;
        ghost var f := Frame(channel, readBuf[..length]);
        StepDelivers(s, before, seen, f, hasAudio, decode);
        seen := seen + [f];
        if channel == VIDEO_RTP || (channel == AUDIO_RTP && hasAudio) {
          var pkt := decode(readBuf[..length]);
          if pkt.Some? {
            if fails(|log|) {
              WriteStops(s, log, Route(f, hasAudio, decode).value, hasAudio, decode, fails);
              return log, WriteFailed;
            }
            OneMoreSucceeds(fails, |log|);
            log := log + [(if channel == VIDEO_RTP then Video else Audio, pkt.value)];
          }
        }
      }
      assert false;
    }
  }

  lemma OneMoreSucceeds(fails: nat -> bool, n: nat)
    requires NoneFails(fails, n) && !fails(n)
    ensures NoneFails(fails, n + 1)
  {
  }

  lemma StreamEnds<P>(s: string, before: string, seen: seq<Frame>, hasAudio: bool, decode: string -> Option<P>,
                      fails: nat -> bool)
    requires NextFrame(before).Err? && AllFrames(s) == (seen + AllFrames(before).0, AllFrames(before).1)
    requires NoneFails(fails, |Routed(seen, hasAudio, decode)|)
    ensures Delivered(s, hasAudio, decode, fails, Routed(seen, hasAudio, decode), StreamEnded(NextFrame(before).error))
  {
    assert seen + [] == seen;
  }

  lemma WriteStops<P>(s: string, log: seq<(Sink, P)>, d: (Sink, P), hasAudio: bool, decode: string -> Option<P>,
                      fails: nat -> bool)
    requires log + [d] <= Routed(AllFrames(s).0, hasAudio, decode)
    requires NoneFails(fails, |log|) && fails(|log|)
    ensures Delivered(s, hasAudio, decode, fails, log, WriteFailed)
  {
    assert log <= log + [d];
  }

  /** Reading one more frame moves it from what is still ahead to what has been routed. */
  lemma StepDelivers<P>(s: string, before: string, seen: seq<Frame>, f: Frame, hasAudio: bool,
                        decode: string -> Option<P>)
    requires NextFrame(before).Ok? && NextFrame(before).value.0 == f
    requires AllFrames(s) == (seen + AllFrames(before).0, AllFrames(before).1)
    ensures var rest := NextFrame(before).value.1;
            AllFrames(s) == ((seen + [f]) + AllFrames(rest).0, AllFrames(rest).1)
    ensures Routed(seen + [f], hasAudio, decode)
         == Routed(seen, hasAudio, decode) + match Route(f, hasAudio, decode) case None => [] case Some(d) => [d]
    ensures Routed(seen + [f], hasAudio, decode) <= Routed(AllFrames(s).0, hasAudio, decode)
  {
    AllFramesStep(before);
    var behind := AllFrames(NextFrame(before).value.1).0;
    Assoc(seen, [f], behind);
    RoutedAppend(seen, f, hasAudio, decode);
    RoutedConcat(seen + [f], behind, hasAudio, decode);
  }

  lemma {:induction false} RoutedConcat<P>(a: seq<Frame>, b: seq<Frame>, hasAudio: bool, decode: string -> Option<P>)
    ensures Routed(a + b, hasAudio, decode) == Routed(a, hasAudio, decode) + Routed(b, hasAudio, decode)
  {
    if a == [] {
      assert a + b == b;
    } else {
      assert (a + b)[1..] == a[1..] + b;
      RoutedConcat(a[1..], b, hasAudio, decode);
    }
  }
}
