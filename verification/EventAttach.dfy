/** The Dahua event stream (eventattach.go): a multipart body whose boundary is always
    `--myboundary` and whose parts are delimited by their Content-Length. */
module EventAttach {
  import opened Text
  import opened Stream
  import opened Headers

  datatype PartError = EOF | MissingLength | Cancelled

  const BOUNDARY := "--myboundary"

  // ---- What readNextPart computes from the bytes still unread --------------------

  /** What follows the first boundary line; every other line is skipped. */
  function AfterBoundary(s: string): (r: Option<string>)
    ensures r.Some? ==> |r.value| < |s|
    decreases |s|
  {
    match TakeLine(s)
    case None => None
    case Some((line, rest)) => if TrimRight(line, CRLF) == BOUNDARY then Some(rest) else AfterBoundary(rest)
  }

  /** The Content-Length after one more header line: a malformed value leaves it alone. */
  function HeaderLength(line: string, n: int): int {
    var (before, after, found) := Cut(line, ':');
    if found && ToLower(Trim(before, SPACE)) == "content-length" then
      match Atoi(Trim(after, SPACE))
      case None => n
      case Some(v) => v
    else n
  }

  function ParseHeaders(s: string, n: int): (r: Option<(int, string)>)
    ensures r.Some? ==> |r.value.1| < |s|
    decreases |s|
  {
    match TakeLine(s)
    case None => None
    case Some((line, rest)) =>
      var text := TrimRight(line, CRLF);
      if text == "" then Some((n, rest)) else ParseHeaders(rest, HeaderLength(text, n))
  }

  function TakeBody(n: int, s: string): (r: Result<(string, string), PartError>)
    ensures r.Ok? ==> |r.value.1| <= |s|
  {
    if n < 0 then Err(MissingLength)
    else if n > |s| then Err(EOF)
    else Ok((s[..n], s[n..]))
  }

  function NextPart(s: string): (r: Result<(string, string), PartError>)
    ensures r.Ok? ==> |r.value.1| < |s|
  {
    match AfterBoundary(s)
    case None => Err(EOF)
    case Some(headers) =>
      match ParseHeaders(headers, -1)
      case None => Err(EOF)
      case Some((n, rest)) => TakeBody(n, rest)
  }

  /** Every body read until the first error, and that error. */
  function AllParts(s: string): (seq<string>, PartError)
    decreases |s|
  {
    match NextPart(s)
    case Err(e) => ([], e)
    case Ok((body, rest)) => var (bodies, e) := AllParts(rest); ([body] + bodies, e)
  }

  // ---- The stream, described from the device's side --------------------------------

  predicate FillerLine(line: string) {
    '\n' !in line && TrimRight(line, CRLF) != BOUNDARY
  }

  predicate AllFiller(lines: seq<string>) {
    forall k :: 0 <= k < |lines| ==> FillerLine(lines[k])
  }

  function FoldLength(lines: seq<string>, n: int): int {
    if lines == [] then n else FoldLength(lines[1..], HeaderLength(TrimRight(lines[0], CRLF), n))
  }

  /** A part: lines that are not the boundary, the boundary, header lines, a blank line, and any
      bytes at all as the body. `cr` and `blank` are the carriage returns a line may end with. */
  datatype Part = Part(filler: seq<string>, cr: string, headers: seq<string>, blank: string, body: string) {
    predicate WellFormed() {
      && AllFiller(filler) && AllIn(cr, {'\r'})
      && AllHeaderLines(headers) && AllIn(blank, {'\r'})
      && FoldLength(headers, -1) == |body|
    }

    /** Everything behind the boundary line. */
    function Tail(): string {
      Lines(headers) + (blank + "\n") + body
    }

    function Print(): string {
      Lines(filler) + (BOUNDARY + cr + "\n") + Tail()
    }
  }

  ghost predicate AllWellFormed(ps: seq<Part>) {
    forall k :: 0 <= k < |ps| ==> ps[k].WellFormed()
  }

  function PrintAll(ps: seq<Part>): string {
    if ps == [] then "" else ps[0].Print() + PrintAll(ps[1..])
  }

  function Bodies(ps: seq<Part>): seq<string> {
    if ps == [] then [] else [ps[0].body] + Bodies(ps[1..])
  }

  // ---- Printed parts are read back -----------------------------------------------------

  lemma {:induction false} BoundaryFound(filler: seq<string>, cr: string, rest: string)
    requires AllFiller(filler) && AllIn(cr, {'\r'})
    ensures AfterBoundary(Lines(filler) + (BOUNDARY + cr + "\n" + rest)) == Some(rest)
    decreases |filler|
  {
    if filler == [] {
      assert "" + (BOUNDARY + cr + "\n" + rest) == BOUNDARY + cr + "\n" + rest;
      assert '\n' !in BOUNDARY + cr;
      TakeLineAt(BOUNDARY + cr, rest);
      TrimRightNewline(BOUNDARY + cr);
      TrimRightDrops(BOUNDARY, cr, CRLF);
    } else {
      assert FillerLine(filler[0]);
      var more := Lines(filler[1..]) + (BOUNDARY + cr + "\n" + rest);
      Assoc(filler[0] + "\n", Lines(filler[1..]), BOUNDARY + cr + "\n" + rest);
      TakeLineAt(filler[0], more);
      TrimRightNewline(filler[0]);
      BoundaryFound(filler[1..], cr, rest);
    }
  }

  lemma {:induction false} HeadersParse(lines: seq<string>, blank: string, rest: string, n: int)
    requires AllHeaderLines(lines) && AllIn(blank, {'\r'})
    ensures ParseHeaders(Lines(lines) + (blank + "\n") + rest, n) == Some((FoldLength(lines, n), rest))
    decreases |lines|
  {
    if lines == [] {
      assert Lines(lines) + (blank + "\n") + rest == blank + "\n" + rest;
      assert '\n' !in blank;
      TakeLineAt(blank, rest);
      assert "" + (blank + "\n") == blank + "\n";
      TrimRightDrops("", blank + "\n", CRLF);
    } else {
      assert HeaderLine(lines[0]);
      var more := Lines(lines[1..]) + (blank + "\n") + rest;
      Glue(lines[0] + "\n", Lines(lines[1..]), blank + "\n", rest);
      TakeLineAt(lines[0], more);
      TrimRightNewline(lines[0]);
      HeadersParse(lines[1..], blank, rest, HeaderLength(TrimRight(lines[0], CRLF), n));
    }
  }

  lemma PartRead(p: Part, rest: string)
    requires p.WellFormed()
    ensures NextPart(p.Print() + rest) == Ok((p.body, rest))
  {
    var b := BOUNDARY + p.cr + "\n";
    Assoc(Lines(p.filler) + b, p.Tail(), rest);
    Assoc(Lines(p.filler), b, p.Tail() + rest);
    BoundaryFound(p.filler, p.cr, p.Tail() + rest);
    Assoc(Lines(p.headers) + (p.blank + "\n"), p.body, rest);
    HeadersParse(p.headers, p.blank, p.body + rest, -1);
    assert (p.body + rest)[..|p.body|] == p.body && (p.body + rest)[|p.body|..] == rest;
  }

  lemma PartsStep(s: string)
    requires NextPart(s).Ok?
    ensures AllParts(s) == ([NextPart(s).value.0] + AllParts(NextPart(s).value.1).0,
                            AllParts(NextPart(s).value.1).1)
  {
  }

  lemma PartThenRest(p: Part, rest: string)
    requires p.WellFormed()
    ensures AllParts(p.Print() + rest) == ([p.body] + AllParts(rest).0, AllParts(rest).1)
  {
    PartRead(p, rest);
    PartsStep(p.Print() + rest);
  }

  /** Bodies come back exactly and in order even when they contain boundary lines. */
  lemma {:induction false} PartsRecovered(ps: seq<Part>, tail: string)
    requires AllWellFormed(ps)
    ensures AllParts(PrintAll(ps) + tail) == (Bodies(ps) + AllParts(tail).0, AllParts(tail).1)
    decreases |ps|
  {
    if ps == [] {
      assert "" + tail == tail && [] + AllParts(tail).0 == AllParts(tail).0;
    } else {
      Assoc(ps[0].Print(), PrintAll(ps[1..]), tail);
      PartThenRest(ps[0], PrintAll(ps[1..]) + tail);
      PartsRecovered(ps[1..], tail);
      Assoc([ps[0].body], Bodies(ps[1..]), AllParts(tail).0);
    }
  }

  // ---- What the header lines of a part say -----------------------------------------------

  /** The number a line announces as the length of the body, if it does. */
  function Announced(line: string): Option<int> {
    var (before, after, found) := Cut(TrimRight(line, CRLF), ':');
    if found && ToLower(Trim(before, SPACE)) == "content-length" then Atoi(Trim(after, SPACE)) else None
  }

  predicate NoneAnnounced(lines: seq<string>, from: nat) {
    forall j :: from <= j < |lines| ==> Announced(lines[j]) == None
  }

  lemma OneLine(line: string, n: int)
    ensures HeaderLength(TrimRight(line, CRLF), n) == if Announced(line).Some? then Announced(line).value else n
  {
  }

  /** The last number said, of what each line says. */
  function LastSaid(lines: seq<string>, n: int, says: string -> Option<int>): int {
    if lines == [] then n
    else LastSaid(lines[1..], if says(lines[0]).Some? then says(lines[0]).value else n, says)
  }

  lemma {:induction false} LengthIsLastSaid(lines: seq<string>, n: int)
    ensures FoldLength(lines, n) == LastSaid(lines, n, Announced)
  {
    if lines != [] {
      OneLine(lines[0], n);
      LengthIsLastSaid(lines[1..], HeaderLength(TrimRight(lines[0], CRLF), n));
    }
  }

  lemma {:induction false} LastSaidAt(lines: seq<string>, n: int, says: string -> Option<int>, i: nat)
    requires i < |lines| ==> says(lines[i]).Some?
    requires i <= |lines| && forall j :: i < j < |lines| ==> says(lines[j]) == None
    requires i == |lines| ==> forall j :: 0 <= j < |lines| ==> says(lines[j]) == None
    ensures LastSaid(lines, n, says) == if i < |lines| then says(lines[i]).value else n
    decreases |lines|
  {
    if lines != [] {
      var rest := lines[1..];
      assert forall j :: 0 <= j < |rest| ==> rest[j] == lines[j + 1];
      var m := if says(lines[0]).Some? then says(lines[0]).value else n;
      LastSaidAt(rest, m, says, if i == 0 then |rest| else i - 1);
    }
  }

  /** The last line that announces a length decides, in whatever case its name is written; lines that do
      not, or whose number is malformed, count for nothing. */
  lemma LastLengthDecides(lines: seq<string>, n: int, i: nat)
    requires i < |lines| && Announced(lines[i]).Some? && NoneAnnounced(lines, i + 1)
    ensures FoldLength(lines, n) == Announced(lines[i]).value
  {
    LengthIsLastSaid(lines, n);
    LastSaidAt(lines, n, Announced, i);
  }

  // ---- Parts written field by field ---------------------------------------------------

  /** The part a device writes: filler, the boundary, headers with the length of the body among them, and
      the body, whatever bytes it holds. */
  function Written(filler: seq<string>, before: seq<Header>, after: seq<Header>, body: string): Part {
    Part(filler, "\r", LinesOf(before + [LengthOf(body)] + after), "\r", body)
  }

  lemma {:induction false} LengthsConcat(a: seq<string>, b: seq<string>, n: int)
    ensures FoldLength(a + b, n) == FoldLength(b, FoldLength(a, n))
  {
    if a == [] {
      assert a + b == b;
    } else {
      assert (a + b)[1..] == a[1..] + b;
      LengthsConcat(a[1..], b, HeaderLength(TrimRight(a[0], CRLF), n));
    }
  }

  lemma HeaderMeans(h: Header, n: int)
    requires h.Clean()
    ensures HeaderLength(TrimRight(h.Text() + "\r", CRLF), n)
         == if ToLower(h.name) != "content-length" || Atoi(h.value) == None then n else Atoi(h.value).value
  {
    LineTrims(h);
    HeaderRead(h);
  }

  lemma {:induction false} OthersSayNothing(hs: seq<Header>, n: int)
    requires AllClean(hs) && NoneNamed(hs, "content-length")
    ensures FoldLength(LinesOf(hs), n) == n
  {
    if hs != [] {
      assert LinesOf(hs)[1..] == LinesOf(hs[1..]);
      HeaderMeans(hs[0], n);
      OthersSayNothing(hs[1..], n);
    }
  }

  lemma LengthRead(body: string, n: int)
    requires |body| <= MAX_INT64
    ensures FoldLength(LinesOf([LengthOf(body)]), n) == |body|
  {
    LengthClean(body);
    LengthName();
    AtoiItoa(|body|);
    HeaderMeans(LengthOf(body), n);
    assert LinesOf([LengthOf(body)])[1..] == [];
  }

  lemma WrittenWellFormed(filler: seq<string>, before: seq<Header>, after: seq<Header>, body: string)
    requires AllFiller(filler) && |body| <= MAX_INT64
    requires AllClean(before) && AllClean(after) && NoneNamed(after, "content-length")
    ensures Written(filler, before, after, body).WellFormed()
  {
    var one := [LengthOf(body)];
    LengthClean(body);
    AllCleanAround(before, LengthOf(body), after);
    BlockLines(before + one + after);
    assert LinesOf(before + one + after) == LinesOf(before) + LinesOf(one) + LinesOf(after);
    LengthsConcat(LinesOf(before) + LinesOf(one), LinesOf(after), -1);
    LengthsConcat(LinesOf(before), LinesOf(one), -1);
    LengthRead(body, FoldLength(LinesOf(before), -1));
    OthersSayNothing(after, |body|);
  }

  /** Every part so written is read back, whatever its body and its other headers are. */
  lemma WrittenRead(filler: seq<string>, before: seq<Header>, after: seq<Header>, body: string, rest: string)
    requires AllFiller(filler) && |body| <= MAX_INT64
    requires AllClean(before) && AllClean(after) && NoneNamed(after, "content-length")
    ensures NextPart(Written(filler, before, after, body).Print() + rest) == Ok((body, rest))
  {
    WrittenWellFormed(filler, before, after, body);
    PartRead(Written(filler, before, after, body), rest);
  }

  /** Filler, a boundary line and headers, with anything behind their blank line. */
  function Sent(filler: seq<string>, hs: seq<Header>, behind: string): string {
    Lines(filler) + ("--myboundary" + "\r" + "\n" + (Lines(LinesOf(hs)) + ("\r" + "\n") + behind))
  }

  lemma HeadRead(filler: seq<string>, hs: seq<Header>, behind: string)
    requires AllFiller(filler) && AllClean(hs)
    ensures NextPart(Sent(filler, hs, behind)) == TakeBody(FoldLength(LinesOf(hs), -1), behind)
  {
    BoundaryFound(filler, "\r", Lines(LinesOf(hs)) + ("\r" + "\n") + behind);
    BlockLines(hs);
    HeadersParse(LinesOf(hs), "\r", behind, -1);
  }

  /** A part that does not announce the length of its body is refused. */
  lemma UnannouncedRefused(filler: seq<string>, hs: seq<Header>, behind: string)
    requires AllFiller(filler) && AllClean(hs) && NoneNamed(hs, "content-length")
    ensures NextPart(Sent(filler, hs, behind)) == Err(MissingLength)
  {
    HeadRead(filler, hs, behind);
    OthersSayNothing(hs, -1);
  }

  lemma LengthAnnounced(before: seq<Header>, h: Header, after: seq<Header>, n: int)
    requires AllClean(before) && h.Clean() && AllClean(after)
    requires ToLower(h.name) == "content-length" && Atoi(h.value) == Some(n) && NoneNamed(after, "content-length")
    ensures FoldLength(LinesOf(before + [h] + after), -1) == n
  {
    assert LinesOf(before + [h] + after) == LinesOf(before) + LinesOf([h]) + LinesOf(after);
    LengthsConcat(LinesOf(before) + LinesOf([h]), LinesOf(after), -1);
    LengthsConcat(LinesOf(before), LinesOf([h]), -1);
    HeaderMeans(h, FoldLength(LinesOf(before), -1));
    assert LinesOf([h])[1..] == [];
    OthersSayNothing(after, n);
  }

  /** The last number announced decides: a negative one is refused, and a body is read of exactly that length,
      which may be zero, or not at all when the stream ends before. */
  lemma AnnouncedRead(filler: seq<string>, before: seq<Header>, h: Header, after: seq<Header>, n: int, behind: string)
    requires AllFiller(filler) && AllClean(before) && h.Clean() && AllClean(after)
    requires ToLower(h.name) == "content-length" && Atoi(h.value) == Some(n) && NoneNamed(after, "content-length")
    ensures NextPart(Sent(filler, before + [h] + after, behind))
         == if n < 0 then Err(MissingLength)
            else if n > |behind| then Err(EOF)
            else Ok((behind[..n], behind[n..]))
  {
    var hs := before + [h] + after;
    AllCleanAround(before, h, after);
    LengthAnnounced(before, h, after, n);
    HeadRead(filler, hs, behind);
  }

  // ---- Conversely, every body read was sent as a part ------------------------------------

  lemma FillerCons(line: string, lines: seq<string>)
    requires FillerLine(line) && AllFiller(lines)
    ensures AllFiller([line] + lines) && Lines([line] + lines) == line + "\n" + Lines(lines)
  {
    assert ([line] + lines)[1..] == lines;
  }

  lemma HeadersCons(line: string, lines: seq<string>, n: int)
    requires HeaderLine(line) && AllHeaderLines(lines)
    ensures AllHeaderLines([line] + lines) && Lines([line] + lines) == line + "\n" + Lines(lines)
    ensures FoldLength([line] + lines, n) == FoldLength(lines, HeaderLength(TrimRight(line, CRLF), n))
  {
    assert ([line] + lines)[1..] == lines;
  }

  lemma {:induction false} BoundarySound(s: string) returns (filler: seq<string>, cr: string)
    requires AfterBoundary(s).Some?
    ensures AllFiller(filler) && AllIn(cr, {'\r'})
    ensures s == Lines(filler) + (BOUNDARY + cr + "\n") + AfterBoundary(s).value
    decreases |s|
  {
    var bare, rest := TakeLineSound(s);
    if TrimRight(bare, CRLF) == BOUNDARY {
      filler := [];
      cr := CarriageReturns(bare);
      assert "" + (bare + "\n") == bare + "\n";
    } else {
      var more;
      more, cr := BoundarySound(rest);
      filler := [bare] + more;
      FillerCons(bare, more);
      Glue(bare + "\n", Lines(more), BOUNDARY + cr + "\n", AfterBoundary(rest).value);
    }
  }

  lemma {:induction false} HeadersSound(s: string, n: int) returns (lines: seq<string>, blank: string)
    requires ParseHeaders(s, n).Some?
    ensures AllHeaderLines(lines) && AllIn(blank, {'\r'})
    ensures s == Lines(lines) + (blank + "\n") + ParseHeaders(s, n).value.1
    ensures ParseHeaders(s, n).value.0 == FoldLength(lines, n)
    decreases |s|
  {
    var bare, rest := TakeLineSound(s);
    var text := TrimRight(bare, CRLF);
    if text == "" {
      lines, blank := [], bare;
      var cr := CarriageReturns(bare);
      assert "" + cr == cr;
      assert Lines([]) + (blank + "\n") == bare + "\n";
    } else {
      var more, b := HeadersSound(rest, HeaderLength(text, n));
      lines, blank := [bare] + more, b;
      HeadersCons(bare, more, n);
      Glue(bare + "\n", Lines(more), blank + "\n", ParseHeaders(rest, HeaderLength(text, n)).value.1);
    }
  }

  lemma BodySound(n: int, s: string)
    requires TakeBody(n, s).Ok?
    ensures var (body, rest) := TakeBody(n, s).value; s == body + rest && n == |body|
  {
  }

  lemma PartSound(s: string) returns (p: Part)
    requires NextPart(s).Ok?
    ensures p.WellFormed() && NextPart(s).value.0 == p.body && s == p.Print() + NextPart(s).value.1
  {
    var filler, cr := BoundarySound(s);
    var behind := AfterBoundary(s).value;
    var headers, blank := HeadersSound(behind, -1);
    var (body, rest) := NextPart(s).value;
    p := Part(filler, cr, headers, blank, body);
    BodySound(ParseHeaders(behind, -1).value.0, ParseHeaders(behind, -1).value.1);
    Assoc(Lines(headers) + (blank + "\n"), body, rest);
    Assoc(Lines(filler) + (BOUNDARY + cr + "\n"), p.Tail(), rest);
  }

  // ---- Which bodies ring the bell ---------------------------------------------------------

  predicate IsHeartbeat(body: string) {
    Trim(body, SPACE) == "Heartbeat"
  }

  const CODE := "Code="
  const CODE_ENDS: set<char> := {';', '\r', '\n'}

  /** The text before the first of the cut characters. */
  function Before(s: string, cut: set<char>): (r: string)
    ensures r <= s && (forall k :: 0 <= k < |r| ==> r[k] !in cut)
    ensures r == s || s[|r|] in cut
  {
    if s == "" || s[0] in cut then "" else [s[0]] + Before(s[1..], cut)
  }

  function EventCode(text: string): string {
    if CODE <= text then Before(text[|CODE|..], CODE_ENDS) else ""
  }

  predicate Rings(body: string) {
    !IsHeartbeat(body) && EventCode(Trim(body, SPACE)) in {"Invite", "CallNoAnswered"}
  }

  /** The text starts with the prefix and the code, and the code ends there. */
  predicate Announces(text: string, prefix: string, code: string, ends: set<char>) {
    && prefix + code <= text
    && (|text| > |prefix + code| ==> text[|prefix + code|] in ends)
  }

  lemma PrefixCancels(a: string, b: string, c: string)
    ensures a + b <= a + c <==> b <= c
  {
    if b <= c {
      assert c == b + c[|b|..];
      assert a + c == (a + b) + c[|b|..];
    }
    if a + b <= a + c {
      assert forall k :: 0 <= k < |b| ==> b[k] == (a + b)[|a| + k] == (a + c)[|a| + k] == c[k];
    }
  }

  lemma BeforeIs(s: string, code: string, cut: set<char>)
    requires forall k :: 0 <= k < |code| ==> code[k] !in cut
    ensures Before(s, cut) == code <==> code <= s && (|s| > |code| ==> s[|code|] in cut)
  {
    var b := Before(s, cut);
    if code <= s && (|s| > |code| ==> s[|code|] in cut) {
      assert !(|b| < |code|);
      assert !(|code| < |b|);
    }
  }

  lemma CodeAnnounced(text: string, code: string)
    requires code != "" && forall k :: 0 <= k < |code| ==> code[k] !in CODE_ENDS
    ensures EventCode(text) == code <==> Announces(text, CODE, code, CODE_ENDS)
  {
    if CODE <= text {
      var rest := text[|CODE|..];
      assert text == CODE + rest;
      PrefixCancels(CODE, code, rest);
      BeforeIs(rest, code, CODE_ENDS);
      assert |text| > |CODE + code| ==> text[|CODE + code|] == rest[|code|];
    }
  }

  /** A part rings exactly when its trimmed text starts with one of the two codes, whole. */
  lemma RingsIffAnnounced(body: string)
    ensures Rings(body)
       <==> || Announces(Trim(body, SPACE), "Code=", "Invite", {';', '\r', '\n'})
            || Announces(Trim(body, SPACE), "Code=", "CallNoAnswered", {';', '\r', '\n'})
  {
    CodeAnnounced(Trim(body, SPACE), "Invite");
    CodeAnnounced(Trim(body, SPACE), "CallNoAnswered");
  }

  function Filtered(bodies: seq<string>, keep: string -> bool): seq<string> {
    if bodies == [] then []
    else (if keep(bodies[0]) then [bodies[0]] else []) + Filtered(bodies[1..], keep)
  }

  /** The bodies that ring, in order. */
  function Ringing(bodies: seq<string>): seq<string> {
    Filtered(bodies, Rings)
  }

  lemma {:induction false} FilteredAppend(a: seq<string>, body: string, keep: string -> bool)
    ensures Filtered(a + [body], keep) == Filtered(a, keep) + if keep(body) then [body] else []
  {
    if a == [] {
      assert a + [body] == [body];
    } else {
      assert (a + [body])[1..] == a[1..] + [body] && (a + [body])[0] == a[0];
      FilteredAppend(a[1..], body, keep);
      Assoc(if keep(a[0]) then [a[0]] else [], Filtered(a[1..], keep), if keep(body) then [body] else []);
    }
  }

  lemma RingingAppend(a: seq<string>, body: string)
    ensures Ringing(a + [body]) == Ringing(a) + if Rings(body) then [body] else []
  {
    FilteredAppend(a, body, Rings);
  }

  ghost predicate LiveFor(cancelled: nat -> bool, n: nat) {
    forall k :: 0 <= k < n ==> !cancelled(k)
  }

  /** Reading one more part moves its body from what is still ahead to what has been seen. */
  lemma PartsAdvance(s: string, behind: string, seen: seq<string>)
    requires NextPart(behind).Ok? && AllParts(s) == (seen + AllParts(behind).0, AllParts(behind).1)
    ensures var (body, rest) := NextPart(behind).value;
            AllParts(s) == ((seen + [body]) + AllParts(rest).0, AllParts(rest).1)
  {
    PartsStep(behind);
    var (body, rest) := NextPart(behind).value;
    Assoc(seen, [body], AllParts(rest).0);
  }

  lemma StillLive(cancelled: nat -> bool, n: nat)
    requires LiveFor(cancelled, n) && !cancelled(n)
    ensures LiveFor(cancelled, n + 1)
  {
  }

  // ---- The readers themselves -----------------------------------------------------------------

  /** The loop that looks for the boundary line. */
  method SkipToBoundary(r: ByteReader) returns (found: bool)
    requires r.Valid()
    modifies r
    ensures r.Valid() && found == AfterBoundary(old(r.Rest())).Some?
    ensures found ==> r.Rest() == AfterBoundary(old(r.Rest())).value
  {
    while true
      invariant r.Valid()
      invariant AfterBoundary(r.Rest()) == AfterBoundary(old(r.Rest()))
      decreases |r.Rest()|
    {
      var line := r.ReadLine();
      if line.None? { return false; }
      if TrimRight(line.value, CRLF) == BOUNDARY { return true; }
    }
    assert false;
  }

  /** The loop over the header lines; None when the stream ends in them. */
  method ReadLength(r: ByteReader) returns (length: Option<int>)
    requires r.Valid()
    modifies r
    ensures r.Valid()
    ensures match ParseHeaders(old(r.Rest()), -1)
            case Some((n, rest)) => length == Some(n) && r.Rest() == rest
            case None => length == None
  {
    var contentLength: int := -1;
    while true
      invariant r.Valid()
      invariant ParseHeaders(r.Rest(), contentLength) == ParseHeaders(old(r.Rest()), -1)
      decreases |r.Rest()|
    {
      var line := r.ReadLine();
      if line.None? { return None; }
      var text := TrimRight(line.value, CRLF);
      if text == "" { return Some(contentLength); }
      contentLength := HeaderLength(text, contentLength);
    }
    assert false;
  }

  method ReadNextPart(r: ByteReader) returns (part: Result<string, PartError>)
    requires r.Valid()
    modifies r
    ensures r.Valid()
    ensures match NextPart(old(r.Rest()))
            case Ok((body, rest)) => part == Ok(body) && r.Rest() == rest
            case Err(e) => part == Err(e)
  {
    var found := SkipToBoundary(r);
    if !found { return Err(EOF); }
    var length := ReadLength(r);
    if length.None? { return Err(EOF); }
    if length.value < 0 { return Err(MissingLength); }
    var body := r.ReadFull(length.value);
    part := if body.None? then Err(EOF) else Ok(body.value);
  }

  /** The consume loop. `cancelled(k)` says whether the context has ended before the k-th part;
      `fired` lists the bodies for which the bell was fired. */
  method Consume(r: ByteReader, cancelled: nat -> bool) returns (fired: seq<string>, e: PartError, ghost n: nat)
    requires r.Valid()
    modifies r
    ensures n <= |AllParts(old(r.Rest())).0|
    ensures fired == Ringing(AllParts(old(r.Rest())).0[..n])
    ensures LiveFor(cancelled, n)
    ensures cancelled(n) ==> e == Cancelled
    ensures !cancelled(n) ==> n == |AllParts(old(r.Rest())).0| && e == AllParts(old(r.Rest())).1
  {
    ghost var s := r.Rest();
    ghost var seen: seq<string> := [];
    fired, n := [], 0;
    var k := 0;
    assert [] + AllParts(s).0 == AllParts(s).0;
    while true
      invariant r.Valid() && n == k == |seen|
      invariant AllParts(s) == (seen + AllParts(r.Rest()).0, AllParts(r.Rest()).1)
      invariant fired == Ringing(seen)
      invariant LiveFor(cancelled, k)
      decreases |r.Rest()|
    {
      assert AllParts(s).0[..n] == seen;
      if cancelled(k) { return fired, Cancelled, n; }
      StillLive(cancelled, k);
      ghost var behind := r.Rest();
      var part := ReadNextPart(r);
      if part.Err? {
        assert AllParts(behind) == ([], part.error);
        return fired, part.error, n;
      }
      PartsAdvance(s, behind, seen);
      RingingAppend(seen, part.value);
      seen, n, k := seen + [part.value], n + 1, k + 1;
      if !IsHeartbeat(part.value) {
        var code := EventCode(Trim(part.value, SPACE));
        if code == "Invite" || code == "CallNoAnswered" {
          fired := fired + [part.value];
        }
      }
    }
    assert false;
  }
}
