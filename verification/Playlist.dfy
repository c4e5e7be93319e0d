/** Stamping a signature on every URI of an HLS playlist (streamapi.go): URI lines of section 4.1 of
    RFC 8216, and the quoted URI attributes of its tags (section 4.2). */
module Playlist {
  import opened Text

  // ---- One URI -----------------------------------------------------------------------

  /** addQuery, for a signature that is already query-escaped. */
  function AddQuery(uri: string, sig: string): string {
    uri + (if '?' in uri then "&" else "?") + "s=" + sig
  }

  /** Takes off the last |s=sig| + 1 characters. */
  function DropQuery(uri: string, sig: string): string {
    if |uri| < |sig| + 3 then uri else uri[..|uri| - |sig| - 3]
  }

  lemma DropAddQuery(uri: string, sig: string)
    ensures DropQuery(AddQuery(uri, sig), sig) == uri
  {
  }

  /** What a server finds in front of the first question mark, and between ampersands behind it. */
  function PathOf(uri: string): string {
    Cut(uri, '?').0
  }

  function ParamsOf(uri: string): seq<string> {
    if Cut(uri, '?').2 then Split(Cut(uri, '?').1, '&') else []
  }

  lemma {:induction false} SplitAppend(s: string, c: char, t: string)
    requires c !in t
    ensures Split(s + [c] + t, c) == Split(s, c) + [t]
    decreases |s|
  {
    IndexByteSpec(s, c);
    IndexByteSpec(t, c);
    var i := IndexByte(s, c);
    if i == -1 {
      IndexByteAt(s, c, t);
      CutPieces(s, c, t);
    } else {
      var rest := s[i + 1..] + [c] + t;
      assert s + [c] + t == s[..i] + [c] + rest;
      IndexByteAt(s[..i], c, rest);
      CutPieces(s[..i], c, rest);
      SplitAppend(s[i + 1..], c, t);
    }
  }

  /** A signed URI names the same resource, with the signature as one more parameter behind those it had. */
  lemma ParamAdded(uri: string, sig: string)
    requires '&' !in sig
    ensures PathOf(AddQuery(uri, sig)) == PathOf(uri)
    ensures ParamsOf(AddQuery(uri, sig)) == ParamsOf(uri) + ["s=" + sig]
  {
    CutSpec(uri, '?');
    IndexByteSpec("s=" + sig, '&');
    var (path, query, found) := Cut(uri, '?');
    if found {
      assert AddQuery(uri, sig) == path + "?" + (query + "&" + ("s=" + sig));
      CutAt(path, '?', query + "&" + ("s=" + sig));
      SplitAppend(query, '&', "s=" + sig);
    } else {
      assert AddQuery(uri, sig) == uri + "?" + ("s=" + sig);
      CutAt(uri, '?', "s=" + sig);
    }
  }

  // ---- A tag line, token by token --------------------------------------------------------

  const ATTR := "URI=\""

  /** Index of the first ATTR, or -1. */
  function FindAttr(line: string): (i: int)
    ensures -1 <= i && (i != -1 ==> i + |ATTR| <= |line|)
  {
    if |line| < |ATTR| then -1
    else if line[..|ATTR|] == ATTR then 0
    else var j := FindAttr(line[1..]); if j == -1 then -1 else j + 1
  }

  /** The leftmost match of URI="([^"]*)": what precedes it, what it captures, what follows its quote. */
  function NextMatch(line: string): (m: Option<(string, string, string)>)
    ensures m.Some? ==> |m.value.2| < |line|
  {
    var i := FindAttr(line);
    if i == -1 then None
    else
      var rest := line[i + |ATTR|..];
      var q := IndexByte(rest, '\"');
      if q == -1 then None else Some((line[..i], rest[..q], rest[q + 1..]))
  }

  /** A tag line as the text outside its URI attributes and the URIs inside. */
  datatype Tag = Tail(text: string) | Uri(before: string, uri: string, rest: Tag)

  function Parse(line: string): Tag
    decreases |line|
  {
    match NextMatch(line)
    case None => Tail(line)
    case Some((before, uri, after)) => Uri(before, uri, Parse(after))
  }

  function Print(t: Tag): string {
    match t
    case Tail(text) => text
    case Uri(before, uri, rest) => before + ATTR + uri + "\"" + Print(rest)
  }

  function MapUris(t: Tag, f: string -> string): Tag {
    match t
    case Tail(text) => t
    case Uri(before, uri, rest) => Uri(before, f(uri), MapUris(rest, f))
  }

  /** regexp.ReplaceAllStringFunc with a function of the captured URI. */
  function Rewrite(line: string, f: string -> string): string
    decreases |line|
  {
    match NextMatch(line)
    case None => line
    case Some((before, uri, after)) => before + ATTR + f(uri) + "\"" + Rewrite(after, f)
  }

  lemma {:induction false} RewritePrints(line: string, f: string -> string)
    ensures Rewrite(line, f) == Print(MapUris(Parse(line), f))
    decreases |line|
  {
    if NextMatch(line).Some? {
      RewritePrints(NextMatch(line).value.2, f);
    }
  }

  // ---- Parsing what has been printed --------------------------------------------------------

  /** Parsing is the inverse of printing on these tags. */
  predicate Canonical(t: Tag) {
    match t
    case Tail(text) => NextMatch(text) == None
    case Uri(before, uri, rest) => FindAttr(before + ATTR) == |before| && '\"' !in uri && Canonical(rest)
  }

  lemma SliceShift(line: string, i: nat, n: nat)
    requires 0 < i && i + n <= |line|
    ensures line[i..i + n] == line[1..][i - 1..i - 1 + n]
  {
    var a, b := line[i..i + n], line[1..][i - 1..i - 1 + n];
    assert forall k :: 0 <= k < n ==> a[k] == b[k];
  }

  lemma {:induction false} FindAttrCut(line: string)
    requires FindAttr(line) != -1
    ensures var i := FindAttr(line); line[i..i + |ATTR|] == ATTR && FindAttr(line[..i] + ATTR) == i
  {
    if line[..|ATTR|] == ATTR {
      assert line[..0] + ATTR == ATTR && ATTR[..|ATTR|] == ATTR;
    } else {
      var i := FindAttr(line);
      FindAttrCut(line[1..]);
      assert (line[..i] + ATTR)[1..] == line[1..][..i - 1] + ATTR;
      SliceShift(line, i, |ATTR|);
      assert line[..i + |ATTR|] == line[..i] + ATTR;
      assert (line[..i] + ATTR)[..|ATTR|] == line[..|ATTR|];
    }
  }

  lemma {:induction false} FindAttrExtend(before: string, more: string)
    requires FindAttr(before + ATTR) == |before|
    ensures FindAttr(before + ATTR + more) == |before|
  {
    var line := before + ATTR + more;
    assert line[..|ATTR|] == (before + ATTR)[..|ATTR|];
    if before == "" {
      assert line[..|ATTR|] == ATTR;
    } else {
      assert (before + ATTR)[1..] == before[1..] + ATTR;
      assert line[1..] == before[1..] + ATTR + more;
      FindAttrExtend(before[1..], more);
    }
  }

  lemma Surround(s: string, i: nat, j: nat)
    requires i <= j <= |s|
    ensures s == s[..i] + s[i..j] + s[j..]
  {
  }

  lemma MatchPieces(line: string)
    requires NextMatch(line).Some?
    ensures var (before, uri, after) := NextMatch(line).value;
            && line == before + ATTR + uri + "\"" + after
            && FindAttr(before + ATTR) == |before| && '\"' !in uri
  {
    var i := FindAttr(line);
    FindAttrCut(line);
    var rest := line[i + |ATTR|..];
    IndexByteSpec(rest, '\"');
    Surround(line, i, i + |ATTR|);
    var (before, uri, after) := NextMatch(line).value;
    Assoc(before + ATTR, uri + ['\"'], after);
    Assoc(before + ATTR, uri, ['\"']);
  }

  lemma Slices(a: string, b: string, c: string)
    ensures (a + b + c)[..|a|] == a && (a + b + c)[|a| + |b|..] == c
  {
  }

  lemma MatchPrinted(before: string, uri: string, after: string)
    requires FindAttr(before + ATTR) == |before| && '\"' !in uri
    ensures NextMatch(before + ATTR + uri + "\"" + after) == Some((before, uri, after))
  {
    var more := uri + ['\"'] + after;
    Assoc(before + ATTR, uri + ['\"'], after);
    Assoc(before + ATTR, uri, ['\"']);
    FindAttrExtend(before, more);
    Slices(before, ATTR, more);
    IndexByteAt(uri, '\"', after);
    CutPieces(uri, '\"', after);
  }

  /** The attribute starts nowhere in front of its i-th character. */
  predicate NoneBefore(line: string, i: nat)
    requires i <= |line|
  {
    forall k :: 0 <= k < i ==> !("URI=\"" <= line[k..])
  }

  lemma {:induction false} FirstAttr(line: string, i: nat)
    requires i <= |line| && NoneBefore(line, i)
    ensures if "URI=\"" <= line[i..] then FindAttr(line) == i else i == |line| ==> FindAttr(line) == -1
  {
    if i > 0 {
      assert !("URI=\"" <= line[0..]);
      assert line[0..] == line;
      forall k | 0 <= k < i - 1
        ensures !("URI=\"" <= line[1..][k..])
      {
        assert line[1..][k..] == line[k + 1..];
      }
      FirstAttr(line[1..], i - 1);
      assert line[1..][i - 1..] == line[i..];
    }
  }

  /** Without a URI=" that is closed by a quote nothing is captured. */
  lemma NothingCaptured(line: string, i: nat)
    requires i <= |line| && NoneBefore(line, i)
    requires i < |line| ==> "URI=\"" <= line[i..] && '\"' !in line[i + 5..]
    ensures NextMatch(line) == None
  {
    FirstAttr(line, i);
    if i < |line| { IndexByteSpec(line[i + 5..], '\"'); }
  }

  /** Otherwise the URI captured is the text between the first URI=" and the next quote. */
  lemma FirstCaptured(line: string, i: nat, uri: string, after: string)
    requires i <= |line| && NoneBefore(line, i)
    requires line[i..] == "URI=\"" + (uri + "\"" + after) && '\"' !in uri
    ensures NextMatch(line) == Some((line[..i], uri, after))
  {
    FirstAttr(line, i);
    assert line[i + 5..] == line[i..][5..];
    IndexByteAt(uri, '\"', after);
    CutPieces(uri, '\"', after);
  }

  lemma {:induction false} ParseCanonical(line: string)
    ensures Canonical(Parse(line)) && Print(Parse(line)) == line
    decreases |line|
  {
    if NextMatch(line).Some? {
      MatchPieces(line);
      ParseCanonical(NextMatch(line).value.2);
    }
  }

  lemma {:induction false} ParsePrinted(t: Tag)
    requires Canonical(t)
    ensures Parse(Print(t)) == t
  {
    match t
    case Tail(_) =>
    case Uri(before, uri, rest) =>
      ParsePrinted(rest);
      MatchPrinted(before, uri, Print(rest));
  }

  ghost predicate KeepsOutQuotes(f: string -> string) {
    forall u :: '\"' !in u ==> '\"' !in f(u)
  }

  lemma {:induction false} MapCanonical(t: Tag, f: string -> string)
    requires Canonical(t) && KeepsOutQuotes(f)
    ensures Canonical(MapUris(t, f))
  {
    if t.Uri? { MapCanonical(t.rest, f); }
  }

  /** Rewriting changes the captured URIs and nothing else: scanned again, the result has the same
      text outside its URIs. */
  lemma RewriteMaps(line: string, f: string -> string)
    requires KeepsOutQuotes(f)
    ensures Parse(Rewrite(line, f)) == MapUris(Parse(line), f)
  {
    RewritePrints(line, f);
    ParseCanonical(line);
    MapCanonical(Parse(line), f);
    ParsePrinted(MapUris(Parse(line), f));
  }

  lemma {:induction false} MapBack(t: Tag, f: string -> string, g: string -> string)
    requires forall u :: g(f(u)) == u
    ensures MapUris(MapUris(t, f), g) == t
  {
    if t.Uri? { MapBack(t.rest, f, g); }
  }

  lemma RewriteBack(line: string, f: string -> string, g: string -> string)
    requires KeepsOutQuotes(f) && forall u :: g(f(u)) == u
    ensures Rewrite(Rewrite(line, f), g) == line
  {
    RewriteMaps(line, f);
    RewritePrints(Rewrite(line, f), g);
    MapBack(Parse(line), f, g);
    ParseCanonical(line);
  }

  lemma {:induction false} RewriteAvoids(line: string, f: string -> string, c: char)
    requires c !in line && c !in ATTR && forall u :: c !in u ==> c !in f(u)
    ensures c !in Rewrite(line, f)
    decreases |line|
  {
    if NextMatch(line).Some? {
      var (before, uri, after) := NextMatch(line).value;
      MatchPieces(line);
      assert c !in before && c !in uri && c !in after && c != '\"';
      RewriteAvoids(after, f, c);
    }
  }

  lemma RewriteStart(line: string, f: string -> string)
    requires line != "" && line[0] == '#'
    ensures Rewrite(line, f) != "" && Rewrite(line, f)[0] == '#'
  {
    if NextMatch(line).Some? {
      MatchPieces(line);
      var before := NextMatch(line).value.0;
      assert line[0] == (before + ATTR)[0];
    }
  }

  // ---- Lines and playlists -----------------------------------------------------------------

  const CR: set<char> := {'\r'}

  function Signer(sig: string): string -> string {
    (u: string) => AddQuery(u, sig)
  }

  function Eraser(sig: string): string -> string {
    (u: string) => DropQuery(u, sig)
  }

  predicate IsTag(line: string) {
    line != "" && line[0] == '#'
  }

  predicate IsBlank(line: string) {
    Trim(line, SPACE) == ""
  }

  /** Applies f to the URIs of one line, keeping its carriage returns. */
  function MapLine(line: string, f: string -> string): string {
    if IsTag(line) then Rewrite(line, f)
    else if IsBlank(line) then line
    else var bare := TrimRight(line, CR);
         f(bare) + line[Min(|bare|, |line|)..]
  }

  function MapLines(lines: seq<string>, f: string -> string): seq<string> {
    seq(|lines|, k requires 0 <= k < |lines| => MapLine(lines[k], f))
  }

  function SignPlaylist(playlist: string, sig: string): string {
    Join(MapLines(Split(playlist, '\n'), Signer(sig)), "\n")
  }

  /** Scans a signed playlist again and takes the signature out. */
  function ErasePlaylist(playlist: string, sig: string): string {
    Join(MapLines(Split(playlist, '\n'), Eraser(sig)), "\n")
  }

  /** What query-escaping guarantees of a signature. */
  predicate Clean(sig: string) {
    '\"' !in sig && '\r' !in sig && '\n' !in sig
  }

  lemma SignedUriLine(line: string, sig: string)
    requires Clean(sig) && !IsTag(line) && !IsBlank(line)
    ensures !IsTag(MapLine(line, Signer(sig))) && !IsBlank(MapLine(line, Signer(sig)))
    ensures MapLine(MapLine(line, Signer(sig)), Eraser(sig)) == line
    ensures TrimRight(MapLine(line, Signer(sig)), CR) == AddQuery(TrimRight(line, CR), sig)
  {
    var bare := TrimRight(line, CR);
    var cr := TrimRightSpec(line, CR);
    assert line == bare + cr && line[|bare|..] == cr;
    TrimBlank(line, SPACE);
    var i :| 0 <= i < |line| && line[i] !in SPACE;
    assert i < |bare| by { assert forall k :: |bare| <= k < |line| ==> line[k] == cr[k - |bare|]; }
    var signed := AddQuery(bare, sig);
    var out := signed + cr;
    assert out == MapLine(line, Signer(sig));
    assert out[0] == line[0] && out[i] == line[i];
    TrimBlank(out, SPACE);
    assert signed[|signed| - 1] != '\r';
    TrimRightDrops(signed, cr, CR);
    assert out[|signed|..] == cr;
    DropAddQuery(bare, sig);
  }

  lemma SignerKeepsOut(sig: string, c: char)
    requires c !in sig && c != '?' && c != '&' && c != 's' && c != '='
    ensures forall u :: c !in u ==> c !in Signer(sig)(u)
  {
  }

  /** A signed line is of the same kind, holds no new line end, and erases to the original. */
  lemma SignedLine(line: string, sig: string)
    requires Clean(sig) && '\n' !in line
    ensures var out := MapLine(line, Signer(sig));
            && '\n' !in out && (IsTag(out) <==> IsTag(line)) && (IsBlank(out) <==> IsBlank(line))
            && MapLine(out, Eraser(sig)) == line
  {
    SignerKeepsOut(sig, '\"');
    SignerKeepsOut(sig, '\n');
    var f, g := Signer(sig), Eraser(sig);
    assert forall u :: g(f(u)) == u by { forall u { DropAddQuery(u, sig); } }
    if IsTag(line) {
      RewriteBack(line, f, g);
      RewriteStart(line, f);
      RewriteAvoids(line, f, '\n');
      NotBlank(line);
      NotBlank(Rewrite(line, f));
    } else if !IsBlank(line) {
      SignedUriLine(line, sig);
      var cr := TrimRightSpec(line, CR);
    }
  }

  lemma NotBlank(line: string)
    requires IsTag(line)
    ensures !IsBlank(line)
  {
    TrimBlank(line, SPACE);
  }

  /** Signing is exactly invertible, for every playlist text. */
  lemma EraseSigned(playlist: string, sig: string)
    requires Clean(sig)
    ensures ErasePlaylist(SignPlaylist(playlist, sig), sig) == playlist
  {
    var lines := Split(playlist, '\n');
    var signed := MapLines(lines, Signer(sig));
    JoinSplit(playlist, '\n');
    forall k | 0 <= k < |lines|
      ensures '\n' !in signed[k] && MapLine(signed[k], Eraser(sig)) == lines[k]
    {
      SignedLine(lines[k], sig);
    }
    SplitJoin(signed, '\n');
    assert MapLines(signed, Eraser(sig)) == lines;
  }

  /** Signing keeps the number of lines, every blank line, every trailing carriage return, and all
      text outside URIs; every URI gets exactly one more query parameter. */
  lemma SignKeepsStructure(playlist: string, sig: string, k: nat)
    requires Clean(sig) && k < |Split(playlist, '\n')|
    ensures |Split(SignPlaylist(playlist, sig), '\n')| == |Split(playlist, '\n')|
    ensures var line, out := Split(playlist, '\n')[k], Split(SignPlaylist(playlist, sig), '\n')[k];
            if IsTag(line) then Parse(out) == MapUris(Parse(line), Signer(sig))
            else if IsBlank(line) then out == line
            else exists cr :: AllIn(cr, CR) && line == TrimRight(line, CR) + cr
                              && out == AddQuery(TrimRight(line, CR), sig) + cr
  {
    var lines := Split(playlist, '\n');
    var signed := MapLines(lines, Signer(sig));
    JoinSplit(playlist, '\n');
    forall j | 0 <= j < |lines|
      ensures '\n' !in signed[j]
    {
      SignedLine(lines[j], sig);
    }
    SplitJoin(signed, '\n');
    SignerKeepsOut(sig, '\"');
    RewriteMaps(lines[k], Signer(sig));
    var cr := TrimRightSpec(lines[k], CR);
    assert lines[k][|TrimRight(lines[k], CR)|..] == cr;
  }

  // ---- Query escaping ------------------------------------------------------------------------

  predicate Unreserved(c: char) {
    'a' <= c <= 'z' || 'A' <= c <= 'Z' || '0' <= c <= '9' || c in {'-', '_', '.', '~'}
  }

  function HexDigit(d: nat): char
    requires d < 16
  {
    if d < 10 then ('0' as int + d) as char else ('A' as int + d - 10) as char
  }

  /** url.QueryEscape, byte by byte. */
  function QueryEscape(s: string): string {
    if s == "" then ""
    else
      var c := s[0];
      (if Unreserved(c) then [c]
       else if c == ' ' then "+"
       else ['%', HexDigit(c as int / 16 % 16), HexDigit(c as int % 16)]) + QueryEscape(s[1..])
  }

  /** So the signer may be given any signature at all. */
  lemma {:induction false} EscapedIsClean(s: string)
    ensures Clean(QueryEscape(s))
  {
    if s != "" { EscapedIsClean(s[1..]); }
  }

  function HexValue(c: char): nat {
    if '0' <= c <= '9' then c as int - '0' as int
    else if 'A' <= c <= 'F' then c as int - 'A' as int + 10
    else 0
  }

  /** What a server makes of an escaped parameter. */
  function QueryUnescape(s: string): string {
    if s == "" then ""
    else if s[0] == '%' && |s| >= 3 && HexValue(s[1]) * 16 + HexValue(s[2]) < 256
    then [(HexValue(s[1]) * 16 + HexValue(s[2])) as char] + QueryUnescape(s[3..])
    else [if s[0] == '+' then ' ' else s[0]] + QueryUnescape(s[1..])
  }

  /** Escaping loses nothing, and leaves no ampersand that would end the parameter. */
  lemma {:induction false} UnescapeEscaped(s: seq<byte>)
    ensures QueryUnescape(QueryEscape(s)) == s && '&' !in QueryEscape(s)
  {
    if s != "" {
      UnescapeEscaped(s[1..]);
      EscapedByte(s[0], QueryEscape(s[1..]));
      assert s == [s[0]] + s[1..];
    }
  }

  lemma EscapedByte(c: byte, rest: string)
    ensures var e := if Unreserved(c) then [c]
                     else if c == ' ' then "+"
                     else ['%', HexDigit(c as int / 16 % 16), HexDigit(c as int % 16)];
            QueryUnescape(e + rest) == [c] + QueryUnescape(rest) && '&' !in e
  {
    if Unreserved(c) {
      assert ([c] + rest)[1..] == rest;
    } else if c == ' ' {
      assert ("+" + rest)[1..] == rest;
    } else {
      var hi, lo := c as int / 16 % 16, c as int % 16;
      var e := ['%', HexDigit(hi), HexDigit(lo)];
      assert (e + rest)[3..] == rest;
      assert HexValue(HexDigit(hi)) == hi && HexValue(HexDigit(lo)) == lo && hi * 16 + lo == c as int;
    }
  }

  /** End to end: the server that gets a signed URI back finds the very signature as its last parameter. */
  lemma SignatureArrives(uri: string, sig: seq<byte>)
    ensures var out := AddQuery(uri, QueryEscape(sig));
            && PathOf(out) == PathOf(uri)
            && ParamsOf(out) == ParamsOf(uri) + ["s=" + QueryEscape(sig)]
            && QueryUnescape(QueryEscape(sig)) == sig
  {
    UnescapeEscaped(sig);
    ParamAdded(uri, QueryEscape(sig));
  }

  // ---- The function itself ---------------------------------------------------------------------

  /** The switch on one line. */
  method SignLine(line: string, esc: string) returns (out: string)
    ensures out == MapLine(line, Signer(esc))
  {
    if line != "" && line[0] == '#' {
      return Rewrite(line, Signer(esc));
    } else if Trim(line, SPACE) != "" {
      var bare := TrimRight(line, CR);
      return AddQuery(bare, esc) + line[Min(|bare|, |line|)..];
    }
    out := line;
  }

  /** Rewrites the lines in place. */
  method SignLines(lines: array<string>, esc: string)
    modifies lines
    ensures lines[..] == MapLines(old(lines[..]), Signer(esc))
  {
    var i := 0;
    while i < lines.Length
      invariant 0 <= i <= lines.Length
      invariant forall k :: 0 <= k < i ==> lines[k] == MapLine(old(lines[k]), Signer(esc))
      invariant forall k :: i <= k < lines.Length ==> lines[k] == old(lines[k])
    {
      lines[i] := SignLine(lines[i], esc);
      i := i + 1;
    }
  }

  method SignPlaylistUris(playlist: string, sig: string) returns (out: string)
    ensures out == SignPlaylist(playlist, QueryEscape(sig))
    ensures ErasePlaylist(out, QueryEscape(sig)) == playlist
  {
    var split, esc := Split(playlist, '\n'), QueryEscape(sig);
    var lines := new string[|split|](k requires 0 <= k < |split| => split[k]);
    assert lines[..] == split;
    SignLines(lines, esc);
    out := Join(lines[..], "\n");
    EscapedIsClean(sig);
    EraseSigned(playlist, esc);
  }
}
