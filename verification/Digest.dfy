/** HTTP Digest authentication headers (digest.go): the parameter scanner, the challenge parser and
    the Authorization builder of sections 3.2.1 and 3.2.2 of RFC 2617. */
module Digest {
  import opened Text

  // ---- The scanner, as a function ---------------------------------------------------

  /** Puts text in front of the first piece. */
  function Prefix(cur: string, parts: seq<string>): seq<string>
    requires |parts| > 0
  {
    [cur + parts[0]] + parts[1..]
  }

  /** The pieces between commas, except commas inside quotes. */
  function Parts(s: string, inQuotes: bool): (r: seq<string>)
    ensures |r| > 0
  {
    if s == "" then [""]
    else if s[0] == '\"' then Prefix([s[0]], Parts(s[1..], !inQuotes))
    else if s[0] == ',' && !inQuotes then [""] + Parts(s[1..], false)
    else Prefix([s[0]], Parts(s[1..], inQuotes))
  }

  function TrimQuotes(v: string): string {
    var u := if v != "" && v[0] == '\"' then v[1..] else v;
    if u != "" && u[|u| - 1] == '\"' then u[..|u| - 1] else u
  }

  /** What one piece adds: nothing when it is blank or has no equals sign. */
  function AddParam(out: map<string, string>, piece: string): map<string, string> {
    var (before, after, found) := Cut(Trim(piece, SPACE), '=');
    if found then out[ToLower(Trim(before, SPACE)) := TrimQuotes(Trim(after, SPACE))] else out
  }

  function Fold(out: map<string, string>, parts: seq<string>): map<string, string>
    decreases |parts|
  {
    if parts == [] then out else AddParam(Fold(out, parts[..|parts| - 1]), parts[|parts| - 1])
  }

  function SplitDigestParams(s: string): map<string, string> {
    Fold(map[], Parts(s, false))
  }

  // ---- Headers, as their fields --------------------------------------------------------

  datatype Field = Field(key: string, value: string, quoted: bool)

  /** The value as it stands behind the equals sign. */
  function Shown(f: Field): string {
    if f.quoted then "\"" + f.value + "\"" else f.value
  }

  /** White space around the parts of a field: before the key, on either side of the equals sign, and
      behind the value. */
  datatype Gaps = Gaps(left: string, keyEnd: string, valueStart: string, right: string) {
    predicate Blank() {
      AllIn(left, SPACE) && AllIn(keyEnd, SPACE) && AllIn(valueStart, SPACE) && AllIn(right, SPACE)
    }
  }

  const TIGHT := Gaps("", "", "", "")

  datatype Spaced = Spaced(field: Field, gaps: Gaps)

  function Head(x: Spaced): string {
    x.gaps.left + (x.field.key + x.gaps.keyEnd)
  }

  function PrintSpaced(x: Spaced): string {
    Head(x) + "=" + (x.gaps.valueStart + (Shown(x.field) + x.gaps.right))
  }

  function PrintField(f: Field): string {
    f.key + "=" + Shown(f)
  }

  function PiecesOf(xs: seq<Spaced>): (ps: seq<string>)
    ensures |ps| == |xs|
  {
    seq(|xs|, k requires 0 <= k < |xs| => PrintSpaced(xs[k]))
  }

  /** A header as any sender may write it. */
  function PrintSpread(xs: seq<Spaced>): string {
    Join(PiecesOf(xs), ",")
  }

  function Printed(fs: seq<Field>): (ps: seq<string>)
    ensures |ps| == |fs|
  {
    seq(|fs|, k requires 0 <= k < |fs| => PrintField(fs[k]))
  }

  /** A header as buildDigestResponse writes it. */
  function PrintFields(fs: seq<Field>): string {
    Join(Printed(fs), ", ")
  }

  /** Keys are compared without case, and the last field of a key decides. */
  function FieldMap(fs: seq<Field>): map<string, string> {
    if |fs| == 0 then map[] else FieldMap(fs[..|fs| - 1])[ToLower(fs[|fs| - 1].key) := fs[|fs| - 1].value]
  }

  function FieldsOf(xs: seq<Spaced>): (fs: seq<Field>)
    ensures |fs| == |xs|
  {
    seq(|xs|, k requires 0 <= k < |xs| => xs[k].field)
  }

  predicate CleanEnds(s: string) {
    s != "" ==> s[0] !in SPACE && s[|s| - 1] !in SPACE
  }

  predicate CleanKey(key: string) {
    key != "" && CleanEnds(key) && '\"' !in key && ',' !in key && '=' !in key
  }

  /** A name without separators, and a value that is any text without quotes when quoted, and a plain
      token otherwise. */
  predicate WellFormed(f: Field) {
    CleanKey(f.key) && '\"' !in f.value && (!f.quoted ==> ',' !in f.value && CleanEnds(f.value))
  }

  predicate AllWellFormed(fs: seq<Field>) {
    forall k :: 0 <= k < |fs| ==> WellFormed(fs[k])
  }

  predicate AllSpaced(xs: seq<Spaced>) {
    forall k :: 0 <= k < |xs| ==> WellFormed(xs[k].field) && xs[k].gaps.Blank()
  }

  // ---- Scanning a printed field -----------------------------------------------------------

  /** Whether text read in this quoting state contains no separating comma, and the state after it. */
  function Scan(s: string, inQuotes: bool): Option<bool> {
    if s == "" then Some(inQuotes)
    else if s[0] == '\"' then Scan(s[1..], !inQuotes)
    else if s[0] == ',' && !inQuotes then None
    else Scan(s[1..], inQuotes)
  }

  lemma {:induction false} PartsOf(s: string, rest: string, inQuotes: bool)
    requires Scan(s, inQuotes).Some?
    ensures Parts(s + rest, inQuotes) == Prefix(s, Parts(rest, Scan(s, inQuotes).value))
  {
    if s == "" {
      assert s + rest == rest;
      assert s + Parts(rest, inQuotes)[0] == Parts(rest, inQuotes)[0];
    } else {
      assert (s + rest)[1..] == s[1..] + rest;
      var q := if s[0] == '\"' then !inQuotes else inQuotes;
      PartsOf(s[1..], rest, q);
      var first := Parts(rest, Scan(s, inQuotes).value)[0];
      Assoc([s[0]], s[1..], first);
      assert [s[0]] + s[1..] == s;
    }
  }

  lemma {:induction false} ScanPlain(s: string, inQuotes: bool)
    requires '\"' !in s && (',' !in s || inQuotes)
    ensures Scan(s, inQuotes) == Some(inQuotes)
  {
    if s != "" { ScanPlain(s[1..], inQuotes); }
  }

  lemma {:induction false} ScanConcat(a: string, b: string, inQuotes: bool)
    requires Scan(a, inQuotes).Some?
    ensures Scan(a + b, inQuotes) == Scan(b, Scan(a, inQuotes).value)
  {
    if a == "" {
      assert a + b == b;
    } else {
      assert (a + b)[1..] == a[1..] + b;
      ScanConcat(a[1..], b, if a[0] == '\"' then !inQuotes else inQuotes);
    }
  }

  lemma ScanQuoted(v: string)
    requires '\"' !in v
    ensures Scan("\"" + v + "\"", false) == Some(false)
  {
    ScanPlain(v, true);
    assert Scan("\"", true) == Some(false) by { assert "\""[1..] == ""; }
    ScanConcat(v, "\"", true);
    assert ("\"" + v + "\"")[1..] == v + "\"";
  }

  lemma BlankPlain(s: string)
    requires AllIn(s, SPACE)
    ensures '\"' !in s && ',' !in s && '=' !in s
  {
  }

  lemma ScanShown(f: Field)
    requires WellFormed(f)
    ensures Scan(Shown(f), false) == Some(false)
  {
    if f.quoted { ScanQuoted(f.value); } else { ScanPlain(f.value, false); }
  }

  lemma HeadPlain(x: Spaced)
    requires WellFormed(x.field) && x.gaps.Blank()
    ensures '\"' !in Head(x) + "=" && ',' !in Head(x) + "="
  {
    BlankPlain(x.gaps.left);
    BlankPlain(x.gaps.keyEnd);
  }

  lemma ScanSpaced(x: Spaced)
    requires WellFormed(x.field) && x.gaps.Blank()
    ensures Scan(PrintSpaced(x), false) == Some(false)
  {
    HeadPlain(x);
    BlankPlain(x.gaps.valueStart);
    BlankPlain(x.gaps.right);
    ScanPlain(Head(x) + "=", false);
    ScanPlain(x.gaps.valueStart, false);
    ScanShown(x.field);
    ScanPlain(x.gaps.right, false);
    ScanConcat(Shown(x.field), x.gaps.right, false);
    ScanConcat(x.gaps.valueStart, Shown(x.field) + x.gaps.right, false);
    ScanConcat(Head(x) + "=", x.gaps.valueStart + (Shown(x.field) + x.gaps.right), false);
  }

  lemma ShownTrims(f: Field)
    requires WellFormed(f)
    ensures CleanEnds(Shown(f)) && TrimQuotes(Shown(f)) == f.value
  {
    var v := Shown(f);
    if f.quoted {
      assert v[1..] == f.value + "\"";
      assert (f.value + "\"")[..|f.value|] == f.value;
    } else if v != "" {
      assert v[0] in v && v[|v| - 1] in v;
    }
  }

  /** The two halves of a field, each with white space on the inner side only. */
  lemma HalvesTrim(x: Spaced)
    requires WellFormed(x.field) && x.gaps.Blank()
    ensures Trim(x.field.key + x.gaps.keyEnd, SPACE) == x.field.key
    ensures Trim(x.gaps.valueStart + Shown(x.field), SPACE) == Shown(x.field)
  {
    var v := Shown(x.field);
    ShownTrims(x.field);
    assert "" + x.field.key + x.gaps.keyEnd == x.field.key + x.gaps.keyEnd;
    TrimCore("", x.field.key, x.gaps.keyEnd, SPACE);
    if v == "" {
      assert x.gaps.valueStart + v == x.gaps.valueStart;
      TrimBlank(x.gaps.valueStart, SPACE);
    } else {
      assert x.gaps.valueStart + v + "" == x.gaps.valueStart + v;
      TrimCore(x.gaps.valueStart, v, "", SPACE);
    }
  }

  lemma EmptyTrims(x: Spaced)
    requires WellFormed(x.field) && x.gaps.Blank() && Shown(x.field) == ""
    ensures Trim(PrintSpaced(x), SPACE) == (x.field.key + x.gaps.keyEnd) + "="
  {
    var k := x.field.key + x.gaps.keyEnd;
    assert PrintSpaced(x) == x.gaps.left + (k + "=") + (x.gaps.valueStart + x.gaps.right);
    TrimCore(x.gaps.left, k + "=", x.gaps.valueStart + x.gaps.right, SPACE);
  }

  lemma Regroup(left: string, key: string, start: string, value: string, right: string)
    ensures left + key + "=" + (start + (value + right)) == left + (key + "=" + (start + value)) + right
  {
  }

  lemma FullTrims(x: Spaced)
    requires WellFormed(x.field) && x.gaps.Blank() && Shown(x.field) != ""
    ensures Trim(PrintSpaced(x), SPACE)
         == (x.field.key + x.gaps.keyEnd) + "=" + (x.gaps.valueStart + Shown(x.field))
  {
    var k, v := x.field.key + x.gaps.keyEnd, Shown(x.field);
    var core := k + "=" + (x.gaps.valueStart + v);
    ShownTrims(x.field);
    Regroup(x.gaps.left, k, x.gaps.valueStart, v, x.gaps.right);
    assert core == (k + "=" + x.gaps.valueStart) + v;
    assert core[0] == x.field.key[0] && core[|core| - 1] == v[|v| - 1];
    TrimCore(x.gaps.left, core, x.gaps.right, SPACE);
  }

  /** What is left of a printed field after trimming: the key, an equals sign, and the value behind it. */
  lemma SpacedTrims(x: Spaced) returns (behind: string)
    requires WellFormed(x.field) && x.gaps.Blank()
    ensures Trim(PrintSpaced(x), SPACE) == (x.field.key + x.gaps.keyEnd) + "=" + behind
    ensures Trim(behind, SPACE) == Shown(x.field)
  {
    if Shown(x.field) == "" {
      behind := "";
      EmptyTrims(x);
      assert (x.field.key + x.gaps.keyEnd) + "=" + behind == (x.field.key + x.gaps.keyEnd) + "=";
      assert Trim("", SPACE) == "";
    } else {
      behind := x.gaps.valueStart + Shown(x.field);
      FullTrims(x);
      HalvesTrim(x);
    }
  }

  lemma AddSpaced(out: map<string, string>, x: Spaced)
    requires WellFormed(x.field) && x.gaps.Blank()
    ensures AddParam(out, PrintSpaced(x)) == out[ToLower(x.field.key) := x.field.value]
  {
    var behind := SpacedTrims(x);
    BlankPlain(x.gaps.keyEnd);
    CutAt(x.field.key + x.gaps.keyEnd, '=', behind);
    HalvesTrim(x);
    ShownTrims(x.field);
  }

  // ---- Scanning a printed header -------------------------------------------------------------

  /** Every piece leaves the scanner outside quotes, without a separating comma. */
  predicate AllScan(ps: seq<string>) {
    forall k :: 0 <= k < |ps| ==> Scan(ps[k], false) == Some(false)
  }

  lemma {:induction false} PartsOfPieces(ps: seq<string>)
    requires |ps| > 0 && AllScan(ps)
    ensures Parts(Join(ps, ","), false) == ps
    decreases |ps|
  {
    assert ps[0] + "" == ps[0];
    if |ps| == 1 {
      PartsOf(ps[0], "", false);
    } else {
      var rest := Join(ps[1..], ",");
      PartsOf(ps[0], "," + rest, false);
      assert ("," + rest)[1..] == rest;
      Assoc(ps[0], ",", rest);
      PartsOfPieces(ps[1..]);
      assert [ps[0]] + ps[1..] == ps;
    }
  }

  lemma {:induction false} FoldPieces(xs: seq<Spaced>)
    requires AllSpaced(xs)
    ensures Fold(map[], PiecesOf(xs)) == FieldMap(FieldsOf(xs))
    decreases |xs|
  {
    if |xs| > 0 {
      var n := |xs| - 1;
      FoldPieces(xs[..n]);
      AddSpaced(FieldMap(FieldsOf(xs[..n])), xs[n]);
      assert PiecesOf(xs)[..n] == PiecesOf(xs[..n]);
      assert FieldsOf(xs)[..n] == FieldsOf(xs[..n]);
    }
  }

  /** The split cuts a header between its fields and nowhere else. */
  lemma {:induction false} PartsOfFields(xs: seq<Spaced>)
    requires |xs| > 0 && AllSpaced(xs)
    ensures Parts(PrintSpread(xs), false) == PiecesOf(xs)
  {
    forall k | 0 <= k < |xs|
      ensures Scan(PiecesOf(xs)[k], false) == Some(false)
    {
      ScanSpaced(xs[k]);
    }
    PartsOfPieces(PiecesOf(xs));
  }

  /** Scanning a header gives back exactly its fields, in whatever case the keys and however spaced they
      are written; commas, spaces and equals signs inside quoted values do no harm. */
  lemma {:induction false} FieldsRecovered(xs: seq<Spaced>)
    requires |xs| > 0 && AllSpaced(xs)
    ensures SplitDigestParams(PrintSpread(xs)) == FieldMap(FieldsOf(xs))
  {
    PartsOfFields(xs);
    FoldPieces(xs);
  }

  /** The builder's own spacing: one space behind each comma. */
  function OwnSpacing(fs: seq<Field>): (xs: seq<Spaced>)
    ensures |xs| == |fs|
  {
    seq(|fs|, k requires 0 <= k < |fs| => Spaced(fs[k], if k == 0 then TIGHT else Gaps(" ", "", "", "")))
  }

  lemma {:induction false} JoinMoves(ps: seq<string>)
    requires |ps| > 0
    ensures Join(ps, ", ") == Join([ps[0]] + seq(|ps| - 1, k requires 0 <= k < |ps| - 1 => " " + ps[k + 1]), ",")
  {
    var qs := seq(|ps| - 1, k requires 0 <= k < |ps| - 1 => " " + ps[k + 1]);
    if |ps| == 1 {
      assert [ps[0]] + qs == ps;
    } else {
      JoinMoves(ps[1..]);
      var rs := seq(|ps| - 2, k requires 0 <= k < |ps| - 2 => " " + ps[1..][k + 1]);
      assert qs == [" " + ps[1]] + rs;
      JoinLeads(" ", ps[1], rs);
      assert ([ps[0]] + qs)[1..] == qs;
      assert ps[0] + ", " + Join(ps[1..], ", ") == ps[0] + "," + (" " + Join(ps[1..], ", "));
    }
  }

  lemma JoinLeads(lead: string, p: string, rest: seq<string>)
    ensures Join([lead + p] + rest, ",") == lead + Join([p] + rest, ",")
  {
    assert ([lead + p] + rest)[1..] == rest && ([p] + rest)[1..] == rest;
    if rest != [] {
      assert lead + p + "," + Join(rest, ",") == lead + (p + "," + Join(rest, ","));
    }
  }

  lemma {:induction false} OwnSpacingPrints(fs: seq<Field>)
    requires |fs| > 0
    ensures PrintFields(fs) == PrintSpread(OwnSpacing(fs)) && FieldsOf(OwnSpacing(fs)) == fs
  {
    var ps := Printed(fs);
    JoinMoves(ps);
    var moved := [ps[0]] + seq(|ps| - 1, k requires 0 <= k < |ps| - 1 => " " + ps[k + 1]);
    forall k | 0 <= k < |fs|
      ensures moved[k] == PiecesOf(OwnSpacing(fs))[k]
    {
      OwnPiece(fs[k]);
    }
    assert moved == PiecesOf(OwnSpacing(fs));
  }

  lemma OwnPiece(f: Field)
    ensures PrintSpaced(Spaced(f, TIGHT)) == PrintField(f)
    ensures PrintSpaced(Spaced(f, Gaps(" ", "", "", ""))) == " " + PrintField(f)
  {
    assert "" + (f.key + "") == f.key && "" + (Shown(f) + "") == Shown(f);
    assert " " + (f.key + "") + "=" == " " + (f.key + "=");
  }

  lemma {:induction false} OwnFieldsRecovered(fs: seq<Field>)
    requires |fs| > 0 && AllWellFormed(fs)
    ensures SplitDigestParams(PrintFields(fs)) == FieldMap(fs)
  {
    OwnSpacingPrints(fs);
    FieldsRecovered(OwnSpacing(fs));
  }

  // ---- Challenges ---------------------------------------------------------------------------------

  datatype Challenge = Challenge(realm: string, nonce: string, qop: string, opaque_: string)

  datatype DigestError = NotDigest | MissingRealmOrNonce

  function Get(m: map<string, string>, key: string): string {
    if key in m then m[key] else ""
  }

  const SCHEME := "Digest "

  function ChallengeOf(params: map<string, string>): Result<Challenge, DigestError> {
    var c := Challenge(Get(params, "realm"), Get(params, "nonce"), Get(params, "qop"), Get(params, "opaque"));
    if c.realm == "" || c.nonce == "" then Err(MissingRealmOrNonce) else Ok(c)
  }

  function ParseDigestChallenge(header: string): Result<Challenge, DigestError> {
    var h := Trim(header, SPACE);
    if |h| < |SCHEME| || ToLower(h[..|SCHEME|]) != ToLower(SCHEME) then Err(NotDigest)
    else ChallengeOf(SplitDigestParams(h[|SCHEME|..]))
  }

  /** The last field is written up to its last character; white space behind it belongs to the header. */
  predicate EndsFull(xs: seq<Spaced>)
    requires |xs| > 0
  {
    var x := xs[|xs| - 1];
    x.gaps.right == "" && (Shown(x.field) == "" ==> x.gaps.valueStart == "")
  }

  lemma SpacedEnds(x: Spaced)
    requires WellFormed(x.field) && x.gaps.right == "" && (Shown(x.field) == "" ==> x.gaps.valueStart == "")
    ensures PrintSpaced(x) != "" && PrintSpaced(x)[|PrintSpaced(x)| - 1] !in SPACE
  {
    ShownTrims(x.field);
    var v := Shown(x.field);
    assert v != "" ==> PrintSpaced(x)[|PrintSpaced(x)| - 1] == v[|v| - 1];
    assert v == "" ==> PrintSpaced(x)[|PrintSpaced(x)| - 1] == '=';
  }

  lemma {:induction false} JoinEnds(ps: seq<string>)
    requires |ps| > 0 && ps[|ps| - 1] != ""
    ensures Join(ps, ",") != "" && Join(ps, ",")[|Join(ps, ",")| - 1] == ps[|ps| - 1][|ps[|ps| - 1]| - 1]
  {
    if |ps| > 1 { JoinEnds(ps[1..]); }
  }

  lemma {:induction false} PrintEnds(xs: seq<Spaced>)
    requires |xs| > 0 && AllSpaced(xs) && EndsFull(xs)
    ensures PrintSpread(xs) != "" && PrintSpread(xs)[|PrintSpread(xs)| - 1] !in SPACE
  {
    var ps := PiecesOf(xs);
    SpacedEnds(xs[|xs| - 1]);
    assert ps[|ps| - 1] == PrintSpaced(xs[|xs| - 1]);
    JoinEnds(ps);
  }

  /** The scheme in any case. */
  predicate IsScheme(scheme: string) {
    |scheme| == |SCHEME| && ToLower(scheme) == ToLower(SCHEME)
  }

  lemma SchemeStarts(scheme: string)
    requires IsScheme(scheme)
    ensures scheme[0] !in SPACE
  {
    assert ToLower(scheme)[0] == LowerChar(scheme[0]) && ToLower(SCHEME)[0] == 'd';
  }

  lemma HeaderTrims(before: string, scheme: string, params: string, after: string)
    requires AllIn(before, SPACE) && AllIn(after, SPACE) && IsScheme(scheme)
    requires params != "" && params[|params| - 1] !in SPACE
    ensures Trim(before + (scheme + params) + after, SPACE) == scheme + params
  {
    SchemeStarts(scheme);
    var h := scheme + params;
    assert h[0] == scheme[0] && h[|h| - 1] == params[|params| - 1];
    TrimCore(before, h, after, SPACE);
  }

  /** The parser inverts a printed challenge: the scheme and the keys in any case, any white space around
      keys, equals signs, values and the whole header, and whatever other fields it carries. Each of the
      four parts is the field of its name; it fails exactly when realm or nonce is missing or empty. */
  lemma ChallengeRecovered(xs: seq<Spaced>, scheme: string, before: string, after: string)
    requires |xs| > 0 && AllSpaced(xs) && EndsFull(xs)
    requires IsScheme(scheme) && AllIn(before, SPACE) && AllIn(after, SPACE)
    ensures var m, r := FieldMap(FieldsOf(xs)), ParseDigestChallenge(before + (scheme + PrintSpread(xs)) + after);
            if Get(m, "realm") == "" || Get(m, "nonce") == "" then r == Err(MissingRealmOrNonce)
            else
              && r.Ok? && r.value.realm == m["realm"] && r.value.nonce == m["nonce"]
              && r.value.qop == Get(m, "qop") && r.value.opaque_ == Get(m, "opaque")
  {
    var params := PrintSpread(xs);
    PrintEnds(xs);
    HeaderTrims(before, scheme, params, after);
    HeaderParses(before + (scheme + params) + after, scheme, params);
    FieldsRecovered(xs);
  }

  lemma HeaderParses(header: string, scheme: string, params: string)
    requires IsScheme(scheme) && Trim(header, SPACE) == scheme + params
    ensures ParseDigestChallenge(header) == ChallengeOf(SplitDigestParams(params))
  {
    assert (scheme + params)[..|SCHEME|] == scheme && (scheme + params)[|SCHEME|..] == params;
  }

  /** Anything else is refused: the trimmed header must start with the scheme. */
  lemma NotDigestIff(header: string)
    ensures ParseDigestChallenge(header) != Err(NotDigest)
       <==> exists scheme, params | Trim(header, SPACE) == scheme + params :: ToLower(scheme) == "digest "
  {
    var h := Trim(header, SPACE);
    SchemeLower();
    if |h| >= |SCHEME| { assert h == h[..|SCHEME|] + h[|SCHEME|..]; }
    forall scheme, params | h == scheme + params && ToLower(scheme) == "digest "
      ensures |h| >= |SCHEME| && h[..|SCHEME|] == scheme
    {
      assert |scheme| == |SCHEME|;
    }
  }

  lemma SchemeLower()
    ensures ToLower(SCHEME) == "digest "
  {
  }

  // ---- Responses -----------------------------------------------------------------------------------

  const AUTH := "auth"
  const NC := "00000001"

  /** "auth" when the challenge offers it among its comma-separated options, "" otherwise. */
  function PickQop(qopList: string): string {
    if exists p :: p in Split(qopList, ',') && Trim(p, SPACE) == AUTH then AUTH else ""
  }

  /** The request-digest of section 3.2.2.1 of RFC 2617, with and without a quality of protection. */
  function RequestDigest(md5: string -> string, user: string, realm: string, pass: string, method_: string, uri: string,
                         nonce: string, qop: string, nc: string, cnonce: string): string {
    var ha1 := md5(user + ":" + realm + ":" + pass);
    var ha2 := md5(method_ + ":" + uri);
    if qop != "" then md5(ha1 + ":" + nonce + ":" + nc + ":" + cnonce + ":" + qop + ":" + ha2)
    else md5(ha1 + ":" + nonce + ":" + ha2)
  }

  function Identity(user: string, c: Challenge, uri: string): seq<Field> {
    [Field("username", user, true), Field("realm", c.realm, true), Field("nonce", c.nonce, true),
     Field("uri", uri, true)]
  }

  function Protection(qop: string, cnonce: string): seq<Field> {
    if qop != "" then [Field("cnonce", cnonce, true), Field("nc", NC, false), Field("qop", qop, false)] else []
  }

  function Proof(response: string, c: Challenge): seq<Field> {
    [Field("response", response, true)] + if c.opaque_ != "" then [Field("opaque", c.opaque_, true)] else []
  }

  function AuthFields(md5: string -> string, method_: string, uri: string, user: string, pass: string,
                      c: Challenge, cnonce: string): seq<Field> {
    var qop := PickQop(c.qop);
    var response := RequestDigest(md5, user, c.realm, pass, method_, uri, c.nonce, qop, NC, cnonce);
    Identity(user, c, uri) + Protection(qop, cnonce) + Proof(response, c)
  }

  function BuildDigestResponse(md5: string -> string, method_: string, uri: string, user: string, pass: string,
                               c: Challenge, cnonce: string): string {
    SCHEME + PrintFields(AuthFields(md5, method_, uri, user, pass, c, cnonce))
  }

  ghost predicate Quotable(md5: string -> string, uri: string, user: string, c: Challenge, cnonce: string) {
    && '\"' !in uri && '\"' !in user && '\"' !in cnonce
    && '\"' !in c.realm && '\"' !in c.nonce && '\"' !in c.opaque_
    && forall x :: '\"' !in md5(x)
  }

  lemma {:induction false} FieldMapAppend(fs: seq<Field>, f: Field)
    ensures FieldMap(fs + [f]) == FieldMap(fs)[ToLower(f.key) := f.value]
  {
    assert (fs + [f])[..|fs|] == fs;
  }

  lemma {:induction false} FieldMapConcat(a: seq<Field>, b: seq<Field>)
    ensures FieldMap(a + b) == FieldMap(a) + FieldMap(b)
    decreases |b|
  {
    if b == [] {
      assert a + b == a;
    } else {
      assert (a + b)[..|a + b| - 1] == a + b[..|b| - 1];
      FieldMapConcat(a, b[..|b| - 1]);
    }
  }

  lemma FieldMapOne(f: Field)
    ensures FieldMap([f]) == map[ToLower(f.key) := f.value]
  {
    assert [f][..0] == [];
  }

  predicate LowerKey(f: Field) {
    ToLower(f.key) == f.key
  }

  lemma FieldMapThree(f: Field, g: Field, h: Field)
    requires LowerKey(f) && LowerKey(g) && LowerKey(h)
    ensures FieldMap([f, g, h]) == map[f.key := f.value, g.key := g.value, h.key := h.value]
  {
    FieldMapOne(f);
    FieldMapAppend([f], g);
    FieldMapAppend([f, g], h);
    assert [f] + [g] == [f, g] && [f, g] + [h] == [f, g, h];
  }

  lemma FieldMapFour(f: Field, g: Field, h: Field, i: Field)
    requires LowerKey(f) && LowerKey(g) && LowerKey(h) && LowerKey(i)
    ensures FieldMap([f, g, h, i]) == map[f.key := f.value, g.key := g.value, h.key := h.value, i.key := i.value]
  {
    FieldMapThree(f, g, h);
    FieldMapAppend([f, g, h], i);
    assert [f, g, h] + [i] == [f, g, h, i];
  }

  /** The parameters of a response. */
  function IdentityMap(user: string, c: Challenge, uri: string): map<string, string> {
    map["username" := user, "realm" := c.realm, "nonce" := c.nonce, "uri" := uri]
  }

  function ProtectionMap(qop: string, cnonce: string): map<string, string> {
    if qop != "" then map["cnonce" := cnonce, "nc" := NC, "qop" := qop] else map[]
  }

  function ProofMap(response: string, c: Challenge): map<string, string> {
    map["response" := response] + if c.opaque_ != "" then map["opaque" := c.opaque_] else map[]
  }

  /** A parameter name: clean, and its own lower-case form. */
  predicate PlainKey(key: string) {
    CleanKey(key) && ToLower(key) == key
  }

  lemma PlainKeys1()
    ensures PlainKey("username") && PlainKey("realm")
  {
  }

  lemma PlainKeys2()
    ensures PlainKey("nonce") && PlainKey("uri")
  {
  }

  lemma PlainKeys3()
    ensures PlainKey("cnonce") && PlainKey("nc") && PlainKey("qop")
  {
  }

  lemma PlainKeys4()
    ensures PlainKey("response") && PlainKey("opaque")
  {
  }

  lemma ProofFields(response: string, c: Challenge)
    ensures FieldMap(Proof(response, c)) == ProofMap(response, c)
  {
    PlainKeys4();
    FieldMapOne(Field("response", response, true));
    if c.opaque_ != "" {
      FieldMapOne(Field("opaque", c.opaque_, true));
      FieldMapConcat([Field("response", response, true)], [Field("opaque", c.opaque_, true)]);
    } else {
      assert Proof(response, c) == [Field("response", response, true)];
    }
  }

  lemma AuthFieldsMap(md5: string -> string, method_: string, uri: string, user: string, pass: string,
                      c: Challenge, cnonce: string)
    ensures FieldMap(AuthFields(md5, method_, uri, user, pass, c, cnonce))
         == IdentityMap(user, c, uri) + ProtectionMap(PickQop(c.qop), cnonce)
            + ProofMap(RequestDigest(md5, user, c.realm, pass, method_, uri, c.nonce, PickQop(c.qop), NC, cnonce), c)
  {
    var qop := PickQop(c.qop);
    var response := RequestDigest(md5, user, c.realm, pass, method_, uri, c.nonce, qop, NC, cnonce);
    PlainKeys1();
    PlainKeys2();
    PlainKeys3();
    FieldMapFour(Field("username", user, true), Field("realm", c.realm, true), Field("nonce", c.nonce, true),
                 Field("uri", uri, true));
    FieldMapThree(Field("cnonce", cnonce, true), Field("nc", NC, false), Field("qop", qop, false));
    ProofFields(response, c);
    FieldMapConcat(Identity(user, c, uri), Protection(qop, cnonce));
    FieldMapConcat(Identity(user, c, uri) + Protection(qop, cnonce), Proof(response, c));
  }

  lemma TokensClean()
    ensures '\"' !in NC && ',' !in NC && CleanEnds(NC) && '\"' !in AUTH && ',' !in AUTH && CleanEnds(AUTH)
  {
  }

  lemma AuthFieldsWellFormed(md5: string -> string, method_: string, uri: string, user: string, pass: string,
                             c: Challenge, cnonce: string)
    requires Quotable(md5, uri, user, c, cnonce)
    ensures AllWellFormed(AuthFields(md5, method_, uri, user, pass, c, cnonce))
  {
    PlainKeys1();
    PlainKeys2();
    PlainKeys3();
    PlainKeys4();
    TokensClean();
    var qop := PickQop(c.qop);
    var response := RequestDigest(md5, user, c.realm, pass, method_, uri, c.nonce, qop, NC, cnonce);
    assert AllWellFormed(Identity(user, c, uri));
    assert AllWellFormed(Protection(qop, cnonce));
    assert AllWellFormed(Proof(response, c));
  }

  // ---- The server's side, as sections 3.2.1 and 3.2.2 of RFC 2617 define it ------------------------------

  /** The digest of data under a secret. */
  function KD(h: string -> string, secret: string, data: string): string {
    h(Join([secret, data], ":"))
  }

  function A1(user: string, realm: string, pass: string): string {
    Join([user, realm, pass], ":")
  }

  function A2(method_: string, uri: string): string {
    Join([method_, uri], ":")
  }

  /** The digest a server expects for the parameters it has parsed, knowing the password: with a quality of
      protection it covers the count and the client's nonce too. */
  function Expected(h: string -> string, m: map<string, string>, method_: string, pass: string): string {
    var request := h(A2(method_, Get(m, "uri")));
    KD(h, h(A1(Get(m, "username"), Get(m, "realm"), pass)),
       if "qop" in m
       then Join([Get(m, "nonce"), Get(m, "nc"), Get(m, "cnonce"), Get(m, "qop"), request], ":")
       else Join([Get(m, "nonce"), request], ":"))
  }

  lemma JoinTwo(a: string, b: string)
    ensures Join([a, b], ":") == a + ":" + b
  {
    assert [a, b][1..] == [b];
  }

  lemma JoinThree(a: string, b: string, c: string)
    ensures Join([a, b, c], ":") == a + ":" + b + ":" + c
  {
    assert [a, b, c][1..] == [b, c];
    JoinTwo(b, c);
    assert a + ":" + (b + ":" + c) == a + ":" + b + ":" + c;
  }

  lemma JoinFive(a: string, b: string, c: string, d: string, e: string)
    ensures Join([a, b, c, d, e], ":") == a + ":" + b + ":" + (c + ":" + d + ":" + e)
  {
    assert [a, b, c, d, e][1..] == [b, c, d, e] && [b, c, d, e][1..] == [c, d, e];
    JoinThree(c, d, e);
    assert a + ":" + (b + ":" + (c + ":" + d + ":" + e)) == a + ":" + b + ":" + (c + ":" + d + ":" + e);
  }

  lemma Unfolded(a: string, b: string, c: string, d: string, e: string, f: string)
    ensures a + ":" + (b + ":" + c + ":" + (d + ":" + e + ":" + f))
         == a + ":" + b + ":" + c + ":" + d + ":" + e + ":" + f
  {
  }

  lemma DigestExpected(h: string -> string, user: string, realm: string, pass: string, method_: string, uri: string,
                       nonce: string, qop: string, nc: string, cnonce: string)
    ensures RequestDigest(h, user, realm, pass, method_, uri, nonce, qop, nc, cnonce)
         == KD(h, h(A1(user, realm, pass)),
               if qop != "" then Join([nonce, nc, cnonce, qop, h(A2(method_, uri))], ":")
               else Join([nonce, h(A2(method_, uri))], ":"))
  {
    JoinThree(user, realm, pass);
    JoinTwo(method_, uri);
    var ha1, ha2 := h(A1(user, realm, pass)), h(A2(method_, uri));
    if qop != "" {
      JoinFive(nonce, nc, cnonce, qop, ha2);
      JoinTwo(ha1, nonce + ":" + nc + ":" + (cnonce + ":" + qop + ":" + ha2));
      Unfolded(ha1, nonce, nc, cnonce, qop, ha2);
    } else {
      JoinTwo(nonce, ha2);
      JoinTwo(ha1, nonce + ":" + ha2);
      assert ha1 + ":" + (nonce + ":" + ha2) == ha1 + ":" + nonce + ":" + ha2;
    }
  }

  /** What a scanned response holds, for the quality of protection that was chosen. */
  predicate Carries(m: map<string, string>, uri: string, user: string, c: Challenge, qop: string, cnonce: string) {
    && Get(m, "username") == user && Get(m, "realm") == c.realm && Get(m, "nonce") == c.nonce
    && Get(m, "uri") == uri && Get(m, "opaque") == c.opaque_
    && CarriesProtection(m, qop, cnonce)
  }

  predicate CarriesProtection(m: map<string, string>, qop: string, cnonce: string) {
    && ("qop" in m <==> qop != "") && ("nc" in m <==> qop != "") && ("cnonce" in m <==> qop != "")
    && (qop != "" ==> m["qop"] == qop && m["nc"] == "00000001" && m["cnonce"] == cnonce)
  }

  /** Length and first letter tell the parameter names apart. */
  function KeySig(key: string): int {
    if key == "" then 0 else |key| * 256 + key[0] as int
  }

  lemma KeysDiffer()
    ensures KeySig("username") == 8 * 256 + 'u' as int && KeySig("realm") == 5 * 256 + 'r' as int
    ensures KeySig("nonce") == 5 * 256 + 'n' as int && KeySig("uri") == 3 * 256 + 'u' as int
    ensures KeySig("cnonce") == 6 * 256 + 'c' as int && KeySig("nc") == 2 * 256 + 'n' as int
    ensures KeySig("qop") == 3 * 256 + 'q' as int && KeySig("response") == 8 * 256 + 'r' as int
    ensures KeySig("opaque") == 6 * 256 + 'o' as int
  {
  }

  lemma MapProtection(uri: string, user: string, c: Challenge, qop: string, cnonce: string, response: string)
    ensures CarriesProtection(IdentityMap(user, c, uri) + ProtectionMap(qop, cnonce) + ProofMap(response, c),
                              qop, cnonce)
  {
    KeysDiffer();
  }

  /** The keys of one map are in neither of the maps merged behind it. */
  lemma IdentityStands(user: string, c: Challenge, uri: string, m: map<string, string>)
    requires "username" !in m && "realm" !in m && "nonce" !in m && "uri" !in m
    ensures var all := IdentityMap(user, c, uri) + m;
            && Get(all, "username") == user && Get(all, "realm") == c.realm
            && Get(all, "nonce") == c.nonce && Get(all, "uri") == uri
  {
    KeysDiffer();
  }

  lemma RestOfMap(c: Challenge, qop: string, cnonce: string, response: string)
    ensures var m := ProtectionMap(qop, cnonce) + ProofMap(response, c);
            && "username" !in m && "realm" !in m && "nonce" !in m && "uri" !in m && Get(m, "opaque") == c.opaque_
  {
    KeysDiffer();
  }

  lemma MapCarries(uri: string, user: string, c: Challenge, qop: string, cnonce: string, response: string)
    ensures Carries(IdentityMap(user, c, uri) + ProtectionMap(qop, cnonce) + ProofMap(response, c),
                    uri, user, c, qop, cnonce)
  {
    var rest := ProtectionMap(qop, cnonce) + ProofMap(response, c);
    RestOfMap(c, qop, cnonce, response);
    IdentityStands(user, c, uri, rest);
    OpaqueStands(user, c, uri, rest);
    var m := IdentityMap(user, c, uri);
    assert m + ProtectionMap(qop, cnonce) + ProofMap(response, c) == m + rest;
    MapProtection(uri, user, c, qop, cnonce, response);
  }

  lemma OpaqueStands(user: string, c: Challenge, uri: string, m: map<string, string>)
    ensures Get(IdentityMap(user, c, uri) + m, "opaque") == Get(m, "opaque")
  {
    KeysDiffer();
  }

  lemma MapResponse(uri: string, user: string, c: Challenge, qop: string, cnonce: string, response: string)
    ensures Get(IdentityMap(user, c, uri) + ProtectionMap(qop, cnonce) + ProofMap(response, c), "response") == response
  {
    KeysDiffer();
  }

  /** A server that scans the header gets back every field, finds cnonce, nc and qop exactly when the
      challenge offered "auth", and the response is the one it expects from them. */
  lemma ResponseRecovered(md5: string -> string, method_: string, uri: string, user: string, pass: string,
                          c: Challenge, cnonce: string)
    requires Quotable(md5, uri, user, c, cnonce)
    ensures SCHEME <= BuildDigestResponse(md5, method_, uri, user, pass, c, cnonce)
    ensures var m := SplitDigestParams(BuildDigestResponse(md5, method_, uri, user, pass, c, cnonce)[|SCHEME|..]);
            Carries(m, uri, user, c, PickQop(c.qop), cnonce) && Get(m, "response") == Expected(md5, m, method_, pass)
  {
    var fs := AuthFields(md5, method_, uri, user, pass, c, cnonce);
    var header := BuildDigestResponse(md5, method_, uri, user, pass, c, cnonce);
    assert header[..|SCHEME|] == SCHEME && header[|SCHEME|..] == PrintFields(fs);
    AuthFieldsWellFormed(md5, method_, uri, user, pass, c, cnonce);
    OwnFieldsRecovered(fs);
    AuthFieldsMap(md5, method_, uri, user, pass, c, cnonce);
    var qop := PickQop(c.qop);
    var response := RequestDigest(md5, user, c.realm, pass, method_, uri, c.nonce, qop, NC, cnonce);
    MapCarries(uri, user, c, qop, cnonce, response);
    MapResponse(uri, user, c, qop, cnonce, response);
    DigestExpected(md5, user, c.realm, pass, method_, uri, c.nonce, qop, NC, cnonce);
    CarriesExpected(md5, FieldMap(fs), method_, uri, user, pass, c, qop, cnonce);
  }

  lemma CarriesExpected(h: string -> string, m: map<string, string>, method_: string, uri: string, user: string,
                        pass: string, c: Challenge, qop: string, cnonce: string)
    requires Carries(m, uri, user, c, qop, cnonce)
    ensures Expected(h, m, method_, pass)
         == KD(h, h(A1(user, c.realm, pass)),
               if qop != "" then Join([c.nonce, NC, cnonce, qop, h(A2(method_, uri))], ":")
               else Join([c.nonce, h(A2(method_, uri))], ":"))
  {
  }

  /** One parameter, its value in quotes. */
  function Quoted(key: string, value: string): string {
    key + "=" + ("\"" + value + "\"")
  }

  /** The parameters of a response as they are written: cnonce in quotes, nc and qop without. */
  function Written(user: string, c: Challenge, uri: string, qop: string, cnonce: string, response: string)
    : seq<string>
  {
    [Quoted("username", user), Quoted("realm", c.realm), Quoted("nonce", c.nonce), Quoted("uri", uri)]
    + (if qop == "" then [] else [Quoted("cnonce", cnonce), "nc=00000001", "qop=" + qop])
    + ([Quoted("response", response)] + (if c.opaque_ == "" then [] else [Quoted("opaque", c.opaque_)]))
  }

  lemma PrintedConcat(a: seq<Field>, b: seq<Field>)
    ensures Printed(a + b) == Printed(a) + Printed(b)
  {
  }

  /** The header word for word. */
  lemma ResponseText(md5: string -> string, method_: string, uri: string, user: string, pass: string,
                     c: Challenge, cnonce: string) returns (response: string)
    ensures BuildDigestResponse(md5, method_, uri, user, pass, c, cnonce)
         == "Digest " + Join(Written(user, c, uri, PickQop(c.qop), cnonce, response), ", ")
  {
    var qop := PickQop(c.qop);
    response := RequestDigest(md5, user, c.realm, pass, method_, uri, c.nonce, qop, NC, cnonce);
    PrintedConcat(Identity(user, c, uri), Protection(qop, cnonce));
    PrintedConcat(Identity(user, c, uri) + Protection(qop, cnonce), Proof(response, c));
    PrintedIdentity(user, c, uri);
    PrintedProtection(qop, cnonce);
    PrintedProof(response, c);
  }

  lemma PrintedIdentity(user: string, c: Challenge, uri: string)
    ensures Printed(Identity(user, c, uri))
         == [Quoted("username", user), Quoted("realm", c.realm), Quoted("nonce", c.nonce), Quoted("uri", uri)]
  {
  }

  lemma PrintedProtection(qop: string, cnonce: string)
    ensures Printed(Protection(qop, cnonce))
         == if qop == "" then [] else [Quoted("cnonce", cnonce), "nc=00000001", "qop=" + qop]
  {
    assert "nc" + "=" + "00000001" == "nc=00000001" && "qop" + "=" == "qop=";
  }

  lemma PrintedProof(response: string, c: Challenge)
    ensures Printed(Proof(response, c))
         == [Quoted("response", response)] + (if c.opaque_ == "" then [] else [Quoted("opaque", c.opaque_)])
  {
  }

  // ---- The functions themselves -----------------------------------------------------------------

  lemma {:induction false} FoldAppend(out: map<string, string>, parts: seq<string>, p: string)
    ensures Fold(out, parts + [p]) == AddParam(Fold(out, parts), p)
  {
    assert (parts + [p])[..|parts|] == parts;
  }

  /** The scanner's state: `done` are the pieces it has flushed, s[start..i] is the one it is in. */
  ghost predicate Scanned(s: string, start: nat, i: nat, inQuotes: bool, done: seq<string>) {
    start <= i <= |s| && Parts(s, false) == done + Prefix(s[start..i], Parts(s[i..], inQuotes))
  }

  lemma Flushed(s: string, start: nat, i: nat, done: seq<string>, out: map<string, string>)
    requires Scanned(s, start, i, false, done) && i < |s| && s[i] == ',' && out == Fold(map[], done)
    ensures Scanned(s, i + 1, i + 1, false, done + [s[start..i]])
    ensures AddParam(out, s[start..i]) == Fold(map[], done + [s[start..i]])
  {
    ScanAdvances(s, start, i, false, done);
    FoldAppend(map[], done, s[start..i]);
  }

  lemma Passed(s: string, start: nat, i: nat, inQuotes: bool, done: seq<string>)
    requires Scanned(s, start, i, inQuotes, done) && i < |s| && (s[i] != ',' || inQuotes)
    ensures Scanned(s, start, i + 1, if s[i] == '\"' then !inQuotes else inQuotes, done)
  {
    ScanAdvances(s, start, i, inQuotes, done);
  }

  /** The switch on one character: flushes the piece that ends here, if one does. */
  method ScanByte(s: string, start: nat, i: nat, inQuotes: bool, out: map<string, string>, ghost done: seq<string>)
    returns (start': nat, inQuotes': bool, out': map<string, string>, ghost done': seq<string>)
    requires Scanned(s, start, i, inQuotes, done) && i < |s| && out == Fold(map[], done)
    ensures Scanned(s, start', i + 1, inQuotes', done') && out' == Fold(map[], done')
  {
    start', inQuotes', out', done' := start, inQuotes, out, done;
    if s[i] == '\"' {
      Passed(s, start, i, inQuotes, done);
      inQuotes' := !inQuotes;
    } else if s[i] == ',' && !inQuotes {
      Flushed(s, start, i, done, out);
      out' := AddParam(out, s[start..i]);
      done' := done + [s[start..i]];
      start' := i + 1;
    } else {
      Passed(s, start, i, inQuotes, done);
    }
  }

  /** The loop, up to the flush of the last piece. */
  method ScanBytes(s: string)
    returns (start: nat, out: map<string, string>, ghost inQuotes: bool, ghost done: seq<string>)
    ensures Scanned(s, start, |s|, inQuotes, done) && out == Fold(map[], done)
  {
    var quoted, i := false, 0;
    start, out, done := 0, map[], [];
    ScanStarts(s);
    while i < |s|
      invariant 0 <= start <= i <= |s| && Scanned(s, start, i, quoted, done)
      invariant out == Fold(map[], done)
    {
      start, quoted, out, done := ScanByte(s, start, i, quoted, out, done);
      i := i + 1;
    }
    inQuotes := quoted;
  }

  method ScanDigestParams(s: string) returns (out: map<string, string>)
    ensures out == SplitDigestParams(s)
  {
    var start, params;
    ghost var inQuotes, done;
    start, params, inQuotes, done := ScanBytes(s);
    ScanEnds(s, start, inQuotes, done);
    out := AddParam(params, s[start..]);
  }

  lemma ScanStarts(s: string)
    ensures Scanned(s, 0, 0, false, [])
  {
    assert s[0..] == s && s[0..0] == "";
    var ps := Parts(s, false);
    assert "" + ps[0] == ps[0] && [ps[0]] + ps[1..] == ps;
  }

  lemma ScanEnds(s: string, start: nat, inQuotes: bool, done: seq<string>)
    requires Scanned(s, start, |s|, inQuotes, done)
    ensures SplitDigestParams(s) == AddParam(Fold(map[], done), s[start..])
  {
    FoldAppend(map[], done, s[start..]);
    assert s[|s|..] == "" && s[start..|s|] == s[start..] && s[start..] + "" == s[start..];
  }

  lemma ScanAdvances(s: string, start: nat, i: nat, inQuotes: bool, done: seq<string>)
    requires Scanned(s, start, i, inQuotes, done) && i < |s|
    ensures if s[i] == ',' && !inQuotes then Scanned(s, i + 1, i + 1, false, done + [s[start..i]])
            else Scanned(s, start, i + 1, if s[i] == '\"' then !inQuotes else inQuotes, done)
  {
    ScanStep(s, start, i, inQuotes);
    Assoc(done, [s[start..i]], Prefix(s[i + 1..i + 1], Parts(s[i + 1..], false)));
  }

  /** What the scanner's next character does to the pieces still to come. */
  lemma ScanStep(s: string, start: nat, i: nat, inQuotes: bool)
    requires start <= i < |s|
    ensures var rest := Parts(s[i..], inQuotes);
            if s[i] == '\"' then Prefix(s[start..i], rest) == Prefix(s[start..i + 1], Parts(s[i + 1..], !inQuotes))
            else if s[i] == ',' && !inQuotes
            then Prefix(s[start..i], rest) == [s[start..i]] + Prefix(s[i + 1..i + 1], Parts(s[i + 1..], false))
            else Prefix(s[start..i], rest) == Prefix(s[start..i + 1], Parts(s[i + 1..], inQuotes))
  {
    var t := s[i..];
    assert t[1..] == s[i + 1..] && t[0] == s[i];
    assert s[start..i + 1] == s[start..i] + [s[i]];
    var q := if s[i] == '\"' then !inQuotes else inQuotes;
    var next := Parts(s[i + 1..], q);
    assert s[start..i] + ([s[i]] + next[0]) == s[start..i + 1] + next[0];
    assert s[start..i] + "" == s[start..i];
    assert s[i + 1..i + 1] + next[0] == next[0];
  }

  method ChooseQop(qopList: string) returns (qop: string)
    ensures qop == PickQop(qopList)
    ensures qop == if exists p :: p in Split(qopList, ',') && Trim(p, SPACE) == "auth" then "auth" else ""
  {
    var parts := Split(qopList, ',');
    if qopList == "" {
      assert TrimRight("", SPACE) == "" && Trim("", SPACE) == "";
      assert parts == [""];
      return "";
    }
    var i := 0;
    while i < |parts|
      invariant 0 <= i <= |parts|
      invariant forall k :: 0 <= k < i ==> Trim(parts[k], SPACE) != AUTH
    {
      if Trim(parts[i], SPACE) == AUTH { return AUTH; }
      i := i + 1;
    }
    qop := "";
  }
}
