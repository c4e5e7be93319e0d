/** The string helpers of the Go standard library that the modelled code leans on.
    A Go string is a sequence of bytes; here it is a `string` whose characters are those bytes. */
module Text {
  datatype Option<+T> = None | Some(value: T)

  datatype Result<+T, +E> = Ok(value: T) | Err(error: E)

  /** One byte of a wire, kept as a character so that text literals can be compared with it. */
  type byte = c: char | c as int < 256

  const CRLF: set<char> := {'\r', '\n'}
  const SPACE: set<char> := {' ', '\t', '\n', '\r', '\U{0B}', '\U{0C}'}

  function Min(a: nat, b: nat): nat {
    if a < b then a else b
  }

  // ---- Concatenation -----------------------------------------------------

  lemma Assoc<T>(a: seq<T>, b: seq<T>, c: seq<T>)
    ensures (a + b) + c == a + (b + c)
  {
  }

  lemma Glue(a: string, b: string, c: string, d: string)
    ensures a + (b + c + d) == (a + b) + c + d
  {
  }

  // ---- Trimming ---------------------------------------------------------

  predicate AllIn(s: string, cut: set<char>) {
    forall i :: 0 <= i < |s| ==> s[i] in cut
  }

  function TrimRight(s: string, cut: set<char>): string {
    if s != "" && s[|s| - 1] in cut then TrimRight(s[..|s| - 1], cut) else s
  }

  function TrimLeft(s: string, cut: set<char>): string {
    if s != "" && s[0] in cut then TrimLeft(s[1..], cut) else s
  }

  lemma {:induction false} TrimRightSpec(s: string, cut: set<char>) returns (tail: string)
    ensures s == TrimRight(s, cut) + tail && AllIn(tail, cut)
    ensures TrimRight(s, cut) != "" ==> TrimRight(s, cut)[|TrimRight(s, cut)| - 1] !in cut
  {
    if s != "" && s[|s| - 1] in cut {
      var t := TrimRightSpec(s[..|s| - 1], cut);
      tail := t + [s[|s| - 1]];
    } else {
      tail := "";
    }
  }

  lemma {:induction false} TrimLeftSpec(s: string, cut: set<char>) returns (head: string)
    ensures s == head + TrimLeft(s, cut) && AllIn(head, cut)
    ensures TrimLeft(s, cut) != "" ==> TrimLeft(s, cut)[0] !in cut
  {
    if s != "" && s[0] in cut {
      var h := TrimLeftSpec(s[1..], cut);
      head := [s[0]] + h;
    } else {
      head := "";
    }
  }

  function Trim(s: string, cut: set<char>): string {
    TrimLeft(TrimRight(s, cut), cut)
  }

  lemma {:induction false} TrimRightDrops(s: string, tail: string, cut: set<char>)
    requires AllIn(tail, cut) && (s != "" ==> s[|s| - 1] !in cut)
    ensures TrimRight(s + tail, cut) == s
  {
    if tail == "" {
      assert s + tail == s;
    } else {
      assert (s + tail)[..|s + tail| - 1] == s + tail[..|tail| - 1];
      TrimRightDrops(s, tail[..|tail| - 1], cut);
    }
  }

  lemma {:induction false} TrimLeftDrops(head: string, s: string, cut: set<char>)
    requires AllIn(head, cut) && (s != "" ==> s[0] !in cut)
    ensures TrimLeft(head + s, cut) == s
  {
    if head == "" {
      assert head + s == s;
    } else {
      assert (head + s)[1..] == head[1..] + s;
      TrimLeftDrops(head[1..], s, cut);
    }
  }

  /** Trimming is determined by what it leaves: a core with clean ends. */
  lemma TrimCore(head: string, core: string, tail: string, cut: set<char>)
    requires AllIn(head, cut) && AllIn(tail, cut)
    requires core != "" && core[0] !in cut && core[|core| - 1] !in cut
    ensures Trim(head + core + tail, cut) == core
  {
    TrimRightDrops(head + core, tail, cut);
    TrimLeftDrops(head, core, cut);
  }

  lemma TrimBlank(s: string, cut: set<char>)
    ensures Trim(s, cut) == "" <==> AllIn(s, cut)
  {
    var tail := TrimRightSpec(s, cut);
    var head := TrimLeftSpec(TrimRight(s, cut), cut);
    assert s == head + Trim(s, cut) + tail;
    var core := Trim(s, cut);
    assert core != "" ==> s[|head|] == core[0];
  }

  // ---- Searching --------------------------------------------------------

  /** Index of the first `c`, or -1. */
  function IndexByte(s: string, c: char): (i: int)
    ensures -1 <= i < |s|
  {
    if s == "" then -1
    else if s[0] == c then 0
    else var j := IndexByte(s[1..], c); if j == -1 then -1 else j + 1
  }

  lemma Around(s: string, i: nat)
    requires i < |s|
    ensures s == s[..i] + [s[i]] + s[i + 1..]
  {
  }

  lemma {:induction false} IndexByteFirst(s: string, c: char)
    ensures IndexByte(s, c) == -1 <==> c !in s
    ensures var i := IndexByte(s, c); i != -1 ==> s[i] == c && c !in s[..i]
  {
    if s != "" && s[0] != c {
      IndexByteFirst(s[1..], c);
      assert s == [s[0]] + s[1..];
      var j := IndexByte(s[1..], c);
      if j != -1 { assert s[..j + 1] == [s[0]] + s[1..][..j]; }
    }
  }

  lemma IndexByteSpec(s: string, c: char)
    ensures IndexByte(s, c) == -1 <==> c !in s
    ensures var i := IndexByte(s, c); i != -1 ==> s[i] == c && c !in s[..i] && s == s[..i] + [c] + s[i + 1..]
  {
    IndexByteFirst(s, c);
    if IndexByte(s, c) != -1 { Around(s, IndexByte(s, c)); }
  }

  lemma {:induction false} IndexByteAt(a: string, c: char, b: string)
    requires c !in a
    ensures IndexByte(a + [c] + b, c) == |a|
  {
    if a == "" {
      assert "" + [c] + b == [c] + b;
    } else {
      assert (a + [c] + b)[1..] == a[1..] + [c] + b;
      IndexByteAt(a[1..], c, b);
    }
  }

  /** strings.Cut at a single byte: what precedes it, what follows it, and whether it occurred. */
  function Cut(s: string, c: char): (string, string, bool) {
    var i := IndexByte(s, c);
    if i == -1 then (s, "", false) else (s[..i], s[i + 1..], true)
  }

  lemma CutSpec(s: string, c: char)
    ensures var (before, after, found) := Cut(s, c);
            c !in before && if found then s == before + [c] + after else s == before && after == ""
  {
    IndexByteSpec(s, c);
  }

  lemma CutPieces(a: string, c: char, b: string)
    ensures (a + [c] + b)[..|a|] == a && (a + [c] + b)[|a| + 1..] == b
  {
  }

  lemma CutAt(a: string, c: char, b: string)
    requires c !in a
    ensures Cut(a + [c] + b, c) == (a, b, true)
  {
    IndexByteAt(a, c, b);
    CutPieces(a, c, b);
  }

  // ---- Splitting and joining ---------------------------------------------

  /** strings.Split at a single byte. */
  function Split(s: string, c: char): (r: seq<string>)
    ensures |r| > 0
    decreases |s|
  {
    var i := IndexByte(s, c);
    if i == -1 then [s] else [s[..i]] + Split(s[i + 1..], c)
  }

  /** strings.Join with a separator. */
  function Join(parts: seq<string>, sep: string): string {
    if |parts| == 0 then ""
    else if |parts| == 1 then parts[0]
    else parts[0] + sep + Join(parts[1..], sep)
  }

  predicate NoneContains(parts: seq<string>, c: char) {
    forall k :: 0 <= k < |parts| ==> c !in parts[k]
  }

  lemma {:induction false} JoinSplit(s: string, c: char)
    ensures NoneContains(Split(s, c), c) && Join(Split(s, c), [c]) == s
    decreases |s|
  {
    var i := IndexByte(s, c);
    IndexByteSpec(s, c);
    if i != -1 {
      JoinSplit(s[i + 1..], c);
      assert ([s[..i]] + Split(s[i + 1..], c))[1..] == Split(s[i + 1..], c);
    }
  }

  lemma {:induction false} SplitJoin(parts: seq<string>, c: char)
    requires |parts| > 0 && NoneContains(parts, c)
    ensures Split(Join(parts, [c]), c) == parts
  {
    if |parts| == 1 {
      IndexByteSpec(parts[0], c);
    } else {
      var rest := Join(parts[1..], [c]);
      SplitJoin(parts[1..], c);
      IndexByteAt(parts[0], c, rest);
      CutPieces(parts[0], c, rest);
      assert [parts[0]] + parts[1..] == parts;
    }
  }

  // ---- Case -------------------------------------------------------------

  function LowerChar(c: char): char {
    if 'A' <= c <= 'Z' then (c as int + 32) as char else c
  }

  /** strings.ToLower on ASCII letters. */
  function ToLower(s: string): (r: string)
    ensures |r| == |s| && forall i :: 0 <= i < |s| ==> r[i] == LowerChar(s[i])
  {
    seq(|s|, i requires 0 <= i < |s| => LowerChar(s[i]))
  }

  // ---- Decimal numbers ----------------------------------------------------

  const MAX_INT64: int := 0x7FFF_FFFF_FFFF_FFFF
  const MIN_INT64: int := -0x8000_0000_0000_0000

  predicate IsDigit(c: char) {
    '0' <= c <= '9'
  }

  function Digit(d: nat): char
    requires d < 10
  {
    ('0' as int + d) as char
  }

  predicate AllDigits(s: string) {
    forall i :: 0 <= i < |s| ==> IsDigit(s[i])
  }

  function DigitsValue(s: string): (v: int)
    requires AllDigits(s)
    ensures v >= 0
  {
    if s == "" then 0 else DigitsValue(s[..|s| - 1]) * 10 + (s[|s| - 1] as int - '0' as int)
  }

  function NatDigits(n: nat): (s: string)
    ensures s != "" && AllDigits(s) && DigitsValue(s) == n
  {
    if n < 10 then [Digit(n)]
    else
      var s := NatDigits(n / 10) + [Digit(n % 10)];
      assert s[..|s| - 1] == NatDigits(n / 10);
      s
  }

  /** strconv.Atoi: an optional sign, at least one digit, and a value that fits 64 bits. */
  function Atoi(s: string): Option<int> {
    var signed := s != "" && (s[0] == '-' || s[0] == '+');
    var digits := if signed then s[1..] else s;
    if digits == "" || !AllDigits(digits) then None
    else
      var v: int := if signed && s[0] == '-' then -DigitsValue(digits) else DigitsValue(digits);
      if MIN_INT64 <= v <= MAX_INT64 then Some(v) else None
  }

  /** Formatting with %d. */
  function Itoa(n: int): string {
    if n < 0 then "-" + NatDigits(-n) else NatDigits(n)
  }

  lemma AtoiItoa(n: int)
    requires MIN_INT64 <= n <= MAX_INT64
    ensures Atoi(Itoa(n)) == Some(n)
  {
    if n < 0 {
      assert ("-" + NatDigits(-n))[1..] == NatDigits(-n);
    } else {
      assert IsDigit(NatDigits(n)[0]);
    }
  }
}
