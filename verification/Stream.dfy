/** A buffered reader over everything a peer sends before it closes the connection. */
module Stream {
  import opened Text

  /** The text up to and including the first newline, and what follows; None when no newline comes. */
  function TakeLine(s: string): (r: Option<(string, string)>)
    ensures r.Some? ==> |r.value.1| < |s|
  {
    var i := IndexByte(s, '\n');
    if i == -1 then None else Some((s[..i + 1], s[i + 1..]))
  }

  lemma TakeLineAt(line: string, rest: string)
    requires '\n' !in line
    ensures TakeLine(line + "\n" + rest) == Some((line + "\n", rest))
  {
    IndexByteAt(line, '\n', rest);
    CutPieces(line, '\n', rest);
    assert (line + "\n" + rest)[..|line| + 1] == line + "\n";
  }

  lemma NoLine(s: string)
    requires '\n' !in s
    ensures TakeLine(s) == None
  {
    IndexByteSpec(s, '\n');
  }

  // ---- Text made of lines ------------------------------------------------------

  /** Lines written out with their newlines. */
  function Lines(lines: seq<string>): string {
    if lines == [] then "" else lines[0] + "\n" + Lines(lines[1..])
  }

  /** A line of a header block: not the blank line that ends the block. */
  predicate HeaderLine(line: string) {
    '\n' !in line && TrimRight(line, CRLF) != ""
  }

  predicate AllHeaderLines(lines: seq<string>) {
    forall k :: 0 <= k < |lines| ==> HeaderLine(lines[k])
  }

  lemma TrimRightNewline(line: string)
    ensures TrimRight(line + "\n", CRLF) == TrimRight(line, CRLF)
  {
    assert (line + "\n")[..|line|] == line;
  }

  lemma TakeLineSound(s: string) returns (bare: string, rest: string)
    requires TakeLine(s).Some?
    ensures TakeLine(s) == Some((bare + "\n", rest)) && '\n' !in bare && |rest| < |s|
    ensures s == bare + "\n" + rest && TrimRight(bare + "\n", CRLF) == TrimRight(bare, CRLF)
  {
    var i := IndexByte(s, '\n');
    IndexByteSpec(s, '\n');
    bare, rest := s[..i], s[i + 1..];
    TakeLineAt(bare, rest);
    TrimRightNewline(bare);
  }

  /** A line without a newline ends in carriage returns behind its trimmed text. */
  lemma CarriageReturns(bare: string) returns (cr: string)
    requires '\n' !in bare
    ensures bare == TrimRight(bare, CRLF) + cr && AllIn(cr, {'\r'})
  {
    cr := TrimRightSpec(bare, CRLF);
    assert forall i :: 0 <= i < |cr| ==> cr[i] in bare;
  }

  lemma Shift(a: string, s: string, i: nat)
    requires i < |s|
    ensures a + s[i..] == a + [s[i]] + s[i + 1..]
  {
  }

  class ByteReader {
    const input: seq<byte>
    var pos: nat

    ghost predicate Valid()
      reads this
    {
      pos <= |input|
    }

    ghost function Rest(): (s: string)
      reads this
      requires Valid()
      ensures |s| == |input| - pos
    {
      input[pos..]
    }

    constructor (input: seq<byte>)
      ensures Valid() && this.input == input && Rest() == input
    {
      this.input := input;
      pos := 0;
    }

    method ReadByte() returns (r: Option<byte>)
      requires Valid()
      modifies this
      ensures Valid()
      ensures old(Rest()) == "" ==> r == None && Rest() == ""
      ensures old(Rest()) != "" ==> r == Some(old(Rest())[0]) && Rest() == old(Rest())[1..] && pos == old(pos) + 1
    {
      if pos == |input| {
        r := None;
      } else {
        r := Some(input[pos]);
        pos := pos + 1;
      }
    }

    /** Pushes the byte just read back. */
    method UnreadByte()
      requires Valid() && pos > 0
      modifies this
      ensures Valid() && pos == old(pos) - 1
    {
      pos := pos - 1;
    }

    /** ReadString('\n'): a line with its newline; at the end of input the partial line is lost. */
    method ReadLine() returns (r: Option<string>)
      requires Valid()
      modifies this
      ensures Valid()
      ensures match TakeLine(old(Rest()))
              case Some((line, rest)) => r == Some(line) && Rest() == rest
              case None => r == None && Rest() == ""
    {
      ghost var s := Rest();
      var line := "";
      while pos < |input| && input[pos] != '\n'
        invariant Valid() && '\n' !in line
        invariant s == line + Rest()
      {
        Shift(line, input, pos);
        line := line + [input[pos]];
        pos := pos + 1;
      }
      if pos == |input| {
        assert line + "" == line;
        NoLine(s);
        r := None;
      } else {
        Shift(line, input, pos);
        TakeLineAt(line, input[pos + 1..]);
        r := Some(line + "\n");
        pos := pos + 1;
      }
    }

    /** io.ReadFull of n bytes. */
    method ReadFull(n: nat) returns (r: Option<string>)
      requires Valid()
      modifies this
      ensures Valid()
      ensures n <= |old(Rest())| ==> r == Some(old(Rest())[..n]) && Rest() == old(Rest())[n..]
      ensures n > |old(Rest())| ==> r == None && Rest() == ""
    {
      if n <= |input| - pos {
        assert Rest()[..n] == input[pos..pos + n] && Rest()[n..] == input[pos + n..];
        r := Some(input[pos..pos + n]);
        pos := pos + n;
      } else {
        r := None;
        pos := |input|;
      }
    }

    /** io.ReadFull into the first n cells of a caller's buffer. */
    method ReadInto(buf: array<byte>, n: nat) returns (ok: bool)
      requires Valid() && n <= buf.Length
      modifies this, buf
      ensures Valid() && ok == (n <= |old(Rest())|)
      ensures ok ==> buf[..n] == old(Rest())[..n] && Rest() == old(Rest())[n..]
      ensures !ok ==> Rest() == ""
    {
      ok := n <= |input| - pos;
      var k := 0;
      var m := if ok then n else |input| - pos;
      while k < m
        invariant 0 <= k <= m && pos == old(pos)
        invariant forall j :: 0 <= j < k ==> buf[j] == input[pos + j]
      {
        buf[k] := input[pos + k];
        k := k + 1;
      }
      assert ok ==> Rest()[..n] == buf[..n] && Rest()[n..] == input[pos + n..];
      pos := pos + m;
    }
  }
}
