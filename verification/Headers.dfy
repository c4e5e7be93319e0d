/** Header lines as a peer writes them, field by field. */
module Headers {
  import opened Text
  import opened Stream

  datatype Header = Header(name: string, value: string) {
    /** A name and a value that survive being written as one line and trimmed. */
    predicate Clean() {
      && name != "" && name[0] !in SPACE && name[|name| - 1] !in SPACE && ':' !in name && '\n' !in name
      && (value != "" ==> value[0] !in SPACE && value[|value| - 1] !in SPACE) && '\n' !in value
    }

    function Text(): string {
      name + ":" + (" " + value)
    }
  }

  predicate AllClean(hs: seq<Header>) {
    forall k :: 0 <= k < |hs| ==> hs[k].Clean()
  }

  /** The lines of a header block, without their newlines. */
  function LinesOf(hs: seq<Header>): (lines: seq<string>)
    ensures |lines| == |hs|
  {
    seq(|hs|, k requires 0 <= k < |hs| => hs[k].Text() + "\r")
  }

  /** The header that announces a body. */
  function LengthOf(body: string): Header {
    Header("Content-Length", Itoa(|body|))
  }

  /** The fields of a block, in order, a later one replacing an earlier one of the same name. */
  function Fields(hs: seq<Header>, m: map<string, string>): map<string, string> {
    if hs == [] then m else Fields(hs[1..], m[ToLower(hs[0].name) := hs[0].value])
  }

  predicate NoneNamed(hs: seq<Header>, key: string) {
    forall k :: 0 <= k < |hs| ==> ToLower(hs[k].name) != key
  }

  // ---- Reading a line back -----------------------------------------------------------------

  lemma ValueTrims(value: string)
    requires value != "" ==> value[0] !in SPACE && value[|value| - 1] !in SPACE
    ensures Trim(" " + value, SPACE) == value
  {
    if value == "" {
      assert " " + "" == " ";
      TrimBlank(" ", SPACE);
    } else {
      TrimCore(" ", value, "", SPACE);
      assert " " + value + "" == " " + value;
    }
  }

  lemma NameTrims(name: string)
    requires name != "" && name[0] !in SPACE && name[|name| - 1] !in SPACE
    ensures Trim(name, SPACE) == name
  {
    TrimCore("", name, "", SPACE);
    assert "" + name + "" == name;
  }

  lemma LineTrims(h: Header)
    requires h.Clean()
    ensures TrimRight(h.Text() + "\r", CRLF) == h.Text() && '\n' !in h.Text() + "\r"
  {
    var t := h.Text();
    assert t[|t| - 1] == if h.value == "" then ' ' else h.value[|h.value| - 1];
    TrimRightDrops(t, "\r", CRLF);
  }

  lemma HeaderRead(h: Header)
    requires h.Clean()
    ensures var (before, after, found) := Cut(h.Text(), ':');
            found && Trim(before, SPACE) == h.name && Trim(after, SPACE) == h.value
  {
    CutAt(h.name, ':', " " + h.value);
    NameTrims(h.name);
    ValueTrims(h.value);
  }

  lemma BlockLines(hs: seq<Header>)
    requires AllClean(hs)
    ensures AllHeaderLines(LinesOf(hs))
  {
    forall k | 0 <= k < |hs|
      ensures HeaderLine(LinesOf(hs)[k])
    {
      LineTrims(hs[k]);
    }
  }

  lemma DigitsClean(n: nat)
    ensures forall i :: 0 <= i < |Itoa(n)| ==> IsDigit(Itoa(n)[i])
    ensures Itoa(n) != ""
  {
  }

  lemma LengthClean(body: string)
    ensures LengthOf(body).Clean()
  {
    DigitsClean(|body|);
    LengthNameClean();
  }

  lemma LengthNameClean()
    ensures ':' !in "Content-Length" && '\n' !in "Content-Length"
    ensures "Content-Length"[0] !in SPACE && "Content-Length"[|"Content-Length"| - 1] !in SPACE
  {
  }

  lemma LengthName()
    ensures ToLower("Content-Length") == "content-length"
  {
  }

  lemma AllCleanAround(before: seq<Header>, h: Header, after: seq<Header>)
    requires AllClean(before) && h.Clean() && AllClean(after)
    ensures AllClean(before + [h] + after)
  {
  }

  lemma {:induction false} FieldsConcat(a: seq<Header>, b: seq<Header>, m: map<string, string>)
    ensures Fields(a + b, m) == Fields(b, Fields(a, m))
  {
    if a == [] {
      assert a + b == b;
    } else {
      assert (a + b)[1..] == a[1..] + b;
      FieldsConcat(a[1..], b, m[ToLower(a[0].name) := a[0].value]);
    }
  }

  lemma {:induction false} FieldsKeep(hs: seq<Header>, m: map<string, string>, key: string)
    requires NoneNamed(hs, key) && key in m
    ensures key in Fields(hs, m) && Fields(hs, m)[key] == m[key]
  {
    if hs != [] { FieldsKeep(hs[1..], m[ToLower(hs[0].name) := hs[0].value], key); }
  }

  lemma {:induction false} FieldsLack(hs: seq<Header>, m: map<string, string>, key: string)
    requires NoneNamed(hs, key) && key !in m
    ensures key !in Fields(hs, m)
  {
    if hs != [] { FieldsLack(hs[1..], m[ToLower(hs[0].name) := hs[0].value], key); }
  }

  lemma LastStands(before: seq<Header>, h: Header, after: seq<Header>, m: map<string, string>)
    requires NoneNamed(after, ToLower(h.name))
    ensures var fields := Fields(before + [h] + after, m);
            ToLower(h.name) in fields && fields[ToLower(h.name)] == h.value
  {
    FieldsConcat(before + [h], after, m);
    FieldsConcat(before, [h], m);
    FieldsKeep(after, Fields(before, m)[ToLower(h.name) := h.value], ToLower(h.name));
  }

  /** The last header of a name decides. */
  lemma LengthStands(before: seq<Header>, body: string, after: seq<Header>, m: map<string, string>)
    requires NoneNamed(after, "content-length")
    ensures var fields := Fields(before + [LengthOf(body)] + after, m);
            "content-length" in fields && fields["content-length"] == Itoa(|body|)
  {
    LengthName();
    LastStands(before, LengthOf(body), after, m);
  }
}
