/** The pack encryption of the Gree protocol (greeEncrypt and greeDecrypt in gree.go): AES in ECB mode
    over PKCS7 padding, in Base64. The block cipher and Base64 are parameters. */
module GreePack {
  import opened Text

  type Bytes = seq<byte>

  const BLOCK: nat := 16

  datatype PackError = BadKeySize | BadBase64 | NotAligned

  /** A block cipher whose decryption undoes its encryption. */
  ghost predicate Cipher(enc: (Bytes, Bytes) -> Bytes, dec: (Bytes, Bytes) -> Bytes) {
    && Blockwise(enc) && Blockwise(dec)
    && forall k, b | |b| == BLOCK :: dec(k, enc(k, b)) == b
  }

  ghost predicate Blockwise(f: (Bytes, Bytes) -> Bytes) {
    forall k, b | |b| == BLOCK :: |f(k, b)| == BLOCK
  }

  ghost predicate Base64(encode: Bytes -> string, decode: string -> Option<Bytes>) {
    forall data :: decode(encode(data)) == Some(data)
  }

  predicate KeySizeOk(key: Bytes) {
    |key| == 16 || |key| == 24 || |key| == 32
  }

  // ---- Specification -----------------------------------------------------------------

  function PadLength(n: nat): (m: nat)
    ensures 1 <= m <= BLOCK && (n + m) % BLOCK == 0
  {
    BLOCK - n % BLOCK
  }

  function Pad(p: Bytes): (r: Bytes)
    ensures |r| == |p| + PadLength(|p|)
  {
    p + seq(PadLength(|p|), _ => PadByte(PadLength(|p|)))
  }

  function PadByte(n: nat): (c: byte)
    requires n <= BLOCK
    ensures c as int == n
  {
    n as char
  }

  /** f on each block in turn. */
  function Blocks(f: (Bytes, Bytes) -> Bytes, key: Bytes, data: Bytes): Bytes
    requires |data| % BLOCK == 0
  {
    if data == [] then [] else f(key, data[..BLOCK]) + Blocks(f, key, data[BLOCK..])
  }

  /** bytes.LastIndexByte(s, '}'). */
  function LastBrace(s: Bytes): (i: int)
    ensures -1 <= i < |s|
  {
    if s == [] then -1 else if s[|s| - 1] == '}' then |s| - 1 else LastBrace(s[..|s| - 1])
  }

  function ToLastBrace(s: Bytes): Bytes {
    if LastBrace(s) >= 0 then s[..LastBrace(s) + 1] else s
  }

  function Encrypt(p: Bytes, key: Bytes, enc: (Bytes, Bytes) -> Bytes, encode: Bytes -> string)
    : Result<string, PackError>
  {
    if !KeySizeOk(key) then Err(BadKeySize) else Ok(encode(Blocks(enc, key, Pad(p))))
  }

  function Decrypt(pack: string, key: Bytes, dec: (Bytes, Bytes) -> Bytes, decode: string -> Option<Bytes>)
    : Result<Bytes, PackError>
  {
    match decode(pack)
    case None => Err(BadBase64)
    case Some(data) =>
      if !KeySizeOk(key) then Err(BadKeySize)
      else if |data| % BLOCK != 0 then Err(NotAligned)
      else Ok(ToLastBrace(Blocks(dec, key, data)))
  }

  // ---- Round trip ------------------------------------------------------------------------

  lemma LastBraceUnique(s: Bytes, i: nat)
    requires i < |s| && s[i] == '}' && forall j :: i < j < |s| ==> s[j] != '}'
    ensures LastBrace(s) == i
  {
    if i < |s| - 1 { LastBraceUnique(s[..|s| - 1], i); }
  }

  lemma {:induction false} NoBrace(s: Bytes)
    ensures LastBrace(s) >= 0 ==> s[LastBrace(s)] == '}' && forall j :: LastBrace(s) < j < |s| ==> s[j] != '}'
    ensures LastBrace(s) == -1 ==> forall j :: 0 <= j < |s| ==> s[j] != '}'
  {
    if s != [] && s[|s| - 1] != '}' {
      NoBrace(s[..|s| - 1]);
      assert forall j :: 0 <= j < |s| - 1 ==> s[j] == s[..|s| - 1][j];
    }
  }

  lemma {:induction false} BlocksLength(f: (Bytes, Bytes) -> Bytes, key: Bytes, data: Bytes)
    requires Blockwise(f) && |data| % BLOCK == 0
    ensures |Blocks(f, key, data)| == |data|
  {
    if data != [] { BlocksLength(f, key, data[BLOCK..]); }
  }

  lemma {:induction false} BlocksUndone(enc: (Bytes, Bytes) -> Bytes, dec: (Bytes, Bytes) -> Bytes,
                                        key: Bytes, data: Bytes)
    requires Cipher(enc, dec) && |data| % BLOCK == 0
    ensures |Blocks(enc, key, data)| % BLOCK == 0 && Blocks(dec, key, Blocks(enc, key, data)) == data
  {
    BlocksLength(enc, key, data);
    if data != [] {
      var head, rest := data[..BLOCK], data[BLOCK..];
      BlocksUndone(enc, dec, key, rest);
      BlockUndone(enc, dec, key, head, rest, Blocks(enc, key, rest));
      assert data == head + rest;
    }
  }

  lemma BlockUndone(enc: (Bytes, Bytes) -> Bytes, dec: (Bytes, Bytes) -> Bytes, key: Bytes, head: Bytes,
                    rest: Bytes, sealed: Bytes)
    requires Cipher(enc, dec) && |head| == BLOCK && |sealed| % BLOCK == 0 && Blocks(dec, key, sealed) == rest
    ensures |enc(key, head) + sealed| % BLOCK == 0 && Blocks(dec, key, enc(key, head) + sealed) == head + rest
  {
    FirstBlock(dec, key, enc(key, head), sealed);
  }

  lemma FirstBlock(f: (Bytes, Bytes) -> Bytes, key: Bytes, head: Bytes, rest: Bytes)
    requires |head| == BLOCK && |rest| % BLOCK == 0
    ensures (|head| + |rest|) % BLOCK == 0 && Blocks(f, key, head + rest) == f(key, head) + Blocks(f, key, rest)
  {
    assert (head + rest)[..BLOCK] == head && (head + rest)[BLOCK..] == rest;
  }

  lemma PadsAreSmall(p: Bytes)
    ensures forall j :: |p| <= j < |Pad(p)| ==> Pad(p)[j] != '}'
    ensures forall j :: 0 <= j < |p| ==> Pad(p)[j] == p[j]
  {
    assert forall j :: |p| <= j < |Pad(p)| ==> Pad(p)[j] as int <= BLOCK;
  }

  lemma LastBraceKept(p: Bytes)
    requires LastBrace(p) >= 0
    ensures LastBrace(Pad(p)) == LastBrace(p)
  {
    NoBrace(p);
    PadsAreSmall(p);
    LastBraceUnique(Pad(p), LastBrace(p));
  }

  lemma StillNoBrace(p: Bytes)
    requires LastBrace(p) == -1
    ensures LastBrace(Pad(p)) == -1
  {
    NoBrace(p);
    PadsAreSmall(p);
    NoBrace(Pad(p));
  }

  /** A pad byte is never a brace, so padding does not move the last one. */
  lemma PaddingHidesNoBrace(p: Bytes)
    ensures ToLastBrace(Pad(p)) == if LastBrace(p) >= 0 then ToLastBrace(p) else Pad(p)
  {
    if LastBrace(p) >= 0 {
      LastBraceKept(p);
      assert Pad(p)[..LastBrace(p) + 1] == p[..LastBrace(p) + 1];
    } else {
      StillNoBrace(p);
    }
  }

  lemma DecryptSealed(pack: string, key: Bytes, dec: (Bytes, Bytes) -> Bytes, decode: string -> Option<Bytes>,
                      sealed: Bytes)
    requires decode(pack) == Some(sealed) && KeySizeOk(key) && |sealed| % BLOCK == 0
    ensures Decrypt(pack, key, dec, decode) == Ok(ToLastBrace(Blocks(dec, key, sealed)))
  {
  }

  /** Decrypting an encrypted text gives it up to its last brace, or the padded text when it has none. */
  lemma RoundTrip(p: Bytes, key: Bytes, enc: (Bytes, Bytes) -> Bytes, dec: (Bytes, Bytes) -> Bytes,
                  encode: Bytes -> string, decode: string -> Option<Bytes>)
    requires Cipher(enc, dec) && Base64(encode, decode) && KeySizeOk(key)
    ensures var pack := Encrypt(p, key, enc, encode);
            && pack.Ok?
            && Decrypt(pack.value, key, dec, decode) == Ok(if LastBrace(p) >= 0 then ToLastBrace(p) else Pad(p))
  {
    var sealed := Blocks(enc, key, Pad(p));
    BlocksUndone(enc, dec, key, Pad(p));
    DecryptSealed(encode(sealed), key, dec, decode, sealed);
    PaddingHidesNoBrace(p);
  }

  /** Padding is taken off as section 6.3 of RFC 5652 describes: the last byte says how many bytes were
      added, and all of these say the same. */
  function Unpad(s: Bytes): Option<Bytes> {
    if s == [] then None
    else
      var n := s[|s| - 1] as int;
      if 1 <= n <= 16 && n <= |s| && forall i :: |s| - n <= i < |s| ==> s[i] as int == n then Some(s[..|s| - n])
      else None
  }

  lemma UnpadPad(p: Bytes)
    ensures Unpad(Pad(p)) == Some(p)
  {
    var n := PadLength(|p|);
    assert forall i :: |p| <= i < |Pad(p)| ==> Pad(p)[i] as int == n;
    assert Pad(p)[..|p|] == p;
  }

  /** Any receiver that decrypts the blocks and takes off the padding reads exactly the text. */
  lemma ReceiverReads(p: Bytes, key: Bytes, enc: (Bytes, Bytes) -> Bytes, dec: (Bytes, Bytes) -> Bytes,
                      encode: Bytes -> string, decode: string -> Option<Bytes>) returns (sealed: Bytes)
    requires Cipher(enc, dec) && Base64(encode, decode) && |key| in {16, 24, 32}
    ensures var pack := Encrypt(p, key, enc, encode);
            && pack.Ok? && decode(pack.value) == Some(sealed) && |sealed| % 16 == 0
            && Unpad(Blocks(dec, key, sealed)) == Some(p)
  {
    sealed := Blocks(enc, key, Pad(p));
    BlocksUndone(enc, dec, key, Pad(p));
    UnpadPad(p);
  }

  /** The round trip gives the text back exactly when it ends in a brace, as every JSON object does. */
  lemma RoundTripIff(p: Bytes, key: Bytes, enc: (Bytes, Bytes) -> Bytes, dec: (Bytes, Bytes) -> Bytes,
                     encode: Bytes -> string, decode: string -> Option<Bytes>)
    requires Cipher(enc, dec) && Base64(encode, decode) && KeySizeOk(key)
    ensures Decrypt(Encrypt(p, key, enc, encode).value, key, dec, decode) == Ok(p)
       <==> p != [] && p[|p| - 1] == '}'
  {
    RoundTrip(p, key, enc, dec, encode, decode);
    NoBrace(p);
    if p != [] && p[|p| - 1] == '}' {
      assert p[..|p|] == p;
    } else {
      assert LastBrace(p) >= 0 ==> LastBrace(p) + 1 < |p|;
      assert |Pad(p)| != |p|;
    }
  }

  // ---- The block loop ---------------------------------------------------------------------------

  method WriteBlock(out: array<byte>, i: nat, block: Bytes)
    requires |block| == BLOCK && i + BLOCK <= out.Length
    modifies out
    ensures out[..i + BLOCK] == old(out[..i]) + block
  {
    forall j | 0 <= j < BLOCK {
      out[i + j] := block[j];
    }
  }

  lemma NextBlock(f: (Bytes, Bytes) -> Bytes, key: Bytes, data: Bytes, i: nat, done: Bytes)
    requires |data| % BLOCK == 0 && i % BLOCK == 0 && i < |data|
    ensures i + BLOCK <= |data| && (|data| - i) % BLOCK == 0 && (|data| - i - BLOCK) % BLOCK == 0
    ensures done + Blocks(f, key, data[i..]) == done + f(key, data[i..i + BLOCK]) + Blocks(f, key, data[i + BLOCK..])
  {
    assert data[i..] == data[i..i + BLOCK] + data[i + BLOCK..];
    FirstBlock(f, key, data[i..i + BLOCK], data[i + BLOCK..]);
    Assoc(done, f(key, data[i..i + BLOCK]), Blocks(f, key, data[i + BLOCK..]));
  }

  /** One turn of the block loop. */
  method CipherBlock(f: (Bytes, Bytes) -> Bytes, key: Bytes, data: Bytes, out: array<byte>, i: nat)
    requires Blockwise(f) && |data| % BLOCK == 0 && i % BLOCK == 0 && i < |data| == out.Length
    requires Blocks(f, key, data) == out[..i] + Blocks(f, key, data[i..])
    modifies out
    ensures i + BLOCK <= |data| && (|data| - i - BLOCK) % BLOCK == 0
    ensures Blocks(f, key, data) == out[..i + BLOCK] + Blocks(f, key, data[i + BLOCK..])
  {
    NextBlock(f, key, data, i, out[..i]);
    WriteBlock(out, i, f(key, data[i..i + BLOCK]));
  }

  /** The loop that encrypts, or decrypts, a buffer block by block. */
  method EachBlock(f: (Bytes, Bytes) -> Bytes, key: Bytes, data: Bytes) returns (out: array<byte>)
    requires Blockwise(f) && |data| % BLOCK == 0
    ensures fresh(out) && out[..] == Blocks(f, key, data)
  {
    out := new byte[|data|](_ => '\0');
    var i := 0;
    assert data[0..] == data;
    while i < |data|
      invariant 0 <= i <= |data| && i % BLOCK == 0
      invariant Blocks(f, key, data) == out[..i] + Blocks(f, key, data[i..])
    {
      CipherBlock(f, key, data, out, i);
      i := i + BLOCK;
    }
  }

  method EncryptPack(p: Bytes, key: Bytes, enc: (Bytes, Bytes) -> Bytes, encode: Bytes -> string)
    returns (r: Result<string, PackError>)
    requires Blockwise(enc)
    ensures r == Encrypt(p, key, enc, encode)
  {
    if !KeySizeOk(key) { return Err(BadKeySize); }
    var padLen := BLOCK - |p| % BLOCK;
    var out := EachBlock(enc, key, p + seq(padLen, _ => PadByte(padLen)));
    r := Ok(encode(out[..]));
  }

  method DecryptPack(pack: string, key: Bytes, dec: (Bytes, Bytes) -> Bytes, decode: string -> Option<Bytes>)
    returns (r: Result<Bytes, PackError>)
    requires Blockwise(dec)
    ensures r == Decrypt(pack, key, dec, decode)
  {
    var data := decode(pack);
    if data.None? { return Err(BadBase64); }
    if !KeySizeOk(key) { return Err(BadKeySize); }
    if |data.value| % BLOCK != 0 { return Err(NotAligned); }
    var out := EachBlock(dec, key, data.value);
    var i := LastBrace(out[..]);
    r := if i >= 0 then Ok(out[..i + 1]) else Ok(out[..]);
  }
}
