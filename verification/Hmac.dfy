/**
 The HMAC key encoder (keyencode/encode.go): a hash of the plaintext, whose tail is the
 initial value of a counter-mode keystream over the PKCS#7-padded plaintext (section 6.3 of
 RFC 5652, section 6.5 of NIST SP 800-38A). Hash and keystream are uninterpreted.
 */
module Hmac {
  import opened Bytes

  datatype Decoding = Plain(text: Bytes) | Bad | Panic

  datatype Encoder = Encoder(hash: Bytes -> Bytes, keystream: (Bytes, nat) -> byte, hashSize: nat, blockSize: nat) {
    /** The hash has a fixed size that can fill a block, and a pad length fits in a byte. */
    ghost predicate Valid() {
      1 <= blockSize <= 255 && blockSize <= hashSize && forall s :: |hash(s)| == hashSize
    }
  }

  /** PKCS#7: one to blockSize bytes, each the number of pad bytes. */
  function Padding(n: nat, blockSize: nat): (r: Bytes)
    requires 1 <= blockSize <= 255
    ensures 1 <= |r| <= blockSize && (n + |r|) % blockSize == 0
    ensures forall i :: 0 <= i < |r| ==> r[i] == |r|
  {
    var count := blockSize - n % blockSize;
    PadsToBlock(n, blockSize);
    seq(count, _ => count)
  }

  lemma PadsToBlock(n: nat, b: nat)
    requires b >= 1
    ensures 1 <= b - n % b <= b && (n + (b - n % b)) % b == 0
  {
    var q := n / b;
    assert n == q * b + n % b;
    assert n + (b - n % b) == (q + 1) * b;
    MultipleMod(q + 1, b);
  }

  lemma MultipleMod(q: nat, b: nat)
    requires b >= 1
    ensures (q * b) % b == 0
  {
    var r := (q * b) % b;
    var p := (q * b) / b;
    assert q * b == p * b + r;
    assert r == (q - p) * b;
    assert q - p >= 1 ==> (q - p) * b >= b;
    assert q - p <= -1 ==> (q - p) * b + b <= 0;
  }

  function Mask(e: Encoder, iv: Bytes, s: Bytes): (r: Bytes)
    ensures |r| == |s|
  {
    seq<byte>(|s|, i requires 0 <= i < |s| => Xor(s[i], e.keystream(iv, i)))
  }

  function Iv(e: Encoder, header: Bytes): Bytes
    requires |header| == e.hashSize && e.blockSize <= e.hashSize
  {
    header[e.hashSize - e.blockSize..]
  }

  function Encode(e: Encoder, s: Bytes): Bytes
    requires e.Valid()
  {
    var h := e.hash(s);
    h + Mask(e, Iv(e, h), s + Padding(|s|, e.blockSize))
  }

  function Decode(e: Encoder, c: Bytes): Decoding
    requires e.Valid()
  {
    if |c| < e.hashSize then Panic
    else
      var header, ptxt := c[..e.hashSize], Mask(e, Iv(e, c[..e.hashSize]), c[e.hashSize..]);
      if ptxt == [] then Panic
      else
        var padlen := ptxt[|ptxt| - 1];
        if padlen > e.blockSize then Bad
        else if padlen > |ptxt| then Panic
        else
          var text := ptxt[..|ptxt| - padlen];
          if e.hash(text) == header then Plain(text) else Bad
  }

  lemma MaskTwice(e: Encoder, iv: Bytes, s: Bytes)
    ensures Mask(e, iv, Mask(e, iv, s)) == s
  {
    forall i | 0 <= i < |s| ensures Mask(e, iv, Mask(e, iv, s))[i] == s[i] {
      XorCancels(s[i], e.keystream(iv, i));
    }
  }

  /** What Decode finds where Encode put it. */
  lemma EncodedSlices(e: Encoder, s: Bytes)
    requires e.Valid()
    ensures var h, padded := e.hash(s), s + Padding(|s|, e.blockSize);
      && |Encode(e, s)| == e.hashSize + |padded|
      && Encode(e, s)[..e.hashSize] == h
      && Mask(e, Iv(e, h), Encode(e, s)[e.hashSize..]) == padded
  {
    var h, padded := e.hash(s), s + Padding(|s|, e.blockSize);
    var body := Mask(e, Iv(e, h), padded);
    assert |h| == e.hashSize;
    assert (h + body)[..e.hashSize] == h && (h + body)[e.hashSize..] == body;
    MaskTwice(e, Iv(e, h), padded);
  }

  lemma Unpad(s: Bytes, pad: Bytes)
    requires pad != [] && forall i :: 0 <= i < |pad| ==> pad[i] == |pad|
    ensures var t := s + pad; t[|t| - 1] == |pad| && t[..|t| - |pad|] == s
  {
  }

  /** Every string survives the round trip, for every block and hash size. */
  lemma RoundTrip(e: Encoder, s: Bytes)
    requires e.Valid()
    ensures Decode(e, Encode(e, s)) == Plain(s)
  {
    EncodedSlices(e, s);
    Unpad(s, Padding(|s|, e.blockSize));
  }

  /**
   What is stored: the hash of the text alone, then every byte of the text and of its padding
   under the keystream whose initial value is the last block of that hash.
   */
  lemma CiphertextBytes(e: Encoder, s: Bytes)
    requires e.Valid()
    ensures var c, pads := Encode(e, s), e.blockSize - |s| % e.blockSize;
      && 1 <= pads <= e.blockSize && |c| == e.hashSize + |s| + pads && c[..e.hashSize] == e.hash(s)
      && forall i :: 0 <= i < |s| + pads ==>
           c[e.hashSize + i] ==
             Xor(if i < |s| then s[i] else pads, e.keystream(e.hash(s)[e.hashSize - e.blockSize..], i))
  {
    var h, pad := e.hash(s), Padding(|s|, e.blockSize);
    var c, body := Encode(e, s), Mask(e, Iv(e, h), s + pad);
    assert c == h + body;
    forall i | 0 <= i < |s| + |pad|
      ensures c[e.hashSize + i] == Xor(if i < |s| then s[i] else |pad|, e.keystream(h[e.hashSize - e.blockSize..], i))
    {
      assert c[e.hashSize + i] == body[i];
      assert (s + pad)[i] == if i < |s| then s[i] else pad[i - |s|];
    }
  }

  /** The text that the body of a ciphertext holds, pad bytes included. */
  ghost predicate Unmasks(e: Encoder, c: Bytes, ptxt: Bytes)
    requires e.Valid() && |c| >= e.hashSize
  {
    && |ptxt| == |c| - e.hashSize
    && forall i :: 0 <= i < |ptxt| ==>
         ptxt[i] == Xor(c[e.hashSize + i], e.keystream(c[e.hashSize - e.blockSize..e.hashSize], i))
  }

  lemma MaskUnmasks(e: Encoder, c: Bytes)
    requires e.Valid() && |c| >= e.hashSize
    ensures Unmasks(e, c, Mask(e, Iv(e, c[..e.hashSize]), c[e.hashSize..]))
    ensures forall ptxt :: Unmasks(e, c, ptxt) ==> ptxt == Mask(e, Iv(e, c[..e.hashSize]), c[e.hashSize..])
  {
    assert c[..e.hashSize][e.hashSize - e.blockSize..] == c[e.hashSize - e.blockSize..e.hashSize];
    var m := Mask(e, Iv(e, c[..e.hashSize]), c[e.hashSize..]);
    forall ptxt | Unmasks(e, c, ptxt) ensures ptxt == m {
      forall i | 0 <= i < |ptxt| ensures ptxt[i] == m[i] { }
    }
  }

  /**
   What Decode does with any string, by what its body holds under the keystream: it panics exactly
   on a body without a byte and on a pad count within a block that exceeds the body; it is an error
   exactly if the count exceeds a block or the hash of what is left is not the header.
   */
  lemma DecodeExactly(e: Encoder, c: Bytes, ptxt: Bytes)
    requires e.Valid() && |c| >= e.hashSize && Unmasks(e, c, ptxt)
    ensures ptxt == [] ==> Decode(e, c) == Panic
    ensures ptxt != [] ==>
      var count := ptxt[|ptxt| - 1];
      && (Decode(e, c) == Panic <==> |ptxt| < count <= e.blockSize)
      && (Decode(e, c) == Bad <==>
            count > e.blockSize || (count <= |ptxt| && e.hash(ptxt[..|ptxt| - count]) != c[..e.hashSize]))
      && forall text :: Decode(e, c) == Plain(text) <==>
           count <= e.blockSize && count <= |ptxt| && text == ptxt[..|ptxt| - count] && e.hash(text) == c[..e.hashSize]
  {
    MaskUnmasks(e, c);
  }

  /** A string shorter than the hash panics. */
  lemma DecodeShort(e: Encoder, c: Bytes)
    requires e.Valid() && |c| < e.hashSize
    ensures Decode(e, c) == Panic
  {
  }

  /** Encoding is injective. */
  lemma EncodeInjective(e: Encoder, s: Bytes, t: Bytes)
    requires e.Valid() && Encode(e, s) == Encode(e, t)
    ensures s == t
  {
    RoundTrip(e, s);
    RoundTrip(e, t);
  }

  /** A plaintext is returned only if its hash is the given header, and it is what the body masks. */
  lemma DecodeAuthentic(e: Encoder, c: Bytes, text: Bytes)
    requires e.Valid() && Decode(e, c) == Plain(text)
    ensures |c| > e.hashSize && e.hash(text) == c[..e.hashSize]
    ensures text <= Mask(e, Iv(e, c[..e.hashSize]), c[e.hashSize..])
    ensures |c| - e.hashSize - |text| <= e.blockSize
  {
  }

  // ----- the code

  method EncodeBuffer(e: Encoder, s: Bytes) returns (r: Bytes)
    requires e.Valid()
    ensures r == Encode(e, s)
  {
    var ptxtHash := e.hash(s);
    var bs := e.blockSize;
    PadsToBlock(|s|, bs);
    var padding := new byte[bs - |s| % bs];
    for i := 0 to padding.Length
      invariant forall j :: 0 <= j < i ==> padding[j] == padding.Length
    {
      padding[i] := padding.Length;
    }
    assert padding[..] == Padding(|s|, bs);
    var ptxt := s + padding[..];
    var iv := ptxtHash[|ptxtHash| - bs..];
    var body := XorKeyStream(e, iv, ptxt);
    r := ptxtHash + body;
  }

  method DecodeBuffer(e: Encoder, c: Bytes) returns (r: Decoding)
    requires e.Valid()
    ensures r == Decode(e, c)
  {
    if |c| < e.hashSize { return Panic; }
    var ptxtHash, ctxt := c[..e.hashSize], c[e.hashSize..];
    var iv := ptxtHash[|ptxtHash| - e.blockSize..];
    var ptxt := XorKeyStream(e, iv, ctxt);
    if |ptxt| == 0 { return Panic; }
    var padlen := ptxt[|ptxt| - 1];
    if padlen > e.blockSize { return Bad; }
    if padlen > |ptxt| { return Panic; }
    ptxt := ptxt[..|ptxt| - padlen];
    return if e.hash(ptxt) == ptxtHash then Plain(ptxt) else Bad;
  }

  method XorKeyStream(e: Encoder, iv: Bytes, src: Bytes) returns (dst: Bytes)
    ensures dst == Mask(e, iv, src)
  {
    var buf := new byte[|src|];
    for i := 0 to |src|
      invariant forall j :: 0 <= j < i ==> buf[j] == Xor(src[j], e.keystream(iv, j))
    {
      buf[i] := Xor(src[i], e.keystream(iv, i));
    }
    dst := buf[..];
  }
}
