/**
 The key encoder of key.go: the data segment of "/type/subtype/data/rest" is replaced by
 the length and the bytes of its ciphertext, which may itself contain '/'.
 */
module KeyCodec {
  import opened Bytes
  import opened Hmac
  import Records

  /** The wrapped encoder (keyencode.KeyEncoder). */
  datatype Inner = Inner(enc: Bytes -> Bytes, dec: Bytes -> Decoding) {
    ghost predicate Valid() { forall s :: dec(enc(s)) == Plain(s) }
  }

  ghost function HmacInner(e: Encoder): (c: Inner)
    requires e.Valid()
    ensures c.Valid()
  {
    var c := Inner(s => Hmac.Encode(e, s), s => Hmac.Decode(e, s));
    assert c.Valid() by {
      forall s ensures c.dec(c.enc(s)) == Plain(s) { RoundTrip(e, s); }
    }
    c
  }

  const USER: Bytes := [117, 115, 101, 114]
  const CHAN: Bytes := [99, 104, 97, 110]
  const OPER: Bytes := [111, 112, 101, 114]
  const CTL: Bytes := [99, 116, 108]
  const MSG: Bytes := [109, 115, 103]
  const NICKS: Bytes := [110, 105, 99, 107, 115]

  lemma WordsSpelled()
    ensures USER == Ascii("user") && CHAN == Ascii("chan") && OPER == Ascii("oper")
    ensures CTL == Ascii("ctl") && MSG == Ascii("msg") && NICKS == Ascii("nicks")
  {
  }

  predicate Known(kind: Bytes, sub: Bytes) {
    || (kind == USER && (sub == MSG || sub == CTL))
    || (kind == CHAN && (sub == MSG || sub == CTL || sub == NICKS))
    || kind == OPER
  }

  /** splitKey; `None` is a panic. */
  function SplitKey(s: Bytes): (r: Records.Option<seq<Bytes>>)
    ensures r.Some? ==> |r.value| > 3
  {
    var ss := Split(s);
    if |ss| > 3 && Known(ss[1], ss[2]) then Records.Some(ss) else Records.None
  }

  function Encode(c: Inner, s: Bytes): Records.Option<Bytes> {
    match SplitKey(s)
    case None => Records.None
    case Some(ss) =>
      if ss[3] == [] then Records.Some(s)
      else
        var sse := c.enc(Join(ss[..4]));
        Records.Some(Join(ss[3 := Digits(|sse|, false) + [SLASH] + sse]))
  }

  function Decode(c: Inner, s: Bytes): Decoding {
    match SplitKey(s)
    case None => Panic
    case Some(ss) =>
      var (ok, enclen) := ScanNumber(ss[3]);
      var pfxlen := |Join(ss[..4])|;
      if !ok || pfxlen + enclen + 1 > |s| then Panic
      else
        match c.dec(s[pfxlen + 1..pfxlen + enclen + 1])
        case Panic => Panic
        case Bad => Bad
        case Plain(dec) =>
          var ds := Split(dec);
          if |ds| <= 3 then Panic
          else Plain(Stitch(ss[1], ss[2], ds[3] + s[pfxlen + enclen + 1..]))
  }

  function Stitch(kind: Bytes, sub: Bytes, tail: Bytes): Bytes {
    [SLASH] + kind + [SLASH] + sub + [SLASH] + tail
  }

  // ----- keys by their parts

  /** `lead` is what precedes the first '/'; `rest` is empty or starts with '/'. */
  datatype Parts = Parts(lead: Bytes, kind: Bytes, sub: Bytes, data: Bytes, rest: Bytes) {
    predicate Wf() {
      && NoSlash(lead) && NoSlash(kind) && NoSlash(sub) && NoSlash(data)
      && (rest == [] || rest[0] == SLASH)
      && Known(kind, sub)
    }

    function Text(): Bytes {
      lead + [SLASH] + (kind + [SLASH] + (sub + [SLASH] + (data + rest)))
    }

    /** What the wrapped encoder sees. */
    function Head(): Bytes {
      lead + [SLASH] + (kind + [SLASH] + (sub + [SLASH] + data))
    }
  }

  function Tail(ss: seq<Bytes>): Bytes
    requires |ss| > 3
  {
    if |ss| == 4 then [] else [SLASH] + Join(ss[4..])
  }

  lemma JoinFour(ss: seq<Bytes>)
    requires |ss| > 3
    ensures Join(ss) == ss[0] + [SLASH] + (ss[1] + [SLASH] + (ss[2] + [SLASH] + (ss[3] + Tail(ss))))
  {
    JoinThree(ss[1..]);
    assert ss[1..][3..] == ss[4..];
  }

  lemma JoinThree(ss: seq<Bytes>)
    requires |ss| > 2
    ensures Join(ss) == ss[0] + [SLASH] + (ss[1] + [SLASH] + (ss[2] + After(ss)))
  {
    assert Join(ss[1..]) == ss[1] + [SLASH] + Join(ss[2..]) by { assert ss[1..][1..] == ss[2..]; }
    assert Join(ss[2..]) == ss[2] + After(ss) by { JoinLast(ss[2..]); assert ss[2..][1..] == ss[3..]; }
  }

  lemma JoinLast(ss: seq<Bytes>)
    requires ss != []
    ensures Join(ss) == ss[0] + if |ss| == 1 then [] else [SLASH] + Join(ss[1..])
  {
    if |ss| == 1 { assert ss[0] + [] == ss[0]; }
  }

  function After(ss: seq<Bytes>): Bytes
    requires |ss| > 2
  {
    if |ss| == 3 then [] else [SLASH] + Join(ss[3..])
  }

  lemma {:induction false} SplitNoSlash(s: Bytes, i: nat)
    requires i < |Split(s)|
    ensures NoSlash(Split(s)[i])
  {
    if s != [] {
      var r := Split(s[1..]);
      if s[0] == SLASH {
        if i > 0 { SplitNoSlash(s[1..], i - 1); }
      } else {
        SplitNoSlash(s[1..], i);
      }
    }
  }

  lemma {:induction false} SplitParts(p: Parts)
    requires p.Wf()
    ensures |Split(p.Text())| > 3
    ensures Split(p.Text())[..4] == [p.lead, p.kind, p.sub, p.data]
    ensures Tail(Split(p.Text())) == p.rest
  {
    var x := p.data + p.rest;
    SplitData(p.data, p.rest);
    SplitThree(p.lead, p.kind, p.sub, x);
    var ss := Split(p.Text());
    assert ss[3..] == Split(x);
    assert ss[3] == Split(x)[0] && ss[4..] == Split(x)[1..];
  }

  lemma SplitThree(a: Bytes, b: Bytes, d: Bytes, x: Bytes)
    requires NoSlash(a) && NoSlash(b) && NoSlash(d)
    ensures Split(a + [SLASH] + (b + [SLASH] + (d + [SLASH] + x))) == [a, b, d] + Split(x)
  {
    var y := d + [SLASH] + x;
    var z := b + [SLASH] + y;
    SplitSegment(d, x);
    SplitSegment(b, y);
    SplitSegment(a, z);
  }

  lemma SplitData(data: Bytes, rest: Bytes)
    requires NoSlash(data) && (rest == [] || rest[0] == SLASH)
    ensures Split(data + rest)[0] == data
    ensures rest == if |Split(data + rest)| == 1 then [] else [SLASH] + Join(Split(data + rest)[1..])
  {
    if rest == [] {
      assert data + rest == data;
      SplitWhole(data);
    } else {
      assert data + rest == data + [SLASH] + rest[1..];
      SplitSegment(data, rest[1..]);
      JoinSplit(rest[1..]);
      assert Split(data + rest)[1..] == Split(rest[1..]);
    }
  }

  function PartsOf(ss: seq<Bytes>): Parts
    requires |ss| > 3
  {
    Parts(ss[0], ss[1], ss[2], ss[3], Tail(ss))
  }

  /** Every key that splitKey accepts is the text of its parts. */
  lemma KeyParts(s: Bytes)
    requires SplitKey(s).Some?
    ensures PartsOf(Split(s)).Wf() && PartsOf(Split(s)).Text() == s
  {
    var ss := Split(s);
    SplitNoSlash(s, 0);
    SplitNoSlash(s, 1);
    SplitNoSlash(s, 2);
    SplitNoSlash(s, 3);
    JoinSplit(s);
    JoinFour(ss);
  }

  lemma PartsKey(p: Parts)
    requires p.Wf()
    ensures SplitKey(p.Text()).Some?
    ensures PartsOf(Split(p.Text())) == p
  {
    SplitParts(p);
    var ss := Split(p.Text());
    assert ss[..4][0] == p.lead && ss[..4][1] == p.kind && ss[..4][2] == p.sub && ss[..4][3] == p.data;
  }

  /** The keys there are: /user/{msg,ctl}/..., /chan/{msg,ctl,nicks}/... and /oper/<anything>/... . */
  predicate Grammar(s: Bytes, lead: Bytes, sub: Bytes, tail: Bytes) {
    && NoSlash(lead) && NoSlash(sub)
    && (|| (s == lead + Ascii("/user/") + sub + Ascii("/") + tail && sub in [Ascii("msg"), Ascii("ctl")])
        || (s == lead + Ascii("/chan/") + sub + Ascii("/") + tail
            && sub in [Ascii("msg"), Ascii("ctl"), Ascii("nicks")])
        || s == lead + Ascii("/oper/") + sub + Ascii("/") + tail)
  }

  lemma Spelling(lead: Bytes, kind: Bytes, word: Bytes, sub: Bytes, tail: Bytes)
    requires word == [SLASH] + kind + [SLASH]
    ensures lead + word + sub + [SLASH] + tail == lead + [SLASH] + (kind + [SLASH] + (sub + [SLASH] + tail))
  {
  }

  lemma SlashedWords()
    ensures Ascii("/user/") == [SLASH] + USER + [SLASH] && Ascii("/chan/") == [SLASH] + CHAN + [SLASH]
    ensures Ascii("/oper/") == [SLASH] + OPER + [SLASH] && Ascii("/") == [SLASH]
  {
  }

  lemma SpelledKey(lead: Bytes, kind: Bytes, sub: Bytes, tail: Bytes)
    requires NoSlash(lead) && NoSlash(kind) && NoSlash(sub) && Known(kind, sub)
    ensures SplitKey(lead + [SLASH] + (kind + [SLASH] + (sub + [SLASH] + tail))).Some?
  {
    SplitThree(lead, kind, sub, tail);
  }

  /** splitKey accepts exactly these keys, and panics on every other string. */
  lemma SplitKeyExactly(s: Bytes)
    ensures SplitKey(s).Some? <==> exists lead, sub, tail :: Grammar(s, lead, sub, tail)
  {
    WordsSpelled();
    SlashedWords();
    if SplitKey(s).Some? {
      KeyParts(s);
      var p := PartsOf(Split(s));
      Spelling(p.lead, p.kind, [SLASH] + p.kind + [SLASH], p.sub, p.data + p.rest);
      assert Grammar(s, p.lead, p.sub, p.data + p.rest);
    }
    if lead, sub, tail :| Grammar(s, lead, sub, tail) { GrammarKnown(s, lead, sub, tail); }
  }

  lemma GrammarKnown(s: Bytes, lead: Bytes, sub: Bytes, tail: Bytes)
    requires Grammar(s, lead, sub, tail)
    ensures SplitKey(s).Some?
  {
    WordsSpelled();
    SlashedWords();
    var kind := if s == lead + Ascii("/oper/") + sub + Ascii("/") + tail then OPER
                else if s == lead + Ascii("/chan/") + sub + Ascii("/") + tail && sub in [MSG, CTL, NICKS] then CHAN
                else USER;
    Spelling(lead, kind, [SLASH] + kind + [SLASH], sub, tail);
    SpelledKey(lead, kind, sub, tail);
  }

  /** The parts of the encoded form of a key with data. */
  function Sealed(c: Inner, p: Parts): (r: Parts)
    ensures p.Wf() ==> r.Wf()
  {
    var sse := c.enc(p.Head());
    p.(data := Digits(|sse|, false), rest := [SLASH] + sse + p.rest)
  }

  lemma HeadJoin(ss: seq<Bytes>)
    requires |ss| > 3
    ensures Join(ss[..4]) == PartsOf(ss).Head()
  {
    JoinFour(ss[..4]);
    assert ss[3] + [] == ss[3];
  }

  /** Replacing the data segment replaces it in the text. */
  lemma JoinReplaced(ss: seq<Bytes>, data: Bytes, more: Bytes)
    requires |ss| > 3
    ensures Join(ss[3 := data + more]) == PartsOf(ss).(data := data, rest := more + Tail(ss)).Text()
  {
    var ss' := ss[3 := data + more];
    JoinFour(ss');
    assert ss'[4..] == ss[4..];
    assert (data + more) + Tail(ss) == data + (more + Tail(ss));
  }

  lemma EncodeShape(c: Inner, p: Parts)
    requires p.Wf()
    ensures Encode(c, p.Text()) == Records.Some(if p.data == [] then p.Text() else Sealed(c, p).Text())
  {
    PartsKey(p);
    var ss := Split(p.Text());
    if p.data != [] {
      HeadJoin(ss);
      var sse := c.enc(p.Head());
      var n := Digits(|sse|, false);
      JoinReplaced(ss, n, [SLASH] + sse);
      assert n + ([SLASH] + sse) == n + [SLASH] + sse;
    }
  }

  /** Keys that the encoder is meant for: rooted, with a data segment. */
  predicate GoodKey(k: Bytes) {
    SplitKey(k).Some? && Split(k)[0] == [] && Split(k)[3] != []
  }

  /** Where the ciphertext lies in an encoded key. */
  lemma SealedSlices(q: Parts, sse: Bytes, rest: Bytes)
    requires q.rest == [SLASH] + sse + rest
    ensures var n := |q.Head()|;
      |q.Text()| == n + 1 + |sse| + |rest| && q.Text()[n + 1..n + |sse| + 1] == sse && q.Text()[n + |sse| + 1..] == rest
  {
    assert q.Text() == q.Head() + q.rest;
  }

  lemma HeadSplits(p: Parts)
    requires p.Wf()
    ensures |Split(p.Head())| > 3 && Split(p.Head())[3] == p.data
  {
    var h := p.(rest := []);
    assert p.data + [] == p.data;
    assert h.Text() == p.Head();
    PartsKey(h);
  }

  /** Decoding an encoded key recovers everything but what preceded the first '/'. */
  lemma DecodeSealed(c: Inner, p: Parts)
    requires c.Valid() && p.Wf() && p.data != []
    ensures Decode(c, Sealed(c, p).Text()) == Plain(p.(lead := []).Text())
  {
    var q, sse := Sealed(c, p), c.enc(p.Head());
    var s, ss := q.Text(), Split(q.Text());
    PartsKey(q);
    HeadJoin(ss);
    ScanPrinted(|sse|);
    SealedSlices(q, sse, p.rest);
    HeadSplits(p);
    assert ScanNumber(ss[3]) == (true, |sse|);
    assert c.dec(sse) == Plain(p.Head());
    StitchText(p);
  }

  lemma StitchText(p: Parts)
    ensures Stitch(p.kind, p.sub, p.data + p.rest) == p.(lead := []).Text()
  {
    var x := p.data + p.rest;
    assert [SLASH] + p.kind + [SLASH] + p.sub + [SLASH] + x ==
           [] + [SLASH] + (p.kind + [SLASH] + (p.sub + [SLASH] + x));
  }

  /**
   The round trip holds exactly for rooted keys with a data segment, whatever bytes the
   ciphertext has: any other key splitKey accepts comes back changed or panics.
   */
  lemma RoundTripExactly(c: Inner, k: Bytes)
    requires c.Valid() && SplitKey(k).Some?
    ensures Encode(c, k).Some?
    ensures Decode(c, Encode(c, k).value) == Plain(k) <==> GoodKey(k)
  {
    KeyParts(k);
    var p := PartsOf(Split(k));
    EncodeShape(c, p);
    if p.data == [] {
      assert LeadingDigits([]) == [];
    } else {
      DecodeSealed(c, p);
      if p.lead == [] {
        assert p.(lead := []) == p;
      } else {
        assert p.Text()[0] == p.lead[0];
      }
    }
  }

  // ----- prefixes

  lemma HeadInjective(p: Parts, q: Parts)
    requires p.Wf() && q.Wf() && p.Head() == q.Head()
    ensures p.(rest := []) == q.(rest := [])
  {
    var p', q' := p.(rest := []), q.(rest := []);
    assert p.data + [] == p.data && q.data + [] == q.data;
    assert p'.Text() == p.Head() && q'.Text() == q.Head();
    PartsKey(p');
    PartsKey(q');
  }

  lemma TextPrefix(p: Parts, k: Parts)
    requires p.Wf() && k.Wf()
    ensures p.Text() <= k.Text() <==>
      p.lead == k.lead && p.kind == k.kind && p.sub == k.sub && p.data + p.rest <= k.data + k.rest
  {
    SegmentPrefix(p.lead, p.kind + [SLASH] + (p.sub + [SLASH] + (p.data + p.rest)),
                  k.lead, k.kind + [SLASH] + (k.sub + [SLASH] + (k.data + k.rest)));
    SegmentPrefix(p.kind, p.sub + [SLASH] + (p.data + p.rest), k.kind, k.sub + [SLASH] + (k.data + k.rest));
    SegmentPrefix(p.sub, p.data + p.rest, k.sub, k.data + k.rest);
  }

  /** A data segment followed by '/' is a prefix of a data segment and its rest only if it is that segment. */
  lemma DataPrefix(p: Parts, k: Parts)
    requires p.Wf() && k.Wf() && p.rest != []
    ensures p.data + p.rest <= k.data + k.rest <==> p.data == k.data && p.rest <= k.rest
  {
    assert p.data + p.rest == p.data + [SLASH] + p.rest[1..];
    if k.rest == [] {
      assert k.data + k.rest == k.data;
      assert (p.data + p.rest)[|p.data|] == SLASH;
    } else {
      assert k.data + k.rest == k.data + [SLASH] + k.rest[1..];
      SegmentPrefix(p.data, p.rest[1..], k.data, k.rest[1..]);
      assert p.rest == [SLASH] + p.rest[1..] && k.rest == [SLASH] + k.rest[1..];
    }
  }

  /** Encoded keys are prefixes of each other exactly when the data agree and the rests are prefixes. */
  lemma SealedPrefix(c: Inner, p: Parts, k: Parts)
    requires c.Valid() && p.Wf() && k.Wf()
    ensures Sealed(c, p).Text() <= Sealed(c, k).Text() <==>
      p.(rest := []) == k.(rest := []) && p.rest <= k.rest
  {
    var a, b := Sealed(c, p), Sealed(c, k);
    var x, y := c.enc(p.Head()), c.enc(k.Head());
    TextPrefix(a, b);
    DataPrefix(a, b);
    if a.Text() <= b.Text() {
      PrintedOnce(|x|, |y|, false);
      assert a.rest[1..1 + |x|] == x && b.rest[1..1 + |y|] == y;
      assert x == y;
      assert c.dec(x) == Plain(p.Head()) && c.dec(y) == Plain(k.Head());
      HeadInjective(p, k);
      assert a.rest[1 + |x|..] == p.rest && b.rest[1 + |x|..] == k.rest;
    }
    if p.(rest := []) == k.(rest := []) && p.rest <= k.rest {
      assert p.Head() == k.Head();
      assert a.rest <= b.rest;
    }
  }

  /** Prefixes that do not end inside a data segment, such as "/chan/nicks/#c/" and "/user/ctl/". */
  predicate WholePrefix(p: Bytes) {
    SplitKey(p).Some? && Split(p)[0] == [] && (Split(p)[3] == [] || |Split(p)| > 4)
  }

  predicate SamePrefix(c: Inner, p: Bytes, k: Bytes)
    requires Encode(c, p).Some? && Encode(c, k).Some?
  {
    p <= k <==> Encode(c, p).value <= Encode(c, k).value
  }

  /** Encoding preserves and reflects these prefixes. */
  lemma PrefixPreserved(c: Inner, p: Bytes, k: Bytes)
    requires c.Valid() && WholePrefix(p) && GoodKey(k)
    ensures Encode(c, p).Some? && Encode(c, k).Some?
    ensures SamePrefix(c, p, k)
  {
    KeyParts(p);
    KeyParts(k);
    var u, v := PartsOf(Split(p)), PartsOf(Split(k));
    EncodeShape(c, u);
    EncodeShape(c, v);
    TextPrefix(u, v);
    if u.data == [] {
      TextPrefix(u, Sealed(c, v));
      if u.rest == [] {
        assert u.data + u.rest == [];
      } else {
        DataPrefix(u, v);
        DataPrefix(u, Sealed(c, v));
      }
    } else {
      DataPrefix(u, v);
      SealedPrefix(c, u, v);
    }
  }

  /** Keys themselves are told apart: equality is preserved and reflected. */
  lemma EqualityPreserved(c: Inner, p: Bytes, k: Bytes)
    requires c.Valid() && GoodKey(k) && SplitKey(p).Some? && Split(p)[0] == []
    ensures Encode(c, p).Some? && Encode(c, k).Some?
    ensures p == k <==> Encode(c, p) == Encode(c, k)
  {
    RoundTripExactly(c, p);
    RoundTripExactly(c, k);
  }

  /** Among rooted prefixes it is exactly these: one ending inside a data segment misses a longer name. */
  lemma PrefixExactly(c: Inner, p: Bytes)
    requires c.Valid() && SplitKey(p).Some? && Split(p)[0] == []
    ensures Encode(c, p).Some? && forall k :: GoodKey(k) ==> Encode(c, k).Some?
    ensures (forall k :: GoodKey(k) ==> SamePrefix(c, p, k)) <==> WholePrefix(p)
  {
    RoundTripExactly(c, p);
    forall k | GoodKey(k) ensures Encode(c, k).Some? { RoundTripExactly(c, k); }
    if WholePrefix(p) {
      forall k | GoodKey(k) ensures SamePrefix(c, p, k) { PrefixPreserved(c, p, k); }
    } else {
      LongerNameMissed(c, p);
    }
  }

  lemma LongerNameMissed(c: Inner, p: Bytes)
    requires c.Valid() && GoodKey(p) && !WholePrefix(p)
    ensures GoodKey(p + [CHAN[0]]) && Encode(c, p).Some? && Encode(c, p + [CHAN[0]]).Some?
    ensures !SamePrefix(c, p, p + [CHAN[0]])
  {
    KeyParts(p);
    var u := PartsOf(Split(p));
    var v := u.(data := u.data + [CHAN[0]]);
    assert u.rest == [];
    assert v.Text() == p + [CHAN[0]];
    PartsKey(v);
    EncodeShape(c, u);
    EncodeShape(c, v);
    SealedPrefix(c, u, v);
    assert |u.data| != |v.data|;
  }
}
