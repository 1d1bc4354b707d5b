/** The key builders of key.go: what the typed keys of the store look like as bytes. */
module KeyNames {
  import opened Bytes
  import opened KeyCodec
  import Hmac
  import Records
  import opened Etcd

  /** How a name is written in bytes: letter by letter, injectively, with '/' standing for itself. */
  ghost predicate Utf8(u: string -> Bytes) {
    && (forall a, b :: u(a) == u(b) ==> a == b)
    && (forall a :: u(a) == [] <==> a == [])
    && (forall a :: SLASH in u(a) <==> '/' in a)
    && (forall a, b :: Concatenates(u, a, b))
    && u("/") == [SLASH]
  }

  predicate Concatenates(u: string -> Bytes, a: string, b: string) { u(a + b) == u(a) + u(b) }

  function Kind(k: Key): Bytes {
    if k.UserCtl? || k.UserMsg? then USER else if k.OperCtl? then OPER else CHAN
  }

  function Subkind(k: Key): Bytes {
    if k.ChanNicks? then NICKS else if k.UserMsg? || k.ChanMsg? then MSG else CTL
  }

  function Name(k: Key): string {
    match k
    case UserCtl(n) => n
    case UserMsg(n) => n
    case ChanCtl(c) => c
    case ChanMsg(c) => c
    case ChanNicks(c, _) => c
    case OperCtl(n) => n
  }

  function NameTail(u: string -> Bytes, k: Key): Bytes {
    if k.ChanNicks? then u(k.ch) + [SLASH] + Digits(k.id, true) else u(Name(k))
  }

  /** keyUserCtl, keyUserMsg, keyChanCtl, keyChanMsg, keyChanNicks and keyOperCtl. */
  function Render(u: string -> Bytes, k: Key): Bytes { Stitch(Kind(k), Subkind(k), NameTail(u, k)) }

  /** keyChanNicksPfx. */
  function NicksPrefix(u: string -> Bytes, ch: string): Bytes { Stitch(CHAN, NICKS, u(ch) + [SLASH]) }

  lemma Spelling(start: Bytes, kind: Bytes, sub: Bytes, tail: Bytes)
    requires start == [SLASH] + kind + [SLASH] + sub + [SLASH]
    ensures Stitch(kind, sub, tail) == start + tail
  {
  }

  /** The keys of users, channels and operators as they are written. */
  lemma Spelled(u: string -> Bytes, n: string)
    ensures Render(u, UserCtl(n)) == Ascii("/user/ctl/") + u(n) && Render(u, UserMsg(n)) == Ascii("/user/msg/") + u(n)
    ensures Render(u, ChanCtl(n)) == Ascii("/chan/ctl/") + u(n) && Render(u, ChanMsg(n)) == Ascii("/chan/msg/") + u(n)
    ensures Render(u, OperCtl(n)) == Ascii("/oper/ctl/") + u(n)
  {
    Spelling(Ascii("/user/ctl/"), USER, CTL, u(n));
    Spelling(Ascii("/user/msg/"), USER, MSG, u(n));
    Spelling(Ascii("/chan/ctl/"), CHAN, CTL, u(n));
    Spelling(Ascii("/chan/msg/"), CHAN, MSG, u(n));
    Spelling(Ascii("/oper/ctl/"), OPER, CTL, u(n));
  }

  /** The keys of a channel's lists, ending in the lease in hexadecimal, and their prefix. */
  lemma ListsSpelled(u: string -> Bytes, ch: string, id: nat)
    ensures NicksPrefix(u, ch) == Ascii("/chan/nicks/") + (u(ch) + Ascii("/"))
    ensures Render(u, ChanNicks(ch, id)) == Ascii("/chan/nicks/") + (u(ch) + Ascii("/") + Digits(id, true))
    ensures ValueOf(Digits(id, true), true) == id
  {
    assert Ascii("/") == [SLASH];
    Spelling(Ascii("/chan/nicks/"), CHAN, NICKS, u(ch) + [SLASH]);
    Spelling(Ascii("/chan/nicks/"), CHAN, NICKS, u(ch) + [SLASH] + Digits(id, true));
    DigitsValue(id, true);
  }

  lemma StitchAs(kind: Bytes, sub: Bytes, tail: Bytes)
    ensures Stitch(kind, sub, tail) == [] + [SLASH] + (kind + [SLASH] + (sub + [SLASH] + tail))
  {
  }

  /** Stitched keys compare part by part. */
  lemma StitchPrefix(kind: Bytes, sub: Bytes, tail: Bytes, kind': Bytes, sub': Bytes, tail': Bytes)
    requires NoSlash(kind) && NoSlash(sub) && NoSlash(kind') && NoSlash(sub')
    ensures Stitch(kind, sub, tail) <= Stitch(kind', sub', tail') <==> kind == kind' && sub == sub' && tail <= tail'
  {
    StitchAs(kind, sub, tail);
    StitchAs(kind', sub', tail');
    var x, y := sub + [SLASH] + tail, sub' + [SLASH] + tail';
    SegmentPrefix([], kind + [SLASH] + x, [], kind' + [SLASH] + y);
    SegmentPrefix(kind, x, kind', y);
    SegmentPrefix(sub, tail, sub', tail');
  }

  /** A prefix that ends in '/' ends before the last segment. */
  lemma SlashEnds(a: Bytes, b: Bytes, ds: Bytes)
    requires NoSlash(ds)
    ensures a + [SLASH] <= b + [SLASH] + ds <==> a + [SLASH] <= b + [SLASH]
  {
    var p, q := a + [SLASH], b + [SLASH] + ds;
    assert b + [SLASH] <= q;
    assert p[|a|] == SLASH;
    if |p| <= |b| + 1 {
      assert q[..|p|] == (b + [SLASH])[..|p|];
    } else if |p| <= |q| {
      assert q[|a|] in ds;
    }
  }

  lemma ConstNames(k: Key)
    ensures NoSlash(Kind(k)) && NoSlash(Subkind(k)) && Known(Kind(k), Subkind(k))
  {
  }

  /** No two typed keys share their bytes, whatever '/' their names contain. */
  lemma RenderInjective(u: string -> Bytes, k: Key, l: Key)
    requires Utf8(u) && Render(u, k) == Render(u, l)
    ensures k == l
  {
    ConstNames(k);
    ConstNames(l);
    StitchPrefix(Kind(k), Subkind(k), NameTail(u, k), Kind(l), Subkind(l), NameTail(u, l));
    StitchPrefix(Kind(l), Subkind(l), NameTail(u, l), Kind(k), Subkind(k), NameTail(u, k));
    if k.ChanNicks? {
      var a, b := u(k.ch), u(l.ch);
      var d, e := Digits(k.id, true), Digits(l.id, true);
      assert a + [SLASH] + d == b + [SLASH] + e;
      SlashEnds(a, b, e);
      SlashEnds(b, a, d);
      assert a + [SLASH] <= b + [SLASH] && b + [SLASH] <= a + [SLASH];
      assert a == (a + [SLASH])[..|a|] && b == (b + [SLASH])[..|b|];
      assert d == (a + [SLASH] + d)[|a| + 1..] && e == (b + [SLASH] + e)[|b| + 1..];
      PrintedOnce(k.id, l.id, true);
    }
  }

  lemma StitchKey(kind: Bytes, sub: Bytes, tail: Bytes)
    requires NoSlash(kind) && NoSlash(sub) && Known(kind, sub)
    ensures SplitKey(Stitch(kind, sub, tail)).Some?
    ensures Split(Stitch(kind, sub, tail)) == [[], kind, sub] + Split(tail)
  {
    StitchAs(kind, sub, tail);
    SplitThree([], kind, sub, tail);
  }

  lemma FirstSegment(s: Bytes)
    ensures Split(s)[0] == [] <==> s == [] || s[0] == SLASH
  {
  }

  /** A name starts with '/' exactly when its bytes do. */
  lemma FirstByte(u: string -> Bytes, a: string)
    requires Utf8(u) && a != []
    ensures u(a) != [] && (u(a)[0] == SLASH <==> a[0] == '/')
  {
    var first := a[..1];
    assert a == first + a[1..];
    assert Concatenates(u, first, a[1..]);
    assert u(first) != [];
    assert u(a)[0] == u(first)[0];
    if a[0] == '/' {
      assert first == "/";
    } else {
      assert '/' !in first;
      assert u(first)[0] in u(first);
    }
  }

  /** The encoder is sound for exactly the keys whose name is not empty and does not start with '/'. */
  lemma GoodExactly(u: string -> Bytes, k: Key)
    requires Utf8(u)
    ensures GoodKey(Render(u, k)) <==> Name(k) != [] && Name(k)[0] != '/'
  {
    ConstNames(k);
    StitchKey(Kind(k), Subkind(k), NameTail(u, k));
    FirstSegment(NameTail(u, k));
    if Name(k) != [] { FirstByte(u, Name(k)); }
  }

  /** A nick that starts with '/' is stored in the clear, and its key comes back as a panic. */
  lemma SlashNickUnreadable(c: Inner, u: string -> Bytes, n: string)
    requires c.Valid() && Utf8(u) && "/" <= n
    ensures var k := Render(u, UserCtl(n));
      KeyCodec.Encode(c, k) == Records.Some(k) && KeyCodec.Decode(c, k) == Hmac.Panic
  {
    var key := UserCtl(n);
    FirstByte(u, n);
    ConstNames(key);
    StitchKey(Kind(key), Subkind(key), NameTail(u, key));
    FirstSegment(NameTail(u, key));
    assert LeadingDigits([]) == [];
  }

  /** Both kinds of prefix the server asks for end at a segment boundary. */
  lemma QueriedPrefixes(u: string -> Bytes, ch: string, k: Key)
    ensures WholePrefix(NicksPrefix(u, ch))
    ensures WholePrefix(Stitch(Kind(k), Subkind(k), []))
  {
    ConstNames(k);
    StitchKey(Kind(k), Subkind(k), []);
    StitchKey(CHAN, NICKS, u(ch) + [SLASH]);
    SplitLonger(u(ch), []);
    assert u(ch) + [SLASH] + [] == u(ch) + [SLASH];
  }

  lemma {:induction false} SplitLonger(a: Bytes, x: Bytes)
    ensures |Split(a + [SLASH] + x)| > 1
  {
    var s := a + [SLASH] + x;
    if a == [] {
      assert s[1..] == x;
    } else {
      assert s[1..] == a[1..] + [SLASH] + x;
      SplitLonger(a[1..], x);
    }
  }

  /** A SLASH in the bytes of a name is a '/' of the name, and splits it there. */
  lemma {:induction false} SlashAt(u: string -> Bytes, y: string, i: nat) returns (j: nat)
    requires Utf8(u) && i < |u(y)| && u(y)[i] == SLASH
    ensures j < |y| && y[j] == '/' && |u(y[..j])| == i && u(y[..j]) <= u(y)
    decreases |y|
  {
    assert y != [];
    var n := |y| - 1;
    var init, last := y[..n], y[n..];
    assert y == init + last;
    assert Concatenates(u, init, last);
    if i < |u(init)| {
      j := SlashAt(u, init, i);
      assert init[..j] == y[..j];
    } else {
      assert SLASH == u(last)[i - |u(init)|];
      assert '/' in last;
      assert last == "/";
      j := n;
    }
  }

  lemma SlashAfter(u: string -> Bytes, a: string)
    requires Utf8(u)
    ensures u(a + "/") == u(a) + [SLASH]
  {
    assert Concatenates(u, a, "/");
  }

  lemma PrefixWritten(u: string -> Bytes, x: string, y: string)
    requires Utf8(u) && x <= y
    ensures u(x) <= u(y)
  {
    assert y == x + y[|x|..];
    assert Concatenates(u, x, y[|x|..]);
  }

  lemma PrefixRead(u: string -> Bytes, a: string, y: string)
    requires Utf8(u) && u(a) + [SLASH] <= u(y)
    ensures a + "/" <= y
  {
    var i := |u(a)|;
    assert u(y)[i] == (u(a) + [SLASH])[i];
    var j := SlashAt(u, y, i);
    assert u(y[..j]) == u(y)[..i] == u(a);
    assert y[..j] == a;
    assert y[..j + 1] == a + "/";
  }

  /** Prefixes that end in '/' are prefixes in bytes exactly when they are prefixes in letters. */
  lemma SlashPrefix(u: string -> Bytes, a: string, b: string)
    requires Utf8(u)
    ensures u(a) + [SLASH] <= u(b) + [SLASH] <==> Under(a, b)
  {
    SlashAfter(u, a);
    SlashAfter(u, b);
    if Under(a, b) { PrefixWritten(u, a + "/", b + "/"); }
    if u(a) + [SLASH] <= u(b) + [SLASH] { PrefixRead(u, a, b + "/"); }
  }

  /** A scan of a channel's lists meets exactly those of the channels under its name. */
  lemma ScanExactly(u: string -> Bytes, ch: string, k: Key)
    requires Utf8(u)
    ensures NicksPrefix(u, ch) <= Render(u, k) <==> k.ChanNicks? && Under(ch, k.ch)
  {
    ConstNames(k);
    StitchPrefix(CHAN, NICKS, u(ch) + [SLASH], Kind(k), Subkind(k), NameTail(u, k));
    if k.ChanNicks? {
      SlashEnds(u(ch), u(k.ch), Digits(k.id, true));
      SlashPrefix(u, ch, k.ch);
    }
  }

  /** So a scan of "#a" meets the lists of "#a/b". */
  lemma ScanMeetsLonger(u: string -> Bytes, l: nat)
    requires Utf8(u)
    ensures NicksPrefix(u, "#a") <= Render(u, ChanNicks("#a/b", l))
  {
    ScanExactly(u, "#a", ChanNicks("#a/b", l));
    assert "#a/b/" == "#a/" + "b/";
  }

  /**
   A prefix scan of the encoded store meets exactly the typed lists of the channels under the
   name; among '/'-free names, those of the channel alone.
   */
  lemma EncodedScan(c: Inner, u: string -> Bytes, ch: string, k: Key)
    requires c.Valid() && Utf8(u) && Name(k) != [] && Name(k)[0] != '/'
    ensures GoodKey(Render(u, k)) && Encode(c, NicksPrefix(u, ch)).Some? && Encode(c, Render(u, k)).Some?
    ensures Encode(c, NicksPrefix(u, ch)).value <= Encode(c, Render(u, k)).value <==> k.ChanNicks? && Under(ch, k.ch)
    ensures '/' !in Name(k) ==>
      (Encode(c, NicksPrefix(u, ch)).value <= Encode(c, Render(u, k)).value <==> k.ChanNicks? && k.ch == ch)
  {
    GoodExactly(u, k);
    QueriedPrefixes(u, ch, k);
    PrefixPreserved(c, NicksPrefix(u, ch), Render(u, k));
    ScanExactly(u, ch, k);
    if '/' !in Name(k) && k.ChanNicks? && Under(ch, k.ch) { OnlyItself(ch, k.ch); }
  }

  lemma OnlyItself(a: string, b: string)
    requires '/' !in b && Under(a, b)
    ensures a == b
  {
    assert (a + "/")[|a|] == '/';
    assert a == (a + "/")[..|a|] && b == (b + "/")[..|b|];
  }
}
