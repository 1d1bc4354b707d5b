/** The encoder the server installs (internal/util/client.go): key.go around the HMAC encoder. */
module EncodedStore {
  import opened Bytes
  import opened Records
  import opened KeyCodec
  import opened KeyStore
  import Hmac
  import KeyWatch
  import KeyNames
  import Etcd

  predicate Rooted(k: Bytes) { SplitKey(k).Some? && Split(k)[0] == [] }

  /** The encoder of key.go with the keys it is sound for. */
  function IrcCoder(c: Inner): Coder {
    Coder(k => KeyCodec.Encode(c, k), x => KeyCodec.Decode(c, x), k => GoodKey(k), k => Rooted(k), p => WholePrefix(p))
  }

  lemma RootedEncodes(c: Inner, p: Bytes)
    requires Rooted(p)
    ensures KeyCodec.Encode(c, p).Some? && SlashFirst(p) && SlashFirst(KeyCodec.Encode(c, p).value)
  {
    KeyParts(p);
    var u := PartsOf(Split(p));
    EncodeShape(c, u);
    assert SlashFirst(u.Text()) && SlashFirst(Sealed(c, u).Text());
  }

  predicate SlashFirst(s: Bytes) { s != [] && s[0] == SLASH }

  lemma SlashHasEnd(p: Bytes)
    requires SlashFirst(p)
    ensures PrefixEnd(p) != [] && PrefixEnd(p) != [0]
  {
    assert PrefixEnd(p)[0] >= SLASH;
  }

  /** It meets everything the encoded store and the watcher ask of an encoder. */
  lemma IrcCoderValid(c: Inner)
    requires c.Valid()
    ensures IrcCoder(c).Valid() && KeyWatch.NonEmpty(IrcCoder(c))
  {
    var k := IrcCoder(c);
    forall s ensures k.RoundTrips(s) { if GoodKey(s) { RoundTripExactly(c, s); } }
    forall a, s ensures k.TellsApart(a, s) { if Rooted(a) && GoodKey(s) { EqualityPreserved(c, a, s); } }
    forall a | k.named(a) ensures k.enc(a).Some? { RootedEncodes(c, a); }
    forall p, s ensures k.KeepsPrefix(p, s) { if WholePrefix(p) && GoodKey(s) { PrefixPreserved(c, p, s); } }
    forall p ensures k.Bounded(p) {
      if WholePrefix(p) {
        RootedEncodes(c, p);
        SlashHasEnd(p);
        SlashHasEnd(KeyCodec.Encode(c, p).value);
      }
    }
    forall s | k.good(s) ensures Enc(k, s) != [] { RootedEncodes(c, s); }
  }

  /** The nop encoder is sound for every key and every prefix that starts with '/'. */
  function NopCoder(): Coder {
    Coder(k => Some(k), x => Hmac.Plain(x), k => SlashFirst(k), k => true, p => SlashFirst(p))
  }

  lemma NopCoderValid()
    ensures NopCoder().Valid()
  {
    forall p ensures NopCoder().Bounded(p) { if SlashFirst(p) { SlashHasEnd(p); } }
  }

  /**
   From an empty cluster, whatever the hash and the keystream: every history of requests
   through the HMAC-encoded store is a history of the plain store, and every watch on it
   gives the plain store's events.
   */
  lemma EncryptionIsTransparent(e: Hmac.Encoder, calls: seq<Call>, from: nat, key: Bytes, end: Option<Bytes>,
                                prevKv: bool, evs: seq<KeyWatch.Event>)
    requires e.Valid()
    requires CallsOk(IrcCoder(HmacInner(e)), calls) && Asks(IrcCoder(HmacInner(e)), key, end)
    requires var c := IrcCoder(HmacInner(e)); Beneath(c, calls).Some? ==>
      && Serves(History([map[]]), Beneath(c, calls).value)
      && KeyWatch.Streams(Final(History([map[]]), Beneath(c, calls).value), from,
                          Enc(c, key), EncEnd(c, key, end), prevKv, evs)
    ensures var c := IrcCoder(HmacInner(e));
      && Above(c, calls).Some? && KeyWatch.DecEvents(c, evs).Some?
      && Serves(History([map[]]), Above(c, calls).value)
      && KeyWatch.Streams(Final(History([map[]]), Above(c, calls).value), from,
                          key, end, prevKv, KeyWatch.DecEvents(c, evs).value)
  {
    var c := IrcCoder(HmacInner(e));
    IrcCoderValid(HmacInner(e));
    EmptyMirrors(c);
    var none: History := History([map[]]);
    RunRefines(c, none, none, calls);
    KeyWatch.StreamRefines(c, Final(none, Above(c, calls).value), Final(none, Beneath(c, calls).value),
                           from, key, end, prevKv, evs);
  }

  /** The typed keys and scans of the server are among those the encoder is sound for. */
  lemma ServerKeysCovered(c: Inner, u: string -> Bytes, k: Etcd.Key, ch: string)
    requires c.Valid() && KeyNames.Utf8(u) && KeyNames.Name(k) != [] && KeyNames.Name(k)[0] != '/'
    ensures IrcCoder(c).good(KeyNames.Render(u, k))
    ensures Asks(IrcCoder(c), KeyNames.Render(u, k), None)
    ensures Asks(IrcCoder(c), KeyNames.NicksPrefix(u, ch), Some(RangeEnd(KeyNames.NicksPrefix(u, ch))))
  {
    KeyNames.EncodedScan(c, u, ch, k);
    KeyNames.QueriedPrefixes(u, ch, k);
  }
}
