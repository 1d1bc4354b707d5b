/** The watcher of keyencode/watch.go: an encoded event stream, decoded in place. */
module KeyWatch {
  import opened Bytes
  import opened Seqs
  import opened Records
  import opened KeyStore

  /** A deletion carries its key and revision alone. */
  datatype Event = Event(put: bool, kv: KV, prev: Option<KV>)

  function Before(m: Snapshot, k: Bytes, prevKv: bool): Option<KV> {
    if prevKv && k in m then Some(KV(k, m[k])) else None
  }

  /** What revision `r` did to a key. */
  function EventAt(h: History, r: nat, k: Bytes, prevKv: bool): Option<Event>
    requires 0 < r < |h.snaps|
  {
    var was, now := h.snaps[r - 1], h.snaps[r];
    if k in now && now[k].mod == r then Some(Event(true, KV(k, now[k]), Before(was, k, prevKv)))
    else if k in was && k !in now then Some(Event(false, KV(k, Meta([], 0, r, 0, 0)), Before(was, k, prevKv)))
    else None
  }

  predicate Genuine(h: History, from: nat, key: Bytes, end: Option<Bytes>, prevKv: bool, ev: Event) {
    var r := ev.kv.meta.mod;
    0 < r < |h.snaps| && from <= r && Within(key, end, ev.kv.key) && EventAt(h, r, ev.kv.key, prevKv) == Some(ev)
  }

  predicate Seen(evs: seq<Event>, k: Bytes, r: nat) {
    exists i :: 0 <= i < |evs| && evs[i].kv.key == k && evs[i].kv.meta.mod == r
  }

  predicate Apart(a: Event, b: Event) { a.kv.key != b.kv.key || a.kv.meta.mod != b.kv.meta.mod }

  /** Every event of the range since `from`, once, by ascending revision. */
  ghost predicate Streams(h: History, from: nat, key: Bytes, end: Option<Bytes>, prevKv: bool, evs: seq<Event>) {
    && (forall i :: 0 <= i < |evs| ==> Genuine(h, from, key, end, prevKv, evs[i]))
    && (forall i, j :: 0 <= i < j < |evs| ==> evs[i].kv.meta.mod <= evs[j].kv.meta.mod)
    && (forall i, j :: 0 <= i < j < |evs| ==> Apart(evs[i], evs[j]))
    && (forall k, r :: Happened(h, from, key, end, prevKv, k, r) ==> Seen(evs, k, r))
  }

  predicate Happened(h: History, from: nat, key: Bytes, end: Option<Bytes>, prevKv: bool, k: Bytes, r: nat) {
    from <= r && 0 < r < |h.snaps| && Within(key, end, k) && EventAt(h, r, k, prevKv).Some?
  }

  // ----- the wrapper

  /** Keyless events pass; a key that does not decode is a panic. */
  function DecMaybe(c: Coder, kv: KV): Option<KV> { if kv.key == [] then Some(kv) else DecKv(c, kv) }

  function DecEvent(c: Coder, ev: Event): Option<Event> {
    match DecMaybe(c, ev.kv)
    case None => None
    case Some(kv) =>
      match ev.prev
      case None => Some(ev.(kv := kv))
      case Some(was) =>
        match DecMaybe(c, was)
        case None => None
        case Some(p) => Some(Event(ev.put, kv, Some(p)))
  }

  function DecEvents(c: Coder, evs: seq<Event>): (r: Option<seq<Event>>)
    ensures r.Some? ==> |r.value| == |evs|
    ensures r.Some? ==> forall i :: 0 <= i < |evs| ==> DecEvent(c, evs[i]) == Some(r.value[i])
  {
    if evs == [] then Some([])
    else
      var ev, rest := DecEvent(c, evs[0]), DecEvents(c, evs[1..]);
      if ev.None? || rest.None? then None else Some([ev.value] + rest.value)
  }

  lemma {:induction false} AllDecodeEvents(c: Coder, evs: seq<Event>)
    requires forall i :: 0 <= i < |evs| ==> DecEvent(c, evs[i]).Some?
    ensures DecEvents(c, evs).Some?
  {
    if evs != [] { AllDecodeEvents(c, evs[1..]); }
  }

  // ----- the two streams side by side

  /** A revision does to an encoded key what it does to the plain one. */
  lemma SameEvent(c: Coder, hp: History, he: History, r: nat, k: Bytes, prevKv: bool)
    requires c.Valid() && MirrorsAll(c, hp, he) && 0 < r < |hp.snaps| && c.good(k)
    ensures EventAt(hp, r, k, prevKv).Some? <==> EventAt(he, r, Enc(c, k), prevKv).Some?
    ensures EventAt(he, r, Enc(c, k), prevKv).Some? && Enc(c, k) != [] ==>
      DecEvent(c, EventAt(he, r, Enc(c, k), prevKv).value) == EventAt(hp, r, k, prevKv)
  {
    GoodFacts(c, k);
    SameFound(c, hp.snaps[r - 1], he.snaps[r - 1], k);
    SameFound(c, hp.snaps[r], he.snaps[r], k);
  }

  /** The key of an encoded event is the encoding of a stored key. */
  lemma EventKey(c: Coder, hp: History, he: History, r: nat, x: Bytes, prevKv: bool)
    requires c.Valid() && MirrorsAll(c, hp, he) && 0 < r < |hp.snaps| && EventAt(he, r, x, prevKv).Some?
    ensures c.dec(x).Plain? && c.good(c.dec(x).text) && Enc(c, c.dec(x).text) == x
  {
    var i := if x in he.snaps[r] then r else r - 1;
    assert Mirrors(c, hp.snaps[i], he.snaps[i]);
    assert Imaged(c, hp.snaps[i], x);
    assert Stored(c, hp.snaps[i], he.snaps[i], c.dec(x).text);
  }

  lemma GenuineDecodes(c: Coder, hp: History, he: History, from: nat, key: Bytes, end: Option<Bytes>, prevKv: bool,
                       ev: Event)
    requires c.Valid() && MirrorsAll(c, hp, he) && Asks(c, key, end)
    requires Genuine(he, from, Enc(c, key), EncEnd(c, key, end), prevKv, ev) && ev.kv.key != []
    ensures DecEvent(c, ev).Some? && Genuine(hp, from, key, end, prevKv, DecEvent(c, ev).value)
    ensures Enc(c, DecEvent(c, ev).value.kv.key) == ev.kv.key
    ensures DecEvent(c, ev).value.kv.meta.mod == ev.kv.meta.mod
  {
    var r, x := ev.kv.meta.mod, ev.kv.key;
    EventKey(c, hp, he, r, x, prevKv);
    var k := c.dec(x).text;
    SameEvent(c, hp, he, r, k, prevKv);
    SameRange(c, key, end, k);
  }

  /** Encoded keys are never empty. */
  ghost predicate NonEmpty(c: Coder) { forall k :: c.good(k) ==> Enc(c, k) != [] }

  /** The decoded stream is the plain stream: nothing lost, repeated, invented or reordered. */
  lemma StreamRefines(c: Coder, hp: History, he: History, from: nat, key: Bytes, end: Option<Bytes>, prevKv: bool,
                      evs: seq<Event>)
    requires c.Valid() && NonEmpty(c) && MirrorsAll(c, hp, he) && Asks(c, key, end)
    requires Streams(he, from, Enc(c, key), EncEnd(c, key, end), prevKv, evs)
    ensures DecEvents(c, evs).Some? && Streams(hp, from, key, end, prevKv, DecEvents(c, evs).value)
  {
    forall i | 0 <= i < |evs| ensures DecodesTo(c, hp, from, key, end, prevKv, evs[i]) {
      assert Genuine(he, from, Enc(c, key), EncEnd(c, key, end), prevKv, evs[i]);
      EventKey(c, hp, he, evs[i].kv.meta.mod, evs[i].kv.key, prevKv);
      GenuineDecodes(c, hp, he, from, key, end, prevKv, evs[i]);
    }
    AllDecodeEvents(c, evs);
    var ds := DecEvents(c, evs).value;
    OrderKept(c, hp, from, key, end, prevKv, evs, ds);
    forall k, r | Happened(hp, from, key, end, prevKv, k, r) ensures Seen(ds, k, r) {
      HappenedBeneath(c, hp, he, from, key, end, prevKv, k, r);
      SeenAbove(c, evs, ds, k, r);
    }
  }

  lemma OrderKept(c: Coder, hp: History, from: nat, key: Bytes, end: Option<Bytes>, prevKv: bool, evs: seq<Event>,
                  ds: seq<Event>)
    requires DecEvents(c, evs) == Some(ds)
    requires forall i :: 0 <= i < |evs| ==> DecodesTo(c, hp, from, key, end, prevKv, evs[i])
    requires forall i, j :: 0 <= i < j < |evs| ==> evs[i].kv.meta.mod <= evs[j].kv.meta.mod
    requires forall i, j :: 0 <= i < j < |evs| ==> Apart(evs[i], evs[j])
    ensures forall i :: 0 <= i < |ds| ==> Genuine(hp, from, key, end, prevKv, ds[i])
    ensures forall i, j :: 0 <= i < j < |ds| ==> ds[i].kv.meta.mod <= ds[j].kv.meta.mod
    ensures forall i, j :: 0 <= i < j < |ds| ==> Apart(ds[i], ds[j])
  {
    forall i | 0 <= i < |evs|
      ensures Genuine(hp, from, key, end, prevKv, ds[i])
      ensures ds[i].kv.meta.mod == evs[i].kv.meta.mod && Enc(c, ds[i].kv.key) == evs[i].kv.key
    {
      assert DecodesTo(c, hp, from, key, end, prevKv, evs[i]);
    }
  }

  lemma SeenAbove(c: Coder, evs: seq<Event>, ds: seq<Event>, k: Bytes, r: nat)
    requires c.Valid() && c.good(k) && Enc(c, k) != [] && DecEvents(c, evs) == Some(ds) && Seen(evs, Enc(c, k), r)
    ensures Seen(ds, k, r)
  {
    var i :| 0 <= i < |evs| && evs[i].kv.key == Enc(c, k) && evs[i].kv.meta.mod == r;
    assert DecEvent(c, evs[i]) == Some(ds[i]);
    GoodFacts(c, k);
    assert ds[i].kv.key == k;
  }

  predicate DecodesTo(c: Coder, hp: History, from: nat, key: Bytes, end: Option<Bytes>, prevKv: bool, ev: Event) {
    && DecEvent(c, ev).Some?
    && Genuine(hp, from, key, end, prevKv, DecEvent(c, ev).value)
    && Enc(c, DecEvent(c, ev).value.kv.key) == ev.kv.key
    && DecEvent(c, ev).value.kv.meta.mod == ev.kv.meta.mod
  }

  lemma HappenedBeneath(c: Coder, hp: History, he: History, from: nat, key: Bytes, end: Option<Bytes>, prevKv: bool,
                        k: Bytes, r: nat)
    requires c.Valid() && NonEmpty(c) && MirrorsAll(c, hp, he) && Asks(c, key, end)
    requires Happened(hp, from, key, end, prevKv, k, r)
    ensures c.good(k) && Happened(he, from, Enc(c, key), EncEnd(c, key, end), prevKv, Enc(c, k), r)
  {
    var i := if k in hp.snaps[r] then r else r - 1;
    assert Stored(c, hp.snaps[i], he.snaps[i], k);
    SameEvent(c, hp, he, r, k, prevKv);
    SameRange(c, key, end, k);
  }

  // ----- the code

  function Flatten(wrs: seq<seq<Event>>): seq<Event> {
    if wrs == [] then [] else wrs[0] + Flatten(wrs[1..])
  }

  function Both(a: Option<seq<Event>>, b: Option<seq<Event>>): Option<seq<Event>> {
    if a.None? || b.None? then None else Some(a.value + b.value)
  }

  lemma {:induction false} DecAppend(c: Coder, a: seq<Event>, b: seq<Event>)
    ensures DecEvents(c, a + b) == Both(DecEvents(c, a), DecEvents(c, b))
  {
    if a == [] {
      assert a + b == b;
      if DecEvents(c, b).Some? { assert [] + DecEvents(c, b).value == DecEvents(c, b).value; }
    } else {
      assert (a + b)[0] == a[0] && (a + b)[1..] == a[1..] + b;
      DecAppend(c, a[1..], b);
      if DecEvent(c, a[0]).Some? && DecEvents(c, a[1..]).Some? && DecEvents(c, b).Some? {
        Assoc([DecEvent(c, a[0]).value], DecEvents(c, a[1..]).value, DecEvents(c, b).value);
      }
    }
  }

  /** One response: both keys of each event are rewritten where they stand. */
  method DecodeResponse(c: Coder, events: array<Event>) returns (panicked: bool)
    modifies events
    ensures panicked <==> DecEvents(c, old(events[..])).None?
    ensures !panicked ==> events[..] == DecEvents(c, old(events[..])).value
  {
    ghost var was := events[..];
    for i := 0 to events.Length
      invariant forall j :: 0 <= j < i ==> DecEvent(c, was[j]) == Some(events[j])
      invariant forall j :: i <= j < events.Length ==> events[j] == was[j]
    {
      var ev := DecodeEvent(c, events[i]);
      if ev.None? {
        DecEventsAt(c, was, i);
        return true;
      }
      events[i] := ev.value;
    }
    DecEventsAll(c, was, events[..]);
    panicked := false;
  }

  method DecodeEvent(c: Coder, event: Event) returns (r: Option<Event>)
    ensures r == DecEvent(c, event)
  {
    var ev := event;
    if |ev.kv.key| > 0 {
      var v := DecKv(c, ev.kv);
      if v.None? { return None; }
      ev := ev.(kv := v.value);
    }
    if ev.prev.Some? && |ev.prev.value.key| > 0 {
      var v := DecKv(c, ev.prev.value);
      if v.None? { return None; }
      ev := ev.(prev := Some(v.value));
    }
    r := Some(ev);
  }

  lemma {:induction false} DecEventsAt(c: Coder, evs: seq<Event>, i: nat)
    requires i < |evs| && DecEvent(c, evs[i]).None?
    ensures DecEvents(c, evs).None?
  {
    if i > 0 { DecEventsAt(c, evs[1..], i - 1); }
  }

  lemma DecEventsAll(c: Coder, evs: seq<Event>, ds: seq<Event>)
    requires |evs| == |ds| && forall i :: 0 <= i < |evs| ==> DecEvent(c, evs[i]) == Some(ds[i])
    ensures DecEvents(c, evs) == Some(ds)
  {
    AllDecodeEvents(c, evs);
    var xs := DecEvents(c, evs).value;
    forall i | 0 <= i < |evs| ensures xs[i] == ds[i] {
      assert DecEvent(c, evs[i]) == Some(xs[i]);
    }
    assert xs == ds;
  }

  /** Responses decode one by one exactly as their concatenation does. */
  lemma {:induction false} FlattenDecodes(c: Coder, wrs: seq<seq<Event>>, sent: seq<seq<Event>>)
    requires |wrs| == |sent| && forall i :: 0 <= i < |wrs| ==> DecEvents(c, wrs[i]) == Some(sent[i])
    ensures DecEvents(c, Flatten(wrs)) == Some(Flatten(sent))
  {
    if wrs != [] {
      FlattenDecodes(c, wrs[1..], sent[1..]);
      DecAppend(c, wrs[0], Flatten(wrs[1..]));
    }
  }

  method DecodeOne(c: Coder, wr: seq<Event>) returns (r: Option<seq<Event>>)
    ensures r == DecEvents(c, wr)
  {
    var events := new Event[|wr|](i requires 0 <= i < |wr| => wr[i]);
    assert events[..] == wr;
    var panicked := DecodeResponse(c, events);
    r := if panicked then None else Some(events[..]);
  }

  /** The forwarding loop, until `stop` responses have gone out or the watch ends. */
  method Watch(c: Coder, wrs: seq<seq<Event>>, stop: nat) returns (panicked: bool, sent: seq<seq<Event>>)
    ensures |sent| <= |wrs| && |sent| <= stop
    ensures forall i :: 0 <= i < |sent| ==> DecEvents(c, wrs[i]) == Some(sent[i])
    ensures DecEvents(c, Flatten(wrs[..|sent|])) == Some(Flatten(sent))
    ensures panicked ==> |sent| < |wrs| && DecEvents(c, wrs[|sent|]).None?
    ensures !panicked ==> |sent| == |wrs| || |sent| == stop
  {
    panicked, sent := false, [];
    var n := 0;
    while n < |wrs|
      invariant n == |sent| <= stop && n <= |wrs| && !panicked
      invariant forall i :: 0 <= i < n ==> DecEvents(c, wrs[i]) == Some(sent[i])
    {
      var wr := DecodeOne(c, wrs[n]);
      panicked := wr.None?;
      if panicked || n == stop { break; }
      sent := sent + [wr.value];
      n := n + 1;
    }
    FlattenDecodes(c, wrs[..n], sent);
  }
}
