/**
 The encoded store of keyencode/kv.go against the plain one. A byte-keyed etcd is given as
 a relation between a request and its responses, which leaves the order of a listing open;
 the theorems say that what the wrapper returns is always an answer of the plain store.
 */
module KeyStore {
  import opened Bytes
  import Hmac
  import opened Records

  /**
   A key encoder (keyencode.KeyEncoder) and the keys its user promises to keep to: those
   stored (`good`), those asked for by name and those asked for as prefixes. A `None` or
   anything but a plaintext is a panic.
   */
  datatype Coder = Coder(enc: Bytes -> Option<Bytes>, dec: Bytes -> Hmac.Decoding,
                         good: Bytes -> bool, named: Bytes -> bool, prefix: Bytes -> bool) {
    predicate RoundTrips(k: Bytes) {
      good(k) ==> named(k) && enc(k).Some? && dec(enc(k).value) == Hmac.Plain(k)
    }

    predicate TellsApart(a: Bytes, k: Bytes) {
      named(a) && good(k) ==> enc(a).Some? && (a == k <==> enc(a) == enc(k))
    }

    predicate KeepsPrefix(p: Bytes, k: Bytes) {
      prefix(p) && good(k) && enc(k).Some? ==> enc(p).Some? && (p <= k <==> enc(p).value <= enc(k).value)
    }

    predicate HasEnd(p: Bytes) { PrefixEnd(p) != [] && PrefixEnd(p) != [0] }

    predicate Bounded(p: Bytes) {
      prefix(p) ==> enc(p).Some? && HasEnd(p) && HasEnd(enc(p).value)
    }

    ghost predicate Valid() {
      && (forall k :: RoundTrips(k))
      && (forall a, k :: TellsApart(a, k))
      && (forall a :: named(a) ==> enc(a).Some?)
      && (forall p, k :: KeepsPrefix(p, k))
      && (forall p :: Bounded(p))
    }
  }

  datatype Meta = Meta(val: Bytes, create: nat, mod: nat, version: nat, lease: Lease)

  datatype KV = KV(key: Bytes, meta: Meta)

  type Snapshot = map<Bytes, Meta>

  /** One snapshot per revision, the newest last. */
  datatype History = History(snaps: seq<Snapshot>) {
    predicate Valid() { snaps != [] }

    function Rev(): nat
      requires Valid()
    {
      |snaps| - 1
    }

    function Now(): Snapshot
      requires Valid()
    {
      snaps[Rev()]
    }
  }

  datatype LeaseArg = Use(id: Lease) | KeepLease

  /** `end` absent asks for one key; `rev` 0 asks for the newest state. */
  datatype Op =
    | Put(key: Bytes, val: Bytes, lease: LeaseArg, prevKv: bool)
    | Get(key: Bytes, end: Option<Bytes>, rev: nat)
    | Delete(key: Bytes, end: Option<Bytes>, prevKv: bool)

  /** A comparison looks at what is stored under its key, never at the key. */
  datatype Cmp = Cmp(key: Bytes, test: Option<Meta> -> bool)

  datatype Txn = Txn(cmps: seq<Cmp>, thens: seq<Op>, elses: seq<Op>)

  datatype Resp = PutResp(prev: Option<KV>) | GetResp(kvs: seq<KV>) | DelResp(deleted: nat, prevs: seq<KV>)

  datatype Outcome = Rejected | Done(succeeded: bool, rev: nat, resps: seq<Resp>)

  // ----- the store

  const FROM_KEY: Bytes := [0]

  /** clientv3.GetPrefixRangeEnd. */
  function RangeEnd(p: Bytes): Bytes { if PrefixEnd(p) == [] then FROM_KEY else PrefixEnd(p) }

  predicate Within(key: Bytes, end: Option<Bytes>, k: Bytes) {
    match end
    case None => k == key
    case Some(e) => if e == FROM_KEY then !Below(k, key) else InRange(key, e, k)
  }

  function Found(m: Snapshot, k: Bytes): Option<Meta> { if k in m then Some(m[k]) else None }

  function PutMeta(was: Option<Meta>, op: Op, r: nat): Meta
    requires op.Put?
  {
    var lease := match op.lease case Use(id) => id case KeepLease => if was.Some? then was.value.lease else 0;
    if was.Some? then Meta(op.val, was.value.create, r, was.value.version + 1, lease) else Meta(op.val, r, r, 1, lease)
  }

  function Effect(m: Snapshot, op: Op, r: nat): Snapshot {
    match op
    case Put(key, _, _, _) => m[key := PutMeta(Found(m, key), op, r)]
    case Get(_, _, _) => m
    case Delete(key, end, _) => map k | k in m && !Within(key, end, k) :: m[k]
  }

  function EffectAll(m: Snapshot, ops: seq<Op>, r: nat): Snapshot
    decreases |ops|
  {
    if ops == [] then m else EffectAll(Effect(m, ops[0], r), ops[1..], r)
  }

  /** Each entry of `m` in the range, exactly once. */
  predicate Lists(kvs: seq<KV>, m: Snapshot, key: Bytes, end: Option<Bytes>) {
    && (forall i :: 0 <= i < |kvs| ==> ListedRight(kvs[i], m, key, end))
    && (forall i, j :: 0 <= i < j < |kvs| ==> kvs[i].key != kvs[j].key)
    && (forall k :: k in m ==> Listed(kvs, key, end, k))
  }

  predicate ListedRight(kv: KV, m: Snapshot, key: Bytes, end: Option<Bytes>) {
    Within(key, end, kv.key) && Found(m, kv.key) == Some(kv.meta)
  }

  predicate Listed(kvs: seq<KV>, key: Bytes, end: Option<Bytes>, k: Bytes) {
    Within(key, end, k) ==> exists i :: 0 <= i < |kvs| && kvs[i].key == k
  }

  function At(h: History, m: Snapshot, rev: nat): Snapshot {
    if 0 < rev < |h.snaps| then h.snaps[rev] else m
  }

  ghost predicate Answers(h: History, m: Snapshot, op: Op, r: Resp) {
    match op
    case Put(key, _, _, prevKv) =>
      r == PutResp(if prevKv && key in m then Some(KV(key, m[key])) else None)
    case Get(key, end, rev) => r.GetResp? && Lists(r.kvs, At(h, m, rev), key, end)
    case Delete(key, end, prevKv) =>
      r.DelResp? && exists kvs :: Lists(kvs, m, key, end) && Counts(r, kvs, prevKv)
  }

  /** A delete response counts what it deletes, and shows it on request. */
  predicate Counts(r: Resp, kvs: seq<KV>, prevKv: bool)
    requires r.DelResp?
  {
    r.deleted == |kvs| && r.prevs == if prevKv then kvs else []
  }

  ghost predicate AnswersAll(h: History, m: Snapshot, ops: seq<Op>, rev: nat, rs: seq<Resp>)
    decreases |ops|
  {
    if ops == [] then rs == []
    else rs != [] && Answers(h, m, ops[0], rs[0]) && AnswersAll(h, Effect(m, ops[0], rev), ops[1..], rev, rs[1..])
  }

  /** A key may be put once per transaction, and not be deleted by it. */
  predicate Clash(a: Op, b: Op) {
    a.Put? && ((b.Put? && a.key == b.key) || (b.Delete? && Within(b.key, b.end, a.key)))
  }

  predicate Conflict(ops: seq<Op>) {
    exists i, j :: 0 <= i < |ops| && 0 <= j < |ops| && i != j && Clash(ops[i], ops[j])
  }

  /** Keeping the lease of a missing key and reading the future are errors. */
  predicate Refused(h: History, op: Op)
    requires h.Valid()
  {
    || (op.Put? && op.lease.KeepLease? && op.key !in h.Now())
    || (op.Get? && op.rev > h.Rev())
  }

  predicate Holds(m: Snapshot, cmps: seq<Cmp>) {
    forall i :: 0 <= i < |cmps| ==> cmps[i].test(Found(m, cmps[i].key))
  }

  function Branch(m: Snapshot, t: Txn): seq<Op> { if Holds(m, t.cmps) then t.thens else t.elses }

  predicate Rejects(h: History, t: Txn)
    requires h.Valid()
  {
    || Conflict(t.thens)
    || Conflict(t.elses)
    || RefusesAny(h, Branch(h.Now(), t))
  }

  function Next(h: History, t: Txn): Snapshot
    requires h.Valid()
  {
    EffectAll(h.Now(), Branch(h.Now(), t), h.Rev() + 1)
  }

  /** Only a transaction that changes something makes a revision. */
  function After(h: History, t: Txn): (h': History)
    requires h.Valid()
    ensures h'.Valid()
  {
    if Rejects(h, t) || Next(h, t) == h.Now() then h else History(h.snaps + [Next(h, t)])
  }

  ghost predicate Commits(h: History, t: Txn, out: Outcome)
    requires h.Valid()
  {
    if Rejects(h, t) then out.Rejected?
    else Performs(h, Branch(h.Now(), t), Holds(h.Now(), t.cmps), After(h, t).Rev(), out)
  }

  ghost predicate Performs(h: History, ops: seq<Op>, ok: bool, rev: nat, out: Outcome)
    requires h.Valid()
  {
    out.Done? && out.succeeded == ok && out.rev == rev && AnswersAll(h, h.Now(), ops, h.Rev() + 1, out.resps)
  }

  // ----- the wrapper

  /** encOp; `None` is a panic. */
  function EncOp(c: Coder, op: Op): Option<Op> {
    match c.enc(op.key)
    case None => None
    case Some(x) =>
      match EndOf(op)
      case None => Some(WithRange(op, x, None))
      case Some(e) =>
        if e == RangeEnd(op.key) then Some(WithRange(op, x, Some(RangeEnd(x))))
        else if e == FROM_KEY then Some(WithRange(op, x, Some(e)))
        else None
  }

  function EndOf(op: Op): Option<Bytes> { if op.Put? then None else op.end }

  function WithRange(op: Op, key: Bytes, end: Option<Bytes>): Op {
    match op
    case Put(_, val, lease, prevKv) => Put(key, val, lease, prevKv)
    case Get(_, _, rev) => Get(key, end, rev)
    case Delete(_, _, prevKv) => Delete(key, end, prevKv)
  }

  function EncOps(c: Coder, ops: seq<Op>): (r: Option<seq<Op>>)
    ensures r.Some? ==> |r.value| == |ops|
  {
    if ops == [] then Some([])
    else
      match EncOp(c, ops[0])
      case None => None
      case Some(op) =>
        var rest := EncOps(c, ops[1..]);
        if rest.None? then None else Some([op] + rest.value)
  }

  function EncCmps(c: Coder, cmps: seq<Cmp>): (r: Option<seq<Cmp>>)
    ensures r.Some? ==> |r.value| == |cmps|
  {
    if cmps == [] then Some([])
    else
      match c.enc(cmps[0].key)
      case None => None
      case Some(x) =>
        var rest := EncCmps(c, cmps[1..]);
        if rest.None? then None else Some([cmps[0].(key := x)] + rest.value)
  }

  function EncTxn(c: Coder, t: Txn): Option<Txn> {
    var cmps, thens, elses := EncCmps(c, t.cmps), EncOps(c, t.thens), EncOps(c, t.elses);
    if cmps.None? || thens.None? || elses.None? then None
    else Some(Txn(cmps.value, thens.value, elses.value))
  }

  /** A key that does not decode is a panic. */
  function DecKv(c: Coder, kv: KV): Option<KV> {
    match c.dec(kv.key)
    case Plain(k) => Some(kv.(key := k))
    case _ => None
  }

  function DecKvs(c: Coder, kvs: seq<KV>): (r: Option<seq<KV>>)
    ensures r.Some? ==> |r.value| == |kvs|
    ensures r.Some? ==> forall i :: 0 <= i < |kvs| ==> DecKv(c, kvs[i]) == Some(r.value[i])
  {
    if kvs == [] then Some([])
    else
      var kv, rest := DecKv(c, kvs[0]), DecKvs(c, kvs[1..]);
      if kv.None? || rest.None? then None else Some([kv.value] + rest.value)
  }

  function DecResp(c: Coder, r: Resp): Option<Resp> {
    match r
    case PutResp(None) => Some(r)
    case PutResp(Some(kv)) =>
      (match DecKv(c, kv) case None => None case Some(d) => Some(PutResp(Some(d))))
    case GetResp(kvs) => (match DecKvs(c, kvs) case None => None case Some(d) => Some(GetResp(d)))
    case DelResp(n, kvs) => (match DecKvs(c, kvs) case None => None case Some(d) => Some(DelResp(n, d)))
  }

  function DecResps(c: Coder, rs: seq<Resp>): (r: Option<seq<Resp>>)
    ensures r.Some? ==> |r.value| == |rs|
  {
    if rs == [] then Some([])
    else
      var r, rest := DecResp(c, rs[0]), DecResps(c, rs[1..]);
      if r.None? || rest.None? then None else Some([r.value] + rest.value)
  }

  function DecOutcome(c: Coder, out: Outcome): Option<Outcome> {
    match out
    case Rejected => Some(Rejected)
    case Done(ok, rev, rs) => (match DecResps(c, rs) case None => None case Some(d) => Some(Done(ok, rev, d)))
  }

  // ----- what the code asks for

  /** A key, or a prefix that ends at a segment boundary. */
  predicate Asks(c: Coder, key: Bytes, end: Option<Bytes>) {
    match end
    case None => c.named(key)
    case Some(e) => e == RangeEnd(key) && c.prefix(key)
  }

  predicate OpOk(c: Coder, op: Op) { if op.Put? then c.good(op.key) else Asks(c, op.key, op.end) }

  predicate OpsOk(c: Coder, ops: seq<Op>) { forall i :: 0 <= i < |ops| ==> OpOk(c, ops[i]) }

  predicate TxnOk(c: Coder, t: Txn) {
    && (forall i :: 0 <= i < |t.cmps| ==> c.named(t.cmps[i].key))
    && OpsOk(c, t.thens) && OpsOk(c, t.elses)
  }

  // ----- the two stores side by side

  function Enc(c: Coder, k: Bytes): Bytes { if c.enc(k).Some? then c.enc(k).value else [] }

  predicate Stored(c: Coder, p: Snapshot, e: Snapshot, k: Bytes)
  {
    c.good(k) && Found(e, Enc(c, k)) == Found(p, k)
  }

  predicate Imaged(c: Coder, p: Snapshot, x: Bytes) {
    c.dec(x).Plain? && c.dec(x).text in p && Enc(c, c.dec(x).text) == x
  }

  /** The encoded snapshot holds the plain one's entries, each under its encoded key. */
  predicate Mirrors(c: Coder, p: Snapshot, e: Snapshot) {
    && (forall k :: k in p ==> Stored(c, p, e, k))
    && (forall x :: x in e ==> Imaged(c, p, x))
  }

  predicate MirrorsAll(c: Coder, p: History, e: History) {
    && |p.snaps| == |e.snaps|
    && forall i :: 0 <= i < |p.snaps| ==> Mirrors(c, p.snaps[i], e.snaps[i])
  }

  lemma GoodFacts(c: Coder, k: Bytes)
    requires c.Valid() && c.good(k)
    ensures c.named(k) && c.enc(k) == Some(Enc(c, k)) && c.dec(Enc(c, k)) == Hmac.Plain(k)
  {
    assert c.RoundTrips(k);
  }

  function EncEnd(c: Coder, key: Bytes, end: Option<Bytes>): Option<Bytes> {
    if end.None? then None else Some(RangeEnd(Enc(c, key)))
  }

  /** A key is in an asked range exactly when its encoding is in the encoded range. */
  lemma SameRange(c: Coder, key: Bytes, end: Option<Bytes>, k: Bytes)
    requires c.Valid() && c.good(k) && Asks(c, key, end)
    ensures Within(key, end, k) <==> Within(Enc(c, key), EncEnd(c, key, end), Enc(c, k))
  {
    GoodFacts(c, k);
    match end
    case None => assert c.TellsApart(key, k);
    case Some(_) =>
      assert c.Bounded(key) && c.KeepsPrefix(key, k);
      RangeIsPrefix(key, k);
      RangeIsPrefix(Enc(c, key), Enc(c, k));
  }

  lemma EncOpShape(c: Coder, op: Op)
    requires c.Valid() && OpOk(c, op)
    ensures EncOp(c, op) == Some(WithRange(op, Enc(c, op.key), EncEnd(c, op.key, EndOf(op))))
  {
    if op.Put? { GoodFacts(c, op.key); }
    assert c.Bounded(op.key);
  }

  /** The same thing is found under any rooted key. */
  lemma SameFound(c: Coder, p: Snapshot, e: Snapshot, k: Bytes)
    requires c.Valid() && Mirrors(c, p, e) && c.named(k)
    ensures Found(p, k) == Found(e, Enc(c, k))
  {
    var x := Enc(c, k);
    if k in p { assert Stored(c, p, e, k); }
    if x in e {
      assert Imaged(c, p, x);
      var l := c.dec(x).text;
      assert Stored(c, p, e, l);
      GoodFacts(c, l);
      assert c.TellsApart(k, l);
    }
  }

  lemma MirrorsUnique(c: Coder, p: Snapshot, e: Snapshot, p': Snapshot, e': Snapshot)
    requires c.Valid() && Mirrors(c, p, e) && Mirrors(c, p', e')
    ensures p == p' <==> e == e'
  {
    if p == p' { HalfUnique(c, p, e, e'); HalfUnique(c, p, e', e); }
    if e == e' { OtherHalf(c, p, p', e); OtherHalf(c, p', p, e); }
  }

  lemma HalfUnique(c: Coder, p: Snapshot, e: Snapshot, e': Snapshot)
    requires c.Valid() && Mirrors(c, p, e) && Mirrors(c, p, e')
    ensures forall x :: x in e ==> x in e' && e[x] == e'[x]
  {
    forall x | x in e ensures x in e' && e[x] == e'[x] {
      assert Imaged(c, p, x);
      var k := c.dec(x).text;
      assert Stored(c, p, e, k) && Stored(c, p, e', k);
    }
  }

  lemma OtherHalf(c: Coder, p: Snapshot, p': Snapshot, e: Snapshot)
    requires c.Valid() && Mirrors(c, p, e) && Mirrors(c, p', e)
    ensures forall k :: k in p ==> k in p' && p[k] == p'[k]
  {
    forall k | k in p ensures k in p' && p[k] == p'[k] {
      assert Stored(c, p, e, k);
      GoodFacts(c, k);
      assert Imaged(c, p', Enc(c, k));
      assert Stored(c, p', e, k);
    }
  }

  // ----- one operation

  lemma PutMirrors(c: Coder, p: Snapshot, e: Snapshot, k: Bytes, v: Meta)
    requires c.Valid() && Mirrors(c, p, e) && c.good(k)
    ensures Mirrors(c, p[k := v], e[Enc(c, k) := v])
  {
    var p', e', x := p[k := v], e[Enc(c, k) := v], Enc(c, k);
    GoodFacts(c, k);
    forall l | l in p' ensures Stored(c, p', e', l) {
      if l != k {
        assert Stored(c, p, e, l);
        GoodFacts(c, l);
      }
    }
    forall y | y in e' ensures Imaged(c, p', y) {
      if y != x { assert Imaged(c, p, y); }
    }
  }

  lemma DeleteMirrors(c: Coder, p: Snapshot, e: Snapshot, op: Op, r: nat)
    requires c.Valid() && Mirrors(c, p, e) && OpOk(c, op) && op.Delete?
    ensures EncOp(c, op).Some? && Mirrors(c, Effect(p, op, r), Effect(e, EncOp(c, op).value, r))
  {
    EncOpShape(c, op);
    var p', e' := Effect(p, op, r), Effect(e, EncOp(c, op).value, r);
    forall k | k in p' ensures Stored(c, p', e', k) {
      assert Stored(c, p, e, k);
      SameRange(c, op.key, op.end, k);
    }
    forall x | x in e' ensures Imaged(c, p', x) {
      assert Imaged(c, p, x);
      var k := c.dec(x).text;
      assert Stored(c, p, e, k);
      SameRange(c, op.key, op.end, k);
    }
  }

  lemma EffectMirrors(c: Coder, p: Snapshot, e: Snapshot, op: Op, r: nat)
    requires c.Valid() && Mirrors(c, p, e) && OpOk(c, op)
    ensures EncOp(c, op).Some? && Mirrors(c, Effect(p, op, r), Effect(e, EncOp(c, op).value, r))
  {
    EncOpShape(c, op);
    match op
    case Put(key, _, _, _) =>
      GoodFacts(c, key);
      SameFound(c, p, e, key);
      PutMirrors(c, p, e, key, PutMeta(Found(p, key), op, r));
    case Get(_, _, _) =>
    case Delete(_, _, _) => DeleteMirrors(c, p, e, op, r);
  }

  /** Every listed key decodes, to a key the plain store lists with the same contents. */
  lemma ListedDecodes(c: Coder, p: Snapshot, e: Snapshot, key: Bytes, end: Option<Bytes>, kv: KV)
    requires c.Valid() && Mirrors(c, p, e) && Asks(c, key, end) && ListedRight(kv, e, Enc(c, key), EncEnd(c, key, end))
    ensures DecKv(c, kv).Some? && Enc(c, DecKv(c, kv).value.key) == kv.key
    ensures ListedRight(DecKv(c, kv).value, p, key, end)
  {
    assert Imaged(c, p, kv.key);
    var k := c.dec(kv.key).text;
    assert Stored(c, p, e, k);
    SameRange(c, key, end, k);
  }

  lemma {:induction false} AllDecode(c: Coder, kvs: seq<KV>)
    requires forall i :: 0 <= i < |kvs| ==> DecKv(c, kvs[i]).Some?
    ensures DecKvs(c, kvs).Some?
  {
    if kvs != [] { AllDecode(c, kvs[1..]); }
  }

  /** A decoded listing of an encoded range is a listing of the plain range. */
  lemma ListingDecodes(c: Coder, p: Snapshot, e: Snapshot, key: Bytes, end: Option<Bytes>, kvs: seq<KV>)
    requires c.Valid() && Mirrors(c, p, e) && Asks(c, key, end) && Lists(kvs, e, Enc(c, key), EncEnd(c, key, end))
    ensures DecKvs(c, kvs).Some? && Lists(DecKvs(c, kvs).value, p, key, end)
  {
    forall i | 0 <= i < |kvs|
      ensures DecKv(c, kvs[i]).Some? && Enc(c, DecKv(c, kvs[i]).value.key) == kvs[i].key
      ensures ListedRight(DecKv(c, kvs[i]).value, p, key, end)
    {
      ListedDecodes(c, p, e, key, end, kvs[i]);
    }
    AllDecode(c, kvs);
    var ds := DecKvs(c, kvs).value;
    forall k | k in p ensures Listed(ds, key, end, k) {
      if Within(key, end, k) {
        assert Stored(c, p, e, k);
        SameRange(c, key, end, k);
        assert Listed(kvs, Enc(c, key), EncEnd(c, key, end), Enc(c, k));
        var i :| 0 <= i < |kvs| && kvs[i].key == Enc(c, k);
        GoodFacts(c, k);
        assert ds[i].key == k;
      }
    }
  }

  /** One decoded response answers the plain operation. */
  lemma AnswerDecodes(c: Coder, hp: History, he: History, p: Snapshot, e: Snapshot, op: Op, r: Resp)
    requires c.Valid() && MirrorsAll(c, hp, he) && Mirrors(c, p, e) && OpOk(c, op)
    requires EncOp(c, op).Some? && Answers(he, e, EncOp(c, op).value, r)
    ensures DecResp(c, r).Some? && Answers(hp, p, op, DecResp(c, r).value)
  {
    EncOpShape(c, op);
    match op
    case Put(key, _, _, _) =>
      GoodFacts(c, key);
      SameFound(c, p, e, key);
    case Get(key, end, rev) =>
      assert Mirrors(c, At(hp, p, rev), At(he, e, rev));
      ListingDecodes(c, At(hp, p, rev), At(he, e, rev), key, end, r.kvs);
    case Delete(key, end, prevKv) =>
      DeleteAnswer(c, p, e, key, end, prevKv, r);
  }

  lemma DeleteAnswer(c: Coder, p: Snapshot, e: Snapshot, key: Bytes, end: Option<Bytes>, prevKv: bool, r: Resp)
    requires c.Valid() && Mirrors(c, p, e) && Asks(c, key, end)
    requires r.DelResp?
    requires exists kvs :: Lists(kvs, e, Enc(c, key), EncEnd(c, key, end)) && Counts(r, kvs, prevKv)
    ensures DecResp(c, r).Some? && DecResp(c, r).value.DelResp?
    ensures exists kvs :: Lists(kvs, p, key, end) && Counts(DecResp(c, r).value, kvs, prevKv)
  {
    var kvs :| Lists(kvs, e, Enc(c, key), EncEnd(c, key, end)) && Counts(r, kvs, prevKv);
    ListingDecodes(c, p, e, key, end, kvs);
    var ds := DecKvs(c, kvs).value;
    assert Lists(ds, p, key, end) && |ds| == |kvs|;
  }

  // ----- a transaction

  lemma {:induction false} OpsEncode(c: Coder, ops: seq<Op>)
    requires c.Valid() && OpsOk(c, ops)
    ensures EncOps(c, ops).Some?
    ensures forall i :: 0 <= i < |ops| ==> EncOp(c, ops[i]) == Some(EncOps(c, ops).value[i])
  {
    if ops != [] {
      EncOpShape(c, ops[0]);
      OpsEncode(c, ops[1..]);
    }
  }

  lemma {:induction false} CmpsEncode(c: Coder, cmps: seq<Cmp>)
    requires c.Valid() && forall i :: 0 <= i < |cmps| ==> c.named(cmps[i].key)
    ensures EncCmps(c, cmps).Some?
    ensures forall i :: 0 <= i < |cmps| ==> EncCmps(c, cmps).value[i] == cmps[i].(key := Enc(c, cmps[i].key))
  {
    if cmps != [] {
      CmpsEncode(c, cmps[1..]);
    }
  }

  lemma SameVerdict(c: Coder, p: Snapshot, e: Snapshot, cmps: seq<Cmp>)
    requires c.Valid() && Mirrors(c, p, e) && forall i :: 0 <= i < |cmps| ==> c.named(cmps[i].key)
    ensures EncCmps(c, cmps).Some? && (Holds(e, EncCmps(c, cmps).value) <==> Holds(p, cmps))
  {
    CmpsEncode(c, cmps);
    var xs := EncCmps(c, cmps).value;
    forall i | 0 <= i < |cmps| ensures cmps[i].test(Found(p, cmps[i].key)) <==> xs[i].test(Found(e, xs[i].key)) {
      SameFound(c, p, e, cmps[i].key);
    }
  }

  lemma SameClash(c: Coder, a: Op, b: Op)
    requires c.Valid() && OpOk(c, a) && OpOk(c, b)
    ensures EncOp(c, a).Some? && EncOp(c, b).Some?
    ensures Clash(a, b) <==> Clash(EncOp(c, a).value, EncOp(c, b).value)
  {
    EncOpShape(c, a);
    EncOpShape(c, b);
    if a.Put? {
      GoodFacts(c, a.key);
      match b
      case Put(key, _, _, _) => GoodFacts(c, key); assert c.TellsApart(key, a.key);
      case Get(_, _, _) =>
      case Delete(key, end, _) => SameRange(c, key, end, a.key);
    }
  }

  lemma SameConflict(c: Coder, ops: seq<Op>)
    requires c.Valid() && OpsOk(c, ops)
    ensures EncOps(c, ops).Some? && (Conflict(EncOps(c, ops).value) <==> Conflict(ops))
  {
    OpsEncode(c, ops);
    var xs := EncOps(c, ops).value;
    forall i, j | 0 <= i < |ops| && 0 <= j < |ops| ensures Clash(ops[i], ops[j]) <==> Clash(xs[i], xs[j]) {
      SameClash(c, ops[i], ops[j]);
    }
  }

  lemma SameRefused(c: Coder, hp: History, he: History, op: Op)
    requires c.Valid() && hp.Valid() && MirrorsAll(c, hp, he) && OpOk(c, op)
    ensures EncOp(c, op).Some? && (Refused(he, EncOp(c, op).value) <==> Refused(hp, op))
  {
    EncOpShape(c, op);
    if op.Put? {
      GoodFacts(c, op.key);
      SameFound(c, hp.Now(), he.Now(), op.key);
    }
  }

  lemma SameBranch(c: Coder, hp: History, he: History, t: Txn)
    requires c.Valid() && hp.Valid() && MirrorsAll(c, hp, he) && TxnOk(c, t)
    ensures EncTxn(c, t).Some?
    ensures Holds(he.Now(), EncTxn(c, t).value.cmps) <==> Holds(hp.Now(), t.cmps)
    ensures OpsOk(c, Branch(hp.Now(), t))
    ensures EncOps(c, Branch(hp.Now(), t)) == Some(Branch(he.Now(), EncTxn(c, t).value))
  {
    OpsEncode(c, t.thens);
    OpsEncode(c, t.elses);
    SameVerdict(c, hp.Now(), he.Now(), t.cmps);
  }

  predicate RefusesAny(h: History, ops: seq<Op>)
    requires h.Valid()
  {
    exists i :: 0 <= i < |ops| && Refused(h, ops[i])
  }

  lemma SameRefusals(c: Coder, hp: History, he: History, ops: seq<Op>)
    requires c.Valid() && hp.Valid() && MirrorsAll(c, hp, he) && OpsOk(c, ops)
    ensures EncOps(c, ops).Some? && (RefusesAny(he, EncOps(c, ops).value) <==> RefusesAny(hp, ops))
  {
    OpsEncode(c, ops);
    var xs := EncOps(c, ops).value;
    forall i | 0 <= i < |ops| ensures Refused(hp, ops[i]) <==> Refused(he, xs[i]) {
      SameRefused(c, hp, he, ops[i]);
    }
  }

  lemma SameRejects(c: Coder, hp: History, he: History, t: Txn)
    requires c.Valid() && hp.Valid() && MirrorsAll(c, hp, he) && TxnOk(c, t)
    ensures EncTxn(c, t).Some? && (Rejects(he, EncTxn(c, t).value) <==> Rejects(hp, t))
  {
    SameBranch(c, hp, he, t);
    SameConflict(c, t.thens);
    SameConflict(c, t.elses);
    SameRefusals(c, hp, he, Branch(hp.Now(), t));
  }

  lemma {:induction false} EffectsMirror(c: Coder, p: Snapshot, e: Snapshot, ops: seq<Op>, r: nat)
    requires c.Valid() && Mirrors(c, p, e) && OpsOk(c, ops)
    ensures EncOps(c, ops).Some? && Mirrors(c, EffectAll(p, ops, r), EffectAll(e, EncOps(c, ops).value, r))
    decreases |ops|
  {
    if ops != [] {
      EffectMirrors(c, p, e, ops[0], r);
      EffectsMirror(c, Effect(p, ops[0], r), Effect(e, EncOp(c, ops[0]).value, r), ops[1..], r);
      assert EncOps(c, ops).value[1..] == EncOps(c, ops[1..]).value;
    }
  }

  lemma {:induction false} AnswersDecode(c: Coder, hp: History, he: History, p: Snapshot, e: Snapshot, ops: seq<Op>,
                                         rev: nat, rs: seq<Resp>)
    requires c.Valid() && MirrorsAll(c, hp, he) && Mirrors(c, p, e) && OpsOk(c, ops)
    requires EncOps(c, ops).Some? && AnswersAll(he, e, EncOps(c, ops).value, rev, rs)
    ensures DecResps(c, rs).Some? && AnswersAll(hp, p, ops, rev, DecResps(c, rs).value)
    decreases |ops|
  {
    if ops != [] {
      assert EncOps(c, ops).value[1..] == EncOps(c, ops[1..]).value;
      EffectMirrors(c, p, e, ops[0], rev);
      AnswerDecodes(c, hp, he, p, e, ops[0], rs[0]);
      AnswersDecode(c, hp, he, Effect(p, ops[0], rev), Effect(e, EncOp(c, ops[0]).value, rev), ops[1..], rev, rs[1..]);
      assert DecResps(c, rs).value[1..] == DecResps(c, rs[1..]).value;
    }
  }

  lemma AfterMirrors(c: Coder, hp: History, he: History, t: Txn)
    requires c.Valid() && hp.Valid() && MirrorsAll(c, hp, he) && TxnOk(c, t)
    ensures EncTxn(c, t).Some? && MirrorsAll(c, After(hp, t), After(he, EncTxn(c, t).value))
  {
    SameRejects(c, hp, he, t);
    NextSame(c, hp, he, t);
    AppendMirrors(c, hp, he, t, EncTxn(c, t).value);
  }

  lemma NextSame(c: Coder, hp: History, he: History, t: Txn)
    requires c.Valid() && hp.Valid() && MirrorsAll(c, hp, he) && TxnOk(c, t)
    ensures EncTxn(c, t).Some? && Mirrors(c, Next(hp, t), Next(he, EncTxn(c, t).value))
  {
    SameBranch(c, hp, he, t);
    NowMirrors(c, hp, he);
    EffectsMirror(c, hp.Now(), he.Now(), Branch(hp.Now(), t), hp.Rev() + 1);
  }

  lemma AppendMirrors(c: Coder, hp: History, he: History, t: Txn, t': Txn)
    requires c.Valid() && hp.Valid() && MirrorsAll(c, hp, he)
    requires Mirrors(c, Next(hp, t), Next(he, t')) && (Rejects(hp, t) <==> Rejects(he, t'))
    ensures MirrorsAll(c, After(hp, t), After(he, t'))
  {
    NextMirrors(c, hp, he, Next(hp, t), Next(he, t'));
  }

  lemma NextMirrors(c: Coder, hp: History, he: History, p: Snapshot, e: Snapshot)
    requires c.Valid() && hp.Valid() && MirrorsAll(c, hp, he) && Mirrors(c, p, e)
    ensures p == hp.Now() <==> e == he.Now()
    ensures MirrorsAll(c, History(hp.snaps + [p]), History(he.snaps + [e]))
  {
    MirrorsUnique(c, hp.Now(), he.Now(), p, e);
  }

  lemma NowMirrors(c: Coder, hp: History, he: History)
    requires hp.Valid() && MirrorsAll(c, hp, he)
    ensures he.Valid() && he.Rev() == hp.Rev() && Mirrors(c, hp.Now(), he.Now())
  {
  }

  lemma OutcomeDecodes(c: Coder, hp: History, he: History, ops: seq<Op>, ok: bool, rev: nat, out: Outcome)
    requires c.Valid() && hp.Valid() && MirrorsAll(c, hp, he) && OpsOk(c, ops)
    requires EncOps(c, ops).Some? && Performs(he, EncOps(c, ops).value, ok, rev, out)
    ensures DecOutcome(c, out).Some? && Performs(hp, ops, ok, rev, DecOutcome(c, out).value)
  {
    NowMirrors(c, hp, he);
    var p, e, xs, next, rs := hp.Now(), he.Now(), EncOps(c, ops).value, hp.Rev() + 1, out.resps;
    assert AnswersAll(he, e, xs, next, rs);
    AnswersDecode(c, hp, he, p, e, ops, next, rs);
    assert DecOutcome(c, out) == Some(Done(ok, rev, DecResps(c, rs).value));
  }

  /**
   The wrapper refines the plain store, one transaction at a time: nothing panics, the
   decoded outcome is one the plain store gives, and the stores stay in step.
   */
  lemma TxnRefines(c: Coder, hp: History, he: History, t: Txn, out: Outcome)
    requires c.Valid() && hp.Valid() && MirrorsAll(c, hp, he) && TxnOk(c, t)
    requires EncTxn(c, t).Some? ==> Commits(he, EncTxn(c, t).value, out)
    ensures EncTxn(c, t).Some? && DecOutcome(c, out).Some?
    ensures Commits(hp, t, DecOutcome(c, out).value)
    ensures MirrorsAll(c, After(hp, t), After(he, EncTxn(c, t).value))
  {
    AfterMirrors(c, hp, he, t);
    SameRejects(c, hp, he, t);
    SameBranch(c, hp, he, t);
    if !Rejects(hp, t) {
      OutcomeDecodes(c, hp, he, Branch(hp.Now(), t), Holds(hp.Now(), t.cmps), After(hp, t).Rev(), out);
    }
  }

  // ----- whole runs

  datatype Call = Call(txn: Txn, out: Outcome)

  /** A history of calls that a store can give. */
  ghost predicate Serves(h: History, calls: seq<Call>)
    requires h.Valid()
    decreases |calls|
  {
    calls == [] || (Commits(h, calls[0].txn, calls[0].out) && Serves(After(h, calls[0].txn), calls[1..]))
  }

  function Final(h: History, calls: seq<Call>): (h': History)
    requires h.Valid()
    ensures h'.Valid()
    decreases |calls|
  {
    if calls == [] then h else Final(After(h, calls[0].txn), calls[1..])
  }

  predicate CallsOk(c: Coder, calls: seq<Call>) { forall i :: 0 <= i < |calls| ==> TxnOk(c, calls[i].txn) }

  /** The calls as the encoded store sees them. */
  function Beneath(c: Coder, calls: seq<Call>): Option<seq<Call>> {
    if calls == [] then Some([])
    else
      var t, rest := EncTxn(c, calls[0].txn), Beneath(c, calls[1..]);
      if t.None? || rest.None? then None else Some([calls[0].(txn := t.value)] + rest.value)
  }

  /** The calls as the wrapper's user sees them. */
  function Above(c: Coder, calls: seq<Call>): Option<seq<Call>> {
    if calls == [] then Some([])
    else
      var o, rest := DecOutcome(c, calls[0].out), Above(c, calls[1..]);
      if o.None? || rest.None? then None else Some([calls[0].(out := o.value)] + rest.value)
  }

  lemma {:induction false} TxnsEncode(c: Coder, h: History, calls: seq<Call>)
    requires c.Valid() && h.Valid() && CallsOk(c, calls)
    ensures Beneath(c, calls).Some?
  {
    if calls != [] {
      CmpsEncode(c, calls[0].txn.cmps);
      OpsEncode(c, calls[0].txn.thens);
      OpsEncode(c, calls[0].txn.elses);
      TxnsEncode(c, h, calls[1..]);
    }
  }

  /**
   Every history of the encoded store, seen through the wrapper, is a history of the plain
   store, and the two end in step.
   */
  lemma {:induction false} RunRefines(c: Coder, hp: History, he: History, calls: seq<Call>)
    requires c.Valid() && hp.Valid() && MirrorsAll(c, hp, he) && CallsOk(c, calls)
    requires Beneath(c, calls).Some? ==> Serves(he, Beneath(c, calls).value)
    ensures Beneath(c, calls).Some? && Above(c, calls).Some?
    ensures Serves(hp, Above(c, calls).value)
    ensures MirrorsAll(c, Final(hp, Above(c, calls).value), Final(he, Beneath(c, calls).value))
    decreases |calls|
  {
    TxnsEncode(c, hp, calls);
    if calls != [] {
      var below, t, out := Beneath(c, calls).value, calls[0].txn, calls[0].out;
      assert below[1..] == Beneath(c, calls[1..]).value;
      assert below[0] == Call(EncTxn(c, t).value, out);
      TxnRefines(c, hp, he, t, out);
      RunRefines(c, After(hp, t), After(he, EncTxn(c, t).value), calls[1..]);
      assert Above(c, calls).value[1..] == Above(c, calls[1..]).value;
    }
  }

  /** Both stores start empty. */
  lemma EmptyMirrors(c: Coder)
    ensures MirrorsAll(c, History([map[]]), History([map[]]))
  {
  }
}
