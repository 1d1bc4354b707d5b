/** The client side of keyencode/kv.go: objects that encode requests and decode responses in place. */
module KeyClient {
  import opened Bytes
  import opened Records
  import opened KeyStore

  // ----- the store beneath

  /** A listing of a range, in whatever order the keys come. */
  method ListRange(m: Snapshot, key: Bytes, end: Option<Bytes>) returns (kvs: seq<KV>)
    ensures Lists(kvs, m, key, end)
  {
    var left := m.Keys;
    kvs := [];
    while left != {}
      invariant left <= m.Keys
      invariant forall i :: 0 <= i < |kvs| ==> ListedRight(kvs[i], m, key, end) && kvs[i].key !in left
      invariant forall i, j :: 0 <= i < j < |kvs| ==> kvs[i].key != kvs[j].key
      invariant forall k :: k in m && k !in left ==> Listed(kvs, key, end, k)
      decreases left
    {
      var k :| k in left;
      ghost var was, rest := kvs, left;
      left := left - {k};
      if Within(key, end, k) { kvs := kvs + [KV(k, m[k])]; }
      forall l | l in m && l !in left ensures Listed(kvs, key, end, l) {
        StillListed(was, kvs, key, end, l);
        if l == k && Within(key, end, k) { assert kvs[|kvs| - 1].key == l; }
      }
    }
  }

  lemma StillListed(was: seq<KV>, kvs: seq<KV>, key: Bytes, end: Option<Bytes>, k: Bytes)
    requires was <= kvs
    ensures Listed(was, key, end, k) ==> Listed(kvs, key, end, k)
  {
    if Listed(was, key, end, k) && Within(key, end, k) {
      var i :| 0 <= i < |was| && was[i].key == k;
      assert kvs[i].key == k;
    }
  }

  method Answer(h: History, m: Snapshot, op: Op) returns (r: Resp)
    ensures Answers(h, m, op, r)
  {
    match op
    case Put(key, _, _, prevKv) =>
      r := PutResp(if prevKv && key in m then Some(KV(key, m[key])) else None);
    case Get(key, end, rev) =>
      var kvs := ListRange(At(h, m, rev), key, end);
      r := GetResp(kvs);
    case Delete(key, end, prevKv) =>
      var kvs := ListRange(m, key, end);
      r := DelResp(|kvs|, if prevKv then kvs else []);
  }

  method AnswerAll(h: History, m: Snapshot, ops: seq<Op>, rev: nat) returns (rs: seq<Resp>)
    ensures AnswersAll(h, m, ops, rev, rs)
    decreases |ops|
  {
    if ops == [] { return []; }
    var r := Answer(h, m, ops[0]);
    rs := AnswerAll(h, Effect(m, ops[0], rev), ops[1..], rev);
    rs := [r] + rs;
  }

  class Server {
    var h: History

    constructor ()
      ensures h == History([map[]])
    {
      h := History([map[]]);
    }

    method Commit(t: Txn) returns (out: Outcome)
      requires h.Valid()
      modifies this
      ensures h == After(old(h), t) && Commits(old(h), t, out)
    {
      if Rejects(h, t) { return Rejected; }
      var rs := AnswerAll(h, h.Now(), Branch(h.Now(), t), h.Rev() + 1);
      out := Done(Holds(h.Now(), t.cmps), After(h, t).Rev(), rs);
      h := After(h, t);
    }
  }

  // ----- responses, rewritten in place

  lemma {:induction false} DecKvsAt(c: Coder, kvs: seq<KV>, i: nat)
    requires i < |kvs| && DecKv(c, kvs[i]).None?
    ensures DecKvs(c, kvs).None?
  {
    if i > 0 { DecKvsAt(c, kvs[1..], i - 1); }
  }

  lemma DecKvsAll(c: Coder, kvs: seq<KV>, ds: seq<KV>)
    requires |kvs| == |ds| && forall i :: 0 <= i < |kvs| ==> DecKv(c, kvs[i]) == Some(ds[i])
    ensures DecKvs(c, kvs) == Some(ds)
  {
    AllDecode(c, kvs);
    var xs := DecKvs(c, kvs).value;
    forall i | 0 <= i < |kvs| ensures xs[i] == ds[i] {
      assert DecKv(c, kvs[i]) == Some(xs[i]);
    }
    assert xs == ds;
  }

  /** decGetResponse and decDeleteResponse: the key of each pair, where it stands. */
  method DecodeKeys(c: Coder, kvs: array<KV>) returns (panicked: bool)
    modifies kvs
    ensures panicked <==> DecKvs(c, old(kvs[..])).None?
    ensures !panicked ==> kvs[..] == DecKvs(c, old(kvs[..])).value
  {
    ghost var was := kvs[..];
    for i := 0 to kvs.Length
      invariant forall j :: 0 <= j < i ==> DecKv(c, was[j]) == Some(kvs[j])
      invariant forall j :: i <= j < kvs.Length ==> kvs[j] == was[j]
    {
      var kv := DecKv(c, kvs[i]);
      if kv.None? {
        DecKvsAt(c, was, i);
        return true;
      }
      kvs[i] := kv.value;
    }
    DecKvsAll(c, was, kvs[..]);
    panicked := false;
  }

  method DecodeList(c: Coder, kvs: seq<KV>) returns (r: Option<seq<KV>>)
    ensures r == DecKvs(c, kvs)
  {
    var a := new KV[|kvs|](i requires 0 <= i < |kvs| => kvs[i]);
    assert a[..] == kvs;
    var panicked := DecodeKeys(c, a);
    r := if panicked then None else Some(a[..]);
  }

  method DecodeResp(c: Coder, resp: Resp) returns (r: Option<Resp>)
    ensures r == DecResp(c, resp)
  {
    match resp
    case PutResp(prev) =>
      if prev.None? { return Some(resp); }
      var kv := DecKv(c, prev.value);
      r := if kv.None? then None else Some(PutResp(kv));
    case GetResp(kvs) =>
      var ds := DecodeList(c, kvs);
      r := if ds.None? then None else Some(GetResp(ds.value));
    case DelResp(n, kvs) =>
      var ds := DecodeList(c, kvs);
      r := if ds.None? then None else Some(DelResp(n, ds.value));
  }

  lemma {:induction false} DecRespsAt(c: Coder, rs: seq<Resp>, i: nat)
    requires i < |rs| && DecResp(c, rs[i]).None?
    ensures DecResps(c, rs).None?
  {
    if i > 0 { DecRespsAt(c, rs[1..], i - 1); }
  }

  lemma {:induction false} DecRespsAll(c: Coder, rs: seq<Resp>, ds: seq<Resp>)
    requires |rs| == |ds| && forall i :: 0 <= i < |rs| ==> DecResp(c, rs[i]) == Some(ds[i])
    ensures DecResps(c, rs) == Some(ds)
  {
    if rs != [] {
      DecRespsAll(c, rs[1..], ds[1..]);
      assert ds == [ds[0]] + ds[1..];
    }
  }

  /** decTxnResponse. */
  method DecodeResponses(c: Coder, rs: array<Resp>) returns (panicked: bool)
    modifies rs
    ensures panicked <==> DecResps(c, old(rs[..])).None?
    ensures !panicked ==> rs[..] == DecResps(c, old(rs[..])).value
  {
    ghost var was := rs[..];
    for i := 0 to rs.Length
      invariant forall j :: 0 <= j < i ==> DecResp(c, was[j]) == Some(rs[j])
      invariant forall j :: i <= j < rs.Length ==> rs[j] == was[j]
    {
      var r := DecodeResp(c, rs[i]);
      if r.None? {
        DecRespsAt(c, was, i);
        return true;
      }
      rs[i] := r.value;
    }
    DecRespsAll(c, was, rs[..]);
    panicked := false;
  }

  // ----- the wrapper

  /** kvKeyEncoder; `plain` is the store its user believes in. */
  class Store {
    const c: Coder
    const server: Server
    ghost var plain: History

    ghost predicate Valid()
      reads this, server
    {
      c.Valid() && plain.Valid() && MirrorsAll(c, plain, server.h)
    }

    constructor (c: Coder)
      requires c.Valid()
      ensures Valid() && plain == History([map[]]) && this.c == c && fresh(server)
    {
      this.c := c;
      server := new Server();
      plain := History([map[]]);
      new;
      EmptyMirrors(c);
    }

    /** Do, which Put, Get and Delete call: to its user, the plain store performs the operation. */
    method Do(op: Op) returns (r: Option<Outcome>)
      requires Valid() && OpOk(c, op)
      modifies this, server
      ensures Valid() && r.Some?
      ensures Commits(old(plain), Single(op), r.value) && plain == After(old(plain), Single(op))
    {
      var x := EncOp(c, op);
      EncSingle(c, op);
      r := Send(Single(x.value), Single(op));
    }

    /** Commit of the wrapped transaction `t`, which encodes `asked`. */
    method Send(t: Txn, ghost asked: Txn) returns (r: Option<Outcome>)
      requires Valid() && TxnOk(c, asked) && EncTxn(c, asked) == Some(t)
      modifies this, server
      ensures Valid() && r.Some?
      ensures Commits(old(plain), asked, r.value) && plain == After(old(plain), asked)
    {
      ghost var hp, he := plain, server.h;
      var out := server.Commit(t);
      TxnRefines(c, hp, he, asked, out);
      plain := After(hp, asked);
      if out.Rejected? { return Some(out); }
      var rs := new Resp[|out.resps|](i requires 0 <= i < |out.resps| => out.resps[i]);
      assert rs[..] == out.resps;
      var panicked := DecodeResponses(c, rs);
      r := if panicked then None else Some(Done(out.succeeded, out.rev, rs[..]));
    }
  }

  function Single(op: Op): Txn { Txn([], [op], []) }

  lemma EncSingle(c: Coder, op: Op)
    requires c.Valid() && OpOk(c, op)
    ensures EncOp(c, op).Some? && TxnOk(c, Single(op)) && EncTxn(c, Single(op)) == Some(Single(EncOp(c, op).value))
  {
    OpsEncode(c, [op]);
    assert EncOps(c, [op]).value == [EncOp(c, op).value];
  }

  /** txnKeyEncoder; `txn` is the wrapped transaction, `asked` what its user asked for. */
  class TxnBuilder {
    const kv: Store
    var txn: Txn
    ghost var asked: Txn

    ghost predicate Valid()
      reads this
    {
      EncTxn(kv.c, asked) == Some(txn)
    }

    constructor (kv: Store)
      ensures Valid() && asked == Txn([], [], []) && this.kv == kv
    {
      this.kv := kv;
      txn := Txn([], [], []);
      asked := Txn([], [], []);
    }

    method If(cs: seq<Cmp>) returns (panicked: bool)
      requires Valid()
      modifies this
      ensures Valid() && (panicked <==> EncCmps(kv.c, cs).None?)
      ensures asked == if panicked then old(asked) else old(asked).(cmps := cs)
    {
      var cmps := new Cmp[|cs|](i requires 0 <= i < |cs| => cs[i]);
      for i := 0 to |cs|
        invariant fresh(cmps) && asked == old(asked) && txn == old(txn)
        invariant forall j :: 0 <= j < |cs| ==> cmps[j].test == cs[j].test
        invariant forall j :: 0 <= j < i ==> kv.c.enc(cs[j].key) == Some(cmps[j].key)
      {
        var x := kv.c.enc(cs[i].key);
        if x.None? {
          CmpsAt(kv.c, cs, i);
          return true;
        }
        cmps[i] := cs[i].(key := x.value);
      }
      CmpsAll(kv.c, cs, cmps[..]);
      txn, asked := txn.(cmps := cmps[..]), asked.(cmps := cs);
      panicked := false;
    }

    method Then(ops: seq<Op>) returns (panicked: bool)
      requires Valid()
      modifies this
      ensures Valid() && (panicked <==> EncOps(kv.c, ops).None?)
      ensures asked == if panicked then old(asked) else old(asked).(thens := ops)
    {
      var newOps := EncodeOps(kv.c, ops);
      if newOps.None? { return true; }
      txn, asked := txn.(thens := newOps.value), asked.(thens := ops);
      panicked := false;
    }

    method Else(ops: seq<Op>) returns (panicked: bool)
      requires Valid()
      modifies this
      ensures Valid() && (panicked <==> EncOps(kv.c, ops).None?)
      ensures asked == if panicked then old(asked) else old(asked).(elses := ops)
    {
      var newOps := EncodeOps(kv.c, ops);
      if newOps.None? { return true; }
      txn, asked := txn.(elses := newOps.value), asked.(elses := ops);
      panicked := false;
    }

    /** To its user, the plain store commits the transaction that was asked for. */
    method Commit() returns (r: Option<Outcome>)
      requires Valid() && kv.Valid() && TxnOk(kv.c, asked)
      modifies kv, kv.server
      ensures kv.Valid() && r.Some?
      ensures Commits(old(kv.plain), asked, r.value) && kv.plain == After(old(kv.plain), asked)
    {
      r := kv.Send(txn, asked);
    }
  }

  method EncodeOps(c: Coder, ops: seq<Op>) returns (r: Option<seq<Op>>)
    ensures r == EncOps(c, ops)
  {
    var newOps := new Op[|ops|](i requires 0 <= i < |ops| => ops[i]);
    for i := 0 to |ops|
      invariant forall j :: 0 <= j < i ==> EncOp(c, ops[j]) == Some(newOps[j])
    {
      var x := EncOp(c, ops[i]);
      if x.None? {
        OpsAt(c, ops, i);
        return None;
      }
      newOps[i] := x.value;
    }
    OpsAll(c, ops, newOps[..]);
    r := Some(newOps[..]);
  }

  lemma {:induction false} OpsAt(c: Coder, ops: seq<Op>, i: nat)
    requires i < |ops| && EncOp(c, ops[i]).None?
    ensures EncOps(c, ops).None?
  {
    if i > 0 { OpsAt(c, ops[1..], i - 1); }
  }

  lemma {:induction false} OpsAll(c: Coder, ops: seq<Op>, xs: seq<Op>)
    requires |ops| == |xs| && forall i :: 0 <= i < |ops| ==> EncOp(c, ops[i]) == Some(xs[i])
    ensures EncOps(c, ops) == Some(xs)
  {
    if ops != [] {
      OpsAll(c, ops[1..], xs[1..]);
      assert xs == [xs[0]] + xs[1..];
    }
  }

  lemma {:induction false} CmpsAt(c: Coder, cs: seq<Cmp>, i: nat)
    requires i < |cs| && c.enc(cs[i].key).None?
    ensures EncCmps(c, cs).None?
  {
    if i > 0 { CmpsAt(c, cs[1..], i - 1); }
  }

  lemma {:induction false} CmpsAll(c: Coder, cs: seq<Cmp>, xs: seq<Cmp>)
    requires |cs| == |xs| && forall i :: 0 <= i < |cs| ==> c.enc(cs[i].key) == Some(xs[i].key)
    requires forall i :: 0 <= i < |cs| ==> xs[i].test == cs[i].test
    ensures EncCmps(c, cs) == Some(xs)
  {
    if cs != [] {
      CmpsAll(c, cs[1..], xs[1..]);
      assert xs[0] == cs[0].(key := xs[0].key);
      assert xs == [xs[0]] + xs[1..];
    }
  }
}
