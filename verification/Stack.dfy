/**
 The layers together: the typed store of the membership protocol, written as bytes, changed
 by the STM library's compare-and-put transactions, through the encrypted store.
 */
module Stack {
  import opened Bytes
  import opened Records
  import E = Etcd
  import opened KeyNames
  import K = KeyStore
  import C = Commands
  import P = Protocol
  import T = Transactions
  import R = Retry
  import Runs
  import Hmac
  import KeyCodec
  import EncodedStore

  /** How records are written: gob, injective, with the empty string for the blank value. */
  ghost predicate Gob(g: E.Value -> Bytes) {
    g(E.Blank) == [] && forall v, w :: g(v) == g(w) ==> v == w
  }

  /** How keys are printed: no two alike. */
  ghost predicate Injective(p: E.Key -> Bytes) { forall k, l :: p(k) == p(l) ==> k == l }

  /** The key builders. */
  function Printer(u: string -> Bytes): E.Key -> Bytes { k => Render(u, k) }

  lemma PrinterInjective(u: string -> Bytes)
    requires Utf8(u)
    ensures Injective(Printer(u))
  {
    forall k, l | Printer(u)(k) == Printer(u)(l) ensures k == l { RenderInjective(u, k, l); }
  }

  /** The stored bytes `e` are the typed record of `k`, or both are missing. */
  predicate Matches(g: E.Value -> Bytes, kv: E.Kv, k: E.Key, e: Option<K.Meta>) {
    if k in kv then
      && e.Some? && e.value.version > 0
      && e.value.val == g(kv[k].value) && e.value.lease == kv[k].lease && e.value.mod == kv[k].mod
    else e.None?
  }

  predicate TrackedAt(p: E.Key -> Bytes, g: E.Value -> Bytes, kv: E.Kv, m: K.Snapshot, k: E.Key) {
    Matches(g, kv, k, K.Found(m, p(k)))
  }

  /** The bytes `x` print a key of the typed store. */
  ghost predicate Printed(p: E.Key -> Bytes, kv: E.Kv, x: Bytes) { exists k :: k in kv && p(k) == x }

  ghost predicate AllTracked(p: E.Key -> Bytes, g: E.Value -> Bytes, kv: E.Kv, m: K.Snapshot) {
    (forall k :: TrackedAt(p, g, kv, m, k)) && (forall x :: x in m ==> Printed(p, kv, x))
  }

  /** The newest snapshot holds the typed records and nothing else, at the same revision. */
  ghost predicate Tracks(p: E.Key -> Bytes, g: E.Value -> Bytes, s: E.Store, h: K.History) {
    h.Valid() && h.Rev() == s.Rev() && AllTracked(p, g, s.kv, h.Now())
  }

  // ----- what the STM library sends

  function RenderWrite(p: E.Key -> Bytes, g: E.Value -> Bytes, k: E.Key, w: E.Write): K.Op {
    match w
    case Del => K.Delete(p(k), None, false)
    case Put(v, how) => K.Put(p(k), g(v), RenderLease(how), false)
  }

  function RenderLease(how: E.LeaseOption): K.LeaseArg {
    match how
    case Attach(l) => K.Use(l)
    case Keep => K.KeepLease
    case Detach => K.Use(0)
  }

  function RenderWrites(p: E.Key -> Bytes, g: E.Value -> Bytes, ks: seq<E.Key>, ws: E.Writes): (r: seq<K.Op>)
    requires forall i :: 0 <= i < |ks| ==> ks[i] in ws
    ensures |r| == |ks| && forall i :: 0 <= i < |ks| ==> r[i] == RenderWrite(p, g, ks[i], ws[ks[i]])
  {
    if ks == [] then [] else [RenderWrite(p, g, ks[0], ws[ks[0]])] + RenderWrites(p, g, ks[1..], ws)
  }

  function ModTest(n: nat): Option<K.Meta> -> bool {
    (e: Option<K.Meta>) => (if e.Some? then e.value.mod else 0) == n
  }

  /** One comparison per key read, against the mod-revision it had in `snap`. */
  function RenderReads(p: E.Key -> Bytes, snap: E.Store, rs: seq<E.Key>): (r: seq<K.Cmp>)
    ensures |r| == |rs| && forall i :: 0 <= i < |rs| ==> r[i] == K.Cmp(p(rs[i]), ModTest(R.ModOf(snap, rs[i])))
  {
    seq(|rs|, i requires 0 <= i < |rs| => K.Cmp(p(rs[i]), ModTest(R.ModOf(snap, rs[i]))))
  }

  function RenderGets(p: E.Key -> Bytes, ks: seq<E.Key>): (r: seq<K.Op>)
    ensures |r| == |ks| && forall i :: 0 <= i < |ks| ==> r[i] == K.Get(p(ks[i]), None, 0)
  {
    seq(|ks|, i requires 0 <= i < |ks| => K.Get(p(ks[i]), None, 0))
  }

  /** If nothing read has changed, write; else fetch the prefetched keys again. */
  function StmTxn(p: E.Key -> Bytes, g: E.Value -> Bytes, snap: E.Store, rs: seq<E.Key>, ks: seq<E.Key>, ws: E.Writes,
                  pre: seq<E.Key>): K.Txn
    requires forall i :: 0 <= i < |ks| ==> ks[i] in ws
  {
    K.Txn(RenderReads(p, snap, rs), RenderWrites(p, g, ks, ws), RenderGets(p, pre))
  }

  ghost predicate Enumerates(ks: seq<E.Key>, keys: set<E.Key>) {
    && (forall i, j :: 0 <= i < j < |ks| ==> ks[i] != ks[j])
    && (forall k :: k in keys <==> k in ks)
  }

  // ----- its effect, key by key

  function WriteMeta(was: Option<K.Meta>, op: K.Op, r: nat): Option<K.Meta> {
    if op.Put? then Some(K.PutMeta(was, op, r)) else None
  }

  lemma WriteElsewhere(p: E.Key -> Bytes, g: E.Value -> Bytes, m: K.Snapshot, k: E.Key, w: E.Write, r: nat, x: Bytes)
    requires x != p(k)
    ensures K.Found(K.Effect(m, RenderWrite(p, g, k, w), r), x) == K.Found(m, x)
  {
  }

  lemma {:induction false} Elsewhere(p: E.Key -> Bytes, g: E.Value -> Bytes, m: K.Snapshot, ks: seq<E.Key>,
                                     ws: E.Writes, r: nat, x: Bytes)
    requires forall i :: 0 <= i < |ks| ==> ks[i] in ws && p(ks[i]) != x
    ensures K.Found(K.EffectAll(m, RenderWrites(p, g, ks, ws), r), x) == K.Found(m, x)
    decreases |ks|
  {
    if ks != [] {
      var op := RenderWrite(p, g, ks[0], ws[ks[0]]);
      WriteElsewhere(p, g, m, ks[0], ws[ks[0]], r, x);
      Elsewhere(p, g, K.Effect(m, op, r), ks[1..], ws, r, x);
      assert RenderWrites(p, g, ks, ws)[1..] == RenderWrites(p, g, ks[1..], ws);
    }
  }

  /** Each written key gets what its one write says, whatever the order of the writes. */
  lemma {:induction false} WrittenOnce(p: E.Key -> Bytes, g: E.Value -> Bytes, m: K.Snapshot, ks: seq<E.Key>,
                                       ws: E.Writes, r: nat, i: nat)
    requires Injective(p) && i < |ks| && forall j :: 0 <= j < |ks| ==> ks[j] in ws
    requires forall j, l :: 0 <= j < l < |ks| ==> ks[j] != ks[l]
    ensures var x := p(ks[i]);
      K.Found(K.EffectAll(m, RenderWrites(p, g, ks, ws), r), x) ==
      WriteMeta(K.Found(m, x), RenderWrite(p, g, ks[i], ws[ks[i]]), r)
    decreases |ks|
  {
    var op, x := RenderWrite(p, g, ks[0], ws[ks[0]]), p(ks[i]);
    assert RenderWrites(p, g, ks, ws)[1..] == RenderWrites(p, g, ks[1..], ws);
    if i == 0 {
      HeadApart(p, ks);
      Elsewhere(p, g, K.Effect(m, op, r), ks[1..], ws, r, x);
      WriteHere(p, g, m, ks[0], ws[ks[0]], r);
    } else {
      WriteElsewhere(p, g, m, ks[0], ws[ks[0]], r, x);
      WrittenOnce(p, g, K.Effect(m, op, r), ks[1..], ws, r, i - 1);
    }
  }

  lemma HeadApart(p: E.Key -> Bytes, ks: seq<E.Key>)
    requires Injective(p) && ks != [] && forall j, l :: 0 <= j < l < |ks| ==> ks[j] != ks[l]
    ensures forall j :: 0 <= j < |ks[1..]| ==> p(ks[1..][j]) != p(ks[0])
  {
    forall j | 0 <= j < |ks[1..]| ensures p(ks[1..][j]) != p(ks[0]) { assert ks[j + 1] != ks[0]; }
  }

  lemma WriteHere(p: E.Key -> Bytes, g: E.Value -> Bytes, m: K.Snapshot, k: E.Key, w: E.Write, r: nat)
    ensures var x := p(k); var op := RenderWrite(p, g, k, w);
      K.Found(K.Effect(m, op, r), x) == WriteMeta(K.Found(m, x), op, r)
  {
  }

  /** The typed effect of one write, as bytes. */
  lemma TypedWrite(p: E.Key -> Bytes, g: E.Value -> Bytes, s: E.Store, was: Option<K.Meta>, ws: E.Writes, t: E.Store,
                   k: E.Key)
    requires Matches(g, s.kv, k, was) && E.Accepts(s, ws) && P.WroteAt(s, ws, t, k) && k in ws
    ensures Matches(g, t.kv, k, WriteMeta(was, RenderWrite(p, g, k, ws[k]), s.Rev() + 1))
  {
  }

  /** A write that logs a change leaves something else than what was there. */
  lemma WriteDiffers(p: E.Key -> Bytes, g: E.Value -> Bytes, s: E.Store, was: Option<K.Meta>, ws: E.Writes, k: E.Key)
    requires Matches(g, s.kv, k, was) && k in E.ChangesOf(s, ws) && (k in s.kv ==> s.kv[k].mod <= s.Rev())
    ensures WriteMeta(was, RenderWrite(p, g, k, ws[k]), s.Rev() + 1) != was
  {
  }

  lemma WritesTrack(p: E.Key -> Bytes, g: E.Value -> Bytes, s: E.Store, m: K.Snapshot, ks: seq<E.Key>, ws: E.Writes,
                    t: E.Store)
    requires Injective(p) && AllTracked(p, g, s.kv, m) && Enumerates(ks, ws.Keys)
    requires E.Accepts(s, ws) && P.Wrote(s, ws, t)
    ensures AllTracked(p, g, t.kv, K.EffectAll(m, RenderWrites(p, g, ks, ws), s.Rev() + 1))
  {
    var m' := K.EffectAll(m, RenderWrites(p, g, ks, ws), s.Rev() + 1);
    forall k ensures TrackedAt(p, g, t.kv, m', k) {
      assert TrackedAt(p, g, s.kv, m, k) && P.WroteAt(s, ws, t, k);
      KeyTracks(p, g, s, m, ks, ws, t, k);
    }
    forall x | x in m' ensures Printed(p, t.kv, x) { StillPrinted(p, g, s, m, ks, ws, t, x); }
  }

  lemma StillPrinted(p: E.Key -> Bytes, g: E.Value -> Bytes, s: E.Store, m: K.Snapshot, ks: seq<E.Key>, ws: E.Writes,
                     t: E.Store, x: Bytes)
    requires Injective(p) && AllTracked(p, g, s.kv, m) && Enumerates(ks, ws.Keys)
    requires E.Accepts(s, ws) && P.Wrote(s, ws, t)
    requires x in K.EffectAll(m, RenderWrites(p, g, ks, ws), s.Rev() + 1)
    ensures Printed(p, t.kv, x)
  {
    if i :| 0 <= i < |ks| && p(ks[i]) == x {
      assert TrackedAt(p, g, s.kv, m, ks[i]) && P.WroteAt(s, ws, t, ks[i]);
      KeyTracks(p, g, s, m, ks, ws, t, ks[i]);
    } else {
      Elsewhere(p, g, m, ks, ws, s.Rev() + 1, x);
      assert Printed(p, s.kv, x);
      var k :| k in s.kv && p(k) == x;
      assert P.WroteAt(s, ws, t, k);
    }
  }

  lemma KeyTracks(p: E.Key -> Bytes, g: E.Value -> Bytes, s: E.Store, m: K.Snapshot, ks: seq<E.Key>, ws: E.Writes,
                  t: E.Store, k: E.Key)
    requires Injective(p) && TrackedAt(p, g, s.kv, m, k) && Enumerates(ks, ws.Keys)
    requires E.Accepts(s, ws) && P.WroteAt(s, ws, t, k)
    ensures TrackedAt(p, g, t.kv, K.EffectAll(m, RenderWrites(p, g, ks, ws), s.Rev() + 1), k)
  {
    if k in ws {
      var i := IndexOf(ks, ws, k);
      WrittenOnce(p, g, m, ks, ws, s.Rev() + 1, i);
      TypedWrite(p, g, s, K.Found(m, p(k)), ws, t, k);
    } else {
      UnwrittenStays(p, g, m, ks, ws, s.Rev() + 1, k);
    }
  }

  lemma IndexOf(ks: seq<E.Key>, ws: E.Writes, k: E.Key) returns (i: nat)
    requires Enumerates(ks, ws.Keys) && k in ws
    ensures i < |ks| && ks[i] == k
  {
    assert k in ws.Keys;
    i :| 0 <= i < |ks| && ks[i] == k;
  }

  lemma UnwrittenStays(p: E.Key -> Bytes, g: E.Value -> Bytes, m: K.Snapshot, ks: seq<E.Key>, ws: E.Writes, r: nat,
                       k: E.Key)
    requires Injective(p) && k !in ws && forall i :: 0 <= i < |ks| ==> ks[i] in ws
    ensures K.Found(K.EffectAll(m, RenderWrites(p, g, ks, ws), r), p(k)) == K.Found(m, p(k))
  {
    forall i | 0 <= i < |ks| ensures p(ks[i]) != p(k) {
    }
    Elsewhere(p, g, m, ks, ws, r, p(k));
  }

  // ----- revisions

  lemma FoundEqual(m: K.Snapshot, m': K.Snapshot)
    requires forall x :: K.Found(m, x) == K.Found(m', x)
    ensures m == m'
  {
    forall x ensures x in m <==> x in m' { assert K.Found(m, x) == K.Found(m', x); }
    forall x | x in m ensures m[x] == m'[x] { assert K.Found(m, x) == K.Found(m', x); }
  }

  /** Deleting what is not there changes nothing at all. */
  lemma NoChange(p: E.Key -> Bytes, g: E.Value -> Bytes, s: E.Store, m: K.Snapshot, ks: seq<E.Key>, ws: E.Writes,
                 r: nat)
    requires Injective(p) && AllTracked(p, g, s.kv, m) && Enumerates(ks, ws.Keys) && E.ChangesOf(s, ws) == map[]
    ensures K.EffectAll(m, RenderWrites(p, g, ks, ws), r) == m
  {
    var m' := K.EffectAll(m, RenderWrites(p, g, ks, ws), r);
    forall x ensures K.Found(m, x) == K.Found(m', x) {
      if i :| 0 <= i < |ks| && p(ks[i]) == x {
        assert ks[i] in ws.Keys;
        assert ks[i] !in E.ChangesOf(s, ws);
        assert TrackedAt(p, g, s.kv, m, ks[i]);
        WrittenOnce(p, g, m, ks, ws, r, i);
      } else {
        Elsewhere(p, g, m, ks, ws, r, x);
      }
    }
    FoundEqual(m, m');
  }

  /** Any other transaction changes the mod-revision of a key, or removes one. */
  lemma SomeChange(p: E.Key -> Bytes, g: E.Value -> Bytes, s: E.Store, m: K.Snapshot, ks: seq<E.Key>, ws: E.Writes,
                   k: E.Key)
    requires Injective(p) && AllTracked(p, g, s.kv, m) && Enumerates(ks, ws.Keys)
    requires E.Faithful(s) && k in E.ChangesOf(s, ws)
    ensures K.EffectAll(m, RenderWrites(p, g, ks, ws), s.Rev() + 1) != m
  {
    var i := IndexOf(ks, ws, k);
    WrittenOnce(p, g, m, ks, ws, s.Rev() + 1, i);
    assert TrackedAt(p, g, s.kv, m, k);
    if k in s.kv { E.ModNamesEntry(s.log, k); }
    WriteDiffers(p, g, s, K.Found(m, p(k)), ws, k);
  }

  // ----- the transaction

  lemma ReadsCompare(p: E.Key -> Bytes, g: E.Value -> Bytes, snap: E.Store, s: E.Store, m: K.Snapshot, rs: seq<E.Key>,
                     rset: set<E.Key>)
    requires AllTracked(p, g, s.kv, m) && Enumerates(rs, rset)
    ensures K.Holds(m, RenderReads(p, snap, rs)) <==> R.Validated(snap, s, rset)
  {
    var cmps := RenderReads(p, snap, rs);
    forall i | 0 <= i < |rs|
      ensures cmps[i].test(K.Found(m, cmps[i].key)) <==> R.ModOf(snap, rs[i]) == R.ModOf(s, rs[i])
    {
      assert TrackedAt(p, g, s.kv, m, rs[i]);
    }
    if K.Holds(m, cmps) {
      forall k | k in rset ensures R.ModOf(snap, k) == R.ModOf(s, k) {
        var i :| 0 <= i < |rs| && rs[i] == k;
        assert cmps[i].test(K.Found(m, cmps[i].key));
      }
    }
  }

  lemma NoConflict(p: E.Key -> Bytes, g: E.Value -> Bytes, ks: seq<E.Key>, ws: E.Writes, pre: seq<E.Key>)
    requires Injective(p) && Enumerates(ks, ws.Keys)
    ensures !K.Conflict(RenderWrites(p, g, ks, ws)) && !K.Conflict(RenderGets(p, pre))
  {
    var ops := RenderWrites(p, g, ks, ws);
    forall i, j | 0 <= i < |ops| && 0 <= j < |ops| && i != j ensures !K.Clash(ops[i], ops[j]) {
      assert ks[i] != ks[j];
      WritesApart(p, g, ks[i], ws[ks[i]], ks[j], ws[ks[j]]);
    }
  }

  lemma WritesApart(p: E.Key -> Bytes, g: E.Value -> Bytes, k: E.Key, w: E.Write, l: E.Key, w': E.Write)
    requires Injective(p) && k != l
    ensures !K.Clash(RenderWrite(p, g, k, w), RenderWrite(p, g, l, w'))
  {
    assert p(k) != p(l);
  }

  lemma WritesNotRefused(p: E.Key -> Bytes, g: E.Value -> Bytes, s: E.Store, h: K.History, ks: seq<E.Key>, ws: E.Writes)
    requires Tracks(p, g, s, h) && E.Accepts(s, ws) && forall i :: 0 <= i < |ks| ==> ks[i] in ws
    ensures !K.RefusesAny(h, RenderWrites(p, g, ks, ws))
  {
    var ops := RenderWrites(p, g, ks, ws);
    forall i | 0 <= i < |ops| ensures !K.Refused(h, ops[i]) {
      assert TrackedAt(p, g, s.kv, h.Now(), ks[i]);
    }
  }

  lemma Tracked(p: E.Key -> Bytes, g: E.Value -> Bytes, s: E.Store, h: K.History)
    requires Tracks(p, g, s, h)
    ensures AllTracked(p, g, s.kv, h.Now())
  {
  }

  /** A snapshot is added exactly when the typed log grows. */
  lemma SameGrowth(p: E.Key -> Bytes, g: E.Value -> Bytes, s: E.Store, m: K.Snapshot, ks: seq<E.Key>, ws: E.Writes)
    requires Injective(p) && AllTracked(p, g, s.kv, m) && E.Faithful(s) && Enumerates(ks, ws.Keys)
    ensures K.EffectAll(m, RenderWrites(p, g, ks, ws), s.Rev() + 1) == m <==> E.ChangesOf(s, ws) == map[]
  {
    if E.ChangesOf(s, ws) == map[] {
      NoChange(p, g, s, m, ks, ws, s.Rev() + 1);
    } else {
      var k :| k in E.ChangesOf(s, ws);
      SomeChange(p, g, s, m, ks, ws, k);
    }
  }

  lemma CommitRev(s: E.Store, ws: E.Writes)
    requires E.Accepts(s, ws)
    ensures E.Commit(s, ws).Rev() == if E.ChangesOf(s, ws) == map[] then s.Rev() else s.Rev() + 1
  {
  }

  lemma NextTracks(p: E.Key -> Bytes, g: E.Value -> Bytes, s': E.Store, h: K.History, t: K.Txn)
    requires h.Valid() && !K.Rejects(h, t) && AllTracked(p, g, s'.kv, K.Next(h, t))
    requires s'.Rev() == if K.Next(h, t) == h.Now() then h.Rev() else h.Rev() + 1
    ensures Tracks(p, g, s', K.After(h, t))
  {
    assert K.After(h, t).Now() == K.Next(h, t);
  }

  /** A transaction whose reads are current is the typed commit. */
  lemma CommitTracks(p: E.Key -> Bytes, g: E.Value -> Bytes, s: E.Store, h: K.History, t: K.Txn, ks: seq<E.Key>,
                     ws: E.Writes)
    requires Injective(p) && Tracks(p, g, s, h) && E.Faithful(s) && E.Accepts(s, ws) && Enumerates(ks, ws.Keys)
    requires K.Branch(h.Now(), t) == RenderWrites(p, g, ks, ws) && !K.Rejects(h, t)
    ensures Tracks(p, g, E.Commit(s, ws), K.After(h, t))
  {
    Tracked(p, g, s, h);
    P.CommitEffect(s, ws);
    WritesTrack(p, g, s, h.Now(), ks, ws, E.Commit(s, ws));
    SameGrowth(p, g, s, h.Now(), ks, ws);
    CommitRev(s, ws);
    NextTracks(p, g, E.Commit(s, ws), h, t);
  }

  lemma {:induction false} GetsChangeNothing(m: K.Snapshot, ops: seq<K.Op>, r: nat)
    requires forall i :: 0 <= i < |ops| ==> ops[i].Get?
    ensures K.EffectAll(m, ops, r) == m
  {
    if ops != [] { GetsChangeNothing(m, ops[1..], r); }
  }

  /** A conditional transaction: if its comparisons hold it is the typed commit, else nothing. */
  lemma CondCommit(p: E.Key -> Bytes, g: E.Value -> Bytes, s: E.Store, h: K.History, cmps: seq<K.Cmp>,
                   ks: seq<E.Key>, ws: E.Writes, pre: seq<E.Key>)
    requires Injective(p) && Tracks(p, g, s, h) && E.Faithful(s) && Enumerates(ks, ws.Keys)
    requires K.Holds(h.Now(), cmps) ==> E.Accepts(s, ws)
    ensures var t := K.Txn(cmps, RenderWrites(p, g, ks, ws), RenderGets(p, pre));
      !K.Rejects(h, t) && Tracks(p, g, if K.Holds(h.Now(), cmps) then E.Commit(s, ws) else s, K.After(h, t))
  {
    var t := K.Txn(cmps, RenderWrites(p, g, ks, ws), RenderGets(p, pre));
    NoConflict(p, g, ks, ws, pre);
    if K.Holds(h.Now(), cmps) {
      WritesNotRefused(p, g, s, h, ks, ws);
      CommitTracks(p, g, s, h, t, ks, ws);
    } else {
      FetchTracks(p, g, s, h, t, pre);
    }
  }

  /**
   What the STM library's commit does to the bytes: it succeeds exactly when the read set is
   current; then it is the typed commit, and otherwise nothing changes.
   */
  lemma StmCommit(p: E.Key -> Bytes, g: E.Value -> Bytes, snap: E.Store, s: E.Store, h: K.History,
                  rs: seq<E.Key>, rset: set<E.Key>, ks: seq<E.Key>, ws: E.Writes, pre: seq<E.Key>)
    requires Injective(p) && Tracks(p, g, s, h) && E.Faithful(s) && Enumerates(rs, rset) && Enumerates(ks, ws.Keys)
    requires R.Validated(snap, s, rset) ==> E.Accepts(s, ws)
    ensures var t := StmTxn(p, g, snap, rs, ks, ws, pre);
      && !K.Rejects(h, t)
      && (K.Holds(h.Now(), t.cmps) <==> R.Validated(snap, s, rset))
      && Tracks(p, g, if R.Validated(snap, s, rset) then E.Commit(s, ws) else s, K.After(h, t))
  {
    ReadsCompare(p, g, snap, s, h.Now(), rs, rset);
    CondCommit(p, g, s, h, RenderReads(p, snap, rs), ks, ws, pre);
  }

  lemma FetchTracks(p: E.Key -> Bytes, g: E.Value -> Bytes, s: E.Store, h: K.History, t: K.Txn, pre: seq<E.Key>)
    requires Tracks(p, g, s, h) && K.Branch(h.Now(), t) == RenderGets(p, pre)
    ensures K.After(h, t) == h && !K.RefusesAny(h, RenderGets(p, pre))
  {
    GetsChangeNothing(h.Now(), RenderGets(p, pre), h.Rev() + 1);
  }

  // ----- through the encrypted store

  ghost predicate Nameable(p: E.Key -> Bytes, ks: seq<E.Key>) {
    forall i :: 0 <= i < |ks| ==> KeyCodec.GoodKey(p(ks[i]))
  }

  lemma StmTxnOk(c: KeyCodec.Inner, p: E.Key -> Bytes, g: E.Value -> Bytes, snap: E.Store, rs: seq<E.Key>,
                 ks: seq<E.Key>, ws: E.Writes, pre: seq<E.Key>)
    requires Nameable(p, rs) && Nameable(p, ks) && Nameable(p, pre) && forall i :: 0 <= i < |ks| ==> ks[i] in ws
    ensures K.TxnOk(EncodedStore.IrcCoder(c), StmTxn(p, g, snap, rs, ks, ws, pre))
  {
  }

  /**
   A command through the whole stack. An attempt ran on an old snapshot; its transaction is
   rendered, encrypted key by key, and answered by the encrypted store. The decoded answer says
   success exactly when the read set is still current; then the plain bytes track the protocol's
   atomic step, and otherwise they still track the store as it was. The encrypted store follows.
   */
  lemma EncryptedCommandIsAtomic(e: Hmac.Encoder, u: string -> Bytes, p: E.Key -> Bytes, g: E.Value -> Bytes,
                                 op: C.Op, c: C.Client,
                                 snap: E.Store, s: E.Store, hp: K.History, he: K.History,
                                 rs: seq<E.Key>, ks: seq<E.Key>, pre: seq<E.Key>, out: K.Outcome)
    requires e.Valid() && Utf8(u) && p == Printer(u)
    requires P.Inv(s) && P.Registered(s, c) && E.Faithful(snap) && E.Extends(snap, s)
    requires C.TxnOf(op, c, snap).Ready?
    requires Enumerates(rs, T.ReadSet(op, c, snap)) && Enumerates(ks, C.TxnOf(op, c, snap).ws.Keys)
    requires Nameable(p, rs) && Nameable(p, ks) && Nameable(p, pre)
    requires Tracks(p, g, s, hp) && K.MirrorsAll(EncodedStore.IrcCoder(KeyCodec.HmacInner(e)), hp, he)
    requires var t := StmTxn(p, g, snap, rs, ks, C.TxnOf(op, c, snap).ws, pre);
      var x := K.EncTxn(EncodedStore.IrcCoder(KeyCodec.HmacInner(e)), t);
      x.Some? ==> K.Commits(he, x.value, out)
    ensures var coder := EncodedStore.IrcCoder(KeyCodec.HmacInner(e));
      var t := StmTxn(p, g, snap, rs, ks, C.TxnOf(op, c, snap).ws, pre);
      var current := R.Validated(snap, s, T.ReadSet(op, c, snap));
      var s' := if current then P.Next(s, P.Command(c, op)) else s;
      && K.EncTxn(coder, t).Some? && K.DecOutcome(coder, out).Some?
      && (var d := K.DecOutcome(coder, out).value; d.Done? && d.succeeded == current && d.rev == s'.Rev())
      && Tracks(p, g, s', K.After(hp, t))
      && K.MirrorsAll(coder, K.After(hp, t), K.After(he, K.EncTxn(coder, t).value))
  {
    var coder, ws := EncodedStore.IrcCoder(KeyCodec.HmacInner(e)), C.TxnOf(op, c, snap).ws;
    var t := StmTxn(p, g, snap, rs, ks, ws, pre);
    PrinterInjective(u);
    EncodedStore.IrcCoderValid(KeyCodec.HmacInner(e));
    StmTxnOk(KeyCodec.HmacInner(e), p, g, snap, rs, ks, ws, pre);
    K.TxnRefines(coder, hp, he, t, out);
    if R.Validated(snap, s, T.ReadSet(op, c, snap)) {
      R.ValidatedCommitIsAtomic(op, c, snap, s);
      ValidatedAccepted(op, c, snap, s);
    }
    StmCommit(p, g, snap, s, hp, rs, T.ReadSet(op, c, snap), ks, ws, pre);
  }

  lemma ValidatedAccepted(op: C.Op, c: C.Client, snap: E.Store, s: E.Store)
    requires P.Inv(s) && P.Registered(s, c) && E.Faithful(snap) && E.Extends(snap, s)
    requires R.Validated(snap, s, T.ReadSet(op, c, snap)) && C.TxnOf(op, c, snap).Ready?
    ensures E.Accepts(s, C.TxnOf(op, c, snap).ws)
  {
    forall k | k in T.ReadSet(op, c, snap) ensures E.SameAt(snap, s, k) { R.SameModSameEntry(snap, s, k); }
    R.ReadsDetermine(op, c, snap, s);
    Runs.NeverRefused(s, c, op);
  }

  // ----- what reads bring back

  lemma SecondDiffers(kvs: seq<K.KV>)
    requires forall i, j :: 0 <= i < j < |kvs| ==> kvs[i].key != kvs[j].key
    ensures |kvs| > 1 ==> kvs[0].key != kvs[1].key
  {
  }

  /** A get of one key gives the typed record, or nothing for a missing one. */
  lemma GetReads(p: E.Key -> Bytes, g: E.Value -> Bytes, s: E.Store, m: K.Snapshot, k: E.Key, kvs: seq<K.KV>)
    requires Gob(g) && AllTracked(p, g, s.kv, m) && K.Lists(kvs, m, p(k), None)
    ensures |kvs| <= 1 && (k in s.kv <==> |kvs| == 1)
    ensures g(s.Read(k)) == if kvs == [] then [] else kvs[0].meta.val
    ensures R.ModOf(s, k) == if kvs == [] then 0 else kvs[0].meta.mod
  {
    var x := p(k);
    assert TrackedAt(p, g, s.kv, m, k);
    forall i | 0 <= i < |kvs| ensures kvs[i].key == x && K.Found(m, x) == Some(kvs[i].meta) {
      assert K.ListedRight(kvs[i], m, x, None);
    }
    SecondDiffers(kvs);
    if x in m { assert K.Listed(kvs, x, None, x); }
  }
}
