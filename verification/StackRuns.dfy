/**
 Whole runs of the stack: any interleaving of command attempts, registrations, cleanups, lease
 expiries and administration, on the encrypted store, is a run of the membership protocol.
 */
module StackRuns {
  import opened Bytes
  import opened Records
  import E = Etcd
  import K = KeyStore
  import C = Commands
  import P = Protocol
  import T = Transactions
  import R = Retry
  import opened Runs
  import opened Stack
  import Hmac
  import KeyNames
  import EncodedStore
  import KeyCodec

  /** `at` is the state an attempt read; `rs`, `ks` and `pre` are the orders in which it sends its keys. */
  datatype Event =
    | Attempt(op: C.Op, c: C.Client, at: nat, rs: seq<E.Key>, ks: seq<E.Key>, pre: seq<E.Key>)
    | Registration(c: C.Client, pinned: string)
    | Cleaning(server: Lease, k: E.Key, rev: nat)
    | Appointment(login: string, oper: OperValue)
    | Lapse(lease: Lease)
    | Granted(lease: Lease)

  // ----- the typed run

  /** An attempt whose reads are still current. */
  ghost predicate Current(trace: seq<E.Store>, ev: Event)
    requires ev.Attempt? && ev.at < |trace|
  {
    var snap := trace[ev.at];
    C.TxnOf(ev.op, ev.c, snap).Ready? && R.Validated(snap, trace[|trace| - 1], T.ReadSet(ev.op, ev.c, snap))
  }

  /** The protocol's steps that an event amounts to. */
  ghost function Steps(trace: seq<E.Store>, ev: Event): seq<P.Action>
    requires ev.Attempt? ==> ev.at < |trace|
  {
    match ev
    case Attempt(op, c, _, _, _, _) => if Current(trace, ev) then [P.Command(c, op)] else []
    case Registration(c, pinned) => [P.Register(c, pinned)]
    case Cleaning(server, k, rev) => [P.Cleanup(server, k, rev)]
    case Appointment(login, oper) => [P.SetOper(login, oper)]
    case Lapse(l) => [P.Expiry(l)]
    case Granted(l) => [P.Grant(l)]
  }

  ghost predicate EventOk(p: E.Key -> Bytes, trace: seq<E.Store>, ev: Event)
    requires trace != []
  {
    var s := trace[|trace| - 1];
    match ev
    case Attempt(op, c, at, rs, ks, pre) =>
      && at < |trace|
      && (C.TxnOf(op, c, trace[at]).Ready? ==>
            Enumerates(rs, T.ReadSet(op, c, trace[at])) && Enumerates(ks, C.TxnOf(op, c, trace[at]).ws.Keys))
      && Nameable(p, rs) && Nameable(p, ks) && Nameable(p, pre)
      && (Current(trace, ev) ==> P.Registered(s, c))
    case Registration(c, pinned) =>
      P.PinnedOk(pinned) && c.lease in s.leases && Nameable(p, [E.UserCtl(c.nick), E.UserMsg(c.nick)])
    case Cleaning(server, k, rev) => P.SawEmptyList(s, server, k, rev) && Nameable(p, [k])
    case Appointment(login, _) => Nameable(p, [E.OperCtl(login)])
    case Lapse(l) => l in s.leases
    case Granted(l) => l != 0
  }

  // ----- the bytes

  function VersionZero(): Option<K.Meta> -> bool {
    (e: Option<K.Meta>) => (if e.Some? then e.value.version else 0) == 0
  }

  function RegisterTxn(p: E.Key -> Bytes, g: E.Value -> Bytes, c: C.Client, pinned: string): K.Txn {
    K.Txn([K.Cmp(p(E.UserCtl(c.nick)), VersionZero())],
          RenderWrites(p, g, [E.UserCtl(c.nick), E.UserMsg(c.nick)], P.RegisterWrites(c, pinned)), RenderGets(p, []))
  }

  function CleanTxn(p: E.Key -> Bytes, g: E.Value -> Bytes, k: E.Key, rev: nat): K.Txn {
    K.Txn([K.Cmp(p(k), ModTest(rev))], RenderWrites(p, g, [k], map[k := E.Del]), RenderGets(p, []))
  }

  function AppointTxn(p: E.Key -> Bytes, g: E.Value -> Bytes, login: string, oper: OperValue): K.Txn {
    var k := E.OperCtl(login);
    K.Txn([], RenderWrites(p, g, [k], map[k := E.Put(E.OperV(oper), E.Detach)]), RenderGets(p, []))
  }

  /** The transaction an event sends, if any. */
  ghost function Sends(p: E.Key -> Bytes, g: E.Value -> Bytes, trace: seq<E.Store>, ev: Event): Option<K.Txn>
    requires trace != [] && EventOk(p, trace, ev)
  {
    match ev
    case Attempt(op, c, at, rs, ks, pre) =>
      if C.TxnOf(op, c, trace[at]).Ready?
      then Some(StmTxn(p, g, trace[at], rs, ks, C.TxnOf(op, c, trace[at]).ws, pre))
      else None
    case Registration(c, pinned) => Some(RegisterTxn(p, g, c, pinned))
    case Cleaning(_, k, rev) => Some(CleanTxn(p, g, k, rev))
    case Appointment(login, oper) => Some(AppointTxn(p, g, login, oper))
    case Lapse(_) => None
    case Granted(_) => None
  }

  /** etcd drops the keys of an expired lease, in one revision. */
  function DropLease(m: K.Snapshot, l: Lease): K.Snapshot { map x | x in m && m[x].lease != l :: m[x] }

  function Lapsed(h: K.History, l: Lease): (h': K.History)
    requires h.Valid()
    ensures h'.Valid()
  {
    if DropLease(h.Now(), l) == h.Now() then h else K.History(h.snaps + [DropLease(h.Now(), l)])
  }

  ghost function PlainAfter(p: E.Key -> Bytes, g: E.Value -> Bytes, trace: seq<E.Store>, ev: Event,
                            h: K.History): (h': K.History)
    requires trace != [] && EventOk(p, trace, ev) && h.Valid()
    ensures h'.Valid()
  {
    if ev.Lapse? then Lapsed(h, ev.lease)
    else
      var t := Sends(p, g, trace, ev);
      if t.None? then h else K.After(h, t.value)
  }

  ghost function CryptAfter(c: K.Coder, p: E.Key -> Bytes, g: E.Value -> Bytes, trace: seq<E.Store>, ev: Event,
                            h: K.History): (h': K.History)
    requires trace != [] && EventOk(p, trace, ev) && h.Valid()
    ensures h'.Valid()
  {
    if ev.Lapse? then Lapsed(h, ev.lease)
    else
      var t := Sends(p, g, trace, ev);
      if t.None? || K.EncTxn(c, t.value).None? then h else K.After(h, K.EncTxn(c, t.value).value)
  }

  // ----- lease expiry on both stores

  lemma DropMirrors(c: K.Coder, m: K.Snapshot, e: K.Snapshot, l: Lease)
    requires c.Valid() && K.Mirrors(c, m, e)
    ensures K.Mirrors(c, DropLease(m, l), DropLease(e, l))
  {
    var m', e' := DropLease(m, l), DropLease(e, l);
    forall k | k in m' ensures K.Stored(c, m', e', k) { assert K.Stored(c, m, e, k); }
    forall x | x in e' ensures K.Imaged(c, m', x) {
      assert K.Imaged(c, m, x);
      assert K.Stored(c, m, e, c.dec(x).text);
    }
  }

  lemma LapseMirrors(c: K.Coder, hp: K.History, he: K.History, l: Lease)
    requires c.Valid() && hp.Valid() && K.MirrorsAll(c, hp, he)
    ensures he.Valid() && K.MirrorsAll(c, Lapsed(hp, l), Lapsed(he, l))
  {
    K.NowMirrors(c, hp, he);
    DropMirrors(c, hp.Now(), he.Now(), l);
    K.NextMirrors(c, hp, he, DropLease(hp.Now(), l), DropLease(he.Now(), l));
  }

  lemma DropTracks(p: E.Key -> Bytes, g: E.Value -> Bytes, s: E.Store, m: K.Snapshot, l: Lease)
    requires Injective(p) && AllTracked(p, g, s.kv, m)
    ensures AllTracked(p, g, E.Expire(s, l).kv, DropLease(m, l))
    ensures DropLease(m, l) == m <==> forall k :: k in s.kv ==> s.kv[k].lease != l
  {
    ExpireEffect(s, l);
    var kv, m' := E.Expire(s, l).kv, DropLease(m, l);
    forall k ensures TrackedAt(p, g, kv, m', k) { assert TrackedAt(p, g, s.kv, m, k); }
    forall x | x in m ensures exists k :: k in s.kv && p(k) == x && m[x].lease == s.kv[k].lease {
      assert Printed(p, s.kv, x);
      var k :| k in s.kv && p(k) == x;
      assert TrackedAt(p, g, s.kv, m, k);
    }
    forall x | x in m' ensures Printed(p, kv, x) {
      var k :| k in s.kv && p(k) == x && m[x].lease == s.kv[k].lease;
      assert k in kv;
    }
    if m' == m {
      forall k | k in s.kv ensures s.kv[k].lease != l { assert TrackedAt(p, g, s.kv, m, k); }
    }
    if forall k :: k in s.kv ==> s.kv[k].lease != l {
      forall x | x in m ensures x in m' { var k :| k in s.kv && p(k) == x && m[x].lease == s.kv[k].lease; }
    }
  }

  lemma ExpireRev(s: E.Store, l: Lease)
    ensures E.Expire(s, l).Rev() == if forall k :: k in s.kv ==> s.kv[k].lease != l then s.Rev() else s.Rev() + 1
  {
    var changes: E.Revision := map k | k in s.kv && s.kv[k].lease == l :: E.Gone;
    if !(forall k :: k in s.kv ==> s.kv[k].lease != l) {
      var k :| k in s.kv && s.kv[k].lease == l;
      assert k in changes;
    } else {
      assert changes == map[];
    }
  }

  lemma LapseTracks(p: E.Key -> Bytes, g: E.Value -> Bytes, s: E.Store, h: K.History, l: Lease)
    requires Injective(p) && Tracks(p, g, s, h)
    ensures Tracks(p, g, E.Expire(s, l), Lapsed(h, l))
  {
    DropTracks(p, g, s, h.Now(), l);
    ExpireRev(s, l);
    assert Lapsed(h, l).Now() == DropLease(h.Now(), l);
  }

  // ----- the other transactions

  lemma RegisterTracks(p: E.Key -> Bytes, g: E.Value -> Bytes, s: E.Store, h: K.History, c: C.Client, pinned: string)
    requires Injective(p) && Tracks(p, g, s, h) && E.Faithful(s) && c.lease in s.leases
    ensures Tracks(p, g, P.Next(s, P.Register(c, pinned)), K.After(h, RegisterTxn(p, g, c, pinned)))
  {
    var ks, ws := [E.UserCtl(c.nick), E.UserMsg(c.nick)], P.RegisterWrites(c, pinned);
    var cmps := [K.Cmp(p(E.UserCtl(c.nick)), VersionZero())];
    assert TrackedAt(p, g, s.kv, h.Now(), E.UserCtl(c.nick));
    assert K.Holds(h.Now(), cmps) <==> cmps[0].test(K.Found(h.Now(), cmps[0].key));
    assert E.Accepts(s, ws);
    CondCommit(p, g, s, h, cmps, ks, ws, []);
  }

  lemma CleanTracks(p: E.Key -> Bytes, g: E.Value -> Bytes, s: E.Store, h: K.History, server: Lease, k: E.Key, rev: nat)
    requires Injective(p) && Tracks(p, g, s, h) && E.Faithful(s) && rev > 0
    ensures Tracks(p, g, P.Next(s, P.Cleanup(server, k, rev)), K.After(h, CleanTxn(p, g, k, rev)))
  {
    var cmps := [K.Cmp(p(k), ModTest(rev))];
    assert TrackedAt(p, g, s.kv, h.Now(), k);
    assert K.Holds(h.Now(), cmps) <==> cmps[0].test(K.Found(h.Now(), cmps[0].key));
    assert E.Accepts(s, map[k := E.Del]);
    CondCommit(p, g, s, h, cmps, [k], map[k := E.Del], []);
  }

  lemma AppointTracks(p: E.Key -> Bytes, g: E.Value -> Bytes, s: E.Store, h: K.History, login: string, oper: OperValue)
    requires Injective(p) && Tracks(p, g, s, h) && E.Faithful(s)
    ensures Tracks(p, g, P.Next(s, P.SetOper(login, oper)), K.After(h, AppointTxn(p, g, login, oper)))
  {
    var k := E.OperCtl(login);
    var ws := map[k := E.Put(E.OperV(oper), E.Detach)];
    assert E.Accepts(s, ws);
    CondCommit(p, g, s, h, [], [k], ws, []);
  }

  // ----- one event

  /** Where a run stands: every earlier state is a past of the current one, and both byte stores follow it. */
  ghost predicate Stands(c: K.Coder, p: E.Key -> Bytes, g: E.Value -> Bytes, trace: seq<E.Store>, hp: K.History,
                         he: K.History) {
    && trace != [] && P.Inv(trace[|trace| - 1])
    && (forall i :: 0 <= i < |trace| ==> PastOf(trace[i], trace[|trace| - 1]))
    && Tracks(p, g, trace[|trace| - 1], hp) && K.MirrorsAll(c, hp, he)
  }

  ghost predicate PastOf(s: E.Store, t: E.Store) { E.Faithful(s) && E.Extends(s, t) }

  /** The state after the steps of an event. */
  ghost function TypedAfter(trace: seq<E.Store>, ev: Event): E.Store
    requires trace != [] && (ev.Attempt? ==> ev.at < |trace|)
  {
    var s, steps := trace[|trace| - 1], Steps(trace, ev);
    if steps == [] then s else P.Next(s, steps[0])
  }

  lemma AttemptTracks(c: K.Coder, p: E.Key -> Bytes, g: E.Value -> Bytes, trace: seq<E.Store>, hp: K.History,
                      he: K.History, ev: Event)
    requires Injective(p) && Stands(c, p, g, trace, hp, he) && EventOk(p, trace, ev) && ev.Attempt?
    ensures Tracks(p, g, TypedAfter(trace, ev), PlainAfter(p, g, trace, ev, hp))
  {
    var snap, s, op, cl := trace[ev.at], trace[|trace| - 1], ev.op, ev.c;
    assert PastOf(snap, s);
    if C.TxnOf(op, cl, snap).Ready? {
      var ws := C.TxnOf(op, cl, snap).ws;
      if Current(trace, ev) {
        R.ValidatedCommitIsAtomic(op, cl, snap, s);
        ValidatedAccepted(op, cl, snap, s);
      }
      StmCommit(p, g, snap, s, hp, ev.rs, T.ReadSet(op, cl, snap), ev.ks, ws, ev.pre);
    }
  }

  lemma RegistrationTracks(p: E.Key -> Bytes, g: E.Value -> Bytes, trace: seq<E.Store>, h: K.History, cl: C.Client,
                           pinned: string)
    requires Injective(p) && trace != [] && EventOk(p, trace, Registration(cl, pinned))
    requires Tracks(p, g, trace[|trace| - 1], h) && E.Faithful(trace[|trace| - 1])
    ensures var ev := Registration(cl, pinned); Tracks(p, g, TypedAfter(trace, ev), PlainAfter(p, g, trace, ev, h))
  {
    RegisterTracks(p, g, trace[|trace| - 1], h, cl, pinned);
  }

  lemma CleaningTracks(p: E.Key -> Bytes, g: E.Value -> Bytes, trace: seq<E.Store>, h: K.History, server: Lease,
                       k: E.Key, rev: nat)
    requires Injective(p) && trace != [] && EventOk(p, trace, Cleaning(server, k, rev))
    requires Tracks(p, g, trace[|trace| - 1], h) && E.Faithful(trace[|trace| - 1])
    ensures var ev := Cleaning(server, k, rev); Tracks(p, g, TypedAfter(trace, ev), PlainAfter(p, g, trace, ev, h))
  {
    CleanTracks(p, g, trace[|trace| - 1], h, server, k, rev);
  }

  lemma AppointmentTracks(p: E.Key -> Bytes, g: E.Value -> Bytes, trace: seq<E.Store>, h: K.History, login: string,
                          oper: OperValue)
    requires Injective(p) && trace != [] && EventOk(p, trace, Appointment(login, oper))
    requires Tracks(p, g, trace[|trace| - 1], h) && E.Faithful(trace[|trace| - 1])
    ensures var ev := Appointment(login, oper); Tracks(p, g, TypedAfter(trace, ev), PlainAfter(p, g, trace, ev, h))
  {
    AppointTracks(p, g, trace[|trace| - 1], h, login, oper);
  }

  lemma LeaseEventTracks(p: E.Key -> Bytes, g: E.Value -> Bytes, trace: seq<E.Store>, h: K.History, ev: Event)
    requires Injective(p) && trace != [] && EventOk(p, trace, ev) && (ev.Lapse? || ev.Granted?)
    requires Tracks(p, g, trace[|trace| - 1], h)
    ensures Tracks(p, g, TypedAfter(trace, ev), PlainAfter(p, g, trace, ev, h))
  {
    if ev.Lapse? { LapseTracks(p, g, trace[|trace| - 1], h, ev.lease); }
  }

  lemma EventTracks(c: K.Coder, p: E.Key -> Bytes, g: E.Value -> Bytes, trace: seq<E.Store>, hp: K.History,
                    he: K.History, ev: Event)
    requires Injective(p) && Stands(c, p, g, trace, hp, he) && EventOk(p, trace, ev)
    ensures Tracks(p, g, TypedAfter(trace, ev), PlainAfter(p, g, trace, ev, hp))
  {
    match ev {
      case Attempt(_, _, _, _, _, _) => AttemptTracks(c, p, g, trace, hp, he, ev);
      case Registration(cl, pinned) => RegistrationTracks(p, g, trace, hp, cl, pinned);
      case Cleaning(server, k, rev) => CleaningTracks(p, g, trace, hp, server, k, rev);
      case Appointment(login, oper) => AppointmentTracks(p, g, trace, hp, login, oper);
      case Lapse(_) => LeaseEventTracks(p, g, trace, hp, ev);
      case Granted(_) => LeaseEventTracks(p, g, trace, hp, ev);
    }
  }

  lemma WritesOk(c: KeyCodec.Inner, p: E.Key -> Bytes, g: E.Value -> Bytes, cmps: seq<K.Cmp>, ks: seq<E.Key>,
                 ws: E.Writes, pre: seq<E.Key>)
    requires Nameable(p, ks) && Nameable(p, pre) && forall i :: 0 <= i < |ks| ==> ks[i] in ws
    requires forall i :: 0 <= i < |cmps| ==> KeyCodec.GoodKey(cmps[i].key)
    ensures K.TxnOk(EncodedStore.IrcCoder(c), K.Txn(cmps, RenderWrites(p, g, ks, ws), RenderGets(p, pre)))
  {
  }

  lemma SendsOk(c: KeyCodec.Inner, p: E.Key -> Bytes, g: E.Value -> Bytes, trace: seq<E.Store>, ev: Event)
    requires trace != [] && EventOk(p, trace, ev) && Sends(p, g, trace, ev).Some?
    ensures K.TxnOk(EncodedStore.IrcCoder(c), Sends(p, g, trace, ev).value)
  {
    match ev {
      case Attempt(op, cl, at, rs, ks, pre) => StmTxnOk(c, p, g, trace[at], rs, ks, C.TxnOf(op, cl, trace[at]).ws, pre);
      case Registration(cl, pinned) =>
        var ks := [E.UserCtl(cl.nick), E.UserMsg(cl.nick)];
        assert KeyCodec.GoodKey(p(ks[0]));
        WritesOk(c, p, g, [K.Cmp(p(ks[0]), VersionZero())], ks, P.RegisterWrites(cl, pinned), []);
      case Cleaning(_, k, rev) =>
        assert KeyCodec.GoodKey(p([k][0]));
        WritesOk(c, p, g, [K.Cmp(p(k), ModTest(rev))], [k], map[k := E.Del], []);
      case Appointment(login, oper) =>
        var k := E.OperCtl(login);
        WritesOk(c, p, g, [], [k], map[k := E.Put(E.OperV(oper), E.Detach)], []);
      case _ =>
    }
  }

  lemma EventMirrors(c: KeyCodec.Inner, p: E.Key -> Bytes, g: E.Value -> Bytes, trace: seq<E.Store>, hp: K.History,
                     he: K.History, ev: Event)
    requires c.Valid() && hp.Valid() && he.Valid() && trace != [] && EventOk(p, trace, ev)
    requires K.MirrorsAll(EncodedStore.IrcCoder(c), hp, he)
    ensures K.MirrorsAll(EncodedStore.IrcCoder(c), PlainAfter(p, g, trace, ev, hp),
                         CryptAfter(EncodedStore.IrcCoder(c), p, g, trace, ev, he))
  {
    EncodedStore.IrcCoderValid(c);
    if ev.Lapse? {
      LapseMirrors(EncodedStore.IrcCoder(c), hp, he, ev.lease);
    } else {
      SendMirrors(c, p, g, trace, hp, he, ev);
    }
  }

  lemma SendMirrors(c: KeyCodec.Inner, p: E.Key -> Bytes, g: E.Value -> Bytes, trace: seq<E.Store>, hp: K.History,
                    he: K.History, ev: Event)
    requires c.Valid() && EncodedStore.IrcCoder(c).Valid() && hp.Valid() && he.Valid()
    requires trace != [] && EventOk(p, trace, ev) && !ev.Lapse?
    requires K.MirrorsAll(EncodedStore.IrcCoder(c), hp, he)
    ensures K.MirrorsAll(EncodedStore.IrcCoder(c), PlainAfter(p, g, trace, ev, hp),
                         CryptAfter(EncodedStore.IrcCoder(c), p, g, trace, ev, he))
  {
    var t := Sends(p, g, trace, ev);
    if t.Some? {
      SendsOk(c, p, g, trace, ev);
      K.AfterMirrors(EncodedStore.IrcCoder(c), hp, he, t.value);
    }
  }

  lemma StepEnabled(p: E.Key -> Bytes, trace: seq<E.Store>, ev: Event)
    requires trace != [] && EventOk(p, trace, ev)
    ensures |Steps(trace, ev)| <= 1
    ensures Steps(trace, ev) != [] ==> P.Enabled(trace[|trace| - 1], Steps(trace, ev)[0])
  {
  }

  lemma NextExtends(s: E.Store, a: P.Action)
    ensures E.Extends(s, P.Next(s, a))
  {
  }

  lemma MorePast(trace: seq<E.Store>, t: E.Store)
    requires trace != [] && E.Faithful(t) && E.Extends(trace[|trace| - 1], t)
    requires forall i :: 0 <= i < |trace| ==> PastOf(trace[i], trace[|trace| - 1])
    ensures forall i :: 0 <= i < |trace + [t]| ==> PastOf((trace + [t])[i], t)
  {
    forall i | 0 <= i < |trace + [t]| ensures PastOf((trace + [t])[i], t) {
      if i < |trace| { assert PastOf(trace[i], trace[|trace| - 1]); }
    }
  }

  /** One event keeps all the layers in step. */
  lemma EventStands(c: KeyCodec.Inner, p: E.Key -> Bytes, g: E.Value -> Bytes, trace: seq<E.Store>, hp: K.History,
                    he: K.History, ev: Event)
    requires c.Valid() && Injective(p) && Stands(EncodedStore.IrcCoder(c), p, g, trace, hp, he) && EventOk(p, trace, ev)
    ensures he.Valid()
    ensures Stands(EncodedStore.IrcCoder(c), p, g, trace + [TypedAfter(trace, ev)], PlainAfter(p, g, trace, ev, hp),
                   CryptAfter(EncodedStore.IrcCoder(c), p, g, trace, ev, he))
  {
    var s, t := trace[|trace| - 1], TypedAfter(trace, ev);
    EventTracks(EncodedStore.IrcCoder(c), p, g, trace, hp, he, ev);
    EventMirrors(c, p, g, trace, hp, he, ev);
    StepEnabled(p, trace, ev);
    var steps := Steps(trace, ev);
    if steps != [] {
      StepKeeps(s, steps[0]);
      NextExtends(s, steps[0]);
    }
    MorePast(trace, t);
  }

  // ----- whole runs

  /** The typed states of a run of events. */
  ghost function Trace(p: E.Key -> Bytes, events: seq<Event>): (r: seq<E.Store>)
    ensures r != []
    decreases |events|
  {
    if events == [] then [E.EMPTY]
    else
      var trace, ev := Trace(p, events[..|events| - 1]), events[|events| - 1];
      if EventOk(p, trace, ev) then trace + [TypedAfter(trace, ev)] else trace
  }

  ghost function PlainRun(p: E.Key -> Bytes, g: E.Value -> Bytes, events: seq<Event>): (h: K.History)
    ensures h.Valid()
    decreases |events|
  {
    if events == [] then K.History([map[]])
    else
      var past, ev := events[..|events| - 1], events[|events| - 1];
      var h := PlainRun(p, g, past);
      if EventOk(p, Trace(p, past), ev) then PlainAfter(p, g, Trace(p, past), ev, h) else h
  }

  /** What the etcd cluster holds. */
  ghost function CryptRun(c: K.Coder, p: E.Key -> Bytes, g: E.Value -> Bytes, events: seq<Event>): (h: K.History)
    ensures h.Valid()
    decreases |events|
  {
    if events == [] then K.History([map[]])
    else
      var past, ev := events[..|events| - 1], events[|events| - 1];
      var h := CryptRun(c, p, g, past);
      if EventOk(p, Trace(p, past), ev) then CryptAfter(c, p, g, Trace(p, past), ev, h) else h
  }

  ghost predicate AllOk(p: E.Key -> Bytes, events: seq<Event>)
    decreases |events|
  {
    events == [] ||
    (AllOk(p, events[..|events| - 1]) && EventOk(p, Trace(p, events[..|events| - 1]), events[|events| - 1]))
  }

  lemma StartStands(c: KeyCodec.Inner, p: E.Key -> Bytes, g: E.Value -> Bytes)
    requires c.Valid()
    ensures Stands(EncodedStore.IrcCoder(c), p, g, [E.EMPTY], K.History([map[]]), K.History([map[]]))
  {
    EmptyInv();
    K.EmptyMirrors(EncodedStore.IrcCoder(c));
    var none: K.History := K.History([map[]]);
    forall k ensures TrackedAt(p, g, E.EMPTY.kv, none.Now(), k) { }
    assert PastOf(E.EMPTY, E.EMPTY);
  }

  /**
   Every run of events on the encrypted store is a run of the protocol: `acts` is one, all of its
   steps are enabled, and the encrypted store mirrors plain bytes that track its final state.
   */
  lemma {:induction false} EncryptedRun(c: KeyCodec.Inner, p: E.Key -> Bytes, g: E.Value -> Bytes, events: seq<Event>)
    returns (acts: seq<P.Action>)
    requires c.Valid() && Injective(p) && AllOk(p, events)
    ensures P.AllEnabled(E.EMPTY, acts) && P.Run(E.EMPTY, acts) == Trace(p, events)[|Trace(p, events)| - 1]
    ensures Stands(EncodedStore.IrcCoder(c), p, g, Trace(p, events), PlainRun(p, g, events),
                   CryptRun(EncodedStore.IrcCoder(c), p, g, events))
    decreases |events|
  {
    if events == [] {
      StartStands(c, p, g);
      acts := [];
    } else {
      var past, ev := events[..|events| - 1], events[|events| - 1];
      acts := EncryptedRun(c, p, g, past);
      var trace := Trace(p, past);
      EventStands(c, p, g, trace, PlainRun(p, g, past), CryptRun(EncodedStore.IrcCoder(c), p, g, past), ev);
      StepEnabled(p, trace, ev);
      var steps := Steps(trace, ev);
      if steps != [] {
        RunMore(E.EMPTY, acts, steps[0]);
        acts := acts + [steps[0]];
      }
    }
  }

  /** The list stored under the key's encryption: none, or the one whose encoding is stored. */
  ghost predicate HoldsList(c: K.Coder, g: E.Value -> Bytes, h: K.History, x: Bytes, list: seq<Member>)
    requires h.Valid()
  {
    var y := K.Found(h.Now(), K.Enc(c, x));
    if y.None? then list == [] else y.value.val == g(E.NicksV(list))
  }

  ghost predicate HoldsUser(c: K.Coder, g: E.Value -> Bytes, h: K.History, x: Bytes, u: User)
    requires h.Valid()
  {
    var y := K.Found(h.Now(), K.Enc(c, x));
    y.Some? && y.value.val == g(E.UserV(u))
  }

  lemma StoredList(c: K.Coder, p: E.Key -> Bytes, g: E.Value -> Bytes, trace: seq<E.Store>, hp: K.History,
                   he: K.History,
                   ch: string, l: Lease, list: seq<Member>)
    requires c.Valid() && Gob(g) && Stands(c, p, g, trace, hp, he) && he.Valid()
    requires c.named(p(E.ChanNicks(ch, l))) && HoldsList(c, g, he, p(E.ChanNicks(ch, l)), list)
    ensures P.Members(trace[|trace| - 1].kv, ch, l) == list
  {
    var s, k := trace[|trace| - 1], E.ChanNicks(ch, l);
    K.NowMirrors(c, hp, he);
    K.SameFound(c, hp.Now(), he.Now(), p(k));
    assert TrackedAt(p, g, s.kv, hp.Now(), k) && P.EntryOk(s, k);
  }

  lemma StoredUser(c: K.Coder, p: E.Key -> Bytes, g: E.Value -> Bytes, trace: seq<E.Store>, hp: K.History,
                   he: K.History,
                   n: string, u: User)
    requires c.Valid() && Gob(g) && Stands(c, p, g, trace, hp, he) && he.Valid()
    requires c.named(p(E.UserCtl(n))) && HoldsUser(c, g, he, p(E.UserCtl(n)), u)
    ensures P.UserIn(trace[|trace| - 1].kv, n) == Some(u)
  {
    var s, k := trace[|trace| - 1], E.UserCtl(n);
    K.NowMirrors(c, hp, he);
    K.SameFound(c, hp.Now(), he.Now(), p(k));
    assert TrackedAt(p, g, s.kv, hp.Now(), k);
  }

  /**
   Agreement, of the bytes in the cluster: after any run of events, whatever user record and nick
   list are stored under their encrypted keys, the list has the nick as often as the record has
   the channel, if it is the list of the record's lease, and otherwise not at all.
   */
  lemma EncryptedBytesAgree(e: Hmac.Encoder, u: string -> Bytes, g: E.Value -> Bytes, events: seq<Event>,
                            n: string, ch: string, l: Lease, user: User, list: seq<Member>)
    requires e.Valid() && KeyNames.Utf8(u) && Gob(g) && AllOk(Printer(u), events)
    requires KeyCodec.GoodKey(Printer(u)(E.UserCtl(n))) && KeyCodec.GoodKey(Printer(u)(E.ChanNicks(ch, l)))
    requires var coder := EncodedStore.IrcCoder(KeyCodec.HmacInner(e)); var h := CryptRun(coder, Printer(u), g, events);
      && HoldsUser(coder, g, h, Printer(u)(E.UserCtl(n)), user)
      && HoldsList(coder, g, h, Printer(u)(E.ChanNicks(ch, l)), list)
    ensures Entries(list, n) == if l == user.lease then multiset(user.channels)[ch] else 0
  {
    var c, p := KeyCodec.HmacInner(e), Printer(u);
    var coder := EncodedStore.IrcCoder(c);
    PrinterInjective(u);
    EncodedStore.IrcCoderValid(c);
    var acts := EncryptedRun(c, p, g, events);
    var trace, hp, he := Trace(p, events), PlainRun(p, g, events), CryptRun(coder, p, g, events);
    StoredUser(coder, p, g, trace, hp, he, n, user);
    StoredList(coder, p, g, trace, hp, he, ch, l, list);
    assert P.AgreeAt(trace[|trace| - 1].kv, n, ch, l);
  }
}
