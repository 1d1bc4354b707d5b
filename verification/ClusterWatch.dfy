/**
 Watches of the cluster: over any run of the stack, the decoded watch of a key on the encrypted
 store is, event for event, the typed watch of the protocol's log, so what Delivery proves of the
 log holds of the bytes.
 */
module ClusterWatch {
  import opened Bytes
  import Seqs
  import opened Records
  import E = Etcd
  import K = KeyStore
  import W = KeyWatch
  import C = Commands
  import P = Protocol
  import opened Runs
  import opened Stack
  import opened StackRuns
  import Delivery
  import Watchers
  import Hmac
  import KeyCodec
  import KeyNames
  import EncodedStore

  // ----- every revision of the plain bytes

  /** Each snapshot holds the typed records as of its revision. */
  ghost predicate TracksAll(p: E.Key -> Bytes, g: E.Value -> Bytes, log: seq<E.Revision>, h: K.History) {
    && |h.snaps| == |log| + 1
    && forall r :: 0 <= r <= |log| ==> TracksAt(p, g, log, h, r)
  }

  ghost predicate TracksAt(p: E.Key -> Bytes, g: E.Value -> Bytes, log: seq<E.Revision>, h: K.History, r: nat)
    requires r <= |log| && |h.snaps| == |log| + 1
  {
    AllTracked(p, g, E.Replay(log[..r]), h.snaps[r])
  }

  /** Only what is stored is ever logged as gone. */
  ghost predicate Tidy(log: seq<E.Revision>) {
    forall r :: 0 <= r < |log| ==> TidyAt(log, r)
  }

  ghost predicate TidyAt(log: seq<E.Revision>, r: nat)
    requires r < |log|
  {
    forall k :: k in log[r] && log[r][k].Gone? ==> k in E.Replay(log[..r])
  }

  lemma TidyMore(log: seq<E.Revision>, changes: E.Revision)
    requires Tidy(log) && forall k :: k in changes && changes[k].Gone? ==> k in E.Replay(log)
    ensures Tidy(log + [changes])
  {
    var all := log + [changes];
    forall r | 0 <= r < |all| ensures TidyAt(all, r) {
      if r < |log| {
        assert TidyAt(log, r) && all[..r] == log[..r];
      } else {
        assert all[..r] == log;
      }
    }
  }

  lemma CommitTidy(s: E.Store, ws: E.Writes)
    requires E.Faithful(s) && Tidy(s.log)
    ensures Tidy(E.Commit(s, ws).log)
  {
    TidyMore(s.log, E.ChangesOf(s, ws));
  }

  lemma StepTidy(s: E.Store, a: P.Action)
    requires E.Faithful(s) && Tidy(s.log)
    ensures Tidy(P.Next(s, a).log)
  {
    match a {
      case Expiry(l) =>
        var changes: E.Revision := map k | k in s.kv && s.kv[k].lease == l :: E.Gone;
        TidyMore(s.log, changes);
      case Register(c, pinned) => CommitTidy(s, P.RegisterWrites(c, pinned));
      case Command(c, op) => if C.TxnOf(op, c, s).Ready? { CommitTidy(s, C.TxnOf(op, c, s).ws); }
      case Cleanup(_, k, _) => CommitTidy(s, map[k := E.Del]);
      case SetOper(login, oper) => CommitTidy(s, map[E.OperCtl(login) := E.Put(E.OperV(oper), E.Detach)]);
      case Grant(_) =>
    }
  }

  /** The plain bytes grow by at most one snapshot per event. */
  lemma PlainGrows(p: E.Key -> Bytes, g: E.Value -> Bytes, trace: seq<E.Store>, ev: Event, h: K.History)
    requires trace != [] && EventOk(p, trace, ev) && h.Valid()
    ensures var h' := PlainAfter(p, g, trace, ev, h);
      h' == h || (|h'.snaps| == |h.snaps| + 1 && h'.snaps[..|h.snaps|] == h.snaps)
  {
  }

  lemma TracksMore(p: E.Key -> Bytes, g: E.Value -> Bytes, s: E.Store, t: E.Store, h: K.History, h': K.History)
    requires TracksAll(p, g, s.log, h) && E.Faithful(t) && E.Extends(s, t) && Tracks(p, g, t, h')
    requires h' == h || (|h'.snaps| == |h.snaps| + 1 && h'.snaps[..|h.snaps|] == h.snaps)
    ensures TracksAll(p, g, t.log, h')
  {
    forall r | 0 <= r <= |t.log| ensures TracksAt(p, g, t.log, h', r) {
      if r <= |s.log| {
        assert TracksAt(p, g, s.log, h, r) && t.log[..r] == s.log[..r];
      } else {
        assert t.log[..r] == t.log;
      }
    }
  }

  ghost predicate WholeHistory(p: E.Key -> Bytes, g: E.Value -> Bytes, events: seq<Event>) {
    var s := Trace(p, events)[|Trace(p, events)| - 1];
    TracksAll(p, g, s.log, PlainRun(p, g, events)) && Tidy(s.log)
  }

  lemma {:induction false} HistoryTracked(c: KeyCodec.Inner, p: E.Key -> Bytes, g: E.Value -> Bytes, events: seq<Event>)
    requires c.Valid() && Injective(p) && AllOk(p, events)
    ensures WholeHistory(p, g, events)
    decreases |events|
  {
    if events == [] {
      StartStands(c, p, g);
      var none: K.History := K.History([map[]]);
      assert TracksAt(p, g, [], none, 0);
    } else {
      var n := |events| - 1;
      HistoryTracked(c, p, g, events[..n]);
      var _ := EncryptedRun(c, p, g, events[..n]);
      var _ := EncryptedRun(c, p, g, events);
      HistoryStep(EncodedStore.IrcCoder(c), p, g, events[..n], events[n]);
    }
  }

  lemma HistoryStep(c: K.Coder, p: E.Key -> Bytes, g: E.Value -> Bytes, past: seq<Event>, ev: Event)
    requires EventOk(p, Trace(p, past), ev) && WholeHistory(p, g, past)
    requires var trace := Trace(p, past); var h := PlainRun(p, g, past);
      && P.Inv(trace[|trace| - 1]) && P.Inv(TypedAfter(trace, ev))
      && Tracks(p, g, TypedAfter(trace, ev), PlainAfter(p, g, trace, ev, h))
    ensures var trace := Trace(p, past); var h := PlainRun(p, g, past);
      TracksAll(p, g, TypedAfter(trace, ev).log, PlainAfter(p, g, trace, ev, h)) && Tidy(TypedAfter(trace, ev).log)
  {
    var trace, h := Trace(p, past), PlainRun(p, g, past);
    var s, t, steps := trace[|trace| - 1], TypedAfter(trace, ev), Steps(trace, ev);
    if steps != [] {
      StepTidy(s, steps[0]);
      NextExtends(s, steps[0]);
    }
    PlainGrows(p, g, trace, ev, h);
    TracksMore(p, g, s, t, h, PlainAfter(p, g, trace, ev, h));
  }

  // ----- one key, one revision

  /** The bytes of an event say what the log says. */
  predicate Carries(g: E.Value -> Bytes, ev: W.Event, c: E.Change) {
    match c
    case Set(v, l) => ev.put && ev.kv.meta.val == g(v) && ev.kv.meta.lease == l
    case Gone => !ev.put
  }

  ghost predicate SameAtRev(g: E.Value -> Bytes, log: seq<E.Revision>, h: K.History, k: E.Key, x: Bytes, prevKv: bool,
                            r: nat)
    requires 0 < r <= |log| && |h.snaps| == |log| + 1
  {
    var ev := W.EventAt(h, r, x, prevKv);
    (ev.Some? <==> k in log[r - 1]) && (ev.Some? ==> Carries(g, ev.value, log[r - 1][k]))
  }

  lemma RevisionAgrees(p: E.Key -> Bytes, g: E.Value -> Bytes, log: seq<E.Revision>, h: K.History, k: E.Key,
                       prevKv: bool, r: nat)
    requires TracksAll(p, g, log, h) && Tidy(log) && 0 < r <= |log|
    ensures SameAtRev(g, log, h, k, p(k), prevKv, r)
  {
    var before, after := E.Replay(log[..r - 1]), E.Replay(log[..r]);
    assert TracksAt(p, g, log, h, r - 1) && TracksAt(p, g, log, h, r) && TidyAt(log, r - 1);
    assert TrackedAt(p, g, before, h.snaps[r - 1], k) && TrackedAt(p, g, after, h.snaps[r], k);
    assert log[..r][..r - 1] == log[..r - 1];
    if k in before { E.ModNamesEntry(log[..r - 1], k); }
  }

  /** With previous values asked for, an event brings the record as it was one revision before, if there was one. */
  lemma PreviousValue(p: E.Key -> Bytes, g: E.Value -> Bytes, log: seq<E.Revision>, h: K.History, k: E.Key, r: nat)
    requires TracksAll(p, g, log, h) && Tidy(log) && 0 < r <= |log| && k in log[r - 1]
    ensures W.EventAt(h, r, p(k), true).Some?
    ensures var before, prev := E.Replay(log[..r - 1]), W.EventAt(h, r, p(k), true).value.prev;
      if k !in before then prev.None?
      else prev.Some? && prev.value.key == p(k) && prev.value.meta.val == g(before[k].value)
  {
    RevisionAgrees(p, g, log, h, k, true, r);
    assert TracksAt(p, g, log, h, r - 1);
    assert TrackedAt(p, g, E.Replay(log[..r - 1]), h.snaps[r - 1], k);
  }

  // ----- one key, all revisions

  ghost predicate SameAlways(g: E.Value -> Bytes, log: seq<E.Revision>, h: K.History, k: E.Key, x: Bytes,
                             prevKv: bool) {
    |h.snaps| == |log| + 1 && forall r :: 0 < r <= |log| ==> SameAtRev(g, log, h, k, x, prevKv, r)
  }

  function Dropped(h: K.History): K.History
    requires h.snaps != []
  {
    K.History(h.snaps[..|h.snaps| - 1])
  }

  lemma SameInit(g: E.Value -> Bytes, log: seq<E.Revision>, h: K.History, k: E.Key, x: Bytes, prevKv: bool)
    requires SameAlways(g, log, h, k, x, prevKv) && log != []
    ensures SameAlways(g, log[..|log| - 1], Dropped(h), k, x, prevKv)
  {
    var n := |log| - 1;
    forall r | 0 < r <= n ensures SameAtRev(g, log[..n], Dropped(h), k, x, prevKv, r) {
      assert SameAtRev(g, log, h, k, x, prevKv, r);
      assert W.EventAt(Dropped(h), r, x, prevKv) == W.EventAt(h, r, x, prevKv);
    }
  }

  lemma GenuineInit(h: K.History, from: nat, x: Bytes, prevKv: bool, ev: W.Event)
    requires h.snaps != [] && ev.kv.meta.mod < |h.snaps| - 1
    ensures W.Genuine(Dropped(h), from, x, None, prevKv, ev) <==> W.Genuine(h, from, x, None, prevKv, ev)
  {
    var r := ev.kv.meta.mod;
    if 0 < r { assert W.EventAt(Dropped(h), r, ev.kv.key, prevKv) == W.EventAt(h, r, ev.kv.key, prevKv); }
  }

  /** A stream without its event of the newest revision is a stream of the history before. */
  lemma StreamInit(h: K.History, from: nat, x: Bytes, prevKv: bool, evs: seq<W.Event>, past: seq<W.Event>)
    requires h.snaps != [] && past <= evs && W.Streams(h, from, x, None, prevKv, evs)
    requires forall i :: 0 <= i < |past| ==> past[i].kv.meta.mod < |h.snaps| - 1
    requires forall i :: |past| <= i < |evs| ==> evs[i].kv.meta.mod == |h.snaps| - 1
    ensures W.Streams(Dropped(h), from, x, None, prevKv, past)
  {
    forall i | 0 <= i < |past| ensures W.Genuine(Dropped(h), from, x, None, prevKv, past[i]) {
      assert W.Genuine(h, from, x, None, prevKv, evs[i]);
      GenuineInit(h, from, x, prevKv, past[i]);
    }
    forall i, j | 0 <= i < j < |past| ensures W.Apart(past[i], past[j]) { assert W.Apart(evs[i], evs[j]); }
    forall k, r | W.Happened(Dropped(h), from, x, None, prevKv, k, r) ensures W.Seen(past, k, r) {
      assert W.EventAt(Dropped(h), r, k, prevKv) == W.EventAt(h, r, k, prevKv);
      assert W.Happened(h, from, x, None, prevKv, k, r);
      assert W.Seen(evs, k, r);
      var i :| 0 <= i < |evs| && evs[i].kv.key == k && evs[i].kv.meta.mod == r;
      assert past[i].kv.key == k;
    }
  }

  /** The newest revision gives the last event of the stream, or none. */
  lemma StreamLast(h: K.History, from: nat, x: Bytes, prevKv: bool, evs: seq<W.Event>) returns (past: seq<W.Event>)
    requires |h.snaps| > 1 && from <= |h.snaps| - 1 && W.Streams(h, from, x, None, prevKv, evs)
    ensures var n := |h.snaps| - 1; var ev := W.EventAt(h, n, x, prevKv);
      W.Streams(Dropped(h), from, x, None, prevKv, past) && evs == past + if ev.Some? then [ev.value] else []
  {
    var n := |h.snaps| - 1;
    var ev := W.EventAt(h, n, x, prevKv);
    if ev.Some? {
      past := NewestIsLast(h, from, x, prevKv, evs);
    } else {
      past := evs;
      forall i | 0 <= i < |past| ensures past[i].kv.meta.mod < n { assert W.Genuine(h, from, x, None, prevKv, evs[i]); }
      assert past + [] == past;
    }
    StreamInit(h, from, x, prevKv, evs, past);
  }

  lemma NewestIsLast(h: K.History, from: nat, x: Bytes, prevKv: bool, evs: seq<W.Event>) returns (past: seq<W.Event>)
    requires |h.snaps| > 1 && from <= |h.snaps| - 1 && W.Streams(h, from, x, None, prevKv, evs)
    requires W.EventAt(h, |h.snaps| - 1, x, prevKv).Some?
    ensures evs == past + [W.EventAt(h, |h.snaps| - 1, x, prevKv).value] && evs[|past|].kv.meta.mod == |h.snaps| - 1
    ensures forall i :: 0 <= i < |past| ==> past[i].kv.meta.mod < |h.snaps| - 1
  {
    var n := |h.snaps| - 1;
    assert W.Happened(h, from, x, None, prevKv, x, n);
    assert W.Seen(evs, x, n);
    var i :| 0 <= i < |evs| && evs[i].kv.key == x && evs[i].kv.meta.mod == n;
    assert W.Genuine(h, from, x, None, prevKv, evs[i]);
    LastIsLast(h, from, x, prevKv, evs, i);
    past := evs[..i];
    assert evs == past + [evs[i]];
  }

  lemma LastIsLast(h: K.History, from: nat, x: Bytes, prevKv: bool, evs: seq<W.Event>, i: nat)
    requires W.Streams(h, from, x, None, prevKv, evs) && i < |evs| && evs[i].kv.meta.mod == |h.snaps| - 1
    ensures i == |evs| - 1 && forall j :: 0 <= j < i ==> evs[j].kv.meta.mod < |h.snaps| - 1
  {
    assert W.Genuine(h, from, x, None, prevKv, evs[i]);
    forall j | 0 <= j < |evs| && j != i ensures evs[j].kv.meta.mod != evs[i].kv.meta.mod {
      assert W.Genuine(h, from, x, None, prevKv, evs[j]);
      if j < i { assert W.Apart(evs[j], evs[i]); } else { assert W.Apart(evs[i], evs[j]); }
    }
    forall j | 0 <= j < |evs| ensures evs[j].kv.meta.mod <= evs[i].kv.meta.mod {
      assert W.Genuine(h, from, x, None, prevKv, evs[j]);
    }
    NextNotOlder(evs, i);
  }

  lemma NextNotOlder(evs: seq<W.Event>, i: nat)
    requires forall i, j :: 0 <= i < j < |evs| ==> evs[i].kv.meta.mod <= evs[j].kv.meta.mod
    ensures i + 1 < |evs| ==> evs[i].kv.meta.mod <= evs[i + 1].kv.meta.mod
  {
  }

  lemma FirstInTime(h: K.History, from: nat, x: Bytes, prevKv: bool, evs: seq<W.Event>)
    requires W.Streams(h, from, x, None, prevKv, evs)
    ensures evs != [] ==> from <= evs[0].kv.meta.mod < |h.snaps|
  {
    if evs != [] { assert W.Genuine(h, from, x, None, prevKv, evs[0]); }
  }

  /** The stream carries the typed watch, one event per item. */
  ghost predicate CarriesAll(g: E.Value -> Bytes, evs: seq<W.Event>, items: seq<Watchers.Item>) {
    |evs| == |items| && forall i :: 0 <= i < |evs| ==> items[i].Event? && Carries(g, evs[i], items[i].change)
  }

  lemma {:induction false} StreamIsWatch(g: E.Value -> Bytes, log: seq<E.Revision>, h: K.History, k: E.Key, x: Bytes,
                                         prevKv: bool, rev: nat, evs: seq<W.Event>)
    requires SameAlways(g, log, h, k, x, prevKv) && W.Streams(h, rev + 1, x, None, prevKv, evs)
    ensures CarriesAll(g, evs, Delivery.Watch(log, k, rev))
    decreases |log|
  {
    if |log| <= rev {
      FirstInTime(h, rev + 1, x, prevKv, evs);
    } else {
      var n := |log| - 1;
      var past := StreamLast(h, rev + 1, x, prevKv, evs);
      SameInit(g, log, h, k, x, prevKv);
      StreamIsWatch(g, log[..n], Dropped(h), k, x, prevKv, rev, past);
      assert SameAtRev(g, log, h, k, x, prevKv, |log|);
    }
  }

  // ----- the cluster

  /**
   Over any run of the stack, whatever the encrypted store delivers on the watch of a key since a
   revision decodes, and is, event for event, the typed watch of that key since that revision.
   */
  lemma ClusterWatches(e: Hmac.Encoder, u: string -> Bytes, g: E.Value -> Bytes, events: seq<Event>,
                       k: E.Key, rev: nat, prevKv: bool, evs: seq<W.Event>)
    requires e.Valid() && KeyNames.Utf8(u) && AllOk(Printer(u), events) && KeyCodec.GoodKey(Printer(u)(k))
    requires var coder, x := EncodedStore.IrcCoder(KeyCodec.HmacInner(e)), Printer(u)(k);
      W.Streams(CryptRun(coder, Printer(u), g, events), rev + 1, K.Enc(coder, x), None, prevKv, evs)
    ensures var coder, trace := EncodedStore.IrcCoder(KeyCodec.HmacInner(e)), Trace(Printer(u), events);
      && W.DecEvents(coder, evs).Some?
      && CarriesAll(g, W.DecEvents(coder, evs).value, Delivery.Watch(trace[|trace| - 1].log, k, rev))
  {
    var c, p := KeyCodec.HmacInner(e), Printer(u);
    var coder, x, s := EncodedStore.IrcCoder(c), p(k), Trace(p, events)[|Trace(p, events)| - 1];
    PrinterInjective(u);
    EncodedStore.IrcCoderValid(c);
    var _ := EncryptedRun(c, p, g, events);
    HistoryTracked(c, p, g, events);
    var hp := PlainRun(p, g, events);
    W.StreamRefines(coder, hp, CryptRun(coder, p, g, events), rev + 1, x, None, prevKv, evs);
    forall r | 0 < r <= |s.log| ensures SameAtRev(g, s.log, hp, k, x, prevKv, r) {
      RevisionAgrees(p, g, s.log, hp, k, prevKv, r);
    }
    StreamIsWatch(g, s.log, hp, k, x, prevKv, rev, W.DecEvents(coder, evs).value);
  }

  /** The state a run of the stack has reached. */
  ghost function Reached(p: E.Key -> Bytes, events: seq<Event>): E.Store { Trace(p, events)[|Trace(p, events)| - 1] }

  lemma ReachedNext(p: E.Key -> Bytes, events: seq<Event>)
    requires events != [] && AllOk(p, events)
    ensures var n := |events| - 1; var past := Trace(p, events[..n]);
      AllOk(p, events[..n]) && EventOk(p, past, events[n]) && Reached(p, events) == TypedAfter(past, events[n])
  {
  }

  lemma {:induction false} OkBefore(p: E.Key -> Bytes, events: seq<Event>, m: nat)
    requires AllOk(p, events) && m <= |events|
    ensures AllOk(p, events[..m])
    decreases |events|
  {
    if m == |events| {
      assert events[..m] == events;
    } else {
      var n := |events| - 1;
      OkBefore(p, events[..n], m);
      assert events[..n][..m] == events[..m];
    }
  }

  lemma ReachedInv(c: KeyCodec.Inner, p: E.Key -> Bytes, g: E.Value -> Bytes, events: seq<Event>)
    requires c.Valid() && Injective(p) && AllOk(p, events)
    ensures P.Inv(Reached(p, events))
  {
    var _ := EncryptedRun(c, p, g, events);
  }

  /** The later part of a run of the stack is a run of the protocol from where it starts. */
  lemma {:induction false} RunOn(p: E.Key -> Bytes, events: seq<Event>, m: nat) returns (acts: seq<P.Action>)
    requires AllOk(p, events) && m <= |events|
    ensures P.AllEnabled(Reached(p, events[..m]), acts) && P.Run(Reached(p, events[..m]), acts) == Reached(p, events)
    decreases |events|
  {
    if m == |events| {
      assert events[..m] == events;
      acts := [];
    } else {
      var n := |events| - 1;
      ReachedNext(p, events);
      acts := RunOn(p, events[..n], m);
      assert events[..n][..m] == events[..m];
      acts := StepOn(p, Reached(p, events[..m]), acts, Trace(p, events[..n]), events[n]);
    }
  }

  lemma StepOn(p: E.Key -> Bytes, s: E.Store, acts: seq<P.Action>, trace: seq<E.Store>, ev: Event)
    returns (more: seq<P.Action>)
    requires trace != [] && EventOk(p, trace, ev) && P.AllEnabled(s, acts) && P.Run(s, acts) == trace[|trace| - 1]
    ensures P.AllEnabled(s, more) && P.Run(s, more) == TypedAfter(trace, ev)
  {
    StepEnabled(p, trace, ev);
    var steps := Steps(trace, ev);
    more := acts;
    if steps != [] {
      RunMore(s, acts, steps[0]);
      more := acts + [steps[0]];
    }
  }

  lemma SameItems(g: E.Value -> Bytes, evs: seq<W.Event>, a: seq<Watchers.Item>, b: seq<Watchers.Item>)
    requires Gob(g) && CarriesAll(g, evs, a) && CarriesAll(g, evs, b)
    ensures a == b
  {
    forall i | 0 <= i < |a| ensures a[i] == b[i] {
      assert Carries(g, evs[i], a[i].change) && Carries(g, evs[i], b[i].change);
    }
  }

  /**
   A client whose join was committed by the first `m` events watches the channel in the cluster
   from the next revision. Whatever the encrypted store delivers, decoded, is what the protocol
   broadcast since; so handling it delivers every broadcast up to the client's own departure, minus
   its own PRIVMSGs, and nothing else.
   */
  lemma ClusterDelivers(e: Hmac.Encoder, u: string -> Bytes, g: E.Value -> Bytes, events: seq<Event>, m: nat,
                        ch: string, nick: string, prevKv: bool, evs: seq<W.Event>,
                        items: seq<Watchers.Item>, n: nat, end: Watchers.Outcome)
    returns (acts: seq<P.Action>)
    requires e.Valid() && KeyNames.Utf8(u) && Gob(g) && AllOk(Printer(u), events) && m <= |events|
    requires KeyCodec.GoodKey(Printer(u)(E.ChanMsg(ch)))
    requires var coder, start := EncodedStore.IrcCoder(KeyCodec.HmacInner(e)), Reached(Printer(u), events[..m]);
      && W.Streams(CryptRun(coder, Printer(u), g, events), start.Rev() + 1,
                   K.Enc(coder, Printer(u)(E.ChanMsg(ch))), None, prevKv, evs)
      && (W.DecEvents(coder, evs).Some? ==> CarriesAll(g, W.DecEvents(coder, evs).value, items))
    requires Watchers.Handled(nick, items, n, end)
    ensures var start := Reached(Printer(u), events[..m]);
      && W.DecEvents(EncodedStore.IrcCoder(KeyCodec.HmacInner(e)), evs).Some?
      && P.AllEnabled(start, acts) && P.Run(start, acts) == Reached(Printer(u), events)
      && Delivery.Heard(nick, ch, Delivery.Broadcasts(start, acts, ch), n, end)
      && Watchers.Delivered(nick, items, n, end) ==
         Seqs.Filter(Delivery.Broadcasts(start, acts, ch)[..if end == Watchers.Unsent then n - 1 else n],
                     m => !Watchers.OwnPrivMsg(nick, m))
  {
    var p, s := Printer(u), Reached(Printer(u), events[..m]);
    ClusterWatches(e, u, g, events, E.ChanMsg(ch), s.Rev(), prevKv, evs);
    PrinterInjective(u);
    acts := RunOn(p, events, m);
    OkBefore(p, events, m);
    ReachedInv(KeyCodec.HmacInner(e), p, g, events[..m]);
    var ds := W.DecEvents(EncodedStore.IrcCoder(KeyCodec.HmacInner(e)), evs).value;
    SameItems(g, ds, items, Delivery.Watch(P.Run(s, acts).log, E.ChanMsg(ch), s.Rev()));
    Delivery.NothingLost(s, acts, ch, nick, n, end);
  }
}
