/**
 From lost sessions to connections: over any run while a client is on a channel, its nick-list
 watcher never fails; and it reports exactly the members each lease expiry takes from the
 channel, if and only if no expiry takes anyone the client sees from a channel whose name
 continues after a '/'.
 */
module PartDelivery {
  import opened Seqs
  import opened Records
  import opened Etcd
  import opened Commands
  import opened Protocol
  import opened Membership
  import opened Runs
  import opened Watchers
  import opened Parts
  import opened Sight

  // ----- the events under a channel's nick-list prefix

  /** A revision changes a list that the prefix watch of `ch` meets. */
  predicate InRev(rev: Revision, ch: string, k: Key) { k in rev && k.ChanNicks? && Under(ch, k.ch) }

  /** The event of the newest revision for a key it changes, with the previous value. */
  function EventFor(log: seq<Revision>, k: Key): NickEvent
    requires log != [] && k in log[|log| - 1]
  {
    var n := |log| - 1;
    match log[n][k]
    case Set(v, l) => Stored(k, |log|, v, l)
    case Gone => Deleted(k, |log|, if k in Replay(log[..n]) then Replay(log[..n])[k].value else Blank)
  }

  ghost predicate FromNewest(log: seq<Revision>, ch: string, ev: NickEvent)
    requires log != []
  {
    InRev(log[|log| - 1], ch, ev.k) && ev == EventFor(log, ev.k)
  }

  ghost predicate HasEvent(b: seq<NickEvent>, k: Key) { exists i :: 0 <= i < |b| && b[i].k == k }

  /** The events of the newest revision: one per list it changes, in any order. */
  ghost predicate Newest(log: seq<Revision>, ch: string, b: seq<NickEvent>)
    requires log != []
  {
    && (forall i :: 0 <= i < |b| ==> FromNewest(log, ch, b[i]))
    && (forall i, j :: 0 <= i < j < |b| ==> b[i].k != b[j].k)
    && (forall k :: InRev(log[|log| - 1], ch, k) ==> HasEvent(b, k))
  }

  /** What the watch of the prefix may deliver of the revisions after `from`. */
  ghost predicate Watches(log: seq<Revision>, ch: string, from: nat, evs: seq<NickEvent>)
    decreases |log|, 1
  {
    if |log| <= from then evs == [] else exists m :: WatchSplit(log, ch, from, evs, m)
  }

  ghost predicate WatchSplit(log: seq<Revision>, ch: string, from: nat, evs: seq<NickEvent>, m: nat)
    requires |log| > from
    decreases |log|, 0
  {
    m <= |evs| && Watches(log[..|log| - 1], ch, from, evs[..m]) && Newest(log, ch, evs[m..])
  }

  // ----- what one step does to nick lists

  /** A deletion of a list is an expiry, or a cleanup of an empty one. */
  predicate Deletes(s: Store, a: Action, k: Key) {
    k.ChanNicks? && k in s.kv && (a == Expiry(k.id) || (a.Cleanup? && s.kv[k].value == NicksV([])))
  }

  /** One list of a channel at most; deletions as above; an expiry deletes exactly the lists of its lease. */
  ghost predicate ListRev(s: Store, a: Action, last: Revision) {
    && (forall k, k' :: k in last && k' in last && k.ChanNicks? && k'.ChanNicks? && k.ch == k'.ch ==> k == k')
    && (forall k :: k in last && k.ChanNicks? && last[k].Gone? ==> Deletes(s, a, k))
    && (a.Expiry? ==> forall k: Key :: k.ChanNicks? ==>
          (k in last <==> k in s.kv && k.id == a.lease) && (k in last ==> last[k].Gone?))
  }

  ghost predicate ListStep(s: Store, a: Action, t: Store) {
    if t.log == s.log then a.Expiry? ==> forall k :: k in s.kv && k.ChanNicks? ==> k.id != a.lease
    else |t.log| == |s.log| + 1 && t.log[..|s.log|] == s.log && ListRev(s, a, t.log[|s.log|])
  }

  /** A transaction that puts at most one list per channel and deletes none. */
  ghost predicate PutsLists(ws: Writes) {
    && (forall k :: k in ws && k.ChanNicks? ==> ws[k].Put?)
    && (forall k, k' :: k in ws && k' in ws && k.ChanNicks? && k'.ChanNicks? && k.ch == k'.ch ==> k == k')
  }

  lemma CommitLists(s: Store, a: Action, ws: Writes)
    requires PutsLists(ws) && !a.Expiry?
    ensures ListStep(s, a, Commit(s, ws))
  {
    var changes := ChangesOf(s, ws);
    if Accepts(s, ws) && changes != map[] {
      assert (s.log + [changes])[..|s.log|] == s.log;
      forall k | k in changes && k.ChanNicks? ensures changes[k].Set? && k in ws { }
    }
  }

  lemma CommandPutsLists(s: Store, c: Client, op: Op)
    requires Inv(s) && Registered(s, c) && TxnOf(op, c, s).Ready?
    ensures PutsLists(TxnOf(op, c, s).ws)
  {
    match op {
      case Join(x) =>
        var u, ctl, me := JoinStages(s, c, x);
        JoinPutsLists(s, c, x, TxnOf(op, c, s).ws, u, ctl, me);
      case Part(x, msg) =>
        PartStages(s, c, x, msg);
        LeavePutsLists(s, TxnOf(op, c, s), c.nick, x, c.Says(PART, [x, msg]));
      case Kick(x, target, msg) =>
        KickStages(s, c, x, target, msg);
        LeavePutsLists(s, TxnOf(op, c, s), target, x, c.Says(KICK, [x, target, msg]));
      case Quit(msg) => QuitPutsLists(s, c, msg);
      case _ => QuietPutsNone(s, c, op);
    }
  }

  lemma JoinPutsLists(s: Store, c: Client, x: string, ws: Writes, u: User, ctl: Channel, me: Member)
    requires Joins(s, c, x, ws, u, ctl, me)
    ensures PutsLists(ws)
  {
  }

  lemma LeavePutsLists(s: Store, txn: Txn, n: string, x: string, msg: Value)
    requires txn.Ready?
    requires txn == NOTHING || (UserIn(s.kv, n).Some? && Leaves(s, txn.ws, n, x, UserIn(s.kv, n).value, msg))
    ensures PutsLists(txn.ws)
  {
  }

  lemma QuietPutsNone(s: Store, c: Client, op: Op)
    requires Inv(s) && Registered(s, c) && TxnOf(op, c, s).Ready? && QuietOp(op)
    ensures forall k :: k in TxnOf(op, c, s).ws ==> !k.ChanNicks?
  {
    QuietOps(s, c, op);
    forall k | k in TxnOf(op, c, s).ws ensures !k.ChanNicks? { assert QuietAt(s, TxnOf(op, c, s).ws, k); }
  }

  lemma QuitPutsLists(s: Store, c: Client, msg: string)
    requires Inv(s) && Registered(s, c)
    ensures TxnOf(Quit(msg), c, s).Ready? && PutsLists(TxnOf(Quit(msg), c, s).ws)
  {
    QuitStages(s, c, msg);
    var ws, u := TxnOf(Quit(msg), c, s).ws, UserIn(s.kv, c.nick).value;
    forall k | k in ws && k.ChanNicks? ensures ws[k].Put? && k.id == c.lease {
      assert QuitsAt(s, c, u, msg, ws, k);
    }
  }

  lemma CleanupLists(s: Store, server: Lease, x: Key, rev: nat)
    requires Inv(s) && SawEmptyList(s, server, x, rev)
    ensures ListStep(s, Cleanup(server, x, rev), Next(s, Cleanup(server, x, rev)))
  {
    CleanupSafe(s, server, x, rev);
    if x in s.kv && s.kv[x].mod == rev {
      var changes := ChangesOf(s, map[x := Del]);
      assert changes == map[x := Gone];
      assert (s.log + [changes])[..|s.log|] == s.log;
    }
  }

  lemma ExpiryLists(s: Store, l: Lease)
    requires Inv(s)
    ensures ListStep(s, Expiry(l), Expire(s, l))
  {
    var changes: Revision := map x | x in s.kv && s.kv[x].lease == l :: Gone;
    assert (s.log + [changes])[..|s.log|] == s.log;
    forall k: Key | k.ChanNicks? ensures k in changes <==> k in s.kv && k.id == l { assert EntryOk(s, k); }
  }

  lemma StepLists(s: Store, a: Action)
    requires Inv(s) && Enabled(s, a)
    ensures ListStep(s, a, Next(s, a))
  {
    match a {
      case Command(c, op) =>
        if TxnOf(op, c, s).Ready? {
          CommandPutsLists(s, c, op);
          CommitLists(s, a, TxnOf(op, c, s).ws);
        }
      case Register(c, pinned) => CommitLists(s, a, RegisterWrites(c, pinned));
      case Cleanup(server, x, rev) => CleanupLists(s, server, x, rev);
      case Expiry(l) => ExpiryLists(s, l);
      case Grant(_) =>
      case SetOper(login, oper) => CommitLists(s, a, map[OperCtl(login) := Put(OperV(oper), Detach)]);
    }
  }

  // ----- what is reported, and what should be

  function PartFor(kv: Kv, ch: string, n: string): Message {
    var u := UserIn(kv, n);
    Message(Some(Prefix(n, if u.Some? then u.value.user else "", if u.Some? then u.value.host else "")),
            PART, [ch, "session lost"])
  }

  function PartsFor(kv: Kv, ch: string, nicks: seq<string>): (r: seq<Message>)
    ensures |r| == |nicks| && forall i :: 0 <= i < |r| ==> r[i] == PartFor(kv, ch, nicks[i])
  {
    seq(|nicks|, i requires 0 <= i < |nicks| => PartFor(kv, ch, nicks[i]))
  }

  /** One PART per member the step takes from the channel by expiry, in the order of the list. */
  function LossParts(s: Store, a: Action, ch: string): seq<Message> {
    if a.Expiry? then PartsFor(s.kv, ch, Names(Members(s.kv, ch, a.lease))) else []
  }

  function AllLossParts(s: Store, acts: seq<Action>, ch: string): seq<Message> {
    if acts == [] then []
    else
      var n := |acts| - 1;
      AllLossParts(s, acts[..n], ch) + LossParts(Run(s, acts[..n]), acts[n], ch)
  }

  /** What the watcher of `me` sends for the event of list `k`. */
  function EventParts(s: Store, a: Action, ch: string, me: string, k: Key): seq<Message> {
    if a.Expiry? then PartsFor(s.kv, ch, Seen(s.kv, me, Names(ListOf(s.kv, k)))) else []
  }

  lemma MembersRegistered(s: Store, k: Key)
    requires Inv(s)
    ensures forall i :: 0 <= i < |Names(ListOf(s.kv, k))| ==> UserIn(s.kv, Names(ListOf(s.kv, k))[i]).Some?
  {
    forall i | 0 <= i < |Names(ListOf(s.kv, k))| ensures UserIn(s.kv, Names(ListOf(s.kv, k))[i]).Some? {
      MemberHasRecord(s, k.ch, k.id, i);
    }
  }

  lemma LookupParts(s: Store, ch: string, me: string, nicks: seq<string>)
    requires WellKeyed(s) && UserIn(s.kv, me).Some?
    requires forall i :: 0 <= i < |nicks| ==> UserIn(s.kv, nicks[i]).Some?
    ensures var r := FromNicks(s.kv, nicks, me);
      r.Users? && PartMsgs(ch, r.users) == PartsFor(s.kv, ch, Seen(s.kv, me, nicks))
  {
    Lookup(s, nicks, me);
    var users, seen := FromNicks(s.kv, nicks, me).users, Seen(s.kv, me, nicks);
    forall i | 0 <= i < |seen| ensures PartMsgs(ch, users)[i] == PartsFor(s.kv, ch, seen)[i] {
      assert Shows(s.kv, users[i], seen[i]);
    }
  }

  /** An event of the newest revision never fails the watcher, and sends this. */
  lemma EventReported(s: Store, a: Action, t: Store, ch: string, me: string, k: Key)
    requires Inv(s) && Enabled(s, a) && Extends(Next(s, a), t) && UserIn(s.kv, me).Some?
    requires Next(s, a).log != s.log && ListStep(s, a, Next(s, a)) && InRev(Next(s, a).log[|s.log|], ch, k)
    ensures var ev := EventFor(Next(s, a).log, k);
      1 <= ev.rev <= t.Rev() && Reports(t, ch, me, ev) == Some(EventParts(s, a, ch, me, k))
  {
    var log := Next(s, a).log;
    var last := log[|s.log|];
    assert t.log[..s.Rev()] == s.log;
    if last[k].Gone? {
      assert Deletes(s, a, k) && EntryOk(s, k);
      MembersRegistered(s, k);
      LookupParts(s, ch, me, Names(ListOf(s.kv, k)));
      if !a.Expiry? {
        assert Names([]) == [];
        assert Seen(s.kv, me, []) == [];
      }
    } else {
      assert !a.Expiry?;
    }
  }

  // ----- the events of one revision together

  function BatchParts(s: Store, a: Action, ch: string, me: string, b: seq<NickEvent>): seq<Message> {
    if b == [] then [] else BatchParts(s, a, ch, me, b[..|b| - 1]) + EventParts(s, a, ch, me, b[|b| - 1].k)
  }

  ghost predicate InTime(events: seq<NickEvent>, t: Store) {
    forall i :: 0 <= i < |events| ==> 1 <= events[i].rev <= t.Rev()
  }

  lemma ReportedSnoc(t: Store, ch: string, me: string, evs: seq<NickEvent>, ev: NickEvent,
                     was: seq<Message>, more: seq<Message>)
    requires InTime(evs, t) && 1 <= ev.rev <= t.Rev()
    requires AllReported(t, ch, me, evs) == Some(was) && Reports(t, ch, me, ev) == Some(more)
    ensures InTime(evs + [ev], t) && AllReported(t, ch, me, evs + [ev]) == Some(was + more)
  {
    var all := evs + [ev];
    assert all[..|all| - 1] == evs && all[|all| - 1] == ev;
  }

  lemma {:induction false} BatchReported(s: Store, a: Action, t: Store, ch: string, me: string, b: seq<NickEvent>)
    requires Inv(s) && Enabled(s, a) && Extends(Next(s, a), t) && UserIn(s.kv, me).Some?
    requires Next(s, a).log != s.log && ListStep(s, a, Next(s, a))
    requires forall i :: 0 <= i < |b| ==> FromNewest(Next(s, a).log, ch, b[i])
    ensures InTime(b, t) && AllReported(t, ch, me, b) == Some(BatchParts(s, a, ch, me, b))
  {
    if b != [] {
      var n := |b| - 1;
      BatchReported(s, a, t, ch, me, b[..n]);
      assert FromNewest(Next(s, a).log, ch, b[n]);
      EventReported(s, a, t, ch, me, b[n].k);
      var past, last := BatchParts(s, a, ch, me, b[..n]), EventParts(s, a, ch, me, b[n].k);
      ReportedSnoc(t, ch, me, b[..n], b[n], past, last);
      assert b == b[..n] + [b[n]];
    }
  }

  /** Expiry takes somebody the client sees from a channel beyond the name. */
  ghost predicate Disturbed(s: Store, a: Action, ch: string, me: string) {
    a.Expiry? && exists n :: TakenBeyond(s, a.lease, ch, me, n)
  }

  ghost predicate TakenBeyond(s: Store, l: Lease, ch: string, me: string, n: string) {
    Stranger(s.kv, ch, me, n) && UserIn(s.kv, n).value.lease == l
  }

  lemma ListMember(s: Store, k: Key, i: nat)
    requires Inv(s) && k.ChanNicks? && i < |ListOf(s.kv, k)|
    ensures var u := UserIn(s.kv, ListOf(s.kv, k)[i].nick); u.Some? && u.value.lease == k.id && k.ch in u.value.channels
  {
    var n := ListOf(s.kv, k)[i].nick;
    MemberHasRecord(s, k.ch, k.id, i);
    assert AgreeAt(s.kv, n, k.ch, k.id);
    assert Names(ListOf(s.kv, k))[i] == n;
    assert n in multiset(Names(ListOf(s.kv, k)));
  }

  lemma {:induction false} NoneSeen(kv: Kv, me: string, nicks: seq<string>)
    requires forall i :: 0 <= i < |nicks| ==> !SeenBy(kv, me, nicks[i])
    ensures Seen(kv, me, nicks) == []
  {
    if nicks != [] { NoneSeen(kv, me, nicks[..|nicks| - 1]); }
  }

  /** Without strangers, a list beyond the name reports nobody. */
  lemma BeyondSilent(s: Store, l: Lease, ch: string, me: string, k: Key)
    requires Inv(s) && !Disturbed(s, Expiry(l), ch, me) && k.ChanNicks? && k.id == l && Beyond(ch, k.ch)
    ensures EventParts(s, Expiry(l), ch, me, k) == []
  {
    var nicks := Names(ListOf(s.kv, k));
    forall i | 0 <= i < |nicks| ensures !SeenBy(s.kv, me, nicks[i]) {
      ListMember(s, k, i);
      assert !TakenBeyond(s, l, ch, me, nicks[i]);
    }
    NoneSeen(s.kv, me, nicks);
  }

  /** The channel's own list reports everybody on it. */
  lemma OwnReported(s: Store, l: Lease, ch: string, me: string)
    requires Inv(s) && IsOn(s, me, ch)
    ensures EventParts(s, Expiry(l), ch, me, ChanNicks(ch, l)) == LossParts(s, Expiry(l), ch)
  {
    var k := ChanNicks(ch, l);
    var nicks := Names(ListOf(s.kv, k));
    forall i | 0 <= i < |nicks| ensures IsOn(s, nicks[i], ch) { ListMember(s, k, i); }
    SharerSeesAll(s, nicks, me, ch);
  }

  lemma {:induction false} QuietBatch(s: Store, l: Lease, ch: string, me: string, b: seq<NickEvent>)
    requires Inv(s) && IsOn(s, me, ch) && !Disturbed(s, Expiry(l), ch, me)
    requires forall i :: 0 <= i < |b| ==> b[i].k.ChanNicks? && b[i].k.id == l && Under(ch, b[i].k.ch)
    requires forall i, j :: 0 <= i < j < |b| ==> b[i].k != b[j].k
    ensures BatchParts(s, Expiry(l), ch, me, b) ==
            if HasEvent(b, ChanNicks(ch, l)) then LossParts(s, Expiry(l), ch) else []
  {
    if b != [] {
      var n := |b| - 1;
      QuietBatch(s, l, ch, me, b[..n]);
      EventLast(b, ChanNicks(ch, l));
      if b[n].k == ChanNicks(ch, l) {
        OwnReported(s, l, ch, me);
      } else {
        BeyondSilent(s, l, ch, me, b[n].k);
      }
    }
  }

  lemma EventLast(b: seq<NickEvent>, k: Key)
    requires b != [] && forall i, j :: 0 <= i < j < |b| ==> b[i].k != b[j].k
    ensures var n := |b| - 1;
      && (HasEvent(b, k) <==> HasEvent(b[..n], k) || b[n].k == k)
      && (b[n].k == k ==> !HasEvent(b[..n], k))
  {
    var n := |b| - 1;
    if HasEvent(b[..n], k) {
      var i :| 0 <= i < n && b[..n][i].k == k;
      assert b[i].k == k;
    }
    if HasEvent(b, k) && b[n].k != k {
      var i :| 0 <= i < |b| && b[i].k == k;
      assert b[..n][i].k == k;
    }
  }

  lemma {:induction false} BatchHolds(s: Store, a: Action, ch: string, me: string, b: seq<NickEvent>, i: nat)
    requires i < |b|
    ensures |BatchParts(s, a, ch, me, b)| >= |EventParts(s, a, ch, me, b[i].k)|
  {
    if i < |b| - 1 { BatchHolds(s, a, ch, me, b[..|b| - 1], i); }
  }

  lemma {:induction false} BatchContains(s: Store, a: Action, ch: string, me: string, b: seq<NickEvent>, i: nat,
                                         m: Message)
    requires i < |b| && m in EventParts(s, a, ch, me, b[i].k)
    ensures m in BatchParts(s, a, ch, me, b)
  {
    if i < |b| - 1 { BatchContains(s, a, ch, me, b[..|b| - 1], i, m); }
  }

  lemma {:induction false} BatchHoldsTwo(s: Store, a: Action, ch: string, me: string, b: seq<NickEvent>, i: nat, j: nat)
    requires i < j < |b|
    ensures |BatchParts(s, a, ch, me, b)| >= |EventParts(s, a, ch, me, b[i].k)| + |EventParts(s, a, ch, me, b[j].k)|
  {
    if j < |b| - 1 {
      BatchHoldsTwo(s, a, ch, me, b[..|b| - 1], i, j);
    } else {
      BatchHolds(s, a, ch, me, b[..|b| - 1], i);
    }
  }

  lemma SomeSeen(kv: Kv, me: string, nicks: seq<string>, n: string)
    requires n in nicks && SeenBy(kv, me, n)
    ensures Seen(kv, me, nicks) != []
  {
    SeenCounts(kv, me, nicks, n);
    assert n in multiset(nicks);
  }

  lemma SeenReported(s: Store, l: Lease, ch: string, me: string, k: Key, n: string)
    requires n in Names(ListOf(s.kv, k)) && SeenBy(s.kv, me, n)
    ensures PartFor(s.kv, ch, n) in EventParts(s, Expiry(l), ch, me, k)
  {
    var nicks := Names(ListOf(s.kv, k));
    var seen := Seen(s.kv, me, nicks);
    SeenCounts(s.kv, me, nicks, n);
    assert n in multiset(nicks);
    assert n in multiset(seen);
    var j :| 0 <= j < |seen| && seen[j] == n;
    assert PartsFor(s.kv, ch, seen)[j] == PartFor(s.kv, ch, n);
  }

  /** A stranger's list is deleted with the lease, and reports the stranger. */
  lemma StrangerReported(s: Store, l: Lease, ch: string, me: string) returns (k: Key)
    requires Inv(s) && Disturbed(s, Expiry(l), ch, me)
    ensures k.ChanNicks? && k.id == l && Beyond(ch, k.ch) && k in s.kv && EventParts(s, Expiry(l), ch, me, k) != []
    ensures ChanCtl(k.ch) in s.kv
  {
    var n :| TakenBeyond(s, l, ch, me, n);
    var x :| x in UserIn(s.kv, n).value.channels && Beyond(ch, x);
    k := ChanNicks(x, l);
    ClaimHasList(s, n, x);
    assert EntryOk(s, k);
    SomeSeen(s.kv, me, Names(ListOf(s.kv, k)), n);
  }

  lemma LoudBatch(s: Store, l: Lease, t: Store, ch: string, me: string, b: seq<NickEvent>)
    requires Inv(s) && IsOn(s, me, ch) && Disturbed(s, Expiry(l), ch, me)
    requires t == Expire(s, l) && t.log != s.log && ListStep(s, Expiry(l), t) && Newest(t.log, ch, b)
    ensures |BatchParts(s, Expiry(l), ch, me, b)| > |LossParts(s, Expiry(l), ch)|
  {
    var own, last, a := ChanNicks(ch, l), t.log[|s.log|], Expiry(l);
    var k := StrangerReported(s, l, ch, me);
    assert InRev(last, ch, k) && HasEvent(b, k);
    var i :| 0 <= i < |b| && b[i].k == k;
    BatchHolds(s, a, ch, me, b, i);
    OwnReported(s, l, ch, me);
    if own in s.kv {
      assert InRev(last, ch, own) && HasEvent(b, own);
      var j :| 0 <= j < |b| && b[j].k == own;
      if i < j { BatchHoldsTwo(s, a, ch, me, b, i, j); } else { BatchHoldsTwo(s, a, ch, me, b, j, i); }
    } else {
      assert Members(s.kv, ch, l) == [];
    }
  }

  /** One step: what goes out is what was lost, unless the step is disturbed; then it is more. */
  ghost predicate Told(lost: seq<Message>, out: seq<Message>, disturbed: bool) {
    if disturbed then |out| > |lost| else out == lost
  }

  lemma StepTold(s: Store, a: Action, t: Store, ch: string, me: string, b: seq<NickEvent>)
    requires Inv(s) && Enabled(s, a) && Extends(Next(s, a), t) && IsOn(s, me, ch) && Next(s, a).log != s.log
    requires Newest(Next(s, a).log, ch, b)
    ensures InTime(b, t) && AllReported(t, ch, me, b) == Some(BatchParts(s, a, ch, me, b))
    ensures Told(LossParts(s, a, ch), BatchParts(s, a, ch, me, b), Disturbed(s, a, ch, me))
  {
    StepLists(s, a);
    BatchReported(s, a, t, ch, me, b);
    if a.Expiry? {
      ExpiryTold(s, a.lease, ch, me, b);
    } else {
      NothingTold(s, a, ch, me, b);
    }
  }

  lemma {:induction false} NothingTold(s: Store, a: Action, ch: string, me: string, b: seq<NickEvent>)
    requires !a.Expiry?
    ensures BatchParts(s, a, ch, me, b) == []
  {
    if b != [] { NothingTold(s, a, ch, me, b[..|b| - 1]); }
  }

  lemma ExpiryTold(s: Store, l: Lease, ch: string, me: string, b: seq<NickEvent>)
    requires Inv(s) && IsOn(s, me, ch) && Expire(s, l).log != s.log && Newest(Expire(s, l).log, ch, b)
    requires ListStep(s, Expiry(l), Expire(s, l))
    ensures Told(LossParts(s, Expiry(l), ch), BatchParts(s, Expiry(l), ch, me, b), Disturbed(s, Expiry(l), ch, me))
  {
    var t := Expire(s, l);
    var last := t.log[|s.log|];
    if Disturbed(s, Expiry(l), ch, me) {
      LoudBatch(s, l, t, ch, me, b);
    } else {
      forall i | 0 <= i < |b| ensures b[i].k.ChanNicks? && b[i].k.id == l && Under(ch, b[i].k.ch) {
        assert FromNewest(t.log, ch, b[i]);
      }
      QuietBatch(s, l, ch, me, b);
      if !HasEvent(b, ChanNicks(ch, l)) {
        assert !InRev(last, ch, ChanNicks(ch, l));
        assert Members(s.kv, ch, l) == [];
      }
    }
  }

  // ----- whole runs

  ghost predicate Undisturbed(s: Store, acts: seq<Action>, ch: string, me: string) {
    forall i :: 0 <= i < |acts| ==> !Disturbed(Run(s, acts[..i]), acts[i], ch, me)
  }

  lemma UndisturbedLast(s: Store, acts: seq<Action>, ch: string, me: string)
    requires acts != []
    ensures var n := |acts| - 1;
      Undisturbed(s, acts, ch, me) <==>
      Undisturbed(s, acts[..n], ch, me) && !Disturbed(Run(s, acts[..n]), acts[n], ch, me)
  {
    var n := |acts| - 1;
    forall i | 0 <= i < n ensures acts[..n][..i] == acts[..i] { }
    if Undisturbed(s, acts[..n], ch, me) && !Disturbed(Run(s, acts[..n]), acts[n], ch, me) {
      forall i | 0 <= i < |acts| ensures !Disturbed(Run(s, acts[..i]), acts[i], ch, me) {
        if i < n { assert !Disturbed(Run(s, acts[..n][..i]), acts[..n][i], ch, me); }
      }
    }
    if Undisturbed(s, acts, ch, me) {
      forall i | 0 <= i < n ensures !Disturbed(Run(s, acts[..n][..i]), acts[..n][i], ch, me) {
        assert !Disturbed(Run(s, acts[..i]), acts[i], ch, me);
      }
    }
  }

  lemma {:induction false} ReportedAppend(t: Store, ch: string, me: string, evs: seq<NickEvent>, b: seq<NickEvent>,
                                          was: seq<Message>, more: seq<Message>)
    requires InTime(evs, t) && InTime(b, t)
    requires AllReported(t, ch, me, evs) == Some(was) && AllReported(t, ch, me, b) == Some(more)
    ensures InTime(evs + b, t) && AllReported(t, ch, me, evs + b) == Some(was + more)
    decreases |b|
  {
    if b == [] {
      assert evs + b == evs && was + [] == was;
    } else {
      var n := |b| - 1;
      var init, last := AllReported(t, ch, me, b[..n]).value, Reports(t, ch, me, b[n]).value;
      ReportedAppend(t, ch, me, evs, b[..n], was, init);
      ReportedSnoc(t, ch, me, evs + b[..n], b[n], was + init, last);
      assert evs + b == evs + b[..n] + [b[n]];
      Assoc(was, init, last);
    }
  }

  ghost predicate OnThroughout(s: Store, acts: seq<Action>, ch: string, me: string) {
    forall i :: 0 <= i < |acts| ==> IsOn(Run(s, acts[..i]), me, ch)
  }

  lemma Peel(s: Store, acts: seq<Action>, ch: string, me: string)
    requires Inv(s) && acts != [] && AllEnabled(s, acts) && OnThroughout(s, acts, ch, me)
    ensures var n := |acts| - 1; var before := Run(s, acts[..n]);
      && AllEnabled(s, acts[..n]) && OnThroughout(s, acts[..n], ch, me)
      && Inv(before) && Enabled(before, acts[n]) && IsOn(before, me, ch)
      && ListStep(before, acts[n], Next(before, acts[n]))
      && s.Rev() <= before.Rev()
  {
    var n := |acts| - 1;
    PrefixEnabled(s, acts, n);
    RunKeeps(s, acts[..n]);
    RevsGrow(s, acts[..n]);
    StepLists(Run(s, acts[..n]), acts[n]);
    OnBefore(s, acts, n, ch, me);
  }

  lemma OnBefore(s: Store, acts: seq<Action>, n: nat, ch: string, me: string)
    requires n <= |acts| && OnThroughout(s, acts, ch, me)
    ensures OnThroughout(s, acts[..n], ch, me)
  {
    forall i | 0 <= i < n ensures IsOn(Run(s, acts[..n][..i]), me, ch) { assert acts[..n][..i] == acts[..i]; }
  }

  lemma WatchStep(was: seq<Revision>, log: seq<Revision>, ch: string, from: nat, evs: seq<NickEvent>) returns (m: nat)
    requires |log| == |was| + 1 && log[..|was|] == was && from <= |was| && Watches(log, ch, from, evs)
    ensures m <= |evs| && Watches(was, ch, from, evs[..m]) && Newest(log, ch, evs[m..])
  {
    m :| WatchSplit(log, ch, from, evs, m);
  }

  /** What a client that is on the channel before every step of a run is told by its nick-list watcher. */
  lemma {:induction false} ReportedSoFar(s: Store, acts: seq<Action>, t: Store, ch: string, me: string,
                                         evs: seq<NickEvent>)
    returns (out: seq<Message>)
    requires Inv(s) && AllEnabled(s, acts) && Extends(Run(s, acts), t) && OnThroughout(s, acts, ch, me)
    requires Watches(Run(s, acts).log, ch, s.Rev(), evs)
    ensures InTime(evs, t) && AllReported(t, ch, me, evs) == Some(out)
    ensures Told(AllLossParts(s, acts, ch), out, !Undisturbed(s, acts, ch, me))
    decreases |acts|, 1
  {
    if acts == [] {
      out := [];
    } else {
      var n := |acts| - 1;
      Peel(s, acts, ch, me);
      UndisturbedLast(s, acts, ch, me);
      out := LastReported(s, acts[..n], acts[n], t, ch, me, evs);
    }
  }

  lemma {:induction false} LastReported(s: Store, past: seq<Action>, a: Action, t: Store, ch: string, me: string,
                                        evs: seq<NickEvent>)
    returns (out: seq<Message>)
    requires Inv(s) && AllEnabled(s, past) && OnThroughout(s, past, ch, me)
    requires var before := Run(s, past);
      && Inv(before) && Enabled(before, a) && IsOn(before, me, ch) && ListStep(before, a, Next(before, a))
      && s.Rev() <= before.Rev() && Extends(Next(before, a), t) && Watches(Next(before, a).log, ch, s.Rev(), evs)
    ensures InTime(evs, t) && AllReported(t, ch, me, evs) == Some(out)
    ensures Told(AllLossParts(s, past, ch) + LossParts(Run(s, past), a, ch), out,
                 !(Undisturbed(s, past, ch, me) && !Disturbed(Run(s, past), a, ch, me)))
    decreases |past| + 1, 0
  {
    var before, lost := Run(s, past), AllLossParts(s, past, ch);
    var after := Next(before, a);
    if after.log == before.log {
      out := ReportedSoFar(s, past, t, ch, me, evs);
      QuietStep(before, a, ch, me);
      assert lost + [] == lost;
    } else {
      var m := WatchStep(before.log, after.log, ch, s.Rev(), evs);
      var was := ReportedSoFar(s, past, t, ch, me, evs[..m]);
      out := MoreTold(before, a, t, ch, me, evs, m, was, lost, !Undisturbed(s, past, ch, me));
    }
  }

  lemma MoreTold(s: Store, a: Action, t: Store, ch: string, me: string, evs: seq<NickEvent>, m: nat,
                 was: seq<Message>, lost: seq<Message>, disturbed: bool)
    returns (out: seq<Message>)
    requires Inv(s) && Enabled(s, a) && Extends(Next(s, a), t) && IsOn(s, me, ch) && Next(s, a).log != s.log
    requires m <= |evs| && Newest(Next(s, a).log, ch, evs[m..])
    requires InTime(evs[..m], t) && AllReported(t, ch, me, evs[..m]) == Some(was) && Told(lost, was, disturbed)
    ensures InTime(evs, t) && AllReported(t, ch, me, evs) == Some(out)
    ensures Told(lost + LossParts(s, a, ch), out, disturbed || Disturbed(s, a, ch, me))
  {
    var b := evs[m..];
    StepTold(s, a, t, ch, me, b);
    assert evs == evs[..m] + b;
    out := was + BatchParts(s, a, ch, me, b);
    ReportedAppend(t, ch, me, evs[..m], b, was, BatchParts(s, a, ch, me, b));
  }

  lemma {:induction false} RevsGrow(s: Store, acts: seq<Action>)
    ensures s.Rev() <= Run(s, acts).Rev()
  {
    if acts != [] { RevsGrow(s, acts[..|acts| - 1]); }
  }

  lemma QuietStep(s: Store, a: Action, ch: string, me: string)
    requires Inv(s) && ListStep(s, a, Next(s, a)) && Next(s, a).log == s.log
    ensures LossParts(s, a, ch) == [] && !Disturbed(s, a, ch, me)
  {
    if a.Expiry? {
      assert Members(s.kv, ch, a.lease) == [] by { assert ChanNicks(ch, a.lease) !in s.kv; }
      if Disturbed(s, a, ch, me) { var k := StrangerReported(s, a.lease, ch, me); }
    }
  }

  /**
   Over any run in which the client is on the channel before every step, whatever the watch of its
   nick lists delivers, no lookup fails; and what is sent is exactly the members lost to each
   expiry, in order, if and only if no expiry takes anyone the client sees from a channel whose
   name continues after a '/'.
   */
  lemma EveryLossReported(s: Store, acts: seq<Action>, ch: string, me: string, evs: seq<NickEvent>)
    requires Inv(s) && AllEnabled(s, acts)
    requires OnThroughout(s, acts, ch, me)
    requires Watches(Run(s, acts).log, ch, s.Rev(), evs)
    ensures var t := Run(s, acts);
      && InTime(evs, t) && AllReported(t, ch, me, evs).Some?
      && (AllReported(t, ch, me, evs).value == AllLossParts(s, acts, ch) <==> Undisturbed(s, acts, ch, me))
  {
    var out := ReportedSoFar(s, acts, Run(s, acts), ch, me, evs);
  }

  /** It is enough that no channel is ever stored whose name continues that of the watched one. */
  lemma PlainNamesUndisturbed(s: Store, acts: seq<Action>, ch: string, me: string)
    requires Inv(s) && AllEnabled(s, acts)
    requires forall i, x :: 0 <= i < |acts| && ChanCtl(x) in Run(s, acts[..i]).kv ==> !Beyond(ch, x)
    ensures Undisturbed(s, acts, ch, me)
  {
    forall i | 0 <= i < |acts| ensures !Disturbed(Run(s, acts[..i]), acts[i], ch, me) {
      PrefixEnabled(s, acts, i);
      RunKeeps(s, acts[..i]);
      var before := Run(s, acts[..i]);
      if Disturbed(before, acts[i], ch, me) {
        var k := StrangerReported(before, acts[i].lease, ch, me);
      }
    }
  }

  // ----- the watcher on such a run

  /** If all lookups succeed, each does. */
  lemma {:induction false} AllMeansEach(s: Store, ch: string, me: string, events: seq<NickEvent>, n: nat)
    requires InTime(events, s) && n < |events| && AllReported(s, ch, me, events).Some?
    ensures Reports(s, ch, me, events[n]).Some? && AllReported(s, ch, me, events[..n]).Some?
    ensures AllReported(s, ch, me, events[..n]).value + Reports(s, ch, me, events[n]).value <=
            AllReported(s, ch, me, events).value
  {
    var m := |events| - 1;
    if n < m {
      AllMeansEach(s, ch, me, events[..m], n);
      assert events[..m][..n] == events[..n];
    }
  }

  /**
   The watcher on such a run sends those messages as far as its connection takes them, and stops
   early for no other reason.
   */
  method Listen(conn: Connection, s: Store, acts: seq<Action>, ch: string, evs: seq<NickEvent>, server: Lease)
    returns (ok: bool, ghost out: seq<Message>)
    requires Inv(s) && AllEnabled(s, acts)
    requires OnThroughout(s, acts, ch, conn.nick)
    requires Watches(Run(s, acts).log, ch, s.Rev(), evs)
    modifies conn
    ensures conn.Wrote(Cut(out, old(conn.room))) && (ok <==> |out| <= old(conn.room))
    ensures out == AllLossParts(s, acts, ch) <==> Undisturbed(s, acts, ch, conn.nick)
  {
    var t := Run(s, acts);
    EveryLossReported(s, acts, ch, conn.nick, evs);
    out := AllReported(t, ch, conn.nick, evs).value;
    ok := SendAll(conn, t, ch, evs, server, out);
  }

  /** When no lookup fails, the PARTs go out up to the failure of the connection. */
  method SendAll(conn: Connection, t: Store, ch: string, evs: seq<NickEvent>, server: Lease, ghost out: seq<Message>)
    returns (ok: bool)
    requires InTime(evs, t) && AllReported(t, ch, conn.nick, evs) == Some(out)
    modifies conn
    ensures conn.Wrote(Cut(out, old(conn.room))) && (ok <==> |out| <= old(conn.room))
  {
    var issued, n;
    ghost var part;
    issued, ok, n, part := MonitorPart(conn, ch, evs, server, t);
    if ok {
      assert evs[..n] == evs;
      assert out + [] == out;
    } else {
      AllMeansEach(t, ch, conn.nick, evs, n);
      CutShort(out, AllReported(t, ch, conn.nick, evs[..n]).value, Reports(t, ch, conn.nick, evs[n]).value, part);
    }
  }

  lemma CutShort(out: seq<Message>, was: seq<Message>, more: seq<Message>, part: seq<Message>)
    requires was + more <= out && part == Cut(more, |part|) && |part| < |more|
    ensures was + part == Cut(out, |was + part|) && |was + part| < |out|
  {
    var n := |was + part|;
    assert out[..|was + more|] == was + more;
    assert out[..n] == (was + more)[..n];
  }

  // ----- what the watcher cleans up

  /** In a log, revision `rev` stored an empty list under the watched prefix, on the server's own lease. */
  predicate OwnEmptyList(log: seq<Revision>, ch: string, server: Lease, k: Key, rev: nat) {
    && k.ChanNicks? && Under(ch, k.ch) && 1 <= rev <= |log|
    && k in log[rev - 1] && log[rev - 1][k] == Set(NicksV([]), server)
  }

  lemma IssuedSnoc(evs: seq<NickEvent>, ev: NickEvent, server: Lease) returns (more: seq<(Key, nat)>)
    ensures AllIssued(evs + [ev], server) == AllIssued(evs, server) + more && more == Issues(ev, server)
  {
    var all := evs + [ev];
    assert all[..|all| - 1] == evs && all[|all| - 1] == ev;
    more := Issues(ev, server);
  }

  lemma {:induction false} IssuedAppend(evs: seq<NickEvent>, b: seq<NickEvent>, server: Lease)
    ensures AllIssued(evs + b, server) == AllIssued(evs, server) + AllIssued(b, server)
  {
    if b == [] {
      assert evs + b == evs;
    } else {
      var n := |b| - 1;
      IssuedAppend(evs, b[..n], server);
      var more := IssuedSnoc(evs + b[..n], b[n], server);
      assert evs + b == evs + b[..n] + [b[n]];
      Assoc(AllIssued(evs, server), AllIssued(b[..n], server), more);
    }
  }

  lemma {:induction false} IssuedOf(b: seq<NickEvent>, server: Lease, k: Key, rev: nat)
    ensures (k, rev) in AllIssued(b, server) <==>
      exists i :: 0 <= i < |b| && b[i] == Stored(k, rev, NicksV([]), server)
  {
    if b != [] {
      var n := |b| - 1;
      IssuedOf(b[..n], server, k, rev);
      if i :| 0 <= i < |b| && b[i] == Stored(k, rev, NicksV([]), server) {
        if i < n { assert b[..n][i] == b[i]; }
      }
    }
  }

  lemma NewestIssued(log: seq<Revision>, ch: string, server: Lease, b: seq<NickEvent>, k: Key, rev: nat)
    requires log != [] && Newest(log, ch, b)
    ensures (k, rev) in AllIssued(b, server) <==> rev == |log| && OwnEmptyList(log, ch, server, k, rev)
  {
    IssuedOf(b, server, k, rev);
    if i :| 0 <= i < |b| && b[i] == Stored(k, rev, NicksV([]), server) { assert FromNewest(log, ch, b[i]); }
    if rev == |log| && OwnEmptyList(log, ch, server, k, rev) {
      assert InRev(log[|log| - 1], ch, k) && HasEvent(b, k);
      var i :| 0 <= i < |b| && b[i].k == k;
      assert FromNewest(log, ch, b[i]);
    }
  }

  lemma CleansMore(was: seq<Revision>, log: seq<Revision>, ch: string, evs: seq<NickEvent>, b: seq<NickEvent>,
                   server: Lease, k: Key, rev: nat)
    requires |log| == |was| + 1 && log[..|was|] == was && Newest(log, ch, b)
    ensures (k, rev) in AllIssued(evs + b, server) <==>
      (k, rev) in AllIssued(evs, server) || (rev == |log| && OwnEmptyList(log, ch, server, k, rev))
    ensures rev <= |was| ==> (OwnEmptyList(log, ch, server, k, rev) <==> OwnEmptyList(was, ch, server, k, rev))
  {
    NewestIssued(log, ch, server, b, k, rev);
    IssuedAppend(evs, b, server);
    if 1 <= rev <= |was| { assert log[rev - 1] == was[rev - 1]; }
  }

  /**
   The watcher cleans up exactly the empty lists of its own server: over any log, whatever the watch
   delivers, a compare-and-delete is issued for a key and revision if and only if that revision,
   since the start of the watch, stored an empty list there on the server's lease.
   */
  lemma {:induction false} CleansUpExactly(log: seq<Revision>, ch: string, from: nat, evs: seq<NickEvent>,
                                           server: Lease, k: Key, rev: nat)
    requires Watches(log, ch, from, evs)
    ensures (k, rev) in AllIssued(evs, server) <==> rev > from && OwnEmptyList(log, ch, server, k, rev)
    decreases |log|
  {
    if |log| > from {
      var was := log[..|log| - 1];
      var m := WatchStep(was, log, ch, from, evs);
      CleansUpExactly(was, ch, from, evs[..m], server, k, rev);
      CleansMore(was, log, ch, evs[..m], evs[m..], server, k, rev);
      assert evs == evs[..m] + evs[m..];
    }
  }
}
