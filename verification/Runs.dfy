/** What holds in every run: the invariant, and what it says about expiry, cleanup and refused writes. */
module Runs {
  import opened Records
  import opened Etcd
  import opened Commands
  import opened Protocol
  import opened Membership

  // ----- registration

  lemma RegisterEntry(s: Store, c: Client, pinned: string, t: Store, k: Key)
    requires WellKeyed(s) && UserCtl(c.nick) !in s.kv && c.lease in s.leases && PinnedOk(pinned)
    requires Wrote(s, RegisterWrites(c, pinned), t)
    ensures EntryOk(t, k)
  {
    var ws := RegisterWrites(c, pinned);
    assert WroteAt(s, ws, t, k) && EntryOk(s, k);
    match k
    case UserCtl(x) => assert WroteAt(s, ws, t, UserMsg(x));
    case UserMsg(x) => assert WroteAt(s, ws, t, UserCtl(x));
    case ChanCtl(x) => assert WroteAt(s, ws, t, ChanMsg(x));
    case ChanMsg(x) => assert WroteAt(s, ws, t, ChanCtl(x));
    case ChanNicks(x, _) => assert WroteAt(s, ws, t, ChanCtl(x));
    case OperCtl(_) =>
  }

  lemma RegisterAgrees(s: Store, c: Client, pinned: string, t: Store, n: string, ch: string, l: Lease)
    requires UserCtl(c.nick) !in s.kv && Wrote(s, RegisterWrites(c, pinned), t) && AgreeAt(s.kv, n, ch, l)
    ensures AgreeAt(t.kv, n, ch, l) && Members(t.kv, ch, l) == Members(s.kv, ch, l)
  {
    var ws := RegisterWrites(c, pinned);
    assert WroteAt(s, ws, t, ChanNicks(ch, l)) && WroteAt(s, ws, t, UserCtl(n));
    if n == c.nick {
      assert t.kv[UserCtl(n)].value.user.channels == [];
    } else {
      assert UserIn(t.kv, n) == UserIn(s.kv, n);
    }
  }

  lemma RegisterKeeps(s: Store, c: Client, pinned: string)
    requires Inv(s) && PinnedOk(pinned)
    ensures Inv(Next(s, Register(c, pinned)))
  {
    var ws := RegisterWrites(c, pinned);
    if UserCtl(c.nick) !in s.kv && Accepts(s, ws) {
      var t := Commit(s, ws);
      assert ws[UserCtl(c.nick)].how == Attach(c.lease);
      CommitEffect(s, ws);
      RegisterInv(s, c, pinned, t);
    }
  }

  lemma RegisterInv(s: Store, c: Client, pinned: string, t: Store)
    requires WellKeyed(s) && Agreement(s.kv) && SoleOperator(s.kv) && PinnedOk(pinned)
    requires UserCtl(c.nick) !in s.kv && c.lease in s.leases && Wrote(s, RegisterWrites(c, pinned), t)
    ensures WellKeyed(t) && Agreement(t.kv) && SoleOperator(t.kv)
  {
    forall k ensures EntryOk(t, k) { RegisterEntry(s, c, pinned, t, k); }
    forall n, ch, l ensures AgreeAt(t.kv, n, ch, l) {
      assert AgreeAt(s.kv, n, ch, l);
      RegisterAgrees(s, c, pinned, t, n, ch, l);
    }
    forall ch, l ensures HeadOp(Members(t.kv, ch, l)) ==> HeadOp(Members(s.kv, ch, l)) {
      assert AgreeAt(s.kv, "", ch, l);
      RegisterAgrees(s, c, pinned, t, "", ch, l);
    }
    SoleWhenShrinking(s.kv, t.kv);
  }

  // ----- removals: cleanup and expiry

  /** `t` is `s` without the keys of `gone`; the leases in `t` still cover its keys. */
  ghost predicate Drops(s: Store, t: Store, gone: set<Key>) {
    && t.kv == s.kv - gone
    && 0 !in t.leases
    && (forall k :: k in t.kv && t.kv[k].lease in s.leases ==> t.kv[k].lease in t.leases)
  }

  /** A set of keys that can go together: whole users with their entries, or lists with no entry left. */
  ghost predicate Closed(s: Store, gone: set<Key>) {
    && (forall n :: UserCtl(n) in gone <==> UserMsg(n) in gone)
    && (forall ch :: ChanCtl(ch) !in gone && ChanMsg(ch) !in gone)
    && (forall n, ch, l :: ClosedAt(s, gone, n, ch, l))
  }

  /** A user and the lists that name it go together. */
  ghost predicate ClosedAt(s: Store, gone: set<Key>, n: string, ch: string, l: Lease) {
    Claims(s.kv, n, ch, l) > 0 ==> (UserCtl(n) in gone <==> ChanNicks(ch, l) in gone)
  }

  lemma DropEntry(s: Store, t: Store, gone: set<Key>, k: Key)
    requires WellKeyed(s) && Drops(s, t, gone) && Closed(s, gone)
    ensures EntryOk(t, k)
  {
    assert EntryOk(s, k);
  }

  lemma DropAgrees(s: Store, t: Store, gone: set<Key>, n: string, ch: string, l: Lease)
    requires AgreeAt(s.kv, n, ch, l) && Drops(s, t, gone) && ClosedAt(s, gone, n, ch, l)
    ensures AgreeAt(t.kv, n, ch, l)
  {
    var k, uk := ChanNicks(ch, l), UserCtl(n);
    assert Members(t.kv, ch, l) == if k in gone then [] else Members(s.kv, ch, l);
    assert UserIn(t.kv, n) == if uk in gone then None else UserIn(s.kv, n);
  }

  lemma DropInv(s: Store, t: Store, gone: set<Key>)
    requires WellKeyed(s) && Agreement(s.kv) && SoleOperator(s.kv) && Drops(s, t, gone) && Closed(s, gone)
    ensures WellKeyed(t) && Agreement(t.kv) && SoleOperator(t.kv)
  {
    forall k ensures EntryOk(t, k) { DropEntry(s, t, gone, k); }
    forall n, ch, l ensures AgreeAt(t.kv, n, ch, l) {
      assert AgreeAt(s.kv, n, ch, l) && ClosedAt(s, gone, n, ch, l);
      DropAgrees(s, t, gone, n, ch, l);
    }
    SoleWhenShrinking(s.kv, t.kv);
  }

  /**
   Cleanup never erases a join: whatever happened since the watch event, a delete that
   passes its mod-revision compare removes a list that is still empty.
   */
  lemma CleanupSafe(s: Store, server: Lease, k: Key, rev: nat)
    requires Faithful(s) && SawEmptyList(s, server, k, rev)
    ensures k in s.kv && s.kv[k].mod == rev ==> s.kv[k].value == NicksV([])
    ensures var t := Next(s, Cleanup(server, k, rev));
            && (forall ch, l :: Members(t.kv, ch, l) == Members(s.kv, ch, l))
            && (forall n :: UserIn(t.kv, n) == UserIn(s.kv, n))
  {
    if k in s.kv && s.kv[k].mod == rev {
      ModNamesEntry(s.log, k);
      var t := Commit(s, map[k := Del]);
      CommitEffect(s, map[k := Del]);
      forall ch, l ensures Members(t.kv, ch, l) == Members(s.kv, ch, l) {
        assert WroteAt(s, map[k := Del], t, ChanNicks(ch, l));
      }
      forall n ensures UserIn(t.kv, n) == UserIn(s.kv, n) {
        assert WroteAt(s, map[k := Del], t, UserCtl(n));
      }
    }
  }

  lemma CleanupKeeps(s: Store, server: Lease, k: Key, rev: nat)
    requires Inv(s) && SawEmptyList(s, server, k, rev)
    ensures Inv(Next(s, Cleanup(server, k, rev)))
  {
    if k in s.kv && s.kv[k].mod == rev {
      CleanupSafe(s, server, k, rev);
      var t := Commit(s, map[k := Del]);
      CommitEffect(s, map[k := Del]);
      forall x ensures x in t.kv <==> x in s.kv && x != k { assert WroteAt(s, map[k := Del], t, x); }
      forall x | x in t.kv ensures t.kv[x] == s.kv[x] { assert WroteAt(s, map[k := Del], t, x); }
      assert t.kv == s.kv - {k};
      forall n, ch, l ensures ClosedAt(s, {k}, n, ch, l) {
        assert AgreeAt(s.kv, n, ch, l);
      }
      DropInv(s, t, {k});
    }
  }

  // ----- expiry

  function LeasedTo(kv: Kv, l: Lease): set<Key> { set k | k in kv && kv[k].lease == l }

  lemma ExpireEffect(s: Store, l: Lease)
    ensures Expire(s, l).kv == s.kv - LeasedTo(s.kv, l)
    ensures Expire(s, l).leases == s.leases - {l}
    ensures Faithful(s) ==> Faithful(Expire(s, l))
  {
    var changes: Revision := map k | k in s.kv && s.kv[k].lease == l :: Gone;
    assert changes.Keys == LeasedTo(s.kv, l);
    if Faithful(s) { AdvanceFaithful(s, changes); }
    if changes == map[] {
      assert LeasedTo(s.kv, l) == {};
    }
  }

  /** The keys of a lease are exactly its users, their message keys and its own lists. */
  lemma LeaseOwns(s: Store, l: Lease, k: Key)
    requires WellKeyed(s) && l in s.leases
    ensures k in LeasedTo(s.kv, l) <==>
            k in s.kv && match k
                         case UserCtl(n) => s.kv[k].value.UserV? && s.kv[k].value.user.lease == l
                         case UserMsg(n) => UserIn(s.kv, n).Some? && UserIn(s.kv, n).value.lease == l
                         case ChanNicks(_, id) => id == l
                         case _ => false
  {
    assert EntryOk(s, k);
    if k.UserMsg? { assert EntryOk(s, UserCtl(k.nick)); }
  }

  lemma ExpireClosed(s: Store, l: Lease)
    requires WellKeyed(s) && Agreement(s.kv) && l in s.leases
    ensures Closed(s, LeasedTo(s.kv, l))
  {
    var gone := LeasedTo(s.kv, l);
    forall n ensures UserCtl(n) in gone <==> UserMsg(n) in gone {
      assert EntryOk(s, UserCtl(n)) && EntryOk(s, UserMsg(n));
    }
    forall ch ensures ChanCtl(ch) !in gone && ChanMsg(ch) !in gone {
      LeaseOwns(s, l, ChanCtl(ch));
      LeaseOwns(s, l, ChanMsg(ch));
    }
    forall n, ch, id ensures ClosedAt(s, gone, n, ch, id) {
      if Claims(s.kv, n, ch, id) > 0 {
        assert ch in multiset(UserIn(s.kv, n).value.channels);
        ClaimHasList(s, n, ch);
        LeaseOwns(s, l, UserCtl(n));
        LeaseOwns(s, l, ChanNicks(ch, id));
      }
    }
  }

  lemma ExpiryKeeps(s: Store, l: Lease)
    requires Inv(s) && l in s.leases
    ensures Inv(Expire(s, l))
  {
    ExpireEffect(s, l);
    ExpireClosed(s, l);
    DropInv(s, Expire(s, l), LeasedTo(s.kv, l));
  }

  /**
   Expiry of a lease removes exactly its own users, message keys and lists. Every other
   record survives unchanged, and no user of the lease is left on any list.
   */
  lemma ExpiryExact(s: Store, l: Lease)
    requires Inv(s) && l in s.leases
    ensures var t := Expire(s, l);
            && (forall n :: UserIn(t.kv, n) == if UserIn(s.kv, n).Some? && UserIn(s.kv, n).value.lease == l then None
                                               else UserIn(s.kv, n))
            && (forall ch, id :: Members(t.kv, ch, id) == if id == l then [] else Members(s.kv, ch, id))
            && (forall n, ch, id :: UserIn(s.kv, n).Some? && UserIn(s.kv, n).value.lease == l ==>
                  n !in Names(Members(t.kv, ch, id)))
            && (forall k :: k in s.kv && (k.ChanCtl? || k.ChanMsg? || k.OperCtl?) ==> k in t.kv && t.kv[k] == s.kv[k])
  {
    var t := Expire(s, l);
    ExpireEffect(s, l);
    ExpiryKeeps(s, l);
    forall n ensures UserIn(t.kv, n) == if UserIn(s.kv, n).Some? && UserIn(s.kv, n).value.lease == l then None
                                               else UserIn(s.kv, n)
    {
      LeaseOwns(s, l, UserCtl(n));
    }
    forall ch, id ensures Members(t.kv, ch, id) == if id == l then [] else Members(s.kv, ch, id) {
      LeaseOwns(s, l, ChanNicks(ch, id));
    }
    forall n, ch, id | UserIn(s.kv, n).Some? && UserIn(s.kv, n).value.lease == l
      ensures n !in Names(Members(t.kv, ch, id))
    {
      GoneFromLists(t, n, ch, id);
    }
    forall k | k in s.kv && (k.ChanCtl? || k.ChanMsg? || k.OperCtl?) ensures k in t.kv && t.kv[k] == s.kv[k] {
      LeaseOwns(s, l, k);
    }
  }

  /** A nick without a record (it quit, or its lease expired) is on no list. */
  lemma GoneFromLists(s: Store, n: string, ch: string, l: Lease)
    requires Inv(s) && UserIn(s.kv, n).None?
    ensures n !in Names(Members(s.kv, ch, l))
  {
    assert AgreeAt(s.kv, n, ch, l);
    assert n in Names(Members(s.kv, ch, l)) <==> n in multiset(Names(Members(s.kv, ch, l)));
  }

  // ----- no staged transaction is refused, and which ones end in an error

  /** Every write that keeps a lease hits an existing key, and every attached lease is live. */
  lemma NeverRefused(s: Store, c: Client, op: Op)
    requires Inv(s) && Registered(s, c) && TxnOf(op, c, s).Ready?
    ensures Accepts(s, TxnOf(op, c, s).ws)
  {
    var ws := TxnOf(op, c, s).ws;
    match op {
      case Join(ch) => var _, _, _ := JoinStages(s, c, ch);
      case Quit(msg) =>
        QuitStages(s, c, msg);
        QuitAccepted(s, c, UserIn(s.kv, c.nick).value, msg, ws);
      case Part(ch, msg) => PartStages(s, c, ch, msg);
      case Kick(ch, target, msg) => KickStages(s, c, ch, target, msg);
      case _ =>
        QuietOps(s, c, op);
        QuietAccepted(s, ws);
    }
  }

  /**
   A command of a registered client ends in an error exactly when it must consult a nick
   list that its server does not have: a decode of the empty string, not a reply.
   */
  lemma ErrorsExactly(s: Store, c: Client, op: Op)
    requires Inv(s) && Registered(s, c)
    ensures TxnOf(op, c, s).Abort? <==>
            && (op.ChanMode? || op.Topic? || op.PrivMsgChan?)
            && ChanIn(s.kv, op.ch).Some? && ChanNicks(op.ch, c.lease) !in s.kv
            && (op.Topic? ==> op.text.Some? && 't' in ChanIn(s.kv, op.ch).value.mode)
            && (op.PrivMsgChan? ==> 'm' in ChanIn(s.kv, op.ch).value.mode)
  {
    assert EntryOk(s, UserCtl(c.nick));
    match op {
      case Join(ch) => var _, _, _ := JoinStages(s, c, ch);
      case Quit(msg) => QuitStages(s, c, msg);
      case Part(ch, msg) => PartStages(s, c, ch, msg);
      case Kick(ch, target, msg) => KickStages(s, c, ch, target, msg);
      case ChanMode(ch, _, _) => assert EntryOk(s, ChanCtl(ch)) && EntryOk(s, ChanNicks(ch, c.lease));
      case Topic(ch, _) => assert EntryOk(s, ChanCtl(ch)) && EntryOk(s, ChanNicks(ch, c.lease));
      case PrivMsgChan(ch, _) => assert EntryOk(s, ChanCtl(ch)) && EntryOk(s, ChanNicks(ch, c.lease));
      case PrivMsgUser(target, _) => assert EntryOk(s, UserCtl(target));
      case Oper(login, _) => assert EntryOk(s, OperCtl(login));
      case UserMode(_, _) =>
      case Away(_) =>
    }
  }

  // ----- every step

  lemma SetOperKeeps(s: Store, login: string, oper: OperValue)
    requires Inv(s)
    ensures Inv(Next(s, SetOper(login, oper)))
  {
    var ws := map[OperCtl(login) := Put(OperV(oper), Detach)];
    forall k ensures QuietAt(s, ws, k) { }
    QuietKeeps(s, ws);
  }

  lemma GrantKeeps(s: Store, l: Lease)
    requires Inv(s) && l != 0
    ensures Inv(Next(s, Grant(l)))
  {
    var t := Next(s, Grant(l));
    forall k ensures EntryOk(t, k) { assert EntryOk(s, k); }
  }

  lemma NothingKeeps(s: Store)
    ensures Commit(s, map[]) == s
  {
    assert ChangesOf(s, map[]) == map[];
  }

  lemma CommandKeeps(s: Store, c: Client, op: Op)
    requires Inv(s) && Registered(s, c)
    ensures Inv(Next(s, Command(c, op)))
  {
    match op {
      case Join(ch) => JoinKeeps(s, c, ch);
      case Quit(msg) => QuitKeeps(s, c, msg);
      case Part(ch, msg) =>
        PartStages(s, c, ch, msg);
        NothingKeeps(s);
        if TxnOf(op, c, s) != NOTHING {
          LeaveKeeps(s, TxnOf(op, c, s).ws, c.nick, ch, UserIn(s.kv, c.nick).value, c.Says(PART, [ch, msg]));
        }
      case Kick(ch, target, msg) =>
        KickStages(s, c, ch, target, msg);
        NothingKeeps(s);
        if TxnOf(op, c, s) != NOTHING {
          LeaveKeeps(s, TxnOf(op, c, s).ws, target, ch, UserIn(s.kv, target).value, c.Says(KICK, [ch, target, msg]));
        }
      case _ =>
        if TxnOf(op, c, s).Ready? {
          QuietOps(s, c, op);
          QuietKeeps(s, TxnOf(op, c, s).ws);
        }
    }
  }

  lemma StepKeeps(s: Store, a: Action)
    requires Inv(s) && Enabled(s, a)
    ensures Inv(Next(s, a))
  {
    match a {
      case Grant(l) => GrantKeeps(s, l);
      case Register(c, pinned) => RegisterKeeps(s, c, pinned);
      case Command(c, op) => CommandKeeps(s, c, op);
      case Cleanup(server, k, rev) => CleanupKeeps(s, server, k, rev);
      case Expiry(l) => ExpiryKeeps(s, l);
      case SetOper(login, oper) => SetOperKeeps(s, login, oper);
    }
  }

  lemma {:induction false} RunKeeps(s: Store, acts: seq<Action>)
    requires Inv(s) && AllEnabled(s, acts)
    ensures Inv(Run(s, acts))
  {
    if acts != [] {
      var n := |acts| - 1;
      PrefixEnabled(s, acts, n);
      RunKeeps(s, acts[..n]);
      StepKeeps(Run(s, acts[..n]), acts[n]);
    }
  }

  lemma PrefixEnabled(s: Store, acts: seq<Action>, n: nat)
    requires AllEnabled(s, acts) && n <= |acts|
    ensures AllEnabled(s, acts[..n])
  {
    forall i | 0 <= i < n ensures Enabled(Run(s, acts[..n][..i]), acts[..n][i]) {
      assert acts[..n][..i] == acts[..i];
    }
  }

  lemma RunMore(s: Store, acts: seq<Action>, a: Action)
    requires AllEnabled(s, acts) && Enabled(Run(s, acts), a)
    ensures AllEnabled(s, acts + [a]) && Run(s, acts + [a]) == Next(Run(s, acts), a)
  {
    var all := acts + [a];
    assert all[..|acts|] == acts;
    forall i | 0 <= i < |all| ensures Enabled(Run(s, all[..i]), all[i]) {
      if i < |acts| { assert all[..i] == acts[..i]; }
    }
  }

  lemma EmptyInv()
    ensures Inv(EMPTY)
  {
    forall n, ch, l ensures AgreeAt(EMPTY.kv, n, ch, l) { }
    forall ch, l1, l2 ensures SoleAt(EMPTY.kv, ch, l1, l2) { }
  }

  /**
   In every run from the empty store, every user and channel agree, count for count, on
   the user's own lease, and no other lease's list names the user.
   */
  lemma MembershipAgrees(acts: seq<Action>, n: string, ch: string, l: Lease)
    requires AllEnabled(EMPTY, acts)
    ensures var kv := Run(EMPTY, acts).kv;
            Entries(Members(kv, ch, l), n) ==
            match UserIn(kv, n)
            case None => 0
            case Some(u) => if u.lease == l then multiset(u.channels)[ch] else 0
  {
    EmptyInv();
    RunKeeps(EMPTY, acts);
    assert AgreeAt(Run(EMPTY, acts).kv, n, ch, l);
  }
}
