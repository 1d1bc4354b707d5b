/** Channel operators: granted once, at creation; and what is frozen once the operator is gone. */
module Operators {
  import opened Records
  import opened Etcd
  import opened Commands
  import opened Protocol
  import opened Membership
  import opened Runs

  // ----- where operator entries are

  /**
   An operator entry heads its list, carries `o` and `O` together, is the entry `find`
   returns for its nick, and no other lease's list of the channel has one. Nobody has `v`.
   */
  lemma OperatorEntry(s: Store, ch: string, l: Lease, i: nat)
    requires Inv(s) && i < |Members(s.kv, ch, l)|
    ensures var list := Members(s.kv, ch, l);
            && 'v' !in list[i].mode
            && ('o' in list[i].mode <==> 'O' in list[i].mode)
            && (IsOp(list[i]) ==> i == 0 && FindNick(list, list[i].nick) == Some(list[i]))
            && (IsOp(list[i]) ==> forall l', j :: 0 <= j < |Members(s.kv, ch, l')| && IsOp(Members(s.kv, ch, l')[j]) ==>
                                    l' == l && j == i)
  {
    assert EntryOk(s, ChanNicks(ch, l));
    if IsOp(Members(s.kv, ch, l)[i]) {
      forall l', j | 0 <= j < |Members(s.kv, ch, l')| && IsOp(Members(s.kv, ch, l')[j]) ensures l' == l && j == i {
        assert EntryOk(s, ChanNicks(ch, l')) && SoleAt(s.kv, ch, l, l');
      }
    }
  }

  // ----- when they appear

  lemma JoinLists(s: Store, c: Client, x: string, ch: string, l: Lease)
    requires Inv(s) && Registered(s, c)
    ensures HeadOp(Members(Next(s, Command(c, Join(x))).kv, ch, l)) ==>
            HeadOp(Members(s.kv, ch, l)) || (x == ch && ChanCtl(ch) !in s.kv)
  {
    NewChannelHasNoLists(s, ch, l);
    var u, ctl, me := JoinStages(s, c, x);
    var ws := TxnOf(Join(x), c, s).ws;
    assert Accepts(s, ws);
    CommitEffect(s, ws);
    JoinMembers(s, c, x, ws, u, ctl, me, Commit(s, ws), ch, l);
  }

  lemma QuitLists(s: Store, c: Client, msg: string, ch: string, l: Lease)
    requires Inv(s) && Registered(s, c)
    ensures HeadOp(Members(Next(s, Command(c, Quit(msg))).kv, ch, l)) ==> HeadOp(Members(s.kv, ch, l))
  {
    NewChannelHasNoLists(s, ch, l);
    QuitStages(s, c, msg);
    var ws, u := TxnOf(Quit(msg), c, s).ws, UserIn(s.kv, c.nick).value;
    QuitAccepted(s, c, u, msg, ws);
    CommitEffect(s, ws);
    QuitMembers(s, c, u, msg, ws, Commit(s, ws), ch, l);
    DelTimesShape(Members(s.kv, ch, l), c.nick, multiset(u.channels)[ch]);
  }

  lemma QuietLists(s: Store, c: Client, op: Op, ch: string, l: Lease)
    requires Inv(s) && Registered(s, c) && QuietOp(op)
    ensures Members(Next(s, Command(c, op)).kv, ch, l) == Members(s.kv, ch, l)
  {
    if TxnOf(op, c, s).Ready? {
      var ws := TxnOf(op, c, s).ws;
      QuietOps(s, c, op);
      QuietAccepted(s, ws);
      CommitEffect(s, ws);
      QuietMembers(s, ws, Commit(s, ws), ch, l);
    }
  }

  lemma CommandLists(s: Store, c: Client, op: Op, ch: string, l: Lease)
    requires Inv(s) && Registered(s, c)
    ensures HeadOp(Members(Next(s, Command(c, op)).kv, ch, l)) ==>
            HeadOp(Members(s.kv, ch, l)) || (op == Join(ch) && ChanCtl(ch) !in s.kv)
  {
    NewChannelHasNoLists(s, ch, l);
    match op {
      case Join(x) => JoinLists(s, c, x, ch, l);
      case Quit(msg) => QuitLists(s, c, msg, ch, l);
      case Part(x, msg) =>
        PartStages(s, c, x, msg);
        LeaveLists(s, TxnOf(op, c, s), c.nick, x, c.Says(PART, [x, msg]), ch, l);
      case Kick(x, target, msg) =>
        KickStages(s, c, x, target, msg);
        LeaveLists(s, TxnOf(op, c, s), target, x, c.Says(KICK, [x, target, msg]), ch, l);
      case _ => QuietLists(s, c, op, ch, l);
    }
  }

  lemma LeaveLists(s: Store, txn: Txn, n: string, x: string, msg: Value, ch: string, l: Lease)
    requires OpShape(Members(s.kv, ch, l)) && txn.Ready?
    requires txn == NOTHING || (UserIn(s.kv, n).Some? && Leaves(s, txn.ws, n, x, UserIn(s.kv, n).value, msg))
    ensures HeadOp(Members(Commit(s, txn.ws).kv, ch, l)) ==> HeadOp(Members(s.kv, ch, l))
  {
    NothingKeeps(s);
    if txn != NOTHING {
      assert Accepts(s, txn.ws);
      CommitEffect(s, txn.ws);
      LeaveMembers(s, txn.ws, n, x, UserIn(s.kv, n).value, msg, Commit(s, txn.ws), ch, l);
      DelShape(Members(s.kv, ch, l), n);
    }
  }

  lemma UnlistedWrites(s: Store, ws: Writes, ch: string, l: Lease)
    requires ChanNicks(ch, l) !in ws
    ensures Members(Commit(s, ws).kv, ch, l) == Members(s.kv, ch, l)
  {
    if Accepts(s, ws) {
      CommitEffect(s, ws);
      assert WroteAt(s, ws, Commit(s, ws), ChanNicks(ch, l));
    }
  }

  lemma OtherLists(s: Store, a: Action, ch: string, l: Lease)
    requires Faithful(s) && Enabled(s, a) && !a.Command?
    ensures HeadOp(Members(Next(s, a).kv, ch, l)) ==> HeadOp(Members(s.kv, ch, l))
  {
    match a {
      case Register(c, pinned) => UnlistedWrites(s, RegisterWrites(c, pinned), ch, l);
      case Cleanup(server, k, rev) => CleanupSafe(s, server, k, rev);
      case Expiry(id) => ExpireEffect(s, id);
      case Grant(_) =>
      case SetOper(login, oper) => UnlistedWrites(s, map[OperCtl(login) := Put(OperV(oper), Detach)], ch, l);
    }
  }

  /** A list gains an operator only when a join creates its channel. */
  lemma GrantedAtCreation(s: Store, a: Action, ch: string, l: Lease)
    requires Inv(s) && Enabled(s, a)
    ensures HeadOp(Members(Next(s, a).kv, ch, l)) && !HeadOp(Members(s.kv, ch, l)) ==>
              a.Command? && a.op == Join(ch) && ChanCtl(ch) !in s.kv
  {
    if a.Command? {
      CommandLists(s, a.c, a.op, ch, l);
    } else {
      OtherLists(s, a, ch, l);
    }
  }

  // ----- channels whose operator is gone

  ghost predicate Orphaned(s: Store, ch: string) {
    ChanIn(s.kv, ch).Some? && forall l :: !HeadOp(Members(s.kv, ch, l))
  }

  /** In an orphaned channel nobody's entry passes any operator or voice test. */
  lemma NobodySpeaks(s: Store, ch: string, l: Lease, n: string)
    requires WellKeyed(s) && Orphaned(s, ch)
    ensures var m := FindNick(Members(s.kv, ch, l), n); m.Some? ==> !IsOp(m.value) && 'v' !in m.value.mode
  {
    assert EntryOk(s, ChanNicks(ch, l)) && !HeadOp(Members(s.kv, ch, l));
    var list := Members(s.kv, ch, l);
    var m := FindNick(list, n);
    if m.Some? {
      var i :| 0 <= i < |list| && list[i] == m.value;
    }
  }

  /**
   In an orphaned channel a command stages nothing on the channel record, except that an
   unprotected topic may change and a join rewrites the record as it is.
   */
  lemma OrphanRecord(s: Store, c: Client, op: Op, ch: string)
    requires WellKeyed(s) && Orphaned(s, ch) && TxnOf(op, c, s).Ready?
    ensures var ws := TxnOf(op, c, s).ws; var v := ChanIn(s.kv, ch).value;
            ChanCtl(ch) in ws ==>
              && ws[ChanCtl(ch)].Put? && ws[ChanCtl(ch)].value.ChanV?
              && ws[ChanCtl(ch)].value.ctl.mode == v.mode
              && ('t' in v.mode ==> ws[ChanCtl(ch)].value.ctl == v)
  {
    NobodySpeaks(s, ch, c.lease, c.nick);
    assert EntryOk(s, ChanCtl(ch)) && EntryOk(s, ChanNicks(ch, c.lease));
    if op.Quit? {
      var u := UserIn(s.kv, c.nick).value;
      QuitLoopShape(s, c, u.channels, op.msg);
      assert LoopWrite(s, c, u.channels, QuitLoop(s, c, u.channels, op.msg).value, ChanCtl(ch));
    }
  }

  lemma OrphanStep(s: Store, a: Action, ch: string)
    requires Inv(s) && Enabled(s, a) && Orphaned(s, ch)
    ensures var t := Next(s, a); var v := ChanIn(s.kv, ch).value;
            && Orphaned(t, ch) && ChanIn(t.kv, ch).value.mode == v.mode
            && ('t' in v.mode ==> ChanIn(t.kv, ch).value == v)
  {
    var t := Next(s, a);
    forall l ensures !HeadOp(Members(t.kv, ch, l)) {
      assert !HeadOp(Members(s.kv, ch, l));
      GrantedAtCreation(s, a, ch, l);
    }
    var k := ChanCtl(ch);
    match a {
      case Command(c, op) =>
        if TxnOf(op, c, s).Ready? {
          var ws := TxnOf(op, c, s).ws;
          NeverRefused(s, c, op);
          CommitEffect(s, ws);
          OrphanRecord(s, c, op, ch);
          assert WroteAt(s, ws, t, k);
        }
      case Register(c, pinned) =>
        var ws := RegisterWrites(c, pinned);
        if UserCtl(c.nick) !in s.kv && Accepts(s, ws) {
          CommitEffect(s, ws);
          assert WroteAt(s, ws, t, k);
        }
      case Cleanup(_, x, rev) =>
        if x in s.kv && s.kv[x].mod == rev {
          CommitEffect(s, map[x := Del]);
          assert WroteAt(s, map[x := Del], t, k);
        }
      case Expiry(l) =>
        ExpireEffect(s, l);
        LeaseOwns(s, l, k);
      case Grant(_) =>
      case SetOper(login, oper) =>
        var ws := map[OperCtl(login) := Put(OperV(oper), Detach)];
        CommitEffect(s, ws);
        assert WroteAt(s, ws, t, k);
    }
  }

  /**
   Once an existing channel has no operator entry it has none in every later state: its
   mode never changes again, and a protected topic is frozen.
   */
  lemma {:induction false} OrphanedForever(s: Store, acts: seq<Action>, ch: string)
    requires Inv(s) && Orphaned(s, ch) && AllEnabled(s, acts)
    ensures var t := Run(s, acts); var v := ChanIn(s.kv, ch).value;
            && Orphaned(t, ch) && ChanIn(t.kv, ch).value.mode == v.mode
            && ('t' in v.mode ==> ChanIn(t.kv, ch).value == v)
  {
    if acts != [] {
      var n := |acts| - 1;
      PrefixEnabled(s, acts, n);
      OrphanedForever(s, acts[..n], ch);
      RunKeeps(s, acts[..n]);
      OrphanStep(Run(s, acts[..n]), acts[n], ch);
    }
  }

  lemma OrphanRefuses(t: Store, ch: string, c: Client)
    requires WellKeyed(t) && Orphaned(t, ch)
    ensures forall target, msg :: Next(t, Command(c, Kick(ch, target, msg))) == t
    ensures 'm' in ChanIn(t.kv, ch).value.mode && Registered(t, c) ==>
              forall msg :: Next(t, Command(c, PrivMsgChan(ch, msg))) == t
  {
    NothingKeeps(t);
    NobodySpeaks(t, ch, c.lease, c.nick);
    assert EntryOk(t, ChanNicks(ch, c.lease)) && EntryOk(t, ChanCtl(ch));
    forall target, msg ensures Next(t, Command(c, Kick(ch, target, msg))) == t {
      assert TxnOf(Kick(ch, target, msg), c, t) in {NOTHING, Abort};
    }
    if 'm' in ChanIn(t.kv, ch).value.mode && Registered(t, c) {
      forall msg ensures Next(t, Command(c, PrivMsgChan(ch, msg))) == t {
        assert TxnOf(PrivMsgChan(ch, msg), c, t) in {NOTHING, Abort};
      }
    }
  }

  /**
   From then on nobody is kicked from the channel, and if it is moderated no PRIVMSG is
   stored through it: such commands leave every later state as it is.
   */
  lemma OrphanSilent(s: Store, acts: seq<Action>, ch: string, c: Client, target: string, msg: string)
    requires Inv(s) && Orphaned(s, ch) && AllEnabled(s, acts)
    ensures var t := Run(s, acts);
            && Next(t, Command(c, Kick(ch, target, msg))) == t
            && ('m' in ChanIn(s.kv, ch).value.mode && Registered(t, c) ==>
                  Next(t, Command(c, PrivMsgChan(ch, msg))) == t)
  {
    OrphanedForever(s, acts, ch);
    RunKeeps(s, acts);
    OrphanRefuses(Run(s, acts), ch, c);
  }
}
