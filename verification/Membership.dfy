/** Every step keeps the invariant: who is on which channel is recorded twice, and the records agree. */
module Membership {
  import opened Seqs
  import opened Records
  import opened Etcd
  import opened Commands
  import opened Protocol
  import Modes

  // ----- lists under deletion and append

  function DelTimes(list: seq<Member>, nick: string, k: nat): seq<Member> {
    if k == 0 then list else DelNick(DelTimes(list, nick, k - 1), nick)
  }

  lemma {:induction false} FirstIndex(list: seq<Member>, nick: string) returns (i: nat)
    requires nick in Names(list)
    ensures i < |list| && list[i].nick == nick && forall j :: 0 <= j < i ==> list[j].nick != nick
  {
    if list[0].nick == nick {
      i := 0;
    } else {
      assert Names(list)[1..] == Names(list[1..]);
      var k := FirstIndex(list[1..], nick);
      i := k + 1;
    }
  }

  lemma DelShape(list: seq<Member>, nick: string)
    requires OpShape(list)
    ensures OpShape(DelNick(list, nick))
    ensures HeadOp(DelNick(list, nick)) ==> HeadOp(list)
  {
    if nick in Names(list) {
      var i := FirstIndex(list, nick);
      DelNickIsSplice(list, nick, i);
    } else {
      DelNickAbsent(list, nick);
    }
  }

  lemma {:induction false} DelTimesShape(list: seq<Member>, nick: string, k: nat)
    requires OpShape(list)
    ensures OpShape(DelTimes(list, nick, k))
    ensures HeadOp(DelTimes(list, nick, k)) ==> HeadOp(list)
  {
    if k != 0 {
      DelTimesShape(list, nick, k - 1);
      DelShape(DelTimes(list, nick, k - 1), nick);
    }
  }

  lemma {:induction false} DelTimesEntries(list: seq<Member>, nick: string, k: nat, n: string)
    ensures n != nick ==> Entries(DelTimes(list, nick, k), n) == Entries(list, n)
    ensures n == nick ==> Entries(DelTimes(list, nick, k), n) ==
                          if k <= Entries(list, n) then Entries(list, n) - k else 0
  {
    if k != 0 {
      DelTimesEntries(list, nick, k - 1, n);
      EntriesDel(DelTimes(list, nick, k - 1), nick, n);
    }
  }

  lemma AppendShape(list: seq<Member>, m: Member)
    requires OpShape(list) && (m.mode == "" || (m.mode == OPERATOR && list == []))
    ensures OpShape(list + [m])
    ensures HeadOp(list + [m]) ==> HeadOp(list) || m.mode == OPERATOR
  {
  }

  /** Lists that only lose or keep their operator keep the operator unique. */
  lemma SoleWhenShrinking(kv: Kv, kv': Kv)
    requires SoleOperator(kv)
    requires forall ch, l :: HeadOp(Members(kv', ch, l)) ==> HeadOp(Members(kv, ch, l))
    ensures SoleOperator(kv')
  {
    forall ch, l1, l2 ensures SoleAt(kv', ch, l1, l2) {
      assert SoleAt(kv, ch, l1, l2);
    }
  }

  // ----- steps that leave membership alone

  /** The write edits an existing record without touching nicks, channels, leases or lists. */
  ghost predicate QuietAt(s: Store, ws: Writes, k: Key) {
    k in ws ==>
      && (k in s.kv || k.OperCtl?) && ws[k].Put?
      && var w := ws[k];
      match k
      case UserCtl(n) =>
        && w.how.Keep? && w.value.UserV? && s.kv[k].value.UserV? && UserOk(w.value.user)
        && w.value.user.nick == s.kv[k].value.user.nick
        && w.value.user.channels == s.kv[k].value.user.channels
        && w.value.user.lease == s.kv[k].value.user.lease
      case UserMsg(_) => w.how.Keep?
      case ChanCtl(ch) => w.how.Detach? && w.value.ChanV? && w.value.ctl.name == ch && NoDup(w.value.ctl.mode)
      case ChanMsg(_) => w.value.MsgV? && !w.how.Attach?
      case ChanNicks(_, _) => false
      case OperCtl(_) => w.how.Detach? && w.value.OperV?
  }

  ghost predicate Quiet(s: Store, ws: Writes) { forall k :: QuietAt(s, ws, k) }

  lemma QuietAccepted(s: Store, ws: Writes)
    requires Quiet(s, ws)
    ensures Accepts(s, ws)
  {
    forall k | k in ws && ws[k].Put?
      ensures !ws[k].how.Attach? && (ws[k].how.Keep? ==> k in s.kv)
    {
      assert QuietAt(s, ws, k);
    }
  }

  lemma QuietEntry(s: Store, ws: Writes, t: Store, k: Key)
    requires WellKeyed(s) && Quiet(s, ws) && Wrote(s, ws, t)
    ensures EntryOk(t, k)
  {
    assert WroteAt(s, ws, t, k) && QuietAt(s, ws, k) && EntryOk(s, k);
    match k
    case UserCtl(n) => QuietKeyKept(s, ws, t, UserMsg(n));
    case UserMsg(n) => QuietKeyKept(s, ws, t, UserCtl(n));
    case ChanCtl(ch) => QuietKeyKept(s, ws, t, ChanMsg(ch));
    case ChanMsg(ch) => QuietKeyKept(s, ws, t, ChanCtl(ch));
    case ChanNicks(ch, _) => QuietKeyKept(s, ws, t, ChanCtl(ch));
    case OperCtl(_) =>
  }

  lemma QuietKeyKept(s: Store, ws: Writes, t: Store, k: Key)
    requires Quiet(s, ws) && Wrote(s, ws, t) && EntryOk(s, k) && !k.OperCtl?
    ensures k in t.kv <==> k in s.kv
    ensures k in s.kv ==> t.kv[k].lease == s.kv[k].lease
  {
    assert WroteAt(s, ws, t, k) && QuietAt(s, ws, k);
  }

  lemma QuietMembers(s: Store, ws: Writes, t: Store, ch: string, l: Lease)
    requires Quiet(s, ws) && Wrote(s, ws, t)
    ensures Members(t.kv, ch, l) == Members(s.kv, ch, l)
  {
    assert WroteAt(s, ws, t, ChanNicks(ch, l)) && QuietAt(s, ws, ChanNicks(ch, l));
  }

  lemma QuietClaims(s: Store, ws: Writes, t: Store, n: string, ch: string, l: Lease)
    requires Quiet(s, ws) && Wrote(s, ws, t)
    ensures Claims(t.kv, n, ch, l) == Claims(s.kv, n, ch, l)
  {
    assert WroteAt(s, ws, t, UserCtl(n)) && QuietAt(s, ws, UserCtl(n));
  }

  lemma QuietKeeps(s: Store, ws: Writes)
    requires Inv(s) && Quiet(s, ws)
    ensures Inv(Commit(s, ws)) && Accepts(s, ws)
  {
    QuietAccepted(s, ws);
    CommitEffect(s, ws);
    QuietInv(s, ws, Commit(s, ws));
  }

  lemma QuietInv(s: Store, ws: Writes, t: Store)
    requires WellKeyed(s) && Agreement(s.kv) && SoleOperator(s.kv) && Quiet(s, ws) && Wrote(s, ws, t)
    ensures WellKeyed(t) && Agreement(t.kv) && SoleOperator(t.kv)
  {
    forall k ensures EntryOk(t, k) { QuietEntry(s, ws, t, k); }
    forall n, ch, l ensures AgreeAt(t.kv, n, ch, l) {
      assert AgreeAt(s.kv, n, ch, l);
      QuietMembers(s, ws, t, ch, l);
      QuietClaims(s, ws, t, n, ch, l);
    }
    forall ch, l ensures HeadOp(Members(t.kv, ch, l)) ==> HeadOp(Members(s.kv, ch, l)) {
      QuietMembers(s, ws, t, ch, l);
    }
    SoleWhenShrinking(s.kv, t.kv);
  }

  predicate QuietOp(op: Op) {
    op.ChanMode? || op.UserMode? || op.Oper? || op.Away? || op.Topic? || op.PrivMsgUser? || op.PrivMsgChan?
  }

  lemma ApplyKeepsNoDup(mv: string, spare: string, modes: seq<string>, mp: Modes.Perms)
    requires NoDup(mv)
    ensures NoDup(Modes.Apply(mv, spare, modes, mp).mode)
  {
    Modes.ApplyMode(mv, spare, modes, mp);
    Modes.ExecuteNoDup(mv, Modes.AllChanges(modes, mp));
  }

  /** MODE never adds a letter outside the user table's `add` set. */
  lemma UserModeAddsNone(mv: string, spare: string, modes: seq<string>, c: char)
    requires c !in Modes.USER_PERMS.add
    ensures c in Modes.Apply(mv, spare, modes, Modes.USER_PERMS).mode ==> c in mv
  {
    var ops := Modes.AllChanges(modes, Modes.USER_PERMS);
    Modes.ApplyMode(mv, spare, modes, Modes.USER_PERMS);
    if c in Modes.Execute(mv, ops) {
      Modes.ChangesPermitted(modes, Modes.USER_PERMS);
      Modes.UserPermsNeverAdd(mv, ops, c);
    }
  }

  lemma QuietChanMode(s: Store, c: Client, ch: string, modes: seq<string>, spare: string)
    requires WellKeyed(s) && TxnOf(ChanMode(ch, modes, spare), c, s).Ready?
    ensures Quiet(s, TxnOf(ChanMode(ch, modes, spare), c, s).ws)
  {
    assert EntryOk(s, ChanCtl(ch));
    if ChanCtl(ch) in s.kv {
      ApplyKeepsNoDup(s.kv[ChanCtl(ch)].value.ctl.mode, spare, modes, Modes.CHAN_PERMS);
    }
    forall k ensures QuietAt(s, TxnOf(ChanMode(ch, modes, spare), c, s).ws, k) { }
  }

  /** The user commands rewrite only the mode and away message of the caller's record. */
  lemma QuietUserEdit(s: Store, c: Client, op: Op)
    requires WellKeyed(s) && (op.UserMode? || op.Oper? || op.Away?) && TxnOf(op, c, s).Ready?
    ensures Quiet(s, TxnOf(op, c, s).ws)
  {
    assert EntryOk(s, UserCtl(c.nick));
    var u := s.kv[UserCtl(c.nick)].value.user;
    match op {
      case UserMode(modes, spare) =>
        ApplyKeepsNoDup(u.mode, spare, modes, Modes.USER_PERMS);
        UserModeAddsNone(u.mode, spare, modes, 'a');
      case Oper(_, _) =>
        Modes.ChangeLetter(u.mode, Modes.Signed(true, 'O'));
        Modes.ChangeLetter(u.mode, Modes.Signed(true, 'o'));
      case Away(_) =>
        Modes.ChangeLetter(u.mode, Modes.Signed(true, 'a'));
        Modes.ChangeLetter(u.mode, Modes.Signed(false, 'a'));
    }
    forall k ensures QuietAt(s, TxnOf(op, c, s).ws, k) { }
  }

  lemma QuietTalk(s: Store, c: Client, op: Op)
    requires WellKeyed(s) && (op.Topic? || op.PrivMsgUser? || op.PrivMsgChan?) && TxnOf(op, c, s).Ready?
    requires EntryOk(s, UserCtl(c.nick)) && UserCtl(c.nick) in s.kv
    ensures Quiet(s, TxnOf(op, c, s).ws)
  {
    forall k ensures QuietAt(s, TxnOf(op, c, s).ws, k) {
      if op.PrivMsgUser? {
        assert EntryOk(s, UserCtl(op.target));
      } else {
        assert EntryOk(s, ChanCtl(op.ch));
      }
    }
  }

  lemma QuietOps(s: Store, c: Client, op: Op)
    requires WellKeyed(s) && Registered(s, c) && QuietOp(op) && TxnOf(op, c, s).Ready?
    ensures Quiet(s, TxnOf(op, c, s).ws)
  {
    match op {
      case ChanMode(ch, modes, spare) => QuietChanMode(s, c, ch, modes, spare);
      case UserMode(_, _) => QuietUserEdit(s, c, op);
      case Oper(_, _) => QuietUserEdit(s, c, op);
      case Away(_) => QuietUserEdit(s, c, op);
      case Topic(_, _) => assert EntryOk(s, UserCtl(c.nick)); QuietTalk(s, c, op);
      case PrivMsgUser(_, _) => assert EntryOk(s, UserCtl(c.nick)); QuietTalk(s, c, op);
      case PrivMsgChan(_, _) => assert EntryOk(s, UserCtl(c.nick)); QuietTalk(s, c, op);
    }
  }

  // ----- joining

  /** What a join stages in terms of the records: the new entry is an operator exactly in a new channel. */
  ghost predicate Joins(s: Store, c: Client, ch: string, ws: Writes, u: User, ctl: Channel, me: Member) {
    && ws == JoinWrites(c, ch, u, ctl, Members(s.kv, ch, c.lease), me)
    && UserIn(s.kv, c.nick) == Some(u) && u.lease == c.lease && c.lease in s.leases && u.nick == c.nick && UserOk(u)
    && ctl.name == ch && NoDup(ctl.mode)
    && me == Member(c.nick, if ChanCtl(ch) in s.kv then "" else OPERATOR)
  }

  lemma JoinStages(s: Store, c: Client, ch: string) returns (u: User, ctl: Channel, me: Member)
    requires WellKeyed(s) && Registered(s, c)
    ensures TxnOf(Join(ch), c, s).Ready?
    ensures Joins(s, c, ch, TxnOf(Join(ch), c, s).ws, u, ctl, me)
  {
    assert EntryOk(s, UserCtl(c.nick)) && EntryOk(s, ChanCtl(ch)) && EntryOk(s, ChanNicks(ch, c.lease));
    u := s.kv[UserCtl(c.nick)].value.user;
    ctl := if ChanCtl(ch) in s.kv then s.kv[ChanCtl(ch)].value.ctl else Channel(ch, "", "");
    me := Member(c.nick, if ChanCtl(ch) in s.kv then "" else OPERATOR);
  }

  lemma JoinEntry(s: Store, c: Client, ch: string, ws: Writes, u: User, ctl: Channel, me: Member, t: Store, k: Key)
    requires WellKeyed(s) && Joins(s, c, ch, ws, u, ctl, me) && Wrote(s, ws, t)
    ensures EntryOk(t, k)
  {
    assert WroteAt(s, ws, t, k) && EntryOk(s, k);
    match k
    case UserCtl(n) =>
      assert WroteAt(s, ws, t, UserMsg(n)) && EntryOk(s, UserMsg(n));
    case UserMsg(n) =>
      assert WroteAt(s, ws, t, UserCtl(n)) && EntryOk(s, UserCtl(n));
    case ChanCtl(x) => assert WroteAt(s, ws, t, ChanMsg(x));
    case ChanMsg(x) => assert WroteAt(s, ws, t, ChanCtl(x));
    case ChanNicks(x, _) =>
      assert WroteAt(s, ws, t, ChanCtl(x));
      if k == ChanNicks(ch, c.lease) {
        NewChannelHasNoLists(s, ch, c.lease);
        AppendShape(Members(s.kv, ch, c.lease), me);
      }
    case OperCtl(_) =>
  }

  lemma NewChannelHasNoLists(s: Store, ch: string, l: Lease)
    requires WellKeyed(s)
    ensures ChanCtl(ch) !in s.kv ==> Members(s.kv, ch, l) == []
    ensures OpShape(Members(s.kv, ch, l))
  {
    assert EntryOk(s, ChanNicks(ch, l));
  }

  lemma JoinMembers(s: Store, c: Client, ch: string, ws: Writes, u: User, ctl: Channel, me: Member, t: Store,
                    x: string, l: Lease)
    requires Joins(s, c, ch, ws, u, ctl, me) && Wrote(s, ws, t)
    ensures Members(t.kv, x, l) ==
            if x == ch && l == c.lease then Members(s.kv, x, l) + [me] else Members(s.kv, x, l)
  {
    assert WroteAt(s, ws, t, ChanNicks(x, l));
  }

  lemma JoinClaims(s: Store, c: Client, ch: string, ws: Writes, u: User, ctl: Channel, me: Member, t: Store,
                   n: string, x: string, l: Lease)
    requires Joins(s, c, ch, ws, u, ctl, me) && Wrote(s, ws, t)
    ensures Claims(t.kv, n, x, l) ==
            Claims(s.kv, n, x, l) + if n == c.nick && x == ch && l == c.lease then 1 else 0
  {
    assert WroteAt(s, ws, t, UserCtl(n));
    if n == c.nick {
      assert t.kv[UserCtl(n)].value == UserV(u.(channels := u.channels + [ch]));
      assert multiset(u.channels + [ch]) == multiset(u.channels) + multiset{ch};
    } else {
      assert UserIn(t.kv, n) == UserIn(s.kv, n);
    }
  }

  lemma JoinAgrees(s: Store, c: Client, ch: string, ws: Writes, u: User, ctl: Channel, me: Member, t: Store,
                   n: string, x: string, l: Lease)
    requires Joins(s, c, ch, ws, u, ctl, me) && Wrote(s, ws, t) && AgreeAt(s.kv, n, x, l)
    ensures AgreeAt(t.kv, n, x, l)
  {
    JoinMembers(s, c, ch, ws, u, ctl, me, t, x, l);
    JoinClaims(s, c, ch, ws, u, ctl, me, t, n, x, l);
    EntriesAppend(Members(s.kv, ch, c.lease), me, n);
  }

  lemma JoinSole(s: Store, c: Client, ch: string, ws: Writes, u: User, ctl: Channel, me: Member, t: Store, x: string,
                 l1: Lease, l2: Lease)
    requires WellKeyed(s) && Joins(s, c, ch, ws, u, ctl, me) && Wrote(s, ws, t) && SoleAt(s.kv, x, l1, l2)
    ensures SoleAt(t.kv, x, l1, l2)
  {
    JoinMembers(s, c, ch, ws, u, ctl, me, t, x, l1);
    JoinMembers(s, c, ch, ws, u, ctl, me, t, x, l2);
    NewChannelHasNoLists(s, x, l1);
    NewChannelHasNoLists(s, x, l2);
  }

  lemma JoinKeeps(s: Store, c: Client, ch: string)
    requires Inv(s) && Registered(s, c)
    ensures Inv(Next(s, Command(c, Join(ch))))
  {
    var u, ctl, me := JoinStages(s, c, ch);
    var ws := TxnOf(Join(ch), c, s).ws;
    assert Accepts(s, ws);
    CommitEffect(s, ws);
    JoinInv(s, c, ch, ws, u, ctl, me, Commit(s, ws));
  }

  lemma JoinInv(s: Store, c: Client, ch: string, ws: Writes, u: User, ctl: Channel, me: Member, t: Store)
    requires WellKeyed(s) && Agreement(s.kv) && SoleOperator(s.kv)
    requires Joins(s, c, ch, ws, u, ctl, me) && Wrote(s, ws, t)
    ensures WellKeyed(t) && Agreement(t.kv) && SoleOperator(t.kv)
  {
    forall k ensures EntryOk(t, k) { JoinEntry(s, c, ch, ws, u, ctl, me, t, k); }
    forall n, x, l ensures AgreeAt(t.kv, n, x, l) {
      assert AgreeAt(s.kv, n, x, l);
      JoinAgrees(s, c, ch, ws, u, ctl, me, t, n, x, l);
    }
    forall x, l1, l2 ensures SoleAt(t.kv, x, l1, l2) {
      assert SoleAt(s.kv, x, l1, l2);
      JoinSole(s, c, ch, ws, u, ctl, me, t, x, l1, l2);
    }
  }

  // ----- leaving one channel once: Part and Kick

  /** `n` gives up one claim on `ch` and one entry in the list of its lease. */
  ghost predicate Leaves(s: Store, ws: Writes, n: string, ch: string, u: User, msg: Value) {
    var lk := ChanNicks(ch, u.lease);
    && UserIn(s.kv, n) == Some(u) && ch in u.channels && lk in s.kv && s.kv[lk].value.NicksV? && msg.MsgV?
    && ws == map[UserCtl(n) := Put(UserV(u.(channels := Without(u.channels, ch))), Keep),
                 lk := Put(NicksV(DelNick(s.kv[lk].value.nicks, n)), Keep),
                 ChanMsg(ch) := Put(msg, Detach)]
  }

  /** Agreement finds the list of a claimed channel. */
  lemma ClaimHasList(s: Store, n: string, ch: string)
    requires WellKeyed(s) && Agreement(s.kv) && UserIn(s.kv, n).Some? && ch in UserIn(s.kv, n).value.channels
    ensures var l := UserIn(s.kv, n).value.lease;
            ChanNicks(ch, l) in s.kv && s.kv[ChanNicks(ch, l)].value.NicksV? && n in Names(Members(s.kv, ch, l))
  {
    var u := UserIn(s.kv, n).value;
    assert AgreeAt(s.kv, n, ch, u.lease) && EntryOk(s, ChanNicks(ch, u.lease));
    assert ch in multiset(u.channels);
    assert n in multiset(Names(Members(s.kv, ch, u.lease)));
  }

  lemma PartStages(s: Store, c: Client, ch: string, msg: string)
    requires WellKeyed(s) && Agreement(s.kv) && Registered(s, c)
    ensures var txn := TxnOf(Part(ch, msg), c, s); var u := UserIn(s.kv, c.nick).value;
            if ch in u.channels then txn.Ready? && Leaves(s, txn.ws, c.nick, ch, u, c.Says(PART, [ch, msg]))
            else txn == NOTHING
  {
    if ch in UserIn(s.kv, c.nick).value.channels {
      ClaimHasList(s, c.nick, ch);
    }
  }

  lemma KickStages(s: Store, c: Client, ch: string, target: string, msg: string)
    requires WellKeyed(s) && Agreement(s.kv)
    ensures var txn := TxnOf(Kick(ch, target, msg), c, s);
            var me, u := EntryIn(s.Read(ChanNicks(ch, c.lease)), c.nick), UserIn(s.kv, target);
            if me.Some? && IsOp(me.value) && u.Some? && ch in u.value.channels
            then txn.Ready? && Leaves(s, txn.ws, target, ch, u.value, c.Says(KICK, [ch, target, msg]))
            else txn == NOTHING
  {
    assert EntryOk(s, ChanNicks(ch, c.lease)) && EntryOk(s, UserCtl(target));
    if UserIn(s.kv, target).Some? && ch in UserIn(s.kv, target).value.channels {
      ClaimHasList(s, target, ch);
    }
  }

  lemma LeaveEntry(s: Store, ws: Writes, n: string, ch: string, u: User, msg: Value, t: Store, k: Key)
    requires WellKeyed(s) && Leaves(s, ws, n, ch, u, msg) && Wrote(s, ws, t)
    ensures EntryOk(t, k)
  {
    assert WroteAt(s, ws, t, k) && EntryOk(s, k);
    match k
    case UserCtl(x) => assert WroteAt(s, ws, t, UserMsg(x));
    case UserMsg(x) => assert WroteAt(s, ws, t, UserCtl(x)) && EntryOk(s, UserCtl(x));
    case ChanCtl(x) => assert WroteAt(s, ws, t, ChanMsg(x));
    case ChanMsg(x) =>
      assert WroteAt(s, ws, t, ChanCtl(x)) && EntryOk(s, ChanNicks(ch, u.lease));
    case ChanNicks(x, _) =>
      assert WroteAt(s, ws, t, ChanCtl(x));
      if k == ChanNicks(ch, u.lease) { DelShape(s.kv[k].value.nicks, n); }
    case OperCtl(_) =>
  }

  lemma LeaveMembers(s: Store, ws: Writes, n: string, ch: string, u: User, msg: Value, t: Store, x: string, l: Lease)
    requires Leaves(s, ws, n, ch, u, msg) && Wrote(s, ws, t)
    ensures Members(t.kv, x, l) ==
            if x == ch && l == u.lease then DelNick(Members(s.kv, x, l), n) else Members(s.kv, x, l)
  {
    assert WroteAt(s, ws, t, ChanNicks(x, l));
  }

  lemma LeaveClaims(s: Store, ws: Writes, n: string, ch: string, u: User, msg: Value, t: Store, m: string, x: string,
                    l: Lease)
    requires Leaves(s, ws, n, ch, u, msg) && Wrote(s, ws, t)
    ensures Claims(t.kv, m, x, l) ==
            Claims(s.kv, m, x, l) - if m == n && x == ch && l == u.lease then 1 else 0
  {
    assert WroteAt(s, ws, t, UserCtl(m));
    if m == n {
      assert t.kv[UserCtl(n)].value == UserV(u.(channels := Without(u.channels, ch)));
      assert ch in multiset(u.channels);
    } else {
      assert UserIn(t.kv, m) == UserIn(s.kv, m);
    }
  }

  lemma LeaveInv(s: Store, ws: Writes, n: string, ch: string, u: User, msg: Value, t: Store)
    requires WellKeyed(s) && Agreement(s.kv) && SoleOperator(s.kv)
    requires Leaves(s, ws, n, ch, u, msg) && Wrote(s, ws, t)
    ensures WellKeyed(t) && Agreement(t.kv) && SoleOperator(t.kv)
  {
    forall k ensures EntryOk(t, k) { LeaveEntry(s, ws, n, ch, u, msg, t, k); }
    forall m, x, l ensures AgreeAt(t.kv, m, x, l) {
      assert AgreeAt(s.kv, m, x, l);
      LeaveMembers(s, ws, n, ch, u, msg, t, x, l);
      LeaveClaims(s, ws, n, ch, u, msg, t, m, x, l);
      EntriesDel(Members(s.kv, x, l), n, m);
    }
    forall x, l ensures HeadOp(Members(t.kv, x, l)) ==> HeadOp(Members(s.kv, x, l)) {
      LeaveMembers(s, ws, n, ch, u, msg, t, x, l);
      NewChannelHasNoLists(s, x, l);
      DelShape(Members(s.kv, x, l), n);
    }
    SoleWhenShrinking(s.kv, t.kv);
  }

  lemma LeaveKeeps(s: Store, ws: Writes, n: string, ch: string, u: User, msg: Value)
    requires Inv(s) && Leaves(s, ws, n, ch, u, msg)
    ensures Accepts(s, ws) && Inv(Commit(s, ws))
  {
    CommitEffect(s, ws);
    LeaveInv(s, ws, n, ch, u, msg, Commit(s, ws));
  }

  // ----- quitting

  /** The write Quit stages for `k`, if any. */
  function QuitWrite(s: Store, c: Client, u: User, msg: string, k: Key): Option<Write> {
    match k
    case UserCtl(n) => if n == c.nick then Some(Del) else None
    case UserMsg(n) => if n == c.nick then Some(Del) else None
    case ChanNicks(ch, l) =>
      if ch in u.channels && l == c.lease
      then Some(Put(NicksV(DelTimes(Members(s.kv, ch, l), c.nick, multiset(u.channels)[ch])), Keep)) else None
    case ChanMsg(ch) => if ch in u.channels then Some(Put(c.Says(QUIT, [msg]), Detach)) else None
    case _ => None
  }

  ghost predicate QuitsAt(s: Store, c: Client, u: User, msg: string, ws: Writes, k: Key) {
    var w := QuitWrite(s, c, u, msg, k);
    if w.Some? then k in ws && ws[k] == w.value else k !in ws
  }

  ghost predicate Quits(s: Store, c: Client, u: User, msg: string, ws: Writes) {
    && UserIn(s.kv, c.nick) == Some(u) && u.lease == c.lease
    && (forall ch :: ch in u.channels ==> ChanNicks(ch, c.lease) in s.kv)
    && forall k :: QuitsAt(s, c, u, msg, ws, k)
  }

  lemma CountLast(chs: seq<string>, x: string, ch: string)
    ensures multiset(chs + [x])[ch] == multiset(chs)[ch] + if ch == x then 1 else 0
    ensures multiset(chs)[ch] > 0 <==> ch in chs
  {
    assert multiset(chs + [x]) == multiset(chs) + multiset{x};
  }

  /** What the loop has staged for `k` after the channels `chs`: k turns on a channel edit its list k times. */
  ghost predicate StagedAt(s: Store, c: Client, chs: seq<string>, msg: string, ws: Writes, k: Key) {
    match k
    case ChanNicks(ch, l) =>
      if l == c.lease && ch in chs
      then k in ws && ws[k] == Put(NicksV(DelTimes(Members(s.kv, ch, l), c.nick, multiset(chs)[ch])), Keep)
      else k !in ws
    case ChanMsg(ch) =>
      if ch in chs then k in ws && ws[k] == Put(c.Says(QUIT, [msg]), Detach) else k !in ws
    case _ => k !in ws
  }

  lemma QuitTurnStages(s: Store, c: Client, chs: seq<string>, x: string, msg: string, ws: Writes, k: Key)
    requires ChanNicks(x, c.lease) in s.kv && s.kv[ChanNicks(x, c.lease)].value.NicksV?
    requires StagedAt(s, c, chs, msg, ws, k) && StagedAt(s, c, chs, msg, ws, ChanNicks(x, c.lease))
    ensures QuitTurn(s, c, ws, x, msg).Some?
    ensures StagedAt(s, c, chs + [x], msg, QuitTurn(s, c, ws, x, msg).value, k)
  {
    CountLast(chs, x, x);
    if k.ChanNicks? { CountLast(chs, x, k.ch); }
  }

  lemma {:induction false} QuitLoopStages(s: Store, c: Client, chs: seq<string>, msg: string)
    requires forall ch :: ch in chs ==> ChanNicks(ch, c.lease) in s.kv && s.kv[ChanNicks(ch, c.lease)].value.NicksV?
    ensures QuitLoop(s, c, chs, msg).Some?
    ensures forall k :: StagedAt(s, c, chs, msg, QuitLoop(s, c, chs, msg).value, k)
  {
    if chs != [] {
      var m := |chs| - 1;
      QuitLoopStages(s, c, chs[..m], msg);
      var ws := QuitLoop(s, c, chs[..m], msg).value;
      assert chs == chs[..m] + [chs[m]];
      forall k ensures QuitTurn(s, c, ws, chs[m], msg).Some?
                    && StagedAt(s, c, chs, msg, QuitTurn(s, c, ws, chs[m], msg).value, k)
      {
        assert StagedAt(s, c, chs[..m], msg, ws, k) && StagedAt(s, c, chs[..m], msg, ws, ChanNicks(chs[m], c.lease));
        QuitTurnStages(s, c, chs[..m], chs[m], msg, ws, k);
      }
      assert QuitTurn(s, c, ws, chs[m], msg).Some? by {
        QuitTurnStages(s, c, chs[..m], chs[m], msg, ws, ChanNicks(chs[m], c.lease));
      }
      assert QuitLoop(s, c, chs, msg) == QuitTurn(s, c, ws, chs[m], msg);
    }
  }

  /** Quit's loop stages only edits of this lease's existing lists, and broadcasts. */
  ghost predicate LoopWrite(s: Store, c: Client, chs: seq<string>, ws: Writes, k: Key) {
    k in ws ==>
      && ws[k].Put? && (k.ChanNicks? || k.ChanMsg?) && k.ch in chs
      && (k.ChanNicks? ==> k.id == c.lease && k in s.kv && ws[k].how.Keep? && ws[k].value.NicksV?)
      && (k.ChanMsg? ==> ws[k].how.Detach?)
  }

  lemma {:induction false} QuitLoopShape(s: Store, c: Client, chs: seq<string>, msg: string)
    requires WellKeyed(s)
    ensures QuitLoop(s, c, chs, msg).Some?
    ensures forall k :: LoopWrite(s, c, chs, QuitLoop(s, c, chs, msg).value, k)
  {
    if chs != [] {
      var m := |chs| - 1;
      var x := chs[m];
      QuitLoopShape(s, c, chs[..m], msg);
      var ws := QuitLoop(s, c, chs[..m], msg).value;
      assert EntryOk(s, ChanNicks(x, c.lease)) && LoopWrite(s, c, chs[..m], ws, ChanNicks(x, c.lease));
      assert QuitTurn(s, c, ws, x, msg).Some?;
      var ws' := QuitTurn(s, c, ws, x, msg).value;
      forall k ensures LoopWrite(s, c, chs, ws', k) {
        assert LoopWrite(s, c, chs[..m], ws, k);
      }
      assert QuitLoop(s, c, chs, msg) == Some(ws');
    }
  }

  lemma QuitStages(s: Store, c: Client, msg: string)
    requires WellKeyed(s) && Agreement(s.kv) && Registered(s, c)
    ensures TxnOf(Quit(msg), c, s).Ready?
    ensures Quits(s, c, UserIn(s.kv, c.nick).value, msg, TxnOf(Quit(msg), c, s).ws)
  {
    var u := UserIn(s.kv, c.nick).value;
    forall ch | ch in u.channels
      ensures ChanNicks(ch, c.lease) in s.kv && s.kv[ChanNicks(ch, c.lease)].value.NicksV?
    {
      ClaimHasList(s, c.nick, ch);
    }
    QuitLoopStages(s, c, u.channels, msg);
    var ws := QuitLoop(s, c, u.channels, msg).value;
    var txn := TxnOf(Quit(msg), c, s);
    assert txn == Ready(ws[UserCtl(c.nick) := Del][UserMsg(c.nick) := Del]);
    forall k ensures QuitsAt(s, c, u, msg, txn.ws, k) {
      assert StagedAt(s, c, u.channels, msg, ws, k);
    }
  }

  lemma QuitAccepted(s: Store, c: Client, u: User, msg: string, ws: Writes)
    requires Quits(s, c, u, msg, ws)
    ensures Accepts(s, ws)
  {
    forall k | k in ws && ws[k].Put?
      ensures !ws[k].how.Attach? && (ws[k].how.Keep? ==> k in s.kv)
    {
      assert QuitsAt(s, c, u, msg, ws, k);
    }
  }

  lemma QuitEntry(s: Store, c: Client, u: User, msg: string, ws: Writes, t: Store, k: Key)
    requires WellKeyed(s) && Quits(s, c, u, msg, ws) && Wrote(s, ws, t)
    ensures EntryOk(t, k)
  {
    assert WroteAt(s, ws, t, k) && EntryOk(s, k) && QuitsAt(s, c, u, msg, ws, k);
    match k
    case UserCtl(x) =>
      assert WroteAt(s, ws, t, UserMsg(x)) && QuitsAt(s, c, u, msg, ws, UserMsg(x));
    case UserMsg(x) =>
      assert WroteAt(s, ws, t, UserCtl(x)) && QuitsAt(s, c, u, msg, ws, UserCtl(x));
    case ChanCtl(x) =>
      assert WroteAt(s, ws, t, ChanMsg(x)) && QuitsAt(s, c, u, msg, ws, ChanMsg(x));
    case ChanMsg(x) =>
      assert WroteAt(s, ws, t, ChanCtl(x)) && QuitsAt(s, c, u, msg, ws, ChanCtl(x));
      assert EntryOk(s, ChanNicks(x, c.lease));
    case ChanNicks(x, l) =>
      assert WroteAt(s, ws, t, ChanCtl(x)) && QuitsAt(s, c, u, msg, ws, ChanCtl(x));
      DelTimesShape(Members(s.kv, x, l), c.nick, multiset(u.channels)[x]);
    case OperCtl(_) =>
  }

  lemma QuitMembers(s: Store, c: Client, u: User, msg: string, ws: Writes, t: Store, x: string, l: Lease)
    requires Quits(s, c, u, msg, ws) && Wrote(s, ws, t)
    ensures Members(t.kv, x, l) ==
            if x in u.channels && l == c.lease then DelTimes(Members(s.kv, x, l), c.nick, multiset(u.channels)[x])
            else Members(s.kv, x, l)
  {
    assert WroteAt(s, ws, t, ChanNicks(x, l)) && QuitsAt(s, c, u, msg, ws, ChanNicks(x, l));
  }

  lemma QuitClaims(s: Store, c: Client, u: User, msg: string, ws: Writes, t: Store, n: string, x: string, l: Lease)
    requires Quits(s, c, u, msg, ws) && Wrote(s, ws, t)
    ensures Claims(t.kv, n, x, l) == if n == c.nick then 0 else Claims(s.kv, n, x, l)
  {
    assert WroteAt(s, ws, t, UserCtl(n)) && QuitsAt(s, c, u, msg, ws, UserCtl(n));
  }

  lemma QuitAgrees(s: Store, c: Client, u: User, msg: string, ws: Writes, t: Store, n: string, x: string, l: Lease)
    requires Quits(s, c, u, msg, ws) && Wrote(s, ws, t) && AgreeAt(s.kv, n, x, l)
    ensures AgreeAt(t.kv, n, x, l)
    ensures n == c.nick ==> Entries(Members(t.kv, x, l), n) == 0
  {
    QuitMembers(s, c, u, msg, ws, t, x, l);
    QuitClaims(s, c, u, msg, ws, t, n, x, l);
    DelTimesEntries(Members(s.kv, x, l), c.nick, multiset(u.channels)[x], n);
    assert x in u.channels <==> x in multiset(u.channels);
  }

  lemma QuitInv(s: Store, c: Client, u: User, msg: string, ws: Writes, t: Store)
    requires WellKeyed(s) && Agreement(s.kv) && SoleOperator(s.kv)
    requires Quits(s, c, u, msg, ws) && Wrote(s, ws, t)
    ensures WellKeyed(t) && Agreement(t.kv) && SoleOperator(t.kv)
  {
    forall k ensures EntryOk(t, k) { QuitEntry(s, c, u, msg, ws, t, k); }
    forall n, x, l ensures AgreeAt(t.kv, n, x, l) {
      assert AgreeAt(s.kv, n, x, l);
      QuitAgrees(s, c, u, msg, ws, t, n, x, l);
    }
    forall x, l ensures HeadOp(Members(t.kv, x, l)) ==> HeadOp(Members(s.kv, x, l)) {
      QuitMembers(s, c, u, msg, ws, t, x, l);
      NewChannelHasNoLists(s, x, l);
      DelTimesShape(Members(s.kv, x, l), c.nick, multiset(u.channels)[x]);
    }
    SoleWhenShrinking(s.kv, t.kv);
  }

  lemma QuitKeeps(s: Store, c: Client, msg: string)
    requires Inv(s) && Registered(s, c)
    ensures Inv(Next(s, Command(c, Quit(msg))))
  {
    QuitStages(s, c, msg);
    var ws := TxnOf(Quit(msg), c, s).ws;
    var u := UserIn(s.kv, c.nick).value;
    QuitAccepted(s, c, u, msg, ws);
    CommitEffect(s, ws);
    QuitInv(s, c, u, msg, ws, Commit(s, ws));
  }
}
