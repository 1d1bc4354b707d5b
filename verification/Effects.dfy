/**
 What every command does to the records and what it broadcasts, in the terms of a reader of the
 store: who is on which channel, what a record says, and which message is under a key. Each
 theorem gives the whole next state, and says exactly when it is the same state.
 */
module Effects {
  import opened Seqs
  import opened Records
  import opened Etcd
  import opened Commands
  import opened Protocol
  import opened Membership
  import opened Runs
  import opened Operators
  import Modes

  // ----- reading the store

  ghost predicate SameElse(s: Store, t: Store, ks: set<Key>) {
    t.leases == s.leases && forall k :: k !in ks ==> SameAt(s, t, k)
  }

  /** The message under `k` comes from the client and says this. */
  predicate Says(t: Store, k: Key, c: Client, command: Records.Command, params: seq<string>) {
    k in t.kv && t.kv[k].value == MsgV(Message(Some(Prefix(c.nick, c.user, "host")), command, params))
  }

  /** The client is on its server's list of the channel. */
  predicate Listed(s: Store, c: Client, ch: string) {
    exists i :: 0 <= i < |Members(s.kv, ch, c.lease)| && Members(s.kv, ch, c.lease)[i].nick == c.nick
  }

  /** And as an operator. */
  predicate IsOperator(s: Store, c: Client, ch: string) {
    exists i :: 0 <= i < |Members(s.kv, ch, c.lease)| && OperatorAt(Members(s.kv, ch, c.lease), i, c.nick)
  }

  predicate OperatorAt(list: seq<Member>, i: nat, nick: string)
    requires i < |list|
  {
    list[i].nick == nick && ('o' in list[i].mode || 'O' in list[i].mode)
  }

  predicate On(s: Store, n: string, ch: string) {
    UserIn(s.kv, n).Some? && ch in UserIn(s.kv, n).value.channels
  }

  /** What `find` and the operator tests make of the client's entry. */
  lemma EntryMeans(s: Store, c: Client, ch: string)
    requires Inv(s)
    ensures var me := EntryIn(s.Read(ChanNicks(ch, c.lease)), c.nick);
      && (me.Some? <==> Listed(s, c, ch))
      && (me.Some? ==> 'v' !in me.value.mode && ('o' in me.value.mode <==> 'O' in me.value.mode))
      && (me.Some? && IsOp(me.value) <==> IsOperator(s, c, ch))
  {
    assert EntryOk(s, ChanNicks(ch, c.lease));
    var list := Members(s.kv, ch, c.lease);
    var me := FindNick(list, c.nick);
    if me.Some? {
      var i :| 0 <= i < |list| && list[i] == me.value;
      OperatorEntry(s, ch, c.lease, i);
      if IsOp(me.value) { assert OperatorAt(list, i, c.nick); }
    }
    if i :| 0 <= i < |list| && list[i].nick == c.nick { assert Names(list)[i] == c.nick; }
    if i :| 0 <= i < |list| && OperatorAt(list, i, c.nick) { OperatorEntry(s, ch, c.lease, i); }
  }

  lemma Applied(s: Store, ws: Writes)
    requires Accepts(s, ws)
    ensures SameElse(s, Commit(s, ws), ws.Keys) && forall k :: k in ws ==> WroteAt(s, ws, Commit(s, ws), k)
  {
    CommitEffect(s, ws);
    forall k | k !in ws.Keys ensures SameAt(s, Commit(s, ws), k) { assert WroteAt(s, ws, Commit(s, ws), k); }
    forall k | k in ws ensures WroteAt(s, ws, Commit(s, ws), k) { }
  }

  /** What a command of a registered client stages is what it does. */
  lemma Performed(s: Store, c: Client, op: Op, ws: Writes)
    requires Inv(s) && Registered(s, c) && TxnOf(op, c, s) == Ready(ws)
    ensures var t := Next(s, Command(c, op));
      && SameElse(s, t, ws.Keys) && (forall k :: k in ws ==> WroteAt(s, ws, t, k))
      && (ws == map[] ==> t == s)
  {
    NeverRefused(s, c, op);
    Applied(s, ws);
    NothingKeeps(s);
  }

  // ----- one occurrence gone

  predicate FirstGone(before: seq<string>, after: seq<string>, x: string) {
    exists j :: 0 <= j < |before| && GoneAt(before, after, x, j)
  }

  predicate GoneAt(before: seq<string>, after: seq<string>, x: string, j: nat)
    requires j < |before|
  {
    before[j] == x && x !in before[..j] && after == before[..j] + before[j + 1..]
  }

  predicate EntryGone(before: seq<Member>, after: seq<Member>, nick: string) {
    exists j :: 0 <= j < |before| && EntryGoneAt(before, after, nick, j)
  }

  predicate EntryGoneAt(before: seq<Member>, after: seq<Member>, nick: string, j: nat)
    requires j < |before|
  {
    && before[j].nick == nick && (forall i :: 0 <= i < j ==> before[i].nick != nick)
    && after == before[..j] + before[j + 1..]
  }

  lemma {:induction false} FirstOf(chs: seq<string>, x: string) returns (j: nat)
    requires x in chs
    ensures j < |chs| && chs[j] == x && x !in chs[..j]
  {
    if chs[0] == x {
      j := 0;
    } else {
      var i := FirstOf(chs[1..], x);
      j := i + 1;
      assert chs[..j] == [chs[0]] + chs[1..][..i];
    }
  }

  lemma WithoutGone(chs: seq<string>, x: string)
    requires x in chs
    ensures FirstGone(chs, Without(chs, x), x)
  {
    var j := FirstOf(chs, x);
    WithoutIsSplice(chs, x, j);
    assert GoneAt(chs, Without(chs, x), x, j);
  }

  lemma DelGone(list: seq<Member>, nick: string)
    requires nick in Names(list)
    ensures EntryGone(list, DelNick(list, nick), nick)
  {
    var j := FirstIndex(list, nick);
    DelNickIsSplice(list, nick, j);
    assert EntryGoneAt(list, DelNick(list, nick), nick, j);
  }

  /** One user gives up one claim on a channel and one entry; every other claim and entry stays. */
  ghost predicate OneLeft(s: Store, t: Store, n: string, ch: string) {
    && UserIn(s.kv, n).Some? && UserIn(t.kv, n).Some?
    && RecordLeft(UserIn(s.kv, n).value, UserIn(t.kv, n).value, ch)
    && var l := UserIn(s.kv, n).value.lease;
       && EntryGone(Members(s.kv, ch, l), Members(t.kv, ch, l), n)
       && ClaimsLeft(s, t, n, ch, l) && EntriesLeft(s, t, n, ch, l)
       && SameElse(s, t, {UserCtl(n), ChanNicks(ch, l), ChanMsg(ch)})
  }

  predicate RecordLeft(u: User, v: User, ch: string) {
    FirstGone(u.channels, v.channels, ch) && v == u.(channels := v.channels)
  }

  ghost predicate ClaimsLeft(s: Store, t: Store, n: string, ch: string, l: Lease) {
    forall m, x, id :: Claims(t.kv, m, x, id) ==
      Claims(s.kv, m, x, id) - if m == n && x == ch && id == l then 1 else 0
  }

  ghost predicate EntriesLeft(s: Store, t: Store, n: string, ch: string, l: Lease) {
    forall m, x, id :: Entries(Members(t.kv, x, id), m) ==
      Entries(Members(s.kv, x, id), m) - if m == n && x == ch && id == l then 1 else 0
  }

  lemma LeaveClaimsLeft(s: Store, ws: Writes, n: string, ch: string, u: User, msg: Value, t: Store)
    requires Leaves(s, ws, n, ch, u, msg) && Wrote(s, ws, t)
    ensures ClaimsLeft(s, t, n, ch, u.lease)
  {
    assert ch in multiset(u.channels);
    forall m, x, id
      ensures Claims(t.kv, m, x, id) == Claims(s.kv, m, x, id) - if m == n && x == ch && id == u.lease then 1 else 0
    {
      LeaveClaims(s, ws, n, ch, u, msg, t, m, x, id);
    }
  }

  lemma LeaveEntriesLeft(s: Store, ws: Writes, n: string, ch: string, u: User, msg: Value, t: Store)
    requires Leaves(s, ws, n, ch, u, msg) && Wrote(s, ws, t) && n in Names(Members(s.kv, ch, u.lease))
    ensures EntriesLeft(s, t, n, ch, u.lease)
  {
    assert n in multiset(Names(Members(s.kv, ch, u.lease)));
    forall m, x, id
      ensures Entries(Members(t.kv, x, id), m) ==
              Entries(Members(s.kv, x, id), m) - if m == n && x == ch && id == u.lease then 1 else 0
    {
      LeaveMembers(s, ws, n, ch, u, msg, t, x, id);
      EntriesDel(Members(s.kv, x, id), n, m);
    }
  }

  lemma LeaveOne(s: Store, ws: Writes, n: string, ch: string, u: User, msg: Value, t: Store)
    requires Inv(s) && Leaves(s, ws, n, ch, u, msg) && Wrote(s, ws, t) && SameElse(s, t, ws.Keys)
    ensures OneLeft(s, t, n, ch) && ChanMsg(ch) in t.kv && t.kv[ChanMsg(ch)].value == msg
  {
    ClaimHasList(s, n, ch);
    LeaveRecord(s, ws, n, ch, u, msg, t);
    LeaveList(s, ws, n, ch, u, msg, t);
    LeaveClaimsLeft(s, ws, n, ch, u, msg, t);
    LeaveEntriesLeft(s, ws, n, ch, u, msg, t);
  }

  lemma LeaveRecord(s: Store, ws: Writes, n: string, ch: string, u: User, msg: Value, t: Store)
    requires Leaves(s, ws, n, ch, u, msg) && Wrote(s, ws, t)
    ensures UserIn(t.kv, n).Some? && RecordLeft(u, UserIn(t.kv, n).value, ch)
    ensures ChanMsg(ch) in t.kv && t.kv[ChanMsg(ch)].value == msg
  {
    assert WroteAt(s, ws, t, UserCtl(n)) && WroteAt(s, ws, t, ChanMsg(ch));
    WithoutGone(u.channels, ch);
  }

  lemma LeaveList(s: Store, ws: Writes, n: string, ch: string, u: User, msg: Value, t: Store)
    requires n in Names(Members(s.kv, ch, u.lease)) && Leaves(s, ws, n, ch, u, msg) && Wrote(s, ws, t)
    ensures EntryGone(Members(s.kv, ch, u.lease), Members(t.kv, ch, u.lease), n)
  {
    assert WroteAt(s, ws, t, ChanNicks(ch, u.lease));
    DelGone(Members(s.kv, ch, u.lease), n);
  }

  // ----- the membership commands

  /** A join adds the channel to the record and an entry to the end of the list, operator of a new channel only. */
  lemma JoinEffect(s: Store, c: Client, ch: string)
    requires Inv(s) && Registered(s, c)
    ensures var t, u := Next(s, Command(c, Join(ch))), UserIn(s.kv, c.nick).value;
      && UserIn(t.kv, c.nick) == Some(u.(channels := u.channels + [ch]))
      && ChanIn(t.kv, ch) == Some(if ChanIn(s.kv, ch).Some? then ChanIn(s.kv, ch).value else Channel(ch, "", ""))
      && Members(t.kv, ch, c.lease) ==
           Members(s.kv, ch, c.lease) + [Member(c.nick, if ChanIn(s.kv, ch).Some? then "" else "Oo")]
      && Says(t, ChanMsg(ch), c, JOIN, [ch])
      && SameElse(s, t, {UserCtl(c.nick), ChanCtl(ch), ChanNicks(ch, c.lease), ChanMsg(ch)})
  {
    var u, ctl, me := JoinStages(s, c, ch);
    var ws := TxnOf(Join(ch), c, s).ws;
    Performed(s, c, Join(ch), ws);
    assert EntryOk(s, ChanCtl(ch));
    JoinWrote(s, c, ch, ws, u, ctl, me, Next(s, Command(c, Join(ch))));
  }

  lemma JoinWrote(s: Store, c: Client, ch: string, ws: Writes, u: User, ctl: Channel, me: Member, t: Store)
    requires Joins(s, c, ch, ws, u, ctl, me) && forall k :: k in ws ==> WroteAt(s, ws, t, k)
    ensures UserIn(t.kv, c.nick) == Some(u.(channels := u.channels + [ch])) && ChanIn(t.kv, ch) == Some(ctl)
    ensures Members(t.kv, ch, c.lease) == Members(s.kv, ch, c.lease) + [me] && Says(t, ChanMsg(ch), c, JOIN, [ch])
    ensures ws.Keys == {UserCtl(c.nick), ChanCtl(ch), ChanNicks(ch, c.lease), ChanMsg(ch)}
  {
    assert WroteAt(s, ws, t, UserCtl(c.nick)) && WroteAt(s, ws, t, ChanCtl(ch));
    assert WroteAt(s, ws, t, ChanNicks(ch, c.lease)) && WroteAt(s, ws, t, ChanMsg(ch));
  }

  /** A part takes one claim and one entry and is broadcast, if the client is on the channel; else nothing happens. */
  lemma PartEffect(s: Store, c: Client, ch: string, msg: string)
    requires Inv(s) && Registered(s, c)
    ensures var t := Next(s, Command(c, Part(ch, msg)));
      if On(s, c.nick, ch) then OneLeft(s, t, c.nick, ch) && Says(t, ChanMsg(ch), c, PART, [ch, msg]) else t == s
  {
    var txn, u := TxnOf(Part(ch, msg), c, s), UserIn(s.kv, c.nick).value;
    PartStages(s, c, ch, msg);
    Performed(s, c, Part(ch, msg), txn.ws);
    if On(s, c.nick, ch) {
      CommitEffect(s, txn.ws);
      LeaveOne(s, txn.ws, c.nick, ch, u, c.Says(PART, [ch, msg]), Next(s, Command(c, Part(ch, msg))));
    }
  }

  /** A kick takes the target's claim and entry and is broadcast, if an operator kicks a member; else nothing. */
  lemma KickEffect(s: Store, c: Client, ch: string, target: string, msg: string)
    requires Inv(s) && Registered(s, c)
    ensures var t := Next(s, Command(c, Kick(ch, target, msg)));
      if IsOperator(s, c, ch) && On(s, target, ch)
      then OneLeft(s, t, target, ch) && Says(t, ChanMsg(ch), c, KICK, [ch, target, msg])
      else t == s
  {
    var txn := TxnOf(Kick(ch, target, msg), c, s);
    KickStages(s, c, ch, target, msg);
    Performed(s, c, Kick(ch, target, msg), txn.ws);
    EntryMeans(s, c, ch);
    assert EntryOk(s, UserCtl(target)) && EntryOk(s, ChanNicks(ch, c.lease));
    if IsOperator(s, c, ch) && On(s, target, ch) {
      var u := UserIn(s.kv, target).value;
      CommitEffect(s, txn.ws);
      LeaveOne(s, txn.ws, target, ch, u, c.Says(KICK, [ch, target, msg]), Next(s, Command(c, Kick(ch, target, msg))));
    }
  }

  /** The entries of everybody else, in order. */
  function Others(list: seq<Member>, nick: string): seq<Member> {
    if list == [] then [] else (if list[0].nick == nick then [] else [list[0]]) + Others(list[1..], nick)
  }

  lemma {:induction false} OthersDel(list: seq<Member>, nick: string)
    ensures Others(DelNick(list, nick), nick) == Others(list, nick)
  {
    if list != [] && list[0].nick != nick { OthersDel(list[1..], nick); }
  }

  lemma {:induction false} OthersAll(list: seq<Member>, nick: string)
    requires nick !in Names(list)
    ensures Others(list, nick) == list
  {
    if list != [] {
      assert Names(list)[0] == list[0].nick && Names(list)[1..] == Names(list[1..]);
      OthersAll(list[1..], nick);
    }
  }

  lemma {:induction false} DelTimesOthers(list: seq<Member>, nick: string, k: nat)
    requires k == Entries(list, nick)
    ensures DelTimes(list, nick, k) == Others(list, nick)
  {
    DelTimesEntries(list, nick, k, nick);
    OthersDelTimes(list, nick, k);
    var left := DelTimes(list, nick, k);
    assert nick !in multiset(Names(left));
    OthersAll(left, nick);
  }

  lemma {:induction false} OthersDelTimes(list: seq<Member>, nick: string, k: nat)
    ensures Others(DelTimes(list, nick, k), nick) == Others(list, nick)
  {
    if k > 0 {
      OthersDelTimes(list, nick, k - 1);
      OthersDel(DelTimes(list, nick, k - 1), nick);
    }
  }

  /** The keys a quit may touch: the user's own, and the lists and messages of its channels. */
  predicate LeftBy(k: Key, n: string, chs: seq<string>) {
    k == UserCtl(n) || k == UserMsg(n) || ((k.ChanNicks? || k.ChanMsg?) && k.ch in chs)
  }

  /** A quit removes the client's keys and entries, keeps everybody else's in order, and goes to each channel. */
  lemma QuitEffect(s: Store, c: Client, msg: string)
    requires Inv(s) && Registered(s, c)
    ensures var t, u := Next(s, Command(c, Quit(msg))), UserIn(s.kv, c.nick).value;
      && UserCtl(c.nick) !in t.kv && UserMsg(c.nick) !in t.kv
      && (forall ch, l :: Members(t.kv, ch, l) == Others(Members(s.kv, ch, l), c.nick))
      && (forall ch :: ch in u.channels ==> Says(t, ChanMsg(ch), c, QUIT, [msg]))
      && (forall k :: !LeftBy(k, c.nick, u.channels) ==> SameAt(s, t, k))
  {
    QuitStages(s, c, msg);
    var ws, t, u := TxnOf(Quit(msg), c, s).ws, Next(s, Command(c, Quit(msg))), UserIn(s.kv, c.nick).value;
    Performed(s, c, Quit(msg), ws);
    QuitAccepted(s, c, u, msg, ws);
    CommitEffect(s, ws);
    forall ch, l ensures Members(t.kv, ch, l) == Others(Members(s.kv, ch, l), c.nick) {
      QuitMembers(s, c, u, msg, ws, t, ch, l);
      assert AgreeAt(s.kv, c.nick, ch, l);
      DelTimesOthers(Members(s.kv, ch, l), c.nick, Entries(Members(s.kv, ch, l), c.nick));
    }
    QuitKeys(s, c, u, msg, ws, t);
  }

  lemma QuitKeys(s: Store, c: Client, u: User, msg: string, ws: Writes, t: Store)
    requires Inv(s) && Registered(s, c) && u == UserIn(s.kv, c.nick).value && Quits(s, c, u, msg, ws) && Wrote(s, ws, t)
    ensures UserCtl(c.nick) !in t.kv && UserMsg(c.nick) !in t.kv
    ensures forall ch :: ch in u.channels ==> Says(t, ChanMsg(ch), c, QUIT, [msg])
    ensures forall k :: !LeftBy(k, c.nick, u.channels) ==> SameAt(s, t, k)
  {
    assert QuitsAt(s, c, u, msg, ws, UserCtl(c.nick)) && WroteAt(s, ws, t, UserCtl(c.nick));
    assert QuitsAt(s, c, u, msg, ws, UserMsg(c.nick)) && WroteAt(s, ws, t, UserMsg(c.nick));
    forall ch | ch in u.channels ensures Says(t, ChanMsg(ch), c, QUIT, [msg]) {
      assert QuitsAt(s, c, u, msg, ws, ChanMsg(ch)) && WroteAt(s, ws, t, ChanMsg(ch));
    }
    forall k | !LeftBy(k, c.nick, u.channels) ensures SameAt(s, t, k) {
      assert QuitsAt(s, c, u, msg, ws, k) && WroteAt(s, ws, t, k);
    }
  }

  // ----- the commands that edit one record

  /** An operator's mode list changes the channel's mode when the update reports it, and nothing else. */
  lemma ChanModeEffect(s: Store, c: Client, ch: string, modes: seq<string>, spare: string)
    requires Inv(s) && Registered(s, c)
    ensures var t := Next(s, Command(c, ChanMode(ch, modes, spare)));
      if ChanIn(s.kv, ch).Some? && IsOperator(s, c, ch) && modes != []
         && Modes.Apply(ChanIn(s.kv, ch).value.mode, spare, modes, Modes.CHAN_PERMS).updated
      then
        var v := ChanIn(s.kv, ch).value;
        && ChanIn(t.kv, ch) == Some(Channel(v.name, v.topic, Modes.Apply(v.mode, spare, modes, Modes.CHAN_PERMS).mode))
        && SameElse(s, t, {ChanCtl(ch)})
      else t == s
  {
    EntryMeans(s, c, ch);
    assert EntryOk(s, ChanCtl(ch)) && EntryOk(s, ChanNicks(ch, c.lease));
    var txn := TxnOf(ChanMode(ch, modes, spare), c, s);
    if txn.Ready? { Performed(s, c, ChanMode(ch, modes, spare), txn.ws); }
  }

  /** The same for a user and its own mode. */
  lemma UserModeEffect(s: Store, c: Client, modes: seq<string>, spare: string)
    requires Inv(s) && Registered(s, c)
    ensures var t, u := Next(s, Command(c, UserMode(modes, spare))), UserIn(s.kv, c.nick).value;
      var up := Modes.Apply(u.mode, spare, modes, Modes.USER_PERMS);
      if up.updated then UserIn(t.kv, c.nick) == Some(u.(mode := up.mode)) && SameElse(s, t, {UserCtl(c.nick)})
      else t == s
  {
    Performed(s, c, UserMode(modes, spare), TxnOf(UserMode(modes, spare), c, s).ws);
  }

  /** The operator record exists and has this password. */
  predicate PasswordFits(s: Store, login: string, pass: string) {
    OperCtl(login) in s.kv && s.kv[OperCtl(login)].value.OperV? && s.kv[OperCtl(login)].value.oper.pass == pass
  }

  /** A login adds the letter of the operator's kind at the end of the mode, unless it is there. */
  lemma OperEffect(s: Store, c: Client, login: string, pass: string)
    requires Inv(s) && Registered(s, c)
    ensures var t, u := Next(s, Command(c, Oper(login, pass))), UserIn(s.kv, c.nick).value;
      if PasswordFits(s, login, pass) then
        var x := if s.kv[OperCtl(login)].value.oper.global then 'O' else 'o';
        && UserIn(t.kv, c.nick) == Some(u.(mode := if x in u.mode then u.mode else u.mode + [x]))
        && SameElse(s, t, {UserCtl(c.nick)})
      else t == s
  {
    assert EntryOk(s, OperCtl(login));
    Performed(s, c, Oper(login, pass), TxnOf(Oper(login, pass), c, s).ws);
  }

  /** Away stores the message; the letter is there exactly if the message is not empty, and no other letter moves. */
  lemma AwayEffect(s: Store, c: Client, msg: string)
    requires Inv(s) && Registered(s, c)
    ensures var t, u := Next(s, Command(c, Away(msg))), UserIn(s.kv, c.nick).value;
      && UserIn(t.kv, c.nick).Some?
      && var v := UserIn(t.kv, c.nick).value;
         && v == u.(mode := v.mode, awayMsg := msg)
         && (v.mode == if msg == "" then Without(u.mode, 'a') else if 'a' in u.mode then u.mode else u.mode + ['a'])
         && ('a' in v.mode <==> msg != "") && (forall x :: x != 'a' ==> (x in v.mode <==> x in u.mode))
         && SameElse(s, t, {UserCtl(c.nick)})
  {
    var u := UserIn(s.kv, c.nick).value;
    assert EntryOk(s, UserCtl(c.nick));
    Performed(s, c, Away(msg), TxnOf(Away(msg), c, s).ws);
    NoDupWithout(u.mode, 'a');
    forall x | x != 'a' ensures x in Without(u.mode, 'a') <==> x in u.mode { WithoutOthers(u.mode, 'a', x); }
  }

  predicate MaySetTopic(s: Store, c: Client, ch: string, text: Option<string>) {
    text.Some? && ChanIn(s.kv, ch).Some? && ('t' in ChanIn(s.kv, ch).value.mode ==> IsOperator(s, c, ch))
  }

  /** A topic is stored and broadcast if the channel exists and is unprotected or the caller its operator. */
  lemma TopicEffect(s: Store, c: Client, ch: string, text: Option<string>)
    requires Inv(s) && Registered(s, c)
    ensures var t := Next(s, Command(c, Topic(ch, text)));
      if MaySetTopic(s, c, ch, text) then
        var v := ChanIn(s.kv, ch).value;
        && ChanIn(t.kv, ch) == Some(Channel(v.name, text.value, v.mode))
        && Says(t, ChanMsg(ch), c, TOPIC, [ch, text.value])
        && SameElse(s, t, {ChanCtl(ch), ChanMsg(ch)})
      else t == s
  {
    TopicStages(s, c, ch, text);
    var txn := TxnOf(Topic(ch, text), c, s);
    if txn.Ready? { Performed(s, c, Topic(ch, text), txn.ws); }
  }

  lemma TopicStages(s: Store, c: Client, ch: string, text: Option<string>)
    requires Inv(s)
    ensures var txn := TxnOf(Topic(ch, text), c, s);
      if MaySetTopic(s, c, ch, text) then
        var v := ChanIn(s.kv, ch).value;
        txn == Ready(map[ChanCtl(ch) := Put(ChanV(v.(topic := text.value)), Detach),
                         ChanMsg(ch) := Put(c.Says(TOPIC, [ch, text.value]), Detach)])
      else txn.Abort? || txn == NOTHING
  {
    EntryMeans(s, c, ch);
    assert EntryOk(s, ChanCtl(ch)) && EntryOk(s, ChanNicks(ch, c.lease));
  }

  // ----- messages

  predicate Encrypted(msg: string) { |msg| >= 4 && msg[..4] == "?OTR" }

  /** A message goes to the target's key; if the target is away the sender's own key gets the away message. */
  lemma PrivMsgUserEffect(s: Store, c: Client, target: string, msg: string)
    requires Inv(s) && Registered(s, c)
    ensures var t := Next(s, Command(c, PrivMsgUser(target, msg)));
      var u, v := UserIn(s.kv, c.nick).value, UserIn(s.kv, target);
      if v.None? then t == s
      else if 'a' in v.value.mode then
        && Says(t, UserMsg(c.nick), c, RPL_AWAY, [c.nick, target, v.value.awayMsg]) && SameElse(s, t, {UserMsg(c.nick)})
      else if !Encrypted(msg) && ('E' in u.mode || 'E' in v.value.mode) then t == s
      else Says(t, UserMsg(target), c, PRIVMSG, [target, msg]) && SameElse(s, t, {UserMsg(target)})
  {
    assert EntryOk(s, UserCtl(target));
    assert "?OTR" <= msg <==> Encrypted(msg);
    Performed(s, c, PrivMsgUser(target, msg), TxnOf(PrivMsgUser(target, msg), c, s).ws);
  }

  /** A message goes through a channel that exists and is unmoderated or operated by the sender. */
  lemma PrivMsgChanEffect(s: Store, c: Client, ch: string, msg: string)
    requires Inv(s) && Registered(s, c)
    ensures var t := Next(s, Command(c, PrivMsgChan(ch, msg)));
      if ChanIn(s.kv, ch).Some? && ('m' in ChanIn(s.kv, ch).value.mode ==> IsOperator(s, c, ch))
      then Says(t, ChanMsg(ch), c, PRIVMSG, [ch, msg]) && SameElse(s, t, {ChanMsg(ch)})
      else t == s
  {
    EntryMeans(s, c, ch);
    assert EntryOk(s, ChanCtl(ch)) && EntryOk(s, ChanNicks(ch, c.lease));
    var txn := TxnOf(PrivMsgChan(ch, msg), c, s);
    if txn.Ready? { Performed(s, c, PrivMsgChan(ch, msg), txn.ws); }
  }

  // ----- the other steps

  /** Registration of a free nick on a live lease creates the record, with the pinned mode, and an empty message. */
  lemma RegisterEffect(s: Store, c: Client, pinned: string)
    ensures var t := Next(s, Register(c, pinned));
      if UserCtl(c.nick) !in s.kv && c.lease in s.leases then
        && UserIn(t.kv, c.nick) == Some(User(c.nick, c.user, "", "", pinned, [], "", c.lease))
        && UserMsg(c.nick) in t.kv && t.kv[UserMsg(c.nick)].value == Blank
        && t.kv[UserCtl(c.nick)].lease == c.lease && t.kv[UserMsg(c.nick)].lease == c.lease
        && SameElse(s, t, {UserCtl(c.nick), UserMsg(c.nick)})
      else t == s
  {
    var ws := RegisterWrites(c, pinned);
    if c.lease in s.leases {
      assert Accepts(s, ws);
      Applied(s, ws);
      assert WroteAt(s, ws, Commit(s, ws), UserCtl(c.nick)) && WroteAt(s, ws, Commit(s, ws), UserMsg(c.nick));
    } else {
      assert UserCtl(c.nick) in ws && !Accepts(s, ws);
    }
  }

  /** An appointment writes the operator's record. */
  lemma AppointEffect(s: Store, login: string, oper: OperValue)
    ensures var t := Next(s, SetOper(login, oper));
      OperCtl(login) in t.kv && t.kv[OperCtl(login)].value == OperV(oper) && SameElse(s, t, {OperCtl(login)})
  {
    var ws := map[OperCtl(login) := Put(OperV(oper), Detach)];
    Applied(s, ws);
    assert WroteAt(s, ws, Commit(s, ws), OperCtl(login));
  }

  /** A cleanup deletes its key if the key still has the revision that was seen. */
  lemma CleanupEffect(s: Store, server: Lease, k: Key, rev: nat)
    ensures var t := Next(s, Cleanup(server, k, rev));
      if k in s.kv && s.kv[k].mod == rev then k !in t.kv && SameElse(s, t, {k}) else t == s
  {
    var ws := map[k := Del];
    Applied(s, ws);
    assert WroteAt(s, ws, Commit(s, ws), k);
  }
}
