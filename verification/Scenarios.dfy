/** Runs from the empty store that show what the server can be made to do wrong. */
module Scenarios {
  import opened Records
  import opened Etcd
  import opened Commands
  import opened Protocol
  import opened Membership
  import opened Runs
  import opened Operators
  import opened Transactions
  import opened Retry
  import opened Stale
  import Modes
  import Parts
  import Sight
  import PartDelivery

  const OWNER: Client := Client("x", "u", 1)
  const GUEST: Client := Client("n", "v", 1)
  const ROOM: string := "#a"

  // ----- building runs

  lemma Enters(s: Store, c: Client, pinned: string)
    requires Inv(s) && c.lease in s.leases && UserCtl(c.nick) !in s.kv && PinnedOk(pinned)
    ensures var t := Next(s, Register(c, pinned));
      && Inv(t) && Registered(t, c) && t.leases == s.leases
      && UserIn(t.kv, c.nick).value.mode == pinned && UserIn(t.kv, c.nick).value.channels == []
      && forall k :: k != UserCtl(c.nick) && k != UserMsg(c.nick) ==> SameAt(s, t, k)
  {
    var t, ws := Next(s, Register(c, pinned)), RegisterWrites(c, pinned);
    RegisterKeeps(s, c, pinned);
    CommitEffect(s, ws);
    assert WroteAt(s, ws, t, UserCtl(c.nick));
    forall k | k != UserCtl(c.nick) && k != UserMsg(c.nick) ensures SameAt(s, t, k) { assert WroteAt(s, ws, t, k); }
  }

  lemma JoinKey(s: Store, c: Client, ch: string, k: Key)
    requires Inv(s) && Registered(s, c)
    requires k != UserCtl(c.nick) && k != ChanCtl(ch) && k != ChanNicks(ch, c.lease) && k != ChanMsg(ch)
    ensures SameAt(s, Next(s, Command(c, Join(ch))), k)
  {
    var u, ctl, me := JoinStages(s, c, ch);
    var ws := TxnOf(Join(ch), c, s).ws;
    assert Accepts(s, ws);
    CommitEffect(s, ws);
    assert WroteAt(s, ws, Commit(s, ws), k);
  }

  lemma JoinRecord(s: Store, c: Client, ch: string)
    requires Inv(s) && Registered(s, c)
    ensures var t := Next(s, Command(c, Join(ch))); var u := UserIn(s.kv, c.nick).value;
      && Inv(t) && t.leases == s.leases && Registered(t, c)
      && UserIn(t.kv, c.nick) == Some(u.(channels := u.channels + [ch]))
  {
    JoinKeeps(s, c, ch);
    var u, ctl, me := JoinStages(s, c, ch);
    var ws := TxnOf(Join(ch), c, s).ws;
    assert Accepts(s, ws);
    CommitEffect(s, ws);
    assert WroteAt(s, ws, Commit(s, ws), UserCtl(c.nick));
  }

  lemma JoinsIn(s: Store, c: Client, ch: string)
    requires Inv(s) && Registered(s, c)
    ensures var t := Next(s, Command(c, Join(ch)));
      && Inv(t) && Registered(t, c)
      && ChanIn(t.kv, ch) == Some(if ChanIn(s.kv, ch).Some? then ChanIn(s.kv, ch).value else Channel(ch, "", ""))
      && Members(t.kv, ch, c.lease) ==
           Members(s.kv, ch, c.lease) + [Member(c.nick, if ChanCtl(ch) in s.kv then "" else OPERATOR)]
      && forall n :: n != c.nick ==> SameAt(s, t, UserCtl(n))
  {
    JoinRecord(s, c, ch);
    JoinChannel(s, c, ch);
    forall n | n != c.nick ensures SameAt(s, Next(s, Command(c, Join(ch))), UserCtl(n)) {
      JoinKey(s, c, ch, UserCtl(n));
    }
  }

  lemma JoinChannel(s: Store, c: Client, ch: string)
    requires Inv(s) && Registered(s, c)
    ensures var t := Next(s, Command(c, Join(ch)));
      && ChanIn(t.kv, ch) == Some(if ChanIn(s.kv, ch).Some? then ChanIn(s.kv, ch).value else Channel(ch, "", ""))
      && Members(t.kv, ch, c.lease) ==
           Members(s.kv, ch, c.lease) + [Member(c.nick, if ChanCtl(ch) in s.kv then "" else OPERATOR)]
  {
    var t := Next(s, Command(c, Join(ch)));
    var u, ctl, me := JoinStages(s, c, ch);
    var ws := TxnOf(Join(ch), c, s).ws;
    assert Accepts(s, ws);
    CommitEffect(s, ws);
    assert EntryOk(s, ChanCtl(ch));
    assert WroteAt(s, ws, t, ChanCtl(ch)) && WroteAt(s, ws, t, ChanNicks(ch, c.lease));
  }

  // ----- one-letter mode changes

  lemma OneChange(c: char, add: bool)
    requires c in Modes.CHAN_MODES
    ensures Modes.AllChanges([[if add then '+' else '-', c]], Modes.CHAN_PERMS) == [Modes.Signed(add, c)]
  {
    var str := [if add then '+' else '-', c];
    Modes.OneLetter(str, c, add);
    assert [str][1..] == [];
  }

  lemma Toggle(c: char, add: bool)
    requires c in Modes.CHAN_MODES
    ensures var u := Modes.Apply(if add then "" else [c], "", [[if add then '+' else '-', c]], Modes.CHAN_PERMS);
      u.updated && u.mode == if add then [c] else ""
  {
    var mv := if add then "" else [c];
    var modes := [[if add then '+' else '-', c]];
    OneChange(c, add);
    Modes.ApplyMode(mv, "", modes, Modes.CHAN_PERMS);
    Modes.ExecuteOne(mv, Modes.Signed(add, c));
    Modes.UpdatedExact(mv, "", modes, Modes.CHAN_PERMS);
    var u := Modes.Apply(mv, "", modes, Modes.CHAN_PERMS);
    assert c in Modes.Letters(u.mode) <==> add;
    assert c in Modes.Letters(mv) <==> !add;
  }

  /** The channel's operator switches a mode letter on or off. */
  lemma Switches(s: Store, c: Client, ch: string, x: char, add: bool)
    requires Inv(s) && Registered(s, c) && Heads(s, c, ch) && x in Modes.CHAN_MODES
    requires ChanIn(s.kv, ch) == Some(Channel(ch, "", if add then "" else [x]))
    ensures var t := Next(s, Command(c, ChanMode(ch, [[if add then '+' else '-', x]], "")));
      && Inv(t) && ChanIn(t.kv, ch) == Some(Channel(ch, "", if add then [x] else ""))
      && ModOf(t, ChanCtl(ch)) == s.Rev() + 1
      && forall k :: k != ChanCtl(ch) ==> SameAt(s, t, k)
  {
    var op := ChanMode(ch, [[if add then '+' else '-', x]], "");
    var t := Next(s, Command(c, op));
    CommandKeeps(s, c, op);
    SwitchStages(s, c, ch, x, add);
    var ws := TxnOf(op, c, s).ws;
    assert Accepts(s, ws);
    CommitEffect(s, ws);
    assert WroteAt(s, ws, t, ChanCtl(ch));
    forall k | k != ChanCtl(ch) ensures SameAt(s, t, k) { assert WroteAt(s, ws, t, k); }
  }

  lemma SwitchStages(s: Store, c: Client, ch: string, x: char, add: bool)
    requires Inv(s) && Heads(s, c, ch) && x in Modes.CHAN_MODES
    requires ChanIn(s.kv, ch) == Some(Channel(ch, "", if add then "" else [x]))
    ensures TxnOf(ChanMode(ch, [[if add then '+' else '-', x]], ""), c, s) ==
      Ready(map[ChanCtl(ch) := Put(ChanV(Channel(ch, "", if add then [x] else "")), Detach)])
  {
    Toggle(x, add);
    OwnEntry(s, c, ch);
  }

  lemma OwnEntry(s: Store, c: Client, ch: string)
    requires Inv(s) && Heads(s, c, ch)
    ensures s.Read(ChanNicks(ch, c.lease)).NicksV?
    ensures EntryIn(s.Read(ChanNicks(ch, c.lease)), c.nick) == Some(Member(c.nick, OPERATOR))
  {
    OperatorEntry(s, ch, c.lease, 0);
  }

  // ----- a channel with its operator and a guest

  /** Both are on the channel, which has the given mode. */
  ghost predicate Together(s: Store, mode: string) {
    && Inv(s) && Registered(s, OWNER) && Registered(s, GUEST)
    && ChanIn(s.kv, ROOM) == Some(Channel(ROOM, "", mode))
    && Members(s.kv, ROOM, 1) == [Member("x", OPERATOR), Member("n", "")]
  }

  lemma Opening() returns (acts: seq<Action>)
    ensures AllEnabled(EMPTY, acts) && Inv(Run(EMPTY, acts))
    ensures Run(EMPTY, acts).kv == map[] && Run(EMPTY, acts).leases == {1}
  {
    acts := [];
    EmptyInv();
    RunMore(EMPTY, [], Grant(1));
    acts := [] + [Grant(1)];
    RunKeeps(EMPTY, acts);
  }

  lemma NoDupEmpty()
    ensures PinnedOk("") && PinnedOk("E")
  {
    assert multiset("E")['E'] == 1;
  }

  /** Owner and guest are registered and no channel exists. */
  ghost predicate Registrations(s: Store, pinned: string) {
    && Inv(s) && Registered(s, OWNER) && Registered(s, GUEST) && UserIn(s.kv, "x").value.mode == pinned
    && ChanCtl(ROOM) !in s.kv && Members(s.kv, ROOM, 1) == []
  }

  /** The owner is registered, and neither the guest nor the channel exists. */
  ghost predicate OwnerOnly(s: Store, pinned: string) {
    && Inv(s) && Registered(s, OWNER) && UserIn(s.kv, "x").value.mode == pinned && 1 in s.leases
    && UserCtl("n") !in s.kv && ChanCtl(ROOM) !in s.kv && ChanNicks(ROOM, 1) !in s.kv
  }

  lemma BothRegister(pinned: string) returns (acts: seq<Action>)
    requires pinned == "" || pinned == "E"
    ensures AllEnabled(EMPTY, acts) && Registrations(Run(EMPTY, acts), pinned)
  {
    NoDupEmpty();
    acts := Opening();
    OwnerRegisters(Run(EMPTY, acts), pinned);
    RunMore(EMPTY, acts, Register(OWNER, pinned));
    acts := acts + [Register(OWNER, pinned)];
    GuestRegisters(Run(EMPTY, acts), pinned);
    RunMore(EMPTY, acts, Register(GUEST, ""));
    acts := acts + [Register(GUEST, "")];
  }

  lemma OwnerRegisters(s: Store, pinned: string)
    requires Inv(s) && s.kv == map[] && s.leases == {1} && PinnedOk(pinned)
    ensures OwnerOnly(Next(s, Register(OWNER, pinned)), pinned)
  {
    Enters(s, OWNER, pinned);
    var t := Next(s, Register(OWNER, pinned));
    assert SameAt(s, t, UserCtl("n")) && SameAt(s, t, ChanCtl(ROOM)) && SameAt(s, t, ChanNicks(ROOM, 1));
  }

  lemma GuestRegisters(s: Store, pinned: string)
    requires OwnerOnly(s, pinned)
    ensures Registrations(Next(s, Register(GUEST, "")), pinned)
  {
    NoDupEmpty();
    Enters(s, GUEST, "");
    var t := Next(s, Register(GUEST, ""));
    assert SameAt(s, t, UserCtl("x")) && SameAt(s, t, ChanCtl(ROOM)) && SameAt(s, t, ChanNicks(ROOM, 1));
  }

  lemma Meeting() returns (acts: seq<Action>)
    ensures AllEnabled(EMPTY, acts) && Together(Run(EMPTY, acts), "")
  {
    acts := BothRegister("");
    acts := BothJoin(acts);
  }

  /** The owner has created the channel. */
  ghost predicate Founded(s: Store) {
    && Inv(s) && Registered(s, OWNER) && Registered(s, GUEST)
    && ChanIn(s.kv, ROOM) == Some(Channel(ROOM, "", "")) && Members(s.kv, ROOM, 1) == [Member("x", OPERATOR)]
  }

  lemma OwnerJoins(s: Store)
    requires Registrations(s, "")
    ensures Founded(Next(s, Command(OWNER, Join(ROOM))))
  {
    JoinsIn(s, OWNER, ROOM);
    assert SameAt(s, Next(s, Command(OWNER, Join(ROOM))), UserCtl("n"));
  }

  lemma GuestJoins(s: Store)
    requires Founded(s)
    ensures Together(Next(s, Command(GUEST, Join(ROOM))), "")
  {
    JoinsIn(s, GUEST, ROOM);
    assert SameAt(s, Next(s, Command(GUEST, Join(ROOM))), UserCtl("x"));
  }

  lemma BothJoin(past: seq<Action>) returns (acts: seq<Action>)
    requires AllEnabled(EMPTY, past) && Registrations(Run(EMPTY, past), "")
    ensures AllEnabled(EMPTY, acts) && Together(Run(EMPTY, acts), "")
  {
    acts := past;
    OwnerJoins(Run(EMPTY, acts));
    RunMore(EMPTY, acts, Command(OWNER, Join(ROOM)));
    acts := acts + [Command(OWNER, Join(ROOM))];
    GuestJoins(Run(EMPTY, acts));
    RunMore(EMPTY, acts, Command(GUEST, Join(ROOM)));
    acts := acts + [Command(GUEST, Join(ROOM))];
  }

  lemma SwitchedTogether(s: Store, x: char, add: bool)
    requires Together(s, if add then "" else [x]) && x in Modes.CHAN_MODES
    ensures var t := Next(s, Command(OWNER, ChanMode(ROOM, [[if add then '+' else '-', x]], "")));
      Together(t, if add then [x] else "") && ModOf(t, ChanCtl(ROOM)) != ModOf(s, ChanCtl(ROOM))
  {
    var t := Next(s, Command(OWNER, ChanMode(ROOM, [[if add then '+' else '-', x]], "")));
    Switches(s, OWNER, ROOM, x, add);
    assert SameAt(s, t, UserCtl("x")) && SameAt(s, t, UserCtl("n")) && SameAt(s, t, ChanNicks(ROOM, 1));
    ModNamesEntry(s.log, ChanCtl(ROOM));
  }

  /** A run in which the operator sets a letter, and the step that takes it back. */
  lemma SetAndTakenBack(x: char) returns (acts: seq<Action>, a: Action)
    requires x in Modes.CHAN_MODES
    ensures AllEnabled(EMPTY, acts + [a]) && ByOthers(a, GUEST) && AllEnabled(EMPTY, acts)
    ensures Together(Run(EMPTY, acts), [x]) && Together(Run(EMPTY, acts + [a]), "")
    ensures ModOf(Run(EMPTY, acts), ChanCtl(ROOM)) != ModOf(Run(EMPTY, acts + [a]), ChanCtl(ROOM))
  {
    acts := Meeting();
    var on := Command(OWNER, ChanMode(ROOM, [['+', x]], ""));
    a := Command(OWNER, ChanMode(ROOM, [['-', x]], ""));
    SwitchedTogether(Run(EMPTY, acts), x, true);
    RunMore(EMPTY, acts, on);
    acts := acts + [on];
    SwitchedTogether(Run(EMPTY, acts), x, false);
    RunMore(EMPTY, acts, a);
  }

  // ----- the stale replies

  /**
   An attempt of `op` on `before` loses its commit to a step of someone else, and the retry on
   `after` commits, but the client is told something else than what the retry found.
   */
  ghost predicate ToldOld(op: Op, c: Client, before: Store, after: Store) {
    && Registered(before, c) && Registered(after, c)
    && TxnOf(op, c, before).Ready? && TxnOf(op, c, after).Ready?
    && !Validated(before, after, ReadSet(op, c, before))
    && ReplyOf(op, FlagsOf(op, c, after, Leftover(op, c, [before]))) != Verdict(op, c, after)
  }

  lemma OneLeft(op: Op, c: Client, before: Store, k: Sticky)
    requires Assigns(op, c, before, k) == Some(true)
    ensures LeftSet(op, c, [before], k)
  {
    assert TrueAt(Assigned(op, c, [before], k), 0);
  }

  lemma GuestEntry()
    ensures FindNick([Member("x", OPERATOR), Member("n", "")], "n") == Some(Member("n", ""))
  {
    var list := [Member("x", OPERATOR), Member("n", "")];
    assert list[1..] == [Member("n", "")];
  }

  /** The topic is set, and the reply says that an operator is needed. */
  lemma StaleTopicReply() returns (acts: seq<Action>, a: Action)
    ensures AllEnabled(EMPTY, acts + [a]) && ByOthers(a, GUEST)
    ensures ToldOld(Topic(ROOM, Some("t")), GUEST, Run(EMPTY, acts), Run(EMPTY, acts + [a]))
    ensures ChanCtl(ROOM) in TxnOf(Topic(ROOM, Some("t")), GUEST, Run(EMPTY, acts + [a])).ws
  {
    acts, a := SetAndTakenBack('t');
    TopicTold(Run(EMPTY, acts), Run(EMPTY, acts + [a]));
  }

  lemma TopicTold(before: Store, after: Store)
    requires Together(before, "t") && Together(after, "") && ModOf(before, ChanCtl(ROOM)) != ModOf(after, ChanCtl(ROOM))
    ensures ToldOld(Topic(ROOM, Some("t")), GUEST, before, after)
    ensures ChanCtl(ROOM) in TxnOf(Topic(ROOM, Some("t")), GUEST, after).ws
  {
    var op := Topic(ROOM, Some("t"));
    GuestEntry();
    assert TopicAssigns(before, GUEST, ROOM, Some("t"), NotOp) == Some(true);
    OneLeft(op, GUEST, before, NotOp);
    assert ChanCtl(ROOM) in ReadSet(op, GUEST, before);
    ReplyAfterRetries(op, GUEST, [before], after);
  }

  /** The message is stored, and the reply says that it cannot be sent. */
  lemma StalePrivMsgChanReply() returns (acts: seq<Action>, a: Action)
    ensures AllEnabled(EMPTY, acts + [a]) && ByOthers(a, GUEST)
    ensures ToldOld(PrivMsgChan(ROOM, "hi"), GUEST, Run(EMPTY, acts), Run(EMPTY, acts + [a]))
    ensures ChanMsg(ROOM) in TxnOf(PrivMsgChan(ROOM, "hi"), GUEST, Run(EMPTY, acts + [a])).ws
  {
    acts, a := SetAndTakenBack('m');
    SpeakTold(Run(EMPTY, acts), Run(EMPTY, acts + [a]));
  }

  lemma SpeakStages(before: Store, after: Store)
    requires Together(before, "m") && Together(after, "")
    ensures PrivMsgChanAssigns(before, GUEST, ROOM) == Some(true)
    ensures PrivMsgChanTxn(before, GUEST, ROOM, "hi") == NOTHING
    ensures var txn := PrivMsgChanTxn(after, GUEST, ROOM, "hi"); txn.Ready? && ChanMsg(ROOM) in txn.ws
  {
    GuestEntry();
  }

  lemma SpeakTold(before: Store, after: Store)
    requires Together(before, "m") && Together(after, "") && ModOf(before, ChanCtl(ROOM)) != ModOf(after, ChanCtl(ROOM))
    ensures ToldOld(PrivMsgChan(ROOM, "hi"), GUEST, before, after)
    ensures ChanMsg(ROOM) in TxnOf(PrivMsgChan(ROOM, "hi"), GUEST, after).ws
  {
    var op := PrivMsgChan(ROOM, "hi");
    SpeakStages(before, after);
    OneLeft(op, GUEST, before, NoSend);
    assert ChanCtl(ROOM) in ReadSet(op, GUEST, before);
    ReplyAfterRetries(op, GUEST, [before], after);
  }

  /** The target went away; the away message is stored, and the reply says there was no text to send. */
  lemma StalePrivMsgUserReply() returns (acts: seq<Action>, a: Action)
    ensures AllEnabled(EMPTY, acts + [a]) && ByOthers(a, GUEST)
    ensures ToldOld(PrivMsgUser("x", "hi"), GUEST, Run(EMPTY, acts), Run(EMPTY, acts + [a]))
  {
    acts := BothRegister("E");
    a := Command(OWNER, Away("out"));
    var before := Run(EMPTY, acts);
    GoesAway(before, OWNER, "out");
    RunMore(EMPTY, acts, a);
    var after := Run(EMPTY, acts + [a]);
    assert SameAt(before, after, UserCtl("n"));
    AwayTold(before, after);
  }

  lemma AwayTold(before: Store, after: Store)
    requires Registered(before, OWNER) && Registered(before, GUEST) && UserIn(before.kv, "x").value.mode == "E"
    requires Registered(after, GUEST) && UserIn(after.kv, "x").Some? && 'a' in UserIn(after.kv, "x").value.mode
    requires ModOf(before, UserCtl("x")) != ModOf(after, UserCtl("x"))
    ensures ToldOld(PrivMsgUser("x", "hi"), GUEST, before, after)
  {
    var op := PrivMsgUser("x", "hi");
    AwayStages(before, after);
    OneLeft(op, GUEST, before, BadOtr);
    assert UserCtl("x") in ReadSet(op, GUEST, before);
    ReplyAfterRetries(op, GUEST, [before], after);
  }

  lemma AwayStages(before: Store, after: Store)
    requires Registered(before, OWNER) && Registered(before, GUEST) && UserIn(before.kv, "x").value.mode == "E"
    requires Registered(after, GUEST) && UserIn(after.kv, "x").Some? && 'a' in UserIn(after.kv, "x").value.mode
    ensures PrivMsgUserAssigns(before, GUEST, "x", "hi") == Some(true)
    ensures PrivMsgUserTxn(before, GUEST, "x", "hi").Ready? && PrivMsgUserTxn(after, GUEST, "x", "hi").Ready?
  {
  }

  lemma GoesAway(s: Store, c: Client, msg: string)
    requires Inv(s) && Registered(s, c) && msg != ""
    ensures var t := Next(s, Command(c, Away(msg)));
      && UserIn(t.kv, c.nick).Some? && 'a' in UserIn(t.kv, c.nick).value.mode
      && ModOf(t, UserCtl(c.nick)) != ModOf(s, UserCtl(c.nick))
      && forall k :: k != UserCtl(c.nick) ==> SameAt(s, t, k)
  {
    var t, ws := Next(s, Command(c, Away(msg))), TxnOf(Away(msg), c, s).ws;
    NeverRefused(s, c, Away(msg));
    CommitEffect(s, ws);
    assert WroteAt(s, ws, t, UserCtl(c.nick));
    ModNamesEntry(s.log, UserCtl(c.nick));
    forall k | k != UserCtl(c.nick) ensures SameAt(s, t, k) { assert WroteAt(s, ws, t, k); }
  }

  /** The password no longer matches, and the reply says that the client is an operator. */
  lemma StaleOperReply() returns (acts: seq<Action>, a: Action)
    ensures AllEnabled(EMPTY, acts + [a]) && ByOthers(a, GUEST)
    ensures ToldOld(Oper("o", "p"), GUEST, Run(EMPTY, acts), Run(EMPTY, acts + [a]))
    ensures TxnOf(Oper("o", "p"), GUEST, Run(EMPTY, acts + [a])) == NOTHING
  {
    acts := Trusted();
    a := SetOper("o", OperValue("q", false));
    var before := Run(EMPTY, acts);
    Appointed(before, "o", OperValue("q", false));
    RunMore(EMPTY, acts, a);
    var after := Run(EMPTY, acts + [a]);
    assert SameAt(before, after, UserCtl("n"));
    OperTold(before, after);
  }

  /** The guest is registered, and there is an operator record for it. */
  lemma Trusted() returns (acts: seq<Action>)
    ensures AllEnabled(EMPTY, acts)
    ensures var s := Run(EMPTY, acts);
      Inv(s) && Registered(s, GUEST) && s.Read(OperCtl("o")) == OperV(OperValue("p", false))
  {
    NoDupEmpty();
    acts := Opening();
    var s0 := Run(EMPTY, acts);
    Enters(s0, GUEST, "");
    RunMore(EMPTY, acts, Register(GUEST, ""));
    acts := acts + [Register(GUEST, "")];
    var s1, first := Run(EMPTY, acts), SetOper("o", OperValue("p", false));
    Appointed(s1, "o", OperValue("p", false));
    RunMore(EMPTY, acts, first);
    acts := acts + [first];
    assert SameAt(s1, Run(EMPTY, acts), UserCtl("n"));
  }

  lemma OperTold(before: Store, after: Store)
    requires Registered(before, GUEST) && before.Read(OperCtl("o")) == OperV(OperValue("p", false))
    requires Registered(after, GUEST) && after.Read(OperCtl("o")) == OperV(OperValue("q", false))
    requires ModOf(before, OperCtl("o")) != ModOf(after, OperCtl("o"))
    ensures ToldOld(Oper("o", "p"), GUEST, before, after) && TxnOf(Oper("o", "p"), GUEST, after) == NOTHING
  {
    var op := Oper("o", "p");
    OneLeft(op, GUEST, before, LoggedIn);
    assert OperCtl("o") in ReadSet(op, GUEST, before);
    ReplyAfterRetries(op, GUEST, [before], after);
  }

  lemma Appointed(s: Store, login: string, oper: OperValue)
    requires Inv(s)
    ensures var t := Next(s, SetOper(login, oper));
      && Inv(t) && t.Read(OperCtl(login)) == OperV(oper) && ModOf(t, OperCtl(login)) != ModOf(s, OperCtl(login))
      && forall k :: k != OperCtl(login) ==> SameAt(s, t, k)
  {
    var t, ws := Next(s, SetOper(login, oper)), map[OperCtl(login) := Put(OperV(oper), Detach)];
    SetOperKeeps(s, login, oper);
    CommitEffect(s, ws);
    assert WroteAt(s, ws, t, OperCtl(login));
    if OperCtl(login) in s.kv { ModNamesEntry(s.log, OperCtl(login)); }
    forall k | k != OperCtl(login) ensures SameAt(s, t, k) { assert WroteAt(s, ws, t, k); }
  }

  // ----- a watcher whose client has quit

  lemma Leaving(s: Store, c: Client, ch: string, msg: string)
    requires Inv(s) && Registered(s, c) && UserIn(s.kv, c.nick).value.channels == [ch]
    requires Members(s.kv, ch, c.lease) == [Member(c.nick, OPERATOR)]
    ensures var t := Next(s, Command(c, Quit(msg))); var k := ChanNicks(ch, c.lease);
      && Inv(t) && UserIn(t.kv, c.nick).None?
      && k in t.kv && t.kv[k].value == NicksV([]) && t.kv[k].lease == c.lease
  {
    var t, u := Next(s, Command(c, Quit(msg))), UserIn(s.kv, c.nick).value;
    CommandKeeps(s, c, Quit(msg));
    QuitStages(s, c, msg);
    var ws := TxnOf(Quit(msg), c, s).ws;
    QuitAccepted(s, c, u, msg, ws);
    CommitEffect(s, ws);
    assert multiset(u.channels)[ch] == 1;
    assert QuitsAt(s, c, u, msg, ws, ChanNicks(ch, c.lease)) && WroteAt(s, ws, t, ChanNicks(ch, c.lease));
    assert QuitsAt(s, c, u, msg, ws, UserCtl(c.nick)) && WroteAt(s, ws, t, UserCtl(c.nick));
    assert EntryOk(s, ChanNicks(ch, c.lease)) && EntryOk(t, ChanNicks(ch, c.lease));
    var list := [Member(c.nick, OPERATOR)];
    assert DelTimes(list, c.nick, 0) == list && DelTimes(list, c.nick, 1) == DelNick(list, c.nick) == [];
  }

  /** A client registers, creates a channel and quits. */
  lemma ComesAndGoes() returns (acts: seq<Action>)
    ensures AllEnabled(EMPTY, acts)
    ensures var s := Run(EMPTY, acts); var k := ChanNicks(ROOM, 1);
      Inv(s) && UserIn(s.kv, "n").None? && k in s.kv && s.kv[k].value == NicksV([]) && s.kv[k].lease == 1
  {
    NoDupEmpty();
    acts := Opening();
    var s0 := Run(EMPTY, acts);
    Enters(s0, GUEST, "");
    RunMore(EMPTY, acts, Register(GUEST, ""));
    acts := acts + [Register(GUEST, "")];
    var s1 := Run(EMPTY, acts);
    assert SameAt(s0, s1, ChanCtl(ROOM)) && SameAt(s0, s1, ChanNicks(ROOM, 1));
    JoinsIn(s1, GUEST, ROOM);
    RunMore(EMPTY, acts, Command(GUEST, Join(ROOM)));
    acts := acts + [Command(GUEST, Join(ROOM))];
    var s2 := Run(EMPTY, acts);
    OnlyChannel(s1, s2, GUEST, ROOM);
    Leaving(s2, GUEST, ROOM, "");
    RunMore(EMPTY, acts, Command(GUEST, Quit("")));
    acts := acts + [Command(GUEST, Quit(""))];
  }

  lemma OnlyChannel(s: Store, t: Store, c: Client, ch: string)
    requires Inv(s) && Registered(s, c) && UserIn(s.kv, c.nick).value.channels == []
    requires t == Next(s, Command(c, Join(ch)))
    ensures UserIn(t.kv, c.nick).Some? && UserIn(t.kv, c.nick).value.channels == [ch]
  {
    var u, ctl, me := JoinStages(s, c, ch);
    var ws := TxnOf(Join(ch), c, s).ws;
    assert Accepts(s, ws);
    CommitEffect(s, ws);
    assert WroteAt(s, ws, t, UserCtl(c.nick));
  }

  /**
   Register, join, quit, cleanup: the client's own watcher, if it still listens, looks up its
   client's record one revision before the deletion and meets nil.
   */
  lemma WatcherMeetsNil() returns (acts: seq<Action>, k: Key, rev: nat)
    ensures var s := Run(EMPTY, acts);
      && AllEnabled(EMPTY, acts + [Cleanup(1, k, rev)]) && k in s.kv && s.kv[k].mod == rev
      && s.Rev() < Next(s, Cleanup(1, k, rev)).Rev() && k in Next(s, Cleanup(1, k, rev)).log[s.Rev()]
      && Parts.FromNicks(At(Next(s, Cleanup(1, k, rev)), s.Rev()), [], "n") == Parts.NilRecord
  {
    acts := ComesAndGoes();
    var s := Run(EMPTY, acts);
    k := ChanNicks(ROOM, 1);
    rev := s.kv[k].mod;
    ModNamesEntry(s.log, k);
    RunMore(EMPTY, acts, Cleanup(1, k, rev));
    Parts.CleanupReportsNobody(s, 1, k, rev, Next(s, Cleanup(1, k, rev)), "n");
  }

  // ----- a watcher and a scan that meet another channel

  const NEIGHBOUR: Client := Client("n", "v", 2)
  const BEYOND: string := "#a/b"

  lemma BeyondRoom()
    ensures Sight.Beyond(ROOM, BEYOND)
  {
    assert BEYOND + "/" == ROOM + "/" + "b/";
  }

  /** The owner is on the channel; the neighbour, on another server, is on the channel beyond it. */
  ghost predicate NextDoor(s: Store) {
    && Inv(s) && 2 in s.leases && Registered(s, OWNER) && Registered(s, NEIGHBOUR)
    && UserIn(s.kv, "x").value.channels == [ROOM]
    && UserIn(s.kv, "n").value.channels == [BEYOND] && UserIn(s.kv, "n").value.mode == ""
    && ChanNicks(ROOM, 2) !in s.kv
  }

  /** Two servers, a user on each. */
  ghost predicate TwoServers(s: Store) {
    && Inv(s) && 2 in s.leases && Registered(s, OWNER) && Registered(s, NEIGHBOUR) && ChanNicks(ROOM, 2) !in s.kv
    && UserIn(s.kv, "x").value.channels == [] && UserIn(s.kv, "n").value.channels == []
    && UserIn(s.kv, "n").value.mode == ""
  }

  lemma OwnerArrives(s: Store)
    requires Inv(s) && s.kv == map[] && s.leases == {1, 2}
    ensures var t := Next(s, Register(OWNER, ""));
      && Inv(t) && t.leases == {1, 2} && Registered(t, OWNER) && UserIn(t.kv, "x").value.channels == []
      && UserCtl("n") !in t.kv && ChanNicks(ROOM, 2) !in t.kv
  {
    NoDupEmpty();
    Enters(s, OWNER, "");
    var t := Next(s, Register(OWNER, ""));
    assert SameAt(s, t, UserCtl("n")) && SameAt(s, t, ChanNicks(ROOM, 2));
  }

  lemma NeighbourArrives(s: Store)
    requires Inv(s) && s.leases == {1, 2} && Registered(s, OWNER) && UserIn(s.kv, "x").value.channels == []
    requires UserCtl("n") !in s.kv && ChanNicks(ROOM, 2) !in s.kv
    ensures TwoServers(Next(s, Register(NEIGHBOUR, "")))
  {
    NoDupEmpty();
    Enters(s, NEIGHBOUR, "");
    var t := Next(s, Register(NEIGHBOUR, ""));
    assert SameAt(s, t, UserCtl("x")) && SameAt(s, t, ChanNicks(ROOM, 2));
  }

  lemma Servers() returns (acts: seq<Action>)
    ensures AllEnabled(EMPTY, acts) && TwoServers(Run(EMPTY, acts))
  {
    NoDupEmpty();
    acts := Opening();
    GrantKeeps(Run(EMPTY, acts), 2);
    RunMore(EMPTY, acts, Grant(2));
    acts := acts + [Grant(2)];
    OwnerArrives(Run(EMPTY, acts));
    RunMore(EMPTY, acts, Register(OWNER, ""));
    acts := acts + [Register(OWNER, "")];
    NeighbourArrives(Run(EMPTY, acts));
    RunMore(EMPTY, acts, Register(NEIGHBOUR, ""));
    acts := acts + [Register(NEIGHBOUR, "")];
  }

  lemma Neighbours() returns (acts: seq<Action>)
    ensures AllEnabled(EMPTY, acts) && NextDoor(Run(EMPTY, acts))
  {
    acts := Servers();
    var s0 := Run(EMPTY, acts);
    JoinRecord(s0, OWNER, ROOM);
    JoinKey(s0, OWNER, ROOM, UserCtl("n"));
    JoinKey(s0, OWNER, ROOM, ChanNicks(ROOM, 2));
    RunMore(EMPTY, acts, Command(OWNER, Join(ROOM)));
    acts := acts + [Command(OWNER, Join(ROOM))];
    var s1 := Run(EMPTY, acts);
    JoinRecord(s1, NEIGHBOUR, BEYOND);
    JoinKey(s1, NEIGHBOUR, BEYOND, UserCtl("x"));
    JoinKey(s1, NEIGHBOUR, BEYOND, ChanNicks(ROOM, 2));
    RunMore(EMPTY, acts, Command(NEIGHBOUR, Join(BEYOND)));
    acts := acts + [Command(NEIGHBOUR, Join(BEYOND))];
  }

  lemma NeighbourSeen(s: Store)
    requires NextDoor(s)
    ensures Parts.IsOn(s, "x", ROOM) && Sight.Stranger(s.kv, ROOM, "x", "n")
    ensures PartDelivery.Disturbed(s, Expiry(2), ROOM, "x")
  {
    BeyondRoom();
    assert BEYOND in UserIn(s.kv, "n").value.channels;
    assert PartDelivery.TakenBeyond(s, 2, ROOM, "x", "n");
  }

  /**
   The neighbour's server dies. Nobody left the owner's channel, but whatever its watch delivers,
   the owner is told that the neighbour parted from it.
   */
  lemma NeighbourParted() returns (acts: seq<Action>)
    ensures AllEnabled(EMPTY, acts + [Expiry(2)])
    ensures var s := Run(EMPTY, acts); var t := Next(s, Expiry(2));
      && Parts.IsOn(s, "x", ROOM) && !Parts.IsOn(s, "n", ROOM) && PartDelivery.LossParts(s, Expiry(2), ROOM) == []
      && t.log != s.log
      && forall b :: PartDelivery.Newest(t.log, ROOM, b) ==>
           && PartDelivery.InTime(b, t) && Parts.AllReported(t, ROOM, "x", b).Some?
           && PartDelivery.PartFor(s.kv, ROOM, "n") in Parts.AllReported(t, ROOM, "x", b).value
  {
    acts := Neighbours();
    var s := Run(EMPTY, acts);
    var t := Next(s, Expiry(2));
    RunMore(EMPTY, acts, Expiry(2));
    NeighbourSeen(s);
    PartDelivery.StepLists(s, Expiry(2));
    ClaimHasList(s, "n", BEYOND);
    assert t.log != s.log;
    forall b | PartDelivery.Newest(t.log, ROOM, b)
      ensures PartDelivery.InTime(b, t) && Parts.AllReported(t, ROOM, "x", b).Some?
      ensures PartDelivery.PartFor(s.kv, ROOM, "n") in Parts.AllReported(t, ROOM, "x", b).value
    {
      NeighbourTold(s, t, b);
    }
  }

  lemma NeighbourTold(s: Store, t: Store, b: seq<Parts.NickEvent>)
    requires NextDoor(s) && t == Next(s, Expiry(2)) && t.log != s.log && PartDelivery.Newest(t.log, ROOM, b)
    ensures PartDelivery.InTime(b, t) && Parts.AllReported(t, ROOM, "x", b).Some?
    ensures PartDelivery.PartFor(s.kv, ROOM, "n") in Parts.AllReported(t, ROOM, "x", b).value
  {
    var a, k := Expiry(2), ChanNicks(BEYOND, 2);
    NeighbourSeen(s);
    BeyondRoom();
    PartDelivery.StepTold(s, a, t, ROOM, "x", b);
    PartDelivery.StepLists(s, a);
    ClaimHasList(s, "n", BEYOND);
    assert PartDelivery.InRev(t.log[|s.log|], ROOM, k) && PartDelivery.HasEvent(b, k);
    var i :| 0 <= i < |b| && b[i].k == k;
    PartDelivery.SeenReported(s, 2, ROOM, "x", k, "n");
    PartDelivery.BatchContains(s, a, ROOM, "x", b, i, PartDelivery.PartFor(s.kv, ROOM, "n"));
  }

  /** And before that, NAMES shows the owner the neighbour, who is not on the channel. */
  lemma NeighbourNamed(ks: seq<Key>) returns (acts: seq<Action>)
    ensures AllEnabled(EMPTY, acts)
    ensures var s := Run(EMPTY, acts);
      && !Parts.IsOn(s, "n", ROOM)
      && (Sight.Scans(s.kv, ROOM, ks) ==>
            Parts.FromNicks(s.kv, Sight.Roster(s.kv, ks), "x").Users? && Sight.Shown(s.kv, "x", ks, "n") > 0)
  {
    acts := Neighbours();
    var s := Run(EMPTY, acts);
    NeighbourSeen(s);
    if Sight.Scans(s.kv, ROOM, ks) {
      Sight.NamesExactly(s, ROOM, ks, "x");
      Sight.ShownExactly(s, ROOM, ks, "x", "n");
    }
  }
}
