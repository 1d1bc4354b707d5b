/**
 doSTM: attempts are retried until their read set is still current at commit. A validated
 commit is an atomic step; and the reply is computed from captured variables that an
 aborted attempt may have set.
 */
module Retry {
  import opened Records
  import opened Etcd
  import opened Commands
  import opened Protocol
  import opened Transactions

  // ----- a validated commit is atomic

  /** The commit guard: every key read still has the mod-revision it had when it was read. */
  predicate Validated(s: Store, t: Store, rset: set<Key>) {
    forall k :: k in rset ==> ModOf(s, k) == ModOf(t, k)
  }

  function ModOf(s: Store, k: Key): nat { if k in s.kv then s.kv[k].mod else 0 }

  /** Equal mod-revisions in one history mean equal entries. */
  lemma SameModSameEntry(s: Store, t: Store, k: Key)
    requires Faithful(s) && Faithful(t) && Extends(s, t) && ModOf(s, k) == ModOf(t, k)
    ensures SameAt(s, t, k)
  {
    if k in s.kv { ModNamesEntry(s.log, k); }
    if k in t.kv { ModNamesEntry(t.log, k); }
    if k in s.kv && k in t.kv {
      assert s.log[s.kv[k].mod - 1] == t.log[s.kv[k].mod - 1];
    }
  }

  lemma {:induction false} QuitLoopDetermined(s: Store, t: Store, c: Client, chs: seq<string>, msg: string)
    requires forall ch :: ch in chs ==> SameAt(s, t, ChanNicks(ch, c.lease))
    ensures QuitLoop(s, c, chs, msg) == QuitLoop(t, c, chs, msg)
  {
    if chs != [] {
      var m := |chs| - 1;
      QuitLoopDetermined(s, t, c, chs[..m], msg);
      assert SameAt(s, t, ChanNicks(chs[m], c.lease));
    }
  }

  /** An attempt sees nothing of the store outside its read set. */
  lemma ReadsDetermine(op: Op, c: Client, s: Store, t: Store)
    requires forall k :: k in ReadSet(op, c, s) ==> SameAt(s, t, k)
    ensures TxnOf(op, c, t) == TxnOf(op, c, s)
  {
    match op {
      case Join(ch) =>
        assert SameAt(s, t, UserCtl(c.nick)) && SameAt(s, t, ChanCtl(ch)) && SameAt(s, t, ChanNicks(ch, c.lease));
      case Part(ch, _) => assert SameAt(s, t, UserCtl(c.nick)) && SameAt(s, t, ChanNicks(ch, c.lease));
      case Quit(msg) => QuitDetermined(c, s, t, msg);
      case Kick(ch, target, msg) => KickDetermined(c, s, t, ch, target, msg);
      case ChanMode(ch, _, _) => assert SameAt(s, t, ChanCtl(ch)) && SameAt(s, t, ChanNicks(ch, c.lease));
      case UserMode(_, _) => assert SameAt(s, t, UserCtl(c.nick));
      case Oper(login, _) => assert SameAt(s, t, UserCtl(c.nick)) && SameAt(s, t, OperCtl(login));
      case Away(_) => assert SameAt(s, t, UserCtl(c.nick));
      case Topic(ch, text) => TopicDetermined(c, s, t, ch, text);
      case PrivMsgUser(target, _) => assert SameAt(s, t, UserCtl(target)) && SameAt(s, t, UserCtl(c.nick));
      case PrivMsgChan(ch, msg) => PrivMsgChanDetermined(c, s, t, ch, msg);
    }
  }

  lemma QuitDetermined(c: Client, s: Store, t: Store, msg: string)
    requires forall k :: k in ReadSet(Quit(msg), c, s) ==> SameAt(s, t, k)
    ensures QuitTxn(t, c, msg) == QuitTxn(s, c, msg)
  {
    assert SameAt(s, t, UserCtl(c.nick));
    var u := s.Read(UserCtl(c.nick));
    if u.UserV? {
      forall ch | ch in u.user.channels ensures SameAt(s, t, ChanNicks(ch, c.lease)) {
        assert ChanNicks(ch, c.lease) in LateReads(Quit(msg), c, s);
      }
      QuitLoopDetermined(s, t, c, u.user.channels, msg);
    }
  }

  lemma KickDetermined(c: Client, s: Store, t: Store, ch: string, target: string, msg: string)
    requires forall k :: k in ReadSet(Kick(ch, target, msg), c, s) ==> SameAt(s, t, k)
    ensures KickTxn(t, c, ch, target, msg) == KickTxn(s, c, ch, target, msg)
  {
    assert SameAt(s, t, UserCtl(target)) && SameAt(s, t, ChanNicks(ch, c.lease));
    var u, me := s.Read(UserCtl(target)), EntryIn(s.Read(ChanNicks(ch, c.lease)), c.nick);
    if me.Some? && IsOp(me.value) && u.UserV? && ch in u.user.channels {
      assert ChanNicks(ch, u.user.lease) in LateReads(Kick(ch, target, msg), c, s);
      assert SameAt(s, t, ChanNicks(ch, u.user.lease));
    }
  }

  lemma TopicDetermined(c: Client, s: Store, t: Store, ch: string, text: Option<string>)
    requires forall k :: k in ReadSet(Topic(ch, text), c, s) ==> SameAt(s, t, k)
    ensures TopicTxn(t, c, ch, text) == TopicTxn(s, c, ch, text)
  {
    assert SameAt(s, t, ChanCtl(ch));
    var v := s.Read(ChanCtl(ch));
    if text.Some? && v.ChanV? && 't' in v.ctl.mode {
      assert ChanNicks(ch, c.lease) in LateReads(Topic(ch, text), c, s);
      assert SameAt(s, t, ChanNicks(ch, c.lease));
    }
  }

  lemma PrivMsgChanDetermined(c: Client, s: Store, t: Store, ch: string, msg: string)
    requires forall k :: k in ReadSet(PrivMsgChan(ch, msg), c, s) ==> SameAt(s, t, k)
    ensures PrivMsgChanTxn(t, c, ch, msg) == PrivMsgChanTxn(s, c, ch, msg)
  {
    assert SameAt(s, t, UserCtl(c.nick)) && SameAt(s, t, ChanCtl(ch));
    var u, v := s.Read(UserCtl(c.nick)), s.Read(ChanCtl(ch));
    if u.UserV? && v.ChanV? && 'm' in v.ctl.mode {
      assert ChanNicks(ch, u.user.lease) in LateReads(PrivMsgChan(ch, msg), c, s);
      assert SameAt(s, t, ChanNicks(ch, u.user.lease));
    }
  }

  /**
   Serializability: an attempt that ran on an old snapshot `s` and commits on the current
   store `t` with its read set validated has exactly the effect of the atomic step on `t`.
   */
  lemma ValidatedCommitIsAtomic(op: Op, c: Client, s: Store, t: Store)
    requires Faithful(s) && Faithful(t) && Extends(s, t) && Validated(s, t, ReadSet(op, c, s))
    requires TxnOf(op, c, s).Ready?
    ensures Commit(t, TxnOf(op, c, s).ws) == Next(t, Command(c, op))
  {
    forall k | k in ReadSet(op, c, s) ensures SameAt(s, t, k) {
      SameModSameEntry(s, t, k);
    }
    ReadsDetermine(op, c, s, t);
  }

  // ----- the retry loop

  /** The captured variables after aborted attempts on the given stores. */
  function Leftover(op: Op, c: Client, aborted: seq<Store>): Flags {
    if aborted == [] then FRESH
    else FlagsOf(op, c, aborted[|aborted| - 1], Leftover(op, c, aborted[..|aborted| - 1]))
  }

  /** One attempt; if it does not fail, `rset` is what its commit compares. */
  method RunAttempt(op: Op, c: Client, snap: Store, f0: Flags) returns (txn: Txn, f: Flags, rset: set<Key>)
    requires Stamped(snap)
    ensures txn == TxnOf(op, c, snap) && f == FlagsOf(op, c, snap, f0)
    ensures txn.Ready? ==> rset == ReadSet(op, c, snap)
  {
    var stm := new Stm(snap, Prefetch(op, c));
    var ok := true;
    match op {
      case Join(ch) => ok, f := JoinBody(stm, c, ch, f0);
      case Part(ch, msg) => ok, f := PartBody(stm, c, ch, msg, f0);
      case Quit(msg) => ok, f := QuitBody(stm, c, msg, f0);
      case Kick(ch, target, msg) => ok, f := KickBody(stm, c, ch, target, msg, f0);
      case ChanMode(ch, modes, spare) => ok, f := ChanModeBody(stm, c, ch, modes, spare, f0);
      case UserMode(modes, spare) => ok, f := UserModeBody(stm, c, modes, spare, f0);
      case Oper(login, pass) => ok, f := OperBody(stm, c, login, pass, f0);
      case Away(msg) => ok, f := AwayBody(stm, c, msg, f0);
      case Topic(ch, text) => ok, f := TopicBody(stm, c, ch, text, f0);
      case PrivMsgUser(target, msg) => ok, f := PrivMsgUserBody(stm, c, target, msg, f0);
      case PrivMsgChan(ch, msg) => ok, f := PrivMsgChanBody(stm, c, ch, msg, f0);
    }
    txn, rset := Staged(ok, stm.wset), stm.rset;
  }

  /** doSTM: attempts on `aborted` lose their commit, then one on `last` keeps it. */
  method DoStm(op: Op, c: Client, aborted: seq<Store>, last: Store)
    returns (txn: Txn, f: Flags, rset: set<Key>)
    requires Stamped(last) && forall i :: 0 <= i < |aborted| ==> Stamped(aborted[i])
    ensures txn == TxnOf(op, c, last) && f == FlagsOf(op, c, last, Leftover(op, c, aborted))
    ensures txn.Ready? ==> rset == ReadSet(op, c, last)
  {
    f := FRESH;
    for i := 0 to |aborted|
      invariant f == Leftover(op, c, aborted[..i])
    {
      assert aborted[..i + 1][..i] == aborted[..i];
      txn, f, rset := RunAttempt(op, c, aborted[i], f);
    }
    assert aborted[..|aborted|] == aborted;
    txn, f, rset := RunAttempt(op, c, last, f);
  }

  // ----- replies

  datatype Reply = Silent | NoChanModes | NotOnChannel | OpNeeded | UserNotInChannel | NoSuchNick | CannotSend
                 | NoText | PasswordMismatch | YoureOper | NowAway | Unaway
                 | ModeIs(mode: string, bad: string) | TopicIs(topic: string)

  function KickReply(f: Flags): Reply {
    if f.notOnChan then NotOnChannel else if f.userNotOnChan then UserNotInChannel
    else if f.notOp then OpNeeded else Silent
  }

  function ChanModeReply(f: Flags): Reply {
    if f.noChan then NoChanModes else if f.notOnChan then NotOnChannel
    else if f.notOp then OpNeeded else ModeIs(f.mode, "")
  }

  function TopicReply(text: Option<string>, f: Flags): Reply {
    if f.noChan then NoChanModes else if f.notOnChan then NotOnChannel
    else if f.notOp then OpNeeded else if text.None? then TopicIs(f.topic) else Silent
  }

  function PrivMsgUserReply(f: Flags): Reply {
    if f.noNick then NoSuchNick else if f.badOtr then NoText else Silent
  }

  function PrivMsgChanReply(f: Flags): Reply {
    if f.noNick then NoSuchNick else if f.noSend then CannotSend else Silent
  }

  function ReplyOf(op: Op, f: Flags): Reply {
    match op
    case Join(_) => TopicIs(f.topic)
    case Part(_, _) => if f.onChannel then Silent else NotOnChannel
    case Quit(_) => Silent
    case Kick(_, _, _) => KickReply(f)
    case ChanMode(_, _, _) => ChanModeReply(f)
    case UserMode(modes, _) => ModeIs(f.mode, if modes == [] then "" else f.bad)
    case Oper(_, _) => if f.loggedIn then YoureOper else PasswordMismatch
    case Away(msg) => if msg == "" then Unaway else NowAway
    case Topic(_, text) => TopicReply(text, f)
    case PrivMsgUser(_, _) => PrivMsgUserReply(f)
    case PrivMsgChan(_, _) => PrivMsgChanReply(f)
  }

  /** The reply of the committed attempt judged alone. */
  function Verdict(op: Op, c: Client, s: Store): Reply { ReplyOf(op, FlagsOf(op, c, s, FRESH)) }

  // A stale flag decides the reply when the committed attempt takes a path that does not assign it.

  predicate TopicMasked(s: Store, ch: string, text: Option<string>, f: Flags) {
    text.Some? && ChanIn(s.kv, ch).Some? && 't' !in ChanIn(s.kv, ch).value.mode && (f.notOnChan || f.notOp)
  }

  predicate PrivMsgChanMasked(s: Store, ch: string, f: Flags) {
    ChanIn(s.kv, ch).Some? && 'm' !in ChanIn(s.kv, ch).value.mode && f.noSend
  }

  predicate PrivMsgUserMasked(s: Store, target: string, f: Flags) {
    UserIn(s.kv, target).Some? && 'a' in UserIn(s.kv, target).value.mode && f.badOtr
  }

  predicate KickMasked(s: Store, c: Client, ch: string, f: Flags) {
    var me := EntryIn(s.Read(ChanNicks(ch, c.lease)), c.nick);
    me.Some? && !IsOp(me.value) && f.userNotOnChan
  }

  predicate Masked(op: Op, c: Client, s: Store, f: Flags) {
    match op
    case Topic(ch, text) => TopicMasked(s, ch, text, f)
    case PrivMsgChan(ch, _) => PrivMsgChanMasked(s, ch, f)
    case PrivMsgUser(target, _) => PrivMsgUserMasked(s, target, f)
    case Oper(login, pass) => !LogsIn(s, login, pass) && f.loggedIn
    case Kick(ch, _, _) => KickMasked(s, c, ch, f)
    case _ => false
  }

  /** Flags an operation's own attempts can never have set. */
  ghost predicate Plausible(op: Op, f: Flags) {
    && (op.ChanMode? && op.modes == [] ==> !f.notOp)
    && (op.Topic? && op.text.None? ==> !f.notOnChan && !f.notOp)
    && (op.PrivMsgUser? && IsOtr(op.msg) ==> !f.badOtr)
  }

  lemma {:induction false} LeftoverPlausible(op: Op, c: Client, aborted: seq<Store>)
    ensures Plausible(op, Leftover(op, c, aborted))
  {
    if aborted != [] {
      LeftoverPlausible(op, c, aborted[..|aborted| - 1]);
      PlausibleStep(op, c, aborted[|aborted| - 1], Leftover(op, c, aborted[..|aborted| - 1]));
    }
  }

  lemma PlausibleStep(op: Op, c: Client, s: Store, f: Flags)
    requires Plausible(op, f)
    ensures Plausible(op, FlagsOf(op, c, s, f))
  {
    match op {
      case ChanMode(ch, modes, spare) => if modes == [] { PlausibleMode(s, c, ch, spare, f); }
      case Topic(ch, text) => if text.None? { PlausibleTopic(s, c, ch, f); }
      case PrivMsgUser(target, msg) => PlausibleOtr(s, c, target, msg, f);
      case _ =>
    }
  }

  lemma PlausibleMode(s: Store, c: Client, ch: string, spare: string, f: Flags)
    requires !f.notOp
    ensures !ChanModeFlags(s, c, ch, [], spare, f).notOp
  {
    var v, l := s.Read(ChanCtl(ch)), s.Read(ChanNicks(ch, c.lease));
    if !v.Blank? && v.ChanV? && l.NicksV? {
      if EntryIn(l, c.nick).None? {
        assert ChanModeFlags(s, c, ch, [], spare, f) == f.(noChan := false, notOnChan := true);
      } else {
        assert ChanModeFlags(s, c, ch, [], spare, f) == f.(noChan := false, notOnChan := false, mode := v.ctl.mode);
      }
    }
  }

  lemma PlausibleTopic(s: Store, c: Client, ch: string, f: Flags)
    requires !f.notOp && !f.notOnChan
    ensures !TopicFlags(s, c, ch, None, f).notOp && !TopicFlags(s, c, ch, None, f).notOnChan
  {
    var v, g := s.Read(ChanCtl(ch)), TopicFlags(s, c, ch, None, f);
    if ChanCtl(ch) !in s.kv {
      assert g == f.(noChan := true);
    } else if v.ChanV? {
      assert g == f.(noChan := false, topic := v.ctl.topic);
    } else {
      assert g == f.(noChan := false);
    }
  }

  lemma PlausibleOtr(s: Store, c: Client, target: string, msg: string, f: Flags)
    requires IsOtr(msg) ==> !f.badOtr
    ensures IsOtr(msg) ==> !PrivMsgUserFlags(s, c, target, msg, f).badOtr
  {
  }

  // What the committed attempt's reads decode to, when it does not abort.

  predicate TopicDecodes(s: Store, c: Client, ch: string, text: Option<string>) {
    || ChanCtl(ch) !in s.kv
    || (s.Read(ChanCtl(ch)).ChanV? &&
        (text.None? || 't' !in s.Read(ChanCtl(ch)).ctl.mode || s.Read(ChanNicks(ch, c.lease)).NicksV?))
  }

  predicate PrivMsgChanDecodes(s: Store, c: Client, ch: string) {
    var u, v := s.Read(UserCtl(c.nick)), s.Read(ChanCtl(ch));
    || ChanCtl(ch) !in s.kv
    || (u.UserV? && v.ChanV? && ('m' in v.ctl.mode ==> s.Read(ChanNicks(ch, u.user.lease)).NicksV?))
  }

  predicate ChanModeDecodes(s: Store, c: Client, ch: string) {
    var v := s.Read(ChanCtl(ch));
    v.Blank? || (v.ChanV? && s.Read(ChanNicks(ch, c.lease)).NicksV?)
  }

  lemma ReadyReads(s: Store, c: Client, ch: string, text: Option<string>, msg: string, modes: seq<string>,
                   spare: string)
    ensures TopicTxn(s, c, ch, text).Ready? ==> TopicDecodes(s, c, ch, text)
    ensures PrivMsgChanTxn(s, c, ch, msg).Ready? ==> PrivMsgChanDecodes(s, c, ch)
    ensures ChanModeTxn(s, c, ch, modes, spare).Ready? ==> ChanModeDecodes(s, c, ch)
  {
  }

  lemma TopicPath(s: Store, c: Client, ch: string, text: string, f: Flags)
    requires TopicDecodes(s, c, ch, Some(text)) && ChanIn(s.kv, ch).Some? && 't' in ChanIn(s.kv, ch).value.mode
    ensures var me := EntryIn(s.Read(ChanNicks(ch, c.lease)), c.nick);
      TopicFlags(s, c, ch, Some(text), f) ==
        if me.None? then f.(noChan := false, notOnChan := true)
        else f.(noChan := false, notOnChan := false, notOp := !IsOp(me.value))
  {
  }

  /** On a protected topic every flag the reply looks at is assigned. */
  lemma TopicAssigned(s: Store, c: Client, ch: string, text: string, f: Flags)
    requires TopicDecodes(s, c, ch, Some(text)) && ChanIn(s.kv, ch).Some? && 't' in ChanIn(s.kv, ch).value.mode
    ensures TopicReply(Some(text), TopicFlags(s, c, ch, Some(text), f)) ==
            TopicReply(Some(text), TopicFlags(s, c, ch, Some(text), FRESH))
  {
    TopicPath(s, c, ch, text, f);
    TopicPath(s, c, ch, text, FRESH);
  }

  lemma TopicOpen(s: Store, c: Client, ch: string, text: Option<string>, f: Flags)
    requires TopicDecodes(s, c, ch, text) && text.Some? && ChanIn(s.kv, ch).Some? && 't' !in ChanIn(s.kv, ch).value.mode
    ensures f.notOnChan || f.notOp <==>
            TopicReply(text, TopicFlags(s, c, ch, text, f)) != TopicReply(text, TopicFlags(s, c, ch, text, FRESH))
  {
    assert TopicFlags(s, c, ch, text, f) == f.(noChan := false);
    assert TopicFlags(s, c, ch, text, FRESH) == FRESH.(noChan := false);
  }

  lemma TopicAsked(s: Store, c: Client, ch: string, f: Flags)
    requires TopicDecodes(s, c, ch, None) && ChanIn(s.kv, ch).Some? && !f.notOnChan && !f.notOp
    ensures TopicReply(None, TopicFlags(s, c, ch, None, f)) == TopicReply(None, TopicFlags(s, c, ch, None, FRESH))
  {
    var topic := ChanIn(s.kv, ch).value.topic;
    assert TopicFlags(s, c, ch, None, f) == f.(noChan := false, topic := topic);
    assert TopicFlags(s, c, ch, None, FRESH) == FRESH.(noChan := false, topic := topic);
  }

  lemma TopicExact(s: Store, c: Client, ch: string, text: Option<string>, f: Flags)
    requires TopicDecodes(s, c, ch, text) && (text.None? ==> !f.notOnChan && !f.notOp)
    ensures TopicMasked(s, ch, text, f) <==>
            TopicReply(text, TopicFlags(s, c, ch, text, f)) != TopicReply(text, TopicFlags(s, c, ch, text, FRESH))
  {
    if ChanIn(s.kv, ch).None? {
      assert TopicFlags(s, c, ch, text, f).noChan && TopicFlags(s, c, ch, text, FRESH).noChan;
    } else if text.None? {
      TopicAsked(s, c, ch, f);
    } else if 't' in ChanIn(s.kv, ch).value.mode {
      TopicAssigned(s, c, ch, text.value, f);
    } else {
      TopicOpen(s, c, ch, text, f);
    }
  }

  /** The reply, given the one flag an attempt may leave alone. */
  function KickVerdict(s: Store, c: Client, ch: string, target: string, stale: bool): Reply {
    var me := EntryIn(s.Read(ChanNicks(ch, c.lease)), c.nick);
    if me.None? then NotOnChannel
    else if !IsOp(me.value) then (if stale then UserNotInChannel else OpNeeded)
    else if NotThere(s, ch, target) then UserNotInChannel
    else Silent
  }

  predicate KickDecodes(s: Store, c: Client, ch: string) {
    ChanNicks(ch, c.lease) in s.kv ==> s.Read(ChanNicks(ch, c.lease)).NicksV?
  }

  lemma KickAbsent(s: Store, c: Client, ch: string, target: string, f: Flags)
    requires KickDecodes(s, c, ch) && EntryIn(s.Read(ChanNicks(ch, c.lease)), c.nick).None?
    ensures KickFlags(s, c, ch, target, f) == f.(notOnChan := true)
  {
  }

  lemma KickPresent(s: Store, c: Client, ch: string, target: string, f: Flags, me: Member)
    requires KickDecodes(s, c, ch) && EntryIn(s.Read(ChanNicks(ch, c.lease)), c.nick) == Some(me)
    ensures KickFlags(s, c, ch, target, f) ==
      if IsOp(me) then f.(notOnChan := false, notOp := false, userNotOnChan := NotThere(s, ch, target))
      else f.(notOnChan := false, notOp := true)
  {
  }

  lemma KickSettled(s: Store, c: Client, ch: string, target: string, f: Flags)
    requires KickDecodes(s, c, ch)
    ensures KickReply(KickFlags(s, c, ch, target, f)) == KickVerdict(s, c, ch, target, f.userNotOnChan)
  {
    var me := EntryIn(s.Read(ChanNicks(ch, c.lease)), c.nick);
    if me.None? { KickAbsent(s, c, ch, target, f); } else { KickPresent(s, c, ch, target, f, me.value); }
  }

  lemma KickExact(s: Store, c: Client, ch: string, target: string, msg: string, f: Flags)
    requires KickTxn(s, c, ch, target, msg).Ready?
    ensures KickMasked(s, c, ch, f) <==>
            KickReply(KickFlags(s, c, ch, target, f)) != KickReply(KickFlags(s, c, ch, target, FRESH))
  {
    KickSettled(s, c, ch, target, f);
    KickSettled(s, c, ch, target, FRESH);
  }

  lemma PrivMsgChanPath(s: Store, c: Client, ch: string, f: Flags)
    requires PrivMsgChanDecodes(s, c, ch) && ChanCtl(ch) in s.kv && 'm' in s.Read(ChanCtl(ch)).ctl.mode
    ensures var g, k := PrivMsgChanFlags(s, c, ch, f), ChanNicks(ch, s.Read(UserCtl(c.nick)).user.lease);
      var me := EntryIn(s.Read(k), c.nick);
      g.noNick == me.None? && (me.Some? ==> g.noSend == !MaySpeak(me))
  {
  }

  lemma PrivMsgChanAssigned(s: Store, c: Client, ch: string, f: Flags)
    requires PrivMsgChanDecodes(s, c, ch) && ChanIn(s.kv, ch).Some? && 'm' in ChanIn(s.kv, ch).value.mode
    ensures PrivMsgChanReply(PrivMsgChanFlags(s, c, ch, f)) == PrivMsgChanReply(PrivMsgChanFlags(s, c, ch, FRESH))
  {
    PrivMsgChanPath(s, c, ch, f);
    PrivMsgChanPath(s, c, ch, FRESH);
  }

  lemma PrivMsgChanExact(s: Store, c: Client, ch: string, f: Flags)
    requires PrivMsgChanDecodes(s, c, ch)
    ensures PrivMsgChanMasked(s, ch, f) <==>
            PrivMsgChanReply(PrivMsgChanFlags(s, c, ch, f)) != PrivMsgChanReply(PrivMsgChanFlags(s, c, ch, FRESH))
  {
    if ChanIn(s.kv, ch).Some? && 'm' in ChanIn(s.kv, ch).value.mode {
      PrivMsgChanAssigned(s, c, ch, f);
    } else if ChanIn(s.kv, ch).Some? {
      assert PrivMsgChanFlags(s, c, ch, f) == f.(noNick := false);
      assert PrivMsgChanFlags(s, c, ch, FRESH) == FRESH.(noNick := false);
    }
  }

  predicate PrivMsgUserDecodes(s: Store, c: Client, target: string) {
    UserCtl(target) in s.kv ==> s.Read(UserCtl(c.nick)).UserV? && s.Read(UserCtl(target)).UserV?
  }

  /** The reply, given the one flag an attempt may leave alone. */
  function PrivMsgUserVerdict(s: Store, c: Client, target: string, msg: string, stale: bool): Reply
    requires PrivMsgUserDecodes(s, c, target)
  {
    if UserCtl(target) !in s.kv then NoSuchNick
    else
      var u, t := s.Read(UserCtl(c.nick)).user, s.Read(UserCtl(target)).user;
      if 'a' in t.mode || IsOtr(msg) then (if stale then NoText else Silent)
      else if 'E' in u.mode || 'E' in t.mode then NoText
      else Silent
  }

  lemma PrivMsgUserSettled(s: Store, c: Client, target: string, msg: string, f: Flags)
    requires PrivMsgUserDecodes(s, c, target)
    ensures PrivMsgUserReply(PrivMsgUserFlags(s, c, target, msg, f)) == PrivMsgUserVerdict(s, c, target, msg, f.badOtr)
  {
    var u, t := s.Read(UserCtl(c.nick)), s.Read(UserCtl(target));
    if UserCtl(target) in s.kv && ('a' in t.user.mode || IsOtr(msg)) {
      assert PrivMsgUserFlags(s, c, target, msg, f) == f.(noNick := false);
    } else if UserCtl(target) in s.kv {
      PrivMsgUserTested(s, c, target, msg, f);
    }
  }

  lemma PrivMsgUserTested(s: Store, c: Client, target: string, msg: string, f: Flags)
    requires UserCtl(target) in s.kv && s.Read(UserCtl(c.nick)).UserV? && s.Read(UserCtl(target)).UserV?
    requires 'a' !in s.Read(UserCtl(target)).user.mode && !IsOtr(msg)
    ensures var u, t := s.Read(UserCtl(c.nick)).user, s.Read(UserCtl(target)).user;
      PrivMsgUserReply(PrivMsgUserFlags(s, c, target, msg, f)) ==
        if 'E' in u.mode || 'E' in t.mode then NoText else Silent
  {
  }

  lemma PrivMsgUserExact(s: Store, c: Client, target: string, msg: string, f: Flags)
    requires PrivMsgUserDecodes(s, c, target) && (IsOtr(msg) ==> !f.badOtr)
    ensures PrivMsgUserMasked(s, target, f) <==>
            PrivMsgUserReply(PrivMsgUserFlags(s, c, target, msg, f)) !=
            PrivMsgUserReply(PrivMsgUserFlags(s, c, target, msg, FRESH))
  {
    PrivMsgUserSettled(s, c, target, msg, f);
    PrivMsgUserSettled(s, c, target, msg, FRESH);
  }

  /** The reply is settled by what the attempt reads. */
  function ChanModeVerdict(s: Store, c: Client, ch: string, modes: seq<string>, spare: string): Reply
    requires ChanModeDecodes(s, c, ch)
  {
    var v, me := s.Read(ChanCtl(ch)), EntryIn(s.Read(ChanNicks(ch, c.lease)), c.nick);
    if v.Blank? then NoChanModes
    else if me.None? then NotOnChannel
    else if modes == [] then ModeIs(v.ctl.mode, "")
    else if 'o' !in me.value.mode then OpNeeded
    else ModeIs(Modes.Apply(v.ctl.mode, spare, modes, Modes.CHAN_PERMS).mode, "")
  }

  lemma ChanModeSettled(s: Store, c: Client, ch: string, modes: seq<string>, spare: string, f: Flags)
    requires ChanModeDecodes(s, c, ch) && (modes == [] ==> !f.notOp)
    ensures ChanModeReply(ChanModeFlags(s, c, ch, modes, spare, f)) == ChanModeVerdict(s, c, ch, modes, spare)
  {
  }

  lemma ChanModeExact(s: Store, c: Client, ch: string, modes: seq<string>, spare: string, f: Flags)
    requires ChanModeDecodes(s, c, ch) && (modes == [] ==> !f.notOp)
    ensures ChanModeReply(ChanModeFlags(s, c, ch, modes, spare, f)) ==
            ChanModeReply(ChanModeFlags(s, c, ch, modes, spare, FRESH))
  {
    ChanModeSettled(s, c, ch, modes, spare, f);
    ChanModeSettled(s, c, ch, modes, spare, FRESH);
  }

  lemma ReplyFrom(op: Op, c: Client, s: Store, f: Flags)
    requires Plausible(op, f) && TxnOf(op, c, s).Ready?
    ensures Masked(op, c, s, f) <==> ReplyOf(op, FlagsOf(op, c, s, f)) != Verdict(op, c, s)
  {
    match op {
      case Topic(ch, text) =>
        ReadyReads(s, c, ch, text, "", [], "");
        TopicExact(s, c, ch, text, f);
      case Kick(ch, target, msg) => KickExact(s, c, ch, target, msg, f);
      case PrivMsgChan(ch, msg) =>
        ReadyReads(s, c, ch, None, msg, [], "");
        PrivMsgChanExact(s, c, ch, f);
      case PrivMsgUser(target, msg) =>
        assert PrivMsgUserDecodes(s, c, target);
        PrivMsgUserExact(s, c, target, msg, f);
      case ChanMode(ch, modes, spare) =>
        ReadyReads(s, c, ch, None, "", modes, spare);
        ChanModeExact(s, c, ch, modes, spare, f);
      case _ =>
    }
  }

  // ----- stale flags, in terms of the stores the aborted attempts saw

  /** The captured variables that some path of their closure leaves alone. */
  datatype Sticky = NotOnChan | NotOp | BadOtr | NoSend | LoggedIn | TargetAbsent

  function FlagOf(f: Flags, k: Sticky): bool {
    match k
    case NotOnChan => f.notOnChan
    case NotOp => f.notOp
    case BadOtr => f.badOtr
    case NoSend => f.noSend
    case LoggedIn => f.loggedIn
    case TargetAbsent => f.userNotOnChan
  }

  function TopicAssigns(s: Store, c: Client, ch: string, text: Option<string>, k: Sticky): Option<bool> {
    var v, l := s.Read(ChanCtl(ch)), s.Read(ChanNicks(ch, c.lease));
    var me := EntryIn(l, c.nick);
    if text.None? || !v.ChanV? || 't' !in v.ctl.mode || !l.NicksV? then None
    else if k.NotOnChan? then Some(me.None?)
    else if me.None? then None
    else Some(!IsOp(me.value))
  }

  function PrivMsgUserAssigns(s: Store, c: Client, target: string, msg: string): Option<bool> {
    var u, t := s.Read(UserCtl(c.nick)), s.Read(UserCtl(target));
    if !u.UserV? || !t.UserV? || 'a' in t.user.mode || IsOtr(msg) then None
    else Some('E' in u.user.mode || 'E' in t.user.mode)
  }

  function PrivMsgChanAssigns(s: Store, c: Client, ch: string): Option<bool> {
    var u, v := s.Read(UserCtl(c.nick)), s.Read(ChanCtl(ch));
    if !u.UserV? || !v.ChanV? || 'm' !in v.ctl.mode then None
    else
      var me := EntryIn(s.Read(ChanNicks(ch, u.user.lease)), c.nick);
      if me.None? then None else Some(!MaySpeak(me))
  }

  function KickAssigns(s: Store, c: Client, ch: string, target: string): Option<bool> {
    var me := EntryIn(s.Read(ChanNicks(ch, c.lease)), c.nick);
    if me.None? || !IsOp(me.value) then None else Some(NotThere(s, ch, target))
  }

  /** What an attempt on `s` assigns to the flag, if it gets there. */
  function Assigns(op: Op, c: Client, s: Store, k: Sticky): Option<bool> {
    match op
    case Topic(ch, text) => TopicAssigns(s, c, ch, text, k)
    case PrivMsgUser(target, msg) => PrivMsgUserAssigns(s, c, target, msg)
    case PrivMsgChan(ch, _) => PrivMsgChanAssigns(s, c, ch)
    case Oper(login, pass) =>
      if s.Read(UserCtl(c.nick)).UserV? && LogsIn(s, login, pass) then Some(true) else None
    case Kick(ch, target, _) => KickAssigns(s, c, ch, target)
    case _ => None
  }

  /** The flags whose stale values a closure's reply can show. */
  predicate Shows(op: Op, k: Sticky) {
    || (op.Topic? && (k.NotOnChan? || k.NotOp?))
    || (op.PrivMsgUser? && k.BadOtr?)
    || (op.PrivMsgChan? && k.NoSend?)
    || (op.Oper? && k.LoggedIn?)
    || (op.Kick? && k.TargetAbsent?)
  }

  function Overlay(now: Option<bool>, was: bool): bool { if now.Some? then now.value else was }

  /** The attempt consults the nick list. */
  predicate TopicTests(s: Store, c: Client, ch: string, text: Option<string>) {
    var v := s.Read(ChanCtl(ch));
    text.Some? && v.ChanV? && 't' in v.ctl.mode && s.Read(ChanNicks(ch, c.lease)).NicksV?
  }

  lemma TopicSticky(s: Store, c: Client, ch: string, text: Option<string>, f: Flags, k: Sticky)
    requires k.NotOnChan? || k.NotOp?
    ensures FlagOf(TopicFlags(s, c, ch, text, f), k) == Overlay(TopicAssigns(s, c, ch, text, k), FlagOf(f, k))
  {
    if TopicTests(s, c, ch, text) {
      TopicSets(s, c, ch, text.value, f, k);
    } else {
      TopicKeeps(s, c, ch, text, f);
    }
  }

  lemma TopicSets(s: Store, c: Client, ch: string, text: string, f: Flags, k: Sticky)
    requires TopicTests(s, c, ch, Some(text)) && (k.NotOnChan? || k.NotOp?)
    ensures FlagOf(TopicFlags(s, c, ch, Some(text), f), k) ==
            Overlay(TopicAssigns(s, c, ch, Some(text), k), FlagOf(f, k))
  {
    TopicPath(s, c, ch, text, f);
  }

  lemma TopicKeeps(s: Store, c: Client, ch: string, text: Option<string>, f: Flags)
    requires !TopicTests(s, c, ch, text)
    ensures var g := TopicFlags(s, c, ch, text, f);
      g == f.(noChan := true) || g == f.(noChan := false) || g == f.(noChan := false, topic := g.topic)
  {
    var v, g := s.Read(ChanCtl(ch)), TopicFlags(s, c, ch, text, f);
    if ChanCtl(ch) !in s.kv {
      assert g == f.(noChan := true);
    } else if !v.ChanV? {
      assert g == f.(noChan := false);
    } else if text.None? {
      assert g == f.(noChan := false, topic := v.ctl.topic);
    } else {
      assert g == f.(noChan := false);
    }
  }

  lemma PrivMsgUserSticky(s: Store, c: Client, target: string, msg: string, f: Flags)
    ensures PrivMsgUserFlags(s, c, target, msg, f).badOtr == Overlay(PrivMsgUserAssigns(s, c, target, msg), f.badOtr)
  {
    var b := PrivMsgUserAssigns(s, c, target, msg);
    if b.Some? {
      PrivMsgUserSets(s, c, target, msg, f, b.value);
    } else {
      PrivMsgUserKeeps(s, c, target, msg, f);
    }
  }

  lemma PrivMsgUserSets(s: Store, c: Client, target: string, msg: string, f: Flags, b: bool)
    requires PrivMsgUserAssigns(s, c, target, msg) == Some(b)
    ensures PrivMsgUserFlags(s, c, target, msg, f) == f.(noNick := false, badOtr := b)
  {
  }

  lemma PrivMsgUserKeeps(s: Store, c: Client, target: string, msg: string, f: Flags)
    requires PrivMsgUserAssigns(s, c, target, msg).None?
    ensures var g := PrivMsgUserFlags(s, c, target, msg, f); g == f.(noNick := true) || g == f.(noNick := false)
  {
  }

  lemma PrivMsgChanSticky(s: Store, c: Client, ch: string, f: Flags)
    ensures PrivMsgChanFlags(s, c, ch, f).noSend == Overlay(PrivMsgChanAssigns(s, c, ch), f.noSend)
  {
    var b, g := PrivMsgChanAssigns(s, c, ch), PrivMsgChanFlags(s, c, ch, f);
    if b.Some? {
      PrivMsgChanTested(s, c, ch, f, b.value);
    } else {
      PrivMsgChanUntested(s, c, ch, f);
    }
  }

  lemma PrivMsgChanTested(s: Store, c: Client, ch: string, f: Flags, b: bool)
    requires PrivMsgChanAssigns(s, c, ch) == Some(b)
    ensures PrivMsgChanFlags(s, c, ch, f) == f.(noNick := false, noSend := b)
  {
  }

  lemma PrivMsgChanUntested(s: Store, c: Client, ch: string, f: Flags)
    requires PrivMsgChanAssigns(s, c, ch).None?
    ensures var g := PrivMsgChanFlags(s, c, ch, f); g == f.(noNick := true) || g == f.(noNick := false)
  {
  }

  lemma KickSticky(s: Store, c: Client, ch: string, target: string, f: Flags)
    ensures KickFlags(s, c, ch, target, f).userNotOnChan == Overlay(KickAssigns(s, c, ch, target), f.userNotOnChan)
  {
    var me := EntryIn(s.Read(ChanNicks(ch, c.lease)), c.nick);
    if me.Some? {
      KickPresent(s, c, ch, target, f, me.value);
    } else if KickDecodes(s, c, ch) {
      KickAbsent(s, c, ch, target, f);
    } else {
      assert KickFlags(s, c, ch, target, f) == f.(notOnChan := false);
    }
  }

  lemma StickyStep(op: Op, c: Client, s: Store, f: Flags, k: Sticky)
    requires Shows(op, k)
    ensures FlagOf(FlagsOf(op, c, s, f), k) == Overlay(Assigns(op, c, s, k), FlagOf(f, k))
  {
    match op {
      case Topic(ch, text) => TopicSticky(s, c, ch, text, f, k);
      case PrivMsgUser(target, msg) => PrivMsgUserSticky(s, c, target, msg, f);
      case PrivMsgChan(ch, _) => PrivMsgChanSticky(s, c, ch, f);
      case Oper(_, _) =>
      case Kick(ch, target, _) => KickSticky(s, c, ch, target, f);
    }
  }

  /** The last value assigned is true. */
  ghost predicate EndsTrue(vals: seq<Option<bool>>) {
    exists i :: 0 <= i < |vals| && TrueAt(vals, i)
  }

  ghost predicate TrueAt(vals: seq<Option<bool>>, i: nat)
    requires i < |vals|
  {
    vals[i] == Some(true) && forall j :: i < j < |vals| ==> vals[j].None?
  }

  lemma EndsTrueLast(vals: seq<Option<bool>>, v: Option<bool>)
    ensures EndsTrue(vals + [v]) <==> Overlay(v, EndsTrue(vals))
  {
    var all := vals + [v];
    if v == Some(true) {
      assert TrueAt(all, |vals|);
    } else if v.None? && EndsTrue(vals) {
      var i :| 0 <= i < |vals| && TrueAt(vals, i);
      assert TrueAt(all, i);
    }
    if EndsTrue(all) {
      var i :| 0 <= i < |all| && TrueAt(all, i);
      if i < |vals| {
        assert all[|vals|].None?;
        assert TrueAt(vals, i) by { forall j | i < j < |vals| ensures vals[j].None? { assert all[j].None?; } }
      }
    }
  }

  /** What the aborted attempts assign to the flag, in order. */
  function Assigned(op: Op, c: Client, aborted: seq<Store>, k: Sticky): (r: seq<Option<bool>>)
    ensures |r| == |aborted| && forall i :: 0 <= i < |r| ==> r[i] == Assigns(op, c, aborted[i], k)
  {
    seq(|aborted|, i requires 0 <= i < |aborted| => Assigns(op, c, aborted[i], k))
  }

  /** The last of the aborted attempts to assign the flag set it. */
  ghost predicate LeftSet(op: Op, c: Client, aborted: seq<Store>, k: Sticky) {
    EndsTrue(Assigned(op, c, aborted, k))
  }

  /** What makes a leftover flag true, for any aborted attempts. */
  lemma {:induction false} LeftoverExactly(op: Op, c: Client, aborted: seq<Store>, k: Sticky)
    requires Shows(op, k)
    ensures FlagOf(Leftover(op, c, aborted), k) <==> LeftSet(op, c, aborted, k)
  {
    if aborted != [] {
      var n := |aborted| - 1;
      LeftoverExactly(op, c, aborted[..n], k);
      StickyStep(op, c, aborted[n], Leftover(op, c, aborted[..n]), k);
      EndsTrueLast(Assigned(op, c, aborted[..n], k), Assigns(op, c, aborted[n], k));
      assert Assigned(op, c, aborted, k) == Assigned(op, c, aborted[..n], k) + [Assigns(op, c, aborted[n], k)];
    }
  }

  /** The committed attempt takes a path that leaves a flag as the aborted ones set it. */
  ghost predicate Stale(op: Op, c: Client, aborted: seq<Store>, last: Store) {
    match op
    case Topic(ch, text) =>
      && text.Some? && ChanIn(last.kv, ch).Some? && 't' !in ChanIn(last.kv, ch).value.mode
      && (LeftSet(op, c, aborted, NotOnChan) || LeftSet(op, c, aborted, NotOp))
    case PrivMsgChan(ch, _) =>
      && ChanIn(last.kv, ch).Some? && 'm' !in ChanIn(last.kv, ch).value.mode
      && LeftSet(op, c, aborted, NoSend)
    case PrivMsgUser(target, _) =>
      && UserIn(last.kv, target).Some? && 'a' in UserIn(last.kv, target).value.mode
      && LeftSet(op, c, aborted, BadOtr)
    case Oper(login, pass) => !LogsIn(last, login, pass) && LeftSet(op, c, aborted, LoggedIn)
    case Kick(ch, _, _) =>
      var me := EntryIn(last.Read(ChanNicks(ch, c.lease)), c.nick);
      me.Some? && !IsOp(me.value) && LeftSet(op, c, aborted, TargetAbsent)
    case _ => false
  }

  lemma MaskedIsStale(op: Op, c: Client, aborted: seq<Store>, last: Store)
    ensures Masked(op, c, last, Leftover(op, c, aborted)) <==> Stale(op, c, aborted, last)
  {
    match op {
      case Topic(_, _) =>
        LeftoverExactly(op, c, aborted, NotOnChan);
        LeftoverExactly(op, c, aborted, NotOp);
      case PrivMsgChan(_, _) => LeftoverExactly(op, c, aborted, NoSend);
      case PrivMsgUser(_, _) => LeftoverExactly(op, c, aborted, BadOtr);
      case Oper(_, _) => LeftoverExactly(op, c, aborted, LoggedIn);
      case Kick(_, _, _) => LeftoverExactly(op, c, aborted, TargetAbsent);
      case _ =>
    }
  }

  /**
   After any number of aborted attempts on any stores, the reply is the committed attempt's
   verdict alone if and only if those stores and the last one leave no stale flag to show. For
   chanMode, Part, userMode and Join none ever shows.
   */
  lemma ReplyAfterRetries(op: Op, c: Client, aborted: seq<Store>, last: Store)
    requires TxnOf(op, c, last).Ready?
    ensures ReplyOf(op, FlagsOf(op, c, last, Leftover(op, c, aborted))) != Verdict(op, c, last) <==>
            Stale(op, c, aborted, last)
    ensures op.ChanMode? || op.Part? || op.UserMode? || op.Join? ==> !Stale(op, c, aborted, last)
  {
    LeftoverPlausible(op, c, aborted);
    ReplyFrom(op, c, last, Leftover(op, c, aborted));
    MaskedIsStale(op, c, aborted, last);
  }
}
