/**
 Stale replies that the server can give: runs from the empty store in which an attempt loses
 its commit and the retry answers with the lost attempt's flag; and why kick has none.
 */
module Stale {
  import opened Records
  import opened Etcd
  import opened Commands
  import opened Protocol
  import opened Membership
  import opened Runs
  import opened Operators
  import opened Retry

  /** Nothing in `acts` is done by the client or ends its lease. */
  ghost predicate OthersOnly(acts: seq<Action>, c: Client) {
    forall i :: 0 <= i < |acts| ==> ByOthers(acts[i], c)
  }

  predicate ByOthers(a: Action, c: Client) {
    (a.Command? ==> a.c.nick != c.nick) && (a.Expiry? ==> a.lease != c.lease)
  }

  // ----- an operator keeps its place while it waits for its own command

  /** The client heads its server's list of the channel, as its operator. */
  predicate Heads(s: Store, c: Client, ch: string) {
    var list := Members(s.kv, ch, c.lease);
    HeadOp(list) && list[0].nick == c.nick
  }

  lemma HeadSurvivesDel(list: seq<Member>, nick: string)
    requires list != [] && list[0].nick != nick
    ensures DelNick(list, nick) != [] && DelNick(list, nick)[0] == list[0]
  {
  }

  lemma {:induction false} HeadSurvivesDels(list: seq<Member>, nick: string, k: nat)
    requires list != [] && list[0].nick != nick
    ensures DelTimes(list, nick, k) != [] && DelTimes(list, nick, k)[0] == list[0]
  {
    if k > 0 {
      HeadSurvivesDels(list, nick, k - 1);
      HeadSurvivesDel(DelTimes(list, nick, k - 1), nick);
    }
  }

  /** Only a channel's operator can kick, and there is one at most. */
  lemma OthersCannotKick(s: Store, c: Client, other: Client, ch: string, target: string, msg: string)
    requires Inv(s) && Heads(s, c, ch) && other.nick != c.nick
    ensures TxnOf(Kick(ch, target, msg), other, s) == NOTHING
  {
    assert EntryOk(s, ChanNicks(ch, other.lease));
    var list := Members(s.kv, ch, other.lease);
    var me := FindNick(list, other.nick);
    if me.Some? && IsOp(me.value) {
      var i :| 0 <= i < |list| && list[i] == me.value;
      OperatorEntry(s, ch, c.lease, 0);
      assert false;
    }
  }

  lemma LeaveKeepsHead(s: Store, txn: Txn, n: string, x: string, msg: Value, c: Client, ch: string)
    requires Heads(s, c, ch) && txn.Ready? && (n != c.nick || x != ch)
    requires txn == NOTHING || (UserIn(s.kv, n).Some? && Leaves(s, txn.ws, n, x, UserIn(s.kv, n).value, msg))
    ensures Heads(Commit(s, txn.ws), c, ch)
  {
    NothingKeeps(s);
    if txn != NOTHING {
      assert Accepts(s, txn.ws);
      CommitEffect(s, txn.ws);
      LeaveMembers(s, txn.ws, n, x, UserIn(s.kv, n).value, msg, Commit(s, txn.ws), ch, c.lease);
      if n != c.nick { HeadSurvivesDel(Members(s.kv, ch, c.lease), n); }
    }
  }

  lemma OthersKeepHead(s: Store, other: Client, op: Op, c: Client, ch: string)
    requires Inv(s) && Registered(s, other) && other.nick != c.nick && Heads(s, c, ch)
    ensures Heads(Next(s, Command(other, op)), c, ch)
  {
    match op {
      case Join(x) =>
        var u, ctl, me := JoinStages(s, other, x);
        var ws := TxnOf(op, other, s).ws;
        assert Accepts(s, ws);
        CommitEffect(s, ws);
        JoinMembers(s, other, x, ws, u, ctl, me, Commit(s, ws), ch, c.lease);
      case Quit(msg) => QuitKeepsHead(s, other, msg, c, ch);
      case Part(x, msg) =>
        PartStages(s, other, x, msg);
        LeaveKeepsHead(s, TxnOf(op, other, s), other.nick, x, other.Says(PART, [x, msg]), c, ch);
      case Kick(x, target, msg) => KickKeepsHead(s, other, x, target, msg, c, ch);
      case _ =>
        if TxnOf(op, other, s).Ready? {
          var ws := TxnOf(op, other, s).ws;
          QuietOps(s, other, op);
          QuietAccepted(s, ws);
          CommitEffect(s, ws);
          QuietMembers(s, ws, Commit(s, ws), ch, c.lease);
        }
    }
  }

  lemma KickKeepsHead(s: Store, other: Client, x: string, target: string, msg: string, c: Client, ch: string)
    requires Inv(s) && other.nick != c.nick && Heads(s, c, ch)
    ensures Heads(Next(s, Command(other, Kick(x, target, msg))), c, ch)
  {
    if x == ch {
      OthersCannotKick(s, c, other, ch, target, msg);
      NothingKeeps(s);
    } else {
      KickStages(s, other, x, target, msg);
      LeaveKeepsHead(s, TxnOf(Kick(x, target, msg), other, s), target, x, other.Says(KICK, [x, target, msg]), c, ch);
    }
  }

  lemma QuitKeepsHead(s: Store, other: Client, msg: string, c: Client, ch: string)
    requires Inv(s) && Registered(s, other) && other.nick != c.nick && Heads(s, c, ch)
    ensures Heads(Next(s, Command(other, Quit(msg))), c, ch)
  {
    QuitStages(s, other, msg);
    var ws, u := TxnOf(Quit(msg), other, s).ws, UserIn(s.kv, other.nick).value;
    QuitAccepted(s, other, u, msg, ws);
    CommitEffect(s, ws);
    QuitMembers(s, other, u, msg, ws, Commit(s, ws), ch, c.lease);
    HeadSurvivesDels(Members(s.kv, ch, c.lease), other.nick, multiset(u.channels)[ch]);
  }

  lemma HeadStep(s: Store, a: Action, c: Client, ch: string)
    requires Inv(s) && Enabled(s, a) && ByOthers(a, c) && Heads(s, c, ch)
    ensures Heads(Next(s, a), c, ch)
  {
    match a {
      case Command(other, op) => OthersKeepHead(s, other, op, c, ch);
      case Register(other, pinned) => UnlistedWrites(s, RegisterWrites(other, pinned), ch, c.lease);
      case Cleanup(server, k, rev) => CleanupSafe(s, server, k, rev);
      case Expiry(l) => ExpiryExact(s, l);
      case Grant(_) =>
      case SetOper(login, oper) => UnlistedWrites(s, map[OperCtl(login) := Put(OperV(oper), Detach)], ch, c.lease);
    }
  }

  lemma RunNext(s: Store, acts: seq<Action>, m: nat)
    requires m < |acts|
    ensures Run(s, acts[..m + 1]) == Next(Run(s, acts[..m]), acts[m])
  {
    assert acts[..m + 1][..m] == acts[..m];
  }

  lemma HeadNext(s: Store, acts: seq<Action>, m: nat, c: Client, ch: string)
    requires Inv(s) && AllEnabled(s, acts) && m < |acts| && ByOthers(acts[m], c) && Heads(Run(s, acts[..m]), c, ch)
    ensures Heads(Run(s, acts[..m + 1]), c, ch)
  {
    PrefixEnabled(s, acts, m);
    RunKeeps(s, acts[..m]);
    HeadStep(Run(s, acts[..m]), acts[m], c, ch);
    RunNext(s, acts, m);
  }

  lemma {:induction false} HeadStays(s: Store, acts: seq<Action>, n: nat, m: nat, c: Client, ch: string)
    requires Inv(s) && AllEnabled(s, acts) && OthersOnly(acts, c) && n <= m <= |acts| && Heads(Run(s, acts[..n]), c, ch)
    ensures Heads(Run(s, acts[..m]), c, ch)
    decreases m
  {
    if n < m {
      HeadStays(s, acts, n, m - 1, c, ch);
      HeadNext(s, acts, m - 1, c, ch);
    }
  }

  lemma OperatorHeads(s: Store, c: Client, ch: string)
    requires Inv(s)
    ensures var me := EntryIn(s.Read(ChanNicks(ch, c.lease)), c.nick); me.Some? && IsOp(me.value) <==> Heads(s, c, ch)
  {
    assert EntryOk(s, ChanNicks(ch, c.lease));
    var list := Members(s.kv, ch, c.lease);
    var me := FindNick(list, c.nick);
    if me.Some? && IsOp(me.value) {
      var i :| 0 <= i < |list| && list[i] == me.value;
    }
    if Heads(s, c, ch) { OperatorEntry(s, ch, c.lease, 0); }
  }

  /**
   kick's reply is never stale: a connection runs one command at a time, so between the
   attempts of a kick only others act, and they cannot take the operator's place.
   */
  lemma KickNeverStale(s: Store, acts: seq<Action>, at: seq<nat>, aborted: seq<Store>, c: Client, ch: string,
                       target: string, msg: string)
    requires Inv(s) && AllEnabled(s, acts) && OthersOnly(acts, c) && |aborted| == |at|
    requires forall i :: 0 <= i < |at| ==> at[i] <= |acts| && aborted[i] == Run(s, acts[..at[i]])
    ensures !Retry.Stale(Kick(ch, target, msg), c, aborted, Run(s, acts))
  {
    var op, last := Kick(ch, target, msg), Run(s, acts);
    RunKeeps(s, acts);
    OperatorHeads(last, c, ch);
    if LeftSet(op, c, aborted, TargetAbsent) {
      var i :| 0 <= i < |aborted| && TrueAt(Assigned(op, c, aborted, TargetAbsent), i);
      assert KickAssigns(aborted[i], c, ch, target).Some?;
      PrefixEnabled(s, acts, at[i]);
      RunKeeps(s, acts[..at[i]]);
      OperatorHeads(aborted[i], c, ch);
      HeadStays(s, acts, at[i], |acts|, c, ch);
      assert acts[..|acts|] == acts;
    }
  }
}
