/**
 From commands to connections: over any run after a join, a channel watcher started at the
 revision after the join delivers exactly what the later steps broadcast to the channel.
 */
module Delivery {
  import opened Seqs
  import opened Records
  import opened Etcd
  import opened Commands
  import opened Protocol
  import opened Membership
  import opened Runs
  import opened Watchers
  import Effects

  /** The watch of one key over the revisions after `rev`. */
  function Watch(log: seq<Revision>, k: Key, rev: nat): seq<Item> {
    if |log| <= rev then []
    else
      var n := |log| - 1;
      Watch(log[..n], k, rev) + (if k in log[n] then [Event(log[n][k])] else [])
  }

  /** What a step broadcasts to the members of a channel. */
  function Broadcast(s: Store, a: Action, ch: string): seq<Message> {
    if a.Command? && TxnOf(a.op, a.c, s).Ready? then
      var ws := TxnOf(a.op, a.c, s).ws;
      if ChanMsg(ch) in ws && ws[ChanMsg(ch)].Put? && ws[ChanMsg(ch)].value.MsgV?
      then [ws[ChanMsg(ch)].value.msg]
      else []
    else []
  }

  function Broadcasts(s: Store, acts: seq<Action>, ch: string): seq<Message> {
    if acts == [] then []
    else
      var n := |acts| - 1;
      Broadcasts(s, acts[..n], ch) + Broadcast(Run(s, acts[..n]), acts[n], ch)
  }

  predicate Departs(nick: string, m: Message) {
    || (m.command == PART && m.prefix.Some? && m.prefix.value.name == nick)
    || (m.command == KICK && |m.params| > 1 && m.params[1] == nick)
  }

  /** Messages the server stores on a channel: signed, and naming the channel when someone leaves. */
  ghost predicate MessageOk(ch: string, m: Message) {
    && m.prefix.Some?
    && (m.command == PART ==> |m.params| > 0 && m.params[0] == ch)
    && (m.command == KICK ==> |m.params| > 1 && m.params[0] == ch)
  }

  function AsItem(m: Message): Item { Event(Set(MsgV(m), 0)) }

  function AsItems(msgs: seq<Message>): (r: seq<Item>)
    ensures |r| == |msgs| && forall i :: 0 <= i < |r| ==> r[i] == AsItem(msgs[i])
  {
    seq(|msgs|, i requires 0 <= i < |msgs| => AsItem(msgs[i]))
  }

  // ----- one step

  lemma StagedMessage(s: Store, c: Client, op: Op, ch: string)
    requires Inv(s) && Registered(s, c) && TxnOf(op, c, s).Ready? && ChanMsg(ch) in TxnOf(op, c, s).ws
    ensures var w := TxnOf(op, c, s).ws[ChanMsg(ch)];
            w.Put? && w.value.MsgV? && MessageOk(ch, w.value.msg) && !w.how.Attach?
  {
    match op {
      case Quit(msg) =>
        QuitStages(s, c, msg);
        assert QuitsAt(s, c, UserIn(s.kv, c.nick).value, msg, TxnOf(op, c, s).ws, ChanMsg(ch));
      case Kick(x, target, msg) => KickStages(s, c, x, target, msg);
      case Part(x, msg) => PartStages(s, c, x, msg);
      case _ =>
    }
  }

  /** A step extends the log by at most one revision, holding exactly what it broadcasts. */
  ghost predicate LogStep(s: Store, t: Store, k: Key, msgs: seq<Message>) {
    if t.log == s.log then msgs == []
    else
      && |t.log| == |s.log| + 1 && t.log[..|s.log|] == s.log
      && (var last := t.log[|s.log|];
          if k in last then |msgs| == 1 && last[k] == Set(MsgV(msgs[0]), 0) else msgs == [])
  }

  lemma CommandLog(s: Store, c: Client, op: Op, ch: string)
    requires Inv(s) && Registered(s, c)
    ensures LogStep(s, Next(s, Command(c, op)), ChanMsg(ch), Broadcast(s, Command(c, op), ch))
  {
    if TxnOf(op, c, s).Ready? {
      var ws := TxnOf(op, c, s).ws;
      NeverRefused(s, c, op);
      if ChanMsg(ch) in ws { StagedMessage(s, c, op, ch); }
      assert EntryOk(s, ChanMsg(ch));
      CommitLog(s, ws, ChanMsg(ch));
    }
  }

  lemma CommitLog(s: Store, ws: Writes, k: Key)
    requires Accepts(s, ws) && k.ChanMsg?
    requires k in ws ==> ws[k].Put? && ws[k].value.MsgV? && !ws[k].how.Attach?
    requires k in s.kv ==> s.kv[k].lease == 0
    ensures LogStep(s, Commit(s, ws), k, if k in ws then [ws[k].value.msg] else [])
  {
    var changes := ChangesOf(s, ws);
    if k in ws { assert k in changes; }
    assert (s.log + [changes])[..|s.log|] == s.log;
  }

  lemma StepLog(s: Store, a: Action, ch: string)
    requires Inv(s) && Enabled(s, a)
    ensures LogStep(s, Next(s, a), ChanMsg(ch), Broadcast(s, a, ch))
  {
    var k := ChanMsg(ch);
    assert EntryOk(s, k);
    match a {
      case Command(c, op) => CommandLog(s, c, op, ch);
      case Register(c, pinned) =>
        if Accepts(s, RegisterWrites(c, pinned)) { CommitLog(s, RegisterWrites(c, pinned), k); }
      case Cleanup(_, x, _) => CommitLog(s, map[x := Del], k);
      case SetOper(login, oper) => CommitLog(s, map[OperCtl(login) := Put(OperV(oper), Detach)], k);
      case Grant(_) =>
      case Expiry(l) =>
        LeaseOwns(s, l, k);
        var changes: Revision := map x | x in s.kv && s.kv[x].lease == l :: Gone;
        assert k !in changes;
        assert (s.log + [changes])[..|s.log|] == s.log;
    }
  }

  // ----- whole runs

  lemma WatchStep(s: Store, t: Store, k: Key, rev: nat, msgs: seq<Message>)
    requires LogStep(s, t, k, msgs) && rev <= s.Rev()
    ensures Watch(t.log, k, rev) == Watch(s.log, k, rev) + AsItems(msgs)
  {
    if t.log == s.log {
      assert AsItems(msgs) == [];
    } else {
      var last := t.log[|s.log|];
      if k in last {
        assert AsItems(msgs) == [Event(last[k])];
      } else {
        assert AsItems(msgs) == [];
      }
    }
  }

  /** The watch from the revision after `s` sees the broadcasts of the run, one event each, in order. */
  lemma {:induction false} WatchIsBroadcasts(s: Store, acts: seq<Action>, ch: string)
    requires Inv(s) && AllEnabled(s, acts)
    ensures Watch(Run(s, acts).log, ChanMsg(ch), s.Rev()) == AsItems(Broadcasts(s, acts, ch))
    ensures s.Rev() <= Run(s, acts).Rev()
    ensures forall i :: 0 <= i < |Broadcasts(s, acts, ch)| ==> MessageOk(ch, Broadcasts(s, acts, ch)[i])
  {
    if acts != [] {
      var n := |acts| - 1;
      var before := Run(s, acts[..n]);
      PrefixEnabled(s, acts, n);
      WatchIsBroadcasts(s, acts[..n], ch);
      RunKeeps(s, acts[..n]);
      StepBroadcast(before, acts[n], ch, s.Rev());
      assert AsItems(Broadcasts(s, acts, ch)) ==
             AsItems(Broadcasts(s, acts[..n], ch)) + AsItems(Broadcast(before, acts[n], ch));
    }
  }

  lemma StepBroadcast(s: Store, a: Action, ch: string, rev: nat)
    requires Inv(s) && Enabled(s, a) && rev <= s.Rev()
    ensures Watch(Next(s, a).log, ChanMsg(ch), rev) == Watch(s.log, ChanMsg(ch), rev) + AsItems(Broadcast(s, a, ch))
    ensures s.Rev() <= Next(s, a).Rev()
    ensures forall m :: m in Broadcast(s, a, ch) ==> MessageOk(ch, m)
  {
    StepLog(s, a, ch);
    WatchStep(s, Next(s, a), ChanMsg(ch), rev, Broadcast(s, a, ch));
    if Broadcast(s, a, ch) != [] { StagedMessage(s, a.c, a.op, ch); }
  }

  // ----- what the connection gets

  lemma MessageEnds(nick: string, ch: string, m: Message)
    requires MessageOk(ch, m)
    ensures Ends(nick, AsItem(m)) == if Departs(nick, m) then Some(Left(ch)) else None
    ensures Sends(nick, AsItem(m)) == if OwnPrivMsg(nick, m) then None else Some(m)
  {
  }

  lemma {:induction false} SentIsFilter(nick: string, ch: string, msgs: seq<Message>)
    requires forall i :: 0 <= i < |msgs| ==> MessageOk(ch, msgs[i])
    ensures AllSent(nick, AsItems(msgs)) == Filter(msgs, m => !OwnPrivMsg(nick, m))
  {
    if msgs != [] {
      assert AsItems(msgs)[1..] == AsItems(msgs[1..]);
      SentIsFilter(nick, ch, msgs[1..]);
      MessageEnds(nick, ch, msgs[0]);
    }
  }

  /**
   A client joins at the commit that led to `s` and watches the channel from the next revision.
   Over any later run the watcher never fails or panics; it delivers, in order, every broadcast
   up to and including the first PART or KICK of its own nick, minus its own PRIVMSGs, and stops
   exactly there, or at a message its connection does not take. Nothing between the commit and
   the start of the watch is lost.
   */
  lemma NothingLost(s: Store, acts: seq<Action>, ch: string, nick: string, n: nat, end: Outcome)
    requires Inv(s) && AllEnabled(s, acts)
    requires Handled(nick, Watch(Run(s, acts).log, ChanMsg(ch), s.Rev()), n, end)
    ensures Heard(nick, ch, Broadcasts(s, acts, ch), n, end)
    ensures Delivered(nick, Watch(Run(s, acts).log, ChanMsg(ch), s.Rev()), n, end) ==
            Filter(Broadcasts(s, acts, ch)[..if end == Unsent then n - 1 else n], m => !OwnPrivMsg(nick, m))
  {
    WatchIsBroadcasts(s, acts, ch);
    HandledMessages(nick, ch, Broadcasts(s, acts, ch), n, end);
  }

  /** The watcher handled the first `n` of the messages. */
  ghost predicate Heard(nick: string, ch: string, msgs: seq<Message>, n: nat, end: Outcome) {
    && n <= |msgs|
    && (forall i :: 0 <= i < n - 1 ==> !Departs(nick, msgs[i]))
    && match end
       case Drained => n == |msgs| && (n > 0 ==> !Departs(nick, msgs[n - 1]))
       case Unsent => n > 0 && !OwnPrivMsg(nick, msgs[n - 1])
       case _ => end == Left(ch) && n > 0 && Departs(nick, msgs[n - 1])
  }

  lemma HandledMessages(nick: string, ch: string, msgs: seq<Message>, n: nat, end: Outcome)
    requires forall i :: 0 <= i < |msgs| ==> MessageOk(ch, msgs[i])
    requires Handled(nick, AsItems(msgs), n, end)
    ensures Heard(nick, ch, msgs, n, end)
    ensures Delivered(nick, AsItems(msgs), n, end) ==
            Filter(msgs[..if end == Unsent then n - 1 else n], m => !OwnPrivMsg(nick, m))
  {
    var m := if end == Unsent then n - 1 else n;
    assert AsItems(msgs)[..m] == AsItems(msgs[..m]);
    SentIsFilter(nick, ch, msgs[..m]);
    forall i | 0 <= i < |msgs|
      ensures Ends(nick, AsItems(msgs)[i]) == if Departs(nick, msgs[i]) then Some(Left(ch)) else None
      ensures Sends(nick, AsItems(msgs)[i]) == if OwnPrivMsg(nick, msgs[i]) then None else Some(msgs[i])
    {
      MessageEnds(nick, ch, msgs[i]);
    }
  }

  // ----- the same, with every test written out

  /** Everything but PRIVMSGs under the nick, in order. */
  function ExceptOwn(msgs: seq<Message>, nick: string): seq<Message> {
    if msgs == [] then []
    else
      var m := msgs[0];
      (if m.command == PRIVMSG && m.prefix.Some? && m.prefix.value.name == nick then [] else [m]) +
        ExceptOwn(msgs[1..], nick)
  }

  lemma {:induction false} FilterIsExceptOwn(msgs: seq<Message>, nick: string, keep: Message -> bool)
    requires forall m :: keep(m) == !OwnPrivMsg(nick, m)
    ensures Filter(msgs, keep) == ExceptOwn(msgs, nick)
  {
    if msgs != [] { FilterIsExceptOwn(msgs[1..], nick, keep); }
  }

  lemma {:induction false} ExceptOwnCounts(msgs: seq<Message>, nick: string, m: Message)
    ensures multiset(ExceptOwn(msgs, nick))[m] ==
      if m.command == PRIVMSG && m.prefix.Some? && m.prefix.value.name == nick then 0 else multiset(msgs)[m]
  {
    if msgs != [] {
      ExceptOwnCounts(msgs[1..], nick, m);
      assert msgs == [msgs[0]] + msgs[1..];
    }
  }

  /** A PART under the nick, or a KICK of it. */
  predicate Takes(nick: string, m: Message) {
    if m.command == PART then m.prefix.Some? && m.prefix.value.name == nick
    else m.command == KICK && |m.params| >= 2 && m.params[1] == nick
  }

  lemma DeliveredIsExceptOwn(s: Store, acts: seq<Action>, ch: string, nick: string, n: nat, end: Outcome)
    requires Inv(s) && AllEnabled(s, acts)
    requires Handled(nick, Watch(Run(s, acts).log, ChanMsg(ch), s.Rev()), n, end)
    ensures n <= |Broadcasts(s, acts, ch)| && (end == Unsent ==> n > 0)
    ensures Delivered(nick, Watch(Run(s, acts).log, ChanMsg(ch), s.Rev()), n, end) ==
            ExceptOwn(Broadcasts(s, acts, ch)[..if end == Unsent then n - 1 else n], nick)
  {
    NothingLost(s, acts, ch, nick, n, end);
    var keep: Message -> bool := m => !OwnPrivMsg(nick, m);
    var msgs := Broadcasts(s, acts, ch)[..if end == Unsent then n - 1 else n];
    FilterIsExceptOwn(msgs, nick, keep);
    SameFilter(msgs, nick, keep);
  }

  lemma {:induction false} SameFilter(msgs: seq<Message>, nick: string, keep: Message -> bool)
    requires forall m :: keep(m) == !OwnPrivMsg(nick, m)
    ensures Filter(msgs, m => !OwnPrivMsg(nick, m)) == Filter(msgs, keep)
  {
    if msgs != [] { SameFilter(msgs[1..], nick, keep); }
  }

  /**
   Over any run after a join, with `n` messages handled: each broadcast among the first of them goes
   out as often and in the order it was made, except PRIVMSGs under the client's own nick, which
   never go out. The watcher leaves exactly at a PART under its own nick or a KICK of it, which is
   the last message it handles, and before which there is none.
   */
  lemma DeliveredExactly(s: Store, acts: seq<Action>, ch: string, nick: string, n: nat, end: Outcome, m: Message)
    requires Inv(s) && AllEnabled(s, acts)
    requires Handled(nick, Watch(Run(s, acts).log, ChanMsg(ch), s.Rev()), n, end)
    ensures var msgs := Broadcasts(s, acts, ch);
      var out := Delivered(nick, Watch(Run(s, acts).log, ChanMsg(ch), s.Rev()), n, end);
      && n <= |msgs| && (end == Unsent ==> n > 0) && (end == Drained ==> n == |msgs|)
      && multiset(out)[m] == (if m.command == PRIVMSG && m.prefix.Some? && m.prefix.value.name == nick then 0
                              else multiset(msgs[..if end == Unsent then n - 1 else n])[m])
      && (end.Left? <==> n > 0 && end != Unsent && Takes(nick, msgs[n - 1]))
      && (forall i :: 0 <= i < n - 1 ==> !Takes(nick, msgs[i]))
  {
    NothingLost(s, acts, ch, nick, n, end);
    DeliveredIsExceptOwn(s, acts, ch, nick, n, end);
    WatchIsBroadcasts(s, acts, ch);
    var msgs := Broadcasts(s, acts, ch);
    ExceptOwnCounts(msgs[..if end == Unsent then n - 1 else n], nick, m);
    forall i | 0 <= i < n ensures Takes(nick, msgs[i]) <==> Departs(nick, msgs[i]) { assert MessageOk(ch, msgs[i]); }
  }

  /** The watcher on such a run, down to what is written to the connection. */
  method Follow(conn: Connection, s: Store, acts: seq<Action>, ch: string, resps: seq<Response>)
    returns (end: Outcome, ghost n: nat)
    requires Inv(s) && AllEnabled(s, acts) && Flatten(resps) == Watch(Run(s, acts).log, ChanMsg(ch), s.Rev())
    modifies conn
    ensures var msgs := Broadcasts(s, acts, ch);
      && n <= |msgs| && (end == Unsent ==> n > 0) && (end == Drained ==> n == |msgs|)
      && conn.Wrote(ExceptOwn(msgs[..if end == Unsent then n - 1 else n], conn.nick))
      && (end.Left? <==> n > 0 && end != Unsent && Takes(conn.nick, msgs[n - 1]))
      && (forall i :: 0 <= i < n - 1 ==> !Takes(conn.nick, msgs[i]))
      && (end == Unsent ==> conn.room == 0)
  {
    end, n := conn.MonitorMsg(resps);
    DeliveredIsExceptOwn(s, acts, ch, conn.nick, n, end);
    DeliveredExactly(s, acts, ch, conn.nick, n, end, SERVER);
  }

  // ----- from one speaker to another member

  lemma {:induction false} BroadcastKept(s: Store, acts: seq<Action>, ch: string, i: nat, m: Message)
    requires i < |acts| && m in Broadcast(Run(s, acts[..i]), acts[i], ch)
    ensures m in Broadcasts(s, acts, ch)
  {
    var n := |acts| - 1;
    if i < n {
      assert acts[..n][..i] == acts[..i];
      BroadcastKept(s, acts[..n], ch, i, m);
    }
  }

  /**
   If a registered client speaks on the channel at step `i` of the run, where it may, then another
   member's connection that has handled everything has been sent exactly those words.
   */
  lemma Overheard(s: Store, acts: seq<Action>, ch: string, nick: string, n: nat, i: nat, c: Client, text: string)
    requires Inv(s) && AllEnabled(s, acts)
    requires i < |acts| && acts[i] == Command(c, PrivMsgChan(ch, text)) && c.nick != nick
    requires Handled(nick, Watch(Run(s, acts).log, ChanMsg(ch), s.Rev()), n, Drained)
    requires var b := Run(s, acts[..i]);
      ChanIn(b.kv, ch).Some? && ('m' in ChanIn(b.kv, ch).value.mode ==> Effects.IsOperator(b, c, ch))
    ensures Message(Some(Prefix(c.nick, c.user, "host")), PRIVMSG, [ch, text]) in
            Delivered(nick, Watch(Run(s, acts).log, ChanMsg(ch), s.Rev()), n, Drained)
  {
    var m := Message(Some(Prefix(c.nick, c.user, "host")), PRIVMSG, [ch, text]);
    PrefixEnabled(s, acts, i);
    RunKeeps(s, acts[..i]);
    SpokenIsBroadcast(Run(s, acts[..i]), c, ch, text);
    BroadcastKept(s, acts, ch, i, m);
    DeliveredExactly(s, acts, ch, nick, n, Drained, m);
    var msgs := Broadcasts(s, acts, ch);
    assert msgs[..n] == msgs;
    assert m in multiset(msgs);
    assert m in multiset(Delivered(nick, Watch(Run(s, acts).log, ChanMsg(ch), s.Rev()), n, Drained));
  }

  lemma SpokenIsBroadcast(s: Store, c: Client, ch: string, text: string)
    requires Inv(s) && Registered(s, c)
    requires ChanIn(s.kv, ch).Some? && ('m' in ChanIn(s.kv, ch).value.mode ==> Effects.IsOperator(s, c, ch))
    ensures Broadcast(s, Command(c, PrivMsgChan(ch, text)), ch) ==
            [Message(Some(Prefix(c.nick, c.user, "host")), PRIVMSG, [ch, text])]
  {
    Effects.EntryMeans(s, c, ch);
    assert EntryOk(s, ChanCtl(ch)) && EntryOk(s, ChanNicks(ch, c.lease)) && EntryOk(s, UserCtl(c.nick));
    if 'm' in ChanIn(s.kv, ch).value.mode { assert s.Read(ChanNicks(ch, c.lease)).NicksV?; }
  }
}
