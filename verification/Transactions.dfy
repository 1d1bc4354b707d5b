/**
 The transaction closures of etcd_client.go as code over an STM object with a read set and
 a write set, each proved against its specification in `Commands`, and the retry loop.
 */
module Transactions {
  import opened Seqs
  import opened Records
  import opened Etcd
  import opened Commands
  import Modes

  /** Every stored key has a non-zero mod-revision. */
  ghost predicate Stamped(s: Store) { forall k :: k in s.kv ==> s.kv[k].mod > 0 }

  /**
   One attempt: reads go to the snapshot unless the attempt has written the key. `rset` is
   what it has read so far, prefetched keys included; its commit validates exactly these.
   */
  class Stm {
    const snap: Store
    var rset: set<Key>
    var wset: Writes

    constructor (snap: Store, prefetch: set<Key>)
      ensures this.snap == snap && rset == prefetch && wset == map[]
    {
      this.snap, rset, wset := snap, prefetch, map[];
    }

    method Get(k: Key) returns (v: Value)
      modifies this`rset
      ensures v == if k !in wset then snap.Read(k) else if wset[k].Put? then wset[k].value else Blank
      ensures rset == if k in wset then old(rset) else old(rset) + {k}
    {
      if k in wset {
        return if wset[k].Put? then wset[k].value else Blank;
      }
      v := snap.Read(k);
      rset := rset + {k};
    }

    /** Rev looks at the snapshot even for a key this attempt has written, and so reads it. */
    method Rev(k: Key) returns (rev: nat)
      modifies this`rset
      ensures rset == old(rset) + {k}
      ensures rev == if k in snap.kv then snap.kv[k].mod else 0
    {
      rset := rset + {k};
      rev := if k in snap.kv then snap.kv[k].mod else 0;
    }

    method Put(k: Key, v: Value, how: LeaseOption)
      modifies this`wset
      ensures wset == old(wset)[k := Write.Put(v, how)]
    {
      wset := wset[k := Write.Put(v, how)];
    }

    method Del(k: Key)
      modifies this`wset
      ensures wset == old(wset)[k := Write.Del]
    {
      wset := wset[k := Write.Del];
    }
  }

  /** The keys doSTM prefetches for an operation. */
  function Prefetch(op: Op, c: Client): set<Key> {
    match op
    case Join(ch) => {UserCtl(c.nick), ChanCtl(ch), ChanNicks(ch, c.lease)}
    case Part(ch, _) => {UserCtl(c.nick), ChanNicks(ch, c.lease)}
    case Quit(_) => {UserCtl(c.nick)}
    case Kick(ch, target, _) => {UserCtl(target), ChanNicks(ch, c.lease)}
    case ChanMode(ch, _, _) => {ChanCtl(ch), ChanNicks(ch, c.lease)}
    case UserMode(_, _) => {UserCtl(c.nick)}
    case Oper(login, _) => {UserCtl(c.nick), OperCtl(login)}
    case Away(_) => {UserCtl(c.nick)}
    case Topic(ch, _) => {ChanCtl(ch)}
    case PrivMsgUser(target, _) => {UserCtl(target), UserCtl(c.nick)}
    case PrivMsgChan(ch, _) => {ChanCtl(ch), UserCtl(c.nick)}
  }

  // The nick lists an attempt reads beyond its prefetched keys, unless it fails first.

  function QuitReads(c: Client, chs: seq<string>): set<Key> { set ch | ch in chs :: ChanNicks(ch, c.lease) }

  function TargetReads(s: Store, ch: string, target: string): set<Key> {
    var u := s.Read(UserCtl(target));
    if u.UserV? && ch in u.user.channels then {ChanNicks(ch, u.user.lease)} else {}
  }

  /** kick looks at the target's list only after the operator and on-channel tests. */
  function KickReads(s: Store, c: Client, ch: string, target: string): set<Key> {
    var me := EntryIn(s.Read(ChanNicks(ch, c.lease)), c.nick);
    if me.Some? && IsOp(me.value) then TargetReads(s, ch, target) else {}
  }

  /** Topic looks at a list only to set a protected topic. */
  function TopicReads(s: Store, c: Client, ch: string, text: Option<string>): set<Key> {
    var v := s.Read(ChanCtl(ch));
    if text.Some? && v.ChanV? && 't' in v.ctl.mode then {ChanNicks(ch, c.lease)} else {}
  }

  /** A message looks at a list only on a moderated channel. */
  function SpeakReads(s: Store, c: Client, ch: string): set<Key> {
    var u, v := s.Read(UserCtl(c.nick)), s.Read(ChanCtl(ch));
    if u.UserV? && v.ChanV? && 'm' in v.ctl.mode then {ChanNicks(ch, u.user.lease)} else {}
  }

  function LateReads(op: Op, c: Client, s: Store): set<Key> {
    match op
    case Quit(_) =>
      var u := s.Read(UserCtl(c.nick));
      if u.UserV? then QuitReads(c, u.user.channels) else {}
    case Kick(ch, target, _) => KickReads(s, c, ch, target)
    case Topic(ch, text) => TopicReads(s, c, ch, text)
    case PrivMsgChan(ch, _) => SpeakReads(s, c, ch)
    case _ => {}
  }

  function ReadSet(op: Op, c: Client, s: Store): set<Key> { Prefetch(op, c) + LateReads(op, c, s) }

  function Staged(ok: bool, ws: Writes): Txn { if ok then Ready(ws) else Abort }

  ghost predicate Start(stm: Stm, op: Op, c: Client)
    reads stm
  {
    stm.wset == map[] && stm.rset == Prefetch(op, c) && Stamped(stm.snap)
  }

  // ----- records decoded into objects, edited and read back

  method FindIn(list: seq<Member>, nick: string) returns (r: Option<Member>)
    ensures r == FindNick(list, nick)
  {
    var cns := new ChannelNicks(list);
    r := cns.Find(nick);
  }

  /** The caller's entry in a list, unless the list does not decode. */
  method EntryOf(stm: Stm, k: Key, nick: string) returns (ok: bool, n: Option<Member>)
    requires k !in stm.wset
    modifies stm`rset
    ensures stm.rset == old(stm.rset) + {k}
    ensures ok <==> stm.snap.Read(k).NicksV?
    ensures n == EntryIn(stm.snap.Read(k), nick)
  {
    var l := stm.Get(k);
    ok, n := l.NicksV?, None;
    if ok {
      n := FindIn(l.nicks, nick);
    }
  }

  method DelFrom(list: seq<Member>, nick: string) returns (r: seq<Member>)
    ensures r == DelNick(list, nick)
  {
    var cns := new ChannelNicks(list);
    var _ := cns.Del(nick);
    r := cns.nicks;
  }

  method PartFrom(u: User, ch: string) returns (r: User, found: bool)
    ensures r == u.(channels := Without(u.channels, ch))
    ensures found <==> ch in u.channels
  {
    var uv := new UserValue(u);
    found := uv.Part(ch);
    r := uv.uv;
  }

  method UpdateMode(mode: string, spare: string, modes: seq<string>, mp: Modes.Perms) returns (up: Modes.Update)
    ensures up == Modes.Apply(mode, spare, modes, mp)
  {
    var bytes := mode + spare;
    var arr := new char[|bytes|](i requires 0 <= i < |bytes| => bytes[i]);
    assert arr[..] == bytes && arr[..|mode|] == mode && arr[|mode|..] == spare;
    var mv := Modes.Slice(arr, |mode|);
    var ret, bad, updated := Modes.UpdateSlice(mv, modes, mp);
    up := Modes.Update.Update(ret.arr[..ret.len], bad, updated);
  }

  // ----- the closures

  method JoinBody(stm: Stm, c: Client, ch: string, f0: Flags) returns (ok: bool, f: Flags)
    requires Start(stm, Join(ch), c)
    modifies stm
    ensures Staged(ok, stm.wset) == JoinTxn(stm.snap, c, ch)
    ensures ok ==> stm.rset == old(stm.rset)
    ensures f == JoinFlags(stm.snap, c, ch, f0)
  {
    f := f0;
    var uv := stm.Get(UserCtl(c.nick));
    if !uv.UserV? { return false, f; }
    stm.Put(UserCtl(c.nick), UserV(uv.user.(channels := uv.user.channels + [ch])), Attach(c.lease));

    var chv := Channel(ch, "", "");
    var v := stm.Get(ChanCtl(ch));
    if !v.Blank? {
      if !v.ChanV? { return false, f; }
      chv := v.ctl;
    }
    f := f.(topic := chv.topic);
    stm.Put(ChanCtl(ch), ChanV(chv), Detach);

    var list;
    ok, list := ListOf(stm, ChanNicks(ch, c.lease));
    if !ok { return false, f; }
    var cn := NewEntry(stm, ch, uv.user.nick);
    stm.Put(ChanNicks(ch, c.lease), NicksV(list + [cn]), Attach(c.lease));
    stm.Put(ChanMsg(ch), c.Says(JOIN, [ch]), Detach);
  }

  /** A nick list that may be missing. */
  method ListOf(stm: Stm, k: Key) returns (ok: bool, list: seq<Member>)
    requires k !in stm.wset && k in stm.rset
    modifies stm`rset
    ensures stm.rset == old(stm.rset)
    ensures var l := stm.snap.Read(k); (ok <==> l.NicksV? || l.Blank?) && list == if l.NicksV? then l.nicks else []
  {
    var l := stm.Get(k);
    ok, list := l.NicksV? || l.Blank?, if l.NicksV? then l.nicks else [];
  }

  /** The first user of a channel has ops and owner status. */
  method NewEntry(stm: Stm, ch: string, nick: string) returns (cn: Member)
    requires ChanCtl(ch) in stm.rset && Stamped(stm.snap)
    modifies stm`rset
    ensures stm.rset == old(stm.rset)
    ensures cn == Member(nick, if ChanCtl(ch) in stm.snap.kv then "" else OPERATOR)
  {
    cn := Member(nick, "");
    var rev := stm.Rev(ChanCtl(ch));
    if rev == 0 {
      cn := cn.(mode := Modes.Add(cn.mode, 'O'));
      cn := cn.(mode := Modes.Add(cn.mode, 'o'));
      assert cn.mode == OPERATOR;
    }
  }

  method PartBody(stm: Stm, c: Client, ch: string, msg: string, f0: Flags) returns (ok: bool, f: Flags)
    requires Start(stm, Part(ch, msg), c)
    modifies stm
    ensures Staged(ok, stm.wset) == PartTxn(stm.snap, c, ch, msg)
    ensures ok ==> stm.rset == old(stm.rset)
    ensures f == PartFlags(stm.snap, c, ch, f0)
  {
    f, ok := f0, true;
    var v := stm.Get(UserCtl(c.nick));
    if !v.UserV? {
      ok := false;
    } else {
      var uv, on := PartFrom(v.user, ch);
      f := f.(onChannel := on);
      if on {
        ok := PartOut(stm, c, uv, ch, msg);
      }
    }
  }

  /** The second half of Part, once the channel is off the user's record. */
  method PartOut(stm: Stm, c: Client, uv: User, ch: string, msg: string) returns (ok: bool)
    requires stm.wset == map[] && ChanNicks(ch, c.lease) in stm.rset
    modifies stm
    ensures stm.rset == old(stm.rset)
    ensures var l := stm.snap.Read(ChanNicks(ch, c.lease));
      && (ok <==> l.NicksV? || l.Blank?)
      && (ok ==> stm.wset == PartWrites(c, ch, msg, uv, l))
  {
    stm.Put(UserCtl(c.nick), UserV(uv), Keep);
    ok := LeaveList(stm, ChanNicks(ch, c.lease), c.nick);
    if ok {
      stm.Put(ChanMsg(ch), c.Says(PART, [ch, msg]), Detach);
      assert stm.wset == PartWrites(c, ch, msg, uv, stm.snap.Read(ChanNicks(ch, c.lease)));
    }
  }

  /** Removes a nick from its server's list, if there is one. */
  method LeaveList(stm: Stm, k: Key, nick: string) returns (ok: bool)
    requires k !in stm.wset && k in stm.rset
    modifies stm
    ensures stm.rset == old(stm.rset)
    ensures var l := stm.snap.Read(k);
      && (ok <==> l.NicksV? || l.Blank?)
      && stm.wset == if l.NicksV? then old(stm.wset)[k := Put(NicksV(DelNick(l.nicks, nick)), Keep)] else old(stm.wset)
  {
    var l := stm.Get(k);
    if l.NicksV? {
      var cn := DelFrom(l.nicks, nick);
      stm.Put(k, NicksV(cn), Keep);
    }
    ok := l.NicksV? || l.Blank?;
  }

  method KickBody(stm: Stm, c: Client, ch: string, target: string, msg: string, f0: Flags) returns (ok: bool, f: Flags)
    requires Start(stm, Kick(ch, target, msg), c)
    modifies stm
    ensures Staged(ok, stm.wset) == KickTxn(stm.snap, c, ch, target, msg)
    ensures ok ==> stm.rset == old(stm.rset) + KickReads(stm.snap, c, ch, target)
    ensures f == KickFlags(stm.snap, c, ch, target, f0)
  {
    var rev := stm.Rev(ChanNicks(ch, c.lease));
    if rev == 0 {
      return true, f0.(notOnChan := true);
    }
    var n;
    ok, n := EntryOf(stm, ChanNicks(ch, c.lease), c.nick);
    assert stm.rset == old(stm.rset);
    if !ok || n.None? {
      f := f0.(notOnChan := ok);
    } else {
      ok, f := KickAs(stm, c, n.value, ch, target, msg, f0.(notOnChan := false));
    }
  }

  /** kick from the operator test on. */
  method KickAs(stm: Stm, c: Client, n: Member, ch: string, target: string, msg: string, f0: Flags)
    returns (ok: bool, f: Flags)
    requires Start(stm, Kick(ch, target, msg), c)
    modifies stm
    ensures Staged(ok, stm.wset) == if IsOp(n) then KickTarget(stm.snap, c, ch, target, msg) else NOTHING
    ensures ok ==> stm.rset == old(stm.rset) + if IsOp(n) then TargetReads(stm.snap, ch, target) else {}
    ensures f == if IsOp(n) then f0.(notOp := false, userNotOnChan := NotThere(stm.snap, ch, target))
                 else f0.(notOp := true)
  {
    ok := true;
    f := f0.(notOp := 'o' !in n.mode && 'O' !in n.mode);
    if !f.notOp {
      ok, f := KickOut(stm, c, ch, target, msg, f);
    }
  }

  /** The second half of kick, once the caller is known to be an operator. */
  method KickOut(stm: Stm, c: Client, ch: string, target: string, msg: string, f0: Flags) returns (ok: bool, f: Flags)
    requires Start(stm, Kick(ch, target, msg), c)
    modifies stm
    ensures Staged(ok, stm.wset) == KickTarget(stm.snap, c, ch, target, msg)
    ensures ok ==> stm.rset == old(stm.rset) + TargetReads(stm.snap, ch, target)
    ensures f == f0.(userNotOnChan := NotThere(stm.snap, ch, target))
  {
    ok := true;
    var rev := stm.Rev(UserCtl(target));
    var userNotOnChan := rev == 0;
    if !userNotOnChan {
      var v := stm.Get(UserCtl(target));
      if !v.UserV? {
        ok := false;
      } else {
        var uv, on := PartFrom(v.user, ch);
        userNotOnChan := !on;
        if on {
          ok := KickFrom(stm, c, uv, ch, target, msg);
        }
      }
    }
    f := f0.(userNotOnChan := userNotOnChan);
  }

  /** The writes of kick, once the channel is off the target's record. */
  method KickFrom(stm: Stm, c: Client, uv: User, ch: string, target: string, msg: string) returns (ok: bool)
    requires stm.wset == map[]
    modifies stm
    ensures stm.rset == old(stm.rset) + {ChanNicks(ch, uv.lease)}
    ensures var l := stm.snap.Read(ChanNicks(ch, uv.lease));
      (ok <==> l.NicksV?) && (ok ==> stm.wset == KickWrites(c, ch, target, msg, uv, DelNick(l.nicks, target)))
  {
    stm.Put(UserCtl(target), UserV(uv), Keep);
    var cnKey := ChanNicks(ch, uv.lease);
    var tl := stm.Get(cnKey);
    ok := tl.NicksV?;
    if ok {
      var cn := DelFrom(tl.nicks, target);
      stm.Put(cnKey, NicksV(cn), Keep);
      stm.Put(ChanMsg(ch), c.Says(KICK, [ch, target, msg]), Detach);
      assert stm.wset == KickWrites(c, ch, target, msg, uv, cn);
    }
  }

  method ChanModeBody(stm: Stm, c: Client, ch: string, modes: seq<string>, spare: string, f0: Flags)
    returns (ok: bool, f: Flags)
    requires Start(stm, ChanMode(ch, modes, spare), c)
    modifies stm
    ensures Staged(ok, stm.wset) == ChanModeTxn(stm.snap, c, ch, modes, spare)
    ensures ok ==> stm.rset == old(stm.rset)
    ensures f == ChanModeFlags(stm.snap, c, ch, modes, spare, f0)
  {
    ok := true;
    var notOnChan, notOp, mode := f0.notOnChan, f0.notOp, f0.mode;
    var cv := stm.Get(ChanCtl(ch));
    var noChan := cv.Blank?;
    if !noChan {
      var l := stm.Get(ChanNicks(ch, c.lease));
      ok := cv.ChanV? && l.NicksV?;
      if ok {
        var n := FindIn(l.nicks, c.nick);
        notOnChan := n.None?;
        if !notOnChan {
          if |modes| > 0 {
            notOp := 'o' !in n.value.mode;
            if !notOp {
              var up := UpdateMode(cv.ctl.mode, spare, modes, Modes.CHAN_PERMS);
              mode := up.mode;
              if up.updated {
                stm.Put(ChanCtl(ch), ChanV(cv.ctl.(mode := up.mode)), Detach);
                assert stm.wset == map[ChanCtl(ch) := Put(ChanV(cv.ctl.(mode := up.mode)), Detach)];
              }
            }
          } else {
            mode := cv.ctl.mode;
          }
        }
      }
    }
    f := f0.(noChan := noChan, notOnChan := notOnChan, notOp := notOp, mode := mode);
  }

  method UserModeBody(stm: Stm, c: Client, modes: seq<string>, spare: string, f0: Flags) returns (ok: bool, f: Flags)
    requires Start(stm, UserMode(modes, spare), c)
    modifies stm
    ensures Staged(ok, stm.wset) == UserModeTxn(stm.snap, c, modes, spare)
    ensures ok ==> stm.rset == old(stm.rset)
    ensures f == UserModeFlags(stm.snap, c, modes, spare, f0)
  {
    f := f0;
    var v := stm.Get(UserCtl(c.nick));
    if !v.UserV? { return false, f; }
    var up := UpdateMode(v.user.mode, spare, modes, Modes.USER_PERMS);
    f := f.(mode := up.mode, bad := up.bad);
    if up.updated {
      stm.Put(UserCtl(c.nick), UserV(v.user.(mode := up.mode)), Keep);
    }
    ok := true;
  }

  method OperBody(stm: Stm, c: Client, login: string, pass: string, f0: Flags) returns (ok: bool, f: Flags)
    requires Start(stm, Oper(login, pass), c)
    modifies stm
    ensures Staged(ok, stm.wset) == OperTxn(stm.snap, c, login, pass)
    ensures ok ==> stm.rset == old(stm.rset)
    ensures f == OperFlags(stm.snap, c, login, pass, f0)
  {
    f := f0;
    var v := stm.Get(UserCtl(c.nick));
    if !v.UserV? { return false, f; }
    var ov := stm.Get(OperCtl(login));
    if ov.Blank? { return true, f; }
    if !ov.OperV? { return false, f; }
    if ov.oper.pass != pass { return true, f; }
    f := f.(loggedIn := true);
    var uv := v.user;
    if ov.oper.global {
      uv := uv.(mode := Modes.Add(uv.mode, 'O'));
    } else {
      uv := uv.(mode := Modes.Add(uv.mode, 'o'));
    }
    stm.Put(UserCtl(c.nick), UserV(uv), Keep);
    ok := true;
  }

  method AwayBody(stm: Stm, c: Client, msg: string, f0: Flags) returns (ok: bool, f: Flags)
    requires Start(stm, Away(msg), c)
    modifies stm
    ensures Staged(ok, stm.wset) == AwayTxn(stm.snap, c, msg)
    ensures ok ==> stm.rset == old(stm.rset)
    ensures f == f0
  {
    f := f0;
    var v := stm.Get(UserCtl(c.nick));
    if !v.UserV? { return false, f; }
    var uv := v.user;
    if msg == "" {
      uv := uv.(mode := Modes.Del(uv.mode, 'a'));
    } else {
      uv := uv.(mode := Modes.Add(uv.mode, 'a'));
    }
    uv := uv.(awayMsg := msg);
    stm.Put(UserCtl(c.nick), UserV(uv), Keep);
    ok := true;
  }

  method TopicBody(stm: Stm, c: Client, ch: string, text: Option<string>, f0: Flags) returns (ok: bool, f: Flags)
    requires Start(stm, Topic(ch, text), c)
    modifies stm
    ensures Staged(ok, stm.wset) == TopicTxn(stm.snap, c, ch, text)
    ensures ok ==> stm.rset == old(stm.rset) + TopicReads(stm.snap, c, ch, text)
    ensures f == TopicFlags(stm.snap, c, ch, text, f0)
  {
    ok := true;
    var topic, notOnChan, notOp := f0.topic, f0.notOnChan, f0.notOp;
    var rev := stm.Rev(ChanCtl(ch));
    var noChan := rev == 0;
    if !noChan {
      var v := stm.Get(ChanCtl(ch));
      if !v.ChanV? {
        ok := false;
      } else if text.None? {
        topic := v.ctl.topic;
      } else {
        var allowed := true;
        if 't' in v.ctl.mode {
          var n;
          ok, n := EntryOf(stm, ChanNicks(ch, c.lease), c.nick);
          allowed := n.Some? && ('o' in n.value.mode || 'O' in n.value.mode);
          notOnChan := if ok then n.None? else notOnChan;
          notOp := if n.Some? then !allowed else notOp;
        }
        if allowed {
          stm.Put(ChanCtl(ch), ChanV(v.ctl.(topic := text.value)), Detach);
          stm.Put(ChanMsg(ch), c.Says(TOPIC, [ch, text.value]), Detach);
          assert stm.wset == map[ChanCtl(ch) := Put(ChanV(v.ctl.(topic := text.value)), Detach),
                                 ChanMsg(ch) := Put(c.Says(TOPIC, [ch, text.value]), Detach)];
        }
      }
    }
    f := f0.(noChan := noChan, notOnChan := notOnChan, notOp := notOp, topic := topic);
  }

  method PrivMsgUserBody(stm: Stm, c: Client, target: string, msg: string, f0: Flags) returns (ok: bool, f: Flags)
    requires Start(stm, PrivMsgUser(target, msg), c)
    modifies stm
    ensures Staged(ok, stm.wset) == PrivMsgUserTxn(stm.snap, c, target, msg)
    ensures ok ==> stm.rset == old(stm.rset)
    ensures f == PrivMsgUserFlags(stm.snap, c, target, msg, f0)
  {
    ok := true;
    var badOtr := f0.badOtr;
    var rev := stm.Rev(UserCtl(target));
    if rev == 0 {
      return true, f0.(noNick := true);
    }
    var uv := stm.Get(UserCtl(c.nick));
    var t := stm.Get(UserCtl(target));
    if !uv.UserV? || !t.UserV? {
      return false, f0.(noNick := false);
    }
    if 'a' in t.user.mode {
      stm.Put(UserMsg(c.nick), c.Says(RPL_AWAY, [c.nick, target, t.user.awayMsg]), Keep);
    } else {
      if !IsOtr(msg) {
        badOtr := 'E' in uv.user.mode || 'E' in t.user.mode;
      }
      if IsOtr(msg) || !badOtr {
        stm.Put(UserMsg(target), c.Says(PRIVMSG, [target, msg]), Keep);
      }
    }
    f := f0.(noNick := false, badOtr := badOtr);
  }

  method PrivMsgChanBody(stm: Stm, c: Client, ch: string, msg: string, f0: Flags) returns (ok: bool, f: Flags)
    requires Start(stm, PrivMsgChan(ch, msg), c)
    modifies stm
    ensures Staged(ok, stm.wset) == PrivMsgChanTxn(stm.snap, c, ch, msg)
    ensures ok ==> stm.rset == old(stm.rset) + SpeakReads(stm.snap, c, ch)
    ensures f == PrivMsgChanFlags(stm.snap, c, ch, f0)
  {
    var rev := stm.Rev(ChanCtl(ch));
    if rev == 0 {
      return true, f0.(noNick := true);
    }
    var uv := stm.Get(UserCtl(c.nick));
    var v := stm.Get(ChanCtl(ch));
    if !uv.UserV? || !v.ChanV? {
      return false, f0.(noNick := false);
    }
    if 'm' in v.ctl.mode {
      ok, f := Moderated(stm, c, ChanNicks(ch, uv.user.lease), ch, msg, f0);
    } else {
      Speak(stm, c, ch, msg);
      ok, f := true, f0.(noNick := false);
    }
  }

  function Spoken(c: Client, ch: string, msg: string): Writes {
    map[ChanMsg(ch) := Put(c.Says(PRIVMSG, [ch, msg]), Keep)]
  }

  method Speak(stm: Stm, c: Client, ch: string, msg: string)
    requires stm.wset == map[]
    modifies stm`wset
    ensures stm.wset == Spoken(c, ch, msg)
  {
    stm.Put(ChanMsg(ch), c.Says(PRIVMSG, [ch, msg]), Keep);
    assert stm.wset == Spoken(c, ch, msg);
  }

  /** A message to a moderated channel; `k` is the list of the sender's own lease. */
  method Moderated(stm: Stm, c: Client, k: Key, ch: string, msg: string, f0: Flags) returns (ok: bool, f: Flags)
    requires stm.wset == map[]
    modifies stm
    ensures stm.rset == old(stm.rset) + {k}
    ensures var l := stm.snap.Read(k); var me := EntryIn(l, c.nick);
      && (ok <==> l.NicksV?)
      && stm.wset == (if MaySpeak(me) then Spoken(c, ch, msg) else map[])
      && f == if !ok then f0.(noNick := false) else if me.None? then f0.(noNick := true)
              else f0.(noNick := false, noSend := !MaySpeak(me))
  {
    var n;
    ok, n := EntryOf(stm, k, c.nick);
    if !ok || n.None? {
      return ok, f0.(noNick := ok);
    }
    f := f0.(noNick := false, noSend := 'o' !in n.value.mode && 'O' !in n.value.mode && 'v' !in n.value.mode);
    if !f.noSend {
      Speak(stm, c, ch, msg);
    }
  }

  // ----- Quit: a loop that reads its own writes

  method QuitBody(stm: Stm, c: Client, msg: string, f0: Flags) returns (ok: bool, f: Flags)
    requires Start(stm, Quit(msg), c)
    modifies stm
    ensures Staged(ok, stm.wset) == QuitTxn(stm.snap, c, msg)
    ensures ok ==> stm.rset == ReadSet(Quit(msg), c, stm.snap)
    ensures f == f0
  {
    f := f0;
    var v := stm.Get(UserCtl(c.nick));
    if !v.UserV? { return false, f; }
    var chs := v.user.channels;
    for i := 0 to |chs|
      invariant QuitLoop(stm.snap, c, chs[..i], msg) == Some(stm.wset)
      invariant stm.rset == {UserCtl(c.nick)} + QuitReads(c, chs[..i])
      invariant forall k :: k in stm.wset && k.ChanNicks? ==> k in stm.rset
    {
      assert chs[..i + 1][..i] == chs[..i];
      assert QuitReads(c, chs[..i + 1]) == QuitReads(c, chs[..i]) + {ChanNicks(chs[i], c.lease)};
      ok := QuitChannel(stm, c, chs[i], msg);
      if !ok {
        LoopFails(stm.snap, c, chs, i + 1, msg);
        return false, f;
      }
    }
    assert chs[..|chs|] == chs;
    stm.Del(UserCtl(c.nick));
    stm.Del(UserMsg(c.nick));
    ok := true;
  }

  /** One turn of Quit's loop: the list may be one that an earlier turn has already edited. */
  method QuitChannel(stm: Stm, c: Client, ch: string, msg: string) returns (ok: bool)
    modifies stm
    ensures QuitTurn(stm.snap, c, old(stm.wset), ch, msg) == if ok then Some(stm.wset) else None
    ensures ok ==> forall k :: k in stm.wset && k.ChanNicks? ==> k in old(stm.wset) || k == ChanNicks(ch, c.lease)
    ensures stm.rset ==
            if ChanNicks(ch, c.lease) in old(stm.wset) then old(stm.rset) else old(stm.rset) + {ChanNicks(ch, c.lease)}
  {
    var chNicks := ChanNicks(ch, c.lease);
    var users := stm.Get(chNicks);
    if users.Blank? { return true; }
    if !users.NicksV? { return false; }
    var cns := DelFrom(users.nicks, c.nick);
    stm.Put(chNicks, NicksV(cns), Keep);
    stm.Put(ChanMsg(ch), c.Says(QUIT, [msg]), Detach);
    ok := true;
  }

  /** A decode error in an early turn is the outcome of the whole loop. */
  lemma {:induction false} LoopFails(s: Store, c: Client, chs: seq<string>, i: nat, msg: string)
    requires i <= |chs| && QuitLoop(s, c, chs[..i], msg).None?
    ensures QuitLoop(s, c, chs, msg).None?
    decreases |chs| - i
  {
    if i == |chs| {
      assert chs[..i] == chs;
    } else {
      assert chs[..i + 1][..i] == chs[..i];
      LoopFails(s, c, chs, i + 1, msg);
    }
  }
}
