/**
 What one attempt of each transaction closure in etcd_client.go does, as functions of the
 store it reads: the writes it stages (or an error), and the captured variables it leaves
 behind for the reply. Captured variables never influence the writes.
 */
module Commands {
  import opened Seqs
  import opened Records
  import opened Etcd
  import Modes

  /** An etcdClient: its nick, user name and the lease of its server's current session. */
  datatype Client = Client(nick: string, user: string, lease: Lease) {
    function Source(): Prefix { Prefix(nick, user, "host") }

    function Says(cmd: Command, params: seq<string>): Value {
      MsgV(Message(Some(Source()), cmd, params))
    }
  }

  datatype Op =
    | Join(ch: string)
    | Part(ch: string, msg: string)
    | Quit(msg: string)
    | Kick(ch: string, target: string, msg: string)
    | ChanMode(ch: string, modes: seq<string>, spare: string)
    | UserMode(modes: seq<string>, spare: string)
    | Oper(login: string, pass: string)
    | Away(msg: string)
    | Topic(ch: string, text: Option<string>)
    | PrivMsgUser(target: string, msg: string)
    | PrivMsgChan(ch: string, msg: string)

  /** The variables the closures capture; none is reset between attempts. */
  datatype Flags = Flags(noChan: bool, notOnChan: bool, notOp: bool, userNotOnChan: bool, noNick: bool,
                         noSend: bool, badOtr: bool, onChannel: bool, loggedIn: bool,
                         topic: string, mode: string, bad: string)

  const FRESH: Flags :=
    Flags(false, false, false, false, false, false, false, false, false, "", "", "")

  datatype Txn = Abort | Ready(ws: Writes)

  const NOTHING: Txn := Ready(map[])

  predicate IsOp(m: Member) { 'o' in m.mode || 'O' in m.mode }

  const OPERATOR: string := "Oo"

  /** The entry `find` gives for a nick in a list, if the list decodes. */
  function EntryIn(v: Value, nick: string): Option<Member> {
    if v.NicksV? then FindNick(v.nicks, nick) else None
  }

  // ----- the writes each closure stages

  function JoinTxn(s: Store, c: Client, ch: string): Txn {
    var u, v, l := s.Read(UserCtl(c.nick)), s.Read(ChanCtl(ch)), s.Read(ChanNicks(ch, c.lease));
    if !u.UserV? || !(v.ChanV? || v.Blank?) || !(l.NicksV? || l.Blank?) then Abort
    else
      var list := if l.NicksV? then l.nicks else [];
      var me := Member(u.user.nick, if ChanCtl(ch) in s.kv then "" else OPERATOR);
      Ready(JoinWrites(c, ch, u.user, if v.ChanV? then v.ctl else Channel(ch, "", ""), list, me))
  }

  function JoinWrites(c: Client, ch: string, u: User, ctl: Channel, list: seq<Member>, me: Member): Writes {
    map[UserCtl(c.nick) := Put(UserV(u.(channels := u.channels + [ch])), Attach(c.lease)),
        ChanCtl(ch) := Put(ChanV(ctl), Detach),
        ChanNicks(ch, c.lease) := Put(NicksV(list + [me]), Attach(c.lease)),
        ChanMsg(ch) := Put(c.Says(JOIN, [ch]), Detach)]
  }

  function PartTxn(s: Store, c: Client, ch: string, msg: string): Txn {
    var u, l := s.Read(UserCtl(c.nick)), s.Read(ChanNicks(ch, c.lease));
    if !u.UserV? then Abort
    else if ch !in u.user.channels then NOTHING
    else if !(l.NicksV? || l.Blank?) then Abort
    else
      Ready(PartWrites(c, ch, msg, u.user.(channels := Without(u.user.channels, ch)), l))
  }

  /** `l` is the server's list, if it has one. */
  function PartWrites(c: Client, ch: string, msg: string, u: User, l: Value): Writes {
    var base := map[UserCtl(c.nick) := Put(UserV(u), Keep), ChanMsg(ch) := Put(c.Says(PART, [ch, msg]), Detach)];
    if l.NicksV? then base[ChanNicks(ch, c.lease) := Put(NicksV(DelNick(l.nicks, c.nick)), Keep)] else base
  }

  function KickTxn(s: Store, c: Client, ch: string, target: string, msg: string): Txn {
    var k := ChanNicks(ch, c.lease);
    var me := EntryIn(s.Read(k), c.nick);
    if k in s.kv && !s.Read(k).NicksV? then Abort
    else if me.None? || !IsOp(me.value) then NOTHING
    else KickTarget(s, c, ch, target, msg)
  }

  /** kick once its caller has passed the operator test. */
  function KickTarget(s: Store, c: Client, ch: string, target: string, msg: string): Txn {
    var u := s.Read(UserCtl(target));
    if UserCtl(target) !in s.kv then NOTHING
    else if !u.UserV? then Abort
    else if ch !in u.user.channels then NOTHING
    else
      var l := s.Read(ChanNicks(ch, u.user.lease));
      if !l.NicksV? then Abort
      else Ready(KickWrites(c, ch, target, msg, u.user.(channels := Without(u.user.channels, ch)),
                            DelNick(l.nicks, target)))
  }

  function KickWrites(c: Client, ch: string, target: string, msg: string, u: User, list: seq<Member>): Writes {
    map[UserCtl(target) := Put(UserV(u), Keep),
        ChanNicks(ch, u.lease) := Put(NicksV(list), Keep),
        ChanMsg(ch) := Put(c.Says(KICK, [ch, target, msg]), Detach)]
  }

  /** One turn of Quit's loop; the list is read through the write set. None is a decode error. */
  function QuitTurn(s: Store, c: Client, ws: Writes, ch: string, msg: string): Option<Writes> {
    var k := ChanNicks(ch, c.lease);
    var users := if k !in ws then s.Read(k) else if ws[k].Put? then ws[k].value else Blank;
    if users.Blank? then Some(ws)
    else if !users.NicksV? then None
    else Some(ws[k := Put(NicksV(DelNick(users.nicks, c.nick)), Keep)][ChanMsg(ch) := Put(c.Says(QUIT, [msg]), Detach)])
  }

  function QuitLoop(s: Store, c: Client, chs: seq<string>, msg: string): Option<Writes> {
    if chs == [] then Some(map[])
    else
      var ws := QuitLoop(s, c, chs[..|chs| - 1], msg);
      if ws.None? then None else QuitTurn(s, c, ws.value, chs[|chs| - 1], msg)
  }

  function QuitTxn(s: Store, c: Client, msg: string): Txn {
    var u := s.Read(UserCtl(c.nick));
    if !u.UserV? then Abort
    else
      var ws := QuitLoop(s, c, u.user.channels, msg);
      if ws.None? then Abort else Ready(ws.value[UserCtl(c.nick) := Del][UserMsg(c.nick) := Del])
  }

  function ChanModeTxn(s: Store, c: Client, ch: string, modes: seq<string>, spare: string): Txn {
    var v, l := s.Read(ChanCtl(ch)), s.Read(ChanNicks(ch, c.lease));
    if v.Blank? then NOTHING
    else if !v.ChanV? || !l.NicksV? then Abort
    else
      var me := EntryIn(l, c.nick);
      if me.None? || modes == [] || 'o' !in me.value.mode then NOTHING
      else
        var up := Modes.Apply(v.ctl.mode, spare, modes, Modes.CHAN_PERMS);
        if up.updated then Ready(map[ChanCtl(ch) := Put(ChanV(v.ctl.(mode := up.mode)), Detach)]) else NOTHING
  }

  function UserModeTxn(s: Store, c: Client, modes: seq<string>, spare: string): Txn {
    var u := s.Read(UserCtl(c.nick));
    if !u.UserV? then Abort
    else
      var up := Modes.Apply(u.user.mode, spare, modes, Modes.USER_PERMS);
      if up.updated then Ready(map[UserCtl(c.nick) := Put(UserV(u.user.(mode := up.mode)), Keep)]) else NOTHING
  }

  /** The operator record matches the password. */
  predicate LogsIn(s: Store, login: string, pass: string) {
    var o := s.Read(OperCtl(login));
    o.OperV? && o.oper.pass == pass
  }

  function OperTxn(s: Store, c: Client, login: string, pass: string): Txn {
    var u, o := s.Read(UserCtl(c.nick)), s.Read(OperCtl(login));
    if !u.UserV? || !(o.OperV? || o.Blank?) then Abort
    else if !LogsIn(s, login, pass) then NOTHING
    else
      var mode := Modes.Add(u.user.mode, if o.oper.global then 'O' else 'o');
      Ready(map[UserCtl(c.nick) := Put(UserV(u.user.(mode := mode)), Keep)])
  }

  function AwayTxn(s: Store, c: Client, msg: string): Txn {
    var u := s.Read(UserCtl(c.nick));
    if !u.UserV? then Abort
    else
      var mode := if msg == "" then Modes.Del(u.user.mode, 'a') else Modes.Add(u.user.mode, 'a');
      Ready(map[UserCtl(c.nick) := Put(UserV(u.user.(mode := mode, awayMsg := msg)), Keep)])
  }

  function TopicTxn(s: Store, c: Client, ch: string, text: Option<string>): Txn {
    var v := s.Read(ChanCtl(ch));
    if ChanCtl(ch) !in s.kv then NOTHING
    else if !v.ChanV? then Abort
    else if text.None? then NOTHING
    else
      var l := s.Read(ChanNicks(ch, c.lease));
      var me := EntryIn(l, c.nick);
      if 't' in v.ctl.mode && !l.NicksV? then Abort
      else if 't' in v.ctl.mode && (me.None? || !IsOp(me.value)) then NOTHING
      else Ready(map[
        ChanCtl(ch) := Put(ChanV(v.ctl.(topic := text.value)), Detach),
        ChanMsg(ch) := Put(c.Says(TOPIC, [ch, text.value]), Detach)])
  }

  predicate IsOtr(msg: string) { "?OTR" <= msg }

  function PrivMsgUserTxn(s: Store, c: Client, target: string, msg: string): Txn {
    var u, t := s.Read(UserCtl(c.nick)), s.Read(UserCtl(target));
    if UserCtl(target) !in s.kv then NOTHING
    else if !u.UserV? || !t.UserV? then Abort
    else if 'a' in t.user.mode then
      Ready(map[UserMsg(c.nick) := Put(c.Says(RPL_AWAY, [c.nick, target, t.user.awayMsg]), Keep)])
    else if !IsOtr(msg) && ('E' in u.user.mode || 'E' in t.user.mode) then NOTHING
    else Ready(map[UserMsg(target) := Put(c.Says(PRIVMSG, [target, msg]), Keep)])
  }

  predicate MaySpeak(m: Option<Member>) { m.Some? && (IsOp(m.value) || 'v' in m.value.mode) }

  function PrivMsgChanTxn(s: Store, c: Client, ch: string, msg: string): Txn {
    var u, v := s.Read(UserCtl(c.nick)), s.Read(ChanCtl(ch));
    if ChanCtl(ch) !in s.kv then NOTHING
    else if !u.UserV? || !v.ChanV? then Abort
    else
      var l := s.Read(ChanNicks(ch, u.user.lease));
      if 'm' in v.ctl.mode && !l.NicksV? then Abort
      else if 'm' in v.ctl.mode && !MaySpeak(EntryIn(l, c.nick)) then NOTHING
      else Ready(map[ChanMsg(ch) := Put(c.Says(PRIVMSG, [ch, msg]), Keep)])
  }

  function TxnOf(op: Op, c: Client, s: Store): Txn {
    match op
    case Join(ch) => JoinTxn(s, c, ch)
    case Part(ch, msg) => PartTxn(s, c, ch, msg)
    case Quit(msg) => QuitTxn(s, c, msg)
    case Kick(ch, target, msg) => KickTxn(s, c, ch, target, msg)
    case ChanMode(ch, modes, spare) => ChanModeTxn(s, c, ch, modes, spare)
    case UserMode(modes, spare) => UserModeTxn(s, c, modes, spare)
    case Oper(login, pass) => OperTxn(s, c, login, pass)
    case Away(msg) => AwayTxn(s, c, msg)
    case Topic(ch, text) => TopicTxn(s, c, ch, text)
    case PrivMsgUser(target, msg) => PrivMsgUserTxn(s, c, target, msg)
    case PrivMsgChan(ch, msg) => PrivMsgChanTxn(s, c, ch, msg)
  }

  // ----- the captured variables each closure assigns

  function JoinFlags(s: Store, c: Client, ch: string, f: Flags): Flags {
    var u, v := s.Read(UserCtl(c.nick)), s.Read(ChanCtl(ch));
    if !u.UserV? || !(v.ChanV? || v.Blank?) then f else f.(topic := if v.ChanV? then v.ctl.topic else "")
  }

  function PartFlags(s: Store, c: Client, ch: string, f: Flags): Flags {
    var u := s.Read(UserCtl(c.nick));
    if u.UserV? then f.(onChannel := ch in u.user.channels) else f
  }

  function KickFlags(s: Store, c: Client, ch: string, target: string, f: Flags): Flags {
    var k := ChanNicks(ch, c.lease);
    var me := EntryIn(s.Read(k), c.nick);
    if k in s.kv && !s.Read(k).NicksV? then f.(notOnChan := false)
    else if me.None? then f.(notOnChan := true)
    else if !IsOp(me.value) then f.(notOnChan := false, notOp := true)
    else f.(notOnChan := false, notOp := false, userNotOnChan := NotThere(s, ch, target))
  }

  predicate NotThere(s: Store, ch: string, target: string) {
    UserCtl(target) !in s.kv || (s.Read(UserCtl(target)).UserV? && ch !in s.Read(UserCtl(target)).user.channels)
  }

  function ChanModeFlags(s: Store, c: Client, ch: string, modes: seq<string>, spare: string, f: Flags): Flags {
    var v, l := s.Read(ChanCtl(ch)), s.Read(ChanNicks(ch, c.lease));
    if v.Blank? then f.(noChan := true)
    else if !v.ChanV? || !l.NicksV? then f.(noChan := false)
    else
      var me := EntryIn(l, c.nick);
      if me.None? then f.(noChan := false, notOnChan := true)
      else if modes == [] then f.(noChan := false, notOnChan := false, mode := v.ctl.mode)
      else if 'o' !in me.value.mode then f.(noChan := false, notOnChan := false, notOp := true)
      else f.(noChan := false, notOnChan := false, notOp := false,
              mode := Modes.Apply(v.ctl.mode, spare, modes, Modes.CHAN_PERMS).mode)
  }

  function UserModeFlags(s: Store, c: Client, modes: seq<string>, spare: string, f: Flags): Flags {
    var u := s.Read(UserCtl(c.nick));
    if !u.UserV? then f
    else
      var up := Modes.Apply(u.user.mode, spare, modes, Modes.USER_PERMS);
      f.(mode := up.mode, bad := up.bad)
  }

  function OperFlags(s: Store, c: Client, login: string, pass: string, f: Flags): Flags {
    if s.Read(UserCtl(c.nick)).UserV? && LogsIn(s, login, pass) then f.(loggedIn := true) else f
  }

  function TopicFlags(s: Store, c: Client, ch: string, text: Option<string>, f: Flags): Flags {
    var v := s.Read(ChanCtl(ch));
    if ChanCtl(ch) !in s.kv then f.(noChan := true)
    else if !v.ChanV? then f.(noChan := false)
    else if text.None? then f.(noChan := false, topic := v.ctl.topic)
    else
      var l := s.Read(ChanNicks(ch, c.lease));
      var me := EntryIn(l, c.nick);
      if 't' !in v.ctl.mode || !l.NicksV? then f.(noChan := false)
      else if me.None? then f.(noChan := false, notOnChan := true)
      else f.(noChan := false, notOnChan := false, notOp := !IsOp(me.value))
  }

  function PrivMsgUserFlags(s: Store, c: Client, target: string, msg: string, f: Flags): Flags {
    var u, t := s.Read(UserCtl(c.nick)), s.Read(UserCtl(target));
    if UserCtl(target) !in s.kv then f.(noNick := true)
    else if !u.UserV? || !t.UserV? || 'a' in t.user.mode || IsOtr(msg) then f.(noNick := false)
    else f.(noNick := false, badOtr := 'E' in u.user.mode || 'E' in t.user.mode)
  }

  function PrivMsgChanFlags(s: Store, c: Client, ch: string, f: Flags): Flags {
    var u, v := s.Read(UserCtl(c.nick)), s.Read(ChanCtl(ch));
    if ChanCtl(ch) !in s.kv then f.(noNick := true)
    else if !u.UserV? || !v.ChanV? || 'm' !in v.ctl.mode then f.(noNick := false)
    else
      var l := s.Read(ChanNicks(ch, u.user.lease));
      var me := EntryIn(l, c.nick);
      if !l.NicksV? then f.(noNick := false)
      else if me.None? then f.(noNick := true)
      else f.(noNick := false, noSend := !MaySpeak(me))
  }

  function FlagsOf(op: Op, c: Client, s: Store, f: Flags): Flags {
    match op
    case Join(ch) => JoinFlags(s, c, ch, f)
    case Part(ch, _) => PartFlags(s, c, ch, f)
    case Quit(_) => f
    case Kick(ch, target, _) => KickFlags(s, c, ch, target, f)
    case ChanMode(ch, modes, spare) => ChanModeFlags(s, c, ch, modes, spare, f)
    case UserMode(modes, spare) => UserModeFlags(s, c, modes, spare, f)
    case Oper(login, pass) => OperFlags(s, c, login, pass, f)
    case Away(_) => f
    case Topic(ch, text) => TopicFlags(s, c, ch, text, f)
    case PrivMsgUser(target, msg) => PrivMsgUserFlags(s, c, target, msg, f)
    case PrivMsgChan(ch, _) => PrivMsgChanFlags(s, c, ch, f)
  }
}
