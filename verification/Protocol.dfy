/**
 The server as a state machine over the store: client commands, registration, the
 compare-and-delete of empty nick lists, lease grant and expiry, and the
 administrator's operator records. `Inv` is what every run keeps.
 */
module Protocol {
  import opened Seqs
  import opened Records
  import opened Etcd
  import opened Commands

  datatype Action =
    | Grant(lease: Lease)
    | Register(c: Client, pinned: string)
    | Command(c: Client, op: Op)
    | Cleanup(server: Lease, k: Key, rev: nat)
    | Expiry(lease: Lease)
    | SetOper(login: string, oper: OperValue)

  predicate Registered(s: Store, c: Client) {
    && UserCtl(c.nick) in s.kv
    && s.kv[UserCtl(c.nick)].value.UserV?
    && s.kv[UserCtl(c.nick)].value.user.lease == c.lease
  }

  /** A watcher of server `server` has seen revision `rev` store an empty list under its own lease. */
  predicate SawEmptyList(s: Store, server: Lease, k: Key, rev: nat) {
    && k.ChanNicks?
    && 1 <= rev <= s.Rev()
    && k in s.log[rev - 1]
    && s.log[rev - 1][k] == Set(NicksV([]), server)
  }

  ghost predicate PinnedOk(pinned: string) {
    NoDup(pinned) && 'a' !in pinned && 'o' !in pinned && 'O' !in pinned
  }

  /** The hypotheses under which a step may happen. */
  ghost predicate Enabled(s: Store, a: Action) {
    match a
    case Grant(l) => l != 0
    case Register(c, pinned) => PinnedOk(pinned)
    case Command(c, _) => Registered(s, c)
    case Cleanup(server, k, rev) => SawEmptyList(s, server, k, rev)
    case Expiry(l) => l in s.leases
    case SetOper(_, _) => true
  }

  function RegisterWrites(c: Client, pinned: string): Writes {
    map[UserCtl(c.nick) := Put(UserV(User(c.nick, c.user, "", "", pinned, [], "", c.lease)), Attach(c.lease)),
        UserMsg(c.nick) := Put(Blank, Attach(c.lease))]
  }

  function Next(s: Store, a: Action): Store {
    match a
    case Grant(l) => s.(leases := s.leases + {l})
    case Register(c, pinned) =>
      if UserCtl(c.nick) in s.kv then s else Commit(s, RegisterWrites(c, pinned))
    case Command(c, op) =>
      var txn := TxnOf(op, c, s);
      if txn.Abort? then s else Commit(s, txn.ws)
    case Cleanup(_, k, rev) =>
      if k in s.kv && s.kv[k].mod == rev then Commit(s, map[k := Del]) else s
    case Expiry(l) => Expire(s, l)
    case SetOper(login, oper) => Commit(s, map[OperCtl(login) := Put(OperV(oper), Detach)])
  }

  function Run(s: Store, acts: seq<Action>): Store {
    if acts == [] then s else Next(Run(s, acts[..|acts| - 1]), acts[|acts| - 1])
  }

  ghost predicate AllEnabled(s: Store, acts: seq<Action>) {
    forall i :: 0 <= i < |acts| ==> Enabled(Run(s, acts[..i]), acts[i])
  }

  // ----- views of the records

  function Members(kv: Kv, ch: string, l: Lease): seq<Member> {
    var k := ChanNicks(ch, l);
    if k in kv && kv[k].value.NicksV? then kv[k].value.nicks else []
  }

  function UserIn(kv: Kv, n: string): Option<User> {
    var k := UserCtl(n);
    if k in kv && kv[k].value.UserV? then Some(kv[k].value.user) else None
  }

  function ChanIn(kv: Kv, ch: string): Option<Channel> {
    var k := ChanCtl(ch);
    if k in kv && kv[k].value.ChanV? then Some(kv[k].value.ctl) else None
  }

  /** How often the record of `n` claims channel `ch` on lease `l`. */
  function Claims(kv: Kv, n: string, ch: string, l: Lease): nat {
    var u := UserIn(kv, n);
    if u.Some? && u.value.lease == l then multiset(u.value.channels)[ch] else 0
  }

  // ----- invariant

  /** The list of lease `l` holds `n` exactly as often as the record of `n` claims. */
  ghost predicate AgreeAt(kv: Kv, n: string, ch: string, l: Lease) {
    Entries(Members(kv, ch, l), n) == Claims(kv, n, ch, l)
  }

  /** The two records of membership agree, entry for entry, on every lease. */
  ghost predicate Agreement(kv: Kv) {
    forall n, ch, l :: AgreeAt(kv, n, ch, l)
  }

  ghost predicate UserOk(u: User) {
    NoDup(u.mode) && ('a' in u.mode ==> u.awayMsg != "")
  }

  /** Only the head of a list may be an operator, with `o` and `O` together and never `v`. */
  ghost predicate OpShape(list: seq<Member>) {
    forall i :: 0 <= i < |list| ==> list[i].mode == "" || (i == 0 && list[i].mode == OPERATOR)
  }

  predicate HeadOp(list: seq<Member>) { list != [] && list[0].mode == OPERATOR }

  ghost predicate SoleAt(kv: Kv, ch: string, l1: Lease, l2: Lease) {
    HeadOp(Members(kv, ch, l1)) && HeadOp(Members(kv, ch, l2)) ==> l1 == l2
  }

  /** At most one lease's list of a channel is headed by an operator. */
  ghost predicate SoleOperator(kv: Kv) {
    forall ch, l1, l2 :: SoleAt(kv, ch, l1, l2)
  }

  /** The record under `k`, if any, has the right kind, lease and companions. */
  ghost predicate EntryOk(s: Store, k: Key) {
    k in s.kv ==>
      var e := s.kv[k];
      match k
      case UserCtl(n) =>
        && e.value.UserV? && e.value.user.nick == n && UserOk(e.value.user)
        && e.lease == e.value.user.lease && e.lease in s.leases
        && UserMsg(n) in s.kv
      case UserMsg(n) => UserCtl(n) in s.kv && s.kv[UserCtl(n)].lease == e.lease
      case ChanCtl(ch) =>
        && e.value.ChanV? && e.value.ctl.name == ch && NoDup(e.value.ctl.mode)
        && e.lease == 0 && ChanMsg(ch) in s.kv
      case ChanMsg(ch) => e.value.MsgV? && e.lease == 0 && ChanCtl(ch) in s.kv
      case ChanNicks(ch, l) =>
        && e.value.NicksV? && OpShape(e.value.nicks)
        && e.lease == l && l in s.leases && ChanCtl(ch) in s.kv
      case OperCtl(_) => e.value.OperV? && e.lease == 0
  }

  ghost predicate WellKeyed(s: Store) {
    0 !in s.leases && forall k :: EntryOk(s, k)
  }

  ghost predicate Inv(s: Store) {
    WellKeyed(s) && Agreement(s.kv) && SoleOperator(s.kv) && Faithful(s)
  }

  // ----- effect of a commit

  function LeaseFor(s: Store, k: Key, how: LeaseOption): Lease {
    match how
    case Attach(l) => l
    case Keep => if k in s.kv then s.kv[k].lease else 0
    case Detach => 0
  }

  /** What `ws` did to key `k`. */
  ghost predicate WroteAt(s: Store, ws: Writes, t: Store, k: Key) {
    if k !in ws then (k in t.kv <==> k in s.kv) && (k in s.kv ==> t.kv[k] == s.kv[k])
    else if ws[k].Del? then k !in t.kv
    else k in t.kv && t.kv[k] == Entry(ws[k].value, LeaseFor(s, k, ws[k].how), s.Rev() + 1)
  }

  ghost predicate Wrote(s: Store, ws: Writes, t: Store) {
    t.leases == s.leases && forall k :: WroteAt(s, ws, t, k)
  }

  lemma CommitEffect(s: Store, ws: Writes)
    requires Accepts(s, ws)
    ensures Wrote(s, ws, Commit(s, ws))
    ensures Faithful(s) ==> Faithful(Commit(s, ws))
  {
    var changes := ChangesOf(s, ws);
    if Faithful(s) {
      AdvanceFaithful(s, changes);
    }
    forall k ensures WroteAt(s, ws, Commit(s, ws), k) {
      if changes == map[] { assert k !in changes; }
    }
  }
}
