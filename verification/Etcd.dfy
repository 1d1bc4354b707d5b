/**
 The etcd store as the server sees it: typed keys, each with a lease attachment
 and a mod-revision, over a revision log. The log holds, per revision, what that
 transaction changed; a read at a past revision replays a prefix of it.
 */
module Etcd {
  import opened Records

  /** The keys of key.go. */
  datatype Key =
    | UserCtl(nick: string)
    | UserMsg(nick: string)
    | ChanCtl(ch: string)
    | ChanMsg(ch: string)
    | ChanNicks(ch: string, id: Lease)
    | OperCtl(login: string)

  /** The names a prefix scan of a channel meets: its own, and those that continue it after a '/'. */
  predicate Under(ch: string, x: string) { ch + "/" <= x + "/" }

  /** A decoded value; `Blank` is the empty string, which no codec decodes. */
  datatype Value = UserV(user: User) | ChanV(ctl: Channel) | NicksV(nicks: seq<Member>)
                 | MsgV(msg: Message) | OperV(oper: OperValue) | Blank

  datatype Entry = Entry(value: Value, lease: Lease, mod: nat)

  datatype Change = Set(value: Value, lease: Lease) | Gone

  type Kv = map<Key, Entry>

  type Revision = map<Key, Change>

  datatype Store = Store(kv: Kv, log: seq<Revision>, leases: set<Lease>) {
    function Rev(): nat { |log| }

    /** stm.Get of a key that this transaction has not written. */
    function Read(k: Key): Value { if k in kv then kv[k].value else Blank }
  }

  const EMPTY: Store := Store(map[], [], {})

  // ----- transactions

  datatype LeaseOption = Attach(lease: Lease) | Keep | Detach

  datatype Write = Put(value: Value, how: LeaseOption) | Del

  type Writes = map<Key, Write>

  function Patch(kv: Kv, changes: Revision, rev: nat): Kv {
    map k | k in kv.Keys + changes.Keys && (k in changes ==> changes[k].Set?) ::
      if k in changes then Entry(changes[k].value, changes[k].lease, rev) else kv[k]
  }

  /** etcd refuses a put that attaches a dead lease, or that keeps the lease of a missing key. */
  predicate Accepts(s: Store, ws: Writes) {
    forall k :: k in ws && ws[k].Put? ==>
      && (ws[k].how.Attach? ==> ws[k].how.lease in s.leases)
      && (ws[k].how.Keep? ==> k in s.kv)
  }

  function Resolve(s: Store, k: Key, w: Write): Change {
    match w
    case Del => Gone
    case Put(v, Attach(l)) => Set(v, l)
    case Put(v, Keep) => Set(v, if k in s.kv then s.kv[k].lease else 0)
    case Put(v, Detach) => Set(v, 0)
  }

  /** Deleting a missing key is not a change. */
  function ChangesOf(s: Store, ws: Writes): Revision {
    map k | k in ws && (ws[k].Put? || k in s.kv) :: Resolve(s, k, ws[k])
  }

  function Advance(s: Store, changes: Revision): Store {
    if changes == map[] then s
    else s.(kv := Patch(s.kv, changes, |s.log| + 1), log := s.log + [changes])
  }

  function Commit(s: Store, ws: Writes): Store {
    if Accepts(s, ws) then Advance(s, ChangesOf(s, ws)) else s
  }

  /** Lease expiry removes every key attached to the lease, in one revision. */
  function Expire(s: Store, l: Lease): Store {
    Advance(s, map k | k in s.kv && s.kv[k].lease == l :: Gone).(leases := s.leases - {l})
  }

  // ----- history

  function Replay(log: seq<Revision>): Kv {
    if log == [] then map[]
    else Patch(Replay(log[..|log| - 1]), log[|log| - 1], |log|)
  }

  /** The records as of revision `rev`. */
  function At(s: Store, rev: nat): Kv
    requires rev <= s.Rev()
  {
    Replay(s.log[..rev])
  }

  /** A key has the same record, or none, in both stores. */
  ghost predicate SameAt(s: Store, t: Store, k: Key) {
    (k in s.kv <==> k in t.kv) && (k in s.kv ==> s.kv[k] == t.kv[k])
  }

  ghost predicate Faithful(s: Store) { s.kv == Replay(s.log) }

  ghost predicate Extends(s: Store, t: Store) { s.log <= t.log }

  lemma AdvanceFaithful(s: Store, changes: Revision)
    requires Faithful(s)
    ensures Faithful(Advance(s, changes))
    ensures Extends(s, Advance(s, changes))
  {
    assert (s.log + [changes])[..|s.log|] == s.log;
  }

  /** An entry is exactly what its mod-revision logged for that key. */
  lemma {:induction false} ModNamesEntry(log: seq<Revision>, k: Key)
    requires k in Replay(log)
    ensures var e := Replay(log)[k];
            1 <= e.mod <= |log| && k in log[e.mod - 1] && log[e.mod - 1][k] == Set(e.value, e.lease)
  {
    if log != [] {
      var n := |log| - 1;
      if k !in log[n] {
        ModNamesEntry(log[..n], k);
      }
    }
  }
}
