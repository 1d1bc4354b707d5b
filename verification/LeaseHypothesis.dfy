/**
 Join, Part and Quit act on the lease of the server's current session, not on the one
 in the user's record. Agreement survives exactly when the two are the same (or when
 there is nothing on a list to lose track of).
 */
module LeaseHypothesis {
  import opened Seqs
  import opened Records
  import opened Etcd
  import opened Commands
  import opened Protocol
  import opened Membership
  import opened Runs

  lemma StrayEntryBreaks(kv: Kv, n: string, ch: string, l: Lease)
    requires Entries(Members(kv, ch, l), n) != Claims(kv, n, ch, l)
    ensures !Agreement(kv)
  {
    assert !AgreeAt(kv, n, ch, l);
  }

  lemma OffLeaseJoinStages(s: Store, c: Client, ch: string)
    requires WellKeyed(s) && UserIn(s.kv, c.nick).Some? && c.lease in s.leases
    ensures var txn := TxnOf(Join(ch), c, s); var u := UserIn(s.kv, c.nick).value;
            var me := Member(c.nick, if ChanCtl(ch) in s.kv then "" else OPERATOR);
            && txn.Ready? && Accepts(s, txn.ws)
            && UserCtl(c.nick) in txn.ws && ChanNicks(ch, c.lease) in txn.ws
            && txn.ws[UserCtl(c.nick)] == Put(UserV(u.(channels := u.channels + [ch])), Attach(c.lease))
            && txn.ws[ChanNicks(ch, c.lease)] == Put(NicksV(Members(s.kv, ch, c.lease) + [me]), Attach(c.lease))
  {
    assert EntryOk(s, UserCtl(c.nick)) && EntryOk(s, ChanCtl(ch)) && EntryOk(s, ChanNicks(ch, c.lease));
  }

  lemma OffLeaseJoinBreaks(s: Store, c: Client, ch: string, u: User, me: Member, ws: Writes, t: Store)
    requires UserIn(s.kv, c.nick) == Some(u) && u.lease != c.lease && me.nick == c.nick && Wrote(s, ws, t)
    requires UserCtl(c.nick) in ws && ChanNicks(ch, c.lease) in ws
    requires ws[UserCtl(c.nick)] == Put(UserV(u.(channels := u.channels + [ch])), Attach(c.lease))
    requires ws[ChanNicks(ch, c.lease)] == Put(NicksV(Members(s.kv, ch, c.lease) + [me]), Attach(c.lease))
    ensures !Agreement(t.kv)
  {
    assert WroteAt(s, ws, t, ChanNicks(ch, c.lease)) && WroteAt(s, ws, t, UserCtl(c.nick));
    EntriesAppend(Members(s.kv, ch, c.lease), me, c.nick);
    StrayEntryBreaks(t.kv, c.nick, ch, c.lease);
  }

  /** A join keeps agreement if and only if the session's lease is the one in the record. */
  lemma JoinNeedsOwnLease(s: Store, c: Client, ch: string)
    requires Inv(s) && UserIn(s.kv, c.nick).Some? && c.lease in s.leases
    ensures Agreement(Next(s, Command(c, Join(ch))).kv) <==> UserIn(s.kv, c.nick).value.lease == c.lease
  {
    if UserIn(s.kv, c.nick).value.lease == c.lease {
      JoinKeeps(s, c, ch);
    } else {
      OffLeaseJoinStages(s, c, ch);
      var ws := TxnOf(Join(ch), c, s).ws;
      CommitEffect(s, ws);
      var me := Member(c.nick, if ChanCtl(ch) in s.kv then "" else OPERATOR);
      OffLeaseJoinBreaks(s, c, ch, UserIn(s.kv, c.nick).value, me, ws, Commit(s, ws));
    }
  }

  /** After these writes `n` claims less on `ch` than the list of its own lease still holds. */
  lemma LostClaimBreaks(s: Store, n: string, ch: string, ws: Writes, t: Store)
    requires Agreement(s.kv) && UserIn(s.kv, n).Some? && ch in UserIn(s.kv, n).value.channels && Wrote(s, ws, t)
    requires ChanNicks(ch, UserIn(s.kv, n).value.lease) !in ws && UserCtl(n) in ws
    requires ws[UserCtl(n)].Put? ==>
               var u := UserIn(s.kv, n).value; ws[UserCtl(n)].value == UserV(u.(channels := Without(u.channels, ch)))
    ensures !Agreement(t.kv)
  {
    var u := UserIn(s.kv, n).value;
    assert AgreeAt(s.kv, n, ch, u.lease);
    assert WroteAt(s, ws, t, ChanNicks(ch, u.lease)) && WroteAt(s, ws, t, UserCtl(n));
    assert Members(t.kv, ch, u.lease) == Members(s.kv, ch, u.lease);
    assert ch in multiset(u.channels);
    assert Claims(t.kv, n, ch, u.lease) < Claims(s.kv, n, ch, u.lease);
    StrayEntryBreaks(t.kv, n, ch, u.lease);
  }

  lemma OffLeasePartStages(s: Store, c: Client, ch: string, msg: string)
    requires WellKeyed(s) && UserIn(s.kv, c.nick).Some? && ch in UserIn(s.kv, c.nick).value.channels
    requires UserIn(s.kv, c.nick).value.lease != c.lease
    ensures var txn := TxnOf(Part(ch, msg), c, s); var u := UserIn(s.kv, c.nick).value;
            && txn.Ready? && Accepts(s, txn.ws)
            && ChanNicks(ch, u.lease) !in txn.ws && UserCtl(c.nick) in txn.ws
            && txn.ws[UserCtl(c.nick)] == Put(UserV(u.(channels := Without(u.channels, ch))), Keep)
  {
    assert EntryOk(s, ChanNicks(ch, c.lease));
  }

  /** A part keeps agreement if and only if the leases match or the user is not on the channel. */
  lemma PartNeedsOwnLease(s: Store, c: Client, ch: string, msg: string)
    requires Inv(s) && UserIn(s.kv, c.nick).Some?
    ensures Agreement(Next(s, Command(c, Part(ch, msg))).kv) <==>
            UserIn(s.kv, c.nick).value.lease == c.lease || ch !in UserIn(s.kv, c.nick).value.channels
  {
    var u := UserIn(s.kv, c.nick).value;
    if u.lease == c.lease {
      CommandKeeps(s, c, Part(ch, msg));
    } else if ch !in u.channels {
      NothingKeeps(s);
    } else {
      OffLeasePartStages(s, c, ch, msg);
      var ws := TxnOf(Part(ch, msg), c, s).ws;
      CommitEffect(s, ws);
      LostClaimBreaks(s, c.nick, ch, ws, Commit(s, ws));
    }
  }

  lemma OffLeaseQuitStages(s: Store, c: Client, msg: string)
    requires WellKeyed(s) && UserIn(s.kv, c.nick).Some? && UserIn(s.kv, c.nick).value.lease != c.lease
    ensures var txn := TxnOf(Quit(msg), c, s); var u := UserIn(s.kv, c.nick).value;
            && txn.Ready? && Accepts(s, txn.ws)
            && (forall ch :: ChanNicks(ch, u.lease) !in txn.ws)
            && UserCtl(c.nick) in txn.ws && txn.ws[UserCtl(c.nick)].Del?
            && (u.channels == [] ==>
                  forall n, ch, l :: ChanNicks(ch, l) !in txn.ws && (n != c.nick ==> UserCtl(n) !in txn.ws))
  {
    var u := UserIn(s.kv, c.nick).value;
    QuitLoopShape(s, c, u.channels, msg);
    var ws := QuitLoop(s, c, u.channels, msg).value;
    var txn := TxnOf(Quit(msg), c, s);
    assert txn == Ready(ws[UserCtl(c.nick) := Del][UserMsg(c.nick) := Del]);
    forall k | k in txn.ws && txn.ws[k].Put?
      ensures !txn.ws[k].how.Attach? && (txn.ws[k].how.Keep? ==> k in s.kv)
    {
      assert LoopWrite(s, c, u.channels, ws, k);
    }
    forall ch ensures ChanNicks(ch, u.lease) !in txn.ws {
      assert LoopWrite(s, c, u.channels, ws, ChanNicks(ch, u.lease));
    }
    forall n, ch, l | u.channels == [] ensures ChanNicks(ch, l) !in txn.ws && (n != c.nick ==> UserCtl(n) !in txn.ws) {
      assert LoopWrite(s, c, u.channels, ws, ChanNicks(ch, l)) && LoopWrite(s, c, u.channels, ws, UserCtl(n));
    }
  }

  lemma EmptyQuitAgrees(s: Store, n: string, ws: Writes, t: Store)
    requires Agreement(s.kv) && UserIn(s.kv, n).Some? && UserIn(s.kv, n).value.channels == [] && Wrote(s, ws, t)
    requires UserCtl(n) in ws && ws[UserCtl(n)].Del?
    requires forall m, ch, l :: ChanNicks(ch, l) !in ws && (m != n ==> UserCtl(m) !in ws)
    ensures Agreement(t.kv)
  {
    forall m, ch, l ensures AgreeAt(t.kv, m, ch, l) {
      assert AgreeAt(s.kv, m, ch, l);
      assert WroteAt(s, ws, t, ChanNicks(ch, l)) && WroteAt(s, ws, t, UserCtl(m));
    }
  }

  /** A quit keeps agreement if and only if the leases match or the user is on no channel. */
  lemma QuitNeedsOwnLease(s: Store, c: Client, msg: string)
    requires Inv(s) && UserIn(s.kv, c.nick).Some?
    ensures Agreement(Next(s, Command(c, Quit(msg))).kv) <==>
            UserIn(s.kv, c.nick).value.lease == c.lease || UserIn(s.kv, c.nick).value.channels == []
  {
    var u := UserIn(s.kv, c.nick).value;
    if u.lease == c.lease {
      QuitKeeps(s, c, msg);
    } else {
      OffLeaseQuitStages(s, c, msg);
      var ws := TxnOf(Quit(msg), c, s).ws;
      CommitEffect(s, ws);
      if u.channels == [] {
        EmptyQuitAgrees(s, c.nick, ws, Commit(s, ws));
      } else {
        LostClaimBreaks(s, c.nick, u.channels[0], ws, Commit(s, ws));
      }
    }
  }
}
