/**
 The nick-list watcher: when a list key is deleted its nicks are reported as PARTs, looked up
 one revision earlier and filtered by visibility; when an empty list is stored it is cleaned up.
 */
module Parts {
  import opened Seqs
  import opened Records
  import opened Etcd
  import opened Protocol
  import opened Membership
  import opened Runs
  import opened Watchers

  // ----- pruneInvisible

  function Shared(chs: seq<string>, mine: set<string>): seq<string> { Filter(chs, ch => ch in mine) }

  function ChannelSet(u: User): set<string> { set ch | ch in u.channels }

  /** What `me` may see of `u`: an invisible user is seen only through shared channels. */
  function Visible(u: User, me: User): Option<User> {
    if 'i' !in u.mode || ('o' in me.mode && u.serverName == me.serverName) then Some(u)
    else
      var shared := Shared(u.channels, ChannelSet(me));
      if shared == [] then None else Some(u.(channels := shared))
  }

  function Prune(users: seq<User>, me: User): seq<User> {
    if 'O' in me.mode then users else PruneEach(users, me)
  }

  function PruneEach(users: seq<User>, me: User): seq<User> {
    if users == [] then []
    else
      var n := |users| - 1;
      var v := Visible(users[n], me);
      PruneEach(users[..n], me) + (if v.Some? then [v.value] else [])
  }

  method PruneInvisible(users: seq<User>, me: User) returns (ret: seq<User>)
    ensures ret == Prune(users, me)
  {
    if 'O' in me.mode { return users; }
    var isLocalOp := 'o' in me.mode;
    ret := [];
    var uchan := StringSliceToMap(me.channels);
    for i := 0 to |users|
      invariant ret == PruneEach(users[..i], me)
    {
      assert users[..i + 1][..i] == users[..i];
      var user := users[i];
      if 'i' !in user.mode || (isLocalOp && user.serverName == me.serverName) {
        ret := ret + [user];
      } else {
        var shared := SharedChannels(user.channels, uchan);
        if |shared| > 0 {
          ret := ret + [user.(channels := shared)];
        }
      }
    }
    assert users[..|users|] == users;
  }

  method StringSliceToMap(ss: seq<string>) returns (m: set<string>)
    ensures m == set x | x in ss
  {
    m := {};
    for i := 0 to |ss|
      invariant m == set x | x in ss[..i]
    {
      m := m + {ss[i]};
    }
  }

  method SharedChannels(chs: seq<string>, uchan: set<string>) returns (shared: seq<string>)
    ensures shared == Shared(chs, uchan)
  {
    shared := [];
    for i := 0 to |chs|
      invariant shared == Shared(chs[..i], uchan)
    {
      assert chs[..i + 1] == chs[..i] + [chs[i]];
      FilterAppend(chs[..i], [chs[i]], ch => ch in uchan);
      if chs[i] in uchan {
        shared := shared + [chs[i]];
      }
    }
    assert chs[..|chs|] == chs;
  }

  lemma {:induction false} SharedSome(chs: seq<string>, mine: set<string>, ch: string)
    requires ch in chs && ch in mine
    ensures Shared(chs, mine) != []
  {
    if chs[0] != ch {
      SharedSome(chs[1..], mine, ch);
    }
  }

  // Who is shown, and what of them, with every test written out.

  /** Operators are shown everybody, local ones those of their server; others, who does not hide or shares a channel. */
  predicate MayBeShown(u: User, me: User) {
    || 'O' in me.mode
    || 'i' !in u.mode
    || ('o' in me.mode && u.serverName == me.serverName)
    || exists x :: x in u.channels && x in me.channels
  }

  /** A hidden user's channels are cut down to the common ones, in order; everything else is shown as it is. */
  predicate ShownAs(r: User, u: User, me: User) {
    && r == u.(channels := r.channels)
    && if 'O' in me.mode || 'i' !in u.mode || ('o' in me.mode && u.serverName == me.serverName) then r == u
       else Common(u.channels, me.channels, r.channels)
  }

  predicate Common(chs: seq<string>, mine: seq<string>, r: seq<string>) {
    if chs == [] then r == []
    else if chs[0] in mine then r != [] && r[0] == chs[0] && Common(chs[1..], mine, r[1..])
    else Common(chs[1..], mine, r)
  }

  lemma {:induction false} SharedIsCommon(chs: seq<string>, mine: seq<string>, names: set<string>)
    requires forall x :: x in names <==> x in mine
    ensures Common(chs, mine, Shared(chs, names))
    ensures Shared(chs, names) == [] <==> forall x :: x in chs ==> x !in mine
  {
    if chs != [] {
      SharedIsCommon(chs[1..], mine, names);
      var rest := Shared(chs[1..], names);
      assert Shared(chs, names) == if chs[0] in names then [chs[0]] + rest else rest;
      assert ([chs[0]] + rest)[1..] == rest;
    }
  }

  lemma VisibleExactly(u: User, me: User)
    requires 'O' !in me.mode
    ensures Visible(u, me).Some? <==> MayBeShown(u, me)
    ensures Visible(u, me).Some? ==> ShownAs(Visible(u, me).value, u, me)
  {
    SharedIsCommon(u.channels, me.channels, ChannelSet(me));
  }

  /** `idx` picks, in order, exactly the users that may be shown. */
  ghost predicate Picks(users: seq<User>, me: User, idx: seq<nat>) {
    && (forall j, k :: 0 <= j < k < |idx| ==> idx[j] < idx[k])
    && (forall j :: 0 <= j < |idx| ==> idx[j] < |users|)
    && (forall i :: 0 <= i < |users| ==> (MayBeShown(users[i], me) <==> i in idx))
  }

  /** The filter shows exactly those who may be shown, in order, each as it may be. */
  lemma {:induction false} PruneExactly(users: seq<User>, me: User) returns (idx: seq<nat>)
    ensures Picks(users, me, idx) && |Prune(users, me)| == |idx|
    ensures forall j :: 0 <= j < |idx| ==> ShownAs(Prune(users, me)[j], users[idx[j]], me)
  {
    if 'O' in me.mode {
      idx := seq(|users|, i requires 0 <= i < |users| => i);
      forall i | 0 <= i < |users| ensures i in idx { assert idx[i] == i; }
    } else if users == [] {
      idx := [];
    } else {
      var n := |users| - 1;
      var past := PruneExactly(users[..n], me);
      VisibleExactly(users[n], me);
      idx := past + if MayBeShown(users[n], me) then [n] else [];
      PicksMore(users, me, past, idx);
      assert forall j :: 0 <= j < |past| ==> users[..n][past[j]] == users[past[j]];
    }
  }

  lemma PicksMore(users: seq<User>, me: User, past: seq<nat>, idx: seq<nat>)
    requires users != [] && Picks(users[..|users| - 1], me, past)
    requires idx == past + if MayBeShown(users[|users| - 1], me) then [|users| - 1] else []
    ensures Picks(users, me, idx)
  {
    var n := |users| - 1;
    assert forall x :: x in past ==> x < n;
    forall i | 0 <= i < |users| ensures MayBeShown(users[i], me) <==> i in idx {
      if i < n { assert users[..n][i] == users[i]; }
    }
  }

  /** Nobody on a channel of mine is dropped, and identity is kept. */
  lemma {:induction false} PruneKeepsSharers(users: seq<User>, me: User, ch: string)
    requires ch in me.channels && forall i :: 0 <= i < |users| ==> ch in users[i].channels
    ensures |Prune(users, me)| == |users|
    ensures forall i :: 0 <= i < |users| ==>
              var v, u := Prune(users, me)[i], users[i]; v.nick == u.nick && v.user == u.user && v.host == u.host
  {
    if 'O' !in me.mode && users != [] {
      var n := |users| - 1;
      PruneKeepsSharers(users[..n], me, ch);
      SharedSome(users[n].channels, ChannelSet(me), ch);
    }
  }

  // ----- usersFromNicks

  /** The records of the nicks; a missing record is a nil dereference in the source. */
  datatype Found = Users(users: seq<User>) | NilRecord | BadRecord

  function Fetch(kv: Kv, nicks: seq<string>): Found {
    if nicks == [] then Users([])
    else
      var n := |nicks| - 1;
      var init := Fetch(kv, nicks[..n]);
      var k := UserCtl(nicks[n]);
      if !init.Users? then init
      else if k !in kv then NilRecord
      else if !kv[k].value.UserV? then BadRecord
      else Users(init.users + [kv[k].value.user])
  }

  function FromNicks(kv: Kv, nicks: seq<string>, me: string): Found {
    var all := Fetch(kv, nicks + [me]);
    if !all.Users? || all.users == [] then all
    else Users(Prune(all.users[..|all.users| - 1], all.users[|all.users| - 1]))
  }

  lemma {:induction false} FetchFail(kv: Kv, nicks: seq<string>, i: nat)
    requires i <= |nicks| && !Fetch(kv, nicks[..i]).Users?
    ensures Fetch(kv, nicks) == Fetch(kv, nicks[..i])
    decreases |nicks| - i
  {
    if i == |nicks| {
      assert nicks[..i] == nicks;
    } else {
      assert nicks[..i + 1][..i] == nicks[..i];
      FetchFail(kv, nicks, i + 1);
    }
  }

  method UsersFromNicks(kv: Kv, nicks: seq<string>, me: string) returns (r: Found)
    ensures r == FromNicks(kv, nicks, me)
  {
    var all := nicks + [me];
    var users: seq<User> := [];
    for i := 0 to |all|
      invariant Fetch(kv, all[..i]) == Users(users) && |users| == i
    {
      assert all[..i + 1][..i] == all[..i];
      var k := UserCtl(all[i]);
      if k !in kv || !kv[k].value.UserV? {
        FetchFail(kv, all, i + 1);
        return if k !in kv then NilRecord else BadRecord;
      }
      users := users + [kv[k].value.user];
    }
    assert all[..|all|] == all;
    var visible := PruneInvisible(users[..|users| - 1], users[|users| - 1]);
    r := Users(visible);
  }

  // ----- sendParts

  function PartMsg(ch: string, u: User): Message {
    Message(Some(Prefix(u.nick, u.user, u.host)), PART, [ch, "session lost"])
  }

  function PartMsgs(ch: string, users: seq<User>): (r: seq<Message>)
    ensures |r| == |users| && forall i :: 0 <= i < |r| ==> r[i] == PartMsg(ch, users[i])
  {
    seq(|users|, i requires 0 <= i < |users| => PartMsg(ch, users[i]))
  }

  /** As much of `msgs` as a connection with `room` takes. */
  function Cut(msgs: seq<Message>, room: nat): seq<Message> { if room < |msgs| then msgs[..room] else msgs }

  method SendParts(conn: Connection, ch: string, list: seq<Member>, kv: Kv) returns (r: Found, ok: bool)
    modifies conn
    ensures r == FromNicks(kv, Names(list), conn.nick)
    ensures conn.Wrote(if r.Users? then Cut(PartMsgs(ch, r.users), old(conn.room)) else [])
    ensures ok <==> r.Users? && |r.users| <= old(conn.room)
    ensures conn.chCancel == old(conn.chCancel)
  {
    var cns := new ChannelNicks(list);
    var names := cns.NickNames();
    r := UsersFromNicks(kv, names, conn.nick);
    ok := r.Users?;
    if ok {
      ok := SendEach(conn, ch, r.users);
    }
  }

  method SendEach(conn: Connection, ch: string, users: seq<User>) returns (ok: bool)
    modifies conn
    ensures conn.Wrote(Cut(PartMsgs(ch, users), old(conn.room)))
    ensures ok <==> |users| <= old(conn.room)
    ensures conn.chCancel == old(conn.chCancel)
  {
    ghost var msgs := PartMsgs(ch, users);
    ok := true;
    var i := 0;
    while i < |users|
      invariant i <= |users| && ok && conn.Wrote(msgs[..i])
      invariant conn.chCancel == old(conn.chCancel)
    {
      ok := conn.SendMsg(PartMsg(ch, users[i]));
      if !ok { break; }
      assert msgs[..i + 1] == msgs[..i] + [msgs[i]];
      i := i + 1;
    }
    assert ok ==> msgs[..i] == msgs;
  }

  // ----- lists name registered users who claim the channel

  lemma MemberHasRecord(s: Store, ch: string, l: Lease, i: nat)
    requires Inv(s) && i < |Members(s.kv, ch, l)|
    ensures var n := Members(s.kv, ch, l)[i].nick;
            UserIn(s.kv, n).Some? && ch in UserIn(s.kv, n).value.channels && UserIn(s.kv, n).value.nick == n
  {
    var list := Members(s.kv, ch, l);
    var n := list[i].nick;
    assert AgreeAt(s.kv, n, ch, l) && EntryOk(s, UserCtl(n));
    assert Names(list)[i] == n;
    assert n in multiset(Names(list));
    var u := UserIn(s.kv, n);
    assert u.Some? && multiset(u.value.channels)[ch] > 0;
    assert ch in multiset(u.value.channels);
  }

  predicate IsOn(s: Store, n: string, ch: string) {
    UserIn(s.kv, n).Some? && ch in UserIn(s.kv, n).value.channels
  }

  /** The nicks all have records, in order, that are on `ch`. */
  lemma {:induction false} FetchPresent(s: Store, nicks: seq<string>, ch: string)
    requires WellKeyed(s)
    requires forall i :: 0 <= i < |nicks| ==> IsOn(s, nicks[i], ch)
    ensures var r := Fetch(s.kv, nicks);
            && r.Users? && |r.users| == |nicks|
            && forall i :: 0 <= i < |nicks| ==>
                 r.users[i].nick == nicks[i] && ch in r.users[i].channels && UserIn(s.kv, nicks[i]) == Some(r.users[i])
  {
    if nicks != [] {
      var n := |nicks| - 1;
      FetchPresent(s, nicks[..n], ch);
      assert EntryOk(s, UserCtl(nicks[n]));
    }
  }

  /**
   For a viewer who is on the channel, looking up any nicks that are on it misses no record and
   drops nobody: one visible user per nick, in order.
   */
  lemma SharersAllVisible(s: Store, nicks: seq<string>, me: string, ch: string)
    requires Inv(s)
    requires forall i :: 0 <= i < |nicks| ==> IsOn(s, nicks[i], ch)
    requires UserIn(s.kv, me).Some? && ch in UserIn(s.kv, me).value.channels
    ensures var r := FromNicks(s.kv, nicks, me);
            && r.Users? && |r.users| == |nicks|
            && forall i :: 0 <= i < |nicks| ==>
                 var u := UserIn(s.kv, nicks[i]);
                 && u.Some? && r.users[i].nick == nicks[i]
                 && r.users[i].user == u.value.user && r.users[i].host == u.value.host
  {
    FetchPresent(s, nicks, ch);
    var us := Fetch(s.kv, nicks).users;
    var all := nicks + [me];
    assert all[..|all| - 1] == nicks;
    var u := UserIn(s.kv, me).value;
    assert Fetch(s.kv, all) == Users(us + [u]);
    assert (us + [u])[..|us|] == us;
    PruneKeepsSharers(us, u, ch);
  }

  // ----- the promises

  /**
   When lease `l` expires at revision R, any client that was on the channel at R - 1 gets exactly
   one PART per entry of the deleted list, in order, whatever happened after the expiry: the
   records as of R - 1 are those of the state before, none is missing and nobody is pruned.
   */
  lemma ExpiryReportsEveryone(s: Store, l: Lease, t: Store, ch: string, me: string)
    requires Inv(s) && l in s.leases && ChanNicks(ch, l) in s.kv && Extends(Expire(s, l), t)
    requires UserIn(s.kv, me).Some? && ch in UserIn(s.kv, me).value.channels
    ensures var rev := s.Rev() + 1; var list := Members(s.kv, ch, l);
            && rev <= t.Rev() && ChanNicks(ch, l) in t.log[rev - 1] && t.log[rev - 1][ChanNicks(ch, l)] == Gone
            && Members(At(t, rev - 1), ch, l) == list
            && (var r := FromNicks(At(t, rev - 1), Names(list), me);
                && r.Users? && |PartMsgs(ch, r.users)| == |list|
                && forall i :: 0 <= i < |list| ==>
                     var u := UserIn(s.kv, list[i].nick);
                     && u.Some?
                     && PartMsgs(ch, r.users)[i] ==
                        Message(Some(Prefix(list[i].nick, u.value.user, u.value.host)), PART, [ch, "session lost"]))
  {
    var rev := s.Rev() + 1;
    var list := Members(s.kv, ch, l);
    ExpiryLogged(s, l, t, ch);
    forall i | 0 <= i < |Names(list)|
      ensures UserIn(s.kv, Names(list)[i]).Some? && ch in UserIn(s.kv, Names(list)[i]).value.channels
    {
      MemberHasRecord(s, ch, l, i);
    }
    SharersAllVisible(s, Names(list), me, ch);
  }

  lemma ExpiryLogged(s: Store, l: Lease, t: Store, ch: string)
    requires Inv(s) && l in s.leases && ChanNicks(ch, l) in s.kv && Extends(Expire(s, l), t)
    ensures var rev := s.Rev() + 1;
            && rev <= t.Rev() && ChanNicks(ch, l) in t.log[rev - 1] && t.log[rev - 1][ChanNicks(ch, l)] == Gone
            && At(t, rev - 1) == s.kv
  {
    assert EntryOk(s, ChanNicks(ch, l));
    var changes: Revision := map k | k in s.kv && s.kv[k].lease == l :: Gone;
    assert ChanNicks(ch, l) in changes;
    assert Expire(s, l).log == s.log + [changes];
    assert t.log[..s.Rev()] == s.log;
  }

  lemma FetchOne(kv: Kv, me: string)
    ensures Fetch(kv, [me]) == if UserCtl(me) !in kv then NilRecord
                               else if !kv[UserCtl(me)].value.UserV? then BadRecord
                               else Users([kv[UserCtl(me)].value.user])
  {
    assert [me][..0] == [];
    assert Fetch(kv, [me][..0]) == Users([]);
  }

  /** An empty list reports nobody, but it still looks up the viewer. */
  lemma NobodyToReport(s: Store, me: string)
    requires WellKeyed(s)
    ensures FromNicks(s.kv, [], me) == if UserIn(s.kv, me).Some? then Users([]) else NilRecord
  {
    assert EntryOk(s, UserCtl(me));
    assert [] + [me] == [me];
    FetchOne(s.kv, me);
    if UserIn(s.kv, me).Some? {
      var all := [UserIn(s.kv, me).value];
      assert all[..0] == [];
      assert Prune([], all[0]) == [];
    }
  }

  /**
   When an empty list is cleaned up, its deletion is logged, and whoever watches it reports
   nobody; but the lookup fails on a nil record if and only if the watcher's own record is gone.
   */
  lemma CleanupReportsNobody(s: Store, server: Lease, k: Key, rev: nat, t: Store, me: string)
    requires Inv(s) && SawEmptyList(s, server, k, rev) && k in s.kv && s.kv[k].mod == rev
    requires Extends(Next(s, Cleanup(server, k, rev)), t)
    ensures var r := s.Rev() + 1;
            && r <= t.Rev() && k in t.log[r - 1] && t.log[r - 1][k] == Gone
            && Members(At(t, r - 1), k.ch, k.id) == []
            && FromNicks(At(t, r - 1), [], me) == (if UserIn(s.kv, me).Some? then Users([]) else NilRecord)
  {
    CleanupSafe(s, server, k, rev);
    var changes := ChangesOf(s, map[k := Del]);
    assert k in changes;
    assert Next(s, Cleanup(server, k, rev)).log == s.log + [changes];
    assert t.log[..s.Rev()] == s.log;
    NobodyToReport(s, me);
  }

  // ----- monitorPart

  /** An event under the channel's nick-list prefix. */
  datatype NickEvent = Stored(k: Key, rev: nat, value: Value, lease: Lease) | Deleted(k: Key, rev: nat, prev: Value)

  /** The compare-and-delete the watcher issues, if any. */
  function Issues(ev: NickEvent, server: Lease): seq<(Key, nat)> {
    if ev.Stored? && ev.value == NicksV([]) && ev.lease == server then [(ev.k, ev.rev)] else []
  }

  function AllIssued(events: seq<NickEvent>, server: Lease): seq<(Key, nat)> {
    if events == [] then []
    else AllIssued(events[..|events| - 1], server) + Issues(events[|events| - 1], server)
  }

  /** The PARTs a deletion is reported as; None when the lookup fails. */
  function Reports(s: Store, ch: string, me: string, ev: NickEvent): Option<seq<Message>>
    requires ev.Deleted? ==> 1 <= ev.rev <= s.Rev()
  {
    if ev.Stored? || !ev.prev.NicksV? then Some([])
    else
      var r := FromNicks(At(s, ev.rev - 1), Names(ev.prev.nicks), me);
      if r.Users? then Some(PartMsgs(ch, r.users)) else None
  }

  function AllReported(s: Store, ch: string, me: string, events: seq<NickEvent>): Option<seq<Message>>
    requires forall i :: 0 <= i < |events| && events[i].Deleted? ==> 1 <= events[i].rev <= s.Rev()
  {
    if events == [] then Some([])
    else
      var init := AllReported(s, ch, me, events[..|events| - 1]);
      var last := Reports(s, ch, me, events[|events| - 1]);
      if init.None? || last.None? then None else Some(init.value + last.value)
  }

  /** What was written for `n` events and, if the next one stopped the watcher, for part of it. */
  ghost predicate Stopped(s: Store, ch: string, me: string, events: seq<NickEvent>, n: nat, part: seq<Message>,
                          room: nat)
    requires n < |events| && (events[n].Deleted? ==> 1 <= events[n].rev <= s.Rev())
  {
    var r := Reports(s, ch, me, events[n]);
    if r.None? then part == [] else part == Cut(r.value, |part|) && |part| < |r.value| && room == 0
  }

  /**
   monitorPart: the compare-and-deletes and the PARTs of the events, in order. It stops early only
   at a deletion whose lookup fails, or whose PARTs the connection does not take.
   */
  method MonitorPart(conn: Connection, ch: string, events: seq<NickEvent>, server: Lease, s: Store)
    returns (issued: seq<(Key, nat)>, ok: bool, n: nat, ghost part: seq<Message>)
    requires forall i :: 0 <= i < |events| && events[i].Deleted? ==> 1 <= events[i].rev <= s.Rev()
    modifies conn
    ensures n <= |events| && (ok <==> n == |events|)
    ensures issued == AllIssued(events[..n], server)
    ensures AllReported(s, ch, conn.nick, events[..n]).Some?
    ensures conn.Wrote(AllReported(s, ch, conn.nick, events[..n]).value + part)
    ensures if ok then part == [] else Stopped(s, ch, conn.nick, events, n, part, conn.room)
  {
    issued, ok, n, part := [], true, 0, [];
    ghost var out: seq<Message> := [];
    while n < |events|
      invariant ok && part == [] && n <= |events| && issued == AllIssued(events[..n], server)
      invariant AllReported(s, ch, conn.nick, events[..n]) == Some(out) && conn.Wrote(out)
    {
      assert events[..n + 1][..n] == events[..n];
      var more;
      more, ok, part := HandleNickEvent(conn, ch, events[n], server, s);
      Assoc(old(conn.sent), out, part);
      if !ok {
        return;
      }
      out := out + part;
      issued, part, n := issued + more, [], n + 1;
    }
    assert events[..|events|] == events;
    assert out + [] == out;
  }

  /** The body of monitorPart's inner loop, for one event. */
  method HandleNickEvent(conn: Connection, ch: string, ev: NickEvent, server: Lease, s: Store)
    returns (issued: seq<(Key, nat)>, ok: bool, ghost part: seq<Message>)
    requires ev.Deleted? ==> 1 <= ev.rev <= s.Rev()
    modifies conn
    ensures issued == Issues(ev, server)
    ensures conn.Wrote(part)
    ensures var r := Reports(s, ch, conn.nick, ev);
      && (ok <==> r.Some? && |r.value| <= old(conn.room))
      && part == if r.None? then [] else Cut(r.value, old(conn.room))
  {
    issued, ok, part := [], true, [];
    if ev.Stored? {
      if ev.value == NicksV([]) && ev.lease == server {
        issued := [(ev.k, ev.rev)];
      }
    } else if ev.prev.NicksV? {
      var r;
      r, ok := SendParts(conn, ch, ev.prev.nicks, At(s, ev.rev - 1));
      part := if r.Users? then Cut(PartMsgs(ch, r.users), old(conn.room)) else [];
    }
  }

  /** What the watcher issues for a logged event is a cleanup step enabled in every later state. */
  lemma IssuedIsEnabled(s: Store, t: Store, server: Lease, k: Key, rev: nat, ev: NickEvent)
    requires Extends(s, t) && k.ChanNicks? && 1 <= rev <= s.Rev() && k in s.log[rev - 1] && s.log[rev - 1][k].Set?
    requires ev == Stored(k, rev, s.log[rev - 1][k].value, s.log[rev - 1][k].lease)
    ensures forall x :: x in Issues(ev, server) ==> Enabled(t, Cleanup(server, x.0, x.1))
  {
    assert t.log[rev - 1] == s.log[rev - 1];
  }
}
