/**
 What a client is shown of others: the lookup of any nicks by any viewer, and NAMES, whose
 prefix scan also meets the lists of channels that continue the name after a '/'.
 */
module Sight {
  import opened Seqs
  import opened Records
  import opened Etcd
  import opened Protocol
  import opened Membership
  import opened Parts

  // ----- who is seen

  /** An operator sees everybody; others as far as the visibility filter lets them. */
  predicate SeenBy(kv: Kv, me: string, n: string) {
    && UserIn(kv, me).Some? && UserIn(kv, n).Some?
    && ('O' in UserIn(kv, me).value.mode || Visible(UserIn(kv, n).value, UserIn(kv, me).value).Some?)
  }

  /** Seeing, with every test written out. */
  lemma SeenByExactly(kv: Kv, me: string, n: string)
    ensures SeenBy(kv, me, n) <==>
      UserIn(kv, me).Some? && UserIn(kv, n).Some? && MayBeShown(UserIn(kv, n).value, UserIn(kv, me).value)
  {
    if UserIn(kv, me).Some? && UserIn(kv, n).Some? && 'O' !in UserIn(kv, me).value.mode {
      VisibleExactly(UserIn(kv, n).value, UserIn(kv, me).value);
    }
  }

  /** The nicks the viewer sees, in order. */
  function Seen(kv: Kv, me: string, nicks: seq<string>): seq<string> {
    if nicks == [] then []
    else
      var n := |nicks| - 1;
      Seen(kv, me, nicks[..n]) + (if SeenBy(kv, me, nicks[n]) then [nicks[n]] else [])
  }

  predicate Registers(kv: Kv, n: string) { UserIn(kv, n).Some? && UserIn(kv, n).value.nick == n }

  /** What the viewer gets of `n` names it right. */
  predicate Shows(kv: Kv, u: User, n: string) {
    && UserIn(kv, n).Some? && u.nick == n
    && u.user == UserIn(kv, n).value.user && u.host == UserIn(kv, n).value.host
  }

  lemma {:induction false} FetchAll(kv: Kv, nicks: seq<string>)
    requires forall i :: 0 <= i < |nicks| ==> Registers(kv, nicks[i])
    ensures var r := Fetch(kv, nicks);
      r.Users? && |r.users| == |nicks| && forall i :: 0 <= i < |nicks| ==> UserIn(kv, nicks[i]) == Some(r.users[i])
  {
    if nicks != [] {
      var n := |nicks| - 1;
      FetchAll(kv, nicks[..n]);
      assert Registers(kv, nicks[n]);
    }
  }

  lemma {:induction false} PruneIsSeen(kv: Kv, nicks: seq<string>, users: seq<User>, me: string, mine: User)
    requires UserIn(kv, me) == Some(mine) && |users| == |nicks|
    requires forall i :: 0 <= i < |nicks| ==> Registers(kv, nicks[i]) && UserIn(kv, nicks[i]) == Some(users[i])
    ensures var r, seen := Prune(users, mine), Seen(kv, me, nicks);
      |r| == |seen| && forall i :: 0 <= i < |r| ==> Shows(kv, r[i], seen[i])
  {
    if nicks != [] {
      var n := |nicks| - 1;
      PruneIsSeen(kv, nicks[..n], users[..n], me, mine);
      assert Registers(kv, nicks[n]);
      PruneLast(users, mine);
    }
  }

  lemma PruneLast(users: seq<User>, me: User)
    requires users != []
    ensures var n := |users| - 1;
      Prune(users, me) == Prune(users[..n], me) +
        (if 'O' in me.mode then [users[n]]
         else if Visible(users[n], me).Some? then [Visible(users[n], me).value] else [])
  {
    var n := |users| - 1;
    assert users == users[..n] + [users[n]];
  }

  /** A lookup of registered nicks by a registered viewer misses no record and shows whom it sees, in order. */
  lemma Lookup(s: Store, nicks: seq<string>, me: string)
    requires WellKeyed(s) && UserIn(s.kv, me).Some?
    requires forall i :: 0 <= i < |nicks| ==> UserIn(s.kv, nicks[i]).Some?
    ensures var r, seen := FromNicks(s.kv, nicks, me), Seen(s.kv, me, nicks);
      r.Users? && |r.users| == |seen| && forall i :: 0 <= i < |seen| ==> Shows(s.kv, r.users[i], seen[i])
  {
    var all := nicks + [me];
    forall i | 0 <= i < |all| ensures Registers(s.kv, all[i]) { assert EntryOk(s, UserCtl(all[i])); }
    FetchAll(s.kv, all);
    var users := Fetch(s.kv, all).users;
    var n := |nicks|;
    forall i | 0 <= i < n ensures Registers(s.kv, nicks[i]) && UserIn(s.kv, nicks[i]) == Some(users[..n][i]) {
      assert all[i] == nicks[i];
    }
    assert all[n] == me && UserIn(s.kv, all[n]) == Some(users[n]);
    PruneIsSeen(s.kv, nicks, users[..n], me, users[n]);
  }

  /** A sharer of a channel sees everybody on it. */
  lemma SharerSees(s: Store, me: string, n: string, ch: string)
    requires IsOn(s, me, ch) && IsOn(s, n, ch)
    ensures SeenBy(s.kv, me, n)
  {
    SharedSome(UserIn(s.kv, n).value.channels, ChannelSet(UserIn(s.kv, me).value), ch);
  }

  lemma SharerSeesAll(s: Store, nicks: seq<string>, me: string, ch: string)
    requires IsOn(s, me, ch) && forall i :: 0 <= i < |nicks| ==> IsOn(s, nicks[i], ch)
    ensures Seen(s.kv, me, nicks) == nicks
  {
    forall i | 0 <= i < |nicks| ensures SeenBy(s.kv, me, nicks[i]) {
      assert IsOn(s, nicks[i], ch);
      SharerSees(s, me, nicks[i], ch);
    }
    AllSeen(s.kv, nicks, me);
  }

  lemma {:induction false} AllSeen(kv: Kv, nicks: seq<string>, me: string)
    requires forall i :: 0 <= i < |nicks| ==> SeenBy(kv, me, nicks[i])
    ensures Seen(kv, me, nicks) == nicks
  {
    if nicks != [] {
      var n := |nicks| - 1;
      AllSeen(kv, nicks[..n], me);
      assert nicks == nicks[..n] + [nicks[n]];
    }
  }

  lemma {:induction false} SeenCounts(kv: Kv, me: string, nicks: seq<string>, n: string)
    ensures multiset(Seen(kv, me, nicks))[n] == if SeenBy(kv, me, n) then multiset(nicks)[n] else 0
  {
    if nicks != [] {
      var m := |nicks| - 1;
      SeenCounts(kv, me, nicks[..m], n);
      assert nicks == nicks[..m] + [nicks[m]];
    }
  }

  // ----- the scan of a channel's lists

  /** What the prefix scan returns: the lists of the channels under the name, each once, in any order. */
  ghost predicate Scans(kv: Kv, ch: string, ks: seq<Key>) {
    && (forall i, j :: 0 <= i < j < |ks| ==> ks[i] != ks[j])
    && (forall k :: k in ks <==> k in kv && k.ChanNicks? && Under(ch, k.ch))
  }

  function ListOf(kv: Kv, k: Key): seq<Member> { if k.ChanNicks? then Members(kv, k.ch, k.id) else [] }

  /** The nicks usersFromChannel collects. */
  function Roster(kv: Kv, ks: seq<Key>): seq<string> {
    if ks == [] then [] else Roster(kv, ks[..|ks| - 1]) + Names(ListOf(kv, ks[|ks| - 1]))
  }

  lemma {:induction false} RosterRegistered(s: Store, ks: seq<Key>)
    requires Inv(s)
    ensures forall i :: 0 <= i < |Roster(s.kv, ks)| ==> UserIn(s.kv, Roster(s.kv, ks)[i]).Some?
  {
    if ks != [] {
      var k := ks[|ks| - 1];
      RosterRegistered(s, ks[..|ks| - 1]);
      forall i | 0 <= i < |ListOf(s.kv, k)| ensures UserIn(s.kv, Names(ListOf(s.kv, k))[i]).Some? {
        MemberHasRecord(s, k.ch, k.id, i);
      }
    }
  }

  // How often a user is on those lists, by its own record.

  function CountIn(chs: seq<string>, names: set<string>): nat {
    if chs == [] then 0 else (if chs[0] in names then 1 else 0) + CountIn(chs[1..], names)
  }

  function ListNames(ks: seq<Key>, l: Lease): set<string> {
    set k | k in ks && k.ChanNicks? && k.id == l :: k.ch
  }

  lemma {:induction false} CountOneMore(chs: seq<string>, names: set<string>, x: string)
    requires x !in names
    ensures CountIn(chs, names + {x}) == CountIn(chs, names) + multiset(chs)[x]
  {
    if chs != [] {
      CountOneMore(chs[1..], names, x);
      assert chs == [chs[0]] + chs[1..];
    }
  }

  lemma {:induction false} RosterCounts(s: Store, ks: seq<Key>, n: string)
    requires Inv(s) && (forall i, j :: 0 <= i < j < |ks| ==> ks[i] != ks[j])
    requires forall i :: 0 <= i < |ks| ==> ks[i].ChanNicks?
    ensures var u := UserIn(s.kv, n);
      multiset(Roster(s.kv, ks))[n] == if u.Some? then CountIn(u.value.channels, ListNames(ks, u.value.lease)) else 0
  {
    var u := UserIn(s.kv, n);
    if ks == [] {
      if u.Some? { CountNone(u.value.channels, ListNames(ks, u.value.lease)); }
    } else {
      RosterCounts(s, ks[..|ks| - 1], n);
      RosterMore(s, ks, n);
      if u.Some? { NamesGrow(ks, u.value.lease, u.value.channels); }
    }
  }

  lemma RosterMore(s: Store, ks: seq<Key>, n: string)
    requires Inv(s) && ks != [] && ks[|ks| - 1].ChanNicks?
    ensures var m := |ks| - 1;
      multiset(Roster(s.kv, ks))[n] == multiset(Roster(s.kv, ks[..m]))[n] + Claims(s.kv, n, ks[m].ch, ks[m].id)
  {
    var m := |ks| - 1;
    assert AgreeAt(s.kv, n, ks[m].ch, ks[m].id);
    var a, b := Roster(s.kv, ks[..m]), Names(ListOf(s.kv, ks[m]));
    assert multiset(a + b) == multiset(a) + multiset(b);
  }

  lemma {:induction false} CountNone(chs: seq<string>, names: set<string>)
    requires names == {}
    ensures CountIn(chs, names) == 0
  {
    if chs != [] { CountNone(chs[1..], names); }
  }

  lemma NamesGrow(ks: seq<Key>, l: Lease, chs: seq<string>)
    requires ks != [] && (forall i, j :: 0 <= i < j < |ks| ==> ks[i] != ks[j])
    requires forall i :: 0 <= i < |ks| ==> ks[i].ChanNicks?
    ensures var m := |ks| - 1;
      CountIn(chs, ListNames(ks, l)) ==
        CountIn(chs, ListNames(ks[..m], l)) + if ks[m].id == l then multiset(chs)[ks[m].ch] else 0
  {
    var m := |ks| - 1;
    var k := ks[m];
    assert ks == ks[..m] + [k];
    if k.id == l {
      assert ListNames(ks, l) == ListNames(ks[..m], l) + {k.ch};
      assert k.ch !in ListNames(ks[..m], l) by {
        forall i | 0 <= i < m && ks[i].id == l ensures ks[i].ch != k.ch { assert ks[i] != ks[m]; }
      }
      CountOneMore(chs, ListNames(ks[..m], l), k.ch);
    } else {
      assert ListNames(ks, l) == ListNames(ks[..m], l);
    }
  }

  /** How many of the channels are under the name. */
  function CountUnder(chs: seq<string>, ch: string): nat {
    if chs == [] then 0 else (if Under(ch, chs[0]) then 1 else 0) + CountUnder(chs[1..], ch)
  }

  lemma {:induction false} SameCount(chs: seq<string>, names: set<string>, ch: string)
    requires forall i :: 0 <= i < |chs| ==> (chs[i] in names <==> Under(ch, chs[i]))
    ensures CountIn(chs, names) == CountUnder(chs, ch)
  {
    if chs != [] { SameCount(chs[1..], names, ch); }
  }

  /** A channel whose name goes on after the '/'. */
  predicate Beyond(ch: string, x: string) { Under(ch, x) && x != ch }

  /** The number of channels under the name is that of the channel itself, unless one lies beyond it. */
  lemma {:induction false} CountBeyond(chs: seq<string>, ch: string)
    ensures CountUnder(chs, ch) >= multiset(chs)[ch]
    ensures CountUnder(chs, ch) == multiset(chs)[ch] <==> forall i :: 0 <= i < |chs| ==> !Beyond(ch, chs[i])
  {
    if chs != [] {
      CountBeyond(chs[1..], ch);
      assert chs == [chs[0]] + chs[1..];
      forall i | 0 < i < |chs| ensures chs[i] == chs[1..][i - 1] { }
      if forall i :: 0 <= i < |chs| ==> !Beyond(ch, chs[i]) {
        forall i | 0 <= i < |chs[1..]| ensures !Beyond(ch, chs[1..][i]) { assert chs[1..][i] == chs[i + 1]; }
      }
    }
  }

  lemma ScanCounts(s: Store, ch: string, ks: seq<Key>, n: string)
    requires Inv(s) && Scans(s.kv, ch, ks)
    ensures var u := UserIn(s.kv, n);
      multiset(Roster(s.kv, ks))[n] == if u.Some? then CountUnder(u.value.channels, ch) else 0
  {
    RosterCounts(s, ks, n);
    var u := UserIn(s.kv, n);
    if u.Some? {
      var chs, l := u.value.channels, u.value.lease;
      forall i | 0 <= i < |chs| ensures chs[i] in ListNames(ks, l) <==> Under(ch, chs[i]) {
        ClaimHasList(s, n, chs[i]);
        assert Under(ch, chs[i]) ==> ChanNicks(chs[i], l) in ks;
      }
      SameCount(chs, ListNames(ks, l), ch);
    }
  }

  // ----- NAMES and WHO

  function NicksOf(users: seq<User>): (r: seq<string>)
    ensures |r| == |users| && forall i :: 0 <= i < |r| ==> r[i] == users[i].nick
  {
    seq(|users|, i requires 0 <= i < |users| => users[i].nick)
  }

  /** How often NAMES shows `n` to `me`. */
  function Shown(kv: Kv, me: string, ks: seq<Key>, n: string): nat
    requires FromNicks(kv, Roster(kv, ks), me).Users?
  {
    multiset(NicksOf(FromNicks(kv, Roster(kv, ks), me).users))[n]
  }

  function OnCount(kv: Kv, n: string, ch: string): nat {
    var u := UserIn(kv, n);
    if u.Some? then multiset(u.value.channels)[ch] else 0
  }

  /**
   NAMES or WHO at the current revision by any registered client: no record is missing, the users
   it sees come in the order of the lists, and each is shown once per channel of its record that is
   under the name.
   */
  lemma NamesComplete(s: Store, ch: string, ks: seq<Key>, me: string)
    requires Inv(s) && UserIn(s.kv, me).Some? && Scans(s.kv, ch, ks)
    ensures var r := FromNicks(s.kv, Roster(s.kv, ks), me);
      && r.Users? && NicksOf(r.users) == Seen(s.kv, me, Roster(s.kv, ks))
      && forall n :: Shown(s.kv, me, ks, n) ==
           if SeenBy(s.kv, me, n) then CountUnder(UserIn(s.kv, n).value.channels, ch) else 0
  {
    var roster := Roster(s.kv, ks);
    RosterRegistered(s, ks);
    Lookup(s, roster, me);
    var users, seen := FromNicks(s.kv, roster, me).users, Seen(s.kv, me, roster);
    forall i | 0 <= i < |users| ensures NicksOf(users)[i] == seen[i] { assert Shows(s.kv, users[i], seen[i]); }
    assert NicksOf(users) == seen;
    forall n ensures Shown(s.kv, me, ks, n) ==
                     if SeenBy(s.kv, me, n) then CountUnder(UserIn(s.kv, n).value.channels, ch) else 0
    {
      SeenCounts(s.kv, me, roster, n);
      ScanCounts(s, ch, ks, n);
    }
  }

  /** Somebody the viewer sees is on a channel beyond the name. */
  ghost predicate Stranger(kv: Kv, ch: string, me: string, n: string) {
    SeenBy(kv, me, n) && exists x :: x in UserIn(kv, n).value.channels && Beyond(ch, x)
  }

  lemma ShownExactly(s: Store, ch: string, ks: seq<Key>, me: string, n: string)
    requires Inv(s) && IsOn(s, me, ch) && Scans(s.kv, ch, ks) && FromNicks(s.kv, Roster(s.kv, ks), me).Users?
    ensures Shown(s.kv, me, ks, n) == OnCount(s.kv, n, ch) <==> !Stranger(s.kv, ch, me, n)
  {
    NamesComplete(s, ch, ks, me);
    var u := UserIn(s.kv, n);
    if SeenBy(s.kv, me, n) {
      CountBeyond(u.value.channels, ch);
      if x :| x in u.value.channels && Beyond(ch, x) {
        var i :| 0 <= i < |u.value.channels| && u.value.channels[i] == x;
        assert Beyond(ch, u.value.channels[i]);
      }
    } else if u.Some? {
      if ch in u.value.channels { SharerSees(s, me, n, ch); }
      assert ch in multiset(u.value.channels) <==> ch in u.value.channels;
    }
  }

  /**
   For a client on the channel, NAMES shows everybody exactly as often as its record has the
   channel, if and only if nobody it sees is on a channel whose name continues after a '/'.
   */
  lemma NamesExactly(s: Store, ch: string, ks: seq<Key>, me: string)
    requires Inv(s) && IsOn(s, me, ch) && Scans(s.kv, ch, ks)
    ensures FromNicks(s.kv, Roster(s.kv, ks), me).Users?
    ensures (forall n :: Shown(s.kv, me, ks, n) == OnCount(s.kv, n, ch)) <==> forall n :: !Stranger(s.kv, ch, me, n)
  {
    NamesComplete(s, ch, ks, me);
    forall n ensures Shown(s.kv, me, ks, n) == OnCount(s.kv, n, ch) <==> !Stranger(s.kv, ch, me, n) {
      ShownExactly(s, ch, ks, me, n);
    }
  }
}
