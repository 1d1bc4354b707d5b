/** The records kept in etcd (channel.go, user.go, oper.go, msg.go) and the objects that edit them. */
module Records {
  import opened Seqs

  type Lease = nat  // 0 means "no lease"

  datatype Option<+T> = None | Some(value: T)

  datatype Command = JOIN | PART | KICK | QUIT | PRIVMSG | TOPIC | RPL_AWAY | ERROR | OTHER(name: string)

  datatype Prefix = Prefix(name: string, user: string, host: string)

  datatype Message = Message(prefix: Option<Prefix>, command: Command, params: seq<string>)

  datatype User = User(nick: string, user: string, host: string, serverName: string, mode: string,
                       channels: seq<string>, awayMsg: string, lease: Lease)

  datatype Channel = Channel(name: string, topic: string, mode: string)

  datatype Member = Member(nick: string, mode: string)

  datatype OperValue = OperValue(pass: string, global: bool)

  // ----- nick lists

  function Names(list: seq<Member>): (r: seq<string>)
    ensures |r| == |list|
    ensures forall i :: 0 <= i < |r| ==> r[i] == list[i].nick
  {
    if list == [] then [] else [list[0].nick] + Names(list[1..])
  }

  function DelNick(list: seq<Member>, nick: string): seq<Member> {
    if list == [] then []
    else if list[0].nick == nick then list[1..]
    else [list[0]] + DelNick(list[1..], nick)
  }

  lemma {:induction false} NamesDel(list: seq<Member>, nick: string)
    ensures Names(DelNick(list, nick)) == Without(Names(list), nick)
  {
    if list != [] {
      assert Names(list)[1..] == Names(list[1..]);
      if list[0].nick != nick {
        NamesDel(list[1..], nick);
        assert DelNick(list, nick)[1..] == DelNick(list[1..], nick);
      }
    }
  }

  function FindNick(list: seq<Member>, nick: string): (r: Option<Member>)
    ensures r.None? <==> nick !in Names(list)
    ensures r.Some? ==> r.value in list && r.value.nick == nick
  {
    if list == [] then None
    else if list[0].nick == nick then Some(list[0])
    else FindNick(list[1..], nick)
  }

  /** How many entries `nick` has in a list. */
  function Entries(list: seq<Member>, nick: string): nat { multiset(Names(list))[nick] }

  lemma NamesAppend(list: seq<Member>, m: Member)
    ensures Names(list + [m]) == Names(list) + [m.nick]
  {
  }

  lemma EntriesAppend(list: seq<Member>, m: Member, nick: string)
    ensures Entries(list + [m], nick) == Entries(list, nick) + if m.nick == nick then 1 else 0
  {
    NamesAppend(list, m);
    assert multiset(Names(list) + [m.nick]) == multiset(Names(list)) + multiset{m.nick};
  }

  lemma EntriesDel(list: seq<Member>, nick: string, n: string)
    ensures Entries(DelNick(list, nick), n) ==
            if n == nick && Entries(list, n) > 0 then Entries(list, n) - 1 else Entries(list, n)
  {
    NamesDel(list, nick);
  }

  lemma {:induction false} DelNickIsSplice(list: seq<Member>, nick: string, i: nat)
    requires i < |list| && list[i].nick == nick
    requires forall j :: 0 <= j < i ==> list[j].nick != nick
    ensures DelNick(list, nick) == list[..i] + list[i + 1..]
  {
    if i != 0 {
      DelNickIsSplice(list[1..], nick, i - 1);
      assert list[..i] + list[i + 1..] == [list[0]] + (list[1..][..i - 1] + list[1..][i..]);
    }
  }

  lemma {:induction false} DelNickAbsent(list: seq<Member>, nick: string)
    requires nick !in Names(list)
    ensures DelNick(list, nick) == list
  {
    if list != [] {
      assert Names(list)[1..] == Names(list[1..]);
      DelNickAbsent(list[1..], nick);
    }
  }

  /** channel.go ChannelNicks. */
  class ChannelNicks {
    var nicks: seq<Member>

    constructor (nicks: seq<Member>)
      ensures this.nicks == nicks
    {
      this.nicks := nicks;
    }

    method NickNames() returns (ret: seq<string>)
      ensures ret == Names(nicks)
    {
      var buf := new string[|nicks|];
      for i := 0 to |nicks|
        invariant forall j :: 0 <= j < i ==> buf[j] == nicks[j].nick
      {
        buf[i] := nicks[i].nick;
      }
      ret := buf[..];
    }

    method Find(nick: string) returns (r: Option<Member>)
      ensures r == FindNick(nicks, nick)
    {
      for i := 0 to |nicks|
        invariant FindNick(nicks, nick) == FindNick(nicks[i..], nick)
      {
        if nicks[i].nick == nick { return Some(nicks[i]); }
      }
      return None;
    }

    method Del(nick: string) returns (found: bool)
      modifies this
      ensures nicks == DelNick(old(nicks), nick)
      ensures found <==> nick in Names(old(nicks))
    {
      for i := 0 to |nicks|
        invariant nicks == old(nicks)
        invariant forall j :: 0 <= j < i ==> nicks[j].nick != nick
      {
        if nicks[i].nick == nick {
          DelNickIsSplice(nicks, nick, i);
          assert Names(nicks)[i] == nick;
          nicks := nicks[..i] + nicks[i + 1..];
          return true;
        }
      }
      DelNickAbsent(nicks, nick);
      return false;
    }
  }

  /** user.go UserValue, for the methods that edit it. */
  class UserValue {
    var uv: User

    constructor (uv: User)
      ensures this.uv == uv
    {
      this.uv := uv;
    }

    method InChan(ch: string) returns (on: bool)
      ensures on <==> ch in uv.channels
    {
      for i := 0 to |uv.channels|
        invariant ch !in uv.channels[..i]
      {
        if uv.channels[i] == ch { return true; }
      }
      return false;
    }

    method Part(ch: string) returns (found: bool)
      modifies this
      ensures uv == old(uv).(channels := Without(old(uv).channels, ch))
      ensures found <==> ch in old(uv).channels
    {
      for i := 0 to |uv.channels|
        invariant uv == old(uv)
        invariant ch !in uv.channels[..i]
      {
        if uv.channels[i] == ch {
          WithoutIsSplice(uv.channels, ch, i);
          uv := uv.(channels := uv.channels[..i] + uv.channels[i + 1..]);
          return true;
        }
      }
      WithoutAbsent(uv.channels, ch);
      return false;
    }
  }
}
