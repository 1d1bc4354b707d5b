/** What a client hears: the message watcher (monitorMsg) over the events of one key. */
module Watchers {
  import opened Seqs
  import opened Records
  import opened Etcd

  // ----- the message watcher

  /** A watch response: an error, or the events of the watched key in revision order. */
  datatype Response = Failed | Batch(events: seq<Change>)

  datatype Item = Broken | Event(change: Change)

  datatype Outcome = Drained | Left(ch: string) | LeaseLost | WatchFailed | Panicked | Unsent

  datatype Reaction = Stay | Leave(ch: string) | Crash

  /** What the server says in its own name when the lease is lost. */
  const HOST: Prefix := Prefix("server", "", "")
  const SERVER: Message := Message(Some(HOST), ERROR, [])

  /** The switch after a message is sent; it dereferences the prefix and parameters unchecked. */
  function React(nick: string, m: Message): Reaction {
    if m.command == PART then
      if m.prefix.None? then Crash
      else if m.prefix.value.name != nick then Stay
      else if m.params == [] then Crash else Leave(m.params[0])
    else if m.command == KICK then
      if |m.params| < 2 then Crash
      else if m.params[1] == nick then Leave(m.params[0]) else Stay
    else Stay
  }

  predicate OwnPrivMsg(nick: string, m: Message) {
    m.prefix.Some? && m.prefix.value.name == nick && m.command == PRIVMSG
  }

  /** The message an item makes the watcher send, if any. */
  function Sends(nick: string, it: Item): Option<Message> {
    if it.Broken? then None
    else if it.change.Gone? then Some(SERVER)
    else if it.change.value.MsgV? && !OwnPrivMsg(nick, it.change.value.msg) then Some(it.change.value.msg)
    else None
  }

  /** How an item ends the watch, if it does. */
  function Ends(nick: string, it: Item): Option<Outcome> {
    if it.Broken? then Some(WatchFailed)
    else if it.change.Gone? then Some(LeaseLost)
    else if Sends(nick, it).None? then None
    else match React(nick, it.change.value.msg)
         case Stay => None
         case Leave(ch) => Some(Left(ch))
         case Crash => Some(Panicked)
  }

  function AllSent(nick: string, items: seq<Item>): seq<Message> {
    if items == [] then []
    else
      var m := Sends(nick, items[0]);
      (if m.Some? then [m.value] else []) + AllSent(nick, items[1..])
  }

  /**
   `n` items are handled: none but the last ends the watch. The last is `Unsent` if its message
   could not be sent.
   */
  ghost predicate Handled(nick: string, items: seq<Item>, n: nat, end: Outcome) {
    && n <= |items|
    && (forall i :: 0 <= i < n - 1 ==> Ends(nick, items[i]).None?)
    && (if end == Drained then n == |items| && (n > 0 ==> Ends(nick, items[n - 1]).None?)
        else n > 0 && EndsWith(nick, items[n - 1], end))
  }

  predicate EndsWith(nick: string, it: Item, end: Outcome) {
    if end == Unsent then Sends(nick, it).Some? else Ends(nick, it) == Some(end)
  }

  /** What goes out while `n` items are handled. */
  function Delivered(nick: string, items: seq<Item>, n: nat, end: Outcome): seq<Message>
    requires n <= |items| && (end == Unsent ==> n > 0)
  {
    AllSent(nick, items[..if end == Unsent then n - 1 else n])
  }

  ghost predicate Calm(nick: string, items: seq<Item>) {
    forall i :: 0 <= i < |items| ==> Ends(nick, items[i]).None?
  }

  lemma CalmAppend(nick: string, a: seq<Item>, b: seq<Item>)
    requires Calm(nick, a) && Calm(nick, b)
    ensures Calm(nick, a + b)
  {
  }

  lemma SliceWithin(before: seq<Item>, items: seq<Item>, all: seq<Item>, m: nat)
    requires m <= |items| && before + items <= all
    ensures |before| + m <= |all| && all[..|before| + m] == before + items[..m]
  {
    var both := before + items;
    assert all[..|both|] == both;
    assert all[..|before| + m] == both[..|before| + m];
  }

  /** Handling `items` after a calm beginning is handling the whole. */
  lemma HandledWithin(nick: string, before: seq<Item>, items: seq<Item>, all: seq<Item>, n: nat, end: Outcome)
    requires Calm(nick, before) && Handled(nick, items, n, end) && end != Drained && before + items <= all
    ensures Handled(nick, all, |before| + n, end)
  {
    SliceWithin(before, items, all, n);
    forall i | 0 <= i < |before| + n ensures all[i] == if i < |before| then before[i] else items[i - |before|] {
      assert all[i] == all[..|before| + n][i];
    }
  }

  lemma DeliveredWithin(nick: string, before: seq<Item>, items: seq<Item>, all: seq<Item>, n: nat, end: Outcome)
    requires n <= |items| && n > 0 && before + items <= all
    ensures |before| + n <= |all|
    ensures Delivered(nick, all, |before| + n, end) == AllSent(nick, before) + Delivered(nick, items, n, end)
  {
    var m := if end == Unsent then n - 1 else n;
    SliceWithin(before, items, all, n);
    SliceWithin(before, items, all, m);
    AllSentAppend(nick, before, items[..m]);
  }

  function Flatten(resps: seq<Response>): seq<Item> {
    if resps == [] then []
    else Flatten(resps[..|resps| - 1]) + ItemsOf(resps[|resps| - 1])
  }

  function ItemsOf(r: Response): seq<Item> {
    if r.Failed? then [Broken] else seq(|r.events|, i requires 0 <= i < |r.events| => Event(r.events[i]))
  }

  lemma {:induction false} AllSentAppend(nick: string, a: seq<Item>, b: seq<Item>)
    ensures AllSent(nick, a + b) == AllSent(nick, a) + AllSent(nick, b)
  {
    if a == [] {
      assert a + b == b;
    } else {
      assert (a + b)[1..] == a[1..] + b;
      AllSentAppend(nick, a[1..], b);
      var m := Sends(nick, a[0]);
      Assoc(if m.Some? then [m.value] else [], AllSent(nick, a[1..]), AllSent(nick, b));
    }
  }

  lemma SentOneMore(nick: string, items: seq<Item>, n: nat)
    requires n < |items|
    ensures AllSent(nick, items[..n + 1]) ==
            AllSent(nick, items[..n]) + (if Sends(nick, items[n]).Some? then [Sends(nick, items[n]).value] else [])
  {
    assert items[..n + 1] == items[..n] + [items[n]];
    AllSentAppend(nick, items[..n], [items[n]]);
    assert [items[n]][1..] == [];
  }

  /** Where the outer loop stands: `done` is handled and calm, or it stopped after `n` items of `all`. */
  ghost predicate Progress(nick: string, done: seq<Item>, all: seq<Item>, n: nat, end: Outcome, out: seq<Message>) {
    if end == Drained then Calm(nick, done) && out == AllSent(nick, done)
    else Handled(nick, all, n, end) && out == Delivered(nick, all, n, end)
  }

  lemma OneMore(nick: string, done: seq<Item>, items: seq<Item>, next: seq<Item>, all: seq<Item>,
                m: nat, end: Outcome, out: seq<Message>)
    requires next == done + items && next <= all
    requires Progress(nick, done, all, 0, Drained, out) && Handled(nick, items, m, end)
    ensures Progress(nick, next, all, |done| + m, end, out + Delivered(nick, items, m, end))
  {
    if end == Drained {
      assert items[..m] == items;
      AllSentAppend(nick, done, items);
      CalmAppend(nick, done, items);
    } else {
      HandledWithin(nick, done, items, all, m, end);
      DeliveredWithin(nick, done, items, all, m, end);
    }
  }

  lemma FlattenMore(resps: seq<Response>, i: nat)
    requires i < |resps|
    ensures Flatten(resps[..i + 1]) == Flatten(resps[..i]) + ItemsOf(resps[i])
    ensures Flatten(resps[..i + 1]) <= Flatten(resps)
  {
    assert resps[..i + 1][..i] == resps[..i];
    FlattenPrefix(resps, i + 1);
  }

  ghost predicate StandsAt(nick: string, resps: seq<Response>, i: nat, n: nat, end: Outcome, out: seq<Message>)
    requires i <= |resps|
  {
    Progress(nick, Flatten(resps[..i]), Flatten(resps), n, end, out)
  }

  lemma Turn(nick: string, resps: seq<Response>, i: nat, m: nat, end: Outcome, out: seq<Message>) returns (n: nat)
    requires i < |resps| && StandsAt(nick, resps, i, 0, Drained, out) && Handled(nick, ItemsOf(resps[i]), m, end)
    ensures StandsAt(nick, resps, i + 1, n, end, out + Delivered(nick, ItemsOf(resps[i]), m, end))
  {
    FlattenMore(resps, i);
    n := |Flatten(resps[..i])| + m;
    OneMore(nick, Flatten(resps[..i]), ItemsOf(resps[i]), Flatten(resps[..i + 1]), Flatten(resps), m, end, out);
  }

  lemma Finish(nick: string, resps: seq<Response>, i: nat, was: nat, end: Outcome, out: seq<Message>) returns (n: nat)
    requires i <= |resps| && StandsAt(nick, resps, i, was, end, out) && (end == Drained ==> i == |resps|)
    ensures Handled(nick, Flatten(resps), n, end) && out == Delivered(nick, Flatten(resps), n, end)
  {
    n := was;
    if end == Drained {
      assert resps[..i] == resps;
      n := |Flatten(resps)|;
      assert Flatten(resps)[..n] == Flatten(resps);
    }
  }

  /** A client's connection: what was written to it, how much more it takes, and the watches it can cancel. */
  class Connection {
    const nick: string
    var sent: seq<Message>
    var room: nat
    var chCancel: set<string>

    constructor (nick: string, room: nat)
      ensures this.nick == nick && this.room == room && sent == [] && chCancel == {}
    {
      this.nick, this.room, sent, chCancel := nick, room, [], {};
    }

    /** Fails once the connection takes nothing more. */
    method SendMsg(m: Message) returns (ok: bool)
      modifies this`sent, this`room
      ensures ok <==> old(room) > 0
      ensures sent == if ok then old(sent) + [m] else old(sent)
      ensures room == if ok then old(room) - 1 else old(room)
    {
      ok := room > 0;
      if ok {
        sent, room := sent + [m], room - 1;
      }
    }

    /** Everything in `out` went out, and nothing else. */
    twostate predicate Wrote(out: seq<Message>)
      reads this
    {
      sent == old(sent) + out && room + |out| == old(room)
    }

    /**
     monitorMsg: sends the decodable messages in order, up to and including the first item that
     ends the watch, minus the client's own PRIVMSGs, or up to a message that cannot be sent.
     */
    method MonitorMsg(resps: seq<Response>) returns (end: Outcome, ghost n: nat)
      modifies this
      ensures Handled(nick, Flatten(resps), n, end)
      ensures Wrote(Delivered(nick, Flatten(resps), n, end)) && (end == Unsent ==> room == 0)
      ensures chCancel == if end.Left? then old(chCancel) - {end.ch} else old(chCancel)
    {
      end, n := Drained, 0;
      var i := 0;
      ghost var out: seq<Message> := [];
      while i < |resps| && end == Drained
        invariant i <= |resps| && StandsAt(nick, resps, i, n, end, out)
        invariant Wrote(out) && (end == Unsent ==> room == 0)
        invariant chCancel == if end.Left? then old(chCancel) - {end.ch} else old(chCancel)
      {
        ghost var m;
        end, m := HandleResponse(resps[i]);
        n := Turn(nick, resps, i, m, end, out);
        Assoc(old(sent), out, Delivered(nick, ItemsOf(resps[i]), m, end));
        out := out + Delivered(nick, ItemsOf(resps[i]), m, end);
        i := i + 1;
      }
      n := Finish(nick, resps, i, n, end, out);
    }

    /** One turn of monitorMsg's outer loop. */
    method HandleResponse(r: Response) returns (end: Outcome, ghost n: nat)
      modifies this
      ensures Handled(nick, ItemsOf(r), n, end)
      ensures Wrote(Delivered(nick, ItemsOf(r), n, end)) && (end == Unsent ==> room == 0)
      ensures chCancel == if end.Left? then old(chCancel) - {end.ch} else old(chCancel)
    {
      ghost var items := ItemsOf(r);
      end, n := Drained, 0;
      if r.Failed? {
        SentOneMore(nick, items, 0);
        assert Delivered(nick, items, 1, WatchFailed) == [];
        return WatchFailed, 1;
      }
      var e := 0;
      ghost var out: seq<Message> := [];
      while e < |r.events| && end == Drained
        invariant e <= |r.events| && Progress(nick, items[..e], items, n, end, out)
        invariant Wrote(out) && (end == Unsent ==> room == 0)
        invariant chCancel == if end.Left? then old(chCancel) - {end.ch} else old(chCancel)
      {
        end := HandleEvent(r.events[e]);
        n := NextItem(nick, items, e, end, out);
        Assoc(old(sent), out, Delivered(nick, [items[e]], 1, end));
        out := out + Delivered(nick, [items[e]], 1, end);
        e := e + 1;
      }
      if end == Drained {
        n := |items|;
        assert items[..e] == items;
      }
    }

    /** The body of monitorMsg's inner loop, for one event. */
    method HandleEvent(ev: Change) returns (outcome: Outcome)
      modifies this
      ensures Handled(nick, [Event(ev)], 1, outcome) && Wrote(Delivered(nick, [Event(ev)], 1, outcome))
      ensures outcome == Unsent ==> room == 0
      ensures chCancel == if outcome.Left? then old(chCancel) - {outcome.ch} else old(chCancel)
    {
      OneItem(nick, Event(ev));
      outcome := Drained;
      if ev.Set? && (!ev.value.MsgV? || OwnPrivMsg(nick, ev.value.msg)) {
        return;
      }
      var ok := SendMsg(if ev.Gone? then SERVER else ev.value.msg);
      if !ok {
        return Unsent;
      }
      if ev.Gone? {
        return LeaseLost;
      }
      match React(nick, ev.value.msg) {
        case Stay =>
        case Crash => outcome := Panicked;
        case Leave(ch) =>
          chCancel := chCancel - {ch};
          outcome := Left(ch);
      }
    }
  }

  /** What one item sends. */
  lemma OneItem(nick: string, it: Item)
    ensures AllSent(nick, [it][..0]) == []
    ensures AllSent(nick, [it][..1]) == if Sends(nick, it).None? then [] else [Sends(nick, it).value]
  {
    assert [it][..0] == [] && [it][..1] == [it] && [it][1..] == [];
    assert AllSent(nick, []) == [];
    if Sends(nick, it).Some? { assert [Sends(nick, it).value] + [] == [Sends(nick, it).value]; }
  }

  lemma NextItem(nick: string, items: seq<Item>, e: nat, end: Outcome, out: seq<Message>) returns (n: nat)
    requires e < |items| && Progress(nick, items[..e], items, 0, Drained, out) && Handled(nick, [items[e]], 1, end)
    ensures Progress(nick, items[..e + 1], items, n, end, out + Delivered(nick, [items[e]], 1, end))
  {
    assert items[..e + 1] == items[..e] + [items[e]];
    n := e + 1;
    OneMore(nick, items[..e], [items[e]], items[..e + 1], items, 1, end, out);
  }

  lemma {:induction false} FlattenPrefix(resps: seq<Response>, i: nat)
    requires i <= |resps|
    ensures Flatten(resps[..i]) <= Flatten(resps)
    decreases |resps| - i
  {
    if i == |resps| {
      assert resps[..i] == resps;
    } else {
      assert resps[..i + 1][..i] == resps[..i];
      FlattenPrefix(resps, i + 1);
    }
  }
}
