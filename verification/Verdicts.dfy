/**
 What a reply means: for each command whose attempt can commit, the verdict as a condition on the
 records it is given on.
 */
module Verdicts {
  import opened Records
  import opened Etcd
  import opened Commands
  import opened Protocol
  import opened Retry
  import opened Effects
  import Modes

  /** Join answers with the channel's topic, or with none for a new channel. */
  lemma JoinVerdict(s: Store, c: Client, ch: string)
    requires Inv(s) && Registered(s, c)
    ensures Verdict(Join(ch), c, s) == TopicIs(if ChanIn(s.kv, ch).Some? then ChanIn(s.kv, ch).value.topic else "")
  {
    assert EntryOk(s, ChanCtl(ch));
  }

  /** Part complains exactly when the channel is not in the caller's record. */
  lemma PartVerdict(s: Store, c: Client, ch: string, msg: string)
    requires Inv(s) && Registered(s, c)
    ensures Verdict(Part(ch, msg), c, s) == if On(s, c.nick, ch) then Silent else NotOnChannel
  {
  }

  lemma QuitVerdict(s: Store, c: Client, msg: string)
    ensures Verdict(Quit(msg), c, s) == Silent
  {
  }

  /** kick: the caller must be on the channel, then its operator, and then the target on it. */
  lemma KickReplies(s: Store, c: Client, ch: string, target: string, msg: string)
    requires Inv(s) && Registered(s, c)
    ensures Verdict(Kick(ch, target, msg), c, s) ==
      if !Listed(s, c, ch) then NotOnChannel
      else if !IsOperator(s, c, ch) then OpNeeded
      else if !On(s, target, ch) then UserNotInChannel
      else Silent
  {
    EntryMeans(s, c, ch);
    assert EntryOk(s, ChanNicks(ch, c.lease)) && EntryOk(s, UserCtl(target));
    KickSettled(s, c, ch, target, FRESH);
  }

  /** chanMode: the channel must exist, the caller be on it and be operator to change the mode, which comes back. */
  lemma ChanModeReplies(s: Store, c: Client, ch: string, modes: seq<string>, spare: string)
    requires Inv(s) && Registered(s, c) && TxnOf(ChanMode(ch, modes, spare), c, s).Ready?
    ensures Verdict(ChanMode(ch, modes, spare), c, s) ==
      if ChanIn(s.kv, ch).None? then NoChanModes
      else if !Listed(s, c, ch) then NotOnChannel
      else if modes == [] then ModeIs(ChanIn(s.kv, ch).value.mode, "")
      else if !IsOperator(s, c, ch) then OpNeeded
      else ModeIs(Modes.Apply(ChanIn(s.kv, ch).value.mode, spare, modes, Modes.CHAN_PERMS).mode, "")
  {
    EntryMeans(s, c, ch);
    assert EntryOk(s, ChanCtl(ch)) && EntryOk(s, ChanNicks(ch, c.lease));
    ChanModeSettled(s, c, ch, modes, spare, FRESH);
  }

  /** userMode: the mode comes back, and the rejected letters of what was asked. */
  lemma UserModeVerdict(s: Store, c: Client, modes: seq<string>, spare: string)
    requires Inv(s) && Registered(s, c)
    ensures var up := Modes.Apply(UserIn(s.kv, c.nick).value.mode, spare, modes, Modes.USER_PERMS);
      Verdict(UserMode(modes, spare), c, s) == ModeIs(up.mode, if modes == [] then "" else up.bad)
  {
  }

  /** Oper welcomes exactly those whose operator record has the password. */
  lemma OperVerdict(s: Store, c: Client, login: string, pass: string)
    requires Inv(s) && Registered(s, c)
    ensures Verdict(Oper(login, pass), c, s) == if PasswordFits(s, login, pass) then YoureOper else PasswordMismatch
  {
  }

  lemma AwayVerdict(s: Store, c: Client, msg: string)
    ensures Verdict(Away(msg), c, s) == if msg == "" then Unaway else NowAway
  {
  }

  /** Topic: the channel must exist; a query is answered; a protected topic needs its operator. */
  lemma TopicReplies(s: Store, c: Client, ch: string, text: Option<string>)
    requires Inv(s) && Registered(s, c) && TxnOf(Topic(ch, text), c, s).Ready?
    ensures Verdict(Topic(ch, text), c, s) ==
      if ChanIn(s.kv, ch).None? then NoChanModes
      else if text.None? then TopicIs(ChanIn(s.kv, ch).value.topic)
      else if 't' !in ChanIn(s.kv, ch).value.mode then Silent
      else if !Listed(s, c, ch) then NotOnChannel
      else if !IsOperator(s, c, ch) then OpNeeded
      else Silent
  {
    EntryMeans(s, c, ch);
    assert EntryOk(s, ChanCtl(ch)) && EntryOk(s, ChanNicks(ch, c.lease));
    if text.Some? && ChanIn(s.kv, ch).Some? { TopicSetReplies(s, c, ch, text.value); }
  }

  lemma TopicSetReplies(s: Store, c: Client, ch: string, text: string)
    requires Inv(s) && ChanIn(s.kv, ch).Some? && TxnOf(Topic(ch, Some(text)), c, s).Ready?
    ensures Verdict(Topic(ch, Some(text)), c, s) ==
      if 't' !in ChanIn(s.kv, ch).value.mode then Silent
      else if !Listed(s, c, ch) then NotOnChannel
      else if !IsOperator(s, c, ch) then OpNeeded
      else Silent
  {
    EntryMeans(s, c, ch);
    if 't' in ChanIn(s.kv, ch).value.mode {
      TopicPath(s, c, ch, text, FRESH);
    } else {
      assert TopicFlags(s, c, ch, Some(text), FRESH) == FRESH;
    }
  }

  /** A message to a user: the target must exist, and take unencrypted text from the sender unless it is away. */
  lemma PrivMsgUserReplies(s: Store, c: Client, target: string, msg: string)
    requires Inv(s) && Registered(s, c)
    ensures var u, v := UserIn(s.kv, c.nick).value, UserIn(s.kv, target);
      Verdict(PrivMsgUser(target, msg), c, s) ==
        if v.None? then NoSuchNick
        else if 'a' in v.value.mode || Encrypted(msg) then Silent
        else if 'E' in u.mode || 'E' in v.value.mode then NoText
        else Silent
  {
    assert EntryOk(s, UserCtl(target));
    assert "?OTR" <= msg <==> Encrypted(msg);
    PrivMsgUserSettled(s, c, target, msg, FRESH);
  }

  /** A message to a channel: it must exist; a moderated one must list the sender, as its operator. */
  lemma PrivMsgChanReplies(s: Store, c: Client, ch: string, msg: string)
    requires Inv(s) && Registered(s, c) && TxnOf(PrivMsgChan(ch, msg), c, s).Ready?
    ensures Verdict(PrivMsgChan(ch, msg), c, s) ==
      if ChanIn(s.kv, ch).None? then NoSuchNick
      else if 'm' !in ChanIn(s.kv, ch).value.mode then Silent
      else if !Listed(s, c, ch) then NoSuchNick
      else if !IsOperator(s, c, ch) then CannotSend
      else Silent
  {
    EntryMeans(s, c, ch);
    assert EntryOk(s, ChanCtl(ch)) && EntryOk(s, ChanNicks(ch, c.lease));
    if ChanIn(s.kv, ch).Some? && 'm' in ChanIn(s.kv, ch).value.mode {
      PrivMsgChanPath(s, c, ch, FRESH);
    } else if ChanIn(s.kv, ch).Some? {
      assert PrivMsgChanFlags(s, c, ch, FRESH) == FRESH;
    }
  }
}
