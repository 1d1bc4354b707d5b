/** Where a user's privileged modes come from, over whole runs. */
module UserModes {
  import opened Seqs
  import opened Records
  import opened Etcd
  import opened Commands
  import opened Protocol
  import opened Membership
  import opened Runs

  /** The step is a successful Oper login by `n` for an operator record of the kind letter `x` stands for. */
  predicate Login(s: Store, a: Action, n: string, x: char) {
    && a.Command? && a.c.nick == n && a.op.Oper?
    && s.Read(OperCtl(a.op.login)).OperV?
    && s.Read(OperCtl(a.op.login)).oper.pass == a.op.pass
    && s.Read(OperCtl(a.op.login)).oper.global == (x == 'O')
  }

  predicate HasMode(kv: Kv, n: string, x: char) {
    UserIn(kv, n).Some? && x in UserIn(kv, n).value.mode
  }

  /** Any letter outside the MODE table's `add` set is only ever added by Oper or Away. */
  lemma CommandModes(s: Store, c: Client, op: Op, n: string, x: char)
    requires Inv(s) && Registered(s, c) && x in {'o', 'O'}
    ensures HasMode(Next(s, Command(c, op)).kv, n, x) ==> HasMode(s.kv, n, x) || Login(s, Command(c, op), n, x)
  {
    if TxnOf(op, c, s).Ready? {
      var ws := TxnOf(op, c, s).ws;
      NeverRefused(s, c, op);
      CommitEffect(s, ws);
      assert WroteAt(s, ws, Commit(s, ws), UserCtl(n));
      StagedModes(s, c, op, n, x);
    }
  }

  /** A transaction stages a record for `n` that has `x`. */
  predicate StagesMode(ws: Writes, n: string, x: char) {
    UserCtl(n) in ws && ws[UserCtl(n)].Put? && ws[UserCtl(n)].value.UserV? && x in ws[UserCtl(n)].value.user.mode
  }

  lemma StagedModes(s: Store, c: Client, op: Op, n: string, x: char)
    requires Inv(s) && Registered(s, c) && x in {'o', 'O'} && TxnOf(op, c, s).Ready?
    ensures StagesMode(TxnOf(op, c, s).ws, n, x) ==> HasMode(s.kv, n, x) || Login(s, Command(c, op), n, x)
  {
    match op {
      case UserMode(modes, spare) => UserModeStages(s, c, modes, spare, n, x);
      case Away(msg) => AwayStages(s, c, msg, n, x);
      case Oper(login, pass) => OperStages(s, c, login, pass, n, x);
      case Quit(msg) =>
        QuitStages(s, c, msg);
        assert QuitsAt(s, c, UserIn(s.kv, c.nick).value, msg, TxnOf(op, c, s).ws, UserCtl(n));
      case _ =>
    }
  }

  lemma UserModeStages(s: Store, c: Client, modes: seq<string>, spare: string, n: string, x: char)
    requires Registered(s, c) && x in {'o', 'O'} && UserModeTxn(s, c, modes, spare).Ready?
    ensures StagesMode(UserModeTxn(s, c, modes, spare).ws, n, x) ==> HasMode(s.kv, n, x)
  {
    UserModeAddsNone(UserIn(s.kv, c.nick).value.mode, spare, modes, x);
  }

  lemma AwayStages(s: Store, c: Client, msg: string, n: string, x: char)
    requires Registered(s, c) && x in {'o', 'O'} && AwayTxn(s, c, msg).Ready?
    ensures StagesMode(AwayTxn(s, c, msg).ws, n, x) ==> HasMode(s.kv, n, x)
  {
    WithoutOthers(UserIn(s.kv, c.nick).value.mode, 'a', x);
  }

  lemma OperStages(s: Store, c: Client, login: string, pass: string, n: string, x: char)
    requires Registered(s, c) && x in {'o', 'O'} && OperTxn(s, c, login, pass).Ready?
    ensures StagesMode(OperTxn(s, c, login, pass).ws, n, x) ==>
      HasMode(s.kv, n, x) || Login(s, Command(c, Oper(login, pass)), n, x)
  {
  }

  lemma RegisterModes(s: Store, c: Client, pinned: string, n: string, x: char)
    requires Inv(s) && Enabled(s, Register(c, pinned)) && x in {'o', 'O'}
    ensures HasMode(Next(s, Register(c, pinned)).kv, n, x) ==> HasMode(s.kv, n, x)
  {
    var ws := RegisterWrites(c, pinned);
    if UserCtl(c.nick) !in s.kv && Accepts(s, ws) {
      CommitEffect(s, ws);
      assert WroteAt(s, ws, Commit(s, ws), UserCtl(n));
    }
  }

  lemma SetOperModes(s: Store, login: string, oper: OperValue, n: string, x: char)
    requires Inv(s)
    ensures HasMode(Next(s, SetOper(login, oper)).kv, n, x) ==> HasMode(s.kv, n, x)
  {
    var ws := map[OperCtl(login) := Put(OperV(oper), Detach)];
    CommitEffect(s, ws);
    assert WroteAt(s, ws, Commit(s, ws), UserCtl(n));
  }

  lemma StepModes(s: Store, a: Action, n: string, x: char)
    requires Inv(s) && Enabled(s, a) && x in {'o', 'O'}
    ensures HasMode(Next(s, a).kv, n, x) ==> HasMode(s.kv, n, x) || Login(s, a, n, x)
  {
    match a {
      case Command(c, op) => CommandModes(s, c, op, n, x);
      case Register(c, pinned) => RegisterModes(s, c, pinned, n, x);
      case Cleanup(server, k, rev) => CleanupSafe(s, server, k, rev);
      case Expiry(l) => ExpireEffect(s, l);
      case Grant(_) =>
      case SetOper(login, oper) => SetOperModes(s, login, oper, n, x);
    }
  }

  /** Step `i` of the run logs `n` in, and `n` stays registered from there to the end of the run. */
  ghost predicate LoggedInAt(s: Store, acts: seq<Action>, i: nat, n: string, x: char) {
    && i < |acts|
    && Login(Run(s, acts[..i]), acts[i], n, x)
    && forall j :: i <= j <= |acts| ==> RegisteredAfter(s, acts, j, n)
  }

  predicate RegisteredAfter(s: Store, acts: seq<Action>, j: nat, n: string)
    requires j <= |acts|
  {
    UserIn(Run(s, acts[..j]).kv, n).Some?
  }

  lemma LastStepModes(s: Store, acts: seq<Action>, n: string, x: char)
    requires Inv(s) && AllEnabled(s, acts) && x in {'o', 'O'} && acts != [] && HasMode(Run(s, acts).kv, n, x)
    ensures HasMode(Run(s, acts[..|acts| - 1]).kv, n, x) || LoggedInAt(s, acts, |acts| - 1, n, x)
  {
    var m := |acts| - 1;
    PrefixEnabled(s, acts, m);
    RunKeeps(s, acts[..m]);
    StepModes(Run(s, acts[..m]), acts[m], n, x);
    if !HasMode(Run(s, acts[..m]).kv, n, x) {
      assert RegisteredAfter(s, acts, m, n);
      assert RegisteredAfter(s, acts, m + 1, n) by { assert acts[..m + 1] == acts; }
      JustLoggedIn(s, acts, m, n, x);
    }
  }

  lemma StillRegistered(s: Store, acts: seq<Action>, i: nat, n: string, x: char)
    requires acts != [] && LoggedInAt(s, acts[..|acts| - 1], i, n, x)
    requires UserIn(Run(s, acts).kv, n).Some?
    ensures LoggedInAt(s, acts, i, n, x)
  {
    var m := |acts| - 1;
    assert acts[..m][..i] == acts[..i];
    forall j | i <= j <= |acts| ensures RegisteredAfter(s, acts, j, n) {
      if j <= m {
        assert RegisteredAfter(s, acts[..m], j, n);
        assert acts[..m][..j] == acts[..j];
      } else {
        assert acts[..j] == acts;
      }
    }
  }

  lemma JustLoggedIn(s: Store, acts: seq<Action>, m: nat, n: string, x: char)
    requires |acts| == m + 1 && RegisteredAfter(s, acts, m + 1, n) && RegisteredAfter(s, acts, m, n)
    requires Login(Run(s, acts[..m]), acts[m], n, x)
    ensures LoggedInAt(s, acts, m, n, x)
  {
    forall j | m <= j <= |acts| ensures RegisteredAfter(s, acts, j, n) {
      assert j == m || j == m + 1;
    }
  }

  /**
   In every run, a user has `o` or `O` only after a successful Oper of the matching kind in
   that same registration.
   */
  lemma {:induction false} OperModeEarned(s: Store, acts: seq<Action>, n: string, x: char) returns (i: nat)
    requires Inv(s) && AllEnabled(s, acts) && x in {'o', 'O'}
    requires !HasMode(s.kv, n, x) && HasMode(Run(s, acts).kv, n, x)
    ensures LoggedInAt(s, acts, i, n, x)
    decreases acts
  {
    LastStepModes(s, acts, n, x);
    var m := |acts| - 1;
    if HasMode(Run(s, acts[..m]).kv, n, x) {
      PrefixEnabled(s, acts, m);
      i := OperModeEarned(s, acts[..m], n, x);
      StillRegistered(s, acts, i, n, x);
    } else {
      i := m;
    }
  }

  /** In every run, a user is marked away only while its away message is non-empty. */
  lemma AwayHasMessage(acts: seq<Action>, n: string)
    requires AllEnabled(EMPTY, acts) && HasMode(Run(EMPTY, acts).kv, n, 'a')
    ensures UserIn(Run(EMPTY, acts).kv, n).value.awayMsg != ""
  {
    EmptyInv();
    RunKeeps(EMPTY, acts);
    assert EntryOk(Run(EMPTY, acts), UserCtl(n));
  }
}
