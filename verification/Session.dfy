/**
 The session keeper (session.go) as a state machine: the loop goroutine, the context, the
 loss of sessions and any number of Session() callers, interleaved between lock sections.
 */
module Session {
  import opened Records

  /** Sessions are numbered in the order NewSession returns them. */
  type Id = nat

  /** Where the loop goroutine stands; `Publishing` and `Announcing` hold the new session. */
  datatype Loop = Creating | Failed | Publishing(id: Id) | Announcing(id: Id) | Serving(id: Id)
                | Renewing | Pausing | Exited

  /** Where a caller of Session() stands; `rc` is the readiness channel it read. */
  datatype Caller =
    | Waiting(rc: nat)
    | Ready(rc: nat)
    | Read(rc: nat, got: Option<Id>)
    | Returned(rc: nat, result: Option<Id>, err: bool)

  /** `chans[i]` is the session announced by closing channel i, or `None` while it is open. */
  datatype State = State(loop: Loop, s: Option<Id>, readyc: nat, chans: seq<Option<Id>>, next: Id,
                         lost: set<Id>, cancelled: bool, panicked: bool, callers: map<nat, Caller>)

  const INIT: State := State(Creating, None, 0, [None], 0, {}, false, false, map[])

  datatype Step =
    | Fail | Create | Retry | Publish | Announce | Renew | Reopen | Exit
    | Lose(id: Id) | Cancel
    | Call(who: nat) | Observe(who: nat) | GiveUp(who: nat) | ReadSession(who: nat) | Return(who: nat)

  predicate AtCaller(st: State, who: nat, ready: bool) {
    who in st.callers && if ready then st.callers[who].Ready? else st.callers[who].Waiting?
  }

  predicate Enabled(st: State, step: Step) {
    match step
    case Fail => st.loop.Creating?
    case Create => st.loop.Creating?
    case Retry => st.loop.Failed? || st.loop.Pausing?
    case Publish => st.loop.Publishing?
    case Announce => st.loop.Announcing?
    case Renew => st.loop.Serving? && st.loop.id in st.lost
    case Reopen => st.loop.Renewing?
    case Exit => st.cancelled && (st.loop.Failed? || st.loop.Serving? || st.loop.Pausing?)
    case Lose(id) => id < st.next
    case Cancel => true
    case Call(who) => who !in st.callers || st.callers[who].Returned?
    case Observe(who) =>
      AtCaller(st, who, false) && st.callers[who].rc < |st.chans| && st.chans[st.callers[who].rc].Some?
    case GiveUp(who) => AtCaller(st, who, false) && st.cancelled
    case ReadSession(who) => AtCaller(st, who, true)
    case Return(who) => who in st.callers && st.callers[who].Read?
  }

  function Move(st: State, who: nat, c: Caller): State { st.(callers := st.callers[who := c]) }

  /** close(es.readyc): closing a closed channel panics. */
  function CloseReady(st: State, id: Id): State {
    if st.readyc < |st.chans| && st.chans[st.readyc].None?
    then st.(chans := st.chans[st.readyc := Some(id)])
    else st.(panicked := true)
  }

  function Next(st: State, step: Step): State
    requires Enabled(st, step)
  {
    match step
    case Fail => st.(loop := Failed)
    case Create => st.(loop := Publishing(st.next), next := st.next + 1)
    case Retry => st.(loop := Creating)
    case Publish => st.(loop := Announcing(st.loop.id), s := Some(st.loop.id))
    case Announce => CloseReady(st, st.loop.id).(loop := Serving(st.loop.id))
    case Renew => st.(loop := Renewing)
    case Reopen => st.(loop := Pausing, readyc := |st.chans|, chans := st.chans + [None])
    case Exit => st.(loop := Exited)
    case Lose(id) => st.(lost := st.lost + {id})
    case Cancel => st.(cancelled := true)
    case Call(who) => Move(st, who, Waiting(st.readyc))
    case Observe(who) => Move(st, who, Ready(st.callers[who].rc))
    case GiveUp(who) => Move(st, who, Returned(st.callers[who].rc, None, true))
    case ReadSession(who) => Move(st, who, Read(st.callers[who].rc, st.s))
    case Return(who) => Move(st, who, Returned(st.callers[who].rc, st.callers[who].got, st.cancelled))
  }

  predicate AllEnabled(st: State, steps: seq<Step>)
    decreases |steps|
  {
    steps == [] || (Enabled(st, steps[0]) && AllEnabled(Next(st, steps[0]), steps[1..]))
  }

  function Run(st: State, steps: seq<Step>): State
    requires AllEnabled(st, steps)
    decreases |steps|
  {
    if steps == [] then st else Run(Next(st, steps[0]), steps[1..])
  }

  // ----- the invariant

  /** Only the newest channel may be open, and it is open except from Announce to Reopen. */
  predicate ChannelOk(st: State, i: nat)
    requires i < |st.chans|
  {
    && (i < |st.chans| - 1 ==> st.chans[i].Some?)
    && (st.chans[i].Some? ==> st.s.Some? && st.chans[i].value <= st.s.value)
  }

  predicate LoopOk(st: State)
    requires st.readyc < |st.chans|
  {
    var newest := st.chans[st.readyc];
    match st.loop
    case Creating => newest.None?
    case Failed => newest.None?
    case Publishing(id) => newest.None? && id < st.next && (st.s.Some? ==> st.s.value < id)
    case Announcing(id) => newest.None? && st.s == Some(id)
    case Serving(id) => newest == Some(id) && st.s == Some(id)
    case Renewing => newest.Some?
    case Pausing => newest.None?
    case Exited => true
  }

  /** The session the loop has published and still stands by. */
  predicate Served(st: State, id: Id) {
    (st.loop.Announcing? || st.loop.Serving?) && st.loop.id == id
  }

  /** A published session that is not the served one is lost, unless the loop has exited. */
  predicate Accounted(st: State, id: Id) { Served(st, id) || id in st.lost || st.loop.Exited? }

  predicate Fresh(st: State, rc: nat, got: Option<Id>) {
    && rc < |st.chans| && st.chans[rc].Some?
    && got.Some? && got.value >= st.chans[rc].value && Accounted(st, got.value)
    && st.s.Some? && got.value <= st.s.value
  }

  predicate CallerOk(st: State, c: Caller) {
    c.rc < |st.chans| &&
    match c
    case Waiting(_) => true
    case Ready(rc) => st.chans[rc].Some?
    case Read(rc, got) => Fresh(st, rc, got)
    case Returned(rc, result, err) => (result.None? ==> err && st.cancelled) && (result.Some? ==> Fresh(st, rc, result))
  }

  ghost predicate Inv(st: State) {
    && st.chans != [] && st.readyc == |st.chans| - 1 && !st.panicked
    && (st.s.Some? ==> st.s.value < st.next && Accounted(st, st.s.value))
    && (st.loop.Exited? ==> st.cancelled)
    && LoopOk(st)
    && (forall i :: 0 <= i < |st.chans| ==> ChannelOk(st, i))
    && (forall who :: who in st.callers ==> CallerOk(st, st.callers[who]))
  }

  /** What any step may do to what callers rely on: channels and the session only advance. */
  predicate Advances(st: State, st': State) {
    && |st.chans| <= |st'.chans|
    && (forall i :: 0 <= i < |st.chans| && st.chans[i].Some? ==> st'.chans[i] == st.chans[i])
    && (st.s.Some? ==> st'.s.Some? && st.s.value <= st'.s.value)
    && (st.cancelled ==> st'.cancelled)
  }

  /** Whatever was accounted for still is. */
  ghost predicate KeepsAccount(st: State, st': State) { forall id :: Accounted(st, id) ==> Accounted(st', id) }

  lemma CallerStays(st: State, st': State, c: Caller)
    requires Advances(st, st') && KeepsAccount(st, st') && CallerOk(st, c)
    ensures CallerOk(st', c)
  {
  }

  predicate CallersStep(step: Step) {
    step.Call? || step.Observe? || step.GiveUp? || step.ReadSession? || step.Return?
  }

  /** The loop's steps keep its invariant and only advance the shared state. */
  lemma LoopStep(st: State, step: Step)
    requires Inv(st) && Enabled(st, step)
    requires !step.Announce? && !step.Reopen? && !CallersStep(step)
    ensures Inv(Next(st, step)) && Advances(st, Next(st, step))
  {
    var st' := Next(st, step);
    assert KeepsAccount(st, st');
    assert st'.chans == st.chans;
    forall i | 0 <= i < |st'.chans| ensures ChannelOk(st', i) { assert ChannelOk(st, i); }
    forall who | who in st'.callers ensures CallerOk(st', st'.callers[who]) { CallerStays(st, st', st.callers[who]); }
  }

  lemma AnnounceStep(st: State)
    requires Inv(st) && st.loop.Announcing?
    ensures Inv(Next(st, Announce)) && Advances(st, Next(st, Announce))
  {
    var st' := Next(st, Announce);
    forall i | 0 <= i < |st'.chans| ensures ChannelOk(st', i) { assert ChannelOk(st, i); }
    forall who | who in st'.callers ensures CallerOk(st', st'.callers[who]) { CallerStays(st, st', st.callers[who]); }
  }

  lemma ReopenStep(st: State)
    requires Inv(st) && st.loop.Renewing?
    ensures Inv(Next(st, Reopen)) && Advances(st, Next(st, Reopen))
  {
    var st' := Next(st, Reopen);
    forall i | 0 <= i < |st'.chans| ensures ChannelOk(st', i) { if i < |st.chans| { assert ChannelOk(st, i); } }
    forall who | who in st'.callers ensures CallerOk(st', st'.callers[who]) { CallerStays(st, st', st.callers[who]); }
  }

  lemma CallerStep(st: State, step: Step)
    requires Inv(st) && Enabled(st, step)
    requires CallersStep(step)
    ensures Inv(Next(st, step)) && Advances(st, Next(st, step))
  {
    var st', who := Next(st, step), step.who;
    forall i | 0 <= i < |st'.chans| ensures ChannelOk(st', i) { assert ChannelOk(st, i); }
    assert who in st.callers ==> CallerOk(st, st.callers[who]);
    if step.ReadSession? { assert ChannelOk(st, st.callers[who].rc); }
    assert CallerOk(st', st'.callers[who]);
    forall w | w in st'.callers ensures CallerOk(st', st'.callers[w]) {
      if w != who { CallerStays(st, st', st.callers[w]); }
    }
  }

  lemma StepSafe(st: State, step: Step)
    requires Inv(st) && Enabled(st, step)
    ensures Inv(Next(st, step)) && Advances(st, Next(st, step))
  {
    match step
    case Announce => AnnounceStep(st);
    case Reopen => ReopenStep(st);
    case Call(_) => CallerStep(st, step);
    case Observe(_) => CallerStep(st, step);
    case GiveUp(_) => CallerStep(st, step);
    case ReadSession(_) => CallerStep(st, step);
    case Return(_) => CallerStep(st, step);
    case _ => LoopStep(st, step);
  }

  lemma {:induction false} RunSafe(st: State, steps: seq<Step>)
    requires Inv(st) && AllEnabled(st, steps)
    ensures Inv(Run(st, steps)) && Advances(st, Run(st, steps))
    decreases |steps|
  {
    if steps != [] {
      StepSafe(st, steps[0]);
      RunSafe(Next(st, steps[0]), steps[1..]);
    }
  }

  // ----- what callers may rely on

  /** How often a run closes a channel, whether or not that panics. */
  function Closes(st: State, steps: seq<Step>, ch: nat): nat
    requires AllEnabled(st, steps)
    decreases |steps|
  {
    if steps == [] then 0
    else (if steps[0].Announce? && st.readyc == ch then 1 else 0) + Closes(Next(st, steps[0]), steps[1..], ch)
  }

  predicate IsClosed(st: State, ch: nat) { ch < |st.chans| && st.chans[ch].Some? }

  lemma CloseOnce(st: State, step: Step, ch: nat)
    requires Inv(st) && Enabled(st, step)
    ensures IsClosed(Next(st, step), ch) <==> IsClosed(st, ch) || (step.Announce? && st.readyc == ch)
    ensures step.Announce? && st.readyc == ch ==> !IsClosed(st, ch)
  {
  }

  lemma {:induction false} ClosesExactly(st: State, steps: seq<Step>, ch: nat)
    requires Inv(st) && AllEnabled(st, steps)
    ensures Closes(st, steps, ch) == if IsClosed(Run(st, steps), ch) && !IsClosed(st, ch) then 1 else 0
    decreases |steps|
  {
    if steps != [] {
      StepSafe(st, steps[0]);
      CloseOnce(st, steps[0], ch);
      ClosesExactly(Next(st, steps[0]), steps[1..], ch);
      RunSafe(Next(st, steps[0]), steps[1..]);
    }
  }

  /** In every interleaving each readiness channel is closed at most once, so close never panics. */
  lemma ClosedAtMostOnce(steps: seq<Step>, ch: nat)
    requires AllEnabled(INIT, steps)
    ensures Closes(INIT, steps, ch) <= 1 && !Run(INIT, steps).panicked
  {
    RunSafe(INIT, steps);
    ClosesExactly(INIT, steps, ch);
  }

  /**
   In every interleaving a Session() that returns without error has a session, no older than
   the one announced on the channel it waited for; it has none only on cancellation.
   */
  lemma SessionFresh(steps: seq<Step>, who: nat)
    requires AllEnabled(INIT, steps) && who in Run(INIT, steps).callers && Run(INIT, steps).callers[who].Returned?
    ensures var st, c := Run(INIT, steps), Run(INIT, steps).callers[who];
      && (!c.err ==> c.result.Some?)
      && (c.result.Some? ==> c.rc < |st.chans| && st.chans[c.rc].Some? && c.result.value >= st.chans[c.rc].value)
      && (c.result.None? ==> c.err && st.cancelled)
  {
    RunSafe(INIT, steps);
    var st := Run(INIT, steps);
    assert CallerOk(st, st.callers[who]);
  }

  /** Sessions never go backwards: a read after another call has read its session is no older. */
  lemma LaterReadNotOlder(past: seq<Step>, more: seq<Step>, first: nat, second: nat)
    requires AllEnabled(INIT, past) && AllEnabled(Run(INIT, past), more)
    requires first in Run(INIT, past).callers && Run(INIT, past).callers[first].Read?
    requires Enabled(Run(Run(INIT, past), more), ReadSession(second))
    ensures var a, st := Run(INIT, past).callers[first].got, Run(Run(INIT, past), more);
      var b := Next(st, ReadSession(second)).callers[second].got;
      a.Some? && b.Some? && a.value <= b.value
  {
    RunSafe(INIT, past);
    var st := Run(INIT, past);
    assert CallerOk(st, st.callers[first]);
    RunSafe(st, more);
  }

  /** While a session is being served, no caller is left waiting on a channel that stays open. */
  lemma NobodyStuck(steps: seq<Step>, who: nat)
    requires AllEnabled(INIT, steps) && Run(INIT, steps).loop.Serving?
    requires who in Run(INIT, steps).callers && Run(INIT, steps).callers[who].Waiting?
    ensures Enabled(Run(INIT, steps), Observe(who))
  {
    RunSafe(INIT, steps);
    var st := Run(INIT, steps);
    assert CallerOk(st, st.callers[who]);
    assert ChannelOk(st, st.callers[who].rc);
  }

  /**
   Freshness is not liveness. Without cancellation, what Session() reads is lost exactly when
   the loop is between sessions, or the session it stands by has been lost under it.
   */
  lemma ReadLostExactly(steps: seq<Step>, who: nat)
    requires AllEnabled(INIT, steps) && Enabled(Run(INIT, steps), ReadSession(who)) && !Run(INIT, steps).cancelled
    ensures var st := Run(INIT, steps);
      && st.s.Some?
      && (st.s.value in st.lost <==> !(st.loop.Announcing? || st.loop.Serving?) || st.loop.id in st.lost)
  {
    RunSafe(INIT, steps);
    var st := Run(INIT, steps);
    assert CallerOk(st, st.callers[who]);
    assert ChannelOk(st, st.callers[who].rc);
  }

  /** And what it returns is lost exactly when the loop no longer stands by it, or it is lost under the loop. */
  lemma ReturnLostExactly(steps: seq<Step>, who: nat)
    requires AllEnabled(INIT, steps) && Enabled(Run(INIT, steps), Return(who)) && !Run(INIT, steps).cancelled
    ensures var st := Run(INIT, steps); var c := Next(st, Return(who)).callers[who];
      && c.Returned? && !c.err && c.result.Some?
      && (c.result.value in st.lost <==> !Served(st, c.result.value) || st.loop.id in st.lost)
  {
    RunSafe(INIT, steps);
    var st := Run(INIT, steps);
    assert CallerOk(st, st.callers[who]);
  }

  /** Once the keeper is cancelled, no call that has not returned by then returns without an error. */
  lemma {:induction false} CancelledMeansError(st: State, steps: seq<Step>, who: nat)
    requires st.cancelled && AllEnabled(st, steps)
    requires who in st.callers && st.callers[who].Returned? ==> st.callers[who].err
    ensures var end := Run(st, steps);
      end.cancelled && (who in end.callers && end.callers[who].Returned? ==> end.callers[who].err)
    decreases |steps|
  {
    if steps != [] { CancelledMeansError(Next(st, steps[0]), steps[1..], who); }
  }

  /** Without cancellation no call returns an error. */
  lemma {:induction false} ErrorMeansCancelled(st: State, steps: seq<Step>, who: nat)
    requires AllEnabled(st, steps) && !Run(st, steps).cancelled
    requires who in st.callers && st.callers[who].Returned? ==> !st.callers[who].err
    ensures !st.cancelled
    ensures who in Run(st, steps).callers && Run(st, steps).callers[who].Returned? ==> !Run(st, steps).callers[who].err
    decreases |steps|
  {
    if steps != [] {
      NeverUncancelled(st, steps);
      NeverUncancelled(Next(st, steps[0]), steps[1..]);
      ErrorMeansCancelled(Next(st, steps[0]), steps[1..], who);
    }
  }

  lemma {:induction false} NeverUncancelled(st: State, steps: seq<Step>)
    requires AllEnabled(st, steps)
    ensures st.cancelled ==> Run(st, steps).cancelled
    decreases |steps|
  {
    if steps != [] { NeverUncancelled(Next(st, steps[0]), steps[1..]); }
  }

  lemma RunCons(st: State, step: Step, rest: seq<Step>)
    requires Enabled(st, step) && AllEnabled(Next(st, step), rest)
    ensures AllEnabled(st, [step] + rest) && Run(st, [step] + rest) == Run(Next(st, step), rest)
  {
    assert ([step] + rest)[1..] == rest;
  }

  /** Freshness does not mean liveness: a run in which a returned session is already lost. */
  lemma ReturnedMayBeLost() returns (steps: seq<Step>)
    ensures AllEnabled(INIT, steps)
    ensures var st := Run(INIT, steps);
      0 in st.callers && st.callers[0] == Returned(0, Some(0), false) && 0 in st.lost
  {
    var s3 := Next(Next(Next(INIT, Create), Publish), Announce);
    assert s3 == INIT.(loop := Serving(0), s := Some(0), chans := [Some(0)], next := 1);
    steps := CallAndLose(s3);
    RunCons(Next(Next(INIT, Create), Publish), Announce, steps);
    steps := [Announce] + steps;
    RunCons(Next(INIT, Create), Publish, steps);
    steps := [Publish] + steps;
    RunCons(INIT, Create, steps);
    steps := [Create] + steps;
  }

  lemma CallAndLose(st: State) returns (steps: seq<Step>)
    requires st.s == Some(0) && st.readyc == 0 && st.chans == [Some(0)] && st.next == 1
    requires !st.cancelled && 0 !in st.callers
    ensures AllEnabled(st, steps)
    ensures var end := Run(st, steps);
      0 in end.callers && end.callers[0] == Returned(0, Some(0), false) && 0 in end.lost
  {
    var s1 := Next(st, Call(0));
    var s2 := Next(s1, Observe(0));
    steps := ReadAndLose(s2);
    RunCons(s1, Observe(0), steps);
    steps := [Observe(0)] + steps;
    RunCons(st, Call(0), steps);
    steps := [Call(0)] + steps;
  }

  lemma ReadAndLose(st: State) returns (steps: seq<Step>)
    requires st.s == Some(0) && st.next == 1 && !st.cancelled && 0 in st.callers && st.callers[0] == Ready(0)
    ensures AllEnabled(st, steps)
    ensures var end := Run(st, steps);
      0 in end.callers && end.callers[0] == Returned(0, Some(0), false) && 0 in end.lost
  {
    var s1 := Next(st, ReadSession(0));
    var s2 := Next(s1, Lose(0));
    steps := [];
    RunCons(s2, Return(0), steps);
    steps := [Return(0)] + steps;
    RunCons(s1, Lose(0), steps);
    steps := [Lose(0)] + steps;
    RunCons(st, ReadSession(0), steps);
    steps := [ReadSession(0)] + steps;
  }
}
