/**
 Mode strings (mode.go). A ModeValue is a Go slice, so `add` and `del` may write
 into a backing array that an older slice still views. The value semantics
 (`Execute`), the sharing semantics (`Machine`) and the array code itself
 (`UpdateSlice`) are connected below.
 */
module Modes {
  import opened Seqs

  /** Letters a mode table knows, and those it lets a client add or delete. */
  datatype Perms = Perms(all: set<char>, add: set<char>, del: set<char>)

  const USER_PERMS: Perms :=
    Perms({'a', 'i', 'o', 'E', 'O'}, {'i', 'E'}, {'a', 'i', 'o', 'E', 'O'})
  const CHAN_MODES: set<char> := {'m', 't', 's'}
  const CHAN_PERMS: Perms := Perms(CHAN_MODES, CHAN_MODES, CHAN_MODES)

  /** One permitted letter of a mode string, with its sign. */
  datatype Signed = Signed(add: bool, letter: char)

  // ----- what a list of mode strings asks for

  function Permitted(letters: string, add: bool, allowed: set<char>): seq<Signed> {
    if letters == [] then []
    else
      var rest := Permitted(letters[1..], add, allowed);
      if letters[0] in allowed then [Signed(add, letters[0])] + rest else rest
  }

  function Rejected(letters: string, allowed: set<char>): string {
    Filter(letters, c => c !in allowed)
  }

  /** The permitted changes of one mode string; an unsigned string asks for none. */
  function Changes(str: string, mp: Perms): seq<Signed> {
    if str == [] then []
    else if str[0] == '+' then Permitted(str[1..], true, mp.add)
    else if str[0] == '-' then Permitted(str[1..], false, mp.del)
    else []
  }

  function BadLetters(str: string, mp: Perms): string {
    if str == [] then []
    else if str[0] == '+' then Rejected(str[1..], mp.add)
    else if str[0] == '-' then Rejected(str[1..], mp.del)
    else Rejected(str, mp.all)
  }

  function AllChanges(modes: seq<string>, mp: Perms): seq<Signed> {
    if modes == [] then [] else Changes(modes[0], mp) + AllChanges(modes[1..], mp)
  }

  function AllBad(modes: seq<string>, mp: Perms): string {
    if modes == [] then [] else BadLetters(modes[0], mp) + AllBad(modes[1..], mp)
  }

  // ----- value semantics

  function Add(mv: string, m: char): string { if m in mv then mv else mv + [m] }

  function Del(mv: string, m: char): string { Without(mv, m) }

  function Change(mv: string, op: Signed): string {
    if op.add then Add(mv, op.letter) else Del(mv, op.letter)
  }

  function Execute(mv: string, ops: seq<Signed>): string
    decreases ops
  {
    if ops == [] then mv else Execute(Change(mv, ops[0]), ops[1..])
  }

  // ----- sharing semantics

  /**
   `buf` is the array the original slice views, `cur` the running slice, and
   `shared` says whether `cur` is still a prefix of `buf`.
   */
  datatype Machine = Machine(buf: string, cur: string, shared: bool) {
    ghost predicate Aliased() {
      shared ==> |cur| <= |buf| && cur == buf[..|cur|]
    }
  }

  function Overwrite(buf: string, cur: string): (r: string)
    ensures |cur| <= |buf| ==> |r| == |buf|
  {
    if |cur| <= |buf| then cur + buf[|cur|..] else buf
  }

  function StepShared(r: Machine, op: Signed): (r': Machine)
    ensures |r'.buf| == |r.buf|
  {
    var next := Change(r.cur, op);
    if !r.shared then r.(cur := next)
    else if |next| <= |r.buf| then Machine(Overwrite(r.buf, next), next, true)
    else Machine(r.buf, next, false)
  }

  function RunShared(r: Machine, ops: seq<Signed>): (r': Machine)
    ensures |r'.buf| == |r.buf|
    decreases ops
  {
    if ops == [] then r else RunShared(StepShared(r, ops[0]), ops[1..])
  }

  /** Result of updateSlice on a mode whose array holds the bytes `spare` beyond its length. */
  datatype Update = Update(mode: string, bad: string, updated: bool)

  function Apply(mv: string, spare: string, modes: seq<string>, mp: Perms): Update {
    var r := RunShared(Machine(mv + spare, mv, true), AllChanges(modes, mp));
    Update(r.cur, AllBad(modes, mp), r.buf[..|mv|] != r.cur)
  }

  // ----- the sharing machine computes the value semantics

  lemma {:induction false} RunSharedCur(r: Machine, ops: seq<Signed>)
    requires r.Aliased()
    ensures RunShared(r, ops).Aliased()
    ensures RunShared(r, ops).cur == Execute(r.cur, ops)
    decreases ops
  {
    if ops != [] {
      RunSharedCur(StepShared(r, ops[0]), ops[1..]);
    }
  }

  lemma {:induction false} RunSharedAppend(r: Machine, a: seq<Signed>, b: seq<Signed>)
    ensures RunShared(r, a + b) == RunShared(RunShared(r, a), b)
    decreases a
  {
    if a == [] {
      assert a + b == b;
    } else {
      assert (a + b)[1..] == a[1..] + b;
      RunSharedAppend(StepShared(r, a[0]), a[1..], b);
    }
  }

  // ----- last sign wins

  ghost predicate IsLast(ops: seq<Signed>, c: char, i: nat) {
    i < |ops| && ops[i].letter == c && forall j :: i < j < |ops| ==> ops[j].letter != c
  }

  lemma ChangeLetter(mv: string, op: Signed)
    requires NoDup(mv)
    ensures NoDup(Change(mv, op))
    ensures op.letter in Change(mv, op) <==> op.add
    ensures forall c :: c != op.letter ==> (c in Change(mv, op) <==> c in mv)
  {
    if op.add {
      if op.letter !in mv { NoDupAppend(mv, op.letter); }
    } else {
      NoDupWithout(mv, op.letter);
      forall c | c != op.letter ensures c in Change(mv, op) <==> c in mv {
        WithoutOthers(mv, op.letter, c);
      }
    }
  }

  lemma {:induction false} ExecuteNoDup(mv: string, ops: seq<Signed>)
    requires NoDup(mv)
    ensures NoDup(Execute(mv, ops))
    decreases ops
  {
    if ops != [] {
      ChangeLetter(mv, ops[0]);
      ExecuteNoDup(Change(mv, ops[0]), ops[1..]);
    }
  }

  lemma {:induction false} UntouchedLetter(mv: string, ops: seq<Signed>, c: char)
    requires NoDup(mv)
    requires forall j :: 0 <= j < |ops| ==> ops[j].letter != c
    ensures c in Execute(mv, ops) <==> c in mv
    decreases ops
  {
    if ops != [] {
      ChangeLetter(mv, ops[0]);
      UntouchedLetter(Change(mv, ops[0]), ops[1..], c);
    }
  }

  lemma {:induction false} LastSignWins(mv: string, ops: seq<Signed>, c: char, i: nat)
    requires NoDup(mv) && IsLast(ops, c, i)
    ensures c in Execute(mv, ops) <==> ops[i].add
    decreases ops
  {
    ChangeLetter(mv, ops[0]);
    if i == 0 {
      UntouchedLetter(Change(mv, ops[0]), ops[1..], c);
    } else {
      assert IsLast(ops[1..], c, i - 1) && ops[1..][i - 1] == ops[i];
      LastSignWins(Change(mv, ops[0]), ops[1..], c, i - 1);
    }
  }

  /**
   updateSlice refines last-sign-wins sets: a letter's presence is decided by its
   last permitted signed occurrence, or is unchanged if it has none; duplicates
   never appear, whatever the capacity of the array.
   */
  lemma UpdateRefinesSets(mv: string, spare: string, modes: seq<string>, mp: Perms)
    requires NoDup(mv)
    ensures var ops := AllChanges(modes, mp); var r := Apply(mv, spare, modes, mp).mode;
            && NoDup(r)
            && (forall c, i: nat :: IsLast(ops, c, i) ==> (c in r <==> ops[i].add))
            && (forall c :: (forall j :: 0 <= j < |ops| ==> ops[j].letter != c) ==> (c in r <==> c in mv))
  {
    var ops := AllChanges(modes, mp);
    ApplyMode(mv, spare, modes, mp);
    ExecuteNoDup(mv, ops);
    forall c, i: nat | IsLast(ops, c, i) ensures c in Execute(mv, ops) <==> ops[i].add {
      LastSignWins(mv, ops, c, i);
    }
    forall c | forall j :: 0 <= j < |ops| ==> ops[j].letter != c
      ensures c in Execute(mv, ops) <==> c in mv
    {
      UntouchedLetter(mv, ops, c);
    }
  }

  lemma ApplyMode(mv: string, spare: string, modes: seq<string>, mp: Perms)
    ensures Apply(mv, spare, modes, mp).mode == Execute(mv, AllChanges(modes, mp))
  {
    var buf := mv + spare;
    assert buf[..|mv|] == mv;
    RunSharedCur(Machine(buf, mv, true), AllChanges(modes, mp));
  }

  // ----- the `updated` flag

  /** The presence set of a mode differs from another's. */
  ghost predicate SetChanged(a: string, b: string) {
    Letters(a) != Letters(b)
  }

  function Letters(s: string): set<char> { set c | c in s }

  ghost predicate OnlyAdds(ops: seq<Signed>) { forall i :: 0 <= i < |ops| ==> ops[i].add }

  ghost predicate OnlyDels(ops: seq<Signed>) { forall i :: 0 <= i < |ops| ==> !ops[i].add }

  lemma {:induction false} AddsKeepOld(r: Machine, ops: seq<Signed>, n: nat)
    requires r.Aliased() && OnlyAdds(ops)
    requires n <= |r.cur| && n <= |r.buf|
    ensures RunShared(r, ops).buf[..n] == r.buf[..n]
    ensures r.cur <= RunShared(r, ops).cur
    decreases ops
  {
    if ops != [] {
      var r' := StepShared(r, ops[0]);
      assert r'.buf[..n] == r.buf[..n];
      AddsKeepOld(r', ops[1..], n);
    }
  }

  lemma {:induction false} DelsShrink(mv: string, ops: seq<Signed>)
    requires OnlyDels(ops)
    ensures |Execute(mv, ops)| <= |mv|
    ensures |Execute(mv, ops)| == |mv| ==> Execute(mv, ops) == mv
    decreases ops
  {
    if ops != [] {
      if ops[0].letter !in mv { WithoutAbsent(mv, ops[0].letter); }
      DelsShrink(Change(mv, ops[0]), ops[1..]);
    }
  }

  lemma {:induction false} DelsSubset(mv: string, ops: seq<Signed>)
    requires NoDup(mv) && OnlyDels(ops)
    ensures forall c :: c in Execute(mv, ops) ==> c in mv
    decreases ops
  {
    if ops != [] {
      ChangeLetter(mv, ops[0]);
      DelsSubset(Change(mv, ops[0]), ops[1..]);
    }
  }

  lemma NoDupCard(s: string)
    requires NoDup(s)
    ensures |Letters(s)| == |s|
  {
    if s != [] {
      var t := s[1..];
      assert s == [s[0]] + t;
      assert multiset(s) == multiset{s[0]} + multiset(t);
      forall x | x in t ensures multiset(t)[x] == 1 { assert x in multiset(t); assert multiset(s)[x] == 1; }
      NoDupCard(t);
      assert multiset(t)[s[0]] == 0 by { assert multiset(s)[s[0]] == 1; }
      assert s[0] !in t by { assert s[0] in t <==> s[0] in multiset(t); }
      assert Letters(s) == {s[0]} + Letters(t);
    }
  }

  /** While the running slice still shares the array, the flag only sees lengths. */
  lemma SharedFlag(mv: string, spare: string, modes: seq<string>, mp: Perms)
    requires RunShared(Machine(mv + spare, mv, true), AllChanges(modes, mp)).shared
    ensures var u := Apply(mv, spare, modes, mp); u.updated <==> |u.mode| != |mv|
  {
    var buf := mv + spare;
    assert buf[..|mv|] == mv;
    RunSharedCur(Machine(buf, mv, true), AllChanges(modes, mp));
  }

  /**
   For lists of only additions or only deletions, and any capacity, the flag is
   true exactly when the mode set changed.
   */
  lemma UpdatedExact(mv: string, spare: string, modes: seq<string>, mp: Perms)
    requires NoDup(mv)
    requires OnlyAdds(AllChanges(modes, mp)) || OnlyDels(AllChanges(modes, mp))
    ensures var u := Apply(mv, spare, modes, mp); u.updated <==> SetChanged(mv, u.mode)
  {
    var ops := AllChanges(modes, mp);
    var buf := mv + spare;
    assert buf[..|mv|] == mv;
    var u := Apply(mv, spare, modes, mp);
    ApplyMode(mv, spare, modes, mp);
    ExecuteNoDup(mv, ops);
    NoDupCard(mv);
    NoDupCard(u.mode);
    if OnlyAdds(ops) {
      AddsKeepOld(Machine(buf, mv, true), ops, |mv|);
      assert u.updated <==> mv != u.mode;
      if mv != u.mode { assert |u.mode| > |mv|; }
    } else {
      DelsStayShared(Machine(buf, mv, true), ops);
      SharedFlag(mv, spare, modes, mp);
      DelsShrink(mv, ops);
    }
  }

  lemma {:induction false} DelsStayShared(r: Machine, ops: seq<Signed>)
    requires r.Aliased() && r.shared && OnlyDels(ops)
    ensures RunShared(r, ops).shared
    decreases ops
  {
    if ops != [] {
      DelsStayShared(StepShared(r, ops[0]), ops[1..]);
    }
  }

  // What a list does to the set of letters, read off its signs alone.

  /** Whether `c` is wanted after `ops`, if it was there before exactly when `was`. */
  predicate Wanted(ops: seq<Signed>, c: char, was: bool) {
    if ops == [] then was
    else
      var n := |ops| - 1;
      if ops[n].letter == c then ops[n].add else Wanted(ops[..n], c, was)
  }

  /** Letters that are new after `ops`. */
  function Gained(mv: string, ops: seq<Signed>): set<char> {
    set o | o in ops && o.letter !in mv && Wanted(ops, o.letter, false) :: o.letter
  }

  /** Letters that are gone after `ops`. */
  function Lost(mv: string, ops: seq<Signed>): set<char> { set c | c in mv && !Wanted(ops, c, true) }

  function SizeAfter(mv: string, ops: seq<Signed>): int { |mv| + |Gained(mv, ops)| - |Lost(mv, ops)| }

  lemma {:induction false} ExecuteAppend(mv: string, a: seq<Signed>, b: seq<Signed>)
    ensures Execute(mv, a + b) == Execute(Execute(mv, a), b)
    decreases a
  {
    if a == [] {
      assert a + b == b;
    } else {
      assert (a + b)[1..] == a[1..] + b;
      ExecuteAppend(Change(mv, a[0]), a[1..], b);
    }
  }

  lemma ExecuteLast(mv: string, ops: seq<Signed>)
    requires ops != []
    ensures var n := |ops| - 1; Execute(mv, ops) == Change(Execute(mv, ops[..n]), ops[n])
  {
    var n := |ops| - 1;
    assert ops == ops[..n] + [ops[n]];
    ExecuteAppend(mv, ops[..n], [ops[n]]);
    ExecuteOne(Execute(mv, ops[..n]), ops[n]);
  }

  lemma ExecuteOne(mv: string, op: Signed)
    ensures Execute(mv, [op]) == Change(mv, op)
  {
    assert [op][1..] == [];
  }

  lemma {:induction false} WantedIsPresent(mv: string, ops: seq<Signed>, c: char)
    requires NoDup(mv)
    ensures c in Execute(mv, ops) <==> Wanted(ops, c, c in mv)
  {
    if ops != [] {
      var n := |ops| - 1;
      WantedIsPresent(mv, ops[..n], c);
      ExecuteLast(mv, ops);
      ExecuteNoDup(mv, ops[..n]);
      ChangeLetter(Execute(mv, ops[..n]), ops[n]);
    }
  }

  lemma {:induction false} WantedNamed(ops: seq<Signed>, c: char)
    requires Wanted(ops, c, false)
    ensures exists o :: o in ops && o.letter == c
  {
    var n := |ops| - 1;
    if ops[n].letter == c {
      assert ops[n] in ops;
    } else {
      WantedNamed(ops[..n], c);
    }
  }

  lemma LettersAfter(mv: string, ops: seq<Signed>)
    requires NoDup(mv)
    ensures Letters(Execute(mv, ops)) == Letters(mv) - Lost(mv, ops) + Gained(mv, ops)
  {
    forall c ensures c in Letters(Execute(mv, ops)) <==> c in Letters(mv) - Lost(mv, ops) + Gained(mv, ops) {
      WantedIsPresent(mv, ops, c);
      if c !in mv && Wanted(ops, c, false) { WantedNamed(ops, c); }
    }
  }

  /** The set of letters changes exactly by what is gained and lost, and so does their number. */
  lemma ChangeCounted(mv: string, ops: seq<Signed>)
    requires NoDup(mv)
    ensures SetChanged(mv, Execute(mv, ops)) <==> Gained(mv, ops) != {} || Lost(mv, ops) != {}
    ensures |Execute(mv, ops)| == SizeAfter(mv, ops)
  {
    LettersAfter(mv, ops);
    ExecuteNoDup(mv, ops);
    NoDupCard(mv);
    NoDupCard(Execute(mv, ops));
    SetSizes(Letters(mv), Lost(mv, ops), Gained(mv, ops));
  }

  lemma SetSizes(a: set<char>, lost: set<char>, gained: set<char>)
    requires lost <= a && gained !! a
    ensures |a - lost + gained| == |a| - |lost| + |gained|
    ensures a - lost + gained == a <==> lost == {} && gained == {}
  {
    assert a - lost !! gained;
    forall c | c in lost ensures c in a && c !in a - lost + gained { }
    forall c | c in gained ensures c !in a && c in a - lost + gained { }
  }

  /** Every prefix of the list fits the array. */
  ghost predicate Fits(mv: string, ops: seq<Signed>, cap: nat) {
    forall j :: 0 <= j <= |ops| ==> SizeAfter(mv, ops[..j]) <= cap
  }

  /** Change `i` is the first that does not fit: it moves the running slice to a new array. */
  ghost predicate GrowsAt(mv: string, ops: seq<Signed>, cap: nat, i: nat) {
    i < |ops| && Fits(mv, ops[..i], cap) && SizeAfter(mv, ops[..i + 1]) > cap
  }

  lemma {:induction false} FitsOrGrows(mv: string, ops: seq<Signed>, cap: nat, n: nat) returns (i: nat)
    requires |mv| <= cap && n <= |ops|
    ensures Fits(mv, ops[..n], cap) || (i < n && GrowsAt(mv, ops, cap, i))
  {
    i := 0;
    if n == 0 {
      assert ops[..0][..0] == [];
    } else {
      i := FitsOrGrows(mv, ops, cap, n - 1);
      if Fits(mv, ops[..n - 1], cap) {
        i := n - 1;
        assert ops[..i + 1] == ops[..n];
        if SizeAfter(mv, ops[..n]) <= cap { FitsMore(mv, ops, cap, n); }
      }
    }
  }

  lemma FitsMore(mv: string, ops: seq<Signed>, cap: nat, n: nat)
    requires 0 < n <= |ops| && Fits(mv, ops[..n - 1], cap) && SizeAfter(mv, ops[..n]) <= cap
    ensures Fits(mv, ops[..n], cap)
  {
    forall j | 0 <= j <= n ensures SizeAfter(mv, ops[..n][..j]) <= cap {
      if j < n {
        assert ops[..n][..j] == ops[..n - 1][..j];
      } else {
        assert ops[..n][..j] == ops[..n];
      }
    }
  }

  lemma RunSharedLast(r: Machine, ops: seq<Signed>)
    requires ops != []
    ensures var n := |ops| - 1; RunShared(r, ops) == StepShared(RunShared(r, ops[..n]), ops[n])
  {
    var n := |ops| - 1;
    assert ops == ops[..n] + [ops[n]];
    RunSharedAppend(r, ops[..n], [ops[n]]);
    assert [ops[n]][1..] == [];
    assert RunShared(RunShared(r, ops[..n]), [ops[n]]) == StepShared(RunShared(r, ops[..n]), ops[n]);
  }

  lemma FitsInit(mv: string, ops: seq<Signed>, cap: nat)
    requires NoDup(mv) && ops != [] && Fits(mv, ops, cap)
    ensures var n := |ops| - 1; Fits(mv, ops[..n], cap) && |Change(Execute(mv, ops[..n]), ops[n])| <= cap
  {
    var n := |ops| - 1;
    forall j | 0 <= j <= n ensures SizeAfter(mv, ops[..n][..j]) <= cap { assert ops[..n][..j] == ops[..j]; }
    assert ops[..|ops|] == ops;
    ChangeCounted(mv, ops);
    ExecuteLast(mv, ops);
  }

  /** While the list fits, the running slice stays in the old array. */
  lemma {:induction false} FittingStaysShared(mv: string, spare: string, ops: seq<Signed>)
    requires NoDup(mv) && Fits(mv, ops, |mv| + |spare|)
    ensures var r := RunShared(Machine(mv + spare, mv, true), ops); r.shared && r.Aliased() && r.cur == Execute(mv, ops)
    decreases |ops|
  {
    var r0 := Machine(mv + spare, mv, true);
    assert (mv + spare)[..|mv|] == mv;
    RunSharedCur(r0, ops);
    if ops != [] {
      FitsInit(mv, ops, |mv| + |spare|);
      FittingStaysShared(mv, spare, ops[..|ops| - 1]);
      RunSharedLast(r0, ops);
    }
  }

  lemma {:induction false} UnsharedKeepsBuf(r: Machine, ops: seq<Signed>)
    requires !r.shared
    ensures !RunShared(r, ops).shared && RunShared(r, ops).buf == r.buf
    decreases |ops|
  {
    if ops != [] { UnsharedKeepsBuf(StepShared(r, ops[0]), ops[1..]); }
  }

  /** A change that does not fit meets a full array, which it leaves behind. */
  lemma StepGrows(r: Machine, op: Signed)
    requires r.shared && r.Aliased() && |Change(r.cur, op)| > |r.buf|
    ensures r.cur == r.buf && StepShared(r, op) == Machine(r.buf, Change(r.cur, op), false)
  {
    assert |Change(r.cur, op)| <= |r.cur| + 1;
  }

  lemma SizeAtGrowth(mv: string, ops: seq<Signed>, cap: nat, i: nat)
    requires NoDup(mv) && GrowsAt(mv, ops, cap, i)
    ensures |Change(Execute(mv, ops[..i]), ops[i])| > cap
  {
    var upTo := ops[..i + 1];
    assert upTo[..i] == ops[..i];
    ExecuteLast(mv, upTo);
    ChangeCounted(mv, upTo);
  }

  lemma RunOver(r: Machine, ops: seq<Signed>, i: nat)
    requires i < |ops| && !StepShared(RunShared(r, ops[..i]), ops[i]).shared
    ensures RunShared(r, ops).buf == StepShared(RunShared(r, ops[..i]), ops[i]).buf
  {
    var upTo, rest := ops[..i + 1], ops[i + 1..];
    assert upTo[..i] == ops[..i];
    RunSharedLast(r, upTo);
    assert ops == upTo + rest;
    RunSharedAppend(r, upTo, rest);
    UnsharedKeepsBuf(RunShared(r, upTo), rest);
  }

  /** At the moment of growth the old array is full of the running mode, and stays so. */
  lemma GrowthFreezes(mv: string, spare: string, ops: seq<Signed>, i: nat)
    requires NoDup(mv) && GrowsAt(mv, ops, |mv| + |spare|, i)
    ensures RunShared(Machine(mv + spare, mv, true), ops).buf == Execute(mv, ops[..i])
  {
    var r0 := Machine(mv + spare, mv, true);
    FittingStaysShared(mv, spare, ops[..i]);
    var r := RunShared(r0, ops[..i]);
    SizeAtGrowth(mv, ops, |mv| + |spare|, i);
    StepGrows(r, ops[i]);
    RunOver(r0, ops, i);
  }

  ghost predicate FlagRight(mv: string, u: Update) { u.updated <==> SetChanged(mv, u.mode) }

  /** A list that fits: the flag compares numbers of letters, and is wrong exactly on an even exchange. */
  lemma FlagWhenFitting(mv: string, spare: string, modes: seq<string>, mp: Perms)
    requires NoDup(mv) && Fits(mv, AllChanges(modes, mp), |mv| + |spare|)
    ensures var ops := AllChanges(modes, mp); var u := Apply(mv, spare, modes, mp);
      var g, l := Gained(mv, ops), Lost(mv, ops);
      && (u.updated <==> |g| != |l|)
      && (FlagRight(mv, u) <==> |g| != |l| || (g == {} && l == {}))
  {
    var ops := AllChanges(modes, mp);
    FittingStaysShared(mv, spare, ops);
    SharedFlag(mv, spare, modes, mp);
    ApplyMode(mv, spare, modes, mp);
    ChangeCounted(mv, ops);
  }

  lemma GrownFlag(mv: string, spare: string, modes: seq<string>, mp: Perms, i: nat)
    requires NoDup(mv) && GrowsAt(mv, AllChanges(modes, mp), |mv| + |spare|, i)
    ensures var ops := AllChanges(modes, mp);
      && |mv| <= |Execute(mv, ops[..i])|
      && (Apply(mv, spare, modes, mp).updated <==> Execute(mv, ops) != Execute(mv, ops[..i])[..|mv|])
  {
    GrowthFreezes(mv, spare, AllChanges(modes, mp), i);
    ApplyMode(mv, spare, modes, mp);
  }

  /**
   A list that outgrows the array at change `i`: the flag compares the new mode with what the
   changes before `i` had left in the old array.
   */
  lemma FlagWhenGrowing(mv: string, spare: string, modes: seq<string>, mp: Perms, i: nat)
    requires NoDup(mv) && GrowsAt(mv, AllChanges(modes, mp), |mv| + |spare|, i)
    ensures |mv| <= |Execute(mv, AllChanges(modes, mp)[..i])|
    ensures FlagRight(mv, Apply(mv, spare, modes, mp)) <==> SeenRight(mv, AllChanges(modes, mp), i)
  {
    var ops := AllChanges(modes, mp);
    var u := Apply(mv, spare, modes, mp);
    GrownFlag(mv, spare, modes, mp, i);
    ApplyMode(mv, spare, modes, mp);
    ChangeCounted(mv, ops);
    Judge(Execute(mv, ops), Execute(mv, ops[..i])[..|mv|], Gained(mv, ops), Lost(mv, ops),
          u.updated, SetChanged(mv, u.mode));
  }

  lemma Judge(now: string, seen: string, g: set<char>, l: set<char>, updated: bool, changed: bool)
    requires updated <==> now != seen
    requires changed <==> g != {} || l != {}
    requires |now| == |seen| + |g| - |l|
    ensures (updated <==> changed) <==> |g| != |l| || (g == {} <==> now == seen)
  {
    if |g| == |l| {
      assert g == {} <==> |g| == 0;
      assert l == {} <==> |l| == 0;
    }
  }

  /** An uneven exchange is seen; an even one is judged by what the old array was left with. */
  predicate SeenRight(mv: string, ops: seq<Signed>, i: nat)
    requires i <= |ops| && |mv| <= |Execute(mv, ops[..i])|
  {
    || |Gained(mv, ops)| != |Lost(mv, ops)|
    || (Gained(mv, ops) == {} <==> Execute(mv, ops) == Execute(mv, ops[..i])[..|mv|])
  }

  /**
   The updated flag for every list, any signs mixed, and every capacity: either the list fits
   the array, or some change is the first that does not, and in each case the flag is right
   exactly as stated there.
   */
  lemma UpdatedExactly(mv: string, spare: string, modes: seq<string>, mp: Perms) returns (i: nat)
    requires NoDup(mv)
    ensures var ops := AllChanges(modes, mp); var cap := |mv| + |spare|; var u := Apply(mv, spare, modes, mp);
      var g, l := Gained(mv, ops), Lost(mv, ops);
      if Fits(mv, ops, cap) then FlagRight(mv, u) <==> |g| != |l| || (g == {} && l == {})
      else
        && GrowsAt(mv, ops, cap, i) && |mv| <= |Execute(mv, ops[..i])|
        && (FlagRight(mv, u) <==> SeenRight(mv, ops, i))
  {
    var ops := AllChanges(modes, mp);
    i := FitsOrGrows(mv, ops, |mv| + |spare|, |ops|);
    assert ops[..|ops|] == ops;
    if Fits(mv, ops, |mv| + |spare|) {
      FlagWhenFitting(mv, spare, modes, mp);
    } else {
      FlagWhenGrowing(mv, spare, modes, mp, i);
    }
  }

  /** Mixed lists: `-m` then `+t` on "ms" gives "st" and reports no update. */
  lemma MixedListLosesUpdate()
    ensures var u := Apply("ms", "", ["-m", "+t"], CHAN_PERMS);
            u.mode == "st" && SetChanged("ms", u.mode) && !u.updated
  {
    var ops := AllChanges(["-m", "+t"], CHAN_PERMS);
    assert Permitted("m", false, CHAN_MODES) == [Signed(false, 'm')];
    assert Permitted("t", true, CHAN_MODES) == [Signed(true, 't')];
    assert Changes("-m", CHAN_PERMS) == [Signed(false, 'm')];
    assert Changes("+t", CHAN_PERMS) == [Signed(true, 't')];
    assert AllChanges(["-m", "+t"][1..], CHAN_PERMS) == [Signed(true, 't')];
    assert ops == [Signed(false, 'm'), Signed(true, 't')];
    var r0 := Machine("ms" + "", "ms", true);
    assert r0.buf == "ms";
    var r1 := StepShared(r0, ops[0]);
    assert r1 == Machine("ss", "s", true);
    var r2 := StepShared(r1, ops[1]);
    assert r2 == Machine("st", "st", true);
    assert ops[1..] == [ops[1]];
    assert RunShared(r1, [ops[1]]) == r2;
    assert RunShared(r0, ops) == r2;
    assert 't' in Letters("st") && 't' !in Letters("ms");
  }

  /** A full array: `-m`, `+t`, `+m`, `-t` on "m" gives "m" back and reports an update. */
  lemma SpuriousUpdate()
    ensures var u := Apply("m", "", ["-m", "+t", "+m", "-t"], CHAN_PERMS); u.mode == "m" && u.updated
  {
    var o0, o1, o2, o3 := Signed(false, 'm'), Signed(true, 't'), Signed(true, 'm'), Signed(false, 't');
    assert AllChanges(["-m", "+t", "+m", "-t"], CHAN_PERMS) == [o0, o1, o2, o3] by {
      OneLetter("-m", 'm', false);
      OneLetter("+t", 't', true);
      OneLetter("+m", 'm', true);
      OneLetter("-t", 't', false);
      FourStrings("-m", "+t", "+m", "-t", o0, o1, o2, o3);
    }
    var r0 := Machine("m" + "", "m", true);
    assert r0.buf == "m";
    var r1 := StepShared(r0, o0);
    assert r1 == Machine("m", "", true);
    var r2 := StepShared(r1, o1);
    assert r2 == Machine("t", "t", true);
    var r3 := StepShared(r2, o2);
    assert r3 == Machine("t", "tm", false);
    var r4 := StepShared(r3, o3);
    assert r4 == Machine("t", "m", false);
    RunFour(r0, o0, o1, o2, o3);
  }

  lemma OneLetter(str: string, c: char, add: bool)
    requires str == [if add then '+' else '-', c] && c in CHAN_MODES
    ensures Changes(str, CHAN_PERMS) == [Signed(add, c)]
  {
    assert str[1..] == [c];
    assert Permitted([c], add, CHAN_MODES) == [Signed(add, c)] + Permitted([c][1..], add, CHAN_MODES);
  }

  lemma FourStrings(a: string, b: string, c: string, d: string, o0: Signed, o1: Signed, o2: Signed, o3: Signed)
    requires Changes(a, CHAN_PERMS) == [o0] && Changes(b, CHAN_PERMS) == [o1]
    requires Changes(c, CHAN_PERMS) == [o2] && Changes(d, CHAN_PERMS) == [o3]
    ensures AllChanges([a, b, c, d], CHAN_PERMS) == [o0, o1, o2, o3]
  {
    assert [a, b, c, d][1..] == [b, c, d] && [b, c, d][1..] == [c, d] && [c, d][1..] == [d] && [d][1..] == [];
    assert AllChanges([d], CHAN_PERMS) == [o3];
    assert AllChanges([c, d], CHAN_PERMS) == [o2, o3];
    assert AllChanges([b, c, d], CHAN_PERMS) == [o1, o2, o3];
  }

  lemma RunFour(r: Machine, o0: Signed, o1: Signed, o2: Signed, o3: Signed)
    ensures RunShared(r, [o0, o1, o2, o3]) == StepShared(StepShared(StepShared(StepShared(r, o0), o1), o2), o3)
  {
    var r1 := StepShared(r, o0);
    var r2 := StepShared(r1, o1);
    var r3 := StepShared(r2, o2);
    assert [o0, o1, o2, o3][1..] == [o1, o2, o3] && [o1, o2, o3][1..] == [o2, o3];
    assert [o2, o3][1..] == [o3] && [o3][1..] == [];
    assert RunShared(r3, [o3]) == StepShared(r3, o3);
    assert RunShared(r2, [o2, o3]) == StepShared(r3, o3);
    assert RunShared(r1, [o1, o2, o3]) == StepShared(r3, o3);
  }

  // ----- tables

  /** No list of MODE strings can give a user `a`, `o` or `O`. */
  lemma {:induction false} UserPermsNeverAdd(mv: string, ops: seq<Signed>, c: char)
    requires forall i :: 0 <= i < |ops| ==> ops[i].add ==> ops[i].letter in USER_PERMS.add
    requires c !in USER_PERMS.add && c in Execute(mv, ops)
    ensures c in mv
    decreases ops
  {
    if ops != [] {
      UserPermsNeverAdd(Change(mv, ops[0]), ops[1..], c);
      if !ops[0].add && c in Without(mv, ops[0].letter) {
        assert c in multiset(Without(mv, ops[0].letter));
      }
    }
  }

  lemma {:induction false} PermittedLetters(letters: string, add: bool, allowed: set<char>)
    ensures forall i :: 0 <= i < |Permitted(letters, add, allowed)| ==>
              Permitted(letters, add, allowed)[i].add == add && Permitted(letters, add, allowed)[i].letter in allowed
  {
    if letters != [] {
      PermittedLetters(letters[1..], add, allowed);
    }
  }

  lemma {:induction false} ChangesPermitted(modes: seq<string>, mp: Perms)
    ensures forall i :: 0 <= i < |AllChanges(modes, mp)| ==>
              AllChanges(modes, mp)[i].letter in (if AllChanges(modes, mp)[i].add then mp.add else mp.del)
  {
    if modes != [] {
      if modes[0] != [] {
        PermittedLetters(modes[0][1..], true, mp.add);
        PermittedLetters(modes[0][1..], false, mp.del);
      }
      ChangesPermitted(modes[1..], mp);
    }
  }

  // ----- the code, on arrays

  /** A Go slice header: the first `len` elements of a shared array. */
  datatype Slice = Slice(arr: array<char>, len: nat)

  ghost predicate InBounds(s: Slice) { s.len <= s.arr.Length }

  ghost function View(s: Slice): string
    reads s.arr
    requires InBounds(s)
  {
    s.arr[..s.len]
  }

  /** The sharing machine seen through the original slice and the running one. */
  ghost function Observe(original: Slice, cur: Slice): Machine
    reads original.arr, cur.arr
    requires InBounds(cur)
  {
    Machine(original.arr[..], View(cur), cur.arr == original.arr)
  }

  method IndexByte(mv: Slice, m: char) returns (i: int)
    requires InBounds(mv)
    ensures -1 <= i < mv.len
    ensures i == -1 <==> m !in View(mv)
    ensures i >= 0 ==> mv.arr[i] == m && m !in mv.arr[..i]
  {
    for k := 0 to mv.len
      invariant m !in mv.arr[..k]
    {
      if mv.arr[k] == m { return k; }
    }
    return -1;
  }

  /** mode.go add: append in place while there is capacity, else copy to a new array. */
  method AddMode(mv: Slice, m: char, ghost original: Slice) returns (r: Slice)
    requires InBounds(mv) && Observe(original, mv).Aliased()
    modifies mv.arr
    ensures InBounds(r) && (r.arr == mv.arr || fresh(r.arr))
    ensures Observe(original, r) == StepShared(old(Observe(original, mv)), Signed(true, m))
    ensures original.arr != mv.arr ==> original.arr[..] == old(original.arr[..])
  {
    ghost var was := mv.arr[..];
    var i := IndexByte(mv, m);
    if i >= 0 {
      return mv;
    }
    if mv.len < mv.arr.Length {
      mv.arr[mv.len] := m;
      r := Slice(mv.arr, mv.len + 1);
      assert View(r) == was[..mv.len] + [m];
      assert mv.arr[..] == was[..mv.len] + [m] + was[mv.len + 1..];
    } else {
      var grown := new char[2 * mv.arr.Length + 1];
      for k := 0 to mv.len
        invariant grown[..k] == mv.arr[..k]
        invariant mv.arr[..] == was
      {
        grown[k] := mv.arr[k];
      }
      grown[mv.len] := m;
      r := Slice(grown, mv.len + 1);
      assert View(r) == was[..mv.len] + [m];
    }
  }

  /** mode.go del: shift the tail left inside the same array. */
  method DelMode(mv: Slice, m: char, ghost original: Slice) returns (r: Slice)
    requires InBounds(mv) && Observe(original, mv).Aliased()
    modifies mv.arr
    ensures InBounds(r) && r.arr == mv.arr
    ensures Observe(original, r) == StepShared(old(Observe(original, mv)), Signed(false, m))
  {
    ghost var was := mv.arr[..];
    ghost var view := View(mv);
    var i := IndexByte(mv, m);
    if i < 0 {
      r := mv;
      WithoutAbsent(view, m);
      OverwriteSame(was, mv.len);
    } else {
      WithoutFirst(was, mv.len, m, i);
      ShiftLeft(mv.arr, i, mv.len);
      r := Slice(mv.arr, mv.len - 1);
      ShiftedIsSplice(was, mv.arr[..], i, mv.len);
    }
    assert View(r) == mv.arr[..][..r.len];
  }

  lemma OverwriteSame(was: string, n: nat)
    requires n <= |was|
    ensures Overwrite(was, was[..n]) == was
  {
  }

  lemma WithoutFirst(was: string, n: nat, m: char, i: nat)
    requires i < n <= |was| && was[i] == m && m !in was[..i]
    ensures Without(was[..n], m) == was[..n][..i] + was[..n][i + 1..]
  {
    assert was[..n][..i] == was[..i];
    WithoutIsSplice(was[..n], m, i);
  }

  lemma ShiftedIsSplice(was: string, now: string, i: nat, n: nat)
    requires i < n <= |was| == |now|
    requires forall j :: 0 <= j < i || n - 1 <= j < |was| ==> now[j] == was[j]
    requires forall j :: i <= j < n - 1 ==> now[j] == was[j + 1]
    ensures now[..n - 1] == was[..n][..i] + was[..n][i + 1..]
    ensures now == Overwrite(was, now[..n - 1])
  {
  }

  method ShiftLeft(arr: array<char>, i: nat, n: nat)
    requires i < n <= arr.Length
    modifies arr
    ensures forall j :: 0 <= j < i || n - 1 <= j < arr.Length ==> arr[j] == old(arr[j])
    ensures forall j :: i <= j < n - 1 ==> arr[j] == old(arr[j + 1])
  {
    for k := i to n - 1
      invariant forall j :: 0 <= j < i || k <= j < arr.Length ==> arr[j] == old(arr[j])
      invariant forall j :: i <= j < k ==> arr[j] == old(arr[j + 1])
    {
      arr[k] := arr[k + 1];
    }
  }

  /** mode.go update. */
  method UpdateOne(mv: Slice, str: string, mp: Perms, ghost original: Slice) returns (r: Slice, bad: string)
    requires InBounds(mv) && Observe(original, mv).Aliased()
    modifies mv.arr
    ensures InBounds(r) && (r.arr == mv.arr || fresh(r.arr))
    ensures Observe(original, r) == RunShared(old(Observe(original, mv)), Changes(str, mp))
    ensures bad == BadLetters(str, mp)
  {
    r, bad := mv, [];
    if |str| == 0 {
      return;
    }
    if str[0] == '+' || str[0] == '-' {
      r, bad := UpdateLetters(mv, str[1..], str[0] == '+', if str[0] == '+' then mp.add else mp.del, original);
    } else {
      ghost var start := Observe(original, mv);
      for k := 0 to |str|
        invariant bad == Rejected(str[..k], mp.all)
        invariant Observe(original, mv) == start
      {
        SplitLetters(str, k, true, mp.all);
        if str[k] !in mp.all {
          bad := bad + [str[k]];
        }
      }
      assert str[..|str|] == str;
    }
  }

  lemma {:induction false} PermittedAppend(a: string, b: string, add: bool, allowed: set<char>)
    ensures Permitted(a + b, add, allowed) == Permitted(a, add, allowed) + Permitted(b, add, allowed)
  {
    if a == [] {
      assert a + b == b;
    } else {
      assert (a + b)[1..] == a[1..] + b;
      PermittedAppend(a[1..], b, add, allowed);
      Assoc([Signed(add, a[0])], Permitted(a[1..], add, allowed), Permitted(b, add, allowed));
    }
  }

  lemma SplitLetters(ms: string, k: nat, add: bool, allowed: set<char>)
    requires k < |ms|
    ensures Permitted(ms[..k + 1], add, allowed) == Permitted(ms[..k], add, allowed) + Permitted([ms[k]], add, allowed)
    ensures Rejected(ms[..k + 1], allowed) == Rejected(ms[..k], allowed) + (if ms[k] in allowed then [] else [ms[k]])
  {
    assert ms[..k + 1] == ms[..k] + [ms[k]];
    PermittedAppend(ms[..k], [ms[k]], add, allowed);
    var keep := c => c !in allowed;
    FilterAppend(ms[..k], [ms[k]], keep);
    assert Filter([ms[k]], keep) == if ms[k] in allowed then [] else [ms[k]] by { assert [ms[k]][1..] == []; }
    assert Rejected(ms[..k + 1], allowed) == Filter(ms[..k + 1], keep) by { SameFilter(ms[..k + 1], allowed, keep); }
    assert Rejected(ms[..k], allowed) == Filter(ms[..k], keep) by { SameFilter(ms[..k], allowed, keep); }
  }

  lemma {:induction false} SameFilter(s: string, allowed: set<char>, keep: char -> bool)
    requires forall c :: keep(c) == (c !in allowed)
    ensures Rejected(s, allowed) == Filter(s, keep)
  {
    if s != [] { SameFilter(s[1..], allowed, keep); }
  }

  lemma {:induction false} AllAppend(modes: seq<string>, m: string, mp: Perms)
    ensures AllChanges(modes + [m], mp) == AllChanges(modes, mp) + Changes(m, mp)
    ensures AllBad(modes + [m], mp) == AllBad(modes, mp) + BadLetters(m, mp)
  {
    if modes == [] {
      assert modes + [m] == [m] && [m][1..] == [];
      assert AllChanges([m], mp) == Changes(m, mp) + [] && AllBad([m], mp) == BadLetters(m, mp) + [];
    } else {
      assert (modes + [m])[1..] == modes[1..] + [m];
      AllAppend(modes[1..], m, mp);
      Assoc(Changes(modes[0], mp), AllChanges(modes[1..], mp), Changes(m, mp));
      Assoc(BadLetters(modes[0], mp), AllBad(modes[1..], mp), BadLetters(m, mp));
    }
  }

  lemma LetterStep(start: Machine, ms: string, k: nat, add: bool, allowed: set<char>)
    requires k < |ms|
    ensures var was := RunShared(start, Permitted(ms[..k], add, allowed));
      RunShared(start, Permitted(ms[..k + 1], add, allowed)) ==
        if ms[k] in allowed then StepShared(was, Signed(add, ms[k])) else was
  {
    SplitLetters(ms, k, add, allowed);
    var was := RunShared(start, Permitted(ms[..k], add, allowed));
    RunSharedAppend(start, Permitted(ms[..k], add, allowed), Permitted([ms[k]], add, allowed));
    if ms[k] in allowed {
      assert Permitted([ms[k]], add, allowed) == [Signed(add, ms[k])];
      assert RunShared(was, [Signed(add, ms[k])]) == StepShared(was, Signed(add, ms[k]));
    } else {
      assert Permitted([ms[k]], add, allowed) == [];
    }
  }

  /** The letters after the sign. */
  method UpdateLetters(mv: Slice, ms: string, add: bool, allowed: set<char>, ghost original: Slice)
    returns (r: Slice, bad: string)
    requires InBounds(mv) && Observe(original, mv).Aliased()
    modifies mv.arr
    ensures InBounds(r) && (r.arr == mv.arr || fresh(r.arr))
    ensures Observe(original, r) == RunShared(old(Observe(original, mv)), Permitted(ms, add, allowed))
    ensures bad == Rejected(ms, allowed)
  {
    r, bad := mv, [];
    ghost var start := Observe(original, mv);
    for k := 0 to |ms|
      invariant InBounds(r) && (r.arr == mv.arr || fresh(r.arr))
      invariant Observe(original, r) == RunShared(start, Permitted(ms[..k], add, allowed))
      invariant bad == Rejected(ms[..k], allowed)
    {
      RunSharedCur(start, Permitted(ms[..k], add, allowed));
      LetterStep(start, ms, k, add, allowed);
      SplitLetters(ms, k, add, allowed);
      if ms[k] !in allowed {
        bad := bad + [ms[k]];
      } else if add {
        r := AddMode(r, ms[k], original);
      } else {
        r := DelMode(r, ms[k], original);
      }
    }
    assert ms[..|ms|] == ms;
  }

  lemma StringStep(start: Machine, modes: seq<string>, k: nat, mp: Perms)
    requires k < |modes|
    ensures RunShared(start, AllChanges(modes[..k + 1], mp)) ==
            RunShared(RunShared(start, AllChanges(modes[..k], mp)), Changes(modes[k], mp))
    ensures AllBad(modes[..k + 1], mp) == AllBad(modes[..k], mp) + BadLetters(modes[k], mp)
  {
    assert modes[..k + 1] == modes[..k] + [modes[k]];
    AllAppend(modes[..k], modes[k], mp);
    RunSharedAppend(start, AllChanges(modes[..k], mp), Changes(modes[k], mp));
  }

  /** mode.go updateSlice; the old slice is compared after the loop, through the shared array. */
  method UpdateSlice(mv: Slice, modes: seq<string>, mp: Perms) returns (ret: Slice, bad: string, updated: bool)
    requires InBounds(mv)
    modifies mv.arr
    ensures InBounds(ret) && (ret.arr == mv.arr || fresh(ret.arr))
    ensures Update(View(ret), bad, updated) == old(Apply(View(mv), mv.arr[mv.len..], modes, mp))
  {
    ret, bad := mv, [];
    ghost var start := Observe(mv, mv);
    assert mv.arr[..] == View(mv) + mv.arr[mv.len..];
    for k := 0 to |modes|
      invariant InBounds(ret) && (ret.arr == mv.arr || fresh(ret.arr))
      invariant Observe(mv, ret) == RunShared(start, AllChanges(modes[..k], mp))
      invariant bad == AllBad(modes[..k], mp)
    {
      RunSharedCur(start, AllChanges(modes[..k], mp));
      StringStep(start, modes, k, mp);
      var newMode, newBad := UpdateOne(ret, modes[k], mp, mv);
      ret := newMode;
      bad := bad + newBad;
    }
    assert modes[..|modes|] == modes;
    RunSharedCur(start, AllChanges(modes, mp));
    updated := mv.arr[..mv.len] != ret.arr[..ret.len];
  }
}
