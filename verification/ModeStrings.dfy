/** What mode strings mean, letter by letter and position by position. */
module ModeStrings {
  import opened Seqs
  import opened Modes

  /** The two tables: what may be named, what may be set, what may be taken away. */
  lemma Tables()
    ensures USER_PERMS.all == {'a', 'i', 'o', 'E', 'O'} && USER_PERMS.add == {'i', 'E'}
    ensures USER_PERMS.del == {'a', 'i', 'o', 'E', 'O'}
    ensures CHAN_PERMS.all == CHAN_PERMS.add == CHAN_PERMS.del == {'m', 't', 's'}
  {
  }

  // ----- which string decides a letter

  /** The string names the letter after a sign under which the table permits it. */
  predicate Names(str: string, mp: Perms, c: char) {
    exists j :: 1 <= j < |str| && NamesAt(str, mp, c, j)
  }

  predicate NamesAt(str: string, mp: Perms, c: char, j: nat)
    requires j < |str|
  {
    str[j] == c && ((str[0] == '+' && c in mp.add) || (str[0] == '-' && c in mp.del))
  }

  lemma {:induction false} WantedAfter(letters: string, add: bool, allowed: set<char>, c: char, was: bool)
    ensures Wanted(Permitted(letters, add, allowed), c, was) == if c in letters && c in allowed then add else was
  {
    if letters != [] {
      var n := |letters| - 1;
      WantedAfter(letters[..n], add, allowed, c, was);
      SplitLetters(letters, n, add, allowed);
      assert letters[..n + 1] == letters;
      assert letters == letters[..n] + [letters[n]];
      if letters[n] in allowed {
        OnePermitted(letters[n], add, allowed);
        WantedLast(Permitted(letters[..n], add, allowed), Signed(add, letters[n]), c, was);
      } else {
        assert Permitted([letters[n]], add, allowed) == [];
        assert Permitted(letters, add, allowed) == Permitted(letters[..n], add, allowed);
      }
    }
  }

  lemma OnePermitted(c: char, add: bool, allowed: set<char>)
    requires c in allowed
    ensures Permitted([c], add, allowed) == [Signed(add, c)]
  {
    assert Permitted([c], add, allowed) == [Signed(add, c)] + Permitted([c][1..], add, allowed);
  }

  lemma WantedLast(ops: seq<Signed>, op: Signed, c: char, was: bool)
    ensures Wanted(ops + [op], c, was) == if op.letter == c then op.add else Wanted(ops, c, was)
  {
    assert (ops + [op])[..|ops|] == ops;
  }

  lemma {:induction false} WantedAppend(a: seq<Signed>, b: seq<Signed>, c: char, was: bool)
    ensures Wanted(a + b, c, was) == Wanted(b, c, Wanted(a, c, was))
  {
    if b == [] {
      assert a + b == a;
    } else {
      var n := |b| - 1;
      WantedAppend(a, b[..n], c, was);
      assert a + b == a + b[..n] + [b[n]];
      WantedLast(a + b[..n], b[n], c, was);
    }
  }

  lemma WantedString(str: string, mp: Perms, c: char, was: bool)
    ensures Wanted(Changes(str, mp), c, was) == if Names(str, mp, c) then str[0] == '+' else was
  {
    if str != [] {
      var letters := str[1..];
      WantedAfter(letters, true, mp.add, c, was);
      WantedAfter(letters, false, mp.del, c, was);
      if c in letters {
        var i :| 0 <= i < |letters| && letters[i] == c;
        assert str[i + 1] == c;
        if (str[0] == '+' && c in mp.add) || (str[0] == '-' && c in mp.del) { assert NamesAt(str, mp, c, i + 1); }
      }
      if Names(str, mp, c) {
        var j :| 1 <= j < |str| && NamesAt(str, mp, c, j);
        assert letters[j - 1] == c;
      }
    }
  }

  /** String `i` is the last that names the letter with a permitted sign. */
  predicate LastToName(modes: seq<string>, mp: Perms, c: char, i: nat) {
    i < |modes| && Names(modes[i], mp, c) && forall k :: i < k < |modes| ==> !Names(modes[k], mp, c)
  }

  lemma WantedNext(modes: seq<string>, mp: Perms, c: char, was: bool)
    requires modes != []
    ensures var n := |modes| - 1;
      Wanted(AllChanges(modes, mp), c, was) ==
        if Names(modes[n], mp, c) then modes[n][0] == '+' else Wanted(AllChanges(modes[..n], mp), c, was)
  {
    var n := |modes| - 1;
    var past := modes[..n];
    AllAppend(past, modes[n], mp);
    assert modes == past + [modes[n]];
    WantedAppend(AllChanges(past, mp), Changes(modes[n], mp), c, was);
    WantedString(modes[n], mp, c, Wanted(AllChanges(past, mp), c, was));
  }

  lemma {:induction false} WantedList(modes: seq<string>, mp: Perms, c: char, was: bool)
    ensures forall i: nat :: LastToName(modes, mp, c, i) ==>
      Wanted(AllChanges(modes, mp), c, was) == (modes[i][0] == '+')
    ensures (forall i :: 0 <= i < |modes| ==> !Names(modes[i], mp, c)) ==> Wanted(AllChanges(modes, mp), c, was) == was
  {
    if modes != [] {
      var n := |modes| - 1;
      var past := modes[..n];
      WantedList(past, mp, c, was);
      WantedNext(modes, mp, c, was);
      forall i: nat | LastToName(modes, mp, c, i)
        ensures Wanted(AllChanges(modes, mp), c, was) == (modes[i][0] == '+') {
        if i < n {
          assert !Names(modes[n], mp, c);
          forall k | i < k < n ensures !Names(past[k], mp, c) { assert !Names(modes[k], mp, c); }
          assert LastToName(past, mp, c, i);
        }
      }
      if forall i :: 0 <= i < |modes| ==> !Names(modes[i], mp, c) {
        assert !Names(modes[n], mp, c);
        forall i | 0 <= i < n ensures !Names(past[i], mp, c) { assert !Names(modes[i], mp, c); }
      }
    }
  }

  /**
   From a duplicate-free mode, whatever the array's capacity: a letter is there afterwards exactly
   if the last string that names it with a permitted sign has a plus, or, if none names it, exactly
   if it was there before; and no letter is there twice.
   */
  lemma StringsDecide(mv: string, spare: string, modes: seq<string>, mp: Perms, c: char)
    requires NoDup(mv)
    ensures var r := Apply(mv, spare, modes, mp).mode;
      && NoDup(r)
      && (forall i: nat :: LastToName(modes, mp, c, i) ==> (c in r <==> modes[i][0] == '+'))
      && ((forall i :: 0 <= i < |modes| ==> !Names(modes[i], mp, c)) ==> (c in r <==> c in mv))
  {
    var ops := AllChanges(modes, mp);
    ApplyMode(mv, spare, modes, mp);
    ExecuteNoDup(mv, ops);
    WantedIsPresent(mv, ops, c);
    WantedList(modes, mp, c, c in mv);
  }

  // ----- which letters are rejected

  /** Position `j` of the string holds a letter that its sign, or without a sign the table, does not know. */
  predicate RejectedAt(str: string, mp: Perms, j: nat) {
    && j < |str|
    && if str[0] == '+' then j > 0 && str[j] !in mp.add
       else if str[0] == '-' then j > 0 && str[j] !in mp.del
       else str[j] !in mp.all
  }

  /** `js` are, in order, the positions of letters outside the set, from `from` on. */
  predicate Outside(str: string, allowed: set<char>, from: nat, js: seq<nat>) {
    && (forall k, l :: 0 <= k < l < |js| ==> js[k] < js[l])
    && (forall k :: 0 <= k < |js| ==> from <= js[k] < |str| && str[js[k]] !in allowed)
    && (forall j :: from <= j < |str| && str[j] !in allowed ==> j in js)
  }

  lemma {:induction false} OutsidePositions(str: string, allowed: set<char>, from: nat, upto: nat)
    returns (js: seq<nat>)
    requires from <= upto <= |str|
    ensures Outside(str[..upto], allowed, from, js) && |Rejected(str[from..upto], allowed)| == |js|
    ensures forall k :: 0 <= k < |js| ==> Rejected(str[from..upto], allowed)[k] == str[js[k]]
    decreases upto
  {
    if from == upto {
      js := [];
      assert str[from..upto] == [];
    } else {
      var past := OutsidePositions(str, allowed, from, upto - 1);
      js := past + if str[upto - 1] in allowed then [] else [upto - 1];
      var letters := str[from..upto];
      assert letters[..|letters| - 1] == str[from..upto - 1];
      SplitLetters(letters, |letters| - 1, true, allowed);
      assert letters[..|letters|] == letters;
      OutsideMore(str, allowed, from, upto, past, js);
    }
  }

  lemma OutsideMore(str: string, allowed: set<char>, from: nat, upto: nat, past: seq<nat>, js: seq<nat>)
    requires from < upto <= |str| && Outside(str[..upto - 1], allowed, from, past)
    requires js == past + if str[upto - 1] in allowed then [] else [upto - 1]
    ensures Outside(str[..upto], allowed, from, js)
  {
    forall k | 0 <= k < |past| ensures str[past[k]] !in allowed { assert str[..upto - 1][past[k]] !in allowed; }
    forall j | from <= j < upto && str[..upto][j] !in allowed ensures j in js {
      if j < upto - 1 { assert str[..upto - 1][j] !in allowed; }
    }
  }

  /** `js` are, in order, the positions of the rejected letters `bad` of a string. */
  ghost predicate InString(str: string, mp: Perms, js: seq<nat>, bad: string) {
    && |bad| == |js| && (forall k, l :: 0 <= k < l < |js| ==> js[k] < js[l])
    && (forall k :: 0 <= k < |js| ==> RejectedAt(str, mp, js[k]) && bad[k] == str[js[k]])
    && (forall j: nat :: RejectedAt(str, mp, j) ==> j in js)
  }

  /** The rejected letters of one string, in order. */
  lemma BadLettersExactly(str: string, mp: Perms) returns (js: seq<nat>)
    ensures InString(str, mp, js, BadLetters(str, mp))
  {
    js := [];
    if str != [] {
      var signed := str[0] == '+' || str[0] == '-';
      var allowed := if str[0] == '+' then mp.add else if str[0] == '-' then mp.del else mp.all;
      js := OutsidePositions(str, allowed, if signed then 1 else 0, |str|);
      assert str[..|str|] == str && str[0..] == str;
      assert str[1..|str|] == str[1..];
    }
  }

  predicate Before(p: (nat, nat), q: (nat, nat)) { p.0 < q.0 || (p.0 == q.0 && p.1 < q.1) }

  /** A rejected letter of the list and its place. */
  predicate PlacedAt(modes: seq<string>, mp: Perms, p: (nat, nat), c: char) {
    p.0 < |modes| && RejectedAt(modes[p.0], mp, p.1) && c == modes[p.0][p.1]
  }

  ghost predicate Ordered(ps: seq<(nat, nat)>) { forall k, l :: 0 <= k < l < |ps| ==> Before(ps[k], ps[l]) }

  ghost predicate AllPlaced(modes: seq<string>, mp: Perms, ps: seq<(nat, nat)>, bad: string) {
    |ps| == |bad| && forall k :: 0 <= k < |ps| ==> PlacedAt(modes, mp, ps[k], bad[k])
  }

  ghost predicate Complete(modes: seq<string>, mp: Perms, ps: seq<(nat, nat)>) {
    forall i: nat, j: nat :: i < |modes| && RejectedAt(modes[i], mp, j) ==> (i, j) in ps
  }

  function Placed(n: nat, js: seq<nat>): (r: seq<(nat, nat)>)
    ensures |r| == |js| && forall k :: 0 <= k < |r| ==> r[k] == (n, js[k])
  {
    seq(|js|, k requires 0 <= k < |js| => (n, js[k]))
  }

  /** What is reported as bad is exactly the rejected letters of the list, in the order they were given. */
  lemma {:induction false} BadExactly(modes: seq<string>, mp: Perms) returns (ps: seq<(nat, nat)>)
    ensures Ordered(ps) && AllPlaced(modes, mp, ps, AllBad(modes, mp)) && Complete(modes, mp, ps)
  {
    if modes == [] {
      ps := [];
    } else {
      var n := |modes| - 1;
      var past := BadExactly(modes[..n], mp);
      var js := BadLettersExactly(modes[n], mp);
      AllAppend(modes[..n], modes[n], mp);
      assert modes == modes[..n] + [modes[n]];
      ps := past + Placed(n, js);
      PlacedMore(modes, mp, past, js, AllBad(modes[..n], mp), BadLetters(modes[n], mp));
      OrderedMore(modes, mp, past, js, AllBad(modes[..n], mp), BadLetters(modes[n], mp));
      CompleteMore(modes, mp, past, js, BadLetters(modes[n], mp));
    }
  }

  lemma PlacedMore(modes: seq<string>, mp: Perms, past: seq<(nat, nat)>, js: seq<nat>, bad: string, more: string)
    requires modes != [] && AllPlaced(modes[..|modes| - 1], mp, past, bad) && InString(modes[|modes| - 1], mp, js, more)
    ensures AllPlaced(modes, mp, past + Placed(|modes| - 1, js), bad + more)
  {
    var n := |modes| - 1;
    var ps := past + Placed(n, js);
    forall k | 0 <= k < |ps| ensures PlacedAt(modes, mp, ps[k], (bad + more)[k]) {
      if k < |past| {
        assert PlacedAt(modes[..n], mp, past[k], bad[k]);
      } else {
        assert ps[k] == (n, js[k - |past|]) && (bad + more)[k] == more[k - |past|];
      }
    }
  }

  lemma OrderedMore(modes: seq<string>, mp: Perms, past: seq<(nat, nat)>, js: seq<nat>, bad: string, more: string)
    requires modes != [] && Ordered(past) && AllPlaced(modes[..|modes| - 1], mp, past, bad)
    requires InString(modes[|modes| - 1], mp, js, more)
    ensures Ordered(past + Placed(|modes| - 1, js))
  {
    var n := |modes| - 1;
    var ps := past + Placed(n, js);
    forall k, l | 0 <= k < l < |ps| ensures Before(ps[k], ps[l]) {
      if l < |past| {
        assert Before(past[k], past[l]);
      } else if k < |past| {
        assert PlacedAt(modes[..n], mp, past[k], bad[k]);
      } else {
        assert js[k - |past|] < js[l - |past|];
      }
    }
  }

  lemma CompleteMore(modes: seq<string>, mp: Perms, past: seq<(nat, nat)>, js: seq<nat>, more: string)
    requires modes != [] && Complete(modes[..|modes| - 1], mp, past) && InString(modes[|modes| - 1], mp, js, more)
    ensures Complete(modes, mp, past + Placed(|modes| - 1, js))
  {
    var n := |modes| - 1;
    var last := Placed(n, js);
    forall i: nat, j: nat | i < |modes| && RejectedAt(modes[i], mp, j) ensures (i, j) in past + last {
      if i < n {
        assert modes[..n][i] == modes[i];
        assert (i, j) in past;
      } else {
        var k :| 0 <= k < |js| && js[k] == j;
        assert last[k] == (i, j);
      }
    }
  }
}
