/**
 Branching in PS1006: short-circuit conditions, the capped deduplication,
 switch statements with fallthrough, and loops over sets of states
 (checks/ps1006.go:2264-2609).

 The effect of one leaf expression or one plain statement is an oracle: what
 the analysis does to a state, and what the program does to a store.
 */
module ConditionFlow {
  import opened Confinement
  import opened DependencyState
  import opened GoBodies
  import opened OrderedSoundness
  import Products
  import opened Wrappers

  type Leaf = nat

  /** `run` is None where the leaf panics. `assigns` are the assignments and declarations, and
      `retargets` the leaves that may change an alias. */
  datatype Oracle = Oracle(
    apply: (Leaf, State) -> State, constant: Leaf -> Option<bool>, run: (Leaf, Store) -> Option<(Store, bool)>,
    assigns: Leaf -> bool, retargets: Leaf -> bool)

  /** What the code does where it leaves the alias map alone. */
  function Unaliased(o: Oracle, l: Leaf, s: State): State {
    o.apply(l, s).(aliases := s.aliases)
  }

  /** The state covers the store, pointers in the store have the declared levels, and tracked
      pointers are known to point at free objects only. */
  ghost predicate Describes(g: Ground, s: State, m: Store) {
    Covers(g, s, m) && Typed(g.p, m) && StateInside(g.free, s)
  }

  /** Where a leaf ends it is transferred soundly, a constant leaf has its constant's value, known
      targets stay free objects, and only leaves that retarget change the alias map. */
  ghost predicate Trusted(g: Ground, o: Oracle) {
    && (forall l: Leaf, s: State, m: Store | Describes(g, s, m) && o.run(l, m).Some? ::
          Describes(g, o.apply(l, s), o.run(l, m).value.0))
    && (forall l: Leaf, m: Store | o.constant(l).Some? && o.run(l, m).Some? ::
          o.run(l, m).value.1 == o.constant(l).value)
    && (forall l: Leaf, s: State | StateInside(g.free, s) :: StateInside(g.free, o.apply(l, s)))
    && (forall l: Leaf, s: State | !o.retargets(l) :: o.apply(l, s).aliases == s.aliases)
  }

  ghost predicate SomeCovers(g: Ground, states: seq<State>, m: Store) {
    exists s :: s in states && Describes(g, s, m)
  }

  // ----- what every state on the way keeps -----

  ghost predicate AllIn(states: seq<State>, i: iset<State>) {
    forall s | s in states :: s in i
  }

  /** Leaves, with and without their aliases, and joins lead from states in `i` to states in `i`. */
  ghost predicate Kept(o: Oracle, i: iset<State>) {
    && (forall l: Leaf, s: State | s in i :: o.apply(l, s) in i && Unaliased(o, l, s) in i)
    && (forall states: seq<State> | states != [] && AllIn(states, i) :: Union(states) in i)
  }

  /** Too few states for the deduplication to lose one. */
  ghost predicate Narrow(i: iset<State>) {
    forall states | AllIn(states, i) :: Few(states)
  }

  /** States in which tracked pointers are known to point at free objects only. */
  ghost function Tame(g: Ground): iset<State> {
    iset s: State | StateInside(g.free, s)
  }

  lemma TrustedKeeps(g: Ground, o: Oracle)
    requires Trusted(g, o)
    ensures Kept(o, Tame(g))
  {
    forall l: Leaf, s: State | s in Tame(g) ensures Unaliased(o, l, s) in Tame(g) {
      assert Tracked(Unaliased(o, l, s)) == Tracked(s);
    }
    forall states: seq<State> | states != [] && AllIn(states, Tame(g)) ensures Union(states) in Tame(g) {
      UnionInside(g.free, states);
    }
  }

  // ----- deduplication (checks/ps1006.go:2308-2326) -----

  const MAX_PATHS: nat := 256

  function KeySet(states: seq<State>): set<(set<Object>, map<Object, string>, map<Object, Alias>)> {
    set s | s in states :: Key(s)
  }

  function DedupeFrom(states: seq<State>, result: seq<State>): seq<State>
    decreases |states|
  {
    if states == [] then result
    else if Key(states[0]) in KeySet(result) then DedupeFrom(states[1..], result)
    else if |result| + 1 > MAX_PATHS then [Union(result + [states[0]])]
    else DedupeFrom(states[1..], result + [states[0]])
  }

  function Dedupe(states: seq<State>): seq<State> {
    if |states| <= 1 then states else DedupeFrom(states, [])
  }

  /** The deduplication may be handed this many distinct states without losing one. */
  predicate Few(states: seq<State>) {
    |KeySet(states)| <= 257
  }

  method DedupeDependencyStates(states: seq<State>) returns (result: seq<State>)
    ensures result == Dedupe(states)
  {
    if |states| <= 1 { return states; }
    var seen := {};
    result := [];
    for i := 0 to |states|
      invariant seen == KeySet(result) && |result| <= MAX_PATHS
      invariant DedupeFrom(states[i..], result) == Dedupe(states)
    {
      assert states[i..][1..] == states[i + 1..];
      var key := Key(states[i]);
      if key !in seen {
        seen := seen + {key};
        result := result + [states[i]];
        if |result| > MAX_PATHS {
          var union := UnionDependencyState(result);
          return [union];
        }
      }
    }
  }

  lemma {:induction false} KeysAtMost(states: seq<State>)
    ensures |KeySet(states)| <= |states|
  {
    if states != [] {
      var n := |states| - 1;
      KeysAtMost(states[..n]);
      assert states == states[..n] + [states[n]];
      assert KeySet(states) == KeySet(states[..n]) + {Key(states[n])};
    }
  }

  /** Every input keeps a representative, provided no more than 257 distinct states arrive. */
  lemma {:induction false} DedupeFromKeeps(states: seq<State>, result: seq<State>, all: seq<State>, s: State)
    requires s in result || s in states
    requires |result| <= MAX_PATHS && |KeySet(result)| == |result|
    requires Few(all) && forall t | t in result || t in states :: t in all
    ensures exists r ::
              && r in DedupeFrom(states, result)
              && (Key(r) == Key(s) || Leq(s, r) || exists t :: Key(t) == Key(s) && Leq(t, r))
    decreases |states|
  {
    if states == [] {
    } else if Key(states[0]) in KeySet(result) {
      if s == states[0] && s !in result && s !in states[1..] {
        var t :| t in result && Key(t) == Key(s);
        DedupeFromKeeps(states[1..], result, all, t);
      } else {
        DedupeFromKeeps(states[1..], result, all, s);
      }
    } else {
      var more := result + [states[0]];
      assert KeySet(more) == KeySet(result) + {Key(states[0])};
      if |more| > MAX_PATHS {
        assert KeySet(more) <= KeySet(all);
        SameSize(KeySet(more), KeySet(all));
        assert Key(s) in KeySet(more);
        var t :| t in more && Key(t) == Key(s);
        UnionIsUpperBound(more, t);
        assert Union(more) in [Union(more)];
      } else {
        DedupeFromKeeps(states[1..], more, all, s);
      }
    }
  }

  lemma SameSize<T>(a: set<T>, b: set<T>)
    requires a <= b && |a| >= |b|
    ensures a == b
  {
    assert |b - a| == |b| - |a|;
  }

  lemma {:induction false} DedupeFromIn(o: Oracle, i: iset<State>, states: seq<State>, result: seq<State>)
    requires Kept(o, i) && AllIn(states, i) && AllIn(result, i)
    ensures AllIn(DedupeFrom(states, result), i)
    decreases |states|
  {
    hide Union;
    if states != [] {
      var more := result + [states[0]];
      assert states[0] in states && AllIn(more, i);
      if Key(states[0]) in KeySet(result) { DedupeFromIn(o, i, states[1..], result); }
      else if |more| <= MAX_PATHS { DedupeFromIn(o, i, states[1..], more); }
    }
  }

  lemma DedupeIn(o: Oracle, i: iset<State>, states: seq<State>)
    requires Kept(o, i) && AllIn(states, i)
    ensures AllIn(Dedupe(states), i)
    ensures Narrow(i) ==> Few(states)
  {
    DedupeFromIn(o, i, states, []);
  }

  lemma DedupeCovers(g: Ground, o: Oracle, states: seq<State>, s: State, m: Store)
    requires s in states && Describes(g, s, m) && Few(states) && Kept(o, Tame(g)) && AllIn(states, Tame(g))
    ensures SomeCovers(g, Dedupe(states), m)
  {
    hide Covers, Typed, StateInside;
    DedupeIn(o, Tame(g), states);
    if |states| > 1 {
      DedupeFromKeeps(states, [], states, s);
      var r :| r in DedupeFrom(states, [])
               && (Key(r) == Key(s) || Leq(s, r) || exists t :: Key(t) == Key(s) && Leq(t, r));
      if Key(r) == Key(s) {
        SameKeyCovers(g, s, r, m);
      } else if Leq(s, r) {
        LeqKeepsCover(g, s, r, m);
      } else {
        var t :| Key(t) == Key(s) && Leq(t, r);
        SameKeyCovers(g, s, t, m);
        LeqKeepsCover(g, t, r, m);
      }
    }
  }

  predicate DistinctKeys(states: seq<State>) {
    forall i, j | 0 <= i < j < |states| :: Key(states[i]) != Key(states[j])
  }

  lemma {:induction false} DistinctKeep(states: seq<State>, result: seq<State>)
    requires DistinctKeys(result + states) && |result| + |states| <= MAX_PATHS
    ensures DedupeFrom(states, result) == result + states
    decreases |states|
  {
    if states != [] {
      var more := result + [states[0]];
      assert more + states[1..] == result + states;
      assert forall k | 0 <= k < |result| :: (result + states)[k] == result[k];
      assert Key(states[0]) !in KeySet(result) by { assert (result + states)[|result|] == states[0]; }
      DistinctKeep(states[1..], more);
    } else {
      assert result + states == result;
    }
  }

  lemma {:induction false} DistinctOverflow(states: seq<State>, result: seq<State>)
    requires DistinctKeys(result + states) && |result| <= MAX_PATHS < |result| + |states|
    ensures DedupeFrom(states, result) == [Union((result + states)[..MAX_PATHS + 1])]
    decreases |states|
  {
    var more := result + [states[0]];
    assert more + states[1..] == result + states;
    assert forall k | 0 <= k < |result| :: (result + states)[k] == result[k];
    assert Key(states[0]) !in KeySet(result) by { assert (result + states)[|result|] == states[0]; }
    if |more| <= MAX_PATHS {
      DistinctOverflow(states[1..], more);
    } else {
      assert (result + states)[..MAX_PATHS + 1] == more;
    }
  }

  /**
   In numbers: up to 256 states with distinct keys come back as they are; with
   more of them the first 257 come back as one union, and the others are dropped.
   */
  lemma DedupeInNumbers(states: seq<State>)
    requires DistinctKeys(states)
    ensures |states| <= 256 ==> Dedupe(states) == states
    ensures |states| == 257 ==> Dedupe(states) == [Union(states)]
    ensures |states| >= 258 ==> Dedupe(states) == [Union(states[..257])]
  {
    assert [] + states == states && states[..|states|] == states;
    if |states| <= 256 { DistinctKeep(states, []); } else { DistinctOverflow(states, []); }
  }

  /** While at most 256 distinct states arrive, what comes back was handed in. */
  lemma {:induction false} DedupeFromSelects(states: seq<State>, result: seq<State>)
    requires |result| == |KeySet(result)| && |KeySet(result) + KeySet(states)| <= 256
    ensures forall s | s in DedupeFrom(states, result) :: s in result || s in states
    decreases |states|
  {
    hide Union, Key;
    if states != [] {
      var more := result + [states[0]];
      assert KeySet(states) == {Key(states[0])} + KeySet(states[1..]);
      assert KeySet(more) == KeySet(result) + {Key(states[0])};
      assert KeySet(more) + KeySet(states[1..]) == KeySet(result) + KeySet(states);
      if Key(states[0]) in KeySet(result) {
        assert KeySet(result) + KeySet(states[1..]) == KeySet(result) + KeySet(states);
        DedupeFromSelects(states[1..], result);
      } else {
        SmallerSet(KeySet(more), KeySet(result) + KeySet(states));
        DedupeFromSelects(states[1..], more);
      }
    }
  }

  lemma SmallerSet<T>(a: set<T>, b: set<T>)
    requires a <= b
    ensures |a| <= |b|
  {
    assert b == a + (b - a);
  }

  lemma DedupeSelects(states: seq<State>)
    requires |KeySet(states)| <= 256
    ensures forall s | s in Dedupe(states) :: s in states
  {
    assert KeySet([]) + KeySet(states) == KeySet(states);
    DedupeFromSelects(states, []);
  }

  function Singles(lo: nat, hi: nat): seq<State>
    requires lo <= hi
  {
    seq(hi - lo, i requires 0 <= i => State({lo + i}, map[], None))
  }

  lemma {:induction false} SinglesOverflow(k: nat, n: nat)
    requires k <= MAX_PATHS && n > MAX_PATHS + 1
    ensures DedupeFrom(Singles(k, n), Singles(0, k)) == [Union(Singles(0, MAX_PATHS + 1))]
    decreases MAX_PATHS - k
  {
    var next := State({k}, map[], None);
    assert Singles(k, n)[0] == next && Singles(k, n)[1..] == Singles(k + 1, n);
    assert Singles(0, k) + [next] == Singles(0, k + 1);
    if k < MAX_PATHS { SinglesOverflow(k + 1, n); }
  }

  /** The bound of `Few` is exact: for every n from 258 on there are n states of which the last is lost. */
  lemma DedupeLosesStates(n: nat)
    requires n >= 258
    ensures DistinctKeys(Singles(0, n))
    ensures !exists r :: r in Dedupe(Singles(0, n)) && Leq(Singles(0, n)[n - 1], r)
  {
    SinglesOverflow(0, n);
    assert Singles(0, 0) == [];
    forall i, j | 0 <= i < j < n ensures Key(Singles(0, n)[i]) != Key(Singles(0, n)[j]) {
      assert Singles(0, n)[i].deps == {i} && Singles(0, n)[j].deps == {j};
      assert i in {i} && i !in {j};
    }
    var kept := Singles(0, MAX_PATHS + 1);
    assert n - 1 !in Union(kept).deps;
  }

  // ----- conditions (checks/ps1006.go:2268-2306) -----

  datatype Cond = Test(l: Leaf) | Not(c: Cond) | And(left: Cond, right: Cond) | Or(left: Cond, right: Cond)

  function Distinct(states: seq<State>): nat {
    |KeySet(states)|
  }

  function Max(a: nat, b: nat): nat {
    if a < b then b else a
  }

  /** `most`: the largest number of distinct states that a deduplication on the way was handed. */
  datatype Split = Split(whenTrue: seq<State>, whenFalse: seq<State>, most: nat) {
    /** None was lost. */
    predicate Within() {
      most <= 257
    }
  }

  function CondStates(o: Oracle, c: Cond, s: State): Split
    decreases c, 0, 0
  {
    match c
    case Test(l) =>
      var next := o.apply(l, s);
      if o.constant(l) == Some(true) then Split([next], [], 0)
      else if o.constant(l) == Some(false) then Split([], [next], 0)
      else Split([next], [next], 0)
    case Not(x) =>
      var r := CondStates(o, x, s);
      Split(r.whenFalse, r.whenTrue, r.most)
    case And(x, y) =>
      var a := CondStates(o, x, s);
      var b := RightStates(o, y, a.whenTrue);
      Deduped(b.whenTrue, a.whenFalse + b.whenFalse, Max(a.most, b.most))
    case Or(x, y) =>
      var a := CondStates(o, x, s);
      var b := RightStates(o, y, a.whenFalse);
      Deduped(a.whenTrue + b.whenTrue, b.whenFalse, Max(a.most, b.most))
  }

  function Deduped(whenTrue: seq<State>, whenFalse: seq<State>, most: nat): Split {
    Split(Dedupe(whenTrue), Dedupe(whenFalse), Max(most, Max(Distinct(whenTrue), Distinct(whenFalse))))
  }

  lemma DedupedIs(whenTrue: seq<State>, whenFalse: seq<State>, a: nat, b: nat)
    ensures var r := Deduped(whenTrue, whenFalse, Max(a, b));
            && r.whenTrue == Dedupe(whenTrue) && r.whenFalse == Dedupe(whenFalse)
            && (r.Within() <==> a <= 257 && b <= 257 && Few(whenTrue) && Few(whenFalse))
  {
    hide Dedupe, KeySet;
  }

  function RightStates(o: Oracle, c: Cond, lefts: seq<State>): Split
    decreases c, 1, |lefts|
  {
    if lefts == [] then Split([], [], 0)
    else
      var a, b := CondStates(o, c, lefts[0]), RightStates(o, c, lefts[1..]);
      Split(a.whenTrue + b.whenTrue, a.whenFalse + b.whenFalse, Max(a.most, b.most))
  }

  /** Go's evaluation: the right operand only runs when the left one does not decide. */
  function EvalCond(o: Oracle, c: Cond, m: Store): Option<(Store, bool)> {
    match c
    case Test(l) => o.run(l, m)
    case Not(x) =>
      (match EvalCond(o, x, m)
       case Some(r) => Some((r.0, !r.1))
       case None => None)
    case And(x, y) =>
      var r := EvalCond(o, x, m);
      if r.Some? && r.value.1 then EvalCond(o, y, r.value.0) else r
    case Or(x, y) =>
      var r := EvalCond(o, x, m);
      if r.Some? && !r.value.1 then EvalCond(o, y, r.value.0) else r
  }

  function Side(r: Split, b: bool): seq<State> {
    if b then r.whenTrue else r.whenFalse
  }

  lemma {:induction false} CondKeeps(o: Oracle, c: Cond, s: State, i: iset<State>)
    requires Kept(o, i) && s in i
    ensures var r := CondStates(o, c, s); AllIn(r.whenTrue, i) && AllIn(r.whenFalse, i) && (Narrow(i) ==> r.Within())
    decreases c, 0, 0
  {
    hide Union, Dedupe, Deduped, Few, Narrow;
    match c
    case Test(_) =>
    case Not(x) => CondKeeps(o, x, s, i);
    case And(x, y) =>
      CondKeeps(o, x, s, i);
      var a := CondStates(o, x, s);
      RightKeeps(o, y, a.whenTrue, i);
      var b := RightStates(o, y, a.whenTrue);
      DedupeIn(o, i, b.whenTrue);
      DedupeIn(o, i, a.whenFalse + b.whenFalse);
      DedupedIs(b.whenTrue, a.whenFalse + b.whenFalse, a.most, b.most);
    case Or(x, y) =>
      CondKeeps(o, x, s, i);
      var a := CondStates(o, x, s);
      RightKeeps(o, y, a.whenFalse, i);
      var b := RightStates(o, y, a.whenFalse);
      DedupeIn(o, i, a.whenTrue + b.whenTrue);
      DedupeIn(o, i, b.whenFalse);
      DedupedIs(a.whenTrue + b.whenTrue, b.whenFalse, a.most, b.most);
  }

  lemma {:induction false} RightKeeps(o: Oracle, c: Cond, lefts: seq<State>, i: iset<State>)
    requires Kept(o, i) && AllIn(lefts, i)
    ensures var r := RightStates(o, c, lefts);
            AllIn(r.whenTrue, i) && AllIn(r.whenFalse, i) && (Narrow(i) ==> r.Within())
    decreases c, 1, |lefts|
  {
    hide CondStates, Narrow, Kept;
    if lefts != [] {
      assert lefts[0] in lefts;
      CondKeeps(o, c, lefts[0], i);
      RightKeeps(o, c, lefts[1..], i);
    }
  }

  /** Short-circuit coverage. */
  lemma {:induction false} CondCovers(g: Ground, o: Oracle, c: Cond, s: State, m: Store)
    requires Trusted(g, o) && Describes(g, s, m) && CondStates(o, c, s).Within() && EvalCond(o, c, m).Some?
    ensures var e := EvalCond(o, c, m).value; SomeCovers(g, Side(CondStates(o, c, s), e.1), e.0)
    decreases c, 0, 0
  {
    hide Covers, Typed, Dedupe, Deduped, Few, Kept;
    match c
    case Test(l) =>
      var next := o.apply(l, s);
      assert next in [next] && Describes(g, next, o.run(l, m).value.0);
    case Not(x) => CondCovers(g, o, x, s, m);
    case And(x, y) =>
      hide Trusted;
      var e, a := EvalCond(o, x, m).value, CondStates(o, x, s);
      var b := RightStates(o, y, a.whenTrue);
      DedupedIs(b.whenTrue, a.whenFalse + b.whenFalse, a.most, b.most);
      CondCovers(g, o, x, s, m);
      TrustedKeeps(g, o);
      CondKeeps(o, x, s, Tame(g));
      var t :| t in Side(a, e.1) && Describes(g, t, e.0);
      RightKeeps(o, y, a.whenTrue, Tame(g));
      if e.1 {
        RightCovers(g, o, y, a.whenTrue, t, e.0);
        var f := EvalCond(o, y, e.0).value;
        var u :| u in Side(b, f.1) && Describes(g, u, f.0);
        DedupeCovers(g, o, if f.1 then b.whenTrue else a.whenFalse + b.whenFalse, u, f.0);
      } else {
        DedupeCovers(g, o, a.whenFalse + b.whenFalse, t, e.0);
      }
    case Or(x, y) =>
      hide Trusted;
      var e, a := EvalCond(o, x, m).value, CondStates(o, x, s);
      var b := RightStates(o, y, a.whenFalse);
      DedupedIs(a.whenTrue + b.whenTrue, b.whenFalse, a.most, b.most);
      CondCovers(g, o, x, s, m);
      TrustedKeeps(g, o);
      CondKeeps(o, x, s, Tame(g));
      var t :| t in Side(a, e.1) && Describes(g, t, e.0);
      RightKeeps(o, y, a.whenFalse, Tame(g));
      if e.1 {
        DedupeCovers(g, o, a.whenTrue + b.whenTrue, t, e.0);
      } else {
        RightCovers(g, o, y, a.whenFalse, t, e.0);
        var f := EvalCond(o, y, e.0).value;
        var u :| u in Side(b, f.1) && Describes(g, u, f.0);
        DedupeCovers(g, o, if f.1 then a.whenTrue + b.whenTrue else b.whenFalse, u, f.0);
      }
  }

  lemma {:induction false} RightCovers(g: Ground, o: Oracle, c: Cond, lefts: seq<State>, s: State, m: Store)
    requires Trusted(g, o) && s in lefts && Describes(g, s, m) && RightStates(o, c, lefts).Within()
    requires EvalCond(o, c, m).Some?
    ensures var e := EvalCond(o, c, m).value; SomeCovers(g, Side(RightStates(o, c, lefts), e.1), e.0)
    decreases c, 1, |lefts|
  {
    hide Covers, Typed, StateInside, Trusted;
    var e := EvalCond(o, c, m).value;
    if s == lefts[0] {
      CondCovers(g, o, c, s, m);
      var t :| t in Side(CondStates(o, c, s), e.1) && Describes(g, t, e.0);
      assert t in Side(RightStates(o, c, lefts), e.1);
    } else {
      RightCovers(g, o, c, lefts[1..], s, m);
      var t :| t in Side(RightStates(o, c, lefts[1..]), e.1) && Describes(g, t, e.0);
      assert t in Side(RightStates(o, c, lefts), e.1);
    }
  }

  // ----- a bound a caller can read off the condition -----

  /** How many states a condition can yield on its true and on its false side. */
  function Yield(o: Oracle, c: Cond): (nat, nat) {
    match c
    case Test(l) =>
      if o.constant(l) == Some(true) then (1, 0)
      else if o.constant(l) == Some(false) then (0, 1)
      else (1, 1)
    case Not(x) => var n := Yield(o, x); (n.1, n.0)
    case And(x, y) => var a, b := Yield(o, x), Yield(o, y); (a.0 * b.0, a.1 + a.0 * b.1)
    case Or(x, y) => var a, b := Yield(o, x), Yield(o, y); (a.0 + a.1 * b.0, a.1 * b.1)
  }

  predicate Small(o: Oracle, c: Cond) {
    match c
    case Test(_) => true
    case Not(x) => Small(o, x)
    case And(x, y) => Small(o, x) && Small(o, y) && Yield(o, c).0 <= MAX_PATHS + 1 && Yield(o, c).1 <= MAX_PATHS + 1
    case Or(x, y) => Small(o, x) && Small(o, y) && Yield(o, c).0 <= MAX_PATHS + 1 && Yield(o, c).1 <= MAX_PATHS + 1
  }

  /** Tests joined by one operator only. */
  predicate Uniform(c: Cond, and: bool) {
    match c
    case Test(_) => true
    case Not(_) => false
    case And(x, y) => and && Uniform(x, and) && Uniform(y, and)
    case Or(x, y) => !and && Uniform(x, and) && Uniform(y, and)
  }

  function Tests(c: Cond): nat {
    match c
    case Test(_) => 1
    case Not(x) => Tests(x)
    case And(x, y) => Tests(x) + Tests(y)
    case Or(x, y) => Tests(x) + Tests(y)
  }

  /** In numbers: up to 257 tests joined by && or by ||, however grouped, are small. */
  lemma {:induction false} UniformIsSmall(o: Oracle, c: Cond, and: bool)
    requires Uniform(c, and) && Tests(c) <= 257
    ensures Small(o, c)
    ensures var n := Yield(o, c);
            if and then n.0 <= 1 && n.1 <= Tests(c) else n.1 <= 1 && n.0 <= Tests(c)
  {
    match c
    case Test(_) =>
    case And(x, y) =>
      UniformIsSmall(o, x, and);
      UniformIsSmall(o, y, and);
      var n, k := Yield(o, x).0, Yield(o, y);
      Products.Monotone(n, 1, k.0);
      Products.Monotone(n, 1, k.1);
    case Or(x, y) =>
      UniformIsSmall(o, x, and);
      UniformIsSmall(o, y, and);
      var n, k := Yield(o, x).1, Yield(o, y);
      Products.Monotone(n, 1, k.0);
      Products.Monotone(n, 1, k.1);
  }

  lemma {:induction false} DedupeShrinks(states: seq<State>, result: seq<State>)
    requires |result| <= MAX_PATHS
    ensures |DedupeFrom(states, result)| <= |result| + |states|
    decreases |states|
  {
    if states != [] {
      if Key(states[0]) in KeySet(result) {
        DedupeShrinks(states[1..], result);
      } else if |result| < MAX_PATHS {
        DedupeShrinks(states[1..], result + [states[0]]);
      }
    }
  }

  /** A condition that yields few enough states is covered without further conditions. */
  lemma {:induction false} SmallIsWithin(o: Oracle, c: Cond, s: State)
    requires Small(o, c)
    ensures var r, n := CondStates(o, c, s), Yield(o, c);
            r.Within() && |r.whenTrue| <= n.0 && |r.whenFalse| <= n.1
    decreases c, 0, 0
  {
    match c
    case Test(_) =>
    case Not(x) => SmallIsWithin(o, x, s);
    case And(x, y) =>
      SmallIsWithin(o, x, s);
      var a, n, k := CondStates(o, x, s), Yield(o, x), Yield(o, y);
      RightIsWithin(o, y, a.whenTrue);
      var b := RightStates(o, y, a.whenTrue);
      Products.Monotone(|a.whenTrue|, n.0, k.0);
      Products.Monotone(|a.whenTrue|, n.0, k.1);
      SplitShrinks(b.whenTrue, a.whenFalse + b.whenFalse);
    case Or(x, y) =>
      SmallIsWithin(o, x, s);
      var a, n, k := CondStates(o, x, s), Yield(o, x), Yield(o, y);
      RightIsWithin(o, y, a.whenFalse);
      var b := RightStates(o, y, a.whenFalse);
      Products.Monotone(|a.whenFalse|, n.1, k.0);
      Products.Monotone(|a.whenFalse|, n.1, k.1);
      SplitShrinks(a.whenTrue + b.whenTrue, b.whenFalse);
  }

  lemma SplitShrinks(whenTrue: seq<State>, whenFalse: seq<State>)
    ensures |Dedupe(whenTrue)| <= |whenTrue| && |Dedupe(whenFalse)| <= |whenFalse|
    ensures |whenTrue| <= MAX_PATHS + 1 ==> Few(whenTrue)
    ensures |whenFalse| <= MAX_PATHS + 1 ==> Few(whenFalse)
  {
    DedupeShrinks(whenTrue, []);
    DedupeShrinks(whenFalse, []);
    KeysAtMost(whenTrue);
    KeysAtMost(whenFalse);
  }

  lemma {:induction false} RightIsWithin(o: Oracle, c: Cond, lefts: seq<State>)
    requires Small(o, c)
    ensures var r, n := RightStates(o, c, lefts), Yield(o, c);
            r.Within() && |r.whenTrue| <= |lefts| * n.0 && |r.whenFalse| <= |lefts| * n.1
    decreases c, 1, |lefts|
  {
    if lefts != [] {
      SmallIsWithin(o, c, lefts[0]);
      RightIsWithin(o, c, lefts[1..]);
      var n := Yield(o, c);
      Products.Next(|lefts| - 1, n.0);
      Products.Next(|lefts| - 1, n.1);
    }
  }
}
