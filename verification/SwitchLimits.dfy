/**
 Breaks, jumps and pointer assignments that the sets of states do not follow
 (checks/ps1006.go:2369-2459, 2525-2567), each with an input and with the exact
 condition under which nothing is lost.

 The conditions are read off the statements. That they are exact is shown by an
 oracle that answers every test from a tape in the store, so that any end a
 list may have is the end of some run.
 */
module SwitchLimits {
  import opened AliasResolution
  import opened ConditionFlow
  import opened Confinement
  import opened DependencyState
  import opened GoBodies
  import opened OrderedSoundness
  import opened OrderedTransfer
  import opened SwitchCoverage
  import opened SwitchFlow
  import opened Wrappers

  type Stmt = SwitchFlow.Stmt

  // ----- which leaves a list has -----

  function InitLeaf(l: Option<Leaf>): set<Leaf> {
    if l.Some? then {l.value} else {}
  }

  function CondLeaves(c: Cond): set<Leaf> {
    match c
    case Test(l) => {l}
    case Not(x) => CondLeaves(x)
    case And(x, y) => CondLeaves(x) + CondLeaves(y)
    case Or(x, y) => CondLeaves(x) + CondLeaves(y)
  }

  function Leaves(stmt: Stmt): set<Leaf>
    decreases stmt, 1
  {
    match stmt
    case Effect(l) => {l}
    case If(init, cond, thn, els) =>
      var inside := match els
        case NoElse => {}
        case ElseBlock(body) => ListLeaves(body)
        case ElseIf(s) => Leaves(s);
      InitLeaf(init) + CondLeaves(cond) + ListLeaves(thn) + inside
    case Loop(init, cond, post, body) => InitLeaf(init) + CondLeaves(cond) + InitLeaf(post) + ListLeaves(body)
    case Block(body) => ListLeaves(body)
    case Switch(before, _, clauses) => InitLeaf(before) + ClauseLeaves(clauses)
    case _ => {}
  }

  function ListLeaves(body: seq<Stmt>): set<Leaf>
    decreases body, 0
  {
    if body == [] then {} else Leaves(body[0]) + ListLeaves(body[1..])
  }

  function ExprLeaves(exprs: Option<seq<Leaf>>): set<Leaf> {
    if exprs.Some? then set l | l in exprs.value else {}
  }

  function ClauseLeaves(clauses: seq<Clause>): set<Leaf>
    decreases clauses, 0
  {
    if clauses == [] then {}
    else ExprLeaves(clauses[0].exprs) + ListLeaves(clauses[0].body) + ClauseLeaves(clauses[1..])
  }

  // ----- a run for every end -----

  const CLEARED := Cell(Num(0), false, false)

  function Tape(m: Store, n: nat): Store {
    m[0 := Cell(Num(n), false, false)]
  }

  function Remaining(m: Store): nat {
    match Load(m, 0).value
    case Num(n) => if n < 0 then 0 else n
    case _ => 0
  }

  function Wiped(x: Object, s: State): State {
    s.(deps := s.deps - {x})
  }

  /** A leaf answers with the lowest bit of the tape; those in `clears` also clear x. */
  function Scripted(x: Object, clears: set<Leaf>): Oracle {
    Oracle((l: Leaf, s: State) => if l in clears then Wiped(x, s) else s,
           (l: Leaf) => None,
           (l: Leaf, m: Store) =>
             Some((Tape(if l in clears then m[x := CLEARED] else m, Remaining(m) / 2), Remaining(m) % 2 == 1)),
           (l: Leaf) => false,
           (l: Leaf) => false)
  }

  /** Cells without flags and pointers may be stored anywhere. */
  lemma PlainCellDescribed(g: Ground, s: State, m: Store, o: Object, n: int)
    requires Describes(g, s, m)
    ensures Describes(g, s, m[o := Cell(Num(n), false, false)])
  {
    hide Retargets, ObjectTargets, StateInside;
    var m' := m[o := Cell(Num(n), false, false)];
    forall q: Object ensures Load(m', q) == if q == o then m'[o] else Load(m, q) {}
  }

  lemma WipedDescribes(g: Ground, s: State, m: Store, x: Object)
    requires Describes(g, s, m)
    ensures Describes(g, Wiped(x, s), m[x := CLEARED])
  {
    hide Retargets, ObjectTargets;
    var m' := m[x := CLEARED];
    forall q: Object ensures Load(m', q) == if q == x then CLEARED else Load(m, q) {}
    assert Tracked(Wiped(x, s)) == Tracked(s);
  }

  lemma ScriptedIsTrusted(g: Ground, x: Object, clears: set<Leaf>)
    ensures Trusted(g, Scripted(x, clears))
  {
    hide Describes;
    var o := Scripted(x, clears);
    forall l: Leaf, s: State, m: Store | Describes(g, s, m) && o.run(l, m).Some?
      ensures Describes(g, o.apply(l, s), o.run(l, m).value.0)
    {
      if l in clears {
        WipedDescribes(g, s, m, x);
        PlainCellDescribed(g, Wiped(x, s), m[x := CLEARED], 0, Remaining(m) / 2);
      } else {
        PlainCellDescribed(g, s, m, 0, Remaining(m) / 2);
      }
    }
    forall s: State ensures Tracked(Wiped(x, s)) == Tracked(s) {}
  }

  function Before(n: nat, answer: bool): nat {
    2 * n + if answer then 1 else 0
  }

  /** What the following lemmas are about: a store, and leaves that leave its other cells alone. */
  datatype Script = Script(x: Object, clears: set<Leaf>, m: Store)

  lemma Answers(w: Script, l: Leaf, n: nat, answer: bool)
    requires l !in w.clears
    ensures Scripted(w.x, w.clears).run(l, Tape(w.m, Before(n, answer))) == Some((Tape(w.m, n), answer))
  {
    assert Tape(Tape(w.m, Before(n, answer)), n) == Tape(w.m, n);
  }

  lemma {:induction false} RealizeCond(w: Script, c: Cond, answer: bool, n: nat) returns (t: nat)
    requires CondLeaves(c) !! w.clears
    ensures EvalCond(Scripted(w.x, w.clears), c, Tape(w.m, t)) == Some((Tape(w.m, n), answer))
  {
    hide Scripted, Tape;
    match c
    case Test(l) =>
      Answers(w, l, n, answer);
      t := Before(n, answer);
    case Not(x) => t := RealizeCond(w, x, !answer, n);
    case And(x, y) =>
      t := n;
      if answer { t := RealizeCond(w, y, true, n); }
      t := RealizeCond(w, x, answer, t);
    case Or(x, y) =>
      t := n;
      if !answer { t := RealizeCond(w, y, false, n); }
      t := RealizeCond(w, x, answer, t);
  }

  lemma RealizeAct(w: Script, l: Option<Leaf>, n: nat) returns (t: nat)
    requires InitLeaf(l) !! w.clears
    ensures Act(Scripted(w.x, w.clears), l, Tape(w.m, t)) == Some(Tape(w.m, n))
  {
    hide Scripted, Tape;
    match l
    case None => t := n;
    case Some(x) =>
      Answers(w, x, n, false);
      t := Before(n, false);
  }

  function Ended(end: End, m: Store): Run {
    match end
    case Falls => Fell(m)
    case Breaks => Broke(m)
    case Continues => Continued(m)
  }

  lemma {:induction false} RealizeList(w: Script, body: seq<Stmt>, end: End, n: nat, fuel: nat) returns (t: nat)
    requires MayEndList(body, end) && ListLeaves(body) !! w.clears
    ensures RunBody(Scripted(w.x, w.clears), body, Tape(w.m, t), fuel) == Ended(end, Tape(w.m, n))
    decreases body, 0
  {
    hide Scripted, Tape, MayEnd, RunOne, Leaves;
    if body == [] {
      t := n;
    } else if end != Falls && MayEnd(body[0], end) {
      t := Realize(w, body[0], end, n, fuel);
    } else {
      t := RealizeList(w, body[1..], end, n, fuel);
      t := Realize(w, body[0], Falls, t, fuel);
    }
  }

  /** Every end that can be read off a statement is the end of some run. */
  lemma {:induction false} Realize(w: Script, stmt: Stmt, end: End, n: nat, fuel: nat) returns (t: nat)
    requires MayEnd(stmt, end) && Leaves(stmt) !! w.clears
    ensures RunOne(Scripted(w.x, w.clears), stmt, Tape(w.m, t), fuel) == Ended(end, Tape(w.m, n))
    decreases stmt, 1
  {
    hide Scripted, Tape, MayEndList, MayLeave, RunBody, RunSwitch, EvalCond, ListLeaves, ClauseLeaves, CondLeaves;
    match stmt
    case Effect(l) => t := RealizeAct(w, Some(l), n);
    case If(init, cond, thn, els) =>
      var inside;
      if MayEndList(thn, end) {
        inside := RealizeList(w, thn, end, n, fuel);
      } else {
        match els
        case NoElse => inside := n;
        case ElseBlock(body) => inside := RealizeList(w, body, end, n, fuel);
        case ElseIf(s) => inside := Realize(w, s, end, n, fuel);
      }
      var tested := RealizeCond(w, cond, MayEndList(thn, end), inside);
      t := RealizeAct(w, init, tested);
    case Loop(init, cond, _, _) =>
      var tested := RealizeCond(w, cond, false, n);
      t := RealizeAct(w, init, tested);
    case Block(body) => t := RealizeList(w, body, end, n, fuel);
    case Switch(before, _, clauses) =>
      var inside := RealizeSwitch(w, clauses, end, n, fuel);
      t := RealizeAct(w, before, inside);
    case Break => t := n;
    case Continue => t := n;
  }

  lemma {:induction false} LaterLeaves(clauses: seq<Clause>, i: nat)
    requires i <= |clauses|
    ensures ClauseLeaves(clauses[i..]) <= ClauseLeaves(clauses)
    ensures i < |clauses| ==> ExprLeaves(clauses[i].exprs) <= ClauseLeaves(clauses)
    decreases i
  {
    if i == 0 {
      assert clauses[0..] == clauses;
    } else {
      assert clauses[i..] == clauses[1..][i - 1..];
      LaterLeaves(clauses[1..], i - 1);
    }
  }

  lemma {:induction false} RealizeSwitch(w: Script, clauses: seq<Clause>, end: End, n: nat, fuel: nat) returns (t: nat)
    requires MayLeave(clauses, end) && ClauseLeaves(clauses) !! w.clears
    ensures RunSwitch(Scripted(w.x, w.clears), clauses, Tape(w.m, t), fuel) == Ended(end, Tape(w.m, n))
    decreases clauses, 1
  {
    hide Scripted, Tape, MayLeaveFirst, RunClauses, MatchClause, ClauseLeaves;
    if end == Falls && DefaultIndex(clauses).None? {
      t := RealizeMisses(w, clauses, 0, n);
    } else {
      var i: nat :| i < |clauses| && Choosable(clauses, i) && MayLeaveFirst(clauses[i..], end);
      LaterLeaves(clauses, i);
      t := RealizeClauses(w, clauses[i..], end, n, fuel);
      if clauses[i].exprs.Some? {
        t := RealizeHit(w, clauses, 0, i, t);
      } else {
        t := RealizeMisses(w, clauses, 0, t);
      }
    }
  }

  lemma {:induction false} RealizeClauses(w: Script, clauses: seq<Clause>, end: End, n: nat, fuel: nat)
    returns (t: nat)
    requires MayLeaveFirst(clauses, end) && ClauseLeaves(clauses) !! w.clears
    ensures RunClauses(Scripted(w.x, w.clears), clauses, Tape(w.m, t), fuel) == Ended(end, Tape(w.m, n))
    decreases clauses, 0
  {
    hide Scripted, Tape, MayEndList, RunBody, ListLeaves;
    if clauses == [] {
      t := n;
    } else {
      var c := clauses[0];
      if end == Falls && MayEndList(c.body, Breaks) {
        t := RealizeList(w, c.body, Breaks, n, fuel);
      } else if end == Continues && MayEndList(c.body, Continues) {
        t := RealizeList(w, c.body, Continues, n, fuel);
      } else {
        t := n;
        if c.fallsThrough { t := RealizeClauses(w, clauses[1..], end, n, fuel); }
        t := RealizeList(w, c.body, Falls, t, fuel);
      }
    }
  }

  lemma {:induction false} RealizeMiss(w: Script, exprs: seq<Leaf>, n: nat) returns (t: nat)
    requires forall l | l in exprs :: l !in w.clears
    ensures MatchExprs(Scripted(w.x, w.clears), exprs, Tape(w.m, t)) == Some((Tape(w.m, n), false))
  {
    hide Scripted, Tape;
    t := n;
    if exprs != [] {
      t := RealizeMiss(w, exprs[1..], n);
      Answers(w, exprs[0], t, false);
      t := Before(t, false);
    }
  }

  lemma {:induction false} RealizeMisses(w: Script, clauses: seq<Clause>, i: nat, n: nat) returns (t: nat)
    requires i <= |clauses| && ClauseLeaves(clauses) !! w.clears
    ensures MatchClause(Scripted(w.x, w.clears), clauses, i, Tape(w.m, t)) == Some((Tape(w.m, n), None))
    decreases |clauses| - i
  {
    hide Scripted, Tape, MatchExprs, ClauseLeaves;
    t := n;
    if i < |clauses| {
      LaterLeaves(clauses, i);
      t := RealizeMisses(w, clauses, i + 1, n);
      if clauses[i].exprs.Some? { t := RealizeMiss(w, clauses[i].exprs.value, t); }
    }
  }

  lemma {:induction false} RealizeHit(w: Script, clauses: seq<Clause>, i: nat, k: nat, n: nat) returns (t: nat)
    requires i <= k < |clauses| && clauses[k].exprs.Some? && clauses[k].exprs.value != []
    requires ClauseLeaves(clauses) !! w.clears
    ensures MatchClause(Scripted(w.x, w.clears), clauses, i, Tape(w.m, t)) == Some((Tape(w.m, n), Some(k)))
    decreases k - i
  {
    hide Scripted, Tape, ClauseLeaves;
    LaterLeaves(clauses, i);
    if i == k {
      assert clauses[i].exprs.value[0] in clauses[i].exprs.value;
      Answers(w, clauses[i].exprs.value[0], n, true);
      t := Before(n, true);
    } else {
      t := RealizeHit(w, clauses, i + 1, k, n);
      if clauses[i].exprs.Some? { t := RealizeMiss(w, clauses[i].exprs.value, t); }
    }
  }

  // ----- where the runs start -----

  /** x is marked and nothing is known of any pointer. */
  function MarkedState(g: Ground, x: Object): State {
    State({x}, map[], Some(map o | o in Tracked(g.start) :: UNKNOWN_ALIAS))
  }

  /** x holds loop data. */
  function MarkedStore(x: Object): Store {
    map[x := Cell(Num(0), true, false)]
  }

  predicate Markable(g: Ground, x: Object) {
    x != 0 && x != g.p.inner && !IsFormal(g.p, x)
  }

  lemma MarkedIsDescribed(g: Ground, x: Object, n: nat)
    ensures Describes(g, MarkedState(g, x), Tape(MarkedStore(x), n))
  {
    hide ObjectTargets;
    var s, m := MarkedState(g, x), Tape(MarkedStore(x), n);
    forall o: Object ensures Load(m, o).value.Num? && !Load(m, o).stride && (Load(m, o).data ==> o == x) {}
  }

  lemma WipedIsNot(g: Ground, x: Object, n: nat)
    requires Markable(g, x)
    ensures !Describes(g, Wiped(x, MarkedState(g, x)), Tape(MarkedStore(x), n))
  {
    hide ObjectTargets;
    assert Load(Tape(MarkedStore(x), n), x).data;
  }

  lemma SomeMarkable(g: Ground) returns (x: Object)
    ensures Markable(g, x)
  {
    x := Fresh(Formals(g.p) + {0, g.p.inner});
    assert forall o | IsFormal(g.p, o) :: o in Formals(g.p);
  }

  /** The two states on the way. */
  ghost function OnTheWay(g: Ground, x: Object): iset<State> {
    iset{MarkedState(g, x), Wiped(x, MarkedState(g, x))}
  }

  lemma UnionIsMax(states: seq<State>, top: State)
    requires top in states && Normal(top) && forall s | s in states :: Leq(s, top)
    ensures Union(states) == top
  {
    UnionIsLeast(states, top);
    UnionIsUpperBound(states, top);
    LeqAntisymmetric(Union(states), top);
  }

  lemma TwoStates(g: Ground, x: Object)
    ensures var s, t := MarkedState(g, x), Wiped(x, MarkedState(g, x));
            Normal(s) && Normal(t) && Leq(s, s) && Leq(t, t) && Leq(t, s)
  {
    var s, t := MarkedState(g, x), Wiped(x, MarkedState(g, x));
    forall o: Object ensures AliasLeq(s, s, o) && AliasLeq(t, t, o) && AliasLeq(t, s, o) {}
  }

  lemma ScriptedKeeps(g: Ground, x: Object, clears: set<Leaf>)
    ensures Kept(Scripted(x, clears), OnTheWay(g, x)) && Narrow(OnTheWay(g, x))
  {
    hide Union, MarkedState, Normal, Leq;
    var i, s, t := OnTheWay(g, x), MarkedState(g, x), Wiped(x, MarkedState(g, x));
    TwoStates(g, x);
    assert Wiped(x, t) == t;
    forall states: seq<State> | states != [] && AllIn(states, i) ensures Union(states) in i {
      assert states[0] in states;
      UnionIsMax(states, if s in states then s else t);
    }
    forall states | AllIn(states, i) ensures Few(states) {
      assert KeySet(states) <= {Key(s), Key(t)};
      AtMostTwo(KeySet(states), Key(s), Key(t));
    }
  }

  lemma AtMostTwo<T>(s: set<T>, a: T, b: T)
    requires s <= {a, b}
    ensures |s| <= 2
  {
    assert |s - {a} - {b}| == 0;
  }

  // ----- continue and goto in a case body -----

  /** A list that reaches continue or goto has no flows at all, also none of the breaks before it. */
  lemma {:induction false} JumpDropsBreaks(o: Oracle, body: seq<Stmt>, jump: Stmt, flows: seq<Flow>)
    requires IsJump(jump) && forall b | b in body :: !b.Break?
    ensures FlowBody(o, body + [jump], flows).flows == []
    decreases |body|
  {
    if body == [] {
      assert body + [jump] == [jump];
    } else if !IsJump(body[0]) {
      assert (body + [jump])[0] == body[0] && (body + [jump])[1..] == body[1..] + [jump];
      JumpDropsBreaks(o, body[1..], jump, FlowEach(o, body[0], flows).flows);
    } else {
      assert (body + [jump])[0] == body[0];
    }
  }

  lemma {:induction false} RunsOnto(o: Oracle, body: seq<Stmt>, more: seq<Stmt>, m: Store, fuel: nat)
    ensures var run := RunBody(o, body, m, fuel);
            RunBody(o, body + more, m, fuel) == if run.Fell? then RunBody(o, more, run.store, fuel) else run
    decreases |body|
  {
    if body == [] {
      assert body + more == more;
    } else {
      assert (body + more)[0] == body[0] && (body + more)[1..] == body[1..] + more;
      var run := RunOne(o, body[0], m, fuel);
      if run.Fell? { RunsOnto(o, body[1..], more, run.store, fuel); }
    }
  }

  /** Whatever the leaves do, the flows of the case body cover its runs. */
  ghost predicate CaseAlwaysCovered(g: Ground, body: seq<Stmt>) {
    forall o: Oracle, flows: seq<Flow>, m: Store, fuel: nat
      | Trusted(g, o) && FlowCovers(g, flows, false, m)
        && Usable(FlowBody(o, body, flows).Within(), FlowBody(o, body, flows).settled, fuel) ::
      FlowsCover(g, FlowBody(o, body, flows), true, RunBody(o, body, m, fuel))
  }

  /** A case body that comes to a continue or goto is covered exactly when no break can leave it before. */
  lemma JumpCoveredIff(g: Ground, body: seq<Stmt>, jump: Stmt)
    requires IsJump(jump) && forall b | b in body :: !b.Break?
    ensures CaseAlwaysCovered(g, body + [jump]) <==> !MayEndList(body, Breaks)
  {
    hide Trusted, FlowBody, MayEndList, Scripted, Tape, Describes;
    if !MayEndList(body, Breaks) {
      forall o: Oracle, flows: seq<Flow>, m: Store, fuel: nat | Trusted(g, o) && FlowCovers(g, flows, false, m)
        ensures FlowsCover(g, FlowBody(o, body + [jump], flows), true, RunBody(o, body + [jump], m, fuel))
      {
        RunsOnto(o, body, [jump], m, fuel);
        ListsMayEnd(o, body, m, fuel);
      }
    } else {
      var x := SomeMarkable(g);
      var o, s := Scripted(x, {}), MarkedState(g, x);
      var t := RealizeList(Script(x, {}, MarkedStore(x)), body, Breaks, 0, 0);
      var m := Tape(MarkedStore(x), t);
      RunsOnto(o, body, [jump], m, 0);
      ScriptedIsTrusted(g, x, {});
      MarkedIsDescribed(g, x, t);
      var flows := [Flow(s, false)];
      assert Flow(s, false) in flows;
      JumpDropsBreaks(o, body, jump, flows);
      ScriptedKeeps(g, x, {});
      FlowBodyKeeps(o, body + [jump], flows, OnTheWay(g, x));
      assert Trusted(g, o) && FlowCovers(g, flows, false, m);
      assert Usable(FlowBody(o, body + [jump], flows).Within(), FlowBody(o, body + [jump], flows).settled, 0);
      assert RunBody(o, body + [jump], m, 0) == Broke(Tape(MarkedStore(x), 0));
      assert !FlowsCover(g, FlowBody(o, body + [jump], flows), true, RunBody(o, body + [jump], m, 0));
    }
  }

  // ----- what follows a break or a continue in the body of a loop -----

  lemma {:induction false} ExitsOnto(o: Oracle, body: seq<Stmt>, more: seq<Stmt>, states: seq<State>, breakExits: bool)
    ensures ExitBlock(o, body + more, states, breakExits).states ==
            ExitBlock(o, more, ExitBlock(o, body, states, breakExits).states, breakExits).states
    decreases |body|
  {
    if states == [] || body == [] {
      assert body == [] ==> body + more == more;
    } else {
      assert (body + more)[0] == body[0] && (body + more)[1..] == body[1..] + more;
      ExitsOnto(o, body[1..], more, ExitEach(o, body[0], states, breakExits).states, breakExits);
    }
  }

  lemma {:induction false} NothingBehindJump(o: Oracle, jump: Stmt, states: seq<State>)
    requires IsJump(jump)
    ensures ExitEach(o, jump, states, true).states == []
    decreases |states|
  {
    if states != [] { NothingBehindJump(o, jump, states[1..]); }
  }

  /** Whatever the leaves do, the store at the end of a trip through the loop body is covered. */
  ghost predicate TripAlwaysCovered(g: Ground, body: seq<Stmt>) {
    forall o: Oracle, states: seq<State>, m: Store, fuel: nat
      | Trusted(g, o) && SomeCovers(g, states, m)
        && Usable(ExitBlock(o, body, states, true).Within(), ExitBlock(o, body, states, true).settled, fuel) ::
      var run := RunBody(o, body, m, fuel);
      run.Fell? || run.Broke? || run.Continued? ==> SomeCovers(g, ExitBlock(o, body, states, true).states, run.store)
  }

  /** A loop body that ends in continue gives no states at all, so it is covered exactly when no trip ends. */
  lemma ContinueCoveredIff(g: Ground, body: seq<Stmt>)
    ensures TripAlwaysCovered(g, body + [Continue]) <==>
            !MayEndList(body, Falls) && !MayEndList(body, Breaks) && !MayEndList(body, Continues)
  {
    hide Trusted, ExitBlock, MayEndList, Scripted, Tape, Describes;
    forall o: Oracle, states: seq<State> ensures ExitBlock(o, body + [Continue], states, true).states == [] {
      ContinueExits(o, body, states);
    }
    if end: End :| MayEndList(body, end) {
      var x := SomeMarkable(g);
      var o, s := Scripted(x, {}), MarkedState(g, x);
      var t := RealizeList(Script(x, {}, MarkedStore(x)), body, end, 0, 0);
      RunsOnto(o, body, [Continue], Tape(MarkedStore(x), t), 0);
      var m := Tape(MarkedStore(x), 0);
      assert RunBody(o, [Continue], m, 0) == Continued(m);
      UsableStart(g, x, {}, body + [Continue], t);
      assert !SomeCovers(g, ExitBlock(o, body + [Continue], [s], true).states, m);
    } else {
      forall o: Oracle, m: Store, fuel: nat
        ensures var run := RunBody(o, body + [Continue], m, fuel); !run.Fell? && !run.Broke? && !run.Continued?
      {
        RunsOnto(o, body, [Continue], m, fuel);
        ListsMayEnd(o, body, m, fuel);
      }
    }
  }

  /** The scripted run may start, and nothing is lost in a deduplication. */
  lemma UsableStart(g: Ground, x: Object, clears: set<Leaf>, body: seq<Stmt>, t: nat)
    ensures var o, states := Scripted(x, clears), [MarkedState(g, x)];
            && Trusted(g, o) && SomeCovers(g, states, Tape(MarkedStore(x), t))
            && Usable(ExitBlock(o, body, states, true).Within(), ExitBlock(o, body, states, true).settled, 0)
            && AllIn(ExitBlock(o, body, states, true).states, OnTheWay(g, x))
  {
    hide Trusted, ExitBlock, Describes, Scripted, Tape, MarkedState;
    var states := [MarkedState(g, x)];
    assert MarkedState(g, x) in states;
    ScriptedIsTrusted(g, x, clears);
    MarkedIsDescribed(g, x, t);
    ScriptedKeeps(g, x, clears);
    ExitBlockKeeps(Scripted(x, clears), body, states, true, OnTheWay(g, x));
  }

  lemma ContinueExits(o: Oracle, body: seq<Stmt>, states: seq<State>)
    ensures ExitBlock(o, body + [Continue], states, true).states == []
  {
    var mid := ExitBlock(o, body, states, true).states;
    ExitsOnto(o, body, [Continue], states, true);
    NothingBehindJump(o, Continue, mid);
    assert [Continue][1..] == [];
  }

  /** A break in a loop body runs on: the states it leaves with meet the statements behind it. */
  lemma BreakRunsOn(o: Oracle, body: seq<Stmt>, rest: seq<Stmt>, states: seq<State>, m: Store, fuel: nat)
    requires RunBody(o, body, m, fuel).Broke?
    ensures RunBody(o, body + rest, m, fuel) == RunBody(o, body, m, fuel)
    ensures ExitBlock(o, body + rest, states, true).states ==
            ExitBlock(o, rest, ExitBlock(o, body, states, true).states, true).states
  {
    RunsOnto(o, body, rest, m, fuel);
    ExitsOnto(o, body, rest, states, true);
  }

  function Effects(ls: seq<Leaf>): seq<Stmt> {
    seq(|ls|, i requires 0 <= i < |ls| => Effect(ls[i]))
  }

  function After(o: Oracle, ls: seq<Leaf>, s: State): State {
    if ls == [] then s else After(o, ls[1..], o.apply(ls[0], s))
  }

  lemma {:induction false} EffectEach(o: Oracle, l: Leaf, states: seq<State>)
    ensures ExitEach(o, Effect(l), states, true).states ==
            seq(|states|, i requires 0 <= i < |states| => o.apply(l, states[i]))
    decreases |states|
  {
    if states != [] { EffectEach(o, l, states[1..]); }
  }

  /** Effects that clear x leave it marked nowhere. */
  lemma {:induction false} EffectsWipe(g: Ground, x: Object, clears: set<Leaf>, ls: seq<Leaf>, states: seq<State>)
    requires ls != [] && (forall l | l in ls :: l in clears) && AllIn(states, OnTheWay(g, x))
    ensures forall s | s in ExitBlock(Scripted(x, clears), Effects(ls), states, true).states ::
              s == Wiped(x, MarkedState(g, x))
    decreases |ls|
  {
    hide MarkedState;
    var o, body := Scripted(x, clears), Effects(ls);
    assert ls[0] in ls && body[0] == Effect(ls[0]) && body[1..] == Effects(ls[1..]);
    if states != [] {
      EffectEach(o, ls[0], states);
      var next := ExitEach(o, body[0], states, true).states;
      forall k | 0 <= k < |next| ensures next[k] == Wiped(x, MarkedState(g, x)) {
        assert states[k] in states && Wiped(x, Wiped(x, MarkedState(g, x))) == Wiped(x, MarkedState(g, x));
      }
      if |ls| > 1 {
        EffectsWipe(g, x, clears, ls[1..], next);
      } else {
        assert Effects(ls[1..]) == [];
      }
    }
  }

  /** A list that may end early, with effects behind it that the run skips and the states meet. */
  lemma EffectsAreSkipped(g: Ground, body: seq<Stmt>, end: End, ls: seq<Leaf>)
    returns (o: Oracle, states: seq<State>, m: Store)
    requires end != Falls && MayEndList(body, end) && ls != [] && forall l | l in ls :: l !in ListLeaves(body)
    ensures Trusted(g, o) && SomeCovers(g, states, m) && NeverRetargets(o)
    ensures var exits := ExitBlock(o, body + Effects(ls), states, true);
            && Usable(exits.Within(), exits.settled, 0)
            && (exists left :: RunBody(o, body, m, 0) == RunBody(o, body + Effects(ls), m, 0) == Ended(end, left)
                               && !SomeCovers(g, exits.states, left))
  {
    hide Trusted, ExitBlock, MayEndList, Scripted, Tape, Describes, MarkedState;
    var x := SomeMarkable(g);
    var clears := set l | l in ls;
    o, states := Scripted(x, clears), [MarkedState(g, x)];
    var t := RealizeList(Script(x, clears, MarkedStore(x)), body, end, 0, 0);
    m := Tape(MarkedStore(x), t);
    var left := Tape(MarkedStore(x), 0);
    RunsOnto(o, body, Effects(ls), m, 0);
    UsableStart(g, x, clears, body, t);
    UsableStart(g, x, clears, body + Effects(ls), t);
    ExitsOnto(o, body, Effects(ls), states, true);
    EffectsWipe(g, x, clears, ls, ExitBlock(o, body, states, true).states);
    WipedIsNot(g, x, 0);
    assert !SomeCovers(g, ExitBlock(o, body + Effects(ls), states, true).states, left);
    NothingRetargets(x, clears);
  }

  ghost predicate NeverRetargets(o: Oracle) {
    forall l: Leaf :: !o.assigns(l) && !o.retargets(l)
  }

  lemma NothingRetargets(x: Object, clears: set<Leaf>)
    ensures NeverRetargets(Scripted(x, clears))
  {
  }

  const TAIL := Allowed(TailBreak, true)

  /** Whatever the leaves do, a store with which the first part breaks is covered behind both. */
  ghost predicate BreakAlwaysCovered(g: Ground, body: seq<Stmt>, rest: seq<Stmt>) {
    forall o: Oracle, states: seq<State>, m: Store, fuel: nat
      | Trusted(g, o) && RegularAll(o, body, TAIL) && SomeCovers(g, states, m) && RunBody(o, body, m, fuel).Broke?
        && var r := ExitBlock(o, body + rest, states, true); Usable(r.Within(), r.settled, fuel) ::
      ExitsCover(g, ExitBlock(o, body + rest, states, true), TAIL, RunBody(o, body + rest, m, fuel))
  }

  /**
   Behind a list that may break, as in `if c { break }`, stand effects of leaves
   that do not occur in it. The break is covered for all leaves exactly when
   there are no such effects.
   */
  lemma BreakCoveredIff(g: Ground, body: seq<Stmt>, ls: seq<Leaf>)
    requires MayEndList(body, Breaks) && (forall l | l in ls :: l !in ListLeaves(body))
    requires forall o: Oracle | NeverRetargets(o) :: RegularAll(o, body, TAIL)
    ensures BreakAlwaysCovered(g, body, Effects(ls)) <==> ls == []
  {
    hide Trusted, ExitBlock, MayEndList, Describes, RegularAll, RunBody, ListLeaves;
    if ls == [] {
      assert body + Effects(ls) == body;
      forall o: Oracle, states: seq<State>, m: Store, fuel: nat
        | Trusted(g, o) && RegularAll(o, body, TAIL) && SomeCovers(g, states, m)
          && Usable(ExitBlock(o, body, states, true).Within(), ExitBlock(o, body, states, true).settled, fuel)
        ensures ExitsCover(g, ExitBlock(o, body, states, true), TAIL, RunBody(o, body, m, fuel))
      {
        ExitBlockCovers(g, o, body, states, TAIL, true, m, fuel);
      }
    } else {
      var o, states, m := EffectsAreSkipped(g, body, Breaks, ls);
      assert !ExitsCover(g, ExitBlock(o, body + Effects(ls), states, true), TAIL, RunBody(o, body + Effects(ls), m, 0));
    }
  }

  /** The same for continue: one that has effects behind it is not covered for all leaves. */
  lemma ContinueBeforeEffects(g: Ground, body: seq<Stmt>, ls: seq<Leaf>)
    requires MayEndList(body, Continues) && ls != [] && forall l | l in ls :: l !in ListLeaves(body)
    ensures !TripAlwaysCovered(g, body + Effects(ls))
  {
    hide Trusted, ExitBlock, MayEndList, Describes, RunBody, ListLeaves;
    var o, states, m := EffectsAreSkipped(g, body, Continues, ls);
    var left :| RunBody(o, body + Effects(ls), m, 0) == Continued(left)
                && !SomeCovers(g, ExitBlock(o, body + Effects(ls), states, true).states, left);
  }

  /** if c { break }; x = 0 */
  function BreakThenClear(): seq<Stmt> {
    [If(None, Test(0), [Break], NoElse), Effect(1)]
  }

  /** x holds loop data when the loop is left, and no state says so. */
  lemma ConditionalBreakIsMissed(g: Ground, x: Object)
    requires Markable(g, x)
    ensures var o, s, m := Scripted(x, {1}), MarkedState(g, x), Tape(MarkedStore(x), 1);
            var exits := ExitBlock(o, BreakThenClear(), [s], true);
            && Trusted(g, o) && Describes(g, s, m) && Usable(exits.Within(), exits.settled, 0)
            && RunBody(o, BreakThenClear(), m, 0) == Broke(Tape(MarkedStore(x), 0))
            && !SomeCovers(g, exits.states, Tape(MarkedStore(x), 0))
  {
    hide Trusted, Describes, Tape, Scripted, MarkedState, ExitBlock;
    var o, s, m := Scripted(x, {1}), MarkedState(g, x), Tape(MarkedStore(x), 1);
    var first := [If(None, Test(0), [Break], NoElse)];
    assert BreakThenClear() == first + Effects([1]);
    MarkedIsDescribed(g, x, 1);
    UsableStart(g, x, {1}, first, 1);
    UsableStart(g, x, {1}, BreakThenClear(), 1);
    var w := Script(x, {1}, MarkedStore(x));
    Answers(w, 0, 0, true);
    assert Decide(o, None, Test(0), m) == Some((Tape(MarkedStore(x), 0), true));
    assert RunBody(o, [Break], Tape(MarkedStore(x), 0), 0) == Broke(Tape(MarkedStore(x), 0));
    assert RunBody(o, first, m, 0) == Broke(Tape(MarkedStore(x), 0));
    BreakRunsOn(o, first, Effects([1]), [s], m, 0);
    EffectsWipe(g, x, {1}, [1], ExitBlock(o, first, [s], true).states);
    WipedIsNot(g, x, 0);
  }

  /** Every store some state describes is still described after the transfer of the list. */
  ghost predicate KeepsDescription(g: Ground, o: Oracle, rest: seq<Stmt>, states: seq<State>) {
    forall m: Store | SomeCovers(g, states, m) :: SomeCovers(g, ExitBlock(o, rest, states, true).states, m)
  }

  /** For given leaves, a break is covered when what follows keeps the description. */
  lemma InnerBreakCovered(
      g: Ground, o: Oracle, body: seq<Stmt>, rest: seq<Stmt>, states: seq<State>, a: Allowed, m: Store, fuel: nat)
    requires Trusted(g, o) && SomeCovers(g, states, m) && RegularAll(o, body, a) && Suits(a, true)
    requires var r := ExitBlock(o, body, states, true); Usable(r.Within(), r.settled, fuel)
    requires RunBody(o, body, m, fuel).Broke? && KeepsDescription(g, o, rest, ExitBlock(o, body, states, true).states)
    ensures ExitsCover(g, ExitBlock(o, body + rest, states, true), TAIL, RunBody(o, body + rest, m, fuel))
  {
    hide Trusted, Describes, ExitBlock, RunBody, RegularAll;
    ExitBlockCovers(g, o, body, states, a, true, m, fuel);
    BreakRunsOn(o, body, rest, states, m, fuel);
  }

  lemma {:induction false} EffectsExit(o: Oracle, ls: seq<Leaf>, s: State)
    ensures ExitBlock(o, Effects(ls), [s], true).states == [After(o, ls, s)]
  {
    var body := Effects(ls);
    if ls != [] {
      var next := o.apply(ls[0], s);
      assert [s][1..] == [] && body[0] == Effect(ls[0]) && body[1..] == Effects(ls[1..]);
      assert ExitEach(o, body[0], [s], true).states == [next];
      EffectsExit(o, ls[1..], next);
    }
  }

  predicate MayHold(g: Ground, s: State, o: Object, y: Object) {
    && g.p.depth(y) + 1 == g.p.depth(o) && !IsFormal(g.p, y)
    && (Described(g, s, o).known ==> y in Described(g, s, o).targets)
  }

  /** What a state must satisfy by itself to describe any store. */
  ghost predicate Possible(g: Ground, s: State) {
    Retargets(Tracked(g.start), Tracked(s), g.free) && StateInside(g.free, s)
  }

  /** State by state: flags, pointer targets of the right type, and what may have been retargeted. */
  ghost predicate StateBelow(g: Ground, s: State, t: State) {
    Possible(g, s) ==>
      && Possible(g, t)
      && forall o: Object | !IsFormal(g.p, o) ::
           && FlagsBelow(ObjectDependency(g.p, s, o), ObjectDependency(g.p, t, o))
           && forall y | MayHold(g, s, o, y) :: MayHold(g, t, o, y)
  }

  /** The order on states is exactly inclusion of the stores they describe. */
  lemma BelowIsInclusion(g: Ground, s: State, t: State)
    ensures StateBelow(g, s, t) <==> forall m: Store | Describes(g, s, m) :: Describes(g, t, m)
  {
    hide ObjectTargets, Retargets, StateInside;
    if StateBelow(g, s, t) {
      forall m: Store | Describes(g, s, m) ensures Describes(g, t, m) { BelowDescribes(g, s, t, m); }
    } else if Possible(g, s) {
      NotBelow(g, s, t);
    }
  }

  lemma BelowDescribes(g: Ground, s: State, t: State, m: Store)
    requires StateBelow(g, s, t) && Describes(g, s, m)
    ensures Describes(g, t, m)
  {
    hide ObjectTargets, Retargets, StateInside;
    forall o: Object | !IsFormal(g.p, o)
      ensures CellCovered(Load(m, o), ObjectDependency(g.p, t, o)) && PointerCovered(Load(m, o), Described(g, t, o))
    {
      if Load(m, o).value.Ref? {
        var y := Load(m, o).value.target;
        assert PointsWell(g.p, Load(m, o), g.p.depth(o));
        assert MayHold(g, s, o, y);
      }
    }
  }

  lemma OneObject(g: Ground, s: State, t: State, o: Object, c: Cell)
    requires Possible(g, s) && !IsFormal(g.p, o) && PointsWell(g.p, c, g.p.depth(o))
    requires CellCovered(c, ObjectDependency(g.p, s, o)) && PointerCovered(c, Described(g, s, o))
    requires !CellCovered(c, ObjectDependency(g.p, t, o)) || !PointerCovered(c, Described(g, t, o))
    ensures Describes(g, s, map[o := c]) && !Describes(g, t, map[o := c])
  {
    hide ObjectTargets, Retargets, StateInside;
    assert Load(map[o := c], o) == c;
  }

  /** One object of one store tells the states apart. */
  lemma NotBelow(g: Ground, s: State, t: State)
    requires Possible(g, s) && !StateBelow(g, s, t)
    ensures exists m: Store :: Describes(g, s, m) && !Describes(g, t, m)
  {
    hide ObjectTargets, Retargets, StateInside;
    if !Possible(g, t) {
      var m: Store := map[];
      assert Describes(g, s, m) && !Describes(g, t, m);
    } else {
      var o: Object :| !IsFormal(g.p, o) && (!FlagsBelow(ObjectDependency(g.p, s, o), ObjectDependency(g.p, t, o))
                                             || exists y :: MayHold(g, s, o, y) && !MayHold(g, t, o, y));
      var d := ObjectDependency(g.p, s, o);
      if !FlagsBelow(d, ObjectDependency(g.p, t, o)) {
        OneObject(g, s, t, o, Cell(Num(0), d.derived, d.stride));
      } else {
        var y :| MayHold(g, s, o, y) && !MayHold(g, t, o, y);
        OneObject(g, s, t, o, Cell(Ref(y), false, false));
      }
    }
  }

  /**
   `if c { break }` before effects, for given leaves: every store the test may
   leave is covered exactly when the state before the effects is below the one
   after them.
   */
  lemma BreakBeforeEffects(g: Ground, o: Oracle, l: Leaf, ls: seq<Leaf>, s: State)
    ensures var broken := o.apply(l, s);
            var exits := ExitBlock(o, [If(None, Test(l), [Break], NoElse)] + Effects(ls), [s], true);
            (forall m: Store | Describes(g, broken, m) :: SomeCovers(g, exits.states, m)) <==>
            StateBelow(g, broken, After(o, ls, broken))
  {
    hide StateBelow, Describes, ExitBlock;
    var broken := o.apply(l, s);
    var t := After(o, ls, broken);
    ConditionalExits(o, l, s);
    ExitsOnto(o, [If(None, Test(l), [Break], NoElse)], Effects(ls), [s], true);
    EffectsExit(o, ls, broken);
    BelowIsInclusion(g, broken, t);
    forall m: Store ensures SomeCovers(g, [t], m) == Describes(g, t, m) {
      assert t in [t];
    }
  }

  lemma ConditionalExits(o: Oracle, l: Leaf, s: State)
    ensures ExitBlock(o, [If(None, Test(l), [Break], NoElse)], [s], true).states == [o.apply(l, s)]
  {
    var stmt, next := If(None, Test(l), [Break], NoElse), o.apply(l, s);
    var split := CondStates(o, Test(l), s);
    assert [next][1..] == [] && [s][1..] == [] && [stmt][1..] == [] && [Break][1..] == [];
    assert ApplyInit(o, None, s) == s;
    assert ExitEach(o, Break, [next], true).states == [next];
    assert ExitBlock(o, [Break], [next], true).states == [next];
    assert ExitBlock(o, [Break], [], true).states == [];
    TwiceIsOnce(next);
    assert ExitStmt(o, stmt, s, true).states ==
      Dedupe(ExitBlock(o, [Break], split.whenTrue, true).states + split.whenFalse);
    assert ExitEach(o, stmt, [s], true).states == [next];
  }

  lemma TwiceIsOnce(s: State)
    ensures Dedupe([s] + [s]) == [s] && Dedupe([s] + []) == [s] && Dedupe([] + [s]) == [s]
  {
    assert ([s] + [s])[1..] == [s] && [s][1..] == [];
    assert s in [s] && Key(s) in KeySet([s]);
    assert DedupeFrom([s] + [s], []) == DedupeFrom([s], [] + [s]);
    assert [] + [s] == [s];
    assert DedupeFrom([s], [s]) == DedupeFrom([], [s]);
  }

  // ----- pointer assignments in a case body, and in the init of an if or switch -----

  /**
   There the code leaves the alias map as it was. For given leaves, every store
   the assignment may leave is covered exactly when the state with the old
   aliases is above the one with the new aliases.
   */
  lemma CaseAssignmentCoveredIff(g: Ground, o: Oracle, l: Leaf, s: State)
    requires o.assigns(l)
    ensures (forall m: Store | Describes(g, o.apply(l, s), m) ::
               FlowCovers(g, FlowStmt(o, Effect(l), s).flows, false, m)) <==>
            StateBelow(g, o.apply(l, s), Unaliased(o, l, s))
    ensures (forall m: Store | Describes(g, o.apply(l, s), m) :: Describes(g, ApplyInit(o, Some(l), s), m)) <==>
            StateBelow(g, o.apply(l, s), Unaliased(o, l, s))
  {
    hide Describes, StateBelow;
    var t := Unaliased(o, l, s);
    BelowIsInclusion(g, o.apply(l, s), t);
    var flow := Flow(t, false);
    assert FlowStmt(o, Effect(l), s).flows == [flow];
    forall m: Store ensures FlowCovers(g, [flow], false, m) == Describes(g, t, m) { assert flow in [flow]; }
  }

  /** q = &b */
  function Repoint(q: Object, b: Object): Oracle {
    Oracle((l: Leaf, s: State) =>
             if s.aliases.Some? then s.(aliases := Some(Tracked(s)[q := Alias({b}, true)])) else s,
           (l: Leaf) => None,
           (l: Leaf, m: Store) => Some((m[q := Cell(Ref(b), false, false)], false)),
           (l: Leaf) => true,
           (l: Leaf) => true)
  }

  /** Pointer q, tracked to a, may be set to b, which is also what was known before aliases are tracked. */
  predicate Repointable(g: Ground, q: Object, a: Object, b: Object) {
    && {q, a, b} <= g.free && a != b && !IsFormal(g.p, q) && !IsFormal(g.p, a) && !IsFormal(g.p, b)
    && g.p.depth(a) + 1 == g.p.depth(q) && g.p.depth(b) + 1 == g.p.depth(q)
    && (ObjectTargets(g.p, map[], g.start, q).known ==> b in ObjectTargets(g.p, map[], g.start, q).targets)
  }

  function PointingAt(g: Ground, q: Object, a: Object): State {
    State({}, map[], Some((map o | o in Tracked(g.start) :: UNKNOWN_ALIAS)[q := Alias({a}, true)]))
  }

  lemma RepointIsTrusted(g: Ground, q: Object, a: Object, b: Object)
    requires Repointable(g, q, a, b)
    ensures Trusted(g, Repoint(q, b))
  {
    hide Describes;
    var o := Repoint(q, b);
    forall l: Leaf, s: State, m: Store | Describes(g, s, m) && o.run(l, m).Some?
      ensures Describes(g, o.apply(l, s), o.run(l, m).value.0)
    {
      RepointDescribes(g, q, a, b, s, m);
    }
  }

  lemma RepointDescribes(g: Ground, q: Object, a: Object, b: Object, s: State, m: Store)
    requires Repointable(g, q, a, b) && Describes(g, s, m)
    ensures Describes(g, Repoint(q, b).apply(0, s), m[q := Cell(Ref(b), false, false)])
  {
    hide ObjectTargets;
    var m' := m[q := Cell(Ref(b), false, false)];
    forall o: Object ensures Load(m', o) == if o == q then m'[q] else Load(m, o) {}
    var t := Repoint(q, b).apply(0, s);
    forall o: Object | o != q ensures Described(g, t, o) == Described(g, s, o) {}
  }

  lemma OldAliases(g: Ground, q: Object, a: Object, b: Object)
    ensures Unaliased(Repoint(q, b), 0, PointingAt(g, q, a)) == PointingAt(g, q, a)
  {
  }

  lemma PointingIsDescribed(g: Ground, q: Object, a: Object, b: Object)
    requires Repointable(g, q, a, b)
    ensures var s, m := PointingAt(g, q, a), map[q := Cell(Ref(a), false, false)];
            Describes(g, s, m) && !Describes(g, s, m[q := Cell(Ref(b), false, false)])
  {
    hide ObjectTargets;
    var s := PointingAt(g, q, a);
    var m: Store := map[q := Cell(Ref(a), false, false)];
    forall x: Object ensures Load(m, x) == if x == q then m[q] else Cell(Num(0), false, false) {}
    assert Load(m[q := Cell(Ref(b), false, false)], q) == Cell(Ref(b), false, false);
    assert Described(g, s, q) == Alias({a}, true);
  }

  /** `default: q = &b` in a switch, or `if q = &b; c`: q points to b, and the state still says a. */
  lemma RetargetInCaseIsMissed(g: Ground, q: Object, a: Object, b: Object, fuel: nat)
    requires Repointable(g, q, a, b)
    ensures var o, s, m := Repoint(q, b), PointingAt(g, q, a), map[q := Cell(Ref(a), false, false)];
            var after := m[q := Cell(Ref(b), false, false)];
            && Trusted(g, o) && Describes(g, s, m) && RunOne(o, Effect(0), m, fuel) == Fell(after)
            && !FlowCovers(g, FlowStmt(o, Effect(0), s).flows, false, after)
            && !Describes(g, ApplyInit(o, Some(0), s), after)
            && SomeCovers(g, ExitStmt(o, Effect(0), s, false).states, after)
  {
    hide Trusted, Describes, PointingAt;
    var o, s := Repoint(q, b), PointingAt(g, q, a);
    var m: Store := map[q := Cell(Ref(a), false, false)];
    var after := m[q := Cell(Ref(b), false, false)];
    RepointIsTrusted(g, q, a, b);
    PointingIsDescribed(g, q, a, b);
    RepointDescribes(g, q, a, b, s, m);
    assert ExitStmt(o, Effect(0), s, false).states == [o.apply(0, s)];
    assert o.apply(0, s) in [o.apply(0, s)];
    OldAliases(g, q, a, b);
    assert FlowStmt(o, Effect(0), s).flows == [Flow(s, false)];
  }
}
