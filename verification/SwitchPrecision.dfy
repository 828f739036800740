/**
 The sets of states hold nothing superfluous: a list that cannot end gives no
 states, and without loops every state is what the leaves along one path through
 the statements make of the state before (checks/ps1006.go:2268-2609).
 */
module SwitchPrecision {
  import opened ConditionFlow
  import opened DependencyState
  import opened GoBodies
  import opened SwitchFlow
  import opened Wrappers

  type Stmt = SwitchFlow.Stmt

  // ----- no end, no states -----

  /** A state may leave the list: it falls through, or it breaks where breaks leave. */
  predicate MayExit(body: seq<Stmt>, breakExits: bool) {
    MayEndList(body, Falls) || (breakExits && MayEndList(body, Breaks))
  }

  predicate MayExitStmt(stmt: Stmt, breakExits: bool) {
    MayEnd(stmt, Falls) || (breakExits && MayEnd(stmt, Breaks))
  }

  lemma {:induction false} ExitBlockEmpty(o: Oracle, body: seq<Stmt>, states: seq<State>, breakExits: bool)
    requires !MayExit(body, breakExits) || states == []
    ensures ExitBlock(o, body, states, breakExits).states == []
    decreases body, 0, 0
  {
    hide ExitStmt, MayEnd;
    if body != [] && states != [] {
      if MayExitStmt(body[0], breakExits) {
        ExitBlockEmpty(o, body[1..], ExitEach(o, body[0], states, breakExits).states, breakExits);
      } else {
        ExitEachEmpty(o, body[0], states, breakExits);
      }
    }
  }

  lemma {:induction false} ExitEachEmpty(o: Oracle, stmt: Stmt, states: seq<State>, breakExits: bool)
    requires !MayExitStmt(stmt, breakExits) || states == []
    ensures ExitEach(o, stmt, states, breakExits).states == []
    decreases stmt, 2, |states|
  {
    hide ExitStmt, MayEnd;
    if states != [] {
      ExitStmtEmpty(o, stmt, states[0], breakExits);
      ExitEachEmpty(o, stmt, states[1..], breakExits);
    }
  }

  lemma {:induction false} ExitStmtEmpty(o: Oracle, stmt: Stmt, s: State, breakExits: bool)
    requires !MayExitStmt(stmt, breakExits)
    ensures ExitStmt(o, stmt, s, breakExits).states == []
    decreases stmt, 1, 0
  {
    hide ExitBlock, ExitEach, CondStates, SwitchExits, LoopExits, MayEndList, MayLeave;
    match stmt
    case If(init, cond, thn, els) =>
      var split := CondStates(o, cond, ApplyInit(o, init, s));
      ExitBlockEmpty(o, thn, split.whenTrue, breakExits);
      match els {
        case NoElse =>
        case ElseBlock(body) => ExitBlockEmpty(o, body, split.whenFalse, breakExits);
        case ElseIf(x) => ExitEachEmpty(o, x, split.whenFalse, breakExits);
      }
      var none: seq<State> := [];
      assert none + none == none && Dedupe(none) == none;
    case Block(body) => ExitBlockEmpty(o, body, [s], breakExits);
    case Switch(before, tagless, clauses) => SwitchEmpty(o, clauses, ApplyInit(o, before, s), tagless);
    case _ =>
  }

  predicate SomeFlow(flows: seq<Flow>, exited: bool) {
    exists f | f in flows :: f.exited == exited
  }

  /** Flows that fall out come from flows inside and need a list that may fall; exited ones were so
      before, or the list may break. */
  lemma {:induction false} FlowBodyEnds(o: Oracle, body: seq<Stmt>, flows: seq<Flow>)
    ensures var r := FlowBody(o, body, flows).flows;
            && (SomeFlow(r, false) ==> SomeFlow(flows, false) && MayEndList(body, Falls))
            && (SomeFlow(r, true) ==> SomeFlow(flows, true) || (SomeFlow(flows, false) && MayEndList(body, Breaks)))
    decreases body, 0, 0
  {
    hide FlowStmt, FlowEach, MayEnd;
    if body == [] {
    } else if body[0].Break? {
      assert MayEnd(body[0], Breaks) by { BreakEnds(); }
      var r := FlowBody(o, body, flows).flows;
      forall k | 0 <= k < |flows| ensures r[k].exited && flows[k] in flows {}
      if SomeFlow(r, true) { assert flows[0] in flows; }
    } else if !IsJump(body[0]) {
      FlowEachEnds(o, body[0], flows);
      FlowBodyEnds(o, body[1..], FlowEach(o, body[0], flows).flows);
    }
  }

  lemma BreakEnds()
    ensures MayEnd(Break, Breaks)
  {
  }

  lemma {:induction false} FlowEachEnds(o: Oracle, stmt: Stmt, flows: seq<Flow>)
    ensures var r := FlowEach(o, stmt, flows).flows;
            && (SomeFlow(r, false) ==> SomeFlow(flows, false) && MayEnd(stmt, Falls))
            && (SomeFlow(r, true) ==> SomeFlow(flows, true) || (SomeFlow(flows, false) && MayEnd(stmt, Breaks)))
    decreases stmt, 3, |flows|
  {
    hide FlowStmt, MayEnd;
    if flows != [] {
      assert flows[0] in flows && forall f | f in flows[1..] :: f in flows;
      if !flows[0].exited { FlowStmtEnds(o, stmt, flows[0].state); }
      FlowEachEnds(o, stmt, flows[1..]);
    }
  }

  lemma EnteringInside(states: seq<State>)
    ensures !SomeFlow(Entering(states), true) && (SomeFlow(Entering(states), false) <==> states != [])
  {
    if states != [] { assert Entering(states)[0] in Entering(states); }
  }

  lemma {:induction false} FlowStmtEnds(o: Oracle, stmt: Stmt, s: State)
    ensures var r := FlowStmt(o, stmt, s).flows;
            && (SomeFlow(r, false) ==> MayEnd(stmt, Falls))
            && (SomeFlow(r, true) ==> MayEnd(stmt, Breaks))
    decreases stmt, 2, 0
  {
    hide FlowBody, FlowEach, CondStates, ExitStmt, Entering, MayEndList, MayLeave;
    match stmt
    case If(init, cond, thn, els) =>
      var split := CondStates(o, cond, ApplyInit(o, init, s));
      EnteringInside(split.whenTrue);
      EnteringInside(split.whenFalse);
      FlowBodyEnds(o, thn, Entering(split.whenTrue));
      match els {
        case NoElse =>
        case ElseBlock(body) => FlowBodyEnds(o, body, Entering(split.whenFalse));
        case ElseIf(x) => FlowEachEnds(o, x, Entering(split.whenFalse));
      }
    case Block(body) => FlowBodyEnds(o, body, [Flow(s, false)]);
    case Loop(_, _, _, _) => EnteringInside(ExitStmt(o, stmt, s, false).states);
    case Switch(_, _, clauses) =>
      EnteringInside(ExitStmt(o, stmt, s, false).states);
      if !MayEnd(stmt, Falls) { ExitStmtEmpty(o, stmt, s, false); }
      assert Entering(ExitStmt(o, stmt, s, false).states) == FlowStmt(o, stmt, s).flows by { ViaEntering(o, stmt, s); }
    case _ =>
  }

  lemma ViaEntering(o: Oracle, stmt: Stmt, s: State)
    requires stmt.Switch? || stmt.Loop?
    ensures Entering(ExitStmt(o, stmt, s, false).states) == FlowStmt(o, stmt, s).flows
  {
    hide ExitStmt;
  }

  lemma {:induction false} StatesOfSome(flows: seq<Flow>, exited: bool)
    ensures StatesOf(flows, exited) != [] <==> SomeFlow(flows, exited)
  {
    if flows != [] {
      assert flows[0] in flows;
      StatesOfSome(flows[1..], exited);
    }
  }

  /** The selections of a walk are those of clauses with expressions. */
  lemma {:induction false} WalkSelects(o: Oracle, clauses: seq<Clause>, s: State, live: bool, tagless: bool, i: nat)
    requires i < |clauses|
    ensures WalkClauses(o, clauses, s, live, tagless).0[i] != [] ==>
              clauses[i].exprs.Some? && clauses[i].exprs.value != []
    decreases |clauses|
  {
    hide WalkExprs;
    var plain := clauses[0].exprs.None? || !live;
    var w := if plain then Walk([], s, live) else WalkExprs(o, clauses[0].exprs.value, s, tagless);
    if i > 0 {
      WalkSelects(o, clauses[1..], w.current, w.live, tagless, i - 1);
    } else if !plain && clauses[0].exprs.value == [] {
      assert w.selected == [] by { NoExprs(o, s, tagless); }
    }
  }

  lemma NoExprs(o: Oracle, s: State, tagless: bool)
    ensures WalkExprs(o, [], s, tagless) == Walk([], s, true)
  {
  }

  lemma SelectedChoosable(o: Oracle, clauses: seq<Clause>, s: State, tagless: bool)
    ensures var r := Selected(o, clauses, s, tagless);
            && (forall i | 0 <= i < |clauses| && r.0[i] != [] :: Choosable(clauses, i))
            && (r.1 != [] ==> DefaultIndex(clauses).None?)
  {
    hide WalkClauses;
    var r := Selected(o, clauses, s, tagless);
    forall i | 0 <= i < |clauses| && r.0[i] != [] ensures Choosable(clauses, i) {
      WalkSelects(o, clauses, s, true, tagless, i);
    }
  }

  lemma {:induction false} SwitchEmpty(o: Oracle, clauses: seq<Clause>, s: State, tagless: bool)
    requires !MayLeave(clauses, Falls)
    ensures SwitchExits(o, clauses, s, tagless).states == []
    decreases clauses, 1, 0
  {
    hide ClauseExits, Selected, MayLeaveFirst;
    var (selected, remaining) := Selected(o, clauses, s, tagless);
    SelectedChoosable(o, clauses, s, tagless);
    forall i | 0 <= i < |clauses| && selected[i] != [] ensures !MayLeaveFirst(clauses[i..], Falls) {
      assert Choosable(clauses, i);
    }
    ClausesEmpty(o, clauses, selected, [], remaining);
  }

  lemma {:induction false} ClausesEmpty(
      o: Oracle, clauses: seq<Clause>, selected: seq<seq<State>>, falling: seq<State>, remaining: seq<State>)
    requires |selected| == |clauses| && remaining == []
    requires forall i | 0 <= i < |clauses| && selected[i] != [] :: !MayLeaveFirst(clauses[i..], Falls)
    requires falling != [] ==> !MayLeaveFirst(clauses, Falls)
    ensures ClauseExits(o, clauses, selected, falling, remaining).states == []
    decreases clauses, 0, 0
  {
    hide FlowBody, Entering, StatesOf, AllStates, MayEndList;
    if clauses != [] {
      assert clauses[0..] == clauses;
      var c, inside := clauses[0], Entering(selected[0] + falling);
      EnteringInside(selected[0] + falling);
      FlowBodyEnds(o, c.body, inside);
      var flows := FlowBody(o, c.body, inside).flows;
      StatesOfSome(flows, true);
      StatesOfSome(flows, false);
      AllOfSome(flows);
      var next := if c.fallsThrough then StatesOf(flows, false) else [];
      forall i | 0 <= i < |clauses[1..]| && selected[1..][i] != [] ensures !MayLeaveFirst(clauses[1..][i..], Falls) {
        assert clauses[1..][i..] == clauses[i + 1..];
      }
      ClausesEmpty(o, clauses[1..], selected[1..], next, remaining);
    }
  }

  lemma AllOfSome(flows: seq<Flow>)
    ensures AllStates(flows) != [] <==> SomeFlow(flows, true) || SomeFlow(flows, false)
  {
    if flows != [] { assert flows[0] in flows; }
  }

  /** In one place: a list, a case body or a switch that cannot end in a way that leaves it gives nothing. */
  lemma NoEndNoStates(
      o: Oracle, body: seq<Stmt>, states: seq<State>, breakExits: bool, clauses: seq<Clause>, s: State, tagless: bool)
    ensures !MayEndList(body, Falls) && !(breakExits && MayEndList(body, Breaks)) ==>
              ExitBlock(o, body, states, breakExits).states == []
    ensures !MayEndList(body, Falls) && !MayEndList(body, Breaks) ==> FlowBody(o, body, Entering(states)).flows == []
    ensures !MayLeave(clauses, Falls) ==> SwitchExits(o, clauses, s, tagless).states == []
  {
    hide ExitBlock, FlowBody, SwitchExits, MayEndList, MayLeave;
    if !MayExit(body, breakExits) { ExitBlockEmpty(o, body, states, breakExits); }
    if !MayLeave(clauses, Falls) { SwitchEmpty(o, clauses, s, tagless); }
    EnteringInside(states);
    FlowBodyEnds(o, body, Entering(states));
    var flows := FlowBody(o, body, Entering(states)).flows;
    if flows != [] { assert flows[0] in flows; }
  }

  // ----- paths -----

  /** How a leaf on a path is applied: in full, as in a case body, or with the aliases left alone. */
  datatype Event = Fully(l: Leaf) | InCase(l: Leaf) | AsInit(l: Leaf)

  function Effected(o: Oracle, e: Event, s: State): State {
    match e
    case Fully(l) => o.apply(l, s)
    case InCase(l) => if o.assigns(l) then o.apply(l, s).(aliases := s.aliases) else o.apply(l, s)
    case AsInit(l) => o.apply(l, s).(aliases := s.aliases)
  }

  /** The leaves of a path, one after the other. */
  function Fold(o: Oracle, path: seq<Event>, s: State): State {
    if path == [] then s else Fold(o, path[1..], Effected(o, path[0], s))
  }

  lemma {:induction false} FoldAppend(o: Oracle, a: seq<Event>, b: seq<Event>, s: State)
    ensures Fold(o, a + b, s) == Fold(o, b, Fold(o, a, s))
  {
    if a == [] {
      assert a + b == b;
    } else {
      assert (a + b)[1..] == a[1..] + b;
      FoldAppend(o, a[1..], b, Effected(o, a[0], s));
    }
  }

  function InitPath(l: Option<Leaf>): seq<Event> {
    if l.Some? then [AsInit(l.value)] else []
  }

  lemma FoldOne(o: Oracle, e: Event, s: State)
    ensures Fold(o, [e], s) == Effected(o, e, s)
  {
    assert [e][1..] == [];
  }

  lemma InitFolds(o: Oracle, l: Option<Leaf>, s: State)
    ensures Fold(o, InitPath(l), s) == ApplyInit(o, l, s)
  {
    if l.Some? { FoldOne(o, AsInit(l.value), s); }
  }

  /** Evaluating the condition to the answer may take the path. */
  ghost predicate CondPath(o: Oracle, c: Cond, answer: bool, path: seq<Event>)
    decreases c
  {
    match c
    case Test(l) => path == [Fully(l)] && o.constant(l) != Some(!answer)
    case Not(x) => CondPath(o, x, !answer, path)
    case And(x, y) =>
      || (!answer && CondPath(o, x, false, path))
      || exists a, b :: path == a + b && CondPath(o, x, true, a) && CondPath(o, y, answer, b)
    case Or(x, y) =>
      || (answer && CondPath(o, x, true, path))
      || exists a, b :: path == a + b && CondPath(o, x, false, a) && CondPath(o, y, answer, b)
  }

  /** A path through the statement that leads behind it. Where breaks leave the list they run on. */
  ghost predicate ExitPath(o: Oracle, stmt: Stmt, breakExits: bool, path: seq<Event>)
    decreases stmt, 1
  {
    match stmt
    case Effect(l) => path == [Fully(l)]
    case If(init, cond, thn, els) =>
      exists answer: bool, a, b :: path == InitPath(init) + (a + b) && CondPath(o, cond, answer, a) &&
        if answer then ExitListPath(o, thn, breakExits, b) else ElsePath(o, els, breakExits, b)
    case Block(body) => ExitListPath(o, body, breakExits, path)
    case Switch(before, tagless, clauses) =>
      exists a :: path == InitPath(before) + a && SwitchPath(o, clauses, tagless, a)
    case Break => breakExits && path == []
    case _ => false
  }

  ghost predicate ElsePath(o: Oracle, els: Else, breakExits: bool, path: seq<Event>)
    decreases els, 2
  {
    match els
    case NoElse => path == []
    case ElseBlock(body) => ExitListPath(o, body, breakExits, path)
    case ElseIf(x) => ExitPath(o, x, breakExits, path)
  }

  ghost predicate ExitListPath(o: Oracle, body: seq<Stmt>, breakExits: bool, path: seq<Event>)
    decreases body, 0
  {
    if body == [] then path == []
    else exists a, b ::
      path == a + b && ExitPath(o, body[0], breakExits, a) && ExitListPath(o, body[1..], breakExits, b)
  }

  /** A path through a statement of a case body to the given end. */
  ghost predicate CasePath(o: Oracle, stmt: Stmt, end: End, path: seq<Event>)
    decreases stmt, 1
  {
    match stmt
    case Effect(l) => end == Falls && path == [InCase(l)]
    case If(init, cond, thn, els) =>
      exists answer: bool, a, b :: path == InitPath(init) + (a + b) && CondPath(o, cond, answer, a) &&
        if answer then CaseListPath(o, thn, end, b) else CaseElsePath(o, els, end, b)
    case Block(body) => CaseListPath(o, body, end, path)
    case Switch(before, tagless, clauses) =>
      end == Falls && exists a :: path == InitPath(before) + a && SwitchPath(o, clauses, tagless, a)
    case Break => end == Breaks && path == []
    case _ => false
  }

  ghost predicate CaseElsePath(o: Oracle, els: Else, end: End, path: seq<Event>)
    decreases els, 2
  {
    match els
    case NoElse => end == Falls && path == []
    case ElseBlock(body) => CaseListPath(o, body, end, path)
    case ElseIf(x) => CasePath(o, x, end, path)
  }

  ghost predicate CaseListPath(o: Oracle, body: seq<Stmt>, end: End, path: seq<Event>)
    decreases body, 0
  {
    if body == [] then end == Falls && path == []
    else
      || (end == Breaks && CasePath(o, body[0], Breaks, path))
      || exists a, b :: path == a + b && CasePath(o, body[0], Falls, a) && CaseListPath(o, body[1..], end, b)
  }

  function Evaluated(exprs: seq<Leaf>): seq<Event> {
    if exprs == [] then [] else [Fully(exprs[0])] + Evaluated(exprs[1..])
  }

  /** The expressions of clauses that all miss. */
  function Missed(clauses: seq<Clause>): seq<Event> {
    if clauses == [] then []
    else (if clauses[0].exprs.Some? then Evaluated(clauses[0].exprs.value) else []) + Missed(clauses[1..])
  }

  /** None of the expressions is the constant true of a switch without a tag. */
  predicate MayMiss(o: Oracle, exprs: seq<Leaf>, tagless: bool) {
    tagless ==> forall l | l in exprs :: o.constant(l) != Some(true)
  }

  predicate AllMayMiss(o: Oracle, clauses: seq<Clause>, tagless: bool) {
    forall c | c in clauses && c.exprs.Some? :: MayMiss(o, c.exprs.value, tagless)
  }

  /** The expressions up to number k, which matches. */
  ghost predicate HitPath(o: Oracle, exprs: seq<Leaf>, tagless: bool, path: seq<Event>) {
    exists k :: 0 <= k < |exprs| && path == Evaluated(exprs[..k + 1]) && MayMiss(o, exprs[..k], tagless) &&
                (tagless ==> o.constant(exprs[k]) != Some(false))
  }

  /** The path up to the body of clause i where one of its expressions matches. */
  ghost predicate MatchPath(o: Oracle, clauses: seq<Clause>, tagless: bool, i: nat, path: seq<Event>)
    requires i < |clauses|
  {
    && clauses[i].exprs.Some? && AllMayMiss(o, clauses[..i], tagless)
    && exists a :: path == Missed(clauses[..i]) + a && HitPath(o, clauses[i].exprs.value, tagless, a)
  }

  /** One of its expressions matches, or all expressions miss and it is the default. */
  ghost predicate ChoicePath(o: Oracle, clauses: seq<Clause>, tagless: bool, i: nat, path: seq<Event>)
    requires i < |clauses|
  {
    || (DefaultIndex(clauses) == Option.Some(i) && path == Missed(clauses) && AllMayMiss(o, clauses, tagless))
    || MatchPath(o, clauses, tagless, i, path)
  }

  ghost predicate SwitchPath(o: Oracle, clauses: seq<Clause>, tagless: bool, path: seq<Event>)
    decreases clauses, 1
  {
    || (DefaultIndex(clauses).None? && path == Missed(clauses) && AllMayMiss(o, clauses, tagless))
    || exists i: nat, a, b ::
         i < |clauses| && path == a + b && ChoicePath(o, clauses, tagless, i, a) && BodiesPath(o, clauses[i..], b)
  }

  /** From the first body on, to the end of the switch. */
  ghost predicate BodiesPath(o: Oracle, clauses: seq<Clause>, path: seq<Event>)
    decreases clauses, 0
  {
    if clauses == [] then path == []
    else
      || CaseListPath(o, clauses[0].body, Breaks, path)
      || (!clauses[0].fallsThrough && CaseListPath(o, clauses[0].body, Falls, path))
      || (clauses[0].fallsThrough && exists a, b ::
            path == a + b && CaseListPath(o, clauses[0].body, Falls, a) && BodiesPath(o, clauses[1..], b))
  }

  // ----- every state is the fold of a path -----

  ghost predicate CondReaches(o: Oracle, c: Cond, answer: bool, s: State, t: State) {
    exists path :: CondPath(o, c, answer, path) && t == Fold(o, path, s)
  }

  ghost predicate ExitReaches(o: Oracle, stmt: Stmt, breakExits: bool, s: State, t: State) {
    exists path :: ExitPath(o, stmt, breakExits, path) && t == Fold(o, path, s)
  }

  ghost predicate ListReaches(o: Oracle, body: seq<Stmt>, breakExits: bool, s: State, t: State) {
    exists path :: ExitListPath(o, body, breakExits, path) && t == Fold(o, path, s)
  }

  ghost predicate CaseReaches(o: Oracle, stmt: Stmt, end: End, s: State, t: State) {
    exists path :: CasePath(o, stmt, end, path) && t == Fold(o, path, s)
  }

  ghost predicate CaseListReaches(o: Oracle, body: seq<Stmt>, end: End, s: State, t: State) {
    exists path :: CaseListPath(o, body, end, path) && t == Fold(o, path, s)
  }

  ghost predicate SwitchReaches(o: Oracle, clauses: seq<Clause>, tagless: bool, s: State, t: State) {
    exists path :: SwitchPath(o, clauses, tagless, path) && t == Fold(o, path, s)
  }

  ghost predicate BodiesReach(o: Oracle, clauses: seq<Clause>, s: State, t: State) {
    exists path :: BodiesPath(o, clauses, path) && t == Fold(o, path, s)
  }

  /** The right operand runs when the left one does not decide. */
  lemma CondChain(o: Oracle, c: Cond, answer: bool, s: State, u: State, t: State)
    requires c.And? || c.Or?
    requires CondReaches(o, c.left, c.And?, s, u) && CondReaches(o, c.right, answer, u, t)
    ensures CondReaches(o, c, answer, s, t)
  {
    var a :| CondPath(o, c.left, c.And?, a) && u == Fold(o, a, s);
    var b :| CondPath(o, c.right, answer, b) && t == Fold(o, b, u);
    FoldAppend(o, a, b, s);
    assert CondPath(o, c, answer, a + b);
  }

  /** The left operand decides. */
  lemma CondDecided(o: Oracle, c: Cond, s: State, t: State)
    requires c.And? || c.Or?
    requires CondReaches(o, c.left, c.Or?, s, t)
    ensures CondReaches(o, c, c.Or?, s, t)
  {
    var a :| CondPath(o, c.left, c.Or?, a) && t == Fold(o, a, s);
    assert CondPath(o, c, c.Or?, a);
  }

  lemma {:induction false} CondFolds(o: Oracle, c: Cond, s: State)
    requires CondStates(o, c, s).most <= 256
    ensures forall answer, t | t in Side(CondStates(o, c, s), answer) :: CondReaches(o, c, answer, s, t)
    decreases c, 0, 0
  {
    hide Dedupe, Union, CondReaches;
    match c
    case Test(l) =>
      FoldOne(o, Fully(l), s);
      forall answer, t | t in Side(CondStates(o, c, s), answer) ensures CondReaches(o, c, answer, s, t) {
        TestReaches(o, l, answer, s);
      }
    case Not(x) =>
      CondFolds(o, x, s);
      forall answer, t | t in Side(CondStates(o, c, s), answer) ensures CondReaches(o, c, answer, s, t) {
        assert t in Side(CondStates(o, x, s), !answer);
        NotReaches(o, x, answer, s, t);
      }
    case And(x, y) =>
      CondFolds(o, x, s);
      var a := CondStates(o, x, s);
      RightFolds(o, y, a.whenTrue);
      var b := RightStates(o, y, a.whenTrue);
      DedupeSelects(b.whenTrue);
      DedupeSelects(a.whenFalse + b.whenFalse);
      forall answer, t | t in Side(CondStates(o, c, s), answer) ensures CondReaches(o, c, answer, s, t) {
        if !answer && t in a.whenFalse {
          assert t in Side(a, false);
          CondDecided(o, c, s, t);
        } else {
          assert t in Side(b, answer);
          var u :| u in a.whenTrue && CondReaches(o, y, answer, u, t);
          assert u in Side(a, true);
          CondChain(o, c, answer, s, u, t);
        }
      }
    case Or(x, y) =>
      CondFolds(o, x, s);
      var a := CondStates(o, x, s);
      RightFolds(o, y, a.whenFalse);
      var b := RightStates(o, y, a.whenFalse);
      DedupeSelects(a.whenTrue + b.whenTrue);
      DedupeSelects(b.whenFalse);
      forall answer, t | t in Side(CondStates(o, c, s), answer) ensures CondReaches(o, c, answer, s, t) {
        if answer && t in a.whenTrue {
          assert t in Side(a, true);
          CondDecided(o, c, s, t);
        } else {
          assert t in Side(b, answer);
          var u :| u in a.whenFalse && CondReaches(o, y, answer, u, t);
          assert u in Side(a, false);
          CondChain(o, c, answer, s, u, t);
        }
      }
  }

  lemma TestReaches(o: Oracle, l: Leaf, answer: bool, s: State)
    requires o.constant(l) != Some(!answer)
    ensures CondReaches(o, Test(l), answer, s, o.apply(l, s))
  {
    FoldOne(o, Fully(l), s);
    assert CondPath(o, Test(l), answer, [Fully(l)]);
  }

  lemma NotReaches(o: Oracle, x: Cond, answer: bool, s: State, t: State)
    requires CondReaches(o, x, !answer, s, t)
    ensures CondReaches(o, Not(x), answer, s, t)
  {
    var path :| CondPath(o, x, !answer, path) && t == Fold(o, path, s);
    assert CondPath(o, Not(x), answer, path);
  }

  lemma {:induction false} RightFolds(o: Oracle, c: Cond, lefts: seq<State>)
    requires RightStates(o, c, lefts).most <= 256
    ensures forall answer, t | t in Side(RightStates(o, c, lefts), answer) ::
              exists u :: u in lefts && CondReaches(o, c, answer, u, t)
    decreases c, 1, |lefts|
  {
    hide CondStates, CondReaches;
    if lefts != [] {
      CondFolds(o, c, lefts[0]);
      RightFolds(o, c, lefts[1..]);
      forall answer, t | t in Side(RightStates(o, c, lefts), answer)
        ensures exists u :: u in lefts && CondReaches(o, c, answer, u, t)
      {
        if t in Side(CondStates(o, c, lefts[0]), answer) {
          assert lefts[0] in lefts;
        } else {
          assert t in Side(RightStates(o, c, lefts[1..]), answer);
          var u :| u in lefts[1..] && CondReaches(o, c, answer, u, t);
          assert u in lefts;
        }
      }
    }
  }

  // ----- statements -----

  predicate LoopFree(stmt: Stmt)
    decreases stmt, 1
  {
    match stmt
    case If(_, _, thn, els) =>
      LoopFreeList(thn) && (match els
        case NoElse => true
        case ElseBlock(body) => LoopFreeList(body)
        case ElseIf(x) => LoopFree(x))
    case Block(body) => LoopFreeList(body)
    case Switch(_, _, clauses) => LoopFreeClauses(clauses)
    case _ => !stmt.Loop?
  }

  predicate LoopFreeList(body: seq<Stmt>)
    decreases body, 0
  {
    body == [] || (LoopFree(body[0]) && LoopFreeList(body[1..]))
  }

  predicate LoopFreeClauses(clauses: seq<Clause>)
    decreases clauses, 0
  {
    clauses == [] || (LoopFreeList(clauses[0].body) && LoopFreeClauses(clauses[1..]))
  }

  ghost predicate FromSome(o: Oracle, body: seq<Stmt>, breakExits: bool, states: seq<State>, t: State) {
    exists u :: u in states && ListReaches(o, body, breakExits, u, t)
  }

  lemma ListStep(o: Oracle, body: seq<Stmt>, breakExits: bool, s: State, u: State, t: State)
    requires body != [] && ExitReaches(o, body[0], breakExits, s, u) && ListReaches(o, body[1..], breakExits, u, t)
    ensures ListReaches(o, body, breakExits, s, t)
  {
    hide ExitPath;
    var a :| ExitPath(o, body[0], breakExits, a) && u == Fold(o, a, s);
    var b :| ExitListPath(o, body[1..], breakExits, b) && t == Fold(o, b, u);
    FoldAppend(o, a, b, s);
    assert ExitListPath(o, body, breakExits, a + b);
  }

  lemma ListEnds(o: Oracle, breakExits: bool, s: State)
    ensures ListReaches(o, [], breakExits, s, s)
  {
    assert ExitListPath(o, [], breakExits, []) && Fold(o, [], s) == s;
  }

  lemma {:induction false} ExitBlockFolds(o: Oracle, body: seq<Stmt>, states: seq<State>, breakExits: bool)
    requires LoopFreeList(body) && ExitBlock(o, body, states, breakExits).most <= 256
    ensures forall t | t in ExitBlock(o, body, states, breakExits).states :: FromSome(o, body, breakExits, states, t)
    decreases body, 0, 0
  {
    hide ExitStmt, LoopFree, ListReaches, ExitReaches;
    if body == [] {
      forall t | t in states ensures FromSome(o, body, breakExits, states, t) { ListEnds(o, breakExits, t); }
    } else if states != [] {
      var next := ExitEach(o, body[0], states, breakExits);
      ExitEachFolds(o, body[0], states, breakExits);
      ExitBlockFolds(o, body[1..], next.states, breakExits);
      forall t | t in ExitBlock(o, body, states, breakExits).states ensures FromSome(o, body, breakExits, states, t) {
        assert FromSome(o, body[1..], breakExits, next.states, t);
        var u :| u in next.states && ListReaches(o, body[1..], breakExits, u, t);
        var s :| s in states && ExitReaches(o, body[0], breakExits, s, u);
        ListStep(o, body, breakExits, s, u, t);
      }
    }
  }

  lemma {:induction false} ExitEachFolds(o: Oracle, stmt: Stmt, states: seq<State>, breakExits: bool)
    requires LoopFree(stmt) && ExitEach(o, stmt, states, breakExits).most <= 256
    ensures forall t | t in ExitEach(o, stmt, states, breakExits).states ::
              exists u :: u in states && ExitReaches(o, stmt, breakExits, u, t)
    decreases stmt, 2, |states|
  {
    hide ExitStmt, LoopFree, ExitReaches;
    if states != [] {
      ExitStmtFolds(o, stmt, states[0], breakExits);
      ExitEachFolds(o, stmt, states[1..], breakExits);
      forall t | t in ExitEach(o, stmt, states, breakExits).states
        ensures exists u :: u in states && ExitReaches(o, stmt, breakExits, u, t)
      {
        if t in ExitStmt(o, stmt, states[0], breakExits).states {
          assert states[0] in states;
        } else {
          var u :| u in states[1..] && ExitReaches(o, stmt, breakExits, u, t);
          assert u in states;
        }
      }
    }
  }

  /** The branch that the answer selects. */
  ghost predicate BranchReaches(o: Oracle, stmt: Stmt, breakExits: bool, answer: bool, s: State, t: State)
    requires stmt.If?
  {
    if answer then ListReaches(o, stmt.thn, breakExits, s, t)
    else match stmt.els
      case NoElse => s == t
      case ElseBlock(body) => ListReaches(o, body, breakExits, s, t)
      case ElseIf(x) => ExitReaches(o, x, breakExits, s, t)
  }

  lemma IfReaches(o: Oracle, stmt: Stmt, breakExits: bool, answer: bool, s: State, u: State, t: State)
    requires stmt.If? && CondReaches(o, stmt.cond, answer, ApplyInit(o, stmt.init, s), u)
    requires BranchReaches(o, stmt, breakExits, answer, u, t)
    ensures ExitReaches(o, stmt, breakExits, s, t)
  {
    hide CondPath, ExitListPath;
    var init := InitPath(stmt.init);
    var a :| CondPath(o, stmt.cond, answer, a) && u == Fold(o, a, ApplyInit(o, stmt.init, s));
    var b :| t == Fold(o, b, u) &&
      if answer then ExitListPath(o, stmt.thn, breakExits, b) else ElsePath(o, stmt.els, breakExits, b);
    InitFolds(o, stmt.init, s);
    FoldAppend(o, init, a + b, s);
    FoldAppend(o, a, b, ApplyInit(o, stmt.init, s));
    assert ExitPath(o, stmt, breakExits, init + (a + b));
  }

  lemma {:induction false} ExitStmtFolds(o: Oracle, stmt: Stmt, s: State, breakExits: bool)
    requires LoopFree(stmt) && ExitStmt(o, stmt, s, breakExits).most <= 256
    ensures forall t | t in ExitStmt(o, stmt, s, breakExits).states :: ExitReaches(o, stmt, breakExits, s, t)
    decreases stmt, 1, 0
  {
    hide ExitBlock, ExitEach, CondStates, SwitchExits, LoopExits, Dedupe, ApplyInit, LoopFreeList, LoopFreeClauses;
    hide ExitReaches, ListReaches, CondReaches, SwitchReaches, ExitListPath, SwitchPath;
    match stmt
    case Effect(l) =>
      EffectReaches(o, l, breakExits, s);
    case If(init, cond, thn, els) =>
      var split := CondStates(o, cond, ApplyInit(o, init, s));
      CondFolds(o, cond, ApplyInit(o, init, s));
      ExitBlockFolds(o, thn, split.whenTrue, breakExits);
      var elseExits := match els
        case NoElse => Exits(split.whenFalse, 0, true)
        case ElseBlock(body) => ExitBlock(o, body, split.whenFalse, breakExits)
        case ElseIf(x) => ExitEach(o, x, split.whenFalse, breakExits);
      match els {
        case NoElse =>
        case ElseBlock(body) => ExitBlockFolds(o, body, split.whenFalse, breakExits);
        case ElseIf(x) => ExitEachFolds(o, x, split.whenFalse, breakExits);
      }
      var thenExits := ExitBlock(o, thn, split.whenTrue, breakExits);
      DedupeSelects(thenExits.states + elseExits.states);
      forall t | t in ExitStmt(o, stmt, s, breakExits).states ensures ExitReaches(o, stmt, breakExits, s, t) {
        assert t in thenExits.states + elseExits.states;
        if t in thenExits.states {
          assert FromSome(o, thn, breakExits, split.whenTrue, t);
          var u :| u in split.whenTrue && ListReaches(o, thn, breakExits, u, t);
          assert u in Side(split, true) && BranchReaches(o, stmt, breakExits, true, u, t);
          IfReaches(o, stmt, breakExits, true, s, u, t);
        } else {
          assert t in elseExits.states;
          var u := ElseSource(o, stmt, breakExits, split.whenFalse, elseExits.states, t);
          assert u in Side(split, false);
          IfReaches(o, stmt, breakExits, false, s, u, t);
        }
      }
    case Block(body) =>
      ExitBlockFolds(o, body, [s], breakExits);
      forall t | t in ExitStmt(o, stmt, s, breakExits).states ensures ExitReaches(o, stmt, breakExits, s, t) {
        assert FromSome(o, body, breakExits, [s], t);
        BlockReaches(o, body, breakExits, s, t);
      }
    case Switch(before, tagless, clauses) =>
      SwitchFolds(o, clauses, ApplyInit(o, before, s), tagless);
      forall t | t in ExitStmt(o, stmt, s, breakExits).states ensures ExitReaches(o, stmt, breakExits, s, t) {
        AfterInit(o, stmt, breakExits, s, t);
      }
    case Break =>
      if breakExits { BreakReaches(o, s); }
    case _ =>
  }

  lemma EffectReaches(o: Oracle, l: Leaf, breakExits: bool, s: State)
    ensures ExitReaches(o, Effect(l), breakExits, s, o.apply(l, s))
  {
    FoldOne(o, Fully(l), s);
    assert ExitPath(o, Effect(l), breakExits, [Fully(l)]);
  }

  lemma BreakReaches(o: Oracle, s: State)
    ensures ExitReaches(o, Break, true, s, s)
  {
    assert ExitPath(o, Break, true, []) && Fold(o, [], s) == s;
  }

  lemma BlockReaches(o: Oracle, body: seq<Stmt>, breakExits: bool, s: State, t: State)
    requires ListReaches(o, body, breakExits, s, t)
    ensures ExitReaches(o, Stmt.Block(body), breakExits, s, t)
  {
    var path :| ExitListPath(o, body, breakExits, path) && t == Fold(o, path, s);
    assert ExitPath(o, Stmt.Block(body), breakExits, path);
  }

  lemma AfterInit(o: Oracle, stmt: Stmt, breakExits: bool, s: State, t: State)
    requires stmt.Switch? && SwitchReaches(o, stmt.clauses, stmt.tagless, ApplyInit(o, stmt.before, s), t)
    ensures ExitReaches(o, stmt, breakExits, s, t) && CaseReaches(o, stmt, Falls, s, t)
  {
    var path :| SwitchPath(o, stmt.clauses, stmt.tagless, path) && t == Fold(o, path, ApplyInit(o, stmt.before, s));
    InitFolds(o, stmt.before, s);
    FoldAppend(o, InitPath(stmt.before), path, s);
    assert ExitPath(o, stmt, breakExits, InitPath(stmt.before) + path);
    assert CasePath(o, stmt, Falls, InitPath(stmt.before) + path);
  }

  lemma ElseSource(
      o: Oracle, stmt: Stmt, breakExits: bool, states: seq<State>, out: seq<State>, t: State) returns (u: State)
    requires stmt.If? && t in out
    requires match stmt.els
      case NoElse => out == states
      case ElseBlock(body) => FromSome(o, body, breakExits, states, t)
      case ElseIf(x) => exists v :: v in states && ExitReaches(o, x, breakExits, v, t)
    ensures u in states && BranchReaches(o, stmt, breakExits, false, u, t)
  {
    match stmt.els
    case NoElse => u := t;
    case ElseBlock(body) => u :| u in states && ListReaches(o, body, breakExits, u, t);
    case ElseIf(x) => u :| u in states && ExitReaches(o, x, breakExits, u, t);
  }

  // ----- case bodies -----

  function EndOf(f: Flow): End {
    if f.exited then Breaks else Falls
  }

  /** The flow had exited before, or comes from one that had not. */
  ghost predicate FlowFrom(o: Oracle, body: seq<Stmt>, flows: seq<Flow>, f: Flow) {
    || (f.exited && f in flows)
    || exists g :: g in flows && !g.exited && CaseListReaches(o, body, EndOf(f), g.state, f.state)
  }

  ghost predicate FlowFromOne(o: Oracle, stmt: Stmt, flows: seq<Flow>, f: Flow) {
    || (f.exited && f in flows)
    || exists g :: g in flows && !g.exited && CaseReaches(o, stmt, EndOf(f), g.state, f.state)
  }

  lemma CaseStep(o: Oracle, body: seq<Stmt>, end: End, s: State, u: State, t: State)
    requires body != [] && CaseReaches(o, body[0], Falls, s, u) && CaseListReaches(o, body[1..], end, u, t)
    ensures CaseListReaches(o, body, end, s, t)
  {
    hide CasePath;
    var a :| CasePath(o, body[0], Falls, a) && u == Fold(o, a, s);
    var b :| CaseListPath(o, body[1..], end, b) && t == Fold(o, b, u);
    FoldAppend(o, a, b, s);
    assert CaseListPath(o, body, end, a + b);
  }

  lemma CaseBreaks(o: Oracle, body: seq<Stmt>, s: State, t: State)
    requires body != [] && CaseReaches(o, body[0], Breaks, s, t)
    ensures CaseListReaches(o, body, Breaks, s, t)
  {
    hide CasePath;
    var a :| CasePath(o, body[0], Breaks, a) && t == Fold(o, a, s);
    assert CaseListPath(o, body, Breaks, a);
  }

  lemma CaseEnds(o: Oracle, s: State)
    ensures CaseListReaches(o, [], Falls, s, s)
    ensures CaseReaches(o, Break, Breaks, s, s)
  {
    assert CaseListPath(o, [], Falls, []) && Fold(o, [], s) == s;
    assert CasePath(o, Break, Breaks, []);
  }

  lemma {:induction false} FlowBodyFolds(o: Oracle, body: seq<Stmt>, flows: seq<Flow>)
    requires LoopFreeList(body) && FlowBody(o, body, flows).most <= 256
    ensures forall f | f in FlowBody(o, body, flows).flows :: FlowFrom(o, body, flows, f)
    decreases body, 0, 0
  {
    hide FlowStmt, LoopFree, CaseListReaches, CaseReaches;
    if body == [] {
      forall f | f in flows ensures FlowFrom(o, body, flows, f) { CaseEnds(o, f.state); }
    } else if body[0].Break? {
      forall f | f in FlowBody(o, body, flows).flows ensures FlowFrom(o, body, flows, f) {
        var k :| 0 <= k < |flows| && f == flows[k].(exited := true);
        assert flows[k] in flows;
        CaseEnds(o, f.state);
        if !flows[k].exited { CaseBreaks(o, body, f.state, f.state); }
      }
    } else if !IsJump(body[0]) {
      var next := FlowEach(o, body[0], flows);
      FlowEachFolds(o, body[0], flows);
      FlowBodyFolds(o, body[1..], next.flows);
      forall f | f in FlowBody(o, body, flows).flows ensures FlowFrom(o, body, flows, f) {
        assert FlowFrom(o, body[1..], next.flows, f);
        FlowStep(o, body, flows, next.flows, f);
      }
    }
  }

  lemma FlowStep(o: Oracle, body: seq<Stmt>, flows: seq<Flow>, next: seq<Flow>, f: Flow)
    requires body != [] && FlowFrom(o, body[1..], next, f)
    requires forall g | g in next :: FlowFromOne(o, body[0], flows, g)
    ensures FlowFrom(o, body, flows, f)
  {
    hide CaseReaches, CaseListReaches;
    if f.exited && f in next {
      assert FlowFromOne(o, body[0], flows, f);
      if f !in flows {
        var g :| g in flows && !g.exited && CaseReaches(o, body[0], Breaks, g.state, f.state);
        CaseBreaks(o, body, g.state, f.state);
      }
    } else {
      var g :| g in next && !g.exited && CaseListReaches(o, body[1..], EndOf(f), g.state, f.state);
      assert FlowFromOne(o, body[0], flows, g);
      var h :| h in flows && !h.exited && CaseReaches(o, body[0], Falls, h.state, g.state);
      CaseStep(o, body, EndOf(f), h.state, g.state, f.state);
    }
  }

  lemma {:induction false} FlowEachFolds(o: Oracle, stmt: Stmt, flows: seq<Flow>)
    requires LoopFree(stmt) && FlowEach(o, stmt, flows).most <= 256
    ensures forall f | f in FlowEach(o, stmt, flows).flows :: FlowFromOne(o, stmt, flows, f)
    decreases stmt, 3, |flows|
  {
    hide FlowStmt, LoopFree, CaseReaches;
    if flows != [] {
      var first := flows[0];
      assert first in flows && forall g | g in flows[1..] :: g in flows;
      if !first.exited { FlowStmtFolds(o, stmt, first.state); }
      FlowEachFolds(o, stmt, flows[1..]);
      forall f | f in FlowEach(o, stmt, flows).flows ensures FlowFromOne(o, stmt, flows, f) {
        if f in FlowEach(o, stmt, flows[1..]).flows {
          assert FlowFromOne(o, stmt, flows[1..], f);
        } else if first.exited {
          assert f == first;
        } else {
          assert CaseReaches(o, stmt, EndOf(f), first.state, f.state);
        }
      }
    }
  }

  lemma EnteringFrom(o: Oracle, body: seq<Stmt>, states: seq<State>, f: Flow) returns (u: State)
    requires FlowFrom(o, body, Entering(states), f)
    ensures u in states && CaseListReaches(o, body, EndOf(f), u, f.state)
  {
    hide CaseListReaches;
    var g :| g in Entering(states) && !g.exited && CaseListReaches(o, body, EndOf(f), g.state, f.state);
    u := g.state;
  }

  lemma EnteringFromOne(o: Oracle, stmt: Stmt, states: seq<State>, f: Flow) returns (u: State)
    requires FlowFromOne(o, stmt, Entering(states), f)
    ensures u in states && CaseReaches(o, stmt, EndOf(f), u, f.state)
  {
    hide CaseReaches;
    var g :| g in Entering(states) && !g.exited && CaseReaches(o, stmt, EndOf(f), g.state, f.state);
    u := g.state;
  }

  ghost predicate CaseBranchReaches(o: Oracle, stmt: Stmt, end: End, answer: bool, s: State, t: State)
    requires stmt.If?
  {
    if answer then CaseListReaches(o, stmt.thn, end, s, t)
    else match stmt.els
      case NoElse => end == Falls && s == t
      case ElseBlock(body) => CaseListReaches(o, body, end, s, t)
      case ElseIf(x) => CaseReaches(o, x, end, s, t)
  }

  lemma CaseIfReaches(o: Oracle, stmt: Stmt, end: End, answer: bool, s: State, u: State, t: State)
    requires stmt.If? && CondReaches(o, stmt.cond, answer, ApplyInit(o, stmt.init, s), u)
    requires CaseBranchReaches(o, stmt, end, answer, u, t)
    ensures CaseReaches(o, stmt, end, s, t)
  {
    hide CondPath, CaseListPath;
    var init := InitPath(stmt.init);
    var a :| CondPath(o, stmt.cond, answer, a) && u == Fold(o, a, ApplyInit(o, stmt.init, s));
    var b :| t == Fold(o, b, u) &&
      if answer then CaseListPath(o, stmt.thn, end, b) else CaseElsePath(o, stmt.els, end, b);
    InitFolds(o, stmt.init, s);
    FoldAppend(o, init, a + b, s);
    FoldAppend(o, a, b, ApplyInit(o, stmt.init, s));
    assert CasePath(o, stmt, end, init + (a + b));
  }

  lemma {:induction false} FlowStmtFolds(o: Oracle, stmt: Stmt, s: State)
    requires LoopFree(stmt) && FlowStmt(o, stmt, s).most <= 256
    ensures forall f | f in FlowStmt(o, stmt, s).flows :: CaseReaches(o, stmt, EndOf(f), s, f.state)
    decreases stmt, 2, 0
  {
    hide FlowBody, FlowEach, CondStates, ExitStmt, Entering, ApplyInit, LoopFreeList, LoopFreeClauses;
    hide CaseReaches, CaseListReaches, CondReaches, SwitchReaches, CaseListPath, SwitchPath, FlowFrom, FlowFromOne;
    match stmt
    case Effect(l) => InCaseReaches(o, l, s);
    case If(init, cond, thn, els) =>
      var split := CondStates(o, cond, ApplyInit(o, init, s));
      var inThen, inElse := Entering(split.whenTrue), Entering(split.whenFalse);
      CondFolds(o, cond, ApplyInit(o, init, s));
      FlowBodyFolds(o, thn, inThen);
      match els {
        case NoElse =>
        case ElseBlock(body) => FlowBodyFolds(o, body, inElse);
        case ElseIf(x) => FlowEachFolds(o, x, inElse);
      }
      forall f | f in FlowStmt(o, stmt, s).flows ensures CaseReaches(o, stmt, EndOf(f), s, f.state) {
        if f in FlowBody(o, thn, inThen).flows {
          var u := EnteringFrom(o, thn, split.whenTrue, f);
          assert u in Side(split, true) && CaseBranchReaches(o, stmt, EndOf(f), true, u, f.state);
          CaseIfReaches(o, stmt, EndOf(f), true, s, u, f.state);
        } else {
          var u := CaseElseSource(o, stmt, split.whenFalse, f);
          assert u in Side(split, false);
          CaseIfReaches(o, stmt, EndOf(f), false, s, u, f.state);
        }
      }
    case Block(body) =>
      FlowBodyFolds(o, body, [Flow(s, false)]);
      forall f | f in FlowStmt(o, stmt, s).flows ensures CaseReaches(o, stmt, EndOf(f), s, f.state) {
        CaseBlockReaches(o, body, s, f);
      }
    case Break => CaseEnds(o, s);
    case Switch(before, tagless, clauses) =>
      SwitchMost(o, stmt, s);
      SwitchFolds(o, clauses, ApplyInit(o, before, s), tagless);
      forall f | f in FlowStmt(o, stmt, s).flows ensures CaseReaches(o, stmt, EndOf(f), s, f.state) {
        SwitchFlows(o, stmt, s, f);
        AfterInit(o, stmt, false, s, f.state);
      }
    case _ =>
  }

  lemma InCaseReaches(o: Oracle, l: Leaf, s: State)
    ensures CaseReaches(o, Effect(l), Falls, s, ApplyInCase(o, l, s))
  {
    FoldOne(o, InCase(l), s);
    assert CasePath(o, Effect(l), Falls, [InCase(l)]);
  }

  lemma CaseBlockReaches(o: Oracle, body: seq<Stmt>, s: State, f: Flow)
    requires FlowFrom(o, body, [Flow(s, false)], f)
    ensures CaseReaches(o, Stmt.Block(body), EndOf(f), s, f.state)
  {
    var path :| CaseListPath(o, body, EndOf(f), path) && f.state == Fold(o, path, s);
    assert CasePath(o, Stmt.Block(body), EndOf(f), path);
  }

  lemma SwitchFlows(o: Oracle, stmt: Stmt, s: State, f: Flow)
    requires stmt.Switch? && f in FlowStmt(o, stmt, s).flows
    ensures !f.exited && f.state in SwitchExits(o, stmt.clauses, ApplyInit(o, stmt.before, s), stmt.tagless).states
  {
    hide SwitchExits, ApplyInit;
  }

  lemma SwitchMost(o: Oracle, stmt: Stmt, s: State)
    requires stmt.Switch?
    ensures SwitchExits(o, stmt.clauses, ApplyInit(o, stmt.before, s), stmt.tagless).most == FlowStmt(o, stmt, s).most
  {
    hide SwitchExits, ApplyInit;
  }

  lemma CaseElseSource(o: Oracle, stmt: Stmt, states: seq<State>, f: Flow) returns (u: State)
    requires stmt.If?
    requires match stmt.els
      case NoElse => f in Entering(states)
      case ElseBlock(body) => FlowFrom(o, body, Entering(states), f)
      case ElseIf(x) => FlowFromOne(o, x, Entering(states), f)
    ensures u in states && CaseBranchReaches(o, stmt, EndOf(f), false, u, f.state)
  {
    match stmt.els
    case NoElse => u := f.state;
    case ElseBlock(body) => u := EnteringFrom(o, body, states, f);
    case ElseIf(x) => u := EnteringFromOne(o, x, states, f);
  }

  // ----- switches -----

  lemma {:induction false} WalkFolds(o: Oracle, exprs: seq<Leaf>, s: State, tagless: bool)
    ensures var w := WalkExprs(o, exprs, s, tagless);
            && (w.live ==> w.current == Fold(o, Evaluated(exprs), s) && MayMiss(o, exprs, tagless))
            && forall t | t in w.selected :: exists a :: HitPath(o, exprs, tagless, a) && t == Fold(o, a, s)
  {
    hide HitPath;
    if exprs != [] {
      var next := o.apply(exprs[0], s);
      var rest := WalkExprs(o, exprs[1..], next, tagless);
      WalkFolds(o, exprs[1..], next, tagless);
      var w := WalkExprs(o, exprs, s, tagless);
      var constant := if tagless then o.constant(exprs[0]) else None;
      assert exprs == [exprs[0]] + exprs[1..];
      FoldAppend(o, [Fully(exprs[0])], Evaluated(exprs[1..]), s);
      FoldOne(o, Fully(exprs[0]), s);
      forall t | t in w.selected ensures exists a :: HitPath(o, exprs, tagless, a) && t == Fold(o, a, s) {
        if t == next && constant != Some(false) {
          FirstHits(o, exprs, tagless);
        } else {
          assert constant != Some(true) && t in rest.selected;
          var a :| HitPath(o, exprs[1..], tagless, a) && t == Fold(o, a, next);
          LaterHits(o, exprs, tagless, a);
          FoldAppend(o, [Fully(exprs[0])], a, s);
        }
      }
    }
  }

  lemma FirstHits(o: Oracle, exprs: seq<Leaf>, tagless: bool)
    requires exprs != [] && (tagless ==> o.constant(exprs[0]) != Some(false))
    ensures HitPath(o, exprs, tagless, [Fully(exprs[0])])
  {
    assert exprs[..0 + 1][1..] == [] && exprs[..0] == [];
    assert [Fully(exprs[0])] == Evaluated(exprs[..0 + 1]);
  }

  lemma LaterHits(o: Oracle, exprs: seq<Leaf>, tagless: bool, a: seq<Event>)
    requires exprs != [] && (tagless ==> o.constant(exprs[0]) != Some(true)) && HitPath(o, exprs[1..], tagless, a)
    ensures HitPath(o, exprs, tagless, [Fully(exprs[0])] + a)
  {
    var rest := exprs[1..];
    var k :| 0 <= k < |rest| && a == Evaluated(rest[..k + 1]) && MayMiss(o, rest[..k], tagless) &&
             (tagless ==> o.constant(rest[k]) != Some(false));
    assert exprs[..k + 1 + 1][1..] == rest[..k + 1];
    assert exprs[..k + 1] == [exprs[0]] + rest[..k];
    assert [Fully(exprs[0])] + a == Evaluated(exprs[..k + 1 + 1]);
  }

  ghost predicate MatchReaches(
      o: Oracle, clauses: seq<Clause>, tagless: bool, i: nat, s: State, t: State)
    requires i < |clauses|
  {
    exists a :: MatchPath(o, clauses, tagless, i, a) && t == Fold(o, a, s)
  }

  lemma {:induction false} WalksFold(o: Oracle, clauses: seq<Clause>, s: State, live: bool, tagless: bool)
    ensures var r := WalkClauses(o, clauses, s, live, tagless);
            && (r.2 ==> live && r.1 == Fold(o, Missed(clauses), s) && AllMayMiss(o, clauses, tagless))
            && (!live ==> forall i | 0 <= i < |clauses| :: r.0[i] == [])
            && forall i, t | 0 <= i < |clauses| && t in r.0[i] :: MatchReaches(o, clauses, tagless, i, s, t)
  {
    hide WalkExprs, MatchReaches, Missed, Fold, MayMiss;
    NothingFolds(o, s);
    if clauses != [] {
      var c := clauses[0];
      var plain := c.exprs.None? || !live;
      var exprs := if c.exprs.Some? then c.exprs.value else [];
      var w := if plain then Walk([], s, live) else WalkExprs(o, exprs, s, tagless);
      if !plain { WalkFolds(o, exprs, s, tagless); }
      WalksFold(o, clauses[1..], w.current, w.live, tagless);
      var r, rest := WalkClauses(o, clauses, s, live, tagless),
        WalkClauses(o, clauses[1..], w.current, w.live, tagless);
      FoldAppend(o, Evaluated(exprs), Missed(clauses[1..]), s);
      MissedFirst(clauses, |clauses|);
      MissedOne(c);
      assert clauses == [c] + clauses[1..] && clauses[..1] == [c] && clauses[..|clauses|] == clauses;
      assert clauses[1..][..|clauses| - 1] == clauses[1..];
      assert Missed(clauses) == Evaluated(exprs) + Missed(clauses[1..]);
      forall i, t | 0 <= i < |clauses| && t in r.0[i] ensures MatchReaches(o, clauses, tagless, i, s, t) {
        if i == 0 {
          FirstMatches(o, clauses, tagless, s, t);
        } else {
          assert t in rest.0[i - 1];
          LaterMatches(o, clauses, tagless, i, s, w.current, t);
        }
      }
    }
  }

  lemma NothingFolds(o: Oracle, s: State)
    ensures Missed([]) == [] && Evaluated([]) == [] && Fold(o, [], s) == s
  {
  }

  lemma MissedOne(c: Clause)
    ensures Missed([c]) == if c.exprs.Some? then Evaluated(c.exprs.value) else []
  {
    assert [c][1..] == [];
    assert Missed([c]) == (if c.exprs.Some? then Evaluated(c.exprs.value) else []) + Missed([]);
  }

  lemma FirstMatches(o: Oracle, clauses: seq<Clause>, tagless: bool, s: State, t: State)
    requires clauses != [] && clauses[0].exprs.Some?
    requires exists a :: HitPath(o, clauses[0].exprs.value, tagless, a) && t == Fold(o, a, s)
    ensures MatchReaches(o, clauses, tagless, 0, s, t)
  {
    hide HitPath;
    var a :| HitPath(o, clauses[0].exprs.value, tagless, a) && t == Fold(o, a, s);
    assert clauses[..0] == [] && Missed([]) + a == a;
    assert MatchPath(o, clauses, tagless, 0, a);
  }

  lemma MissedFirst(clauses: seq<Clause>, i: nat)
    requires 0 < i <= |clauses|
    ensures Missed(clauses[..i]) == Missed(clauses[..1]) + Missed(clauses[1..][..i - 1])
  {
    MissedOne(clauses[0]);
    assert clauses[..1] == [clauses[0]] && clauses[..i][1..] == clauses[1..][..i - 1];
  }

  lemma LaterMatches(o: Oracle, clauses: seq<Clause>, tagless: bool, i: nat, s: State, u: State, t: State)
    requires 0 < i < |clauses| && MatchReaches(o, clauses[1..], tagless, i - 1, u, t)
    requires AllMayMiss(o, clauses[..1], tagless) && u == Fold(o, Missed(clauses[..1]), s)
    ensures MatchReaches(o, clauses, tagless, i, s, t)
  {
    hide HitPath, Missed, Fold;
    var rest := clauses[1..];
    var b :| MatchPath(o, rest, tagless, i - 1, b) && t == Fold(o, b, u);
    var a :| b == Missed(rest[..i - 1]) + a && HitPath(o, rest[i - 1].exprs.value, tagless, a);
    var first := Missed(clauses[..1]);
    MissedFirst(clauses, i);
    assert first + b == Missed(clauses[..i]) + a;
    assert clauses[..i] == clauses[..1] + rest[..i - 1] && clauses[i] == rest[i - 1];
    FoldAppend(o, first, b, s);
    assert MatchPath(o, clauses, tagless, i, first + b);
  }

  ghost predicate ChoiceReaches(o: Oracle, clauses: seq<Clause>, tagless: bool, i: nat, s: State, t: State)
    requires i < |clauses|
  {
    exists a :: ChoicePath(o, clauses, tagless, i, a) && t == Fold(o, a, s)
  }

  lemma SelectedFolds(o: Oracle, clauses: seq<Clause>, s: State, tagless: bool)
    ensures var r := Selected(o, clauses, s, tagless);
            && (forall i, t | 0 <= i < |clauses| && t in r.0[i] :: ChoiceReaches(o, clauses, tagless, i, s, t))
            && (forall t | t in r.1 :: SwitchReaches(o, clauses, tagless, s, t))
  {
    hide WalkClauses;
    var w, r := WalkClauses(o, clauses, s, true, tagless), Selected(o, clauses, s, tagless);
    WalksFold(o, clauses, s, true, tagless);
    forall i, t | 0 <= i < |clauses| && t in r.0[i] ensures ChoiceReaches(o, clauses, tagless, i, s, t) {
      if t in w.0[i] {
        assert MatchReaches(o, clauses, tagless, i, s, t);
        var a :| MatchPath(o, clauses, tagless, i, a) && t == Fold(o, a, s);
        assert ChoicePath(o, clauses, tagless, i, a);
      } else {
        assert ChoicePath(o, clauses, tagless, i, Missed(clauses)) && t == w.1;
      }
    }
    if r.1 != [] { assert SwitchPath(o, clauses, tagless, Missed(clauses)); }
  }

  lemma {:induction false} SwitchFolds(o: Oracle, clauses: seq<Clause>, s: State, tagless: bool)
    requires LoopFreeClauses(clauses) && SwitchExits(o, clauses, s, tagless).most <= 256
    ensures forall t | t in SwitchExits(o, clauses, s, tagless).states :: SwitchReaches(o, clauses, tagless, s, t)
    decreases clauses, 1, 0
  {
    hide ClauseExits, Selected, SwitchReaches, ChoiceReaches;
    var (selected, remaining) := Selected(o, clauses, s, tagless);
    SelectedFolds(o, clauses, s, tagless);
    ClausesFold(o, clauses, selected, [], remaining);
    forall t | t in SwitchExits(o, clauses, s, tagless).states ensures SwitchReaches(o, clauses, tagless, s, t) {
      if t !in remaining {
        var i, u :| 0 <= i < |clauses| && u in selected[i] && BodiesReach(o, clauses[i..], u, t);
        Chosen(o, clauses, tagless, i, s, u, t);
      }
    }
  }

  lemma Chosen(o: Oracle, clauses: seq<Clause>, tagless: bool, i: nat, s: State, u: State, t: State)
    requires i < |clauses| && ChoiceReaches(o, clauses, tagless, i, s, u) && BodiesReach(o, clauses[i..], u, t)
    ensures SwitchReaches(o, clauses, tagless, s, t)
  {
    hide ChoicePath, BodiesPath;
    var a :| ChoicePath(o, clauses, tagless, i, a) && u == Fold(o, a, s);
    var b :| BodiesPath(o, clauses[i..], b) && t == Fold(o, b, u);
    FoldAppend(o, a, b, s);
    assert SwitchPath(o, clauses, tagless, a + b);
  }

  lemma BodyEnds(o: Oracle, clauses: seq<Clause>, u: State, f: Flow)
    requires clauses != [] && CaseListReaches(o, clauses[0].body, EndOf(f), u, f.state)
    requires f.exited || !clauses[0].fallsThrough
    ensures BodiesReach(o, clauses, u, f.state)
  {
    hide CaseListPath;
    var a :| CaseListPath(o, clauses[0].body, EndOf(f), a) && f.state == Fold(o, a, u);
    assert BodiesPath(o, clauses, a);
  }

  lemma BodyFallsThrough(o: Oracle, clauses: seq<Clause>, u: State, v: State, t: State)
    requires clauses != [] && clauses[0].fallsThrough
    requires CaseListReaches(o, clauses[0].body, Falls, u, v) && BodiesReach(o, clauses[1..], v, t)
    ensures BodiesReach(o, clauses, u, t)
  {
    hide CaseListPath;
    var a :| CaseListPath(o, clauses[0].body, Falls, a) && v == Fold(o, a, u);
    var b :| BodiesPath(o, clauses[1..], b) && t == Fold(o, b, v);
    FoldAppend(o, a, b, u);
    assert BodiesPath(o, clauses, a + b);
  }

  lemma {:induction false} FlowsOfState(flows: seq<Flow>, t: State)
    ensures forall exited | t in StatesOf(flows, exited) :: Flow(t, exited) in flows
    ensures t in AllStates(flows) ==> Flow(t, true) in flows || Flow(t, false) in flows
  {
    if flows != [] {
      FlowsOfState(flows[1..], t);
      forall exited | t in StatesOf(flows, exited) ensures Flow(t, exited) in flows {
        if t in StatesOf(flows[1..], exited) {
          assert Flow(t, exited) in flows[1..];
        } else {
          assert flows[0] == Flow(t, exited);
        }
      }
    }
  }

  /** From the states a clause was selected with, or those that fall into the first body. */
  ghost predicate FromSelected(
      o: Oracle, clauses: seq<Clause>, selected: seq<seq<State>>, falling: seq<State>, t: State)
    requires |selected| == |clauses|
  {
    || (exists i, u :: 0 <= i < |clauses| && u in selected[i] && BodiesReach(o, clauses[i..], u, t))
    || exists u :: u in falling && BodiesReach(o, clauses, u, t)
  }

  lemma FirstBody(
      o: Oracle, clauses: seq<Clause>, selected: seq<seq<State>>, falling: seq<State>, u: State, t: State)
    requires |selected| == |clauses| && clauses != [] && u in selected[0] + falling && BodiesReach(o, clauses, u, t)
    ensures FromSelected(o, clauses, selected, falling, t)
  {
    hide BodiesReach;
    assert clauses[0..] == clauses;
  }

  lemma {:induction false} ClausesFold(
      o: Oracle, clauses: seq<Clause>, selected: seq<seq<State>>, falling: seq<State>, remaining: seq<State>)
    requires |selected| == |clauses| && LoopFreeClauses(clauses)
    requires ClauseExits(o, clauses, selected, falling, remaining).most <= 256
    ensures forall t | t in ClauseExits(o, clauses, selected, falling, remaining).states ::
              t in remaining || FromSelected(o, clauses, selected, falling, t)
    decreases clauses, 0, 0
  {
    hide FlowBody, Entering, StatesOf, AllStates, LoopFreeList, BodiesReach, CaseListReaches;
    var r := ClauseExits(o, clauses, selected, falling, remaining);
    if clauses == [] {
      forall t | t in falling ensures FromSelected(o, clauses, selected, falling, t) { NoBodies(o, t); }
    } else {
      var c, inside := clauses[0], selected[0] + falling;
      FlowBodyFolds(o, c.body, Entering(inside));
      var flows := FlowBody(o, c.body, Entering(inside)).flows;
      var next := if c.fallsThrough then StatesOf(flows, false) else [];
      ClausesFold(o, clauses[1..], selected[1..], next, remaining);
      forall t | t in r.states && t !in remaining ensures FromSelected(o, clauses, selected, falling, t) {
        FlowsOfState(flows, t);
        if t in ClauseExits(o, clauses[1..], selected[1..], next, remaining).states {
          assert FromSelected(o, clauses[1..], selected[1..], next, t);
          LaterBodies(o, clauses, selected, falling, flows, next, t);
        } else {
          var f := if c.fallsThrough || Flow(t, true) in flows then Flow(t, true) else Flow(t, false);
          assert f in flows;
          var u := EnteringFrom(o, c.body, inside, f);
          BodyEnds(o, clauses, u, f);
          FirstBody(o, clauses, selected, falling, u, t);
        }
      }
    }
  }

  lemma NoBodies(o: Oracle, t: State)
    ensures BodiesReach(o, [], t, t)
  {
    assert BodiesPath(o, [], []) && Fold(o, [], t) == t;
  }

  lemma LaterBodies(
      o: Oracle, clauses: seq<Clause>, selected: seq<seq<State>>, falling: seq<State>, flows: seq<Flow>,
      next: seq<State>, t: State)
    requires |selected| == |clauses| && clauses != []
    requires next == if clauses[0].fallsThrough then StatesOf(flows, false) else []
    requires forall f | f in flows :: FlowFrom(o, clauses[0].body, Entering(selected[0] + falling), f)
    requires FromSelected(o, clauses[1..], selected[1..], next, t)
    ensures FromSelected(o, clauses, selected, falling, t)
  {
    hide BodiesReach, FlowFrom, Entering, StatesOf;
    if u :| u in next && BodiesReach(o, clauses[1..], u, t) {
      FlowsOfState(flows, u);
      assert Flow(u, false) in flows;
      var v := EnteringFrom(o, clauses[0].body, selected[0] + falling, Flow(u, false));
      BodyFallsThrough(o, clauses, v, u, t);
      FirstBody(o, clauses, selected, falling, v, t);
    } else {
      var i, u :| 0 <= i < |clauses[1..]| && u in selected[1..][i] && BodiesReach(o, clauses[1..][i..], u, t);
      assert clauses[1..][i..] == clauses[i + 1..] && u in selected[i + 1];
    }
  }

  /**
   Without loops, and while no deduplication joins states, every state of a
   list, of a case body and of a switch is what the leaves along one path to an
   allowed end make of a state before.
   */
  lemma StatesAreFolds(
      o: Oracle, body: seq<Stmt>, states: seq<State>, breakExits: bool, clauses: seq<Clause>, s: State, tagless: bool)
    ensures LoopFreeList(body) && ExitBlock(o, body, states, breakExits).most <= 256 ==>
              forall t | t in ExitBlock(o, body, states, breakExits).states ::
                exists u :: u in states && ListReaches(o, body, breakExits, u, t)
    ensures LoopFreeList(body) && FlowBody(o, body, Entering(states)).most <= 256 ==>
              forall f | f in FlowBody(o, body, Entering(states)).flows ::
                exists u :: u in states && CaseListReaches(o, body, if f.exited then Breaks else Falls, u, f.state)
    ensures LoopFreeClauses(clauses) && SwitchExits(o, clauses, s, tagless).most <= 256 ==>
              forall t | t in SwitchExits(o, clauses, s, tagless).states :: SwitchReaches(o, clauses, tagless, s, t)
  {
    hide ExitBlock, FlowBody, SwitchExits, ListReaches, CaseListReaches, SwitchReaches, Entering;
    hide LoopFreeList, LoopFreeClauses;
    if LoopFreeList(body) && ExitBlock(o, body, states, breakExits).most <= 256 {
      ExitBlockFolds(o, body, states, breakExits);
      assert forall t | t in ExitBlock(o, body, states, breakExits).states :: FromSome(o, body, breakExits, states, t);
    }
    if LoopFreeList(body) && FlowBody(o, body, Entering(states)).most <= 256 {
      FlowBodyFolds(o, body, Entering(states));
      forall f | f in FlowBody(o, body, Entering(states)).flows
        ensures exists u :: u in states && CaseListReaches(o, body, if f.exited then Breaks else Falls, u, f.state)
      {
        var u := EnteringFrom(o, body, states, f);
      }
    }
    if LoopFreeClauses(clauses) && SwitchExits(o, clauses, s, tagless).most <= 256 {
      SwitchFolds(o, clauses, s, tagless);
    }
  }

  // ----- a loop -----

  /** The condition holds at the head, and a path leads through the body. */
  ghost predicate TripReaches(o: Oracle, loop: Stmt, head: State, t: State)
    requires loop.Loop?
  {
    exists u :: CondReaches(o, loop.cond, true, head, u) && ListReaches(o, loop.body, true, u, t)
  }

  /** The next head joins the entry with what trips from the head lead to, behind the post statement. */
  ghost predicate NextHead(o: Oracle, loop: Stmt, entry: State, head: State, next: State)
    requires loop.Loop?
  {
    exists ends :: next == Union([entry] + Posts(o, loop.post, ends)) && forall t | t in ends ::
      TripReaches(o, loop, head, t)
  }

  ghost predicate HeadWithin(o: Oracle, loop: Stmt, entry: State, head: State, last: State, rounds: nat)
    requires loop.Loop?
    decreases rounds
  {
    || last == head
    || (rounds > 0 && exists next :: NextHead(o, loop, entry, head, next) &&
                                     HeadWithin(o, loop, entry, next, last, rounds - 1))
  }

  /** The states of a loop all come from one head: the condition fails there, or a last trip is made. */
  lemma {:induction false} LoopFolds(
      o: Oracle, loop: Stmt, entry: State, head: State, rounds: nat) returns (last: State)
    requires loop.Loop? && LoopFreeList(loop.body) && LoopExits(o, loop, entry, head, rounds).most <= 256
    ensures HeadWithin(o, loop, entry, head, last, rounds)
    ensures forall t | t in LoopExits(o, loop, entry, head, rounds).states ::
              CondReaches(o, loop.cond, false, last, t) || TripReaches(o, loop, last, t)
    decreases rounds
  {
    hide ExitBlock, CondStates, Union, Dedupe, Posts, CondReaches, ListReaches, TripReaches, NextHead, LoopFreeList;
    var t := TripFrom(o, loop, head);
    var merged := Union([entry] + Posts(o, loop.post, t.iterations.states));
    TripFolds(o, loop, head);
    if rounds == 0 || Key(merged) == Key(head) {
      last := head;
      DedupeSelects(t.whenFalse + t.iterations.states);
    } else {
      last := LoopFolds(o, loop, entry, merged, rounds - 1);
      assert NextHead(o, loop, entry, head, merged) by { Merges(o, loop, entry, head, t.iterations.states); }
    }
  }

  lemma Merges(o: Oracle, loop: Stmt, entry: State, head: State, ends: seq<State>)
    requires loop.Loop? && forall t | t in ends :: TripReaches(o, loop, head, t)
    ensures NextHead(o, loop, entry, head, Union([entry] + Posts(o, loop.post, ends)))
  {
    hide Union, Posts, TripReaches;
  }

  lemma TripFolds(o: Oracle, loop: Stmt, head: State)
    requires loop.Loop? && LoopFreeList(loop.body) && TripFrom(o, loop, head).iterations.most <= 256
    ensures forall t | t in TripFrom(o, loop, head).whenFalse :: CondReaches(o, loop.cond, false, head, t)
    ensures forall t | t in TripFrom(o, loop, head).iterations.states :: TripReaches(o, loop, head, t)
  {
    hide ExitBlock, CondStates, CondReaches, ListReaches, LoopFreeList;
    var split := CondStates(o, loop.cond, head);
    CondFolds(o, loop.cond, head);
    ExitBlockFolds(o, loop.body, split.whenTrue, true);
    assert forall t | t in split.whenFalse :: t in Side(split, false);
    forall t | t in TripFrom(o, loop, head).iterations.states ensures TripReaches(o, loop, head, t) {
      assert FromSome(o, loop.body, true, split.whenTrue, t);
      var u :| u in split.whenTrue && ListReaches(o, loop.body, true, u, t);
      assert u in Side(split, true);
    }
  }

  /** From the entry there are at most eight heads behind it (checks/ps1006.go:2461-2481). */
  lemma LoopStatesAreFolds(o: Oracle, loop: Stmt, s: State, breakExits: bool)
    requires loop.Loop? && LoopFreeList(loop.body) && ExitStmt(o, loop, s, breakExits).most <= 256
    ensures exists last :: HeadWithin(o, loop, Apply(o, loop.init, s), Apply(o, loop.init, s), last, 8) &&
              forall t | t in ExitStmt(o, loop, s, breakExits).states ::
                CondReaches(o, loop.cond, false, last, t) || TripReaches(o, loop, last, t)
  {
    hide LoopExits, HeadWithin, CondReaches, TripReaches, LoopFreeList, Apply;
    var entry := Apply(o, loop.init, s);
    var last := LoopFolds(o, loop, entry, entry, 8);
  }

  // ----- loops that settle -----

  function NextOf(o: Oracle, loop: Stmt, entry: State, head: State): State
    requires loop.Loop?
  {
    Union([entry] + Posts(o, loop.post, TripFrom(o, loop, head).iterations.states))
  }

  /** Each head follows from the one before, and differs from it. */
  ghost predicate HeadChain(o: Oracle, loop: Stmt, entry: State, heads: seq<State>)
    requires loop.Loop?
  {
    heads != [] && forall i | 0 < i < |heads| ::
      heads[i] == NextOf(o, loop, entry, heads[i - 1]) && Key(heads[i]) != Key(heads[i - 1])
  }

  /** The head leads to itself, by a trip whose inner loops settle. */
  predicate Settles(o: Oracle, loop: Stmt, entry: State, head: State)
    requires loop.Loop?
  {
    Key(NextOf(o, loop, entry, head)) == Key(head) && TripFrom(o, loop, head).iterations.settled
  }

  ghost predicate SettlesWithin(o: Oracle, loop: Stmt, entry: State, head: State, rounds: nat)
    requires loop.Loop?
  {
    exists heads :: HeadChain(o, loop, entry, heads) && heads[0] == head && |heads| <= rounds &&
                    Settles(o, loop, entry, heads[|heads| - 1])
  }

  /** A loop is settled exactly when a head repeats within the rounds. */
  lemma {:induction false} LoopSettlesIff(o: Oracle, loop: Stmt, entry: State, head: State, rounds: nat)
    requires loop.Loop?
    ensures LoopExits(o, loop, entry, head, rounds).settled <==> SettlesWithin(o, loop, entry, head, rounds)
    decreases rounds
  {
    hide TripFrom, Union, Posts, Key, Dedupe;
    if rounds > 0 {
      var next := NextOf(o, loop, entry, head);
      if Key(next) == Key(head) {
        if Settles(o, loop, entry, head) { assert HeadChain(o, loop, entry, [head]) && [head][0] == head; }
        if heads :| HeadChain(o, loop, entry, heads) && heads[0] == head && |heads| <= rounds &&
                    Settles(o, loop, entry, heads[|heads| - 1]) {
          assert |heads| > 1 ==> heads[1] == next && Key(heads[1]) != Key(heads[0]);
        }
      } else {
        LoopSettlesIff(o, loop, entry, next, rounds - 1);
        LaterHeads(o, loop, entry, head, rounds);
      }
    }
  }

  lemma LaterHeads(o: Oracle, loop: Stmt, entry: State, head: State, rounds: nat)
    requires loop.Loop? && rounds > 0 && Key(NextOf(o, loop, entry, head)) != Key(head)
    ensures SettlesWithin(o, loop, entry, head, rounds) <==>
              SettlesWithin(o, loop, entry, NextOf(o, loop, entry, head), rounds - 1)
  {
    hide NextOf, TripFrom, Key;
    var next := NextOf(o, loop, entry, head);
    if heads :| HeadChain(o, loop, entry, heads) && heads[0] == next && |heads| <= rounds - 1 &&
                Settles(o, loop, entry, heads[|heads| - 1]) {
      var more := [head] + heads;
      forall i | 0 < i < |more|
        ensures more[i] == NextOf(o, loop, entry, more[i - 1]) && Key(more[i]) != Key(more[i - 1])
      {
        assert more[i] == heads[i - 1];
        if i > 1 { assert more[i - 1] == heads[i - 2]; }
      }
      assert more[|more| - 1] == heads[|heads| - 1];
    }
    if heads :| HeadChain(o, loop, entry, heads) && heads[0] == head && |heads| <= rounds &&
                Settles(o, loop, entry, heads[|heads| - 1]) {
      assert |heads| > 1;
      var fewer := heads[1..];
      assert heads[1] == next;
      assert forall i | 0 < i < |fewer| :: fewer[i] == heads[i + 1] && fewer[i - 1] == heads[i];
      assert fewer[|fewer| - 1] == heads[|heads| - 1];
    }
  }
}
