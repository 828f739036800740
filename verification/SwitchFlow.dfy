/**
 Statement lists over sets of states: if, loops, and switch with breaks,
 fallthrough and a default in any position (checks/ps1006.go:2328-2609).
 */
module SwitchFlow {
  import opened DependencyState
  import opened GoBodies
  import opened OrderedSoundness
  import opened ConditionFlow
  import opened Wrappers

  /** `Effect` is an assignment, a declaration or an expression. */
  datatype Stmt =
    | Effect(l: Leaf)
    | If(init: Option<Leaf>, cond: Cond, thn: seq<Stmt>, els: Else)
    | Loop(init: Option<Leaf>, cond: Cond, post: Option<Leaf>, body: seq<Stmt>)
    | Block(body: seq<Stmt>)
    | Switch(before: Option<Leaf>, tagless: bool, clauses: seq<Clause>)
    | Break
    | Continue
    | Goto
    | Return

  datatype Else = NoElse | ElseBlock(body: seq<Stmt>) | ElseIf(stmt: Stmt)

  /** `exprs` is None for the default clause. */
  datatype Clause = Clause(exprs: Option<seq<Leaf>>, body: seq<Stmt>, fallsThrough: bool)

  // ----- what running does -----

  /** Left: return or goto. Spent: some loop would go round more often than allowed. */
  datatype Run = Fell(store: Store) | Broke(store: Store) | Continued(store: Store) | Left | Panicked | Spent

  function Act(o: Oracle, l: Option<Leaf>, m: Store): Option<Store> {
    match l
    case None => Some(m)
    case Some(x) =>
      match o.run(x, m)
      case Some(r) => Some(r.0)
      case None => None
  }

  /** An optional statement, then a condition. */
  function Decide(o: Oracle, init: Option<Leaf>, c: Cond, m: Store): Option<(Store, bool)> {
    match Act(o, init, m)
    case Some(m') => EvalCond(o, c, m')
    case None => None
  }

  function RunBody(o: Oracle, body: seq<Stmt>, m: Store, fuel: nat): Run
    decreases body, 0, 0
  {
    if body == [] then Fell(m)
    else match RunOne(o, body[0], m, fuel)
      case Fell(m') => RunBody(o, body[1..], m', fuel)
      case other => other
  }

  function RunOne(o: Oracle, stmt: Stmt, m: Store, fuel: nat): Run
    decreases stmt, 1, 0
  {
    match stmt
    case Effect(l) => AsRun(Act(o, Some(l), m))
    case If(init, cond, thn, els) =>
      (match Decide(o, init, cond, m)
       case None => Panicked
       case Some(e) =>
         if e.1 then RunBody(o, thn, e.0, fuel)
         else match els
           case NoElse => Fell(e.0)
           case ElseBlock(body) => RunBody(o, body, e.0, fuel)
           case ElseIf(s) => RunOne(o, s, e.0, fuel))
    case Loop(init, _, _, _) =>
      (match Act(o, init, m)
       case Some(m') => RunLoop(o, stmt, m', fuel, fuel).0
       case None => Panicked)
    case Block(body) => RunBody(o, body, m, fuel)
    case Switch(before, tagless, clauses) =>
      (match Act(o, before, m)
       case Some(m') => RunSwitch(o, clauses, m', fuel)
       case None => Panicked)
    case Break => Broke(m)
    case Continue => Continued(m)
    case Goto => Left
    case Return => Left
  }

  function AsRun(m: Option<Store>): Run {
    match m
    case Some(m') => Fell(m')
    case None => Panicked
  }

  /** The run and the number of trips through the body that lead back to the head. */
  function RunLoop(o: Oracle, loop: Stmt, m: Store, fuel: nat, left: nat): (r: (Run, nat))
    requires loop.Loop?
    ensures r.1 <= left
    decreases loop, 0, left
  {
    match EvalCond(o, loop.cond, m)
    case None => (Panicked, 0)
    case Some(e) =>
      if !e.1 then (Fell(e.0), 0)
      else if left == 0 then (Spent, 0)
      else
        var trip := RunBody(o, loop.body, e.0, fuel);
        if trip.Broke? then (Fell(trip.store), 0)
        else if !trip.Fell? && !trip.Continued? then (trip, 0)
        else match Act(o, loop.post, trip.store)
          case None => (Panicked, 0)
          case Some(m') =>
            var rest := RunLoop(o, loop, m', fuel, left - 1);
            (rest.0, rest.1 + 1)
  }

  /** Case expressions run in source order until one matches. */
  function MatchExprs(o: Oracle, exprs: seq<Leaf>, m: Store): Option<(Store, bool)> {
    if exprs == [] then Some((m, false))
    else
      var e := o.run(exprs[0], m);
      if e.None? || e.value.1 then e else MatchExprs(o, exprs[1..], e.value.0)
  }

  /** The first matching clause, counted from `i`, or None. */
  function MatchClause(o: Oracle, clauses: seq<Clause>, i: nat, m: Store): Option<(Store, Option<nat>)>
    requires i <= |clauses|
    decreases |clauses| - i
  {
    if i == |clauses| then Some((m, None))
    else match clauses[i].exprs
      case None => MatchClause(o, clauses, i + 1, m)
      case Some(exprs) =>
        match MatchExprs(o, exprs, m)
        case None => None
        case Some(e) => if e.1 then Some((e.0, Some(i))) else MatchClause(o, clauses, i + 1, e.0)
  }

  /** The last default clause, or None. */
  function DefaultIndex(clauses: seq<Clause>): (r: Option<nat>)
    ensures r.Some? ==> r.value < |clauses| && clauses[r.value].exprs.None?
  {
    if clauses == [] then None
    else if clauses[|clauses| - 1].exprs.None? then Some(|clauses| - 1)
    else DefaultIndex(clauses[..|clauses| - 1])
  }

  function RunSwitch(o: Oracle, clauses: seq<Clause>, m: Store, fuel: nat): Run
    decreases clauses, 1, 0
  {
    match MatchClause(o, clauses, 0, m)
    case None => Panicked
    case Some(e) =>
      match if e.1.Some? then e.1 else DefaultIndex(clauses)
      case None => Fell(e.0)
      case Some(i) => if i < |clauses| then RunClauses(o, clauses[i..], e.0, fuel) else Fell(e.0)
  }

  /** The chosen body, and the bodies it falls through to. */
  function RunClauses(o: Oracle, clauses: seq<Clause>, m: Store, fuel: nat): Run
    decreases clauses, 0, 0
  {
    if clauses == [] then Fell(m)
    else match RunBody(o, clauses[0].body, m, fuel)
      case Fell(m') => if clauses[0].fallsThrough then RunClauses(o, clauses[1..], m', fuel) else Fell(m')
      case Broke(m') => Fell(m')
      case other => other
  }

  // ----- what the analysis does -----

  function Apply(o: Oracle, l: Option<Leaf>, s: State): State {
    match l
    case Some(x) => o.apply(x, s)
    case None => s
  }

  /** The init statement of an if or switch, and the tag: the code leaves the aliases alone here. */
  function ApplyInit(o: Oracle, l: Option<Leaf>, s: State): State {
    match l
    case Some(x) => Unaliased(o, x, s)
    case None => s
  }

  /** `most`: the largest number of distinct states that a deduplication was handed. `settled`: every
      loop repeated a head. */
  datatype Exits = Exits(states: seq<State>, most: nat, settled: bool) {
    /** No state was lost in a deduplication. */
    predicate Within() {
      most <= 257
    }
  }

  function Both(a: Exits, b: Exits): Exits {
    Exits(a.states + b.states, Max(a.most, b.most), a.settled && b.settled)
  }

  function Unique(e: Exits): Exits {
    Exits(Dedupe(e.states), Max(e.most, Distinct(e.states)), e.settled)
  }

  function ExitBlock(o: Oracle, body: seq<Stmt>, states: seq<State>, breakExits: bool): Exits
    decreases body, 0, 0
  {
    if body == [] || states == [] then Exits(states, 0, true)
    else
      var next := ExitEach(o, body[0], states, breakExits);
      var rest := ExitBlock(o, body[1..], next.states, breakExits);
      Exits(rest.states, Max(next.most, rest.most), next.settled && rest.settled)
  }

  function ExitEach(o: Oracle, stmt: Stmt, states: seq<State>, breakExits: bool): Exits
    decreases stmt, 2, |states|
  {
    if states == [] then Exits([], 0, true)
    else Both(ExitStmt(o, stmt, states[0], breakExits), ExitEach(o, stmt, states[1..], breakExits))
  }

  function ExitStmt(o: Oracle, stmt: Stmt, s: State, breakExits: bool): Exits
    decreases stmt, 1, 0
  {
    match stmt
    case Effect(l) => Exits([o.apply(l, s)], 0, true)
    case If(init, cond, thn, els) =>
      var split := CondStates(o, cond, ApplyInit(o, init, s));
      var thenExits := ExitBlock(o, thn, split.whenTrue, breakExits);
      var elseExits := match els
        case NoElse => Exits(split.whenFalse, 0, true)
        case ElseBlock(body) => ExitBlock(o, body, split.whenFalse, breakExits)
        case ElseIf(x) => ExitEach(o, x, split.whenFalse, breakExits);
      var all := Unique(Both(thenExits, elseExits));
      all.(most := Max(all.most, split.most))
    case Loop(init, _, _, _) =>
      var entry := Apply(o, init, s);
      LoopExits(o, stmt, entry, entry, LOOP_ROUNDS)
    case Block(body) => ExitBlock(o, body, [s], breakExits)
    case Switch(before, tagless, clauses) => SwitchExits(o, clauses, ApplyInit(o, before, s), tagless)
    case Break => Exits(if breakExits then [s] else [], 0, true)
    case Continue => Exits([], 0, true)
    case Goto => Exits([], 0, true)
    case Return => Exits([], 0, true)
  }

  /** The condition at the head, and the body for the states in which it holds. */
  datatype Trip = Trip(whenFalse: seq<State>, iterations: Exits)

  function TripFrom(o: Oracle, loop: Stmt, head: State): Trip
    requires loop.Loop?
    decreases loop, 0, 0
  {
    var split := CondStates(o, loop.cond, head);
    var it := ExitBlock(o, loop.body, split.whenTrue, true);
    Trip(split.whenFalse, it.(most := Max(it.most, split.most)))
  }

  /** What a loop leaves behind at a head: the states in which the condition fails, and those of the last trip. */
  function Leaving(t: Trip): Exits {
    Unique(Both(Exits(t.whenFalse, 0, true), t.iterations))
  }

  function Posts(o: Oracle, post: Option<Leaf>, states: seq<State>): seq<State> {
    seq(|states|, i requires 0 <= i < |states| => Apply(o, post, states[i]))
  }

  function LoopExits(o: Oracle, loop: Stmt, entry: State, head: State, rounds: nat): Exits
    requires loop.Loop?
    decreases loop, 0, rounds + 1
  {
    var t := TripFrom(o, loop, head);
    var merged := Union([entry] + Posts(o, loop.post, t.iterations.states));
    var out := Leaving(t);
    if rounds == 0 then out.(settled := false)
    else if Key(merged) == Key(head) then out
    else
      var rest := LoopExits(o, loop, entry, merged, rounds - 1);
      rest.(most := Max(rest.most, t.iterations.most))
  }

  // ----- switch -----

  datatype Flow = Flow(state: State, exited: bool)

  datatype Flows = Flows(flows: seq<Flow>, most: nat, settled: bool) {
    predicate Within() {
      most <= 257
    }
  }

  function AsFlows(e: Exits): Flows {
    Flows(seq(|e.states|, i requires 0 <= i < |e.states| => Flow(e.states[i], false)), e.most, e.settled)
  }

  function Join(a: Flows, b: Flows): Flows {
    Flows(a.flows + b.flows, Max(a.most, b.most), a.settled && b.settled)
  }

  predicate IsJump(stmt: Stmt) {
    stmt.Continue? || stmt.Goto?
  }

  function FlowBody(o: Oracle, body: seq<Stmt>, flows: seq<Flow>): Flows
    decreases body, 0, 0
  {
    if body == [] then Flows(flows, 0, true)
    else if body[0].Break? then
      Flows(seq(|flows|, i requires 0 <= i < |flows| => flows[i].(exited := true)), 0, true)
    else if IsJump(body[0]) then Flows([], 0, true)
    else
      var next := FlowEach(o, body[0], flows);
      if next.flows == [] then next
      else
        var rest := FlowBody(o, body[1..], next.flows);
        Flows(rest.flows, Max(next.most, rest.most), next.settled && rest.settled)
  }

  function FlowEach(o: Oracle, stmt: Stmt, flows: seq<Flow>): Flows
    decreases stmt, 3, |flows|
  {
    if flows == [] then Flows([], 0, true)
    else Join(if flows[0].exited then Flows([flows[0]], 0, true) else FlowStmt(o, stmt, flows[0].state),
              FlowEach(o, stmt, flows[1..]))
  }

  function Entering(states: seq<State>): seq<Flow> {
    AsFlows(Exits(states, 0, true)).flows
  }

  /** In a case body assignments and declarations leave the aliases alone. */
  function ApplyInCase(o: Oracle, l: Leaf, s: State): State {
    if o.assigns(l) then Unaliased(o, l, s) else o.apply(l, s)
  }

  function FlowStmt(o: Oracle, stmt: Stmt, s: State): Flows
    decreases stmt, 2, 0
  {
    match stmt
    case Effect(l) => Flows([Flow(ApplyInCase(o, l, s), false)], 0, true)
    case If(init, cond, thn, els) =>
      var split := CondStates(o, cond, ApplyInit(o, init, s));
      var thenFlows := FlowBody(o, thn, Entering(split.whenTrue));
      var elseFlows := match els
        case NoElse => Flows(Entering(split.whenFalse), 0, true)
        case ElseBlock(body) => FlowBody(o, body, Entering(split.whenFalse))
        case ElseIf(x) => FlowEach(o, x, Entering(split.whenFalse));
      var all := Join(thenFlows, elseFlows);
      all.(most := Max(all.most, split.most))
    case Block(body) => FlowBody(o, body, [Flow(s, false)])
    case Break => Flows([Flow(s, true)], 0, true)
    case Continue => Flows([], 0, true)
    case Goto => Flows([], 0, true)
    case Return => Flows([], 0, true)
    case Loop(_, _, _, _) => AsFlows(ExitStmt(o, stmt, s, false))
    case Switch(_, _, _) => AsFlows(ExitStmt(o, stmt, s, false))
  }

  /** The walk over the case expressions: selections so far, the running state, and whether it is still live. */
  datatype Walk = Walk(selected: seq<State>, current: State, live: bool)

  function WalkExprs(o: Oracle, exprs: seq<Leaf>, s: State, tagless: bool): Walk {
    if exprs == [] then Walk([], s, true)
    else
      var next := o.apply(exprs[0], s);
      var constant := if tagless then o.constant(exprs[0]) else None;
      if constant == Some(true) then Walk([next], next, false)
      else
        var rest := WalkExprs(o, exprs[1..], next, tagless);
        if constant == Some(false) then rest else rest.(selected := [next] + rest.selected)
  }

  /** Selections of the clauses that are not the default, and the state after all of them missed. */
  function WalkClauses(
      o: Oracle, clauses: seq<Clause>, s: State, live: bool, tagless: bool): (r: (seq<seq<State>>, State, bool))
    ensures |r.0| == |clauses|
  {
    if clauses == [] then ([], s, live)
    else
      var w := if clauses[0].exprs.None? || !live then Walk([], s, live)
        else WalkExprs(o, clauses[0].exprs.value, s, tagless);
      var rest := WalkClauses(o, clauses[1..], w.current, w.live, tagless);
      ([w.selected] + rest.0, rest.1, rest.2)
  }

  /** ps1006SelectedDependencyStates: the default is selected only after every expression missed. */
  function Selected(o: Oracle, clauses: seq<Clause>, s: State, tagless: bool): (r: (seq<seq<State>>, seq<State>))
    ensures |r.0| == |clauses|
  {
    var (selected, last, live) := WalkClauses(o, clauses, s, true, tagless);
    match DefaultIndex(clauses)
    case Some(d) => if live then (selected[d := selected[d] + [last]], []) else (selected, [])
    case None => if live then (selected, [last]) else (selected, [])
  }

  function Onto(before: seq<State>, w: Walk): Walk {
    w.(selected := before + w.selected)
  }

  lemma ExprsStep(o: Oracle, exprs: seq<Leaf>, i: nat, before: seq<State>, s: State, tagless: bool)
    requires i < |exprs|
    ensures var next, constant := o.apply(exprs[i], s), if tagless then o.constant(exprs[i]) else None;
            var more := if constant == Some(false) then before else before + [next];
            Onto(before, WalkExprs(o, exprs[i..], s, tagless)) ==
            if constant == Some(true) then Walk(more, next, false)
            else Onto(more, WalkExprs(o, exprs[i + 1..], next, tagless))
  {
    assert exprs[i..][1..] == exprs[i + 1..];
    var next := o.apply(exprs[i], s);
    var rest := WalkExprs(o, exprs[i + 1..], next, tagless);
    assert before + ([next] + rest.selected) == before + [next] + rest.selected;
  }

  lemma ExprsEnds(o: Oracle, exprs: seq<Leaf>, before: seq<State>, s: State, tagless: bool)
    ensures exprs[0..] == exprs && Onto([], WalkExprs(o, exprs, s, tagless)) == WalkExprs(o, exprs, s, tagless)
    ensures Onto(before, WalkExprs(o, exprs[|exprs|..], s, tagless)) == Walk(before, s, true)
  {
    var w := WalkExprs(o, exprs, s, tagless);
    assert exprs[0..] == exprs && [] + w.selected == w.selected;
  }

  /** The expressions of one clause, with one running state. */
  method WalkInOrder(o: Oracle, exprs: seq<Leaf>, s: State, tagless: bool) returns (w: Walk)
    ensures w == WalkExprs(o, exprs, s, tagless)
  {
    hide WalkExprs, Onto;
    w := Walk([], s, true);
    ExprsEnds(o, exprs, [], s, tagless);
    for i := 0 to |exprs|
      invariant w.live
      invariant Onto(w.selected, WalkExprs(o, exprs[i..], w.current, tagless)) == WalkExprs(o, exprs, s, tagless)
    {
      ExprsStep(o, exprs, i, w.selected, w.current, tagless);
      var next := o.apply(exprs[i], w.current);
      var constant := if tagless then o.constant(exprs[i]) else None;
      w := w.(current := next);
      if constant != Some(false) { w := w.(selected := w.selected + [next]); }
      if constant == Some(true) { return w.(live := false); }
    }
    ExprsEnds(o, exprs, w.selected, w.current, tagless);
  }

  /** The same in the code's form: the clauses in source order, then the default. */
  method SelectedDependencyStates(o: Oracle, clauses: seq<Clause>, s: State, tagless: bool)
    returns (selected: seq<seq<State>>, remaining: seq<State>)
    ensures selected == Selected(o, clauses, s, tagless).0 && remaining == Selected(o, clauses, s, tagless).1
  {
    hide WalkExprs, Selected, DefaultIndex, WalkClauses, Append;
    selected, remaining := [], [];
    var current, live, default: Option<nat> := s, true, None;
    DefaultStep(clauses, 0);
    WalkEnds(o, clauses, [], s, true, tagless);
    for i := 0 to |clauses|
      invariant |selected| == i && default == DefaultIndex(clauses[..i])
      invariant Append(selected, WalkClauses(o, clauses[i..], current, live, tagless)) ==
                WalkClauses(o, clauses, s, true, tagless)
    {
      WalkStep(o, clauses, i, selected, current, live, tagless);
      DefaultStep(clauses, i);
      var w := Walk([], current, live);
      if clauses[i].exprs.None? {
        default := Some(i);
      } else if live {
        w := WalkInOrder(o, clauses[i].exprs.value, current, tagless);
      }
      selected, current, live := selected + [w.selected], w.current, w.live;
    }
    WalkEnds(o, clauses, selected, current, live, tagless);
    if live && default.Some? {
      selected := selected[default.value := selected[default.value] + [current]];
    } else if live {
      remaining := [current];
    }
    SelectedIs(o, clauses, s, tagless);
  }

  function Append(before: seq<seq<State>>, w: (seq<seq<State>>, State, bool)): (seq<seq<State>>, State, bool) {
    (before + w.0, w.1, w.2)
  }

  lemma WalkEnds(o: Oracle, clauses: seq<Clause>, before: seq<seq<State>>, s: State, live: bool, tagless: bool)
    ensures clauses[0..] == clauses == clauses[..|clauses|]
    ensures Append([], WalkClauses(o, clauses, s, live, tagless)) == WalkClauses(o, clauses, s, live, tagless)
    ensures Append(before, WalkClauses(o, clauses[|clauses|..], s, live, tagless)) == (before, s, live)
  {
    var w := WalkClauses(o, clauses, s, live, tagless);
    var none: seq<seq<State>> := [];
    assert none + w.0 == w.0;
    assert clauses[|clauses|..] == [] && before + none == before;
    assert WalkClauses(o, [], s, live, tagless) == (none, s, live);
  }

  lemma WalkStep(
      o: Oracle, clauses: seq<Clause>, i: nat, before: seq<seq<State>>, s: State, live: bool, tagless: bool)
    requires i < |clauses|
    ensures var w := if clauses[i].exprs.None? || !live then Walk([], s, live)
                     else WalkExprs(o, clauses[i].exprs.value, s, tagless);
            Append(before, WalkClauses(o, clauses[i..], s, live, tagless)) ==
            Append(before + [w.selected], WalkClauses(o, clauses[i + 1..], w.current, w.live, tagless))
  {
    hide WalkExprs;
    assert clauses[i..][1..] == clauses[i + 1..];
    var w := if clauses[i].exprs.None? || !live then Walk([], s, live)
             else WalkExprs(o, clauses[i].exprs.value, s, tagless);
    var rest := WalkClauses(o, clauses[i + 1..], w.current, w.live, tagless);
    assert before + ([w.selected] + rest.0) == before + [w.selected] + rest.0;
  }

  lemma DefaultStep(clauses: seq<Clause>, i: nat)
    requires i <= |clauses|
    ensures DefaultIndex([]) == None
    ensures i < |clauses| ==>
              DefaultIndex(clauses[..i + 1]) == if clauses[i].exprs.None? then Some(i) else DefaultIndex(clauses[..i])
  {
    if i < |clauses| { assert clauses[..i + 1][..i] == clauses[..i]; }
  }

  lemma SelectedIs(o: Oracle, clauses: seq<Clause>, s: State, tagless: bool)
    ensures var w, d, r := WalkClauses(o, clauses, s, true, tagless), DefaultIndex(clauses),
            Selected(o, clauses, s, tagless);
            && r.0 == (if w.2 && d.Some? then w.0[d.value := w.0[d.value] + [w.1]] else w.0)
            && r.1 == (if w.2 && d.None? then [w.1] else [])
  {
  }

  function StatesOf(flows: seq<Flow>, exited: bool): seq<State> {
    if flows == [] then []
    else (if flows[0].exited == exited then [flows[0].state] else []) + StatesOf(flows[1..], exited)
  }

  function AllStates(flows: seq<Flow>): seq<State> {
    seq(|flows|, i requires 0 <= i < |flows| => flows[i].state)
  }

  /** The clause bodies in order; `falling` comes from the body before. */
  function ClauseExits(
      o: Oracle, clauses: seq<Clause>, selected: seq<seq<State>>, falling: seq<State>, remaining: seq<State>): Exits
    requires |selected| == |clauses|
    decreases clauses, 0, 0
  {
    if clauses == [] then Exits(remaining + falling, 0, true)
    else
      var f := FlowBody(o, clauses[0].body, Entering(selected[0] + falling));
      var out := if clauses[0].fallsThrough then StatesOf(f.flows, true) else AllStates(f.flows);
      var next := if clauses[0].fallsThrough then StatesOf(f.flows, false) else [];
      Both(Exits(out, f.most, f.settled), ClauseExits(o, clauses[1..], selected[1..], next, remaining))
  }

  /** ps1006DependencyExitStatesForCaseClauses. */
  function SwitchExits(o: Oracle, clauses: seq<Clause>, s: State, tagless: bool): Exits
    decreases clauses, 1, 0
  {
    var (selected, remaining) := Selected(o, clauses, s, tagless);
    ClauseExits(o, clauses, selected, [], remaining)
  }

  // ----- how a list can end, read off its statements -----

  datatype End = Falls | Breaks | Continues

  predicate MayEnd(stmt: Stmt, end: End)
    decreases stmt, 1
  {
    match stmt
    case Effect(_) => end == Falls
    case If(_, _, thn, els) =>
      MayEndList(thn, end) || (match els
        case NoElse => end == Falls
        case ElseBlock(body) => MayEndList(body, end)
        case ElseIf(s) => MayEnd(s, end))
    case Loop(_, _, _, _) => end == Falls
    case Block(body) => MayEndList(body, end)
    case Switch(_, _, clauses) => MayLeave(clauses, end)
    case Break => end == Breaks
    case Continue => end == Continues
    case _ => false
  }

  predicate MayEndList(body: seq<Stmt>, end: End)
    decreases body, 0
  {
    if body == [] then end == Falls
    else (end != Falls && MayEnd(body[0], end)) || (MayEnd(body[0], Falls) && MayEndList(body[1..], end))
  }

  /** A clause runs first if one of its expressions matches, or as the default. */
  predicate Choosable(clauses: seq<Clause>, i: nat) {
    && i < |clauses|
    && (DefaultIndex(clauses) == Some(i) || (clauses[i].exprs.Some? && clauses[i].exprs.value != []))
  }

  predicate MayLeave(clauses: seq<Clause>, end: End)
    decreases clauses, 1
  {
    || (end == Falls && DefaultIndex(clauses).None?)
    || exists i: nat | i < |clauses| :: Choosable(clauses, i) && MayLeaveFirst(clauses[i..], end)
  }

  /** The first body ends so, or falls through to one that does; a break ends the switch only. */
  predicate MayLeaveFirst(clauses: seq<Clause>, end: End)
    decreases clauses, 0
  {
    if clauses == [] then end == Falls
    else
      || (end == Falls && MayEndList(clauses[0].body, Breaks))
      || (end == Falls && !clauses[0].fallsThrough && MayEndList(clauses[0].body, Falls))
      || (end == Continues && MayEndList(clauses[0].body, Continues))
      || (clauses[0].fallsThrough && MayEndList(clauses[0].body, Falls) && MayLeaveFirst(clauses[1..], end))
  }

  lemma {:induction false} RunsMayEnd(o: Oracle, stmt: Stmt, m: Store, fuel: nat)
    ensures RunOne(o, stmt, m, fuel).Fell? ==> MayEnd(stmt, Falls)
    ensures RunOne(o, stmt, m, fuel).Broke? ==> MayEnd(stmt, Breaks)
    ensures RunOne(o, stmt, m, fuel).Continued? ==> MayEnd(stmt, Continues)
    decreases stmt, 1, 0
  {
    hide EvalCond, MatchClause;
    match stmt
    case If(init, cond, thn, els) =>
      if Decide(o, init, cond, m).Some? {
        var e := Decide(o, init, cond, m).value;
        ListsMayEnd(o, thn, e.0, fuel);
        match els {
          case NoElse =>
          case ElseBlock(body) => ListsMayEnd(o, body, e.0, fuel);
          case ElseIf(s) => RunsMayEnd(o, s, e.0, fuel);
        }
      }
    case Loop(init, _, _, _) =>
      if Act(o, init, m).Some? { LoopsDoNotBreak(o, stmt, Act(o, init, m).value, fuel, fuel); }
    case Block(body) => ListsMayEnd(o, body, m, fuel);
    case Switch(before, _, clauses) =>
      if Act(o, before, m).Some? { SwitchesMayLeave(o, clauses, Act(o, before, m).value, fuel); }
    case _ =>
  }

  lemma {:induction false} LoopsDoNotBreak(o: Oracle, loop: Stmt, m: Store, fuel: nat, left: nat)
    requires loop.Loop?
    ensures !RunLoop(o, loop, m, fuel, left).0.Broke? && !RunLoop(o, loop, m, fuel, left).0.Continued?
    decreases left
  {
    hide EvalCond, RunBody, Act;
    if left > 0 && EvalCond(o, loop.cond, m).Some? {
      var trip := RunBody(o, loop.body, EvalCond(o, loop.cond, m).value.0, fuel);
      if (trip.Fell? || trip.Continued?) && Act(o, loop.post, trip.store).Some? {
        LoopsDoNotBreak(o, loop, Act(o, loop.post, trip.store).value, fuel, left - 1);
      }
    }
  }

  lemma {:induction false} ListsMayEnd(o: Oracle, body: seq<Stmt>, m: Store, fuel: nat)
    ensures RunBody(o, body, m, fuel).Fell? ==> MayEndList(body, Falls)
    ensures RunBody(o, body, m, fuel).Broke? ==> MayEndList(body, Breaks)
    ensures RunBody(o, body, m, fuel).Continued? ==> MayEndList(body, Continues)
    decreases body, 0, 0
  {
    hide RunOne, MayEnd;
    if body != [] {
      RunsMayEnd(o, body[0], m, fuel);
      var run := RunOne(o, body[0], m, fuel);
      if run.Fell? { ListsMayEnd(o, body[1..], run.store, fuel); }
    }
  }

  lemma {:induction false} MatchIsChoosable(o: Oracle, clauses: seq<Clause>, i: nat, m: Store)
    requires i <= |clauses| && MatchClause(o, clauses, i, m).Some? && MatchClause(o, clauses, i, m).value.1.Some?
    ensures Choosable(clauses, MatchClause(o, clauses, i, m).value.1.value)
    decreases |clauses| - i
  {
    match clauses[i].exprs
    case None => MatchIsChoosable(o, clauses, i + 1, m);
    case Some(exprs) =>
      var e := MatchExprs(o, exprs, m).value;
      if !e.1 { MatchIsChoosable(o, clauses, i + 1, e.0); }
  }

  lemma {:induction false} SwitchesMayLeave(o: Oracle, clauses: seq<Clause>, m: Store, fuel: nat)
    ensures RunSwitch(o, clauses, m, fuel).Fell? ==> MayLeave(clauses, Falls)
    ensures RunSwitch(o, clauses, m, fuel).Continued? ==> MayLeave(clauses, Continues)
    ensures !RunSwitch(o, clauses, m, fuel).Broke?
    decreases clauses, 1, 0
  {
    hide MatchClause, RunClauses, MayLeaveFirst;
    var e := MatchClause(o, clauses, 0, m);
    if e.Some? {
      if e.value.1.Some? { MatchIsChoosable(o, clauses, 0, m); }
      var chosen := if e.value.1.Some? then e.value.1 else DefaultIndex(clauses);
      if chosen.Some? {
        assert Choosable(clauses, chosen.value);
        ClausesMayLeave(o, clauses[chosen.value..], e.value.0, fuel);
      }
    }
  }

  lemma {:induction false} ClausesMayLeave(o: Oracle, clauses: seq<Clause>, m: Store, fuel: nat)
    ensures RunClauses(o, clauses, m, fuel).Fell? ==> MayLeaveFirst(clauses, Falls)
    ensures RunClauses(o, clauses, m, fuel).Continued? ==> MayLeaveFirst(clauses, Continues)
    ensures !RunClauses(o, clauses, m, fuel).Broke?
    decreases clauses, 0, 0
  {
    hide RunBody, MayEndList;
    if clauses != [] {
      ListsMayEnd(o, clauses[0].body, m, fuel);
      var run := RunBody(o, clauses[0].body, m, fuel);
      if run.Fell? { ClausesMayLeave(o, clauses[1..], run.store, fuel); }
    }
  }

  // ----- the fragment -----

  /** A list holds no break that leaves it, or one that is last in a loop body, or is a case body. */
  datatype Position = NoBreak | TailBreak | CaseBreak

  /** Continue leaves the region that is looked at, unless a loop of the region takes it up. */
  datatype Allowed = Allowed(breaks: Position, continues: bool)

  function AtHead(a: Allowed, last: bool): Allowed {
    if a.breaks == TailBreak && !last then a.(breaks := NoBreak) else a
  }

  /** The list gets to a continue or goto of its own before a break of its own. */
  predicate ReachesJump(body: seq<Stmt>) {
    body != [] && !body[0].Break? && (IsJump(body[0]) || ReachesJump(body[1..]))
  }

  predicate Quiet(o: Oracle, l: Option<Leaf>) {
    l.Some? ==> !o.retargets(l.value)
  }

  /** Where the code leaves the aliases alone, nothing retargets a pointer. */
  predicate Regular(o: Oracle, stmt: Stmt, a: Allowed)
    decreases stmt, 0
  {
    match stmt
    case Effect(l) => a.breaks == CaseBreak && o.assigns(l) ==> !o.retargets(l)
    case If(init, _, thn, els) =>
      Quiet(o, init) && RegularAll(o, thn, a) && (match els
        case NoElse => true
        case ElseBlock(body) => RegularAll(o, body, a)
        case ElseIf(s) => Regular(o, s, a))
    case Loop(_, _, _, body) => RegularAll(o, body, Allowed(TailBreak, false))
    case Block(body) => RegularAll(o, body, a)
    case Switch(before, _, clauses) => Quiet(o, before) && RegularClauses(o, clauses, a.continues)
    case Break => a.breaks != NoBreak
    case Continue => a.continues
    case Goto => true
    case Return => true
  }

  /** In a loop body a break runs on through what follows; in a case body a jump drops the breaks before it. */
  predicate RegularAll(o: Oracle, body: seq<Stmt>, a: Allowed)
    decreases body, 0
  {
    body == [] || (
      && Regular(o, body[0], AtHead(a, |body| == 1)) && RegularAll(o, body[1..], a)
      && (a.breaks == CaseBreak && !body[0].Break? && MayEnd(body[0], Breaks) ==> !ReachesJump(body[1..])))
  }

  predicate RegularClauses(o: Oracle, clauses: seq<Clause>, continues: bool)
    decreases clauses, 0
  {
    clauses == [] || (
      && RegularAll(o, clauses[0].body, Allowed(CaseBreak, continues))
      && RegularClauses(o, clauses[1..], continues))
  }

  /** Being regular only depends on which leaves assign and retarget. */
  lemma {:induction false} RegularStays(o: Oracle, q: Oracle, clauses: seq<Clause>, continues: bool)
    requires o.assigns == q.assigns && o.retargets == q.retargets && RegularClauses(o, clauses, continues)
    ensures RegularClauses(q, clauses, continues)
    decreases clauses, 1
  {
    if clauses != [] {
      RegularListStays(o, q, clauses[0].body, Allowed(CaseBreak, continues));
      RegularStays(o, q, clauses[1..], continues);
    }
  }

  lemma {:induction false} RegularListStays(o: Oracle, q: Oracle, body: seq<Stmt>, a: Allowed)
    requires o.assigns == q.assigns && o.retargets == q.retargets && RegularAll(o, body, a)
    ensures RegularAll(q, body, a)
    decreases body, 0
  {
    hide Regular;
    if body != [] {
      RegularStmtStays(o, q, body[0], AtHead(a, |body| == 1));
      RegularListStays(o, q, body[1..], a);
    }
  }

  lemma {:induction false} RegularStmtStays(o: Oracle, q: Oracle, stmt: Stmt, a: Allowed)
    requires o.assigns == q.assigns && o.retargets == q.retargets && Regular(o, stmt, a)
    ensures Regular(q, stmt, a)
    decreases stmt, 1
  {
    hide RegularAll, RegularClauses;
    match stmt
    case If(_, _, thn, els) =>
      RegularListStays(o, q, thn, a);
      match els {
        case NoElse =>
        case ElseBlock(body) => RegularListStays(o, q, body, a);
        case ElseIf(s) => RegularStmtStays(o, q, s, a);
      }
    case Loop(_, _, _, body) => RegularListStays(o, q, body, Allowed(TailBreak, false));
    case Block(body) => RegularListStays(o, q, body, a);
    case Switch(_, _, clauses) => RegularStays(o, q, clauses, a.continues);
    case _ =>
  }

  predicate WithoutJumps(stmt: Stmt)
    decreases stmt, 1
  {
    match stmt
    case If(_, _, thn, els) =>
      NoneJumps(thn) && (match els
        case NoElse => true
        case ElseBlock(body) => NoneJumps(body)
        case ElseIf(s) => WithoutJumps(s))
    case Loop(_, _, _, body) => NoneJumps(body)
    case Block(body) => NoneJumps(body)
    case Switch(_, _, clauses) => forall c | c in clauses :: NoneJumps(c.body)
    case _ => stmt.Effect? || stmt.Return?
  }

  predicate NoneJumps(body: seq<Stmt>)
    decreases body, 0
  {
    forall s | s in body :: WithoutJumps(s)
  }

  /** Statements without break, continue and goto, whose leaves keep the aliases, are regular everywhere. */
  lemma {:induction false} NoJumpIsRegular(o: Oracle, stmt: Stmt, a: Allowed)
    requires WithoutJumps(stmt) && forall l: Leaf :: !o.retargets(l)
    ensures Regular(o, stmt, a) && !MayEnd(stmt, Breaks)
    decreases stmt, 1
  {
    hide RegularAll, RegularClauses, MayEndList, MayLeave, NoneJumps;
    match stmt
    case If(_, _, thn, els) =>
      NoJumpsAreRegular(o, thn, a);
      match els {
        case NoElse =>
        case ElseBlock(body) => NoJumpsAreRegular(o, body, a);
        case ElseIf(s) => NoJumpIsRegular(o, s, a);
      }
    case Loop(_, _, _, body) => NoJumpsAreRegular(o, body, Allowed(TailBreak, false));
    case Block(body) => NoJumpsAreRegular(o, body, a);
    case Switch(_, _, clauses) =>
      ClausesAreRegular(o, clauses, a.continues);
      assert !MayLeave(clauses, Breaks) by { NoBreakLeaves(clauses); }
    case _ =>
  }

  lemma {:induction false} NoJumpsAreRegular(o: Oracle, body: seq<Stmt>, a: Allowed)
    requires NoneJumps(body) && forall l: Leaf :: !o.retargets(l)
    ensures RegularAll(o, body, a) && !MayEndList(body, Breaks)
    decreases body, 0
  {
    hide Regular, MayEnd, WithoutJumps;
    if body != [] {
      NoJumpIsRegular(o, body[0], AtHead(a, |body| == 1));
      NoJumpsAreRegular(o, body[1..], a);
    }
  }

  lemma {:induction false} ClausesAreRegular(o: Oracle, clauses: seq<Clause>, continues: bool)
    requires (forall c | c in clauses :: NoneJumps(c.body)) && forall l: Leaf :: !o.retargets(l)
    ensures RegularClauses(o, clauses, continues)
    decreases clauses, 0
  {
    hide RegularAll, NoneJumps;
    if clauses != [] {
      assert clauses[0] in clauses;
      NoJumpsAreRegular(o, clauses[0].body, Allowed(CaseBreak, continues));
      ClausesAreRegular(o, clauses[1..], continues);
    }
  }

  /** A break ends the switch it is in. */
  lemma NoBreakLeaves(clauses: seq<Clause>)
    ensures !MayLeave(clauses, Breaks)
  {
    forall i: nat | i < |clauses| ensures !MayLeaveFirst(clauses[i..], Breaks) { NoBreakLeavesFirst(clauses[i..]); }
  }

  lemma {:induction false} NoBreakLeavesFirst(clauses: seq<Clause>)
    ensures !MayLeaveFirst(clauses, Breaks)
  {
    if clauses != [] { NoBreakLeavesFirst(clauses[1..]); }
  }

  // ----- what every state on the way keeps -----

  ghost predicate FlowsIn(flows: seq<Flow>, i: iset<State>) {
    forall f | f in flows :: f.state in i
  }

  lemma {:induction false} ExitBlockKeeps(
      o: Oracle, body: seq<Stmt>, states: seq<State>, breakExits: bool, i: iset<State>)
    requires Kept(o, i) && AllIn(states, i)
    ensures var r := ExitBlock(o, body, states, breakExits);
            AllIn(r.states, i) && (Narrow(i) ==> r.Within())
    decreases body, 0, 0
  {
    hide ExitStmt, Kept, Narrow, Few, Dedupe;
    if body != [] && states != [] {
      ExitEachKeeps(o, body[0], states, breakExits, i);
      ExitBlockKeeps(o, body[1..], ExitEach(o, body[0], states, breakExits).states, breakExits, i);
    }
  }

  lemma {:induction false} ExitEachKeeps(
      o: Oracle, stmt: Stmt, states: seq<State>, breakExits: bool, i: iset<State>)
    requires Kept(o, i) && AllIn(states, i)
    ensures var r := ExitEach(o, stmt, states, breakExits); AllIn(r.states, i) && (Narrow(i) ==> r.Within())
    decreases stmt, 2, |states|
  {
    hide ExitStmt, Kept, Narrow;
    if states != [] {
      assert states[0] in states;
      ExitStmtKeeps(o, stmt, states[0], breakExits, i);
      ExitEachKeeps(o, stmt, states[1..], breakExits, i);
    }
  }

  lemma InitKeeps(o: Oracle, l: Option<Leaf>, s: State, i: iset<State>)
    requires Kept(o, i) && s in i
    ensures Apply(o, l, s) in i && ApplyInit(o, l, s) in i
  {
  }

  lemma {:induction false} ExitStmtKeeps(o: Oracle, stmt: Stmt, s: State, breakExits: bool, i: iset<State>)
    requires Kept(o, i) && s in i
    ensures var r := ExitStmt(o, stmt, s, breakExits); AllIn(r.states, i) && (Narrow(i) ==> r.Within())
    decreases stmt, 1, 0
  {
    hide ExitBlock, ExitEach, CondStates, LoopExits, SwitchExits, Kept, Narrow, Few, Dedupe, Apply, ApplyInit;
    match stmt
    case Effect(l) =>
      InitKeeps(o, Some(l), s, i);
      ApplyLeaf(o, l, s);
    case If(init, cond, thn, els) =>
      InitKeeps(o, init, s, i);
      var entry := ApplyInit(o, init, s);
      var split := CondStates(o, cond, entry);
      CondKeeps(o, cond, entry, i);
      ExitBlockKeeps(o, thn, split.whenTrue, breakExits, i);
      var elseExits := match els
        case NoElse => Exits(split.whenFalse, 0, true)
        case ElseBlock(body) => ExitBlock(o, body, split.whenFalse, breakExits)
        case ElseIf(x) => ExitEach(o, x, split.whenFalse, breakExits);
      match els {
        case NoElse =>
        case ElseBlock(body) => ExitBlockKeeps(o, body, split.whenFalse, breakExits, i);
        case ElseIf(x) => ExitEachKeeps(o, x, split.whenFalse, breakExits, i);
      }
      DedupeIn(o, i, ExitBlock(o, thn, split.whenTrue, breakExits).states + elseExits.states);
    case Loop(init, _, _, _) =>
      InitKeeps(o, init, s, i);
      LoopKeeps(o, stmt, Apply(o, init, s), Apply(o, init, s), LOOP_ROUNDS, i);
    case Block(body) => ExitBlockKeeps(o, body, [s], breakExits, i);
    case Switch(before, tagless, clauses) =>
      InitKeeps(o, before, s, i);
      SwitchKeeps(o, clauses, ApplyInit(o, before, s), tagless, i);
    case _ =>
  }

  lemma ApplyLeaf(o: Oracle, l: Leaf, s: State)
    ensures Apply(o, Some(l), s) == o.apply(l, s)
  {
  }

  lemma TripKeeps(o: Oracle, loop: Stmt, entry: State, head: State, i: iset<State>)
    requires loop.Loop? && Kept(o, i) && entry in i && head in i
    ensures var t := TripFrom(o, loop, head);
            && AllIn(t.whenFalse, i) && AllIn(t.iterations.states, i) && AllIn(Leaving(t).states, i)
            && Union([entry] + Posts(o, loop.post, t.iterations.states)) in i
            && (Narrow(i) ==> t.iterations.Within() && Leaving(t).Within())
    decreases loop, 0, 0
  {
    hide ExitBlock, CondStates, Narrow, Few, Dedupe, Apply;
    CondKeeps(o, loop.cond, head, i);
    ExitBlockKeeps(o, loop.body, CondStates(o, loop.cond, head).whenTrue, true, i);
    var t := TripFrom(o, loop, head);
    DedupeIn(o, i, t.whenFalse + t.iterations.states);
    var posts := Posts(o, loop.post, t.iterations.states);
    forall k | 0 <= k < |posts| ensures posts[k] in i {
      assert t.iterations.states[k] in t.iterations.states;
      InitKeeps(o, loop.post, t.iterations.states[k], i);
    }
    assert AllIn([entry] + posts, i);
  }

  lemma {:induction false} LoopKeeps(
      o: Oracle, loop: Stmt, entry: State, head: State, rounds: nat, i: iset<State>)
    requires loop.Loop? && Kept(o, i) && entry in i && head in i
    ensures var r := LoopExits(o, loop, entry, head, rounds);
            AllIn(r.states, i) && (Narrow(i) ==> r.Within())
    decreases loop, 0, rounds + 1
  {
    hide TripFrom, Kept, Union, Posts, Leaving;
    TripKeeps(o, loop, entry, head, i);
    if rounds > 0 {
      LoopKeeps(o, loop, entry, Union([entry] + Posts(o, loop.post, TripFrom(o, loop, head).iterations.states)),
                rounds - 1, i);
    }
  }

  lemma {:induction false} WalkKeeps(o: Oracle, exprs: seq<Leaf>, s: State, tagless: bool, i: iset<State>)
    requires Kept(o, i) && s in i
    ensures var w := WalkExprs(o, exprs, s, tagless); AllIn(w.selected, i) && w.current in i
  {
    if exprs != [] {
      var next := o.apply(exprs[0], s);
      WalkKeeps(o, exprs[1..], next, tagless, i);
    }
  }

  lemma {:induction false} WalksKeep(
      o: Oracle, clauses: seq<Clause>, s: State, live: bool, tagless: bool, i: iset<State>)
    requires Kept(o, i) && s in i
    ensures var r := WalkClauses(o, clauses, s, live, tagless);
            r.1 in i && forall k | 0 <= k < |r.0| :: AllIn(r.0[k], i)
  {
    hide WalkExprs, Kept;
    if clauses != [] {
      var plain := clauses[0].exprs.None? || !live;
      if !plain { WalkKeeps(o, clauses[0].exprs.value, s, tagless, i); }
      var w := if plain then Walk([], s, live) else WalkExprs(o, clauses[0].exprs.value, s, tagless);
      WalksKeep(o, clauses[1..], w.current, w.live, tagless, i);
    }
  }

  lemma {:induction false} FlowBodyKeeps(o: Oracle, body: seq<Stmt>, flows: seq<Flow>, i: iset<State>)
    requires Kept(o, i) && FlowsIn(flows, i)
    ensures var r := FlowBody(o, body, flows); FlowsIn(r.flows, i) && (Narrow(i) ==> r.Within())
    decreases body, 0, 0
  {
    hide FlowStmt, FlowEach, Kept, Narrow;
    if body != [] && !body[0].Break? && !IsJump(body[0]) {
      FlowEachKeeps(o, body[0], flows, i);
      FlowBodyKeeps(o, body[1..], FlowEach(o, body[0], flows).flows, i);
    }
  }

  lemma {:induction false} FlowEachKeeps(o: Oracle, stmt: Stmt, flows: seq<Flow>, i: iset<State>)
    requires Kept(o, i) && FlowsIn(flows, i)
    ensures var r := FlowEach(o, stmt, flows); FlowsIn(r.flows, i) && (Narrow(i) ==> r.Within())
    decreases stmt, 3, |flows|
  {
    hide FlowStmt, Kept, Narrow;
    if flows != [] {
      assert flows[0] in flows;
      if !flows[0].exited { FlowStmtKeeps(o, stmt, flows[0].state, i); }
      FlowEachKeeps(o, stmt, flows[1..], i);
    }
  }

  lemma EnteringIn(states: seq<State>, i: iset<State>)
    requires AllIn(states, i)
    ensures FlowsIn(Entering(states), i)
  {
  }

  lemma {:induction false} FlowStmtKeeps(o: Oracle, stmt: Stmt, s: State, i: iset<State>)
    requires Kept(o, i) && s in i
    ensures var r := FlowStmt(o, stmt, s); FlowsIn(r.flows, i) && (Narrow(i) ==> r.Within())
    decreases stmt, 2, 0
  {
    hide FlowBody, FlowEach, CondStates, ExitStmt, Narrow, Entering, ApplyInit;
    match stmt
    case Effect(l) =>
    case If(init, cond, thn, els) =>
      hide Kept;
      InitKeeps(o, init, s, i);
      var split := CondStates(o, cond, ApplyInit(o, init, s));
      CondKeeps(o, cond, ApplyInit(o, init, s), i);
      EnteringIn(split.whenTrue, i);
      EnteringIn(split.whenFalse, i);
      FlowBodyKeeps(o, thn, Entering(split.whenTrue), i);
      match els {
        case NoElse =>
        case ElseBlock(body) => FlowBodyKeeps(o, body, Entering(split.whenFalse), i);
        case ElseIf(x) => FlowEachKeeps(o, x, Entering(split.whenFalse), i);
      }
    case Block(body) => FlowBodyKeeps(o, body, [Flow(s, false)], i);
    case Loop(_, _, _, _) => ExitStmtKeeps(o, stmt, s, false, i);
    case Switch(_, _, _) => ExitStmtKeeps(o, stmt, s, false, i);
    case _ =>
  }

  lemma {:induction false} FlowStatesIn(flows: seq<Flow>, exited: bool, i: iset<State>)
    requires FlowsIn(flows, i)
    ensures AllIn(StatesOf(flows, exited), i) && AllIn(AllStates(flows), i)
  {
    if flows != [] {
      assert flows[0] in flows;
      FlowStatesIn(flows[1..], exited, i);
    }
  }

  lemma {:induction false} ClausesKeep(
      o: Oracle, clauses: seq<Clause>, selected: seq<seq<State>>, falling: seq<State>, remaining: seq<State>,
      i: iset<State>)
    requires |selected| == |clauses| && Kept(o, i) && AllIn(falling, i) && AllIn(remaining, i)
    requires forall k | 0 <= k < |selected| :: AllIn(selected[k], i)
    ensures var r := ClauseExits(o, clauses, selected, falling, remaining);
            AllIn(r.states, i) && (Narrow(i) ==> r.Within())
    decreases clauses, 0, 0
  {
    hide FlowBody, Entering, StatesOf, AllStates, Kept, Narrow;
    if clauses != [] {
      EnteringIn(selected[0] + falling, i);
      FlowBodyKeeps(o, clauses[0].body, Entering(selected[0] + falling), i);
      var flows := FlowBody(o, clauses[0].body, Entering(selected[0] + falling)).flows;
      FlowStatesIn(flows, true, i);
      FlowStatesIn(flows, false, i);
      var next := if clauses[0].fallsThrough then StatesOf(flows, false) else [];
      ClausesKeep(o, clauses[1..], selected[1..], next, remaining, i);
    }
  }

  lemma {:induction false} SwitchKeeps(o: Oracle, clauses: seq<Clause>, s: State, tagless: bool, i: iset<State>)
    requires Kept(o, i) && s in i
    ensures var r := SwitchExits(o, clauses, s, tagless); AllIn(r.states, i) && (Narrow(i) ==> r.Within())
    decreases clauses, 1, 0
  {
    hide ClauseExits, WalkClauses, Kept, Narrow;
    WalksKeep(o, clauses, s, true, tagless, i);
    var (selected, remaining) := Selected(o, clauses, s, tagless);
    ClausesKeep(o, clauses, selected, [], remaining, i);
  }
}
