/**
 Statements over sets of states in the code's own form: loops over statements
 and states, a loop head that moves, and fall-through states carried from
 clause to clause (checks/ps1006.go:2369-2609). Every method computes exactly
 the states of the function of SwitchFlow with the same role.
 */
module SwitchInterpreter {
  import opened ConditionFlow
  import opened DependencyState
  import opened SwitchFlow
  import opened Wrappers

  /** ps1006DependencyExitStatesForBlock. */
  method ExitStatesForBlock(o: Oracle, body: seq<Stmt>, states: seq<State>, breakExits: bool) returns (out: seq<State>)
    ensures out == ExitBlock(o, body, states, breakExits).states
    decreases body, 0
  {
    hide ExitStmt;
    out := states;
    for i := 0 to |body|
      invariant ExitBlock(o, body[i..], out, breakExits).states == ExitBlock(o, body, states, breakExits).states
    {
      assert body[i..][1..] == body[i + 1..];
      out := ExitStatesForEach(o, body[i], out, breakExits);
      if |out| == 0 { return []; }
    }
  }

  /** One statement for every state. */
  method ExitStatesForEach(o: Oracle, stmt: Stmt, states: seq<State>, breakExits: bool) returns (next: seq<State>)
    ensures next == ExitEach(o, stmt, states, breakExits).states
    decreases stmt, 2
  {
    hide ExitStmt, ExitEach;
    next := [];
    NoStates(o, stmt, breakExits);
    assert states[0..] == states && states[|states|..] == [];
    for k := 0 to |states|
      invariant next + ExitEach(o, stmt, states[k..], breakExits).states == ExitEach(o, stmt, states, breakExits).states
    {
      NextState(o, stmt, states, breakExits, k);
      var exits := ExitStatesForStatement(o, stmt, states[k], breakExits);
      next := next + exits;
    }
  }

  lemma NoStates(o: Oracle, stmt: Stmt, breakExits: bool)
    ensures ExitEach(o, stmt, [], breakExits).states == []
  {
  }

  lemma NextState(o: Oracle, stmt: Stmt, states: seq<State>, breakExits: bool, k: nat)
    requires k < |states|
    ensures ExitEach(o, stmt, states[k..], breakExits).states ==
            ExitStmt(o, stmt, states[k], breakExits).states + ExitEach(o, stmt, states[k + 1..], breakExits).states
  {
    hide ExitStmt;
    assert states[k..][1..] == states[k + 1..];
  }

  /** ps1006DependencyExitStatesForStatement and ps1006DependencyExitStatesForIf. */
  method ExitStatesForStatement(o: Oracle, stmt: Stmt, state: State, breakExits: bool) returns (out: seq<State>)
    ensures out == ExitStmt(o, stmt, state, breakExits).states
    decreases stmt, 1
  {
    hide ExitBlock, ExitEach, SwitchExits, LoopExits, Dedupe;
    match stmt
    case Effect(l) => out := [o.apply(l, state)];
    case If(init, cond, thn, els) =>
      var split := CondStates(o, cond, ApplyInit(o, init, state));
      var thenStates := ExitStatesForBlock(o, thn, split.whenTrue, breakExits);
      var elseStates := split.whenFalse;
      match els {
        case NoElse =>
        case ElseBlock(body) => elseStates := ExitStatesForBlock(o, body, split.whenFalse, breakExits);
        case ElseIf(x) => elseStates := ExitStatesForEach(o, x, split.whenFalse, breakExits);
      }
      out := DedupeDependencyStates(thenStates + elseStates);
    case Loop(init, _, _, _) => out := ExitStatesForLoop(o, stmt, Apply(o, init, state));
    case Block(body) => out := ExitStatesForBlock(o, body, [state], breakExits);
    case Switch(before, tagless, clauses) =>
      out := ExitStatesForCaseClauses(o, clauses, ApplyInit(o, before, state), tagless);
    case Break => out := if breakExits then [state] else [];
    case Continue => out := [];
    case Goto => out := [];
    case Return => out := [];
  }

  /** ps1006DependencyExitStatesForLoop: the head moves until it repeats, at most eight times. */
  method ExitStatesForLoop(o: Oracle, loop: Stmt, entry: State) returns (out: seq<State>)
    requires loop.Loop?
    ensures out == LoopExits(o, loop, entry, entry, LOOP_ROUNDS).states
    decreases loop, 0
  {
    hide ExitBlock, Dedupe, Union, CondStates;
    var head := entry;
    for round := 0 to LOOP_ROUNDS
      invariant LoopExits(o, loop, entry, head, LOOP_ROUNDS - round).states ==
                LoopExits(o, loop, entry, entry, LOOP_ROUNDS).states
    {
      var split := CondStates(o, loop.cond, head);
      var iterations := ExitStatesForBlock(o, loop.body, split.whenTrue, true);
      var next := ApplyPost(o, loop.post, entry, iterations);
      var merged := UnionDependencyState(next);
      if Key(merged) == Key(head) {
        out := DedupeDependencyStates(split.whenFalse + iterations);
        return;
      }
      head := merged;
    }
    var split := CondStates(o, loop.cond, head);
    var iterations := ExitStatesForBlock(o, loop.body, split.whenTrue, true);
    out := DedupeDependencyStates(split.whenFalse + iterations);
  }

  /** The entry, for no trip at all, and every iteration after the post statement. */
  method ApplyPost(o: Oracle, post: Option<Leaf>, entry: State, iterations: seq<State>) returns (next: seq<State>)
    ensures next == [entry] + Posts(o, post, iterations)
  {
    next := [entry];
    for k := 0 to |iterations|
      invariant next == [entry] + Posts(o, post, iterations)[..k]
    {
      next := next + [Apply(o, post, iterations[k])];
    }
  }

  /** ps1006DependencyExitStatesForCaseClauses. */
  method ExitStatesForCaseClauses(
      o: Oracle, clauses: seq<Clause>, state: State, tagless: bool) returns (states: seq<State>)
    ensures states == SwitchExits(o, clauses, state, tagless).states
    decreases clauses, 1
  {
    hide FlowBody, Entering, StatesOf, AllStates, Selected, ClauseExits, SwitchExits;
    SwitchIs(o, clauses, state, tagless);
    var selected, remaining := SelectedDependencyStates(o, clauses, state, tagless);
    states := [];
    assert clauses[0..] == clauses && selected[0..] == selected && clauses[|clauses|..] == []
      && selected[|clauses|..] == [];
    var fallthroughStates: seq<State> := [];
    for i := 0 to |clauses|
      invariant states + ClauseExits(o, clauses[i..], selected[i..], fallthroughStates, remaining).states ==
                SwitchExits(o, clauses, state, tagless).states
    {
      NextClause(o, clauses, selected, fallthroughStates, remaining, i);
      var flows := FlowsForCaseBody(o, clauses[i].body, Entering(selected[i] + fallthroughStates));
      var out: seq<State>;
      if clauses[i].fallsThrough {
        out, fallthroughStates := SplitFlows(flows);
      } else {
        out, fallthroughStates := AllStates(flows), [];
      }
      states := states + out;
    }
    NoClauses(o, fallthroughStates, remaining);
    states := states + remaining + fallthroughStates;
  }

  lemma SwitchIs(o: Oracle, clauses: seq<Clause>, state: State, tagless: bool)
    ensures var (selected, remaining) := Selected(o, clauses, state, tagless);
            SwitchExits(o, clauses, state, tagless) == ClauseExits(o, clauses, selected, [], remaining)
  {
  }

  lemma NoClauses(o: Oracle, falling: seq<State>, remaining: seq<State>)
    ensures ClauseExits(o, [], [], falling, remaining).states == remaining + falling
  {
  }

  lemma NextClause(
      o: Oracle, clauses: seq<Clause>, selected: seq<seq<State>>, falling: seq<State>, remaining: seq<State>, i: nat)
    requires i < |clauses| == |selected|
    ensures var flows := FlowBody(o, clauses[i].body, Entering(selected[i] + falling)).flows;
            var next := if clauses[i].fallsThrough then StatesOf(flows, false) else [];
            ClauseExits(o, clauses[i..], selected[i..], falling, remaining).states ==
            (if clauses[i].fallsThrough then StatesOf(flows, true) else AllStates(flows)) +
            ClauseExits(o, clauses[i + 1..], selected[i + 1..], next, remaining).states
  {
    hide FlowBody, Entering, StatesOf, AllStates;
    assert clauses[i..][1..] == clauses[i + 1..] && selected[i..][1..] == selected[i + 1..];
  }

  /** Flows that have left the switch, and flows that fall into the next clause. */
  method SplitFlows(flows: seq<Flow>) returns (out: seq<State>, next: seq<State>)
    ensures out == StatesOf(flows, true) && next == StatesOf(flows, false)
  {
    out, next := [], [];
    for k := 0 to |flows|
      invariant out + StatesOf(flows[k..], true) == StatesOf(flows, true)
      invariant next + StatesOf(flows[k..], false) == StatesOf(flows, false)
    {
      assert flows[k..][1..] == flows[k + 1..];
      if flows[k].exited { out := out + [flows[k].state]; } else { next := next + [flows[k].state]; }
    }
  }

  /** ps1006DependencyFlowsForCaseBody. */
  method FlowsForCaseBody(o: Oracle, body: seq<Stmt>, entering: seq<Flow>) returns (flows: seq<Flow>)
    ensures flows == FlowBody(o, body, entering).flows
    decreases body, 0
  {
    hide FlowStmt;
    flows := entering;
    for i := 0 to |body|
      invariant FlowBody(o, body[i..], flows).flows == FlowBody(o, body, entering).flows
    {
      assert body[i..][1..] == body[i + 1..];
      if body[i].Break? {
        return seq(|flows|, k requires 0 <= k < |flows| => flows[k].(exited := true));
      }
      if IsJump(body[i]) { return []; }
      flows := FlowsForEach(o, body[i], flows);
      if |flows| == 0 { return []; }
    }
  }

  /** One statement for every flow that is still inside. */
  method FlowsForEach(o: Oracle, stmt: Stmt, flows: seq<Flow>) returns (next: seq<Flow>)
    ensures next == FlowEach(o, stmt, flows).flows
    decreases stmt, 4
  {
    hide FlowStmt, FlowEach;
    next := [];
    NoFlows(o, stmt);
    assert flows[0..] == flows && flows[|flows|..] == [];
    for k := 0 to |flows|
      invariant next + FlowEach(o, stmt, flows[k..]).flows == FlowEach(o, stmt, flows).flows
    {
      NextFlow(o, stmt, flows, k);
      if flows[k].exited {
        next := next + [flows[k]];
      } else {
        var more := FlowsForCaseStatement(o, stmt, flows[k].state);
        next := next + more;
      }
    }
  }

  lemma NoFlows(o: Oracle, stmt: Stmt)
    ensures FlowEach(o, stmt, []).flows == []
  {
  }

  lemma NextFlow(o: Oracle, stmt: Stmt, flows: seq<Flow>, k: nat)
    requires k < |flows|
    ensures FlowEach(o, stmt, flows[k..]).flows ==
            (if flows[k].exited then [flows[k]] else FlowStmt(o, stmt, flows[k].state).flows) +
              FlowEach(o, stmt, flows[k + 1..]).flows
  {
    hide FlowStmt;
    assert flows[k..][1..] == flows[k + 1..];
  }

  /** ps1006DependencyFlowsForCaseStatement. */
  method FlowsForCaseStatement(o: Oracle, stmt: Stmt, state: State) returns (flows: seq<Flow>)
    ensures flows == FlowStmt(o, stmt, state).flows
    decreases stmt, 3
  {
    hide FlowBody, FlowEach, ExitStmt, Entering;
    match stmt
    case Effect(l) => flows := [Flow(ApplyInCase(o, l, state), false)];
    case If(init, cond, thn, els) =>
      var split := CondStates(o, cond, ApplyInit(o, init, state));
      var thenFlows := FlowsForCaseBody(o, thn, Entering(split.whenTrue));
      var elseFlows := Entering(split.whenFalse);
      match els {
        case NoElse =>
        case ElseBlock(body) => elseFlows := FlowsForCaseBody(o, body, Entering(split.whenFalse));
        case ElseIf(x) => elseFlows := FlowsForEach(o, x, Entering(split.whenFalse));
      }
      flows := thenFlows + elseFlows;
    case Block(body) => flows := FlowsForCaseBody(o, body, [Flow(state, false)]);
    case Break => flows := [Flow(state, true)];
    case Continue => flows := [];
    case Goto => flows := [];
    case Return => flows := [];
    case Loop(_, _, _, _) =>
      var exits := ExitStatesForStatement(o, stmt, state, false);
      flows := AsFlows(Exits(exits, 0, true)).flows;
    case Switch(_, _, _) =>
      var exits := ExitStatesForStatement(o, stmt, state, false);
      flows := AsFlows(Exits(exits, 0, true)).flows;
  }
}
