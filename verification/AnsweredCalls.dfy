/**
 The ordered transfer gives up for want of budget only: calls of well-formed
 bodies without loads and without recursion are answered as far as the budget
 reaches (checks/ps1006.go:962-1525).
 */
module AnsweredCalls {
  import opened DependencyState
  import opened GoBodies
  import opened OrderedSoundness
  import opened OrderedTransfer
  import opened Precision
  import opened SharpLoads
  import opened Wrappers

  type Stmt = GoBodies.Stmt

  /** The declared number of results of each function. */
  type Counts = nat -> nat

  /** Callees come later in the program, so that none can be active, and have the same number of results. */
  predicate ProperCall(p: Program, n: Counts, f: int, call: Call) {
    && call.callees != []
    && forall k | k in call.callees :: f < k < |p.functions| && n(k) == n(call.callees[0])
  }

  predicate ProperAssign(kind: AssignOp, lhs: seq<Lhs>, rhs: seq<Expr>) {
    |lhs| == |rhs| > 0 && (kind.Compound? ==> |lhs| == 1)
  }

  predicate ProperHeader(stmt: Option<Stmt>) {
    match stmt
    case None => true
    case Some(Empty) => true
    case Some(Assign(kind, lhs, rhs)) => ProperAssign(kind, lhs, rhs)
    case Some(IncDec(_, _)) => true
    case Some(Declare(specs)) => forall d | d in specs :: ProperAssign(Plain, d.names, d.values)
    case _ => false
  }

  predicate ProperOperand(p: Program, n: Counts, f: int, operand: Operand) {
    operand.CallResult? ==> ProperCall(p, n, f, operand.call) && n(operand.call.callees[0]) > 0
  }

  predicate ProperStmt(p: Program, n: Counts, own: set<Object>, f: int, stmt: Stmt, last: bool)
    decreases stmt, 1
  {
    match stmt
    case Print(_) => true
    case CallStmt(call) => ProperCall(p, n, f, call)
    case Block(body) => ProperBody(p, n, own, f, body)
    case For(init, cond, post, body) =>
      && ProperHeader(init) && ProperHeader(post) && (cond.Some? ==> Shaped(p, own, cond.value.e, true))
      && ProperBody(p, n, own, f, body)
    case Return(results) => last && forall r | r in results :: ProperOperand(p, n, f, r)
    case _ => ProperHeader(Some(stmt))
  }

  predicate ProperBody(p: Program, n: Counts, own: set<Object>, f: int, body: seq<Stmt>)
    decreases body, 0
  {
    body == [] || (ProperStmt(p, n, own, f, body[0], |body| == 1) && ProperBody(p, n, own, f, body[1..]))
  }

  function OperandCount(n: Counts, operand: Operand): nat {
    if operand.CallResult? && operand.call.callees != [] then n(operand.call.callees[0]) else 1
  }

  function ResultCount(n: Counts, results: seq<Operand>): nat {
    if results == [] then 0 else OperandCount(n, results[0]) + ResultCount(n, results[1..])
  }

  function StmtCount(n: Counts, stmt: Stmt): nat {
    if stmt.Return? then ResultCount(n, stmt.results) else 0
  }

  function BodyCount(n: Counts, body: seq<Stmt>): nat {
    if body == [] then 0 else StmtCount(n, body[0]) + BodyCount(n, body[1..])
  }

  /** Without loads, and every body returns the number of results it declares. */
  ghost predicate ProperProgram(p: Program, n: Counts) {
    ShapedProgram(p, true) && forall f: nat | f < |p.functions| ::
      ProperBody(p, n, Params(p, f), f, p.functions[f].body) && BodyCount(n, p.functions[f].body) == n(f)
  }

  ghost predicate Known(p: Program, env: Env, own: set<Object>) {
    env.Keys == own && forall o | o in env :: IsFormal(p, o) && env[o].dependency.known
  }

  ghost predicate Before(active: set<nat>, f: int) {
    forall k | k in active :: k <= f
  }

  predicate OutOfBudget(r: Result) {
    r.Fail? ==> r.budget == 0
  }

  // ----- expressions and assignments -----

  lemma {:induction false} DirectFollowsNothing(e: Expr)
    requires Direct(e)
    ensures Followed(e) == {}
  {
    match e
    case Unary(_, x) => DirectFollowsNothing(x);
    case Convert(_, x) => DirectFollowsNothing(x);
    case Binary(_, l, r) => DirectFollowsNothing(l); DirectFollowsNothing(r);
    case _ =>
  }

  lemma DirectIsKnown(p: Program, env: Env, own: set<Object>, s: State, e: Expr)
    requires Direct(e) && Known(p, env, own)
    ensures ExprDependency(p, env, s, e).known
  {
    DirectFollowsNothing(e);
    KnownIff(p, env, s, e);
  }

  lemma AssignApplies(
      p: Program, env: Env, own: set<Object>, s: State, kind: AssignOp, lhs: seq<Lhs>, rhs: seq<Expr>)
    requires ShapedAssign(p, own, kind, lhs, rhs, true) && ProperAssign(kind, lhs, rhs) && Known(p, env, own)
    ensures ApplyAssignment(p, env, s, kind, lhs, rhs).Applied?
  {
    hide ExprDependency, Scoped, Depth;
    var targets := TargetsOf(p, env, s, lhs);
    forall i | 0 <= i < |lhs| ensures targets[i] != Unresolved { assert lhs[i] in lhs; }
    forall i | 0 <= i < |rhs| ensures ExprDependency(p, env, s, rhs[i]).known {
      assert rhs[i] in rhs;
      DirectIsKnown(p, env, own, s, rhs[i]);
    }
  }

  lemma {:induction false} SpecsApply(p: Program, env: Env, own: set<Object>, s: State, specs: seq<Spec>)
    requires forall d | d in specs :: ShapedAssign(p, own, Plain, d.names, d.values, true)
    requires (forall d | d in specs :: ProperAssign(Plain, d.names, d.values)) && Known(p, env, own)
    ensures ApplySpecs(p, env, s, specs).Applied?
    decreases |specs|
  {
    hide ApplyAssignment, ShapedAssign, ProperAssign;
    if specs != [] {
      assert specs[0] in specs;
      AssignApplies(p, env, own, s, Plain, specs[0].names, specs[0].values);
      SpecsApply(p, env, own, ApplyAssignment(p, env, s, Plain, specs[0].names, specs[0].values).state, specs[1..]);
    }
  }

  lemma HeaderApplies(p: Program, env: Env, own: set<Object>, s: State, stmt: Option<Stmt>)
    requires ShapedHeader(p, own, stmt, true) && ProperHeader(stmt) && Known(p, env, own)
    ensures ApplyHeader(p, env, s, stmt).Applied?
  {
    hide ApplyAssignment, ShapedAssign, ProperAssign, ApplySpecs;
    match stmt
    case Some(Assign(kind, lhs, rhs)) => AssignApplies(p, env, own, s, kind, lhs, rhs);
    case Some(Declare(specs)) => SpecsApply(p, env, own, s, specs);
    case _ =>
  }

  // ----- control -----

  lemma {:induction false} BlockAnswers(
      p: Program, n: Counts, own: set<Object>, f: int, body: seq<Stmt>, whole: bool, env: Env, s: State,
      active: set<nat>, budget: nat)
    requires ProperProgram(p, n) && ShapedBody(p, own, body, whole, true) && ProperBody(p, n, own, f, body)
    requires Known(p, env, own) && Before(active, f)
    ensures var r := TransferBlock(p, body, env, s, active, budget);
            OutOfBudget(r) && (r.Done? ==> |r.returned| == BodyCount(n, body))
    decreases budget, 2, |body|
  {
    hide TransferStmt, ShapedStmt, ProperStmt, ProperProgram, Known, Before, StmtCount;
    if body != [] && budget > 0 {
      StmtAnswers(p, n, own, f, body[0], whole, |body| == 1, env, s, active, budget - 1);
      var first := TransferStmt(p, body[0], |body| == 1, env, s, active, budget - 1);
      if first.Done? { BlockAnswers(p, n, own, f, body[1..], whole, env, first.state, active, first.budget); }
    }
  }

  lemma {:induction false} StmtAnswers(
      p: Program, n: Counts, own: set<Object>, f: int, stmt: Stmt, whole: bool, last: bool, env: Env, s: State,
      active: set<nat>, budget: nat)
    requires ProperProgram(p, n) && ShapedStmt(p, own, stmt, whole, true) && ProperStmt(p, n, own, f, stmt, last)
    requires Known(p, env, own) && Before(active, f)
    ensures var r := TransferStmt(p, stmt, last, env, s, active, budget);
            OutOfBudget(r) && (r.Done? ==> |r.returned| == StmtCount(n, stmt))
    decreases budget, 6, 0
  {
    hide TransferCall, TransferBlock, TransferLoop, TransferResults, ApplyHeader, HeaderFits, ExprDependency;
    hide ProperProgram, Known, Before, ShapedBody, ShapedHeader, ShapedAll, ProperBody, ProperCall, ProperAssign;
    hide ResultCount, ArgumentsFit, Scoped;
    match stmt
    case CallStmt(call) => CallAnswers(p, n, own, f, call, env, s, active, budget);
    case Block(body) => BlockAnswers(p, n, own, f, body, false, env, s, active, budget);
    case For(init, cond, post, body) => LoopAnswers(p, n, own, f, init, cond, post, body, env, s, active, budget);
    case Return(results) =>
      ResultsAnswer(p, n, own, f, results, env, s, active, budget);
      forall o | o in results && o.Value? ensures ExprDependency(p, env, s, o.e).known {
        DirectIsKnown(p, env, own, s, o.e);
      }
    case Print(_) =>
    case _ => HeaderApplies(p, env, own, s, Some(stmt));
  }

  lemma {:induction false} ResultsAnswer(
      p: Program, n: Counts, own: set<Object>, f: int, results: seq<Operand>, env: Env, s: State,
      active: set<nat>, budget: nat)
    requires ProperProgram(p, n) && Known(p, env, own) && Before(active, f)
    requires forall r | r in results :: ShapedOperand(p, own, r, true) && ProperOperand(p, n, f, r)
    ensures var r := TransferResults(p, results, env, s, active, budget);
            OutOfBudget(r) && (r.Done? ==> |r.returned| == ResultCount(n, results))
    decreases budget, 5, |results|
  {
    hide TransferOperand, ProperProgram, Known, Before, ShapedOperand, ProperOperand, OperandCount;
    if results != [] {
      assert results[0] in results;
      OperandAnswers(p, n, own, f, results[0], env, s, active, budget);
      var first := TransferOperand(p, results[0], env, s, active, budget);
      if first.Done? { ResultsAnswer(p, n, own, f, results[1..], env, first.state, active, first.budget); }
    }
  }

  lemma {:induction false} OperandAnswers(
      p: Program, n: Counts, own: set<Object>, f: int, operand: Operand, env: Env, s: State, active: set<nat>,
      budget: nat)
    requires ProperProgram(p, n) && ShapedOperand(p, own, operand, true) && ProperOperand(p, n, f, operand)
    requires Known(p, env, own) && Before(active, f)
    ensures var r := TransferOperand(p, operand, env, s, active, budget);
            OutOfBudget(r) && (r.Done? ==> |r.returned| == OperandCount(n, operand))
    decreases budget, 5, 0
  {
    hide TransferCall, ProperProgram, Known, Before, ShapedCall, Snapshot, ScanFits;
    match operand
    case CallResult(call) => CallAnswers(p, n, own, f, call, env, s, active, budget);
    case _ =>
  }

  lemma {:induction false} LoopAnswers(
      p: Program, n: Counts, own: set<Object>, f: int, init: Option<Stmt>, cond: Option<Condition>,
      post: Option<Stmt>, body: seq<Stmt>, env: Env, s: State, active: set<nat>, budget: nat)
    requires ProperProgram(p, n) && Known(p, env, own) && Before(active, f)
    requires ShapedHeader(p, own, init, true) && ShapedHeader(p, own, post, true)
    requires ShapedBody(p, own, body, false, true) && ProperBody(p, n, own, f, body)
    requires ProperHeader(init) && ProperHeader(post) && (cond.Some? ==> Shaped(p, own, cond.value.e, true))
    ensures var r := TransferLoop(p, init, cond, post, body, env, s, active, budget);
            OutOfBudget(r) && (r.Done? ==> r.returned == [])
    decreases budget, 5, 0
  {
    hide ApplyHeader, HeaderFits, TransferRounds, ProperProgram, Known, Before, ShapedHeader, ShapedBody, ProperBody;
    hide ProperHeader, Scoped, ExprDependency;
    HeaderApplies(p, env, own, s, init);
    var a := ApplyHeader(p, env, s, init);
    if cond.Some? { DirectIsKnown(p, env, own, a.state, cond.value.e); }
    RoundsAnswer(p, n, own, f, post, body, env, a.state, a.state, a.written, active, budget, LOOP_ROUNDS);
  }

  /** A nested list does not return. */
  lemma {:induction false} NestedCount(p: Program, own: set<Object>, n: Counts, body: seq<Stmt>)
    requires ShapedBody(p, own, body, false, true)
    ensures BodyCount(n, body) == 0
  {
    if body != [] { NestedCount(p, own, n, body[1..]); }
  }

  lemma {:induction false} RoundsAnswer(
      p: Program, n: Counts, own: set<Object>, f: int, post: Option<Stmt>, body: seq<Stmt>, env: Env,
      entry: State, head: State, written: set<Object>, active: set<nat>, budget: nat, rounds: nat)
    requires ProperProgram(p, n) && Known(p, env, own) && Before(active, f)
    requires ShapedHeader(p, own, post, true) && ProperHeader(post)
    requires ShapedBody(p, own, body, false, true) && ProperBody(p, n, own, f, body)
    ensures OutOfBudget(TransferRounds(p, post, body, env, entry, head, written, active, budget, rounds))
    decreases budget, 4, rounds
  {
    hide TransferBlock, ApplyHeader, HeaderFits, ProperProgram, Known, Before, ShapedHeader, ShapedBody, ProperBody;
    hide ProperHeader, Union, Key;
    if rounds > 0 {
      BlockAnswers(p, n, own, f, body, false, env, head, active, budget);
      NestedCount(p, own, n, body);
      var out := TransferBlock(p, body, env, head, active, budget);
      if out.Done? {
        HeaderApplies(p, env, own, out.state, post);
        var r := TransferRound(p, post, body, env, head, active, budget);
        RoundsAnswer(p, n, own, f, post, body, env, entry, Union([entry, r.state]), written + r.written, active,
                     r.budget, rounds - 1);
      }
    }
  }

  lemma {:induction false} CallAnswers(
      p: Program, n: Counts, own: set<Object>, f: int, call: Call, env: Env, s: State, active: set<nat>, budget: nat)
    requires ProperProgram(p, n) && ShapedCall(p, own, call, true) && ProperCall(p, n, f, call)
    requires Known(p, env, own) && Before(active, f)
    ensures var r := TransferCall(p, call, env, s, active, budget);
            OutOfBudget(r) && (r.Done? ==> |r.returned| == n(call.callees[0]))
    decreases budget, 4, 0
  {
    hide TransferCallees, ProperProgram, Known, Before, ExprDependency, PointerTargets, Scoped, ScanFits, Union, Depth;
    if budget > 0 {
      var bindings := Snapshots(p, env, s, call.args);
      forall b | b in bindings ensures b.dependency.known {
        var i :| 0 <= i < |bindings| && bindings[i] == b;
        assert call.args[i] in call.args;
        DirectIsKnown(p, env, own, s, call.args[i]);
      }
      CalleesAnswer(p, n, f, call.callees, bindings, s, active, n(call.callees[0]), budget - 1);
      var c := TransferCallees(p, call.callees, bindings, s, active, budget - 1);
      if c.CalleesDone? {
        forall r | r in c.returnSets ensures |r| == |c.returnSets[0]| {
          var i :| 0 <= i < |c.returnSets| && c.returnSets[i] == r;
        }
        assert SameArity(c.returnSets, |c.returnSets[0]|);
      }
    }
  }

  lemma {:induction false} CalleesAnswer(
      p: Program, n: Counts, f: int, callees: seq<nat>, bindings: seq<Binding>, s: State, active: set<nat>,
      count: nat, budget: nat)
    requires ProperProgram(p, n) && Before(active, f) && forall b | b in bindings :: b.dependency.known
    requires forall k | k in callees ::
               f < k < |p.functions| && n(k) == count && |p.functions[k].params| == |bindings|
    ensures var r := TransferCallees(p, callees, bindings, s, active, budget);
            && (r.CalleesFail? ==> r.budget == 0)
            && (r.CalleesDone? ==> forall i | 0 <= i < |r.returnSets| :: |r.returnSets[i]| == count)
    decreases budget, 3, |callees|
  {
    hide TransferBlock, ShapedBody, ProperBody, BodyCount;
    if callees != [] {
      var k := callees[0];
      assert k in callees;
      var inside := BindEnv(p.functions[k].params, bindings);
      BodyKnown(p, k, bindings);
      BlockAnswers(p, n, Params(p, k), k, p.functions[k].body, true, inside, s, active + {k}, budget);
      var one := TransferBlock(p, p.functions[k].body, inside, s, active + {k}, budget);
      if one.Done? { CalleesAnswer(p, n, f, callees[1..], bindings, s, active, count, one.budget); }
    }
  }

  lemma BodyKnown(p: Program, k: nat, bindings: seq<Binding>)
    requires ShapedProgram(p, true) && k < |p.functions| && |p.functions[k].params| == |bindings|
    requires forall b | b in bindings :: b.dependency.known
    ensures Known(p, BindEnv(p.functions[k].params, bindings), Params(p, k))
  {
    hide ShapedBody;
    var params := p.functions[k].params;
    BindEnvLookup(params, bindings);
    var inside := BindEnv(params, bindings);
    forall o | o in inside ensures IsFormal(p, o) && inside[o].dependency.known {
      assert o in params;
      var i :| 0 <= i < |params| && params[i] == o;
      assert bindings[i] in bindings;
    }
  }

  /** A call is refused for want of budget only, and an answer has the declared number of results. */
  lemma CallIsAnswered(p: Program, n: Counts, call: Call, initial: State)
    requires ProperProgram(p, n) && ShapedCall(p, {}, call, true) && ProperCall(p, n, -1, call)
    ensures var r := OrderedCall(p, call, initial);
            if r.Fail? then r.budget == 0 else |r.returned| == n(call.callees[0])
  {
    hide TransferCall, ProperProgram, ShapedCall, ProperCall;
    var none: Env := map[];
    CallAnswers(p, n, {}, -1, call, none, initial.(aliases := Some(Tracked(initial))), {}, CALL_BUDGET);
  }

  // ----- the budget in numbers -----

  /** Statements that call nothing and hold no list cost one each. */
  lemma {:induction false} StraightBody(
      p: Program, own: set<Object>, body: seq<Stmt>, env: Env, s: State, active: set<nat>, budget: nat)
    requires Known(p, env, own)
    requires forall d | d in body :: ProperHeader(Some(d)) && ShapedHeader(p, own, Some(d), true)
    ensures var r := TransferBlock(p, body, env, s, active, budget);
            && (r.Done? <==> |body| <= budget)
            && (r.Done? ==> r.budget == budget - |body| && r.returned == [])
    decreases |body|
  {
    hide ShapedHeader, ProperAssign, ApplyHeader, HeaderFits, Known;
    if body != [] && budget > 0 {
      assert body[0] in body;
      HeaderApplies(p, env, own, s, Some(body[0]));
      var first := TransferStmt(p, body[0], |body| == 1, env, s, active, budget - 1);
      StraightBody(p, own, body[1..], env, first.state, active, budget - 1);
    }
  }

  /** A call of a body of such statements is answered exactly when there are at most 511 of them. */
  lemma StraightCallAnsweredIff(p: Program, k: nat, call: Call, initial: State)
    requires ShapedProgram(p, true) && ShapedCall(p, {}, call, true) && call.callees == [k] && k < |p.functions|
    requires forall d | d in p.functions[k].body ::
             ProperHeader(Some(d)) && ShapedHeader(p, Params(p, k), Some(d), true)
    ensures OrderedCall(p, call, initial).Done? <==> |p.functions[k].body| <= 511
  {
    hide TransferBlock, ShapedBody, ShapedHeader, ProperHeader, Union, ExprDependency, PointerTargets, Scoped, Direct;
    var none: Env := map[];
    var start := initial.(aliases := Some(Tracked(initial)));
    var bindings := Snapshots(p, none, start, call.args);
    forall b | b in bindings ensures b.dependency.known {
      var i :| 0 <= i < |bindings| && bindings[i] == b;
      assert call.args[i] in call.args;
      DirectIsKnown(p, none, {}, start, call.args[i]);
    }
    BodyKnown(p, k, bindings);
    var f := p.functions[k];
    var inside := BindEnv(f.params, bindings);
    StraightBody(p, Params(p, k), f.body, inside, start, {} + {k}, 511);
    OneCallee(p, k, bindings, start, 511);
    assert OrderedCall(p, call, initial).Done? <==> TransferCallees(p, [k], bindings, start, {}, 511).CalleesDone?;
  }

  lemma OneCallee(p: Program, k: nat, bindings: seq<Binding>, s: State, budget: nat)
    requires k < |p.functions|
    ensures var c := TransferCallees(p, [k], bindings, s, {}, budget);
            var r := TransferBlock(p, p.functions[k].body, BindEnv(p.functions[k].params, bindings), s, {} + {k},
              budget);
            && (c.CalleesDone? <==> r.Done?) && (c.CalleesDone? ==> MergeReturns(c.returnSets).Some?)
  {
    hide TransferBlock;
    assert [k][1..] == [];
  }

  // ----- loops that settle -----

  /** A round from a head, joined with the entry, leads to another head. */
  ghost predicate Follows(
      p: Program, post: Option<Stmt>, body: seq<Stmt>, env: Env, entry: State, active: set<nat>,
      head: State, budget: nat, next: State, left: nat)
  {
    var r := TransferRound(p, post, body, env, head, active, budget);
    r.Done? && left == r.budget && next == Union([entry, r.state]) && Key(next) != Key(head)
  }

  /** One round after the other, each from the join of the entry with the round before. */
  ghost predicate Heads(
      p: Program, post: Option<Stmt>, body: seq<Stmt>, env: Env, entry: State, active: set<nat>,
      heads: seq<State>, budgets: seq<nat>)
  {
    |heads| == |budgets| > 0 && forall i | 0 < i < |heads| ::
      Follows(p, post, body, env, entry, active, heads[i - 1], budgets[i - 1], heads[i], budgets[i])
  }

  /** The last round leads to its own head again, and is settled itself. */
  ghost predicate Repeats(
      p: Program, post: Option<Stmt>, body: seq<Stmt>, env: Env, entry: State, active: set<nat>,
      head: State, budget: nat)
  {
    var r := TransferRound(p, post, body, env, head, active, budget);
    r.Done? && Key(Union([entry, r.state])) == Key(head) && r.settled
  }

  ghost predicate RepeatsWithin(
      p: Program, post: Option<Stmt>, body: seq<Stmt>, env: Env, entry: State, head: State, active: set<nat>,
      budget: nat, rounds: nat)
  {
    exists heads, budgets ::
      && Heads(p, post, body, env, entry, active, heads, budgets) && |heads| <= rounds
      && heads[0] == head && budgets[0] == budget
      && Repeats(p, post, body, env, entry, active, heads[|heads| - 1], budgets[|heads| - 1])
  }

  /** An answered loop is settled exactly when a head repeats within the rounds. */
  lemma {:induction false} SettledIff(
      p: Program, post: Option<Stmt>, body: seq<Stmt>, env: Env, entry: State, head: State, written: set<Object>,
      active: set<nat>, budget: nat, rounds: nat)
    requires TransferRounds(p, post, body, env, entry, head, written, active, budget, rounds).Done?
    ensures TransferRounds(p, post, body, env, entry, head, written, active, budget, rounds).settled <==>
              RepeatsWithin(p, post, body, env, entry, head, active, budget, rounds)
    decreases rounds
  {
    hide TransferRound, Union, Key;
    if rounds > 0 {
      var r := TransferRound(p, post, body, env, head, active, budget);
      var merged := Union([entry, r.state]);
      if Key(merged) == Key(head) {
        if r.settled {
          assert Heads(p, post, body, env, entry, active, [head], [budget]);
          assert [head][0] == head && [budget][0] == budget;
        }
        if heads, budgets :| Heads(p, post, body, env, entry, active, heads, budgets) && |heads| <= rounds &&
                             heads[0] == head && budgets[0] == budget &&
                             Repeats(p, post, body, env, entry, active, heads[|heads| - 1], budgets[|heads| - 1]) {
          assert |heads| > 1 ==> Follows(p, post, body, env, entry, active, heads[0], budgets[0], heads[1], budgets[1]);
        }
      } else {
        SettledIff(p, post, body, env, entry, merged, written + r.written, active, r.budget, rounds - 1);
        MoreHeads(p, post, body, env, entry, head, active, budget, rounds);
      }
    }
  }

  lemma MoreHeads(
      p: Program, post: Option<Stmt>, body: seq<Stmt>, env: Env, entry: State, head: State, active: set<nat>,
      budget: nat, rounds: nat)
    requires rounds > 0
    requires var r := TransferRound(p, post, body, env, head, active, budget);
             r.Done? && Key(Union([entry, r.state])) != Key(head)
    ensures var r := TransferRound(p, post, body, env, head, active, budget);
            RepeatsWithin(p, post, body, env, entry, head, active, budget, rounds) <==>
              RepeatsWithin(p, post, body, env, entry, Union([entry, r.state]), active, r.budget, rounds - 1)
  {
    hide TransferRound, Union, Key, Repeats;
    var r := TransferRound(p, post, body, env, head, active, budget);
    var merged := Union([entry, r.state]);
    if RepeatsWithin(p, post, body, env, entry, merged, active, r.budget, rounds - 1) {
      var heads, budgets :| Heads(p, post, body, env, entry, active, heads, budgets) && |heads| <= rounds - 1 &&
        heads[0] == merged && budgets[0] == r.budget &&
        Repeats(p, post, body, env, entry, active, heads[|heads| - 1], budgets[|heads| - 1]);
      HeadInFront(p, post, body, env, entry, active, head, budget, heads, budgets);
      var more, left := [head] + heads, [budget] + budgets;
      assert more[|more| - 1] == heads[|heads| - 1] && left[|more| - 1] == budgets[|heads| - 1];
    }
    if RepeatsWithin(p, post, body, env, entry, head, active, budget, rounds) {
      var heads, budgets :| Heads(p, post, body, env, entry, active, heads, budgets) && |heads| <= rounds &&
        heads[0] == head && budgets[0] == budget &&
        Repeats(p, post, body, env, entry, active, heads[|heads| - 1], budgets[|heads| - 1]);
      if |heads| == 1 { NotYet(p, post, body, env, entry, head, active, budget); }
      HeadBehind(p, post, body, env, entry, active, heads, budgets);
      var fewer, left := heads[1..], budgets[1..];
      assert fewer[|fewer| - 1] == heads[|heads| - 1] && left[|fewer| - 1] == budgets[|heads| - 1];
    }
  }

  lemma HeadInFront(
      p: Program, post: Option<Stmt>, body: seq<Stmt>, env: Env, entry: State, active: set<nat>,
      head: State, budget: nat, heads: seq<State>, budgets: seq<nat>)
    requires Heads(p, post, body, env, entry, active, heads, budgets)
    requires Follows(p, post, body, env, entry, active, head, budget, heads[0], budgets[0])
    ensures Heads(p, post, body, env, entry, active, [head] + heads, [budget] + budgets)
  {
    hide Follows;
    var more, left := [head] + heads, [budget] + budgets;
    forall i | 0 < i < |more|
      ensures Follows(p, post, body, env, entry, active, more[i - 1], left[i - 1], more[i], left[i])
    {
      assert more[i] == heads[i - 1] && left[i] == budgets[i - 1];
      if i > 1 { assert more[i - 1] == heads[i - 2] && left[i - 1] == budgets[i - 2]; }
    }
  }

  lemma HeadBehind(
      p: Program, post: Option<Stmt>, body: seq<Stmt>, env: Env, entry: State, active: set<nat>,
      heads: seq<State>, budgets: seq<nat>)
    requires Heads(p, post, body, env, entry, active, heads, budgets) && |heads| > 1
    ensures Heads(p, post, body, env, entry, active, heads[1..], budgets[1..])
    ensures Follows(p, post, body, env, entry, active, heads[0], budgets[0], heads[1], budgets[1])
  {
    hide Follows;
    var fewer, left := heads[1..], budgets[1..];
    forall i | 0 < i < |fewer|
      ensures Follows(p, post, body, env, entry, active, fewer[i - 1], left[i - 1], fewer[i], left[i])
    {
      assert fewer[i] == heads[i + 1] && left[i] == budgets[i + 1];
      assert fewer[i - 1] == heads[i] && left[i - 1] == budgets[i];
    }
  }

  lemma NotYet(
      p: Program, post: Option<Stmt>, body: seq<Stmt>, env: Env, entry: State, head: State, active: set<nat>,
      budget: nat)
    requires Repeats(p, post, body, env, entry, active, head, budget)
    ensures var r := TransferRound(p, post, body, env, head, active, budget);
            r.Done? && Key(Union([entry, r.state])) == Key(head)
  {
    hide TransferRound, Union, Key;
  }
}
