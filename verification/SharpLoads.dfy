/**
 The transfers that mark nothing in vain: every load on the way has one target,
 known by way of pointers that are watched (checks/ps1006.go:962-1525,
 1708-1934). Programs without loads are among them.
 */
module SharpLoads {
  import opened DependencyState
  import opened GoBodies
  import opened OrderedSoundness
  import opened OrderedTransfer
  import opened Precision
  import opened Wrappers

  type Stmt = GoBodies.Stmt

  // ----- the programs -----

  /** No load, and index expressions are bare. */
  predicate Direct(e: Expr) {
    match e
    case Deref(_) => false
    case Unary(_, x) => Direct(x)
    case Convert(_, x) => Direct(x)
    case Binary(_, l, r) => Direct(l) && Direct(r)
    case Index(_, _) => Bare(e)
    case _ => true
  }

  predicate Shaped(p: Program, own: set<Object>, e: Expr, direct: bool) {
    Scoped(p, own, e) && (direct ==> Direct(e))
  }

  predicate ShapedAll(p: Program, own: set<Object>, es: seq<Expr>, direct: bool) {
    forall e | e in es :: Shaped(p, own, e, direct)
  }

  /** A variable that is neither a formal nor the loop variable. */
  predicate Assignable(p: Program, e: Expr) {
    e.Var? && !IsFormal(p, e.obj) && e.obj != p.inner
  }

  /** As the type checker sees to, pointers are assigned to places of their level. */
  predicate ShapedAssign(
      p: Program, own: set<Object>, kind: AssignOp, lhs: seq<Lhs>, rhs: seq<Expr>, direct: bool)
  {
    && ShapedAll(p, own, rhs, direct) && ScopedLhs(p, own, lhs) && (kind.Compound? ==> lhs != [Blank])
    && (direct ==> forall l | l in lhs && l.Place? :: Assignable(p, l.e))
    && forall i | 0 <= i < |lhs| && i < |rhs| && lhs[i].Place? ::
         Depth(p, rhs[i]) > 0 ==> Depth(p, rhs[i]) == Depth(p, lhs[i].e)
  }

  predicate ArgumentsFit(p: Program, call: Call) {
    forall k | k in call.callees && k < |p.functions| ::
      && |p.functions[k].params| == |call.args|
      && forall i | 0 <= i < |call.args| ::
           Depth(p, call.args[i]) > 0 ==> Depth(p, call.args[i]) == p.depth(p.functions[k].params[i])
  }

  predicate ShapedCall(p: Program, own: set<Object>, call: Call, direct: bool) {
    ShapedAll(p, own, call.args, direct) && ArgumentsFit(p, call)
  }

  /** The body ends by returning results. */
  predicate Yields(p: Program, k: nat) {
    k < |p.functions| &&
    var body := p.functions[k].body;
    body != [] && body[|body| - 1].Return? && body[|body| - 1].results != []
  }

  predicate ShapedOperand(p: Program, own: set<Object>, operand: Operand, direct: bool) {
    match operand
    case Value(e) => Shaped(p, own, e, direct)
    case CallResult(call) => ShapedCall(p, own, call, direct) && forall k | k in call.callees :: Yields(p, k)
  }

  predicate ShapedHeader(p: Program, own: set<Object>, stmt: Option<Stmt>, direct: bool) {
    match stmt
    case Some(Assign(kind, lhs, rhs)) => ShapedAssign(p, own, kind, lhs, rhs, direct)
    case Some(IncDec(_, place)) => Scoped(p, own, place) && (direct ==> Assignable(p, place))
    case Some(Declare(specs)) => forall d | d in specs :: ShapedAssign(p, own, Plain, d.names, d.values, direct)
    case _ => true
  }

  /** Returns stand in whole bodies only, not in nested lists. */
  predicate ShapedStmt(p: Program, own: set<Object>, stmt: Stmt, whole: bool, direct: bool)
    decreases stmt, 1
  {
    match stmt
    case Print(args) => ShapedAll(p, own, args, direct)
    case CallStmt(call) => ShapedCall(p, own, call, direct)
    case Block(body) => ShapedBody(p, own, body, false, direct)
    case For(init, _, post, body) =>
      && ShapedHeader(p, own, init, direct) && ShapedHeader(p, own, post, direct)
      && ShapedBody(p, own, body, false, direct)
    case Return(results) => whole && forall r | r in results :: ShapedOperand(p, own, r, direct)
    case _ => ShapedHeader(p, own, Some(stmt), direct)
  }

  predicate ShapedBody(p: Program, own: set<Object>, body: seq<Stmt>, whole: bool, direct: bool)
    decreases body, 0
  {
    body == [] || (ShapedStmt(p, own, body[0], whole, direct) && ShapedBody(p, own, body[1..], whole, direct))
  }

  ghost predicate ShapedProgram(p: Program, direct: bool) {
    && !IsFormal(p, p.inner)
    && (forall f | 0 <= f < |p.functions| :: ShapedBody(p, Params(p, f), p.functions[f].body, true, direct))
    && (forall f, g | 0 <= f < g < |p.functions| :: Params(p, f) !! Params(p, g))
    && (forall f, i, j | 0 <= f < |p.functions| && 0 <= i < j < |p.functions[f].params| ::
          p.functions[f].params[i] != p.functions[f].params[j])
  }

  // ----- loads with one target -----

  /** What the state or the environment itself says of a pointer. */
  function AliasIn(env: Env, s: State, o: Object): Alias {
    if o in env then (if env[o].pointer.Some? then env[o].pointer.value else UNKNOWN_ALIAS)
    else if o in Tracked(s) then Tracked(s)[o]
    else UNKNOWN_ALIAS
  }

  function OnlyTarget(p: Program, a: Alias): Option<Object> {
    if a.known && |a.targets| == 1 && !IsFormal(p, Sole(a.targets)) then Some(Sole(a.targets)) else None
  }

  /** The one place a pointer is known to point to, by way of the watched pointers. */
  function Aim(p: Program, w: set<Object>, env: Env, s: State, x: Expr): Option<Object> {
    match x
    case AddressOf(o) => if IsFormal(p, o) then None else Some(o)
    case Var(o) => if o in w then OnlyTarget(p, AliasIn(env, s, o)) else None
    case Deref(y) =>
      (match Aim(p, w, env, s, y)
       case Some(o) => if o in w then OnlyTarget(p, AliasIn(map[], s, o)) else None
       case None => None)
    case Convert(_, y) => Aim(p, w, env, s, y)
    case _ => None
  }

  /** Every load has one target, and index expressions are bare. */
  predicate Sharp(p: Program, w: set<Object>, env: Env, s: State, e: Expr) {
    match e
    case Deref(x) => Aim(p, w, env, s, x).Some?
    case Unary(_, x) => Sharp(p, w, env, s, x)
    case Convert(_, x) => Sharp(p, w, env, s, x)
    case Binary(_, l, r) => Sharp(p, w, env, s, l) && Sharp(p, w, env, s, r)
    case Index(_, _) => Bare(e)
    case _ => true
  }

  predicate SharpAll(p: Program, w: set<Object>, env: Env, s: State, es: seq<Expr>) {
    forall e | e in es :: Sharp(p, w, env, s, e)
  }

  predicate OneTarget(a: Alias) {
    a.known && |a.targets| <= 1
  }

  /** A value for a watched pointer: if it is known to have one target, that is by way of watched pointers. */
  predicate SharpPointer(p: Program, w: set<Object>, env: Env, s: State, e: Expr) {
    Depth(p, e) > 0 && (OneTarget(PointerTargets(p, env, s, e)) ==> Aim(p, w, env, s, e).Some?)
  }

  /** Where a place is: the one target of the pointer, or the variable. */
  function AimOf(p: Program, w: set<Object>, env: Env, s: State, l: Lhs): Target {
    match l
    case Blank => Nowhere
    case Place(Var(o)) => if IsFormal(p, o) then Unresolved else At(o)
    case Place(Deref(x)) =>
      (match Aim(p, w, env, s, x)
       case Some(t) => At(t)
       case None => Unresolved)
    case _ => Unresolved
  }

  predicate SharpAssign(
      p: Program, w: set<Object>, env: Env, s: State, kind: AssignOp, lhs: seq<Lhs>, rhs: seq<Expr>)
  {
    && SharpAll(p, w, env, s, rhs)
    && (forall l | l in lhs :: AimOf(p, w, env, s, l) != Unresolved && AimOf(p, w, env, s, l) != At(p.inner))
    && forall i | 0 <= i < |lhs| && i < |rhs| && AimOf(p, w, env, s, lhs[i]).At? ::
         var o := AimOf(p, w, env, s, lhs[i]).obj;
         o in w ==> kind.Plain? && p.depth(o) > 0 && SharpPointer(p, w, env, s, rhs[i])
  }

  predicate SharpHeader(p: Program, w: set<Object>, env: Env, s: State, stmt: Option<Stmt>) {
    match stmt
    case Some(Assign(kind, lhs, rhs)) => SharpAssign(p, w, env, s, kind, lhs, rhs)
    case Some(IncDec(_, place)) =>
      var t := AimOf(p, w, env, s, Place(place));
      t.At? && t.obj != p.inner && t.obj !in w
    case Some(Declare(specs)) => SharpSpecs(p, w, env, s, specs)
    case _ => true
  }

  predicate SharpSpecs(p: Program, w: set<Object>, env: Env, s: State, specs: seq<Spec>)
    decreases |specs|
  {
    specs == [] ||
    (&& SharpAssign(p, w, env, s, Plain, specs[0].names, specs[0].values)
     && match ApplyAssignment(p, env, s, Plain, specs[0].names, specs[0].values)
        case Rejected => true
        case Applied(next, _) => SharpSpecs(p, w, env, next, specs[1..]))
  }

  /** Along the whole transfer of the list, every load has one target. */
  predicate SharpBlock(
      p: Program, w: set<Object>, body: seq<Stmt>, env: Env, s: State, active: set<nat>, budget: nat)
    decreases budget, 2, |body|
  {
    body == [] || budget == 0 || (
      && SharpStmt(p, w, body[0], |body| == 1, env, s, active, budget - 1)
      && var first := TransferStmt(p, body[0], |body| == 1, env, s, active, budget - 1);
         first.Done? ==> SharpBlock(p, w, body[1..], env, first.state, active, first.budget))
  }

  predicate SharpStmt(
      p: Program, w: set<Object>, stmt: Stmt, last: bool, env: Env, s: State, active: set<nat>, budget: nat)
    decreases budget, 6, 0
  {
    match stmt
    case Print(args) => SharpAll(p, w, env, s, args)
    case CallStmt(call) => SharpCall(p, w, call, env, s, active, budget)
    case Block(body) => SharpBlock(p, w, body, env, s, active, budget)
    case For(init, cond, post, body) => SharpLoop(p, w, init, cond, post, body, env, s, active, budget)
    case Return(results) => SharpResults(p, w, results, env, s, active, budget)
    case _ => SharpHeader(p, w, env, s, Some(stmt))
  }

  predicate SharpResults(
      p: Program, w: set<Object>, results: seq<Operand>, env: Env, s: State, active: set<nat>, budget: nat)
    decreases budget, 5, |results|
  {
    results == [] || (
      && SharpOperand(p, w, results[0], env, s, active, budget)
      && var first := TransferOperand(p, results[0], env, s, active, budget);
         first.Done? ==> SharpResults(p, w, results[1..], env, first.state, active, first.budget))
  }

  predicate SharpOperand(
      p: Program, w: set<Object>, operand: Operand, env: Env, s: State, active: set<nat>, budget: nat)
    decreases budget, 5, 0
  {
    match operand
    case Value(e) => Sharp(p, w, env, s, e)
    case CallResult(call) => SharpCall(p, w, call, env, s, active, budget)
  }

  predicate SharpLoop(
      p: Program, w: set<Object>, init: Option<Stmt>, cond: Option<Condition>, post: Option<Stmt>,
      body: seq<Stmt>, env: Env, s: State, active: set<nat>, budget: nat)
    decreases budget, 5, 0
  {
    SharpHeader(p, w, env, s, init) &&
    match ApplyHeader(p, env, s, init)
    case Rejected => true
    case Applied(entry, _) =>
      || (cond.Some? && cond.value.constant == Some(false))
      || SharpRounds(p, w, post, body, env, entry, entry, active, budget, LOOP_ROUNDS)
  }

  predicate SharpRound(
      p: Program, w: set<Object>, post: Option<Stmt>, body: seq<Stmt>, env: Env, head: State, active: set<nat>,
      budget: nat)
    decreases budget, 3, 0
  {
    && SharpBlock(p, w, body, env, head, active, budget)
    && var out := TransferBlock(p, body, env, head, active, budget);
       out.Done? ==> SharpHeader(p, w, env, out.state, post)
  }

  predicate SharpRounds(
      p: Program, w: set<Object>, post: Option<Stmt>, body: seq<Stmt>, env: Env, entry: State, head: State,
      active: set<nat>, budget: nat, rounds: nat)
    decreases budget, 4, rounds
  {
    rounds == 0 || (
      && SharpRound(p, w, post, body, env, head, active, budget)
      && var r := TransferRound(p, post, body, env, head, active, budget);
         r.Done? ==>
           var merged := Union([entry, r.state]);
           Key(merged) == Key(head) || SharpRounds(p, w, post, body, env, entry, merged, active, r.budget, rounds - 1))
  }

  /** A formal that is watched is handed a value for a watched pointer. */
  predicate SharpArguments(p: Program, w: set<Object>, call: Call, env: Env, s: State) {
    && SharpAll(p, w, env, s, call.args)
    && forall k | k in call.callees && k < |p.functions| :: forall i | 0 <= i < |call.args| ::
         i < |p.functions[k].params| && p.functions[k].params[i] in w ==> SharpPointer(p, w, env, s, call.args[i])
  }

  predicate SharpCall(p: Program, w: set<Object>, call: Call, env: Env, s: State, active: set<nat>, budget: nat)
    decreases budget, 4, 0
  {
    budget == 0 || (
      && SharpArguments(p, w, call, env, s)
      && SharpCallees(p, w, call.callees, Snapshots(p, env, s, call.args), s, active, budget - 1))
  }

  predicate SharpCallees(
      p: Program, w: set<Object>, callees: seq<nat>, bindings: seq<Binding>, s: State, active: set<nat>, budget: nat)
    decreases budget, 3, |callees|
  {
    callees == [] || callees[0] >= |p.functions| || callees[0] in active || (
      var k := callees[0];
      var inside := BindEnv(p.functions[k].params, bindings);
      && SharpBlock(p, w, p.functions[k].body, inside, s, active + {k}, budget)
      && var one := TransferBlock(p, p.functions[k].body, inside, s, active + {k}, budget);
         one.Done? ==> SharpCallees(p, w, callees[1..], bindings, s, active, one.budget))
  }

  // ----- programs without loads -----

  lemma {:induction false} DirectIsSharp(p: Program, env: Env, s: State, e: Expr)
    requires Direct(e)
    ensures Sharp(p, {}, env, s, e)
  {
    match e
    case Unary(_, x) => DirectIsSharp(p, env, s, x);
    case Convert(_, x) => DirectIsSharp(p, env, s, x);
    case Binary(_, l, r) => DirectIsSharp(p, env, s, l); DirectIsSharp(p, env, s, r);
    case _ =>
  }

  lemma AllAreSharp(p: Program, own: set<Object>, env: Env, s: State, es: seq<Expr>)
    requires ShapedAll(p, own, es, true)
    ensures SharpAll(p, {}, env, s, es)
  {
    forall e | e in es ensures Sharp(p, {}, env, s, e) { DirectIsSharp(p, env, s, e); }
  }

  lemma AssignIsSharp(
      p: Program, own: set<Object>, env: Env, s: State, kind: AssignOp, lhs: seq<Lhs>, rhs: seq<Expr>)
    requires ShapedAssign(p, own, kind, lhs, rhs, true)
    ensures SharpAssign(p, {}, env, s, kind, lhs, rhs)
  {
    AllAreSharp(p, own, env, s, rhs);
  }

  lemma {:induction false} SpecsAreSharp(p: Program, own: set<Object>, env: Env, s: State, specs: seq<Spec>)
    requires forall d | d in specs :: ShapedAssign(p, own, Plain, d.names, d.values, true)
    ensures SharpSpecs(p, {}, env, s, specs)
    decreases |specs|
  {
    hide ShapedAssign, SharpAssign, ApplyAssignment;
    if specs != [] {
      assert specs[0] in specs;
      AssignIsSharp(p, own, env, s, Plain, specs[0].names, specs[0].values);
      match ApplyAssignment(p, env, s, Plain, specs[0].names, specs[0].values) {
        case Rejected =>
        case Applied(next, _) => SpecsAreSharp(p, own, env, next, specs[1..]);
      }
    }
  }

  lemma HeaderIsSharp(p: Program, own: set<Object>, env: Env, s: State, stmt: Option<Stmt>)
    requires ShapedHeader(p, own, stmt, true)
    ensures SharpHeader(p, {}, env, s, stmt)
  {
    hide ShapedAssign, SharpAssign, SharpSpecs;
    match stmt
    case Some(Assign(kind, lhs, rhs)) => AssignIsSharp(p, own, env, s, kind, lhs, rhs);
    case Some(Declare(specs)) => SpecsAreSharp(p, own, env, s, specs);
    case _ =>
  }

  lemma {:induction false} BlockIsSharp(
      p: Program, own: set<Object>, body: seq<Stmt>, whole: bool, env: Env, s: State, active: set<nat>, budget: nat)
    requires ShapedProgram(p, true) && ShapedBody(p, own, body, whole, true)
    ensures SharpBlock(p, {}, body, env, s, active, budget)
    decreases budget, 2, |body|
  {
    hide TransferStmt, SharpStmt, ShapedStmt, ShapedProgram;
    if body != [] && budget > 0 {
      StmtIsSharp(p, own, body[0], whole, |body| == 1, env, s, active, budget - 1);
      var first := TransferStmt(p, body[0], |body| == 1, env, s, active, budget - 1);
      if first.Done? { BlockIsSharp(p, own, body[1..], whole, env, first.state, active, first.budget); }
    }
  }

  lemma {:induction false} StmtIsSharp(
      p: Program, own: set<Object>, stmt: Stmt, whole: bool, last: bool, env: Env, s: State, active: set<nat>,
      budget: nat)
    requires ShapedProgram(p, true) && ShapedStmt(p, own, stmt, whole, true)
    ensures SharpStmt(p, {}, stmt, last, env, s, active, budget)
    decreases budget, 6, 0
  {
    hide ShapedProgram, ShapedBody, ShapedHeader, ShapedCall, ShapedOperand, ShapedAll;
    hide SharpBlock, SharpHeader, SharpCall, SharpLoop, SharpResults, SharpAll;
    match stmt
    case Print(args) => AllAreSharp(p, own, env, s, args);
    case CallStmt(call) => CallIsSharp(p, own, call, env, s, active, budget);
    case Block(body) => BlockIsSharp(p, own, body, false, env, s, active, budget);
    case For(init, cond, post, body) => LoopIsSharp(p, own, init, cond, post, body, env, s, active, budget);
    case Return(results) => ResultsAreSharp(p, own, results, env, s, active, budget);
    case _ => HeaderIsSharp(p, own, env, s, Some(stmt));
  }

  lemma {:induction false} ResultsAreSharp(
      p: Program, own: set<Object>, results: seq<Operand>, env: Env, s: State, active: set<nat>, budget: nat)
    requires ShapedProgram(p, true) && forall r | r in results :: ShapedOperand(p, own, r, true)
    ensures SharpResults(p, {}, results, env, s, active, budget)
    decreases budget, 5, |results|
  {
    hide ShapedProgram, ShapedOperand, SharpOperand, TransferOperand;
    if results != [] {
      OperandIsSharp(p, own, results[0], env, s, active, budget);
      var first := TransferOperand(p, results[0], env, s, active, budget);
      if first.Done? { ResultsAreSharp(p, own, results[1..], env, first.state, active, first.budget); }
    }
  }

  lemma {:induction false} OperandIsSharp(
      p: Program, own: set<Object>, operand: Operand, env: Env, s: State, active: set<nat>, budget: nat)
    requires ShapedProgram(p, true) && ShapedOperand(p, own, operand, true)
    ensures SharpOperand(p, {}, operand, env, s, active, budget)
    decreases budget, 5, 0
  {
    hide ShapedProgram, ShapedCall, SharpCall;
    match operand
    case Value(e) => DirectIsSharp(p, env, s, e);
    case CallResult(call) => CallIsSharp(p, own, call, env, s, active, budget);
  }

  lemma {:induction false} CallIsSharp(
      p: Program, own: set<Object>, call: Call, env: Env, s: State, active: set<nat>, budget: nat)
    requires ShapedProgram(p, true) && ShapedCall(p, own, call, true)
    ensures SharpCall(p, {}, call, env, s, active, budget)
    decreases budget, 4, 0
  {
    hide ShapedProgram, SharpCallees, Snapshots;
    if budget > 0 {
      AllAreSharp(p, own, env, s, call.args);
      CalleesAreSharp(p, call.callees, Snapshots(p, env, s, call.args), s, active, budget - 1);
    }
  }

  lemma {:induction false} CalleesAreSharp(
      p: Program, callees: seq<nat>, bindings: seq<Binding>, s: State, active: set<nat>, budget: nat)
    requires ShapedProgram(p, true)
    ensures SharpCallees(p, {}, callees, bindings, s, active, budget)
    decreases budget, 3, |callees|
  {
    hide ShapedBody, SharpBlock, TransferBlock;
    if callees != [] && callees[0] < |p.functions| && callees[0] !in active {
      var k := callees[0];
      var inside := BindEnv(p.functions[k].params, bindings);
      BlockIsSharp(p, Params(p, k), p.functions[k].body, true, inside, s, active + {k}, budget);
      var one := TransferBlock(p, p.functions[k].body, inside, s, active + {k}, budget);
      if one.Done? { CalleesAreSharp(p, callees[1..], bindings, s, active, one.budget); }
    }
  }

  lemma {:induction false} LoopIsSharp(
      p: Program, own: set<Object>, init: Option<Stmt>, cond: Option<Condition>, post: Option<Stmt>,
      body: seq<Stmt>, env: Env, s: State, active: set<nat>, budget: nat)
    requires ShapedProgram(p, true) && ShapedBody(p, own, body, false, true)
    requires ShapedHeader(p, own, init, true) && ShapedHeader(p, own, post, true)
    ensures SharpLoop(p, {}, init, cond, post, body, env, s, active, budget)
    decreases budget, 5, 0
  {
    hide ShapedProgram, ShapedBody, ShapedHeader, SharpHeader, SharpRounds, ApplyHeader;
    HeaderIsSharp(p, own, env, s, init);
    match ApplyHeader(p, env, s, init) {
      case Rejected =>
      case Applied(entry, _) => RoundsAreSharp(p, own, post, body, env, entry, entry, active, budget, LOOP_ROUNDS);
    }
  }

  lemma {:induction false} RoundsAreSharp(
      p: Program, own: set<Object>, post: Option<Stmt>, body: seq<Stmt>, env: Env, entry: State, head: State,
      active: set<nat>, budget: nat, rounds: nat)
    requires ShapedProgram(p, true) && ShapedBody(p, own, body, false, true) && ShapedHeader(p, own, post, true)
    ensures SharpRounds(p, {}, post, body, env, entry, head, active, budget, rounds)
    decreases budget, 4, rounds
  {
    hide ShapedProgram, ShapedBody, ShapedHeader, SharpHeader, SharpBlock, TransferRound, TransferBlock, Union;
    if rounds > 0 {
      BlockIsSharp(p, own, body, false, env, head, active, budget);
      var out := TransferBlock(p, body, env, head, active, budget);
      if out.Done? { HeaderIsSharp(p, own, env, out.state, post); }
      var r := TransferRound(p, post, body, env, head, active, budget);
      if r.Done? {
        RoundsAreSharp(p, own, post, body, env, entry, Union([entry, r.state]), active, r.budget, rounds - 1);
      }
    }
  }

  /** The shape does not depend on there being no loads. */
  lemma {:induction false} StmtIsShaped(p: Program, own: set<Object>, stmt: Stmt, whole: bool)
    requires ShapedStmt(p, own, stmt, whole, true)
    ensures ShapedStmt(p, own, stmt, whole, false)
    decreases stmt, 1
  {
    hide ShapedBody, ArgumentsFit;
    match stmt
    case Block(body) => BodyIsShaped(p, own, body, false);
    case For(_, _, _, body) => BodyIsShaped(p, own, body, false);
    case _ =>
  }

  lemma {:induction false} BodyIsShaped(p: Program, own: set<Object>, body: seq<Stmt>, whole: bool)
    requires ShapedBody(p, own, body, whole, true)
    ensures ShapedBody(p, own, body, whole, false)
    decreases body, 0
  {
    hide ShapedStmt;
    if body != [] {
      StmtIsShaped(p, own, body[0], whole);
      BodyIsShaped(p, own, body[1..], whole);
    }
  }

  lemma ProgramIsShaped(p: Program)
    requires ShapedProgram(p, true)
    ensures ShapedProgram(p, false)
  {
    hide ShapedBody;
    forall f | 0 <= f < |p.functions| ensures ShapedBody(p, Params(p, f), p.functions[f].body, true, false) {
      BodyIsShaped(p, Params(p, f), p.functions[f].body, true);
    }
  }
}
