/**
 PS1006's ordered transfer as functions (checks/ps1006.go:962-1075, 1085-1150,
 1389-1525, 1581-1706, 1708-1934).

 Budgets, active bodies and failure are threaded exactly as the code does. Two
 extra result fields say how far the answer can be trusted: `settled`, that
 every loop reached a repeated head state instead of running out of rounds, and
 `fits`, that the scan of an index expression took in what is loaded inside it.
 */
module OrderedTransfer {
  import opened DependencyState
  import opened GoBodies
  import opened Wrappers

  const CALL_BUDGET: nat := 512

  datatype Dependency = Dependency(derived: bool, stride: bool, known: bool)

  const UNKNOWN := Dependency(false, false, false)
  const CLEAN := Dependency(false, false, true)
  const OPAQUE_CALL := Dependency(true, true, true)

  /** A snapshot of an argument or a result. `pointer` is None for an expression of non-pointer type. */
  datatype Binding = Binding(dependency: Dependency, pointer: Option<Alias>)

  type Env = map<Object, Binding>

  // ----- expressions -----

  function ObjectDependency(p: Program, s: State, o: Object): Dependency {
    Dependency(o == p.inner || o in s.deps, o == p.inner || Stride(s, o) != "", true)
  }

  function Either(a: Dependency, b: Dependency): Dependency {
    Dependency(a.derived || b.derived, a.stride || b.stride, a.known && b.known)
  }

  /** ps1006OrderedPointerObjectTargets: an object the map does not track is resolved through the
      expressions that may have given it its value, in the current map and environment. */
  function ResolveObject(p: Program, env: Env, aliases: map<Object, Alias>, o: Object, seen: set<Object>): Alias
    decreases |p.values.Keys - seen|, 0
  {
    if o in seen then UNKNOWN_ALIAS
    else if o in aliases then aliases[o]
    else if o !in p.values || p.values[o] == [] then UNKNOWN_ALIAS
    else
      FewerLeft(p.values.Keys, seen, o);
      var more := seen + {o};
      if exists v | v in p.values[o] :: !Resolve(p, env, aliases, v, more).known then UNKNOWN_ALIAS
      else
        var targets := set v, t | v in p.values[o] && t in Resolve(p, env, aliases, v, more).targets :: t;
        Alias(targets, targets != {})
  }

  lemma FewerLeft(all: set<Object>, seen: set<Object>, o: Object)
    requires o in all && o !in seen
    ensures |all - (seen + {o})| < |all - seen|
  {
    assert all - (seen + {o}) == (all - seen) - {o};
  }

  /** ps1006OrderedPointerTargets. */
  function Resolve(p: Program, env: Env, aliases: map<Object, Alias>, e: Expr, seen: set<Object>): Alias
    decreases |p.values.Keys - seen|, 1, e
  {
    match e
    case AddressOf(o) => Alias({o}, true)
    case Var(o) =>
      if o in env then
        if o in seen || env[o].pointer.None? then UNKNOWN_ALIAS else env[o].pointer.value
      else ResolveObject(p, env, aliases, o, seen)
    case Deref(x) =>
      var a := Resolve(p, env, aliases, x, seen);
      if !a.known || a.targets == {} || exists o | o in a.targets :: !ResolveObject(p, env, aliases, o, seen).known
      then UNKNOWN_ALIAS
      else
        var targets := set o, t | o in a.targets && t in ResolveObject(p, env, aliases, o, seen).targets :: t;
        Alias(targets, targets != {})
    case Convert(_, x) => Resolve(p, env, aliases, x, seen)
    case _ => UNKNOWN_ALIAS
  }

  function ObjectTargets(p: Program, env: Env, s: State, o: Object): Alias {
    ResolveObject(p, env, Tracked(s), o, {})
  }

  function PointerTargets(p: Program, env: Env, s: State, e: Expr): Alias {
    Resolve(p, env, Tracked(s), e, {})
  }

  /** Identifiers in source order; this is all the scan of an index expression looks at. */
  function Identifiers(e: Expr): seq<Object> {
    match e
    case NilLiteral => []
    case Literal(_) => []
    case Var(o) => [o]
    case AddressOf(o) => [o]
    case Deref(x) => Identifiers(x)
    case Unary(_, x) => Identifiers(x)
    case Binary(_, l, r) => Identifiers(l) + Identifiers(r)
    case Convert(_, x) => Identifiers(x)
    case Index(x, i) => Identifiers(x) + Identifiers(i)
  }

  function IdentifierDependency(p: Program, env: Env, s: State, o: Object): Dependency {
    if o in env then env[o].dependency else ObjectDependency(p, s, o)
  }

  function Scan(p: Program, env: Env, s: State, names: seq<Object>): Dependency {
    if names == [] then CLEAN
    else
      var first := IdentifierDependency(p, env, s, names[0]);
      if first.known then Either(first, Scan(p, env, s, names[1..])) else first
  }

  function LoadDependency(p: Program, s: State, a: Alias): Dependency {
    if !a.known || a.targets == {} then UNKNOWN
    else Dependency(
      exists t | t in a.targets :: ObjectDependency(p, s, t).derived,
      exists t | t in a.targets :: ObjectDependency(p, s, t).stride, true)
  }

  function ExprDependency(p: Program, env: Env, s: State, e: Expr): Dependency {
    match e
    case NilLiteral => CLEAN
    case Literal(_) => CLEAN
    case Var(o) => IdentifierDependency(p, env, s, o)
    case AddressOf(_) => CLEAN
    case Deref(x) => LoadDependency(p, s, PointerTargets(p, env, s, x))
    case Unary(_, x) => ExprDependency(p, env, s, x)
    case Binary(_, l, r) => Either(ExprDependency(p, env, s, l), ExprDependency(p, env, s, r))
    case Convert(_, x) => ExprDependency(p, env, s, x)
    case Index(x, i) => Scan(p, env, s, Identifiers(x) + Identifiers(i))
  }

  /** The loads through pointers in an expression, outermost ones only. */
  function Loads(e: Expr): seq<Expr> {
    match e
    case Deref(_) => [e]
    case Unary(_, x) => Loads(x)
    case Convert(_, x) => Loads(x)
    case Binary(_, l, r) => Loads(l) + Loads(r)
    case Index(x, i) => Loads(x) + Loads(i)
    case _ => []
  }

  /** What a load brings is within what the scan says. */
  predicate Within(load: Dependency, scan: Dependency) {
    scan.known ==> (scan.derived || (load.known && !load.derived)) && (scan.stride || (load.known && !load.stride))
  }

  /** In every index expression, what is loaded through pointers is within what the scan says. */
  predicate ScanFits(p: Program, env: Env, s: State, e: Expr) {
    match e
    case Deref(x) => ScanFits(p, env, s, x)
    case Unary(_, x) => ScanFits(p, env, s, x)
    case Convert(_, x) => ScanFits(p, env, s, x)
    case Binary(_, l, r) => ScanFits(p, env, s, l) && ScanFits(p, env, s, r)
    case Index(x, i) =>
      && ScanFits(p, env, s, x) && ScanFits(p, env, s, i)
      && forall d | d in Loads(e) :: Within(ExprDependency(p, env, s, d), ExprDependency(p, env, s, e))
    case _ => true
  }

  predicate AllFit(p: Program, env: Env, s: State, es: seq<Expr>) {
    forall e | e in es :: ScanFits(p, env, s, e)
  }

  predicate PlacesFit(p: Program, env: Env, s: State, lhs: seq<Lhs>) {
    forall l | l in lhs && l.Place? :: ScanFits(p, env, s, l.e)
  }

  function Snapshot(p: Program, env: Env, s: State, e: Expr): Binding {
    Binding(ExprDependency(p, env, s, e), if Depth(p, e) > 0 then Some(PointerTargets(p, env, s, e)) else None)
  }

  function Snapshots(p: Program, env: Env, s: State, es: seq<Expr>): seq<Binding> {
    seq(|es|, i requires 0 <= i < |es| => Snapshot(p, env, s, es[i]))
  }

  // ----- assignments -----

  function TargetOf(p: Program, env: Env, s: State, lhs: Lhs): Target {
    match lhs
    case Blank => Nowhere
    case Place(Var(o)) => if o in env then Unresolved else At(o)
    case Place(Deref(x)) =>
      var a := PointerTargets(p, env, s, x);
      if a.known && |a.targets| == 1 then At(Sole(a.targets)) else Unresolved
    case _ => Unresolved
  }

  function TargetsOf(p: Program, env: Env, s: State, lhs: seq<Lhs>): seq<Target> {
    seq(|lhs|, i requires 0 <= i < |lhs| => TargetOf(p, env, s, lhs[i]))
  }

  function SetDependency(s: State, o: Object, d: Dependency): State {
    s.(deps := if d.derived then s.deps + {o} else s.deps - {o},
       strideDeps := if d.stride then s.strideDeps[o := MAY_STRIDE] else s.strideDeps - {o})
  }

  function SetAlias(s: State, o: Object, pointer: Option<Alias>): State {
    match pointer
    case Some(a) => s.(aliases := Some(Tracked(s)[o := a]))
    case None => s
  }

  /** The value an assignment stores: its dependency, and its targets when both sides are pointers. */
  function Stored(p: Program, env: Env, s: State, target: Target, e: Expr): Binding {
    Binding(ExprDependency(p, env, s, e),
            if target.At? && p.depth(target.obj) > 0 && Depth(p, e) > 0
            then Some(PointerTargets(p, env, s, e)) else None)
  }

  function StoredAll(p: Program, env: Env, s: State, targets: seq<Target>, rhs: seq<Expr>): seq<Binding>
    requires |targets| == |rhs|
  {
    seq(|rhs|, i requires 0 <= i < |rhs| => Stored(p, env, s, targets[i], rhs[i]))
  }

  function SetAll(s: State, targets: seq<Target>, stored: seq<Binding>): State
    requires |targets| == |stored|
    decreases targets
  {
    if targets == [] then s
    else
      var s' := match targets[0]
        case At(o) => SetAlias(SetDependency(s, o, stored[0].dependency), o, stored[0].pointer)
        case _ => s;
      SetAll(s', targets[1..], stored[1..])
  }

  function Objects(targets: seq<Target>): set<Object> {
    set t | t in targets && t.At? :: t.obj
  }

  datatype Applied = Rejected | Applied(state: State, written: set<Object>)

  function ApplyAssignment(p: Program, env: Env, s: State, kind: AssignOp, lhs: seq<Lhs>, rhs: seq<Expr>): Applied {
    if |lhs| == 0 || |lhs| != |rhs| || (kind.Compound? && |lhs| != 1) then Rejected
    else
      var targets := TargetsOf(p, env, s, lhs);
      if Unresolved in targets then Rejected
      else
        var stored := StoredAll(p, env, s, targets, rhs);
        if exists b | b in stored :: !b.dependency.known then Rejected
        else
          var final := if kind.Compound? && targets[0].At?
            then [stored[0].(dependency := Either(stored[0].dependency, ObjectDependency(p, s, targets[0].obj)))]
            else stored;
          Applied(SetAll(s, targets, final), Objects(targets))
  }

  function ApplyIncDec(p: Program, env: Env, s: State, place: Expr): Applied {
    match TargetOf(p, env, s, Place(place))
    case At(o) => Applied(SetDependency(s, o, ObjectDependency(p, s, o)), {o})
    case _ => Rejected
  }

  /** The statements a loop header may hold. */
  function ApplyHeader(p: Program, env: Env, s: State, stmt: Option<Stmt>): Applied {
    match stmt
    case None => Applied(s, {})
    case Some(Empty) => Applied(s, {})
    case Some(Assign(kind, lhs, rhs)) => ApplyAssignment(p, env, s, kind, lhs, rhs)
    case Some(IncDec(_, place)) => ApplyIncDec(p, env, s, place)
    case Some(Declare(specs)) => ApplySpecs(p, env, s, specs)
    case _ => Rejected
  }

  /** A declaration is an assignment for each of its lines. */
  function ApplySpecs(p: Program, env: Env, s: State, specs: seq<Spec>): Applied
    decreases |specs|
  {
    if specs == [] then Applied(s, {})
    else match ApplyAssignment(p, env, s, Plain, specs[0].names, specs[0].values)
      case Rejected => Rejected
      case Applied(next, w) =>
        match ApplySpecs(p, env, next, specs[1..])
        case Rejected => Rejected
        case Applied(end, w') => Applied(end, w + w')
  }

  predicate SpecsFit(p: Program, env: Env, s: State, specs: seq<Spec>)
    decreases |specs|
  {
    specs == [] ||
    (&& PlacesFit(p, env, s, specs[0].names) && AllFit(p, env, s, specs[0].values)
     && match ApplyAssignment(p, env, s, Plain, specs[0].names, specs[0].values)
        case Rejected => true
        case Applied(next, _) => SpecsFit(p, env, next, specs[1..]))
  }

  predicate HeaderFits(p: Program, env: Env, s: State, stmt: Option<Stmt>) {
    match stmt
    case Some(Assign(_, lhs, rhs)) => PlacesFit(p, env, s, lhs) && AllFit(p, env, s, rhs)
    case Some(IncDec(_, place)) => ScanFits(p, env, s, place)
    case Some(Declare(specs)) => SpecsFit(p, env, s, specs)
    case _ => true
  }

  // ----- control -----

  datatype Result =
    | Fail(budget: nat)
    | Done(state: State, written: set<Object>, returned: seq<Binding>, budget: nat, settled: bool, fits: bool)

  function BindEnv(params: seq<Object>, bindings: seq<Binding>): Env
    decreases params
  {
    if params == [] || bindings == [] then map[]
    else BindEnv(params[1..], bindings[1..])[params[0] := bindings[0]]
  }

  function Extend(a: Result, b: Result): Result
    requires a.Done?
  {
    match b
    case Fail(_) => b
    case Done(s, w, r, n, c, f) => Done(s, a.written + w, a.returned + r, n, a.settled && c, a.fits && f)
  }

  /** A further condition for trusting the answer. */
  function Given(fits: bool, r: Result): Result {
    match r
    case Fail(_) => r
    case Done(_, _, _, _, _, f) => r.(fits := fits && f)
  }

  function TransferBlock(p: Program, body: seq<Stmt>, env: Env, s: State, active: set<nat>, budget: nat): (r: Result)
    ensures r.budget <= budget
    decreases budget, 2, |body|
  {
    if body == [] then Done(s, {}, [], budget, true, true)
    else if budget == 0 then Fail(budget)
    else
      var first := TransferStmt(p, body[0], |body| == 1, env, s, active, budget - 1);
      if first.Fail? then first
      else Extend(first, TransferBlock(p, body[1..], env, first.state, active, first.budget))
  }

  function TransferStmt(
      p: Program, stmt: Stmt, last: bool, env: Env, s: State, active: set<nat>, budget: nat): (r: Result)
    ensures r.budget <= budget
    decreases budget, 6, 0
  {
    match stmt
    case Assign(_, _, _) => FromApplied(ApplyHeader(p, env, s, Some(stmt)), budget, HeaderFits(p, env, s, Some(stmt)))
    case IncDec(_, _) => FromApplied(ApplyHeader(p, env, s, Some(stmt)), budget, HeaderFits(p, env, s, Some(stmt)))
    case Declare(_) => FromApplied(ApplyHeader(p, env, s, Some(stmt)), budget, HeaderFits(p, env, s, Some(stmt)))
    case Print(_) => Done(s, {}, [], budget, true, true)
    case CallStmt(call) => Silent(TransferCall(p, call, env, s, active, budget))
    case Block(body) => Silent(TransferBlock(p, body, env, s, active, budget))
    case For(init, cond, post, body) => TransferLoop(p, init, cond, post, body, env, s, active, budget)
    case Return(results) =>
      if last && forall o | o in results && o.Value? :: ExprDependency(p, env, s, o.e).known
      then TransferResults(p, results, env, s, active, budget)
      else Fail(budget)
    case Empty => Done(s, {}, [], budget, true, true)
    case Unsupported => Fail(budget)
  }

  function FromApplied(a: Applied, budget: nat, fits: bool): Result {
    match a
    case Rejected => Fail(budget)
    case Applied(s, w) => Done(s, w, [], budget, true, fits)
  }

  /** Statement position: whatever is returned is dropped. */
  function Silent(r: Result): Result {
    match r
    case Fail(_) => r
    case Done(s, w, _, n, c, f) => Done(s, w, [], n, c, f)
  }

  function TransferResults(
      p: Program, results: seq<Operand>, env: Env, s: State, active: set<nat>, budget: nat): (r: Result)
    ensures r.budget <= budget
    decreases budget, 5, |results|
  {
    if results == [] then Done(s, {}, [], budget, true, true)
    else
      var first := TransferOperand(p, results[0], env, s, active, budget);
      if first.Fail? then first
      else Extend(first, TransferResults(p, results[1..], env, first.state, active, first.budget))
  }

  function TransferOperand(p: Program, operand: Operand, env: Env, s: State, active: set<nat>, budget: nat): (r: Result)
    ensures r.budget <= budget
    decreases budget, 5, 0
  {
    match operand
    case Value(e) => Done(s, {}, [Snapshot(p, env, s, e)], budget, true, ScanFits(p, env, s, e))
    case CallResult(call) =>
      var r := TransferCall(p, call, env, s, active, budget);
      if r.Done? && r.returned == [] then r.(returned := [Binding(OPAQUE_CALL, None)]) else r
  }

  function TransferLoop(
    p: Program, init: Option<Stmt>, cond: Option<Condition>, post: Option<Stmt>, body: seq<Stmt>,
    env: Env, s: State, active: set<nat>, budget: nat): (r: Result)
    ensures r.budget <= budget
    decreases budget, 5, 0
  {
    match ApplyHeader(p, env, s, init)
    case Rejected => Fail(budget)
    case Applied(entry, written) =>
      if cond.Some? && !ExprDependency(p, env, entry, cond.value.e).known then Fail(budget)
      else
        Given(HeaderFits(p, env, s, init),
              if cond.Some? && cond.value.constant == Some(false) then Done(entry, written, [], budget, true, true)
              else TransferRounds(p, post, body, env, entry, entry, written, active, budget, LOOP_ROUNDS))
  }

  /** One trip through the body and the post statement, from the given head. */
  function TransferRound(
    p: Program, post: Option<Stmt>, body: seq<Stmt>, env: Env, head: State, active: set<nat>, budget: nat): (r: Result)
    ensures r.budget <= budget
    decreases budget, 3, 0
  {
    match TransferBlock(p, body, env, head, active, budget)
    case Fail(n) => Fail(n)
    case Done(out, w, returned, n, c, f) =>
      if returned != [] then Fail(n)
      else match ApplyHeader(p, env, out, post)
        case Rejected => Fail(n)
        case Applied(out', w') => Done(out', w + w', [], n, c, f && HeaderFits(p, env, out, post))
  }

  function TransferRounds(
    p: Program, post: Option<Stmt>, body: seq<Stmt>, env: Env, entry: State, head: State,
    written: set<Object>, active: set<nat>, budget: nat, rounds: nat): (r: Result)
    ensures r.budget <= budget
    ensures r.Done? ==> written <= r.written && r.returned == []
    decreases budget, 4, rounds
  {
    if rounds == 0 then Done(head, written, [], budget, false, true)
    else match TransferRound(p, post, body, env, head, active, budget)
      case Fail(n) => Fail(n)
      case Done(out, w, _, n, c, f) =>
        var merged := Union([entry, out]);
        if Key(merged) == Key(head) then Done(merged, written + w, [], n, c, f)
        else
          var rest := TransferRounds(p, post, body, env, entry, merged, written + w, active, n, rounds - 1);
          Given(f || (rest.Done? && rest.settled), rest)
  }

  /** Arguments are snapshotted before any body runs; the possible bodies are then joined. */
  function TransferCall(p: Program, call: Call, env: Env, s: State, active: set<nat>, budget: nat): (r: Result)
    ensures r.budget <= budget
    decreases budget, 4, 0
  {
    if budget == 0 then Fail(budget)
    else if call.callees == [] then Fail(budget - 1)
    else
      var bindings := Snapshots(p, env, s, call.args);
      match TransferCallees(p, call.callees, bindings, s, active, budget - 1)
      case CalleesFail(n) => Fail(n)
      case CalleesDone(outputs, written, returnSets, n, c, f) =>
        match MergeReturns(returnSets)
        case None => Fail(n)
        case Some(merged) => Done(Union(outputs), written, merged, n, c, AllFit(p, env, s, call.args) && f)
  }

  datatype CalleesResult =
    | CalleesFail(budget: nat)
    | CalleesDone(outputs: seq<State>, written: set<Object>, returnSets: seq<seq<Binding>>, budget: nat,
                  settled: bool, fits: bool)

  function TransferCallees(
    p: Program, callees: seq<nat>, bindings: seq<Binding>, s: State, active: set<nat>, budget: nat): (r: CalleesResult)
    ensures r.budget <= budget
    ensures r.CalleesDone? ==> |r.outputs| == |r.returnSets| == |callees|
    decreases budget, 3, |callees|
  {
    if callees == [] then CalleesDone([], {}, [], budget, true, true)
    else
      var k := callees[0];
      if k >= |p.functions| || k in active then CalleesFail(budget)
      else
        match TransferBlock(p, p.functions[k].body, BindEnv(p.functions[k].params, bindings), s, active + {k}, budget)
        case Fail(n) => CalleesFail(n)
        case Done(out, w, returned, n, c, f) =>
          match TransferCallees(p, callees[1..], bindings, s, active, n)
          case CalleesFail(n') => CalleesFail(n')
          case CalleesDone(outs, w', rets, n', c', f') =>
            CalleesDone([out] + outs, w + w', [returned] + rets, n', c && c', f && f')
  }

  predicate SameArity(sets: seq<seq<Binding>>, count: nat) {
    forall r | r in sets :: |r| == count
  }

  function MergeReturns(sets: seq<seq<Binding>>): Option<seq<Binding>> {
    if sets == [] || !SameArity(sets, |sets[0]|) then None
    else Some(seq(|sets[0]|, i requires 0 <= i < |sets[0]| && SameArity(sets, |sets[0]|) =>
      MergeBindings(seq(|sets|, k requires 0 <= k < |sets| && SameArity(sets, |sets[0]|) => sets[k][i]))))
  }

  /** The k-th result of a call whose callable may be any of several bodies. */
  function MergeBindings(row: seq<Binding>): Binding
    requires row != []
  {
    Binding(
      Dependency(
        exists b: Binding | b in row :: b.dependency.derived,
        exists b: Binding | b in row :: b.dependency.stride,
        forall b: Binding | b in row :: b.dependency.known),
      if row[0].pointer.None? then None
      else Some(Alias(
        set b: Binding, t: Object | b in row && b.pointer.Some? && t in b.pointer.value.targets :: t,
        forall b: Binding | b in row :: b.pointer.Some? && b.pointer.value.known)))
  }

  /** The entry point: a fresh budget, no active body, and a tracked alias map. */
  function OrderedCall(p: Program, call: Call, initial: State): Result {
    TransferCall(p, call, map[], initial.(aliases := Some(Tracked(initial))), {}, CALL_BUDGET)
  }
}
