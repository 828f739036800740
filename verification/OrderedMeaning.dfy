/**
 What the data flag is worth: along one path of control, cells that do not
 carry it hold the same value whatever the loop variable held. Together with
 the soundness of the transfer, a variable left out of `deps` cannot show the
 loop variable's value (checks/ps1006.go:942-960).
 */
module OrderedMeaning {
  import opened AliasResolution
  import opened DependencyState
  import opened GoBodies
  import opened OrderedTransfer
  import opened OrderedSoundness
  import opened Wrappers

  /** Same flags and, unless both are flagged numbers, the same value. */
  predicate CellsAgree(a: Cell, b: Cell) {
    && a.data == b.data && a.stride == b.stride
    && (a.value == b.value || (a.data && a.value.Num? && b.value.Num?))
  }

  ghost predicate Agree(a: Store, b: Store) {
    forall o: Object :: CellsAgree(Load(a, o), Load(b, o))
  }

  predicate ListsAgree(a: seq<Cell>, b: seq<Cell>) {
    |a| == |b| && forall i | 0 <= i < |a| :: CellsAgree(a[i], b[i])
  }

  ghost predicate StoresAgree(a: Option<Store>, b: Option<Store>) {
    a.Some? == b.Some? && (a.Some? ==> Agree(a.value, b.value))
  }

  ghost predicate OutcomesAgree(a: Outcome, b: Outcome) {
    match (a, b)
    case (Stuck, Stuck) => true
    case (Next(s), Next(t)) => Agree(s, t)
    case (Returned(s, v), Returned(t, w)) => Agree(s, t) && ListsAgree(v, w)
    case _ => false
  }

  lemma {:induction false} EvalAgrees(p: Program, a: Store, b: Store, e: Expr)
    requires Agree(a, b)
    ensures Eval(p, a, e).Some? == Eval(p, b, e).Some?
    ensures Eval(p, a, e).Some? ==> CellsAgree(Eval(p, a, e).value, Eval(p, b, e).value)
  {
    match e
    case Deref(x) => EvalAgrees(p, a, b, x);
    case Unary(_, x) => EvalAgrees(p, a, b, x);
    case Convert(_, x) => EvalAgrees(p, a, b, x);
    case Binary(_, l, r) => EvalAgrees(p, a, b, l); EvalAgrees(p, a, b, r);
    case Index(x, i) => EvalAgrees(p, a, b, x); EvalAgrees(p, a, b, i);
    case _ =>
  }

  lemma EvalAllAgrees(p: Program, a: Store, b: Store, es: seq<Expr>)
    requires Agree(a, b)
    ensures EvalAll(p, a, es).Some? == EvalAll(p, b, es).Some?
    ensures EvalAll(p, a, es).Some? ==> ListsAgree(EvalAll(p, a, es).value, EvalAll(p, b, es).value)
  {
    forall e | e in es
      ensures Eval(p, a, e).Some? == Eval(p, b, e).Some?
      ensures Eval(p, a, e).Some? ==> CellsAgree(Eval(p, a, e).value, Eval(p, b, e).value)
    {
      EvalAgrees(p, a, b, e);
    }
  }

  lemma PlacesAgree(p: Program, a: Store, b: Store, lhs: seq<Lhs>)
    requires Agree(a, b)
    ensures PlacesOf(p, a, lhs) == PlacesOf(p, b, lhs)
  {
    forall l | l in lhs ensures PlaceOf(p, a, l) == PlaceOf(p, b, l) {
      if l.Place? && l.e.Deref? { EvalAgrees(p, a, b, l.e.pointer); }
    }
  }

  lemma WriteAgrees(a: Store, b: Store, o: Object, c: Cell, d: Cell)
    requires Agree(a, b) && CellsAgree(c, d)
    ensures Agree(a[o := c], b[o := d])
  {
    var a', b' := a[o := c], b[o := d];
    forall q: Object ensures CellsAgree(Load(a', q), Load(b', q)) {
      if q != o { assert Load(a', q) == Load(a, q) && Load(b', q) == Load(b, q); }
    }
  }

  lemma {:induction false} WritesAgree(p: Program, a: Store, b: Store, targets: seq<Target>, v: seq<Cell>, w: seq<Cell>)
    requires Agree(a, b) && |targets| == |v| && ListsAgree(v, w)
    ensures StoresAgree(WriteAll(p, a, targets, v), WriteAll(p, b, targets, w))
    decreases targets
  {
    if targets != [] {
      match targets[0] {
        case At(o) =>
          WriteAgrees(a, b, o, v[0], w[0]);
          WritesAgree(p, a[o := v[0]], b[o := w[0]], targets[1..], v[1..], w[1..]);
        case Nowhere => WritesAgree(p, a, b, targets[1..], v[1..], w[1..]);
        case Unresolved =>
      }
    }
  }

  lemma AssignAgrees(p: Program, a: Store, b: Store, op: AssignOp, lhs: seq<Lhs>, rhs: seq<Expr>)
    requires Agree(a, b)
    ensures StoresAgree(RunAssign(p, a, op, lhs, rhs), RunAssign(p, b, op, lhs, rhs))
  {
    PlacesAgree(p, a, b, lhs);
    EvalAllAgrees(p, a, b, rhs);
    if |lhs| != 0 && |lhs| == |rhs| && EvalAll(p, a, rhs).Some? {
      var targets := PlacesOf(p, a, lhs);
      var v, w := EvalAll(p, a, rhs).value, EvalAll(p, b, rhs).value;
      if op.Plain? {
        WritesAgree(p, a, b, targets, v, w);
      } else if |lhs| == 1 && targets[0].At? {
        var x, y := Load(a, targets[0].obj), Load(b, targets[0].obj);
        WritesAgree(p, a, b, targets, [Computed(p.ops.binary(op.op, x.value, v[0].value), x, v[0])],
                    [Computed(p.ops.binary(op.op, y.value, w[0].value), y, w[0])]);
      }
    }
  }

  lemma HeadersAgree(p: Program, a: Store, b: Store, stmt: Option<Stmt>)
    requires Agree(a, b)
    ensures StoresAgree(RunHeader(p, a, stmt), RunHeader(p, b, stmt))
  {
    match stmt
    case Some(Assign(op, lhs, rhs)) => AssignAgrees(p, a, b, op, lhs, rhs);
    case Some(IncDec(op, place)) =>
      PlacesAgree(p, a, b, [Place(place)]);
      assert PlacesOf(p, a, [Place(place)])[0] == PlacesOf(p, b, [Place(place)])[0];
      if PlaceOf(p, a, Place(place)).At? {
        var o := PlaceOf(p, a, Place(place)).obj;
        var x, y := Load(a, o), Load(b, o);
        WriteAgrees(a, b, o, Computed(p.ops.unary(op, x.value), x, x), Computed(p.ops.unary(op, y.value), y, y));
      }
    case Some(Declare(specs)) => SpecsAgree(p, a, b, specs);
    case _ =>
  }

  lemma {:induction false} SpecsAgree(p: Program, a: Store, b: Store, specs: seq<Spec>)
    requires Agree(a, b)
    ensures StoresAgree(RunSpecs(p, a, specs), RunSpecs(p, b, specs))
    decreases |specs|
  {
    hide Agree, RunAssign;
    if specs != [] {
      AssignAgrees(p, a, b, Plain, specs[0].names, specs[0].values);
      var c, d := RunAssign(p, a, Plain, specs[0].names, specs[0].values),
        RunAssign(p, b, Plain, specs[0].names, specs[0].values);
      if c.Some? { SpecsAgree(p, c.value, d.value, specs[1..]); }
    }
  }

  lemma {:induction false} ParamsAgree(a: Store, b: Store, params: seq<Object>, v: seq<Cell>, w: seq<Cell>)
    requires Agree(a, b) && |params| == |v| && ListsAgree(v, w)
    ensures Agree(BindParams(a, params, v), BindParams(b, params, w))
    decreases params
  {
    if params != [] {
      WriteAgrees(a, b, params[0], v[0], w[0]);
      ParamsAgree(a[params[0] := v[0]], b[params[0] := w[0]], params[1..], v[1..], w[1..]);
    }
  }

  lemma BlocksAgree(p: Program, body: seq<Stmt>, steps: seq<Path>, a: Store, b: Store)
    requires Agree(a, b)
    ensures OutcomesAgree(RunBlock(p, body, steps, a), RunBlock(p, body, steps, b))
    decreases steps, 0
  {
    hide Agree, RunStmt;
    if body != [] && steps != [] {
      StmtsAgree(p, body[0], steps[0], a, b);
      var c, d := RunStmt(p, body[0], steps[0], a), RunStmt(p, body[0], steps[0], b);
      if c.Next? { BlocksAgree(p, body[1..], steps[1..], c.store, d.store); }
    }
  }

  lemma StmtsAgree(p: Program, stmt: Stmt, path: Path, a: Store, b: Store)
    requires Agree(a, b)
    ensures OutcomesAgree(RunStmt(p, stmt, path, a), RunStmt(p, stmt, path, b))
    decreases path, 2
  {
    hide Agree, RunHeader, RunCall, RunBlock, RunRounds, RunResults;
    match stmt
    case Assign(_, _, _) => HeadersAgree(p, a, b, Some(stmt));
    case IncDec(_, _) => HeadersAgree(p, a, b, Some(stmt));
    case Declare(_) => HeadersAgree(p, a, b, Some(stmt));
    case Print(args) => EvalAllAgrees(p, a, b, args);
    case CallStmt(call) => CallsAgree(p, call, path, a, b);
    case Block(body) => if path.Nested? { BlocksAgree(p, body, path.steps, a, b); }
    case For(init, cond, post, body) =>
      HeadersAgree(p, a, b, init);
      if path.Rounds? && RunHeader(p, a, init).Some? {
        RoundsAgree(p, body, post, path.rounds, RunHeader(p, a, init).value, RunHeader(p, b, init).value);
      }
    case Return(results) =>
      if path.Results? && |path.parts| == |results| { ResultsAgree(p, results, path.parts, a, b); }
    case Empty =>
    case Unsupported =>
  }

  lemma RoundsAgree(p: Program, body: seq<Stmt>, post: Option<Stmt>, rounds: seq<Path>, a: Store, b: Store)
    requires Agree(a, b)
    ensures OutcomesAgree(RunRounds(p, body, post, rounds, a), RunRounds(p, body, post, rounds, b))
    decreases rounds, 0
  {
    hide Agree, RunBlock, RunHeader;
    if rounds != [] && rounds[0].Nested? {
      var steps := rounds[0].steps;
      BlocksAgree(p, body, steps, a, b);
      var c, d := RunBlock(p, body, steps, a), RunBlock(p, body, steps, b);
      if c.Next? {
        HeadersAgree(p, c.store, d.store, post);
        if RunHeader(p, c.store, post).Some? {
          RoundsAgree(p, body, post, rounds[1..], RunHeader(p, c.store, post).value, RunHeader(p, d.store, post).value);
        }
      }
    }
  }

  lemma CallsAgree(p: Program, call: Call, path: Path, a: Store, b: Store)
    requires Agree(a, b)
    ensures OutcomesAgree(RunCall(p, call, path, a), RunCall(p, call, path, b))
    decreases path, 0
  {
    hide Agree, RunBlock;
    EvalAllAgrees(p, a, b, call.args);
    if path.Enter? && path.callee < |p.functions| && EvalAll(p, a, call.args).Some? {
      var f := p.functions[path.callee];
      var v, w := EvalAll(p, a, call.args).value, EvalAll(p, b, call.args).value;
      assert forall i | 0 <= i < |v| && i < |f.params| :: Fits(p, f.params[i], v[i]) == Fits(p, f.params[i], w[i]);
      if |v| == |f.params| {
        ParamsAgree(a, b, f.params, v, w);
        BlocksAgree(p, f.body, path.steps, BindParams(a, f.params, v), BindParams(b, f.params, w));
      }
    }
  }

  lemma OperandsAgree(p: Program, operand: Operand, part: Path, a: Store, b: Store)
    requires Agree(a, b)
    ensures OutcomesAgree(RunOperand(p, operand, part, a), RunOperand(p, operand, part, b))
    decreases part, 1
  {
    match operand
    case Value(e) => EvalAgrees(p, a, b, e);
    case CallResult(call) => CallsAgree(p, call, part, a, b);
  }

  lemma ResultsAgree(p: Program, results: seq<Operand>, parts: seq<Path>, a: Store, b: Store)
    requires Agree(a, b) && |results| == |parts|
    ensures OutcomesAgree(RunResults(p, results, parts, a), RunResults(p, results, parts, b))
    decreases parts, 3
  {
    hide Agree, RunOperand;
    if results == [] { return; }
    OperandsAgree(p, results[0], parts[0], a, b);
    var c, d := RunOperand(p, results[0], parts[0], a), RunOperand(p, results[0], parts[0], b);
    if c.Returned? { ResultsAgree(p, results[1..], parts[1..], c.store, d.store); }
  }

  /**
   End to end: take a call the transfer answers, and two stores that differ only
   in the numbers of cells holding loop data. The same path ends normally in
   both or in neither, and any variable outside `deps` ends with the same value.
   */
  lemma LoopVariableDoesNotReach(p: Program, call: Call, initial: State, path: Path, a: Store, b: Store, x: Object)
    requires WellFormed(p) && ScopedAll(p, {}, call.args)
    requires CoversNow(p, initial, a) && Typed(p, a) && Agree(a, b)
    requires MayStart(p, initial, OrderedCall(p, call, initial))
    requires OrderedCall(p, call, initial).settled || AtMost(path, LOOP_ROUNDS)
    requires OrderedCall(p, call, initial).fits
    requires !IsFormal(p, x) && x != p.inner && x !in OrderedCall(p, call, initial).state.deps
    ensures RunCall(p, call, path, a).Returned? == RunCall(p, call, path, b).Returned?
    ensures RunCall(p, call, path, a).Returned? ==>
              Load(RunCall(p, call, path, a).store, x).value == Load(RunCall(p, call, path, b).store, x).value
  {
    hide CoversNow, Typed, WellFormed, RunCall, OrderedCall, Anchored;
    CallsAgree(p, call, path, a, b);
    var out := RunCall(p, call, path, a);
    if out.Returned? {
      OrderedCallSound(p, call, initial, path, a);
      assert CellsAgree(Load(out.store, x), Load(RunCall(p, call, path, b).store, x));
    }
  }
}
