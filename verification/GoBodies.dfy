/**
 The Go bodies the ordered transfer walks, and what running them does.

 Every cell carries, beside its value, two flags: it holds data that came from
 the loop variable, and it holds such data in stride position. Data moves only
 explicitly, through values that are read and stored; loop conditions do not
 mark anything. A Path fixes the control flow of one terminating run: which
 body a call enters and how often each loop goes round.
 */
module GoBodies {
  import opened DependencyState
  import opened Wrappers

  datatype Expr =
    | NilLiteral
    | Literal(n: int)
    | Var(obj: Object)
    | AddressOf(obj: Object)
    | Deref(pointer: Expr)
    | Unary(op: nat, operand: Expr)
    | Binary(op: nat, left: Expr, right: Expr)
    | Convert(op: nat, operand: Expr)
    | Index(base: Expr, index: Expr)

  datatype Lhs = Blank | Place(e: Expr)

  datatype AssignOp = Plain | Compound(op: nat)

  /** A call through a callable that may name any of several bodies. */
  datatype Call = Call(callees: seq<nat>, args: seq<Expr>)

  datatype Operand = Value(e: Expr) | CallResult(call: Call)

  datatype Condition = Condition(e: Expr, constant: Option<bool>)

  datatype Stmt =
    | Assign(kind: AssignOp, lhs: seq<Lhs>, rhs: seq<Expr>)
    | IncDec(op: nat, place: Expr)
    | Declare(specs: seq<Spec>)
    | Print(args: seq<Expr>)
    | CallStmt(call: Call)
    | Block(body: seq<Stmt>)
    | For(init: Option<Stmt>, cond: Option<Condition>, post: Option<Stmt>, body: seq<Stmt>)
    | Return(results: seq<Operand>)
    | Empty
    | Unsupported

  /** One line of a var declaration: names and their values. */
  datatype Spec = Spec(names: seq<Lhs>, values: seq<Expr>)

  datatype Function = Function(params: seq<Object>, body: seq<Stmt>)

  datatype Arithmetic = Arithmetic(
    unary: (nat, Datum) -> int, binary: (nat, Datum, Datum) -> int, index: (Datum, Datum) -> int)

  /** `depth` counts the pointer levels of an object's type. `values` are the expressions a pointer
      may have been given its value by, the answer of ps4008PossibleAliasValues. */
  datatype Program = Program(
    functions: seq<Function>, depth: Object -> nat, values: map<Object, seq<Expr>>, inner: Object, ops: Arithmetic)

  predicate IsFormal(p: Program, o: Object) {
    exists f | 0 <= f < |p.functions| :: o in p.functions[f].params
  }

  /** Pointer levels of an expression's type. */
  function Depth(p: Program, e: Expr): int {
    match e
    case Var(o) => p.depth(o)
    case AddressOf(o) => p.depth(o) + 1
    case Deref(x) => Depth(p, x) - 1
    case Convert(_, x) => Depth(p, x)
    case _ => 0
  }

  // ----- memory -----

  datatype Datum = Num(n: int) | Ref(target: Object) | NilRef

  datatype Cell = Cell(value: Datum, data: bool, stride: bool)

  type Store = map<Object, Cell>

  function Load(store: Store, o: Object): Cell {
    if o in store then store[o] else Cell(Num(0), false, false)
  }

  function Computed(n: int, a: Cell, b: Cell): Cell {
    Cell(Num(n), a.data || b.data, a.stride || b.stride)
  }

  function Eval(p: Program, store: Store, e: Expr): Option<Cell> {
    match e
    case NilLiteral => Some(Cell(NilRef, false, false))
    case Literal(n) => Some(Cell(Num(n), false, false))
    case Var(o) => Some(Load(store, o))
    case AddressOf(o) => Some(Cell(Ref(o), false, false))
    case Deref(x) =>
      (match Eval(p, store, x)
       case Some(Cell(Ref(t), _, _)) => Some(Load(store, t))
       case _ => None)
    case Unary(op, x) =>
      (match Eval(p, store, x)
       case Some(c) => Some(Computed(p.ops.unary(op, c.value), c, c))
       case None => None)
    case Binary(op, l, r) =>
      (match (Eval(p, store, l), Eval(p, store, r))
       case (Some(a), Some(b)) => Some(Computed(p.ops.binary(op, a.value, b.value), a, b))
       case _ => None)
    case Convert(op, x) =>
      (match Eval(p, store, x)
       case Some(c) => Some(if c.value.Num? then Computed(p.ops.unary(op, c.value), c, c) else c)
       case None => None)
    case Index(x, i) =>
      (match (Eval(p, store, x), Eval(p, store, i))
       case (Some(a), Some(b)) => Some(Computed(p.ops.index(a.value, b.value), a, b))
       case _ => None)
  }

  /** Where an assignment goes: nowhere, one object, or not resolved. */
  datatype Target = Nowhere | At(obj: Object) | Unresolved

  function PlaceOf(p: Program, store: Store, lhs: Lhs): Target {
    match lhs
    case Blank => Nowhere
    case Place(Var(o)) => At(o)
    case Place(Deref(x)) =>
      (match Eval(p, store, x)
       case Some(Cell(Ref(t), _, _)) => At(t)
       case _ => Unresolved)
    case _ => Unresolved
  }

  function PlacesOf(p: Program, store: Store, lhs: seq<Lhs>): seq<Target> {
    seq(|lhs|, i requires 0 <= i < |lhs| => PlaceOf(p, store, lhs[i]))
  }

  function EvalAll(p: Program, store: Store, es: seq<Expr>): (r: Option<seq<Cell>>)
    ensures r.Some? ==> |r.value| == |es| && forall i | 0 <= i < |es| :: Eval(p, store, es[i]) == Some(r.value[i])
    ensures r.None? ==> exists i | 0 <= i < |es| :: Eval(p, store, es[i]).None?
  {
    if forall e | e in es :: Eval(p, store, e).Some?
    then Some(seq(|es|, i requires 0 <= i < |es| => Eval(p, store, es[i]).value))
    else None
  }

  /** Go's type checker never lets a pointer of the wrong level into an object. */
  predicate Fits(p: Program, o: Object, c: Cell) {
    c.value.Ref? ==> p.depth(c.value.target) + 1 == p.depth(o)
  }

  function WriteAll(p: Program, store: Store, targets: seq<Target>, cells: seq<Cell>): Option<Store>
    requires |targets| == |cells|
    decreases targets
  {
    if targets == [] then Some(store)
    else match targets[0]
      case Nowhere => WriteAll(p, store, targets[1..], cells[1..])
      case At(o) =>
        if Fits(p, o, cells[0]) then WriteAll(p, store[o := cells[0]], targets[1..], cells[1..]) else None
      case Unresolved => None
  }

  /** Operands and places first, then the writes from left to right. */
  function RunAssign(p: Program, store: Store, op: AssignOp, lhs: seq<Lhs>, rhs: seq<Expr>): Option<Store> {
    if |lhs| == 0 || |lhs| != |rhs| || (op.Compound? && |lhs| != 1) then None
    else
      var targets := PlacesOf(p, store, lhs);
      match EvalAll(p, store, rhs)
      case None => None
      case Some(cells) =>
        if op.Plain? then WriteAll(p, store, targets, cells)
        else if !targets[0].At? then None
        else
          var before := Load(store, targets[0].obj);
          WriteAll(p, store, targets,
                   [Computed(p.ops.binary(op.op, before.value, cells[0].value), before, cells[0])])
  }

  function RunIncDec(p: Program, store: Store, op: nat, place: Expr): Option<Store> {
    match PlaceOf(p, store, Place(place))
    case At(o) =>
      var before := Load(store, o);
      Some(store[o := Computed(p.ops.unary(op, before.value), before, before)])
    case _ => None
  }

  /** The statements a loop header may hold. */
  function RunHeader(p: Program, store: Store, stmt: Option<Stmt>): Option<Store> {
    match stmt
    case None => Some(store)
    case Some(Empty) => Some(store)
    case Some(Assign(op, lhs, rhs)) => RunAssign(p, store, op, lhs, rhs)
    case Some(IncDec(op, place)) => RunIncDec(p, store, op, place)
    case Some(Declare(specs)) => RunSpecs(p, store, specs)
    case _ => None
  }

  function RunSpecs(p: Program, store: Store, specs: seq<Spec>): Option<Store>
    decreases |specs|
  {
    if specs == [] then Some(store)
    else match RunAssign(p, store, Plain, specs[0].names, specs[0].values)
      case None => None
      case Some(s) => RunSpecs(p, s, specs[1..])
  }

  // ----- control -----

  datatype Path =
    | Step
    | Nested(steps: seq<Path>)
    | Rounds(rounds: seq<Path>)
    | Enter(callee: nat, steps: seq<Path>)
    | Results(parts: seq<Path>)

  datatype Outcome = Stuck | Next(store: Store) | Returned(store: Store, values: seq<Cell>)

  function BindParams(store: Store, params: seq<Object>, cells: seq<Cell>): Store
    requires |params| == |cells|
    decreases params
  {
    if params == [] then store else BindParams(store[params[0] := cells[0]], params[1..], cells[1..])
  }

  function RunBlock(p: Program, body: seq<Stmt>, steps: seq<Path>, store: Store): Outcome
    decreases steps, 0
  {
    if body == [] then Next(store)
    else if steps == [] then Stuck
    else match RunStmt(p, body[0], steps[0], store)
      case Next(s) => RunBlock(p, body[1..], steps[1..], s)
      case other => other
  }

  function RunStmt(p: Program, stmt: Stmt, path: Path, store: Store): Outcome
    decreases path, 1
  {
    match stmt
    case Assign(_, _, _) => NextOrStuck(RunHeader(p, store, Some(stmt)))
    case IncDec(_, _) => NextOrStuck(RunHeader(p, store, Some(stmt)))
    case Declare(_) => NextOrStuck(RunHeader(p, store, Some(stmt)))
    case Print(args) => if EvalAll(p, store, args).Some? then Next(store) else Stuck
    case CallStmt(call) =>
      (match RunCall(p, call, path, store)
       case Returned(s, _) => Next(s)
       case _ => Stuck)
    case Block(body) => if path.Nested? then RunBlock(p, body, path.steps, store) else Stuck
    case For(init, cond, post, body) =>
      if !path.Rounds? || (cond.Some? && cond.value.constant == Some(false) && path.rounds != []) then Stuck
      else
        (match RunHeader(p, store, init)
         case None => Stuck
         case Some(s) => RunRounds(p, body, post, path.rounds, s))
    case Return(results) =>
      if path.Results? && |path.parts| == |results| then RunResults(p, results, path.parts, store) else Stuck
    case Empty => Next(store)
    case Unsupported => Stuck
  }

  function NextOrStuck(store: Option<Store>): Outcome {
    match store
    case Some(s) => Next(s)
    case None => Stuck
  }

  /** One trip: the body, then the post statement. */
  function RunRound(p: Program, body: seq<Stmt>, post: Option<Stmt>, round: Path, store: Store): Outcome
    decreases round, 1
  {
    if !round.Nested? then Stuck
    else match RunBlock(p, body, round.steps, store)
      case Next(s) => NextOrStuck(RunHeader(p, s, post))
      case other => other
  }

  function RunRounds(p: Program, body: seq<Stmt>, post: Option<Stmt>, rounds: seq<Path>, store: Store): Outcome
    decreases rounds, 0
  {
    if rounds == [] then Next(store)
    else match RunRound(p, body, post, rounds[0], store)
      case Next(s) => RunRounds(p, body, post, rounds[1..], s)
      case other => other
  }

  /** A call binds the callee's parameters and always ends as Returned. */
  function RunCall(p: Program, call: Call, path: Path, store: Store): (out: Outcome)
    ensures !out.Next?
    decreases path, 0
  {
    if !path.Enter? || path.callee !in call.callees || path.callee >= |p.functions| then Stuck
    else
      var f := p.functions[path.callee];
      match EvalAll(p, store, call.args)
      case None => Stuck
      case Some(cells) =>
        if |cells| != |f.params| || exists i | 0 <= i < |cells| :: !Fits(p, f.params[i], cells[i]) then Stuck
        else match RunBlock(p, f.body, path.steps, BindParams(store, f.params, cells))
          case Next(s) => Returned(s, [])
          case other => other
  }

  function RunOperand(p: Program, operand: Operand, part: Path, store: Store): (out: Outcome)
    ensures !out.Next?
    decreases part, 1
  {
    match operand
    case Value(e) =>
      (match Eval(p, store, e)
       case Some(c) => Returned(store, [c])
       case None => Stuck)
    case CallResult(call) =>
      var out := RunCall(p, call, part, store);
      if out.Returned? && out.values == [] then Stuck else out
  }

  function RunResults(p: Program, results: seq<Operand>, parts: seq<Path>, store: Store): (out: Outcome)
    ensures !out.Next?
    requires |results| == |parts|
    decreases parts, 2
  {
    if results == [] then Returned(store, [])
    else match RunOperand(p, results[0], parts[0], store)
      case Returned(s, values) =>
        (match RunResults(p, results[1..], parts[1..], s)
         case Returned(s', rest) => Returned(s', values + rest)
         case _ => Stuck)
      case _ => Stuck
  }

  /** No loop on the path goes round more than `limit` times. */
  predicate AtMost(path: Path, limit: nat)
    decreases path, 0
  {
    match path
    case Step => true
    case Nested(steps) => AllAtMost(steps, limit)
    case Rounds(rounds) => |rounds| <= limit && AllAtMost(rounds, limit)
    case Enter(_, steps) => AllAtMost(steps, limit)
    case Results(parts) => AllAtMost(parts, limit)
  }

  predicate AllAtMost(paths: seq<Path>, limit: nat)
    decreases paths, 0
  {
    paths == [] || (AtMost(paths[0], limit) && AllAtMost(paths[1..], limit))
  }
}
