/**
 Whole calls mark no more than is true: where every load has one target, every
 mark in the answer is left by some run of the call (checks/ps1006.go:962-1525).

 A mark is traced back to one cell. For every statement there is a path along
 which the mark of that cell is carried from any store to its goal, so that the
 paths of the statements fit together.
 */
module CallPrecision {
  import opened DependencyState
  import opened GoBodies
  import opened OrderedSoundness
  import opened OrderedTransfer
  import opened Precision
  import opened SharpLoads
  import opened Wrappers

  type Stmt = GoBodies.Stmt

  // ----- stores that point where the watched pointers are known to point -----

  predicate PointsInto(c: Cell, a: Alias) {
    OneTarget(a) ==> c.value.Ref? && c.value.target in a.targets
  }

  ghost predicate Agrees(p: Program, w: set<Object>, s: State, store: Store) {
    forall o: Object | o in w && !IsFormal(p, o) :: PointsInto(Load(store, o), AliasIn(map[], s, o))
  }

  ghost predicate EnvAgrees(w: set<Object>, env: Env, store: Store) {
    forall o | o in env && o in w && env[o].pointer.Some? :: PointsInto(Load(store, o), env[o].pointer.value)
  }

  // ----- what is carried where -----

  /** The program, the watched pointers, the active bodies, and the kind of mark. */
  datatype View = View(p: Program, w: set<Object>, active: set<nat>, data: bool)

  datatype Goal = Nothing | InCell(o: Object) | InResult(i: nat)

  /** The abstract side: formals of active bodies keep what they have, everything else is marked. */
  ghost predicate Wanted(v: View, s: State, returned: seq<Binding>, goal: Goal) {
    match goal
    case Nothing => true
    case InCell(o) =>
      if IsFormal(v.p, o) then exists f :: f in v.active && o in Params(v.p, f)
      else Flagged(ObjectDependency(v.p, s, o), v.data)
    case InResult(i) => i < |returned| && Flagged(returned[i].dependency, v.data)
  }

  /** The concrete side. */
  predicate Delivered(store: Store, values: seq<Cell>, goal: Goal, data: bool) {
    match goal
    case Nothing => true
    case InCell(o) => Carried(Load(store, o), data)
    case InResult(i) => i < |values| && Carried(values[i], data)
  }

  predicate IsMarked(v: View, env: Env, s: State, o: Object) {
    (o in env || !IsFormal(v.p, o)) && Flagged(IdentifierDependency(v.p, env, s, o), v.data)
  }

  /** Where the goal's mark comes from. */
  predicate IsSource(v: View, env: Env, s: State, goal: Goal, src: Goal) {
    if goal.InCell? && IsFormal(v.p, goal.o) then src == goal
    else if goal.Nothing? then src == Nothing
    else src.InCell? && IsMarked(v, env, s, src.o)
  }

  ghost predicate Starts(v: View, env: Env, s: State, store: Store, src: Goal) {
    Typed(v.p, store) && Agrees(v.p, v.w, s, store) && EnvAgrees(v.w, env, store) && Delivered(store, [], src, v.data)
  }

  /** The answer t is met, and the formals of active bodies keep their values. */
  ghost predicate Arrives(v: View, t: State, before: Store, store: Store, values: seq<Cell>, goal: Goal) {
    && Typed(v.p, store) && Agrees(v.p, v.w, t, store) && FormalsKept(v.p, v.active, before, store)
    && Delivered(store, values, goal, v.data)
  }

  /** The run ends, with as many values as the answer has, and the goal is reached. */
  ghost predicate Ends(v: View, t: State, before: Store, out: Outcome, count: nat, goal: Goal) {
    match out
    case Stuck => false
    case Next(store) => count == 0 && Arrives(v, t, before, store, [], goal)
    case Returned(store, values) => count == |values| && Arrives(v, t, before, store, values, goal)
  }

  ghost predicate Context(v: View, env: Env) {
    ShapedProgram(v.p, false) && EnvOwned(v.p, env, v.active) && forall f | f in v.active :: f < |v.p.functions|
  }

  /** What runs next starts where the last run arrived. */
  lemma Onward(v: View, env: Env, s: State, t: State, before: Store, store: Store, src: Goal, mid: Goal)
    requires Context(v, env) && Starts(v, env, s, before, src) && Arrives(v, t, before, store, [], mid)
    ensures Starts(v, env, t, store, mid)
  {
    hide ShapedProgram;
  }

  lemma Further(v: View, t: State, a: Store, b: Store, c: Store, values: seq<Cell>, goal: Goal)
    requires FormalsKept(v.p, v.active, a, b) && Arrives(v, t, b, c, values, goal)
    ensures Arrives(v, t, a, c, values, goal)
  {
  }

  /** Where nothing is done the goal is its own source. */
  lemma Stays(v: View, env: Env, s: State, goal: Goal)
    requires Context(v, env) && Wanted(v, s, [], goal)
    ensures IsSource(v, env, s, goal, goal) && !goal.InResult?
    ensures forall m | Starts(v, env, s, m, goal) :: Arrives(v, s, m, m, [], goal)
  {
    hide ShapedProgram;
  }

  // ----- expressions -----

  lemma AimResolves(p: Program, w: set<Object>, env: Env, s: State, x: Expr)
    requires Aim(p, w, env, s, x).Some?
    ensures PointerTargets(p, env, s, x) == Alias({Aim(p, w, env, s, x).value}, true)
    ensures !IsFormal(p, Aim(p, w, env, s, x).value)
  {
    match x
    case AddressOf(o) => AddressResolves(p, env, s, o);
    case Var(o) =>
      VariableResolves(p, env, s, o);
      if o !in env && o in Tracked(s) { TrackedResolves(p, env, s, o); }
    case Deref(y) =>
      AimResolves(p, w, env, s, y);
      TrackedResolves(p, env, s, Aim(p, w, env, s, y).value);
    case Convert(_, y) => AimResolves(p, w, env, s, y);
    case _ =>
  }

  lemma TrackedResolves(p: Program, env: Env, s: State, o: Object)
    requires o in Tracked(s)
    ensures ObjectTargets(p, env, s, o) == Tracked(s)[o]
  {
  }

  lemma AimEvaluates(v: View, env: Env, s: State, store: Store, x: Expr)
    requires Agrees(v.p, v.w, s, store) && EnvAgrees(v.w, env, store) && (forall o | o in env :: IsFormal(v.p, o))
    requires Scoped(v.p, env.Keys, x) && Aim(v.p, v.w, env, s, x).Some?
    ensures Eval(v.p, store, x).Some? && Eval(v.p, store, x).value.value == Ref(Aim(v.p, v.w, env, s, x).value)
  {
    match x
    case Var(o) =>
    case Deref(y) =>
      AimEvaluates(v, env, s, store, y);
      AimResolves(v.p, v.w, env, s, y);
    case Convert(_, y) => AimEvaluates(v, env, s, store, y);
    case _ =>
  }

  /** What an expression reads: the names it asks for, and the targets of its loads. */
  ghost predicate Feeds(v: View, env: Env, s: State, e: Expr, o: Object) {
    o in Asked(e) || exists x :: x in Followed(e) && Aim(v.p, v.w, env, s, x) == Some(o)
  }

  lemma {:induction false} SharpReads(v: View, env: Env, s: State, store: Store, e: Expr, o: Object)
    requires Agrees(v.p, v.w, s, store) && EnvAgrees(v.w, env, store) && (forall q | q in env :: IsFormal(v.p, q))
    requires Scoped(v.p, env.Keys, e) && Sharp(v.p, v.w, env, s, e)
    ensures Eval(v.p, store, e).Some?
    ensures Feeds(v, env, s, e, o) && Carried(Load(store, o), v.data) ==> Carried(Eval(v.p, store, e).value, v.data)
  {
    hide Agrees, EnvAgrees, Aim;
    match e
    case Deref(x) => AimEvaluates(v, env, s, store, x);
    case Unary(_, x) => SharpReads(v, env, s, store, x, o);
    case Convert(_, x) => SharpReads(v, env, s, store, x, o);
    case Binary(_, l, r) => SharpReads(v, env, s, store, l, o); SharpReads(v, env, s, store, r, o);
    case Index(x, i) =>
      BareReads(v.p, store, e);
      if o in Asked(e) && Carried(Load(store, o), v.data) { assert SomeCarries(store, Identifiers(e), v.data); }
    case _ =>
  }

  /** A marked expression reads something marked. */
  lemma {:induction false} SharpSource(v: View, env: Env, s: State, e: Expr) returns (o: Object)
    requires Sharp(v.p, v.w, env, s, e) && Flagged(ExprDependency(v.p, env, s, e), v.data)
    requires Scoped(v.p, env.Keys, e) && forall q | q in env :: IsFormal(v.p, q)
    ensures Feeds(v, env, s, e, o) && IsMarked(v, env, s, o)
  {
    hide IdentifierDependency, Aim, PointerTargets;
    match e
    case Var(x) => o := x;
    case Deref(x) =>
      AimResolves(v.p, v.w, env, s, x);
      o := Aim(v.p, v.w, env, s, x).value;
      assert x in Followed(e);
      NotInEnv(v.p, env, s, o);
    case Unary(_, x) => o := SharpSource(v, env, s, x);
    case Convert(_, x) => o := SharpSource(v, env, s, x);
    case Binary(_, l, r) =>
      if Flagged(ExprDependency(v.p, env, s, l), v.data) {
        o := SharpSource(v, env, s, l);
      } else {
        o := SharpSource(v, env, s, r);
      }
    case Index(x, i) =>
      o := ScanSource(v, env, s, Identifiers(e));
      NamesAreScoped(v.p, env.Keys, e);
    case _ => assert false;
  }

  lemma {:induction false} ScanSource(v: View, env: Env, s: State, names: seq<Object>) returns (o: Object)
    requires Flagged(Scan(v.p, env, s, names), v.data)
    ensures o in names && Flagged(IdentifierDependency(v.p, env, s, o), v.data)
  {
    hide IdentifierDependency;
    if names == [] {
      assert false;
    } else if Flagged(IdentifierDependency(v.p, env, s, names[0]), v.data) {
      o := names[0];
    } else {
      o := ScanSource(v, env, s, names[1..]);
    }
  }

  /** A marked expression of a body reads a marked cell, whose mark its value carries. */
  lemma ValueSource(v: View, env: Env, s: State, e: Expr) returns (src: Goal)
    requires Sharp(v.p, v.w, env, s, e) && Flagged(ExprDependency(v.p, env, s, e), v.data)
    requires Scoped(v.p, env.Keys, e) && forall q | q in env :: IsFormal(v.p, q)
    ensures src.InCell? && IsMarked(v, env, s, src.o)
    ensures forall store | Starts(v, env, s, store, src) ::
              Eval(v.p, store, e).Some? && Carried(Eval(v.p, store, e).value, v.data)
  {
    hide ExprDependency, Scoped, Sharp, Eval, IdentifierDependency, Agrees, EnvAgrees, Typed;
    var o := SharpSource(v, env, s, e);
    src := InCell(o);
    forall store | Starts(v, env, s, store, src)
      ensures Eval(v.p, store, e).Some? && Carried(Eval(v.p, store, e).value, v.data)
    {
      SharpReads(v, env, s, store, e, o);
    }
  }

  lemma SharpAllEvaluate(v: View, env: Env, s: State, store: Store, es: seq<Expr>)
    requires Agrees(v.p, v.w, s, store) && EnvAgrees(v.w, env, store) && (forall q | q in env :: IsFormal(v.p, q))
    requires ShapedAll(v.p, env.Keys, es, false) && SharpAll(v.p, v.w, env, s, es)
    ensures EvalAll(v.p, store, es).Some?
  {
    hide Scoped, Sharp, Eval, Agrees, EnvAgrees;
    forall e | e in es ensures Eval(v.p, store, e).Some? { SharpReads(v, env, s, store, e, 0); }
  }

  // ----- assignments -----

  /** The analysis and the run mean the same place. */
  lemma SamePlace(v: View, env: Env, s: State, store: Store, l: Lhs)
    requires Agrees(v.p, v.w, s, store) && EnvAgrees(v.w, env, store) && Typed(v.p, store)
    requires (forall q | q in env :: IsFormal(v.p, q)) && ScopedLhs(v.p, env.Keys, [l])
    requires AimOf(v.p, v.w, env, s, l) != Unresolved
    ensures PlaceOf(v.p, store, l) == TargetOf(v.p, env, s, l) == AimOf(v.p, v.w, env, s, l)
    ensures PlaceOf(v.p, store, l) == Nowhere <==> l == Blank
    ensures PlaceOf(v.p, store, l).At? ==>
              Depth(v.p, l.e) == v.p.depth(PlaceOf(v.p, store, l).obj) && !IsFormal(v.p, PlaceOf(v.p, store, l).obj)
  {
    hide Agrees, EnvAgrees, Aim, PointerTargets, Typed;
    assert l in [l];
    match l
    case Place(Deref(x)) =>
      AimResolves(v.p, v.w, env, s, x);
      AimEvaluates(v, env, s, store, x);
      LevelOf(v.p, env.Keys, store, x);
    case _ =>
  }

  /** The same without a store. */
  lemma AimIsTarget(v: View, env: Env, s: State, l: Lhs)
    requires AimOf(v.p, v.w, env, s, l) != Unresolved && forall q | q in env :: IsFormal(v.p, q)
    ensures TargetOf(v.p, env, s, l) == AimOf(v.p, v.w, env, s, l)
    ensures TargetOf(v.p, env, s, l).At? ==> !IsFormal(v.p, TargetOf(v.p, env, s, l).obj)
  {
    hide Aim, PointerTargets;
    match l
    case Place(Deref(x)) => AimResolves(v.p, v.w, env, s, x);
    case _ =>
  }

  ghost predicate EnvFormal(p: Program, env: Env) {
    forall q | q in env :: IsFormal(p, q)
  }

  ghost predicate SharpShape(
      v: View, env: Env, s: State, kind: AssignOp, lhs: seq<Lhs>, rhs: seq<Expr>)
  {
    && ShapedAssign(v.p, env.Keys, kind, lhs, rhs, false) && SharpAssign(v.p, v.w, env, s, kind, lhs, rhs)
    && EnvFormal(v.p, env) && |lhs| == |rhs| > 0 && (kind.Compound? ==> |lhs| == 1)
  }

  lemma AssignTargets(v: View, env: Env, s: State, kind: AssignOp, lhs: seq<Lhs>, rhs: seq<Expr>)
    requires SharpShape(v, env, s, kind, lhs, rhs)
    ensures forall i | 0 <= i < |lhs| ::
              && TargetsOf(v.p, env, s, lhs)[i] == AimOf(v.p, v.w, env, s, lhs[i])
              && (AimOf(v.p, v.w, env, s, lhs[i]).At? ==> !IsFormal(v.p, AimOf(v.p, v.w, env, s, lhs[i]).obj))
    ensures At(v.p.inner) !in TargetsOf(v.p, env, s, lhs)
  {
    hide AimOf, TargetOf, ShapedAssign;
    forall i | 0 <= i < |lhs|
      ensures TargetsOf(v.p, env, s, lhs)[i] == AimOf(v.p, v.w, env, s, lhs[i])
      ensures AimOf(v.p, v.w, env, s, lhs[i]) != At(v.p.inner)
      ensures AimOf(v.p, v.w, env, s, lhs[i]).At? ==> !IsFormal(v.p, AimOf(v.p, v.w, env, s, lhs[i]).obj)
    {
      assert lhs[i] in lhs;
      AimIsTarget(v, env, s, lhs[i]);
    }
  }

  lemma AssignPlaces(v: View, env: Env, s: State, store: Store, kind: AssignOp, lhs: seq<Lhs>, rhs: seq<Expr>)
    requires SharpShape(v, env, s, kind, lhs, rhs)
    requires Agrees(v.p, v.w, s, store) && EnvAgrees(v.w, env, store) && Typed(v.p, store)
    ensures PlacesOf(v.p, store, lhs) == TargetsOf(v.p, env, s, lhs) && Unresolved !in PlacesOf(v.p, store, lhs)
    ensures kind.Compound? ==> PlaceOf(v.p, store, lhs[0]).At?
    ensures forall i | 0 <= i < |lhs| && PlaceOf(v.p, store, lhs[i]).At? && Depth(v.p, rhs[i]) > 0 ::
              Depth(v.p, rhs[i]) == v.p.depth(PlaceOf(v.p, store, lhs[i]).obj)
  {
    hide AimOf, TargetOf, PlaceOf, Agrees, EnvAgrees, Typed, Scoped, Depth;
    forall i | 0 <= i < |lhs|
      ensures PlaceOf(v.p, store, lhs[i]) == TargetOf(v.p, env, s, lhs[i]) != Unresolved
      ensures kind.Compound? ==> PlaceOf(v.p, store, lhs[i]) != Nowhere
      ensures PlaceOf(v.p, store, lhs[i]).At? && Depth(v.p, rhs[i]) > 0 ==>
                Depth(v.p, rhs[i]) == v.p.depth(PlaceOf(v.p, store, lhs[i]).obj)
    {
      assert lhs[i] in lhs;
      SamePlace(v, env, s, store, lhs[i]);
    }
  }

  lemma {:induction false} WriteAllTyped(p: Program, store: Store, targets: seq<Target>, cells: seq<Cell>)
    requires |targets| == |cells| && Typed(p, store)
    requires forall i | 0 <= i < |targets| && targets[i].At? :: PointsWell(p, cells[i], p.depth(targets[i].obj))
    ensures WriteAll(p, store, targets, cells).Some? ==> Typed(p, WriteAll(p, store, targets, cells).value)
    decreases targets
  {
    if targets != [] {
      var next := if targets[0].At? then store[targets[0].obj := cells[0]] else store;
      assert Typed(p, next);
      WriteAllTyped(p, next, targets[1..], cells[1..]);
    }
  }

  lemma AssignTyped(p: Program, own: set<Object>, store: Store, kind: AssignOp, lhs: seq<Lhs>, rhs: seq<Expr>)
    requires |lhs| == |rhs| && Typed(p, store) && ScopedAll(p, own, rhs)
    requires forall i | 0 <= i < |lhs| && PlaceOf(p, store, lhs[i]).At? && Depth(p, rhs[i]) > 0 ::
               Depth(p, rhs[i]) == p.depth(PlaceOf(p, store, lhs[i]).obj)
    requires RunAssign(p, store, kind, lhs, rhs).Some?
    ensures Typed(p, RunAssign(p, store, kind, lhs, rhs).value)
  {
    hide Scoped, Eval, Depth, Typed, PlaceOf;
    var targets := PlacesOf(p, store, lhs);
    var cells := EvalAll(p, store, rhs).value;
    forall i | 0 <= i < |lhs| && targets[i].At? ensures PointsWell(p, cells[i], p.depth(targets[i].obj)) {
      ScopedElement(p, own, rhs, i);
      LevelOf(p, own, store, rhs[i]);
    }
    if kind.Plain? {
      WriteAllTyped(p, store, targets, cells);
    } else {
      var before := Load(store, targets[0].obj);
      var cell := Computed(p.ops.binary(kind.op, before.value, cells[0].value), before, cells[0]);
      WriteAllTyped(p, store, targets, [cell]);
    }
  }

  /** After an assignment to a watched pointer its alias is that of the last value. */
  lemma AssignAliases(v: View, env: Env, s: State, kind: AssignOp, lhs: seq<Lhs>, rhs: seq<Expr>, o: Object)
    requires SharpShape(v, env, s, kind, lhs, rhs) && o in v.w
    requires ApplyAssignment(v.p, env, s, kind, lhs, rhs).Applied?
    ensures var t := ApplyAssignment(v.p, env, s, kind, lhs, rhs).state;
            AliasIn(map[], t, o) == match LastWrite(TargetsOf(v.p, env, s, lhs), o)
                                    case None => AliasIn(map[], s, o)
                                    case Some(i) => PointerTargets(v.p, env, s, rhs[i])
  {
    hide ExprDependency, TargetOf, LastWrite, PointerTargets, Depth, ObjectDependency, AimOf, Sharp, Scoped, Aim;
    var targets := TargetsOf(v.p, env, s, lhs);
    var stored := StoredAll(v.p, env, s, targets, rhs);
    AssignTargets(v, env, s, kind, lhs, rhs);
    var final := if kind.Compound? && targets[0].At?
      then [stored[0].(dependency := Either(stored[0].dependency, ObjectDependency(v.p, s, targets[0].obj)))]
      else stored;
    forall i | 0 <= i < |targets| && targets[i] == At(o)
      ensures final[i].pointer == Some(PointerTargets(v.p, env, s, rhs[i]))
    {
      assert AimOf(v.p, v.w, env, s, lhs[i]).obj == o;
    }
    SetAllAliases(s, targets, final, o);
  }

  /** The run of an assignment meets the answer. */
  lemma AssignArrives(v: View, env: Env, s: State, store: Store, kind: AssignOp, lhs: seq<Lhs>, rhs: seq<Expr>)
    requires SharpShape(v, env, s, kind, lhs, rhs) && ApplyAssignment(v.p, env, s, kind, lhs, rhs).Applied?
    requires Agrees(v.p, v.w, s, store) && EnvAgrees(v.w, env, store) && Typed(v.p, store)
    ensures RunAssign(v.p, store, kind, lhs, rhs).Some?
    ensures Arrives(v, ApplyAssignment(v.p, env, s, kind, lhs, rhs).state, store,
                    RunAssign(v.p, store, kind, lhs, rhs).value, [], Nothing)
  {
    hide ApplyAssignment, RunAssign, PlaceOf, TargetOf, AimOf, Sharp, Scoped, Eval, Depth, Typed, LastWrite, Aim;
    hide PointerTargets, AliasIn, EnvAgrees;
    SharpAllEvaluate(v, env, s, store, rhs);
    AssignPlaces(v, env, s, store, kind, lhs, rhs);
    AssignTargets(v, env, s, kind, lhs, rhs);
    assert ScopedAll(v.p, env.Keys, rhs);
    AssignRuns(v.p, env.Keys, store, kind, lhs, rhs, 0, true);
    var t, after := ApplyAssignment(v.p, env, s, kind, lhs, rhs).state, RunAssign(v.p, store, kind, lhs, rhs).value;
    forall o: Object
      ensures IsFormal(v.p, o) ==> Load(after, o) == Load(store, o)
      ensures o in v.w && !IsFormal(v.p, o) ==> PointsInto(Load(after, o), AliasIn(map[], t, o))
    {
      AssignRuns(v.p, env.Keys, store, kind, lhs, rhs, o, true);
      var last := LastWrite(TargetsOf(v.p, env, s, lhs), o);
      if o in v.w && !IsFormal(v.p, o) {
        AssignAliases(v, env, s, kind, lhs, rhs, o);
        if last.Some? {
          assert AimOf(v.p, v.w, env, s, lhs[last.value]) == At(o);
          StoredPointsInto(v, env, s, store, rhs[last.value]);
        }
      }
    }
    AssignTyped(v.p, env.Keys, store, kind, lhs, rhs);
    FormalsStay(v, store, after);
  }

  lemma FormalsStay(v: View, before: Store, after: Store)
    requires forall o: Object | IsFormal(v.p, o) :: Load(after, o) == Load(before, o)
    ensures FormalsKept(v.p, v.active, before, after)
  {
  }

  lemma StoredPointsInto(v: View, env: Env, s: State, store: Store, e: Expr)
    requires SharpPointer(v.p, v.w, env, s, e) && Scoped(v.p, env.Keys, e) && EnvFormal(v.p, env)
    requires Agrees(v.p, v.w, s, store) && EnvAgrees(v.w, env, store) && Eval(v.p, store, e).Some?
    ensures PointsInto(Eval(v.p, store, e).value, PointerTargets(v.p, env, s, e))
  {
    hide Agrees, EnvAgrees, Aim, PointerTargets, Eval;
    if OneTarget(PointerTargets(v.p, env, s, e)) {
      AimResolves(v.p, v.w, env, s, e);
      AimEvaluates(v, env, s, store, e);
    }
  }

  lemma AssignLeads(v: View, env: Env, s: State, kind: AssignOp, lhs: seq<Lhs>, rhs: seq<Expr>, goal: Goal)
      returns (src: Goal)
    requires Context(v, env) && ShapedAssign(v.p, env.Keys, kind, lhs, rhs, false)
    requires SharpAssign(v.p, v.w, env, s, kind, lhs, rhs)
    requires var a := ApplyAssignment(v.p, env, s, kind, lhs, rhs); a.Applied? && Wanted(v, a.state, [], goal)
    ensures IsSource(v, env, s, goal, src)
    ensures forall m | Starts(v, env, s, m, src) ::
              && RunAssign(v.p, m, kind, lhs, rhs).Some?
              && Arrives(v, ApplyAssignment(v.p, env, s, kind, lhs, rhs).state, m,
                         RunAssign(v.p, m, kind, lhs, rhs).value, [], goal)
  {
    hide ExprDependency, Scoped, Sharp, Eval, TargetOf, PlaceOf, ApplyAssignment, RunAssign, Depth, LastWrite, Typed;
    hide Agrees, EnvAgrees, AimOf, Aim, ShapedProgram;
    assert EnvFormal(v.p, env);
    src := goal;
    var o := if goal.InCell? then goal.o else 0;
    AssignMarks(v.p, env, s, kind, lhs, rhs, o, v.data);
    AssignTargets(v, env, s, kind, lhs, rhs);
    var last := LastWrite(TargetsOf(v.p, env, s, lhs), o);
    if goal.InCell? && last.Some? && Flagged(ExprDependency(v.p, env, s, rhs[last.value]), v.data) {
      assert rhs[last.value] in rhs;
      src := ValueSource(v, env, s, rhs[last.value]);
    }
    assert IsSource(v, env, s, goal, src);
    forall m | Starts(v, env, s, m, src)
      ensures RunAssign(v.p, m, kind, lhs, rhs).Some?
      ensures Arrives(v, ApplyAssignment(v.p, env, s, kind, lhs, rhs).state, m,
                      RunAssign(v.p, m, kind, lhs, rhs).value, [], goal)
    {
      AssignArrives(v, env, s, m, kind, lhs, rhs);
      AssignPlaces(v, env, s, m, kind, lhs, rhs);
      SharpAllEvaluate(v, env, s, m, rhs);
      AssignRuns(v.p, env.Keys, m, kind, lhs, rhs, o, v.data);
    }
  }

  ghost predicate HeaderCarries(
      v: View, env: Env, s: State, stmt: Option<Stmt>, src: Goal, t: State, goal: Goal)
  {
    forall m {:trigger RunHeader(v.p, m, stmt)} | Starts(v, env, s, m, src) ::
      RunHeader(v.p, m, stmt).Some? && Arrives(v, t, m, RunHeader(v.p, m, stmt).value, [], goal)
  }

  /** A source is a goal for what runs before. */
  lemma SourceIsWanted(v: View, env: Env, s: State, t: State, returned: seq<Binding>, goal: Goal, src: Goal)
    requires Context(v, env) && IsSource(v, env, s, goal, src) && Wanted(v, t, returned, goal)
    ensures Wanted(v, s, [], src) && !src.InResult?
  {
    hide ShapedProgram;
  }

  /** And its source is a source of the goal: formals are bound once. */
  lemma SourceOfSource(v: View, env: Env, s: State, t: State, goal: Goal, mid: Goal, src: Goal)
    requires IsSource(v, env, t, goal, mid) && IsSource(v, env, s, mid, src)
    ensures IsSource(v, env, s, goal, src)
  {
  }

  lemma IncDecLeads(v: View, env: Env, s: State, op: nat, place: Expr, goal: Goal) returns (src: Goal)
    requires Context(v, env) && ShapedHeader(v.p, env.Keys, Some(IncDec(op, place)), false)
    requires SharpHeader(v.p, v.w, env, s, Some(IncDec(op, place)))
    requires var a := ApplyIncDec(v.p, env, s, place); a.Applied? && Wanted(v, a.state, [], goal)
    ensures IsSource(v, env, s, goal, src)
    ensures HeaderCarries(v, env, s, Some(IncDec(op, place)), src, ApplyIncDec(v.p, env, s, place).state, goal)
  {
    hide ShapedProgram, AimOf, TargetOf, PlaceOf, Scoped, Typed, Agrees, EnvAgrees;
    src := goal;
    var t := ApplyIncDec(v.p, env, s, place).state;
    AimIsTarget(v, env, s, Place(place));
    forall m | Starts(v, env, s, m, src)
      ensures RunHeader(v.p, m, Some(IncDec(op, place))).Some?
      ensures Arrives(v, t, m, RunHeader(v.p, m, Some(IncDec(op, place))).value, [], goal)
    {
      SamePlace(v, env, s, m, Place(place));
      NumberWritten(v, s, m, op, AimOf(v.p, v.w, env, s, Place(place)).obj, goal);
    }
  }

  /** Writing a number to an object that is not watched. */
  lemma NumberWritten(v: View, s: State, m: Store, op: nat, o: Object, goal: Goal)
    requires Typed(v.p, m) && Agrees(v.p, v.w, s, m) && Delivered(m, [], goal, v.data)
    requires o !in v.w && !IsFormal(v.p, o)
    ensures var before := Load(m, o);
            Arrives(v, SetDependency(s, o, ObjectDependency(v.p, s, o)), m,
                    m[o := Computed(v.p.ops.unary(op, before.value), before, before)], [], goal)
  {
  }

  lemma {:induction false} SpecsLead(v: View, env: Env, s: State, specs: seq<Spec>, goal: Goal) returns (src: Goal)
    requires Context(v, env) && ShapedHeader(v.p, env.Keys, Some(Declare(specs)), false)
    requires SharpSpecs(v.p, v.w, env, s, specs)
    requires var a := ApplySpecs(v.p, env, s, specs); a.Applied? && Wanted(v, a.state, [], goal)
    ensures IsSource(v, env, s, goal, src)
    ensures HeaderCarries(v, env, s, Some(Declare(specs)), src, ApplySpecs(v.p, env, s, specs).state, goal)
    decreases |specs|
  {
    hide ShapedAssign, SharpAssign, ApplyAssignment, RunAssign, Starts, Context, Wanted, IsSource, Arrives;
    src := goal;
    if specs == [] {
      Stays(v, env, s, goal);
    } else {
      assert specs[0] in specs;
      var first := ApplyAssignment(v.p, env, s, Plain, specs[0].names, specs[0].values);
      var end := ApplySpecs(v.p, env, s, specs).state;
      var mid := SpecsLead(v, env, first.state, specs[1..], goal);
      SourceIsWanted(v, env, first.state, end, [], goal, mid);
      src := AssignLeads(v, env, s, Plain, specs[0].names, specs[0].values, mid);
      SourceOfSource(v, env, s, first.state, goal, mid, src);
      forall m | Starts(v, env, s, m, src)
        ensures RunHeader(v.p, m, Some(Declare(specs))).Some?
        ensures Arrives(v, end, m, RunHeader(v.p, m, Some(Declare(specs))).value, [], goal)
      {
        var next := RunAssign(v.p, m, Plain, specs[0].names, specs[0].values).value;
        Onward(v, env, s, first.state, m, next, src, mid);
        assert RunHeader(v.p, next, Some(Declare(specs[1..]))).Some?;
        Thence(v, first.state, end, m, next, RunHeader(v.p, next, Some(Declare(specs[1..]))).value, [], mid, goal);
      }
    }
  }

  /** Two runs, one after the other. */
  lemma Thence(v: View, t: State, u: State, a: Store, b: Store, c: Store, values: seq<Cell>, mid: Goal, goal: Goal)
    requires Arrives(v, t, a, b, [], mid) && Arrives(v, u, b, c, values, goal)
    ensures Arrives(v, u, a, c, values, goal)
  {
  }

  lemma HeaderLeads(v: View, env: Env, s: State, stmt: Option<Stmt>, goal: Goal) returns (src: Goal)
    requires Context(v, env) && ShapedHeader(v.p, env.Keys, stmt, false) && SharpHeader(v.p, v.w, env, s, stmt)
    requires var a := ApplyHeader(v.p, env, s, stmt); a.Applied? && Wanted(v, a.state, [], goal)
    ensures IsSource(v, env, s, goal, src) && !goal.InResult?
    ensures HeaderCarries(v, env, s, stmt, src, ApplyHeader(v.p, env, s, stmt).state, goal)
  {
    hide ApplyAssignment, RunAssign, Starts, Context, ApplyIncDec, RunIncDec, ShapedAssign, SharpAssign, Arrives;
    hide IsSource;
    match stmt
    case Some(Assign(kind, lhs, rhs)) => src := AssignLeads(v, env, s, kind, lhs, rhs, goal);
    case Some(IncDec(op, place)) => src := IncDecLeads(v, env, s, op, place, goal);
    case Some(Declare(specs)) => src := SpecsLead(v, env, s, specs, goal);
    case _ =>
      src := goal;
      Stays(v, env, s, goal);
  }

  // ----- statements -----

  ghost predicate BlockCarries(
      v: View, env: Env, s: State, body: seq<Stmt>, steps: seq<Path>, whole: bool, src: Goal,
      t: State, count: nat, goal: Goal)
  {
    forall m {:trigger RunBlock(v.p, body, steps, m)} | Starts(v, env, s, m, src) ::
      Ends(v, t, m, RunBlock(v.p, body, steps, m), count, goal) && (whole || RunBlock(v.p, body, steps, m).Next?)
  }

  ghost predicate StmtCarries(
      v: View, env: Env, s: State, stmt: Stmt, path: Path, src: Goal, t: State, count: nat, goal: Goal)
  {
    forall m {:trigger RunStmt(v.p, stmt, path, m)} | Starts(v, env, s, m, src) ::
      Ends(v, t, m, RunStmt(v.p, stmt, path, m), count, goal) && (stmt.Return? || RunStmt(v.p, stmt, path, m).Next?)
  }

  ghost predicate CallCarries(
      v: View, env: Env, s: State, call: Call, path: Path, src: Goal, t: State, count: nat, goal: Goal)
  {
    forall m {:trigger RunCall(v.p, call, path, m)} | Starts(v, env, s, m, src) ::
      Ends(v, t, m, RunCall(v.p, call, path, m), count, goal)
  }

  ghost predicate ResultsCarry(
      v: View, env: Env, s: State, results: seq<Operand>, parts: seq<Path>, src: Goal, t: State, count: nat, goal: Goal)
    requires |results| == |parts|
  {
    forall m {:trigger RunResults(v.p, results, parts, m)} | Starts(v, env, s, m, src) ::
      Ends(v, t, m, RunResults(v.p, results, parts, m), count, goal)
  }

  ghost predicate OperandCarries(
      v: View, env: Env, s: State, operand: Operand, part: Path, src: Goal, t: State, count: nat, goal: Goal)
  {
    forall m {:trigger RunOperand(v.p, operand, part, m)} | Starts(v, env, s, m, src) ::
      Ends(v, t, m, RunOperand(v.p, operand, part, m), count, goal)
  }

  ghost predicate RoundsCarry(
      v: View, env: Env, s: State, body: seq<Stmt>, post: Option<Stmt>, rounds: seq<Path>, src: Goal,
      t: State, goal: Goal)
  {
    forall m {:trigger RunRounds(v.p, body, post, rounds, m)} | Starts(v, env, s, m, src) ::
      && RunRounds(v.p, body, post, rounds, m).Next?
      && Arrives(v, t, m, RunRounds(v.p, body, post, rounds, m).store, [], goal)
  }

  ghost predicate RoundCarries(
      v: View, env: Env, s: State, body: seq<Stmt>, post: Option<Stmt>, round: Path, src: Goal, t: State, goal: Goal)
  {
    forall m {:trigger RunRound(v.p, body, post, round, m)} | Starts(v, env, s, m, src) ::
      && RunRound(v.p, body, post, round, m).Next?
      && Arrives(v, t, m, RunRound(v.p, body, post, round, m).store, [], goal)
  }

  /** Only a return leaves results, and it is last. */
  lemma SilentStatements(
      p: Program, stmt: Stmt, last: bool, env: Env, s: State, active: set<nat>, budget: nat)
    ensures var r := TransferStmt(p, stmt, last, env, s, active, budget);
            r.Done? ==> if stmt.Return? then last else r.returned == []
  {
    hide TransferCall, TransferBlock, TransferRounds, ApplyHeader, HeaderFits, ExprDependency;
  }

  lemma {:induction false} BlockLeads(
      v: View, body: seq<Stmt>, whole: bool, env: Env, s: State, budget: nat, goal: Goal)
      returns (src: Goal, steps: seq<Path>)
    requires Context(v, env) && ShapedBody(v.p, env.Keys, body, whole, false)
    requires SharpBlock(v.p, v.w, body, env, s, v.active, budget)
    requires var r := TransferBlock(v.p, body, env, s, v.active, budget);
             r.Done? && Wanted(v, r.state, r.returned, goal)
    ensures IsSource(v, env, s, goal, src)
    ensures var r := TransferBlock(v.p, body, env, s, v.active, budget);
            BlockCarries(v, env, s, body, steps, whole, src, r.state, |r.returned|, goal)
    decreases budget, 2, |body|
  {
    hide TransferStmt, SharpStmt, Context, ShapedStmt, RunStmt, IsSource, Wanted, Arrives, Starts;
    var p, active := v.p, v.active;
    if body == [] {
      src, steps := goal, [];
      Stays(v, env, s, goal);
    } else {
      var first := TransferStmt(p, body[0], |body| == 1, env, s, active, budget - 1);
      var rest := TransferBlock(p, body[1..], env, first.state, active, first.budget);
      SilentStatements(p, body[0], |body| == 1, env, s, active, budget - 1);
      var path;
      if body[0].Return? {
        assert body[1..] == [] && rest.returned == [] && first.returned + rest.returned == first.returned;
        src, path := StmtLeads(v, body[0], whole, true, env, s, budget - 1, goal);
        steps := [path];
        assert whole by { ReturnsAreWhole(p, env.Keys, body[0], whole); }
        ReturnLast(v, env, s, body, path, src, first.state, |first.returned|, goal);
      } else {
        assert first.returned + rest.returned == rest.returned;
        var mid, later := BlockLeads(v, body[1..], whole, env, first.state, first.budget, goal);
        SourceIsWanted(v, env, first.state, rest.state, rest.returned, goal, mid);
        src, path := StmtLeads(v, body[0], whole, |body| == 1, env, s, budget - 1, mid);
        SourceOfSource(v, env, s, first.state, goal, mid, src);
        steps := [path] + later;
        FirstThenRest(v, env, s, body, path, later, whole, src, first.state, mid, rest.state, |rest.returned|, goal);
      }
    }
  }

  lemma ReturnsAreWhole(p: Program, own: set<Object>, stmt: Stmt, whole: bool)
    requires ShapedStmt(p, own, stmt, whole, false) && stmt.Return?
    ensures whole
  {
  }

  lemma ReturnLast(
      v: View, env: Env, s: State, body: seq<Stmt>, path: Path, src: Goal, t: State, count: nat, goal: Goal)
    requires |body| == 1 && body[0].Return? && StmtCarries(v, env, s, body[0], path, src, t, count, goal)
    ensures BlockCarries(v, env, s, body, [path], true, src, t, count, goal)
  {
    hide RunStmt, Starts, Arrives;
    forall m | Starts(v, env, s, m, src) ensures Ends(v, t, m, RunBlock(v.p, body, [path], m), count, goal) {
      var out := RunStmt(v.p, body[0], path, m);
      assert body[1..] == [] && [path][1..] == [];
      assert out.Next? ==> RunBlock(v.p, body, [path], m) == out;
    }
  }

  /** A goal that is no result does not depend on the results. */
  lemma WantedAnyway(v: View, s: State, a: seq<Binding>, b: seq<Binding>, goal: Goal)
    requires Wanted(v, s, a, goal)
    ensures a == [] ==> !goal.InResult?
    ensures !goal.InResult? ==> Wanted(v, s, b, goal)
  {
  }

  lemma FirstThenRest(
      v: View, env: Env, s: State, body: seq<Stmt>, path: Path, later: seq<Path>, whole: bool, src: Goal,
      t: State, mid: Goal, u: State, count: nat, goal: Goal)
    requires Context(v, env) && body != [] && !body[0].Return? && !mid.InResult?
    requires StmtCarries(v, env, s, body[0], path, src, t, 0, mid)
    requires BlockCarries(v, env, t, body[1..], later, whole, mid, u, count, goal)
    ensures BlockCarries(v, env, s, body, [path] + later, whole, src, u, count, goal)
  {
    hide RunStmt, Starts, Arrives, Context;
    assert ([path] + later)[1..] == later;
    forall m | Starts(v, env, s, m, src)
      ensures Ends(v, u, m, RunBlock(v.p, body, [path] + later, m), count, goal)
      ensures whole || RunBlock(v.p, body, [path] + later, m).Next?
    {
      var out := RunStmt(v.p, body[0], path, m);
      Onward(v, env, s, t, m, out.store, src, mid);
      var end := RunBlock(v.p, body[1..], later, out.store);
      Thence(v, t, u, m, out.store, end.store, if end.Returned? then end.values else [], mid, goal);
    }
  }

  lemma {:induction false} StmtLeads(
      v: View, stmt: Stmt, whole: bool, last: bool, env: Env, s: State, budget: nat, goal: Goal)
      returns (src: Goal, path: Path)
    requires Context(v, env) && ShapedStmt(v.p, env.Keys, stmt, whole, false)
    requires SharpStmt(v.p, v.w, stmt, last, env, s, v.active, budget)
    requires var r := TransferStmt(v.p, stmt, last, env, s, v.active, budget);
             r.Done? && Wanted(v, r.state, r.returned, goal)
    ensures IsSource(v, env, s, goal, src)
    ensures var r := TransferStmt(v.p, stmt, last, env, s, v.active, budget);
            StmtCarries(v, env, s, stmt, path, src, r.state, |r.returned|, goal)
    decreases budget, 6, 0
  {
    hide TransferCall, TransferBlock, TransferLoop, TransferResults, Context, IsSource, Wanted, Starts, Arrives;
    hide RunBlock, RunCall, RunHeader, RunRounds, RunResults, ApplyHeader, HeaderFits, ShapedHeader, ShapedCall;
    hide ShapedBody, SharpHeader, SharpBlock, SharpCall, SharpLoop, SharpResults, ShapedAll, SharpAll;
    SilentStatements(v.p, stmt, last, env, s, v.active, budget);
    var t := TransferStmt(v.p, stmt, last, env, s, v.active, budget);
    WantedAnyway(v, t.state, t.returned, [], goal);
    src, path := goal, Step;
    match stmt
    case Print(args) =>
      Stays(v, env, s, goal);
      PrintCarries(v, env, s, args, goal);
    case CallStmt(call) =>
      var r := TransferCall(v.p, call, env, s, v.active, budget);
      WantedAnyway(v, r.state, [], r.returned, goal);
      src, path := CallLeads(v, call, env, s, budget, goal);
      CallAsStmt(v, env, s, call, path, src, r.state, |r.returned|, goal);
    case Block(body) =>
      var r := TransferBlock(v.p, body, env, s, v.active, budget);
      WantedAnyway(v, r.state, [], r.returned, goal);
      var steps;
      src, steps := BlockLeads(v, body, false, env, s, budget, goal);
      path := Nested(steps);
      BlockAsStmt(v, env, s, body, steps, src, r.state, |r.returned|, goal);
    case For(init, cond, post, body) =>
      src, path := LoopLeads(v, init, cond, post, body, env, s, budget, goal);
    case Return(results) =>
      var parts;
      var r := TransferResults(v.p, results, env, s, v.active, budget);
      src, parts := ResultsLead(v, results, env, s, budget, goal);
      path := Results(parts);
      ResultsAsStmt(v, env, s, results, parts, src, r.state, |r.returned|, goal);
    case Empty => Stays(v, env, s, goal);
    case Unsupported =>
    case _ => src := HeaderStmt(v, stmt, last, env, s, budget, goal);
  }

  lemma HeaderStmt(v: View, stmt: Stmt, last: bool, env: Env, s: State, budget: nat, goal: Goal) returns (src: Goal)
    requires stmt.Assign? || stmt.IncDec? || stmt.Declare?
    requires Context(v, env) && ShapedStmt(v.p, env.Keys, stmt, false, false)
    requires SharpStmt(v.p, v.w, stmt, last, env, s, v.active, budget)
    requires var r := TransferStmt(v.p, stmt, last, env, s, v.active, budget);
             r.Done? && Wanted(v, r.state, r.returned, goal)
    ensures IsSource(v, env, s, goal, src)
    ensures var r := TransferStmt(v.p, stmt, last, env, s, v.active, budget);
            StmtCarries(v, env, s, stmt, Step, src, r.state, 0, goal)
  {
    hide ApplyHeader, HeaderFits, RunHeader, Context, Wanted, IsSource, Starts, Arrives, ShapedHeader, SharpHeader;
    src := HeaderLeads(v, env, s, Some(stmt), goal);
    var t := ApplyHeader(v.p, env, s, Some(stmt)).state;
    forall m | Starts(v, env, s, m, src)
      ensures Ends(v, t, m, RunStmt(v.p, stmt, Step, m), 0, goal) && RunStmt(v.p, stmt, Step, m).Next?
    {
      assert RunHeader(v.p, m, Some(stmt)).Some?;
    }
  }

  lemma PrintCarries(v: View, env: Env, s: State, args: seq<Expr>, goal: Goal)
    requires Context(v, env) && Wanted(v, s, [], goal)
    requires ShapedAll(v.p, env.Keys, args, false) && SharpAll(v.p, v.w, env, s, args)
    ensures StmtCarries(v, env, s, Print(args), Step, goal, s, 0, goal)
  {
    hide ShapedProgram, EvalAll, Wanted, ShapedAll, SharpAll, Typed, Agrees, EnvAgrees;
    forall m | Starts(v, env, s, m, goal) ensures Ends(v, s, m, RunStmt(v.p, Print(args), Step, m), 0, goal) {
      SharpAllEvaluate(v, env, s, m, args);
    }
  }

  lemma CallAsStmt(
      v: View, env: Env, s: State, call: Call, path: Path, src: Goal, t: State, count: nat, goal: Goal)
    requires CallCarries(v, env, s, call, path, src, t, count, goal) && !goal.InResult?
    ensures StmtCarries(v, env, s, CallStmt(call), path, src, t, 0, goal)
  {
    hide RunCall, Typed, Agrees, Starts;
    forall m | Starts(v, env, s, m, src)
      ensures Ends(v, t, m, RunStmt(v.p, CallStmt(call), path, m), 0, goal)
      ensures RunStmt(v.p, CallStmt(call), path, m).Next?
    {
      assert Ends(v, t, m, RunCall(v.p, call, path, m), count, goal);
    }
  }

  lemma BlockAsStmt(
      v: View, env: Env, s: State, body: seq<Stmt>, steps: seq<Path>, src: Goal, t: State, count: nat, goal: Goal)
    requires BlockCarries(v, env, s, body, steps, false, src, t, count, goal)
    ensures StmtCarries(v, env, s, Stmt.Block(body), Nested(steps), src, t, 0, goal)
  {
    hide RunBlock, Starts, Arrives;
    forall m | Starts(v, env, s, m, src)
      ensures Ends(v, t, m, RunStmt(v.p, Stmt.Block(body), Nested(steps), m), 0, goal)
      ensures RunStmt(v.p, Stmt.Block(body), Nested(steps), m).Next?
    {
      assert RunStmt(v.p, Stmt.Block(body), Nested(steps), m) == RunBlock(v.p, body, steps, m);
    }
  }

  lemma ResultsAsStmt(
      v: View, env: Env, s: State, results: seq<Operand>, parts: seq<Path>, src: Goal, t: State, count: nat, goal: Goal)
    requires |results| == |parts| && ResultsCarry(v, env, s, results, parts, src, t, count, goal)
    ensures StmtCarries(v, env, s, Return(results), Results(parts), src, t, count, goal)
  {
    hide RunResults, Starts, Ends;
    forall m | Starts(v, env, s, m, src)
      ensures Ends(v, t, m, RunStmt(v.p, Return(results), Results(parts), m), count, goal)
    {
      assert RunStmt(v.p, Return(results), Results(parts), m) == RunResults(v.p, results, parts, m);
    }
  }

  // ----- results -----

  /** The part of a goal that lies in the results behind the first `count`. */
  function Behind(goal: Goal, count: nat): Goal {
    match goal
    case InResult(i) => if i < count then Nothing else InResult(i - count)
    case _ => goal
  }

  lemma {:induction false} ResultsLead(
      v: View, results: seq<Operand>, env: Env, s: State, budget: nat, goal: Goal)
      returns (src: Goal, parts: seq<Path>)
    requires Context(v, env) && forall r | r in results :: ShapedOperand(v.p, env.Keys, r, false)
    requires SharpResults(v.p, v.w, results, env, s, v.active, budget)
    requires var r := TransferResults(v.p, results, env, s, v.active, budget);
             r.Done? && Wanted(v, r.state, r.returned, goal)
    ensures IsSource(v, env, s, goal, src) && |parts| == |results|
    ensures var r := TransferResults(v.p, results, env, s, v.active, budget);
            ResultsCarry(v, env, s, results, parts, src, r.state, |r.returned|, goal)
    decreases budget, 5, |results|
  {
    hide TransferOperand, SharpOperand, Context, IsSource, Wanted, Starts, Arrives, ShapedOperand, RunOperand;
    src, parts := goal, [];
    if results == [] {
      Stays(v, env, s, goal);
    } else {
      assert results[0] in results;
      var first := TransferOperand(v.p, results[0], env, s, v.active, budget);
      var rest := TransferResults(v.p, results[1..], env, first.state, v.active, first.budget);
      var n := |first.returned|;
      var behind := Behind(goal, n);
      WantedBehind(v, rest.state, first.returned, rest.returned, goal);
      var mid, later := ResultsLead(v, results[1..], env, first.state, first.budget, behind);
      SourceIsWanted(v, env, first.state, rest.state, rest.returned, behind, mid);
      SourceOfNothing(v, env, first.state, behind, mid);
      var early := if goal.InResult? && goal.i < n then goal else mid;
      WantedBefore(v, first.state, first.returned, rest.state, rest.returned, goal, mid);
      var part;
      src, part := OperandLeads(v, results[0], env, s, budget, early);
      parts := [part] + later;
      if early == mid { SourceOfSource(v, env, s, first.state, behind, mid, src); }
      SourceOfBehind(v, env, s, goal, n, early, src);
      ResultsJoin(v, env, s, results, part, later, src, first.state, early, mid, n, rest.state, |rest.returned|, goal);
    }
  }

  lemma SourceOfNothing(v: View, env: Env, s: State, goal: Goal, src: Goal)
    requires IsSource(v, env, s, goal, src)
    ensures goal.Nothing? ==> src.Nothing?
  {
  }

  lemma WantedBehind(v: View, s: State, a: seq<Binding>, b: seq<Binding>, goal: Goal)
    requires Wanted(v, s, a + b, goal)
    ensures Wanted(v, s, b, Behind(goal, |a|))
  {
  }

  lemma WantedBefore(v: View, s: State, a: seq<Binding>, t: State, b: seq<Binding>, goal: Goal, mid: Goal)
    requires Wanted(v, t, a + b, goal) && Wanted(v, s, [], mid)
    ensures Wanted(v, s, a, if goal.InResult? && goal.i < |a| then goal else mid)
  {
  }

  lemma SourceOfBehind(v: View, env: Env, s: State, goal: Goal, n: nat, early: Goal, src: Goal)
    requires if goal.InResult? && goal.i < n then early == goal && IsSource(v, env, s, goal, src)
             else IsSource(v, env, s, Behind(goal, n), src)
    ensures IsSource(v, env, s, goal, src)
  {
  }

  lemma ResultsJoin(
      v: View, env: Env, s: State, results: seq<Operand>, part: Path, later: seq<Path>, src: Goal, t: State,
      early: Goal, mid: Goal, n: nat, u: State, count: nat, goal: Goal)
    requires Context(v, env) && |results| == |later| + 1 && !mid.InResult?
    requires early == if goal.InResult? && goal.i < n then goal else mid
    requires goal.InResult? && goal.i < n ==> mid.Nothing?
    requires OperandCarries(v, env, s, results[0], part, src, t, n, early)
    requires ResultsCarry(v, env, t, results[1..], later, mid, u, count, Behind(goal, n))
    ensures ResultsCarry(v, env, s, results, [part] + later, src, u, n + count, goal)
  {
    hide RunOperand, Typed, Agrees, EnvAgrees, Context;
    assert ([part] + later)[1..] == later;
    forall m | Starts(v, env, s, m, src)
      ensures Ends(v, u, m, RunResults(v.p, results, [part] + later, m), n + count, goal)
    {
      var out := RunOperand(v.p, results[0], part, m);
      assert Ends(v, t, m, out, n, early) && out.Returned?;
      Onward(v, env, s, t, m, out.store, src, mid);
      var end := RunResults(v.p, results[1..], later, out.store);
      assert Ends(v, u, out.store, end, count, Behind(goal, n)) && end.Returned?;
      Thence(v, t, u, m, out.store, end.store, end.values, mid, Behind(goal, n));
    }
  }

  lemma {:induction false} OperandLeads(v: View, operand: Operand, env: Env, s: State, budget: nat, goal: Goal)
      returns (src: Goal, part: Path)
    requires Context(v, env) && ShapedOperand(v.p, env.Keys, operand, false)
    requires SharpOperand(v.p, v.w, operand, env, s, v.active, budget)
    requires var r := TransferOperand(v.p, operand, env, s, v.active, budget);
             r.Done? && Wanted(v, r.state, r.returned, goal)
    ensures IsSource(v, env, s, goal, src)
    ensures var r := TransferOperand(v.p, operand, env, s, v.active, budget);
            OperandCarries(v, env, s, operand, part, src, r.state, |r.returned|, goal)
    decreases budget, 5, 0
  {
    hide TransferCall, SharpCall, RunCall, Typed, Agrees, EnvAgrees, Eval, ExprDependency, Sharp, Scoped, ShapedProgram;
    match operand
    case Value(e) =>
      src, part := goal, Step;
      if goal.InResult? {
        src := ValueSource(v, env, s, e);
      } else {
        Stays(v, env, s, goal);
      }
      forall m | Starts(v, env, s, m, src) ensures Ends(v, s, m, RunOperand(v.p, operand, part, m), 1, goal) {
        SharpReads(v, env, s, m, e, 0);
      }
    case CallResult(call) =>
      hide Context, Starts, Arrives;
      var r := TransferCall(v.p, call, env, s, v.active, budget);
      YieldingCalls(v.p, call, env, s, v.active, budget);
      src, part := CallLeads(v, call, env, s, budget, goal);
      forall m | Starts(v, env, s, m, src)
        ensures Ends(v, r.state, m, RunOperand(v.p, operand, part, m), |r.returned|, goal)
      {
        assert Ends(v, r.state, m, RunCall(v.p, call, part, m), |r.returned|, goal);
      }
  }

  /** A call whose bodies all yield results has results. */
  lemma YieldingCalls(p: Program, call: Call, env: Env, s: State, active: set<nat>, budget: nat)
    requires forall k | k in call.callees :: Yields(p, k)
    ensures var r := TransferCall(p, call, env, s, active, budget); r.Done? ==> r.returned != []
  {
    hide TransferBlock, Yields, Union, TransferCallees;
    var bindings := Snapshots(p, env, s, call.args);
    if budget > 0 && call.callees != [] {
      var c := TransferCallees(p, call.callees, bindings, s, active, budget - 1);
      YieldingCallees(p, call.callees, bindings, s, active, budget - 1);
      if c.CalleesDone? { assert c.returnSets[0] != []; }
    }
  }

  lemma YieldingCallees(
      p: Program, callees: seq<nat>, bindings: seq<Binding>, s: State, active: set<nat>, budget: nat)
    requires callees != [] && Yields(p, callees[0])
    ensures var c := TransferCallees(p, callees, bindings, s, active, budget);
            c.CalleesDone? ==> c.returnSets[0] != []
  {
    hide TransferBlock;
    var k := callees[0];
    if k !in active {
      YieldingBody(p, p.functions[k].body, BindEnv(p.functions[k].params, bindings), s, active + {k}, budget);
    }
  }

  lemma {:induction false} YieldingBody(
      p: Program, body: seq<Stmt>, env: Env, s: State, active: set<nat>, budget: nat)
    requires body != [] && body[|body| - 1].Return? && body[|body| - 1].results != []
    ensures var r := TransferBlock(p, body, env, s, active, budget); r.Done? ==> r.returned != []
    decreases |body|
  {
    hide TransferStmt, TransferResults;
    if budget > 0 {
      var first := TransferStmt(p, body[0], |body| == 1, env, s, active, budget - 1);
      if |body| > 1 {
        if first.Done? { YieldingBody(p, body[1..], env, first.state, active, first.budget); }
      } else {
        YieldingReturn(p, body[0], env, s, active, budget - 1);
      }
    }
  }

  lemma YieldingReturn(p: Program, stmt: Stmt, env: Env, s: State, active: set<nat>, budget: nat)
    requires stmt.Return? && stmt.results != []
    ensures var r := TransferStmt(p, stmt, true, env, s, active, budget); r.Done? ==> r.returned != []
  {
    hide TransferOperand, ExprDependency;
    var first := TransferOperand(p, stmt.results[0], env, s, active, budget);
    assert first.Done? ==> first.returned != [] by { OperandYields(p, stmt.results[0], env, s, active, budget); }
    assert TransferStmt(p, stmt, true, env, s, active, budget).Done? ==>
      TransferResults(p, stmt.results, env, s, active, budget).Done?;
  }

  lemma OperandYields(p: Program, operand: Operand, env: Env, s: State, active: set<nat>, budget: nat)
    ensures var r := TransferOperand(p, operand, env, s, active, budget); r.Done? ==> r.returned != []
  {
    hide TransferCall, Snapshot, ScanFits;
  }

  // ----- joins -----

  /** A join marks an object exactly when one of its inputs does. */
  lemma UnionMarks(p: Program, states: seq<State>, o: Object, data: bool)
    requires states != []
    ensures Flagged(ObjectDependency(p, Union(states), o), data) <==>
              exists k :: 0 <= k < |states| && Flagged(ObjectDependency(p, states[k], o), data)
  {
    UnionStrideIs(states, o);
    var u := Flagged(ObjectDependency(p, Union(states), o), data);
    if k :| 0 <= k < |states| && Flagged(ObjectDependency(p, states[k], o), data) {
      assert states[k] in states;
      if !data && Stride(states[k], o) != "" { assert Stride(states[k], o) in StrideKeys(states, o); }
    }
    if u {
      if o == p.inner {
        assert Flagged(ObjectDependency(p, states[0], o), data);
      } else if data {
        var s :| s in states && o in s.deps;
        var k :| 0 <= k < |states| && states[k] == s;
        assert Flagged(ObjectDependency(p, states[k], o), data);
      } else {
        assert StrideKeys(states, o) != {};
        var s :| s in states && Stride(s, o) != "";
        var k :| 0 <= k < |states| && states[k] == s;
        assert Flagged(ObjectDependency(p, states[k], o), data);
      }
    }
  }

  /** The merged results, place by place. */
  lemma MergedExactly(sets: seq<seq<Binding>>, i: nat)
    requires MergeReturns(sets).Some? && i < |sets[0]|
    ensures forall k | 0 <= k < |sets| :: |sets[k]| == |MergeReturns(sets).value| == |sets[0]|
    ensures var b := MergeReturns(sets).value[i];
            && (b.dependency.derived <==> exists k :: 0 <= k < |sets| && sets[k][i].dependency.derived)
            && (b.dependency.stride <==> exists k :: 0 <= k < |sets| && sets[k][i].dependency.stride)
            && (b.dependency.known <==> forall k | 0 <= k < |sets| :: sets[k][i].dependency.known)
            && (b.pointer.Some? <==> sets[0][i].pointer.Some?)
            && (b.pointer.Some? ==>
                  && (b.pointer.value.known <==>
                        forall k | 0 <= k < |sets| :: sets[k][i].pointer.Some? && sets[k][i].pointer.value.known)
                  && forall t :: t in b.pointer.value.targets <==>
                       exists k :: 0 <= k < |sets| && sets[k][i].pointer.Some? && t in sets[k][i].pointer.value.targets)
  {
    var n := |sets[0]|;
    forall k | 0 <= k < |sets| ensures |sets[k]| == n { assert sets[k] in sets; }
    var row := seq(|sets|, k requires 0 <= k < |sets| && SameArity(sets, |sets[0]|) => sets[k][i]);
    assert MergeReturns(sets).value[i] == MergeBindings(row);
    assert forall k | 0 <= k < |sets| :: row[k] == sets[k][i] && row[k] in row;
    forall b | b in row ensures exists k :: 0 <= k < |sets| && sets[k][i] == b {
      var k :| 0 <= k < |row| && row[k] == b;
      assert sets[k][i] == b;
    }
  }

  /** Where one of the inputs is met, the join is. */
  lemma UnionAgrees(p: Program, w: set<Object>, states: seq<State>, k: nat, store: Store)
    requires k < |states| && Agrees(p, w, states[k], store)
    ensures Agrees(p, w, Union(states), store)
  {
    hide UnionDeps, UnionStride;
    assert states[k] in states;
    forall o: Object | o in w && !IsFormal(p, o) ensures PointsInto(Load(store, o), AliasIn(map[], Union(states), o)) {
      var a := AliasIn(map[], Union(states), o);
      if OneTarget(a) {
        assert KnownIn(states[k], o);
        FewerTargets(Tracked(states[k])[o].targets, a.targets);
      }
    }
  }

  lemma FewerTargets(a: set<Object>, b: set<Object>)
    requires a <= b
    ensures |a| <= |b|
  {
    assert b == a + (b - a);
  }

  // ----- calls -----

  /** The body the goal comes from. */
  lemma WhichBody(v: View, outputs: seq<State>, sets: seq<seq<Binding>>, goal: Goal) returns (k: nat)
    requires |outputs| == |sets| && outputs != [] && MergeReturns(sets).Some?
    requires Wanted(v, Union(outputs), MergeReturns(sets).value, goal)
    ensures k < |outputs| && Wanted(v, outputs[k], sets[k], goal)
    ensures |sets[k]| == |MergeReturns(sets).value|
  {
    hide Union, MergeReturns, ObjectDependency;
    k := 0;
    SameCount(sets);
    match goal
    case InCell(o) =>
      if !IsFormal(v.p, o) {
        UnionMarks(v.p, outputs, o, v.data);
        k :| 0 <= k < |outputs| && Flagged(ObjectDependency(v.p, outputs[k], o), v.data);
      }
    case InResult(i) =>
      MergedExactly(sets, i);
      k :| 0 <= k < |sets| && Flagged(sets[k][i].dependency, v.data);
    case _ =>
  }

  lemma SameCount(sets: seq<seq<Binding>>)
    requires MergeReturns(sets).Some?
    ensures sets != [] && forall k | 0 <= k < |sets| :: |sets[k]| == |MergeReturns(sets).value|
  {
    forall k | 0 <= k < |sets| ensures |sets[k]| == |sets[0]| { assert sets[k] in sets; }
  }

  lemma {:induction false} CalleesLead(
      v: View, callees: seq<nat>, bindings: seq<Binding>, s: State, budget: nat, k: nat, goal: Goal)
      returns (src: Goal, steps: seq<Path>)
    requires ShapedProgram(v.p, false) && k < |callees| && forall f | f in v.active :: f < |v.p.functions|
    requires callees[k] < |v.p.functions| ==> |v.p.functions[callees[k]].params| == |bindings|
    requires SharpCallees(v.p, v.w, callees, bindings, s, v.active, budget)
    requires var c := TransferCallees(v.p, callees, bindings, s, v.active, budget);
             c.CalleesDone? && Wanted(v, c.outputs[k], c.returnSets[k], goal)
    ensures callees[k] < |v.p.functions| && callees[k] !in v.active
    ensures var c, f := TransferCallees(v.p, callees, bindings, s, v.active, budget), v.p.functions[callees[k]];
            var inside := BindEnv(f.params, bindings);
            && IsSource(v, inside, s, goal, src)
            && BlockCarries(v.(active := v.active + {callees[k]}), inside, s, f.body, steps, true, src,
                            c.outputs[k], |c.returnSets[k]|, goal)
    decreases budget, 3, |callees|
  {
    hide TransferBlock, SharpBlock, IsSource, BlockCarries, ShapedBody, Wanted, BindEnv;
    var head := callees[0];
    var f, more := v.p.functions[head], v.(active := v.active + {head});
    var one := TransferBlock(v.p, f.body, BindEnv(f.params, bindings), s, v.active + {head}, budget);
    if k > 0 {
      src, steps := CalleesLead(v, callees[1..], bindings, s, one.budget, k - 1, goal);
    } else {
      EnterContext(v, head, bindings);
      WantedInside(v, v.active + {head}, one.state, one.returned, goal);
      src, steps := BlockLeads(more, f.body, true, BindEnv(f.params, bindings), s, budget, goal);
      assert IsSource(v, BindEnv(f.params, bindings), s, goal, src) by {
        SameSource(v, more, BindEnv(f.params, bindings), s, goal, src);
      }
    }
  }

  lemma SameSource(v: View, more: View, env: Env, s: State, goal: Goal, src: Goal)
    requires IsSource(more, env, s, goal, src) && more == v.(active := more.active)
    ensures IsSource(v, env, s, goal, src)
  {
  }

  lemma WantedInside(v: View, more: set<nat>, s: State, returned: seq<Binding>, goal: Goal)
    requires v.active <= more && Wanted(v, s, returned, goal)
    ensures Wanted(v.(active := more), s, returned, goal)
  {
  }

  lemma EnterContext(v: View, k: nat, bindings: seq<Binding>)
    requires ShapedProgram(v.p, false) && k < |v.p.functions| && |v.p.functions[k].params| == |bindings|
    requires forall f | f in v.active :: f < |v.p.functions|
    ensures var inside := BindEnv(v.p.functions[k].params, bindings);
            && inside.Keys == Params(v.p, k) && Context(v.(active := v.active + {k}), inside)
            && ShapedBody(v.p, inside.Keys, v.p.functions[k].body, true, false)
  {
    hide ShapedBody, ShapedProgram, BindEnv, EnvOwned, Params;
    EnvEntered(v.p, k, bindings, v.active);
    BodyOf(v.p, k);
  }

  lemma EnvEntered(p: Program, k: nat, bindings: seq<Binding>, active: set<nat>)
    requires ShapedProgram(p, false) && k < |p.functions| && |p.functions[k].params| == |bindings|
    ensures var inside := BindEnv(p.functions[k].params, bindings);
            inside.Keys == Params(p, k) && EnvOwned(p, inside, active + {k})
  {
    hide ShapedProgram, BindEnv;
    DistinctParams(p, k);
    BindEnvLookup(p.functions[k].params, bindings);
    var inside := BindEnv(p.functions[k].params, bindings);
    assert inside.Keys == Params(p, k);
    forall o | o in inside ensures exists f :: f in active + {k} && o in Params(p, f) {
      assert k in active + {k} && o in inside.Keys;
    }
  }

  lemma DistinctParams(p: Program, k: nat)
    requires ShapedProgram(p, false) && k < |p.functions|
    ensures forall i, j | 0 <= i < j < |p.functions[k].params| ::
              p.functions[k].params[i] != p.functions[k].params[j]
  {
    hide ShapedBody;
  }

  lemma BodyOf(p: Program, k: nat)
    requires ShapedProgram(p, false) && k < |p.functions|
    ensures ShapedBody(p, Params(p, k), p.functions[k].body, true, false)
  {
    hide ShapedBody;
  }

  /** What a call needs to enter the body k. */
  ghost predicate Entering(v: View, env: Env, s: State, call: Call, k: nat) {
    && Context(v, env) && k < |v.p.functions| && k !in v.active && k in call.callees
    && ShapedCall(v.p, env.Keys, call, false) && SharpArguments(v.p, v.w, call, env, s)
  }

  /** A marked formal was bound to a marked argument. */
  lemma ArgumentSource(v: View, env: Env, s: State, call: Call, k: nat, goal: Goal, inner: Goal)
      returns (src: Goal)
    requires Entering(v, env, s, call, k) && !inner.InResult?
    requires goal.InCell? && IsFormal(v.p, goal.o) ==> exists f :: f in v.active && goal.o in Params(v.p, f)
    requires IsSource(v, BindEnv(v.p.functions[k].params, Snapshots(v.p, env, s, call.args)), s, goal, inner)
    ensures IsSource(v, env, s, goal, src)
    ensures forall m | Starts(v, env, s, m, src) :: EvalAll(v.p, m, call.args).Some? &&
              Delivered(BindParams(m, v.p.functions[k].params, EvalAll(v.p, m, call.args).value), [], inner, v.data)
  {
    hide ShapedBody, ExprDependency, Eval, Sharp, Scoped, BindEnv, BindParams, PointerTargets, ObjectDependency, Depth;
    hide Typed, Agrees, EnvAgrees, SharpPointer;
    var params, bindings := v.p.functions[k].params, Snapshots(v.p, env, s, call.args);
    BindEnvLookup(params, bindings);
    src := inner;
    if inner.InCell? && inner.o in params {
      var i :| 0 <= i < |params| && params[i] == inner.o;
      assert inner.o in Params(v.p, k);
      FormalsApart(v, k, goal, inner.o);
      assert call.args[i] in call.args;
      src := ValueSource(v, env, s, call.args[i]);
    }
    forall m | Starts(v, env, s, m, src)
      ensures EvalAll(v.p, m, call.args).Some?
      ensures Delivered(BindParams(m, params, EvalAll(v.p, m, call.args).value), [], inner, v.data)
    {
      SharpAllEvaluate(v, env, s, m, call.args);
      BindParamsLoads(m, params, EvalAll(v.p, m, call.args).value);
    }
  }

  lemma FormalsApart(v: View, k: nat, goal: Goal, o: Object)
    requires ShapedProgram(v.p, false) && k < |v.p.functions| && k !in v.active && o in Params(v.p, k)
    requires forall f | f in v.active :: f < |v.p.functions|
    requires goal.InCell? && IsFormal(v.p, goal.o) ==> exists f :: f in v.active && goal.o in Params(v.p, f)
    ensures goal.InCell? && IsFormal(v.p, goal.o) ==> goal.o != o
  {
    hide ShapedBody;
  }

  lemma {:induction false} BindParamsTyped(p: Program, store: Store, params: seq<Object>, cells: seq<Cell>)
    requires |params| == |cells| && Typed(p, store)
    requires forall i | 0 <= i < |params| :: PointsWell(p, cells[i], p.depth(params[i]))
    ensures Typed(p, BindParams(store, params, cells))
    decreases params
  {
    if params != [] { BindParamsTyped(p, store[params[0] := cells[0]], params[1..], cells[1..]); }
  }

  lemma ArgumentsTyped(v: View, env: Env, s: State, call: Call, k: nat, m: Store)
    requires Entering(v, env, s, call, k) && Typed(v.p, m) && EvalAll(v.p, m, call.args).Some?
    ensures var f, cells := v.p.functions[k], EvalAll(v.p, m, call.args).value;
            && |cells| == |f.params| && (forall i | 0 <= i < |cells| :: Fits(v.p, f.params[i], cells[i]))
            && Typed(v.p, BindParams(m, f.params, cells))
  {
    hide Scoped, Eval, Depth, BindParams, Typed, ShapedProgram, SharpArguments;
    var f, cells := v.p.functions[k], EvalAll(v.p, m, call.args).value;
    forall i | 0 <= i < |cells|
      ensures Fits(v.p, f.params[i], cells[i]) && PointsWell(v.p, cells[i], v.p.depth(f.params[i]))
    {
      assert call.args[i] in call.args;
      LevelOf(v.p, env.Keys, m, call.args[i]);
    }
    BindParamsTyped(v.p, m, f.params, cells);
  }

  /** The store a body starts from meets what was said before the call. */
  lemma ArgumentsAgree(v: View, env: Env, s: State, call: Call, k: nat, m: Store)
    requires Entering(v, env, s, call, k) && EvalAll(v.p, m, call.args).Some?
    requires Agrees(v.p, v.w, s, m) && EnvAgrees(v.w, env, m)
    ensures var f, cells := v.p.functions[k], EvalAll(v.p, m, call.args).value;
            var bound := BindParams(m, f.params, cells);
            && Agrees(v.p, v.w, s, bound)
            && EnvAgrees(v.w, BindEnv(f.params, Snapshots(v.p, env, s, call.args)), bound)
            && forall o: Object | o !in Params(v.p, k) :: Load(bound, o) == Load(m, o)
  {
    hide Scoped, Eval, BindParams, BindEnv, PointerTargets, ExprDependency, ShapedBody, Sharp, Aim, PointsInto;
    var f, cells := v.p.functions[k], EvalAll(v.p, m, call.args).value;
    var bindings := Snapshots(v.p, env, s, call.args);
    BindParamsLoads(m, f.params, cells);
    BindEnvLookup(f.params, bindings);
    forall o | o in BindEnv(f.params, bindings) && o in v.w && BindEnv(f.params, bindings)[o].pointer.Some?
      ensures PointsInto(Load(BindParams(m, f.params, cells), o), BindEnv(f.params, bindings)[o].pointer.value)
    {
      var i :| 0 <= i < |f.params| && f.params[i] == o;
      assert call.args[i] in call.args && SharpPointer(v.p, v.w, env, s, call.args[i]);
      StoredPointsInto(v, env, s, m, call.args[i]);
    }
  }

  /** Behind the body: formals of the callers are as before the call, and the join is met. */
  lemma Leave(
      v: View, k: nat, m: Store, bound: Store, after: Store, outputs: seq<State>, i: nat, values: seq<Cell>, goal: Goal)
    requires ShapedProgram(v.p, false) && k < |v.p.functions| && k !in v.active && i < |outputs|
    requires forall f | f in v.active :: f < |v.p.functions|
    requires forall o: Object | o !in Params(v.p, k) :: Load(bound, o) == Load(m, o)
    requires Arrives(v.(active := v.active + {k}), outputs[i], bound, after, values, goal)
    ensures Arrives(v, Union(outputs), m, after, values, goal)
  {
    hide ShapedBody, Typed, Agrees, Union;
    UnionAgrees(v.p, v.w, outputs, i, after);
    forall f, o | f in v.active && o in Params(v.p, f) ensures Load(after, o) == Load(m, o) {
      assert f in v.active + {k} && f != k;
      assert Params(v.p, f) !! Params(v.p, k);
      assert o !in Params(v.p, k);
    }
  }

  lemma {:induction false} CallLeads(v: View, call: Call, env: Env, s: State, budget: nat, goal: Goal)
      returns (src: Goal, path: Path)
    requires Context(v, env) && ShapedCall(v.p, env.Keys, call, false)
    requires SharpCall(v.p, v.w, call, env, s, v.active, budget)
    requires var r := TransferCall(v.p, call, env, s, v.active, budget);
             r.Done? && Wanted(v, r.state, r.returned, goal)
    ensures IsSource(v, env, s, goal, src)
    ensures var r := TransferCall(v.p, call, env, s, v.active, budget);
            CallCarries(v, env, s, call, path, src, r.state, |r.returned|, goal)
    decreases budget, 4, 0
  {
    hide TransferCallees, SharpCallees, MergeReturns, Union, IsSource, Wanted, Snapshot, ScanFits, ShapedProgram;
    hide BlockCarries, ShapedAll, SharpArguments;
    var bindings := Snapshots(v.p, env, s, call.args);
    var c := TransferCallees(v.p, call.callees, bindings, s, v.active, budget - 1);
    SameCount(c.returnSets);
    var i := WhichBody(v, c.outputs, c.returnSets, goal);
    var k := call.callees[i];
    assert k in call.callees;
    var inner, steps := CalleesLead(v, call.callees, bindings, s, budget - 1, i, goal);
    var inside := BindEnv(v.p.functions[k].params, bindings);
    assert !inner.InResult? && (goal.InCell? && IsFormal(v.p, goal.o) ==> exists f ::
      f in v.active && goal.o in Params(v.p, f)) by {
      GoalBefore(v, inside, s, c.outputs[i], c.returnSets[i], goal, inner);
    }
    src := ArgumentSource(v, env, s, call, k, goal, inner);
    path := Enter(k, steps);
    CallRuns(v, env, s, call, k, steps, src, inner, c.outputs, i, |c.returnSets[i]|, goal);
  }

  lemma GoalBefore(v: View, env: Env, s: State, t: State, returned: seq<Binding>, goal: Goal, src: Goal)
    requires Wanted(v, t, returned, goal) && IsSource(v, env, s, goal, src)
    ensures !src.InResult?
    ensures goal.InCell? && IsFormal(v.p, goal.o) ==> exists f :: f in v.active && goal.o in Params(v.p, f)
  {
  }

  lemma CallRuns(
      v: View, env: Env, s: State, call: Call, k: nat, steps: seq<Path>, src: Goal, inner: Goal,
      outputs: seq<State>, i: nat, count: nat, goal: Goal)
    requires Entering(v, env, s, call, k) && i < |outputs|
    requires forall m | Starts(v, env, s, m, src) :: EvalAll(v.p, m, call.args).Some? &&
               Delivered(BindParams(m, v.p.functions[k].params, EvalAll(v.p, m, call.args).value), [], inner, v.data)
    requires BlockCarries(v.(active := v.active + {k}),
                          BindEnv(v.p.functions[k].params, Snapshots(v.p, env, s, call.args)), s,
                          v.p.functions[k].body, steps, true, inner, outputs[i], count, goal)
    ensures CallCarries(v, env, s, call, Enter(k, steps), src, Union(outputs), count, goal)
  {
    hide EvalAll, Fits, BindParams, RunBlock, Delivered, Typed, Agrees, EnvAgrees, Union, ShapedProgram, ShapedCall;
    hide SharpArguments, Arrives, RunCall;
    var f, more := v.p.functions[k], v.(active := v.active + {k});
    forall m | Starts(v, env, s, m, src)
      ensures Ends(v, Union(outputs), m, RunCall(v.p, call, Enter(k, steps), m), count, goal)
    {
      var cells := EvalAll(v.p, m, call.args).value;
      ArgumentsTyped(v, env, s, call, k, m);
      ArgumentsAgree(v, env, s, call, k, m);
      var bound := BindParams(m, f.params, cells);
      var out := RunBlock(v.p, f.body, steps, bound);
      assert Ends(more, outputs[i], bound, out, count, goal);
      Leave(v, k, m, bound, out.store, outputs, i, if out.Returned? then out.values else [], goal);
      RunCallIs(v.p, call, k, steps, m);
    }
  }

  /** A body that falls off its end returns nothing. */
  lemma RunCallIs(p: Program, call: Call, k: nat, steps: seq<Path>, m: Store)
    requires k in call.callees && k < |p.functions| && EvalAll(p, m, call.args).Some?
    requires var cells := EvalAll(p, m, call.args).value;
             && |cells| == |p.functions[k].params|
             && forall i | 0 <= i < |cells| :: Fits(p, p.functions[k].params[i], cells[i])
    ensures var f, cells := p.functions[k], EvalAll(p, m, call.args).value;
            var out := RunBlock(p, f.body, steps, BindParams(m, f.params, cells));
            RunCall(p, call, Enter(k, steps), m) == if out.Next? then Returned(out.store, []) else out
  {
    hide EvalAll, Fits, BindParams, RunBlock;
  }

  // ----- loops -----

  lemma {:induction false} RoundLeads(
      v: View, post: Option<Stmt>, body: seq<Stmt>, env: Env, head: State, budget: nat, goal: Goal)
      returns (src: Goal, round: Path)
    requires Context(v, env) && ShapedBody(v.p, env.Keys, body, false, false)
             && ShapedHeader(v.p, env.Keys, post, false)
    requires SharpRound(v.p, v.w, post, body, env, head, v.active, budget)
    requires var r := TransferRound(v.p, post, body, env, head, v.active, budget);
             r.Done? && Wanted(v, r.state, [], goal)
    ensures IsSource(v, env, head, goal, src)
    ensures var r := TransferRound(v.p, post, body, env, head, v.active, budget);
            RoundCarries(v, env, head, body, post, round, src, r.state, goal)
    decreases budget, 3, 0
  {
    hide TransferBlock, SharpBlock, ApplyHeader, HeaderFits, Context, IsSource, Wanted, Starts, Arrives, ShapedBody;
    hide ShapedHeader, SharpHeader, RunBlock, RunHeader;
    var out := TransferBlock(v.p, body, env, head, v.active, budget);
    var end := ApplyHeader(v.p, env, out.state, post).state;
    var mid := HeaderLeads(v, env, out.state, post, goal);
    SourceIsWanted(v, env, out.state, end, [], goal, mid);
    var steps;
    src, steps := BlockLeads(v, body, false, env, head, budget, mid);
    SourceOfSource(v, env, head, out.state, goal, mid, src);
    round := Nested(steps);
    forall m | Starts(v, env, head, m, src)
      ensures RunRound(v.p, body, post, round, m).Next?
      ensures Arrives(v, end, m, RunRound(v.p, body, post, round, m).store, [], goal)
    {
      var next := RunBlock(v.p, body, steps, m);
      assert Ends(v, out.state, m, next, 0, mid) && next.Next?;
      Onward(v, env, head, out.state, m, next.store, src, mid);
      assert RunHeader(v.p, next.store, post).Some?;
      Thence(v, out.state, end, m, next.store, RunHeader(v.p, next.store, post).value, [], mid, goal);
    }
  }

  lemma {:induction false} MoreRounds(
      p: Program, body: seq<Stmt>, post: Option<Stmt>, rounds: seq<Path>, round: Path, store: Store)
    ensures RunRounds(p, body, post, rounds + [round], store) ==
            match RunRounds(p, body, post, rounds, store)
            case Next(s) => RunRound(p, body, post, round, s)
            case other => other
    decreases |rounds|
  {
    hide RunRound;
    if rounds == [] {
      assert [] + [round] == [round] && [round][1..] == [];
    } else {
      assert (rounds + [round])[1..] == rounds[1..] + [round];
      match RunRound(p, body, post, rounds[0], store) {
        case Next(s) => MoreRounds(p, body, post, rounds[1..], round, s);
        case _ =>
      }
    }
  }

  ghost predicate FromRounds(
      v: View, body: seq<Stmt>, post: Option<Stmt>, env: Env, entry: State, head: State, goal: Goal)
  {
    exists src, rounds :: IsSource(v, env, entry, goal, src) &&
                          RoundsCarry(v, env, entry, body, post, rounds, src, head, goal)
  }

  /** What a head marks comes from the entry, by some number of rounds. */
  ghost predicate HeadReached(v: View, body: seq<Stmt>, post: Option<Stmt>, env: Env, entry: State, head: State) {
    && (forall store | Agrees(v.p, v.w, entry, store) :: Agrees(v.p, v.w, head, store))
    && (forall o: Object | !IsFormal(v.p, o) && Flagged(ObjectDependency(v.p, head, o), v.data) ::
          FromRounds(v, body, post, env, entry, head, InCell(o)))
  }

  /** No round at all. */
  lemma NoRounds(v: View, body: seq<Stmt>, post: Option<Stmt>, env: Env, entry: State, head: State, goal: Goal)
    requires Context(v, env) && Wanted(v, entry, [], goal)
    requires forall store | Agrees(v.p, v.w, entry, store) :: Agrees(v.p, v.w, head, store)
    ensures FromRounds(v, body, post, env, entry, head, goal)
    ensures RoundsCarry(v, env, entry, body, post, [], goal, head, goal) && IsSource(v, env, entry, goal, goal)
  {
    hide Typed, Agrees, EnvAgrees, Context;
    Stays(v, env, entry, goal);
    forall m | Starts(v, env, entry, m, goal)
      ensures RunRounds(v.p, body, post, [], m).Next?
      ensures Arrives(v, head, m, RunRounds(v.p, body, post, [], m).store, [], goal)
    {
      assert RunRounds(v.p, body, post, [], m) == Next(m);
    }
    assert RoundsCarry(v, env, entry, body, post, [], goal, head, goal);
  }

  lemma NextHeadReached(
      v: View, post: Option<Stmt>, body: seq<Stmt>, env: Env, entry: State, head: State, budget: nat)
    requires Context(v, env) && ShapedBody(v.p, env.Keys, body, false, false)
             && ShapedHeader(v.p, env.Keys, post, false)
    requires SharpRound(v.p, v.w, post, body, env, head, v.active, budget)
    requires HeadReached(v, body, post, env, entry, head)
    requires TransferRound(v.p, post, body, env, head, v.active, budget).Done?
    ensures var out := TransferRound(v.p, post, body, env, head, v.active, budget).state;
            HeadReached(v, body, post, env, entry, Union([entry, out]))
    decreases budget, 3, 1
  {
    hide TransferRound, SharpRound, Context, ShapedBody, ShapedHeader, Union, ObjectDependency, FromRounds, Agrees;
    var out := TransferRound(v.p, post, body, env, head, v.active, budget).state;
    var merged := Union([entry, out]);
    forall store | Agrees(v.p, v.w, entry, store) ensures Agrees(v.p, v.w, merged, store) {
      UnionAgrees(v.p, v.w, [entry, out], 0, store);
    }
    forall o: Object | !IsFormal(v.p, o) && Flagged(ObjectDependency(v.p, merged, o), v.data)
      ensures FromRounds(v, body, post, env, entry, merged, InCell(o))
    {
      UnionMarks(v.p, [entry, out], o, v.data);
      if Flagged(ObjectDependency(v.p, entry, o), v.data) {
        NoRounds(v, body, post, env, entry, merged, InCell(o));
      } else {
        assert Flagged(ObjectDependency(v.p, out, o), v.data);
        var mid, round := RoundLeads(v, post, body, env, head, budget, InCell(o));
        OneMoreRound(v, body, post, env, entry, head, round, out, o, mid);
      }
    }
  }

  /** The source of a round is reached from the entry: a formal directly, everything else through the head. */
  lemma OneMoreRound(
      v: View, body: seq<Stmt>, post: Option<Stmt>, env: Env, entry: State, head: State, round: Path, out: State,
      o: Object, mid: Goal)
    requires HeadReached(v, body, post, env, entry, head) && Context(v, env) && !IsFormal(v.p, o)
    requires IsSource(v, env, head, InCell(o), mid)
    requires RoundCarries(v, env, head, body, post, round, mid, out, InCell(o))
    ensures FromRounds(v, body, post, env, entry, Union([entry, out]), InCell(o))
  {
    hide ShapedProgram, RoundsCarry, RoundCarries, ObjectDependency, Agrees, Union;
    SourceReached(v, body, post, env, entry, head, o, mid);
    var src, rounds :| IsSource(v, env, entry, mid, src) &&
                       RoundsCarry(v, env, entry, body, post, rounds, src, head, mid);
    SourceOfSource(v, env, entry, head, InCell(o), mid, src);
    RoundsThenRound(v, env, entry, body, post, rounds, round, src, head, mid, out, InCell(o));
  }

  lemma SourceReached(
      v: View, body: seq<Stmt>, post: Option<Stmt>, env: Env, entry: State, head: State, o: Object, mid: Goal)
    requires HeadReached(v, body, post, env, entry, head) && Context(v, env) && !IsFormal(v.p, o)
    requires IsSource(v, env, head, InCell(o), mid)
    ensures FromRounds(v, body, post, env, entry, head, mid)
  {
    hide ShapedProgram, RoundsCarry, ObjectDependency, Agrees, FromRounds;
    if IsFormal(v.p, mid.o) {
      NoRounds(v, body, post, env, entry, head, mid);
    } else {
      assert Flagged(ObjectDependency(v.p, head, mid.o), v.data) && mid == InCell(mid.o);
    }
  }

  lemma RoundsThenRound(
      v: View, env: Env, entry: State, body: seq<Stmt>, post: Option<Stmt>, rounds: seq<Path>, round: Path,
      src: Goal, head: State, mid: Goal, out: State, goal: Goal)
    requires Context(v, env) && RoundsCarry(v, env, entry, body, post, rounds, src, head, mid)
    requires RoundCarries(v, env, head, body, post, round, mid, out, goal)
    ensures RoundsCarry(v, env, entry, body, post, rounds + [round], src, Union([entry, out]), goal)
  {
    hide RunRounds, RunRound, Starts, Context, Union, Agrees, Typed, FormalsKept;
    forall m | Starts(v, env, entry, m, src)
      ensures RunRounds(v.p, body, post, rounds + [round], m).Next?
      ensures Arrives(v, Union([entry, out]), m, RunRounds(v.p, body, post, rounds + [round], m).store, [], goal)
    {
      MoreRounds(v.p, body, post, rounds, round, m);
      var next := RunRounds(v.p, body, post, rounds, m);
      Onward(v, env, entry, head, m, next.store, src, mid);
      var end := RunRound(v.p, body, post, round, next.store);
      assert RunRounds(v.p, body, post, rounds + [round], m) == end;
      Thence(v, head, out, m, next.store, end.store, [], mid, goal);
      UnionAgrees(v.p, v.w, [entry, out], 1, end.store);
    }
  }

  lemma {:induction false} RoundsLead(
      v: View, post: Option<Stmt>, body: seq<Stmt>, env: Env, entry: State, head: State, written: set<Object>,
      budget: nat, rounds: nat)
    requires Context(v, env) && ShapedBody(v.p, env.Keys, body, false, false)
             && ShapedHeader(v.p, env.Keys, post, false)
    requires SharpRounds(v.p, v.w, post, body, env, entry, head, v.active, budget, rounds)
    requires HeadReached(v, body, post, env, entry, head)
    ensures var r := TransferRounds(v.p, post, body, env, entry, head, written, v.active, budget, rounds);
            r.Done? ==> HeadReached(v, body, post, env, entry, r.state)
    decreases budget, 4, rounds
  {
    hide TransferRound, SharpRound, Context, ShapedBody, ShapedHeader, HeadReached, Union;
    var r := TransferRound(v.p, post, body, env, head, v.active, budget);
    if rounds > 0 && r.Done? {
      var merged := Union([entry, r.state]);
      NextHeadReached(v, post, body, env, entry, head, budget);
      if Key(merged) != Key(head) {
        RoundsLead(v, post, body, env, entry, merged, written + r.written, r.budget, rounds - 1);
      }
    }
  }

  lemma {:induction false} LoopLeads(
      v: View, init: Option<Stmt>, cond: Option<Condition>, post: Option<Stmt>, body: seq<Stmt>,
      env: Env, s: State, budget: nat, goal: Goal) returns (src: Goal, path: Path)
    requires Context(v, env) && ShapedBody(v.p, env.Keys, body, false, false)
    requires ShapedHeader(v.p, env.Keys, init, false) && ShapedHeader(v.p, env.Keys, post, false)
    requires SharpLoop(v.p, v.w, init, cond, post, body, env, s, v.active, budget)
    requires var r := TransferLoop(v.p, init, cond, post, body, env, s, v.active, budget);
             r.Done? && Wanted(v, r.state, [], goal)
    ensures IsSource(v, env, s, goal, src)
    ensures var r := TransferLoop(v.p, init, cond, post, body, env, s, v.active, budget);
            StmtCarries(v, env, s, For(init, cond, post, body), path, src, r.state, 0, goal)
    decreases budget, 5, 0
  {
    hide TransferRounds, SharpRounds, ApplyHeader, HeaderFits, Context, ShapedBody, ShapedHeader, SharpHeader;
    hide IsSource, HeadReached, Wanted, StmtCarries, HeaderCarries, RoundsCarry, FromRounds, ExprDependency, Agrees;
    var r := TransferLoop(v.p, init, cond, post, body, env, s, v.active, budget);
    var entry := ApplyHeader(v.p, env, s, init).state;
    var mid, rounds := goal, [];
    if cond.Some? && cond.value.constant == Some(false) {
      NoRounds(v, body, post, env, entry, entry, goal);
    } else {
      EntryReached(v, body, post, env, entry);
      RoundsLead(v, post, body, env, entry, entry, ApplyHeader(v.p, env, s, init).written, budget, LOOP_ROUNDS);
      mid, rounds := FromEntry(v, body, post, env, entry, r.state, goal);
    }
    SourceIsWanted(v, env, entry, r.state, [], goal, mid);
    src := HeaderLeads(v, env, s, init, mid);
    SourceOfSource(v, env, s, entry, goal, mid, src);
    path := Rounds(rounds);
    LoopRuns(v, env, s, init, cond, post, body, rounds, src, entry, mid, r.state, goal);
  }

  lemma LoopRuns(
      v: View, env: Env, s: State, init: Option<Stmt>, cond: Option<Condition>, post: Option<Stmt>,
      body: seq<Stmt>, rounds: seq<Path>, src: Goal, entry: State, mid: Goal, t: State, goal: Goal)
    requires Context(v, env) && (cond.Some? && cond.value.constant == Some(false) ==> rounds == [])
    requires HeaderCarries(v, env, s, init, src, entry, mid)
    requires RoundsCarry(v, env, entry, body, post, rounds, mid, t, goal)
    ensures StmtCarries(v, env, s, For(init, cond, post, body), Rounds(rounds), src, t, 0, goal)
  {
    hide RunRounds, RunHeader, Starts, Arrives, Context;
    var stmt := Stmt.For(init, cond, post, body);
    forall m | Starts(v, env, s, m, src)
      ensures RunStmt(v.p, stmt, Rounds(rounds), m).Next?
      ensures Ends(v, t, m, RunStmt(v.p, stmt, Rounds(rounds), m), 0, goal)
    {
      assert RunHeader(v.p, m, init).Some?;
      var next := RunHeader(v.p, m, init).value;
      Onward(v, env, s, entry, m, next, src, mid);
      var end := RunRounds(v.p, body, post, rounds, next);
      assert end.Next? && RunStmt(v.p, stmt, Rounds(rounds), m) == end;
      Thence(v, entry, t, m, next, end.store, [], mid, goal);
    }
  }

  lemma EntryReached(v: View, body: seq<Stmt>, post: Option<Stmt>, env: Env, entry: State)
    requires Context(v, env)
    ensures HeadReached(v, body, post, env, entry, entry)
  {
    hide Context, ObjectDependency, FromRounds, Agrees;
    forall o: Object | !IsFormal(v.p, o) && Flagged(ObjectDependency(v.p, entry, o), v.data)
      ensures FromRounds(v, body, post, env, entry, entry, InCell(o))
    {
      NoRounds(v, body, post, env, entry, entry, InCell(o));
    }
  }

  lemma FromEntry(
      v: View, body: seq<Stmt>, post: Option<Stmt>, env: Env, entry: State, head: State, goal: Goal)
      returns (src: Goal, rounds: seq<Path>)
    requires HeadReached(v, body, post, env, entry, head) && Context(v, env) && Wanted(v, head, [], goal)
    ensures IsSource(v, env, entry, goal, src) && RoundsCarry(v, env, entry, body, post, rounds, src, head, goal)
  {
    hide Context, RoundsCarry, ObjectDependency, Agrees;
    if !(goal.InCell? && !IsFormal(v.p, goal.o)) { NoRounds(v, body, post, env, entry, head, goal); }
    assert FromRounds(v, body, post, env, entry, head, goal);
    src, rounds :| IsSource(v, env, entry, goal, src) &&
                   RoundsCarry(v, env, entry, body, post, rounds, src, head, goal);
  }

  // ----- whole calls -----

  /** Tracked watched pointers have targets of the level below. */
  ghost predicate WellWatched(p: Program, w: set<Object>, s: State) {
    forall o | o in w && o in Tracked(s) && !IsFormal(p, o) :: TargetsFit(p, o, Tracked(s)[o])
  }

  /** A described store in which every mark is there, and the watched pointers point where they are known to. */
  lemma StartStore(p: Program, w: set<Object>, s: State) returns (m: Store)
    requires WellWatched(p, w, s)
    ensures CoversNow(p, s, m) && Typed(p, m) && Agrees(p, w, s, m)
    ensures forall o: Object, data ::
              Flagged(ObjectDependency(p, s, o), data) ==> Carried(Load(m, o), data)
  {
    hide ObjectTargets, ObjectDependency;
    var chosen := set o | o in w && o in Tracked(s) && !IsFormal(p, o) && OneTarget(Tracked(s)[o]);
    var c: Choice := map o | o in chosen :: OneOf(Tracked(s)[o].targets);
    var none: Env := map[];
    forall o | o in c ensures KnownOf(p, none, s, o) == Tracked(s)[o] { TrackedResolves(p, none, s, o); }
    m := Filled(p, none, s, c);
    ChosenFits(p, none, s, c);
    DescribedIsCoversNow(p, s, m);
    forall o: Object ensures Load(m, o) == Filling(p, none, s, c, o) { FilledAt(p, none, s, c, o); }
  }

  /** Some element, or 0. */
  ghost function OneOf(a: set<Object>): (x: Object)
    ensures a != {} ==> x in a
  {
    if a == {} then 0 else var x :| x in a; x
  }

  /** The run ends, returns as many values as the answer has results, and carries the mark to the goal. */
  predicate Leaves(p: Program, call: Call, path: Path, m: Store, count: nat, goal: Goal, data: bool) {
    var out := RunCall(p, call, path, m);
    out.Returned? && |out.values| == count && Delivered(out.store, out.values, goal, data)
  }

  /** What the entry point hands on: the state with a tracked alias map. */
  function Entry(initial: State): State {
    initial.(aliases := Some(Tracked(initial)))
  }

  /** The program and the call are shaped as Go's rules have it, and every load on the way has one target. */
  ghost predicate SharpEntry(p: Program, w: set<Object>, call: Call, initial: State) {
    && ShapedProgram(p, false) && ShapedCall(p, {}, call, false) && WellWatched(p, w, initial)
    && SharpCall(p, w, call, map[], Entry(initial), {}, CALL_BUDGET)
  }

  lemma GoalIsLeft(p: Program, w: set<Object>, call: Call, initial: State, goal: Goal, data: bool)
    requires SharpEntry(p, w, call, initial) && OrderedCall(p, call, initial).Done?
    requires var r := OrderedCall(p, call, initial); Wanted(View(p, w, {}, data), r.state, r.returned, goal)
    requires !goal.Nothing? && !(goal.InCell? && IsFormal(p, goal.o))
    ensures var r := OrderedCall(p, call, initial);
            exists m, path :: CoversNow(p, initial, m) && Typed(p, m)
              && Leaves(p, call, path, m, |r.returned|, goal, data)
  {
    hide ShapedProgram, ShapedCall, SharpCall, TransferCall, Wanted, RunCall, Typed, CoversNow, Agrees;
    var none: Env := map[];
    assert none.Keys == {};
    var v, r := View(p, w, {}, data), OrderedCall(p, call, initial);
    var src, path := CallLeads(v, call, none, Entry(initial), CALL_BUDGET, goal);
    var m := StartStore(p, w, initial);
    assert Agrees(p, w, Entry(initial), m) by { SameAgreement(p, w, initial, m); }
    assert Starts(v, none, Entry(initial), m, src);
    assert Ends(v, r.state, m, RunCall(p, call, path, m), |r.returned|, goal);
    assert Leaves(p, call, path, m, |r.returned|, goal, data);
  }

  lemma SameAgreement(p: Program, w: set<Object>, s: State, m: Store)
    requires Agrees(p, w, s, m)
    ensures Agrees(p, w, Entry(s), m)
  {
  }

  /** Every object that the answer marks is left marked by some run from a store that the caller's state describes. */
  lemma CallTight(p: Program, w: set<Object>, call: Call, initial: State, o: Object, data: bool)
    requires SharpEntry(p, w, call, initial) && OrderedCall(p, call, initial).Done? && !IsFormal(p, o)
    requires if data then o in OrderedCall(p, call, initial).state.deps
             else Stride(OrderedCall(p, call, initial).state, o) != ""
    ensures exists m, path :: CoversNow(p, initial, m) && Typed(p, m) && RunCall(p, call, path, m).Returned? &&
              var c := Load(RunCall(p, call, path, m).store, o); if data then c.data else c.stride
  {
    hide SharpEntry, OrderedCall, RunCall, Typed, CoversNow;
    GoalIsLeft(p, w, call, initial, InCell(o), data);
    var m, path :| CoversNow(p, initial, m) && Typed(p, m) &&
                   Leaves(p, call, path, m, |OrderedCall(p, call, initial).returned|, InCell(o), data);
  }

  /** And every result that the answer marks is returned marked by some run. */
  lemma ResultTight(p: Program, w: set<Object>, call: Call, initial: State, i: nat, data: bool)
    requires SharpEntry(p, w, call, initial) && OrderedCall(p, call, initial).Done?
    requires var r := OrderedCall(p, call, initial).returned;
             i < |r| && if data then r[i].dependency.derived else r[i].dependency.stride
    ensures exists m, path :: CoversNow(p, initial, m) && Typed(p, m) && RunCall(p, call, path, m).Returned? &&
              var values := RunCall(p, call, path, m).values;
              |values| == |OrderedCall(p, call, initial).returned| && if data then values[i].data else values[i].stride
  {
    hide SharpEntry, OrderedCall, RunCall, Typed, CoversNow;
    GoalIsLeft(p, w, call, initial, InResult(i), data);
    var m, path :| CoversNow(p, initial, m) && Typed(p, m) &&
                   Leaves(p, call, path, m, |OrderedCall(p, call, initial).returned|, InResult(i), data);
  }

  /** Programs without loads need no condition on the way. */
  lemma DirectEntry(p: Program, call: Call, initial: State)
    requires ShapedProgram(p, true) && ShapedCall(p, {}, call, true)
    ensures SharpEntry(p, {}, call, initial)
  {
    hide ShapedProgram, SharpCall;
    ProgramIsShaped(p);
    CallIsSharp(p, {}, call, map[], Entry(initial), {}, CALL_BUDGET);
  }

  lemma DirectCallTight(p: Program, call: Call, initial: State, o: Object, data: bool)
    requires ShapedProgram(p, true) && ShapedCall(p, {}, call, true)
    requires OrderedCall(p, call, initial).Done? && !IsFormal(p, o)
    requires if data then o in OrderedCall(p, call, initial).state.deps
             else Stride(OrderedCall(p, call, initial).state, o) != ""
    ensures exists m, path :: CoversNow(p, initial, m) && Typed(p, m) && RunCall(p, call, path, m).Returned? &&
              var c := Load(RunCall(p, call, path, m).store, o); if data then c.data else c.stride
  {
    hide ShapedProgram, ShapedCall, SharpEntry, OrderedCall, RunCall, Typed, CoversNow;
    DirectEntry(p, call, initial);
    CallTight(p, {}, call, initial, o, data);
  }
}
