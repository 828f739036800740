/**
 Soundness of the ordered transfer: when it answers, its output covers every
 run of the call (checks/ps1006.go:942-949, 962-1934).
 */
module OrderedSoundness {
  import opened AliasResolution
  import opened DependencyState
  import opened GoBodies
  import opened OrderedTransfer
  import opened Wrappers

  // ----- what an abstract state says about a store -----

  predicate CellCovered(c: Cell, d: Dependency) {
    d.known ==> (c.data ==> d.derived) && (c.stride ==> d.stride)
  }

  predicate BindingCovers(c: Cell, b: Binding) {
    CellCovered(c, b.dependency) && (c.value.Ref? && b.pointer.Some? ==> PointerCovered(c, b.pointer.value))
  }

  /** The program, the state the analysis starts from, and the objects that may be retargeted. */
  datatype Ground = Ground(p: Program, start: State, free: set<Object>)

  /** Formals are among the free objects, and untracked pointers are anchored outside them. */
  predicate Grounded(g: Ground) {
    Formals(g.p) <= g.free && Anchored(g.p, Tracked(g.start), g.free)
  }

  /** What is known of a pointer: its entry, or else what it resolved to at the start. */
  function Described(g: Ground, s: State, o: Object): Alias {
    if o in Tracked(s) then Tracked(s)[o] else ObjectTargets(g.p, map[], g.start, o)
  }

  /** Formals are described by the environment, everything else by the state. */
  ghost predicate Covers(g: Ground, s: State, store: Store) {
    && Retargets(Tracked(g.start), Tracked(s), g.free)
    && forall o: Object :: !IsFormal(g.p, o) ==>
         CellCovered(Load(store, o), ObjectDependency(g.p, s, o)) && PointerCovered(Load(store, o), Described(g, s, o))
  }

  /** The state alone describes the store: this is what a caller of the analysis has to see to. */
  ghost predicate CoversNow(p: Program, s: State, store: Store) {
    forall o: Object :: !IsFormal(p, o) ==>
      && CellCovered(Load(store, o), ObjectDependency(p, s, o))
      && PointerCovered(Load(store, o), ObjectTargets(p, map[], s, o))
  }

  ghost predicate EnvCovers(p: Program, env: Env, store: Store) {
    forall o | o in env :: IsFormal(p, o) && BindingCovers(Load(store, o), env[o])
  }

  predicate PointsWell(p: Program, c: Cell, level: int) {
    c.value.Ref? ==> p.depth(c.value.target) + 1 == level && !IsFormal(p, c.value.target)
  }

  ghost predicate Typed(p: Program, store: Store) {
    forall o: Object :: PointsWell(p, Load(store, o), p.depth(o))
  }

  // ----- the fragment -----

  /** Only own formals are named, and no formal's address is taken. */
  predicate Scoped(p: Program, own: set<Object>, e: Expr) {
    match e
    case NilLiteral => true
    case Literal(_) => true
    case Var(o) => IsFormal(p, o) ==> o in own
    case AddressOf(o) => !IsFormal(p, o)
    case Deref(x) => Scoped(p, own, x)
    case Unary(_, x) => Scoped(p, own, x)
    case Binary(_, l, r) => Scoped(p, own, l) && Scoped(p, own, r)
    case Convert(_, x) => Scoped(p, own, x)
    case Index(x, i) => Scoped(p, own, x) && Scoped(p, own, i)
  }

  predicate ScopedAll(p: Program, own: set<Object>, es: seq<Expr>) {
    forall e | e in es :: Scoped(p, own, e)
  }

  predicate ScopedLhs(p: Program, own: set<Object>, lhs: seq<Lhs>) {
    forall l | l in lhs && l.Place? :: Scoped(p, own, l.e)
  }

  /** Where a statement list stands: it is a whole body, or the end of one, or neither. */
  datatype Spot = Whole | Tail | Inside

  /** Of a list at the end of a body only the last element is at its end. */
  function EndOf(spot: Spot, last: bool): Spot {
    if last && spot != Inside then Tail else Inside
  }

  /** A return with results inside a nested list. */
  predicate Drops(stmt: Stmt, nested: bool)
    decreases stmt, 1
  {
    match stmt
    case Block(body) => DropsAny(body, true)
    case For(_, _, _, body) => DropsAny(body, true)
    case Return(results) => nested && results != []
    case _ => false
  }

  predicate DropsAny(body: seq<Stmt>, nested: bool)
    decreases body, 0
  {
    body != [] && (Drops(body[0], nested) || DropsAny(body[1..], nested))
  }

  /** Some body returns with results from a nested list, where the transfer drops them. */
  predicate Lossy(p: Program) {
    exists f :: 0 <= f < |p.functions| && DropsAny(p.functions[f].body, false)
  }

  /** A return that is not last is refused by the transfer itself. One that is last belongs to the
      end of a whole body; a post statement would still follow. */
  predicate ScopedStmt(p: Program, own: set<Object>, stmt: Stmt, spot: Spot, last: bool)
    decreases stmt, 1
  {
    match stmt
    case Assign(_, lhs, rhs) => ScopedLhs(p, own, lhs) && ScopedAll(p, own, rhs)
    case IncDec(_, place) => Scoped(p, own, place)
    case Declare(specs) => forall d | d in specs :: ScopedLhs(p, own, d.names) && ScopedAll(p, own, d.values)
    case Print(args) => ScopedAll(p, own, args)
    case CallStmt(call) => ScopedAll(p, own, call.args)
    case Block(body) => ScopedBody(p, own, body, EndOf(spot, last))
    case For(init, cond, post, body) =>
      && (init.Some? ==> ScopedStmt(p, own, init.value, Inside, false))
      && (post.Some? ==> ScopedStmt(p, own, post.value, Inside, false))
      && ScopedBody(p, own, body, if post.None? then EndOf(spot, last) else Inside)
    case Return(results) =>
      && (!last || spot == Whole || (spot == Tail && (results == [] || Lossy(p))))
      && forall r | r in results :: ScopedAll(p, own, if r.Value? then [r.e] else r.call.args)
    case Empty => true
    case Unsupported => true
  }

  predicate ScopedBody(p: Program, own: set<Object>, body: seq<Stmt>, spot: Spot)
    decreases body, 0
  {
    body == [] || (ScopedStmt(p, own, body[0], spot, |body| == 1) && ScopedBody(p, own, body[1..], spot))
  }

  function Params(p: Program, f: nat): set<Object> {
    if f < |p.functions| then set o | o in p.functions[f].params else {}
  }

  ghost predicate WellFormed(p: Program) {
    && (forall f | 0 <= f < |p.functions| :: ScopedBody(p, Params(p, f), p.functions[f].body, Whole))
    && (forall f, g | 0 <= f < g < |p.functions| :: Params(p, f) !! Params(p, g))
    && (forall f, i, j | 0 <= f < |p.functions| && 0 <= i < j < |p.functions[f].params| ::
          p.functions[f].params[i] != p.functions[f].params[j])
  }

  // ----- what a run may not touch -----

  /** Formals of the bodies being executed keep their values. */
  ghost predicate FormalsKept(p: Program, active: set<nat>, before: Store, after: Store) {
    forall f, o | f in active && o in Params(p, f) :: Load(after, o) == Load(before, o)
  }

  ghost predicate Touches(p: Program, before: Store, after: Store, written: set<Object>) {
    forall o: Object | !IsFormal(p, o) && o !in written :: Load(after, o) == Load(before, o)
  }

  ghost predicate EnvOwned(p: Program, env: Env, active: set<nat>) {
    forall o | o in env :: exists f :: f in active && o in Params(p, f)
  }

  ghost predicate Ready(g: Ground, env: Env, active: set<nat>, s: State, store: Store) {
    && WellFormed(g.p) && Grounded(g) && Covers(g, s, store) && Typed(g.p, store)
    && EnvCovers(g.p, env, store) && EnvOwned(g.p, env, active) && forall f | f in active :: f < |g.p.functions|
  }

  /** The effect of a run from `before` to `after` is described by the state and the written set. */
  ghost predicate Sound(g: Ground, active: set<nat>, s: State, written: set<Object>, before: Store, after: Store) {
    && Covers(g, s, after) && Typed(g.p, after)
    && FormalsKept(g.p, active, before, after) && Touches(g.p, before, after, written)
  }

  ghost predicate ValuesCovered(values: seq<Cell>, bindings: seq<Binding>) {
    |values| == |bindings| && forall i | 0 <= i < |values| :: BindingCovers(values[i], bindings[i])
  }

  /** The results that were not dropped are covered; without nested results none is dropped. */
  ghost predicate ValuesMatch(p: Program, values: seq<Cell>, bindings: seq<Binding>) {
    && |bindings| <= |values|
    && (|bindings| == |values| || !Lossy(p) ==> ValuesCovered(values, bindings))
    && forall v | v in values && v.value.Ref? :: !IsFormal(p, v.value.target)
  }

  ghost predicate Matches(g: Ground, active: set<nat>, r: Result, before: Store, out: Outcome)
  {
    match r
    case Fail(_) => true
    case Done(s, w, returned, _, _, _) =>
      match out
      case Stuck => true
      case Next(after) => Sound(g, active, s, w, before, after) && returned == []
      case Returned(after, values) => Sound(g, active, s, w, before, after) && ValuesMatch(g.p, values, returned)
  }

  // ----- expressions -----

  lemma ScanCovers(p: Program, env: Env, s: State, names: seq<Object>, o: Object)
    requires o in names && Scan(p, env, s, names).known
    ensures var d := IdentifierDependency(p, env, s, o);
            d.known && (d.derived ==> Scan(p, env, s, names).derived) && (d.stride ==> Scan(p, env, s, names).stride)
  {
    if names[0] != o { ScanCovers(p, env, s, names[1..], o); }
  }

  predicate LoadsData(p: Program, store: Store, d: Expr) {
    Eval(p, store, d).Some? && Eval(p, store, d).value.data
  }

  predicate LoadsStride(p: Program, store: Store, d: Expr) {
    Eval(p, store, d).Some? && Eval(p, store, d).value.stride
  }

  ghost predicate DataSource(p: Program, store: Store, e: Expr) {
    (exists o :: o in Identifiers(e) && Load(store, o).data) || (exists d :: d in Loads(e) && LoadsData(p, store, d))
  }

  ghost predicate StrideSource(p: Program, store: Store, e: Expr) {
    || (exists o :: o in Identifiers(e) && Load(store, o).stride)
    || (exists d :: d in Loads(e) && LoadsStride(p, store, d))
  }

  lemma SourcesGrow(p: Program, store: Store, part: Expr, e: Expr)
    requires forall o | o in Identifiers(part) :: o in Identifiers(e)
    requires forall d | d in Loads(part) :: d in Loads(e)
    ensures DataSource(p, store, part) ==> DataSource(p, store, e)
    ensures StrideSource(p, store, part) ==> StrideSource(p, store, e)
  {
  }

  /** The flags of a value come from the cells it names and from its loads. */
  lemma {:induction false} FlagsComeFrom(p: Program, store: Store, e: Expr)
    requires Eval(p, store, e).Some?
    ensures Eval(p, store, e).value.data ==> DataSource(p, store, e)
    ensures Eval(p, store, e).value.stride ==> StrideSource(p, store, e)
    decreases e, 1
  {
    match e
    case Var(o) => assert o in Identifiers(e);
    case Deref(_) => assert e in Loads(e);
    case _ => FlagsComeFromParts(p, store, e);
  }

  lemma {:induction false} FlagsComeFromParts(p: Program, store: Store, e: Expr)
    requires Eval(p, store, e).Some? && !e.Var? && !e.Deref?
    ensures Eval(p, store, e).value.data ==> DataSource(p, store, e)
    ensures Eval(p, store, e).value.stride ==> StrideSource(p, store, e)
    decreases e, 0
  {
    hide DataSource, StrideSource;
    match e
    case Unary(_, x) => FlagsComeFrom(p, store, x); SourcesGrow(p, store, x, e);
    case Convert(_, x) => FlagsComeFrom(p, store, x); SourcesGrow(p, store, x, e);
    case Binary(_, l, r) =>
      FlagsComeFrom(p, store, l);
      FlagsComeFrom(p, store, r);
      SourcesGrow(p, store, l, e);
      SourcesGrow(p, store, r, e);
    case Index(x, i) =>
      FlagsComeFrom(p, store, x);
      FlagsComeFrom(p, store, i);
      SourcesGrow(p, store, x, e);
      SourcesGrow(p, store, i, e);
    case _ =>
  }

  lemma {:induction false} NamesAreScoped(p: Program, own: set<Object>, e: Expr)
    requires Scoped(p, own, e)
    ensures forall o | o in Identifiers(e) :: IsFormal(p, o) ==> o in own
  {
    match e
    case Deref(x) => NamesAreScoped(p, own, x);
    case Unary(_, x) => NamesAreScoped(p, own, x);
    case Convert(_, x) => NamesAreScoped(p, own, x);
    case Binary(_, l, r) => NamesAreScoped(p, own, l); NamesAreScoped(p, own, r);
    case Index(x, i) => NamesAreScoped(p, own, x); NamesAreScoped(p, own, i);
    case _ =>
  }

  predicate FlagsBelow(a: Dependency, b: Dependency) {
    a.known && (a.derived ==> b.derived) && (a.stride ==> b.stride)
  }

  /** An indexed read is covered when the loads inside are, and are within what the scan says. */
  lemma IndexSound(g: Ground, env: Env, s: State, store: Store, e: Expr)
    requires e.Index? && Covers(g, s, store) && EnvCovers(g.p, env, store)
    requires forall o | o in Identifiers(e) :: IsFormal(g.p, o) ==> o in env
    requires forall d | d in Loads(e) && Eval(g.p, store, d).Some? ::
               && CellCovered(Eval(g.p, store, d).value, ExprDependency(g.p, env, s, d))
               && Within(ExprDependency(g.p, env, s, d), ExprDependency(g.p, env, s, e))
    requires Eval(g.p, store, e).Some?
    ensures CellCovered(Eval(g.p, store, e).value, ExprDependency(g.p, env, s, e))
  {
    hide Resolve, ResolveObject, Eval;
    FlagsComeFrom(g.p, store, e);
    var r := ExprDependency(g.p, env, s, e);
    if r.known {
      assert r == Scan(g.p, env, s, Identifiers(e));
      forall o | o in Identifiers(e)
        ensures var d := IdentifierDependency(g.p, env, s, o); CellCovered(Load(store, o), d) && FlagsBelow(d, r)
      {
        ScanCovers(g.p, env, s, Identifiers(e), o);
      }
    }
  }

  /** Resolving a pointer in the current map and environment stays above what is known of it. */
  lemma StaysDescribed(g: Ground, env: Env, s: State, o: Object)
    requires Grounded(g) && Retargets(Tracked(g.start), Tracked(s), g.free) && env.Keys <= g.free && !IsFormal(g.p, o)
    ensures AliasResolution.Below(Described(g, s, o), ObjectTargets(g.p, env, s, o))
  {
    TargetsAbove(g.p, env, Tracked(g.start), Tracked(s), g.free, o);
  }

  lemma EnvIsFree(g: Ground, env: Env, store: Store)
    requires Grounded(g) && EnvCovers(g.p, env, store)
    ensures env.Keys <= g.free
  {
  }

  lemma AddressResolves(p: Program, env: Env, s: State, o: Object)
    ensures PointerTargets(p, env, s, AddressOf(o)) == Alias({o}, true)
  {
  }

  lemma VariableResolves(p: Program, env: Env, s: State, o: Object)
    ensures o !in env ==> PointerTargets(p, env, s, Var(o)) == ObjectTargets(p, env, s, o)
    ensures o in env ==>
              var b := env[o].pointer;
              PointerTargets(p, env, s, Var(o)) == if b.Some? then b.value else UNKNOWN_ALIAS
  {
  }

  lemma ConversionResolves(p: Program, env: Env, s: State, op: nat, x: Expr)
    ensures PointerTargets(p, env, s, Convert(op, x)) == PointerTargets(p, env, s, x)
  {
  }

  lemma LoadResolves(p: Program, env: Env, s: State, x: Expr)
    ensures var a, r := PointerTargets(p, env, s, x), PointerTargets(p, env, s, Deref(x));
            r.known ==> a.known && forall o | o in a.targets ::
              ObjectTargets(p, env, s, o).known && ObjectTargets(p, env, s, o).targets <= r.targets
  {
  }

  lemma {:induction false} EvalSound(g: Ground, env: Env, s: State, store: Store, e: Expr)
    requires Grounded(g) && Covers(g, s, store) && Typed(g.p, store) && EnvCovers(g.p, env, store)
    requires Scoped(g.p, env.Keys, e) && ScanFits(g.p, env, s, e)
    requires Eval(g.p, store, e).Some?
    ensures var c := Eval(g.p, store, e).value;
            && CellCovered(c, ExprDependency(g.p, env, s, e))
            && PointerCovered(c, PointerTargets(g.p, env, s, e))
            && PointsWell(g.p, c, Depth(g.p, e))
    decreases e, 0
  {
    hide Resolve, ResolveObject, Anchored, Retargets;
    EnvIsFree(g, env, store);
    match e
    case AddressOf(o) => AddressResolves(g.p, env, s, o);
    case Var(o) =>
      VariableResolves(g.p, env, s, o);
      if o !in env { StaysDescribed(g, env, s, o); }
    case Deref(x) =>
      EvalSound(g, env, s, store, x);
      var t := Eval(g.p, store, x).value.value.target;
      assert !IsFormal(g.p, t);
      LoadResolves(g.p, env, s, x);
      StaysDescribed(g, env, s, t);
    case Unary(_, x) => EvalSound(g, env, s, store, x);
    case Convert(op, x) =>
      EvalSound(g, env, s, store, x);
      ConversionResolves(g.p, env, s, op, x);
    case Binary(_, l, r) => EvalSound(g, env, s, store, l); EvalSound(g, env, s, store, r);
    case Index(x, i) =>
      LoadsSound(g, env, s, store, x);
      LoadsSound(g, env, s, store, i);
      NamesAreScoped(g.p, env.Keys, e);
      IndexSound(g, env, s, store, e);
    case _ =>
  }

  /** The loads inside an expression are covered, each by itself. */
  lemma {:induction false} LoadsSound(g: Ground, env: Env, s: State, store: Store, e: Expr)
    requires Grounded(g) && Covers(g, s, store) && Typed(g.p, store) && EnvCovers(g.p, env, store)
    requires Scoped(g.p, env.Keys, e) && ScanFits(g.p, env, s, e)
    ensures forall d | d in Loads(e) && Eval(g.p, store, d).Some? ::
              CellCovered(Eval(g.p, store, d).value, ExprDependency(g.p, env, s, d))
    decreases e, 1
  {
    hide Covers, Typed, EnvCovers, Grounded, ExprDependency, Eval;
    match e
    case Deref(x) => if Eval(g.p, store, e).Some? { EvalSound(g, env, s, store, e); }
    case Unary(_, x) => LoadsSound(g, env, s, store, x);
    case Convert(_, x) => LoadsSound(g, env, s, store, x);
    case Binary(_, l, r) => LoadsSound(g, env, s, store, l); LoadsSound(g, env, s, store, r);
    case Index(x, i) => LoadsSound(g, env, s, store, x); LoadsSound(g, env, s, store, i);
    case _ =>
  }

  lemma SnapshotSound(g: Ground, env: Env, s: State, store: Store, e: Expr)
    requires Grounded(g) && Covers(g, s, store) && Typed(g.p, store) && EnvCovers(g.p, env, store)
             && Scoped(g.p, env.Keys, e) && ScanFits(g.p, env, s, e)
    requires Eval(g.p, store, e).Some?
    ensures BindingCovers(Eval(g.p, store, e).value, Snapshot(g.p, env, s, e))
    ensures PointsWell(g.p, Eval(g.p, store, e).value, Depth(g.p, e))
  {
    EvalSound(g, env, s, store, e);
  }

  // ----- assignments -----

  lemma PlaceSound(g: Ground, env: Env, s: State, store: Store, lhs: Lhs)
    requires Grounded(g) && Covers(g, s, store) && Typed(g.p, store) && EnvCovers(g.p, env, store)
    requires lhs.Place? ==> Scoped(g.p, env.Keys, lhs.e) && ScanFits(g.p, env, s, lhs.e)
    ensures var t, o := TargetOf(g.p, env, s, lhs), PlaceOf(g.p, store, lhs);
            t != Unresolved && o != Unresolved ==> t == o && (t.At? ==> !IsFormal(g.p, t.obj))
  {
    if lhs.Place? && lhs.e.Deref? && Eval(g.p, store, lhs.e.pointer).Some? {
      EvalSound(g, env, s, store, lhs.e.pointer);
    }
  }

  /** One write: the state and the store change together. */
  lemma WriteSound(g: Ground, s: State, store: Store, o: Object, b: Binding, c: Cell)
    requires Covers(g, s, store) && Typed(g.p, store) && !IsFormal(g.p, o) && o in g.free
    requires b.dependency.known && CellCovered(c, b.dependency) && Fits(g.p, o, c)
    requires c.value.Ref? ==> !IsFormal(g.p, c.value.target) && b.pointer.Some? && PointerCovered(c, b.pointer.value)
    ensures Covers(g, SetAlias(SetDependency(s, o, b.dependency), o, b.pointer), store[o := c])
    ensures Typed(g.p, store[o := c])
  {
    hide Resolve, ResolveObject;
    var s', store' := SetAlias(SetDependency(s, o, b.dependency), o, b.pointer), store[o := c];
    forall q: Object | !IsFormal(g.p, q)
      ensures CellCovered(Load(store', q), ObjectDependency(g.p, s', q))
      ensures PointerCovered(Load(store', q), Described(g, s', q))
    {
      if q != o {
        assert Load(store', q) == Load(store, q);
        assert ObjectDependency(g.p, s', q) == ObjectDependency(g.p, s, q);
        assert Described(g, s', q) == Described(g, s, q);
      }
    }
    forall q: Object ensures PointsWell(g.p, Load(store', q), g.p.depth(q)) {
      if q != o { assert Load(store', q) == Load(store, q); }
    }
  }

  ghost predicate StoredCovers(p: Program, target: Target, b: Binding, c: Cell) {
    target.At? ==>
      && !IsFormal(p, target.obj) && b.dependency.known && CellCovered(c, b.dependency)
      && (c.value.Ref? ==>
            && !IsFormal(p, c.value.target)
            && (Fits(p, target.obj, c) ==> b.pointer.Some? && PointerCovered(c, b.pointer.value)))
  }

  lemma {:induction false} WriteAllSound(
      g: Ground, s: State, store: Store, targets: seq<Target>, stored: seq<Binding>, cells: seq<Cell>)
    requires Covers(g, s, store) && Typed(g.p, store) && |targets| == |stored| == |cells|
    requires Objects(targets) <= g.free
    requires forall i | 0 <= i < |targets| :: StoredCovers(g.p, targets[i], stored[i], cells[i])
    requires WriteAll(g.p, store, targets, cells).Some?
    ensures var after := WriteAll(g.p, store, targets, cells).value;
            && Covers(g, SetAll(s, targets, stored), after) && Typed(g.p, after)
            && (forall o | IsFormal(g.p, o) || o !in Objects(targets) :: Load(after, o) == Load(store, o))
    decreases targets
  {
    if targets != [] {
      assert StoredCovers(g.p, targets[0], stored[0], cells[0]);
      assert targets[0] in targets;
      match targets[0] {
        case At(o) =>
          WriteSound(g, s, store, o, stored[0], cells[0]);
          WriteAllSound(g, SetAlias(SetDependency(s, o, stored[0].dependency), o, stored[0].pointer),
                        store[o := cells[0]], targets[1..], stored[1..], cells[1..]);
        case Nowhere => WriteAllSound(g, s, store, targets[1..], stored[1..], cells[1..]);
        case Unresolved => assert false;
      }
    }
  }

  lemma AssignmentSound(g: Ground, env: Env, s: State, store: Store, kind: AssignOp, lhs: seq<Lhs>, rhs: seq<Expr>)
    requires Grounded(g) && Covers(g, s, store) && Typed(g.p, store) && EnvCovers(g.p, env, store)
    requires ScopedLhs(g.p, env.Keys, lhs) && ScopedAll(g.p, env.Keys, rhs)
    requires PlacesFit(g.p, env, s, lhs) && AllFit(g.p, env, s, rhs)
    requires ApplyAssignment(g.p, env, s, kind, lhs, rhs).Applied? && RunAssign(g.p, store, kind, lhs, rhs).Some?
    requires ApplyAssignment(g.p, env, s, kind, lhs, rhs).written <= g.free
    ensures var a, after := ApplyAssignment(g.p, env, s, kind, lhs, rhs), RunAssign(g.p, store, kind, lhs, rhs).value;
            && Covers(g, a.state, after) && Typed(g.p, after)
            && (forall o | IsFormal(g.p, o) || o !in a.written :: Load(after, o) == Load(store, o))
  {
    hide ExprDependency, PointerTargets, Depth, Scoped, ScanFits, Typed, EnvCovers, SetAll;
    var targets, places := TargetsOf(g.p, env, s, lhs), PlacesOf(g.p, store, lhs);
    var stored, cells := StoredAll(g.p, env, s, targets, rhs), EvalAll(g.p, store, rhs).value;
    forall i | 0 <= i < |lhs|
      ensures places[i] != Unresolved ==> targets[i] == places[i]
      ensures places[i] != Unresolved ==> StoredCovers(g.p, targets[i], stored[i], cells[i])
    {
      assert lhs[i] in lhs && targets[i] in targets && rhs[i] in rhs && stored[i] in stored;
      PlaceSound(g, env, s, store, lhs[i]);
      EvalSound(g, env, s, store, rhs[i]);
    }
    if kind.Plain? {
      WritesResolve(g.p, store, places, cells);
      assert places == targets;
      WriteAllSound(g, s, store, targets, stored, cells);
    } else {
      var o := places[0].obj;
      var before := Load(store, o);
      var c := Computed(g.p.ops.binary(kind.op, before.value, cells[0].value), before, cells[0]);
      var b := stored[0].(dependency := Either(stored[0].dependency, ObjectDependency(g.p, s, o)));
      assert places == targets == [At(o)];
      assert StoredCovers(g.p, At(o), b, c);
      WriteAllSound(g, s, store, targets, [b], [c]);
    }
  }

  lemma {:induction false} WritesResolve(p: Program, store: Store, targets: seq<Target>, cells: seq<Cell>)
    requires |targets| == |cells| && WriteAll(p, store, targets, cells).Some?
    ensures Unresolved !in targets
    decreases targets
  {
    if targets != [] {
      match targets[0] {
        case At(o) => WritesResolve(p, store[o := cells[0]], targets[1..], cells[1..]);
        case Nowhere => WritesResolve(p, store, targets[1..], cells[1..]);
        case Unresolved => assert false;
      }
    }
  }

  lemma HeaderSound(
      g: Ground, env: Env, active: set<nat>, s: State, store: Store, stmt: Option<Stmt>, spot: Spot, last: bool)
    requires Ready(g, env, active, s, store) && (stmt.Some? ==> ScopedStmt(g.p, env.Keys, stmt.value, spot, last))
    requires HeaderFits(g.p, env, s, stmt)
    requires ApplyHeader(g.p, env, s, stmt).Applied? && RunHeader(g.p, store, stmt).Some?
    requires ApplyHeader(g.p, env, s, stmt).written <= g.free
    ensures var a, after := ApplyHeader(g.p, env, s, stmt), RunHeader(g.p, store, stmt).value;
            Sound(g, active, a.state, a.written, store, after) && Ready(g, env, active, a.state, after)
  {
    hide ScopedBody, ApplyAssignment, RunAssign, WellFormed, Grounded, Covers, EnvCovers, EnvOwned, FormalsKept;
    var a, after := ApplyHeader(g.p, env, s, stmt), RunHeader(g.p, store, stmt).value;
    match stmt {
      case Some(Assign(kind, lhs, rhs)) =>
        AssignmentSound(g, env, s, store, kind, lhs, rhs);
        OnlyWritten(g, env, active, s, a.state, a.written, store, after);
      case Some(IncDec(op, place)) =>
        StepSound(g, env, s, store, op, place);
        OnlyWritten(g, env, active, s, a.state, a.written, store, after);
      case Some(Declare(specs)) => SpecsSound(g, env, active, s, store, specs);
      case _ => OnlyWritten(g, env, active, s, s, {}, store, store);
    }
  }

  lemma StepSound(g: Ground, env: Env, s: State, store: Store, op: nat, place: Expr)
    requires Grounded(g) && Covers(g, s, store) && Typed(g.p, store) && EnvCovers(g.p, env, store)
    requires Scoped(g.p, env.Keys, place) && ScanFits(g.p, env, s, place)
    requires ApplyIncDec(g.p, env, s, place).Applied? && RunIncDec(g.p, store, op, place).Some?
    requires ApplyIncDec(g.p, env, s, place).written <= g.free
    ensures var a, after := ApplyIncDec(g.p, env, s, place), RunIncDec(g.p, store, op, place).value;
            && Covers(g, a.state, after) && Typed(g.p, after)
            && (forall o | IsFormal(g.p, o) || o !in a.written :: Load(after, o) == Load(store, o))
  {
    hide TargetOf, PlaceOf, Grounded;
    PlaceSound(g, env, s, store, Place(place));
    var o := PlaceOf(g.p, store, Place(place)).obj;
    assert TargetOf(g.p, env, s, Place(place)) == At(o) && o in ApplyIncDec(g.p, env, s, place).written;
    var after := RunIncDec(g.p, store, op, place).value;
    WriteSound(g, s, store, o, Binding(ObjectDependency(g.p, s, o), None), Load(after, o));
  }

  /** Formals and unwritten objects stay, so the next statement can be run. */
  lemma OnlyWritten(
      g: Ground, env: Env, active: set<nat>, s: State, s': State, written: set<Object>, store: Store, after: Store)
    requires Ready(g, env, active, s, store) && Covers(g, s', after) && Typed(g.p, after)
    requires forall o | IsFormal(g.p, o) || o !in written :: Load(after, o) == Load(store, o)
    ensures Sound(g, active, s', written, store, after) && Ready(g, env, active, s', after)
  {
    hide Covers, Typed, WellFormed, Grounded;
    assert FormalsKept(g.p, active, store, after) by {
      forall f, o | f in active && o in Params(g.p, f) ensures Load(after, o) == Load(store, o) {
        assert IsFormal(g.p, o);
      }
    }
    EnvSurvives(g.p, env, active, store, after);
  }

  lemma {:induction false} SpecsSound(g: Ground, env: Env, active: set<nat>, s: State, store: Store, specs: seq<Spec>)
    requires Ready(g, env, active, s, store)
    requires forall d | d in specs :: ScopedLhs(g.p, env.Keys, d.names) && ScopedAll(g.p, env.Keys, d.values)
    requires SpecsFit(g.p, env, s, specs)
    requires ApplySpecs(g.p, env, s, specs).Applied? && RunSpecs(g.p, store, specs).Some?
    requires ApplySpecs(g.p, env, s, specs).written <= g.free
    ensures var a, after := ApplySpecs(g.p, env, s, specs), RunSpecs(g.p, store, specs).value;
            Sound(g, active, a.state, a.written, store, after) && Ready(g, env, active, a.state, after)
    decreases |specs|
  {
    hide ApplyAssignment, RunAssign, WellFormed, Grounded, Covers, EnvCovers, EnvOwned, ScopedLhs, ScopedAll, Typed;
    hide PlacesFit, AllFit;
    if specs == [] {
      OnlyWritten(g, env, active, s, s, {}, store, store);
    } else {
      var d := specs[0];
      assert d in specs;
      AssignmentSound(g, env, s, store, Plain, d.names, d.values);
      var a, mid := ApplyAssignment(g.p, env, s, Plain, d.names, d.values),
        RunAssign(g.p, store, Plain, d.names, d.values).value;
      OnlyWritten(g, env, active, s, a.state, a.written, store, mid);
      SpecsSound(g, env, active, a.state, mid, specs[1..]);
      var rest, end := ApplySpecs(g.p, env, a.state, specs[1..]), RunSpecs(g.p, mid, specs[1..]).value;
      SoundCompose(g, active, a.state, rest.state, a.written, rest.written, store, mid, end);
    }
  }

  lemma EnvSurvives(p: Program, env: Env, active: set<nat>, before: Store, after: Store)
    requires EnvCovers(p, env, before) && EnvOwned(p, env, active) && FormalsKept(p, active, before, after)
    ensures EnvCovers(p, env, after)
  {
    forall o | o in env ensures BindingCovers(Load(after, o), env[o]) {
      var f :| f in active && o in Params(p, f);
    }
  }

  lemma SoundStay(g: Ground, env: Env, active: set<nat>, s: State, store: Store)
    requires Ready(g, env, active, s, store)
    ensures Sound(g, active, s, {}, store, store)
  {
  }

  lemma SoundSameKey(
      g: Ground, active: set<nat>, s: State, s': State, w: set<Object>, w': set<Object>, before: Store, after: Store)
    requires Sound(g, active, s, w, before, after) && Key(s) == Key(s') && w <= w'
    ensures Sound(g, active, s', w', before, after)
  {
    SameKeyCovers(g, s, s', after);
  }

  lemma SoundReady(
      g: Ground, env: Env, active: set<nat>, s: State, s': State, w: set<Object>, before: Store, after: Store)
    requires Ready(g, env, active, s, before) && Sound(g, active, s', w, before, after)
    ensures Ready(g, env, active, s', after)
  {
    EnvSurvives(g.p, env, active, before, after);
  }

  lemma SoundCompose(
      g: Ground, active: set<nat>, mid: State, s: State, w: set<Object>, w': set<Object>, a: Store, b: Store, c: Store)
    requires Sound(g, active, mid, w, a, b) && Sound(g, active, s, w', b, c)
    ensures Sound(g, active, s, w + w', a, c)
  {
  }

  // ----- joins -----

  lemma LeqRetargets(g: Ground, a: State, b: State)
    requires Leq(a, b) && Retargets(Tracked(g.start), Tracked(a), g.free)
    ensures Retargets(Tracked(g.start), Tracked(b), g.free)
  {
    forall o: Object ensures o in Tracked(a) ==> o in Tracked(b) {
      assert AliasLeq(a, b, o);
    }
    forall o | o in Tracked(b) && o !in g.free && Tracked(b)[o].known
      ensures o in Tracked(g.start) && Tracked(g.start)[o].known && Tracked(g.start)[o].targets <= Tracked(b)[o].targets
    {
      assert AliasLeq(a, b, o);
    }
  }

  lemma LeqKeepsCover(g: Ground, a: State, b: State, store: Store)
    requires Leq(a, b) && Covers(g, a, store)
    ensures Covers(g, b, store)
  {
    hide Resolve, ResolveObject;
    LeqRetargets(g, a, b);
    forall o: Object | !IsFormal(g.p, o)
      ensures CellCovered(Load(store, o), ObjectDependency(g.p, b, o))
      ensures PointerCovered(Load(store, o), Described(g, b, o))
    {
      assert StrideLeq(Stride(a, o), Stride(b, o)) && AliasLeq(a, b, o);
    }
  }

  lemma UnionCovers(g: Ground, states: seq<State>, s: State, store: Store)
    requires s in states && Covers(g, s, store)
    ensures Covers(g, Union(states), store)
  {
    UnionIsUpperBound(states, s);
    LeqKeepsCover(g, s, Union(states), store);
  }

  lemma SameKeyCovers(g: Ground, a: State, b: State, store: Store)
    requires Key(a) == Key(b) && Covers(g, a, store)
    ensures Covers(g, b, store)
  {
    hide Resolve, ResolveObject;
    forall o: Object
      ensures ObjectDependency(g.p, a, o) == ObjectDependency(g.p, b, o) && Described(g, a, o) == Described(g, b, o)
    {
    }
  }

  lemma ReadyUnion(g: Ground, env: Env, active: set<nat>, current: State, states: seq<State>, s: State, store: Store)
    requires Ready(g, env, active, current, store) && s in states
    requires Covers(g, s, store) || s == current
    ensures Ready(g, env, active, Union(states), store)
  {
    hide Covers, Typed, EnvCovers, EnvOwned, WellFormed, Grounded, Union;
    UnionCovers(g, states, s, store);
  }

  // ----- control -----

  /** A list at the end of a body returns nothing, unless results are dropped. */
  ghost predicate ReturnsFit(p: Program, spot: Spot, out: Outcome)
  {
    out.Returned? ==> spot != Inside && (spot == Tail ==> out.values == [] || Lossy(p))
  }

  lemma BlockSound(
      g: Ground, body: seq<Stmt>, spot: Spot, env: Env, s: State, active: set<nat>, budget: nat,
      steps: seq<Path>, store: Store)
    requires Ready(g, env, active, s, store) && ScopedBody(g.p, env.Keys, body, spot)
    requires var r := TransferBlock(g.p, body, env, s, active, budget);
             r.Done? && r.written <= g.free && r.fits && (r.settled || AllAtMost(steps, LOOP_ROUNDS))
    ensures Matches(g, active, TransferBlock(g.p, body, env, s, active, budget), store,
            RunBlock(g.p, body, steps, store))
    ensures ReturnsFit(g.p, spot, RunBlock(g.p, body, steps, store))
    decreases steps, 0, 0
  {
    hide Covers, Typed, EnvCovers, EnvOwned, WellFormed, Grounded, FormalsKept, Touches, TransferStmt, RunStmt,
      ScopedStmt;
    hide EndOf;
    SoundStay(g, env, active, s, store);
    if body != [] && steps != [] {
      StmtSound(g, body[0], spot, |body| == 1, env, s, active, budget - 1, steps[0], store);
      var first := TransferStmt(g.p, body[0], |body| == 1, env, s, active, budget - 1);
      match RunStmt(g.p, body[0], steps[0], store)
      case Next(after) =>
        SoundReady(g, env, active, s, first.state, first.written, store, after);
        BlockSound(g, body[1..], spot, env, first.state, active, first.budget, steps[1..], after);
        var rest := TransferBlock(g.p, body[1..], env, first.state, active, first.budget);
        StatementsCompose(g, active, first, rest, store, after, RunBlock(g.p, body[1..], steps[1..], after));
      case Returned(_, _) =>
        assert body[1..] == [];
        assert first.returned + [] == first.returned && first.written + {} == first.written;
      case Stuck =>
    }
  }

  lemma StatementsCompose(
      g: Ground, active: set<nat>, first: Result, rest: Result, before: Store, mid: Store, out: Outcome)
    requires first.Done? && rest.Done? && Matches(g, active, first, before, Next(mid))
             && Matches(g, active, rest, mid, out)
    ensures Matches(g, active, Extend(first, rest), before, out)
  {
    hide Covers, Typed, FormalsKept, Touches;
    if !out.Stuck? {
      SoundCompose(g, active, first.state, rest.state, first.written, rest.written, before, mid, out.store);
    }
  }

  lemma StmtSound(
      g: Ground, stmt: Stmt, spot: Spot, last: bool, env: Env, s: State, active: set<nat>, budget: nat,
      path: Path, store: Store)
    requires Ready(g, env, active, s, store) && ScopedStmt(g.p, env.Keys, stmt, spot, last)
    requires var r := TransferStmt(g.p, stmt, last, env, s, active, budget);
             r.Done? && r.written <= g.free && r.fits && (r.settled || AtMost(path, LOOP_ROUNDS))
    ensures Matches(g, active, TransferStmt(g.p, stmt, last, env, s, active, budget), store,
            RunStmt(g.p, stmt, path, store))
    ensures RunStmt(g.p, stmt, path, store).Returned? ==> last
    ensures ReturnsFit(g.p, spot, RunStmt(g.p, stmt, path, store))
    decreases path, 2, 0
  {
    hide Covers, Typed, EnvCovers, EnvOwned, WellFormed, Grounded, FormalsKept, Touches, TransferBlock, RunBlock;
    hide TransferCall, RunCall, TransferResults, RunResults, ApplyHeader, RunHeader, ScopedBody;
    match stmt
    case Assign(_, _, _) => HeaderStmtSound(g, stmt, spot, last, env, s, active, store);
    case IncDec(_, _) => HeaderStmtSound(g, stmt, spot, last, env, s, active, store);
    case Declare(_) => HeaderStmtSound(g, stmt, spot, last, env, s, active, store);
    case Print(_) => SoundStay(g, env, active, s, store);
    case CallStmt(call) => CallSound(g, call, env, s, active, budget, path, store);
    case Block(body) =>
      if path.Nested? { BlockSound(g, body, EndOf(spot, last), env, s, active, budget, path.steps, store); }
    case For(init, cond, post, body) => LoopSound(g, stmt, spot, last, env, s, active, budget, path, store);
    case Return(results) =>
      if path.Results? && |path.parts| == |results| {
        ResultsSound(g, results, env, s, active, budget, path.parts, store);
        if results == [] { NoResults(g.p, path.parts, store); }
      }
    case Empty => SoundStay(g, env, active, s, store);
    case Unsupported =>
  }

  lemma NoResults(p: Program, parts: seq<Path>, store: Store)
    requires parts == []
    ensures RunResults(p, [], parts, store) == Returned(store, [])
  {
  }

  lemma HeaderStmtSound(
      g: Ground, stmt: Stmt, spot: Spot, last: bool, env: Env, s: State, active: set<nat>, store: Store)
    requires Ready(g, env, active, s, store) && ScopedStmt(g.p, env.Keys, stmt, spot, last)
    requires ApplyHeader(g.p, env, s, Some(stmt)).Applied? && ApplyHeader(g.p, env, s, Some(stmt)).written <= g.free
    requires HeaderFits(g.p, env, s, Some(stmt))
    ensures forall budget, fits ::
              Matches(g, active, FromApplied(ApplyHeader(g.p, env, s, Some(stmt)), budget, fits), store,
                      NextOrStuck(RunHeader(g.p, store, Some(stmt))))
  {
    hide Covers, Typed, EnvCovers, EnvOwned, WellFormed, Grounded, FormalsKept, Touches, ApplyHeader, RunHeader,
      ScopedStmt;
    if RunHeader(g.p, store, Some(stmt)).Some? { HeaderSound(g, env, active, s, store, Some(stmt), spot, last); }
  }

  lemma LoopSound(
      g: Ground, loop: Stmt, spot: Spot, last: bool, env: Env, s: State, active: set<nat>, budget: nat,
      path: Path, store: Store)
    requires loop.For? && Ready(g, env, active, s, store) && ScopedStmt(g.p, env.Keys, loop, spot, last)
    requires var r := TransferStmt(g.p, loop, last, env, s, active, budget);
             r.Done? && r.written <= g.free && r.fits && (r.settled || AtMost(path, LOOP_ROUNDS))
    ensures Matches(g, active, TransferStmt(g.p, loop, last, env, s, active, budget), store,
            RunStmt(g.p, loop, path, store))
    ensures RunStmt(g.p, loop, path, store).Returned? ==> last
    ensures ReturnsFit(g.p, spot, RunStmt(g.p, loop, path, store))
    decreases path, 1, 0
  {
    hide Covers, Typed, EnvCovers, EnvOwned, WellFormed, Grounded, FormalsKept, Touches, TransferRounds, ScopedBody;
    hide ApplyHeader, RunHeader, RunRounds, Sound, Ready, Reached, Full;
    var For(init, cond, post, body) := loop;
    if RunStmt(g.p, loop, path, store).Stuck? { return; }
    HeaderSound(g, env, active, s, store, init, Inside, false);
    var a, entered := ApplyHeader(g.p, env, s, init), RunHeader(g.p, store, init).value;
    if cond.Some? && cond.value.constant == Some(false) {
      NoRounds(g.p, body, post, path.rounds, entered);
      return;
    }
    var inner := if post.None? then EndOf(spot, last) else Inside;
    ReachedRuns(g.p, body, post, path.rounds, entered);
    var reached := path.rounds[..Reached(g.p, body, post, path.rounds, entered)];
    if |reached| == |path.rounds| { assert reached == path.rounds; }
    RoundsSound(g, post, body, inner, env, a.state, a.state, a.written, active, budget, LOOP_ROUNDS, reached, entered);
    var r := TransferRounds(g.p, post, body, env, a.state, a.state, a.written, active, budget, LOOP_ROUNDS);
    var end := RunRounds(g.p, body, post, path.rounds, entered);
    SoundWiden(g, active, a.state, r.state, a.written, r.written, store, entered, end.store);
  }

  lemma NoRounds(p: Program, body: seq<Stmt>, post: Option<Stmt>, rounds: seq<Path>, store: Store)
    requires rounds == []
    ensures RunRounds(p, body, post, rounds, store) == Next(store)
  {
  }

  /** Every round is reached: a return can only be in the last one. */
  predicate Full(p: Program, body: seq<Stmt>, post: Option<Stmt>, rounds: seq<Path>, store: Store) {
    rounds == [] ||
    match RunRound(p, body, post, rounds[0], store)
    case Next(s) => Full(p, body, post, rounds[1..], s)
    case _ => |rounds| == 1
  }

  /** How many rounds are reached. */
  function Reached(p: Program, body: seq<Stmt>, post: Option<Stmt>, rounds: seq<Path>, store: Store): (n: nat)
    ensures n <= |rounds|
  {
    if rounds == [] then 0
    else match RunRound(p, body, post, rounds[0], store)
      case Next(s) => 1 + Reached(p, body, post, rounds[1..], s)
      case _ => 1
  }

  lemma {:induction false} ReachedRuns(p: Program, body: seq<Stmt>, post: Option<Stmt>, rounds: seq<Path>, store: Store)
    ensures var reached := rounds[..Reached(p, body, post, rounds, store)];
            && RunRounds(p, body, post, reached, store) == RunRounds(p, body, post, rounds, store)
            && Full(p, body, post, reached, store)
            && (AllAtMost(rounds, LOOP_ROUNDS) ==> AllAtMost(reached, LOOP_ROUNDS))
    decreases |rounds|
  {
    hide RunRound, AtMost;
    var n := Reached(p, body, post, rounds, store);
    var reached := rounds[..n];
    if rounds != [] {
      assert reached[0] == rounds[0];
      match RunRound(p, body, post, rounds[0], store)
      case Next(s) =>
        ReachedRuns(p, body, post, rounds[1..], s);
        assert reached[1..] == rounds[1..][..n - 1];
      case _ => assert reached[1..] == [];
    }
  }

  /** What a round leaves, in the state and in the store; a return may only end it without a post statement. */
  ghost predicate RoundMatches(
      g: Ground, active: set<nat>, spot: Spot, s: State, written: set<Object>, store: Store, out: Outcome)
  {
    && (!out.Stuck? ==> Sound(g, active, s, written, store, out.store))
    && (out.Returned? ==> spot == Tail && ValuesMatch(g.p, out.values, []))
  }

  lemma RoundSound(
      g: Ground, post: Option<Stmt>, body: seq<Stmt>, spot: Spot, env: Env, head: State, active: set<nat>, budget: nat,
      path: Path, store: Store)
    requires Ready(g, env, active, head, store)
    requires ScopedBody(g.p, env.Keys, body, spot) && spot != Whole && (spot == Tail ==> post.None?)
    requires post.Some? ==> ScopedStmt(g.p, env.Keys, post.value, Inside, false)
    requires var r := TransferRound(g.p, post, body, env, head, active, budget);
             r.Done? && r.written <= g.free && r.fits && (r.settled || AtMost(path, LOOP_ROUNDS))
    ensures var r, out := TransferRound(g.p, post, body, env, head, active, budget),
            RunRound(g.p, body, post, path, store);
            && RoundMatches(g, active, spot, r.state, r.written, store, out)
            && (!out.Stuck? ==> Ready(g, env, active, r.state, out.store))
    decreases path, 2, 0
  {
    hide Covers, Typed, EnvCovers, EnvOwned, WellFormed, Grounded, FormalsKept, Touches, TransferBlock, RunBlock;
    hide ApplyHeader, RunHeader, ScopedStmt, ScopedBody;
    if !path.Nested? { return; }
    BlockSound(g, body, spot, env, head, active, budget, path.steps, store);
    var b := TransferBlock(g.p, body, env, head, active, budget);
    var mid := RunBlock(g.p, body, path.steps, store);
    if !mid.Stuck? {
      SoundReady(g, env, active, head, b.state, b.written, store, mid.store);
      var a := ApplyHeader(g.p, env, b.state, post);
      if mid.Returned? {
        NoPost(g.p, env, b.state);
        assert b.written + {} == b.written;
      } else if RunHeader(g.p, mid.store, post).Some? {
        HeaderSound(g, env, active, b.state, mid.store, post, Inside, false);
        SoundCompose(g, active, b.state, a.state, b.written, a.written, store, mid.store,
          RunHeader(g.p, mid.store, post).value);
      }
    }
  }

  lemma NoPost(p: Program, env: Env, s: State)
    ensures ApplyHeader(p, env, s, None) == Applied(s, {})
  {
  }

  /** A head that a round maps back below itself covers any number of rounds. */
  lemma FixpointSound(
      g: Ground, post: Option<Stmt>, body: seq<Stmt>, spot: Spot, env: Env, entry: State, head: State,
      active: set<nat>, budget: nat, rounds: seq<Path>, store: Store)
    requires Ready(g, env, active, head, store)
    requires ScopedBody(g.p, env.Keys, body, spot) && spot != Whole && (spot == Tail ==> post.None?)
    requires post.Some? ==> ScopedStmt(g.p, env.Keys, post.value, Inside, false)
    requires var r := TransferRound(g.p, post, body, env, head, active, budget);
             && r.Done? && r.written <= g.free && r.fits && (r.settled || AllAtMost(rounds, LOOP_ROUNDS))
             && Key(Union([entry, r.state])) == Key(head)
    ensures var r, out := TransferRound(g.p, post, body, env, head, active, budget),
            RunRounds(g.p, body, post, rounds, store);
            RoundMatches(g, active, spot, head, r.written, store, out)
    decreases rounds, 0, 0
  {
    hide Covers, Typed, EnvCovers, EnvOwned, WellFormed, Grounded, FormalsKept, Touches, TransferRound, RunRound, Union;
    hide ScopedBody, ScopedStmt;
    var r := TransferRound(g.p, post, body, env, head, active, budget);
    SoundStay(g, env, active, head, store);
    if rounds == [] {
      SoundSameKey(g, active, head, head, {}, r.written, store, store);
      return;
    }
    RoundSound(g, post, body, spot, env, head, active, budget, rounds[0], store);
    var mid := RunRound(g.p, body, post, rounds[0], store);
    if !mid.Stuck? {
      UnionCovers(g, [entry, r.state], r.state, mid.store);
      SameKeyCovers(g, Union([entry, r.state]), head, mid.store);
      var rest := if mid.Next? then rounds[1..] else rounds[|rounds|..];
      FixpointSound(g, post, body, spot, env, entry, head, active, budget, rest, mid.store);
      var end := RunRounds(g.p, body, post, rest, mid.store);
      if !end.Stuck? { SoundWiden(g, active, r.state, head, r.written, r.written, store, mid.store, end.store); }
    }
  }

  /**
   Loop coverage. A settled result covers every number of rounds; an unsettled
   one covers every run with at most as many rounds as were tried.
   */
  lemma RoundsSound(
      g: Ground, post: Option<Stmt>, body: seq<Stmt>, spot: Spot, env: Env, entry: State, head: State,
      written: set<Object>, active: set<nat>, budget: nat, tries: nat, rounds: seq<Path>, store: Store)
    requires Ready(g, env, active, head, store)
    requires ScopedBody(g.p, env.Keys, body, spot) && spot != Whole && (spot == Tail ==> post.None?)
    requires post.Some? ==> ScopedStmt(g.p, env.Keys, post.value, Inside, false)
    requires var r := TransferRounds(g.p, post, body, env, entry, head, written, active, budget, tries);
             && r.Done? && r.written <= g.free && r.fits
             && (r.settled || (AllAtMost(rounds, LOOP_ROUNDS) && |rounds| <= tries))
             && Full(g.p, body, post, rounds, store)
             && (r.settled || |rounds| < tries ==> Ready(g, env, active, entry, store))
    ensures var r := TransferRounds(g.p, post, body, env, entry, head, written, active, budget, tries);
            RoundMatches(g, active, spot, r.state, r.written, store, RunRounds(g.p, body, post, rounds, store))
    decreases rounds, 1, tries
  {
    hide Covers, Typed, EnvCovers, EnvOwned, WellFormed, Grounded, FormalsKept, Touches, TransferRound, RunRound, Union;
    hide ScopedBody, ScopedStmt, Sound, Ready, TransferRounds, RunRounds, Full;
    RoundsUnfold(g.p, post, body, env, entry, head, written, active, budget, tries);
    RunsUnfold(g.p, body, post, rounds, store);
    var final := TransferRounds(g.p, post, body, env, entry, head, written, active, budget, tries);
    var out := RunRounds(g.p, body, post, rounds, store);
    if tries == 0 {
      SoundStay(g, env, active, head, store);
      SoundSameKey(g, active, head, head, {}, written, store, store);
      return;
    }
    var r := TransferRound(g.p, post, body, env, head, active, budget);
    var merged := Union([entry, r.state]);
    if Key(merged) == Key(head) {
      FixpointSound(g, post, body, spot, env, entry, head, active, budget, rounds, store);
      if !out.Stuck? { SoundSameKey(g, active, head, merged, r.written, final.written, store, out.store); }
    } else if final.settled || |rounds| < tries {
      ReadyUnion(g, env, active, entry, [entry, r.state], entry, store);
      RoundsSound(g, post, body, spot, env, entry, merged, written + r.written, active, r.budget, tries - 1, rounds,
        store);
    } else {
      RoundSound(g, post, body, spot, env, head, active, budget, rounds[0], store);
      var mid := RunRound(g.p, body, post, rounds[0], store);
      if !mid.Stuck? {
        var rest := if mid.Next? then rounds[1..] else rounds[|rounds|..];
        RunsUnfold(g.p, body, post, rest, mid.store);
        ReadyUnion(g, env, active, r.state, [entry, r.state], r.state, mid.store);
        RoundsSound(g, post, body, spot, env, entry, merged, written + r.written, active, r.budget, tries - 1, rest,
          mid.store);
        var end := RunRounds(g.p, body, post, rest, mid.store);
        if !end.Stuck? {
          SoundWiden(g, active, r.state, final.state, r.written, final.written, store, mid.store, end.store);
        }
      }
    }
  }

  lemma RoundsUnfold(
      p: Program, post: Option<Stmt>, body: seq<Stmt>, env: Env, entry: State, head: State, written: set<Object>,
      active: set<nat>, budget: nat, tries: nat)
    ensures var final := TransferRounds(p, post, body, env, entry, head, written, active, budget, tries);
            if tries == 0 then final == Done(head, written, [], budget, false, true)
            else
              var r := TransferRound(p, post, body, env, head, active, budget);
              if r.Fail? then final.Fail?
              else
                var merged := Union([entry, r.state]);
                if Key(merged) == Key(head)
                then final == Done(merged, written + r.written, [], r.budget, r.settled, r.fits)
                else
                  var rest := TransferRounds(p, post, body, env, entry, merged, written + r.written, active, r.budget,
                                             tries - 1);
                  && final == Given(r.fits || (rest.Done? && rest.settled), rest)
                  && (final.Done? ==> written + r.written <= final.written)
  {
  }

  lemma RunsUnfold(p: Program, body: seq<Stmt>, post: Option<Stmt>, rounds: seq<Path>, store: Store)
    ensures var out, full := RunRounds(p, body, post, rounds, store), Full(p, body, post, rounds, store);
            if rounds == [] then out == Next(store) && full
            else
              var mid := RunRound(p, body, post, rounds[0], store);
              if mid.Next? then
                out == RunRounds(p, body, post, rounds[1..], mid.store)
                  && full == Full(p, body, post, rounds[1..], mid.store)
              else out == mid && full == (|rounds| == 1)
  {
  }

  lemma SoundWiden(
      g: Ground, active: set<nat>, mid: State, s: State, w: set<Object>, all: set<Object>, a: Store, b: Store, c: Store)
    requires Sound(g, active, mid, w, a, b) && Sound(g, active, s, all, b, c) && w <= all
    ensures Sound(g, active, s, all, a, c)
  {
    SoundCompose(g, active, mid, s, w, all, a, b, c);
    assert w + all == all;
  }

  // ----- calls -----

  lemma {:induction false} BindParamsLoads(store: Store, params: seq<Object>, cells: seq<Cell>)
    requires |params| == |cells| && forall i, j | 0 <= i < j < |params| :: params[i] != params[j]
    ensures forall i | 0 <= i < |params| :: Load(BindParams(store, params, cells), params[i]) == cells[i]
    ensures forall o: Object | o !in params :: Load(BindParams(store, params, cells), o) == Load(store, o)
    decreases params
  {
    if params != [] {
      var store' := store[params[0] := cells[0]];
      BindParamsLoads(store', params[1..], cells[1..]);
      assert params[0] !in params[1..];
      forall i | 0 <= i < |params| ensures Load(BindParams(store, params, cells), params[i]) == cells[i] {
        if i > 0 { assert params[i] == params[1..][i - 1]; }
      }
    }
  }

  lemma {:induction false} BindEnvLookup(params: seq<Object>, bindings: seq<Binding>)
    requires |params| == |bindings| && forall i, j | 0 <= i < j < |params| :: params[i] != params[j]
    ensures BindEnv(params, bindings).Keys == set o | o in params
    ensures forall i | 0 <= i < |params| ::
              params[i] in BindEnv(params, bindings) && BindEnv(params, bindings)[params[i]] == bindings[i]
    decreases params
  {
    if params != [] {
      BindEnvLookup(params[1..], bindings[1..]);
      assert params[0] !in params[1..];
      forall i | 0 <= i < |params|
        ensures params[i] in BindEnv(params, bindings) && BindEnv(params, bindings)[params[i]] == bindings[i]
      {
        if i > 0 { assert params[i] == params[1..][i - 1]; }
      }
    }
  }

  /** What the formals of a body receive. */
  lemma FormalsReceive(g: Ground, env: Env, s: State, store: Store, args: seq<Expr>, params: seq<Object>)
    requires Grounded(g) && Covers(g, s, store) && Typed(g.p, store) && EnvCovers(g.p, env, store)
             && ScopedAll(g.p, env.Keys, args) && AllFit(g.p, env, s, args)
    requires EvalAll(g.p, store, args).Some? && |args| == |params|
    requires forall i, j | 0 <= i < j < |params| :: params[i] != params[j]
    ensures var cells := EvalAll(g.p, store, args).value;
            var inside, entered := BindEnv(params, Snapshots(g.p, env, s, args)), BindParams(store, params, cells);
            && (forall i | 0 <= i < |params| ::
                  && params[i] in inside && BindingCovers(Load(entered, params[i]), inside[params[i]])
                  && PointsWell(g.p, cells[i], Depth(g.p, args[i])) && Load(entered, params[i]) == cells[i])
            && (forall o: Object | o !in params :: Load(entered, o) == Load(store, o))
            && inside.Keys == set o | o in params
  {
    hide Covers, Typed, EnvCovers, Scoped, Snapshot;
    var bindings, cells := Snapshots(g.p, env, s, args), EvalAll(g.p, store, args).value;
    BindParamsLoads(store, params, cells);
    BindEnvLookup(params, bindings);
    forall i | 0 <= i < |params|
      ensures BindingCovers(cells[i], bindings[i]) && PointsWell(g.p, cells[i], Depth(g.p, args[i]))
    {
      assert args[i] in args;
      SnapshotSound(g, env, s, store, args[i]);
    }
  }

  /** Binding the parameters makes the callee's body ready to run. */
  lemma EnterReady(g: Ground, env: Env, active: set<nat>, s: State, store: Store, args: seq<Expr>, k: nat)
    requires Ready(g, env, active, s, store) && ScopedAll(g.p, env.Keys, args) && AllFit(g.p, env, s, args)
    requires k < |g.p.functions| && k !in active
    requires EvalAll(g.p, store, args).Some? && |args| == |g.p.functions[k].params|
    requires forall i | 0 <= i < |args| :: Fits(g.p, g.p.functions[k].params[i], EvalAll(g.p, store, args).value[i])
    ensures var f := g.p.functions[k];
            var inside := BindEnv(f.params, Snapshots(g.p, env, s, args));
            var entered := BindParams(store, f.params, EvalAll(g.p, store, args).value);
            && Ready(g, inside, active + {k}, s, entered) && ScopedBody(g.p, inside.Keys, f.body, Whole)
            && FormalsKept(g.p, active, store, entered) && Touches(g.p, store, entered, {})
  {
    hide ScopedBody, ScopedStmt, Scoped, Eval, ExprDependency, PointerTargets, Depth, Snapshots, BindEnv, BindParams;
    hide WellFormed, Covers, FormalsKept, Touches, PointsWell, BindingCovers;
    var f := g.p.functions[k];
    EnteredBody(g.p, k);
    var cells := EvalAll(g.p, store, args).value;
    var inside, entered := BindEnv(f.params, Snapshots(g.p, env, s, args)), BindParams(store, f.params, cells);
    FormalsReceive(g, env, s, store, args, f.params);
    assert inside.Keys == Params(g.p, k);
    OthersKept(g, s, store, entered, k);
    forall o: Object ensures PointsWell(g.p, Load(entered, o), g.p.depth(o)) {
      if o in f.params {
        var i :| 0 <= i < |f.params| && f.params[i] == o;
        FitsWell(g.p, f.params[i], cells[i], Depth(g.p, args[i]));
      }
    }
    assert EnvCovers(g.p, inside, entered) by {
      hide Typed;
      forall o | o in inside ensures IsFormal(g.p, o) && BindingCovers(Load(entered, o), inside[o]) {
        var i :| 0 <= i < |f.params| && f.params[i] == o;
      }
    }
    KeptFormals(g.p, active, store, entered, k);
  }

  lemma EnteredBody(p: Program, k: nat)
    requires WellFormed(p) && k < |p.functions|
    ensures ScopedBody(p, Params(p, k), p.functions[k].body, Whole)
    ensures forall i, j | 0 <= i < j < |p.functions[k].params| :: p.functions[k].params[i] != p.functions[k].params[j]
  {
  }

  lemma FitsWell(p: Program, o: Object, c: Cell, level: int)
    requires Fits(p, o, c) && PointsWell(p, c, level)
    ensures PointsWell(p, c, p.depth(o))
  {
  }

  /** Cells that are no formal of the entered body stay as they are. */
  lemma OthersKept(g: Ground, s: State, store: Store, entered: Store, k: nat)
    requires k < |g.p.functions| && Covers(g, s, store)
    requires forall o: Object | o !in g.p.functions[k].params :: Load(entered, o) == Load(store, o)
    ensures Covers(g, s, entered) && Touches(g.p, store, entered, {})
  {
    forall o: Object | !IsFormal(g.p, o) ensures Load(entered, o) == Load(store, o) {
      assert o !in g.p.functions[k].params;
    }
  }

  lemma KeptFormals(p: Program, active: set<nat>, store: Store, entered: Store, k: nat)
    requires WellFormed(p) && k < |p.functions| && k !in active && forall f | f in active :: f < |p.functions|
    requires forall o: Object | o !in p.functions[k].params :: Load(entered, o) == Load(store, o)
    ensures FormalsKept(p, active, store, entered)
  {
    hide ScopedBody;
    forall g, o | g in active && o in Params(p, g) ensures Load(entered, o) == Load(store, o) {
      assert Params(p, g) !! Params(p, k);
      assert o !in Params(p, k);
    }
  }

  lemma {:induction false} CalleeFound(
      p: Program, callees: seq<nat>, bindings: seq<Binding>, s: State, active: set<nat>, budget: nat, k: nat)
    returns (i: nat, b: nat)
    requires k in callees && TransferCallees(p, callees, bindings, s, active, budget).CalleesDone?
    ensures var r := TransferCallees(p, callees, bindings, s, active, budget);
            && k < |p.functions| && k !in active && i < |callees|
            && var one := TransferBlock(p, p.functions[k].body, BindEnv(p.functions[k].params, bindings), s,
               active + {k}, b);
               one.Done? && r.outputs[i] == one.state && r.returnSets[i] == one.returned
               && one.written <= r.written && (r.settled ==> one.settled) && (r.fits ==> one.fits)
    decreases |callees|
  {
    var head := callees[0];
    var first := TransferBlock(p, p.functions[head].body, BindEnv(p.functions[head].params, bindings), s,
      active + {head}, budget);
    if head == k {
      i, b := 0, budget;
    } else {
      i, b := CalleeFound(p, callees[1..], bindings, s, active, first.budget, k);
      i := i + 1;
    }
  }

  lemma MergeCovers(sets: seq<seq<Binding>>, i: nat, values: seq<Cell>)
    requires i < |sets| && MergeReturns(sets).Some? && ValuesCovered(values, sets[i])
    ensures ValuesCovered(values, MergeReturns(sets).value)
  {
    var merged := MergeReturns(sets).value;
    assert sets[i] in sets;
    forall j | 0 <= j < |values| ensures BindingCovers(values[j], merged[j]) {
      var row := seq(|sets|, k requires 0 <= k < |sets| && SameArity(sets, |sets[0]|) => sets[k][j]);
      assert merged[j] == MergeBindings(row);
      assert row[i] == sets[i][j] && row[i] in row && row[0] in row;
    }
  }

  lemma NoValues(p: Program)
    ensures ValuesMatch(p, [], [])
  {
  }

  lemma MergeMatches(p: Program, sets: seq<seq<Binding>>, i: nat, values: seq<Cell>)
    requires i < |sets| && MergeReturns(sets).Some? && ValuesMatch(p, values, sets[i])
    ensures ValuesMatch(p, values, MergeReturns(sets).value)
  {
    hide Lossy, ValuesCovered;
    assert sets[i] in sets;
    if |sets[i]| == |values| || !Lossy(p) { MergeCovers(sets, i, values); }
  }

  lemma CallSound(g: Ground, call: Call, env: Env, s: State, active: set<nat>, budget: nat, path: Path, store: Store)
    requires Ready(g, env, active, s, store) && ScopedAll(g.p, env.Keys, call.args)
    requires var r := TransferCall(g.p, call, env, s, active, budget);
             r.Done? && r.written <= g.free && r.fits && (r.settled || AtMost(path, LOOP_ROUNDS))
    ensures Matches(g, active, TransferCall(g.p, call, env, s, active, budget), store, RunCall(g.p, call, path, store))
    decreases path, 1, 0
  {
    hide ScopedBody, ScopedStmt, Scoped, TransferBlock, RunBlock, MergeReturns, Union, Covers, Typed, EnvCovers,
      EnvOwned, WellFormed, ValuesMatch, ScanFits;
    if RunCall(g.p, call, path, store).Stuck? { return; }
    var k := path.callee;
    var f, bindings := g.p.functions[k], Snapshots(g.p, env, s, call.args);
    var all := TransferCallees(g.p, call.callees, bindings, s, active, budget - 1);
    var i, b := CalleeFound(g.p, call.callees, bindings, s, active, budget - 1, k);
    EnterReady(g, env, active, s, store, call.args, k);
    var inside := BindEnv(f.params, bindings);
    var entered := BindParams(store, f.params, EvalAll(g.p, store, call.args).value);
    BlockSound(g, f.body, Whole, inside, s, active + {k}, b, path.steps, entered);
    var one := TransferBlock(g.p, f.body, inside, s, active + {k}, b);
    var out := RunBlock(g.p, f.body, path.steps, entered);
    if out.Next? { assert ValuesMatch(g.p, [], one.returned) by { NoValues(g.p); } }
    UnionCovers(g, all.outputs, one.state, out.store);
    MergeMatches(g.p, all.returnSets, i, if out.Next? then [] else out.values);
    assert FormalsKept(g.p, active, entered, out.store);
    assert Sound(g, active, Union(all.outputs), all.written, store, out.store);
  }

  lemma OperandSound(
      g: Ground, operand: Operand, env: Env, s: State, active: set<nat>, budget: nat, part: Path, store: Store)
    requires Ready(g, env, active, s, store)
    requires ScopedAll(g.p, env.Keys, if operand.Value? then [operand.e] else operand.call.args)
    requires var r := TransferOperand(g.p, operand, env, s, active, budget);
             r.Done? && r.written <= g.free && r.fits && (r.settled || AtMost(part, LOOP_ROUNDS))
    requires RunOperand(g.p, operand, part, store).Returned?
    ensures Matches(g, active, TransferOperand(g.p, operand, env, s, active, budget), store,
            RunOperand(g.p, operand, part, store))
    decreases part, 2, 0
  {
    hide TransferCall, RunCall, WellFormed, Lossy, ScanFits, Scoped, Anchored, Retargets;
    match operand
    case Value(e) =>
      assert e in [e];
      SnapshotSound(g, env, s, store, e);
    case CallResult(call) => CallSound(g, call, env, s, active, budget, part, store);
  }

  lemma {:induction false} ValuesCompose(
      p: Program, a: seq<Cell>, b: seq<Cell>, first: seq<Binding>, rest: seq<Binding>)
    requires ValuesMatch(p, a, first) && ValuesMatch(p, b, rest)
    ensures ValuesMatch(p, a + b, first + rest)
  {
    hide Lossy, BindingCovers;
  }

  lemma ResultsCompose(
      g: Ground, active: set<nat>, first: Result, rest: Result, before: Store, mid: Outcome, end: Outcome)
    requires first.Done? && rest.Done? && mid.Returned? && end.Returned?
    requires Matches(g, active, first, before, mid) && Matches(g, active, rest, mid.store, end)
    ensures Matches(g, active, Extend(first, rest), before, Returned(end.store, mid.values + end.values))
  {
    SoundCompose(g, active, first.state, rest.state, first.written, rest.written, before, mid.store, end.store);
    ValuesCompose(g.p, mid.values, end.values, first.returned, rest.returned);
  }

  lemma ResultsSound(
      g: Ground, results: seq<Operand>, env: Env, s: State, active: set<nat>, budget: nat, parts: seq<Path>,
      store: Store)
    requires Ready(g, env, active, s, store) && |results| == |parts|
    requires forall r | r in results :: ScopedAll(g.p, env.Keys, if r.Value? then [r.e] else r.call.args)
    requires var r := TransferResults(g.p, results, env, s, active, budget);
             r.Done? && r.written <= g.free && r.fits && (r.settled || AllAtMost(parts, LOOP_ROUNDS))
    ensures Matches(g, active, TransferResults(g.p, results, env, s, active, budget), store,
            RunResults(g.p, results, parts, store))
    decreases parts, 3, 0
  {
    hide Covers, Typed, EnvCovers, EnvOwned, WellFormed, FormalsKept, Touches, TransferOperand, RunOperand, ScopedAll;
    SoundStay(g, env, active, s, store);
    if results == [] || RunResults(g.p, results, parts, store).Stuck? { return; }
    assert results[0] in results;
    var first, out := TransferOperand(g.p, results[0], env, s, active, budget),
      RunOperand(g.p, results[0], parts[0], store);
    var rest := TransferResults(g.p, results[1..], env, first.state, active, first.budget);
    var end := RunResults(g.p, results[1..], parts[1..], out.store);
    assert Matches(g, active, first, store, out) by {
      OperandSound(g, results[0], env, s, active, budget, parts[0], store);
    }
    assert Matches(g, active, rest, out.store, end) by {
      SoundReady(g, env, active, s, first.state, first.written, store, out.store);
      ResultsSound(g, results[1..], env, first.state, active, first.budget, parts[1..], out.store);
    }
    ResultsCompose(g, active, first, rest, store, out, end);
  }

  /** Whether the analysis may start: the free objects are those the answer says were written. */
  predicate MayStart(p: Program, initial: State, r: Result) {
    r.Done? && Anchored(p, Tracked(initial), r.written + Formals(p))
  }

  lemma StartCovers(p: Program, initial: State, free: set<Object>, store: Store)
    requires CoversNow(p, initial, store)
    ensures var entry := initial.(aliases := Some(Tracked(initial))); Covers(Ground(p, entry, free), entry, store)
  {
    hide Resolve;
    var entry := initial.(aliases := Some(Tracked(initial)));
    forall o: Object ensures ObjectDependency(p, initial, o) == ObjectDependency(p, entry, o) {}
  }

  /** A covering state, read in the empty environment. */
  lemma CoveredNow(g: Ground, s: State, store: Store)
    requires Grounded(g) && Covers(g, s, store)
    ensures CoversNow(g.p, s, store)
  {
    hide Resolve, ResolveObject, Anchored;
    var none: Env := map[];
    assert none.Keys == {};
    forall o: Object | !IsFormal(g.p, o) ensures PointerCovered(Load(store, o), ObjectTargets(g.p, map[], s, o)) {
      StaysDescribed(g, none, s, o);
    }
  }

  /**
   Main theorem. A transfer that answers covers every run of the call: a cell
   that holds loop data after it is in `deps`, one that holds it in stride
   position has a stride key, a known set of pointer targets contains the real
   target, and an object outside `written` is unchanged. The condition is that
   untracked pointers are anchored outside the written objects. Loops that did
   not settle are covered for runs of at most eight rounds.
   */
  lemma OrderedCallSound(p: Program, call: Call, initial: State, path: Path, store: Store)
    requires WellFormed(p) && ScopedAll(p, {}, call.args)
    requires CoversNow(p, initial, store) && Typed(p, store) && MayStart(p, initial, OrderedCall(p, call, initial))
    requires OrderedCall(p, call, initial).settled || AtMost(path, LOOP_ROUNDS)
    requires OrderedCall(p, call, initial).fits
    requires RunCall(p, call, path, store).Returned?
    ensures var r, out := OrderedCall(p, call, initial), RunCall(p, call, path, store);
            && CoversNow(p, r.state, out.store)
            && (forall o: Object | !IsFormal(p, o) && Load(out.store, o).data :: o == p.inner || o in r.state.deps)
            && (forall o: Object | !IsFormal(p, o) && Load(out.store, o).stride ::
               o == p.inner || Stride(r.state, o) != "")
            && (forall o: Object
                  | !IsFormal(p, o) && Load(out.store, o).value.Ref? && ObjectTargets(p, map[], r.state, o).known ::
                  Load(out.store, o).value.target in ObjectTargets(p, map[], r.state, o).targets)
            && Touches(p, store, out.store, r.written)
            && |r.returned| <= |out.values|
            && (|r.returned| == |out.values| || !Lossy(p) ==> ValuesCovered(out.values, r.returned))
  {
    hide Resolve, ResolveObject, Anchored, WellFormed, Typed, TransferCall, RunCall, Retargets, Lossy;
    var entry := initial.(aliases := Some(Tracked(initial)));
    var r, out := OrderedCall(p, call, initial), RunCall(p, call, path, store);
    var g := Ground(p, entry, r.written + Formals(p));
    StartCovers(p, initial, g.free, store);
    var noFormals: Env := map[];
    assert noFormals.Keys == {};
    CallSound(g, call, noFormals, entry, {}, CALL_BUDGET, path, store);
    CoveredNow(g, r.state, out.store);
    forall o: Object | !IsFormal(p, o)
      ensures CellCovered(Load(out.store, o), ObjectDependency(p, r.state, o))
      ensures PointerCovered(Load(out.store, o), ObjectTargets(p, map[], r.state, o))
    {
    }
  }
}
