/**
 The answers of the ordered transfer say no more than is true: whatever an
 expression or an assignment marks, some described store has it marked
 (checks/ps1006.go:1581-1934).

 Such a store is built from a choice of one target for every pointer that is
 looked at. Levels of pointers keep the choices apart.
 */
module Precision {
  import opened AliasResolution
  import opened DependencyState
  import opened GoBodies
  import opened OrderedSoundness
  import opened OrderedTransfer
  import opened Wrappers

  predicate Carried(c: Cell, data: bool) {
    if data then c.data else c.stride
  }

  predicate Flagged(d: Dependency, data: bool) {
    if data then d.derived else d.stride
  }

  /** The state marks the object itself; the loop variable needs no mark. */
  predicate Marked(s: State, o: Object, data: bool) {
    if data then o in s.deps else Stride(s, o) != ""
  }

  // ----- described stores -----

  /** What is known of the pointer o. */
  function KnownOf(p: Program, env: Env, s: State, o: Object): Alias {
    if o !in env then ObjectTargets(p, env, s, o)
    else if env[o].pointer.Some? then env[o].pointer.value
    else UNKNOWN_ALIAS
  }

  ghost predicate DescribedBy(p: Program, env: Env, s: State, store: Store) {
    forall o: Object :: o in env || !IsFormal(p, o) ==>
      && CellCovered(Load(store, o), IdentifierDependency(p, env, s, o))
      && PointerCovered(Load(store, o), KnownOf(p, env, s, o))
  }

  /** Outside all bodies these are the stores a caller has in mind. */
  lemma DescribedIsCoversNow(p: Program, s: State, store: Store)
    ensures DescribedBy(p, map[], s, store) <==> CoversNow(p, s, store)
  {
    hide ObjectTargets, CellCovered, PointerCovered, ObjectDependency;
    forall o: Object
      ensures IdentifierDependency(p, map[], s, o) == ObjectDependency(p, s, o)
      ensures KnownOf(p, map[], s, o) == ObjectTargets(p, map[], s, o)
    {
    }
  }

  predicate Usable(a: Alias) {
    a.known && a.targets != {}
  }

  /** A known pointer has targets, and as Go's type checker sees to, they are one level below it. */
  predicate TargetsFit(p: Program, o: Object, a: Alias) {
    a.known ==> a.targets != {} && forall t | t in a.targets :: p.depth(t) + 1 == p.depth(o) && !IsFormal(p, t)
  }

  ghost predicate WellTargeted(p: Program, env: Env, s: State) {
    && (forall o | o in env :: IsFormal(p, o))
    && forall o: Object :: TargetsFit(p, o, KnownOf(p, env, s, o))
  }

  type Choice = map<Object, Object>

  ghost predicate ChoiceOk(p: Program, env: Env, s: State, c: Choice) {
    forall o | o in c :: KnownOf(p, env, s, o).known && c[o] in KnownOf(p, env, s, o).targets
  }

  predicate Extends(c: Choice, more: Choice) {
    forall o | o in c :: o in more && more[o] == c[o]
  }

  function Filling(p: Program, env: Env, s: State, c: Choice, o: Object): Cell {
    var d := IdentifierDependency(p, env, s, o);
    Cell(if o in c then Ref(c[o]) else Num(0), d.derived, d.stride)
  }

  /** All marks are there, and the chosen pointers point where the choice says. */
  function Filled(p: Program, env: Env, s: State, c: Choice): Store {
    map o | o in s.deps + s.strideDeps.Keys + {p.inner} + env.Keys + c.Keys :: Filling(p, env, s, c, o)
  }

  lemma FilledAt(p: Program, env: Env, s: State, c: Choice, o: Object)
    ensures Load(Filled(p, env, s, c), o) == Filling(p, env, s, c, o)
  {
  }

  lemma FilledIsDescribed(p: Program, env: Env, s: State, c: Choice)
    requires WellTargeted(p, env, s) && ChoiceOk(p, env, s, c)
    ensures DescribedBy(p, env, s, Filled(p, env, s, c)) && Typed(p, Filled(p, env, s, c))
  {
    hide KnownOf, Filled, DescribedBy, Typed;
    ChosenFits(p, env, s, c);
  }

  lemma ChosenFits(p: Program, env: Env, s: State, c: Choice)
    requires ChoiceOk(p, env, s, c) && forall o | o in c :: TargetsFit(p, o, KnownOf(p, env, s, o))
    ensures DescribedBy(p, env, s, Filled(p, env, s, c)) && Typed(p, Filled(p, env, s, c))
  {
    hide IdentifierDependency, KnownOf, Filled;
    var m := Filled(p, env, s, c);
    forall o: Object
      ensures CellCovered(Load(m, o), IdentifierDependency(p, env, s, o))
      ensures PointerCovered(Load(m, o), KnownOf(p, env, s, o)) && PointsWell(p, Load(m, o), p.depth(o))
    {
      FilledAt(p, env, s, c, o);
    }
  }

  /** Further choices leave what evaluates as it is. */
  lemma {:induction false} Grow(p: Program, env: Env, s: State, c: Choice, more: Choice, e: Expr)
    requires Extends(c, more) && Eval(p, Filled(p, env, s, c), e).Some?
    ensures Eval(p, Filled(p, env, s, more), e).Some?
    ensures var a, b := Eval(p, Filled(p, env, s, c), e).value, Eval(p, Filled(p, env, s, more), e).value;
            a.data == b.data && a.stride == b.stride && (a.value.Ref? ==> a.value == b.value)
  {
    hide IdentifierDependency, Filled;
    match e
    case Var(o) => FilledAt(p, env, s, c, o); FilledAt(p, env, s, more, o);
    case Deref(x) =>
      Grow(p, env, s, c, more, x);
      var t := Eval(p, Filled(p, env, s, c), x).value.value.target;
      FilledAt(p, env, s, c, t);
      FilledAt(p, env, s, more, t);
    case Unary(_, x) => Grow(p, env, s, c, more, x);
    case Convert(_, x) => Grow(p, env, s, c, more, x);
    case Binary(_, l, r) => Grow(p, env, s, c, more, l); Grow(p, env, s, c, more, r);
    case Index(x, i) => Grow(p, env, s, c, more, x); Grow(p, env, s, c, more, i);
    case _ =>
  }

  // ----- pointers -----

  /** How a load resolves, step by step. */
  lemma LoadSteps(p: Program, env: Env, s: State, x: Expr)
    requires PointerTargets(p, env, s, Deref(x)).known
    ensures var a, r := PointerTargets(p, env, s, x), PointerTargets(p, env, s, Deref(x));
            && Usable(a) && r.targets != {}
            && (forall o | o in a.targets :: ObjectTargets(p, env, s, o).known)
            && (forall t | t in r.targets :: exists o :: o in a.targets && t in ObjectTargets(p, env, s, o).targets)
            && (forall o | o in a.targets :: ObjectTargets(p, env, s, o).targets <= r.targets)
  {
  }

  /** Every target of a pointer expression is where it points in some described store. */
  lemma {:induction false} Points(p: Program, env: Env, s: State, x: Expr, t: Object) returns (c: Choice)
    requires WellTargeted(p, env, s) && Scoped(p, env.Keys, x)
    requires PointerTargets(p, env, s, x).known && t in PointerTargets(p, env, s, x).targets
    ensures ChoiceOk(p, env, s, c) && !IsFormal(p, t) && forall o | o in c :: p.depth(o) > p.depth(t)
    ensures var v := Eval(p, Filled(p, env, s, c), x); v.Some? && v.value.value == Ref(t)
  {
    hide Resolve, ResolveObject, Filled, ObjectTargets;
    match x
    case AddressOf(o) =>
      AddressResolves(p, env, s, o);
      c := map[];
    case Var(o) =>
      VariableResolves(p, env, s, o);
      c := map[o := t];
      FilledAt(p, env, s, c, o);
    case Deref(y) =>
      LoadSteps(p, env, s, y);
      var o :| o in PointerTargets(p, env, s, y).targets && t in ObjectTargets(p, env, s, o).targets;
      var before := Points(p, env, s, y, o);
      assert KnownOf(p, env, s, o) == ObjectTargets(p, env, s, o);
      c := before[o := t];
      assert Extends(before, c);
      Grow(p, env, s, before, c, y);
      FilledAt(p, env, s, c, o);
    case Convert(op, y) =>
      ConversionResolves(p, env, s, op, y);
      c := Points(p, env, s, y, t);
    case _ => assert false by { NoPointer(p, env, s, x); }
  }

  lemma NoPointer(p: Program, env: Env, s: State, x: Expr)
    requires !x.AddressOf? && !x.Var? && !x.Deref? && !x.Convert?
    ensures PointerTargets(p, env, s, x) == UNKNOWN_ALIAS
  {
  }

  /** The object's choice, or a new one. */
  lemma Chosen(p: Program, env: Env, s: State, c: Choice, o: Object) returns (more: Choice)
    requires ChoiceOk(p, env, s, c) && WellTargeted(p, env, s) && KnownOf(p, env, s, o).known
    ensures ChoiceOk(p, env, s, more) && Extends(c, more) && o in more && !IsFormal(p, more[o])
  {
    hide KnownOf;
    assert TargetsFit(p, o, KnownOf(p, env, s, o));
    if o in c {
      more := c;
    } else {
      var t :| t in KnownOf(p, env, s, o).targets;
      more := c[o := t];
    }
  }

  /** A choice can be extended so that a pointer expression evaluates to one of its targets. */
  lemma {:induction false} PointerEvaluates(p: Program, env: Env, s: State, x: Expr, c: Choice) returns (more: Choice)
    requires WellTargeted(p, env, s) && Scoped(p, env.Keys, x) && ChoiceOk(p, env, s, c)
    requires Usable(PointerTargets(p, env, s, x))
    ensures ChoiceOk(p, env, s, more) && Extends(c, more)
    ensures var v := Eval(p, Filled(p, env, s, more), x);
            && v.Some? && v.value.value.Ref? && v.value.value.target in PointerTargets(p, env, s, x).targets
            && !IsFormal(p, v.value.value.target)
  {
    hide Resolve, ResolveObject, Filled, ObjectTargets;
    match x
    case AddressOf(o) =>
      AddressResolves(p, env, s, o);
      more := c;
    case Var(o) =>
      VariableResolves(p, env, s, o);
      more := Chosen(p, env, s, c, o);
      FilledAt(p, env, s, more, o);
    case Deref(y) =>
      LoadSteps(p, env, s, y);
      var mid := PointerEvaluates(p, env, s, y, c);
      var o := Eval(p, Filled(p, env, s, mid), y).value.value.target;
      assert KnownOf(p, env, s, o) == ObjectTargets(p, env, s, o);
      more := Chosen(p, env, s, mid, o);
      Grow(p, env, s, mid, more, y);
      FilledAt(p, env, s, more, o);
    case Convert(op, y) =>
      ConversionResolves(p, env, s, op, y);
      more := PointerEvaluates(p, env, s, y, c);
    case _ => assert false by { NoPointer(p, env, s, x); }
  }

  /** What a pointer expression starts from, and how often it loads. */
  function Base(x: Expr): (Expr, nat) {
    match x
    case Deref(y) => (Base(y).0, Base(y).1 + 1)
    case Convert(_, y) => Base(y)
    case _ => (x, 0)
  }

  function First(p: Program, env: Env, s: State, base: Expr): Alias {
    match base
    case AddressOf(o) => Alias({o}, true)
    case Var(o) => KnownOf(p, env, s, o)
    case _ => UNKNOWN_ALIAS
  }

  predicate IsLink(p: Program, env: Env, s: State, o: Object, t: Object) {
    ObjectTargets(p, env, s, o).known && t in ObjectTargets(p, env, s, o).targets
  }

  /** Each object may point to the next. */
  predicate IsChain(p: Program, env: Env, s: State, first: Alias, c: seq<Object>) {
    && c != [] && first.known && c[0] in first.targets
    && forall i | 0 < i < |c| :: IsLink(p, env, s, c[i - 1], c[i])
  }

  ghost predicate EndsChain(p: Program, env: Env, s: State, first: Alias, n: nat, t: Object) {
    exists c :: |c| == n + 1 && IsChain(p, env, s, first, c) && c[n] == t
  }

  /** A pointer expression is known exactly when all that is loaded on the way is, and its targets are
      the ends of the chains. */
  lemma {:induction false} ResolvesAlongChains(p: Program, env: Env, s: State, x: Expr)
    requires WellTargeted(p, env, s) && Scoped(p, env.Keys, x)
    ensures var r, first, n := PointerTargets(p, env, s, x), First(p, env, s, Base(x).0), Base(x).1;
            && (r.known <==> first.known && forall c | |c| <= n && IsChain(p, env, s, first, c) ::
                  ObjectTargets(p, env, s, c[|c| - 1]).known)
            && (r.known ==> forall t :: t in r.targets <==> EndsChain(p, env, s, first, n, t))
            && (r.known ==> r.targets != {} && forall t | t in r.targets :: !IsFormal(p, t))
  {
    hide Resolve, ResolveObject, ObjectTargets;
    match x
    case AddressOf(o) =>
      AddressResolves(p, env, s, o);
      forall t ensures t == o <==> EndsChain(p, env, s, Alias({o}, true), 0, t) {
        ShortChain(p, env, s, Alias({o}, true), t);
      }
    case Var(o) =>
      VariableResolves(p, env, s, o);
      var first := KnownOf(p, env, s, o);
      forall t ensures first.known ==> (t in first.targets <==> EndsChain(p, env, s, first, 0, t)) {
        ShortChain(p, env, s, first, t);
      }
    case Deref(y) =>
      ResolvesAlongChains(p, env, s, y);
      DerefAlongChains(p, env, s, y);
    case Convert(op, y) =>
      ConversionResolves(p, env, s, op, y);
      ResolvesAlongChains(p, env, s, y);
    case _ => NoPointer(p, env, s, x);
  }

  lemma ShortChain(p: Program, env: Env, s: State, first: Alias, t: Object)
    ensures first.known ==> (EndsChain(p, env, s, first, 0, t) <==> t in first.targets)
  {
    hide ObjectTargets;
    if first.known && t in first.targets { assert IsChain(p, env, s, first, [t]); }
  }

  lemma DerefAlongChains(p: Program, env: Env, s: State, y: Expr)
    requires WellTargeted(p, env, s)
    requires var a, first, n := PointerTargets(p, env, s, y), First(p, env, s, Base(y).0), Base(y).1;
            && (a.known <==> first.known && forall c | |c| <= n && IsChain(p, env, s, first, c) ::
                  ObjectTargets(p, env, s, c[|c| - 1]).known)
            && (a.known ==> forall t :: t in a.targets <==> EndsChain(p, env, s, first, n, t))
            && (a.known ==> a.targets != {} && forall t | t in a.targets :: !IsFormal(p, t))
    ensures var r, first, n := PointerTargets(p, env, s, Deref(y)), First(p, env, s, Base(y).0), Base(y).1 + 1;
            && (r.known <==> first.known && forall c | |c| <= n && IsChain(p, env, s, first, c) ::
                  ObjectTargets(p, env, s, c[|c| - 1]).known)
            && (r.known ==> forall t :: t in r.targets <==> EndsChain(p, env, s, first, n, t))
            && (r.known ==> r.targets != {} && forall t | t in r.targets :: !IsFormal(p, t))
  {
    hide Resolve, ResolveObject, ObjectTargets;
    var a, r := PointerTargets(p, env, s, y), PointerTargets(p, env, s, Deref(y));
    var first, n := First(p, env, s, Base(y).0), Base(y).1 + 1;
    DerefKnown(p, env, s, y);
    if a.known {
      forall c | |c| == n && IsChain(p, env, s, first, c) ensures c[n - 1] in a.targets {
        assert EndsChain(p, env, s, first, n - 1, c[n - 1]);
      }
      forall o | o in a.targets ensures exists c :: |c| == n && IsChain(p, env, s, first, c) && c[|c| - 1] == o {
        assert EndsChain(p, env, s, first, n - 1, o);
      }
    }
    if r.known {
      LoadSteps(p, env, s, y);
      forall t ensures t in r.targets <==> EndsChain(p, env, s, first, n, t) {
        LongerChain(p, env, s, first, n, a, r, t);
      }
      forall t | t in r.targets ensures !IsFormal(p, t) {
        var o :| o in a.targets && t in ObjectTargets(p, env, s, o).targets;
        assert TargetsFit(p, o, KnownOf(p, env, s, o)) && KnownOf(p, env, s, o) == ObjectTargets(p, env, s, o);
      }
    }
  }

  lemma LongerChain(
      p: Program, env: Env, s: State, first: Alias, n: nat, a: Alias, r: Alias, t: Object)
    requires n > 0 && (forall o | o in a.targets :: ObjectTargets(p, env, s, o).known)
    requires forall o :: o in a.targets <==> EndsChain(p, env, s, first, n - 1, o)
    requires forall t | t in r.targets :: exists o :: o in a.targets && t in ObjectTargets(p, env, s, o).targets
    requires forall o | o in a.targets :: ObjectTargets(p, env, s, o).targets <= r.targets
    ensures t in r.targets <==> EndsChain(p, env, s, first, n, t)
  {
    hide ObjectTargets;
    if t in r.targets {
      var o :| o in a.targets && t in ObjectTargets(p, env, s, o).targets;
      var c :| |c| == n && IsChain(p, env, s, first, c) && c[n - 1] == o;
      assert IsLink(p, env, s, o, t);
      assert IsChain(p, env, s, first, c + [t]);
    }
    if EndsChain(p, env, s, first, n, t) {
      var c :| |c| == n + 1 && IsChain(p, env, s, first, c) && c[n] == t;
      assert IsLink(p, env, s, c[n - 1], c[n]);
      assert IsChain(p, env, s, first, c[..n]) && c[..n][n - 1] == c[n - 1];
      assert EndsChain(p, env, s, first, n - 1, c[n - 1]);
    }
  }

  /** When a load resolves. */
  lemma DerefKnown(p: Program, env: Env, s: State, y: Expr)
    requires WellTargeted(p, env, s)
    requires var a := PointerTargets(p, env, s, y);
             a.known ==> a.targets != {} && forall o | o in a.targets :: !IsFormal(p, o)
    ensures var a := PointerTargets(p, env, s, y);
            PointerTargets(p, env, s, Deref(y)).known <==>
              a.known && forall o | o in a.targets :: ObjectTargets(p, env, s, o).known
  {
    hide ResolveObject;
    var a := PointerTargets(p, env, s, y);
    if a.known && forall o | o in a.targets :: ObjectTargets(p, env, s, o).known {
      var o :| o in a.targets;
      assert TargetsFit(p, o, KnownOf(p, env, s, o)) && KnownOf(p, env, s, o) == ObjectTargets(p, env, s, o);
      var t :| t in ObjectTargets(p, env, s, o).targets;
      assert t in PointerTargets(p, env, s, Deref(y)).targets;
    }
  }

  // ----- expressions -----

  /** What the scan of an index expression takes in is also what the expression reads. */
  predicate Bare(e: Expr) {
    match e
    case AddressOf(_) => false
    case Deref(_) => false
    case Unary(_, x) => Bare(x)
    case Convert(_, x) => Bare(x)
    case Binary(_, l, r) => Bare(l) && Bare(r)
    case Index(x, i) => Bare(x) && Bare(i)
    case _ => true
  }

  /** Every index expression is bare. */
  predicate Simple(e: Expr) {
    match e
    case Deref(x) => Simple(x)
    case Unary(_, x) => Simple(x)
    case Convert(_, x) => Simple(x)
    case Binary(_, l, r) => Simple(l) && Simple(r)
    case Index(_, _) => Bare(e)
    case _ => true
  }

  ghost predicate SomeCarries(store: Store, names: seq<Object>, data: bool) {
    exists o :: o in names && Carried(Load(store, o), data)
  }

  lemma {:induction false} BareReads(p: Program, store: Store, e: Expr)
    requires Bare(e)
    ensures Eval(p, store, e).Some?
    ensures forall data :: Carried(Eval(p, store, e).value, data) <==> SomeCarries(store, Identifiers(e), data)
  {
    match e
    case Var(o) => OneCarries(store, o);
    case Unary(_, x) => BareReads(p, store, x);
    case Convert(_, x) => BareReads(p, store, x);
    case Binary(_, l, r) =>
      BareReads(p, store, l);
      BareReads(p, store, r);
      EitherCarries(store, Identifiers(l), Identifiers(r));
    case Index(x, i) =>
      BareReads(p, store, x);
      BareReads(p, store, i);
      EitherCarries(store, Identifiers(x), Identifiers(i));
    case _ =>
  }

  lemma OneCarries(store: Store, o: Object)
    ensures forall data :: SomeCarries(store, [o], data) <==> Carried(Load(store, o), data)
  {
    assert o in [o];
  }

  lemma EitherCarries(store: Store, a: seq<Object>, b: seq<Object>)
    ensures forall data :: SomeCarries(store, a + b, data) <==>
            SomeCarries(store, a, data) || SomeCarries(store, b, data)
  {
    forall data | SomeCarries(store, a, data) || SomeCarries(store, b, data) ensures SomeCarries(store, a + b, data) {
      var o :| (o in a || o in b) && Carried(Load(store, o), data);
      assert o in a + b;
    }
  }

  ghost predicate SomeFlagged(p: Program, env: Env, s: State, names: seq<Object>, data: bool) {
    exists o :: o in names && Flagged(IdentifierDependency(p, env, s, o), data)
  }

  /** A scan is known when all its names are, and then marked exactly when one of them is. */
  lemma {:induction false} ScanIs(p: Program, env: Env, s: State, names: seq<Object>)
    ensures var r := Scan(p, env, s, names);
            && (r.known <==> forall o | o in names :: IdentifierDependency(p, env, s, o).known)
            && (r.known ==> forall data :: Flagged(r, data) <==> SomeFlagged(p, env, s, names, data))
  {
    hide IdentifierDependency;
    if names != [] {
      ScanIs(p, env, s, names[1..]);
      assert names[0] in names;
      forall data ensures SomeFlagged(p, env, s, names, data) <==>
        Flagged(IdentifierDependency(p, env, s, names[0]), data) || SomeFlagged(p, env, s, names[1..], data)
      {
        if o :| o in names[1..] && Flagged(IdentifierDependency(p, env, s, o), data) { assert o in names; }
      }
    }
  }

  /** A choice can be extended so that an expression with a known dependency evaluates. */
  lemma {:induction false} Evaluates(p: Program, env: Env, s: State, e: Expr, c: Choice) returns (more: Choice)
    requires WellTargeted(p, env, s) && Scoped(p, env.Keys, e) && ChoiceOk(p, env, s, c)
    requires Simple(e) && ExprDependency(p, env, s, e).known
    ensures ChoiceOk(p, env, s, more) && Extends(c, more) && Eval(p, Filled(p, env, s, more), e).Some?
  {
    hide WellTargeted, ChoiceOk, Filled, PointerTargets, IdentifierDependency, Scan;
    match e
    case Deref(x) => more := PointerEvaluates(p, env, s, x, c);
    case Unary(_, x) => more := Evaluates(p, env, s, x, c);
    case Convert(_, x) => more := Evaluates(p, env, s, x, c);
    case Binary(_, l, r) =>
      var mid := Evaluates(p, env, s, l, c);
      more := Evaluates(p, env, s, r, mid);
      Grow(p, env, s, mid, more, l);
    case Index(_, _) =>
      more := c;
      BareReads(p, Filled(p, env, s, c), e);
    case _ => more := c;
  }

  lemma NotInEnv(p: Program, env: Env, s: State, o: Object)
    requires !IsFormal(p, o) && forall f | f in env :: IsFormal(p, f)
    ensures IdentifierDependency(p, env, s, o) == ObjectDependency(p, s, o)
  {
  }

  /** Each mark of a known dependency is carried by the value in some described store. */
  lemma {:induction false} Tight(p: Program, env: Env, s: State, e: Expr, data: bool) returns (c: Choice)
    requires WellTargeted(p, env, s) && Scoped(p, env.Keys, e) && Simple(e)
    requires ExprDependency(p, env, s, e).known && Flagged(ExprDependency(p, env, s, e), data)
    ensures ChoiceOk(p, env, s, c)
    ensures Eval(p, Filled(p, env, s, c), e).Some? && Carried(Eval(p, Filled(p, env, s, c), e).value, data)
  {
    hide PointerTargets, IdentifierDependency, Scan, Filled, KnownOf;
    match e
    case Var(o) =>
      c := map[];
      FilledAt(p, env, s, c, o);
    case Deref(x) =>
      var t :| t in PointerTargets(p, env, s, x).targets && Flagged(ObjectDependency(p, s, t), data);
      c := Points(p, env, s, x, t);
      FilledAt(p, env, s, c, t);
      assert Eval(p, Filled(p, env, s, c), e) == Some(Load(Filled(p, env, s, c), t));
      assert IdentifierDependency(p, env, s, t) == ObjectDependency(p, s, t) by { NotInEnv(p, env, s, t); }
      assert Flagged(IdentifierDependency(p, env, s, t), data);
      assert Carried(Load(Filled(p, env, s, c), t), data);
      assert Carried(Eval(p, Filled(p, env, s, c), e).value, data);
    case Unary(_, x) =>
      c := Tight(p, env, s, x, data);
    case Convert(_, x) =>
      c := Tight(p, env, s, x, data);
    case Binary(_, l, r) =>
      var (first, other) := if Flagged(ExprDependency(p, env, s, l), data) then (l, r) else (r, l);
      var mid := Tight(p, env, s, first, data);
      c := Evaluates(p, env, s, other, mid);
      Grow(p, env, s, mid, c, first);
    case Index(_, _) =>
      c := map[];
      var names := Identifiers(e);
      ScanIs(p, env, s, names);
      assert SomeFlagged(p, env, s, names, data);
      var o :| o in names && Flagged(IdentifierDependency(p, env, s, o), data);
      FilledAt(p, env, s, c, o);
      BareReads(p, Filled(p, env, s, c), e);
      assert SomeCarries(Filled(p, env, s, c), names, data);
    case _ => assert false;
  }

  /** Each mark of the answer is carried in some store that the state describes. */
  lemma EvalTight(p: Program, s: State, e: Expr, data: bool)
    requires WellTargeted(p, map[], s) && Scoped(p, {}, e) && Simple(e)
    requires ExprDependency(p, map[], s, e).known
    requires if data then ExprDependency(p, map[], s, e).derived else ExprDependency(p, map[], s, e).stride
    ensures exists m :: CoversNow(p, s, m) && Typed(p, m) && Eval(p, m, e).Some? &&
                        if data then Eval(p, m, e).value.data else Eval(p, m, e).value.stride
  {
    hide CoversNow, Typed, WellTargeted;
    var none: Env := map[];
    assert none.Keys == {};
    var c := Tight(p, none, s, e, data);
    var m := Filled(p, map[], s, c);
    FilledIsDescribed(p, map[], s, c);
    DescribedIsCoversNow(p, s, m);
    assert CoversNow(p, s, m);
  }

  /** The objects whose dependency is asked for by name: variables, and all names in an index expression. */
  function Asked(e: Expr): set<Object> {
    match e
    case Var(o) => {o}
    case Unary(_, x) => Asked(x)
    case Convert(_, x) => Asked(x)
    case Binary(_, l, r) => Asked(l) + Asked(r)
    case Index(x, i) => set o | o in Identifiers(x) + Identifiers(i)
    case _ => {}
  }

  /** The pointers that are loaded through, outside index expressions. */
  function Followed(e: Expr): set<Expr> {
    match e
    case Deref(x) => {x}
    case Unary(_, x) => Followed(x)
    case Convert(_, x) => Followed(x)
    case Binary(_, l, r) => Followed(l) + Followed(r)
    case _ => {}
  }

  /** The answer is known exactly when every pointer that is loaded through has known targets, and
      every formal that is read was handed something known. */
  lemma {:induction false} KnownIff(p: Program, env: Env, s: State, e: Expr)
    ensures ExprDependency(p, env, s, e).known <==>
              && (forall x | x in Followed(e) ::
                 PointerTargets(p, env, s, x).known && PointerTargets(p, env, s, x).targets != {})
              && (forall o | o in Asked(e) && o in env :: env[o].dependency.known)
  {
    hide PointerTargets;
    match e
    case Unary(_, x) => KnownIff(p, env, s, x);
    case Convert(_, x) => KnownIff(p, env, s, x);
    case Binary(_, l, r) => KnownIff(p, env, s, l); KnownIff(p, env, s, r);
    case Index(x, i) => ScanIs(p, env, s, Identifiers(x) + Identifiers(i));
    case _ =>
  }

  /** Outside all bodies an expression without a load is always known. */
  lemma LoadFreeIsKnown(p: Program, s: State, e: Expr)
    requires Loads(e) == []
    ensures ExprDependency(p, map[], s, e).known
  {
    KnownIff(p, map[], s, e);
    NoneFollowed(e);
  }

  lemma {:induction false} NoneFollowed(e: Expr)
    requires Loads(e) == []
    ensures Followed(e) == {}
  {
    match e
    case Unary(_, x) => NoneFollowed(x);
    case Convert(_, x) => NoneFollowed(x);
    case Binary(_, l, r) => NoneFollowed(l); NoneFollowed(r);
    case _ =>
  }

  // ----- writing several places -----

  /** The last of the places that is this object. */
  function LastWrite(targets: seq<Target>, o: Object): (r: Option<nat>)
    ensures r.Some? ==> r.value < |targets| && targets[r.value] == At(o)
    ensures r.None? ==> At(o) !in targets
  {
    if targets == [] then None
    else match LastWrite(targets[1..], o)
      case Some(i) => Some(i + 1)
      case None => if targets[0] == At(o) then Some(0) else None
  }

  lemma {:induction false} SetAllMarks(s: State, targets: seq<Target>, stored: seq<Binding>, o: Object, data: bool)
    requires |targets| == |stored|
    ensures Marked(SetAll(s, targets, stored), o, data) <==>
              match LastWrite(targets, o)
              case None => Marked(s, o, data)
              case Some(i) => Flagged(stored[i].dependency, data)
    decreases targets
  {
    if targets != [] {
      var s' := match targets[0]
        case At(o) => SetAlias(SetDependency(s, o, stored[0].dependency), o, stored[0].pointer)
        case _ => s;
      SetAllMarks(s', targets[1..], stored[1..], o, data);
    }
  }

  lemma {:induction false} WriteAllLoads(p: Program, store: Store, targets: seq<Target>, cells: seq<Cell>, o: Object)
    requires |targets| == |cells| && Unresolved !in targets
    requires forall i | 0 <= i < |targets| && targets[i].At? :: Fits(p, targets[i].obj, cells[i])
    ensures var r := WriteAll(p, store, targets, cells);
            r.Some? && Load(r.value, o) == match LastWrite(targets, o)
                                           case None => Load(store, o)
                                           case Some(i) => cells[i]
    decreases targets
  {
    if targets != [] {
      var next := if targets[0].At? then store[targets[0].obj := cells[0]] else store;
      WriteAllLoads(p, next, targets[1..], cells[1..], o);
    }
  }

  /** The alias of an object is that of the last write, where every write to it brings one. */
  lemma {:induction false} SetAllAliases(s: State, targets: seq<Target>, stored: seq<Binding>, o: Object)
    requires |targets| == |stored|
    requires forall i | 0 <= i < |targets| && targets[i] == At(o) :: stored[i].pointer.Some?
    ensures var t := SetAll(s, targets, stored);
            match LastWrite(targets, o)
            case None => (o in Tracked(t) <==> o in Tracked(s)) && (o in Tracked(s) ==> Tracked(t)[o] == Tracked(s)[o])
            case Some(i) => o in Tracked(t) && Tracked(t)[o] == stored[i].pointer.value
    decreases targets
  {
    if targets != [] {
      var s' := match targets[0]
        case At(q) => SetAlias(SetDependency(s, q, stored[0].dependency), q, stored[0].pointer)
        case _ => s;
      SetAllAliases(s', targets[1..], stored[1..], o);
    }
  }

  // ----- assignments -----

  /** What the type checker sees to: a pointer goes where pointers of its level live. */
  ghost predicate LevelsMatch(p: Program, env: Env, s: State, lhs: seq<Lhs>, rhs: seq<Expr>) {
    forall i | 0 <= i < |lhs| && i < |rhs| ::
      var t := TargetOf(p, env, s, lhs[i]); t.At? && Depth(p, rhs[i]) > 0 ==> Depth(p, rhs[i]) == p.depth(t.obj)
  }

  /** Whatever evaluates points one level down. */
  lemma {:induction false} LevelOf(p: Program, own: set<Object>, store: Store, e: Expr)
    requires Typed(p, store) && Scoped(p, own, e) && Eval(p, store, e).Some?
    ensures PointsWell(p, Eval(p, store, e).value, Depth(p, e))
  {
    match e
    case Deref(x) => LevelOf(p, own, store, x);
    case Convert(_, x) => LevelOf(p, own, store, x);
    case _ =>
  }

  lemma {:induction false} AllEvaluate(p: Program, env: Env, s: State, es: seq<Expr>, c: Choice) returns (more: Choice)
    requires WellTargeted(p, env, s) && ScopedAll(p, env.Keys, es) && ChoiceOk(p, env, s, c)
    requires forall e | e in es :: Simple(e) && ExprDependency(p, env, s, e).known
    ensures ChoiceOk(p, env, s, more) && Extends(c, more)
    ensures forall e | e in es :: Eval(p, Filled(p, env, s, more), e).Some?
    decreases |es|
  {
    hide WellTargeted, ChoiceOk, Scoped, Simple, ExprDependency, Filled, Eval;
    more := c;
    if es != [] {
      assert es[0] in es;
      var mid := AllEvaluate(p, env, s, es[1..], c);
      more := Evaluates(p, env, s, es[0], mid);
      forall e | e in es[1..] ensures Eval(p, Filled(p, env, s, more), e).Some? { Grow(p, env, s, mid, more, e); }
    }
  }

  predicate Reached(p: Program, env: Env, s: State, store: Store, l: Lhs) {
    PlaceOf(p, store, l) == TargetOf(p, env, s, l)
  }

  lemma PlaceEvaluates(p: Program, env: Env, s: State, l: Lhs, c: Choice) returns (more: Choice)
    requires WellTargeted(p, env, s) && ScopedLhs(p, env.Keys, [l]) && ChoiceOk(p, env, s, c)
    requires TargetOf(p, env, s, l) != Unresolved
    ensures ChoiceOk(p, env, s, more) && Extends(c, more) && Reached(p, env, s, Filled(p, env, s, more), l)
  {
    hide WellTargeted, ChoiceOk, PointerTargets, Filled;
    assert l in [l];
    match l
    case Place(Deref(x)) => more := PointerEvaluates(p, env, s, x, c);
    case _ => more := c;
  }

  lemma StaysReached(p: Program, env: Env, s: State, l: Lhs, c: Choice, more: Choice)
    requires Extends(c, more) && Reached(p, env, s, Filled(p, env, s, c), l) && TargetOf(p, env, s, l) != Unresolved
    ensures Reached(p, env, s, Filled(p, env, s, more), l)
  {
    hide Filled, TargetOf;
    match l
    case Place(Deref(x)) => Grow(p, env, s, c, more, x);
    case _ =>
  }

  lemma {:induction false} PlacesEvaluate(
      p: Program, env: Env, s: State, lhs: seq<Lhs>, c: Choice) returns (more: Choice)
    requires WellTargeted(p, env, s) && ScopedLhs(p, env.Keys, lhs) && ChoiceOk(p, env, s, c)
    requires forall l | l in lhs :: TargetOf(p, env, s, l) != Unresolved
    ensures ChoiceOk(p, env, s, more) && Extends(c, more)
    ensures forall l | l in lhs :: Reached(p, env, s, Filled(p, env, s, more), l)
    decreases |lhs|
  {
    hide WellTargeted, ChoiceOk, Scoped, Reached, TargetOf, Filled;
    more := c;
    if lhs != [] {
      assert lhs[0] in lhs;
      var mid := PlacesEvaluate(p, env, s, lhs[1..], c);
      more := PlaceEvaluates(p, env, s, lhs[0], mid);
      forall l | l in lhs[1..] ensures Reached(p, env, s, Filled(p, env, s, more), l) {
        StaysReached(p, env, s, l, mid, more);
      }
    }
  }

  lemma ScopedElement(p: Program, own: set<Object>, es: seq<Expr>, i: nat)
    requires i < |es| && ScopedAll(p, own, es)
    ensures Scoped(p, own, es[i])
  {
    assert es[i] in es;
  }

  /** An assignment whose operands and places evaluate runs, and the last write to an object stays. */
  lemma AssignRuns(
      p: Program, own: set<Object>, store: Store, kind: AssignOp, lhs: seq<Lhs>, rhs: seq<Expr>, o: Object, data: bool)
    requires |lhs| == |rhs| > 0 && (kind.Compound? ==> |lhs| == 1 && PlaceOf(p, store, lhs[0]).At?)
    requires Typed(p, store) && ScopedAll(p, own, rhs) && EvalAll(p, store, rhs).Some?
    requires Unresolved !in PlacesOf(p, store, lhs)
    requires forall i | 0 <= i < |lhs| && PlaceOf(p, store, lhs[i]).At? && Depth(p, rhs[i]) > 0 ::
               Depth(p, rhs[i]) == p.depth(PlaceOf(p, store, lhs[i]).obj)
    ensures var r := RunAssign(p, store, kind, lhs, rhs);
            r.Some? && (Carried(Load(r.value, o), data) <==>
              match LastWrite(PlacesOf(p, store, lhs), o)
              case None => Carried(Load(store, o), data)
              case Some(i) =>
                || Carried(Eval(p, store, rhs[i]).value, data)
                || (kind.Compound? && Carried(Load(store, o), data)))
    ensures var r, last := RunAssign(p, store, kind, lhs, rhs).value, LastWrite(PlacesOf(p, store, lhs), o);
            && (last.None? ==> Load(r, o) == Load(store, o))
            && (last.Some? && kind.Plain? ==> Some(Load(r, o)) == Eval(p, store, rhs[last.value]))
  {
    hide Scoped, Eval, Depth, PlaceOf, LastWrite, Typed;
    var targets := PlacesOf(p, store, lhs);
    var cells := EvalAll(p, store, rhs).value;
    forall i | 0 <= i < |lhs| && targets[i].At? ensures Fits(p, targets[i].obj, cells[i]) {
      ScopedElement(p, own, rhs, i);
      LevelOf(p, own, store, rhs[i]);
    }
    if kind.Plain? {
      WriteAllLoads(p, store, targets, cells, o);
    } else {
      var before := Load(store, targets[0].obj);
      var cell := Computed(p.ops.binary(kind.op, before.value, cells[0].value), before, cells[0]);
      WriteAllLoads(p, store, targets, [cell], o);
    }
  }

  /** What the answer marks comes from an operand of the last write, or was marked before. */
  lemma AssignMarks(
      p: Program, env: Env, s: State, kind: AssignOp, lhs: seq<Lhs>, rhs: seq<Expr>, o: Object, data: bool)
    requires ApplyAssignment(p, env, s, kind, lhs, rhs).Applied?
    ensures |lhs| == |rhs| > 0 && (kind.Compound? ==> |lhs| == 1) && Unresolved !in TargetsOf(p, env, s, lhs)
    ensures forall e | e in rhs :: ExprDependency(p, env, s, e).known
    ensures Marked(ApplyAssignment(p, env, s, kind, lhs, rhs).state, o, data) <==>
              match LastWrite(TargetsOf(p, env, s, lhs), o)
              case None => Marked(s, o, data)
              case Some(i) =>
                || Flagged(ExprDependency(p, env, s, rhs[i]), data)
                || (kind.Compound? && Flagged(ObjectDependency(p, s, o), data))
  {
    hide ExprDependency, TargetOf, LastWrite, PointerTargets, Depth, ObjectDependency;
    var targets := TargetsOf(p, env, s, lhs);
    var stored := StoredAll(p, env, s, targets, rhs);
    forall e | e in rhs ensures ExprDependency(p, env, s, e).known {
      var i :| 0 <= i < |rhs| && rhs[i] == e;
      assert stored[i] in stored;
    }
    var final := if kind.Compound? && targets[0].At?
      then [stored[0].(dependency := Either(stored[0].dependency, ObjectDependency(p, s, targets[0].obj)))]
      else stored;
    SetAllMarks(s, targets, final, o, data);
  }

  /** Each mark that an assignment leaves is left by its run from some described store. */
  lemma AssignTight(
      p: Program, env: Env, s: State, kind: AssignOp, lhs: seq<Lhs>, rhs: seq<Expr>, o: Object, data: bool)
    requires WellTargeted(p, env, s) && ScopedLhs(p, env.Keys, lhs) && ScopedAll(p, env.Keys, rhs)
    requires (forall e | e in rhs :: Simple(e)) && LevelsMatch(p, env, s, lhs, rhs)
    requires ApplyAssignment(p, env, s, kind, lhs, rhs).Applied?
    requires kind.Compound? ==> lhs != [Blank]
    requires o !in env && Marked(ApplyAssignment(p, env, s, kind, lhs, rhs).state, o, data)
    ensures exists m :: DescribedBy(p, env, s, m) && Typed(p, m) &&
                        var r := RunAssign(p, m, kind, lhs, rhs); r.Some? && Carried(Load(r.value, o), data)
  {
    hide WellTargeted, ScopedLhs, ScopedAll, Scoped, Simple, ExprDependency, TargetOf, LastWrite, ApplyAssignment;
    hide Filled, Eval, RunAssign, DescribedBy, Typed;
    AssignMarks(p, env, s, kind, lhs, rhs, o, data);
    var last := LastWrite(TargetsOf(p, env, s, lhs), o);
    var first: Choice := map[];
    if last.Some? && Flagged(ExprDependency(p, env, s, rhs[last.value]), data) {
      ScopedElement(p, env.Keys, rhs, last.value);
      first := Tight(p, env, s, rhs[last.value], data);
    }
    var c := AssignEvaluates(p, env, s, lhs, rhs, first);
    var m := Filled(p, env, s, c);
    FilledIsDescribed(p, env, s, c);
    FilledAt(p, env, s, c, o);
    if last.Some? && Flagged(ExprDependency(p, env, s, rhs[last.value]), data) {
      Grow(p, env, s, first, c, rhs[last.value]);
    }
    if kind.Compound? {
      assert TargetsOf(p, env, s, lhs)[0] == TargetOf(p, env, s, lhs[0]) && lhs[0] != Blank;
      OnlyBlankIsNowhere(p, env, s, lhs[0]);
    }
    AssignRuns(p, env.Keys, m, kind, lhs, rhs, o, data);
  }

  lemma OnlyBlankIsNowhere(p: Program, env: Env, s: State, l: Lhs)
    ensures TargetOf(p, env, s, l) == Nowhere <==> l == Blank
  {
  }

  lemma AssignEvaluates(p: Program, env: Env, s: State, lhs: seq<Lhs>, rhs: seq<Expr>, c: Choice) returns (more: Choice)
    requires WellTargeted(p, env, s) && ScopedLhs(p, env.Keys, lhs) && ScopedAll(p, env.Keys, rhs)
    requires ChoiceOk(p, env, s, c) && Unresolved !in TargetsOf(p, env, s, lhs)
    requires forall e | e in rhs :: Simple(e) && ExprDependency(p, env, s, e).known
    ensures ChoiceOk(p, env, s, more) && Extends(c, more)
    ensures EvalAll(p, Filled(p, env, s, more), rhs).Some?
    ensures PlacesOf(p, Filled(p, env, s, more), lhs) == TargetsOf(p, env, s, lhs)
    ensures forall i | 0 <= i < |lhs| :: PlaceOf(p, Filled(p, env, s, more), lhs[i]) == TargetOf(p, env, s, lhs[i])
  {
    hide WellTargeted, ScopedLhs, ScopedAll, Scoped, Simple, ExprDependency, TargetOf, PlaceOf, Filled, Eval, ChoiceOk;
    var mid := AllEvaluate(p, env, s, rhs, c);
    forall l | l in lhs ensures TargetOf(p, env, s, l) != Unresolved {
      var i :| 0 <= i < |lhs| && lhs[i] == l;
      assert TargetsOf(p, env, s, lhs)[i] == TargetOf(p, env, s, l);
    }
    more := PlacesEvaluate(p, env, s, lhs, mid);
    forall e | e in rhs ensures Eval(p, Filled(p, env, s, more), e).Some? { Grow(p, env, s, mid, more, e); }
    forall i | 0 <= i < |lhs|
      ensures PlaceOf(p, Filled(p, env, s, more), lhs[i]) == TargetOf(p, env, s, lhs[i])
    {
      assert lhs[i] in lhs && Reached(p, env, s, Filled(p, env, s, more), lhs[i]);
    }
  }

  /** The same for x++ and x--. */
  lemma IncDecTight(p: Program, env: Env, s: State, op: nat, place: Expr, o: Object, data: bool)
    requires WellTargeted(p, env, s) && Scoped(p, env.Keys, place) && ApplyIncDec(p, env, s, place).Applied?
    requires o !in env && Marked(ApplyIncDec(p, env, s, place).state, o, data)
    ensures exists m :: DescribedBy(p, env, s, m) && Typed(p, m) &&
                        var r := RunIncDec(p, m, op, place); r.Some? && Carried(Load(r.value, o), data)
  {
    hide WellTargeted, Scoped, TargetOf, PlaceOf, Filled, DescribedBy, Typed;
    var none: Choice := map[];
    var c := PlaceEvaluates(p, env, s, Place(place), none);
    FilledIsDescribed(p, env, s, c);
    FilledAt(p, env, s, c, o);
    assert Reached(p, env, s, Filled(p, env, s, c), Place(place));
    var r := RunIncDec(p, Filled(p, env, s, c), op, place);
    assert r.Some? && Carried(Load(r.value, o), data);
  }

  /** Without loads nothing stands in the way of an assignment to variables. */
  lemma PlainAssignmentApplies(p: Program, s: State, kind: AssignOp, lhs: seq<Lhs>, rhs: seq<Expr>)
    requires |lhs| == |rhs| > 0 && (kind.Compound? ==> |lhs| == 1)
    requires forall l | l in lhs :: l.Blank? || l.e.Var?
    requires forall e | e in rhs :: Loads(e) == []
    ensures ApplyAssignment(p, map[], s, kind, lhs, rhs).Applied?
  {
    hide ExprDependency;
    var targets := TargetsOf(p, map[], s, lhs);
    forall i | 0 <= i < |lhs| ensures targets[i] != Unresolved { assert lhs[i] in lhs; }
    forall i | 0 <= i < |rhs| ensures ExprDependency(p, map[], s, rhs[i]).known {
      assert rhs[i] in rhs;
      LoadFreeIsKnown(p, s, rhs[i]);
    }
  }
}
