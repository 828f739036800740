/**
 What an ordered transfer can write, read off the program before any body runs:
 variables it assigns to, and objects whose address is taken or tracked
 (checks/ps1006.go:962-1706, 1811-1934).

 So the condition under which its answers are sound can be decided before the
 call. A caller also sees from the program whether the scan of its index
 expressions takes in everything.
 */
module Confinement {
  import opened AliasResolution
  import opened DependencyState
  import opened GoBodies
  import opened OrderedSoundness
  import opened OrderedTransfer
  import opened Wrappers

  // ----- what a program names -----

  /** Objects whose address the expression takes. */
  function Taken(e: Expr): set<Object> {
    match e
    case AddressOf(o) => {o}
    case Deref(x) => Taken(x)
    case Unary(_, x) => Taken(x)
    case Binary(_, l, r) => Taken(l) + Taken(r)
    case Convert(_, x) => Taken(x)
    case Index(x, i) => Taken(x) + Taken(i)
    case _ => {}
  }

  function TakenIn(es: set<Expr>): set<Object> {
    set e, o | e in es && o in Taken(e) :: o
  }

  function Members<T>(es: seq<T>): set<T> {
    set e | e in es
  }

  function Places(lhs: seq<Lhs>): set<Expr> {
    set l | l in lhs && l.Place? :: l.e
  }

  function OperandExprs(operand: Operand): set<Expr> {
    Members(if operand.Value? then [operand.e] else operand.call.args)
  }

  function ResultExprs(results: seq<Operand>): set<Expr> {
    set r, e | r in results && e in OperandExprs(r) :: e
  }

  /** Variables assigned to by name. */
  function Named(places: set<Expr>): set<Object> {
    set e | e in places && e.Var? :: e.obj
  }

  function Assigned(stmt: Stmt): set<Object>
    decreases stmt, 1
  {
    match stmt
    case Assign(_, lhs, _) => Named(Places(lhs))
    case IncDec(_, place) => Named({place})
    case Declare(specs) => set d, o | d in specs && o in Named(Places(d.names)) :: o
    case Block(body) => AssignedIn(body)
    case For(init, _, post, body) =>
      (if init.Some? then Assigned(init.value) else {}) + (if post.Some? then Assigned(post.value) else {}) +
      AssignedIn(body)
    case _ => {}
  }

  function AssignedIn(body: seq<Stmt>): set<Object>
    decreases body, 0
  {
    if body == [] then {} else Assigned(body[0]) + AssignedIn(body[1..])
  }

  /** The expressions a transfer evaluates; conditions and what is printed are not among them. */
  function Exprs(stmt: Stmt): set<Expr>
    decreases stmt, 1
  {
    match stmt
    case Assign(_, lhs, rhs) => Places(lhs) + Members(rhs)
    case IncDec(_, place) => {place}
    case Declare(specs) => set d, e | d in specs && e in Places(d.names) + Members(d.values) :: e
    case CallStmt(call) => Members(call.args)
    case Block(body) => ExprsIn(body)
    case For(init, _, post, body) =>
      (if init.Some? then Exprs(init.value) else {}) + (if post.Some? then Exprs(post.value) else {}) + ExprsIn(body)
    case Return(results) => ResultExprs(results)
    case _ => {}
  }

  function ExprsIn(body: seq<Stmt>): set<Expr>
    decreases body, 0
  {
    if body == [] then {} else Exprs(body[0]) + ExprsIn(body[1..])
  }

  /** Everything the bodies assign to, and every address taken in a body or in a pointer's value. */
  function Mentioned(p: Program): set<Object> {
    (set f, o | 0 <= f < |p.functions| && o in AssignedIn(p.functions[f].body) :: o) +
    (set f, o | 0 <= f < |p.functions| && o in TakenIn(ExprsIn(p.functions[f].body)) :: o) +
    (set q, o | q in p.values && o in TakenIn(Members(p.values[q])) :: o)
  }

  /** Known targets of tracked pointers. */
  function Targets(s: State): set<Object> {
    set o, t | o in Tracked(s) && Tracked(s)[o].known && t in Tracked(s)[o].targets :: t
  }

  /** No index expression loads through a pointer. */
  predicate Plainly(e: Expr) {
    match e
    case Deref(x) => Plainly(x)
    case Unary(_, x) => Plainly(x)
    case Convert(_, x) => Plainly(x)
    case Binary(_, l, r) => Plainly(l) && Plainly(r)
    case Index(x, i) => Loads(x) == [] && Loads(i) == []
    case _ => true
  }

  predicate PlainlyIndexed(p: Program) {
    forall f, e | 0 <= f < |p.functions| && e in ExprsIn(p.functions[f].body) :: Plainly(e)
  }

  lemma {:induction false} NothingLoaded(p: Program, env: Env, s: State, e: Expr)
    requires Loads(e) == []
    ensures ScanFits(p, env, s, e)
  {
    match e
    case Unary(_, x) => NothingLoaded(p, env, s, x);
    case Convert(_, x) => NothingLoaded(p, env, s, x);
    case Binary(_, l, r) => NothingLoaded(p, env, s, l); NothingLoaded(p, env, s, r);
    case Index(x, i) => NothingLoaded(p, env, s, x); NothingLoaded(p, env, s, i);
    case _ =>
  }

  lemma {:induction false} PlainlyFits(p: Program, env: Env, s: State, e: Expr)
    requires Plainly(e)
    ensures ScanFits(p, env, s, e)
  {
    match e
    case Deref(x) => PlainlyFits(p, env, s, x);
    case Unary(_, x) => PlainlyFits(p, env, s, x);
    case Convert(_, x) => PlainlyFits(p, env, s, x);
    case Binary(_, l, r) => PlainlyFits(p, env, s, l); PlainlyFits(p, env, s, r);
    case Index(x, i) => NothingLoaded(p, env, s, x); NothingLoaded(p, env, s, i);
    case _ =>
  }

  // ----- targets stay inside -----

  predicate AliasInside(w: set<Object>, a: Alias) {
    a.known ==> a.targets <= w
  }

  predicate StateInside(w: set<Object>, s: State) {
    forall o | o in Tracked(s) :: AliasInside(w, Tracked(s)[o])
  }

  predicate BindingInside(w: set<Object>, b: Binding) {
    b.pointer.Some? ==> AliasInside(w, b.pointer.value)
  }

  predicate EnvInside(w: set<Object>, env: Env) {
    forall o | o in env :: BindingInside(w, env[o])
  }

  lemma TargetsInside(s: State)
    ensures StateInside(Targets(s), s)
  {
  }

  lemma {:induction false} ResolveInside(
      p: Program, w: set<Object>, env: Env, s: State, e: Expr, seen: set<Object>)
    requires Mentioned(p) <= w && StateInside(w, s) && EnvInside(w, env) && Taken(e) <= w
    ensures AliasInside(w, Resolve(p, env, Tracked(s), e, seen))
    decreases |p.values.Keys - seen|, 1, e
  {
    hide Mentioned, StateInside, EnvInside, ResolveObject;
    match e
    case Var(o) =>
      if o in env { assert EnvInside(w, env) ==> BindingInside(w, env[o]) by { EnvHas(w, env, o); } }
      else { ObjectInside(p, w, env, s, o, seen); }
    case Deref(x) =>
      forall o ensures AliasInside(w, ResolveObject(p, env, Tracked(s), o, seen)) {
        ObjectInside(p, w, env, s, o, seen);
      }
    case Convert(_, x) => ResolveInside(p, w, env, s, x, seen);
    case _ =>
  }

  lemma EnvHas(w: set<Object>, env: Env, o: Object)
    requires o in env
    ensures EnvInside(w, env) ==> BindingInside(w, env[o])
  {
  }

  lemma ObjectInside(p: Program, w: set<Object>, env: Env, s: State, o: Object, seen: set<Object>)
    requires Mentioned(p) <= w && StateInside(w, s) && EnvInside(w, env)
    ensures AliasInside(w, ResolveObject(p, env, Tracked(s), o, seen))
    decreases |p.values.Keys - seen|, 0
  {
    hide EnvInside, Resolve, Mentioned;
    if o !in seen && o !in Tracked(s) && o in p.values {
      FewerLeft(p.values.Keys, seen, o);
      forall v | v in p.values[o] ensures AliasInside(w, Resolve(p, env, Tracked(s), v, seen + {o})) {
        ValuesMentioned(p, o, v);
        ResolveInside(p, w, env, s, v, seen + {o});
      }
    }
  }

  lemma ValuesMentioned(p: Program, o: Object, v: Expr)
    requires o in p.values && v in p.values[o]
    ensures Taken(v) <= Mentioned(p)
  {
    assert v in Members(p.values[o]);
    forall x | x in Taken(v) ensures x in Mentioned(p) { assert x in TakenIn(Members(p.values[o])); }
  }

  // ----- statements -----

  predicate Known(w: set<Object>, es: set<Expr>, plain: bool) {
    TakenIn(es) <= w && (plain ==> forall e | e in es :: Plainly(e))
  }

  lemma OneKnown(w: set<Object>, es: set<Expr>, plain: bool, e: Expr)
    requires Known(w, es, plain) && e in es
    ensures Taken(e) <= w && (plain ==> Plainly(e))
  {
    forall o | o in Taken(e) ensures o in w { assert o in TakenIn(es); }
  }

  lemma SomeKnown(w: set<Object>, es: set<Expr>, plain: bool, part: set<Expr>)
    requires Known(w, es, plain) && part <= es
    ensures Known(w, part, plain)
  {
    forall o | o in TakenIn(part) ensures o in w { assert o in TakenIn(es); }
  }

  lemma PlaceInside(p: Program, w: set<Object>, env: Env, s: State, lhs: Lhs)
    requires Mentioned(p) <= w && StateInside(w, s) && EnvInside(w, env)
    requires lhs.Place? ==> Taken(lhs.e) <= w && Named({lhs.e}) <= w
    ensures TargetOf(p, env, s, lhs).At? ==> TargetOf(p, env, s, lhs).obj in w
  {
    hide Resolve, Mentioned, StateInside, EnvInside;
    if lhs.Place? && lhs.e.Var? {
      assert lhs.e.obj in Named({lhs.e});
    } else if lhs.Place? && lhs.e.Deref? {
      ResolveInside(p, w, env, s, lhs.e.pointer, {});
      SoleIsIn(PointerTargets(p, env, s, lhs.e.pointer).targets);
    }
  }

  lemma SoleIsIn(targets: set<Object>)
    ensures |targets| == 1 ==> Sole(targets) in targets
  {
    if |targets| == 1 {
      var o :| o in targets;
      assert |targets - {o}| == 0;
      assert targets == {o};
      SoleIsUnique(targets);
    }
  }

  lemma DependencyKeeps(w: set<Object>, s: State)
    requires StateInside(w, s)
    ensures forall o, d :: StateInside(w, SetDependency(s, o, d))
  {
    forall o, d ensures StateInside(w, SetDependency(s, o, d)) {
      assert Tracked(SetDependency(s, o, d)) == Tracked(s);
    }
  }

  lemma {:induction false} SetAllInside(w: set<Object>, s: State, targets: seq<Target>, stored: seq<Binding>)
    requires |targets| == |stored| && StateInside(w, s) && forall b | b in stored :: BindingInside(w, b)
    ensures StateInside(w, SetAll(s, targets, stored))
    decreases targets
  {
    if targets != [] {
      var s' := match targets[0]
        case At(o) => SetAlias(SetDependency(s, o, stored[0].dependency), o, stored[0].pointer)
        case _ => s;
      assert stored[0] in stored;
      assert StateInside(w, s') by { if targets[0].At? { DependencyKeeps(w, s); } }
      SetAllInside(w, s', targets[1..], stored[1..]);
    }
  }

  lemma AssignInside(
      p: Program, w: set<Object>, env: Env, s: State, kind: AssignOp, lhs: seq<Lhs>, rhs: seq<Expr>, plain: bool)
    requires Mentioned(p) <= w && StateInside(w, s) && EnvInside(w, env)
    requires Named(Places(lhs)) <= w && Known(w, Places(lhs) + Members(rhs), plain)
    ensures var a := ApplyAssignment(p, env, s, kind, lhs, rhs);
            a.Applied? ==> a.written <= w && StateInside(w, a.state)
    ensures plain ==> PlacesFit(p, env, s, lhs) && AllFit(p, env, s, rhs)
  {
    hide Mentioned, StateInside, EnvInside, SetAll, Resolve, ExprDependency, Known, TargetOf, Depth, Plainly, ScanFits;
    if plain {
      forall e | e in Places(lhs) + Members(rhs) ensures ScanFits(p, env, s, e) {
        OneKnown(w, Places(lhs) + Members(rhs), plain, e);
        PlainlyFits(p, env, s, e);
      }
    }
    var a := ApplyAssignment(p, env, s, kind, lhs, rhs);
    if a.Applied? {
      var targets := TargetsOf(p, env, s, lhs);
      var stored := StoredAll(p, env, s, targets, rhs);
      forall i | 0 <= i < |lhs| ensures targets[i].At? ==> targets[i].obj in w {
        if lhs[i].Place? {
          assert lhs[i].e in Places(lhs);
          OneKnown(w, Places(lhs) + Members(rhs), plain, lhs[i].e);
          assert Named({lhs[i].e}) <= Named(Places(lhs));
        }
        PlaceInside(p, w, env, s, lhs[i]);
      }
      forall i | 0 <= i < |rhs| ensures BindingInside(w, stored[i]) {
        assert rhs[i] in Members(rhs);
        OneKnown(w, Places(lhs) + Members(rhs), plain, rhs[i]);
        ResolveInside(p, w, env, s, rhs[i], {});
      }
      var final := if kind.Compound? && targets[0].At?
        then [stored[0].(dependency := Either(stored[0].dependency, ObjectDependency(p, s, targets[0].obj)))]
        else stored;
      assert forall b | b in final :: BindingInside(w, b);
      SetAllInside(w, s, targets, final);
    }
  }

  lemma {:induction false} SpecsInside(
      p: Program, w: set<Object>, env: Env, s: State, specs: seq<Spec>, plain: bool)
    requires Mentioned(p) <= w && StateInside(w, s) && EnvInside(w, env)
    requires Assigned(Declare(specs)) <= w && Known(w, Exprs(Declare(specs)), plain)
    ensures var a := ApplySpecs(p, env, s, specs); a.Applied? ==> a.written <= w && StateInside(w, a.state)
    ensures plain ==> SpecsFit(p, env, s, specs)
    decreases |specs|
  {
    hide Mentioned, StateInside, EnvInside, ApplyAssignment, Known, PlacesFit, AllFit;
    if specs != [] {
      var d := specs[0];
      assert d in specs && forall r | r in specs[1..] :: r in specs;
      SomeKnown(w, Exprs(Declare(specs)), plain, Places(d.names) + Members(d.values));
      SomeKnown(w, Exprs(Declare(specs)), plain, Exprs(Declare(specs[1..])));
      assert Named(Places(d.names)) <= Assigned(Declare(specs));
      assert Assigned(Declare(specs[1..])) <= Assigned(Declare(specs));
      AssignInside(p, w, env, s, Plain, d.names, d.values, plain);
      var a := ApplyAssignment(p, env, s, Plain, d.names, d.values);
      if a.Applied? { SpecsInside(p, w, env, a.state, specs[1..], plain); }
    }
  }

  lemma HeaderInside(p: Program, w: set<Object>, env: Env, s: State, stmt: Option<Stmt>, plain: bool)
    requires Mentioned(p) <= w && StateInside(w, s) && EnvInside(w, env)
    requires stmt.Some? ==> Assigned(stmt.value) <= w && Known(w, Exprs(stmt.value), plain)
    ensures var a := ApplyHeader(p, env, s, stmt); a.Applied? ==> a.written <= w && StateInside(w, a.state)
    ensures plain ==> HeaderFits(p, env, s, stmt)
  {
    hide Mentioned, EnvInside, ApplyAssignment, ApplySpecs, Known, TargetOf, StateInside;
    match stmt
    case Some(Assign(kind, lhs, rhs)) => AssignInside(p, w, env, s, kind, lhs, rhs, plain);
    case Some(IncDec(_, place)) =>
      OneKnown(w, {place}, plain, place);
      PlaceInside(p, w, env, s, Place(place));
      if plain { PlainlyFits(p, env, s, place); }
      DependencyKeeps(w, s);
    case Some(Declare(specs)) => SpecsInside(p, w, env, s, specs, plain);
    case _ =>
  }

  // ----- control -----

  /** An answer that writes and tracks nothing outside, and whose scans fit if the program is plain. */
  predicate Stays(w: set<Object>, plain: bool, r: Result) {
    r.Done? ==>
      && r.written <= w && StateInside(w, r.state) && (forall b | b in r.returned :: BindingInside(w, b))
      && (plain ==> r.fits)
  }

  /** What every step starts from. */
  predicate Confined(p: Program, w: set<Object>, plain: bool, env: Env, s: State) {
    Mentioned(p) <= w && (plain ==> PlainlyIndexed(p)) && StateInside(w, s) && EnvInside(w, env)
  }

  lemma ExtendStays(w: set<Object>, plain: bool, a: Result, b: Result)
    requires a.Done? && Stays(w, plain, a) && Stays(w, plain, b)
    ensures Stays(w, plain, Extend(a, b))
  {
  }

  lemma BlockStays(
      p: Program, w: set<Object>, plain: bool, body: seq<Stmt>, env: Env, s: State, active: set<nat>, budget: nat)
    requires Confined(p, w, plain, env, s) && AssignedIn(body) <= w && Known(w, ExprsIn(body), plain)
    ensures Stays(w, plain, TransferBlock(p, body, env, s, active, budget))
    decreases budget, 2, |body|
  {
    hide Mentioned, PlainlyIndexed, StateInside, EnvInside, TransferStmt, Known, Assigned, Exprs;
    if body != [] && budget > 0 {
      SomeKnown(w, ExprsIn(body), plain, Exprs(body[0]));
      SomeKnown(w, ExprsIn(body), plain, ExprsIn(body[1..]));
      StmtStays(p, w, plain, body[0], |body| == 1, env, s, active, budget - 1);
      var first := TransferStmt(p, body[0], |body| == 1, env, s, active, budget - 1);
      if first.Done? {
        BlockStays(p, w, plain, body[1..], env, first.state, active, first.budget);
        ExtendStays(w, plain, first, TransferBlock(p, body[1..], env, first.state, active, first.budget));
      }
    }
  }

  lemma StmtStays(
      p: Program, w: set<Object>, plain: bool, stmt: Stmt, last: bool, env: Env, s: State, active: set<nat>,
      budget: nat)
    requires Confined(p, w, plain, env, s) && Assigned(stmt) <= w && Known(w, Exprs(stmt), plain)
    ensures Stays(w, plain, TransferStmt(p, stmt, last, env, s, active, budget))
    decreases budget, 6, 0
  {
    hide Mentioned, PlainlyIndexed, StateInside, EnvInside, TransferBlock, TransferCall, TransferLoop, TransferResults;
    hide ApplyHeader, HeaderFits, Known;
    match stmt
    case Assign(_, _, _) => HeaderInside(p, w, env, s, Some(stmt), plain);
    case IncDec(_, _) => HeaderInside(p, w, env, s, Some(stmt), plain);
    case Declare(_) => HeaderInside(p, w, env, s, Some(stmt), plain);
    case CallStmt(call) => CallStays(p, w, plain, call, env, s, active, budget);
    case Block(body) => BlockStays(p, w, plain, body, env, s, active, budget);
    case For(init, cond, post, body) =>
      LoopKnown(w, stmt, plain);
      LoopStays(p, w, plain, init, cond, post, body, env, s, active, budget);
    case Return(results) => ResultsStay(p, w, plain, results, env, s, active, budget);
    case _ =>
  }

  lemma LoopKnown(w: set<Object>, loop: Stmt, plain: bool)
    requires loop.For? && Known(w, Exprs(loop), plain)
    ensures loop.init.Some? ==> Known(w, Exprs(loop.init.value), plain)
    ensures loop.post.Some? ==> Known(w, Exprs(loop.post.value), plain)
    ensures Known(w, ExprsIn(loop.body), plain)
  {
    hide Known;
    if loop.init.Some? { SomeKnown(w, Exprs(loop), plain, Exprs(loop.init.value)); }
    if loop.post.Some? { SomeKnown(w, Exprs(loop), plain, Exprs(loop.post.value)); }
    SomeKnown(w, Exprs(loop), plain, ExprsIn(loop.body));
  }

  lemma {:induction false} ResultsStay(
      p: Program, w: set<Object>, plain: bool, results: seq<Operand>, env: Env, s: State, active: set<nat>,
      budget: nat)
    requires Confined(p, w, plain, env, s) && Known(w, ResultExprs(results), plain)
    ensures Stays(w, plain, TransferResults(p, results, env, s, active, budget))
    decreases budget, 5, |results|
  {
    hide Mentioned, PlainlyIndexed, StateInside, EnvInside, TransferCall, Known, Snapshot, ScanFits;
    if results != [] {
      var r := results[0];
      var own := OperandExprs(r);
      assert r in results && forall x | x in results[1..] :: x in results;
      SomeKnown(w, ResultExprs(results), plain, own);
      SomeKnown(w, ResultExprs(results), plain, ResultExprs(results[1..]));
      match r {
        case Value(e) => SnapshotInside(p, w, env, s, own, plain, e);
        case CallResult(call) => CallStays(p, w, plain, call, env, s, active, budget);
      }
      var first := TransferOperand(p, r, env, s, active, budget);
      if first.Done? {
        assert Stays(w, plain, first);
        ResultsStay(p, w, plain, results[1..], env, first.state, active, first.budget);
        ExtendStays(w, plain, first, TransferResults(p, results[1..], env, first.state, active, first.budget));
      }
    }
  }

  lemma SnapshotInside(p: Program, w: set<Object>, env: Env, s: State, es: set<Expr>, plain: bool, e: Expr)
    requires Mentioned(p) <= w && StateInside(w, s) && EnvInside(w, env) && Known(w, es, plain) && e in es
    ensures BindingInside(w, Snapshot(p, env, s, e)) && (plain ==> ScanFits(p, env, s, e))
  {
    hide Mentioned, StateInside, EnvInside, Resolve, ExprDependency, Known, Plainly, ScanFits;
    OneKnown(w, es, plain, e);
    ResolveInside(p, w, env, s, e, {});
    if plain { PlainlyFits(p, env, s, e); }
  }

  lemma LoopStays(
      p: Program, w: set<Object>, plain: bool, init: Option<Stmt>, cond: Option<Condition>, post: Option<Stmt>,
      body: seq<Stmt>, env: Env, s: State, active: set<nat>, budget: nat)
    requires Confined(p, w, plain, env, s)
    requires Assigned(For(init, cond, post, body)) <= w && AssignedIn(body) <= w && Known(w, ExprsIn(body), plain)
    requires init.Some? ==> Assigned(init.value) <= w && Known(w, Exprs(init.value), plain)
    requires post.Some? ==> Assigned(post.value) <= w && Known(w, Exprs(post.value), plain)
    ensures Stays(w, plain, TransferLoop(p, init, cond, post, body, env, s, active, budget))
    decreases budget, 5, 0
  {
    hide Mentioned, PlainlyIndexed, StateInside, EnvInside, TransferRounds, ApplyHeader, HeaderFits, Known,
      ExprDependency;
    HeaderInside(p, w, env, s, init, plain);
    var a := ApplyHeader(p, env, s, init);
    if a.Applied? {
      RoundsStay(p, w, plain, post, body, env, a.state, a.state, a.written, active, budget, LOOP_ROUNDS);
    }
  }

  lemma {:induction false} RoundsStay(
      p: Program, w: set<Object>, plain: bool, post: Option<Stmt>, body: seq<Stmt>, env: Env, entry: State,
      head: State, written: set<Object>, active: set<nat>, budget: nat, rounds: nat)
    requires Confined(p, w, plain, env, head) && StateInside(w, entry) && written <= w
    requires AssignedIn(body) <= w && Known(w, ExprsIn(body), plain)
    requires post.Some? ==> Assigned(post.value) <= w && Known(w, Exprs(post.value), plain)
    ensures Stays(w, plain, TransferRounds(p, post, body, env, entry, head, written, active, budget, rounds))
    decreases budget, 4, rounds
  {
    hide Mentioned, PlainlyIndexed, StateInside, EnvInside, TransferBlock, ApplyHeader, HeaderFits, Known, Union, Key;
    if rounds > 0 {
      BlockStays(p, w, plain, body, env, head, active, budget);
      var b := TransferBlock(p, body, env, head, active, budget);
      if b.Done? {
        HeaderInside(p, w, env, b.state, post, plain);
        var r := TransferRound(p, post, body, env, head, active, budget);
        if r.Done? {
          var merged := Union([entry, r.state]);
          UnionInside(w, [entry, r.state]);
          RoundsStay(p, w, plain, post, body, env, entry, merged, written + r.written, active, r.budget, rounds - 1);
        }
      }
    }
  }

  lemma UnionInside(w: set<Object>, states: seq<State>)
    requires forall s | s in states :: StateInside(w, s)
    ensures StateInside(w, Union(states))
  {
    var u := Union(states);
    forall o | o in Tracked(u) ensures AliasInside(w, Tracked(u)[o]) {
      if Tracked(u)[o].known {
        forall t | t in Tracked(u)[o].targets ensures t in w {
          var s :| s in states && o in Tracked(s) && t in Tracked(s)[o].targets;
          assert KnownIn(s, o) && AliasInside(w, Tracked(s)[o]);
        }
      }
    }
  }

  lemma CallStays(
      p: Program, w: set<Object>, plain: bool, call: Call, env: Env, s: State, active: set<nat>, budget: nat)
    requires Confined(p, w, plain, env, s) && Known(w, Members(call.args), plain)
    ensures Stays(w, plain, TransferCall(p, call, env, s, active, budget))
    decreases budget, 4, 0
  {
    hide Mentioned, PlainlyIndexed, StateInside, EnvInside, TransferCallees, Known, Snapshot, ScanFits, MergeReturns,
      Union;
    var bindings := Snapshots(p, env, s, call.args);
    forall i | 0 <= i < |call.args|
      ensures BindingInside(w, bindings[i]) && (plain ==> ScanFits(p, env, s, call.args[i]))
    {
      assert call.args[i] in Members(call.args);
      SnapshotInside(p, w, env, s, Members(call.args), plain, call.args[i]);
    }
    if budget > 0 {
      CalleesStay(p, w, plain, call.callees, bindings, env, s, active, budget - 1);
      var all := TransferCallees(p, call.callees, bindings, s, active, budget - 1);
      if all.CalleesDone? {
        UnionInside(w, all.outputs);
        if MergeReturns(all.returnSets).Some? { MergeInside(w, all.returnSets); }
      }
    }
  }

  predicate CalleesInside(w: set<Object>, plain: bool, r: CalleesResult) {
    r.CalleesDone? ==>
      && r.written <= w && (forall s | s in r.outputs :: StateInside(w, s)) && (plain ==> r.fits)
      && forall set', b | set' in r.returnSets && b in set' :: BindingInside(w, b)
  }

  lemma {:induction false} CalleesStay(
      p: Program, w: set<Object>, plain: bool, callees: seq<nat>, bindings: seq<Binding>, env: Env, s: State,
      active: set<nat>, budget: nat)
    requires Confined(p, w, plain, env, s) && forall b | b in bindings :: BindingInside(w, b)
    ensures CalleesInside(w, plain, TransferCallees(p, callees, bindings, s, active, budget))
    decreases budget, 3, |callees|
  {
    hide Mentioned, PlainlyIndexed, StateInside, EnvInside, TransferBlock, Known, BindingInside, BindEnv;
    if callees != [] && callees[0] < |p.functions| && callees[0] !in active {
      var k := callees[0];
      var f := p.functions[k];
      BodyMentioned(p, w, plain, k);
      BoundInside(w, f.params, bindings);
      BlockStays(p, w, plain, f.body, BindEnv(f.params, bindings), s, active + {k}, budget);
      var one := TransferBlock(p, f.body, BindEnv(f.params, bindings), s, active + {k}, budget);
      if one.Done? { CalleesStay(p, w, plain, callees[1..], bindings, env, s, active, one.budget); }
    }
  }

  lemma BodyMentioned(p: Program, w: set<Object>, plain: bool, k: nat)
    requires k < |p.functions| && Mentioned(p) <= w && (plain ==> PlainlyIndexed(p))
    ensures AssignedIn(p.functions[k].body) <= w && Known(w, ExprsIn(p.functions[k].body), plain)
  {
    forall o | o in AssignedIn(p.functions[k].body) ensures o in w { assert o in Mentioned(p); }
    forall o | o in TakenIn(ExprsIn(p.functions[k].body)) ensures o in w { assert o in Mentioned(p); }
  }

  lemma {:induction false} BoundInside(w: set<Object>, params: seq<Object>, bindings: seq<Binding>)
    requires forall b | b in bindings :: BindingInside(w, b)
    ensures EnvInside(w, BindEnv(params, bindings))
    decreases params
  {
    if params != [] && bindings != [] {
      assert bindings[0] in bindings;
      BoundInside(w, params[1..], bindings[1..]);
    }
  }

  lemma MergeInside(w: set<Object>, sets: seq<seq<Binding>>)
    requires MergeReturns(sets).Some? && forall r, b | r in sets && b in r :: BindingInside(w, b)
    ensures forall b | b in MergeReturns(sets).value :: BindingInside(w, b)
  {
    var merged := MergeReturns(sets).value;
    forall i | 0 <= i < |merged| ensures BindingInside(w, merged[i]) {
      var row := seq(|sets|, k requires 0 <= k < |sets| && SameArity(sets, |sets[0]|) => sets[k][i]);
      assert merged[i] == MergeBindings(row);
      forall b: Binding | b in row ensures BindingInside(w, b) {
        var k :| 0 <= k < |row| && row[k] == b;
        assert sets[k] in sets && b in sets[k];
      }
    }
  }

  // ----- before the call -----

  /** All that a call can write or retarget, as far as anyone can see before it. */
  function Reach(p: Program, call: Call, initial: State): set<Object> {
    Mentioned(p) + TakenIn(Members(call.args)) + Targets(initial)
  }

  /** Every answer writes within what can be read off the program, the arguments and the initial aliases. */
  lemma WrittenIsForeseen(p: Program, call: Call, initial: State)
    ensures var r := OrderedCall(p, call, initial);
            r.Done? ==> r.written <= Reach(p, call, initial) && Targets(r.state) <= Reach(p, call, initial)
  {
    hide Mentioned, TransferCall, PlainlyIndexed;
    var w := Reach(p, call, initial);
    var entry := initial.(aliases := Some(Tracked(initial)));
    TargetsInside(initial);
    assert StateInside(w, entry);
    CallStays(p, w, false, call, map[], entry, {}, CALL_BUDGET);
  }

  /** Where no index expression loads through a pointer, every scan fits. */
  lemma PlainProgramsFit(p: Program, call: Call, initial: State)
    requires PlainlyIndexed(p) && forall e | e in call.args :: Plainly(e)
    ensures var r := OrderedCall(p, call, initial); r.Done? ==> r.fits
  {
    hide Mentioned, TransferCall, PlainlyIndexed, Plainly;
    var w := Reach(p, call, initial);
    var entry := initial.(aliases := Some(Tracked(initial)));
    TargetsInside(initial);
    assert StateInside(w, entry);
    CallStays(p, w, true, call, map[], entry, {}, CALL_BUDGET);
  }

  /** The condition of the main theorem, decided before the call. */
  lemma MayStartBefore(p: Program, call: Call, initial: State)
    requires Anchored(p, Tracked(initial), Reach(p, call, initial) + Formals(p))
    requires OrderedCall(p, call, initial).Done?
    ensures MayStart(p, initial, OrderedCall(p, call, initial))
  {
    hide Anchored, OrderedCall, Reach;
    WrittenIsForeseen(p, call, initial);
    FewerAnchored(p, Tracked(initial), Reach(p, call, initial) + Formals(p),
                  OrderedCall(p, call, initial).written + Formals(p));
  }
}
