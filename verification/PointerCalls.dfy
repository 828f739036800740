/**
 The joint of the ordered transfer with conditions and switches at work: two
 leaves that call functions, of which one writes through a captured pointer and
 the other retargets it (checks/ps1006.go:435-525). All premises hold, and the
 calls are answered.
 */
module PointerCalls {
  import opened AliasResolution
  import opened CallLeaves
  import opened ConditionFlow
  import opened Confinement
  import opened DependencyState
  import opened GoBodies
  import OrderedLimits
  import opened OrderedSoundness
  import opened OrderedTransfer
  import opened Wrappers

  /** func() { *q = 0 } and func() { q = &c }, where q was given &b or &c. */
  predicate PointerProgram(p: Program, q: Object, b: Object, c: Object) {
    && q != b && q != c && b != c && p.inner !in {q, b, c}
    && p.depth(q) == 1 && p.depth(b) == 0 && p.depth(c) == 0
    && p.functions == [
         Function([], [Assign(Plain, [Place(Deref(Var(q)))], [Literal(0)])]),
         Function([], [Assign(Plain, [Place(Var(q))], [AddressOf(c)])])]
    && p.values == map[q := [AddressOf(b), AddressOf(c)]]
  }

  /** Leaf 0 calls the first function and leaf 1 the second. */
  function TwoCalls(): Callables {
    (l: Leaf) => if l < 2 then Some(Call([l], [])) else None
  }

  function StraightPaths(): (Leaf, Store) -> Path {
    (l: Leaf, m: Store) => Enter(l, [Step])
  }

  function Forget(q: Object, s: State): State {
    if s.aliases.Some? then s.(aliases := Some(Tracked(s)[q := UNKNOWN_ALIAS])) else s
  }

  /** The first call changes nothing the state speaks of; the second makes q unknown. */
  function Conservative(p: Program, q: Object): Oracle {
    var idle := Oracle((l: Leaf, s: State) => if l == 1 then Forget(q, s) else s, (l: Leaf) => None,
                       (l: Leaf, m: Store) => Some((m, false)), (l: Leaf) => false, (l: Leaf) => l < 2);
    Running(p, idle, TwoCalls(), StraightPaths())
  }

  function Beginning(p: Program, q: Object, b: Object, c: Object): Ground {
    Ground(p, State({}, map[], Some(map[])), {q, b, c})
  }

  lemma StoreRuns(p: Program, q: Object, b: Object, c: Object, m: Store)
    requires PointerProgram(p, q, b, c)
    ensures RunCall(p, Call([0], []), Enter(0, [Step]), m) ==
            if Load(m, q).value.Ref? then Returned(m[Load(m, q).value.target := Cell(Num(0), false, false)], [])
            else Stuck
  {
    var place, zero := Place(Deref(Var(q))), Cell(Num(0), false, false);
    assert Eval(p, m, Var(q)) == Some(Load(m, q));
    assert EvalAll(p, m, []) == Some([]) && BindParams(m, [], []) == m;
    assert EvalAll(p, m, [Literal(0)]).value == [zero];
    var target := PlaceOf(p, m, place);
    assert PlacesOf(p, m, [place]) == [target];
    var body := p.functions[0].body;
    if target.At? { WriteOne(p, m, target.obj, zero); }
    assert RunHeader(p, m, Some(body[0])) == WriteAll(p, m, [target], [zero]);
    assert body[1..] == [] && [Step][1..] == [];
    OneStep(p, body, m, RunHeader(p, m, Some(body[0])));
  }

  lemma RetargetRuns(p: Program, q: Object, b: Object, c: Object, m: Store)
    requires PointerProgram(p, q, b, c)
    ensures RunCall(p, Call([1], []), Enter(1, [Step]), m) == Returned(m[q := Cell(Ref(c), false, false)], [])
  {
    var cell := Cell(Ref(c), false, false);
    assert EvalAll(p, m, []) == Some([]) && BindParams(m, [], []) == m;
    assert EvalAll(p, m, [AddressOf(c)]).value == [cell];
    assert PlacesOf(p, m, [Place(Var(q))]) == [At(q)];
    WriteOne(p, m, q, cell);
    var body := p.functions[1].body;
    assert RunHeader(p, m, Some(body[0])) == Some(m[q := cell]);
    OneStep(p, body, m, Some(m[q := cell]));
  }

  lemma WriteOne(p: Program, m: Store, o: Object, c: Cell)
    ensures WriteAll(p, m, [At(o)], [c]) == if Fits(p, o, c) then Some(m[o := c]) else None
  {
    assert [At(o)][1..] == [] && [c][1..] == [];
    assert WriteAll(p, m[o := c], [], []) == Some(m[o := c]);
  }

  lemma OneStep(p: Program, body: seq<Stmt>, m: Store, end: Option<Store>)
    requires |body| == 1 && body[0].Assign? && RunHeader(p, m, Some(body[0])) == end
    ensures RunBlock(p, body, [Step], m) == NextOrStuck(end)
  {
    assert body[1..] == [] && [Step][1..] == [];
    if end.Some? { assert RunBlock(p, [], [], end.value) == Next(end.value); }
  }

  lemma BeginningIsPrepared(p: Program, q: Object, b: Object, c: Object)
    requires PointerProgram(p, q, b, c)
    ensures Prepared(Beginning(p, q, b, c)) && PlainlyIndexed(p)
    ensures AtStart(Beginning(p, q, b, c), q) == Alias({b, c}, true)
  {
    var none: Aliases := map[];
    var env: Env := map[];
    var free := {q, b, c};
    assert forall o: Object :: !IsFormal(p, o);
    ValuesOf(p, q, b, c);
    assert Anchored(p, none, free);
    NamesOf(p, q, b, c);
    ScopesOf(p, q, b, c);
  }

  lemma ValuesOf(p: Program, q: Object, b: Object, c: Object)
    requires PointerProgram(p, q, b, c)
    ensures ResolveObject(p, map[], map[], q, {}) == Alias({b, c}, true)
    ensures Expand(p, map[], {q, b, c}, q, {}) == Alias({b, c}, true)
  {
    var none: Aliases := map[];
    var env: Env := map[];
    var more := {} + {q};
    assert AddressOf(b) in p.values[q] && AddressOf(c) in p.values[q];
    var free := {q, b, c};
    assert Resolve(p, env, none, AddressOf(b), more) == Without(p, none, free, AddressOf(b), more) == Alias({b}, true);
    assert Resolve(p, env, none, AddressOf(c), more) == Without(p, none, free, AddressOf(c), more) == Alias({c}, true);
    var r, x := ResolveObject(p, env, none, q, {}), Expand(p, none, {q, b, c}, q, {});
    assert b in r.targets && c in r.targets && b in x.targets && c in x.targets;
    assert r.targets == {b, c} && x.targets == {b, c};
  }

  /** What a body of one assignment names. */
  lemma OneAssignment(body: seq<Stmt>, e: Expr, x: Expr)
    requires body == [Assign(Plain, [Place(e)], [x])]
    ensures ExprsIn(body) == {e, x} && AssignedIn(body) == if e.Var? then {e.obj} else {}
    ensures TakenIn(ExprsIn(body)) == Taken(e) + Taken(x)
  {
    assert body[1..] == [] && Place(e) in [Place(e)] && x in [x];
    assert Places([Place(e)]) == {e} && Members([x]) == {x};
    assert ExprsIn([]) == {} && AssignedIn([]) == {};
    assert Named({e}) == if e.Var? then {e.obj} else {};
    assert ExprsIn(body) == {e, x};
    assert TakenIn({e, x}) == Taken(e) + Taken(x);
  }

  lemma NamesOf(p: Program, q: Object, b: Object, c: Object)
    requires PointerProgram(p, q, b, c)
    ensures Mentioned(p) <= {q, b, c} && PlainlyIndexed(p)
  {
    hide AssignedIn, ExprsIn, Mentioned;
    OneAssignment(p.functions[0].body, Deref(Var(q)), Literal(0));
    OneAssignment(p.functions[1].body, Var(q), AddressOf(c));
    assert Taken(Var(q)) == {} && Plainly(Var(q));
    assert Taken(Deref(Var(q))) == {} && Plainly(Deref(Var(q)));
    OnlyThese(p, q, b, c);
  }

  lemma OnlyThese(p: Program, q: Object, b: Object, c: Object)
    requires |p.functions| == 2 && p.values == map[q := [AddressOf(b), AddressOf(c)]]
    requires forall f | 0 <= f < 2 ::
               AssignedIn(p.functions[f].body) <= {q, b, c} && TakenIn(ExprsIn(p.functions[f].body)) <= {q, b, c}
    ensures Mentioned(p) <= {q, b, c}
  {
    hide AssignedIn, ExprsIn;
    forall o | o in TakenIn(Members(p.values[q])) ensures o in {b, c} {}
  }

  lemma ScopesOf(p: Program, q: Object, b: Object, c: Object)
    requires PointerProgram(p, q, b, c)
    ensures WellFormed(p)
  {
    assert forall o: Object :: !IsFormal(p, o);
    forall f | 0 <= f < |p.functions| ensures ScopedBody(p, Params(p, f), p.functions[f].body, Whole) {
      var body := p.functions[f].body;
      assert body[1..] == [];
      assert Scoped(p, Params(p, f), Deref(Var(q))) by { assert Scoped(p, Params(p, f), Var(q)); }
      assert ScopedStmt(p, Params(p, f), body[0], Whole, true);
    }
  }

  lemma CellKeepsDescription(g: Ground, s: State, t: State, m: Store, o: Object, c: Cell)
    requires Describes(g, s, m) && StateInside(g.free, t) && Retargets(Tracked(g.start), Tracked(t), g.free)
    requires s.deps == t.deps && s.strideDeps == t.strideDeps
    requires forall x: Object | x != o :: Described(g, t, x) == Described(g, s, x)
    requires !c.data && !c.stride && PointerCovered(c, Described(g, t, o)) && PointsWell(g.p, c, g.p.depth(o))
    ensures Describes(g, t, m[o := c])
  {
    hide ObjectTargets, Retargets, Described, StateInside;
    forall x: Object ensures Load(m[o := c], x) == if x == o then c else Load(m, x) {}
    forall x: Object ensures ObjectDependency(g.p, s, x) == ObjectDependency(g.p, t, x) {}
  }

  lemma ForgetKeeps(g: Ground, q: Object, s: State, m: Store)
    requires Describes(g, s, m) && q in g.free
    ensures StateInside(g.free, Forget(q, s)) && Retargets(Tracked(g.start), Tracked(Forget(q, s)), g.free)
    ensures forall x: Object | x != q :: Described(g, Forget(q, s), x) == Described(g, s, x)
    ensures s.aliases.Some? ==> !Described(g, Forget(q, s), q).known
  {
    hide ObjectTargets;
  }

  /** The premises of the combination are met by calls that write through and retarget a captured pointer. */
  lemma PointerCallsAreJoined(p: Program, q: Object, b: Object, c: Object)
    requires PointerProgram(p, q, b, c)
    ensures var g := Beginning(p, q, b, c);
            Trusted(g, Conservative(p, q)) && Joined(g, Conservative(p, q), TwoCalls(), StraightPaths())
  {
    hide RunCall, OrderedCall, Describes, Prepared, StateInside, AtStart;
    var g, o := Beginning(p, q, b, c), Conservative(p, q);
    BeginningIsPrepared(p, q, b, c);
    forall l: Leaf, s: State, m: Store | Describes(g, s, m) && o.run(l, m).Some?
      ensures Describes(g, o.apply(l, s), o.run(l, m).value.0)
      ensures l < 2 && s.aliases.None? ==>
                forall x: Object | !IsFormal(p, x) :: PointerCovered(Load(o.run(l, m).value.0, x), AtStart(g, x))
    {
      if l < 2 { PointerLeaf(p, q, b, c, l, s, m); }
    }
    ForgettingStaysInside(g, q);
    forall l: Leaf, s: State | TwoCalls()(l).Some?
      ensures var r := OrderedCall(p, TwoCalls()(l).value, s); r.Done? ==> r.fits
    {
      PlainProgramsFit(p, TwoCalls()(l).value, s);
    }
    forall l: Leaf, m: Store ensures AtMost(StraightPaths()(l, m), LOOP_ROUNDS) {
      StraightIsShort(l);
    }
    RunsHere(g, q);
  }

  lemma StraightIsShort(l: Leaf)
    ensures AtMost(Enter(l, [Step]), LOOP_ROUNDS)
  {
    assert [Step][1..] == [] && AtMost(Step, LOOP_ROUNDS);
  }

  lemma RunsHere(g: Ground, q: Object)
    ensures RunsAsCalls(g, Conservative(g.p, q), TwoCalls(), StraightPaths())
  {
    hide RunCall;
  }

  lemma ForgettingStaysInside(g: Ground, q: Object)
    ensures forall s: State | StateInside(g.free, s) :: StateInside(g.free, Forget(q, s))
  {
  }

  /** One leaf of the two, and the pointers it leaves. */
  lemma PointerLeaf(p: Program, q: Object, b: Object, c: Object, l: Leaf, s: State, m: Store)
    requires PointerProgram(p, q, b, c) && l < 2
    requires var g := Beginning(p, q, b, c); Describes(g, s, m) && Conservative(p, q).run(l, m).Some?
    ensures var g, o := Beginning(p, q, b, c), Conservative(p, q);
            && Describes(g, o.apply(l, s), o.run(l, m).value.0)
            && (s.aliases.None? ==>
                  forall x: Object | !IsFormal(p, x) :: PointerCovered(Load(o.run(l, m).value.0, x), AtStart(g, x)))
  {
    hide RunCall, ObjectTargets, Resolve, ResolveObject, Mentioned, WellFormed, Anchored;
    var g, o := Beginning(p, q, b, c), Conservative(p, q);
    BeginningIsPrepared(p, q, b, c);
    assert forall x: Object :: !IsFormal(p, x);
    if l == 0 {
      StoreRuns(p, q, b, c, m);
      CellKeepsDescription(g, s, s, m, Load(m, q).value.target, Cell(Num(0), false, false));
    } else {
      RetargetRuns(p, q, b, c, m);
      ForgetKeeps(g, q, s, m);
      CellKeepsDescription(g, s, Forget(q, s), m, q, Cell(Ref(c), false, false));
    }
    UntrackedAtStart(g, o.apply(l, s), o.run(l, m).value.0);
  }

  lemma UntrackedAtStart(g: Ground, s: State, m: Store)
    requires Describes(g, s, m)
    ensures s.aliases.None? ==> forall x: Object | !IsFormal(g.p, x) :: PointerCovered(Load(m, x), AtStart(g, x))
  {
    hide ObjectTargets;
  }

  /** And such a call is answered, for whatever object q is known to point to. */
  lemma PointerCallsAreAnswered(p: Program, q: Object, b: Object, c: Object, x: Object)
    requires PointerProgram(p, q, b, c) && x in {b, c}
    ensures var g, s := Beginning(p, q, b, c), State({x}, map[], Some(map[q := Alias({x}, true)]));
            var m: Store := map[q := Cell(Ref(x), false, false), x := Cell(Num(1), true, false)];
            var r := OrderedCall(p, Call([0], []), s);
            && Describes(g, s, m) && Conservative(p, q).run(0, m).Some?
            && r.Done? && r.written == {x} && r.state.deps == {}
  {
    hide OrderedCall, RunCall, Anchored;
    var g, s := Beginning(p, q, b, c), State({x}, map[], Some(map[q := Alias({x}, true)]));
    var m: Store := map[q := Cell(Ref(x), false, false), x := Cell(Num(1), true, false)];
    BeginningIsPrepared(p, q, b, c);
    assert forall o: Object :: !IsFormal(p, o);
    StoreRuns(p, q, b, c, m);
    assert Describes(g, s, m) by { TrackedDescribes(p, q, b, c, x); }
    StoreAnswered(p, q, b, c, x);
  }

  lemma TrackedDescribes(p: Program, q: Object, b: Object, c: Object, x: Object)
    requires PointerProgram(p, q, b, c) && x in {b, c}
    ensures var g, s := Beginning(p, q, b, c), State({x}, map[], Some(map[q := Alias({x}, true)]));
            var m: Store := map[q := Cell(Ref(x), false, false), x := Cell(Num(1), true, false)];
            Describes(g, s, m)
  {
    hide ObjectTargets;
    assert forall o: Object :: !IsFormal(p, o);
    var m: Store := map[q := Cell(Ref(x), false, false), x := Cell(Num(1), true, false)];
    forall o: Object
      ensures Load(m, o) == if o == q then m[q] else if o == x then m[x] else Cell(Num(0), false, false) {}
  }

  lemma StoreAnswered(p: Program, q: Object, b: Object, c: Object, x: Object)
    requires PointerProgram(p, q, b, c) && x in {b, c}
    ensures var s := State({x}, map[], Some(map[q := Alias({x}, true)]));
            var r := OrderedCall(p, Call([0], []), s);
            r.Done? && r.written == {x} && r.state.deps == {}
  {
    hide Resolve, ResolveObject, ApplyAssignment, TransferCall, OrderedCall;
    var s := State({x}, map[], Some(map[q := Alias({x}, true)]));
    var after := State({}, map[], s.aliases);
    var body := p.functions[0].body;
    var env: Env := map[];
    StoreApplied(p, q, x);
    assert ScanFits(p, env, s, Deref(Var(q))) by { assert ScanFits(p, env, s, Var(q)); }
    assert TransferStmt(p, body[0], true, env, s, {0}, 510) == Done(after, {x}, [], 510, true, true);
    assert body[1..] == [] && s.(aliases := Some(Tracked(s))) == s && {x} + {} == {x};
    assert TransferBlock(p, [], env, after, {0}, 510) == Done(after, {}, [], 510, true, true);
    assert TransferBlock(p, body, env, s, {0}, 511) == Done(after, {x}, [], 510, true, true);
    OrderedLimits.CallOfBody(p, s, Done(after, {x}, [], 510, true, true));
  }

  lemma StoreApplied(p: Program, q: Object, x: Object)
    requires q != x && p.inner !in {q, x}
    ensures var s := State({x}, map[], Some(map[q := Alias({x}, true)]));
            ApplyAssignment(p, map[], s, Plain, [Place(Deref(Var(q)))], [Literal(0)]) ==
            Applied(State({}, map[], s.aliases), {x})
  {
    var s := State({x}, map[], Some(map[q := Alias({x}, true)]));
    var env: Env := map[];
    assert ResolveObject(p, env, Tracked(s), q, {}) == Alias({x}, true);
    assert PointerTargets(p, env, s, Var(q)) == Alias({x}, true);
    SoleIsUnique({x});
    var targets := TargetsOf(p, env, s, [Place(Deref(Var(q)))]);
    assert targets == [At(x)];
    var stored := StoredAll(p, env, s, targets, [Literal(0)]);
    assert stored == [Binding(CLEAN, None)];
    assert At(x) in targets && Objects(targets) == {x};
    assert SetDependency(s, x, CLEAN) == State({}, map[], s.aliases);
    assert SetAll(s, targets, stored) == SetDependency(s, x, CLEAN);
  }
}
