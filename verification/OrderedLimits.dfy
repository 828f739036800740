/**
 Where the ordered transfer answers and is wrong: each lemma gives an input or
 the exact condition. These are the reasons for the conditions of
 OrderedSoundness.ScopedStmt and MayStart, and for the bound of eight rounds.
 */
module OrderedLimits {
  import opened AliasResolution
  import opened DependencyState
  import opened GoBodies
  import opened OrderedTransfer
  import opened OrderedSoundness
  import Products
  import opened Wrappers

  // ----- the address of a formal (checks/ps1006.go:1653-1662) -----

  /**
   `*(&o) = e` resolves to o and marks it, yet a later read of a formal still
   returns the snapshot. So the answer covers every value the assignment may
   store exactly when o is no formal, or the snapshot already promises as much.
   */
  lemma FormalWriteCovered(p: Program, env: Env, s: State, o: Object, e: Expr)
    requires ExprDependency(p, env, s, e).known
    ensures var a := ApplyAssignment(p, env, s, Plain, [Place(Deref(AddressOf(o)))], [e]);
            && a.Applied? && o in a.written
            && var d, later := ExprDependency(p, env, s, e), ExprDependency(p, env, a.state, Var(o));
               (forall c | CellCovered(c, d) :: CellCovered(c, later)) <==>
                 o !in env || !env[o].dependency.known ||
                 ((d.derived ==> env[o].dependency.derived) && (d.stride ==> env[o].dependency.stride))
  {
    var lhs := [Place(Deref(AddressOf(o)))];
    var targets := TargetsOf(p, env, s, lhs);
    SoleIsUnique({o});
    assert TargetOf(p, env, s, lhs[0]) == At(o);
    assert targets == [At(o)];
    var stored := StoredAll(p, env, s, targets, [e]);
    assert stored == [Stored(p, env, s, At(o), e)];
    var d := ExprDependency(p, env, s, e);
    var a := ApplyAssignment(p, env, s, Plain, lhs, [e]);
    assert a.state == SetAll(s, targets, stored);
    assert SetAll(s, targets, stored) == SetAlias(SetDependency(s, o, d), o, stored[0].pointer);
    assert At(o) in targets;
    var later := ExprDependency(p, env, a.state, Var(o));
    var full := Cell(Num(0), d.derived, d.stride);
    assert CellCovered(full, d);
    if o in env && env[o].dependency.known {
      assert later == env[o].dependency;
    }
  }

  // ----- a dereference inside an index expression (checks/ps1006.go:1774-1789) -----

  /** Objects `q` may point to, as far as the state tells. */
  predicate MayPointTo(p: Program, s: State, q: Object, y: Object) {
    && p.depth(y) + 1 == p.depth(q) && !IsFormal(p, y)
    && (ObjectTargets(p, map[], s, q).known ==> y in ObjectTargets(p, map[], s, q).targets)
  }

  /** Every store the state describes gets the right answer for `e`. */
  ghost predicate AlwaysCovered(p: Program, s: State, e: Expr) {
    forall store | CoversNow(p, s, store) && Typed(p, store) && Eval(p, store, e).Some? ::
      CellCovered(Eval(p, store, e).value, ExprDependency(p, map[], s, e))
  }

  /**
   The scan of `a[*q]` reads the names a and q only. It covers every described
   store exactly when no object q may point to has a flag the scan lacks; with
   known targets of the right type, exactly when what a load through q is said
   to bring is below what the scan says.
   */
  lemma IndexCoveredIff(p: Program, s: State, a: Object, q: Object)
    requires !IsFormal(p, a) && !IsFormal(p, q)
    ensures var e := Index(Var(a), Deref(Var(q)));
            var scanned, targets := ExprDependency(p, map[], s, e), ObjectTargets(p, map[], s, q);
            && (AlwaysCovered(p, s, e) <==>
                forall y | MayPointTo(p, s, q, y) :: FlagsBelow(ObjectDependency(p, s, y), scanned))
            && (targets.known && targets.targets != {}
                && (forall y | y in targets.targets :: MayPointTo(p, s, q, y)) ==>
                (AlwaysCovered(p, s, e) <==> FlagsBelow(ExprDependency(p, map[], s, Deref(Var(q))), scanned)))
  {
    hide Resolve, ResolveObject, AlwaysCovered;
    var e := Index(Var(a), Deref(Var(q)));
    ScanOfTwo(p, s, a, q);
    if AlwaysCovered(p, s, e) {
      forall y | MayPointTo(p, s, q, y) ensures FlagsBelow(ObjectDependency(p, s, y), ExprDependency(p, map[], s, e)) {
        PointedTo(p, s, a, q, y);
      }
    } else {
      NotPointedTo(p, s, a, q);
    }
    LoadsTargets(p, s, q);
  }

  lemma ScanOfTwo(p: Program, s: State, a: Object, q: Object)
    ensures ExprDependency(p, map[], s, Index(Var(a), Deref(Var(q)))) ==
            Either(ObjectDependency(p, s, a), ObjectDependency(p, s, q))
  {
    var none: Env := map[];
    assert Identifiers(Var(a)) + Identifiers(Deref(Var(q))) == [a, q];
    assert [a, q][1..] == [q] && [q][1..] == [];
    assert Scan(p, none, s, []) == CLEAN;
    assert Scan(p, none, s, [q]) == ObjectDependency(p, s, q);
  }

  lemma LoadsTargets(p: Program, s: State, q: Object)
    ensures var targets := ObjectTargets(p, map[], s, q);
            targets.known && targets.targets != {} ==>
              ExprDependency(p, map[], s, Deref(Var(q))) == Dependency(
                exists t | t in targets.targets :: ObjectDependency(p, s, t).derived,
                exists t | t in targets.targets :: ObjectDependency(p, s, t).stride, true)
  {
    hide ResolveObject;
    assert PointerTargets(p, map[], s, Var(q)) == ObjectTargets(p, map[], s, q);
  }

  lemma EvalOfTwo(p: Program, store: Store, a: Object, q: Object)
    ensures var e, at := Eval(p, store, Index(Var(a), Deref(Var(q)))), Load(store, q).value;
            && (e.Some? <==> at.Ref?)
            && (at.Ref? ==> e.value.data == (Load(store, a).data || Load(store, at.target).data)
                            && e.value.stride == (Load(store, a).stride || Load(store, at.target).stride))
  {
    assert Eval(p, store, Var(q)) == Some(Load(store, q));
    assert Eval(p, store, Deref(Var(q))) ==
           if Load(store, q).value.Ref? then Some(Load(store, Load(store, q).value.target)) else None;
  }

  /** A store in which q points to y, and y holds what the state lets it hold. */
  lemma PointedTo(p: Program, s: State, a: Object, q: Object, y: Object)
    requires !IsFormal(p, a) && !IsFormal(p, q) && MayPointTo(p, s, q, y)
    requires AlwaysCovered(p, s, Index(Var(a), Deref(Var(q))))
    ensures FlagsBelow(ObjectDependency(p, s, y), ExprDependency(p, map[], s, Index(Var(a), Deref(Var(q)))))
  {
    hide Resolve, ResolveObject, ExprDependency;
    var e := Index(Var(a), Deref(Var(q)));
    var d := ObjectDependency(p, s, y);
    var store: Store := map[q := Cell(Ref(y), false, false), y := Cell(Num(0), d.derived, d.stride)];
    forall o: Object ensures Load(store, o) ==
      if o == y then store[y] else if o == q then store[q] else Cell(Num(0), false, false) {}
    assert CoversNow(p, s, store);
    assert Typed(p, store);
    EvalOfTwo(p, store, a, q);
    assert Eval(p, store, e).Some?;
    assert CellCovered(Eval(p, store, e).value, ExprDependency(p, map[], s, e));
    ScanOfTwo(p, s, a, q);
  }

  lemma NotPointedTo(p: Program, s: State, a: Object, q: Object)
    requires !IsFormal(p, a) && !IsFormal(p, q) && !AlwaysCovered(p, s, Index(Var(a), Deref(Var(q))))
    ensures exists y :: MayPointTo(p, s, q, y) &&
              !FlagsBelow(ObjectDependency(p, s, y), ExprDependency(p, map[], s, Index(Var(a), Deref(Var(q)))))
  {
    hide Resolve, ResolveObject, ExprDependency;
    var e := Index(Var(a), Deref(Var(q)));
    ScanOfTwo(p, s, a, q);
    var store :| CoversNow(p, s, store) && Typed(p, store) && Eval(p, store, e).Some?
                 && !CellCovered(Eval(p, store, e).value, ExprDependency(p, map[], s, e));
    EvalOfTwo(p, store, a, q);
    var y := Load(store, q).value.target;
    assert PointsWell(p, Load(store, q), p.depth(q));
    assert MayPointTo(p, s, q, y);
  }

  // ----- an untracked copy of a retargeted pointer (checks/ps1006.go:1905-1934) -----

  /** q = &b; *c = 0 */
  function RetargetAndStore(q: Object, b: Object, c: Object): seq<Stmt> {
    [Assign(Plain, [Place(Var(q))], [AddressOf(b)]), Assign(Plain, [Place(Deref(Var(c)))], [Literal(0)])]
  }

  /** Before the loop q := &a and c := q, and the alias map is empty. */
  predicate CopiedPointer(p: Program, q: Object, a: Object, b: Object, c: Object) {
    && q != a && q != b && q != c && a != b && a != c && b != c && p.inner !in {q, a, b, c}
    && p.functions == [Function([], RetargetAndStore(q, b, c))]
    && p.values == map[q := [AddressOf(a)], c := [Var(q)]]
    && p.depth(q) == 1 && p.depth(c) == 1 && p.depth(a) == 0 && p.depth(b) == 0
  }

  /** q and c point to a, and b holds loop data. */
  function CopyStore(q: Object, a: Object, b: Object, c: Object): Store {
    map[q := Cell(Ref(a), false, false), c := Cell(Ref(a), false, false), b := Cell(Num(1), true, false)]
  }

  const CallOfFirst := Call([0], [])

  function Marked(b: Object): State {
    State({b}, map[], Some(map[]))
  }

  /**
   c still points to a when q has been retargeted to b, but resolves to b. So
   the transfer clears b, which keeps its loop data. The condition that rules
   this out fails, since q stands in the value chain of c.
   */
  lemma RetargetedCopyIsMissed(p: Program, q: Object, a: Object, b: Object, c: Object)
    requires CopiedPointer(p, q, a, b, c)
    ensures var s, store := Marked(b), CopyStore(q, a, b, c);
            var r, out := OrderedCall(p, CallOfFirst, s), RunCall(p, CallOfFirst, Enter(0, [Step, Step]), store);
            && CoversNow(p, s, store) && Typed(p, store)
            && r.Done? && r.settled && r.fits && out.Returned?
            && ObjectTargets(p, map[], s, c) == Alias({a}, true)
               && ObjectTargets(p, map[], r.state, c) == Alias({b}, true)
            && Load(out.store, c).value == Ref(a) && Load(out.store, b).data && b !in r.state.deps
            && !MayStart(p, s, r)
  {
    hide Anchored, OrderedCall, RunCall, CoversNow, Typed, ResolveObject, CopyStore;
    ResolvesAtStart(p, q, a, b, c);
    ResolvesLater(p, q, a, b, c);
    CopyTransferred(p, q, a, b, c);
    CopyRuns(p, q, a, b, c);
    CopyStarts(p, q, a, b, c);
    CopyNotAnchored(p, q, a, b, c);
  }

  lemma SoleValue(p: Program, aliases: Aliases, o: Object, v: Expr, t: Object, seen: set<Object>)
    requires o in p.values && p.values[o] == [v] && o !in seen && o !in aliases
    requires Resolve(p, map[], aliases, v, seen + {o}) == Alias({t}, true)
    ensures ResolveObject(p, map[], aliases, o, seen) == Alias({t}, true)
  {
    hide Resolve;
    var env: Env := map[];
    var more := seen + {o};
    assert v in p.values[o];
    var r := ResolveObject(p, env, aliases, o, seen);
    assert t in Resolve(p, env, aliases, v, more).targets && t in r.targets;
    forall x | x in r.targets ensures x == t {
      var u :| u in p.values[o] && x in Resolve(p, env, aliases, u, more).targets;
    }
    assert r.targets == {t};
  }

  lemma ResolvesAtStart(p: Program, q: Object, a: Object, b: Object, c: Object)
    requires CopiedPointer(p, q, a, b, c)
    ensures ResolveObject(p, map[], map[], q, {}) == Alias({a}, true)
    ensures ResolveObject(p, map[], map[], c, {}) == Alias({a}, true)
  {
    var env: Env := map[];
    var none: Aliases := map[];
    assert Resolve(p, env, none, AddressOf(a), {} + {q}) == Alias({a}, true);
    SoleValue(p, none, q, AddressOf(a), a, {});
    assert Resolve(p, env, none, AddressOf(a), {} + {c} + {q}) == Alias({a}, true);
    SoleValue(p, none, q, AddressOf(a), a, {} + {c});
    assert Resolve(p, env, none, Var(q), {} + {c}) == Alias({a}, true);
    SoleValue(p, none, c, Var(q), a, {});
  }

  lemma ResolvesLater(p: Program, q: Object, a: Object, b: Object, c: Object)
    requires CopiedPointer(p, q, a, b, c)
    ensures ResolveObject(p, map[], map[q := Alias({b}, true)], c, {}) == Alias({b}, true)
  {
    var env: Env := map[];
    var later := map[q := Alias({b}, true)];
    assert ResolveObject(p, env, later, q, {} + {c}) == Alias({b}, true);
    assert Resolve(p, env, later, Var(q), {} + {c}) == Alias({b}, true);
    SoleValue(p, later, c, Var(q), b, {});
  }

  lemma CopyStarts(p: Program, q: Object, a: Object, b: Object, c: Object)
    requires CopiedPointer(p, q, a, b, c)
    ensures CoversNow(p, Marked(b), CopyStore(q, a, b, c)) && Typed(p, CopyStore(q, a, b, c))
  {
    hide ResolveObject;
    ResolvesAtStart(p, q, a, b, c);
    forall o: Object ensures PointsWell(p, Load(CopyStore(q, a, b, c), o), p.depth(o)) { assert !IsFormal(p, a); }
  }

  lemma CopyNotAnchored(p: Program, q: Object, a: Object, b: Object, c: Object)
    requires CopiedPointer(p, q, a, b, c)
    ensures forall free | q in free :: !Anchored(p, map[], free)
  {
    hide ResolveObject;
    ResolvesAtStart(p, q, a, b, c);
    var none: map<Object, Alias> := map[];
    forall free | q in free ensures !Anchored(p, map[], free) {
      assert Without(p, none, free, Var(q), {} + {c}) == Alias({}, true);
      assert Expand(p, none, free, c, {}).known && a !in Expand(p, none, free, c, {}).targets;
      assert c !in Formals(p);
    }
  }

  lemma CopyTransferred(p: Program, q: Object, a: Object, b: Object, c: Object)
    requires CopiedPointer(p, q, a, b, c)
    ensures var r := OrderedCall(p, CallOfFirst, Marked(b));
            && r.Done? && r.settled && r.fits && b !in r.state.deps
            && r.state.aliases == Some(map[q := Alias({b}, true)]) && r.written == {q, b}
  {
    hide ResolveObject, Resolve, ApplyAssignment, OrderedCall, TransferCall, TransferLoop, TransferResults;
    var env: Env := map[];
    var body := RetargetAndStore(q, b, c);
    var s := State({b}, map[], Some(map[]));
    var s1 := State({b}, map[], Some(map[q := Alias({b}, true)]));
    var s2 := State({}, map[], Some(map[q := Alias({b}, true)]));
    RetargetApplies(p, q, b, s);
    StoreApplies(p, q, a, b, c, s1);
    assert body[1..] == [body[1]] && body[1..][1..] == [];
    assert ScanFits(p, env, s1, Deref(Var(c)));
    assert TransferStmt(p, body[1], true, env, s1, {0}, 509) == Done(s2, {b}, [], 509, true, true);
    assert TransferBlock(p, body[1..][1..], env, s2, {0}, 509) == Done(s2, {}, [], 509, true, true);
    assert TransferBlock(p, body[1..], env, s1, {0}, 510) == Done(s2, {b}, [], 509, true, true) by {
      assert {b} + {} == {b};
    }
    assert TransferStmt(p, body[0], false, env, s, {0}, 510) == Done(s1, {q}, [], 510, true, true);
    assert TransferBlock(p, body, env, s, {0}, 511) == Done(s2, {q, b}, [], 509, true, true) by {
      assert {q} + {b} == {q, b};
    }
    CallOfBody(p, s, Done(s2, {q, b}, [], 509, true, true));
  }

  lemma RetargetApplies(p: Program, q: Object, b: Object, s: State)
    requires p.depth(q) == 1 && p.depth(b) == 0 && q != b && p.inner !in {q, b} && s == State({b}, map[], Some(map[]))
    ensures ApplyAssignment(p, map[], s, Plain, [Place(Var(q))], [AddressOf(b)]) ==
            Applied(State({b}, map[], Some(map[q := Alias({b}, true)])), {q})
  {
    var env: Env := map[];
    var targets := TargetsOf(p, env, s, [Place(Var(q))]);
    assert targets == [At(q)];
    var stored := StoredAll(p, env, s, targets, [AddressOf(b)]);
    assert stored == [Binding(CLEAN, Some(Alias({b}, true)))];
    assert At(q) in targets && Objects(targets) == {q};
    assert SetDependency(s, q, CLEAN) == s;
    assert SetAll(s, targets, stored) == SetAlias(s, q, Some(Alias({b}, true)));
  }

  lemma StoreApplies(p: Program, q: Object, a: Object, b: Object, c: Object, s: State)
    requires CopiedPointer(p, q, a, b, c) && s == State({b}, map[], Some(map[q := Alias({b}, true)]))
    ensures ApplyAssignment(p, map[], s, Plain, [Place(Deref(Var(c)))], [Literal(0)]) ==
            Applied(State({}, map[], Some(map[q := Alias({b}, true)])), {b})
  {
    hide ResolveObject;
    var env: Env := map[];
    ResolvesLater(p, q, a, b, c);
    assert PointerTargets(p, env, s, Var(c)) == Alias({b}, true);
    SoleIsUnique({b});
    var targets := TargetsOf(p, env, s, [Place(Deref(Var(c)))]);
    assert targets == [At(b)];
    var stored := StoredAll(p, env, s, targets, [Literal(0)]);
    assert stored == [Binding(CLEAN, None)];
    assert At(b) in targets && Objects(targets) == {b};
    assert SetDependency(s, b, CLEAN) == State({}, map[], Some(map[q := Alias({b}, true)]));
    assert SetAll(s, targets, stored) == SetDependency(s, b, CLEAN);
  }

  /** A call of the only function, without parameters, gives what its body gives. */
  lemma CallOfBody(p: Program, initial: State, one: Result)
    requires |p.functions| > 0 && p.functions[0].params == []
    requires one == TransferBlock(p, p.functions[0].body, map[], initial.(aliases := Some(Tracked(initial))), {0}, 511)
    requires one.Done? && one.returned == [] && Normal(one.state)
    ensures OrderedCall(p, CallOfFirst, initial) == one
  {
    hide TransferBlock;
    var s := initial.(aliases := Some(Tracked(initial)));
    assert Snapshots(p, map[], s, []) == [] && {} + {0} == {0};
    var rest := TransferCallees(p, [0][1..], [], s, {}, one.budget);
    assert rest == CalleesDone([], {}, [], one.budget, true, true);
    var all := TransferCallees(p, [0], [], s, {}, 511);
    assert one.written + {} == one.written;
    assert all == CalleesDone([one.state], one.written, [[]], one.budget, one.settled, one.fits);
    assert MergeReturns([[]]).Some? && MergeReturns([[]]).value == [];
    UnionOfOne(one.state);
  }

  lemma CopyRuns(p: Program, q: Object, a: Object, b: Object, c: Object)
    requires CopiedPointer(p, q, a, b, c)
    ensures var out := RunCall(p, CallOfFirst, Enter(0, [Step, Step]), CopyStore(q, a, b, c));
            out.Returned? && Load(out.store, b).data && Load(out.store, c).value == Ref(a)
  {
    var store := CopyStore(q, a, b, c);
    var body := RetargetAndStore(q, b, c);
    var mid := store[q := Cell(Ref(b), false, false)];
    var end := mid[a := Cell(Num(0), false, false)];
    assert PlacesOf(p, store, [Place(Var(q))]) == [At(q)];
    assert EvalAll(p, store, [AddressOf(b)]).value == [Cell(Ref(b), false, false)];
    WritesOne(p, store, q, Cell(Ref(b), false, false));
    assert RunStmt(p, body[0], Step, store) == Next(mid);
    assert Eval(p, mid, Var(c)) == Some(Cell(Ref(a), false, false));
    assert PlacesOf(p, mid, [Place(Deref(Var(c)))]) == [At(a)];
    assert EvalAll(p, mid, [Literal(0)]).value == [Cell(Num(0), false, false)];
    WritesOne(p, mid, a, Cell(Num(0), false, false));
    assert RunStmt(p, body[1], Step, mid) == Next(end);
    assert body[1..] == [body[1]] && body[1..][1..] == [] && [Step, Step][1..] == [Step] && [Step][1..] == [];
    assert RunBlock(p, [], [], end) == Next(end);
    assert RunBlock(p, body[1..], [Step], mid) == Next(end);
    assert RunBlock(p, body, [Step, Step], store) == Next(end);
    assert EvalAll(p, store, []) == Some([]);
    assert BindParams(store, [], []) == store;
  }

  lemma WritesOne(p: Program, store: Store, o: Object, c: Cell)
    requires Fits(p, o, c)
    ensures WriteAll(p, store, [At(o)], [c]) == Some(store[o := c])
  {
    assert [At(o)][1..] == [] && [c][1..] == [];
    assert WriteAll(p, store[o := c], [], []) == Some(store[o := c]);
  }

  // ----- returns that are not last (checks/ps1006.go:1433-1441, 1509-1512) -----

  /** Flags, and targets of the right type, object by object. */
  ghost predicate NowBelow(p: Program, s: State, t: State) {
    forall o: Object | !IsFormal(p, o) ::
      && FlagsBelow(ObjectDependency(p, s, o), ObjectDependency(p, t, o))
      && forall y | MayPointTo(p, s, o, y) :: MayPointTo(p, t, o, y)
  }

  ghost predicate Includes(p: Program, s: State, t: State) {
    forall store | CoversNow(p, s, store) && Typed(p, store) :: CoversNow(p, t, store)
  }

  /** The order on states is exactly inclusion of the stores they describe. */
  lemma NowBelowIsInclusion(p: Program, s: State, t: State)
    ensures NowBelow(p, s, t) <==> Includes(p, s, t)
  {
    hide ObjectTargets;
    if NowBelow(p, s, t) {
      forall store | CoversNow(p, s, store) && Typed(p, store) ensures CoversNow(p, t, store) {
        forall o: Object | !IsFormal(p, o)
          ensures CellCovered(Load(store, o), ObjectDependency(p, t, o))
          ensures PointerCovered(Load(store, o), ObjectTargets(p, map[], t, o))
        {
          assert PointsWell(p, Load(store, o), p.depth(o));
          if Load(store, o).value.Ref? { assert MayPointTo(p, s, o, Load(store, o).value.target); }
        }
      }
    } else {
      NotNowBelow(p, s, t);
    }
  }

  /** One object of one store tells the states apart. */
  lemma NotNowBelow(p: Program, s: State, t: State)
    requires !NowBelow(p, s, t)
    ensures exists store :: CoversNow(p, s, store) && Typed(p, store) && !CoversNow(p, t, store)
  {
    hide ObjectTargets;
    var o: Object :| !IsFormal(p, o) && (!FlagsBelow(ObjectDependency(p, s, o), ObjectDependency(p, t, o))
                                         || exists y :: MayPointTo(p, s, o, y) && !MayPointTo(p, t, o, y));
    var d := ObjectDependency(p, s, o);
    if !FlagsBelow(d, ObjectDependency(p, t, o)) {
      var store: Store := map[o := Cell(Num(0), d.derived, d.stride)];
      assert Load(store, o) == store[o];
      assert CoversNow(p, s, store) && Typed(p, store) && !CoversNow(p, t, store);
    } else {
      var y :| MayPointTo(p, s, o, y) && !MayPointTo(p, t, o, y);
      var store: Store := map[o := Cell(Ref(y), false, false)];
      assert Load(store, o) == store[o] && !PointerCovered(store[o], ObjectTargets(p, map[], t, o));
      assert CoversNow(p, s, store) && Typed(p, store) && !CoversNow(p, t, store);
    }
  }

  /** The run along the path, from every store the first state describes, is described by the second. */
  ghost predicate RunCovered(p: Program, path: Path, s: State, t: State) {
    forall store | CoversNow(p, s, store) && Typed(p, store) ::
      var out := RunCall(p, CallOfFirst, Enter(0, [path]), store);
      out.Returned? && CoversNow(p, t, out.store)
  }

  /**
   A body whose first statement returns at once, while the transfer carries on
   behind it: the answer covers that run exactly when it still describes
   whatever the state before described.
   */
  lemma EarlyReturnCoveredIff(p: Program, first: Stmt, rest: seq<Stmt>, path: Path, s: State)
    requires p.functions == [Function([], [first] + rest)]
    requires forall store :: RunStmt(p, first, path, store) == Returned(store, [])
    ensures var r := OrderedCall(p, CallOfFirst, s);
            r.Done? ==> (RunCovered(p, path, s, r.state) <==> NowBelow(p, s, r.state))
  {
    hide RunStmt, OrderedCall, CoversNow, Typed, NowBelow;
    var r := OrderedCall(p, CallOfFirst, s);
    forall store ensures RunCall(p, CallOfFirst, Enter(0, [path]), store) == Returned(store, []) {
      assert ([first] + rest)[0] == first;
      assert RunBlock(p, [first] + rest, [path], store) == Returned(store, []);
      assert EvalAll(p, store, []) == Some([]) && BindParams(store, [], []) == store;
    }
    if r.Done? { NowBelowIsInclusion(p, s, r.state); }
  }

  lemma ReturnRuns(p: Program, inLoop: bool, post: Option<Stmt>, store: Store)
    ensures var at := Nested([Results([])]);
            if inLoop then RunStmt(p, For(None, None, post, [Return([])]), Rounds([at]), store) == Returned(store, [])
            else RunStmt(p, Block([Return([])]), at, store) == Returned(store, [])
  {
    var at := Nested([Results([])]);
    ReturnEnds(p, State({}, map[], None), store, 1);
    if inLoop {
      assert RunRound(p, [Return([])], post, at, store) == Returned(store, []);
      assert RunRounds(p, [Return([])], post, [at], store) == Returned(store, []);
    }
  }

  /** In particular behind a return in a nested block, and behind one in a loop. */
  lemma ReturnCoveredIff(p: Program, inLoop: bool, post: Option<Stmt>, rest: seq<Stmt>, s: State)
    requires var first := if inLoop then For(None, None, post, [Return([])]) else Block([Return([])]);
             p.functions == [Function([], [first] + rest)]
    ensures var r := OrderedCall(p, CallOfFirst, s);
            var at := Nested([Results([])]);
            r.Done? ==>
              (RunCovered(p, if inLoop then Rounds([at]) else at, s, r.state) <==> NowBelow(p, s, r.state))
  {
    hide OrderedCall, RunCovered, NowBelow, RunBlock;
    var at := Nested([Results([])]);
    var first := if inLoop then For(None, None, post, [Return([])]) else Block([Return([])]);
    var path := if inLoop then Rounds([at]) else at;
    forall store ensures RunStmt(p, first, path, store) == Returned(store, []) {
      ReturnRuns(p, inLoop, post, store);
    }
    EarlyReturnCoveredIff(p, first, rest, path, s);
  }

  lemma {:induction false} RunsUpTo(
      p: Program, before: seq<Stmt>, more: seq<Stmt>, steps: seq<Path>, tail: seq<Path>, m: Store)
    requires |steps| == |before|
    ensures var run := RunBlock(p, before, steps, m);
            RunBlock(p, before + more, steps + tail, m) == if run.Next? then RunBlock(p, more, tail, run.store) else run
    decreases |before|
  {
    if before == [] {
      assert before + more == more && steps + tail == tail;
    } else {
      assert (before + more)[0] == before[0] && (before + more)[1..] == before[1..] + more;
      assert (steps + tail)[0] == steps[0] && (steps + tail)[1..] == steps[1..] + tail;
      var first := RunStmt(p, before[0], steps[0], m);
      if first.Next? { RunsUpTo(p, before[1..], more, steps[1..], tail, first.store); }
    }
  }

  /**
   The same behind any statements: the run returns with the store it has there,
   and every store that the state at that point describes is described by the
   answer exactly when the answer is above that state.
   */
  lemma LaterReturnCoveredIff(
      p: Program, before: seq<Stmt>, inLoop: bool, post: Option<Stmt>, rest: seq<Stmt>, steps: seq<Path>, s: State)
    requires var first := if inLoop then For(None, None, post, [Return([])]) else Block([Return([])]);
             p.functions == [Function([], before + ([first] + rest))] && |steps| == |before|
    ensures var at := Nested([Results([])]);
            forall m | RunBlock(p, before, steps, m).Next? ::
              RunCall(p, CallOfFirst, Enter(0, steps + [if inLoop then Rounds([at]) else at]), m) ==
              Returned(RunBlock(p, before, steps, m).store, [])
    ensures var r := OrderedCall(p, CallOfFirst, s);
            var there := TransferBlock(p, before, map[], s.(aliases := Some(Tracked(s))), {0}, CALL_BUDGET - 1);
            r.Done? && there.Done? ==> (Includes(p, there.state, r.state) <==> NowBelow(p, there.state, r.state))
  {
    hide OrderedCall, TransferBlock, NowBelow, Includes, RunStmt;
    var at := Nested([Results([])]);
    var first := if inLoop then For(None, None, post, [Return([])]) else Block([Return([])]);
    var path := if inLoop then Rounds([at]) else at;
    forall m | RunBlock(p, before, steps, m).Next?
      ensures RunCall(p, CallOfFirst, Enter(0, steps + [path]), m) ==
              Returned(RunBlock(p, before, steps, m).store, [])
    {
      var there := RunBlock(p, before, steps, m).store;
      RunsUpTo(p, before, [first] + rest, steps, [path], m);
      ReturnRuns(p, inLoop, post, there);
      assert ([first] + rest)[0] == first;
      assert RunBlock(p, [first] + rest, [path], there) == Returned(there, []);
      assert EvalAll(p, m, []) == Some([]) && BindParams(m, [], []) == m;
    }
    var r := OrderedCall(p, CallOfFirst, s);
    var there := TransferBlock(p, before, map[], s.(aliases := Some(Tracked(s))), {0}, CALL_BUDGET - 1);
    if r.Done? && there.Done? { NowBelowIsInclusion(p, there.state, r.state); }
  }

  ghost predicate Missed(p: Program, x: Object, path: Path) {
    var call := Call([0], []);
    var s, store: Store := State({x}, map[], None), map[x := Cell(Num(1), true, false)];
    var r, out := OrderedCall(p, call, s), RunCall(p, call, path, store);
    && CoversNow(p, s, store) && r.Done? && r.settled && r.fits && x !in r.state.deps
    && out.Returned? && Load(out.store, x).data
  }

  /** Any first statement that returns early in the run but not in the transfer. */
  lemma EarlyReturnIsMissed(p: Program, x: Object, first: Stmt, path: Path)
    requires x != p.inner && p.functions == [Function([], [first, Clear(x)])]
    requires var s := State({x}, map[], Some(map[]));
             TransferStmt(p, first, false, map[], s, {0}, 510) == Done(s, {}, [], 509, true, true)
    requires var store: Store := map[x := Cell(Num(1), true, false)];
             RunStmt(p, first, path, store) == Returned(store, [])
    ensures Missed(p, x, Enter(0, [path]))
  {
    hide TransferStmt, RunStmt, TransferCall, RunCall, CoversNow;
    EarlyTransfer(p, x, first);
    EarlyRun(p, x, first, path);
    StartCovered(p, x);
  }

  lemma StartCovered(p: Program, x: Object)
    requires x != p.inner
    ensures CoversNow(p, State({x}, map[], None), map[x := Cell(Num(1), true, false)])
  {
  }

  lemma EarlyTransfer(p: Program, x: Object, first: Stmt)
    requires x != p.inner && p.functions == [Function([], [first, Clear(x)])]
    requires var s := State({x}, map[], Some(map[]));
             TransferStmt(p, first, false, map[], s, {0}, 510) == Done(s, {}, [], 509, true, true)
    ensures var r := OrderedCall(p, Call([0], []), State({x}, map[], None));
            r.Done? && r.settled && r.fits && x !in r.state.deps
  {
    hide TransferStmt;
    var body := p.functions[0].body;
    var s := State({x}, map[], Some(map[]));
    ClearEnds(p, x, s, 509);
    assert body[1..] == [Clear(x)];
    var tail := TransferBlock(p, [Clear(x)], map[], s, {0}, 509);
    assert TransferBlock(p, body, map[], s, {0}, 511) == Extend(Done(s, {}, [], 509, true, true), tail);
    assert tail.state == s.(deps := s.deps - {x}) && [] + tail.returned == [];
    CallOfBody(p, State({x}, map[], None), Extend(Done(s, {}, [], 509, true, true), tail));
  }

  lemma EarlyRun(p: Program, x: Object, first: Stmt, path: Path)
    requires p.functions == [Function([], [first, Clear(x)])]
    requires var store: Store := map[x := Cell(Num(1), true, false)];
             RunStmt(p, first, path, store) == Returned(store, [])
    ensures var store: Store := map[x := Cell(Num(1), true, false)];
            RunCall(p, Call([0], []), Enter(0, [path]), store) == Returned(store, []) && Load(store, x).data
  {
    hide RunStmt;
    var store: Store := map[x := Cell(Num(1), true, false)];
    assert RunBlock(p, p.functions[0].body, [path], store) == Returned(store, []);
    assert EvalAll(p, store, []) == Some([]);
  }

  lemma ReturnEnds(p: Program, s: State, store: Store, budget: nat)
    requires budget > 0
    ensures TransferBlock(p, [Return([])], map[], s, {0}, budget) == Done(s, {}, [], budget - 1, true, true)
    ensures RunBlock(p, [Return([])], [Results([])], store) == Returned(store, [])
  {
    var end := Done(s, {}, [], budget - 1, true, true);
    assert TransferResults(p, [], map[], s, {0}, budget - 1) == end;
    assert TransferStmt(p, Return([]), true, map[], s, {0}, budget - 1) == end;
    assert TransferBlock(p, [Return([])][1..], map[], s, {0}, budget - 1) == end;
    assert RunResults(p, [], [], store) == Returned(store, []);
    assert RunStmt(p, Return([]), Results([]), store) == Returned(store, []);
  }

  /** `{ return }; x = 0`: the transfer carries on behind the nested return. */
  lemma NestedReturnIsMissed(p: Program, x: Object)
    requires x != p.inner && p.functions == [Function([], [Block([Return([])]), Clear(x)])]
    ensures Missed(p, x, Enter(0, [Nested([Results([])])]))
  {
    hide TransferBlock, RunBlock, Missed, Clear;
    ReturnEnds(p, State({x}, map[], Some(map[])), map[x := Cell(Num(1), true, false)], 510);
    EarlyReturnIsMissed(p, x, Block([Return([])]), Nested([Results([])]));
  }

  /** `for { return }; x = 0`: a return without results passes for a normal end of the round. */
  lemma BareReturnInLoopIsMissed(p: Program, x: Object)
    requires x != p.inner && p.functions == [Function([], [For(None, None, None, [Return([])]), Clear(x)])]
    ensures Missed(p, x, Enter(0, [Rounds([Nested([Results([])])])]))
  {
    hide TransferBlock, RunBlock, Missed, Clear, Union;
    var s, store: Store := State({x}, map[], Some(map[])), map[x := Cell(Num(1), true, false)];
    var round := Done(s, {}, [], 509, true, true);
    ReturnEnds(p, s, store, 510);
    assert TransferRound(p, None, [Return([])], map[], s, {0}, 510) == round;
    UnionOfOne(s);
    UnionIsOrderless([s, s], [s]);
    assert TransferRounds(p, None, [Return([])], map[], s, s, {}, {0}, 510, LOOP_ROUNDS) == round;
    assert TransferLoop(p, None, None, None, [Return([])], map[], s, {0}, 510) == round;
    var path := [Nested([Results([])])];
    assert RunRound(p, [Return([])], None, path[0], store) == Returned(store, []);
    assert RunRounds(p, [Return([])], None, path, store) == Returned(store, []);
    EarlyReturnIsMissed(p, x, For(None, None, None, [Return([])]), Rounds(path));
  }

  function Clear(x: Object): Stmt {
    Assign(Plain, [Place(Var(x))], [Literal(0)])
  }

  lemma UnionOfOne(s: State)
    requires Normal(s)
    ensures Union([s]) == s
  {
    assert s in [s];
    UnionIsUpperBound([s], s);
    forall v | v in [s] ensures Leq(v, s) {
      forall o: Object ensures AliasLeq(s, s, o) {}
    }
    UnionIsLeast([s], s);
    LeqAntisymmetric(s, Union([s]));
  }

  lemma ClearEnds(p: Program, x: Object, s: State, budget: nat)
    requires budget > 0 && Normal(s) && s.strideDeps == map[] && s.aliases == Some(map[])
    ensures TransferBlock(p, [Clear(x)], map[], s, {0}, budget) ==
            Done(s.(deps := s.deps - {x}), {x}, [], budget - 1, true, true)
  {
    var none: Env := map[];
    var targets := TargetsOf(p, none, s, [Place(Var(x))]);
    assert targets == [At(x)];
    var stored := StoredAll(p, none, s, targets, [Literal(0)]);
    assert stored == [Binding(CLEAN, None)];
    assert At(x) in targets && Objects(targets) == {x};
    var after := s.(deps := s.deps - {x});
    assert SetDependency(s, x, CLEAN) == after;
    assert SetAll(s, targets, stored) == after;
    assert TransferStmt(p, Clear(x), true, none, s, {0}, budget - 1) == Done(after, {x}, [], budget - 1, true, true);
    assert [Clear(x)][1..] == [];
    assert TransferBlock(p, [], none, after, {0}, budget - 1) == Done(after, {}, [], budget - 1, true, true);
    assert {x} + {} == {x};
  }

  /** for ; ; x_1 = 0 { x_1 = x_0; return } */
  function PostBehindReturn(): Stmt {
    For(None, None, Some(Clear(1)), [Assign(Plain, [Place(Var(1))], [Var(0)]), Return([])])
  }

  /** The transfer lets the post statement clear what the run returned with. */
  lemma PostBehindReturnIsMissed(p: Program)
    requires Plainly(p) && p.functions == [Function([], [PostBehindReturn()])]
    ensures var s, store: Store := Marking({}), map[0 := Cell(Num(1), true, true)];
            var r := OrderedCall(p, CallOfFirst, s);
            var out := RunCall(p, CallOfFirst, Enter(0, [Rounds([Nested([Step, Results([])])])]), store);
            && CoversNow(p, s, store) && r.Done? && r.settled && r.fits && 1 !in r.state.deps
            && out.Returned? && Load(out.store, 1).data
  {
    hide TransferCall, OrderedCall, TransferBlock, RunStmt, RunBlock;
    var store: Store := map[0 := Cell(Num(1), true, true)];
    assert CoversNow(p, Marking({}), store);
    PostTransfer(p);
    PostRun(p);
    CallOfBody(p, Marking({}), TransferBlock(p, [PostBehindReturn()], map[], Marking({}), {0}, 511));
  }

  lemma PostTransfer(p: Program)
    requires Plainly(p)
    ensures var r := TransferBlock(p, [PostBehindReturn()], map[], Marking({}), {0}, 511);
            r.Done? && r.state == Marking({}) && r.returned == [] && r.settled && r.fits
  {
    hide TransferStmt, Union, ApplyHeader, Plainly;
    var env: Env := map[];
    var body := PostBehindReturn().body;
    var post := PostBehindReturn().post;
    var s := Marking({});
    CopyTransfer(p, 1, {}, false, {0}, 509);
    ReturnEnds(p, Marking({1}), map[], 509);
    assert body[1..] == [Return([])];
    var one := TransferStmt(p, body[0], false, env, s, {0}, 509);
    assert body[0] == Assign(Plain, [Place(Var(1))], [Var(1 - 1)]);
    assert one.state == Marking({1}) by { assert {} + {1} == {1}; }
    assert TransferBlock(p, body[1..], env, one.state, {0}, 509) == Done(Marking({1}), {}, [], 508, true, true);
    var out := TransferBlock(p, body, env, s, {0}, 510);
    assert out.Done? && out.state == Marking({1}) && out.returned == [];
    PostClears(p);
    UnionOfOne(s);
    UnionIsOrderless([s, s], [s]);
    assert TransferRound(p, post, body, env, s, {0}, 510).state == s;
    var all := TransferRounds(p, post, body, env, s, s, {}, {0}, 510, LOOP_ROUNDS);
    assert all.Done? && all.state == s && all.settled && all.fits;
    LoopTransfers(p, s, all);
    assert [PostBehindReturn()][1..] == [];
  }

  lemma PostClears(p: Program)
    requires Plainly(p)
    ensures ApplyHeader(p, map[], Marking({1}), Some(Clear(1))) == Applied(Marking({}), {1})
    ensures ApplyHeader(p, map[], Marking({}), None) == Applied(Marking({}), {})
  {
    var env: Env := map[];
    var s := Marking({1});
    var targets := TargetsOf(p, env, s, [Place(Var(1))]);
    assert targets == [At(1)];
    var stored := StoredAll(p, env, s, targets, [Literal(0)]);
    assert stored == [Binding(CLEAN, None)];
    assert At(1) in targets && Objects(targets) == {1};
    assert SetDependency(s, 1, CLEAN) == Marking({});
    assert SetAll(s, targets, stored) == Marking({});
  }

  lemma FlagsAtStart(store: Store)
    requires store == map[0 := Cell(Num(1), true, true)]
    ensures Flags(store, {})
  {
  }

  lemma LoopTransfers(p: Program, s: State, all: Result)
    requires all == TransferRounds(p, PostBehindReturn().post, PostBehindReturn().body, map[], s, s, {}, {0}, 510,
             LOOP_ROUNDS)
    ensures TransferStmt(p, PostBehindReturn(), true, map[], s, {0}, 510) == all
  {
    hide TransferRounds, TransferBlock, TransferCall, TransferResults, Marking;
  }

  lemma LoopReturns(p: Program, round: Path, store: Store, end: Store)
    requires RunRounds(p, PostBehindReturn().body, PostBehindReturn().post, [round], store) == Returned(end, [])
    ensures RunStmt(p, PostBehindReturn(), Rounds([round]), store) == Returned(end, [])
  {
  }

  lemma PostRun(p: Program)
    requires Plainly(p) && p.functions == [Function([], [PostBehindReturn()])]
    ensures var store: Store := map[0 := Cell(Num(1), true, true)];
            var out := RunCall(p, CallOfFirst, Enter(0, [Rounds([Nested([Step, Results([])])])]), store);
            out.Returned? && Load(out.store, 1).data
  {
    hide RunStmt, Plainly, CoversNow;
    var store: Store := map[0 := Cell(Num(1), true, true)];
    var body, path := PostBehindReturn().body, [Step, Results([])];
    var end := store[1 := store[0]];
    FlagsAtStart(store);
    CopyRun(p, 1, {}, store);
    ReturnEnds(p, Marking({}), end, 1);
    assert body[1..] == [Return([])] && path[1..] == [Results([])];
    assert RunBlock(p, body, path, store) == Returned(end, []);
    assert RunRound(p, body, PostBehindReturn().post, Nested(path), store) == Returned(end, []);
    assert RunRounds(p, body, PostBehindReturn().post, [Nested(path)], store) == Returned(end, []);
    LoopReturns(p, Nested(path), store, end);
    assert RunBlock(p, p.functions[0].body, [Rounds([Nested(path)])], store) == Returned(end, []);
    assert EvalAll(p, store, []) == Some([]);
    assert BindParams(store, [], []) == store;
  }

  // ----- eight rounds are not enough (checks/ps1006.go:1510-1524) -----

  /** x_j = x_{j-1}; ...; x_1 = x_0, where object i is x_i and x_0 is the loop variable. */
  function Shift(j: nat): seq<Stmt> {
    if j == 0 then [] else [Assign(Plain, [Place(Var(j))], [Var(j - 1)])] + Shift(j - 1)
  }

  /** The state that marks exactly the given objects, in both ways. */
  function Marking(d: set<Object>): State {
    State(d, map o | o in d :: MAY_STRIDE, Some(map[]))
  }

  function Upto(n: nat): (s: set<Object>)
    ensures forall o: Object :: o in s <==> 1 <= o <= n
  {
    if n == 0 then {} else Upto(n - 1) + {n}
  }

  ghost predicate Plainly(p: Program) {
    p.inner == 0 && (forall o: Object :: p.depth(o) == 0) && (forall o: Object :: !IsFormal(p, o))
  }

  function Shifted(j: nat, d: set<Object>): set<Object> {
    (d - Upto(j)) + set o | o in Upto(j) && (o == 1 || o - 1 in d)
  }

  lemma ShiftedStep(j: nat, d: set<Object>)
    requires j > 0
    ensures Shifted(j - 1, if j == 1 || j - 1 in d then d + {j} else d - {j}) == Shifted(j, d)
  {
  }

  lemma CopyTransfer(p: Program, j: nat, d: set<Object>, last: bool, active: set<nat>, budget: nat)
    requires Plainly(p) && j > 0 && 0 !in d
    ensures var r := TransferStmt(p, Assign(Plain, [Place(Var(j))], [Var(j - 1)]), last, map[], Marking(d), active,
            budget);
            && r.Done? && r.returned == [] && r.budget == budget && r.settled && r.fits
            && r.state == Marking(if j == 1 || j - 1 in d then d + {j} else d - {j})
  {
    var none: Env := map[];
    var s := Marking(d);
    var marks := j == 1 || j - 1 in d;
    var targets := TargetsOf(p, none, s, [Place(Var(j))]);
    assert targets == [At(j)];
    var stored := StoredAll(p, none, s, targets, [Var(j - 1)]);
    assert stored == [Binding(Dependency(marks, marks, true), None)];
    assert SetAll(s, targets, stored) == SetDependency(s, j, stored[0].dependency);
    assert SetDependency(s, j, stored[0].dependency) == Marking(if marks then d + {j} else d - {j});
  }

  lemma {:induction false} ShiftTransfer(p: Program, j: nat, d: set<Object>, active: set<nat>, budget: nat)
    requires Plainly(p) && budget >= j && 0 !in d
    ensures var r := TransferBlock(p, Shift(j), map[], Marking(d), active, budget);
            && r.Done? && r.state == Marking(Shifted(j, d)) && r.returned == [] && r.budget == budget - j
  {
    hide TransferStmt, Plainly, Marking, Shifted, Shift;
    if j == 0 {
      ShiftNone(d);
    } else {
      var body := Shift(j);
      var d' := if j == 1 || j - 1 in d then d + {j} else d - {j};
      CopyTransfer(p, j, d, |body| == 1, active, budget - 1);
      ShiftFirst(j);
      ShiftTransfer(p, j - 1, d', active, budget - 1);
      ShiftedStep(j, d);
    }
  }

  lemma MarkingAbsorbs(d: set<Object>)
    ensures Union([Marking({}), Marking(d)]) == Marking(d)
  {
    var out := Marking(d);
    var both := [Marking({}), out];
    forall o: Object ensures StrideLeq(Stride(Marking({}), o), Stride(out, o)) && AliasLeq(Marking({}), out, o) {}
    assert Leq(Marking({}), out);
    UnionOfOne(out);
    UnionIsUpperBound([out], out);
    assert Leq(out, out);
    UnionIsLeast(both, out);
    assert out in both;
    UnionIsUpperBound(both, out);
    LeqAntisymmetric(out, Union(both));
  }

  lemma {:induction false} ChainRounds(
      p: Program, k: nat, tries: nat, written: set<Object>, active: set<nat>, budget: nat)
    requires Plainly(p) && k > LOOP_ROUNDS && tries <= LOOP_ROUNDS && budget >= tries * k
    ensures var r := TransferRounds(p, None, Shift(k), map[], Marking({}), Marking(Upto(LOOP_ROUNDS - tries)),
            written, active, budget, tries);
            r.Done? && r.state == Marking(Upto(LOOP_ROUNDS)) && !r.settled
    decreases tries
  {
    hide TransferRound, Plainly, Marking, Union, Shift, Upto, Key;
    if tries > 0 {
      var n := LOOP_ROUNDS - tries;
      Products.Next(tries - 1, k);
      Products.Monotone(0, tries - 1, k);
      ChainRound(p, k, n, active, budget);
      var r := TransferRound(p, None, Shift(k), map[], Marking(Upto(n)), active, budget);
      MarkingAbsorbs(Upto(n + 1));
      KeysDiffer(n);
      ChainRounds(p, k, tries - 1, written + r.written, active, r.budget);
    }
  }

  lemma ChainRound(p: Program, k: nat, n: nat, active: set<nat>, budget: nat)
    requires Plainly(p) && n < k <= budget
    ensures var r := TransferRound(p, None, Shift(k), map[], Marking(Upto(n)), active, budget);
            r.Done? && r.state == Marking(Upto(n + 1)) && r.budget == budget - k
  {
    hide TransferBlock, Plainly, Marking, Shift, Upto, Shifted;
    OneFurther(k, n);
    ShiftTransfer(p, k, Upto(n), active, budget);
  }

  lemma KeysDiffer(n: nat)
    ensures Key(Marking(Upto(n + 1))) != Key(Marking(Upto(n)))
  {
    assert n + 1 in Upto(n + 1) && n + 1 !in Upto(n);
  }

  ghost predicate Flags(store: Store, d: set<Object>) {
    forall o: Object :: Load(store, o).data == (o == 0 || o in d) && !Load(store, o).value.Ref?
  }

  function Steps(j: nat): seq<Path> {
    seq(j, _ => Step)
  }

  lemma {:induction false} ShiftRun(p: Program, j: nat, d: set<Object>, store: Store)
    requires Plainly(p) && Flags(store, d) && 0 !in d
    ensures RunBlock(p, Shift(j), Steps(j), store).Next?
    ensures Flags(RunBlock(p, Shift(j), Steps(j), store).store, Shifted(j, d))
  {
    hide Flags, Plainly, RunStmt, Shift, Steps, Load, Shifted;
    if j == 0 {
      ShiftNone(d);
    } else {
      var d' := if j == 1 || j - 1 in d then d + {j} else d - {j};
      CopyRun(p, j, d, store);
      ShiftFirst(j);
      ShiftRun(p, j - 1, d', store[j := Load(store, j - 1)]);
      ShiftedStep(j, d);
    }
  }

  lemma ShiftNone(d: set<Object>)
    ensures Shift(0) == [] && Steps(0) == [] && Shifted(0, d) == d
  {
  }

  lemma ShiftFirst(j: nat)
    requires j > 0
    ensures Shift(j) != [] && Shift(j)[0] == Assign(Plain, [Place(Var(j))], [Var(j - 1)])
            && Shift(j)[1..] == Shift(j - 1)
    ensures |Steps(j)| == j && Steps(j)[0] == Step && Steps(j)[1..] == Steps(j - 1)
  {
  }

  /** x_j = x_{j-1} moves the flag along. */
  lemma CopyRun(p: Program, j: nat, d: set<Object>, store: Store)
    requires Plainly(p) && Flags(store, d) && 0 !in d && j > 0
    ensures var c, d' := Load(store, j - 1), if j == 1 || j - 1 in d then d + {j} else d - {j};
            && RunStmt(p, Assign(Plain, [Place(Var(j))], [Var(j - 1)]), Step, store) == Next(store[j := c])
            && Flags(store[j := c], d')
  {
    var c := Load(store, j - 1);
    var lhs := [Place(Var(j))];
    var after := store[j := c];
    assert PlacesOf(p, store, lhs) == [At(j)];
    assert EvalAll(p, store, [Var(j - 1)]).value == [c];
    assert WriteAll(p, store, [At(j)], [c]) == Some(after) by {
      hide Plainly, Flags;
      assert Fits(p, j, c);
    }
    forall o: Object ensures Load(after, o) == if o == j then c else Load(store, o) {}
  }

  function Trips(k: nat, n: nat): seq<Path> {
    seq(n, _ => Nested(Steps(k)))
  }

  lemma {:induction false} ChainRun(p: Program, k: nat, done: nat, n: nat, store: Store)
    requires Plainly(p) && Flags(store, Upto(done)) && done + n <= k
    ensures RunRounds(p, Shift(k), None, Trips(k, n), store).Next?
    ensures Flags(RunRounds(p, Shift(k), None, Trips(k, n), store).store, Upto(done + n))
    decreases n
  {
    hide Flags, Plainly, RunBlock, Shift, Shifted, Upto, Trips;
    if n == 0 {
      NoTrips(k);
    } else {
      ShiftRun(p, k, Upto(done), store);
      OneFurther(k, done);
      TripFirst(k, n);
      var next := RunBlock(p, Shift(k), Steps(k), store).store;
      ChainRun(p, k, done + 1, n - 1, next);
    }
  }

  lemma NoTrips(k: nat)
    ensures Trips(k, 0) == []
  {
  }

  lemma TripFirst(k: nat, n: nat)
    requires n > 0
    ensures Trips(k, n) != [] && Trips(k, n)[0] == Nested(Steps(k)) && Trips(k, n)[1..] == Trips(k, n - 1)
  {
  }

  lemma OneFurther(k: nat, done: nat)
    requires done < k
    ensures Shifted(k, Upto(done)) == Upto(done + 1) && 0 !in Upto(done)
  {
  }

  /**
   A chain of more than eight copies: the transfer answers after eight rounds
   with x_1 to x_8, and any run with more trips than that, up to the length of
   the chain, brings loop data into x_9. Eight is the exact bound of
   OrderedSoundness.RoundsSound.
   */
  lemma NinthRoundIsMissed(p: Program, k: nat, n: nat, active: set<nat>, budget: nat, store: Store)
    requires Plainly(p) && LOOP_ROUNDS < n <= k && budget >= LOOP_ROUNDS * k && Flags(store, {})
    ensures var r := TransferRounds(p, None, Shift(k), map[], Marking({}), Marking({}), {}, active, budget,
            LOOP_ROUNDS);
            var out := RunRounds(p, Shift(k), None, Trips(k, n), store);
            && r.Done? && out.Next? && !r.settled
            && 9 !in r.state.deps && Load(out.store, 9).data
  {
    assert Upto(0) == {};
    ChainRounds(p, k, LOOP_ROUNDS, {}, active, budget);
    ChainRun(p, k, 0, n, store);
    assert 9 in Upto(n);
  }
}
