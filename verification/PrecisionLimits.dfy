/**
 Where the ordered transfer marks too much: a load through a pointer with
 several targets is joined anew each time it is made, and the loop variable
 counts as marked even after it was overwritten (checks/ps1006.go:1708-1810).
 */
module PrecisionLimits {
  import opened AnsweredCalls
  import opened CallPrecision
  import opened DependencyState
  import opened GoBodies
  import opened OrderedSoundness
  import opened OrderedTransfer
  import opened Precision
  import opened SharpLoads
  import opened Wrappers

  type Stmt = GoBodies.Stmt

  // ----- calls of one straight body without parameters -----

  predicate IsHeader(stmt: Stmt) {
    stmt.Assign? || stmt.IncDec? || stmt.Declare?
  }

  function RunAll(p: Program, body: seq<Stmt>, m: Store): Option<Store> {
    if body == [] then Some(m)
    else match RunHeader(p, m, Some(body[0]))
      case Some(next) => RunAll(p, body[1..], next)
      case None => None
  }

  function ApplyAll(p: Program, body: seq<Stmt>, s: State): Option<State> {
    if body == [] then Some(s)
    else match ApplyHeader(p, map[], s, Some(body[0]))
      case Applied(next, _) => ApplyAll(p, body[1..], next)
      case Rejected => None
  }

  lemma {:induction false} RunsStraight(p: Program, body: seq<Stmt>, steps: seq<Path>, m: Store)
    requires forall d | d in body :: IsHeader(d)
    ensures RunBlock(p, body, steps, m) ==
            if |steps| >= |body| && RunAll(p, body, m).Some? then Next(RunAll(p, body, m).value) else Stuck
    decreases |body|
  {
    hide RunHeader;
    if body != [] && steps != [] {
      assert body[0] in body;
      match RunHeader(p, m, Some(body[0])) {
        case Some(next) => RunsStraight(p, body[1..], steps[1..], next);
        case None =>
      }
    }
  }

  lemma {:induction false} AppliesStraight(p: Program, body: seq<Stmt>, s: State, active: set<nat>, budget: nat)
    requires (forall d | d in body :: IsHeader(d)) && |body| <= budget && ApplyAll(p, body, s).Some?
    ensures var r := TransferBlock(p, body, map[], s, active, budget);
            r.Done? && r.state == ApplyAll(p, body, s).value && r.returned == []
    decreases |body|
  {
    hide ApplyHeader, HeaderFits;
    if body != [] {
      assert body[0] in body;
      var next := ApplyHeader(p, map[], s, Some(body[0])).state;
      AppliesStraight(p, body[1..], next, active, budget - 1);
    }
  }

  ghost predicate IsCallOf(p: Program, k: nat, call: Call, body: seq<Stmt>) {
    k < |p.functions| && p.functions[k] == Function([], body) && call == Call([k], [])
  }

  lemma CallOfBody(p: Program, k: nat, call: Call, body: seq<Stmt>, initial: State)
    requires IsCallOf(p, k, call, body) && (forall d | d in body :: IsHeader(d)) && |body| <= 511
    requires ApplyAll(p, body, Entry(initial)).Some?
    ensures var r := OrderedCall(p, call, initial);
            r.Done? && forall o, data :: Flagged(ObjectDependency(p, r.state, o), data) <==>
              Flagged(ObjectDependency(p, ApplyAll(p, body, Entry(initial)).value, o), data)
  {
    hide TransferBlock, ApplyAll, Union, ObjectDependency;
    var start := Entry(initial);
    var none: Env := map[];
    AppliesStraight(p, body, start, {} + {k}, 511);
    assert BindEnv([], []) == none && Snapshots(p, none, start, []) == [];
    OneCallee(p, k, [], start, 511);
    var c := TransferCallees(p, [k], [], start, {}, 511);
    assert [k][1..] == [];
    assert c.outputs == [ApplyAll(p, body, start).value];
    forall o, data ensures Flagged(ObjectDependency(p, Union(c.outputs), o), data) <==>
      Flagged(ObjectDependency(p, c.outputs[0], o), data)
    {
      UnionMarks(p, c.outputs, o, data);
    }
  }

  /** Some run of the call from a described store leaves the object marked. */
  ghost predicate Left(p: Program, call: Call, initial: State, o: Object, data: bool) {
    exists m, path :: CoversNow(p, initial, m) && Typed(p, m) && Leaves(p, call, path, m, 0, InCell(o), data)
  }

  lemma LeftByBody(p: Program, k: nat, call: Call, body: seq<Stmt>, initial: State, o: Object, data: bool)
    requires IsCallOf(p, k, call, body) && forall d | d in body :: IsHeader(d)
    ensures Left(p, call, initial, o, data) <==>
              exists m :: CoversNow(p, initial, m) && Typed(p, m) && RunAll(p, body, m).Some? &&
                          Carried(Load(RunAll(p, body, m).value, o), data)
  {
    hide RunAll, CoversNow, Typed;
    if m, path :| CoversNow(p, initial, m) && Typed(p, m) && Leaves(p, call, path, m, 0, InCell(o), data) {
      RunsStraight(p, body, path.steps, m);
    }
    if m :| CoversNow(p, initial, m) && Typed(p, m) && RunAll(p, body, m).Some? &&
            Carried(Load(RunAll(p, body, m).value, o), data) {
      var steps := seq(|body|, i => Step);
      RunsStraight(p, body, steps, m);
      assert EvalAll(p, m, []) == Some([]);
      assert Leaves(p, call, Enter(k, steps), m, 0, InCell(o), data);
    }
  }

  function Copy(o: Object, e: Expr): Stmt {
    Assign(Plain, [Place(Var(o))], [e])
  }

  lemma CopyApplies(p: Program, s: State, o: Object, e: Expr)
    requires p.depth(o) == 0 && ExprDependency(p, map[], s, e).known
    ensures ApplyHeader(p, map[], s, Some(Copy(o, e))) ==
            Applied(SetDependency(s, o, ExprDependency(p, map[], s, e)), {o})
  {
    hide ExprDependency;
    var targets := TargetsOf(p, map[], s, [Place(Var(o))]);
    assert targets == [At(o)];
    var stored := StoredAll(p, map[], s, targets, [e]);
    assert stored == [Binding(ExprDependency(p, map[], s, e), None)];
    assert targets[1..] == [] && stored[1..] == [];
    assert stored[0] in stored && (forall b | b in stored :: b == stored[0]) && (forall l | l in targets :: l == At(o));
    assert Objects(targets) == {o} by { assert At(o) in targets; }
    assert SetAll(s, targets, stored) == SetDependency(s, o, stored[0].dependency);
  }

  lemma CopyRuns(p: Program, m: Store, o: Object, e: Expr)
    ensures RunHeader(p, m, Some(Copy(o, e))) ==
            match Eval(p, m, e)
            case Some(c) => if Fits(p, o, c) then Some(m[o := c]) else None
            case None => None
  {
    hide Eval;
    assert PlacesOf(p, m, [Place(Var(o))]) == [At(o)];
    var all := EvalAll(p, m, [e]);
    assert [e][0] == e;
    if all.Some? {
      assert Eval(p, m, [e][0]) == Some(all.value[0]);
      assert all.value == [all.value[0]] && [At(o)][1..] == [] && all.value[1..] == [];
      var c := all.value[0];
      assert WriteAll(p, m, [At(o)], all.value) == if Fits(p, o, c) then Some(m[o := c]) else None by {
        if Fits(p, o, c) { assert WriteAll(p, m[o := c], [], []) == Some(m[o := c]); }
      }
    }
  }

  lemma ThreeRuns(p: Program, body: seq<Stmt>, m: Store)
    requires |body| == 3
    ensures RunAll(p, body, m) ==
            match RunHeader(p, m, Some(body[0]))
            case None => None
            case Some(a) =>
              match RunHeader(p, a, Some(body[1]))
              case None => None
              case Some(b) => RunHeader(p, b, Some(body[2]))
  {
    hide RunHeader;
    var rest := body[1..];
    assert rest[0] == body[1] && rest[1..] == [body[2]] && [body[2]][1..] == [];
    match RunHeader(p, m, Some(body[0])) {
      case None =>
      case Some(a) =>
        assert RunAll(p, body, m) == RunAll(p, rest, a);
        match RunHeader(p, a, Some(body[1])) {
          case None =>
          case Some(b) =>
            assert RunAll(p, rest, a) == RunAll(p, [body[2]], b);
            assert RunAll(p, [body[2]], b) == RunHeader(p, b, Some(body[2])) by {
              if RunHeader(p, b, Some(body[2])).Some? {
                assert RunAll(p, [], RunHeader(p, b, Some(body[2])).value).Some?;
              }
            }
        }
    }
  }

  lemma ThreeApply(p: Program, body: seq<Stmt>, s: State, a: State, b: State, c: State)
    requires |body| == 3
    requires ApplyHeader(p, map[], s, Some(body[0])).Applied? && ApplyHeader(p, map[], s, Some(body[0])).state == a
    requires ApplyHeader(p, map[], a, Some(body[1])).Applied? && ApplyHeader(p, map[], a, Some(body[1])).state == b
    requires ApplyHeader(p, map[], b, Some(body[2])).Applied? && ApplyHeader(p, map[], b, Some(body[2])).state == c
    ensures ApplyAll(p, body, s) == Some(c)
  {
    hide ApplyHeader;
    var rest := body[1..];
    assert rest[0] == body[1] && rest[1..] == [body[2]] && [body[2]][1..] == [];
    assert ApplyAll(p, body, s) == ApplyAll(p, rest, a);
    assert ApplyAll(p, rest, a) == ApplyAll(p, [body[2]], b);
  }

  // ----- a pointer with several targets -----

  /** `a = *q; u = 0; x = *q` */
  function TwoLoads(q: Object, a: Object, u: Object, x: Object): seq<Stmt> {
    [Copy(a, Deref(Var(q))), Copy(u, Literal(0)), Copy(x, Deref(Var(q)))]
  }

  ghost predicate LoadsApart(p: Program, s: State, q: Object, a: Object, u: Object, x: Object) {
    && q in Tracked(s) && Tracked(s)[q].known && TargetsFit(p, q, Tracked(s)[q]) && p.depth(q) == 1
    && x !in Tracked(s)[q].targets && a != u && a != x && u != x
    && p.depth(a) == 0 && p.depth(u) == 0 && p.depth(x) == 0
    && !IsFormal(p, a) && !IsFormal(p, u) && !IsFormal(p, x)
    && a != p.inner && u != p.inner && x != p.inner && q != p.inner && !IsFormal(p, q)
  }

  ghost predicate SomeMarked(p: Program, s: State, targets: set<Object>, data: bool) {
    exists t :: t in targets && Flagged(ObjectDependency(p, s, t), data)
  }

  lemma LoadOf(p: Program, s: State, q: Object, data: bool)
    requires q in Tracked(s) && Tracked(s)[q].known && Tracked(s)[q].targets != {}
    ensures ExprDependency(p, map[], s, Deref(Var(q))).known
    ensures Flagged(ExprDependency(p, map[], s, Deref(Var(q))), data) <==> SomeMarked(p, s, Tracked(s)[q].targets, data)
  {
    var none: Env := map[];
    TrackedResolves(p, none, s, q);
    VariableResolves(p, none, s, q);
  }

  lemma MarksAfter(p: Program, s: State, o: Object, d: Dependency, q: Object, data: bool)
    requires o != p.inner
    ensures Flagged(ObjectDependency(p, SetDependency(s, o, d), q), data) <==>
            if q == o then Flagged(d, data) else Flagged(ObjectDependency(p, s, q), data)
  {
  }

  lemma TwoLoadsAnswer(
      p: Program, k: nat, call: Call, initial: State, q: Object, a: Object, u: Object, x: Object, data: bool)
    requires IsCallOf(p, k, call, TwoLoads(q, a, u, x)) && LoadsApart(p, initial, q, a, u, x)
    ensures var r, targets := OrderedCall(p, call, initial), Tracked(initial)[q].targets;
            r.Done? && (Flagged(ObjectDependency(p, r.state, x), data) <==>
              || SomeMarked(p, initial, targets - {u}, data)
              || (a in targets && SomeMarked(p, initial, targets, data)))
  {
    hide ExprDependency, ObjectDependency, OrderedCall, ApplyAll;
    var targets, load, s := Tracked(initial)[q].targets, Deref(Var(q)), Entry(initial);
    LoadOf(p, s, q, data);
    var s1 := SetDependency(s, a, ExprDependency(p, map[], s, load));
    CopyApplies(p, s, a, load);
    assert ExprDependency(p, map[], s1, Literal(0)) == CLEAN by { LiteralIsClean(p, s1); }
    var s2 := SetDependency(s1, u, CLEAN);
    CopyApplies(p, s1, u, Literal(0));
    LoadOf(p, s2, q, data);
    var s3 := SetDependency(s2, x, ExprDependency(p, map[], s2, load));
    CopyApplies(p, s2, x, load);
    ThreeApply(p, TwoLoads(q, a, u, x), s, s1, s2, s3);
    CallOfBody(p, k, call, TwoLoads(q, a, u, x), initial);
    forall t ensures Flagged(ObjectDependency(p, s, t), data) <==> Flagged(ObjectDependency(p, initial, t), data) {
      SameMarks(p, initial, t);
    }
    MarksAfter(p, s2, x, ExprDependency(p, map[], s2, load), x, data);
    forall t ensures Flagged(ObjectDependency(p, s2, t), data) <==>
      if t == u then false
      else if t == a then SomeMarked(p, initial, targets, data)
      else Flagged(ObjectDependency(p, initial, t), data)
    {
      MarksAfter(p, s1, u, CLEAN, t, data);
      MarksAfter(p, s, a, ExprDependency(p, map[], s, load), t, data);
    }
  }

  lemma LiteralIsClean(p: Program, s: State)
    ensures ExprDependency(p, map[], s, Literal(0)) == CLEAN
  {
  }

  lemma SameMarks(p: Program, s: State, o: Object)
    ensures ObjectDependency(p, Entry(s), o) == ObjectDependency(p, s, o)
  {
  }

  /** What the three statements leave in x. */
  lemma TwoLoadsRun(p: Program, m: Store, q: Object, a: Object, u: Object, x: Object, data: bool)
    requires q != a && q != u && a != u
    ensures var r := RunAll(p, TwoLoads(q, a, u, x), m);
            && (r.Some? ==> Load(m, q).value.Ref?)
            && (r.Some? ==> var t := Load(m, q).value.target;
                 Carried(Load(r.value, x), data) <==> t != u && Carried(Load(m, t), data))
    ensures Load(m, q).value.Ref? && Load(m, Load(m, q).value.target).value.Num? ==>
              RunAll(p, TwoLoads(q, a, u, x), m).Some?
  {
    hide RunHeader, RunAll;
    var load := Deref(Var(q));
    ThreeRuns(p, TwoLoads(q, a, u, x), m);
    CopyRuns(p, m, a, load);
    if RunHeader(p, m, Some(Copy(a, load))).Some? {
      var m1 := RunHeader(p, m, Some(Copy(a, load))).value;
      CopyRuns(p, m1, u, Literal(0));
      var m2 := m1[u := Cell(Num(0), false, false)];
      CopyRuns(p, m2, x, load);
    }
  }

  lemma TwoLoadsLeft(
      p: Program, k: nat, call: Call, initial: State, q: Object, a: Object, u: Object, x: Object, data: bool)
    requires IsCallOf(p, k, call, TwoLoads(q, a, u, x)) && LoadsApart(p, initial, q, a, u, x)
    ensures Left(p, call, initial, x, data) <==> SomeMarked(p, initial, Tracked(initial)[q].targets - {u}, data)
  {
    hide RunAll, ObjectDependency, Typed, Left, ObjectTargets;
    var none: Env := map[];
    var targets, body := Tracked(initial)[q].targets, TwoLoads(q, a, u, x);
    LeftByBody(p, k, call, body, initial, x, data);
    TrackedResolves(p, none, initial, q);
    if m :| CoversNow(p, initial, m) && Typed(p, m) && RunAll(p, body, m).Some? &&
            Carried(Load(RunAll(p, body, m).value, x), data) {
      TwoLoadsRun(p, m, q, a, u, x, data);
      var t := Load(m, q).value.target;
      assert t in targets - {u} && !IsFormal(p, t);
      assert Flagged(ObjectDependency(p, initial, t), data) by { KnownMark(p, initial, t); }
    }
    if t :| t in targets - {u} && Flagged(ObjectDependency(p, initial, t), data) {
      var c: Choice := map[q := t];
      var m := Filled(p, none, initial, c);
      assert KnownOf(p, none, initial, q) == Tracked(initial)[q];
      ChosenFits(p, none, initial, c);
      DescribedIsCoversNow(p, initial, m);
      FilledAt(p, none, initial, c, q);
      FilledAt(p, none, initial, c, t);
      TwoLoadsRun(p, m, q, a, u, x, data);
    }
  }

  lemma KnownMark(p: Program, s: State, o: Object)
    ensures ObjectDependency(p, s, o).known
  {
  }

  /** The answer marks x in vain exactly when the overwritten object was the only marked target and the
      object read into is a target as well. */
  lemma TwoLoadsTightIff(
      p: Program, k: nat, call: Call, initial: State, q: Object, a: Object, u: Object, x: Object, data: bool)
    requires IsCallOf(p, k, call, TwoLoads(q, a, u, x)) && LoadsApart(p, initial, q, a, u, x)
    ensures var r, targets := OrderedCall(p, call, initial), Tracked(initial)[q].targets;
            r.Done? && ((Flagged(ObjectDependency(p, r.state, x), data) <==> Left(p, call, initial, x, data)) <==>
              !(a in targets && SomeMarked(p, initial, targets, data) && !SomeMarked(p, initial, targets - {u}, data)))
  {
    hide OrderedCall, ObjectDependency, Left;
    TwoLoadsAnswer(p, k, call, initial, q, a, u, x, data);
    TwoLoadsLeft(p, k, call, initial, q, a, u, x, data);
  }

  // ----- the loop variable -----

  /** `inner = y; x = inner` */
  function OverwriteInner(p: Program, y: Object, x: Object): seq<Stmt> {
    [Copy(p.inner, Var(y)), Copy(x, Var(p.inner))]
  }

  lemma OverwriteRuns(p: Program, m: Store, y: Object, x: Object, data: bool)
    requires p.inner != x
    ensures var r := RunAll(p, OverwriteInner(p, y, x), m);
            && (r.Some? ==> (Carried(Load(r.value, x), data) <==> Carried(Load(m, y), data)))
            && (Load(m, y).value.Num? ==> r.Some?)
  {
    hide RunHeader;
    var body := OverwriteInner(p, y, x);
    assert body[1..] == [body[1]] && [body[1]][1..] == [];
    CopyRuns(p, m, p.inner, Var(y));
    if RunHeader(p, m, Some(body[0])).Some? {
      var next := RunHeader(p, m, Some(body[0])).value;
      CopyRuns(p, next, x, Var(p.inner));
      assert RunAll(p, body, m) == RunAll(p, [body[1]], next);
      if RunHeader(p, next, Some(body[1])).Some? {
        assert RunAll(p, [], RunHeader(p, next, Some(body[1])).value).Some?;
      }
    }
  }

  /** After the loop variable is overwritten the answer still marks what is read from it; that is in
      vain exactly when the value written was not marked. */
  lemma OverwrittenInnerTightIff(
      p: Program, k: nat, call: Call, initial: State, y: Object, x: Object, data: bool)
    requires IsCallOf(p, k, call, OverwriteInner(p, y, x)) && x != p.inner && !IsFormal(p, x) && !IsFormal(p, y)
    requires p.depth(p.inner) == 0 && p.depth(x) == 0
    ensures var r := OrderedCall(p, call, initial);
            && r.Done? && Flagged(ObjectDependency(p, r.state, x), data)
            && (Left(p, call, initial, x, data) <==> Flagged(ObjectDependency(p, initial, y), data))
  {
    hide RunAll, Typed, Left, ObjectTargets, OrderedCall;
    var none: Env := map[];
    var body, s := OverwriteInner(p, y, x), Entry(initial);
    var s1 := SetDependency(s, p.inner, ExprDependency(p, none, s, Var(y)));
    CopyApplies(p, s, p.inner, Var(y));
    CopyApplies(p, s1, x, Var(p.inner));
    assert body[1..] == [body[1]] && [body[1]][1..] == [];
    var s2 := SetDependency(s1, x, ExprDependency(p, none, s1, Var(p.inner)));
    assert ApplyAll(p, body, s) == ApplyAll(p, [body[1]], s1) == Some(s2);
    CallOfBody(p, k, call, body, initial);
    LeftByBody(p, k, call, body, initial, x, data);
    forall m | CoversNow(p, initial, m) && RunAll(p, body, m).Some? && Carried(Load(RunAll(p, body, m).value, x), data)
      ensures Flagged(ObjectDependency(p, initial, y), data)
    {
      OverwriteRuns(p, m, y, x, data);
    }
    if Flagged(ObjectDependency(p, initial, y), data) {
      var c: Choice := map[];
      var m := Filled(p, none, initial, c);
      ChosenFits(p, none, initial, c);
      DescribedIsCoversNow(p, initial, m);
      FilledAt(p, none, initial, c, y);
      OverwriteRuns(p, m, y, x, data);
    }
  }
}
