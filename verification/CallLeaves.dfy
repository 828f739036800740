/**
 Calls in conditions, case expressions and statements: whenever the ordered
 transfer answers, its state replaces what the conservative transfer says
 (checks/ps1006.go:435-525). This joins the ordered transfer to the coverage
 of conditions and switches.
 */
module CallLeaves {
  import opened AliasResolution
  import CallPrecision
  import opened ConditionFlow
  import opened Confinement
  import opened DependencyState
  import opened GoBodies
  import opened OrderedSoundness
  import opened OrderedTransfer
  import opened SwitchCoverage
  import opened SwitchFlow
  import opened Wrappers

  type Callables = Leaf -> Option<GoBodies.Call>

  /** The ordered state is authoritative for all objects; aliases are taken over only where they
      are tracked. */
  function Authoritative(s: State, ordered: State): State {
    State(ordered.deps, ordered.strideDeps, if s.aliases.Some? then Some(Tracked(ordered)) else None)
  }

  /** ps1006ApplyCaseExpression. */
  function ApplyCaseExpression(p: Program, o: Oracle, calls: Callables, l: Leaf, s: State): State {
    match calls(l)
    case None => o.apply(l, s)
    case Some(c) =>
      var r := OrderedCall(p, c, s);
      if r.Done? then Authoritative(s, r.state)
      else o.apply(l, s)
  }

  function Refined(p: Program, o: Oracle, calls: Callables): Oracle {
    o.(apply := (l: Leaf, s: State) => ApplyCaseExpression(p, o, calls, l, s))
  }

  /** Where running the leaf ends, it does what running the call along some path does. */
  ghost predicate RunsAsCalls(g: Ground, o: Oracle, calls: Callables, paths: (Leaf, Store) -> Path) {
    forall l: Leaf, m: Store | calls(l).Some? && o.run(l, m).Some? ::
      var out := RunCall(g.p, calls(l).value, paths(l, m), m); out.Returned? && out.store == o.run(l, m).value.0
  }

  /** Leaves that run their call along the chosen path, and panic where the call does. */
  function Running(p: Program, o: Oracle, calls: Callables, paths: (Leaf, Store) -> Path): Oracle {
    o.(run := (l: Leaf, m: Store) =>
      match calls(l)
      case None => o.run(l, m)
      case Some(c) =>
        match RunCall(p, c, paths(l, m), m)
        case Returned(m', values) => Some((m', values != [] && values[0].value != Num(0)))
        case _ => None)
  }

  /** Any calls whatever, also those that dereference captured pointers, meet the premise. */
  lemma RunningRunsAsCalls(g: Ground, o: Oracle, calls: Callables, paths: (Leaf, Store) -> Path)
    ensures RunsAsCalls(g, Running(g.p, o, calls, paths), calls, paths)
  {
    hide RunCall;
  }

  /** Scans fit, and loops that do not settle go round at most eight times. */
  ghost predicate FewRounds(g: Ground, o: Oracle, calls: Callables, paths: (Leaf, Store) -> Path) {
    forall l: Leaf, s: State, m: Store | calls(l).Some? && Describes(g, s, m) && o.run(l, m).Some? ::
      var r := OrderedCall(g.p, calls(l).value, s);
      r.Done? ==> r.fits && (r.settled || AtMost(paths(l, m), LOOP_ROUNDS))
  }

  /** What a pointer resolved to at the start. */
  function AtStart(g: Ground, q: Object): Alias {
    ObjectTargets(g.p, map[], g.start, q)
  }

  /** Where aliases are not tracked, what was known at the start still covers the pointers a call leaves. */
  ghost predicate ProvenanceHolds(g: Ground, o: Oracle, calls: Callables) {
    forall l: Leaf, s: State, m: Store, q: Object
      | calls(l).Some? && s.aliases.None? && Describes(g, s, m) && o.run(l, m).Some? && !IsFormal(g.p, q) ::
      PointerCovered(Load(o.run(l, m).value.0, q), AtStart(g, q))
  }

  /** Calls are expressions. Their arguments name no formals, and take addresses of free objects only. */
  ghost predicate CallsFit(g: Ground, o: Oracle, calls: Callables) {
    forall l: Leaf | calls(l).Some? ::
      && ScopedAll(g.p, {}, calls(l).value.args) && TakenIn(Members(calls(l).value.args)) <= g.free
      && o.retargets(l)
  }

  /** The free objects are all that the program can write or retarget, and untracked pointers are
      anchored outside them. This is decided before anything runs. */
  ghost predicate Prepared(g: Ground) {
    WellFormed(g.p) && Grounded(g) && Mentioned(g.p) <= g.free
  }

  ghost predicate Joined(g: Ground, o: Oracle, calls: Callables, paths: (Leaf, Store) -> Path) {
    && Prepared(g) && CallsFit(g, o, calls) && RunsAsCalls(g, o, calls, paths) && FewRounds(g, o, calls, paths)
    && ProvenanceHolds(g, o, calls)
  }

  /** One call that the ordered transfer answers. */
  lemma CallLeafCovers(g: Ground, c: GoBodies.Call, path: Path, s: State, m: Store)
    requires Prepared(g) && ScopedAll(g.p, {}, c.args) && TakenIn(Members(c.args)) <= g.free && Describes(g, s, m)
    requires RunCall(g.p, c, path, m).Returned?
    requires var r := OrderedCall(g.p, c, s);
             r.Done? && r.fits && (r.settled || AtMost(path, LOOP_ROUNDS))
    requires s.aliases.None? ==>
               forall q: Object | !IsFormal(g.p, q) ::
                 PointerCovered(Load(RunCall(g.p, c, path, m).store, q), AtStart(g, q))
    ensures Describes(g, Authoritative(s, OrderedCall(g.p, c, s).state), RunCall(g.p, c, path, m).store)
  {
    hide WellFormed, RunCall, TransferCall, ScopedAll, Anchored, Retargets, ObjectTargets, StateInside, Mentioned;
    AnswerStaysInside(g, c, s);
    var entry := s.(aliases := Some(Tracked(s)));
    SameKeyCovers(g, s, entry, m);
    var noFormals: Env := map[];
    assert noFormals.Keys == {};
    CallSound(g, c, noFormals, entry, {}, CALL_BUDGET, path, m);
    var r, after := OrderedCall(g.p, c, s), RunCall(g.p, c, path, m).store;
    assert Sound(g, {}, r.state, r.written, m, after);
    var t := Authoritative(s, r.state);
    if s.aliases.Some? {
      SameKeyCovers(g, r.state, t, after);
    } else {
      assert Tracked(t) == Tracked(s) == map[];
      forall q: Object | !IsFormal(g.p, q)
        ensures CellCovered(Load(after, q), ObjectDependency(g.p, t, q))
                && PointerCovered(Load(after, q), Described(g, t, q))
      {
        assert ObjectDependency(g.p, t, q) == ObjectDependency(g.p, r.state, q);
      }
    }
  }

  /** An answer writes free objects only, and tracks free objects only. */
  lemma AnswerStaysInside(g: Ground, c: GoBodies.Call, s: State)
    requires Mentioned(g.p) <= g.free && TakenIn(Members(c.args)) <= g.free && StateInside(g.free, s)
    ensures var r := OrderedCall(g.p, c, s);
            r.Done? ==> r.written <= g.free && StateInside(g.free, Authoritative(s, r.state))
  {
    hide TransferCall, Mentioned, PlainlyIndexed;
    var entry := s.(aliases := Some(Tracked(s)));
    assert Tracked(entry) == Tracked(s);
    CallStays(g.p, g.free, false, c, map[], entry, {}, CALL_BUDGET);
    var r := OrderedCall(g.p, c, s);
    if r.Done? {
      var t := Authoritative(s, r.state);
      assert Tracked(t) == if s.aliases.Some? then Tracked(r.state) else map[];
    }
  }

  /** Replacing the conservative transfer by the ordered one keeps a sound oracle sound. */
  lemma RefinedIsTrusted(g: Ground, o: Oracle, calls: Callables, paths: (Leaf, Store) -> Path)
    requires Trusted(g, o) && Joined(g, o, calls, paths)
    ensures Trusted(g, Refined(g.p, o, calls))
  {
    hide Describes, OrderedCall, RunCall, WellFormed, ScopedAll, Authoritative, Grounded, AtStart, Mentioned,
      StateInside;
    var q := Refined(g.p, o, calls);
    forall l: Leaf, s: State, m: Store | Describes(g, s, m) && q.run(l, m).Some?
      ensures Describes(g, q.apply(l, s), q.run(l, m).value.0)
    {
      if calls(l).Some? && OrderedCall(g.p, calls(l).value, s).Done? {
        CallLeafCovers(g, calls(l).value, paths(l, m), s, m);
      }
    }
    forall l: Leaf, s: State | StateInside(g.free, s) ensures StateInside(g.free, q.apply(l, s)) {
      if calls(l).Some? && OrderedCall(g.p, calls(l).value, s).Done? { AnswerStaysInside(g, calls(l).value, s); }
    }
  }

  /** What an answered call marks, and so the refined state, is left marked by some run of the call. */
  lemma AnsweredLeafTight(
      p: Program, w: set<Object>, o: Oracle, calls: Callables, l: Leaf, s: State, x: Object, data: bool)
    requires calls(l).Some? && OrderedCall(p, calls(l).value, s).Done?
    requires CallPrecision.SharpEntry(p, w, calls(l).value, s) && !IsFormal(p, x)
    requires var t := Refined(p, o, calls).apply(l, s); if data then x in t.deps else Stride(t, x) != ""
    ensures exists m, path ::
              && CoversNow(p, s, m) && Typed(p, m) && RunCall(p, calls(l).value, path, m).Returned?
              && var c := Load(RunCall(p, calls(l).value, path, m).store, x); if data then c.data else c.stride
  {
    hide OrderedCall, CallPrecision.SharpEntry, RunCall, Typed, CoversNow;
    CallPrecision.CallTight(p, w, calls(l).value, s, x, data);
  }

  /**
   Conditions and switches whose leaves call functions: with the ordered transfer
   in place of the conservative one, short-circuit evaluation and the states
   leaving a switch are covered.
   */
  lemma CallsInBranchesCovered(
      g: Ground, o: Oracle, calls: Callables, paths: (Leaf, Store) -> Path,
      cond: Cond, clauses: seq<Clause>, tagless: bool, continues: bool, s: State, m: Store, fuel: nat)
    requires Trusted(g, o) && Joined(g, o, calls, paths)
    requires Describes(g, s, m) && RegularClauses(o, clauses, continues)
    ensures var r, e := CondStates(Refined(g.p, o, calls), cond, s), EvalCond(Refined(g.p, o, calls), cond, m);
            r.Within() && e.Some? ==> SomeCovers(g, Side(r, e.value.1), e.value.0)
    ensures var r := SwitchExits(Refined(g.p, o, calls), clauses, s, tagless);
            Usable(r.Within(), r.settled, fuel) ==>
              ExitsCover(g, r, Allowed(NoBreak, continues), RunSwitch(Refined(g.p, o, calls), clauses, m, fuel))
  {
    hide Trusted, Describes, Joined, SwitchExits, RunSwitch, CondStates, EvalCond;
    RefinedIsTrusted(g, o, calls, paths);
    var q := Refined(g.p, o, calls);
    if CondStates(q, cond, s).Within() && EvalCond(q, cond, m).Some? { CondCovers(g, q, cond, s, m); }
    RegularStays(o, q, clauses, continues);
    var r := SwitchExits(q, clauses, s, tagless);
    if Usable(r.Within(), r.settled, fuel) { SwitchCovers(g, q, clauses, s, tagless, continues, m, fuel); }
  }
}
