/**
 Resolving a pointer the alias map does not track (checks/ps1006.go:1811-1934).

 The values such a pointer may have been given are looked at in the current
 map. So retargeting one pointer can change what another, untracked one
 resolves to, although nothing was stored in it. This module says exactly when
 that does no harm.
 */
module AliasResolution {
  import opened DependencyState
  import opened GoBodies
  import opened OrderedTransfer
  import opened Wrappers

  type Aliases = map<Object, Alias>

  predicate PointerCovered(c: Cell, a: Alias) {
    c.value.Ref? && a.known ==> c.value.target in a.targets
  }

  /** Whatever cell `a` covers, `b` covers. */
  predicate Below(a: Alias, b: Alias) {
    b.known ==> a.known && a.targets <= b.targets
  }

  function Formals(p: Program): set<Object> {
    set f, o | 0 <= f < |p.functions| && o in p.functions[f].params :: o
  }

  // ----- resolution that leaves objects out -----

  /** The targets found through the values of `o` without looking at the objects in `free`. */
  function Expand(p: Program, aliases: Aliases, free: set<Object>, o: Object, seen: set<Object>): Alias
    decreases |p.values.Keys - seen|, 0
  {
    if o in seen || o !in p.values || p.values[o] == [] then UNKNOWN_ALIAS
    else
      FewerLeft(p.values.Keys, seen, o);
      var more := seen + {o};
      if exists v | v in p.values[o] :: !Without(p, aliases, free, v, more).known then UNKNOWN_ALIAS
      else Alias(set v, t | v in p.values[o] && t in Without(p, aliases, free, v, more).targets :: t, true)
  }

  function WithoutObject(p: Program, aliases: Aliases, free: set<Object>, o: Object, seen: set<Object>): Alias
    decreases |p.values.Keys - seen|, 1
  {
    if o in seen then UNKNOWN_ALIAS
    else if o in free then Alias({}, true)
    else if o in aliases then aliases[o]
    else Expand(p, aliases, free, o, seen)
  }

  function Without(p: Program, aliases: Aliases, free: set<Object>, e: Expr, seen: set<Object>): Alias
    decreases |p.values.Keys - seen|, 2, e
  {
    match e
    case AddressOf(o) => Alias({o}, true)
    case Var(o) => WithoutObject(p, aliases, free, o, seen)
    case Deref(x) =>
      var a := Without(p, aliases, free, x, seen);
      if !a.known || exists o | o in a.targets :: !WithoutObject(p, aliases, free, o, seen).known then UNKNOWN_ALIAS
      else Alias(set o, t | o in a.targets && t in WithoutObject(p, aliases, free, o, seen).targets :: t, true)
    case Convert(_, x) => Without(p, aliases, free, x, seen)
    case _ => UNKNOWN_ALIAS
  }

  /** The objects in `free` may be retargeted at will; elsewhere the map may only forget. */
  ghost predicate Retargets(aliases: Aliases, later: Aliases, free: set<Object>) {
    && aliases.Keys <= later.Keys
    && forall o | o in later && o !in free && later[o].known ::
         o in aliases && aliases[o].known && aliases[o].targets <= later[o].targets
  }

  /**
   Every target of an untracked pointer is found again when the objects in
   `free` are left out, unless something else makes the pointer unknown. A
   caller can decide this before any body runs: it looks at the values and the
   alias map only.
   */
  predicate Anchored(p: Program, aliases: Aliases, free: set<Object>) {
    forall o | o in p.values && o !in Formals(p) && o !in aliases ::
      Below(ResolveObject(p, map[], aliases, o, {}), Expand(p, aliases, free, o, {}))
  }

  // ----- leaving out is the worst that retargeting can do -----

  lemma {:induction false} ResolveAbove(
      p: Program, env: Env, aliases: Aliases, later: Aliases, free: set<Object>, e: Expr, seen: set<Object>)
    requires Retargets(aliases, later, free) && env.Keys <= free
    ensures Below(Without(p, aliases, free, e, seen), Resolve(p, env, later, e, seen))
    decreases |p.values.Keys - seen|, 2, e
  {
    hide Expand, WithoutObject, ResolveObject, Retargets;
    match e
    case Var(o) =>
      if o in env { FreeObject(p, aliases, free, o, seen); }
      else { ObjectAbove(p, env, aliases, later, free, o, seen); }
    case Deref(x) =>
      ResolveAbove(p, env, aliases, later, free, x, seen);
      var a := Without(p, aliases, free, x, seen);
      forall o | o in a.targets
        ensures Below(WithoutObject(p, aliases, free, o, seen), ResolveObject(p, env, later, o, seen))
      {
        ObjectAbove(p, env, aliases, later, free, o, seen);
      }
    case Convert(_, x) => ResolveAbove(p, env, aliases, later, free, x, seen);
    case _ =>
  }

  lemma FreeObject(p: Program, aliases: Aliases, free: set<Object>, o: Object, seen: set<Object>)
    requires o in free
    ensures WithoutObject(p, aliases, free, o, seen) == if o in seen then UNKNOWN_ALIAS else Alias({}, true)
  {
  }

  lemma ObjectAbove(
      p: Program, env: Env, aliases: Aliases, later: Aliases, free: set<Object>, o: Object, seen: set<Object>)
    requires Retargets(aliases, later, free) && env.Keys <= free
    ensures Below(WithoutObject(p, aliases, free, o, seen), ResolveObject(p, env, later, o, seen))
    decreases |p.values.Keys - seen|, 1
  {
    if o !in seen && o !in later { ExpandAbove(p, env, aliases, later, free, o, seen); }
  }

  lemma ExpandAbove(
      p: Program, env: Env, aliases: Aliases, later: Aliases, free: set<Object>, o: Object, seen: set<Object>)
    requires Retargets(aliases, later, free) && env.Keys <= free && o !in later
    ensures Below(Expand(p, aliases, free, o, seen), ResolveObject(p, env, later, o, seen))
    decreases |p.values.Keys - seen|, 0
  {
    hide Retargets, Resolve, Without;
    if o !in seen && o in p.values {
      FewerLeft(p.values.Keys, seen, o);
      var more := seen + {o};
      forall v | v in p.values[o]
        ensures Below(Without(p, aliases, free, v, more), Resolve(p, env, later, v, more))
      {
        ResolveAbove(p, env, aliases, later, free, v, more);
      }
    }
  }

  // ----- leaving out less -----

  lemma {:induction false} WithoutShrinks(
      p: Program, aliases: Aliases, free: set<Object>, less: set<Object>, e: Expr, seen: set<Object>)
    requires less <= free
    ensures Below(Without(p, aliases, free, e, seen), Without(p, aliases, less, e, seen))
    decreases |p.values.Keys - seen|, 2, e
  {
    hide Expand, WithoutObject;
    match e
    case Var(o) => ObjectShrinks(p, aliases, free, less, o, seen);
    case Deref(x) =>
      WithoutShrinks(p, aliases, free, less, x, seen);
      forall o ensures Below(WithoutObject(p, aliases, free, o, seen), WithoutObject(p, aliases, less, o, seen)) {
        ObjectShrinks(p, aliases, free, less, o, seen);
      }
    case Convert(_, x) => WithoutShrinks(p, aliases, free, less, x, seen);
    case _ =>
  }

  lemma ObjectShrinks(
      p: Program, aliases: Aliases, free: set<Object>, less: set<Object>, o: Object, seen: set<Object>)
    requires less <= free
    ensures Below(WithoutObject(p, aliases, free, o, seen), WithoutObject(p, aliases, less, o, seen))
    decreases |p.values.Keys - seen|, 1
  {
    if o !in seen && o !in free && o !in aliases { ExpandShrinks(p, aliases, free, less, o, seen); }
  }

  lemma ExpandShrinks(
      p: Program, aliases: Aliases, free: set<Object>, less: set<Object>, o: Object, seen: set<Object>)
    requires less <= free
    ensures Below(Expand(p, aliases, free, o, seen), Expand(p, aliases, less, o, seen))
    decreases |p.values.Keys - seen|, 0
  {
    hide Without;
    if o !in seen && o in p.values {
      FewerLeft(p.values.Keys, seen, o);
      var more := seen + {o};
      forall v | v in p.values[o]
        ensures Below(Without(p, aliases, free, v, more), Without(p, aliases, less, v, more))
      {
        WithoutShrinks(p, aliases, free, less, v, more);
      }
    }
  }

  /** Fewer free objects ask for less. */
  lemma FewerAnchored(p: Program, aliases: Aliases, free: set<Object>, less: set<Object>)
    requires Anchored(p, aliases, free) && less <= free
    ensures Anchored(p, aliases, less)
  {
    hide Expand, ResolveObject;
    forall o | o in p.values && o !in Formals(p) && o !in aliases
      ensures Below(ResolveObject(p, map[], aliases, o, {}), Expand(p, aliases, less, o, {}))
    {
      ExpandShrinks(p, aliases, free, less, o, {});
    }
  }

  /** What the code resolves an object to later covers what it resolved to, or was tracked as, before. */
  lemma TargetsAbove(
      p: Program, env: Env, aliases: Aliases, later: Aliases, free: set<Object>, o: Object)
    requires Retargets(aliases, later, free) && env.Keys <= free
    requires Anchored(p, aliases, free) && o !in Formals(p)
    ensures Below(
              if o in later then later[o] else ResolveObject(p, map[], aliases, o, {}),
              ResolveObject(p, env, later, o, {}))
  {
    if o !in later && o in p.values {
      ExpandAbove(p, env, aliases, later, free, o, {});
      assert o !in aliases;
    }
  }

  /** Resolving the values of `o` never looks at a free object. */
  predicate AvoidsValues(p: Program, aliases: Aliases, free: set<Object>, o: Object, seen: set<Object>)
    decreases |p.values.Keys - seen|, 0
  {
    if o in seen || o !in p.values then true
    else
      FewerLeft(p.values.Keys, seen, o);
      forall v | v in p.values[o] :: Avoids(p, aliases, free, v, seen + {o})
  }

  predicate AvoidsObject(p: Program, aliases: Aliases, free: set<Object>, o: Object, seen: set<Object>)
    decreases |p.values.Keys - seen|, 1
  {
    o !in free && (o in aliases || AvoidsValues(p, aliases, free, o, seen))
  }

  predicate Avoids(p: Program, aliases: Aliases, free: set<Object>, e: Expr, seen: set<Object>)
    decreases |p.values.Keys - seen|, 2, e
  {
    match e
    case Var(o) => AvoidsObject(p, aliases, free, o, seen)
    case Deref(x) =>
      && Avoids(p, aliases, free, x, seen)
      && forall o | o in Resolve(p, map[], aliases, x, seen).targets :: AvoidsObject(p, aliases, free, o, seen)
    case Convert(_, x) => Avoids(p, aliases, free, x, seen)
    case _ => true
  }

  lemma {:induction false} AvoidingKeeps(p: Program, aliases: Aliases, free: set<Object>, e: Expr, seen: set<Object>)
    requires Inhabited(aliases) && Avoids(p, aliases, free, e, seen)
    ensures Below(Resolve(p, map[], aliases, e, seen), Without(p, aliases, free, e, seen))
    decreases |p.values.Keys - seen|, 2, e
  {
    hide Inhabited, AvoidsObject, ResolveObject, WithoutObject;
    match e
    case Var(o) => AvoidingObject(p, aliases, free, o, seen);
    case Deref(x) =>
      AvoidingKeeps(p, aliases, free, x, seen);
      var a := Resolve(p, map[], aliases, x, seen);
      if a.known { ResolveInhabits(p, aliases, x, seen); }
      forall o | o in a.targets
        ensures Below(ResolveObject(p, map[], aliases, o, seen), WithoutObject(p, aliases, free, o, seen))
        ensures ResolveObject(p, map[], aliases, o, seen).known ==>
                ResolveObject(p, map[], aliases, o, seen).targets != {}
      {
        AvoidingObject(p, aliases, free, o, seen);
      }
    case Convert(_, x) => AvoidingKeeps(p, aliases, free, x, seen);
    case _ =>
  }

  /** What is known has a target. */
  lemma {:induction false} ResolveInhabits(p: Program, aliases: Aliases, e: Expr, seen: set<Object>)
    requires Inhabited(aliases)
    ensures Resolve(p, map[], aliases, e, seen).known ==> Resolve(p, map[], aliases, e, seen).targets != {}
    decreases e
  {
    match e
    case Convert(_, x) => ResolveInhabits(p, aliases, x, seen);
    case _ =>
  }

  lemma AvoidingObject(p: Program, aliases: Aliases, free: set<Object>, o: Object, seen: set<Object>)
    requires Inhabited(aliases) && AvoidsObject(p, aliases, free, o, seen)
    ensures var r := ResolveObject(p, map[], aliases, o, seen);
            Below(r, WithoutObject(p, aliases, free, o, seen)) && (r.known ==> r.targets != {})
    decreases |p.values.Keys - seen|, 1
  {
    if o !in seen && o !in aliases { AvoidingValues(p, aliases, free, o, seen); }
  }

  lemma AvoidingValues(p: Program, aliases: Aliases, free: set<Object>, o: Object, seen: set<Object>)
    requires Inhabited(aliases) && o !in aliases && AvoidsValues(p, aliases, free, o, seen)
    ensures Below(ResolveObject(p, map[], aliases, o, seen), Expand(p, aliases, free, o, seen))
    decreases |p.values.Keys - seen|, 0
  {
    hide Inhabited, Resolve, Without, Avoids;
    if o !in seen && o in p.values && p.values[o] != [] && Expand(p, aliases, free, o, seen).known {
      FewerLeft(p.values.Keys, seen, o);
      var more := seen + {o};
      forall v | v in p.values[o]
        ensures Below(Resolve(p, map[], aliases, v, more), Without(p, aliases, free, v, more))
        ensures Resolve(p, map[], aliases, v, more).known ==> Resolve(p, map[], aliases, v, more).targets != {}
      {
        AvoidingKeeps(p, aliases, free, v, more);
        ResolveInhabits(p, aliases, v, more);
      }
      var v := p.values[o][0];
      assert v in p.values[o] && Resolve(p, map[], aliases, v, more).known;
      var t :| t in Resolve(p, map[], aliases, v, more).targets;
      assert t in ResolveObject(p, map[], aliases, o, seen).targets;
    }
  }

  /** In particular: no value chain of an untracked pointer meets a free object. */
  lemma AvoidingAnchors(p: Program, aliases: Aliases, free: set<Object>)
    requires Inhabited(aliases)
    requires forall o | o in p.values && o !in Formals(p) && o !in aliases :: AvoidsValues(p, aliases, free, o, {})
    ensures Anchored(p, aliases, free)
  {
    hide Inhabited, AvoidsValues, ResolveObject, Expand;
    forall o | o in p.values && o !in Formals(p) && o !in aliases
      ensures Below(ResolveObject(p, map[], aliases, o, {}), Expand(p, aliases, free, o, {}))
    {
      AvoidingValues(p, aliases, free, o, {});
    }
  }

  // ----- and it can do that -----

  predicate DerefFree(e: Expr) {
    match e
    case Deref(_) => false
    case Unary(_, x) => DerefFree(x)
    case Binary(_, l, r) => DerefFree(l) && DerefFree(r)
    case Convert(_, x) => DerefFree(x)
    case Index(x, i) => DerefFree(x) && DerefFree(i)
    case _ => true
  }

  /** Pointers are copied and taken, never loaded through pointers. */
  predicate Copies(p: Program) {
    forall o, v | o in p.values && v in p.values[o] :: DerefFree(v)
  }

  predicate Inhabited(aliases: Aliases) {
    forall o | o in aliases && aliases[o].known :: aliases[o].targets != {}
  }

  /** All objects in `free` but one now point to `b`. */
  function AllTo(aliases: Aliases, free: set<Object>, o: Object, b: Object): Aliases {
    map f | f in aliases.Keys + (free - {o}) :: if f in free - {o} then Alias({b}, true) else aliases[f]
  }

  predicate Adds(a: Alias, b: Alias, extra: Object) {
    a.known ==> b.known && b.targets != {} && b.targets <= a.targets + {extra}
  }

  lemma {:induction false} ResolveAdds(
      p: Program, aliases: Aliases, free: set<Object>, top: Object, b: Object, e: Expr, seen: set<Object>)
    requires Copies(p) && Inhabited(aliases) && top in seen && DerefFree(e)
    ensures Adds(Without(p, aliases, free, e, seen), Resolve(p, map[], AllTo(aliases, free, top, b), e, seen), b)
    decreases |p.values.Keys - seen|, 2, e
  {
    hide Copies, Inhabited, Expand, WithoutObject, ResolveObject, AllTo;
    match e
    case Var(o) => ObjectAdds(p, aliases, free, top, b, o, seen);
    case Convert(_, x) => ResolveAdds(p, aliases, free, top, b, x, seen);
    case _ =>
  }

  lemma ObjectAdds(
      p: Program, aliases: Aliases, free: set<Object>, top: Object, b: Object, o: Object, seen: set<Object>)
    requires Copies(p) && Inhabited(aliases) && top in seen
    ensures Adds(WithoutObject(p, aliases, free, o, seen),
                 ResolveObject(p, map[], AllTo(aliases, free, top, b), o, seen), b)
    decreases |p.values.Keys - seen|, 1
  {
    if o !in seen && o !in free && o !in aliases { ExpandAdds(p, aliases, free, top, b, o, seen); }
  }

  lemma ExpandAdds(
      p: Program, aliases: Aliases, free: set<Object>, top: Object, b: Object, o: Object, seen: set<Object>)
    requires Copies(p) && Inhabited(aliases) && (top in seen || top == o) && o !in AllTo(aliases, free, top, b)
    ensures Adds(Expand(p, aliases, free, o, seen), ResolveObject(p, map[], AllTo(aliases, free, top, b), o, seen), b)
    decreases |p.values.Keys - seen|, 0
  {
    hide Inhabited, AllTo, Resolve, Without;
    var later := AllTo(aliases, free, top, b);
    if o !in seen && o in p.values && p.values[o] != [] && Expand(p, aliases, free, o, seen).known {
      FewerLeft(p.values.Keys, seen, o);
      var more := seen + {o};
      forall v | v in p.values[o]
        ensures Adds(Without(p, aliases, free, v, more), Resolve(p, map[], later, v, more), b)
      {
        ResolveAdds(p, aliases, free, top, b, v, more);
      }
      var v := p.values[o][0];
      assert v in p.values[o] && Resolve(p, map[], later, v, more).known;
      var t :| t in Resolve(p, map[], later, v, more).targets;
      var r := ResolveObject(p, map[], later, o, seen);
      assert t in r.targets;
    }
  }

  /** No retargeting of the free objects makes an untracked pointer lose a target. */
  ghost predicate KeepsTargets(p: Program, aliases: Aliases, free: set<Object>) {
    forall later: Aliases, o: Object, c: Cell
      | Retargets(aliases, later, free) && o in p.values && o !in Formals(p) && o !in later ::
      PointerCovered(c, ResolveObject(p, map[], aliases, o, {})) ==>
        PointerCovered(c, ResolveObject(p, map[], later, o, {}))
  }

  /** An object beyond a finite set. */
  lemma Fresh(s: set<Object>) returns (b: Object)
    ensures forall o | o in s :: o < b
    decreases s
  {
    b := 0;
    if s != {} {
      var o :| o in s;
      var rest := Fresh(s - {o});
      b := if o < rest then rest else o + 1;
      assert forall u | u in s :: u == o || u in s - {o};
    }
  }

  /**
   Anchoring is exact. While pointers are only copied and taken, every way of
   retargeting the free objects leaves every store that was described described
   if and only if the untracked pointers are anchored outside them.
   */
  lemma RetargetCoveredIff(p: Program, aliases: Aliases, free: set<Object>)
    requires Copies(p) && Inhabited(aliases)
    ensures Anchored(p, aliases, free) <==> KeepsTargets(p, aliases, free)
  {
    if Anchored(p, aliases, free) {
      forall later: Aliases, o: Object, c: Cell
        | Retargets(aliases, later, free) && o in p.values && o !in Formals(p) && o !in later
        ensures PointerCovered(c, ResolveObject(p, map[], aliases, o, {})) ==>
                PointerCovered(c, ResolveObject(p, map[], later, o, {}))
      {
        hide Anchored, ResolveObject, Retargets;
        var none: Env := map[];
        assert none.Keys == {};
        TargetsAbove(p, none, aliases, later, free, o);
      }
    } else {
      var o :| o in p.values && o !in Formals(p) && o !in aliases
               && !Below(ResolveObject(p, map[], aliases, o, {}), Expand(p, aliases, free, o, {}));
      SomethingLost(p, aliases, free, o);
    }
  }

  lemma SomethingLost(p: Program, aliases: Aliases, free: set<Object>, o: Object)
    requires Copies(p) && Inhabited(aliases) && o in p.values && o !in Formals(p) && o !in aliases
    requires !Below(ResolveObject(p, map[], aliases, o, {}), Expand(p, aliases, free, o, {}))
    ensures !KeepsTargets(p, aliases, free)
  {
    hide ResolveObject, Expand, Copies, Inhabited;
    var was, left := ResolveObject(p, map[], aliases, o, {}), Expand(p, aliases, free, o, {});
    var b := Fresh(was.targets + left.targets);
    var later := AllTo(aliases, free, o, b);
    assert Retargets(aliases, later, free);
    ExpandAdds(p, aliases, free, o, b, o, {});
    var t := b + 1;
    if was.known { t :| t in was.targets && t !in left.targets; }
    assert t !in left.targets + {b};
    var c := Cell(Ref(t), false, false);
    assert PointerCovered(c, was) && !PointerCovered(c, ResolveObject(p, map[], later, o, {}));
  }
}
