/**
 The abstract state of PS1006's dependency interpreter and its join
 (checks/ps1006.go:399-408, 2630-2680, 4902-4940).

 Objects are identities. A stride entry whose key is the empty string counts as
 absent, as in the code. An alias set is a set: every producer in the code
 removes duplicates, and every consumer asks for membership or for the count.
 */
module DependencyState {
  import opened Wrappers

  type Object = nat

  const MAY_STRIDE := "$may-stride"

  /** How often the analysis goes round a loop before it gives up waiting for a repeated head. */
  const LOOP_ROUNDS: nat := 8

  datatype Alias = Alias(targets: set<Object>, known: bool)

  const UNKNOWN_ALIAS := Alias({}, false)

  /** `aliases` is None when the alias map is nil, that is, not tracked. */
  datatype State = State(deps: set<Object>, strideDeps: map<Object, string>, aliases: Option<map<Object, Alias>>)

  function Tracked(s: State): map<Object, Alias> {
    match s.aliases
    case Some(m) => m
    case None => map[]
  }

  function Lookup(strides: map<Object, string>, o: Object): string {
    if o in strides then strides[o] else ""
  }

  function Stride(s: State, o: Object): string {
    Lookup(s.strideDeps, o)
  }

  /** What the textual state key distinguishes. */
  function Key(s: State): (set<Object>, map<Object, string>, map<Object, Alias>) {
    (s.deps, s.strideDeps, Tracked(s))
  }

  // ----- the n-ary join, declaratively -----

  function UnionDeps(states: seq<State>): set<Object> {
    set s, o | s in states && o in s.deps :: o
  }

  function StrideKeys(states: seq<State>, o: Object): set<string> {
    set s | s in states && Stride(s, o) != "" :: Stride(s, o)
  }

  function UnionStride(states: seq<State>, o: Object): string {
    StrideTop(StrideKeys(states, o))
  }

  /** The flat lattice: no key, one key, or the may-stride top. */
  function StrideTop(keys: set<string>): (r: string)
    ensures keys == {} ==> r == ""
    ensures forall k | k in keys :: r == k || r == MAY_STRIDE
    ensures forall j, k | j in keys && k in keys && j != k :: r == MAY_STRIDE
    ensures (forall j, k | j in keys && k in keys :: j == k) && keys != {} ==> r in keys
  {
    if keys == {} then "" else if |keys| == 1 then Sole(keys) else
      SeveralKeys(keys);
      MAY_STRIDE
  }

  lemma SeveralKeys(keys: set<string>)
    requires |keys| > 1
    ensures exists j, k :: j in keys && k in keys && j != k
  {
    var j :| j in keys;
    assert keys != {j};
    var k :| k in keys && k != j;
  }

  /** The only element of a singleton. */
  function Sole<T(==)>(s: set<T>): (x: T)
    requires |s| == 1
    ensures s == {x}
  {
    SoleIsUnique(s);
    var x :| x in s; x
  }

  lemma SoleIsUnique<T>(s: set<T>)
    requires |s| == 1
    ensures forall x, y :: x in s && y in s ==> x == y
    ensures exists x :: s == {x}
  {
    var x :| x in s;
    assert |s - {x}| == 0;
    assert s == {x};
  }

  function StrideObjects(states: seq<State>): set<Object> {
    set s, o | s in states && o in s.strideDeps :: o
  }

  function AliasObjects(states: seq<State>): set<Object> {
    set s, o | s in states && o in Tracked(s) :: o
  }

  predicate KnownIn(s: State, o: Object) {
    o in Tracked(s) && Tracked(s)[o].known
  }

  function UnionAlias(states: seq<State>, o: Object): Alias {
    if forall s | s in states :: KnownIn(s, o)
    then Alias(set s, t | s in states && o in Tracked(s) && t in Tracked(s)[o].targets :: t, true)
    else UNKNOWN_ALIAS
  }

  function Union(states: seq<State>): State {
    State(
      UnionDeps(states),
      map o | o in StrideObjects(states) && UnionStride(states, o) != "" :: UnionStride(states, o),
      if exists s | s in states :: s.aliases.Some?
      then Some(map o | o in AliasObjects(states) :: UnionAlias(states, o))
      else None)
  }

  lemma UnionStrideIs(states: seq<State>, o: Object)
    ensures Stride(Union(states), o) == UnionStride(states, o)
  {
    if o !in StrideObjects(states) {
      assert StrideKeys(states, o) == {};
    }
  }

  // ----- the n-ary join, as the code computes it -----

  method UnionDependencyState(states: seq<State>) returns (union: State)
    ensures union == Union(states)
  {
    var deps: set<Object> := {};
    var strides: map<Object, string> := map[];
    for i := 0 to |states|
      invariant deps == UnionDeps(states[..i])
      invariant forall o :: Lookup(strides, o) == UnionStride(states[..i], o)
      invariant forall o | o in strides :: strides[o] != ""
    {
      assert states[..i + 1] == states[..i] + [states[i]];
      deps := deps + states[i].deps;
      forall o { UnionStrideAppend(states[..i], states[i], o); }
      strides := MergeStrides(states[i], strides);
    }
    assert states[..|states|] == states;
    UnionStridesAre(states, strides);
    var aliases := UnionAliases(states);
    union := State(deps, strides, aliases);
  }

  method UnionAliases(states: seq<State>) returns (aliases: Option<map<Object, Alias>>)
    ensures aliases == Union(states).aliases
  {
    var aliasObjects: set<Object> := {};
    var track := false;
    for i := 0 to |states|
      invariant aliasObjects == AliasObjects(states[..i])
      invariant track == exists s | s in states[..i] :: s.aliases.Some?
    {
      assert states[..i + 1] == states[..i] + [states[i]];
      track := track || states[i].aliases.Some?;
      aliasObjects := aliasObjects + Tracked(states[i]).Keys;
    }
    assert states[..|states|] == states;
    if !track { return None; }
    var merged: map<Object, Alias> := map[];
    var todo := aliasObjects;
    while todo != {}
      invariant todo <= aliasObjects && merged.Keys == aliasObjects - todo
      invariant forall o | o in merged :: merged[o] == UnionAlias(states, o)
      decreases todo
    {
      var o :| o in todo;
      var alias := MergeAlias(states, o);
      merged := merged[o := alias];
      todo := todo - {o};
    }
    aliases := Some(merged);
    assert merged == map o | o in AliasObjects(states) :: UnionAlias(states, o);
  }

  lemma UnionStridesAre(states: seq<State>, strides: map<Object, string>)
    requires forall o :: Lookup(strides, o) == UnionStride(states, o)
    requires forall o | o in strides :: strides[o] != ""
    ensures strides == Union(states).strideDeps
  {
    var u := Union(states).strideDeps;
    forall o ensures (o in strides) == (o in u) {
      assert Lookup(strides, o) == UnionStride(states, o);
      if o !in StrideObjects(states) { assert StrideKeys(states, o) == {}; }
    }
  }

  function JoinStride(existing: string, key: string): string {
    if key == "" then existing else if existing == "" || existing == key then key else MAY_STRIDE
  }

  /** One state's stride map is folded into the accumulator, in any key order. */
  method MergeStrides(next: State, strides: map<Object, string>) returns (merged: map<Object, string>)
    requires forall o | o in strides :: strides[o] != ""
    ensures forall o :: Lookup(merged, o) == JoinStride(Lookup(strides, o), Stride(next, o))
    ensures forall o | o in merged :: merged[o] != ""
  {
    merged := strides;
    var todo := next.strideDeps.Keys;
    while todo != {}
      invariant todo <= next.strideDeps.Keys
      invariant forall o | o in todo :: Lookup(merged, o) == Lookup(strides, o)
      invariant forall o | o !in todo :: Lookup(merged, o) == JoinStride(Lookup(strides, o), Stride(next, o))
      invariant forall o | o in merged :: merged[o] != ""
      decreases todo
    {
      var o :| o in todo;
      todo := todo - {o};
      var key := next.strideDeps[o];
      if key != "" {
        if o in merged && merged[o] != key {
          merged := merged[o := MAY_STRIDE];
        } else {
          merged := merged[o := key];
        }
      }
    }
  }

  lemma StrideTopAdd(keys: set<string>, key: string)
    requires key != "" && "" !in keys
    ensures StrideTop(keys + {key}) == JoinStride(StrideTop(keys), key)
  {
    var more := keys + {key};
    assert key in more;
    if keys != {} {
      var k :| k in keys;
      assert k in more;
      if forall j | j in keys :: j == key {
      } else {
        var j :| j in keys && j != key;
        assert j in more;
      }
    }
  }

  lemma UnionStrideAppend(before: seq<State>, next: State, o: Object)
    ensures UnionStride(before + [next], o) == JoinStride(UnionStride(before, o), Stride(next, o))
  {
    var keys, more := StrideKeys(before, o), StrideKeys(before + [next], o);
    if Stride(next, o) == "" {
      assert more == keys;
    } else {
      assert more == keys + {Stride(next, o)};
      StrideTopAdd(keys, Stride(next, o));
    }
  }

  method MergeAlias(states: seq<State>, o: Object) returns (alias: Alias)
    ensures alias == UnionAlias(states, o)
  {
    var targets: set<Object> := {};
    for i := 0 to |states|
      invariant forall s | s in states[..i] :: KnownIn(s, o)
      invariant targets == set s, t | s in states[..i] && o in Tracked(s) && t in Tracked(s)[o].targets :: t
    {
      assert states[..i + 1] == states[..i] + [states[i]];
      var tracked := Tracked(states[i]);
      if o !in tracked || !tracked[o].known {
        assert states[i] in states && !KnownIn(states[i], o);
        return UNKNOWN_ALIAS;
      }
      targets := targets + tracked[o].targets;
    }
    assert states[..|states|] == states;
    alias := Alias(targets, true);
  }

  // ----- the order the join belongs to -----

  predicate StrideLeq(a: string, b: string) {
    a == "" || a == b || b == MAY_STRIDE
  }

  /** Unknown is above everything; two known sets are ordered by inclusion; an untracked object is
      below itself and unknown only, because a lookup of it falls back to static provenance. */
  predicate AliasLeq(a: State, b: State, o: Object) {
    if o !in Tracked(b) then o !in Tracked(a)
    else Tracked(b)[o].known ==> KnownIn(a, o) && Tracked(a)[o].targets <= Tracked(b)[o].targets
  }

  ghost predicate Leq(a: State, b: State) {
    && a.deps <= b.deps
    && (forall o: Object :: StrideLeq(Stride(a, o), Stride(b, o)))
    && (forall o: Object :: AliasLeq(a, b, o))
    && (a.aliases.Some? ==> b.aliases.Some?)
  }

  /** No empty stride key, and no targets left beside an unknown alias. */
  ghost predicate Normal(s: State) {
    && (forall o | o in s.strideDeps :: s.strideDeps[o] != "")
    && (forall o | o in Tracked(s) :: !Tracked(s)[o].known ==> Tracked(s)[o].targets == {})
  }

  lemma LeqAntisymmetric(a: State, b: State)
    requires Normal(a) && Normal(b) && Leq(a, b) && Leq(b, a)
    ensures a == b
  {
    forall o ensures Stride(a, o) == Stride(b, o) {
      assert StrideLeq(Stride(a, o), Stride(b, o)) && StrideLeq(Stride(b, o), Stride(a, o));
    }
    forall o ensures (o in a.strideDeps) == (o in b.strideDeps) {
      assert Stride(a, o) == Stride(b, o);
    }
    assert a.strideDeps == b.strideDeps by {
      forall o | o in a.strideDeps ensures a.strideDeps[o] == b.strideDeps[o] {
        assert Stride(a, o) == Stride(b, o);
      }
    }
    forall o: Object
      ensures (o in Tracked(a)) == (o in Tracked(b))
      ensures o in Tracked(a) ==> Tracked(a)[o] == Tracked(b)[o]
    {
      assert AliasLeq(a, b, o) && AliasLeq(b, a, o);
    }
    assert Tracked(a) == Tracked(b);
  }

  lemma UnionIsUpperBound(states: seq<State>, s: State)
    requires s in states
    ensures Leq(s, Union(states)) && Normal(Union(states))
  {
    var u := Union(states);
    forall o: Object ensures StrideLeq(Stride(s, o), Stride(u, o)) {
      UnionStrideIs(states, o);
      var keys := StrideKeys(states, o);
      if Stride(s, o) != "" {
        assert Stride(s, o) in keys;
        assert keys != {};
      }
    }
    forall o: Object ensures AliasLeq(s, u, o) {
      if o in Tracked(s) { assert o in AliasObjects(states); }
    }
  }

  lemma UnionIsLeast(states: seq<State>, u: State)
    requires states != [] && forall s | s in states :: Leq(s, u)
    ensures Leq(Union(states), u)
  {
    forall o: Object ensures StrideLeq(UnionStride(states, o), Stride(u, o)) {
      var keys := StrideKeys(states, o);
      forall k | k in keys ensures StrideLeq(k, Stride(u, o)) {
        var s :| s in states && Stride(s, o) == k;
        assert Leq(s, u);
      }
      if keys != {} && Stride(u, o) != MAY_STRIDE {
        assert keys == {Stride(u, o)};
      }
    }
    forall o: Object { UnionStrideIs(states, o); }
    assert states[0] in states;
    forall o: Object ensures AliasLeq(Union(states), u, o) {
      forall s | s in states ensures AliasLeq(s, u, o) { assert Leq(s, u); }
    }
    forall s | s in states ensures s.aliases.Some? ==> u.aliases.Some? { assert Leq(s, u); }
  }

  /** Main join law: the union is the least upper bound, and it is the only normal one. */
  lemma UnionIsJoin(states: seq<State>, u: State)
    requires states != []
    ensures u == Union(states) <==>
            && Normal(u)
            && (forall s | s in states :: Leq(s, u))
            && (forall v | (forall s | s in states :: Leq(s, v)) :: Leq(u, v))
  {
    var join := Union(states);
    forall s | s in states ensures Leq(s, join) && Normal(join) { UnionIsUpperBound(states, s); }
    assert Normal(join) by { UnionIsUpperBound(states, states[0]); }
    forall v | forall s | s in states :: Leq(s, v) ensures Leq(join, v) { UnionIsLeast(states, v); }
    if Normal(u) && (forall s | s in states :: Leq(s, u)) &&
       (forall v | (forall s | s in states :: Leq(s, v)) :: Leq(u, v)) {
      LeqAntisymmetric(u, join);
    }
  }

  /** Order and repetition of the inputs do not matter. */
  lemma UnionIsOrderless(a: seq<State>, b: seq<State>)
    requires forall s :: s in a <==> s in b
    ensures Union(a) == Union(b)
  {
    if a != [] {
      assert a[0] in b;
      UnionIsJoin(b, Union(b));
      UnionIsJoin(a, Union(b));
    }
  }

  lemma LeqTransitive(a: State, b: State, c: State)
    requires Leq(a, b) && Leq(b, c)
    ensures Leq(a, c)
  {
    forall o: Object ensures StrideLeq(Stride(a, o), Stride(c, o)) {
      assert StrideLeq(Stride(a, o), Stride(b, o)) && StrideLeq(Stride(b, o), Stride(c, o));
    }
    forall o: Object ensures AliasLeq(a, c, o) {
      assert AliasLeq(a, b, o) && AliasLeq(b, c, o);
    }
  }

  /** Bracketing does not matter either, as long as the inner union has an input. */
  lemma UnionIsAssociative(a: seq<State>, b: seq<State>)
    requires a != []
    ensures Union([Union(a)] + b) == Union(a + b)
  {
    var all, nested := a + b, [Union(a)] + b;
    forall s | s in nested ensures Leq(s, Union(all)) {
      if s == Union(a) {
        forall t | t in a ensures Leq(t, Union(all)) { UnionIsUpperBound(all, t); }
        UnionIsLeast(a, Union(all));
      } else {
        UnionIsUpperBound(all, s);
      }
    }
    forall v | forall s | s in nested :: Leq(s, v) ensures Leq(Union(all), v) {
      assert Union(a) in nested;
      forall s | s in all ensures Leq(s, v) {
        if s in a {
          UnionIsUpperBound(a, s);
          LeqTransitive(s, Union(a), v);
        } else {
          assert s in nested;
        }
      }
      UnionIsLeast(all, v);
    }
    UnionIsUpperBound(all, all[0]);
    UnionIsJoin(nested, Union(all));
  }

  /** The empty union is not neutral: an object it does not track makes the result unknown. */
  lemma EmptyUnionIsNotNeutral()
    ensures var s := State({}, map[], Some(map[1 := Alias({2}, true)]));
            Union([Union([])] + [s]) != Union([s])
  {
    var s := State({}, map[], Some(map[1 := Alias({2}, true)]));
    assert [Union([])] + [s] == [Union([]), s];
    assert !KnownIn(Union([]), 1);
    assert Union([]) in [Union([]), s];
    assert KnownIn(s, 1);
    assert s in [Union([]), s] && s in [s];
    assert 1 in AliasObjects([Union([]), s]) && 1 in AliasObjects([s]);
    assert !Tracked(Union([Union([]), s]))[1].known;
    assert Tracked(Union([s]))[1].known;
  }
}
