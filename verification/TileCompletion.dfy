/**
 The tile-completion check: a worklist over control-flow blocks paired with
 "the inner loop was completed", and the memo table in front of it
 (checks/ps1006.go:3529-3627).
 */
module TileCompletion {
  import opened Wrappers

  /** The blocks the check looks up, and the feasible successors of every block. */
  datatype Graph = Graph(
    successors: seq<seq<nat>>, live: set<nat>, exits: set<nat>, tails: set<nat>,
    outerBody: nat, outerLoop: nat, outerPost: nat, outerDone: nat, innerDone: nat)

  predicate ValidGraph(g: Graph) {
    g.outerBody < |g.successors| && forall b, i | 0 <= b < |g.successors| && 0 <= i < |g.successors[b]| ::
      g.successors[b][i] < |g.successors|
  }

  // ----- what is asked, over walks -----

  predicate Iterates(g: Graph, b: nat) {
    b == g.outerPost || b == g.outerLoop
  }

  predicate Escapes(g: Graph, b: nat) {
    !Iterates(g, b) && (b == g.outerDone || b in g.tails)
  }

  /** A walk is not followed beyond such a block. */
  predicate Stops(g: Graph, b: nat) {
    Iterates(g, b) || Escapes(g, b) || b in g.exits
  }

  predicate Edge(g: Graph, a: nat, b: nat) {
    a < |g.successors| && b in g.successors[a] && b in g.live
  }

  /** A feasible live walk of one outer iteration, cut where it leaves that iteration. */
  ghost predicate Walk(g: Graph, w: seq<nat>) {
    && w != [] && w[0] == g.outerBody
    && forall i | 0 <= i < |w| - 1 :: !Stops(g, w[i]) && Edge(g, w[i], w[i + 1])
  }

  /** Every walk that iterates has completed the tile, and no walk escapes to the tail. */
  ghost predicate Completes(g: Graph) {
    forall w | Walk(g, w) :: (Iterates(g, w[|w| - 1]) ==> g.innerDone in w) && !Escapes(g, w[|w| - 1])
  }

  // ----- the worklist -----

  datatype FlowState = FlowState(block: nat, completed: bool)

  ghost predicate Reached(g: Graph, s: FlowState) {
    exists w :: Walk(g, w) && w[|w| - 1] == s.block && (s.completed <==> g.innerDone in w[..|w| - 1])
  }

  predicate After(g: Graph, s: FlowState) {
    s.completed || s.block == g.innerDone
  }

  predicate Good(g: Graph, s: FlowState) {
    (Iterates(g, s.block) ==> After(g, s)) && !Escapes(g, s.block)
  }

  lemma Extend(g: Graph, s: FlowState, b: nat)
    requires Reached(g, s) && !Stops(g, s.block) && Edge(g, s.block, b)
    ensures Reached(g, FlowState(b, After(g, s)))
  {
    var w :| Walk(g, w) && w[|w| - 1] == s.block && (s.completed <==> g.innerDone in w[..|w| - 1]);
    var longer := w + [b];
    assert longer[..|longer| - 1] == w && w == w[..|w| - 1] + [s.block];
    assert Walk(g, longer);
  }

  lemma Start(g: Graph)
    ensures Reached(g, FlowState(g.outerBody, false))
  {
    assert Walk(g, [g.outerBody]) && [g.outerBody][..0] == [];
  }

  /** A closed set of states without a bad one answers for all walks. */
  ghost predicate Closed(g: Graph, seen: set<FlowState>, queue: seq<FlowState>) {
    forall s: FlowState, b: nat | s in seen && !Stops(g, s.block) && Edge(g, s.block, b) ::
      FlowState(b, After(g, s)) in seen || FlowState(b, After(g, s)) in queue
  }

  lemma {:induction false} WalksAreSeen(g: Graph, seen: set<FlowState>, w: seq<nat>)
    requires Closed(g, seen, []) && FlowState(g.outerBody, false) in seen && Walk(g, w)
    ensures FlowState(w[|w| - 1], g.innerDone in w[..|w| - 1]) in seen
    decreases |w|
  {
    var n := |w| - 1;
    if n > 0 {
      var front := w[..n];
      assert Walk(g, front) && front == front[..n - 1] + [w[n - 1]];
      WalksAreSeen(g, seen, front);
      var s := FlowState(w[n - 1], g.innerDone in front[..n - 1]);
      assert Edge(g, s.block, w[n]);
    } else {
      assert w[..0] == [];
    }
  }

  lemma Opening(g: Graph, queue: seq<FlowState>)
    ensures Closed(g, {}, queue)
  {
  }

  lemma ClosedSkip(g: Graph, seen: set<FlowState>, s: FlowState, queue: seq<FlowState>)
    requires Closed(g, seen, [s] + queue) && s in seen
    ensures Closed(g, seen, queue)
  {
  }

  lemma ClosedStep(g: Graph, seen: set<FlowState>, s: FlowState, queue: seq<FlowState>, next: seq<FlowState>)
    requires Closed(g, seen, [s] + queue)
    requires Stops(g, s.block) || forall b: nat | Edge(g, s.block, b) :: FlowState(b, After(g, s)) in next
    ensures Closed(g, seen + {s}, queue + next)
  {
  }

  lemma ExtendAll(g: Graph, s: FlowState, next: seq<FlowState>)
    requires Reached(g, s) && !Stops(g, s.block) && ValidGraph(g)
    requires forall t :: t in next <==> Edge(g, s.block, t.block) && t.completed == After(g, s)
    ensures forall t | t in next :: Reached(g, t) && t.block < |g.successors|
    ensures forall b: nat | Edge(g, s.block, b) :: FlowState(b, After(g, s)) in next
  {
    forall t | t in next ensures Reached(g, t) { Extend(g, s, t.block); }
  }

  /** The states over the first n blocks. */
  function AllStates(n: nat): (all: set<FlowState>)
    ensures forall s: FlowState :: s in all <==> s.block < n
    ensures |all| == 2 * n
  {
    if n == 0 then {}
    else
      assert forall s: FlowState :: s.block == n - 1 ==> s == FlowState(n - 1, true) || s == FlowState(n - 1, false);
      AllStates(n - 1) + {FlowState(n - 1, true), FlowState(n - 1, false)}
  }

  lemma SubsetSize<T>(a: set<T>, b: set<T>)
    requires a <= b
    ensures |a| <= |b|
  {
    assert b == a + (b - a);
  }

  datatype TileKey = TileKey(outer: nat, inner: nat, tail: nat)

  /** What the check should answer for one key. */
  ghost predicate Answer(flow: Option<Graph>) {
    flow.Some? && Completes(flow.value)
  }

  class AnalysisIndex {
    /** The control flow the key resolves to; None when facts or blocks are missing. */
    const flowOf: TileKey -> Option<Graph>
    var tileCompletions: map<TileKey, bool>
    var controlFlowVisits: nat

    constructor (flows: TileKey -> Option<Graph>)
      ensures flowOf == flows && tileCompletions == map[] && controlFlowVisits == 0
    {
      flowOf := flows;
      tileCompletions, controlFlowVisits := map[], 0;
    }

    /** Every remembered answer is the right one. */
    ghost predicate Valid()
      reads this
    {
      && (forall k | k in tileCompletions :: tileCompletions[k] == Answer(flowOf(k)))
      && (forall k :: flowOf(k).Some? ==> ValidGraph(flowOf(k).value))
    }

    /** ps1006OuterIterationCompletesInnerTile. */
    method OuterIterationCompletesInnerTile(key: TileKey) returns (result: bool)
      requires Valid()
      modifies this
      ensures Valid()
      ensures result == Answer(flowOf(key))
      ensures tileCompletions == old(tileCompletions)[key := result]
      ensures key in old(tileCompletions) ==> controlFlowVisits == old(controlFlowVisits)
      ensures flowOf(key).Some? ==> controlFlowVisits <= old(controlFlowVisits) + 2 * |flowOf(key).value.successors|
    {
      if key in tileCompletions { return tileCompletions[key]; }
      match flowOf(key) {
        case None => result := false;
        case Some(g) => result := Explore(g);
      }
      tileCompletions := tileCompletions[key := result];
    }

    /** The worklist itself. */
    method Explore(g: Graph) returns (result: bool)
      requires ValidGraph(g)
      modifies this`controlFlowVisits
      ensures result == Completes(g)
      ensures old(controlFlowVisits) <= controlFlowVisits <= old(controlFlowVisits) + 2 * |g.successors|
    {
      hide Reached, Walk, Completes, Closed, Good, Edge, After, AllStates;
      var queue: seq<FlowState> := [FlowState(g.outerBody, false)];
      var seen: set<FlowState> := {};
      Start(g);
      Opening(g, queue);
      while |queue| > 0
        invariant seen <= AllStates(|g.successors|) && controlFlowVisits == old(controlFlowVisits) + |seen|
        invariant forall s | s in queue || s in seen :: Reached(g, s) && s.block < |g.successors|
        invariant FlowState(g.outerBody, false) in seen || FlowState(g.outerBody, false) in queue
        invariant Closed(g, seen, queue)
        invariant forall s | s in seen :: Good(g, s)
        decreases AllStates(|g.successors|) - seen, |queue|
      {
        var state := queue[0];
        ghost var waiting := queue;
        queue := queue[1..];
        assert waiting == [state] + queue;
        if state in seen {
          ClosedSkip(g, seen, state, queue);
          continue;
        }
        ghost var before := seen;
        seen := seen + {state};
        assert state in AllStates(|g.successors|);
        SubsetSize(seen, AllStates(|g.successors|));
        controlFlowVisits := controlFlowVisits + 1;
        if !Good(g, state) {
          Refuted(g, state);
          return false;
        }
        var next: seq<FlowState> := [];
        if !Stops(g, state.block) {
          next := Successors(g, state);
          ExtendAll(g, state, next);
        }
        ClosedStep(g, before, state, queue, next);
        queue := queue + next;
      }
      SubsetSize(seen, AllStates(|g.successors|));
      Confirmed(g, seen);
      result := true;
    }
  }

  lemma Confirmed(g: Graph, seen: set<FlowState>)
    requires Closed(g, seen, []) && FlowState(g.outerBody, false) in seen && forall s | s in seen :: Good(g, s)
    ensures Completes(g)
  {
    forall w | Walk(g, w) ensures (Iterates(g, w[|w| - 1]) ==> g.innerDone in w) && !Escapes(g, w[|w| - 1]) {
      WalksAreSeen(g, seen, w);
      assert Good(g, FlowState(w[|w| - 1], g.innerDone in w[..|w| - 1]));
      assert w == w[..|w| - 1] + [w[|w| - 1]];
    }
  }

  /** A walk that has not come to the end of the iteration, in terms of the blocks. */
  ghost predicate Feasible(g: Graph, w: seq<nat>) {
    && w != [] && w[0] == g.outerBody
    && (forall i | 0 <= i < |w| - 1 ::
          && w[i] != g.outerPost && w[i] != g.outerLoop && w[i] != g.outerDone
          && w[i] !in g.tails && w[i] !in g.exits)
    && (forall i, j | 0 <= i < j < |w| && j == i + 1 ::
          w[i] < |g.successors| && w[j] in g.successors[w[i]] && w[j] in g.live)
  }

  /**
   The answer by the blocks: each feasible walk that comes to the post or the
   loop block has been through the inner done block, and none comes to the outer
   done block or to a tail block otherwise.
   */
  lemma CompletesByBlocks(g: Graph)
    ensures Completes(g) <==>
            forall w | Feasible(g, w) ::
              var b := w[|w| - 1];
              if b == g.outerPost || b == g.outerLoop then g.innerDone in w
              else b != g.outerDone && b !in g.tails
  {
    forall w ensures Walk(g, w) <==> Feasible(g, w) {
      if Walk(g, w) {
        forall i, j | 0 <= i < j < |w| && j == i + 1
          ensures w[i] < |g.successors| && w[j] in g.successors[w[i]] && w[j] in g.live
        {
          assert Edge(g, w[i], w[i + 1]);
        }
      }
      if Feasible(g, w) {
        forall i | 0 <= i < |w| - 1 ensures !Stops(g, w[i]) && Edge(g, w[i], w[i + 1]) {
          var j := i + 1;
          assert w[j] in g.successors[w[i]];
        }
      }
    }
  }

  lemma Refuted(g: Graph, s: FlowState)
    requires Reached(g, s) && !Good(g, s)
    ensures !Completes(g)
  {
    var w :| Walk(g, w) && w[|w| - 1] == s.block && (s.completed <==> g.innerDone in w[..|w| - 1]);
    assert w == w[..|w| - 1] + [s.block];
  }

  /** The live successors, paired with the flag after this block. */
  method Successors(g: Graph, s: FlowState) returns (next: seq<FlowState>)
    requires ValidGraph(g) && s.block < |g.successors|
    ensures forall t :: t in next <==> Edge(g, s.block, t.block) && t.completed == After(g, s)
  {
    next := [];
    var all := g.successors[s.block];
    for i := 0 to |all|
      invariant forall t :: t in next <==> t.block in all[..i] && t.block in g.live && t.completed == After(g, s)
    {
      assert all[..i + 1] == all[..i] + [all[i]];
      if all[i] in g.live {
        next := next + [FlowState(all[i], After(g, s))];
      }
    }
    assert all[..|all|] == all;
  }
}
