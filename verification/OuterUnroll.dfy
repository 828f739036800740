/**
 PS1007's unrolling of a rank-1 update by two outer steps (checks/ps1007.go:161-184, 346-370).

 The three slices are windows of one memory, so they may overlap unless the
 contrary is assumed. An index out of range stops the run. Addition and
 multiplication are parameters: equal results mean the same operations in
 the same order.
 */
module OuterUnroll {
  import Products
  import opened Windows
  import opened Wrappers

  /** `hoisted` tells v := w[i] before the inner loop from w[i] inside it. */
  datatype Nest<!T> =
    Nest(add: (T, T) -> T, mul: (T, T) -> T, out: Window, w: Window, src: Window, dim: int, hoisted: bool)

  predicate Within<T>(g: Nest<T>, size: nat) {
    g.out.off + g.out.len <= size && g.w.off + g.w.len <= size && g.src.off + g.src.len <= size
  }

  // ----- what the loops do -----

  /** out[d] += x * in[i*dim+d], where x is the hoisted value or w[i]. */
  function Statement<T>(g: Nest<T>, m: seq<T>, i: nat, d: nat, v: Option<T>): (r: Option<seq<T>>)
    requires Within(g, |m|)
    ensures r.Some? ==> |r.value| == |m|
  {
    var at := i * g.dim + d;
    if d >= g.out.len || (v.None? && i >= g.w.len) || !(0 <= at < g.src.len) then None
    else
      var x := if v.Some? then v.value else m[g.w.off + i];
      Some(m[g.out.off + d := g.add(m[g.out.off + d], g.mul(x, m[g.src.off + at]))])
  }

  function Row<T>(g: Nest<T>, m: seq<T>, i: nat, v: Option<T>, d: nat): (r: Option<seq<T>>)
    requires Within(g, |m|)
    ensures r.Some? ==> |r.value| == |m|
    decreases g.dim - d
  {
    if d >= g.dim then Some(m)
    else
      var next := Statement(g, m, i, d, v);
      if next.None? then None else Row(g, next.value, i, v, d + 1)
  }

  /** One step of the outer loop. */
  function Step<T>(g: Nest<T>, m: seq<T>, i: nat): (r: Option<seq<T>>)
    requires Within(g, |m|)
    ensures r.Some? ==> |r.value| == |m|
  {
    if !g.hoisted then Row(g, m, i, None, 0)
    else if i >= g.w.len then None
    else Row(g, m, i, Some(m[g.w.off + i]), 0)
  }

  /** The source, from step i on. */
  function Original<T>(g: Nest<T>, m: seq<T>, i: nat, n: int): (r: Option<seq<T>>)
    requires Within(g, |m|)
    ensures r.Some? ==> |r.value| == |m|
    decreases n - i
  {
    if i >= n then Some(m)
    else
      var next := Step(g, m, i);
      if next.None? then None else Original(g, next.value, i + 1, n)
  }

  /** The inner loop of the unrolled pair. */
  function PairRow<T>(g: Nest<T>, m: seq<T>, i: nat, v0: T, v1: T, d: nat): (r: Option<seq<T>>)
    requires Within(g, |m|)
    ensures r.Some? ==> |r.value| == |m|
    decreases g.dim - d
  {
    if d >= g.dim then Some(m)
    else
      var first := Statement(g, m, i, d, Some(v0));
      if first.None? then None
      else
        var second := Statement(g, first.value, i + 1, d, Some(v1));
        if second.None? then None else PairRow(g, second.value, i, v0, v1, d + 1)
  }

  function Pair<T>(g: Nest<T>, m: seq<T>, i: nat): (r: Option<seq<T>>)
    requires Within(g, |m|)
    ensures r.Some? ==> |r.value| == |m|
  {
    if i + 1 >= g.w.len then None else PairRow(g, m, i, m[g.w.off + i], m[g.w.off + i + 1], 0)
  }

  /** The replacement, from step i on: pairs, then the serial tail. */
  function Unrolled<T>(g: Nest<T>, m: seq<T>, i: nat, n: int): (r: Option<seq<T>>)
    requires Within(g, |m|)
    ensures r.Some? ==> |r.value| == |m|
    decreases n - i
  {
    if i + 1 >= n then Original(g, m, i, n)
    else
      var next := Pair(g, m, i);
      if next.None? then None else Unrolled(g, next.value, i + 2, n)
  }

  // ----- the loops -----

  method RunStatement<T>(g: Nest<T>, mem: array<T>, i: nat, d: nat, v: Option<T>) returns (ok: bool)
    requires Within(g, mem.Length)
    modifies mem
    ensures ok == Statement(g, old(mem[..]), i, d, v).Some?
    ensures ok ==> mem[..] == Statement(g, old(mem[..]), i, d, v).value
  {
    var at := i * g.dim + d;
    if d >= g.out.len || (v.None? && i >= g.w.len) || !(0 <= at < g.src.len) { return false; }
    var x := if v.Some? then v.value else mem[g.w.off + i];
    mem[g.out.off + d] := g.add(mem[g.out.off + d], g.mul(x, mem[g.src.off + at]));
    ok := true;
  }

  method RunStep<T>(g: Nest<T>, mem: array<T>, i: nat) returns (ok: bool)
    requires Within(g, mem.Length)
    modifies mem
    ensures ok == Step(g, old(mem[..]), i).Some?
    ensures ok ==> mem[..] == Step(g, old(mem[..]), i).value
  {
    hide Statement;
    var v: Option<T> := None;
    if g.hoisted {
      if i >= g.w.len { return false; }
      v := Some(mem[g.w.off + i]);
    }
    var d := 0;
    while d < g.dim
      invariant Row(g, mem[..], i, v, d) == Step(g, old(mem[..]), i)
      decreases g.dim - d
    {
      var fine := RunStatement(g, mem, i, d, v);
      if !fine { return false; }
      d := d + 1;
    }
    ok := true;
  }

  /** for i := 0; i < n; i++ */
  method RunOriginal<T>(g: Nest<T>, mem: array<T>, n: int) returns (ok: bool)
    requires Within(g, mem.Length)
    modifies mem
    ensures ok == Original(g, old(mem[..]), 0, n).Some?
    ensures ok ==> mem[..] == Original(g, old(mem[..]), 0, n).value
  {
    hide Step;
    var i := 0;
    while i < n
      invariant Original(g, mem[..], i, n) == Original(g, old(mem[..]), 0, n)
      decreases n - i
    {
      var fine := RunStep(g, mem, i);
      if !fine { return false; }
      i := i + 1;
    }
    ok := true;
  }

  method RunPair<T>(g: Nest<T>, mem: array<T>, i: nat) returns (ok: bool)
    requires Within(g, mem.Length)
    modifies mem
    ensures ok == Pair(g, old(mem[..]), i).Some?
    ensures ok ==> mem[..] == Pair(g, old(mem[..]), i).value
  {
    hide Statement;
    if i + 1 >= g.w.len { return false; }
    var v0, v1 := mem[g.w.off + i], mem[g.w.off + i + 1];
    var d := 0;
    while d < g.dim
      invariant PairRow(g, mem[..], i, v0, v1, d) == Pair(g, old(mem[..]), i)
      decreases g.dim - d
    {
      var fine := RunStatement(g, mem, i, d, Some(v0));
      if !fine { return false; }
      fine := RunStatement(g, mem, i + 1, d, Some(v1));
      if !fine { return false; }
      d := d + 1;
    }
    ok := true;
  }

  /** The replacement: both loops share the index. */
  method RunUnrolled<T>(g: Nest<T>, mem: array<T>, n: int) returns (ok: bool)
    requires Within(g, mem.Length)
    modifies mem
    ensures ok == Unrolled(g, old(mem[..]), 0, n).Some?
    ensures ok ==> mem[..] == Unrolled(g, old(mem[..]), 0, n).value
  {
    hide Step, Pair;
    var psI := 0;
    while psI + 1 < n
      invariant Unrolled(g, mem[..], psI, n) == Unrolled(g, old(mem[..]), 0, n)
      decreases n - psI
    {
      var fine := RunPair(g, mem, psI);
      if !fine { return false; }
      psI := psI + 2;
    }
    while psI < n
      invariant Original(g, mem[..], psI, n) == Unrolled(g, old(mem[..]), 0, n)
      decreases n - psI
    {
      var fine := RunStep(g, mem, psI);
      if !fine { return false; }
      psI := psI + 1;
    }
    ok := true;
  }

  // ----- where a pair is two steps -----

  predicate RowFits<T>(g: Nest<T>, i: nat) {
    g.dim <= g.out.len && (i + 1) * g.dim <= g.src.len
  }

  /** Memory position p is among the first k elements of the output. */
  predicate InOutput<T>(g: Nest<T>, p: int, k: int) {
    g.out.off <= p < g.out.off + k
  }

  /** The output does not begin inside source row i, behind its first element. */
  predicate RowsApart<T>(g: Nest<T>, i: nat) {
    !(0 < g.out.off - (g.src.off + i * g.dim) < g.dim)
  }

  /**
   Unless the pair panics anyway: the second weight is not written by the first
   row, the output does not begin inside the first source row, and a weight that
   is read inside the inner loop is not written before its last column.
   */
  predicate NoClashAt<T>(g: Nest<T>, i: nat) {
    i + 1 < g.w.len && RowFits(g, i + 1) ==>
      && !InOutput(g, g.w.off + i + 1, g.dim)
      && RowsApart(g, i)
      && (g.hoisted || !InOutput(g, g.w.off + i, g.dim - 1))
  }

  lemma Cell(i: nat, d: nat, dim: nat)
    requires d < dim
    ensures 0 <= i * dim <= i * dim + d < (i + 1) * dim == i * dim + dim
  {
    Products.Next(i, dim);
    Products.Monotone(0, i, dim);
  }

  lemma StatementFits<T>(g: Nest<T>, m: seq<T>, i: nat, v: Option<T>, d: nat)
    requires Within(g, |m|) && d < g.dim
    ensures (v.Some? || i < g.w.len) && RowFits(g, i) ==> Statement(g, m, i, d, v).Some?
    ensures Statement(g, m, i, d, v).Some? && d + 1 == g.dim ==> (v.Some? || i < g.w.len) && RowFits(g, i)
  {
    Cell(i, d, g.dim);
  }

  /** Whether a row panics does not depend on the contents, and it writes the output from column d on only. */
  lemma {:induction false} RowEffect<T>(g: Nest<T>, m: seq<T>, i: nat, v: Option<T>, d: nat)
    requires Within(g, |m|)
    ensures d < g.dim ==> (Row(g, m, i, v, d).Some? <==> (v.Some? || i < g.w.len) && RowFits(g, i))
    ensures Row(g, m, i, v, d).Some? ==>
              forall p | 0 <= p < |m| && !(g.out.off + d <= p < g.out.off + g.dim) ::
                Row(g, m, i, v, d).value[p] == m[p]
    decreases g.dim - d
  {
    if d < g.dim {
      StatementFits(g, m, i, v, d);
      var next := Statement(g, m, i, d, v);
      if next.Some? { RowEffect(g, next.value, i, v, d + 1); }
    }
  }

  /** The rows one after the other, from column d on. */
  function RowAfter<T>(g: Nest<T>, m: Option<seq<T>>, i: nat, v: T, d: nat): Option<seq<T>>
    requires m.Some? ==> Within(g, |m.value|)
  {
    if m.None? then None else Row(g, m.value, i, Some(v), d)
  }

  function StatementAfter<T>(g: Nest<T>, m: Option<seq<T>>, i: nat, d: nat, v: T): Option<seq<T>>
    requires m.Some? ==> Within(g, |m.value|)
  {
    if m.None? then None else Statement(g, m.value, i, d, Some(v))
  }

  /** A statement of the second row may go before a later statement of the first. */
  lemma Commute<T>(g: Nest<T>, m: seq<T>, i: nat, v0: T, v1: T, d: nat, e: nat)
    requires Within(g, |m|) && RowsApart(g, i) && d < e < g.dim
    ensures StatementAfter(g, Statement(g, m, i, e, Some(v0)), i + 1, d, v1) ==
            StatementAfter(g, Statement(g, m, i + 1, d, Some(v1)), i, e, v0)
  {
    Cell(i, d, g.dim);
    Cell(i, e, g.dim);
    var one, two := Statement(g, m, i, e, Some(v0)), Statement(g, m, i + 1, d, Some(v1));
    if one.Some? && two.Some? {
      assert g.src.off + (i * g.dim + e) != g.out.off + d && g.src.off + ((i + 1) * g.dim + d) != g.out.off + e;
      var both := StatementAfter(g, one, i + 1, d, v1).value;
      assert both == StatementAfter(g, two, i, e, v0).value;
    }
  }

  lemma {:induction false} RowCommutes<T>(g: Nest<T>, m: seq<T>, i: nat, v0: T, v1: T, d: nat, e: nat)
    requires Within(g, |m|) && RowsApart(g, i) && d < e && d < g.dim
    ensures StatementAfter(g, Row(g, m, i, Some(v0), e), i + 1, d, v1) ==
            RowAfter(g, Statement(g, m, i + 1, d, Some(v1)), i, v0, e)
    decreases g.dim - e
  {
    hide Statement, RowsApart;
    if e < g.dim {
      Commute(g, m, i, v0, v1, d, e);
      var next := Statement(g, m, i, e, Some(v0));
      if next.Some? { RowCommutes(g, next.value, i, v0, v1, d, e + 1); }
    }
  }

  /** The two rows of a pair, pulled apart. */
  lemma {:induction false} PairRowIs<T>(g: Nest<T>, m: seq<T>, i: nat, v0: T, v1: T, d: nat)
    requires Within(g, |m|) && RowsApart(g, i)
    ensures PairRow(g, m, i, v0, v1, d) == RowAfter(g, Row(g, m, i, Some(v0), d), i + 1, v1, d)
    decreases g.dim - d
  {
    hide Statement, RowsApart;
    if d < g.dim {
      var first := Statement(g, m, i, d, Some(v0));
      if first.Some? {
        RowCommutes(g, first.value, i, v0, v1, d, d + 1);
        var second := Statement(g, first.value, i + 1, d, Some(v1));
        if second.Some? { PairRowIs(g, second.value, i, v0, v1, d + 1); }
      }
    }
  }

  /** A weight that is not written before its last read may be read once, before the loop. */
  lemma {:induction false} Hoist<T>(g: Nest<T>, m: seq<T>, i: nat, d: nat)
    requires Within(g, |m|) && i < g.w.len && !InOutput(g, g.w.off + i, g.dim - 1)
    ensures Row(g, m, i, None, d) == Row(g, m, i, Some(m[g.w.off + i]), d)
    decreases g.dim - d
  {
    if d < g.dim {
      var next := Statement(g, m, i, d, None);
      if next.Some? && d + 1 < g.dim { Hoist(g, next.value, i, d + 1); }
    }
  }

  /** Two steps one after the other. */
  function TwoSteps<T>(g: Nest<T>, m: seq<T>, i: nat): (r: Option<seq<T>>)
    requires Within(g, |m|)
    ensures r.Some? ==> |r.value| == |m|
  {
    var next := Step(g, m, i);
    if next.None? then None else Step(g, next.value, i + 1)
  }

  /** A pair that does not clash is two steps, provided both weights can be read. */
  lemma PairIsTwoSteps<T>(g: Nest<T>, m: seq<T>, i: nat)
    requires Within(g, |m|) && NoClashAt(g, i)
    ensures i + 1 < g.w.len ==> Pair(g, m, i) == TwoSteps(g, m, i)
    ensures i + 1 >= g.w.len && (g.hoisted || g.dim > 0) ==> TwoSteps(g, m, i) == None
    ensures !g.hoisted && g.dim <= 0 ==> TwoSteps(g, m, i) == Some(m)
  {
    hide PairRow, Row, RowFits, RowsApart;
    if g.dim <= 0 {
      EmptyRows(g, m, i);
    } else if i + 1 < g.w.len && RowFits(g, i + 1) {
      var v0, v1 := m[g.w.off + i], m[g.w.off + i + 1];
      PairRowIs(g, m, i, v0, v1, 0);
      if !g.hoisted { Hoist(g, m, i, 0); }
      var half := Row(g, m, i, Some(v0), 0);
      RowEffect(g, m, i, Some(v0), 0);
      if half.Some? {
        assert half.value[g.w.off + i + 1] == v1;
        if !g.hoisted { Hoist(g, half.value, i + 1, 0); }
      }
    } else {
      PairStops(g, m, i);
    }
  }

  lemma EmptyRows<T>(g: Nest<T>, m: seq<T>, i: nat)
    requires Within(g, |m|) && g.dim <= 0
    ensures forall j: nat, v :: Row(g, m, j, v, 0) == Some(m)
    ensures forall v0, v1 :: PairRow(g, m, i, v0, v1, 0) == Some(m)
  {
  }

  /** An index out of range stops both forms. */
  lemma PairStops<T>(g: Nest<T>, m: seq<T>, i: nat)
    requires Within(g, |m|) && g.dim > 0 && (i + 1 >= g.w.len || !RowFits(g, i + 1))
    ensures Pair(g, m, i) == None && TwoSteps(g, m, i) == None
  {
    hide PairRow, Row;
    if i + 1 < g.w.len { PairRowStops(g, m, i, m[g.w.off + i], m[g.w.off + i + 1], 0); }
    var v := if g.hoisted && i < g.w.len then Some(m[g.w.off + i]) else None;
    RowEffect(g, m, i, v, 0);
    var half := Step(g, m, i);
    if half.Some? {
      var w := if g.hoisted && i + 1 < g.w.len then Some(half.value[g.w.off + i + 1]) else None;
      RowEffect(g, half.value, i + 1, w, 0);
    }
  }

  lemma {:induction false} PairRowStops<T>(g: Nest<T>, m: seq<T>, i: nat, v0: T, v1: T, d: nat)
    requires Within(g, |m|) && d < g.dim && !RowFits(g, i + 1)
    ensures PairRow(g, m, i, v0, v1, d) == None
    decreases g.dim - d
  {
    var first := Statement(g, m, i, d, Some(v0));
    if first.Some? {
      StatementFits(g, first.value, i + 1, Some(v1), d);
      var second := Statement(g, first.value, i + 1, d, Some(v1));
      if second.Some? && d + 1 < g.dim { PairRowStops(g, second.value, i, v0, v1, d + 1); }
    }
  }

  // ----- whole loops -----

  /** No pair from step i on clashes. */
  predicate NoClash<T>(g: Nest<T>, i: nat, n: int) {
    forall k | i <= k < n - 1 && (k - i) % 2 == 0 :: NoClashAt(g, k)
  }

  /** The pairs' reads of w stay in range. */
  predicate PairsRead<T>(g: Nest<T>, i: nat, n: int) {
    i + 1 < n ==> n - (n - i) % 2 <= g.w.len
  }

  lemma {:induction false} UnrolledFrom<T>(g: Nest<T>, m: seq<T>, i: nat, n: int)
    requires Within(g, |m|) && NoClash(g, i, n)
    ensures Unrolled(g, m, i, n) == if PairsRead(g, i, n) then Original(g, m, i, n) else None
    ensures !PairsRead(g, i, n) ==> Original(g, m, i, n) == if g.hoisted || g.dim > 0 then None else Some(m)
    decreases n - i
  {
    hide Pair, Step, NoClashAt;
    if i + 1 < n {
      PairIsTwoSteps(g, m, i);
      var next := TwoSteps(g, m, i);
      if next.Some? { UnrolledFrom(g, next.value, i + 2, n); }
      OriginalTwice(g, m, i, n);
      if i + 1 >= g.w.len {
        PairTooFar(g, m, i);
        if !g.hoisted && g.dim <= 0 { OriginalIdles(g, m, i, n); }
      }
    }
  }

  lemma PairTooFar<T>(g: Nest<T>, m: seq<T>, i: nat)
    requires Within(g, |m|) && i + 1 >= g.w.len
    ensures Pair(g, m, i) == None
  {
  }

  lemma {:induction false} OriginalIdles<T>(g: Nest<T>, m: seq<T>, i: nat, n: int)
    requires Within(g, |m|) && !g.hoisted && g.dim <= 0
    ensures Original(g, m, i, n) == Some(m)
    decreases n - i
  {
    if i < n { OriginalIdles(g, m, i + 1, n); }
  }

  lemma OriginalTwice<T>(g: Nest<T>, m: seq<T>, i: nat, n: int)
    requires Within(g, |m|) && i + 1 < n
    ensures Original(g, m, i, n) ==
            var next := TwoSteps(g, m, i); if next.None? then None else Original(g, next.value, i + 2, n)
  {
  }

  /**
   For every trip count, odd, even or not positive, every inner bound and all
   contents and lengths, the unrolled loops do what the source does, element
   for element and index panic for index panic, as long as no pair clashes.
   The one exception: weights read inside an inner loop that never runs, from
   a slice too short for the pairs.
   */
  lemma UnrollExactly<T>(g: Nest<T>, m: seq<T>, n: int)
    requires Within(g, |m|) && NoClash(g, 0, n)
    ensures Unrolled(g, m, 0, n) == Original(g, m, 0, n) <==>
            g.hoisted || g.dim > 0 || n < 2 || n - n % 2 <= g.w.len
  {
    UnrolledFrom(g, m, 0, n);
  }

  /** Slices that share no element with the output never clash. */
  lemma ApartDoesNotClash<T>(g: Nest<T>, n: int)
    requires Apart(g.out, g.w) && Apart(g.out, g.src)
    ensures NoClash(g, 0, n)
  {
    forall k: nat | k < n - 1 ensures NoClashAt(g, k) {
      if g.dim > 0 {
        Cell(k, 0, g.dim);
        Cell(k + 1, 0, g.dim);
      }
    }
  }

  // ----- exactly these layouts -----

  /** Pair and two steps give the same for all contents, additions and multiplications on integers. */
  ghost predicate AlwaysAgree(g: Nest<int>, size: nat, i: nat)
    requires Within(g, size)
  {
    forall add: (int, int) -> int, mul: (int, int) -> int, m: seq<int> | |m| == size ::
      var h := g.(add := add, mul := mul);
      Pair(h, m, i) == TwoSteps(h, m, i)
  }

  /** The layouts on which a pair is right, whatever is computed. */
  lemma PairAgreesIff(g: Nest<int>, size: nat, i: nat)
    requires Within(g, size)
    ensures AlwaysAgree(g, size, i) <==> if g.dim > 0 then NoClashAt(g, i) else g.hoisted || i + 1 < g.w.len
  {
    hide Pair, TwoSteps, RowFits, RowsApart, InOutput;
    var zeros := seq(size, _ => 0);
    if NoClashAt(g, i) {
      forall add: (int, int) -> int, mul: (int, int) -> int, m: seq<int> | |m| == size
        ensures var h := g.(add := add, mul := mul);
                Pair(h, m, i) == TwoSteps(h, m, i) <==> g.dim > 0 || g.hoisted || i + 1 < g.w.len
      {
        SameLayout(g, add, mul, i);
        Agreement(g.(add := add, mul := mul), m, i);
      }
      assert |zeros| == size && g == g.(add := g.add, mul := g.mul);
      Agreement(g, zeros, i);
    } else if g.dim <= 0 {
      NothingInside(g, i);
    } else if !RowsApart(g, i) {
      SourceClashes(g, zeros, i);
    } else if InOutput(g, g.w.off + i + 1, g.dim) {
      SecondWeightClashes(g, zeros, i);
    } else {
      LateWeightClashes(g, zeros, i);
    }
  }

  lemma SameLayout(g: Nest<int>, add: (int, int) -> int, mul: (int, int) -> int, i: nat)
    ensures NoClashAt(g, i) == NoClashAt(g.(add := add, mul := mul), i)
  {
  }

  lemma NothingInside<T>(g: Nest<T>, i: nat)
    requires g.dim <= 0
    ensures NoClashAt(g, i)
  {
  }

  lemma Agreement<T>(g: Nest<T>, m: seq<T>, i: nat)
    requires Within(g, |m|) && NoClashAt(g, i)
    ensures Pair(g, m, i) == TwoSteps(g, m, i) <==> g.dim > 0 || g.hoisted || i + 1 < g.w.len
  {
    PairIsTwoSteps(g, m, i);
    if i + 1 >= g.w.len { PairTooFar(g, m, i); }
  }

  // ----- the probe: zeros, and products that are one operand plus one -----

  function Sum(x: int, y: int): int {
    x + y
  }

  /** One operand of the product, the weight or the source element, plus one. */
  function PlusOne(byWeight: bool): (int, int) -> int {
    (x: int, y: int) => (if byWeight then x else y) + 1
  }

  ghost predicate Probe(g: Nest<int>, byWeight: bool, m: seq<int>, i: nat) {
    && g.add == Sum && g.mul == PlusOne(byWeight)
    && Within(g, |m|) && g.dim > 0 && i + 1 < g.w.len && RowFits(g, i + 1)
    && forall p | 0 <= p < |m| :: m[p] >= 0
  }

  lemma ProbeFits(g: Nest<int>, byWeight: bool, m: seq<int>, i: nat)
    requires Probe(g, byWeight, m, i)
    ensures RowFits(g, i)
  {
    Products.Next(i + 1, g.dim);
  }

  /** A row adds at least one to every element of the output. */
  lemma {:induction false} RowGrows(g: Nest<int>, byWeight: bool, m: seq<int>, i: nat, k: nat, v: Option<int>, d: nat)
    requires Probe(g, byWeight, m, i) && i <= k <= i + 1 && d <= g.dim && (v.Some? ==> v.value >= 0)
    ensures var r := Row(g, m, k, v, d);
            && r.Some? && Probe(g, byWeight, r.value, i)
            && forall p | 0 <= p < |m| :: r.value[p] >= m[p] + if g.out.off + d <= p < g.out.off + g.dim then 1 else 0
    decreases g.dim - d
  {
    ProbeFits(g, byWeight, m, i);
    if d < g.dim {
      StatementFits(g, m, k, v, d);
      RowGrows(g, byWeight, Statement(g, m, k, d, v).value, i, k, v, d + 1);
    }
  }

  /** One column of the pair, from zeros in the first column or where only weights count. */
  lemma ColumnAddsTwo(g: Nest<int>, byWeight: bool, m: seq<int>, i: nat, d: nat)
    requires Probe(g, byWeight, m, i) && d < g.dim
    requires byWeight || (d == 0 && !RowsApart(g, i) && forall p | 0 <= p < |m| :: m[p] == 0)
    ensures var first := Statement(g, m, i, d, Some(0));
            && first.Some?
            && var second := Statement(g, first.value, i + 1, d, Some(0));
            && second.Some? && Probe(g, byWeight, second.value, i)
            && second.value == m[g.out.off + d := m[g.out.off + d] + 2]
  {
    ProbeFits(g, byWeight, m, i);
    Cell(i, d, g.dim);
    Cell(i + 1, d, g.dim);
    StatementFits(g, m, i, Some(0), d);
    var first := Statement(g, m, i, d, Some(0)).value;
    assert first == m[g.out.off + d := m[g.out.off + d] + 1];
    StatementFits(g, first, i + 1, Some(0), d);
  }

  /** The remaining columns leave the earlier ones alone. */
  lemma {:induction false} PairKeeps(g: Nest<int>, m: seq<int>, i: nat, v0: int, v1: int, d: nat)
    requires Within(g, |m|) && RowFits(g, i) && RowFits(g, i + 1)
    ensures var r := PairRow(g, m, i, v0, v1, d);
            r.Some? && forall p | 0 <= p < |m| && p < g.out.off + d :: r.value[p] == m[p]
    decreases g.dim - d
  {
    if d < g.dim {
      StatementFits(g, m, i, Some(v0), d);
      var first := Statement(g, m, i, d, Some(v0)).value;
      StatementFits(g, first, i + 1, Some(v1), d);
      PairKeeps(g, Statement(g, first, i + 1, d, Some(v1)).value, i, v0, v1, d + 1);
    }
  }

  lemma {:induction false} PairAddsTwo(g: Nest<int>, m: seq<int>, i: nat, d: nat, e: nat)
    requires Probe(g, true, m, i) && d <= e < g.dim
    ensures var r := PairRow(g, m, i, 0, 0, d); r.Some? && r.value[g.out.off + e] == m[g.out.off + e] + 2
    decreases g.dim - d
  {
    hide Statement;
    ProbeFits(g, true, m, i);
    ColumnAddsTwo(g, true, m, i, d);
    var second := Statement(g, Statement(g, m, i, d, Some(0)).value, i + 1, d, Some(0)).value;
    if d < e { PairAddsTwo(g, second, i, d + 1, e); } else { PairKeeps(g, second, i, 0, 0, d + 1); }
  }

  ghost predicate Differs(g: Nest<int>, m: seq<int>, i: nat, byWeight: bool)
    requires Within(g, |m|)
  {
    var h := g.(add := Sum, mul := PlusOne(byWeight)); Pair(h, m, i) != TwoSteps(h, m, i)
  }

  ghost predicate Clashing(g: Nest<int>, m: seq<int>, i: nat) {
    && Within(g, |m|) && g.dim > 0 && i + 1 < g.w.len && RowFits(g, i + 1)
    && forall p | 0 <= p < |m| :: m[p] == 0
  }

  /** From zeros the pair leaves two in the first element. */
  lemma PairLeavesTwo(g: Nest<int>, byWeight: bool, m: seq<int>, i: nat)
    requires Clashing(g, m, i) && Probe(g, byWeight, m, i) && (byWeight || !RowsApart(g, i))
    ensures var r := Pair(g, m, i); r.Some? && r.value[g.out.off] == 2
  {
    hide Statement;
    ProbeFits(g, byWeight, m, i);
    ColumnAddsTwo(g, byWeight, m, i, 0);
    var second := Statement(g, Statement(g, m, i, 0, Some(0)).value, i + 1, 0, Some(0)).value;
    PairKeeps(g, second, i, 0, 0, 1);
    assert m[g.w.off + i] == 0 && m[g.w.off + i + 1] == 0;
    assert Pair(g, m, i) == PairRow(g, m, i, 0, 0, 0);
    assert second[g.out.off + 0] == 2;
  }

  /** After the first of two steps every element of the output holds something. */
  lemma StepLeavesSome(g: Nest<int>, byWeight: bool, m: seq<int>, i: nat)
    requires Clashing(g, m, i) && Probe(g, byWeight, m, i)
    ensures var r := Step(g, m, i);
            && r.Some? && Probe(g, byWeight, r.value, i)
            && forall p | 0 <= p < |m| && InOutput(g, p, g.dim) :: r.value[p] >= 1
  {
    hide Row;
    RowGrows(g, byWeight, m, i, i, if g.hoisted then Some(m[g.w.off + i]) else None, 0);
  }

  /** The second of two steps leaves more than two if it finds something in its first column. */
  lemma FirstColumn(g: Nest<int>, byWeight: bool, m: seq<int>, i: nat)
    requires Probe(g, byWeight, m, i) && m[g.out.off] >= 1
    requires (i + 1) * g.dim >= 0 && g.src.off + (i + 1) * g.dim < |m|
    requires if byWeight then m[g.w.off + i + 1] >= 1 else m[g.src.off + (i + 1) * g.dim] >= 1
    ensures var r := Step(g, m, i + 1); r.Some? && r.value[g.out.off] >= 3
  {
    var v := if g.hoisted then Some(m[g.w.off + i + 1]) else None;
    StatementFits(g, m, i + 1, v, 0);
    var next := Statement(g, m, i + 1, 0, v).value;
    assert next[g.out.off] >= 3;
    RowGrows(g, byWeight, next, i, i + 1, v, 1);
  }

  /** The second row reads, in its first column, what the first row writes in a later one. */
  lemma SourceClashes(g: Nest<int>, m: seq<int>, i: nat)
    requires Clashing(g, m, i) && !RowsApart(g, i)
    ensures Differs(g, m, i, false)
  {
    hide Step, Pair;
    var h := g.(add := Sum, mul := PlusOne(false));
    Cell(i + 1, 0, g.dim);
    Cell(i, 0, g.dim);
    PairLeavesTwo(h, false, m, i);
    StepLeavesSome(h, false, m, i);
    var half := Step(h, m, i).value;
    assert InOutput(h, h.src.off + (i + 1) * h.dim, h.dim) && InOutput(h, h.out.off, h.dim);
    FirstColumn(h, false, half, i);
  }

  /** The pair reads the second weight before the first row writes it. */
  lemma SecondWeightClashes(g: Nest<int>, m: seq<int>, i: nat)
    requires Clashing(g, m, i) && InOutput(g, g.w.off + i + 1, g.dim)
    ensures Differs(g, m, i, true)
  {
    hide Step, Pair;
    var h := g.(add := Sum, mul := PlusOne(true));
    Cell(i + 1, 0, g.dim);
    PairLeavesTwo(h, true, m, i);
    StepLeavesSome(h, true, m, i);
    var half := Step(h, m, i).value;
    assert InOutput(h, h.w.off + i + 1, h.dim) && InOutput(h, h.out.off, h.dim);
    FirstColumn(h, true, half, i);
  }

  /** The source reads the first weight again after a column has written it. */
  lemma LateWeightClashes(g: Nest<int>, m: seq<int>, i: nat)
    requires Clashing(g, m, i) && !g.hoisted && InOutput(g, g.w.off + i, g.dim - 1)
    ensures Differs(g, m, i, true)
  {
    hide Row, PairRow;
    var h := g.(add := Sum, mul := PlusOne(true));
    var e := g.w.off + i + 1 - g.out.off;
    PairAddsTwo(h, m, i, 0, e);
    LateWeight(h, m, i, 0);
    RowGrows(h, true, Step(h, m, i).value, i, i + 1, None, 0);
    assert TwoSteps(h, m, i).value[g.out.off + e] >= 3;
    assert Pair(h, m, i).value[g.out.off + e] == 2;
  }

  lemma {:induction false} LateWeight(g: Nest<int>, m: seq<int>, i: nat, d: nat)
    requires Probe(g, true, m, i) && InOutput(g, g.w.off + i, g.dim - 1) && d <= g.dim
    requires d > g.w.off + i - g.out.off ==> m[g.w.off + i] >= 1
    requires d > g.w.off + i + 1 - g.out.off ==> m[g.w.off + i + 1] >= 2
    ensures var r := Row(g, m, i, None, d);
            r.Some? && Probe(g, true, r.value, i) && r.value[g.w.off + i + 1] >= 2
    decreases g.dim - d
  {
    ProbeFits(g, true, m, i);
    if d < g.dim {
      StatementFits(g, m, i, None, d);
      LateWeight(g, Statement(g, m, i, d, None).value, i, d + 1);
    }
  }
}
