/**
 PS1010's column walk turned into a row-major pass with a slab of sums and a
 divide pass (checks/ps1010.go:231-264, 418-430).

 Rows and output are windows of one memory; the rows may differ in length and
 may overlap each other. A division is a parameter that may fail, as integer
 division by zero does. Equal results mean the same operations in the same order.
 */
module ColumnSums {
  import opened Windows
  import opened Wrappers

  datatype Walk<!T> = Walk(add: (T, T) -> T, zero: T, div: T -> Option<T>, rows: seq<Window>, mean: Window)

  predicate Within<T>(g: Walk<T>, size: nat) {
    g.mean.off + g.mean.len <= size && forall i | 0 <= i < |g.rows| :: g.rows[i].off + g.rows[i].len <= size
  }

  /** No column is read from an element that an earlier column's result went to. */
  predicate NoClash(rows: seq<Window>, mean: Window, d: int) {
    forall i | 0 <= i < |rows| :: !(0 < mean.off - rows[i].off < d)
  }

  // ----- what the loops do -----

  /** The sum of column j over the first k rows, in ascending order; None is an index panic. */
  function Column<T>(g: Walk<T>, m: seq<T>, j: nat, k: nat): Option<T>
    requires Within(g, |m|) && k <= |g.rows|
  {
    if k == 0 then Some(g.zero)
    else
      var before := Column(g, m, j, k - 1);
      if before.None? || j >= g.rows[k - 1].len then None else Some(g.add(before.value, m[g.rows[k - 1].off + j]))
  }

  /** mean[j] = s / divisor */
  function Store<T>(g: Walk<T>, m: seq<T>, j: nat, s: T): (r: Option<seq<T>>)
    requires Within(g, |m|)
    ensures r.Some? ==> |r.value| == |m|
  {
    if j >= g.mean.len || g.div(s).None? then None else Some(m[g.mean.off + j := g.div(s).value])
  }

  /** The source, from column j on. */
  function Original<T>(g: Walk<T>, m: seq<T>, j: nat, d: int): (r: Option<seq<T>>)
    requires Within(g, |m|)
    ensures r.Some? ==> |r.value| == |m|
    decreases d - j
  {
    if j >= d then Some(m)
    else
      var s := Column(g, m, j, |g.rows|);
      if s.None? then None
      else
        var next := Store(g, m, j, s.value);
        if next.None? then None else Original(g, next.value, j + 1, d)
  }

  /** The inner loop over row i. */
  function AddRow<T>(g: Walk<T>, m: seq<T>, sums: seq<T>, i: nat, j: nat): (r: Option<seq<T>>)
    requires Within(g, |m|) && i < |g.rows|
    ensures r.Some? ==> |r.value| == |sums|
    decreases |sums| - j
  {
    if j >= |sums| then Some(sums)
    else if j >= g.rows[i].len then None
    else AddRow(g, m, sums[j := g.add(sums[j], m[g.rows[i].off + j])], i, j + 1)
  }

  function AddRows<T>(g: Walk<T>, m: seq<T>, sums: seq<T>, i: nat): (r: Option<seq<T>>)
    requires Within(g, |m|) && i <= |g.rows|
    ensures r.Some? ==> |r.value| == |sums|
    decreases |g.rows| - i
  {
    if i == |g.rows| then Some(sums)
    else
      var next := AddRow(g, m, sums, i, 0);
      if next.None? then None else AddRows(g, m, next.value, i + 1)
  }

  function Divide<T>(g: Walk<T>, m: seq<T>, sums: seq<T>, j: nat): (r: Option<seq<T>>)
    requires Within(g, |m|)
    ensures r.Some? ==> |r.value| == |m|
    decreases |sums| - j
  {
    if j >= |sums| then Some(m)
    else
      var next := Store(g, m, j, sums[j]);
      if next.None? then None else Divide(g, next.value, sums, j + 1)
  }

  function Zeros<T>(g: Walk<T>, d: nat): seq<T> {
    seq(d, _ => g.zero)
  }

  /** The replacement; make panics on a negative length. */
  function RowMajor<T>(g: Walk<T>, m: seq<T>, d: int): (r: Option<seq<T>>)
    requires Within(g, |m|)
    ensures r.Some? ==> |r.value| == |m|
  {
    if d < 0 then None
    else
      var sums := AddRows(g, m, Zeros(g, d), 0);
      if sums.None? then None else Divide(g, m, sums.value, 0)
  }

  // ----- the loops -----

  method RunStore<T>(g: Walk<T>, mem: array<T>, j: nat, s: T) returns (ok: bool)
    requires Within(g, mem.Length)
    modifies mem
    ensures ok == Store(g, old(mem[..]), j, s).Some?
    ensures ok ==> mem[..] == Store(g, old(mem[..]), j, s).value
  {
    var quotient := g.div(s);
    if j >= g.mean.len || quotient.None? { return false; }
    mem[g.mean.off + j] := quotient.value;
    ok := true;
  }

  method RunColumn<T>(g: Walk<T>, mem: array<T>, j: nat) returns (s: Option<T>)
    requires Within(g, mem.Length)
    ensures s == Column(g, mem[..], j, |g.rows|)
  {
    var sum := g.zero;
    for i := 0 to |g.rows|
      invariant Column(g, mem[..], j, i) == Some(sum)
    {
      if j >= g.rows[i].len {
        Stuck(g, mem[..], j, i + 1, |g.rows|);
        return None;
      }
      sum := g.add(sum, mem[g.rows[i].off + j]);
    }
    s := Some(sum);
  }

  lemma {:induction false} Stuck<T>(g: Walk<T>, m: seq<T>, j: nat, k: nat, n: nat)
    requires Within(g, |m|) && k <= n <= |g.rows| && Column(g, m, j, k) == None
    ensures Column(g, m, j, n) == None
    decreases n - k
  {
    if k < n { Stuck(g, m, j, k + 1, n); }
  }

  /** The column walk. */
  method RunOriginal<T>(g: Walk<T>, mem: array<T>, d: int) returns (ok: bool)
    requires Within(g, mem.Length)
    modifies mem
    ensures ok == Original(g, old(mem[..]), 0, d).Some?
    ensures ok ==> mem[..] == Original(g, old(mem[..]), 0, d).value
  {
    hide Column, Store;
    var j := 0;
    while j < d
      invariant Original(g, mem[..], j, d) == Original(g, old(mem[..]), 0, d)
      decreases d - j
    {
      var s := RunColumn(g, mem, j);
      if s.None? { return false; }
      var fine := RunStore(g, mem, j, s.value);
      if !fine { return false; }
      j := j + 1;
    }
    ok := true;
  }

  /** The replacement. */
  method RunRowMajor<T>(g: Walk<T>, mem: array<T>, d: int) returns (ok: bool)
    requires Within(g, mem.Length)
    modifies mem
    ensures ok == RowMajor(g, old(mem[..]), d).Some?
    ensures ok ==> mem[..] == RowMajor(g, old(mem[..]), d).value
  {
    hide Store;
    if d < 0 { return false; }
    var psColSums := new T[d](_ => g.zero);
    assert psColSums[..] == Zeros(g, d);
    var i := 0;
    while i < |g.rows|
      invariant i <= |g.rows| && mem[..] == old(mem[..])
      invariant AddRows(g, mem[..], psColSums[..], i) == AddRows(g, mem[..], Zeros(g, d), 0)
    {
      var fine := RunAddRow(g, mem, psColSums, i);
      if !fine { return false; }
      i := i + 1;
    }
    var j := 0;
    while j < d
      invariant j <= d
      invariant AddRows(g, old(mem[..]), Zeros(g, d), 0) == Some(psColSums[..])
      invariant Divide(g, mem[..], psColSums[..], j) == RowMajor(g, old(mem[..]), d)
    {
      var fine := RunStore(g, mem, j, psColSums[j]);
      if !fine { return false; }
      j := j + 1;
    }
    ok := true;
  }

  method RunAddRow<T>(g: Walk<T>, mem: array<T>, sums: array<T>, i: nat) returns (ok: bool)
    requires Within(g, mem.Length) && i < |g.rows| && mem != sums
    modifies sums
    ensures ok == AddRow(g, mem[..], old(sums[..]), i, 0).Some?
    ensures ok ==> sums[..] == AddRow(g, mem[..], old(sums[..]), i, 0).value
  {
    ghost var m := mem[..];
    var j := 0;
    while j < sums.Length
      invariant j <= sums.Length && mem[..] == m
      invariant AddRow(g, m, sums[..], i, j) == AddRow(g, m, old(sums[..]), i, 0)
    {
      if j >= g.rows[i].len { return false; }
      ghost var before := sums[..];
      sums[j] := g.add(sums[j], mem[g.rows[i].off + j]);
      assert sums[..] == before[j := g.add(before[j], m[g.rows[i].off + j])];
      j := j + 1;
    }
    ok := true;
  }

  // ----- they agree -----

  lemma {:induction false} AddRowIs<T>(g: Walk<T>, m: seq<T>, sums: seq<T>, i: nat, j: nat)
    requires Within(g, |m|) && i < |g.rows| && j < |sums|
    ensures var r := AddRow(g, m, sums, i, j);
            && (r.Some? <==> |sums| <= g.rows[i].len)
            && (r.Some? ==> forall k | 0 <= k < |sums| ::
                  r.value[k] == if k < j then sums[k] else g.add(sums[k], m[g.rows[i].off + k]))
    decreases |sums| - j
  {
    if j < g.rows[i].len && j + 1 < |sums| {
      AddRowIs(g, m, sums[j := g.add(sums[j], m[g.rows[i].off + j])], i, j + 1);
    }
  }

  /** The slab after i rows. */
  ghost predicate Holds<T>(g: Walk<T>, m: seq<T>, sums: seq<T>, i: nat)
    requires Within(g, |m|) && i <= |g.rows|
  {
    forall j: nat | j < |sums| :: Column(g, m, j, i) == Some(sums[j])
  }

  predicate LongRows<T>(g: Walk<T>, from: nat, d: nat) {
    forall i | from <= i < |g.rows| :: d <= g.rows[i].len
  }

  lemma {:induction false} AddRowsIs<T>(g: Walk<T>, m: seq<T>, sums: seq<T>, i: nat)
    requires Within(g, |m|) && i <= |g.rows| && |sums| > 0 && Holds(g, m, sums, i)
    ensures var r := AddRows(g, m, sums, i);
            (r.Some? <==> LongRows(g, i, |sums|)) && (r.Some? ==> Holds(g, m, r.value, |g.rows|))
    decreases |g.rows| - i
  {
    if i < |g.rows| {
      AddRowIs(g, m, sums, i, 0);
      var next := AddRow(g, m, sums, i, 0);
      if next.Some? { AddRowsIs(g, m, next.value, i + 1); }
    }
  }

  /** Only the results of the first j columns have been written. */
  ghost predicate Written<T>(g: Walk<T>, m: seq<T>, was: seq<T>, j: nat) {
    |m| == |was| && forall p | 0 <= p < |m| && !(g.mean.off <= p < g.mean.off + j) :: m[p] == was[p]
  }

  lemma {:induction false} ColumnStays<T>(g: Walk<T>, m: seq<T>, was: seq<T>, j: nat, k: nat, d: int)
    requires Within(g, |m|) && NoClash(g.rows, g.mean, d) && j < d && Written(g, m, was, j) && k <= |g.rows|
    ensures Column(g, m, j, k) == Column(g, was, j, k)
  {
    if k > 0 { ColumnStays(g, m, was, j, k - 1, d); }
  }

  lemma {:induction false} DivideIsWalk<T>(g: Walk<T>, m: seq<T>, was: seq<T>, sums: seq<T>, j: nat)
    requires Within(g, |m|) && NoClash(g.rows, g.mean, |sums|) && Written(g, m, was, j) && Holds(g, was, sums, |g.rows|)
    ensures Divide(g, m, sums, j) == Original(g, m, j, |sums|)
    decreases |sums| - j
  {
    if j < |sums| {
      ColumnStays(g, m, was, j, |g.rows|, |sums|);
      var next := Store(g, m, j, sums[j]);
      if next.Some? { DivideIsWalk(g, next.value, was, sums, j + 1); }
    }
  }

  /** A row that is too short stops the walk as well. */
  lemma {:induction false} ShortRow<T>(g: Walk<T>, m: seq<T>, i: nat, j: nat, d: int)
    requires Within(g, |m|) && i < |g.rows| && j <= g.rows[i].len < d
    ensures Original(g, m, j, d) == None
    decreases d - j
  {
    if j == g.rows[i].len {
      assert Column(g, m, j, i + 1) == None;
      Stuck(g, m, j, i + 1, |g.rows|);
    } else {
      var s := Column(g, m, j, |g.rows|);
      if s.Some? {
        var next := Store(g, m, j, s.value);
        if next.Some? { ShortRow(g, next.value, i, j + 1, d); }
      }
    }
  }

  /**
   For every bound, all contents, rows of any lengths and any operations: if no
   column is read from where an earlier result was written, the slab version
   writes what the column walk writes and panics when it panics, except for a
   negative bound: there the walk does nothing and allocating the slab panics.
   The output may overlap the rows; it may even be one of them.
   */
  lemma RowMajorExactly<T>(g: Walk<T>, m: seq<T>, d: int)
    requires Within(g, |m|) && NoClash(g.rows, g.mean, d)
    ensures RowMajor(g, m, d) == Original(g, m, 0, d) <==> d >= 0
  {
    if d > 0 {
      var zeros := Zeros(g, d);
      AddRowsIs(g, m, zeros, 0);
      var sums := AddRows(g, m, zeros, 0);
      if sums.Some? {
        DivideIsWalk(g, m, m, sums.value, 0);
      } else {
        var i :| 0 <= i < |g.rows| && g.rows[i].len < d;
        ShortRow(g, m, i, 0, d);
      }
    } else if d == 0 {
      NoColumns(g, m, 0);
    }
  }

  lemma {:induction false} NoColumns<T>(g: Walk<T>, m: seq<T>, i: nat)
    requires Within(g, |m|) && i <= |g.rows|
    ensures AddRows(g, m, [], i) == Some([])
    decreases |g.rows| - i
  {
    if i < |g.rows| { NoColumns(g, m, i + 1); }
  }

  // ----- exactly these layouts -----

  /** Some row or the output ends before the bound, so that both forms panic. */
  predicate Short(rows: seq<Window>, mean: Window, d: int) {
    mean.len < d || exists i :: 0 <= i < |rows| && rows[i].len < d
  }

  /** Both forms give the same for all contents, additions and divisions on integers. */
  ghost predicate AlwaysAgree(rows: seq<Window>, mean: Window, size: nat, d: int)
    requires Within(Walk(Sum, 0, Next, rows, mean), size)
  {
    forall add: (int, int) -> int, zero: int, div: int -> Option<int>, m: seq<int> | |m| == size ::
      var g := Walk(add, zero, div, rows, mean);
      RowMajor(g, m, d) == Original(g, m, 0, d)
  }

  function Sum(x: int, y: int): int {
    x + y
  }

  function Next(s: int): Option<int> {
    Some(s + 1)
  }

  /** The layouts on which the rewrite is right, whatever is computed. */
  lemma AgreesIff(rows: seq<Window>, mean: Window, size: nat, d: int)
    requires Within(Walk(Sum, 0, Next, rows, mean), size)
    ensures AlwaysAgree(rows, mean, size, d) <==> d >= 0 && (NoClash(rows, mean, d) || Short(rows, mean, d))
  {
    hide RowMajor, Original;
    var probe, zeros := Walk(Sum, 0, Next, rows, mean), seq(size, _ => 0);
    if d < 0 {
      RowMajorExactly(probe, zeros, d);
    } else if NoClash(rows, mean, d) || Short(rows, mean, d) {
      forall add: (int, int) -> int, zero: int, div: int -> Option<int>, m: seq<int> | |m| == size
        ensures var g := Walk(add, zero, div, rows, mean); RowMajor(g, m, d) == Original(g, m, 0, d)
      {
        var g := Walk(add, zero, div, rows, mean);
        if NoClash(rows, mean, d) { RowMajorExactly(g, m, d); } else { BothPanic(g, m, d); }
      }
    } else {
      var i :| 0 <= i < |rows| && 0 < mean.off - rows[i].off < d;
      WalkReadsResult(probe, zeros, i, d);
      SlabReadsZeros(probe, zeros, mean.off - rows[i].off, d);
    }
  }

  lemma BothPanic<T>(g: Walk<T>, m: seq<T>, d: int)
    requires Within(g, |m|) && Short(g.rows, g.mean, d) && d > 0
    ensures RowMajor(g, m, d) == None && Original(g, m, 0, d) == None
  {
    var zeros := Zeros(g, d);
    AddRowsIs(g, m, zeros, 0);
    if LongRows(g, 0, d) {
      ShortMean(g, m, 0, d);
      ShortSlab(g, m, AddRows(g, m, zeros, 0).value, 0);
    } else {
      var i :| 0 <= i < |g.rows| && g.rows[i].len < d;
      ShortRow(g, m, i, 0, d);
    }
  }

  lemma {:induction false} ShortMean<T>(g: Walk<T>, m: seq<T>, j: nat, d: int)
    requires Within(g, |m|) && j <= g.mean.len < d
    ensures Original(g, m, j, d) == None
    decreases d - j
  {
    var s := Column(g, m, j, |g.rows|);
    if j < g.mean.len && s.Some? && Store(g, m, j, s.value).Some? {
      ShortMean(g, Store(g, m, j, s.value).value, j + 1, d);
    }
  }

  lemma {:induction false} ShortSlab<T>(g: Walk<T>, m: seq<T>, sums: seq<T>, j: nat)
    requires Within(g, |m|) && j <= g.mean.len < |sums|
    ensures Divide(g, m, sums, j) == None
    decreases |sums| - j
  {
    var next := Store(g, m, j, sums[j]);
    if next.Some? { ShortSlab(g, next.value, sums, j + 1); }
  }

  // ----- the probe: zeros, added up, plus one -----

  ghost predicate Probe(g: Walk<int>, m: seq<int>, d: int) {
    && g.add == Sum && g.zero == 0 && g.div == Next && Within(g, |m|) && !Short(g.rows, g.mean, d)
    && forall p | 0 <= p < |m| :: m[p] >= 0
  }

  lemma {:induction false} ProbeColumn(g: Walk<int>, m: seq<int>, j: nat, k: nat, d: int)
    requires Probe(g, m, d) && j < d && k <= |g.rows|
    ensures var s := Column(g, m, j, k);
            && s.Some? && s.value >= 0
            && (forall i | 0 <= i < k :: s.value >= m[g.rows[i].off + j])
            && ((forall p | 0 <= p < |m| :: m[p] == 0) ==> s.value == 0)
  {
    if k > 0 { ProbeColumn(g, m, j, k - 1, d); }
  }

  /** The column walk finds its own first result in the row and writes at least two. */
  lemma WalkReadsResult(g: Walk<int>, m: seq<int>, i: nat, d: int)
    requires Probe(g, m, d) && i < |g.rows| && 0 < g.mean.off - g.rows[i].off < d
    ensures var r := Original(g, m, 0, d); r.Some? && r.value[g.mean.off + (g.mean.off - g.rows[i].off)] >= 2
  {
    ProbeColumn(g, m, 0, |g.rows|, d);
    var next := Store(g, m, 0, Column(g, m, 0, |g.rows|).value).value;
    WalkFrom(g, next, i, 1, d);
  }

  lemma {:induction false} WalkFrom(g: Walk<int>, m: seq<int>, i: nat, j: nat, d: int)
    requires Probe(g, m, d) && i < |g.rows| && 1 <= j && 0 < g.mean.off - g.rows[i].off < d
    requires m[g.mean.off] >= 1
    requires var at := g.mean.off - g.rows[i].off; j <= d && (j > at ==> m[g.mean.off + at] >= 2)
    ensures var r := Original(g, m, j, d); r.Some? && r.value[g.mean.off + (g.mean.off - g.rows[i].off)] >= 2
    decreases d - j
  {
    if j < d {
      ProbeColumn(g, m, j, |g.rows|, d);
      WalkFrom(g, Store(g, m, j, Column(g, m, j, |g.rows|).value).value, i, j + 1, d);
    }
  }

  /** The slab version has read all rows before, and writes one. */
  lemma SlabReadsZeros(g: Walk<int>, m: seq<int>, k: nat, d: int)
    requires Probe(g, m, d) && k < d && forall p | 0 <= p < |m| :: m[p] == 0
    ensures var r := RowMajor(g, m, d); r.Some? ==> r.value[g.mean.off + k] == 1
  {
    var zeros := Zeros(g, d);
    AddRowsIs(g, m, zeros, 0);
    var sums := AddRows(g, m, zeros, 0);
    if sums.Some? {
      ProbeColumn(g, m, k, |g.rows|, d);
      DivideAt(g, m, sums.value, 0, k);
    }
  }

  lemma {:induction false} DivideAt(g: Walk<int>, m: seq<int>, sums: seq<int>, j: nat, k: nat)
    requires Within(g, |m|) && g.div == Next && k < |sums| && g.mean.off + k < |m|
    requires k < j ==> m[g.mean.off + k] == sums[k] + 1
    ensures var r := Divide(g, m, sums, j); r.Some? ==> r.value[g.mean.off + k] == sums[k] + 1
    decreases |sums| - j
  {
    if j < |sums| {
      var next := Store(g, m, j, sums[j]);
      if next.Some? { DivideAt(g, next.value, sums, j + 1, k); }
    }
  }
}
