/**
 PS2008: one make per row against one slab cut into three-index views
 (checks/ps2008.go:118-185).

 A program over the rows reads, writes, appends, copies headers and reslices.
 The slab version is the image of the row version under an address map, at
 every step of every program.
 */
module SlabRows {
  import opened GoSlices
  import Products

  datatype State<T> = State(heap: Heap<T>, vars: seq<Slice>)

  /** Slice variables are numbered; the rows come first. `dst == |vars|` declares a new one. */
  datatype Op<T> =
    | Get(v: nat, i: nat)
    | Set(v: nat, i: nat, x: T)
    | AppendTo(dst: nat, v: nat, xs: seq<T>)
    | Copy(dst: nat, v: nat)
    | Reslice(dst: nat, v: nat, lo: nat, hi: nat)
    | Reslice3(dst: nat, v: nat, lo: nat, hi: nat, max: nat)
    | Measure(v: nat)

  datatype Seen<T> = Nothing | Element(x: T) | Sizes(len: nat, cap: nat) | Panic

  datatype Params<!T> = Params(zero: T, grow: (nat, nat) -> nat)

  ghost predicate Sane<T>(s: State<T>) {
    forall v | v in s.vars :: Valid(s.heap, v)
  }

  function Assign(vars: seq<Slice>, dst: nat, v: Slice): seq<Slice>
    requires dst <= |vars|
  {
    if dst == |vars| then vars + [v] else vars[dst := v]
  }

  function Cut(v: Slice, lo: nat, hi: nat, max: nat): Slice
    requires lo <= hi <= max <= v.cap
  {
    Slice(v.arr, v.off + lo, hi - lo, max - lo)
  }

  /** One operation; whatever Go would refuse is a panic. */
  function Step<T>(p: Params<T>, s: State<T>, op: Op<T>): (State<T>, Seen<T>)
    requires Sane(s)
  {
    if op.v >= |s.vars| || ((op.AppendTo? || op.Copy? || op.Reslice? || op.Reslice3?) && op.dst > |s.vars|)
      then (s, Panic)
    else
      var v := s.vars[op.v];
      assert v in s.vars;
      match op
      case Get(_, i) => if i < v.len then (s, Element(s.heap[v.arr][v.off + i])) else (s, Panic)
      case Set(_, i, x) =>
        if i < v.len then (s.(heap := Store(s.heap, v.arr, v.off + i, [x])), Nothing) else (s, Panic)
      case AppendTo(dst, _, xs) =>
        var r := Append(s.heap, v, xs, p.zero, p.grow);
        (State(r.0, Assign(s.vars, dst, r.1)), Nothing)
      case Copy(dst, _) => (s.(vars := Assign(s.vars, dst, v)), Nothing)
      case Reslice(dst, _, lo, hi) =>
        if lo <= hi <= v.cap then (s.(vars := Assign(s.vars, dst, Cut(v, lo, hi, v.cap))), Nothing) else (s, Panic)
      case Reslice3(dst, _, lo, hi, max) =>
        if lo <= hi <= max <= v.cap then (s.(vars := Assign(s.vars, dst, Cut(v, lo, hi, max))), Nothing) else (s, Panic)
      case Measure(_) => (s, Sizes(v.len, v.cap))
  }

  lemma StepStaysSane<T>(p: Params<T>, s: State<T>, op: Op<T>)
    requires Sane(s)
    ensures Sane(Step(p, s, op).0)
    ensures |Step(p, s, op).0.heap| >= |s.heap|
    ensures forall k | 0 <= k < |s.heap| :: |Step(p, s, op).0.heap[k]| == |s.heap[k]|
  {
    hide Store, Append, Valid;
    var t := Step(p, s, op);
    if t.1.Panic? || op.v >= |s.vars| { return; }
    var v := s.vars[op.v];
    assert v in s.vars;
    match op {
      case Set(_, i, x) => StoreSane(s, v, i, x);
      case AppendTo(dst, _, xs) =>
        AppendSizes(s.heap, v, xs, p.zero, p.grow);
        var r := Append(s.heap, v, xs, p.zero, p.grow);
        forall w | w in s.vars ensures Valid(r.0, w) { SizesKeepValid(s.heap, r.0, w); }
        AssignSane(State(r.0, s.vars), dst, r.1);
      case Copy(dst, _) => AssignSane(s, dst, v);
      case Reslice(dst, _, lo, hi) =>
        CutValid(s.heap, v, lo, hi, v.cap);
        AssignSane(s, dst, Cut(v, lo, hi, v.cap));
      case Reslice3(dst, _, lo, hi, max) =>
        CutValid(s.heap, v, lo, hi, max);
        AssignSane(s, dst, Cut(v, lo, hi, max));
      case _ =>
    }
  }

  lemma StoreSane<T>(s: State<T>, v: Slice, i: nat, x: T)
    requires Sane(s) && v in s.vars && i < v.len
    ensures Sane(s.(heap := Store(s.heap, v.arr, v.off + i, [x])))
  {
    hide Splice;
    var h := Store(s.heap, v.arr, v.off + i, [x]);
    forall w | w in s.vars ensures Valid(h, w) { SizesKeepValid(s.heap, h, w); }
  }

  lemma AssignSane<T>(s: State<T>, dst: nat, v: Slice)
    requires Sane(s) && Valid(s.heap, v) && dst <= |s.vars|
    ensures Sane(s.(vars := Assign(s.vars, dst, v)))
  {
    hide Valid;
    forall w | w in Assign(s.vars, dst, v) ensures Valid(s.heap, w) {
      assert w == v || w in s.vars;
    }
  }

  lemma CutValid<T>(h: Heap<T>, v: Slice, lo: nat, hi: nat, max: nat)
    requires Valid(h, v) && lo <= hi <= max <= v.cap
    ensures Valid(h, Cut(v, lo, hi, max))
  {
  }

  /** A run stops at the first panic. */
  function Run<T>(p: Params<T>, s: State<T>, ops: seq<Op<T>>): (State<T>, seq<Seen<T>>)
    requires Sane(s)
    decreases |ops|
  {
    if ops == [] then (s, [])
    else
      var r := Step(p, s, ops[0]);
      StepStaysSane(p, s, ops[0]);
      if r.1.Panic? then (r.0, [Panic])
      else
        var rest := Run(p, r.0, ops[1..]);
        (rest.0, [r.1] + rest.1)
  }

  // ----- the two programs -----

  /** rows[i] = make([]T, L) */
  function RowState<T>(p: Params<T>, n: nat, L: nat): State<T> {
    State(seq(n, _ => Repeat(L, p.zero)), seq(n, i requires 0 <= i < n => Slice(i, 0, L, L)))
  }

  /** Where row i starts in the slab. */
  function Start(i: nat, L: nat): nat {
    i * L
  }

  /** rows[i] = slab[i*L : (i+1)*L : (i+1)*L] */
  function SlabState<T>(p: Params<T>, n: nat, L: nat): State<T> {
    State([Repeat(Start(n, L), p.zero)], seq(n, i requires 0 <= i < n => Slice(0, Start(i, L), L, L)))
  }

  method MakeRows<T>(p: Params<T>, rows: array<Slice>, L: nat) returns (heap: Heap<T>)
    modifies rows
    ensures State(heap, rows[..]) == RowState(p, rows.Length, L)
  {
    heap := [];
    for i := 0 to rows.Length
      invariant heap == seq(i, _ => Repeat(L, p.zero))
      invariant forall k | 0 <= k < i :: rows[k] == Slice(k, 0, L, L)
    {
      rows[i] := Slice(|heap|, 0, L, L);
      heap := heap + [Repeat(L, p.zero)];
    }
  }

  method MakeSlab<T>(p: Params<T>, rows: array<Slice>, L: nat) returns (heap: Heap<T>)
    modifies rows
    ensures State(heap, rows[..]) == SlabState(p, rows.Length, L)
  {
    var slab := Slice(0, 0, rows.Length * L, rows.Length * L);
    heap := [Repeat(rows.Length * L, p.zero)];
    for i := 0 to rows.Length
      invariant forall k | 0 <= k < i :: rows[k] == Slice(0, Start(k, L), L, L)
    {
      RowFits(i, rows.Length, L);
      rows[i] := Cut(slab, i * L, (i + 1) * L, (i + 1) * L);
    }
  }

  lemma RowFits(i: nat, n: nat, L: nat)
    requires i < n
    ensures Start(i + 1, L) == Start(i, L) + L <= Start(n, L)
  {
    Products.Next(i, L);
    Products.Monotone(i + 1, n, L);
  }

  // ----- the address map -----

  function Flat<T>(rows: seq<seq<T>>): seq<T> {
    if rows == [] then [] else Flat(rows[..|rows| - 1]) + rows[|rows| - 1]
  }

  ghost predicate Uniform<T>(rows: seq<seq<T>>, L: nat) {
    forall r | r in rows :: |r| == L
  }

  lemma {:induction false} FlatLength<T>(rows: seq<seq<T>>, L: nat)
    requires Uniform(rows, L)
    ensures |Flat(rows)| == Start(|rows|, L)
  {
    hide Start;
    if rows == [] {
      NoRows(L);
    } else {
      var n := |rows| - 1;
      UniformParts(rows, L);
      FlatLength(rows[..n], L);
      RowFits(n, n + 1, L);
    }
  }

  lemma NoRows(L: nat)
    ensures Start(0, L) == 0
  {
  }

  lemma UniformParts<T>(rows: seq<seq<T>>, L: nat)
    requires Uniform(rows, L) && rows != []
    ensures Uniform(rows[..|rows| - 1], L) && |rows[|rows| - 1]| == L
  {
    assert rows[|rows| - 1] in rows;
    forall r | r in rows[..|rows| - 1] ensures |r| == L { assert r in rows; }
  }

  /** Row i sits at i*L, and replacing it replaces exactly that window. */
  lemma {:induction false} FlatAt<T>(rows: seq<seq<T>>, L: nat, i: nat, row: seq<T>)
    requires Uniform(rows, L) && i < |rows| && |row| == L
    ensures Start(i, L) + L <= |Flat(rows)| && Flat(rows)[Start(i, L)..Start(i, L) + L] == rows[i]
    ensures Flat(rows[i := row]) == Splice(Flat(rows), Start(i, L), row)
    decreases |rows|
  {
    hide Start, Uniform, Splice;
    var n := |rows| - 1;
    var front, last := rows[..n], rows[n];
    UniformParts(rows, L);
    FlatLength(front, L);
    if i == n {
      assert rows[i := row][..n] == front;
      SpliceEnd(Flat(front), last, row);
    } else {
      FlatAt(front, L, i, row);
      assert rows[i := row][..n] == front[i := row];
      SpliceFront(Flat(front), last, Start(i, L), row);
    }
  }

  lemma SpliceEnd<T>(a: seq<T>, b: seq<T>, row: seq<T>)
    requires |row| == |b|
    ensures Splice(a + b, |a|, row) == a + row && (a + b)[|a|..|a| + |b|] == b
  {
  }

  lemma SpliceFront<T>(a: seq<T>, b: seq<T>, at: nat, row: seq<T>)
    requires at + |row| <= |a|
    ensures Splice(a + b, at, row) == Splice(a, at, row) + b && (a + b)[at..at + |row|] == a[at..at + |row|]
  {
  }

  lemma SpliceInside<T>(a: seq<T>, at: nat, row: seq<T>, o: nat, xs: seq<T>)
    requires at + |row| <= |a| && a[at..at + |row|] == row && o + |xs| <= |row|
    ensures Splice(a, at, Splice(row, o, xs)) == Splice(a, at + o, xs)
  {
    var l, r := Splice(a, at, Splice(row, o, xs)), Splice(a, at + o, xs);
    forall k | 0 <= k < |a| ensures l[k] == r[k] {
      if at <= k < at + |row| { assert a[k] == a[at..at + |row|][k - at]; }
    }
  }

  function MapSlice(n: nat, L: nat, v: Slice): Slice {
    if v.arr < n then v.(arr := 0, off := Start(v.arr, L) + v.off) else v.(arr := v.arr - n + 1)
  }

  function MapVars(n: nat, L: nat, vars: seq<Slice>): seq<Slice> {
    seq(|vars|, i requires 0 <= i < |vars| => MapSlice(n, L, vars[i]))
  }

  /** The first n arrays become one slab; later arrays keep their order. */
  function MapHeap<T>(n: nat, heap: Heap<T>): Heap<T>
    requires n <= |heap|
  {
    [Flat(heap[..n])] + heap[n..]
  }

  function MapState<T>(n: nat, L: nat, s: State<T>): State<T>
    requires n <= |s.heap|
  {
    State(MapHeap(n, s.heap), MapVars(n, L, s.vars))
  }

  ghost predicate Shaped<T>(n: nat, L: nat, s: State<T>) {
    Sane(s) && n <= |s.heap| && Uniform(s.heap[..n], L)
  }

  lemma MapStore<T>(n: nat, L: nat, heap: Heap<T>, v: Slice, k: nat, xs: seq<T>)
    requires n <= |heap| && Uniform(heap[..n], L) && v.arr < |heap| && v.off + k + |xs| <= |heap[v.arr]|
    ensures var w := MapSlice(n, L, v);
            && w.arr < |MapHeap(n, heap)| && w.off + k + |xs| <= |MapHeap(n, heap)[w.arr]|
            && MapHeap(n, Store(heap, v.arr, v.off + k, xs)) == Store(MapHeap(n, heap), w.arr, w.off + k, xs)
  {
    hide Start, Flat, Splice, MapHeap;
    var at := v.off + k;
    MapArray(n, heap, v.arr);
    if v.arr < n {
      var rows, row := heap[..n], Splice(heap[v.arr], at, xs);
      assert rows[v.arr] in rows;
      FlatAt(rows, L, v.arr, row);
      SpliceInside(Flat(rows), Start(v.arr, L), rows[v.arr], at, xs);
    }
    MapReplace(n, heap, v.arr, Splice(heap[v.arr], at, xs));
  }

  /** Replacing an array on either side of the map. */
  lemma MapReplace<T>(n: nat, heap: Heap<T>, k: nat, a: seq<T>)
    requires n <= |heap| && k < |heap|
    ensures |MapHeap(n, heap)| == |heap| - n + 1
    ensures k < n ==> MapHeap(n, heap[k := a]) == MapHeap(n, heap)[0 := Flat(heap[..n][k := a])]
    ensures k >= n ==> MapHeap(n, heap[k := a]) == MapHeap(n, heap)[k - n + 1 := a]
  {
    var after := heap[k := a];
    if k < n {
      assert after[..n] == heap[..n][k := a] && after[n..] == heap[n..];
    } else {
      assert after[..n] == heap[..n] && after[n..] == heap[n..][k - n := a];
    }
  }

  lemma MapView<T>(n: nat, L: nat, heap: Heap<T>, v: Slice)
    requires n <= |heap| && Uniform(heap[..n], L) && Valid(heap, v)
    ensures Valid(MapHeap(n, heap), MapSlice(n, L, v))
    ensures View(MapHeap(n, heap), MapSlice(n, L, v)) == View(heap, v)
  {
    hide Start, Flat, MapHeap;
    MapArray(n, heap, v.arr);
    if v.arr < n {
      var rows := heap[..n];
      assert rows[v.arr] in rows;
      FlatAt(rows, L, v.arr, rows[v.arr]);
      WindowOfWindow(Flat(rows), Start(v.arr, L), L, v.off, v.len);
    }
  }

  /** Where an array went. */
  lemma MapArray<T>(n: nat, heap: Heap<T>, k: nat)
    requires n <= |heap| && k < |heap|
    ensures |MapHeap(n, heap)| == |heap| - n + 1
    ensures k < n ==> MapHeap(n, heap)[0] == Flat(heap[..n])
    ensures k >= n ==> MapHeap(n, heap)[k - n + 1] == heap[k]
  {
  }

  lemma WindowOfWindow<T>(a: seq<T>, at: nat, L: nat, off: nat, len: nat)
    requires at + L <= |a| && off + len <= L
    ensures a[at..at + L][off..off + len] == a[at + off..at + off + len]
  {
    var inner, outer := a[at..at + L][off..off + len], a[at + off..at + off + len];
    forall k | 0 <= k < len ensures inner[k] == outer[k] {}
  }

  lemma MapElement<T>(n: nat, L: nat, heap: Heap<T>, v: Slice, i: nat)
    requires n <= |heap| && Uniform(heap[..n], L) && Valid(heap, v) && i < v.len
    ensures var w := MapSlice(n, L, v);
            Valid(MapHeap(n, heap), w) && heap[v.arr][v.off + i] == MapHeap(n, heap)[w.arr][w.off + i]
  {
    MapView(n, L, heap, v);
    assert View(heap, v)[i] == View(MapHeap(n, heap), MapSlice(n, L, v))[i];
  }

  lemma MapAlloc<T>(n: nat, heap: Heap<T>, a: seq<T>)
    requires n <= |heap|
    ensures MapHeap(n, heap + [a]) == MapHeap(n, heap) + [a] && |MapHeap(n, heap)| == |heap| - n + 1
  {
    assert (heap + [a])[..n] == heap[..n] && (heap + [a])[n..] == heap[n..] + [a];
  }

  lemma MapAppend<T>(p: Params<T>, n: nat, L: nat, heap: Heap<T>, v: Slice, xs: seq<T>)
    requires n <= |heap| && Uniform(heap[..n], L) && Valid(heap, v)
    ensures Valid(MapHeap(n, heap), MapSlice(n, L, v))
    ensures var r, m := Append(heap, v, xs, p.zero, p.grow),
            Append(MapHeap(n, heap), MapSlice(n, L, v), xs, p.zero, p.grow);
            n <= |r.0| && m == (MapHeap(n, r.0), MapSlice(n, L, r.1))
  {
    hide Start, MapHeap, View, Splice, Store;
    MapView(n, L, heap, v);
    if v.len + |xs| <= v.cap {
      MapStore(n, L, heap, v, v.len, xs);
    } else {
      var need := v.len + |xs|;
      MapAlloc(n, heap, View(heap, v) + xs + Repeat(p.grow(v.cap, need), p.zero));
    }
  }

  lemma MapAssign(n: nat, L: nat, vars: seq<Slice>, dst: nat, v: Slice)
    requires dst <= |vars|
    ensures MapVars(n, L, Assign(vars, dst, v)) == Assign(MapVars(n, L, vars), dst, MapSlice(n, L, v))
  {
  }

  lemma MapSane<T>(n: nat, L: nat, s: State<T>)
    requires Shaped(n, L, s)
    ensures Sane(MapState(n, L, s))
  {
    forall v | v in s.vars ensures Valid(MapHeap(n, s.heap), MapSlice(n, L, v)) { MapView(n, L, s.heap, v); }
  }

  lemma StepStaysShaped<T>(p: Params<T>, n: nat, L: nat, s: State<T>, op: Op<T>)
    requires Shaped(n, L, s)
    ensures Shaped(n, L, Step(p, s, op).0)
  {
    StepStaysSane(p, s, op);
    var t := Step(p, s, op).0;
    forall r | r in t.heap[..n] ensures |r| == L {
      var k :| 0 <= k < n && t.heap[k] == r;
      assert s.heap[..n][k] in s.heap[..n];
    }
  }

  /** The step of the simulation: same observation, related states. */
  lemma StepCommutes<T>(p: Params<T>, n: nat, L: nat, s: State<T>, op: Op<T>)
    requires Shaped(n, L, s)
    ensures Sane(MapState(n, L, s)) && Shaped(n, L, Step(p, s, op).0)
    ensures Step(p, MapState(n, L, s), op) == (MapState(n, L, Step(p, s, op).0), Step(p, s, op).1)
  {
    hide MapHeap, MapSlice, Start, Append, Store, View, Uniform, Valid, Assign, Cut;
    MapSane(n, L, s);
    StepStaysShaped(p, n, L, s, op);
    if op.v < |s.vars| {
      var v := s.vars[op.v];
      assert v in s.vars;
      SameSizes(n, L, v);
      match op
      case Get(_, i) => if i < v.len { MapElement(n, L, s.heap, v, i); }
      case Set(_, i, x) => if i < v.len { SaneStore(s.heap, v, i); MapStore(n, L, s.heap, v, i, [x]); }
      case AppendTo(dst, _, xs) =>
        MapAppend(p, n, L, s.heap, v, xs);
        if dst <= |s.vars| { MapAssign(n, L, s.vars, dst, Append(s.heap, v, xs, p.zero, p.grow).1); }
      case Copy(dst, _) => if dst <= |s.vars| { MapAssign(n, L, s.vars, dst, v); }
      case Reslice(dst, _, lo, hi) =>
        if dst <= |s.vars| && lo <= hi <= v.cap {
          MapCut(n, L, v, lo, hi, v.cap);
          MapAssign(n, L, s.vars, dst, Cut(v, lo, hi, v.cap));
        }
      case Reslice3(dst, _, lo, hi, max) =>
        if dst <= |s.vars| && lo <= hi <= max <= v.cap {
          MapCut(n, L, v, lo, hi, max);
          MapAssign(n, L, s.vars, dst, Cut(v, lo, hi, max));
        }
      case Measure(_) =>
    }
  }

  lemma SameSizes(n: nat, L: nat, v: Slice)
    ensures MapSlice(n, L, v).len == v.len && MapSlice(n, L, v).cap == v.cap
  {
  }

  lemma SaneStore<T>(heap: Heap<T>, v: Slice, i: nat)
    requires Valid(heap, v) && i < v.len
    ensures v.arr < |heap| && v.off + i + 1 <= |heap[v.arr]|
  {
  }

  lemma MapCut(n: nat, L: nat, v: Slice, lo: nat, hi: nat, max: nat)
    requires lo <= hi <= max <= v.cap
    ensures MapSlice(n, L, v).cap == v.cap && MapSlice(n, L, Cut(v, lo, hi, max)) == Cut(MapSlice(n, L, v), lo, hi, max)
  {
  }

  lemma {:induction false} RunCommutes<T>(p: Params<T>, n: nat, L: nat, s: State<T>, ops: seq<Op<T>>)
    requires Shaped(n, L, s)
    ensures Sane(MapState(n, L, s)) && Shaped(n, L, Run(p, s, ops).0)
    ensures Run(p, MapState(n, L, s), ops) == (MapState(n, L, Run(p, s, ops).0), Run(p, s, ops).1)
    decreases |ops|
  {
    hide MapState, Step;
    MapSane(n, L, s);
    if ops != [] {
      StepCommutes(p, n, L, s, ops[0]);
      var r := Step(p, s, ops[0]);
      if !r.1.Panic? { RunCommutes(p, n, L, r.0, ops[1..]); }
    }
  }

  lemma RowStateMaps<T>(p: Params<T>, n: nat, L: nat)
    ensures Shaped(n, L, RowState(p, n, L)) && MapState(n, L, RowState(p, n, L)) == SlabState(p, n, L)
  {
    var s := RowState(p, n, L);
    assert s.heap[..n] == s.heap && s.heap[n..] == [];
    FlatZero(p, n, L);
  }

  lemma {:induction false} FlatZero<T>(p: Params<T>, n: nat, L: nat)
    ensures Flat(seq(n, _ => Repeat(L, p.zero))) == Repeat(Start(n, L), p.zero)
  {
    hide Start;
    var rows: seq<seq<T>> := seq(n, _ => Repeat(L, p.zero));
    if n > 0 {
      FlatZero(p, n - 1, L);
      assert rows[..n - 1] == seq(n - 1, _ => Repeat(L, p.zero));
      RowFits(n - 1, n, L);
      assert Repeat(Start(n, L), p.zero) == Repeat(Start(n - 1, L), p.zero) + Repeat(L, p.zero);
    } else {
      NoRows(L);
    }
  }

  /** Slab refinement: every program over the rows observes the same, panics included. */
  lemma SlabShowsTheSame<T>(p: Params<T>, n: nat, L: nat, ops: seq<Op<T>>)
    ensures Sane(RowState(p, n, L)) && Sane(SlabState(p, n, L))
    ensures Run(p, SlabState(p, n, L), ops).1 == Run(p, RowState(p, n, L), ops).1
    ensures var rows, slab := Run(p, RowState(p, n, L), ops).0, Run(p, SlabState(p, n, L), ops).0;
            |slab.vars| == |rows.vars| && forall k | 0 <= k < |rows.vars| ::
              && Valid(rows.heap, rows.vars[k]) && Valid(slab.heap, slab.vars[k])
              && View(slab.heap, slab.vars[k]) == View(rows.heap, rows.vars[k])
              && slab.vars[k].cap == rows.vars[k].cap
  {
    hide MapHeap, Start, Run, RowState, SlabState;
    RowStateMaps(p, n, L);
    RunCommutes(p, n, L, RowState(p, n, L), ops);
    var rows := Run(p, RowState(p, n, L), ops).0;
    forall k | 0 <= k < |rows.vars|
      ensures Valid(rows.heap, rows.vars[k]) && Valid(MapHeap(n, rows.heap), MapSlice(n, L, rows.vars[k]))
      ensures View(MapHeap(n, rows.heap), MapSlice(n, L, rows.vars[k])) == View(rows.heap, rows.vars[k])
    {
      assert rows.vars[k] in rows.vars;
      MapView(n, L, rows.heap, rows.vars[k]);
    }
    MapSane(n, L, rows);
  }

  /** Directly on the slab: an append to one row leaves every other row as it was. */
  lemma AppendKeepsOtherRows<T>(p: Params<T>, heap: Heap<T>, n: nat, L: nat, i: nat, j: nat, xs: seq<T>)
    requires |heap| > 0 && |heap[0]| == Start(n, L) && i < n && j < n && i != j
    ensures var v, w := Slice(0, Start(i, L), L, L), Slice(0, Start(j, L), L, L);
            && Valid(heap, v) && Valid(heap, w)
            && var r := Append(heap, v, xs, p.zero, p.grow); Valid(r.0, w) && View(r.0, w) == View(heap, w)
  {
    RowFits(i, n, L);
    RowFits(j, n, L);
  }

  /** Two-index views would not do: an append to a row is written over the beginning of the next. */
  lemma UncappedViewsOverlap<T>(p: Params<T>, heap: Heap<T>, n: nat, L: nat, i: nat, xs: seq<T>)
    requires |heap| > 0 && |heap[0]| == Start(n, L) && i + 1 < n && |xs| <= L
    ensures Start(i, L) + L == Start(i + 1, L) && Start(i + 1, L) + L <= Start(n, L)
    ensures var v := Slice(0, Start(i, L), L, Start(n, L) - Start(i, L));
            var w := Slice(0, Start(i + 1, L), L, Start(n, L) - Start(i + 1, L));
            && Valid(heap, v) && Valid(heap, w)
            && var r := Append(heap, v, xs, p.zero, p.grow).0;
               Valid(r, w) && View(r, w) == xs + View(heap, w)[|xs|..]
  {
    RowFits(i, n, L);
    RowFits(i + 1, n, L);
  }
}
