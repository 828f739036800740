/**
 PS2033: fmt.Appendf(buf, "%s...%s", a, b, ...) against the nested chain
 append(append(buf, a...), b...) (checks/ps2033.go:43-68, 174-187, 231-260).
 */
module AppendChain {
  import opened GoSlices
  import opened TextEdits

  type Byte = bv8

  /** What an operand is when it is evaluated: a fixed string, the bytes behind a slice, or a call
      that looks at a slice and returns what it sees. */
  datatype Operand = Text(s: seq<Byte>) | Bytes(v: Slice) | Call(v: Slice)

  ghost predicate SaneOperands(h: Heap<Byte>, ops: seq<Operand>) {
    forall o | o in ops && !o.Text? :: Valid(h, o.v)
  }

  function Eval(h: Heap<Byte>, o: Operand): seq<Byte>
    requires !o.Text? ==> Valid(h, o.v)
  {
    if o.Text? then o.s else View(h, o.v)
  }

  function Concat(parts: seq<seq<Byte>>): seq<Byte> {
    if parts == [] then [] else parts[0] + Concat(parts[1..])
  }

  function EvalAll(h: Heap<Byte>, ops: seq<Operand>): seq<seq<Byte>>
    requires SaneOperands(h, ops)
  {
    seq(|ops|, i requires 0 <= i < |ops| => assert ops[i] in ops; Eval(h, ops[i]))
  }

  /** fmt.Appendf: every operand is read before buf is touched, then one append. */
  function Appendf(h: Heap<Byte>, buf: Slice, ops: seq<Operand>, grow: (nat, nat) -> nat): (Heap<Byte>, Slice)
    requires Valid(h, buf) && SaneOperands(h, ops)
  {
    Append(h, buf, Concat(EvalAll(h, ops)), 0, grow)
  }

  lemma AppendKeepsValid(h: Heap<Byte>, s: Slice, xs: seq<Byte>, grow: (nat, nat) -> nat, v: Slice)
    requires Valid(h, s) && Valid(h, v)
    ensures Valid(Append(h, s, xs, 0, grow).0, v)
  {
  }

  /** The chain: each append runs before the next operand is evaluated. */
  function Chain(h: Heap<Byte>, buf: Slice, ops: seq<Operand>, grow: (nat, nat) -> nat): (r: (Heap<Byte>, Slice))
    requires Valid(h, buf) && SaneOperands(h, ops)
    ensures Valid(r.0, r.1)
    decreases |ops|
  {
    if ops == [] then (h, buf)
    else
      var r := Append(h, buf, Eval(h, ops[0]), 0, grow);
      assert SaneOperands(r.0, ops[1..]) by {
        forall o | o in ops[1..] && !o.Text? ensures Valid(r.0, o.v) {
          AppendKeepsValid(h, buf, Eval(h, ops[0]), grow, o.v);
        }
      }
      Chain(r.0, r.1, ops[1..], grow)
  }

  /** ps2033FixableShape: no byte slices, and after the first operand nothing that runs code. */
  predicate Fixable(ops: seq<Operand>) {
    |ops| >= 2 && !ops[0].Bytes? && forall i | 1 <= i < |ops| :: ops[i].Text?
  }

  predicate Texts(ops: seq<Operand>) {
    forall o | o in ops :: o.Text?
  }

  function Strings(ops: seq<Operand>): seq<seq<Byte>>
    requires Texts(ops)
  {
    seq(|ops|, i requires 0 <= i < |ops| => assert ops[i] in ops; ops[i].s)
  }

  /** After the first operand is read, both forms work on the same fixed strings. */
  lemma FirstIsFixed(h: Heap<Byte>, buf: Slice, ops: seq<Operand>, grow: (nat, nat) -> nat)
    requires Valid(h, buf) && SaneOperands(h, ops) && Fixable(ops)
    ensures var fixed := [Text(Eval(h, ops[0]))] + ops[1..];
            && Texts(fixed) && Strings(fixed) == EvalAll(h, ops)
            && Chain(h, buf, ops, grow) == Chain(h, buf, fixed, grow)
            && Appendf(h, buf, ops, grow) == Appendf(h, buf, fixed, grow)
  {
    var fixed := [Text(Eval(h, ops[0]))] + ops[1..];
    assert fixed[1..] == ops[1..];
    assert Strings(fixed) == EvalAll(h, ops) == EvalAll(h, fixed);
  }

  /** What the chain leaves in arrays that existed before: the operands that still fitted, in place. */
  function Fitting(spare: nat, parts: seq<seq<Byte>>): seq<Byte> {
    if parts == [] || |parts[0]| > spare then [] else parts[0] + Fitting(spare - |parts[0]|, parts[1..])
  }

  lemma {:induction false} FittingFits(spare: nat, parts: seq<seq<Byte>>)
    ensures |Fitting(spare, parts)| <= spare
    ensures |Concat(parts)| <= spare ==> Fitting(spare, parts) == Concat(parts)
    ensures |Fitting(spare, parts)| <= |Concat(parts)|
  {
    if parts != [] && |parts[0]| <= spare { FittingFits(spare - |parts[0]|, parts[1..]); }
  }

  lemma {:induction false} ChainView(h: Heap<Byte>, buf: Slice, ops: seq<Operand>, grow: (nat, nat) -> nat)
    requires Valid(h, buf) && Texts(ops)
    ensures var r := Chain(h, buf, ops, grow); View(r.0, r.1) == View(h, buf) + Concat(Strings(ops))
    decreases |ops|
  {
    hide View, Append, Valid;
    if ops != [] {
      assert ops[0] in ops;
      var r := Append(h, buf, ops[0].s, 0, grow);
      ChainView(r.0, r.1, ops[1..], grow);
      assert Strings(ops)[1..] == Strings(ops[1..]) && Strings(ops)[0] == ops[0].s;
      assert View(h, buf) + ops[0].s + Concat(Strings(ops[1..])) ==
        View(h, buf) + (ops[0].s + Concat(Strings(ops[1..])));
    }
  }

  /** Once the buffer lives in an array of its own, older arrays are left alone. */
  lemma {:induction false} ChainElsewhere(
      h: Heap<Byte>, buf: Slice, ops: seq<Operand>, grow: (nat, nat) -> nat, old_: nat)
    requires Valid(h, buf) && Texts(ops) && old_ <= buf.arr
    ensures var r := Chain(h, buf, ops, grow); old_ <= |r.0| && r.0[..old_] == h[..old_]
    decreases |ops|
  {
    if ops != [] {
      assert ops[0] in ops;
      var r := Append(h, buf, ops[0].s, 0, grow);
      assert r.0[..old_] == h[..old_];
      ChainElsewhere(r.0, r.1, ops[1..], grow, old_);
    }
  }

  lemma AppendInPlace(h: Heap<Byte>, buf: Slice, xs: seq<Byte>, grow: (nat, nat) -> nat)
    requires Valid(h, buf)
    ensures |xs| <= buf.cap - buf.len ==>
              Append(h, buf, xs, 0, grow) == (Store(h, buf.arr, buf.off + buf.len, xs), buf.(len := buf.len + |xs|))
    ensures |xs| > buf.cap - buf.len ==>
              var r := Append(h, buf, xs, 0, grow); |r.0| >= |h| && r.0[..|h|] == h && r.1.arr == |h|
  {
  }

  lemma StoreTwice(h: Heap<Byte>, arr: nat, at: nat, x: seq<Byte>, y: seq<Byte>)
    requires arr < |h| && at + |x| + |y| <= |h[arr]|
    ensures Store(Store(h, arr, at, x), arr, at + |x|, y) == Store(h, arr, at, x + y)
  {
    assert Splice(Splice(h[arr], at, x), at + |x|, y) == Splice(h[arr], at, x + y);
  }

  lemma StoreNothing(h: Heap<Byte>, arr: nat, at: nat)
    requires arr < |h| && at <= |h[arr]|
    ensures Store(h, arr, at, []) == h && h[..|h|] == h
  {
    assert Splice(h[arr], at, []) == h[arr];
  }

  lemma {:induction false} ChainHere(h: Heap<Byte>, buf: Slice, ops: seq<Operand>, grow: (nat, nat) -> nat)
    requires Valid(h, buf) && Texts(ops)
    ensures var r, w := Chain(h, buf, ops, grow), Fitting(buf.cap - buf.len, Strings(ops));
            && |w| <= buf.cap - buf.len && |r.0| >= |h|
            && r.0[..|h|] == Store(h, buf.arr, buf.off + buf.len, w)
    ensures |Concat(Strings(ops))| <= buf.cap - buf.len ==>
              Chain(h, buf, ops, grow) == (Store(h, buf.arr, buf.off + buf.len, Concat(Strings(ops))),
                                           buf.(len := buf.len + |Concat(Strings(ops))|))
    decreases |ops|
  {
    hide Append, Store, View;
    var parts, spare, at := Strings(ops), buf.cap - buf.len, buf.off + buf.len;
    FittingFits(spare, parts);
    StoreNothing(h, buf.arr, at);
    if ops != [] {
      assert ops[0] in ops && parts[1..] == Strings(ops[1..]);
      var x := ops[0].s;
      var r := Append(h, buf, x, 0, grow);
      AppendInPlace(h, buf, x, grow);
      if |x| <= spare {
        ChainHere(r.0, r.1, ops[1..], grow);
        var rest := Fitting(spare - |x|, parts[1..]);
        FittingFits(spare - |x|, parts[1..]);
        StoreTwice(h, buf.arr, at, x, rest);
      } else {
        ChainElsewhere(r.0, r.1, ops[1..], grow, |h|);
      }
    }
  }

  /**
   Append-chain equivalence. Length and bytes always agree; when the result fits
   the capacity, so do the header and the whole heap; and when it does not fit,
   the arrays that existed before agree exactly when the operands that still
   fitted, which the chain has written, were there already.
   */
  lemma ChainIsAppendf(h: Heap<Byte>, buf: Slice, ops: seq<Operand>, grow: (nat, nat) -> nat)
    requires Valid(h, buf) && SaneOperands(h, ops) && Fixable(ops)
    ensures var c, f, parts := Chain(h, buf, ops, grow), Appendf(h, buf, ops, grow), EvalAll(h, ops);
            var spare, at := buf.cap - buf.len, buf.off + buf.len;
            && View(c.0, c.1) == View(f.0, f.1) == View(h, buf) + Concat(parts)
            && |c.0| >= |h| && |f.0| >= |h|
            && (|Concat(parts)| <= spare ==> c == f)
            && |Fitting(spare, parts)| <= spare
            && (c.0[..|h|] == f.0[..|h|] <==>
                 |Concat(parts)| <= spare || h[buf.arr][at..at + |Fitting(spare, parts)|] == Fitting(spare, parts))
  {
    hide Append, Store, View, Chain, Fitting, Concat;
    var fixed := [Text(Eval(h, ops[0]))] + ops[1..];
    FirstIsFixed(h, buf, ops, grow);
    ChainView(h, buf, fixed, grow);
    ChainHere(h, buf, fixed, grow);
    var parts, spare, at := Strings(fixed), buf.cap - buf.len, buf.off + buf.len;
    FittingFits(spare, parts);
    AppendInPlace(h, buf, Concat(parts), grow);
    StoreChanges(h, buf.arr, at, Fitting(spare, parts));
    if |Concat(parts)| <= spare { StoreChanges(h, buf.arr, at, Concat(parts)); }
  }

  lemma StoreChanges(h: Heap<Byte>, arr: nat, at: nat, w: seq<Byte>)
    requires arr < |h| && at + |w| <= |h[arr]|
    ensures Store(h, arr, at, w)[..|h|] == Store(h, arr, at, w)
    ensures Store(h, arr, at, w) == h <==> h[arr][at..at + |w|] == w
  {
    var row := Splice(h[arr], at, w);
    assert Store(h, arr, at, w)[arr] == row && row[at..at + |w|] == w;
    if h[arr][at..at + |w|] == w { assert row == h[arr]; }
  }

  /** A byte-slice operand in buf's spare capacity: "abXYXY" instead of "abXYcd". */
  lemma ByteSliceOperandBreaks(a: Byte, b: Byte, c: Byte, d: Byte, x: Byte, y: Byte, grow: (nat, nat) -> nat)
    requires c != x
    ensures var h, buf, ops := [[a, b, c, d, 0, 0]], Slice(0, 0, 2, 6), [Text([x, y]), Bytes(Slice(0, 2, 2, 4))];
            && Valid(h, buf) && SaneOperands(h, ops)
            && var r, f := Chain(h, buf, ops, grow), Appendf(h, buf, ops, grow);
               View(r.0, r.1) == [a, b, x, y, x, y] && View(f.0, f.1) == [a, b, x, y, c, d]
  {
    LateReadBreaks(a, b, c, d, x, y, grow, Bytes(Slice(0, 2, 2, 4)));
  }

  /** A later operand that runs code and looks at the array sees the first write. */
  lemma LaterCallBreaks(a: Byte, b: Byte, c: Byte, d: Byte, x: Byte, y: Byte, grow: (nat, nat) -> nat)
    requires c != x
    ensures var h, buf, ops := [[a, b, c, d, 0, 0]], Slice(0, 0, 2, 6), [Text([x, y]), Call(Slice(0, 2, 2, 4))];
            && Valid(h, buf) && SaneOperands(h, ops)
            && var r, f := Chain(h, buf, ops, grow), Appendf(h, buf, ops, grow);
               View(r.0, r.1) == [a, b, x, y, x, y] && View(f.0, f.1) == [a, b, x, y, c, d]
  {
    LateReadBreaks(a, b, c, d, x, y, grow, Call(Slice(0, 2, 2, 4)));
  }

  lemma LateReadBreaks(a: Byte, b: Byte, c: Byte, d: Byte, x: Byte, y: Byte, grow: (nat, nat) -> nat, late: Operand)
    requires !late.Text? && late.v == Slice(0, 2, 2, 4)
    ensures var h, buf, ops := [[a, b, c, d, 0, 0]], Slice(0, 0, 2, 6), [Text([x, y]), late];
            && Valid(h, buf) && SaneOperands(h, ops)
            && var r, f := Chain(h, buf, ops, grow), Appendf(h, buf, ops, grow);
               View(r.0, r.1) == [a, b, x, y, x, y] && View(f.0, f.1) == [a, b, x, y, c, d]
  {
    hide Append, Store, View, Chain;
    var h, buf, ops := [[a, b, c, d, 0, 0]], Slice(0, 0, 2, 6), [Text([x, y]), late];
    LateViews(h, buf, a, b, c, d, late);
    assert Eval(h, ops[0]) == [x, y] && Eval(h, ops[1]) == [c, d];
    assert EvalAll(h, ops) == [[x, y], [c, d]] && [[x, y], [c, d]][1..] == [[c, d]] && [[c, d]][1..] == [];
    assert Concat([[c, d]]) == [c, d];
    assert Concat(EvalAll(h, ops)) == [x, y, c, d];
    LateChain(h, buf, a, b, x, y, grow, late);
    assert ops[1..] == [late];
  }

  lemma LateViews(h: Heap<Byte>, buf: Slice, a: Byte, b: Byte, c: Byte, d: Byte, late: Operand)
    requires h == [[a, b, c, d, 0, 0]] && buf == Slice(0, 0, 2, 6) && !late.Text? && late.v == Slice(0, 2, 2, 4)
    ensures Valid(h, buf) && View(h, buf) == [a, b] && Valid(h, late.v) && Eval(h, late) == [c, d]
  {
  }

  /** The chain after its first append: the late operand reads what was just written. */
  lemma LateChain(h: Heap<Byte>, buf: Slice, a: Byte, b: Byte, x: Byte, y: Byte, grow: (nat, nat) -> nat, late: Operand)
    requires |h| == 1 && |h[0]| == 6 && h[0][..2] == [a, b] && buf == Slice(0, 0, 2, 6)
    requires !late.Text? && late.v == Slice(0, 2, 2, 4)
    ensures SaneOperands(h, [Text([x, y]), late]) && Valid(h, buf)
    ensures var r := Chain(h, buf, [Text([x, y]), late], grow); View(r.0, r.1) == [a, b, x, y, x, y]
  {
    hide Append, Store;
    var ops := [Text([x, y]), late];
    var one := Append(h, buf, [x, y], 0, grow);
    AppendInPlace(h, buf, [x, y], grow);
    StoreReads(h, 2, [x, y]);
    assert ops[1..] == [late] && [late][1..] == [] && SaneOperands(one.0, [late]);
    assert Eval(one.0, late) == [x, y];
    assert View(one.0, one.1) == [a, b, x, y];
    var two := Append(one.0, one.1, [x, y], 0, grow);
    assert Chain(two.0, two.1, [], grow) == two;
    assert Chain(one.0, one.1, [late], grow) == two;
  }

  lemma StoreReads(h: Heap<Byte>, at: nat, xs: seq<Byte>)
    requires |h| == 1 && at + |xs| <= |h[0]|
    ensures var r := Store(h, 0, at, xs); r[0][at..at + |xs|] == xs && r[0][..at + |xs|] == h[0][..at] + xs
  {
  }

  // ----- which shapes are safe -----

  /** What is known of an operand before it is evaluated. */
  datatype Kind = Fixed | ByteSlice | Code

  function KindOf(o: Operand): Kind {
    match o
    case Text(_) => Fixed
    case Bytes(_) => ByteSlice
    case Call(_) => Code
  }

  predicate HasShape(ops: seq<Operand>, kinds: seq<Kind>) {
    |ops| == |kinds| && forall i | 0 <= i < |ops| :: KindOf(ops[i]) == kinds[i]
  }

  /** Chain and Appendf give the same bytes for every heap, buffer, and operands of the shape. */
  ghost predicate AlwaysSameBytes(kinds: seq<Kind>) {
    forall h: Heap<Byte>, buf: Slice, ops: seq<Operand>, grow: (nat, nat) -> nat
      | Valid(h, buf) && SaneOperands(h, ops) && HasShape(ops, kinds) ::
      var c, f := Chain(h, buf, ops, grow), Appendf(h, buf, ops, grow);
      View(c.0, c.1) == View(f.0, f.1)
  }

  /**
   The shapes that are safe are those in which every operand but the first is
   fixed before it is evaluated. The check accepts them from two operands on,
   except that it refuses a byte slice in the first place as well.
   */
  lemma SafeShapes(kinds: seq<Kind>)
    ensures AlwaysSameBytes(kinds) <==> forall i | 1 <= i < |kinds| :: kinds[i] == Fixed
    ensures forall ops | HasShape(ops, kinds) ::
              Fixable(ops) <==>
                && |kinds| >= 2 && kinds[0] != ByteSlice
                && forall i | 1 <= i < |kinds| :: kinds[i] == Fixed
  {
    hide Chain;
    if forall i | 1 <= i < |kinds| :: kinds[i] == Fixed {
      forall h: Heap<Byte>, buf: Slice, ops: seq<Operand>, grow: (nat, nat) -> nat
        | Valid(h, buf) && SaneOperands(h, ops) && HasShape(ops, kinds)
        ensures var c, f := Chain(h, buf, ops, grow), Appendf(h, buf, ops, grow);
                View(c.0, c.1) == View(f.0, f.1)
      {
        LaterFixedIsSafe(h, buf, ops, grow);
      }
    } else {
      var i :| 1 <= i < |kinds| && kinds[i] != Fixed;
      LaterReadIsUnsafe(kinds, i);
    }
  }

  lemma LaterFixedIsSafe(h: Heap<Byte>, buf: Slice, ops: seq<Operand>, grow: (nat, nat) -> nat)
    requires Valid(h, buf) && SaneOperands(h, ops) && forall i | 1 <= i < |ops| :: ops[i].Text?
    ensures var c, f := Chain(h, buf, ops, grow), Appendf(h, buf, ops, grow);
            View(c.0, c.1) == View(f.0, f.1)
  {
    hide Append, View;
    if ops == [] {
      assert EvalAll(h, ops) == [] && View(h, buf) + [] == View(h, buf);
    } else {
      var fixed := [Text(Eval(h, ops[0]))] + ops[1..];
      assert fixed[1..] == ops[1..];
      assert Strings(fixed) == EvalAll(h, ops);
      assert Chain(h, buf, ops, grow) == Chain(h, buf, fixed, grow);
      ChainView(h, buf, fixed, grow);
    }
  }

  const PROBE: Heap<Byte> := [[2, 0], [1]]
  const EMPTY := Slice(1, 0, 0, 0)

  /** One byte is appended first, one is read late from where it goes, and everything else is empty. */
  function ProbeOperand(k: Kind, place: nat, late: nat): Operand {
    var v := if place == 0 then Slice(1, 0, 1, 1) else if place == late then Slice(0, 0, 1, 2) else EMPTY;
    match k
    case Fixed => Text(if place == 0 then [1] else [])
    case ByteSlice => Bytes(v)
    case Code => Call(v)
  }

  function ProbeOperands(kinds: seq<Kind>, late: nat): seq<Operand> {
    seq(|kinds|, i requires 0 <= i < |kinds| => ProbeOperand(kinds[i], i, late))
  }

  /** The buffer is empty and lies over the byte that is read late. */
  const PROBE_BUF := Slice(0, 0, 0, 2)

  lemma LaterReadIsUnsafe(kinds: seq<Kind>, late: nat)
    requires 1 <= late < |kinds| && kinds[late] != Fixed
    ensures !AlwaysSameBytes(kinds)
  {
    hide Append, Chain, View;
    var ops := ProbeOperands(kinds, late);
    var grow := (a: nat, b: nat) => 0;
    ProbeIsSane(kinds, late);
    assert HasShape(ops, kinds);
    ProbeParts(kinds, late);
    var f := Appendf(PROBE, PROBE_BUF, ops, grow);
    assert View(f.0, f.1) == [1, 2] by { ProbeViews(PROBE); }
    ProbeChain(kinds, late, grow);
    var c := Chain(PROBE, PROBE_BUF, ops, grow);
    assert View(c.0, c.1) == [1, 1];
  }

  lemma ProbeIsSane(kinds: seq<Kind>, late: nat)
    ensures Valid(PROBE, PROBE_BUF) && SaneOperands(PROBE, ProbeOperands(kinds, late))
  {
  }

  lemma ProbeViews(h: Heap<Byte>)
    requires |h| == 2 && |h[0]| == 2 && h[1] == [1]
    ensures View(h, Slice(1, 0, 1, 1)) == [1] && View(h, EMPTY) == [] && View(h, PROBE_BUF) == []
    ensures View(h, Slice(0, 0, 1, 2)) == [h[0][0]]
  {
  }

  /** What the operands are before anything is written. */
  lemma ProbeParts(kinds: seq<Kind>, late: nat)
    requires 1 <= late < |kinds| && kinds[late] != Fixed
    ensures SaneOperands(PROBE, ProbeOperands(kinds, late))
    ensures Concat(EvalAll(PROBE, ProbeOperands(kinds, late))) == [1, 2]
  {
    hide View, Concat;
    ProbeIsSane(kinds, late);
    ProbeViews(PROBE);
    var parts := EvalAll(PROBE, ProbeOperands(kinds, late));
    assert parts[0] == [1] && parts[late] == [2];
    assert forall k | 0 <= k < |parts| && k != 0 && k != late :: parts[k] == [];
    TwoParts(parts, late);
  }

  lemma TwoParts(parts: seq<seq<Byte>>, late: nat)
    requires 1 <= late < |parts| && forall k | 1 <= k < |parts| && k != late :: parts[k] == []
    ensures Concat(parts) == parts[0] + parts[late]
  {
    hide Concat;
    var front, tail := parts[..late], parts[late..];
    SplitConcat(parts, late);
    ConcatUnfolds(front);
    ConcatUnfolds(tail);
    Nothing(front[1..]);
    Nothing(tail[1..]);
    assert front[0] == parts[0] && tail[0] == parts[late];
  }

  lemma ConcatUnfolds(parts: seq<seq<Byte>>)
    requires parts != []
    ensures Concat(parts) == parts[0] + Concat(parts[1..])
  {
  }

  lemma {:induction false} SplitConcat(parts: seq<seq<Byte>>, n: nat)
    requires n <= |parts|
    ensures Concat(parts) == Concat(parts[..n]) + Concat(parts[n..])
    decreases n
  {
    if n == 0 {
      assert parts[0..] == parts;
    } else {
      SplitConcat(parts[1..], n - 1);
      assert parts[..n][1..] == parts[1..][..n - 1] && parts[1..][n - 1..] == parts[n..];
    }
  }

  lemma {:induction false} Nothing(parts: seq<seq<Byte>>)
    requires forall k | 0 <= k < |parts| :: parts[k] == []
    ensures Concat(parts) == []
  {
    if parts != [] { Nothing(parts[1..]); }
  }

  /** The heap after the first append. */
  const WRITTEN: Heap<Byte> := [[1, 0], [1]]

  /** The chain writes the first byte over the one that is read late. */
  lemma ProbeChain(kinds: seq<Kind>, late: nat, grow: (nat, nat) -> nat)
    requires 1 <= late < |kinds| && kinds[late] != Fixed
    ensures var ops := ProbeOperands(kinds, late);
            && Valid(PROBE, PROBE_BUF) && SaneOperands(PROBE, ops)
            && var c := Chain(PROBE, PROBE_BUF, ops, grow); View(c.0, c.1) == [1, 1]
  {
    hide Append, View, Chain;
    var ops := ProbeOperands(kinds, late);
    ProbeIsSane(kinds, late);
    ProbeViews(PROBE);
    assert Eval(PROBE, ops[0]) == [1];
    FirstByte(grow);
    var next := Slice(0, 0, 1, 2);
    ProbeRest(kinds, late, 1, WRITTEN, next, [1], grow);
    ChainUnfolds(PROBE, PROBE_BUF, ops, grow);
  }

  lemma ChainUnfolds(h: Heap<Byte>, buf: Slice, ops: seq<Operand>, grow: (nat, nat) -> nat)
    requires Valid(h, buf) && SaneOperands(h, ops) && ops != []
    ensures var r := Append(h, buf, Eval(h, ops[0]), 0, grow);
            SaneOperands(r.0, ops[1..]) && Chain(h, buf, ops, grow) == Chain(r.0, r.1, ops[1..], grow)
  {
    hide Append;
    var r := Append(h, buf, Eval(h, ops[0]), 0, grow);
    forall o | o in ops[1..] && !o.Text? ensures Valid(r.0, o.v) {
      AppendKeepsValid(h, buf, Eval(h, ops[0]), grow, o.v);
    }
  }

  lemma FirstByte(grow: (nat, nat) -> nat)
    ensures Valid(PROBE, PROBE_BUF) && Append(PROBE, PROBE_BUF, [1], 0, grow) == (WRITTEN, Slice(0, 0, 1, 2))
  {
    hide Append;
    var row: seq<Byte> := [2, 0];
    assert row[0 + 1..] == [0] && row[..0] == [];
    assert Splice(row, 0, [1]) == [1, 0];
    AppendInPlace(PROBE, PROBE_BUF, [1], grow);
    assert Store(PROBE, 0, 0, [1]) == WRITTEN;
  }

  /** From the k-th operand on: nothing is appended but the late byte, which is a one by now. */
  lemma {:induction false} ProbeRest(
      kinds: seq<Kind>, late: nat, k: nat, h: Heap<Byte>, buf: Slice, seen: seq<Byte>, grow: (nat, nat) -> nat)
    requires 1 <= late < |kinds| && kinds[late] != Fixed && 1 <= k <= |kinds|
    requires |h| == 2 && |h[0]| == 2 && h[0][0] == 1 && h[1] == [1]
    requires buf == Slice(0, 0, if k <= late then 1 else 2, 2) && View(h, buf) == seen
    requires seen == if k <= late then [1] else [1, 1]
    ensures SaneOperands(h, ProbeOperands(kinds, late)[k..])
    ensures var c := Chain(h, buf, ProbeOperands(kinds, late)[k..], grow); View(c.0, c.1) == [1, 1]
    decreases |kinds| - k
  {
    hide Append, View, Chain, Store;
    var ops := ProbeOperands(kinds, late)[k..];
    forall o | o in ops && !o.Text? ensures Valid(h, o.v) {}
    if k == |kinds| {
      assert Chain(h, buf, [], grow) == (h, buf) by { ChainEmpty(h, buf, grow); }
      assert ops == [];
    } else {
      ProbeViews(h);
      var x := Eval(h, ops[0]);
      assert ops[0] == ProbeOperand(kinds[k], k, late);
      assert x == if k == late then [1] else [];
      var r := Append(h, buf, x, 0, grow);
      AppendInPlace(h, buf, x, grow);
      KeepsProbe(h, buf, x);
      assert ops[1..] == ProbeOperands(kinds, late)[k + 1..];
      assert View(r.0, r.1) == seen + x;
      ProbeRest(kinds, late, k + 1, r.0, r.1, seen + x, grow);
      ChainUnfolds(h, buf, ops, grow);
    }
  }

  lemma ChainEmpty(h: Heap<Byte>, buf: Slice, grow: (nat, nat) -> nat)
    requires Valid(h, buf)
    ensures Chain(h, buf, [], grow) == (h, buf)
  {
  }

  lemma KeepsProbe(h: Heap<Byte>, buf: Slice, x: seq<Byte>)
    requires |h| == 2 && |h[0]| == 2 && h[0][0] == 1 && h[1] == [1]
    requires buf.arr == 0 && buf.off == 0 && buf.len >= 1 && buf.len + |x| <= 2
    ensures var r := Store(h, 0, buf.len, x); |r| == 2 && |r[0]| == 2 && r[0][0] == 1 && r[1] == [1]
  {
  }

  // ----- the text of the fix -----

  /** append(...append(append(buf, a...), b...)..., z...) */
  function ChainText(buf: string, ops: seq<string>): string {
    if ops == [] then buf
    else "append(" + ChainText(buf, ops[..|ops| - 1]) + ", " + ops[|ops| - 1] + "...)"
  }

  function Times(n: nat, s: string): string {
    if n == 0 then "" else s + Times(n - 1, s)
  }

  /** Every operand, each followed by its own closing. */
  function Links(ops: seq<string>): string {
    if ops == [] then "" else Links(ops[..|ops| - 1]) + ", " + ops[|ops| - 1] + "...)"
  }

  lemma {:induction false} ChainTextLinks(buf: string, ops: seq<string>)
    ensures ChainText(buf, ops) == Times(|ops|, "append(") + buf + Links(ops)
  {
    if ops != [] { ChainTextLinks(buf, ops[..|ops| - 1]); }
  }

  lemma {:induction false} ListingLinks(ops: seq<string>)
    requires ops != []
    ensures ", " + Listing(ops, Mids(|ops| - 1), "...)") == Links(ops)
  {
    hide Listing, Mids, Links;
    if |ops| == 1 {
      OneLink(ops);
    } else {
      var front, last := ops[..|ops| - 1], ops[|ops| - 1];
      var listed := Listing(front, Mids(|front| - 1), "...)");
      ListingLinks(front);
      ListingGrows(front, last);
      assert ops == front + [last];
      MoreLinks(front, last);
      assert ", " + (listed + ", " + last + "...)") == (", " + listed) + ", " + last + "...)";
    }
  }

  lemma OneLink(ops: seq<string>)
    requires |ops| == 1
    ensures ", " + Listing(ops, Mids(0), "...)") == Links(ops)
  {
    assert ops[..0] == [] && Mids(0) == [];
  }

  lemma MoreLinks(front: seq<string>, last: string)
    ensures Links(front + [last]) == Links(front) + ", " + last + "...)"
  {
    assert (front + [last])[..|front|] == front;
  }

  function Mids(n: nat): (r: seq<string>)
    ensures |r| == n
  {
    seq(n, _ => "...), ")
  }

  lemma {:induction false} ListingGrows(front: seq<string>, last: string)
    requires front != []
    ensures Listing(front + [last], Mids(|front|), "...)") ==
            Listing(front, Mids(|front| - 1), "...)") + ", " + last + "...)"
  {
    var all := front + [last];
    assert all[1..] == front[1..] + [last] && Mids(|front|)[1..] == Mids(|front| - 1);
    if |front| == 1 {
      assert all[1..] == [last] && Mids(1)[1..] == [];
      assert Listing([last], [], "...)") == last + "...)";
    } else {
      assert Mids(|front| - 1)[1..] == Mids(|front| - 2);
      ListingGrows(front[1..], last);
    }
  }

  /** ps2033Fix: the callee, the format between buf and the first operand, the commas, and the tail. */
  function FixEdits(callee: Span, buf: Span, ops: seq<Span>, end: nat): seq<Edit>
    requires ops != []
  {
    [Edit(callee, Times(|ops| - 1, "append(") + "append"), Edit(Span(buf.end, ops[0].pos), ", ")]
    + ListEdits(ops, Mids(|ops| - 1), end, "...)")
  }

  method BuildFix(callee: Span, buf: Span, ops: seq<Span>, end: nat) returns (edits: seq<Edit>)
    requires ops != []
    ensures edits == FixEdits(callee, buf, ops, end)
  {
    edits := [Edit(callee, Times(|ops| - 1, "append(") + "append"), Edit(Span(buf.end, ops[0].pos), ", ")];
    ghost var head := edits;
    for i := 0 to |ops| - 1
      invariant edits == head + ListEdits(ops, Mids(|ops| - 1), end, "...)")[..i]
    {
      edits := edits + [Edit(Span(ops[i].end, ops[i + 1].pos), "...), ")];
    }
    edits := edits + [Edit(Span(ops[|ops| - 1].end, end), "...)")];
  }

  lemma {:induction false} TimesMore(n: nat)
    ensures Times(n, "append(") + "append(" == Times(n + 1, "append(")
  {
    if n > 0 { TimesMore(n - 1); }
  }

  /** Applied to the printed call, the edits give exactly the printed chain. */
  lemma FixGivesChain(callee: string, buf: string, format: string, ops: seq<string>, seps: seq<string>, close: string)
    requires ops != [] && |seps| + 1 == |ops|
    ensures var head := callee + "(" + buf + format;
            var src := head + Listing(ops, seps, close);
            var spans := Spans(ops, seps, |head|);
            var edits := FixEdits(Span(0, |callee|), Span(|callee| + 1, |callee| + 1 + |buf|), spans, |src|);
            Sorted(src, edits, 0) && Apply(src, edits, 0) == ChainText(buf, ops)
  {
    hide ChainText, Links, Times, Listing, Apply, Sorted, ListEdits, Mids;
    var head := callee + "(" + buf + format;
    var src := head + Listing(ops, seps, close);
    var spans := Spans(ops, seps, |head|);
    var callEnd, bufEnd, mids := |callee|, |callee| + 1 + |buf|, Mids(|ops| - 1);
    var edits := FixEdits(Span(0, callEnd), Span(callEnd + 1, bufEnd), spans, |src|);
    var tail := ListEdits(spans, mids, |src|, "...)");
    ListEditsApply(head, ops, seps, close, mids, "...)");
    var open := Times(|ops| - 1, "append(") + "append";
    TwoBefore(src, Edit(Span(0, callEnd), open), Edit(Span(bufEnd, |head|), ", "), tail);
    assert edits == [Edit(Span(0, callEnd), open), Edit(Span(bufEnd, |head|), ", ")] + tail;
    assert src[..0] == "" && src[callEnd..bufEnd] == "(" + buf;
    ListingLinks(ops);
    ChainTextLinks(buf, ops);
    TimesMore(|ops| - 1);
    Regroup(open, "(", buf, ", " + Listing(ops, mids, "...)"));
    Regroup("", open + ("(" + buf), ", ", Listing(ops, mids, "...)"));
  }

  lemma Regroup(a: string, b: string, c: string, d: string)
    ensures a + (b + c) + d == (a + b) + c + d
    ensures a + b + c + d == a + b + (c + d)
  {
  }

  lemma TwoBefore(src: string, a: Edit, b: Edit, rest: seq<Edit>)
    requires a.span.pos <= a.span.end <= b.span.pos <= b.span.end <= |src| && Sorted(src, rest, b.span.end)
    ensures var all := [a, b] + rest;
            Sorted(src, all, 0) &&
            Apply(src, all, 0) == src[..a.span.pos] + a.text + src[a.span.end..b.span.pos] + b.text +
              Apply(src, rest, b.span.end)
  {
    var all := [a, b] + rest;
    assert all[1..] == [b] + rest && ([b] + rest)[1..] == rest;
    SortedFits(src, [b] + rest, a.span.end);
  }
}
