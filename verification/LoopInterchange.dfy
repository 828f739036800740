/**
 PS1006's interchange of a column reduction (checks/ps1006.go:5525-5745).

 Element type and addition are parameters, so equal results mean the same
 additions in the same order. Source and output are fixed arrays, which two
 variables cannot share.
 */
module LoopInterchange {
  import Products

  const MAX_INT64 := 0x7FFF_FFFF_FFFF_FFFF
  const TWO_64 := 0x1_0000_0000_0000_0000

  /** The value of a 64-bit computation. */
  function Wrap64(x: int): int {
    (x + MAX_INT64 + 1) % TWO_64 - MAX_INT64 - 1
  }

  predicate Fits(rows: int, cols: int, sourceLength: int, outputLength: int) {
    0 < cols <= outputLength && 0 <= rows && rows * cols <= sourceLength
  }

  /** The bounds test of ps1006InterchangeFix, in 64-bit arithmetic, exact for all constants. */
  method AcceptsBounds(rows: int, cols: int, sourceLength: int, outputLength: int) returns (ok: bool)
    requires rows <= MAX_INT64 && cols <= MAX_INT64 && 0 <= sourceLength <= MAX_INT64 && 0 <= outputLength <= MAX_INT64
    ensures ok <==> Fits(rows, cols, sourceLength, outputLength)
    ensures cols <= 0 || rows < 0 ==> !ok
  {
    if cols < 0 || rows < 0 || cols == 0 || cols > outputLength {
      return false;
    }
    QuotientBounds(rows, cols, sourceLength);
    if rows > sourceLength / cols || Wrap64(rows * cols) > sourceLength {
      return false;
    }
    ok := true;
  }

  /** The quotient test alone decides, and once it passed the product does not overflow. */
  lemma QuotientBounds(rows: int, cols: int, sourceLength: int)
    requires 0 <= rows && 0 < cols && 0 <= sourceLength <= MAX_INT64
    ensures rows <= sourceLength / cols <==> rows * cols <= sourceLength
    ensures rows <= sourceLength / cols ==> Wrap64(rows * cols) == rows * cols
  {
    var q := sourceLength / cols;
    assert sourceLength == q * cols + sourceLength % cols;
    if rows <= q {
      Products.Monotone(rows, q, cols);
    } else {
      Products.Monotone(q + 1, rows, cols);
      Products.Next(q, cols);
    }
  }

  /** Every index of either nest lies in the source, and no step of its computation overflows. */
  lemma IndexFits(r: int, c: int, rows: int, cols: int, sourceLength: int, outputLength: int)
    requires Fits(rows, cols, sourceLength, outputLength) && sourceLength <= MAX_INT64
    requires 0 <= r < rows && 0 <= c < cols
    ensures 0 <= r * cols + c < sourceLength
    ensures Wrap64(Wrap64(r * cols) + c) == r * cols + c
  {
    Products.Next(r, cols);
    Products.Monotone(0, r, cols);
    Products.Monotone(r + 1, rows, cols);
    Small(r * cols);
    Small(r * cols + c);
  }

  function At(r: int, c: int, cols: int): int {
    r * cols + c
  }

  /**
   The guard asks for no less than the source nest needs: for positive columns
   it accepts exactly when every column has its place in the output and every
   element that is read its place in the source.
   */
  lemma FitsIsNeeded(rows: int, cols: int, sourceLength: int, outputLength: int)
    requires 0 < cols && 0 <= rows && 0 <= sourceLength && 0 <= outputLength
    ensures Fits(rows, cols, sourceLength, outputLength) <==>
            && (forall c | 0 <= c < cols :: At(0, c, cols) < outputLength)
            && (forall r, c | 0 <= r < rows && 0 <= c < cols :: 0 <= At(r, c, cols) < sourceLength)
  {
    forall r, c | 0 <= r < rows && 0 <= c < cols ensures 0 <= At(r, c, cols) < rows * cols {
      Products.Next(r, cols);
      Products.Monotone(0, r, cols);
      Products.Monotone(r + 1, rows, cols);
    }
    assert At(0, cols - 1, cols) == cols - 1;
    if rows > 0 {
      Products.Next(rows - 1, cols);
      assert At(rows - 1, cols - 1, cols) == rows * cols - 1;
    }
  }

  lemma Small(x: int)
    requires 0 <= x <= MAX_INT64
    ensures Wrap64(x) == x
  {
  }

  /** The first `rows` elements of column `c`, added up in ascending order. */
  function Column<T>(add: (T, T) -> T, zero: T, a: seq<T>, cols: nat, rows: nat, c: nat): T
    requires c < cols && rows * cols <= |a|
    decreases rows
  {
    if rows == 0 then zero
    else
      RowBelow(rows, cols, c);
      add(Column(add, zero, a, cols, rows - 1, c), a[(rows - 1) * cols + c])
  }

  lemma RowBelow(rows: nat, cols: nat, c: nat)
    requires 0 < rows && c < cols
    ensures 0 <= (rows - 1) * cols && (rows - 1) * cols + c < rows * cols
  {
    Products.Next(rows - 1, cols);
    Products.Monotone(0, rows - 1, cols);
  }

  function Reduced<T>(add: (T, T) -> T, zero: T, a: seq<T>, out: seq<T>, rows: nat, cols: nat): (r: seq<T>)
    requires Fits(rows, cols, |a|, |out|)
    ensures |r| == |out|
  {
    seq(|out|, c requires 0 <= c < |out| => if c < cols then Column(add, zero, a, cols, rows, c) else out[c])
  }

  /** The inner loop of the source. */
  method SumColumn<T>(add: (T, T) -> T, zero: T, a: array<T>, rows: nat, cols: nat, c: nat) returns (s: T)
    requires c < cols && rows * cols <= a.Length
    ensures s == Column(add, zero, a[..], cols, rows, c)
  {
    ghost var src := a[..];
    s := zero;
    var r := 0;
    while r < rows
      invariant r <= rows && r * cols <= |src|
      invariant s == Column(add, zero, src, cols, r, c)
    {
      Below(r, rows, cols);
      RowBelow(r + 1, cols, c);
      s := add(s, a[r * cols + c]);
      r := r + 1;
    }
  }

  /** The source: one column at a time. */
  method ColumnMajor<T>(add: (T, T) -> T, zero: T, a: array<T>, out: array<T>, rows: nat, cols: nat)
    requires a != out && Fits(rows, cols, a.Length, out.Length)
    modifies out
    ensures out[..] == Reduced(add, zero, a[..], old(out[..]), rows, cols)
  {
    ghost var src := a[..];
    var c := 0;
    while c < cols
      invariant c <= cols
      invariant a[..] == src
      invariant forall k | 0 <= k < c :: out[k] == Column(add, zero, src, cols, rows, k)
      invariant forall k | c <= k < out.Length :: out[k] == old(out[k])
    {
      var s := SumColumn(add, zero, a, rows, cols, c);
      out[c] := s;
      c := c + 1;
    }
  }

  lemma Below(r: nat, rows: nat, cols: nat)
    requires r < rows
    ensures r * cols <= (r + 1) * cols <= rows * cols
  {
    Products.Monotone(r, r + 1, cols);
    Products.Monotone(r + 1, rows, cols);
  }

  /** The replacement: row by row into scratch sums. */
  method RowMajor<T>(add: (T, T) -> T, zero: T, a: array<T>, out: array<T>, rows: nat, cols: nat)
    requires a != out && Fits(rows, cols, a.Length, out.Length)
    modifies out
    ensures out[..] == Reduced(add, zero, a[..], old(out[..]), rows, cols)
  {
    ghost var src := a[..];
    var sums := new T[cols](_ => zero);
    var r := 0;
    while r < rows
      invariant r <= rows && r * cols <= |src| && a[..] == src && out[..] == old(out[..])
      invariant forall k | 0 <= k < cols :: sums[k] == Column(add, zero, src, cols, r, k)
    {
      Below(r, rows, cols);
      AddRow(add, zero, a, sums, r, cols);
      r := r + 1;
    }
    var c := 0;
    while c < cols
      invariant c <= cols && a[..] == src
      invariant forall k | 0 <= k < cols :: sums[k] == Column(add, zero, src, cols, rows, k)
      invariant forall k | 0 <= k < c :: out[k] == sums[k]
      invariant forall k | c <= k < out.Length :: out[k] == old(out[k])
    {
      out[c] := sums[c];
      c := c + 1;
    }
  }

  /** One pass of the row loop. */
  method AddRow<T>(add: (T, T) -> T, ghost zero: T, a: array<T>, sums: array<T>, r: nat, cols: nat)
    requires a != sums && sums.Length == cols && r * cols <= (r + 1) * cols <= a.Length
    requires forall k | 0 <= k < cols :: sums[k] == Column(add, zero, a[..], cols, r, k)
    modifies sums
    ensures forall k | 0 <= k < cols :: sums[k] == Column(add, zero, a[..], cols, r + 1, k)
  {
    ghost var src := a[..];
    var psBase := r * cols;
    var c := 0;
    while c < cols
      invariant c <= cols && a[..] == src
      invariant forall k | 0 <= k < c :: sums[k] == Column(add, zero, src, cols, r + 1, k)
      invariant forall k | c <= k < cols :: sums[k] == Column(add, zero, src, cols, r, k)
    {
      RowBelow(r + 1, cols, c);
      sums[c] := add(sums[c], a[psBase + c]);
      c := c + 1;
    }
  }
}
