/**
 Go slices over backing arrays: headers with offset, length and capacity, and
 an append that writes in place while the capacity lasts.
 */
module GoSlices {

  type Heap<T> = seq<seq<T>>

  datatype Slice = Slice(arr: nat, off: nat, len: nat, cap: nat)

  predicate Valid<T>(h: Heap<T>, s: Slice) {
    s.arr < |h| && s.len <= s.cap && s.off + s.cap <= |h[s.arr]|
  }

  function View<T>(h: Heap<T>, s: Slice): (r: seq<T>)
    requires Valid(h, s)
    ensures |r| == s.len
  {
    h[s.arr][s.off..s.off + s.len]
  }

  /** xs written over a, starting at `at`. */
  function Splice<T>(a: seq<T>, at: nat, xs: seq<T>): (r: seq<T>)
    requires at + |xs| <= |a|
    ensures |r| == |a| && r[at..at + |xs|] == xs
  {
    a[..at] + xs + a[at + |xs|..]
  }

  function Store<T>(h: Heap<T>, arr: nat, at: nat, xs: seq<T>): (r: Heap<T>)
    requires arr < |h| && at + |xs| <= |h[arr]|
    ensures |r| == |h| && forall k | 0 <= k < |h| :: |r[k]| == |h[k]|
  {
    h[arr := Splice(h[arr], at, xs)]
  }

  function Repeat<T>(n: nat, x: T): (r: seq<T>)
    ensures |r| == n && forall i | 0 <= i < n :: r[i] == x
  {
    seq(n, _ => x)
  }

  /** `grow` is how much spare capacity the runtime adds when it reallocates. */
  function Append<T>(h: Heap<T>, s: Slice, xs: seq<T>, zero: T, grow: (nat, nat) -> nat): (r: (Heap<T>, Slice))
    requires Valid(h, s)
    ensures Valid(r.0, r.1) && View(r.0, r.1) == View(h, s) + xs
  {
    if s.len + |xs| <= s.cap then
      var h' := Store(h, s.arr, s.off + s.len, xs);
      var s' := s.(len := s.len + |xs|);
      assert View(h', s') == View(h, s) + xs;
      (h', s')
    else
      var n := s.len + |xs|;
      var spare := grow(s.cap, n);
      var h' := h + [View(h, s) + xs + Repeat(spare, zero)];
      var s' := Slice(|h|, 0, n, n + spare);
      assert View(h', s') == View(h, s) + xs;
      (h', s')
  }

  /** An append keeps every array in place and in size. */
  lemma AppendSizes<T>(h: Heap<T>, s: Slice, xs: seq<T>, zero: T, grow: (nat, nat) -> nat)
    requires Valid(h, s)
    ensures var r := Append(h, s, xs, zero, grow).0; |r| >= |h| && forall k | 0 <= k < |h| :: |r[k]| == |h[k]|
  {
    hide View, Splice;
  }

  lemma SizesKeepValid<T>(h: Heap<T>, later: Heap<T>, s: Slice)
    requires Valid(h, s) && |later| >= |h| && forall k | 0 <= k < |h| :: |later[k]| == |h[k]|
    ensures Valid(later, s)
  {
  }
}
