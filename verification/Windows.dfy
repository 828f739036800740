/** Slices as windows of one memory. */
module Windows {
  datatype Window = Window(off: nat, len: nat)

  /** The windows share no element. */
  predicate Apart(a: Window, b: Window) {
    a.off + a.len <= b.off || b.off + b.len <= a.off
  }
}
