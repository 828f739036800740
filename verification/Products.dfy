/** Products, kept away from proofs that have other things to do. */
module Products {
  lemma Next(x: int, z: int)
    ensures (x + 1) * z == x * z + z
  {
  }

  lemma {:induction false} Monotone(x: nat, y: nat, z: nat)
    requires x <= y
    ensures x * z <= y * z
    decreases y - x
  {
    if x < y {
      Monotone(x, y - 1, z);
      Next(y - 1, z);
    }
  }
}
