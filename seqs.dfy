/** Sequences built from a function of the index. */
module Seqs {

  /** The list `[f(i), ..., f(n - 1)]`. */
  function Tabulate<T>(f: nat -> T, i: nat, n: nat): (r: seq<T>)
    requires i <= n
    ensures |r| == n - i
    decreases n - i
  {
    if i == n then [] else [f(i)] + Tabulate(f, i + 1, n)
  }

  lemma {:induction false} TabulateAt<T>(f: nat -> T, i: nat, n: nat, k: nat)
    requires i <= k < n
    ensures Tabulate(f, i, n)[k - i] == f(k)
    decreases k - i
  {
    if i < k {
      TabulateAt(f, i + 1, n, k);
    }
  }
}
