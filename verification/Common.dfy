/** Shared vocabulary. */
module Common {
  /** The optional value used for nullable C pointers. */
  datatype Option<+T> = None | Some(value: T)

  /** RUNTIME_INF: an unlimited runtime, and on a runqueue also the mark of being disabled. */
  const INF: nat := 0xffff_ffff_ffff_ffff

  /** The root task group, and its runqueue. */
  const ROOT: nat := 0

  /** s with its k-th element taken out. */
  function Without<T>(s: seq<T>, k: nat): seq<T>
    requires k < |s|
  {
    s[..k] + s[k + 1..]
  }

  /** What is left comes from the other places, in order. */
  lemma WithoutAt<T>(s: seq<T>, k: nat, i: nat)
    requires k < |s| && i < |s| - 1
    ensures |Without(s, k)| == |s| - 1 && Without(s, k)[i] == s[if i < k then i else i + 1]
  {
  }

  /** Two places of q hold different things. */
  ghost predicate Apart<T>(q: seq<T>, i: nat, j: nat)
    requires i < j < |q|
  {
    q[i] != q[j]
  }

  ghost predicate AllApart<T>(q: seq<T>) {
    forall i, j {:trigger Apart(q, i, j)} :: 0 <= i < j < |q| ==> Apart(q, i, j)
  }
}
