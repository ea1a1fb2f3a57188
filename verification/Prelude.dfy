/** Vocabulary shared by every component: optional values, outcomes of calls
    that may throw, and the few facts about sequences that several proofs need. */
module Prelude {
  datatype Option<+T> = None | Some(value: T)

  /** The outcome of a call that may throw. */
  datatype Result<+T, +E> = Ok(value: T) | Err(error: E)

  const UINT16_LIMIT: nat := 0x1_0000
  const UINT32_LIMIT: nat := 0x1_0000_0000
  const UINT64_LIMIT: nat := 0x1_0000_0000_0000_0000

  function RemoveAt<T>(s: seq<T>, i: nat): (r: seq<T>)
    requires i < |s|
    ensures |r| == |s| - 1
    ensures |s| == 1 ==> r == []
  {
    s[..i] + s[i + 1..]
  }

  lemma Regroup<T>(a: seq<T>, b: seq<T>, c: seq<T>)
    ensures a + (b + c) == (a + b) + c
  {
  }

  /** Every value of the map satisfies `p`. */
  ghost predicate Every<V(!new)>(m: map<nat, V>, p: V -> bool) {
    forall k | k in m :: p(m[k])
  }

  lemma EveryUpdate<V(!new)>(m: map<nat, V>, p: V -> bool, k: nat, v: V)
    requires Every(m, p) && p(v)
    ensures Every(m[k := v], p)
  {
  }
}
