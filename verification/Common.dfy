/** Small vocabulary shared by the models. */
module Common {

  datatype Option<+T> = None | Some(value: T)

  function Max(a: int, b: int): int {
    if a < b then b else a
  }

  /** `u64::saturating_sub`. */
  function SatSub(a: nat, b: nat): nat {
    if a < b then 0 else a - b
  }

  /** `m` at the keys in `keys` only. */
  function Restrict<K, V>(m: map<K, V>, keys: set<K>): map<K, V> {
    map k | k in m && k in keys :: m[k]
  }

  /** The last element of `s` that differs from `unset`, or `unset` when there is none. */
  function LastSet<T(==)>(s: seq<T>, unset: T): T {
    if s == [] then unset
    else if s[|s| - 1] != unset then s[|s| - 1]
    else LastSet(s[..|s| - 1], unset)
  }

  /** `order` lists every element of `keys` exactly once: one iteration order of a concurrent map. */
  ghost predicate Enumerates<T(!new)>(order: seq<T>, keys: set<T>) {
    && (forall i, j :: 0 <= i < j < |order| ==> order[i] != order[j])
    && (forall k :: k in keys <==> k in order)
  }
}
