/** Optional values: the model's stand-in for Python's `None`. */
module Wrappers {

  datatype Option<+T> = None | Some(value: T)

  /** `next` if it holds a value, otherwise `prev`: how one key of a dict update behaves. */
  function Override<T>(prev: Option<T>, next: Option<T>): (r: Option<T>)
    ensures next.Some? ==> r == next
    ensures next.None? ==> r == prev
  {
    if next.Some? then next else prev
  }

  /** `a` and `b` agree on every key except `k`. */
  ghost predicate SameOutside<K(!new), V>(a: map<K, V>, b: map<K, V>, k: K) {
    forall x :: x != k ==> (x in a <==> x in b) && (x in a ==> a[x] == b[x])
  }
}
