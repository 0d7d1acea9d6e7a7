/** Nullable values and exception-carrying completions. */
module Wrappers {

  /** A nullable value: `None` plays the role of C#'s `null`. */
  datatype Option<T> = None | Some(value: T) {

    /** `this ?? default` */
    function GetOr(default: T): T {
      if Some? then value else default
    }
  }

  /** How a call that may throw ended: it returned a value, or it threw. */
  datatype Completion<T> = Returned(value: T) | Threw

  /** The two maps agree on every key outside `keys`: an update touched those keys at most. */
  ghost predicate AgreeOutside<K(!new), V>(m: map<K, V>, m': map<K, V>, keys: set<K>) {
    forall k | k !in keys :: (k in m <==> k in m') && (k in m ==> m'[k] == m[k])
  }
}
