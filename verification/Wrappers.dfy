/** The small generic types the other modules share. */
module Wrappers {

  datatype Option<+T> = None | Some(value: T)

  /** What polling a future or a stream gives; an error ends it. */
  datatype Polled<+T> = NotReady | Ready(value: T) | Failed

  /** The value a Solidity mapping holds for `key`: the zero value unless it was assigned. */
  function Lookup<K, V>(m: map<K, V>, key: K, zero: V): V {
    if key in m then m[key] else zero
  }
}
