/** Types every part of the model shares. */
module Basics {

  datatype Option<+T> = None | Some(value: T) {
    function GetOr(default: T): T {
      match this
      case Some(v) => v
      case None => default
    }
  }

  type byte = b: int | 0 <= b < 256

  type bytes = seq<byte>

  type Path = string

  /** An object of the remote store: its payload and its "compression" metadata, if it has any. */
  datatype Object = Object(payload: bytes, compression: Option<string>)

  function Min(a: nat, b: nat): nat {
    if a < b then a else b
  }

  function Lookup<K, V>(m: map<K, V>, k: K): Option<V> {
    if k in m then Some(m[k]) else None
  }

  /** The first number from `i` on that satisfies `p`, or `n`. */
  function FirstFrom(i: nat, n: nat, p: nat -> bool): (k: nat)
    requires i <= n
    ensures i <= k <= n && (k < n ==> p(k))
    ensures forall j: nat :: i <= j < k ==> !p(j)
    decreases n - i
  {
    if i == n || p(i) then i else FirstFrom(i + 1, n, p)
  }
}
