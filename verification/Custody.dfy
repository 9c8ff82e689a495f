/** Names shared by the session map and the keepalive worker. */
module Custody {

  /** Custody identifiers, as ranks in the order of the identifier strings: the heap breaks ties
      by it. */
  type CustodyId = nat

  datatype CustodyStatus = Ok | Degraded | Dead

  /** What the death of an upstream grant does to the sessions on it. */
  datatype RevocationPolicy = Kill | Degrade
}
