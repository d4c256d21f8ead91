/** The connection that the stores share the shape of: a store call is a round trip that either
    reaches the database or fails, and then changes nothing. */
module Connections {
  class Connection {
    // Round trips so far, and which of them find the database out of reach.
    var calls: nat
    const fails: nat -> bool

    constructor (fails: nat -> bool)
      ensures this.fails == fails
    {
      this.fails, calls := fails, 0;
    }

    ghost predicate Healthy() {
      forall n :: !fails(n)
    }

    method Call() returns (ok: bool)
      modifies this`calls
      ensures ok == !fails(old(calls)) && calls == old(calls) + 1
    {
      ok := !fails(calls);
      calls := calls + 1;
    }
  }
}
