/** Reading from a socket a buffer at a time. */
module Buffers {
  /** The same in the request reader and in the forwarder. */
  const BUFFER_SIZE: nat := 4096

  function Least(a: nat, b: nat): nat {
    if a <= b then a else b
  }
}
