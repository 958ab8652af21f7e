/** Small shared types, and two facts about bytes. */
module Wrappers {
  datatype Option<+T> = None | Some(value: T)

  type byte = bv8

  function Zeros(n: nat): (r: seq<byte>)
    ensures |r| == n
  {
    seq(n, _ => 0)
  }

  lemma ByteFits(n: nat)
    requires n < 256
    ensures (n as byte) as nat == n
  {
    assert n % 256 == n;
  }

  lemma XorTwice(x: byte, y: byte)
    ensures (x ^ y) ^ y == x
  {
  }
}
