module Bytes {
  function Zeros(n: nat): (zeros: seq<bv8>)
    ensures |zeros| == n
  {
    seq(n, _ => 0)
  }
}
