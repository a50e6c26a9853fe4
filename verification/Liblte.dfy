/** What the functions of the LTE library have in common: result codes, and results that are copied
    to the beginning of a caller's buffer. */
module Liblte {
  datatype Status = SUCCESS | INVALID_INPUTS

  /** The buffer with its beginning replaced. */
  function Replaced<T>(buffer: seq<T>, front: seq<T>): (r: seq<T>)
    requires |front| <= |buffer|
    ensures |r| == |buffer|
  {
    front + buffer[|front|..]
  }

  method Copy<T>(from: array<T>, start: nat, n: nat, to: array<T>)
    requires start + n <= from.Length && n <= to.Length && from != to
    modifies to
    ensures to[..] == old(Replaced(to[..], from[start..start + n]))
  {
    for i := 0 to n
      invariant to[..i] == from[start..start + i]
      invariant to[i..] == old(to[i..])
    {
      to[i] := from[start + i];
    }
    assert to[..] == to[..n] + to[n..];
  }
}
