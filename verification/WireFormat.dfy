/** Integers in network byte order (src/wire.hpp). */
module WireFormat {
  import opened Basics

  function Power(k: nat): nat {
    if k == 0 then 1 else 256 * Power(k - 1)
  }

  /** k bytes in network byte order. */
  function Put(n: nat, k: nat): (r: seq<Byte>)
    ensures |r| == k
  {
    if k == 0 then [] else Put(n / 256, k - 1) + [n % 256]
  }

  function Get(bytes: seq<Byte>): nat {
    if bytes == [] then 0 else 256 * Get(bytes[..|bytes| - 1]) + bytes[|bytes| - 1]
  }

  lemma {:induction false} GetPut(n: nat, k: nat)
    requires n < Power(k)
    ensures Get(Put(n, k)) == n
  {
    if k > 0 {
      GetPut(n / 256, k - 1);
      assert Put(n, k)[..k - 1] == Put(n / 256, k - 1);
    }
  }
}
