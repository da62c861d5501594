/** Bytes, little-endian integers and the page geometry shared by every on-disk structure. */
module Bytes {

  type byte = x: int | 0 <= x < 0x100
  type u32 = x: int | 0 <= x < 0x1_0000_0000

  const U64_LIMIT: nat := 0x1_0000_0000_0000_0000

  /** One page of the file. */
  type Page = seq<byte>

  function Pow2(k: nat): (p: nat)
    ensures p >= 1
  {
    if k == 0 then 1 else 2 * Pow2(k - 1)
  }

  function Pow256(k: nat): (p: nat)
    ensures p >= 1
  {
    if k == 0 then 1 else 256 * Pow256(k - 1)
  }

  /** The page size a pager is compiled for, together with the checksum function.
      The checksum is any function from bytes to 32 bits: nothing is assumed about it. */
  datatype Config = Config(log2: nat, pageSize: nat, crc: seq<byte> -> u32)

  /** 2^36 is the largest page size whose directory slot count survives the cast to 32 bits. */
  type Geometry = g: Config |
    g.pageSize == Pow2(g.log2) && 1024 <= g.pageSize <= 0x10_0000_0000
    witness SmallestConfig()

  function SmallestConfig(): (g: Config)
    ensures g.pageSize == Pow2(g.log2) && g.pageSize == 1024
  {
    Config(10, 1024, (s: seq<byte>) => 0)
  }

  function Zeros(n: nat): (s: seq<byte>)
    ensures |s| == n
  {
    seq(n, _ => 0)
  }

  /** The k low-order bytes of n, least significant first. */
  function LE(n: nat, k: nat): (s: seq<byte>)
    ensures |s| == k
  {
    if k == 0 then [] else [n % 256] + LE(n / 256, k - 1)
  }

  function FromLE(s: seq<byte>): nat {
    if s == [] then 0 else s[0] + 256 * FromLE(s[1..])
  }

  lemma {:induction false} LERoundTrip(n: nat, k: nat)
    requires n < Pow256(k)
    ensures FromLE(LE(n, k)) == n
  {
    if k > 0 {
      LERoundTrip(n / 256, k - 1);
      assert LE(n, k)[1..] == LE(n / 256, k - 1);
    }
  }

  /** The other way round, and how large the number is. */
  lemma {:induction false} FromLERoundTrip(s: seq<byte>)
    ensures FromLE(s) < Pow256(|s|) && LE(FromLE(s), |s|) == s
  {
    if s != [] {
      FromLERoundTrip(s[1..]);
    }
  }

  lemma LE8RoundTrip(n: nat)
    requires n < U64_LIMIT
    ensures FromLE(LE(n, 8)) == n
  {
    LERoundTrip(n, 8);
  }

  lemma LE4RoundTrip(n: u32)
    ensures FromLE(LE(n, 4)) == n
  {
    LERoundTrip(n, 4);
  }
}
