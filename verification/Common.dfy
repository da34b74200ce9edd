/** Types shared by the models: optional values and IPv4 addressing. */
module Common {

  datatype Option<+T> = None | Some(value: T)

  function Max(a: int, b: int): int {
    if a < b then b else a
  }
}

/** IPv4 addresses and the CIDR blocks that rules, peers and networks are written in. */
module Addressing {

  type Addr = a: nat | a < 0x1_0000_0000

  /** `base/bits`, as in 10.0.1.0/24; the low `32 - bits` bits of `base` do not matter. */
  datatype Cidr = Cidr(base: Addr, bits: MaskLen)

  type MaskLen = m: nat | m <= 32

  function Pow2(n: nat): (r: nat)
    ensures r > 0
  {
    if n == 0 then 1 else 2 * Pow2(n - 1)
  }

  function BlockSize(c: Cidr): nat {
    Pow2(32 - c.bits)
  }

  /** Two addresses lie in the same block when they agree above the host bits. */
  predicate InCidr(a: Addr, c: Cidr) {
    a / BlockSize(c) == c.base / BlockSize(c)
  }

  predicate InAny(a: Addr, cidrs: seq<Cidr>) {
    exists c <- cidrs :: InCidr(a, c)
  }

  /** A /32 is one address, a /24 has 256, and a /0 all of them. */
  lemma {:induction false} BlockSizes(base: Addr, bits: MaskLen)
    ensures BlockSize(Cidr(base, 32)) == 1 && BlockSize(Cidr(base, 24)) == 256
    ensures BlockSize(Cidr(base, 0)) == 0x1_0000_0000
    ensures bits > 0 ==> BlockSize(Cidr(base, bits - 1)) == 2 * BlockSize(Cidr(base, bits))
  {
    assert Pow2(8) == 256 by {
      assert Pow2(4) == 16;
    }
    Pow2Doubles(8);
    Pow2Doubles(16);
  }

  lemma {:induction false} Pow2Adds(m: nat, n: nat)
    ensures Pow2(m + n) == Pow2(m) * Pow2(n)
  {
    if n > 0 {
      Pow2Adds(m, n - 1);
    }
  }

  lemma {:induction false} Pow2Doubles(n: nat)
    ensures Pow2(2 * n) == Pow2(n) * Pow2(n)
  {
    Pow2Adds(n, n);
  }

  lemma {:induction false} DivUnique(x: int, d: int, q: int, r: int)
    requires d > 0 && x == q * d + r && 0 <= r < d
    ensures x / d == q
  {
    var q', r' := x / d, x % d;
    assert x == q' * d + r';
    assert (q' - q) * d == r - r';
    if q' - q >= 1 {
    } else if q' - q <= -1 {
    }
  }

  /** A block is the stretch of addresses that starts at its base with the host bits cleared. */
  lemma {:induction false} InCidrRange(a: Addr, c: Cidr)
    ensures var start := c.base - c.base % BlockSize(c);
            InCidr(a, c) <==> start <= a < start + BlockSize(c)
  {
    var size := BlockSize(c);
    var q := c.base / size;
    var start := c.base - c.base % size;
    assert start == q * size && a == (a / size) * size + a % size;
    if start <= a < start + size {
      DivUnique(a, size, q, a - start);
    }
  }

  /** The single-address block `ip/32`. */
  function Host(ip: Addr): Cidr {
    Cidr(ip, 32)
  }
}
