/** IPv4 addresses as 32-bit numbers, and networks with a prefix length. */
module Ipv4 {

  const TOP: int := 0xFFFF_FFFF

  type U32 = n: int | 0 <= n <= 0xFFFF_FFFF
  type PrefixLen = p: int | 0 <= p <= 32

  function Pow2(e: nat): (p: nat)
    ensures p > 0
  {
    if e == 0 then 1 else 2 * Pow2(e - 1)
  }

  lemma {:induction false} Pow2Add(a: nat, b: nat)
    ensures Pow2(a + b) == Pow2(a) * Pow2(b)
  {
    if a > 0 {
      Pow2Add(a - 1, b);
      assert a - 1 + b == a + b - 1;
      MulAssoc(2, Pow2(a - 1), Pow2(b));
    }
  }

  lemma MulAssoc(x: int, y: int, z: int)
    ensures x * (y * z) == (x * y) * z
  {
  }

  lemma Pow2Whole()
    ensures Pow2(32) == 0x1_0000_0000
  {
    assert Pow2(8) == 0x100;
    Pow2Add(8, 8);
    Pow2Add(16, 16);
  }

  /** A network keeps the address it was written with, host bits included. */
  datatype Net = Net(addr: U32, prefix: PrefixLen) {

    function Size(): nat { Pow2(32 - prefix) }

    function Network(): U32 {
      ModBounds(addr, Size());
      addr - addr % Size()
    }

    function Broadcast(): (b: U32)
      ensures b == Network() + Size() - 1
    {
      WithinSpace();
      Network() + Size() - 1
    }

    predicate Contains(ip: U32) { Network() <= ip <= Broadcast() }

    /** An aligned block never runs past the end of the address space. */
    lemma WithinSpace()
      ensures Network() % Size() == 0
      ensures Network() + Size() - 1 <= TOP
    {
      assert Size() * Pow2(prefix) == TOP + 1 by {
        Pow2Whole();
        Pow2Add(32 - prefix, prefix);
      }
      FloorWithin(addr, Size(), Pow2(prefix));
    }
  }

  lemma FloorWithin(addr: nat, size: nat, blocks: nat)
    requires size > 0 && addr < size * blocks
    ensures (addr - addr % size) % size == 0
    ensures 0 <= addr - addr % size
    ensures addr - addr % size + size <= size * blocks
  {
    var k := addr / size;
    assert addr - addr % size == k * size;
    MultipleMod(k, size);
    MultipleWithin(k, blocks, size, addr);
  }

  lemma ModBounds(a: nat, m: nat)
    requires m > 0
    ensures 0 <= a % m <= a
  {
    MulMonotone(0, a / m, m);
  }

  lemma MultipleWithin(k: nat, blocks: nat, size: nat, addr: int)
    requires k * size <= addr < size * blocks
    ensures k * size + size <= size * blocks
  {
    if k >= blocks {
      MulMonotone(blocks, k, size);
    } else {
      MulMonotone(k + 1, blocks, size);
    }
  }

  lemma MulMonotone(a: nat, b: nat, c: nat)
    requires a <= b
    ensures a * c <= b * c
  {
  }

  lemma {:induction false} MultipleMod(k: nat, m: nat)
    requires m > 0
    ensures (k * m) % m == 0
  {
    if k > 0 {
      MultipleMod(k - 1, m);
      ModShift((k - 1) * m, m);
      assert (k - 1) * m + m == k * m;
    }
  }

  lemma ModShift(a: int, m: nat)
    requires m > 0
    ensures (a + m) % m == a % m
  {
    assert a == (a / m) * m + a % m;
    assert a + m == (a / m + 1) * m + a % m;
    DivUnique(a + m, m, a / m + 1, a % m);
  }

  lemma DivUnique(a: int, m: nat, q: int, r: int)
    requires m > 0 && 0 <= r < m && a == q * m + r
    ensures a / m == q && a % m == r
  {
    var d := a / m - q;
    assert d * m == (a / m) * m - q * m;
    if d > 0 {
      MulMonotone(1, d, m);
    } else if d < 0 {
      MulMonotone(1, -d, m);
    }
  }
}
