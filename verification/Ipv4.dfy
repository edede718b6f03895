/** IPv4 networks as aligned blocks of 32-bit addresses. */
module Ipv4 {
  import opened Arithmetic

  const ADDRESSES: nat := 0x1_0000_0000

  datatype Net = Net(addr: nat, prefix: nat)

  function Pow2(n: nat): nat { if n == 0 then 1 else 2 * Pow2(n - 1) }

  lemma {:induction false} Pow2Adds(a: nat, b: nat)
    ensures Pow2(a + b) == Pow2(a) * Pow2(b)
  {
    if a > 0 { Pow2Adds(a - 1, b); }
  }

  lemma {:induction false} Pow2Positive(n: nat)
    ensures Pow2(n) > 0
  {
    if n > 0 { Pow2Positive(n - 1); }
  }

  /** How many addresses a prefix length leaves. */
  function Size(prefix: nat): (size: nat)
    requires prefix <= 32
    ensures size > 0
  {
    Pow2Positive(32 - prefix);
    Pow2(32 - prefix)
  }

  predicate IsNet(net: Net) { net.prefix <= 32 && net.addr < ADDRESSES }

  /** The largest multiple of `size` up to `x`. */
  function Floor(x: nat, size: nat): (low: nat)
    requires size > 0
    ensures low <= x < low + size
  {
    if x < size then 0 else size + Floor(x - size, size)
  }

  /** The network address: the host part cleared. */
  function Base(net: Net): nat
    requires IsNet(net)
  {
    Floor(net.addr, Size(net.prefix))
  }

  function Last(net: Net): nat
    requires IsNet(net)
  {
    Base(net) + Size(net.prefix) - 1
  }

  predicate Contains(net: Net, ip: nat)
    requires IsNet(net)
  {
    Base(net) <= ip <= Last(net)
  }

  ghost predicate Disjoint(a: Net, b: Net)
    requires IsNet(a) && IsNet(b)
  {
    forall ip: nat :: !(Contains(a, ip) && Contains(b, ip))
  }

  function Address(a: nat, b: nat, c: nat, d: nat): nat { a * 0x1000000 + b * 0x10000 + c * 0x100 + d }

  /** 10.0.0.0/8, 172.16.0.0/12 and 192.168.0.0/16. */
  predicate IsPrivate(ip: nat) {
    || Address(10, 0, 0, 0) <= ip < Address(11, 0, 0, 0)
    || Address(172, 16, 0, 0) <= ip < Address(172, 32, 0, 0)
    || Address(192, 168, 0, 0) <= ip < Address(192, 169, 0, 0)
  }

  /** The range Services get their cluster addresses from. */
  const SERVICES := Net(10 * 0x1000000 + 43 * 0x10000, 16)

  /** Two networks of one size at different network addresses share no address. */
  lemma SameSizeDisjoint(a: Net, b: Net)
    requires IsNet(a) && IsNet(b) && a.prefix == b.prefix && Base(a) != Base(b)
    ensures Disjoint(a, b)
  {
    var size := Size(a.prefix);
    Apart(a.addr, b.addr, size);
  }

  lemma Apart(a: nat, b: nat, size: nat)
    requires size > 0 && Floor(a, size) != Floor(b, size)
    ensures Floor(a, size) + size <= Floor(b, size) || Floor(b, size) + size <= Floor(a, size)
  {
    var i := Multiple(a, size);
    var j := Multiple(b, size);
    if i < j { MulOrder(i + 1, j, size); } else { MulOrder(j + 1, i, size); }
  }

  lemma {:induction false} Multiple(x: nat, size: nat) returns (k: nat)
    requires size > 0
    ensures Floor(x, size) == k * size
    decreases x
  {
    if x < size {
      k := 0;
    } else {
      k := Multiple(x - size, size);
      assert (k + 1) * size == k * size + size;
      k := k + 1;
    }
  }

  lemma {:induction false} MultipleIsFloor(k: nat, size: nat)
    requires size > 0
    ensures Floor(k * size, size) == k * size
  {
    if k > 0 {
      MultipleIsFloor(k - 1, size);
      assert k * size == (k - 1) * size + size;
    }
  }

  // ----- products -----

  lemma MulCancel(a: nat, b: nat, size: nat)
    requires a * size < b * size
    ensures a < b
  {
    if b <= a { MulOrder(b, a, size); }
  }

  lemma MulRegroup(k: nat, count: nat, size: nat)
    ensures k * (count * size) == (k * count) * size
  {
  }

  /** An aligned block of `count * size` addresses is `count` aligned blocks of `size`. */
  lemma CutBlock(addr: nat, size: nat, count: nat, i: nat)
    requires size > 0 && i < count && count * size > 0 && Floor(addr, count * size) == addr
    ensures Floor(addr + i * size, size) == addr + i * size && addr + i * size + size <= addr + count * size
  {
    var k := Multiple(addr, count * size);
    MulRegroup(k, count, size);
    assert addr + i * size == (k * count + i) * size;
    MultipleIsFloor(k * count + i, size);
    MulOrder(i + 1, count, size);
    assert (i + 1) * size == i * size + size;
  }

  /** An aligned address inside an aligned block is one of its cuts. */
  lemma IndexInBlock(addr: nat, size: nat, count: nat, inner: nat) returns (i: nat)
    requires size > 0 && count * size > 0 && Floor(addr, count * size) == addr
    requires Floor(inner, size) == inner && addr <= inner < addr + count * size
    ensures i < count && inner == addr + i * size
  {
    var k := Multiple(addr, count * size);
    var m := Multiple(inner, size);
    MulRegroup(k, count, size);
    var low := k * count;
    assert low * size <= m * size < (m + 1) * size;
    MulCancel(low, m + 1, size);
    i := m - low;
    assert inner == low * size + i * size;
    MulCancel(i, count, size);
  }

  /** The `i`-th network of length `prefix` inside `pool`. */
  function Subnet(pool: Net, prefix: nat, i: nat): Net
    requires prefix <= 32
  {
    MulOrder(0, i, Size(prefix));
    Net(pool.addr + i * Size(prefix), prefix)
  }

  ghost predicate IsPool(pool: Net, prefix: nat) {
    IsNet(pool) && pool.addr == Base(pool) && pool.prefix <= prefix <= 32 && Last(pool) < ADDRESSES
  }

  lemma PoolSize(pool: Net, prefix: nat)
    requires pool.prefix <= prefix <= 32
    ensures Size(pool.prefix) == Pow2(prefix - pool.prefix) * Size(prefix)
  {
    Pow2Adds(prefix - pool.prefix, 32 - prefix);
    assert 32 - pool.prefix == (prefix - pool.prefix) + (32 - prefix);
  }

  lemma SubnetInPool(pool: Net, prefix: nat, i: nat)
    requires IsPool(pool, prefix) && i < Pow2(prefix - pool.prefix)
    ensures var net := Subnet(pool, prefix, i);
            IsNet(net) && net.addr == Base(net) && Contains(pool, net.addr) && Contains(pool, Last(net))
  {
    var size, count := Size(prefix), Pow2(prefix - pool.prefix);
    PoolSize(pool, prefix);
    CutBlock(pool.addr, size, count, i);
    MulOrder(0, i, size);
  }

  lemma IndexInPool(pool: Net, prefix: nat, net: Net) returns (i: nat)
    requires IsPool(pool, prefix) && IsNet(net) && net.prefix == prefix && net.addr == Base(net) && Contains(pool, net.addr)
    ensures i < Pow2(prefix - pool.prefix) && net == Subnet(pool, prefix, i)
  {
    PoolSize(pool, prefix);
    i := IndexInBlock(pool.addr, Size(prefix), Pow2(prefix - pool.prefix), net.addr);
  }

  lemma SubnetsDiffer(pool: Net, prefix: nat, i: nat, j: nat)
    requires prefix <= 32 && i < j
    ensures Subnet(pool, prefix, i) != Subnet(pool, prefix, j)
  {
    MulOrder(i + 1, j, Size(prefix));
    assert (i + 1) * Size(prefix) == i * Size(prefix) + Size(prefix);
  }
}
