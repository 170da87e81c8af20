/** Client addresses: the least free address of the VPN network, and what a stored address must satisfy. */
module Addresses {
  import opened Wrappers
  import opened Ipv4Ranges
  import opened CidrBlocks

  /** The masked VPN network and the server's own address. */
  datatype RawConfig = Config(network: Prefix, server: int)

  type Config = c: RawConfig | Aligned(c.network) witness Config(Prefix(0, 0), 0)

  function Broadcast(c: Config): int {
    End(c.network) - 1
  }

  /** The address a stored client may have: in the network, not the server's, neither the first nor the last. */
  predicate Acceptable(c: Config, a: int) {
    && 0 <= a < ADDRESS_LIMIT && Has(c.network, a) && a != c.server
    && c.network.bits != 32
    && a != c.network.addr && a != Broadcast(c)
  }

  /** The 32-bit sum wraps for the last /31 and /32. */
  function FirstCandidate(c: Config): int {
    (c.network.addr + 2) % ADDRESS_LIMIT
  }

  predicate NoWrap(c: Config) {
    c.network.addr + 2 < ADDRESS_LIMIT
  }

  predicate Free(c: Config, used: set<int>, a: int) {
    a != c.server && a !in used
  }

  /** a is the least free address in [lo, hi). */
  ghost predicate LeastFree(c: Config, used: set<int>, lo: int, hi: int, a: int) {
    lo <= a < hi && Free(c, used, a) && forall b :: lo <= b < a ==> !Free(c, used, b)
  }

  function NextFree(c: Config, used: set<int>, a: int, hi: int): (r: Option<int>)
    ensures r.Some? ==> LeastFree(c, used, a, hi, r.value)
    ensures r.None? ==> forall b :: a <= b < hi ==> !Free(c, used, b)
    decreases hi - a
  {
    if a >= hi then None else if Free(c, used, a) then Some(a) else NextFree(c, used, a + 1, hi)
  }

  function Allocated(c: Config, used: set<int>): (r: Option<int>) {
    NextFree(c, used, FirstCandidate(c), Broadcast(c))
  }

  method AllocateIP(c: Config, used: set<int>) returns (r: Option<int>)
    ensures r == Allocated(c, used)
    ensures r.Some? ==> LeastFree(c, used, FirstCandidate(c), Broadcast(c), r.value)
    ensures r.None? ==> forall a :: FirstCandidate(c) <= a < Broadcast(c) ==> !Free(c, used, a)
  {
    var address := FirstCandidate(c);
    while address < Broadcast(c)
      invariant Allocated(c, used) == NextFree(c, used, address, Broadcast(c))
      decreases Broadcast(c) - address
    {
      if address == c.server {
        address := address + 1;
        continue;
      }
      if address !in used {
        return Some(address);
      }
      address := address + 1;
    }
    return None;
  }

  lemma BroadcastInRange(c: Config)
    ensures c.network.addr <= Broadcast(c) < ADDRESS_LIMIT
    ensures c.network.bits == 32 ==> Broadcast(c) == c.network.addr
  {
    EndInRange(c.network);
    if c.network.bits == 32 {
      assert Size(c.network) == Pow2(0);
    }
  }

  /**
   An allocated address is one that restoring would accept, exactly when the first candidate does not wrap around the
   end of the address space.
   */
  lemma AllocatedAcceptable(c: Config, used: set<int>)
    requires Allocated(c, used).Some?
    ensures Acceptable(c, Allocated(c, used).value) <==> NoWrap(c)
  {
    hide NextFree;
    BroadcastInRange(c);
    WrapsLow(c);
  }

  lemma WrapsLow(c: Config)
    ensures NoWrap(c) ==> FirstCandidate(c) == c.network.addr + 2
    ensures !NoWrap(c) ==> c.network.bits == 32 || (c.network.bits == 31 && Broadcast(c) == c.network.addr + 1)
  {
    BroadcastInRange(c);
    if !NoWrap(c) {
      LastBlock(c.network);
    }
  }

  lemma LastBlock(b: Prefix)
    requires Aligned(b) && b.addr >= ADDRESS_LIMIT - 2
    ensures b.bits == 32 || (b.bits == 31 && Size(b) == 2)
  {
    EndInRange(b);
    assert Pow2(1) == 2;
    if b.bits <= 30 {
      Pow2Monotone(1, 32 - b.bits);
    }
    assert b.bits == 31 ==> Size(b) == Pow2(1) && Pow2(1) == 2;
  }

  /** In the last /31 the search starts at 0.0.0.0 and leaves the network. */
  lemma LastPairWraps()
    ensures var network := Prefix(ADDRESS_LIMIT - 2, 31);
            && Aligned(network)
            && Allocated(Config(network, ADDRESS_LIMIT - 1), {}) == Some(0)
            && !Has(network, 0)
  {
    assert Pow2(1) == 2;
  }

  /** Without wrapping, the search covers every acceptable address but the one after the network address. */
  lemma NoneLeft(c: Config, used: set<int>, a: int)
    requires NoWrap(c) && Allocated(c, used).None?
    requires Acceptable(c, a) && a != c.network.addr + 1
    ensures a in used
  {
    hide NextFree;
    BroadcastInRange(c);
    WrapsLow(c);
    assert !Free(c, used, a);
  }
}
