/** Greedy decomposition of address ranges into aligned blocks, and why no exact cover is shorter. */
module CidrBlocks {
  import opened Ipv4Ranges

  // ---------------------------------------------------------------------------------------------
  // Aligned blocks
  // ---------------------------------------------------------------------------------------------

  function Pow2(k: nat): (p: int)
    ensures p >= 1
  {
    if k == 0 then 1 else 2 * Pow2(k - 1)
  }

  /** addr/bits in CIDR notation. */
  datatype Prefix = Prefix(addr: int, bits: int)

  predicate WellFormed(b: Prefix) {
    0 <= b.bits <= 32 && 0 <= b.addr < ADDRESS_LIMIT
  }

  function Size(b: Prefix): (n: int)
    requires WellFormed(b)
    ensures n >= 1
  {
    Pow2(32 - b.bits)
  }

  /** A masked prefix: the address has no bits set below the prefix length. */
  predicate Aligned(b: Prefix) {
    WellFormed(b) && b.addr % Size(b) == 0
  }

  /** One past the last address of the block. */
  function End(b: Prefix): int
    requires WellFormed(b)
  {
    b.addr + Size(b)
  }

  predicate Has(b: Prefix, x: int)
    requires WellFormed(b)
  {
    b.addr <= x < End(b)
  }

  ghost predicate AllAligned(bs: seq<Prefix>) {
    forall i :: 0 <= i < |bs| ==> Aligned(bs[i])
  }

  ghost predicate InBlocks(bs: seq<Prefix>, x: int)
    requires AllAligned(bs)
  {
    exists i :: 0 <= i < |bs| && Has(bs[i], x)
  }

  lemma {:induction false} Pow2Monotone(i: nat, j: nat)
    requires i < j
    ensures Pow2(i) < Pow2(j)
  {
    if i + 1 < j {
      Pow2Monotone(i, j - 1);
    }
  }

  lemma Pow2Of32()
    ensures Pow2(32) == ADDRESS_LIMIT
  {
    assert Pow2(8) == 256;
    assert Pow2(16) == 65536;
    assert Pow2(24) == 16777216;
  }

  lemma {:induction false} AlignDown(x: int, i: nat, j: nat)
    requires i <= j && x % Pow2(j) == 0
    ensures x % Pow2(i) == 0
    decreases j
  {
    if i < j {
      var p, q := Pow2(j - 1), x / Pow2(j);
      assert x == (2 * p) * q == p * (2 * q);
      MultipleMod(p, 2 * q);
      AlignDown(x, i, j - 1);
    }
  }

  lemma MulBound(p: int, t: int)
    requires p > 0
    ensures t >= 1 ==> p * t >= p
    ensures t <= 0 ==> p * t <= 0
    ensures t <= -1 ==> p * t <= -p
  {
  }

  lemma MultipleMod(p: int, q: int)
    requires p > 0
    ensures (p * q) % p == 0
  {
    var d := (p * q) / p;
    assert (p * q) % p == p * (q - d);
    MulBound(p, q - d);
  }

  lemma MultipleGap(x: int, y: int, p: int)
    requires p > 0 && x % p == 0 && y % p == 0 && x < y
    ensures x + p <= y
  {
    var a, b := x / p, y / p;
    assert y - x == p * (b - a);
    MulBound(p, b - a);
  }

  /** Aligned blocks that meet are nested. */
  lemma Nested(a: Prefix, b: Prefix, x: int)
    requires Aligned(a) && Aligned(b) && Has(a, x) && Has(b, x)
    requires b.bits <= a.bits
    ensures b.addr <= a.addr && End(a) <= End(b)
  {
    AlignDown(b.addr, 32 - a.bits, 32 - b.bits);
    EndAligned(a, 32 - a.bits);
    EndAligned(b, 32 - a.bits);
    if a.addr < b.addr {
      MultipleGap(a.addr, b.addr, Size(a));
      assert false;
    }
    MultipleGap(a.addr, End(b), Size(a));
  }

  lemma EndAligned(b: Prefix, i: nat)
    requires Aligned(b) && i <= 32 - b.bits
    ensures End(b) % Pow2(i) == 0
  {
    var n, q := Size(b), b.addr / Size(b);
    assert b.addr == n * q;
    assert End(b) == n * (q + 1);
    MultipleMod(n, q + 1);
    AlignDown(End(b), i, 32 - b.bits);
  }

  lemma WholeBlock()
    ensures Aligned(Prefix(0, 0)) && End(Prefix(0, 0)) == ADDRESS_LIMIT
  {
    Pow2Of32();
    var n: nat := 32;
    assert Size(Prefix(0, 0)) == Pow2(n);
  }

  lemma EndInRange(b: Prefix)
    requires Aligned(b)
    ensures End(b) <= ADDRESS_LIMIT
  {
    WholeBlock();
    Nested(b, Prefix(0, 0), b.addr);
  }

  // ---------------------------------------------------------------------------------------------
  // The greedy choice
  // ---------------------------------------------------------------------------------------------

  function TrailingZeros(x: int): (n: nat)
    requires x > 0
    ensures x % Pow2(n) == 0
  {
    if x % 2 == 1 then 0
    else
      var n := TrailingZeros(x / 2);
      assert x == 2 * (x / 2);
      assert x / 2 == Pow2(n) * ((x / 2) / Pow2(n));
      assert x == Pow2(n + 1) * ((x / 2) / Pow2(n));
      MultipleMod(Pow2(n + 1), (x / 2) / Pow2(n));
      n + 1
  }

  lemma {:induction false} TrailingZerosMax(x: int, k: nat)
    requires x > 0 && x % Pow2(k) == 0
    ensures k <= TrailingZeros(x)
    decreases k
  {
    if k > 0 {
      AlignDown(x, 1, k);
      assert Pow2(1) == 2;
      var q := x / Pow2(k);
      assert x == Pow2(k) * q == 2 * (Pow2(k - 1) * q);
      assert x / 2 == Pow2(k - 1) * q;
      MultipleMod(Pow2(k - 1), q);
      TrailingZerosMax(x / 2, k - 1);
    }
  }

  lemma {:induction false} TrailingZerosOfPow2(k: nat)
    ensures TrailingZeros(Pow2(k)) == k
  {
    if k > 0 {
      assert Pow2(k) == 2 * Pow2(k - 1);
      TrailingZerosOfPow2(k - 1);
    }
  }

  /** Trailing zero bits of the cursor, where address 0 counts as aligned to everything, capped at 32. */
  function AlignmentBits(cursor: int): (n: nat)
    requires 0 <= cursor
    ensures n <= 32 && cursor % Pow2(n) == 0
  {
    if cursor == 0 then 32
    else if TrailingZeros(cursor) > 32 then AlignDown(cursor, 32, TrailingZeros(cursor)); 32
    else TrailingZeros(cursor)
  }

  /** The largest exponent up to k whose block fits. */
  function Fit(k: nat, remaining: int): (n: nat)
    requires remaining >= 1
    ensures n <= k && Pow2(n) <= remaining
    ensures forall j: nat :: j <= k && Pow2(j) <= remaining ==> j <= n
  {
    if Pow2(k) <= remaining then k else Fit(k - 1, remaining)
  }

  function Exponent(cursor: int, end: int): (k: nat)
    requires 0 <= cursor <= end
    ensures k <= 32 && cursor % Pow2(k) == 0 && Pow2(k) <= end - cursor + 1
  {
    var k := Fit(AlignmentBits(cursor), end - cursor + 1);
    AlignDown(cursor, k, AlignmentBits(cursor));
    k
  }

  /** The blocks emitted for the addresses cursor..end. */
  function Greedy(cursor: int, end: int): (bs: seq<Prefix>)
    requires 0 <= cursor <= end + 1 <= ADDRESS_LIMIT
    decreases end + 1 - cursor
  {
    if cursor > end then []
    else
      var k := Exponent(cursor, end);
      [Prefix(cursor, 32 - k)] + Greedy(cursor + Pow2(k), end)
  }

  function Blocks(rs: seq<Range>): (bs: seq<Prefix>) {
    if rs == [] then [] else Greedy(rs[0].start, rs[0].end) + Blocks(rs[1..])
  }

  // ---------------------------------------------------------------------------------------------
  // The greedy blocks are exact
  // ---------------------------------------------------------------------------------------------

  /** Ascending and disjoint, starting no lower than lo and ending no higher than hi. */
  ghost predicate Ascending(bs: seq<Prefix>, lo: int, hi: int)
    requires AllAligned(bs)
  {
    && (forall i :: 0 <= i < |bs| ==> lo <= bs[i].addr && End(bs[i]) <= hi)
    && (forall i, j :: 0 <= i < j < |bs| ==> End(bs[i]) <= bs[j].addr)
  }

  lemma GreedyHead(cursor: int, end: int)
    requires 0 <= cursor <= end < ADDRESS_LIMIT
    ensures var b := Prefix(cursor, 32 - Exponent(cursor, end));
            Aligned(b) && Size(b) == Pow2(Exponent(cursor, end)) && End(b) <= end + 1
  {
  }

  lemma InBlocksAppend(a: seq<Prefix>, b: seq<Prefix>, x: int)
    requires AllAligned(a) && AllAligned(b)
    ensures AllAligned(a + b)
    ensures InBlocks(a + b, x) <==> InBlocks(a, x) || InBlocks(b, x)
  {
    if InBlocks(a, x) {
      var i :| 0 <= i < |a| && Has(a[i], x);
      assert Has((a + b)[i], x);
    }
    if InBlocks(b, x) {
      var i :| 0 <= i < |b| && Has(b[i], x);
      assert Has((a + b)[|a| + i], x);
    }
  }

  lemma InBlocksSingle(b: Prefix, x: int)
    requires Aligned(b)
    ensures InBlocks([b], x) <==> Has(b, x)
  {
    assert [b][0] == b;
  }

  lemma AscendingAppend(a: seq<Prefix>, b: seq<Prefix>, lo: int, mid: int, hi: int)
    requires AllAligned(a) && AllAligned(b)
    requires Ascending(a, lo, mid) && Ascending(b, mid, hi) && lo <= mid <= hi
    ensures AllAligned(a + b) && Ascending(a + b, lo, hi)
  {
  }

  lemma AscendingWeaken(a: seq<Prefix>, lo: int, hi: int, hi': int)
    requires AllAligned(a) && Ascending(a, lo, hi) && hi <= hi'
    ensures Ascending(a, lo, hi')
  {
  }

  lemma {:induction false} GreedyShape(cursor: int, end: int)
    requires 0 <= cursor <= end + 1 <= ADDRESS_LIMIT
    ensures AllAligned(Greedy(cursor, end))
    ensures Ascending(Greedy(cursor, end), cursor, end + 1)
    decreases end + 1 - cursor
  {
    if cursor <= end {
      var b := Prefix(cursor, 32 - Exponent(cursor, end));
      GreedyHead(cursor, end);
      GreedyShape(End(b), end);
      AscendingAppend([b], Greedy(End(b), end), cursor, End(b), end + 1);
    }
  }

  lemma {:induction false} GreedyMembers(cursor: int, end: int, x: int)
    requires 0 <= cursor <= end + 1 <= ADDRESS_LIMIT
    requires AllAligned(Greedy(cursor, end))
    ensures InBlocks(Greedy(cursor, end), x) <==> cursor <= x <= end
    decreases end + 1 - cursor
  {
    hide Pow2, Exponent, InBlocks;
    if cursor <= end {
      var b := Prefix(cursor, 32 - Exponent(cursor, end));
      GreedyHead(cursor, end);
      GreedyShape(End(b), end);
      GreedyMembers(End(b), end, x);
      InBlocksAppend([b], Greedy(End(b), end), x);
      InBlocksSingle(b, x);
    } else {
      InNoBlocks(x);
    }
  }

  lemma InNoBlocks(x: int)
    ensures !InBlocks([], x)
  {
  }

  lemma {:induction false} BlocksShape(rs: seq<Range>)
    requires Canonical(rs)
    ensures AllAligned(Blocks(rs))
    ensures rs != [] ==> Ascending(Blocks(rs), rs[0].start, rs[|rs| - 1].end + 1)
  {
    if rs == [] {
    } else {
      var head, rest := Greedy(rs[0].start, rs[0].end), Blocks(rs[1..]);
      GreedyShape(rs[0].start, rs[0].end);
      BlocksShape(rs[1..]);
      if |rs| > 1 {
        AscendingWeaken(head, rs[0].start, rs[0].end + 1, rs[1].start);
        AscendingAppend(head, rest, rs[0].start, rs[1].start, rs[|rs| - 1].end + 1);
      }
    }
  }

  /** The blocks denote exactly the ranges' addresses. */
  lemma {:induction false} BlocksMembers(rs: seq<Range>, x: int)
    requires Canonical(rs) && AllAligned(Blocks(rs))
    ensures InBlocks(Blocks(rs), x) <==> Covers(rs, x)
  {
    if rs == [] {
    } else {
      var head, rest := Greedy(rs[0].start, rs[0].end), Blocks(rs[1..]);
      GreedyShape(rs[0].start, rs[0].end);
      GreedyMembers(rs[0].start, rs[0].end, x);
      BlocksShape(rs[1..]);
      BlocksMembers(rs[1..], x);
      InBlocksAppend(head, rest, x);
      CoversCons(rs, x);
    }
  }

  // ---------------------------------------------------------------------------------------------
  // The greedy blocks are the maximal ones, so no exact cover is shorter
  // ---------------------------------------------------------------------------------------------

  ghost predicate Within(b: Prefix, start: int, end: int) {
    Aligned(b) && start <= b.addr && End(b) <= end + 1
  }

  /** No aligned block inside start..end crosses the cursor. */
  ghost predicate NoStraddle(start: int, cursor: int, end: int) {
    forall b :: Within(b, start, end) && b.addr < cursor ==> End(b) <= cursor
  }

  lemma GreedyBlockMaximal(start: int, cursor: int, end: int, b: Prefix)
    requires 0 <= start <= cursor <= end < ADDRESS_LIMIT
    requires NoStraddle(start, cursor, end) && Within(b, start, end) && Has(b, cursor)
    ensures b.addr == cursor && End(b) <= cursor + Pow2(Exponent(cursor, end))
  {
    var j: nat := 32 - b.bits;
    if cursor != 0 {
      TrailingZerosMax(cursor, j);
    }
    assert j <= AlignmentBits(cursor) && Pow2(j) <= end - cursor + 1;
    if j < Exponent(cursor, end) {
      Pow2Monotone(j, Exponent(cursor, end));
    }
  }

  lemma NoStraddleStep(start: int, cursor: int, end: int)
    requires 0 <= start <= cursor <= end < ADDRESS_LIMIT
    requires NoStraddle(start, cursor, end)
    ensures NoStraddle(start, cursor + Pow2(Exponent(cursor, end)), end)
  {
    GreedyHead(cursor, end);
    var g := Prefix(cursor, 32 - Exponent(cursor, end));
    forall b | Within(b, start, end) && b.addr < End(g)
      ensures End(b) <= End(g)
    {
      if b.addr == cursor {
        GreedyBlockMaximal(start, cursor, end, b);
      } else if cursor < b.addr {
        if b.bits < g.bits {
          Nested(g, b, b.addr);
          assert false;
        }
        Nested(b, g, b.addr);
      }
    }
  }

  lemma GreedySplit(cursor: int, end: int, g: Prefix) returns (next: int)
    requires 0 <= cursor <= end + 1 <= ADDRESS_LIMIT
    requires g in Greedy(cursor, end)
    ensures cursor <= end && next == cursor + Pow2(Exponent(cursor, end)) && cursor < next <= end + 1
    ensures g == Prefix(cursor, 32 - Exponent(cursor, end)) || (g.addr != cursor && g in Greedy(next, end))
  {
    GreedyHead(cursor, end);
    next := cursor + Pow2(Exponent(cursor, end));
    GreedyShape(next, end);
  }

  /** Every aligned block inside the range that contains a greedy block's first address lies inside that block. */
  lemma {:induction false} GreedyMaximal(start: int, cursor: int, end: int, g: Prefix, b: Prefix)
    requires 0 <= start <= cursor <= end + 1 <= ADDRESS_LIMIT
    requires NoStraddle(start, cursor, end)
    requires g in Greedy(cursor, end) && Aligned(g)
    requires Within(b, start, end) && Has(b, g.addr)
    ensures g.addr <= b.addr && End(b) <= End(g)
    decreases end + 1 - cursor
  {
    var next := GreedySplit(cursor, end, g);
    if g.addr == cursor {
      GreedyBlockMaximal(start, cursor, end, b);
    } else {
      NoStraddleStep(start, cursor, end);
      GreedyMaximal(start, next, end, g, b);
    }
  }

  ghost predicate Inside(b: Prefix, rs: seq<Range>) {
    Aligned(b) && forall x :: Has(b, x) ==> Covers(rs, x)
  }

  /** An aligned block inside a canonical list lies inside one of its ranges. */
  lemma BlockInOneRange(b: Prefix, rs: seq<Range>, i: int, x: int)
    requires Canonical(rs) && Inside(b, rs)
    requires 0 <= i < |rs| && Has(b, x) && Contains(rs[i], x)
    ensures Within(b, rs[i].start, rs[i].end)
  {
    if b.addr < rs[i].start {
      assert Has(b, rs[i].start - 1);
      assert false;
    }
    if rs[i].end + 1 < End(b) {
      assert Has(b, rs[i].end + 1);
      assert false;
    }
  }

  lemma {:induction false} FromOneRange(rs: seq<Range>, g: Prefix) returns (i: int)
    requires g in Blocks(rs)
    ensures 0 <= i < |rs| && g in Greedy(rs[i].start, rs[i].end)
  {
    if g in Greedy(rs[0].start, rs[0].end) {
      i := 0;
    } else {
      i := FromOneRange(rs[1..], g);
      i := i + 1;
    }
  }

  /** Every aligned block inside the set that contains an emitted block's first address lies inside that block. */
  lemma EmittedMaximal(rs: seq<Range>, g: Prefix, b: Prefix)
    requires Canonical(rs) && g in Blocks(rs) && Aligned(g)
    requires Inside(b, rs) && Has(b, g.addr)
    ensures g.addr <= b.addr && End(b) <= End(g)
  {
    var i := FromOneRange(rs, g);
    var start, end := rs[i].start, rs[i].end;
    GreedyShape(start, end);
    BlockInOneRange(b, rs, i, g.addr);
    GreedyMaximal(start, start, end, g, b);
  }

  lemma {:induction false} Pigeonhole(js: seq<int>, m: nat)
    requires forall i :: 0 <= i < |js| ==> 0 <= js[i] < m
    requires forall i, j :: 0 <= i < j < |js| ==> js[i] != js[j]
    ensures |js| <= m
    decreases m
  {
    assert js != [] ==> 0 <= js[0] < m;
    if js == [] {
    } else if i :| 0 <= i < |js| && js[i] == m - 1 {
      Pigeonhole(js[..i] + js[i + 1..], m - 1);
    } else {
      Pigeonhole(js, m - 1);
    }
  }

  ghost predicate ExactCover(other: seq<Prefix>, rs: seq<Range>) {
    AllAligned(other) && forall x :: InBlocks(other, x) <==> Covers(rs, x)
  }

  /** A block of an exact cover that contains an emitted block's first address lies inside that emitted block. */
  lemma CoverBlockInside(rs: seq<Range>, other: seq<Prefix>, g: Prefix, j: int)
    requires Canonical(rs) && ExactCover(other, rs)
    requires g in Blocks(rs) && Aligned(g)
    requires 0 <= j < |other| && Has(other[j], g.addr)
    ensures End(other[j]) <= End(g)
  {
    forall x | Has(other[j], x)
      ensures Covers(rs, x)
    {
      assert InBlocks(other, x);
    }
    EmittedMaximal(rs, g, other[j]);
  }

  lemma {:induction false} PickCovering(rs: seq<Range>, other: seq<Prefix>, n: nat) returns (js: seq<int>)
    requires Canonical(rs) && ExactCover(other, rs)
    requires AllAligned(Blocks(rs)) && n <= |Blocks(rs)|
    ensures |js| == n
    ensures forall i :: 0 <= i < n ==> 0 <= js[i] < |other| && Has(other[js[i]], Blocks(rs)[i].addr)
  {
    if n == 0 {
      js := [];
    } else {
      js := PickCovering(rs, other, n - 1);
      var x := Blocks(rs)[n - 1].addr;
      assert Has(Blocks(rs)[n - 1], x);
      BlocksMembers(rs, x);
      assert InBlocks(other, x);
      var j :| 0 <= j < |other| && Has(other[j], x);
      js := js + [j];
    }
  }

  /** No list of aligned blocks with the same union is shorter than the emitted list. */
  lemma Minimal(rs: seq<Range>, other: seq<Prefix>)
    requires Canonical(rs) && ExactCover(other, rs)
    ensures |Blocks(rs)| <= |other|
  {
    var bs := Blocks(rs);
    BlocksShape(rs);
    var js := PickCovering(rs, other, |bs|);
    forall a, b | 0 <= a < b < |js|
      ensures js[a] != js[b]
    {
      CoverBlockInside(rs, other, bs[a], js[a]);
      assert End(bs[a]) <= bs[b].addr;
    }
    Pigeonhole(js, |other|);
  }

  /** An aligned block inside the set that no other aligned block inside the set contains. */
  ghost predicate MaximalBlock(m: Prefix, rs: seq<Range>) {
    Inside(m, rs) && forall b :: Inside(b, rs) && b.addr <= m.addr && End(m) <= End(b) ==> b == m
  }

  lemma SameExtent(a: Prefix, b: Prefix)
    requires Aligned(a) && Aligned(b) && a.addr == b.addr && End(a) == End(b)
    ensures a == b
  {
    if a.bits < b.bits {
      Pow2Monotone(32 - b.bits, 32 - a.bits);
    } else if b.bits < a.bits {
      Pow2Monotone(32 - a.bits, 32 - b.bits);
    }
  }

  /** The emitted blocks are exactly the maximal aligned blocks inside the set. */
  lemma EmittedIffMaximal(rs: seq<Range>, m: Prefix)
    requires Canonical(rs)
    ensures m in Blocks(rs) <==> MaximalBlock(m, rs)
  {
    BlocksShape(rs);
    if m in Blocks(rs) {
      EmittedIsMaximal(rs, m);
    }
    if MaximalBlock(m, rs) {
      assert Has(m, m.addr);
      BlocksMembers(rs, m.addr);
      var i :| 0 <= i < |Blocks(rs)| && Has(Blocks(rs)[i], m.addr);
      var g := Blocks(rs)[i];
      EmittedIsMaximal(rs, g);
      if g.bits <= m.bits {
        Nested(m, g, m.addr);
      } else {
        Nested(g, m, m.addr);
        SameExtent(g, m);
      }
    }
  }

  lemma EmittedIsMaximal(rs: seq<Range>, g: Prefix)
    requires Canonical(rs) && g in Blocks(rs)
    ensures MaximalBlock(g, rs)
  {
    BlocksShape(rs);
    forall x | Has(g, x)
      ensures Covers(rs, x)
    {
      BlocksMembers(rs, x);
    }
    forall b | Inside(b, rs) && b.addr <= g.addr && End(g) <= End(b)
      ensures b == g
    {
      EmittedMaximal(rs, g, b);
      SameExtent(b, g);
    }
  }

  // ---------------------------------------------------------------------------------------------
  // How many blocks one range needs
  // ---------------------------------------------------------------------------------------------

  lemma DescendingStep(cursor: int, end: int, m: nat) returns (k: nat)
    requires 0 <= cursor <= end < ADDRESS_LIMIT && m <= 32
    requires cursor % Pow2(m) == 0 && end - cursor + 1 < Pow2(m)
    ensures k == Exponent(cursor, end) && k < m && end - cursor + 1 - Pow2(k) < Pow2(k)
  {
    k := Exponent(cursor, end);
    if m < k {
      Pow2Monotone(m, k);
    }
    if cursor != 0 {
      TrailingZerosMax(cursor, m);
    }
    assert Pow2(k + 1) == 2 * Pow2(k);
  }

  lemma DescendingCursor(cursor: int, end: int)
    requires 0 <= cursor <= end < ADDRESS_LIMIT
    ensures var n := Pow2(Exponent(cursor, end)); n >= 1 && cursor + n <= end + 1 && (cursor + n) % n == 0
  {
    hide Pow2, Exponent;
    GreedyHead(cursor, end);
    EndAligned(Prefix(cursor, 32 - Exponent(cursor, end)), Exponent(cursor, end));
  }

  lemma GreedyLength(cursor: int, end: int)
    requires 0 <= cursor <= end < ADDRESS_LIMIT
    ensures |Greedy(cursor, end)| == 1 + |Greedy(cursor + Pow2(Exponent(cursor, end)), end)|
  {
    hide Pow2, Exponent;
  }

  /** Once the alignment exceeds what is left, every block at least halves what is left. */
  lemma {:induction false} GreedyDescending(cursor: int, end: int, m: nat)
    requires 0 <= cursor <= end + 1 <= ADDRESS_LIMIT && m <= 32
    requires cursor % Pow2(m) == 0 && end - cursor + 1 < Pow2(m)
    ensures |Greedy(cursor, end)| <= m
    decreases m
  {
    hide Greedy, Pow2, Exponent;
    if cursor <= end {
      var k := DescendingStep(cursor, end, m);
      DescendingCursor(cursor, end);
      GreedyLength(cursor, end);
      GreedyDescending(cursor + Pow2(k), end, k);
    } else {
      GreedyDone(end);
    }
  }

  lemma NextAlignment(x: int, p: int)
    requires p > 0 && x % p == 0 && x % (2 * p) != 0
    ensures (x + p) % (2 * p) == 0
  {
    var d, t := x / (2 * p), x / p - 2 * (x / (2 * p));
    assert x % (2 * p) == p * t;
    MulBound(p, t);
    MulBound(p, t - 1);
    MulBound(p, t - 2);
    assert x + p == (2 * p) * (d + 1);
    MultipleMod(2 * p, d + 1);
  }

  lemma AlignmentBelow32(cursor: int)
    requires 0 < cursor < ADDRESS_LIMIT
    ensures AlignmentBits(cursor) <= 31
  {
    if AlignmentBits(cursor) == 32 {
      Pow2Of32();
      MultipleGap(0, cursor, Pow2(32));
    }
  }

  /** While the whole alignment fits, the next cursor is aligned to at least one more bit. */
  lemma AlignmentGrows(cursor: int)
    requires 0 < cursor < ADDRESS_LIMIT
    requires cursor + Pow2(AlignmentBits(cursor)) < ADDRESS_LIMIT
    ensures AlignmentBits(cursor) < AlignmentBits(cursor + Pow2(AlignmentBits(cursor)))
  {
    AlignmentBelow32(cursor);
    var t := AlignmentBits(cursor);
    if cursor % Pow2(t + 1) == 0 {
      TrailingZerosMax(cursor, t + 1);
      assert false;
    }
    NextAlignment(cursor, Pow2(t));
    TrailingZerosMax(cursor + Pow2(t), t + 1);
  }

  lemma {:induction false} GreedyAscending(cursor: int, end: int)
    requires 0 < cursor <= end < ADDRESS_LIMIT
    ensures |Greedy(cursor, end)| + AlignmentBits(cursor) <= 62
    decreases end + 1 - cursor
  {
    var t := AlignmentBits(cursor);
    AlignmentBelow32(cursor);
    if end - cursor + 1 < Pow2(t) {
      GreedyDescending(cursor, end, t);
    } else {
      assert Exponent(cursor, end) == t;
      var next := cursor + Pow2(t);
      if next <= end {
        AlignmentGrows(cursor);
        GreedyAscending(next, end);
      }
    }
  }

  /** One range needs at most 62 blocks. */
  lemma GreedyCount(r: Range)
    ensures |Greedy(r.start, r.end)| <= 62
  {
    Pow2Of32();
    if r.start > 0 {
      GreedyAscending(r.start, r.end);
    } else if r.end + 1 < ADDRESS_LIMIT {
      GreedyDescending(0, r.end, 32);
    } else {
      assert Exponent(0, r.end) == 32;
    }
  }

  lemma {:induction false} BlocksCount(rs: seq<Range>)
    ensures |Blocks(rs)| <= 62 * |rs|
  {
    if rs == [] {
    } else {
      GreedyCount(rs[0]);
      BlocksCount(rs[1..]);
    }
  }

  // ---------------------------------------------------------------------------------------------
  // The program's loops
  // ---------------------------------------------------------------------------------------------

  /** Halves the aligned block size until the block fits. */
  method BlockSize(cursor: int, end: int) returns (blockSize: int)
    requires 0 <= cursor <= end < ADDRESS_LIMIT
    ensures blockSize == Pow2(Exponent(cursor, end))
  {
    var alignmentBits := AlignmentBits(cursor);
    blockSize := Pow2(alignmentBits);
    var remaining := end - cursor + 1;
    ghost var k := alignmentBits;
    while blockSize > remaining
      invariant k <= alignmentBits && blockSize == Pow2(k)
      invariant Fit(k, remaining) == Fit(alignmentBits, remaining)
      decreases k
    {
      blockSize := blockSize / 2;
      k := k - 1;
    }
  }

  /** The outer loop body: one merged range. */
  method RangeToPrefixes(current: Range, before: seq<Prefix>) returns (prefixes: seq<Prefix>)
    ensures prefixes == before + Greedy(current.start, current.end)
  {
    hide Greedy, Pow2, Exponent, TrailingZeros;
    prefixes := before;
    var cursor := current.start;
    while cursor <= current.end
      invariant current.start <= cursor <= current.end + 1
      invariant prefixes + Greedy(cursor, current.end) == before + Greedy(current.start, current.end)
    {
      var blockSize := BlockSize(cursor, current.end);
      EmitStep(prefixes, cursor, current.end);
      prefixes := prefixes + [Prefix(cursor, 32 - TrailingZeros(blockSize))];
      cursor := cursor + blockSize;
    }
    GreedyDone(current.end);
  }

  lemma GreedyDone(end: int)
    requires 0 <= end + 1 <= ADDRESS_LIMIT
    ensures Greedy(end + 1, end) == []
  {
  }

  lemma EmitStep(prefixes: seq<Prefix>, cursor: int, end: int)
    requires 0 <= cursor <= end < ADDRESS_LIMIT
    ensures var n := Pow2(Exponent(cursor, end));
            && cursor + n <= end + 1
            && prefixes + Greedy(cursor, end)
               == prefixes + [Prefix(cursor, 32 - TrailingZeros(n))] + Greedy(cursor + n, end)
  {
    hide Pow2, Exponent, TrailingZeros;
    TrailingZerosOfPow2(Exponent(cursor, end));
  }

  /** Aligned blocks in ascending order for exactly the given addresses, and no shorter list for them exists. */
  ghost predicate SmallestExact(bs: seq<Prefix>, ranges: seq<Range>) {
    && AllAligned(bs) && Ascending(bs, 0, ADDRESS_LIMIT)
    && (forall x :: InBlocks(bs, x) <==> Covers(ranges, x))
    && (forall other :: ExactCover(other, ranges) ==> |bs| <= |other|)
  }

  method IPv4RangesToPrefixes(ranges: seq<Range>) returns (prefixes: seq<Prefix>)
    ensures prefixes == Blocks(Union(ranges))
  {
    var merged := MergeIPv4Ranges(ranges);
    prefixes := [];
    var i := 0;
    while i < |merged|
      invariant 0 <= i <= |merged|
      invariant prefixes + Blocks(merged[i..]) == Blocks(merged)
    {
      ghost var head, rest := Greedy(merged[i].start, merged[i].end), Blocks(merged[i + 1..]);
      assert merged[i..][1..] == merged[i + 1..];
      assert (prefixes + head) + rest == prefixes + (head + rest);
      prefixes := RangeToPrefixes(merged[i], prefixes);
      i := i + 1;
    }
    UnionMeaning(ranges);
    CanonicalUnique(merged, Union(ranges));
  }

  /** What the loops emit is the smallest exact set of CIDRs, at most 62 for each given range. */
  lemma EmittedSmallest(ranges: seq<Range>)
    ensures SmallestExact(Blocks(Union(ranges)), ranges) && |Blocks(Union(ranges))| <= 62 * |ranges|
  {
    hide SmallestExact;
    UnionMeaning(ranges);
    UnionLength(ranges);
    DecompositionMeaning(ranges, Union(ranges));
  }

  /** The emitted list depends only on the set of addresses. */
  lemma EmittedDeterministic(a: seq<Range>, b: seq<Range>)
    requires SameSet(a, b)
    ensures Blocks(Union(a)) == Blocks(Union(b))
  {
    UnionMeaning(a);
    UnionMeaning(b);
    CanonicalUnique(Union(a), Union(b));
  }

  lemma DecompositionMeaning(ranges: seq<Range>, merged: seq<Range>)
    requires Canonical(merged) && SameSet(merged, ranges) && |merged| <= |ranges|
    ensures SmallestExact(Blocks(merged), ranges) && |Blocks(merged)| <= 62 * |ranges|
  {
    BlocksShape(merged);
    BlocksCount(merged);
    forall x
      ensures InBlocks(Blocks(merged), x) <==> Covers(ranges, x)
    {
      BlocksMembers(merged, x);
      assert Covers(merged, x) <==> Covers(ranges, x);
    }
    forall other | ExactCover(other, ranges)
      ensures |Blocks(merged)| <= |other|
    {
      assert forall x :: Covers(merged, x) <==> Covers(ranges, x);
      Minimal(merged, other);
    }
  }
}
