/** Inclusive IPv4 address ranges: merging and two-pointer subtraction. */
module Ipv4Ranges {
  import opened Sorting

  const ADDRESS_LIMIT: int := 0x1_0000_0000

  datatype RawRange = Range(start: int, end: int)

  type Range = r: RawRange | 0 <= r.start <= r.end < ADDRESS_LIMIT witness Range(0, 0)

  predicate Contains(r: Range, x: int) {
    r.start <= x <= r.end
  }

  /** The set a list denotes: x lies in one of its ranges. */
  ghost predicate Covers(rs: seq<Range>, x: int) {
    exists i :: 0 <= i < |rs| && Contains(rs[i], x)
  }

  ghost predicate SameSet(a: seq<Range>, b: seq<Range>) {
    forall x :: Covers(a, x) <==> Covers(b, x)
  }

  /** Ascending, disjoint and non-adjacent. */
  ghost predicate Canonical(rs: seq<Range>) {
    forall i, j :: 0 <= i < j < |rs| ==> rs[i].end + 1 < rs[j].start
  }

  lemma Inside(rs: seq<Range>, i: int, x: int)
    requires 0 <= i < |rs| && Contains(rs[i], x)
    ensures Covers(rs, x)
  {
  }

  lemma CoversAppend(a: seq<Range>, b: seq<Range>, x: int)
    ensures Covers(a + b, x) <==> Covers(a, x) || Covers(b, x)
  {
    if Covers(a, x) {
      var i :| 0 <= i < |a| && Contains(a[i], x);
      assert Contains((a + b)[i], x);
    }
    if Covers(b, x) {
      var i :| 0 <= i < |b| && Contains(b[i], x);
      assert Contains((a + b)[|a| + i], x);
    }
  }

  lemma CoversSingle(r: Range, x: int)
    ensures Covers([r], x) <==> Contains(r, x)
  {
    assert [r][0] == r;
  }

  lemma CoversCons(rs: seq<Range>, x: int)
    requires rs != []
    ensures Covers(rs, x) <==> Contains(rs[0], x) || Covers(rs[1..], x)
  {
    CoversSingle(rs[0], x);
    CoversAppend([rs[0]], rs[1..], x);
    assert rs == [rs[0]] + rs[1..];
  }

  /** A canonical list is determined by the set it denotes. */
  lemma {:induction false} CanonicalUnique(a: seq<Range>, b: seq<Range>)
    requires Canonical(a) && Canonical(b) && SameSet(a, b)
    ensures a == b
    decreases |a|
  {
    if a == [] {
      if b != [] {
        Inside(b, 0, b[0].start);
        assert false;
      }
    } else {
      Inside(a, 0, a[0].start);
      assert b != [];
      HeadAgrees(a, b);
      HeadAgrees(b, a);
      assert a[0] == b[0];
      forall x
        ensures Covers(a[1..], x) <==> Covers(b[1..], x)
      {
        CoversCons(a, x);
        CoversCons(b, x);
        TailAvoidsHead(a, x);
        TailAvoidsHead(b, x);
        assert Covers(a, x) <==> Covers(b, x);
      }
      CanonicalUnique(a[1..], b[1..]);
      assert a == [a[0]] + a[1..];
      assert b == [b[0]] + b[1..];
    }
  }

  lemma TailAvoidsHead(a: seq<Range>, x: int)
    requires Canonical(a) && a != []
    ensures !(Contains(a[0], x) && Covers(a[1..], x))
  {
  }

  lemma HeadAgrees(a: seq<Range>, b: seq<Range>)
    requires Canonical(a) && Canonical(b) && SameSet(a, b) && a != [] && b != []
    ensures a[0].start >= b[0].start && a[0].end >= b[0].end
  {
    Inside(a, 0, a[0].start);
    Inside(b, 0, b[0].start);
    if a[0].end < b[0].end {
      Inside(b, 0, a[0].end + 1);
      assert false;
    }
  }

  /** Sort order of the program: by start, then by end. */
  function Rank(r: Range): int {
    r.start * ADDRESS_LIMIT + r.end
  }

  function SortRanges(rs: seq<Range>): (s: seq<Range>)
    ensures multiset(s) == multiset(rs) && |s| == |rs|
  {
    Sort(rs, Rank)
  }

  lemma SortedStarts(rs: seq<Range>, i: int, j: int)
    requires 0 <= i < j < |rs|
    ensures SortRanges(rs)[i].start <= SortRanges(rs)[j].start
  {
    SortAscending(rs, Rank);
    assert Rank(SortRanges(rs)[i]) <= Rank(SortRanges(rs)[j]);
  }

  lemma SameMembers(a: seq<Range>, b: seq<Range>, x: int)
    requires multiset(a) == multiset(b) && Covers(a, x)
    ensures Covers(b, x)
  {
    var i :| 0 <= i < |a| && Contains(a[i], x);
    SameElements(a, b, a[i]);
    var k :| 0 <= k < |b| && b[k] == a[i];
    Inside(b, k, x);
  }

  lemma SortedMeaning(rs: seq<Range>)
    ensures SameSet(SortRanges(rs), rs)
  {
    forall x
      ensures Covers(SortRanges(rs), x) <==> Covers(rs, x)
    {
      if Covers(SortRanges(rs), x) {
        SameMembers(SortRanges(rs), rs, x);
      }
      if Covers(rs, x) {
        SameMembers(rs, SortRanges(rs), x);
      }
    }
  }

  function Max(a: int, b: int): int {
    if a < b then b else a
  }

  lemma SameSetAppend(a: seq<Range>, b: seq<Range>, r: Range)
    requires SameSet(a, b)
    ensures SameSet(a + [r], b + [r])
  {
    forall x
      ensures Covers(a + [r], x) <==> Covers(b + [r], x)
    {
      CoversAppend(a, [r], x);
      CoversAppend(b, [r], x);
      assert Covers(a, x) <==> Covers(b, x);
    }
  }

  /** One step of the merge loop is a union with one more range. */
  lemma MergeStep(merged: seq<Range>, current: Range)
    requires Canonical(merged) && merged != []
    requires merged[|merged| - 1].start <= current.start <= merged[|merged| - 1].end + 1
    ensures var n := |merged| - 1;
            var next: seq<Range> := merged[n := Range(merged[n].start, Max(merged[n].end, current.end))];
            Canonical(next) && SameSet(next, merged + [current])
  {
    var n := |merged| - 1;
    var grown: Range := Range(merged[n].start, Max(merged[n].end, current.end));
    var next := merged[n := grown];
    forall x
      ensures Covers(next, x) <==> Covers(merged + [current], x)
    {
      assert next == merged[..n] + [grown];
      assert merged == merged[..n] + [merged[n]];
      CoversAppend(merged[..n], [grown], x);
      CoversAppend(merged[..n], [merged[n]], x);
      CoversAppend(merged, [current], x);
      CoversSingle(grown, x);
      CoversSingle(merged[n], x);
      CoversSingle(current, x);
    }
  }

  // ---------------------------------------------------------------------------------------------
  // Reference definitions: one range at a time, with no sorting and no pointers.
  // ---------------------------------------------------------------------------------------------

  function Min(a: int, b: int): int {
    if a < b then a else b
  }

  /** Adds one range to a canonical list, absorbing every range it touches. */
  function Add(rs: seq<Range>, r: Range): (s: seq<Range>) {
    if rs == [] then [r]
    else if r.end + 1 < rs[0].start then [r] + rs
    else if rs[0].end + 1 < r.start then [rs[0]] + Add(rs[1..], r)
    else Add(rs[1..], Range(Min(r.start, rs[0].start), Max(r.end, rs[0].end)))
  }

  function Union(rs: seq<Range>): (s: seq<Range>) {
    if rs == [] then [] else Add(Union(rs[1..]), rs[0])
  }

  /** What is left of one range after one exclusion. */
  function Pieces(r: Range, e: Range): (p: seq<Range>) {
    (if r.start < e.start then [Range(r.start, Min(r.end, e.start - 1))] else [])
    + (if e.end < r.end then [Range(Max(r.start, e.end + 1), r.end)] else [])
  }

  function Cut(rs: seq<Range>, e: Range): (s: seq<Range>) {
    if rs == [] then [] else Pieces(rs[0], e) + Cut(rs[1..], e)
  }

  function Difference(rs: seq<Range>, es: seq<Range>): (s: seq<Range>) {
    if es == [] then rs else Cut(Difference(rs, es[..|es| - 1]), es[|es| - 1])
  }

  ghost predicate StartsAfter(rs: seq<Range>, bound: int) {
    forall i :: 0 <= i < |rs| ==> bound < rs[i].start
  }

  lemma {:induction false} AddCanonical(rs: seq<Range>, r: Range, bound: int)
    requires Canonical(rs)
    ensures Canonical(Add(rs, r))
    ensures StartsAfter(rs, bound) && bound < r.start ==> StartsAfter(Add(rs, r), bound)
    decreases |rs|
  {
    if rs == [] || r.end + 1 < rs[0].start {
    } else if rs[0].end + 1 < r.start {
      AddCanonical(rs[1..], r, rs[0].end + 1);
    } else {
      AddCanonical(rs[1..], Range(Min(r.start, rs[0].start), Max(r.end, rs[0].end)), bound);
    }
  }

  lemma {:induction false} AddCovers(rs: seq<Range>, r: Range, x: int)
    ensures Covers(Add(rs, r), x) <==> Covers(rs, x) || Contains(r, x)
    decreases |rs|
  {
    CoversSingle(r, x);
    if rs == [] {
    } else if r.end + 1 < rs[0].start {
      CoversAppend([r], rs, x);
    } else {
      CoversCons(rs, x);
      if rs[0].end + 1 < r.start {
        AddCovers(rs[1..], r, x);
        CoversAppend([rs[0]], Add(rs[1..], r), x);
        CoversSingle(rs[0], x);
      } else {
        AddCovers(rs[1..], Range(Min(r.start, rs[0].start), Max(r.end, rs[0].end)), x);
      }
    }
  }

  lemma {:induction false} UnionMeaning(rs: seq<Range>)
    ensures Canonical(Union(rs)) && SameSet(Union(rs), rs)
  {
    if rs == [] {
    } else {
      UnionMeaning(rs[1..]);
      AddCanonical(Union(rs[1..]), rs[0], 0);
      forall x
        ensures Covers(Union(rs), x) <==> Covers(rs, x)
      {
        AddCovers(Union(rs[1..]), rs[0], x);
        CoversCons(rs, x);
        assert Covers(Union(rs[1..]), x) <==> Covers(rs[1..], x);
      }
    }
  }

  lemma {:induction false} AddLength(rs: seq<Range>, r: Range)
    ensures |Add(rs, r)| <= |rs| + 1
    decreases |rs|
  {
    if rs != [] {
      AddLength(rs[1..], r);
      AddLength(rs[1..], Range(Min(r.start, rs[0].start), Max(r.end, rs[0].end)));
    }
  }

  /** A union needs no more ranges than it was given. */
  lemma {:induction false} UnionLength(rs: seq<Range>)
    ensures |Union(rs)| <= |rs|
  {
    if rs != [] {
      UnionLength(rs[1..]);
      AddLength(Union(rs[1..]), rs[0]);
    }
  }

  lemma PiecesCovers(r: Range, e: Range, x: int)
    ensures Covers(Pieces(r, e), x) <==> Contains(r, x) && !Contains(e, x)
  {
    var a: seq<Range> := if r.start < e.start then [Range(r.start, Min(r.end, e.start - 1))] else [];
    var b: seq<Range> := if e.end < r.end then [Range(Max(r.start, e.end + 1), r.end)] else [];
    CoversAppend(a, b, x);
    if a != [] {
      CoversSingle(a[0], x);
    }
    if b != [] {
      CoversSingle(b[0], x);
    }
  }

  lemma {:induction false} CutCanonical(rs: seq<Range>, e: Range, bound: int)
    requires Canonical(rs) && StartsAfter(rs, bound)
    ensures Canonical(Cut(rs, e)) && StartsAfter(Cut(rs, e), bound)
    decreases |rs|
  {
    if rs == [] {
    } else {
      CutCanonical(rs[1..], e, rs[0].end + 1);
    }
  }

  lemma {:induction false} CutCovers(rs: seq<Range>, e: Range, x: int)
    ensures Covers(Cut(rs, e), x) <==> Covers(rs, x) && !Contains(e, x)
    decreases |rs|
  {
    if rs == [] {
    } else {
      CutCovers(rs[1..], e, x);
      CoversAppend(Pieces(rs[0], e), Cut(rs[1..], e), x);
      CoversCons(rs, x);
      PiecesCovers(rs[0], e, x);
    }
  }

  lemma {:induction false} DifferenceMeaning(rs: seq<Range>, es: seq<Range>)
    requires Canonical(rs)
    ensures Canonical(Difference(rs, es))
    ensures forall x :: Covers(Difference(rs, es), x) <==> Covers(rs, x) && !Covers(es, x)
    decreases |es|
  {
    if es == [] {
    } else {
      var n := |es| - 1;
      DifferenceMeaning(rs, es[..n]);
      CutCanonical(Difference(rs, es[..n]), es[n], -1);
      forall x
        ensures Covers(Difference(rs, es), x) <==> Covers(rs, x) && !Covers(es, x)
      {
        CutCovers(Difference(rs, es[..n]), es[n], x);
        CoversAppend(es[..n], [es[n]], x);
        CoversSingle(es[n], x);
        assert es == es[..n] + [es[n]];
        assert Covers(Difference(rs, es[..n]), x) <==> Covers(rs, x) && !Covers(es[..n], x);
      }
    }
  }

  // ---------------------------------------------------------------------------------------------
  // The program's loops.
  // ---------------------------------------------------------------------------------------------

  lemma MergedIsUnion(merged: seq<Range>, ranges: seq<Range>)
    requires Canonical(merged) && SameSet(merged, SortRanges(ranges))
    ensures SameSet(merged, ranges) && merged == Union(ranges)
  {
    SortedMeaning(ranges);
    UnionMeaning(ranges);
    CanonicalUnique(merged, Union(ranges));
  }

  method MergeIPv4Ranges(ranges: seq<Range>) returns (merged: seq<Range>)
    ensures Canonical(merged)
    ensures SameSet(merged, ranges)
    ensures |merged| <= |ranges|
    ensures merged == Union(ranges)
  {
    if |ranges| == 0 {
      return [];
    }
    var sorted := SortRanges(ranges);
    merged := [sorted[0]];
    var i := 1;
    assert sorted[..1] == merged;
    while i < |sorted|
      invariant 1 <= i <= |sorted|
      invariant Canonical(merged) && 0 < |merged| <= i
      invariant merged[|merged| - 1].start <= sorted[i - 1].start
      invariant SameSet(merged, sorted[..i])
    {
      var current := sorted[i];
      var last := merged[|merged| - 1];
      SortedStarts(ranges, i - 1, i);
      assert sorted[..i + 1] == sorted[..i] + [current];
      SameSetAppend(merged, sorted[..i], current);
      if current.start <= last.end + 1 {
        MergeStep(merged, current);
        merged := merged[|merged| - 1 := Range(last.start, Max(last.end, current.end))];
      } else {
        merged := merged + [current];
      }
      i := i + 1;
    }
    assert sorted[..i] == sorted;
    MergedIsUnion(merged, ranges);
  }

  ghost predicate EndsBefore(rs: seq<Range>, bound: int) {
    forall i :: 0 <= i < |rs| ==> rs[i].end < bound
  }

  /** The remaining addresses are those below the cursor that no exclusion covers. */
  ghost predicate SubtractedUpTo(remaining: seq<Range>, done: seq<Range>, r: Range, cursor: int, excluded: seq<Range>) {
    forall x :: Covers(remaining, x) <==>
                (Covers(done, x) || (Contains(r, x) && x < cursor)) && !Covers(excluded, x)
  }

  lemma NotExcluded(excluded: seq<Range>, k: int, lo: int, hi: int, x: int)
    requires Canonical(excluded) && 0 <= k <= |excluded|
    requires EndsBefore(excluded[..k], lo)
    requires k < |excluded| ==> hi <= excluded[k].start
    requires lo <= x < hi
    ensures !Covers(excluded, x)
  {
    forall i | 0 <= i < |excluded|
      ensures !Contains(excluded[i], x)
    {
      if i < k {
        assert excluded[i] == excluded[..k][i];
      } else if k < i {
        assert excluded[k].end + 1 < excluded[i].start;
      }
    }
  }

  lemma EmitGap(remaining: seq<Range>, done: seq<Range>, r: Range, cursor: int, excluded: seq<Range>, k: int, hi: int)
    requires Canonical(excluded) && 0 <= k <= |excluded|
    requires EndsBefore(excluded[..k], cursor)
    requires k < |excluded| ==> hi <= excluded[k].start
    requires r.start <= cursor < hi <= r.end + 1
    requires SubtractedUpTo(remaining, done, r, cursor, excluded)
    ensures SubtractedUpTo(remaining + [Range(cursor, hi - 1)], done, r, hi, excluded)
  {
    var gap: Range := Range(cursor, hi - 1);
    forall x
      ensures Covers(remaining + [gap], x) <==>
              (Covers(done, x) || (Contains(r, x) && x < hi)) && !Covers(excluded, x)
    {
      CoversAppend(remaining, [gap], x);
      CoversSingle(gap, x);
      if cursor <= x < hi {
        NotExcluded(excluded, k, cursor, hi, x);
      }
      assert Covers(remaining, x) <==> (Covers(done, x) || (Contains(r, x) && x < cursor)) && !Covers(excluded, x);
    }
  }

  lemma SkipExclusion(remaining: seq<Range>, done: seq<Range>, r: Range, cursor: int, excluded: seq<Range>, k: int)
    requires 0 <= k < |excluded| && excluded[k].start <= cursor <= excluded[k].end + 1
    requires SubtractedUpTo(remaining, done, r, cursor, excluded)
    ensures SubtractedUpTo(remaining, done, r, excluded[k].end + 1, excluded)
  {
    forall x
      ensures Covers(remaining, x) <==>
              (Covers(done, x) || (Contains(r, x) && x < excluded[k].end + 1)) && !Covers(excluded, x)
    {
      assert Covers(remaining, x) <==> (Covers(done, x) || (Contains(r, x) && x < cursor)) && !Covers(excluded, x);
      if cursor <= x <= excluded[k].end {
        Inside(excluded, k, x);
      }
    }
  }

  lemma PastTheEnd(remaining: seq<Range>, done: seq<Range>, r: Range, cursor: int, excluded: seq<Range>)
    requires r.end < cursor && SubtractedUpTo(remaining, done, r, cursor, excluded)
    ensures SubtractedUpTo(remaining, done, r, r.end + 1, excluded)
  {
    forall x
      ensures Covers(remaining, x) <==>
              (Covers(done, x) || (Contains(r, x) && x < r.end + 1)) && !Covers(excluded, x)
    {
      assert Covers(remaining, x) <==> (Covers(done, x) || (Contains(r, x) && x < cursor)) && !Covers(excluded, x);
    }
  }

  /** The inner loop: carves the exclusions out of one base range. */
  method CarveRange(baseRange: Range, excluded: seq<Range>, first: nat, before: seq<Range>, ghost done: seq<Range>)
      returns (remaining: seq<Range>, next: nat)
    requires Canonical(excluded) && first <= |excluded|
    requires Canonical(before) && EndsBefore(before, baseRange.start - 1)
    requires EndsBefore(excluded[..first], baseRange.start)
    requires SubtractedUpTo(before, done, baseRange, baseRange.start, excluded)
    ensures first <= next <= |excluded| && EndsBefore(excluded[..next], baseRange.end + 1)
    ensures Canonical(remaining) && EndsBefore(remaining, baseRange.end + 1)
    ensures SubtractedUpTo(remaining, done, baseRange, baseRange.end + 1, excluded)
    ensures |remaining| + first <= |before| + next + 1
  {
    hide SubtractedUpTo, Covers;
    remaining := before;
    next := first;
    var cursor := baseRange.start;
    while next < |excluded| && excluded[next].end < cursor
      invariant first <= next <= |excluded|
      invariant EndsBefore(excluded[..next], cursor)
    {
      next := next + 1;
    }
    while next < |excluded| && excluded[next].start <= baseRange.end
      invariant first <= next <= |excluded|
      invariant baseRange.start <= cursor <= baseRange.end
      invariant EndsBefore(excluded[..next], cursor)
      invariant next < |excluded| ==> cursor <= excluded[next].end
      invariant Canonical(remaining) && EndsBefore(remaining, cursor - 1)
      invariant SubtractedUpTo(remaining, done, baseRange, cursor, excluded)
      invariant |remaining| + first <= |before| + next
      decreases |excluded| - next
    {
      var exclusion := excluded[next];
      ghost var reached := cursor;
      if exclusion.start > cursor {
        EmitGap(remaining, done, baseRange, cursor, excluded, next, exclusion.start);
        remaining := remaining + [Range(cursor, exclusion.start - 1)];
        reached := exclusion.start;
      }
      SkipExclusion(remaining, done, baseRange, reached, excluded, next);
      cursor := exclusion.end + 1;
      if cursor > baseRange.end {
        PastTheEnd(remaining, done, baseRange, cursor, excluded);
        break;
      }
      next := next + 1;
    }
    if cursor <= baseRange.end {
      EmitGap(remaining, done, baseRange, cursor, excluded, next, baseRange.end + 1);
      remaining := remaining + [Range(cursor, baseRange.end)];
    }
  }

  lemma CoversNothing(x: int)
    ensures !Covers([], x)
  {
  }

  /** The loop's result is the reference difference. */
  lemma SubtractedIsDifference(remaining: seq<Range>, b: seq<Range>, e: seq<Range>, base: seq<Range>, excluded: seq<Range>)
    requires Canonical(remaining) && Canonical(b) && SameSet(b, base) && SameSet(e, excluded) && b == Union(base)
    requires forall x :: Covers(remaining, x) <==> Covers(b, x) && !Covers(e, x)
    ensures forall x :: Covers(remaining, x) <==> Covers(base, x) && !Covers(excluded, x)
    ensures remaining == Difference(Union(base), excluded)
  {
    hide Covers, Union, Difference;
    DifferenceMeaning(b, excluded);
    CanonicalUnique(remaining, Difference(b, excluded));
  }

  lemma CarvedOneMore(remaining: seq<Range>, b: seq<Range>, i: int, e: seq<Range>)
    requires 0 <= i < |b| && SubtractedUpTo(remaining, b[..i], b[i], b[i].end + 1, e)
    ensures forall x :: Covers(remaining, x) <==> Covers(b[..i + 1], x) && !Covers(e, x)
  {
    hide Covers;
    forall x
      ensures Covers(remaining, x) <==> Covers(b[..i + 1], x) && !Covers(e, x)
    {
      assert b[..i + 1] == b[..i] + [b[i]];
      CoversAppend(b[..i], [b[i]], x);
      CoversSingle(b[i], x);
    }
  }

  /** base minus excluded, in one pass over both sorted lists. */
  method SubtractIPv4Ranges(base: seq<Range>, excluded: seq<Range>) returns (remaining: seq<Range>)
    ensures Canonical(remaining)
    ensures forall x :: Covers(remaining, x) <==> Covers(base, x) && !Covers(excluded, x)
    ensures |remaining| <= |base| + |excluded|
    ensures remaining == Difference(Union(base), excluded)
  {
    hide Covers, Union, Difference, SameSet;
    var b := MergeIPv4Ranges(base);
    var e := MergeIPv4Ranges(excluded);
    forall x ensures !Covers([], x) {
      CoversNothing(x);
    }
    if |b| == 0 || |e| == 0 {
      SubtractedIsDifference(b, b, e, base, excluded);
      return b;
    }
    remaining := [];
    var next := 0;
    var i := 0;
    while i < |b|
      invariant 0 <= i <= |b| && next <= |e|
      invariant Canonical(remaining)
      invariant i == 0 ==> next == 0 && remaining == []
      invariant 0 < i ==> EndsBefore(e[..next], b[i - 1].end + 1) && EndsBefore(remaining, b[i - 1].end + 1)
      invariant forall x :: Covers(remaining, x) <==> Covers(b[..i], x) && !Covers(e, x)
      invariant |remaining| <= i + next
    {
      remaining, next := CarveRange(b[i], e, next, remaining, b[..i]);
      CarvedOneMore(remaining, b, i, e);
      i := i + 1;
    }
    assert b[..i] == b;
    SubtractedIsDifference(remaining, b, e, base, excluded);
  }
}
