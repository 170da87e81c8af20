/** Per-client routing: normalization of the stored policy and the CIDR list rendered from it. */
module Routing {
  import opened Wrappers
  import opened Ipv4Ranges
  import opened CidrBlocks

  const MAX_LIST_ENTRIES := 4096
  const MAX_COMPUTED_CIDRS := 16384

  type Net = p: Prefix | WellFormed(p) witness Prefix(0, 0)

  /** What the CIDR parser makes of one list entry. */
  datatype Cidr = Malformed | Ipv6 | Ipv4(prefix: Net)

  datatype Mode = Full | Split | Bypass | Unknown

  datatype Policy = Policy(mode: Mode, allowed: seq<Cidr>, excluded: seq<Cidr>)

  datatype Field = AllowedIPs | ExcludedIPs

  datatype RoutingError =
    | MustBeEmpty(field: Field)
    | MustNotBeEmpty(field: Field)
    | UnknownMode
    | TooManyEntries(field: Field)
    | InvalidCidr(field: Field, index: nat)
    | ExcludesEverything
    | TooManyCidrs

  /** The AllowedIPs line after the VPN network: IPv4 blocks, then the IPv6 default route or nothing. */
  datatype Rendered = Rendered(ipv4: seq<Cidr>, ipv6Default: bool)

  lemma MaskFacts(x: int, n: int)
    requires 0 <= x && 0 < n
    ensures 0 <= x - x % n <= x && (x - x % n) % n == 0
    ensures x % n == 0 ==> x - x % n == x
  {
    var q := x / n;
    assert x - x % n == n * q;
    MultipleMod(n, q);
    MulBound(n, -q);
  }

  function Masked(p: Net): (m: Net)
    ensures Aligned(m) && m.bits == p.bits && m.addr <= p.addr
    ensures Aligned(p) ==> m == p
  {
    MaskFacts(p.addr, Size(p));
    Prefix(p.addr - p.addr % Size(p), p.bits)
  }

  /** The addresses of one prefix as an inclusive range; nothing for entries the parser refused. */
  function RangesOf(c: Cidr): (rs: seq<Range>) {
    if c.Ipv4? then
      var m := Masked(c.prefix);
      EndInRange(m);
      [Range(m.addr, End(m) - 1)]
    else []
  }

  function PrefixRanges(cs: seq<Cidr>): (rs: seq<Range>) {
    if cs == [] then [] else PrefixRanges(cs[..|cs| - 1]) + RangesOf(cs[|cs| - 1])
  }

  ghost predicate Listed(cs: seq<Cidr>, x: int) {
    exists i :: 0 <= i < |cs| && cs[i].Ipv4? && Has(Masked(cs[i].prefix), x)
  }

  lemma RangesOfCovers(c: Cidr, x: int)
    ensures Covers(RangesOf(c), x) <==> c.Ipv4? && Has(Masked(c.prefix), x)
  {
    if c.Ipv4? {
      CoversSingle(RangesOf(c)[0], x);
    }
  }

  lemma {:induction false} PrefixRangesCovers(cs: seq<Cidr>, x: int)
    ensures Covers(PrefixRanges(cs), x) <==> Listed(cs, x)
  {
    if cs != [] {
      var n := |cs| - 1;
      PrefixRangesCovers(cs[..n], x);
      CoversAppend(PrefixRanges(cs[..n]), RangesOf(cs[n]), x);
      RangesOfCovers(cs[n], x);
      if Listed(cs[..n], x) {
        var i :| 0 <= i < n && cs[..n][i].Ipv4? && Has(Masked(cs[..n][i].prefix), x);
        assert cs[i] == cs[..n][i];
      }
      if Listed(cs, x) {
        var i :| 0 <= i < |cs| && cs[i].Ipv4? && Has(Masked(cs[i].prefix), x);
        assert i < n ==> cs[i] == cs[..n][i];
      }
    }
  }

  method PrefixesToIPv4Ranges(prefixes: seq<Cidr>) returns (ranges: seq<Range>)
    ensures ranges == PrefixRanges(prefixes)
  {
    ranges := [];
    var i := 0;
    while i < |prefixes|
      invariant 0 <= i <= |prefixes|
      invariant ranges == PrefixRanges(prefixes[..i])
    {
      assert prefixes[..i + 1][..i] == prefixes[..i];
      ranges := ranges + RangesOf(prefixes[i]);
      i := i + 1;
    }
    assert prefixes[..i] == prefixes;
  }

  // ---------------------------------------------------------------------------------------------
  // Normalization of one list
  // ---------------------------------------------------------------------------------------------

  ghost predicate AllIPv4(cs: seq<Cidr>) {
    forall i :: 0 <= i < |cs| ==> cs[i].Ipv4?
  }

  ghost predicate Distinct(cs: seq<Cidr>) {
    forall i, j :: 0 <= i < j < |cs| ==> cs[i] != cs[j]
  }

  /** A list as it is stored: masked IPv4 prefixes with no repetition. */
  ghost predicate NormalList(cs: seq<Cidr>) {
    Distinct(cs) && forall i :: 0 <= i < |cs| ==> cs[i].Ipv4? && Aligned(cs[i].prefix)
  }

  /** Masks every prefix and keeps the first occurrence of each. */
  function Deduplicated(cs: seq<Cidr>): (r: seq<Cidr>)
    requires forall i :: 0 <= i < |cs| ==> cs[i].Ipv4?
  {
    if cs == [] then []
    else
      var n := |cs| - 1;
      var d := Deduplicated(cs[..n]);
      var m := Ipv4(Masked(cs[n].prefix));
      if m in d then d else d + [m]
  }

  lemma {:induction false} DeduplicatedShape(cs: seq<Cidr>)
    requires AllIPv4(cs)
    ensures var d := Deduplicated(cs); NormalList(d) && |d| <= |cs| && (cs != [] ==> d != [])
  {
    if cs != [] {
      DeduplicatedShape(cs[..|cs| - 1]);
    }
  }

  lemma {:induction false} DeduplicatedMember(cs: seq<Cidr>, i: int)
    requires AllIPv4(cs) && 0 <= i < |cs|
    ensures Ipv4(Masked(cs[i].prefix)) in Deduplicated(cs)
    decreases |cs|
  {
    var n := |cs| - 1;
    if i < n {
      DeduplicatedMember(cs[..n], i);
    }
  }

  lemma {:induction false} DeduplicatedOrigin(cs: seq<Cidr>, c: Cidr) returns (i: int)
    requires AllIPv4(cs) && c in Deduplicated(cs)
    ensures 0 <= i < |cs| && c == Ipv4(Masked(cs[i].prefix))
    decreases |cs|
  {
    var n := |cs| - 1;
    if c in Deduplicated(cs[..n]) {
      i := DeduplicatedOrigin(cs[..n], c);
    } else {
      i := n;
    }
  }

  lemma {:induction false} DeduplicatedStable(cs: seq<Cidr>)
    requires NormalList(cs)
    ensures Deduplicated(cs) == cs
  {
    if cs != [] {
      var n := |cs| - 1;
      DeduplicatedStable(cs[..n]);
      assert cs == cs[..n] + [cs[n]];
    }
  }

  lemma DeduplicatedListed(cs: seq<Cidr>, x: int)
    requires AllIPv4(cs)
    ensures Listed(Deduplicated(cs), x) <==> Listed(cs, x)
  {
    hide Deduplicated;
    var d := Deduplicated(cs);
    DeduplicatedShape(cs);
    if Listed(cs, x) {
      var i :| 0 <= i < |cs| && cs[i].Ipv4? && Has(Masked(cs[i].prefix), x);
      DeduplicatedMember(cs, i);
      var k :| 0 <= k < |d| && d[k] == Ipv4(Masked(cs[i].prefix));
      assert Has(Masked(d[k].prefix), x);
    }
    if Listed(d, x) {
      var k :| 0 <= k < |d| && d[k].Ipv4? && Has(Masked(d[k].prefix), x);
      var i := DeduplicatedOrigin(cs, d[k]);
      assert Has(Masked(cs[i].prefix), x);
    }
  }

  /** The list normalizer's outcome: the first entry that is not IPv4, or the masked list without repetitions. */
  function NormalizedList(cs: seq<Cidr>, field: Field): (r: Result<seq<Cidr>, RoutingError>)
  {
    if i :| 0 <= i < |cs| && !cs[i].Ipv4? && forall k :: 0 <= k < i ==> cs[k].Ipv4?
    then Err(InvalidCidr(field, i))
    else FirstRefused(cs); Ok(Deduplicated(cs))
  }

  lemma FirstRefused(cs: seq<Cidr>)
    ensures (exists i :: 0 <= i < |cs| && !cs[i].Ipv4?) ==>
              exists i :: 0 <= i < |cs| && !cs[i].Ipv4? && forall k :: 0 <= k < i ==> cs[k].Ipv4?
  {
    var i := 0;
    while i < |cs| && cs[i].Ipv4?
      invariant 0 <= i <= |cs| && forall k :: 0 <= k < i ==> cs[k].Ipv4?
    {
      i := i + 1;
    }
  }

  method NormalizeIPv4Prefixes(values: seq<Cidr>, field: Field) returns (r: Result<seq<Cidr>, RoutingError>)
    ensures r == NormalizedList(values, field)
  {
    var normalized: seq<Cidr> := [];
    var seen: set<Cidr> := {};
    var i := 0;
    while i < |values|
      invariant 0 <= i <= |values|
      invariant forall k :: 0 <= k < i ==> values[k].Ipv4?
      invariant normalized == Deduplicated(values[..i])
      invariant forall c :: c in seen <==> c in normalized
    {
      if !values[i].Ipv4? {
        return Err(InvalidCidr(field, i));
      }
      assert values[..i + 1][..i] == values[..i];
      var m := Ipv4(Masked(values[i].prefix));
      if m !in seen {
        seen := seen + {m};
        normalized := normalized + [m];
      }
      i := i + 1;
    }
    assert values[..i] == values;
    return Ok(normalized);
  }

  // ---------------------------------------------------------------------------------------------
  // The computed CIDR list
  // ---------------------------------------------------------------------------------------------

  const EVERYTHING: Cidr := Ipv4(Prefix(0, 0))

  function Base(p: Policy): seq<Cidr> {
    if p.mode == Bypass then [EVERYTHING] else p.allowed
  }

  function RemainingRanges(p: Policy): (rs: seq<Range>) {
    Difference(Union(PrefixRanges(Base(p))), PrefixRanges(p.excluded))
  }

  function Computed(p: Policy): (r: Result<seq<Prefix>, RoutingError>) {
    var cidrs := Blocks(RemainingRanges(p));
    if cidrs == [] then Err(ExcludesEverything)
    else if |cidrs| > MAX_COMPUTED_CIDRS then Err(TooManyCidrs)
    else Ok(cidrs)
  }

  lemma RemainingMeaning(p: Policy)
    ensures Canonical(RemainingRanges(p))
    ensures forall x :: Covers(RemainingRanges(p), x) <==> Listed(Base(p), x) && !Listed(p.excluded, x)
  {
    var base, excluded := PrefixRanges(Base(p)), PrefixRanges(p.excluded);
    UnionMeaning(base);
    DifferenceMeaning(Union(base), excluded);
    forall x
      ensures Covers(RemainingRanges(p), x) <==> Listed(Base(p), x) && !Listed(p.excluded, x)
    {
      PrefixRangesCovers(Base(p), x);
      PrefixRangesCovers(p.excluded, x);
      assert Covers(Union(base), x) <==> Covers(base, x);
    }
  }

  method ComputedIPv4AllowedIPs(p: Policy) returns (r: Result<seq<Prefix>, RoutingError>)
    ensures r == Computed(p)
  {
    var base := p.allowed;
    if p.mode == Bypass {
      base := [EVERYTHING];
    }
    var baseRanges := PrefixesToIPv4Ranges(base);
    var excludedRanges := PrefixesToIPv4Ranges(p.excluded);
    var remaining := SubtractIPv4Ranges(baseRanges, excludedRanges);
    var computed := IPv4RangesToPrefixes(remaining);
    UnionMeaning(remaining);
    CanonicalUnique(remaining, Union(remaining));
    if |computed| == 0 {
      return Err(ExcludesEverything);
    }
    if |computed| > MAX_COMPUTED_CIDRS {
      return Err(TooManyCidrs);
    }
    return Ok(computed);
  }

  // ---------------------------------------------------------------------------------------------
  // Normalization and rendering of a policy
  // ---------------------------------------------------------------------------------------------

  /** The combinations of mode and lists that are refused before the lists are read. */
  function ShapeError(p: Policy): (e: Option<RoutingError>) {
    match p.mode
    case Full =>
      if p.allowed != [] then Some(MustBeEmpty(AllowedIPs))
      else if p.excluded != [] then Some(MustBeEmpty(ExcludedIPs))
      else None
    case Bypass =>
      if p.allowed != [] then Some(MustBeEmpty(AllowedIPs))
      else if p.excluded == [] then Some(MustNotBeEmpty(ExcludedIPs))
      else SizeError(p)
    case Split =>
      if p.allowed == [] then Some(MustNotBeEmpty(AllowedIPs)) else SizeError(p)
    case Unknown => Some(UnknownMode)
  }

  function SizeError(p: Policy): (e: Option<RoutingError>) {
    if |p.allowed| > MAX_LIST_ENTRIES then Some(TooManyEntries(AllowedIPs))
    else if |p.excluded| > MAX_LIST_ENTRIES then Some(TooManyEntries(ExcludedIPs))
    else None
  }

  function Normalized(routing: Option<Policy>): (r: Result<Option<Policy>, RoutingError>) {
    if routing.None? then Ok(None)
    else
      var p := routing.value;
      var shape := ShapeError(p);
      if shape.Some? then Err(shape.value)
      else if p.mode == Full then Ok(None)
      else
        var allowed, excluded := NormalizedList(p.allowed, AllowedIPs), NormalizedList(p.excluded, ExcludedIPs);
        if allowed.Err? then Err(allowed.error)
        else if excluded.Err? then Err(excluded.error)
        else
          var n := Policy(p.mode, allowed.value, excluded.value);
          if n.excluded != [] && Computed(n).Err? then Err(Computed(n).error) else Ok(Some(n))
  }

  method NormalizeRouting(routing: Option<Policy>) returns (r: Result<Option<Policy>, RoutingError>)
    ensures r == Normalized(routing)
    ensures r.Ok? <==> routing.None? || PolicyAcceptable(routing.value)
  {
    hide PolicyAcceptable;
    NormalizeAccepts(routing);
    if routing.None? {
      return Ok(None);
    }
    var p := routing.value;
    match p.mode {
      case Full =>
        if |p.allowed| > 0 {
          return Err(MustBeEmpty(AllowedIPs));
        }
        if |p.excluded| > 0 {
          return Err(MustBeEmpty(ExcludedIPs));
        }
        return Ok(None);
      case Bypass =>
        if |p.allowed| > 0 {
          return Err(MustBeEmpty(AllowedIPs));
        }
        if |p.excluded| == 0 {
          return Err(MustNotBeEmpty(ExcludedIPs));
        }
      case Split =>
        if |p.allowed| == 0 {
          return Err(MustNotBeEmpty(AllowedIPs));
        }
      case Unknown =>
        return Err(UnknownMode);
    }
    if |p.allowed| > MAX_LIST_ENTRIES {
      return Err(TooManyEntries(AllowedIPs));
    }
    if |p.excluded| > MAX_LIST_ENTRIES {
      return Err(TooManyEntries(ExcludedIPs));
    }
    var allowed := NormalizeIPv4Prefixes(p.allowed, AllowedIPs);
    if allowed.Err? {
      return Err(allowed.error);
    }
    var excluded := NormalizeIPv4Prefixes(p.excluded, ExcludedIPs);
    if excluded.Err? {
      return Err(excluded.error);
    }
    var normalized := Policy(p.mode, allowed.value, excluded.value);
    if |normalized.excluded| > 0 {
      var computed := ComputedIPv4AllowedIPs(normalized);
      if computed.Err? {
        return Err(computed.error);
      }
    }
    return Ok(Some(normalized));
  }

  function AsCidr(p: Prefix): Cidr {
    if WellFormed(p) then Ipv4(p) else Malformed
  }

  function AsCidrs(ps: seq<Prefix>): (cs: seq<Cidr>)
    ensures |cs| == |ps| && forall i :: 0 <= i < |ps| ==> cs[i] == AsCidr(ps[i])
  {
    seq(|ps|, i requires 0 <= i < |ps| => AsCidr(ps[i]))
  }

  function RenderedSpec(routing: Option<Policy>): (r: Result<Rendered, RoutingError>) {
    if routing.None? || routing.value.mode == Full then Ok(Rendered([EVERYTHING], true))
    else
      var p := routing.value;
      if p.mode == Split && p.excluded == [] then Ok(Rendered(p.allowed, false))
      else if p.mode == Unknown then Err(UnknownMode)
      else if Computed(p).Err? then Err(Computed(p).error)
      else Ok(Rendered(AsCidrs(Computed(p).value), p.mode == Bypass))
  }

  method RoutingAllowedIPs(routing: Option<Policy>) returns (r: Result<Rendered, RoutingError>)
    ensures r == RenderedSpec(routing)
    ensures Normalized(routing) == Ok(routing) ==> RendersPolicy(routing, r)
  {
    hide Normalized, RendersPolicy, Computed;
    NormalFormRenders(routing);
    if routing.None? || routing.value.mode == Full {
      return Ok(Rendered([EVERYTHING], true));
    }
    var p := routing.value;
    if p.mode == Split && |p.excluded| == 0 {
      return Ok(Rendered(p.allowed, false));
    }
    if p.mode != Split && p.mode != Bypass {
      return Err(UnknownMode);
    }
    var computed := ComputedIPv4AllowedIPs(p);
    if computed.Err? {
      return Err(computed.error);
    }
    return Ok(Rendered(AsCidrs(computed.value), p.mode == Bypass));
  }

  // ---------------------------------------------------------------------------------------------
  // What the policy means
  // ---------------------------------------------------------------------------------------------

  /** base(mode) minus the exclusions. */
  ghost predicate Denotes(routing: Option<Policy>, x: int) {
    if routing.None? || routing.value.mode == Full then 0 <= x < ADDRESS_LIMIT
    else Listed(Base(routing.value), x) && !Listed(routing.value.excluded, x)
  }

  lemma ListedSingle(c: Cidr, x: int)
    ensures Listed([c], x) <==> c.Ipv4? && Has(Masked(c.prefix), x)
  {
    assert [c][0] == c;
  }

  lemma EverythingListed(x: int)
    ensures Listed([EVERYTHING], x) <==> 0 <= x < ADDRESS_LIMIT
  {
    WholeBlock();
    RangesOfCovers(EVERYTHING, x);
    ListedSingle(EVERYTHING, x);
  }

  lemma NormalListAccepted(cs: seq<Cidr>, field: Field)
    requires NormalList(cs)
    ensures NormalizedList(cs, field) == Ok(cs)
  {
    DeduplicatedStable(cs);
  }

  lemma NormalizedListMeaning(cs: seq<Cidr>, field: Field)
    requires NormalizedList(cs, field).Ok?
    ensures AllIPv4(cs) && NormalizedList(cs, field).value == Deduplicated(cs)
    ensures NormalList(NormalizedList(cs, field).value)
  {
    FirstRefused(cs);
    assert AllIPv4(cs);
    DeduplicatedShape(cs);
  }

  /** Normalizing a normalized policy changes nothing. */
  lemma NormalizeIdempotent(routing: Option<Policy>, n: Option<Policy>)
    requires Normalized(routing) == Ok(n)
    ensures Normalized(n) == Ok(n)
  {
    hide Computed, Deduplicated, NormalizedList, NormalList, AllIPv4;
    if n.Some? {
      var p := routing.value;
      NormalizedListMeaning(p.allowed, AllowedIPs);
      NormalizedListMeaning(p.excluded, ExcludedIPs);
      DeduplicatedShape(p.allowed);
      DeduplicatedShape(p.excluded);
      NormalListAccepted(n.value.allowed, AllowedIPs);
      NormalListAccepted(n.value.excluded, ExcludedIPs);
    }
  }

  /** Normalization keeps the denoted address set. */
  lemma NormalizePreservesSet(routing: Option<Policy>, n: Option<Policy>, x: int)
    requires Normalized(routing) == Ok(n)
    ensures Denotes(n, x) <==> Denotes(routing, x)
  {
    hide Computed, Deduplicated, NormalizedList, Listed;
    if n.Some? {
      var p := routing.value;
      NormalizedListMeaning(p.allowed, AllowedIPs);
      NormalizedListMeaning(p.excluded, ExcludedIPs);
      DeduplicatedListed(p.allowed, x);
      DeduplicatedListed(p.excluded, x);
    }
  }

  lemma ComputedListed(p: Policy, x: int)
    requires Computed(p).Ok? && AllAligned(Computed(p).value)
    ensures Listed(AsCidrs(Computed(p).value), x) <==> Listed(Base(p), x) && !Listed(p.excluded, x)
  {
    RemainingMeaning(p);
    BlocksMembers(RemainingRanges(p), x);
    var ps := Computed(p).value;
    var cs := AsCidrs(ps);
    if Listed(cs, x) {
      var i :| 0 <= i < |cs| && cs[i].Ipv4? && Has(Masked(cs[i].prefix), x);
      assert Has(ps[i], x);
    }
    if InBlocks(ps, x) {
      var i :| 0 <= i < |ps| && Has(ps[i], x);
      assert Has(Masked(cs[i].prefix), x);
    }
  }

  lemma NormalizedShape(routing: Option<Policy>, p: Policy)
    requires Normalized(routing) == Ok(Some(p))
    ensures routing.Some? && (p.mode == Split || p.mode == Bypass) && p.mode == routing.value.mode
    ensures p.excluded != [] ==> Computed(p).Ok?
    ensures p.mode == Bypass ==> p.excluded != []
  {
    hide Computed, NormalizedList, Deduplicated, NormalList;
    var excluded := routing.value.excluded;
    if p.mode == Bypass {
      NormalizedListMeaning(excluded, ExcludedIPs);
      DeduplicatedShape(excluded);
    }
  }

  lemma ListedEmpty(x: int)
    ensures !Listed([], x)
  {
  }

  /** A normalized policy renders, its IPv4 part denotes base(mode) minus the exclusions, and only split drops IPv6. */
  lemma NormalizedRenders(routing: Option<Policy>, n: Option<Policy>, x: int)
    requires Normalized(routing) == Ok(n)
    ensures RenderedSpec(n).Ok?
    ensures RenderedSpec(n).Ok? ==> (Listed(RenderedSpec(n).value.ipv4, x) <==> Denotes(routing, x))
    ensures RenderedSpec(n).Ok? ==> (RenderedSpec(n).value.ipv6Default <==> n.None? || n.value.mode == Bypass)
  {
    hide Normalized, Computed, Listed, AsCidrs, AllAligned, Blocks, RemainingRanges, Masked, InBlocks, EVERYTHING;
    NormalizePreservesSet(routing, n, x);
    if n.None? {
      EverythingListed(x);
    } else {
      var p := n.value;
      NormalizedShape(routing, p);
      ListedEmpty(x);
      if p.excluded != [] {
        ComputedAligned(p);
        ComputedListed(p, x);
      }
    }
  }

  lemma ComputedAligned(p: Policy)
    requires Computed(p).Ok?
    ensures AllAligned(Computed(p).value) && Computed(p).value == Blocks(RemainingRanges(p))
  {
    RemainingMeaning(p);
    BlocksShape(RemainingRanges(p));
  }

  /** With exclusions, no list of aligned blocks for the same addresses is shorter than the rendered one. */
  lemma RenderedMinimal(routing: Option<Policy>, p: Policy, other: seq<Prefix>)
    requires Normalized(routing) == Ok(Some(p)) && p.excluded != []
    requires AllAligned(other) && forall x :: InBlocks(other, x) <==> Denotes(routing, x)
    ensures RenderedSpec(Some(p)).Ok?
    ensures RenderedSpec(Some(p)).Ok? ==> |RenderedSpec(Some(p)).value.ipv4| <= |other|
  {
    hide Normalized, Computed, Listed, InBlocks, AllAligned, Blocks, RemainingRanges;
    NormalizedShape(routing, p);
    ComputedAligned(p);
    forall x
      ensures InBlocks(other, x) <==> Listed(Base(p), x) && !Listed(p.excluded, x)
    {
      NormalizePreservesSet(routing, Some(p), x);
    }
    ComputedMinimal(p, other);
  }

  lemma ComputedMinimal(p: Policy, other: seq<Prefix>)
    requires AllAligned(other)
    requires forall x :: InBlocks(other, x) <==> Listed(Base(p), x) && !Listed(p.excluded, x)
    ensures |Blocks(RemainingRanges(p))| <= |other|
  {
    hide RemainingRanges, Blocks;
    RemainingMeaning(p);
    Minimal(RemainingRanges(p), other);
  }

  /** Rendering succeeds, lists exactly the addresses the policy denotes, and only split drops the IPv6 default route. */
  ghost predicate RendersPolicy(routing: Option<Policy>, r: Result<Rendered, RoutingError>) {
    && r.Ok?
    && (forall x :: Listed(r.value.ipv4, x) <==> Denotes(routing, x))
    && (r.value.ipv6Default <==> routing.None? || routing.value.mode == Bypass)
  }

  /** A stored policy, which is its own normal form, renders as what it denotes. */
  lemma NormalFormRenders(routing: Option<Policy>)
    ensures Normalized(routing) == Ok(routing) ==> RendersPolicy(routing, RenderedSpec(routing))
  {
    hide Normalized, RenderedSpec, Listed, Denotes;
    if Normalized(routing) == Ok(routing) {
      NormalizedRenders(routing, routing, 0);
      forall x
        ensures Listed(RenderedSpec(routing).value.ipv4, x) <==> Denotes(routing, x)
      {
        NormalizedRenders(routing, routing, x);
      }
    }
  }

  // ---------------------------------------------------------------------------------------------
  // Which policies are accepted
  // ---------------------------------------------------------------------------------------------

  /** x belongs to the routes the mode starts from. */
  ghost predicate InBase(p: Policy, x: int) {
    if p.mode == Bypass then 0 <= x < ADDRESS_LIMIT else Listed(p.allowed, x)
  }

  /** Aligned blocks for exactly the addresses of the base that no exclusion names. */
  ghost predicate CoversRemainder(cover: seq<Prefix>, p: Policy) {
    AllAligned(cover) && forall x :: InBlocks(cover, x) <==> InBase(p, x) && !Listed(p.excluded, x)
  }

  /** Both lists are short and IPv4, and exclusions leave something that few enough blocks can express. */
  ghost predicate ListsAcceptable(p: Policy) {
    && |p.allowed| <= 4096 && |p.excluded| <= 4096
    && AllIPv4(p.allowed) && AllIPv4(p.excluded)
    && (p.excluded != [] ==>
          && (exists x :: InBase(p, x) && !Listed(p.excluded, x))
          && (exists cover :: CoversRemainder(cover, p) && |cover| <= 16384))
  }

  ghost predicate PolicyAcceptable(p: Policy) {
    match p.mode
    case Full => p.allowed == [] && p.excluded == []
    case Bypass => p.allowed == [] && p.excluded != [] && ListsAcceptable(p)
    case Split => p.allowed != [] && ListsAcceptable(p)
    case Unknown => false
  }

  /** Normalization accepts exactly the acceptable policies, and keeps the mode of all but full. */
  lemma NormalizeAccepts(routing: Option<Policy>)
    ensures Normalized(routing).Ok? <==> routing.None? || PolicyAcceptable(routing.value)
    ensures Normalized(routing).Ok? ==>
              var n := Normalized(routing).value;
              && (n.None? <==> routing.None? || routing.value.mode == Full)
              && (n.Some? ==> n.value.mode == routing.value.mode)
  {
    hide Computed, NormalizedList, ListsAcceptable;
    if routing.Some? {
      var p := routing.value;
      ListAccepted(p.allowed, AllowedIPs);
      ListAccepted(p.excluded, ExcludedIPs);
      if AllIPv4(p.allowed) && AllIPv4(p.excluded) && (p.mode == Split || p.mode == Bypass) {
        ListsAccepted(p);
      } else {
        OnlyIPv4Acceptable(p);
      }
    }
  }

  lemma OnlyIPv4Acceptable(p: Policy)
    ensures ListsAcceptable(p) ==> AllIPv4(p.allowed) && AllIPv4(p.excluded)
  {
    hide CoversRemainder, AllIPv4;
  }

  lemma ListAccepted(cs: seq<Cidr>, field: Field)
    ensures NormalizedList(cs, field).Ok? <==> AllIPv4(cs)
    ensures AllIPv4(cs) ==> NormalizedList(cs, field) == Ok(Deduplicated(cs)) && (Deduplicated(cs) == [] <==> cs == [])
  {
    if AllIPv4(cs) {
      DeduplicatedShape(cs);
    } else {
      FirstRefused(cs);
    }
  }

  /** The checks on the masked lists are the conditions on the given ones. */
  lemma ListsAccepted(p: Policy)
    requires AllIPv4(p.allowed) && AllIPv4(p.excluded) && (p.mode == Split || p.mode == Bypass)
    ensures var n := Policy(p.mode, Deduplicated(p.allowed), Deduplicated(p.excluded));
            ListsAcceptable(p) <==>
            |p.allowed| <= 4096 && |p.excluded| <= 4096 && (n.excluded != [] ==> Computed(n).Ok?)
  {
    hide Computed, CoversRemainder, Deduplicated, Listed;
    var n := Policy(p.mode, Deduplicated(p.allowed), Deduplicated(p.excluded));
    ListAccepted(p.excluded, ExcludedIPs);
    SameRemainder(p, n);
    RemainderComputed(n);
  }

  lemma SameRemainder(p: Policy, n: Policy)
    requires AllIPv4(p.allowed) && AllIPv4(p.excluded)
    requires n == Policy(p.mode, Deduplicated(p.allowed), Deduplicated(p.excluded))
    ensures forall x :: InBase(n, x) && !Listed(n.excluded, x) <==> InBase(p, x) && !Listed(p.excluded, x)
    ensures forall cover :: CoversRemainder(cover, n) <==> CoversRemainder(cover, p)
  {
    hide Deduplicated, Listed, AllAligned, InBlocks, AllIPv4;
    forall x
      ensures InBase(n, x) && !Listed(n.excluded, x) <==> InBase(p, x) && !Listed(p.excluded, x)
    {
      DeduplicatedListed(p.allowed, x);
      DeduplicatedListed(p.excluded, x);
    }
  }

  /** Computing succeeds exactly when something remains and some short list of blocks covers it. */
  lemma RemainderComputed(p: Policy)
    ensures Computed(p).Ok? <==>
            && (exists x :: InBase(p, x) && !Listed(p.excluded, x))
            && (exists cover :: CoversRemainder(cover, p) && |cover| <= 16384)
  {
    hide RemainingRanges, Blocks, Listed, InBlocks, AllAligned;
    var bs := Blocks(RemainingRanges(p));
    RemainderBlocks(p);
    if bs != [] {
      var x := SomeAddress(bs);
      assert InBase(p, x) && !Listed(p.excluded, x);
    }
    if x :| InBase(p, x) && !Listed(p.excluded, x) {
      InSomeBlock(bs, x);
    }
    forall cover | CoversRemainder(cover, p)
      ensures |bs| <= |cover|
    {
      CoverNotShorter(p, cover);
    }
  }

  lemma RemainderBlocks(p: Policy)
    ensures CoversRemainder(Blocks(RemainingRanges(p)), p)
  {
    hide RemainingRanges, Blocks, Listed, InBlocks, AllAligned;
    RemainingMeaning(p);
    BlocksShape(RemainingRanges(p));
    forall x
      ensures InBlocks(Blocks(RemainingRanges(p)), x) <==> InBase(p, x) && !Listed(p.excluded, x)
    {
      BlocksMembers(RemainingRanges(p), x);
      EverythingListed(x);
    }
  }

  lemma SomeAddress(bs: seq<Prefix>) returns (x: int)
    requires AllAligned(bs) && bs != []
    ensures InBlocks(bs, x)
  {
    x := bs[0].addr;
    assert Has(bs[0], x);
  }

  lemma InSomeBlock(bs: seq<Prefix>, x: int)
    requires AllAligned(bs) && InBlocks(bs, x)
    ensures bs != []
  {
  }

  lemma CoverNotShorter(p: Policy, cover: seq<Prefix>)
    requires CoversRemainder(cover, p)
    ensures |Blocks(RemainingRanges(p))| <= |cover|
  {
    hide RemainingRanges, Blocks, Listed, InBlocks, AllAligned;
    forall x
      ensures InBlocks(cover, x) <==> Listed(Base(p), x) && !Listed(p.excluded, x)
    {
      EverythingListed(x);
    }
    ComputedMinimal(p, cover);
  }

  /** The masked prefix is the only aligned block of its length that contains the address. */
  lemma MaskedUnique(p: Net, m: Prefix)
    ensures Has(Masked(p), p.addr)
    ensures Aligned(m) && m.bits == p.bits && Has(m, p.addr) ==> m == Masked(p)
  {
    hide Pow2;
    RoundDown(p.addr, Size(p));
    if Aligned(m) && m.bits == p.bits && Has(m, p.addr) {
      OnlyMultiple(m.addr, p.addr, Size(p));
    }
  }

  lemma RoundDown(x: int, n: int)
    requires 0 < n
    ensures x - x % n <= x < x - x % n + n
  {
  }

  lemma OnlyMultiple(a: int, x: int, n: int)
    requires 0 <= x && 0 < n && a % n == 0 && a <= x < a + n
    ensures a == x - x % n
  {
    var b := x - x % n;
    MaskFacts(x, n);
    RoundDown(x, n);
    if a < b {
      MultipleGap(a, b, n);
    }
    if b < a {
      MultipleGap(b, a, n);
    }
  }
}
