/** Protocol parameters: overrides, their merge with the defaults, validation, and generated values. */
module Params {
  import opened Wrappers
  import opened Decimal
  import RangeSyntax
  import Cps
  import PoolView

  type Range16 = RangeSyntax.Range16

  datatype Version = V2 | V31

  /**
   junk: Jc, Jmin, Jmax. padding: S1..S4. headers: H1..H4. packets: I1..I5. toggles: RandomTrailers, DisableCookies.
   ranges: ContentPaddingAddition, RekeyAfterTime, RekeyTimeout, RejectAfterTime, KeepaliveTimeout,
   MaxHandshakeAttempts. Zero, empty and None mean "inherit".
   */
  datatype RawParams = Params(
    port: int,
    clientListenPort: int,
    mtu: int,
    keepalive: Option<Range16>,
    junk: seq<int>,
    padding: seq<int>,
    headers: seq<string>,
    packets: seq<string>,
    ranges: seq<Option<Range16>>,
    toggles: seq<string>)

  predicate Shaped(p: RawParams) {
    |p.junk| == 3 && |p.padding| == 4 && |p.headers| == 4 && |p.packets| == 5 && |p.ranges| == 6 && |p.toggles| == 2
  }

  const NO_PARAMS: RawParams :=
    Params(0, 0, 0, None, [0, 0, 0], [0, 0, 0, 0], ["", "", "", ""], ["", "", "", "", ""],
           [None, None, None, None, None, None], ["", ""])

  type AWGParams = p: RawParams | Shaped(p) witness NO_PARAMS

  const UINT32_LIMIT := 0x1_0000_0000
  const MIN_MTU := 1280
  const MAX_MTU := 1420
  const JUNK_LIMITS := [128, 1280, 1280]
  const PADDING_LIMITS := [1132, 1188, 64, 32]
  const MIN_PADDING_V31 := 12

  datatype HeaderRange = HeaderRange(start: nat, end: nat)

  /** An unsigned decimal or a start-end range of 32-bit values. */
  function ParseHeader(value: string): (r: Option<HeaderRange>)
    ensures r.Some? ==> r.value.start <= r.value.end < UINT32_LIMIT
  {
    var parts := Split(value, '-');
    if |parts| > 2 then None
    else
      var start := ParseBelow(parts[0], UINT32_LIMIT);
      var end := if |parts| == 2 then ParseBelow(parts[1], UINT32_LIMIT) else start;
      if start.None? || end.None? || start.value > end.value then None
      else Some(HeaderRange(start.value, end.value))
  }

  /** A header is one 32-bit number, or two in order with a dash between them. */
  lemma ParseHeaderIff(value: string, r: HeaderRange)
    ensures ParseHeader(value) == Some(r) <==>
            || (r.start == r.end && Writes(value, r.start, UINT32_LIMIT))
            || (r.start <= r.end && WritesPair(value, '-', r.start, r.end, UINT32_LIMIT))
  {
    NumbersInText(value, '-', r.start, r.end, UINT32_LIMIT);
  }

  // ---------------------------------------------------------------------------------------------
  // Validation
  // ---------------------------------------------------------------------------------------------

  predicate ValidToggle(s: string) {
    s == "" || s == "on" || s == "off"
  }

  predicate InLimits(values: seq<int>, limits: seq<int>)
    requires |values| == |limits|
  {
    forall i :: 0 <= i < |values| ==> 0 <= values[i] <= limits[i]
  }

  /** Fields that only protocol 3.1 knows are refused for 2.0. */
  predicate ValidForVersion(version: Version, p: AWGParams) {
    if version == V2 then
      && (p.keepalive.Some? ==> p.keepalive.value.kind == RangeSyntax.Scalar)
      && (forall i :: 0 <= i < 6 ==> p.ranges[i].None?)
      && (forall i :: 0 <= i < 2 ==> p.toggles[i] == "")
    else forall i :: 0 <= i < 2 ==> ValidToggle(p.toggles[i])
  }

  predicate ValidOverrides(version: Version, p: AWGParams) {
    && PoolView.ValidPort(p.port)
    && PoolView.ValidPort(p.clientListenPort)
    && (p.mtu == 0 || MIN_MTU <= p.mtu <= MAX_MTU)
    && ValidForVersion(version, p)
    && InLimits(p.junk, JUNK_LIMITS)
    && InLimits(p.padding, PADDING_LIMITS)
    && (forall i :: 0 <= i < 4 ==> p.headers[i] == "" || ParseHeader(p.headers[i]).Some?)
    && (forall i :: 0 <= i < 5 ==> p.packets[i] == "" || Cps.AcceptedFrom(p.packets[i], 0))
  }

  predicate Apart(a: HeaderRange, b: HeaderRange) {
    a.end < b.start || b.end < a.start
  }

  predicate ValidHeaders(headers: seq<string>)
    requires |headers| == 4
  {
    && (forall i :: 0 <= i < 4 ==> ParseHeader(headers[i]).Some?)
    && (forall i, j :: 0 <= i < j < 4 ==> Apart(ParseHeader(headers[i]).value, ParseHeader(headers[j]).value))
  }

  predicate ValidJunk(junk: seq<int>)
    requires |junk| == 3
  {
    junk[0] > 0 ==> junk[1] > 0 && junk[2] > 0 && junk[1] < junk[2]
  }

  predicate ValidPadding(version: Version, padding: seq<int>)
    requires |padding| == 4
  {
    && (version == V31 ==> forall i :: 0 <= i < 4 ==> padding[i] >= MIN_PADDING_V31)
    && padding[0] + 56 != padding[1]
  }

  /** A complete effective profile. */
  predicate ValidProfile(version: Version, p: AWGParams) {
    ValidOverrides(version, p) && ValidPadding(version, p.padding) && ValidJunk(p.junk) && ValidHeaders(p.headers)
  }

  lemma EmptyHeaderRefused()
    ensures ParseHeader("").None?
  {
    SplitWhole("", '-');
  }

  /** The text denotes the range. */
  ghost predicate Denoted(s: string, r: HeaderRange) {
    || (r.start == r.end && Writes(s, r.start, UINT32_LIMIT))
    || (r.start <= r.end && WritesPair(s, '-', r.start, r.end, UINT32_LIMIT))
  }

  /** The four texts denote these ranges, which are pairwise disjoint. */
  ghost predicate DenotesApart(headers: seq<string>, rs: seq<HeaderRange>)
    requires |headers| == 4
  {
    && |rs| == 4 && (forall i :: 0 <= i < 4 ==> Denoted(headers[i], rs[i]))
    && (forall i, j :: 0 <= i < j < 4 ==> Apart(rs[i], rs[j]))
  }

  ghost predicate DenoteDisjoint(headers: seq<string>)
    requires |headers| == 4
  {
    exists rs: seq<HeaderRange> :: DenotesApart(headers, rs)
  }

  lemma HeadersIff(headers: seq<string>)
    requires |headers| == 4
    ensures ValidHeaders(headers) <==> DenoteDisjoint(headers)
  {
    hide DenotesApart, ValidHeaders;
    if ValidHeaders(headers) {
      DenotedOf(headers);
    }
    if rs: seq<HeaderRange> :| DenotesApart(headers, rs) {
      DenotedValid(headers, rs);
    }
  }

  lemma DenotedOf(headers: seq<string>)
    requires |headers| == 4 && ValidHeaders(headers)
    ensures exists rs: seq<HeaderRange> :: DenotesApart(headers, rs)
  {
    hide ParseHeader, Denoted;
    HeadersParse(headers);
    var rs := seq(4, i requires 0 <= i < 4 => ParseHeader(headers[i]).value);
    forall i | 0 <= i < 4
      ensures Denoted(headers[i], rs[i])
    {
      HeaderDenotes(headers[i], rs[i]);
    }
    assert DenotesApart(headers, rs);
  }

  lemma DenotedValid(headers: seq<string>, rs: seq<HeaderRange>)
    requires |headers| == 4 && DenotesApart(headers, rs)
    ensures ValidHeaders(headers)
  {
    hide ParseHeader, Denoted;
    forall i | 0 <= i < 4
      ensures ParseHeader(headers[i]) == Some(rs[i])
    {
      HeaderDenotes(headers[i], rs[i]);
    }
    forall i, j | 0 <= i < j < 4
      ensures Apart(ParseHeader(headers[i]).value, ParseHeader(headers[j]).value)
    {
      assert Apart(rs[i], rs[j]);
    }
  }

  lemma HeaderDenotes(s: string, r: HeaderRange)
    ensures ParseHeader(s) == Some(r) <==> Denoted(s, r)
  {
    ParseHeaderIff(s, r);
  }

  /** What a complete profile must satisfy, in the numbers and languages of its documentation. */
  ghost predicate CompleteProfile(version: Version, p: AWGParams) {
    && (p.port == 0 || 1024 <= p.port <= 65535)
    && (p.clientListenPort == 0 || 1024 <= p.clientListenPort <= 65535)
    && (p.mtu == 0 || 1280 <= p.mtu <= 1420)
    && 0 <= p.junk[0] <= 128 && 0 <= p.junk[1] <= 1280 && 0 <= p.junk[2] <= 1280
    && (p.junk[0] > 0 ==> 0 < p.junk[1] < p.junk[2])
    && 0 <= p.padding[0] <= 1132 && 0 <= p.padding[1] <= 1188 && 0 <= p.padding[2] <= 64 && 0 <= p.padding[3] <= 32
    && p.padding[0] + 56 != p.padding[1]
    && DenoteDisjoint(p.headers)
    && (forall i :: 0 <= i < 5 ==> p.packets[i] == "" || Cps.InLanguage(p.packets[i]))
    && (match version
        case V2 =>
          && ScalarKeepalive(p) && p.toggles == ["", ""]
          && forall i :: 0 <= i < 6 ==> p.ranges[i].None?
        case V31 =>
          && (forall i :: 0 <= i < 2 ==> p.toggles[i] == "" || p.toggles[i] == "on" || p.toggles[i] == "off")
          && forall i :: 0 <= i < 4 ==> p.padding[i] >= 12)
  }

  predicate ScalarKeepalive(p: AWGParams) {
    p.keepalive.Some? ==> p.keepalive.value.kind == RangeSyntax.Scalar
  }

  /** Validation accepts exactly the complete profiles. */
  lemma ValidProfileIff(version: Version, p: AWGParams)
    ensures ValidProfile(version, p) <==> CompleteProfile(version, p)
  {
    hide ParseHeader, Cps.AcceptedFrom, Cps.InLanguage, DenoteDisjoint, ValidHeaders, InLimits;
    HeadersIff(p.headers);
    forall i | 0 <= i < 5
      ensures Cps.AcceptedFrom(p.packets[i], 0) <==> Cps.InLanguage(p.packets[i])
    {
      Cps.AcceptedIffInLanguage(p.packets[i]);
    }
    LimitsOf(p);
    if ValidHeaders(p.headers) {
      HeadersParse(p.headers);
    }
  }

  lemma LimitsOf(p: AWGParams)
    ensures InLimits(p.junk, JUNK_LIMITS) <==>
            0 <= p.junk[0] <= 128 && 0 <= p.junk[1] <= 1280 && 0 <= p.junk[2] <= 1280
    ensures InLimits(p.padding, PADDING_LIMITS) <==>
            && 0 <= p.padding[0] <= 1132 && 0 <= p.padding[1] <= 1188 && 0 <= p.padding[2] <= 64 && 0 <= p.padding[3] <= 32
  {
  }

  /** The pairwise overlap check of the effective profile's headers. */
  method CheckHeaders(headers: seq<string>) returns (ok: bool)
    requires |headers| == 4
    ensures ok == ValidHeaders(headers)
  {
    hide ParseHeader;
    EmptyHeaderRefused();
    var ranges: seq<HeaderRange> := [];
    var i := 0;
    while i < |headers|
      invariant 0 <= i <= 4 && |ranges| == i
      invariant forall k :: 0 <= k < i ==> ParseHeader(headers[k]) == Some(ranges[k])
    {
      if headers[i] == "" {
        return false;
      }
      var parsed := ParseHeader(headers[i]);
      if parsed.None? {
        return false;
      }
      ranges := ranges + [parsed.value];
      i := i + 1;
    }
    i := 0;
    while i < |ranges|
      invariant 0 <= i <= 4
      invariant forall a, b :: 0 <= a < i && a < b < 4 ==> Apart(ranges[a], ranges[b])
    {
      var j := i + 1;
      while j < |ranges|
        invariant i + 1 <= j <= 4
        invariant forall b :: i < b < j ==> Apart(ranges[i], ranges[b])
      {
        if !(ranges[i].end < ranges[j].start || ranges[j].end < ranges[i].start) {
          assert !Apart(ParseHeader(headers[i]).value, ParseHeader(headers[j]).value);
          return false;
        }
        j := j + 1;
      }
      i := i + 1;
    }
    return true;
  }

  // ---------------------------------------------------------------------------------------------
  // Merging overrides with the defaults
  // ---------------------------------------------------------------------------------------------

  function MergeInts(base: seq<int>, over: seq<int>): (r: seq<int>)
    requires |base| == |over|
    ensures |r| == |base| && forall i :: 0 <= i < |r| ==> r[i] == if over[i] > 0 then over[i] else base[i]
  {
    seq(|base|, i requires 0 <= i < |base| => if over[i] > 0 then over[i] else base[i])
  }

  function MergeTexts(base: seq<string>, over: seq<string>): (r: seq<string>)
    requires |base| == |over|
    ensures |r| == |base| && forall i :: 0 <= i < |r| ==> r[i] == if over[i] != "" then over[i] else base[i]
  {
    seq(|base|, i requires 0 <= i < |base| => if over[i] != "" then over[i] else base[i])
  }

  function MergeOptions(base: seq<Option<Range16>>, over: seq<Option<Range16>>): (r: seq<Option<Range16>>)
    requires |base| == |over|
    ensures |r| == |base| && forall i :: 0 <= i < |r| ==> r[i] == if over[i].Some? then over[i] else base[i]
  {
    seq(|base|, i requires 0 <= i < |base| => if over[i].Some? then over[i] else base[i])
  }

  function Effective(base: AWGParams, over: Option<AWGParams>): (r: AWGParams) {
    if over.None? then base
    else
      var o := over.value;
      Params(
        if o.port > 0 then o.port else base.port,
        if o.clientListenPort > 0 then o.clientListenPort else base.clientListenPort,
        if o.mtu > 0 then o.mtu else base.mtu,
        if o.keepalive.Some? then o.keepalive else base.keepalive,
        MergeInts(base.junk, o.junk),
        MergeInts(base.padding, o.padding),
        MergeTexts(base.headers, o.headers),
        MergeTexts(base.packets, o.packets),
        MergeOptions(base.ranges, o.ranges),
        MergeTexts(base.toggles, o.toggles))
  }

  /** A field that the override sets is the effective one. */
  lemma SetFieldsWin(base: AWGParams, o: AWGParams)
    ensures var e := Effective(base, Some(o));
            && (o.port > 0 ==> e.port == o.port)
            && (o.clientListenPort > 0 ==> e.clientListenPort == o.clientListenPort)
            && (o.mtu > 0 ==> e.mtu == o.mtu)
            && (o.keepalive.Some? ==> e.keepalive == o.keepalive)
            && (forall i :: 0 <= i < 3 && o.junk[i] > 0 ==> e.junk[i] == o.junk[i])
            && (forall i :: 0 <= i < 4 && o.padding[i] > 0 ==> e.padding[i] == o.padding[i])
            && (forall i :: 0 <= i < 4 && o.headers[i] != "" ==> e.headers[i] == o.headers[i])
            && (forall i :: 0 <= i < 5 && o.packets[i] != "" ==> e.packets[i] == o.packets[i])
            && (forall i :: 0 <= i < 6 && o.ranges[i].Some? ==> e.ranges[i] == o.ranges[i])
            && (forall i :: 0 <= i < 2 && o.toggles[i] != "" ==> e.toggles[i] == o.toggles[i])
  {
  }

  /** A field that the override leaves unset is the default's. */
  lemma UnsetFieldsInherit(base: AWGParams, o: AWGParams)
    ensures Effective(base, None) == base
    ensures var e := Effective(base, Some(o));
            && (o.port <= 0 ==> e.port == base.port)
            && (o.clientListenPort <= 0 ==> e.clientListenPort == base.clientListenPort)
            && (o.mtu <= 0 ==> e.mtu == base.mtu)
            && (o.keepalive.None? ==> e.keepalive == base.keepalive)
            && (forall i :: 0 <= i < 3 && o.junk[i] <= 0 ==> e.junk[i] == base.junk[i])
            && (forall i :: 0 <= i < 4 && o.padding[i] <= 0 ==> e.padding[i] == base.padding[i])
            && (forall i :: 0 <= i < 4 && o.headers[i] == "" ==> e.headers[i] == base.headers[i])
            && (forall i :: 0 <= i < 5 && o.packets[i] == "" ==> e.packets[i] == base.packets[i])
            && (forall i :: 0 <= i < 6 && o.ranges[i].None? ==> e.ranges[i] == base.ranges[i])
            && (forall i :: 0 <= i < 2 && o.toggles[i] == "" ==> e.toggles[i] == base.toggles[i])
  {
  }

  function CanonicalOption(r: Option<Range16>): Option<Range16> {
    if r.Some? then Some(RangeSyntax.Canonical(r.value)) else None
  }

  function CanonicalRanges(rs: seq<Option<Range16>>): (r: seq<Option<Range16>>)
    ensures |r| == |rs| && forall i :: 0 <= i < |rs| ==> r[i] == CanonicalOption(rs[i])
  {
    seq(|rs|, i requires 0 <= i < |rs| => CanonicalOption(rs[i]))
  }

  function Canonicalized(p: AWGParams): (r: AWGParams) {
    p.(keepalive := CanonicalOption(p.keepalive), ranges := CanonicalRanges(p.ranges))
  }

  /** What is stored for an override: canonical ranges, and nothing at all when every field inherits. */
  function Normalized(version: Version, over: Option<AWGParams>): (r: Result<Option<AWGParams>, ()>) {
    if over.None? then Ok(None)
    else if !ValidOverrides(version, over.value) then Err(())
    else
      var n := Canonicalized(over.value);
      if n == NO_PARAMS then Ok(None) else Ok(Some(n))
  }

  /** Exactly the valid overrides are stored. */
  lemma NormalizedAccepts(version: Version, over: Option<AWGParams>)
    ensures Normalized(version, over).Ok? <==> over.None? || ValidOverrides(version, over.value)
  {
    hide ValidOverrides, Canonicalized, NO_PARAMS;
  }

  /** The stored form keeps every field; ranges are written canonically, and an override that sets nothing is not stored. */
  ghost predicate StoredForm(o: AWGParams, n: Option<AWGParams>) {
    var s := if n.Some? then n.value else NO_PARAMS;
    && s.port == o.port && s.clientListenPort == o.clientListenPort && s.mtu == o.mtu
    && s.junk == o.junk && s.padding == o.padding && s.headers == o.headers && s.packets == o.packets && s.toggles == o.toggles
    && s.keepalive == CanonicalOption(o.keepalive)
    && (forall i :: 0 <= i < 6 ==> s.ranges[i] == CanonicalOption(o.ranges[i]))
    && n != Some(NO_PARAMS)
  }

  lemma NormalizedKeeps(version: Version, o: AWGParams)
    requires Normalized(version, Some(o)).Ok?
    ensures StoredForm(o, Normalized(version, Some(o)).value)
  {
    hide ValidOverrides, NO_PARAMS, CanonicalOption;
  }

  /** Storing the normal form of an override changes nothing it is for: the effective profile is the same, ranges canonical. */
  lemma StoredFormMerges(base: AWGParams, o: AWGParams, n: Option<AWGParams>)
    requires StoredForm(o, n)
    ensures var e, e' := Effective(base, Some(o)), Effective(base, n);
            && e'.port == e.port && e'.clientListenPort == e.clientListenPort && e'.mtu == e.mtu
            && e'.junk == e.junk && e'.padding == e.padding && e'.headers == e.headers
            && e'.packets == e.packets && e'.toggles == e.toggles
            && e'.keepalive == (if o.keepalive.Some? then CanonicalOption(o.keepalive) else base.keepalive)
            && forall i :: 0 <= i < 6 ==>
                 e'.ranges[i] == if o.ranges[i].Some? then CanonicalOption(o.ranges[i]) else base.ranges[i]
  {
    var e, e' := Effective(base, Some(o)), Effective(base, n);
    assert e'.junk == e.junk;
    assert e'.padding == e.padding;
    assert e'.headers == e.headers;
    assert e'.packets == e.packets;
    assert e'.toggles == e.toggles;
  }

  /** Validity looks at ranges only for being there, and at the keepalive only for being a scalar. */
  lemma SameValidity(version: Version, e: AWGParams, e': AWGParams)
    requires e'.port == e.port && e'.clientListenPort == e.clientListenPort && e'.mtu == e.mtu
    requires e'.junk == e.junk && e'.padding == e.padding && e'.headers == e.headers
    requires e'.packets == e.packets && e'.toggles == e.toggles
    requires version == V2 ==> (ScalarKeepalive(e') <==> ScalarKeepalive(e))
    requires forall i :: 0 <= i < 6 ==> (e'.ranges[i].None? <==> e.ranges[i].None?)
    ensures ValidProfile(version, e') <==> ValidProfile(version, e)
  {
    hide ParseHeader, Cps.AcceptedFrom, ValidHeaders, ValidPadding, ValidJunk, InLimits;
  }

  /** The stored form of a valid override makes a valid profile exactly when the override itself does. */
  lemma StoredFormValid(version: Version, base: AWGParams, o: AWGParams, n: Option<AWGParams>)
    requires ValidOverrides(version, o) && StoredForm(o, n)
    ensures ValidProfile(version, Effective(base, n)) <==> ValidProfile(version, Effective(base, Some(o)))
  {
    hide ValidProfile, Effective, StoredForm, ParseHeader, Cps.AcceptedFrom, InLimits;
    StoredFormMerges(base, o, n);
    SetFieldsWin(base, o);
    UnsetFieldsInherit(base, o);
    SameValidity(version, Effective(base, Some(o)), Effective(base, n));
  }

  // ---------------------------------------------------------------------------------------------
  // Generated parameters
  // ---------------------------------------------------------------------------------------------

  datatype Generated = Generated(headers: seq<string>, padding: seq<int>)

  /** Generated values for 3.1 as they are stored. */
  type Generated31 = g: Generated | |g.headers| == 4 && |g.padding| == 4
    witness Generated(["", "", "", ""], [0, 0, 0, 0])

  /** The four header tiers: the ranges [tier, 8 * tier) for tier = 10^5 .. 10^8. */
  const TIERS: seq<nat> := [100_000, 1_000_000, 10_000_000, 100_000_000]

  /** min + n % (max - min), the draw from 32 random bits. */
  function Draw(n: nat, min: nat, max: nat): (r: nat)
    requires min < max
    ensures min <= r < max
  {
    min + n % (max - min)
  }

  /** Every value of the interval is some word's draw. */
  lemma DrawReaches(value: nat, min: nat, max: nat)
    requires min <= value < max
    ensures Draw(value - min, min, max) == value
  {
  }

  /** A 2.0 header: a range around the middle of the tier. */
  function HeaderSpan(tier: nat, lo: nat, hi: nat): (s: string)
    requires 0 < tier
  {
    var mid := tier + (8 * tier - tier) / 2;
    Print(Draw(lo, tier, mid)) + "-" + Print(Draw(hi, mid, 8 * tier))
  }

  /** A 3.1 header: one value of the tier. */
  function HeaderValue(tier: nat, n: nat): (s: string)
    requires 0 < tier
  {
    Print(Draw(n, tier, 8 * tier))
  }

  lemma PrintedParts(m: nat, n: nat)
    requires m <= n < UINT32_LIMIT
    ensures ParseHeader(Print(m) + "-" + Print(n)) == Some(HeaderRange(m, n))
    ensures ParseHeader(Print(n)) == Some(HeaderRange(n, n))
  {
    ParsePrinted(m, UINT32_LIMIT);
    ParsePrinted(n, UINT32_LIMIT);
    RangeSyntax.DigitsOnly(Print(m));
    RangeSyntax.DigitsOnly(Print(n));
    SplitTwo(Print(m), Print(n), '-');
    SplitWhole(Print(n), '-');
    assert Print(m) + "-" + Print(n) == Print(m) + ['-'] + Print(n);
  }

  /** Every value of a tier is some word's 3.1 header, and every pair around its middle some two words' 2.0 header. */
  lemma HeadersReach(tier: nat, lo: nat, hi: nat)
    requires 0 < tier && 8 * tier <= UINT32_LIMIT && tier <= lo < 8 * tier
    ensures ParseHeader(HeaderValue(tier, lo - tier)) == Some(HeaderRange(lo, lo))
    ensures var mid := tier + (8 * tier - tier) / 2;
            lo < mid <= hi < 8 * tier ==> ParseHeader(HeaderSpan(tier, lo - tier, hi - mid)) == Some(HeaderRange(lo, hi))
  {
    hide ParseHeader, Print, Draw;
    var mid := tier + (8 * tier - tier) / 2;
    DrawReaches(lo, tier, 8 * tier);
    PrintedParts(lo, lo);
    if lo < mid <= hi < 8 * tier {
      DrawReaches(lo, tier, mid);
      DrawReaches(hi, mid, 8 * tier);
      PrintedParts(lo, hi);
    }
  }

  /** Every printed header parses back into its own tier. */
  ghost predicate InTier(s: string, tier: nat) {
    ParseHeader(s).Some? && tier <= ParseHeader(s).value.start && ParseHeader(s).value.end < 8 * tier
  }

  lemma SpanInTier(tier: nat, lo: nat, hi: nat)
    requires 0 < tier && 8 * tier <= UINT32_LIMIT
    ensures InTier(HeaderSpan(tier, lo, hi), tier)
  {
    hide ParseHeader, Print;
    var mid := tier + (8 * tier - tier) / 2;
    PrintedParts(Draw(lo, tier, mid), Draw(hi, mid, 8 * tier));
  }

  lemma ValueInTier(tier: nat, n: nat)
    requires 0 < tier && 8 * tier <= UINT32_LIMIT
    ensures InTier(HeaderValue(tier, n), tier)
  {
    hide ParseHeader, Print;
    PrintedParts(Draw(n, tier, 8 * tier), Draw(n, tier, 8 * tier));
  }

  ghost predicate Tiered(headers: seq<string>) {
    |headers| == 4 && forall i :: 0 <= i < 4 ==> InTier(headers[i], TIERS[i])
  }

  lemma TieredHeadersValid(headers: seq<string>)
    requires Tiered(headers)
    ensures ValidHeaders(headers)
    ensures forall i :: 0 <= i < 4 ==> headers[i] != ""
  {
    hide ParseHeader;
    EmptyHeaderRefused();
    assert InTier(headers[0], TIERS[0]) && InTier(headers[1], TIERS[1]) && InTier(headers[2], TIERS[2]) && InTier(headers[3], TIERS[3]);
  }

  /** S1 and S2 as generated for both versions. */
  ghost predicate PaddingDrawn(s1: int, s2: int) {
    15 <= s1 <= 150 && 15 <= s2 <= 150 && s1 + 56 != s2
  }

  /** Draws S2 until it differs from S1 + 56; running out of random words is a read error. */
  method DrawPadding(words: seq<nat>, first: nat) returns (r: Option<(nat, nat, nat)>)
    ensures r.Some? ==> PaddingDrawn(r.value.0, r.value.1)
  {
    if first >= |words| {
      return None;
    }
    var s1 := Draw(words[first], 15, 151);
    var next := first + 1;
    while next < |words|
      invariant first + 1 <= next <= |words|
    {
      var s2 := Draw(words[next], 15, 151);
      next := next + 1;
      if s1 + 56 != s2 {
        return Some((s1, s2, next));
      }
    }
    return None;
  }

  /** Generated values fit the version whatever the random source returns. */
  ghost predicate FitsVersion(version: Version, g: Generated) {
    && |g.headers| == 4 && Tiered(g.headers)
    && |g.padding| == (if version == V2 then 2 else 4)
    && PaddingDrawn(g.padding[0], g.padding[1])
    && (version == V31 ==> 15 <= g.padding[2] <= 63 && g.padding[3] == 12)
  }

  method GenerateParams(words: seq<nat>) returns (r: Option<Generated>)
    ensures r.Some? ==> FitsVersion(V2, r.value)
  {
    hide InTier, HeaderSpan;
    if |words| < 8 {
      return None;
    }
    var headers: seq<string> := [];
    var i := 0;
    while i < 4
      invariant 0 <= i <= 4 && |headers| == i
      invariant forall k :: 0 <= k < i ==> InTier(headers[k], TIERS[k])
    {
      SpanInTier(TIERS[i], words[2 * i], words[2 * i + 1]);
      headers := headers + [HeaderSpan(TIERS[i], words[2 * i], words[2 * i + 1])];
      i := i + 1;
    }
    var padding := DrawPadding(words, 8);
    if padding.None? {
      return None;
    }
    return Some(Generated(headers, [padding.value.0, padding.value.1]));
  }

  method GenerateParamsV31(words: seq<nat>) returns (r: Option<Generated>)
    ensures r.Some? ==> FitsVersion(V31, r.value)
  {
    hide InTier, HeaderValue;
    if |words| < 4 {
      return None;
    }
    var headers: seq<string> := [];
    var i := 0;
    while i < 4
      invariant 0 <= i <= 4 && |headers| == i
      invariant forall k :: 0 <= k < i ==> InTier(headers[k], TIERS[k])
    {
      ValueInTier(TIERS[i], words[i]);
      headers := headers + [HeaderValue(TIERS[i], words[i])];
      i := i + 1;
    }
    var padding := DrawPadding(words, 4);
    if padding.None? || padding.value.2 >= |words| {
      return None;
    }
    var s3 := Draw(words[padding.value.2], 15, 64);
    return Some(Generated(headers, [padding.value.0, padding.value.1, s3, 12]));
  }

  /** Overlays generated values on an override; 2.0 keeps the override's S3 and S4. */
  function ApplyGenerated(over: Option<AWGParams>, g: Generated): (r: AWGParams)
    requires |g.headers| == 4 && (|g.padding| == 2 || |g.padding| == 4)
  {
    var p: AWGParams := if over.Some? then over.value else NO_PARAMS;
    p.(headers := g.headers, padding := g.padding + p.padding[|g.padding|..])
  }

  lemma OverlayValid(version: Version, over: Option<AWGParams>, g: Generated)
    requires FitsVersion(version, g)
    requires over.Some? ==> ValidOverrides(version, over.value)
    ensures ValidOverrides(version, ApplyGenerated(over, g))
  {
    hide Tiered, ParseHeader, Cps.AcceptedFrom;
    TieredHeadersValid(g.headers);
    var r := ApplyGenerated(over, g);
    assert r.padding[0] == g.padding[0] && r.padding[1] == g.padding[1];
    assert version == V2 && over.Some? ==> r.padding[2] == over.value.padding[2] && r.padding[3] == over.value.padding[3];
    assert version == V31 ==> r.padding[2] == g.padding[2] && r.padding[3] == g.padding[3];
  }

  lemma CanonicalizedValid(version: Version, p: AWGParams)
    requires ValidOverrides(version, p)
    ensures ValidOverrides(version, Canonicalized(p))
  {
    hide ParseHeader, Cps.AcceptedFrom;
  }

  /** Everything the generated values do not replace merges as before, up to the canonical form of ranges. */
  lemma OverlayMerges(base: AWGParams, over: Option<AWGParams>, g: Generated)
    requires |g.headers| == 4 && (|g.padding| == 2 || |g.padding| == 4)
    ensures var e, e' := Effective(base, over), Effective(base, Some(Canonicalized(ApplyGenerated(over, g))));
            && e'.port == e.port && e'.clientListenPort == e.clientListenPort && e'.mtu == e.mtu
            && e'.junk == e.junk && e'.packets == e.packets && e'.toggles == e.toggles
            && (e'.keepalive == e.keepalive || e'.keepalive == CanonicalOption(e.keepalive))
            && (forall i :: 0 <= i < 6 ==> (e'.ranges[i].Some? <==> e.ranges[i].Some?))
            && e'.headers == MergeTexts(base.headers, g.headers)
            && |e'.padding| == 4 && forall i :: 0 <= i < 4 ==>
                 e'.padding[i] == if i >= |g.padding| then e.padding[i]
                                  else if g.padding[i] > 0 then g.padding[i] else base.padding[i]
  {
    var n := Canonicalized(ApplyGenerated(over, g));
    var e, e' := Effective(base, over), Effective(base, Some(n));
    assert e'.junk == e.junk;
    assert e'.packets == e.packets;
    assert e'.toggles == e.toggles;
  }

  /** Regeneration keeps the profile valid: the overlaid override is stored, and merging it gives a valid profile. */
  lemma RegenerationValid(version: Version, base: AWGParams, over: Option<AWGParams>, g: Generated)
    requires FitsVersion(version, g)
    requires over.Some? ==> ValidOverrides(version, over.value)
    requires ValidProfile(version, Effective(base, over))
    ensures Normalized(version, Some(ApplyGenerated(over, g))) == Ok(Some(Canonicalized(ApplyGenerated(over, g))))
    ensures ValidProfile(version, Effective(base, Some(Canonicalized(ApplyGenerated(over, g)))))
  {
    hide Tiered, ParseHeader, Cps.AcceptedFrom, ValidHeaders, ValidOverrides, ValidProfile, Effective, Canonicalized,
         ApplyGenerated, Normalized, NO_PARAMS;
    TieredHeadersValid(g.headers);
    OverlayValid(version, over, g);
    OverlayMerges(base, over, g);
    OverlayStored(over, g);
    RegeneratedFields(version, base, Effective(base, over), Effective(base, Some(Canonicalized(ApplyGenerated(over, g)))), g);
    StoredAsGiven(version, ApplyGenerated(over, g));
  }

  lemma StoredAsGiven(version: Version, p: AWGParams)
    requires ValidOverrides(version, p) && Canonicalized(p) != NO_PARAMS
    ensures Normalized(version, Some(p)) == Ok(Some(Canonicalized(p)))
  {
    hide ValidOverrides, Canonicalized, NO_PARAMS;
  }

  lemma RegeneratedFields(version: Version, base: AWGParams, e: AWGParams, e': AWGParams, g: Generated)
    requires FitsVersion(version, g) && ValidHeaders(g.headers)
    requires forall i :: 0 <= i < 4 ==> g.headers[i] != ""
    requires ValidProfile(version, e)
    requires e'.port == e.port && e'.clientListenPort == e.clientListenPort && e'.mtu == e.mtu
    requires e'.junk == e.junk && e'.packets == e.packets && e'.toggles == e.toggles
    requires e'.keepalive == e.keepalive || e'.keepalive == CanonicalOption(e.keepalive)
    requires forall i :: 0 <= i < 6 ==> (e'.ranges[i].Some? <==> e.ranges[i].Some?)
    requires e'.headers == MergeTexts(base.headers, g.headers)
    requires forall i :: 0 <= i < 4 ==>
               e'.padding[i] == if i >= |g.padding| then e.padding[i]
                                else if g.padding[i] > 0 then g.padding[i] else base.padding[i]
    ensures ValidProfile(version, e')
  {
    hide Tiered, ParseHeader, Cps.AcceptedFrom, ValidHeaders, NO_PARAMS;
    assert e'.headers == g.headers;
    HeadersParse(e'.headers);
    assert InLimits(e'.padding, PADDING_LIMITS) by {
      assert InLimits(e.padding, PADDING_LIMITS);
    }
  }

  lemma HeadersParse(headers: seq<string>)
    requires |headers| == 4 && ValidHeaders(headers)
    ensures forall i :: 0 <= i < 4 ==> ParseHeader(headers[i]).Some?
  {
  }

  lemma OverlayStored(over: Option<AWGParams>, g: Generated)
    requires |g.headers| == 4 && (|g.padding| == 2 || |g.padding| == 4) && g.headers[0] != ""
    ensures Canonicalized(ApplyGenerated(over, g)) != NO_PARAMS
  {
    assert Canonicalized(ApplyGenerated(over, g)).headers[0] != NO_PARAMS.headers[0];
  }
}
