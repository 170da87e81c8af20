/** Interface identity: the byte stream that is hashed into a profile key, and what two profiles with one key share. */
module ProfileIdentity {
  import opened Wrappers
  import opened Params
  import RangeSyntax

  // ---------------------------------------------------------------------------------------------
  // The stream: fixed-width integers mixed with length-prefixed bytes
  // ---------------------------------------------------------------------------------------------

  datatype Field =
    | Number(n: nat)
    | Pair(start: nat, end: nat)
    | Bytes(bytes: seq<int>)

  function Pow256(w: nat): (p: nat)
    ensures p >= 1
  {
    if w == 0 then 1 else 256 * Pow256(w - 1)
  }

  function BigEndian(n: nat, w: nat): (bytes: seq<int>)
    ensures |bytes| == w
  {
    if w == 0 then [] else BigEndian(n / 256, w - 1) + [n % 256]
  }

  /** Numbers take 8 bytes, header ranges 4 + 4, and byte strings a 4-byte length first. */
  function Encode(f: Field): (bytes: seq<int>) {
    match f
    case Number(n) => BigEndian(n, 8)
    case Pair(start, end) => BigEndian(start, 4) + BigEndian(end, 4)
    case Bytes(b) => BigEndian(|b|, 4) + b
  }

  predicate Fits(f: Field) {
    match f
    case Number(n) => n < Pow256(8)
    case Pair(start, end) => start < Pow256(4) && end < Pow256(4)
    case Bytes(b) => |b| < Pow256(4)
  }

  function Stream(fs: seq<Field>): (bytes: seq<int>) {
    if fs == [] then [] else Encode(fs[0]) + Stream(fs[1..])
  }

  ghost predicate AllFit(fs: seq<Field>) {
    forall i :: 0 <= i < |fs| ==> Fits(fs[i])
  }

  ghost predicate SameKind(f: Field, g: Field) {
    && (f.Number? <==> g.Number?)
    && (f.Pair? <==> g.Pair?)
  }

  ghost predicate SameLayout(fs: seq<Field>, gs: seq<Field>) {
    |fs| == |gs| && forall i :: 0 <= i < |fs| ==> SameKind(fs[i], gs[i])
  }

  lemma {:induction false} BigEndianInjective(m: nat, n: nat, w: nat)
    requires m < Pow256(w) && n < Pow256(w) && BigEndian(m, w) == BigEndian(n, w)
    ensures m == n
  {
    if w > 0 {
      var a, b := BigEndian(m, w), BigEndian(n, w);
      assert a[..w - 1] == BigEndian(m / 256, w - 1) && b[..w - 1] == BigEndian(n / 256, w - 1);
      assert a[w - 1] == m % 256 && b[w - 1] == n % 256;
      BigEndianInjective(m / 256, n / 256, w - 1);
    }
  }

  lemma SplitEqual<T>(a: seq<T>, b: seq<T>, c: seq<T>, d: seq<T>)
    requires a + b == c + d && |a| == |c|
    ensures a == c && b == d
  {
    assert (a + b)[..|a|] == a && (c + d)[..|a|] == c;
    assert (a + b)[|a|..] == b && (c + d)[|a|..] == d;
  }

  /** Two encodings of the same kind that start one stream are equal, and so are the fields. */
  lemma HeadDecodes(f: Field, g: Field, b: seq<int>, d: seq<int>)
    requires SameKind(f, g) && Fits(f) && Fits(g) && Encode(f) + b == Encode(g) + d
    ensures f == g && b == d
  {
    hide BigEndian, Pow256;
    match f {
      case Number(n) =>
        SplitEqual(Encode(f), b, Encode(g), d);
        BigEndianInjective(n, g.n, 8);
      case Pair(start, end) =>
        SplitEqual(Encode(f), b, Encode(g), d);
        SplitEqual(BigEndian(start, 4), BigEndian(end, 4), BigEndian(g.start, 4), BigEndian(g.end, 4));
        BigEndianInjective(start, g.start, 4);
        BigEndianInjective(end, g.end, 4);
      case Bytes(x) =>
        var y := g.bytes;
        assert Encode(f) + b == BigEndian(|x|, 4) + (x + b);
        assert Encode(g) + d == BigEndian(|y|, 4) + (y + d);
        SplitEqual(BigEndian(|x|, 4), x + b, BigEndian(|y|, 4), y + d);
        BigEndianInjective(|x|, |y|, 4);
        SplitEqual(x, b, y, d);
    }
  }

  /** Streams of one layout decode in one way only. */
  lemma {:induction false} UniqueDecoding(fs: seq<Field>, gs: seq<Field>)
    requires SameLayout(fs, gs) && AllFit(fs) && AllFit(gs) && Stream(fs) == Stream(gs)
    ensures fs == gs
  {
    hide Encode, Fits;
    if fs != [] {
      HeadDecodes(fs[0], gs[0], Stream(fs[1..]), Stream(gs[1..]));
      UniqueDecoding(fs[1..], gs[1..]);
      assert fs == [fs[0]] + fs[1..] && gs == [gs[0]] + gs[1..];
    }
  }

  // ---------------------------------------------------------------------------------------------
  // The fields of a profile
  // ---------------------------------------------------------------------------------------------

  const DOMAIN := "awg-server/profile/v1"

  function Codes(s: string): (b: seq<int>)
    ensures |b| == |s|
  {
    seq(|s|, i requires 0 <= i < |s| => s[i] as int)
  }

  lemma CodesInjective(s: string, t: string)
    ensures Codes(s) == Codes(t) <==> s == t
  {
    if Codes(s) == Codes(t) {
      forall i | 0 <= i < |s|
        ensures s[i] == t[i]
      {
        assert Codes(s)[i] == Codes(t)[i];
      }
    }
  }

  function VersionText(v: Version): string {
    if v == V2 then "2.0" else "3.1"
  }

  /** The conversion to an unsigned 64-bit number. */
  function NumberField(n: int): Field {
    Number(n % Pow256(8))
  }

  function HeaderField(h: string): Field {
    var r := ParseHeader(h);
    if r.Some? then Pair(r.value.start, r.value.end) else Pair(0, 0)
  }

  function RangeField(r: Option<Range16>): Field {
    Bytes(if r.None? then [] else Codes(RangeSyntax.ToString(r.value)))
  }

  function TextField(s: string): Field {
    Bytes(Codes(s))
  }

  function KeyField(key: Option<seq<int>>): Field {
    Bytes(if key.Some? then key.value else [])
  }

  function Map<A, B>(f: A -> B, s: seq<A>): (r: seq<B>)
    ensures |r| == |s| && forall i :: 0 <= i < |s| ==> r[i] == f(s[i])
  {
    seq(|s|, i requires 0 <= i < |s| => f(s[i]))
  }

  /** The writes in the order the program makes them. */
  function Fields(version: Version, p: AWGParams, key: Option<seq<int>>): (fs: seq<Field>) {
    Map(TextField, [DOMAIN, VersionText(version)])
    + Map(NumberField, p.junk)
    + Map(NumberField, p.padding)
    + Map(HeaderField, p.headers)
    + Map(RangeField, p.ranges)
    + Map(TextField, p.toggles)
    + [KeyField(key)]
  }

  function Preimage(version: Version, p: AWGParams, key: Option<seq<int>>): (bytes: seq<int>) {
    Stream(Fields(version, p, key))
  }

  // ---------------------------------------------------------------------------------------------
  // What the identity is
  // ---------------------------------------------------------------------------------------------

  /** 32 bytes, not all zero. */
  predicate ValidHeaderKey(key: seq<int>) {
    |key| == 32 && exists i :: 0 <= i < 32 && key[i] != 0
  }

  ghost predicate KeyFits(version: Version, key: Option<seq<int>>) {
    if version == V2 then key.None? else key.Some? && ValidHeaderKey(key.value)
  }

  /** Agreement on version, J and S values, parsed H ranges, canonical 3.1 ranges, toggles and header key. */
  ghost predicate SameIdentity(version: Version, p: AWGParams, key: Option<seq<int>>,
                               version': Version, p': AWGParams, key': Option<seq<int>>)
  {
    && version == version'
    && p.junk == p'.junk
    && p.padding == p'.padding
    && (forall i :: 0 <= i < 4 ==> ParseHeader(p.headers[i]) == ParseHeader(p'.headers[i]))
    && CanonicalRanges(p.ranges) == CanonicalRanges(p'.ranges)
    && p.toggles == p'.toggles
    && key == key'
  }

  lemma PowersOf256()
    ensures Pow256(4) == 0x1_0000_0000 && Pow256(8) > 0x1_0000_0000
  {
    assert Pow256(2) == 65536;
    assert Pow256(6) == 65536 * Pow256(4);
  }

  lemma RangeFieldsAgree(r: Option<Range16>, s: Option<Range16>)
    ensures RangeField(r) == RangeField(s) <==> CanonicalOption(r) == CanonicalOption(s)
  {
    hide RangeSyntax.ToString, RangeSyntax.Canonical;
    if r.Some? {
      RangeSyntax.PrintsAlike(r.value, r.value);
    }
    if s.Some? {
      RangeSyntax.PrintsAlike(s.value, s.value);
    }
    if r.Some? && s.Some? {
      RangeSyntax.PrintsAlike(r.value, s.value);
      CodesInjective(RangeSyntax.ToString(r.value), RangeSyntax.ToString(s.value));
    }
  }

  // ---------------------------------------------------------------------------------------------
  // The groups of fields, one lemma each
  // ---------------------------------------------------------------------------------------------

  /** Lists of fields that can be told apart in a stream. */
  ghost predicate Decodable(fs: seq<Field>, gs: seq<Field>) {
    SameLayout(fs, gs) && AllFit(fs) && AllFit(gs)
  }

  lemma DecodableTogether(a: seq<Field>, b: seq<Field>, c: seq<Field>, d: seq<Field>)
    requires Decodable(a, c) && Decodable(b, d)
    ensures Decodable(a + b, c + d)
    ensures a + b == c + d <==> a == c && b == d
  {
    hide Fits, SameKind;
    if a + b == c + d {
      SplitEqual(a, b, c, d);
    }
  }

  lemma SmallNumber(n: int)
    requires 0 <= n < 0x1_0000_0000
    ensures NumberField(n) == Number(n) && Fits(Number(n))
  {
    hide Pow256;
    PowersOf256();
  }

  lemma NumbersDecode(m: seq<int>, n: seq<int>, limits: seq<int>)
    requires |m| == |n| == |limits| && InLimits(m, limits) && InLimits(n, limits)
    requires forall i :: 0 <= i < |limits| ==> limits[i] < 0x1_0000_0000
    ensures Decodable(Map(NumberField, m), Map(NumberField, n))
    ensures Map(NumberField, m) == Map(NumberField, n) <==> m == n
  {
    hide NumberField, Fits;
    var fs, gs := Map(NumberField, m), Map(NumberField, n);
    forall i | 0 <= i < |m|
      ensures fs[i] == Number(m[i]) && gs[i] == Number(n[i]) && Fits(fs[i]) && Fits(gs[i])
    {
      SmallNumber(m[i]);
      SmallNumber(n[i]);
    }
    if fs == gs {
      assert forall i :: 0 <= i < |m| ==> fs[i] == gs[i];
    }
  }

  lemma HeadersDecode(h: seq<string>, g: seq<string>)
    requires |h| == |g| == 4 && ValidHeaders(h) && ValidHeaders(g)
    ensures Decodable(Map(HeaderField, h), Map(HeaderField, g))
    ensures Map(HeaderField, h) == Map(HeaderField, g) <==>
            forall i :: 0 <= i < 4 ==> ParseHeader(h[i]) == ParseHeader(g[i])
  {
    hide Pow256, ParseHeader, Apart;
    PowersOf256();
    var fs, gs := Map(HeaderField, h), Map(HeaderField, g);
    if fs == gs {
      forall i | 0 <= i < 4
        ensures ParseHeader(h[i]) == ParseHeader(g[i])
      {
        assert fs[i] == gs[i];
      }
    }
  }

  lemma RangeFieldFits(r: Option<Range16>)
    ensures RangeField(r).Bytes? && Fits(RangeField(r))
  {
    hide Pow256, Decimal.Print;
    PowersOf256();
    if r.Some? {
      var c := RangeSyntax.Canonical(r.value);
      ShortPrint(c.start);
      ShortPrint(c.end);
    }
  }

  lemma ShortPrint(n: nat)
    requires n < 65536
    ensures |Decimal.Print(n)| <= 5
  {
    PrintLength(n, 5);
  }

  lemma {:induction false} PrintLength(n: nat, digits: nat)
    requires digits > 0 && n < Pow10(digits)
    ensures |Decimal.Print(n)| <= digits
  {
    if n >= 10 {
      PrintLength(n / 10, digits - 1);
    }
  }

  function Pow10(digits: nat): nat {
    if digits == 0 then 1 else 10 * Pow10(digits - 1)
  }

  lemma RangesDecode(r: seq<Option<Range16>>, s: seq<Option<Range16>>)
    requires |r| == |s|
    ensures Decodable(Map(RangeField, r), Map(RangeField, s))
    ensures Map(RangeField, r) == Map(RangeField, s) <==> CanonicalRanges(r) == CanonicalRanges(s)
  {
    hide RangeField, Fits, CanonicalOption;
    var fs, gs := Map(RangeField, r), Map(RangeField, s);
    forall i | 0 <= i < |r|
      ensures fs[i].Bytes? && gs[i].Bytes? && Fits(fs[i]) && Fits(gs[i])
      ensures fs[i] == gs[i] <==> CanonicalRanges(r)[i] == CanonicalRanges(s)[i]
    {
      RangeFieldFits(r[i]);
      RangeFieldFits(s[i]);
      RangeFieldsAgree(r[i], s[i]);
    }
  }

  ghost predicate ShortTexts(ts: seq<string>) {
    forall i :: 0 <= i < |ts| ==> |ts[i]| <= 64
  }

  lemma TextsDecode(s: seq<string>, t: seq<string>)
    requires |s| == |t| && ShortTexts(s) && ShortTexts(t)
    ensures Decodable(Map(TextField, s), Map(TextField, t))
    ensures Map(TextField, s) == Map(TextField, t) <==> s == t
  {
    hide Pow256, Codes;
    PowersOf256();
    var fs, gs := Map(TextField, s), Map(TextField, t);
    forall i | 0 <= i < |s|
      ensures fs[i] == gs[i] <==> s[i] == t[i]
    {
      CodesInjective(s[i], t[i]);
    }
    assert forall i :: 0 <= i < |s| ==> (fs[i] == gs[i] <==> s[i] == t[i]);
  }

  lemma KeysDecode(version: Version, key: Option<seq<int>>, version': Version, key': Option<seq<int>>)
    requires KeyFits(version, key) && KeyFits(version', key')
    ensures Decodable([KeyField(key)], [KeyField(key')])
    ensures [KeyField(key)] == [KeyField(key')] <==> key == key'
  {
    hide Pow256;
    PowersOf256();
    assert [KeyField(key)][0] == KeyField(key) && [KeyField(key')][0] == KeyField(key');
  }

  /** Texts and numbers, the first three groups. */
  function Leading(version: Version, p: AWGParams): seq<Field> {
    Map(TextField, [DOMAIN, VersionText(version)]) + Map(NumberField, p.junk) + Map(NumberField, p.padding)
  }

  function Trailing(p: AWGParams, key: Option<seq<int>>): seq<Field> {
    Map(RangeField, p.ranges) + Map(TextField, p.toggles) + [KeyField(key)]
  }

  lemma LeadingDecodes(version: Version, p: AWGParams, version': Version, p': AWGParams)
    requires InLimits(p.junk, JUNK_LIMITS) && InLimits(p.padding, PADDING_LIMITS)
    requires InLimits(p'.junk, JUNK_LIMITS) && InLimits(p'.padding, PADDING_LIMITS)
    ensures Decodable(Leading(version, p), Leading(version', p'))
    ensures Leading(version, p) == Leading(version', p') <==>
            version == version' && p.junk == p'.junk && p.padding == p'.padding
  {
    hide Map, NumberField, TextField, Decodable, InLimits;
    var t, t' := [DOMAIN, VersionText(version)], [DOMAIN, VersionText(version')];
    assert t[1] == VersionText(version) && t'[1] == VersionText(version');
    VersionTexts(version, version');
    TextsDecode(t, t');
    NumbersDecode(p.junk, p'.junk, JUNK_LIMITS);
    NumbersDecode(p.padding, p'.padding, PADDING_LIMITS);
    DecodableTogether(Map(TextField, t), Map(NumberField, p.junk), Map(TextField, t'), Map(NumberField, p'.junk));
    DecodableTogether(Map(TextField, t) + Map(NumberField, p.junk), Map(NumberField, p.padding),
                      Map(TextField, t') + Map(NumberField, p'.junk), Map(NumberField, p'.padding));
  }

  lemma VersionTexts(v: Version, v': Version)
    ensures VersionText(v) == VersionText(v') <==> v == v'
  {
    assert "2.0"[0] != "3.1"[0];
  }

  lemma TrailingDecodes(version: Version, p: AWGParams, key: Option<seq<int>>,
                        version': Version, p': AWGParams, key': Option<seq<int>>)
    requires ShortTexts(p.toggles) && ShortTexts(p'.toggles)
    requires KeyFits(version, key) && KeyFits(version', key')
    ensures Decodable(Trailing(p, key), Trailing(p', key'))
    ensures Trailing(p, key) == Trailing(p', key') <==>
            CanonicalRanges(p.ranges) == CanonicalRanges(p'.ranges) && p.toggles == p'.toggles && key == key'
  {
    hide Map, RangeField, TextField, Decodable, CanonicalRanges, KeyField, KeyFits, ShortTexts;
    RangesDecode(p.ranges, p'.ranges);
    TextsDecode(p.toggles, p'.toggles);
    KeysDecode(version, key, version', key');
    DecodableTogether(Map(RangeField, p.ranges), Map(TextField, p.toggles),
                      Map(RangeField, p'.ranges), Map(TextField, p'.toggles));
    DecodableTogether(Map(RangeField, p.ranges) + Map(TextField, p.toggles), [KeyField(key)],
                      Map(RangeField, p'.ranges) + Map(TextField, p'.toggles), [KeyField(key')]);
  }

  lemma FieldsInGroups(version: Version, p: AWGParams, key: Option<seq<int>>)
    ensures Fields(version, p, key) == Leading(version, p) + Map(HeaderField, p.headers) + Trailing(p, key)
  {
    hide Map, RangeField, TextField, NumberField, HeaderField, KeyField;
  }

  ghost predicate Bounded(version: Version, p: AWGParams) {
    && InLimits(p.junk, JUNK_LIMITS) && InLimits(p.padding, PADDING_LIMITS)
    && ValidHeaders(p.headers) && ShortTexts(p.toggles)
  }

  lemma ValidIsBounded(version: Version, p: AWGParams)
    requires ValidProfile(version, p)
    ensures Bounded(version, p)
  {
    hide ValidHeaders, InLimits, ParseHeader, Cps.AcceptedFrom;
    assert forall i :: 0 <= i < 2 ==> p.toggles[i] == "" || ValidToggle(p.toggles[i]);
  }

  lemma FieldsDecode(version: Version, p: AWGParams, key: Option<seq<int>>,
                     version': Version, p': AWGParams, key': Option<seq<int>>)
    requires Bounded(version, p) && KeyFits(version, key) && Bounded(version', p') && KeyFits(version', key')
    ensures Decodable(Fields(version, p, key), Fields(version', p', key'))
    ensures Fields(version, p, key) == Fields(version', p', key') <==>
            SameIdentity(version, p, key, version', p', key')
  {
    hide Map, Leading, Trailing, Fields, Decodable, KeyFits, ParseHeader, ValidHeaders, CanonicalRanges, InLimits, ShortTexts;
    FieldsInGroups(version, p, key);
    FieldsInGroups(version', p', key');
    LeadingDecodes(version, p, version', p');
    HeadersDecode(p.headers, p'.headers);
    TrailingDecodes(version, p, key, version', p', key');
    DecodableTogether(Leading(version, p), Map(HeaderField, p.headers),
                      Leading(version', p'), Map(HeaderField, p'.headers));
    DecodableTogether(Leading(version, p) + Map(HeaderField, p.headers), Trailing(p, key),
                      Leading(version', p') + Map(HeaderField, p'.headers), Trailing(p', key'));
  }

  /** Two validated profiles have one hash pre-image exactly when they agree on everything the identity is made of. */
  lemma SameKeyIffSameIdentity(version: Version, p: AWGParams, key: Option<seq<int>>,
                               version': Version, p': AWGParams, key': Option<seq<int>>)
    requires ValidProfile(version, p) && KeyFits(version, key)
    requires ValidProfile(version', p') && KeyFits(version', key')
    ensures Preimage(version, p, key) == Preimage(version', p', key') <==>
            SameIdentity(version, p, key, version', p', key')
  {
    hide Stream, Decodable, Fields, Bounded, ValidProfile, KeyFits, SameIdentity;
    ValidIsBounded(version, p);
    ValidIsBounded(version', p');
    FieldsDecode(version, p, key, version', p', key');
    if Preimage(version, p, key) == Preimage(version', p', key') {
      UniqueFields(Fields(version, p, key), Fields(version', p', key'));
    }
  }

  lemma UniqueFields(fs: seq<Field>, gs: seq<Field>)
    requires Decodable(fs, gs) && Stream(fs) == Stream(gs)
    ensures fs == gs
  {
    UniqueDecoding(fs, gs);
  }

  /** Storing the canonical form of the ranges does not change the identity. */
  lemma CanonicalFormSameKey(version: Version, p: AWGParams, key: Option<seq<int>>)
    ensures Preimage(version, Canonicalized(p), key) == Preimage(version, p, key)
  {
    hide Stream, RangeField, HeaderField, NumberField, TextField, KeyField, CanonicalOption;
    forall i | 0 <= i < 6
      ensures RangeField(CanonicalOption(p.ranges[i])) == RangeField(p.ranges[i])
    {
      SameRangeField(p.ranges[i]);
    }
    assert Map(RangeField, Canonicalized(p).ranges) == Map(RangeField, p.ranges);
  }

  lemma SameRangeField(r: Option<Range16>)
    ensures RangeField(CanonicalOption(r)) == RangeField(r)
  {
    if r.Some? {
      RangeSyntax.CanonicalStable(r.value);
    }
  }
}
