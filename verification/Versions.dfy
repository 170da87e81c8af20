/** Release versions: decimal triples of any length, compared by length and text, and upgrades that only go forward. */
module Versions {
  import opened Wrappers
  import opened Decimal

  /** MAJOR, MINOR and PATCH as written. */
  datatype Triple = Triple(major: string, minor: string, patch: string)

  /** A decimal integer without leading zeroes. */
  predicate Plain(s: string) {
    s != "" && AllDigits(s) && (|s| > 1 ==> s[0] != '0')
  }

  function Parts(t: Triple): seq<string> {
    [t.major, t.minor, t.patch]
  }

  predicate Stable(t: Triple) {
    Plain(t.major) && Plain(t.minor) && Plain(t.patch)
  }

  function Parsed(version: string): (r: Option<Triple>)
    ensures r.Some? ==> Stable(r.value)
  {
    var parts := Split(version, '.');
    if |parts| == 3 && Plain(parts[0]) && Plain(parts[1]) && Plain(parts[2]) then Some(Triple(parts[0], parts[1], parts[2]))
    else None
  }

  function Text(t: Triple): string {
    t.major + ['.'] + (t.minor + ['.'] + t.patch)
  }

  method ParseStableVersion(version: string) returns (r: Option<Triple>)
    ensures r == Parsed(version)
  {
    var parts := Split(version, '.');
    if |parts| != 3 {
      return None;
    }
    var i := 0;
    while i < 3
      invariant 0 <= i <= 3 && forall j :: 0 <= j < i ==> Plain(parts[j])
    {
      var part := parts[i];
      if part == "" || (|part| > 1 && part[0] == '0') {
        return None;
      }
      var k := 0;
      while k < |part|
        invariant 0 <= k <= |part| && forall j :: 0 <= j < k ==> IsDigit(part[j])
      {
        if part[k] < '0' || part[k] > '9' {
          return None;
        }
        k := k + 1;
      }
      i := i + 1;
    }
    return Some(Triple(parts[0], parts[1], parts[2]));
  }

  lemma NoDot(s: string)
    requires AllDigits(s)
    ensures '.' !in s
  {
  }

  /** A stable triple parses back from its text. */
  lemma ParseText(t: Triple)
    requires Stable(t)
    ensures Parsed(Text(t)) == Some(t)
  {
    NoDot(t.major);
    NoDot(t.minor);
    NoDot(t.patch);
    SplitFirst(t.major, t.minor + ['.'] + t.patch, '.');
    SplitTwo(t.minor, t.patch, '.');
  }

  /** Only texts of stable triples parse. */
  lemma ParsedIsText(version: string)
    requires Parsed(version).Some?
    ensures version == Text(Parsed(version).value)
  {
    var i := IndexOf(version, '.');
    var rest := version[i + 1..];
    assert Split(version, '.') == [version[..i]] + Split(rest, '.');
    assert |Split(rest, '.')| == 2;
    SplitInTwo(rest, '.');
    assert version == version[..i] + ['.'] + rest;
  }

  // ---------------------------------------------------------------------------------------------
  // The order
  // ---------------------------------------------------------------------------------------------

  /** Text comparison, character by character; a proper prefix comes first. */
  function TextOrder(a: string, b: string): (r: int)
    ensures r == -1 || r == 0 || r == 1
  {
    if a == "" && b == "" then 0
    else if a == "" then -1
    else if b == "" then 1
    else if a[0] != b[0] then if a[0] < b[0] then -1 else 1
    else TextOrder(a[1..], b[1..])
  }

  /** Shorter is smaller; the text decides between equal lengths. */
  function PartOrder(a: string, b: string): (r: int)
    ensures r == -1 || r == 0 || r == 1
  {
    if |a| < |b| then -1 else if |a| > |b| then 1 else TextOrder(a, b)
  }

  function Sign(m: int, n: int): int {
    if m < n then -1 else if m > n then 1 else 0
  }

  function Pow10(n: nat): (p: nat)
    ensures p >= 1
  {
    if n == 0 then 1 else 10 * Pow10(n - 1)
  }

  /** The leading digit has the weight of its place. */
  lemma {:induction false} ValueByHead(s: string)
    requires s != "" && AllDigits(s)
    ensures Value(s) == DigitValue(s[0]) * Pow10(|s| - 1) + Value(s[1..])
  {
    var n := |s| - 1;
    if n > 0 {
      ValueByHead(s[..n]);
      assert s[..n][1..] == s[1..][..n - 1];
      assert s[1..][n - 1] == s[n];
      TimesTen(DigitValue(s[0]), Pow10(n - 1));
    }
  }

  lemma TimesTen(d: int, p: int)
    ensures 10 * (d * p) == d * (10 * p)
  {
  }

  lemma {:induction false} ValueBelow(s: string)
    requires AllDigits(s)
    ensures Value(s) < Pow10(|s|)
  {
    if s != "" {
      ValueBelow(s[..|s| - 1]);
    }
  }

  /** A plain number uses every place it has. */
  lemma ValueAtLeast(s: string)
    requires Plain(s) && |s| > 1
    ensures Value(s) >= Pow10(|s| - 1)
  {
    ValueByHead(s);
    AtLeastOnce(DigitValue(s[0]), Pow10(|s| - 1));
  }

  lemma AtLeastOnce(d: int, p: nat)
    requires d >= 1
    ensures d * p >= p
  {
    assert (d - 1) * p >= 0;
  }

  lemma {:induction false} Pow10Monotone(i: nat, j: nat)
    requires i <= j
    ensures Pow10(i) <= Pow10(j)
  {
    if i < j {
      Pow10Monotone(i, j - 1);
    }
  }

  /** Among digit strings of one length the text order is the numeric order. */
  lemma {:induction false} TextOrderNumeric(a: string, b: string)
    requires AllDigits(a) && AllDigits(b) && |a| == |b|
    ensures TextOrder(a, b) == Sign(Value(a), Value(b))
  {
    if a != "" {
      var p := Pow10(|a| - 1);
      ValueByHead(a);
      ValueByHead(b);
      ValueBelow(a[1..]);
      ValueBelow(b[1..]);
      TextOrderNumeric(a[1..], b[1..]);
      HeadDecides(DigitValue(a[0]), DigitValue(b[0]), Value(a[1..]), Value(b[1..]), p);
    }
  }

  lemma HeadDecides(d: int, e: int, x: nat, y: nat, p: nat)
    requires x < p && y < p
    ensures d < e ==> d * p + x < e * p + y
    ensures e < d ==> e * p + y < d * p + x
  {
    if d < e {
      AtLeastOnce(e - d, p);
    }
    if e < d {
      AtLeastOnce(d - e, p);
    }
  }

  lemma PartOrderNumeric(a: string, b: string)
    requires Plain(a) && Plain(b)
    ensures PartOrder(a, b) == Sign(Value(a), Value(b))
  {
    if |a| == |b| {
      TextOrderNumeric(a, b);
    } else if |a| < |b| {
      ShorterSmaller(a, b);
    } else {
      ShorterSmaller(b, a);
    }
  }

  lemma ShorterSmaller(a: string, b: string)
    requires Plain(a) && Plain(b) && |a| < |b|
    ensures Value(a) < Value(b)
  {
    ValueBelow(a);
    ValueAtLeast(b);
    Pow10Monotone(|a|, |b| - 1);
  }

  /** The first differing component decides. */
  function TripleOrder(s: Triple, t: Triple): (r: int)
    ensures r == -1 || r == 0 || r == 1
  {
    if PartOrder(s.major, t.major) != 0 then PartOrder(s.major, t.major)
    else if PartOrder(s.minor, t.minor) != 0 then PartOrder(s.minor, t.minor)
    else PartOrder(s.patch, t.patch)
  }

  /** Precedence on natural-number triples, as in section 11 of Semantic Versioning 2.0.0. */
  ghost predicate Precedes(s: Triple, t: Triple)
    requires Stable(s) && Stable(t)
  {
    || Value(s.major) < Value(t.major)
    || (Value(s.major) == Value(t.major) && Value(s.minor) < Value(t.minor))
    || (Value(s.major) == Value(t.major) && Value(s.minor) == Value(t.minor) && Value(s.patch) < Value(t.patch))
  }

  lemma {:induction false} PlainUnique(a: string, b: string)
    requires Plain(a) && Plain(b) && Value(a) == Value(b)
    ensures a == b
  {
    PartOrderNumeric(a, b);
    if |a| == |b| {
      TextOrderEqual(a, b);
    }
  }

  lemma {:induction false} TextOrderEqual(a: string, b: string)
    ensures TextOrder(a, b) == 0 <==> a == b
  {
    if a != "" && b != "" {
      TextOrderEqual(a[1..], b[1..]);
      assert a == [a[0]] + a[1..] && b == [b[0]] + b[1..];
    }
  }

  /** Length first and then text is numeric precedence; equal in the order means equal as written. */
  lemma OrderIsPrecedence(s: Triple, t: Triple)
    requires Stable(s) && Stable(t)
    ensures TripleOrder(s, t) == -1 <==> Precedes(s, t)
    ensures TripleOrder(s, t) == 1 <==> Precedes(t, s)
    ensures TripleOrder(s, t) == 0 <==> s == t
  {
    hide PartOrder, Plain;
    PartOrderNumeric(s.major, t.major);
    PartOrderNumeric(s.minor, t.minor);
    PartOrderNumeric(s.patch, t.patch);
    if TripleOrder(s, t) == 0 {
      PlainUnique(s.major, t.major);
      PlainUnique(s.minor, t.minor);
      PlainUnique(s.patch, t.patch);
    }
  }

  /** A total order. */
  lemma OrderIsTotal(s: Triple, t: Triple, u: Triple)
    requires Stable(s) && Stable(t) && Stable(u)
    ensures TripleOrder(s, t) == -TripleOrder(t, s)
    ensures TripleOrder(s, t) == -1 && TripleOrder(t, u) == -1 ==> TripleOrder(s, u) == -1
  {
    hide PartOrder, Plain, TripleOrder;
    OrderIsPrecedence(s, t);
    OrderIsPrecedence(t, s);
    OrderIsPrecedence(t, u);
    OrderIsPrecedence(s, u);
  }

  lemma DecidedAt(s: Triple, t: Triple, i: nat)
    requires i < 3 && forall j :: 0 <= j < i ==> PartOrder(Parts(s)[j], Parts(t)[j]) == 0
    ensures PartOrder(Parts(s)[i], Parts(t)[i]) != 0 ==> TripleOrder(s, t) == PartOrder(Parts(s)[i], Parts(t)[i])
  {
    hide PartOrder;
    assert i > 0 ==> PartOrder(Parts(s)[0], Parts(t)[0]) == 0;
    assert i > 1 ==> PartOrder(Parts(s)[1], Parts(t)[1]) == 0;
  }

  method CompareStableVersions(left: string, right: string) returns (r: Option<int>)
    ensures r.Some? <==> Parsed(left).Some? && Parsed(right).Some?
    ensures r.Some? ==> r.value == TripleOrder(Parsed(left).value, Parsed(right).value)
  {
    var l := ParseStableVersion(left);
    if l.None? {
      return None;
    }
    var r' := ParseStableVersion(right);
    if r'.None? {
      return None;
    }
    var ls, rs := Parts(l.value), Parts(r'.value);
    var i := 0;
    while i < 3
      invariant 0 <= i <= 3 && forall j :: 0 <= j < i ==> PartOrder(ls[j], rs[j]) == 0
    {
      DecidedAt(l.value, r'.value, i);
      if |ls[i]| < |rs[i]| {
        return Some(-1);
      }
      if |ls[i]| > |rs[i]| {
        return Some(1);
      }
      var order := TextOrder(ls[i], rs[i]);
      if order < 0 {
        return Some(-1);
      }
      if order > 0 {
        return Some(1);
      }
      i := i + 1;
    }
    assert PartOrder(ls[0], rs[0]) == 0 && PartOrder(ls[1], rs[1]) == 0 && PartOrder(ls[2], rs[2]) == 0;
    return Some(0);
  }

  // ---------------------------------------------------------------------------------------------
  // Upgrades
  // ---------------------------------------------------------------------------------------------

  function Trimmed(s: string): string {
    if s != "" && s[0] == 'v' then s[1..] else s
  }

  /** The target is newer: the installed build is a development one, or both are stable and it precedes the target. */
  ghost predicate Newer(current: string, target: string) {
    || current == "dev"
    || (var c, t := Parsed(Trimmed(current)), Parsed(target); c.Some? && t.Some? && Precedes(c.value, t.value))
  }

  method ValidateUpgrade(current: string, target: string) returns (ok: bool)
    ensures ok <==> Newer(current, target)
  {
    if current == "dev" {
      return true;
    }
    var order := CompareStableVersions(Trimmed(current), target);
    if order.None? {
      return false;
    }
    OrderIsPrecedence(Parsed(Trimmed(current)).value, Parsed(target).value);
    return order.value == -1;
  }

  /** What a binary reports about itself: a stable version or dev. */
  predicate Reportable(version: string) {
    version == "dev" || Parsed(version).Some?
  }

  /** The installed executable; None is a version that could not be read. */
  class Installation {
    var version: string
    ghost var failures: nat

    constructor (version: string)
      requires Reportable(version)
      ensures this.version == version && Reportable(version) && failures == 0
    {
      this.version := version;
      failures := 0;
    }

    method ReadVersion() returns (r: Option<string>)
      modifies this`failures
      ensures r.Some? ==> r.value == version && failures == old(failures)
      ensures r.None? ==> failures == old(failures) + 1
    {
      var readable: bool := *;
      if readable {
        return Some(version);
      }
      failures := failures + 1;
      return None;
    }

    /**
     Checks, downloads and installs a release. current is the version of the running program, downloaded what the
     downloaded binary reports when it passed its checksum; only the last step changes anything.
     */
    method Apply(current: string, latest: string, downloaded: Option<string>) returns (ok: bool)
      requires Reportable(version)
      modifies this
      ensures Reportable(version)
      ensures ok ==> version == latest && Parsed(latest).Some? && downloaded == Some(latest)
                     && Newer(current, latest) && Newer(old(version), latest)
      ensures !ok ==> version == old(version)
      ensures failures >= old(failures)
      ensures failures == old(failures) ==>
                (ok <==> Parsed(latest).Some? && downloaded == Some(latest)
                         && Newer(current, latest) && Newer(old(version), latest))
    {
      var target := ParseStableVersion(latest);
      if target.None? {
        return false;
      }
      var upgrade := ValidateUpgrade(current, latest);
      if !upgrade {
        return false;
      }
      var installed := ReadVersion();
      if installed.None? {
        return false;
      }
      upgrade := ValidateUpgrade(installed.value, latest);
      if !upgrade {
        return false;
      }
      if downloaded.None? || downloaded.value != latest {
        return false;
      }
      installed := ReadVersion();
      if installed.None? {
        return false;
      }
      upgrade := ValidateUpgrade(installed.value, latest);
      if !upgrade {
        return false;
      }
      var renamed: bool := *;
      if !renamed {
        failures := failures + 1;
        return false;
      }
      version := latest;
      return true;
    }

    /** A run of updates: the versions installed along the way, oldest first. */
    method ApplyAll(attempts: seq<Attempt>) returns (trace: seq<string>)
      requires Reportable(version)
      modifies this
      ensures trace != [] && trace[0] == old(version) && trace[|trace| - 1] == version
      ensures Upgrades(trace)
    {
      hide Newer, Reportable, Parsed;
      trace := [version];
      var i := 0;
      while i < |attempts|
        invariant 0 <= i <= |attempts| && Reportable(version)
        invariant trace != [] && trace[0] == old(version) && trace[|trace| - 1] == version
        invariant Upgrades(trace)
      {
        var a := attempts[i];
        var ok := Apply(a.current, a.latest, a.downloaded);
        if ok {
          trace := trace + [version];
        }
        i := i + 1;
      }
    }
  }

  datatype Attempt = Attempt(current: string, latest: string, downloaded: Option<string>)

  ghost predicate Upgrades(trace: seq<string>) {
    && (forall i :: 0 <= i < |trace| ==> Reportable(trace[i]))
    && (forall i :: 0 <= i < |trace| - 1 ==> Newer(trace[i], trace[i + 1]))
    && (forall i :: 1 <= i < |trace| ==> Parsed(trace[i]).Some?)
  }

  /** Along any run of updates every version is strictly newer than every stable one before it. */
  lemma {:induction false} RunsIncrease(trace: seq<string>, i: nat, j: nat)
    requires Upgrades(trace) && i < j < |trace| && Parsed(trace[i]).Some?
    ensures Parsed(trace[j]).Some? && Precedes(Parsed(trace[i]).value, Parsed(trace[j]).value)
    decreases j - i
  {
    hide Parsed, Precedes, Trimmed;
    StepForward(trace[i], trace[i + 1]);
    assert Newer(trace[i], trace[i + 1]);
    if i + 1 < j {
      RunsIncrease(trace, i + 1, j);
      PrecedesThrough(Parsed(trace[i]).value, Parsed(trace[i + 1]).value, Parsed(trace[j]).value);
    }
  }

  lemma StepForward(current: string, target: string)
    requires Parsed(current).Some? && Newer(current, target)
    ensures Parsed(target).Some? && Precedes(Parsed(current).value, Parsed(target).value)
  {
    hide Precedes;
    StableText(current);
  }

  /** A stable version is not dev and has no v to trim. */
  lemma StableText(s: string)
    requires Parsed(s).Some?
    ensures s != "dev" && Trimmed(s) == s
  {
    var i := IndexOf(s, '.');
    assert i < |s|;
    assert Split(s, '.')[0] == s[..i];
    assert i > 0 && IsDigit(s[..i][0]);
  }

  lemma PrecedesThrough(s: Triple, t: Triple, u: Triple)
    requires Stable(s) && Stable(t) && Stable(u) && Precedes(s, t) && Precedes(t, u)
    ensures Precedes(s, u)
  {
  }

  /** Upgrades between stable versions go exactly to newer ones, with or without a v before the installed one; dev takes any. */
  lemma UpgradeIff(s: Triple, t: Triple)
    requires Stable(s) && Stable(t)
    ensures Newer(Text(s), Text(t)) <==> Precedes(s, t)
    ensures Newer("v" + Text(s), Text(t)) <==> Precedes(s, t)
    ensures Newer("dev", Text(t))
  {
    hide Precedes, Parsed, Text;
    ParseText(s);
    ParseText(t);
    StableText(Text(s));
    assert Trimmed("v" + Text(s)) == Text(s);
  }
}
