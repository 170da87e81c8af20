/** Decimal text: values, printing, and splitting at a separator. */
module Decimal {
  import opened Wrappers

  predicate IsDigit(c: char) {
    '0' <= c <= '9'
  }

  predicate AllDigits(s: string) {
    forall i :: 0 <= i < |s| ==> IsDigit(s[i])
  }

  function DigitValue(c: char): int
    requires IsDigit(c)
  {
    c as int - '0' as int
  }

  function DigitChar(d: int): (c: char)
    requires 0 <= d < 10
    ensures IsDigit(c) && DigitValue(c) == d
  {
    (d + '0' as int) as char
  }

  /** The number a digit string denotes; leading zeroes are allowed. */
  function Value(s: string): (n: nat)
    requires AllDigits(s)
  {
    if s == [] then 0 else 10 * Value(s[..|s| - 1]) + DigitValue(s[|s| - 1])
  }

  function Print(n: nat): (s: string)
    ensures s != [] && AllDigits(s)
  {
    if n < 10 then [DigitChar(n)] else Print(n / 10) + [DigitChar(n % 10)]
  }

  /** A base-10 parse that refuses empty text, other characters and values from limit up. */
  function ParseBelow(s: string, limit: nat): (r: Option<nat>) {
    if s == [] || !AllDigits(s) || Value(s) >= limit then None else Some(Value(s))
  }

  lemma {:induction false} ValueOfPrint(n: nat)
    ensures Value(Print(n)) == n
  {
    var s := Print(n);
    if n < 10 {
      assert s[..|s| - 1] == [];
    } else {
      ValueOfPrint(n / 10);
      assert s[..|s| - 1] == Print(n / 10);
    }
  }

  lemma ParsePrinted(n: nat, limit: nat)
    requires n < limit
    ensures ParseBelow(Print(n), limit) == Some(n)
  {
    ValueOfPrint(n);
  }

  // ---------------------------------------------------------------------------------------------
  // Splitting
  // ---------------------------------------------------------------------------------------------

  /** Index of the first occurrence, or the length when there is none. */
  function IndexOf(s: string, c: char): (i: nat)
    ensures i <= |s| && (i < |s| ==> s[i] == c)
  {
    if s == [] || s[0] == c then 0 else 1 + IndexOf(s[1..], c)
  }

  /** All parts between separators; text without a separator is one part. */
  function Split(s: string, c: char): (parts: seq<string>)
    ensures parts != []
    decreases |s|
  {
    var i := IndexOf(s, c);
    if i == |s| then [s] else [s[..i]] + Split(s[i + 1..], c)
  }

  lemma {:induction false} IndexIsFirst(s: string, c: char, k: nat)
    requires k < IndexOf(s, c)
    ensures s[k] != c
  {
    if k > 0 {
      IndexIsFirst(s[1..], c, k - 1);
    }
  }

  lemma {:induction false} IndexUnique(a: string, c: char, b: string)
    requires c !in a
    ensures IndexOf(a + [c] + b, c) == |a|
  {
    var s := a + [c] + b;
    if a != [] {
      assert s[0] == a[0] && a[0] in a;
      assert s[1..] == a[1..] + [c] + b;
      IndexUnique(a[1..], c, b);
    }
  }

  lemma {:induction false} IndexAbsent(s: string, c: char)
    ensures IndexOf(s, c) == |s| <==> c !in s
  {
    if s != [] && s[0] != c {
      IndexAbsent(s[1..], c);
      assert s == [s[0]] + s[1..];
    }
  }

  lemma SplitWhole(s: string, c: char)
    requires c !in s
    ensures Split(s, c) == [s]
  {
    IndexAbsent(s, c);
  }

  lemma SplitFirst(a: string, b: string, c: char)
    requires c !in a
    ensures Split(a + [c] + b, c) == [a] + Split(b, c)
  {
    var s := a + [c] + b;
    IndexUnique(a, c, b);
    assert s[..|a|] == a && s[|a| + 1..] == b;
  }

  lemma SplitTwo(a: string, b: string, c: char)
    requires c !in a && c !in b
    ensures Split(a + [c] + b, c) == [a, b]
  {
    SplitFirst(a, b, c);
    SplitWhole(b, c);
  }

  /** Joining the parts of a two-part split gives the text back. */
  lemma SplitInTwo(s: string, c: char)
    requires |Split(s, c)| == 2
    ensures var parts := Split(s, c); s == parts[0] + [c] + parts[1] && c !in parts[0] && c !in parts[1]
  {
    var i := IndexOf(s, c);
    var a, rest := s[..i], s[i + 1..];
    IndexAbsent(rest, c);
    forall k | 0 <= k < i
      ensures a[k] != c
    {
      IndexIsFirst(s, c, k);
    }
  }

  /** A digit string for n below the limit. */
  ghost predicate Writes(s: string, n: nat, limit: nat) {
    s != [] && AllDigits(s) && Value(s) == n < limit
  }

  /** Two numbers with a separator between them. */
  ghost predicate WritesPair(s: string, c: char, m: nat, n: nat, limit: nat) {
    exists a, b :: s == a + [c] + b && Writes(a, m, limit) && Writes(b, n, limit)
  }

  /** Splitting at a separator that is no digit tells one number, a pair, and everything else apart. */
  lemma NumbersInText(s: string, c: char, m: nat, n: nat, limit: nat)
    requires !IsDigit(c)
    ensures var parts := Split(s, c);
            && (|parts| == 1 ==> parts[0] == s)
            && (Writes(s, m, limit) ==> |parts| == 1)
            && (WritesPair(s, c, m, n, limit) <==>
                  |parts| == 2 && ParseBelow(parts[0], limit) == Some(m) && ParseBelow(parts[1], limit) == Some(n))
  {
    var parts := Split(s, c);
    if Writes(s, m, limit) {
      SplitWhole(s, c);
    }
    if WritesPair(s, c, m, n, limit) {
      var a, b :| s == a + [c] + b && Writes(a, m, limit) && Writes(b, n, limit);
      SplitTwo(a, b, c);
    }
    if |parts| == 2 {
      SplitInTwo(s, c);
      assert ParseBelow(parts[0], limit) == Some(m) ==> Writes(parts[0], m, limit);
      assert ParseBelow(parts[1], limit) == Some(n) ==> Writes(parts[1], n, limit);
      assert s == parts[0] + [c] + parts[1];
    }
  }
}
