/** Unsigned 16-bit scalars and ranges: parsing, canonical form and printing. */
module RangeSyntax {
  import opened Wrappers
  import opened Decimal

  const UINT16_LIMIT := 65536

  datatype Kind = Scalar | Span | Off

  datatype RawRange16 = Range16(kind: Kind, start: nat, end: nat)

  predicate WellFormed(r: RawRange16) {
    && r.start <= r.end < UINT16_LIMIT
    && (r.kind == Scalar ==> r.start == r.end)
    && (r.kind == Off ==> r.start == 0 && r.end == 0)
  }

  /** The values the parser produces. */
  type Range16 = r: RawRange16 | WellFormed(r) witness Range16(Scalar, 0, 0)

  function Parse(value: string): (r: Option<Range16>) {
    if value == "off" then Some(Range16(Off, 0, 0))
    else
      var parts := Split(value, '-');
      if |parts| == 1 then
        var scalar := ParseBelow(value, UINT16_LIMIT);
        if scalar.None? then None else Some(Range16(Scalar, scalar.value, scalar.value))
      else if |parts| != 2 then None
      else
        var start, end := ParseBelow(parts[0], UINT16_LIMIT), ParseBelow(parts[1], UINT16_LIMIT);
        if start.None? || end.None? || start.value > end.value then None
        else Some(Range16(Span, start.value, end.value))
  }

  predicate IsCanonical(r: Range16) {
    r.kind == Scalar || (r.kind == Span && r.start != r.end)
  }

  function Canonical(r: Range16): (c: Range16)
    ensures IsCanonical(c)
  {
    if IsCanonical(r) then r else Range16(Scalar, r.start, r.start)
  }

  function ToString(r: Range16): (s: string) {
    var c := Canonical(r);
    if c.kind == Span then Print(c.start) + "-" + Print(c.end) else Print(c.start)
  }

  lemma DigitsOnly(s: string)
    requires AllDigits(s)
    ensures '-' !in s && (s != [] ==> s != "off")
  {
    assert s != [] ==> IsDigit(s[0]) && s[0] != "off"[0];
  }

  /** Printing and parsing again gives the canonical form. */
  lemma ParsePrintedRange(r: Range16)
    ensures Parse(ToString(r)) == Some(Canonical(r))
  {
    var c := Canonical(r);
    var a, b := Print(c.start), Print(c.end);
    ParsePrinted(c.start, UINT16_LIMIT);
    ParsePrinted(c.end, UINT16_LIMIT);
    DigitsOnly(a);
    DigitsOnly(b);
    if c.kind == Span {
      SplitTwo(a, b, '-');
      assert a + "-" + b == a + ['-'] + b;
      assert (a + "-" + b)[0] == a[0] && IsDigit(a[0]);
    } else {
      SplitWhole(a, '-');
    }
  }

  /** Two ranges print alike exactly when their canonical forms are the same. */
  lemma PrintsAlike(r: Range16, s: Range16)
    ensures ToString(r) == ToString(s) <==> Canonical(r) == Canonical(s)
    ensures ToString(r) != []
  {
    ParsePrintedRange(r);
    ParsePrintedRange(s);
  }

  /** Canonical forms are stable, so printing, parsing and printing again changes nothing. */
  lemma CanonicalStable(r: Range16)
    ensures Canonical(Canonical(r)) == Canonical(r) && ToString(Canonical(r)) == ToString(r)
  {
  }

  /** Exactly three texts are read: off, one 16-bit number, and two in order with a dash between them. */
  lemma ParseIff(value: string, r: Range16)
    ensures Parse(value) == Some(r) <==>
            match r.kind
            case Off => value == "off"
            case Scalar => Writes(value, r.start, UINT16_LIMIT)
            case Span => WritesPair(value, '-', r.start, r.end, UINT16_LIMIT)
  {
    NumbersInText(value, '-', r.start, r.end, UINT16_LIMIT);
    if value == "off" {
      assert value[0] == 'o' && !IsDigit(value[0]);
      SplitWhole(value, '-');
    }
  }
}
