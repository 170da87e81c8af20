/** The CPS tag language of custom signature packets. */
module Cps {
  import opened Wrappers
  import opened Decimal

  const MAX_TAG_SIZE := 1000
  const MAX_PACKET_SIZE := 1280

  // ---------------------------------------------------------------------------------------------
  // The language
  // ---------------------------------------------------------------------------------------------

  datatype RandomKind = Bytes | Chars | Digits

  /** A tag by its text: <t>, <b 0xHEX>, <r N>, <rc N>, <rd N>. */
  datatype Tag = Timestamp | Static(hex: string) | Random(kind: RandomKind, count: string)

  predicate IsHexDigit(c: char) {
    '0' <= c <= '9' || 'a' <= c <= 'f' || 'A' <= c <= 'F'
  }

  predicate AllHex(s: string) {
    forall i :: 0 <= i < |s| ==> IsHexDigit(s[i])
  }

  predicate WellFormed(t: Tag) {
    match t
    case Timestamp => true
    case Static(hex) => hex != [] && |hex| % 2 == 0 && AllHex(hex)
    case Random(_, count) => ParseBelow(count, MAX_TAG_SIZE + 1).Some?
  }

  function Keyword(k: RandomKind): (s: string) {
    match k
    case Bytes => "r"
    case Chars => "rc"
    case Digits => "rd"
  }

  /** The text between the angle brackets. */
  function Body(t: Tag): (s: string) {
    match t
    case Timestamp => "t"
    case Static(hex) => "b 0x" + hex
    case Random(kind, count) => Keyword(kind) + " " + count
  }

  function Text(t: Tag): string {
    "<" + Body(t) + ">"
  }

  /** Bytes the tag expands to. */
  function Size(t: Tag): (n: nat)
    requires WellFormed(t)
  {
    match t
    case Timestamp => 4
    case Static(hex) => |hex| / 2
    case Random(_, count) => ParseBelow(count, MAX_TAG_SIZE + 1).value
  }

  function Render(ts: seq<Tag>): string {
    if ts == [] then "" else Text(ts[0]) + Render(ts[1..])
  }

  ghost predicate AllWellFormed(ts: seq<Tag>) {
    forall i :: 0 <= i < |ts| ==> WellFormed(ts[i])
  }

  ghost function TotalSize(ts: seq<Tag>): nat
    requires AllWellFormed(ts)
  {
    if ts == [] then 0 else Size(ts[0]) + TotalSize(ts[1..])
  }

  /** A concatenation of well-formed tags that expands to at most one packet. */
  ghost predicate InLanguage(s: string) {
    exists ts :: AllWellFormed(ts) && s == Render(ts) && TotalSize(ts) <= MAX_PACKET_SIZE
  }

  // ---------------------------------------------------------------------------------------------
  // The validator
  // ---------------------------------------------------------------------------------------------

  predicate HasControl(s: string) {
    exists i :: 0 <= i < |s| && (s[i] < ' ' || s[i] == 0x7f as char)
  }

  function RandomOf(word: string): (k: Option<RandomKind>) {
    if word == "r" then Some(Bytes)
    else if word == "rc" then Some(Chars)
    else if word == "rd" then Some(Digits)
    else None
  }

  /** Size of one tag body, or nothing when the body is refused. */
  function TagSize(body: string): (r: Option<nat>) {
    if HasControl(body) then None
    else if body == "t" then Some(4)
    else
      var parts := Split(body, ' ');
      if |parts| != 2 || parts[0] == "" || parts[1] == "" then None
      else if parts[0] == "b" then
        if !("0x" <= parts[1]) then None
        else
          var hex := parts[1][2..];
          if hex == [] || |hex| % 2 != 0 || !AllHex(hex) then None else Some(|hex| / 2)
      else if RandomOf(parts[0]).Some? then ParseBelow(parts[1], MAX_TAG_SIZE + 1)
      else None
  }

  /** The tag a body spells. */
  function TagOf(body: string): (t: Tag)
    requires TagSize(body).Some?
  {
    if body == "t" then Timestamp
    else
      var parts := Split(body, ' ');
      if parts[0] == "b" then Static(parts[1][2..]) else Random(RandomOf(parts[0]).value, parts[1])
  }

  lemma AcceptedBodyIsTag(body: string)
    requires TagSize(body).Some?
    ensures WellFormed(TagOf(body)) && Body(TagOf(body)) == body && Size(TagOf(body)) == TagSize(body).value
  {
    if body != "t" {
      SplitInTwo(body, ' ');
      var parts := Split(body, ' ');
      if parts[0] == "b" {
        assert parts[1] == "0x" + parts[1][2..];
        assert "b" + [' '] + ("0x" + parts[1][2..]) == "b 0x" + parts[1][2..];
      } else {
        var k := RandomOf(parts[0]).value;
        assert Keyword(k) == parts[0];
        assert parts[0] + [' '] + parts[1] == Keyword(k) + " " + parts[1];
      }
    }
  }

  predicate Visible(s: string) {
    forall i :: 0 <= i < |s| ==> ' ' < s[i] && s[i] != 0x7f as char && s[i] != '>'
  }

  lemma DigitsVisible(s: string)
    requires AllDigits(s)
    ensures Visible(s)
  {
  }

  lemma HexVisible(s: string)
    requires AllHex(s)
    ensures Visible(s)
  {
  }

  /** A body of two visible words. */
  lemma TwoWords(a: string, b: string)
    requires Visible(a) && Visible(b)
    ensures Split(a + " " + b, ' ') == [a, b] && !HasControl(a + " " + b) && '>' !in a + " " + b
  {
    assert a + " " + b == a + [' '] + b;
    SplitTwo(a, b, ' ');
  }

  lemma StaticAccepted(hex: string)
    requires WellFormed(Static(hex))
    ensures TagSize(Body(Static(hex))) == Some(Size(Static(hex))) && '>' !in Body(Static(hex))
  {
    hide Split, Value;
    HexVisible(hex);
    var word := "0x" + hex;
    assert Visible(word);
    TwoWords("b", word);
    assert Body(Static(hex)) == "b" + " " + word;
    assert word[2..] == hex;
  }

  lemma RandomAccepted(kind: RandomKind, count: string)
    requires WellFormed(Random(kind, count))
    ensures TagSize(Body(Random(kind, count))) == Some(Size(Random(kind, count))) && '>' !in Body(Random(kind, count))
  {
    hide Split, Value;
    DigitsVisible(count);
    assert Visible(Keyword(kind));
    TwoWords(Keyword(kind), count);
    assert Body(Random(kind, count)) == Keyword(kind) + " " + count;
  }

  lemma TagBodyAccepted(t: Tag)
    requires WellFormed(t)
    ensures TagSize(Body(t)) == Some(Size(t)) && '>' !in Body(t)
  {
    match t
    case Timestamp =>
      assert Body(t) == "t";
    case Static(hex) => StaticAccepted(hex);
    case Random(kind, count) => RandomAccepted(kind, count);
  }

  /** The whole text accepted from an offset with the given running total. */
  ghost predicate Continues(s: string, total: nat) {
    exists ts :: AllWellFormed(ts) && s == Render(ts) && total + TotalSize(ts) <= MAX_PACKET_SIZE
  }

  /** A non-empty tag list begins with the first tag's text. */
  lemma HeadTag(ts: seq<Tag>)
    requires AllWellFormed(ts) && ts != []
    ensures var s := Render(ts); var e := IndexOf(s, '>');
            && s != [] && s[0] == '<' && 1 <= e < |s|
            && s[1..e] == Body(ts[0]) && s[e + 1..] == Render(ts[1..])
  {
    hide WellFormed, Body, TagSize, Size, IndexOf;
    var b, rest := Body(ts[0]), Render(ts[1..]);
    var open := "<" + b;
    TagBodyAccepted(ts[0]);
    assert Render(ts) == open + ['>'] + rest;
    IndexUnique(open, '>', rest);
    assert (open + ['>'] + rest)[1..|open|] == b;
  }

  lemma ReadForward(s: string, total: nat)
    requires s != [] && Continues(s, total)
    ensures var e := IndexOf(s, '>');
            && s[0] == '<' && 1 <= e < |s| && TagSize(s[1..e]).Some?
            && total + TagSize(s[1..e]).value <= MAX_PACKET_SIZE
            && Continues(s[e + 1..], total + TagSize(s[1..e]).value)
  {
    hide *;
    var ts := Reading(s, total);
    TailFacts(ts);
    HeadTag(ts);
    TagBodyAccepted(ts[0]);
    Introduce(ts[1..], total + Size(ts[0]));
  }

  lemma Reading(s: string, total: nat) returns (ts: seq<Tag>)
    requires Continues(s, total)
    ensures AllWellFormed(ts) && s == Render(ts) && total + TotalSize(ts) <= MAX_PACKET_SIZE
  {
    hide Render, TotalSize, AllWellFormed;
    ts :| AllWellFormed(ts) && s == Render(ts) && total + TotalSize(ts) <= MAX_PACKET_SIZE;
  }

  lemma Introduce(ts: seq<Tag>, total: nat)
    requires AllWellFormed(ts) && total + TotalSize(ts) <= MAX_PACKET_SIZE
    ensures Continues(Render(ts), total)
  {
    hide Render, TotalSize, AllWellFormed;
  }

  lemma TailFacts(ts: seq<Tag>)
    requires AllWellFormed(ts)
    ensures ts == [] ==> Render(ts) == []
    ensures ts != [] ==> WellFormed(ts[0]) && AllWellFormed(ts[1..]) && TotalSize(ts) == Size(ts[0]) + TotalSize(ts[1..])
  {
    hide WellFormed, Size;
  }

  lemma RenderCons(t: Tag, rest: seq<Tag>)
    requires WellFormed(t) && AllWellFormed(rest)
    ensures AllWellFormed([t] + rest)
    ensures Render([t] + rest) == "<" + Body(t) + ">" + Render(rest)
    ensures TotalSize([t] + rest) == Size(t) + TotalSize(rest)
  {
    hide WellFormed, Size, Body;
    assert ([t] + rest)[1..] == rest;
  }

  lemma TagText(s: string, e: nat)
    requires 1 <= e < |s| && s[0] == '<' && s[e] == '>'
    ensures s == "<" + s[1..e] + ">" + s[e + 1..]
  {
  }

  lemma ReadBackward(s: string, e: nat, total: nat)
    requires 1 <= e < |s| && s[0] == '<' && s[e] == '>' && TagSize(s[1..e]).Some?
    requires Continues(s[e + 1..], total + TagSize(s[1..e]).value)
    ensures Continues(s, total)
  {
    hide TagSize, TagOf, WellFormed, Size, Body, Render, TotalSize, AllWellFormed;
    var size := TagSize(s[1..e]).value;
    var rest :| AllWellFormed(rest) && s[e + 1..] == Render(rest) && total + size + TotalSize(rest) <= MAX_PACKET_SIZE;
    AcceptedBodyIsTag(s[1..e]);
    RenderCons(TagOf(s[1..e]), rest);
    TagText(s, e);
  }

  /** Reading one tag off the front neither loses nor adds a way to read the text. */
  lemma ReadTag(s: string, total: nat)
    requires s != []
    ensures var e := IndexOf(s, '>');
            Continues(s, total) <==>
            && s[0] == '<' && 1 <= e < |s| && TagSize(s[1..e]).Some?
            && total + TagSize(s[1..e]).value <= MAX_PACKET_SIZE
            && Continues(s[e + 1..], total + TagSize(s[1..e]).value)
  {
    hide TagSize, Continues, IndexOf;
    var e := IndexOf(s, '>');
    if Continues(s, total) {
      ReadForward(s, total);
    }
    if s[0] == '<' && 1 <= e < |s| && TagSize(s[1..e]).Some? && Continues(s[e + 1..], total + TagSize(s[1..e]).value) {
      ReadBackward(s, e, total);
    }
  }

  /** The validator's verdict as a function of the text left and the running total. */
  predicate AcceptedFrom(s: string, total: nat)
    decreases |s|
  {
    if s == [] then true
    else
      var e := IndexOf(s, '>');
      s[0] == '<' && 1 <= e < |s| && TagSize(s[1..e]).Some? && total + TagSize(s[1..e]).value <= MAX_PACKET_SIZE
      && AcceptedFrom(s[e + 1..], total + TagSize(s[1..e]).value)
  }

  lemma {:induction false} AcceptedIffContinues(s: string, total: nat)
    requires total <= MAX_PACKET_SIZE
    ensures AcceptedFrom(s, total) <==> Continues(s, total)
    decreases |s|
  {
    hide TagSize, Continues, IndexOf;
    if s == [] {
      NothingLeft(total);
    } else {
      ReadTag(s, total);
      var e := IndexOf(s, '>');
      if 1 <= e < |s| && TagSize(s[1..e]).Some? && total + TagSize(s[1..e]).value <= MAX_PACKET_SIZE {
        AcceptedIffContinues(s[e + 1..], total + TagSize(s[1..e]).value);
      }
    }
  }

  /** Accepts exactly the language; stopping at the running total agrees with the full sum. */
  method ValidateCPS(value: string) returns (ok: bool)
    ensures ok <==> InLanguage(value)
    ensures ok == AcceptedFrom(value, 0)
  {
    hide TagSize, Continues, InLanguage, AcceptedFrom;
    LanguageFromStart(value);
    AcceptedIffContinues(value, 0);
    var totalSize: nat := 0;
    var offset := 0;
    assert value[0..] == value;
    while offset < |value|
      invariant 0 <= offset <= |value| && totalSize <= MAX_PACKET_SIZE
      invariant InLanguage(value) <==> Continues(value[offset..], totalSize)
    {
      ReadTag(value[offset..], totalSize);
      if value[offset] != '<' {
        return false;
      }
      var relativeEnd := IndexOf(value[offset..], '>');
      if relativeEnd == |value[offset..]| {
        return false;
      }
      var end := offset + relativeEnd;
      var tag := value[offset + 1..end];
      assert value[offset..][1..relativeEnd] == tag;
      var size := TagSize(tag);
      if size.None? {
        return false;
      }
      totalSize := totalSize + size.value;
      if totalSize > MAX_PACKET_SIZE {
        return false;
      }
      assert value[offset..][relativeEnd + 1..] == value[end + 1..];
      offset := end + 1;
    }
    NothingLeft(totalSize);
    assert value[offset..] == "";
    return true;
  }

  lemma LanguageFromStart(s: string)
    ensures InLanguage(s) <==> Continues(s, 0)
  {
  }

  lemma AcceptedIffInLanguage(s: string)
    ensures AcceptedFrom(s, 0) <==> InLanguage(s)
  {
    hide AcceptedFrom, Continues, InLanguage;
    AcceptedIffContinues(s, 0);
    LanguageFromStart(s);
  }

  lemma NothingLeft(total: nat)
    requires total <= MAX_PACKET_SIZE
    ensures Continues("", total)
  {
    var none: seq<Tag> := [];
    assert AllWellFormed(none) && Render(none) == "" && TotalSize(none) == 0;
  }

  /** Rendering any tag list within the limits is accepted by the language, and the language is nothing else. */
  lemma RenderedAccepted(ts: seq<Tag>)
    requires AllWellFormed(ts)
    ensures InLanguage(Render(ts)) <==> TotalSize(ts) <= MAX_PACKET_SIZE
  {
    if InLanguage(Render(ts)) {
      var us :| AllWellFormed(us) && Render(ts) == Render(us) && TotalSize(us) <= MAX_PACKET_SIZE;
      SameTextSameSize(ts, us);
    }
  }

  lemma {:induction false} SameTextSameSize(ts: seq<Tag>, us: seq<Tag>)
    requires AllWellFormed(ts) && AllWellFormed(us) && Render(ts) == Render(us)
    ensures TotalSize(ts) == TotalSize(us)
    decreases |ts|
  {
    hide WellFormed, Body, TagSize, Size, IndexOf;
    if ts != [] {
      HeadTag(ts);
    }
    if us != [] {
      HeadTag(us);
    }
    if ts != [] && us != [] {
      TagBodyAccepted(ts[0]);
      TagBodyAccepted(us[0]);
      SameTextSameSize(ts[1..], us[1..]);
    }
  }
}
