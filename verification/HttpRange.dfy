/** The parser of single-part `Range` request headers, against a set of selected byte positions. */
module HttpRange {
  import opened Collections

  const UINT64_LIMIT := 0x1_0000_0000_0000_0000

  type uint64 = n: int | 0 <= n < UINT64_LIMIT

  datatype RangeStatus = Ignore | Partial | Unsatisfiable

  datatype ByteRange = ByteRange(status: RangeStatus, offset: uint64, length: uint64)

  // ----- decimal numbers

  predicate IsDigit(c: char) { '0' <= c <= '9' }

  ghost predicate AllDigits(text: string) { forall i :: 0 <= i < |text| ==> IsDigit(text[i]) }

  function DigitValue(c: char): nat
    requires IsDigit(c)
  {
    c as int - '0' as int
  }

  /** The number a text denotes, without any bound. */
  function Decimal(text: string): nat
    requires forall i :: 0 <= i < |text| ==> IsDigit(text[i])
  {
    if |text| == 0 then 0
    else 10 * Decimal(text[..|text| - 1]) + DigitValue(text[|text| - 1])
  }

  function Printed(n: nat): (text: string)
    ensures |text| > 0 && forall i :: 0 <= i < |text| ==> IsDigit(text[i])
  {
    var digit := ['0' + (n % 10) as char];
    if n < 10 then digit else Printed(n / 10) + digit
  }

  lemma {:induction false} PrintedDenotes(n: nat)
    ensures Decimal(Printed(n)) == n
  {
    if n >= 10 {
      PrintedDenotes(n / 10);
      assert Printed(n)[..|Printed(n)| - 1] == Printed(n / 10);
    }
  }

  lemma {:induction false} DecimalGrows(text: string, k: nat)
    requires AllDigits(text) && k <= |text|
    ensures Decimal(text[..k]) <= Decimal(text)
  {
    if k < |text| {
      var n := |text| - 1;
      DecimalGrows(text[..n], k);
      assert text[..n][..k] == text[..k];
    } else {
      assert text[..k] == text;
    }
  }

  /** What ParseUnsigned accepts: non-empty digits whose value fits in 64 bits. */
  function Unsigned(text: string): (value: Option<uint64>)
  {
    if |text| > 0 && (forall i :: 0 <= i < |text| ==> IsDigit(text[i])) && Decimal(text) < UINT64_LIMIT
    then Some(Decimal(text)) else None
  }

  /** `std::from_chars` into an unsigned 64-bit value, which must consume the whole text. */
  method ParseUnsigned(text: string) returns (value: Option<uint64>)
    ensures value == Unsigned(text)
  {
    if |text| == 0 {
      return None;
    }
    var total := 0;
    var i := 0;
    while i < |text|
      invariant 0 <= i <= |text| && AllDigits(text[..i])
      invariant 0 <= total == Decimal(text[..i]) < UINT64_LIMIT
    {
      if !IsDigit(text[i]) {
        return None;
      }
      assert text[..i + 1][..i] == text[..i];
      var grown := 10 * total + DigitValue(text[i]);
      if grown >= UINT64_LIMIT {
        if AllDigits(text) {
          DecimalGrows(text, i + 1);
        }
        return None;
      }
      total := grown;
      i := i + 1;
    }
    assert text[..i] == text;
    return Some(total);
  }

  // ----- the header

  const PREFIX := "bytes="

  /** First position of a character at or after `from`, or the length of the text. */
  function Find(text: string, c: char, from: nat): (i: nat)
    requires from <= |text|
    ensures from <= i <= |text|
    ensures forall j :: from <= j < i ==> text[j] != c
    ensures i < |text| ==> text[i] == c
    decreases |text| - from
  {
    if from == |text| || text[from] == c then from else Find(text, c, from + 1)
  }

  function ParseRangeHeader(header: string, fileSize: uint64): ByteRange {
    var ignored := ByteRange(Ignore, 0, 0);
    var refused := ByteRange(Unsatisfiable, 0, 0);
    if !(PREFIX <= header) then ignored else
    var value := header[|PREFIX|..];
    if |value| == 0 || Find(value, ',', 0) < |value| then ignored else
    var dash := Find(value, '-', 0);
    if dash == |value| || Find(value, '-', dash + 1) < |value| then ignored else
    var startText := value[..dash];
    var endText := value[dash + 1..];
    if |startText| == 0 then
      match Unsigned(endText)
      case None => ignored
      case Some(suffix) =>
        if fileSize == 0 || suffix == 0 then refused else
        var length := if suffix >= fileSize then fileSize else suffix;
        ByteRange(Partial, fileSize - length, length)
    else
      match Unsigned(startText)
      case None => ignored
      case Some(start) =>
        if fileSize == 0 || start >= fileSize then refused else
        var parsed := if |endText| == 0 then Some(fileSize - 1) else Unsigned(endText);
        if parsed.None? then ignored else
        var end := parsed.value;
        if start > end then refused else
        var last := if end >= fileSize then fileSize - 1 else end;
        ByteRange(Partial, start, last - start + 1)
  }

  // ----- the reference: a specifier denotes a set of positions

  datatype Specifier = FromTo(first: uint64, last: uint64) | From(first: uint64) | Suffix(count: uint64)

  /** section 14.1.2 of RFC 9110: the positions below `size` a specifier selects. */
  ghost predicate Selects(r: Specifier, size: nat, i: int) {
    0 <= i < size &&
    match r
    case FromTo(a, b) => a <= i <= b
    case From(a) => a <= i
    case Suffix(n) => size - n <= i
  }

  /** A header that spells the specifier, digits as anyone may write them. */
  ghost predicate Spells(header: string, r: Specifier) {
    match r
    case FromTo(a, b) => exists s, t ::
        header == PREFIX + s + "-" + t && Unsigned(s) == Some(a) && Unsigned(t) == Some(b)
    case From(a) => exists s :: header == PREFIX + s + "-" && Unsigned(s) == Some(a)
    case Suffix(n) => exists t :: header == PREFIX + "-" + t && Unsigned(t) == Some(n)
  }

  ghost predicate SelectsNothing(r: Specifier, size: nat) {
    forall i :: !Selects(r, size, i)
  }

  /** The result says exactly which positions are sent. */
  ghost predicate Describes(range: ByteRange, r: Specifier, size: nat) {
    match range.status
    case Partial =>
      && 1 <= range.length && range.offset + range.length <= size
      && (forall i :: Selects(r, size, i) <==> range.offset <= i < range.offset + range.length)
    case Unsatisfiable => SelectsNothing(r, size)
    case Ignore => false
  }

  lemma FindHits(text: string, c: char, from: nat, i: nat)
    requires from <= i < |text| && text[i] == c
    requires forall j :: from <= j < i ==> text[j] != c
    ensures Find(text, c, from) == i
  {
  }

  lemma DigitsSurroundDash(s: string, t: string)
    requires AllDigits(s) && AllDigits(t)
    ensures var value := s + "-" + t;
            && Find(value, ',', 0) == |value| && Find(value, '-', 0) == |s| && Find(value, '-', |s| + 1) == |value|
            && value[..|s|] == s && value[|s| + 1..] == t
  {
    var value := s + "-" + t;
    assert forall i :: 0 <= i < |value| ==> value[i] == if i < |s| then s[i] else if i == |s| then '-' else t[i - |s| - 1];
    FindHits(value, '-', 0, |s|);
  }

  lemma AnswerFrom(s: string, a: uint64, size: uint64, header: string)
    requires header == PREFIX + s + "-" && Unsigned(s) == Some(a)
    ensures Describes(ParseRangeHeader(header, size), From(a), size)
  {
    DigitsSurroundDash(s, "");
    assert header[|PREFIX|..] == s + "-" + "";
    var hit := Selects(From(a), size, a);
  }

  lemma AnswerSuffix(t: string, n: uint64, size: uint64, header: string)
    requires header == PREFIX + "-" + t && Unsigned(t) == Some(n)
    ensures Describes(ParseRangeHeader(header, size), Suffix(n), size)
  {
    DigitsSurroundDash("", t);
    assert header[|PREFIX|..] == "" + "-" + t;
  }

  lemma AnswerFromTo(s: string, t: string, a: uint64, b: uint64, size: uint64, header: string)
    requires header == PREFIX + s + "-" + t && Unsigned(s) == Some(a) && Unsigned(t) == Some(b)
    ensures Describes(ParseRangeHeader(header, size), FromTo(a, b), size)
  {
    DigitsSurroundDash(s, t);
    assert header[|PREFIX|..] == s + "-" + t;
  }

  /** Every specifier, however spelled, is answered by exactly the positions it selects. */
  lemma SpecifiersAreAnswered(header: string, r: Specifier, size: uint64)
    requires Spells(header, r)
    ensures Describes(ParseRangeHeader(header, size), r, size)
  {
    match r {
      case FromTo(a, b) =>
        var s, t :| header == PREFIX + s + "-" + t && Unsigned(s) == Some(a) && Unsigned(t) == Some(b);
        AnswerFromTo(s, t, a, b, size, header);
      case From(a) =>
        var s :| header == PREFIX + s + "-" && Unsigned(s) == Some(a);
        AnswerFrom(s, a, size, header);
      case Suffix(n) =>
        var t :| header == PREFIX + "-" + t && Unsigned(t) == Some(n);
        AnswerSuffix(t, n, size, header);
    }
  }

  /** A header whose first number already lies at or past the end of the file. */
  ghost predicate StartsOutside(header: string, size: nat) {
    exists s, t :: header == PREFIX + s + "-" + t && Unsigned(s).Some? && Unsigned(s).value >= size
                   && '-' !in t && ',' !in t
  }

  /** Such a header is refused whatever follows the dash: that text is not looked at. */
  lemma OutsideStartsAreRefused(header: string, size: uint64)
    requires StartsOutside(header, size)
    ensures ParseRangeHeader(header, size).status == Unsatisfiable
  {
    var s, t :| header == PREFIX + s + "-" + t && Unsigned(s).Some? && Unsigned(s).value >= size
                && '-' !in t && ',' !in t;
    var value := s + "-" + t;
    assert header[|PREFIX|..] == value;
    assert forall i :: 0 <= i < |value| ==> value[i] == if i < |s| then s[i] else if i == |s| then '-' else t[i - |s| - 1];
    FindHits(value, '-', 0, |s|);
    assert value[..|s|] == s;
  }

  lemma CutAtDash(value: string)
    ensures var dash := Find(value, '-', 0);
            dash < |value| ==>
              && PREFIX + value == PREFIX + value[..dash] + "-" + value[dash + 1..]
              && (|value[..dash]| == 0 ==> PREFIX + value == PREFIX + "-" + value[dash + 1..])
              && (|value[dash + 1..]| == 0 ==> PREFIX + value == PREFIX + value[..dash] + "-")
  {
  }

  /** Nothing else is acted on: an answered header spells a specifier or starts outside the file. */
  lemma OnlySpecifiersAreAnswered(header: string, size: uint64)
    requires ParseRangeHeader(header, size).status != Ignore
    ensures (exists r :: Spells(header, r)) || StartsOutside(header, size)
  {
    var value := header[|PREFIX|..];
    var dash := Find(value, '-', 0);
    var s, t := value[..dash], value[dash + 1..];
    CutAtDash(value);
    assert header == PREFIX + value;
    if |s| == 0 {
      assert Spells(header, Suffix(Unsigned(t).value));
    } else if Unsigned(s).value >= size {
      assert forall j :: 0 <= j < |t| ==> t[j] == value[dash + 1 + j];
      assert '-' !in t && ',' !in t;
    } else if |t| == 0 {
      assert Spells(header, From(Unsigned(s).value));
    } else {
      assert Spells(header, FromTo(Unsigned(s).value, Unsigned(t).value));
    }
  }

  /** A partial answer, whatever the header, is a non-empty stretch inside the file. */
  lemma PartialIsInsideFile(header: string, size: uint64)
    requires ParseRangeHeader(header, size).status == Partial
    ensures var range := ParseRangeHeader(header, size);
            range.length >= 1 && range.offset + range.length <= size
  {
  }

  /** A first position past the last is refused, not ignored, as the unit tests ask. */
  lemma ReversedBoundsAreRefused(a: uint64, b: uint64, size: uint64)
    requires b < a
    ensures ParseRangeHeader(PREFIX + Printed(a) + "-" + Printed(b), size).status == Unsatisfiable
  {
    PrintedDenotes(a);
    PrintedDenotes(b);
    var header := PREFIX + Printed(a) + "-" + Printed(b);
    AnswerFromTo(Printed(a), Printed(b), a, b, size, header);
    var hit := Selects(FromTo(a, b), size, ParseRangeHeader(header, size).offset);
  }

  lemma BoundsParse(s: string, t: string, size: uint64)
    requires Unsigned(s).Some? && Unsigned(t).Some? && Unsigned(s).value <= Unsigned(t).value < size
    ensures ParseRangeHeader(PREFIX + s + "-" + t, size)
         == ByteRange(Partial, Unsigned(s).value, Unsigned(t).value - Unsigned(s).value + 1)
  {
    DigitsSurroundDash(s, t);
    assert (PREFIX + s + "-" + t)[|PREFIX|..] == s + "-" + t;
  }

  /** The bounds a partial response prints, sent back as a request, give the same range. */
  lemma ContentRangeParsesBack(header: string, size: uint64)
    requires ParseRangeHeader(header, size).status == Partial
    ensures var range := ParseRangeHeader(header, size);
            ParseRangeHeader(PREFIX + Printed(range.offset) + "-" + Printed(range.offset + range.length - 1), size) == range
  {
    PartialIsInsideFile(header, size);
    var range := ParseRangeHeader(header, size);
    PrintedDenotes(range.offset);
    PrintedDenotes(range.offset + range.length - 1);
    BoundsParse(Printed(range.offset), Printed(range.offset + range.length - 1), size);
  }

  /** A number of 2^64 or more is not read as anything. */
  lemma OversizedNumbersAreNotRead(n: nat)
    ensures Unsigned(Printed(n)) == if n < UINT64_LIMIT then Some(n) else None
  {
    PrintedDenotes(n);
  }
}
