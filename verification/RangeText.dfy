/**
 * Block ranges as text: `serializeBlockRange` and `parseBlockRange`, with the parts of the
 * JavaScript `split` and `parseInt` that they use.
 */
module RangeText {
  import opened Wrappers
  import opened Text
  import opened BlockRanges

  function NumberText(n: int): string {
    if n < 0 then "-" + Decimal(-n) else Decimal(n)
  }

  function SerializeBlockRange(range: BlockRange): string {
    NumberText(range.from) + "-" + NumberText(range.to)
  }

  // ---------------------------------------------------------------------- parseInt

  function DigitValue(c: char, radix: nat): (r: Option<nat>)
    requires radix == 10 || radix == 16
    ensures r.Some? ==> r.value < radix
  {
    if '0' <= c <= '9' then Some(c as int - '0' as int)
    else if radix == 16 && 'a' <= c <= 'f' then Some(c as int - 'a' as int + 10)
    else if radix == 16 && 'A' <= c <= 'F' then Some(c as int - 'A' as int + 10)
    else None
  }

  /** The longest prefix of digits. */
  function LeadingDigits(s: string, radix: nat): (r: string)
    requires radix == 10 || radix == 16
    ensures forall i :: 0 <= i < |r| ==> DigitValue(r[i], radix).Some?
  {
    if s == "" || DigitValue(s[0], radix).None? then "" else [s[0]] + LeadingDigits(s[1..], radix)
  }

  function ValueIn(s: string, radix: nat): nat
    requires radix == 10 || radix == 16
    requires forall i :: 0 <= i < |s| ==> DigitValue(s[i], radix).Some?
  {
    if s == "" then 0
    else
      var front, last := ValueIn(s[..|s| - 1], radix), DigitValue(s[|s| - 1], radix).value;
      if radix == 10 then 10 * front + last else 16 * front + last
  }

  predicate IsSpace(c: char) {
    c == ' ' || '\t' as int <= c as int <= '\r' as int
  }

  function SkipSpaces(s: string): string {
    if s != "" && IsSpace(s[0]) then SkipSpaces(s[1..]) else s
  }

  function ParseDigits(s: string, radix: nat): Option<nat>
    requires radix == 10 || radix == 16
  {
    var digits := LeadingDigits(s, radix);
    if digits == "" then None else Some(ValueIn(digits, radix))
  }

  function ParseUnsigned(s: string): Option<nat> {
    if |s| >= 2 && s[0] == '0' && (s[1] == 'x' || s[1] == 'X') then ParseDigits(s[2..], 16) else ParseDigits(s, 10)
  }

  /** `parseInt(s)`; `None` stands for `NaN`. */
  function ParseInt(s: string): Option<int> {
    var trimmed := SkipSpaces(s);
    if trimmed != "" && trimmed[0] == '-' then
      var magnitude: Option<int> := ParseUnsigned(trimmed[1..]);
      if magnitude.Some? then Some(-magnitude.value) else None
    else
      ParseUnsigned(if trimmed != "" && trimmed[0] == '+' then trimmed[1..] else trimmed)
  }

  // ------------------------------------------------------------------------ split

  /** What precedes the first `-`, and what follows it if there is one. */
  function CutAtDash(s: string): (string, Option<string>) {
    if s == "" then ("", None)
    else if s[0] == '-' then ("", Some(s[1..]))
    else
      var (first, rest) := CutAtDash(s[1..]);
      ([s[0]] + first, rest)
  }

  /** `s.split('-', 2)`: the first two pieces. */
  function SplitTwo(s: string): (string, Option<string>) {
    var (first, rest) := CutAtDash(s);
    (first, if rest.Some? then Some(CutAtDash(rest.value).0) else None)
  }

  predicate IsValidBlockNumber(n: Option<int>) {
    n.Some? && n.value >= 0
  }

  function ParseBlockRange(s: string): (r: Result<BlockRange, string>)
    ensures r.Ok? ==> 0 <= r.value.from <= r.value.to
  {
    var (first, second) := SplitTwo(s);
    var from := ParseInt(first);
    var to := if second.Some? then ParseInt(second.value) else None;
    if !IsValidBlockNumber(from) || !IsValidBlockNumber(to) || to.value < from.value then Err(s)
    else Ok(BlockRange(from.value, to.value))
  }

  // -------------------------------------------------------------------- round trip

  predicate HasNoDash(s: string) {
    forall i :: 0 <= i < |s| ==> s[i] != '-'
  }

  lemma {:induction false} CutText(first: string, rest: string)
    requires HasNoDash(first)
    ensures CutAtDash(first + "-" + rest) == (first, Some(rest))
    ensures CutAtDash(first) == (first, None)
    decreases |first|
  {
    var s := first + "-" + rest;
    if first == "" {
      assert s[1..] == rest;
    } else {
      CutText(first[1..], rest);
      assert s[1..] == first[1..] + "-" + rest;
      assert first == [first[0]] + first[1..];
    }
  }

  /** A text is what precedes its first `-`, and the `-` with what follows it if there is one. */
  lemma {:induction false} CutIsExact(s: string)
    ensures var (first, rest) := CutAtDash(s);
            HasNoDash(first) && s == if rest.Some? then first + "-" + rest.value else first
    decreases |s|
  {
    if s != "" && s[0] != '-' {
      CutIsExact(s[1..]);
      var (first, rest) := CutAtDash(s[1..]);
      assert s == [s[0]] + s[1..];
    }
  }

  /** The first two pieces of `s` between dashes; anything after a second dash is dropped. */
  ghost predicate HasPieces(s: string, first: string, second: string) {
    && HasNoDash(first) && HasNoDash(second)
    && (s == first + "-" + second || exists tail :: s == first + "-" + (second + "-" + tail))
  }

  lemma PiecesIff(s: string, first: string, second: string)
    ensures SplitTwo(s) == (first, Some(second)) <==> HasPieces(s, first, second)
  {
    CutIsExact(s);
    var (head, rest) := CutAtDash(s);
    if rest.Some? {
      CutIsExact(rest.value);
    }
    if HasPieces(s, first, second) {
      if s == first + "-" + second {
        CutText(first, second);
        CutText(second, "");
      } else {
        var tail :| s == first + "-" + (second + "-" + tail);
        CutText(first, second + "-" + tail);
        CutText(second, tail);
      }
    }
  }

  // ------------------------------------------------------------------ what is a number

  const DECIMAL_DIGITS := "0123456789"
  const LOWER_DIGITS := "0123456789abcdef"
  const UPPER_DIGITS := "0123456789ABCDEF"

  lemma DigitIff(c: char, v: nat)
    ensures DigitValue(c, 10) == Some(v) <==> v < 10 && c == DECIMAL_DIGITS[v]
    ensures DigitValue(c, 16) == Some(v) <==> v < 16 && (c == LOWER_DIGITS[v] || c == UPPER_DIGITS[v])
  {
  }

  predicate AreDigits(digits: string, radix: nat)
    requires radix == 10 || radix == 16
  {
    digits != "" && forall i :: 0 <= i < |digits| ==> DigitValue(digits[i], radix).Some?
  }

  /** `s` begins with the digits of `v`, as many as there are. */
  ghost predicate BeginsWith(s: string, radix: nat, v: nat)
    requires radix == 10 || radix == 16
  {
    exists digits, tail ::
      && s == digits + tail && AreDigits(digits, radix) && ValueIn(digits, radix) == v
      && (tail == "" || DigitValue(tail[0], radix).None?)
  }

  predicate BeginsHex(s: string) {
    |s| >= 2 && s[0] == '0' && (s[1] == 'x' || s[1] == 'X')
  }

  /** A number without sign: hexadecimal behind `0x`, decimal otherwise. */
  ghost predicate IsMagnitude(s: string, v: nat) {
    if BeginsHex(s) then BeginsWith(s[2..], 16, v) else BeginsWith(s, 10, v)
  }

  predicate AllSpaces(s: string) {
    forall i :: 0 <= i < |s| ==> s[i] in " \t\n\r" || s[i] as int == 11 || s[i] as int == 12
  }

  /** White space, an optional sign, and a number; what follows does not matter. */
  ghost predicate IsNumber(s: string, n: int) {
    exists spaces, rest :: s == spaces + rest && AllSpaces(spaces) && IsSigned(rest, n)
  }

  ghost predicate IsSigned(s: string, n: int) {
    if s != "" && s[0] == '-' then n <= 0 && IsMagnitude(s[1..], -n)
    else if s != "" && s[0] == '+' then n >= 0 && IsMagnitude(s[1..], n)
    else n >= 0 && IsMagnitude(s, n)
  }

  lemma {:induction false} LeadingIsLongest(digits: string, tail: string, radix: nat)
    requires radix == 10 || radix == 16
    requires forall i :: 0 <= i < |digits| ==> DigitValue(digits[i], radix).Some?
    requires tail == "" || DigitValue(tail[0], radix).None?
    ensures LeadingDigits(digits + tail, radix) == digits
    decreases |digits|
  {
    if digits == "" {
      assert digits + tail == tail;
    } else {
      LeadingIsLongest(digits[1..], tail, radix);
      assert (digits + tail)[1..] == digits[1..] + tail;
      assert digits == [digits[0]] + digits[1..];
    }
  }

  lemma FirstAgain(s: string, front: string, back: string)
    requires s != "" && s[1..] == front + back
    ensures s == [s[0]] + front + back
  {
  }

  lemma {:induction false} LeadingSplits(s: string, radix: nat) returns (tail: string)
    requires radix == 10 || radix == 16
    ensures s == LeadingDigits(s, radix) + tail && (tail == "" || DigitValue(tail[0], radix).None?)
    decreases |s|
  {
    if s == "" || DigitValue(s[0], radix).None? {
      tail := s;
      assert s == "" + tail;
    } else {
      tail := LeadingSplits(s[1..], radix);
      FirstAgain(s, LeadingDigits(s[1..], radix), tail);
    }
  }

  lemma DigitsIff(s: string, radix: nat, v: nat)
    requires radix == 10 || radix == 16
    ensures ParseDigits(s, radix) == Some(v) <==> BeginsWith(s, radix, v)
  {
    if ParseDigits(s, radix) == Some(v) {
      var tail := LeadingSplits(s, radix);
      assert AreDigits(LeadingDigits(s, radix), radix);
    }
    if BeginsWith(s, radix, v) {
      var digits, tail :| s == digits + tail && AreDigits(digits, radix) && ValueIn(digits, radix) == v
                          && (tail == "" || DigitValue(tail[0], radix).None?);
      LeadingIsLongest(digits, tail, radix);
    }
  }

  lemma MagnitudeIff(s: string, v: nat)
    ensures ParseUnsigned(s) == Some(v) <==> IsMagnitude(s, v)
  {
    if BeginsHex(s) {
      DigitsIff(s[2..], 16, v);
    } else {
      DigitsIff(s, 10, v);
    }
  }

  lemma SpaceIff(c: char)
    ensures IsSpace(c) <==> c in " \t\n\r" || c as int == 11 || c as int == 12
  {
  }

  lemma {:induction false} SkippedSpaces(s: string) returns (spaces: string)
    ensures s == spaces + SkipSpaces(s) && AllSpaces(spaces)
    decreases |s|
  {
    if s != "" && IsSpace(s[0]) {
      var rest := SkippedSpaces(s[1..]);
      SpaceIff(s[0]);
      spaces := [s[0]] + rest;
    } else {
      spaces := "";
    }
  }

  lemma {:induction false} SkipAll(spaces: string, rest: string)
    requires AllSpaces(spaces) && (rest == "" || !IsSpace(rest[0]))
    ensures SkipSpaces(spaces + rest) == rest
    decreases |spaces|
  {
    if spaces == "" {
      assert spaces + rest == rest;
    } else {
      SpaceIff(spaces[0]);
      assert (spaces + rest)[1..] == spaces[1..] + rest;
      SkipAll(spaces[1..], rest);
    }
  }

  /** What is signed does not begin with a space. */
  lemma SignedStart(s: string, n: int)
    requires IsSigned(s, n)
    ensures s != "" && !IsSpace(s[0])
  {
    if s == "" || (s[0] != '-' && s[0] != '+') {
      MagnitudeStart(s, n);
    }
  }

  lemma MagnitudeStart(s: string, v: nat)
    requires IsMagnitude(s, v)
    ensures s != "" && !IsSpace(s[0])
  {
    if !BeginsHex(s) {
      var digits, tail :| s == digits + tail && AreDigits(digits, 10) && ValueIn(digits, 10) == v
                          && (tail == "" || DigitValue(tail[0], 10).None?);
      assert s[0] == digits[0];
    }
  }

  lemma SignedIff(s: string, n: int)
    requires s == "" || !IsSpace(s[0])
    ensures ParseInt(s) == Some(n) <==> IsSigned(s, n)
  {
    assert SkipSpaces(s) == s;
    if s != "" && s[0] == '-' {
      if n <= 0 {
        MagnitudeIff(s[1..], -n);
      }
    } else if n >= 0 {
      MagnitudeIff(if s != "" && s[0] == '+' then s[1..] else s, n);
    }
  }

  lemma TrimmedIsSame(s: string)
    ensures ParseInt(s) == ParseInt(SkipSpaces(s)) && (SkipSpaces(s) == "" || !IsSpace(SkipSpaces(s)[0]))
    decreases |s|
  {
    if s != "" && IsSpace(s[0]) {
      TrimmedIsSame(s[1..]);
    }
  }

  /** `parseInt` reads exactly the numbers of this grammar. */
  lemma ParseIntIff(s: string, n: int)
    ensures ParseInt(s) == Some(n) <==> IsNumber(s, n)
  {
    TrimmedIsSame(s);
    SignedIff(SkipSpaces(s), n);
    var spaces := SkippedSpaces(s);
    if IsNumber(s, n) {
      var front, rest :| s == front + rest && AllSpaces(front) && IsSigned(rest, n);
      SignedStart(rest, n);
      SkipAll(front, rest);
    }
  }

  ghost predicate ReadsAs(s: string, first: string, second: string, range: BlockRange) {
    HasPieces(s, first, second) && IsNumber(first, range.from) && IsNumber(second, range.to)
  }

  /**
   * A text is accepted as a range if and only if its first two pieces between dashes begin with
   * numbers that make a valid range; what follows the numbers or a second dash does not matter.
   */
  lemma ParseBlockRangeIff(s: string, range: BlockRange)
    ensures ParseBlockRange(s) == Ok(range) <==>
            0 <= range.from <= range.to && exists first, second :: ReadsAs(s, first, second, range)
  {
    var (first, second) := SplitTwo(s);
    if ParseBlockRange(s) == Ok(range) {
      PiecesIff(s, first, second.value);
      ParseIntIff(first, range.from);
      ParseIntIff(second.value, range.to);
      assert ReadsAs(s, first, second.value, range);
    }
    if 0 <= range.from <= range.to && exists a, b :: ReadsAs(s, a, b, range) {
      var a, b :| ReadsAs(s, a, b, range);
      PiecesIff(s, a, b);
      ParseIntIff(a, range.from);
      ParseIntIff(b, range.to);
    }
  }

  lemma CutDigits(digits: string, rest: string)
    requires AllDigits(digits)
    ensures CutAtDash(digits + "-" + rest) == (digits, Some(rest))
    ensures CutAtDash(digits) == (digits, None)
  {
    CutText(digits, rest);
  }

  lemma {:induction false} AllLeading(digits: string)
    requires AllDigits(digits)
    ensures LeadingDigits(digits, 10) == digits
    decreases |digits|
  {
    if digits != "" {
      AllLeading(digits[1..]);
      assert digits == [digits[0]] + digits[1..];
    }
  }

  lemma {:induction false} ValueInTen(digits: string)
    requires AllDigits(digits)
    ensures ValueIn(digits, 10) == ValueOf(digits)
    decreases |digits|
  {
    if digits != "" {
      ValueInTen(digits[..|digits| - 1]);
    }
  }

  lemma ParseDecimal(n: nat)
    ensures ParseInt(Decimal(n)) == Some(n)
  {
    var s := Decimal(n);
    assert IsDigit(s[0]);
    assert SkipSpaces(s) == s;
    ParseUnsignedDecimal(s);
  }

  lemma ParseUnsignedDecimal(s: string)
    requires s != "" && AllDigits(s)
    ensures ParseUnsigned(s) == Some(ValueOf(s))
  {
    assert |s| > 1 ==> IsDigit(s[1]);
    AllLeading(s);
    ValueInTen(s);
  }

  lemma CutNegative(n: int, rest: string)
    requires n < 0
    ensures CutAtDash(NumberText(n) + "-" + rest).0 == "" && CutAtDash(NumberText(n)).0 == ""
  {
    assert (NumberText(n) + "-" + rest)[0] == '-';
  }

  lemma EmptyIsNoNumber()
    ensures ParseInt("") == None
  {
  }

  /** A range survives being written and read if and only if it is a valid range of block numbers. */
  lemma RangeTextRoundTrip(range: BlockRange)
    ensures ParseBlockRange(SerializeBlockRange(range)) ==
            if 0 <= range.from <= range.to then Ok(range) else Err(SerializeBlockRange(range))
  {
    var rest := NumberText(range.to);
    EmptyIsNoNumber();
    if range.from < 0 {
      CutNegative(range.from, rest);
    } else {
      CutDigits(Decimal(range.from), rest);
      ParseDecimal(range.from);
      if range.to < 0 {
        CutNegative(range.to, "");
      } else {
        CutDigits(Decimal(range.to), "");
        ParseDecimal(range.to);
      }
    }
  }
}
