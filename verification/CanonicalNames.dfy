/**
 * Canonical names, stated on their own: the one way in which the Contract ABI Specification writes
 * a type in a signature. The printer writes exactly these names, one for each type.
 */
module CanonicalNames {
  import opened Text
  import opened DataTypes
  import opened TypeGrammar

  /** The digits of `n` without sign or leading zeros. */
  predicate IsDecimal(s: string, n: nat) {
    s != "" && AllDigits(s) && ValueOf(s) == n && (|s| > 1 ==> s[0] != '0')
  }

  /** A keyword that is always followed by its number. */
  ghost predicate IsNumbered(s: string, keyword: string, n: nat) {
    exists num :: IsDecimal(num, n) && s == keyword + num
  }

  /** `s` is the canonical name of `t`: no alias, every width and length written out in full. */
  ghost predicate IsCanonical(s: string, t: ParamType)
    decreases t
  {
    match t
    case Address => s == "address"
    case Bytes => s == "bytes"
    case Bool => s == "bool"
    case String => s == "string"
    case Int(bits) => IsNumbered(s, "int", bits)
    case Uint(bits) => IsNumbered(s, "uint", bits)
    case FixedBytes(size) => IsNumbered(s, "bytes", size)
    case Array(elem) => exists p :: s == p + "[]" && IsCanonical(p, elem)
    case FixedArray(elem, len) =>
      exists p, num :: s == p + "[" + num + "]" && IsCanonical(p, elem) && IsDecimal(num, len)
    case Tuple(components) => exists parts :: AreCanonical(parts, components) && s == "(" + Join(parts) + ")"
  }

  ghost predicate AreCanonical(parts: seq<string>, ts: seq<ParamType>)
    decreases ts
  {
    |parts| == |ts| && forall i :: 0 <= i < |ts| ==> IsCanonical(parts[i], ts[i])
  }

  // ------------------------------------------------------------------ numbers

  lemma {:induction false} DecimalHasNoLeadingZero(n: nat)
    ensures |Decimal(n)| > 1 ==> Decimal(n)[0] != '0'
    ensures n > 0 ==> Decimal(n)[0] != '0'
  {
    if n >= 10 {
      DecimalHasNoLeadingZero(n / 10);
    }
  }

  lemma {:induction false} LeadingDigitCounts(s: string)
    requires s != "" && AllDigits(s) && s[0] != '0'
    ensures ValueOf(s) > 0
    decreases |s|
  {
    if |s| > 1 {
      LeadingDigitCounts(s[..|s| - 1]);
    }
  }

  /** A number is written in one way only. */
  lemma {:induction false} DecimalIsUnique(s: string, n: nat)
    requires IsDecimal(s, n)
    ensures s == Decimal(n)
    decreases |s|
  {
    var front, last := s[..|s| - 1], s[|s| - 1];
    assert s == front + [last];
    if |s| > 1 {
      LeadingDigitCounts(front);
      DecimalIsUnique(front, n / 10);
    } else {
      assert front == "";
    }
  }

  lemma DecimalIff(s: string, n: nat)
    ensures IsDecimal(s, n) <==> s == Decimal(n)
  {
    if IsDecimal(s, n) {
      DecimalIsUnique(s, n);
    }
    DecimalHasNoLeadingZero(n);
  }

  lemma NumberedIff(s: string, keyword: string, n: nat)
    ensures IsNumbered(s, keyword, n) <==> s == keyword + Decimal(n)
  {
    if num :| IsDecimal(num, n) && s == keyword + num {
      DecimalIff(num, n);
    }
    DecimalIff(Decimal(n), n);
  }

  // ------------------------------------------------------------------ names

  /** The printer writes canonical names. */
  lemma {:induction false} PrintIsCanonical(t: ParamType)
    ensures IsCanonical(Print(t), t)
    decreases t, 1
  {
    match t
    case Int(bits) => NumberedIff(Print(t), "int", bits);
    case Uint(bits) => NumberedIff(Print(t), "uint", bits);
    case FixedBytes(size) => NumberedIff(Print(t), "bytes", size);
    case Array(elem) => PrintIsCanonical(elem);
    case FixedArray(elem, len) =>
      PrintIsCanonical(elem);
      DecimalIff(Decimal(len), len);
    case Tuple(components) => PrintsAreCanonical(components);
    case _ =>
  }

  lemma {:induction false} PrintsAreCanonical(ts: seq<ParamType>)
    ensures AreCanonical(PrintAll(ts), ts)
    decreases ts, 0
  {
    forall i | 0 <= i < |ts| ensures IsCanonical(PrintAll(ts)[i], ts[i]) {
      PrintIsCanonical(ts[i]);
    }
  }

  /** And no other name is canonical. */
  lemma {:induction false} CanonicalIsPrinted(s: string, t: ParamType)
    requires IsCanonical(s, t)
    ensures s == Print(t)
    decreases t, 1
  {
    match t
    case Int(bits) => NumberedIff(s, "int", bits);
    case Uint(bits) => NumberedIff(s, "uint", bits);
    case FixedBytes(size) => NumberedIff(s, "bytes", size);
    case Array(elem) =>
      var p :| s == p + "[]" && IsCanonical(p, elem);
      CanonicalIsPrinted(p, elem);
    case FixedArray(elem, len) =>
      var p, num :| s == p + "[" + num + "]" && IsCanonical(p, elem) && IsDecimal(num, len);
      CanonicalIsPrinted(p, elem);
      DecimalIff(num, len);
    case Tuple(components) =>
      var parts :| AreCanonical(parts, components) && s == "(" + Join(parts) + ")";
      CanonicalArePrinted(parts, components);
    case _ =>
  }

  lemma {:induction false} CanonicalArePrinted(parts: seq<string>, ts: seq<ParamType>)
    requires AreCanonical(parts, ts)
    ensures parts == PrintAll(ts)
    decreases ts, 0
  {
    forall i | 0 <= i < |ts| ensures parts[i] == PrintAll(ts)[i] {
      CanonicalIsPrinted(parts[i], ts[i]);
    }
  }

  /** A string is the canonical name of a type if and only if it is what the printer writes. */
  lemma CanonicalIff(s: string, t: ParamType)
    ensures IsCanonical(s, t) <==> s == Print(t)
  {
    if IsCanonical(s, t) {
      CanonicalIsPrinted(s, t);
    }
    PrintIsCanonical(t);
  }

  lemma AreCanonicalIff(parts: seq<string>, ts: seq<ParamType>)
    ensures AreCanonical(parts, ts) <==> parts == PrintAll(ts)
  {
    if AreCanonical(parts, ts) {
      CanonicalArePrinted(parts, ts);
    }
    PrintsAreCanonical(ts);
  }

  // ------------------------------------------------------------------ valid types

  /** The widths of integers, in bits. */
  const WIDTHS: set<nat> := {8, 16, 24, 32, 40, 48, 56, 64, 72, 80, 88, 96, 104, 112, 120, 128,
                             136, 144, 152, 160, 168, 176, 184, 192, 200, 208, 216, 224, 232, 240, 248, 256}

  /** `p` is `t` itself or occurs in it. */
  ghost predicate IsPart(p: ParamType, t: ParamType)
    decreases t
  {
    p == t ||
    match t
    case Array(elem) => IsPart(p, elem)
    case FixedArray(elem, _) => IsPart(p, elem)
    case Tuple(components) => exists i :: 0 <= i < |components| && IsPart(p, components[i])
    case _ => false
  }

  /** Taken alone, `p` is a type of the Contract ABI Specification; its arrays are not empty. */
  predicate IsKnown(p: ParamType) {
    match p
    case Int(bits) => bits in WIDTHS
    case Uint(bits) => bits in WIDTHS
    case FixedBytes(size) => 1 <= size <= 32
    case FixedArray(_, len) => len != 0
    case _ => true
  }

  lemma WidthIff(bits: usize)
    ensures IsValidWidth(bits) <==> bits in WIDTHS
  {
  }

  lemma {:induction false} ValidParts(t: ParamType, p: ParamType)
    requires IsValid(t) && IsPart(p, t)
    ensures IsKnown(p)
  {
    if p == t {
      WidthIff(if p.Int? || p.Uint? then p.bits else 8);
    } else if t.Array? || t.FixedArray? {
      ValidParts(t.elem, p);
    } else {
      var i :| 0 <= i < |t.components| && IsPart(p, t.components[i]);
      ValidParts(t.components[i], p);
    }
  }

  lemma {:induction false} InvalidPart(t: ParamType) returns (p: ParamType)
    requires !IsValid(t)
    ensures IsPart(p, t) && !IsKnown(p)
  {
    WidthIff(if t.Int? || t.Uint? then t.bits else 8);
    if !IsKnown(t) {
      p := t;
    } else if t.Array? || t.FixedArray? {
      p := InvalidPart(t.elem);
    } else {
      var i :| 0 <= i < |t.components| && !IsValid(t.components[i]);
      p := InvalidPart(t.components[i]);
    }
  }

  /** A type is valid if and only if each type that occurs in it is known. */
  lemma ValidIff(t: ParamType)
    ensures IsValid(t) <==> forall p :: IsPart(p, t) ==> IsKnown(p)
  {
    if IsValid(t) {
      forall p | IsPart(p, t) ensures IsKnown(p) {
        ValidParts(t, p);
      }
    } else {
      var p := InvalidPart(t);
    }
  }
}
