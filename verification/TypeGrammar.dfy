/**
 * The grammar of ABI type names, and the proof that `DataTypes.Read` accepts exactly it: the
 * printer's output is one spelling among others, so reading undoes printing for every type.
 */
module TypeGrammar {
  import opened Wrappers
  import opened Text
  import opened DataTypes

  /** An optional plus sign and a non-empty digit string with value `n`; leading zeros are allowed. */
  predicate Numeral(s: string, n: usize) {
    var digits := if s != "" && s[0] == '+' then s[1..] else s;
    digits != "" && AllDigits(digits) && ValueOf(digits) == n
  }

  /** `s` is `keyword` followed by a numeral for `n`. */
  predicate SizedName(keyword: string, s: string, n: usize) {
    keyword <= s && Numeral(s[|keyword|..], n)
  }

  predicate IsAtom(t: ParamType) {
    !t.Array? && !t.FixedArray? && !t.Tuple?
  }

  /** The names of the types without components. */
  predicate SpellsAtom(s: string, t: ParamType)
    requires IsAtom(t)
  {
    match t
    case Address => s == "address"
    case Bytes => s == "bytes"
    case Bool => s == "bool"
    case String => s == "string"
    case Int(bits) => (s == "int" && bits == 256) || SizedName("int", s, bits)
    case Uint(bits) => (s == "uint" && bits == 256) || SizedName("uint", s, bits)
    case FixedBytes(size) => SizedName("bytes", s, size)
  }

  /** `p[num]`. */
  function Bracketed(p: string, num: string): (s: string)
    ensures |s| == |p| + |num| + 2 && s[|s| - 1] == ']'
  {
    p + ['['] + num + [']']
  }

  /**
   * The grammar of type names: `s` is one of the ways to write `t`. It says nothing about
   * parenthesis depth, splitting or order of cases.
   */
  ghost predicate Spells(s: string, t: ParamType)
    decreases t
  {
    match t
    case Array(elem) => exists p :: s == Bracketed(p, "") && Spells(p, elem)
    case FixedArray(elem, len) =>
      exists p, num :: s == Bracketed(p, num) && Spells(p, elem) && Numeral(num, len)
    case Tuple(components) =>
      || (s == "tuple" && components == [])
      || exists parts :: SpellsParts(parts, s, components)
    case _ => SpellsAtom(s, t)
  }

  /** `s` is the parenthesised, comma-joined list of `parts`, which spell `components` in order. */
  ghost predicate SpellsParts(parts: seq<string>, s: string, components: seq<ParamType>)
    decreases components
  {
    && |parts| == |components|
    && s == "(" + Join(parts) + ")"
    && forall i :: 0 <= i < |parts| ==> Spells(parts[i], components[i])
  }

  // ------------------------------------------------------ spellings are tokens

  lemma SizedNameIsPlain(keyword: string, s: string, n: usize)
    requires Plain(keyword) && SizedName(keyword, s, n)
    ensures s != "" && Plain(s)
  {
    var num := s[|keyword|..];
    assert forall i :: 0 <= i < |num| ==> num[i] == '+' || IsDigit(num[i]) by {
      NumeralChars(num, n);
    }
    assert s == keyword + num;
  }

  lemma NumeralChars(num: string, n: usize)
    requires Numeral(num, n)
    ensures num != "" && IsDigit(num[|num| - 1])
    ensures forall i :: 0 <= i < |num| ==> num[i] == '+' || IsDigit(num[i])
  {
    var digits := if num[0] == '+' then num[1..] else num;
    forall i | 0 <= i < |num| ensures num[i] == '+' || IsDigit(num[i]) {
      assert num[0] == '+' && i > 0 ==> digits[i - 1] == num[i];
    }
    assert digits[|digits| - 1] == num[|num| - 1];
  }

  /** A keyword, alone or with a number. */
  lemma NameIsPlain(keyword: string, s: string, n: usize)
    requires keyword != "" && Plain(keyword) && (s == keyword || SizedName(keyword, s, n))
    ensures s != "" && Plain(s)
  {
    if s != keyword {
      SizedNameIsPlain(keyword, s, n);
    }
  }

  lemma KeywordsArePlain()
    ensures Plain("address") && Plain("bytes") && Plain("bool") && Plain("string") && Plain("int") && Plain("uint")
  {
  }

  lemma AtomIsPlain(s: string, t: ParamType)
    requires IsAtom(t) && SpellsAtom(s, t)
    ensures s != "" && Plain(s)
  {
    KeywordsArePlain();
    match t
    case Int(bits) => NameIsPlain("int", s, bits);
    case Uint(bits) => NameIsPlain("uint", s, bits);
    case FixedBytes(size) => NameIsPlain("bytes", s, size);
    case _ =>
  }

  lemma ArrayWitness(s: string, t: ParamType) returns (p: string)
    requires t.Array? && Spells(s, t)
    ensures s == Bracketed(p, "") && Spells(p, t.elem)
  {
    p :| s == Bracketed(p, "") && Spells(p, t.elem);
  }

  lemma FixedArrayWitness(s: string, t: ParamType) returns (p: string, num: string)
    requires t.FixedArray? && Spells(s, t)
    ensures s == Bracketed(p, num) && Spells(p, t.elem) && Numeral(num, t.len)
  {
    p, num :| s == Bracketed(p, num) && Spells(p, t.elem) && Numeral(num, t.len);
  }

  lemma TupleWitness(s: string, t: ParamType) returns (parts: seq<string>)
    requires t.Tuple? && Spells(s, t) && s != "tuple"
    ensures SpellsParts(parts, s, t.components)
  {
    parts :| SpellsParts(parts, s, t.components);
  }

  /** Every spelling is a non-empty token. */
  lemma {:induction false} SpellingIsToken(s: string, t: ParamType)
    requires Spells(s, t)
    ensures s != "" && IsToken(s)
    decreases t, 1
  {
    if t.Array? {
      var p := ArrayWitness(s, t);
      SpellingIsToken(p, t.elem);
      BracketedIsToken(p, "");
    } else if t.FixedArray? {
      FixedArraySpellingIsToken(s, t);
    } else if t.Tuple? && s != "tuple" {
      var parts := TupleWitness(s, t);
      TupleSpellingIsToken(parts, s, t.components);
    } else if t.Tuple? {
      PlainIsToken(s);
    } else {
      AtomIsPlain(s, t);
      PlainIsToken(s);
    }
  }

  lemma {:induction false} FixedArraySpellingIsToken(s: string, t: ParamType)
    requires t.FixedArray? && Spells(s, t)
    ensures s != "" && IsToken(s)
    decreases t, 0
  {
    var p, num := FixedArrayWitness(s, t);
    SpellingIsToken(p, t.elem);
    NumeralChars(num, t.len);
    BracketedIsToken(p, num);
  }

  lemma BracketedIsToken(p: string, num: string)
    requires IsToken(p) && Plain(num)
    ensures IsToken(Bracketed(p, num))
  {
    var suffix := ['['] + num + [']'];
    PlainSuffix(p, suffix);
    assert Bracketed(p, num) == p + suffix;
  }

  lemma {:induction false} TupleSpellingIsToken(parts: seq<string>, s: string, components: seq<ParamType>)
    requires SpellsParts(parts, s, components)
    ensures s != "" && IsToken(s)
    decreases components, 1
  {
    PartsAreTokens(parts, s, components);
    ParenthesisedIsToken(parts);
  }

  lemma {:induction false} PartsAreTokens(parts: seq<string>, s: string, components: seq<ParamType>)
    requires SpellsParts(parts, s, components)
    ensures forall i :: 0 <= i < |parts| ==> parts[i] != "" && IsToken(parts[i])
    decreases components, 0
  {
    forall i | 0 <= i < |parts| ensures parts[i] != "" && IsToken(parts[i]) {
      SpellingIsToken(parts[i], components[i]);
    }
  }

  lemma PlainSuffix(p: string, suffix: string)
    requires IsToken(p) && Plain(suffix)
    ensures IsToken(p + suffix)
  {
    PlainIsToken(suffix);
    ClosedConcat(p, 0, suffix, 0);
  }

  // ------------------------------------------------ reading what the grammar allows

  lemma {:induction false} AfterBracket(p: string, num: string)
    requires forall i :: 0 <= i < |num| ==> num[i] != '['
    ensures AfterLastBracket(p + ['['] + num) == num
    decreases |num|
  {
    var s := p + ['['] + num;
    if num == "" {
      assert s[|s| - 1] == '[';
    } else {
      AfterBracket(p, num[..|num| - 1]);
      assert s[..|s| - 1] == p + ['['] + num[..|num| - 1];
      assert s[|s| - 1] == num[|num| - 1];
      assert num == num[..|num| - 1] + [num[|num| - 1]];
    }
  }

  lemma ParseNumeral(num: string, len: usize)
    requires Numeral(num, len)
    ensures num != "" && ParseUsize(num) == Some(len)
    ensures forall i :: 0 <= i < |num| ==> num[i] != '['
  {
    NumeralChars(num, len);
  }

  lemma BracketedFront(p: string, num: string)
    ensures var s := Bracketed(p, num); s[..|s| - 1] == p + ['['] + num && s[..|p|] == p
  {
  }

  lemma SplitDynamic(p: string)
    ensures SplitArray(Bracketed(p, "")) == Ok((p, None))
  {
    BracketedFront(p, "");
    AfterBracket(p, "");
  }

  lemma SplitFixed(p: string, num: string, len: usize)
    requires Numeral(num, len)
    ensures SplitArray(Bracketed(p, num)) == Ok((p, Some(len)))
  {
    BracketedFront(p, num);
    ParseNumeral(num, len);
    AfterBracket(p, num);
  }

  lemma ReadParenthesised(parts: seq<string>)
    requires forall i :: 0 <= i < |parts| ==> parts[i] != "" && IsToken(parts[i])
    ensures var s := "(" + Join(parts) + ")";
            && Tokens(s[1..|s| - 1]) == Ok(parts)
            && Read(s) == var r := ReadAll(parts, |s| - 2); if r.Ok? then Ok(Tuple(r.value)) else Err(r.error)
  {
    var s := "(" + Join(parts) + ")";
    assert s[1..|s| - 1] == Join(parts);
    TokenizeIff(Join(parts), parts);
  }

  /** Looking a name up in the table of names, entry by entry. */
  lemma LookupNameCases(s: string)
    ensures LookupName(s, NAMES) ==
            if s == "address" then Some(Address)
            else if s == "bytes" then Some(Bytes)
            else if s == "bool" then Some(Bool)
            else if s == "string" then Some(String)
            else if s == "int" then Some(Int(256))
            else if s == "tuple" then Some(Tuple([]))
            else if s == "uint" then Some(Uint(256))
            else None
  {
    var t6 := NAMES[1..][1..][1..][1..][1..][1..];
    assert t6 == [("uint", Uint(256))];
    assert t6[1..] == [];
    var t5 := NAMES[1..][1..][1..][1..][1..];
    assert LookupName(s, t5) == if s == "tuple" then Some(Tuple([])) else LookupName(s, t6);
    var t4 := NAMES[1..][1..][1..][1..];
    assert LookupName(s, t4) == if s == "int" then Some(Int(256)) else LookupName(s, t5);
    var t3 := NAMES[1..][1..][1..];
    assert LookupName(s, t3) == if s == "string" then Some(String) else LookupName(s, t4);
    var t2 := NAMES[1..][1..];
    assert LookupName(s, t2) == if s == "bool" then Some(Bool) else LookupName(s, t3);
    var t1 := NAMES[1..];
    assert LookupName(s, t1) == if s == "bytes" then Some(Bytes) else LookupName(s, t2);
  }

  lemma LookupPrefixCases(s: string)
    ensures LookupPrefix(s, PREFIXES) ==
            if "int" <= s then Some(("int", IntKind))
            else if "uint" <= s then Some(("uint", UintKind))
            else if "bytes" <= s then Some(("bytes", BytesKind))
            else None
  {
    var p2 := PREFIXES[1..][1..];
    assert p2 == [("bytes", BytesKind)];
    assert p2[1..] == [];
    var p1 := PREFIXES[1..];
    assert LookupPrefix(s, p1) == if "uint" <= s then Some(("uint", UintKind)) else LookupPrefix(s, p2);
  }

  /** A prefix and a numeral make neither a plain name nor a name that continues another prefix. */
  lemma SizedNameLookup(keyword: string, s: string, n: usize, kind: SizedKind)
    requires SizedName(keyword, s, n)
    requires (keyword, kind) in PREFIXES
    ensures LookupName(s, NAMES) == None
    ensures LookupPrefix(s, PREFIXES) == Some((keyword, kind))
  {
    LookupNameCases(s);
    LookupPrefixCases(s);
    NumeralChars(s[|keyword|..], n);
    assert s[|s| - 1] == s[|keyword|..][|s| - |keyword| - 1];
    assert IsDigit(s[|s| - 1]);
    assert s[0] == keyword[0];
  }

  lemma ReadSizedName(keyword: string, s: string, n: usize, kind: SizedKind)
    requires SizedName(keyword, s, n)
    requires (keyword, kind) in PREFIXES
    ensures ReadAtom(s) == Ok(Sized(kind, n)) && s != "" && IsDigit(s[|s| - 1])
  {
    SizedNameLookup(keyword, s, n, kind);
    NumeralChars(s[|keyword|..], n);
  }

  /** Atoms end neither in `)` nor in `]`. */
  predicate EndsPlainly(s: string) {
    s != "" && s[|s| - 1] != ')' && s[|s| - 1] != ']'
  }

  lemma ReadKeyword(s: string, t: ParamType)
    requires (s, t) in [("address", Address), ("bytes", Bytes), ("bool", Bool), ("string", String), ("int", Int(256)), ("uint", Uint(256))]
    ensures ReadAtom(s) == Ok(t) && EndsPlainly(s)
  {
    LookupNameCases(s);
  }

  lemma ReadAtomComplete(s: string, t: ParamType)
    requires IsAtom(t) && SpellsAtom(s, t)
    ensures ReadAtom(s) == Ok(t) && EndsPlainly(s)
  {
    match t
    case Int(bits) =>
      if s == "int" && bits == 256 {
        ReadKeyword(s, t);
      } else {
        ReadSizedName("int", s, bits, IntKind);
      }
    case Uint(bits) =>
      if s == "uint" && bits == 256 {
        ReadKeyword(s, t);
      } else {
        ReadSizedName("uint", s, bits, UintKind);
      }
    case FixedBytes(size) => ReadSizedName("bytes", s, size, BytesKind);
    case _ => ReadKeyword(s, t);
  }

  lemma {:induction false} ReadComplete(s: string, t: ParamType)
    requires Spells(s, t)
    ensures Read(s) == Ok(t)
    decreases t, 1
  {
    if t.Array? {
      ReadArrayComplete(s, t);
    } else if t.FixedArray? {
      ReadFixedArrayComplete(s, t);
    } else if t.Tuple? && s != "tuple" {
      var parts := TupleWitness(s, t);
      ReadTupleComplete(parts, s, t.components);
    } else if t.Tuple? {
      LookupNameCases(s);
    } else {
      ReadAtomComplete(s, t);
    }
  }

  lemma ReadBracketed(s: string, p: string, len: Option<usize>, elem: ParamType)
    requires s != "" && s[|s| - 1] == ']' && SplitArray(s) == Ok((p, len)) && Read(p) == Ok(elem)
    ensures Read(s) == Ok(if len.Some? then FixedArray(elem, len.value) else Array(elem))
  {
  }

  lemma {:induction false} ReadArrayComplete(s: string, t: ParamType)
    requires t.Array? && Spells(s, t)
    ensures Read(s) == Ok(t)
    decreases t, 0
  {
    var p := ArrayWitness(s, t);
    ReadComplete(p, t.elem);
    SplitDynamic(p);
    ReadBracketed(s, p, None, t.elem);
  }

  lemma {:induction false} ReadFixedArrayComplete(s: string, t: ParamType)
    requires t.FixedArray? && Spells(s, t)
    ensures Read(s) == Ok(t)
    decreases t, 0
  {
    var p, num := FixedArrayWitness(s, t);
    ReadComplete(p, t.elem);
    SplitFixed(p, num, t.len);
    ReadBracketed(s, p, Some(t.len), t.elem);
  }

  lemma {:induction false} ReadTupleComplete(parts: seq<string>, s: string, components: seq<ParamType>)
    requires SpellsParts(parts, s, components)
    ensures Read(s) == Ok(Tuple(components))
    decreases components, 1
  {
    PartsAreTokens(parts, s, components);
    ReadParenthesised(parts);
    ReadAllComplete(parts, s, components);
  }

  lemma {:induction false} ReadAllComplete(parts: seq<string>, s: string, components: seq<ParamType>)
    requires SpellsParts(parts, s, components)
    requires forall i :: 0 <= i < |parts| ==> |parts[i]| <= |s| - 2
    ensures |s| >= 2 && ReadAll(parts, |s| - 2) == Ok(components)
    decreases components, 0
  {
    forall i | 0 <= i < |parts| ensures Read(parts[i]) == Ok(components[i]) {
      ReadComplete(parts[i], components[i]);
    }
    ReadAllPointwise(parts, |s| - 2, components);
  }

  lemma {:induction false} ReadAllPointwise(parts: seq<string>, bound: nat, ts: seq<ParamType>)
    requires forall i :: 0 <= i < |parts| ==> |parts[i]| <= bound
    ensures ReadAll(parts, bound) == Ok(ts) <==>
              |ts| == |parts| && forall i :: 0 <= i < |parts| ==> Read(parts[i]) == Ok(ts[i])
    decreases |parts|
  {
    if parts != [] && ts != [] {
      ReadAllPointwise(parts[1..], bound, ts[1..]);
      assert ts == [ts[0]] + ts[1..];
    }
  }

  // --------------------------------------------------- the grammar allows what is read

  lemma ReadAtomSound(s: string)
    requires ReadAtom(s).Ok?
    ensures Spells(s, ReadAtom(s).value)
  {
    LookupNameCases(s);
    LookupPrefixCases(s);
    if LookupName(s, NAMES).None? {
      var (prefix, kind) := LookupPrefix(s, PREFIXES).value;
      var n := ParseUsize(s[|prefix|..]).value;
      assert SizedName(prefix, s, n);
    }
  }

  lemma ArraySpelling(p: string, elem: ParamType)
    requires Spells(p, elem)
    ensures Spells(Bracketed(p, ""), Array(elem))
  {
  }

  lemma FixedArraySpelling(p: string, num: string, elem: ParamType, len: usize)
    requires Spells(p, elem) && Numeral(num, len)
    ensures Spells(Bracketed(p, num), FixedArray(elem, len))
  {
  }

  lemma JoinAtBracket(s: string, front: string, num: string, p: string)
    requires |s| >= 2 && s[|s| - 1] == ']' && front == s[..|s| - 1]
    requires |num| < |front| && front[|front| - |num|..] == num && front[|front| - |num| - 1] == '['
    requires p == s[..|s| - |num| - 2]
    ensures s == Bracketed(p, num)
  {
    assert front[|p|..] == ['['] + num;
    assert s == front + [']'];
    assert front == p + front[|p|..];
  }

  /** How an accepted name that ends in `]` comes apart. */
  lemma SplitArraySound(s: string) returns (p: string, num: string)
    requires s != "" && s[|s| - 1] == ']' && SplitArray(s).Ok?
    ensures s == Bracketed(p, num) && p == SplitArray(s).value.0
    ensures match SplitArray(s).value.1
            case None => num == ""
            case Some(len) => Numeral(num, len)
  {
    var front := s[..|s| - 1];
    num := AfterLastBracket(front);
    p := s[..|s| - |num| - 2];
    JoinAtBracket(s, front, num, p);
  }

  /** How an accepted name that ends in `)` comes apart. */
  lemma SplitParentheses(s: string) returns (parts: seq<string>)
    requires Read(s).Ok? && s != "" && s[|s| - 1] == ')'
    ensures s == "(" + Join(parts) + ")"
    ensures var t := Read(s).value; t.Tuple? && |parts| == |t.components|
                                    && forall i :: 0 <= i < |parts| ==>
                                         |parts[i]| < |s| && Read(parts[i]) == Ok(t.components[i])
  {
    var inner := s[1..|s| - 1];
    parts := Tokens(inner).value;
    var components := ReadAll(parts, |s| - 2).value;
    assert Read(s).value == Tuple(components);
    ReadAllPointwise(parts, |s| - 2, components);
    assert s == "(" + inner + ")";
    TokenizeIff(inner, parts);
  }

  lemma {:induction false} ReadSound(s: string)
    requires Read(s).Ok?
    ensures Spells(s, Read(s).value)
    decreases |s|
  {
    var t := Read(s).value;
    if s != "" && s[|s| - 1] == ')' {
      var parts := SplitParentheses(s);
      forall i | 0 <= i < |parts| ensures Spells(parts[i], t.components[i]) {
        ReadSound(parts[i]);
      }
      assert SpellsParts(parts, s, t.components);
    } else if s != "" && s[|s| - 1] == ']' {
      var p, num := SplitArraySound(s);
      ReadSound(p);
      if t.Array? {
        ArraySpelling(p, t.elem);
      } else {
        FixedArraySpelling(p, num, t.elem, t.len);
      }
    } else {
      ReadAtomSound(s);
    }
  }

  /** Reading accepts exactly the grammar, with exactly the type the grammar assigns. */
  lemma ReadIff(s: string, t: ParamType)
    ensures Read(s) == Ok(t) <==> Spells(s, t)
  {
    if Spells(s, t) {
      ReadComplete(s, t);
    }
    if Read(s) == Ok(t) {
      ReadSound(s);
    }
  }

  /** No name denotes two types. */
  lemma SpellingIsUnambiguous(s: string, t: ParamType, u: ParamType)
    requires Spells(s, t) && Spells(s, u)
    ensures t == u
  {
    ReadIff(s, t);
    ReadIff(s, u);
  }

  // -------------------------------------------------------------------- round trip

  lemma {:induction false} PrintSpells(t: ParamType)
    ensures Spells(Print(t), t)
    decreases t
  {
    match t
    case Array(elem) =>
      PrintSpells(elem);
      ArraySpelling(Print(elem), elem);
      assert Print(t) == Bracketed(Print(elem), "");
    case FixedArray(elem, len) =>
      PrintSpells(elem);
      DecimalIsNumeral(len);
      FixedArraySpelling(Print(elem), Decimal(len), elem, len);
    case Tuple(components) =>
      PrintAllSpells(components);
      assert SpellsParts(PrintAll(components), Print(t), components);
    case Int(bits) =>
      PrintSized("int", bits);
    case Uint(bits) =>
      PrintSized("uint", bits);
    case FixedBytes(size) =>
      PrintSized("bytes", size);
    case _ =>
  }

  lemma {:induction false} PrintAllSpells(ts: seq<ParamType>)
    ensures forall i :: 0 <= i < |ts| ==> Spells(PrintAll(ts)[i], ts[i])
    decreases ts
  {
    forall i | 0 <= i < |ts| ensures Spells(PrintAll(ts)[i], ts[i]) {
      PrintSpells(ts[i]);
    }
  }

  lemma DecimalIsNumeral(n: usize)
    ensures Numeral(Decimal(n), n)
  {
    assert IsDigit(Decimal(n)[0]);
  }

  lemma PrintSized(keyword: string, n: usize)
    ensures SizedName(keyword, keyword + Decimal(n), n)
  {
    DecimalIsNumeral(n);
    assert (keyword + Decimal(n))[|keyword|..] == Decimal(n);
  }

  /** Reading undoes printing for every type, valid or not. */
  lemma RoundTrip(t: ParamType)
    ensures Read(Print(t)) == Ok(t)
  {
    PrintSpells(t);
    ReadIff(Print(t), t);
  }

  /** The checked parser accepts a printed type exactly when the type is valid. */
  lemma ParseRoundTrip(t: ParamType)
    ensures ParseParamType(Print(t)) == Ok(t) <==> IsValid(t)
  {
    RoundTrip(t);
  }

  /** Different types print differently. */
  lemma PrintInjective(t: ParamType, u: ParamType)
    requires Print(t) == Print(u)
    ensures t == u
  {
    RoundTrip(t);
    RoundTrip(u);
  }
}
