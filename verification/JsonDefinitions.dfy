/**
 * Definitions as ABI JSON files hold them. `encodeInputType` knows only two of the ways in which a
 * tuple can be written there; this says for which types its result is the canonical name.
 */
module JsonDefinitions {
  import opened Wrappers
  import opened Text
  import opened DataTypes
  import opened TypeGrammar
  import opened Signatures
  import opened SignatureLaws
  import opened CanonicalNames

  /**
   * The input that an ABI JSON file holds for `t`, apart from names and flags: tuples are written
   * `tuple` with their components, and array suffixes are appended to that word.
   */
  function JsonInput(t: ParamType): AbiInput {
    match t
    case Tuple(components) => AbiInput(None, "tuple", Present(JsonInputs(components)), None)
    case Array(elem) => var inner := JsonInput(elem); inner.(typ := inner.typ + "[]")
    case FixedArray(elem, len) => var inner := JsonInput(elem); inner.(typ := inner.typ + "[" + Decimal(len) + "]")
    case _ => AbiInput(None, Print(t), Absent, None)
  }

  function JsonInputs(ts: seq<ParamType>): (r: seq<AbiInput>)
    ensures |r| == |ts|
    ensures forall i :: 0 <= i < |ts| ==> r[i] == JsonInput(ts[i])
  {
    if ts == [] then [] else [JsonInput(ts[0])] + JsonInputs(ts[1..])
  }

  /** The input without its name and flag and those of its components. */
  function Bare(input: AbiInput): AbiInput {
    var components :=
      match input.components
      case Absent => Absent
      case Present(inputs) => Present(BareAll(inputs));
    AbiInput(None, input.typ, components, None)
  }

  function BareAll(inputs: seq<AbiInput>): (r: seq<AbiInput>)
    ensures |r| == |inputs|
    ensures forall i :: 0 <= i < |inputs| ==> r[i] == Bare(inputs[i])
  {
    if inputs == [] then [] else [Bare(inputs[0])] + BareAll(inputs[1..])
  }

  /** An ABI file may hold `input` for an argument of type `t`, under any name. */
  predicate IsJsonOf(input: AbiInput, t: ParamType) {
    Bare(input) == JsonInput(t)
  }

  predicate AreJsonOf(inputs: seq<AbiInput>, ts: seq<ParamType>) {
    |inputs| == |ts| && forall i :: 0 <= i < |ts| ==> IsJsonOf(inputs[i], ts[i])
  }

  /** Names and flags do not matter to the encoder. */
  lemma {:induction false} EncodeBare(input: AbiInput)
    ensures EncodeInputType(Bare(input)) == EncodeInputType(input)
    decreases input, 0
  {
    if input.components.Present? {
      EncodeAllBare(input.components.inputs);
    }
  }

  lemma {:induction false} EncodeAllBare(inputs: seq<AbiInput>)
    ensures EncodeInputTypes(BareAll(inputs)) == EncodeInputTypes(inputs)
    decreases inputs
  {
    if inputs != [] {
      EncodeBare(inputs[0]);
      EncodeAllBare(inputs[1..]);
      assert BareAll(inputs)[1..] == BareAll(inputs[1..]);
    }
  }

  /** What an array type is an array of, through any number of dimensions. */
  function Base(t: ParamType): ParamType {
    if t.Array? || t.FixedArray? then Base(t.elem) else t
  }

  /** The shapes that `encodeInputType` knows: `tuple` and `tuple[]`, with components. */
  predicate IsEncodable(t: ParamType) {
    match t
    case Tuple(components) => components != [] && forall i :: 0 <= i < |components| ==> IsEncodable(components[i])
    case Array(elem) => !Base(elem).Tuple? || (elem.Tuple? && IsEncodable(elem))
    case FixedArray(elem, _) => !Base(elem).Tuple?
    case _ => true
  }

  /** Without a tuple at its base, a type is written out in full. */
  lemma {:induction false} JsonWithoutTuple(t: ParamType)
    requires !Base(t).Tuple?
    ensures JsonInput(t).typ == Print(t) && EncodeInputType(JsonInput(t)) == Ok(Print(t))
  {
    if t.Array? || t.FixedArray? {
      JsonWithoutTuple(t.elem);
    }
    PrintIsNotAlias(t);
  }

  /** The type word of anything based on a tuple, and when it is one of the two known words. */
  lemma {:induction false} JsonTupleArray(t: ParamType)
    requires Base(t).Tuple?
    ensures var typ := JsonInput(t).typ;
            && |typ| >= 5 && typ[0] == 't'
            && (typ == "tuple" <==> t.Tuple?)
            && (typ == "tuple[]" <==> t.Array? && t.elem.Tuple?)
    decreases t
  {
    if t.Array? {
      JsonTupleArray(t.elem);
      SuffixWords(JsonInput(t.elem).typ, "[]");
    } else if t.FixedArray? {
      JsonTupleArray(t.elem);
      var suffix := "[" + Decimal(t.len) + "]";
      assert JsonInput(t).typ == JsonInput(t.elem).typ + suffix;
      SuffixWords(JsonInput(t.elem).typ, suffix);
    }
  }

  /** Appending an array suffix to a word that starts like `tuple`. */
  lemma SuffixWords(word: string, suffix: string)
    requires |word| >= 5 && word[0] == 't' && |suffix| >= 2
    requires suffix[|suffix| - 1] == ']' && (suffix == "[]" || IsDigit(suffix[|suffix| - 2]))
    ensures var typ := word + suffix;
            typ[0] == 't' && typ != "tuple" && (typ == "tuple[]" <==> word == "tuple" && suffix == "[]")
  {
    var typ := word + suffix;
    assert typ[|typ| - 2] == suffix[|suffix| - 2];
    if typ == "tuple[]" {
      assert "tuple[]"[5] == '[';
      assert word == typ[..5];
    }
  }

  lemma {:induction false} PrintStart(t: ParamType)
    requires Base(t).Tuple?
    ensures Print(t) != "" && Print(t)[0] == '('
  {
    if t.Array? || t.FixedArray? {
      PrintStart(t.elem);
    }
  }

  /** What the encoder makes of a tuple with these components, bare or as `tuple[]`. */
  function EncodedTuple(components: seq<ParamType>, suffix: string): Result<string, SigError> {
    if components == [] then Err(EmptyTuple)
    else
      var types :- EncodeInputTypes(JsonInputs(components));
      Ok("(" + Join(types) + ")" + suffix)
  }

  lemma EncodeBareTuple(t: ParamType)
    requires t.Tuple?
    ensures EncodeInputType(JsonInput(t)) == EncodedTuple(t.components, "")
  {
    assert forall s: string :: s + "" == s;
  }

  lemma TupleArrayInput(t: ParamType)
    requires t.Array? && t.elem.Tuple?
    ensures JsonInput(t) == AbiInput(None, "tuple[]", Present(JsonInputs(t.elem.components)), None)
  {
    assert JsonInput(t.elem).typ == "tuple";
    assert "tuple" + "[]" == "tuple[]";
  }

  lemma EncodeTupleArray(t: ParamType)
    requires t.Array? && t.elem.Tuple?
    ensures EncodeInputType(JsonInput(t)) == EncodedTuple(t.elem.components, "[]")
  {
    TupleArrayInput(t);
  }

  lemma EncodeOtherArray(t: ParamType)
    requires Base(t).Tuple? && !t.Tuple? && !(t.Array? && t.elem.Tuple?)
    ensures EncodeInputType(JsonInput(t)) == Ok(JsonInput(t).typ)
    ensures JsonInput(t).typ != "" && JsonInput(t).typ[0] == 't'
  {
    JsonTupleArray(t);
  }

  lemma {:induction false} BareEncodingIsToken(t: ParamType)
    requires EncodeInputType(JsonInput(t)).Ok?
    ensures var s := EncodeInputType(JsonInput(t)).value; s != "" && IsToken(s)
    decreases t, 1
  {
    if !Base(t).Tuple? {
      JsonWithoutTuple(t);
      PrintSpells(t);
      SpellingIsToken(Print(t), t);
    } else if t.Tuple? {
      EncodeBareTuple(t);
      JsonTupleIsToken(t.components, "");
    } else if t.Array? && t.elem.Tuple? {
      EncodeTupleArray(t);
      JsonTupleIsToken(t.elem.components, "[]");
    } else {
      EncodeOtherArray(t);
      JsonSuffixIsPlain(t);
      PlainIsToken(JsonInput(t).typ);
    }
  }

  lemma {:induction false} JsonSuffixIsPlain(t: ParamType)
    requires Base(t).Tuple?
    ensures Plain(JsonInput(t).typ)
  {
    if t.Array? || t.FixedArray? {
      JsonSuffixIsPlain(t.elem);
      var typ := JsonInput(t.elem).typ;
      if t.FixedArray? {
        var num := Decimal(t.len);
        assert Plain(num) by {
          assert forall i :: 0 <= i < |num| ==> IsDigit(num[i]);
        }
      }
    }
  }

  lemma {:induction false} JsonTupleIsToken(ts: seq<ParamType>, suffix: string)
    requires EncodedTuple(ts, suffix).Ok? && Plain(suffix)
    ensures IsToken(EncodedTuple(ts, suffix).value)
    decreases ts, 0
  {
    var types := EncodeInputTypes(JsonInputs(ts)).value;
    forall i | 0 <= i < |types| ensures IsToken(types[i]) {
      BareEncodingIsToken(ts[i]);
    }
    ParenthesisedIsToken(types);
    PlainSuffix("(" + Join(types) + ")", suffix);
  }

  /** The component names come out right together if and only if each does. */
  lemma {:induction false} JsonComponentsIff(ts: seq<ParamType>)
    ensures var r := EncodeInputTypes(JsonInputs(ts));
            r.Ok? && Join(r.value) == Join(PrintAll(ts)) <==> forall i :: 0 <= i < |ts| ==> IsEncodable(ts[i])
    decreases ts, 0
  {
    forall i | 0 <= i < |ts| ensures EncodeInputType(JsonInput(ts[i])) == Ok(Print(ts[i])) <==> IsEncodable(ts[i]) {
      BareEncodingIff(ts[i]);
    }
    var r := EncodeInputTypes(JsonInputs(ts));
    if r.Ok? && Join(r.value) == Join(PrintAll(ts)) {
      SameJoin(ts, r.value);
      forall i | 0 <= i < |ts| ensures IsEncodable(ts[i]) {
        assert r.value[i] == Print(ts[i]);
      }
    }
    if forall i :: 0 <= i < |ts| ==> IsEncodable(ts[i]) {
      assert r.Ok?;
      assert r.value == PrintAll(ts);
    }
  }

  /** Lists of non-empty tokens with the same join are the same. */
  lemma JoinIsInjective(a: seq<string>, b: seq<string>)
    requires Join(a) == Join(b)
    requires forall i :: 0 <= i < |a| ==> a[i] != "" && IsToken(a[i])
    requires forall i :: 0 <= i < |b| ==> b[i] != "" && IsToken(b[i])
    ensures a == b
  {
    TokenizeIff(Join(a), a);
    TokenizeIff(Join(b), b);
  }

  lemma SameJoin(ts: seq<ParamType>, types: seq<string>)
    requires EncodeInputTypes(JsonInputs(ts)) == Ok(types) && Join(types) == Join(PrintAll(ts))
    ensures types == PrintAll(ts)
  {
    forall i | 0 <= i < |ts|
      ensures types[i] != "" && IsToken(types[i]) && PrintAll(ts)[i] != "" && IsToken(PrintAll(ts)[i])
    {
      BareEncodingIsToken(ts[i]);
      PrintSpells(ts[i]);
      SpellingIsToken(Print(ts[i]), ts[i]);
    }
    JoinIsInjective(types, PrintAll(ts));
  }

  lemma SameInParentheses(a: string, b: string, suffix: string)
    ensures "(" + a + ")" + suffix == "(" + b + ")" + suffix <==> a == b
  {
    var s := "(" + a + ")" + suffix;
    var t := "(" + b + ")" + suffix;
    assert a == s[1..|s| - 1 - |suffix|];
    assert b == t[1..|t| - 1 - |suffix|];
  }

  /** One tuple, alone or as the element of a dynamic array. */
  lemma JsonTupleIff(components: seq<ParamType>, suffix: string)
    ensures EncodedTuple(components, suffix) == Ok(Print(Tuple(components)) + suffix) <==>
            IsEncodable(Tuple(components))
    decreases components, 1
  {
    JsonComponentsIff(components);
    var r := EncodeInputTypes(JsonInputs(components));
    if components != [] && r.Ok? {
      SameInParentheses(Join(r.value), Join(PrintAll(components)), suffix);
    }
  }

  lemma {:induction false} BareEncodingIff(t: ParamType)
    ensures EncodeInputType(JsonInput(t)) == Ok(Print(t)) <==> IsEncodable(t)
    decreases t, 2
  {
    if !Base(t).Tuple? {
      JsonWithoutTuple(t);
    } else if t.Tuple? {
      EncodeBareTuple(t);
      JsonTupleIff(t.components, "");
      assert Print(t) + "" == Print(t);
    } else if t.Array? && t.elem.Tuple? {
      EncodeTupleArray(t);
      JsonTupleIff(t.elem.components, "[]");
    } else {
      EncodeOtherArray(t);
      PrintStart(t);
    }
  }

  /**
   * The encoded type of an input read from an ABI file is the canonical one if and only if every
   * tuple in it is non-empty and reached as `tuple` or `tuple[]`.
   */
  lemma JsonEncodingIff(input: AbiInput, t: ParamType)
    requires IsJsonOf(input, t)
    ensures var r := EncodeInputType(input); r.Ok? && IsCanonical(r.value, t) <==> IsEncodable(t)
  {
    EncodeBare(input);
    BareEncodingIff(t);
    if EncodeInputType(input).Ok? {
      CanonicalIff(EncodeInputType(input).value, t);
    }
  }

  /** Whatever name comes out, it is a non-empty token. */
  lemma JsonEncodingIsToken(input: AbiInput, t: ParamType)
    requires IsJsonOf(input, t) && EncodeInputType(input).Ok?
    ensures var s := EncodeInputType(input).value; s != "" && IsToken(s)
  {
    EncodeBare(input);
    BareEncodingIsToken(t);
  }
}
