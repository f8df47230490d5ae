/**
 * Sizes of definitions as ABI JSON files hold them. A fixed or nested array of tuples is written
 * with a name that reads back as an array of empty tuples, so its computed size can be too small;
 * this says for which definitions the selector still recognises their own encodings.
 */
module JsonSizes {
  import opened Wrappers
  import opened Text
  import opened DataTypes
  import opened TypeGrammar
  import opened Signatures
  import opened SignatureLaws
  import opened JsonDefinitions
  import opened Encoding
  import opened DataSize
  import opened Decode

  /** The definition has a name: no tuple that is written out is empty. */
  predicate IsNamed(t: ParamType) {
    match t
    case Tuple(components) => components != [] && forall i :: 0 <= i < |components| ==> IsNamed(components[i])
    case Array(elem) => elem.Tuple? ==> IsNamed(elem)
    case _ => true
  }

  predicate AllNamed(ts: seq<ParamType>) {
    forall i :: 0 <= i < |ts| ==> IsNamed(ts[i])
  }

  /** The same array type over the empty tuple. */
  function Emptied(t: ParamType): ParamType {
    match t
    case Array(elem) => Array(Emptied(elem))
    case FixedArray(elem, len) => FixedArray(Emptied(elem), len)
    case Tuple(_) => Tuple([])
    case _ => t
  }

  /** The type that the name of the definition denotes. */
  function Shown(t: ParamType): ParamType
    decreases t, 0
  {
    if t.Tuple? then Tuple(ShownAll(t.components))
    else if t.Array? && t.elem.Tuple? then Array(Shown(t.elem))
    else Emptied(t)
  }

  function ShownAll(ts: seq<ParamType>): (r: seq<ParamType>)
    ensures |r| == |ts|
    ensures forall i :: 0 <= i < |ts| ==> r[i] == Shown(ts[i])
    decreases ts, 1
  {
    seq(|ts|, i requires 0 <= i < |ts| => Shown(ts[i]))
  }

  lemma {:induction false} EmptiedAtom(t: ParamType)
    requires !Base(t).Tuple?
    ensures Emptied(t) == t
  {
    if t.Array? || t.FixedArray? {
      EmptiedAtom(t.elem);
    }
  }

  // ------------------------------------------------------------------------- names

  lemma SpellArray(name: string, p: string, elem: ParamType)
    requires name == p + "[]" && Spells(p, elem)
    ensures Spells(name, Array(elem))
  {
    assert name == Bracketed(p, "");
  }

  lemma SpellFixedArray(name: string, p: string, elem: ParamType, len: usize)
    requires name == p + "[" + Decimal(len) + "]" && Spells(p, elem)
    ensures Spells(name, FixedArray(elem, len))
  {
    DecimalIsNumeral(len);
    assert name == Bracketed(p, Decimal(len));
  }

  lemma {:induction false} EmptiedIsSpelled(t: ParamType)
    requires Base(t).Tuple?
    ensures Spells(JsonInput(t).typ, Emptied(t))
  {
    if t.Array? {
      EmptiedIsSpelled(t.elem);
      SpellArray(JsonInput(t).typ, JsonInput(t.elem).typ, Emptied(t.elem));
    } else if t.FixedArray? {
      EmptiedIsSpelled(t.elem);
      SpellFixedArray(JsonInput(t).typ, JsonInput(t.elem).typ, Emptied(t.elem), t.len);
    }
  }

  /** The name of a definition denotes the shown type, and there is one unless an empty tuple shows. */
  lemma {:induction false} BareIsSpelled(t: ParamType)
    ensures var r := EncodeInputType(JsonInput(t));
            if IsNamed(t) then r.Ok? && Spells(r.value, Shown(t)) else r.Err?
    decreases t, 2
  {
    if !Base(t).Tuple? {
      JsonWithoutTuple(t);
      PrintSpells(t);
      EmptiedAtom(t);
    } else if t.Tuple? {
      EncodeBareTuple(t);
      ShownTuple(t.components, "");
    } else if t.Array? && t.elem.Tuple? {
      EncodeTupleArray(t);
      ShownTuple(t.elem.components, "[]");
    } else {
      EncodeOtherArray(t);
      EmptiedIsSpelled(t);
    }
  }

  /** One written-out tuple, alone or as the element of a dynamic array. */
  lemma {:induction false} ShownTuple(components: seq<ParamType>, suffix: string)
    requires suffix in ["", "[]"]
    ensures var r, u := EncodedTuple(components, suffix), Tuple(ShownAll(components));
            if IsNamed(Tuple(components))
            then r.Ok? && Spells(r.value, if suffix == "" then u else Array(u)) else r.Err?
    decreases components, 1
  {
    var r := EncodeInputTypes(JsonInputs(components));
    forall i | 0 <= i < |components|
      ensures var e := EncodeInputType(JsonInputs(components)[i]);
              if IsNamed(components[i]) then e.Ok? && Spells(e.value, Shown(components[i])) else e.Err?
    {
      BareIsSpelled(components[i]);
    }
    if IsNamed(Tuple(components)) {
      SpellTuple(r.value, ShownAll(components), suffix);
    }
  }

  lemma SpellTuple(parts: seq<string>, us: seq<ParamType>, suffix: string)
    requires suffix in ["", "[]"]
    requires |parts| == |us| && forall i :: 0 <= i < |us| ==> Spells(parts[i], us[i])
    ensures Spells("(" + Join(parts) + ")" + suffix, if suffix == "" then Tuple(us) else Array(Tuple(us)))
  {
    var name := "(" + Join(parts) + ")";
    assert SpellsParts(parts, name, us);
    if suffix == "" {
      assert name + "" == name;
    } else {
      SpellArray(name + "[]", name, Tuple(us));
    }
  }

  /** The same for what an ABI file holds. */
  lemma ShownIsSpelled(input: AbiInput, t: ParamType)
    requires IsJsonOf(input, t)
    ensures var r := EncodeInputType(input);
            if IsNamed(t) then r.Ok? && Spells(r.value, Shown(t)) else r.Err?
  {
    EncodeBare(input);
    BareIsSpelled(t);
  }

  lemma {:induction false} ShownIsValid(t: ParamType)
    requires IsValid(t)
    ensures IsValid(Emptied(t)) && IsValid(Shown(t))
  {
    if t.Tuple? {
      forall i | 0 <= i < |t.components| ensures IsValid(Shown(t.components[i])) {
        ShownIsValid(t.components[i]);
      }
    } else if t.Array? || t.FixedArray? {
      ShownIsValid(t.elem);
    }
  }

  // ------------------------------------------------------------------------- sizes

  lemma Multiply(a: nat, b: nat, n: nat)
    requires a <= b
    ensures a * n <= b * n
    ensures a < b && n > 0 ==> a * n < b * n
  {
  }

  lemma {:induction false} SmallerSum(us: seq<ParamType>, ts: seq<ParamType>)
    requires |us| == |ts| && forall i :: 0 <= i < |ts| ==> MinSize(us[i]) <= MinSize(ts[i])
    ensures MinSizes(us) <= MinSizes(ts)
    ensures MinSizes(us) == MinSizes(ts) <==> forall i :: 0 <= i < |ts| ==> MinSize(us[i]) == MinSize(ts[i])
    decreases |ts|
  {
    if ts != [] {
      assert forall i :: 0 <= i < |ts[1..]| ==> us[1..][i] == us[i + 1] && ts[1..][i] == ts[i + 1];
      SmallerSum(us[1..], ts[1..]);
      assert (forall i :: 0 <= i < |ts| ==> MinSize(us[i]) == MinSize(ts[i])) <==>
             MinSize(us[0]) == MinSize(ts[0]) && forall i :: 0 <= i < |ts[1..]| ==> MinSize(us[1..][i]) == MinSize(ts[1..][i]);
    }
  }

  /** The name never promises more than the definition takes. */
  lemma {:induction false} ShownIsSmaller(t: ParamType)
    ensures MinSize(Emptied(t)) <= MinSize(t) && MinSize(Shown(t)) <= MinSize(t)
  {
    if t.Tuple? {
      forall i | 0 <= i < |t.components| ensures MinSize(Shown(t.components[i])) <= MinSize(t.components[i]) {
        ShownIsSmaller(t.components[i]);
      }
      SmallerSum(ShownAll(t.components), t.components);
    } else if t.FixedArray? {
      ShownIsSmaller(t.elem);
      Multiply(MinSize(Emptied(t.elem)), MinSize(t.elem), t.len);
    }
  }

  lemma {:induction false} SumHolds(ts: seq<ParamType>, i: nat)
    requires i < |ts|
    ensures MinSize(ts[i]) <= MinSizes(ts)
  {
    if i > 0 {
      SumHolds(ts[1..], i - 1);
    }
  }

  lemma {:induction false} DynamicTakesSpace(t: ParamType)
    requires IsValid(t) && IsDynamic(t)
    ensures MinSize(t) > 0
  {
    if t.Tuple? {
      var i :| 0 <= i < |t.components| && IsDynamic(t.components[i]);
      DynamicTakesSpace(t.components[i]);
      SumHolds(t.components, i);
    } else if t.FixedArray? {
      DynamicTakesSpace(t.elem);
      Multiply(0, MinSize(t.elem), t.len);
    }
  }

  lemma {:induction false} EmptiedTakesNothing(t: ParamType)
    requires Base(t).Tuple? && !IsDynamic(Emptied(t))
    ensures MinSize(Emptied(t)) == 0
  {
    if t.FixedArray? {
      EmptiedTakesNothing(t.elem);
    }
  }

  /** A dynamic type whose name denotes a static one has a name that promises too little. */
  lemma {:induction false} HiddenDynamic(t: ParamType)
    requires IsValid(t) && IsDynamic(t) && !IsDynamic(Shown(t))
    ensures MinSize(Shown(t)) < MinSize(t)
  {
    if t.Tuple? {
      var us := ShownAll(t.components);
      var i :| 0 <= i < |t.components| && IsDynamic(t.components[i]);
      assert !IsDynamic(us[i]);
      HiddenDynamic(t.components[i]);
      forall k | 0 <= k < |us| ensures MinSize(us[k]) <= MinSize(t.components[k]) {
        ShownIsSmaller(t.components[k]);
      }
      SmallerSum(us, t.components);
    } else if !Base(t).Tuple? {
      EmptiedAtom(t);
    } else {
      DynamicTakesSpace(t);
      EmptiedTakesNothing(t);
    }
  }

  // --------------------------------------------------------------------- selection

  lemma NamedHasTypes(abi: AbiItem, ts: seq<ParamType>)
    requires AreJsonOf(abi.inputs, ts) && AllValid(ts) && AllNamed(ts)
    ensures HasInputTypes(abi, ShownAll(ts))
  {
    forall i | 0 <= i < |ts| ensures InputHasType(abi.inputs[i], ShownAll(ts)[i]) {
      ShownIsSpelled(abi.inputs[i], ts[i]);
      ShownIsValid(ts[i]);
    }
  }

  lemma UnsizedInput(abi: AbiItem, i: nat)
    requires i < |abi.inputs| && InputSize(abi.inputs[i]).Err?
    ensures GetInputSize(abi).Err?
  {
    var sizeOf := (input: AbiInput) => InputSize(input);
    var r := Traverse(abi.inputs, sizeOf);
    if r.Ok? {
      TraverseIff(abi.inputs, sizeOf, r.value);
    }
  }

  lemma UnnamedHasNoSize(abi: AbiItem, ts: seq<ParamType>, i: nat)
    requires AreJsonOf(abi.inputs, ts) && i < |ts| && !IsNamed(ts[i])
    ensures GetInputSize(abi).Err?
  {
    ShownIsSpelled(abi.inputs[i], ts[i]);
    UnsizedInput(abi, i);
  }

  /** No name promises too little, and no argument is as large as the machine width. */
  predicate NamesKeepSize(ts: seq<ParamType>) {
    forall i :: 0 <= i < |ts| ==> MinSize(Shown(ts[i])) == MinSize(ts[i]) < USIZE_LIMIT
  }

  lemma ShownSizes(ts: seq<ParamType>)
    requires AllValid(ts)
    ensures TotalLength(ShownAll(ts)) <= MinSizes(ts)
    ensures TotalLength(ShownAll(ts)) == MinSizes(ts) <==> NamesKeepSize(ts)
    ensures AnyDynamic(ts) && !AnyDynamic(ShownAll(ts)) ==> TotalLength(ShownAll(ts)) < MinSizes(ts)
  {
    var us := ShownAll(ts);
    forall i | 0 <= i < |ts| ensures MinSize(us[i]) <= MinSize(ts[i]) {
      ShownIsSmaller(ts[i]);
    }
    SmallerSum(us, ts);
    TotalAgainstMinimum(us);
    if AnyDynamic(ts) && !AnyDynamic(us) {
      var i :| 0 <= i < |ts| && IsDynamic(ts[i]);
      assert !IsDynamic(us[i]);
      HiddenDynamic(ts[i]);
    }
  }

  /** Which pass admits `length` bytes of arguments of types `ts`, by the computed size. */
  lemma PhaseOfShown(data: string, ts: seq<ParamType>, length: nat)
    requires AllValid(ts) && |data| == 10 + 2 * length
    requires length >= MinSizes(ts) && (!AnyDynamic(ts) ==> length == MinSizes(ts))
    ensures var us := ShownAll(ts);
            PhaseOf(data, Size(TotalLength(us), !AnyDynamic(us))) < 2 <==> AnyDynamic(us) || NamesKeepSize(ts)
  {
    ShownSizes(ts);
  }

  lemma ArgumentsSize(vs: seq<Value>, ts: seq<ParamType>)
    requires HaveTypes(vs, ts)
    ensures |EncodeArguments(vs, ts)| >= MinSizes(ts)
    ensures !AnyDynamic(ts) ==> |EncodeArguments(vs, ts)| == MinSizes(ts)
  {
    ComponentsSize(vs, ts);
    HeadTailSize(EncodeComponents(vs, ts));
  }

  lemma NamedPhase(data: string, abi: AbiItem, ts: seq<ParamType>)
    requires AreJsonOf(abi.inputs, ts) && AllValid(ts) && AllNamed(ts)
    ensures Phase(data, abi) == PhaseOf(data, Size(TotalLength(ShownAll(ts)), !AnyDynamic(ShownAll(ts))))
  {
    NamedHasTypes(abi, ts);
    InputSizeOfTypes(abi, ShownAll(ts));
  }

  lemma UnnamedPhase(data: string, abi: AbiItem, ts: seq<ParamType>)
    requires AreJsonOf(abi.inputs, ts) && !AllNamed(ts)
    ensures Phase(data, abi) == 2
  {
    var i :| 0 <= i < |ts| && !IsNamed(ts[i]);
    UnnamedHasNoSize(abi, ts, i);
  }

  /**
   * A definition from an ABI file is tried before the brute-force pass on data that carries its own
   * arguments if and only if its inputs have names and either one of the named types is dynamic, or
   * every named type has the size of the real one, below 2^32 bytes.
   */
  lemma JsonEncodingIsAdmittedIff(data: string, abi: AbiItem, vs: seq<Value>, ts: seq<ParamType>)
    requires AreJsonOf(abi.inputs, ts) && AllValid(ts) && CarriesArguments(data, vs, ts)
    ensures Phase(data, abi) < 2 <==> AllNamed(ts) && (AnyDynamic(ShownAll(ts)) || NamesKeepSize(ts))
  {
    if AllNamed(ts) {
      NamedPhase(data, abi, ts);
      ArgumentsSize(vs, ts);
      PhaseOfShown(data, ts, |EncodeArguments(vs, ts)|);
    } else {
      UnnamedPhase(data, abi, ts);
    }
  }

  // ----------------------------------------------------------------------- example

  /** Two tuples of one word each: `tuple[2]`. */
  const PAIR := FixedArray(Tuple([Uint(256)]), 2)

  function PairOf(word: seq<byte>): Value {
    List([List([Word(word)]), List([Word(word)])])
  }

  lemma PairIsStatic()
    ensures AllValid([PAIR]) && AllNamed([PAIR]) && !AnyDynamic([PAIR]) && MinSizes([PAIR]) == 64
  {
    assert MinSizes([Uint(256)]) == 32;
    assert MinSizes([PAIR]) == MinSize(PAIR) + MinSizes([]);
  }

  lemma PairHasType(word: seq<byte>)
    requires |word| == 32
    ensures HaveTypes([PairOf(word)], [PAIR])
  {
    assert HaveTypes([Word(word)], [Uint(256)]);
    assert HasType(List([Word(word)]), Tuple([Uint(256)]));
  }

  lemma PairLooksEmpty()
    ensures var us := ShownAll([PAIR]); TotalLength(us) == 0 && !AnyDynamic(us)
  {
    var us, u := ShownAll([PAIR]), FixedArray(Tuple([]), 2);
    assert us == [u];
    assert GetDataSize(u) == (0, true);
    assert TotalLength([u]) == GetDataSize(u).0 + TotalLength([]);
  }

  /**
   * A definition with one such input is static and takes 64 bytes, but its computed size is exactly
   * zero, and its own encoding is left to the brute-force pass.
   */
  lemma FixedTupleArrayIsNotAdmitted(data: string, abi: AbiItem, word: seq<byte>)
    requires |data| == 10 + 2 * 64 && |word| == 32 && AreJsonOf(abi.inputs, [PAIR])
    ensures AllValid([PAIR]) && !AnyDynamic([PAIR]) && CarriesArguments(data, [PairOf(word)], [PAIR])
    ensures GetInputSize(abi) == Ok(Size(0, true)) && Phase(data, abi) == 2
  {
    PairIsStatic();
    PairHasType(word);
    ArgumentsSize([PairOf(word)], [PAIR]);
    PairLooksEmpty();
    NamedHasTypes(abi, [PAIR]);
    InputSizeOfTypes(abi, ShownAll([PAIR]));
  }
}
