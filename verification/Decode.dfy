/**
 * Choosing among several definitions that share a function selector: the candidate selector of
 * decode.ts, over an arbitrary foreign decoder.
 */
module Decode {
  import opened Wrappers
  import opened Text
  import opened DataTypes
  import opened TypeGrammar
  import opened Signatures
  import opened SignatureLaws
  import opened Encoding
  import opened DataSize

  datatype DecodeError =
    | BadSignature(cause: SigError)
    | BadTypes(typeError: Error)
    | DecoderFailed
    | SizeUnknown
    | NothingToDecode

  /** The decoded values with the definition they were decoded by. */
  datatype Call<V> = Call(abi: AbiItem, signature: string, values: seq<V>)

  /** The foreign decoder: the hex digits after the selector and the argument types. */
  type Decoder<!V> = (string, seq<ParamType>) -> Option<seq<V>>

  /** `data.slice(10)`: what follows `0x` and the four selector bytes. */
  function Payload(data: string): string {
    if |data| < 10 then "" else data[10..]
  }

  /** The argument types of a definition, by way of their encoded names. */
  function ParseTypes(types: seq<string>): Result<seq<ParamType>, Error> {
    Traverse(types, s => ParseParamType(s))
  }

  function DecodeFunctionCall<V>(data: string, abi: AbiItem, decoder: Decoder<V>): Result<Call<V>, DecodeError> {
    match ComputeSignature(abi)
    case Err(e) => Err(BadSignature(e))
    case Ok(signature) =>
      match EncodeInputTypes(abi.inputs)
      case Err(e) => Err(BadSignature(e))
      case Ok(types) =>
        match ParseTypes(types)
        case Err(e) => Err(BadTypes(e))
        case Ok(ts) =>
          match decoder(Payload(data), ts)
          case None => Err(DecoderFailed)
          case Some(values) => Ok(Call(abi, signature, values))
  }

  datatype Size = Size(length: nat, exact: bool)

  function InputSize(input: AbiInput): Result<Size, DecodeError> {
    match EncodeInputType(input)
    case Err(e) => Err(SizeUnknown)
    case Ok(typ) =>
      match ParseParamType(typ)
      case Err(e) => Err(SizeUnknown)
      case Ok(t) => var (length, exact) := GetDataSize(t); Ok(Size(length, exact))
  }

  function AddSizes(sizes: seq<Size>): Size {
    if sizes == [] then Size(0, true)
    else
      var total, cur := AddSizes(sizes[..|sizes| - 1]), sizes[|sizes| - 1];
      Size(total.length + cur.length, total.exact && cur.exact)
  }

  function GetInputSize(abi: AbiItem): Result<Size, DecodeError> {
    var sizes :- Traverse(abi.inputs, input => InputSize(input));
    Ok(AddSizes(sizes))
  }

  // ------------------------------------------------------------------- ranking

  predicate HasExactSize(data: string, size: Size) {
    |data| - 10 == 2 * size.length && size.exact
  }

  predicate HasDynamicSize(data: string, size: Size) {
    |data| - 10 >= 2 * size.length && !size.exact
  }

  /** The pass in which a candidate of this size is first tried: exact, dynamic, anything. */
  function PhaseOf(data: string, size: Size): nat {
    if HasExactSize(data, size) then 0 else if HasDynamicSize(data, size) then 1 else 2
  }

  function Phase(data: string, abi: AbiItem): nat {
    match GetInputSize(abi)
    case Err(_) => 2
    case Ok(size) => PhaseOf(data, size)
  }

  predicate AllSized(abis: seq<AbiItem>) {
    forall i :: 0 <= i < |abis| ==> GetInputSize(abis[i]).Ok?
  }

  function Phases(data: string, abis: seq<AbiItem>): (r: seq<nat>)
    ensures |r| == |abis|
    ensures forall i :: 0 <= i < |abis| ==> r[i] == Phase(data, abis[i])
  {
    seq(|abis|, i requires 0 <= i < |abis| => Phase(data, abis[i]))
  }

  /** What each candidate alone would decode to. */
  function Outcomes<V>(data: string, abis: seq<AbiItem>, decoder: Decoder<V>): (r: seq<Result<Call<V>, DecodeError>>)
    ensures |r| == |abis|
    ensures forall i :: 0 <= i < |abis| ==> r[i] == DecodeFunctionCall(data, abis[i], decoder)
  {
    seq(|abis|, i requires 0 <= i < |abis| => DecodeFunctionCall(data, abis[i], decoder))
  }

  /** Candidate `i` decodes, and no decodable candidate comes earlier in order of pass, then index. */
  ghost predicate IsFirst<C>(phases: seq<nat>, outcomes: seq<Result<C, DecodeError>>, i: int)
    requires |phases| == |outcomes|
  {
    && 0 <= i < |outcomes|
    && outcomes[i].Ok?
    && forall j :: 0 <= j < |outcomes| && outcomes[j].Ok? ==>
         phases[i] < phases[j] || (phases[i] == phases[j] && i <= j)
  }

  /** The outcome promised for several candidates whose sizes are all known. */
  ghost predicate IsBest<C>(phases: seq<nat>, outcomes: seq<Result<C, DecodeError>>, r: Result<C, DecodeError>)
    requires |phases| == |outcomes|
  {
    match r
    case Ok(_) => exists i :: IsFirst(phases, outcomes, i) && r == outcomes[i]
    case Err(e) =>
      && (forall i :: 0 <= i < |outcomes| ==> outcomes[i].Err?)
      && e == if outcomes == [] then NothingToDecode else outcomes[|outcomes| - 1].error
  }

  /** The three passes over the candidates. */
  method TryInOrder<C>(data: string, abis: seq<AbiItem>, sizes: seq<Size>, decode: AbiItem -> Result<C, DecodeError>,
                       ghost phases: seq<nat>, ghost outcomes: seq<Result<C, DecodeError>>)
    returns (r: Result<C, DecodeError>)
    requires |sizes| == |abis| == |phases| == |outcomes|
    requires forall i :: 0 <= i < |abis| ==> phases[i] == PhaseOf(data, sizes[i])
    requires forall i :: 0 <= i < |abis| ==> outcomes[i] == decode(abis[i])
    ensures IsBest(phases, outcomes, r)
  {
    var lastError: Option<DecodeError> := None;
    for i := 0 to |abis|
      invariant forall j :: 0 <= j < i && phases[j] == 0 ==> outcomes[j].Err?
      invariant abis == [] ==> lastError == None
    {
      if HasExactSize(data, sizes[i]) {
        var call := decode(abis[i]);
        if call.Ok? {
          assert IsFirst(phases, outcomes, i);
          return call;
        }
        lastError := Some(call.error);
      }
    }
    for i := 0 to |abis|
      invariant forall j :: 0 <= j < i && phases[j] == 1 ==> outcomes[j].Err?
      invariant abis == [] ==> lastError == None
    {
      if HasDynamicSize(data, sizes[i]) {
        var call := decode(abis[i]);
        if call.Ok? {
          assert IsFirst(phases, outcomes, i);
          return call;
        }
        lastError := Some(call.error);
      }
    }
    for i := 0 to |abis|
      invariant forall j :: 0 <= j < i ==> outcomes[j].Err?
      invariant i > 0 ==> lastError == Some(outcomes[i - 1].error)
      invariant abis == [] ==> lastError == None
    {
      var call := decode(abis[i]);
      if call.Ok? {
        assert IsFirst(phases, outcomes, i);
        return call;
      }
      lastError := Some(call.error);
    }
    return Err(if lastError.Some? then lastError.value else NothingToDecode);
  }

  /** What the selector promises for any number of candidates. */
  ghost predicate IsSelected<V>(data: string, abis: seq<AbiItem>, decoder: Decoder<V>, r: Result<Call<V>, DecodeError>) {
    && (|abis| == 1 ==> r == DecodeFunctionCall(data, abis[0], decoder))
    && (|abis| != 1 && AllSized(abis) ==> IsBest(Phases(data, abis), Outcomes(data, abis, decoder), r))
    && (|abis| != 1 && !AllSized(abis) ==> r == Err(SizeUnknown))
  }

  method DecodeBestMatchingFunctionCall<V(!new)>(data: string, abis: seq<AbiItem>, decoder: Decoder<V>)
    returns (r: Result<Call<V>, DecodeError>)
    ensures IsSelected(data, abis, decoder, r) && IsChosen(data, abis, decoder, r)
  {
    if |abis| == 1 {
      r := DecodeFunctionCall(data, abis[0], decoder);
    } else {
      var sizes := MeasureAll(abis);
      if sizes.Err? {
        r := Err(SizeUnknown);
      } else {
        r := TryInOrder(data, abis, sizes.value, abi => DecodeFunctionCall(data, abi, decoder),
                        Phases(data, abis), Outcomes(data, abis, decoder));
      }
    }
    SelectedIsChosen(data, abis, decoder, r);
  }

  /** The sizes of all candidates; one that cannot be sized fails the call. */
  method MeasureAll(abis: seq<AbiItem>) returns (r: Result<seq<Size>, DecodeError>)
    ensures r.Ok? <==> AllSized(abis)
    ensures r.Ok? ==> |r.value| == |abis| && forall i :: 0 <= i < |abis| ==> GetInputSize(abis[i]) == Ok(r.value[i])
  {
    var sizes: seq<Size> := [];
    for i := 0 to |abis|
      invariant |sizes| == i
      invariant forall j :: 0 <= j < i ==> GetInputSize(abis[j]) == Ok(sizes[j])
    {
      var size := GetInputSize(abis[i]);
      if size.Err? {
        return Err(size.error);
      }
      sizes := sizes + [size.value];
    }
    return Ok(sizes);
  }

  // --------------------------------------------------------- sizes and argument types

  /** The inputs of `abi` name the valid types `ts`. */
  ghost predicate HasInputTypes(abi: AbiItem, ts: seq<ParamType>) {
    && |abi.inputs| == |ts|
    && forall i :: 0 <= i < |ts| ==> InputHasType(abi.inputs[i], ts[i])
  }

  lemma SizeOfInput(input: AbiInput, t: ParamType)
    requires InputHasType(input, t)
    ensures InputSize(input) == Ok(Size(GetDataSize(t).0, GetDataSize(t).1))
  {
    ReadIff(EncodeInputType(input).value, t);
  }

  function SizesOf(ts: seq<ParamType>): (r: seq<Size>)
    ensures |r| == |ts|
    ensures forall i :: 0 <= i < |ts| ==> r[i] == Size(GetDataSize(ts[i]).0, GetDataSize(ts[i]).1)
  {
    seq(|ts|, i requires 0 <= i < |ts| => Size(GetDataSize(ts[i]).0, GetDataSize(ts[i]).1))
  }

  lemma {:induction false} TotalLengthSnoc(ts: seq<ParamType>)
    requires ts != []
    ensures TotalLength(ts) == TotalLength(ts[..|ts| - 1]) + GetDataSize(ts[|ts| - 1]).0
  {
    if |ts| > 1 {
      TotalLengthSnoc(ts[1..]);
      assert ts[1..][..|ts| - 2] == ts[..|ts| - 1][1..];
    }
  }

  lemma {:induction false} AddedSizes(ts: seq<ParamType>)
    ensures AddSizes(SizesOf(ts)) == Size(TotalLength(ts), AllExact(ts))
    decreases |ts|
  {
    if ts != [] {
      var last := |ts| - 1;
      AddedSizes(ts[..last]);
      TotalLengthSnoc(ts);
      assert SizesOf(ts)[..last] == SizesOf(ts[..last]);
      assert AllExact(ts) <==> AllExact(ts[..last]) && GetDataSize(ts[last]).1;
    }
  }

  /** The input size of a definition is the sum over its argument types, exact iff all are static. */
  lemma InputSizeOfTypes(abi: AbiItem, ts: seq<ParamType>)
    requires HasInputTypes(abi, ts)
    ensures GetInputSize(abi) == Ok(Size(TotalLength(ts), !AnyDynamic(ts)))
  {
    forall i | 0 <= i < |ts| ensures InputSize(abi.inputs[i]) == Ok(SizesOf(ts)[i]) {
      SizeOfInput(abi.inputs[i], ts[i]);
    }
    TraverseIff(abi.inputs, input => InputSize(input), SizesOf(ts));
    AddedSizes(ts);
    ExactIffStatic(ts);
  }

  /** `data` carries arguments of types `ts`: its hex digits are as many as their encoding needs. */
  ghost predicate CarriesArguments(data: string, vs: seq<Value>, ts: seq<ParamType>) {
    HaveTypes(vs, ts) && |data| == 10 + 2 * |EncodeArguments(vs, ts)|
  }

  /**
   * A candidate is tried before the brute-force pass on data that carries its own arguments, if
   * and only if it has a dynamic argument or no argument takes 2^32 bytes.
   */
  lemma OwnEncodingIsAdmitted(data: string, abi: AbiItem, vs: seq<Value>, ts: seq<ParamType>)
    requires HasInputTypes(abi, ts) && CarriesArguments(data, vs, ts)
    ensures Phase(data, abi) < 2 <==>
            AnyDynamic(ts) || forall i :: 0 <= i < |ts| ==> MinSize(ts[i]) < USIZE_LIMIT
  {
    InputSizeOfTypes(abi, ts);
    LengthIsLowerBound(vs, ts);
    ExactIffStatic(ts);
    if !AnyDynamic(ts) {
      ExactLengthIffNoWrap(vs, ts);
    }
  }

  /** The pass of a definition by its types: exact for static ones, at least for dynamic ones. */
  lemma PhaseByTypes(data: string, abi: AbiItem, ts: seq<ParamType>)
    requires HasInputTypes(abi, ts)
    ensures Phase(data, abi) == 0 <==> !AnyDynamic(ts) && |data| == 10 + 2 * TotalLength(ts)
    ensures Phase(data, abi) == 1 <==> AnyDynamic(ts) && |data| >= 10 + 2 * TotalLength(ts)
    ensures Phase(data, abi) <= 2
  {
    InputSizeOfTypes(abi, ts);
  }

  // -------------------------------------------------------------- what a candidate decodes to

  /** What follows `0x` and the eight digits of the selector. */
  ghost predicate IsPayload(data: string, digits: string) {
    if |data| < 10 then digits == "" else exists prefix: string :: |prefix| == 10 && data == prefix + digits
  }

  lemma PayloadIff(data: string, digits: string)
    ensures IsPayload(data, digits) <==> digits == Payload(data)
  {
    if |data| >= 10 {
      assert data == data[..10] + data[10..];
      if prefix: string :| |prefix| == 10 && data == prefix + digits {
        assert digits == data[10..];
      }
    }
  }

  /** The definition's name and the encoded names of its inputs. */
  ghost predicate IsSignatureOf(signature: string, abi: AbiItem) {
    exists types: seq<string> ::
      && |types| == |abi.inputs| && (forall i :: 0 <= i < |types| ==> EncodeInputType(abi.inputs[i]) == Ok(types[i]))
      && signature == abi.name + "(" + Join(types) + ")"
  }

  /** The foreign decoder, given the digits behind the selector and the input types, returns the call's values. */
  ghost predicate DecodesTo<V>(data: string, abi: AbiItem, decoder: Decoder<V>, call: Call<V>) {
    && call.abi == abi && IsSignatureOf(call.signature, abi)
    && exists digits, ts :: IsPayload(data, digits) && HasInputTypes(abi, ts) && decoder(digits, ts) == Some(call.values)
  }

  lemma InputTypesParse(abi: AbiItem, ts: seq<ParamType>) returns (types: seq<string>)
    requires HasInputTypes(abi, ts)
    ensures EncodeInputTypes(abi.inputs) == Ok(types) && ParseTypes(types) == Ok(ts)
  {
    assert forall i :: 0 <= i < |abi.inputs| ==> InputHasType(abi.inputs[i], ts[i]);
    types := EncodeInputTypes(abi.inputs).value;
    var parse := s => ParseParamType(s);
    forall i | 0 <= i < |ts| ensures parse(types[i]) == Ok(ts[i]) {
      ReadIff(types[i], ts[i]);
    }
    TraverseIff(types, parse, ts);
  }

  lemma ParsedInputTypes(abi: AbiItem, types: seq<string>, ts: seq<ParamType>)
    requires EncodeInputTypes(abi.inputs) == Ok(types) && ParseTypes(types) == Ok(ts)
    ensures HasInputTypes(abi, ts)
  {
    var parse := s => ParseParamType(s);
    TraverseIff(types, parse, ts);
    forall i | 0 <= i < |ts| ensures InputHasType(abi.inputs[i], ts[i]) {
      assert parse(types[i]) == Ok(ts[i]);
      ReadIff(types[i], ts[i]);
    }
  }

  lemma SignatureIff(abi: AbiItem, types: seq<string>, signature: string)
    requires EncodeInputTypes(abi.inputs) == Ok(types)
    ensures IsSignatureOf(signature, abi) <==> ComputeSignature(abi) == Ok(signature)
  {
    if others: seq<string> :| |others| == |abi.inputs| && (forall i :: 0 <= i < |others| ==> EncodeInputType(abi.inputs[i]) == Ok(others[i]))
                              && signature == abi.name + "(" + Join(others) + ")" {
      assert forall i :: 0 <= i < |others| ==> others[i] == types[i];
      assert others == types;
    }
  }

  /** A candidate decodes to `call` if and only if the foreign decoder says so of its payload and types. */
  lemma DecodesToIff<V>(data: string, abi: AbiItem, decoder: Decoder<V>, call: Call<V>)
    ensures DecodeFunctionCall(data, abi, decoder) == Ok(call) <==> DecodesTo(data, abi, decoder, call)
  {
    PayloadIff(data, Payload(data));
    if DecodeFunctionCall(data, abi, decoder) == Ok(call) {
      var types := EncodeInputTypes(abi.inputs).value;
      ParsedInputTypes(abi, types, ParseTypes(types).value);
      SignatureIff(abi, types, call.signature);
    }
    if DecodesTo(data, abi, decoder, call) {
      var digits, ts :| IsPayload(data, digits) && HasInputTypes(abi, ts) && decoder(digits, ts) == Some(call.values);
      PayloadIff(data, digits);
      var types := InputTypesParse(abi, ts);
      SignatureIff(abi, types, call.signature);
    }
  }

  /** For given input types: it decodes exactly if the decoder takes the payload, and to what that returns. */
  lemma CallOfTypes<V>(prefix: string, digits: string, abi: AbiItem, ts: seq<ParamType>, decoder: Decoder<V>)
    requires |prefix| == 10 && HasInputTypes(abi, ts)
    ensures var r := DecodeFunctionCall(prefix + digits, abi, decoder);
            && (r.Ok? <==> decoder(digits, ts).Some?)
            && (r.Ok? ==> r.value.values == decoder(digits, ts).value && r.value.abi == abi && IsSignatureOf(r.value.signature, abi))
  {
    PayloadIff(prefix + digits, digits);
    var types := InputTypesParse(abi, ts);
    SignatureIff(abi, types, ComputeSignature(abi).value);
  }

  /** Pass and index of a candidate come before those of another. */
  predicate ComesFirst(data: string, abis: seq<AbiItem>, i: nat, j: nat)
    requires i < |abis| && j < |abis|
  {
    Phase(data, abis[i]) < Phase(data, abis[j]) || (Phase(data, abis[i]) == Phase(data, abis[j]) && i <= j)
  }

  ghost predicate SomeDecodes<V(!new)>(data: string, abi: AbiItem, decoder: Decoder<V>) {
    exists call: Call<V> :: DecodesTo(data, abi, decoder, call)
  }

  /**
   * The choice, by what the foreign decoder does: the call of the first candidate that decodes, in
   * order of pass and index; without one, or if one of several has no size, a failure.
   */
  ghost predicate IsChosen<V(!new)>(data: string, abis: seq<AbiItem>, decoder: Decoder<V>, r: Result<Call<V>, DecodeError>) {
    match r
    case Ok(call) =>
      && (|abis| == 1 || AllSized(abis))
      && exists i :: 0 <= i < |abis| && DecodesTo(data, abis[i], decoder, call)
                     && forall j :: 0 <= j < |abis| && SomeDecodes(data, abis[j], decoder) ==> ComesFirst(data, abis, i, j)
    case Err(_) =>
      || (|abis| != 1 && !AllSized(abis))
      || forall j :: 0 <= j < |abis| ==> !SomeDecodes(data, abis[j], decoder)
  }

  lemma SomeDecodesIff<V(!new)>(data: string, abi: AbiItem, decoder: Decoder<V>)
    ensures SomeDecodes(data, abi, decoder) <==> DecodeFunctionCall(data, abi, decoder).Ok?
  {
    if DecodeFunctionCall(data, abi, decoder).Ok? {
      DecodesToIff(data, abi, decoder, DecodeFunctionCall(data, abi, decoder).value);
    }
    if SomeDecodes(data, abi, decoder) {
      var call: Call<V> :| DecodesTo(data, abi, decoder, call);
      DecodesToIff(data, abi, decoder, call);
    }
  }

  lemma FirstIsChosen<V(!new)>(data: string, abis: seq<AbiItem>, decoder: Decoder<V>, r: Result<Call<V>, DecodeError>, i: nat)
    requires i < |abis| && (|abis| == 1 || AllSized(abis)) && r.Ok? && r == DecodeFunctionCall(data, abis[i], decoder)
    requires forall j :: 0 <= j < |abis| && Outcomes(data, abis, decoder)[j].Ok? ==> ComesFirst(data, abis, i, j)
    ensures IsChosen(data, abis, decoder, r)
  {
    DecodesToIff(data, abis[i], decoder, r.value);
    forall j | 0 <= j < |abis| && SomeDecodes(data, abis[j], decoder) ensures ComesFirst(data, abis, i, j) {
      SomeDecodesIff(data, abis[j], decoder);
      assert Outcomes(data, abis, decoder)[j].Ok?;
    }
  }

  lemma LoneCallIsChosen<V(!new)>(data: string, abis: seq<AbiItem>, decoder: Decoder<V>)
    requires |abis| == 1 && DecodeFunctionCall(data, abis[0], decoder).Ok?
    ensures IsChosen(data, abis, decoder, DecodeFunctionCall(data, abis[0], decoder))
  {
    LoneComesFirst(data, abis);
    FirstIsChosen(data, abis, decoder, DecodeFunctionCall(data, abis[0], decoder), 0);
  }

  lemma LoneFailureIsChosen<V(!new)>(data: string, abis: seq<AbiItem>, decoder: Decoder<V>)
    requires |abis| == 1 && DecodeFunctionCall(data, abis[0], decoder).Err?
    ensures IsChosen(data, abis, decoder, DecodeFunctionCall(data, abis[0], decoder))
  {
    SomeDecodesIff(data, abis[0], decoder);
    forall j | 0 <= j < |abis| ensures !SomeDecodes(data, abis[j], decoder) {
      assert j == 0;
    }
  }

  lemma LoneIsChosen<V(!new)>(data: string, abis: seq<AbiItem>, decoder: Decoder<V>)
    requires |abis| == 1
    ensures IsChosen(data, abis, decoder, DecodeFunctionCall(data, abis[0], decoder))
  {
    if DecodeFunctionCall(data, abis[0], decoder).Ok? {
      LoneCallIsChosen(data, abis, decoder);
    } else {
      LoneFailureIsChosen(data, abis, decoder);
    }
  }

  lemma LoneComesFirst(data: string, abis: seq<AbiItem>)
    requires |abis| == 1
    ensures forall j :: 0 <= j < |abis| ==> ComesFirst(data, abis, 0, j)
  {
    assert ComesFirst(data, abis, 0, 0);
  }

  lemma NoneIsChosen<V(!new)>(data: string, abis: seq<AbiItem>, decoder: Decoder<V>)
    requires forall j :: 0 <= j < |abis| ==> Outcomes(data, abis, decoder)[j].Err?
    ensures forall j :: 0 <= j < |abis| ==> !SomeDecodes(data, abis[j], decoder)
  {
    forall j | 0 <= j < |abis| ensures !SomeDecodes(data, abis[j], decoder) {
      assert Outcomes(data, abis, decoder)[j].Err?;
      SomeDecodesIff(data, abis[j], decoder);
    }
  }

  lemma BestComesFirst<V(!new)>(data: string, abis: seq<AbiItem>, decoder: Decoder<V>, i: nat)
    requires IsFirst(Phases(data, abis), Outcomes(data, abis, decoder), i)
    ensures forall j :: 0 <= j < |abis| && Outcomes(data, abis, decoder)[j].Ok? ==> ComesFirst(data, abis, i, j)
  {
    assert Phases(data, abis)[i] == Phase(data, abis[i]);
  }

  lemma BestIsChosen<V(!new)>(data: string, abis: seq<AbiItem>, decoder: Decoder<V>, r: Result<Call<V>, DecodeError>)
    requires AllSized(abis) && IsBest(Phases(data, abis), Outcomes(data, abis, decoder), r)
    ensures IsChosen(data, abis, decoder, r)
  {
    if r.Ok? {
      var i :| IsFirst(Phases(data, abis), Outcomes(data, abis, decoder), i) && r == Outcomes(data, abis, decoder)[i];
      BestComesFirst(data, abis, decoder, i);
      FirstIsChosen(data, abis, decoder, r, i);
    } else {
      NoneIsChosen(data, abis, decoder);
    }
  }

  /** The selector makes this choice. */
  lemma SelectedIsChosen<V(!new)>(data: string, abis: seq<AbiItem>, decoder: Decoder<V>, r: Result<Call<V>, DecodeError>)
    requires IsSelected(data, abis, decoder, r)
    ensures IsChosen(data, abis, decoder, r)
  {
    if |abis| == 1 {
      LoneIsChosen(data, abis, decoder);
    } else if AllSized(abis) {
      BestIsChosen(data, abis, decoder, r);
    }
  }

  // -------------------------------------------------------------- sizing as a failure

  predicate Decodable<V>(data: string, abi: AbiItem, decoder: Decoder<V>) {
    DecodeFunctionCall(data, abi, decoder).Ok?
  }

  /** A definition that cannot be sized cannot be decoded either, so alone it fails either way. */
  lemma UnsizedIsUndecodable<V>(data: string, abi: AbiItem, decoder: Decoder<V>)
    requires GetInputSize(abi).Err?
    ensures !Decodable(data, abi, decoder)
  {
    if Decodable(data, abi, decoder) {
      var types := EncodeInputTypes(abi.inputs).value;
      var ts := ParseTypes(types).value;
      TraverseIff(types, s => ParseParamType(s), ts);
      forall i | 0 <= i < |ts| ensures InputSize(abi.inputs[i]) == Ok(SizesOf(ts)[i]) {
        assert (s => ParseParamType(s))(types[i]) == Ok(ts[i]);
      }
      TraverseIff(abi.inputs, input => InputSize(input), SizesOf(ts));
    }
  }

  /**
   * What the selector owes for one candidate is what it owes in general: the shortcut's result is
   * the best result whenever the size is known, and a failure otherwise.
   */
  lemma ShortcutAgrees<V>(data: string, abi: AbiItem, decoder: Decoder<V>)
    ensures var r := DecodeFunctionCall(data, abi, decoder);
            if AllSized([abi]) then IsBest(Phases(data, [abi]), Outcomes(data, [abi], decoder), r) else r.Err?
  {
    var outcomes := Outcomes(data, [abi], decoder);
    if GetInputSize(abi).Err? {
      UnsizedIsUndecodable(data, abi, decoder);
      assert GetInputSize([abi][0]).Err?;
    } else if outcomes[0].Ok? {
      assert IsFirst(Phases(data, [abi]), outcomes, 0);
    }
  }

  /** At most one outcome is best. */
  lemma BestIsUnique<C>(phases: seq<nat>, outcomes: seq<Result<C, DecodeError>>,
                        r: Result<C, DecodeError>, q: Result<C, DecodeError>)
    requires |phases| == |outcomes|
    requires IsBest(phases, outcomes, r) && IsBest(phases, outcomes, q)
    ensures r == q
  {
    if r.Ok? && q.Ok? {
      var i :| IsFirst(phases, outcomes, i) && r == outcomes[i];
      var j :| IsFirst(phases, outcomes, j) && q == outcomes[j];
      assert i == j;
    }
  }

  /** The selector's contract determines its result, for any number of candidates, sized or not. */
  lemma SelectionIsUnique<V>(data: string, abis: seq<AbiItem>, decoder: Decoder<V>,
                             r: Result<Call<V>, DecodeError>, q: Result<Call<V>, DecodeError>)
    requires IsSelected(data, abis, decoder, r) && IsSelected(data, abis, decoder, q)
    ensures r == q
  {
    if |abis| != 1 && AllSized(abis) {
      BestIsUnique(Phases(data, abis), Outcomes(data, abis, decoder), r, q);
    }
  }

  /** With all sizes known, the selector fails if and only if every candidate fails. */
  lemma FailsIffAllFail<C>(phases: seq<nat>, outcomes: seq<Result<C, DecodeError>>, r: Result<C, DecodeError>)
    requires |phases| == |outcomes| && IsBest(phases, outcomes, r)
    ensures r.Err? <==> forall i :: 0 <= i < |outcomes| ==> outcomes[i].Err?
  {
    if r.Ok? {
      var i :| IsFirst(phases, outcomes, i) && r == outcomes[i];
    }
  }

  predicate NoneDecodes<V>(data: string, abis: seq<AbiItem>, decoder: Decoder<V>) {
    forall i :: 0 <= i < |abis| ==> !Decodable(data, abis[i], decoder)
  }

  lemma SelectedOfSeveral<V>(data: string, abis: seq<AbiItem>, decoder: Decoder<V>, r: Result<Call<V>, DecodeError>)
    requires IsBest(Phases(data, abis), Outcomes(data, abis, decoder), r)
    ensures r.Err? <==> NoneDecodes(data, abis, decoder)
  {
    var outcomes := Outcomes(data, abis, decoder);
    FailsIffAllFail(Phases(data, abis), outcomes, r);
    assert forall i :: 0 <= i < |abis| ==> (Decodable(data, abis[i], decoder) <==> outcomes[i].Ok?);
  }

  lemma LoneDecodes<V>(data: string, abi: AbiItem, decoder: Decoder<V>)
    ensures NoneDecodes(data, [abi], decoder) <==> !Decodable(data, abi, decoder)
  {
    assert [abi][0] == abi;
  }

  /** A definition that can be sized is decoded by a decoder that takes anything. */
  lemma SizedIsDecodable<V>(data: string, abi: AbiItem, decoder: Decoder<V>)
    requires GetInputSize(abi).Ok? && forall digits, ts :: decoder(digits, ts).Some?
    ensures Decodable(data, abi, decoder)
  {
    InputsAreSized(abi);
    var types := SizedTypes(abi);
    TypesParse(types);
  }

  lemma InputsAreSized(abi: AbiItem)
    requires GetInputSize(abi).Ok?
    ensures forall i :: 0 <= i < |abi.inputs| ==> InputSize(abi.inputs[i]).Ok?
  {
    var measure := input => InputSize(input);
    var sizes := Traverse(abi.inputs, measure).value;
    TraverseIff(abi.inputs, measure, sizes);
    assert forall i :: 0 <= i < |sizes| ==> measure(abi.inputs[i]) == Ok(sizes[i]);
  }

  lemma SizedTypes(abi: AbiItem) returns (types: seq<string>)
    requires forall i :: 0 <= i < |abi.inputs| ==> InputSize(abi.inputs[i]).Ok?
    ensures EncodeInputTypes(abi.inputs) == Ok(types)
    ensures forall i :: 0 <= i < |types| ==> ParseParamType(types[i]).Ok?
  {
    assert forall i :: 0 <= i < |abi.inputs| ==> EncodeInputType(abi.inputs[i]).Ok? && InputSize(abi.inputs[i]).Ok?;
    types := EncodeInputTypes(abi.inputs).value;
  }

  lemma TypesParse(types: seq<string>)
    requires forall i :: 0 <= i < |types| ==> ParseParamType(types[i]).Ok?
    ensures ParseTypes(types).Ok?
  {
    var ts := seq(|types|, i requires 0 <= i < |types| => ParseParamType(types[i]).value);
    TraverseIff(types, s => ParseParamType(s), ts);
  }

  predicate NoneSized(abis: seq<AbiItem>) {
    forall i :: 0 <= i < |abis| ==> GetInputSize(abis[i]).Err?
  }

  /** The guarantee one would expect of a call: it fails if and only if every candidate fails. */
  ghost predicate FailsOnlyIfAllFail<V(!new)>(data: string, abis: seq<AbiItem>, decoder: Decoder<V>) {
    forall r :: IsSelected(data, abis, decoder, r) ==> (r.Err? <==> NoneDecodes(data, abis, decoder))
  }

  /** Where the sizes of the candidates leave the guarantee intact, whatever the decoder does. */
  predicate SizesAllowChoice(abis: seq<AbiItem>) {
    |abis| == 1 || AllSized(abis) || NoneSized(abis)
  }

  lemma NoneSizedNoneDecodes<V>(data: string, abis: seq<AbiItem>, decoder: Decoder<V>)
    requires NoneSized(abis)
    ensures NoneDecodes(data, abis, decoder)
  {
    forall i | 0 <= i < |abis| ensures !Decodable(data, abis[i], decoder) {
      UnsizedIsUndecodable(data, abis[i], decoder);
    }
  }

  lemma ChoiceAllowed<V>(data: string, abis: seq<AbiItem>, decoder: Decoder<V>, r: Result<Call<V>, DecodeError>)
    requires SizesAllowChoice(abis) && IsSelected(data, abis, decoder, r)
    ensures r.Err? <==> NoneDecodes(data, abis, decoder)
  {
    if |abis| == 1 {
      assert abis == [abis[0]];
      LoneDecodes(data, abis[0], decoder);
    } else if AllSized(abis) {
      SelectedOfSeveral(data, abis, decoder, r);
    } else {
      NoneSizedNoneDecodes(data, abis, decoder);
    }
  }

  lemma SomeSizedSomeDecodes<V>(data: string, abis: seq<AbiItem>, decoder: Decoder<V>)
    requires !NoneSized(abis) && forall digits, ts :: decoder(digits, ts).Some?
    ensures !NoneDecodes(data, abis, decoder)
  {
    var i :| 0 <= i < |abis| && GetInputSize(abis[i]).Ok?;
    SizedIsDecodable(data, abis[i], decoder);
  }

  /** Otherwise a decodable candidate is never tried. */
  lemma ChoiceDenied<V(!new)>(data: string, abis: seq<AbiItem>, decoder: Decoder<V>)
    requires !SizesAllowChoice(abis) && forall digits, ts :: decoder(digits, ts).Some?
    ensures !FailsOnlyIfAllFail(data, abis, decoder)
  {
    SomeSizedSomeDecodes(data, abis, decoder);
    var r: Result<Call<V>, DecodeError> := Err(SizeUnknown);
    assert IsSelected(data, abis, decoder, r);
  }

  /**
   * The selector fails just when every candidate fails, for every decoder, if and only if there is
   * one candidate, all candidates have a size, or none has.
   */
  lemma FailureMeansAllFailIff<V(!new)>(data: string, abis: seq<AbiItem>)
    ensures (forall decoder: Decoder<V> :: FailsOnlyIfAllFail(data, abis, decoder)) <==> SizesAllowChoice(abis)
  {
    if SizesAllowChoice(abis) {
      forall decoder: Decoder<V>, r | IsSelected(data, abis, decoder, r)
        ensures r.Err? <==> NoneDecodes(data, abis, decoder)
      {
        ChoiceAllowed(data, abis, decoder, r);
      }
    } else {
      var decoder: Decoder<V> := (digits, ts) => Some([]);
      ChoiceDenied(data, abis, decoder);
    }
  }

  /**
   * The failing case occurs: two definitions with the same signature, and so the same selector,
   * of which one has no size and the other decodes; the call fails.
   */
  lemma UnsizedCandidateHidesOthers<V>(data: string, r: Result<Call<V>, DecodeError>, decoder: Decoder<V>)
    requires forall digits, ts :: decoder(digits, ts).Some?
    requires IsSelected(data, [AbiItem("f", []), AbiItem("f", [AbiInput(None, "", Absent, None)])], decoder, r)
    ensures var (good, bad) := (AbiItem("f", []), AbiItem("f", [AbiInput(None, "", Absent, None)]));
            ComputeSignature(good) == ComputeSignature(bad) && Decodable(data, good, decoder)
    ensures r == Err(SizeUnknown)
  {
    var good, bad := AbiItem("f", []), AbiItem("f", [AbiInput(None, "", Absent, None)]);
    EmptyNameHasNoSize(bad);
    NothingHasSize(good);
    SameSignature(good, bad);
    SizedIsDecodable(data, good, decoder);
    assert [good, bad][1] == bad;
  }

  lemma NothingHasSize(good: AbiItem)
    requires good.inputs == []
    ensures GetInputSize(good).Ok?
  {
  }

  lemma SameSignature(good: AbiItem, bad: AbiItem)
    requires good.name == bad.name && good.inputs == [] && bad.inputs == [AbiInput(None, "", Absent, None)]
    ensures ComputeSignature(good) == ComputeSignature(bad)
  {
    assert EncodeInputType(bad.inputs[0]) == Ok("");
    var types := EncodeInputTypes(bad.inputs).value;
    assert Join(types) == Join([]);
  }

  lemma EmptyNameHasNoSize(bad: AbiItem)
    requires bad.inputs == [AbiInput(None, "", Absent, None)]
    ensures GetInputSize(bad).Err?
  {
    assert bad.inputs[..0] == [];
    assert InputSize(bad.inputs[0]).Err?;
    assert (input => InputSize(input))(bad.inputs[0]).Err?;
  }
}
