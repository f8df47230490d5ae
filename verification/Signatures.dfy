/**
 * Function and event signatures: the parser (sig.rs), the JSON form it produces, and the printer
 * that turns definitions back into signatures (signature.ts, datatypes.ts).
 */
module Signatures {
  import opened Wrappers
  import opened Text
  import opened DataTypes
  import opened TypeGrammar

  datatype AbiInput = AbiInput(
    name: Option<string>,
    typ: string,
    components: Components,
    indexed: Option<bool>)

  /** The optional `components` array of a tuple. */
  datatype Components = Absent | Present(inputs: seq<AbiInput>)

  datatype AbiItem = AbiItem(name: string, inputs: seq<AbiInput>)

  datatype SigError =
    | NoParenthesis
    | EmptyFunctionName
    | InvalidFunctionName(name: string)
    | InvalidArgumentList
    | BadTokens(cause: Error)
    | BadType(cause: Error)
    | EmptyTuple
    | NotCanonical

  // ----------------------------------------------------- types to JSON inputs

  /** `param_to_abi_input`: only tuples reached through tuples keep their structure. */
  function ParamToAbiInput(t: ParamType, indexed: Option<bool>): AbiInput {
    if t.Tuple?
    then AbiInput(None, "tuple", Present(ComponentInputs(t.components)), indexed)
    else AbiInput(None, Print(t), Absent, indexed)
  }

  function ComponentInputs(ts: seq<ParamType>): (r: seq<AbiInput>)
    ensures |r| == |ts|
    ensures forall i :: 0 <= i < |ts| ==> r[i] == ParamToAbiInput(ts[i], None)
  {
    if ts == [] then [] else [ParamToAbiInput(ts[0], None)] + ComponentInputs(ts[1..])
  }

  // ----------------------------------------------------- JSON inputs to types

  predicate IsTupleArray(input: AbiInput) {
    input.typ == "tuple[]"
  }

  predicate IsTuple(input: AbiInput) {
    input.typ == "tuple" || IsTupleArray(input)
  }

  function EncodeInputType(input: AbiInput): Result<string, SigError>
    decreases input
  {
    if IsTuple(input) then
      if input.components.Absent? || input.components.inputs == [] then Err(EmptyTuple)
      else
        var types :- EncodeInputTypes(input.components.inputs);
        var serialized := "(" + Join(types) + ")";
        Ok(if IsTupleArray(input) then serialized + "[]" else serialized)
    else Ok(input.typ)
  }

  function EncodeInputTypes(inputs: seq<AbiInput>): (r: Result<seq<string>, SigError>)
    ensures r.Ok? ==> |r.value| == |inputs|
    ensures r.Ok? ==> forall i :: 0 <= i < |inputs| ==> EncodeInputType(inputs[i]) == Ok(r.value[i])
    ensures r.Err? ==> exists i :: 0 <= i < |inputs| && EncodeInputType(inputs[i]) == Err(r.error)
    decreases inputs
  {
    if inputs == [] then Ok([])
    else
      var first :- EncodeInputType(inputs[0]);
      var rest := EncodeInputTypes(inputs[1..]);
      if rest.Err? then
        assert exists i :: 0 <= i < |inputs| && EncodeInputType(inputs[i]) == Err(rest.error) by {
          var i :| 0 <= i < |inputs[1..]| && EncodeInputType(inputs[1..][i]) == Err(rest.error);
          assert EncodeInputType(inputs[i + 1]) == Err(rest.error);
        }
        rest
      else Ok([first] + rest.value)
  }

  function Signature(name: string, types: seq<string>): string {
    name + "(" + Join(types) + ")"
  }

  function ComputeSignature(item: AbiItem): Result<string, SigError> {
    var types :- EncodeInputTypes(item.inputs);
    Ok(Signature(item.name, types))
  }

  const INDEXED_SUFFIX := " indexed"

  /** A type with its flag, as `encodeParamWithIndexedFlag` writes it. */
  function WithFlag(typ: string, indexed: bool): string {
    if indexed then typ + INDEXED_SUFFIX else typ
  }

  function IsIndexed(input: AbiInput): bool {
    input.indexed == Some(true)
  }

  function FlaggedTypes(types: seq<string>, inputs: seq<AbiInput>): (r: seq<string>)
    requires |types| == |inputs|
    ensures |r| == |types|
    ensures forall i :: 0 <= i < |types| ==> r[i] == WithFlag(types[i], IsIndexed(inputs[i]))
  {
    if types == [] then []
    else [WithFlag(types[0], IsIndexed(inputs[0]))] + FlaggedTypes(types[1..], inputs[1..])
  }

  function SerializeEventSignature(item: AbiItem): Result<string, SigError> {
    var types :- EncodeInputTypes(item.inputs);
    Ok(Signature(item.name, FlaggedTypes(types, item.inputs)))
  }

  // ------------------------------------------------------------------ parsing

  predicate IsNameChar(c: char) {
    c == '_' || 'a' <= c <= 'z' || 'A' <= c <= 'Z' || '0' <= c <= '9'
  }

  predicate IsValidName(name: string) {
    name != "" && forall i :: 0 <= i < |name| ==> IsNameChar(name[i])
  }

  predicate EndsWithFlag(token: string) {
    |token| >= 8 && token[|token| - 8..] == INDEXED_SUFFIX
  }

  /** A declared argument; `indexed` is absent in function signatures. */
  datatype Argument = Argument(typ: ParamType, indexed: Option<bool>)

  /** One argument: the optional `indexed` flag is cut off before the type is parsed. */
  function ReadArgument(token: string, allowIndexedFlag: bool): Result<Argument, SigError> {
    var flagged := allowIndexedFlag && EndsWithFlag(token);
    var cur := if flagged then token[..|token| - 8] else token;
    match ParseParamType(cur)
    case Ok(t) => Ok(Argument(t, if allowIndexedFlag then Some(flagged) else None))
    case Err(e) => Err(BadType(e))
  }

  function ToInput(arg: Argument): AbiInput {
    ParamToAbiInput(arg.typ, arg.indexed)
  }

  function ParseArgument(token: string, allowIndexedFlag: bool): Result<AbiInput, SigError> {
    var arg :- ReadArgument(token, allowIndexedFlag);
    Ok(ToInput(arg))
  }

  function ParseArguments(tokens: seq<string>, allowIndexedFlag: bool): Result<seq<AbiInput>, SigError> {
    Traverse(tokens, token => ParseArgument(token, allowIndexedFlag))
  }

  /** What `ParseFnArgs` returns. */
  function FnArgs(args: string, allowIndexedFlag: bool): Result<seq<AbiInput>, SigError> {
    if args == "" || args[0] != '(' || args[|args| - 1] != ')' then Err(InvalidArgumentList)
    else
      match Tokens(args[1..|args| - 1])
      case Ok(tokens) => ParseArguments(tokens, allowIndexedFlag)
      case Err(e) => Err(BadTokens(e))
  }

  method ParseFnArgs(args: string, allowIndexedFlag: bool) returns (r: Result<seq<AbiInput>, SigError>)
    ensures r == FnArgs(args, allowIndexedFlag)
  {
    if args == "" || args[0] != '(' || args[|args| - 1] != ')' {
      return Err(InvalidArgumentList);
    }
    var split := Tokenize(args[1..|args| - 1]);
    if split.Err? {
      return Err(BadTokens(split.error));
    }
    var tokens := split.value;
    var inputs: seq<AbiInput> := [];
    ghost var parse := token => ParseArgument(token, allowIndexedFlag);
    for i := 0 to |tokens|
      invariant Traverse(tokens[..i], parse) == Ok(inputs)
    {
      var indexed: Option<bool> := None;
      var cur := tokens[i];
      if allowIndexedFlag {
        if EndsWithFlag(cur) {
          cur := cur[..|cur| - 8];
          indexed := Some(true);
        } else {
          indexed := Some(false);
        }
      }
      TraverseNext(tokens, parse, i, inputs);
      var parsed := ParseParamType(cur);
      if parsed.Err? {
        assert parse(tokens[i]) == Err(BadType(parsed.error));
        TraverseFails(tokens, parse, i + 1);
        return Err(BadType(parsed.error));
      }
      inputs := inputs + [ParamToAbiInput(parsed.value, indexed)];
    }
    assert tokens[..|tokens|] == tokens;
    return Ok(inputs);
  }

  /** The index of the first opening parenthesis. */
  function FirstParenthesis(s: string): (r: Option<nat>)
    ensures r.Some? ==> r.value < |s| && s[r.value] == '(' && '(' !in s[..r.value]
    ensures r.None? ==> '(' !in s
  {
    if s == "" then None
    else if s[0] == '(' then Some(0)
    else
      match FirstParenthesis(s[1..])
      case None => None
      case Some(i) => assert s[..i + 1] == [s[0]] + s[1..][..i]; Some(i + 1)
  }

  function ParseSignature(sig: string, allowIndexedFlag: bool): Result<AbiItem, SigError> {
    match FirstParenthesis(sig)
    case None => Err(NoParenthesis)
    case Some(pos) =>
      var name := sig[..pos];
      if name == "" then Err(EmptyFunctionName)
      else if !IsValidName(name) then Err(InvalidFunctionName(name))
      else
        var inputs :- FnArgs(sig[pos..], allowIndexedFlag);
        Ok(AbiItem(name, inputs))
  }

  /** The check that every parsed input type is itself a parsable type. */
  predicate InputTypesParse(inputs: seq<AbiInput>) {
    forall i :: 0 <= i < |inputs| ==> inputs[i].typ != "" && ParseParamType(inputs[i].typ).Ok?
  }

  function ValidateSignature(sig: string, isEvent: bool): Result<(), SigError> {
    var parsed :- ParseSignature(sig, isEvent);
    if !InputTypesParse(parsed.inputs) then Err(BadType(InvalidType(sig)))
    else
      var serialized :- ComputeSignature(parsed);
      if !isEvent && serialized != sig then Err(NotCanonical) else Ok(())
  }
}
