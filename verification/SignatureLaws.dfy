/**
 * What parsing and printing signatures guarantee: which strings parse to what, which signatures
 * are canonical, and which definitions survive a trip through text.
 */
module SignatureLaws {
  import opened Wrappers
  import opened Text
  import opened DataTypes
  import opened TypeGrammar
  import opened Signatures
  import opened CanonicalNames

  // ---------------------------------------------------------- types and inputs

  /** No tuple without components is reached from `t` through tuples only. */
  predicate NoEmptyTuple(t: ParamType) {
    t.Tuple? ==> t.components != [] && NoEmptyTuples(t.components)
  }

  predicate NoEmptyTuples(ts: seq<ParamType>) {
    forall i :: 0 <= i < |ts| ==> NoEmptyTuple(ts[i])
  }

  lemma PrintIsNotAlias(t: ParamType)
    requires !t.Tuple?
    ensures Print(t) != "tuple" && Print(t) != "tuple[]"
  {
    RoundTrip(t);
    if Print(t) == "tuple" {
      ReadIff("tuple", Tuple([]));
    }
    ArraySpelling("tuple", Tuple([]));
    assert Bracketed("tuple", "") == "tuple[]";
    ReadIff("tuple[]", Array(Tuple([])));
    assert Print(Array(Tuple([])))[0] == '(';
  }

  /** Encoding the JSON form of a type prints the type, unless an empty tuple shows. */
  lemma {:induction false} ParamIsPrinted(t: ParamType, indexed: Option<bool>)
    ensures EncodeInputType(ParamToAbiInput(t, indexed)) ==
            if NoEmptyTuple(t) then Ok(Print(t)) else Err(EmptyTuple)
    decreases t, 1
  {
    if t.Tuple? {
      if t.components != [] {
        ParamsArePrinted(t.components);
      }
    } else {
      PrintIsNotAlias(t);
    }
  }

  lemma {:induction false} ParamsArePrinted(ts: seq<ParamType>)
    ensures EncodeInputTypes(ComponentInputs(ts)) ==
            if NoEmptyTuples(ts) then Ok(PrintAll(ts)) else Err(EmptyTuple)
    decreases ts, 0
  {
    forall i | 0 <= i < |ts|
      ensures EncodeInputType(ComponentInputs(ts)[i]) == if NoEmptyTuple(ts[i]) then Ok(Print(ts[i])) else Err(EmptyTuple)
    {
      ParamIsPrinted(ts[i], None);
    }
    var r := EncodeInputTypes(ComponentInputs(ts));
    if r.Ok? {
      assert r.value == PrintAll(ts);
    }
  }

  // ------------------------------------------------------ names

  const DIGITS := "0123456789"
  const CAPITALS := "ABCDEFGHIJKLMNOPQRSTUVWXYZ"
  const SMALL_LETTERS := "abcdefghijklmnopqrstuvwxyz"

  lemma DigitIff(c: char)
    ensures '0' <= c <= '9' <==> c in DIGITS
  {
    if '0' <= c <= '9' {
      assert DIGITS[c as int - 48] == c;
    }
  }

  lemma CapitalIff(c: char)
    ensures 'A' <= c <= 'Z' <==> c in CAPITALS
  {
    if 'A' <= c <= 'Z' {
      assert CAPITALS[c as int - 65] == c;
    }
  }

  lemma SmallLetterIff(c: char)
    ensures 'a' <= c <= 'z' <==> c in SMALL_LETTERS
  {
    if 'a' <= c <= 'z' {
      assert SMALL_LETTERS[c as int - 97] == c;
    }
  }

  /** Names are made of ASCII letters, digits and underscores, at least one. */
  lemma ValidNameIff(name: string)
    ensures IsValidName(name) <==>
            name != "" && forall c :: c in name ==> c == '_' || c in DIGITS || c in CAPITALS || c in SMALL_LETTERS
  {
    forall c: char
      ensures IsNameChar(c) <==> c == '_' || c in DIGITS || c in CAPITALS || c in SMALL_LETTERS
    {
      DigitIff(c);
      CapitalIff(c);
      SmallLetterIff(c);
    }
    assert forall i :: 0 <= i < |name| ==> name[i] in name;
  }

  // ------------------------------------------------------ what a signature denotes

  predicate IsFlagged(token: string, s: string, flag: bool) {
    token == if flag then s + " indexed" else s
  }

  /** `token` writes the argument: some spelling of a valid type, in events with the optional flag. */
  ghost predicate Writes(token: string, isEvent: bool, arg: Argument) {
    && IsValid(arg.typ)
    && (if isEvent
        then arg.indexed.Some? && exists s :: Spells(s, arg.typ) && IsFlagged(token, s, arg.indexed.value)
        else arg.indexed.None? && Spells(token, arg.typ))
  }

  ghost predicate WrittenAs(sig: string, isEvent: bool, name: string, args: seq<Argument>, tokens: seq<string>) {
    && IsValidName(name)
    && sig == name + "(" + Join(tokens) + ")"
    && |tokens| == |args|
    && forall i :: 0 <= i < |args| ==> Writes(tokens[i], isEvent, args[i])
  }

  /** The grammar of signatures. */
  ghost predicate Denotes(sig: string, isEvent: bool, name: string, args: seq<Argument>) {
    exists tokens :: WrittenAs(sig, isEvent, name, args, tokens)
  }

  function InputsOf(args: seq<Argument>): (r: seq<AbiInput>)
    ensures |r| == |args|
    ensures forall i :: 0 <= i < |args| ==> r[i] == ToInput(args[i])
  {
    seq(|args|, i requires 0 <= i < |args| => ToInput(args[i]))
  }

  /** The input that a parsed argument leaves: no name, its flag, and the canonical name or the parts of its type. */
  ghost predicate IsInputFor(input: AbiInput, t: ParamType, indexed: Option<bool>)
    decreases t, 1
  {
    && input.name == None && input.indexed == indexed
    && if t.Tuple?
       then input.typ == "tuple" && input.components.Present? && AreComponentsFor(input.components.inputs, t.components)
       else IsCanonical(input.typ, t) && input.components.Absent?
  }

  ghost predicate AreComponentsFor(inputs: seq<AbiInput>, ts: seq<ParamType>)
    decreases ts, 0
  {
    |inputs| == |ts| && forall i :: 0 <= i < |ts| ==> IsInputFor(inputs[i], ts[i], None)
  }

  ghost predicate AreInputsFor(inputs: seq<AbiInput>, args: seq<Argument>) {
    |inputs| == |args| && forall i :: 0 <= i < |args| ==> IsInputFor(inputs[i], args[i].typ, args[i].indexed)
  }

  lemma {:induction false} InputForIff(input: AbiInput, t: ParamType, indexed: Option<bool>)
    ensures IsInputFor(input, t, indexed) <==> input == ParamToAbiInput(t, indexed)
    decreases t, 1
  {
    if t.Tuple? {
      if input.components.Present? {
        ComponentsForIff(input.components.inputs, t.components);
      }
    } else {
      CanonicalIff(input.typ, t);
    }
  }

  lemma {:induction false} ComponentsForIff(inputs: seq<AbiInput>, ts: seq<ParamType>)
    ensures AreComponentsFor(inputs, ts) <==> inputs == ComponentInputs(ts)
    decreases ts, 0
  {
    forall i | 0 <= i < |ts| && i < |inputs|
      ensures IsInputFor(inputs[i], ts[i], None) <==> inputs[i] == ParamToAbiInput(ts[i], None)
    {
      InputForIff(inputs[i], ts[i], None);
    }
    if AreComponentsFor(inputs, ts) {
      assert forall i :: 0 <= i < |ts| ==> inputs[i] == ComponentInputs(ts)[i];
    }
  }

  lemma InputsForIff(inputs: seq<AbiInput>, args: seq<Argument>)
    ensures AreInputsFor(inputs, args) <==> inputs == InputsOf(args)
  {
    forall i | 0 <= i < |args| && i < |inputs|
      ensures IsInputFor(inputs[i], args[i].typ, args[i].indexed) <==> inputs[i] == ToInput(args[i])
    {
      InputForIff(inputs[i], args[i].typ, args[i].indexed);
    }
    if AreInputsFor(inputs, args) {
      assert forall i :: 0 <= i < |args| ==> inputs[i] == InputsOf(args)[i];
    }
  }

  /** Encoding such an input gives the canonical name of its type, unless an empty tuple shows. */
  lemma EncodeUndoesParam(input: AbiInput, t: ParamType, indexed: Option<bool>)
    requires IsInputFor(input, t, indexed)
    ensures var r := EncodeInputType(input);
            if NoEmptyTuple(t) then r.Ok? && IsCanonical(r.value, t) else r == Err(EmptyTuple)
  {
    InputForIff(input, t, indexed);
    ParamIsPrinted(t, indexed);
    PrintIsCanonical(t);
  }

  // --------------------------------------------------------------- one argument

  /** No spelling ends in the last letter of `indexed`. */
  lemma SpellingEnd(s: string, t: ParamType)
    requires Spells(s, t)
    ensures s != "" && s[|s| - 1] != 'd'
  {
    SpellingIsToken(s, t);
    if t.Array? {
      var p := ArrayWitness(s, t);
    } else if t.FixedArray? {
      var p, num := FixedArrayWitness(s, t);
    } else if t.Tuple? && s != "tuple" {
      var parts := TupleWitness(s, t);
    } else if !t.Tuple? {
      AtomEnd(s, t);
    }
  }

  lemma AtomEnd(s: string, t: ParamType)
    requires IsAtom(t) && SpellsAtom(s, t) && s != ""
    ensures s[|s| - 1] != 'd'
  {
    if t.Int? && s != "int" {
      NumeralChars(s[3..], t.bits);
    } else if t.Uint? && s != "uint" {
      NumeralChars(s[4..], t.bits);
    } else if t.FixedBytes? {
      NumeralChars(s[5..], t.size);
    }
  }

  lemma FlagEnds(s: string)
    ensures var token := s + INDEXED_SUFFIX; EndsWithFlag(token) && token[..|token| - 8] == s
  {
  }

  lemma FlagLastLetter(s: string)
    requires EndsWithFlag(s)
    ensures s[|s| - 1] == 'd'
  {
    assert s[|s| - 8..][7] == s[|s| - 1];
  }

  lemma FlagMissing(s: string)
    requires s != "" && s[|s| - 1] != 'd'
    ensures !EndsWithFlag(s)
  {
    if EndsWithFlag(s) {
      FlagLastLetter(s);
    }
  }

  lemma FlagIsToken(s: string)
    requires IsToken(s)
    ensures IsToken(s + INDEXED_SUFFIX)
  {
    assert Plain(INDEXED_SUFFIX);
    PlainSuffix(s, INDEXED_SUFFIX);
  }

  /** The facts about one spelled, valid type that the argument parser relies on. */
  lemma SpelledType(s: string, t: ParamType)
    requires Spells(s, t) && IsValid(t)
    ensures ParseParamType(s) == Ok(t) && s != "" && IsToken(s) && !EndsWithFlag(s)
  {
    SpellingIsToken(s, t);
    SpellingEnd(s, t);
    FlagMissing(s);
    ReadIff(s, t);
  }

  lemma PlainArgument(s: string, t: ParamType, isEvent: bool)
    requires ParseParamType(s) == Ok(t) && !EndsWithFlag(s)
    ensures ReadArgument(s, isEvent) == Ok(Argument(t, if isEvent then Some(false) else None))
  {
  }

  lemma FlaggedArgument(s: string, t: ParamType)
    requires ParseParamType(s) == Ok(t)
    ensures ReadArgument(s + INDEXED_SUFFIX, true) == Ok(Argument(t, Some(true)))
  {
    FlagEnds(s);
  }

  lemma ArgumentComplete(token: string, isEvent: bool, arg: Argument)
    requires Writes(token, isEvent, arg)
    ensures ReadArgument(token, isEvent) == Ok(arg)
    ensures token != "" && IsToken(token)
  {
    if isEvent {
      var s :| Spells(s, arg.typ) && IsFlagged(token, s, arg.indexed.value);
      SpelledType(s, arg.typ);
      if arg.indexed.value {
        FlaggedArgument(s, arg.typ);
        FlagIsToken(s);
      } else {
        PlainArgument(s, arg.typ, true);
      }
    } else {
      SpelledType(token, arg.typ);
      PlainArgument(token, arg.typ, false);
    }
  }

  lemma ArgumentSound(token: string, isEvent: bool)
    requires ReadArgument(token, isEvent).Ok?
    ensures Writes(token, isEvent, ReadArgument(token, isEvent).value)
  {
    var flagged := isEvent && EndsWithFlag(token);
    var s := if flagged then token[..|token| - 8] else token;
    ReadIff(s, ParseParamType(s).value);
    if isEvent {
      assert IsFlagged(token, s, flagged);
    }
  }

  // -------------------------------------------------------------- all arguments

  lemma {:induction false} FirstParenthesisAt(s: string, pos: nat)
    requires pos < |s| && s[pos] == '(' && forall i :: 0 <= i < pos ==> s[i] != '('
    ensures FirstParenthesis(s) == Some(pos)
    decreases |s|
  {
    if pos > 0 {
      FirstParenthesisAt(s[1..], pos - 1);
    }
  }

  /** The text before and after the first opening parenthesis. */
  lemma SplitName(name: string, tokens: seq<string>)
    requires IsValidName(name)
    ensures var sig := Signature(name, tokens);
            && FirstParenthesis(sig) == Some(|name|)
            && sig[..|name|] == name
            && sig[|name|..] == "(" + Join(tokens) + ")"
  {
    var sig := Signature(name, tokens);
    assert forall i :: 0 <= i < |name| ==> sig[i] == name[i];
    FirstParenthesisAt(sig, |name|);
  }

  lemma ArgumentListInner(tokens: seq<string>)
    ensures var args := "(" + Join(tokens) + ")";
            args[0] == '(' && args[|args| - 1] == ')' && args[1..|args| - 1] == Join(tokens)
  {
  }

  /** All tokens parse, and so does their comma-joined list. */
  lemma TokensComplete(tokens: seq<string>, isEvent: bool, args: seq<Argument>)
    requires |tokens| == |args|
    requires forall i :: 0 <= i < |args| ==> Writes(tokens[i], isEvent, args[i])
    ensures Tokens(Join(tokens)) == Ok(tokens)
    ensures ParseArguments(tokens, isEvent) == Ok(InputsOf(args))
  {
    var parse := token => ParseArgument(token, isEvent);
    forall i | 0 <= i < |args|
      ensures parse(tokens[i]) == Ok(InputsOf(args)[i]) && tokens[i] != "" && IsToken(tokens[i])
    {
      ArgumentComplete(tokens[i], isEvent, args[i]);
    }
    TraverseIff(tokens, parse, InputsOf(args));
    TokenizeIff(Join(tokens), tokens);
  }

  lemma ParseComplete(sig: string, isEvent: bool, name: string, args: seq<Argument>)
    requires Denotes(sig, isEvent, name, args)
    ensures ParseSignature(sig, isEvent) == Ok(AbiItem(name, InputsOf(args)))
  {
    var tokens :| WrittenAs(sig, isEvent, name, args, tokens);
    TokensComplete(tokens, isEvent, args);
    SplitName(name, tokens);
    ArgumentListInner(tokens);
  }

  /** An accepted token list writes the arguments that are read from it. */
  lemma TokensSound(tokens: seq<string>, isEvent: bool) returns (args: seq<Argument>)
    requires ParseArguments(tokens, isEvent).Ok?
    ensures |args| == |tokens| && ParseArguments(tokens, isEvent) == Ok(InputsOf(args))
    ensures forall i :: 0 <= i < |tokens| ==> Writes(tokens[i], isEvent, args[i])
  {
    var parse := token => ParseArgument(token, isEvent);
    var inputs := ParseArguments(tokens, isEvent).value;
    TraverseIff(tokens, parse, inputs);
    assert forall i :: 0 <= i < |tokens| ==> parse(tokens[i]) == Ok(inputs[i]);
    args := seq(|tokens|, i requires 0 <= i < |tokens| => ReadArgument(tokens[i], isEvent).value);
    forall i | 0 <= i < |tokens| ensures Writes(tokens[i], isEvent, args[i]) && inputs[i] == ToInput(args[i]) {
      assert parse(tokens[i]) == Ok(inputs[i]);
      ArgumentSound(tokens[i], isEvent);
    }
    assert inputs == InputsOf(args);
  }

  lemma Reassemble(sig: string, pos: nat)
    requires pos + 2 <= |sig| && sig[pos] == '(' && sig[|sig| - 1] == ')'
    ensures sig == sig[..pos] + "(" + sig[pos..][1..|sig| - pos - 1] + ")"
  {
  }

  /** The pieces of an accepted signature. */
  lemma AcceptedPieces(sig: string, isEvent: bool) returns (tokens: seq<string>)
    requires ParseSignature(sig, isEvent).Ok?
    ensures var item := ParseSignature(sig, isEvent).value;
            && IsValidName(item.name) && sig == Signature(item.name, tokens)
            && ParseArguments(tokens, isEvent) == Ok(item.inputs)
  {
    var pos := FirstParenthesis(sig).value;
    var name, list := sig[..pos], sig[pos..];
    var inner := list[1..|list| - 1];
    tokens := Tokens(inner).value;
    TokenizeIff(inner, tokens);
    Reassemble(sig, pos);
  }

  lemma ParseSound(sig: string, isEvent: bool) returns (args: seq<Argument>)
    requires ParseSignature(sig, isEvent).Ok?
    ensures var item := ParseSignature(sig, isEvent).value;
            Denotes(sig, isEvent, item.name, args) && item.inputs == InputsOf(args)
  {
    var tokens := AcceptedPieces(sig, isEvent);
    args := TokensSound(tokens, isEvent);
    assert WrittenAs(sig, isEvent, ParseSignature(sig, isEvent).value.name, args, tokens);
  }

  /** Parsing succeeds on exactly the signature grammar and returns exactly what it denotes. */
  lemma ParseSignatureIff(sig: string, isEvent: bool, item: AbiItem)
    ensures ParseSignature(sig, isEvent) == Ok(item) <==>
            exists args :: Denotes(sig, isEvent, item.name, args) && AreInputsFor(item.inputs, args)
  {
    if ParseSignature(sig, isEvent) == Ok(item) {
      var args := ParseSound(sig, isEvent);
      InputsForIff(item.inputs, args);
    }
    if args :| Denotes(sig, isEvent, item.name, args) && AreInputsFor(item.inputs, args) {
      InputsForIff(item.inputs, args);
      ParseComplete(sig, isEvent, item.name, args);
    }
  }

  // ------------------------------------------------------------------ canonical form

  function TypesOf(args: seq<Argument>): (r: seq<ParamType>)
    ensures |r| == |args|
    ensures forall i :: 0 <= i < |args| ==> r[i] == args[i].typ
  {
    seq(|args|, i requires 0 <= i < |args| => args[i].typ)
  }

  function FunctionArguments(ts: seq<ParamType>): (r: seq<Argument>)
    ensures |r| == |ts|
    ensures forall i :: 0 <= i < |ts| ==> r[i] == Argument(ts[i], None)
  {
    seq(|ts|, i requires 0 <= i < |ts| => Argument(ts[i], None))
  }

  /** `sig` is the name with the canonical names of the types. */
  ghost predicate IsCanonicalSignature(sig: string, name: string, ts: seq<ParamType>) {
    exists types :: AreCanonical(types, ts) && sig == name + "(" + Join(types) + ")"
  }

  lemma CanonicalSignatureIff(sig: string, name: string, ts: seq<ParamType>)
    ensures IsCanonicalSignature(sig, name, ts) <==> sig == Canonical(name, ts)
  {
    if types :| AreCanonical(types, ts) && sig == name + "(" + Join(types) + ")" {
      AreCanonicalIff(types, ts);
    }
    AreCanonicalIff(PrintAll(ts), ts);
  }

  /** The signature of `name` with printed type names. */
  function Canonical(name: string, ts: seq<ParamType>): string {
    Signature(name, PrintAll(ts))
  }

  predicate AllValid(ts: seq<ParamType>) {
    forall i :: 0 <= i < |ts| ==> IsValid(ts[i])
  }

  lemma CanonicalDenotes(name: string, ts: seq<ParamType>)
    requires IsValidName(name) && AllValid(ts)
    ensures Denotes(Canonical(name, ts), false, name, FunctionArguments(ts))
  {
    forall i | 0 <= i < |ts| ensures Spells(PrintAll(ts)[i], ts[i]) {
      PrintSpells(ts[i]);
    }
    assert WrittenAs(Canonical(name, ts), false, name, FunctionArguments(ts), PrintAll(ts));
  }

  lemma ComputePrints(name: string, args: seq<Argument>)
    ensures ComputeSignature(AbiItem(name, InputsOf(args))) ==
            if NoEmptyTuples(TypesOf(args)) then Ok(Canonical(name, TypesOf(args))) else Err(EmptyTuple)
  {
    var ts := TypesOf(args);
    forall i | 0 <= i < |args|
      ensures EncodeInputType(InputsOf(args)[i]) == if NoEmptyTuple(ts[i]) then Ok(Print(ts[i])) else Err(EmptyTuple)
    {
      ParamIsPrinted(args[i].typ, args[i].indexed);
    }
    var r := EncodeInputTypes(InputsOf(args));
    if r.Ok? {
      assert r.value == PrintAll(ts);
    }
  }

  /** Serialising a parsed item gives its canonical signature, and fails precisely on an empty tuple. */
  lemma ComputeOfParsed(item: AbiItem, args: seq<Argument>)
    requires AreInputsFor(item.inputs, args)
    ensures var r := ComputeSignature(item);
            if NoEmptyTuples(TypesOf(args)) then r.Ok? && IsCanonicalSignature(r.value, item.name, TypesOf(args))
            else r == Err(EmptyTuple)
  {
    InputsForIff(item.inputs, args);
    ComputePrints(item.name, args);
    CanonicalSignatureIff(Canonical(item.name, TypesOf(args)), item.name, TypesOf(args));
  }

  /** The type check in `validateSignature` can never fail on parsed inputs. */
  lemma ParsedInputTypesParse(sig: string, isEvent: bool)
    requires ParseSignature(sig, isEvent).Ok?
    ensures InputTypesParse(ParseSignature(sig, isEvent).value.inputs)
  {
    var inputs := ParseSignature(sig, isEvent).value.inputs;
    var args := ParseSound(sig, isEvent);
    var tokens :| WrittenAs(sig, isEvent, ParseSignature(sig, isEvent).value.name, args, tokens);
    forall i | 0 <= i < |inputs| ensures inputs[i].typ != "" && ParseParamType(inputs[i].typ).Ok? {
      assert Writes(tokens[i], isEvent, args[i]);
      InputTypeParses(args[i].typ, args[i].indexed);
    }
  }

  lemma InputTypeParses(t: ParamType, indexed: Option<bool>)
    requires IsValid(t)
    ensures var typ := ParamToAbiInput(t, indexed).typ; typ != "" && ParseParamType(typ).Ok?
  {
    if t.Tuple? {
      ReadIff("tuple", Tuple([]));
    } else {
      RoundTrip(t);
      PrintSpells(t);
      SpellingIsToken(Print(t), t);
    }
  }

  lemma ValidFunctionComplete(name: string, ts: seq<ParamType>)
    requires IsValidName(name) && AllValid(ts) && NoEmptyTuples(ts)
    ensures ValidateSignature(Canonical(name, ts), false).Ok?
  {
    var sig, args := Canonical(name, ts), FunctionArguments(ts);
    CanonicalDenotes(name, ts);
    ParseComplete(sig, false, name, args);
    ParsedInputTypesParse(sig, false);
    ComputePrints(name, args);
    assert TypesOf(args) == ts;
  }

  lemma ValidFunctionSound(sig: string) returns (name: string, ts: seq<ParamType>)
    requires ValidateSignature(sig, false).Ok?
    ensures IsValidName(name) && AllValid(ts) && NoEmptyTuples(ts) && sig == Canonical(name, ts)
  {
    name := ParseSignature(sig, false).value.name;
    var args := ParseSound(sig, false);
    ts := TypesOf(args);
    ComputePrints(name, args);
    ParsedArgumentsValid(sig, false, name, args);
  }

  /**
   * A function signature is accepted if and only if it is the canonical signature of a
   * well-formed definition without an empty tuple in a component position.
   */
  lemma ValidFunctionIff(sig: string)
    ensures ValidateSignature(sig, false).Ok? <==>
            exists name, ts :: IsValidName(name) && AllValid(ts) && NoEmptyTuples(ts) && IsCanonicalSignature(sig, name, ts)
  {
    if ValidateSignature(sig, false).Ok? {
      var name, ts := ValidFunctionSound(sig);
      CanonicalSignatureIff(sig, name, ts);
    }
    if name, ts :| IsValidName(name) && AllValid(ts) && NoEmptyTuples(ts) && IsCanonicalSignature(sig, name, ts) {
      CanonicalSignatureIff(sig, name, ts);
      ValidFunctionComplete(name, ts);
    }
  }

  lemma ParsedArgumentsValid(sig: string, isEvent: bool, name: string, args: seq<Argument>)
    requires Denotes(sig, isEvent, name, args)
    ensures IsValidName(name) && AllValid(TypesOf(args))
  {
    var tokens :| WrittenAs(sig, isEvent, name, args, tokens);
    assert forall i :: 0 <= i < |args| ==> Writes(tokens[i], isEvent, args[i]);
  }

  /** An event signature is accepted if and only if it parses and shows no empty tuple. */
  lemma ValidEventIff(sig: string)
    ensures ValidateSignature(sig, true).Ok? <==>
            exists name, args :: Denotes(sig, true, name, args) && NoEmptyTuples(TypesOf(args))
  {
    if ParseSignature(sig, true).Ok? {
      ParsedInputTypesParse(sig, true);
      var item := ParseSignature(sig, true).value;
      var args := ParseSound(sig, true);
      ComputePrints(item.name, args);
    }
    if name, args :| Denotes(sig, true, name, args) && NoEmptyTuples(TypesOf(args)) {
      ParseComplete(sig, true, name, args);
      ComputePrints(name, args);
    }
  }

  /** Printing what was parsed and parsing again changes nothing, aliases and leading zeros included. */
  lemma CanonicalisationIsIdempotent(sig: string)
    requires ParseSignature(sig, false).Ok? && ComputeSignature(ParseSignature(sig, false).value).Ok?
    ensures var item := ParseSignature(sig, false).value;
            var canonical := ComputeSignature(item).value;
            ParseSignature(canonical, false) == Ok(item) && ValidateSignature(canonical, false).Ok?
  {
    var item := ParseSignature(sig, false).value;
    var args := ParseSound(sig, false);
    var ts := TypesOf(args);
    ComputePrints(item.name, args);
    ParsedArgumentsValid(sig, false, item.name, args);
    var canonical := Canonical(item.name, ts);
    CanonicalDenotes(item.name, ts);
    ParseComplete(canonical, false, item.name, FunctionArguments(ts));
    FunctionFlagsAbsent(sig, item.name, args);
    assert InputsOf(FunctionArguments(ts)) == InputsOf(args);
    ValidFunctionComplete(item.name, ts);
  }

  lemma FunctionFlagsAbsent(sig: string, name: string, args: seq<Argument>)
    requires Denotes(sig, false, name, args)
    ensures forall i :: 0 <= i < |args| ==> args[i].indexed == None
  {
    var tokens :| WrittenAs(sig, false, name, args, tokens);
    forall i | 0 <= i < |args| ensures args[i].indexed == None {
      assert Writes(tokens[i], false, args[i]);
    }
  }

  // ------------------------------------------------------------------- event round trip

  /** The definition's input `input` has type `t`: its encoded type name spells the valid type `t`. */
  ghost predicate InputHasType(input: AbiInput, t: ParamType) {
    IsValid(t) && EncodeInputType(input).Ok? && Spells(EncodeInputType(input).value, t)
  }

  /** Types and indexed flags of an event definition survive serialisation and parsing. */
  lemma EventRoundTrip(item: AbiItem, ts: seq<ParamType>)
    requires IsValidName(item.name) && |ts| == |item.inputs|
    requires forall i :: 0 <= i < |ts| ==> InputHasType(item.inputs[i], ts[i])
    ensures SerializeEventSignature(item).Ok?
    ensures var parsed := ParseSignature(SerializeEventSignature(item).value, true);
            && parsed.Ok? && parsed.value.name == item.name && |parsed.value.inputs| == |ts|
            && forall i :: 0 <= i < |ts| ==>
                 IsInputFor(parsed.value.inputs[i], ts[i], Some(item.inputs[i].indexed == Some(true)))
  {
    var inputs := item.inputs;
    var args := seq(|ts|, i requires 0 <= i < |ts| => Argument(ts[i], Some(IsIndexed(inputs[i]))));
    var types := EncodeInputTypes(inputs).value;
    var tokens := FlaggedTypes(types, inputs);
    var sig := SerializeEventSignature(item).value;
    forall i | 0 <= i < |args| ensures Writes(tokens[i], true, args[i]) {
      assert IsFlagged(tokens[i], types[i], IsIndexed(inputs[i])) && Spells(types[i], ts[i]);
    }
    assert WrittenAs(sig, true, item.name, args, tokens);
    ParseComplete(sig, true, item.name, args);
    InputsForIff(InputsOf(args), args);
  }
}
