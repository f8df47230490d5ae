/**
 * The ABI type language: splitting an argument list, reading a type name, printing a type.
 */
module DataTypes {
  import opened Wrappers
  import opened Text

  /** `usize` on the wasm32 target. */
  const USIZE_LIMIT: nat := 0x1_0000_0000

  type usize = n: nat | n < USIZE_LIMIT

  datatype ParamType =
    | Address
    | Bytes
    | Int(bits: usize)
    | Uint(bits: usize)
    | Bool
    | String
    | Array(elem: ParamType)
    | FixedBytes(size: usize)
    | FixedArray(elem: ParamType, len: usize)
    | Tuple(components: seq<ParamType>)

  /** `SliceOutOfRange` stands for the trap raised by an underflowing slice bound. */
  datatype Error =
    | InvalidName(name: string)
    | ParseInt
    | UnbalancedParenthesis
    | UnexpectedEnd
    | SliceOutOfRange
    | InvalidType(name: string)

  predicate IsValidWidth(bits: usize) {
    0 < bits <= 256 && bits % 8 == 0
  }

  predicate IsValid(t: ParamType) {
    match t
    case Tuple(components) => forall i :: 0 <= i < |components| ==> IsValid(components[i])
    case Int(bits) => IsValidWidth(bits)
    case Uint(bits) => IsValidWidth(bits)
    case FixedBytes(size) => 0 < size <= 32
    case FixedArray(elem, len) => len > 0 && IsValid(elem)
    case Array(elem) => IsValid(elem)
    case _ => true
  }

  // ---------------------------------------------------------------- tokenize

  /** The rest of a scan at parenthesis depth `depth`, with `cur` read of the current token. */
  function Scan(s: string, depth: nat, cur: string): (r: Result<seq<string>, Error>)
    ensures r.Ok? ==> r.value != []
    ensures r.Ok? ==> forall i :: 0 <= i < |r.value| ==> |r.value[i]| <= |cur| + |s|
    decreases |s|
  {
    if s == "" then
      if depth != 0 then Err(UnbalancedParenthesis)
      else if cur == "" then Err(UnexpectedEnd)
      else Ok([cur])
    else if s[0] == ')' && depth == 0 then Err(UnbalancedParenthesis)
    else if s[0] == ',' && depth == 0 then
      var rest :- Scan(s[1..], 0, "");
      Ok([cur] + rest)
    else Scan(s[1..], depth + Delta(s[0]), cur + [s[0]])
  }

  /** What `Tokenize` returns. */
  function Tokens(s: string): (r: Result<seq<string>, Error>)
    ensures r.Ok? ==> forall i :: 0 <= i < |r.value| ==> |r.value[i]| <= |s|
  {
    if s == "" then Ok([]) else Scan(s, 0, "")
  }

  function Prepend(head: seq<string>, r: Result<seq<string>, Error>): Result<seq<string>, Error> {
    if r.Ok? then Ok(head + r.value) else r
  }

  lemma PrependTwice(head: seq<string>, next: string, r: Result<seq<string>, Error>)
    ensures Prepend([], r) == r
    ensures Prepend(head, Prepend([next], r)) == Prepend(head + [next], r)
  {
    if r.Ok? {
      assert [] + r.value == r.value;
      assert head + ([next] + r.value) == head + [next] + r.value;
    }
  }

  /** Splits an argument list at its top-level commas. */
  method Tokenize(s: string) returns (r: Result<seq<string>, Error>)
    ensures r == Tokens(s)
  {
    var curStart, parenDepth := 0, 0;
    var tokens: seq<string> := [];
    assert s[0..] == s && s[0..0] == "";
    PrependTwice([], "", Scan(s, 0, ""));
    for i := 0 to |s|
      invariant 0 <= curStart <= i && parenDepth >= 0
      invariant i == 0 ==> parenDepth == 0
      invariant curStart > 0 <==> tokens != []
      invariant s != "" ==> Tokens(s) == Prepend(tokens, Scan(s[i..], parenDepth, s[curStart..i]))
    {
      var ch := s[i];
      assert s[i..][0] == ch && s[i..][1..] == s[i + 1..];
      assert s[curStart..i] + [ch] == s[curStart..i + 1];
      if ch == '(' {
        parenDepth := parenDepth + 1;
      } else if ch == ')' {
        parenDepth := parenDepth - 1;
        if parenDepth < 0 {
          return Err(UnbalancedParenthesis);
        }
      } else if ch == ',' {
        if parenDepth == 0 {
          assert s[i + 1..i + 1] == "";
          PrependTwice(tokens, s[curStart..i], Scan(s[i + 1..], 0, ""));
          tokens := tokens + [s[curStart..i]];
          curStart := i + 1;
        }
      }
    }
    assert s[|s|..] == "";
    if parenDepth != 0 {
      return Err(UnbalancedParenthesis);
    }
    if curStart < |s| {
      tokens := tokens + [s[curStart..]];
      assert s[curStart..|s|] == s[curStart..];
    } else if curStart > 0 {
      return Err(UnexpectedEnd);
    }
    return Ok(tokens);
  }

  /** `parts` are the tokens of `s`: comma-joined they give `s`, and only a lone list ends empty. */
  ghost predicate IsTokenList(parts: seq<string>, s: string) {
    && s == Join(parts)
    && (forall i :: 0 <= i < |parts| ==> IsToken(parts[i]))
    && (parts != [] ==> parts[|parts| - 1] != "")
  }

  /** `parts` with `cur` put in front of its first piece. */
  function Glue(cur: string, parts: seq<string>): seq<string>
    requires parts != []
  {
    [cur + parts[0]] + parts[1..]
  }

  lemma GlueNothing(parts: seq<string>)
    requires parts != []
    ensures Glue("", parts) == parts
  {
    assert "" + parts[0] == parts[0];
  }

  /** `parts` are what is left to scan at depth `depth` once `cur` has been read. */
  ghost predicate IsRest(parts: seq<string>, s: string, depth: nat, cur: string) {
    && parts != []
    && s == Join(parts)
    && Closed(parts[0], depth)
    && (forall i :: 1 <= i < |parts| ==> IsToken(parts[i]))
    && (if |parts| == 1 then cur + parts[0] != "" else parts[|parts| - 1] != "")
  }

  lemma {:induction false} ScanComplete(s: string, depth: nat, cur: string, parts: seq<string>)
    requires IsRest(parts, s, depth, cur)
    ensures Scan(s, depth, cur) == Ok(Glue(cur, parts))
    decreases |s|
  {
    var head, tail := parts[0], parts[1..];
    if head != "" {
      var shorter := [head[1..]] + tail;
      assert s[0] == head[0];
      assert s[1..] == Join(shorter) by {
        if tail != [] {
          JoinCons(head[1..], tail);
        }
      }
      assert (cur + [head[0]]) + head[1..] == cur + head;
      assert shorter[1..] == tail;
      ScanComplete(s[1..], depth + Delta(s[0]), cur + [s[0]], shorter);
    } else if tail == [] {
      assert cur + head == cur;
      assert s == "" && depth == 0;
      assert Glue(cur, parts) == [cur];
    } else {
      assert cur + head == cur;
      assert s[0] == ',' && s[1..] == Join(tail);
      ScanComplete(s[1..], 0, "", tail);
      GlueNothing(tail);
    }
  }

  lemma {:induction false} ScanSound(s: string, depth: nat, cur: string) returns (parts: seq<string>)
    requires Scan(s, depth, cur).Ok?
    ensures IsRest(parts, s, depth, cur)
    ensures Scan(s, depth, cur).value == Glue(cur, parts)
    decreases |s|
  {
    if s == "" {
      parts := [""];
      assert cur + "" == cur;
    } else if s[0] == ',' && depth == 0 {
      var rest := ScanSound(s[1..], 0, "");
      GlueNothing(rest);
      parts := SplitHere(s, cur, rest);
    } else {
      var rest := ScanSound(s[1..], depth + Delta(s[0]), cur + [s[0]]);
      parts := ExtendFirst(s, depth, cur, rest);
    }
  }

  lemma SplitHere(s: string, cur: string, rest: seq<string>) returns (parts: seq<string>)
    requires s != "" && s[0] == ','
    requires IsRest(rest, s[1..], 0, "")
    ensures IsRest(parts, s, 0, cur) && Glue(cur, parts) == [cur] + rest
  {
    parts := [""] + rest;
    JoinCons("", rest);
    assert s == "," + s[1..];
    assert parts[1..] == rest && cur + "" == cur;
    assert |rest| == 1 ==> "" + rest[0] == rest[0];
  }

  lemma ExtendFirst(s: string, depth: nat, cur: string, rest: seq<string>) returns (parts: seq<string>)
    requires s != "" && !(s[0] == ',' && depth == 0) && !(s[0] == ')' && depth == 0)
    requires IsRest(rest, s[1..], depth + Delta(s[0]), cur + [s[0]])
    ensures IsRest(parts, s, depth, cur) && Glue(cur, parts) == Glue(cur + [s[0]], rest)
  {
    var head := [s[0]] + rest[0];
    parts := [head] + rest[1..];
    assert head[1..] == rest[0];
    assert (cur + [s[0]]) + rest[0] == cur + head;
    assert parts[1..] == rest[1..];
    assert s == [s[0]] + s[1..];
    if |rest| > 1 {
      JoinCons(head, rest[1..]);
      JoinCons(rest[0], rest[1..]);
      assert [rest[0]] + rest[1..] == rest;
      assert [s[0]] + (rest[0] + "," + Join(rest[1..])) == head + "," + Join(rest[1..]);
    }
  }

  /**
   * Splitting undoes joining and joining undoes splitting: the accepted inputs are exactly the
   * joins of balanced, comma-free pieces whose last piece is not empty, and the pieces are unique.
   */
  lemma TokenizeIff(s: string, parts: seq<string>)
    ensures Tokens(s) == Ok(parts) <==> IsTokenList(parts, s)
  {
    if Tokens(s) == Ok(parts) && s != "" {
      var found := ScanSound(s, 0, "");
      GlueNothing(found);
      assert "" + found[0] == found[0];
    }
    if IsTokenList(parts, s) && s != "" {
      assert "" + parts[0] == parts[0];
      ScanComplete(s, 0, "", parts);
      GlueNothing(parts);
    }
    if IsTokenList(parts, s) && s == "" && parts != [] {
      LastPartBounds(parts);
    }
  }

  lemma {:induction false} LastPartBounds(parts: seq<string>)
    requires parts != []
    ensures |parts[|parts| - 1]| <= |Join(parts)|
  {
    if |parts| > 1 {
      LastPartBounds(parts[1..]);
    }
  }

  /** Which error: unbalanced text first, and otherwise only a trailing top-level comma is refused. */
  lemma {:induction false} TokenizeErrors(s: string)
    ensures Tokens(s) == Err(UnbalancedParenthesis) <==> !Balanced(s)
    ensures Tokens(s).Err? && Balanced(s) <==> Tokens(s) == Err(UnexpectedEnd)
    ensures Tokens(s) == Err(UnexpectedEnd) <==> s != "" && s[|s| - 1] == ',' && Balanced(s)
  {
    if s != "" {
      ScanErrors(s, 0, "");
    }
  }

  lemma {:induction false} ScanErrors(s: string, depth: nat, cur: string)
    ensures Scan(s, depth, cur) == Err(UnbalancedParenthesis) <==> DepthAfter(s, depth) != 0
    ensures Scan(s, depth, cur).Err? ==> Scan(s, depth, cur).error in {UnbalancedParenthesis, UnexpectedEnd}
    ensures DepthAfter(s, depth) == 0 && (s == "" ==> cur != "") ==>
              (Scan(s, depth, cur).Err? <==> s != "" && s[|s| - 1] == ',')
    decreases |s|
  {
    if s != "" {
      var next := depth + Delta(s[0]);
      if next < 0 {
      } else if s[0] == ',' && depth == 0 {
        ScanErrors(s[1..], 0, "");
      } else {
        ScanErrors(s[1..], next, cur + [s[0]]);
      }
    }
  }

  // -------------------------------------------------------------------- read

  /** `usize::from_str_radix(s, 10)`: an optional plus sign and at least one digit, in range. */
  function ParseUsize(s: string): Option<usize> {
    var digits := if s != "" && s[0] == '+' then s[1..] else s;
    if digits != "" && AllDigits(digits) && ValueOf(digits) < USIZE_LIMIT
    then Some(ValueOf(digits))
    else None
  }

  /** The longest suffix without an opening bracket. */
  function AfterLastBracket(s: string): (r: string)
    ensures |r| <= |s| && s[|s| - |r|..] == r
    ensures forall i :: 0 <= i < |r| ==> r[i] != '['
    ensures |r| < |s| ==> s[|s| - |r| - 1] == '['
  {
    if s == "" || s[|s| - 1] == '[' then "" else AfterLastBracket(s[..|s| - 1]) + [s[|s| - 1]]
  }

  /** The names that stand for a type as they are, in the order they are tried. */
  const NAMES: seq<(string, ParamType)> := [
    ("address", Address),
    ("bytes", Bytes),
    ("bool", Bool),
    ("string", String),
    ("int", Int(256)),
    ("tuple", Tuple([])),
    ("uint", Uint(256))
  ]

  datatype SizedKind = IntKind | UintKind | BytesKind

  function Sized(kind: SizedKind, n: usize): ParamType {
    match kind
    case IntKind => Int(n)
    case UintKind => Uint(n)
    case BytesKind => FixedBytes(n)
  }

  /** The prefixes that take a size, tried after the names. */
  const PREFIXES: seq<(string, SizedKind)> := [("int", IntKind), ("uint", UintKind), ("bytes", BytesKind)]

  function LookupName(name: string, table: seq<(string, ParamType)>): Option<ParamType> {
    if table == [] then None
    else if name == table[0].0 then Some(table[0].1)
    else LookupName(name, table[1..])
  }

  function LookupPrefix(name: string, table: seq<(string, SizedKind)>): (r: Option<(string, SizedKind)>)
    ensures r.Some? ==> r.value.0 <= name
  {
    if table == [] then None
    else if table[0].0 <= name then Some(table[0])
    else LookupPrefix(name, table[1..])
  }

  function ReadSized(name: string): Result<ParamType, Error> {
    match LookupPrefix(name, PREFIXES)
    case None => Err(InvalidName(name))
    case Some((prefix, kind)) =>
      match ParseUsize(name[|prefix|..])
      case Some(n) => Ok(Sized(kind, n))
      case None => Err(ParseInt)
  }

  /** A name that ends neither in `)` nor in `]`. */
  function ReadAtom(name: string): Result<ParamType, Error> {
    match LookupName(name, NAMES)
    case Some(t) => Ok(t)
    case None => ReadSized(name)
  }

  /**
   * The element name of an array type and its length, `None` for a dynamic array. The number is
   * everything between the last `[` and the final `]`.
   */
  function SplitArray(name: string): (r: Result<(string, Option<usize>), Error>)
    requires name != "" && name[|name| - 1] == ']'
    ensures r.Ok? ==> |r.value.0| < |name|
  {
    var num := AfterLastBracket(name[..|name| - 1]);
    if num == "" then
      if |name| < 2 then Err(SliceOutOfRange) else Ok((name[..|name| - 2], None))
    else
      match ParseUsize(num)
      case None => Err(ParseInt)
      case Some(len) =>
        if |name| < |num| + 2 then Err(SliceOutOfRange) else Ok((name[..|name| - |num| - 2], Some(len)))
  }

  function Read(name: string): Result<ParamType, Error>
    decreases |name|, 0
  {
    if name != "" && name[|name| - 1] == ')' then
      if name[0] != '(' then Err(InvalidName(name))
      else
        var parts :- Tokens(name[1..|name| - 1]);
        var components :- ReadAll(parts, |name| - 2);
        Ok(Tuple(components))
    else if name != "" && name[|name| - 1] == ']' then
      var (elemName, len) :- SplitArray(name);
      var elem :- Read(elemName);
      Ok(if len.Some? then FixedArray(elem, len.value) else Array(elem))
    else ReadAtom(name)
  }

  /** Reads the parts in order and stops at the first that fails. */
  function ReadAll(parts: seq<string>, bound: nat): (r: Result<seq<ParamType>, Error>)
    requires forall i :: 0 <= i < |parts| ==> |parts[i]| <= bound
    ensures r.Ok? ==> |r.value| == |parts|
    decreases bound, 1 + |parts|
  {
    if parts == [] then Ok([])
    else
      var first :- Read(parts[0]);
      var rest :- ReadAll(parts[1..], bound);
      Ok([first] + rest)
  }

  function ParseParamType(s: string): Result<ParamType, Error> {
    var t :- Read(s);
    if IsValid(t) then Ok(t) else Err(InvalidType(s))
  }

  // ------------------------------------------------------------------- print

  /** The canonical type string of the Contract ABI Specification. */
  function Print(t: ParamType): string {
    match t
    case Address => "address"
    case Bytes => "bytes"
    case Int(bits) => "int" + Decimal(bits)
    case Uint(bits) => "uint" + Decimal(bits)
    case Bool => "bool"
    case String => "string"
    case Array(elem) => Print(elem) + "[]"
    case FixedBytes(size) => "bytes" + Decimal(size)
    case FixedArray(elem, len) => Print(elem) + "[" + Decimal(len) + "]"
    case Tuple(components) => "(" + Join(PrintAll(components)) + ")"
  }

  function PrintAll(ts: seq<ParamType>): (r: seq<string>)
    ensures |r| == |ts|
    ensures forall i :: 0 <= i < |ts| ==> r[i] == Print(ts[i])
  {
    if ts == [] then [] else [Print(ts[0])] + PrintAll(ts[1..])
  }
}
