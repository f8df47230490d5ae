/**
 * Contract fingerprints: the signatures found in EVM bytecode and those of an ABI file are turned
 * into the same text before hashing exactly when they are the same signatures.
 */
module Fingerprint {
  import opened Wrappers
  import opened Text
  import opened DataTypes
  import opened Encoding
  import opened TypeGrammar
  import opened Signatures
  import opened SignatureLaws
  import opened CanonicalNames

  const PUSH1: byte := 0x60
  const PUSH4: byte := 0x63
  const PUSH32: byte := 0x7f

  /** Hexadecimal text to a known signature, if any. */
  type SignatureMatcher = string -> Option<string>

  const HEX_DIGITS := "0123456789abcdef"

  function Hex(bytes: seq<byte>): (s: string)
    ensures |s| == 2 * |bytes|
  {
    if bytes == [] then "" else [HEX_DIGITS[bytes[0] / 16], HEX_DIGITS[bytes[0] % 16]] + Hex(bytes[1..])
  }

  /** The value of a lower-case hexadecimal digit. */
  function HexValue(c: char): int {
    if '0' <= c <= '9' then c as int - '0' as int else c as int - 'a' as int + 10
  }

  /** Each byte is written as two lower-case hexadecimal digits, the higher first. */
  lemma {:induction false} HexReads(bytes: seq<byte>, i: nat)
    requires i < |bytes|
    ensures forall k :: 2 * i <= k <= 2 * i + 1 ==> '0' <= Hex(bytes)[k] <= '9' || 'a' <= Hex(bytes)[k] <= 'f'
    ensures 16 * HexValue(Hex(bytes)[2 * i]) + HexValue(Hex(bytes)[2 * i + 1]) == bytes[i]
  {
    if i == 0 {
      HexDigit(bytes[0] / 16);
      HexDigit(bytes[0] % 16);
    } else {
      HexReads(bytes[1..], i - 1);
      assert Hex(bytes)[2 * i] == Hex(bytes[1..])[2 * (i - 1)];
      assert Hex(bytes)[2 * i + 1] == Hex(bytes[1..])[2 * (i - 1) + 1];
    }
  }

  lemma HexDigit(d: nat)
    requires d < 16
    ensures var c := HEX_DIGITS[d]; ('0' <= c <= '9' || 'a' <= c <= 'f') && HexValue(c) == d
  {
  }

  // --------------------------------------------------------- instruction boundaries

  /** The next valid instruction position `N(i, w)`, section 9.4.3 of the Ethereum Yellow Paper. */
  function Next(i: nat, w: byte): nat {
    if PUSH1 <= w <= PUSH32 then i + w - PUSH1 + 2 else i + 1
  }

  /** Walking from instruction to instruction, `from` leads to `p`. */
  predicate Leads(code: seq<byte>, from: nat, p: nat)
    decreases |code| - from
  {
    from == p || (from < |code| && from < p && Leads(code, Next(from, code[from]), p))
  }

  /** An instruction starts at `p`. */
  predicate IsInstruction(code: seq<byte>, p: nat) {
    p < |code| && Leads(code, 0, p)
  }

  /** The immediate data of the push at `p`, cut off where the code ends. */
  function PushData(code: seq<byte>, p: nat): seq<byte>
    requires p < |code| && PUSH1 <= code[p] <= PUSH32
  {
    var end := p + 1 + (code[p] - PUSH1 + 1);
    code[p + 1..if end <= |code| then end else |code|]
  }

  /** As many bytes behind the opcode as its number says, or as many as are left. */
  lemma PushDataReads(code: seq<byte>, p: nat)
    requires p < |code| && PUSH1 <= code[p] <= PUSH32
    ensures var data, n := PushData(code, p), code[p] - 0x5f;
            && |data| == (if p + n < |code| then n else |code| - p - 1)
            && forall k :: 0 <= k < |data| ==> data[k] == code[p + 1 + k]
  {
  }

  /** The push at `p` carries a known, non-empty signature. */
  predicate Matches(code: seq<byte>, matcher: SignatureMatcher, op: byte, p: nat)
    requires op == PUSH4 || op == PUSH32
  {
    && p < |code| && code[p] == op
    && var found := matcher(Hex(PushData(code, p)));
       found.Some? && found.value != ""
  }

  /** The instruction positions below `limit` whose push of kind `op` carries a signature. */
  ghost function MatchesBelow(code: seq<byte>, matcher: SignatureMatcher, op: byte, limit: nat): set<nat>
    requires op == PUSH4 || op == PUSH32
  {
    set p: nat | p < limit && IsInstruction(code, p) && Matches(code, matcher, op, p)
  }

  function SignatureAt(code: seq<byte>, matcher: SignatureMatcher, op: byte, p: nat): string
    requires op == PUSH4 || op == PUSH32
    requires Matches(code, matcher, op, p)
  {
    matcher(Hex(PushData(code, p))).value
  }

  /** The signatures carried at some positions. */
  ghost function SignaturesAt(code: seq<byte>, matcher: SignatureMatcher, op: byte, positions: set<nat>): set<string>
    requires op == PUSH4 || op == PUSH32
    requires forall p :: p in positions ==> Matches(code, matcher, op, p)
  {
    set p | p in positions :: SignatureAt(code, matcher, op, p)
  }

  ghost function FoundBelow(code: seq<byte>, matcher: SignatureMatcher, op: byte, limit: nat): set<string>
    requires op == PUSH4 || op == PUSH32
  {
    SignaturesAt(code, matcher, op, MatchesBelow(code, matcher, op, limit))
  }

  /** The signatures carried by pushes of kind `op` anywhere in the code. */
  ghost function Found(code: seq<byte>, matcher: SignatureMatcher, op: byte): set<string>
    requires op == PUSH4 || op == PUSH32
  {
    FoundBelow(code, matcher, op, |code|)
  }

  lemma {:induction false} LeadsStep(code: seq<byte>, from: nat, p: nat)
    requires Leads(code, from, p) && p < |code|
    ensures Leads(code, from, Next(p, code[p]))
    ensures forall q :: p < q < Next(p, code[p]) ==> !Leads(code, from, q)
    decreases |code| - from
  {
    if from == p {
      forall q | p < q < Next(p, code[p]) ensures !Leads(code, from, q) {
        LeadsForward(code, Next(p, code[p]), q);
      }
    } else {
      LeadsStep(code, Next(from, code[from]), p);
      LeadsForward(code, Next(from, code[from]), p);
    }
  }

  lemma LeadsForward(code: seq<byte>, from: nat, q: nat)
    ensures Leads(code, from, q) ==> from <= q
  {
  }

  /** The scan of the bytecode; the two sets are sorted by the caller. */
  method ExtractFunctionsAndEvents(code: seq<byte>, matcher: SignatureMatcher)
    returns (functionMatches: set<string>, eventMatches: set<string>)
    ensures functionMatches == Found(code, matcher, PUSH4) && "" !in functionMatches
    ensures eventMatches == Found(code, matcher, PUSH32) && "" !in eventMatches
  {
    functionMatches, eventMatches := {}, {};
    var i: nat := 0;
    while i < |code|
      invariant Leads(code, 0, i)
      invariant functionMatches == FoundBelow(code, matcher, PUSH4, i)
      invariant eventMatches == FoundBelow(code, matcher, PUSH32, i)
      decreases |code| - i
    {
      var start, opcode := i, code[i];
      LeadsStep(code, 0, i);
      ghost var next := Next(i, opcode);
      ScanStep(code, matcher, PUSH4, i);
      ScanStep(code, matcher, PUSH32, i);
      if 0x60 <= opcode <= 0x7f {
        var dataLength := opcode - 0x5f;
        if dataLength == 32 || dataLength == 4 {
          var end := i + dataLength + 1;
          var data := Hex(code[i + 1..if end <= |code| then end else |code|]);
          assert data == Hex(PushData(code, i));
          var match_ := matcher(data);
          if match_.Some? && match_.value != "" {
            if dataLength == 4 {
              functionMatches := functionMatches + {match_.value};
            } else {
              eventMatches := eventMatches + {match_.value};
            }
          }
        }
        i := i + dataLength;
      }
      i := i + 1;
      assert i == next;
    }
    FoundBeyond(code, matcher, PUSH4, i);
    FoundBeyond(code, matcher, PUSH32, i);
    NothingEmptyFound(code, matcher, PUSH4);
    NothingEmptyFound(code, matcher, PUSH32);
  }

  lemma InstructionsStep(code: seq<byte>, i: nat, p: nat)
    requires i < |code| && Leads(code, 0, i)
    ensures p < Next(i, code[i]) && IsInstruction(code, p) <==> (p < i && IsInstruction(code, p)) || p == i
  {
    LeadsStep(code, 0, i);
  }

  lemma MatchesStep(code: seq<byte>, matcher: SignatureMatcher, op: byte, i: nat)
    requires op == PUSH4 || op == PUSH32
    requires i < |code| && Leads(code, 0, i)
    ensures MatchesBelow(code, matcher, op, Next(i, code[i])) ==
            MatchesBelow(code, matcher, op, i) + (if Matches(code, matcher, op, i) then {i} else {})
  {
    forall p: nat
      ensures p < Next(i, code[i]) && IsInstruction(code, p) <==> (p < i && IsInstruction(code, p)) || p == i
    {
      InstructionsStep(code, i, p);
    }
  }

  lemma SignaturesStep(code: seq<byte>, matcher: SignatureMatcher, op: byte, before: set<nat>, after: set<nat>, i: nat)
    requires op == PUSH4 || op == PUSH32
    requires forall p :: p in before ==> Matches(code, matcher, op, p)
    requires after == before + (if Matches(code, matcher, op, i) then {i} else {})
    ensures SignaturesAt(code, matcher, op, after) ==
            SignaturesAt(code, matcher, op, before) +
            (if Matches(code, matcher, op, i) then {SignatureAt(code, matcher, op, i)} else {})
  {
  }

  /** Between two boundaries nothing is found but the push at the first. */
  lemma FoundStep(code: seq<byte>, matcher: SignatureMatcher, op: byte, i: nat)
    requires op == PUSH4 || op == PUSH32
    requires i < |code| && Leads(code, 0, i)
    ensures FoundBelow(code, matcher, op, Next(i, code[i])) ==
            FoundBelow(code, matcher, op, i) +
            (if Matches(code, matcher, op, i) then {SignatureAt(code, matcher, op, i)} else {})
  {
    MatchesStep(code, matcher, op, i);
    SignaturesStep(code, matcher, op, MatchesBelow(code, matcher, op, i),
                   MatchesBelow(code, matcher, op, Next(i, code[i])), i);
  }

  /** What the loop adds for one instruction. */
  lemma ScanStep(code: seq<byte>, matcher: SignatureMatcher, op: byte, i: nat)
    requires op == PUSH4 || op == PUSH32
    requires i < |code| && Leads(code, 0, i)
    ensures code[i] != op ==> FoundBelow(code, matcher, op, Next(i, code[i])) == FoundBelow(code, matcher, op, i)
    ensures code[i] == op ==>
              var found := matcher(Hex(PushData(code, i)));
              FoundBelow(code, matcher, op, Next(i, code[i])) ==
              FoundBelow(code, matcher, op, i) + (if found.Some? && found.value != "" then {found.value} else {})
  {
    FoundStep(code, matcher, op, i);
  }

  lemma NothingEmptyFound(code: seq<byte>, matcher: SignatureMatcher, op: byte)
    requires op == PUSH4 || op == PUSH32
    ensures "" !in Found(code, matcher, op)
  {
  }

  lemma FoundBeyond(code: seq<byte>, matcher: SignatureMatcher, op: byte, limit: nat)
    requires op == PUSH4 || op == PUSH32
    requires limit >= |code|
    ensures FoundBelow(code, matcher, op, limit) == Found(code, matcher, op)
  {
    assert MatchesBelow(code, matcher, op, limit) == MatchesBelow(code, matcher, op, |code|);
  }

  // ------------------------------------------------------------------- sorted lists

  /** The order of `Array.prototype.sort` without a comparator: by code units. */
  predicate StringLe(a: string, b: string)
    decreases |a|
  {
    a == "" || (b != "" && (a[0] < b[0] || (a[0] == b[0] && StringLe(a[1..], b[1..]))))
  }

  /** `a` is the beginning of `b`, or smaller at the first place where they differ. */
  predicate IsBefore(a: string, b: string) {
    a <= b || exists k :: 0 <= k < |a| && IsSmallerAt(a, b, k)
  }

  predicate IsSmallerAt(a: string, b: string, k: nat) {
    k < |a| && k < |b| && a[..k] == b[..k] && a[k] < b[k]
  }

  lemma {:induction false} StringLeIff(a: string, b: string)
    ensures StringLe(a, b) <==> IsBefore(a, b)
    decreases |a|
  {
    if a != "" && b != "" {
      if a[0] < b[0] {
        assert IsSmallerAt(a, b, 0);
      } else if a[0] == b[0] {
        StringLeIff(a[1..], b[1..]);
        SameHead(a, b);
      } else {
        assert forall k :: 0 < k < |a| && k < |b| ==> a[..k][0] == a[0] && b[..k][0] == b[0];
      }
    }
  }

  lemma SameHead(a: string, b: string)
    requires a != "" && b != "" && a[0] == b[0]
    ensures IsBefore(a, b) <==> IsBefore(a[1..], b[1..])
  {
    forall k | 0 <= k < |a| - 1 && k < |b| - 1 ensures IsSmallerAt(a[1..], b[1..], k) <==> IsSmallerAt(a, b, k + 1) {
      assert a[..k + 1] == [a[0]] + a[1..][..k] && b[..k + 1] == [b[0]] + b[1..][..k];
    }
    assert a == [a[0]] + a[1..] && b == [b[0]] + b[1..];
    assert !IsSmallerAt(a, b, 0);
    if k :| 0 <= k < |a| && IsSmallerAt(a, b, k) {
      assert IsSmallerAt(a[1..], b[1..], k - 1);
    }
    if k :| 0 <= k < |a[1..]| && IsSmallerAt(a[1..], b[1..], k) {
      assert IsSmallerAt(a, b, k + 1);
    }
  }

  lemma {:induction false} StringLeTotal(a: string, b: string)
    ensures StringLe(a, b) || StringLe(b, a)
    ensures StringLe(a, b) && StringLe(b, a) ==> a == b
    decreases |a|
  {
    if a != "" && b != "" {
      StringLeTotal(a[1..], b[1..]);
      assert a == [a[0]] + a[1..] && b == [b[0]] + b[1..];
    }
  }

  lemma {:induction false} StringLeTransitive(a: string, b: string, c: string)
    requires StringLe(a, b) && StringLe(b, c)
    ensures StringLe(a, c)
    decreases |a|
  {
    if a != "" && a[0] == b[0] == c[0] {
      StringLeTransitive(a[1..], b[1..], c[1..]);
    }
  }

  predicate Sorted(list: seq<string>) {
    forall i, j :: 0 <= i < j < |list| ==> StringLe(list[i], list[j])
  }

  function Insert(x: string, list: seq<string>): (r: seq<string>)
    ensures multiset(r) == multiset(list) + multiset{x}
  {
    if list == [] then [x]
    else if StringLe(x, list[0]) then [x] + list
    else
      assert list == [list[0]] + list[1..];
      [list[0]] + Insert(x, list[1..])
  }

  lemma HeadIsLeast(list: seq<string>, x: string)
    requires Sorted(list) && x in multiset(list)
    ensures list != [] && StringLe(list[0], x)
  {
    var i :| 0 <= i < |list| && list[i] == x;
    StringLeTotal(x, x);
  }

  lemma {:induction false} InsertKeepsSorted(x: string, list: seq<string>)
    requires Sorted(list)
    ensures Sorted(Insert(x, list))
  {
    if list == [] {
    } else if StringLe(x, list[0]) {
      forall y | y in multiset(list) ensures StringLe(x, y) {
        HeadIsLeast(list, y);
        StringLeTransitive(x, list[0], y);
      }
      LeastFirst(x, list);
    } else {
      InsertKeepsSorted(x, list[1..]);
      StringLeTotal(x, list[0]);
      LeastFirst(list[0], Insert(x, list[1..]));
    }
  }

  lemma LeastFirst(x: string, list: seq<string>)
    requires Sorted(list)
    requires forall y :: y in multiset(list) ==> StringLe(x, y)
    ensures Sorted([x] + list)
  {
    assert forall j :: 0 <= j < |list| ==> list[j] in multiset(list);
  }

  /** `list.sort()`. */
  function Sort(list: seq<string>): (r: seq<string>)
    ensures multiset(r) == multiset(list)
  {
    if list == [] then []
    else
      assert list == [list[0]] + list[1..];
      Insert(list[0], Sort(list[1..]))
  }

  lemma {:induction false} SortSorts(list: seq<string>)
    ensures Sorted(Sort(list))
  {
    if list != [] {
      SortSorts(list[1..]);
      InsertKeepsSorted(list[0], Sort(list[1..]));
    }
  }

  /** `[...set].sort()`. */
  method SortedList(elements: set<string>) returns (list: seq<string>)
    ensures Sorted(list) && multiset(list) == multiset(elements)
  {
    list := [];
    var rest := elements;
    while rest != {}
      invariant rest <= elements && Sorted(list)
      invariant multiset(list) == multiset(elements - rest)
      decreases |rest|
    {
      var x :| x in rest;
      assert elements - (rest - {x}) == (elements - rest) + {x};
      InsertKeepsSorted(x, list);
      list := Insert(x, list);
      rest := rest - {x};
    }
    assert elements - rest == elements;
  }

  lemma RestOfSorted(list: seq<string>)
    requires Sorted(list) && list != []
    ensures Sorted(list[1..]) && multiset(list[1..]) == multiset(list) - multiset{list[0]}
  {
    assert list == [list[0]] + list[1..];
  }

  /** A multiset of strings has one sorted list. */
  lemma {:induction false} SortedIsUnique(a: seq<string>, b: seq<string>)
    requires Sorted(a) && Sorted(b) && multiset(a) == multiset(b)
    ensures a == b
    decreases |a|
  {
    assert |a| == |multiset(a)| == |multiset(b)| == |b|;
    if a != [] {
      assert a[0] in multiset(a) && b[0] in multiset(b);
      HeadIsLeast(a, b[0]);
      HeadIsLeast(b, a[0]);
      StringLeTotal(a[0], b[0]);
      RestOfSorted(a);
      RestOfSorted(b);
      SortedIsUnique(a[1..], b[1..]);
    }
  }

  // ------------------------------------------------------------------- hashed text

  /** The text that is hashed. */
  function Preimage(functions: seq<string>, events: seq<string>): string {
    Join(functions) + "|" + Join(events)
  }

  /** `keccak` is the foreign hash. */
  function ComputeContractFingerprint(functions: seq<string>, events: seq<string>, keccak: string -> string): Option<string> {
    if functions == [] && events == [] then None else Some(keccak(Preimage(functions, events)))
  }

  /** A signature that cannot be confused with its neighbours in the hashed text. */
  predicate IsWellFormed(sig: string) {
    sig != "" && IsToken(sig) && '|' !in sig
  }

  predicate AllWellFormed(sigs: seq<string>) {
    forall i :: 0 <= i < |sigs| ==> IsWellFormed(sigs[i])
  }

  lemma {:induction false} JoinHasNoBar(parts: seq<string>)
    requires forall i :: 0 <= i < |parts| ==> '|' !in parts[i]
    ensures '|' !in Join(parts)
  {
    if |parts| > 1 {
      JoinHasNoBar(parts[1..]);
      assert forall c :: c in Join(parts) ==> c in parts[0] || c == ',' || c in Join(parts[1..]);
    }
  }

  lemma SplitAtBar(a: string, b: string, c: string, d: string)
    requires a + "|" + b == c + "|" + d && '|' !in a && '|' !in c
    ensures a == c && b == d
  {
    var s, t := a + "|" + b, c + "|" + d;
    assert s[|a|] == '|' && t[|c|] == '|';
    assert forall k :: 0 <= k < |a| ==> s[k] == a[k] != '|';
    assert forall k :: 0 <= k < |c| ==> t[k] == c[k] != '|';
    assert |a| == |c|;
    assert a == s[..|a|] && c == t[..|c|];
    assert b == s[|a| + 1..] && d == t[|c| + 1..];
  }

  lemma JoinInjective(a: seq<string>, b: seq<string>)
    requires AllWellFormed(a) && AllWellFormed(b) && Join(a) == Join(b)
    ensures a == b
  {
    TokenizeIff(Join(a), a);
    TokenizeIff(Join(b), b);
  }

  /**
   * How to read the hashed text: its only bar stands between the functions and the events, and each
   * part splits at its top-level commas.
   */
  lemma PreimageReads(functions: seq<string>, events: seq<string>)
    requires AllWellFormed(functions) && AllWellFormed(events)
    ensures var text := Preimage(functions, events);
            exists p :: 0 <= p < |text| && text[p] == '|' && '|' !in text[..p] && '|' !in text[p + 1..]
                        && IsTokenList(functions, text[..p]) && IsTokenList(events, text[p + 1..])
  {
    var text, p := Preimage(functions, events), |Join(functions)|;
    JoinHasNoBar(functions);
    JoinHasNoBar(events);
    assert text[p] == '|' && text[..p] == Join(functions) && text[p + 1..] == Join(events);
  }

  /** The hashed text determines both lists of signatures. */
  lemma PreimageInjective(f: seq<string>, e: seq<string>, g: seq<string>, h: seq<string>)
    requires AllWellFormed(f) && AllWellFormed(e) && AllWellFormed(g) && AllWellFormed(h)
    requires Preimage(f, e) == Preimage(g, h)
    ensures f == g && e == h
  {
    JoinHasNoBar(f);
    JoinHasNoBar(g);
    SplitAtBar(Join(f), Join(e), Join(g), Join(h));
    JoinInjective(f, g);
    JoinInjective(e, h);
  }

  // ------------------------------------------------------ canonical signatures qualify

  lemma {:induction false} PrintHasNoBar(t: ParamType)
    ensures '|' !in Print(t)
    decreases t, 1
  {
    match t
    case Array(elem) =>
      PrintHasNoBar(elem);
    case FixedArray(elem, len) =>
      PrintHasNoBar(elem);
      DigitsHaveNoBar(len);
    case Tuple(components) =>
      PrintAllHasNoBar(components);
      JoinHasNoBar(PrintAll(components));
    case Int(bits) => DigitsHaveNoBar(bits);
    case Uint(bits) => DigitsHaveNoBar(bits);
    case FixedBytes(size) => DigitsHaveNoBar(size);
    case _ =>
  }

  lemma DigitsHaveNoBar(n: nat)
    ensures '|' !in Decimal(n)
  {
    var s := Decimal(n);
    assert forall i :: 0 <= i < |s| ==> IsDigit(s[i]);
  }

  lemma {:induction false} PrintAllHasNoBar(ts: seq<ParamType>)
    ensures forall i :: 0 <= i < |ts| ==> '|' !in PrintAll(ts)[i]
    decreases ts, 0
  {
    forall i | 0 <= i < |ts| ensures '|' !in PrintAll(ts)[i] {
      PrintHasNoBar(ts[i]);
    }
  }

  lemma SignatureIsToken(name: string, types: seq<string>)
    requires IsValidName(name) && forall i :: 0 <= i < |types| ==> IsToken(types[i])
    ensures IsToken(Signature(name, types))
  {
    var list := "(" + Join(types) + ")";
    ParenthesisedIsToken(types);
    assert forall i :: 0 <= i < |name| ==> IsNameChar(name[i]);
    PlainIsToken(name);
    ClosedConcat(name, 0, list, 0);
    assert Signature(name, types) == name + list;
  }

  lemma SignatureHasNoBar(name: string, types: seq<string>)
    requires IsValidName(name) && forall i :: 0 <= i < |types| ==> '|' !in types[i]
    ensures '|' !in Signature(name, types)
  {
    JoinHasNoBar(types);
    assert forall i :: 0 <= i < |name| ==> IsNameChar(name[i]);
    assert forall c :: c in Signature(name, types) ==> c in name || c == '(' || c == ')' || c in Join(types);
  }

  /** Every canonical signature is well-formed, whatever its argument types. */
  lemma CanonicalIsWellFormed(sig: string, name: string, ts: seq<ParamType>)
    requires IsValidName(name) && IsCanonicalSignature(sig, name, ts)
    ensures IsWellFormed(sig)
  {
    CanonicalSignatureIff(sig, name, ts);
    forall i | 0 <= i < |ts| ensures IsToken(PrintAll(ts)[i]) {
      PrintSpells(ts[i]);
      SpellingIsToken(Print(ts[i]), ts[i]);
    }
    SignatureIsToken(name, PrintAll(ts));
    PrintAllHasNoBar(ts);
    SignatureHasNoBar(name, PrintAll(ts));
  }

  // ------------------------------------------------------------------ the same text

  /** `list` names each element of `elements` once and nothing else. */
  ghost predicate Lists(list: seq<string>, elements: set<string>) {
    forall x :: multiset(list)[x] == if x in elements then 1 else 0
  }

  /**
   * Bytecode and ABI file give the same hashed text if and only if the file declares exactly the
   * functions and the events found in the code, each once.
   */
  lemma SameTextIffSameSignatures(functions: set<string>, events: set<string>,
                                  codeFunctions: seq<string>, codeEvents: seq<string>,
                                  fileFunctions: seq<string>, fileEvents: seq<string>)
    requires Sorted(codeFunctions) && multiset(codeFunctions) == multiset(functions)
    requires Sorted(codeEvents) && multiset(codeEvents) == multiset(events)
    requires AllWellFormed(codeFunctions) && AllWellFormed(codeEvents)
    requires AllWellFormed(fileFunctions) && AllWellFormed(fileEvents)
    ensures Preimage(codeFunctions, codeEvents) == Preimage(Sort(fileFunctions), Sort(fileEvents)) <==>
            Lists(fileFunctions, functions) && Lists(fileEvents, events)
  {
    assert Lists(fileFunctions, functions) <==> multiset(fileFunctions) == multiset(functions);
    assert Lists(fileEvents, events) <==> multiset(fileEvents) == multiset(events);
    SortSorts(fileFunctions);
    SortSorts(fileEvents);
    SameElements(Sort(fileFunctions), fileFunctions);
    SameElements(Sort(fileEvents), fileEvents);
    if Preimage(codeFunctions, codeEvents) == Preimage(Sort(fileFunctions), Sort(fileEvents)) {
      PreimageInjective(codeFunctions, codeEvents, Sort(fileFunctions), Sort(fileEvents));
    }
    if Lists(fileFunctions, functions) && Lists(fileEvents, events) {
      SortedIsUnique(codeFunctions, Sort(fileFunctions));
      SortedIsUnique(codeEvents, Sort(fileEvents));
    }
  }

  lemma SameElements(list: seq<string>, other: seq<string>)
    requires multiset(list) == multiset(other) && AllWellFormed(other)
    ensures AllWellFormed(list)
  {
    forall i | 0 <= i < |list| ensures IsWellFormed(list[i]) {
      assert list[i] in multiset(list) && list[i] in multiset(other) && list[i] in other;
    }
  }

  /** The two texts are not a collision of the hash. */
  predicate NoCollision(keccak: string -> string, a: string, b: string) {
    keccak(a) == keccak(b) ==> a == b
  }

  /** Only two empty lists give the text of two empty lists. */
  lemma EmptyText(functions: seq<string>, events: seq<string>)
    requires AllWellFormed(functions) && AllWellFormed(events)
    ensures Preimage(functions, events) == "|" <==> functions == [] && events == []
  {
    assert Preimage([], []) == "|";
    if Preimage(functions, events) == "|" {
      PreimageInjective(functions, events, [], []);
    }
  }

  /** The special case for contracts without signatures does not merge anything. */
  lemma SameFingerprintIffSameText(f: seq<string>, e: seq<string>, g: seq<string>, h: seq<string>,
                                   keccak: string -> string)
    requires AllWellFormed(f) && AllWellFormed(e) && AllWellFormed(g) && AllWellFormed(h)
    requires NoCollision(keccak, Preimage(f, e), Preimage(g, h))
    ensures ComputeContractFingerprint(f, e, keccak) == ComputeContractFingerprint(g, h, keccak) <==>
            Preimage(f, e) == Preimage(g, h)
  {
    EmptyText(f, e);
    EmptyText(g, h);
  }
}
