/**
 * The signatures that an ABI file declares (files.ts), and when a contract's code and a file get the
 * same fingerprint.
 */
module AbiFiles {
  import opened Wrappers
  import opened Text
  import opened DataTypes
  import opened Encoding
  import opened Signatures
  import opened SignatureLaws
  import opened Fingerprint

  datatype ItemKind = FunctionItem | EventItem | OtherItem

  /** An entry of an ABI file; constructors and fallbacks have no name. */
  datatype AbiEntry = AbiEntry(kind: ItemKind, name: Option<string>, inputs: seq<AbiInput>)

  predicate IsKept(entry: AbiEntry) {
    entry.kind != OtherItem && entry.name.Some?
  }

  /** `computeSignature`, which refuses definitions without a name. */
  function SignatureOf(entry: AbiEntry): Result<string, SigError> {
    if entry.name.None? then Err(EmptyFunctionName) else ComputeSignature(AbiItem(entry.name.value, entry.inputs))
  }

  type Signer = AbiEntry -> Result<string, SigError>

  /** The signatures of the kept entries of `kind` among the first `n`; the first bad entry fails all. */
  function FirstSignatures(signer: Signer, entries: seq<AbiEntry>, kind: ItemKind, n: nat): Result<seq<string>, SigError>
    requires n <= |entries|
  {
    if n == 0 then Ok([])
    else
      var front :- FirstSignatures(signer, entries, kind, n - 1);
      if !IsKept(entries[n - 1]) then Ok(front)
      else
        var sig :- signer(entries[n - 1]);
        Ok(if entries[n - 1].kind == kind then front + [sig] else front)
  }

  function Signing(): Signer {
    entry => SignatureOf(entry)
  }

  function EntrySignatures(entries: seq<AbiEntry>, kind: ItemKind): Result<seq<string>, SigError> {
    FirstSignatures(Signing(), entries, kind, |entries|)
  }

  // ------------------------------------------------------------------ what a file declares

  /** Entry `i` is a function or an event with a name. */
  predicate IsCallable(entries: seq<AbiEntry>, i: nat)
    requires i < |entries|
  {
    (entries[i].kind.FunctionItem? || entries[i].kind.EventItem?) && entries[i].name.Some?
  }

  /** Entry `i` declares a function, or an event, with the signature `sig`. */
  predicate Declares(signer: Signer, entries: seq<AbiEntry>, kind: ItemKind, i: nat, sig: string) {
    IsNamed(entries, kind, i) && signer(entries[i]) == Ok(sig)
  }

  /** Every named function and event among the first `n` entries has a signature. */
  predicate AllComputable(signer: Signer, entries: seq<AbiEntry>, n: nat)
    requires n <= |entries|
  {
    forall i :: 0 <= i < n && IsCallable(entries, i) ==> signer(entries[i]).Ok?
  }

  /** Entry `i` is of this kind and has a name. */
  predicate IsNamed(entries: seq<AbiEntry>, kind: ItemKind, i: nat) {
    i < |entries| && entries[i].kind == kind && entries[i].name.Some?
  }

  /** `at` lists exactly the named entries of `kind` among the first `n`, in file order. */
  predicate ListsEntries(entries: seq<AbiEntry>, kind: ItemKind, n: nat, at: seq<nat>) {
    && (forall k, l :: 0 <= k < l < |at| ==> at[k] < at[l])
    && (forall k :: 0 <= k < |at| ==> at[k] < n && IsNamed(entries, kind, at[k]))
    && (forall i :: 0 <= i < n && IsNamed(entries, kind, i) ==> i in at)
  }

  predicate DeclaresEach(signer: Signer, entries: seq<AbiEntry>, kind: ItemKind, at: seq<nat>, sigs: seq<string>) {
    |at| == |sigs| && forall k :: 0 <= k < |at| ==> Declares(signer, entries, kind, at[k], sigs[k])
  }

  lemma ListOneMore(entries: seq<AbiEntry>, kind: ItemKind, n: nat, at: seq<nat>)
    requires n < |entries| && ListsEntries(entries, kind, n, at)
    ensures if IsNamed(entries, kind, n) then ListsEntries(entries, kind, n + 1, at + [n]) else ListsEntries(entries, kind, n + 1, at)
  {
    if IsNamed(entries, kind, n) {
      assert (at + [n])[|at|] == n;
      assert forall i :: i in at ==> i in at + [n];
    }
  }

  lemma ListOneLess(entries: seq<AbiEntry>, kind: ItemKind, n: nat, at: seq<nat>)
    requires n < |entries| && ListsEntries(entries, kind, n + 1, at)
    ensures !IsNamed(entries, kind, n) ==> ListsEntries(entries, kind, n, at)
    ensures IsNamed(entries, kind, n) ==> at != [] && at[|at| - 1] == n && ListsEntries(entries, kind, n, at[..|at| - 1])
  {
    if IsNamed(entries, kind, n) {
      assert n in at && forall k :: 0 <= k < |at| - 1 ==> at[k] < at[|at| - 1] <= n;
      assert at == at[..|at| - 1] + [n];
    } else {
      assert forall k :: 0 <= k < |at| ==> at[k] != n;
    }
  }

  lemma DeclareOneMore(signer: Signer, entries: seq<AbiEntry>, kind: ItemKind, at: seq<nat>, sigs: seq<string>, i: nat, sig: string)
    requires DeclaresEach(signer, entries, kind, at, sigs) && Declares(signer, entries, kind, i, sig)
    ensures DeclaresEach(signer, entries, kind, at + [i], sigs + [sig])
  {
  }

  lemma {:induction false} SignaturesSound(signer: Signer, entries: seq<AbiEntry>, kind: ItemKind, n: nat) returns (at: seq<nat>)
    requires n <= |entries| && kind != OtherItem && FirstSignatures(signer, entries, kind, n).Ok?
    ensures ListsEntries(entries, kind, n, at)
    ensures DeclaresEach(signer, entries, kind, at, FirstSignatures(signer, entries, kind, n).value)
  {
    if n == 0 {
      at := [];
    } else {
      at := SignaturesSound(signer, entries, kind, n - 1);
      ListOneMore(entries, kind, n - 1, at);
      if IsNamed(entries, kind, n - 1) {
        DeclareOneMore(signer, entries, kind, at, FirstSignatures(signer, entries, kind, n - 1).value, n - 1, signer(entries[n - 1]).value);
        at := at + [n - 1];
      }
    }
  }

  lemma {:induction false} SignaturesComplete(signer: Signer, entries: seq<AbiEntry>, kind: ItemKind, n: nat, at: seq<nat>, sigs: seq<string>)
    requires n <= |entries| && kind != OtherItem && AllComputable(signer, entries, n)
    requires ListsEntries(entries, kind, n, at) && DeclaresEach(signer, entries, kind, at, sigs)
    ensures FirstSignatures(signer, entries, kind, n) == Ok(sigs)
  {
    if n == 0 {
      assert at == [];
    } else {
      ListOneLess(entries, kind, n - 1, at);
      if IsNamed(entries, kind, n - 1) {
        var last := |at| - 1;
        assert Declares(signer, entries, kind, at[last], sigs[last]);
        SignaturesComplete(signer, entries, kind, n - 1, at[..last], sigs[..last]);
        assert sigs == sigs[..last] + [sigs[last]];
      } else {
        SignaturesComplete(signer, entries, kind, n - 1, at, sigs);
      }
    }
  }

  lemma {:induction false} ComputableIff(signer: Signer, entries: seq<AbiEntry>, kind: ItemKind, n: nat)
    requires n <= |entries|
    ensures FirstSignatures(signer, entries, kind, n).Ok? <==> AllComputable(signer, entries, n)
  {
    if n > 0 {
      ComputableIff(signer, entries, kind, n - 1);
      assert AllComputable(signer, entries, n) <==>
             AllComputable(signer, entries, n - 1) && (IsCallable(entries, n - 1) ==> signer(entries[n - 1]).Ok?);
    }
  }

  /** Entry `i` declares a function, or an event, with the computed signature `sig`. */
  predicate Declared(entries: seq<AbiEntry>, kind: ItemKind, i: nat, sig: string) {
    && i < |entries| && entries[i].kind == kind && entries[i].name.Some?
    && ComputeSignature(AbiItem(entries[i].name.value, entries[i].inputs)) == Ok(sig)
  }

  predicate DeclaredEach(entries: seq<AbiEntry>, kind: ItemKind, at: seq<nat>, sigs: seq<string>) {
    |at| == |sigs| && forall k :: 0 <= k < |at| ==> Declared(entries, kind, at[k], sigs[k])
  }

  /** Every named function and event among the first `n` entries has a signature. */
  predicate AllSigned(entries: seq<AbiEntry>, n: nat)
    requires n <= |entries|
  {
    forall i :: 0 <= i < n && IsCallable(entries, i) ==>
      ComputeSignature(AbiItem(entries[i].name.value, entries[i].inputs)).Ok?
  }

  lemma SignedIff(entries: seq<AbiEntry>, n: nat)
    requires n <= |entries|
    ensures AllSigned(entries, n) <==> AllComputable(Signing(), entries, n)
  {
    forall i | 0 <= i < n && IsCallable(entries, i)
      ensures Signing()(entries[i]) == ComputeSignature(AbiItem(entries[i].name.value, entries[i].inputs))
    {
    }
  }

  lemma DeclaredIff(entries: seq<AbiEntry>, kind: ItemKind, i: nat, sig: string)
    ensures Declared(entries, kind, i, sig) <==> Declares(Signing(), entries, kind, i, sig)
  {
  }

  lemma DeclaredEachIff(entries: seq<AbiEntry>, kind: ItemKind, at: seq<nat>, sigs: seq<string>)
    ensures DeclaredEach(entries, kind, at, sigs) <==> DeclaresEach(Signing(), entries, kind, at, sigs)
  {
    forall k | 0 <= k < |at| && k < |sigs|
      ensures Declared(entries, kind, at[k], sigs[k]) <==> Declares(Signing(), entries, kind, at[k], sigs[k])
    {
      DeclaredIff(entries, kind, at[k], sigs[k]);
    }
  }

  /**
   * The signatures of a kind are `sigs` if and only if every named function and event has a signature
   * and `sigs` are, in file order, those of exactly the named entries of the kind.
   */
  lemma EntrySignaturesIff(entries: seq<AbiEntry>, kind: ItemKind, sigs: seq<string>)
    requires kind != OtherItem
    ensures EntrySignatures(entries, kind) == Ok(sigs) <==>
            && AllSigned(entries, |entries|)
            && exists at :: ListsEntries(entries, kind, |entries|, at) && DeclaredEach(entries, kind, at, sigs)
  {
    SignedIff(entries, |entries|);
    ComputableIff(Signing(), entries, kind, |entries|);
    if EntrySignatures(entries, kind) == Ok(sigs) {
      var at := SignaturesSound(Signing(), entries, kind, |entries|);
      DeclaredEachIff(entries, kind, at, sigs);
    }
    if AllSigned(entries, |entries|) {
      if at :| ListsEntries(entries, kind, |entries|, at) && DeclaredEach(entries, kind, at, sigs) {
        DeclaredEachIff(entries, kind, at, sigs);
        SignaturesComplete(Signing(), entries, kind, |entries|, at, sigs);
      }
    }
  }

  /** Entry `i` is the first named function or event without a signature. */
  predicate FailsFirst(signer: Signer, entries: seq<AbiEntry>, i: nat, e: SigError) {
    i < |entries| && IsCallable(entries, i) && signer(entries[i]) == Err(e) && AllComputable(signer, entries, i)
  }

  lemma {:induction false} FailureSound(signer: Signer, entries: seq<AbiEntry>, kind: ItemKind, n: nat) returns (i: nat)
    requires n <= |entries| && FirstSignatures(signer, entries, kind, n).Err?
    ensures i < n && FailsFirst(signer, entries, i, FirstSignatures(signer, entries, kind, n).error)
  {
    if FirstSignatures(signer, entries, kind, n - 1).Err? {
      i := FailureSound(signer, entries, kind, n - 1);
    } else {
      ComputableIff(signer, entries, kind, n - 1);
      i := n - 1;
    }
  }

  lemma {:induction false} FailureComplete(signer: Signer, entries: seq<AbiEntry>, kind: ItemKind, n: nat, i: nat, e: SigError)
    requires i < n <= |entries| && FailsFirst(signer, entries, i, e)
    ensures FirstSignatures(signer, entries, kind, n) == Err(e)
  {
    if i < n - 1 {
      FailureComplete(signer, entries, kind, n - 1, i, e);
    } else {
      ComputableIff(signer, entries, kind, i);
    }
  }

  /** Entry `i` is the first named function or event whose signature cannot be computed. */
  predicate IsFirstBad(entries: seq<AbiEntry>, i: nat, e: SigError) {
    && i < |entries| && IsCallable(entries, i)
    && ComputeSignature(AbiItem(entries[i].name.value, entries[i].inputs)) == Err(e) && AllSigned(entries, i)
  }

  lemma FirstBadIff(entries: seq<AbiEntry>, i: nat, e: SigError)
    ensures IsFirstBad(entries, i, e) <==> FailsFirst(Signing(), entries, i, e)
  {
    if i < |entries| {
      SignedIff(entries, i);
    }
  }

  /** It fails exactly with the error of the first named function or event that has no signature. */
  lemma EntrySignaturesFailIff(entries: seq<AbiEntry>, kind: ItemKind, e: SigError)
    ensures EntrySignatures(entries, kind) == Err(e) <==> exists i :: IsFirstBad(entries, i, e)
  {
    if EntrySignatures(entries, kind) == Err(e) {
      var i := FailureSound(Signing(), entries, kind, |entries|);
      FirstBadIff(entries, i, e);
    }
    if i :| IsFirstBad(entries, i, e) {
      FirstBadIff(entries, i, e);
      FailureComplete(Signing(), entries, kind, |entries|, i, e);
    }
  }

  // ------------------------------------------------------------------ each signature once

  /** The file declares the signatures `sigs` and no others, each of them once. */
  ghost predicate DeclaresExactly(entries: seq<AbiEntry>, kind: ItemKind, sigs: set<string>) {
    && (forall i, x :: Declared(entries, kind, i, x) ==> x in sigs)
    && (forall x :: x in sigs ==> IsDeclared(entries, kind, x))
    && (forall i, j, x :: Declared(entries, kind, i, x) && Declared(entries, kind, j, x) ==> i == j)
  }

  ghost predicate IsDeclared(entries: seq<AbiEntry>, kind: ItemKind, sig: string) {
    exists i :: Declared(entries, kind, i, sig)
  }

  predicate Differ(list: seq<string>) {
    forall k, l :: 0 <= k < l < |list| ==> list[k] != list[l]
  }

  lemma {:induction false} OnceIfDifferent(list: seq<string>, x: string)
    requires Differ(list)
    ensures multiset(list)[x] == if x in list then 1 else 0
    decreases |list|
  {
    if list != [] {
      var last := |list| - 1;
      OnceIfDifferent(list[..last], x);
      assert list == list[..last] + [list[last]];
    }
  }

  lemma TwiceIfEqual(list: seq<string>, k: nat, l: nat)
    requires k < l < |list| && list[k] == list[l]
    ensures multiset(list)[list[k]] >= 2
  {
    assert list == list[..l] + [list[l]] + list[l + 1..];
    assert list[..l][k] == list[k];
    assert list[k] in multiset(list[..l]);
  }

  /** A list names each element of a set once and nothing else. */
  lemma ListsIff(list: seq<string>, elements: set<string>)
    ensures Lists(list, elements) <==> Differ(list) && forall x :: x in elements <==> x in list
  {
    if Differ(list) && forall x :: x in elements <==> x in list {
      forall x ensures multiset(list)[x] == if x in elements then 1 else 0 {
        OnceIfDifferent(list, x);
      }
    }
    if Lists(list, elements) {
      forall k, l | 0 <= k < l < |list| ensures list[k] != list[l] {
        if list[k] == list[l] {
          TwiceIfEqual(list, k, l);
        }
      }
      forall x ensures x in elements <==> x in list {
        assert x in list <==> x in multiset(list);
      }
    }
  }

  lemma DeclaredIsListed(entries: seq<AbiEntry>, kind: ItemKind, at: seq<nat>, sigs: seq<string>, i: nat, x: string) returns (k: nat)
    requires ListsEntries(entries, kind, |entries|, at) && DeclaredEach(entries, kind, at, sigs) && Declared(entries, kind, i, x)
    ensures k < |at| && at[k] == i && sigs[k] == x
  {
    assert IsNamed(entries, kind, i);
    k :| k < |at| && at[k] == i;
    assert Declared(entries, kind, at[k], sigs[k]);
  }

  lemma ListedExactly(entries: seq<AbiEntry>, kind: ItemKind, at: seq<nat>, sigs: seq<string>, elements: set<string>)
    requires ListsEntries(entries, kind, |entries|, at) && DeclaredEach(entries, kind, at, sigs)
    requires Differ(sigs) && forall x :: x in elements <==> x in sigs
    ensures DeclaresExactly(entries, kind, elements)
  {
    forall i, x | Declared(entries, kind, i, x) ensures x in elements {
      var k := DeclaredIsListed(entries, kind, at, sigs, i, x);
    }
    forall x | x in elements ensures IsDeclared(entries, kind, x) {
      var k :| 0 <= k < |sigs| && sigs[k] == x;
      assert Declared(entries, kind, at[k], sigs[k]);
    }
    forall i, j, x | Declared(entries, kind, i, x) && Declared(entries, kind, j, x) ensures i == j {
      var k := DeclaredIsListed(entries, kind, at, sigs, i, x);
      var l := DeclaredIsListed(entries, kind, at, sigs, j, x);
    }
  }

  lemma ExactlyListed(entries: seq<AbiEntry>, kind: ItemKind, at: seq<nat>, sigs: seq<string>, elements: set<string>)
    requires ListsEntries(entries, kind, |entries|, at) && DeclaredEach(entries, kind, at, sigs)
    requires DeclaresExactly(entries, kind, elements)
    ensures Differ(sigs) && forall x :: x in elements <==> x in sigs
  {
    forall k | 0 <= k < |sigs| ensures Declared(entries, kind, at[k], sigs[k]) {
    }
    forall x ensures x in elements <==> x in sigs {
      if x in elements {
        assert IsDeclared(entries, kind, x);
        var i :| Declared(entries, kind, i, x);
        var k := DeclaredIsListed(entries, kind, at, sigs, i, x);
      }
    }
  }

  /** What the list of a file's signatures says about its entries. */
  lemma FileListsIff(entries: seq<AbiEntry>, kind: ItemKind, sigs: seq<string>, elements: set<string>)
    requires kind != OtherItem && EntrySignatures(entries, kind) == Ok(sigs)
    ensures Lists(sigs, elements) <==> DeclaresExactly(entries, kind, elements)
  {
    EntrySignaturesIff(entries, kind, sigs);
    var at :| ListsEntries(entries, kind, |entries|, at) && DeclaredEach(entries, kind, at, sigs);
    ListsIff(sigs, elements);
    if Lists(sigs, elements) {
      ListedExactly(entries, kind, at, sigs, elements);
    }
    if DeclaresExactly(entries, kind, elements) {
      ExactlyListed(entries, kind, at, sigs, elements);
    }
  }

  // ------------------------------------------------------------------ fingerprints

  /** The text that is hashed for a file. */
  function FileText(entries: seq<AbiEntry>): Result<string, SigError> {
    var functions :- EntrySignatures(entries, FunctionItem);
    var events :- EntrySignatures(entries, EventItem);
    Ok(Preimage(Sort(functions), Sort(events)))
  }

  /** The fingerprint part of `parseAbiFileContents`. */
  function FileFingerprint(entries: seq<AbiEntry>, keccak: string -> string): Result<Option<string>, SigError> {
    var functions :- EntrySignatures(entries, FunctionItem);
    var events :- EntrySignatures(entries, EventItem);
    Ok(ComputeContractFingerprint(Sort(functions), Sort(events), keccak))
  }

  /** Every declared signature can be told from its neighbours in the text. */
  ghost predicate AllDeclaredWellFormed(entries: seq<AbiEntry>) {
    forall kind, i, x :: Declared(entries, kind, i, x) ==> IsWellFormed(x)
  }

  lemma DeclaredAreWellFormed(entries: seq<AbiEntry>, kind: ItemKind, sigs: seq<string>)
    requires kind != OtherItem && EntrySignatures(entries, kind) == Ok(sigs) && AllDeclaredWellFormed(entries)
    ensures AllWellFormed(sigs)
  {
    EntrySignaturesIff(entries, kind, sigs);
    var at :| ListsEntries(entries, kind, |entries|, at) && DeclaredEach(entries, kind, at, sigs);
    forall k | 0 <= k < |sigs| ensures IsWellFormed(sigs[k]) {
      assert Declared(entries, kind, at[k], sigs[k]);
    }
  }

  lemma SignedFiles(entries: seq<AbiEntry>, kind: ItemKind)
    ensures EntrySignatures(entries, kind).Ok? <==> AllSigned(entries, |entries|)
  {
    SignedIff(entries, |entries|);
    ComputableIff(Signing(), entries, kind, |entries|);
  }

  lemma SignedFingerprintsAgreeIff(code: seq<byte>, matcher: SignatureMatcher, entries: seq<AbiEntry>,
                                   codeFunctions: seq<string>, codeEvents: seq<string>,
                                   fileFunctions: seq<string>, fileEvents: seq<string>, keccak: string -> string)
    requires Sorted(codeFunctions) && multiset(codeFunctions) == multiset(Found(code, matcher, PUSH4))
    requires Sorted(codeEvents) && multiset(codeEvents) == multiset(Found(code, matcher, PUSH32))
    requires AllWellFormed(codeFunctions) && AllWellFormed(codeEvents) && AllDeclaredWellFormed(entries)
    requires EntrySignatures(entries, FunctionItem) == Ok(fileFunctions)
    requires EntrySignatures(entries, EventItem) == Ok(fileEvents)
    requires NoCollision(keccak, Preimage(codeFunctions, codeEvents), Preimage(Sort(fileFunctions), Sort(fileEvents)))
    ensures ComputeContractFingerprint(Sort(fileFunctions), Sort(fileEvents), keccak) ==
            ComputeContractFingerprint(codeFunctions, codeEvents, keccak) <==>
            && DeclaresExactly(entries, FunctionItem, Found(code, matcher, PUSH4))
            && DeclaresExactly(entries, EventItem, Found(code, matcher, PUSH32))
  {
    DeclaredAreWellFormed(entries, FunctionItem, fileFunctions);
    DeclaredAreWellFormed(entries, EventItem, fileEvents);
    SortSorts(fileFunctions);
    SortSorts(fileEvents);
    SameElements(Sort(fileFunctions), fileFunctions);
    SameElements(Sort(fileEvents), fileEvents);
    SameTextIffSameSignatures(Found(code, matcher, PUSH4), Found(code, matcher, PUSH32),
                              codeFunctions, codeEvents, fileFunctions, fileEvents);
    SameFingerprintIffSameText(codeFunctions, codeEvents, Sort(fileFunctions), Sort(fileEvents), keccak);
    FileListsIff(entries, FunctionItem, fileFunctions, Found(code, matcher, PUSH4));
    FileListsIff(entries, EventItem, fileEvents, Found(code, matcher, PUSH32));
  }

  /**
   * Unless the two hashed texts collide, a contract's code and an ABI file get the same fingerprint
   * if and only if all entries have signatures and the file declares exactly the functions and
   * events whose hashes the code pushes, each once.
   */
  lemma FingerprintsAgreeIff(code: seq<byte>, matcher: SignatureMatcher, entries: seq<AbiEntry>,
                             codeFunctions: seq<string>, codeEvents: seq<string>, keccak: string -> string)
    requires Sorted(codeFunctions) && multiset(codeFunctions) == multiset(Found(code, matcher, PUSH4))
    requires Sorted(codeEvents) && multiset(codeEvents) == multiset(Found(code, matcher, PUSH32))
    requires AllWellFormed(codeFunctions) && AllWellFormed(codeEvents) && AllDeclaredWellFormed(entries)
    requires FileText(entries).Ok? ==> NoCollision(keccak, Preimage(codeFunctions, codeEvents), FileText(entries).value)
    ensures FileFingerprint(entries, keccak) == Ok(ComputeContractFingerprint(codeFunctions, codeEvents, keccak)) <==>
            && AllSigned(entries, |entries|)
            && DeclaresExactly(entries, FunctionItem, Found(code, matcher, PUSH4))
            && DeclaresExactly(entries, EventItem, Found(code, matcher, PUSH32))
  {
    SignedFiles(entries, FunctionItem);
    SignedFiles(entries, EventItem);
    if AllSigned(entries, |entries|) {
      SignedFingerprintsAgreeIff(code, matcher, entries, codeFunctions, codeEvents,
                                 EntrySignatures(entries, FunctionItem).value, EntrySignatures(entries, EventItem).value, keccak);
    }
  }
}
