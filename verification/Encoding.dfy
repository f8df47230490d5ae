/**
 * A reference encoder for function arguments, after "Formal Specification of the Encoding" in the
 * Solidity Contract ABI Specification. Nothing in the repository encodes; this is the independent
 * meaning that `DataSize` is measured against.
 */
module Encoding {
  import opened DataTypes

  type byte = n: nat | n < 256

  /** `Word` is any value that fills one 32-byte word, already encoded. */
  datatype Value = Word(word: seq<byte>) | Blob(data: seq<byte>) | List(items: seq<Value>)

  /** The type is dynamic: its encoding is reached through an offset. */
  predicate IsDynamic(t: ParamType) {
    match t
    case Bytes => true
    case String => true
    case Array(_) => true
    case FixedArray(elem, _) => IsDynamic(elem)
    case Tuple(components) => exists i :: 0 <= i < |components| && IsDynamic(components[i])
    case _ => false
  }

  ghost predicate HasType(v: Value, t: ParamType)
    decreases t
  {
    match t
    case Bytes => v.Blob?
    case String => v.Blob?
    case Array(elem) => v.List? && forall i :: 0 <= i < |v.items| ==> HasType(v.items[i], elem)
    case FixedArray(elem, len) =>
      v.List? && |v.items| == len && forall i :: 0 <= i < len ==> HasType(v.items[i], elem)
    case Tuple(components) => v.List? && HaveTypes(v.items, components)
    case _ => v.Word? && |v.word| == 32
  }

  ghost predicate HaveTypes(vs: seq<Value>, ts: seq<ParamType>)
    decreases ts
  {
    |vs| == |ts| && forall i :: 0 <= i < |ts| ==> HasType(vs[i], ts[i])
  }

  /** The big-endian bytes of `n` in `width` bytes, higher bytes dropped. */
  function BigEndian(n: nat, width: nat): (r: seq<byte>)
    ensures |r| == width
  {
    if width == 0 then [] else BigEndian(n / 256, width - 1) + [n % 256]
  }

  function Uint256(n: nat): (r: seq<byte>)
    ensures |r| == 32
  {
    BigEndian(n, 32)
  }

  function PadRight(data: seq<byte>): (r: seq<byte>)
    ensures |r| % 32 == 0 && |data| <= |r| < |data| + 32 && data <= r
  {
    data + seq((32 - |data| % 32) % 32, _ => 0)
  }

  /** One encoded component and whether it is reached through an offset. */
  datatype Part = Part(dynamic: bool, bytes: seq<byte>)

  function HeadSize(p: Part): nat {
    if p.dynamic then 32 else |p.bytes|
  }

  function HeadsSize(parts: seq<Part>): nat {
    if parts == [] then 0 else HeadSize(parts[0]) + HeadsSize(parts[1..])
  }

  /** The heads; the tail of the first part starts at `offset`. */
  function Heads(parts: seq<Part>, offset: nat): (r: seq<byte>)
    ensures |r| == HeadsSize(parts)
  {
    if parts == [] then []
    else if parts[0].dynamic then Uint256(offset) + Heads(parts[1..], offset + |parts[0].bytes|)
    else parts[0].bytes + Heads(parts[1..], offset)
  }

  function Tails(parts: seq<Part>): seq<byte> {
    if parts == [] then []
    else (if parts[0].dynamic then parts[0].bytes else []) + Tails(parts[1..])
  }

  function HeadTail(parts: seq<Part>): seq<byte> {
    Heads(parts, HeadsSize(parts)) + Tails(parts)
  }

  /** `enc(v)` of the specification. */
  ghost function Encode(v: Value, t: ParamType): seq<byte>
    requires HasType(v, t)
    decreases t, 1
  {
    match t
    case Bytes => Uint256(|v.data|) + PadRight(v.data)
    case String => Uint256(|v.data|) + PadRight(v.data)
    case Array(elem) => Uint256(|v.items|) + HeadTail(EncodeItems(v.items, elem))
    case FixedArray(elem, _) => HeadTail(EncodeItems(v.items, elem))
    case Tuple(components) => HeadTail(EncodeComponents(v.items, components))
    case _ => v.word
  }

  ghost function EncodeItems(vs: seq<Value>, elem: ParamType): (r: seq<Part>)
    requires forall i :: 0 <= i < |vs| ==> HasType(vs[i], elem)
    ensures |r| == |vs|
    decreases elem, 2, |vs|
  {
    if vs == [] then []
    else [Part(IsDynamic(elem), Encode(vs[0], elem))] + EncodeItems(vs[1..], elem)
  }

  ghost function EncodeComponents(vs: seq<Value>, ts: seq<ParamType>): (r: seq<Part>)
    requires HaveTypes(vs, ts)
    ensures |r| == |ts|
    decreases ts, 0
  {
    if ts == [] then []
    else [Part(IsDynamic(ts[0]), Encode(vs[0], ts[0]))] + EncodeComponents(vs[1..], ts[1..])
  }

  /** The argument block of a call: the arguments encoded as one tuple. */
  ghost function EncodeArguments(vs: seq<Value>, ts: seq<ParamType>): seq<byte>
    requires HaveTypes(vs, ts)
  {
    HeadTail(EncodeComponents(vs, ts))
  }
}
