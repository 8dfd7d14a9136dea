/** The JSON document model and the serde rules for the value types a player record is
    built from: 64-bit integers, strings, unit enum variants, `Option` and arbitrary
    JSON values. Text-level parsing is not modelled: a document arrives here already
    parsed into a `JsonValue`. */
module Json {
  import opened Wrappers

  /** A parsed JSON document. Numbers keep the kind the parser gives them: `Int` is a
      number serde_json stores as an integer, `Float` one it stores as a float (a literal
      with a fraction or an exponent, but also `-0` and an integer literal outside the
      `i64` and `u64` ranges). Object entries keep their textual order and may repeat a
      key, as JSON text can. */
  datatype JsonValue =
    | Null
    | Bool(b: bool)
    | Int(i: int)
    | Float(r: real)
    | Str(s: string)
    | Array(items: seq<JsonValue>)
    | Object(entries: seq<(string, JsonValue)>)

  const MinInt64: int := -0x8000_0000_0000_0000
  const MaxInt64: int := 0x7fff_ffff_ffff_ffff

  /** Rust's `i64`. */
  type Int64 = x: int | MinInt64 <= x <= MaxInt64

  // ---------------------------------------------------------------------------
  // Serialization and deserialization of the value types
  // ---------------------------------------------------------------------------

  function EncodeInt64(x: Int64): JsonValue {
    Int(x)
  }

  /** An `i64` is read from a number serde_json stores as an integer, within the `i64`
      range; a number it stores as a float is refused even when its value is integral. */
  function DecodeInt64(v: JsonValue): Option<Int64> {
    match v
    case Int(i) => if MinInt64 <= i <= MaxInt64 then Some(i) else None
    case _ => None
  }

  function EncodeString(s: string): JsonValue {
    Str(s)
  }

  function DecodeString(v: JsonValue): Option<string> {
    match v
    case Str(s) => Some(s)
    case _ => None
  }

  /** `serde_json::Value` holds whatever JSON it is given. */
  function EncodeAny(v: JsonValue): JsonValue {
    v
  }

  function DecodeAny(v: JsonValue): Option<JsonValue> {
    Some(v)
  }

  /** `Option<T>` serializes `None` as `null` and `Some(x)` as `x` itself. */
  function EncodeOptional<T>(o: Option<T>, encode: T -> JsonValue): JsonValue {
    match o
    case None => Null
    case Some(x) => encode(x)
  }

  /** The name a value gives when read as a unit variant of an externally tagged enum:
      serde_json accepts the bare string `"V"` and the one-entry object `{"V": null}`. */
  function UnitVariantName(v: JsonValue): Option<string> {
    match v
    case Str(s) => Some(s)
    case Object(entries) =>
      if |entries| == 1 && entries[0].1 == Null then Some(entries[0].0) else None
    case _ => None
  }

  /** A field that is not an `Option`: an absent key is a missing-field error. */
  function RequiredSlot<T>(raw: Option<JsonValue>, decode: JsonValue -> Option<T>): Option<T> {
    match raw
    case None => None
    case Some(v) => decode(v)
  }

  /** A field of type `Option<T>`: an absent key and `null` both give `None`; any other
      value must decode as a `T`. */
  function OptionalSlot<T>(raw: Option<JsonValue>, decode: JsonValue -> Option<T>): Option<Option<T>> {
    match raw
    case None => Some(None)
    case Some(v) =>
      if v == Null then Some(None)
      else match decode(v)
        case None => None
        case Some(x) => Some(Some(x))
  }

  // ---------------------------------------------------------------------------
  // Reference semantics: which values each Rust type accepts, in canonical form
  // ---------------------------------------------------------------------------

  /** The Rust type of a field, as far as the JSON it accepts is concerned. A unit-only
      enum is described by the set of its wire names. */
  datatype Kind = Integer | Text | Variant(names: set<string>) | AnyValue

  /** If `v` is accepted as a value of kind `k`, the JSON that the decoded value
      serializes back to. */
  function Canonical(k: Kind, v: JsonValue): Option<JsonValue> {
    match k
    case Integer => if v.Int? && MinInt64 <= v.i <= MaxInt64 then Some(v) else None
    case Text => if v.Str? then Some(v) else None
    case Variant(names) =>
      (match UnitVariantName(v)
       case Some(n) => if n in names then Some(Str(n)) else None
       case None => None)
    case AnyValue => Some(v)
  }

  /** The canonical JSON of a field slot: an absent or null optional field stands for
      `None`, which serializes as `null`; an absent required field is refused. */
  function CanonicalSlot(k: Kind, required: bool, raw: Option<JsonValue>): Option<JsonValue> {
    match raw
    case None => if required then None else Some(Null)
    case Some(v) => if !required && v == Null then Some(Null) else Canonical(k, v)
  }

  /** `decode` and `encode` are the deserializer and serializer of a Rust type whose
      accepted values are described by `k`. */
  ghost predicate IsCodecFor<T(!new)>(k: Kind, decode: JsonValue -> Option<T>, encode: T -> JsonValue) {
    && (forall v :: decode(v).Some? <==> Canonical(k, v).Some?)
    && (forall v :: decode(v).Some? ==> Canonical(k, v) == Some(encode(decode(v).value)))
    && (forall x :: decode(encode(x)) == Some(x))
  }

  // ---------------------------------------------------------------------------
  // Lemmas
  // ---------------------------------------------------------------------------

  lemma Int64Codec()
    ensures IsCodecFor(Integer, DecodeInt64, EncodeInt64)
  {
  }

  lemma StringCodec()
    ensures IsCodecFor(Text, DecodeString, EncodeString)
  {
  }

  lemma AnyValueCodec()
    ensures IsCodecFor(AnyValue, DecodeAny, EncodeAny)
  {
  }

  /** The two spellings of a unit variant, and nothing else. */
  lemma UnitVariantForms(v: JsonValue, n: string)
    ensures UnitVariantName(v) == Some(n) <==> (v == Str(n) || v == Object([(n, Null)]))
  {
    if v.Object? && UnitVariantName(v) == Some(n) {
      assert v.entries == [(n, Null)];
    }
  }

  /** Canonical forms are fixed points, and only `null` has `null` as its canonical form. */
  lemma CanonicalIsCanonical(k: Kind, v: JsonValue, c: JsonValue)
    requires Canonical(k, v) == Some(c)
    ensures Canonical(k, c) == Some(c)
    ensures c == Null ==> v == Null
  {
  }

  /** A codec for `k` read through a required slot accepts exactly the canonical slots. */
  lemma RequiredSlotSpec<T(!new)>(k: Kind, decode: JsonValue -> Option<T>, encode: T -> JsonValue,
                                  raw: Option<JsonValue>, x: T)
    requires IsCodecFor(k, decode, encode)
    ensures RequiredSlot(raw, decode) == Some(x) <==> CanonicalSlot(k, true, raw) == Some(encode(x))
  {
    if raw.Some? {
      var v := raw.value;
      if Canonical(k, v) == Some(encode(x)) {
        assert decode(v).Some?;
        assert decode(encode(decode(v).value)) == Some(decode(v).value);
        assert decode(encode(x)) == Some(x);
      }
    }
  }

  /** A codec for `k` read through an optional slot: the slot decodes to `o` exactly when
      its canonical form is the serialization of `o`, provided `o` is not `Some(x)` with
      an `x` that serializes as `null` (such an `x` comes back as `None`). */
  lemma OptionalSlotSpec<T(!new)>(k: Kind, decode: JsonValue -> Option<T>, encode: T -> JsonValue,
                                  raw: Option<JsonValue>, o: Option<T>)
    requires IsCodecFor(k, decode, encode)
    ensures OptionalSlot(raw, decode) == Some(o) <==>
              (CanonicalSlot(k, false, raw) == Some(EncodeOptional(o, encode))
               && (o.Some? ==> encode(o.value) != Null))
  {
    if raw.Some? && raw.value != Null {
      var v := raw.value;
      if decode(v).Some? {
        CanonicalIsCanonical(k, v, encode(decode(v).value));
      }
      if o.Some? && Canonical(k, v) == Some(encode(o.value)) {
        assert decode(encode(decode(v).value)) == Some(decode(v).value);
        assert decode(encode(o.value)) == Some(o.value);
      }
      if o.None? && Canonical(k, v) == Some(Null) {
        CanonicalIsCanonical(k, v, Null);
      }
    }
  }

  /** The serialization of a value is its own canonical form, in a required slot. */
  lemma EncodedRequiredIsCanonical<T(!new)>(k: Kind, decode: JsonValue -> Option<T>, encode: T -> JsonValue, x: T)
    requires IsCodecFor(k, decode, encode)
    ensures CanonicalSlot(k, true, Some(encode(x))) == Some(encode(x))
  {
    assert decode(encode(x)) == Some(x);
  }

  /** The serialization of an optional value is its own canonical form, in an optional slot. */
  lemma EncodedOptionalIsCanonical<T(!new)>(k: Kind, decode: JsonValue -> Option<T>, encode: T -> JsonValue, o: Option<T>)
    requires IsCodecFor(k, decode, encode)
    ensures CanonicalSlot(k, false, Some(EncodeOptional(o, encode))) == Some(EncodeOptional(o, encode))
  {
    if o.Some? {
      assert decode(encode(o.value)) == Some(o.value);
    }
  }

  // ---------------------------------------------------------------------------
  // Arrays
  // ---------------------------------------------------------------------------

  /** A JSON array read as a `Vec<T>`: its elements decoded in order; the first element
      that fails makes the whole array fail. */
  function DecodeElements<T>(items: seq<JsonValue>, decode: JsonValue -> Option<T>): Option<seq<T>>
    decreases |items|
  {
    if items == [] then Some([])
    else
      var x :- decode(items[0]);
      var rest :- DecodeElements(items[1..], decode);
      Some([x] + rest)
  }

  /** An array decodes to as many values as it has elements, each the decoding of the
      element at the same position. */
  lemma {:induction false} DecodeElementsSpec<T>(items: seq<JsonValue>, decode: JsonValue -> Option<T>, xs: seq<T>)
    ensures DecodeElements(items, decode) == Some(xs) <==>
              |xs| == |items| && forall i :: 0 <= i < |items| ==> decode(items[i]) == Some(xs[i])
    decreases |items|
  {
    if items == [] {
      if |xs| == 0 {
        assert xs == [];
      }
    } else {
      var rest := items[1..];
      if DecodeElements(items, decode) == Some(xs) {
        DecodeElementsSpec(rest, decode, xs[1..]);
        forall i | 0 <= i < |items| ensures decode(items[i]) == Some(xs[i]) {
          if i > 0 {
            assert items[i] == rest[i - 1];
          }
        }
      }
      if |xs| == |items| && forall i :: 0 <= i < |items| ==> decode(items[i]) == Some(xs[i]) {
        DecodeElementsSpec(rest, decode, xs[1..]);
        forall i | 0 <= i < |rest| ensures decode(rest[i]) == Some(xs[1..][i]) {
          assert rest[i] == items[i + 1];
        }
        assert xs == [xs[0]] + xs[1..];
      }
    }
  }
}
