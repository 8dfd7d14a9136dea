/** How each field type of the record reads a slot of an object: the codec lemmas of
    `Json` and `Enums` instantiated once per field type. They live in a module of their
    own so that the quantifiers of `IsCodecFor` never enter the proofs in `Players`,
    which see only these quantifier-free instances. */
module Slots {
  import opened Wrappers
  import opened Json
  import Enums

  /** A required `Int64` field. */
  lemma Int64Required(raw: Option<JsonValue>, x: Int64)
    ensures RequiredSlot(raw, DecodeInt64) == Some(x) <==> CanonicalSlot(Integer, true, raw) == Some(EncodeInt64(x))
  {
    Int64Codec();
    RequiredSlotSpec(Integer, DecodeInt64, EncodeInt64, raw, x);
  }

  lemma Int64RequiredEncoded(x: Int64)
    ensures CanonicalSlot(Integer, true, Some(EncodeInt64(x))) == Some(EncodeInt64(x))
  {
    Int64Codec();
    EncodedRequiredIsCanonical(Integer, DecodeInt64, EncodeInt64, x);
  }

  /** A required `string` field. */
  lemma StringRequired(raw: Option<JsonValue>, x: string)
    ensures RequiredSlot(raw, DecodeString) == Some(x) <==> CanonicalSlot(Text, true, raw) == Some(EncodeString(x))
  {
    StringCodec();
    RequiredSlotSpec(Text, DecodeString, EncodeString, raw, x);
  }

  lemma StringRequiredEncoded(x: string)
    ensures CanonicalSlot(Text, true, Some(EncodeString(x))) == Some(EncodeString(x))
  {
    StringCodec();
    EncodedRequiredIsCanonical(Text, DecodeString, EncodeString, x);
  }

  /** A required `Enums.Status` field. */
  lemma StatusRequired(raw: Option<JsonValue>, x: Enums.Status)
    ensures RequiredSlot(raw, Enums.DecodeStatus) == Some(x) <==> CanonicalSlot(Variant(Enums.StatusCodes), true, raw) == Some(Enums.EncodeStatus(x))
  {
    Enums.StatusCodec();
    RequiredSlotSpec(Variant(Enums.StatusCodes), Enums.DecodeStatus, Enums.EncodeStatus, raw, x);
  }

  lemma StatusRequiredEncoded(x: Enums.Status)
    ensures CanonicalSlot(Variant(Enums.StatusCodes), true, Some(Enums.EncodeStatus(x))) == Some(Enums.EncodeStatus(x))
  {
    Enums.StatusCodec();
    EncodedRequiredIsCanonical(Variant(Enums.StatusCodes), Enums.DecodeStatus, Enums.EncodeStatus, x);
  }

  /** A required `Enums.Team` field. */
  lemma TeamRequired(raw: Option<JsonValue>, x: Enums.Team)
    ensures RequiredSlot(raw, Enums.DecodeTeam) == Some(x) <==> CanonicalSlot(Variant(Enums.TeamCodes), true, raw) == Some(Enums.EncodeTeam(x))
  {
    Enums.TeamCodec();
    RequiredSlotSpec(Variant(Enums.TeamCodes), Enums.DecodeTeam, Enums.EncodeTeam, raw, x);
  }

  lemma TeamRequiredEncoded(x: Enums.Team)
    ensures CanonicalSlot(Variant(Enums.TeamCodes), true, Some(Enums.EncodeTeam(x))) == Some(Enums.EncodeTeam(x))
  {
    Enums.TeamCodec();
    EncodedRequiredIsCanonical(Variant(Enums.TeamCodes), Enums.DecodeTeam, Enums.EncodeTeam, x);
  }

  /** A required `Enums.Position` field. */
  lemma PositionRequired(raw: Option<JsonValue>, x: Enums.Position)
    ensures RequiredSlot(raw, Enums.DecodePosition) == Some(x) <==> CanonicalSlot(Variant(Enums.PositionCodes), true, raw) == Some(Enums.EncodePosition(x))
  {
    Enums.PositionCodec();
    RequiredSlotSpec(Variant(Enums.PositionCodes), Enums.DecodePosition, Enums.EncodePosition, raw, x);
  }

  lemma PositionRequiredEncoded(x: Enums.Position)
    ensures CanonicalSlot(Variant(Enums.PositionCodes), true, Some(Enums.EncodePosition(x))) == Some(Enums.EncodePosition(x))
  {
    Enums.PositionCodec();
    EncodedRequiredIsCanonical(Variant(Enums.PositionCodes), Enums.DecodePosition, Enums.EncodePosition, x);
  }

  /** An `Option<Int64>` field. */
  lemma Int64Optional(raw: Option<JsonValue>, o: Option<Int64>)
    ensures OptionalSlot(raw, DecodeInt64) == Some(o) <==>
              (CanonicalSlot(Integer, false, raw) == Some(EncodeOptional(o, EncodeInt64))
               && (o.Some? ==> EncodeInt64(o.value) != Null))
  {
    Int64Codec();
    OptionalSlotSpec(Integer, DecodeInt64, EncodeInt64, raw, o);
  }

  lemma Int64OptionalEncoded(o: Option<Int64>)
    ensures CanonicalSlot(Integer, false, Some(EncodeOptional(o, EncodeInt64))) == Some(EncodeOptional(o, EncodeInt64))
  {
    Int64Codec();
    EncodedOptionalIsCanonical(Integer, DecodeInt64, EncodeInt64, o);
  }

  /** An `Option<Enums.Catches>` field. */
  lemma CatchesOptional(raw: Option<JsonValue>, o: Option<Enums.Catches>)
    ensures OptionalSlot(raw, Enums.DecodeCatches) == Some(o) <==>
              (CanonicalSlot(Variant(Enums.HandCodes), false, raw) == Some(EncodeOptional(o, Enums.EncodeCatches))
               && (o.Some? ==> Enums.EncodeCatches(o.value) != Null))
  {
    Enums.CatchesCodec();
    OptionalSlotSpec(Variant(Enums.HandCodes), Enums.DecodeCatches, Enums.EncodeCatches, raw, o);
  }

  lemma CatchesOptionalEncoded(o: Option<Enums.Catches>)
    ensures CanonicalSlot(Variant(Enums.HandCodes), false, Some(EncodeOptional(o, Enums.EncodeCatches))) == Some(EncodeOptional(o, Enums.EncodeCatches))
  {
    Enums.CatchesCodec();
    EncodedOptionalIsCanonical(Variant(Enums.HandCodes), Enums.DecodeCatches, Enums.EncodeCatches, o);
  }

  /** An `Option<string>` field. */
  lemma StringOptional(raw: Option<JsonValue>, o: Option<string>)
    ensures OptionalSlot(raw, DecodeString) == Some(o) <==>
              (CanonicalSlot(Text, false, raw) == Some(EncodeOptional(o, EncodeString))
               && (o.Some? ==> EncodeString(o.value) != Null))
  {
    StringCodec();
    OptionalSlotSpec(Text, DecodeString, EncodeString, raw, o);
  }

  lemma StringOptionalEncoded(o: Option<string>)
    ensures CanonicalSlot(Text, false, Some(EncodeOptional(o, EncodeString))) == Some(EncodeOptional(o, EncodeString))
  {
    StringCodec();
    EncodedOptionalIsCanonical(Text, DecodeString, EncodeString, o);
  }

  /** A required `Enums.Injury` field. */
  lemma InjuryRequired(raw: Option<JsonValue>, x: Enums.Injury)
    ensures RequiredSlot(raw, Enums.DecodeInjury) == Some(x) <==> CanonicalSlot(Variant(Enums.InjuryCodes), true, raw) == Some(Enums.EncodeInjury(x))
  {
    Enums.InjuryCodec();
    RequiredSlotSpec(Variant(Enums.InjuryCodes), Enums.DecodeInjury, Enums.EncodeInjury, raw, x);
  }

  lemma InjuryRequiredEncoded(x: Enums.Injury)
    ensures CanonicalSlot(Variant(Enums.InjuryCodes), true, Some(Enums.EncodeInjury(x))) == Some(Enums.EncodeInjury(x))
  {
    Enums.InjuryCodec();
    EncodedRequiredIsCanonical(Variant(Enums.InjuryCodes), Enums.DecodeInjury, Enums.EncodeInjury, x);
  }

  /** An `Option<JsonValue>` field. */
  lemma AnyValueOptional(raw: Option<JsonValue>, o: Option<JsonValue>)
    ensures OptionalSlot(raw, DecodeAny) == Some(o) <==>
              (CanonicalSlot(AnyValue, false, raw) == Some(EncodeOptional(o, EncodeAny))
               && (o.Some? ==> EncodeAny(o.value) != Null))
  {
    AnyValueCodec();
    OptionalSlotSpec(AnyValue, DecodeAny, EncodeAny, raw, o);
  }

  lemma AnyValueOptionalEncoded(o: Option<JsonValue>)
    ensures CanonicalSlot(AnyValue, false, Some(EncodeOptional(o, EncodeAny))) == Some(EncodeOptional(o, EncodeAny))
  {
    AnyValueCodec();
    EncodedOptionalIsCanonical(AnyValue, DecodeAny, EncodeAny, o);
  }

  /** An `Option<Enums.Position>` field. */
  lemma PositionOptional(raw: Option<JsonValue>, o: Option<Enums.Position>)
    ensures OptionalSlot(raw, Enums.DecodePosition) == Some(o) <==>
              (CanonicalSlot(Variant(Enums.PositionCodes), false, raw) == Some(EncodeOptional(o, Enums.EncodePosition))
               && (o.Some? ==> Enums.EncodePosition(o.value) != Null))
  {
    Enums.PositionCodec();
    OptionalSlotSpec(Variant(Enums.PositionCodes), Enums.DecodePosition, Enums.EncodePosition, raw, o);
  }

  lemma PositionOptionalEncoded(o: Option<Enums.Position>)
    ensures CanonicalSlot(Variant(Enums.PositionCodes), false, Some(EncodeOptional(o, Enums.EncodePosition))) == Some(EncodeOptional(o, Enums.EncodePosition))
  {
    Enums.PositionCodec();
    EncodedOptionalIsCanonical(Variant(Enums.PositionCodes), Enums.DecodePosition, Enums.EncodePosition, o);
  }

}
