# Roster record codec

This project models the roster data format of the hockey-roster browser. A roster is a
JSON array of player records. Each record is a Rust struct of 43 renamed fields.
Several of its fields are closed enumerations (`Position`, `Catches`, `Status`, `Team`,
`Injury`). serde derives the serializer and deserializer of all of these. The model
states what those derived codecs accept, what they produce and how the two fit together.

The modules follow the layers of the format:

- `Wrappers`: the `Option` type used for every step that can fail.
- `Json`: the parsed JSON value and serde's rules for the field types. These are `i64`,
  `String`, unit enum variants, `Option<T>`, `serde_json::Value` and `Vec<T>`. The module
  also holds a reference description of the values each type accepts (`Kind`,
  `Canonical`), and the lemma that ties each codec to it (`IsCodecFor`).
- `Enums`: the five enumerations with their rename tables, and the `Display` names of
  `Position`.
- `Schema`: the 43 fields in declaration order, their JSON keys, the field visitor that
  maps a key to its field, and each field's type.
- `Slots`: the codec lemmas applied to each field type.
- `Players`: the record, its serialization, and deserialization in both forms serde
  accepts. The object form is read key by key. Unknown keys are skipped, a repeated
  field is refused, an absent `Option` field is `None` and an absent required field is
  refused. The positional form is an array of exactly 43 elements. The module also
  covers the roster as a whole.

Deserialization of a record from an object has two stages. `CollectSlots` walks the
entries and gathers one raw value per field, refusing a duplicate. `BuildPlayer` then
decodes each slot, and supplies `None` for an absent `Option` field or fails on an
absent required one. serde's derived visitor works differently: it decodes each value
as soon as it visits the entry, and only the handling of absent fields runs after the
walk. The two orders accept the same objects and produce the same records. They differ
only in which failure is reported first, and the model does not distinguish failures
(see "Left out"). The main specifications are:

- `BuildPlayerSpec` and `DecodeObjectSpec` state exactly when a record is accepted. That
  happens when every slot holds a value of its field's type, and each field of the
  result then serializes to the canonical form of that value.
- `PlayerRoundTrip` states that serializing a record to a parsed JSON value and reading
  that value back returns the record. JSON text in between is not modelled (see "Left
  out").

One value does not survive the round trip. A `serde_json::Value` holding `null` in the
`Option` field `InjuryStartDate` serializes as `null`, so it comes back as `None`.
`Normalize` and `WellFormed` describe this case.

The record's `Status` enumeration has the variants `Active` and `Minors`
(src/players.rs:200-207). The older, unused `PlayerStatus` enum in src/main.rs:55-61 has
`Active`, `Minor` and `Inactive` instead. The model follows the record's own enum.

## Model

| member | source | states |
|---|---|---|
| Json.Int64Codec | src/players.rs:22-23 | `i64` accepts exactly the numbers serde_json stores as integers that lie from −2^63 to 2^63−1, refuses floats and everything else, and reading back what it writes gives the same integer |
| Json.StringCodec | src/players.rs:25-26 | `String` accepts exactly JSON strings and round-trips |
| Json.AnyValueCodec | src/players.rs:97-98 | `serde_json::Value` accepts every JSON value and gives it back unchanged |
| Json.UnitVariantForms | src/players.rs:152-162 | a unit variant named `n` is read from exactly two spellings, `"n"` and `{"n": null}` |
| Json.CanonicalIsCanonical | src/players.rs:20-150 | an accepted value's canonical form is a fixed point, and only `null` has `null` as its canonical form |
| Json.RequiredSlotSpec | src/players.rs:22-23 | a required field decodes to `x` if and only if its key is present and its value's canonical form is the serialization of `x`; an absent key fails |
| Json.OptionalSlotSpec | src/players.rs:43-44 | an `Option` field decodes to `o` if and only if its slot's canonical form (absent or `null` counting as `null`) is the serialization of `o`, where `Some(x)` needs an `x` that does not serialize as `null` |
| Json.EncodedRequiredIsCanonical | src/players.rs:20-150 | the serialization of a value is accepted back in a required field unchanged |
| Json.EncodedOptionalIsCanonical | src/players.rs:43-44 | the serialization of an optional value is accepted back in an `Option` field unchanged |
| Json.DecodeElementsSpec | src/players.rs:18 | a `Vec<T>` decodes to `xs` if and only if `xs` has one value per array element and the i-th element decodes to the i-th value |
| Enums.HandCodeTable | src/players.rs:152-162 | `-`, `L` and `R` denote `Empty`, `Left` and `Right`, these three are the only names accepted, and distinct variants have distinct names |
| Enums.CatchesCodec | src/players.rs:152-162 | `Catches` accepts exactly the two spellings of its three names and round-trips every variant |
| Enums.PositionCodeTable | src/players.rs:164-180 | `C`, `D`, `G`, `LW` and `RW` denote the five positions, they are the only names accepted, and the table is injective |
| Enums.PositionCodec | src/players.rs:164-180 | `Position` accepts exactly the two spellings of its five names and round-trips every variant |
| Enums.PositionExamples | src/players.rs:164-180 | `"C"` reads as `Center` and `{"LW": null}` as `LeftWing`; `"Center"` and `"c"` are refused; `RightWing` writes `"RW"` |
| Enums.PositionDisplayNames | src/players.rs:182-192 | the display names are pairwise distinct, none equals a wire name, and none is accepted by the deserializer |
| Enums.InjuryCodeTable | src/players.rs:194-198 | `Scrambled` is the only injury name accepted |
| Enums.InjuryCodec | src/players.rs:194-198 | `Injury` accepts exactly `"Scrambled"` and `{"Scrambled": null}` and round-trips |
| Enums.StatusCodeTable | src/players.rs:200-207 | `Active` and `Minors` are the only status names accepted, each denoting its variant |
| Enums.StatusCodec | src/players.rs:200-207 | `Status` accepts exactly the two spellings of its two names and round-trips |
| Enums.TeamCodeTable | src/players.rs:209-213 | `DAL` is the only team name accepted |
| Enums.TeamCodec | src/players.rs:209-213 | `Team` accepts exactly the two spellings of `DAL` and round-trips |
| Schema.KeyRoundTrip | src/players.rs:20-150 | the field visitor maps every field's renamed key back to that field |
| Schema.FieldOfKeyExact | src/players.rs:20-150 | the field visitor maps a string to a field if and only if the string is that field's renamed key |
| Schema.KeysDistinct | src/players.rs:20-150 | no two fields share a key |
| Schema.IndexFieldAt | src/players.rs:20-150 | a field's position in declaration order leads back to that field |
| Schema.FieldAtIndex | src/players.rs:20-150 | each of the 43 positions holds the field whose position it is |
| Schema.InAllFields | src/players.rs:20-150 | every field is among the 43 declared ones |
| Players.DecodesToSpec | src/players.rs:20-150 | a slot decodes to a record's field exactly when its canonical form is that field's serialization and, for the injury start date, the record carries no `Some(null)` |
| Players.BuildPlayerSpec | src/players.rs:20-150 | the record is built exactly when it is well formed and every slot's canonical form is the serialization of the corresponding field |
| Players.SlotsOfNamed | src/players.rs:20-150 | an object's slot for a field is the value of the first entry whose key names that field |
| Players.FirstValueAbsent | src/players.rs:20-21 | an object has no value for a key exactly when none of its entries has that key |
| Players.NamedByKey | src/players.rs:20-150 | the entry that supplies a field is the first entry whose key is the field's renamed key |
| Players.CollectSlotsSpec | src/players.rs:20-21 | visiting the entries fails if and only if two entries name the same field, or one names a field already seen; otherwise it adds the object's slots to those seen |
| Players.DecodeObjectSlots | src/players.rs:20-21 | an object is read by collecting its slots, and it fails on a repeated field |
| Players.DecodeObjectSpec | src/players.rs:20-150 | an object decodes to `p` exactly when no field is named twice, `p` is well formed, and for every field the first entry with its renamed key, absent or present, has the serialization of `p`'s field as its canonical form |
| Players.DecodeArraySpec | src/players.rs:20-150 | an array decodes to `p` exactly when it has 43 elements, `p` is well formed, and the i-th element's canonical form is the serialization of the i-th field |
| Players.DecodedIsWellFormed | src/players.rs:97-98 | no decoded record holds `Some(null)` |
| Players.MissingRequiredFieldFails | src/players.rs:22-23 | an object in which no entry has a required field's renamed key is refused |
| Players.MissingPlayerIdFails | src/players.rs:22-23 | an object with no `"PlayerID"` entry is refused |
| Players.AbsentOrNullOptionalField | src/players.rs:43-44 | in a decoded record an `Option` field serializes as `null`, i.e. is `None`, exactly when no entry has its renamed key or the first such entry is `null` |
| Players.NullOptionalFieldsAreNone | src/players.rs:43-65 | jersey, birth state and shoots are `None` exactly when their `"Jersey"`, `"BirthState"` or `"Shoots"` entry is absent or `null` |
| Players.NullInjuryStartDateIsNone | src/players.rs:97-98 | the injury start date is `None` exactly when its `"InjuryStartDate"` entry is absent or `null` |
| Players.CatchesAndShootsShareCodec | src/players.rs:46-50 | `Catches` and `Shoots` are both read by the deserializer of `Catches` |
| Players.InjuryFieldsOnlyScrambled | src/players.rs:91-101 | a decoded object's injury status, body part and notes entries are `"Scrambled"` or `{"Scrambled": null}` |
| Players.DuplicateFieldFails | src/players.rs:20-21 | two entries naming the same field make the object fail |
| Players.UnknownKeySkipped | src/players.rs:20-21 | inserting an entry whose key names no field anywhere in an object does not change what visiting its entries yields |
| Players.UnknownKeyIgnored | src/players.rs:20-21 | inserting an entry whose key is no field's renamed key does not change the decoded record |
| Players.NormalizeSpec | src/players.rs:97-98 | normalizing makes a record well formed, leaves well-formed records unchanged and changes no field's serialization |
| Players.FieldValueIsCanonical | src/players.rs:20-150 | every field's serialization is its own canonical form |
| Players.EncodedNamed | src/players.rs:20-150 | in a serialized record each field is named by the entry holding the field's serialization |
| Players.EncodedUnique | src/players.rs:20-150 | a serialized record names no field twice |
| Players.PlayerRoundTrip | src/players.rs:20-150 | reading back a serialized record gives the record with `Some(null)` replaced by `None`, so a well-formed record comes back unchanged |
| Players.DecodePlayersSpec | src/players.rs:18 | a roster decodes from an array only, to as many records as it has elements, each from the element at the same position |
| Players.PlayersRoundTrip | src/players.rs:18 | reading back a serialized roster keeps its length and order, each record normalized |

## Left out

- src/main.rs is not part of this model. It fetches the roster over HTTP, reads the API key from the environment and prints, and has an older copy of the record that is not used with this one.
- JSON text is not modelled: tokenizing, number syntax, string escapes and whitespace. Documents arrive already parsed into `JsonValue`.
- Which number literals serde_json reads as integers is not modelled. `JsonValue` takes the parser's classification as given. A number that serde_json stores as a float is `Float`, even when its value is integral. Examples are `-0` and an integer literal outside the `i64` and `u64` ranges, and an `i64` field refuses them. The model does not derive that classification from the literal's text. For the same reason the round trips are stated on parsed values, not on text. Without serde_json's `float_roundtrip` feature, a float inside `InjuryStartDate` can come back from JSON text one unit in the last place off.
- serde_json's recursion limit is not modelled: the parser refuses documents nested more than 128 levels deep, while `JsonValue` has no depth bound.
- The kinds, messages and order of deserialization errors are not modelled: every failure is `None`.
- Json.AnyValueCodec, Json.DecodeAny: keep the JSON value exactly as given. serde_json's own `Value` type normalizes objects (it sorts keys and keeps the last of two equal keys), so the model of `InjuryStartDate` is finer than the code.
- The positional (array) form of a record is only decoded. serde_json writes structs as objects, so no positional serialization exists to round-trip.
- The `Display` impl is modelled as the string it writes (`PositionDisplay`). The `fmt::Formatter` machinery is left out.
- The comment block at src/players.rs:1-12 is dead example code and is not modelled.
- The terminal list/detail browser is not part of this model; its sources are not among these files.
