/** The closed enumerations of the roster record and their wire names. Every enum is
    unit-only and externally tagged, and every variant is renamed explicitly, so each codec
    is a fixed table between variants and strings. */
module Enums {
  import opened Wrappers
  import opened Json

  // ---------------------------------------------------------------------------
  // Catches
  // ---------------------------------------------------------------------------

  /** Handedness. One table serves both the `Catches` and the `Shoots` field. */
  datatype Catches = Empty | Left | Right

  /** The wire names of `Catches`. */
  const HandCodes: set<string> := {"-", "L", "R"}

  function HandCode(x: Catches): string {
    match x
    case Empty => "-"
    case Left => "L"
    case Right => "R"
  }

  /** The variant a wire name denotes; any other name is an unknown variant. */
  function HandFromCode(s: string): Option<Catches> {
    match s
    case "-" => Some(Empty)
    case "L" => Some(Left)
    case "R" => Some(Right)
    case _ => None
  }

  function EncodeCatches(x: Catches): JsonValue {
    Str(HandCode(x))
  }

  function DecodeCatches(v: JsonValue): Option<Catches> {
    match UnitVariantName(v)
    case None => None
    case Some(n) => HandFromCode(n)
  }

  /** The table is a bijection between the variants and exactly the names in `HandCodes`. */
  lemma HandCodeTable(s: string, x: Catches, y: Catches)
    ensures HandFromCode(s) == Some(x) <==> HandCode(x) == s
    ensures HandFromCode(s).Some? <==> s in HandCodes
    ensures HandCode(x) == HandCode(y) ==> x == y
  {
  }

  /** Decoding accepts exactly the unit-variant spellings of the names in `HandCodes`,
      and encoding writes the name as a string. */
  lemma CatchesCodec()
    ensures IsCodecFor(Variant(HandCodes), DecodeCatches, EncodeCatches)
  {
    forall v ensures DecodeCatches(v).Some? <==> Canonical(Variant(HandCodes), v).Some? {
      if UnitVariantName(v).Some? {
        HandCodeTable(UnitVariantName(v).value, Empty, Empty);
      }
    }
    forall v | DecodeCatches(v).Some?
      ensures Canonical(Variant(HandCodes), v) == Some(EncodeCatches(DecodeCatches(v).value))
    {
      HandCodeTable(UnitVariantName(v).value, DecodeCatches(v).value, Empty);
    }
    forall x ensures DecodeCatches(EncodeCatches(x)) == Some(x) {
      HandCodeTable(HandCode(x), x, x);
    }
  }

  // ---------------------------------------------------------------------------
  // Position
  // ---------------------------------------------------------------------------

  /** Playing position. */
  datatype Position = Center | Defense | Goalie | LeftWing | RightWing

  /** The wire names of `Position`. */
  const PositionCodes: set<string> := {"C", "D", "G", "LW", "RW"}

  function PositionCode(x: Position): string {
    match x
    case Center => "C"
    case Defense => "D"
    case Goalie => "G"
    case LeftWing => "LW"
    case RightWing => "RW"
  }

  /** The variant a wire name denotes; any other name is an unknown variant. */
  function PositionFromCode(s: string): Option<Position> {
    match s
    case "C" => Some(Center)
    case "D" => Some(Defense)
    case "G" => Some(Goalie)
    case "LW" => Some(LeftWing)
    case "RW" => Some(RightWing)
    case _ => None
  }

  function EncodePosition(x: Position): JsonValue {
    Str(PositionCode(x))
  }

  function DecodePosition(v: JsonValue): Option<Position> {
    match UnitVariantName(v)
    case None => None
    case Some(n) => PositionFromCode(n)
  }

  /** The table is a bijection between the variants and exactly the names in `PositionCodes`. */
  lemma PositionCodeTable(s: string, x: Position, y: Position)
    ensures PositionFromCode(s) == Some(x) <==> PositionCode(x) == s
    ensures PositionFromCode(s).Some? <==> s in PositionCodes
    ensures PositionCode(x) == PositionCode(y) ==> x == y
  {
  }

  /** Decoding accepts exactly the unit-variant spellings of the names in `PositionCodes`,
      and encoding writes the name as a string. */
  lemma PositionCodec()
    ensures IsCodecFor(Variant(PositionCodes), DecodePosition, EncodePosition)
  {
    forall v ensures DecodePosition(v).Some? <==> Canonical(Variant(PositionCodes), v).Some? {
      if UnitVariantName(v).Some? {
        PositionCodeTable(UnitVariantName(v).value, Center, Center);
      }
    }
    forall v | DecodePosition(v).Some?
      ensures Canonical(Variant(PositionCodes), v) == Some(EncodePosition(DecodePosition(v).value))
    {
      PositionCodeTable(UnitVariantName(v).value, DecodePosition(v).value, Center);
    }
    forall x ensures DecodePosition(EncodePosition(x)) == Some(x) {
      PositionCodeTable(PositionCode(x), x, x);
    }
  }

  /** The short codes are the wire names; the display names are not accepted. */
  lemma PositionExamples()
    ensures DecodePosition(Str("C")) == Some(Center)
    ensures DecodePosition(Object([("LW", Null)])) == Some(LeftWing)
    ensures DecodePosition(Str("Center")) == None
    ensures DecodePosition(Str("c")) == None
    ensures EncodePosition(RightWing) == Str("RW")
  {
  }

  // ---------------------------------------------------------------------------
  // Injury
  // ---------------------------------------------------------------------------

  /** Injury fields: the single variant the record declares. */
  datatype Injury = Scrambled

  /** The wire names of `Injury`. */
  const InjuryCodes: set<string> := {"Scrambled"}

  function InjuryCode(x: Injury): string {
    match x
    case Scrambled => "Scrambled"
  }

  /** The variant a wire name denotes; any other name is an unknown variant. */
  function InjuryFromCode(s: string): Option<Injury> {
    match s
    case "Scrambled" => Some(Scrambled)
    case _ => None
  }

  function EncodeInjury(x: Injury): JsonValue {
    Str(InjuryCode(x))
  }

  function DecodeInjury(v: JsonValue): Option<Injury> {
    match UnitVariantName(v)
    case None => None
    case Some(n) => InjuryFromCode(n)
  }

  /** The table is a bijection between the variants and exactly the names in `InjuryCodes`. */
  lemma InjuryCodeTable(s: string, x: Injury, y: Injury)
    ensures InjuryFromCode(s) == Some(x) <==> InjuryCode(x) == s
    ensures InjuryFromCode(s).Some? <==> s in InjuryCodes
    ensures InjuryCode(x) == InjuryCode(y) ==> x == y
  {
  }

  /** Decoding accepts exactly the unit-variant spellings of the names in `InjuryCodes`,
      and encoding writes the name as a string. */
  lemma InjuryCodec()
    ensures IsCodecFor(Variant(InjuryCodes), DecodeInjury, EncodeInjury)
  {
    forall v ensures DecodeInjury(v).Some? <==> Canonical(Variant(InjuryCodes), v).Some? {
      if UnitVariantName(v).Some? {
        InjuryCodeTable(UnitVariantName(v).value, Scrambled, Scrambled);
      }
    }
    forall v | DecodeInjury(v).Some?
      ensures Canonical(Variant(InjuryCodes), v) == Some(EncodeInjury(DecodeInjury(v).value))
    {
      InjuryCodeTable(UnitVariantName(v).value, DecodeInjury(v).value, Scrambled);
    }
    forall x ensures DecodeInjury(EncodeInjury(x)) == Some(x) {
      InjuryCodeTable(InjuryCode(x), x, x);
    }
  }

  // ---------------------------------------------------------------------------
  // Status
  // ---------------------------------------------------------------------------

  /** Roster status. */
  datatype Status = Active | Minors

  /** The wire names of `Status`. */
  const StatusCodes: set<string> := {"Active", "Minors"}

  function StatusCode(x: Status): string {
    match x
    case Active => "Active"
    case Minors => "Minors"
  }

  /** The variant a wire name denotes; any other name is an unknown variant. */
  function StatusFromCode(s: string): Option<Status> {
    match s
    case "Active" => Some(Active)
    case "Minors" => Some(Minors)
    case _ => None
  }

  function EncodeStatus(x: Status): JsonValue {
    Str(StatusCode(x))
  }

  function DecodeStatus(v: JsonValue): Option<Status> {
    match UnitVariantName(v)
    case None => None
    case Some(n) => StatusFromCode(n)
  }

  /** The table is a bijection between the variants and exactly the names in `StatusCodes`. */
  lemma StatusCodeTable(s: string, x: Status, y: Status)
    ensures StatusFromCode(s) == Some(x) <==> StatusCode(x) == s
    ensures StatusFromCode(s).Some? <==> s in StatusCodes
    ensures StatusCode(x) == StatusCode(y) ==> x == y
  {
  }

  /** Decoding accepts exactly the unit-variant spellings of the names in `StatusCodes`,
      and encoding writes the name as a string. */
  lemma StatusCodec()
    ensures IsCodecFor(Variant(StatusCodes), DecodeStatus, EncodeStatus)
  {
    forall v ensures DecodeStatus(v).Some? <==> Canonical(Variant(StatusCodes), v).Some? {
      if UnitVariantName(v).Some? {
        StatusCodeTable(UnitVariantName(v).value, Active, Active);
      }
    }
    forall v | DecodeStatus(v).Some?
      ensures Canonical(Variant(StatusCodes), v) == Some(EncodeStatus(DecodeStatus(v).value))
    {
      StatusCodeTable(UnitVariantName(v).value, DecodeStatus(v).value, Active);
    }
    forall x ensures DecodeStatus(EncodeStatus(x)) == Some(x) {
      StatusCodeTable(StatusCode(x), x, x);
    }
  }

  // ---------------------------------------------------------------------------
  // Team
  // ---------------------------------------------------------------------------

  /** Team; the only team the program queries. */
  datatype Team = Dal

  /** The wire names of `Team`. */
  const TeamCodes: set<string> := {"DAL"}

  function TeamCode(x: Team): string {
    match x
    case Dal => "DAL"
  }

  /** The variant a wire name denotes; any other name is an unknown variant. */
  function TeamFromCode(s: string): Option<Team> {
    match s
    case "DAL" => Some(Dal)
    case _ => None
  }

  function EncodeTeam(x: Team): JsonValue {
    Str(TeamCode(x))
  }

  function DecodeTeam(v: JsonValue): Option<Team> {
    match UnitVariantName(v)
    case None => None
    case Some(n) => TeamFromCode(n)
  }

  /** The table is a bijection between the variants and exactly the names in `TeamCodes`. */
  lemma TeamCodeTable(s: string, x: Team, y: Team)
    ensures TeamFromCode(s) == Some(x) <==> TeamCode(x) == s
    ensures TeamFromCode(s).Some? <==> s in TeamCodes
    ensures TeamCode(x) == TeamCode(y) ==> x == y
  {
  }

  /** Decoding accepts exactly the unit-variant spellings of the names in `TeamCodes`,
      and encoding writes the name as a string. */
  lemma TeamCodec()
    ensures IsCodecFor(Variant(TeamCodes), DecodeTeam, EncodeTeam)
  {
    forall v ensures DecodeTeam(v).Some? <==> Canonical(Variant(TeamCodes), v).Some? {
      if UnitVariantName(v).Some? {
        TeamCodeTable(UnitVariantName(v).value, Dal, Dal);
      }
    }
    forall v | DecodeTeam(v).Some?
      ensures Canonical(Variant(TeamCodes), v) == Some(EncodeTeam(DecodeTeam(v).value))
    {
      TeamCodeTable(UnitVariantName(v).value, DecodeTeam(v).value, Dal);
    }
    forall x ensures DecodeTeam(EncodeTeam(x)) == Some(x) {
      TeamCodeTable(TeamCode(x), x, x);
    }
  }

  // ---------------------------------------------------------------------------
  // The human-readable form of a position
  // ---------------------------------------------------------------------------

  /** What `Display` writes for a position: the full variant name. */
  function PositionDisplay(p: Position): string {
    match p
    case Center => "Center"
    case Defense => "Defense"
    case Goalie => "Goalie"
    case LeftWing => "LeftWing"
    case RightWing => "RightWing"
  }

  /** The display names tell the positions apart, none is a wire code, so none decodes. */
  lemma PositionDisplayNames(p: Position, q: Position)
    ensures PositionDisplay(p) == PositionDisplay(q) ==> p == q
    ensures PositionDisplay(p) != PositionCode(q)
    ensures PositionFromCode(PositionDisplay(p)) == None
  {
  }
}
