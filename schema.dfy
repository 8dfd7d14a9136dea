/** The schema of the roster record: its fields in declaration order, the JSON key each
    field is renamed to, the Rust type of each field and whether it is an `Option`.

    A lemma about every field (`KeyRoundTrip`, `FieldOfKeyExact`, `IndexFieldAt`) is
    proved by a lemma per group of three fields, suffixed `A` to `O`, to which it
    dispatches. The groups mean nothing on their own: they only keep each proof
    obligation from unfolding a 43-way match at every field at once. */
module Schema {
  import opened Wrappers
  import opened Json
  import Enums

  /** One constructor per field of the record, in declaration order. */
  datatype Field =
    | PlayerId
    | FirstName
    | LastName
    | Status
    | TeamId
    | Team
    | Position
    | Jersey
    | Catches
    | Shoots
    | Height
    | Weight
    | BirthDate
    | BirthCity
    | BirthState
    | PhotoUrl
    | SportRadarPlayerId
    | RotoworldPlayerId
    | RotoWirePlayerId
    | FantasyAlarmPlayerId
    | StatsPlayerId
    | SportsDirectPlayerId
    | XmlTeamPlayerId
    | InjuryStatus
    | InjuryBodyPart
    | InjuryStartDate
    | InjuryNotes
    | FanDuelPlayerId
    | DraftKingsPlayerId
    | YahooPlayerId
    | FanDuelName
    | DraftKingsName
    | YahooName
    | DepthChartPosition
    | DepthChartOrder
    | GlobalTeamId
    | FantasyDraftName
    | FantasyDraftPlayerId
    | UsaTodayPlayerId
    | UsaTodayHeadshotUrl
    | UsaTodayHeadshotNoBackgroundUrl
    | UsaTodayHeadshotUpdated
    | UsaTodayHeadshotNoBackgroundUpdated

  /** The JSON key of each field. */
  function Key(f: Field): string {
    match f
    case PlayerId => "PlayerID"
    case FirstName => "FirstName"
    case LastName => "LastName"
    case Status => "Status"
    case TeamId => "TeamID"
    case Team => "Team"
    case Position => "Position"
    case Jersey => "Jersey"
    case Catches => "Catches"
    case Shoots => "Shoots"
    case Height => "Height"
    case Weight => "Weight"
    case BirthDate => "BirthDate"
    case BirthCity => "BirthCity"
    case BirthState => "BirthState"
    case PhotoUrl => "PhotoUrl"
    case SportRadarPlayerId => "SportRadarPlayerID"
    case RotoworldPlayerId => "RotoworldPlayerID"
    case RotoWirePlayerId => "RotoWirePlayerID"
    case FantasyAlarmPlayerId => "FantasyAlarmPlayerID"
    case StatsPlayerId => "StatsPlayerID"
    case SportsDirectPlayerId => "SportsDirectPlayerID"
    case XmlTeamPlayerId => "XmlTeamPlayerID"
    case InjuryStatus => "InjuryStatus"
    case InjuryBodyPart => "InjuryBodyPart"
    case InjuryStartDate => "InjuryStartDate"
    case InjuryNotes => "InjuryNotes"
    case FanDuelPlayerId => "FanDuelPlayerID"
    case DraftKingsPlayerId => "DraftKingsPlayerID"
    case YahooPlayerId => "YahooPlayerID"
    case FanDuelName => "FanDuelName"
    case DraftKingsName => "DraftKingsName"
    case YahooName => "YahooName"
    case DepthChartPosition => "DepthChartPosition"
    case DepthChartOrder => "DepthChartOrder"
    case GlobalTeamId => "GlobalTeamID"
    case FantasyDraftName => "FantasyDraftName"
    case FantasyDraftPlayerId => "FantasyDraftPlayerID"
    case UsaTodayPlayerId => "UsaTodayPlayerID"
    case UsaTodayHeadshotUrl => "UsaTodayHeadshotUrl"
    case UsaTodayHeadshotNoBackgroundUrl => "UsaTodayHeadshotNoBackgroundUrl"
    case UsaTodayHeadshotUpdated => "UsaTodayHeadshotUpdated"
    case UsaTodayHeadshotNoBackgroundUpdated => "UsaTodayHeadshotNoBackgroundUpdated"
  }

  /** The field a key names, as the derived field visitor matches it; any other key
      names no field and its value is skipped. */
  function FieldOfKey(s: string): Option<Field> {
    match s
    case "PlayerID" => Some(PlayerId)
    case "FirstName" => Some(FirstName)
    case "LastName" => Some(LastName)
    case "Status" => Some(Status)
    case "TeamID" => Some(TeamId)
    case "Team" => Some(Team)
    case "Position" => Some(Position)
    case "Jersey" => Some(Jersey)
    case "Catches" => Some(Catches)
    case "Shoots" => Some(Shoots)
    case "Height" => Some(Height)
    case "Weight" => Some(Weight)
    case "BirthDate" => Some(BirthDate)
    case "BirthCity" => Some(BirthCity)
    case "BirthState" => Some(BirthState)
    case "PhotoUrl" => Some(PhotoUrl)
    case "SportRadarPlayerID" => Some(SportRadarPlayerId)
    case "RotoworldPlayerID" => Some(RotoworldPlayerId)
    case "RotoWirePlayerID" => Some(RotoWirePlayerId)
    case "FantasyAlarmPlayerID" => Some(FantasyAlarmPlayerId)
    case "StatsPlayerID" => Some(StatsPlayerId)
    case "SportsDirectPlayerID" => Some(SportsDirectPlayerId)
    case "XmlTeamPlayerID" => Some(XmlTeamPlayerId)
    case "InjuryStatus" => Some(InjuryStatus)
    case "InjuryBodyPart" => Some(InjuryBodyPart)
    case "InjuryStartDate" => Some(InjuryStartDate)
    case "InjuryNotes" => Some(InjuryNotes)
    case "FanDuelPlayerID" => Some(FanDuelPlayerId)
    case "DraftKingsPlayerID" => Some(DraftKingsPlayerId)
    case "YahooPlayerID" => Some(YahooPlayerId)
    case "FanDuelName" => Some(FanDuelName)
    case "DraftKingsName" => Some(DraftKingsName)
    case "YahooName" => Some(YahooName)
    case "DepthChartPosition" => Some(DepthChartPosition)
    case "DepthChartOrder" => Some(DepthChartOrder)
    case "GlobalTeamID" => Some(GlobalTeamId)
    case "FantasyDraftName" => Some(FantasyDraftName)
    case "FantasyDraftPlayerID" => Some(FantasyDraftPlayerId)
    case "UsaTodayPlayerID" => Some(UsaTodayPlayerId)
    case "UsaTodayHeadshotUrl" => Some(UsaTodayHeadshotUrl)
    case "UsaTodayHeadshotNoBackgroundUrl" => Some(UsaTodayHeadshotNoBackgroundUrl)
    case "UsaTodayHeadshotUpdated" => Some(UsaTodayHeadshotUpdated)
    case "UsaTodayHeadshotNoBackgroundUpdated" => Some(UsaTodayHeadshotNoBackgroundUpdated)
    case _ => None
  }

  const FieldCount: nat := 43

  /** The position of a field in declaration order: the order in which fields are
      serialized and in which a positional (array) form lists them. */
  function Index(f: Field): (i: nat)
    ensures i < FieldCount
  {
    match f
    case PlayerId => 0
    case FirstName => 1
    case LastName => 2
    case Status => 3
    case TeamId => 4
    case Team => 5
    case Position => 6
    case Jersey => 7
    case Catches => 8
    case Shoots => 9
    case Height => 10
    case Weight => 11
    case BirthDate => 12
    case BirthCity => 13
    case BirthState => 14
    case PhotoUrl => 15
    case SportRadarPlayerId => 16
    case RotoworldPlayerId => 17
    case RotoWirePlayerId => 18
    case FantasyAlarmPlayerId => 19
    case StatsPlayerId => 20
    case SportsDirectPlayerId => 21
    case XmlTeamPlayerId => 22
    case InjuryStatus => 23
    case InjuryBodyPart => 24
    case InjuryStartDate => 25
    case InjuryNotes => 26
    case FanDuelPlayerId => 27
    case DraftKingsPlayerId => 28
    case YahooPlayerId => 29
    case FanDuelName => 30
    case DraftKingsName => 31
    case YahooName => 32
    case DepthChartPosition => 33
    case DepthChartOrder => 34
    case GlobalTeamId => 35
    case FantasyDraftName => 36
    case FantasyDraftPlayerId => 37
    case UsaTodayPlayerId => 38
    case UsaTodayHeadshotUrl => 39
    case UsaTodayHeadshotNoBackgroundUrl => 40
    case UsaTodayHeadshotUpdated => 41
    case UsaTodayHeadshotNoBackgroundUpdated => 42
  }

  /** The field at a position in declaration order. */
  function FieldAt(i: nat): (f: Field)
    requires i < FieldCount
  {
    match i
    case 0 => PlayerId
    case 1 => FirstName
    case 2 => LastName
    case 3 => Status
    case 4 => TeamId
    case 5 => Team
    case 6 => Position
    case 7 => Jersey
    case 8 => Catches
    case 9 => Shoots
    case 10 => Height
    case 11 => Weight
    case 12 => BirthDate
    case 13 => BirthCity
    case 14 => BirthState
    case 15 => PhotoUrl
    case 16 => SportRadarPlayerId
    case 17 => RotoworldPlayerId
    case 18 => RotoWirePlayerId
    case 19 => FantasyAlarmPlayerId
    case 20 => StatsPlayerId
    case 21 => SportsDirectPlayerId
    case 22 => XmlTeamPlayerId
    case 23 => InjuryStatus
    case 24 => InjuryBodyPart
    case 25 => InjuryStartDate
    case 26 => InjuryNotes
    case 27 => FanDuelPlayerId
    case 28 => DraftKingsPlayerId
    case 29 => YahooPlayerId
    case 30 => FanDuelName
    case 31 => DraftKingsName
    case 32 => YahooName
    case 33 => DepthChartPosition
    case 34 => DepthChartOrder
    case 35 => GlobalTeamId
    case 36 => FantasyDraftName
    case 37 => FantasyDraftPlayerId
    case 38 => UsaTodayPlayerId
    case 39 => UsaTodayHeadshotUrl
    case 40 => UsaTodayHeadshotNoBackgroundUrl
    case 41 => UsaTodayHeadshotUpdated
    case _ => UsaTodayHeadshotNoBackgroundUpdated
  }

  const AllFields: set<Field> := set i | 0 <= i < FieldCount :: FieldAt(i)

  /** The fields whose Rust type is not an `Option`. */
  predicate IsRequired(f: Field) {
    f == PlayerId
    || f == FirstName
    || f == LastName
    || f == Status
    || f == TeamId
    || f == Team
    || f == Position
    || f == Height
    || f == Weight
    || f == BirthDate
    || f == BirthCity
    || f == PhotoUrl
    || f == SportRadarPlayerId
    || f == InjuryStatus
    || f == InjuryBodyPart
    || f == InjuryNotes
    || f == GlobalTeamId
  }

  /** The JSON each field's Rust type accepts. */
  function KindOf(f: Field): Kind {
    match f
    case PlayerId => Integer
    case FirstName => Text
    case LastName => Text
    case Status => Variant(Enums.StatusCodes)
    case TeamId => Integer
    case Team => Variant(Enums.TeamCodes)
    case Position => Variant(Enums.PositionCodes)
    case Jersey => Integer
    case Catches => Variant(Enums.HandCodes)
    case Shoots => Variant(Enums.HandCodes)
    case Height => Integer
    case Weight => Integer
    case BirthDate => Text
    case BirthCity => Text
    case BirthState => Text
    case PhotoUrl => Text
    case SportRadarPlayerId => Text
    case RotoworldPlayerId => Integer
    case RotoWirePlayerId => Integer
    case FantasyAlarmPlayerId => Integer
    case StatsPlayerId => Integer
    case SportsDirectPlayerId => Integer
    case XmlTeamPlayerId => Integer
    case InjuryStatus => Variant(Enums.InjuryCodes)
    case InjuryBodyPart => Variant(Enums.InjuryCodes)
    case InjuryStartDate => AnyValue
    case InjuryNotes => Variant(Enums.InjuryCodes)
    case FanDuelPlayerId => Integer
    case DraftKingsPlayerId => Integer
    case YahooPlayerId => Integer
    case FanDuelName => Text
    case DraftKingsName => Text
    case YahooName => Text
    case DepthChartPosition => Variant(Enums.PositionCodes)
    case DepthChartOrder => Integer
    case GlobalTeamId => Integer
    case FantasyDraftName => Text
    case FantasyDraftPlayerId => Integer
    case UsaTodayPlayerId => Integer
    case UsaTodayHeadshotUrl => Text
    case UsaTodayHeadshotNoBackgroundUrl => Text
    case UsaTodayHeadshotUpdated => Text
    case UsaTodayHeadshotNoBackgroundUpdated => Text
  }

  /** Every key maps back to its own field, so the 43 keys are pairwise distinct. */
  lemma KeyRoundTrip(f: Field)
    ensures FieldOfKey(Key(f)) == Some(f)
  {
    if f == PlayerId || f == FirstName || f == LastName { KeyRoundTripA(f); }
    else if f == Status || f == TeamId || f == Team { KeyRoundTripB(f); }
    else if f == Position || f == Jersey || f == Catches { KeyRoundTripC(f); }
    else if f == Shoots || f == Height || f == Weight { KeyRoundTripD(f); }
    else if f == BirthDate || f == BirthCity || f == BirthState { KeyRoundTripE(f); }
    else if f == PhotoUrl || f == SportRadarPlayerId || f == RotoworldPlayerId { KeyRoundTripF(f); }
    else if f == RotoWirePlayerId || f == FantasyAlarmPlayerId || f == StatsPlayerId { KeyRoundTripG(f); }
    else if f == SportsDirectPlayerId || f == XmlTeamPlayerId || f == InjuryStatus { KeyRoundTripH(f); }
    else if f == InjuryBodyPart || f == InjuryStartDate || f == InjuryNotes { KeyRoundTripI(f); }
    else if f == FanDuelPlayerId || f == DraftKingsPlayerId || f == YahooPlayerId { KeyRoundTripJ(f); }
    else if f == FanDuelName || f == DraftKingsName || f == YahooName { KeyRoundTripK(f); }
    else if f == DepthChartPosition || f == DepthChartOrder || f == GlobalTeamId { KeyRoundTripL(f); }
    else if f == FantasyDraftName || f == FantasyDraftPlayerId || f == UsaTodayPlayerId { KeyRoundTripM(f); }
    else if f == UsaTodayHeadshotUrl || f == UsaTodayHeadshotNoBackgroundUrl || f == UsaTodayHeadshotUpdated { KeyRoundTripN(f); }
    else { KeyRoundTripO(f); }
  }

  lemma KeyRoundTripA(f: Field)
    requires f == PlayerId || f == FirstName || f == LastName
    ensures FieldOfKey(Key(f)) == Some(f)
  {
    match f
    case PlayerId => assert FieldOfKey("PlayerID") == Some(PlayerId);
    case FirstName => assert FieldOfKey("FirstName") == Some(FirstName);
    case LastName => assert FieldOfKey("LastName") == Some(LastName);
    case _ =>
  }

  lemma KeyRoundTripB(f: Field)
    requires f == Status || f == TeamId || f == Team
    ensures FieldOfKey(Key(f)) == Some(f)
  {
    match f
    case Status => assert FieldOfKey("Status") == Some(Status);
    case TeamId => assert FieldOfKey("TeamID") == Some(TeamId);
    case Team => assert FieldOfKey("Team") == Some(Team);
    case _ =>
  }

  lemma KeyRoundTripC(f: Field)
    requires f == Position || f == Jersey || f == Catches
    ensures FieldOfKey(Key(f)) == Some(f)
  {
    match f
    case Position => assert FieldOfKey("Position") == Some(Position);
    case Jersey => assert FieldOfKey("Jersey") == Some(Jersey);
    case Catches => assert FieldOfKey("Catches") == Some(Catches);
    case _ =>
  }

  lemma KeyRoundTripD(f: Field)
    requires f == Shoots || f == Height || f == Weight
    ensures FieldOfKey(Key(f)) == Some(f)
  {
    match f
    case Shoots => assert FieldOfKey("Shoots") == Some(Shoots);
    case Height => assert FieldOfKey("Height") == Some(Height);
    case Weight => assert FieldOfKey("Weight") == Some(Weight);
    case _ =>
  }

  lemma KeyRoundTripE(f: Field)
    requires f == BirthDate || f == BirthCity || f == BirthState
    ensures FieldOfKey(Key(f)) == Some(f)
  {
    match f
    case BirthDate => assert FieldOfKey("BirthDate") == Some(BirthDate);
    case BirthCity => assert FieldOfKey("BirthCity") == Some(BirthCity);
    case BirthState => assert FieldOfKey("BirthState") == Some(BirthState);
    case _ =>
  }

  lemma KeyRoundTripF(f: Field)
    requires f == PhotoUrl || f == SportRadarPlayerId || f == RotoworldPlayerId
    ensures FieldOfKey(Key(f)) == Some(f)
  {
    match f
    case PhotoUrl => assert FieldOfKey("PhotoUrl") == Some(PhotoUrl);
    case SportRadarPlayerId => assert FieldOfKey("SportRadarPlayerID") == Some(SportRadarPlayerId);
    case RotoworldPlayerId => assert FieldOfKey("RotoworldPlayerID") == Some(RotoworldPlayerId);
    case _ =>
  }

  lemma KeyRoundTripG(f: Field)
    requires f == RotoWirePlayerId || f == FantasyAlarmPlayerId || f == StatsPlayerId
    ensures FieldOfKey(Key(f)) == Some(f)
  {
    match f
    case RotoWirePlayerId => assert FieldOfKey("RotoWirePlayerID") == Some(RotoWirePlayerId);
    case FantasyAlarmPlayerId => assert FieldOfKey("FantasyAlarmPlayerID") == Some(FantasyAlarmPlayerId);
    case StatsPlayerId => assert FieldOfKey("StatsPlayerID") == Some(StatsPlayerId);
    case _ =>
  }

  lemma KeyRoundTripH(f: Field)
    requires f == SportsDirectPlayerId || f == XmlTeamPlayerId || f == InjuryStatus
    ensures FieldOfKey(Key(f)) == Some(f)
  {
    match f
    case SportsDirectPlayerId => assert FieldOfKey("SportsDirectPlayerID") == Some(SportsDirectPlayerId);
    case XmlTeamPlayerId => assert FieldOfKey("XmlTeamPlayerID") == Some(XmlTeamPlayerId);
    case InjuryStatus => assert FieldOfKey("InjuryStatus") == Some(InjuryStatus);
    case _ =>
  }

  lemma KeyRoundTripI(f: Field)
    requires f == InjuryBodyPart || f == InjuryStartDate || f == InjuryNotes
    ensures FieldOfKey(Key(f)) == Some(f)
  {
    match f
    case InjuryBodyPart => assert FieldOfKey("InjuryBodyPart") == Some(InjuryBodyPart);
    case InjuryStartDate => assert FieldOfKey("InjuryStartDate") == Some(InjuryStartDate);
    case InjuryNotes => assert FieldOfKey("InjuryNotes") == Some(InjuryNotes);
    case _ =>
  }

  lemma KeyRoundTripJ(f: Field)
    requires f == FanDuelPlayerId || f == DraftKingsPlayerId || f == YahooPlayerId
    ensures FieldOfKey(Key(f)) == Some(f)
  {
    match f
    case FanDuelPlayerId => assert FieldOfKey("FanDuelPlayerID") == Some(FanDuelPlayerId);
    case DraftKingsPlayerId => assert FieldOfKey("DraftKingsPlayerID") == Some(DraftKingsPlayerId);
    case YahooPlayerId => assert FieldOfKey("YahooPlayerID") == Some(YahooPlayerId);
    case _ =>
  }

  lemma KeyRoundTripK(f: Field)
    requires f == FanDuelName || f == DraftKingsName || f == YahooName
    ensures FieldOfKey(Key(f)) == Some(f)
  {
    match f
    case FanDuelName => assert FieldOfKey("FanDuelName") == Some(FanDuelName);
    case DraftKingsName => assert FieldOfKey("DraftKingsName") == Some(DraftKingsName);
    case YahooName => assert FieldOfKey("YahooName") == Some(YahooName);
    case _ =>
  }

  lemma KeyRoundTripL(f: Field)
    requires f == DepthChartPosition || f == DepthChartOrder || f == GlobalTeamId
    ensures FieldOfKey(Key(f)) == Some(f)
  {
    match f
    case DepthChartPosition => assert FieldOfKey("DepthChartPosition") == Some(DepthChartPosition);
    case DepthChartOrder => assert FieldOfKey("DepthChartOrder") == Some(DepthChartOrder);
    case GlobalTeamId => assert FieldOfKey("GlobalTeamID") == Some(GlobalTeamId);
    case _ =>
  }

  lemma KeyRoundTripM(f: Field)
    requires f == FantasyDraftName || f == FantasyDraftPlayerId || f == UsaTodayPlayerId
    ensures FieldOfKey(Key(f)) == Some(f)
  {
    match f
    case FantasyDraftName => assert FieldOfKey("FantasyDraftName") == Some(FantasyDraftName);
    case FantasyDraftPlayerId => assert FieldOfKey("FantasyDraftPlayerID") == Some(FantasyDraftPlayerId);
    case UsaTodayPlayerId => assert FieldOfKey("UsaTodayPlayerID") == Some(UsaTodayPlayerId);
    case _ =>
  }

  lemma KeyRoundTripN(f: Field)
    requires f == UsaTodayHeadshotUrl || f == UsaTodayHeadshotNoBackgroundUrl || f == UsaTodayHeadshotUpdated
    ensures FieldOfKey(Key(f)) == Some(f)
  {
    match f
    case UsaTodayHeadshotUrl => assert FieldOfKey("UsaTodayHeadshotUrl") == Some(UsaTodayHeadshotUrl);
    case UsaTodayHeadshotNoBackgroundUrl => assert FieldOfKey("UsaTodayHeadshotNoBackgroundUrl") == Some(UsaTodayHeadshotNoBackgroundUrl);
    case UsaTodayHeadshotUpdated => assert FieldOfKey("UsaTodayHeadshotUpdated") == Some(UsaTodayHeadshotUpdated);
    case _ =>
  }

  lemma KeyRoundTripO(f: Field)
    requires f == UsaTodayHeadshotNoBackgroundUpdated
    ensures FieldOfKey(Key(f)) == Some(f)
  {
    match f
    case UsaTodayHeadshotNoBackgroundUpdated => assert FieldOfKey("UsaTodayHeadshotNoBackgroundUpdated") == Some(UsaTodayHeadshotNoBackgroundUpdated);
    case _ =>
  }

  /** A key names a field exactly when it is that field's key: the visitor matches the
      renamed keys literally and nothing else. */
  lemma FieldOfKeyExact(s: string, f: Field)
    ensures FieldOfKey(s) == Some(f) <==> s == Key(f)
  {
    KeyRoundTrip(f);
    if f == PlayerId || f == FirstName || f == LastName { FieldOfKeyExactA(s, f); }
    else if f == Status || f == TeamId || f == Team { FieldOfKeyExactB(s, f); }
    else if f == Position || f == Jersey || f == Catches { FieldOfKeyExactC(s, f); }
    else if f == Shoots || f == Height || f == Weight { FieldOfKeyExactD(s, f); }
    else if f == BirthDate || f == BirthCity || f == BirthState { FieldOfKeyExactE(s, f); }
    else if f == PhotoUrl || f == SportRadarPlayerId || f == RotoworldPlayerId { FieldOfKeyExactF(s, f); }
    else if f == RotoWirePlayerId || f == FantasyAlarmPlayerId || f == StatsPlayerId { FieldOfKeyExactG(s, f); }
    else if f == SportsDirectPlayerId || f == XmlTeamPlayerId || f == InjuryStatus { FieldOfKeyExactH(s, f); }
    else if f == InjuryBodyPart || f == InjuryStartDate || f == InjuryNotes { FieldOfKeyExactI(s, f); }
    else if f == FanDuelPlayerId || f == DraftKingsPlayerId || f == YahooPlayerId { FieldOfKeyExactJ(s, f); }
    else if f == FanDuelName || f == DraftKingsName || f == YahooName { FieldOfKeyExactK(s, f); }
    else if f == DepthChartPosition || f == DepthChartOrder || f == GlobalTeamId { FieldOfKeyExactL(s, f); }
    else if f == FantasyDraftName || f == FantasyDraftPlayerId || f == UsaTodayPlayerId { FieldOfKeyExactM(s, f); }
    else if f == UsaTodayHeadshotUrl || f == UsaTodayHeadshotNoBackgroundUrl || f == UsaTodayHeadshotUpdated { FieldOfKeyExactN(s, f); }
    else { FieldOfKeyExactO(s, f); }
  }

  lemma FieldOfKeyExactA(s: string, f: Field)
    requires f == PlayerId || f == FirstName || f == LastName
    ensures FieldOfKey(s) == Some(f) ==> s == Key(f)
  {
    match f
    case PlayerId =>
    case FirstName =>
    case LastName =>
    case _ =>
  }

  lemma FieldOfKeyExactB(s: string, f: Field)
    requires f == Status || f == TeamId || f == Team
    ensures FieldOfKey(s) == Some(f) ==> s == Key(f)
  {
    match f
    case Status =>
    case TeamId =>
    case Team =>
    case _ =>
  }

  lemma FieldOfKeyExactC(s: string, f: Field)
    requires f == Position || f == Jersey || f == Catches
    ensures FieldOfKey(s) == Some(f) ==> s == Key(f)
  {
    match f
    case Position =>
    case Jersey =>
    case Catches =>
    case _ =>
  }

  lemma FieldOfKeyExactD(s: string, f: Field)
    requires f == Shoots || f == Height || f == Weight
    ensures FieldOfKey(s) == Some(f) ==> s == Key(f)
  {
    match f
    case Shoots =>
    case Height =>
    case Weight =>
    case _ =>
  }

  lemma FieldOfKeyExactE(s: string, f: Field)
    requires f == BirthDate || f == BirthCity || f == BirthState
    ensures FieldOfKey(s) == Some(f) ==> s == Key(f)
  {
    match f
    case BirthDate =>
    case BirthCity =>
    case BirthState =>
    case _ =>
  }

  lemma FieldOfKeyExactF(s: string, f: Field)
    requires f == PhotoUrl || f == SportRadarPlayerId || f == RotoworldPlayerId
    ensures FieldOfKey(s) == Some(f) ==> s == Key(f)
  {
    match f
    case PhotoUrl =>
    case SportRadarPlayerId =>
    case RotoworldPlayerId =>
    case _ =>
  }

  lemma FieldOfKeyExactG(s: string, f: Field)
    requires f == RotoWirePlayerId || f == FantasyAlarmPlayerId || f == StatsPlayerId
    ensures FieldOfKey(s) == Some(f) ==> s == Key(f)
  {
    match f
    case RotoWirePlayerId =>
    case FantasyAlarmPlayerId =>
    case StatsPlayerId =>
    case _ =>
  }

  lemma FieldOfKeyExactH(s: string, f: Field)
    requires f == SportsDirectPlayerId || f == XmlTeamPlayerId || f == InjuryStatus
    ensures FieldOfKey(s) == Some(f) ==> s == Key(f)
  {
    match f
    case SportsDirectPlayerId =>
    case XmlTeamPlayerId =>
    case InjuryStatus =>
    case _ =>
  }

  lemma FieldOfKeyExactI(s: string, f: Field)
    requires f == InjuryBodyPart || f == InjuryStartDate || f == InjuryNotes
    ensures FieldOfKey(s) == Some(f) ==> s == Key(f)
  {
    match f
    case InjuryBodyPart =>
    case InjuryStartDate =>
    case InjuryNotes =>
    case _ =>
  }

  lemma FieldOfKeyExactJ(s: string, f: Field)
    requires f == FanDuelPlayerId || f == DraftKingsPlayerId || f == YahooPlayerId
    ensures FieldOfKey(s) == Some(f) ==> s == Key(f)
  {
    match f
    case FanDuelPlayerId =>
    case DraftKingsPlayerId =>
    case YahooPlayerId =>
    case _ =>
  }

  lemma FieldOfKeyExactK(s: string, f: Field)
    requires f == FanDuelName || f == DraftKingsName || f == YahooName
    ensures FieldOfKey(s) == Some(f) ==> s == Key(f)
  {
    match f
    case FanDuelName =>
    case DraftKingsName =>
    case YahooName =>
    case _ =>
  }

  lemma FieldOfKeyExactL(s: string, f: Field)
    requires f == DepthChartPosition || f == DepthChartOrder || f == GlobalTeamId
    ensures FieldOfKey(s) == Some(f) ==> s == Key(f)
  {
    match f
    case DepthChartPosition =>
    case DepthChartOrder =>
    case GlobalTeamId =>
    case _ =>
  }

  lemma FieldOfKeyExactM(s: string, f: Field)
    requires f == FantasyDraftName || f == FantasyDraftPlayerId || f == UsaTodayPlayerId
    ensures FieldOfKey(s) == Some(f) ==> s == Key(f)
  {
    match f
    case FantasyDraftName =>
    case FantasyDraftPlayerId =>
    case UsaTodayPlayerId =>
    case _ =>
  }

  lemma FieldOfKeyExactN(s: string, f: Field)
    requires f == UsaTodayHeadshotUrl || f == UsaTodayHeadshotNoBackgroundUrl || f == UsaTodayHeadshotUpdated
    ensures FieldOfKey(s) == Some(f) ==> s == Key(f)
  {
    match f
    case UsaTodayHeadshotUrl =>
    case UsaTodayHeadshotNoBackgroundUrl =>
    case UsaTodayHeadshotUpdated =>
    case _ =>
  }

  lemma FieldOfKeyExactO(s: string, f: Field)
    requires f == UsaTodayHeadshotNoBackgroundUpdated
    ensures FieldOfKey(s) == Some(f) ==> s == Key(f)
  {
    match f
    case UsaTodayHeadshotNoBackgroundUpdated =>
    case _ =>
  }

  lemma KeysDistinct(f: Field, g: Field)
    ensures Key(f) == Key(g) ==> f == g
  {
    KeyRoundTrip(f);
    KeyRoundTrip(g);
  }

  /** `Index` and `FieldAt` are inverse: declaration order lists every field exactly once. */
  lemma IndexFieldAt(f: Field)
    ensures FieldAt(Index(f)) == f
  {
    if f == PlayerId || f == FirstName || f == LastName { IndexFieldAtA(f); }
    else if f == Status || f == TeamId || f == Team { IndexFieldAtB(f); }
    else if f == Position || f == Jersey || f == Catches { IndexFieldAtC(f); }
    else if f == Shoots || f == Height || f == Weight { IndexFieldAtD(f); }
    else if f == BirthDate || f == BirthCity || f == BirthState { IndexFieldAtE(f); }
    else if f == PhotoUrl || f == SportRadarPlayerId || f == RotoworldPlayerId { IndexFieldAtF(f); }
    else if f == RotoWirePlayerId || f == FantasyAlarmPlayerId || f == StatsPlayerId { IndexFieldAtG(f); }
    else if f == SportsDirectPlayerId || f == XmlTeamPlayerId || f == InjuryStatus { IndexFieldAtH(f); }
    else if f == InjuryBodyPart || f == InjuryStartDate || f == InjuryNotes { IndexFieldAtI(f); }
    else if f == FanDuelPlayerId || f == DraftKingsPlayerId || f == YahooPlayerId { IndexFieldAtJ(f); }
    else if f == FanDuelName || f == DraftKingsName || f == YahooName { IndexFieldAtK(f); }
    else if f == DepthChartPosition || f == DepthChartOrder || f == GlobalTeamId { IndexFieldAtL(f); }
    else if f == FantasyDraftName || f == FantasyDraftPlayerId || f == UsaTodayPlayerId { IndexFieldAtM(f); }
    else if f == UsaTodayHeadshotUrl || f == UsaTodayHeadshotNoBackgroundUrl || f == UsaTodayHeadshotUpdated { IndexFieldAtN(f); }
    else { IndexFieldAtO(f); }
  }

  /** Every field is one of the 43. */
  lemma InAllFields(f: Field)
    ensures f in AllFields
  {
    IndexFieldAt(f);
  }


  lemma IndexFieldAtA(f: Field)
    requires f == PlayerId || f == FirstName || f == LastName
    ensures FieldAt(Index(f)) == f
  {
    match f
    case PlayerId => assert FieldAt(0) == PlayerId;
    case FirstName => assert FieldAt(1) == FirstName;
    case LastName => assert FieldAt(2) == LastName;
    case _ =>
  }

  lemma IndexFieldAtB(f: Field)
    requires f == Status || f == TeamId || f == Team
    ensures FieldAt(Index(f)) == f
  {
    match f
    case Status => assert FieldAt(3) == Status;
    case TeamId => assert FieldAt(4) == TeamId;
    case Team => assert FieldAt(5) == Team;
    case _ =>
  }

  lemma IndexFieldAtC(f: Field)
    requires f == Position || f == Jersey || f == Catches
    ensures FieldAt(Index(f)) == f
  {
    match f
    case Position => assert FieldAt(6) == Position;
    case Jersey => assert FieldAt(7) == Jersey;
    case Catches => assert FieldAt(8) == Catches;
    case _ =>
  }

  lemma IndexFieldAtD(f: Field)
    requires f == Shoots || f == Height || f == Weight
    ensures FieldAt(Index(f)) == f
  {
    match f
    case Shoots => assert FieldAt(9) == Shoots;
    case Height => assert FieldAt(10) == Height;
    case Weight => assert FieldAt(11) == Weight;
    case _ =>
  }

  lemma IndexFieldAtE(f: Field)
    requires f == BirthDate || f == BirthCity || f == BirthState
    ensures FieldAt(Index(f)) == f
  {
    match f
    case BirthDate => assert FieldAt(12) == BirthDate;
    case BirthCity => assert FieldAt(13) == BirthCity;
    case BirthState => assert FieldAt(14) == BirthState;
    case _ =>
  }

  lemma IndexFieldAtF(f: Field)
    requires f == PhotoUrl || f == SportRadarPlayerId || f == RotoworldPlayerId
    ensures FieldAt(Index(f)) == f
  {
    match f
    case PhotoUrl => assert FieldAt(15) == PhotoUrl;
    case SportRadarPlayerId => assert FieldAt(16) == SportRadarPlayerId;
    case RotoworldPlayerId => assert FieldAt(17) == RotoworldPlayerId;
    case _ =>
  }

  lemma IndexFieldAtG(f: Field)
    requires f == RotoWirePlayerId || f == FantasyAlarmPlayerId || f == StatsPlayerId
    ensures FieldAt(Index(f)) == f
  {
    match f
    case RotoWirePlayerId => assert FieldAt(18) == RotoWirePlayerId;
    case FantasyAlarmPlayerId => assert FieldAt(19) == FantasyAlarmPlayerId;
    case StatsPlayerId => assert FieldAt(20) == StatsPlayerId;
    case _ =>
  }

  lemma IndexFieldAtH(f: Field)
    requires f == SportsDirectPlayerId || f == XmlTeamPlayerId || f == InjuryStatus
    ensures FieldAt(Index(f)) == f
  {
    match f
    case SportsDirectPlayerId => assert FieldAt(21) == SportsDirectPlayerId;
    case XmlTeamPlayerId => assert FieldAt(22) == XmlTeamPlayerId;
    case InjuryStatus => assert FieldAt(23) == InjuryStatus;
    case _ =>
  }

  lemma IndexFieldAtI(f: Field)
    requires f == InjuryBodyPart || f == InjuryStartDate || f == InjuryNotes
    ensures FieldAt(Index(f)) == f
  {
    match f
    case InjuryBodyPart => assert FieldAt(24) == InjuryBodyPart;
    case InjuryStartDate => assert FieldAt(25) == InjuryStartDate;
    case InjuryNotes => assert FieldAt(26) == InjuryNotes;
    case _ =>
  }

  lemma IndexFieldAtJ(f: Field)
    requires f == FanDuelPlayerId || f == DraftKingsPlayerId || f == YahooPlayerId
    ensures FieldAt(Index(f)) == f
  {
    match f
    case FanDuelPlayerId => assert FieldAt(27) == FanDuelPlayerId;
    case DraftKingsPlayerId => assert FieldAt(28) == DraftKingsPlayerId;
    case YahooPlayerId => assert FieldAt(29) == YahooPlayerId;
    case _ =>
  }

  lemma IndexFieldAtK(f: Field)
    requires f == FanDuelName || f == DraftKingsName || f == YahooName
    ensures FieldAt(Index(f)) == f
  {
    match f
    case FanDuelName => assert FieldAt(30) == FanDuelName;
    case DraftKingsName => assert FieldAt(31) == DraftKingsName;
    case YahooName => assert FieldAt(32) == YahooName;
    case _ =>
  }

  lemma IndexFieldAtL(f: Field)
    requires f == DepthChartPosition || f == DepthChartOrder || f == GlobalTeamId
    ensures FieldAt(Index(f)) == f
  {
    match f
    case DepthChartPosition => assert FieldAt(33) == DepthChartPosition;
    case DepthChartOrder => assert FieldAt(34) == DepthChartOrder;
    case GlobalTeamId => assert FieldAt(35) == GlobalTeamId;
    case _ =>
  }

  lemma IndexFieldAtM(f: Field)
    requires f == FantasyDraftName || f == FantasyDraftPlayerId || f == UsaTodayPlayerId
    ensures FieldAt(Index(f)) == f
  {
    match f
    case FantasyDraftName => assert FieldAt(36) == FantasyDraftName;
    case FantasyDraftPlayerId => assert FieldAt(37) == FantasyDraftPlayerId;
    case UsaTodayPlayerId => assert FieldAt(38) == UsaTodayPlayerId;
    case _ =>
  }

  lemma IndexFieldAtN(f: Field)
    requires f == UsaTodayHeadshotUrl || f == UsaTodayHeadshotNoBackgroundUrl || f == UsaTodayHeadshotUpdated
    ensures FieldAt(Index(f)) == f
  {
    match f
    case UsaTodayHeadshotUrl => assert FieldAt(39) == UsaTodayHeadshotUrl;
    case UsaTodayHeadshotNoBackgroundUrl => assert FieldAt(40) == UsaTodayHeadshotNoBackgroundUrl;
    case UsaTodayHeadshotUpdated => assert FieldAt(41) == UsaTodayHeadshotUpdated;
    case _ =>
  }

  lemma IndexFieldAtO(f: Field)
    requires f == UsaTodayHeadshotNoBackgroundUpdated
    ensures FieldAt(Index(f)) == f
  {
    match f
    case UsaTodayHeadshotNoBackgroundUpdated => assert FieldAt(42) == UsaTodayHeadshotNoBackgroundUpdated;
    case _ =>
  }

  lemma FieldAtIndex(i: nat)
    requires i < FieldCount
    ensures Index(FieldAt(i)) == i
  {
  }
}
