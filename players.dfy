/** The roster record `Player` and the roster `Players`, with the two (de)serializations
    that serde derives for them.

    As in `Schema`, a lemma about every field (`DecodesFromAll`, `DecodesToSpec`,
    `FieldValueIsCanonical`) is proved by lemmas for groups of three fields, suffixed `A`
    to `O`, and `DecodesBuild` by lemmas for pairs of fields, suffixed `A` to `V`. The
    groups only keep each proof obligation small; they state nothing of their own. */
module Players {
  import opened Wrappers
  import opened Json
  import Enums
  import opened Schema
  import Slots

  /** One player of the roster, one component per field of the Rust struct. */
  datatype Player = Player(
    playerId: Int64,
    firstName: string,
    lastName: string,
    status: Enums.Status,
    teamId: Int64,
    team: Enums.Team,
    position: Enums.Position,
    jersey: Option<Int64>,
    catches: Option<Enums.Catches>,
    shoots: Option<Enums.Catches>,
    height: Int64,
    weight: Int64,
    birthDate: string,
    birthCity: string,
    birthState: Option<string>,
    photoUrl: string,
    sportRadarPlayerId: string,
    rotoworldPlayerId: Option<Int64>,
    rotoWirePlayerId: Option<Int64>,
    fantasyAlarmPlayerId: Option<Int64>,
    statsPlayerId: Option<Int64>,
    sportsDirectPlayerId: Option<Int64>,
    xmlTeamPlayerId: Option<Int64>,
    injuryStatus: Enums.Injury,
    injuryBodyPart: Enums.Injury,
    injuryStartDate: Option<JsonValue>,
    injuryNotes: Enums.Injury,
    fanDuelPlayerId: Option<Int64>,
    draftKingsPlayerId: Option<Int64>,
    yahooPlayerId: Option<Int64>,
    fanDuelName: Option<string>,
    draftKingsName: Option<string>,
    yahooName: Option<string>,
    depthChartPosition: Option<Enums.Position>,
    depthChartOrder: Option<Int64>,
    globalTeamId: Int64,
    fantasyDraftName: Option<string>,
    fantasyDraftPlayerId: Option<Int64>,
    usaTodayPlayerId: Option<Int64>,
    usaTodayHeadshotUrl: Option<string>,
    usaTodayHeadshotNoBackgroundUrl: Option<string>,
    usaTodayHeadshotUpdated: Option<string>,
    usaTodayHeadshotNoBackgroundUpdated: Option<string>
  )

  /** The roster as a whole. */
  type Players = seq<Player>

  // ---------------------------------------------------------------------------
  // Serialization
  // ---------------------------------------------------------------------------

  /** The JSON a field of the record serializes to. */
  function FieldValue(p: Player, f: Field): JsonValue {
    match f
    case PlayerId => EncodeInt64(p.playerId)
    case FirstName => EncodeString(p.firstName)
    case LastName => EncodeString(p.lastName)
    case Status => Enums.EncodeStatus(p.status)
    case TeamId => EncodeInt64(p.teamId)
    case Team => Enums.EncodeTeam(p.team)
    case Position => Enums.EncodePosition(p.position)
    case Jersey => EncodeOptional(p.jersey, EncodeInt64)
    case Catches => EncodeOptional(p.catches, Enums.EncodeCatches)
    case Shoots => EncodeOptional(p.shoots, Enums.EncodeCatches)
    case Height => EncodeInt64(p.height)
    case Weight => EncodeInt64(p.weight)
    case BirthDate => EncodeString(p.birthDate)
    case BirthCity => EncodeString(p.birthCity)
    case BirthState => EncodeOptional(p.birthState, EncodeString)
    case PhotoUrl => EncodeString(p.photoUrl)
    case SportRadarPlayerId => EncodeString(p.sportRadarPlayerId)
    case RotoworldPlayerId => EncodeOptional(p.rotoworldPlayerId, EncodeInt64)
    case RotoWirePlayerId => EncodeOptional(p.rotoWirePlayerId, EncodeInt64)
    case FantasyAlarmPlayerId => EncodeOptional(p.fantasyAlarmPlayerId, EncodeInt64)
    case StatsPlayerId => EncodeOptional(p.statsPlayerId, EncodeInt64)
    case SportsDirectPlayerId => EncodeOptional(p.sportsDirectPlayerId, EncodeInt64)
    case XmlTeamPlayerId => EncodeOptional(p.xmlTeamPlayerId, EncodeInt64)
    case InjuryStatus => Enums.EncodeInjury(p.injuryStatus)
    case InjuryBodyPart => Enums.EncodeInjury(p.injuryBodyPart)
    case InjuryStartDate => EncodeOptional(p.injuryStartDate, EncodeAny)
    case InjuryNotes => Enums.EncodeInjury(p.injuryNotes)
    case FanDuelPlayerId => EncodeOptional(p.fanDuelPlayerId, EncodeInt64)
    case DraftKingsPlayerId => EncodeOptional(p.draftKingsPlayerId, EncodeInt64)
    case YahooPlayerId => EncodeOptional(p.yahooPlayerId, EncodeInt64)
    case FanDuelName => EncodeOptional(p.fanDuelName, EncodeString)
    case DraftKingsName => EncodeOptional(p.draftKingsName, EncodeString)
    case YahooName => EncodeOptional(p.yahooName, EncodeString)
    case DepthChartPosition => EncodeOptional(p.depthChartPosition, Enums.EncodePosition)
    case DepthChartOrder => EncodeOptional(p.depthChartOrder, EncodeInt64)
    case GlobalTeamId => EncodeInt64(p.globalTeamId)
    case FantasyDraftName => EncodeOptional(p.fantasyDraftName, EncodeString)
    case FantasyDraftPlayerId => EncodeOptional(p.fantasyDraftPlayerId, EncodeInt64)
    case UsaTodayPlayerId => EncodeOptional(p.usaTodayPlayerId, EncodeInt64)
    case UsaTodayHeadshotUrl => EncodeOptional(p.usaTodayHeadshotUrl, EncodeString)
    case UsaTodayHeadshotNoBackgroundUrl => EncodeOptional(p.usaTodayHeadshotNoBackgroundUrl, EncodeString)
    case UsaTodayHeadshotUpdated => EncodeOptional(p.usaTodayHeadshotUpdated, EncodeString)
    case UsaTodayHeadshotNoBackgroundUpdated => EncodeOptional(p.usaTodayHeadshotNoBackgroundUpdated, EncodeString)
  }

  /** The record serializes as an object holding every field, `None` as `null`, in
      declaration order. */
  function EncodePlayer(p: Player): JsonValue {
    Object(seq(FieldCount, i requires 0 <= i < FieldCount => (Key(FieldAt(i)), FieldValue(p, FieldAt(i)))))
  }

  function EncodePlayers(ps: Players): JsonValue {
    Array(seq(|ps|, i requires 0 <= i < |ps| => EncodePlayer(ps[i])))
  }

  // ---------------------------------------------------------------------------
  // Deserialization
  // ---------------------------------------------------------------------------

  function Get(slots: map<Field, JsonValue>, f: Field): Option<JsonValue> {
    if f in slots then Some(slots[f]) else None
  }

  /** From the raw value of each field, the record: a field that is not an `Option`
      must be present and decode; an `Option` field may be absent or `null`. The record
      is built when every field decodes. */
  function BuildPlayer(slots: map<Field, JsonValue>): Option<Player> {
    var playerId := RequiredSlot(Get(slots, PlayerId), DecodeInt64);
    var firstName := RequiredSlot(Get(slots, FirstName), DecodeString);
    var lastName := RequiredSlot(Get(slots, LastName), DecodeString);
    var status := RequiredSlot(Get(slots, Status), Enums.DecodeStatus);
    var teamId := RequiredSlot(Get(slots, TeamId), DecodeInt64);
    var team := RequiredSlot(Get(slots, Team), Enums.DecodeTeam);
    var position := RequiredSlot(Get(slots, Position), Enums.DecodePosition);
    var jersey := OptionalSlot(Get(slots, Jersey), DecodeInt64);
    var catches := OptionalSlot(Get(slots, Catches), Enums.DecodeCatches);
    var shoots := OptionalSlot(Get(slots, Shoots), Enums.DecodeCatches);
    var height := RequiredSlot(Get(slots, Height), DecodeInt64);
    var weight := RequiredSlot(Get(slots, Weight), DecodeInt64);
    var birthDate := RequiredSlot(Get(slots, BirthDate), DecodeString);
    var birthCity := RequiredSlot(Get(slots, BirthCity), DecodeString);
    var birthState := OptionalSlot(Get(slots, BirthState), DecodeString);
    var photoUrl := RequiredSlot(Get(slots, PhotoUrl), DecodeString);
    var sportRadarPlayerId := RequiredSlot(Get(slots, SportRadarPlayerId), DecodeString);
    var rotoworldPlayerId := OptionalSlot(Get(slots, RotoworldPlayerId), DecodeInt64);
    var rotoWirePlayerId := OptionalSlot(Get(slots, RotoWirePlayerId), DecodeInt64);
    var fantasyAlarmPlayerId := OptionalSlot(Get(slots, FantasyAlarmPlayerId), DecodeInt64);
    var statsPlayerId := OptionalSlot(Get(slots, StatsPlayerId), DecodeInt64);
    var sportsDirectPlayerId := OptionalSlot(Get(slots, SportsDirectPlayerId), DecodeInt64);
    var xmlTeamPlayerId := OptionalSlot(Get(slots, XmlTeamPlayerId), DecodeInt64);
    var injuryStatus := RequiredSlot(Get(slots, InjuryStatus), Enums.DecodeInjury);
    var injuryBodyPart := RequiredSlot(Get(slots, InjuryBodyPart), Enums.DecodeInjury);
    var injuryStartDate := OptionalSlot(Get(slots, InjuryStartDate), DecodeAny);
    var injuryNotes := RequiredSlot(Get(slots, InjuryNotes), Enums.DecodeInjury);
    var fanDuelPlayerId := OptionalSlot(Get(slots, FanDuelPlayerId), DecodeInt64);
    var draftKingsPlayerId := OptionalSlot(Get(slots, DraftKingsPlayerId), DecodeInt64);
    var yahooPlayerId := OptionalSlot(Get(slots, YahooPlayerId), DecodeInt64);
    var fanDuelName := OptionalSlot(Get(slots, FanDuelName), DecodeString);
    var draftKingsName := OptionalSlot(Get(slots, DraftKingsName), DecodeString);
    var yahooName := OptionalSlot(Get(slots, YahooName), DecodeString);
    var depthChartPosition := OptionalSlot(Get(slots, DepthChartPosition), Enums.DecodePosition);
    var depthChartOrder := OptionalSlot(Get(slots, DepthChartOrder), DecodeInt64);
    var globalTeamId := RequiredSlot(Get(slots, GlobalTeamId), DecodeInt64);
    var fantasyDraftName := OptionalSlot(Get(slots, FantasyDraftName), DecodeString);
    var fantasyDraftPlayerId := OptionalSlot(Get(slots, FantasyDraftPlayerId), DecodeInt64);
    var usaTodayPlayerId := OptionalSlot(Get(slots, UsaTodayPlayerId), DecodeInt64);
    var usaTodayHeadshotUrl := OptionalSlot(Get(slots, UsaTodayHeadshotUrl), DecodeString);
    var usaTodayHeadshotNoBackgroundUrl := OptionalSlot(Get(slots, UsaTodayHeadshotNoBackgroundUrl), DecodeString);
    var usaTodayHeadshotUpdated := OptionalSlot(Get(slots, UsaTodayHeadshotUpdated), DecodeString);
    var usaTodayHeadshotNoBackgroundUpdated := OptionalSlot(Get(slots, UsaTodayHeadshotNoBackgroundUpdated), DecodeString);
    if playerId.Some?
       && firstName.Some?
       && lastName.Some?
       && status.Some?
       && teamId.Some?
       && team.Some?
       && position.Some?
       && jersey.Some?
       && catches.Some?
       && shoots.Some?
       && height.Some?
       && weight.Some?
       && birthDate.Some?
       && birthCity.Some?
       && birthState.Some?
       && photoUrl.Some?
       && sportRadarPlayerId.Some?
       && rotoworldPlayerId.Some?
       && rotoWirePlayerId.Some?
       && fantasyAlarmPlayerId.Some?
       && statsPlayerId.Some?
       && sportsDirectPlayerId.Some?
       && xmlTeamPlayerId.Some?
       && injuryStatus.Some?
       && injuryBodyPart.Some?
       && injuryStartDate.Some?
       && injuryNotes.Some?
       && fanDuelPlayerId.Some?
       && draftKingsPlayerId.Some?
       && yahooPlayerId.Some?
       && fanDuelName.Some?
       && draftKingsName.Some?
       && yahooName.Some?
       && depthChartPosition.Some?
       && depthChartOrder.Some?
       && globalTeamId.Some?
       && fantasyDraftName.Some?
       && fantasyDraftPlayerId.Some?
       && usaTodayPlayerId.Some?
       && usaTodayHeadshotUrl.Some?
       && usaTodayHeadshotNoBackgroundUrl.Some?
       && usaTodayHeadshotUpdated.Some?
       && usaTodayHeadshotNoBackgroundUpdated.Some?
    then Some(Player(playerId.value,
                     firstName.value,
                     lastName.value,
                     status.value,
                     teamId.value,
                     team.value,
                     position.value,
                     jersey.value,
                     catches.value,
                     shoots.value,
                     height.value,
                     weight.value,
                     birthDate.value,
                     birthCity.value,
                     birthState.value,
                     photoUrl.value,
                     sportRadarPlayerId.value,
                     rotoworldPlayerId.value,
                     rotoWirePlayerId.value,
                     fantasyAlarmPlayerId.value,
                     statsPlayerId.value,
                     sportsDirectPlayerId.value,
                     xmlTeamPlayerId.value,
                     injuryStatus.value,
                     injuryBodyPart.value,
                     injuryStartDate.value,
                     injuryNotes.value,
                     fanDuelPlayerId.value,
                     draftKingsPlayerId.value,
                     yahooPlayerId.value,
                     fanDuelName.value,
                     draftKingsName.value,
                     yahooName.value,
                     depthChartPosition.value,
                     depthChartOrder.value,
                     globalTeamId.value,
                     fantasyDraftName.value,
                     fantasyDraftPlayerId.value,
                     usaTodayPlayerId.value,
                     usaTodayHeadshotUrl.value,
                     usaTodayHeadshotNoBackgroundUrl.value,
                     usaTodayHeadshotUpdated.value,
                     usaTodayHeadshotNoBackgroundUpdated.value))
    else None
  }

  /** The object form: entries are visited in order; an entry whose key names no field
      is skipped; a second entry for a field already seen is a duplicate-field error. */
  function CollectSlots(entries: seq<(string, JsonValue)>, seen: map<Field, JsonValue>): Option<map<Field, JsonValue>>
    decreases |entries|
  {
    if entries == [] then Some(seen)
    else
      match FieldOfKey(entries[0].0)
      case None => CollectSlots(entries[1..], seen)
      case Some(f) => if f in seen then None else CollectSlots(entries[1..], seen[f := entries[0].1])
  }

  /** The positional form: the i-th element is the value of the i-th field. */
  function PositionalSlots(items: seq<JsonValue>): map<Field, JsonValue>
    requires |items| == FieldCount
  {
    map f | f in AllFields :: items[Index(f)]
  }

  /** A record is read from an object, or from an array listing every field in
      declaration order; anything else is refused. */
  function DecodePlayer(v: JsonValue): Option<Player> {
    match v
    case Object(entries) =>
      var slots :- CollectSlots(entries, map[]);
      BuildPlayer(slots)
    case Array(items) =>
      if |items| == FieldCount then BuildPlayer(PositionalSlots(items)) else None
    case _ => None
  }

  function DecodePlayers(v: JsonValue): Option<Players> {
    match v
    case Array(items) => DecodeElements(items, DecodePlayer)
    case _ => None
  }

  // ---------------------------------------------------------------------------
  // Building the record from its field slots
  // ---------------------------------------------------------------------------

  /** A `serde_json::Value` holding `null` serializes as `null` and so comes back as
      `None`: the records deserialization can produce are the ones without it. */
  predicate WellFormed(p: Player) {
    p.injuryStartDate != Some(Null)
  }

  /** What a record becomes after one serialization and deserialization. */
  function Normalize(p: Player): Player {
    if p.injuryStartDate == Some(Null) then p.(injuryStartDate := None) else p
  }

  /** Slot `f` decodes to the value the record `p` has in field `f`. */
  ghost predicate DecodesTo(slots: map<Field, JsonValue>, p: Player, f: Field) {
    match f
    case PlayerId => RequiredSlot(Get(slots, PlayerId), DecodeInt64) == Some(p.playerId)
    case FirstName => RequiredSlot(Get(slots, FirstName), DecodeString) == Some(p.firstName)
    case LastName => RequiredSlot(Get(slots, LastName), DecodeString) == Some(p.lastName)
    case Status => RequiredSlot(Get(slots, Status), Enums.DecodeStatus) == Some(p.status)
    case TeamId => RequiredSlot(Get(slots, TeamId), DecodeInt64) == Some(p.teamId)
    case Team => RequiredSlot(Get(slots, Team), Enums.DecodeTeam) == Some(p.team)
    case Position => RequiredSlot(Get(slots, Position), Enums.DecodePosition) == Some(p.position)
    case Jersey => OptionalSlot(Get(slots, Jersey), DecodeInt64) == Some(p.jersey)
    case Catches => OptionalSlot(Get(slots, Catches), Enums.DecodeCatches) == Some(p.catches)
    case Shoots => OptionalSlot(Get(slots, Shoots), Enums.DecodeCatches) == Some(p.shoots)
    case Height => RequiredSlot(Get(slots, Height), DecodeInt64) == Some(p.height)
    case Weight => RequiredSlot(Get(slots, Weight), DecodeInt64) == Some(p.weight)
    case BirthDate => RequiredSlot(Get(slots, BirthDate), DecodeString) == Some(p.birthDate)
    case BirthCity => RequiredSlot(Get(slots, BirthCity), DecodeString) == Some(p.birthCity)
    case BirthState => OptionalSlot(Get(slots, BirthState), DecodeString) == Some(p.birthState)
    case PhotoUrl => RequiredSlot(Get(slots, PhotoUrl), DecodeString) == Some(p.photoUrl)
    case SportRadarPlayerId => RequiredSlot(Get(slots, SportRadarPlayerId), DecodeString) == Some(p.sportRadarPlayerId)
    case RotoworldPlayerId => OptionalSlot(Get(slots, RotoworldPlayerId), DecodeInt64) == Some(p.rotoworldPlayerId)
    case RotoWirePlayerId => OptionalSlot(Get(slots, RotoWirePlayerId), DecodeInt64) == Some(p.rotoWirePlayerId)
    case FantasyAlarmPlayerId => OptionalSlot(Get(slots, FantasyAlarmPlayerId), DecodeInt64) == Some(p.fantasyAlarmPlayerId)
    case StatsPlayerId => OptionalSlot(Get(slots, StatsPlayerId), DecodeInt64) == Some(p.statsPlayerId)
    case SportsDirectPlayerId => OptionalSlot(Get(slots, SportsDirectPlayerId), DecodeInt64) == Some(p.sportsDirectPlayerId)
    case XmlTeamPlayerId => OptionalSlot(Get(slots, XmlTeamPlayerId), DecodeInt64) == Some(p.xmlTeamPlayerId)
    case InjuryStatus => RequiredSlot(Get(slots, InjuryStatus), Enums.DecodeInjury) == Some(p.injuryStatus)
    case InjuryBodyPart => RequiredSlot(Get(slots, InjuryBodyPart), Enums.DecodeInjury) == Some(p.injuryBodyPart)
    case InjuryStartDate => OptionalSlot(Get(slots, InjuryStartDate), DecodeAny) == Some(p.injuryStartDate)
    case InjuryNotes => RequiredSlot(Get(slots, InjuryNotes), Enums.DecodeInjury) == Some(p.injuryNotes)
    case FanDuelPlayerId => OptionalSlot(Get(slots, FanDuelPlayerId), DecodeInt64) == Some(p.fanDuelPlayerId)
    case DraftKingsPlayerId => OptionalSlot(Get(slots, DraftKingsPlayerId), DecodeInt64) == Some(p.draftKingsPlayerId)
    case YahooPlayerId => OptionalSlot(Get(slots, YahooPlayerId), DecodeInt64) == Some(p.yahooPlayerId)
    case FanDuelName => OptionalSlot(Get(slots, FanDuelName), DecodeString) == Some(p.fanDuelName)
    case DraftKingsName => OptionalSlot(Get(slots, DraftKingsName), DecodeString) == Some(p.draftKingsName)
    case YahooName => OptionalSlot(Get(slots, YahooName), DecodeString) == Some(p.yahooName)
    case DepthChartPosition => OptionalSlot(Get(slots, DepthChartPosition), Enums.DecodePosition) == Some(p.depthChartPosition)
    case DepthChartOrder => OptionalSlot(Get(slots, DepthChartOrder), DecodeInt64) == Some(p.depthChartOrder)
    case GlobalTeamId => RequiredSlot(Get(slots, GlobalTeamId), DecodeInt64) == Some(p.globalTeamId)
    case FantasyDraftName => OptionalSlot(Get(slots, FantasyDraftName), DecodeString) == Some(p.fantasyDraftName)
    case FantasyDraftPlayerId => OptionalSlot(Get(slots, FantasyDraftPlayerId), DecodeInt64) == Some(p.fantasyDraftPlayerId)
    case UsaTodayPlayerId => OptionalSlot(Get(slots, UsaTodayPlayerId), DecodeInt64) == Some(p.usaTodayPlayerId)
    case UsaTodayHeadshotUrl => OptionalSlot(Get(slots, UsaTodayHeadshotUrl), DecodeString) == Some(p.usaTodayHeadshotUrl)
    case UsaTodayHeadshotNoBackgroundUrl => OptionalSlot(Get(slots, UsaTodayHeadshotNoBackgroundUrl), DecodeString) == Some(p.usaTodayHeadshotNoBackgroundUrl)
    case UsaTodayHeadshotUpdated => OptionalSlot(Get(slots, UsaTodayHeadshotUpdated), DecodeString) == Some(p.usaTodayHeadshotUpdated)
    case UsaTodayHeadshotNoBackgroundUpdated => OptionalSlot(Get(slots, UsaTodayHeadshotNoBackgroundUpdated), DecodeString) == Some(p.usaTodayHeadshotNoBackgroundUpdated)
  }

  lemma BuildFieldwise(slots: map<Field, JsonValue>, p: Player)
    ensures BuildPlayer(slots) == Some(p) <==> forall f :: DecodesTo(slots, p, f)
  {
    if BuildPlayer(slots) == Some(p) {
      BuiltDecodes(slots, p);
    }
    if forall f :: DecodesTo(slots, p, f) {
      DecodesBuild(slots, p);
    }
  }

  lemma BuiltDecodes(slots: map<Field, JsonValue>, p: Player)
    requires BuildPlayer(slots) == Some(p)
    ensures forall f :: DecodesTo(slots, p, f)
  {
    AllDecodeBuild(slots, p);
    forall f ensures DecodesTo(slots, p, f) {
      DecodesFromAll(slots, p, f);
    }
  }

  lemma DecodesFromAll(slots: map<Field, JsonValue>, p: Player, f: Field)
    requires AllDecode(slots, p)
    ensures DecodesTo(slots, p, f)
  {
    if f == PlayerId || f == FirstName || f == LastName { DecodesFromAllA(slots, p, f); }
    else if f == Status || f == TeamId || f == Team { DecodesFromAllB(slots, p, f); }
    else if f == Position || f == Jersey || f == Catches { DecodesFromAllC(slots, p, f); }
    else if f == Shoots || f == Height || f == Weight { DecodesFromAllD(slots, p, f); }
    else if f == BirthDate || f == BirthCity || f == BirthState { DecodesFromAllE(slots, p, f); }
    else if f == PhotoUrl || f == SportRadarPlayerId || f == RotoworldPlayerId { DecodesFromAllF(slots, p, f); }
    else if f == RotoWirePlayerId || f == FantasyAlarmPlayerId || f == StatsPlayerId { DecodesFromAllG(slots, p, f); }
    else if f == SportsDirectPlayerId || f == XmlTeamPlayerId || f == InjuryStatus { DecodesFromAllH(slots, p, f); }
    else if f == InjuryBodyPart || f == InjuryStartDate || f == InjuryNotes { DecodesFromAllI(slots, p, f); }
    else if f == FanDuelPlayerId || f == DraftKingsPlayerId || f == YahooPlayerId { DecodesFromAllJ(slots, p, f); }
    else if f == FanDuelName || f == DraftKingsName || f == YahooName { DecodesFromAllK(slots, p, f); }
    else if f == DepthChartPosition || f == DepthChartOrder || f == GlobalTeamId { DecodesFromAllL(slots, p, f); }
    else if f == FantasyDraftName || f == FantasyDraftPlayerId || f == UsaTodayPlayerId { DecodesFromAllM(slots, p, f); }
    else if f == UsaTodayHeadshotUrl || f == UsaTodayHeadshotNoBackgroundUrl || f == UsaTodayHeadshotUpdated { DecodesFromAllN(slots, p, f); }
    else { DecodesFromAllO(slots, p, f); }
  }


  lemma DecodesFromAllA(slots: map<Field, JsonValue>, p: Player, f: Field)
    requires f == PlayerId || f == FirstName || f == LastName
    requires AllDecode(slots, p)
    ensures DecodesTo(slots, p, f)
  {
    match f
    case PlayerId =>
    case FirstName =>
    case LastName =>
    case _ =>
  }

  lemma DecodesFromAllB(slots: map<Field, JsonValue>, p: Player, f: Field)
    requires f == Status || f == TeamId || f == Team
    requires AllDecode(slots, p)
    ensures DecodesTo(slots, p, f)
  {
    match f
    case Status =>
    case TeamId =>
    case Team =>
    case _ =>
  }

  lemma DecodesFromAllC(slots: map<Field, JsonValue>, p: Player, f: Field)
    requires f == Position || f == Jersey || f == Catches
    requires AllDecode(slots, p)
    ensures DecodesTo(slots, p, f)
  {
    match f
    case Position =>
    case Jersey =>
    case Catches =>
    case _ =>
  }

  lemma DecodesFromAllD(slots: map<Field, JsonValue>, p: Player, f: Field)
    requires f == Shoots || f == Height || f == Weight
    requires AllDecode(slots, p)
    ensures DecodesTo(slots, p, f)
  {
    match f
    case Shoots =>
    case Height =>
    case Weight =>
    case _ =>
  }

  lemma DecodesFromAllE(slots: map<Field, JsonValue>, p: Player, f: Field)
    requires f == BirthDate || f == BirthCity || f == BirthState
    requires AllDecode(slots, p)
    ensures DecodesTo(slots, p, f)
  {
    match f
    case BirthDate =>
    case BirthCity =>
    case BirthState =>
    case _ =>
  }

  lemma DecodesFromAllF(slots: map<Field, JsonValue>, p: Player, f: Field)
    requires f == PhotoUrl || f == SportRadarPlayerId || f == RotoworldPlayerId
    requires AllDecode(slots, p)
    ensures DecodesTo(slots, p, f)
  {
    match f
    case PhotoUrl =>
    case SportRadarPlayerId =>
    case RotoworldPlayerId =>
    case _ =>
  }

  lemma DecodesFromAllG(slots: map<Field, JsonValue>, p: Player, f: Field)
    requires f == RotoWirePlayerId || f == FantasyAlarmPlayerId || f == StatsPlayerId
    requires AllDecode(slots, p)
    ensures DecodesTo(slots, p, f)
  {
    match f
    case RotoWirePlayerId =>
    case FantasyAlarmPlayerId =>
    case StatsPlayerId =>
    case _ =>
  }

  lemma DecodesFromAllH(slots: map<Field, JsonValue>, p: Player, f: Field)
    requires f == SportsDirectPlayerId || f == XmlTeamPlayerId || f == InjuryStatus
    requires AllDecode(slots, p)
    ensures DecodesTo(slots, p, f)
  {
    match f
    case SportsDirectPlayerId =>
    case XmlTeamPlayerId =>
    case InjuryStatus =>
    case _ =>
  }

  lemma DecodesFromAllI(slots: map<Field, JsonValue>, p: Player, f: Field)
    requires f == InjuryBodyPart || f == InjuryStartDate || f == InjuryNotes
    requires AllDecode(slots, p)
    ensures DecodesTo(slots, p, f)
  {
    match f
    case InjuryBodyPart =>
    case InjuryStartDate =>
    case InjuryNotes =>
    case _ =>
  }

  lemma DecodesFromAllJ(slots: map<Field, JsonValue>, p: Player, f: Field)
    requires f == FanDuelPlayerId || f == DraftKingsPlayerId || f == YahooPlayerId
    requires AllDecode(slots, p)
    ensures DecodesTo(slots, p, f)
  {
    match f
    case FanDuelPlayerId =>
    case DraftKingsPlayerId =>
    case YahooPlayerId =>
    case _ =>
  }

  lemma DecodesFromAllK(slots: map<Field, JsonValue>, p: Player, f: Field)
    requires f == FanDuelName || f == DraftKingsName || f == YahooName
    requires AllDecode(slots, p)
    ensures DecodesTo(slots, p, f)
  {
    match f
    case FanDuelName =>
    case DraftKingsName =>
    case YahooName =>
    case _ =>
  }

  lemma DecodesFromAllL(slots: map<Field, JsonValue>, p: Player, f: Field)
    requires f == DepthChartPosition || f == DepthChartOrder || f == GlobalTeamId
    requires AllDecode(slots, p)
    ensures DecodesTo(slots, p, f)
  {
    match f
    case DepthChartPosition =>
    case DepthChartOrder =>
    case GlobalTeamId =>
    case _ =>
  }

  lemma DecodesFromAllM(slots: map<Field, JsonValue>, p: Player, f: Field)
    requires f == FantasyDraftName || f == FantasyDraftPlayerId || f == UsaTodayPlayerId
    requires AllDecode(slots, p)
    ensures DecodesTo(slots, p, f)
  {
    match f
    case FantasyDraftName =>
    case FantasyDraftPlayerId =>
    case UsaTodayPlayerId =>
    case _ =>
  }

  lemma DecodesFromAllN(slots: map<Field, JsonValue>, p: Player, f: Field)
    requires f == UsaTodayHeadshotUrl || f == UsaTodayHeadshotNoBackgroundUrl || f == UsaTodayHeadshotUpdated
    requires AllDecode(slots, p)
    ensures DecodesTo(slots, p, f)
  {
    match f
    case UsaTodayHeadshotUrl =>
    case UsaTodayHeadshotNoBackgroundUrl =>
    case UsaTodayHeadshotUpdated =>
    case _ =>
  }

  lemma DecodesFromAllO(slots: map<Field, JsonValue>, p: Player, f: Field)
    requires f == UsaTodayHeadshotNoBackgroundUpdated
    requires AllDecode(slots, p)
    ensures DecodesTo(slots, p, f)
  {
    match f
    case UsaTodayHeadshotNoBackgroundUpdated =>
    case _ =>
  }


  lemma DecodesBuild(slots: map<Field, JsonValue>, p: Player)
    requires forall f :: DecodesTo(slots, p, f)
    ensures BuildPlayer(slots) == Some(p)
  {
    DecodesGroupA(slots, p);
    DecodesGroupB(slots, p);
    DecodesGroupC(slots, p);
    DecodesGroupD(slots, p);
    DecodesGroupE(slots, p);
    DecodesGroupF(slots, p);
    DecodesGroupG(slots, p);
    DecodesGroupH(slots, p);
    DecodesGroupI(slots, p);
    DecodesGroupJ(slots, p);
    DecodesGroupK(slots, p);
    DecodesGroupL(slots, p);
    DecodesGroupM(slots, p);
    DecodesGroupN(slots, p);
    DecodesGroupO(slots, p);
    DecodesGroupP(slots, p);
    DecodesGroupQ(slots, p);
    DecodesGroupR(slots, p);
    DecodesGroupS(slots, p);
    DecodesGroupT(slots, p);
    DecodesGroupU(slots, p);
    DecodesGroupV(slots, p);
    AllDecodeBuild(slots, p);
  }


  lemma DecodesGroupA(slots: map<Field, JsonValue>, p: Player)
    requires forall f :: DecodesTo(slots, p, f)
    ensures RequiredSlot(Get(slots, PlayerId), DecodeInt64) == Some(p.playerId)
    ensures RequiredSlot(Get(slots, FirstName), DecodeString) == Some(p.firstName)
  {
    assert DecodesTo(slots, p, PlayerId);
    assert DecodesTo(slots, p, FirstName);
  }

  lemma DecodesGroupB(slots: map<Field, JsonValue>, p: Player)
    requires forall f :: DecodesTo(slots, p, f)
    ensures RequiredSlot(Get(slots, LastName), DecodeString) == Some(p.lastName)
    ensures RequiredSlot(Get(slots, Status), Enums.DecodeStatus) == Some(p.status)
  {
    assert DecodesTo(slots, p, LastName);
    assert DecodesTo(slots, p, Status);
  }

  lemma DecodesGroupC(slots: map<Field, JsonValue>, p: Player)
    requires forall f :: DecodesTo(slots, p, f)
    ensures RequiredSlot(Get(slots, TeamId), DecodeInt64) == Some(p.teamId)
    ensures RequiredSlot(Get(slots, Team), Enums.DecodeTeam) == Some(p.team)
  {
    assert DecodesTo(slots, p, TeamId);
    assert DecodesTo(slots, p, Team);
  }

  lemma DecodesGroupD(slots: map<Field, JsonValue>, p: Player)
    requires forall f :: DecodesTo(slots, p, f)
    ensures RequiredSlot(Get(slots, Position), Enums.DecodePosition) == Some(p.position)
    ensures OptionalSlot(Get(slots, Jersey), DecodeInt64) == Some(p.jersey)
  {
    assert DecodesTo(slots, p, Position);
    assert DecodesTo(slots, p, Jersey);
  }

  lemma DecodesGroupE(slots: map<Field, JsonValue>, p: Player)
    requires forall f :: DecodesTo(slots, p, f)
    ensures OptionalSlot(Get(slots, Catches), Enums.DecodeCatches) == Some(p.catches)
    ensures OptionalSlot(Get(slots, Shoots), Enums.DecodeCatches) == Some(p.shoots)
  {
    assert DecodesTo(slots, p, Catches);
    assert DecodesTo(slots, p, Shoots);
  }

  lemma DecodesGroupF(slots: map<Field, JsonValue>, p: Player)
    requires forall f :: DecodesTo(slots, p, f)
    ensures RequiredSlot(Get(slots, Height), DecodeInt64) == Some(p.height)
    ensures RequiredSlot(Get(slots, Weight), DecodeInt64) == Some(p.weight)
  {
    assert DecodesTo(slots, p, Height);
    assert DecodesTo(slots, p, Weight);
  }

  lemma DecodesGroupG(slots: map<Field, JsonValue>, p: Player)
    requires forall f :: DecodesTo(slots, p, f)
    ensures RequiredSlot(Get(slots, BirthDate), DecodeString) == Some(p.birthDate)
    ensures RequiredSlot(Get(slots, BirthCity), DecodeString) == Some(p.birthCity)
  {
    assert DecodesTo(slots, p, BirthDate);
    assert DecodesTo(slots, p, BirthCity);
  }

  lemma DecodesGroupH(slots: map<Field, JsonValue>, p: Player)
    requires forall f :: DecodesTo(slots, p, f)
    ensures OptionalSlot(Get(slots, BirthState), DecodeString) == Some(p.birthState)
    ensures RequiredSlot(Get(slots, PhotoUrl), DecodeString) == Some(p.photoUrl)
  {
    assert DecodesTo(slots, p, BirthState);
    assert DecodesTo(slots, p, PhotoUrl);
  }

  lemma DecodesGroupI(slots: map<Field, JsonValue>, p: Player)
    requires forall f :: DecodesTo(slots, p, f)
    ensures RequiredSlot(Get(slots, SportRadarPlayerId), DecodeString) == Some(p.sportRadarPlayerId)
    ensures OptionalSlot(Get(slots, RotoworldPlayerId), DecodeInt64) == Some(p.rotoworldPlayerId)
  {
    assert DecodesTo(slots, p, SportRadarPlayerId);
    assert DecodesTo(slots, p, RotoworldPlayerId);
  }

  lemma DecodesGroupJ(slots: map<Field, JsonValue>, p: Player)
    requires forall f :: DecodesTo(slots, p, f)
    ensures OptionalSlot(Get(slots, RotoWirePlayerId), DecodeInt64) == Some(p.rotoWirePlayerId)
    ensures OptionalSlot(Get(slots, FantasyAlarmPlayerId), DecodeInt64) == Some(p.fantasyAlarmPlayerId)
  {
    assert DecodesTo(slots, p, RotoWirePlayerId);
    assert DecodesTo(slots, p, FantasyAlarmPlayerId);
  }

  lemma DecodesGroupK(slots: map<Field, JsonValue>, p: Player)
    requires forall f :: DecodesTo(slots, p, f)
    ensures OptionalSlot(Get(slots, StatsPlayerId), DecodeInt64) == Some(p.statsPlayerId)
    ensures OptionalSlot(Get(slots, SportsDirectPlayerId), DecodeInt64) == Some(p.sportsDirectPlayerId)
  {
    assert DecodesTo(slots, p, StatsPlayerId);
    assert DecodesTo(slots, p, SportsDirectPlayerId);
  }

  lemma DecodesGroupL(slots: map<Field, JsonValue>, p: Player)
    requires forall f :: DecodesTo(slots, p, f)
    ensures OptionalSlot(Get(slots, XmlTeamPlayerId), DecodeInt64) == Some(p.xmlTeamPlayerId)
    ensures RequiredSlot(Get(slots, InjuryStatus), Enums.DecodeInjury) == Some(p.injuryStatus)
  {
    assert DecodesTo(slots, p, XmlTeamPlayerId);
    assert DecodesTo(slots, p, InjuryStatus);
  }

  lemma DecodesGroupM(slots: map<Field, JsonValue>, p: Player)
    requires forall f :: DecodesTo(slots, p, f)
    ensures RequiredSlot(Get(slots, InjuryBodyPart), Enums.DecodeInjury) == Some(p.injuryBodyPart)
    ensures OptionalSlot(Get(slots, InjuryStartDate), DecodeAny) == Some(p.injuryStartDate)
  {
    assert DecodesTo(slots, p, InjuryBodyPart);
    assert DecodesTo(slots, p, InjuryStartDate);
  }

  lemma DecodesGroupN(slots: map<Field, JsonValue>, p: Player)
    requires forall f :: DecodesTo(slots, p, f)
    ensures RequiredSlot(Get(slots, InjuryNotes), Enums.DecodeInjury) == Some(p.injuryNotes)
    ensures OptionalSlot(Get(slots, FanDuelPlayerId), DecodeInt64) == Some(p.fanDuelPlayerId)
  {
    assert DecodesTo(slots, p, InjuryNotes);
    assert DecodesTo(slots, p, FanDuelPlayerId);
  }

  lemma DecodesGroupO(slots: map<Field, JsonValue>, p: Player)
    requires forall f :: DecodesTo(slots, p, f)
    ensures OptionalSlot(Get(slots, DraftKingsPlayerId), DecodeInt64) == Some(p.draftKingsPlayerId)
    ensures OptionalSlot(Get(slots, YahooPlayerId), DecodeInt64) == Some(p.yahooPlayerId)
  {
    assert DecodesTo(slots, p, DraftKingsPlayerId);
    assert DecodesTo(slots, p, YahooPlayerId);
  }

  lemma DecodesGroupP(slots: map<Field, JsonValue>, p: Player)
    requires forall f :: DecodesTo(slots, p, f)
    ensures OptionalSlot(Get(slots, FanDuelName), DecodeString) == Some(p.fanDuelName)
    ensures OptionalSlot(Get(slots, DraftKingsName), DecodeString) == Some(p.draftKingsName)
  {
    assert DecodesTo(slots, p, FanDuelName);
    assert DecodesTo(slots, p, DraftKingsName);
  }

  lemma DecodesGroupQ(slots: map<Field, JsonValue>, p: Player)
    requires forall f :: DecodesTo(slots, p, f)
    ensures OptionalSlot(Get(slots, YahooName), DecodeString) == Some(p.yahooName)
    ensures OptionalSlot(Get(slots, DepthChartPosition), Enums.DecodePosition) == Some(p.depthChartPosition)
  {
    assert DecodesTo(slots, p, YahooName);
    assert DecodesTo(slots, p, DepthChartPosition);
  }

  lemma DecodesGroupR(slots: map<Field, JsonValue>, p: Player)
    requires forall f :: DecodesTo(slots, p, f)
    ensures OptionalSlot(Get(slots, DepthChartOrder), DecodeInt64) == Some(p.depthChartOrder)
    ensures RequiredSlot(Get(slots, GlobalTeamId), DecodeInt64) == Some(p.globalTeamId)
  {
    assert DecodesTo(slots, p, DepthChartOrder);
    assert DecodesTo(slots, p, GlobalTeamId);
  }

  lemma DecodesGroupS(slots: map<Field, JsonValue>, p: Player)
    requires forall f :: DecodesTo(slots, p, f)
    ensures OptionalSlot(Get(slots, FantasyDraftName), DecodeString) == Some(p.fantasyDraftName)
    ensures OptionalSlot(Get(slots, FantasyDraftPlayerId), DecodeInt64) == Some(p.fantasyDraftPlayerId)
  {
    assert DecodesTo(slots, p, FantasyDraftName);
    assert DecodesTo(slots, p, FantasyDraftPlayerId);
  }

  lemma DecodesGroupT(slots: map<Field, JsonValue>, p: Player)
    requires forall f :: DecodesTo(slots, p, f)
    ensures OptionalSlot(Get(slots, UsaTodayPlayerId), DecodeInt64) == Some(p.usaTodayPlayerId)
    ensures OptionalSlot(Get(slots, UsaTodayHeadshotUrl), DecodeString) == Some(p.usaTodayHeadshotUrl)
  {
    assert DecodesTo(slots, p, UsaTodayPlayerId);
    assert DecodesTo(slots, p, UsaTodayHeadshotUrl);
  }

  lemma DecodesGroupU(slots: map<Field, JsonValue>, p: Player)
    requires forall f :: DecodesTo(slots, p, f)
    ensures OptionalSlot(Get(slots, UsaTodayHeadshotNoBackgroundUrl), DecodeString) == Some(p.usaTodayHeadshotNoBackgroundUrl)
    ensures OptionalSlot(Get(slots, UsaTodayHeadshotUpdated), DecodeString) == Some(p.usaTodayHeadshotUpdated)
  {
    assert DecodesTo(slots, p, UsaTodayHeadshotNoBackgroundUrl);
    assert DecodesTo(slots, p, UsaTodayHeadshotUpdated);
  }

  lemma DecodesGroupV(slots: map<Field, JsonValue>, p: Player)
    requires forall f :: DecodesTo(slots, p, f)
    ensures OptionalSlot(Get(slots, UsaTodayHeadshotNoBackgroundUpdated), DecodeString) == Some(p.usaTodayHeadshotNoBackgroundUpdated)
  {
    assert DecodesTo(slots, p, UsaTodayHeadshotNoBackgroundUpdated);
  }

  ghost predicate AllDecode(slots: map<Field, JsonValue>, p: Player) {
    RequiredSlot(Get(slots, PlayerId), DecodeInt64) == Some(p.playerId)
    && RequiredSlot(Get(slots, FirstName), DecodeString) == Some(p.firstName)
    && RequiredSlot(Get(slots, LastName), DecodeString) == Some(p.lastName)
    && RequiredSlot(Get(slots, Status), Enums.DecodeStatus) == Some(p.status)
    && RequiredSlot(Get(slots, TeamId), DecodeInt64) == Some(p.teamId)
    && RequiredSlot(Get(slots, Team), Enums.DecodeTeam) == Some(p.team)
    && RequiredSlot(Get(slots, Position), Enums.DecodePosition) == Some(p.position)
    && OptionalSlot(Get(slots, Jersey), DecodeInt64) == Some(p.jersey)
    && OptionalSlot(Get(slots, Catches), Enums.DecodeCatches) == Some(p.catches)
    && OptionalSlot(Get(slots, Shoots), Enums.DecodeCatches) == Some(p.shoots)
    && RequiredSlot(Get(slots, Height), DecodeInt64) == Some(p.height)
    && RequiredSlot(Get(slots, Weight), DecodeInt64) == Some(p.weight)
    && RequiredSlot(Get(slots, BirthDate), DecodeString) == Some(p.birthDate)
    && RequiredSlot(Get(slots, BirthCity), DecodeString) == Some(p.birthCity)
    && OptionalSlot(Get(slots, BirthState), DecodeString) == Some(p.birthState)
    && RequiredSlot(Get(slots, PhotoUrl), DecodeString) == Some(p.photoUrl)
    && RequiredSlot(Get(slots, SportRadarPlayerId), DecodeString) == Some(p.sportRadarPlayerId)
    && OptionalSlot(Get(slots, RotoworldPlayerId), DecodeInt64) == Some(p.rotoworldPlayerId)
    && OptionalSlot(Get(slots, RotoWirePlayerId), DecodeInt64) == Some(p.rotoWirePlayerId)
    && OptionalSlot(Get(slots, FantasyAlarmPlayerId), DecodeInt64) == Some(p.fantasyAlarmPlayerId)
    && OptionalSlot(Get(slots, StatsPlayerId), DecodeInt64) == Some(p.statsPlayerId)
    && OptionalSlot(Get(slots, SportsDirectPlayerId), DecodeInt64) == Some(p.sportsDirectPlayerId)
    && OptionalSlot(Get(slots, XmlTeamPlayerId), DecodeInt64) == Some(p.xmlTeamPlayerId)
    && RequiredSlot(Get(slots, InjuryStatus), Enums.DecodeInjury) == Some(p.injuryStatus)
    && RequiredSlot(Get(slots, InjuryBodyPart), Enums.DecodeInjury) == Some(p.injuryBodyPart)
    && OptionalSlot(Get(slots, InjuryStartDate), DecodeAny) == Some(p.injuryStartDate)
    && RequiredSlot(Get(slots, InjuryNotes), Enums.DecodeInjury) == Some(p.injuryNotes)
    && OptionalSlot(Get(slots, FanDuelPlayerId), DecodeInt64) == Some(p.fanDuelPlayerId)
    && OptionalSlot(Get(slots, DraftKingsPlayerId), DecodeInt64) == Some(p.draftKingsPlayerId)
    && OptionalSlot(Get(slots, YahooPlayerId), DecodeInt64) == Some(p.yahooPlayerId)
    && OptionalSlot(Get(slots, FanDuelName), DecodeString) == Some(p.fanDuelName)
    && OptionalSlot(Get(slots, DraftKingsName), DecodeString) == Some(p.draftKingsName)
    && OptionalSlot(Get(slots, YahooName), DecodeString) == Some(p.yahooName)
    && OptionalSlot(Get(slots, DepthChartPosition), Enums.DecodePosition) == Some(p.depthChartPosition)
    && OptionalSlot(Get(slots, DepthChartOrder), DecodeInt64) == Some(p.depthChartOrder)
    && RequiredSlot(Get(slots, GlobalTeamId), DecodeInt64) == Some(p.globalTeamId)
    && OptionalSlot(Get(slots, FantasyDraftName), DecodeString) == Some(p.fantasyDraftName)
    && OptionalSlot(Get(slots, FantasyDraftPlayerId), DecodeInt64) == Some(p.fantasyDraftPlayerId)
    && OptionalSlot(Get(slots, UsaTodayPlayerId), DecodeInt64) == Some(p.usaTodayPlayerId)
    && OptionalSlot(Get(slots, UsaTodayHeadshotUrl), DecodeString) == Some(p.usaTodayHeadshotUrl)
    && OptionalSlot(Get(slots, UsaTodayHeadshotNoBackgroundUrl), DecodeString) == Some(p.usaTodayHeadshotNoBackgroundUrl)
    && OptionalSlot(Get(slots, UsaTodayHeadshotUpdated), DecodeString) == Some(p.usaTodayHeadshotUpdated)
    && OptionalSlot(Get(slots, UsaTodayHeadshotNoBackgroundUpdated), DecodeString) == Some(p.usaTodayHeadshotNoBackgroundUpdated)
  }

  lemma AllDecodeBuild(slots: map<Field, JsonValue>, p: Player)
    ensures BuildPlayer(slots) == Some(p) <==> AllDecode(slots, p)
  {
  }

  lemma DecodesToSpec(slots: map<Field, JsonValue>, p: Player, f: Field)
    ensures DecodesTo(slots, p, f) <==>
              CanonicalSlot(KindOf(f), IsRequired(f), Get(slots, f)) == Some(FieldValue(p, f))
              && (f == InjuryStartDate ==> WellFormed(p))
  {
    if f == PlayerId || f == FirstName || f == LastName { DecodesToSpecA(slots, p, f); }
    else if f == Status || f == TeamId || f == Team { DecodesToSpecB(slots, p, f); }
    else if f == Position || f == Jersey || f == Catches { DecodesToSpecC(slots, p, f); }
    else if f == Shoots || f == Height || f == Weight { DecodesToSpecD(slots, p, f); }
    else if f == BirthDate || f == BirthCity || f == BirthState { DecodesToSpecE(slots, p, f); }
    else if f == PhotoUrl || f == SportRadarPlayerId || f == RotoworldPlayerId { DecodesToSpecF(slots, p, f); }
    else if f == RotoWirePlayerId || f == FantasyAlarmPlayerId || f == StatsPlayerId { DecodesToSpecG(slots, p, f); }
    else if f == SportsDirectPlayerId || f == XmlTeamPlayerId || f == InjuryStatus { DecodesToSpecH(slots, p, f); }
    else if f == InjuryBodyPart || f == InjuryStartDate || f == InjuryNotes { DecodesToSpecI(slots, p, f); }
    else if f == FanDuelPlayerId || f == DraftKingsPlayerId || f == YahooPlayerId { DecodesToSpecJ(slots, p, f); }
    else if f == FanDuelName || f == DraftKingsName || f == YahooName { DecodesToSpecK(slots, p, f); }
    else if f == DepthChartPosition || f == DepthChartOrder || f == GlobalTeamId { DecodesToSpecL(slots, p, f); }
    else if f == FantasyDraftName || f == FantasyDraftPlayerId || f == UsaTodayPlayerId { DecodesToSpecM(slots, p, f); }
    else if f == UsaTodayHeadshotUrl || f == UsaTodayHeadshotNoBackgroundUrl || f == UsaTodayHeadshotUpdated { DecodesToSpecN(slots, p, f); }
    else { DecodesToSpecO(slots, p, f); }
  }


  lemma DecodesToSpecA(slots: map<Field, JsonValue>, p: Player, f: Field)
    requires f == PlayerId || f == FirstName || f == LastName
    ensures DecodesTo(slots, p, f) <==>
              CanonicalSlot(KindOf(f), IsRequired(f), Get(slots, f)) == Some(FieldValue(p, f))
              && (f == InjuryStartDate ==> WellFormed(p))
  {
    match f
    case PlayerId => Slots.Int64Required(Get(slots, PlayerId), p.playerId);
    case FirstName => Slots.StringRequired(Get(slots, FirstName), p.firstName);
    case LastName => Slots.StringRequired(Get(slots, LastName), p.lastName);
    case _ =>
  }

  lemma DecodesToSpecB(slots: map<Field, JsonValue>, p: Player, f: Field)
    requires f == Status || f == TeamId || f == Team
    ensures DecodesTo(slots, p, f) <==>
              CanonicalSlot(KindOf(f), IsRequired(f), Get(slots, f)) == Some(FieldValue(p, f))
              && (f == InjuryStartDate ==> WellFormed(p))
  {
    match f
    case Status => Slots.StatusRequired(Get(slots, Status), p.status);
    case TeamId => Slots.Int64Required(Get(slots, TeamId), p.teamId);
    case Team => Slots.TeamRequired(Get(slots, Team), p.team);
    case _ =>
  }

  lemma DecodesToSpecC(slots: map<Field, JsonValue>, p: Player, f: Field)
    requires f == Position || f == Jersey || f == Catches
    ensures DecodesTo(slots, p, f) <==>
              CanonicalSlot(KindOf(f), IsRequired(f), Get(slots, f)) == Some(FieldValue(p, f))
              && (f == InjuryStartDate ==> WellFormed(p))
  {
    match f
    case Position => Slots.PositionRequired(Get(slots, Position), p.position);
    case Jersey => Slots.Int64Optional(Get(slots, Jersey), p.jersey);
    case Catches => Slots.CatchesOptional(Get(slots, Catches), p.catches);
    case _ =>
  }

  lemma DecodesToSpecD(slots: map<Field, JsonValue>, p: Player, f: Field)
    requires f == Shoots || f == Height || f == Weight
    ensures DecodesTo(slots, p, f) <==>
              CanonicalSlot(KindOf(f), IsRequired(f), Get(slots, f)) == Some(FieldValue(p, f))
              && (f == InjuryStartDate ==> WellFormed(p))
  {
    match f
    case Shoots => Slots.CatchesOptional(Get(slots, Shoots), p.shoots);
    case Height => Slots.Int64Required(Get(slots, Height), p.height);
    case Weight => Slots.Int64Required(Get(slots, Weight), p.weight);
    case _ =>
  }

  lemma DecodesToSpecE(slots: map<Field, JsonValue>, p: Player, f: Field)
    requires f == BirthDate || f == BirthCity || f == BirthState
    ensures DecodesTo(slots, p, f) <==>
              CanonicalSlot(KindOf(f), IsRequired(f), Get(slots, f)) == Some(FieldValue(p, f))
              && (f == InjuryStartDate ==> WellFormed(p))
  {
    match f
    case BirthDate => Slots.StringRequired(Get(slots, BirthDate), p.birthDate);
    case BirthCity => Slots.StringRequired(Get(slots, BirthCity), p.birthCity);
    case BirthState => Slots.StringOptional(Get(slots, BirthState), p.birthState);
    case _ =>
  }

  lemma DecodesToSpecF(slots: map<Field, JsonValue>, p: Player, f: Field)
    requires f == PhotoUrl || f == SportRadarPlayerId || f == RotoworldPlayerId
    ensures DecodesTo(slots, p, f) <==>
              CanonicalSlot(KindOf(f), IsRequired(f), Get(slots, f)) == Some(FieldValue(p, f))
              && (f == InjuryStartDate ==> WellFormed(p))
  {
    match f
    case PhotoUrl => Slots.StringRequired(Get(slots, PhotoUrl), p.photoUrl);
    case SportRadarPlayerId => Slots.StringRequired(Get(slots, SportRadarPlayerId), p.sportRadarPlayerId);
    case RotoworldPlayerId => Slots.Int64Optional(Get(slots, RotoworldPlayerId), p.rotoworldPlayerId);
    case _ =>
  }

  lemma DecodesToSpecG(slots: map<Field, JsonValue>, p: Player, f: Field)
    requires f == RotoWirePlayerId || f == FantasyAlarmPlayerId || f == StatsPlayerId
    ensures DecodesTo(slots, p, f) <==>
              CanonicalSlot(KindOf(f), IsRequired(f), Get(slots, f)) == Some(FieldValue(p, f))
              && (f == InjuryStartDate ==> WellFormed(p))
  {
    match f
    case RotoWirePlayerId => Slots.Int64Optional(Get(slots, RotoWirePlayerId), p.rotoWirePlayerId);
    case FantasyAlarmPlayerId => Slots.Int64Optional(Get(slots, FantasyAlarmPlayerId), p.fantasyAlarmPlayerId);
    case StatsPlayerId => Slots.Int64Optional(Get(slots, StatsPlayerId), p.statsPlayerId);
    case _ =>
  }

  lemma DecodesToSpecH(slots: map<Field, JsonValue>, p: Player, f: Field)
    requires f == SportsDirectPlayerId || f == XmlTeamPlayerId || f == InjuryStatus
    ensures DecodesTo(slots, p, f) <==>
              CanonicalSlot(KindOf(f), IsRequired(f), Get(slots, f)) == Some(FieldValue(p, f))
              && (f == InjuryStartDate ==> WellFormed(p))
  {
    match f
    case SportsDirectPlayerId => Slots.Int64Optional(Get(slots, SportsDirectPlayerId), p.sportsDirectPlayerId);
    case XmlTeamPlayerId => Slots.Int64Optional(Get(slots, XmlTeamPlayerId), p.xmlTeamPlayerId);
    case InjuryStatus => Slots.InjuryRequired(Get(slots, InjuryStatus), p.injuryStatus);
    case _ =>
  }

  lemma DecodesToSpecI(slots: map<Field, JsonValue>, p: Player, f: Field)
    requires f == InjuryBodyPart || f == InjuryStartDate || f == InjuryNotes
    ensures DecodesTo(slots, p, f) <==>
              CanonicalSlot(KindOf(f), IsRequired(f), Get(slots, f)) == Some(FieldValue(p, f))
              && (f == InjuryStartDate ==> WellFormed(p))
  {
    match f
    case InjuryBodyPart => Slots.InjuryRequired(Get(slots, InjuryBodyPart), p.injuryBodyPart);
    case InjuryStartDate => Slots.AnyValueOptional(Get(slots, InjuryStartDate), p.injuryStartDate);
    case InjuryNotes => Slots.InjuryRequired(Get(slots, InjuryNotes), p.injuryNotes);
    case _ =>
  }

  lemma DecodesToSpecJ(slots: map<Field, JsonValue>, p: Player, f: Field)
    requires f == FanDuelPlayerId || f == DraftKingsPlayerId || f == YahooPlayerId
    ensures DecodesTo(slots, p, f) <==>
              CanonicalSlot(KindOf(f), IsRequired(f), Get(slots, f)) == Some(FieldValue(p, f))
              && (f == InjuryStartDate ==> WellFormed(p))
  {
    match f
    case FanDuelPlayerId => Slots.Int64Optional(Get(slots, FanDuelPlayerId), p.fanDuelPlayerId);
    case DraftKingsPlayerId => Slots.Int64Optional(Get(slots, DraftKingsPlayerId), p.draftKingsPlayerId);
    case YahooPlayerId => Slots.Int64Optional(Get(slots, YahooPlayerId), p.yahooPlayerId);
    case _ =>
  }

  lemma DecodesToSpecK(slots: map<Field, JsonValue>, p: Player, f: Field)
    requires f == FanDuelName || f == DraftKingsName || f == YahooName
    ensures DecodesTo(slots, p, f) <==>
              CanonicalSlot(KindOf(f), IsRequired(f), Get(slots, f)) == Some(FieldValue(p, f))
              && (f == InjuryStartDate ==> WellFormed(p))
  {
    match f
    case FanDuelName => Slots.StringOptional(Get(slots, FanDuelName), p.fanDuelName);
    case DraftKingsName => Slots.StringOptional(Get(slots, DraftKingsName), p.draftKingsName);
    case YahooName => Slots.StringOptional(Get(slots, YahooName), p.yahooName);
    case _ =>
  }

  lemma DecodesToSpecL(slots: map<Field, JsonValue>, p: Player, f: Field)
    requires f == DepthChartPosition || f == DepthChartOrder || f == GlobalTeamId
    ensures DecodesTo(slots, p, f) <==>
              CanonicalSlot(KindOf(f), IsRequired(f), Get(slots, f)) == Some(FieldValue(p, f))
              && (f == InjuryStartDate ==> WellFormed(p))
  {
    match f
    case DepthChartPosition => Slots.PositionOptional(Get(slots, DepthChartPosition), p.depthChartPosition);
    case DepthChartOrder => Slots.Int64Optional(Get(slots, DepthChartOrder), p.depthChartOrder);
    case GlobalTeamId => Slots.Int64Required(Get(slots, GlobalTeamId), p.globalTeamId);
    case _ =>
  }

  lemma DecodesToSpecM(slots: map<Field, JsonValue>, p: Player, f: Field)
    requires f == FantasyDraftName || f == FantasyDraftPlayerId || f == UsaTodayPlayerId
    ensures DecodesTo(slots, p, f) <==>
              CanonicalSlot(KindOf(f), IsRequired(f), Get(slots, f)) == Some(FieldValue(p, f))
              && (f == InjuryStartDate ==> WellFormed(p))
  {
    match f
    case FantasyDraftName => Slots.StringOptional(Get(slots, FantasyDraftName), p.fantasyDraftName);
    case FantasyDraftPlayerId => Slots.Int64Optional(Get(slots, FantasyDraftPlayerId), p.fantasyDraftPlayerId);
    case UsaTodayPlayerId => Slots.Int64Optional(Get(slots, UsaTodayPlayerId), p.usaTodayPlayerId);
    case _ =>
  }

  lemma DecodesToSpecN(slots: map<Field, JsonValue>, p: Player, f: Field)
    requires f == UsaTodayHeadshotUrl || f == UsaTodayHeadshotNoBackgroundUrl || f == UsaTodayHeadshotUpdated
    ensures DecodesTo(slots, p, f) <==>
              CanonicalSlot(KindOf(f), IsRequired(f), Get(slots, f)) == Some(FieldValue(p, f))
              && (f == InjuryStartDate ==> WellFormed(p))
  {
    match f
    case UsaTodayHeadshotUrl => Slots.StringOptional(Get(slots, UsaTodayHeadshotUrl), p.usaTodayHeadshotUrl);
    case UsaTodayHeadshotNoBackgroundUrl => Slots.StringOptional(Get(slots, UsaTodayHeadshotNoBackgroundUrl), p.usaTodayHeadshotNoBackgroundUrl);
    case UsaTodayHeadshotUpdated => Slots.StringOptional(Get(slots, UsaTodayHeadshotUpdated), p.usaTodayHeadshotUpdated);
    case _ =>
  }

  lemma DecodesToSpecO(slots: map<Field, JsonValue>, p: Player, f: Field)
    requires f == UsaTodayHeadshotNoBackgroundUpdated
    ensures DecodesTo(slots, p, f) <==>
              CanonicalSlot(KindOf(f), IsRequired(f), Get(slots, f)) == Some(FieldValue(p, f))
              && (f == InjuryStartDate ==> WellFormed(p))
  {
    match f
    case UsaTodayHeadshotNoBackgroundUpdated => Slots.StringOptional(Get(slots, UsaTodayHeadshotNoBackgroundUpdated), p.usaTodayHeadshotNoBackgroundUpdated);
    case _ =>
  }


  /** The record is built exactly when every slot holds an acceptable value, and then
      each field serializes back to the canonical form of its slot. */
  lemma BuildPlayerSpec(slots: map<Field, JsonValue>, p: Player)
    ensures BuildPlayer(slots) == Some(p) <==>
              WellFormed(p)
              && forall f :: CanonicalSlot(KindOf(f), IsRequired(f), Get(slots, f)) == Some(FieldValue(p, f))
  {
    BuildFieldwise(slots, p);
    forall f {
      DecodesToSpec(slots, p, f);
    }
    DecodesToSpec(slots, p, InjuryStartDate);
  }

  /** Each field serializes to a canonical form of its own field type. */
  lemma FieldValueIsCanonical(p: Player, f: Field)
    ensures CanonicalSlot(KindOf(f), IsRequired(f), Some(FieldValue(p, f))) == Some(FieldValue(p, f))
  {
    if f == PlayerId || f == FirstName || f == LastName { FieldValueIsCanonicalA(p, f); }
    else if f == Status || f == TeamId || f == Team { FieldValueIsCanonicalB(p, f); }
    else if f == Position || f == Jersey || f == Catches { FieldValueIsCanonicalC(p, f); }
    else if f == Shoots || f == Height || f == Weight { FieldValueIsCanonicalD(p, f); }
    else if f == BirthDate || f == BirthCity || f == BirthState { FieldValueIsCanonicalE(p, f); }
    else if f == PhotoUrl || f == SportRadarPlayerId || f == RotoworldPlayerId { FieldValueIsCanonicalF(p, f); }
    else if f == RotoWirePlayerId || f == FantasyAlarmPlayerId || f == StatsPlayerId { FieldValueIsCanonicalG(p, f); }
    else if f == SportsDirectPlayerId || f == XmlTeamPlayerId || f == InjuryStatus { FieldValueIsCanonicalH(p, f); }
    else if f == InjuryBodyPart || f == InjuryStartDate || f == InjuryNotes { FieldValueIsCanonicalI(p, f); }
    else if f == FanDuelPlayerId || f == DraftKingsPlayerId || f == YahooPlayerId { FieldValueIsCanonicalJ(p, f); }
    else if f == FanDuelName || f == DraftKingsName || f == YahooName { FieldValueIsCanonicalK(p, f); }
    else if f == DepthChartPosition || f == DepthChartOrder || f == GlobalTeamId { FieldValueIsCanonicalL(p, f); }
    else if f == FantasyDraftName || f == FantasyDraftPlayerId || f == UsaTodayPlayerId { FieldValueIsCanonicalM(p, f); }
    else if f == UsaTodayHeadshotUrl || f == UsaTodayHeadshotNoBackgroundUrl || f == UsaTodayHeadshotUpdated { FieldValueIsCanonicalN(p, f); }
    else { FieldValueIsCanonicalO(p, f); }
  }


  lemma FieldValueIsCanonicalA(p: Player, f: Field)
    requires f == PlayerId || f == FirstName || f == LastName
    ensures CanonicalSlot(KindOf(f), IsRequired(f), Some(FieldValue(p, f))) == Some(FieldValue(p, f))
  {
    match f
    case PlayerId => Slots.Int64RequiredEncoded(p.playerId);
    case FirstName => Slots.StringRequiredEncoded(p.firstName);
    case LastName => Slots.StringRequiredEncoded(p.lastName);
    case _ =>
  }

  lemma FieldValueIsCanonicalB(p: Player, f: Field)
    requires f == Status || f == TeamId || f == Team
    ensures CanonicalSlot(KindOf(f), IsRequired(f), Some(FieldValue(p, f))) == Some(FieldValue(p, f))
  {
    match f
    case Status => Slots.StatusRequiredEncoded(p.status);
    case TeamId => Slots.Int64RequiredEncoded(p.teamId);
    case Team => Slots.TeamRequiredEncoded(p.team);
    case _ =>
  }

  lemma FieldValueIsCanonicalC(p: Player, f: Field)
    requires f == Position || f == Jersey || f == Catches
    ensures CanonicalSlot(KindOf(f), IsRequired(f), Some(FieldValue(p, f))) == Some(FieldValue(p, f))
  {
    match f
    case Position => Slots.PositionRequiredEncoded(p.position);
    case Jersey => Slots.Int64OptionalEncoded(p.jersey);
    case Catches => Slots.CatchesOptionalEncoded(p.catches);
    case _ =>
  }

  lemma FieldValueIsCanonicalD(p: Player, f: Field)
    requires f == Shoots || f == Height || f == Weight
    ensures CanonicalSlot(KindOf(f), IsRequired(f), Some(FieldValue(p, f))) == Some(FieldValue(p, f))
  {
    match f
    case Shoots => Slots.CatchesOptionalEncoded(p.shoots);
    case Height => Slots.Int64RequiredEncoded(p.height);
    case Weight => Slots.Int64RequiredEncoded(p.weight);
    case _ =>
  }

  lemma FieldValueIsCanonicalE(p: Player, f: Field)
    requires f == BirthDate || f == BirthCity || f == BirthState
    ensures CanonicalSlot(KindOf(f), IsRequired(f), Some(FieldValue(p, f))) == Some(FieldValue(p, f))
  {
    match f
    case BirthDate => Slots.StringRequiredEncoded(p.birthDate);
    case BirthCity => Slots.StringRequiredEncoded(p.birthCity);
    case BirthState => Slots.StringOptionalEncoded(p.birthState);
    case _ =>
  }

  lemma FieldValueIsCanonicalF(p: Player, f: Field)
    requires f == PhotoUrl || f == SportRadarPlayerId || f == RotoworldPlayerId
    ensures CanonicalSlot(KindOf(f), IsRequired(f), Some(FieldValue(p, f))) == Some(FieldValue(p, f))
  {
    match f
    case PhotoUrl => Slots.StringRequiredEncoded(p.photoUrl);
    case SportRadarPlayerId => Slots.StringRequiredEncoded(p.sportRadarPlayerId);
    case RotoworldPlayerId => Slots.Int64OptionalEncoded(p.rotoworldPlayerId);
    case _ =>
  }

  lemma FieldValueIsCanonicalG(p: Player, f: Field)
    requires f == RotoWirePlayerId || f == FantasyAlarmPlayerId || f == StatsPlayerId
    ensures CanonicalSlot(KindOf(f), IsRequired(f), Some(FieldValue(p, f))) == Some(FieldValue(p, f))
  {
    match f
    case RotoWirePlayerId => Slots.Int64OptionalEncoded(p.rotoWirePlayerId);
    case FantasyAlarmPlayerId => Slots.Int64OptionalEncoded(p.fantasyAlarmPlayerId);
    case StatsPlayerId => Slots.Int64OptionalEncoded(p.statsPlayerId);
    case _ =>
  }

  lemma FieldValueIsCanonicalH(p: Player, f: Field)
    requires f == SportsDirectPlayerId || f == XmlTeamPlayerId || f == InjuryStatus
    ensures CanonicalSlot(KindOf(f), IsRequired(f), Some(FieldValue(p, f))) == Some(FieldValue(p, f))
  {
    match f
    case SportsDirectPlayerId => Slots.Int64OptionalEncoded(p.sportsDirectPlayerId);
    case XmlTeamPlayerId => Slots.Int64OptionalEncoded(p.xmlTeamPlayerId);
    case InjuryStatus => Slots.InjuryRequiredEncoded(p.injuryStatus);
    case _ =>
  }

  lemma FieldValueIsCanonicalI(p: Player, f: Field)
    requires f == InjuryBodyPart || f == InjuryStartDate || f == InjuryNotes
    ensures CanonicalSlot(KindOf(f), IsRequired(f), Some(FieldValue(p, f))) == Some(FieldValue(p, f))
  {
    match f
    case InjuryBodyPart => Slots.InjuryRequiredEncoded(p.injuryBodyPart);
    case InjuryStartDate => Slots.AnyValueOptionalEncoded(p.injuryStartDate);
    case InjuryNotes => Slots.InjuryRequiredEncoded(p.injuryNotes);
    case _ =>
  }

  lemma FieldValueIsCanonicalJ(p: Player, f: Field)
    requires f == FanDuelPlayerId || f == DraftKingsPlayerId || f == YahooPlayerId
    ensures CanonicalSlot(KindOf(f), IsRequired(f), Some(FieldValue(p, f))) == Some(FieldValue(p, f))
  {
    match f
    case FanDuelPlayerId => Slots.Int64OptionalEncoded(p.fanDuelPlayerId);
    case DraftKingsPlayerId => Slots.Int64OptionalEncoded(p.draftKingsPlayerId);
    case YahooPlayerId => Slots.Int64OptionalEncoded(p.yahooPlayerId);
    case _ =>
  }

  lemma FieldValueIsCanonicalK(p: Player, f: Field)
    requires f == FanDuelName || f == DraftKingsName || f == YahooName
    ensures CanonicalSlot(KindOf(f), IsRequired(f), Some(FieldValue(p, f))) == Some(FieldValue(p, f))
  {
    match f
    case FanDuelName => Slots.StringOptionalEncoded(p.fanDuelName);
    case DraftKingsName => Slots.StringOptionalEncoded(p.draftKingsName);
    case YahooName => Slots.StringOptionalEncoded(p.yahooName);
    case _ =>
  }

  lemma FieldValueIsCanonicalL(p: Player, f: Field)
    requires f == DepthChartPosition || f == DepthChartOrder || f == GlobalTeamId
    ensures CanonicalSlot(KindOf(f), IsRequired(f), Some(FieldValue(p, f))) == Some(FieldValue(p, f))
  {
    match f
    case DepthChartPosition => Slots.PositionOptionalEncoded(p.depthChartPosition);
    case DepthChartOrder => Slots.Int64OptionalEncoded(p.depthChartOrder);
    case GlobalTeamId => Slots.Int64RequiredEncoded(p.globalTeamId);
    case _ =>
  }

  lemma FieldValueIsCanonicalM(p: Player, f: Field)
    requires f == FantasyDraftName || f == FantasyDraftPlayerId || f == UsaTodayPlayerId
    ensures CanonicalSlot(KindOf(f), IsRequired(f), Some(FieldValue(p, f))) == Some(FieldValue(p, f))
  {
    match f
    case FantasyDraftName => Slots.StringOptionalEncoded(p.fantasyDraftName);
    case FantasyDraftPlayerId => Slots.Int64OptionalEncoded(p.fantasyDraftPlayerId);
    case UsaTodayPlayerId => Slots.Int64OptionalEncoded(p.usaTodayPlayerId);
    case _ =>
  }

  lemma FieldValueIsCanonicalN(p: Player, f: Field)
    requires f == UsaTodayHeadshotUrl || f == UsaTodayHeadshotNoBackgroundUrl || f == UsaTodayHeadshotUpdated
    ensures CanonicalSlot(KindOf(f), IsRequired(f), Some(FieldValue(p, f))) == Some(FieldValue(p, f))
  {
    match f
    case UsaTodayHeadshotUrl => Slots.StringOptionalEncoded(p.usaTodayHeadshotUrl);
    case UsaTodayHeadshotNoBackgroundUrl => Slots.StringOptionalEncoded(p.usaTodayHeadshotNoBackgroundUrl);
    case UsaTodayHeadshotUpdated => Slots.StringOptionalEncoded(p.usaTodayHeadshotUpdated);
    case _ =>
  }

  lemma FieldValueIsCanonicalO(p: Player, f: Field)
    requires f == UsaTodayHeadshotNoBackgroundUpdated
    ensures CanonicalSlot(KindOf(f), IsRequired(f), Some(FieldValue(p, f))) == Some(FieldValue(p, f))
  {
    match f
    case UsaTodayHeadshotNoBackgroundUpdated => Slots.StringOptionalEncoded(p.usaTodayHeadshotNoBackgroundUpdated);
    case _ =>
  }

  // ---------------------------------------------------------------------------
  // The object form: which entry supplies each field
  // ---------------------------------------------------------------------------

  /** The value of the first entry whose key names field `f`, if any. */
  function Named(entries: seq<(string, JsonValue)>, f: Field): Option<JsonValue>
    decreases |entries|
  {
    if entries == [] then None
    else if FieldOfKey(entries[0].0) == Some(f) then Some(entries[0].1)
    else Named(entries[1..], f)
  }

  /** The value of the first entry whose key is `key`, if any. */
  function FirstValue(entries: seq<(string, JsonValue)>, key: string): Option<JsonValue>
    decreases |entries|
  {
    if entries == [] then None
    else if entries[0].0 == key then Some(entries[0].1)
    else FirstValue(entries[1..], key)
  }

  /** An object has no value for `key` exactly when no entry has that key. */
  lemma {:induction false} FirstValueAbsent(entries: seq<(string, JsonValue)>, key: string)
    ensures FirstValue(entries, key) == None <==> forall i :: 0 <= i < |entries| ==> entries[i].0 != key
    decreases |entries|
  {
    if entries != [] {
      FirstValueAbsent(entries[1..], key);
      assert forall i :: 0 < i < |entries| ==> entries[i] == entries[1..][i - 1];
    }
  }

  /** The entry that names field `f` is the first one whose key is `f`'s renamed key. */
  lemma {:induction false} NamedByKey(entries: seq<(string, JsonValue)>, f: Field)
    ensures Named(entries, f) == FirstValue(entries, Key(f))
    decreases |entries|
  {
    if entries != [] {
      FieldOfKeyExact(entries[0].0, f);
      NamedByKey(entries[1..], f);
    }
  }

  /** No two entries name the same field. */
  ghost predicate UniqueKnownKeys(entries: seq<(string, JsonValue)>) {
    forall i, j :: 0 <= i < j < |entries| && FieldOfKey(entries[i].0).Some? ==>
      FieldOfKey(entries[i].0) != FieldOfKey(entries[j].0)
  }

  /** No entry names a field that is already in `seen`. */
  ghost predicate Unseen(entries: seq<(string, JsonValue)>, seen: map<Field, JsonValue>) {
    forall i :: 0 <= i < |entries| && FieldOfKey(entries[i].0).Some? ==>
      FieldOfKey(entries[i].0).value !in seen
  }

  /** The slots an object supplies: each field gets the value of the first entry naming it. */
  function SlotsOf(entries: seq<(string, JsonValue)>): map<Field, JsonValue>
    decreases |entries|
  {
    if entries == [] then map[]
    else
      match FieldOfKey(entries[0].0)
      case None => SlotsOf(entries[1..])
      case Some(f) => SlotsOf(entries[1..])[f := entries[0].1]
  }

  lemma {:induction false} SlotsOfNamed(entries: seq<(string, JsonValue)>, f: Field)
    ensures Get(SlotsOf(entries), f) == Named(entries, f)
    decreases |entries|
  {
    if entries != [] {
      SlotsOfNamed(entries[1..], f);
    }
  }

  lemma {:induction false} NamedAbsent(entries: seq<(string, JsonValue)>, f: Field)
    requires forall i :: 0 <= i < |entries| ==> FieldOfKey(entries[i].0) != Some(f)
    ensures Named(entries, f) == None
  {
    if entries != [] {
      NamedAbsent(entries[1..], f);
    }
  }

  lemma {:induction false} NamedAt(entries: seq<(string, JsonValue)>, f: Field, k: nat)
    requires k < |entries| && FieldOfKey(entries[k].0) == Some(f)
    requires forall i :: 0 <= i < k ==> FieldOfKey(entries[i].0) != Some(f)
    ensures Named(entries, f) == Some(entries[k].1)
  {
    if k > 0 {
      NamedAt(entries[1..], f, k - 1);
    }
  }

  lemma UniqueCons(entries: seq<(string, JsonValue)>)
    requires entries != []
    ensures UniqueKnownKeys(entries) <==>
              UniqueKnownKeys(entries[1..])
              && (FieldOfKey(entries[0].0).Some? ==>
                    forall j :: 0 <= j < |entries[1..]| ==> FieldOfKey(entries[1..][j].0) != FieldOfKey(entries[0].0))
  {
    var rest := entries[1..];
    if UniqueKnownKeys(entries) {
      forall i, j | 0 <= i < j < |rest| && FieldOfKey(rest[i].0).Some?
        ensures FieldOfKey(rest[i].0) != FieldOfKey(rest[j].0)
      {
        assert rest[i] == entries[i + 1] && rest[j] == entries[j + 1];
      }
      if FieldOfKey(entries[0].0).Some? {
        forall j | 0 <= j < |rest| ensures FieldOfKey(rest[j].0) != FieldOfKey(entries[0].0) {
          assert rest[j] == entries[j + 1];
        }
      }
    }
  }

  lemma UniqueConsBack(entries: seq<(string, JsonValue)>)
    requires entries != []
    requires UniqueKnownKeys(entries[1..])
    requires FieldOfKey(entries[0].0).Some? ==>
               forall j :: 0 <= j < |entries[1..]| ==> FieldOfKey(entries[1..][j].0) != FieldOfKey(entries[0].0)
    ensures UniqueKnownKeys(entries)
  {
    var rest := entries[1..];
    forall i, j | 0 <= i < j < |entries| && FieldOfKey(entries[i].0).Some?
      ensures FieldOfKey(entries[i].0) != FieldOfKey(entries[j].0)
    {
      assert entries[j] == rest[j - 1];
      if i > 0 {
        assert entries[i] == rest[i - 1];
      }
    }
  }

  lemma UnseenCons(entries: seq<(string, JsonValue)>, seen: map<Field, JsonValue>)
    requires entries != []
    ensures Unseen(entries, seen) <==>
              (FieldOfKey(entries[0].0).Some? ==> FieldOfKey(entries[0].0).value !in seen)
              && Unseen(entries[1..], seen)
  {
    var rest := entries[1..];
    if Unseen(entries, seen) {
      forall i | 0 <= i < |rest| && FieldOfKey(rest[i].0).Some?
        ensures FieldOfKey(rest[i].0).value !in seen
      {
        assert rest[i] == entries[i + 1];
      }
    }
    if (FieldOfKey(entries[0].0).Some? ==> FieldOfKey(entries[0].0).value !in seen) && Unseen(rest, seen) {
      forall i | 0 <= i < |entries| && FieldOfKey(entries[i].0).Some?
        ensures FieldOfKey(entries[i].0).value !in seen
      {
        if i > 0 {
          assert entries[i] == rest[i - 1];
        }
      }
    }
  }

  lemma UnseenAdd(entries: seq<(string, JsonValue)>, seen: map<Field, JsonValue>, f: Field, v: JsonValue)
    ensures Unseen(entries, seen[f := v]) <==>
              Unseen(entries, seen) && forall j :: 0 <= j < |entries| ==> FieldOfKey(entries[j].0) != Some(f)
  {
  }

  lemma UnionUpdate(seen: map<Field, JsonValue>, slots: map<Field, JsonValue>, f: Field, v: JsonValue)
    requires f !in slots
    ensures seen[f := v] + slots == seen + slots[f := v]
  {
  }

  /** Visiting the entries fails exactly on a duplicate field, and otherwise adds the
      slots of the object to those already seen. */
  lemma {:induction false} CollectSlotsSpec(entries: seq<(string, JsonValue)>, seen: map<Field, JsonValue>)
    ensures CollectSlots(entries, seen) ==
              if UniqueKnownKeys(entries) && Unseen(entries, seen) then Some(seen + SlotsOf(entries)) else None
    decreases |entries|
  {
    if entries == [] {
      assert seen + map[] == seen;
    } else {
      var k, v, rest := entries[0].0, entries[0].1, entries[1..];
      UniqueCons(entries);
      UnseenCons(entries, seen);
      match FieldOfKey(k)
      case None =>
        CollectSlotsSpec(rest, seen);
        if UniqueKnownKeys(rest) {
          UniqueConsBack(entries);
        }
      case Some(f) =>
        if f !in seen {
          CollectSlotsSpec(rest, seen[f := v]);
          UnseenAdd(rest, seen, f, v);
          if UniqueKnownKeys(rest) && Unseen(rest, seen[f := v]) {
            UniqueConsBack(entries);
            NamedAbsent(rest, f);
            SlotsOfNamed(rest, f);
            UnionUpdate(seen, SlotsOf(rest), f, v);
          }
        }
    }
  }

  // ---------------------------------------------------------------------------
  // Deserialization of a record
  // ---------------------------------------------------------------------------

  /** From an object: it is accepted exactly when no field is given twice, every field
      not an `Option` is given, and every value given decodes as its field's type; each
      field of the result then serializes back to the canonical form of its entry. */
  lemma DecodeObjectNamed(entries: seq<(string, JsonValue)>, p: Player)
    ensures DecodePlayer(Object(entries)) == Some(p) <==>
              UniqueKnownKeys(entries)
              && WellFormed(p)
              && forall f :: CanonicalSlot(KindOf(f), IsRequired(f), Named(entries, f)) == Some(FieldValue(p, f))
  {
    DecodeObjectSlots(entries);
    var slots := SlotsOf(entries);
    forall f ensures Get(slots, f) == Named(entries, f) {
      SlotsOfNamed(entries, f);
    }
    BuildPlayerSpec(slots, p);
  }

  /** The same, with each field's entry found by its renamed key. */
  lemma DecodeObjectSpec(entries: seq<(string, JsonValue)>, p: Player)
    ensures DecodePlayer(Object(entries)) == Some(p) <==>
              UniqueKnownKeys(entries)
              && WellFormed(p)
              && forall f :: CanonicalSlot(KindOf(f), IsRequired(f), FirstValue(entries, Key(f))) == Some(FieldValue(p, f))
  {
    DecodeObjectNamed(entries, p);
    forall f ensures Named(entries, f) == FirstValue(entries, Key(f)) {
      NamedByKey(entries, f);
    }
  }

  /** An object is read by first collecting its slots, then building the record. */
  lemma DecodeObjectSlots(entries: seq<(string, JsonValue)>)
    ensures DecodePlayer(Object(entries)) == if UniqueKnownKeys(entries) then BuildPlayer(SlotsOf(entries)) else None
  {
    CollectSlotsSpec(entries, map[]);
    assert map[] + SlotsOf(entries) == SlotsOf(entries);
  }

  /** From an array: it is accepted exactly when it has one element per field and the
      i-th element decodes as the type of the i-th field. */
  lemma DecodeArraySpec(items: seq<JsonValue>, p: Player)
    ensures DecodePlayer(Array(items)) == Some(p) <==>
              |items| == FieldCount
              && WellFormed(p)
              && forall f :: CanonicalSlot(KindOf(f), IsRequired(f), Some(items[Index(f)])) == Some(FieldValue(p, f))
  {
    if |items| == FieldCount {
      var slots := PositionalSlots(items);
      forall f ensures Get(slots, f) == Some(items[Index(f)]) {
        InAllFields(f);
      }
      BuildPlayerSpec(slots, p);
    }
  }

  /** Whatever the input, a decoded record carries no `Some(null)`. */
  lemma DecodedIsWellFormed(v: JsonValue, p: Player)
    requires DecodePlayer(v) == Some(p)
    ensures WellFormed(p)
  {
    match v
    case Object(entries) => DecodeObjectNamed(entries, p);
    case Array(items) => DecodeArraySpec(items, p);
  }

  /** A field that is not an `Option` and whose key no entry has makes the object fail. */
  lemma MissingRequiredFieldFails(entries: seq<(string, JsonValue)>, f: Field)
    requires IsRequired(f) && forall i :: 0 <= i < |entries| ==> entries[i].0 != Key(f)
    ensures DecodePlayer(Object(entries)) == None
  {
    FirstValueAbsent(entries, Key(f));
    NamedByKey(entries, f);
    if DecodePlayer(Object(entries)).Some? {
      DecodeObjectNamed(entries, DecodePlayer(Object(entries)).value);
    }
  }

  /** For instance, an object with no `"PlayerID"` entry is refused. */
  lemma MissingPlayerIdFails(entries: seq<(string, JsonValue)>)
    requires forall i :: 0 <= i < |entries| ==> entries[i].0 != "PlayerID"
    ensures DecodePlayer(Object(entries)) == None
  {
    MissingRequiredFieldFails(entries, PlayerId);
  }

  /** An `Option` field that is absent or `null` is `None`, which serializes as `null`. */
  lemma AbsentOrNullOptionalField(entries: seq<(string, JsonValue)>, p: Player, f: Field)
    requires DecodePlayer(Object(entries)) == Some(p)
    requires !IsRequired(f)
    ensures (FirstValue(entries, Key(f)) == None || FirstValue(entries, Key(f)) == Some(Null)) <==> FieldValue(p, f) == Null
  {
    NamedByKey(entries, f);
    DecodeObjectNamed(entries, p);
    if FieldValue(p, f) == Null && Named(entries, f).Some? && Named(entries, f) != Some(Null) {
      CanonicalIsCanonical(KindOf(f), Named(entries, f).value, Null);
    }
  }

  /** Concretely: an absent or `null` jersey, birth state or shoots entry reads as
      `None`, and only those do. */
  lemma NullOptionalFieldsAreNone(entries: seq<(string, JsonValue)>, p: Player)
    requires DecodePlayer(Object(entries)) == Some(p)
    ensures (FirstValue(entries, Key(Jersey)) == None || FirstValue(entries, Key(Jersey)) == Some(Null)) <==> p.jersey.None?
    ensures (FirstValue(entries, Key(BirthState)) == None || FirstValue(entries, Key(BirthState)) == Some(Null)) <==> p.birthState.None?
    ensures (FirstValue(entries, Key(Shoots)) == None || FirstValue(entries, Key(Shoots)) == Some(Null)) <==> p.shoots.None?
  {
    AbsentOrNullOptionalField(entries, p, Jersey);
    AbsentOrNullOptionalField(entries, p, BirthState);
    AbsentOrNullOptionalField(entries, p, Shoots);
    NullFieldValues(p);
  }

  lemma NullFieldValues(p: Player)
    ensures FieldValue(p, Jersey) == Null <==> p.jersey.None?
    ensures FieldValue(p, BirthState) == Null <==> p.birthState.None?
    ensures FieldValue(p, Shoots) == Null <==> p.shoots.None?
  {
  }

  /** An absent or `null` injury start date reads as `None`, and only those do: a
      `serde_json::Value` is never `Some(null)` after deserialization. */
  lemma NullInjuryStartDateIsNone(entries: seq<(string, JsonValue)>, p: Player)
    requires DecodePlayer(Object(entries)) == Some(p)
    ensures (FirstValue(entries, Key(InjuryStartDate)) == None || FirstValue(entries, Key(InjuryStartDate)) == Some(Null))
              <==> p.injuryStartDate.None?
  {
    AbsentOrNullOptionalField(entries, p, InjuryStartDate);
    DecodedIsWellFormed(Object(entries), p);
    WellFormedStartDate(p);
  }

  lemma WellFormedStartDate(p: Player)
    requires WellFormed(p)
    ensures FieldValue(p, InjuryStartDate) == Null <==> p.injuryStartDate.None?
  {
  }

  /** `Catches` and `Shoots` are read by one and the same codec. */
  lemma CatchesAndShootsShareCodec(entries: seq<(string, JsonValue)>, p: Player)
    requires DecodePlayer(Object(entries)) == Some(p)
    ensures OptionalSlot(FirstValue(entries, Key(Catches)), Enums.DecodeCatches) == Some(p.catches)
    ensures OptionalSlot(FirstValue(entries, Key(Shoots)), Enums.DecodeCatches) == Some(p.shoots)
  {
    NamedByKey(entries, Catches);
    NamedByKey(entries, Shoots);
    DecodeObjectSlots(entries);
    SlotsOfNamed(entries, Catches);
    SlotsOfNamed(entries, Shoots);
    AllDecodeBuild(SlotsOf(entries), p);
  }

  /** The three injury fields accept nothing but the variant `Scrambled`, in either
      of its two spellings. */
  lemma InjuryFieldsOnlyScrambled(entries: seq<(string, JsonValue)>, p: Player, f: Field)
    requires DecodePlayer(Object(entries)) == Some(p)
    requires f == InjuryStatus || f == InjuryBodyPart || f == InjuryNotes
    ensures FirstValue(entries, Key(f)) == Some(Str("Scrambled"))
            || FirstValue(entries, Key(f)) == Some(Object([("Scrambled", Null)]))
  {
    NamedByKey(entries, f);
    DecodeObjectNamed(entries, p);
    assert IsRequired(f) && KindOf(f) == Variant(Enums.InjuryCodes);
    assert CanonicalSlot(KindOf(f), IsRequired(f), Named(entries, f)) == Some(FieldValue(p, f));
    UnitVariantForms(Named(entries, f).value, "Scrambled");
  }

  /** Two entries that name the same field make the object fail. */
  lemma DuplicateFieldFails(entries: seq<(string, JsonValue)>, i: nat, j: nat)
    requires i < j < |entries|
    requires FieldOfKey(entries[i].0).Some? && FieldOfKey(entries[i].0) == FieldOfKey(entries[j].0)
    ensures DecodePlayer(Object(entries)) == None
  {
    CollectSlotsSpec(entries, map[]);
  }

  /** An entry whose key names no field is skipped wherever it stands. */
  lemma {:induction false} UnknownKeySkipped(before: seq<(string, JsonValue)>, after: seq<(string, JsonValue)>,
                                             key: string, v: JsonValue, seen: map<Field, JsonValue>)
    requires FieldOfKey(key) == None
    ensures CollectSlots(before + [(key, v)] + after, seen) == CollectSlots(before + after, seen)
    decreases |before|
  {
    var long, short := before + [(key, v)] + after, before + after;
    if before == [] {
      assert long[1..] == after && short == after;
    } else {
      assert long[0] == short[0] == before[0];
      assert long[1..] == before[1..] + [(key, v)] + after;
      assert short[1..] == before[1..] + after;
      match FieldOfKey(before[0].0)
      case None =>
        UnknownKeySkipped(before[1..], after, key, v, seen);
      case Some(f) =>
        if f !in seen {
          UnknownKeySkipped(before[1..], after, key, v, seen[f := before[0].1]);
        }
    }
  }

  /** An entry whose key is no field's renamed key never changes the decoded record. */
  lemma UnknownKeyIgnored(before: seq<(string, JsonValue)>, after: seq<(string, JsonValue)>, key: string, v: JsonValue)
    requires forall f :: key != Key(f)
    ensures DecodePlayer(Object(before + [(key, v)] + after)) == DecodePlayer(Object(before + after))
  {
    if FieldOfKey(key).Some? {
      FieldOfKeyExact(key, FieldOfKey(key).value);
    }
    UnknownKeySkipped(before, after, key, v, map[]);
  }

  // ---------------------------------------------------------------------------
  // Serializing then deserializing
  // ---------------------------------------------------------------------------

  /** Normalization only replaces `Some(null)` by `None`, which serializes the same way. */
  lemma NormalizeSpec(p: Player)
    ensures WellFormed(Normalize(p))
    ensures Normalize(p) == p <==> WellFormed(p)
    ensures forall f :: FieldValue(Normalize(p), f) == FieldValue(p, f)
  {
  }

  /** In a serialized record each field is named by exactly one entry, the one at its
      declaration position, and it holds the field's serialization. */
  lemma EncodedNamed(p: Player, f: Field)
    ensures Named(EncodePlayer(p).entries, f) == Some(FieldValue(p, f))
  {
    var entries := EncodePlayer(p).entries;
    var k := Index(f);
    IndexFieldAt(f);
    KeyRoundTrip(f);
    forall i | 0 <= i < k ensures FieldOfKey(entries[i].0) != Some(f) {
      KeyRoundTrip(FieldAt(i));
      FieldAtIndex(i);
    }
    NamedAt(entries, f, k);
  }

  lemma EncodedUnique(p: Player)
    ensures UniqueKnownKeys(EncodePlayer(p).entries)
  {
    var entries := EncodePlayer(p).entries;
    forall i, j | 0 <= i < j < |entries| && FieldOfKey(entries[i].0).Some?
      ensures FieldOfKey(entries[i].0) != FieldOfKey(entries[j].0)
    {
      KeyRoundTrip(FieldAt(i));
      KeyRoundTrip(FieldAt(j));
      FieldAtIndex(i);
      FieldAtIndex(j);
    }
  }

  /** Serializing a record and reading it back gives the record, except that an injury
      start date of `Some(null)` comes back as `None`. */
  lemma PlayerRoundTrip(p: Player)
    ensures DecodePlayer(EncodePlayer(p)) == Some(Normalize(p))
    ensures WellFormed(p) ==> DecodePlayer(EncodePlayer(p)) == Some(p)
  {
    var entries := EncodePlayer(p).entries;
    EncodedUnique(p);
    NormalizeSpec(p);
    forall f ensures CanonicalSlot(KindOf(f), IsRequired(f), Named(entries, f)) == Some(FieldValue(Normalize(p), f)) {
      EncodedNamed(p, f);
      FieldValueIsCanonical(p, f);
    }
    DecodeObjectNamed(entries, Normalize(p));
  }

  // ---------------------------------------------------------------------------
  // The roster: a JSON array of records
  // ---------------------------------------------------------------------------

  /** Only an array is a roster. */
  lemma DecodePlayersSpec(v: JsonValue, ps: Players)
    ensures DecodePlayers(v) == Some(ps) <==>
              v.Array? && |ps| == |v.items| && forall i :: 0 <= i < |v.items| ==> DecodePlayer(v.items[i]) == Some(ps[i])
  {
    if v.Array? {
      DecodeElementsSpec(v.items, DecodePlayer, ps);
    }
  }

  /** Serializing a roster and reading it back keeps its length and order. */
  lemma PlayersRoundTrip(ps: Players)
    ensures DecodePlayers(EncodePlayers(ps)) == Some(seq(|ps|, i requires 0 <= i < |ps| => Normalize(ps[i])))
  {
    var items := EncodePlayers(ps).items;
    var qs := seq(|ps|, i requires 0 <= i < |ps| => Normalize(ps[i]));
    forall i | 0 <= i < |items| ensures DecodePlayer(items[i]) == Some(qs[i]) {
      PlayerRoundTrip(ps[i]);
    }
    DecodeElementsSpec(items, DecodePlayer, qs);
  }
}
