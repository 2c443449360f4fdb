/**
 * The unit commands of the AI interface: how a command structure becomes an engine command
 * (newCommand), how an engine command is classified (extractAICommandTopic), and how
 * executeCommand decodes a raw command and encodes it again. Float parameters are reals;
 * converting an integer to a parameter is exact and converting back truncates.
 */
module Commands {
  import opened Options
  import Versions

  datatype Pos = Pos(x: real, y: real, z: real)

  datatype Topic =
    | Build | Stop | Wait | WaitTime | WaitDeath | WaitSquad | WaitGather
    | Move | Patrol | Fight | Attack | AttackArea | Guard | GroupAdd | GroupClear | Repair
    | SetFireState | SetMoveState | SetBase | SelfDestroy
    | LoadUnits | LoadUnitsArea | LoadOnto | UnloadUnitsArea | UnloadUnit
    | SetOnOff | ReclaimUnit | ReclaimFeature | ReclaimArea | Cloak | Stockpile
    | DGun | DGunPos | RestoreArea | SetRepeat | SetTrajectory
    | Resurrect | ResurrectArea | Capture | CaptureArea | SetAutoRepairLevel | SetIdleMode
    | Custom

  /** The fields of a command structure, apart from those that all of them share. */
  datatype Payload =
    | Plain
    | Number(n: int)
    | Flag(on: bool)
    | Position(pos: Pos)
    | Area(pos: Pos, radius: real)
    | Unload(pos: Pos, unit: int)
    | Units(ids: seq<int>)
    | Site(defId: int, at: Option<Pos>, facing: int)
    | Raw(cmdId: int, params: seq<real>)

  /** An engine command. */
  datatype Command = Command(id: int, aiId: int, timeOut: int, tag: nat, options: int, params: seq<real>)

  const NO_FACING := -1

  // ----- toInternalUnitCommandTopic -----

  const CMD_STOP := 0
  const CMD_WAIT := 5
  const CMD_TIMEWAIT := 6
  const CMD_DEATHWAIT := 7
  const CMD_SQUADWAIT := 8
  const CMD_GATHERWAIT := 9
  const CMD_MOVE := 10
  const CMD_PATROL := 15
  const CMD_FIGHT := 16
  const CMD_ATTACK := 20
  const CMD_GUARD := 25
  const CMD_GROUPADD := 36
  const CMD_GROUPCLEAR := 37
  const CMD_REPAIR := 40
  const CMD_FIRE_STATE := 45
  const CMD_MOVE_STATE := 50
  const CMD_SETBASE := 55
  const CMD_SELFD := 65
  const CMD_LOAD_UNITS := 75
  const CMD_LOAD_ONTO := 76
  const CMD_UNLOAD_UNITS := 80
  const CMD_UNLOAD_UNIT := 81
  const CMD_ONOFF := 85
  const CMD_RECLAIM := 90
  const CMD_CLOAK := 95
  const CMD_STOCKPILE := 100
  const CMD_MANUALFIRE := 105
  const CMD_RESTORE := 110
  const CMD_REPEAT := 115
  const CMD_TRAJECTORY := 120
  const CMD_RESURRECT := 125
  const CMD_CAPTURE := 130
  const CMD_AUTOREPAIRLEVEL := 135
  const CMD_IDLEMODE := 145

  /** The payload that a topic's structure carries. */
  predicate HasShape(t: Topic, p: Payload) {
    match t
    case Build => p.Site?
    case Stop | Wait | WaitGather | GroupClear | SelfDestroy | Stockpile => p.Plain?
    case Move | Patrol | Fight | SetBase | DGunPos => p.Position?
    case AttackArea | LoadUnitsArea | UnloadUnitsArea | ReclaimArea | RestoreArea |
      ResurrectArea | CaptureArea => p.Area?
    case LoadUnits => p.Units?
    case UnloadUnit => p.Unload?
    case SetOnOff | Cloak | SetRepeat => p.Flag?
    case Custom => p.Raw?
    case _ => p.Number?
  }

  function InternalTopic(t: Topic, p: Payload): int
    requires HasShape(t, p)
  {
    match t
    case Build => -p.defId
    case Stop => CMD_STOP
    case Wait => CMD_WAIT
    case WaitTime => CMD_TIMEWAIT
    case WaitDeath => CMD_DEATHWAIT
    case WaitSquad => CMD_SQUADWAIT
    case WaitGather => CMD_GATHERWAIT
    case Move => CMD_MOVE
    case Patrol => CMD_PATROL
    case Fight => CMD_FIGHT
    case Attack => CMD_ATTACK
    case AttackArea => CMD_ATTACK
    case Guard => CMD_GUARD
    case GroupAdd => CMD_GROUPADD
    case GroupClear => CMD_GROUPCLEAR
    case Repair => CMD_REPAIR
    case SetFireState => CMD_FIRE_STATE
    case SetMoveState => CMD_MOVE_STATE
    case SetBase => CMD_SETBASE
    case SelfDestroy => CMD_SELFD
    case LoadUnits => CMD_LOAD_UNITS
    case LoadUnitsArea => CMD_LOAD_UNITS
    case LoadOnto => CMD_LOAD_ONTO
    case UnloadUnitsArea => CMD_UNLOAD_UNITS
    case UnloadUnit => CMD_UNLOAD_UNIT
    case SetOnOff => CMD_ONOFF
    case ReclaimUnit => CMD_RECLAIM
    case ReclaimFeature => CMD_RECLAIM
    case ReclaimArea => CMD_RECLAIM
    case Cloak => CMD_CLOAK
    case Stockpile => CMD_STOCKPILE
    case DGun => CMD_MANUALFIRE
    case DGunPos => CMD_MANUALFIRE
    case RestoreArea => CMD_RESTORE
    case SetRepeat => CMD_REPEAT
    case SetTrajectory => CMD_TRAJECTORY
    case Resurrect => CMD_RESURRECT
    case ResurrectArea => CMD_RESURRECT
    case Capture => CMD_CAPTURE
    case CaptureArea => CMD_CAPTURE
    case SetAutoRepairLevel => CMD_AUTOREPAIRLEVEL
    case SetIdleMode => CMD_IDLEMODE
    case Custom => p.cmdId
  }

  // ----- extractAICommandTopic -----

  /** Classification by id, number of parameters and, for reclaim orders, the first parameter. */
  function Classify(id: int, numParams: nat, first: real, maxUnits: int): Topic {
    if id == CMD_STOP then Stop
    else if id == CMD_WAIT then Wait
    else if id == CMD_TIMEWAIT then WaitTime
    else if id == CMD_DEATHWAIT then WaitDeath
    else if id == CMD_SQUADWAIT then WaitSquad
    else if id == CMD_GATHERWAIT then WaitGather
    else if id == CMD_MOVE then Move
    else if id == CMD_PATROL then Patrol
    else if id == CMD_FIGHT then Fight
    else if id == CMD_ATTACK then (if numParams < 3 then Attack else AttackArea)
    else if id == CMD_GUARD then Guard
    else if id == CMD_GROUPADD then GroupAdd
    else if id == CMD_GROUPCLEAR then GroupClear
    else if id == CMD_REPAIR then Repair
    else if id == CMD_FIRE_STATE then SetFireState
    else if id == CMD_MOVE_STATE then SetMoveState
    else if id == CMD_SETBASE then SetBase
    else if id == CMD_SELFD then SelfDestroy
    else if id == CMD_LOAD_UNITS then (if numParams < 3 then LoadUnits else LoadUnitsArea)
    else if id == CMD_LOAD_ONTO then LoadOnto
    else if id == CMD_UNLOAD_UNITS then UnloadUnitsArea
    else if id == CMD_UNLOAD_UNIT then UnloadUnit
    else if id == CMD_ONOFF then SetOnOff
    else if id == CMD_RECLAIM then
      (if numParams < 3 || numParams == 5 then (if first < maxUnits as real then ReclaimUnit else ReclaimFeature)
       else ReclaimArea)
    else if id == CMD_CLOAK then Cloak
    else if id == CMD_STOCKPILE then Stockpile
    else if id == CMD_MANUALFIRE then (if numParams < 3 then DGun else DGunPos)
    else if id == CMD_RESTORE then RestoreArea
    else if id == CMD_REPEAT then SetRepeat
    else if id == CMD_TRAJECTORY then SetTrajectory
    else if id == CMD_RESURRECT then (if numParams < 3 then Resurrect else ResurrectArea)
    else if id == CMD_CAPTURE then (if numParams < 3 || numParams == 5 then Capture else CaptureArea)
    else if id == CMD_AUTOREPAIRLEVEL then SetAutoRepairLevel
    else if id == CMD_IDLEMODE then SetIdleMode
    else if id < 0 then Build
    else Custom
  }

  /** Reading a parameter that is not there gives zero. */
  function Param(params: seq<real>, i: nat): real {
    if i < |params| then params[i] else 0.0
  }

  function ExtractTopic(c: Command, maxUnits: int): Topic {
    Classify(c.id, |c.params|, Param(c.params, 0), maxUnits)
  }

  /** Ids that the classification knows. */
  predicate Reserved(id: int) {
    Classify(id, 0, 0.0, 1) !in {Build, Custom}
  }

  // ----- newCommand -----

  function Coords(p: Pos): seq<real> {
    [p.x, p.y, p.z]
  }

  function Reals(ids: seq<int>): (r: seq<real>)
    ensures |r| == |ids| && forall i :: 0 <= i < |ids| ==> r[i] == ids[i] as real
  {
    seq(|ids|, i requires 0 <= i < |ids| => ids[i] as real)
  }

  function EncodeParams(t: Topic, p: Payload, maxUnits: int): seq<real>
    requires HasShape(t, p)
  {
    match p
    case Plain => []
    case Number(n) => [(if t == ReclaimFeature then maxUnits + n else n) as real]
    case Flag(on) => [if on then 1.0 else 0.0]
    case Position(pos) => Coords(pos)
    case Area(pos, radius) => Coords(pos) + [radius]
    case Unload(pos, unit) => Coords(pos) + [unit as real]
    case Units(ids) => Reals(ids)
    case Site(_, at, facing) =>
      (if at.Some? then Coords(at.value) else []) + (if facing != NO_FACING then [facing as real] else [])
    case Raw(_, params) => params
  }

  /** The engine command of a structure; options and time-out are copied, the rest is fresh. */
  function Encode(t: Topic, p: Payload, options: int, timeOut: int, maxUnits: int): Command
    requires HasShape(t, p)
  {
    Command(InternalTopic(t, p), -1, timeOut, 0, options, EncodeParams(t, p, maxUnits))
  }

  // ----- executeCommand: the decoding half -----

  /** Conversion of a float to an integer drops the fraction. */
  function Trunc(r: real): int {
    if r >= 0.0 then r.Floor else -(-r).Floor
  }

  lemma TruncOfInt(n: int)
    ensures Trunc(n as real) == n
  {
    assert (n as real).Floor == n;
    assert -(n as real) == (-n) as real;
    assert ((-n) as real).Floor == -n;
  }

  /** The whole part of a parameter: the integer next to it on the side of zero. */
  lemma TruncTowardsZero(r: real)
    ensures r >= 0.0 ==> 0.0 <= Trunc(r) as real <= r < Trunc(r) as real + 1.0
    ensures r < 0.0 ==> Trunc(r) as real - 1.0 < r <= Trunc(r) as real <= 0.0
  {
  }

  /** Truncation keeps a parameter on its side of a positive bound. */
  lemma TruncBelow(r: real, bound: int)
    requires bound > 0
    ensures Trunc(r) as real < bound as real <==> r < bound as real
  {
    if r >= 0.0 {
      FloorBelow(r, r.Floor, bound);
    } else {
      assert (-r).Floor >= 0;
    }
  }

  lemma FloorBelow(r: real, f: int, bound: int)
    requires f as real <= r < (f + 1) as real
    ensures f < bound <==> r < bound as real
  {
    if f < bound {
      assert (f + 1) as real <= bound as real;
    }
  }

  /**
   * executeCommand copies the raw command with a memcpy of numParams bytes, so the copy's first
   * parameter is the raw one only from four parameters on; with fewer it holds low-order bytes of
   * a float, which read as a number from zero up to, but not including, one.
   */
  ghost predicate IsBytePrefix(low: (real, nat) -> real) {
    forall r, n {:trigger low(r, n)} :: n < 4 ==> 0.0 <= low(r, n) < 1.0
  }

  function CopiedFirst(low: (real, nat) -> real, params: seq<real>): real {
    if |params| >= 4 then params[0] else low(Param(params, 0), |params|)
  }

  /** The topic that executeCommand dispatches on. */
  function SeenTopic(low: (real, nat) -> real, c: Command, maxUnits: int): Topic {
    Classify(c.id, |c.params|, CopiedFirst(low, c.params), maxUnits)
  }

  /** The number of parameters a structure is filled from without further checks. */
  function MinArity(t: Topic): nat {
    match t
    case Build | Stop | Wait | WaitGather | GroupClear | SelfDestroy | Stockpile | LoadUnits | Custom => 0
    case Move | Patrol | Fight | SetBase | DGunPos => 3
    case AttackArea | LoadUnitsArea | UnloadUnitsArea | ReclaimArea | RestoreArea | ResurrectArea | CaptureArea => 3
    case UnloadUnit => 4
    case _ => 1
  }

  function PosOf(params: seq<real>): Pos
    requires |params| >= 3
  {
    Pos(params[0], params[1], params[2])
  }

  function Truncs(params: seq<real>): (r: seq<int>)
    ensures |r| == |params| && forall i :: 0 <= i < |params| ==> r[i] == Trunc(params[i])
  {
    seq(|params|, i requires 0 <= i < |params| => Trunc(params[i]))
  }

  /** The structure that is filled for a topic. */
  function DecodePayload(t: Topic, id: int, params: seq<real>, maxUnits: int): (p: Payload)
    requires |params| >= MinArity(t)
    ensures HasShape(t, p)
  {
    match t
    case Build =>
      Site(-id, if |params| >= 3 then Some(PosOf(params)) else None,
           if |params| >= 4 then Trunc(params[3]) else NO_FACING)
    case Stop | Wait | WaitGather | GroupClear | SelfDestroy | Stockpile => Plain
    case Move | Patrol | Fight | SetBase | DGunPos => Position(PosOf(params))
    case AttackArea | LoadUnitsArea | UnloadUnitsArea | ReclaimArea | RestoreArea | ResurrectArea | CaptureArea =>
      Area(PosOf(params), if |params| >= 4 then params[3] else 0.0)
    case LoadUnits => Units(Truncs(params))
    case UnloadUnit => Unload(PosOf(params), Trunc(params[3]))
    case SetOnOff | Cloak | SetRepeat => Flag(params[0] != 0.0)
    case Custom => Raw(id, params)
    case ReclaimFeature => Number(Trunc(params[0]) - maxUnits)
    case _ => Number(Trunc(params[0]))
  }

  /** The raw command has the parameters that its kind reads. */
  predicate WellArmed(low: (real, nat) -> real, c: Command, maxUnits: int) {
    |c.params| >= MinArity(SeenTopic(low, c, maxUnits))
  }

  /** A load order for no unit at all is dropped; everything else is decoded. */
  function Decode(low: (real, nat) -> real, c: Command, maxUnits: int): (r: Option<(Topic, Payload)>)
    requires WellArmed(low, c, maxUnits)
    ensures r.Some? ==> HasShape(r.value.0, r.value.1)
  {
    var t := SeenTopic(low, c, maxUnits);
    if t == LoadUnits && c.params == [] then None
    else Some((t, DecodePayload(t, c.id, c.params, maxUnits)))
  }

  /** What executeCommand orders: the raw command decoded and encoded again. */
  function Normalise(low: (real, nat) -> real, c: Command, maxUnits: int): Option<Command>
    requires WellArmed(low, c, maxUnits)
  {
    match Decode(low, c, maxUnits)
    case None => None
    case Some((t, p)) => Some(Encode(t, p, c.options, c.timeOut, maxUnits))
  }

  // ----- newCommand and extractAICommandTopic -----

  /** When the topic can be read back from the encoded command. */
  predicate TopicRecoverable(t: Topic, p: Payload, maxUnits: int)
    requires HasShape(t, p)
  {
    match t
    case Build => p.defId > 0
    case LoadUnits => |p.ids| <= 2
    case ReclaimUnit => p.n < maxUnits
    case ReclaimFeature => p.n >= 0
    case Custom => p.cmdId >= 0 && !Reserved(p.cmdId)
    case _ => true
  }

  /** newCommand and toInternalUnitCommandTopic agree, and the topic is recovered exactly when recoverable. */
  lemma TopicRoundTrip(t: Topic, p: Payload, options: int, timeOut: int, maxUnits: int)
    requires HasShape(t, p)
    ensures var c := Encode(t, p, options, timeOut, maxUnits);
            ExtractTopic(c, maxUnits) == t <==> TopicRecoverable(t, p, maxUnits)
  {
    var c := Encode(t, p, options, timeOut, maxUnits);
    match t
    case Custom =>
      ReservedAtAnyArity(p.cmdId, |c.params|, Param(c.params, 0), maxUnits);
    case Build =>
    case LoadUnits =>
    case ReclaimUnit =>
    case _ =>
  }

  /** Whether an id is known does not depend on the parameters. */
  lemma ReservedAtAnyArity(id: int, numParams: nat, first: real, maxUnits: int)
    ensures Reserved(id) <==> Classify(id, numParams, first, maxUnits) !in {Build, Custom}
  {
  }

  /**
   * Where one id stands for several kinds of order, three parameters or more make it one at a position,
   * except that reclaiming and capturing with five parameters is of a unit or feature; and a reclaimed unit
   * is told from a feature by the unit limit.
   */
  lemma KindByParameters(c: Command, maxUnits: int)
    ensures var t, n := ExtractTopic(c, maxUnits), |c.params|;
            && (c.id == CMD_ATTACK ==> t == if n >= 3 then AttackArea else Attack)
            && (c.id == CMD_LOAD_UNITS ==> t == if n >= 3 then LoadUnitsArea else LoadUnits)
            && (c.id == CMD_RESURRECT ==> t == if n >= 3 then ResurrectArea else Resurrect)
            && (c.id == CMD_MANUALFIRE ==> t == if n >= 3 then DGunPos else DGun)
            && (c.id == CMD_CAPTURE ==> t == if n >= 3 && n != 5 then CaptureArea else Capture)
            && (c.id == CMD_RECLAIM ==> (t == ReclaimArea <==> n >= 3 && n != 5))
            && (t == ReclaimUnit && n > 0 ==> c.params[0] < maxUnits as real)
            && (t == ReclaimFeature && n > 0 ==> c.params[0] >= maxUnits as real)
            && (t == Build ==> c.id < 0) && (t == Custom ==> c.id >= 0)
  {
  }

  // ----- executeCommand as a normaliser -----

  predicate IsInteger(r: real) {
    r == Trunc(r) as real
  }

  /** The encodings that executeCommand leaves alone. */
  predicate Canonical(c: Command, maxUnits: int) {
    && c.aiId == -1
    && c.tag == 0
    && var n := |c.params|;
       match ExtractTopic(c, maxUnits)
       case Build => n == 0 || n == 3 || (n == 4 && IsInteger(c.params[3]) && c.params[3] != NO_FACING as real)
       case Stop | Wait | WaitGather | GroupClear | SelfDestroy | Stockpile => n == 0
       case Move | Patrol | Fight | SetBase | DGunPos => n == 3
       case AttackArea | LoadUnitsArea | UnloadUnitsArea | ReclaimArea | RestoreArea |
         ResurrectArea | CaptureArea => n == 4
       case LoadUnits => n > 0 && forall i :: 0 <= i < n ==> IsInteger(c.params[i])
       case UnloadUnit => n == 4 && IsInteger(c.params[3])
       case SetOnOff | Cloak | SetRepeat => n == 1 && (c.params[0] == 0.0 || c.params[0] == 1.0)
       case Custom => true
       case _ => n == 1 && IsInteger(c.params[0])
  }

  /**
   * The byte copy changes the topic of exactly the reclaim orders for a feature with fewer than three
   * parameters, which it turns into orders for a unit; and never how many parameters are read.
   */
  lemma SeenUpToReclaim(low: (real, nat) -> real, c: Command, maxUnits: int)
    requires IsBytePrefix(low) && maxUnits > 0
    ensures var seen, own := SeenTopic(low, c, maxUnits), ExtractTopic(c, maxUnits);
            && (seen != own <==> own == ReclaimFeature && |c.params| < 3)
            && (seen != own ==> seen == ReclaimUnit)
            && MinArity(seen) == MinArity(own)
  {
  }

  /** A feature reclaimed with a single parameter is dispatched as a unit, for every feature. */
  lemma FeatureIsSeenAsUnit(low: (real, nat) -> real, feature: int, options: int, timeOut: int, maxUnits: int)
    requires IsBytePrefix(low) && maxUnits > 0
    ensures var c := Encode(ReclaimFeature, Number(feature), options, timeOut, maxUnits);
            && WellArmed(low, c, maxUnits)
            && Decode(low, c, maxUnits) == Some((ReclaimUnit, Number(maxUnits + feature)))
            && Normalise(low, c, maxUnits) == Some(c)
  {
    TruncOfInt(maxUnits + feature);
  }

  /** Both readings of a reclaim parameter encode to the same command. */
  lemma ReclaimEncodesAlike(r: real, options: int, timeOut: int, maxUnits: int)
    ensures Encode(ReclaimUnit, Number(Trunc(r)), options, timeOut, maxUnits)
         == Encode(ReclaimFeature, Number(Trunc(r) - maxUnits), options, timeOut, maxUnits)
  {
  }

  /** The normal form, computed from the engine's own classification alone. */
  function NormalForm(c: Command, maxUnits: int): Command
    requires |c.params| >= MinArity(ExtractTopic(c, maxUnits))
  {
    var t := ExtractTopic(c, maxUnits);
    Encode(t, DecodePayload(t, c.id, c.params, maxUnits), c.options, c.timeOut, maxUnits)
  }

  lemma NormaliseIsNormalForm(low: (real, nat) -> real, c: Command, maxUnits: int)
    requires IsBytePrefix(low) && maxUnits > 0 && WellArmed(low, c, maxUnits)
    ensures |c.params| >= MinArity(ExtractTopic(c, maxUnits))
    ensures Normalise(low, c, maxUnits)
            == if ExtractTopic(c, maxUnits) == LoadUnits && c.params == [] then None else Some(NormalForm(c, maxUnits))
  {
    SeenUpToReclaim(low, c, maxUnits);
    if SeenTopic(low, c, maxUnits) != ExtractTopic(c, maxUnits) {
      ReclaimEncodesAlike(c.params[0], c.options, c.timeOut, maxUnits);
    }
  }

  /** The normal form keeps id, options, time-out and topic, and has the parameters its topic needs. */
  lemma NormalFormKeeps(c: Command, maxUnits: int)
    requires maxUnits > 0 && |c.params| >= MinArity(ExtractTopic(c, maxUnits))
    ensures var n := NormalForm(c, maxUnits);
            && n.id == c.id && n.options == c.options && n.timeOut == c.timeOut
            && ExtractTopic(n, maxUnits) == ExtractTopic(c, maxUnits)
            && |n.params| >= MinArity(ExtractTopic(n, maxUnits))
  {
    InternalTopicOfExtracted(c, maxUnits);
    ExtractOfNormalForm(c, maxUnits);
  }

  lemma InternalTopicOfExtracted(c: Command, maxUnits: int)
    requires |c.params| >= MinArity(ExtractTopic(c, maxUnits))
    ensures NormalForm(c, maxUnits).id == c.id
  {
  }

  lemma ExtractOfNormalForm(c: Command, maxUnits: int)
    requires maxUnits > 0 && |c.params| >= MinArity(ExtractTopic(c, maxUnits))
    ensures var n := NormalForm(c, maxUnits);
            ExtractTopic(n, maxUnits) == ExtractTopic(c, maxUnits) && |n.params| >= MinArity(ExtractTopic(n, maxUnits))
  {
    hide InternalTopic, Trunc;
    var t := ExtractTopic(c, maxUnits);
    InternalTopicOfExtracted(c, maxUnits);
    if t == ReclaimUnit || t == ReclaimFeature {
      TruncBelow(c.params[0], maxUnits);
    }
  }

  /**
   * executeCommand preserves the topic of every raw command that has the parameters its kind
   * reads, and doing it twice is doing it once.
   */
  lemma NormaliseIsNormaliser(low: (real, nat) -> real, c: Command, maxUnits: int)
    requires IsBytePrefix(low) && maxUnits > 0 && WellArmed(low, c, maxUnits)
    ensures var n := Normalise(low, c, maxUnits);
            n.Some? ==>
              && n.value.id == c.id && n.value.options == c.options && n.value.timeOut == c.timeOut
              && ExtractTopic(n.value, maxUnits) == ExtractTopic(c, maxUnits)
              && WellArmed(low, n.value, maxUnits)
              && Normalise(low, n.value, maxUnits) == n
    ensures Normalise(low, c, maxUnits).None? <==> c.id == CMD_LOAD_UNITS && c.params == []
  {
    NormaliseIsNormalForm(low, c, maxUnits);
    var n := Normalise(low, c, maxUnits);
    if n.Some? {
      NormalFormKeeps(c, maxUnits);
      SeenUpToReclaim(low, n.value, maxUnits);
      NormaliseIsNormalForm(low, n.value, maxUnits);
      NormalFormIsCanonical(c, maxUnits);
      CanonicalIsFixed(n.value, maxUnits);
    }
  }

  lemma NormalFormIsCanonical(c: Command, maxUnits: int)
    requires maxUnits > 0 && |c.params| >= MinArity(ExtractTopic(c, maxUnits))
    requires !(ExtractTopic(c, maxUnits) == LoadUnits && c.params == [])
    ensures Canonical(NormalForm(c, maxUnits), maxUnits)
  {
    hide InternalTopic, Classify, Trunc;
    var t, n := ExtractTopic(c, maxUnits), NormalForm(c, maxUnits);
    NormalFormKeeps(c, maxUnits);
    forall i | 0 <= i < |c.params|
      ensures Trunc(Trunc(c.params[i]) as real) == Trunc(c.params[i])
    {
      TruncOfInt(Trunc(c.params[i]));
    }
  }

  lemma CanonicalIsFixed(c: Command, maxUnits: int)
    requires Canonical(c, maxUnits)
    ensures |c.params| >= MinArity(ExtractTopic(c, maxUnits))
    ensures NormalForm(c, maxUnits) == c
  {
    var t := ExtractTopic(c, maxUnits);
    InternalTopicOfExtracted(c, maxUnits);
    assert NormalForm(c, maxUnits).params == c.params;
  }

  /** The raw commands that executeCommand leaves alone are exactly the canonical ones. */
  lemma FixedIffCanonical(low: (real, nat) -> real, c: Command, maxUnits: int)
    requires IsBytePrefix(low) && maxUnits > 0 && WellArmed(low, c, maxUnits)
    ensures Normalise(low, c, maxUnits) == Some(c) <==> Canonical(c, maxUnits)
  {
    NormaliseIsNormalForm(low, c, maxUnits);
    if Canonical(c, maxUnits) {
      CanonicalIsFixed(c, maxUnits);
    }
    if Normalise(low, c, maxUnits) == Some(c) {
      NormalFormIsCanonical(c, maxUnits);
    }
  }

  // ----- what becomes of every single parameter -----

  /** How a parameter is passed on: as it is, truncated, or as one for anything but zero. */
  datatype Kind = Exact | Whole | Switch

  function KindAt(t: Topic, i: nat): Kind {
    match t
    case SetOnOff | Cloak | SetRepeat => Switch
    case Move | Patrol | Fight | SetBase | DGunPos | Custom => Exact
    case AttackArea | LoadUnitsArea | UnloadUnitsArea | ReclaimArea | RestoreArea | ResurrectArea | CaptureArea => Exact
    case Build | UnloadUnit => if i < 3 then Exact else Whole
    case _ => Whole
  }

  predicate PassedOn(kind: Kind, before: real, after: real) {
    match kind
    case Exact => after == before
    case Whole => after == Trunc(before) as real
    case Switch => after == if before == 0.0 then 0.0 else 1.0
  }

  /** How many parameters an order has. */
  function KeptCount(t: Topic, params: seq<real>): nat {
    match t
    case Stop | Wait | WaitGather | GroupClear | SelfDestroy | Stockpile => 0
    case Move | Patrol | Fight | SetBase | DGunPos => 3
    case AttackArea | LoadUnitsArea | UnloadUnitsArea | ReclaimArea | RestoreArea | ResurrectArea | CaptureArea => 4
    case UnloadUnit => 4
    case Build => if |params| < 3 then 0 else if |params| == 3 || Trunc(params[3]) == NO_FACING then 3 else 4
    case LoadUnits | Custom => |params|
    case _ => 1
  }

  /** The parameters of an order from those of the raw command. */
  ghost predicate Stay(t: Topic, before: seq<real>, after: seq<real>) {
    && |after| == KeptCount(t, before)
    && forall i :: 0 <= i < |after| ==>
         if i < |before| then PassedOn(KindAt(t, i), before[i], after[i])
         else i == 3 && EncodesArea(t) && after[i] == 0.0
  }

  /** The payload that executeCommand fills and newCommand writes out again. */
  function Passed(t: Topic, id: int, params: seq<real>, maxUnits: int): seq<real>
    requires |params| >= MinArity(t)
  {
    EncodeParams(t, DecodePayload(t, id, params, maxUnits), maxUnits)
  }

  lemma PlainStays(t: Topic, id: int, params: seq<real>, maxUnits: int)
    requires |params| >= MinArity(t)
    requires t in {Stop, Wait, WaitGather, GroupClear, SelfDestroy, Stockpile}
    ensures Stay(t, params, Passed(t, id, params, maxUnits))
  {
    hide Trunc;
  }

  lemma FlagStays(t: Topic, id: int, params: seq<real>, maxUnits: int)
    requires |params| >= MinArity(t)
    requires t in {SetOnOff, Cloak, SetRepeat}
    ensures Stay(t, params, Passed(t, id, params, maxUnits))
  {
    hide Trunc;
  }

  lemma PositionStays(t: Topic, id: int, params: seq<real>, maxUnits: int)
    requires |params| >= MinArity(t)
    requires t in {Move, Patrol, Fight, SetBase, DGunPos}
    ensures Stay(t, params, Passed(t, id, params, maxUnits))
  {
    hide Trunc;
  }

  lemma AreaKinds(t: Topic, params: seq<real>)
    requires t in {AttackArea, LoadUnitsArea, UnloadUnitsArea, ReclaimArea, RestoreArea, ResurrectArea, CaptureArea}
    ensures EncodesArea(t) && MinArity(t) == 3 && KeptCount(t, params) == 4
    ensures forall i: nat :: KindAt(t, i) == Exact
  {
  }

  lemma AreaPassed(t: Topic, id: int, params: seq<real>, maxUnits: int)
    requires |params| >= MinArity(t) == 3
    requires t in {AttackArea, LoadUnitsArea, UnloadUnitsArea, ReclaimArea, RestoreArea, ResurrectArea, CaptureArea}
    ensures Passed(t, id, params, maxUnits) ==
            [params[0], params[1], params[2], if |params| >= 4 then params[3] else 0.0]
  {
    hide KindAt, KeptCount;
  }

  lemma AreaStays(t: Topic, id: int, params: seq<real>, maxUnits: int)
    requires |params| >= MinArity(t)
    requires t in {AttackArea, LoadUnitsArea, UnloadUnitsArea, ReclaimArea, RestoreArea, ResurrectArea, CaptureArea}
    ensures Stay(t, params, Passed(t, id, params, maxUnits))
  {
    AreaKinds(t, params);
    AreaPassed(t, id, params, maxUnits);
    hide Passed, KindAt, KeptCount, MinArity, EncodesArea, DecodePayload, EncodeParams;
  }

  lemma SiteStays(t: Topic, id: int, params: seq<real>, maxUnits: int)
    requires t == Build
    ensures Stay(t, params, Passed(t, id, params, maxUnits))
  {
    hide Trunc;
    var after := Passed(t, id, params, maxUnits);
    if |params| < 3 {
      assert after == [];
    } else {
      var coords := Coords(PosOf(params));
      var facing := if |params| >= 4 then Trunc(params[3]) else NO_FACING;
      assert after == coords + if facing != NO_FACING then [facing as real] else [];
    }
  }

  lemma UnloadStays(t: Topic, id: int, params: seq<real>, maxUnits: int)
    requires |params| >= MinArity(t)
    requires t == UnloadUnit
    ensures Stay(t, params, Passed(t, id, params, maxUnits))
  {
    hide Trunc;
  }

  lemma ListStays(t: Topic, id: int, params: seq<real>, maxUnits: int)
    requires |params| >= MinArity(t)
    requires t == LoadUnits || t == Custom
    ensures Stay(t, params, Passed(t, id, params, maxUnits))
  {
    hide Trunc;
  }

  lemma NumberKinds(t: Topic, params: seq<real>)
    requires HasShape(t, Number(0))
    ensures MinArity(t) == 1 && KindAt(t, 0) == Whole && KeptCount(t, params) == 1
  {
  }

  lemma NumberPassed(t: Topic, id: int, params: seq<real>, maxUnits: int)
    requires HasShape(t, Number(0)) && |params| >= MinArity(t) == 1
    ensures Passed(t, id, params, maxUnits) == [Trunc(params[0]) as real]
  {
    hide Trunc, KindAt, KeptCount;
  }

  lemma NumberStays(t: Topic, id: int, params: seq<real>, maxUnits: int)
    requires |params| >= MinArity(t) && HasShape(t, Number(0))
    ensures Stay(t, params, Passed(t, id, params, maxUnits))
  {
    NumberKinds(t, params);
    NumberPassed(t, id, params, maxUnits);
    hide Trunc, Passed, KindAt, KeptCount, MinArity, HasShape, DecodePayload, EncodeParams;
    var after := Passed(t, id, params, maxUnits);
    assert PassedOn(KindAt(t, 0), params[0], after[0]);
  }

  lemma AllStay(t: Topic, id: int, params: seq<real>, maxUnits: int)
    requires |params| >= MinArity(t)
    ensures Stay(t, params, Passed(t, id, params, maxUnits))
  {
    hide Stay, Passed, MinArity;
    if t in {Stop, Wait, WaitGather, GroupClear, SelfDestroy, Stockpile} {
      PlainStays(t, id, params, maxUnits);
    } else if t in {SetOnOff, Cloak, SetRepeat} {
      FlagStays(t, id, params, maxUnits);
    } else if t in {Move, Patrol, Fight, SetBase, DGunPos} {
      PositionStays(t, id, params, maxUnits);
    } else if t in {AttackArea, LoadUnitsArea, UnloadUnitsArea, ReclaimArea, RestoreArea, ResurrectArea, CaptureArea} {
      AreaStays(t, id, params, maxUnits);
    } else if t == Build {
      SiteStays(t, id, params, maxUnits);
    } else if t == UnloadUnit {
      UnloadStays(t, id, params, maxUnits);
    } else if t == LoadUnits || t == Custom {
      ListStays(t, id, params, maxUnits);
    } else {
      NumberStays(t, id, params, maxUnits);
    }
  }

  /**
   * Every parameter of an order is the raw parameter at the same place, passed on according to its kind;
   * only the radius of an area can be missing from the raw command, and is then zero.
   */
  lemma ParametersStay(low: (real, nat) -> real, c: Command, maxUnits: int)
    requires IsBytePrefix(low) && maxUnits > 0 && WellArmed(low, c, maxUnits) && Normalise(low, c, maxUnits).Some?
    ensures var t, n := ExtractTopic(c, maxUnits), Normalise(low, c, maxUnits).value;
            Stay(t, c.params, n.params)
  {
    NormaliseIsNormalForm(low, c, maxUnits);
    var t := ExtractTopic(c, maxUnits);
    AllStay(t, c.id, c.params, maxUnits);
    hide IsBytePrefix, Normalise, Stay, InternalTopic, Classify, DecodePayload, EncodeParams;
    assert NormalForm(c, maxUnits).params == Passed(t, c.id, c.params, maxUnits);
  }

  predicate EncodesArea(t: Topic) {
    HasShape(t, Area(Pos(0.0, 0.0, 0.0), 0.0))
  }

  /** Where the fields of a structure stand in its command: coordinates first, then radius, unit or facing. */
  lemma FieldsStand(t: Topic, p: Payload, options: int, timeOut: int, maxUnits: int)
    requires HasShape(t, p)
    ensures var q := Encode(t, p, options, timeOut, maxUnits).params;
            match p
            case Plain => q == []
            case Number(n) => |q| == 1 && q[0] == (if t == ReclaimFeature then n + maxUnits else n) as real
            case Flag(on) => |q| == 1 && q[0] == if on then 1.0 else 0.0
            case Position(pos) => |q| == 3 && q[0] == pos.x && q[1] == pos.y && q[2] == pos.z
            case Area(pos, radius) => |q| == 4 && q[0] == pos.x && q[1] == pos.y && q[2] == pos.z && q[3] == radius
            case Unload(pos, unit) =>
              |q| == 4 && q[0] == pos.x && q[1] == pos.y && q[2] == pos.z && q[3] == unit as real
            case Units(ids) => |q| == |ids| && forall i :: 0 <= i < |ids| ==> q[i] == ids[i] as real
            case Site(_, at, facing) =>
              && |q| == (if at.Some? then 3 else 0) + (if facing != NO_FACING then 1 else 0)
              && (at.Some? ==> q[0] == at.value.x && q[1] == at.value.y && q[2] == at.value.z)
              && (facing != NO_FACING ==> q[|q| - 1] == facing as real)
            case Raw(_, params) => q == params
  {
  }

  // ----- structures through the whole path -----

  /** When a structure comes back from its own encoding. */
  predicate PayloadRecoverable(t: Topic, p: Payload, maxUnits: int)
    requires HasShape(t, p)
  {
    && (t == ReclaimUnit || TopicRecoverable(t, p, maxUnits))
    && t != ReclaimFeature
    && (t == LoadUnits ==> p.ids != [])
    && (t == Build ==> p.at.Some? || p.facing == NO_FACING)
  }

  /**
   * Encoding a structure and letting executeCommand decode the result gives the structure back
   * exactly when it is recoverable.
   */
  lemma PayloadRoundTrip(low: (real, nat) -> real, t: Topic, p: Payload, options: int, timeOut: int, maxUnits: int)
    requires IsBytePrefix(low) && maxUnits > 0 && HasShape(t, p)
    ensures var c := Encode(t, p, options, timeOut, maxUnits);
            (WellArmed(low, c, maxUnits) && Decode(low, c, maxUnits) == Some((t, p))) <==>
              PayloadRecoverable(t, p, maxUnits)
  {
    var c := Encode(t, p, options, timeOut, maxUnits);
    SeenUpToReclaim(low, c, maxUnits);
    TopicRoundTrip(t, p, options, timeOut, maxUnits);
    if t == ReclaimFeature {
      FeatureIsSeenAsUnit(low, p.n, options, timeOut, maxUnits);
    } else if t == ReclaimUnit || TopicRecoverable(t, p, maxUnits) {
      assert SeenTopic(low, c, maxUnits) == t;
      PayloadBack(t, p, maxUnits);
    }
  }

  lemma PayloadBack(t: Topic, p: Payload, maxUnits: int)
    requires HasShape(t, p) && t != ReclaimFeature
    requires t == ReclaimUnit || TopicRecoverable(t, p, maxUnits)
    ensures var params := EncodeParams(t, p, maxUnits);
            && |params| >= MinArity(t)
            && (DecodePayload(t, InternalTopic(t, p), params, maxUnits) == p
                <==> (t == Build ==> p.at.Some? || p.facing == NO_FACING))
  {
    var params := EncodeParams(t, p, maxUnits);
    match p
    case Number(n) => TruncOfInt(n);
    case Unload(_, unit) => TruncOfInt(unit);
    case Site(_, _, facing) => TruncOfInt(facing);
    case Units(ids) =>
      forall i | 0 <= i < |ids| ensures Trunc(params[i]) == ids[i] {
        TruncOfInt(ids[i]);
      }
      assert Truncs(params) == ids;
    case _ =>
  }

  // ----- newCommand, step by step -----

  class EngineCommand {
    var id: int
    var aiId: int
    var timeOut: int
    var tag: nat
    var options: int
    var params: seq<real>

    ghost function Value(): Command
      reads this
    {
      Command(id, aiId, timeOut, tag, options, params)
    }

    /** A fresh command without parameters; it never times out. */
    method Reset(cmdId: int, cmdOptions: int)
      modifies this
      ensures Value() == Command(cmdId, -1, Versions.INT_MAX, 0, cmdOptions, [])
    {
      id, aiId, timeOut, tag, options, params := cmdId, -1, Versions.INT_MAX, 0, cmdOptions, [];
    }

    /** The same with one parameter. */
    method ResetWith(cmdId: int, cmdOptions: int, param: real)
      modifies this
      ensures Value() == Command(cmdId, -1, Versions.INT_MAX, 0, cmdOptions, [param])
    {
      Reset(cmdId, cmdOptions);
      PushParam(param);
    }

    method SetTimeOut(t: int)
      modifies this
      ensures Value() == old(Value()).(timeOut := t)
    {
      timeOut := t;
    }

    method PushParam(r: real)
      modifies this
      ensures Value() == old(Value()).(params := old(params) + [r])
    {
      params := params + [r];
    }

    method PushPos(p: Pos)
      modifies this
      ensures Value() == old(Value()).(params := old(params) + Coords(p))
    {
      PushParam(p.x);
      PushParam(p.y);
      PushParam(p.z);
    }

    method PushUnits(ids: seq<int>)
      modifies this
      ensures Value() == old(Value()).(params := old(params) + Reals(ids))
    {
      for i := 0 to |ids|
        invariant Value() == old(Value()).(params := old(params) + Reals(ids[..i]))
      {
        PushParam(ids[i] as real);
        assert Reals(ids[..i + 1]) == Reals(ids[..i]) + [ids[i] as real];
      }
      assert ids[..|ids|] == ids;
    }

    method PushAll(values: seq<real>)
      modifies this
      ensures Value() == old(Value()).(params := old(params) + values)
    {
      for i := 0 to |values|
        invariant Value() == old(Value()).(params := old(params) + values[..i])
      {
        PushParam(values[i]);
        assert values[..i + 1] == values[..i] + [values[i]];
      }
      assert values[..|values|] == values;
    }

    /** newCommand for structures without a position or a list. */
    method FromScalar(t: Topic, p: Payload, cmdOptions: int, cmdTimeOut: int, maxUnits: int)
      requires HasShape(t, p) && (p.Plain? || p.Number? || p.Flag?)
      modifies this
      ensures Value() == Encode(t, p, cmdOptions, cmdTimeOut, maxUnits)
    {
      match t {
        case Stop =>
          Reset(CMD_STOP, cmdOptions);
        case Wait =>
          Reset(CMD_WAIT, cmdOptions);
        case WaitTime =>
          ResetWith(CMD_TIMEWAIT, cmdOptions, p.n as real);
        case WaitDeath =>
          ResetWith(CMD_DEATHWAIT, cmdOptions, p.n as real);
        case WaitSquad =>
          ResetWith(CMD_SQUADWAIT, cmdOptions, p.n as real);
        case WaitGather =>
          Reset(CMD_GATHERWAIT, cmdOptions);
        case Attack =>
          ResetWith(CMD_ATTACK, cmdOptions, p.n as real);
        case Guard =>
          ResetWith(CMD_GUARD, cmdOptions, p.n as real);
        case GroupAdd =>
          ResetWith(CMD_GROUPADD, cmdOptions, p.n as real);
        case GroupClear =>
          Reset(CMD_GROUPCLEAR, cmdOptions);
        case Repair =>
          ResetWith(CMD_REPAIR, cmdOptions, p.n as real);
        case SetFireState =>
          ResetWith(CMD_FIRE_STATE, cmdOptions, p.n as real);
        case SetMoveState =>
          ResetWith(CMD_MOVE_STATE, cmdOptions, p.n as real);
        case SelfDestroy =>
          Reset(CMD_SELFD, cmdOptions);
        case LoadOnto =>
          ResetWith(CMD_LOAD_ONTO, cmdOptions, p.n as real);
        case SetOnOff =>
          ResetWith(CMD_ONOFF, cmdOptions, if p.on then 1.0 else 0.0);
        case ReclaimUnit =>
          ResetWith(CMD_RECLAIM, cmdOptions, p.n as real);
        case ReclaimFeature =>
          ResetWith(CMD_RECLAIM, cmdOptions, (maxUnits + p.n) as real);
        case Cloak =>
          ResetWith(CMD_CLOAK, cmdOptions, if p.on then 1.0 else 0.0);
        case Stockpile =>
          Reset(CMD_STOCKPILE, cmdOptions);
        case DGun =>
          ResetWith(CMD_MANUALFIRE, cmdOptions, p.n as real);
        case SetRepeat =>
          ResetWith(CMD_REPEAT, cmdOptions, if p.on then 1.0 else 0.0);
        case SetTrajectory =>
          ResetWith(CMD_TRAJECTORY, cmdOptions, p.n as real);
        case Resurrect =>
          ResetWith(CMD_RESURRECT, cmdOptions, p.n as real);
        case Capture =>
          ResetWith(CMD_CAPTURE, cmdOptions, p.n as real);
        case SetAutoRepairLevel =>
          ResetWith(CMD_AUTOREPAIRLEVEL, cmdOptions, p.n as real);
        case SetIdleMode =>
          ResetWith(CMD_IDLEMODE, cmdOptions, p.n as real);
        case _ =>
      }
      SetTimeOut(cmdTimeOut);
    }

    /** newCommand for structures with a position or a list. */
    method FromPlaced(t: Topic, p: Payload, cmdOptions: int, cmdTimeOut: int, maxUnits: int)
      requires HasShape(t, p) && !(p.Plain? || p.Number? || p.Flag?)
      modifies this
      ensures Value() == Encode(t, p, cmdOptions, cmdTimeOut, maxUnits)
    {
      match t {
        case Build =>
          Reset(-p.defId, cmdOptions);
          if p.at.Some? {
            PushPos(p.at.value);
          }
          if p.facing != NO_FACING {
            PushParam(p.facing as real);
          }
        case Move =>
          Reset(CMD_MOVE, cmdOptions);
          PushPos(p.pos);
        case Patrol =>
          Reset(CMD_PATROL, cmdOptions);
          PushPos(p.pos);
        case Fight =>
          Reset(CMD_FIGHT, cmdOptions);
          PushPos(p.pos);
        case AttackArea =>
          Reset(CMD_ATTACK, cmdOptions);
          PushPos(p.pos);
          PushParam(p.radius);
        case SetBase =>
          Reset(CMD_SETBASE, cmdOptions);
          PushPos(p.pos);
        case LoadUnits =>
          Reset(CMD_LOAD_UNITS, cmdOptions);
          PushUnits(p.ids);
        case LoadUnitsArea =>
          Reset(CMD_LOAD_UNITS, cmdOptions);
          PushPos(p.pos);
          PushParam(p.radius);
        case UnloadUnitsArea =>
          Reset(CMD_UNLOAD_UNITS, cmdOptions);
          PushPos(p.pos);
          PushParam(p.radius);
        case UnloadUnit =>
          Reset(CMD_UNLOAD_UNIT, cmdOptions);
          PushPos(p.pos);
          PushParam(p.unit as real);
        case ReclaimArea =>
          Reset(CMD_RECLAIM, cmdOptions);
          PushPos(p.pos);
          PushParam(p.radius);
        case DGunPos =>
          Reset(CMD_MANUALFIRE, cmdOptions);
          PushPos(p.pos);
        case RestoreArea =>
          Reset(CMD_RESTORE, cmdOptions);
          PushPos(p.pos);
          PushParam(p.radius);
        case ResurrectArea =>
          Reset(CMD_RESURRECT, cmdOptions);
          PushPos(p.pos);
          PushParam(p.radius);
        case CaptureArea =>
          Reset(CMD_CAPTURE, cmdOptions);
          PushPos(p.pos);
          PushParam(p.radius);
        case Custom =>
          Reset(p.cmdId, cmdOptions);
          PushAll(p.params);
        case _ =>
      }
      SetTimeOut(cmdTimeOut);
    }

    /** newCommand: overwrites this command with the encoding of a structure. */
    method FromStructure(t: Topic, p: Payload, cmdOptions: int, cmdTimeOut: int, maxUnits: int)
      requires HasShape(t, p)
      modifies this
      ensures Value() == Encode(t, p, cmdOptions, cmdTimeOut, maxUnits)
    {
      if p.Plain? || p.Number? || p.Flag? {
        FromScalar(t, p, cmdOptions, cmdTimeOut, maxUnits);
      } else {
        FromPlaced(t, p, cmdOptions, cmdTimeOut, maxUnits);
      }
    }
  }

  /** Who receives an order: a unit, or a group if the unit id is negative. */
  datatype Receiver = ToUnit(unitId: int) | ToGroup(groupId: int)

  /** executeCommand: decodes the raw command into a structure, which is encoded and ordered. */
  method ExecuteCommand(low: (real, nat) -> real, raw: Command, unitId: int, groupId: int, maxUnits: int)
    returns (order: Option<(Receiver, EngineCommand)>)
    requires WellArmed(low, raw, maxUnits)
    ensures order.Some? ==>
              && fresh(order.value.1)
              && order.value.0 == (if unitId >= 0 then ToUnit(unitId) else ToGroup(groupId))
    ensures Normalise(low, raw, maxUnits) == match order case None => None case Some((_, c)) => Some(c.Value())
  {
    var topic := SeenTopic(low, raw, maxUnits);
    if topic == LoadUnits && raw.params == [] {
      return None;
    }
    var payload;
    if topic == LoadUnits {
      var ids := [];
      for u := 0 to |raw.params|
        invariant ids == Truncs(raw.params[..u])
      {
        ids := ids + [Trunc(raw.params[u])];
        assert Truncs(raw.params[..u + 1]) == Truncs(raw.params[..u]) + [Trunc(raw.params[u])];
      }
      assert raw.params[..|raw.params|] == raw.params;
      payload := Units(ids);
    } else {
      payload := DecodePayload(topic, raw.id, raw.params, maxUnits);
    }
    var c := new EngineCommand;
    c.FromStructure(topic, payload, raw.options, raw.timeOut, maxUnits);
    order := Some((if unitId >= 0 then ToUnit(unitId) else ToGroup(groupId), c));
  }
}
