/**
 * Vehicle-type classification, damage-model and door support, and the
 * mapping from passenger index to the game's door/seat identifier.
 *
 * The game's model-info object is an outside collaborator: it is passed in
 * as `info`, which answers the ten shape predicates for a model id, or
 * `None` when the game has no model info for it.
 */
module VehicleTypes {
  import opened Common
  import opened VehicleModels

  datatype VehicleType =
    | NoType | Car | Bike | Plane | Heli | Boat | QuadBike | Bmx | MonsterTruck | Trailer | Train

  /** The answers of the game's model-info object for one model. */
  datatype Shape = Shape(
    isCar: bool, isBike: bool, isPlane: bool, isHeli: bool, isBoat: bool,
    isQuadBike: bool, isBmx: bool, isMonsterTruck: bool, isTrailer: bool, isTrain: bool)

  type ModelInfo = uint32 -> Option<Shape>

  /** Whether `shape` answers yes to the predicate that names `t`. */
  predicate Matches(shape: Shape, t: VehicleType)
  {
    match t
    case NoType => false
    case Car => shape.isCar
    case Bike => shape.isBike
    case Plane => shape.isPlane
    case Heli => shape.isHeli
    case Boat => shape.isBoat
    case QuadBike => shape.isQuadBike
    case Bmx => shape.isBmx
    case MonsterTruck => shape.isMonsterTruck
    case Trailer => shape.isTrailer
    case Train => shape.isTrain
  }

  /** Position of each type in the order the classifier asks. */
  function Priority(t: VehicleType): nat
  {
    match t
    case Car => 0
    case Bike => 1
    case Plane => 2
    case Heli => 3
    case Boat => 4
    case QuadBike => 5
    case Bmx => 6
    case MonsterTruck => 7
    case Trailer => 8
    case Train => 9
    case NoType => 10
  }

  /**
   * GetVehicleType: the first shape predicate, in priority order, that holds
   * for a valid model; NoType for invalid ids, missing model info, or when
   * no predicate holds.
   */
  function GetVehicleType(model: uint32, info: ModelInfo): (t: VehicleType)
    ensures !IsValidModel(model) || info(model).None? ==> t == NoType
    ensures t != NoType ==> IsValidModel(model) && info(model).Some? && Matches(info(model).value, t)
    ensures t != NoType ==> forall u: VehicleType :: Priority(u) < Priority(t) ==> !Matches(info(model).value, u)
    ensures t == NoType && IsValidModel(model) && info(model).Some? ==>
              forall u: VehicleType :: !Matches(info(model).value, u)
  {
    if IsValidModel(model) && info(model).Some? then
      var shape := info(model).value;
      if shape.isCar then Car
      else if shape.isBike then Bike
      else if shape.isPlane then Plane
      else if shape.isHeli then Heli
      else if shape.isBoat then Boat
      else if shape.isQuadBike then QuadBike
      else if shape.isBmx then Bmx
      else if shape.isMonsterTruck then MonsterTruck
      else if shape.isTrailer then Trailer
      else if shape.isTrain then Train
      else NoType
    else
      NoType
  }

  /** HasDamageModel(type): the categories with a deformable body. */
  function HasDamageModelType(t: VehicleType): (r: bool)
    ensures r <==> t !in {NoType, Bike, Boat, Bmx, Train}
  {
    match t
    case Trailer | MonsterTruck | QuadBike | Heli | Plane | Car => true
    case _ => false
  }

  /** HasDamageModel(model): whether the model's type has a deformable body. */
  function HasDamageModel(model: uint32, info: ModelInfo): (r: bool)
    ensures r <==> GetVehicleType(model, info) in {Trailer, MonsterTruck, QuadBike, Heli, Plane, Car}
    ensures r ==> IsValidModel(model) && info(model).Some?
  {
    HasDamageModelType(GetVehicleType(model, info))
  }

  /**
   * The models HasDoors rejects although their type has a damage model:
   * BF Injection, RC Bandit, Caddy, RC Raider, Baggage, Dozer, Forklift,
   * Tractor, RC Tiger, Bandito, Kart, Mower, RC Cam, RC Goblin.
   */
  const DoorlessModels: set<uint32> :=
    {424, 441, 457, 465, 485, 486, 530, 531, 564, 568, 571, 572, 594, 501}

  function HasDoors(model: uint32, info: ModelInfo): (r: bool)
    ensures r ==> IsValidModel(model) && model !in DoorlessModels
    ensures model in DoorlessModels ==> !r
    ensures !HasDamageModel(model, info) ==> !r
    ensures HasDamageModel(model, info) && model !in DoorlessModels ==> r
  {
    HasDamageModel(model, info) && model !in DoorlessModels
  }

  /** A model has doors exactly when its type has a damage model and it is not one of the doorless models. */
  lemma HasDoorsIffType(model: uint32, info: ModelInfo)
    ensures HasDoors(model, info) <==>
              GetVehicleType(model, info) in {Trailer, MonsterTruck, QuadBike, Heli, Plane, Car} && model !in DoorlessModels
  {
  }

  /** Door identifiers ConvertIndexToGameSeat can return; NoSeat is 0xFF. */
  datatype Seat = FrontLeft | FrontRight | RearLeft | RearRight | NoSeat

  /**
   * ConvertIndexToGameSeat: passenger index 0 is the driver; the others are
   * placed according to the model's passenger count.
   */
  function ConvertIndexToGameSeat(model: uint32, index: uint8, info: ModelInfo): (seat: Seat)
    ensures index == 0 ==> seat == FrontLeft
  {
    var vehicleType := GetVehicleType(model, info);
    var maxPassengers := GetMaxPassengerCount(model);
    if maxPassengers == 0 || maxPassengers == 255 then
      if index == 0 then FrontLeft else NoSeat
    else if maxPassengers == 1 then
      var isBike := vehicleType == Bike || vehicleType == QuadBike;
      if index == 0 then FrontLeft
      else if index == 1 then (if isBike then RearRight else FrontRight)
      else if isBike && index == 2 then RearLeft
      else if isBike && index == 3 then RearRight
      else NoSeat
    else if maxPassengers == 3 then
      if index == 0 then FrontLeft
      else if index == 1 then FrontRight
      else if index == 2 then RearLeft
      else if index == 3 then RearRight
      else NoSeat
    else if maxPassengers == 8 then
      if index == 0 then FrontLeft
      else if index <= 8 then FrontRight
      else NoSeat
    else
      NoSeat
  }

  predicate IsBikeLike(model: uint32, info: ModelInfo)
  {
    GetVehicleType(model, info) in {Bike, QuadBike}
  }

  /** The cases of the seat table, one lemma per passenger count. */
  lemma SeatsWithoutPassengers(model: uint32, index: uint8, info: ModelInfo)
    requires GetMaxPassengerCount(model) in {0, 255}
    ensures ConvertIndexToGameSeat(model, index, info) == (if index == 0 then FrontLeft else NoSeat)
  {
  }

  lemma SeatsWithOnePassenger(model: uint32, index: uint8, info: ModelInfo)
    requires GetMaxPassengerCount(model) == 1
    ensures IsBikeLike(model, info) ==>
              ConvertIndexToGameSeat(model, index, info) ==
                (match index case 0 => FrontLeft case 1 => RearRight case 2 => RearLeft
                             case 3 => RearRight case _ => NoSeat)
    ensures !IsBikeLike(model, info) ==>
              ConvertIndexToGameSeat(model, index, info) ==
                (match index case 0 => FrontLeft case 1 => FrontRight case _ => NoSeat)
  {
  }

  lemma SeatsWithThreePassengers(model: uint32, index: uint8, info: ModelInfo)
    requires GetMaxPassengerCount(model) == 3
    ensures ConvertIndexToGameSeat(model, index, info) ==
              (match index case 0 => FrontLeft case 1 => FrontRight case 2 => RearLeft
                           case 3 => RearRight case _ => NoSeat)
  {
  }

  lemma SeatsWithEightPassengers(model: uint32, index: uint8, info: ModelInfo)
    requires GetMaxPassengerCount(model) == 8
    ensures ConvertIndexToGameSeat(model, index, info) ==
              (if index == 0 then FrontLeft else if index <= 8 then FrontRight else NoSeat)
  {
  }

  /**
   * The highest passenger index that has a seat, stated from the passenger
   * count alone (bikes and quads seat up to index 3 although their count is 1).
   */
  function HighestSeatIndex(maxPassengers: uint8, isBike: bool): int
  {
    if maxPassengers == 0 || maxPassengers == 255 then 0
    else if maxPassengers == 1 then (if isBike then 3 else 1)
    else if maxPassengers == 3 then 3
    else if maxPassengers == 8 then 8
    else -1
  }

  /** An index resolves to a seat exactly when it is at most the highest seat index. */
  lemma SeatExistsIffWithinCapacity(model: uint32, index: uint8, info: ModelInfo)
    ensures ConvertIndexToGameSeat(model, index, info) != NoSeat <==>
              index <= HighestSeatIndex(GetMaxPassengerCount(model), IsBikeLike(model, info))
    ensures HighestSeatIndex(GetMaxPassengerCount(model), IsBikeLike(model, info)) >= 0
  {
  }

  /** Bus scenario: model 431 has eight passengers, so index 5 boards front-right and 9 has no seat. */
  lemma BusSeats(info: ModelInfo)
    ensures GetMaxPassengerCount(431) == 8
    ensures ConvertIndexToGameSeat(431, 5, info) == FrontRight
    ensures ConvertIndexToGameSeat(431, 9, info) == NoSeat
  {
  }
}
