/**
 * The static vehicle-model catalog of the client vehicle manager: which model
 * ids are valid, the per-model passenger, attribute and cosmetic-variant
 * tables, and the variant picker.
 */
module VehicleModels {
  import opened Common

  const FirstModel := 400
  const LastModel := 611
  /** One id inside the range that names no drivable model. */
  const UnusedModel := 570
  /** Number of entries in every per-model table. */
  const ModelCount := 212
  /** Entry meaning "no passenger count known" / "no cosmetic variants". */
  const NoEntry: uint8 := 0xFF

  /** A valid model indexes every per-model table in bounds, and is not the unused id. */
  function IsValidModel(model: uint32): (b: bool)
    ensures b ==> 0 <= model - FirstModel < ModelCount
    ensures b ==> model != UnusedModel
  {
    FirstModel <= model <= LastModel && model != UnusedModel
  }

  /** Every train lies in the model range; all but the unused id are valid models. */
  function IsTrainModel(model: uint32): (b: bool)
    ensures b ==> FirstModel <= model <= LastModel
    ensures b && model != UnusedModel ==> IsValidModel(model)
  {
    model == 449 || model == 537 || model == 538 || model == 569 || model == 590 || model == 570
  }

  /** Valid models index the tables in bounds; 570, the one hole, is still a train. */
  lemma ValidModelIndex(model: uint32)
    ensures IsValidModel(model) <==> (0 <= model - FirstModel < ModelCount && model != UnusedModel)
    ensures IsTrainModel(UnusedModel) && !IsValidModel(UnusedModel)
    ensures IsTrainModel(model) && model != UnusedModel ==> IsValidModel(model)
  {
  }

  /** g_ucMaxPassengers, indexed by model - 400. */
  function MaxPassengersTable(index: int): uint8
    requires 0 <= index < ModelCount
  {
    match index
    // 400->415
    case 0 => 3 case 1 => 1 case 2 => 1 case 3 => 1 case 4 => 3 case 5 => 3 case 6 => 0 case 7 => 1 case 8 => 1 case 9 => 3 case 10 => 1 case 11 => 1 case 12 => 1 case 13 => 3 case 14 => 1 case 15 => 1
    // 416->431
    case 16 => 3 case 17 => 1 case 18 => 3 case 19 => 1 case 20 => 3 case 21 => 3 case 22 => 1 case 23 => 1 case 24 => 1 case 25 => 0 case 26 => 3 case 27 => 3 case 28 => 3 case 29 => 1 case 30 => 0 case 31 => 8
    // 432->447
    case 32 => 0 case 33 => 1 case 34 => 1 case 35 => 255 case 36 => 1 case 37 => 8 case 38 => 3 case 39 => 1 case 40 => 3 case 41 => 0 case 42 => 1 case 43 => 1 case 44 => 1 case 45 => 3 case 46 => 0 case 47 => 1
    // 448->462
    case 48 => 0 case 49 => 1 case 50 => 255 case 51 => 1 case 52 => 0 case 53 => 0 case 54 => 0 case 55 => 1 case 56 => 1 case 57 => 1 case 58 => 3 case 59 => 3 case 60 => 1 case 61 => 1 case 62 => 1
    // 463->478
    case 63 => 1 case 64 => 1 case 65 => 1 case 66 => 3 case 67 => 3 case 68 => 1 case 69 => 1 case 70 => 3 case 71 => 1 case 72 => 0 case 73 => 0 case 74 => 1 case 75 => 1 case 76 => 0 case 77 => 1 case 78 => 1
    // 479->494
    case 79 => 3 case 80 => 1 case 81 => 0 case 82 => 3 case 83 => 1 case 84 => 0 case 85 => 0 case 86 => 0 case 87 => 3 case 88 => 1 case 89 => 1 case 90 => 3 case 91 => 1 case 92 => 3 case 93 => 0 case 94 => 1
    // 495->510
    case 95 => 1 case 96 => 1 case 97 => 3 case 98 => 3 case 99 => 1 case 100 => 1 case 101 => 1 case 102 => 1 case 103 => 1 case 104 => 1 case 105 => 1 case 106 => 1 case 107 => 3 case 108 => 1 case 109 => 0 case 110 => 0
    // 511->526
    case 111 => 1 case 112 => 0 case 113 => 0 case 114 => 1 case 115 => 1 case 116 => 3 case 117 => 1 case 118 => 1 case 119 => 0 case 120 => 0 case 121 => 1 case 122 => 1 case 123 => 1 case 124 => 1 case 125 => 1 case 126 => 1
    // 527->541
    case 127 => 1 case 128 => 1 case 129 => 3 case 130 => 0 case 131 => 0 case 132 => 0 case 133 => 1 case 134 => 1 case 135 => 1 case 136 => 1 case 137 => 1 case 138 => 1 case 139 => 0 case 140 => 3 case 141 => 1
    // 542->557
    case 142 => 1 case 143 => 1 case 144 => 1 case 145 => 1 case 146 => 3 case 147 => 3 case 148 => 1 case 149 => 1 case 150 => 3 case 151 => 3 case 152 => 1 case 153 => 0 case 154 => 1 case 155 => 1 case 156 => 1 case 157 => 1
    // 558->572
    case 158 => 1 case 159 => 1 case 160 => 3 case 161 => 3 case 162 => 1 case 163 => 1 case 164 => 0 case 165 => 1 case 166 => 3 case 167 => 3 case 168 => 0 case 169 => 255 case 170 => 1 case 171 => 0 case 172 => 0
    // 573->588
    case 173 => 1 case 174 => 0 case 175 => 1 case 176 => 1 case 177 => 1 case 178 => 1 case 179 => 3 case 180 => 3 case 181 => 1 case 182 => 3 case 183 => 0 case 184 => 255 case 185 => 3 case 186 => 1 case 187 => 1 case 188 => 1
    // 589->604
    case 189 => 1 case 190 => 255 case 191 => 255 case 192 => 1 case 193 => 1 case 194 => 1 case 195 => 0 case 196 => 3 case 197 => 3 case 198 => 3 case 199 => 1 case 200 => 1 case 201 => 1 case 202 => 1 case 203 => 1 case 204 => 3
    // 605->611
    case 205 => 1 case 206 => 255 case 207 => 255 case 208 => 255 case 209 => 3 case 210 => 255 case 211 => 255
    case _ => NoEntry
  }

  /** Every passenger-table entry is one of the five counts the seat mapping handles. */
  predicate IsKnownPassengerCount(count: uint8)
  {
    count == 0 || count == 1 || count == 3 || count == 8 || count == NoEntry
  }

  function GetMaxPassengerCount(model: uint32): (count: uint8)
    ensures IsValidModel(model) ==> count == MaxPassengersTable(model - FirstModel)
    ensures !IsValidModel(model) ==> count == NoEntry
    ensures IsKnownPassengerCount(count)
  {
    if IsValidModel(model) then MaxPassengersTable(model - FirstModel) else NoEntry
  }

  /** The seven capability bits of g_ulVehicleAttributes. */
  datatype Attribute =
    | Turret | Sirens | LandingGears | AdjustableProperty | SmokeTrail | TaxiLights | SearchLight
  {
    function Mask(): (mask: uint32)
      ensures mask in {0x01, 0x02, 0x04, 0x08, 0x10, 0x20, 0x40}
    {
      match this
      case Turret => 0x001
      case Sirens => 0x002
      case LandingGears => 0x004
      case AdjustableProperty => 0x008
      case SmokeTrail => 0x010
      case TaxiLights => 0x020
      case SearchLight => 0x040
    }
  }

  /** g_ulVehicleAttributes, indexed by model - 400; every entry not listed is 0. */
  function AttributesTable(index: int): uint32
    requires 0 <= index < ModelCount
  {
    match index
    // 400-424
    case 6 => 8 case 7 => 3 case 16 => 2 case 20 => 32 case 23 => 2
    // 425-449
    case 27 => 2 case 32 => 1 case 38 => 32 case 43 => 8
    // 450-474: none
    // 475-499
    case 76 => 4 case 86 => 8 case 90 => 2 case 97 => 64
    // 500-524
    case 112 => 16 case 113 => 16 case 119 => 4 case 120 => 12 case 123 => 2 case 124 => 8
    // 525-549
    case 125 => 8 case 128 => 2 case 130 => 8 case 131 => 8 case 144 => 2
    // 550-574
    case 153 => 4
    // 575-599
    case 177 => 4 case 192 => 12 case 196 => 2 case 197 => 2 case 198 => 2 case 199 => 2
    // 600-611
    case 201 => 3
    case _ => 0
  }

  /** `flags & mask` is nonzero, for a single-bit mask. */
  predicate HasBit(flags: uint32, mask: uint32)
    requires mask > 0
  {
    (flags / mask) % 2 == 1
  }

  /** The common shape of the seven `Has*` queries. */
  predicate HasAttribute(model: uint32, attribute: Attribute)
  {
    IsValidModel(model) && HasBit(AttributesTable(model - FirstModel), attribute.Mask())
  }

  function HasTurret(model: uint32): (r: bool)
    ensures r <==> model in {407, 432, 601}
  {
    HasAttribute(model, Turret)
  }

  function HasSirens(model: uint32): (r: bool)
    ensures r <==> model in {407, 416, 423, 427, 490, 523, 528, 544, 596, 597, 598, 599, 601}
  {
    HasAttribute(model, Sirens)
  }

  function HasLandingGears(model: uint32): (r: bool)
    ensures r <==> model in {476, 519, 520, 553, 577, 592}
  {
    HasAttribute(model, LandingGears)
  }

  function HasAdjustableProperty(model: uint32): (r: bool)
    ensures r <==> model in {406, 443, 486, 520, 524, 525, 530, 531, 592}
  {
    HasAttribute(model, AdjustableProperty)
  }

  function HasSmokeTrail(model: uint32): (r: bool)
    ensures r <==> model in {512, 513}
  {
    HasAttribute(model, SmokeTrail)
  }

  function HasTaxiLight(model: uint32): (r: bool)
    ensures r <==> model in {420, 438}
  {
    HasAttribute(model, TaxiLights)
  }

  function HasSearchLight(model: uint32): (r: bool)
    ensures r <==> model == 497
  {
    HasAttribute(model, SearchLight)
  }

  /** An attribute is never reported for an invalid model, whatever the bit tables say. */
  lemma NoAttributeForInvalidModel(model: uint32, attribute: Attribute)
    requires !IsValidModel(model)
    ensures !HasAttribute(model, attribute)
    ensures !HasTurret(model) && !HasSirens(model) && !HasLandingGears(model)
    ensures !HasAdjustableProperty(model) && !HasSmokeTrail(model)
    ensures !HasTaxiLight(model) && !HasSearchLight(model)
  {
  }

  /**
   * g_ucVariants as the constructor fills it: 255 everywhere except the
   * models named in its switch.
   */
  function VariantsTable(index: int): (code: uint8)
    requires 0 <= index < ModelCount
  {
    match index + FirstModel
    case 416 => 1 case 435 => 5 case 450 => 0 case 607 => 2 case 485 => 2 case 433 => 1 case 499 => 3 case 581 => 4
    case 424 => 1 case 504 => 5 case 422 => 1 case 482 => 0 case 457 => 5 case 483 => 1 case 415 => 1 case 437 => 1
    case 472 => 2 case 521 => 4 case 407 => 2 case 455 => 2 case 434 => 0 case 502 => 5 case 503 => 5 case 571 => 1
    case 595 => 1 case 484 => 0 case 500 => 1 case 556 => 2 case 557 => 1 case 423 => 1 case 414 => 3 case 522 => 4
    case 470 => 2 case 404 => 0 case 600 => 1 case 413 => 0 case 453 => 1 case 442 => 2 case 440 => 5 case 543 => 3
    case 605 => 3 case 428 => 1 case 535 => 1 case 439 => 2 case 506 => 0 case 601 => 3 case 459 => 0 case 449 => 3
    case 408 => 0 case 583 => 1 case 552 => 1 case 478 => 2 case 555 => 0 case 456 => 3 case 477 => 0
    case _ => NoEntry
  }

  /** The two variant codes a new vehicle is given; 255 means "default model". */
  datatype Variation = Variation(primary: uint8, secondary: uint8)

  /**
   * GetRandomVariation, with the two `rand()` results it may consume passed
   * in as `draw1` and `draw2` (any non-negative values). `unsigned char`
   * wrap-around turns -1 into 255.
   */
  function GetRandomVariation(model: uint16, draw1: nat, draw2: nat): (v: Variation)
    ensures !IsValidModel(model) || VariantsTable(model - FirstModel) == NoEntry ==> v == Variation(NoEntry, NoEntry)
    ensures model == 457 ==> v.primary in {255, 0, 1, 2} && v.secondary in {3, 4, 5}
    ensures model == 522 || model == 581 ==> v.primary in {255, 0, 1, 2} && v.secondary in {3, 4}
    ensures model == 535 ==> v.primary <= VariantsTable(model - FirstModel) && v.secondary == NoEntry
    ensures IsValidModel(model) && model !in {457, 512, 522, 535, 581} ==>
              v.secondary == NoEntry &&
              (v.primary == NoEntry || v.primary <= VariantsTable(model - FirstModel))
  {
    if IsValidModel(model) && VariantsTable(model - FirstModel) != NoEntry then
      var code := VariantsTable(model - FirstModel);
      if model == 457 || model == 512 then
        // caddy, cropduster: 255, 0, 1, 2 and 3, 4, 5
        Variation(ToUInt8(draw1 % 4 - 1), ToUInt8(draw2 % 3 + 3))
      else if model == 535 then
        // Slamvan: one of its steering-wheel extras, never the default
        Variation(ToUInt8(draw1 % (code + 1)), NoEntry)
      else if model == 522 || model == 581 then
        // NRG-500, BF-400: exhaust 255, 0, 1, 2 and fairing 3, 4
        Variation(ToUInt8(draw1 % 4 - 1), ToUInt8(draw2 % 2 + 3))
      else
        Variation(ToUInt8(draw1 % (code + 2) - 1), NoEntry)
    else
      Variation(NoEntry, NoEntry)
  }

  /**
   * The crop duster (512) is named beside the caddy in the picker, but the
   * variant table has no entry for it, so it always keeps the default model.
   */
  lemma CropDusterHasNoVariation(draw1: nat, draw2: nat)
    ensures GetRandomVariation(512, draw1, draw2) == Variation(NoEntry, NoEntry)
  {
  }

  /** The Slamvan always gets one of its two steering-wheel extras. */
  lemma SlamvanNeverDefault(draw1: nat, draw2: nat)
    ensures GetRandomVariation(535, draw1, draw2).primary in {0, 1}
  {
  }

  /** Every code the general rule allows is produced by some `rand()` value. */
  lemma {:induction false} GeneralVariationCoverage(model: uint16, primary: uint8)
    requires IsValidModel(model) && model !in {457, 512, 522, 535, 581}
    requires VariantsTable(model - FirstModel) != NoEntry
    requires primary == NoEntry || primary <= VariantsTable(model - FirstModel)
    ensures exists draw: nat :: GetRandomVariation(model, draw, 0).primary == primary
  {
    var draw: nat := if primary == NoEntry then 0 else primary + 1;
    assert GetRandomVariation(model, draw, 0).primary == primary;
  }

  /** Every pair the caddy and motorbike rules allow is produced by some pair of draws. */
  lemma {:induction false} SpecialVariationCoverage(model: uint16, primary: uint8, secondary: uint8)
    requires model == 457 || model == 522 || model == 581
    requires primary in {255, 0, 1, 2}
    requires secondary in (if model == 457 then {3, 4, 5} else {3, 4})
    ensures exists draw1: nat, draw2: nat :: GetRandomVariation(model, draw1, draw2) == Variation(primary, secondary)
  {
    var draw1: nat := if primary == NoEntry then 0 else primary + 1;
    var draw2: nat := secondary - 3;
    assert GetRandomVariation(model, draw1, draw2) == Variation(primary, secondary);
  }
}
