/** The unit enums and the mapping from a unit to its type. */
module Constants {
  import opened Wrappers

  datatype UnitType = NONE | MASS | DISTANCE | TIME

  datatype UnitMeasure = LBS | KGS | SECONDS | MINUTES | HOURS | MILES | KMS | METERS

  /** Every unit type, in declaration order. */
  const UnitTypes: seq<UnitType> := [NONE, MASS, DISTANCE, TIME]

  /** Every unit, in declaration order. */
  const UnitMeasures: seq<UnitMeasure> := [LBS, KGS, SECONDS, MINUTES, HOURS, MILES, KMS, METERS]

  /** The units documented for each type: an independent table that `GetType` must agree with. */
  function UnitsOfType(t: UnitType): set<UnitMeasure>
  {
    match t
    case NONE => {}
    case MASS => {LBS, KGS}
    case TIME => {SECONDS, MINUTES, HOURS}
    case DISTANCE => {METERS, KMS, MILES}
  }

  /** The type of a (possibly null) unit. Total: NONE exactly for the null unit, and
      otherwise the one type whose table lists the unit. */
  function GetType(unit: Option<UnitMeasure>): (t: UnitType)
    ensures t == NONE <==> unit == None
    ensures unit.Some? ==> unit.value in UnitsOfType(t)
  {
    match unit
    case None => NONE
    case Some(u) =>
      match u
      case LBS | KGS => MASS
      case SECONDS | MINUTES | HOURS => TIME
      case METERS | KMS | MILES => DISTANCE
  }

  /** A unit maps to a type exactly when that type's table lists it, so the tables
      partition the eight units and no unit has two types. */
  lemma GetTypeAgreesWithTable(u: UnitMeasure, t: UnitType)
    ensures GetType(Some(u)) == t <==> u in UnitsOfType(t)
  {
  }

  /** LBS and KGS are masses; SECONDS, MINUTES and HOURS are times; METERS, KMS and MILES are distances. */
  lemma GetTypeCases()
    ensures GetType(Some(LBS)) == MASS && GetType(Some(KGS)) == MASS
    ensures GetType(Some(SECONDS)) == TIME && GetType(Some(MINUTES)) == TIME && GetType(Some(HOURS)) == TIME
    ensures GetType(Some(METERS)) == DISTANCE && GetType(Some(KMS)) == DISTANCE && GetType(Some(MILES)) == DISTANCE
    ensures GetType(None) == NONE
  {
  }

  /** There are exactly four unit types and eight units, each listed once. */
  lemma EnumSizes()
    ensures |UnitTypes| == 4 && (forall t: UnitType :: t in UnitTypes)
    ensures forall i, j :: 0 <= i < j < |UnitTypes| ==> UnitTypes[i] != UnitTypes[j]
    ensures |UnitMeasures| == 8 && (forall u: UnitMeasure :: u in UnitMeasures)
    ensures forall i, j :: 0 <= i < j < |UnitMeasures| ==> UnitMeasures[i] != UnitMeasures[j]
  {
    forall t: UnitType ensures t in UnitTypes {
      match t
      case NONE => assert UnitTypes[0] == t;
      case MASS => assert UnitTypes[1] == t;
      case DISTANCE => assert UnitTypes[2] == t;
      case TIME => assert UnitTypes[3] == t;
    }
    forall u: UnitMeasure ensures u in UnitMeasures {
      match u
      case LBS => assert UnitMeasures[0] == u;
      case KGS => assert UnitMeasures[1] == u;
      case SECONDS => assert UnitMeasures[2] == u;
      case MINUTES => assert UnitMeasures[3] == u;
      case HOURS => assert UnitMeasures[4] == u;
      case MILES => assert UnitMeasures[5] == u;
      case KMS => assert UnitMeasures[6] == u;
      case METERS => assert UnitMeasures[7] == u;
    }
  }
}
