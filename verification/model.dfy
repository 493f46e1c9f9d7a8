/** The documents of the three collections: workouts, exercises and sets. */
module Model {
  import opened Wrappers
  import opened Constants

  /** Document identifiers are strings (UUIDs once they pass the boundary's check). */
  type Id = string

  const INT32_MIN: int := -0x8000_0000
  const INT32_MAX: int := 0x7fff_ffff

  /** Kotlin's `Int`. */
  type Int32 = x: int | INT32_MIN <= x <= INT32_MAX

  /** Two's-complement wrap-around of a 32-bit addition result. */
  function Wrap32(x: int): (r: Int32)
    ensures INT32_MIN <= x <= INT32_MAX ==> r == x
    ensures x == INT32_MAX + 1 ==> r == INT32_MIN
  {
    (x - INT32_MIN) % 0x1_0000_0000 + INT32_MIN
  }

  /** Kotlin's `Float`, kept as its 32-bit pattern: the service only copies it. */
  type Float32 = bv32

  /** The identifier a child document gets when no parent is given. */
  const NIL_ID: Id := "00000000-0000-0000-0000-000000000000"

  /** A unit type and a unit; the pairing is not checked. */
  datatype FitnessMeasure = FitnessMeasure(unitType: UnitType, unit: Option<UnitMeasure>)

  /** The measure of a new exercise. */
  const DefaultMeasure: FitnessMeasure := FitnessMeasure(MASS, Some(LBS))

  /** Timestamps are instants, modelled as integers on one time line. */
  datatype FitnessSet = FitnessSet(
    id: Id,
    exerciseId: Id,
    timestamp: int,
    order: Int32,
    reps: Int32,
    of: Float32)

  datatype FitnessExercise = FitnessExercise(
    id: Id,
    workoutId: Id,
    timestamp: int,
    order: Int32,
    name: string,
    sets: seq<FitnessSet>,
    measure: FitnessMeasure)

  /** `startOfDay` is derived from `timestamp` by zoned calendar arithmetic, which is not
      part of this model: it is carried as a given value. */
  datatype FitnessWorkout = FitnessWorkout(
    id: Id,
    timestamp: int,
    startOfDay: int,
    exercises: seq<FitnessExercise>,
    emphasis: string,
    notes: string)

  /** A workout built from its defaults: no exercises, empty emphasis and notes. */
  function NewWorkout(id: Id, timestamp: int, startOfDay: int): (w: FitnessWorkout)
    ensures w.id == id && w.timestamp == timestamp && w.startOfDay == startOfDay
    ensures w.exercises == [] && w.emphasis == "" && w.notes == ""
  {
    FitnessWorkout(id, timestamp, startOfDay, [], "", "")
  }

  /** An exercise built from its defaults except for the four given fields: no sets, the default measure. */
  function NewExercise(id: Id, workoutId: Id, timestamp: int, order: Int32, name: string): (e: FitnessExercise)
    ensures e.id == id && e.workoutId == workoutId && e.timestamp == timestamp && e.order == order && e.name == name
    ensures e.sets == []
    ensures e.measure == FitnessMeasure(MASS, Some(LBS))
    ensures e.measure.unit.Some? && GetType(e.measure.unit) == e.measure.unitType == MASS
  {
    FitnessExercise(id, workoutId, timestamp, order, name, [], DefaultMeasure)
  }

  /** The natural order of workouts: the more recent one comes first. Only the timestamps
      are compared, so workouts that differ in every other field can compare equal. */
  function CompareTo(a: FitnessWorkout, b: FitnessWorkout): (r: int)
    ensures r == -1 || r == 0 || r == 1
    ensures r < 0 <==> a.timestamp > b.timestamp
    ensures r > 0 <==> a.timestamp < b.timestamp
  {
    if a.timestamp > b.timestamp then -1
    else if a.timestamp < b.timestamp then 1
    else 0
  }

  /** Workouts with the same timestamp compare equal, whatever their other fields. */
  lemma CompareToIgnoresOtherFields(a: FitnessWorkout, b: FitnessWorkout)
    ensures CompareTo(a, b) == 0 <==> a.timestamp == b.timestamp
  {
  }

  /** Swapping the arguments negates the result. */
  lemma CompareToAntisymmetric(a: FitnessWorkout, b: FitnessWorkout)
    ensures CompareTo(a, b) == -CompareTo(b, a)
  {
  }

  /** "Not after" is transitive, so the order is a total preorder (most recent first). */
  lemma CompareToTransitive(a: FitnessWorkout, b: FitnessWorkout, c: FitnessWorkout)
    ensures CompareTo(a, b) <= 0 && CompareTo(b, c) <= 0 ==> CompareTo(a, c) <= 0
    ensures CompareTo(a, b) < 0 && CompareTo(b, c) < 0 ==> CompareTo(a, c) < 0
  {
  }
}
