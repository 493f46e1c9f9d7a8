/** A short session against an empty store, checking the ordering rule and the orphan-set
    behaviour on concrete documents. */
module Session {
  import opened Wrappers
  import opened Model
  import opened Sorting
  import opened FitnessProcessor

  /** A new store holding workout "w" and its one exercise "Squat", which gets order 0. */
  method StartWithSquat(now: int) returns (p: Processor)
    ensures fresh(p) && p.Valid()
    ensures "w" in p.workouts && "e1" in p.exercises && "e2" !in p.exercises && p.sets == map[]
    ensures p.ExercisesOf("w") == {p.exercises["e1"]}
    ensures p.exercises["e1"].order == 0 && p.exercises["e1"].name == "Squat"
  {
    p := new Processor(map[], map[], map[]);
    var w := p.StartNewWorkout("w", now, now);
    var draft := NewExercise(NIL_ID, NIL_ID, now, 0, "Squat");
    var r := p.AddExerciseToWorkout("w", draft, "e1", now);
    assert p.ExercisesOf("w") == {p.exercises["e1"]};
  }

  /** Start a workout and add "Squat" and then "Bench" to it: the exercises get orders 0
      and 1 and the recomposed workout lists them in that order. */
  method TwoExercises(now: int) returns (workout: Result<FitnessWorkout>)
    ensures workout.Ok? && |workout.value.exercises| == 2
    ensures workout.value.exercises[0].name == "Squat" && workout.value.exercises[0].order == 0
    ensures workout.value.exercises[1].name == "Bench" && workout.value.exercises[1].order == 1
  {
    var p := StartWithSquat(now);
    assert p.ExerciseOrders("w") == {0};
    var draft := NewExercise(NIL_ID, NIL_ID, now, 0, "Bench");
    workout := p.AddExerciseToWorkout("w", draft, "e2", now + 1);
    var e1, e2 := p.exercises["e1"], p.exercises["e2"];
    assert p.ExercisesOf("w") == {e1, e2};
    TwoOrderedExercises(workout.value.exercises, e1, e2);
  }

  /** Add a set of 5 reps to an exercise of an empty store: the call reports not found, yet
      the set is stored, with order 0 and the given reps. */
  method OrphanSet(now: int) returns (orphan: Result<FitnessExercise>, stored: FitnessSet)
    ensures orphan == Err(NotFound(EXERCISE_NOT_FOUND))
    ensures stored.id == "s1" && stored.exerciseId == "e3" && stored.order == 0 && stored.reps == 5
  {
    var p := new Processor(map[], map[], map[]);
    orphan := p.AddSetToExercise("e3", FitnessSet(NIL_ID, NIL_ID, now, 0, 5, 0), "s1", now);
    stored := p.sets["s1"];
  }

  /** A list sorted by order whose stored forms are exactly an exercise of order 0 and one of
      order 1 lists them in that order. */
  lemma TwoOrderedExercises(view: seq<FitnessExercise>, e1: FitnessExercise, e2: FitnessExercise)
    requires SortedBy(view, ExerciseOrder)
    requires multiset(MapSeq(view, Stripped)) == multiset{e1, e2}
    requires e1.order == 0 && e2.order == 1
    ensures |view| == 2 && Stripped(view[0]) == e1 && Stripped(view[1]) == e2
  {
    var stored := MapSeq(view, Stripped);
    assert |stored| == 2;
    assert stored == [Stripped(view[0]), Stripped(view[1])];
    assert ExerciseOrder(view[0]) <= ExerciseOrder(view[1]);
  }
}
