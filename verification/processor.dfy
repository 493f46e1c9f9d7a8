/** The aggregation service: three collections keyed by id, the nested views assembled from
    them, and the operations that append, replace and cascade-delete documents. */
module FitnessProcessor {
  import opened Wrappers
  import opened Model
  import opened Sorting
  import opened Stores

  const WORKOUT_NOT_FOUND: string := "Workout not found"
  const EXERCISE_NOT_FOUND: string := "Exercise not found"
  const SET_NOT_FOUND: string := "Set not found"

  function SetKey(s: FitnessSet): Id { s.id }
  function SetParent(s: FitnessSet): Id { s.exerciseId }
  function SetOrder(s: FitnessSet): int { s.order }
  function ExerciseKey(e: FitnessExercise): Id { e.id }
  function ExerciseParent(e: FitnessExercise): Id { e.workoutId }
  function ExerciseOrder(e: FitnessExercise): int { e.order }
  /** Sorting ascending by this key puts the most recent workout first. */
  function WorkoutRecency(w: FitnessWorkout): int { -w.timestamp }

  /** An exercise without its filled-in sets: the document as stored. */
  function Stripped(e: FitnessExercise): FitnessExercise { e.(sets := []) }

  /** `r` is the order the next child gets among siblings with `orders`: 0 without siblings,
      otherwise one more than the largest sibling order, wrapping around at Int.MAX_VALUE. */
  ghost predicate IsNextOrder(orders: set<int>, r: int)
  {
    if orders == {} then r == 0
    else if INT32_MAX in orders then r == INT32_MIN
    else r - 1 in orders && forall o :: o in orders ==> o < r
  }

  /** The next order computed from the sibling orders: `-1` for none, else their maximum, plus 1. */
  function NextOrder(orders: seq<Int32>): (r: Int32)
    ensures IsNextOrder((set o: int | o in orders), r)
  {
    var previous := if orders == [] then -1 else MaxOf(orders);
    ghost var os := set o: int | o in orders;
    assert orders == [] <==> os == {} by {
      if orders != [] { assert orders[0] in os; }
    }
    assert orders != [] ==> (INT32_MAX in os <==> previous == INT32_MAX);
    Wrap32(previous + 1)
  }

  /** The three collections are keyed by the documents' ids, and the child lists of stored
      workouts and exercises are empty: those lists are filled in at read time only. */
  ghost predicate WellFormed(workouts: map<Id, FitnessWorkout>, exercises: map<Id, FitnessExercise>,
                             sets: map<Id, FitnessSet>)
  {
    && (forall k :: k in workouts ==> workouts[k].id == k && workouts[k].exercises == [])
    && (forall k :: k in exercises ==> exercises[k].id == k && exercises[k].sets == [])
    && (forall k :: k in sets ==> sets[k].id == k)
  }

  /** `m` without the sets that belong to an exercise in `eids`. */
  ghost function SetsWithout(m: map<Id, FitnessSet>, eids: set<Id>): map<Id, FitnessSet>
  {
    map k | k in m && m[k].exerciseId !in eids :: m[k]
  }

  /** `m` without the exercises that belong to workout `wid`. */
  ghost function ExercisesWithout(m: map<Id, FitnessExercise>, wid: Id): map<Id, FitnessExercise>
  {
    map k | k in m && m[k].workoutId != wid :: m[k]
  }

  /** Removing the sets of one more exercise is removing the sets of the larger group. */
  lemma SetsWithoutStep(m: map<Id, FitnessSet>, done: set<Id>, k: Id)
    ensures SetsWithout(SetsWithout(m, done), {k}) == SetsWithout(m, done + {k})
  {
  }

  /** Removing the exercises whose ids are exactly those of workout `wid` is `ExercisesWithout`. */
  lemma RemoveChildExercises(m: map<Id, FitnessExercise>, children: set<Id>, wid: Id)
    requires children == set k | k in m && m[k].workoutId == wid
    ensures m - children == ExercisesWithout(m, wid)
  {
  }

  /** The distinct workouts of `pool` as a list sorted by `CompareTo` (most recent first). */
  method SortNewestFirst(pool: set<FitnessWorkout>) returns (r: seq<FitnessWorkout>)
    ensures multiset(r) == multiset(pool)
    ensures forall i, j :: 0 <= i < j < |r| ==> CompareTo(r[i], r[j]) <= 0
  {
    var found: seq<FitnessWorkout> := [];
    var rest := pool;
    while rest != {}
      invariant rest <= pool
      invariant multiset(found) + multiset(rest) == multiset(pool)
      decreases rest
    {
      var w :| w in rest;
      assert multiset(rest) == multiset(rest - {w}) + multiset{w};
      found := [w] + found;
      rest := rest - {w};
    }
    r := SortBy(found, WorkoutRecency);
  }

  class Processor {
    var workouts: map<Id, FitnessWorkout>
    var exercises: map<Id, FitnessExercise>
    var sets: map<Id, FitnessSet>

    ghost predicate Valid()
      reads this
    {
      WellFormed(workouts, exercises, sets)
    }

    /** Every exercise belongs to a stored workout. Sets have no such guarantee: a set can be
        added to an exercise that does not exist. */
    ghost predicate ExercisesHaveWorkouts()
      reads this
    {
      forall k :: k in exercises ==> exercises[k].workoutId in workouts
    }

    /** A service over repositories that already hold the given documents. */
    constructor (workouts0: map<Id, FitnessWorkout>, exercises0: map<Id, FitnessExercise>,
                 sets0: map<Id, FitnessSet>)
      requires WellFormed(workouts0, exercises0, sets0)
      ensures Valid()
      ensures workouts == workouts0 && exercises == exercises0 && sets == sets0
    {
      workouts, exercises, sets := workouts0, exercises0, sets0;
    }

    // ----- What the views must be -----

    /** The stored sets of exercise `eid`. */
    ghost function SetsOf(eid: Id): set<FitnessSet>
      reads this
    {
      Children(sets, SetParent, eid)
    }

    /** The stored exercises of workout `wid`. */
    ghost function ExercisesOf(wid: Id): set<FitnessExercise>
      reads this
    {
      Children(exercises, ExerciseParent, wid)
    }

    ghost function ExerciseIdsOf(wid: Id): set<Id>
      reads this
    {
      set k | k in exercises && exercises[k].workoutId == wid
    }

    ghost function SetOrders(eid: Id): set<int>
      reads this
    {
      set s | s in SetsOf(eid) :: s.order as int
    }

    ghost function ExerciseOrders(wid: Id): set<int>
      reads this
    {
      set e | e in ExercisesOf(wid) :: e.order as int
    }

    /** `r` is exactly the sets of `eid`, each once, ascending by order. */
    ghost predicate IsSetList(r: seq<FitnessSet>, eid: Id)
      reads this
    {
      SortedBy(r, SetOrder) && multiset(r) == multiset(SetsOf(eid))
    }

    /** `e` is a stored exercise with its own sets filled in. */
    ghost predicate IsExerciseView(e: FitnessExercise)
      reads this
    {
      e.id in exercises && exercises[e.id] == Stripped(e) && IsSetList(e.sets, e.id)
    }

    /** `r` is exactly the exercises of `wid`, each once and each filled in, in any order. */
    ghost predicate IsExerciseBag(r: seq<FitnessExercise>, wid: Id)
      reads this
    {
      && (forall i :: 0 <= i < |r| ==> IsExerciseView(r[i]))
      && multiset(MapSeq(r, Stripped)) == multiset(ExercisesOf(wid))
    }

    /** As `IsExerciseBag`, and ascending by order. */
    ghost predicate IsExerciseList(r: seq<FitnessExercise>, wid: Id)
      reads this
    {
      SortedBy(r, ExerciseOrder) && IsExerciseBag(r, wid)
    }

    /** `w` is a stored workout with its exercises, and theirs sets, filled in. */
    ghost predicate IsWorkoutView(w: FitnessWorkout)
      reads this
    {
      w.id in workouts && workouts[w.id] == w.(exercises := []) && IsExerciseList(w.exercises, w.id)
    }

    // ----- Reads -----

    /** getSetsForExercise: the sets of `eid`, sorted by order. */
    method GetSetsForExercise(eid: Id) returns (r: seq<FitnessSet>)
      requires Valid()
      ensures IsSetList(r, eid)
    {
      var found := FindByParent(sets, SetParent, eid, SetKey);
      r := SortBy(found, SetOrder);
    }

    /** getExercise: not found when absent, else the exercise with its sets sorted by order. */
    method GetExercise(eid: Id) returns (r: Result<FitnessExercise>)
      requires Valid()
      ensures eid !in exercises ==> r == Err(NotFound(EXERCISE_NOT_FOUND))
      ensures eid in exercises ==> r.Ok? && r.value.id == eid && IsExerciseView(r.value)
    {
      if eid !in exercises {
        return Err(NotFound(EXERCISE_NOT_FOUND));
      }
      var ss := GetSetsForExercise(eid);
      r := Ok(exercises[eid].(sets := ss));
    }

    /** getExercisesByWorkoutId: the exercises of `wid` with their sets, in store order; no
        existence check, so an unknown workout gives whatever exercises name it (none when
        every exercise has its workout). */
    method GetExercisesByWorkoutId(wid: Id) returns (r: seq<FitnessExercise>)
      requires Valid()
      ensures IsExerciseBag(r, wid)
      ensures ExercisesHaveWorkouts() && wid !in workouts ==> r == []
    {
      var found := FindByParent(exercises, ExerciseParent, wid, ExerciseKey);
      r := [];
      var i := 0;
      while i < |found|
        invariant 0 <= i <= |found|
        invariant |r| == i
        invariant forall j :: 0 <= j < i ==> IsExerciseView(r[j]) && Stripped(r[j]) == found[j]
      {
        assert found[i] in multiset(ExercisesOf(wid));
        var ss := GetSetsForExercise(found[i].id);
        r := r + [found[i].(sets := ss)];
        i := i + 1;
      }
      assert MapSeq(r, Stripped) == found;
      if ExercisesHaveWorkouts() && wid !in workouts {
        assert ExercisesOf(wid) == {};
        assert |found| == |multiset(found)| == 0;
      }
    }

    /** getExercisesForWorkout: the exercises of `wid` with their sets, sorted by order. */
    method GetExercisesForWorkout(wid: Id) returns (r: seq<FitnessExercise>)
      requires Valid()
      ensures IsExerciseList(r, wid)
    {
      var bag := GetExercisesByWorkoutId(wid);
      r := SortBy(bag, ExerciseOrder);
      SortByImage(bag, ExerciseOrder, Stripped);
      forall i | 0 <= i < |r| ensures IsExerciseView(r[i]) {
        assert r[i] in multiset(bag);
      }
    }

    /** getWorkout: not found when absent, else the workout with its exercises sorted by order. */
    method GetWorkout(wid: Id) returns (r: Result<FitnessWorkout>)
      requires Valid()
      ensures wid !in workouts ==> r == Err(NotFound(WORKOUT_NOT_FOUND))
      ensures wid in workouts ==> r.Ok? && r.value.id == wid && IsWorkoutView(r.value)
    {
      if wid !in workouts {
        return Err(NotFound(WORKOUT_NOT_FOUND));
      }
      var exs := GetExercisesForWorkout(wid);
      r := Ok(workouts[wid].(exercises := exs));
    }

    /** Exercise `eid` was created after `cutoff`, or one of its sets was. */
    ghost predicate ExerciseTouchedSince(eid: Id, cutoff: int)
      reads this
      requires eid in exercises
    {
      || exercises[eid].timestamp > cutoff
      || exists sk :: sk in sets && sets[sk].exerciseId == eid && sets[sk].timestamp > cutoff
    }

    /** Workout `wid` was created after `cutoff`, or one of its exercises or their sets was. */
    ghost predicate WorkoutTouchedSince(wid: Id, cutoff: int)
      reads this
      requires wid in workouts
    {
      || workouts[wid].timestamp > cutoff
      || exists ek :: ek in exercises && exercises[ek].workoutId == wid && ExerciseTouchedSince(ek, cutoff)
    }

    /** The stored workouts touched after `cutoff` at any of the three levels. */
    ghost function TouchedWorkouts(cutoff: int): set<FitnessWorkout>
      reads this
    {
      set k | k in workouts && WorkoutTouchedSince(k, cutoff) :: workouts[k]
    }

    /** getRecentActivity: the union of the workouts created after `cutoff`, the workouts of
        the exercises created after it, and the workouts of the exercises of the sets created
        after it, each once, most recent first. Documents whose parent is missing add nothing.
        The workouts are returned as stored, without their exercises filled in. */
    method GetRecentActivity(cutoff: int) returns (r: seq<FitnessWorkout>)
      requires Valid()
      ensures multiset(r) == multiset(TouchedWorkouts(cutoff))
      ensures forall i, j :: 0 <= i < j < |r| ==> CompareTo(r[i], r[j]) <= 0
      ensures forall i :: 0 <= i < |r| ==> r[i].exercises == []
    {
      var recentWorkouts := set k | k in workouts && workouts[k].timestamp > cutoff :: workouts[k];
      var ofRecentExercises :=
        set k | k in exercises && exercises[k].timestamp > cutoff && exercises[k].workoutId in workouts
          :: workouts[exercises[k].workoutId];
      var ofRecentSets :=
        set k | k in sets && sets[k].timestamp > cutoff && sets[k].exerciseId in exercises
                && exercises[sets[k].exerciseId].workoutId in workouts
          :: workouts[exercises[sets[k].exerciseId].workoutId];
      var merged := recentWorkouts + ofRecentExercises + ofRecentSets;
      MergedIsTouched(cutoff, merged);
      r := SortNewestFirst(merged);
      forall i | 0 <= i < |r| ensures r[i].exercises == [] {
        assert r[i] in multiset(r);
      }
    }

    /** The three queries of getRecentActivity together find exactly the touched workouts. */
    lemma MergedIsTouched(cutoff: int, merged: set<FitnessWorkout>)
      requires Valid()
      requires merged ==
        (set k | k in workouts && workouts[k].timestamp > cutoff :: workouts[k]) +
        (set k | k in exercises && exercises[k].timestamp > cutoff && exercises[k].workoutId in workouts
           :: workouts[exercises[k].workoutId]) +
        (set k | k in sets && sets[k].timestamp > cutoff && sets[k].exerciseId in exercises
                 && exercises[sets[k].exerciseId].workoutId in workouts
           :: workouts[exercises[sets[k].exerciseId].workoutId])
      ensures merged == TouchedWorkouts(cutoff)
    {
      forall w | w in TouchedWorkouts(cutoff) ensures w in merged {
        var k :| k in workouts && WorkoutTouchedSince(k, cutoff) && workouts[k] == w;
        if workouts[k].timestamp <= cutoff {
          var ek :| ek in exercises && exercises[ek].workoutId == k && ExerciseTouchedSince(ek, cutoff);
          if exercises[ek].timestamp <= cutoff {
            var sk :| sk in sets && sets[sk].exerciseId == ek && sets[sk].timestamp > cutoff;
            assert w == workouts[exercises[sets[sk].exerciseId].workoutId];
          }
        }
      }
      forall w | w in merged ensures w in TouchedWorkouts(cutoff) {
        var k := w.id;
        assert k in workouts && workouts[k] == w;
        if w.timestamp <= cutoff {
          if ek :| ek in exercises && exercises[ek].timestamp > cutoff && exercises[ek].workoutId in workouts
                   && workouts[exercises[ek].workoutId] == w {
            assert exercises[ek].workoutId == k;
            assert ExerciseTouchedSince(ek, cutoff);
          } else {
            var sk :| sk in sets && sets[sk].timestamp > cutoff && sets[sk].exerciseId in exercises
                      && exercises[sets[sk].exerciseId].workoutId in workouts
                      && workouts[exercises[sets[sk].exerciseId].workoutId] == w;
            var ek := sets[sk].exerciseId;
            assert exercises[ek].workoutId == k;
            assert ExerciseTouchedSince(ek, cutoff);
          }
        }
      }
    }

    // ----- Lemmas about the views -----

    /** The orders carried by a view of the exercises of `wid` are exactly their stored orders. */
    lemma OrdersOfExerciseBag(r: seq<FitnessExercise>, wid: Id)
      requires Valid() && IsExerciseBag(r, wid)
      ensures (set o: int | o in MapSeq(r, ExerciseOrder)) == ExerciseOrders(wid)
    {
      var stripped := MapSeq(r, Stripped);
      forall o: int | o in MapSeq(r, ExerciseOrder) ensures o in ExerciseOrders(wid) {
        var i :| 0 <= i < |r| && MapSeq(r, ExerciseOrder)[i] == o;
        assert stripped[i] in multiset(stripped);
      }
      forall o | o in ExerciseOrders(wid) ensures o in MapSeq(r, ExerciseOrder) {
        var e :| e in ExercisesOf(wid) && e.order == o;
        assert e in multiset(stripped);
        var i :| 0 <= i < |stripped| && stripped[i] == e;
        assert MapSeq(r, ExerciseOrder)[i] == o;
      }
    }

    /** The ids of a view of the exercises of `wid` are exactly the ids of its stored exercises. */
    lemma IdsOfExerciseBag(r: seq<FitnessExercise>, wid: Id)
      requires Valid() && IsExerciseBag(r, wid)
      ensures (set i | 0 <= i < |r| :: r[i].id) == ExerciseIdsOf(wid)
    {
      var stripped := MapSeq(r, Stripped);
      forall i | 0 <= i < |r| ensures r[i].id in ExerciseIdsOf(wid) {
        assert stripped[i] in multiset(stripped);
      }
      forall k | k in ExerciseIdsOf(wid) ensures exists i :: 0 <= i < |r| && r[i].id == k {
        assert exercises[k] in multiset(ExercisesOf(wid));
        var i :| 0 <= i < |stripped| && stripped[i] == exercises[k];
      }
    }

    /** A set list for an exercise that has no sets is empty. */
    lemma SetListOfChildless(r: seq<FitnessSet>, eid: Id)
      requires IsSetList(r, eid) && SetsOf(eid) == {}
      ensures r == []
    {
      assert |multiset(r)| == |r|;
    }

    // ----- Writes -----

    /** startNewWorkout: saves a workout built from its defaults under a fresh id. */
    method StartNewWorkout(id: Id, now: int, startOfDay: int) returns (w: FitnessWorkout)
      requires Valid() && id !in workouts
      modifies this
      ensures Valid()
      ensures w == NewWorkout(id, now, startOfDay)
      ensures w.id == id && w.timestamp == now && w.exercises == [] && w.emphasis == "" && w.notes == ""
      ensures workouts == old(workouts)[id := w]
      ensures exercises == old(exercises) && sets == old(sets)
      ensures old(ExercisesHaveWorkouts()) ==> ExercisesHaveWorkouts()
    {
      w := NewWorkout(id, now, startOfDay);
      workouts := workouts[id := w];
    }

    /** addExerciseToWorkout: not found (and nothing saved) for an absent workout; otherwise
        saves a new exercise named as the draft, under the next order among its siblings, with
        no sets and the default measure, and returns the recomposed workout. */
    method AddExerciseToWorkout(wid: Id, draft: FitnessExercise, freshId: Id, now: int)
      returns (r: Result<FitnessWorkout>)
      requires Valid() && freshId !in exercises
      modifies this
      ensures Valid()
      ensures workouts == old(workouts) && sets == old(sets)
      ensures old(ExercisesHaveWorkouts()) ==> ExercisesHaveWorkouts()
      ensures wid !in workouts ==> r == Err(NotFound(WORKOUT_NOT_FOUND)) && exercises == old(exercises)
      ensures wid in workouts ==>
        && freshId in exercises
        && exercises == old(exercises)[freshId := NewExercise(freshId, wid, now, exercises[freshId].order, draft.name)]
        && IsNextOrder(old(ExerciseOrders(wid)), exercises[freshId].order)
        && r.Ok? && r.value.id == wid && IsWorkoutView(r.value)
    {
      if wid !in workouts {
        return Err(NotFound(WORKOUT_NOT_FOUND));
      }
      var siblings := GetExercisesForWorkout(wid);
      OrdersOfExerciseBag(siblings, wid);
      var order := NextOrder(MapSeq(siblings, ExerciseOrder));
      exercises := exercises[freshId := NewExercise(freshId, wid, now, order, draft.name)];
      r := GetWorkout(wid);
    }

    /** addSetToExercise: saves a new set with the draft's reps and magnitude under the next
        order among its siblings, then returns the recomposed exercise. Nothing stops the save
        when the exercise is absent: the orphan set gets order 0 and only then does the
        recomposition fail with not found. */
    method AddSetToExercise(eid: Id, draft: FitnessSet, freshId: Id, now: int)
      returns (r: Result<FitnessExercise>)
      requires Valid() && freshId !in sets
      modifies this
      ensures Valid()
      ensures workouts == old(workouts) && exercises == old(exercises)
      ensures freshId in sets
      ensures sets == old(sets)[freshId := FitnessSet(freshId, eid, now, sets[freshId].order, draft.reps, draft.of)]
      ensures eid in exercises ==>
        && IsNextOrder(old(SetOrders(eid)), sets[freshId].order)
        && r.Ok? && r.value.id == eid && IsExerciseView(r.value)
      ensures eid !in exercises ==> sets[freshId].order == 0 && r == Err(NotFound(EXERCISE_NOT_FOUND))
    {
      var siblings: seq<FitnessSet> := [];
      if eid in exercises {
        siblings := FindByParent(sets, SetParent, eid, SetKey);
      }
      var orders := MapSeq(siblings, SetOrder);
      assert eid in exercises ==> (set o: int | o in orders) == SetOrders(eid) by {
        if eid in exercises {
          forall o: int | o in orders ensures o in SetOrders(eid) {
            var i :| 0 <= i < |siblings| && orders[i] == o;
            assert siblings[i] in multiset(siblings);
          }
          forall o | o in SetOrders(eid) ensures o in orders {
            var x :| x in SetsOf(eid) && x.order == o;
            assert x in multiset(siblings);
            var i :| 0 <= i < |siblings| && siblings[i] == x;
            assert orders[i] == o;
          }
        }
      }
      var order := NextOrder(MapSeq(siblings, SetOrder));
      sets := sets[freshId := FitnessSet(freshId, eid, now, order, draft.reps, draft.of)];
      r := GetExercise(eid);
    }

    /** changeExerciseMeasure: not found for an absent exercise; otherwise replaces the measure
        alone (any pair, unchecked) and returns the exercise with its sets sorted by order. */
    method ChangeExerciseMeasure(eid: Id, m: FitnessMeasure) returns (r: Result<FitnessExercise>)
      requires Valid()
      modifies this
      ensures Valid()
      ensures workouts == old(workouts) && sets == old(sets)
      ensures old(ExercisesHaveWorkouts()) ==> ExercisesHaveWorkouts()
      ensures eid !in old(exercises) ==> r == Err(NotFound(EXERCISE_NOT_FOUND)) && exercises == old(exercises)
      ensures eid in old(exercises) ==>
        && exercises == old(exercises)[eid := old(exercises)[eid].(measure := m)]
        && r.Ok? && r.value.id == eid && r.value.measure == m && IsExerciseView(r.value)
    {
      if eid !in exercises {
        return Err(NotFound(EXERCISE_NOT_FOUND));
      }
      var e := exercises[eid].(measure := m);
      exercises := exercises[eid := e];
      var ss := GetSetsForExercise(eid);
      r := Ok(e.(sets := ss));
    }

    /** deleteExercise: not found (and nothing deleted) for an absent exercise; otherwise
        deletes the exercise and every set that names it, then returns the recomposed parent
        workout, which is not found when the parent is missing. */
    method DeleteExercise(eid: Id) returns (r: Result<FitnessWorkout>)
      requires Valid()
      modifies this
      ensures Valid()
      ensures workouts == old(workouts)
      ensures old(ExercisesHaveWorkouts()) ==> ExercisesHaveWorkouts()
      ensures eid !in old(exercises) ==>
        r == Err(NotFound(EXERCISE_NOT_FOUND)) && exercises == old(exercises) && sets == old(sets)
      ensures eid in old(exercises) ==>
        && exercises == old(exercises) - {eid}
        && sets == SetsWithout(old(sets), {eid})
        && (old(exercises)[eid].workoutId in workouts ==>
              r.Ok? && r.value.id == old(exercises)[eid].workoutId && IsWorkoutView(r.value))
        && (old(exercises)[eid].workoutId !in workouts ==> r == Err(NotFound(WORKOUT_NOT_FOUND)))
    {
      var e := GetExercise(eid);
      if e.Err? {
        return Err(e.error);
      }
      var wid := e.value.workoutId;
      exercises := exercises - {eid};
      sets := map k | k in sets && sets[k].exerciseId != eid :: sets[k];
      r := GetWorkout(wid);
    }

    /** deleteWorkout: not found for an absent workout; otherwise deletes each of its exercises
        (with their sets) one after another, then the workout itself, and returns "{}". */
    method DeleteWorkout(wid: Id) returns (r: Result<string>)
      requires Valid()
      modifies this
      ensures Valid()
      ensures old(ExercisesHaveWorkouts()) ==> ExercisesHaveWorkouts()
      ensures wid !in old(workouts) ==>
        && r == Err(NotFound(WORKOUT_NOT_FOUND))
        && workouts == old(workouts) && exercises == old(exercises) && sets == old(sets)
      ensures wid in old(workouts) ==>
        && r == Ok("{}")
        && workouts == old(workouts) - {wid}
        && exercises == ExercisesWithout(old(exercises), wid)
        && sets == SetsWithout(old(sets), old(ExerciseIdsOf(wid)))
        && forall k :: k in exercises ==> exercises[k].workoutId != wid
    {
      var w := GetWorkout(wid);
      if w.Err? {
        return Err(w.error);
      }
      var exs := w.value.exercises;
      ghost var exercises0 := exercises;
      IdsOfExerciseBag(exs, wid);
      DeleteEachExercise(exs, ExerciseIdsOf(wid));
      RemoveChildExercises(exercises0, old(ExerciseIdsOf(wid)), wid);
      workouts := workouts - {wid};
      r := Ok("{}");
    }

    /** The middle stage of deleteWorkout: deleteExercise on each exercise of the list in turn,
        the results discarded. Together they remove the listed exercises and their sets. */
    method DeleteEachExercise(exs: seq<FitnessExercise>, ghost ids: set<Id>)
      requires Valid()
      requires ids == set j | 0 <= j < |exs| :: exs[j].id
      requires ids <= exercises.Keys
      modifies this
      ensures Valid()
      ensures old(ExercisesHaveWorkouts()) ==> ExercisesHaveWorkouts()
      ensures workouts == old(workouts)
      ensures exercises == old(exercises) - ids
      ensures sets == SetsWithout(old(sets), ids)
    {
      ghost var done: set<Id> := {};
      var i := 0;
      while i < |exs|
        invariant 0 <= i <= |exs|
        invariant Valid()
        invariant forall j :: 0 <= j < i ==> exs[j].id in done
        invariant done <= ids
        invariant workouts == old(workouts)
        invariant exercises == old(exercises) - done
        invariant sets == SetsWithout(old(sets), done)
        invariant old(ExercisesHaveWorkouts()) ==> ExercisesHaveWorkouts()
      {
        var k := exs[i].id;
        SetsWithoutStep(old(sets), done, k);
        ghost var present := k in exercises;
        var _ := DeleteExercise(k);
        if !present {
          assert k in done;
        }
        done := done + {k};
        i := i + 1;
      }
      assert done == ids;
    }

    /** deleteSet: not found for an absent set; otherwise deletes exactly that set and returns
        its exercise with the remaining sets sorted (no sets left gives an empty list). */
    method DeleteSet(sid: Id) returns (r: Result<FitnessExercise>)
      requires Valid()
      modifies this
      ensures Valid()
      ensures workouts == old(workouts) && exercises == old(exercises)
      ensures sid !in old(sets) ==> r == Err(NotFound(SET_NOT_FOUND)) && sets == old(sets)
      ensures sid in old(sets) ==>
        && sets == old(sets) - {sid}
        && SetsOf(old(sets)[sid].exerciseId) == old(SetsOf(sets[sid].exerciseId)) - {old(sets)[sid]}
        && (old(sets)[sid].exerciseId in exercises ==>
              r.Ok? && r.value.id == old(sets)[sid].exerciseId && IsExerciseView(r.value))
        && (old(sets)[sid].exerciseId !in exercises ==> r == Err(NotFound(EXERCISE_NOT_FOUND)))
        && (old(SetsOf(sets[sid].exerciseId)) == {old(sets)[sid]} && r.Ok? ==> r.value.sets == [])
    {
      if sid !in sets {
        return Err(NotFound(SET_NOT_FOUND));
      }
      var eid := sets[sid].exerciseId;
      ChildrenAfterRemove(sets, SetKey, sid, SetParent, eid);
      sets := sets - {sid};
      r := GetExercise(eid);
      if r.Ok? && old(SetsOf(sets[sid].exerciseId)) == {old(sets)[sid]} {
        SetListOfChildless(r.value.sets, eid);
      }
    }
  }
}
