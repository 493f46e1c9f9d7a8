# fitness-backend in Dafny

A model of the aggregation layer of the fitness-tracking backend. The service keeps three
document collections: workouts, the exercises of each workout, and the sets of each exercise.
Children point to their parent through `workoutId` and `exerciseId`. From these collections
the service assembles nested views, appends children under the next `order`, replaces an
exercise's measure, and cascades deletes. The model also covers three small pure pieces: the
HTTP boundary's identifier check, the unit-to-type mapping and the natural order of workouts.

Modules, one per concern of the source:

- `Wrappers` (`wrappers.dfy`): `Option`, and a `Result` whose error is `BadRequest` or `NotFound`
  with its message. These stand for the source's `BadRequestException` and
  `ResourceNotFoundException`.
- `Constants` (`constants.dfy`): the two unit enums and `GetType`.
- `Model` (`model.dfy`): the documents `FitnessWorkout`, `FitnessExercise`, `FitnessSet` and
  `FitnessMeasure`, their defaults, `CompareTo`, and Kotlin's 32-bit `Int`.
- `Sorting` (`sorting.dfy`): Kotlin's `sortedBy` as a functional insertion sort, and `maxByOrNull`.
- `Stores` (`stores.dfy`): the repositories' derived query "find by parent id" over a map.
- `FitnessProcessor` (`processor.dfy`): the class `Processor`. Its three map fields stand for the
  three repositories, and its methods are the service's operations.
- `Api` (`api.dfy`): `CheckValidity` and `Handle`. `Handle` runs a route's validation before it
  calls the processor.
- `Session` (`session.dfy`): two concrete sessions against a fresh store.

Main points of the model:

- **Reads.** Reads are methods that pick keys out of the maps one at a time. The repositories
  return documents in no particular order, so each read is specified by its contents, as a
  multiset equal to exactly the stored children with that foreign key. Where the source sorts,
  it is also specified as ascending by `order`. The order among equal `order` values is left
  open.
- **`Valid()`.** The store invariant says each document is stored under its own id, and stored
  workouts and exercises have empty child lists. Those lists are filled in only when a view is
  assembled.
- **Parent invariant.** Every write keeps `ExercisesHaveWorkouts` (every exercise belongs to a
  stored workout). Sets have no such guarantee: `addSetToExercise` saves a set for an exercise
  that does not exist.
- **Next `order`.** The next order is one more than the largest sibling order, or 0 without
  siblings, computed in Kotlin `Int` arithmetic: after `Int.MAX_VALUE` it wraps to
  `Int.MIN_VALUE`. `IsNextOrder` is the one statement of this rule. Both append operations are
  proved against it.
- **deleteExercise when the parent is missing.** The code reports "Workout not found" after the
  exercise and its sets are gone. The `.switchIfEmpty(Mono.just(FitnessWorkout()))` at
  Processor.kt:117 shows that a default workout was meant as a fallback. It never fires:
  `getWorkout` on a missing workout fails with an error instead of completing empty, and the
  stages before it also either yield a value or fail. The model follows the code.
- **Identifier check.** `checkValidity` follows JVM string semantics:
  - `equals(..., ignoreCase = true)` also equates 'i' with U+0130 and U+0131.
  - `isBlank` uses Kotlin's whitespace set.
  - The pattern's word-boundary markers `\b` always hold, so the pattern is exactly
    8-4-4-4-12 lower-case hex digits, the textual UUID form of section 3 of RFC 4122 without
    the version and variant checks.

## Model

| member | source | states |
|---|---|---|
| Constants.GetType | src/main/kotlin/com/supernet/fitnesstracker/util/Constants.kt:12-18 | total; NONE exactly for the null unit; otherwise a type whose unit table lists the unit |
| Constants.GetTypeAgreesWithTable | src/main/kotlin/com/supernet/fitnesstracker/util/Constants.kt:12-18 | a unit maps to a type iff that type's table lists it, so each unit has exactly one type |
| Constants.GetTypeCases | src/main/kotlin/com/supernet/fitnesstracker/util/Constants.kt:14-17 | LBS, KGS are MASS; SECONDS, MINUTES, HOURS are TIME; METERS, KMS, MILES are DISTANCE; null is NONE |
| Constants.EnumSizes | src/main/kotlin/com/supernet/fitnesstracker/util/Constants.kt:4-10 | exactly four unit types and eight units, each listed once |
| Model.Wrap32 | src/main/kotlin/com/supernet/fitnesstracker/processor/Processor.kt:63 | Kotlin `Int` addition: in-range values are kept, and MAX_VALUE + 1 becomes MIN_VALUE |
| Model.NewWorkout | src/main/kotlin/com/supernet/fitnesstracker/model/FitnessWorkout.kt:12-21 | a workout from its defaults: the given id, timestamp and start of day, no exercises, empty emphasis and notes |
| Model.NewExercise | src/main/kotlin/com/supernet/fitnesstracker/processor/Processor.kt:60-64 | the exercise saved by addExerciseToWorkout: the given id, workoutId, timestamp, order and name, no sets, and the default measure MASS/LBS, whose type agrees with `getType` |
| Model.CompareTo | src/main/kotlin/com/supernet/fitnesstracker/model/FitnessWorkout.kt:23-27 | result is -1, 0 or 1; negative iff this workout is later, positive iff it is earlier |
| Model.CompareToIgnoresOtherFields | src/main/kotlin/com/supernet/fitnesstracker/model/FitnessWorkout.kt:26 | 0 iff the timestamps are equal, whatever the ids and other fields |
| Model.CompareToAntisymmetric | src/main/kotlin/com/supernet/fitnesstracker/model/FitnessWorkout.kt:23-27 | compare(a, b) == -compare(b, a) |
| Model.CompareToTransitive | src/main/kotlin/com/supernet/fitnesstracker/model/FitnessWorkout.kt:23-27 | "not after" and "strictly before" are transitive, so sorting by it puts the most recent first |
| Sorting.MapSeq | src/main/kotlin/com/supernet/fitnesstracker/processor/Processor.kt:57 | `list.map`: same length, element i is f of element i |
| Sorting.InsertBy | src/main/kotlin/com/supernet/fitnesstracker/processor/Processor.kt:158 | inserting into a list sorted by the key keeps it sorted and adds exactly that element |
| Sorting.SortBy | src/main/kotlin/com/supernet/fitnesstracker/processor/Processor.kt:164 | `sortedBy`: ascending by the key and a permutation of the input |
| Sorting.InsertByImage | src/main/kotlin/com/supernet/fitnesstracker/processor/Processor.kt:155-158 | the images under any function of an insertion are those of the list plus the new element |
| Sorting.SortByImage | src/main/kotlin/com/supernet/fitnesstracker/processor/Processor.kt:155-158 | sorting permutes the images of the elements under any function too (filled-in views stay views of the same documents) |
| Sorting.MaxOf | src/main/kotlin/com/supernet/fitnesstracker/processor/Processor.kt:76 | `maxByOrNull` of a non-empty list: an element of it, at least every element |
| Stores.FindByParent | src/main/kotlin/com/supernet/fitnesstracker/repo/MongoRepo.kt:23 | `findByWorkoutId` / `findByExerciseId`: each stored document whose parent id matches, exactly once, in any order |
| Stores.ChildrenAfterRemove | src/main/kotlin/com/supernet/fitnesstracker/processor/Processor.kt:125 | after `deleteById`, the children of any parent are the old children minus the deleted document |
| FitnessProcessor.NextOrder | src/main/kotlin/com/supernet/fitnesstracker/processor/Processor.kt:55-63 | 0 with no siblings; otherwise one above the largest sibling order and above every sibling order, wrapping to MIN_VALUE after MAX_VALUE |
| FitnessProcessor.SetsWithoutStep | src/main/kotlin/com/supernet/fitnesstracker/processor/Processor.kt:102-103 | deleting the sets of one more exercise equals deleting the sets of the enlarged group |
| FitnessProcessor.RemoveChildExercises | src/main/kotlin/com/supernet/fitnesstracker/processor/Processor.kt:99-106 | removing exactly the ids of a workout's exercises leaves every exercise of other workouts and none of its own |
| FitnessProcessor.SortNewestFirst | src/main/kotlin/com/supernet/fitnesstracker/processor/Processor.kt:145-146 | `distinct().sort()`: each workout of the pool exactly once, sorted by `CompareTo` (most recent first) |
| FitnessProcessor.Processor.constructor | src/main/kotlin/com/supernet/fitnesstracker/processor/Processor.kt:20-24 | a service over repositories holding the given well-formed documents |
| FitnessProcessor.Processor.GetSetsForExercise | src/main/kotlin/com/supernet/fitnesstracker/processor/Processor.kt:161-165 | exactly the stored sets with that `exerciseId`, each once, ascending by `order` |
| FitnessProcessor.Processor.GetExercise | src/main/kotlin/com/supernet/fitnesstracker/processor/Processor.kt:34-39 | absent id: NotFound "Exercise not found"; otherwise the stored exercise with exactly its own sets, ascending by `order` |
| FitnessProcessor.Processor.GetExercisesByWorkoutId | src/main/kotlin/com/supernet/fitnesstracker/processor/Processor.kt:41-45 | no existence check, no sort: exactly the stored exercises naming the workout, each filled in; empty for an unknown workout when every stored exercise has its workout (`ExercisesHaveWorkouts`), which every write preserves |
| FitnessProcessor.Processor.GetExercisesForWorkout | src/main/kotlin/com/supernet/fitnesstracker/processor/Processor.kt:153-159 | as above, ascending by `order` |
| FitnessProcessor.Processor.GetWorkout | src/main/kotlin/com/supernet/fitnesstracker/processor/Processor.kt:27-32 | absent id: NotFound "Workout not found"; otherwise the stored workout with exactly its exercises, ascending by `order`, each with its sets |
| FitnessProcessor.Processor.GetRecentActivity | src/main/kotlin/com/supernet/fitnesstracker/processor/Processor.kt:130-148 | each workout touched after the cutoff (itself, an exercise of it, or a set of one of those) exactly once, most recent first, as stored |
| FitnessProcessor.Processor.MergedIsTouched | src/main/kotlin/com/supernet/fitnesstracker/processor/Processor.kt:134-144 | the union of the three timestamp queries, with references to missing documents dropped, is exactly the set of touched workouts |
| FitnessProcessor.Processor.OrdersOfExerciseBag | src/main/kotlin/com/supernet/fitnesstracker/processor/Processor.kt:54-57 | the orders read off a workout's exercise view are exactly the stored sibling orders |
| FitnessProcessor.Processor.IdsOfExerciseBag | src/main/kotlin/com/supernet/fitnesstracker/processor/Processor.kt:100-102 | the ids in a workout's recomposed exercises are exactly the ids of its stored exercises |
| FitnessProcessor.Processor.SetListOfChildless | src/main/kotlin/com/supernet/fitnesstracker/processor/Processor.kt:161-165 | the sorted set list of an exercise without sets is empty |
| FitnessProcessor.Processor.StartNewWorkout | src/main/kotlin/com/supernet/fitnesstracker/processor/Processor.kt:47-49 | saves exactly `NewWorkout(id, now, startOfDay)` (the defaults: no exercises, empty emphasis and notes) under the fresh id and returns it; nothing else changes |
| FitnessProcessor.Processor.AddExerciseToWorkout | src/main/kotlin/com/supernet/fitnesstracker/processor/Processor.kt:51-68 | absent workout: NotFound, nothing saved; otherwise exactly one new exercise (given workoutId, draft's name, next order, no sets, default MASS/LBS measure) and the recomposed workout |
| FitnessProcessor.Processor.AddSetToExercise | src/main/kotlin/com/supernet/fitnesstracker/processor/Processor.kt:70-88 | always saves exactly one set with the draft's reps and `of`; next order among siblings and the recomposed exercise when the exercise exists, else order 0 and NotFound |
| FitnessProcessor.Processor.ChangeExerciseMeasure | src/main/kotlin/com/supernet/fitnesstracker/processor/Processor.kt:90-97 | absent: NotFound, nothing changes; otherwise only the measure is replaced (unchecked) and the exercise comes back with its sets sorted |
| FitnessProcessor.Processor.DeleteExercise | src/main/kotlin/com/supernet/fitnesstracker/processor/Processor.kt:108-118 | absent: NotFound, nothing deleted; otherwise exactly that exercise and the sets naming it are deleted, then the recomposed parent, or NotFound when the parent is missing |
| FitnessProcessor.Processor.DeleteWorkout | src/main/kotlin/com/supernet/fitnesstracker/processor/Processor.kt:99-106 | absent: NotFound, nothing deleted; otherwise the workout, its exercises and their sets are deleted, nothing else, "{}" is returned, and no exercise names the workout afterwards |
| FitnessProcessor.Processor.DeleteEachExercise | src/main/kotlin/com/supernet/fitnesstracker/processor/Processor.kt:102-104 | deleteExercise on each listed exercise in turn removes exactly those exercises and their sets |
| FitnessProcessor.Processor.DeleteSet | src/main/kotlin/com/supernet/fitnesstracker/processor/Processor.kt:120-128 | absent: NotFound, nothing deleted; otherwise exactly that set goes, and its exercise comes back with the remaining sets (empty after the last one) |
| Api.CheckValidity | src/main/kotlin/com/supernet/fitnesstracker/api/Api.kt:97-103 | accepted iff not null, not "null"/"undefined" in any case, not blank, and matching the pattern; accepted ids unchanged; every rejection a BadRequest whose message is that of the first failing check |
| Api.EqualsIgnoringCase | src/main/kotlin/com/supernet/fitnesstracker/api/Api.kt:98-99 | `equals(word, true)` against a lower-case ASCII word: the word and its ASCII case variants match; only strings of the word's length match, and an ASCII character other than the letter or its upper case at any position makes it fail |
| Api.IsWhitespace | src/main/kotlin/com/supernet/fitnesstracker/api/Api.kt:100 | Kotlin's JVM `Char.isWhitespace`: space, tab, newline and carriage return among them; never a hex digit or a hyphen |
| Api.IsBlank | src/main/kotlin/com/supernet/fitnesstracker/api/Api.kt:100 | `isBlank`: the empty string is blank, and a blank string holds no character that can appear in a UUID |
| Api.MatchesUuidPattern | src/main/kotlin/com/supernet/fitnesstracker/api/Api.kt:23-24 | `matches(uuidPattern)`: a match has length 36 and hyphens exactly at 8, 13, 18 and 23; the four `\b` never reject |
| Api.CheckValidityMessages | src/main/kotlin/com/supernet/fitnesstracker/api/Api.kt:98-101 | "NULL", "Null" and a null id get the 'null' message, "UnDeFiNeD" the 'undefined' one, " \t" and "" the blank one |
| Api.PatternMessageForNearMisses | src/main/kotlin/com/supernet/fitnesstracker/api/Api.kt:98-101 | "nil", "nulx" and "undefinex" differ from the words by more than letter case and get the pattern message |
| Api.UuidPatternByPosition | src/main/kotlin/com/supernet/fitnesstracker/api/Api.kt:23-24 | the pattern holds iff the length is 36, hyphens stand at 8, 13, 18 and 23, and lower-case hex digits everywhere else |
| Api.AcceptedIdIsUuidShaped | src/main/kotlin/com/supernet/fitnesstracker/api/Api.kt:101-102 | an accepted id has length 36, hyphens at 8, 13, 18, 23 and lower-case hex elsewhere |
| Api.UpperCaseRejected | src/main/kotlin/com/supernet/fitnesstracker/api/Api.kt:101 | an id containing an upper-case letter (upper-case hex included) is rejected |
| Api.EarlierChecksOnlyChooseMessage | src/main/kotlin/com/supernet/fitnesstracker/api/Api.kt:98-101 | "null", "undefined" and blank strings fail the pattern too: the earlier checks only choose the message |
| Api.Handle | src/main/kotlin/com/supernet/fitnesstracker/api/Api.kt:37-95 | a route whose id fails the check returns that BadRequest and leaves the store untouched; read routes never change the store; any BadRequest comes from the check |
| Session.TwoExercises | src/main/kotlin/com/supernet/fitnesstracker/processor/Processor.kt:51-68 | "Squat" then "Bench" added to a new workout get orders 0 and 1 and are listed in that order |
| Session.OrphanSet | src/main/kotlin/com/supernet/fitnesstracker/processor/Processor.kt:70-88 | a set added to a missing exercise is stored with order 0 and the call reports "Exercise not found" |

## Left out

- Reactor's `Mono`/`Flux`: each operation is one sequential method. The concurrency of `zip` and
  `flatMap`, and the non-atomicity of cascades under concurrent requests or crashes, are not
  modelled.
- The MongoDB repositories are three maps. Unused queries (`findAllWorkoutIds`,
  `findExerciseIdsForWorkoutId`, `findByNameRegexAndTimestampAfter`) and the date conversion
  configuration are not part of this model.
- `UUID.randomUUID()` and `ZonedDateTime.now()` become parameters: fresh ids that are not yet
  in use, `now`, and for `getRecentActivity` the cutoff instant (now minus `days`).
- `getRecentActivity(days: Long = 60)`: the default of 60 days and the calendar-aware
  `ZonedDateTime.now().minusDays(days)` are not modelled; the cutoff instant is the parameter.
  No API route calls it.
- `startOfDay`: the zoned day truncation and DST overlap rule are calendar arithmetic and are not
  modelled; the value is passed in.
- The `Float` field `of` is an opaque 32-bit value that is only copied.
- Spring wiring: CORS, the exception-to-status mapping, JSON decoding errors, and the
  `getMeasuring` and `getUuid` endpoints.
- `deleteWorkout` has no route in the API, so `Handle` has no request for it. It is modelled on
  the processor only.
- The unused private helpers `checkIfWorkoutExists` and `checkIfExerciseExists`, and the
  commented-out measure validation, are dead code.
- Api.CharEqualsIgnoringCase: case-insensitive equality is stated only against lower-case ASCII
  words, the only kind the check compares with ("null", "undefined").
- Timestamps are integers on one time line: the time zones of `ZonedDateTime` do not affect the
  before/after comparisons used here.
