/** The HTTP boundary: identifier validation, and the routes that validate before they
    delegate to the processor. */
module Api {
  import opened Wrappers
  import opened Model
  import opened FitnessProcessor

  const NULL_MESSAGE: string := "ID cannot be 'null'"
  const UNDEFINED_MESSAGE: string := "ID cannot be 'undefined'"
  const BLANK_MESSAGE: string := "ID cannot be blank"
  const PATTERN_MESSAGE: string := "ID failed pattern check"

  /** The characters the JVM's case-insensitive comparison takes as equal to the lower-case
      ASCII letter `w`: the letter itself, its upper case, and for 'i' also dotted capital I
      (U+0130, whose lower case is 'i') and dotless small i (U+0131, whose upper case is 'I'). */
  predicate CharEqualsIgnoringCase(c: char, w: char)
    requires 'a' <= w <= 'z'
  {
    || c == w
    || c as int == w as int - 32
    || (w == 'i' && (c == '\U{0130}' || c == '\U{0131}'))
  }

  /** `s.equals(word, ignoreCase = true)` for a lower-case ASCII `word`. */
  function EqualsIgnoringCase(s: string, word: string): (b: bool)
    requires forall i :: 0 <= i < |word| ==> 'a' <= word[i] <= 'z'
    ensures s == word ==> b
    ensures (|s| == |word| && forall i :: 0 <= i < |s| ==> s[i] == word[i] || s[i] as int == word[i] as int - 32) ==> b
    ensures b ==> |s| == |word|
    ensures (exists i :: 0 <= i < |s| && i < |word| && s[i] as int < 128
                && s[i] != word[i] && s[i] as int != word[i] as int - 32) ==> !b
  {
    |s| == |word| && forall i :: 0 <= i < |s| ==> CharEqualsIgnoringCase(s[i], word[i])
  }

  /** Kotlin's `Char.isWhitespace()`: a Java whitespace or space character. */
  function IsWhitespace(c: char): (b: bool)
    ensures c == ' ' || c == '\t' || c == '\n' || c == '\r' ==> b
    ensures b ==> !IsLowerHex(c) && c != '-'
  {
    var n := c as int;
    || 0x09 <= n <= 0x0D || 0x1C <= n <= 0x20
    || n == 0xA0 || n == 0x1680 || 0x2000 <= n <= 0x200A
    || n == 0x2028 || n == 0x2029 || n == 0x202F || n == 0x205F || n == 0x3000
  }

  /** Kotlin's `isBlank()`: empty, or whitespace only. */
  function IsBlank(s: string): (b: bool)
    ensures |s| == 0 ==> b
    ensures (forall i :: 0 <= i < |s| ==> s[i] == ' ' || s[i] == '\t' || s[i] == '\n' || s[i] == '\r') ==> b
    ensures b ==> forall i :: 0 <= i < |s| ==> !IsLowerHex(s[i]) && s[i] != '-'
  {
    forall i :: 0 <= i < |s| ==> IsWhitespace(s[i])
  }

  predicate IsLowerHex(c: char)
  {
    '0' <= c <= '9' || 'a' <= c <= 'f'
  }

  /** `s` is a run of exactly `n` lower-case hex digits (`[0-9a-f]{n}`). */
  predicate IsHexRun(s: string, n: nat)
  {
    |s| == n && forall i :: 0 <= i < |s| ==> IsLowerHex(s[i])
  }

  /** `s.matches(uuidPattern)`: the whole string is groups of 8, 4, 4, 4 and 12 lower-case
      hex digits separated by single hyphens. A word boundary `\b` holds before and after
      each group, since hex digits are word characters and hyphens and the ends of the string
      are not, so the pattern's four `\b` never reject anything. */
  function MatchesUuidPattern(s: string): (b: bool)
    ensures b ==> |s| == 36
    ensures b ==> forall i :: 0 <= i < |s| ==> (s[i] == '-' <==> IsHyphenPosition(i))
  {
    if |s| != 36 then false
    else
      HexRunAt(s, 0, 8); HexRunAt(s, 9, 13); HexRunAt(s, 14, 18); HexRunAt(s, 19, 23); HexRunAt(s, 24, 36);
      && IsHexRun(s[0..8], 8) && s[8] == '-'
      && IsHexRun(s[9..13], 4) && s[13] == '-'
      && IsHexRun(s[14..18], 4) && s[18] == '-'
      && IsHexRun(s[19..23], 4) && s[23] == '-'
      && IsHexRun(s[24..36], 12)
  }

  predicate IsHyphenPosition(i: int)
  {
    i == 8 || i == 13 || i == 18 || i == 23
  }

  /** checkValidity: the first failing check decides the message; an id that passes every
      check is returned unchanged. */
  function CheckValidity(id: Option<string>): (r: Result<string>)
    ensures r.Ok? <==>
      && id.Some?
      && !EqualsIgnoringCase(id.value, "null")
      && !EqualsIgnoringCase(id.value, "undefined")
      && !IsBlank(id.value)
      && MatchesUuidPattern(id.value)
    ensures r.Ok? ==> r.value == id.value
    ensures r.Err? ==> r.error.BadRequest?
    ensures r == Err(BadRequest(NULL_MESSAGE)) <==> id.None? || EqualsIgnoringCase(id.value, "null")
    ensures r == Err(BadRequest(UNDEFINED_MESSAGE)) <==>
      id.Some? && !EqualsIgnoringCase(id.value, "null") && EqualsIgnoringCase(id.value, "undefined")
    ensures r == Err(BadRequest(BLANK_MESSAGE)) <==>
      id.Some? && !EqualsIgnoringCase(id.value, "null") && !EqualsIgnoringCase(id.value, "undefined")
      && IsBlank(id.value)
    ensures r == Err(BadRequest(PATTERN_MESSAGE)) <==>
      id.Some? && !EqualsIgnoringCase(id.value, "null") && !EqualsIgnoringCase(id.value, "undefined")
      && !IsBlank(id.value) && !MatchesUuidPattern(id.value)
  {
    if id.None? || EqualsIgnoringCase(id.value, "null") then Err(BadRequest(NULL_MESSAGE))
    else if EqualsIgnoringCase(id.value, "undefined") then Err(BadRequest(UNDEFINED_MESSAGE))
    else if IsBlank(id.value) then Err(BadRequest(BLANK_MESSAGE))
    else if !MatchesUuidPattern(id.value) then Err(BadRequest(PATTERN_MESSAGE))
    else Ok(id.value)
  }

  /** A run of hex digits inside `s`, read position by position. */
  lemma HexRunAt(s: string, lo: nat, hi: nat)
    requires lo <= hi <= |s|
    ensures IsHexRun(s[lo..hi], hi - lo) <==> forall i :: lo <= i < hi ==> IsLowerHex(s[i])
  {
    if forall i :: lo <= i < hi ==> IsLowerHex(s[i]) {
      forall j | 0 <= j < hi - lo ensures IsLowerHex(s[lo..hi][j]) {
        assert s[lo..hi][j] == s[lo + j];
      }
    }
    if IsHexRun(s[lo..hi], hi - lo) {
      forall i | lo <= i < hi ensures IsLowerHex(s[i]) {
        assert s[i] == s[lo..hi][i - lo];
      }
    }
  }

  /** The pattern, character by character: 36 characters, hyphens at 8, 13, 18 and 23, and a
      lower-case hex digit everywhere else. */
  lemma UuidPatternByPosition(s: string)
    ensures MatchesUuidPattern(s) <==>
      && |s| == 36
      && (forall i :: 0 <= i < 36 ==> (if IsHyphenPosition(i) then s[i] == '-' else IsLowerHex(s[i])))
  {
    if |s| == 36 {
      HexRunAt(s, 0, 8);
      HexRunAt(s, 9, 13);
      HexRunAt(s, 14, 18);
      HexRunAt(s, 19, 23);
      HexRunAt(s, 24, 36);
    }
  }

  /** An accepted id has the textual UUID form: length 36, hyphens at 8, 13, 18 and 23,
      lower-case hex digits elsewhere. */
  lemma AcceptedIdIsUuidShaped(id: string)
    requires CheckValidity(Some(id)).Ok?
    ensures |id| == 36
    ensures forall i :: 0 <= i < 36 ==> (if IsHyphenPosition(i) then id[i] == '-' else IsLowerHex(id[i]))
  {
    UuidPatternByPosition(id);
  }

  /** An id with an upper-case letter anywhere (upper-case hex included) is rejected. */
  lemma UpperCaseRejected(id: string, i: nat)
    requires i < |id| && 'A' <= id[i] <= 'Z'
    ensures CheckValidity(Some(id)).Err?
  {
    UuidPatternByPosition(id);
  }

  /** "null", "undefined" and blank strings would fail the pattern anyway: the earlier checks
      only choose a more telling message. */
  lemma EarlierChecksOnlyChooseMessage(id: string)
    requires EqualsIgnoringCase(id, "null") || EqualsIgnoringCase(id, "undefined") || IsBlank(id)
    ensures !MatchesUuidPattern(id)
  {
    if |id| == 36 {
      UuidPatternByPosition(id);
      assert IsBlank(id) ==> IsWhitespace(id[0]) && !IsLowerHex(id[0]);
    }
  }

  /** Letter-case variants of "null" and "undefined", and whitespace-only strings, get the
      message of their own check. */
  lemma CheckValidityMessages()
    ensures CheckValidity(Some("NULL")) == Err(BadRequest(NULL_MESSAGE))
    ensures CheckValidity(Some("Null")) == Err(BadRequest(NULL_MESSAGE))
    ensures CheckValidity(None) == Err(BadRequest(NULL_MESSAGE))
    ensures CheckValidity(Some("UnDeFiNeD")) == Err(BadRequest(UNDEFINED_MESSAGE))
    ensures CheckValidity(Some(" \t")) == Err(BadRequest(BLANK_MESSAGE))
    ensures CheckValidity(Some("")) == Err(BadRequest(BLANK_MESSAGE))
  {
  }

  /** Strings that differ from "null" or "undefined" by more than letter case, and are not
      blank, reach the pattern check and get its message. */
  lemma PatternMessageForNearMisses()
    ensures CheckValidity(Some("nil")) == Err(BadRequest(PATTERN_MESSAGE))
    ensures CheckValidity(Some("nulx")) == Err(BadRequest(PATTERN_MESSAGE))
    ensures CheckValidity(Some("undefinex")) == Err(BadRequest(PATTERN_MESSAGE))
  {
    assert !IsWhitespace("nil"[0]);
    assert "nulx"[3] == 'x' && !IsWhitespace("nulx"[0]);
    assert "undefinex"[8] == 'x' && !IsWhitespace("undefinex"[0]);
  }

  /** The routes that reach the processor. */
  datatype Request =
    | GetExercise(exerciseId: string)                                              // GET /exercise/{exerciseId}
    | GetWorkout(workoutId: string)                                                // GET /workout/{workoutId}
    | GetExercisesAndSets(workoutId: string)                                       // GET /workout/{workoutId}/exercises
    | StartNewWorkout                                                              // POST /workout
    | AddExerciseToWorkout(workoutId: string, newExercise: FitnessExercise)        // POST /workout/{workoutId}/exercise
    | AddSetToExercise(exerciseId: string, setToAdd: FitnessSet)                   // POST /exercise/{exerciseId}/set
    | ChangeExerciseMeasure(exerciseId: string, newMeasure: FitnessMeasure)        // PATCH /exercise/{exerciseId}/measure
    | DeleteExercise(exerciseId: string)                                           // DELETE /exercise/{exerciseId}
    | DeleteSet(setId: string)                                                     // DELETE /set/{setId}
  {
    /** Every route but POST /workout has an identifier in its path. */
    predicate TakesId()
    {
      !StartNewWorkout?
    }

    function PathId(): string
      requires TakesId()
    {
      match this
      case GetExercise(id) => id
      case GetWorkout(id) => id
      case GetExercisesAndSets(id) => id
      case AddExerciseToWorkout(id, _) => id
      case AddSetToExercise(id, _) => id
      case ChangeExerciseMeasure(id, _) => id
      case DeleteExercise(id) => id
      case DeleteSet(id) => id
    }

    /** The routes that only read. */
    predicate IsRead()
    {
      GetExercise? || GetWorkout? || GetExercisesAndSets?
    }
  }

  datatype Response =
    | WorkoutBody(workout: FitnessWorkout)
    | ExerciseBody(exercise: FitnessExercise)
    | ExercisesBody(exercises: seq<FitnessExercise>)

  function AsWorkoutBody(r: Result<FitnessWorkout>): Result<Response>
  {
    match r
    case Ok(w) => Ok(WorkoutBody(w))
    case Err(e) => Err(e)
  }

  function AsExerciseBody(r: Result<FitnessExercise>): Result<Response>
  {
    match r
    case Ok(e) => Ok(ExerciseBody(e))
    case Err(e) => Err(e)
  }

  /** One request: the path identifier is checked first, and a rejected one ends the request
      with its BadRequest before the processor is called, so the store is untouched. The new
      document id and the clock readings are given. */
  method Handle(p: Processor, req: Request, freshId: Id, now: int, startOfDay: int)
    returns (r: Result<Response>)
    requires p.Valid()
    requires freshId !in p.workouts && freshId !in p.exercises && freshId !in p.sets
    modifies p
    ensures p.Valid()
    ensures req.TakesId() && CheckValidity(Some(req.PathId())).Err? ==>
      r == Err(CheckValidity(Some(req.PathId())).error) && unchanged(p)
    ensures req.IsRead() ==> unchanged(p)
    ensures req.TakesId() && r.Err? && r.error.BadRequest? ==> CheckValidity(Some(req.PathId())).Err?
  {
    if req.TakesId() {
      var checked := CheckValidity(Some(req.PathId()));
      if checked.Err? {
        return Err(checked.error);
      }
    }
    match req
    case GetExercise(id) =>
      var e := p.GetExercise(id);
      r := AsExerciseBody(e);
    case GetWorkout(id) =>
      var w := p.GetWorkout(id);
      r := AsWorkoutBody(w);
    case GetExercisesAndSets(id) =>
      var exs := p.GetExercisesByWorkoutId(id);
      r := Ok(ExercisesBody(exs));
    case StartNewWorkout =>
      var w := p.StartNewWorkout(freshId, now, startOfDay);
      r := Ok(WorkoutBody(w));
    case AddExerciseToWorkout(id, draft) =>
      var w := p.AddExerciseToWorkout(id, draft, freshId, now);
      r := AsWorkoutBody(w);
    case AddSetToExercise(id, draft) =>
      var e := p.AddSetToExercise(id, draft, freshId, now);
      r := AsExerciseBody(e);
    case ChangeExerciseMeasure(id, m) =>
      var e := p.ChangeExerciseMeasure(id, m);
      r := AsExerciseBody(e);
    case DeleteExercise(id) =>
      var w := p.DeleteExercise(id);
      r := AsWorkoutBody(w);
    case DeleteSet(id) =>
      var e := p.DeleteSet(id);
      r := AsExerciseBody(e);
  }
}
