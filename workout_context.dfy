/**
 * The active-workout session tracker (`WorkoutProvider`).
 *
 * Every operation of the provider replaces its one `state` record with a new
 * record built from the old one; each such record-to-record transition is a
 * function below, and the class `WorkoutProvider` at the end holds the state
 * and applies them. The wall clock (`Date.now()`) is the parameter `now`; the
 * identifier `addExercise` makes from it is the parameter `newId`, and the
 * identifiers `addSet` makes from it, one clock read per matching exercise,
 * are the parameter `setIdAt`, indexed by the exercise's position.
 */
module WorkoutContext {
  import opened Wrappers

  /** One set of an exercise; reps and weight are the text the user typed. */
  datatype ExerciseSet = ExerciseSet(id: string, reps: string, weight: string, completed: bool)

  /** One exercise of the session; `catalogId` is the optional catalogue reference `_id`. */
  datatype Exercise = Exercise(id: string, name: string, catalogId: Option<string>, sets: seq<ExerciseSet>)

  /** What `addExercise` receives: an exercise without its id and sets. */
  datatype ExerciseInput = ExerciseInput(name: string, catalogId: Option<string>)

  /** A `Partial<Set>`: each field that is present overrides the set's own. */
  datatype SetUpdate = SetUpdate(id: Option<string>, reps: Option<string>, weight: Option<string>, completed: Option<bool>)

  /** Timestamps are milliseconds; `null` is None. */
  datatype WorkoutState = WorkoutState(
    isActive: bool,
    isPaused: bool,
    exercises: seq<Exercise>,
    startTime: Option<int>,
    pausedTime: Option<int>,
    totalElapsed: int)

  /** JavaScript truthiness of a `number | null`: null and 0 are both false. */
  predicate Truthy(t: Option<int>) {
    t.Some? && t.value != 0
  }

  /** The record the provider starts with, and the one end and clear restore. */
  function InitialState(): WorkoutState {
    WorkoutState(false, false, [], None, None, 0)
  }

  predicate IsInitial(s: WorkoutState) {
    && !s.isActive
    && !s.isPaused
    && s.exercises == []
    && s.startTime == None
    && s.pausedTime == None
    && s.totalElapsed == 0
  }

  /**
   * What every transition keeps: a start time exactly while active, a pause
   * time exactly while paused, and an elapsed snapshot that is never set.
   */
  predicate Consistent(s: WorkoutState) {
    && (s.isActive <==> s.startTime.Some?)
    && (s.isPaused <==> s.pausedTime.Some?)
    && s.totalElapsed == 0
  }

  /** Same clock fields, exercises possibly different. */
  predicate SameClock(r: WorkoutState, s: WorkoutState) {
    && r.isActive == s.isActive
    && r.isPaused == s.isPaused
    && r.startTime == s.startTime
    && r.pausedTime == s.pausedTime
    && r.totalElapsed == s.totalElapsed
  }

  // ---------------------------------------------------------------- clock

  /** `startWorkout`: unguarded, so on an active session it restarts the clock. */
  function Start(s: WorkoutState, now: int): (r: WorkoutState)
    ensures r.isActive && !r.isPaused
    ensures r.startTime == Some(now) && r.pausedTime == None
    ensures r.exercises == s.exercises && r.totalElapsed == s.totalElapsed
    ensures Consistent(s) ==> Consistent(r)
  {
    s.(isActive := true, isPaused := false, startTime := Some(now), pausedTime := None)
  }

  /** `pauseWorkout`: checks neither activity nor an earlier pause. */
  function Pause(s: WorkoutState, now: int): (r: WorkoutState)
    ensures r.isPaused && r.pausedTime == Some(now)
    ensures r.isActive == s.isActive && r.startTime == s.startTime
    ensures r.exercises == s.exercises && r.totalElapsed == s.totalElapsed
    ensures Consistent(s) ==> Consistent(r)
  {
    s.(isPaused := true, pausedTime := Some(now))
  }

  /**
   * `resumeWorkout`: when both timestamps are truthy, moves the start time
   * forward by the length of the pause and leaves the pause; otherwise a no-op.
   */
  function Resume(s: WorkoutState, now: int): (r: WorkoutState)
    ensures !Truthy(s.startTime) || !Truthy(s.pausedTime) ==> r == s
    ensures Truthy(s.startTime) && Truthy(s.pausedTime) ==>
      && r.startTime == Some(s.startTime.value + (now - s.pausedTime.value))
      && r.pausedTime == None && !r.isPaused
      && r.isActive == s.isActive && r.exercises == s.exercises
      && r.totalElapsed == s.totalElapsed
    ensures Consistent(s) ==> Consistent(r)
  {
    if !Truthy(s.startTime) || !Truthy(s.pausedTime) then s
    else
      var pauseDuration := now - s.pausedTime.value;
      s.(isPaused := false, startTime := Some(s.startTime.value + pauseDuration), pausedTime := None)
  }

  /** `endWorkout`: discards the session, whatever it held. */
  function End(s: WorkoutState): (r: WorkoutState)
    ensures IsInitial(r) && Consistent(r)
  {
    InitialState()
  }

  /** `clearWorkout`: the same full reset as `endWorkout`, under a second name. */
  function Clear(s: WorkoutState): (r: WorkoutState)
    ensures IsInitial(r) && Consistent(r)
  {
    InitialState()
  }

  /**
   * `getElapsedSeconds`: whole seconds of the session at time `now`.
   * `Math.floor(x / 1000)` is Dafny's `x / 1000`, which floors for a positive divisor.
   */
  function ElapsedSeconds(s: WorkoutState, now: int): (r: int)
    ensures !s.isActive ==> r == s.totalElapsed
    ensures s.isActive && s.isPaused && Truthy(s.pausedTime) && Truthy(s.startTime) ==>
      r * 1000 <= s.pausedTime.value - s.startTime.value < r * 1000 + 1000
    ensures s.isActive && !(s.isPaused && Truthy(s.pausedTime)) && Truthy(s.startTime) ==>
      r * 1000 <= now - s.startTime.value < r * 1000 + 1000
    ensures s.isActive && !Truthy(s.startTime) ==> r == s.totalElapsed
  {
    if !s.isActive then s.totalElapsed
    else if s.isPaused && Truthy(s.pausedTime) && Truthy(s.startTime) then
      (s.pausedTime.value - s.startTime.value) / 1000
    else if Truthy(s.startTime) then
      (now - s.startTime.value) / 1000
    else s.totalElapsed
  }

  // ---------------------------------------------------------------- exercises

  /** `addExercise`: appends the input with a fresh id and no sets. */
  function AddExerciseTo(s: WorkoutState, input: ExerciseInput, newId: string): (r: WorkoutState)
    ensures |r.exercises| == |s.exercises| + 1
    ensures r.exercises[..|s.exercises|] == s.exercises
    ensures r.exercises[|s.exercises|] == Exercise(newId, input.name, input.catalogId, [])
    ensures SameClock(r, s)
    ensures Consistent(s) ==> Consistent(r)
  {
    var newExercise := Exercise(newId, input.name, input.catalogId, []);
    s.(exercises := s.exercises + [newExercise])
  }

  /** `prev.exercises.filter((ex) => ex.id !== exerciseId)` */
  function Without(exs: seq<Exercise>, id: string): (r: seq<Exercise>)
    ensures |r| <= |exs|
    ensures forall e :: e in r <==> e in exs && e.id != id
    ensures (forall e :: e in exs ==> e.id != id) ==> r == exs
  {
    if exs == [] then []
    else
      assert forall e :: e in exs <==> e == exs[0] || e in exs[1..];
      if exs[0].id == id then Without(exs[1..], id)
      else [exs[0]] + Without(exs[1..], id)
  }

  /** `deleteExercise`: drops every exercise with that id; unknown ids change nothing. */
  function DeleteExerciseFrom(s: WorkoutState, id: string): (r: WorkoutState)
    ensures forall e :: e in r.exercises <==> e in s.exercises && e.id != id
    ensures (forall e :: e in s.exercises ==> e.id != id) ==> r == s
    ensures SameClock(r, s)
    ensures Consistent(s) ==> Consistent(r)
  {
    s.(exercises := Without(s.exercises, id))
  }

  /** The set `addSet` creates: empty text fields, not completed. */
  function BlankSet(newId: string): ExerciseSet {
    ExerciseSet(newId, "", "", false)
  }

  /**
   * `addSet`: appends a blank set to every exercise whose id matches. The
   * clock is read anew for each matching exercise, so the exercise at
   * position `i` receives the id `setIdAt(i)`; those ids may coincide or not.
   */
  function AddSetTo(s: WorkoutState, exerciseId: string, setIdAt: nat -> string): (r: WorkoutState)
    ensures |r.exercises| == |s.exercises|
    ensures forall i :: 0 <= i < |s.exercises| && s.exercises[i].id != exerciseId ==>
      r.exercises[i] == s.exercises[i]
    ensures forall i :: 0 <= i < |s.exercises| && s.exercises[i].id == exerciseId ==>
      && r.exercises[i].id == s.exercises[i].id
      && r.exercises[i].name == s.exercises[i].name
      && r.exercises[i].catalogId == s.exercises[i].catalogId
      && |r.exercises[i].sets| == |s.exercises[i].sets| + 1
      && r.exercises[i].sets[..|s.exercises[i].sets|] == s.exercises[i].sets
      && r.exercises[i].sets[|s.exercises[i].sets|] == BlankSet(setIdAt(i))
    ensures (forall e :: e in s.exercises ==> e.id != exerciseId) ==> r == s
    ensures SameClock(r, s)
    ensures Consistent(s) ==> Consistent(r)
  {
    var exs := s.exercises;
    var r := s.(exercises := seq(|exs|, i requires 0 <= i < |exs| =>
      if exs[i].id == exerciseId then exs[i].(sets := exs[i].sets + [BlankSet(setIdAt(i))]) else exs[i]));
    assert (forall e :: e in exs ==> e.id != exerciseId) ==> r.exercises == exs;
    r
  }

  /** `{ ...set, ...updates }` */
  function MergeSet(es: ExerciseSet, u: SetUpdate): ExerciseSet {
    ExerciseSet(
      u.id.GetOr(es.id),
      u.reps.GetOr(es.reps),
      u.weight.GetOr(es.weight),
      u.completed.GetOr(es.completed))
  }

  /** True when the exercise has the id and one of its sets has the set id. */
  predicate HasSet(exs: seq<Exercise>, exerciseId: string, setId: string) {
    exists i, j :: 0 <= i < |exs| && exs[i].id == exerciseId && 0 <= j < |exs[i].sets| && exs[i].sets[j].id == setId
  }

  /** `updateSet`: merges the update into the sets matching both ids, and nothing else. */
  function UpdateSetIn(s: WorkoutState, exerciseId: string, setId: string, u: SetUpdate): (r: WorkoutState)
    ensures |r.exercises| == |s.exercises|
    ensures forall i :: 0 <= i < |s.exercises| ==>
      && r.exercises[i].id == s.exercises[i].id
      && r.exercises[i].name == s.exercises[i].name
      && r.exercises[i].catalogId == s.exercises[i].catalogId
      && |r.exercises[i].sets| == |s.exercises[i].sets|
    ensures forall i, j :: 0 <= i < |s.exercises| && 0 <= j < |s.exercises[i].sets| ==>
      r.exercises[i].sets[j] ==
        if s.exercises[i].id == exerciseId && s.exercises[i].sets[j].id == setId
        then MergeSet(s.exercises[i].sets[j], u)
        else s.exercises[i].sets[j]
    ensures !HasSet(s.exercises, exerciseId, setId) ==> r == s
    ensures SameClock(r, s)
    ensures Consistent(s) ==> Consistent(r)
  {
    var exs := s.exercises;
    var r := s.(exercises := seq(|exs|, i requires 0 <= i < |exs| =>
      if exs[i].id == exerciseId then
        exs[i].(sets := seq(|exs[i].sets|, j requires 0 <= j < |exs[i].sets| =>
          if exs[i].sets[j].id == setId then MergeSet(exs[i].sets[j], u) else exs[i].sets[j]))
      else exs[i]));
    if !HasSet(exs, exerciseId, setId) then
      assert forall i :: 0 <= i < |exs| ==> r.exercises[i].sets == exs[i].sets;
      assert r.exercises == exs;
      r
    else r
  }

  // ---------------------------------------------------------------- properties

  /** End and clear are the same reset, reach the initial record from any state, and repeat harmlessly. */
  lemma ResetIsInitial(s: WorkoutState)
    ensures End(s) == Clear(s) == InitialState()
    ensures End(End(s)) == End(s) && Clear(Clear(s)) == Clear(s)
    ensures ElapsedSeconds(End(s), 0) == 0
  {
  }

  /** Right after a start, whatever came before, the clock reads the time since `now`. */
  lemma ElapsedAfterStart(s: WorkoutState, now: int, d: int)
    requires now != 0
    ensures ElapsedSeconds(Start(s, now), now + d) == d / 1000
    ensures 0 <= d < 1000 ==> ElapsedSeconds(Start(s, now), now + d) == 0
  {
  }

  /**
   * While paused the clock is pinned at the value it had when the pause began,
   * whatever `now` is.
   */
  lemma PauseFreezesElapsed(s: WorkoutState, p: int, n: int)
    requires s.isActive && !s.isPaused && Truthy(s.startTime) && p != 0
    ensures ElapsedSeconds(Pause(s, p), n) == ElapsedSeconds(s, p)
  {
  }

  /**
   * Pausing at p and resuming at r removes exactly the pause: at every instant
   * r + d after the resume the clock reads what it would have read at p + d
   * without the pause; in particular, at r it reads the value shown while paused.
   * (The resumed start time must be truthy, as the source tests it for truthiness.)
   */
  lemma PauseResumeContinuity(s: WorkoutState, p: int, r: int, d: int)
    requires s.isActive && !s.isPaused && Truthy(s.startTime) && p != 0
    requires s.startTime.value + (r - p) != 0
    ensures ElapsedSeconds(Resume(Pause(s, p), r), r + d) == ElapsedSeconds(s, p + d)
    ensures ElapsedSeconds(Resume(Pause(s, p), r), r) == ElapsedSeconds(Pause(s, p), r)
  {
  }

  /** A second resume finds no pause time and changes nothing. */
  lemma ResumeTwiceIsResumeOnce(s: WorkoutState, r1: int, r2: int)
    ensures Resume(Resume(s, r1), r2) == Resume(s, r1)
  {
  }

  /**
   * Pausing again overwrites the pause time: after a resume, the time between
   * the two pauses counts as workout time.
   */
  lemma SecondPauseOverwrites(s: WorkoutState, p1: int, p2: int, r: int)
    requires s.isActive && Truthy(s.startTime) && p2 != 0
    requires s.startTime.value + (r - p2) != 0
    ensures Pause(Pause(s, p1), p2) == Pause(s, p2)
    ensures ElapsedSeconds(Resume(Pause(Pause(s, p1), p2), r), r) == (p2 - s.startTime.value) / 1000
  {
  }

  /**
   * A pause time of 0 is falsy: the clock keeps running through such a pause,
   * and resume leaves the state as it is.
   */
  lemma PauseAtZeroIsIgnored(s: WorkoutState, n: int, r: int)
    requires s.isActive && Truthy(s.startTime)
    ensures ElapsedSeconds(Pause(s, 0), n) == (n - s.startTime.value) / 1000
    ensures Resume(Pause(s, 0), r) == Pause(s, 0)
  {
  }

  /** Filtering distributes over concatenation: the kept exercises stay in their order. */
  lemma {:induction false} WithoutConcat(a: seq<Exercise>, b: seq<Exercise>, id: string)
    ensures Without(a + b, id) == Without(a, id) + Without(b, id)
  {
    if a == [] {
      assert a + b == b;
    } else {
      assert (a + b)[0] == a[0];
      assert (a + b)[1..] == a[1..] + b;
      WithoutConcat(a[1..], b, id);
    }
  }

  /** Deleting removes each exercise with the id and keeps the others, in order. */
  lemma DeleteKeepsOrder(s: WorkoutState, id: string, e: Exercise)
    ensures DeleteExerciseFrom(s.(exercises := s.exercises + [e]), id).exercises ==
      DeleteExerciseFrom(s, id).exercises + (if e.id == id then [] else [e])
  {
    WithoutConcat(s.exercises, [e], id);
  }

  /** Deleting the exercise just added under an id not yet in use restores the state. */
  lemma DeleteUndoesAdd(s: WorkoutState, input: ExerciseInput, newId: string)
    requires forall e :: e in s.exercises ==> e.id != newId
    ensures DeleteExerciseFrom(AddExerciseTo(s, input, newId), newId) == s
  {
    var e := Exercise(newId, input.name, input.catalogId, []);
    WithoutConcat(s.exercises, [e], newId);
  }

  lemma DeleteTwiceIsDeleteOnce(s: WorkoutState, id: string)
    ensures DeleteExerciseFrom(DeleteExerciseFrom(s, id), id) == DeleteExerciseFrom(s, id)
  {
  }

  /** Number of sets over all exercises. */
  function TotalSets(exs: seq<Exercise>): nat {
    if exs == [] then 0 else |exs[0].sets| + TotalSets(exs[1..])
  }

  /** Number of exercises carrying the id. */
  function Matches(exs: seq<Exercise>, id: string): nat {
    if exs == [] then 0 else (if exs[0].id == id then 1 else 0) + Matches(exs[1..], id)
  }

  /** If each exercise gains one set exactly when it carries the id, the total grows by the matches. */
  lemma {:induction false} GrowthCount(exs: seq<Exercise>, grown: seq<Exercise>, id: string)
    requires |grown| == |exs|
    requires forall i :: 0 <= i < |exs| ==>
      |grown[i].sets| == |exs[i].sets| + (if exs[i].id == id then 1 else 0)
    ensures TotalSets(grown) == TotalSets(exs) + Matches(exs, id)
    decreases |exs|
  {
    if exs != [] {
      GrowthCount(exs[1..], grown[1..], id);
    }
  }

  /** `addSet` adds one set per exercise carrying the id, and no other. */
  lemma AddSetCount(s: WorkoutState, exerciseId: string, setIdAt: nat -> string)
    ensures TotalSets(AddSetTo(s, exerciseId, setIdAt).exercises) == TotalSets(s.exercises) + Matches(s.exercises, exerciseId)
  {
    GrowthCount(s.exercises, AddSetTo(s, exerciseId, setIdAt).exercises, exerciseId);
  }

  /** Merging the same update twice is merging it once, whatever the update. */
  lemma UpdateSetTwiceIsUpdateOnce(s: WorkoutState, exerciseId: string, setId: string, u: SetUpdate)
    ensures UpdateSetIn(UpdateSetIn(s, exerciseId, setId, u), exerciseId, setId, u) == UpdateSetIn(s, exerciseId, setId, u)
  {
    var once := UpdateSetIn(s, exerciseId, setId, u);
    var twice := UpdateSetIn(once, exerciseId, setId, u);
    forall i | 0 <= i < |s.exercises|
      ensures twice.exercises[i] == once.exercises[i]
    {
      assert twice.exercises[i].sets == once.exercises[i].sets;
    }
  }

  /** An update with no fields leaves every set as it was. */
  lemma EmptyUpdateIsIdentity(s: WorkoutState, exerciseId: string, setId: string)
    ensures UpdateSetIn(s, exerciseId, setId, SetUpdate(None, None, None, None)) == s
  {
    var r := UpdateSetIn(s, exerciseId, setId, SetUpdate(None, None, None, None));
    forall i | 0 <= i < |s.exercises|
      ensures r.exercises[i] == s.exercises[i]
    {
      assert r.exercises[i].sets == s.exercises[i].sets;
    }
  }

  // ---------------------------------------------------------------- provider

  /** The provider: one mutable record, replaced by every operation. */
  class WorkoutProvider {
    var state: WorkoutState

    predicate Valid()
      reads this
    {
      Consistent(state)
    }

    constructor()
      ensures state == InitialState() && Valid()
    {
      state := InitialState();
    }

    method StartWorkout(now: int)
      requires Valid()
      modifies this
      ensures state == Start(old(state), now) && Valid()
    {
      state := Start(state, now);
    }

    method PauseWorkout(now: int)
      requires Valid()
      modifies this
      ensures state == Pause(old(state), now) && Valid()
    {
      state := Pause(state, now);
    }

    method ResumeWorkout(now: int)
      requires Valid()
      modifies this
      ensures state == Resume(old(state), now) && Valid()
    {
      state := Resume(state, now);
    }

    method EndWorkout()
      modifies this
      ensures state == End(old(state)) && Valid()
    {
      state := End(state);
    }

    method ClearWorkout()
      modifies this
      ensures state == Clear(old(state)) && Valid()
    {
      state := Clear(state);
    }

    method AddExercise(input: ExerciseInput, newId: string)
      requires Valid()
      modifies this
      ensures state == AddExerciseTo(old(state), input, newId) && Valid()
    {
      state := AddExerciseTo(state, input, newId);
    }

    method DeleteExercise(exerciseId: string)
      requires Valid()
      modifies this
      ensures state == DeleteExerciseFrom(old(state), exerciseId) && Valid()
    {
      state := DeleteExerciseFrom(state, exerciseId);
    }

    method AddSet(exerciseId: string, setIdAt: nat -> string)
      requires Valid()
      modifies this
      ensures state == AddSetTo(old(state), exerciseId, setIdAt) && Valid()
    {
      state := AddSetTo(state, exerciseId, setIdAt);
    }

    method UpdateSet(exerciseId: string, setId: string, updates: SetUpdate)
      requires Valid()
      modifies this
      ensures state == UpdateSetIn(old(state), exerciseId, setId, updates) && Valid()
    {
      state := UpdateSetIn(state, exerciseId, setId, updates);
    }

    method GetElapsedSeconds(now: int) returns (r: int)
      requires Valid()
      ensures r == ElapsedSeconds(state, now)
      ensures !state.isActive ==> r == 0
    {
      r := ElapsedSeconds(state, now);
    }
  }
}
