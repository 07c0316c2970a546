/**
 * The arithmetic of the two history components, the workout card and the
 * workout detail modal. Both declare the same record types and carry the same
 * `formatDuration` and the same summary folds, so each is modelled once here.
 */
module WorkoutHistory {
  import opened Wrappers
  import opened Decimal
  import opened Folds

  /** A saved set; a missing weight reads as 0 (`s.weight || 0`). */
  datatype WorkoutSet = WorkoutSet(reps: int, weight: Option<int>, weightUnit: Option<string>)

  datatype ExerciseRef = ExerciseRef(id: string, name: string, imageUrl: Option<string>)

  /** A saved exercise entry; the components guard against a missing `sets` list. */
  datatype WorkoutExerciseEntry = WorkoutExerciseEntry(exercise: ExerciseRef, sets: Option<seq<WorkoutSet>>)

  /** A saved workout; `duration` is in seconds, and the components guard against missing `exercises`. */
  datatype Workout = Workout(id: string, date: string, duration: Option<nat>, exercises: Option<seq<WorkoutExerciseEntry>>)

  // ---------------------------------------------------------------- formatDuration

  /** The hours, minutes and seconds `formatDuration` derives from a duration. */
  datatype Parts = Parts(h: nat, m: nat, s: nat)

  function DurationParts(sec: nat): (p: Parts)
    ensures p.s < 60 && p.m < 60
    ensures p.h * 3600 + p.m * 60 + p.s == sec
  {
    Parts(sec / 3600, (sec % 3600) / 60, sec % 60)
  }

  /**
   * `formatDuration`: "0s" for no duration, hours and minutes from an hour up
   * (seconds dropped), minutes and seconds from a minute up, else seconds.
   */
  function FormatDuration(sec: Option<nat>): (t: string)
    ensures sec == None || sec == Some(0) ==> t == "0s"
    ensures sec.Some? && sec.value >= 3600 ==>
      t == Show(sec.value / 3600) + "h " + Show((sec.value % 3600) / 60) + "m"
    ensures sec.Some? && 60 <= sec.value < 3600 ==>
      t == Show(sec.value / 60) + "m " + Show(sec.value % 60) + "s"
    ensures sec.Some? && 1 <= sec.value < 60 ==> t == Show(sec.value) + "s"
  {
    if sec.None? || sec.value == 0 then "0s"
    else
      var p := DurationParts(sec.value);
      if p.h != 0 then Show(p.h) + "h " + Show(p.m) + "m"
      else if p.m != 0 then Show(p.m) + "m " + Show(p.s) + "s"
      else Show(p.s) + "s"
  }

  /** Reads a duration label back as a number of seconds: "{h}h {m}m", "{m}m {s}s" or "{s}s". */
  function ReadDuration(t: string): Option<nat> {
    match ReadNumber(t)
    case None => None
    case Some((a, rest)) =>
      if rest == "s" then Some(a)
      else if |rest| >= 2 && rest[..2] == "h " then
        match ReadNumber(rest[2..])
        case Some((b, unit)) => if unit == "m" then Some(a * 3600 + b * 60) else None
        case None => None
      else if |rest| >= 2 && rest[..2] == "m " then
        match ReadNumber(rest[2..])
        case Some((b, unit)) => if unit == "s" then Some(a * 60 + b) else None
        case None => None
      else None
  }

  /** How a two-part label "{a}{sep}{b}{unit}" splits after its first number. */
  lemma SplitAfterFirst(sep: string, d: string, unit: string)
    requires |sep| == 2
    ensures (sep + d + unit)[0] == sep[0]
    ensures (sep + d + unit)[..2] == sep
    ensures (sep + d + unit)[2..] == d + unit
    ensures sep + d + unit != "s"
  {
    assert |sep + d + unit| >= 2;
  }

  /** Reading a two-part label "{a}h {b}m" or "{a}m {b}s". */
  lemma ReadTwoPartLabel(a: nat, sep: string, b: nat, unit: string)
    requires (sep == "h " && unit == "m") || (sep == "m " && unit == "s")
    ensures ReadDuration(Show(a) + (sep + Show(b) + unit)) ==
      Some(if sep == "h " then a * 3600 + b * 60 else a * 60 + b)
  {
    var tail := sep + Show(b) + unit;
    SplitAfterFirst(sep, Show(b), unit);
    ReadShow(a, tail);
    ReadShow(b, unit);
  }

  lemma Regroup(x: string, sep: string, d: string, unit: string)
    ensures x + sep + d + unit == x + (sep + d + unit)
  {
  }

  /** Hours and minutes together are the duration less its seconds. */
  lemma HoursMinutesDropSeconds(n: nat)
    ensures (n / 3600) * 3600 + ((n % 3600) / 60) * 60 == n - n % 60
  {
    assert n == (n / 3600) * 3600 + n % 3600;
    assert n % 3600 == ((n % 3600) / 60) * 60 + n % 60;
  }

  lemma ReadBackHours(n: nat)
    requires n >= 3600
    ensures ReadDuration(FormatDuration(Some(n))) == Some(n - n % 60)
  {
    var h, m := n / 3600, (n % 3600) / 60;
    Regroup(Show(h), "h ", Show(m), "m");
    ReadTwoPartLabel(h, "h ", m, "m");
    HoursMinutesDropSeconds(n);
  }

  lemma ReadBackMinutes(n: nat)
    requires 60 <= n < 3600
    ensures ReadDuration(FormatDuration(Some(n))) == Some(n)
  {
    Regroup(Show(n / 60), "m ", Show(n % 60), "s");
    ReadTwoPartLabel(n / 60, "m ", n % 60, "s");
  }

  lemma ReadBackSeconds(n: nat)
    requires n < 60
    ensures ReadDuration(FormatDuration(Some(n))) == Some(n)
  {
    assert FormatDuration(Some(n)) == Show(n) + "s";
    ReadShow(n, "s");
  }

  /**
   * The label says how long the workout took: exactly below an hour, and to
   * the minute from an hour up.
   */
  lemma FormatDurationReadsBack(sec: Option<nat>)
    ensures sec.None? ==> ReadDuration(FormatDuration(sec)) == Some(0)
    ensures sec.Some? && sec.value < 3600 ==> ReadDuration(FormatDuration(sec)) == Some(sec.value)
    ensures sec.Some? && sec.value >= 3600 ==> ReadDuration(FormatDuration(sec)) == Some(sec.value - sec.value % 60)
  {
    if sec.None? {
      assert FormatDuration(sec) == FormatDuration(Some(0));
      ReadBackSeconds(0);
    } else if sec.value >= 3600 {
      ReadBackHours(sec.value);
    } else if sec.value >= 60 {
      ReadBackMinutes(sec.value);
    } else {
      ReadBackSeconds(sec.value);
    }
  }

  // ---------------------------------------------------------------- summary folds

  /** `x || 0` on an optional number: absent and 0 both read as 0. */
  function OrZero(x: Option<int>): int {
    if x.Some? then x.value else 0
  }

  /** `ex.sets || []` */
  function SetsOf(e: WorkoutExerciseEntry): seq<WorkoutSet> {
    e.sets.GetOr([])
  }

  /** `workout.exercises || []` */
  function Entries(w: Workout): seq<WorkoutExerciseEntry> {
    w.exercises.GetOr([])
  }

  /** `s.reps * (s.weight || 0)` */
  function SetVolume(s: WorkoutSet): int {
    s.reps * OrZero(s.weight)
  }

  /** `ex.sets?.length || 0` */
  function SetCount(e: WorkoutExerciseEntry): int {
    |SetsOf(e)|
  }

  /**
   * `exVolume`, the volume of one entry: the sets' reps times weight,
   * accumulated by `reduce` from 0; also the inner fold of `totalVolume`.
   */
  function ExVolume(e: WorkoutExerciseEntry): (v: int)
    ensures v == Sum(SetVolume, SetsOf(e))
  {
    ReduceAddIsSum(SetVolume, 0, SetsOf(e));
    ReduceAdd(SetVolume, 0, SetsOf(e))
  }

  /** The three figures both components show for a workout. */
  datatype Summary = Summary(exercisesCount: nat, totalSets: int, totalVolume: int)

  /** `exercisesCount`, `totalSets` and `totalVolume`, each a `reduce` over the entries. */
  function Summarize(w: Workout): (r: Summary)
    ensures r.exercisesCount == |Entries(w)|
    ensures r.totalSets == Sum(SetCount, Entries(w))
    ensures r.totalVolume == Sum(ExVolume, Entries(w))
    ensures Entries(w) == [] ==> r == Summary(0, 0, 0)
  {
    match w.exercises
    case None => Summary(0, 0, 0)
    case Some(exs) =>
      ReduceAddIsSum(SetCount, 0, exs);
      ReduceAddIsSum(ExVolume, 0, exs);
      Summary(|exs|, ReduceAdd(SetCount, 0, exs), ReduceAdd(ExVolume, 0, exs))
  }

  /** One more entry adds one to the count, its sets to the total and its volume to the total volume. */
  lemma SummaryAppend(w: Workout, e: WorkoutExerciseEntry)
    ensures var r := Summarize(w.(exercises := Some(Entries(w) + [e])));
      && r.exercisesCount == Summarize(w).exercisesCount + 1
      && r.totalSets == Summarize(w).totalSets + |SetsOf(e)|
      && r.totalVolume == Summarize(w).totalVolume + ExVolume(e)
  {
    SumAppend(SetCount, Entries(w), [e]);
    SumAppend(ExVolume, Entries(w), [e]);
  }

  predicate NonNegativeSet(s: WorkoutSet) {
    s.reps >= 0 && OrZero(s.weight) >= 0
  }

  /** With no negative reps or weights, the total volume is not negative. */
  lemma TotalVolumeNonNegative(w: Workout)
    requires forall e :: e in Entries(w) ==> forall s :: s in SetsOf(e) ==> NonNegativeSet(s)
    ensures Summarize(w).totalVolume >= 0
  {
    forall e | e in Entries(w)
      ensures ExVolume(e) >= 0
    {
      SumNonNegative(SetVolume, SetsOf(e));
    }
    SumNonNegative(ExVolume, Entries(w));
  }

  // ---------------------------------------------------------------- the modal's entry list

  /** What the detail modal shows for one entry. */
  datatype EntryRow = EntryRow(name: string, setsCompleted: nat, volume: int)

  /** Every entry has its `sets` list, as `entry.sets.length` needs. */
  predicate AllSetsPresent(exs: seq<WorkoutExerciseEntry>) {
    forall e :: e in exs ==> e.sets.Some?
  }

  /** `workout.exercises.map(...)`: one row per entry, in order. */
  function Rows(exs: seq<WorkoutExerciseEntry>): (rows: seq<EntryRow>)
    requires AllSetsPresent(exs)
    ensures |rows| == |exs|
    ensures forall i :: 0 <= i < |exs| ==>
      exs[i] in exs && rows[i] == EntryRow(exs[i].exercise.name, |exs[i].sets.value|, ExVolume(exs[i]))
  {
    if exs == [] then []
    else
      var e := exs[0];
      assert e in exs;
      assert forall x :: x in exs[1..] ==> x in exs;
      [EntryRow(e.exercise.name, |e.sets.value|, ExVolume(e))] + Rows(exs[1..])
  }

  function RowSets(row: EntryRow): int {
    row.setsCompleted
  }

  function RowVolume(row: EntryRow): int {
    row.volume
  }

  /** The per-entry "sets completed" figures add up to the total sets. */
  lemma {:induction false} RowSetsSumToTotal(w: Workout)
    requires w.exercises.Some? && AllSetsPresent(w.exercises.value)
    ensures Sum(RowSets, Rows(w.exercises.value)) == Summarize(w).totalSets
  {
    RowSetsSum(w.exercises.value);
  }

  lemma {:induction false} RowSetsSum(exs: seq<WorkoutExerciseEntry>)
    requires AllSetsPresent(exs)
    ensures Sum(RowSets, Rows(exs)) == Sum(SetCount, exs)
  {
    if exs != [] {
      assert exs[0] in exs;
      assert forall x :: x in exs[1..] ==> x in exs;
      RowSetsSum(exs[1..]);
    }
  }

  /** The per-entry volumes add up to the total volume. */
  lemma {:induction false} RowVolumesSumToTotal(w: Workout)
    requires w.exercises.Some? && AllSetsPresent(w.exercises.value)
    ensures Sum(RowVolume, Rows(w.exercises.value)) == Summarize(w).totalVolume
  {
    RowVolumesSum(w.exercises.value);
  }

  lemma {:induction false} RowVolumesSum(exs: seq<WorkoutExerciseEntry>)
    requires AllSetsPresent(exs)
    ensures Sum(RowVolume, Rows(exs)) == Sum(ExVolume, exs)
  {
    if exs != [] {
      assert forall x :: x in exs[1..] ==> x in exs;
      RowVolumesSum(exs[1..]);
    }
  }
}
