# Workout session tracker and workout-history arithmetic, in Dafny

This project models the logic core of a React Native fitness app. It has two parts:

- **The active-workout session tracker** (`WorkoutProvider` in `src/context/WorkoutContext.tsx`).
  The provider holds one record: the active and paused flags, the start and pause timestamps in
  milliseconds, an elapsed-seconds snapshot, and the list of exercises, each with its sets.
  Every operation replaces that record with a new one built from the old.
  Module `WorkoutContext` states each replacement as a pure function on `WorkoutState`:
  `Start`, `Pause`, `Resume`, `End`, `Clear`, `AddExerciseTo`, `DeleteExerciseFrom`, `AddSetTo`,
  `UpdateSetIn`, plus the derived `ElapsedSeconds`.
  The class `WorkoutContext.WorkoutProvider` owns a `state` field, and its methods replace it by
  applying these functions.
  `Date.now()` becomes the parameter `now`. The identifier `addExercise` makes from the clock is
  the parameter `newId`. `addSet` reads the clock once for each matching exercise, so its ids are
  the parameter `setIdAt`, a function from the exercise's position to the id it receives.
- **The history components' arithmetic** (`WorkoutCard.tsx` and `WorkoutDetailModal.tsx`).
  This is `formatDuration`, the `exercisesCount` / `totalSets` / `totalVolume` folds, and the modal's
  per-entry rows (`exVolume`, "sets completed").
  The two files carry verbatim copies of `formatDuration` and of the folds.
  Module `WorkoutHistory` models each copy once, and its rows below cite both files.

Helper modules:

- `Wrappers` holds `Option`.
- `Decimal` models how a template literal `${n}` renders a natural number. It also has a reader that
  recovers the number.
- `Folds` models `xs.reduce((acc, x) => acc + g(x), init)` as a left fold (`ReduceAdd`), next to a
  reference sum (`Sum`).

Modelling choices that follow the code:

- **Timestamps are tested for truthiness.** The code writes `!prev.startTime` and
  `state.pausedTime && state.startTime`, so a timestamp of 0 behaves like `null`.
  `Truthy` models this, and `PauseAtZeroIsIgnored` shows the effect.
  Resume acts only when both timestamps are truthy (`src/context/WorkoutContext.tsx:85`), so a
  timestamp of 0 counts as missing.
- **`totalElapsed` is never written** except to 0.
  `Consistent` states what every operation keeps: a start time exactly while active, a pause time
  exactly while paused, and `totalElapsed == 0`.
  Each transition's contract proves that it preserves `Consistent`, and `WorkoutProvider.Valid()` is
  this invariant.
  So `getElapsedSeconds` reads 0 whenever the session is inactive.
- **`Math.floor(x / 1000)` is Dafny's `x / 1000`.** Dafny's division is Euclidean, which is floor
  division for a positive divisor. `ElapsedSeconds` states the floor by its defining bounds.
- **Updates can change a set's id.** A `Partial<Set>` update is `SetUpdate`, with an `Option` per
  field, including `id`. The spread `{ ...set, ...updates }` can therefore override a set's id.
- **Saved records may lack fields.** The components guard against missing `exercises` and `sets`
  (`?.`, `|| []`) and a missing weight (`|| 0`), so these are `Option`s.
  The modal's entry list dereferences `workout.exercises.map` and `entry.sets.length` without a
  guard. When either is missing, the source throws a `TypeError`
  (`src/app/components/WorkoutDetailModal.tsx:204` and `:226`). The model excludes that case:
  `Rows` and the lemmas about it require both to be present.

## Model

| member | source | states |
|---|---|---|
| `WorkoutContext.Start` | src/context/WorkoutContext.tsx:65-73 | active, unpaused, start time `now`, no pause time; exercises and snapshot kept; unguarded, so it restarts an active clock; preserves `Consistent` |
| `WorkoutContext.Pause` | src/context/WorkoutContext.tsx:75-81 | sets only the paused flag and the pause time `now`; every other field unchanged; preserves `Consistent` |
| `WorkoutContext.Resume` | src/context/WorkoutContext.tsx:83-97 | unchanged unless both timestamps are truthy; otherwise start moves forward by `now - pausedTime`, pause cleared, exercises kept |
| `WorkoutContext.End` | src/context/WorkoutContext.tsx:99-108 | yields the initial record (inactive, unpaused, no exercises, null timestamps, snapshot 0) whatever the prior state |
| `WorkoutContext.Clear` | src/context/WorkoutContext.tsx:175-184 | the same full reset as end |
| `WorkoutContext.ElapsedSeconds` | src/context/WorkoutContext.tsx:186-197 | inactive: the snapshot; paused with both timestamps truthy: floor of (pause − start)/1000; else with a truthy start: floor of (now − start)/1000; else the snapshot |
| `WorkoutContext.AddExerciseTo` | src/context/WorkoutContext.tsx:110-120 | appends exactly one exercise with the given name and catalogue id, the fresh id and no sets; the prefix and the clock are unchanged |
| `WorkoutContext.Without` | src/context/WorkoutContext.tsx:125 | the filter keeps exactly the exercises whose id differs; it is the identity when no exercise has the id |
| `WorkoutContext.DeleteExerciseFrom` | src/context/WorkoutContext.tsx:122-127 | removes every exercise with the id and keeps all others; unknown id: state unchanged |
| `WorkoutContext.AddSetTo` | src/context/WorkoutContext.tsx:129-150 | each exercise with the id gains one blank, uncompleted set at the end, carrying the id read from the clock for that exercise; the others and the clock are untouched; unknown id: state unchanged |
| `WorkoutContext.UpdateSetIn` | src/context/WorkoutContext.tsx:152-173 | merges the update only into sets matching both ids; keeps exercise count, ids, names and every set-list length; no match: state unchanged |
| `WorkoutContext.ResetIsInitial` | src/context/WorkoutContext.tsx:54-61 | end and clear both give the provider's initial record, applying either twice equals once, and the clock then reads 0 |
| `WorkoutContext.ElapsedAfterStart` | src/context/WorkoutContext.tsx:65-73 | after a start at `now`, whatever came before, the clock reads floor(d/1000) at `now + d`, and 0 right after |
| `WorkoutContext.PauseFreezesElapsed` | src/context/WorkoutContext.tsx:189-191 | while paused the clock reads the value it had when the pause began, for every `now` |
| `WorkoutContext.PauseResumeContinuity` | src/context/WorkoutContext.tsx:83-97 | after pause at p and resume at r the clock at r + d reads what it read at p + d without the pause; at r it equals the paused reading |
| `WorkoutContext.ResumeTwiceIsResumeOnce` | src/context/WorkoutContext.tsx:85 | a second resume finds no pause time and changes nothing |
| `WorkoutContext.SecondPauseOverwrites` | src/context/WorkoutContext.tsx:78-79 | a second pause overwrites the first; after resuming, the time between the two pauses counts as workout time |
| `WorkoutContext.PauseAtZeroIsIgnored` | src/context/WorkoutContext.tsx:189-195 | a pause time of 0 is falsy: the clock keeps running through it and resume is a no-op |
| `WorkoutContext.WithoutConcat` | src/context/WorkoutContext.tsx:125 | the filter distributes over concatenation, so kept exercises stay in their original order |
| `WorkoutContext.DeleteKeepsOrder` | src/context/WorkoutContext.tsx:122-127 | deleting from a list with one more exercise at the end gives the shorter list's result, plus that exercise if its id differs |
| `WorkoutContext.DeleteUndoesAdd` | src/context/WorkoutContext.tsx:110-127 | deleting the exercise just added under an unused id restores the previous state exactly |
| `WorkoutContext.DeleteTwiceIsDeleteOnce` | src/context/WorkoutContext.tsx:125 | deleting the same id twice equals deleting it once |
| `WorkoutContext.GrowthCount` | src/context/WorkoutContext.tsx:132-148 | a map that gives each exercise one more set exactly when it carries the id raises the total number of sets by the number of such exercises |
| `WorkoutContext.AddSetCount` | src/context/WorkoutContext.tsx:132-148 | the total number of sets grows by exactly the number of exercises carrying the id |
| `WorkoutContext.UpdateSetTwiceIsUpdateOnce` | src/context/WorkoutContext.tsx:156-169 | applying the same update twice equals applying it once, even when the update changes the set id |
| `WorkoutContext.EmptyUpdateIsIdentity` | src/context/WorkoutContext.tsx:162 | an update with no fields leaves the state unchanged |
| `WorkoutContext.WorkoutProvider.constructor` | src/context/WorkoutContext.tsx:54-61 | the provider starts with the initial record, which satisfies the invariant |
| `WorkoutContext.WorkoutProvider.StartWorkout` | src/context/WorkoutContext.tsx:65-73 | replaces the state by `Start(old state, now)` and keeps the invariant |
| `WorkoutContext.WorkoutProvider.PauseWorkout` | src/context/WorkoutContext.tsx:75-81 | replaces the state by `Pause(old state, now)` and keeps the invariant |
| `WorkoutContext.WorkoutProvider.ResumeWorkout` | src/context/WorkoutContext.tsx:83-97 | replaces the state by `Resume(old state, now)` and keeps the invariant |
| `WorkoutContext.WorkoutProvider.EndWorkout` | src/context/WorkoutContext.tsx:99-108 | replaces the state by the initial record |
| `WorkoutContext.WorkoutProvider.ClearWorkout` | src/context/WorkoutContext.tsx:175-184 | replaces the state by the initial record |
| `WorkoutContext.WorkoutProvider.AddExercise` | src/context/WorkoutContext.tsx:110-120 | replaces the state by `AddExerciseTo(old state, input, newId)` and keeps the invariant |
| `WorkoutContext.WorkoutProvider.DeleteExercise` | src/context/WorkoutContext.tsx:122-127 | replaces the state by `DeleteExerciseFrom(old state, id)` and keeps the invariant |
| `WorkoutContext.WorkoutProvider.AddSet` | src/context/WorkoutContext.tsx:129-150 | replaces the state by `AddSetTo(old state, id, setIdAt)` and keeps the invariant |
| `WorkoutContext.WorkoutProvider.UpdateSet` | src/context/WorkoutContext.tsx:152-173 | replaces the state by `UpdateSetIn(old state, ids, updates)` and keeps the invariant |
| `WorkoutContext.WorkoutProvider.GetElapsedSeconds` | src/context/WorkoutContext.tsx:186-204 | returns `ElapsedSeconds(state, now)` without changing the state; 0 whenever the session is inactive |
| `Decimal.Show` | src/app/components/WorkoutCard.tsx:55-57 | `${n}` for a natural number: a non-empty string of digits with no leading zero |
| `Decimal.ValueShow` | src/app/components/WorkoutCard.tsx:55-57 | the digits `${n}` writes denote n again |
| `Folds.ReduceAddIsSum` | src/app/components/WorkoutCard.tsx:71-78 | `reduce((acc, x) => acc + g(x), init)` equals init plus the sum of g over the list |
| `Folds.SumAppend` | src/app/components/WorkoutCard.tsx:68-70 | the sum over a concatenation is the sum of the sums |
| `WorkoutHistory.DurationParts` | src/app/components/WorkoutCard.tsx:52-54 | `s < 60`, `m < 60` and `h*3600 + m*60 + s == sec` |
| `WorkoutHistory.FormatDuration` | src/app/components/WorkoutCard.tsx:50-58 | "0s" for no or zero duration; "{sec/3600}h {minutes}m" from an hour up; "{sec/60}m {sec%60}s" from a minute up; "{sec}s" below a minute |
| `WorkoutHistory.FormatDurationReadsBack` | src/app/components/WorkoutDetailModal.tsx:40-48 | reading the label back gives the duration exactly below an hour, and the duration less its seconds from an hour up |
| `WorkoutHistory.ExVolume` | src/app/components/WorkoutDetailModal.tsx:205-208 | an entry's volume is the sum of reps × (weight or 0) over its sets; a missing set list gives 0 |
| `WorkoutHistory.Summarize` | src/app/components/WorkoutCard.tsx:67-78 | entry count, sum of set-list lengths (a missing list counts 0), and the nested sum of reps × weight; all 0 for a workout without exercises |
| `WorkoutHistory.SummaryAppend` | src/app/components/WorkoutDetailModal.tsx:59-70 | adding one entry adds 1 to the count, its sets to the total sets and its volume to the total volume |
| `WorkoutHistory.TotalVolumeNonNegative` | src/app/components/WorkoutCard.tsx:71-78 | with no negative reps or weights, the total volume is not negative |
| `WorkoutHistory.Rows` | src/app/components/WorkoutDetailModal.tsx:204-226 | the modal shows one row per entry, in order; row i shows entry i's exercise name, `entry.sets.length` as the sets completed, and the entry's volume `exVolume` |
| `WorkoutHistory.RowSetsSumToTotal` | src/app/components/WorkoutDetailModal.tsx:226 | the per-entry "sets completed" figures add up to the total sets |
| `WorkoutHistory.RowVolumesSumToTotal` | src/app/components/WorkoutDetailModal.tsx:63-70 | the per-entry volumes add up to the total volume |

## Left out

- React plumbing is not modelled: `createContext`/`useContext`, `useCallback`, the unused `timerRef`, and the `useWorkout` guard that throws outside a provider. The provider is one object whose `state` field its methods replace.
- Reading the wall clock and building ids from it are parameters. The source does not enforce that ids are unique, and the model does not claim it.
- `SetUpdate` models each key as either present or absent. A key present with the value `undefined` would overwrite the field with `undefined` in the source; that case is not modelled.
- `AddExerciseTo` takes a name and an optional catalogue id, as the type `Omit<Exercise, "id" | "sets">` allows. Extra keys an untyped caller could pass are not modelled.
- Date and locale formatting are not modelled: `formatDateLabel`, `formatFullDate` and `toLocaleString` depend on the current date, time zones and locale tables.
- The modal's `handleDelete` (a network deletion with alert dialogs), its back-button handler and its focus effects are I/O and navigation, and are not modelled.
- The markup is not modelled: the lists of exercise names on the card, and the set-by-set lines and unit text in the modal.
- Decimal.Show: numbers above `Number.MAX_SAFE_INTEGER` are not modelled. JavaScript computes inexactly above 2^53 and prints exponent notation from 1e21; the model's naturals are unbounded and always print as plain digits.
- JavaScript numbers are restricted. Reps and weights are integers, and durations are naturals. Fractional values, negative durations and `NaN` are not modelled.
- Saving a session (keeping completed sets, parsing text to integers) is not part of this model.
- The sign-in flow, the exercise catalogue cards, the content-store schemas and the client configuration are not part of this model.
