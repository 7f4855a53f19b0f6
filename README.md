# Phase-timing tracker, modelled in Dafny

This project models the `TimingTracker` of `src/timing_utils.py`. The tracker
is a wall-clock accumulator. It breaks the cost of a training loop down into
named phases such as environment interaction, imagination rollouts, diffusion
sampling and policy updates. It keeps two maps keyed by phase name: the
cumulative seconds and the number of invocations. It offers four operations:

- `add` charges a duration to a phase and counts one invocation.
- `reset` forgets every phase.
- `time` is a scoped measurement. It reads the clock on entry and again on
  exit, and records exactly one `add`, whether the block returns or raises.
- `to_log` exports a flat record. A phase `p` gives the entries
  `{prefix}p_sec` and `{prefix}p_count`, and a phase never added reads as zero.

The canonical phase list `DEFAULT_TIMING_KEYS` and the two recorded tests are
modelled too.

Files:

- `phase_totals.dfy` (module `PhaseTotals`) holds the tracker's state as a
  value (`Totals`). It defines `add` and `reset` on that value and runs a
  sequence of them (`Run`). It also defines the export record as a function
  (`Snapshot`). The lemmas here state what the source promises about these.
- `timing_utils.dfy` (module `TimingUtils`) holds `DEFAULT_TIMING_KEYS` and the
  class `TimingTracker`. The class has the source's two mutable maps as
  fields. Its methods update them in place, and each method's contract ties
  the new state to the functions of `PhaseTotals`. `ToLog` builds its record
  in a loop, as the source does. The module ends with the two tests, written
  as client methods of the class.

Durations are `real`, so every sum is exact.

## Model

| member | source | states |
|---|---|---|
| `PhaseTotals.Totals.Add` | src/timing_utils.py:40-42 | the phase's seconds rise by exactly the added duration and its count by exactly one, starting from zero for a new phase; every other phase is unchanged; the phase joins both key sets; the maps' common key set and the non-negativity of durations (for a non-negative duration) are preserved |
| `PhaseTotals.RunKeepsInvariant` | src/timing_utils.py:33-42 | after any sequence of adds and resets, with durations of any sign, both maps have the same key set and every present phase has a count of at least one; durations stay non-negative while every added duration is |
| `PhaseTotals.RunWithoutResetGrows` | src/timing_utils.py:40-42 | until a reset, no phase's count ever decreases, and with non-negative durations no phase's seconds decrease either |
| `PhaseTotals.Additivity` | src/timing_utils.py:40-42 | n adds of x_1..x_n to one phase raise its seconds by the sum of the x_i and its count by n, and leave every other phase alone |
| `PhaseTotals.ResetForgets` | src/timing_utils.py:36-38 | a reset followed by any operations ends in the same state as those operations on a fresh tracker, whatever came before |
| `PhaseTotals.ResetIdempotent` | src/timing_utils.py:36-38 | resetting twice leaves the same (empty) state as resetting once |
| `PhaseTotals.ExportAllKnown` | src/timing_utils.py:53-58 | with no keys given, a key is in the record exactly when it is the `_sec` or `_count` key of a phase the tracker knows |
| `PhaseTotals.ExportSelected` | src/timing_utils.py:52-58 | with keys given, a key is in the record exactly when it is the `_sec` or `_count` key of a listed phase |
| `PhaseTotals.ExportedKeys` | src/timing_utils.py:56-58 | the record's keys are exactly the `_sec` and `_count` keys of the requested phases |
| `PhaseTotals.SecKeyInjective` | src/timing_utils.py:57 | two phases with the same `_sec` key are the same phase |
| `PhaseTotals.CountKeyInjective` | src/timing_utils.py:58 | two phases with the same `_count` key are the same phase |
| `PhaseTotals.SecKeyNotCountKey` | src/timing_utils.py:57-58 | no `_sec` key equals any `_count` key, so the two entries never overwrite each other |
| `PhaseTotals.ExportKeysStartWithPrefix` | src/timing_utils.py:57-58 | both keys of a phase begin with the prefix |
| `PhaseTotals.SnapshotReadsBack` | src/timing_utils.py:56-58 | every requested phase has both entries, equal to its stored seconds and count; a phase missing from the durations map reads 0 seconds, and one missing from the counts map reads a count of 0 |
| `PhaseTotals.SnapshotOmits` | src/timing_utils.py:56-58 | a phase that was not requested has no entry |
| `PhaseTotals.SnapshotKeys` | src/timing_utils.py:56-58 | every key of the record is the prefix, a requested phase and `_sec` or `_count`; every key starts with the prefix |
| `PhaseTotals.SnapshotInsert` | src/timing_utils.py:56-58 | one more requested phase adds exactly its two entries and changes no other (one step of the export loop) |
| `PhaseTotals.SnapshotSize` | src/timing_utils.py:53-58 | the record has exactly two entries per distinct requested phase |
| `PhaseTotals.ResetExportsNothing` | src/timing_utils.py:36-54 | after a reset, exporting with no keys gives an empty record |
| `TimingUtils.TimingTracker.constructor` | src/timing_utils.py:31-34 | a new tracker has no phases and keeps the synchronisation flag it was given |
| `TimingUtils.TimingTracker.Reset` | src/timing_utils.py:36-38 | both maps become empty |
| `TimingUtils.TimingTracker.Add` | src/timing_utils.py:40-42 | the new state is the old one with the duration added to the phase and its count raised by one; other phases are unchanged; the class invariant holds |
| `TimingUtils.TimingTracker.Time` | src/timing_utils.py:44-50 | the block's own tracker operations are applied, then exactly one `add(name, stop - start)`, on both exit paths; the block's outcome (return or error) is passed on unchanged; with a non-decreasing clock and non-negative durations the durations stay non-negative |
| `TimingUtils.TimingTracker.KnownPhases` | src/timing_utils.py:53-54 | lists every phase currently known, each exactly once |
| `TimingUtils.TimingTracker.ToLog` | src/timing_utils.py:52-59 | the record built by the loop equals the export record of the current state for the requested phases (all known phases when none are given); the tracker is not changed |
| `TimingUtils.TimingTracker.ExportPhases` | src/timing_utils.py:55-59 | the loop that writes both entries of each phase, one phase at a time, builds exactly the export record of the current state for the phases it is given |
| `TimingUtils.DefaultKeysDistinct` | src/timing_utils.py:18-27 | the canonical names are pairwise distinct, with the wall time first |
| `TimingUtils.DefaultKeysExportSize` | src/timing_utils.py:18-27 | exporting the canonical phases always gives 16 entries |
| `TimingUtils.ResidualIsZeroIff` | tests/test_timing_utils.py:15-20 | for distinct keys with the wall phase first, the wall time minus the other `_sec` values is zero exactly when the stored sub-phase seconds add up to the wall time |
| `TimingUtils.EpochResidualIsZero` | tests/test_timing_utils.py:7-20 | after one epoch (wall time and four sub-phases), the residual over the canonical phases is zero, for any prefix, exactly when the four sub-phases add up to the wall time |
| `TimingUtils.EpochWallSanity` | tests/test_timing_utils.py:7-20 | the epoch test on the tracker: 10 = 3 + 2 + 4 + 1 leaves a zero residual |
| `TimingUtils.RepeatedPhaseCount` | tests/test_timing_utils.py:22-27 | the count test on the tracker: two adds to one phase export a count of 2 |

## Left out

- The clock (`_now`, src/timing_utils.py:61-66) is left out. `TimingTracker.Time` receives the two timestamps as parameters. The elapsed time is only proved non-negative when the second timestamp is not earlier than the first.
- Accelerator synchronisation is left out. It only changes when the two timestamps are read: with the flag on, pending device work finishes before each reading, so the measured time includes it. `TimingTracker.Time` takes both timestamps as parameters, so any such reading is covered. The constructor keeps the `sync_cuda` flag as a field. The per-call override of `time` and the fallback when no accelerator is present are not modelled.
- Floating-point rounding is left out. Durations are `real`, and counts are exported as `real`, for the `float(...)` casts. The tests' tolerance becomes exact equality.
- The context-manager mechanics of `time` are left out. The enclosed block is a value (`Body`). It holds the tracker operations the block performed before it returned or raised, and how it ended.
- Dictionary iteration order is left out. `KnownPhases` lists the known phases in an unspecified order, and the export record is a `map`. The order cannot change the record's contents, because every entry depends only on its phase.
- `to_log` selection: the code accepts any iterable of names. The model takes an optional sequence, where repeated names are allowed. A repeated name writes the same two entries again, so the record is unchanged.
- `TimingTracker.Add`: the code does not check the sign of durations, and the model accepts a negative duration too. Non-negativity is therefore proved only for non-negative inputs. Durations are `real`, so non-finite values (infinity, NaN) cannot be represented, and how they would corrupt the totals is not modelled.
- Concurrency is left out. The code has no locking, so there is no concurrent-`add` safety to model.
- `src/logging_utils.py` is not part of this model. It holds metadata lookups: host, user, version control, versions of the GPU driver and libraries, and run identifiers. It has no algorithmic content.
