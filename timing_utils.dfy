/**
 * The phase-timing tracker: two maps keyed by phase name (cumulative seconds
 * and invocation count) updated in place, a scoped measurement that records
 * exactly once on every exit path, and the flat export record.
 *
 * The clock is not modelled: a timed block receives the two timestamps it
 * read, and everything it proves about the elapsed time assumes only that
 * the second is not earlier than the first.
 */
module TimingUtils {
  import opened PhaseTotals

  /** The canonical phase names callers export for comparable breakdowns. */
  const DEFAULT_TIMING_KEYS: seq<string> := [
    "epoch_wall",
    "env_interaction",
    "imagination_rollout",
    "diffusion_sampling_teacher",
    "diffusion_sampling_student",
    "policy_value_update",
    "world_model_update",
    "distillation_oracle_query"
  ]

  /** The prefix every export key carries unless the caller picks another. */
  const DEFAULT_PREFIX: string := "timing/"

  /**
   * What a timed block did: the tracker operations it performed itself (nested
   * timed blocks included, as the `add` each of them ends with), up to the
   * point where it returned or raised, and how it ended.
   */
  datatype Body = Body(ops: seq<Op>, outcome: Outcome)

  /** Slicing facts the loops below rely on. */
  lemma TakeOneMore<T>(s: seq<T>, i: nat)
    requires i < |s|
    ensures s[..i + 1] == s[..i] + [s[i]]
  {
  }

  lemma TakeAll<T>(s: seq<T>)
    ensures s[..|s|] == s
  {
  }

  class TimingTracker {
    /** Whether timestamps wait for outstanding accelerator work. The model only stores it, because `Time` takes both timestamps as parameters. */
    const syncCuda: bool
    var durations: map<string, real>
    var counts: map<string, nat>

    /** The tracker's accumulated state as a value. */
    function State(): Totals
      reads this
    {
      Totals(durations, counts)
    }

    /** Class invariant: both maps hold the same phases, each added at least once. */
    ghost predicate Valid()
      reads this
    {
      State().Valid()
    }

    constructor (syncCuda: bool := false)
      ensures Valid()
      ensures this.syncCuda == syncCuda
      ensures State() == EMPTY
    {
      this.syncCuda := syncCuda;
      durations := map[];
      counts := map[];
    }

    /** Forget every phase. */
    method Reset()
      requires Valid()
      modifies this
      ensures Valid()
      ensures State() == Apply(old(State()), ResetOp) == EMPTY
    {
      durations := map[];
      counts := map[];
    }

    /** Add `seconds` to `name` and count one more invocation of it; no other phase changes. */
    method Add(name: string, seconds: real)
      requires Valid()
      modifies this
      ensures Valid()
      ensures State() == old(State()).Add(name, seconds)
      ensures State().Seconds(name) == old(State()).Seconds(name) + seconds
      ensures State().Count(name) == old(State()).Count(name) + 1
      ensures forall other :: other != name ==>
        State().Seconds(other) == old(State()).Seconds(other) && State().Count(other) == old(State()).Count(other)
      ensures old(State()).NonNegative() && seconds >= 0.0 ==> State().NonNegative()
    {
      var secondsSoFar := if name in durations then durations[name] else 0.0;
      durations := durations[name := secondsSoFar + seconds];
      var countSoFar := if name in counts then counts[name] else 0;
      counts := counts[name := countSoFar + 1];
    }

    /**
     * A timed block for phase `name`: the clock read `start` on entry, the
     * block ran (performing `body.ops` on this tracker), the clock read `stop`
     * on exit, and exactly one `add(name, stop - start)` was recorded, whether
     * the block returned or raised. The block's outcome is passed on unchanged.
     */
    method Time(name: string, start: real, body: Body, stop: real) returns (outcome: Outcome)
      requires Valid()
      modifies this
      ensures Valid()
      ensures outcome == body.outcome
      ensures State() == Run(old(State()), body.ops).Add(name, stop - start)
      ensures State().Count(name) == Run(old(State()), body.ops).Count(name) + 1
      ensures start <= stop && old(State()).NonNegative() && AddsNonNegative(body.ops) ==> State().NonNegative()
    {
      ghost var before := State();
      for i := 0 to |body.ops|
        invariant Valid()
        invariant State() == Run(before, body.ops[..i])
      {
        RunSnoc(before, body.ops[..i], body.ops[i]);
        TakeOneMore(body.ops, i);
        match body.ops[i]
        case AddOp(phase, seconds) => Add(phase, seconds);
        case ResetOp => Reset();
      }
      TakeAll(body.ops);
      RunKeepsInvariant(before, body.ops);
      Add(name, stop - start);
      outcome := body.outcome;
    }

    /** The phases currently known, each once (the iteration order of the source's dictionary is not modelled). */
    method KnownPhases() returns (names: seq<string>)
      ensures forall name :: name in names <==> name in durations
      ensures forall i, j :: 0 <= i < j < |names| ==> names[i] != names[j]
    {
      names := [];
      var rest := durations.Keys;
      while rest != {}
        invariant rest <= durations.Keys
        invariant forall name :: name in names <==> name in durations && name !in rest
        invariant forall i, j :: 0 <= i < j < |names| ==> names[i] != names[j]
        decreases rest
      {
        var name :| name in rest;
        names := names + [name];
        rest := rest - {name};
      }
    }

    /**
     * The export record for the requested phases (every known phase when
     * `keys` is None): `{prefix}{phase}_sec` and `{prefix}{phase}_count` for
     * each, zero for a phase never added. The tracker is not changed.
     */
    method ToLog(keys: Option<seq<string>> := None, prefix: string := DEFAULT_PREFIX) returns (log: map<string, real>)
      ensures log == Snapshot(State(), Requested(State(), keys), prefix)
    {
      var names: seq<string>;
      if keys.Some? {
        names := keys.value;
      } else {
        names := KnownPhases();
      }
      log := ExportPhases(names, prefix);
      assert (set name | name in names) == Requested(State(), keys);
    }

    /** The export loop: both entries of every phase in `names`, one phase after another. */
    method ExportPhases(names: seq<string>, prefix: string) returns (log: map<string, real>)
      ensures log == Snapshot(State(), (set name | name in names), prefix)
    {
      var t := State();
      ghost var done: set<string> := {};
      log := map[];
      for i := 0 to |names|
        invariant forall name :: name in done <==> name in names[..i]
        invariant log == Snapshot(t, done, prefix)
      {
        var name := names[i];
        SnapshotInsert(t, done, prefix, name);
        log := log[SecKey(prefix, name) := t.Seconds(name)][CountKey(prefix, name) := t.Count(name) as real];
        TakeOneMore(names, i);
        done := done + {name};
      }
      TakeAll(names);
      assert done == set name | name in names;
    }
  }

  // ---- Properties of the canonical phase list and the recorded scenarios ----

  /** The canonical phase names are pairwise distinct, the wall time first. */
  lemma DefaultKeysDistinct()
    ensures DEFAULT_TIMING_KEYS[0] == "epoch_wall"
    ensures forall i, j :: 0 <= i < j < |DEFAULT_TIMING_KEYS| ==> DEFAULT_TIMING_KEYS[i] != DEFAULT_TIMING_KEYS[j]
  {
  }

  /** Exporting the canonical phases always yields sixteen entries, whatever was recorded. */
  lemma DefaultKeysExportSize(t: Totals, prefix: string)
    ensures |Snapshot(t, Requested(t, Some(DEFAULT_TIMING_KEYS)), prefix)| == 2 * |DEFAULT_TIMING_KEYS| == 16
  {
    DefaultKeysDistinct();
    DistinctSetSize(DEFAULT_TIMING_KEYS);
    SnapshotSize(t, Requested(t, Some(DEFAULT_TIMING_KEYS)), prefix);
  }

  /** A sequence without repetitions has as many distinct elements as it has positions. */
  lemma {:induction false} DistinctSetSize(s: seq<string>)
    requires forall i, j :: 0 <= i < j < |s| ==> s[i] != s[j]
    ensures |set name | name in s| == |s|
  {
    if s != [] {
      var init := s[..|s| - 1];
      DistinctSetSize(init);
      assert (set name | name in s) == (set name | name in init) + {s[|s| - 1]};
      assert s[|s| - 1] !in (set name | name in init);
    }
  }

  /** `names` with every occurrence of `x` removed, in order. */
  function Without(names: seq<string>, x: string): (r: seq<string>)
    ensures forall name :: name in r <==> name in names && name != x
    decreases |names|
  {
    if names == [] then []
    else if names[0] == x then Without(names[1..], x)
    else [names[0]] + Without(names[1..], x)
  }

  /** Dropping the first element of a sequence without repetitions is dropping every occurrence of it. */
  lemma WithoutHead(s: seq<string>)
    requires s != []
    requires forall i, j :: 0 <= i < j < |s| ==> s[i] != s[j]
    ensures Without(s, s[0]) == s[1..]
  {
    WithoutAbsent(s[1..], s[0]);
  }

  lemma {:induction false} WithoutAbsent(s: seq<string>, x: string)
    requires x !in s
    ensures Without(s, x) == s
    decreases |s|
  {
    if s != [] {
      WithoutAbsent(s[1..], x);
    }
  }

  /** Sum of the `_sec` entries of `log` for `names`. */
  function SecondsSum(log: map<string, real>, prefix: string, names: seq<string>): real
    requires forall name :: name in names ==> SecKey(prefix, name) in log
    decreases |names|
  {
    if names == [] then 0.0 else log[SecKey(prefix, names[0])] + SecondsSum(log, prefix, names[1..])
  }

  /** Sum of the stored seconds of `names` (a phase listed twice counts twice). */
  function PhaseSeconds(t: Totals, names: seq<string>): real
    decreases |names|
  {
    if names == [] then 0.0 else t.Seconds(names[0]) + PhaseSeconds(t, names[1..])
  }

  /** Summing `_sec` entries of an export record sums the stored seconds of those phases. */
  lemma {:induction false} SecondsSumOfSnapshot(t: Totals, names: set<string>, prefix: string, s: seq<string>)
    requires forall name :: name in s ==> name in names
    ensures forall name :: name in s ==> SecKey(prefix, name) in Snapshot(t, names, prefix)
    ensures SecondsSum(Snapshot(t, names, prefix), prefix, s) == PhaseSeconds(t, s)
    decreases |s|
  {
    forall name | name in s ensures SecKey(prefix, name) in Snapshot(t, names, prefix) {
      SnapshotReadsBack(t, names, prefix, name);
    }
    if s != [] {
      SnapshotReadsBack(t, names, prefix, s[0]);
      SecondsSumOfSnapshot(t, names, prefix, s[1..]);
    }
  }

  /** One epoch as the epoch test records it: the wall time and four of its sub-phases. */
  function EpochScenario(wall: real, env: real, imagination: real, teacher: real, policy: real): seq<Op> {
    [ AddOp("epoch_wall", wall),
      AddOp("env_interaction", env),
      AddOp("imagination_rollout", imagination),
      AddOp("diffusion_sampling_teacher", teacher),
      AddOp("policy_value_update", policy) ]
  }

  /** Running one epoch's operations is the chain of adds the epoch test performs. */
  lemma EpochRun(wall: real, env: real, imagination: real, teacher: real, policy: real)
    ensures Run(EMPTY, EpochScenario(wall, env, imagination, teacher, policy))
         == EMPTY.Add("epoch_wall", wall).Add("env_interaction", env).Add("imagination_rollout", imagination)
                 .Add("diffusion_sampling_teacher", teacher).Add("policy_value_update", policy)
  {
    var ops := EpochScenario(wall, env, imagination, teacher, policy);
    RunSnoc(EMPTY, [], ops[0]);
    assert [] + [ops[0]] == ops[..1];
    RunSnoc(EMPTY, ops[..1], ops[1]);
    assert ops[..1] + [ops[1]] == ops[..2];
    RunSnoc(EMPTY, ops[..2], ops[2]);
    assert ops[..2] + [ops[2]] == ops[..3];
    RunSnoc(EMPTY, ops[..3], ops[3]);
    assert ops[..3] + [ops[3]] == ops[..4];
    RunSnoc(EMPTY, ops[..4], ops[4]);
    assert ops[..4] + [ops[4]] == ops;
  }

  /** The two sampling phases have names of equal length that differ at position 19 ('s' against 't'). */
  lemma StudentIsNotTeacher()
    ensures "diffusion_sampling_student" != "diffusion_sampling_teacher"
  {
    assert "diffusion_sampling_student"[19] == 's';
    assert "diffusion_sampling_teacher"[19] == 't';
  }

  /** A phase the epoch does not record keeps reading zero. */
  lemma EpochLeavesAlone(name: string, wall: real, env: real, imagination: real, teacher: real, policy: real)
    requires name != "epoch_wall" && name != "env_interaction" && name != "imagination_rollout"
    requires name != "diffusion_sampling_teacher" && name != "policy_value_update"
    ensures Run(EMPTY, EpochScenario(wall, env, imagination, teacher, policy)).Seconds(name) == 0.0
  {
    EpochRun(wall, env, imagination, teacher, policy);
  }

  /** Five adds to five distinct phases leave each phase with its own duration. */
  lemma FiveDistinctAdds(a: string, b: string, c: string, d: string, e: string,
                         x: real, y: real, z: real, u: real, v: real)
    requires a != b && a != c && a != d && a != e
    requires b != c && b != d && b != e
    requires c != d && c != e
    requires d != e
    ensures var t := EMPTY.Add(a, x).Add(b, y).Add(c, z).Add(d, u).Add(e, v);
      t.Seconds(a) == x && t.Seconds(b) == y && t.Seconds(c) == z && t.Seconds(d) == u && t.Seconds(e) == v
  {
  }

  /** What one epoch leaves in each phase it records. */
  lemma EpochRecorded(wall: real, env: real, imagination: real, teacher: real, policy: real)
    ensures var t := Run(EMPTY, EpochScenario(wall, env, imagination, teacher, policy));
      && t.Seconds("epoch_wall") == wall
      && t.Seconds("env_interaction") == env
      && t.Seconds("imagination_rollout") == imagination
      && t.Seconds("diffusion_sampling_teacher") == teacher
      && t.Seconds("policy_value_update") == policy
  {
    EpochRun(wall, env, imagination, teacher, policy);
    FiveDistinctAdds("epoch_wall", "env_interaction", "imagination_rollout",
                     "diffusion_sampling_teacher", "policy_value_update",
                     wall, env, imagination, teacher, policy);
  }

  /** What one epoch leaves in each canonical phase. */
  lemma EpochPhaseSeconds(wall: real, env: real, imagination: real, teacher: real, policy: real)
    ensures var t := Run(EMPTY, EpochScenario(wall, env, imagination, teacher, policy));
      && t.Seconds("epoch_wall") == wall
      && t.Seconds("env_interaction") == env
      && t.Seconds("imagination_rollout") == imagination
      && t.Seconds("diffusion_sampling_teacher") == teacher
      && t.Seconds("diffusion_sampling_student") == 0.0
      && t.Seconds("policy_value_update") == policy
      && t.Seconds("world_model_update") == 0.0
      && t.Seconds("distillation_oracle_query") == 0.0
  {
    EpochRecorded(wall, env, imagination, teacher, policy);
    StudentIsNotTeacher();
    EpochLeavesAlone("diffusion_sampling_student", wall, env, imagination, teacher, policy);
    EpochLeavesAlone("world_model_update", wall, env, imagination, teacher, policy);
    EpochLeavesAlone("distillation_oracle_query", wall, env, imagination, teacher, policy);
  }

  /** In one epoch the canonical sub-phases add up to the sum of the four recorded ones. */
  lemma EpochSubPhases(wall: real, env: real, imagination: real, teacher: real, policy: real)
    ensures var t := Run(EMPTY, EpochScenario(wall, env, imagination, teacher, policy));
      && t.Seconds(DEFAULT_TIMING_KEYS[0]) == wall
      && PhaseSeconds(t, DEFAULT_TIMING_KEYS[1..]) == env + imagination + teacher + policy
  {
    EpochPhaseSeconds(wall, env, imagination, teacher, policy);
    var t := Run(EMPTY, EpochScenario(wall, env, imagination, teacher, policy));
    var rest := DEFAULT_TIMING_KEYS[1..];
    assert PhaseSeconds(t, rest[6..]) == 0.0;
    assert PhaseSeconds(t, rest[5..]) == 0.0 by {
      assert rest[5..][1..] == rest[6..];
    }
    assert PhaseSeconds(t, rest[4..]) == policy by {
      assert rest[4..][1..] == rest[5..];
    }
    assert PhaseSeconds(t, rest[3..]) == policy by {
      assert rest[3..][1..] == rest[4..];
    }
    assert PhaseSeconds(t, rest[2..]) == teacher + policy by {
      assert rest[2..][1..] == rest[3..];
    }
    assert PhaseSeconds(t, rest[1..]) == imagination + teacher + policy by {
      assert rest[1..][1..] == rest[2..];
    }
  }

  /**
   * The check the epoch test makes on an export `log` of `keys`, whose first
   * entry is the wall-time phase: every requested `_sec` entry is present,
   * and the wall time minus the sum of the other `_sec` values is zero.
   */
  ghost predicate ResidualIsZero(log: map<string, real>, prefix: string, keys: seq<string>)
    requires keys != []
  {
    && (forall name :: name in keys ==> SecKey(prefix, name) in log)
    && log[SecKey(prefix, keys[0])] - SecondsSum(log, prefix, Without(keys, keys[0])) == 0.0
  }

  /** Reading an export of distinct `keys`: the wall entry and the sum of the other `_sec` entries. */
  lemma ResidualParts(t: Totals, prefix: string, keys: seq<string>)
    requires keys != []
    requires forall i, j :: 0 <= i < j < |keys| ==> keys[i] != keys[j]
    ensures var log := Snapshot(t, Requested(t, Some(keys)), prefix);
      && (forall name :: name in keys ==> SecKey(prefix, name) in log)
      && log[SecKey(prefix, keys[0])] == t.Seconds(keys[0])
      && SecondsSum(log, prefix, Without(keys, keys[0])) == PhaseSeconds(t, keys[1..])
  {
    var names := Requested(t, Some(keys));
    WithoutHead(keys);
    SecondsSumOfSnapshot(t, names, prefix, keys);
    SecondsSumOfSnapshot(t, names, prefix, keys[1..]);
    SnapshotReadsBack(t, names, prefix, keys[0]);
  }

  /** The residual of an export is zero exactly when the sub-phases account for the whole wall time. */
  lemma ResidualIsZeroIff(t: Totals, prefix: string, keys: seq<string>)
    requires keys != []
    requires forall i, j :: 0 <= i < j < |keys| ==> keys[i] != keys[j]
    ensures ResidualIsZero(Snapshot(t, Requested(t, Some(keys)), prefix), prefix, keys)
        <==> t.Seconds(keys[0]) == PhaseSeconds(t, keys[1..])
  {
    ResidualParts(t, prefix, keys);
    var log := Snapshot(t, Requested(t, Some(keys)), prefix);
    var wall := log[SecKey(prefix, keys[0])];
    var others := SecondsSum(log, prefix, Without(keys, keys[0]));
    assert ResidualIsZero(log, prefix, keys) <==> wall - others == 0.0;
  }

  /**
   * After one epoch, exporting the canonical phases and summing every `_sec`
   * value except the wall time's gives back the wall time exactly when the
   * four recorded sub-phases add up to it, for the default prefix and any other.
   */
  lemma EpochResidualIsZero(prefix: string, wall: real, env: real, imagination: real, teacher: real, policy: real)
    ensures var t := Run(EMPTY, EpochScenario(wall, env, imagination, teacher, policy));
      ResidualIsZero(Snapshot(t, Requested(t, Some(DEFAULT_TIMING_KEYS)), prefix), prefix, DEFAULT_TIMING_KEYS)
      <==> wall == env + imagination + teacher + policy
  {
    EpochSubPhases(wall, env, imagination, teacher, policy);
    DefaultKeysDistinct();
    ResidualIsZeroIff(Run(EMPTY, EpochScenario(wall, env, imagination, teacher, policy)), prefix, DEFAULT_TIMING_KEYS);
  }

  // ---- The two recorded tests, restated as client methods of the tracker ----

  /** The epoch test: 10 seconds of wall time split as 3 + 2 + 4 + 1 leaves a zero residual. */
  method EpochWallSanity() returns (log: map<string, real>)
    ensures ResidualIsZero(log, DEFAULT_PREFIX, DEFAULT_TIMING_KEYS)
  {
    var tracker := new TimingTracker();
    tracker.Add("epoch_wall", 10.0);
    tracker.Add("env_interaction", 3.0);
    tracker.Add("imagination_rollout", 2.0);
    tracker.Add("diffusion_sampling_teacher", 4.0);
    tracker.Add("policy_value_update", 1.0);
    EpochRun(10.0, 3.0, 2.0, 4.0, 1.0);
    assert tracker.State() == Run(EMPTY, EpochScenario(10.0, 3.0, 2.0, 4.0, 1.0));
    log := tracker.ToLog(Some(DEFAULT_TIMING_KEYS));
    EpochResidualIsZero(DEFAULT_PREFIX, 10.0, 3.0, 2.0, 4.0, 1.0);
  }

  /** The count test: two adds to one phase export a count of two. */
  method RepeatedPhaseCount() returns (log: map<string, real>)
    ensures CountKey(DEFAULT_PREFIX, "env_interaction") in log
    ensures log[CountKey(DEFAULT_PREFIX, "env_interaction")] == 2.0
  {
    var tracker := new TimingTracker();
    tracker.Add("env_interaction", 0.5);
    tracker.Add("env_interaction", 0.25);
    assert tracker.State().Count("env_interaction") == 2;
    var keys := ["env_interaction"];
    log := tracker.ToLog(Some(keys));
    assert "env_interaction" in Requested(tracker.State(), Some(keys));
    SnapshotReadsBack(tracker.State(), Requested(tracker.State(), Some(keys)), DEFAULT_PREFIX, "env_interaction");
  }
}
