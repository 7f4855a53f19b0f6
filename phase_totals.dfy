/**
 * The value behind a phase-timing tracker: cumulative seconds and invocation
 * counts per phase name, the operations that change them, and the flat export
 * record (`{prefix}{phase}_sec`, `{prefix}{phase}_count`) built from them.
 *
 * Durations are `real`, so sums are exact; the source accumulates floats.
 */
module PhaseTotals {

  datatype Option<T> = None | Some(value: T)

  /** How a timed block ended: normally, or by raising an error that is passed on unchanged. */
  datatype Outcome = Returned | Raised(error: string)

  /** Cumulative seconds and invocation count per phase name. */
  datatype Totals = Totals(durations: map<string, real>, counts: map<string, nat>)
  {
    /** The two maps name the same phases, and every phase present was added at least once. */
    predicate Valid() {
      && durations.Keys == counts.Keys
      && forall name :: name in counts ==> counts[name] >= 1
    }

    /** Every stored duration is non-negative (true while every added duration is). */
    predicate NonNegative() {
      forall name :: name in durations ==> durations[name] >= 0.0
    }

    /** Seconds recorded for `name`; a phase never added reads as zero. */
    function Seconds(name: string): real {
      if name in durations then durations[name] else 0.0
    }

    /** Invocations recorded for `name`; a phase never added reads as zero. */
    function Count(name: string): nat {
      if name in counts then counts[name] else 0
    }

    /** Record one invocation of `name` that took `seconds`. */
    function Add(name: string, seconds: real): (t: Totals)
      ensures t.Seconds(name) == Seconds(name) + seconds
      ensures t.Count(name) == Count(name) + 1
      ensures forall other :: other != name ==> t.Seconds(other) == Seconds(other) && t.Count(other) == Count(other)
      ensures t.durations.Keys == durations.Keys + {name} && t.counts.Keys == counts.Keys + {name}
      ensures Valid() ==> t.Valid()
      ensures NonNegative() && seconds >= 0.0 ==> t.NonNegative()
    {
      Totals(durations[name := Seconds(name) + seconds], counts[name := Count(name) + 1])
    }
  }

  /** The state of a fresh or reset tracker. */
  const EMPTY: Totals := Totals(map[], map[])

  /** An operation that changes a tracker's totals. */
  datatype Op = AddOp(name: string, seconds: real) | ResetOp

  function Apply(t: Totals, op: Op): Totals {
    match op
    case AddOp(name, seconds) => t.Add(name, seconds)
    case ResetOp => EMPTY
  }

  /** The totals after performing `ops` in order, starting from `t`. */
  function Run(t: Totals, ops: seq<Op>): Totals
    decreases |ops|
  {
    if ops == [] then t else Apply(Run(t, ops[..|ops| - 1]), ops[|ops| - 1])
  }

  /** Every duration that `ops` adds is non-negative. */
  predicate AddsNonNegative(ops: seq<Op>) {
    forall i :: 0 <= i < |ops| && ops[i].AddOp? ==> ops[i].seconds >= 0.0
  }

  /** `ops` never resets the tracker. */
  predicate NoReset(ops: seq<Op>) {
    forall i :: 0 <= i < |ops| ==> ops[i].AddOp?
  }

  /** Performing one more operation applies it to the totals reached so far. */
  lemma RunSnoc(t: Totals, ops: seq<Op>, op: Op)
    ensures Run(t, ops + [op]) == Apply(Run(t, ops), op)
  {
    assert (ops + [op])[..|ops|] == ops;
  }

  /**
   * Whatever operations are performed, with durations of any sign, the two
   * maps keep the same key set and every present phase has a count of at
   * least one; durations stay non-negative as long as every added duration is.
   */
  lemma {:induction false} RunKeepsInvariant(t: Totals, ops: seq<Op>)
    requires t.Valid()
    ensures Run(t, ops).Valid()
    ensures t.NonNegative() && AddsNonNegative(ops) ==> Run(t, ops).NonNegative()
  {
    if ops != [] {
      var init := ops[..|ops| - 1];
      assert AddsNonNegative(ops) ==> AddsNonNegative(init) by {
        forall i | 0 <= i < |init| ensures init[i] == ops[i] { }
      }
      RunKeepsInvariant(t, init);
    }
  }

  /**
   * Until a reset, no phase's count ever goes down, and no phase's seconds
   * go down either while every added duration is non-negative.
   */
  lemma {:induction false} RunWithoutResetGrows(t: Totals, ops: seq<Op>, name: string)
    requires NoReset(ops)
    ensures Run(t, ops).Count(name) >= t.Count(name)
    ensures AddsNonNegative(ops) ==> Run(t, ops).Seconds(name) >= t.Seconds(name)
  {
    if ops != [] {
      var init := ops[..|ops| - 1];
      assert NoReset(init) && (AddsNonNegative(ops) ==> AddsNonNegative(init)) by {
        forall i | 0 <= i < |init| ensures init[i] == ops[i] { }
      }
      RunWithoutResetGrows(t, init, name);
      assert ops[|ops| - 1].AddOp?;
    }
  }

  /** A reset discards all history: what follows it does not depend on the state before. */
  lemma {:induction false} ResetForgets(t: Totals, ops: seq<Op>)
    ensures Run(t, [ResetOp] + ops) == Run(EMPTY, ops)
  {
    if ops != [] {
      var init, last := ops[..|ops| - 1], ops[|ops| - 1];
      assert ops == init + [last];
      assert [ResetOp] + ops == ([ResetOp] + init) + [last];
      ResetForgets(t, init);
      RunSnoc(t, [ResetOp] + init, last);
      RunSnoc(EMPTY, init, last);
    } else {
      assert Run(t, [ResetOp]) == Apply(Run(t, []), ResetOp);
    }
  }

  /** Resetting twice in a row leaves the same state as resetting once. */
  lemma ResetIdempotent(t: Totals)
    ensures Apply(Apply(t, ResetOp), ResetOp) == Apply(t, ResetOp) == EMPTY
  {
  }

  function Sum(xs: seq<real>): real
    decreases |xs|
  {
    if xs == [] then 0.0 else Sum(xs[..|xs| - 1]) + xs[|xs| - 1]
  }

  /** One `add(name, x)` per element of `xs`, in order. */
  function AddsOf(name: string, xs: seq<real>): (ops: seq<Op>)
    ensures |ops| == |xs|
    ensures forall i :: 0 <= i < |xs| ==> ops[i] == AddOp(name, xs[i])
  {
    seq(|xs|, i requires 0 <= i < |xs| => AddOp(name, xs[i]))
  }

  /**
   * Additivity: n calls `add(name, x_i)` raise the seconds of `name` by the
   * sum of the x_i and its count by n, and leave every other phase alone.
   */
  lemma {:induction false} Additivity(t: Totals, name: string, xs: seq<real>)
    ensures Run(t, AddsOf(name, xs)).Seconds(name) == t.Seconds(name) + Sum(xs)
    ensures Run(t, AddsOf(name, xs)).Count(name) == t.Count(name) + |xs|
    ensures forall other :: other != name ==>
      Run(t, AddsOf(name, xs)).Seconds(other) == t.Seconds(other) &&
      Run(t, AddsOf(name, xs)).Count(other) == t.Count(other)
  {
    if xs != [] {
      var init := xs[..|xs| - 1];
      assert AddsOf(name, xs)[..|xs| - 1] == AddsOf(name, init);
      Additivity(t, name, init);
    }
  }

  // ---- The export record ----

  /** Export key for the seconds of phase `name`. */
  function SecKey(prefix: string, name: string): string {
    prefix + name + "_sec"
  }

  /** Export key for the count of phase `name`. */
  function CountKey(prefix: string, name: string): string {
    prefix + name + "_count"
  }

  /** Distinct phases have distinct seconds keys. */
  lemma SecKeyInjective(prefix: string, a: string, b: string)
    requires SecKey(prefix, a) == SecKey(prefix, b)
    ensures a == b
  {
    assert a == SecKey(prefix, a)[|prefix|..|prefix| + |a|];
    assert b == SecKey(prefix, b)[|prefix|..|prefix| + |b|];
  }

  /** Distinct phases have distinct count keys. */
  lemma CountKeyInjective(prefix: string, a: string, b: string)
    requires CountKey(prefix, a) == CountKey(prefix, b)
    ensures a == b
  {
    assert a == CountKey(prefix, a)[|prefix|..|prefix| + |a|];
    assert b == CountKey(prefix, b)[|prefix|..|prefix| + |b|];
  }

  /** A seconds key never equals a count key: they end in different letters. */
  lemma SecKeyNotCountKey(prefix: string, a: string, b: string)
    ensures SecKey(prefix, a) != CountKey(prefix, b)
  {
    var sec, count := SecKey(prefix, a), CountKey(prefix, b);
    assert sec[|sec| - 1] == 'c';
    assert count[|count| - 1] == 't';
  }

  /** The phases exported: the requested ones, or every phase present when none are requested. */
  function Requested(t: Totals, keys: Option<seq<string>>): set<string>
  {
    match keys
    case None => t.durations.Keys
    case Some(s) => set name | name in s
  }

  /** Seconds per requested phase, keyed by `SecKey`. */
  function SecondsRecord(t: Totals, names: set<string>, prefix: string): map<string, real>
  {
    assert forall a, b :: SecKey(prefix, a) == SecKey(prefix, b) ==> a == b by {
      forall a, b | SecKey(prefix, a) == SecKey(prefix, b) ensures a == b {
        SecKeyInjective(prefix, a, b);
      }
    }
    map name | name in names :: SecKey(prefix, name) := t.Seconds(name)
  }

  /** Count (as a real) per requested phase, keyed by `CountKey`. */
  function CountRecord(t: Totals, names: set<string>, prefix: string): map<string, real>
  {
    assert forall a, b :: CountKey(prefix, a) == CountKey(prefix, b) ==> a == b by {
      forall a, b | CountKey(prefix, a) == CountKey(prefix, b) ensures a == b {
        CountKeyInjective(prefix, a, b);
      }
    }
    map name | name in names :: CountKey(prefix, name) := t.Count(name) as real
  }

  /** The export record for `names`: both entries of every requested phase. */
  function Snapshot(t: Totals, names: set<string>, prefix: string): map<string, real>
  {
    SecondsRecord(t, names, prefix) + CountRecord(t, names, prefix)
  }

  lemma SecondsRecordReads(t: Totals, names: set<string>, prefix: string, name: string)
    requires name in names
    ensures SecKey(prefix, name) in SecondsRecord(t, names, prefix)
    ensures SecondsRecord(t, names, prefix)[SecKey(prefix, name)] == t.Seconds(name)
  {
    var secs, k := SecondsRecord(t, names, prefix), SecKey(prefix, name);
    assert k in secs;
    var a :| a in names && SecKey(prefix, a) == k && secs[k] == t.Seconds(a);
    SecKeyInjective(prefix, a, name);
  }

  lemma CountRecordReads(t: Totals, names: set<string>, prefix: string, name: string)
    requires name in names
    ensures CountKey(prefix, name) in CountRecord(t, names, prefix)
    ensures CountRecord(t, names, prefix)[CountKey(prefix, name)] == t.Count(name) as real
  {
    var counts, k := CountRecord(t, names, prefix), CountKey(prefix, name);
    assert k in counts;
    var b :| b in names && CountKey(prefix, b) == k && counts[k] == t.Count(b) as real;
    CountKeyInjective(prefix, b, name);
  }

  lemma SecKeyNotInCountRecord(t: Totals, names: set<string>, prefix: string, name: string)
    ensures SecKey(prefix, name) !in CountRecord(t, names, prefix)
  {
    if SecKey(prefix, name) in CountRecord(t, names, prefix) {
      var c :| c in names && CountKey(prefix, c) == SecKey(prefix, name);
      SecKeyNotCountKey(prefix, name, c);
    }
  }

  /**
   * Each requested phase reads back its stored seconds and count, and a phase
   * the tracker has never seen reads back as zero for both.
   */
  lemma SnapshotReadsBack(t: Totals, names: set<string>, prefix: string, name: string)
    requires name in names
    ensures SecKey(prefix, name) in Snapshot(t, names, prefix)
    ensures CountKey(prefix, name) in Snapshot(t, names, prefix)
    ensures Snapshot(t, names, prefix)[SecKey(prefix, name)] == t.Seconds(name)
    ensures Snapshot(t, names, prefix)[CountKey(prefix, name)] == t.Count(name) as real
    ensures name !in t.durations ==> Snapshot(t, names, prefix)[SecKey(prefix, name)] == 0.0
    ensures name !in t.counts ==> Snapshot(t, names, prefix)[CountKey(prefix, name)] == 0.0
  {
    SecondsRecordReads(t, names, prefix, name);
    CountRecordReads(t, names, prefix, name);
    SecKeyNotInCountRecord(t, names, prefix, name);
  }

  lemma CountKeyNotInSecondsRecord(t: Totals, names: set<string>, prefix: string, name: string)
    ensures CountKey(prefix, name) !in SecondsRecord(t, names, prefix)
  {
    if CountKey(prefix, name) in SecondsRecord(t, names, prefix) {
      var c :| c in names && SecKey(prefix, c) == CountKey(prefix, name);
      SecKeyNotCountKey(prefix, c, name);
    }
  }

  /** A phase that was not requested has no entry in the export record. */
  lemma SnapshotOmits(t: Totals, names: set<string>, prefix: string, name: string)
    requires name !in names
    ensures SecKey(prefix, name) !in Snapshot(t, names, prefix)
    ensures CountKey(prefix, name) !in Snapshot(t, names, prefix)
  {
    SecKeyNotInCountRecord(t, names, prefix, name);
    CountKeyNotInSecondsRecord(t, names, prefix, name);
    if SecKey(prefix, name) in SecondsRecord(t, names, prefix) {
      var n :| n in names && SecKey(prefix, n) == SecKey(prefix, name);
      SecKeyInjective(prefix, n, name);
    }
    if CountKey(prefix, name) in CountRecord(t, names, prefix) {
      var n :| n in names && CountKey(prefix, n) == CountKey(prefix, name);
      CountKeyInjective(prefix, n, name);
    }
  }

  lemma SecondsRecordInsert(t: Totals, names: set<string>, prefix: string, name: string)
    ensures SecondsRecord(t, names + {name}, prefix)
         == SecondsRecord(t, names, prefix)[SecKey(prefix, name) := t.Seconds(name)]
  {
    var l := SecondsRecord(t, names + {name}, prefix);
    var r := SecondsRecord(t, names, prefix)[SecKey(prefix, name) := t.Seconds(name)];
    forall k | k in l ensures k in r && r[k] == l[k] {
      var n :| n in names + {name} && SecKey(prefix, n) == k;
      SecondsRecordReads(t, names + {name}, prefix, n);
      if k == SecKey(prefix, name) {
        SecKeyInjective(prefix, n, name);
      } else {
        SecondsRecordReads(t, names, prefix, n);
      }
    }
    forall k | k in r ensures k in l {
      if k == SecKey(prefix, name) {
        SecondsRecordReads(t, names + {name}, prefix, name);
      } else {
        var n :| n in names && SecKey(prefix, n) == k;
        SecondsRecordReads(t, names + {name}, prefix, n);
      }
    }
  }

  lemma CountRecordInsert(t: Totals, names: set<string>, prefix: string, name: string)
    ensures CountRecord(t, names + {name}, prefix)
         == CountRecord(t, names, prefix)[CountKey(prefix, name) := t.Count(name) as real]
  {
    var l := CountRecord(t, names + {name}, prefix);
    var r := CountRecord(t, names, prefix)[CountKey(prefix, name) := t.Count(name) as real];
    forall k | k in l ensures k in r && r[k] == l[k] {
      var n :| n in names + {name} && CountKey(prefix, n) == k;
      CountRecordReads(t, names + {name}, prefix, n);
      if k == CountKey(prefix, name) {
        CountKeyInjective(prefix, n, name);
      } else {
        CountRecordReads(t, names, prefix, n);
      }
    }
    forall k | k in r ensures k in l {
      if k == CountKey(prefix, name) {
        CountRecordReads(t, names + {name}, prefix, name);
      } else {
        var n :| n in names && CountKey(prefix, n) == k;
        CountRecordReads(t, names + {name}, prefix, n);
      }
    }
  }

  /** Updating two maps and then joining them is joining them and then updating, if the first key is not in the second map. */
  lemma UnionOfUpdates<K, V>(m1: map<K, V>, m2: map<K, V>, k1: K, v1: V, k2: K, v2: V)
    requires k1 !in m2 && k1 != k2
    ensures m1[k1 := v1] + m2[k2 := v2] == (m1 + m2)[k1 := v1][k2 := v2]
  {
  }

  /** Adding two distinct new keys to a map grows it by two. */
  lemma AddTwoKeysSize<K, V>(m: map<K, V>, k1: K, v1: V, k2: K, v2: V)
    requires k1 !in m && k2 !in m && k1 != k2
    ensures |m[k1 := v1][k2 := v2]| == |m| + 2
  {
    assert m[k1 := v1].Keys == m.Keys + {k1};
    assert m[k1 := v1][k2 := v2].Keys == m.Keys + {k1} + {k2};
  }

  /** Exporting one more phase adds exactly its two entries and changes no other. */
  lemma SnapshotInsert(t: Totals, names: set<string>, prefix: string, name: string)
    ensures Snapshot(t, names + {name}, prefix)
         == Snapshot(t, names, prefix)[SecKey(prefix, name) := t.Seconds(name)][CountKey(prefix, name) := t.Count(name) as real]
  {
    SecondsRecordInsert(t, names, prefix, name);
    CountRecordInsert(t, names, prefix, name);
    SecKeyNotInCountRecord(t, names, prefix, name);
    SecKeyNotCountKey(prefix, name, name);
    UnionOfUpdates(SecondsRecord(t, names, prefix), CountRecord(t, names, prefix),
                   SecKey(prefix, name), t.Seconds(name), CountKey(prefix, name), t.Count(name) as real);
  }

  /** Both export keys of a phase begin with the prefix. */
  lemma ExportKeysStartWithPrefix(prefix: string, name: string)
    ensures prefix <= SecKey(prefix, name) && prefix <= CountKey(prefix, name)
  {
    assert SecKey(prefix, name)[..|prefix|] == prefix;
    assert CountKey(prefix, name)[..|prefix|] == prefix;
  }

  /** Every exported key is the prefix, a requested phase and one of the two suffixes. */
  lemma SnapshotKeys(t: Totals, names: set<string>, prefix: string)
    ensures forall k :: k in Snapshot(t, names, prefix) ==>
      exists name :: name in names && (k == SecKey(prefix, name) || k == CountKey(prefix, name))
    ensures forall k :: k in Snapshot(t, names, prefix) ==> prefix <= k
  {
    forall k | k in Snapshot(t, names, prefix)
      ensures exists name :: name in names && (k == SecKey(prefix, name) || k == CountKey(prefix, name))
      ensures prefix <= k
    {
      var name;
      if k in SecondsRecord(t, names, prefix) {
        name :| name in names && k == SecKey(prefix, name);
      } else {
        name :| name in names && k == CountKey(prefix, name);
      }
      ExportKeysStartWithPrefix(prefix, name);
    }
  }

  /** Exporting one more, previously unrequested phase adds exactly two entries. */
  lemma SnapshotGrowsByTwo(t: Totals, names: set<string>, prefix: string, name: string)
    requires name !in names
    ensures |Snapshot(t, names + {name}, prefix)| == |Snapshot(t, names, prefix)| + 2
  {
    SnapshotInsert(t, names, prefix, name);
    SnapshotOmits(t, names, prefix, name);
    SecKeyNotCountKey(prefix, name, name);
    AddTwoKeysSize(Snapshot(t, names, prefix), SecKey(prefix, name), t.Seconds(name),
                   CountKey(prefix, name), t.Count(name) as real);
  }

  /** The export record has exactly two entries per distinct requested phase. */
  lemma {:induction false} SnapshotSize(t: Totals, names: set<string>, prefix: string)
    ensures |Snapshot(t, names, prefix)| == 2 * |names|
    decreases |names|
  {
    if names == {} {
      assert Snapshot(t, names, prefix) == map[];
    } else {
      var name :| name in names;
      var rest := names - {name};
      assert rest + {name} == names;
      SnapshotSize(t, rest, prefix);
      SnapshotGrowsByTwo(t, rest, prefix, name);
    }
  }

  /** After a reset, exporting every known phase yields an empty record. */
  lemma ResetExportsNothing(t: Totals, ops: seq<Op>, prefix: string)
    ensures Snapshot(Run(t, ops + [ResetOp]), Requested(Run(t, ops + [ResetOp]), None), prefix) == map[]
  {
    assert (ops + [ResetOp])[..|ops|] == ops;
  }

  /** With no keys requested, the record holds exactly the two entries of every known phase. */
  lemma ExportAllKnown(t: Totals, prefix: string, k: string)
    ensures k in Snapshot(t, Requested(t, None), prefix)
        <==> exists name :: name in t.durations && (k == SecKey(prefix, name) || k == CountKey(prefix, name))
  {
    ExportedKeys(t, t.durations.Keys, prefix, k);
  }

  /** With keys requested, the record holds exactly the two entries of every phase listed. */
  lemma ExportSelected(t: Totals, keys: seq<string>, prefix: string, k: string)
    ensures k in Snapshot(t, Requested(t, Some(keys)), prefix)
        <==> exists name :: name in keys && (k == SecKey(prefix, name) || k == CountKey(prefix, name))
  {
    ExportedKeys(t, Requested(t, Some(keys)), prefix, k);
  }

  /** The keys of the export record are exactly the two keys of each requested phase. */
  lemma ExportedKeys(t: Totals, names: set<string>, prefix: string, k: string)
    ensures k in Snapshot(t, names, prefix)
        <==> exists name :: name in names && (k == SecKey(prefix, name) || k == CountKey(prefix, name))
  {
    SnapshotKeys(t, names, prefix);
    if name :| name in names && (k == SecKey(prefix, name) || k == CountKey(prefix, name)) {
      SnapshotReadsBack(t, names, prefix, name);
    }
  }
}
