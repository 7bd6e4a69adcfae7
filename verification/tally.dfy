/** Statistics as systemtap aggregates keep them, and the tables append_stats
    fills: one entry per process, tranche and lock mode, and one per process and
    mode over all tranches. */
module Tally {
  import opened Wrappers

  /** @count, @sum, @min and @max of an aggregate; None has seen no sample. */
  datatype Stat = Stat(count: nat, sum: int, min: int, max: int)

  function Single(d: int): Stat {
    Stat(1, d, d, d)
  }

  function Merge(a: Option<Stat>, b: Option<Stat>): Option<Stat> {
    match (a, b)
    case (None, _) => b
    case (_, None) => a
    case (Some(x), Some(y)) =>
      Some(Stat(x.count + y.count, x.sum + y.sum,
                if x.min < y.min then x.min else y.min,
                if x.max > y.max then x.max else y.max))
  }

  /** proc is ALL_PROCS in the tables over all processes; tranche is ALL_TRANCHES
      in the entry over all tranches. */
  datatype Key = Key(proc: int, tranche: int, mode: int)

  const ALL_PROCS := -1
  const ALL_TRANCHES := -1

  type Table = map<Key, Stat>

  function Entry(table: Table, k: Key): Option<Stat> {
    if k in table then Some(table[k]) else None
  }

  /** table[k] <<< d */
  function Feed(table: Table, k: Key, d: int): Table {
    table[k := Merge(Entry(table, k), Some(Single(d))).value]
  }

  /** One table's half of append_stats. */
  function Append(table: Table, proc: int, tranche: int, mode: int, d: int): Table {
    Feed(Feed(table, Key(proc, ALL_TRANCHES, mode), d), Key(proc, tranche, mode), d)
  }

  // --------------------------------------------------------- the samples behind it

  datatype Sample = Sample(key: Key, duration: int)

  predicate Covers(k: Key, s: Sample) {
    k.proc == s.key.proc && k.mode == s.key.mode && (k.tranche == s.key.tranche || k.tranche == ALL_TRANCHES)
  }

  /** The aggregate of the samples of a log that belong to an entry. */
  function Aggregate(log: seq<Sample>, k: Key): Option<Stat> {
    if log == [] then None
    else
      var s := log[|log| - 1];
      var before := Aggregate(log[..|log| - 1], k);
      if Covers(k, s) then Merge(before, Some(Single(s.duration))) else before
  }

  /** Every entry of the table is the aggregate of exactly its samples. */
  ghost predicate Tallies(table: Table, log: seq<Sample>) {
    && (forall i :: 0 <= i < |log| ==> log[i].key.tranche != ALL_TRANCHES)
    && forall k :: Entry(table, k) == Aggregate(log, k)
  }

  lemma AppendTallies(table: Table, log: seq<Sample>, proc: int, tranche: int, mode: int, d: int)
    requires Tallies(table, log) && tranche != ALL_TRANCHES
    ensures Tallies(Append(table, proc, tranche, mode, d), log + [Sample(Key(proc, tranche, mode), d)])
  {
    var s := Sample(Key(proc, tranche, mode), d);
    var log' := log + [s];
    assert log'[..|log'| - 1] == log;
    assert forall k :: Covers(k, s) <==> k == s.key || k == Key(proc, ALL_TRANCHES, mode);
  }

  // ------------------------------------------------- what the four numbers say

  /** The samples of a log that belong to an entry, by position. */
  function Covered(log: seq<Sample>, k: Key): set<int> {
    set i | 0 <= i < |log| && Covers(k, log[i])
  }

  /** The sum of their durations. */
  function Total(log: seq<Sample>, k: Key): int {
    if log == [] then 0
    else Total(log[..|log| - 1], k) + if Covers(k, log[|log| - 1]) then log[|log| - 1].duration else 0
  }

  /** The count, the sum, the least and the greatest of the durations of an entry's
      samples. */
  ghost predicate Describes(st: Stat, log: seq<Sample>, k: Key) {
    && st.count == |Covered(log, k)| && st.sum == Total(log, k)
    && (exists i :: 0 <= i < |log| && Covers(k, log[i]) && log[i].duration == st.min)
    && (exists i :: 0 <= i < |log| && Covers(k, log[i]) && log[i].duration == st.max)
    && (forall i :: 0 <= i < |log| && Covers(k, log[i]) ==> st.min <= log[i].duration <= st.max)
  }

  lemma CoveredOneMore(log: seq<Sample>, k: Key)
    requires log != []
    ensures var before := Covered(log[..|log| - 1], k);
            && |log| - 1 !in before
            && Covered(log, k) == before + if Covers(k, log[|log| - 1]) then {|log| - 1} else {}
  {
    assert forall i :: 0 <= i < |log| - 1 ==> log[..|log| - 1][i] == log[i];
  }

  lemma DescribesOneMore(st: Stat, log: seq<Sample>, k: Key)
    requires log != [] && Covers(k, log[|log| - 1]) && Describes(st, log[..|log| - 1], k)
    ensures Describes(Merge(Some(st), Some(Single(log[|log| - 1].duration))).value, log, k)
  {
    var before, n := log[..|log| - 1], |log| - 1;
    CoveredOneMore(log, k);
    var i :| 0 <= i < |before| && Covers(k, before[i]) && before[i].duration == st.min;
    var j :| 0 <= j < |before| && Covers(k, before[j]) && before[j].duration == st.max;
    assert log[i] == before[i] && log[j] == before[j] && Covers(k, log[n]);
    forall l | 0 <= l < |log| && Covers(k, log[l]) ensures l < n ==> st.min <= log[l].duration <= st.max {
      if l < n { assert before[l] == log[l]; }
    }
  }

  lemma DescribesStill(st: Stat, log: seq<Sample>, k: Key)
    requires log != [] && !Covers(k, log[|log| - 1]) && Describes(st, log[..|log| - 1], k)
    ensures Describes(st, log, k)
  {
    var before := log[..|log| - 1];
    CoveredOneMore(log, k);
    var i :| 0 <= i < |before| && Covers(k, before[i]) && before[i].duration == st.min;
    var j :| 0 <= j < |before| && Covers(k, before[j]) && before[j].duration == st.max;
    assert log[i] == before[i] && log[j] == before[j];
    forall l | 0 <= l < |log| && Covers(k, log[l]) ensures st.min <= log[l].duration <= st.max {
      assert before[l] == log[l];
    }
  }

  lemma DescribesFirst(log: seq<Sample>, k: Key)
    requires log != [] && Covers(k, log[|log| - 1]) && Covered(log[..|log| - 1], k) == {}
    ensures Describes(Single(log[|log| - 1].duration), log, k)
  {
    CoveredOneMore(log, k);
    NothingCovered(log[..|log| - 1], k);
    assert Covered(log, k) == {|log| - 1};
    assert Covers(k, log[|log| - 1]);
    forall l | 0 <= l < |log| && Covers(k, log[l]) ensures l == |log| - 1 {
      assert l in Covered(log, k);
    }
  }

  lemma {:induction false} NothingCovered(log: seq<Sample>, k: Key)
    requires Covered(log, k) == {}
    ensures Total(log, k) == 0
    decreases |log|
  {
    if log != [] {
      CoveredOneMore(log, k);
      assert Covered(log[..|log| - 1], k) == {} && |log| - 1 !in Covered(log, k);
      NothingCovered(log[..|log| - 1], k);
    }
  }

  lemma {:induction false} AggregateDescribes(log: seq<Sample>, k: Key)
    ensures Aggregate(log, k).Some? <==> Covered(log, k) != {}
    ensures Aggregate(log, k).Some? ==> Describes(Aggregate(log, k).value, log, k)
    decreases |log|
  {
    if log != [] {
      var before, s := log[..|log| - 1], log[|log| - 1];
      AggregateDescribes(before, k);
      CoveredOneMore(log, k);
      if !Covers(k, s) {
        if Aggregate(before, k).Some? { DescribesStill(Aggregate(before, k).value, log, k); }
      } else if Aggregate(before, k).Some? {
        DescribesOneMore(Aggregate(before, k).value, log, k);
      } else {
        DescribesFirst(log, k);
      }
    }
  }

  /** A table that tallies a log has an entry for exactly the processes, tranches and
      modes with samples, and each entry's four numbers are those of its samples. */
  lemma TableDescribes(table: Table, log: seq<Sample>, k: Key)
    requires Tallies(table, log)
    ensures k in table <==>
              exists i :: 0 <= i < |log| && log[i].key.proc == k.proc && log[i].key.mode == k.mode
                          && (k.tranche == ALL_TRANCHES || log[i].key.tranche == k.tranche)
    ensures k in table ==> Describes(table[k], log, k)
  {
    assert Entry(table, k) == Aggregate(log, k);
    AggregateDescribes(log, k);
    if i :| 0 <= i < |log| && Covers(k, log[i]) {
      assert i in Covered(log, k);
    }
  }

  // ------------------------------------------------------------- the tranche roll-up

  function MergeTranches(log: seq<Sample>, proc: int, mode: int, ts: seq<int>): Option<Stat> {
    if ts == [] then None
    else Merge(Aggregate(log, Key(proc, ts[0], mode)), MergeTranches(log, proc, mode, ts[1..]))
  }

  lemma {:induction false} NoSamplesNoStat(proc: int, mode: int, ts: seq<int>)
    ensures MergeTranches([], proc, mode, ts) == None
    decreases |ts|
  {
    if ts != [] { NoSamplesNoStat(proc, mode, ts[1..]); }
  }

  /** One more sample changes the merge by exactly that sample, if its tranche is
      listed and the entry is concerned at all. */
  lemma {:induction false} MergeOneMore(log: seq<Sample>, s: Sample, proc: int, mode: int, ts: seq<int>)
    requires Distinct(ts) && ALL_TRANCHES !in ts
    ensures MergeTranches(log + [s], proc, mode, ts)
         == if s.key.proc == proc && s.key.mode == mode && s.key.tranche in ts
            then Merge(MergeTranches(log, proc, mode, ts), Some(Single(s.duration)))
            else MergeTranches(log, proc, mode, ts)
    decreases |ts|
  {
    var log' := log + [s];
    assert log'[..|log'| - 1] == log;
    if ts != [] {
      MergeOneMore(log, s, proc, mode, ts[1..]);
      assert s.key.tranche in ts <==> s.key.tranche == ts[0] || s.key.tranche in ts[1..];
    }
  }

  /** The entry over all tranches is the merge of the per-tranche entries. */
  lemma {:induction false} LogRollsUp(log: seq<Sample>, proc: int, mode: int, ts: seq<int>)
    requires Distinct(ts) && ALL_TRANCHES !in ts
    requires forall i :: 0 <= i < |log| && log[i].key.proc == proc && log[i].key.mode == mode ==>
               log[i].key.tranche in ts
    ensures Aggregate(log, Key(proc, ALL_TRANCHES, mode)) == MergeTranches(log, proc, mode, ts)
    decreases |log|
  {
    if log == [] {
      NoSamplesNoStat(proc, mode, ts);
    } else {
      var before, s := log[..|log| - 1], log[|log| - 1];
      LogRollsUp(before, proc, mode, ts);
      MergeOneMore(before, s, proc, mode, ts);
      assert before + [s] == log;
    }
  }

  /** The same of a table: merge its entries for every tranche that has one. */
  function MergeEntries(table: Table, proc: int, mode: int, ts: seq<int>): Option<Stat> {
    if ts == [] then None
    else Merge(Entry(table, Key(proc, ts[0], mode)), MergeEntries(table, proc, mode, ts[1..]))
  }

  lemma {:induction false} EntriesAreAggregates(table: Table, log: seq<Sample>, proc: int, mode: int, ts: seq<int>)
    requires Tallies(table, log)
    ensures MergeEntries(table, proc, mode, ts) == MergeTranches(log, proc, mode, ts)
    decreases |ts|
  {
    if ts != [] { EntriesAreAggregates(table, log, proc, mode, ts[1..]); }
  }

  lemma {:induction false} SampleHasEntry(log: seq<Sample>, i: int)
    requires 0 <= i < |log|
    ensures Aggregate(log, log[i].key).Some?
    decreases |log|
  {
    if i < |log| - 1 { SampleHasEntry(log[..|log| - 1], i); }
  }

  lemma TableRollsUp(table: Table, log: seq<Sample>, proc: int, mode: int, ts: seq<int>)
    requires Tallies(table, log) && Distinct(ts) && ALL_TRANCHES !in ts
    requires forall t :: t != ALL_TRANCHES && Key(proc, t, mode) in table ==> t in ts
    ensures Entry(table, Key(proc, ALL_TRANCHES, mode)) == MergeEntries(table, proc, mode, ts)
  {
    forall i | 0 <= i < |log| && log[i].key.proc == proc && log[i].key.mode == mode
      ensures log[i].key.tranche in ts
    {
      SampleHasEntry(log, i);
      assert Entry(table, log[i].key).Some?;
      assert log[i].key == Key(proc, log[i].key.tranche, mode);
    }
    LogRollsUp(log, proc, mode, ts);
    EntriesAreAggregates(table, log, proc, mode, ts);
  }

  // --------------------------------------------------------- forgetting one process

  function DropProc(table: Table, proc: int): Table {
    map k | k in table && k.proc != proc :: table[k]
  }

  function DropSamples(log: seq<Sample>, proc: int): seq<Sample> {
    if log == [] then []
    else
      var s := log[|log| - 1];
      var before := DropSamples(log[..|log| - 1], proc);
      if s.key.proc == proc then before else before + [s]
  }

  lemma {:induction false} DroppedAggregate(log: seq<Sample>, proc: int, k: Key)
    ensures Aggregate(DropSamples(log, proc), k) == if k.proc == proc then None else Aggregate(log, k)
    decreases |log|
  {
    if log != [] {
      var before := DropSamples(log[..|log| - 1], proc);
      DroppedAggregate(log[..|log| - 1], proc, k);
      assert (before + [log[|log| - 1]])[..|before|] == before;
    }
  }

  lemma {:induction false} DroppedTranches(log: seq<Sample>, proc: int)
    requires forall i :: 0 <= i < |log| ==> log[i].key.tranche != ALL_TRANCHES
    ensures forall i :: 0 <= i < |DropSamples(log, proc)| ==> DropSamples(log, proc)[i].key.tranche != ALL_TRANCHES
    decreases |log|
  {
    if log != [] { DroppedTranches(log[..|log| - 1], proc); }
  }

  lemma DropTallies(table: Table, log: seq<Sample>, proc: int)
    requires Tallies(table, log)
    ensures Tallies(DropProc(table, proc), DropSamples(log, proc))
  {
    DroppedTranches(log, proc);
    forall k ensures Entry(DropProc(table, proc), k) == Aggregate(DropSamples(log, proc), k) {
      DroppedAggregate(log, proc, k);
      assert Entry(table, k) == Aggregate(log, k);
    }
  }
}
