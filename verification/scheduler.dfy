/** The batching and tally loop of `download_all_videos`.

    Items are numbered from 1 in discovery order. Worker outcomes are input data:
    `results[i - 1]` is whether the download of item `i` succeeded. Tasks are gathered
    three at a time; the counters change only when a batch has been gathered. */
module Scheduler {
  import opened Text

  /** Downloads in flight before the loop waits for all of them. */
  const BatchSize := 3

  /** The file item `index` is saved as: `f"video_{index}.mp4"`. */
  function FileName(index: nat): string
  {
    "video_" + Decimal(index) + ".mp4"
  }

  /** No two items write the same file. */
  lemma FileNamesDistinct(i: nat, j: nat)
    requires i != j
    ensures FileName(i) != FileName(j)
  {
    if FileName(i) == FileName(j) {
      var a := FileName(i);
      assert a[6..|a| - 4] == Decimal(i);
      assert a[6..|a| - 4] == Decimal(j);
      DecimalInjective(i, j);
    }
  }

  /** `count` consecutive item numbers starting at `first`. */
  function Range(first: nat, count: nat): (r: seq<nat>)
    ensures |r| == count
    ensures forall k :: 0 <= k < count ==> r[k] == first + k
  {
    seq(count, k requires 0 <= k < count => first + k)
  }

  function Flatten(batches: seq<seq<nat>>): seq<nat>
  {
    if |batches| == 0 then [] else batches[0] + Flatten(batches[1..])
  }

  lemma {:induction false} FlattenAppend(batches: seq<seq<nat>>, b: seq<nat>)
    ensures Flatten(batches + [b]) == Flatten(batches) + b
  {
    if batches != [] {
      FlattenAppend(batches[1..], b);
      assert (batches + [b])[1..] == batches[1..] + [b];
    } else {
      assert ([] + [b])[1..] == [];
    }
  }

  lemma {:induction false} FlattenLength(batches: seq<seq<nat>>)
    requires forall b :: 0 <= b < |batches| ==> |batches[b]| >= 1
    ensures |Flatten(batches)| >= |batches|
  {
    if batches != [] {
      FlattenLength(batches[1..]);
    }
  }

  /** Number of successes. */
  function CountTrue(xs: seq<bool>): (n: nat)
    ensures n <= |xs|
  {
    if |xs| == 0 then 0 else (if xs[0] then 1 else 0) + CountTrue(xs[1..])
  }

  lemma {:induction false} CountTrueAppend(a: seq<bool>, b: seq<bool>)
    ensures CountTrue(a + b) == CountTrue(a) + CountTrue(b)
  {
    if a != [] {
      CountTrueAppend(a[1..], b);
      assert (a + b)[1..] == a[1..] + b;
    } else {
      assert a + b == b;
    }
  }

  /** `batches` cuts `items`, in order, into groups of `BatchSize` followed by one final
      group of between 1 and `BatchSize` items. */
  predicate IsBatching(batches: seq<seq<nat>>, items: seq<nat>)
  {
    && Flatten(batches) == items
    && (forall b :: 0 <= b < |batches| ==> 1 <= |batches[b]| <= BatchSize)
    && (forall b :: 0 <= b < |batches| - 1 ==> |batches[b]| == BatchSize)
  }

  /** A list of items has exactly one such batching. */
  lemma {:induction false} BatchingUnique(p: seq<seq<nat>>, q: seq<seq<nat>>, items: seq<nat>)
    requires IsBatching(p, items) && IsBatching(q, items)
    ensures p == q
    decreases |p|
  {
    FlattenLength(p);
    FlattenLength(q);
    if p != [] && q != [] {
      assert items == p[0] + Flatten(p[1..]);
      assert items == q[0] + Flatten(q[1..]);
      FlattenLength(p[1..]);
      FlattenLength(q[1..]);
      assert |p[0]| == |q[0]|;
      assert p[0] == items[..|p[0]|];
      assert q[0] == items[..|q[0]|];
      var rest := items[|p[0]|..];
      assert Flatten(p[1..]) == rest;
      assert Flatten(q[1..]) == rest;
      BatchingUnique(p[1..], q[1..], rest);
      assert p == [p[0]] + p[1..];
      assert q == [q[0]] + q[1..];
    }
  }

  /** Putting one more group in front of a batching. */
  lemma BatchingCons(b: seq<nat>, rest: seq<seq<nat>>, items: seq<nat>)
    requires IsBatching(rest, items)
    requires 1 <= |b| <= BatchSize
    requires rest != [] ==> |b| == BatchSize
    ensures IsBatching([b] + rest, b + items)
  {
    assert ([b] + rest)[1..] == rest;
  }

  lemma RangeSplit(first: nat, k: nat, n: nat)
    requires k <= n
    ensures Range(first, k) + Range(first + k, n - k) == Range(first, n)
  {
  }

  /** Batches and counts of a run. */
  datatype Tally = Tally(batches: seq<seq<nat>>, downloaded: nat, failed: nat)

  /** The run as a fold over consecutive groups of outcomes, numbering items from `first`. */
  function Schedule(results: seq<bool>, first: nat): (t: Tally)
    ensures IsBatching(t.batches, Range(first, |results|))
    ensures |t.batches| == (|results| + BatchSize - 1) / BatchSize
    ensures t.downloaded == CountTrue(results)
    ensures t.downloaded + t.failed == |results|
    decreases |results|
  {
    if |results| == 0 then Tally([], 0, 0)
    else
      var k := if |results| < BatchSize then |results| else BatchSize;
      var rest := Schedule(results[k..], first + k);
      var wins := CountTrue(results[..k]);
      assert results[..k] + results[k..] == results;
      CountTrueAppend(results[..k], results[k..]);
      RangeSplit(first, k, |results|);
      BatchingCons(Range(first, k), rest.batches, Range(first + k, |results| - k));
      Tally([Range(first, k)] + rest.batches, wins + rest.downloaded, (k - wins) + rest.failed)
  }

  /** Five items run as items 1-3 and then items 4-5, whatever their outcomes. */
  lemma FiveItemsRunInTwoBatches(results: seq<bool>)
    requires |results| == 5
    ensures Schedule(results, 1).batches == [[1, 2, 3], [4, 5]]
  {
    var expected: seq<seq<nat>> := [[1, 2, 3], [4, 5]];
    assert Flatten(expected[1..]) == [4, 5] + Flatten([]);
    assert Flatten(expected) == Range(1, 5);
    BatchingUnique(Schedule(results, 1).batches, expected, Range(1, 5));
  }

  /** The outcomes of the gathered tasks, in task order. */
  function Gather(results: seq<bool>, tasks: seq<nat>): (completed: seq<bool>)
    requires forall k :: 0 <= k < |tasks| ==> 1 <= tasks[k] <= |results|
    ensures |completed| == |tasks|
    ensures forall k :: 0 <= k < |tasks| ==> completed[k] == results[tasks[k] - 1]
  {
    seq(|tasks|, k requires 0 <= k < |tasks| => results[tasks[k] - 1])
  }

  /** The tasks pending after `prefix` has been gathered are the next item numbers, so
      gathering them yields the next slice of outcomes. */
  lemma GatherNext(results: seq<bool>, prefix: seq<nat>, tasks: seq<nat>, n: nat)
    requires prefix + tasks == Range(1, n) && n <= |results|
    ensures forall k :: 0 <= k < |tasks| ==> 1 <= tasks[k] <= |results|
    ensures CountTrue(results[..|prefix|]) + CountTrue(Gather(results, tasks)) == CountTrue(results[..n])
  {
    var done := |prefix|;
    assert done + |tasks| == n;
    forall k | 0 <= k < |tasks|
      ensures tasks[k] == done + k + 1
    {
      assert tasks[k] == (prefix + tasks)[done + k];
    }
    var completed := Gather(results, tasks);
    forall k | 0 <= k < |tasks|
      ensures completed[k] == results[done..n][k]
    {
    }
    assert completed == results[done..n];
    assert results[..done] + completed == results[..n];
    CountTrueAppend(results[..done], completed);
  }

  /** One `asyncio.gather` of the pending tasks and the counting that follows it: each
      success advances `downloaded` and the progress bar, each failure advances `failed`. */
  method GatherBatch(results: seq<bool>, batches: seq<seq<nat>>, tasks: seq<nat>, n: nat,
                     downloaded: nat, failed: nat, advanced: nat)
    returns (batches': seq<seq<nat>>, downloaded': nat, failed': nat, advanced': nat)
    requires Flatten(batches) + tasks == Range(1, n) && n <= |results|
    requires downloaded == CountTrue(results[..|Flatten(batches)|])
    requires downloaded + failed == |Flatten(batches)| && advanced == downloaded
    ensures batches' == batches + [tasks]
    ensures Flatten(batches') == Range(1, n)
    ensures downloaded' == CountTrue(results[..n])
    ensures downloaded' + failed' == n && advanced' == downloaded'
  {
    GatherNext(results, Flatten(batches), tasks, n);
    var completed := Gather(results, tasks);
    var wins := CountTrue(completed);
    downloaded' := downloaded + wins;
    advanced' := advanced + wins;
    failed' := failed + (|completed| - wins);
    FlattenAppend(batches, tasks);
    batches' := batches + [tasks];
  }

  /** Full groups followed by one last non-empty group form the batching. */
  lemma LastGroupCompletesBatching(full: seq<seq<nat>>, last: seq<nat>, items: seq<nat>)
    requires Flatten(full) + last == items
    requires forall b :: 0 <= b < |full| ==> |full[b]| == BatchSize
    requires 1 <= |last| <= BatchSize
    ensures IsBatching(full + [last], items)
  {
    FlattenAppend(full, last);
  }

  /** The dispatch loop as written: before item `index` is started, a full set of
      `BatchSize` tasks is gathered and counted, followed by a cooldown; the last,
      possibly partial, set is gathered after the loop. */
  method RunBatches(results: seq<bool>)
    returns (batches: seq<seq<nat>>, downloaded: nat, failed: nat, advanced: nat,
             cooldowns: nat, peak: nat)
    ensures IsBatching(batches, Range(1, |results|))
    ensures batches == Schedule(results, 1).batches
    ensures downloaded == CountTrue(results)
    ensures downloaded + failed == |results|
    ensures advanced == downloaded
    ensures cooldowns == if |results| == 0 then 0 else |batches| - 1
    ensures peak <= BatchSize
    ensures peak == if |results| < BatchSize then |results| else BatchSize
  {
    batches, downloaded, failed, advanced, cooldowns, peak := [], 0, 0, 0, 0, 0;
    var tasks: seq<nat> := [];
    var index := 1;
    while index <= |results|
      invariant 1 <= index <= |results| + 1
      invariant Flatten(batches) + tasks == Range(1, index - 1)
      invariant |Flatten(batches)| == BatchSize * |batches|
      invariant |tasks| <= BatchSize && (index > 1 ==> |tasks| >= 1)
      invariant forall b :: 0 <= b < |batches| ==> |batches[b]| == BatchSize
      invariant downloaded == CountTrue(results[..|Flatten(batches)|])
      invariant downloaded + failed == |Flatten(batches)|
      invariant advanced == downloaded
      invariant cooldowns == |batches|
      invariant peak == if index - 1 < BatchSize then index - 1 else BatchSize
    {
      if |tasks| >= BatchSize {
        batches, downloaded, failed, advanced :=
          GatherBatch(results, batches, tasks, index - 1, downloaded, failed, advanced);
        tasks := [];
        cooldowns := cooldowns + 1;
      }
      assert Range(1, index - 1) + [index] == Range(1, index);
      tasks := tasks + [index];
      if |tasks| > peak {
        peak := |tasks|;
      }
      index := index + 1;
    }
    if |tasks| > 0 {
      LastGroupCompletesBatching(batches, tasks, Range(1, |results|));
      batches, downloaded, failed, advanced :=
        GatherBatch(results, batches, tasks, |results|, downloaded, failed, advanced);
    }
    assert results[..|results|] == results;
    BatchingUnique(batches, Schedule(results, 1).batches, Range(1, |results|));
  }
}
