// The window history: an insertion-ordered dictionary from a minute key to
// that minute's bucket, represented by its key order (a sequence) and its
// contents (a map). This module states what the history and the running
// aggregate hold between events, and proves that the engine's two updates —
// sliding the window one minute with eviction of the oldest bucket, and
// folding an event into the bucket of its minute — preserve it.

module WindowHistory {
  import opened Models
  import opened MovingAverageSpec

  /** The keys are strictly increasing: insertion order is chronological order. */
  predicate Increasing(keys: seq<int>) {
    forall i, j :: 0 <= i < j < |keys| ==> keys[i] < keys[j]
  }

  /** Every key is a minute of the window (lo, hi]. */
  predicate KeysInWindow(keys: seq<int>, lo: int, hi: int) {
    forall j :: 0 <= j < |keys| ==> lo < keys[j] <= hi
  }

  /** The minute key of the k-th processed event. */
  function Minute(done: seq<Event>, k: int): int
    requires 0 <= k < |done|
  {
    MinuteKey(done[k].timestamp)
  }

  /** The buckets once the events `done` have been processed and the window
      is (lo, hi]:
      - no processed event is accounted after hi;
      - the key order and the dictionary hold the same keys, in increasing
        order, all inside the window;
      - each bucket holds exactly the statistics of the events of its minute,
        and at least one event: no bucket is ever empty;
      - every processed event accounted inside the window has a bucket. */
  ghost predicate BucketsMatch(keys: seq<int>, stats: map<int, MinuteStats>, done: seq<Event>, lo: int, hi: int) {
    (forall k {:trigger Minute(done, k)} :: 0 <= k < |done| ==> Minute(done, k) <= hi)
    && Increasing(keys) && KeysInWindow(keys, lo, hi)
    && (forall key :: key in stats <==> key in keys)
    && (forall key :: key in stats ==> stats[key] == Tally(done, key - 1, key) && stats[key].nrEvents > 0)
    && (forall k {:trigger Minute(done, k)} :: 0 <= k < |done| && lo < Minute(done, k) ==> Minute(done, k) in stats)
  }

  /** The state of the history and the running aggregate between events: the
      buckets match the processed events and the running total and counter
      are the statistics of the window. */
  ghost predicate HistoryInvariant(keys: seq<int>, stats: map<int, MinuteStats>, total: int, counter: int,
                                   done: seq<Event>, lo: int, hi: int)
  {
    lo < hi
    && BucketsMatch(keys, stats, done, lo, hi)
    && total == Tally(done, lo, hi).totalDuration
    && counter == Tally(done, lo, hi).nrEvents
  }

  /** Moving both edges one minute on: the oldest bucket leaves the dictionary
      exactly when the new lower edge has reached its key, and it is then the
      bucket of the minute that left the window; when no bucket leaves, no
      processed event was accounted in that minute. */
  lemma EvictBuckets(keys: seq<int>, stats: map<int, MinuteStats>, done: seq<Event>, lo: int, hi: int)
    requires BucketsMatch(keys, stats, done, lo, hi)
    ensures |keys| > 0 && lo + 1 >= keys[0] ==>
              keys[0] == lo + 1 && keys[0] in stats && stats[keys[0]] == Tally(done, lo, lo + 1)
              && BucketsMatch(keys[1..], stats - {keys[0]}, done, lo + 1, hi + 1)
    ensures !(|keys| > 0 && lo + 1 >= keys[0]) ==>
              Tally(done, lo, lo + 1) == MinuteStats(0, 0)
              && BucketsMatch(keys, stats, done, lo + 1, hi + 1)
  {
    if |keys| > 0 && lo + 1 >= keys[0] {
      assert keys[0] in stats;
      var keys', stats' := keys[1..], stats - {keys[0]};
      assert forall key :: key in stats' <==> key in keys';
    } else {
      forall k | 0 <= k < |done|
        ensures !InWindow(done[k], lo, lo + 1)
      {
        var m := Minute(done, k);
      }
      TallyEmpty(done, lo, lo + 1);
    }
  }

  /** With no processed event accounted after hi, no window beyond hi
      tallies anything. */
  lemma TallyBeyond(done: seq<Event>, hi: int, c: int)
    requires forall k :: 0 <= k < |done| ==> Minute(done, k) <= hi
    ensures Tally(done, hi, c) == MinuteStats(0, 0)
  {
    forall k | 0 <= k < |done|
      ensures !InWindow(done[k], hi, c)
    {
      var m := Minute(done, k);
    }
    TallyEmpty(done, hi, c);
  }

  /** With no processed event accounted after hi, the window (lo, hi] is the
      minute after lo together with the window slid one minute on. */
  lemma SlideTally(done: seq<Event>, lo: int, hi: int)
    requires lo < hi
    requires forall k :: 0 <= k < |done| ==> Minute(done, k) <= hi
    ensures Tally(done, lo, hi) == Add(Tally(done, lo, lo + 1), Tally(done, lo + 1, hi + 1))
  {
    TallySplit(done, lo + 1, hi, hi + 1);
    TallyBeyond(done, hi, hi + 1);
    assert Tally(done, lo + 1, hi + 1) == Tally(done, lo + 1, hi);
    TallySplit(done, lo, lo + 1, hi);
  }

  /** The key order lists every key of the dictionary exactly once. */
  ghost predicate KeyOrder(keys: seq<int>, stats: map<int, MinuteStats>) {
    (forall key :: key in stats <==> key in keys)
    && forall i, j :: 0 <= i < j < |keys| ==> keys[i] != keys[j]
  }

  /** One history update after the window has slid to a lower edge `lower`:
      the oldest bucket is popped, and its statistics subtracted from the
      running aggregate, when the lower edge has reached its key; otherwise
      nothing changes. */
  predicate EvictsOldest(keys: seq<int>, stats: map<int, MinuteStats>, total: int, counter: int,
                         keys': seq<int>, stats': map<int, MinuteStats>, total': int, counter': int, lower: int)
  {
    if |keys| > 0 && lower >= keys[0] then
      keys[0] in stats && keys' == keys[1..] && stats' == stats - {keys[0]}
      && total' == total - stats[keys[0]].totalDuration && counter' == counter - stats[keys[0]].nrEvents
    else
      keys' == keys && stats' == stats && total' == total && counter' == counter
  }

  /** Folding an event into the dictionary: the bucket of its minute key is
      incremented when it exists, and otherwise created holding the event
      alone and appended at the end of the key order. */
  predicate InsertsEvent(keys: seq<int>, stats: map<int, MinuteStats>, keys': seq<int>, stats': map<int, MinuteStats>, e: Event) {
    var key := MinuteKey(e.timestamp);
    if key in stats then keys' == keys && stats' == stats[key := Add(stats[key], Single(e))]
    else keys' == keys + [key] && stats' == stats[key := Single(e)]
  }

  /** A history satisfying the invariant lists each of its keys once. */
  lemma HistoryKeyOrder(keys: seq<int>, stats: map<int, MinuteStats>, total: int, counter: int,
                        done: seq<Event>, lo: int, hi: int)
    requires HistoryInvariant(keys, stats, total, counter, done, lo, hi)
    ensures KeyOrder(keys, stats) && counter >= 0
  {
  }

  /** Under the invariant the dictionary holds a bucket for exactly the
      minutes of the window in which some processed event is accounted. */
  lemma HistoryKeysAreEventMinutes(keys: seq<int>, stats: map<int, MinuteStats>, total: int, counter: int,
                                   done: seq<Event>, lo: int, hi: int)
    requires HistoryInvariant(keys, stats, total, counter, done, lo, hi)
    ensures forall key :: key in stats <==> lo < key <= hi && exists k :: 0 <= k < |done| && Minute(done, k) == key
  {
    forall key | key in stats
      ensures lo < key <= hi && exists k :: 0 <= k < |done| && Minute(done, k) == key
    {
      var j :| 0 <= j < |keys| && keys[j] == key;
      TallyEmpty(done, key - 1, key);
      var k :| 0 <= k < |done| && InWindow(done[k], key - 1, key);
      assert Minute(done, k) == key;
    }
    forall key | lo < key <= hi && exists k :: 0 <= k < |done| && Minute(done, k) == key
      ensures key in stats
    {
      var k :| 0 <= k < |done| && Minute(done, k) == key;
    }
  }

  /** Sliding the window one minute on, to (lo, hi]: a bucket is evicted
      only when it is the oldest and holds exactly the minute that left the
      window, and afterwards the invariant holds of the new window. */
  lemma EvictStep(keys: seq<int>, stats: map<int, MinuteStats>, total: int, counter: int,
                  keys': seq<int>, stats': map<int, MinuteStats>, total': int, counter': int,
                  done: seq<Event>, lo: int, hi: int)
    requires HistoryInvariant(keys, stats, total, counter, done, lo - 1, hi - 1)
    requires EvictsOldest(keys, stats, total, counter, keys', stats', total', counter', lo)
    ensures |keys| > 0 && lo >= keys[0] ==> keys[0] == lo && keys[0] in stats && stats[keys[0]] == Tally(done, lo - 1, lo)
    ensures HistoryInvariant(keys', stats', total', counter', done, lo, hi)
  {
    EvictBuckets(keys, stats, done, lo - 1, hi - 1);
    SlideTally(done, lo - 1, hi - 1);
    var kept := Tally(done, lo, hi);
    if |keys| > 0 && lo >= keys[0] {
      var evicted := stats[keys[0]];
      assert total - evicted.totalDuration == kept.totalDuration;
      assert counter - evicted.nrEvents == kept.nrEvents;
    } else {
      assert total == kept.totalDuration && counter == kept.nrEvents;
    }
  }

  /** Folding an event accounted in the window's last minute into the
      dictionary: its bucket is incremented when it exists and appended at the
      end of the key order otherwise, and the buckets still match. */
  lemma FoldBuckets(keys: seq<int>, stats: map<int, MinuteStats>, done: seq<Event>, e: Event, lo: int, hi: int)
    requires lo < hi && BucketsMatch(keys, stats, done, lo, hi) && MinuteKey(e.timestamp) == hi
    ensures hi in stats ==> BucketsMatch(keys, stats[hi := Add(stats[hi], Single(e))], done + [e], lo, hi)
    ensures hi !in stats ==> BucketsMatch(keys + [hi], stats[hi := Single(e)], done + [e], lo, hi)
  {
    if hi in stats {
      FoldOldBucket(keys, stats, done, e, lo, hi);
    } else {
      FoldNewBucket(keys, stats, done, e, lo, hi);
    }
  }

  /** The processed events with e appended: none is accounted after hi, and
      each one accounted in (lo, hi] is e or has a bucket; the other buckets
      keep their tallies. */
  lemma FoldMinutes(stats: map<int, MinuteStats>, done: seq<Event>, e: Event, lo: int, hi: int)
    requires forall k :: 0 <= k < |done| ==> Minute(done, k) <= hi
    requires forall k :: 0 <= k < |done| && lo < Minute(done, k) ==> Minute(done, k) in stats
    requires MinuteKey(e.timestamp) == hi
    ensures forall k :: 0 <= k < |done + [e]| ==> Minute(done + [e], k) <= hi
    ensures forall k :: 0 <= k < |done + [e]| && lo < Minute(done + [e], k) ==> Minute(done + [e], k) == hi || Minute(done + [e], k) in stats
    ensures forall key :: key in stats && key != hi ==> Tally(done + [e], key - 1, key) == Tally(done, key - 1, key)
  {
    var done' := done + [e];
    forall k | 0 <= k < |done'|
      ensures Minute(done', k) <= hi
      ensures lo < Minute(done', k) ==> Minute(done', k) == hi || Minute(done', k) in stats
    {
      if k < |done| {
        assert done'[k] == done[k];
        var m := Minute(done, k);
      }
    }
    forall key | key in stats && key != hi
      ensures Tally(done', key - 1, key) == Tally(done, key - 1, key)
    {
      TallySnoc(done, e, key - 1, key);
    }
  }

  /** Folding e into the existing bucket of its minute hi. */
  lemma FoldOldBucket(keys: seq<int>, stats: map<int, MinuteStats>, done: seq<Event>, e: Event, lo: int, hi: int)
    requires lo < hi && BucketsMatch(keys, stats, done, lo, hi) && MinuteKey(e.timestamp) == hi && hi in stats
    ensures BucketsMatch(keys, stats[hi := Add(stats[hi], Single(e))], done + [e], lo, hi)
  {
    FoldMinutes(stats, done, e, lo, hi);
    TallySnoc(done, e, hi - 1, hi);
  }

  /** Folding e, the first event of its minute hi, into a new bucket appended
      at the end of the key order. */
  lemma FoldNewBucket(keys: seq<int>, stats: map<int, MinuteStats>, done: seq<Event>, e: Event, lo: int, hi: int)
    requires lo < hi && BucketsMatch(keys, stats, done, lo, hi) && MinuteKey(e.timestamp) == hi && hi !in stats
    ensures BucketsMatch(keys + [hi], stats[hi := Single(e)], done + [e], lo, hi)
  {
    FoldMinutes(stats, done, e, lo, hi);
    TallySnoc(done, e, hi - 1, hi);
    forall k | 0 <= k < |done|
      ensures !InWindow(done[k], hi - 1, hi)
    {
      var m := Minute(done, k);
    }
    TallyEmpty(done, hi - 1, hi);
    var keys' := keys + [hi];
    assert forall j :: 0 <= j < |keys| ==> keys'[j] == keys[j] && keys[j] in stats;
  }

  /** Folding an event accounted in the window's last minute: its duration and
      count join the running aggregate and its minute's bucket, and the
      invariant holds of the processed events with the new one appended. */
  lemma FoldStep(keys: seq<int>, stats: map<int, MinuteStats>, total: int, counter: int,
                 keys': seq<int>, stats': map<int, MinuteStats>, total': int, counter': int,
                 done: seq<Event>, e: Event, done': seq<Event>, lo: int, hi: int)
    requires HistoryInvariant(keys, stats, total, counter, done, lo, hi)
    requires MinuteKey(e.timestamp) == hi && done' == done + [e]
    requires InsertsEvent(keys, stats, keys', stats', e)
    requires total' == total + e.duration && counter' == counter + 1
    ensures HistoryInvariant(keys', stats', total', counter', done', lo, hi)
  {
    FoldBuckets(keys, stats, done, e, lo, hi);
    TallySnoc(done, e, lo, hi);
  }

  /** The sum of the buckets named by `keys`, oldest first. */
  function BucketTotal(keys: seq<int>, stats: map<int, MinuteStats>): MinuteStats
    requires forall j :: 0 <= j < |keys| ==> keys[j] in stats
  {
    if keys == [] then MinuteStats(0, 0)
    else Add(BucketTotal(keys[..|keys| - 1], stats), stats[keys[|keys| - 1]])
  }

  /** No processed event is accounted after the last key and up to hi. */
  lemma NoneAfterLastKey(keys: seq<int>, done: seq<Event>, lo: int, hi: int)
    requires |keys| > 0 && Increasing(keys) && KeysInWindow(keys, lo, hi)
    requires forall k :: 0 <= k < |done| && InWindow(done[k], lo, hi) ==> MinuteKey(done[k].timestamp) in keys
    ensures forall k :: 0 <= k < |done| ==> !InWindow(done[k], keys[|keys| - 1], hi)
  {
    var last := keys[|keys| - 1];
    assert forall j :: 0 <= j < |keys| ==> keys[j] <= last;
    forall k | 0 <= k < |done|
      ensures !InWindow(done[k], last, hi)
    {
      if MinuteKey(done[k].timestamp) > last {
        assert MinuteKey(done[k].timestamp) !in keys;
      }
    }
  }

  /** With every processed event accounted in (lo, hi] under one of the keys,
      the window splits at the last key: the minutes before it, and its own. */
  lemma SplitAtLastKey(keys: seq<int>, done: seq<Event>, lo: int, hi: int)
    requires |keys| > 0 && Increasing(keys) && KeysInWindow(keys, lo, hi)
    requires forall k :: 0 <= k < |done| && InWindow(done[k], lo, hi) ==> MinuteKey(done[k].timestamp) in keys
    ensures Tally(done, lo, hi) == Add(Tally(done, lo, keys[|keys| - 1] - 1), Tally(done, keys[|keys| - 1] - 1, keys[|keys| - 1]))
  {
    var last := keys[|keys| - 1];
    NoneAfterLastKey(keys, done, lo, hi);
    TallyEmpty(done, last, hi);
    TallySplit(done, lo, last, hi);
    TallySplit(done, lo, last - 1, last);
  }

  /** Increasing minutes of (lo, hi] whose buckets each hold their minute's
      events, and that cover every processed event accounted in (lo, hi]. */
  ghost predicate CoveredBy(keys: seq<int>, stats: map<int, MinuteStats>, done: seq<Event>, lo: int, hi: int) {
    && lo <= hi && Increasing(keys) && KeysInWindow(keys, lo, hi)
    && (forall j :: 0 <= j < |keys| ==> keys[j] in stats && stats[keys[j]] == Tally(done, keys[j] - 1, keys[j]))
    && (forall k :: 0 <= k < |done| && InWindow(done[k], lo, hi) ==> MinuteKey(done[k].timestamp) in keys)
  }

  /** Dropping the last key leaves a covering of the window that ends just
      before it. */
  lemma CoveredBeforeLastKey(keys: seq<int>, stats: map<int, MinuteStats>, done: seq<Event>, lo: int, hi: int)
    requires |keys| > 0 && CoveredBy(keys, stats, done, lo, hi)
    ensures CoveredBy(keys[..|keys| - 1], stats, done, lo, keys[|keys| - 1] - 1)
  {
    var n := |keys| - 1;
    var earlier := keys[..n];
    assert forall j :: 0 <= j < n ==> earlier[j] == keys[j];
    forall k | 0 <= k < |done| && InWindow(done[k], lo, keys[n] - 1)
      ensures MinuteKey(done[k].timestamp) in earlier
    {
      var key := MinuteKey(done[k].timestamp);
      assert key in keys;
      var j :| 0 <= j < |keys| && keys[j] == key;
      assert j < n && earlier[j] == key;
    }
  }

  /** No buckets add up to nothing, which is all a window without a covering
      key holds. */
  lemma NoBuckets(stats: map<int, MinuteStats>, done: seq<Event>, lo: int, hi: int)
    requires CoveredBy([], stats, done, lo, hi)
    ensures BucketTotal([], stats) == Tally(done, lo, hi)
  {
    TallyEmpty(done, lo, hi);
  }

  /** Adding the last bucket to the sum of the earlier ones, when those add up
      to the window before the last key, gives the whole window. */
  lemma LastBucket(keys: seq<int>, stats: map<int, MinuteStats>, done: seq<Event>, lo: int, hi: int)
    requires |keys| > 0 && CoveredBy(keys, stats, done, lo, hi)
    requires BucketTotal(keys[..|keys| - 1], stats) == Tally(done, lo, keys[|keys| - 1] - 1)
    ensures BucketTotal(keys, stats) == Tally(done, lo, hi)
  {
    SplitAtLastKey(keys, done, lo, hi);
  }

  /** Buckets that each hold their minute's events, for increasing minutes that
      cover every processed event accounted in (lo, hi], add up to the tally
      of (lo, hi]. */
  lemma {:induction false} BucketsCoverWindow(keys: seq<int>, stats: map<int, MinuteStats>, done: seq<Event>, lo: int, hi: int)
    requires CoveredBy(keys, stats, done, lo, hi)
    ensures BucketTotal(keys, stats) == Tally(done, lo, hi)
    decreases |keys|
  {
    if keys == [] {
      NoBuckets(stats, done, lo, hi);
    } else {
      CoveredBeforeLastKey(keys, stats, done, lo, hi);
      BucketsCoverWindow(keys[..|keys| - 1], stats, done, lo, keys[|keys| - 1] - 1);
      LastBucket(keys, stats, done, lo, hi);
    }
  }

  /** The running aggregate equals the sum of the retained buckets. */
  lemma AggregateIsBucketSum(keys: seq<int>, stats: map<int, MinuteStats>, total: int, counter: int,
                             done: seq<Event>, lo: int, hi: int)
    requires HistoryInvariant(keys, stats, total, counter, done, lo, hi)
    ensures forall j :: 0 <= j < |keys| ==> keys[j] in stats
    ensures BucketTotal(keys, stats) == MinuteStats(total, counter)
  {
    forall k | 0 <= k < |done| && InWindow(done[k], lo, hi)
      ensures MinuteKey(done[k].timestamp) in keys
    {
      var m := Minute(done, k);
    }
    BucketsCoverWindow(keys, stats, done, lo, hi);
  }

  /** Increasing minutes inside a window of n minutes are at most n. */
  lemma {:induction false} BucketCountBound(keys: seq<int>, lo: int, n: nat)
    requires Increasing(keys) && KeysInWindow(keys, lo, lo + n)
    ensures |keys| <= n
    decreases |keys|
  {
    if keys != [] {
      var m := |keys| - 1;
      var earlier := keys[..m];
      assert forall j :: 0 <= j < m ==> earlier[j] == keys[j] && earlier[j] < keys[m];
      BucketCountBound(earlier, lo, n - 1);
    }
  }

  /** The history never holds more buckets than the window has minutes. */
  lemma HistoryBound(keys: seq<int>, stats: map<int, MinuteStats>, total: int, counter: int,
                     done: seq<Event>, w: nat, hi: int)
    requires HistoryInvariant(keys, stats, total, counter, done, hi - w, hi)
    ensures |keys| <= w
  {
    BucketCountBound(keys, hi - w, w);
  }
}
