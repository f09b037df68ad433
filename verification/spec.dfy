// What the moving-average engine is meant to produce, stated without any of
// its machinery: for every minute boundary from the first event's minute to
// the last event's, the mean duration of the events whose minute lies in the
// trailing window that ends at that boundary.
//
// Event timestamps are integer microseconds. An instant that lies exactly on
// a minute boundary (a window edge, a bucket key, the date of an output
// record) is written as its minute number m, standing for the instant
// MinuteStart(m).

module MovingAverageSpec {
  import opened Models

  /** The instant minute m starts at: one minute is 60 000 000 microseconds. */
  function MinuteStart(m: int): int {
    m * 60_000_000
  }

  /** The minute the instant lies in: the instant with its seconds and
      microseconds set to zero. */
  function TruncateToMinute(t: int): (m: int)
    ensures MinuteStart(m) <= t < MinuteStart(m + 1)
  {
    t / 60_000_000
  }

  /** The minute an event is accounted under: its timestamp rounded up to a
      minute boundary, so that an instant exactly on a boundary stays in its
      own minute. This is also the right edge of the window once the event has
      been reached. */
  function MinuteKey(t: int): (k: int)
    ensures MinuteStart(k - 1) < t <= MinuteStart(k)
    ensures t == MinuteStart(k) <==> k == TruncateToMinute(t)
    ensures t != MinuteStart(k) <==> k == TruncateToMinute(t) + 1
  {
    var rounded := TruncateToMinute(t);
    if t == MinuteStart(rounded) then rounded else rounded + 1
  }

  /** The minute key is the one boundary m with t in (m - 1 minute, m]. */
  lemma MinuteKeyUnique(t: int, m: int)
    requires MinuteStart(m - 1) < t <= MinuteStart(m)
    ensures MinuteKey(t) == m
  {
  }

  /** Minute keys never decrease as time goes on. */
  lemma MinuteKeyMonotone(t: int, u: int)
    requires t <= u
    ensures MinuteKey(t) <= MinuteKey(u)
  {
  }

  /** Events in non-decreasing timestamp order, as the engine's callers supply them. */
  predicate Sorted(events: seq<Event>) {
    forall i, j :: 0 <= i < j < |events| ==> events[i].timestamp <= events[j].timestamp
  }

  /** The event is accounted in a minute of the window (lo, hi]. */
  predicate InWindow(e: Event, lo: int, hi: int) {
    lo < MinuteKey(e.timestamp) <= hi
  }

  /** The statistics of the events accounted in the window (lo, hi]. */
  function Tally(events: seq<Event>, lo: int, hi: int): MinuteStats {
    if events == [] then MinuteStats(0, 0)
    else
      var last := events[|events| - 1];
      var earlier := Tally(events[..|events| - 1], lo, hi);
      if InWindow(last, lo, hi) then Add(earlier, Single(last)) else earlier
  }

  /** The record for minute m with a window of w minutes: the average duration
      of the events accounted in the w minutes ending at m. */
  function MinuteRecord(events: seq<Event>, w: int, m: int): Record {
    Record(m, Average(Tally(events, m - w, m)))
  }

  /** The records of n consecutive minutes starting at `start`. */
  function Records(events: seq<Event>, w: int, start: int, n: nat): (r: seq<Record>)
    ensures |r| == n
  {
    if n == 0 then [] else Records(events, w, start, n - 1) + [MinuteRecord(events, w, start + n - 1)]
  }

  /** The whole output for an event sequence: one record per minute from the
      minute the first event lies in to the minute the last event is
      accounted under, and nothing for an empty sequence. */
  function Expected(events: seq<Event>, w: int): seq<Record> {
    if events == [] then []
    else
      var start := TruncateToMinute(events[0].timestamp);
      var stop := MinuteKey(events[|events| - 1].timestamp);
      if stop < start then [] else Records(events, w, start, stop - start + 1)
  }

  /** A window tallies no event exactly when no event is accounted in it, and
      then its total duration is 0 as well. */
  lemma {:induction false} TallyEmpty(events: seq<Event>, lo: int, hi: int)
    ensures Tally(events, lo, hi).nrEvents == 0 <==> forall k :: 0 <= k < |events| ==> !InWindow(events[k], lo, hi)
    ensures Tally(events, lo, hi).nrEvents == 0 ==> Tally(events, lo, hi).totalDuration == 0
    decreases |events|
  {
    if events != [] {
      var init := events[..|events| - 1];
      TallyEmpty(init, lo, hi);
      assert forall k :: 0 <= k < |init| ==> init[k] == events[k];
    }
  }

  /** Appending one event adds it to the tally of exactly the windows it is
      accounted in. */
  lemma TallySnoc(events: seq<Event>, e: Event, lo: int, hi: int)
    ensures Tally(events + [e], lo, hi) == if InWindow(e, lo, hi) then Add(Tally(events, lo, hi), Single(e)) else Tally(events, lo, hi)
  {
    assert (events + [e])[..|events|] == events;
  }

  /** Tallying a concatenation adds up the tallies of its parts. */
  lemma {:induction false} TallyAppend(a: seq<Event>, b: seq<Event>, lo: int, hi: int)
    ensures Tally(a + b, lo, hi) == Add(Tally(a, lo, hi), Tally(b, lo, hi))
    decreases |b|
  {
    if b == [] {
      assert a + b == a;
    } else {
      var n := |b| - 1;
      assert (a + b)[..|a + b| - 1] == a + b[..n];
      assert (a + b)[|a + b| - 1] == b[n];
      TallyAppend(a, b[..n], lo, hi);
    }
  }

  /** The first i + 1 events are the first i followed by event i. */
  lemma PrefixSnoc(events: seq<Event>, i: nat)
    requires i < |events|
    ensures events[..i + 1] == events[..i] + [events[i]]
  {
  }

  /** Two adjacent windows (a, b] and (b, c] together tally (a, c]. */
  lemma {:induction false} TallySplit(events: seq<Event>, a: int, b: int, c: int)
    requires a <= b <= c
    ensures Tally(events, a, c) == Add(Tally(events, a, b), Tally(events, b, c))
    decreases |events|
  {
    if events != [] {
      TallySplit(events[..|events| - 1], a, b, c);
    }
  }

  /** Events from position i on, all accounted after hi, do not change the
      tally of a window ending at hi. */
  lemma TallyOfPrefix(events: seq<Event>, i: nat, lo: int, hi: int)
    requires i <= |events|
    requires forall j :: i <= j < |events| ==> MinuteStart(hi) < events[j].timestamp
    ensures Tally(events[..i], lo, hi) == Tally(events, lo, hi)
  {
    var later := events[i..];
    assert events == events[..i] + later;
    TallyAppend(events[..i], later, lo, hi);
    forall k | 0 <= k < |later|
      ensures !InWindow(later[k], lo, hi)
    {
      assert later[k] == events[i + k];
    }
    TallyEmpty(later, lo, hi);
  }

  /** The record of the next minute m, once the events accounted up to m are
      exactly the first i, is the average of their tally in the window ending
      at m. */
  lemma NextRecord(events: seq<Event>, w: int, start: int, n: nat, i: nat, lo: int, hi: int,
                    total: int, counter: int, written: seq<Record>)
    requires i <= |events|
    requires forall j :: i <= j < |events| ==> MinuteStart(hi) < events[j].timestamp
    requires hi == start + n && lo == hi - w
    requires total == Tally(events[..i], lo, hi).totalDuration && counter == Tally(events[..i], lo, hi).nrEvents
    ensures counter >= 0
    ensures written + Records(events, w, start, n + 1)
            == written + Records(events, w, start, n) + [Record(hi, Average(MinuteStats(total, counter)))]
  {
    TallyOfPrefix(events, i, lo, hi);
    assert Records(events, w, start, n + 1) == Records(events, w, start, n) + [Record(hi, Average(MinuteStats(total, counter)))];
  }

  /** The k-th of the records of n consecutive minutes is the record of minute
      start + k. */
  lemma {:induction false} RecordsAt(events: seq<Event>, w: int, start: int, n: nat)
    ensures forall k :: 0 <= k < n ==> Records(events, w, start, n)[k] == MinuteRecord(events, w, start + k)
    decreases n
  {
    if n > 0 {
      RecordsAt(events, w, start, n - 1);
      var r := Records(events, w, start, n);
      assert forall k :: 0 <= k < n - 1 ==> r[k] == Records(events, w, start, n - 1)[k];
    }
  }

  /** The shape of the expected output for events in timestamp order: nothing
      exactly when there are no events; otherwise one record per minute, on
      consecutive minutes, the first for the minute the first event lies in
      and the last for the minute key of the last event, each carrying the
      average of the window that ends at its minute. */
  lemma ExpectedShape(events: seq<Event>, w: int)
    requires Sorted(events)
    ensures Expected(events, w) == [] <==> events == []
    ensures events != [] ==>
              var start := TruncateToMinute(events[0].timestamp);
              var stop := MinuteKey(events[|events| - 1].timestamp);
              && |Expected(events, w)| == stop - start + 1
              && Expected(events, w)[0].date == start
              && Expected(events, w)[|Expected(events, w)| - 1].date == stop
              && forall k :: 0 <= k < |Expected(events, w)| ==> Expected(events, w)[k] == MinuteRecord(events, w, start + k)
  {
    if events != [] {
      var start := TruncateToMinute(events[0].timestamp);
      var stop := MinuteKey(events[|events| - 1].timestamp);
      assert events[0].timestamp <= events[|events| - 1].timestamp;
      assert start <= stop;
      RecordsAt(events, w, start, stop - start + 1);
    }
  }

  /** When the first event lies strictly inside its minute, the first record
      is for that minute and averages 0: no event is accounted in it, since
      every event's key lies after it. */
  lemma FirstRecordZero(events: seq<Event>, w: int)
    requires Sorted(events) && events != [] && w >= 1
    requires events[0].timestamp != MinuteStart(TruncateToMinute(events[0].timestamp))
    ensures Expected(events, w)[0] == Record(TruncateToMinute(events[0].timestamp), 0.0)
  {
    var start := TruncateToMinute(events[0].timestamp);
    ExpectedShape(events, w);
    forall k | 0 <= k < |events|
      ensures !InWindow(events[k], start - w, start)
    {
      MinuteKeyMonotone(events[0].timestamp, events[k].timestamp);
    }
    TallyEmpty(events, start - w, start);
  }

  /** n records from the first event's minute that reach the last event's
      minute key are the whole expected output (both prefixed by the records
      written before). */
  lemma ExpectedIsRecords(events: seq<Event>, w: int, start: int, n: nat, written: seq<Record>)
    requires events != [] && start == TruncateToMinute(events[0].timestamp)
    requires n > 0 && MinuteKey(events[|events| - 1].timestamp) == start + n - 1
    ensures written + Expected(events, w) == written + Records(events, w, start, n)
  {
  }
}
