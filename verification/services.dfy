// The moving-average delivery-time service: a single pass over the events
// that slides a trailing window of whole minutes, emits one record per minute
// boundary crossed, and keeps a running sum and count corrected bucket by
// bucket as minutes leave the window.

module Services {
  import opened Models
  import opened MovingAverageSpec
  import opened WindowHistory

  /** The trailing window (lower, upper], both edges given as minute numbers. */
  datatype Window = Window(lower: int, upper: int)

  class MADeliveryTimeService {
    /** The events, in the order the input source yields them. */
    const inputSource: seq<Event>
    /** The window size, in minutes. */
    const windowSize: int
    /** Everything written to the output source so far, oldest first. */
    var output: seq<Record>

    var currentEvent: Option<Event>
    var window: Option<Window>
    /** The window history, an insertion-ordered dictionary: `historyOrder`
        is its key order and `windowHistory` its contents. */
    var historyOrder: seq<int>
    var windowHistory: map<int, MinuteStats>
    var windowTotal: int
    var windowCounter: int

    /** The state before any event has been read. */
    ghost predicate Initial()
      reads this
    {
      currentEvent == None && window == None
      && historyOrder == [] && windowHistory == map[]
      && windowTotal == 0 && windowCounter == 0
    }

    /** The ordered dictionary's key order lists each of its keys once. */
    ghost predicate OrderedKeys()
      reads this`historyOrder, this`windowHistory
    {
      KeyOrder(historyOrder, windowHistory)
    }

    /** The state once the events `done` have been processed and the window
        is `(lower, upper]`. */
    ghost predicate Valid(done: seq<Event>, lower: int, upper: int)
      reads this`historyOrder, this`windowHistory, this`windowTotal, this`windowCounter
    {
      HistoryInvariant(historyOrder, windowHistory, windowTotal, windowCounter, done, lower, upper)
    }

    constructor (inputSource: seq<Event>, windowSize: int, output: seq<Record>)
      ensures this.inputSource == inputSource && this.windowSize == windowSize
      ensures this.output == output
      ensures Initial()
    {
      this.inputSource := inputSource;
      this.windowSize := windowSize;
      this.output := output;
      currentEvent := None;
      window := None;
      historyOrder := [];
      windowHistory := map[];
      windowTotal := 0;
      windowCounter := 0;
    }

    /** The state after the first i events: before any event, the initial
        state; afterwards, the current event is event i - 1, the window ends
        at its minute key, one record has been written for every minute from
        `start` up to but excluding that key, and the history matches the
        events processed. */
    ghost predicate Processed(i: nat, start: int, emitted: nat, written: seq<Record>)
      reads this
    {
      i <= |inputSource| && windowSize >= 1
      && (i == 0 ==> Initial() && emitted == 0)
      && (i > 0 ==>
            currentEvent == Some(inputSource[i - 1]) && window.Some?
            && window.value.upper == MinuteKey(inputSource[i - 1].timestamp)
            && window.value.lower == window.value.upper - windowSize
            && window.value.upper == start + emitted
            && Valid(inputSource[..i], window.value.lower, window.value.upper))
      && output == written + Records(inputSource, windowSize, start, emitted)
    }

    /** While event i is being caught up with: the window has not yet passed
        the event, `emitted` records have been written, and the history
        matches the earlier events in the window -- the window before its
        last slide if `slid`, the current window otherwise, in which case the
        window has reached the event. */
    ghost predicate CatchingUp(i: nat, start: int, emitted: nat, written: seq<Record>, slid: bool)
      reads this
    {
      i < |inputSource| && currentEvent == Some(inputSource[i]) && window.Some?
      && window.value.lower == window.value.upper - windowSize
      && MinuteStart(window.value.upper - 1) < inputSource[i].timestamp
      && (if slid then
            window.value.upper == start + emitted + 1
            && Valid(inputSource[..i], window.value.lower - 1, window.value.upper - 1)
          else
            window.value.upper == start + emitted
            && inputSource[i].timestamp <= MinuteStart(window.value.upper)
            && Valid(inputSource[..i], window.value.lower, window.value.upper))
      && output == written + Records(inputSource, windowSize, start, emitted)
    }

    /** Runs the whole input through the window and writes one record per
        minute boundary: exactly the records of the trailing-window moving
        average, and nothing for an empty input. Afterwards the running
        aggregate is the sum of the retained buckets and at most
        `windowSize` buckets are retained. */
    method ProcessEvents()
      requires Initial() && windowSize >= 1 && Sorted(inputSource)
      modifies this
      ensures output == old(output) + Expected(inputSource, windowSize)
      ensures inputSource == [] ==> output == old(output)
      ensures OrderedKeys() && |historyOrder| <= windowSize
      ensures windowCounter >= 0 && forall j :: 0 <= j < |historyOrder| ==> historyOrder[j] in windowHistory
      ensures BucketTotal(historyOrder, windowHistory) == MinuteStats(windowTotal, windowCounter)
    {
      ghost var start := if inputSource == [] then 0 else TruncateToMinute(inputSource[0].timestamp);
      ghost var emitted: nat := 0;
      for i := 0 to |inputSource|
        invariant Processed(i, start, emitted, old(output))
      {
        emitted := ProcessEvent(i, start, emitted, old(output));
      }

      // last event
      if currentEvent.Some? {
        assert inputSource[..|inputSource|] == inputSource;
        RegisterLastMinute(start, emitted, old(output));
      }
    }

    /** Writes the record of the last event's minute, which completes the
        expected output. */
    method RegisterLastMinute(ghost start: int, ghost emitted: nat, ghost written: seq<Record>)
      requires inputSource != [] && start == TruncateToMinute(inputSource[0].timestamp)
      requires window.Some? && window.value.upper == MinuteKey(inputSource[|inputSource| - 1].timestamp)
      requires window.value.lower == window.value.upper - windowSize && windowSize >= 1
      requires window.value.upper == start + emitted
      requires Valid(inputSource, window.value.lower, window.value.upper)
      requires output == written + Records(inputSource, windowSize, start, emitted)
      modifies this`output
      ensures output == written + Expected(inputSource, windowSize)
      ensures OrderedKeys() && |historyOrder| <= windowSize
      ensures windowCounter >= 0 && forall j :: 0 <= j < |historyOrder| ==> historyOrder[j] in windowHistory
      ensures BucketTotal(historyOrder, windowHistory) == MinuteStats(windowTotal, windowCounter)
    {
      HistoryKeyOrder(historyOrder, windowHistory, windowTotal, windowCounter, inputSource,
                      window.value.lower, window.value.upper);
      AggregateIsBucketSum(historyOrder, windowHistory, windowTotal, windowCounter, inputSource,
                           window.value.lower, window.value.upper);
      HistoryBound(historyOrder, windowHistory, windowTotal, windowCounter, inputSource,
                   windowSize, window.value.upper);
      assert inputSource[..|inputSource|] == inputSource;
      NextRecord(inputSource, windowSize, start, emitted, |inputSource|, window.value.lower, window.value.upper,
                 windowTotal, windowCounter, written);
      RegisterMinute(window.value.upper);
      ExpectedIsRecords(inputSource, windowSize, start, emitted + 1, written);
    }

    /** One turn of the event loop: reads event i, lets the window catch up
        with it, writing the records of the minutes crossed, and counts it in
        the history. */
    method ProcessEvent(i: nat, ghost start: int, ghost emitted: nat, ghost written: seq<Record>) returns (ghost emitted': nat)
      requires i < |inputSource|
      requires i == 0 ==> start == TruncateToMinute(inputSource[0].timestamp)
      requires i > 0 ==> inputSource[i - 1].timestamp <= inputSource[i].timestamp
      requires forall j :: i <= j < |inputSource| ==> inputSource[i].timestamp <= inputSource[j].timestamp
      requires Processed(i, start, emitted, written)
      modifies this
      ensures Processed(i + 1, start, emitted', written)
    {
      // 1 - read event
      var event := inputSource[i];
      currentEvent := Some(event);
      // 2 - check current window
      var changed := UpdateWindow();
      // 3 - register the processed minutes
      emitted' := RegisterProcessedMinutes(changed, i, start, emitted, written);
      // 4 - save current event stats
      PrefixSnoc(inputSource, i);
      SaveEventStats(inputSource[..i], inputSource[..i + 1]);
    }

    /** Step 4 of processing an event: adds the current event to the running
        aggregate and to the bucket of its minute, the window's last minute.
        The history, which matched the events `done`, then matches them with
        the current event appended. */
    method SaveEventStats(ghost done: seq<Event>, ghost done': seq<Event>)
      requires currentEvent.Some? && done' == done + [currentEvent.value] && window.Some?
      requires MinuteKey(currentEvent.value.timestamp) == window.value.upper
      requires Valid(done, window.value.lower, window.value.upper)
      modifies this`historyOrder, this`windowHistory, this`windowTotal, this`windowCounter
      ensures Valid(done', window.value.lower, window.value.upper)
    {
      label Folding:
      AddEventStats();
      SaveWindowHistory();
      FoldStep(old@Folding(historyOrder), old@Folding(windowHistory), old@Folding(windowTotal), old@Folding(windowCounter),
               historyOrder, windowHistory, windowTotal, windowCounter,
               done, currentEvent.value, done', window.value.lower, window.value.upper);
    }

    /** Step 3 of processing an event: while the window has just slid, writes
        the record of the minute that closed, evicts the bucket that left the
        window and lets the window catch up with the event again. Afterwards
        the window ends at the event's minute key, one record has been written
        per minute crossed, and the history is that of the earlier events in
        the new window. */
    method RegisterProcessedMinutes(slid: bool, ghost i: nat, ghost start: int, ghost emitted: nat,
                                    ghost written: seq<Record>) returns (ghost emitted': nat)
      requires CatchingUp(i, start, emitted, written, slid)
      requires forall j :: i <= j < |inputSource| ==> inputSource[i].timestamp <= inputSource[j].timestamp
      modifies this`window, this`output, this`historyOrder, this`windowHistory, this`windowTotal, this`windowCounter
      ensures CatchingUp(i, start, emitted', written, false)
      ensures window.value.upper == MinuteKey(inputSource[i].timestamp)
    {
      var changed := slid;
      emitted' := emitted;
      while changed
        invariant CatchingUp(i, start, emitted', written, changed)
        decreases MinuteKey(inputSource[i].timestamp) - window.value.upper + (if changed then 1 else 0)
      {
        changed, emitted' := RegisterClosedMinute(i, start, emitted', written);
      }
      MinuteKeyUnique(inputSource[i].timestamp, window.value.upper);
    }

    /** One turn of the catching-up loop: writes the record of the minute the
        window has just left behind, evicts the bucket that left the window
        and checks the window against the current event again. */
    method RegisterClosedMinute(ghost i: nat, ghost start: int, ghost emitted: nat, ghost written: seq<Record>)
      returns (changed: bool, ghost emitted': nat)
      requires CatchingUp(i, start, emitted, written, true)
      requires forall j :: i <= j < |inputSource| ==> inputSource[i].timestamp <= inputSource[j].timestamp
      modifies this`window, this`output, this`historyOrder, this`windowHistory, this`windowTotal, this`windowCounter
      ensures CatchingUp(i, start, emitted', written, changed)
      ensures window.Some? && window.value.upper == old(window).value.upper + (if changed then 1 else 0)
    {
      emitted' := RecordClosedMinute(i, start, emitted, written);
      EvictClosedMinute(inputSource[..i]);
      changed := UpdateWindow();
    }

    /** Writes the record of the minute the window has just left behind: the
        average over the window ending at that minute. */
    method RecordClosedMinute(ghost i: nat, ghost start: int, ghost emitted: nat, ghost written: seq<Record>)
      returns (ghost emitted': nat)
      requires i <= |inputSource|
      requires forall j :: i <= j < |inputSource| ==> MinuteStart(start + emitted) < inputSource[j].timestamp
      requires window.Some? && window.value.upper == start + emitted + 1
      requires window.value.lower == window.value.upper - windowSize
      requires Valid(inputSource[..i], window.value.lower - 1, window.value.upper - 1)
      requires output == written + Records(inputSource, windowSize, start, emitted)
      modifies this`output
      ensures emitted' == emitted + 1
      ensures output == written + Records(inputSource, windowSize, start, emitted')
    {
      HistoryKeyOrder(historyOrder, windowHistory, windowTotal, windowCounter, inputSource[..i],
                      window.value.lower - 1, window.value.upper - 1);
      NextRecord(inputSource, windowSize, start, emitted, i, window.value.lower - 1, window.value.upper - 1,
                 windowTotal, windowCounter, written);
      RegisterMinute(window.value.upper - 1);
      emitted' := emitted + 1;
    }

    /** Evicts the bucket of the minute the window has just left behind, if
        there is one: the history then matches the events `done` in the
        current window. */
    method EvictClosedMinute(ghost done: seq<Event>)
      requires window.Some? && Valid(done, window.value.lower - 1, window.value.upper - 1)
      modifies this`historyOrder, this`windowHistory, this`windowTotal, this`windowCounter
      ensures Valid(done, window.value.lower, window.value.upper)
    {
      label Slid:
      HistoryKeyOrder(historyOrder, windowHistory, windowTotal, windowCounter, done,
                      window.value.lower - 1, window.value.upper - 1);
      UpdateWindowHistory();
      EvictStep(old@Slid(historyOrder), old@Slid(windowHistory), old@Slid(windowTotal), old@Slid(windowCounter),
                historyOrder, windowHistory, windowTotal, windowCounter,
                done, window.value.lower, window.value.upper);
    }

    /** Places the window on the first event, or slides it one minute on when
        the current event lies beyond it. The first window's right edge is
        the event's minute key and the minute before it counts as crossed
        unless the event lies exactly on a boundary; later, the window slides
        exactly when the event is more than `windowSize` minutes after its
        left edge. */
    method UpdateWindow() returns (changed: bool)
      requires currentEvent.Some?
      modifies this`window
      ensures var t := currentEvent.value.timestamp;
        if old(window).None? then
          window == Some(Window(MinuteKey(t) - windowSize, MinuteKey(t)))
          && changed == (t != MinuteStart(TruncateToMinute(t)))
        else if t - MinuteStart(old(window).value.lower) <= MinuteStart(windowSize) then
          !changed && window == old(window)
        else
          changed && window == Some(Window(old(window).value.lower + 1, old(window).value.upper + 1))
    {
      var t := currentEvent.value.timestamp;
      // first event
      if window.None? {
        var roundedDatetime := TruncateToMinute(t);
        // inclusive right boundary
        var windowMax := if t == MinuteStart(roundedDatetime) then roundedDatetime else roundedDatetime + 1;
        window := Some(Window(windowMax - windowSize, windowMax));
        return t > MinuteStart(roundedDatetime);
      }
      // still within the current window
      if t - MinuteStart(window.value.lower) <= MinuteStart(windowSize) {
        return false;
      }
      // event out of window
      window := Some(Window(window.value.lower + 1, window.value.upper + 1));
      return true;
    }

    /** Writes the record of `minute` with the current moving average. */
    method RegisterMinute(minute: int)
      modifies this`output
      ensures output == old(output) + [Record(minute, CurrentMovingAverage())]
    {
      var minuteMovingAverage := CurrentMovingAverage();
      output := output + [Record(minute, minuteMovingAverage)];
    }

    /** Counts the current event in the bucket of its minute key: the bucket
        is incremented if the dictionary has it, and otherwise created with
        the event alone and appended at the end of the key order. */
    method SaveWindowHistory()
      requires currentEvent.Some?
      modifies this`historyOrder, this`windowHistory
      ensures InsertsEvent(old(historyOrder), old(windowHistory), historyOrder, windowHistory, currentEvent.value)
    {
      var e := currentEvent.value;
      var roundedDatetime := TruncateToMinute(e.timestamp);
      var minuteKey := if e.timestamp == MinuteStart(roundedDatetime) then roundedDatetime else roundedDatetime + 1;
      if minuteKey in windowHistory {
        // this minute already has history
        var minuteStats := windowHistory[minuteKey];
        windowHistory := windowHistory[minuteKey := MinuteStats(minuteStats.totalDuration + e.duration, minuteStats.nrEvents + 1)];
      } else {
        // new minute
        windowHistory := windowHistory[minuteKey := MinuteStats(e.duration, 1)];
        historyOrder := historyOrder + [minuteKey];
      }
    }

    /** Evicts the oldest bucket, and subtracts its statistics from the running
        aggregate, when the window's left edge has reached its key; otherwise
        changes nothing. */
    method UpdateWindowHistory()
      requires window.Some? && OrderedKeys()
      modifies this`historyOrder, this`windowHistory, this`windowTotal, this`windowCounter
      ensures OrderedKeys()
      ensures EvictsOldest(old(historyOrder), old(windowHistory), old(windowTotal), old(windowCounter),
                           historyOrder, windowHistory, windowTotal, windowCounter, window.value.lower)
    {
      var shift := |historyOrder| > 0 && window.value.lower >= historyOrder[0];
      // shift history
      if shift {
        var oldest := historyOrder[0];
        var statsToRemove := windowHistory[oldest];
        historyOrder := historyOrder[1..];
        windowHistory := windowHistory - {oldest};
        windowTotal := windowTotal - statsToRemove.totalDuration;
        windowCounter := windowCounter - statsToRemove.nrEvents;
      }
    }

    /** The average duration of the events within the window; 0 when the
        window holds none. */
    function CurrentMovingAverage(): (avg: real)
      reads this`windowTotal, this`windowCounter
      ensures windowCounter == 0 ==> avg == 0.0
      ensures windowCounter != 0 ==> avg * windowCounter as real == windowTotal as real
      ensures windowCounter >= 0 ==> avg == Average(MinuteStats(windowTotal, windowCounter))
    {
      if windowCounter == 0 then 0.0 else windowTotal as real / windowCounter as real
    }

    /** Adds the current event's duration and count to the running aggregate. */
    method AddEventStats()
      requires currentEvent.Some?
      modifies this`windowTotal, this`windowCounter
      ensures windowTotal == old(windowTotal) + currentEvent.value.duration
      ensures windowCounter == old(windowCounter) + 1
    {
      windowTotal := windowTotal + currentEvent.value.duration;
      windowCounter := windowCounter + 1;
    }
  }
}
