# Moving-average delivery time, modelled in Dafny

The system reads translation events in timestamp order. For every minute boundary it reports the mean delivery duration of the events in the trailing window of `windowSize` minutes. `MADeliveryTimeService` (in `unbabel_cli/services.py`) does this in one pass over the events. It keeps four pieces of state:

- the window `(lower, upper]`, with both edges on minute boundaries;
- an insertion-ordered dictionary from a minute key to that minute's bucket (total duration, number of events);
- a running total and a running counter.

For each event, the service slides the window one minute at a time until the window reaches the event. On every slide it writes the record of the minute just left behind and evicts the oldest bucket once the lower edge has reached it. It then folds the event into the running aggregate and into its minute's bucket. After the last event it writes the record of the final window's upper edge.

The model has five modules:

- `Models` (`models.dfy`): the event (timestamp and duration only), the minute statistics, the output record and the average.
- `MovingAverageSpec` (`spec.dfy`): a reference definition of the output that uses none of the service's machinery. `Expected(events, w)` holds one record per minute, from the minute the first event lies in to the minute the last event is accounted under. Each record carries `Average(Tally(events, m - w, m))`, the mean duration of the events accounted in the `w` minutes ending at `m`.
- `WindowHistory` (`history.dfy`): the invariant that ties the ordered dictionary and the running aggregate to the events processed so far. It also proves that the two history updates preserve that invariant: sliding with eviction, and folding an event into its bucket.
- `Services` (`services.dfy`): the class `MADeliveryTimeService`, with the same fields as the source and one method per source method. `process_events` is split into methods for the per-event turn, the catch-up loop and the final flush, so each can carry its own contract. The main theorem is the postcondition of `ProcessEvents`: the service appends exactly `Expected(inputSource, windowSize)` to its output.
- `Scenarios` and `ServiceScenarios` (`scenarios.dfy`): two worked examples from the test suite, the gap and spread cases, proved first against the reference output and then end to end through the class.

Representation:

- Timestamps are integer microseconds.
- An instant on a minute boundary, such as a window edge, a bucket key or a record's date, is written as its minute number `m`. That number stands for the instant `MinuteStart(m) = m * 60 000 000`.
- Rounding an instant down to its minute is `TruncateToMinute`. The bucket key, which rounds up except exactly on a boundary, is `MinuteKey`.
- The service's callers guarantee two things, so the model requires them: the window size is at least 1 (`unbabel_cli/cli.py:30-31`), and timestamps do not decrease.

The worked scenarios do not use the tests' fixed date (2018-12-26 18:12) or fixed durations. They use an arbitrary starting minute `m` and arbitrary durations `d1`–`d4`, with the tests' offsets within each minute. The tests' durations are `10, 30, 30, 50` for the gap case and `10, 30, 20, 50` for the spread case. Substituting them into `GapRecords` and `SpreadRecords` gives the tests' averages: `0, 10, 30, 0, 40` and `10, 20, 20, 20, 20, 25, 20, 20, 50`.

## Model

| member | source | states |
|---|---|---|
| Models.Average | unbabel_cli/services.py:124-128 | The average is 0 when there are no events; otherwise, multiplied by the count, it gives the total duration. |
| MovingAverageSpec.TruncateToMinute | unbabel_cli/services.py:55-57 | Setting seconds and microseconds to zero gives the minute m whose start is at or before t and whose end is after t. |
| MovingAverageSpec.MinuteKey | unbabel_cli/services.py:94-98 | The bucket key is the boundary k with t in (k - 1 minute, k]. It equals the truncated minute exactly when t lies on a boundary, and the next minute otherwise. |
| MovingAverageSpec.MinuteKeyUnique | unbabel_cli/services.py:94-98 | Any boundary m with t in (m - 1 minute, m] is the bucket key of t. |
| MovingAverageSpec.MinuteKeyMonotone | unbabel_cli/services.py:94-98 | Later instants never get an earlier bucket key. |
| MovingAverageSpec.Records | unbabel_cli/services.py:39-42 | The records of n consecutive minutes number n. |
| MovingAverageSpec.TallyEmpty | unbabel_cli/services.py:124-128 | A window counts no event exactly when no event is accounted in it, and then its total is 0 as well. |
| MovingAverageSpec.TallySplit | unbabel_cli/services.py:113-122 | Adjacent windows (a, b] and (b, c] together hold the statistics of (a, c]. |
| MovingAverageSpec.TallyOfPrefix | unbabel_cli/services.py:39-42 | Events accounted after a window's right edge do not change that window's statistics, so a record can be written before later events are read. |
| MovingAverageSpec.NextRecord | unbabel_cli/services.py:40 | Once the running aggregate holds the statistics of the window ending at minute `start + n`, its average is the next reference record. |
| MovingAverageSpec.RecordsAt | unbabel_cli/services.py:39-42 | The k-th of n consecutive records is the record of minute start + k. |
| MovingAverageSpec.ExpectedShape | unbabel_cli/services.py:49-50 | For sorted events, the output is empty exactly when there are no events. Otherwise the records are on consecutive minutes, from the first event's truncated minute to the last event's key, and each carries its trailing-window average. |
| MovingAverageSpec.FirstRecordZero | unbabel_cli/services.py:63-66 | When the first event lies strictly inside its minute, the first record is for that minute and averages 0, because no event is accounted in it yet. |
| WindowHistory.HistoryKeysAreEventMinutes | unbabel_cli/services.py:108-111 | Under the history invariant, the dictionary holds a bucket for exactly the minutes of the window in which some processed event is accounted. Buckets are only ever created holding an event, so none is empty. |
| WindowHistory.EvictBuckets | unbabel_cli/services.py:113-122 | When the window slides, the oldest bucket leaves exactly when the new lower edge has reached its key. That bucket then holds exactly the minute that left the window. If no bucket leaves, no event was accounted in that minute, and the remaining buckets match the slid window. |
| WindowHistory.SlideTally | unbabel_cli/services.py:75-77 | With no event after the upper edge, the old window is its first minute plus the window slid one minute on. |
| WindowHistory.EvictStep | unbabel_cli/services.py:113-122 | A slide followed by the history update keeps the invariant for the new window. An evicted bucket is always the oldest and holds exactly the minute that left. |
| WindowHistory.FoldBuckets | unbabel_cli/services.py:101-111 | Folding an event keyed to the window's upper edge keeps every bucket equal to its minute's statistics. This holds whether the event's bucket is incremented or created and appended. |
| WindowHistory.FoldOldBucket | unbabel_cli/services.py:101-104 | Incrementing the existing bucket of the event's minute keeps the buckets matching the events with the new one appended. |
| WindowHistory.FoldNewBucket | unbabel_cli/services.py:106-111 | Creating the bucket of a new minute and appending its key keeps the keys increasing and the buckets matching. |
| WindowHistory.FoldStep | unbabel_cli/services.py:44-46 | Adding the event to the running aggregate and to its bucket keeps the history invariant, now over the events with the new one appended. |
| WindowHistory.BucketsCoverWindow | unbabel_cli/services.py:101-111 | Increasing buckets that each hold their minute and cover every event in the window add up to the window's statistics. |
| WindowHistory.AggregateIsBucketSum | unbabel_cli/services.py:119-122 | The running total and counter equal the sum of the retained buckets. |
| WindowHistory.BucketCountBound | unbabel_cli/services.py:113-122 | Strictly increasing keys inside a window of n minutes number at most n. |
| WindowHistory.HistoryBound | unbabel_cli/services.py:113-122 | The history never retains more buckets than the window has minutes. |
| Services.MADeliveryTimeService.constructor | unbabel_cli/services.py:12-28 | A new service has no current event and no window, an empty history and a zero aggregate. |
| Services.MADeliveryTimeService.ProcessEvents | unbabel_cli/services.py:30-50 | The output gains exactly the reference records of the input, and nothing when the input is empty. Afterwards the aggregate equals the bucket sum and at most windowSize buckets remain. |
| Services.MADeliveryTimeService.ProcessEvent | unbabel_cli/services.py:31-46 | One turn of the event loop: afterwards the window ends at the event's key and is windowSize wide, every minute before that key has its record, and the history matches the events read so far. |
| Services.MADeliveryTimeService.RegisterLastMinute | unbabel_cli/services.py:48-50 | The final flush writes the record of the last event's key, which completes the reference output. The aggregate equals the bucket sum and the history is bounded. |
| Services.MADeliveryTimeService.SaveEventStats | unbabel_cli/services.py:44-46 | After the aggregate and the bucket are updated, the history matches the processed events with the current event appended. |
| Services.MADeliveryTimeService.RegisterProcessedMinutes | unbabel_cli/services.py:38-42 | After the slide loop, the window ends at the event's minute key (upper - 1 minute < t <= upper), and one record has been written per minute crossed. |
| Services.MADeliveryTimeService.RegisterClosedMinute | unbabel_cli/services.py:39-42 | One iteration writes the record of the minute left behind, evicts, and slides again or not. The upper edge advances by exactly one minute when the window slides. |
| Services.MADeliveryTimeService.RecordClosedMinute | unbabel_cli/services.py:40 | The record written for upper - 1 minute is the reference record of that minute, computed from the aggregate before eviction. |
| Services.MADeliveryTimeService.EvictClosedMinute | unbabel_cli/services.py:41 | Evicting after a slide turns the history of the previous window into that of the current one. |
| Services.MADeliveryTimeService.UpdateWindow | unbabel_cli/services.py:52-78 | For the first event, the window is (key - windowSize, key] and a boundary counts as crossed unless t is exactly on a minute. Later, the window keeps its place while t - lower <= windowSize minutes. Otherwise both edges move exactly one minute on. |
| Services.MADeliveryTimeService.RegisterMinute | unbabel_cli/services.py:80-90 | Appends exactly one record: the given minute with the current moving average. |
| Services.MADeliveryTimeService.SaveWindowHistory | unbabel_cli/services.py:92-111 | The event's bucket, under its rounded-up minute key, is incremented if present. Otherwise it is created with the event alone and its key is appended to the key order. |
| Services.MADeliveryTimeService.UpdateWindowHistory | unbabel_cli/services.py:113-122 | The oldest bucket is popped and subtracted from the aggregate exactly when the lower edge has reached its key. Otherwise nothing changes, and the key order still lists each key once. |
| Services.MADeliveryTimeService.CurrentMovingAverage | unbabel_cli/services.py:124-128 | Returns 0 when the counter is 0; otherwise a value that, multiplied by the counter, gives the total. For a non-negative counter it is the average of the aggregate. |
| Services.MADeliveryTimeService.AddEventStats | unbabel_cli/services.py:130-133 | The total grows by the event's duration and the counter by one. |
| Scenarios.GapScenario | tests/test_ma_service.py:78-100 | With window size 1 and a two-minute gap, the reference output is five records. A minute with no event in its window averages 0, and the last minute averages its two events. |
| Scenarios.SpreadScenario | tests/test_ma_service.py:145-171 | With window size 5, the reference output is nine records, and each averages exactly the durations still inside its window. |
| ServiceScenarios.RunGapScenario | tests/test_ma_service.py:89-100 | Running the service on the gap input writes exactly the five gap records. |
| ServiceScenarios.RunSpreadScenario | tests/test_ma_service.py:156-171 | Running the service on the spread input writes exactly the nine spread records. |

## Left out

- Reading events from a file (`unbabel_cli/data.py`), JSON decoding and timestamp parsing: the model takes an already-parsed sequence of events.
- The command line (`unbabel_cli/cli.py`): only its check that the window size is positive is kept, as a precondition.
- The lazy input generator: the input is a finite sequence, read front to back.
- The output sink (`OutputSource`): it is modelled as the sequence of records written so far, `output`.
- Formatting a record's date with `strftime`: a record's date is its minute number. The date-format constant module is not part of this model.
- Event payload fields (identifiers, languages, client, event name, word count) and `TranslationEvent.__str__`: they play no part in the computation.
- `tests/fixtures.py`: it only fills the payload fields with random values.
- Services.MADeliveryTimeService.UpdateWindow: the floating-point test `total_seconds() / 60 <= window_size` is modelled by the exact integer test `t - lower <= windowSize minutes` in microseconds. Rounding in the float division is not modelled.
- Services.MADeliveryTimeService.CurrentMovingAverage: the float division is modelled as exact `real` division. The integer `0` returned for an empty window is modelled as `0.0`.
- Instants and window sizes are unbounded integers. The source computes with `datetime`, which only covers years 1 to 9999. There it raises `OverflowError` in three cases: a window size that reaches back before year 1 (`unbabel_cli/services.py:65`); rounding up an instant in the last minute of year 9999 (`unbabel_cli/services.py:63`); and a slide past year 9999 (`unbabel_cli/services.py:75-76`). The model does not model these errors; it keeps producing records.
- The service's behaviour on timestamps that go backwards is not modelled: the source does not check ordering, and the model requires non-decreasing timestamps.
- The other end-to-end tests (one event per minute with window sizes 1, 2 and 10; three events in one minute; events exactly on minute boundaries) have no scenario lemma of their own. Each is an instance of the `ProcessEvents` postcondition.
