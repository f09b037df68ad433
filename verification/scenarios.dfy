// Worked scenarios of the service. The events of each scenario lie at fixed
// offsets from the start of an arbitrary minute m, and their durations are
// left free; the records name the minutes m, m + 1, and so on. The unit tests
// of the service run the same shapes at 18:12 with durations 10, 30, 30, 50
// (gap) and 10, 30, 20, 50 (spread).

module Scenarios {
  import opened Models
  import opened MovingAverageSpec

  /** What an event of the given duration, accounted under minute `key`,
      contributes to the tally of the window (lo, hi]. */
  function Share(duration: int, key: int, lo: int, hi: int): MinuteStats {
    if lo < key <= hi then MinuteStats(duration, 1) else MinuteStats(0, 0)
  }

  /** The statistics of four disjoint sets of events, added up field by field. */
  function Sum(a: MinuteStats, b: MinuteStats, c: MinuteStats, d: MinuteStats): MinuteStats {
    MinuteStats(a.totalDuration + b.totalDuration + c.totalDuration + d.totalDuration,
                a.nrEvents + b.nrEvents + c.nrEvents + d.nrEvents)
  }

  /** Appending an event adds its share to the tally of every window. */
  lemma TallyAppendOne(events: seq<Event>, e: Event, key: int, lo: int, hi: int)
    requires MinuteKey(e.timestamp) == key
    ensures Tally(events + [e], lo, hi) == Add(Tally(events, lo, hi), Share(e.duration, key, lo, hi))
  {
    TallySnoc(events, e, lo, hi);
  }

  /** The tally of the first one, two, three and four events, each from the
      one before. */
  lemma TallyOfOne(a: Event, ka: int, lo: int, hi: int)
    requires MinuteKey(a.timestamp) == ka
    ensures Tally([a], lo, hi) == Share(a.duration, ka, lo, hi)
  {
  }

  lemma TallyOfTwo(a: Event, b: Event, kb: int, lo: int, hi: int)
    requires MinuteKey(b.timestamp) == kb
    ensures Tally([a, b], lo, hi) == Add(Tally([a], lo, hi), Share(b.duration, kb, lo, hi))
  {
    assert [a] + [b] == [a, b];
    TallyAppendOne([a], b, kb, lo, hi);
  }

  lemma TallyOfThree(a: Event, b: Event, c: Event, kc: int, lo: int, hi: int)
    requires MinuteKey(c.timestamp) == kc
    ensures Tally([a, b, c], lo, hi) == Add(Tally([a, b], lo, hi), Share(c.duration, kc, lo, hi))
  {
    assert [a, b] + [c] == [a, b, c];
    TallyAppendOne([a, b], c, kc, lo, hi);
  }

  lemma TallyOfFour(a: Event, b: Event, c: Event, d: Event, kd: int, lo: int, hi: int)
    requires MinuteKey(d.timestamp) == kd
    ensures Tally([a, b, c, d], lo, hi) == Add(Tally([a, b, c], lo, hi), Share(d.duration, kd, lo, hi))
  {
    assert [a, b, c] + [d] == [a, b, c, d];
    TallyAppendOne([a, b, c], d, kd, lo, hi);
  }

  /** The tally of four events accounted under minutes ka, kb, kc and kd is
      the sum of their shares. */
  lemma TallyOfEvents(a: Event, b: Event, c: Event, d: Event, ka: int, kb: int, kc: int, kd: int, lo: int, hi: int)
    requires MinuteKey(a.timestamp) == ka && MinuteKey(b.timestamp) == kb
    requires MinuteKey(c.timestamp) == kc && MinuteKey(d.timestamp) == kd
    ensures Tally([a, b, c, d], lo, hi)
            == Sum(Share(a.duration, ka, lo, hi), Share(b.duration, kb, lo, hi),
                   Share(c.duration, kc, lo, hi), Share(d.duration, kd, lo, hi))
  {
    TallyOfOne(a, ka, lo, hi);
    TallyOfTwo(a, b, kb, lo, hi);
    TallyOfThree(a, b, c, kc, lo, hi);
    TallyOfFour(a, b, c, d, kd, lo, hi);
  }

  /** The gap scenario: events 8.509654 s into minutes m and m + 1, then,
      after a minute without events, 8.509654 s and 11.509654 s into minute
      m + 3. */
  function GapEvents(m: int, d1: int, d2: int, d3: int, d4: int): seq<Event> {
    [Event(MinuteStart(m) + 8_509_654, d1),
     Event(MinuteStart(m + 1) + 8_509_654, d2),
     Event(MinuteStart(m + 3) + 8_509_654, d3),
     Event(MinuteStart(m + 3) + 11_509_654, d4)]
  }

  /** The tally of the gap events in any window: they are accounted
      under minutes m + 1, m + 2, m + 4 and m + 4. */
  lemma GapTally(m: int, d1: int, d2: int, d3: int, d4: int, lo: int, hi: int)
    ensures Tally(GapEvents(m, d1, d2, d3, d4), lo, hi)
            == Sum(Share(d1, m + 1, lo, hi), Share(d2, m + 2, lo, hi), Share(d3, m + 4, lo, hi), Share(d4, m + 4, lo, hi))
  {
    var events := GapEvents(m, d1, d2, d3, d4);
    var a, b, c, d := events[0], events[1], events[2], events[3];
    assert events == [a, b, c, d];
    MinuteKeyUnique(a.timestamp, m + 1);
    MinuteKeyUnique(b.timestamp, m + 2);
    MinuteKeyUnique(c.timestamp, m + 4);
    MinuteKeyUnique(d.timestamp, m + 4);
    TallyOfEvents(a, b, c, d, m + 1, m + 2, m + 4, m + 4, lo, hi);
  }

  /** With a one-minute window: five records, the first for minute m with
      average 0 because the first event is only accounted under m + 1; the
      minute without events shows as average 0, and the two events of minute
      m + 3 are averaged together at m + 4. */
  function GapRecords(m: int, d1: int, d2: int, d3: int, d4: int): seq<Record> {
    [Record(m, 0.0),
     Record(m + 1, d1 as real),
     Record(m + 2, d2 as real),
     Record(m + 3, 0.0),
     Record(m + 4, (d3 + d4) as real / 2.0)]
  }

  /** Record by record: the record of each minute of the gap scenario. */
  lemma GapRecord0(m: int, d1: int, d2: int, d3: int, d4: int)
    ensures MinuteRecord(GapEvents(m, d1, d2, d3, d4), 1, m) == GapRecords(m, d1, d2, d3, d4)[0]
  {
    GapTally(m, d1, d2, d3, d4, m - 1, m);
  }

  lemma GapRecord1(m: int, d1: int, d2: int, d3: int, d4: int)
    ensures MinuteRecord(GapEvents(m, d1, d2, d3, d4), 1, m + 1) == GapRecords(m, d1, d2, d3, d4)[1]
  {
    GapTally(m, d1, d2, d3, d4, m, m + 1);
  }

  lemma GapRecord2(m: int, d1: int, d2: int, d3: int, d4: int)
    ensures MinuteRecord(GapEvents(m, d1, d2, d3, d4), 1, m + 2) == GapRecords(m, d1, d2, d3, d4)[2]
  {
    GapTally(m, d1, d2, d3, d4, m + 1, m + 2);
  }

  lemma GapRecord3(m: int, d1: int, d2: int, d3: int, d4: int)
    ensures MinuteRecord(GapEvents(m, d1, d2, d3, d4), 1, m + 3) == GapRecords(m, d1, d2, d3, d4)[3]
  {
    GapTally(m, d1, d2, d3, d4, m + 2, m + 3);
  }

  lemma GapRecord4(m: int, d1: int, d2: int, d3: int, d4: int)
    ensures MinuteRecord(GapEvents(m, d1, d2, d3, d4), 1, m + 4) == GapRecords(m, d1, d2, d3, d4)[4]
  {
    GapTally(m, d1, d2, d3, d4, m + 3, m + 4);
  }

  /** The expected output for the gap events with a one-minute window. */
  lemma GapScenario(m: int, d1: int, d2: int, d3: int, d4: int)
    ensures Expected(GapEvents(m, d1, d2, d3, d4), 1) == GapRecords(m, d1, d2, d3, d4)
  {
    var events := GapEvents(m, d1, d2, d3, d4);
    assert TruncateToMinute(events[0].timestamp) == m;
    MinuteKeyUnique(events[3].timestamp, m + 4);
    ExpectedShape(events, 1);
    GapRecord0(m, d1, d2, d3, d4);
    GapRecord1(m, d1, d2, d3, d4);
    GapRecord2(m, d1, d2, d3, d4);
    GapRecord3(m, d1, d2, d3, d4);
    GapRecord4(m, d1, d2, d3, d4);
  }

  /** The spread scenario: events exactly at the start of minute m, 8.509654 s
      into minute m and into minute m + 2, and exactly at the start of minute
      m + 8. */
  function SpreadEvents(m: int, d1: int, d2: int, d3: int, d4: int): seq<Event> {
    [Event(MinuteStart(m), d1),
     Event(MinuteStart(m) + 8_509_654, d2),
     Event(MinuteStart(m + 2) + 8_509_654, d3),
     Event(MinuteStart(m + 8), d4)]
  }

  /** The tally of the spread events in any window: they are accounted
      under minutes m, m + 1, m + 3 and m + 8. */
  lemma SpreadTally(m: int, d1: int, d2: int, d3: int, d4: int, lo: int, hi: int)
    ensures Tally(SpreadEvents(m, d1, d2, d3, d4), lo, hi)
            == Sum(Share(d1, m, lo, hi), Share(d2, m + 1, lo, hi), Share(d3, m + 3, lo, hi), Share(d4, m + 8, lo, hi))
  {
    var events := SpreadEvents(m, d1, d2, d3, d4);
    var a, b, c, d := events[0], events[1], events[2], events[3];
    assert events == [a, b, c, d];
    MinuteKeyUnique(a.timestamp, m);
    MinuteKeyUnique(b.timestamp, m + 1);
    MinuteKeyUnique(c.timestamp, m + 3);
    MinuteKeyUnique(d.timestamp, m + 8);
    TallyOfEvents(a, b, c, d, m, m + 1, m + 3, m + 8, lo, hi);
  }

  /** With a five-minute window: an event exactly on a minute boundary is
      reported for that minute itself, one a few seconds later only from the
      next minute on, and each event leaves the average five minutes after the
      minute it is accounted under. */
  function SpreadRecords(m: int, d1: int, d2: int, d3: int, d4: int): seq<Record> {
    [Record(m, d1 as real),
     Record(m + 1, (d1 + d2) as real / 2.0),
     Record(m + 2, (d1 + d2) as real / 2.0),
     Record(m + 3, (d1 + d2 + d3) as real / 3.0),
     Record(m + 4, (d1 + d2 + d3) as real / 3.0),
     Record(m + 5, (d2 + d3) as real / 2.0),
     Record(m + 6, d3 as real),
     Record(m + 7, d3 as real),
     Record(m + 8, d4 as real)]
  }

  /** Record by record: the record of each minute of the spread scenario. */
  lemma SpreadRecord0(m: int, d1: int, d2: int, d3: int, d4: int)
    ensures MinuteRecord(SpreadEvents(m, d1, d2, d3, d4), 5, m) == SpreadRecords(m, d1, d2, d3, d4)[0]
  {
    SpreadTally(m, d1, d2, d3, d4, m - 5, m);
  }

  lemma SpreadRecord1(m: int, d1: int, d2: int, d3: int, d4: int)
    ensures MinuteRecord(SpreadEvents(m, d1, d2, d3, d4), 5, m + 1) == SpreadRecords(m, d1, d2, d3, d4)[1]
  {
    SpreadTally(m, d1, d2, d3, d4, m - 4, m + 1);
  }

  lemma SpreadRecord2(m: int, d1: int, d2: int, d3: int, d4: int)
    ensures MinuteRecord(SpreadEvents(m, d1, d2, d3, d4), 5, m + 2) == SpreadRecords(m, d1, d2, d3, d4)[2]
  {
    SpreadTally(m, d1, d2, d3, d4, m - 3, m + 2);
  }

  lemma SpreadRecord3(m: int, d1: int, d2: int, d3: int, d4: int)
    ensures MinuteRecord(SpreadEvents(m, d1, d2, d3, d4), 5, m + 3) == SpreadRecords(m, d1, d2, d3, d4)[3]
  {
    SpreadTally(m, d1, d2, d3, d4, m - 2, m + 3);
  }

  lemma SpreadRecord4(m: int, d1: int, d2: int, d3: int, d4: int)
    ensures MinuteRecord(SpreadEvents(m, d1, d2, d3, d4), 5, m + 4) == SpreadRecords(m, d1, d2, d3, d4)[4]
  {
    SpreadTally(m, d1, d2, d3, d4, m - 1, m + 4);
  }

  lemma SpreadRecord5(m: int, d1: int, d2: int, d3: int, d4: int)
    ensures MinuteRecord(SpreadEvents(m, d1, d2, d3, d4), 5, m + 5) == SpreadRecords(m, d1, d2, d3, d4)[5]
  {
    SpreadTally(m, d1, d2, d3, d4, m, m + 5);
  }

  lemma SpreadRecord6(m: int, d1: int, d2: int, d3: int, d4: int)
    ensures MinuteRecord(SpreadEvents(m, d1, d2, d3, d4), 5, m + 6) == SpreadRecords(m, d1, d2, d3, d4)[6]
  {
    SpreadTally(m, d1, d2, d3, d4, m + 1, m + 6);
  }

  lemma SpreadRecord7(m: int, d1: int, d2: int, d3: int, d4: int)
    ensures MinuteRecord(SpreadEvents(m, d1, d2, d3, d4), 5, m + 7) == SpreadRecords(m, d1, d2, d3, d4)[7]
  {
    SpreadTally(m, d1, d2, d3, d4, m + 2, m + 7);
  }

  lemma SpreadRecord8(m: int, d1: int, d2: int, d3: int, d4: int)
    ensures MinuteRecord(SpreadEvents(m, d1, d2, d3, d4), 5, m + 8) == SpreadRecords(m, d1, d2, d3, d4)[8]
  {
    SpreadTally(m, d1, d2, d3, d4, m + 3, m + 8);
  }

  /** The expected output for the spread events with a five-minute window. */
  lemma SpreadScenario(m: int, d1: int, d2: int, d3: int, d4: int)
    ensures Expected(SpreadEvents(m, d1, d2, d3, d4), 5) == SpreadRecords(m, d1, d2, d3, d4)
  {
    var events := SpreadEvents(m, d1, d2, d3, d4);
    assert TruncateToMinute(events[0].timestamp) == m;
    MinuteKeyUnique(events[3].timestamp, m + 8);
    ExpectedShape(events, 5);
    SpreadRecord0(m, d1, d2, d3, d4);
    SpreadRecord1(m, d1, d2, d3, d4);
    SpreadRecord2(m, d1, d2, d3, d4);
    SpreadRecord3(m, d1, d2, d3, d4);
    SpreadRecord4(m, d1, d2, d3, d4);
    SpreadRecord5(m, d1, d2, d3, d4);
    SpreadRecord6(m, d1, d2, d3, d4);
    SpreadRecord7(m, d1, d2, d3, d4);
    SpreadRecord8(m, d1, d2, d3, d4);
  }
}

/** The service run end to end on the worked scenarios. */
module ServiceScenarios {
  import opened Models
  import opened Scenarios
  import opened Services

  /** The service, run on the gap events with a one-minute window and an
      empty output, writes the five records of the gap scenario. */
  method RunGapScenario(m: int, d1: int, d2: int, d3: int, d4: int) returns (written: seq<Record>)
    ensures written == GapRecords(m, d1, d2, d3, d4)
  {
    var service := new MADeliveryTimeService(GapEvents(m, d1, d2, d3, d4), 1, []);
    service.ProcessEvents();
    GapScenario(m, d1, d2, d3, d4);
    written := service.output;
  }

  /** The service, run on the spread events with a five-minute window and an
      empty output, writes the nine records of the spread scenario. */
  method RunSpreadScenario(m: int, d1: int, d2: int, d3: int, d4: int) returns (written: seq<Record>)
    ensures written == SpreadRecords(m, d1, d2, d3, d4)
  {
    var service := new MADeliveryTimeService(SpreadEvents(m, d1, d2, d3, d4), 5, []);
    service.ProcessEvents();
    SpreadScenario(m, d1, d2, d3, d4);
    written := service.output;
  }
}
