// The records the moving-average engine works on: a translation event, reduced
// to the two fields the engine reads, and the per-minute statistics bucket.

module Models {

  datatype Option<T> = None | Some(value: T)

  /** A delivered translation. Instants are integer microseconds; the payload
      fields (identifiers, languages, client, event name, word count) play no
      part in the computation and are not carried. */
  datatype Event = Event(timestamp: int, duration: int)

  /** The statistics of a set of events: the sum of their durations and how
      many there are. Used both for one minute's bucket and for the running
      aggregate of the whole window. */
  datatype MinuteStats = MinuteStats(totalDuration: int, nrEvents: nat)

  /** The statistics of a single event. */
  function Single(e: Event): MinuteStats {
    MinuteStats(e.duration, 1)
  }

  /** The statistics of the union of two disjoint sets of events. */
  function Add(a: MinuteStats, b: MinuteStats): MinuteStats {
    MinuteStats(a.totalDuration + b.totalDuration, a.nrEvents + b.nrEvents)
  }

  /** One output line: a minute boundary and the moving average reported for it. */
  datatype Record = Record(date: int, averageDeliveryTime: real)

  /** The mean duration, 0 for an empty set of events. */
  function Average(s: MinuteStats): (avg: real)
    ensures s.nrEvents == 0 ==> avg == 0.0
    ensures s.nrEvents > 0 ==> avg * (s.nrEvents as real) == s.totalDuration as real
  {
    if s.nrEvents == 0 then 0.0 else s.totalDuration as real / s.nrEvents as real
  }
}
