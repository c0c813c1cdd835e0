/// `TimelineRange` (src/timeline_range.rs): a span of the profile's time
/// axis, in the timestamps samples carry. Its `start` and `end` are
/// construct-only properties, so a range is a value.
module Timeline {
  import opened Wire

  datatype TimelineRange = TimelineRange(start: U64, end: U64)

  /** `TimelineRange::new(start, end)`: the properties are set once, at
      construction, and are what was passed. */
  function New(start: U64, end: U64): (r: TimelineRange)
    ensures r.start == start && r.end == end
  {
    TimelineRange(start, end)
  }

  /** `TimelineRange::default()`: both properties keep the default of a
      `Cell<u64>`. */
  function Default(): (r: TimelineRange)
    ensures r.start == 0 && r.end == 0
  {
    TimelineRange(0, 0)
  }

  /** `(start..=end).contains(&timestamp)`. */
  predicate Contains(r: TimelineRange, timestamp: U64)
  {
    r.start <= timestamp <= r.end
  }

  /** `end - start` on u64, which only has a value when `start <= end`. */
  function Duration(r: TimelineRange): (d: U64)
    requires r.start <= r.end
    ensures r.start + d == r.end
  {
    r.end - r.start
  }

  /** A timestamp is in the range exactly when it is at most `duration`
      past `start`: both ends are included. */
  lemma ContainsWithinDuration(r: TimelineRange, timestamp: U64)
    requires r.start <= r.end
    ensures Contains(r, timestamp) <==> r.start <= timestamp && timestamp - r.start <= Duration(r)
  {
  }

  /** A non-empty range contains both of its ends; a reversed one contains
      nothing. */
  lemma Endpoints(r: TimelineRange)
    ensures r.start <= r.end ==> Contains(r, r.start) && Contains(r, r.end)
    ensures r.start > r.end ==> forall t: U64 :: !Contains(r, t)
  {
  }

  /** The default range holds the single timestamp 0 and lasts 0. */
  lemma DefaultRange(t: U64)
    ensures Contains(Default(), t) <==> t == 0
    ensures Duration(Default()) == 0
  {
  }

  /** `new` keeps what it is given: the range built from its own ends is
      the same range, and its duration is the distance between them. */
  lemma NewRoundTrip(r: TimelineRange)
    ensures New(r.start, r.end) == r
    ensures r.start <= r.end ==> Duration(New(r.start, r.end)) == r.end - r.start
  {
  }
}
