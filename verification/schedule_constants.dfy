/** The view modes and the morning/afternoon/evening hour slots. */
module ScheduleConstants {
  import opened Wrappers

  datatype ViewMode = Day | Week

  /** The mode's raw value, the label of its picker segment. */
  function RawValue(m: ViewMode): (s: string)
    ensures |s| > 0
  {
    match m
    case Day => "Dag"
    case Week => "Week"
  }

  /** `ViewMode(rawValue:)` */
  function FromRawValue(s: string): (m: Option<ViewMode>)
    ensures m.Some? ==> RawValue(m.value) == s
  {
    if s == "Dag" then Some(Day) else if s == "Week" then Some(Week) else None
  }

  /** Raw values round-trip, so distinct modes have distinct raw values. */
  lemma RawValueRoundTrip(m: ViewMode)
    ensures FromRawValue(RawValue(m)) == Some(m)
  {
  }

  lemma RawValuesDistinct()
    ensures RawValue(Day) != RawValue(Week)
  {
    RawValueRoundTrip(Day);
    RawValueRoundTrip(Week);
  }

  datatype TimeSlot = Morning | Afternoon | Evening

  /** The slot's half-open hour range `lo..<hi`. */
  function SlotRange(s: TimeSlot): (r: (int, int))
    ensures 0 <= r.0 < r.1 <= 24
  {
    match s
    case Morning => (0, 12)
    case Afternoon => (12, 17)
    case Evening => (17, 24)
  }

  predicate InSlot(hour: int, s: TimeSlot) {
    SlotRange(s).0 <= hour < SlotRange(s).1
  }

  /** The slot an hour belongs to, if it is an hour of the day. */
  function SlotOf(hour: int): (r: Option<TimeSlot>)
    ensures r.Some? <==> 0 <= hour < 24
    ensures r.Some? ==> InSlot(hour, r.value)
  {
    if 0 <= hour < 12 then Some(Morning)
    else if 12 <= hour < 17 then Some(Afternoon)
    else if 17 <= hour < 24 then Some(Evening)
    else None
  }

  /** No hour lies in two slots. */
  lemma SlotsDisjoint(hour: int, s: TimeSlot, s': TimeSlot)
    requires InSlot(hour, s) && InSlot(hour, s')
    ensures s == s'
  {
  }

  /** Every hour of the day lies in exactly one slot, the one `SlotOf` names. */
  lemma SlotsPartitionDay(hour: int, s: TimeSlot)
    ensures InSlot(hour, s) <==> SlotOf(hour) == Some(s)
  {
    if InSlot(hour, s) {
      SlotsDisjoint(hour, s, SlotOf(hour).value);
    }
  }
}
