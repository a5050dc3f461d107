/** A worker's availability request (models/shift_request.py). */
module ShiftRequests {
  import opened Wrappers
  import opened Clock
  import opened Calendar

  datatype RequestStatus = Pending | Accepted | Rejected | Cancelled

  /** `priority` 1 is the strongest preference ("希望"), 3 the weakest ("可能なら"). */
  datatype ShiftRequest = ShiftRequest(
    id: int,
    userId: int,
    date: Day,
    startTime: TimeOfDay,
    endTime: TimeOfDay,
    priority: int,
    status: RequestStatus)
  {
    /** Still awaiting an answer: neither accepted, rejected nor cancelled. */
    predicate IsPending()
      ensures IsPending() ==> status != Accepted && status != Rejected && status != Cancelled
    {
      status == Pending
    }

    /** Accepted, and so no longer pending. */
    predicate IsAccepted()
      ensures IsAccepted() ==> !IsPending()
    {
      status == Accepted
    }

    /** `get_duration_hours`, in minutes: the same midnight-wrapping rule as a shift. */
    function DurationMinutes(): (r: int)
      ensures 0 <= r < MinutesPerDay
      ensures (MinuteOfDay(startTime) + r) % MinutesPerDay == MinuteOfDay(endTime)
      ensures r == 0 <==> startTime == endTime
    {
      Clock.DurationMinutes(Some(startTime), Some(endTime))
    }

    /** `get_priority_label`: the three known priorities have three distinct labels;
        every other value reads "不明" (unknown). */
    function PriorityLabel(): (text: string)
      ensures text == "不明" <==> !(1 <= priority <= 3)
      ensures priority == 1 ==> text == "希望"
      ensures priority == 2 ==> text == "できれば"
      ensures priority == 3 ==> text == "可能なら"
    {
      match priority
      case 1 => "希望"
      case 2 => "できれば"
      case 3 => "可能なら"
      case _ => "不明"
    }
  }

  /** A request as submitted: the column defaults give priority 1 and status `Pending`. */
  function NewRequest(id: int, userId: int, date: Day, startTime: TimeOfDay, endTime: TimeOfDay)
    : (r: ShiftRequest)
    ensures r.priority == 1 && r.IsPending() && !r.IsAccepted()
    ensures r.id == id && r.userId == userId && r.date == date
    ensures r.startTime == startTime && r.endTime == endTime
  {
    ShiftRequest(id, userId, date, startTime, endTime, 1, Pending)
  }

  /** Labels of distinct known priorities never coincide. */
  lemma PriorityLabelsDistinct(a: ShiftRequest, b: ShiftRequest)
    requires 1 <= a.priority <= 3 && 1 <= b.priority <= 3
    requires a.PriorityLabel() == b.PriorityLabel()
    ensures a.priority == b.priority
  {
  }
}
