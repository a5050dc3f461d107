/** The shift record and its workflow guards (models/shift.py). */
module Shifts {
  import opened Wrappers
  import opened Clock
  import opened Calendar

  /** Workflow states of a shift row. */
  datatype ShiftStatus = Draft | Adjusting | Adjusted | Pending | Approved | Published | Rejected

  /** A wall-clock instant (`datetime.now()`), supplied by the caller. */
  type Timestamp = int

  /** One row of the shift table. `id` is `None` until the row has been stored. */
  datatype Shift = Shift(
    id: Option<int>,
    groupId: string,
    userId: int,
    date: Day,
    startTime: TimeOfDay,
    endTime: TimeOfDay,
    status: ShiftStatus,
    version: int,
    createdBy: int,
    createdAt: Option<Timestamp>,
    adjustedBy: Option<int>,
    adjustedAt: Option<Timestamp>,
    approvedBy: Option<int>,
    approvedAt: Option<Timestamp>,
    publishedBy: Option<int>,
    publishedAt: Option<Timestamp>,
    rejectedBy: Option<int>,
    rejectedAt: Option<Timestamp>,
    rejectionReason: Option<string>)
  {
    /** Only an approved row may be published; it may equally be rejected, and it is
        no longer approvable. */
    predicate CanPublish()
      ensures CanPublish() ==> CanReject() && !CanApprove()
    {
      status == Approved
    }

    /** Drafts and rows under adjustment may be edited; none of them is publishable. */
    predicate CanEdit()
      ensures CanEdit() ==> !CanPublish()
    {
      status == Draft || status == Adjusting || status == Adjusted
    }

    /** Adjusted or pending rows may be approved, and may then also be rejected. */
    predicate CanApprove()
      ensures CanApprove() ==> CanReject()
    {
      status == Adjusted || status == Pending
    }

    /** Any row past the draft stage and not yet published or rejected may be rejected. */
    predicate CanReject()
      ensures CanReject() ==> status != Draft && status != Published && status != Rejected
    {
      status == Adjusting || status == Adjusted || status == Pending || status == Approved
    }

    /** A published row admits no further workflow step. */
    predicate IsPublished()
      ensures IsPublished() ==> !CanEdit() && !CanApprove() && !CanPublish() && !CanReject()
    {
      status == Published
    }

    /** `get_duration_hours`, in minutes: both times are always present on a stored
        row, so this is the midnight-wrapping span, in [0, 24h). */
    function DurationMinutes(): (r: int)
      ensures 0 <= r < MinutesPerDay
      ensures (MinuteOfDay(startTime) + r) % MinutesPerDay == MinuteOfDay(endTime)
      ensures r == 0 <==> startTime == endTime
    {
      Clock.DurationMinutes(Some(startTime), Some(endTime))
    }
  }

  /** A shift as first built, before any workflow step: the column defaults give
      status `Draft` and version 1, and no workflow actor is recorded. */
  function NewShift(groupId: string, userId: int, date: Day, startTime: TimeOfDay,
                    endTime: TimeOfDay, createdBy: int, createdAt: Timestamp): (s: Shift)
    ensures s.status == Draft && s.version == 1 && s.id.None?
    ensures s.groupId == groupId && s.userId == userId && s.date == date
    ensures s.startTime == startTime && s.endTime == endTime
    ensures s.createdBy == createdBy && s.createdAt == Some(createdAt)
    ensures s.adjustedBy.None? && s.approvedBy.None? && s.publishedBy.None? && s.rejectedBy.None?
    ensures s.rejectionReason.None?
  {
    Shift(None, groupId, userId, date, startTime, endTime, Draft, 1, createdBy, Some(createdAt),
          None, None, None, None, None, None, None, None, None)
  }

  /** How the guards relate: a published row admits no workflow step at all (nor does
      a `Rejected` row); drafts and published rows are never rejectable; anything that
      may be approved or published may also be rejected; editable and publishable rows
      are disjoint, and only `Adjusted` is both editable and approvable. */
  lemma GuardRelations(s: Shift)
    ensures s.status == Published || s.status == Rejected ==>
      !s.CanEdit() && !s.CanApprove() && !s.CanPublish() && !s.CanReject()
    ensures s.status == Draft || s.status == Published ==> !s.CanReject()
    ensures s.CanApprove() || s.CanPublish() ==> s.CanReject()
    ensures !(s.CanEdit() && s.CanPublish())
    ensures s.CanEdit() && s.CanApprove() <==> s.status == Adjusted
    ensures s.IsPublished() ==> !s.CanPublish()
  {
  }
}
