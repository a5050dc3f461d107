/** The approval workflow of shift rows (services/shift_approval.py): drafts are
    created, adjusted field by field with a revision trail, approved, published, or
    sent back to draft. The database is an in-memory table; each service call is one
    atomic transaction against it. */
module Approval {
  import opened Wrappers
  import opened Clock
  import opened Calendar
  import opened Shifts
  import opened Revisions
  import opened Users
  import opened Sorting

  // ---------------------------------------------------------------------------------
  // Group operations: one status transition applied to the eligible rows of a group
  // ---------------------------------------------------------------------------------

  /** The four operations that act on every eligible row of one shift group. */
  datatype GroupOp =
    | StartAdjust(groupId: string)
    | Approve(groupId: string, approverId: int, at: Timestamp)
    | Publish(groupId: string, publisherId: int, at: Timestamp)
    | Reject(groupId: string, rejecterId: int, at: Timestamp, reason: string)

  /** The rows an operation's query selects: its group, in the statuses it filters on.
      Rejection does not select `Adjusting` rows. */
  predicate Eligible(op: GroupOp, s: Shift) {
    s.groupId == op.groupId &&
    match op
    case StartAdjust(_) => s.status == Draft
    case Approve(_, _, _) => s.status == Adjusted || s.status == Pending
    case Publish(_, _, _) => s.status == Approved
    case Reject(_, _, _, _) => s.status == Adjusted || s.status == Pending || s.status == Approved
  }

  /** The status every selected row ends in. */
  function Target(op: GroupOp): ShiftStatus {
    match op
    case StartAdjust(_) => Adjusting
    case Approve(_, _, _) => Approved
    case Publish(_, _, _) => Published
    case Reject(_, _, _, _) => Draft
  }

  /** Two rows agree on everything but the workflow status and its actor stamps. */
  predicate SameAssignment(a: Shift, b: Shift) {
    a.id == b.id && a.groupId == b.groupId && a.userId == b.userId && a.date == b.date
    && a.startTime == b.startTime && a.endTime == b.endTime && a.version == b.version
    && a.createdBy == b.createdBy && a.createdAt == b.createdAt
  }

  /** The effect of `op` on one row: a selected row moves to the operation's status and
      records who acted and when (and, for rejection, why); any other row is untouched. */
  function GroupStep(op: GroupOp, s: Shift): (r: Shift)
    ensures SameAssignment(r, s)
    ensures !Eligible(op, s) ==> r == s
    ensures Eligible(op, s) ==> r.status == Target(op)
    ensures Eligible(op, s) && op.Approve? ==>
      r.approvedBy == Some(op.approverId) && r.approvedAt == Some(op.at)
    ensures Eligible(op, s) && op.Publish? ==>
      r.publishedBy == Some(op.publisherId) && r.publishedAt == Some(op.at)
    ensures Eligible(op, s) && op.Reject? ==>
      r.rejectedBy == Some(op.rejecterId) && r.rejectedAt == Some(op.at)
      && r.rejectionReason == Some(op.reason)
  {
    if !Eligible(op, s) then s
    else
      match op
      case StartAdjust(_) => s.(status := Adjusting)
      case Approve(_, who, at) => s.(status := Approved, approvedBy := Some(who), approvedAt := Some(at))
      case Publish(_, who, at) => s.(status := Published, publishedBy := Some(who), publishedAt := Some(at))
      case Reject(_, who, at, reason) =>
        s.(status := Draft, rejectedBy := Some(who), rejectedAt := Some(at),
           rejectionReason := Some(reason))
  }

  /** The table after `op`: every row passed through `GroupStep`, in place. */
  function Applied(op: GroupOp, rows: seq<Shift>): (r: seq<Shift>)
    ensures |r| == |rows|
    ensures forall i :: 0 <= i < |rows| ==> r[i] == GroupStep(op, rows[i])
  {
    seq(|rows|, i requires 0 <= i < |rows| => GroupStep(op, rows[i]))
  }

  /** How many rows `op` selects (`len(shifts)` in the audit entry). */
  function CountEligible(op: GroupOp, rows: seq<Shift>): (n: nat)
    ensures n <= |rows|
  {
    if rows == [] then 0
    else CountEligible(op, rows[..|rows| - 1]) + (if Eligible(op, rows[|rows| - 1]) then 1 else 0)
  }

  /** The count is zero exactly when the operation selects no row, which is when it
      changes nothing; the call still reports success. */
  lemma {:induction false} CountEligibleZero(op: GroupOp, rows: seq<Shift>)
    ensures CountEligible(op, rows) == 0 <==> forall i :: 0 <= i < |rows| ==> !Eligible(op, rows[i])
    ensures CountEligible(op, rows) == 0 <==> Applied(op, rows) == rows
  {
    if rows != [] {
      var init := rows[..|rows| - 1];
      CountEligibleZero(op, init);
      if Applied(op, rows) == rows {
        forall i | 0 <= i < |rows| ensures !Eligible(op, rows[i]) {
          assert Applied(op, rows)[i] == GroupStep(op, rows[i]);
        }
      }
      if forall i :: 0 <= i < |init| ==> !Eligible(op, init[i]) {
        assert forall i :: 0 <= i < |init| ==> init[i] == rows[i];
      }
    }
  }

  /** The queries' status filters are the row guards of the shift model, except that
      rejection skips the `Adjusting` rows the guard would admit. */
  lemma EligibleMatchesGuards(g: string, who: int, at: Timestamp, reason: string, s: Shift)
    ensures Eligible(Approve(g, who, at), s) <==> s.groupId == g && s.CanApprove()
    ensures Eligible(Publish(g, who, at), s) <==> s.groupId == g && s.CanPublish()
    ensures Eligible(Reject(g, who, at, reason), s) <==>
      s.groupId == g && s.CanReject() && s.status != Adjusting
  {
  }

  /** An `Adjusting` row passes the rejection guard, yet rejecting its group leaves it
      exactly as it was. */
  lemma RejectSkipsAdjusting(g: string, who: int, at: Timestamp, reason: string, s: Shift)
    requires s.groupId == g && s.status == Adjusting
    ensures s.CanReject()
    ensures Applied(Reject(g, who, at, reason), [s]) == [s]
  {
  }

  /** Repeating a group operation on the same group (with any actor and time) changes
      nothing more: a row it moved is no longer selected. In particular a second
      publication leaves already-published rows alone. */
  lemma {:induction false} GroupOpIdempotent(op: GroupOp, again: GroupOp, rows: seq<Shift>)
    requires again.groupId == op.groupId
    requires (op.StartAdjust? && again.StartAdjust?) || (op.Approve? && again.Approve?)
      || (op.Publish? && again.Publish?) || (op.Reject? && again.Reject?)
    ensures Applied(again, Applied(op, rows)) == Applied(op, rows)
  {
    var once := Applied(op, rows);
    forall i | 0 <= i < |rows|
      ensures Applied(again, once)[i] == once[i]
    {
      assert !Eligible(again, once[i]);
    }
  }

  /** A group operation touches no row of another group. */
  lemma OtherGroupsUntouched(op: GroupOp, rows: seq<Shift>, i: int)
    requires 0 <= i < |rows| && rows[i].groupId != op.groupId
    ensures Applied(op, rows)[i] == rows[i]
  {
  }

  // ---------------------------------------------------------------------------------
  // Creating drafts
  // ---------------------------------------------------------------------------------

  /** A shift as `create_draft_shifts` stores it: status `Draft`, creator and creation
      time recorded, and the next primary key assigned. */
  function AsDraft(s: Shift, adminId: int, now: Timestamp, id: int): (r: Shift)
    ensures r.id == Some(id) && r.status == Draft
    ensures r.createdBy == adminId && r.createdAt == Some(now)
    ensures r.groupId == s.groupId && r.userId == s.userId && r.date == s.date
    ensures r.startTime == s.startTime && r.endTime == s.endTime && r.version == s.version
  {
    s.(id := Some(id), status := Draft, createdBy := adminId, createdAt := Some(now))
  }

  /** The rows inserted for `shifts` into a table that already holds `base` rows. */
  function Drafted(shifts: seq<Shift>, adminId: int, now: Timestamp, base: int): (r: seq<Shift>)
    ensures |r| == |shifts|
    ensures forall i :: 0 <= i < |shifts| ==> r[i] == AsDraft(shifts[i], adminId, now, base + i + 1)
  {
    seq(|shifts|, i requires 0 <= i < |shifts| => AsDraft(shifts[i], adminId, now, base + i + 1))
  }

  // ---------------------------------------------------------------------------------
  // Adjusting one shift
  // ---------------------------------------------------------------------------------

  /** The keys present in `new_data`: a present key carries its new value. */
  datatype Changes = Changes(userId: Option<int>, startTime: Option<TimeOfDay>,
                             endTime: Option<TimeOfDay>)

  /** The revision written for one field when its key is present and the value differs,
      and none otherwise. */
  function FieldRevision(shiftId: int, fieldName: string, current: FieldValue,
                         requested: Option<FieldValue>, adminId: int,
                         reason: Option<string>): (revs: seq<Revision>)
    ensures |revs| <= 1
    ensures revs != [] <==> requested.Some? && requested.value != current
    ensures forall k :: 0 <= k < |revs| ==>
      && revs[k].shiftId == shiftId && revs[k].fieldName == fieldName
      && revs[k].changedBy == adminId && revs[k].changeReason == reason
      && revs[k].oldValue == Some(Stringify(current))
      && revs[k].newValue == Some(Stringify(requested.value))
      && revs[k].oldValue != revs[k].newValue
  {
    if requested.Some? && requested.value != current
    then [CreateRevision(shiftId, fieldName, Some(current), requested, adminId, reason)]
    else []
  }

  function MapUserId(v: Option<int>): Option<FieldValue> {
    match v
    case None => None
    case Some(n) => Some(UserIdValue(n))
  }

  function MapTime(v: Option<TimeOfDay>): Option<FieldValue> {
    match v
    case None => None
    case Some(t) => Some(TimeValue(t))
  }

  const UserIdField := "user_id"
  const StartTimeField := "start_time"
  const EndTimeField := "end_time"

  /** Position of a field in the order `adjust_shift` examines them. */
  function FieldRank(name: string): int {
    if name == UserIdField then 0 else if name == StartTimeField then 1
    else if name == EndTimeField then 2 else 3
  }

  /** The revisions `adjust_shift` writes for row `s`: worker, start, end, in that order. */
  function AdjustRevisions(s: Shift, shiftId: int, c: Changes, adminId: int,
                           reason: Option<string>): (revs: seq<Revision>)
    ensures |revs| <= 3
  {
    FieldRevision(shiftId, UserIdField, UserIdValue(s.userId), MapUserId(c.userId), adminId, reason)
    + FieldRevision(shiftId, StartTimeField, TimeValue(s.startTime), MapTime(c.startTime), adminId, reason)
    + FieldRevision(shiftId, EndTimeField, TimeValue(s.endTime), MapTime(c.endTime), adminId, reason)
  }

  /** The adjusted row: present fields take their new values, the adjuster is stamped,
      the status becomes `Adjusted` and the version goes up by one, whether or not any
      field actually changed. */
  function AdjustedShift(s: Shift, c: Changes, adminId: int, now: Timestamp): (r: Shift)
    ensures r.userId == c.userId.GetOr(s.userId)
    ensures r.startTime == c.startTime.GetOr(s.startTime)
    ensures r.endTime == c.endTime.GetOr(s.endTime)
    ensures r.status == Adjusted && r.version == s.version + 1
    ensures r.adjustedBy == Some(adminId) && r.adjustedAt == Some(now)
    ensures r.id == s.id && r.groupId == s.groupId && r.date == s.date
    ensures r.createdBy == s.createdBy && r.createdAt == s.createdAt
  {
    s.(userId := c.userId.GetOr(s.userId), startTime := c.startTime.GetOr(s.startTime),
       endTime := c.endTime.GetOr(s.endTime), adjustedBy := Some(adminId),
       adjustedAt := Some(now), status := Adjusted, version := s.version + 1)
  }

  /** Indexing into three concatenated pieces. */
  lemma ConcatAt<T>(a: seq<T>, b: seq<T>, e: seq<T>, k: int)
    requires 0 <= k < |a + b + e|
    ensures (a + b + e)[k] == if k < |a| then a[k] else if k < |a| + |b| then b[k - |a|] else e[k - |a| - |b|]
  {
  }

  /** The three field names are distinct. */
  lemma FieldNamesDistinct()
    ensures UserIdField != StartTimeField && UserIdField != EndTimeField && StartTimeField != EndTimeField
    ensures FieldRank(UserIdField) == 0 && FieldRank(StartTimeField) == 1 && FieldRank(EndTimeField) == 2
  {
    assert |UserIdField| == 7 && |StartTimeField| == 10 && |EndTimeField| == 8;
  }

  /** The current value of a named field of row `s`. */
  function CurrentValue(s: Shift, name: string): Option<FieldValue> {
    if name == UserIdField then Some(UserIdValue(s.userId))
    else if name == StartTimeField then Some(TimeValue(s.startTime))
    else if name == EndTimeField then Some(TimeValue(s.endTime))
    else None
  }

  /** The value `new_data` gives a named field, if its key is present. */
  function RequestedValue(c: Changes, name: string): Option<FieldValue> {
    if name == UserIdField then MapUserId(c.userId)
    else if name == StartTimeField then MapTime(c.startTime)
    else if name == EndTimeField then MapTime(c.endTime)
    else None
  }

  /** Every revision of one adjustment names this shift, this adjuster and this reason,
      is about one of the three fields, and records that field's current value as old
      text and its requested value as new text, the two differing. */
  lemma AdjustRevisionsEntries(s: Shift, shiftId: int, c: Changes, adminId: int,
                               reason: Option<string>)
    ensures var revs := AdjustRevisions(s, shiftId, c, adminId, reason);
      forall k :: 0 <= k < |revs| ==>
        && revs[k].shiftId == shiftId && revs[k].changedBy == adminId
        && revs[k].changeReason == reason && FieldRank(revs[k].fieldName) < 3
        && revs[k].oldValue == StringifyOption(CurrentValue(s, revs[k].fieldName))
        && revs[k].newValue == StringifyOption(RequestedValue(c, revs[k].fieldName))
        && revs[k].oldValue != revs[k].newValue
  {
    var a := FieldRevision(shiftId, UserIdField, UserIdValue(s.userId), MapUserId(c.userId), adminId, reason);
    var b := FieldRevision(shiftId, StartTimeField, TimeValue(s.startTime), MapTime(c.startTime), adminId, reason);
    var e := FieldRevision(shiftId, EndTimeField, TimeValue(s.endTime), MapTime(c.endTime), adminId, reason);
    FieldNamesDistinct();
    forall k | 0 <= k < |a + b + e|
      ensures (a + b + e)[k].shiftId == shiftId && (a + b + e)[k].changedBy == adminId
      ensures (a + b + e)[k].changeReason == reason && FieldRank((a + b + e)[k].fieldName) < 3
      ensures (a + b + e)[k].oldValue == StringifyOption(CurrentValue(s, (a + b + e)[k].fieldName))
      ensures (a + b + e)[k].newValue == StringifyOption(RequestedValue(c, (a + b + e)[k].fieldName))
      ensures (a + b + e)[k].oldValue != (a + b + e)[k].newValue
    {
      ConcatAt(a, b, e, k);
    }
  }

  /** The revisions of one adjustment come worker first, then start, then end, each
      field at most once. */
  lemma AdjustRevisionsOrder(s: Shift, shiftId: int, c: Changes, adminId: int,
                             reason: Option<string>)
    ensures var revs := AdjustRevisions(s, shiftId, c, adminId, reason);
      forall k, l :: 0 <= k < l < |revs| ==> FieldRank(revs[k].fieldName) < FieldRank(revs[l].fieldName)
  {
    var a := FieldRevision(shiftId, UserIdField, UserIdValue(s.userId), MapUserId(c.userId), adminId, reason);
    var b := FieldRevision(shiftId, StartTimeField, TimeValue(s.startTime), MapTime(c.startTime), adminId, reason);
    var e := FieldRevision(shiftId, EndTimeField, TimeValue(s.endTime), MapTime(c.endTime), adminId, reason);
    FieldNamesDistinct();
    forall k | 0 <= k < |a + b + e|
      ensures FieldRank((a + b + e)[k].fieldName) == (if k < |a| then 0 else if k < |a| + |b| then 1 else 2)
    {
      ConcatAt(a, b, e, k);
    }
  }

  /** Some revision in `revs` is about field `name`. */
  predicate Mentions(revs: seq<Revision>, name: string) {
    exists k :: 0 <= k < |revs| && revs[k].fieldName == name
  }

  lemma MentionsConcat(x: seq<Revision>, y: seq<Revision>, name: string)
    ensures Mentions(x + y, name) <==> Mentions(x, name) || Mentions(y, name)
  {
    if Mentions(x + y, name) {
      var k :| 0 <= k < |x + y| && (x + y)[k].fieldName == name;
      if k >= |x| {
        assert y[k - |x|].fieldName == name;
      }
    }
    if Mentions(x, name) {
      var k :| 0 <= k < |x| && x[k].fieldName == name;
      assert (x + y)[k].fieldName == name;
    }
    if Mentions(y, name) {
      var k :| 0 <= k < |y| && y[k].fieldName == name;
      assert (x + y)[|x| + k].fieldName == name;
    }
  }

  /** A field has a revision exactly when its key was given with a value different
      from the row's current one. */
  lemma AdjustRevisionsFields(s: Shift, shiftId: int, c: Changes, adminId: int,
                              reason: Option<string>)
    ensures var revs := AdjustRevisions(s, shiftId, c, adminId, reason);
      && (Mentions(revs, UserIdField) <==> c.userId.Some? && c.userId.value != s.userId)
      && (Mentions(revs, StartTimeField) <==> c.startTime.Some? && c.startTime.value != s.startTime)
      && (Mentions(revs, EndTimeField) <==> c.endTime.Some? && c.endTime.value != s.endTime)
  {
    var a := FieldRevision(shiftId, UserIdField, UserIdValue(s.userId), MapUserId(c.userId), adminId, reason);
    var b := FieldRevision(shiftId, StartTimeField, TimeValue(s.startTime), MapTime(c.startTime), adminId, reason);
    var e := FieldRevision(shiftId, EndTimeField, TimeValue(s.endTime), MapTime(c.endTime), adminId, reason);
    FieldNamesDistinct();
    MentionsConcat(a + b, e, UserIdField);
    MentionsConcat(a, b, UserIdField);
    MentionsConcat(a + b, e, StartTimeField);
    MentionsConcat(a, b, StartTimeField);
    MentionsConcat(a + b, e, EndTimeField);
    MentionsConcat(a, b, EndTimeField);
    if a != [] { assert a[0].fieldName == UserIdField; }
    if b != [] { assert b[0].fieldName == StartTimeField; }
    if e != [] { assert e[0].fieldName == EndTimeField; }
  }

  /** The editable row `adjust_shift` would change: the row with key `shiftId` when it
      exists and its status admits editing. */
  function EditTarget(rows: seq<Shift>, shiftId: int): (k: Option<nat>)
    ensures k.Some? ==> k.value < |rows| && rows[k.value].id == Some(shiftId) && rows[k.value].CanEdit()
    ensures k.None? ==> forall j :: 0 <= j < |rows| && rows[j].id == Some(shiftId) ==>
      exists i :: 0 <= i <= j && rows[i].id == Some(shiftId) && !rows[i].CanEdit()
  {
    match Locate(rows, shiftId)
    case None => None
    case Some(k) => if rows[k].CanEdit() then Some(k) else None
  }

  /** The first row whose primary key is `id` (`query(...).filter(id == ...).first()`). */
  function Locate(rows: seq<Shift>, id: int): (k: Option<nat>)
    ensures k.Some? ==>
      && k.value < |rows| && rows[k.value].id == Some(id)
      && forall j :: 0 <= j < k.value ==> rows[j].id != Some(id)
    ensures k.None? ==> forall j :: 0 <= j < |rows| ==> rows[j].id != Some(id)
  {
    if rows == [] then None
    else if rows[0].id == Some(id) then Some(0)
    else match Locate(rows[1..], id)
      case None => None
      case Some(k) => Some(k + 1)
  }

  /** The table after `adjust_shift`: the located row replaced by its adjusted form when
      it is editable; the table unchanged when the id is unknown or the row is not. */
  function AdjustRows(rows: seq<Shift>, shiftId: int, c: Changes, adminId: int,
                      now: Timestamp): (r: seq<Shift>)
    ensures |r| == |rows|
  {
    match EditTarget(rows, shiftId)
    case None => rows
    case Some(k) => rows[k := AdjustedShift(rows[k], c, adminId, now)]
  }

  /** The revisions `adjust_shift` builds for row `s`, one comparison per field. */
  method Revise(s: Shift, shiftId: int, c: Changes, adminId: int, reason: Option<string>)
    returns (revs: seq<Revision>)
    ensures revs == AdjustRevisions(s, shiftId, c, adminId, reason)
  {
    revs := [];
    revs := revs + FieldRevision(shiftId, UserIdField, UserIdValue(s.userId), MapUserId(c.userId), adminId, reason);
    revs := revs + FieldRevision(shiftId, StartTimeField, TimeValue(s.startTime), MapTime(c.startTime), adminId, reason);
    revs := revs + FieldRevision(shiftId, EndTimeField, TimeValue(s.endTime), MapTime(c.endTime), adminId, reason);
  }

  // ---------------------------------------------------------------------------------
  // The workflow as a sequence of transactions
  // ---------------------------------------------------------------------------------

  /** One successful service call that writes shift rows. */
  datatype Op =
    | CreateDrafts(shifts: seq<Shift>, adminId: int, now: Timestamp)
    | Group(op: GroupOp)
    | Adjust(shiftId: int, changes: Changes, adminId: int, now: Timestamp)

  /** The shift table after one call. */
  function Step(rows: seq<Shift>, op: Op): (r: seq<Shift>)
    ensures |rows| <= |r|
  {
    match op
    case CreateDrafts(shifts, adminId, now) => rows + Drafted(shifts, adminId, now, |rows|)
    case Group(g) => Applied(g, rows)
    case Adjust(id, c, adminId, now) => AdjustRows(rows, id, c, adminId, now)
  }

  /** The shift table after a sequence of calls, first to last. */
  function Run(rows: seq<Shift>, ops: seq<Op>): (r: seq<Shift>)
    ensures |rows| <= |r|
    decreases |ops|
  {
    if ops == [] then rows else Run(Step(rows, ops[0]), ops[1..])
  }

  /** Rows are kept at their positions: no call deletes or reorders a row, and a row
      keeps its primary key. */
  lemma StepKeepsKeys(rows: seq<Shift>, op: Op, i: int)
    requires 0 <= i < |rows|
    ensures Step(rows, op)[i].id == rows[i].id
  {
  }

  /** A published row is frozen: no call changes it. */
  lemma StepKeepsPublished(rows: seq<Shift>, op: Op, i: int)
    requires 0 <= i < |rows| && rows[i].status == Published
    ensures Step(rows, op)[i] == rows[i]
  {
  }

  /** No call ever moves a row into `Pending` or `Rejected`: a row in either status
      afterwards was already there, unchanged. */
  lemma StepProducesNoPendingOrRejected(rows: seq<Shift>, op: Op, i: int)
    requires 0 <= i < |Step(rows, op)|
    requires Step(rows, op)[i].status == Pending || Step(rows, op)[i].status == Rejected
    ensures i < |rows| && Step(rows, op)[i] == rows[i]
  {
  }

  /** Over any run of calls, a published row stays exactly as it was. */
  lemma {:induction false} RunKeepsPublished(rows: seq<Shift>, ops: seq<Op>, i: int)
    requires 0 <= i < |rows| && rows[i].status == Published
    ensures i < |Run(rows, ops)| && Run(rows, ops)[i] == rows[i]
    decreases |ops|
  {
    if ops != [] {
      StepKeepsPublished(rows, ops[0], i);
      RunKeepsPublished(Step(rows, ops[0]), ops[1..], i);
    }
  }

  /** Starting from a table with no `Rejected` row (and inserting none), no run of calls
      ever produces one: the `Rejected` status is never assigned. */
  lemma {:induction false} RunNeverRejects(rows: seq<Shift>, ops: seq<Op>)
    requires forall i :: 0 <= i < |rows| ==> rows[i].status != Rejected
    ensures forall i :: 0 <= i < |Run(rows, ops)| ==> Run(rows, ops)[i].status != Rejected
    decreases |ops|
  {
    if ops != [] {
      var next := Step(rows, ops[0]);
      forall i | 0 <= i < |next|
        ensures next[i].status != Rejected
      {
        if next[i].status == Rejected {
          StepProducesNoPendingOrRejected(rows, ops[0], i);
        }
      }
      RunNeverRejects(next, ops[1..]);
    }
  }

  /** The intended path: a draft row taken through start-adjustment, an adjustment,
      approval and publication of its group ends up published, one version later. */
  lemma HappyPath(s: Shift, c: Changes, admin: int, approver: int, publisher: int,
                  t1: Timestamp, t2: Timestamp, t3: Timestamp)
    requires s.status == Draft
    ensures var g := s.groupId;
      var r := GroupStep(Publish(g, publisher, t3),
                 GroupStep(Approve(g, approver, t2),
                   AdjustedShift(GroupStep(StartAdjust(g), s), c, admin, t1)));
      r.status == Published && r.version == s.version + 1 && r.id == s.id
      && r.approvedBy == Some(approver) && r.publishedBy == Some(publisher)
  {
  }

  /** Approval does not skip adjustment: approving a group whose rows are still
      `Draft` or `Adjusting` changes none of them. */
  lemma ApproveNeedsAdjustment(g: string, who: int, at: Timestamp, s: Shift)
    requires s.status == Draft || s.status == Adjusting
    ensures GroupStep(Approve(g, who, at), s) == s
  {
  }

  // ---------------------------------------------------------------------------------
  // Reads
  // ---------------------------------------------------------------------------------

  /** The group's rows still in preparation (draft, adjusting or adjusted), in table order. */
  function DraftsOf(rows: seq<Shift>, groupId: string): (r: seq<Shift>)
    ensures |r| <= |rows|
    ensures forall x :: x in r <==>
      x in rows && x.groupId == groupId && (x.status == Draft || x.status == Adjusting || x.status == Adjusted)
  {
    if rows == [] then []
    else
      var x := rows[|rows| - 1];
      var rest := DraftsOf(rows[..|rows| - 1], groupId);
      assert rows == rows[..|rows| - 1] + [x];
      if x.groupId == groupId && (x.status == Draft || x.status == Adjusting || x.status == Adjusted)
      then rest + [x] else rest
  }

  /** The published rows of one worker dated within `[startDate, endDate]`. */
  function PublishedFor(rows: seq<Shift>, userId: int, startDate: Day, endDate: Day): (r: seq<Shift>)
    ensures |r| <= |rows|
    ensures forall x :: x in r <==>
      x in rows && x.userId == userId && x.status == Published && startDate <= x.date <= endDate
  {
    if rows == [] then []
    else
      var x := rows[|rows| - 1];
      var rest := PublishedFor(rows[..|rows| - 1], userId, startDate, endDate);
      assert rows == rows[..|rows| - 1] + [x];
      if x.userId == userId && x.status == Published && startDate <= x.date <= endDate
      then rest + [x] else rest
  }

  /** The `ORDER BY date, start_time` key. */
  function ScheduleKey(s: Shift): int {
    s.date * MinutesPerDay + MinuteOfDay(s.startTime)
  }

  /** Ordering by `ScheduleKey` is ordering by date first and start time second. */
  lemma ScheduleKeyOrder(a: Shift, b: Shift)
    ensures ScheduleKey(a) <= ScheduleKey(b) <==>
      a.date < b.date || (a.date == b.date && MinuteOfDay(a.startTime) <= MinuteOfDay(b.startTime))
  {
    if a.date < b.date {
      assert ScheduleKey(a) < a.date * MinutesPerDay + MinutesPerDay <= ScheduleKey(b);
    } else if b.date < a.date {
      assert ScheduleKey(b) < b.date * MinutesPerDay + MinutesPerDay <= ScheduleKey(a);
    }
  }

  // ---------------------------------------------------------------------------------
  // The service
  // ---------------------------------------------------------------------------------

  /** Row `i` carries key `i + 1` (auto-increment, no deletion) and every revision
      refers to a stored row. */
  ghost predicate WellKeyed(rows: seq<Shift>, revisions: seq<Revision>) {
    && (forall i :: 0 <= i < |rows| ==> rows[i].id == Some(i + 1))
    && (forall k :: 0 <= k < |revisions| ==> 1 <= revisions[k].shiftId <= |rows|)
  }

  /** Replacing a row by one with the same key and logging revisions about that row
      keeps the table well keyed. */
  lemma AdjustKeepsKeys(rows: seq<Shift>, revisions: seq<Revision>, k: int, r: Shift,
                        revs: seq<Revision>)
    requires WellKeyed(rows, revisions) && 0 <= k < |rows| && r.id == rows[k].id
    requires forall j :: 0 <= j < |revs| ==> revs[j].shiftId == k + 1
    ensures WellKeyed(rows[k := r], revisions + revs)
  {
    var revisions' := revisions + revs;
    forall j | 0 <= j < |revisions'|
      ensures 1 <= revisions'[j].shiftId <= |rows|
    {
      if j >= |revisions| {
        assert revisions'[j] == revs[j - |revisions|];
      }
    }
  }

  /** In a well-keyed table the row with key `id` sits at position `id - 1`, so an
      adjustment finds its row exactly when that position exists and is editable. */
  lemma KeyedEditTarget(rows: seq<Shift>, revisions: seq<Revision>, id: int)
    requires WellKeyed(rows, revisions)
    ensures EditTarget(rows, id).Some? <==> 1 <= id <= |rows| && rows[id - 1].CanEdit()
    ensures EditTarget(rows, id).Some? ==> EditTarget(rows, id).value == id - 1
  {
    var k := Locate(rows, id);
    if 1 <= id <= |rows| {
      assert rows[id - 1].id == Some(id);
      assert k.Some? && rows[k.value].id == Some(k.value + 1);
    } else {
      forall j | 0 <= j < |rows|
        ensures rows[j].id != Some(id)
      {
        assert rows[j].id == Some(j + 1);
      }
    }
  }

  /** A group operation keeps the table well keyed. */
  lemma GroupKeepsKeys(op: GroupOp, rows: seq<Shift>, revisions: seq<Revision>)
    requires WellKeyed(rows, revisions)
    ensures WellKeyed(Applied(op, rows), revisions)
  {
  }

  /** Counting one more row. */
  lemma CountEligibleStep(op: GroupOp, rows: seq<Shift>, i: int)
    requires 0 <= i < |rows|
    ensures CountEligible(op, rows[..i + 1]) ==
      CountEligible(op, rows[..i]) + if Eligible(op, rows[i]) then 1 else 0
  {
    assert rows[..i + 1][..i] == rows[..i];
  }

  datatype AuditAction =
    CreateDraftShiftsAction | StartAdjustmentAction | AdjustShiftAction
    | ApproveShiftsAction | PublishShiftsAction | RejectShiftsAction

  /** What a successful call records as accessed data. */
  datatype AuditData =
    | ShiftsCreated(count: nat)
    | GroupSelected(groupId: string)
    | FieldsChanged(count: nat)
    | ShiftsApproved(count: nat)
    | ShiftsPublished(count: nat)
    | ShiftsRejected(count: nat, reason: string)

  /** One audit-log entry of a successful call. */
  datatype AuditEntry = AuditEntry(action: AuditAction, actorId: int, resourceId: Option<int>,
                                   accessed: AuditData)

  /** The shift table, the revision table and the audit log, updated one transaction
      per method. */
  class ShiftStore {
    var rows: seq<Shift>
    var revisions: seq<Revision>
    var auditLog: seq<AuditEntry>

    /** Keys are assigned by auto-increment and rows are never deleted, so row `i`
        carries key `i + 1`; every revision refers to a stored shift. */
    ghost predicate Valid()
      reads this
    {
      WellKeyed(rows, revisions)
    }

    constructor ()
      ensures Valid() && rows == [] && revisions == [] && auditLog == []
    {
      rows, revisions, auditLog := [], [], [];
    }

    /** `create_draft_shifts`: inserts every given shift as a draft of `adminId`. */
    method CreateDraftShifts(shifts: seq<Shift>, adminId: int, now: Timestamp) returns (ok: bool)
      requires Valid()
      modifies this
      ensures Valid() && ok
      ensures rows == Step(old(rows), CreateDrafts(shifts, adminId, now))
      ensures revisions == old(revisions)
      ensures auditLog == old(auditLog)
        + [AuditEntry(CreateDraftShiftsAction, adminId, None, ShiftsCreated(|shifts|))]
    {
      ghost var before := rows;
      var i := 0;
      while i < |shifts|
        invariant 0 <= i <= |shifts|
        invariant |rows| == |before| + i && rows[..|before|] == before
        invariant forall k :: 0 <= k < i ==>
          rows[|before| + k] == AsDraft(shifts[k], adminId, now, |before| + k + 1)
        invariant Valid() && revisions == old(revisions) && auditLog == old(auditLog)
      {
        rows := rows + [AsDraft(shifts[i], adminId, now, |rows| + 1)];
        i := i + 1;
      }
      assert rows == before + Drafted(shifts, adminId, now, |before|);
      auditLog := auditLog + [AuditEntry(CreateDraftShiftsAction, adminId, None, ShiftsCreated(|shifts|))];
      ok := true;
    }

    /** `get_draft_shifts`: refused (`None`) unless the caller may adjust shifts;
        otherwise the group's rows in preparation. */
    method GetDraftShifts(groupId: string, admin: User) returns (r: Option<seq<Shift>>)
      ensures r.None? <==> !admin.CanAdjustShifts()
      ensures r.Some? ==> r.value == DraftsOf(rows, groupId)
    {
      if !admin.CanAdjustShifts() {
        return None;
      }
      var found: seq<Shift> := [];
      var i := 0;
      while i < |rows|
        invariant 0 <= i <= |rows|
        invariant found == DraftsOf(rows[..i], groupId)
      {
        assert rows[..i + 1][..i] == rows[..i];
        var x := rows[i];
        if x.groupId == groupId && (x.status == Draft || x.status == Adjusting || x.status == Adjusted) {
          found := found + [x];
        }
        i := i + 1;
      }
      assert rows[..|rows|] == rows;
      r := Some(found);
    }

    /** Applies a group operation to every selected row; `n` is how many there were. */
    method ApplyGroup(op: GroupOp) returns (n: nat)
      modifies this`rows
      ensures rows == Applied(op, old(rows))
      ensures n == CountEligible(op, old(rows))
    {
      ghost var before := rows;
      n := 0;
      var i := 0;
      while i < |rows|
        invariant 0 <= i <= |rows| == |before|
        invariant forall k :: 0 <= k < i ==> rows[k] == GroupStep(op, before[k])
        invariant forall k :: i <= k < |rows| ==> rows[k] == before[k]
        invariant n == CountEligible(op, before[..i])
      {
        CountEligibleStep(op, before, i);
        if Eligible(op, rows[i]) {
          rows := rows[i := GroupStep(op, rows[i])];
          n := n + 1;
        }
        i := i + 1;
      }
      assert before[..|before|] == before;
      assert rows == Applied(op, before);
    }

    /** `start_adjustment`: the group's drafts become `Adjusting`; succeeds even when
        there are none. */
    method StartAdjustment(groupId: string, adminId: int) returns (ok: bool)
      requires Valid()
      modifies this
      ensures Valid() && ok
      ensures rows == Step(old(rows), Group(StartAdjust(groupId)))
      ensures revisions == old(revisions)
      ensures auditLog == old(auditLog)
        + [AuditEntry(StartAdjustmentAction, adminId, None, GroupSelected(groupId))]
    {
      var _ := ApplyGroup(StartAdjust(groupId));
      GroupKeepsKeys(StartAdjust(groupId), old(rows), revisions);
      auditLog := auditLog + [AuditEntry(StartAdjustmentAction, adminId, None, GroupSelected(groupId))];
      ok := true;
    }

    /** The lookup of a row by primary key. */
    method FindShift(shiftId: int) returns (k: Option<nat>)
      ensures k == Locate(rows, shiftId)
    {
      var i := 0;
      while i < |rows| && rows[i].id != Some(shiftId)
        invariant 0 <= i <= |rows|
        invariant forall j :: 0 <= j < i ==> rows[j].id != Some(shiftId)
      {
        i := i + 1;
      }
      if i == |rows| {
        k := None;
      } else {
        assert rows[i].id == Some(shiftId);
        k := Some(i);
      }
    }

    /** `adjust_shift`: fails, changing nothing, when no row has key `shiftId` or the
        row is not editable; otherwise writes one revision per changed field and stores
        the adjusted row. */
    method AdjustShift(shiftId: int, c: Changes, adminId: int, reason: Option<string>,
                       now: Timestamp) returns (ok: bool)
      requires Valid()
      modifies this
      ensures Valid()
      ensures ok <==> EditTarget(old(rows), shiftId).Some?
      ensures ok <==> 1 <= shiftId <= |old(rows)| && old(rows)[shiftId - 1].CanEdit()
      ensures rows == Step(old(rows), Adjust(shiftId, c, adminId, now))
      ensures ok ==>
        revisions == old(revisions)
          + AdjustRevisions(old(rows)[EditTarget(old(rows), shiftId).value], shiftId, c, adminId, reason)
      ensures ok ==>
        auditLog == old(auditLog)
          + [AuditEntry(AdjustShiftAction, adminId, Some(shiftId), FieldsChanged(|revisions| - |old(revisions)|))]
      ensures !ok ==> revisions == old(revisions) && auditLog == old(auditLog)
    {
      KeyedEditTarget(rows, revisions, shiftId);
      var found := FindShift(shiftId);
      if found.None? || !rows[found.value].CanEdit() {
        return false;
      }
      StoreAdjusted(found.value, shiftId, c, adminId, reason, now);
      ok := true;
    }

    /** The success path of `adjust_shift`: row `k`, whose key is `shiftId`, is replaced
        by its adjusted form, its revisions are appended and their count is logged. */
    method StoreAdjusted(k: nat, shiftId: int, c: Changes, adminId: int, reason: Option<string>,
                         now: Timestamp)
      requires Valid() && k < |rows| && rows[k].id == Some(shiftId)
      modifies this
      ensures Valid()
      ensures rows == old(rows)[k := AdjustedShift(old(rows)[k], c, adminId, now)]
      ensures revisions == old(revisions) + AdjustRevisions(old(rows)[k], shiftId, c, adminId, reason)
      ensures auditLog == old(auditLog)
        + [AuditEntry(AdjustShiftAction, adminId, Some(shiftId), FieldsChanged(|revisions| - |old(revisions)|))]
    {
      var s := rows[k];
      var revs := Revise(s, shiftId, c, adminId, reason);
      AdjustRevisionsEntries(s, shiftId, c, adminId, reason);
      AdjustKeepsKeys(rows, revisions, k, AdjustedShift(s, c, adminId, now), revs);
      rows := rows[k := AdjustedShift(s, c, adminId, now)];
      revisions := revisions + revs;
      auditLog := auditLog + [AuditEntry(AdjustShiftAction, adminId, Some(shiftId), FieldsChanged(|revs|))];
    }

    /** `approve_shifts`: the group's adjusted and pending rows become `Approved`. */
    method ApproveShifts(groupId: string, approverId: int, now: Timestamp) returns (ok: bool)
      requires Valid()
      modifies this
      ensures Valid() && ok
      ensures rows == Step(old(rows), Group(Approve(groupId, approverId, now)))
      ensures revisions == old(revisions)
      ensures auditLog == old(auditLog) + [AuditEntry(ApproveShiftsAction, approverId, None,
        ShiftsApproved(CountEligible(Approve(groupId, approverId, now), old(rows))))]
    {
      var n := ApplyGroup(Approve(groupId, approverId, now));
      GroupKeepsKeys(Approve(groupId, approverId, now), old(rows), revisions);
      auditLog := auditLog + [AuditEntry(ApproveShiftsAction, approverId, None, ShiftsApproved(n))];
      ok := true;
    }

    /** `publish_shifts`: the group's approved rows become `Published`. */
    method PublishShifts(groupId: string, publisherId: int, now: Timestamp) returns (ok: bool)
      requires Valid()
      modifies this
      ensures Valid() && ok
      ensures rows == Step(old(rows), Group(Publish(groupId, publisherId, now)))
      ensures revisions == old(revisions)
      ensures auditLog == old(auditLog) + [AuditEntry(PublishShiftsAction, publisherId, None,
        ShiftsPublished(CountEligible(Publish(groupId, publisherId, now), old(rows))))]
    {
      var n := ApplyGroup(Publish(groupId, publisherId, now));
      GroupKeepsKeys(Publish(groupId, publisherId, now), old(rows), revisions);
      auditLog := auditLog + [AuditEntry(PublishShiftsAction, publisherId, None, ShiftsPublished(n))];
      ok := true;
    }

    /** `reject_shifts`: the group's adjusted, pending and approved rows go back to
        `Draft` with the rejecter and reason recorded. */
    method RejectShifts(groupId: string, rejecterId: int, reason: string, now: Timestamp)
      returns (ok: bool)
      requires Valid()
      modifies this
      ensures Valid() && ok
      ensures rows == Step(old(rows), Group(Reject(groupId, rejecterId, now, reason)))
      ensures revisions == old(revisions)
      ensures auditLog == old(auditLog) + [AuditEntry(RejectShiftsAction, rejecterId, None,
        ShiftsRejected(CountEligible(Reject(groupId, rejecterId, now, reason), old(rows)), reason))]
    {
      var n := ApplyGroup(Reject(groupId, rejecterId, now, reason));
      GroupKeepsKeys(Reject(groupId, rejecterId, now, reason), old(rows), revisions);
      auditLog := auditLog + [AuditEntry(RejectShiftsAction, rejecterId, None, ShiftsRejected(n, reason))];
      ok := true;
    }

    /** `get_published_shifts_for_user`: exactly the worker's published rows in the
        date range, ordered by date and start time. */
    method GetPublishedShiftsForUser(userId: int, startDate: Day, endDate: Day)
      returns (r: seq<Shift>)
      ensures SortedBy(r, ScheduleKey)
      ensures multiset(r) == multiset(PublishedFor(rows, userId, startDate, endDate))
      ensures forall x :: x in r <==>
        x in rows && x.userId == userId && x.status == Published && startDate <= x.date <= endDate
    {
      var found: seq<Shift> := [];
      var i := 0;
      while i < |rows|
        invariant 0 <= i <= |rows|
        invariant found == PublishedFor(rows[..i], userId, startDate, endDate)
      {
        assert rows[..i + 1][..i] == rows[..i];
        var x := rows[i];
        if x.userId == userId && x.status == Published && startDate <= x.date <= endDate {
          found := found + [x];
        }
        i := i + 1;
      }
      assert rows[..|rows|] == rows;
      r := SortBy(found, ScheduleKey);
      forall x ensures x in r <==> x in found {
        assert x in r <==> x in multiset(r);
        assert x in found <==> x in multiset(found);
      }
    }
  }
}
