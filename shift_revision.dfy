/** Field-level change records written by shift adjustment (models/shift_revision.py). */
module Revisions {
  import opened Wrappers
  import opened Clock
  import opened Text

  /** The values an adjustment can change: a worker id or a time of day. */
  datatype FieldValue = UserIdValue(userId: int) | TimeValue(time: TimeOfDay)

  /** Python's `str(value)`: an integer in decimal, which holds no colon; a `time` as
      `HH:MM:SS`, whose digit pairs read back as its hour and minute and whose seconds
      are always "00". */
  function Stringify(v: FieldValue): (r: string)
    ensures v.UserIdValue? ==> r == IntToString(v.userId) && forall i :: 0 <= i < |r| ==> r[i] != ':'
    ensures v.TimeValue? ==> |r| == 8 && r[2] == ':' && r[5] == ':' && r[6..] == "00"
    ensures v.TimeValue? ==> IsDigit(r[0]) && IsDigit(r[1]) && IsDigit(r[3]) && IsDigit(r[4])
    ensures v.TimeValue? ==> DigitValue(r[0]) * 10 + DigitValue(r[1]) == v.time.hour
    ensures v.TimeValue? ==> DigitValue(r[3]) * 10 + DigitValue(r[4]) == v.time.minute
  {
    match v
    case UserIdValue(n) => IntStringHasNoColon(n); IntToString(n)
    case TimeValue(t) => Pad2(t.hour) + ":" + Pad2(t.minute) + ":00"
  }

  /** No character of an integer's rendering is a colon. */
  lemma IntStringHasNoColon(n: int)
    ensures forall i :: 0 <= i < |IntToString(n)| ==> IntToString(n)[i] != ':'
  {
    if n < 0 {
      forall i | 0 < i < |IntToString(n)|
        ensures IntToString(n)[i] != ':'
      {
        assert IntToString(n)[i] == NatToString(-n)[i - 1];
      }
    }
  }

  /** Different field values never render to the same text, so a revision's old and new
      text tell the two values apart. */
  lemma StringifyInjective(a: FieldValue, b: FieldValue)
    requires Stringify(a) == Stringify(b)
    ensures a == b
  {
    if a.UserIdValue? && b.UserIdValue? {
      IntToStringInjective(a.userId, b.userId);
    }
  }

  /** Lifting of `StringifyInjective` to optional values. */
  lemma StringifyOptionInjective(a: Option<FieldValue>, b: Option<FieldValue>)
    ensures StringifyOption(a) == StringifyOption(b) ==> a == b
  {
    if a.Some? && b.Some? && Stringify(a.value) == Stringify(b.value) {
      StringifyInjective(a.value, b.value);
    }
  }

  /** A shift revision: which field of which shift changed, from what to what, by whom
      and why. Values are stored as text; a missing value stays `None`. */
  datatype Revision = Revision(
    shiftId: int,
    fieldName: string,
    oldValue: Option<string>,
    newValue: Option<string>,
    changedBy: int,
    changeReason: Option<string>)

  /** `str(v)` for a present value, `None` for a missing one. */
  function StringifyOption(v: Option<FieldValue>): (r: Option<string>)
    ensures r.None? <==> v.None?
  {
    match v
    case None => None
    case Some(x) => Some(Stringify(x))
  }

  /** `create_revision`: identifiers and reason copied, each value stringified on its own
      with `None` preserved; a real change always yields different old and new text. */
  function CreateRevision(shiftId: int, fieldName: string, oldValue: Option<FieldValue>,
                          newValue: Option<FieldValue>, changedBy: int,
                          reason: Option<string> := None): (r: Revision)
    ensures r.shiftId == shiftId && r.fieldName == fieldName && r.changedBy == changedBy
    ensures r.changeReason == reason
    ensures r.oldValue.None? <==> oldValue.None?
    ensures r.newValue.None? <==> newValue.None?
    ensures oldValue.Some? ==> r.oldValue == Some(Stringify(oldValue.value))
    ensures newValue.Some? ==> r.newValue == Some(Stringify(newValue.value))
    ensures oldValue != newValue ==> r.oldValue != r.newValue
  {
    StringifyOptionInjective(oldValue, newValue);
    Revision(shiftId, fieldName, StringifyOption(oldValue), StringifyOption(newValue),
             changedBy, reason)
  }
}
