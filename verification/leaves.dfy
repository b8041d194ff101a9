/**
 `LeaveRequest.duration`: the number of calendar days a leave request covers,
 counting both the first and the last day. The request's dates are not checked
 against each other, so an end date before the start date gives a duration of
 zero or less.
 */
module Leaves {
  import opened Calendar

  datatype LeaveRequest = LeaveRequest(startDate: CalendarDate, endDate: CalendarDate)

  /** `(end_date - start_date).days + 1`. */
  function Duration(r: LeaveRequest): (n: int)
    ensures n >= 1 <==> !Before(r.endDate, r.startDate)
    ensures n == 1 <==> r.startDate == r.endDate
  {
    var n := Ordinal(r.endDate) - Ordinal(r.startDate) + 1;
    if Before(r.endDate, r.startDate) then
      OrdinalMonotone(r.endDate, r.startDate);
      n
    else if Before(r.startDate, r.endDate) then
      OrdinalMonotone(r.startDate, r.endDate);
      n
    else
      n
  }

  /** A request from one day to the next covers two days. */
  lemma DurationOfConsecutiveDays(d: CalendarDate)
    requires d != MaxDate
    ensures Duration(LeaveRequest(d, NextDay(d))) == 2
  {
    NextDayOrdinal(d);
  }

  /** Extending a request by one day lengthens it by one day. */
  lemma DurationExtendByOneDay(r: LeaveRequest)
    requires r.endDate != MaxDate
    ensures Duration(LeaveRequest(r.startDate, NextDay(r.endDate))) == Duration(r) + 1
  {
    NextDayOrdinal(r.endDate);
  }
}
