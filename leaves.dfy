/**
 * Leave requests: the `LeaveRequest` rows, their length in days, the request form, and
 * the `leaves` routes that file a request, decide it once, and list what a user may see.
 */
module Leaves {
  import opened Common
  import opened Calendar
  import opened Text
  import opened Users
  import opened Forms

  /** One `LeaveRequest` row. */
  datatype LeaveRequest = LeaveRequest(id: int, employeeId: int, approverId: Option<int>, leaveType: string,
                                       start: Date, end: Date, status: string, reason: string, comment: string)

  /**
   * `LeaveRequest.duration_days`: both ends count, so a leave starting and ending on the
   * same day lasts one day; 0 when a date is missing.
   */
  function DurationDays(start: Option<Date>, end: Option<Date>): (n: int)
    ensures start.None? || end.None? ==> n == 0
    ensures start.Some? && end.Some? ==> (n >= 1 <==> NotAfter(start.value, end.value))
    ensures start.Some? && end.Some? && start.value == end.value ==> n == 1
  {
    if start.Some? && end.Some? then DaysBetween(start.value, end.value) + 1 else 0
  }

  /** Cutting a leave after day `mid` splits its days between the two parts. */
  lemma DurationSplits(start: Date, mid: Date, next: Date, end: Date)
    requires Ordinal(next) == Ordinal(mid) + 1
    ensures DurationDays(Some(start), Some(end)) ==
      DurationDays(Some(start), Some(mid)) + DurationDays(Some(next), Some(end))
  {
  }

  /** The leave types `LeaveRequestForm` offers. */
  predicate LeaveType(t: string)
  {
    t == "vacation" || t == "sick" || t == "personal" || t == "bereavement" || t == "maternity" ||
    t == "paternity" || t == "professional" || t == "sabbatical" || t == "unpaid"
  }

  /** A `LeaveRequestForm` submission; `None` is a date left empty. */
  datatype LeaveForm = LeaveForm(leaveType: string, start: Option<Date>, end: Option<Date>, reason: string)

  /**
   * `LeaveRequestForm.validate_on_submit()`: a listed type, both dates with the end not
   * before the start, and a reason that is not blank and at most 500 characters. With no
   * start date, `validate_end_date` compares with `None` and raises.
   */
  function LeaveFormCheck(f: LeaveForm): (c: Check)
    ensures c == Accepted <==>
      (LeaveType(f.leaveType) && f.start.Some? && f.end.Some? &&
       NotAfter(f.start.value, f.end.value) && Strip(f.reason) != "" && |f.reason| <= 500)
    ensures c == Crashed <==> f.start.None? && f.end.Some?
  {
    var dates := EndDateCheck(f.start, f.end);
    if dates == Crashed then Crashed
    else if dates == Accepted && LeaveType(f.leaveType) && Strip(f.reason) != "" && |f.reason| <= 500 then Accepted
    else Rejected
  }

  /** An accepted request lasts at least one day. */
  lemma AcceptedLeaveLasts(f: LeaveForm)
    requires LeaveFormCheck(f) == Accepted
    ensures DurationDays(f.start, f.end) >= 1
  {
  }

  /** The position of the request with id `id`, if there is one. */
  function Find(requests: seq<LeaveRequest>, id: int): (k: Option<nat>)
    ensures k.Some? ==> k.value < |requests| && requests[k.value].id == id
    ensures k.None? ==> forall i :: 0 <= i < |requests| ==> requests[i].id != id
  {
    if |requests| == 0 then None
    else if requests[|requests| - 1].id == id then Some(|requests| - 1)
    else Find(requests[..|requests| - 1], id)
  }

  /** How `process` ends. */
  datatype Outcome = Forbidden | NotFound | AlreadyProcessed | Invalid | Decided

  /** The choices of `LeaveApprovalForm`. */
  predicate Decision(s: string) { s == "approved" || s == "denied" }

  /** The `LeaveRequest` table. */
  class LeaveBook {
    var requests: seq<LeaveRequest>

    constructor ()
      ensures requests == []
    {
      requests := [];
    }

    /**
     * `new`: an accepted form files one request of the current user, `pending` and with no
     * approver; anything else files nothing (`Crashed` is the error the form raises).
     */
    method New(user: User, f: LeaveForm, newId: int) returns (c: Check)
      modifies this
      ensures c == LeaveFormCheck(f)
      ensures c == Accepted ==>
        requests == old(requests) +
                    [LeaveRequest(newId, user.id, None, f.leaveType, f.start.value, f.end.value, "pending", f.reason, "")]
      ensures c != Accepted ==> requests == old(requests)
    {
      c := LeaveFormCheck(f);
      if c == Accepted {
        requests := requests + [LeaveRequest(newId, user.id, None, f.leaveType, f.start.value, f.end.value,
                                             "pending", f.reason, "")];
      }
    }

    /**
     * `process`: only HR and administrators; a missing request is a 404; a request that is
     * no longer pending is refused; otherwise a valid decision sets the status, the comment
     * and the approver, so a request is decided at most once.
     */
    method Process(user: User, leaveId: int, decision: string, comment: string) returns (outcome: Outcome)
      modifies this
      ensures outcome == Forbidden <==> !IsStaff(user)
      ensures outcome == NotFound <==> IsStaff(user) && Find(old(requests), leaveId).None?
      ensures outcome == AlreadyProcessed <==>
        (IsStaff(user) && Find(old(requests), leaveId).Some? &&
         old(requests)[Find(old(requests), leaveId).value].status != "pending")
      ensures outcome == Decided <==>
        (IsStaff(user) && Find(old(requests), leaveId).Some? &&
         old(requests)[Find(old(requests), leaveId).value].status == "pending" &&
         Decision(decision) && |comment| <= 500)
      ensures outcome != Decided ==> requests == old(requests)
      ensures outcome == Decided ==>
        var k := Find(old(requests), leaveId).value;
        requests == old(requests)[k := old(requests)[k].(status := decision, comment := comment, approverId := Some(user.id))]
    {
      if !IsStaff(user) {
        return Forbidden;
      }
      var found := Find(requests, leaveId);
      if found.None? {
        return NotFound;
      }
      var k := found.value;
      if requests[k].status != "pending" {
        return AlreadyProcessed;
      }
      if !Decision(decision) || |comment| > 500 {
        return Invalid;
      }
      requests := requests[k := requests[k].(status := decision, comment := comment, approverId := Some(user.id))];
      outcome := Decided;
    }
  }

  /** Requests of `rs` in one of the given states, optionally only one employee's. */
  function Select(rs: seq<LeaveRequest>, owner: Option<int>, states: set<string>): (r: seq<LeaveRequest>)
    ensures forall x :: x in r <==> x in rs && x.status in states && (owner.None? || x.employeeId == owner.value)
  {
    if |rs| == 0 then []
    else
      var x := rs[|rs| - 1];
      var rest := Select(rs[..|rs| - 1], owner, states);
      assert rs == rs[..|rs| - 1] + [x];
      if x.status in states && (owner.None? || x.employeeId == owner.value) then rest + [x] else rest
  }

  /** The two lists of `index`: pending requests, and the decided ones. */
  datatype LeaveLists = LeaveLists(pending: seq<LeaveRequest>, processed: seq<LeaveRequest>)

  /**
   * `index`: HR and administrators see every pending request and the ten most recently
   * decided ones (`rs` comes newest first); everyone else sees only their own.
   */
  function Index(rs: seq<LeaveRequest>, user: User): (lists: LeaveLists)
    ensures IsStaff(user) ==> |lists.processed| <= 10
    ensures forall x :: x in lists.pending ==> x in rs && x.status == "pending"
    ensures forall x :: x in lists.processed ==> x in rs && Decision(x.status)
    ensures !IsStaff(user) ==> forall x :: x in rs && x.employeeId == user.id && x.status == "pending" ==> x in lists.pending
    ensures !IsStaff(user) ==> forall x :: x in rs && x.employeeId == user.id && Decision(x.status) ==> x in lists.processed
    ensures IsStaff(user) ==> forall x :: x in rs && x.status == "pending" ==> x in lists.pending
    ensures IsStaff(user) ==>
      var decided := Select(rs, None, {"approved", "denied"});
      lists.processed == decided[..if |decided| < 10 then |decided| else 10]
    ensures IsStaff(user) && |Select(rs, None, {"approved", "denied"})| <= 10 ==>
      forall x :: x in rs && Decision(x.status) ==> x in lists.processed
  {
    var owner := if IsStaff(user) then None else Some(user.id);
    var decided := Select(rs, owner, {"approved", "denied"});
    var processed := if IsStaff(user) && |decided| > 10 then decided[..10] else decided;
    assert forall x :: x in processed ==> x in decided;
    LeaveLists(Select(rs, owner, {"pending"}), processed)
  }

  /** Someone who is neither HR nor an administrator sees no one else's requests. */
  lemma IndexOwnOnly(rs: seq<LeaveRequest>, user: User)
    requires !IsStaff(user)
    ensures forall x :: x in Index(rs, user).pending ==> x.employeeId == user.id
    ensures forall x :: x in Index(rs, user).processed ==> x.employeeId == user.id
  {
  }
}
