/**
 * Training programs and enrollments: the `TrainingProgram` row with its capacity and
 * date-driven status, the `TrainingEnrollment` table, and the `trainings` routes that
 * enroll, unenroll and take feedback.
 */
module Trainings {
  import opened Common
  import opened Calendar
  import opened Text
  import opened Users

  /**
   * `TrainingProgram.update_status` as a function of the day: upcoming before the start,
   * in progress up to and including the end, completed afterwards.
   */
  function TrainingStatusOn(start: Date, end: Date, today: Date): (s: string)
    ensures s == "upcoming" <==> Before(today, start)
    ensures s == "in-progress" <==> !Before(today, start) && NotAfter(today, end)
    ensures s == "completed" <==> !Before(today, start) && Before(end, today)
  {
    if Before(today, start) then "upcoming"
    else if NotAfter(today, end) then "in-progress"
    else "completed"
  }

  function TrainingRank(s: string): int
  {
    if s == "upcoming" then 0 else if s == "in-progress" then 1 else 2
  }

  /** As days pass a program only moves forward: upcoming, in progress, completed. */
  lemma TrainingStatusProgresses(start: Date, end: Date, d1: Date, d2: Date)
    requires NotAfter(d1, d2)
    ensures TrainingRank(TrainingStatusOn(start, end, d1)) <= TrainingRank(TrainingStatusOn(start, end, d2))
  {
  }

  /** The statuses in which `enroll` accepts enrollments. */
  predicate OpenForEnrollment(status: string) { status == "upcoming" || status == "in-progress" }

  /** A `TrainingProgram` row; `update_status` assigns its status in place. */
  class TrainingProgram {
    const id: int
    var startDate: Date
    var endDate: Date
    var maxParticipants: int
    var status: string

    /** A new program is upcoming; a capacity of 0 means unlimited. */
    constructor (id: int, startDate: Date, endDate: Date, maxParticipants: int)
      ensures this.id == id && this.startDate == startDate && this.endDate == endDate
      ensures this.maxParticipants == maxParticipants && status == "upcoming"
    {
      this.id := id;
      this.startDate := startDate;
      this.endDate := endDate;
      this.maxParticipants := maxParticipants;
      status := "upcoming";
    }

    /** `duration_days`: both ends count. */
    function DurationDays(): (n: int)
      reads this
      ensures n >= 1 <==> NotAfter(startDate, endDate)
      ensures startDate == endDate ==> n == 1
    {
      DaysBetween(startDate, endDate) + 1
    }

    /** `is_full`, given the number of enrollments: never with a capacity of 0, otherwise once it is reached. */
    predicate IsFull(enrolled: nat)
      reads this
    {
      maxParticipants != 0 && enrolled >= maxParticipants
    }

    /** `update_status`: a cancelled program stays cancelled; any other follows the dates. */
    method UpdateStatus(today: Date)
      modifies this`status
      ensures old(status) == "cancelled" ==> status == "cancelled"
      ensures old(status) != "cancelled" ==> status == TrainingStatusOn(startDate, endDate, today)
    {
      if status == "cancelled" {
        return;
      }
      if Before(today, startDate) {
        status := "upcoming";
      } else if NotAfter(today, endDate) {
        status := "in-progress";
      } else {
        status := "completed";
      }
    }
  }

  /** An unlimited program is never full, however many are enrolled. */
  lemma UnlimitedNeverFull(p: TrainingProgram, enrolled: nat)
    requires p.maxParticipants == 0
    ensures !p.IsFull(enrolled)
  {
  }

  /** One `TrainingEnrollment` row. */
  datatype Enrollment = Enrollment(id: int, trainingId: int, employeeId: int, status: string,
                                   rating: Option<int>, feedback: string)

  /** Whether an enrollment belongs to program `trainingId`. */
  function InProgram(trainingId: int): Enrollment -> bool
  {
    (e: Enrollment) => e.trainingId == trainingId
  }

  /** `enrolled_count`: the enrollments of one program. */
  function EnrolledCount(rows: seq<Enrollment>, trainingId: int): (n: nat)
    ensures n <= |rows|
    ensures n == |rows| <==> forall e :: e in rows ==> e.trainingId == trainingId
  {
    CountOfBound(rows, InProgram(trainingId));
    CountOfAll(rows, InProgram(trainingId));
    CountOf(rows, InProgram(trainingId))
  }

  /** Appending rows of the program raises its count by their number. */
  lemma EnrolledCountAppend(rows: seq<Enrollment>, more: seq<Enrollment>, trainingId: int)
    requires forall e :: e in more ==> e.trainingId == trainingId
    ensures EnrolledCount(rows + more, trainingId) == EnrolledCount(rows, trainingId) + |more|
  {
    CountOfConcat(rows, more, InProgram(trainingId));
    assert EnrolledCount(more, trainingId) == |more|;
  }

  /** The position of an enrollment of `employeeId` in program `trainingId`, if any. */
  function FindEnrollment(rows: seq<Enrollment>, trainingId: int, employeeId: int): (k: Option<nat>)
    ensures k.Some? ==> k.value < |rows| && rows[k.value].trainingId == trainingId && rows[k.value].employeeId == employeeId
    ensures k.None? ==> forall i :: 0 <= i < |rows| ==> !(rows[i].trainingId == trainingId && rows[i].employeeId == employeeId)
  {
    if |rows| == 0 then None
    else if rows[|rows| - 1].trainingId == trainingId && rows[|rows| - 1].employeeId == employeeId then Some(|rows| - 1)
    else FindEnrollment(rows[..|rows| - 1], trainingId, employeeId)
  }

  predicate IsEnrolled(rows: seq<Enrollment>, trainingId: int, employeeId: int)
  {
    FindEnrollment(rows, trainingId, employeeId).Some?
  }

  /** The employees the HR enrollment form offers: every user not yet enrolled in the program. */
  function Available(users: set<int>, rows: seq<Enrollment>, trainingId: int): (offered: set<int>)
    ensures forall u :: u in offered <==> u in users && !IsEnrolled(rows, trainingId, u)
  {
    set u | u in users && !IsEnrolled(rows, trainingId, u)
  }

  /** The rows the HR form adds: one `enrolled` row per selected employee, ids counted up from `firstId`. */
  function NewEnrollments(selected: seq<int>, trainingId: int, firstId: int): (rows: seq<Enrollment>)
    ensures |rows| == |selected|
    ensures forall k :: 0 <= k < |selected| ==> rows[k] == Enrollment(firstId + k, trainingId, selected[k], "enrolled", None, "")
  {
    if |selected| == 0 then []
    else
      var k := |selected| - 1;
      NewEnrollments(selected[..k], trainingId, firstId) + [Enrollment(firstId + k, trainingId, selected[k], "enrolled", None, "")]
  }

  predicate Distinct(s: seq<int>) { forall i, j :: 0 <= i < j < |s| ==> s[i] != s[j] }

  /** Every row `NewEnrollments` makes belongs to the program. */
  lemma NewEnrollmentsInProgram(selected: seq<int>, trainingId: int, firstId: int)
    ensures forall e :: e in NewEnrollments(selected, trainingId, firstId) ==> e.trainingId == trainingId
  {
    var more := NewEnrollments(selected, trainingId, firstId);
    forall e | e in more
      ensures e.trainingId == trainingId
    {
      var k :| 0 <= k < |more| && more[k] == e;
    }
  }

  /**
   * The capacity is checked once before HR enrolls a whole selection: with one place left
   * the program is not full, so `Enroll` takes a selection of two distinct available
   * employees, and the program ends one over its capacity.
   */
  lemma BulkEnrollmentCanExceedCapacity(program: TrainingProgram, rows: seq<Enrollment>, selected: seq<int>, newId: int)
    requires program.maxParticipants > 0 && EnrolledCount(rows, program.id) + 1 == program.maxParticipants
    requires |selected| == 2
    ensures !program.IsFull(EnrolledCount(rows, program.id))
    ensures EnrolledCount(rows + NewEnrollments(selected, program.id, newId), program.id) == program.maxParticipants + 1
    ensures program.IsFull(EnrolledCount(rows + NewEnrollments(selected, program.id, newId), program.id))
  {
    NewEnrollmentsInProgram(selected, program.id, newId);
    EnrolledCountAppend(rows, NewEnrollments(selected, program.id, newId), program.id);
  }

  /** How `enroll` ends. */
  datatype EnrollOutcome = Closed | Full | AlreadyEnrolled | FormShown | Crashed | Enrolled(added: nat)

  /** How `unenroll` and `feedback` end. */
  datatype Outcome = Forbidden | NotFound | Refused | Invalid | Done

  /** `TrainingFeedbackForm`: a rating from 1 to 5 and feedback that is not blank, at most 1000 characters. */
  predicate FeedbackValid(rating: Option<int>, feedback: string)
  {
    rating.Some? && 1 <= rating.value <= 5 && Strip(feedback) != "" && |feedback| <= 1000
  }

  /** The `TrainingEnrollment` table. */
  class Enrollments {
    var rows: seq<Enrollment>

    constructor ()
      ensures rows == []
    {
      rows := [];
    }

    /**
     * `enroll`: refused unless the program is upcoming or in progress, and refused when it
     * is full. HR and administrators enroll a submitted selection of employees not yet
     * enrolled (a repeated employee breaks the unique constraint and nothing is stored);
     * anyone else enrolls themselves once.
     */
    method Enroll(user: User, program: TrainingProgram, users: set<int>, submitted: bool, selected: seq<int>,
                  newId: int) returns (outcome: EnrollOutcome)
      modifies this
      ensures outcome == Closed <==> !OpenForEnrollment(program.status)
      ensures outcome == Full <==> OpenForEnrollment(program.status) && program.IsFull(EnrolledCount(old(rows), program.id))
      ensures !outcome.Enrolled? ==> rows == old(rows)
      ensures outcome.Enrolled? && IsStaff(user) ==>
        submitted && Distinct(selected) &&
        (forall k :: 0 <= k < |selected| ==> selected[k] in Available(users, old(rows), program.id)) &&
        rows == old(rows) + NewEnrollments(selected, program.id, newId)
      ensures outcome.Enrolled? && !IsStaff(user) ==>
        !IsEnrolled(old(rows), program.id, user.id) &&
        rows == old(rows) + [Enrollment(newId, program.id, user.id, "enrolled", None, "")]
      ensures !IsStaff(user) && OpenForEnrollment(program.status) && !program.IsFull(EnrolledCount(old(rows), program.id)) ==>
        (outcome == AlreadyEnrolled <==> IsEnrolled(old(rows), program.id, user.id))
      ensures (!IsStaff(user) && OpenForEnrollment(program.status) && !program.IsFull(EnrolledCount(old(rows), program.id)) &&
               !IsEnrolled(old(rows), program.id, user.id)) ==> outcome == Enrolled(1)
      ensures IsStaff(user) && OpenForEnrollment(program.status) && !program.IsFull(EnrolledCount(old(rows), program.id)) ==>
        var offered := submitted && forall k :: 0 <= k < |selected| ==> selected[k] in Available(users, old(rows), program.id);
        (outcome == FormShown <==> !offered) &&
        (outcome == Crashed <==> offered && !Distinct(selected)) &&
        (outcome == Enrolled(|selected|) <==> offered && Distinct(selected))
      ensures outcome == FormShown || outcome == Crashed ==> IsStaff(user)
      ensures outcome == AlreadyEnrolled ==> !IsStaff(user)
      ensures outcome.Enrolled? ==> EnrolledCount(rows, program.id) == EnrolledCount(old(rows), program.id) + outcome.added
      ensures outcome.Enrolled? && !IsStaff(user) && program.maxParticipants > 0 ==>
        EnrolledCount(rows, program.id) <= program.maxParticipants
    {
      if !OpenForEnrollment(program.status) {
        return Closed;
      }
      if program.IsFull(EnrolledCount(rows, program.id)) {
        return Full;
      }
      if IsStaff(user) {
        var offered := Available(users, rows, program.id);
        if !submitted || !(forall k :: 0 <= k < |selected| ==> selected[k] in offered) {
          return FormShown;
        }
        if !Distinct(selected) {
          return Crashed;
        }
        var more := NewEnrollments(selected, program.id, newId);
        EnrolledCountAppend(rows, more, program.id);
        rows := rows + more;
        outcome := Enrolled(|selected|);
      } else {
        if IsEnrolled(rows, program.id, user.id) {
          return AlreadyEnrolled;
        }
        var e := Enrollment(newId, program.id, user.id, "enrolled", None, "");
        EnrolledCountAppend(rows, [e], program.id);
        rows := rows + [e];
        outcome := Enrolled(1);
      }
    }

    /**
     * `unenroll`: only HR and administrators may unenroll someone else; a missing
     * enrollment is a 404; otherwise that one row goes and the rest stay in order.
     */
    method Unenroll(user: User, trainingId: int, employeeId: int) returns (outcome: Outcome)
      modifies this
      ensures outcome == Forbidden <==> employeeId != user.id && !IsStaff(user)
      ensures outcome == NotFound <==> (employeeId == user.id || IsStaff(user)) && !IsEnrolled(old(rows), trainingId, employeeId)
      ensures outcome != Done ==> rows == old(rows)
      ensures outcome == Done ==>
        var k := FindEnrollment(old(rows), trainingId, employeeId).value;
        rows == old(rows)[..k] + old(rows)[k + 1..]
      ensures outcome == Forbidden || outcome == NotFound || outcome == Done
    {
      if employeeId != user.id && !IsStaff(user) {
        return Forbidden;
      }
      var found := FindEnrollment(rows, trainingId, employeeId);
      if found.None? {
        return NotFound;
      }
      var k := found.value;
      rows := rows[..k] + rows[k + 1..];
      outcome := Done;
    }

    /**
     * `feedback`: the user must be enrolled (404 otherwise), the program completed and the
     * enrollment not yet completed; a valid form then records the rating and the feedback
     * and completes the enrollment, so feedback is taken at most once.
     */
    method Feedback(user: User, program: TrainingProgram, rating: Option<int>, feedback: string) returns (outcome: Outcome)
      modifies this
      ensures outcome == NotFound <==> !IsEnrolled(old(rows), program.id, user.id)
      ensures outcome == Refused <==>
        (IsEnrolled(old(rows), program.id, user.id) &&
         (program.status != "completed" || old(rows)[FindEnrollment(old(rows), program.id, user.id).value].status == "completed"))
      ensures outcome != Done ==> rows == old(rows)
      ensures (IsEnrolled(old(rows), program.id, user.id) && program.status == "completed" &&
               old(rows)[FindEnrollment(old(rows), program.id, user.id).value].status != "completed") ==>
        (outcome == Done <==> FeedbackValid(rating, feedback)) && (outcome == Invalid <==> !FeedbackValid(rating, feedback))
      ensures outcome == Done ==>
        var k := FindEnrollment(old(rows), program.id, user.id).value;
        program.status == "completed" && old(rows)[k].status != "completed" && FeedbackValid(rating, feedback) &&
        rows == old(rows)[k := old(rows)[k].(rating := rating, feedback := feedback, status := "completed")]
      ensures outcome != Forbidden
    {
      var found := FindEnrollment(rows, program.id, user.id);
      if found.None? {
        return NotFound;
      }
      var k := found.value;
      if program.status != "completed" || rows[k].status == "completed" {
        return Refused;
      }
      if !FeedbackValid(rating, feedback) {
        return Invalid;
      }
      rows := rows[k := rows[k].(rating := rating, feedback := feedback, status := "completed")];
      outcome := Done;
    }
  }
}
