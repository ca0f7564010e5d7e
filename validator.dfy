/** `validate_schedule`: the hard-constraint checks, the soft scores, an overall score and
    statistics for a finished schedule. */
module Validator {
  import opened Wrappers
  import opened Ids
  import opened Seqs
  import opened Sections
  import opened Students
  import opened Schedules
  import opened Violations
  import opened HardConstraints
  import opened SoftConstraints

  /** `ScheduleStatistics` without its two `f64` fields (average fill rate and balance
      score). */
  datatype Statistics = Statistics(
    totalSections: nat,
    totalStudents: nat,
    totalAssignments: nat,
    unassignedRequired: nat,
    unassignedElectives: nat)

  datatype ValidationReport = ValidationReport(
    isValid: bool,
    hardViolations: seq<Violation>,
    softScores: seq<SoftScore>,
    totalScore: real,
    statistics: Statistics)

  /** The hard violations in the order they are collected: teacher, student and room
      conflicts, then capacity. */
  function HardViolations(ss: seq<Section>): seq<Violation> {
    Conflicts(TeacherKind, Bookings(TeacherKind, ss)) + Conflicts(StudentKind, Bookings(StudentKind, ss))
    + Conflicts(RoomKind, Bookings(RoomKind, ss)) + CapacityViolations(ss)
  }

  /** Nobody is booked twice at one (day, slot), and no section is over capacity. */
  predicate MeetsHardConstraints(ss: seq<Section>) {
    Distinct(Bookings(TeacherKind, ss)) && Distinct(Bookings(StudentKind, ss))
    && Distinct(Bookings(RoomKind, ss)) && forall i :: 0 <= i < |ss| ==> !OverCapacity(ss[i])
  }

  /** Every hard violation is an error, so the schedule is valid exactly when there is
      none, which is exactly when it meets every hard constraint. */
  lemma HardViolationsMeaning(ss: seq<Section>)
    ensures forall v :: v in HardViolations(ss) ==> v.severity == Error
    ensures !AnyError(HardViolations(ss)) <==> HardViolations(ss) == []
    ensures HardViolations(ss) == [] <==> MeetsHardConstraints(ss)
  {
    var t, s, r := Bookings(TeacherKind, ss), Bookings(StudentKind, ss), Bookings(RoomKind, ss);
    ConflictsShape(TeacherKind, t);
    ConflictsShape(StudentKind, s);
    ConflictsShape(RoomKind, r);
    ConflictsNone(TeacherKind, t);
    ConflictsNone(StudentKind, s);
    ConflictsNone(RoomKind, r);
    CapacityViolationsCount(ss);
    forall v | v in CapacityViolations(ss)
      ensures v.severity == Error
    {
      CapacityViolationsSound(ss, v);
    }
    var all := HardViolations(ss);
    if all != [] {
      assert all[0] in all;
    }
  }

  /** Sum of the soft scores, and of their maxima. */
  function ScoreSum(scores: seq<SoftScore>): real {
    if |scores| == 0 then 0.0 else ScoreSum(scores[..|scores| - 1]) + scores[|scores| - 1].score
  }

  function MaxSum(scores: seq<SoftScore>): real {
    if |scores| == 0 then 0.0 else MaxSum(scores[..|scores| - 1]) + scores[|scores| - 1].maxScore
  }

  lemma {:induction false} SumsBounded(scores: seq<SoftScore>)
    requires forall i :: 0 <= i < |scores| ==> 0.0 <= scores[i].score <= scores[i].maxScore
    ensures 0.0 <= ScoreSum(scores) <= MaxSum(scores)
  {
    if |scores| > 0 {
      SumsBounded(scores[..|scores| - 1]);
    }
  }

  /** The overall score: 0 with any error, otherwise the soft scores' share of their maxima
      in percent, or 100 when no soft score has a maximum. */
  function TotalScore(hard: seq<Violation>, soft: seq<SoftScore>): (r: real)
    requires forall i :: 0 <= i < |soft| ==> 0.0 <= soft[i].score <= soft[i].maxScore
    ensures AnyError(hard) ==> r == 0.0
    ensures 0.0 <= r <= 100.0
    ensures !AnyError(hard) && MaxSum(soft) > 0.0 ==> (r == 100.0 <==> ScoreSum(soft) == MaxSum(soft))
  {
    SumsBounded(soft);
    if AnyError(hard) then 0.0
    else
      var total, max := ScoreSum(soft), MaxSum(soft);
      if max > 0.0 then
        FractionBounds(total, max);
        assert total / max == 1.0 <==> total == max;
        (total / max) * 100.0
      else 100.0
  }

  /** `find(|s| s.id == id)`: the first student with the id. */
  function FindStudent(students: seq<Student>, id: StudentId): (r: Option<Student>)
    ensures r.None? <==> forall i :: 0 <= i < |students| ==> students[i].id != id
    ensures r.Some? ==> r.value.id == id && r.value in students
  {
    if |students| == 0 then None
    else if students[0].id == id then Some(students[0])
    else
      var r := FindStudent(students[1..], id);
      assert forall i :: 1 <= i < |students| ==> students[i] == students[1..][i - 1];
      r
  }

  /** An unassigned course is counted as required when the first student with its
      student id requires it; an unknown student counts as elective. */
  predicate IsRequiredMiss(students: seq<Student>, u: UnassignedCourse) {
    match FindStudent(students, u.studentId)
    case Some(st) => u.courseId in st.required
    case None => false
  }

  /** `calculate_statistics`: counts of sections, students, enrolments and unassigned
      courses; every unassigned course is either required or elective. */
  function CalculateStatistics(schedule: Schedule, students: seq<Student>): (r: Statistics)
    ensures r.totalSections == |schedule.sections| && r.totalStudents == |students|
    ensures r.totalAssignments == TotalAssignments(schedule.sections)
    ensures r.unassignedRequired + r.unassignedElectives == |schedule.unassigned|
    ensures r.unassignedElectives == Count(schedule.unassigned, u => !IsRequiredMiss(students, u))
    ensures r.unassignedRequired == 0 <==> forall i :: 0 <= i < |schedule.unassigned| ==> !IsRequiredMiss(students, schedule.unassigned[i])
  {
    var required := Count(schedule.unassigned, u => IsRequiredMiss(students, u));
    CountComplement(schedule.unassigned, u => IsRequiredMiss(students, u), u => !IsRequiredMiss(students, u));
    Statistics(|schedule.sections|, |students|, TotalAssignments(schedule.sections),
               required, |schedule.unassigned| - required)
  }

  /** The four `extend`s of `validate_schedule`. */
  method CollectHardViolations(ss: seq<Section>) returns (hardViolations: seq<Violation>)
    ensures hardViolations == HardViolations(ss)
  {
    hardViolations := [];
    var teacher := CheckConflicts(TeacherKind, ss);
    hardViolations := hardViolations + teacher;
    assert hardViolations == teacher;
    var student := CheckConflicts(StudentKind, ss);
    hardViolations := hardViolations + student;
    var room := CheckConflicts(RoomKind, ss);
    hardViolations := hardViolations + room;
    var capacity := CheckCapacityViolations(ss);
    hardViolations := hardViolations + capacity;
  }

  /** `validate_schedule`. */
  method ValidateSchedule(schedule: Schedule, students: seq<Student>) returns (r: ValidationReport)
    ensures r.hardViolations == HardViolations(schedule.sections)
    ensures r.isValid <==> !AnyError(r.hardViolations)
    ensures r.isValid <==> MeetsHardConstraints(schedule.sections)
    ensures !r.isValid ==> r.totalScore == 0.0
    ensures 0.0 <= r.totalScore <= 100.0
    ensures |r.softScores| == 3 && r.softScores[0] == ScoreRequiredCourses(schedule.sections, students)
    ensures forall i :: 0 <= i < |r.softScores| ==> 0.0 <= r.softScores[i].score <= r.softScores[i].maxScore
    ensures r.totalScore == TotalScore(r.hardViolations, r.softScores)
    ensures r.statistics == CalculateStatistics(schedule, students)
  {
    var hardViolations := CollectHardViolations(schedule.sections);
    var softScores := CalculateSoftScores(schedule.sections, students);
    var statistics := CalculateStatistics(schedule, students);
    var totalScore := TotalScore(hardViolations, softScores);
    var isValid := !AnyError(hardViolations);
    assert isValid <==> MeetsHardConstraints(schedule.sections) by {
      HardViolationsMeaning(schedule.sections);
    }
    r := ValidationReport(isValid, hardViolations, softScores, totalScore, statistics);
  }
}
