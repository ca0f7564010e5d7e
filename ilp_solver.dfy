/** Phase 4 of the scheduler: students are placed in sections by an integer program. The
    program's variables, weights and constraints, the extraction of the solver's answer and
    the reasons given for required courses left unplaced are modelled; the solver itself is
    an oracle, the set `chosen` of (student, section) pairs it sets to 1. */
module IlpSolver {
  import opened Wrappers
  import opened Ids
  import opened Seqs
  import opened Text
  import opened Periods
  import opened Sections
  import opened Students
  import opened Courses
  import opened Schedules

  /** A variable exists for student `st` and section `sec`: the student wants the course,
      and the course is missing from the catalogue or admits the student's grade. */
  predicate Eligible(courseMap: map<CourseId, Course>, st: Student, sec: Section) {
    st.WantsCourse(sec.courseId) && (sec.courseId in courseMap ==> courseMap[sec.courseId].AllowsGrade(st.grade))
  }

  /** The weight of an elective at position `rank` of the preference list:
      `10 - min(rank, 9)`. */
  function RankWeight(rank: nat): (w: nat)
    ensures 1 <= w <= 10
  {
    10 - (if rank < 9 then rank else 9)
  }

  /** A preferred elective never weighs less than a later one, and the first nine ranks
      weigh strictly less each. */
  lemma RankWeightOrder(a: nat, b: nat)
    requires a <= b
    ensures RankWeight(a) >= RankWeight(b)
    ensures a < b && a < 9 ==> RankWeight(a) > RankWeight(b)
  {
  }

  /** The objective coefficient of a (student, course) variable: 1000 for a required course,
      the rank weight for an elective, 0 otherwise. */
  function Weight(st: Student, c: CourseId): (w: nat)
    ensures w == 1000 <==> c in st.required
    ensures w == 0 <==> !st.WantsCourse(c)
    ensures c !in st.required && c in st.electives ==> 1 <= w <= 10
  {
    if c in st.required then 1000
    else match st.ElectiveRank(c)
      case Some(rank) => RankWeight(rank)
      case None => 0
  }

  /** Every required course outweighs the heaviest elective, and electives keep the order
      of the preference list. */
  lemma WeightOrder(st: Student, c: CourseId, d: CourseId)
    ensures c in st.required && d !in st.required ==> Weight(st, c) > Weight(st, d)
    ensures (c !in st.required && d !in st.required && c in st.electives && d in st.electives &&
             st.ElectiveRank(c).value <= st.ElectiveRank(d).value) ==> Weight(st, c) >= Weight(st, d)
  {
    if c !in st.required && d !in st.required && c in st.electives && d in st.electives &&
       st.ElectiveRank(c).value <= st.ElectiveRank(d).value {
      RankWeightOrder(st.ElectiveRank(c).value, st.ElectiveRank(d).value);
    }
  }

  /** Student `s` was placed in section `k`: the variable exists and the solver set it. */
  predicate Picked(courseMap: map<CourseId, Course>, students: seq<Student>, snap: seq<Section>,
                   chosen: set<(nat, nat)>, s: nat, k: nat) {
    s < |students| && k < |snap| && Eligible(courseMap, students[s], snap[k]) && (s, k) in chosen
  }

  /** The ids pushed onto section `k` by the first `n` students, in student order. */
  function Added(courseMap: map<CourseId, Course>, students: seq<Student>, snap: seq<Section>,
                 chosen: set<(nat, nat)>, k: nat, n: nat): seq<StudentId> {
    if n == 0 then []
    else Added(courseMap, students, snap, chosen, k, n - 1)
         + (if Picked(courseMap, students, snap, chosen, n - 1, k) then [students[n - 1].id] else [])
  }

  /** The sections once the first `n` students are extracted. */
  function AfterStudents(courseMap: map<CourseId, Course>, students: seq<Student>, snap: seq<Section>,
                         chosen: set<(nat, nat)>, n: nat): (r: seq<Section>)
    ensures |r| == |snap|
  {
    seq(|snap|, k requires 0 <= k < |snap| =>
      snap[k].(enrolled := snap[k].enrolled + Added(courseMap, students, snap, chosen, k, n)))
  }

  /** Extraction only appends: every section keeps its fields and its earlier students, and
      each added id is that of a student the solver placed in the section. */
  lemma {:induction false} ExtractionAppends(courseMap: map<CourseId, Course>, students: seq<Student>, snap: seq<Section>,
                                             chosen: set<(nat, nat)>, n: nat, k: nat)
    requires k < |snap|
    ensures var r := AfterStudents(courseMap, students, snap, chosen, n)[k];
            r == snap[k].(enrolled := r.enrolled) && r.enrolled[..|snap[k].enrolled|] == snap[k].enrolled
    ensures forall id :: id in Added(courseMap, students, snap, chosen, k, n) ==>
              exists s :: 0 <= s < n && Picked(courseMap, students, snap, chosen, s, k) && students[s].id == id
  {
    if n > 0 {
      ExtractionAppends(courseMap, students, snap, chosen, n - 1, k);
    }
  }

  /** The students among the first `n` that the solver placed in section `k`. */
  function PickedBelow(courseMap: map<CourseId, Course>, students: seq<Student>, snap: seq<Section>,
                       chosen: set<(nat, nat)>, k: nat, n: nat): set<nat> {
    set s | 0 <= s < n && Picked(courseMap, students, snap, chosen, s, k)
  }

  /** Number of ids added equals the number of students the solver placed in the section. */
  lemma {:induction false} AddedCount(courseMap: map<CourseId, Course>, students: seq<Student>, snap: seq<Section>,
                                      chosen: set<(nat, nat)>, k: nat, n: nat)
    ensures |Added(courseMap, students, snap, chosen, k, n)| == |PickedBelow(courseMap, students, snap, chosen, k, n)|
  {
    if n > 0 {
      AddedCount(courseMap, students, snap, chosen, k, n - 1);
      PickedBelowStep(courseMap, students, snap, chosen, k, n);
    }
  }

  lemma PickedBelowStep(courseMap: map<CourseId, Course>, students: seq<Student>, snap: seq<Section>,
                        chosen: set<(nat, nat)>, k: nat, n: nat)
    requires n > 0
    ensures var prev := PickedBelow(courseMap, students, snap, chosen, k, n - 1);
            PickedBelow(courseMap, students, snap, chosen, k, n)
            == if Picked(courseMap, students, snap, chosen, n - 1, k) then prev + {n - 1} else prev
  {
  }

  /** The constraints of the integer program, which the solver's answer satisfies: each
      section holds at most its capacity, no student gets two sections of one course, and no
      student gets two sections meeting at a common period. */
  ghost predicate Feasible(courseMap: map<CourseId, Course>, students: seq<Student>, snap: seq<Section>,
                           chosen: set<(nat, nat)>) {
    && (forall k :: 0 <= k < |snap| ==>
          |PickedBelow(courseMap, students, snap, chosen, k, |students|)| <= snap[k].capacity)
    && (forall s: nat, k1: nat, k2: nat ::
          (Picked(courseMap, students, snap, chosen, s, k1) && Picked(courseMap, students, snap, chosen, s, k2) && k1 != k2)
          ==> snap[k1].courseId != snap[k2].courseId && Disjoint(snap[k1].periods, snap[k2].periods))
  }

  predicate Disjoint(a: seq<Period>, b: seq<Period>) {
    forall p :: p in a ==> p !in b
  }

  /** A feasible answer fills no section past its capacity when sections start empty. */
  lemma CapacityKept(courseMap: map<CourseId, Course>, students: seq<Student>, snap: seq<Section>,
                     chosen: set<(nat, nat)>, k: nat)
    requires Feasible(courseMap, students, snap, chosen) && k < |snap| && snap[k].enrolled == []
    ensures AfterStudents(courseMap, students, snap, chosen, |students|)[k].Enrollment() <= snap[k].capacity
  {
    AddedCount(courseMap, students, snap, chosen, k, |students|);
  }

  /** With distinct student ids, a feasible answer never gives a student two sections of
      one course or two sections meeting at the same period. */
  lemma NoStudentConflict(courseMap: map<CourseId, Course>, students: seq<Student>, snap: seq<Section>,
                          chosen: set<(nat, nat)>, s: nat, k1: nat, k2: nat)
    requires Feasible(courseMap, students, snap, chosen)
    requires forall a, b :: 0 <= a < b < |students| ==> students[a].id != students[b].id
    requires s < |students| && k1 < |snap| && k2 < |snap| && k1 != k2
    requires students[s].id in Added(courseMap, students, snap, chosen, k1, |students|)
    requires students[s].id in Added(courseMap, students, snap, chosen, k2, |students|)
    ensures snap[k1].courseId != snap[k2].courseId && Disjoint(snap[k1].periods, snap[k2].periods)
  {
    ExtractionAppends(courseMap, students, snap, chosen, |students|, k1);
    ExtractionAppends(courseMap, students, snap, chosen, |students|, k2);
    var a :| 0 <= a < |students| && Picked(courseMap, students, snap, chosen, a, k1) && students[a].id == students[s].id;
    var b :| 0 <= b < |students| && Picked(courseMap, students, snap, chosen, b, k2) && students[b].id == students[s].id;
    assert a == s && b == s;
  }

  /** Some section of course `c` enrols the student. */
  predicate Assigned(ss: seq<Section>, id: StudentId, c: CourseId) {
    exists i :: 0 <= i < |ss| && ss[i].courseId == c && id in ss[i].enrolled
  }

  /** A section of course `c` with a free seat that meets at none of the student's periods. */
  predicate HasFreeSection(ss: seq<Section>, id: StudentId, c: CourseId) {
    exists i :: 0 <= i < |ss| && ss[i].courseId == c && !ss[i].IsFull()
                && forall p :: p in ss[i].periods ==> p !in StudentPeriods(ss, id)
  }

  /** `{:?}` of a grade restriction: `Some([9, 10])` or `None`. */
  function DebugGrades(g: Option<seq<u8>>): string {
    match g
    case None => "None"
    case Some(gs) => "Some([" + Join(seq(|gs|, i requires 0 <= i < |gs| => NatToString(gs[i])), ", ") + "])"
  }

  /** `determine_unassigned_reason`: the first of the grade, no-section, all-full and
      time-conflict explanations that applies, else an unknown reason. */
  function UnassignedReason(st: Student, c: CourseId, ss: seq<Section>, courseMap: map<CourseId, Course>): string {
    if c in courseMap && !courseMap[c].AllowsGrade(st.grade) then
      "Grade " + NatToString(st.grade) + " not allowed (restricted to " + DebugGrades(courseMap[c].gradeRestrictions) + ")"
    else if forall i :: 0 <= i < |ss| ==> ss[i].courseId != c then "No sections available"
    else if forall i :: 0 <= i < |ss| && ss[i].courseId == c ==> ss[i].IsFull() then "All sections at capacity"
    else if !HasFreeSection(ss, st.id, c) then "Time conflict with other courses"
    else "Unknown reason"
  }

  /** The reasons are tried in order, each only when the earlier ones do not apply; an
      unknown reason means a section with a free seat and no clash was there. */
  lemma ReasonCascade(st: Student, c: CourseId, ss: seq<Section>, courseMap: map<CourseId, Course>)
    ensures var r := UnassignedReason(st, c, ss, courseMap);
            StartsWith(r, "Grade ") <==> c in courseMap && !courseMap[c].AllowsGrade(st.grade)
    ensures var r := UnassignedReason(st, c, ss, courseMap);
            r == "No sections available" <==>
              (c !in courseMap || courseMap[c].AllowsGrade(st.grade)) && forall i :: 0 <= i < |ss| ==> ss[i].courseId != c
    ensures var r := UnassignedReason(st, c, ss, courseMap);
            r == "All sections at capacity" <==>
              (c !in courseMap || courseMap[c].AllowsGrade(st.grade)) && (exists i :: 0 <= i < |ss| && ss[i].courseId == c)
              && forall i :: 0 <= i < |ss| && ss[i].courseId == c ==> ss[i].IsFull()
    ensures var r := UnassignedReason(st, c, ss, courseMap);
            r == "Time conflict with other courses" <==>
              (c !in courseMap || courseMap[c].AllowsGrade(st.grade))
              && (exists i :: 0 <= i < |ss| && ss[i].courseId == c && !ss[i].IsFull())
              && !HasFreeSection(ss, st.id, c)
    ensures var r := UnassignedReason(st, c, ss, courseMap);
            r == "Unknown reason" <==> (c !in courseMap || courseMap[c].AllowsGrade(st.grade)) && HasFreeSection(ss, st.id, c)
  {
    var r := UnassignedReason(st, c, ss, courseMap);
    var g := "Grade ";
    assert !StartsWith("No sections available", g) by { assert "No sections available"[0] != g[0]; }
    assert !StartsWith("All sections at capacity", g) by { assert "All sections at capacity"[0] != g[0]; }
    assert !StartsWith("Time conflict with other courses", g) by { assert "Time conflict with other courses"[0] != g[0]; }
    assert !StartsWith("Unknown reason", g) by { assert "Unknown reason"[0] != g[0]; }
    if c in courseMap && !courseMap[c].AllowsGrade(st.grade) {
      assert r[..|g|] == g;
    }
  }

  /** The unassigned entries for one student: each required course, in order, that no
      section enrols the student in, with its reason. */
  function Missed(st: Student, reqs: seq<CourseId>, ss: seq<Section>, courseMap: map<CourseId, Course>)
    : seq<UnassignedCourse>
  {
    if |reqs| == 0 then []
    else
      var c := reqs[|reqs| - 1];
      Missed(st, reqs[..|reqs| - 1], ss, courseMap)
      + (if Assigned(ss, st.id, c) then [] else [UnassignedCourse(st.id, c, UnassignedReason(st, c, ss, courseMap))])
  }

  /** One entry per required course the student is not enrolled in, and no other: each
      entry names the student and a required course it is missing, and every such course
      has its entry, with the reason for it. */
  lemma {:induction false} MissedEntries(st: Student, reqs: seq<CourseId>, ss: seq<Section>, courseMap: map<CourseId, Course>)
    ensures |Missed(st, reqs, ss, courseMap)| <= |reqs|
    ensures forall e :: e in Missed(st, reqs, ss, courseMap) ==>
              e.studentId == st.id && e.courseId in reqs && !Assigned(ss, st.id, e.courseId)
    ensures forall c :: c in reqs && !Assigned(ss, st.id, c) ==>
              UnassignedCourse(st.id, c, UnassignedReason(st, c, ss, courseMap)) in Missed(st, reqs, ss, courseMap)
  {
    if |reqs| > 0 {
      var c := reqs[|reqs| - 1];
      assert reqs == reqs[..|reqs| - 1] + [c];
      MissedEntries(st, reqs[..|reqs| - 1], ss, courseMap);
    }
  }

  /** The unassigned list after the first `n` students: each student's required courses are
      checked against the sections as they stand once that student is extracted. */
  function UnassignedAfter(courseMap: map<CourseId, Course>, students: seq<Student>, snap: seq<Section>,
                           chosen: set<(nat, nat)>, n: nat): seq<UnassignedCourse> {
    if n == 0 || n > |students| then []
    else UnassignedAfter(courseMap, students, snap, chosen, n - 1)
         + Missed(students[n - 1], students[n - 1].required, AfterStudents(courseMap, students, snap, chosen, n), courseMap)
  }

  /** The extraction loop of `solve_student_assignment`: for each student, its chosen
      sections get its id, then each of its required courses that no section enrols it in
      is listed with a reason. `chosen` is the solver's answer. */
  method Extract(sections: array<Section>, students: seq<Student>, courseMap: map<CourseId, Course>,
                 chosen: set<(nat, nat)>) returns (unassigned: seq<UnassignedCourse>)
    modifies sections
    ensures sections[..] == AfterStudents(courseMap, students, old(sections[..]), chosen, |students|)
    ensures unassigned == UnassignedAfter(courseMap, students, old(sections[..]), chosen, |students|)
  {
    ghost var snap := sections[..];
    unassigned := [];
    forall k | 0 <= k < |snap|
      ensures AfterStudents(courseMap, students, snap, chosen, 0)[k] == snap[k]
    {
      assert snap[k].enrolled + [] == snap[k].enrolled;
    }
    for s := 0 to |students|
      invariant sections[..] == AfterStudents(courseMap, students, snap, chosen, s)
      invariant unassigned == UnassignedAfter(courseMap, students, snap, chosen, s)
    {
      EnrollChosen(sections, snap, students, courseMap, chosen, s);
      var missed := MissedOf(sections[..], students[s], courseMap);
      unassigned := unassigned + missed;
    }
  }

  /** The inner loop over sections for student `s`. */
  method EnrollChosen(sections: array<Section>, ghost snap: seq<Section>, students: seq<Student>,
                      courseMap: map<CourseId, Course>, chosen: set<(nat, nat)>, s: nat)
    requires s < |students| && sections[..] == AfterStudents(courseMap, students, snap, chosen, s)
    modifies sections
    ensures sections[..] == AfterStudents(courseMap, students, snap, chosen, s + 1)
  {
    ghost var next := AfterStudents(courseMap, students, snap, chosen, s + 1);
    for k := 0 to sections.Length
      invariant forall j :: 0 <= j < k ==> sections[j] == next[j]
      invariant forall j :: k <= j < sections.Length ==> sections[j] == AfterStudents(courseMap, students, snap, chosen, s)[j]
    {
      if (s, k) in chosen && Eligible(courseMap, students[s], sections[k]) {
        sections[k] := sections[k].(enrolled := sections[k].enrolled + [students[s].id]);
      }
    }
  }

  /** The required-course check for one student. */
  method MissedOf(ss: seq<Section>, st: Student, courseMap: map<CourseId, Course>)
    returns (r: seq<UnassignedCourse>)
    ensures r == Missed(st, st.required, ss, courseMap)
  {
    r := [];
    for j := 0 to |st.required|
      invariant r == Missed(st, st.required[..j], ss, courseMap)
    {
      var c := st.required[j];
      var present := IsAssigned(ss, st.id, c);
      if !present {
        r := r + [UnassignedCourse(st.id, c, UnassignedReason(st, c, ss, courseMap))];
      }
      MissedSnoc(st, st.required, j, ss, courseMap);
    }
    assert st.required[..|st.required|] == st.required;
  }

  lemma MissedSnoc(st: Student, reqs: seq<CourseId>, j: nat, ss: seq<Section>, courseMap: map<CourseId, Course>)
    requires j < |reqs|
    ensures Missed(st, reqs[..j + 1], ss, courseMap)
            == Missed(st, reqs[..j], ss, courseMap)
               + (if Assigned(ss, st.id, reqs[j]) then [] else [UnassignedCourse(st.id, reqs[j], UnassignedReason(st, reqs[j], ss, courseMap))])
  {
    assert reqs[..j + 1][..j] == reqs[..j];
  }

  /** `sections.iter().any(..)` of the required-course check. */
  method IsAssigned(ss: seq<Section>, id: StudentId, c: CourseId) returns (b: bool)
    ensures b == Assigned(ss, id, c)
  {
    for i := 0 to |ss|
      invariant forall j :: 0 <= j < i ==> !(ss[j].courseId == c && id in ss[j].enrolled)
    {
      if ss[i].courseId == c && id in ss[i].enrolled {
        return true;
      }
    }
    return false;
  }
}
