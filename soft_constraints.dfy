/** The soft-constraint scores of the schedule validator: required courses fulfilled,
    elective preference points and section balance. Scores are exact reals. */
module SoftConstraints {
  import opened Ids
  import opened Seqs
  import opened Text
  import opened Sections
  import opened Students
  import opened Violations
  import IlpSolver

  // ---- Required courses -------------------------------------------------------------

  /** Required courses of one student that some section of the course enrols them in. */
  function Fulfilled(ss: seq<Section>, st: Student): (n: nat)
    ensures n <= |st.required|
    ensures n == |st.required| <==> forall k :: 0 <= k < |st.required| ==> IlpSolver.Assigned(ss, st.id, st.required[k])
  {
    Count(st.required, c => IlpSolver.Assigned(ss, st.id, c))
  }

  /** Required courses over all students (`total_required`). */
  function TotalRequired(students: seq<Student>): nat {
    if |students| == 0 then 0
    else TotalRequired(students[..|students| - 1]) + |students[|students| - 1].required|
  }

  /** Fulfilled required courses over all students. */
  function FulfilledAll(ss: seq<Section>, students: seq<Student>): nat {
    if |students| == 0 then 0
    else FulfilledAll(ss, students[..|students| - 1]) + Fulfilled(ss, students[|students| - 1])
  }

  /** Every required course of every student is fulfilled. */
  predicate AllRequiredMet(ss: seq<Section>, students: seq<Student>) {
    forall i, k :: 0 <= i < |students| && 0 <= k < |students[i].required| ==>
      IlpSolver.Assigned(ss, students[i].id, students[i].required[k])
  }

  /** Never more fulfilled than required, and as many exactly when all are fulfilled. */
  lemma {:induction false} RequiredBounds(ss: seq<Section>, students: seq<Student>)
    ensures FulfilledAll(ss, students) <= TotalRequired(students)
    ensures FulfilledAll(ss, students) == TotalRequired(students) <==> AllRequiredMet(ss, students)
  {
    if |students| > 0 {
      var init, st := students[..|students| - 1], students[|students| - 1];
      RequiredBounds(ss, init);
      assert forall i :: 0 <= i < |init| ==> init[i] == students[i];
      if FulfilledAll(ss, students) == TotalRequired(students) {
        forall i, k | 0 <= i < |students| && 0 <= k < |students[i].required|
          ensures IlpSolver.Assigned(ss, students[i].id, students[i].required[k])
        {
          if i < |init| {
            assert init[i] == students[i];
          }
        }
      }
    }
  }

  /** `score_required_courses`: fulfilled out of required, e.g. "3/4 required courses
      fulfilled"; full marks exactly when every required course is scheduled. */
  function ScoreRequiredCourses(ss: seq<Section>, students: seq<Student>): (r: SoftScore)
    ensures r.constraint == "RequiredCourses"
    ensures 0.0 <= r.score <= r.maxScore && r.maxScore == TotalRequired(students) as real
    ensures r.score == r.maxScore <==> AllRequiredMet(ss, students)
  {
    RequiredBounds(ss, students);
    var fulfilled, total := FulfilledAll(ss, students), TotalRequired(students);
    SoftScore("RequiredCourses", fulfilled as real, total as real,
              NatToString(fulfilled) + "/" + NatToString(total) + " required courses fulfilled")
  }

  // ---- Elective preferences ---------------------------------------------------------

  /** Points a preference list can earn: rank weights 10, 9, ..., 1, 1, ... */
  function ElectiveMax(n: nat): nat {
    if n == 0 then 0 else ElectiveMax(n - 1) + IlpSolver.RankWeight(n - 1)
  }

  /** Points a student earns: the rank weight of every preference scheduled for them. */
  function ElectivePoints(ss: seq<Section>, id: StudentId, prefs: seq<CourseId>): nat {
    if |prefs| == 0 then 0
    else
      var n := |prefs| - 1;
      ElectivePoints(ss, id, prefs[..n]) + (if IlpSolver.Assigned(ss, id, prefs[n]) then IlpSolver.RankWeight(n) else 0)
  }

  function StudentsMax(students: seq<Student>): nat {
    if |students| == 0 then 0
    else StudentsMax(students[..|students| - 1]) + ElectiveMax(|students[|students| - 1].electives|)
  }

  function StudentsPoints(ss: seq<Section>, students: seq<Student>): nat {
    if |students| == 0 then 0
    else
      var st := students[|students| - 1];
      StudentsPoints(ss, students[..|students| - 1]) + ElectivePoints(ss, st.id, st.electives)
  }

  /** Every elective preference of every student is scheduled. */
  predicate AllPreferencesMet(ss: seq<Section>, students: seq<Student>) {
    forall i, k :: 0 <= i < |students| && 0 <= k < |students[i].electives| ==>
      IlpSolver.Assigned(ss, students[i].id, students[i].electives[k])
  }

  /** A student's points never exceed the list's maximum, and reach it exactly when every
      preference is scheduled. */
  lemma {:induction false} ElectivePointsBounds(ss: seq<Section>, id: StudentId, prefs: seq<CourseId>)
    ensures ElectivePoints(ss, id, prefs) <= ElectiveMax(|prefs|)
    ensures ElectivePoints(ss, id, prefs) == ElectiveMax(|prefs|) <==>
              forall k :: 0 <= k < |prefs| ==> IlpSolver.Assigned(ss, id, prefs[k])
    ensures |prefs| <= ElectiveMax(|prefs|) <= 10 * |prefs|
  {
    if |prefs| > 0 {
      var n := |prefs| - 1;
      var init := prefs[..n];
      ElectivePointsBounds(ss, id, init);
      assert forall k :: 0 <= k < n ==> init[k] == prefs[k];
    }
  }

  /** Over all students: points within the maximum, full exactly when every preference is
      met, and no points available exactly when nobody lists an elective. */
  lemma {:induction false} ElectiveBounds(ss: seq<Section>, students: seq<Student>)
    ensures StudentsPoints(ss, students) <= StudentsMax(students)
    ensures StudentsPoints(ss, students) == StudentsMax(students) <==> AllPreferencesMet(ss, students)
    ensures StudentsMax(students) == 0 <==> forall i :: 0 <= i < |students| ==> students[i].electives == []
  {
    if |students| > 0 {
      var init, st := students[..|students| - 1], students[|students| - 1];
      ElectiveBounds(ss, init);
      ElectivePointsBounds(ss, st.id, st.electives);
      assert forall i :: 0 <= i < |init| ==> init[i] == students[i];
      if StudentsPoints(ss, students) == StudentsMax(students) {
        forall i, k | 0 <= i < |students| && 0 <= k < |students[i].electives|
          ensures IlpSolver.Assigned(ss, students[i].id, students[i].electives[k])
        {
          if i < |init| {
            assert init[i] == students[i];
          }
        }
      }
    }
  }

  /** The inner loop for one student: each preference adds its weight to the maximum, and
      to the points when scheduled. */
  method StudentElectives(ss: seq<Section>, st: Student) returns (points: nat, max: nat)
    ensures points == ElectivePoints(ss, st.id, st.electives) && max == ElectiveMax(|st.electives|)
  {
    points, max := 0, 0;
    for rank := 0 to |st.electives|
      invariant points == ElectivePoints(ss, st.id, st.electives[..rank]) && max == ElectiveMax(rank)
    {
      var weight := IlpSolver.RankWeight(rank);
      max := max + weight;
      var present := IlpSolver.IsAssigned(ss, st.id, st.electives[rank]);
      if present {
        points := points + weight;
      }
      assert st.electives[..rank + 1][..rank] == st.electives[..rank];
    }
    assert st.electives[..|st.electives|] == st.electives;
  }

  /** `{:.1}` of a whole number. */
  function OneDecimal(n: nat): string {
    NatToString(n) + ".0"
  }

  /** `score_elective_preferences`: points earned out of points available, summed over all
      students. The `f64` sums of weights of at most 10 are whole numbers, kept exact here. */
  method ScoreElectivePreferences(ss: seq<Section>, students: seq<Student>) returns (r: SoftScore)
    ensures r.constraint == "ElectivePreferences"
    ensures r.score == StudentsPoints(ss, students) as real && r.maxScore == StudentsMax(students) as real
    ensures r.details == OneDecimal(StudentsPoints(ss, students)) + "/" + OneDecimal(StudentsMax(students)) + " elective preference points"
  {
    var totalPoints, maxPoints := 0, 0;
    for i := 0 to |students|
      invariant totalPoints == StudentsPoints(ss, students[..i]) && maxPoints == StudentsMax(students[..i])
    {
      var points, max := StudentElectives(ss, students[i]);
      totalPoints, maxPoints := totalPoints + points, maxPoints + max;
      assert students[..i + 1][..i] == students[..i];
    }
    assert students[..|students|] == students;
    r := SoftScore("ElectivePreferences", totalPoints as real, maxPoints as real,
                   OneDecimal(totalPoints) + "/" + OneDecimal(maxPoints) + " elective preference points");
  }

  // ---- Section balance --------------------------------------------------------------

  /** Enrolments per course, in section order (`by_course`). */
  function ByCourse(ss: seq<Section>): map<CourseId, seq<nat>> {
    if |ss| == 0 then map[]
    else
      var m, s := ByCourse(ss[..|ss| - 1]), ss[|ss| - 1];
      m[s.courseId := (if s.courseId in m then m[s.courseId] else []) + [s.Enrollment()]]
  }

  /** The map has a key per course with a section, holding exactly those sections'
      enrolments. */
  lemma {:induction false} ByCourseHas(ss: seq<Section>, c: CourseId, e: nat)
    ensures c in ByCourse(ss) <==> exists i :: 0 <= i < |ss| && ss[i].courseId == c
    ensures c in ByCourse(ss) ==>
              (e in ByCourse(ss)[c] <==> exists i :: 0 <= i < |ss| && ss[i].courseId == c && ss[i].Enrollment() == e)
  {
    if |ss| > 0 {
      var init := ss[..|ss| - 1];
      ByCourseHas(init, c, e);
      assert forall i :: 0 <= i < |init| ==> init[i] == ss[i];
      if c in ByCourse(init) && e in ByCourse(ss)[c] && e !in ByCourse(init)[c] {
        assert ss[|ss| - 1].Enrollment() == e;
      }
    }
  }

  /** `iter().max().unwrap_or(&0)`. */
  function MaxOf(e: seq<nat>): (r: nat)
    ensures forall k :: 0 <= k < |e| ==> e[k] <= r
    ensures |e| > 0 ==> r in e
  {
    if |e| == 0 then 0
    else
      var m := MaxOf(e[..|e| - 1]);
      if e[|e| - 1] > m then e[|e| - 1] else m
  }

  /** `iter().min().unwrap_or(&0)`. */
  function MinOf(e: seq<nat>): (r: nat)
    ensures forall k :: 0 <= k < |e| ==> r <= e[k]
    ensures |e| > 0 ==> r in e
  {
    if |e| == 0 then 0
    else if |e| == 1 then e[0]
    else
      var m := MinOf(e[..|e| - 1]);
      if e[|e| - 1] < m then e[|e| - 1] else m
  }

  predicate AllEqual(e: seq<nat>) {
    forall a, b :: 0 <= a < |e| && 0 <= b < |e| ==> e[a] == e[b]
  }

  /** A course's imbalance `(max - min) / max`, or 0 when every section is empty. */
  function Imbalance(e: seq<nat>): (r: real)
    ensures 0.0 <= r <= 1.0
    ensures r == 0.0 <==> AllEqual(e)
  {
    var max, min := MaxOf(e), MinOf(e);
    assert AllEqual(e) <==> max == min by {
      if |e| > 0 && max == min {
        assert forall a :: 0 <= a < |e| ==> e[a] == max;
      }
    }
    if max > 0 then
      FractionBounds((max - min) as real, max as real);
      (max - min) as real / max as real
    else 0.0
  }

  lemma FractionBounds(x: real, y: real)
    requires 0.0 <= x <= y && 0.0 < y
    ensures 0.0 <= x / y <= 1.0
    ensures x / y == 0.0 <==> x == 0.0
  {
  }

  /** Every two sections of one course have the same enrolment. */
  predicate Balanced(ss: seq<Section>) {
    forall i, j :: 0 <= i < |ss| && 0 <= j < |ss| && ss[i].courseId == ss[j].courseId ==>
      ss[i].Enrollment() == ss[j].Enrollment()
  }

  /** Balance, course group by course group. */
  lemma BalancedByCourse(ss: seq<Section>)
    ensures Balanced(ss) <==> forall c :: c in ByCourse(ss) ==> AllEqual(ByCourse(ss)[c])
  {
    var m := ByCourse(ss);
    if Balanced(ss) {
      forall c, a, b | c in m && 0 <= a < |m[c]| && 0 <= b < |m[c]|
        ensures m[c][a] == m[c][b]
      {
        ByCourseHas(ss, c, m[c][a]);
        ByCourseHas(ss, c, m[c][b]);
      }
    } else {
      var i, j :| 0 <= i < |ss| && 0 <= j < |ss| && ss[i].courseId == ss[j].courseId
                  && ss[i].Enrollment() != ss[j].Enrollment();
      var c := ss[i].courseId;
      ByCourseHas(ss, c, ss[i].Enrollment());
      ByCourseHas(ss, c, ss[j].Enrollment());
      var a :| 0 <= a < |m[c]| && m[c][a] == ss[i].Enrollment();
      var b :| 0 <= b < |m[c]| && m[c][b] == ss[j].Enrollment();
      assert !AllEqual(m[c]);
    }
  }

  /** The grouping loop of `score_section_balance`. */
  method GroupEnrollments(sections: seq<Section>) returns (byCourse: map<CourseId, seq<nat>>)
    ensures byCourse == ByCourse(sections)
  {
    byCourse := map[];
    for i := 0 to |sections|
      invariant byCourse == ByCourse(sections[..i])
    {
      var c := sections[i].courseId;
      var enrollments := if c in byCourse then byCourse[c] else [];
      byCourse := byCourse[c := enrollments + [sections[i].Enrollment()]];
      assert sections[..i + 1][..i] == sections[..i];
    }
    assert sections[..|sections|] == sections;
  }

  /** `score_section_balance`: 100 minus the average imbalance, in percent, of the courses
      with at least two sections; out of 100, and full marks exactly when the sections of
      every course are equally filled. The courses are visited in hash order; the sum of
      reals does not depend on it. */
  method ScoreSectionBalance(sections: seq<Section>) returns (r: SoftScore)
    ensures r.constraint == "SectionBalance" && r.maxScore == 100.0
    ensures 0.0 <= r.score <= 100.0
    ensures r.score == 100.0 <==> Balanced(sections)
  {
    var byCourse := GroupEnrollments(sections);
    var courses := Elements(byCourse.Keys);
    var totalImbalance, courseCount := 0.0, 0;
    for k := 0 to |courses|
      invariant 0.0 <= totalImbalance <= courseCount as real
      invariant totalImbalance == 0.0 <==> forall j :: 0 <= j < k ==> AllEqual(byCourse[courses[j]])
    {
      var enrollments := byCourse[courses[k]];
      if |enrollments| < 2 {
        continue;
      }
      var imbalance := Imbalance(enrollments);
      totalImbalance := totalImbalance + imbalance;
      courseCount := courseCount + 1;
    }
    var avgImbalance := if courseCount > 0 then totalImbalance / courseCount as real else 0.0;
    assert 0.0 <= avgImbalance <= 1.0;
    assert avgImbalance == 0.0 <==> totalImbalance == 0.0;
    BalancedByCourse(sections);
    r := SoftScore("SectionBalance", (1.0 - avgImbalance) * 100.0, 100.0, "");
  }

  /** `calculate_soft_scores`: the three scores in order, each between 0 and its maximum. */
  method CalculateSoftScores(sections: seq<Section>, students: seq<Student>) returns (r: seq<SoftScore>)
    ensures |r| == 3
    ensures r[0] == ScoreRequiredCourses(sections, students)
    ensures r[1].constraint == "ElectivePreferences"
    ensures r[1].score == StudentsPoints(sections, students) as real && r[1].maxScore == StudentsMax(students) as real
    ensures r[2].constraint == "SectionBalance" && (r[2].score == 100.0 <==> Balanced(sections))
    ensures forall i :: 0 <= i < |r| ==> 0.0 <= r[i].score <= r[i].maxScore
  {
    var electives := ScoreElectivePreferences(sections, students);
    var balance := ScoreSectionBalance(sections);
    ElectiveBounds(sections, students);
    r := [ScoreRequiredCourses(sections, students), electives, balance];
  }
}
