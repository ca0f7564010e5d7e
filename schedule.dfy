/** The generated schedule and its lookups. */
module Schedules {
  import opened Wrappers
  import opened Ids
  import opened Seqs
  import opened Periods
  import opened Sections

  /** A required course a student could not be placed in, with the reason. */
  datatype UnassignedCourse = UnassignedCourse(studentId: StudentId, courseId: CourseId, reason: string)

  /** `ScheduleMetadata`; the score is a float and is carried, not computed, here. */
  datatype Metadata = Metadata(generatedAt: string, algorithmVersion: string, score: real, solveTimeMs: nat)

  /** `ScheduleMetadata::default()`: empty strings and zero score and time. */
  const DefaultMetadata: Metadata := Metadata("", "", 0.0, 0)

  datatype Schedule = Schedule(sections: seq<Section>, unassigned: seq<UnassignedCourse>, metadata: Metadata)

  /** `sections_for_course`: the sections of course `c`, in schedule order. */
  function SectionsForCourse(ss: seq<Section>, c: CourseId): (r: seq<Section>)
    ensures forall i :: 0 <= i < |r| ==> r[i].courseId == c && r[i] in ss
    ensures forall i :: 0 <= i < |ss| && ss[i].courseId == c ==> ss[i] in r
  {
    Filter(ss, (s: Section) => s.courseId == c)
  }

  /** `student_sections`: the sections enrolling student `st`, in schedule order. */
  function StudentSections(ss: seq<Section>, st: StudentId): (r: seq<Section>)
    ensures forall i :: 0 <= i < |r| ==> r[i].HasStudent(st) && r[i] in ss
    ensures forall i :: 0 <= i < |ss| && ss[i].HasStudent(st) ==> ss[i] in r
  {
    Filter(ss, (s: Section) => s.HasStudent(st))
  }

  /** Both lookups keep schedule order: the sections found in a concatenation are those
      found in the first part followed by those found in the second. */
  lemma LookupsKeepOrder(a: seq<Section>, b: seq<Section>, c: CourseId, st: StudentId)
    ensures SectionsForCourse(a + b, c) == SectionsForCourse(a, c) + SectionsForCourse(b, c)
    ensures StudentSections(a + b, st) == StudentSections(a, st) + StudentSections(b, st)
  {
    FilterAppend(a, b, (s: Section) => s.courseId == c);
    FilterAppend(a, b, (s: Section) => s.HasStudent(st));
  }

  /** Index of the first section with the given id. */
  function FirstWithId(ss: seq<Section>, id: SectionId): (r: Option<nat>)
    ensures r.None? <==> forall i :: 0 <= i < |ss| ==> ss[i].id != id
    ensures r.Some? ==> r.value < |ss| && ss[r.value].id == id
    ensures r.Some? ==> forall j :: 0 <= j < r.value ==> ss[j].id != id
  {
    if |ss| == 0 then None
    else if ss[0].id == id then Some(0)
    else
      assert forall i :: 1 <= i < |ss| ==> ss[i] == ss[1..][i - 1];
      match FirstWithId(ss[1..], id)
      case None => None
      case Some(k) => Some(k + 1)
  }

  /** `get_section`: the first section with the given id, if any. */
  function GetSection(ss: seq<Section>, id: SectionId): (r: Option<Section>)
    ensures r.None? <==> forall i :: 0 <= i < |ss| ==> ss[i].id != id
    ensures r.Some? ==> r.value.id == id
    ensures r.Some? ==> exists i :: (0 <= i < |ss| && ss[i] == r.value &&
                                     forall j :: 0 <= j < i ==> ss[j].id != id)
  {
    match FirstWithId(ss, id)
    case None => None
    case Some(i) => Some(ss[i])
  }

  /** `section_index_map`: id to index, built by collecting (id, index) pairs in order, so
      with repeated ids the last index wins. */
  function SectionIndexMap(ss: seq<Section>): (m: map<SectionId, nat>)
    ensures forall i :: 0 <= i < |ss| ==> ss[i].id in m
    ensures forall id :: id in m ==> m[id] < |ss| && ss[m[id]].id == id
    ensures forall id, j :: id in m && m[id] < j < |ss| ==> ss[j].id != id
  {
    var ids := seq(|ss|, i requires 0 <= i < |ss| => ss[i].id);
    assert forall i :: 0 <= i < |ss| ==> ids[i] == ss[i].id;
    LastIndex(ids)
  }

  /** `total_assignments`: the sum of section enrolments; zero exactly when no section
      enrols anybody. */
  function TotalAssignments(ss: seq<Section>): (n: nat)
    ensures n == 0 <==> forall i :: 0 <= i < |ss| ==> ss[i].Enrollment() == 0
    ensures forall i :: 0 <= i < |ss| ==> ss[i].Enrollment() <= n
  {
    if |ss| == 0 then 0
    else
      assert forall i :: 1 <= i < |ss| ==> ss[i] == ss[1..][i - 1];
      ss[0].Enrollment() + TotalAssignments(ss[1..])
  }

  lemma {:induction false} TotalAssignmentsAppend(a: seq<Section>, b: seq<Section>)
    ensures TotalAssignments(a + b) == TotalAssignments(a) + TotalAssignments(b)
  {
    if |a| == 0 {
      assert a + b == b;
    } else {
      assert (a + b)[1..] == a[1..] + b;
      TotalAssignmentsAppend(a[1..], b);
    }
  }

  /** The periods of a sequence, as the set a `HashSet` collects them into. */
  function PeriodSet(ps: seq<Period>): set<Period> {
    set p | p in ps
  }

  /** The periods of the sections enrolling the student, gathered section by section. */
  function StudentPeriods(ss: seq<Section>, id: StudentId): set<Period> {
    if |ss| == 0 then {}
    else StudentPeriods(ss[..|ss| - 1], id) + (if id in ss[|ss| - 1].enrolled then PeriodSet(ss[|ss| - 1].periods) else {})
  }

  /** A period belongs to the student exactly when some section enrolling the student
      meets then. */
  lemma {:induction false} StudentPeriodsHas(ss: seq<Section>, id: StudentId, p: Period)
    ensures p in StudentPeriods(ss, id) <==> exists i :: 0 <= i < |ss| && id in ss[i].enrolled && p in ss[i].periods
  {
    if |ss| > 0 {
      var init := ss[..|ss| - 1];
      StudentPeriodsHas(init, id, p);
      if p in StudentPeriods(init, id) {
        var i :| 0 <= i < |init| && id in init[i].enrolled && p in init[i].periods;
        assert ss[i] == init[i];
      }
      if exists i :: 0 <= i < |ss| && id in ss[i].enrolled && p in ss[i].periods {
        var i :| 0 <= i < |ss| && id in ss[i].enrolled && p in ss[i].periods;
        if i < |init| {
          assert init[i] == ss[i];
        }
      }
    }
  }

  /** Indices of the sections of course `c`, in index order. */
  function IndicesWithCourse(ss: seq<Section>, c: CourseId): (r: seq<nat>)
    ensures forall k :: 0 <= k < |r| ==> r[k] < |ss| && ss[r[k]].courseId == c
    ensures forall i :: 0 <= i < |ss| && ss[i].courseId == c ==> i in r
    ensures forall a, b :: 0 <= a < b < |r| ==> r[a] < r[b]
  {
    if |ss| == 0 then []
    else
      var init := IndicesWithCourse(ss[..|ss| - 1], c);
      if ss[|ss| - 1].courseId == c then init + [|ss| - 1] else init
  }

  function Group(m: map<CourseId, seq<nat>>, c: CourseId): seq<nat> {
    if c in m then m[c] else []
  }

  /** `sections_by_course`: each course's section indices, in index order. */
  method GroupByCourse(sections: array<Section>) returns (m: map<CourseId, seq<nat>>)
    ensures forall c :: Group(m, c) == IndicesWithCourse(sections[..], c)
    ensures forall c :: c in m <==> IndicesWithCourse(sections[..], c) != []
  {
    ghost var ss := sections[..];
    m := map[];
    for i := 0 to sections.Length
      invariant m == GroupsOf(ss[..i])
    {
      var c := sections[i].courseId;
      assert ss[..i + 1][..i] == ss[..i];
      m := m[c := Group(m, c) + [i]];
    }
    assert ss[..sections.Length] == ss;
    GroupsOfIndices(ss);
  }

  /** The grouping built one section at a time. */
  function GroupsOf(ss: seq<Section>): map<CourseId, seq<nat>> {
    if |ss| == 0 then map[]
    else
      var m := GroupsOf(ss[..|ss| - 1]);
      var c := ss[|ss| - 1].courseId;
      m[c := Group(m, c) + [|ss| - 1]]
  }

  /** Each course maps to the indices of its sections, and only courses with sections
      are keys. */
  lemma {:induction false} GroupsOfIndices(ss: seq<Section>)
    ensures forall c :: Group(GroupsOf(ss), c) == IndicesWithCourse(ss, c)
    ensures forall c :: c in GroupsOf(ss) <==> IndicesWithCourse(ss, c) != []
  {
    if |ss| > 0 {
      var init := ss[..|ss| - 1];
      GroupsOfIndices(init);
      assert ss == init + [ss[|ss| - 1]];
      GroupStep(GroupsOf(init), init, ss[|ss| - 1]);
    }
  }

  /** Adding the next section's index under its course keeps the grouping exact. */
  lemma GroupStep(m: map<CourseId, seq<nat>>, ss: seq<Section>, x: Section)
    requires forall c :: Group(m, c) == IndicesWithCourse(ss, c)
    ensures forall c :: Group(m[x.courseId := Group(m, x.courseId) + [|ss|]], c) == IndicesWithCourse(ss + [x], c)
  {
    forall c
      ensures Group(m[x.courseId := Group(m, x.courseId) + [|ss|]], c) == IndicesWithCourse(ss + [x], c)
    {
      IndicesSnoc(ss, x, c);
    }
  }

  lemma {:induction false} IndicesSnoc(ss: seq<Section>, x: Section, c: CourseId)
    ensures IndicesWithCourse(ss + [x], c) == IndicesWithCourse(ss, c) + (if x.courseId == c then [|ss|] else [])
  {
    assert (ss + [x])[..|ss|] == ss;
  }
}
