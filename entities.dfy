/** The input records: students, courses, teachers and rooms, with their queries. */
module Students {
  import opened Wrappers
  import opened Ids
  import opened Seqs

  /** A student; electives are listed in priority order, first = highest. */
  datatype Student = Student(
    id: StudentId,
    name: string,
    grade: u8,
    required: seq<CourseId>,
    electives: seq<CourseId>)
  {
    /** `all_requested_courses`: required courses, then electives, both in order. */
    function AllRequestedCourses(): (r: seq<CourseId>)
      ensures |r| == |required| + |electives|
      ensures r[..|required|] == required && r[|required|..] == electives
    {
      required + electives
    }

    /** `wants_course`. */
    predicate WantsCourse(c: CourseId) {
      c in required || c in electives
    }

    /** `elective_rank`: index of the first occurrence among the electives. */
    function ElectiveRank(c: CourseId): (r: Option<nat>)
      ensures r.None? <==> c !in electives
      ensures r.Some? ==> r.value < |electives| && electives[r.value] == c
      ensures r.Some? ==> forall k :: 0 <= k < r.value ==> electives[k] != c
    {
      var r := Position(electives, c);
      assert r.Some? ==> forall k :: 0 <= k < r.value ==> electives[k] == electives[..r.value][k];
      r
    }
  }

  /** A student wants exactly the courses it requests. */
  lemma WantsIffRequested(st: Student, c: CourseId)
    ensures st.WantsCourse(c) <==> c in st.AllRequestedCourses()
  {
    var all := st.AllRequestedCourses();
    if c in st.electives {
      var k :| 0 <= k < |st.electives| && st.electives[k] == c;
      assert all[|st.required| + k] == c;
    }
  }
}

module Courses {
  import opened Wrappers
  import opened Ids
  import opened Seqs

  /** A course offering. */
  datatype Course = Course(
    id: CourseId,
    name: string,
    maxStudents: u32,
    periodsPerWeek: u8,
    gradeRestrictions: Option<seq<u8>>,
    requiredFeatures: seq<string>,
    sections: u8)
  {
    /** `allows_grade`. */
    predicate AllowsGrade(g: u8) {
      match gradeRestrictions
      case Some(gs) => g in gs
      case None => true
    }
  }

  /** `default_periods_per_week`. */
  const DefaultPeriodsPerWeek: u8 := 5

  /** A course as deserialised from input: an absent `periods_per_week` becomes 5,
      absent grade restrictions become `None` and absent required features become empty. */
  function FromInput(
    id: CourseId, name: string, maxStudents: u32, sections: u8,
    periodsPerWeek: Option<u8>, gradeRestrictions: Option<Option<seq<u8>>>,
    requiredFeatures: Option<seq<string>>): (c: Course)
    ensures c.id == id && c.name == name && c.maxStudents == maxStudents && c.sections == sections
    ensures c.periodsPerWeek == (if periodsPerWeek.Some? then periodsPerWeek.value else 5)
    ensures gradeRestrictions.None? ==> c.gradeRestrictions == None && forall g :: c.AllowsGrade(g)
    ensures gradeRestrictions.Some? ==> c.gradeRestrictions == gradeRestrictions.value
    ensures requiredFeatures.None? ==> c.requiredFeatures == []
    ensures requiredFeatures.Some? ==> c.requiredFeatures == requiredFeatures.value
  {
    Course(id, name, maxStudents, periodsPerWeek.GetOr(DefaultPeriodsPerWeek),
      gradeRestrictions.GetOr(None), requiredFeatures.GetOr([]), sections)
  }

  /** `courses.iter().map(|c| (&c.id, c)).collect()`: with repeated ids the last course wins. */
  function ById(cs: seq<Course>): (m: map<CourseId, Course>)
    ensures forall k :: k in m ==> m[k] in cs && m[k].id == k
    ensures forall i :: 0 <= i < |cs| ==> cs[i].id in m
  {
    KeyedBy(cs, (c: Course) => c.id)
  }

  /** Without restrictions every grade may enrol; an empty restriction list admits none. */
  lemma AllowsGradeCases(c: Course, g: u8)
    ensures c.gradeRestrictions == None ==> c.AllowsGrade(g)
    ensures c.gradeRestrictions == Some([]) ==> !c.AllowsGrade(g)
    ensures c.gradeRestrictions.Some? ==> (c.AllowsGrade(g) <==> g in c.gradeRestrictions.value)
  {
  }
}

module Teachers {
  import opened Ids
  import opened Periods
  import opened Seqs

  /** A teacher with the courses it may teach and its unavailable periods. */
  datatype Teacher = Teacher(
    id: TeacherId,
    name: string,
    subjects: seq<CourseId>,
    maxSections: u8,
    unavailable: seq<Period>)
  {
    /** `can_teach`. */
    predicate CanTeach(c: CourseId) {
      c in subjects
    }

    /** `is_available`. */
    predicate IsAvailable(p: Period) {
      p !in unavailable
    }
  }

  /** `teachers.iter().map(|t| (&t.id, t)).collect()`: with repeated ids the last teacher wins. */
  function ById(ts: seq<Teacher>): (m: map<TeacherId, Teacher>)
    ensures forall k :: k in m ==> m[k] in ts && m[k].id == k
    ensures forall i :: 0 <= i < |ts| ==> ts[i].id in m
  {
    KeyedBy(ts, (t: Teacher) => t.id)
  }

  /** A teacher deserialised without an `unavailable` list is available at every period. */
  lemma DefaultAvailability(t: Teacher, p: Period)
    requires t.unavailable == []
    ensures t.IsAvailable(p)
  {
  }

  /** Availability compares both the day and the slot: blocking one slot on one day
      leaves that slot free on every other day. */
  lemma AvailabilityPerDayAndSlot(t: Teacher, p: Period)
    ensures t.IsAvailable(p) <==> forall k :: 0 <= k < |t.unavailable| ==>
      t.unavailable[k].day != p.day || t.unavailable[k].slot != p.slot
  {
    if !t.IsAvailable(p) {
      var k :| 0 <= k < |t.unavailable| && t.unavailable[k] == p;
    }
  }
}

module Rooms {
  import opened Ids
  import opened Periods

  /** A room with its capacity, features and unavailable periods. */
  datatype Room = Room(
    id: RoomId,
    name: string,
    capacity: u32,
    features: seq<string>,
    unavailable: seq<Period>)
  {
    /** `has_features`: every required feature is present. */
    predicate HasFeatures(required: seq<string>) {
      forall k :: 0 <= k < |required| ==> required[k] in features
    }

    /** `is_available`. */
    predicate IsAvailable(p: Period) {
      p !in unavailable
    }
  }

  /** No requirement is always met, and meeting a list of requirements meets every list
      drawn from it. */
  lemma HasFeaturesMonotone(r: Room, required: seq<string>, fewer: seq<string>)
    requires r.HasFeatures(required)
    requires forall k :: 0 <= k < |fewer| ==> fewer[k] in required
    ensures r.HasFeatures(fewer)
    ensures r.HasFeatures([])
  {
  }
}
