/** `validate_input`: checks of the input data before scheduling. Errors (repeated ids,
    requests for unknown courses, courses nobody can teach) make the input invalid;
    warnings (unknown teacher subjects, unusual grades, courses larger than every room)
    do not. */
module InputValidation {
  import opened Wrappers
  import opened Ids
  import opened Seqs
  import opened Text
  import opened Students
  import opened Teachers
  import opened Courses
  import opened Rooms
  import opened Constraints
  import SectionCreator

  /** The collected errors and warnings, appended to in place. */
  class ValidationResult {
    var errors: seq<string>
    var warnings: seq<string>

    /** `ValidationResult::default()`. */
    constructor ()
      ensures errors == [] && warnings == []
    {
      errors, warnings := [], [];
    }

    /** `is_valid`: no error was added. */
    predicate IsValid()
      reads this
    {
      errors == []
    }

    /** `add_error`. */
    method AddError(msg: string)
      modifies this
      ensures errors == old(errors) + [msg] && warnings == old(warnings)
    {
      errors := errors + [msg];
    }

    /** `add_warning`. */
    method AddWarning(msg: string)
      modifies this
      ensures warnings == old(warnings) + [msg] && errors == old(errors)
    {
      warnings := warnings + [msg];
    }
  }

  // ---- Repeated ids ------------------------------------------------------------------

  /** The ids of a list of records, in order. */
  function IdsOf<T>(items: seq<T>, id: T -> string): (r: seq<string>)
    ensures |r| == |items|
  {
    if |items| == 0 then [] else IdsOf(items[..|items| - 1], id) + [id(items[|items| - 1])]
  }

  lemma {:induction false} IdsOfAt<T>(items: seq<T>, id: T -> string, k: nat)
    requires k < |items|
    ensures IdsOf(items, id)[k] == id(items[k])
  {
    if k < |items| - 1 {
      IdsOfAt(items[..|items| - 1], id, k);
    }
  }

  /** E.g. "Duplicate student ID: 's1'". */
  function DuplicateError(noun: string, id: string): string {
    "Duplicate " + noun + " ID: '" + id + "'"
  }

  /** One error for every id that repeats an earlier one, in order. */
  function DuplicateErrors(noun: string, ids: seq<string>): seq<string> {
    if |ids| == 0 then []
    else
      var init, x := ids[..|ids| - 1], ids[|ids| - 1];
      DuplicateErrors(noun, init) + (if x in init then [DuplicateError(noun, x)] else [])
  }

  /** No duplicate error exactly when the ids are pairwise distinct. */
  lemma {:induction false} DuplicateErrorsNone(noun: string, ids: seq<string>)
    ensures DuplicateErrors(noun, ids) == [] <==> Distinct(ids)
  {
    if |ids| > 0 {
      var init, x := ids[..|ids| - 1], ids[|ids| - 1];
      DuplicateErrorsNone(noun, init);
      assert ids == init + [x];
      if x in init {
        var a :| 0 <= a < |init| && init[a] == x;
        assert ids[a] == ids[|ids| - 1];
      } else if Distinct(init) {
        forall a, c | 0 <= a < c < |ids|
          ensures ids[a] != ids[c]
        {
          assert ids[a] == init[a];
          if c < |ids| - 1 {
            assert ids[c] == init[c];
          }
        }
      } else {
        var a, c :| 0 <= a < c < |init| && init[a] == init[c];
        assert ids[a] == ids[c];
      }
    }
  }

  /** As many duplicate errors as ids beyond the distinct ones. */
  lemma {:induction false} DuplicateErrorsCount(noun: string, ids: seq<string>)
    ensures |DuplicateErrors(noun, ids)| + |set x | x in ids| == |ids|
  {
    if |ids| > 0 {
      var init, x := ids[..|ids| - 1], ids[|ids| - 1];
      DuplicateErrorsCount(noun, init);
      assert ids == init + [x];
      if x in init {
        assert (set y | y in ids) == (set y | y in init);
      } else {
        assert (set y | y in ids) == (set y | y in init) + {x};
      }
    }
  }

  /** `check_duplicate_ids` and its teacher, course and room twins: a failed `insert`
      into the set of ids seen adds an error. */
  method CheckDuplicateIds<T>(noun: string, items: seq<T>, id: T -> string, result: ValidationResult)
    modifies result
    ensures result.errors == old(result.errors) + DuplicateErrors(noun, IdsOf(items, id))
    ensures result.warnings == old(result.warnings)
  {
    var seen: set<string> := {};
    for i := 0 to |items|
      invariant result.errors == old(result.errors) + DuplicateErrors(noun, IdsOf(items[..i], id))
      invariant result.warnings == old(result.warnings)
      invariant forall x :: x in seen <==> x in IdsOf(items[..i], id)
    {
      var x := id(items[i]);
      assert items[..i + 1][..i] == items[..i];
      if x in seen {
        result.AddError(DuplicateError(noun, x));
      } else {
        seen := seen + {x};
      }
    }
    assert items[..|items|] == items;
  }

  // ---- Course references -------------------------------------------------------------

  /** The ids of the courses given. */
  function CourseIdSet(courses: seq<Course>): set<CourseId> {
    set i | 0 <= i < |courses| :: courses[i].id
  }

  /** One message per reference to a course outside `known`, in order. */
  function UnknownMessages(refs: seq<CourseId>, known: set<CourseId>, msg: CourseId -> string): seq<string> {
    if |refs| == 0 then []
    else
      var c := refs[|refs| - 1];
      UnknownMessages(refs[..|refs| - 1], known, msg) + (if c !in known then [msg(c)] else [])
  }

  lemma {:induction false} UnknownMessagesNone(refs: seq<CourseId>, known: set<CourseId>, msg: CourseId -> string)
    ensures UnknownMessages(refs, known, msg) == [] <==> forall k :: 0 <= k < |refs| ==> refs[k] in known
  {
    if |refs| > 0 {
      var init := refs[..|refs| - 1];
      UnknownMessagesNone(init, known, msg);
      assert forall k :: 0 <= k < |init| ==> init[k] == refs[k];
    }
  }

  function StudentRefError(st: StudentId, c: CourseId): string {
    "Student '" + st + "' references unknown course '" + c + "'"
  }

  function TeacherRefWarning(t: TeacherId, c: CourseId): string {
    "Teacher '" + t + "' lists unknown course '" + c + "' in subjects"
  }

  /** Errors for the requested courses, required then elective, of every student. */
  function StudentRefErrors(students: seq<Student>, known: set<CourseId>): seq<string> {
    if |students| == 0 then []
    else
      var st := students[|students| - 1];
      StudentRefErrors(students[..|students| - 1], known)
      + UnknownMessages(st.AllRequestedCourses(), known, c => StudentRefError(st.id, c))
  }

  /** Warnings for the subjects of every teacher. */
  function TeacherRefWarnings(teachers: seq<Teacher>, known: set<CourseId>): seq<string> {
    if |teachers| == 0 then []
    else
      var t := teachers[|teachers| - 1];
      TeacherRefWarnings(teachers[..|teachers| - 1], known)
      + UnknownMessages(t.subjects, known, c => TeacherRefWarning(t.id, c))
  }

  /** Every course a student requests is known. */
  predicate RequestsKnown(students: seq<Student>, known: set<CourseId>) {
    forall i, c :: 0 <= i < |students| && c in students[i].AllRequestedCourses() ==> c in known
  }

  /** Every subject a teacher lists is known. */
  predicate SubjectsKnown(teachers: seq<Teacher>, known: set<CourseId>) {
    forall i, c :: 0 <= i < |teachers| && c in teachers[i].subjects ==> c in known
  }

  lemma {:induction false} StudentRefErrorsNone(students: seq<Student>, known: set<CourseId>)
    ensures StudentRefErrors(students, known) == [] <==> RequestsKnown(students, known)
  {
    if |students| > 0 {
      var init, st := students[..|students| - 1], students[|students| - 1];
      StudentRefErrorsNone(init, known);
      UnknownMessagesNone(st.AllRequestedCourses(), known, c => StudentRefError(st.id, c));
      assert forall i :: 0 <= i < |init| ==> init[i] == students[i];
    }
  }

  lemma {:induction false} TeacherRefWarningsNone(teachers: seq<Teacher>, known: set<CourseId>)
    ensures TeacherRefWarnings(teachers, known) == [] <==> SubjectsKnown(teachers, known)
  {
    if |teachers| > 0 {
      var init, t := teachers[..|teachers| - 1], teachers[|teachers| - 1];
      TeacherRefWarningsNone(init, known);
      UnknownMessagesNone(t.subjects, known, c => TeacherRefWarning(t.id, c));
      assert forall i :: 0 <= i < |init| ==> init[i] == teachers[i];
    }
  }

  /** The loop over one student's requested courses. */
  method CheckStudentRefs(st: Student, known: set<CourseId>, result: ValidationResult)
    modifies result
    ensures result.errors == old(result.errors) + UnknownMessages(st.AllRequestedCourses(), known, c => StudentRefError(st.id, c))
    ensures result.warnings == old(result.warnings)
  {
    var refs := st.AllRequestedCourses();
    for k := 0 to |refs|
      invariant result.errors == old(result.errors) + UnknownMessages(refs[..k], known, c => StudentRefError(st.id, c))
      invariant result.warnings == old(result.warnings)
    {
      assert refs[..k + 1][..k] == refs[..k];
      if refs[k] !in known {
        result.AddError(StudentRefError(st.id, refs[k]));
      }
    }
    assert refs[..|refs|] == refs;
  }

  /** The loop over one teacher's subjects. */
  method CheckTeacherRefs(t: Teacher, known: set<CourseId>, result: ValidationResult)
    modifies result
    ensures result.warnings == old(result.warnings) + UnknownMessages(t.subjects, known, c => TeacherRefWarning(t.id, c))
    ensures result.errors == old(result.errors)
  {
    for k := 0 to |t.subjects|
      invariant result.warnings == old(result.warnings) + UnknownMessages(t.subjects[..k], known, c => TeacherRefWarning(t.id, c))
      invariant result.errors == old(result.errors)
    {
      assert t.subjects[..k + 1][..k] == t.subjects[..k];
      if t.subjects[k] !in known {
        result.AddWarning(TeacherRefWarning(t.id, t.subjects[k]));
      }
    }
    assert t.subjects[..|t.subjects|] == t.subjects;
  }

  /** Student course references: an unknown course is an error. */
  method CheckStudentReferences(students: seq<Student>, known: set<CourseId>, result: ValidationResult)
    modifies result
    ensures result.errors == old(result.errors) + StudentRefErrors(students, known)
    ensures result.warnings == old(result.warnings)
  {
    for i := 0 to |students|
      invariant result.errors == old(result.errors) + StudentRefErrors(students[..i], known)
      invariant result.warnings == old(result.warnings)
    {
      assert students[..i + 1][..i] == students[..i];
      CheckStudentRefs(students[i], known, result);
    }
    assert students[..|students|] == students;
  }

  /** Teacher subject references: an unknown course is only a warning. */
  method CheckTeacherReferences(teachers: seq<Teacher>, known: set<CourseId>, result: ValidationResult)
    modifies result
    ensures result.warnings == old(result.warnings) + TeacherRefWarnings(teachers, known)
    ensures result.errors == old(result.errors)
  {
    for i := 0 to |teachers|
      invariant result.warnings == old(result.warnings) + TeacherRefWarnings(teachers[..i], known)
      invariant result.errors == old(result.errors)
    {
      assert teachers[..i + 1][..i] == teachers[..i];
      CheckTeacherRefs(teachers[i], known, result);
    }
    assert teachers[..|teachers|] == teachers;
  }

  // ---- Qualified teachers ------------------------------------------------------------

  /** Some teacher lists the course among its subjects. */
  predicate Staffed(teachers: seq<Teacher>, c: CourseId) {
    exists k :: 0 <= k < |teachers| && teachers[k].CanTeach(c)
  }

  function UnstaffedError(c: CourseId): string {
    "Course '" + c + "' has no qualified teachers"
  }

  /** One error per course no teacher can teach, in course order. */
  function UnstaffedErrors(courses: seq<Course>, teachers: seq<Teacher>): seq<string> {
    if |courses| == 0 then []
    else
      var c := courses[|courses| - 1];
      UnstaffedErrors(courses[..|courses| - 1], teachers) + (if Staffed(teachers, c.id) then [] else [UnstaffedError(c.id)])
  }

  lemma {:induction false} UnstaffedErrorsNone(courses: seq<Course>, teachers: seq<Teacher>)
    ensures UnstaffedErrors(courses, teachers) == [] <==> forall i :: 0 <= i < |courses| ==> Staffed(teachers, courses[i].id)
  {
    if |courses| > 0 {
      var init := courses[..|courses| - 1];
      UnstaffedErrorsNone(init, teachers);
      assert forall i :: 0 <= i < |init| ==> init[i] == courses[i];
    }
  }

  /** The teacher map has a key for a course exactly when the course is staffed. */
  lemma StaffedIffListed(teachers: seq<Teacher>, c: CourseId)
    ensures SectionCreator.TeachersFor(teachers, c) != [] <==> Staffed(teachers, c)
  {
    SectionCreator.TeachersForQualified(teachers, c);
    var r := SectionCreator.TeachersFor(teachers, c);
    if r != [] {
      assert r[0] in teachers && r[0].CanTeach(c);
      var k :| 0 <= k < |teachers| && teachers[k] == r[0];
    }
  }

  /** One step of `CheckStaffed`: a course adds an error exactly when it has no key in
      the teacher map. */
  lemma UnstaffedStep(courses: seq<Course>, teachers: seq<Teacher>, i: nat, m: map<CourseId, seq<Teacher>>)
    requires i < |courses|
    requires m == SectionCreator.BuildMap(teachers)
    ensures UnstaffedErrors(courses[..i + 1], teachers)
         == UnstaffedErrors(courses[..i], teachers) + (if courses[i].id in m then [] else [UnstaffedError(courses[i].id)])
  {
    assert courses[..i + 1][..i] == courses[..i];
    SectionCreator.LookupBuilt(teachers, courses[i].id);
    StaffedIffListed(teachers, courses[i].id);
  }

  /** Each course needs a key in `build_teachers_by_course`. */
  method CheckStaffed(courses: seq<Course>, teachers: seq<Teacher>, result: ValidationResult)
    modifies result
    ensures result.errors == old(result.errors) + UnstaffedErrors(courses, teachers)
    ensures result.warnings == old(result.warnings)
  {
    var teachersByCourse := SectionCreator.BuildTeachersByCourse(teachers);
    AddUnstaffed(courses, teachers, teachersByCourse, result);
  }

  /** The loop of `CheckStaffed` over the courses, given the teacher map. */
  method AddUnstaffed(courses: seq<Course>, teachers: seq<Teacher>, teachersByCourse: map<CourseId, seq<Teacher>>,
                      result: ValidationResult)
    requires teachersByCourse == SectionCreator.BuildMap(teachers)
    modifies result
    ensures result.errors == old(result.errors) + UnstaffedErrors(courses, teachers)
    ensures result.warnings == old(result.warnings)
  {
    for i := 0 to |courses|
      invariant result.errors == old(result.errors) + UnstaffedErrors(courses[..i], teachers)
      invariant result.warnings == old(result.warnings)
    {
      UnstaffedStep(courses, teachers, i, teachersByCourse);
      if courses[i].id !in teachersByCourse {
        result.AddError(UnstaffedError(courses[i].id));
      }
    }
    assert courses[..|courses|] == courses;
  }

  // ---- Grade restrictions ------------------------------------------------------------

  /** High-school grades are 9 to 12. */
  predicate UsualGrade(g: u8) {
    9 <= g <= 12
  }

  function UnusualGradeWarnings(c: CourseId, grades: seq<u8>): seq<string> {
    if |grades| == 0 then []
    else
      var g := grades[|grades| - 1];
      UnusualGradeWarnings(c, grades[..|grades| - 1])
      + (if UsualGrade(g) then [] else ["Course '" + c + "' has unusual grade restriction: " + NatToString(g)])
  }

  /** One warning per restriction grade outside 9 to 12, course by course. */
  function GradeWarnings(courses: seq<Course>): seq<string> {
    if |courses| == 0 then []
    else
      var c := courses[|courses| - 1];
      GradeWarnings(courses[..|courses| - 1])
      + (match c.gradeRestrictions case Some(gs) => UnusualGradeWarnings(c.id, gs) case None => [])
  }

  /** No grade warning exactly when every listed restriction grade is 9 to 12. */
  lemma {:induction false} GradeWarningsNone(courses: seq<Course>)
    ensures GradeWarnings(courses) == [] <==>
              forall i, g :: 0 <= i < |courses| && courses[i].gradeRestrictions.Some? && g in courses[i].gradeRestrictions.value ==> UsualGrade(g)
  {
    if |courses| > 0 {
      var init, c := courses[..|courses| - 1], courses[|courses| - 1];
      GradeWarningsNone(init);
      if c.gradeRestrictions.Some? {
        UnusualGradesNone(c.id, c.gradeRestrictions.value);
      }
      assert forall i :: 0 <= i < |init| ==> init[i] == courses[i];
    }
  }

  lemma {:induction false} UnusualGradesNone(c: CourseId, grades: seq<u8>)
    ensures UnusualGradeWarnings(c, grades) == [] <==> forall g :: g in grades ==> UsualGrade(g)
  {
    if |grades| > 0 {
      var init := grades[..|grades| - 1];
      UnusualGradesNone(c, init);
      assert grades == init + [grades[|grades| - 1]];
    }
  }

  /** The loop over one course's restriction grades. */
  method CheckCourseGrades(c: CourseId, grades: seq<u8>, result: ValidationResult)
    modifies result
    ensures result.warnings == old(result.warnings) + UnusualGradeWarnings(c, grades)
    ensures result.errors == old(result.errors)
  {
    for k := 0 to |grades|
      invariant result.warnings == old(result.warnings) + UnusualGradeWarnings(c, grades[..k])
      invariant result.errors == old(result.errors)
    {
      assert grades[..k + 1][..k] == grades[..k];
      if grades[k] < 9 || grades[k] > 12 {
        result.AddWarning("Course '" + c + "' has unusual grade restriction: " + NatToString(grades[k]));
      }
    }
    assert grades[..|grades|] == grades;
  }

  method CheckGrades(courses: seq<Course>, result: ValidationResult)
    modifies result
    ensures result.warnings == old(result.warnings) + GradeWarnings(courses)
    ensures result.errors == old(result.errors)
  {
    for i := 0 to |courses|
      invariant result.warnings == old(result.warnings) + GradeWarnings(courses[..i])
      invariant result.errors == old(result.errors)
    {
      assert courses[..i + 1][..i] == courses[..i];
      match courses[i].gradeRestrictions {
        case Some(grades) => CheckCourseGrades(courses[i].id, grades, result);
        case None =>
      }
    }
    assert courses[..|courses|] == courses;
  }

  // ---- Room capacity -----------------------------------------------------------------

  /** `rooms.iter().map(|r| r.capacity).max().unwrap_or(0)`. */
  function MaxRoomCapacity(rooms: seq<Room>): (m: nat)
    ensures forall k :: 0 <= k < |rooms| ==> rooms[k].capacity <= m
    ensures m == 0 || exists k :: 0 <= k < |rooms| && rooms[k].capacity == m
  {
    if |rooms| == 0 then 0
    else
      var m := MaxRoomCapacity(rooms[..|rooms| - 1]);
      var c := rooms[|rooms| - 1].capacity;
      assert forall k :: 0 <= k < |rooms| - 1 ==> rooms[k] == rooms[..|rooms| - 1][k];
      if c > m then c else m
  }

  /** A course size fits under the largest capacity exactly when it is 0 or some room
      holds that many. */
  lemma FitsLargestRoom(rooms: seq<Room>, size: nat)
    ensures size <= MaxRoomCapacity(rooms) <==> size == 0 || exists k :: 0 <= k < |rooms| && size <= rooms[k].capacity
  {
  }

  function OversizeWarning(c: Course, max: nat): string {
    "Course '" + c.id + "' max_students (" + NatToString(c.maxStudents) + ") exceeds largest room capacity ("
    + NatToString(max) + ")"
  }

  /** One warning per course whose `max_students` exceeds the largest room. */
  function CapacityWarnings(courses: seq<Course>, max: nat): seq<string> {
    if |courses| == 0 then []
    else
      var c := courses[|courses| - 1];
      CapacityWarnings(courses[..|courses| - 1], max) + (if c.maxStudents > max then [OversizeWarning(c, max)] else [])
  }

  lemma {:induction false} CapacityWarningsNone(courses: seq<Course>, max: nat)
    ensures CapacityWarnings(courses, max) == [] <==> forall i :: 0 <= i < |courses| ==> courses[i].maxStudents <= max
  {
    if |courses| > 0 {
      var init := courses[..|courses| - 1];
      CapacityWarningsNone(init, max);
      assert forall i :: 0 <= i < |init| ==> init[i] == courses[i];
    }
  }

  method CheckRoomCapacity(courses: seq<Course>, rooms: seq<Room>, result: ValidationResult)
    modifies result
    ensures result.warnings == old(result.warnings) + CapacityWarnings(courses, MaxRoomCapacity(rooms))
    ensures result.errors == old(result.errors)
  {
    var maxRoomCapacity := MaxRoomCapacity(rooms);
    for i := 0 to |courses|
      invariant result.warnings == old(result.warnings) + CapacityWarnings(courses[..i], maxRoomCapacity)
      invariant result.errors == old(result.errors)
    {
      assert courses[..i + 1][..i] == courses[..i];
      if courses[i].maxStudents > maxRoomCapacity {
        result.AddWarning(OversizeWarning(courses[i], maxRoomCapacity));
      }
    }
    assert courses[..|courses|] == courses;
  }

  // ---- The whole check ---------------------------------------------------------------

  function StudentId(s: Student): string { s.id }
  function TeacherId(t: Teacher): string { t.id }
  function CourseKey(c: Course): string { c.id }
  function RoomKey(r: Room): string { r.id }

  /** The errors of the four duplicate-id checks, in order. */
  function DuplicateIdErrors(input: ScheduleInput): seq<string> {
    DuplicateErrors("student", IdsOf(input.students, StudentId))
    + DuplicateErrors("teacher", IdsOf(input.teachers, TeacherId))
    + DuplicateErrors("course", IdsOf(input.courses, CourseKey))
    + DuplicateErrors("room", IdsOf(input.rooms, RoomKey))
  }

  /** Every error `validate_input` collects, in order. */
  function InputErrors(input: ScheduleInput): seq<string> {
    DuplicateIdErrors(input)
    + StudentRefErrors(input.students, CourseIdSet(input.courses))
    + UnstaffedErrors(input.courses, input.teachers)
  }

  /** Every warning `validate_input` collects, in order. */
  function InputWarnings(input: ScheduleInput): seq<string> {
    TeacherRefWarnings(input.teachers, CourseIdSet(input.courses))
    + GradeWarnings(input.courses)
    + CapacityWarnings(input.courses, MaxRoomCapacity(input.rooms))
  }

  /** Input that schedules: ids unique per kind, every requested course exists, and every
      course has a teacher. */
  predicate WellFormed(input: ScheduleInput) {
    Distinct(IdsOf(input.students, StudentId)) && Distinct(IdsOf(input.teachers, TeacherId))
    && Distinct(IdsOf(input.courses, CourseKey)) && Distinct(IdsOf(input.rooms, RoomKey))
    && RequestsKnown(input.students, CourseIdSet(input.courses))
    && forall i :: 0 <= i < |input.courses| ==> Staffed(input.teachers, input.courses[i].id)
  }

  /** No error exactly when the input is well formed; warnings never matter. */
  lemma InputErrorsNone(input: ScheduleInput)
    ensures InputErrors(input) == [] <==> WellFormed(input)
  {
    DuplicateErrorsNone("student", IdsOf(input.students, StudentId));
    DuplicateErrorsNone("teacher", IdsOf(input.teachers, TeacherId));
    DuplicateErrorsNone("course", IdsOf(input.courses, CourseKey));
    DuplicateErrorsNone("room", IdsOf(input.rooms, RoomKey));
    StudentRefErrorsNone(input.students, CourseIdSet(input.courses));
    UnstaffedErrorsNone(input.courses, input.teachers);
  }

  /** The four duplicate-id checks. */
  method CheckAllIds(input: ScheduleInput, result: ValidationResult)
    modifies result
    ensures result.errors == old(result.errors) + DuplicateIdErrors(input)
    ensures result.warnings == old(result.warnings)
  {
    ghost var e0 := result.errors;
    ghost var a := DuplicateErrors("student", IdsOf(input.students, StudentId));
    ghost var b := DuplicateErrors("teacher", IdsOf(input.teachers, TeacherId));
    ghost var c := DuplicateErrors("course", IdsOf(input.courses, CourseKey));
    ghost var d := DuplicateErrors("room", IdsOf(input.rooms, RoomKey));
    CheckDuplicateIds("student", input.students, StudentId, result);
    CheckDuplicateIds("teacher", input.teachers, TeacherId, result);
    AppendAssoc(e0, a, b);
    CheckDuplicateIds("course", input.courses, CourseKey, result);
    AppendAssoc(e0, a + b, c);
    CheckDuplicateIds("room", input.rooms, RoomKey, result);
    AppendAssoc(e0, a + b + c, d);
  }

  /** The reference checks and the qualified-teacher check. */
  method CheckReferences(input: ScheduleInput, courseIds: set<CourseId>, result: ValidationResult)
    modifies result
    ensures result.errors == old(result.errors) + StudentRefErrors(input.students, courseIds)
              + UnstaffedErrors(input.courses, input.teachers)
    ensures result.warnings == old(result.warnings) + TeacherRefWarnings(input.teachers, courseIds)
  {
    CheckStudentReferences(input.students, courseIds, result);
    CheckTeacherReferences(input.teachers, courseIds, result);
    CheckStaffed(input.courses, input.teachers, result);
  }

  /** The checks in the order `validate_input` runs them. */
  method CollectFindings(input: ScheduleInput) returns (result: ValidationResult)
    ensures result.errors == InputErrors(input) && result.warnings == InputWarnings(input)
  {
    result := new ValidationResult();
    var courseIds := CourseIdSet(input.courses);
    ghost var duplicates := DuplicateIdErrors(input);
    ghost var refErrors := StudentRefErrors(input.students, courseIds);
    ghost var unstaffed := UnstaffedErrors(input.courses, input.teachers);
    ghost var refWarnings := TeacherRefWarnings(input.teachers, courseIds);
    ghost var grades := GradeWarnings(input.courses);
    ghost var oversize := CapacityWarnings(input.courses, MaxRoomCapacity(input.rooms));
    CheckAllIds(input, result);
    assert [] + duplicates == duplicates;
    assert result.errors == duplicates && result.warnings == [];
    CheckReferences(input, courseIds, result);
    assert result.errors == duplicates + refErrors + unstaffed && result.warnings == refWarnings;
    CheckGrades(input.courses, result);
    CheckRoomCapacity(input.courses, input.rooms, result);
    assert result.warnings == refWarnings + grades + oversize;
    assert InputErrors(input) == duplicates + refErrors + unstaffed;
  }

  /** `validate_input`: the findings when there is no error, otherwise a failure that
      counts the errors and lists them one per line. */
  method ValidateInput(input: ScheduleInput) returns (r: Result<ValidationResult, string>)
    ensures r.Success? <==> WellFormed(input)
    ensures r.Success? ==> r.value.errors == [] && r.value.warnings == InputWarnings(input)
    ensures r.Failure? ==> r.error == "Validation failed with " + NatToString(|InputErrors(input)|) + " errors:\n"
                                      + Join(InputErrors(input), "\n")
  {
    var result := CollectFindings(input);
    InputErrorsNone(input);
    if !result.IsValid() {
      return Failure("Validation failed with " + NatToString(|result.errors|) + " errors:\n" + Join(result.errors, "\n"));
    }
    return Success(result);
  }
}
