/** The per-student and per-teacher text schedules of the reporter: markdown-like lines
    built from a finished schedule and the input, joined with newlines. */
module Reporter {
  import opened Wrappers
  import opened Ids
  import opened Seqs
  import opened Text
  import opened Periods
  import opened Sections
  import opened Students
  import opened Teachers
  import opened Courses
  import opened Schedules
  import opened Constraints

  // ---- Lookups with placeholders -----------------------------------------------------

  /** The name of the first course with the id, or "Unknown". */
  function CourseName(courses: seq<Course>, id: CourseId): (r: string)
    ensures (forall i :: 0 <= i < |courses| ==> courses[i].id != id) ==> r == "Unknown"
    ensures r == "Unknown" || exists i :: 0 <= i < |courses| && courses[i].id == id && r == courses[i].name
  {
    match Find(courses, (c: Course) => c.id == id)
    case Some(c) => c.name
    case None => "Unknown"
  }

  /** The name of the section's teacher, or "TBD" when the section has none or the id
      names no teacher. */
  function TeacherName(teachers: seq<Teacher>, id: Option<TeacherId>): (r: string)
    ensures id.None? ==> r == "TBD"
    ensures id.Some? && (forall i :: 0 <= i < |teachers| ==> teachers[i].id != id.value) ==> r == "TBD"
    ensures r == "TBD" || exists i :: 0 <= i < |teachers| && Some(teachers[i].id) == id && r == teachers[i].name
  {
    match id
    case None => "TBD"
    case Some(tid) =>
      match Find(teachers, (t: Teacher) => t.id == tid)
      case Some(t) => t.name
      case None => "TBD"
  }

  /** The room id, or "TBD" for a section without a room. */
  function RoomLabel(id: Option<RoomId>): (r: string)
    ensures id.None? ==> r == "TBD"
    ensures id.Some? ==> r == id.value
  {
    match id
    case Some(room) => room
    case None => "TBD"
  }

  // ---- Student schedule ---------------------------------------------------------------

  /** A section that meets at least once. */
  predicate HasPeriods(s: Section) {
    |s.periods| > 0
  }

  /** The daily-list entry of a section that meets: its first period's day name, and
      "Period {slot + 1}: {course} ({teacher}) - Room {room}". */
  function SlotEntry(input: ScheduleInput, s: Section): (string, string)
    requires HasPeriods(s)
  {
    var p := s.periods[0];
    (DayName(p.day),
     "Period " + NatToString(WrapIncU8(p.slot)) + ": " + CourseName(input.courses, s.courseId)
     + " (" + TeacherName(input.teachers, s.teacherId) + ") - Room " + RoomLabel(s.roomId))
  }

  /** `by_slot`: one entry per enrolled section that meets, in section order; sections
      without periods are skipped. */
  function BySlot(input: ScheduleInput, enrolled: seq<Section>): seq<(string, string)> {
    if |enrolled| == 0 then []
    else
      var init, s := enrolled[..|enrolled| - 1], enrolled[|enrolled| - 1];
      BySlot(input, init) + (if HasPeriods(s) then [SlotEntry(input, s)] else [])
  }

  /** The daily list has one entry per enrolled section that meets. */
  lemma {:induction false} BySlotCount(input: ScheduleInput, enrolled: seq<Section>)
    ensures |BySlot(input, enrolled)| == Count(enrolled, HasPeriods)
  {
    if |enrolled| > 0 {
      var init, s := enrolled[..|enrolled| - 1], enrolled[|enrolled| - 1];
      BySlotCount(input, init);
      assert Count(enrolled, HasPeriods) == Count(init, HasPeriods) + Count([s], HasPeriods) by {
        assert init + [s] == enrolled;
        CountAppend(init, [s], HasPeriods);
      }
    }
  }

  /** `entry` is the daily-list entry of some section of `enrolled` that meets. */
  predicate EntryOfSome(input: ScheduleInput, enrolled: seq<Section>, entry: (string, string)) {
    exists j :: 0 <= j < |enrolled| && HasPeriods(enrolled[j]) && entry == SlotEntry(input, enrolled[j])
  }

  /** Every entry of the daily list comes from an enrolled section that meets. */
  lemma {:induction false} BySlotFromSections(input: ScheduleInput, enrolled: seq<Section>)
    ensures forall k :: 0 <= k < |BySlot(input, enrolled)| ==> EntryOfSome(input, enrolled, BySlot(input, enrolled)[k])
  {
    if |enrolled| > 0 {
      var init := enrolled[..|enrolled| - 1];
      BySlotFromSections(input, init);
      forall k | 0 <= k < |BySlot(input, enrolled)|
        ensures EntryOfSome(input, enrolled, BySlot(input, enrolled)[k])
      {
        if k < |BySlot(input, init)| {
          var j :| 0 <= j < |init| && HasPeriods(init[j]) && BySlot(input, init)[k] == SlotEntry(input, init[j]);
          assert init[j] == enrolled[j];
        } else {
          assert BySlot(input, enrolled)[k] == SlotEntry(input, enrolled[|enrolled| - 1]);
        }
      }
    }
  }

  /** Every enrolled section that meets has its entry in the daily list. */
  lemma {:induction false} SectionsInBySlot(input: ScheduleInput, enrolled: seq<Section>, j: nat)
    requires j < |enrolled| && HasPeriods(enrolled[j])
    ensures SlotEntry(input, enrolled[j]) in BySlot(input, enrolled)
  {
    var init := enrolled[..|enrolled| - 1];
    if j < |init| {
      assert init[j] == enrolled[j];
      SectionsInBySlot(input, init, j);
    }
  }

  function DailyLine(entry: (string, string)): string {
    "**" + entry.0 + "**: " + entry.1
  }

  /** "**{day}**: {info}" for each entry, in order. */
  function DailyLines(bySlot: seq<(string, string)>): seq<string> {
    Map(bySlot, DailyLine)
  }

  /** The unassigned entries of one student, in schedule order. */
  function UnassignedOf(unassigned: seq<UnassignedCourse>, id: StudentId): seq<UnassignedCourse> {
    Filter(unassigned, (u: UnassignedCourse) => u.studentId == id)
  }

  function UnassignedLine(input: ScheduleInput, u: UnassignedCourse): string {
    "- " + CourseName(input.courses, u.courseId) + " (" + u.courseId + "): " + u.reason
  }

  /** "- {course name} ({course id}): {reason}" for each entry, in order. */
  function UnassignedLines(input: ScheduleInput, us: seq<UnassignedCourse>): seq<string> {
    Map(us, (u: UnassignedCourse) => UnassignedLine(input, u))
  }

  function StudentHeader(st: Student): seq<string> {
    ["# Schedule for " + st.name + " (" + st.id + ")", "Grade: " + NatToString(st.grade) + "\n"]
  }

  /** The body: a placeholder when the student is in no section, otherwise the daily
      list. */
  function StudentBody(input: ScheduleInput, enrolled: seq<Section>): seq<string> {
    if enrolled == [] then ["No courses enrolled."]
    else ["## Daily Schedule\n"] + DailyLines(BySlot(input, enrolled))
  }

  /** The unassigned block, present only when the student has unassigned entries. */
  function UnassignedBlock(input: ScheduleInput, us: seq<UnassignedCourse>): seq<string> {
    if us == [] then [] else ["\n## Unassigned Courses\n"] + UnassignedLines(input, us)
  }

  /** All lines of a student's schedule. */
  function StudentLines(schedule: Schedule, input: ScheduleInput, st: Student): seq<string> {
    StudentHeader(st) + StudentBody(input, StudentSections(schedule.sections, st.id))
    + UnassignedBlock(input, UnassignedOf(schedule.unassigned, st.id))
  }

  /** `generate_student_schedule`: `None` for an unknown student, otherwise the lines of
      the first student with the id, joined with newlines. */
  function StudentSchedule(schedule: Schedule, input: ScheduleInput, id: StudentId): Option<string> {
    match Find(input.students, (s: Student) => s.id == id)
    case None => None
    case Some(st) => Some(Join(StudentLines(schedule, input, st), "\n"))
  }

  /** The first character of a line; the kinds of line the reporter writes all start
      differently. */
  function Lead(line: string): char {
    if |line| == 0 then ' ' else line[0]
  }

  lemma HeaderLeads(st: Student)
    ensures |StudentHeader(st)| == 2
    ensures forall k :: 0 <= k < 2 ==> Lead(StudentHeader(st)[k]) != 'N' && Lead(StudentHeader(st)[k]) != '\n'
  {
  }

  /** Only the placeholder line of the body starts with 'N', and no body line starts with
      a newline. */
  lemma BodyLeads(input: ScheduleInput, enrolled: seq<Section>)
    ensures var body := StudentBody(input, enrolled);
            && |body| > 0
            && (Lead(body[0]) == 'N' <==> enrolled == [])
            && (forall k :: 0 < k < |body| ==> Lead(body[k]) != 'N')
            && (forall k :: 0 <= k < |body| ==> Lead(body[k]) != '\n')
  {
    if enrolled != [] {
      var lines := DailyLines(BySlot(input, enrolled));
      assert forall k :: 0 <= k < |lines| ==> Lead(lines[k]) == '*' by {
        forall k | 0 <= k < |lines|
          ensures Lead(lines[k]) == '*'
        {
          var e := BySlot(input, enrolled)[k];
          assert lines[k] == "**" + e.0 + "**: " + e.1;
        }
      }
      var body := StudentBody(input, enrolled);
      assert body == ["## Daily Schedule\n"] + lines;
      assert forall k :: 0 < k < |body| ==> body[k] == lines[k - 1];
    }
  }

  /** Only the heading of the unassigned block starts with a newline, and no line of the
      block starts with 'N'. */
  lemma BlockLeads(input: ScheduleInput, us: seq<UnassignedCourse>)
    ensures var block := UnassignedBlock(input, us);
            && (us == [] <==> block == [])
            && (block != [] ==> block[0] == "\n## Unassigned Courses\n")
            && (forall k :: 0 < k < |block| ==> Lead(block[k]) != '\n')
            && (forall k :: 0 <= k < |block| ==> Lead(block[k]) != 'N')
  {
    if us != [] {
      var lines := UnassignedLines(input, us);
      assert forall k :: 0 <= k < |lines| ==> Lead(lines[k]) == '-' by {
        forall k | 0 <= k < |lines|
          ensures Lead(lines[k]) == '-'
        {
          var u := us[k];
          assert lines[k] == "- " + CourseName(input.courses, u.courseId) + " (" + u.courseId + "): " + u.reason;
        }
      }
      var block := UnassignedBlock(input, us);
      assert forall k :: 0 < k < |block| ==> block[k] == lines[k - 1];
    }
  }

  /** The student's schedule says "No courses enrolled." exactly when no section enrolls
      the student. */
  lemma {:induction false} NoCoursesPlaceholder(schedule: Schedule, input: ScheduleInput, st: Student)
    ensures "No courses enrolled." in StudentLines(schedule, input, st)
            <==> forall i :: 0 <= i < |schedule.sections| ==> !schedule.sections[i].HasStudent(st.id)
  {
    var enrolled := StudentSections(schedule.sections, st.id);
    var head, body := StudentHeader(st), StudentBody(input, enrolled);
    var tail := UnassignedBlock(input, UnassignedOf(schedule.unassigned, st.id));
    var lines := head + body + tail;
    HeaderLeads(st);
    BodyLeads(input, enrolled);
    BlockLeads(input, UnassignedOf(schedule.unassigned, st.id));
    if enrolled == [] {
      assert lines[2] == "No courses enrolled.";
    } else {
      assert enrolled[0] in enrolled;
    }
    if "No courses enrolled." in lines {
      var k :| 0 <= k < |lines| && lines[k] == "No courses enrolled.";
      assert Lead(lines[k]) == 'N';
      assert 2 <= k < 2 + |body|;
      assert body[k - 2] == lines[k];
    }
  }

  /** The "Unassigned Courses" block appears exactly when some unassigned entry names the
      student. */
  lemma {:induction false} UnassignedPlaceholder(schedule: Schedule, input: ScheduleInput, st: Student)
    ensures "\n## Unassigned Courses\n" in StudentLines(schedule, input, st)
            <==> exists i :: 0 <= i < |schedule.unassigned| && schedule.unassigned[i].studentId == st.id
  {
    var enrolled := StudentSections(schedule.sections, st.id);
    var us := UnassignedOf(schedule.unassigned, st.id);
    var head, body, tail := StudentHeader(st), StudentBody(input, enrolled), UnassignedBlock(input, us);
    var lines := head + body + tail;
    HeaderLeads(st);
    BodyLeads(input, enrolled);
    BlockLeads(input, us);
    if us != [] {
      assert lines[2 + |body|] == tail[0];
      assert us[0] in us;
    }
    if "\n## Unassigned Courses\n" in lines {
      var k :| 0 <= k < |lines| && lines[k] == "\n## Unassigned Courses\n";
      assert Lead(lines[k]) == '\n';
      assert 2 + |body| <= k;
      assert tail[k - 2 - |body|] == lines[k];
    }
  }

  /** The daily list has one entry per enrolled section that meets, each built from
      that section's first period, and every such section has its entry; `DailyLines`
      then renders one line per entry. */
  lemma StudentDailyList(input: ScheduleInput, enrolled: seq<Section>)
    ensures var bySlot := BySlot(input, enrolled);
            && |bySlot| == Count(enrolled, HasPeriods)
            && (forall k :: 0 <= k < |bySlot| ==> EntryOfSome(input, enrolled, bySlot[k]))
            && (forall j :: 0 <= j < |enrolled| && HasPeriods(enrolled[j]) ==> SlotEntry(input, enrolled[j]) in bySlot)
  {
    BySlotCount(input, enrolled);
    BySlotFromSections(input, enrolled);
    forall j | 0 <= j < |enrolled| && HasPeriods(enrolled[j])
      ensures SlotEntry(input, enrolled[j]) in BySlot(input, enrolled)
    {
      SectionsInBySlot(input, enrolled, j);
    }
  }

  /** `generate_student_schedule`: the header, then the body and the unassigned block,
      pushed line by line. */
  method GenerateStudentSchedule(schedule: Schedule, input: ScheduleInput, id: StudentId) returns (r: Option<string>)
    ensures r.None? <==> forall i :: 0 <= i < |input.students| ==> input.students[i].id != id
    ensures r == StudentSchedule(schedule, input, id)
  {
    var found := Find(input.students, (s: Student) => s.id == id);
    if found.None? {
      return None;
    }
    var student := found.value;
    var enrolled := StudentSections(schedule.sections, id);
    var body := CollectStudentBody(input, enrolled);
    var unassigned := UnassignedOf(schedule.unassigned, id);
    var block := CollectUnassignedBlock(input, unassigned);
    var lines := StudentHeader(student) + body + block;
    r := Some(Join(lines, "\n"));
  }

  /** The enrolled-sections part: the placeholder, or the daily list. */
  method CollectStudentBody(input: ScheduleInput, enrolled: seq<Section>) returns (lines: seq<string>)
    ensures lines == StudentBody(input, enrolled)
  {
    if |enrolled| == 0 {
      lines := ["No courses enrolled."];
    } else {
      var bySlot := CollectBySlot(input, enrolled);
      lines := ["## Daily Schedule\n"];
      for k := 0 to |bySlot|
        invariant lines == ["## Daily Schedule\n"] + DailyLines(bySlot[..k])
      {
        assert bySlot[..k + 1][..k] == bySlot[..k];
        lines := lines + [DailyLine(bySlot[k])];
      }
      assert bySlot[..|bySlot|] == bySlot;
    }
  }

  /** The loop that fills `by_slot`. */
  method CollectBySlot(input: ScheduleInput, enrolled: seq<Section>) returns (bySlot: seq<(string, string)>)
    ensures bySlot == BySlot(input, enrolled)
  {
    bySlot := [];
    for k := 0 to |enrolled|
      invariant bySlot == BySlot(input, enrolled[..k])
    {
      assert enrolled[..k + 1][..k] == enrolled[..k];
      var section := enrolled[k];
      if |section.periods| > 0 {
        bySlot := bySlot + [SlotEntry(input, section)];
      }
    }
    assert enrolled[..|enrolled|] == enrolled;
  }

  /** The unassigned block: nothing, or a heading and one line per entry. */
  method CollectUnassignedBlock(input: ScheduleInput, us: seq<UnassignedCourse>) returns (lines: seq<string>)
    ensures lines == UnassignedBlock(input, us)
  {
    lines := [];
    if |us| > 0 {
      lines := ["\n## Unassigned Courses\n"];
      for k := 0 to |us|
        invariant lines == ["\n## Unassigned Courses\n"] + UnassignedLines(input, us[..k])
      {
        assert us[..k + 1][..k] == us[..k];
        lines := lines + [UnassignedLine(input, us[k])];
      }
      assert us[..|us|] == us;
    }
  }

  // ---- Teacher schedule ---------------------------------------------------------------

  /** The sections taught by the teacher, in schedule order. */
  function TaughtBy(ss: seq<Section>, id: TeacherId): seq<Section> {
    Filter(ss, (s: Section) => s.teacherId == Some(id))
  }

  /** "Period {slot + 1}" of the first period, or "TBD" for a section that never meets. */
  function PeriodLabel(s: Section): (r: string)
    ensures s.periods == [] <==> r == "TBD"
  {
    if |s.periods| > 0 then "Period " + NatToString(WrapIncU8(s.periods[0].slot)) else "TBD"
  }

  function TeacherLine(input: ScheduleInput, s: Section): string {
    "- **" + CourseName(input.courses, s.courseId) + "** (" + s.id + "): " + PeriodLabel(s)
    + " - Room " + RoomLabel(s.roomId) + " (" + NatToString(s.Enrollment()) + " students)"
  }

  /** One line per section, in order. */
  function TeacherLines(input: ScheduleInput, ss: seq<Section>): seq<string> {
    Map(ss, (s: Section) => TeacherLine(input, s))
  }

  function TeacherHeader(t: Teacher): seq<string> {
    ["# Schedule for " + t.name + " (" + t.id + ")", ""]
  }

  /** The placeholder, or the section count and one line per section. */
  function TeacherBody(input: ScheduleInput, taught: seq<Section>): seq<string> {
    if taught == [] then ["No sections assigned."]
    else ["## Teaching " + NatToString(|taught|) + " sections\n"] + TeacherLines(input, taught)
  }

  /** `generate_teacher_schedule`: `None` for an unknown teacher, otherwise the lines of
      the first teacher with the id, joined with newlines. */
  function TeacherSchedule(schedule: Schedule, input: ScheduleInput, id: TeacherId): Option<string> {
    match Find(input.teachers, (t: Teacher) => t.id == id)
    case None => None
    case Some(t) => Some(Join(TeacherHeader(t) + TeacherBody(input, TaughtBy(schedule.sections, t.id)), "\n"))
  }

  lemma TeacherLineLead(input: ScheduleInput, s: Section)
    ensures Lead(TeacherLine(input, s)) == '-'
  {
  }

  lemma {:induction false} TeacherLinesLead(input: ScheduleInput, ss: seq<Section>)
    ensures forall k :: 0 <= k < |TeacherLines(input, ss)| ==> Lead(TeacherLines(input, ss)[k]) == '-'
  {
    if |ss| > 0 {
      TeacherLinesLead(input, ss[..|ss| - 1]);
      TeacherLineLead(input, ss[|ss| - 1]);
    }
  }

  lemma TeacherHeaderLeads(t: Teacher)
    ensures |TeacherHeader(t)| == 2
    ensures forall k :: 0 <= k < 2 ==> Lead(TeacherHeader(t)[k]) != 'N'
  {
  }

  /** Only the placeholder line of the body starts with 'N'. */
  lemma TeacherBodyLeads(input: ScheduleInput, taught: seq<Section>)
    ensures var body := TeacherBody(input, taught);
            && |body| > 0
            && (Lead(body[0]) == 'N' <==> taught == [])
            && (forall k :: 0 < k < |body| ==> Lead(body[k]) != 'N')
  {
    if taught != [] {
      var tl := TeacherLines(input, taught);
      TeacherLinesLead(input, taught);
      var body := TeacherBody(input, taught);
      assert body == ["## Teaching " + NatToString(|taught|) + " sections\n"] + tl;
      assert forall k :: 0 < k < |body| ==> body[k] == tl[k - 1];
    }
  }

  /** A teacher's schedule says "No sections assigned." exactly when no section is
      taught by the teacher. */
  lemma {:induction false} NoSectionsPlaceholder(schedule: Schedule, input: ScheduleInput, t: Teacher)
    ensures "No sections assigned." in TeacherHeader(t) + TeacherBody(input, TaughtBy(schedule.sections, t.id))
            <==> forall i :: 0 <= i < |schedule.sections| ==> schedule.sections[i].teacherId != Some(t.id)
  {
    var taught := TaughtBy(schedule.sections, t.id);
    var head, body := TeacherHeader(t), TeacherBody(input, taught);
    var lines := head + body;
    TeacherHeaderLeads(t);
    TeacherBodyLeads(input, taught);
    if taught == [] {
      assert lines[2] == "No sections assigned.";
    } else {
      assert taught[0] in taught;
    }
    if "No sections assigned." in lines {
      var k :| 0 <= k < |lines| && lines[k] == "No sections assigned.";
      assert Lead(lines[k]) == 'N';
      assert 2 <= k && body[k - 2] == lines[k];
    }
  }

  /** A teacher with sections gets a "Teaching {n} sections" line, n being the number of
      sections the teacher has, followed by one line per such section in schedule
      order. */
  lemma TeacherBodyShape(schedule: Schedule, input: ScheduleInput, t: Teacher)
    ensures var taught := TaughtBy(schedule.sections, t.id);
            var body := TeacherBody(input, taught);
            && |taught| == Count(schedule.sections, (s: Section) => s.teacherId == Some(t.id))
            && (taught != [] ==>
                  body[0] == "## Teaching " + NatToString(|taught|) + " sections\n"
                  && body[1..] == TeacherLines(input, taught))
  {
    var taught := TaughtBy(schedule.sections, t.id);
    FilterCount(schedule.sections, (s: Section) => s.teacherId == Some(t.id));
    if taught != [] {
      var body := TeacherBody(input, taught);
      assert body[1..] == TeacherLines(input, taught);
    }
  }

  /** `generate_teacher_schedule`, pushing one line per section taught. */
  method GenerateTeacherSchedule(schedule: Schedule, input: ScheduleInput, id: TeacherId) returns (r: Option<string>)
    ensures r.None? <==> forall i :: 0 <= i < |input.teachers| ==> input.teachers[i].id != id
    ensures r == TeacherSchedule(schedule, input, id)
  {
    var found := Find(input.teachers, (t: Teacher) => t.id == id);
    if found.None? {
      return None;
    }
    var teacher := found.value;
    var sections := TaughtBy(schedule.sections, id);
    var body := CollectTeacherBody(input, sections);
    r := Some(Join(TeacherHeader(teacher) + body, "\n"));
  }

  method CollectTeacherBody(input: ScheduleInput, sections: seq<Section>) returns (lines: seq<string>)
    ensures lines == TeacherBody(input, sections)
  {
    if |sections| == 0 {
      lines := ["No sections assigned."];
    } else {
      var head := ["## Teaching " + NatToString(|sections|) + " sections\n"];
      lines := head;
      for k := 0 to |sections|
        invariant lines == head + TeacherLines(input, sections[..k])
      {
        assert TeacherLines(input, sections[..k + 1]) == TeacherLines(input, sections[..k]) + [TeacherLine(input, sections[k])] by {
          assert sections[..k + 1][..k] == sections[..k];
        }
        lines := lines + [TeacherLine(input, sections[k])];
      }
      assert sections[..|sections|] == sections;
    }
  }
}
