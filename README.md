# School course scheduler: a Dafny model

This project models the core of a high-school course scheduler and of the scripts around it.

- **The Rust scheduler.** It builds a weekly timetable from courses, students, teachers and rooms in five phases:
  1. create sections and give each the least-loaded qualified teacher;
  2. give each section one period, repeated on every day;
  3. give each section the smallest suitable free room;
  4. place students in sections with an integer program;
  5. move students between sections of one course to even out enrolment.
- **The checks and the command line.**
  - The validator checks a finished schedule: double bookings, capacity, three soft scores, an overall score and statistics.
  - The input checker runs before scheduling.
  - The reporter writes per-student and per-teacher schedules.
  - The command line parses its `--format` list.
- **The Python scripts.**
  - `build-json.py` turns `|`-delimited text files into records.
  - `validate-json.py` checks the JSON data files for duplicate ids, bad values and unknown course references.
  - `generate-pdf.py` turns six markdown report files into a PDF. Its model covers the segmentation into headings, lists, paragraphs, page breaks and tables, and the inline mark-up stripping.

## How the model is organised

- There is one Dafny module per source file, or per small group of files.
- Rust structs and Python records become datatypes.
- Vectors and lists become sequences.
- `HashMap`, `HashSet` and `BTreeMap` become maps and sets.
- Rust's fixed-width integers are subset types: `u8` and `u32`.
  - `day + 1` on `u8` is written as a wrap-around.
  - `len() as u32` is written as a truncation.
- Where the source updates a slice of sections in place, the model is a method over an `array<Section>` with `modifies`:
  - the time assigner;
  - the room assigner;
  - ILP extraction;
  - the balance optimizer.
- `ValidationResult` is a class whose `add_error` and `add_warning` append to its fields.
- Loops in the source are `while` and `for` loops in methods. A method's `ensures` ties its result or new state to a specification function of its inputs, or states the source's promise outright (a best slot, a first position). Further properties are lemmas about those functions.
- Python's `str.strip`, `split`, `int()` and the regular expressions the scripts use are written out in `Text`, `PdfInline` and `PdfMarkdown`.
- Rust's `sort_by_key` is the stable sort in `StableSort`.
- When a map is collected from a list with a repeated key, the last entry wins.
- Floating-point scores (soft scores, the total score) are exact reals. The model states their range and when they are full, not their rounding.

## Model

| member | source | states |
|---|---|---|
| Ids.WrapIncU8 | src/types/period.rs:49 | `day + 1` / `slot + 1` on a `u8` is the successor below 255 and wraps to 0 at 255 |
| Ids.TruncU32 | src/types/section.rs:37 | `len as u32` keeps every length below 2^32 |
| Periods.ToLinear | src/types/period.rs:17-20 | the linear index is at least the slot, and within a day its quotient and remainder by the day length are the day and the slot |
| Periods.FromLinear | src/types/period.rs:22-27 | the slot is the index modulo the day length (so below it) and the day is the quotient while it fits a `u8`; a zero day length is excluded because Rust divides by zero there |
| Periods.FromToLinear | src/types/period.rs:17-27 | `from_linear` inverts `to_linear` for every period whose slot fits in the day |
| Periods.ToLinearInjective | src/types/period.rs:17-20 | two periods of one grid with the same linear index are the same period |
| Periods.DayName | src/types/period.rs:29-39 | days 0 to 4 get a weekday name and every other day gets "Unknown"; no name holds a blank |
| Periods.DayNamesDistinct | src/types/period.rs:31-36 | the five weekdays have five different names |
| Periods.DescribeShape | src/types/period.rs:41-44 | `display` is the day name, a blank, then "Period" and the 1-based slot |
| Periods.DescribeInjective | src/types/period.rs:41-44 | equal long forms mean equal slots, and equal days whenever the day is a weekday |
| Periods.ShowInjective | src/types/period.rs:47-51 | the `D{day+1}P{slot+1}` form never prints two different periods alike, wrap-around included |
| Sections.Section.AvailableSeats | src/types/section.rs:36-38 | the seats never exceed the capacity, are 0 exactly when the section is full, and add up with the enrolment to the capacity otherwise |
| Sections.Section.Enroll | src/types/section.rs:51-55 | afterwards the student is enrolled; an enrolled student changes nothing, otherwise the student is appended after the unchanged list; no other field changes |
| Sections.Section.Unenroll | src/types/section.rs:58-60 | afterwards the student is absent, every other student keeps its count, the enrolment drops by the student's occurrences, and no other field changes |
| Sections.UnenrollKeepsOrder | src/types/section.rs:58-60 | `retain` keeps the order: the students left are exactly the old list filtered by "is not the student" |
| Sections.NewSection | src/types/section.rs:18-28 | a new section has the given id, course and capacity, no teacher, room, periods or students, all seats free, and is full only at capacity 0 |
| Sections.EnrollIdempotent | src/types/section.rs:51-55 | enrolling twice is enrolling once |
| Sections.UnenrollUndoesEnroll | src/types/section.rs:51-60 | unenrolling a student just enrolled restores the section |
| Sections.MembershipOfOthers | src/types/section.rs:51-60 | enrolling or unenrolling one student leaves every other student's membership alone |
| Students.Student.AllRequestedCourses | src/types/student.rs:16-19 | the required courses in order, then the electives in order, nothing else |
| Students.Student.ElectiveRank | src/types/student.rs:26-29 | `None` exactly when the course is not an elective; otherwise the index of its first occurrence |
| Students.WantsIffRequested | src/types/student.rs:16-24 | a student wants exactly the courses it requests |
| Courses.FromInput | src/types/course.rs:6-26 | deserialisation keeps the given fields; an absent `periods_per_week` is 5, absent grade restrictions admit every grade, absent features are empty |
| Courses.ById | src/scheduler/time_assigner.rs:56 | every course's id is a key, and each key maps to a course with that id |
| Courses.AllowsGradeCases | src/types/course.rs:28-35 | no restriction admits every grade, a restriction admits exactly its listed grades, and an empty list admits none |
| Teachers.ById | src/scheduler/time_assigner.rs:57 | every teacher's id is a key, and each key maps to a teacher with that id |
| Teachers.DefaultAvailability | src/types/teacher.rs:14-15 | a teacher with no `unavailable` list is available at every period |
| Teachers.AvailabilityPerDayAndSlot | src/types/teacher.rs:24-27 | a teacher is available exactly when no unavailable entry matches both the day and the slot |
| Rooms.HasFeaturesMonotone | src/types/room.rs:19-22 | no requirement is always met, and a room meeting a list of features meets every list drawn from it |
| Constraints.Constraint.Type | src/types/constraint.rs:33-54 | the nine unweighted variants are hard, and the five weighted ones are soft with their own weight |
| Constraints.NamesDistinct | src/types/constraint.rs:56-74 | no two variants share a human-readable name |
| Constraints.ConfigFromInput | src/types/constraint.rs:77-94 | an absent field becomes 8 periods, 5 days or an empty lunch list, and a present one is kept |
| Constraints.EmptyInputIsNotDefault | src/types/constraint.rs:80-103 | an empty configuration object gets the default grid but no lunch periods, where `default()` has two |
| Schedules.SectionsForCourse | src/types/schedule.rs:56-62 | exactly the sections of the course, each drawn from the schedule |
| Schedules.StudentSections | src/types/schedule.rs:64-70 | exactly the sections enrolling the student, each drawn from the schedule |
| Schedules.LookupsKeepOrder | src/types/schedule.rs:56-70 | both lookups distribute over concatenation, so they keep the schedule's order |
| Schedules.FirstWithId | src/types/schedule.rs:72-75 | the index of the first section with the id, or none when no section has it |
| Schedules.GetSection | src/types/schedule.rs:72-75 | none exactly when no section has the id; otherwise the first section with that id |
| Schedules.SectionIndexMap | src/types/schedule.rs:82-89 | every section id is a key and maps to an index holding that id, the last such index when ids repeat |
| Schedules.TotalAssignments | src/types/schedule.rs:91-94 | the sum bounds every section's enrolment and is zero exactly when no section enrols anybody |
| Schedules.TotalAssignmentsAppend | src/types/schedule.rs:91-94 | the total of two schedules is the sum of their totals |
| Schedules.StudentPeriodsHas | src/scheduler/optimizer.rs:12-27 | a period is in a student's occupied set exactly when some section enrolling the student meets then |
| Schedules.IndicesWithCourse | src/scheduler/optimizer.rs:29-36 | the indices of the course's sections, all of them, in increasing order |
| Schedules.IndicesSnoc | src/scheduler/optimizer.rs:32-33 | one more section appends its index to its own course's group and no other |
| Schedules.GroupsOfIndices | src/scheduler/optimizer.rs:29-36 | the grouping built section by section maps each course to exactly the indices of its sections, and has a key only for courses with a section |
| Schedules.GroupStep | src/scheduler/optimizer.rs:32-33 | pushing the next index under its own course keeps every course's group exact |
| Schedules.GroupByCourse | src/scheduler/optimizer.rs:29-36 | the map lists for each course the indices of its sections, in index order, and has a key exactly for courses that have sections |
| SectionCreator.TeachersForQualified | src/scheduler/section_creator.rs:45-53 | a course's list holds only teachers that can teach it, and every such teacher |
| SectionCreator.BuildTeachersByCourse | src/scheduler/section_creator.rs:45-53 | for every course the map lists the teachers in input order, once per listing of the course among their subjects, and has a key exactly for courses with such a teacher |
| SectionCreator.PushTeacher | src/scheduler/section_creator.rs:48-50 | the inner loop pushes the teacher onto the list of each of its subjects, in subject order |
| SectionCreator.PushAllSpec | src/scheduler/section_creator.rs:48-50 | after a teacher's first subjects are pushed, each course's list is the earlier teachers' list plus one copy of the teacher per listing of the course so far, and no list is empty |
| SectionCreator.BuildMapSpec | src/scheduler/section_creator.rs:45-53 | the lists built teacher by teacher are each course's qualified teachers in input order, and none is empty |
| SectionCreator.ChooseTeacher | src/scheduler/section_creator.rs:22-31 | none exactly when no qualified teacher is below its cap; otherwise a teacher below its cap with the least count, the first one in list order among equals |
| SectionCreator.CountsOfCounts | src/scheduler/section_creator.rs:27-34 | the count kept for a teacher id is the number of sections given that id |
| SectionCreator.SectionNamesDistinct | src/scheduler/section_creator.rs:17 | sections of one course with different numbers get different `{course}-{n+1}` ids |
| SectionCreator.CourseSections | src/scheduler/section_creator.rs:16-19 | a course makes exactly its `sections` count of sections |
| SectionCreator.CourseSectionsAt | src/scheduler/section_creator.rs:16-19 | section j of a course is a new section named `{course}-{j+1}` with the course's maximum size |
| SectionCreator.SkeletonSize | src/scheduler/section_creator.rs:10-40 | the sections number the sum of the courses' section counts |
| SectionCreator.ChoicesFollowAt | src/scheduler/section_creator.rs:21-35 | each section's teacher is the choice made from the counts of the sections before it |
| SectionCreator.NextSection | src/scheduler/section_creator.rs:16-38 | one section: the new numbered section with the chosen teacher, and the chosen teacher's count raised by one |
| SectionCreator.AddCourseSections | src/scheduler/section_creator.rs:11-39 | one course's sections are appended and keep the loop invariant: the skeleton with teachers chosen from the running counts |
| SectionCreator.CreateSections | src/scheduler/section_creator.rs:4-43 | the result is every course's numbered sections in input order, each with the teacher chosen from the counts of the sections before it |
| SectionCreator.AddAllCourses | src/scheduler/section_creator.rs:10-41 | the loop over the courses yields one section per requested section in skeleton order, each with the teacher chosen from the counts of the sections before it |
| SectionCreator.LookupBuilt | src/scheduler/section_creator.rs:11-14 | the list looked up for a course (empty when the course is absent) is its qualified teachers in input order, and the course is a key exactly when some teacher qualifies |
| SectionCreator.ChoicesQualified | src/scheduler/section_creator.rs:10-36 | every teacher assigned to a section can teach its course |
| SectionCreator.ChoicesRespectCaps | src/scheduler/section_creator.rs:26-34 | no teacher id gets more sections than the cap of a teacher with that id |
| TimeAssigner.Bump | src/scheduler/time_assigner.rs:20-25 | one increment raises exactly the (grade, slot) count by one and leaves every other count alone |
| TimeAssigner.RecordGradesCounts | src/scheduler/time_assigner.rs:17-28 | recording a grade list adds, at the slot, one use per occurrence of each grade |
| TimeAssigner.RecordCounts | src/scheduler/time_assigner.rs:17-28 | `record_usage` adds one use per listed grade at the slot, changes no other slot, and records nothing for an open course |
| TimeAssigner.GradeSlotTracker.constructor | src/scheduler/time_assigner.rs:11-15 | the tracker starts empty |
| TimeAssigner.GradeSlotTracker.RecordUsage | src/scheduler/time_assigner.rs:17-28 | the tracker's usage becomes the recorded usage and nothing else changes |
| TimeAssigner.Penalty | src/scheduler/time_assigner.rs:30-46 | an open course has no penalty, and every penalty is a multiple of 500 |
| TimeAssigner.GradeSumGrows | src/scheduler/time_assigner.rs:30-46 | when every listed grade gained a use, the grade sum grows by at least the number of grades |
| TimeAssigner.GradeSumSame | src/scheduler/time_assigner.rs:30-46 | unchanged counts give an unchanged grade sum |
| TimeAssigner.RecordPenalty | src/scheduler/time_assigner.rs:17-46 | placing a grade-restricted section raises the penalty of its slot by at least 500 per grade and leaves every other slot's penalty unchanged |
| TimeAssigner.FindBestSlot | src/scheduler/time_assigner.rs:134-182 | the slot is below the day length, or 0 |
| TimeAssigner.FindBestSlotIsBest | src/scheduler/time_assigner.rs:144-181 | the chosen slot is a candidate of least cost, cheaper than every earlier candidate; with no candidate it is slot 0 |
| TimeAssigner.SlotUsageOf | src/scheduler/time_assigner.rs:60-127 | the usage vector keeps its length of one entry per slot |
| TimeAssigner.Incremented | src/scheduler/time_assigner.rs:127 | the increment keeps the vector's length |
| TimeAssigner.FollowsAt | src/scheduler/time_assigner.rs:102-130 | every placement's slot is the one `find_best_slot` picks in the state the placements before it leave |
| TimeAssigner.SchedulesOfHas | src/scheduler/time_assigner.rs:124-126 | a slot given to a teacher stays in that teacher's schedule |
| TimeAssigner.NoTeacherDoubleBooking | src/scheduler/time_assigner.rs:144-167 | whenever some slot is free for a section's teacher, the section gets a slot the teacher is not teaching at and is available at |
| TimeAssigner.Days | src/scheduler/time_assigner.rs:119-121 | one period per day of the week, day d at the chosen slot |
| TimeAssigner.PlaceSection | src/scheduler/time_assigner.rs:116-121 | only the placed section changes, gaining the period of each day at the slot |
| TimeAssigner.ApplyUntouched | src/scheduler/time_assigner.rs:89-131 | a section that no step placed is unchanged |
| TimeAssigner.ApplyPlaced | src/scheduler/time_assigner.rs:102-121 | a placed section got the periods of the one step that placed it, once |
| TimeAssigner.StepFolds | src/scheduler/time_assigner.rs:123-129 | one more placement adds its slot to its teacher, its slot usage, its course's used slots and its grade usage |
| TimeAssigner.PlaceOne | src/scheduler/time_assigner.rs:102-130 | one inner pass: the best slot is chosen, the section gets its periods, and the teacher schedule, slot usage, course slots and grade tracker are updated by that slot |
| TimeAssigner.PlaceNext | src/scheduler/time_assigner.rs:102-130 | one inner pass keeps the loop invariant |
| TimeAssigner.AssignCourse | src/scheduler/time_assigner.rs:100-130 | the sections of one course are placed one after the other in the order of its index list (`Indices` grows by exactly that list), each tagged with the course; exactly they are added to the placed set; needs a non-empty day only when the list is non-empty |
| TimeAssigner.BatchIndices | src/scheduler/time_assigner.rs:100-130 | the inner loop appends the course's sections to the placement order exactly in the order of its list |
| TimeAssigner.PriorityOrder | src/scheduler/time_assigner.rs:80-87 | taking courses in sorted order keeps the placements in priority order |
| TimeAssigner.AssignNextCourse | src/scheduler/time_assigner.rs:89-131 | one outer pass appends the sections of the `i`-th course in index order when the catalogue knows it, and appends nothing for an unknown course |
| TimeAssigner.AssignInOrder | src/scheduler/time_assigner.rs:89-131 | the placements are exactly `Plan` of the course order: course after course, each known course's sections in index order, each with the slot `find_best_slot` chooses; priority never decreases |
| TimeAssigner.PlanRange | src/scheduler/time_assigner.rs:89-98 | every section the outer loop places exists and belongs to a listed course the catalogue knows |
| TimeAssigner.PlanBefore | src/scheduler/time_assigner.rs:89-131 | with distinct courses, the placements of the earlier courses come first and none of them belongs to the last course |
| TimeAssigner.PlanLast | src/scheduler/time_assigner.rs:89-131 | the last course's sections close the placements, in index order |
| TimeAssigner.PlanNext | src/scheduler/time_assigner.rs:89-131 | one more course extends the placement order by that course's sections |
| TimeAssigner.PlanGrouped | src/scheduler/time_assigner.rs:70-131 | two placements of the same course have everything between them from that course, and the earlier has the smaller index: each course's sections are placed together and in index order |
| TimeAssigner.OuterStep | src/scheduler/time_assigner.rs:89-131 | one more course keeps the outer loop's bookkeeping: placed courses, placed sections, placement order and priority order |
| TimeAssigner.EveryCourseListed | src/scheduler/time_assigner.rs:70-98 | the sections placed are exactly those whose course is in the catalogue |
| TimeAssigner.SortedListsGrouped | src/scheduler/time_assigner.rs:80-87 | the sorted course list holds exactly the courses that have a section |
| TimeAssigner.AssignTimeSlots | src/scheduler/time_assigner.rs:49-132 | every section of a known course gets the slot `find_best_slot` chooses in the state before it, on every day, and other sections are unchanged; the placements follow `Plan` of a course order that lists each course with a section once, sorted grade-restricted first and fewer grades first, so one course's sections are placed together and in index order; a zero day length is allowed when no section belongs to a known course |
| RoomAssigner.FirstSuitable | src/scheduler/room_assigner.rs:55-87 | the first room that seats the section, has the features and is free at all its periods; none when no room does |
| RoomAssigner.FindSuitableRoom | src/scheduler/room_assigner.rs:55-87 | the loop returns the first suitable room |
| RoomAssigner.IsFree | src/scheduler/room_assigner.rs:72-79 | the room is free exactly when, at each of the section's periods, it is neither booked nor unavailable |
| RoomAssigner.FirstSuitableIs | src/scheduler/room_assigner.rs:61-83 | a suitable room after a run of unsuitable ones is the one found |
| RoomAssigner.FirstSuitableNone | src/scheduler/room_assigner.rs:61-86 | with no suitable room nothing is found |
| RoomAssigner.SmallestSuitable | src/scheduler/room_assigner.rs:11-87 | with the rooms sorted by capacity, the room picked is no larger than any suitable room, and none is picked only when no room suits |
| RoomAssigner.Range | src/scheduler/room_assigner.rs:16 | `0..n` collected is the indices in order |
| RoomAssigner.RangeIndices | src/scheduler/room_assigner.rs:16-25 | the sorted section order visits every index once |
| RoomAssigner.RangeWithKey | src/scheduler/room_assigner.rs:16 | the indices of `0..n` sharing a key are listed in increasing order |
| RoomAssigner.TiesInIndexOrder | src/scheduler/room_assigner.rs:16-25 | the stable sort visits sections with the same feature count in increasing index order |
| RoomAssigner.Elems | src/scheduler/room_assigner.rs:48-50 | the periods inserted are exactly the section's periods |
| RoomAssigner.WithRooms | src/scheduler/room_assigner.rs:42-44 | only room ids change, and the number of sections is kept |
| RoomAssigner.ChosenAt | src/scheduler/room_assigner.rs:27-52 | each pick is the room `find_suitable_room` returns given the bookings made before it |
| RoomAssigner.PickFits | src/scheduler/room_assigner.rs:55-87 | a room given to a section seats it, has the course's features and is available at every period; a section left without a room had no suitable room |
| RoomAssigner.BookedHas | src/scheduler/room_assigner.rs:46-50 | every period of a section given a room stays booked for that room |
| RoomAssigner.NoRoomDoubleBooking | src/scheduler/room_assigner.rs:27-87 | two sections given the same room never share a period |
| RoomAssigner.WithRoomsAt | src/scheduler/room_assigner.rs:42-44 | a visited section gets its pick's room id, or keeps its old one when none suited |
| RoomAssigner.WithRoomsUntouched | src/scheduler/room_assigner.rs:27-52 | a section the loop did not visit is unchanged |
| RoomAssigner.Book | src/scheduler/room_assigner.rs:46-50 | the room's bookings gain the section's periods and nothing else changes |
| RoomAssigner.PickStep | src/scheduler/room_assigner.rs:27-52 | one pass keeps the sections and the bookings in step with the picks |
| RoomAssigner.SuitableIgnoresRoom | src/scheduler/room_assigner.rs:55-87 | suitability does not depend on the section's own room id |
| RoomAssigner.AssignOne | src/scheduler/room_assigner.rs:27-52 | one pass of the loop keeps its invariant |
| RoomAssigner.AssignRooms | src/scheduler/room_assigner.rs:4-53 | sections are visited once each in the stable sort of `0..n` by descending required-feature count, so most features first and ties by index; each gets the room `find_suitable_room` returns among the rooms sorted by capacity; only room ids change |
| IlpSolver.RankWeight | src/scheduler/ilp_solver.rs:76-77 | an elective's weight `10 - min(rank, 9)` is always between 1 and 10 |
| IlpSolver.RankWeightOrder | src/scheduler/ilp_solver.rs:76-77 | an earlier preference never weighs less, and strictly more within the first nine ranks |
| IlpSolver.Weight | src/scheduler/ilp_solver.rs:71-87 | the weight is 1000 exactly for a required course, 0 exactly for a course the student does not want, and 1 to 10 for an elective only |
| IlpSolver.WeightOrder | src/scheduler/ilp_solver.rs:71-87 | every required course outweighs every elective, and electives keep their preference order |
| IlpSolver.AfterStudents | src/scheduler/ilp_solver.rs:177-184 | extraction keeps the number of sections |
| IlpSolver.ExtractionAppends | src/scheduler/ilp_solver.rs:177-184 | extraction only appends ids to a section's students, each id one of a student the solver placed there, and changes no other field |
| IlpSolver.AddedCount | src/scheduler/ilp_solver.rs:177-184 | a section gains one id per student the solver placed in it |
| IlpSolver.PickedBelowStep | src/scheduler/ilp_solver.rs:177-184 | the placed students of a section grow by the next student exactly when the solver placed that student there |
| IlpSolver.CapacityKept | src/scheduler/ilp_solver.rs:115-127 | an answer meeting the capacity constraint fills no initially empty section past its capacity |
| IlpSolver.NoStudentConflict | src/scheduler/ilp_solver.rs:94-161 | an answer meeting the constraints never gives a student two sections of one course or two sections that meet at the same time |
| IlpSolver.ReasonCascade | src/scheduler/ilp_solver.rs:213-264 | the reasons are tried in order (grade, no sections, all full, time conflict, unknown), each only when the earlier ones do not apply |
| IlpSolver.MissedEntries | src/scheduler/ilp_solver.rs:186-207 | one unassigned entry per required course the student is not enrolled in, each with its reason, and no other |
| IlpSolver.MissedSnoc | src/scheduler/ilp_solver.rs:187-206 | one more required course adds its entry exactly when the student is not enrolled in it |
| IlpSolver.Extract | src/scheduler/ilp_solver.rs:174-210 | the sections gain the students the solver picked, in student order, and the unassigned list holds each student's missed required courses in order |
| IlpSolver.EnrollChosen | src/scheduler/ilp_solver.rs:178-184 | one student's pass appends the student to exactly the sections the solver picked |
| IlpSolver.MissedOf | src/scheduler/ilp_solver.rs:186-207 | one student's unassigned entries, as specified |
| IlpSolver.IsAssigned | src/scheduler/ilp_solver.rs:188-190 | true exactly when some section of the course enrols the student |
| Optimizer.AddPeriods | src/scheduler/optimizer.rs:21-26 | every listed student gains an entry (created empty when absent) extended by the section's periods; no other entry changes |
| Optimizer.BuildStudentSchedules | src/scheduler/optimizer.rs:12-27 | the tracked schedules hold exactly the enrolled students, each with the union of the periods of the sections that enrol them |
| Optimizer.NotEnrolledNoPeriods | src/scheduler/optimizer.rs:12-27 | a student no section enrols occupies no period |
| Optimizer.CanMoveMeans | src/scheduler/optimizer.rs:98-141 | with accurate schedules a move is allowed exactly when the target is not full and none of its periods is one the student attends outside the section being left |
| Optimizer.Moved | src/scheduler/optimizer.rs:164-166 | a move keeps the number of sections |
| Optimizer.MovedFacts | src/scheduler/optimizer.rs:143-166 | after a move the student is out of the source section and in the target, and every other section and every other field is unchanged |
| Optimizer.RetrackedFacts | src/scheduler/optimizer.rs:168-174 | the student's entry, when present, loses the source's periods (unless the target also meets then) and gains the target's; other entries and the key set are unchanged, and a student without an entry gets none |
| Optimizer.MoveStudent | src/scheduler/optimizer.rs:143-175 | the sections become the moved sections and the schedules the retracked schedules |
| Optimizer.DropPeriods | src/scheduler/optimizer.rs:170-172 | removing the source periods one by one leaves the set difference |
| Optimizer.Ends | src/scheduler/optimizer.rs:47-54 | the smallest and largest sections are both among the course's sections |
| Optimizer.EndsBounds | src/scheduler/optimizer.rs:47-54 | the first index after the stable sort has the least enrolment of the course and the last the greatest |
| Optimizer.EndsTies | src/scheduler/optimizer.rs:47-54 | on equal enrolment the smallest is the earliest such section and the largest the latest one |
| Optimizer.FirstMovable | src/scheduler/optimizer.rs:64-87 | the position found is the first student allowed to move, and none is found exactly when nobody may move |
| Optimizer.FindMovable | src/scheduler/optimizer.rs:68-87 | the loop over the largest section's students returns the first movable position |
| Optimizer.CourseMoveSome | src/scheduler/optimizer.rs:41-87 | a course moves a student of its largest section into its smallest, two distinct sections whose enrolments differ by more than one, and only when the move is allowed |
| Optimizer.CourseMoveNone | src/scheduler/optimizer.rs:42-62 | a course makes no move exactly when it has fewer than two sections, the gap is at most one, or nobody may move |
| Optimizer.BalanceCourse | src/scheduler/optimizer.rs:41-87 | one course's step performs exactly the move the course specifies, or changes nothing |
| Optimizer.Perform | src/scheduler/optimizer.rs:143-175 | performing a move keeps the number of sections |
| Optimizer.ApplyMoves | src/scheduler/optimizer.rs:38-93 | performing moves one after another keeps the number of sections |
| Optimizer.ApplySnoc | src/scheduler/optimizer.rs:76-83 | performing one more move after a list is performing the longer list |
| Optimizer.ApplyAppend | src/scheduler/optimizer.rs:38-93 | performing two lists of moves one after the other is performing their concatenation |
| Optimizer.ApplyChain | src/scheduler/optimizer.rs:38-93 | the same, with the intermediate and final states named |
| Optimizer.RoundMovesStep | src/scheduler/optimizer.rs:40-87 | the moves of the first `i + 1` courses are those of the first `i` plus course `i`'s move, if any, on the state they left |
| Optimizer.TurnStep | src/scheduler/optimizer.rs:40-87 | a course's turn in a round extends the round's moves by its move, if any, and leaves the state those moves performed in order leave |
| Optimizer.RoundCount | src/scheduler/optimizer.rs:40-87 | a round moves at most one student per course |
| Optimizer.RoundKept | src/scheduler/optimizer.rs:40-87 | a round keeps every section within its capacity and its fields other than the enrolment, and moves each student between two sections of one course |
| Optimizer.RoundQuiet | src/scheduler/optimizer.rs:40-92 | a round that moves nobody leaves every listed course with no move to make |
| Optimizer.RoundOfFacts | src/scheduler/optimizer.rs:40-87 | the round over the courses moves at most one student per course, leaves the state its moves performed in order leave, keeps sections, and is quiet only when every course is |
| Optimizer.RunStart | src/scheduler/optimizer.rs:38 | before the first round nothing is done and the whole run remains |
| Optimizer.RoundDone | src/scheduler/optimizer.rs:38-93 | after a round, a round without a move ends the run in the current state; otherwise the run goes on from the state the round leaves with its moves appended |
| Optimizer.RunCounts | src/scheduler/optimizer.rs:38-93 | a run lasts at most its budget of rounds, the whole budget unless a round is quiet, and makes at most `n` moves per round |
| Optimizer.RunApplies | src/scheduler/optimizer.rs:38-93 | the state a run reaches is its moves performed in order from the start |
| Optimizer.RunKept | src/scheduler/optimizer.rs:38-93 | a run keeps every section within its capacity and its other fields, and each move is between two sections of one course of the starting sections |
| Optimizer.KeptChain | src/scheduler/optimizer.rs:38-93 | a round's guarantees followed by the rest of the run's give the whole run's |
| Optimizer.RunQuietEnd | src/scheduler/optimizer.rs:89-92 | a run that stops on a quiet round ends in a state from which the round moves nobody |
| Optimizer.RunSettled | src/scheduler/optimizer.rs:89-92 | a run that stops on a quiet round leaves no course of the final sections able to move anybody |
| Optimizer.NextRound | src/scheduler/optimizer.rs:38-93 | one pass of the loop over rounds: a pass without a move ends the run with its outcome; otherwise the run goes on with the round's moves added |
| Optimizer.MoveKept | src/scheduler/optimizer.rs:109-111 | a move into a section with a free seat keeps every section within its capacity and its other fields unchanged |
| Optimizer.BalanceRound | src/scheduler/optimizer.rs:40-87 | a round's moves are exactly each listed course's own move, in order, on the state the courses before it left; the new sections and schedules are those moves performed in order; it reports improvement exactly when it moved someone, and keeps capacities |
| Optimizer.IndicesKept | src/scheduler/optimizer.rs:29-36 | moves do not change which sections belong to which course |
| Optimizer.QuietSettled | src/scheduler/optimizer.rs:90-92 | stopping after a round without a move means no course of the final sections can move anybody |
| Optimizer.RunRounds | src/scheduler/optimizer.rs:38-93 | the loop over rounds yields exactly the moves, round count, early stop and final sections and schedules of the specification `Run` of the round |
| Optimizer.OptimizeSectionBalance | src/scheduler/optimizer.rs:9-96 | the result is the sections reached by the moves of `Run` from the accurate schedules and the course grouping, performed in order; it keeps every section's course, periods, teacher, room and capacity, never overfills a section, moves students only between sections of one course, stops within 100 rounds with at most one move per course per round, and on an early stop leaves no course able to move anybody |
| Optimizer.ConflictBlocksMove | src/scheduler/optimizer.rs:253-283 | a student in slot-0 and slot-1 sections cannot move to another slot-1 section |
| HardConstraints.Owners | src/validator/hard_constraints.rs:10-11 | a section books its enrolled students, its teacher (nobody exactly when it has none) or its room (nobody exactly when it has none) |
| HardConstraints.PeriodBookings | src/validator/hard_constraints.rs:14-15 | one booking per period of the section |
| HardConstraints.PeriodBookingsHas | src/validator/hard_constraints.rs:14-15 | an id is booked at exactly the section's periods |
| HardConstraints.OwnerBookingsHas | src/validator/hard_constraints.rs:38-43 | a section books exactly the pairs of one of its ids and one of its periods |
| HardConstraints.BookingsPrefix | src/validator/hard_constraints.rs:38-56 | the bookings of the first sections are a prefix of the bookings of all |
| HardConstraints.ConflictsCount | src/validator/hard_constraints.rs:12-25 | there are exactly as many violations as bookings beyond the distinct ones |
| HardConstraints.ConflictsNone | src/validator/hard_constraints.rs:12-25 | no violation is reported exactly when no id is booked twice at one period |
| HardConstraints.ConflictsShape | src/validator/hard_constraints.rs:17-24 | every violation carries the check's constraint name and is an error |
| HardConstraints.ConflictsHas | src/validator/hard_constraints.rs:16-25 | a booking repeated later is reported |
| HardConstraints.InBookings | src/validator/hard_constraints.rs:38-56 | every id and period of every section is among the check's bookings |
| HardConstraints.ConflictsMono | src/validator/hard_constraints.rs:16-25 | violations reported stay reported as more bookings are made |
| HardConstraints.RepeatReported | src/validator/hard_constraints.rs:40-53 | a booking an earlier section already made is reported when the later section makes it |
| HardConstraints.DoubleBookingReported | src/validator/hard_constraints.rs:6-87 | two sections booking one id at a common period make the check report that id and period |
| HardConstraints.IndexHas | src/validator/hard_constraints.rs:8-12 | the map of per-id period sets holds exactly the bookings made so far |
| HardConstraints.BookOwner | src/validator/hard_constraints.rs:14-25 | the period loop records the id's bookings and appends one violation per failed insert |
| HardConstraints.BookSection | src/validator/hard_constraints.rs:39-55 | the id loop books every id of the section and reports the repeats |
| HardConstraints.CheckConflicts | src/validator/hard_constraints.rs:6-87 | the teacher, student and room checks report one violation per booking that repeats an earlier one, in order |
| HardConstraints.CheckKind | src/validator/hard_constraints.rs:6-87 | a check's violations are errors under its name, one per repeated booking, none exactly when nothing is double-booked, and every double booking is reported |
| HardConstraints.TeacherConflictDetected | src/validator/hard_constraints.rs:116-145 | one teacher in two sections at the same period is reported |
| HardConstraints.StudentConflictDetected | src/validator/hard_constraints.rs:147-176 | one student in two sections at the same period is reported |
| HardConstraints.CheckCapacityViolations | src/validator/hard_constraints.rs:90-109 | the loop reports one violation per section over capacity, in section order |
| HardConstraints.CapacityViolationsCount | src/validator/hard_constraints.rs:93-106 | there are exactly as many capacity violations as sections with more students than seats |
| HardConstraints.CapacityViolationsComplete | src/validator/hard_constraints.rs:93-106 | every section over capacity is reported |
| HardConstraints.CapacityViolationsSound | src/validator/hard_constraints.rs:93-106 | every report is a `RoomCapacity` error for a section over capacity; a full section is not reported |
| SoftConstraints.Fulfilled | src/validator/soft_constraints.rs:25-35 | a student's fulfilled required courses never exceed the required ones, and equal them exactly when every required course has a section enrolling the student |
| SoftConstraints.RequiredBounds | src/validator/soft_constraints.rs:16-37 | the fulfilled total never exceeds `total_required`, and equals it exactly when every student's every required course is scheduled |
| SoftConstraints.ScoreRequiredCourses | src/validator/soft_constraints.rs:15-48 | the score is named `RequiredCourses`, lies between 0 and the number of required courses, and is full exactly when every required course is scheduled |
| SoftConstraints.ElectivePointsBounds | src/validator/soft_constraints.rs:56-67 | a student's points never exceed the list's maximum (between 1 and 10 per preference), and reach it exactly when every preference is scheduled |
| SoftConstraints.ElectiveBounds | src/validator/soft_constraints.rs:55-69 | total points never exceed the maximum, reach it exactly when every preference is scheduled, and the maximum is 0 exactly when nobody lists an elective |
| SoftConstraints.StudentElectives | src/validator/soft_constraints.rs:56-68 | the inner loop adds each preference's rank weight to the maximum, and to the points when the preference is scheduled |
| SoftConstraints.ScoreElectivePreferences | src/validator/soft_constraints.rs:51-80 | the score is named `ElectivePreferences` and holds the points earned out of the points available, with both written to one decimal in the details |
| SoftConstraints.ByCourseHas | src/validator/soft_constraints.rs:85-91 | the grouping has a key exactly for each course with a section, holding those sections' enrolments in section order |
| SoftConstraints.MaxOf | src/validator/soft_constraints.rs:101 | the maximum bounds every enrolment and is one of them |
| SoftConstraints.MinOf | src/validator/soft_constraints.rs:102 | the minimum is below every enrolment and is one of them |
| SoftConstraints.Imbalance | src/validator/soft_constraints.rs:101-107 | a course's imbalance lies between 0 and 1 and is 0 exactly when its sections are equally filled |
| SoftConstraints.BalancedByCourse | src/validator/soft_constraints.rs:85-109 | every two sections of one course have equal enrolment exactly when every course group is equally filled |
| SoftConstraints.GroupEnrollments | src/validator/soft_constraints.rs:84-91 | the loop builds the grouping of enrolments by course |
| SoftConstraints.ScoreSectionBalance | src/validator/soft_constraints.rs:83-130 | the score is named `SectionBalance`, out of 100, lies between 0 and 100, and is 100 exactly when the sections of every course are equally filled |
| SoftConstraints.CalculateSoftScores | src/validator/soft_constraints.rs:6-12 | the three scores come in order (required courses, elective preferences, section balance), each between 0 and its maximum |
| Validator.HardViolationsMeaning | src/validator/mod.rs:58-62 | every hard violation is an error, so there is an error exactly when there is a violation, and none exactly when nobody is double-booked and no section is over capacity |
| Validator.SumsBounded | src/validator/mod.rs:74-75 | with each score between 0 and its maximum, the sum of scores lies between 0 and the sum of maxima |
| Validator.TotalScore | src/validator/mod.rs:71-81 | the total is 0 with any error, always between 0 and 100, and 100 without errors exactly when every soft score is full |
| Validator.FindStudent | src/validator/mod.rs:105 | the first student with the id is found, and none exactly when no student has it |
| Validator.CalculateStatistics | src/validator/mod.rs:92-138 | the counts of sections, students and enrolments; unassigned courses split into required and elective misses that add up to all of them, with no required miss exactly when no unassigned course is required of the first student with its id |
| Validator.CollectHardViolations | src/validator/mod.rs:56-62 | the teacher, student, room and capacity violations, in that order |
| Validator.ValidateSchedule | src/validator/mod.rs:55-90 | the report is valid exactly when there is no error, exactly when the hard constraints hold; an invalid schedule scores 0; the total is `calculate_total_score` of the violations and the three soft scores, each score within its maximum, so it lies between 0 and 100 |
| InputValidation.ValidationResult.constructor | src/parser/validation.rs:6-10 | a fresh result has no errors and no warnings |
| InputValidation.ValidationResult.AddError | src/parser/validation.rs:17-19 | appends the message to the errors and leaves the warnings alone |
| InputValidation.ValidationResult.AddWarning | src/parser/validation.rs:21-23 | appends the message to the warnings and leaves the errors alone |
| InputValidation.IdsOf | src/parser/validation.rs:113 | one id per record, the record's own, in order |
| InputValidation.DuplicateErrorsNone | src/parser/validation.rs:111-118 | no duplicate-id error exactly when the ids are pairwise distinct |
| InputValidation.DuplicateErrorsCount | src/parser/validation.rs:111-118 | as many duplicate-id errors as ids beyond the distinct ones |
| InputValidation.CheckDuplicateIds | src/parser/validation.rs:111-145 | each of the four duplicate checks appends one error per id that repeats an earlier one, and no warning |
| InputValidation.UnknownMessagesNone | src/parser/validation.rs:41-62 | no message exactly when every reference is a known course |
| InputValidation.StudentRefErrorsNone | src/parser/validation.rs:41-50 | no reference error exactly when every course every student requests exists |
| InputValidation.TeacherRefWarningsNone | src/parser/validation.rs:53-62 | no subject warning exactly when every subject every teacher lists exists |
| InputValidation.CheckStudentRefs | src/parser/validation.rs:42-49 | one error per unknown requested course of the student, required then elective |
| InputValidation.CheckTeacherRefs | src/parser/validation.rs:54-61 | one warning per unknown subject of the teacher |
| InputValidation.CheckStudentReferences | src/parser/validation.rs:41-50 | an unknown course a student requests is an error, never a warning |
| InputValidation.CheckTeacherReferences | src/parser/validation.rs:53-62 | an unknown subject is a warning, never an error |
| InputValidation.UnstaffedErrorsNone | src/parser/validation.rs:65-73 | no staffing error exactly when every course is among some teacher's subjects |
| InputValidation.StaffedIffListed | src/parser/validation.rs:148-156 | the teacher map has a key for a course exactly when some teacher lists it |
| InputValidation.UnstaffedStep | src/parser/validation.rs:66-73 | a course adds an error exactly when it has no key in the teacher map |
| InputValidation.CheckStaffed | src/parser/validation.rs:64-73 | one error per course no teacher lists, in course order |
| InputValidation.AddUnstaffed | src/parser/validation.rs:66-73 | given the map built from the teachers, the loop over the courses appends the same errors, a course being a key exactly when it is staffed |
| InputValidation.GradeWarningsNone | src/parser/validation.rs:76-87 | no grade warning exactly when every listed restriction grade is 9 to 12 |
| InputValidation.UnusualGradesNone | src/parser/validation.rs:78-85 | a course's grades give no warning exactly when all are 9 to 12 |
| InputValidation.CheckCourseGrades | src/parser/validation.rs:77-86 | one warning per restriction grade outside 9 to 12 |
| InputValidation.CheckGrades | src/parser/validation.rs:76-87 | the grade warnings of every course in order, and no error |
| InputValidation.MaxRoomCapacity | src/parser/validation.rs:90 | the largest capacity bounds every room and is one of theirs, or 0 without rooms |
| InputValidation.FitsLargestRoom | src/parser/validation.rs:90-92 | a course size is within the largest capacity exactly when it is 0 or some room holds it |
| InputValidation.CapacityWarningsNone | src/parser/validation.rs:91-97 | no capacity warning exactly when every course's `max_students` is within the largest capacity |
| InputValidation.CheckRoomCapacity | src/parser/validation.rs:89-98 | one warning per course larger than the largest room, and no error |
| InputValidation.InputErrorsNone | src/parser/validation.rs:27-109 | no error exactly when ids are unique per kind, every requested course exists and every course has a qualified teacher |
| InputValidation.CheckAllIds | src/parser/validation.rs:35-38 | the errors of the student, teacher, course and room duplicate checks, in that order |
| InputValidation.CheckReferences | src/parser/validation.rs:40-73 | the reference errors then the staffing errors, and the subject warnings |
| InputValidation.CollectFindings | src/parser/validation.rs:28-98 | all errors and warnings of the checks, in the order they run |
| InputValidation.ValidateInput | src/parser/validation.rs:27-109 | success exactly when the input is well formed, carrying the warnings; otherwise a failure counting the errors and listing them one per line |
| Reporter.CourseName | src/reporter/mod.rs:84-89 | "Unknown" when no course has the id, otherwise the name of a course with it |
| Reporter.TeacherName | src/reporter/mod.rs:91-96 | "TBD" for a section without a teacher or with an unknown one, otherwise the name of a teacher with the id |
| Reporter.RoomLabel | src/reporter/mod.rs:98-102 | the room id, or "TBD" for a section without a room |
| Reporter.BySlotCount | src/reporter/mod.rs:83-116 | the daily list has one entry per enrolled section that meets at least once |
| Reporter.BySlotFromSections | src/reporter/mod.rs:104-115 | every daily-list entry is the first-period entry of an enrolled section that meets |
| Reporter.SectionsInBySlot | src/reporter/mod.rs:104-115 | every enrolled section that meets has its entry in the daily list |
| Reporter.HeaderLeads | src/reporter/mod.rs:65-68 | the student header is two lines, neither the placeholder nor the unassigned heading |
| Reporter.BodyLeads | src/reporter/mod.rs:77-122 | only the placeholder line of the student body can be mistaken for it, and no body line is the unassigned heading |
| Reporter.BlockLeads | src/reporter/mod.rs:131-142 | only the heading of the unassigned block starts with a newline, and no line of it is the placeholder |
| Reporter.NoCoursesPlaceholder | src/reporter/mod.rs:77-78 | the student's schedule says "No courses enrolled." exactly when no section enrols the student |
| Reporter.UnassignedPlaceholder | src/reporter/mod.rs:125-132 | the "Unassigned Courses" heading appears exactly when some unassigned entry names the student |
| Reporter.StudentDailyList | src/reporter/mod.rs:80-121 | the daily list has one entry per enrolled section that meets, each from such a section, and every such section contributes |
| Reporter.GenerateStudentSchedule | src/reporter/mod.rs:57-145 | nothing exactly for an unknown student, otherwise the header, body and unassigned block joined by newlines |
| Reporter.CollectStudentBody | src/reporter/mod.rs:77-122 | the placeholder or the daily list |
| Reporter.CollectBySlot | src/reporter/mod.rs:83-116 | the loop fills the daily list |
| Reporter.CollectUnassignedBlock | src/reporter/mod.rs:131-142 | nothing, or the heading and one line per unassigned entry |
| Reporter.PeriodLabel | src/reporter/mod.rs:186-190 | "TBD" exactly for a section that never meets |
| Reporter.TeacherLineLead | src/reporter/mod.rs:192-199 | each section line is a list item |
| Reporter.TeacherLinesLead | src/reporter/mod.rs:172-200 | every section line is a list item |
| Reporter.TeacherHeaderLeads | src/reporter/mod.rs:155-158 | the teacher header is two lines, neither the placeholder |
| Reporter.TeacherBodyLeads | src/reporter/mod.rs:167-201 | only the placeholder line of the teacher body can be mistaken for it |
| Reporter.NoSectionsPlaceholder | src/reporter/mod.rs:167-168 | the teacher's schedule says "No sections assigned." exactly when no section has the teacher |
| Reporter.TeacherBodyShape | src/reporter/mod.rs:161-201 | a teacher with sections gets "Teaching n sections", n the number of sections with that teacher, then one line per section in schedule order |
| Reporter.GenerateTeacherSchedule | src/reporter/mod.rs:147-204 | nothing exactly for an unknown teacher, otherwise the header and body joined by newlines |
| Reporter.CollectTeacherBody | src/reporter/mod.rs:167-201 | the placeholder, or the count line and one line per section |
| Cli.FormatOf | src/main.rs:410-415 | a trimmed, lower-cased token maps to JSON exactly for "json", Markdown exactly for "markdown" or "md", Text exactly for "text" or "txt", and to nothing otherwise |
| Cli.Recognised | src/main.rs:408-416 | never more formats than tokens |
| Cli.RecognisedAppend | src/main.rs:408-416 | the formats of two token lists are those of the first followed by those of the second |
| Cli.ParseFormats | src/main.rs:403-417 | exactly "all" selects JSON, Markdown and Text; otherwise at most one format per comma-separated token |
| Cli.SingleToken | src/main.rs:408-416 | a token without commas yields its own format or nothing |
| Cli.ParseFormatsAppend | src/main.rs:408-416 | a comma-joined list yields the formats of each part, in order |
| Cli.AllIsExact | src/main.rs:404-406 | a token that only lower-cases or trims to "all" selects nothing |
| Cli.RepeatsKept | src/main.rs:408-416 | a repeated token yields its format twice; duplicates are not removed |
| PdfInline.CloseFrom | scripts/generate-pdf.py:63-65 | a closing marker found lies at or after the search start and within the text |
| PdfInline.MatchAt | scripts/generate-pdf.py:63-65 | a match opens with the marker, has at least one inner character, and its closing marker fits in the text |
| PdfInline.Unwrap | scripts/generate-pdf.py:63-65 | a substitution never lengthens the text |
| PdfInline.UnwrapNoMarker | scripts/generate-pdf.py:63-65 | text without the marker's first character is copied unchanged |
| PdfInline.CloseFromSkips | scripts/generate-pdf.py:63-65 | the lazy `.+?` stops at the first closing marker when nothing before it could start one |
| PdfInline.CloseFromNone | scripts/generate-pdf.py:63-65 | without a later marker character there is no match |
| PdfInline.UnwrapMatch | scripts/generate-pdf.py:63-65 | a match is replaced by its inner text and the scan resumes after the closing marker |
| PdfInline.WrappedParts | scripts/generate-pdf.py:63-65 | the opening marker, the inner text, the closing marker and the rest sit where they were put |
| PdfInline.WrappedMatches | scripts/generate-pdf.py:63-65 | a marker around one line of text that never starts the marker matches, ending where the closing marker starts |
| PdfInline.UnwrapOne | scripts/generate-pdf.py:63-65 | such a wrapped text is replaced by its inner text, and the rest is processed on its own |
| PdfInline.UnterminatedStays | scripts/generate-pdf.py:63-65 | an opening marker that is never closed stays literal |
| PdfInline.PlainTextUnchanged | scripts/generate-pdf.py:61-66 | text without asterisks and backticks passes through unchanged |
| PdfInline.NoDoubleStar | scripts/generate-pdf.py:63 | text without two adjacent asterisks has no bold span to remove |
| PdfInline.UnwrapWhole | scripts/generate-pdf.py:63-65 | a whole text wrapped in one marker reduces to its inner text |
| PdfInline.BoldStripped | scripts/generate-pdf.py:61-66 | a bold span around plain text reduces to the text |
| PdfInline.ItalicStripped | scripts/generate-pdf.py:61-66 | an italic span around plain text reduces to the text |
| PdfInline.CodeStripped | scripts/generate-pdf.py:61-66 | a code span around plain text reduces to the text |
| PdfMarkdown.Flush | scripts/generate-pdf.py:151-155 | a flush draws at most one table, and one exactly when a table with headers is pending |
| PdfMarkdown.Cells | scripts/generate-pdf.py:186 | the cells are the non-empty stripped pieces between pipes, none empty, none holding a pipe, each already stripped, and every non-blank piece is kept |
| PdfMarkdown.Span | scripts/generate-pdf.py:210 | the longest prefix whose characters pass the test |
| PdfMarkdown.Apply | scripts/generate-pdf.py:146-224 | every iteration moves forward, by one line or two, never past the end |
| PdfMarkdown.Kinds | scripts/generate-pdf.py:147 | one classification per line, of the line after stripping |
| PdfMarkdown.HandleLine | scripts/generate-pdf.py:147-224 | the loop body draws, advances and updates the table buffer as the classification prescribes |
| PdfMarkdown.AddMarkdown | scripts/generate-pdf.py:138-228 | the loop over the lines, with the final flush of a pending table, draws the blocks of the file |
| PdfMarkdown.ContainsFirst | scripts/generate-pdf.py:185 | a line containing a substring contains its first character |
| PdfMarkdown.HeadingsKeepRawTitle | scripts/generate-pdf.py:171-182 | `# T`, `## T` and `### T` are headings of level 1, 2 and 3 titled T without inline stripping |
| PdfMarkdown.FourthLevelIsParagraph | scripts/generate-pdf.py:171-224 | `#### T` without a pipe is a paragraph of the whole line |
| PdfMarkdown.CheckboxIsBullet | scripts/generate-pdf.py:204-220 | `- [ ] T` and `- [x] T` are already bullets keeping the box, so the checkbox branch is never reached |
| PdfMarkdown.SpanIs | scripts/generate-pdf.py:210 | the prefix length is fixed by the first character failing the test |
| PdfMarkdown.NumberedMatchOf | scripts/generate-pdf.py:210 | digits, a dot, whitespace and text not starting with whitespace match with the digits and the text as groups |
| PdfMarkdown.DigitLineKind | scripts/generate-pdf.py:203-224 | a pipe-free line starting with a digit is a numbered item when the expression matches and a paragraph otherwise |
| PdfMarkdown.NumberedItem | scripts/generate-pdf.py:209-214 | such a line is a numbered item with that number and text |
| PdfMarkdown.NumberedShape | scripts/generate-pdf.py:210 | a match comes only from digits, a dot, at least one whitespace character and text not starting with whitespace |
| PdfMarkdown.DashLineDrawsNothing | scripts/generate-pdf.py:185-201 | a line starting with `\|--` is skipped without drawing or changing the table buffer |
| PdfMarkdown.TextLinesLeaveTablePending | scripts/generate-pdf.py:170-224 | headings, bullets, numbered items and paragraphs draw one block each and leave a pending table pending |
| PdfMarkdown.FlushAtBlankOrRule | scripts/generate-pdf.py:150-168 | a blank line or rule draws the pending table and empties the buffer, keeps open a table without headers, and a rule always ends with a new page |
| PdfMarkdown.NoFlushElsewhere | scripts/generate-pdf.py:170-224 | no other line draws a table; an open table keeps its headers and only gains rows |
| PdfMarkdown.TableLineStep | scripts/generate-pdf.py:185-196 | a table line draws nothing; the first sets the headers and skips a following `\|--` line, later ones append a row |
| PdfMarkdown.AllTablesAppend | scripts/generate-pdf.py:138-228 | well-formed tables stay well formed when block lists are joined |
| PdfMarkdown.TableLineIs | scripts/generate-pdf.py:185-186 | only a line with a pipe not starting with `\|--` is a table line, with that line's cells |
| PdfMarkdown.TableLineCells | scripts/generate-pdf.py:186 | the cells of a table line are well formed |
| PdfMarkdown.ApplyKeepsTablesWellFormed | scripts/generate-pdf.py:146-224 | one step draws only tables with headers and well-formed cells, and keeps the buffer well formed |
| PdfMarkdown.TablesWellFormed | scripts/generate-pdf.py:146-228 | every table drawn from a point on has headers and well-formed cells |
| PdfMarkdown.SegmentTablesWellFormed | scripts/generate-pdf.py:138-228 | every table a file draws has at least one header and cells that are non-empty, stripped and pipe-free |
| PdfMarkdown.RuleLineIs | scripts/generate-pdf.py:160 | only `---` and `***` are rules |
| PdfMarkdown.PipeIsNoRule | scripts/generate-pdf.py:160 | a line with a pipe is not a rule |
| PdfMarkdown.StripKeeps | scripts/generate-pdf.py:147 | stripping keeps every character that is not whitespace |
| PdfMarkdown.PipeLineNotRule | scripts/generate-pdf.py:147-160 | a raw line with a pipe never strips to a rule |
| PdfMarkdown.ApplyPageBreaks | scripts/generate-pdf.py:146-224 | a step starts a new page exactly when its line is a rule |
| PdfMarkdown.PageBreakPerRule | scripts/generate-pdf.py:146-228 | the pages forced from a point on are exactly the rule lines from there on |
| PdfMarkdown.SegmentPageBreaks | scripts/generate-pdf.py:138-228 | a file starts exactly one new page per `---` or `***` line, and nothing else does |
| PdfTable.Truncate | scripts/generate-pdf.py:105-123 | a cut cell is a prefix of at most 20 characters, and a short one is kept whole |
| PdfTable.Blanks | scripts/generate-pdf.py:125-126 | the padding is that many empty cells |
| PdfTable.GridRows | scripts/generate-pdf.py:114-128 | one drawn row per table row |
| PdfTable.LayoutKinds | scripts/generate-pdf.py:88-103 | no headers draw nothing; more than six columns print the headers and then each row as lines joined by a blank, a pipe and a blank, uncut |
| PdfTable.RowCellsRules | scripts/generate-pdf.py:119-126 | a row has exactly one cell per header: its own cells cut to 20 characters, surplus dropped, missing ones empty |
| PdfTable.GridRowsAt | scripts/generate-pdf.py:113-128 | the rth drawn row comes from the rth row and is shaded exactly when r is odd |
| PdfTable.GridRules | scripts/generate-pdf.py:105-128 | up to six columns the table is a grid of cut headers and rows of one cell per header, shading alternating from an unshaded first row |
| PdfTable.DrawRow | scripts/generate-pdf.py:119-126 | the two cell loops of a row produce its cells |
| PdfTable.DrawTextLines | scripts/generate-pdf.py:97-101 | the text-form loop yields the joined header line followed by one joined line per row, in order |
| PdfTable.DrawHeader | scripts/generate-pdf.py:105-108 | the header loop yields every header cut to 20 characters, in order |
| PdfTable.DrawBody | scripts/generate-pdf.py:112-128 | the row loop with its flipping fill flag yields the grid rows, shaded on odd rows |
| PdfTable.AddTable | scripts/generate-pdf.py:82-130 | `add_table` draws the layout of its headers and rows |
| PdfReport.FirstMissing | scripts/generate-pdf.py:245-248 | the index found is the first file that does not exist, and none is found exactly when all exist |
| PdfReport.CheckFiles | scripts/generate-pdf.py:244-248 | the existence loop stops at the first missing file |
| PdfReport.ContentsStep | scripts/generate-pdf.py:253-256 | reading one more file appends its blocks |
| PdfReport.AddFiles | scripts/generate-pdf.py:253-256 | the read loop adds every file's blocks in manifest order |
| PdfReport.GenerateReport | scripts/generate-pdf.py:231-281 | exit code 1 exactly when some manifest file is missing, naming the first and drawing nothing; otherwise exit code 0 with the first page, the six files' blocks in order and the closing page |
| PdfReport.ContentsTablesWellFormed | scripts/generate-pdf.py:253-256 | every table of the files' blocks has headers and well-formed cells |
| PdfReport.DocumentTablesWellFormed | scripts/generate-pdf.py:231-259 | every table of the document has headers and well-formed cells |
| BuildJson.GatherStep | scripts/build-json.py:35-61 | one more line folds its outcome into the result so far |
| BuildJson.GatherStops | scripts/build-json.py:35-61 | once a line has raised, the whole parse raises that error |
| BuildJson.GatherSucceeds | scripts/build-json.py:35-61 | a parse succeeds exactly when no line raises |
| BuildJson.GatherFirstFailure | scripts/build-json.py:35-61 | the parse raises the error of the first line that raises |
| BuildJson.GatherEvery | scripts/build-json.py:35-61 | when every line yields a record, the parse yields each line's record, in order |
| BuildJson.GatherAppend | scripts/build-json.py:35-61 | parsing two blocks of lines in a row gives the first's records then the second's, or the first error |
| BuildJson.SkipDropsOut | scripts/build-json.py:36-42 | a line that yields nothing can be removed without changing the result |
| BuildJson.GatherCount | scripts/build-json.py:35-61 | a successful parse yields one record per line that is not skipped |
| BuildJson.Collect | scripts/build-json.py:34-62 | the loop computes the fold |
| BuildJson.ToInt | scripts/build-json.py:57 | `int()` succeeds exactly on an optionally signed decimal with optional surrounding whitespace, and raises otherwise |
| BuildJson.Fields | scripts/build-json.py:39 | one stripped field per pipe-separated piece of the stripped line, none holding a pipe |
| BuildJson.Grades | scripts/build-json.py:47-49 | no restriction exactly when the field is empty or "all" in any case |
| BuildJson.GradesSucceed | scripts/build-json.py:49 | a restricted field succeeds exactly when every non-empty piece is a number |
| BuildJson.GradesValues | scripts/build-json.py:49 | a restricted field whose pieces are numbers lists their values in order |
| BuildJson.GradesFirstBad | scripts/build-json.py:49 | the first piece that is not a number raises |
| BuildJson.SlotOf | scripts/build-json.py:135-139 | a piece without a colon is dropped |
| BuildJson.SlotRule | scripts/build-json.py:136-139 | `day:period` yields that day and the period's value, or raises when the period is not a number |
| BuildJson.ParseUnavailable | scripts/build-json.py:133-139 | the loop over the comma pieces of an unavailable field |
| BuildJson.CourseLine | scripts/build-json.py:35-61 | blank, comment and short lines yield nothing; a record holds the line's id, name, maximum, grades, features and section count |
| BuildJson.StudentLine | scripts/build-json.py:77-97 | blank, comment and short lines yield nothing; a record holds the line's id, name, grade, required courses and electives |
| BuildJson.TeacherLine | scripts/build-json.py:115-147 | blank, comment and short lines yield nothing; a Lovelace name aborts; a record holds the line's id, name, subjects, section limit and unavailable slots |
| BuildJson.RoomLine | scripts/build-json.py:166-193 | blank, comment and short lines yield nothing; a record holds the line's id, name, capacity, features and unavailable slots |
| BuildJson.CourseLineRaises | scripts/build-json.py:44-61 | a full course line raises exactly when its grades, maximum or section count cannot be read |
| BuildJson.StudentLineRaises | scripts/build-json.py:86-97 | a full student line raises exactly when its grade is not a number |
| BuildJson.TeacherLineRaises | scripts/build-json.py:124-147 | a full teacher line raises exactly when the name contains "lovelace", the unavailable list cannot be read or the section limit is not a number |
| BuildJson.TeacherOf | scripts/build-json.py:124-147 | the five fields of a full line give a Lovelace abort, or a teacher whose id, name, subjects, section limit and unavailable slots are read from them |
| BuildJson.TeacherOfRaises | scripts/build-json.py:124-147 | reading the fields raises exactly on a Lovelace name, an unreadable unavailable list or a non-numeric section limit |
| BuildJson.RoomLineRaises | scripts/build-json.py:175-193 | a full room line raises exactly when the unavailable list cannot be read or the capacity is not a number |
| BuildJson.ParseCourses | scripts/build-json.py:20-62 | `parse_courses` is the fold of the course line parser |
| BuildJson.ParseStudents | scripts/build-json.py:65-98 | `parse_students` is the fold of the student line parser |
| BuildJson.ReadTeacher | scripts/build-json.py:116-147 | the loop body reads one teacher line |
| BuildJson.ParseTeachers | scripts/build-json.py:101-148 | `parse_teachers` is the fold of the teacher line parser |
| BuildJson.ReadRoom | scripts/build-json.py:167-193 | the loop body reads one room line |
| BuildJson.ParseRooms | scripts/build-json.py:151-194 | `parse_rooms` is the fold of the room line parser |
| BuildJson.SkippedLinesDropOut | scripts/build-json.py:36-42 | blank, comment and short lines can be removed from any file without changing what any of the four parsers returns |
| BuildJson.LovelaceAborts | scripts/build-json.py:126-129 | a Lovelace teacher line aborts the whole file unless an earlier line already raised |
| ValidateJson.Get | scripts/validate-json.py:22 | a key is absent exactly when no member has it |
| ValidateJson.Keys | scripts/validate-json.py:32 | iterating an object yields exactly its keys |
| ValidateJson.AsInt | scripts/validate-json.py:29 | `isinstance(v, int)` holds exactly for integers and booleans |
| ValidateJson.KeyOf | scripts/validate-json.py:21-37 | a value can be looked up in a set exactly when it is not a list or an object |
| ValidateJson.UnknownRefs | scripts/validate-json.py:32-37 | at most one error per item, each an unknown-course error for that entry and list |
| ValidateJson.Refs | scripts/validate-json.py:32-56 | a reference list yields only unknown-course errors for that entry and list |
| ValidateJson.CheckRefs | scripts/validate-json.py:32-56 | the loop over one reference list |
| ValidateJson.UnknownRefsStops | scripts/validate-json.py:32-37 | once an item raises, the whole loop raises that error |
| ValidateJson.CheckStudent | scripts/validate-json.py:27-37 | the student checks after the id |
| ValidateJson.CheckTeacher | scripts/validate-json.py:49-56 | the teacher checks after the id |
| ValidateJson.CheckEntry | scripts/validate-json.py:18-87 | one entry: the duplicate check against the ids seen so far, then the entity's checks |
| ValidateJson.CheckEntries | scripts/validate-json.py:18-87 | the loop over a file's entries, ending with the set of ids seen |
| ValidateJson.CheckStops | scripts/validate-json.py:18-87 | once an entry raises, the whole file raises that error |
| ValidateJson.ValidateStudents | scripts/validate-json.py:18-38 | `validate_students` |
| ValidateJson.ValidateTeachers | scripts/validate-json.py:40-57 | `validate_teachers` |
| ValidateJson.ValidateCourses | scripts/validate-json.py:59-74 | `validate_courses` returns the ids of all its entries with the errors, or raises |
| ValidateJson.ValidateRooms | scripts/validate-json.py:76-87 | `validate_rooms` |
| ValidateJson.CheckFile | scripts/validate-json.py:109-114 | a missing optional file is one error; a present one is validated |
| ValidateJson.CheckDirectory | scripts/validate-json.py:89-126 | `main` on the loaded files: no course file stops at once; otherwise courses first, then students, teachers and rooms against the course ids; with no error, sorting course ids that mix `null` with others, or numbers with strings, raises |
| ValidateJson.OnlyUnknownCourses | scripts/validate-json.py:32-37 | reference errors are of no other kind |
| ValidateJson.StudentNoDuplicate | scripts/validate-json.py:27-37 | the student checks after the id never report a duplicate |
| ValidateJson.TeacherNoDuplicate | scripts/validate-json.py:49-56 | the teacher checks after the id never report a duplicate |
| ValidateJson.CourseNoDuplicate | scripts/validate-json.py:68-73 | the course checks after the id never report a duplicate |
| ValidateJson.BodyNoDuplicate | scripts/validate-json.py:27-86 | no entity check after the id reports a duplicate |
| ValidateJson.EntryDuplicates | scripts/validate-json.py:22-25 | an entry gets exactly one duplicate error when its id was seen before, and it comes first |
| ValidateJson.DuplicatesPerRepeat | scripts/validate-json.py:20-25 | a file gets exactly one duplicate error per entry whose id repeats an earlier entry's |
| ValidateJson.AbsentIdIsMissing | scripts/validate-json.py:22-24 | an entry without an id counts as "MISSING" and duplicates any earlier entry checked under that id |
| ValidateJson.SeenIds | scripts/validate-json.py:25 | the seen set holds exactly the ids of the entries |
| ValidateJson.UnknownRefsCount | scripts/validate-json.py:32-37 | one error per item that is not a course id |
| ValidateJson.UnknownRefsMembers | scripts/validate-json.py:32-37 | an item gets an error exactly when it is not a course id |
| ValidateJson.Count3 | scripts/validate-json.py:68-73 | counting over three joined error lists adds the counts |
| ValidateJson.Count4 | scripts/validate-json.py:27-37 | counting over four joined error lists adds the counts |
| ValidateJson.StudentParts | scripts/validate-json.py:27-37 | a student's errors are the name error, the grade error, the required-course errors and the elective errors, in that order |
| ValidateJson.TeacherParts | scripts/validate-json.py:49-56 | a teacher's errors are the name error, the Lovelace error and the subject errors, in that order |
| ValidateJson.CourseParts | scripts/validate-json.py:68-73 | a course's errors are the name, maximum-size and section-count errors, in that order |
| ValidateJson.StudentCounts | scripts/validate-json.py:27-30 | one missing-name error exactly when the name is absent or falsy, and one grade error exactly when the grade is not an int from 9 to 12 |
| ValidateJson.StudentReferences | scripts/validate-json.py:32-37 | a required course or elective gets an error exactly when it is listed and is not a course id |
| ValidateJson.TeacherCounts | scripts/validate-json.py:49-52 | a name that is not text raises; otherwise one missing-name error exactly for an empty name and one Lovelace error exactly when the lower-cased name contains "lovelace" |
| ValidateJson.TeacherReferences | scripts/validate-json.py:54-56 | a subject gets an error exactly when it is listed and is not a course id |
| ValidateJson.CourseRules | scripts/validate-json.py:68-73 | one error each for a falsy name, a maximum size and a section count that are not positive ints |
| ValidateJson.RoomRules | scripts/validate-json.py:85-86 | a room gets no error exactly when its capacity is a positive int, and every error it gets is a capacity error |
| ValidateJson.PassRequiresEverything | scripts/validate-json.py:89-126 | the run passes exactly when every file exists, every validator, the others run against the course ids, reports nothing and raises nothing, and the course ids can be sorted |
| StableSort.SortByKey | src/scheduler/room_assigner.rs:12-13 | sorting keeps the length and is a permutation of the input |
| StableSort.SortSorted | src/scheduler/room_assigner.rs:12-13 | the result is ordered by the key |
| StableSort.SortStable | src/scheduler/optimizer.rs:48-49 | items with equal keys keep their relative order, as `sort_by_key` promises |
| Seqs.KeyedBy | src/scheduler/room_assigner.rs:6 | collecting into a map has a key for every item's id, maps it to an item with that id, and to the last such item |
| Text.PyIntOfDecimal | scripts/build-json.py:94 | `int()` reads back every decimal numeral |
| Text.PyIntRejects | scripts/build-json.py:94 | `int()` raises on a blank field and on one starting with anything but a digit or a sign |
| Text.StripIdempotent | scripts/build-json.py:36 | a stripped line has no whitespace at either end, and stripping again changes nothing |
| Seqs.WithoutIsFilter | src/types/section.rs:59 | removing every copy of one value is `retain` with "is not that value": the remaining elements keep their order |
| Text.PiecesOfJoin | scripts/build-json.py:88 | the comma-list pieces of a joined list are exactly its stripped non-blank elements, in their original order |
| BalanceExample.CourseMovesFirst | src/scheduler/optimizer.rs:231-244 | while `math-1` holds more than three of the six, the course moves its first student to `math-2` |
| BalanceExample.MovedFirst | src/scheduler/optimizer.rs:143-166 | that move takes the student off the front of `math-1` and appends them to `math-2` |
| BalanceExample.RetrackedFirst | src/scheduler/optimizer.rs:168-174 | the mover's tracked periods become those of slot 1 |
| BalanceExample.RoundMovesFirst | src/scheduler/optimizer.rs:38-87 | such a round makes exactly that one move and leaves the state with one more student moved |
| BalanceExample.RoundQuietAtThree | src/scheduler/optimizer.rs:57-62 | at three and three the round moves nobody |
| BalanceExample.RunFrom | src/scheduler/optimizer.rs:38-93 | from `k` moves done the run makes the remaining `3 - k` moves, stops on the next, quiet round, and ends at three and three |
| BalanceExample.StartAccurate | src/scheduler/optimizer.rs:12-27 | the schedules built for the test's sections give each of the six students the periods of slot 0 |
| BalanceExample.OnlyMath | src/scheduler/optimizer.rs:29-40 | the only course to visit is `math`, whatever the map's order |
| BalanceExample.SixRun | src/scheduler/optimizer.rs:231-251 | the run from six and none makes three moves and a fourth, quiet round, ending with three students in each section |
| BalanceExample.BalancesSixAndNone | src/scheduler/optimizer.rs:231-251 | balancing six students in `math-1` and none in `math-2` leaves the two sections at three and three, so at most one apart |

## Left out

- The HiGHS solve itself (`src/scheduler/ilp_solver.rs`, building and running the program): the solver is an oracle, the set of (student, section) pairs it picks; the model covers the weights, the extraction of its answer, the capacity and conflict rules the answer is checked against, and the reasons for unplaced required courses.
- Floating-point rounding: soft scores, the total score and the section-balance imbalance are exact reals; `calculate_balance_score` (`src/scheduler/optimizer.rs:177-212`), the average fill rate and the balance score of the statistics (`src/validator/mod.rs:113-127`) are not modelled.
- SoftConstraints.ScoreSectionBalance: the `details` text (`{:.1}%` of a float) is left empty; only the name, range and full-marks condition of the score are stated.
- The baseline score comparison, demo data, report generation to files and the command-line dispatch of `src/main.rs`; only `parse_formats` is modelled.
- The JSON parser (`src/parser/json.rs`), error types (`src/error.rs`) and the text, markdown and JSON reporters (`src/reporter/text.rs`, `markdown.rs`, `json.rs`, `generate_reports`): file formats and I/O.
- Iteration order of `HashMap`/`HashSet`: where the source loops over a hash map's keys (the course loop of the time assigner before its sort, the course loop of the optimizer, the course groups of the section-balance score) the model visits the keys in an arbitrary order chosen inside the method, and states only what holds for every order.
- Progress bars, clocks and printing to stdout/stderr, including the `WARN` line for a skipped short line in `build-json.py` and the messages of `validate-json.py`, which the model represents by the kind of error and its data rather than by text.
- File I/O of the scripts: `load_json`, file existence and `read_text` are parameters (the loaded entries, `Option` for a missing file, and functions from a file name to its presence and contents); argument parsing and JSON writing in `build-json.py` and `validate-json.py` are not modelled, nor are a JSON file that fails to parse or whose top level is not a list.
- The fpdf drawing of `generate-pdf.py`: fonts, colours, cell widths (`max(15, 190 / n)`), header and footer, `multi_cell`, the text of the closing notice and writing the PDF; the model produces the sequence of blocks (headings, page breaks, bullets, numbered items, paragraphs, tables) and the table layout that would be drawn.
- Lower-casing (`str.lower()`, `to_lowercase()`) is ASCII only, and `\d` and `int()` accept ASCII digits only; other Unicode letters and digits are not modelled.
- JSON numbers that are not integers are a `Float` value holding a real; NaN and infinities are not representable.
- Counters stored as `u32` in the time assigner (slot usage, grade usage, penalties) are unbounded naturals: the penalty `usage * 500` would wrap once one (grade, slot) pair had been used more than about 8.6 million times (2^32 / 500), the sum over a course's grades once the penalties together passed 2^32 - 1, and the slot usage after about four billion sections.
- Periods.FromLinear requires `periods_per_day > 0`: `from_linear` divides by zero otherwise and panics.
- TimeAssigner.AssignTimeSlots requires `periods_per_day > 0` only when some section belongs to a course the catalogue knows. In that case `slot_usage` is empty, and placing the first such section indexes it at `src/scheduler/time_assigner.rs:127`, so the source panics. With no such section, every course is skipped and the sections are unchanged; the model covers that case.
- Optimizer.CourseMove and Optimizer.BalanceCourse compare the enrolment gap as unbounded integers. The source casts each `usize` enrolment to `i32` first (`src/scheduler/optimizer.rs:56-57`), which wraps once a section holds more than 2^31 - 1 students.
- `Section` is a value: its `&mut self` methods `enroll` and `unenroll` are functions returning the updated section, and slices of sections are arrays; Rust's exclusive borrows rule out aliasing, so nothing is lost.
- `verify-schedule.py` and `src/lib.rs` are not part of this model.
