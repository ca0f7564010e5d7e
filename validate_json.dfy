/** The JSON data validator: duplicate ids, required fields, value ranges and references
    from students and teachers to course ids. The loaded files are parameters; the error
    messages are modelled by what they report, not by their text. */
module ValidateJson {
  import opened Wrappers
  import opened Seqs
  import opened Text
  import BuildJson

  /** A JSON value as `json.load` returns it; an object keeps its members in file order. */
  datatype Json =
    | Null
    | Bool(b: bool)
    | Int(i: int)
    | Float(r: real)
    | Str(s: string)
    | Array(items: seq<Json>)
    | Object(members: seq<Member>)

  datatype Member = Member(key: string, value: Json)

  /** `d.get(key)`: the value of the last member with that key, as a repeated key in a
      JSON object keeps its last value. */
  function Get(members: seq<Member>, key: string): (r: Option<Json>)
    ensures r.None? <==> forall m :: 0 <= m < |members| ==> members[m].key != key
    decreases |members|
  {
    if |members| == 0 then None
    else if members[|members| - 1].key == key then Some(members[|members| - 1].value)
    else Get(members[..|members| - 1], key)
  }

  /** `list(d)`: each key once, in the order of its first appearance. */
  function Keys(members: seq<Member>): (r: seq<string>)
    ensures forall k :: k in r <==> exists m :: 0 <= m < |members| && members[m].key == k
    decreases |members|
  {
    if |members| == 0 then []
    else
      var init := Keys(members[..|members| - 1]);
      var key := members[|members| - 1].key;
      assert forall m :: 0 <= m < |members| - 1 ==> members[..|members| - 1][m] == members[m];
      if key in init then init else init + [key]
  }

  /** `entry.get(key)` on an object; nothing for any other value. */
  function Field(entry: Json, key: string): Option<Json> {
    if entry.Object? then Get(entry.members, key) else None
  }

  /** `bool(entry.get(key))`: an absent field, null, false, zero, and empty strings,
      arrays and objects are false. */
  predicate Truthy(v: Option<Json>) {
    match v
    case None => false
    case Some(Null) => false
    case Some(Bool(b)) => b
    case Some(Int(i)) => i != 0
    case Some(Float(r)) => r != 0.0
    case Some(Str(s)) => s != ""
    case Some(Array(items)) => items != []
    case Some(Object(members)) => members != []
  }

  /** `isinstance(v, int)` and the value: booleans are ints, 1 and 0. */
  function AsInt(v: Option<Json>): (r: Option<int>)
    ensures r.Some? <==> v.Some? && (v.value.Int? || v.value.Bool?)
  {
    match v
    case Some(Int(i)) => Some(i)
    case Some(Bool(b)) => Some(if b then 1 else 0)
    case _ => None
  }

  /** What a set of ids compares: numbers by value (so `1`, `1.0` and `true` are the same
      id), strings by text, null by itself. */
  datatype Key = NullKey | NumberKey(n: real) | TextKey(s: string)

  /** The set key of a value; lists and objects are not hashable. */
  function KeyOf(v: Json): (r: Option<Key>)
    ensures r.None? <==> v.Array? || v.Object?
  {
    match v
    case Null => Some(NullKey)
    case Bool(b) => Some(NumberKey(if b then 1.0 else 0.0))
    case Int(i) => Some(NumberKey(i as real))
    case Float(r) => Some(NumberKey(r))
    case Str(s) => Some(TextKey(s))
    case _ => None
  }

  /** `for x in entry.get(key, [])`: an absent field is an empty list; a string gives its
      characters and an object its keys; null, booleans and numbers are not iterable. */
  function Iter(v: Option<Json>): Option<seq<Json>> {
    match v
    case None => Some([])
    case Some(Array(items)) => Some(items)
    case Some(Str(s)) => Some(seq(|s|, i requires 0 <= i < |s| => Str([s[i]])))
    case Some(Object(members)) => Some(Map(Keys(members), k => Str(k)))
    case Some(_) => None
  }

  datatype Entity = Student | Teacher | Course | Room

  /** Which list a course reference comes from. */
  datatype Reference = RequiredCourse | Elective | Subject

  /** One reported problem, with the entry's id as given (or `"MISSING"`). */
  datatype Error =
    | DuplicateId(entity: Entity, id: Json)
    | MissingName(entity: Entity, id: Json)
    | InvalidGrade(id: Json, grade: Option<Json>)
    | UnknownCourse(reference: Reference, id: Json, course: Json)
    | LovelaceName(id: Json)
    | InvalidMaxStudents(id: Json)
    | InvalidSections(id: Json)
    | InvalidCapacity(id: Json)
    | MissingFile(name: string)

  /** What Python raises on data of the wrong shape. */
  datatype Crash =
    | NotAnObject(entry: Json)
    | Unhashable(value: Json)
    | NotIterable(field: Option<Json>)
    | NameNotText(name: Json)
    | Unorderable(ids: set<Key>)

  predicate IsDuplicate(e: Error) { e.DuplicateId? }
  predicate IsMissingName(e: Error) { e.MissingName? }
  predicate IsInvalidGrade(e: Error) { e.InvalidGrade? }
  predicate IsLovelace(e: Error) { e.LovelaceName? }
  predicate IsInvalidMaxStudents(e: Error) { e.InvalidMaxStudents? }
  predicate IsInvalidSections(e: Error) { e.InvalidSections? }
  predicate IsInvalidCapacity(e: Error) { e.InvalidCapacity? }

  /** `entry.get("id", "MISSING")`. */
  function IdOf(entry: Json): Json {
    match Field(entry, "id")
    case Some(v) => v
    case None => Str("MISSING")
  }

  /** A grade is an int from 9 to 12. */
  predicate GradeOk(v: Option<Json>) {
    AsInt(v).Some? && 9 <= AsInt(v).value <= 12
  }

  /** A count is an int above zero. */
  predicate PositiveInt(v: Option<Json>) {
    AsInt(v).Some? && AsInt(v).value > 0
  }

  /** The four validators; the student and teacher ones check references against the
      course ids. */
  datatype Validator = Students(courseIds: set<Key>) | Teachers(courseIds: set<Key>) | Courses | Rooms {
    function Entity(): Entity {
      match this
      case Students(_) => Student
      case Teachers(_) => Teacher
      case Courses => Course
      case Rooms => Room
    }
  }

  /** `for cid in items: if cid not in course_ids: errors.append(...)`. */
  function UnknownRefs(ref: Reference, id: Json, items: seq<Json>, courseIds: set<Key>): (r: Result<seq<Error>, Crash>)
    ensures r.Success? ==> |r.value| <= |items|
    ensures r.Success? ==>
      forall j :: 0 <= j < |r.value| ==> r.value[j].UnknownCourse? && r.value[j].reference == ref && r.value[j].id == id
    decreases |items|
  {
    if |items| == 0 then Success([])
    else
      match UnknownRefs(ref, id, items[..|items| - 1], courseIds)
      case Failure(c) => Failure(c)
      case Success(errs) =>
        var x := items[|items| - 1];
        match KeyOf(x)
        case None => Failure(Unhashable(x))
        case Some(k) => Success(if k in courseIds then errs else errs + [UnknownCourse(ref, id, x)])
  }

  /** The reference loop over one list field. */
  function Refs(ref: Reference, id: Json, v: Option<Json>, courseIds: set<Key>): (r: Result<seq<Error>, Crash>)
    ensures r.Success? ==>
      forall j :: 0 <= j < |r.value| ==> r.value[j].UnknownCourse? && r.value[j].reference == ref && r.value[j].id == id
  {
    match Iter(v)
    case None => Failure(NotIterable(v))
    case Some(items) => UnknownRefs(ref, id, items, courseIds)
  }

  function MissingNameErrors(entity: Entity, entry: Json, id: Json): seq<Error> {
    if Truthy(Field(entry, "name")) then [] else [MissingName(entity, id)]
  }

  /** The student checks after the id: name, grade, required courses, electives. */
  function StudentBody(entry: Json, id: Json, courseIds: set<Key>): Result<seq<Error>, Crash> {
    var grade := Field(entry, "grade");
    var checked := MissingNameErrors(Student, entry, id) + (if GradeOk(grade) then [] else [InvalidGrade(id, grade)]);
    match Refs(RequiredCourse, id, Field(entry, "required_courses"), courseIds)
    case Failure(c) => Failure(c)
    case Success(required) =>
      match Refs(Elective, id, Field(entry, "elective_preferences"), courseIds)
      case Failure(c) => Failure(c)
      case Success(electives) => Success(checked + required + electives)
  }

  /** `entry.get("name", "")` as text for `.lower()`; any other value raises. */
  function NameText(v: Option<Json>): Option<string> {
    match v
    case None => Some("")
    case Some(Str(s)) => Some(s)
    case Some(_) => None
  }

  /** The teacher checks after the id: name, the Lovelace rule, subjects. */
  function TeacherBody(entry: Json, id: Json, courseIds: set<Key>): Result<seq<Error>, Crash> {
    var name := Field(entry, "name");
    match NameText(name)
    case None => Failure(NameNotText(name.value))
    case Some(text) =>
      var checked := MissingNameErrors(Teacher, entry, id)
        + (if BuildJson.NamesLovelace(text) then [LovelaceName(id)] else []);
      match Refs(Subject, id, Field(entry, "subjects"), courseIds)
      case Failure(c) => Failure(c)
      case Success(subjects) => Success(checked + subjects)
  }

  /** The course checks after the id: name, maximum size, section count. */
  function CourseBody(entry: Json, id: Json): seq<Error> {
    MissingNameErrors(Course, entry, id)
    + (if PositiveInt(Field(entry, "max_students")) then [] else [InvalidMaxStudents(id)])
    + (if PositiveInt(Field(entry, "sections")) then [] else [InvalidSections(id)])
  }

  /** The room check after the id: capacity. */
  function RoomBody(entry: Json, id: Json): seq<Error> {
    if PositiveInt(Field(entry, "capacity")) then [] else [InvalidCapacity(id)]
  }

  function Body(v: Validator, entry: Json, id: Json): Result<seq<Error>, Crash> {
    match v
    case Students(ids) => StudentBody(entry, id, ids)
    case Teachers(ids) => TeacherBody(entry, id, ids)
    case Courses => Success(CourseBody(entry, id))
    case Rooms => Success(RoomBody(entry, id))
  }

  /** One loop iteration: the duplicate check against the ids seen so far, then the
      entity's own checks. */
  function EntryErrors(v: Validator, entry: Json, seen: set<Key>): Result<seq<Error>, Crash> {
    if !entry.Object? then Failure(NotAnObject(entry))
    else
      var id := IdOf(entry);
      match KeyOf(id)
      case None => Failure(Unhashable(id))
      case Some(k) =>
        var dup := if k in seen then [DuplicateId(v.Entity(), id)] else [];
        match Body(v, entry, id)
        case Failure(c) => Failure(c)
        case Success(errs) => Success(dup + errs)
  }

  /** The id key an entry adds to the seen set, if it gets that far. */
  function EntryKey(entry: Json): Option<Key> {
    if entry.Object? then KeyOf(IdOf(entry)) else None
  }

  /** `seen_ids` after the entries. */
  function Seen(entries: seq<Json>): set<Key> {
    if |entries| == 0 then {}
    else
      var last := entries[|entries| - 1];
      Seen(entries[..|entries| - 1]) + (if EntryKey(last).Some? then {EntryKey(last).value} else {})
  }

  /** The validator loop over all entries. */
  function Check(v: Validator, entries: seq<Json>): Result<seq<Error>, Crash> {
    if |entries| == 0 then Success([])
    else
      var init := entries[..|entries| - 1];
      match Check(v, init)
      case Failure(c) => Failure(c)
      case Success(errs) =>
        match EntryErrors(v, entries[|entries| - 1], Seen(init))
        case Failure(c) => Failure(c)
        case Success(more) => Success(errs + more)
  }

  /** How many entries repeat the id of an earlier one. */
  function Repeats(entries: seq<Json>): nat {
    if |entries| == 0 then 0
    else
      var init := entries[..|entries| - 1];
      var k := EntryKey(entries[|entries| - 1]);
      Repeats(init) + (if k.Some? && k.value in Seen(init) then 1 else 0)
  }

  // ---------------------------------------------------------------------------------
  // The loops

  /** `for cid in items` of one reference field. */
  method CheckRefs(ref: Reference, id: Json, v: Option<Json>, courseIds: set<Key>) returns (r: Result<seq<Error>, Crash>)
    ensures r == Refs(ref, id, v, courseIds)
  {
    var items := Iter(v);
    if items.None? {
      return Failure(NotIterable(v));
    }
    var xs := items.value;
    var errors := [];
    for i := 0 to |xs|
      invariant UnknownRefs(ref, id, xs[..i], courseIds) == Success(errors)
    {
      assert xs[..i + 1][..i] == xs[..i];
      var k := KeyOf(xs[i]);
      if k.None? {
        UnknownRefsStops(ref, id, xs, courseIds, i + 1);
        return Failure(Unhashable(xs[i]));
      }
      if k.value !in courseIds {
        errors := errors + [UnknownCourse(ref, id, xs[i])];
      }
    }
    assert xs[..|xs|] == xs;
    return Success(errors);
  }

  lemma {:induction false} UnknownRefsStops(ref: Reference, id: Json, xs: seq<Json>, courseIds: set<Key>, i: nat)
    requires i <= |xs| && UnknownRefs(ref, id, xs[..i], courseIds).Failure?
    ensures UnknownRefs(ref, id, xs, courseIds) == UnknownRefs(ref, id, xs[..i], courseIds)
    decreases |xs| - i
  {
    if i < |xs| {
      assert xs[..i + 1][..i] == xs[..i];
      UnknownRefsStops(ref, id, xs, courseIds, i + 1);
    } else {
      assert xs[..i] == xs;
    }
  }

  /** The student checks after the id. */
  method CheckStudent(entry: Json, id: Json, courseIds: set<Key>) returns (r: Result<seq<Error>, Crash>)
    ensures r == StudentBody(entry, id, courseIds)
  {
    var errors := MissingNameErrors(Student, entry, id);
    var grade := Field(entry, "grade");
    if !GradeOk(grade) {
      errors := errors + [InvalidGrade(id, grade)];
    }
    assert errors == MissingNameErrors(Student, entry, id) + (if GradeOk(grade) then [] else [InvalidGrade(id, grade)]);
    var required := CheckRefs(RequiredCourse, id, Field(entry, "required_courses"), courseIds);
    if required.Failure? {
      return Failure(required.error);
    }
    var electives := CheckRefs(Elective, id, Field(entry, "elective_preferences"), courseIds);
    if electives.Failure? {
      return Failure(electives.error);
    }
    return Success(errors + required.value + electives.value);
  }

  /** The teacher checks after the id. */
  method CheckTeacher(entry: Json, id: Json, courseIds: set<Key>) returns (r: Result<seq<Error>, Crash>)
    ensures r == TeacherBody(entry, id, courseIds)
  {
    var text := NameText(Field(entry, "name"));
    if text.None? {
      return Failure(NameNotText(Field(entry, "name").value));
    }
    var errors := MissingNameErrors(Teacher, entry, id);
    if BuildJson.NamesLovelace(text.value) {
      errors := errors + [LovelaceName(id)];
    }
    assert errors == MissingNameErrors(Teacher, entry, id)
      + (if BuildJson.NamesLovelace(text.value) then [LovelaceName(id)] else []);
    var subjects := CheckRefs(Subject, id, Field(entry, "subjects"), courseIds);
    if subjects.Failure? {
      return Failure(subjects.error);
    }
    return Success(errors + subjects.value);
  }

  /** The checks of one entry. */
  method CheckEntry(v: Validator, entry: Json, seen: set<Key>) returns (r: Result<seq<Error>, Crash>)
    ensures r == EntryErrors(v, entry, seen)
  {
    if !entry.Object? {
      return Failure(NotAnObject(entry));
    }
    var id := IdOf(entry);
    var k := KeyOf(id);
    if k.None? {
      return Failure(Unhashable(id));
    }
    var dup := if k.value in seen then [DuplicateId(v.Entity(), id)] else [];
    var body: Result<seq<Error>, Crash>;
    match v {
      case Students(ids) =>
        body := CheckStudent(entry, id, ids);
      case Teachers(ids) =>
        body := CheckTeacher(entry, id, ids);
      case Courses =>
        body := Success(CourseBody(entry, id));
      case Rooms =>
        body := Success(RoomBody(entry, id));
    }
    if body.Failure? {
      return Failure(body.error);
    }
    r := Success(dup + body.value);
  }

  /** The loop of a validator: `seen_ids` grows by each entry's id and the entry's errors
      are appended. */
  method CheckEntries(v: Validator, entries: seq<Json>) returns (seen: set<Key>, r: Result<seq<Error>, Crash>)
    ensures r == Check(v, entries)
    ensures r.Success? ==> seen == Seen(entries)
  {
    seen := {};
    var errors := [];
    for i := 0 to |entries|
      invariant Check(v, entries[..i]) == Success(errors)
      invariant seen == Seen(entries[..i])
    {
      var more := CheckEntry(v, entries[i], seen);
      CheckStep(v, entries, i, errors);
      if more.Failure? {
        CheckStops(v, entries, i + 1);
        return seen, Failure(more.error);
      }
      errors := errors + more.value;
      seen := seen + {EntryKey(entries[i]).value};
    }
    assert entries[..|entries|] == entries;
    return seen, Success(errors);
  }

  /** One more entry: its errors are appended and its key joins the seen set, or its
      crash ends the loop. */
  lemma CheckStep(v: Validator, entries: seq<Json>, i: nat, errors: seq<Error>)
    requires i < |entries| && Check(v, entries[..i]) == Success(errors)
    ensures var e := EntryErrors(v, entries[i], Seen(entries[..i]));
      && (e.Failure? ==> Check(v, entries[..i + 1]) == Failure(e.error))
      && (e.Success? ==> Check(v, entries[..i + 1]) == Success(errors + e.value)
                         && EntryKey(entries[i]).Some?
                         && Seen(entries[..i + 1]) == Seen(entries[..i]) + {EntryKey(entries[i]).value})
  {
    assert entries[..i + 1][..i] == entries[..i];
  }

  lemma {:induction false} CheckStops(v: Validator, entries: seq<Json>, i: nat)
    requires i <= |entries| && Check(v, entries[..i]).Failure?
    ensures Check(v, entries) == Check(v, entries[..i])
    decreases |entries| - i
  {
    if i < |entries| {
      assert entries[..i + 1][..i] == entries[..i];
      CheckStops(v, entries, i + 1);
    } else {
      assert entries[..i] == entries;
    }
  }

  /** `validate_students`. */
  method ValidateStudents(students: seq<Json>, courseIds: set<Key>) returns (r: Result<seq<Error>, Crash>)
    ensures r == Check(Students(courseIds), students)
  {
    var _, errors := CheckEntries(Students(courseIds), students);
    r := errors;
  }

  /** `validate_teachers`. */
  method ValidateTeachers(teachers: seq<Json>, courseIds: set<Key>) returns (r: Result<seq<Error>, Crash>)
    ensures r == Check(Teachers(courseIds), teachers)
  {
    var _, errors := CheckEntries(Teachers(courseIds), teachers);
    r := errors;
  }

  /** `validate_courses`: the errors and the set of every course id seen. */
  method ValidateCourses(courses: seq<Json>) returns (r: Result<(set<Key>, seq<Error>), Crash>)
    ensures Check(Courses, courses).Failure? ==> r == Failure(Check(Courses, courses).error)
    ensures Check(Courses, courses).Success? ==> r == Success((Seen(courses), Check(Courses, courses).value))
  {
    var ids, errors := CheckEntries(Courses, courses);
    if errors.Failure? {
      return Failure(errors.error);
    }
    return Success((ids, errors.value));
  }

  /** `validate_rooms`. */
  method ValidateRooms(rooms: seq<Json>) returns (r: Result<seq<Error>, Crash>)
    ensures r == Check(Rooms, rooms)
  {
    var _, errors := CheckEntries(Rooms, rooms);
    r := errors;
  }

  // ---------------------------------------------------------------------------------
  // The whole directory

  /** How the run ends: no course file (exit 1), an exception, or the collected errors. */
  datatype Report = CoursesNotFound | Crashed(crash: Crash) | Checked(courseIds: set<Key>, errors: seq<Error>)

  /** The exit status: 0 exactly when every file was read and nothing was reported. */
  function ExitCode(r: Report): int {
    match r
    case Checked(_, errors) => if errors == [] then 0 else 1
    case _ => 1
  }

  /** Python's `sorted` orders the course ids without raising: `None` compares with
      nothing (one alone needs no comparison), and a number does not compare with a
      string. */
  predicate Sortable(ids: set<Key>) {
    && (NullKey in ids ==> ids == {NullKey})
    && !((exists k :: k in ids && k.NumberKey?) && (exists k :: k in ids && k.TextKey?))
  }

  /** One of the optional files: a missing-file error, or its validator's result. */
  function FileErrors(name: string, data: Option<seq<Json>>, v: Validator): Result<seq<Error>, Crash> {
    match data
    case None => Success([MissingFile(name)])
    case Some(entries) => Check(v, entries)
  }

  /** Appends a later step's errors, unless it raised. */
  function Then(errors: seq<Error>, next: Result<seq<Error>, Crash>): Result<seq<Error>, Crash> {
    match next
    case Failure(c) => Failure(c)
    case Success(more) => Success(errors + more)
  }

  /** `main` on the loaded files (`None` for a file that does not exist): courses first,
      then students, teachers and rooms against the course ids. */
  function Directory(courses: Option<seq<Json>>, students: Option<seq<Json>>, teachers: Option<seq<Json>>, rooms: Option<seq<Json>>): Report {
    match courses
    case None => CoursesNotFound
    case Some(cs) =>
      match Check(Courses, cs)
      case Failure(c) => Crashed(c)
      case Success(errors) =>
        var ids := Seen(cs);
        match Then(errors, FileErrors("students.json", students, Students(ids)))
        case Failure(c) => Crashed(c)
        case Success(errors1) =>
          match Then(errors1, FileErrors("teachers.json", teachers, Teachers(ids)))
          case Failure(c) => Crashed(c)
          case Success(errors2) =>
            match Then(errors2, FileErrors("rooms.json", rooms, Rooms))
            case Failure(c) => Crashed(c)
            case Success(errors3) =>
              if errors3 == [] && !Sortable(ids) then Crashed(Unorderable(ids)) else Checked(ids, errors3)
  }

  /** One step of the loop over the optional files. */
  method CheckFile(name: string, data: Option<seq<Json>>, v: Validator) returns (r: Result<seq<Error>, Crash>)
    ensures r == FileErrors(name, data, v)
  {
    if data.None? {
      return Success([MissingFile(name)]);
    }
    var _, errors := CheckEntries(v, data.value);
    r := errors;
  }

  /** `main`. */
  method CheckDirectory(courses: Option<seq<Json>>, students: Option<seq<Json>>, teachers: Option<seq<Json>>, rooms: Option<seq<Json>>)
    returns (report: Report)
    ensures report == Directory(courses, students, teachers, rooms)
  {
    if courses.None? {
      return CoursesNotFound;
    }
    var checked := ValidateCourses(courses.value);
    if checked.Failure? {
      return Crashed(checked.error);
    }
    var ids := checked.value.0;
    var allErrors := checked.value.1;
    var more := CheckFile("students.json", students, Students(ids));
    if more.Failure? {
      return Crashed(more.error);
    }
    allErrors := allErrors + more.value;
    more := CheckFile("teachers.json", teachers, Teachers(ids));
    if more.Failure? {
      return Crashed(more.error);
    }
    allErrors := allErrors + more.value;
    more := CheckFile("rooms.json", rooms, Rooms);
    if more.Failure? {
      return Crashed(more.error);
    }
    allErrors := allErrors + more.value;
    if allErrors == [] && !Sortable(ids) {
      return Crashed(Unorderable(ids));
    }
    return Checked(ids, allErrors);
  }

  // ---------------------------------------------------------------------------------
  // Properties

  /** Unknown-course errors are of no other kind. */
  lemma OnlyUnknownCourses(errs: seq<Error>)
    requires forall j :: 0 <= j < |errs| ==> errs[j].UnknownCourse?
    ensures Count(errs, IsDuplicate) == 0 && Count(errs, IsMissingName) == 0
    ensures Count(errs, IsInvalidGrade) == 0 && Count(errs, IsLovelace) == 0
  {
    assert forall j :: 0 <= j < |errs| ==> !IsDuplicate(errs[j]) && !IsMissingName(errs[j]);
    assert forall j :: 0 <= j < |errs| ==> !IsInvalidGrade(errs[j]) && !IsLovelace(errs[j]);
  }

  lemma StudentNoDuplicate(entry: Json, id: Json, courseIds: set<Key>)
    requires StudentBody(entry, id, courseIds).Success?
    ensures Count(StudentBody(entry, id, courseIds).value, IsDuplicate) == 0
  {
    var named, graded, required, electives := StudentParts(entry, id, courseIds);
    OnlyUnknownCourses(required);
    OnlyUnknownCourses(electives);
    Count4(named, graded, required, electives, IsDuplicate);
  }

  lemma TeacherNoDuplicate(entry: Json, id: Json, courseIds: set<Key>)
    requires TeacherBody(entry, id, courseIds).Success?
    ensures Count(TeacherBody(entry, id, courseIds).value, IsDuplicate) == 0
  {
    var named, flagged, subjects := TeacherParts(entry, id, courseIds);
    OnlyUnknownCourses(subjects);
    Count3(named, flagged, subjects, IsDuplicate);
  }

  lemma CourseNoDuplicate(entry: Json, id: Json)
    ensures Count(CourseBody(entry, id), IsDuplicate) == 0
  {
    var named, sized, counted := CourseParts(entry, id);
    Count3(named, sized, counted, IsDuplicate);
  }

  /** The entity checks never report a duplicate id. */
  lemma BodyNoDuplicate(v: Validator, entry: Json, id: Json)
    requires Body(v, entry, id).Success?
    ensures Count(Body(v, entry, id).value, IsDuplicate) == 0
  {
    match v
    case Students(ids) => StudentNoDuplicate(entry, id, ids);
    case Teachers(ids) => TeacherNoDuplicate(entry, id, ids);
    case Courses => CourseNoDuplicate(entry, id);
    case Rooms =>
  }

  /** An entry gets exactly one duplicate error when its id was seen before, and it comes
      first among the entry's errors; otherwise none. */
  lemma EntryDuplicates(v: Validator, entry: Json, seen: set<Key>)
    requires EntryErrors(v, entry, seen).Success?
    ensures EntryKey(entry).Some?
    ensures var errs := EntryErrors(v, entry, seen).value;
      Count(errs, IsDuplicate) == (if EntryKey(entry).value in seen then 1 else 0)
      && (EntryKey(entry).value in seen ==> errs[0] == DuplicateId(v.Entity(), IdOf(entry)))
  {
    var id := IdOf(entry);
    var k := KeyOf(id).value;
    var dup := if k in seen then [DuplicateId(v.Entity(), id)] else [];
    BodyNoDuplicate(v, entry, id);
    CountAppend(dup, Body(v, entry, id).value, IsDuplicate);
  }

  /** Every entry whose id repeats an earlier entry's id gets one duplicate error, and no
      other entry does. */
  lemma {:induction false} DuplicatesPerRepeat(v: Validator, entries: seq<Json>)
    requires Check(v, entries).Success?
    ensures Count(Check(v, entries).value, IsDuplicate) == Repeats(entries)
    decreases |entries|
  {
    if |entries| > 0 {
      var init := entries[..|entries| - 1];
      var last := entries[|entries| - 1];
      DuplicatesPerRepeat(v, init);
      EntryDuplicates(v, last, Seen(init));
      CountAppend(Check(v, init).value, EntryErrors(v, last, Seen(init)).value, IsDuplicate);
    }
  }

  /** An entry without an id is checked as `"MISSING"`, so it repeats any earlier entry
      without an id (or with that id). */
  lemma AbsentIdIsMissing(v: Validator, entry: Json, seen: set<Key>)
    requires entry.Object? && Field(entry, "id").None? && TextKey("MISSING") in seen
    requires EntryErrors(v, entry, seen).Success?
    ensures EntryErrors(v, entry, seen).value[0] == DuplicateId(v.Entity(), Str("MISSING"))
  {
    EntryDuplicates(v, entry, seen);
  }

  /** The seen set holds exactly the ids of the entries. */
  lemma {:induction false} SeenIds(entries: seq<Json>)
    ensures forall k :: k in Seen(entries) <==> exists i :: 0 <= i < |entries| && EntryKey(entries[i]) == Some(k)
    decreases |entries|
  {
    if |entries| > 0 {
      var init := entries[..|entries| - 1];
      SeenIds(init);
      assert forall i :: 0 <= i < |init| ==> init[i] == entries[i];
    }
  }

  /** An item is unknown when its id is not a course id. */
  predicate Unknown(courseIds: set<Key>, x: Json) {
    KeyOf(x).Some? && KeyOf(x).value !in courseIds
  }

  /** The test for an unknown item, as a function value. */
  function UnknownIn(courseIds: set<Key>): Json -> bool {
    x => Unknown(courseIds, x)
  }

  /** One error per unknown item. */
  lemma {:induction false} UnknownRefsCount(ref: Reference, id: Json, items: seq<Json>, courseIds: set<Key>)
    requires UnknownRefs(ref, id, items, courseIds).Success?
    ensures |UnknownRefs(ref, id, items, courseIds).value| == Count(items, UnknownIn(courseIds))
    decreases |items|
  {
    if |items| > 0 {
      var init := items[..|items| - 1];
      var last := items[|items| - 1];
      UnknownRefsStep(ref, id, items, courseIds);
      UnknownRefsCount(ref, id, init, courseIds);
      assert items == init + [last];
      CountAppend(init, [last], UnknownIn(courseIds));
    }
  }

  /** The last item adds an error exactly when it is unknown. */
  lemma UnknownRefsStep(ref: Reference, id: Json, items: seq<Json>, courseIds: set<Key>)
    requires |items| > 0 && UnknownRefs(ref, id, items, courseIds).Success?
    ensures var init := items[..|items| - 1];
      UnknownRefs(ref, id, init, courseIds).Success?
      && |UnknownRefs(ref, id, items, courseIds).value|
         == |UnknownRefs(ref, id, init, courseIds).value| + Count([items[|items| - 1]], UnknownIn(courseIds))
  {
  }

  /** An item gets an error exactly when it is unknown. */
  lemma {:induction false} UnknownRefsMembers(ref: Reference, id: Json, items: seq<Json>, courseIds: set<Key>)
    requires UnknownRefs(ref, id, items, courseIds).Success?
    ensures forall x :: UnknownCourse(ref, id, x) in UnknownRefs(ref, id, items, courseIds).value <==> x in items && Unknown(courseIds, x)
    decreases |items|
  {
    if |items| > 0 {
      var init := items[..|items| - 1];
      UnknownRefsMembers(ref, id, init, courseIds);
      assert items == init + [items[|items| - 1]];
    }
  }

  lemma Count3<T>(a: seq<T>, b: seq<T>, c: seq<T>, p: T -> bool)
    ensures Count(a + b + c, p) == Count(a, p) + Count(b, p) + Count(c, p)
  {
    CountAppend(a, b, p);
    CountAppend(a + b, c, p);
  }

  lemma Count4<T>(a: seq<T>, b: seq<T>, c: seq<T>, d: seq<T>, p: T -> bool)
    ensures Count(a + b + c + d, p) == Count(a, p) + Count(b, p) + Count(c, p) + Count(d, p)
  {
    Count3(a, b, c, p);
    CountAppend(a + b + c, d, p);
  }

  /** The four parts of a student's errors. */
  lemma StudentParts(entry: Json, id: Json, courseIds: set<Key>)
    returns (named: seq<Error>, graded: seq<Error>, required: seq<Error>, electives: seq<Error>)
    requires StudentBody(entry, id, courseIds).Success?
    ensures StudentBody(entry, id, courseIds).value == named + graded + required + electives
    ensures named == MissingNameErrors(Student, entry, id)
    ensures graded == if GradeOk(Field(entry, "grade")) then [] else [InvalidGrade(id, Field(entry, "grade"))]
    ensures Refs(RequiredCourse, id, Field(entry, "required_courses"), courseIds) == Success(required)
    ensures Refs(Elective, id, Field(entry, "elective_preferences"), courseIds) == Success(electives)
  {
    named := MissingNameErrors(Student, entry, id);
    graded := if GradeOk(Field(entry, "grade")) then [] else [InvalidGrade(id, Field(entry, "grade"))];
    required := Refs(RequiredCourse, id, Field(entry, "required_courses"), courseIds).value;
    electives := Refs(Elective, id, Field(entry, "elective_preferences"), courseIds).value;
  }

  /** The three parts of a teacher's errors. */
  lemma TeacherParts(entry: Json, id: Json, courseIds: set<Key>)
    returns (named: seq<Error>, flagged: seq<Error>, subjects: seq<Error>)
    requires TeacherBody(entry, id, courseIds).Success?
    ensures NameText(Field(entry, "name")).Some?
    ensures TeacherBody(entry, id, courseIds).value == named + flagged + subjects
    ensures named == MissingNameErrors(Teacher, entry, id)
    ensures flagged == if BuildJson.NamesLovelace(NameText(Field(entry, "name")).value) then [LovelaceName(id)] else []
    ensures Refs(Subject, id, Field(entry, "subjects"), courseIds) == Success(subjects)
  {
    named := MissingNameErrors(Teacher, entry, id);
    flagged := if BuildJson.NamesLovelace(NameText(Field(entry, "name")).value) then [LovelaceName(id)] else [];
    subjects := Refs(Subject, id, Field(entry, "subjects"), courseIds).value;
  }

  /** The three parts of a course's errors. */
  lemma CourseParts(entry: Json, id: Json) returns (named: seq<Error>, sized: seq<Error>, counted: seq<Error>)
    ensures CourseBody(entry, id) == named + sized + counted
    ensures named == MissingNameErrors(Course, entry, id)
    ensures sized == if PositiveInt(Field(entry, "max_students")) then [] else [InvalidMaxStudents(id)]
    ensures counted == if PositiveInt(Field(entry, "sections")) then [] else [InvalidSections(id)]
  {
    named := MissingNameErrors(Course, entry, id);
    sized := if PositiveInt(Field(entry, "max_students")) then [] else [InvalidMaxStudents(id)];
    counted := if PositiveInt(Field(entry, "sections")) then [] else [InvalidSections(id)];
  }

  /** A student entry gets one missing-name error when its name is absent or empty, and
      one grade error when its grade is not an int from 9 to 12. */
  lemma StudentCounts(entry: Json, id: Json, courseIds: set<Key>)
    requires StudentBody(entry, id, courseIds).Success?
    ensures var errs := StudentBody(entry, id, courseIds).value;
      && Count(errs, IsMissingName) == (if Truthy(Field(entry, "name")) then 0 else 1)
      && Count(errs, IsInvalidGrade) == (if GradeOk(Field(entry, "grade")) then 0 else 1)
  {
    var named, graded, required, electives := StudentParts(entry, id, courseIds);
    OnlyUnknownCourses(required);
    OnlyUnknownCourses(electives);
    Count4(named, graded, required, electives, IsMissingName);
    Count4(named, graded, required, electives, IsInvalidGrade);
  }

  /** A student entry gets one unknown-course error per required course and per elective
      that is not a course id. */
  lemma StudentReferences(entry: Json, id: Json, courseIds: set<Key>)
    requires StudentBody(entry, id, courseIds).Success?
    ensures var errs := StudentBody(entry, id, courseIds).value;
      && (forall x :: UnknownCourse(RequiredCourse, id, x) in errs <==>
            x in Iter(Field(entry, "required_courses")).value && Unknown(courseIds, x))
      && (forall x :: UnknownCourse(Elective, id, x) in errs <==>
            x in Iter(Field(entry, "elective_preferences")).value && Unknown(courseIds, x))
  {
    var named, graded, required, electives := StudentParts(entry, id, courseIds);
    UnknownRefsMembers(RequiredCourse, id, Iter(Field(entry, "required_courses")).value, courseIds);
    UnknownRefsMembers(Elective, id, Iter(Field(entry, "elective_preferences")).value, courseIds);
    var errs := named + graded + required + electives;
    forall x
      ensures UnknownCourse(RequiredCourse, id, x) in errs <==> UnknownCourse(RequiredCourse, id, x) in required
      ensures UnknownCourse(Elective, id, x) in errs <==> UnknownCourse(Elective, id, x) in electives
    {
      assert UnknownCourse(RequiredCourse, id, x) !in named + graded;
      assert UnknownCourse(Elective, id, x) !in named + graded;
    }
  }

  /** A teacher entry whose name is text gets one missing-name error when the name is
      empty and one Lovelace error when the lower-cased name contains "lovelace"; a name
      that is not text raises. */
  lemma TeacherCounts(entry: Json, id: Json, courseIds: set<Key>)
    ensures NameText(Field(entry, "name")).None? ==> TeacherBody(entry, id, courseIds).Failure?
    ensures TeacherBody(entry, id, courseIds).Success? ==>
      var errs := TeacherBody(entry, id, courseIds).value;
      var text := NameText(Field(entry, "name")).value;
      && Count(errs, IsMissingName) == (if text == "" then 1 else 0)
      && Count(errs, IsLovelace) == (if BuildJson.NamesLovelace(text) then 1 else 0)
  {
    if TeacherBody(entry, id, courseIds).Success? {
      var named, flagged, subjects := TeacherParts(entry, id, courseIds);
      OnlyUnknownCourses(subjects);
      Count3(named, flagged, subjects, IsMissingName);
      Count3(named, flagged, subjects, IsLovelace);
    }
  }

  /** A teacher entry gets one unknown-course error per subject that is not a course id. */
  lemma TeacherReferences(entry: Json, id: Json, courseIds: set<Key>)
    requires TeacherBody(entry, id, courseIds).Success?
    ensures forall x :: UnknownCourse(Subject, id, x) in TeacherBody(entry, id, courseIds).value <==>
      x in Iter(Field(entry, "subjects")).value && Unknown(courseIds, x)
  {
    var named, flagged, subjects := TeacherParts(entry, id, courseIds);
    UnknownRefsMembers(Subject, id, Iter(Field(entry, "subjects")).value, courseIds);
    forall x
      ensures UnknownCourse(Subject, id, x) in named + flagged + subjects <==> UnknownCourse(Subject, id, x) in subjects
    {
      assert UnknownCourse(Subject, id, x) !in named + flagged;
    }
  }

  /** A course entry gets one error each for a missing name, a maximum size that is not a
      positive int, and a section count that is not a positive int. */
  lemma CourseRules(entry: Json, id: Json)
    ensures var errs := CourseBody(entry, id);
      && Count(errs, IsMissingName) == (if Truthy(Field(entry, "name")) then 0 else 1)
      && Count(errs, IsInvalidMaxStudents) == (if PositiveInt(Field(entry, "max_students")) then 0 else 1)
      && Count(errs, IsInvalidSections) == (if PositiveInt(Field(entry, "sections")) then 0 else 1)
  {
    var named, sized, counted := CourseParts(entry, id);
    Count3(named, sized, counted, IsMissingName);
    Count3(named, sized, counted, IsInvalidMaxStudents);
    Count3(named, sized, counted, IsInvalidSections);
  }

  /** A room entry gets one error, and no other, when its capacity is not a positive int. */
  lemma RoomRules(entry: Json, id: Json)
    ensures RoomBody(entry, id) == [] <==> PositiveInt(Field(entry, "capacity"))
    ensures Count(RoomBody(entry, id), IsInvalidCapacity) == |RoomBody(entry, id)|
  {
    var errs := RoomBody(entry, id);
    assert forall j :: 0 <= j < |errs| ==> IsInvalidCapacity(errs[j]);
  }

  /** The run passes only when every file exists, nothing raised, and no validator
      reported anything; the course ids are those of the course file. */
  lemma PassRequiresEverything(courses: Option<seq<Json>>, students: Option<seq<Json>>, teachers: Option<seq<Json>>, rooms: Option<seq<Json>>)
    ensures var r := Directory(courses, students, teachers, rooms);
      ExitCode(r) == 0 <==>
        && courses.Some? && students.Some? && teachers.Some? && rooms.Some?
        && Check(Courses, courses.value) == Success([])
        && Check(Students(Seen(courses.value)), students.value) == Success([])
        && Check(Teachers(Seen(courses.value)), teachers.value) == Success([])
        && Check(Rooms, rooms.value) == Success([])
        && Sortable(Seen(courses.value))
  {
  }
}
