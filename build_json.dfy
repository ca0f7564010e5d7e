/** The text-to-JSON builder: each line of a course, student, teacher or room file is a
    `|`-delimited record; blank and comment lines are ignored, short lines are skipped, and
    a field that is not a number raises. Reading the file and writing the JSON are not part
    of this model. */
module BuildJson {
  import opened Wrappers
  import opened Seqs
  import opened Text

  /** `{"day": ..., "slot": ...}`. */
  datatype SlotRecord = SlotRecord(day: string, slot: int)

  datatype CourseRecord = CourseRecord(
    id: string, name: string, maxStudents: int, gradeRestrictions: Option<seq<int>>,
    requiredFeatures: seq<string>, sections: int)

  datatype StudentRecord = StudentRecord(
    id: string, name: string, grade: int, requiredCourses: seq<string>,
    electivePreferences: seq<string>)

  datatype TeacherRecord = TeacherRecord(
    id: string, name: string, subjects: seq<string>, maxSections: int,
    unavailable: seq<SlotRecord>)

  datatype RoomRecord = RoomRecord(
    id: string, name: string, capacity: int, features: seq<string>,
    unavailable: seq<SlotRecord>)

  /** How a file fails to convert: `int()` raised on a field, an unavailable piece had more
      than one colon (so it does not unpack into day and period), or a teacher is named
      Lovelace (exit code 1). */
  datatype Failure =
    | NotAnInteger(text: string)
    | TooManyColons(piece: string)
    | LovelaceTeacher(name: string)

  /** Folds one item's outcome (raise, nothing, or one value) into the values so far; the
      first raise wins. */
  function Extend<U>(acc: Result<seq<U>, Failure>, next: Result<Option<U>, Failure>): Result<seq<U>, Failure> {
    match acc
    case Failure(e) => Failure(e)
    case Success(v) =>
      match next
      case Failure(e) => Failure(e)
      case Success(None) => Success(v)
      case Success(Some(u)) => Success(v + [u])
  }

  /** A loop over `xs` that appends the value each item yields, skips items that yield
      nothing, and stops at the first item that raises. */
  function Gather<T, U>(xs: seq<T>, f: T -> Result<Option<U>, Failure>): Result<seq<U>, Failure>
    decreases |xs|
  {
    if |xs| == 0 then Success([]) else Extend(Gather(xs[..|xs| - 1], f), f(xs[|xs| - 1]))
  }

  lemma GatherStep<T, U>(xs: seq<T>, f: T -> Result<Option<U>, Failure>, i: nat)
    requires i < |xs|
    ensures Gather(xs[..i + 1], f) == Extend(Gather(xs[..i], f), f(xs[i]))
  {
    assert xs[..i + 1][..i] == xs[..i];
  }

  /** Once a prefix has raised, the whole loop has raised the same error. */
  lemma {:induction false} GatherStops<T, U>(xs: seq<T>, f: T -> Result<Option<U>, Failure>, i: nat)
    requires i <= |xs| && Gather(xs[..i], f).Failure?
    ensures Gather(xs, f) == Gather(xs[..i], f)
    decreases |xs| - i
  {
    if i < |xs| {
      GatherStep(xs, f, i);
      GatherStops(xs, f, i + 1);
    } else {
      assert xs[..i] == xs;
    }
  }

  /** The loop succeeds exactly when no item raises. */
  lemma {:induction false} GatherSucceeds<T, U>(xs: seq<T>, f: T -> Result<Option<U>, Failure>)
    ensures Gather(xs, f).Success? <==> forall k :: 0 <= k < |xs| ==> f(xs[k]).Success?
    decreases |xs|
  {
    if |xs| > 0 {
      var init := xs[..|xs| - 1];
      GatherSucceeds(init, f);
      assert forall k :: 0 <= k < |init| ==> xs[k] == init[k];
    }
  }

  /** When item `k` is the first to raise, the loop raises its error. */
  lemma GatherFirstFailure<T, U>(xs: seq<T>, f: T -> Result<Option<U>, Failure>, k: nat)
    requires k < |xs| && f(xs[k]).Failure?
    requires forall j :: 0 <= j < k ==> f(xs[j]).Success?
    ensures Gather(xs, f) == Failure(f(xs[k]).error)
  {
    var init := xs[..k];
    GatherSucceeds(init, f);
    assert forall j :: 0 <= j < k ==> init[j] == xs[j];
    GatherStep(xs, f, k);
    GatherStops(xs, f, k + 1);
  }

  /** When every item yields a value, the loop yields each item's value, in order. */
  lemma {:induction false} GatherEvery<T, U>(xs: seq<T>, f: T -> Result<Option<U>, Failure>)
    requires forall k :: 0 <= k < |xs| ==> f(xs[k]).Success? && f(xs[k]).value.Some?
    ensures Gather(xs, f).Success? && |Gather(xs, f).value| == |xs|
    ensures forall k :: 0 <= k < |xs| ==> f(xs[k]) == Success(Some(Gather(xs, f).value[k]))
    decreases |xs|
  {
    if |xs| > 0 {
      var init := xs[..|xs| - 1];
      assert forall k :: 0 <= k < |init| ==> xs[k] == init[k];
      GatherEvery(init, f);
      var v := Gather(init, f).value;
      assert Gather(xs, f).value == v + [f(xs[|xs| - 1]).value.value];
    }
  }

  /** What two loops in a row yield: the first one's values then the second one's, or the
      first error. */
  function Concat<U>(a: Result<seq<U>, Failure>, b: Result<seq<U>, Failure>): Result<seq<U>, Failure> {
    match a
    case Failure(e) => Failure(e)
    case Success(v) =>
      match b
      case Failure(e) => Failure(e)
      case Success(w) => Success(v + w)
  }

  /** The loop over `a + b` is the loop over `a` followed by the loop over `b`: values keep
      their input order. */
  lemma {:induction false} GatherAppend<T, U>(a: seq<T>, b: seq<T>, f: T -> Result<Option<U>, Failure>)
    ensures Gather(a + b, f) == Concat(Gather(a, f), Gather(b, f))
    decreases |b|
  {
    if |b| == 0 {
      assert a + b == a;
      match Gather(a, f)
      case Failure(e) =>
      case Success(v) =>
        assert v + [] == v;
    } else {
      var b0 := b[..|b| - 1];
      assert (a + b)[..|a + b| - 1] == a + b0;
      GatherAppend(a, b0, f);
      match Gather(a, f)
      case Failure(e) =>
      case Success(v) =>
        match Gather(b0, f)
        case Failure(e) =>
        case Success(w) =>
          match f(b[|b| - 1])
          case Failure(e) =>
          case Success(None) =>
          case Success(Some(u)) =>
            AppendAssoc(v, w, [u]);
    }
  }

  /** An item that yields nothing can be removed without changing the result. */
  lemma SkipDropsOut<T, U>(a: seq<T>, x: T, b: seq<T>, f: T -> Result<Option<U>, Failure>)
    requires f(x) == Success(None)
    ensures Gather(a + [x] + b, f) == Gather(a + b, f)
  {
    GatherAppend(a + [x], b, f);
    GatherAppend(a, [x], f);
    GatherAppend(a, b, f);
    assert [x][..0] == [];
  }

  /** A successful loop yields one value per item that yields one. */
  lemma {:induction false} GatherCount<T, U>(xs: seq<T>, f: T -> Result<Option<U>, Failure>)
    requires Gather(xs, f).Success?
    ensures |Gather(xs, f).value| == Count(xs, x => f(x) != Success(None))
    decreases |xs|
  {
    if |xs| > 0 {
      var rest := xs[1..];
      assert xs == [xs[0]] + rest;
      GatherAppend([xs[0]], rest, f);
      assert [xs[0]][..0] == [];
      GatherCount(rest, f);
    }
  }

  /** The generic loop. */
  method Collect<T, U>(xs: seq<T>, f: T -> Result<Option<U>, Failure>) returns (r: Result<seq<U>, Failure>)
    ensures r == Gather(xs, f)
  {
    var values := [];
    for i := 0 to |xs|
      invariant Gather(xs[..i], f) == Success(values)
    {
      GatherStep(xs, f, i);
      match f(xs[i])
      case Failure(e) =>
        GatherStops(xs, f, i + 1);
        return Failure(e);
      case Success(None) =>
      case Success(Some(u)) =>
        values := values + [u];
    }
    assert xs[..|xs|] == xs;
    return Success(values);
  }

  /** `int(s)`. */
  function ToInt(s: string): (r: Result<int, Failure>)
    ensures r.Success? <==> PyInt(s).Some?
    ensures r.Success? ==> r.value == PyInt(s).value
    ensures r.Failure? ==> r.error == NotAnInteger(s)
  {
    match PyInt(s)
    case Some(v) => Success(v)
    case None => Failure(NotAnInteger(s))
  }

  /** A blank line, or one starting with `#`, after stripping. */
  predicate Ignored(line: string) {
    var t := PyStrip(line);
    t == [] || t[0] == '#'
  }

  /** `[p.strip() for p in line.strip().split('|')]`. */
  function Fields(line: string): (r: seq<string>)
    ensures |r| == |Split(PyStrip(line), '|')| >= 1
    ensures forall k :: 0 <= k < |r| ==> r[k] == PyStrip(Split(PyStrip(line), '|')[k]) && '|' !in r[k]
  {
    var pieces := Split(PyStrip(line), '|');
    var r := Map(pieces, PyStrip);
    forall k | 0 <= k < |r|
      ensures '|' !in r[k]
    {
      StrippedPiece(pieces[k], '|');
    }
    r
  }

  predicate IsAll(field: string) {
    ToLowerAscii(field) == "all"
  }

  /** One grade piece as a loop item. */
  function GradeOf(piece: string): Result<Option<int>, Failure> {
    match ToInt(piece)
    case Success(g) => Success(Some(g))
    case Failure(e) => Failure(e)
  }

  /** The grades field: no restriction when empty or "all" in any case; otherwise
      `[int(g.strip()) for g in grades.split(',') if g.strip()]`. */
  function Grades(field: string): (r: Result<Option<seq<int>>, Failure>)
    ensures r == Success(None) <==> field == "" || IsAll(field)
  {
    if field == "" || IsAll(field) then Success(None)
    else match Gather(Pieces(field, ','), GradeOf)
      case Success(gs) => Success(Some(gs))
      case Failure(e) => Failure(e)
  }

  /** A restricted grades field succeeds exactly when every non-empty piece is a number. */
  lemma GradesSucceed(field: string)
    requires field != "" && !IsAll(field)
    ensures var ps := Pieces(field, ',');
      Grades(field).Success? <==> forall k :: 0 <= k < |ps| ==> PyInt(ps[k]).Some?
  {
    var ps := Pieces(field, ',');
    GatherSucceeds(ps, GradeOf);
    assert forall k :: 0 <= k < |ps| ==> (GradeOf(ps[k]).Success? <==> PyInt(ps[k]).Some?);
  }

  /** A restricted grades field whose pieces are all numbers lists their ints in order. */
  lemma GradesValues(field: string)
    requires field != "" && !IsAll(field)
    requires forall k :: 0 <= k < |Pieces(field, ',')| ==> PyInt(Pieces(field, ',')[k]).Some?
    ensures var ps := Pieces(field, ',');
      Grades(field).Success? && Grades(field).value.Some? && |Grades(field).value.value| == |ps|
      && forall k :: 0 <= k < |ps| ==> PyInt(ps[k]) == Some(Grades(field).value.value[k])
  {
    var ps := Pieces(field, ',');
    assert forall k :: 0 <= k < |ps| ==> GradeOf(ps[k]) == Success(Some(PyInt(ps[k]).value));
    GatherEvery(ps, GradeOf);
  }

  /** The first piece of a restricted grades field that is not a number raises. */
  lemma GradesFirstBad(field: string, i: nat)
    requires field != "" && !IsAll(field)
    requires var ps := Pieces(field, ',');
      i < |ps| && PyInt(ps[i]).None? && forall j :: 0 <= j < i ==> PyInt(ps[j]).Some?
    ensures Grades(field) == Failure(NotAnInteger(Pieces(field, ',')[i]))
  {
    var ps := Pieces(field, ',');
    assert forall j :: 0 <= j < i ==> GradeOf(ps[j]).Success?;
    GatherFirstFailure(ps, GradeOf, i);
  }

  /** One piece of an unavailable list: stripped; without a colon it is dropped, with one it
      becomes `{day, slot}`, with more the unpacking raises. */
  function SlotOf(piece: string): (r: Result<Option<SlotRecord>, Failure>)
    ensures ':' !in PyStrip(piece) ==> r == Success(None)
  {
    var slot := PyStrip(piece);
    if ':' !in slot then Success(None)
    else
      var halves := Split(slot, ':');
      if |halves| != 2 then Failure(TooManyColons(slot))
      else match ToInt(PyStrip(halves[1]))
        case Success(p) => Success(Some(SlotRecord(PyStrip(halves[0]), p)))
        case Failure(e) => Failure(e)
  }

  /** The unavailable field: empty, or the loop over its comma pieces. */
  function Unavailable(field: string): Result<seq<SlotRecord>, Failure> {
    if field == "" then Success([]) else Gather(Split(field, ','), SlotOf)
  }

  /** `day:period` with a colon-free day yields that day and the period's int. */
  lemma SlotRule(day: string, period: string)
    requires ':' !in day && ':' !in period
    requires PyStrip(day) == day && PyStrip(period) == period && day != [] && period != []
    requires !IsPySpace(day[0]) && !IsPySpace(period[|period| - 1])
    ensures SlotOf(day + [':'] + period) == match PyInt(period)
      case Some(p) => Success(Some(SlotRecord(day, p)))
      case None => Failure(NotAnInteger(period))
  {
    var s := day + [':'] + period;
    assert s[0] == day[0] && s[|s| - 1] == period[|period| - 1];
    StripNoEdgeSpace(s, IsPySpace);
    assert s[|day|] == ':';
    IndexOfIs(period, ':', |period|);
    assert Split(period, ':') == [period];
    SplitAppend(day, period, ':');
    IndexOfIs(day, ':', |day|);
    assert Split(day, ':') == [day];
  }

  /** The unavailable loop (`for slot in unavail_str.split(',')`). */
  method ParseUnavailable(field: string) returns (r: Result<seq<SlotRecord>, Failure>)
    ensures r == Unavailable(field)
  {
    if field == "" {
      return Success([]);
    }
    r := Collect(Split(field, ','), SlotOf);
  }

  /** `parse_courses` on one line. */
  function CourseLine(line: string): (r: Result<Option<CourseRecord>, Failure>)
    ensures Ignored(line) || |Fields(line)| < 6 ==> r == Success(None)
    ensures r.Success? && r.value.Some? ==>
      var p := Fields(line);
      var c := r.value.value;
      !Ignored(line) && |p| >= 6 && c.id == p[0] && c.name == p[1]
      && PyInt(p[2]) == Some(c.maxStudents) && Grades(p[3]) == Success(c.gradeRestrictions)
      && c.requiredFeatures == Pieces(p[4], ',') && PyInt(p[5]) == Some(c.sections)
  {
    if Ignored(line) then Success(None)
    else
      var p := Fields(line);
      if |p| < 6 then Success(None)
      else match Grades(p[3])
        case Failure(e) => Failure(e)
        case Success(grades) =>
          match ToInt(p[2])
          case Failure(e) => Failure(e)
          case Success(maxStudents) =>
            match ToInt(p[5])
            case Failure(e) => Failure(e)
            case Success(sections) =>
              Success(Some(CourseRecord(p[0], p[1], maxStudents, grades, Pieces(p[4], ','), sections)))
  }

  /** `parse_students` on one line. */
  function StudentLine(line: string): (r: Result<Option<StudentRecord>, Failure>)
    ensures Ignored(line) || |Fields(line)| < 5 ==> r == Success(None)
    ensures r.Success? && r.value.Some? ==>
      var p := Fields(line);
      var s := r.value.value;
      s.id == p[0] && s.name == p[1] && PyInt(p[2]) == Some(s.grade)
      && s.requiredCourses == Pieces(p[3], ',') && s.electivePreferences == Pieces(p[4], ',')
  {
    if Ignored(line) then Success(None)
    else
      var p := Fields(line);
      if |p| < 5 then Success(None)
      else match ToInt(p[2])
        case Failure(e) => Failure(e)
        case Success(grade) =>
          Success(Some(StudentRecord(p[0], p[1], grade, Pieces(p[3], ','), Pieces(p[4], ','))))
  }

  predicate NamesLovelace(name: string) {
    ContainsStr(ToLowerAscii(name), "lovelace")
  }

  /** `parse_teachers` on one line: the Lovelace check comes first, then the unavailable
      list, then the section limit. */
  function TeacherLine(line: string): (r: Result<Option<TeacherRecord>, Failure>)
    ensures Ignored(line) || |Fields(line)| < 5 ==> r == Success(None)
    ensures !Ignored(line) && |Fields(line)| >= 5 && NamesLovelace(Fields(line)[1]) ==>
      r == Failure(LovelaceTeacher(Fields(line)[1]))
    ensures r.Success? && r.value.Some? ==>
      var p := Fields(line);
      var t := r.value.value;
      !NamesLovelace(p[1]) && t.id == p[0] && t.name == p[1] && t.subjects == Pieces(p[2], ',')
      && PyInt(p[3]) == Some(t.maxSections) && Unavailable(p[4]) == Success(t.unavailable)
  {
    if Ignored(line) then Success(None)
    else
      var p := Fields(line);
      if |p| < 5 then Success(None) else TeacherOf(p)
  }

  /** A teacher read from the fields of a full line. */
  function TeacherOf(p: seq<string>): (r: Result<Option<TeacherRecord>, Failure>)
    requires |p| >= 5
    ensures NamesLovelace(p[1]) ==> r == Failure(LovelaceTeacher(p[1]))
    ensures r.Success? ==> r.value.Some?
    ensures r.Success? && r.value.Some? ==>
      var t := r.value.value;
      !NamesLovelace(p[1]) && t.id == p[0] && t.name == p[1] && t.subjects == Pieces(p[2], ',')
      && PyInt(p[3]) == Some(t.maxSections) && Unavailable(p[4]) == Success(t.unavailable)
  {
    if NamesLovelace(p[1]) then Failure(LovelaceTeacher(p[1]))
    else match Unavailable(p[4])
      case Failure(e) => Failure(e)
      case Success(unavailable) =>
        match ToInt(p[3])
        case Failure(e) => Failure(e)
        case Success(maxSections) =>
          Success(Some(TeacherRecord(p[0], p[1], Pieces(p[2], ','), maxSections, unavailable)))
  }

  /** Reading the fields raises exactly on a Lovelace name, an unreadable unavailable list
      or a section limit that is not a number. */
  lemma TeacherOfRaises(p: seq<string>)
    requires |p| >= 5
    ensures TeacherOf(p).Failure? <==> NamesLovelace(p[1]) || Unavailable(p[4]).Failure? || PyInt(p[3]).None?
  {
    if !NamesLovelace(p[1]) && Unavailable(p[4]).Success? {
      assert TeacherOf(p).Failure? <==> ToInt(p[3]).Failure?;
    }
  }

  /** `parse_rooms` on one line: the unavailable list, then the capacity. */
  function RoomLine(line: string): (r: Result<Option<RoomRecord>, Failure>)
    ensures Ignored(line) || |Fields(line)| < 5 ==> r == Success(None)
    ensures r.Success? && r.value.Some? ==>
      var p := Fields(line);
      var m := r.value.value;
      m.id == p[0] && m.name == p[1] && PyInt(p[2]) == Some(m.capacity)
      && m.features == Pieces(p[3], ',') && Unavailable(p[4]) == Success(m.unavailable)
  {
    if Ignored(line) then Success(None)
    else
      var p := Fields(line);
      if |p| < 5 then Success(None)
      else match Unavailable(p[4])
        case Failure(e) => Failure(e)
        case Success(unavailable) =>
          match ToInt(p[2])
          case Failure(e) => Failure(e)
          case Success(capacity) =>
            Success(Some(RoomRecord(p[0], p[1], capacity, Pieces(p[3], ','), unavailable)))
  }

  /** A course line that is neither ignored nor short raises exactly when its grades, its
      maximum or its section count cannot be read: a bad number is never skipped. */
  lemma CourseLineRaises(line: string)
    requires !Ignored(line) && |Fields(line)| >= 6
    ensures var p := Fields(line);
      CourseLine(line).Failure? <==> Grades(p[3]).Failure? || PyInt(p[2]).None? || PyInt(p[5]).None?
  {
  }

  /** A student line that is neither ignored nor short raises exactly when its grade is not
      a number. */
  lemma StudentLineRaises(line: string)
    requires !Ignored(line) && |Fields(line)| >= 5
    ensures StudentLine(line).Failure? <==> PyInt(Fields(line)[2]).None?
  {
  }

  /** A teacher line that is neither ignored nor short raises exactly when the name is
      Lovelace, the unavailable list cannot be read, or the section limit is not a number. */
  lemma TeacherLineRaises(line: string)
    requires !Ignored(line) && |Fields(line)| >= 5
    ensures var p := Fields(line);
      TeacherLine(line).Failure? <==> NamesLovelace(p[1]) || Unavailable(p[4]).Failure? || PyInt(p[3]).None?
  {
    TeacherOfRaises(Fields(line));
  }

  /** A room line that is neither ignored nor short raises exactly when the unavailable list
      cannot be read or the capacity is not a number. */
  lemma RoomLineRaises(line: string)
    requires !Ignored(line) && |Fields(line)| >= 5
    ensures var p := Fields(line);
      RoomLine(line).Failure? <==> Unavailable(p[4]).Failure? || PyInt(p[2]).None?
  {
  }

  /** `parse_courses`. */
  method ParseCourses(lines: seq<string>) returns (r: Result<seq<CourseRecord>, Failure>)
    ensures r == Gather(lines, CourseLine)
  {
    r := Collect(lines, CourseLine);
  }

  /** `parse_students`. */
  method ParseStudents(lines: seq<string>) returns (r: Result<seq<StudentRecord>, Failure>)
    ensures r == Gather(lines, StudentLine)
  {
    r := Collect(lines, StudentLine);
  }

  /** The body of the `parse_teachers` loop. */
  method ReadTeacher(line: string) returns (r: Result<Option<TeacherRecord>, Failure>)
    ensures r == TeacherLine(line)
  {
    if Ignored(line) {
      return Success(None);
    }
    var p := Fields(line);
    if |p| < 5 {
      return Success(None);
    }
    if NamesLovelace(p[1]) {
      return Failure(LovelaceTeacher(p[1]));
    }
    var subjects := Pieces(p[2], ',');
    var unavailable := ParseUnavailable(p[4]);
    if unavailable.Failure? {
      return Failure(unavailable.error);
    }
    var maxSections := ToInt(p[3]);
    if maxSections.Failure? {
      return Failure(maxSections.error);
    }
    return Success(Some(TeacherRecord(p[0], p[1], subjects, maxSections.value, unavailable.value)));
  }

  /** `parse_teachers`. */
  method ParseTeachers(lines: seq<string>) returns (r: Result<seq<TeacherRecord>, Failure>)
    ensures r == Gather(lines, TeacherLine)
  {
    var teachers := [];
    for i := 0 to |lines|
      invariant Gather(lines[..i], TeacherLine) == Success(teachers)
    {
      GatherStep(lines, TeacherLine, i);
      var outcome := ReadTeacher(lines[i]);
      if outcome.Failure? {
        GatherStops(lines, TeacherLine, i + 1);
        return Failure(outcome.error);
      }
      if outcome.value.Some? {
        teachers := teachers + [outcome.value.value];
      }
    }
    assert lines[..|lines|] == lines;
    return Success(teachers);
  }

  /** The body of the `parse_rooms` loop. */
  method ReadRoom(line: string) returns (r: Result<Option<RoomRecord>, Failure>)
    ensures r == RoomLine(line)
  {
    if Ignored(line) {
      return Success(None);
    }
    var p := Fields(line);
    if |p| < 5 {
      return Success(None);
    }
    var features := Pieces(p[3], ',');
    var unavailable := ParseUnavailable(p[4]);
    if unavailable.Failure? {
      return Failure(unavailable.error);
    }
    var capacity := ToInt(p[2]);
    if capacity.Failure? {
      return Failure(capacity.error);
    }
    return Success(Some(RoomRecord(p[0], p[1], capacity.value, features, unavailable.value)));
  }

  /** `parse_rooms`. */
  method ParseRooms(lines: seq<string>) returns (r: Result<seq<RoomRecord>, Failure>)
    ensures r == Gather(lines, RoomLine)
  {
    var rooms := [];
    for i := 0 to |lines|
      invariant Gather(lines[..i], RoomLine) == Success(rooms)
    {
      GatherStep(lines, RoomLine, i);
      var outcome := ReadRoom(lines[i]);
      if outcome.Failure? {
        GatherStops(lines, RoomLine, i + 1);
        return Failure(outcome.error);
      }
      if outcome.value.Some? {
        rooms := rooms + [outcome.value.value];
      }
    }
    assert lines[..|lines|] == lines;
    return Success(rooms);
  }

  /** Blank and comment lines, and short lines, can be removed from any file without
      changing what any of the four parsers yields. */
  lemma SkippedLinesDropOut(a: seq<string>, line: string, b: seq<string>)
    requires Ignored(line) || |Fields(line)| < 5
    ensures Gather(a + [line] + b, CourseLine) == Gather(a + b, CourseLine)
    ensures Gather(a + [line] + b, StudentLine) == Gather(a + b, StudentLine)
    ensures Gather(a + [line] + b, TeacherLine) == Gather(a + b, TeacherLine)
    ensures Gather(a + [line] + b, RoomLine) == Gather(a + b, RoomLine)
  {
    SkipDropsOut(a, line, b, CourseLine);
    SkipDropsOut(a, line, b, StudentLine);
    SkipDropsOut(a, line, b, TeacherLine);
    SkipDropsOut(a, line, b, RoomLine);
  }

  /** A Lovelace teacher line aborts the whole file unless an earlier line already raised. */
  lemma LovelaceAborts(lines: seq<string>, k: nat)
    requires k < |lines| && !Ignored(lines[k]) && |Fields(lines[k])| >= 5
    requires NamesLovelace(Fields(lines[k])[1])
    requires forall j :: 0 <= j < k ==> TeacherLine(lines[j]).Success?
    ensures Gather(lines, TeacherLine) == Failure(LovelaceTeacher(Fields(lines[k])[1]))
  {
    GatherFirstFailure(lines, TeacherLine, k);
  }
}
