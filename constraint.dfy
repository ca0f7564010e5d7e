/** The constraint catalogue and the grid configuration. */
module Constraints {
  import opened Ids
  import opened Wrappers
  import opened Students
  import opened Teachers
  import opened Courses
  import opened Rooms

  /** Hard, or soft with a weight (a float, carried as a real). */
  datatype ConstraintType = Hard | Soft(weight: real)

  datatype Constraint =
    | NoTeacherConflict
    | NoStudentConflict
    | NoRoomConflict
    | RoomCapacity
    | TeacherQualified
    | TeacherAvailability
    | RoomFeatures
    | GradeRestriction
    | TeacherMaxSections
    | BalancedSections(weight: real)
    | StudentElectivePreference(weight: real)
    | MinimizeGaps(weight: real)
    | TeacherPreferences(weight: real)
    | LunchAvailability(weight: real, periods: seq<u8>)
  {
    predicate IsWeighted() {
      BalancedSections? || StudentElectivePreference? || MinimizeGaps? || TeacherPreferences? ||
      LunchAvailability?
    }

    /** `constraint_type`: the unweighted variants are hard, the weighted ones soft with
        their own weight. */
    function Type(): (t: ConstraintType)
      ensures t.Hard? <==> !IsWeighted()
      ensures t.Soft? ==> IsWeighted() && t.weight == weight
    {
      match this
      case BalancedSections(w) => Soft(w)
      case StudentElectivePreference(w) => Soft(w)
      case MinimizeGaps(w) => Soft(w)
      case TeacherPreferences(w) => Soft(w)
      case LunchAvailability(w, _) => Soft(w)
      case _ => Hard
    }

    /** Position of the variant in the declaration. */
    function Ordinal(): nat {
      match this
      case NoTeacherConflict => 0
      case NoStudentConflict => 1
      case NoRoomConflict => 2
      case RoomCapacity => 3
      case TeacherQualified => 4
      case TeacherAvailability => 5
      case RoomFeatures => 6
      case GradeRestriction => 7
      case TeacherMaxSections => 8
      case BalancedSections(_) => 9
      case StudentElectivePreference(_) => 10
      case MinimizeGaps(_) => 11
      case TeacherPreferences(_) => 12
      case LunchAvailability(_, _) => 13
    }

    /** `name`: the human-readable name. */
    function Name(): string {
      match this
      case NoTeacherConflict => "No Teacher Conflict"
      case NoStudentConflict => "No Student Conflict"
      case NoRoomConflict => "No Room Conflict"
      case RoomCapacity => "Room Capacity"
      case TeacherQualified => "Teacher Qualified"
      case TeacherAvailability => "Teacher Availability"
      case RoomFeatures => "Room Features"
      case GradeRestriction => "Grade Restriction"
      case TeacherMaxSections => "Teacher Max Sections"
      case BalancedSections(_) => "Balanced Sections"
      case StudentElectivePreference(_) => "Student Elective Preference"
      case MinimizeGaps(_) => "Minimize Gaps"
      case TeacherPreferences(_) => "Teacher Preferences"
      case LunchAvailability(_, _) => "Lunch Availability"
    }
  }

  /** Every variant has its own name. */
  lemma NamesDistinct(a: Constraint, b: Constraint)
    requires a.Name() == b.Name()
    ensures a.Ordinal() == b.Ordinal()
  {
  }

  /** `ScheduleConfig`. */
  datatype Config = Config(periodsPerDay: u8, daysPerWeek: u8, lunchPeriods: seq<u8>)

  /** `ScheduleConfig::default()`: 8 periods a day, 5 days, lunch in periods 3 and 4. */
  const DefaultConfig: Config := Config(8, 5, [3, 4])

  /** The configuration as deserialised: absent fields become 8, 5 and an empty lunch
      list. */
  function ConfigFromInput(periodsPerDay: Option<u8>, daysPerWeek: Option<u8>, lunch: Option<seq<u8>>): (c: Config)
    ensures periodsPerDay.None? ==> c.periodsPerDay == 8
    ensures periodsPerDay.Some? ==> c.periodsPerDay == periodsPerDay.value
    ensures daysPerWeek.None? ==> c.daysPerWeek == 5
    ensures daysPerWeek.Some? ==> c.daysPerWeek == daysPerWeek.value
    ensures lunch.None? ==> c.lunchPeriods == []
    ensures lunch.Some? ==> c.lunchPeriods == lunch.value
  {
    Config(periodsPerDay.GetOr(8), daysPerWeek.GetOr(5), lunch.GetOr([]))
  }

  /** A configuration deserialised from an empty object agrees with `default()` on the
      grid but has no lunch periods, where `default()` has two. */
  lemma EmptyInputIsNotDefault()
    ensures var c := ConfigFromInput(None, None, None);
      c.periodsPerDay == DefaultConfig.periodsPerDay && c.daysPerWeek == DefaultConfig.daysPerWeek &&
      c.lunchPeriods == [] && |DefaultConfig.lunchPeriods| == 2
  {
  }

  /** All input data bundled together. */
  datatype ScheduleInput = ScheduleInput(
    students: seq<Student>,
    teachers: seq<Teacher>,
    courses: seq<Course>,
    rooms: seq<Room>,
    constraints: seq<Constraint>,
    config: Config)
}
