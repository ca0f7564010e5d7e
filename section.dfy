/** A section: one class instance of a course, with its teacher, room, meeting periods
    and enrolled students. */
module Sections {
  import opened Wrappers
  import opened Ids
  import opened Seqs
  import opened Periods

  /** The Rust `Section` struct. `enroll` and `unenroll` take `&mut self`; since a
      mutable borrow is exclusive, they are modelled as functions returning the updated
      value, and callers that update a section inside a vector write it back. */
  datatype Section = Section(
    id: SectionId,
    courseId: CourseId,
    teacherId: Option<TeacherId>,
    roomId: Option<RoomId>,
    periods: seq<Period>,
    enrolled: seq<StudentId>,
    capacity: u32)
  {
    /** `enrollment`: number of enrolled students. */
    function Enrollment(): nat {
      |enrolled|
    }

    /** `available_seats`: `capacity.saturating_sub(len as u32)`. */
    function AvailableSeats(): (r: u32)
      ensures r <= capacity
      ensures |enrolled| < 0x1_0000_0000 ==> (r == 0 <==> IsFull())
      ensures |enrolled| < 0x1_0000_0000 && !IsFull() ==> r + |enrolled| == capacity
    {
      var n := TruncU32(|enrolled|);
      if capacity <= n then 0 else capacity - n
    }

    /** `is_full`: enrollment has reached capacity. */
    predicate IsFull() {
      |enrolled| >= capacity
    }

    /** `has_student`. */
    predicate HasStudent(s: StudentId) {
      s in enrolled
    }

    /** `enroll`: append the student unless already present; capacity is not checked.
        Only the enrolment list changes. */
    function Enroll(s: StudentId): (r: Section)
      ensures r.HasStudent(s)
      ensures r == this.(enrolled := r.enrolled)
      ensures HasStudent(s) ==> r == this
      ensures !HasStudent(s) ==> r.Enrollment() == Enrollment() + 1 && r.enrolled[..|enrolled|] == enrolled
    {
      if HasStudent(s) then this else this.(enrolled := enrolled + [s])
    }

    /** `unenroll`: `retain` keeps every other student, in order. Only the enrolment list
        changes. */
    function Unenroll(s: StudentId): (r: Section)
      ensures !r.HasStudent(s)
      ensures r == this.(enrolled := r.enrolled)
      ensures multiset(r.enrolled) == multiset(enrolled)[s := 0]
      ensures r.Enrollment() == Enrollment() - multiset(enrolled)[s]
    {
      assert multiset(Without(enrolled, s))[s] == 0;
      this.(enrolled := Without(enrolled, s))
    }
  }

  /** `Section::new`. */
  function NewSection(id: SectionId, courseId: CourseId, capacity: u32): (r: Section)
    ensures r.id == id && r.courseId == courseId && r.capacity == capacity
    ensures r.teacherId == None && r.roomId == None && r.periods == []
    ensures r.Enrollment() == 0 && r.AvailableSeats() == capacity
    ensures r.IsFull() <==> capacity == 0
  {
    Section(id, courseId, None, None, [], [], capacity)
  }

  /** Enrolling twice is enrolling once. */
  lemma EnrollIdempotent(sec: Section, s: StudentId)
    ensures sec.Enroll(s).Enroll(s) == sec.Enroll(s)
  {
  }

  /** Unenrolling a student just enrolled undoes the enrolment. */
  lemma UnenrollUndoesEnroll(sec: Section, s: StudentId)
    requires !sec.HasStudent(s)
    ensures sec.Enroll(s).Unenroll(s) == sec
  {
    WithoutAppend(sec.enrolled, [s], s);
    WithoutAbsent(sec.enrolled, s);
  }

  /** `retain` keeps the order: the students left are the old list filtered by "is not
      the student". */
  lemma UnenrollKeepsOrder(sec: Section, s: StudentId)
    ensures sec.Unenroll(s).enrolled == Filter(sec.enrolled, IsNot(s))
  {
    WithoutIsFilter(sec.enrolled, s);
  }

  /** Enrolling and unenrolling other students leaves the student's membership alone. */
  lemma MembershipOfOthers(sec: Section, s: StudentId, t: StudentId)
    requires s != t
    ensures sec.Enroll(t).HasStudent(s) == sec.HasStudent(s)
    ensures sec.Unenroll(t).HasStudent(s) == sec.HasStudent(s)
  {
    assert multiset(sec.Unenroll(t).enrolled)[s] == multiset(sec.enrolled)[s];
  }
}
