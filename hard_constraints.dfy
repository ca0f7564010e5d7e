/** The hard-constraint checks of the schedule validator: double-booking of teachers,
    students and rooms, and sections over capacity. */
module HardConstraints {
  import opened Wrappers
  import opened Ids
  import opened Seqs
  import opened Text
  import opened Periods
  import opened Sections
  import opened Violations

  /** The three double-booking checks differ only in whom a section books. */
  datatype Kind = TeacherKind | StudentKind | RoomKind

  /** Whom a section books: its teacher, each enrolled student, or its room. A section
      without a teacher (a room) books nobody for that check. */
  function Owners(k: Kind, s: Section): (r: seq<string>)
    ensures k == StudentKind ==> r == s.enrolled
    ensures k == TeacherKind ==> (r == [] <==> s.teacherId.None?)
    ensures k == RoomKind ==> (r == [] <==> s.roomId.None?)
  {
    match k
    case TeacherKind => if s.teacherId.Some? then [s.teacherId.value] else []
    case StudentKind => s.enrolled
    case RoomKind => if s.roomId.Some? then [s.roomId.value] else []
  }

  /** An id booked at a (day, slot). */
  datatype Booking = Booking(owner: string, period: Period)

  /** One id at each period in turn. */
  function PeriodBookings(o: string, ps: seq<Period>): (r: seq<Booking>)
    ensures |r| == |ps|
  {
    if |ps| == 0 then [] else PeriodBookings(o, ps[..|ps| - 1]) + [Booking(o, ps[|ps| - 1])]
  }

  lemma {:induction false} PeriodBookingsHas(o: string, ps: seq<Period>, b: Booking)
    ensures b in PeriodBookings(o, ps) <==> b.owner == o && b.period in ps
  {
    if |ps| > 0 {
      var init := ps[..|ps| - 1];
      PeriodBookingsHas(o, init, b);
      assert ps == init + [ps[|ps| - 1]];
    }
  }

  /** Each owner in turn, at each period in turn. */
  function OwnerBookings(owners: seq<string>, ps: seq<Period>): seq<Booking> {
    if |owners| == 0 then []
    else OwnerBookings(owners[..|owners| - 1], ps) + PeriodBookings(owners[|owners| - 1], ps)
  }

  /** The bookings of a check, section by section, in the order the loops meet them. */
  function Bookings(k: Kind, ss: seq<Section>): seq<Booking> {
    if |ss| == 0 then []
    else Bookings(k, ss[..|ss| - 1]) + OwnerBookings(Owners(k, ss[|ss| - 1]), ss[|ss| - 1].periods)
  }

  lemma {:induction false} OwnerBookingsHas(owners: seq<string>, ps: seq<Period>, b: Booking)
    ensures b in OwnerBookings(owners, ps) <==> b.owner in owners && b.period in ps
  {
    if |owners| > 0 {
      var init := owners[..|owners| - 1];
      OwnerBookingsHas(init, ps, b);
      assert owners == init + [owners[|owners| - 1]];
      PeriodBookingsHas(owners[|owners| - 1], ps, b);
    }
  }

  /** The bookings of the first `n` sections begin the bookings of all. */
  lemma {:induction false} BookingsPrefix(k: Kind, ss: seq<Section>, n: nat)
    requires n <= |ss|
    ensures |Bookings(k, ss[..n])| <= |Bookings(k, ss)|
    ensures Bookings(k, ss)[..|Bookings(k, ss[..n])|] == Bookings(k, ss[..n])
  {
    if n < |ss| {
      var init := ss[..|ss| - 1];
      BookingsPrefix(k, init, n);
      assert init[..n] == ss[..n];
    } else {
      assert ss[..n] == ss;
    }
  }

  /** `constraint` of the check's violations. */
  function Name(k: Kind): string {
    match k
    case TeacherKind => "NoTeacherConflict"
    case StudentKind => "NoStudentConflict"
    case RoomKind => "NoRoomConflict"
  }

  function Label(k: Kind): string {
    match k
    case TeacherKind => "Teacher"
    case StudentKind => "Student"
    case RoomKind => "Room"
  }

  /** The violation for a booking made twice, e.g. "Teacher 't1' double-booked at D1P1". */
  function ViolationOf(k: Kind, b: Booking): Violation {
    Violation(Name(k), Label(k) + " '" + b.owner + "' double-booked at " + Show(b.period), Error)
  }

  /** One violation for every booking that repeats an earlier one, in order. */
  function Conflicts(k: Kind, b: seq<Booking>): seq<Violation> {
    if |b| == 0 then []
    else
      var init, x := b[..|b| - 1], b[|b| - 1];
      Conflicts(k, init) + (if x in init then [ViolationOf(k, x)] else [])
  }

  function SetOf(b: seq<Booking>): set<Booking> {
    set x | x in b
  }

  /** There are as many violations as bookings beyond the distinct ones. */
  lemma {:induction false} ConflictsCount(k: Kind, b: seq<Booking>)
    ensures |Conflicts(k, b)| + |SetOf(b)| == |b|
  {
    if |b| > 0 {
      var init, x := b[..|b| - 1], b[|b| - 1];
      ConflictsCount(k, init);
      assert b == init + [x];
      if x in init {
        assert SetOf(b) == SetOf(init);
      } else {
        assert SetOf(b) == SetOf(init) + {x};
      }
    }
  }

  /** No violation exactly when no booking repeats. */
  lemma {:induction false} ConflictsNone(k: Kind, b: seq<Booking>)
    ensures Conflicts(k, b) == [] <==> Distinct(b)
  {
    if |b| > 0 {
      var init, x := b[..|b| - 1], b[|b| - 1];
      ConflictsNone(k, init);
      assert b == init + [x];
      if x in init {
        var a :| 0 <= a < |init| && init[a] == x;
        assert b[a] == b[|b| - 1];
      } else if Distinct(init) {
        forall a, c | 0 <= a < c < |b|
          ensures b[a] != b[c]
        {
          if c < |b| - 1 {
            assert b[a] == init[a] && b[c] == init[c];
          } else {
            assert b[a] == init[a];
          }
        }
      } else {
        var a, c :| 0 <= a < c < |init| && init[a] == init[c];
        assert b[a] == b[c];
      }
    }
  }

  /** Every violation carries the check's name and is an error. */
  lemma {:induction false} ConflictsShape(k: Kind, b: seq<Booking>)
    ensures forall v :: v in Conflicts(k, b) ==> v.constraint == Name(k) && v.severity == Error
  {
    if |b| > 0 {
      ConflictsShape(k, b[..|b| - 1]);
    }
  }

  /** A booking repeated at a later position is reported. */
  lemma {:induction false} ConflictsHas(k: Kind, b: seq<Booking>, a: nat, c: nat)
    requires a < c < |b| && b[a] == b[c]
    ensures ViolationOf(k, b[c]) in Conflicts(k, b)
  {
    var init := b[..|b| - 1];
    if c < |b| - 1 {
      ConflictsHas(k, init, a, c);
    } else {
      assert init[a] == b[a];
    }
  }

  /** A booking of section `i` is among the check's bookings. */
  lemma {:induction false} InBookings(k: Kind, ss: seq<Section>, i: nat, x: Booking)
    requires i < |ss| && x in OwnerBookings(Owners(k, ss[i]), ss[i].periods)
    ensures x in Bookings(k, ss)
  {
    if i < |ss| - 1 {
      var init := ss[..|ss| - 1];
      assert init[i] == ss[i];
      InBookings(k, init, i, x);
    }
  }

  /** Violations already reported stay reported as bookings are added. */
  lemma {:induction false} ConflictsMono(k: Kind, b: seq<Booking>, n: nat, v: Violation)
    requires n <= |b| && v in Conflicts(k, b[..n])
    ensures v in Conflicts(k, b)
  {
    if n < |b| {
      var init := b[..|b| - 1];
      assert init[..n] == b[..n];
      ConflictsMono(k, init, n, v);
    } else {
      assert b[..n] == b;
    }
  }

  /** A booking of section `j` already made by an earlier section is reported with it. */
  lemma RepeatReported(k: Kind, ss: seq<Section>, j: nat, x: Booking)
    requires j < |ss| && x in Bookings(k, ss[..j]) && x in OwnerBookings(Owners(k, ss[j]), ss[j].periods)
    ensures ViolationOf(k, x) in Conflicts(k, Bookings(k, ss[..j + 1]))
  {
    var upto := ss[..j + 1];
    assert upto[..|upto| - 1] == ss[..j] && upto[|upto| - 1] == ss[j];
    var a := Bookings(k, ss[..j]);
    var own := OwnerBookings(Owners(k, ss[j]), ss[j].periods);
    var b := a + own;
    assert Bookings(k, upto) == b;
    var ai :| 0 <= ai < |a| && a[ai] == x;
    var ci :| 0 <= ci < |own| && own[ci] == x;
    assert b[ai] == x && b[|a| + ci] == x;
    ConflictsHas(k, b, ai, |a| + ci);
  }

  /** Two sections booking the same id at a common period make that check report it. */
  lemma DoubleBookingReported(k: Kind, ss: seq<Section>, i: nat, j: nat, o: string, p: Period)
    requires i < j < |ss|
    requires o in Owners(k, ss[i]) && o in Owners(k, ss[j]) && p in ss[i].periods && p in ss[j].periods
    ensures ViolationOf(k, Booking(o, p)) in Conflicts(k, Bookings(k, ss))
  {
    var x := Booking(o, p);
    OwnerBookingsHas(Owners(k, ss[i]), ss[i].periods, x);
    OwnerBookingsHas(Owners(k, ss[j]), ss[j].periods, x);
    assert ss[..j][i] == ss[i];
    InBookings(k, ss[..j], i, x);
    RepeatReported(k, ss, j, x);
    BookingsPrefix(k, ss, j + 1);
    ConflictsMono(k, Bookings(k, ss), |Bookings(k, ss[..j + 1])|, ViolationOf(k, x));
  }

  /** The periods an id is booked at so far; none for an id not yet booked. */
  function PeriodsOf(seen: map<string, set<Period>>, o: string): set<Period> {
    if o in seen then seen[o] else {}
  }

  /** The `HashMap` of `HashSet`s the check keeps: per id booked so far, its (day, slot)s. */
  function Index(done: seq<Booking>): map<string, set<Period>> {
    if |done| == 0 then map[]
    else
      var init, x := done[..|done| - 1], done[|done| - 1];
      Index(init)[x.owner := PeriodsOf(Index(init), x.owner) + {x.period}]
  }

  /** The index holds exactly the bookings made. */
  lemma {:induction false} IndexHas(done: seq<Booking>, b: Booking)
    ensures b in done <==> b.period in PeriodsOf(Index(done), b.owner)
  {
    if |done| > 0 {
      var init := done[..|done| - 1];
      IndexHas(init, b);
      assert done == init + [done[|done| - 1]];
    }
  }

  lemma IndexSnoc(done: seq<Booking>, x: Booking)
    ensures Index(done + [x]) == Index(done)[x.owner := PeriodsOf(Index(done), x.owner) + {x.period}]
  {
    assert (done + [x])[..|done|] == done;
  }

  lemma PeriodBookingsSnoc(o: string, ps: seq<Period>, q: nat)
    requires q < |ps|
    ensures PeriodBookings(o, ps[..q + 1]) == PeriodBookings(o, ps[..q]) + [Booking(o, ps[q])]
  {
    assert ps[..q + 1][..q] == ps[..q];
  }

  lemma ConflictsSnoc(k: Kind, b: seq<Booking>, x: Booking)
    ensures Conflicts(k, b + [x]) == Conflicts(k, b) + (if x in b then [ViolationOf(k, x)] else [])
  {
    assert (b + [x])[..|b|] == b;
  }

  /** One pass of the innermost loop: booking `o` at `ps[q]` either repeats a booking, and
      adds a violation, or inserts the period into `o`'s set. */
  lemma PeriodStep(k: Kind, done: seq<Booking>, o: string, ps: seq<Period>, q: nat,
                   seen: map<string, set<Period>>, violations: seq<Violation>, d: seq<Booking>)
    requires q < |ps| && d == done + PeriodBookings(o, ps[..q])
    requires seen == Index(d) && violations == Conflicts(k, d)
    ensures d + [Booking(o, ps[q])] == done + PeriodBookings(o, ps[..q + 1])
    ensures ps[q] in PeriodsOf(seen, o) ==>
              seen == Index(d + [Booking(o, ps[q])])
              && violations + [ViolationOf(k, Booking(o, ps[q]))] == Conflicts(k, d + [Booking(o, ps[q])])
    ensures ps[q] !in PeriodsOf(seen, o) ==>
              seen[o := PeriodsOf(seen, o) + {ps[q]}] == Index(d + [Booking(o, ps[q])])
              && violations == Conflicts(k, d + [Booking(o, ps[q])])
  {
    var x := Booking(o, ps[q]);
    IndexHas(d, x);
    IndexSnoc(d, x);
    ConflictsSnoc(k, d, x);
    PeriodBookingsSnoc(o, ps, q);
    if ps[q] in PeriodsOf(seen, o) {
      assert o in seen && seen[o] + {ps[q]} == seen[o];
      assert seen[o := PeriodsOf(seen, o) + {ps[q]}] == seen;
    }
  }

  /** The innermost loop: `o` is booked at each period; a failed `insert` reports a repeat.
      The map gets an entry for `o` at its first insertion, where `entry().or_default()`
      makes an empty one before the loop; an empty entry changes no answer. */
  method BookOwner(k: Kind, o: string, ps: seq<Period>, seen: map<string, set<Period>>,
                   violations: seq<Violation>, ghost done: seq<Booking>)
    returns (seen': map<string, set<Period>>, violations': seq<Violation>, ghost done': seq<Booking>)
    requires seen == Index(done) && violations == Conflicts(k, done)
    ensures done' == done + PeriodBookings(o, ps) && seen' == Index(done') && violations' == Conflicts(k, done')
  {
    var periods := PeriodsOf(seen, o);
    seen', violations', done' := seen, violations, done;
    for q := 0 to |ps|
      invariant periods == PeriodsOf(seen', o)
      invariant done' == done + PeriodBookings(o, ps[..q])
      invariant seen' == Index(done') && violations' == Conflicts(k, done')
    {
      PeriodStep(k, done, o, ps, q, seen', violations', done');
      if ps[q] in periods {
        violations' := violations' + [ViolationOf(k, Booking(o, ps[q]))];
      } else {
        periods := periods + {ps[q]};
        seen' := seen'[o := periods];
      }
      done' := done' + [Booking(o, ps[q])];
    }
    assert ps[..|ps|] == ps;
  }

  lemma OwnerBookingsSnoc(owners: seq<string>, ps: seq<Period>, j: nat)
    requires j < |owners|
    ensures OwnerBookings(owners[..j + 1], ps) == OwnerBookings(owners[..j], ps) + PeriodBookings(owners[j], ps)
  {
    assert owners[..j + 1][..j] == owners[..j];
  }

  lemma OwnerStep(done: seq<Booking>, owners: seq<string>, ps: seq<Period>, j: nat, d1: seq<Booking>, d2: seq<Booking>)
    requires j < |owners| && d1 == done + OwnerBookings(owners[..j], ps) && d2 == d1 + PeriodBookings(owners[j], ps)
    ensures d2 == done + OwnerBookings(owners[..j + 1], ps)
  {
    OwnerBookingsSnoc(owners, ps, j);
  }

  /** The loop over the ids one section books. */
  method BookSection(k: Kind, s: Section, seen: map<string, set<Period>>,
                     violations: seq<Violation>, ghost done: seq<Booking>)
    returns (seen': map<string, set<Period>>, violations': seq<Violation>, ghost done': seq<Booking>)
    requires seen == Index(done) && violations == Conflicts(k, done)
    ensures done' == done + OwnerBookings(Owners(k, s), s.periods) && seen' == Index(done') && violations' == Conflicts(k, done')
  {
    var owners := Owners(k, s);
    seen', violations', done' := seen, violations, done;
    for j := 0 to |owners|
      invariant done' == done + OwnerBookings(owners[..j], s.periods)
      invariant seen' == Index(done') && violations' == Conflicts(k, done')
    {
      ghost var before := done';
      seen', violations', done' := BookOwner(k, owners[j], s.periods, seen', violations', done');
      OwnerStep(done, owners, s.periods, j, before, done');
    }
    assert owners[..|owners|] == owners;
  }

  lemma SectionStep(k: Kind, ss: seq<Section>, i: nat, d1: seq<Booking>, d2: seq<Booking>)
    requires i < |ss| && d1 == Bookings(k, ss[..i]) && d2 == d1 + OwnerBookings(Owners(k, ss[i]), ss[i].periods)
    ensures d2 == Bookings(k, ss[..i + 1])
  {
    assert ss[..i + 1][..i] == ss[..i];
  }

  /** `check_teacher_conflicts`, `check_student_conflicts` and `check_room_conflicts`,
      which share one shape. */
  method CheckConflicts(k: Kind, sections: seq<Section>) returns (violations: seq<Violation>)
    ensures violations == Conflicts(k, Bookings(k, sections))
  {
    violations := [];
    var seen: map<string, set<Period>> := map[];
    ghost var done: seq<Booking> := [];
    for i := 0 to |sections|
      invariant done == Bookings(k, sections[..i])
      invariant seen == Index(done) && violations == Conflicts(k, done)
    {
      ghost var before := done;
      seen, violations, done := BookSection(k, sections[i], seen, violations, done);
      SectionStep(k, sections, i, before, done);
    }
    assert sections[..|sections|] == sections;
  }

  /** A check reports one error, under its name, per booking beyond the distinct ones, so
      nothing exactly when nobody is booked twice at one (day, slot). */
  method CheckKind(k: Kind, sections: seq<Section>) returns (violations: seq<Violation>)
    ensures |violations| + |SetOf(Bookings(k, sections))| == |Bookings(k, sections)|
    ensures violations == [] <==> Distinct(Bookings(k, sections))
    ensures forall v :: v in violations ==> v.constraint == Name(k) && v.severity == Error
    ensures forall i, j, o, p :: (0 <= i < j < |sections| && o in Owners(k, sections[i]) && o in Owners(k, sections[j])
              && p in sections[i].periods && p in sections[j].periods) ==> ViolationOf(k, Booking(o, p)) in violations
  {
    violations := CheckConflicts(k, sections);
    ConflictsCount(k, Bookings(k, sections));
    ConflictsNone(k, Bookings(k, sections));
    ConflictsShape(k, Bookings(k, sections));
    forall i, j, o, p | 0 <= i < j < |sections| && o in Owners(k, sections[i]) && o in Owners(k, sections[j])
        && p in sections[i].periods && p in sections[j].periods
      ensures ViolationOf(k, Booking(o, p)) in violations
    {
      DoubleBookingReported(k, sections, i, j, o, p);
    }
  }

  /** The teacher case of the module's tests: one teacher in two sections at the first
      period of the week is reported. */
  lemma TeacherConflictDetected()
    ensures Conflicts(TeacherKind, Bookings(TeacherKind,
              [Section("s1", "math", Some("t1"), None, [Period(0, 0)], [], 30),
               Section("s2", "eng", Some("t1"), None, [Period(0, 0)], [], 30)])) != []
  {
    var ss := [Section("s1", "math", Some("t1"), None, [Period(0, 0)], [], 30),
               Section("s2", "eng", Some("t1"), None, [Period(0, 0)], [], 30)];
    DoubleBookingReported(TeacherKind, ss, 0, 1, "t1", Period(0, 0));
  }

  /** The student case of the module's tests. */
  lemma StudentConflictDetected()
    ensures Conflicts(StudentKind, Bookings(StudentKind,
              [Section("s1", "math", None, None, [Period(0, 0)], ["stu1"], 30),
               Section("s2", "eng", None, None, [Period(0, 0)], ["stu1"], 30)])) != []
  {
    var ss := [Section("s1", "math", None, None, [Period(0, 0)], ["stu1"], 30),
               Section("s2", "eng", None, None, [Period(0, 0)], ["stu1"], 30)];
    DoubleBookingReported(StudentKind, ss, 0, 1, "stu1", Period(0, 0));
  }

  /** `check_capacity_violations`' violation for a section. */
  function CapacityViolation(s: Section): Violation {
    Violation("RoomCapacity",
              "Section '" + s.id + "' over capacity: " + NatToString(s.Enrollment()) + " enrolled, "
              + NatToString(s.capacity) + " capacity",
              Error)
  }

  /** More students than seats; a full section is fine. */
  predicate OverCapacity(s: Section) {
    s.Enrollment() > s.capacity
  }

  /** One violation per section over capacity, in section order. */
  function CapacityViolations(ss: seq<Section>): seq<Violation> {
    if |ss| == 0 then []
    else CapacityViolations(ss[..|ss| - 1]) + (if OverCapacity(ss[|ss| - 1]) then [CapacityViolation(ss[|ss| - 1])] else [])
  }

  /** `check_capacity_violations`. */
  method CheckCapacityViolations(sections: seq<Section>) returns (violations: seq<Violation>)
    ensures violations == CapacityViolations(sections)
  {
    violations := [];
    for i := 0 to |sections|
      invariant violations == CapacityViolations(sections[..i])
    {
      assert sections[..i + 1][..i] == sections[..i];
      if sections[i].Enrollment() > sections[i].capacity {
        violations := violations + [CapacityViolation(sections[i])];
      }
    }
    assert sections[..|sections|] == sections;
  }

  /** As many violations as sections over capacity. */
  lemma {:induction false} CapacityViolationsCount(ss: seq<Section>)
    ensures |CapacityViolations(ss)| == Count(ss, OverCapacity)
  {
    if |ss| > 0 {
      var init, x := ss[..|ss| - 1], ss[|ss| - 1];
      CapacityViolationsCount(init);
      assert ss == init + [x];
      CountAppend(init, [x], OverCapacity);
    }
  }

  /** Every section over capacity is reported. */
  lemma {:induction false} CapacityViolationsComplete(ss: seq<Section>, i: nat)
    requires i < |ss| && OverCapacity(ss[i])
    ensures CapacityViolation(ss[i]) in CapacityViolations(ss)
  {
    if i < |ss| - 1 {
      var init := ss[..|ss| - 1];
      assert init[i] == ss[i];
      CapacityViolationsComplete(init, i);
    }
  }

  /** Every report is a `RoomCapacity` error for some section over capacity. */
  lemma {:induction false} CapacityViolationsSound(ss: seq<Section>, v: Violation)
    requires v in CapacityViolations(ss)
    ensures v.constraint == "RoomCapacity" && v.severity == Error
    ensures exists i :: 0 <= i < |ss| && OverCapacity(ss[i]) && v == CapacityViolation(ss[i])
  {
    var init := ss[..|ss| - 1];
    if v in CapacityViolations(init) {
      CapacityViolationsSound(init, v);
      var i :| 0 <= i < |init| && OverCapacity(init[i]) && v == CapacityViolation(init[i]);
      assert ss[i] == init[i];
    }
  }
}
