/** Phase 5 of the scheduler: bounded rounds in which, course by course, one student moves
    from the fullest section to the emptiest one when their enrolments differ by more than
    one and the move clashes with nothing else the student attends. */
module Optimizer {
  import opened Wrappers
  import opened Ids
  import opened Seqs
  import opened Periods
  import opened Sections
  import opened Schedules
  import opened StableSort

  /** `MAX_ITERATIONS`: the number of rounds is bounded. */
  const MaxIterations: nat := 100

  /** student id -> the periods the student occupies, as the optimizer tracks them. */
  type StudentSchedules = map<StudentId, set<Period>>

  /** A move of `student` from section `from` to section `to`. */
  datatype Move = Move(student: StudentId, from: nat, to: nat)

  /** Some section enrols the student. */
  predicate Enrolled(ss: seq<Section>, id: StudentId) {
    exists i :: 0 <= i < |ss| && id in ss[i].enrolled
  }

  /** The tracked schedules describe `ss`: one entry per enrolled student, holding the
      periods of the sections that enrol it. */
  ghost predicate Accurate(m: StudentSchedules, ss: seq<Section>) {
    && (forall id :: id in m <==> Enrolled(ss, id))
    && (forall id :: id in m ==> m[id] == StudentPeriods(ss, id))
  }

  /** The inner loop of the schedule build: each listed student gets an entry, which
      gains the periods `ps`. */
  method AddPeriods(m: StudentSchedules, ids: seq<StudentId>, ps: set<Period>) returns (r: StudentSchedules)
    ensures forall id :: id in r <==> id in m || id in ids
    ensures forall id :: id in r ==> r[id] == (if id in m then m[id] else {}) + (if id in ids then ps else {})
  {
    r := m;
    for j := 0 to |ids|
      invariant forall id :: id in r <==> id in m || id in ids[..j]
      invariant forall id :: id in r ==> r[id] == (if id in m then m[id] else {}) + (if id in ids[..j] then ps else {})
    {
      var id := ids[j];
      r := r[id := (if id in r then r[id] else {}) + ps];
      assert ids[..j + 1] == ids[..j] + [id];
    }
    assert ids[..|ids|] == ids;
  }

  /** The first loop of `optimize_section_balance`: the schedule of every enrolled
      student, built section by section. */
  method BuildStudentSchedules(sections: array<Section>) returns (m: StudentSchedules)
    ensures Accurate(m, sections[..])
  {
    m := map[];
    for i := 0 to sections.Length
      invariant Accurate(m, sections[..i])
    {
      var sec := sections[i];
      var m' := AddPeriods(m, sec.enrolled, PeriodSet(sec.periods));
      AccurateSnoc(m, sections[..i], sec, m');
      assert sections[..i + 1] == sections[..i] + [sec];
      m := m';
    }
    assert sections[..sections.Length] == sections[..];
  }

  lemma NotEnrolledNoPeriods(ss: seq<Section>, id: StudentId)
    requires !Enrolled(ss, id)
    ensures StudentPeriods(ss, id) == {}
  {
    forall p | p in StudentPeriods(ss, id)
      ensures false
    {
      StudentPeriodsHas(ss, id, p);
    }
  }

  lemma AccurateSnoc(m: StudentSchedules, ss: seq<Section>, x: Section, r: StudentSchedules)
    requires Accurate(m, ss)
    requires forall id :: id in r <==> id in m || id in x.enrolled
    requires forall id :: id in r ==> r[id] == (if id in m then m[id] else {}) + (if id in x.enrolled then PeriodSet(x.periods) else {})
    ensures Accurate(r, ss + [x])
  {
    var ss' := ss + [x];
    assert ss'[..|ss|] == ss && ss'[|ss|] == x;
    forall id
      ensures Enrolled(ss', id) <==> Enrolled(ss, id) || id in x.enrolled
    {
      if Enrolled(ss, id) {
        var i :| 0 <= i < |ss| && id in ss[i].enrolled;
        assert ss'[i] == ss[i];
      }
    }
    forall id | id in r
      ensures r[id] == StudentPeriods(ss', id)
    {
      if id !in m {
        NotEnrolledNoPeriods(ss, id);
      }
    }
  }

  /** `can_move_student`: the target has a free seat, and none of its periods is one the
      student holds outside the periods of the section it leaves; a student without an
      entry is checked for the seat only. */
  predicate CanMove(id: StudentId, from: nat, to: nat, ss: seq<Section>, m: StudentSchedules)
    requires from < |ss| && to < |ss|
  {
    !ss[to].IsFull() && (id in m ==> forall p :: p in ss[to].periods ==> p !in m[id] || p in ss[from].periods)
  }

  /** The target meets at a period when the student attends another section, at a period
      the section it leaves does not hold. */
  predicate Clash(ss: seq<Section>, id: StudentId, from: nat, to: nat)
    requires to < |ss| && from < |ss|
  {
    exists k, p :: 0 <= k < |ss| && id in ss[k].enrolled && p in ss[k].periods && p in ss[to].periods && p !in ss[from].periods
  }

  /** While the schedules are accurate, the check allows a move exactly when the target
      has a free seat and does not clash with the student's other sections. */
  lemma CanMoveMeans(id: StudentId, from: nat, to: nat, ss: seq<Section>, m: StudentSchedules)
    requires Accurate(m, ss) && from < |ss| && to < |ss|
    ensures CanMove(id, from, to, ss, m) <==> !ss[to].IsFull() && !Clash(ss, id, from, to)
  {
    if id in m {
      if Clash(ss, id, from, to) {
        var k, p :| 0 <= k < |ss| && id in ss[k].enrolled && p in ss[k].periods && p in ss[to].periods && p !in ss[from].periods;
        StudentPeriodsHas(ss, id, p);
      }
      forall p | p in ss[to].periods && p in m[id] && p !in ss[from].periods
        ensures Clash(ss, id, from, to)
      {
        StudentPeriodsHas(ss, id, p);
      }
    }
  }

  /** The sections after `move_student`: the student leaves `from`, then joins `to`. */
  function Moved(ss: seq<Section>, id: StudentId, from: nat, to: nat): (r: seq<Section>)
    requires from < |ss| && to < |ss|
    ensures |r| == |ss|
  {
    var a := ss[from := ss[from].Unenroll(id)];
    a[to := a[to].Enroll(id)]
  }

  /** A move changes only the enrolment of the two sections: the student is in the
      section joined and, when the two differ, no longer in the one left; the section
      joined grows by at most one and the one left does not grow. */
  lemma MovedFacts(ss: seq<Section>, id: StudentId, from: nat, to: nat)
    requires from < |ss| && to < |ss|
    ensures var r := Moved(ss, id, from, to);
            && (forall k :: 0 <= k < |ss| ==> r[k] == ss[k].(enrolled := r[k].enrolled))
            && (forall k :: 0 <= k < |ss| && k != from && k != to ==> r[k] == ss[k])
            && r[to].HasStudent(id) && (from != to ==> !r[from].HasStudent(id))
            && r[to].Enrollment() <= ss[to].Enrollment() + 1
            && (from != to ==> r[from].Enrollment() <= ss[from].Enrollment())
  {
  }

  /** The schedule entry after `move_student`, when the student has one: the periods of
      the section left are dropped, those of the section joined added. */
  function Retracked(m: StudentSchedules, id: StudentId, fromPeriods: seq<Period>, toPeriods: seq<Period>)
    : StudentSchedules
  {
    if id in m then m[id := (m[id] - PeriodSet(fromPeriods)) + PeriodSet(toPeriods)] else m
  }

  /** Only the moved student's entry changes: a period of the section left is gone from it
      unless the section joined meets then too, and every period of the section joined is
      in it. A student without an entry gets none. */
  lemma RetrackedFacts(m: StudentSchedules, id: StudentId, fromPeriods: seq<Period>, toPeriods: seq<Period>)
    ensures var r := Retracked(m, id, fromPeriods, toPeriods);
            && r.Keys == m.Keys
            && (forall other :: other in m && other != id ==> r[other] == m[other])
            && (id in m ==> forall p :: p in r[id] <==> (p in m[id] && p !in fromPeriods) || p in toPeriods)
  {
  }

  /** `move_student`. */
  method MoveStudent(id: StudentId, from: nat, to: nat, sections: array<Section>, m: StudentSchedules)
    returns (m': StudentSchedules)
    requires from < sections.Length && to < sections.Length
    modifies sections
    ensures sections[..] == Moved(old(sections[..]), id, from, to)
    ensures m' == Retracked(m, id, old(sections[from].periods), old(sections[to].periods))
  {
    var fromPeriods := PeriodSet(sections[from].periods);
    var toPeriods := PeriodSet(sections[to].periods);
    sections[from] := sections[from].Unenroll(id);
    sections[to] := sections[to].Enroll(id);
    m' := m;
    if id in m {
      var schedule := DropPeriods(m[id], fromPeriods);
      m' := m[id := schedule + toPeriods];
    }
  }

  /** The `remove` loop of `move_student`. */
  method DropPeriods(schedule: set<Period>, periods: set<Period>) returns (r: set<Period>)
    ensures r == schedule - periods
  {
    r := schedule;
    var rest := periods;
    while rest != {}
      invariant rest <= periods
      invariant r == schedule - (periods - rest)
      decreases |rest|
    {
      var p :| p in rest;
      r := r - {p};
      rest := rest - {p};
    }
  }

  /** Sort key of a section index: the section's enrolment. */
  function EnrollmentKey(ss: seq<Section>): nat -> Key {
    (k: nat) => if k < |ss| then Key(ss[k].Enrollment(), 0) else Key(0, 0)
  }

  /** Smallest and largest section of a course: the first and the last index once the
      indices are sorted, stably, by enrolment. */
  function Ends(ss: seq<Section>, indices: seq<nat>): (r: (nat, nat))
    requires |indices| > 0
    ensures r.0 in indices && r.1 in indices
  {
    var sorted := SortByKey(indices, EnrollmentKey(ss));
    assert sorted[0] in multiset(indices) && sorted[|sorted| - 1] in multiset(indices);
    (sorted[0], sorted[|sorted| - 1])
  }

  /** The smallest section has the least enrolment of the course, the largest the
      greatest. */
  lemma EndsBounds(ss: seq<Section>, indices: seq<nat>, lo: nat, hi: nat)
    requires |indices| > 0 && InRange(indices, |ss|) && (lo, hi) == Ends(ss, indices)
    ensures forall k :: k in indices ==> ss[lo].Enrollment() <= ss[k].Enrollment() <= ss[hi].Enrollment()
  {
    var key := EnrollmentKey(ss);
    var sorted := SortByKey(indices, key);
    SortSorted(indices, key);
    forall k | k in indices
      ensures ss[lo].Enrollment() <= ss[k].Enrollment() <= ss[hi].Enrollment()
    {
      assert k in multiset(sorted);
      var j :| 0 <= j < |sorted| && sorted[j] == k;
      assert KeyLe(key(sorted[0]), key(sorted[j])) || j == 0;
      assert KeyLe(key(sorted[j]), key(sorted[|sorted| - 1])) || j == |sorted| - 1;
    }
  }

  /** Ties go by position: the smallest section comes no later than any other of its
      enrolment, the largest no earlier than any other of its enrolment. */
  lemma EndsTies(ss: seq<Section>, indices: seq<nat>, lo: nat, hi: nat)
    requires |indices| > 0 && InRange(indices, |ss|) && (lo, hi) == Ends(ss, indices)
    ensures forall j :: 0 <= j < |indices| && ss[indices[j]].Enrollment() == ss[lo].Enrollment() ==> lo in indices[..j + 1]
    ensures forall j :: 0 <= j < |indices| && ss[indices[j]].Enrollment() == ss[hi].Enrollment() ==> hi in indices[j..]
  {
    var key := EnrollmentKey(ss);
    var sorted := SortByKey(indices, key);
    WithKeyFirst(sorted, key, key(lo), 0);
    WithKeyLast(sorted, key, key(hi), |sorted| - 1);
    SortStable(indices, key, key(lo));
    SortStable(indices, key, key(hi));
    forall j | 0 <= j < |indices| && ss[indices[j]].Enrollment() == ss[lo].Enrollment()
      ensures lo in indices[..j + 1]
    {
      assert key(indices[j]) == key(lo);
      WithKeyHeadBefore(indices, key, key(lo), j);
    }
    forall j | 0 <= j < |indices| && ss[indices[j]].Enrollment() == ss[hi].Enrollment()
      ensures hi in indices[j..]
    {
      assert key(indices[j]) == key(hi);
      WithKeyLastAfter(indices, key, key(hi), j);
    }
  }

  /** The position of the first student of the list that may move. */
  function FirstMovable(students: seq<StudentId>, from: nat, to: nat, ss: seq<Section>, m: StudentSchedules)
    : (r: Option<nat>)
    requires from < |ss| && to < |ss|
    ensures r.None? <==> forall j :: 0 <= j < |students| ==> !CanMove(students[j], from, to, ss, m)
    ensures r.Some? ==> r.value < |students| && CanMove(students[r.value], from, to, ss, m)
    ensures r.Some? ==> forall j :: 0 <= j < r.value ==> !CanMove(students[j], from, to, ss, m)
  {
    if |students| == 0 then None
    else if CanMove(students[0], from, to, ss, m) then Some(0)
    else
      assert forall j :: 1 <= j < |students| ==> students[j] == students[1..][j - 1];
      match FirstMovable(students[1..], from, to, ss, m)
      case None => None
      case Some(j) => Some(j + 1)
  }

  predicate InRange(indices: seq<nat>, n: nat) {
    forall i :: 0 <= i < |indices| ==> indices[i] < n
  }

  /** What one course does in a round: with at least two sections whose largest and
      smallest enrolments differ by more than one, the first student of the largest
      section that may move goes to the smallest. */
  function CourseMove(ss: seq<Section>, m: StudentSchedules, indices: seq<nat>): Option<Move>
    requires InRange(indices, |ss|)
  {
    if |indices| < 2 then None
    else
      var (lo, hi) := Ends(ss, indices);
      if ss[hi].Enrollment() - ss[lo].Enrollment() <= 1 then None
      else match FirstMovable(ss[hi].enrolled, hi, lo, ss, m)
        case None => None
        case Some(j) => Some(Move(ss[hi].enrolled[j], hi, lo))
  }

  /** A course moves a student only between two of its sections, from one of greatest
      enrolment to one of least, when these differ by more than one; the student attends
      the section left and may move there. */
  lemma CourseMoveSome(ss: seq<Section>, m: StudentSchedules, indices: seq<nat>)
    requires InRange(indices, |ss|) && CourseMove(ss, m, indices).Some?
    ensures var mv := CourseMove(ss, m, indices).value;
            && mv.from in indices && mv.to in indices && mv.from != mv.to
            && ss[mv.from].Enrollment() > ss[mv.to].Enrollment() + 1
            && (forall k :: k in indices ==> ss[mv.to].Enrollment() <= ss[k].Enrollment() <= ss[mv.from].Enrollment())
            && mv.student in ss[mv.from].enrolled
            && CanMove(mv.student, mv.from, mv.to, ss, m)
  {
    var (lo, hi) := Ends(ss, indices);
    EndsBounds(ss, indices, lo, hi);
  }

  /** A course makes no move exactly when it has fewer than two sections, its largest and
      smallest differ by at most one, or nobody in the largest may move. */
  lemma CourseMoveNone(ss: seq<Section>, m: StudentSchedules, indices: seq<nat>)
    requires InRange(indices, |ss|)
    ensures CourseMove(ss, m, indices).None? <==>
              || |indices| < 2
              || (var (lo, hi) := Ends(ss, indices);
                  || ss[hi].Enrollment() - ss[lo].Enrollment() <= 1
                  || forall j :: 0 <= j < |ss[hi].enrolled| ==> !CanMove(ss[hi].enrolled[j], hi, lo, ss, m))
  {
  }

  /** One course of a round: the body of the loop over `sections_by_course`. */
  method BalanceCourse(sections: array<Section>, m: StudentSchedules, indices: seq<nat>)
    returns (m': StudentSchedules, moved: Option<Move>)
    requires InRange(indices, sections.Length)
    modifies sections
    ensures moved == CourseMove(old(sections[..]), m, indices)
    ensures moved.None? ==> sections[..] == old(sections[..]) && m' == m
    ensures moved.Some? ==>
              && moved.value.from < sections.Length && moved.value.to < sections.Length
              && sections[..] == Moved(old(sections[..]), moved.value.student, moved.value.from, moved.value.to)
              && m' == Retracked(m, moved.value.student, old(sections[moved.value.from].periods), old(sections[moved.value.to].periods))
  {
    m', moved := m, None;
    if |indices| < 2 {
      return;
    }
    var (lo, hi) := Ends(sections[..], indices);
    if sections[hi].Enrollment() - sections[lo].Enrollment() <= 1 {
      return;
    }
    var j := FindMovable(sections[hi].enrolled, hi, lo, sections[..], m);
    if j.Some? {
      var id := sections[hi].enrolled[j.value];
      m' := MoveStudent(id, hi, lo, sections, m);
      moved := Some(Move(id, hi, lo));
    }
  }

  /** The loop over the largest section's students, stopping at the first that may move. */
  method FindMovable(students: seq<StudentId>, from: nat, to: nat, ss: seq<Section>, m: StudentSchedules)
    returns (r: Option<nat>)
    requires from < |ss| && to < |ss|
    ensures r == FirstMovable(students, from, to, ss, m)
  {
    for j := 0 to |students|
      invariant forall q :: 0 <= q < j ==> !CanMove(students[q], from, to, ss, m)
    {
      if CanMove(students[j], from, to, ss, m) {
        return Some(j);
      }
    }
    return None;
  }

  /** Sections keep everything but their enrolment, and none that was within its capacity
      goes past it. */
  predicate Kept(ss0: seq<Section>, ss: seq<Section>) {
    && |ss| == |ss0|
    && (forall k :: 0 <= k < |ss| ==> ss[k] == ss0[k].(enrolled := ss[k].enrolled))
    && (forall k :: 0 <= k < |ss| && ss0[k].Enrollment() <= ss0[k].capacity ==> ss[k].Enrollment() <= ss[k].capacity)
  }

  lemma KeptTrans(a: seq<Section>, b: seq<Section>, c: seq<Section>)
    requires Kept(a, b) && Kept(b, c)
    ensures Kept(a, c)
  {
  }

  /** A move into a section with a free seat keeps every section within its capacity. */
  lemma MoveKept(ss: seq<Section>, id: StudentId, from: nat, to: nat)
    requires from < |ss| && to < |ss| && from != to && !ss[to].IsFull()
    ensures Kept(ss, Moved(ss, id, from, to))
  {
    MovedFacts(ss, id, from, to);
  }

  /** A move joins two different sections of one course. */
  predicate MoveOk(ss: seq<Section>, mv: Move) {
    mv.from < |ss| && mv.to < |ss| && mv.from != mv.to && ss[mv.from].courseId == ss[mv.to].courseId
  }

  /** The groups hold, for each course, indices of sections of that course. */
  ghost predicate GroupsOf(groups: map<CourseId, seq<nat>>, ss: seq<Section>) {
    forall c, i :: 0 <= i < |Group(groups, c)| ==> Group(groups, c)[i] < |ss| && ss[Group(groups, c)[i]].courseId == c
  }

  lemma GroupsInRange(groups: map<CourseId, seq<nat>>, ss: seq<Section>)
    requires GroupsOf(groups, ss)
    ensures forall c :: InRange(Group(groups, c), |ss|)
  {
  }

  /** The optimizer's working state: the sections and the schedules it tracks. */
  datatype State = State(ss: seq<Section>, m: StudentSchedules)

  /** `move_student` on the state: the sections after `Moved`, the student's entry after
      `Retracked`. A move naming a section out of range changes nothing. */
  function Perform(st: State, mv: Move): (r: State)
    ensures |r.ss| == |st.ss|
  {
    if mv.from < |st.ss| && mv.to < |st.ss| then
      State(Moved(st.ss, mv.student, mv.from, mv.to),
            Retracked(st.m, mv.student, st.ss[mv.from].periods, st.ss[mv.to].periods))
    else st
  }

  /** The moves performed one after another. */
  function ApplyMoves(st: State, moves: seq<Move>): (r: State)
    ensures |r.ss| == |st.ss|
  {
    if |moves| == 0 then st else Perform(ApplyMoves(st, moves[..|moves| - 1]), moves[|moves| - 1])
  }

  lemma ApplySnoc(st: State, moves: seq<Move>, mv: Move)
    ensures ApplyMoves(st, moves + [mv]) == Perform(ApplyMoves(st, moves), mv)
  {
    assert (moves + [mv])[..|moves|] == moves;
  }

  /** Performing `a` then `b` is performing `a + b`. */
  lemma {:induction false} ApplyAppend(st: State, a: seq<Move>, b: seq<Move>)
    ensures ApplyMoves(st, a + b) == ApplyMoves(ApplyMoves(st, a), b)
    decreases |b|
  {
    if |b| > 0 {
      var init := b[..|b| - 1];
      assert (a + b)[..|a + b| - 1] == a + init;
      ApplyAppend(st, a, init);
    } else {
      assert a + b == a;
    }
  }

  /** `ApplyAppend` with the intermediate and final states named. */
  lemma ApplyChain(st: State, mid: State, a: seq<Move>, b: seq<Move>, end: State)
    requires mid == ApplyMoves(st, a) && end == ApplyMoves(mid, b)
    ensures end == ApplyMoves(st, a + b)
  {
    ApplyAppend(st, a, b);
  }

  /** The move course `c` makes from state `st`. */
  function CourseStep(st: State, groups: map<CourseId, seq<nat>>, c: CourseId): Option<Move> {
    if InRange(Group(groups, c), |st.ss|) then CourseMove(st.ss, st.m, Group(groups, c)) else None
  }

  /** The moves of one round: each course in turn makes its move, if any, on the state
      the courses before it left. */
  function RoundMoves(st: State, groups: map<CourseId, seq<nat>>, courses: seq<CourseId>): seq<Move>
    decreases |courses|
  {
    if |courses| == 0 then []
    else
      var prev := RoundMoves(st, groups, courses[..|courses| - 1]);
      match CourseStep(ApplyMoves(st, prev), groups, courses[|courses| - 1])
      case None => prev
      case Some(mv) => prev + [mv]
  }

  lemma RoundMovesStep(st: State, groups: map<CourseId, seq<nat>>, courses: seq<CourseId>, i: nat)
    requires i < |courses|
    ensures var prev := RoundMoves(st, groups, courses[..i]);
            RoundMoves(st, groups, courses[..i + 1])
            == match CourseStep(ApplyMoves(st, prev), groups, courses[i])
               case None => prev
               case Some(mv) => prev + [mv]
  {
    assert courses[..i + 1][..i] == courses[..i];
  }

  /** Course `i`'s turn in a round: its move, if any, extends the round's moves so far,
      and the state after it is those moves performed in order. */
  lemma TurnStep(st0: State, groups: map<CourseId, seq<nat>>, courses: seq<CourseId>, i: nat,
                 news: seq<Move>, cur: State, moved: Option<Move>, after: State)
    requires i < |courses| && news == RoundMoves(st0, groups, courses[..i]) && cur == ApplyMoves(st0, news)
    requires moved == CourseStep(cur, groups, courses[i])
    requires moved.None? ==> after == cur
    requires moved.Some? ==> after == Perform(cur, moved.value)
    ensures var next := if moved.Some? then news + [moved.value] else news;
            next == RoundMoves(st0, groups, courses[..i + 1]) && after == ApplyMoves(st0, next)
  {
    RoundMovesStep(st0, groups, courses, i);
    if moved.Some? {
      ApplySnoc(st0, news, moved.value);
    }
  }

  /** What one round yields: the moves it makes and the state it leaves. */
  datatype RoundResult = RoundResult(moves: seq<Move>, after: State)

  /** The round over `courses` as a function of the state it starts from. */
  function RoundOf(groups: map<CourseId, seq<nat>>, courses: seq<CourseId>): State -> RoundResult {
    st => RoundResult(RoundMoves(st, groups, courses), ApplyMoves(st, RoundMoves(st, groups, courses)))
  }

  /** `round` is the round over `courses`. */
  ghost predicate IsRoundOf(round: State -> RoundResult, groups: map<CourseId, seq<nat>>, courses: seq<CourseId>) {
    forall st: State {:trigger RoundMoves(st, groups, courses)} ::
      round(st) == RoundResult(RoundMoves(st, groups, courses), ApplyMoves(st, RoundMoves(st, groups, courses)))
  }

  /** The outcome of the round loop: the moves made, the rounds run, whether the last
      round made no move, and the state reached. */
  datatype Outcome = Outcome(moves: seq<Move>, rounds: nat, quiet: bool, final: State)

  /** The round loop of `optimize_section_balance` with `fuel` rounds left: a round without
      a move ends it; otherwise the next round starts from the state the round left. */
  function Run(st: State, round: State -> RoundResult, fuel: nat): Outcome
    decreases fuel
  {
    if fuel == 0 then Outcome([], 0, false, st)
    else
      var p := round(st);
      if p.moves == [] then Outcome([], 1, true, st)
      else
        var rest := Run(p.after, round, fuel - 1);
        Outcome(p.moves + rest.moves, rest.rounds + 1, rest.quiet, rest.final)
  }

  /** `moves` and `rounds` already done, followed by the outcome `o` of the rest. */
  function After(moves: seq<Move>, rounds: nat, o: Outcome): Outcome {
    Outcome(moves + o.moves, rounds + o.rounds, o.quiet, o.final)
  }

  /** Before the first round nothing is done and the whole run is left. */
  lemma RunStart(st: State, round: State -> RoundResult)
    ensures Run(st, round, MaxIterations) == After([], 0, Run(st, round, MaxIterations - 0))
  {
    var o := Run(st, round, MaxIterations);
    assert [] + o.moves == o.moves;
  }

  /** One round of the loop over rounds, from `cur`, reached by `moves` after `r` rounds:
      a round without a move ends the run in `cur`; otherwise the run goes on from the
      state the round leaves. */
  lemma RoundDone(st0: State, cur: State, round: State -> RoundResult, moves: seq<Move>, r: nat)
    requires r < MaxIterations
    requires Run(st0, round, MaxIterations) == After(moves, r, Run(cur, round, MaxIterations - r))
    ensures round(cur).moves == [] ==> Run(st0, round, MaxIterations) == Outcome(moves, r + 1, true, cur)
    ensures round(cur).moves != [] ==>
              Run(st0, round, MaxIterations)
              == After(moves + round(cur).moves, r + 1, Run(round(cur).after, round, MaxIterations - (r + 1)))
  {
    var p := round(cur);
    if p.moves == [] {
      assert moves + [] == moves;
    } else {
      var rest := Run(p.after, round, MaxIterations - r - 1);
      assert moves + (p.moves + rest.moves) == (moves + p.moves) + rest.moves;
    }
  }

  lemma GroupInRange(groups: map<CourseId, seq<nat>>, ss: seq<Section>, c: CourseId)
    requires GroupsOf(groups, ss)
    ensures InRange(Group(groups, c), |ss|)
  {
  }

  /** A round moves at most one student per course. */
  lemma {:induction false} RoundCount(st: State, groups: map<CourseId, seq<nat>>, courses: seq<CourseId>)
    ensures |RoundMoves(st, groups, courses)| <= |courses|
    decreases |courses|
  {
    if |courses| > 0 {
      RoundCount(st, groups, courses[..|courses| - 1]);
    }
  }

  /** A round keeps every section within its capacity, and moves each student between two
      sections of one course. */
  lemma {:induction false} RoundKept(st: State, groups: map<CourseId, seq<nat>>, courses: seq<CourseId>)
    requires GroupsOf(groups, st.ss)
    ensures var news := RoundMoves(st, groups, courses);
            && Kept(st.ss, ApplyMoves(st, news).ss)
            && (forall mv :: mv in news ==> MoveOk(st.ss, mv))
    decreases |courses|
  {
    if |courses| > 0 {
      var init, c := courses[..|courses| - 1], courses[|courses| - 1];
      RoundKept(st, groups, init);
      var prev := RoundMoves(st, groups, init);
      var cur := ApplyMoves(st, prev);
      GroupsKept(groups, st.ss, cur.ss);
      GroupInRange(groups, cur.ss, c);
      var step := CourseMove(cur.ss, cur.m, Group(groups, c));
      if step.Some? {
        var mv := step.value;
        CourseMoveSome(cur.ss, cur.m, Group(groups, c));
        RoundStep(st.ss, cur.ss, Perform(cur, mv).ss, cur.m, groups, c, mv);
        ApplySnoc(st, prev, mv);
      }
    }
  }

  /** A round makes no move only when every course is quiet. */
  lemma {:induction false} RoundQuiet(st: State, groups: map<CourseId, seq<nat>>, courses: seq<CourseId>)
    requires GroupsOf(groups, st.ss)
    ensures RoundMoves(st, groups, courses) == [] ==> forall c :: c in courses ==> Quiet(st.ss, st.m, groups, c)
    decreases |courses|
  {
    if |courses| > 0 && RoundMoves(st, groups, courses) == [] {
      var init, c := courses[..|courses| - 1], courses[|courses| - 1];
      var prev := RoundMoves(st, groups, init);
      GroupInRange(groups, st.ss, c);
      assert prev == [];
      RoundQuiet(st, groups, init);
      forall q | q in courses
        ensures Quiet(st.ss, st.m, groups, q)
      {
        if q != c {
          assert q in init;
        }
      }
    }
  }

  /** Every round moves at most `n` students. */
  ghost predicate MovesAtMost(round: State -> RoundResult, n: nat) {
    forall st :: |round(st).moves| <= n
  }

  /** Every round leaves the state its moves, performed in order, leave. */
  ghost predicate Performs(round: State -> RoundResult) {
    forall st :: round(st).after == ApplyMoves(st, round(st).moves)
  }

  /** From sections grouped by `groups`, every round keeps every section within its
      capacity and moves each student between two sections of one course. */
  ghost predicate KeepsSections(round: State -> RoundResult, groups: map<CourseId, seq<nat>>) {
    forall st: State {:trigger GroupsOf(groups, st.ss)} :: GroupsOf(groups, st.ss) ==>
      && Kept(st.ss, round(st).after.ss)
      && (forall mv :: mv in round(st).moves ==> MoveOk(st.ss, mv))
  }

  /** From sections grouped by `groups`, a round makes no move only when each course in
      `courses` is quiet. */
  ghost predicate QuietWhenStill(round: State -> RoundResult, groups: map<CourseId, seq<nat>>, courses: seq<CourseId>) {
    forall st: State {:trigger GroupsOf(groups, st.ss)} ::
      GroupsOf(groups, st.ss) && round(st).moves == [] ==> forall c :: c in courses ==> Quiet(st.ss, st.m, groups, c)
  }

  /** The round over the courses has the four properties. */
  lemma RoundOfFacts(groups: map<CourseId, seq<nat>>, courses: seq<CourseId>)
    ensures MovesAtMost(RoundOf(groups, courses), |courses|)
    ensures Performs(RoundOf(groups, courses))
    ensures KeepsSections(RoundOf(groups, courses), groups)
    ensures QuietWhenStill(RoundOf(groups, courses), groups, courses)
  {
    var round := RoundOf(groups, courses);
    forall st
      ensures |round(st).moves| <= |courses|
    {
      RoundCount(st, groups, courses);
    }
    forall st: State | GroupsOf(groups, st.ss)
      ensures Kept(st.ss, round(st).after.ss) && forall mv :: mv in round(st).moves ==> MoveOk(st.ss, mv)
    {
      RoundKept(st, groups, courses);
    }
    forall st: State | GroupsOf(groups, st.ss) && round(st).moves == []
      ensures forall c :: c in courses ==> Quiet(st.ss, st.m, groups, c)
    {
      RoundQuiet(st, groups, courses);
    }
  }

  /** The rounds run at most `fuel` rounds, all of them unless one is quiet, and move at
      most `n` students per round. */
  lemma {:induction false} RunCounts(st: State, round: State -> RoundResult, n: nat, fuel: nat)
    requires MovesAtMost(round, n)
    ensures Run(st, round, fuel).rounds <= fuel
    ensures !Run(st, round, fuel).quiet ==> Run(st, round, fuel).rounds == fuel
    ensures |Run(st, round, fuel).moves| <= Times(Run(st, round, fuel).rounds, n)
    decreases fuel
  {
    if fuel > 0 {
      var p := round(st);
      assert |p.moves| <= n;
      if p.moves != [] {
        RunCounts(p.after, round, n, fuel - 1);
      }
    }
  }

  /** The state a run reaches is its moves performed in order. */
  lemma {:induction false} RunApplies(st: State, round: State -> RoundResult, fuel: nat)
    requires Performs(round)
    ensures Run(st, round, fuel).final == ApplyMoves(st, Run(st, round, fuel).moves)
    decreases fuel
  {
    if fuel > 0 {
      var p := round(st);
      if p.moves == [] {
        assert Run(st, round, fuel).moves == [];
      } else {
        RunApplies(p.after, round, fuel - 1);
        var rest := Run(p.after, round, fuel - 1);
        ApplyChain(st, p.after, p.moves, rest.moves, rest.final);
        assert Run(st, round, fuel).moves == p.moves + rest.moves;
      }
    }
  }

  /** The rounds keep every section within its capacity and move each student between two
      sections of one course. */
  lemma {:induction false} RunKept(st: State, round: State -> RoundResult, groups: map<CourseId, seq<nat>>, fuel: nat)
    requires KeepsSections(round, groups) && GroupsOf(groups, st.ss)
    ensures Kept(st.ss, Run(st, round, fuel).final.ss)
    ensures forall mv :: mv in Run(st, round, fuel).moves ==> MoveOk(st.ss, mv)
    decreases fuel
  {
    var p := round(st);
    if fuel > 0 && p.moves != [] {
      assert Kept(st.ss, p.after.ss);
      GroupsKept(groups, st.ss, p.after.ss);
      RunKept(p.after, round, groups, fuel - 1);
      var rest := Run(p.after, round, fuel - 1);
      KeptChain(st.ss, p.after.ss, rest.final.ss, p.moves, rest.moves, Run(st, round, fuel).moves);
    }
  }

  /** The facts of `RunKept` for a round from `a` to `b` followed by a run from `b` to `c`. */
  lemma KeptChain(a: seq<Section>, b: seq<Section>, c: seq<Section>, news: seq<Move>, rest: seq<Move>, all: seq<Move>)
    requires Kept(a, b) && Kept(b, c) && all == news + rest
    requires forall mv :: mv in news ==> MoveOk(a, mv)
    requires forall mv :: mv in rest ==> MoveOk(b, mv)
    ensures Kept(a, c) && forall mv :: mv in all ==> MoveOk(a, mv)
  {
    KeptTrans(a, b, c);
    forall mv | mv in all
      ensures MoveOk(a, mv)
    {
      if mv !in news {
        assert MoveOk(b, mv);
      }
    }
  }

  /** A run that ends quietly ends in a state from which the round makes no move. */
  lemma {:induction false} RunQuietEnd(st: State, round: State -> RoundResult, fuel: nat)
    ensures Run(st, round, fuel).quiet ==> round(Run(st, round, fuel).final).moves == []
    decreases fuel
  {
    if fuel > 0 && round(st).moves != [] {
      RunQuietEnd(round(st).after, round, fuel - 1);
    }
  }

  /** When the last round is quiet, no course has a move left to make. */
  lemma RunSettled(st: State, round: State -> RoundResult, groups: map<CourseId, seq<nat>>,
                   courses: seq<CourseId>, fuel: nat)
    requires KeepsSections(round, groups) && QuietWhenStill(round, groups, courses)
    requires GroupsOf(groups, st.ss)
    requires forall c :: Group(groups, c) == IndicesWithCourse(st.ss, c)
    requires forall c :: c in groups ==> c in courses
    ensures Run(st, round, fuel).quiet ==> Settled(Run(st, round, fuel).final.ss, Run(st, round, fuel).final.m)
  {
    var o := Run(st, round, fuel);
    if o.quiet {
      RunKept(st, round, groups, fuel);
      RunQuietEnd(st, round, fuel);
      GroupsKept(groups, st.ss, o.final.ss);
      assert round(o.final).moves == [];
      QuietSettled(st.ss, o.final.ss, o.final.m, groups, courses);
    }
  }

  /** One round: every course in `courses`, in that order, may move one student. The round
      makes exactly the moves of `RoundMoves`, and the sections and schedules are those
      moves performed in order. */
  method BalanceRound(sections: array<Section>, m: StudentSchedules, courses: seq<CourseId>,
                      groups: map<CourseId, seq<nat>>) returns (m': StudentSchedules, improved: bool, ghost news: seq<Move>)
    requires GroupsOf(groups, sections[..])
    modifies sections
    ensures news == RoundMoves(State(old(sections[..]), m), groups, courses)
    ensures State(sections[..], m') == ApplyMoves(State(old(sections[..]), m), news)
    ensures improved <==> news != []
    ensures Kept(old(sections[..]), sections[..])
  {
    m', improved, news := m, false, [];
    ghost var st0 := State(sections[..], m);
    for i := 0 to |courses|
      invariant news == RoundMoves(st0, groups, courses[..i])
      invariant State(sections[..], m') == ApplyMoves(st0, news)
      invariant improved <==> news != []
    {
      ghost var cur := State(sections[..], m');
      GroupInRange(groups, st0.ss, courses[i]);
      var moved;
      m', moved := BalanceCourse(sections, m', Group(groups, courses[i]));
      ghost var after := State(sections[..], m');
      assert moved == CourseStep(cur, groups, courses[i]);
      assert moved.Some? ==> after == Perform(cur, moved.value);
      TurnStep(st0, groups, courses, i, news, cur, moved, after);
      if moved.Some? {
        improved := true;
        news := news + [moved.value];
      }
    }
    assert courses[..|courses|] == courses;
    RoundKept(st0, groups, courses);
  }

  /** Course `c` makes no move from `ss`. */
  ghost predicate Quiet(ss: seq<Section>, m: StudentSchedules, groups: map<CourseId, seq<nat>>, c: CourseId) {
    InRange(Group(groups, c), |ss|) && CourseMove(ss, m, Group(groups, c)).None?
  }

  lemma GroupsKept(groups: map<CourseId, seq<nat>>, a: seq<Section>, b: seq<Section>)
    requires GroupsOf(groups, a) && Kept(a, b)
    ensures GroupsOf(groups, b)
  {
    forall c, i | 0 <= i < |Group(groups, c)|
      ensures Group(groups, c)[i] < |b| && b[Group(groups, c)[i]].courseId == c
    {
      var k := Group(groups, c)[i];
      assert b[k] == a[k].(enrolled := b[k].enrolled);
    }
  }

  lemma RoundStep(ss0: seq<Section>, cur: seq<Section>, next: seq<Section>, m: StudentSchedules,
                  groups: map<CourseId, seq<nat>>, c: CourseId, mv: Move)
    requires Kept(ss0, cur) && GroupsOf(groups, cur) && InRange(Group(groups, c), |cur|)
    requires CourseMove(cur, m, Group(groups, c)) == Some(mv)
    requires mv.from < |cur| && mv.to < |cur| && next == Moved(cur, mv.student, mv.from, mv.to)
    ensures Kept(ss0, next) && MoveOk(ss0, mv)
  {
    CourseMoveSome(cur, m, Group(groups, c));
    MoveKept(cur, mv.student, mv.from, mv.to);
    KeptTrans(ss0, cur, next);
  }

  /** The course ids of the sections. */
  function CourseIds(ss: seq<Section>): set<CourseId> {
    set i | 0 <= i < |ss| :: ss[i].courseId
  }

  /** No course of `ss` has a move left to make: each has fewer than two sections, a gap
      of at most one, or nobody in its largest section allowed to move. */
  ghost predicate Settled(ss: seq<Section>, m: StudentSchedules) {
    forall c :: CourseMove(ss, m, IndicesWithCourse(ss, c)).None?
  }

  lemma {:induction false} IndicesKept(a: seq<Section>, b: seq<Section>, c: CourseId)
    requires |a| == |b| && forall k :: 0 <= k < |a| ==> a[k].courseId == b[k].courseId
    ensures IndicesWithCourse(a, c) == IndicesWithCourse(b, c)
  {
    if |a| > 0 {
      IndicesKept(a[..|a| - 1], b[..|b| - 1], c);
    }
  }

  lemma Grouping(groups: map<CourseId, seq<nat>>, ss: seq<Section>)
    requires forall c :: Group(groups, c) == IndicesWithCourse(ss, c)
    requires forall c :: c in groups <==> IndicesWithCourse(ss, c) != []
    ensures GroupsOf(groups, ss) && groups.Keys == CourseIds(ss)
  {
    forall c, i | 0 <= i < |Group(groups, c)|
      ensures Group(groups, c)[i] < |ss| && ss[Group(groups, c)[i]].courseId == c
    {
      assert Group(groups, c) == IndicesWithCourse(ss, c);
    }
    forall c | c in CourseIds(ss)
      ensures c in groups
    {
      var i :| 0 <= i < |ss| && ss[i].courseId == c;
      assert i in IndicesWithCourse(ss, c);
    }
    forall c | c in groups
      ensures c in CourseIds(ss)
    {
      var r := IndicesWithCourse(ss, c);
      assert r != [] && r[0] < |ss| && ss[r[0]].courseId == c;
    }
  }

  /** After a round without a move every course is quiet, so no move is left to make. */
  lemma QuietSettled(ss0: seq<Section>, ss: seq<Section>, m: StudentSchedules, groups: map<CourseId, seq<nat>>,
                     courses: seq<CourseId>)
    requires Kept(ss0, ss)
    requires forall c :: Group(groups, c) == IndicesWithCourse(ss0, c)
    requires forall c :: c in groups ==> c in courses
    requires forall c :: c in courses ==> Quiet(ss, m, groups, c)
    ensures Settled(ss, m)
  {
    forall c
      ensures CourseMove(ss, m, IndicesWithCourse(ss, c)).None?
    {
      IndicesKept(ss0, ss, c);
    }
  }

  /** `r * n`, counted up round by round. */
  function Times(r: nat, n: nat): nat {
    if r == 0 then 0 else Times(r - 1, n) + n
  }

  lemma {:induction false} TimesIsMul(r: nat, n: nat)
    ensures Times(r, n) == r * n
  {
    if r > 0 {
      TimesIsMul(r - 1, n);
    }
  }

  /** `optimize_section_balance`: the schedules of the enrolled students, the sections
      grouped by course, then at most `MaxIterations` rounds over the courses in the
      order the map yields them, stopping after the first round without a move. The
      initial schedules, that order, the groups and the optimizer's final schedules are
      returned beside the sections so that the result can be stated. */
  method OptimizeSectionBalance(sections: array<Section>)
    returns (ghost initial: StudentSchedules, ghost order: seq<CourseId>, ghost groups: map<CourseId, seq<nat>>,
             ghost rounds: nat, ghost moves: seq<Move>, ghost quiet: bool, ghost schedules: StudentSchedules)
    modifies sections
    ensures Accurate(initial, old(sections[..]))
    ensures Distinct(order) && forall c :: c in order <==> c in CourseIds(old(sections[..]))
    ensures forall c :: Group(groups, c) == IndicesWithCourse(old(sections[..]), c)
    ensures Run(State(old(sections[..]), initial), RoundOf(groups, order), MaxIterations)
            == Outcome(moves, rounds, quiet, State(sections[..], schedules))
    ensures State(sections[..], schedules) == ApplyMoves(State(old(sections[..]), initial), moves)
    ensures Kept(old(sections[..]), sections[..])
    ensures rounds <= MaxIterations && (!quiet ==> rounds == MaxIterations)
    ensures |moves| <= rounds * |CourseIds(old(sections[..]))|
    ensures forall mv :: mv in moves ==> MoveOk(old(sections[..]), mv)
    ensures quiet ==> Settled(sections[..], schedules)
  {
    ghost var ss0 := sections[..];
    var m := BuildStudentSchedules(sections);
    var sectionsByCourse := GroupByCourse(sections);
    var courses := Elements(sectionsByCourse.Keys);
    Grouping(sectionsByCourse, ss0);
    initial, order, groups := m, courses, sectionsByCourse;
    ghost var round := RoundOf(groups, courses);
    assert IsRoundOf(round, groups, courses);
    rounds, moves, quiet, schedules := RunRounds(sections, m, courses, sectionsByCourse, round);
    ghost var st0 := State(ss0, m);
    RoundOfFacts(groups, courses);
    RunApplies(st0, round, MaxIterations);
    RunCounts(st0, round, |courses|, MaxIterations);
    RunKept(st0, round, groups, MaxIterations);
    RunSettled(st0, round, groups, courses, MaxIterations);
    TimesIsMul(rounds, |courses|);
  }

  /** The loop over rounds of `optimize_section_balance`, given the round over `courses`:
      its moves, rounds and final state are those of `Run`. */
  method RunRounds(sections: array<Section>, m: StudentSchedules, courses: seq<CourseId>, groups: map<CourseId, seq<nat>>,
                   ghost round: State -> RoundResult)
    returns (ghost rounds: nat, ghost moves: seq<Move>, ghost quiet: bool, ghost schedules: StudentSchedules)
    requires IsRoundOf(round, groups, courses) && GroupsOf(groups, sections[..])
    modifies sections
    ensures Run(State(old(sections[..]), m), round, MaxIterations) == Outcome(moves, rounds, quiet, State(sections[..], schedules))
    ensures Kept(old(sections[..]), sections[..])
  {
    ghost var st0 := State(sections[..], m);
    var sched := m;
    rounds, moves, quiet := 0, [], false;
    assert State(sections[..], sched) == st0;
    RunStart(st0, round);
    for r := 0 to MaxIterations
      invariant rounds == r && !quiet
      invariant Run(st0, round, MaxIterations) == After(moves, r, Run(State(sections[..], sched), round, MaxIterations - r))
      invariant Kept(st0.ss, sections[..])
    {
      var improved;
      sched, improved, moves := NextRound(sections, sched, courses, groups, round, st0, moves, r);
      rounds := r + 1;
      if !improved {
        quiet := true;
        break;
      }
    }
    assert quiet || Run(State(sections[..], sched), round, 0) == Outcome([], 0, false, State(sections[..], sched));
    assert moves + [] == moves;
    schedules := sched;
  }

  /** One pass of the loop over rounds, after `r` rounds that made `moves` from `st0`: a
      round without a move ends the run; otherwise the run goes on with its moves added. */
  method NextRound(sections: array<Section>, sched: StudentSchedules, courses: seq<CourseId>,
                   groups: map<CourseId, seq<nat>>, ghost round: State -> RoundResult, ghost st0: State,
                   ghost moves: seq<Move>, ghost r: nat)
    returns (sched': StudentSchedules, improved: bool, ghost moves': seq<Move>)
    requires IsRoundOf(round, groups, courses)
    requires r < MaxIterations && GroupsOf(groups, st0.ss) && Kept(st0.ss, sections[..])
    requires Run(st0, round, MaxIterations)
             == After(moves, r, Run(State(sections[..], sched), round, MaxIterations - r))
    modifies sections
    ensures Kept(st0.ss, sections[..])
    ensures improved ==> Run(st0, round, MaxIterations)
                         == After(moves', r + 1, Run(State(sections[..], sched'), round, MaxIterations - (r + 1)))
    ensures !improved ==> Run(st0, round, MaxIterations) == Outcome(moves', r + 1, true, State(sections[..], sched'))
  {
    ghost var cur := State(sections[..], sched);
    GroupsKept(groups, st0.ss, cur.ss);
    ghost var news;
    sched', improved, news := BalanceRound(sections, sched, courses, groups);
    assert round(cur) == RoundResult(news, State(sections[..], sched'));
    RoundDone(st0, cur, round, moves, r);
    KeptTrans(st0.ss, cur.ss, sections[..]);
    moves' := if improved then moves + news else moves;
  }

  /** The time-conflict case from the module's tests: a student in `math-1` (slot 0) and
      `eng-1` (slot 1) may not move to `math-2` (slot 1). */
  lemma ConflictBlocksMove()
    ensures var week0 := seq(5, d requires 0 <= d < 5 => Period(d, 0));
            var week1 := seq(5, d requires 0 <= d < 5 => Period(d, 1));
            var ss := [Section("math-1", "math", None, None, week0, ["s1"], 30),
                       Section("math-2", "math", None, None, week1, [], 30),
                       Section("eng-1", "eng", None, None, week1, ["s1"], 30)];
            var m := map["s1" := PeriodSet(week0) + PeriodSet(week1)];
            !CanMove("s1", 0, 1, ss, m)
  {
    var week0 := seq(5, d requires 0 <= d < 5 => Period(d, 0));
    var week1 := seq(5, d requires 0 <= d < 5 => Period(d, 1));
    assert week1[0] == Period(0, 1) && Period(0, 1) !in week0;
    assert Period(0, 1) in PeriodSet(week1);
  }
}
