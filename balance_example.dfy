/** The balancing case from the optimizer's tests: six students in `math-1` (slot 0) and
    none in `math-2` (slot 1). Three rounds each move the first student of `math-1`; the
    fourth finds the two sections at three and three and ends the run. */
module BalanceExample {
  import opened Wrappers
  import opened Ids
  import opened Seqs
  import opened Periods
  import opened Sections
  import opened Schedules
  import opened Optimizer

  const Students: seq<StudentId> := ["s1", "s2", "s3", "s4", "s5", "s6"]

  /** Every day of the week at slot 0, and at slot 1. */
  const Week0: seq<Period> := [Period(0,0),Period(1,0),Period(2,0),Period(3,0),Period(4,0)]
  const Week1: seq<Period> := [Period(0,1),Period(1,1),Period(2,1),Period(3,1),Period(4,1)]

  /** The sections once the first `k` students have moved: `math-1` keeps the others in
      order, `math-2` has the movers in the order they came. */
  function SectionsAfter(k: nat): seq<Section>
    requires k <= |Students|
  {
    [Section("math-1", "math", None, None, Week0, Students[k..], 30),
     Section("math-2", "math", None, None, Week1, Students[..k], 30)]
  }

  /** The schedules the optimizer tracks once the first `k` students have moved. */
  function SchedulesAfter(k: nat): StudentSchedules
    requires k <= |Students|
  {
    map s | s in Students :: if s in Students[..k] then PeriodSet(Week1) else PeriodSet(Week0)
  }

  function Start(k: nat): State
    requires k <= |Students|
  {
    State(SectionsAfter(k), SchedulesAfter(k))
  }

  lemma StudentsDistinct()
    ensures Distinct(Students)
  {
  }

  lemma WeeksApart()
    ensures forall p :: p in Week1 ==> p !in Week0
  {
  }

  /** Taking the first student off `Students[k..]` leaves `Students[k + 1..]`. */
  lemma DropFirst(k: nat)
    requires k < |Students|
    ensures Without(Students[k..], Students[k]) == Students[k + 1..]
  {
    StudentsDistinct();
    assert Students[k + 1..] == Students[k..][1..];
    assert Students[k] !in Students[k + 1..];
    WithoutAbsent(Students[k + 1..], Students[k]);
  }

  /** The mover is not yet in `math-2`. */
  lemma NotMovedYet(k: nat)
    requires k < |Students|
    ensures Students[k] !in Students[..k]
    ensures Students[..k] + [Students[k]] == Students[..k + 1]
  {
    StudentsDistinct();
  }

  /** The schedule entry of the mover, before and after. */
  lemma SchedulesStep(k: nat)
    requires k < |Students|
    ensures Students[k] in SchedulesAfter(k) && SchedulesAfter(k)[Students[k]] == PeriodSet(Week0)
    ensures SchedulesAfter(k)[Students[k] := PeriodSet(Week1)] == SchedulesAfter(k + 1)
  {
    NotMovedYet(k);
    WeeksApart();
    var a := SchedulesAfter(k)[Students[k] := PeriodSet(Week1)];
    var b := SchedulesAfter(k + 1);
    assert a.Keys == b.Keys;
    forall s | s in a
      ensures a[s] == b[s]
    {
      if s != Students[k] {
        assert s in Students[..k + 1] <==> s in Students[..k] by {
          assert Students[..k + 1] == Students[..k] + [Students[k]];
        }
      }
    }
  }

  /** The mover has no period of slot 1, so nothing in `math-2` clashes. */
  lemma MoverFree(k: nat)
    requires k < |Students|
    ensures CanMove(Students[k], 0, 1, SectionsAfter(k), SchedulesAfter(k))
  {
    SchedulesStep(k);
    WeeksApart();
  }

  /** Smallest section `math-2`, largest `math-1`, while `math-1` holds more. */
  lemma EndsWhileUneven(k: nat)
    requires k < 3
    ensures Ends(SectionsAfter(k), [0, 1]) == (1, 0)
  {
    var ss := SectionsAfter(k);
    var (lo, hi) := Ends(ss, [0, 1]);
    EndsBounds(ss, [0, 1], lo, hi);
    assert ss[0].Enrollment() == 6 - k && ss[1].Enrollment() == k;
  }

  /** While `math-1` holds more than three, the course moves its first student. */
  lemma CourseMovesFirst(k: nat)
    requires k < 3
    ensures CourseMove(SectionsAfter(k), SchedulesAfter(k), [0, 1]) == Some(Move(Students[k], 0, 1))
  {
    var ss := SectionsAfter(k);
    EndsWhileUneven(k);
    MoverFree(k);
    assert ss[0].enrolled[0] == Students[k];
    assert FirstMovable(ss[0].enrolled, 0, 1, ss, SchedulesAfter(k)) == Some(0);
  }

  /** `math-1` loses its first student. */
  lemma LeavesFirst(k: nat)
    requires k < 3
    ensures SectionsAfter(k)[0].Unenroll(Students[k]) == SectionsAfter(k + 1)[0]
  {
    DropFirst(k);
  }

  /** `math-2` gains the student at its end. */
  lemma JoinsSecond(k: nat)
    requires k < 3
    ensures SectionsAfter(k)[1].Enroll(Students[k]) == SectionsAfter(k + 1)[1]
  {
    NotMovedYet(k);
  }

  /** The move takes the student out of `math-1` and adds them at the end of `math-2`. */
  lemma MovedFirst(k: nat)
    requires k < 3
    ensures Moved(SectionsAfter(k), Students[k], 0, 1) == SectionsAfter(k + 1)
  {
    LeavesFirst(k);
    JoinsSecond(k);
  }

  /** The mover's entry trades the periods of slot 0 for those of slot 1. */
  lemma RetrackedFirst(k: nat)
    requires k < 3
    ensures Retracked(SchedulesAfter(k), Students[k], Week0, Week1) == SchedulesAfter(k + 1)
  {
    SchedulesStep(k);
    assert (PeriodSet(Week0) - PeriodSet(Week0)) + PeriodSet(Week1) == PeriodSet(Week1);
  }

  /** The move leaves the state of `k + 1` moves done. */
  lemma PerformFirst(k: nat)
    requires k < 3
    ensures Perform(Start(k), Move(Students[k], 0, 1)) == Start(k + 1)
  {
    MovedFirst(k);
    RetrackedFirst(k);
  }

  /** While `math-1` holds more than three, the round's one move is its first student's. */
  lemma RoundMovesOne(groups: map<CourseId, seq<nat>>, k: nat)
    requires Group(groups, "math") == [0, 1] && k < 3
    ensures RoundMoves(Start(k), groups, ["math"]) == [Move(Students[k], 0, 1)]
  {
    CourseMovesFirst(k);
    assert CourseStep(Start(k), groups, "math") == Some(Move(Students[k], 0, 1));
    assert ["math"][..0] == [];
  }

  /** Performing that one move leaves the state of `k + 1` moves done. */
  lemma ApplyOne(k: nat)
    requires k < 3
    ensures ApplyMoves(Start(k), [Move(Students[k], 0, 1)]) == Start(k + 1)
  {
    PerformFirst(k);
    assert [Move(Students[k], 0, 1)][..0] == [];
  }

  /** While `math-1` holds more than three, the round moves its first student. */
  lemma RoundMovesFirst(groups: map<CourseId, seq<nat>>, k: nat)
    requires Group(groups, "math") == [0, 1] && k < 3
    ensures RoundOf(groups, ["math"])(Start(k)) == RoundResult([Move(Students[k], 0, 1)], Start(k + 1))
  {
    RoundMovesOne(groups, k);
    ApplyOne(k);
  }

  /** At three and three the round makes no move. */
  lemma RoundQuietAtThree(groups: map<CourseId, seq<nat>>)
    requires Group(groups, "math") == [0, 1]
    ensures RoundOf(groups, ["math"])(Start(3)).moves == []
  {
    var st := Start(3);
    var (lo, hi) := Ends(st.ss, [0, 1]);
    assert st.ss[lo].Enrollment() == 3 && st.ss[hi].Enrollment() == 3;
    assert CourseMove(st.ss, st.m, [0, 1]) == None;
    assert ["math"][..0] == [];
  }

  /** `round` moves the first student of `math-1` while it holds more than three, and
      nobody at three and three. */
  ghost predicate Balances(round: State -> RoundResult) {
    && (forall k :: 0 <= k < 3 ==> round(Start(k)) == RoundResult([Move(Students[k], 0, 1)], Start(k + 1)))
    && round(Start(3)).moves == []
  }

  lemma BalancesMath(groups: map<CourseId, seq<nat>>)
    requires Group(groups, "math") == [0, 1]
    ensures Balances(RoundOf(groups, ["math"]))
  {
    forall k | 0 <= k < 3
      ensures RoundOf(groups, ["math"])(Start(k)) == RoundResult([Move(Students[k], 0, 1)], Start(k + 1))
    {
      RoundMovesFirst(groups, k);
    }
    RoundQuietAtThree(groups);
  }

  /** From `k` moves done, the run makes the remaining `3 - k` moves and ends quietly at
      three and three, one round later. */
  lemma {:induction false} RunFrom(round: State -> RoundResult, k: nat, fuel: nat)
    requires Balances(round) && k <= 3 && fuel >= 4 - k
    ensures var o := Run(Start(k), round, fuel);
            o.quiet && o.rounds == 4 - k && |o.moves| == 3 - k && o.final == Start(3)
    decreases 3 - k
  {
    var p := round(Start(k));
    if k < 3 {
      assert p == RoundResult([Move(Students[k], 0, 1)], Start(k + 1));
      RunFrom(round, k + 1, fuel - 1);
    } else {
      assert p.moves == [];
    }
  }

  /** The schedules `optimize_section_balance` builds for the six students. */
  lemma StartAccurate(m: StudentSchedules)
    requires Accurate(m, SectionsAfter(0))
    ensures m == SchedulesAfter(0)
  {
    var ss := SectionsAfter(0);
    forall id | id in m
      ensures m[id] == PeriodSet(Week0)
    {
      StudentPeriodsHas(ss, id, Period(0, 0));
      forall p
        ensures p in StudentPeriods(ss, id) <==> p in PeriodSet(Week0)
      {
        StudentPeriodsHas(ss, id, p);
      }
    }
    forall id
      ensures id in m <==> id in Students
    {
      assert Enrolled(ss, id) <==> id in ss[0].enrolled || id in ss[1].enrolled;
    }
  }

  /** A course order holding exactly the one course is that course alone. */
  lemma OnlyMath(order: seq<CourseId>)
    requires Distinct(order) && forall c :: c in order <==> c in CourseIds(SectionsAfter(0))
    ensures order == ["math"]
  {
    var ss := SectionsAfter(0);
    assert forall c :: c in CourseIds(ss) <==> c == "math" by {
      assert ss[0].courseId == "math" && ss[1].courseId == "math";
    }
    assert "math" in order;
    if |order| >= 2 {
      FirstTwo(order);
      assert false;
    }
    assert order[0] in order;
  }

  /** The first two entries of a list without repeats are two different members. */
  lemma FirstTwo(order: seq<CourseId>)
    requires Distinct(order) && |order| >= 2
    ensures order[0] in order && order[1] in order && order[0] != order[1]
  {
  }

  /** At the end both sections hold three students. */
  lemma ThreeAndThree()
    ensures var ss := SectionsAfter(3); |ss| == 2 && ss[0].Enrollment() == 3 && ss[1].Enrollment() == 3
  {
  }

  /** Both sections belong to `math`. */
  lemma MathSections()
    ensures IndicesWithCourse(SectionsAfter(0), "math") == [0, 1]
  {
    var ss := SectionsAfter(0);
    assert ss[..1][..0] == [] && ss[..2][..1] == ss[..1];
    assert IndicesWithCourse(ss[..1], "math") == [0];
  }

  /** What `optimize_section_balance` derives from the two sections: the schedules of the
      six students, the one course, and its two sections. */
  lemma SixInputs(initial: StudentSchedules, order: seq<CourseId>, groups: map<CourseId, seq<nat>>)
    requires Accurate(initial, SectionsAfter(0))
    requires Distinct(order) && forall c :: c in order <==> c in CourseIds(SectionsAfter(0))
    requires forall c :: Group(groups, c) == IndicesWithCourse(SectionsAfter(0), c)
    ensures initial == SchedulesAfter(0) && order == ["math"] && Group(groups, "math") == [0, 1]
  {
    StartAccurate(initial);
    OnlyMath(order);
    MathSections();
  }

  /** The run from the start: three moves, a fourth quiet round, three students each. */
  lemma SixRun(groups: map<CourseId, seq<nat>>, fuel: nat)
    requires Group(groups, "math") == [0, 1] && fuel >= 4
    ensures var o := Run(Start(0), RoundOf(groups, ["math"]), fuel);
            && o.quiet && o.rounds == 4 && |o.moves| == 3
            && |o.final.ss| == 2 && o.final.ss[0].Enrollment() == 3 && o.final.ss[1].Enrollment() == 3
  {
    BalancesMath(groups);
    RunFrom(RoundOf(groups, ["math"]), 0, fuel);
    ThreeAndThree();
  }

  /** The sections and schedules `optimize_section_balance` returns for the case of the
      test, with any round budget of at least four (the source's is `MaxIterations`):
      whatever the map's order, the two sections end at three students each, after three
      moves and a fourth, quiet round. */
  lemma BalancesSixAndNone(initial: StudentSchedules, order: seq<CourseId>, groups: map<CourseId, seq<nat>>,
                           fuel: nat, rounds: nat, moves: seq<Move>, quiet: bool, ss: seq<Section>,
                           schedules: StudentSchedules)
    requires fuel >= 4
    requires Accurate(initial, SectionsAfter(0))
    requires Distinct(order) && forall c :: c in order <==> c in CourseIds(SectionsAfter(0))
    requires forall c :: Group(groups, c) == IndicesWithCourse(SectionsAfter(0), c)
    requires Run(State(SectionsAfter(0), initial), RoundOf(groups, order), fuel)
             == Outcome(moves, rounds, quiet, State(ss, schedules))
    ensures quiet && rounds == 4 && |moves| == 3
    ensures |ss| == 2 && ss[0].Enrollment() == 3 && ss[1].Enrollment() == 3
  {
    SixInputs(initial, order, groups);
    SixRun(groups, fuel);
    assert State(SectionsAfter(0), initial) == Start(0);
  }
}
