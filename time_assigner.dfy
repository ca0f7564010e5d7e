/** Phase 2 of the scheduler: one time slot per section, the same slot on every day,
    chosen by the least penalty among the slots the section's teacher can take. */
module TimeAssigner {
  import opened Wrappers
  import opened Ids
  import opened Seqs
  import opened Periods
  import opened Sections
  import opened Courses
  import opened Teachers
  import opened Constraints
  import opened StableSort
  import opened Schedules

  /** grade -> slot -> number of grade-restricted sections placed at that slot. */
  type Usage = map<u8, map<u8, nat>>

  function UsageOf(u: Usage, g: u8, slot: u8): nat {
    if g in u && slot in u[g] then u[g][slot] else 0
  }

  /** One `*entry(grade).or_default().entry(slot).or_insert(0) += 1`. */
  function Bump(u: Usage, g: u8, slot: u8): (r: Usage)
    ensures forall g', s :: UsageOf(r, g', s) == UsageOf(u, g', s) + (if g' == g && s == slot then 1 else 0)
  {
    var row: map<u8, nat> := if g in u then u[g] else map[];
    u[g := row[slot := (if slot in row then row[slot] else 0) + 1]]
  }

  /** One bump per listed grade, left to right. */
  function RecordGrades(u: Usage, gs: seq<u8>, slot: u8): Usage {
    if |gs| == 0 then u else Bump(RecordGrades(u, gs[..|gs| - 1], slot), gs[|gs| - 1], slot)
  }

  /** `record_usage`: nothing for an open course. */
  function Record(u: Usage, grades: Option<seq<u8>>, slot: u8): Usage {
    match grades
    case None => u
    case Some(gs) => RecordGrades(u, gs, slot)
  }

  lemma {:induction false} RecordGradesCounts(u: Usage, gs: seq<u8>, slot: u8, g: u8, s: u8)
    ensures UsageOf(RecordGrades(u, gs, slot), g, s) == UsageOf(u, g, s) + (if s == slot then multiset(gs)[g] else 0)
  {
    if |gs| > 0 {
      var init := gs[..|gs| - 1];
      assert gs == init + [gs[|gs| - 1]];
      RecordGradesCounts(u, init, slot, g, s);
    }
  }

  /** Recording a section adds, at its slot, one use per occurrence of each grade in the
      restriction list, and changes no other slot; an open course records nothing. */
  lemma RecordCounts(u: Usage, grades: Option<seq<u8>>, slot: u8, g: u8, s: u8)
    ensures UsageOf(Record(u, grades, slot), g, s)
         == UsageOf(u, g, s) + (if grades.Some? && s == slot then multiset(grades.value)[g] else 0)
  {
    if grades.Some? {
      RecordGradesCounts(u, grades.value, slot, g, s);
    }
  }

  /** `GradeSlotTracker`: the per-grade slot usage, updated in place. */
  class GradeSlotTracker {
    var usage: Usage

    constructor()
      ensures usage == map[]
    {
      usage := map[];
    }

    /** `record_usage`. */
    method RecordUsage(grades: Option<seq<u8>>, slot: u8)
      modifies this
      ensures usage == Record(old(usage), grades, slot)
    {
      if grades.Some? {
        var gs := grades.value;
        for i := 0 to |gs|
          invariant usage == RecordGrades(old(usage), gs[..i], slot)
        {
          var g := gs[i];
          var row: map<u8, nat> := if g in usage then usage[g] else map[];
          usage := usage[g := row[slot := (if slot in row then row[slot] else 0) + 1]];
          assert gs[..i + 1][..i] == gs[..i];
        }
        assert gs[..|gs|] == gs;
      }
    }
  }

  /** Sum over the listed grades of their use of `slot`. */
  function GradeSum(u: Usage, gs: seq<u8>, slot: u8): nat {
    if |gs| == 0 then 0 else GradeSum(u, gs[..|gs| - 1], slot) + UsageOf(u, gs[|gs| - 1], slot)
  }

  /** `get_penalty`: 500 per earlier use of the slot by each listed grade. */
  function Penalty(u: Usage, grades: Option<seq<u8>>, slot: u8): (r: nat)
    ensures grades.None? ==> r == 0
    ensures r % 500 == 0
  {
    match grades
    case None => 0
    case Some(gs) => 500 * GradeSum(u, gs, slot)
  }

  lemma {:induction false} GradeSumGrows(u: Usage, u': Usage, gs: seq<u8>, slot: u8)
    requires forall k :: 0 <= k < |gs| ==> UsageOf(u', gs[k], slot) >= UsageOf(u, gs[k], slot) + 1
    ensures GradeSum(u', gs, slot) >= GradeSum(u, gs, slot) + |gs|
  {
    if |gs| > 0 {
      GradeSumGrows(u, u', gs[..|gs| - 1], slot);
    }
  }

  lemma {:induction false} GradeSumSame(u: Usage, u': Usage, gs: seq<u8>, slot: u8)
    requires forall k :: 0 <= k < |gs| ==> UsageOf(u', gs[k], slot) == UsageOf(u, gs[k], slot)
    ensures GradeSum(u', gs, slot) == GradeSum(u, gs, slot)
  {
    if |gs| > 0 {
      GradeSumSame(u, u', gs[..|gs| - 1], slot);
    }
  }

  /** After a grade-restricted section is placed at `slot`, a course restricted to the same
      grades pays at least 500 more per grade for that slot, and nothing more elsewhere. */
  lemma RecordPenalty(u: Usage, gs: seq<u8>, slot: u8, grades: Option<seq<u8>>, other: u8)
    ensures Penalty(Record(u, Some(gs), slot), Some(gs), slot) >= Penalty(u, Some(gs), slot) + 500 * |gs|
    ensures other != slot ==> Penalty(Record(u, Some(gs), slot), grades, other) == Penalty(u, grades, other)
  {
    var u' := Record(u, Some(gs), slot);
    forall k | 0 <= k < |gs|
      ensures UsageOf(u', gs[k], slot) >= UsageOf(u, gs[k], slot) + 1
    {
      RecordCounts(u, Some(gs), slot, gs[k], slot);
    }
    GradeSumGrows(u, u', gs, slot);
    if other != slot && grades.Some? {
      forall k | 0 <= k < |grades.value|
        ensures UsageOf(u', grades.value[k], other) == UsageOf(u, grades.value[k], other)
      {
        RecordCounts(u, Some(gs), slot, grades.value[k], other);
      }
      GradeSumSame(u, u', grades.value, other);
    }
  }

  /** The slots a teacher already teaches at. */
  function Slots(schedules: map<TeacherId, set<u8>>, t: TeacherId): set<u8> {
    if t in schedules then schedules[t] else {}
  }

  /** The teacher is unavailable at `slot` on some day of the week. */
  predicate Unavailable(teacherMap: map<TeacherId, Teacher>, t: TeacherId, slot: u8, days: u8) {
    t in teacherMap && exists d: u8 :: d < days && Period(d, slot) in teacherMap[t].unavailable
  }

  /** The filter of `find_best_slot`: a section without a teacher may take any slot. */
  predicate IsCandidate(teacher: Option<TeacherId>, teacherMap: map<TeacherId, Teacher>,
                        schedules: map<TeacherId, set<u8>>, days: u8, slot: u8) {
    teacher.None? || (slot !in Slots(schedules, teacher.value) && !Unavailable(teacherMap, teacher.value, slot, days))
  }

  /** The key of `find_best_slot`: slot usage, 1000 when the course already uses the slot,
      and the grade penalty. */
  function SlotCost(courseUsed: set<u8>, grades: Option<seq<u8>>, slotUsage: seq<nat>, u: Usage, slot: u8): nat {
    (if slot < |slotUsage| then slotUsage[slot] else 0)
    + (if slot in courseUsed then 1000 else 0)
    + Penalty(u, grades, slot)
  }

  /** `find_best_slot`: among the candidate slots, the first one of least cost; slot 0
      when no slot is a candidate. */
  function FindBestSlot(teacher: Option<TeacherId>, teacherMap: map<TeacherId, Teacher>,
                        schedules: map<TeacherId, set<u8>>, courseUsed: set<u8>, grades: Option<seq<u8>>,
                        slotUsage: seq<nat>, u: Usage, config: Config): (r: u8)
    ensures r < config.periodsPerDay || r == 0
  {
    var m := FirstMinBelow(config.periodsPerDay, SlotCandidate(teacher, teacherMap, schedules, config.daysPerWeek),
                           SlotKey(courseUsed, grades, slotUsage, u));
    if m.Some? then m.value as u8 else 0
  }

  function SlotCandidate(teacher: Option<TeacherId>, teacherMap: map<TeacherId, Teacher>,
                         schedules: map<TeacherId, set<u8>>, days: u8): nat -> bool {
    (s: nat) => s < 0x100 && IsCandidate(teacher, teacherMap, schedules, days, s as u8)
  }

  function SlotKey(courseUsed: set<u8>, grades: Option<seq<u8>>, slotUsage: seq<nat>, u: Usage): nat -> int {
    (s: nat) => if s < 0x100 then SlotCost(courseUsed, grades, slotUsage, u, s as u8) else 0
  }

  /** The slot `find_best_slot` picks is a candidate of least cost, and of strictly lower
      cost than every earlier candidate; when no slot is a candidate it is slot 0. */
  lemma FindBestSlotIsBest(teacher: Option<TeacherId>, teacherMap: map<TeacherId, Teacher>,
                           schedules: map<TeacherId, set<u8>>, courseUsed: set<u8>, grades: Option<seq<u8>>,
                           slotUsage: seq<nat>, u: Usage, config: Config)
    ensures var r := FindBestSlot(teacher, teacherMap, schedules, courseUsed, grades, slotUsage, u, config);
            r < config.periodsPerDay && IsCandidate(teacher, teacherMap, schedules, config.daysPerWeek, r) ==>
              forall s: u8 :: s < config.periodsPerDay && IsCandidate(teacher, teacherMap, schedules, config.daysPerWeek, s) ==>
                SlotCost(courseUsed, grades, slotUsage, u, r) <= SlotCost(courseUsed, grades, slotUsage, u, s)
    ensures var r := FindBestSlot(teacher, teacherMap, schedules, courseUsed, grades, slotUsage, u, config);
            r < config.periodsPerDay && IsCandidate(teacher, teacherMap, schedules, config.daysPerWeek, r) ==>
              forall s: u8 :: s < r && IsCandidate(teacher, teacherMap, schedules, config.daysPerWeek, s) ==>
                SlotCost(courseUsed, grades, slotUsage, u, r) < SlotCost(courseUsed, grades, slotUsage, u, s)
    ensures var r := FindBestSlot(teacher, teacherMap, schedules, courseUsed, grades, slotUsage, u, config);
            !(r < config.periodsPerDay && IsCandidate(teacher, teacherMap, schedules, config.daysPerWeek, r)) ==>
              r == 0 && forall s: u8 :: s < config.periodsPerDay ==> !IsCandidate(teacher, teacherMap, schedules, config.daysPerWeek, s)
  {
    var cand := SlotCandidate(teacher, teacherMap, schedules, config.daysPerWeek);
    var cost := SlotKey(courseUsed, grades, slotUsage, u);
    var m := FirstMinBelow(config.periodsPerDay, cand, cost);
    assert forall s: u8 :: cand(s) == IsCandidate(teacher, teacherMap, schedules, config.daysPerWeek, s);
    assert forall s: u8 :: cost(s) == SlotCost(courseUsed, grades, slotUsage, u, s);
  }

  /** One placed section: its index, course, teacher and grade restrictions as read before
      the pass, and the slot chosen for it. */
  datatype Step = Step(index: nat, courseId: CourseId, teacher: Option<TeacherId>, grades: Option<seq<u8>>, slot: u8)

  /** `teacher_schedules` after the steps. */
  function SchedulesOf(steps: seq<Step>): map<TeacherId, set<u8>> {
    if |steps| == 0 then map[]
    else
      var m := SchedulesOf(steps[..|steps| - 1]);
      var e := steps[|steps| - 1];
      match e.teacher
      case None => m
      case Some(t) => m[t := Slots(m, t) + {e.slot}]
  }

  /** `slot_usage` after the steps. */
  function SlotUsageOf(steps: seq<Step>, n: nat): (r: seq<nat>)
    ensures |r| == n
  {
    if |steps| == 0 then seq(n, _ => 0)
    else
      var s := SlotUsageOf(steps[..|steps| - 1], n);
      var e := steps[|steps| - 1];
      Incremented(s, e.slot)
  }

  /** `slot_usage[slot] += 1`. */
  function Incremented(s: seq<nat>, i: nat): (r: seq<nat>)
    ensures |r| == |s|
  {
    if i < |s| then s[i := s[i] + 1] else s
  }

  /** `course_used_slots`: the slots of the earlier sections of course `c`. */
  function CourseSlotsOf(steps: seq<Step>, c: CourseId): set<u8> {
    if |steps| == 0 then {}
    else
      var e := steps[|steps| - 1];
      CourseSlotsOf(steps[..|steps| - 1], c) + (if e.courseId == c then {e.slot} else {})
  }

  /** The grade tracker's usage after the steps. */
  function UsageAfter(steps: seq<Step>): Usage {
    if |steps| == 0 then map[]
    else Record(UsageAfter(steps[..|steps| - 1]), steps[|steps| - 1].grades, steps[|steps| - 1].slot)
  }

  /** The slot of `e` is the one `find_best_slot` picks in the state the steps before it leave. */
  predicate SlotChosen(steps: seq<Step>, e: Step, teacherMap: map<TeacherId, Teacher>, config: Config) {
    e.slot == FindBestSlot(e.teacher, teacherMap, SchedulesOf(steps), CourseSlotsOf(steps, e.courseId), e.grades,
                           SlotUsageOf(steps, config.periodsPerDay), UsageAfter(steps), config)
  }

  /** Every step's slot is chosen from the state its predecessors leave. */
  predicate Follows(steps: seq<Step>, teacherMap: map<TeacherId, Teacher>, config: Config) {
    |steps| == 0 ||
    (Follows(steps[..|steps| - 1], teacherMap, config) &&
     SlotChosen(steps[..|steps| - 1], steps[|steps| - 1], teacherMap, config))
  }

  lemma {:induction false} FollowsAt(steps: seq<Step>, teacherMap: map<TeacherId, Teacher>, config: Config, b: nat)
    requires Follows(steps, teacherMap, config) && b < |steps|
    ensures SlotChosen(steps[..b], steps[b], teacherMap, config)
  {
    if b < |steps| - 1 {
      FollowsAt(steps[..|steps| - 1], teacherMap, config, b);
      assert steps[..|steps| - 1][..b] == steps[..b];
    }
  }

  /** Every slot a teacher was given is in its schedule from then on. */
  lemma {:induction false} SchedulesOfHas(steps: seq<Step>, a: nat, t: TeacherId)
    requires a < |steps| && steps[a].teacher == Some(t)
    ensures steps[a].slot in Slots(SchedulesOf(steps), t)
  {
    if a < |steps| - 1 {
      SchedulesOfHas(steps[..|steps| - 1], a, t);
    }
  }

  /** Whenever some slot is free for the section's teacher (not yet taught at and not
      blocked on any day), the chosen slot is one of them: a teacher is never double-booked
      and never placed where it is unavailable while it has a free slot left. */
  lemma {:induction false} NoTeacherDoubleBooking(steps: seq<Step>, teacherMap: map<TeacherId, Teacher>, config: Config,
                               b: nat, free: u8)
    requires Follows(steps, teacherMap, config) && b < |steps| && steps[b].teacher.Some?
    requires free < config.periodsPerDay
    requires free !in Slots(SchedulesOf(steps[..b]), steps[b].teacher.value)
    requires !Unavailable(teacherMap, steps[b].teacher.value, free, config.daysPerWeek)
    ensures forall a :: 0 <= a < b && steps[a].teacher == steps[b].teacher ==> steps[a].slot != steps[b].slot
    ensures !Unavailable(teacherMap, steps[b].teacher.value, steps[b].slot, config.daysPerWeek)
    ensures steps[b].slot < config.periodsPerDay
  {
    var t := steps[b].teacher.value;
    FollowsAt(steps, teacherMap, config, b);
    var prev := steps[..b];
    FindBestSlotIsBest(steps[b].teacher, teacherMap, SchedulesOf(prev), CourseSlotsOf(prev, steps[b].courseId),
                       steps[b].grades, SlotUsageOf(prev, config.periodsPerDay), UsageAfter(prev), config);
    assert IsCandidate(steps[b].teacher, teacherMap, SchedulesOf(steps[..b]), config.daysPerWeek, free);
    forall a | 0 <= a < b && steps[a].teacher == steps[b].teacher
      ensures steps[a].slot != steps[b].slot
    {
      assert steps[..b][a] == steps[a];
      SchedulesOfHas(steps[..b], a, t);
    }
  }

  /** The periods `(d, slot)` for every day `d` of the week, in day order. */
  function Days(days: u8, slot: u8): (r: seq<Period>)
    ensures |r| == days
    ensures forall d :: 0 <= d < days ==> r[d] == Period(d, slot)
  {
    seq(days, d requires 0 <= d < days => Period(d, slot))
  }

  function Placed(s: Section, days: u8, slot: u8): Section {
    s.(periods := s.periods + Days(days, slot))
  }

  /** `for day in 0..days_per_week { section.periods.push(Period::new(day, best_slot)) }`. */
  method PlaceSection(sections: array<Section>, idx: nat, slot: u8, days: u8)
    requires idx < sections.Length
    modifies sections
    ensures sections[..] == old(sections[..])[idx := Placed(old(sections[idx]), days, slot)]
  {
    var ps := sections[idx].periods;
    for day := 0 to days
      invariant ps == old(sections[idx]).periods + Days(day, slot)
    {
      ps := ps + [Period(day, slot)];
    }
    sections[idx] := sections[idx].(periods := ps);
  }

  /** The indices of the sections placed by the steps. */
  function IndexSet(steps: seq<Step>): set<nat> {
    if |steps| == 0 then {} else IndexSet(steps[..|steps| - 1]) + {steps[|steps| - 1].index}
  }

  lemma {:induction false} IndexSetHas(steps: seq<Step>, k: nat)
    requires k < |steps|
    ensures steps[k].index in IndexSet(steps)
  {
    if k < |steps| - 1 {
      IndexSetHas(steps[..|steps| - 1], k);
    }
  }

  lemma {:induction false} IndexSetMissing(steps: seq<Step>, i: nat)
    requires forall k :: 0 <= k < |steps| ==> steps[k].index != i
    ensures i !in IndexSet(steps)
  {
    if |steps| > 0 {
      IndexSetMissing(steps[..|steps| - 1], i);
    }
  }

  lemma {:induction false} IndexSetWitness(steps: seq<Step>, i: nat) returns (k: nat)
    requires i in IndexSet(steps)
    ensures k < |steps| && steps[k].index == i
  {
    if steps[|steps| - 1].index == i {
      k := |steps| - 1;
    } else {
      k := IndexSetWitness(steps[..|steps| - 1], i);
    }
  }

  /** The step read its section and its course correctly. */
  predicate StepOk(snap: seq<Section>, courseMap: map<CourseId, Course>, e: Step) {
    && e.index < |snap|
    && e.courseId == snap[e.index].courseId
    && e.teacher == snap[e.index].teacherId
    && e.courseId in courseMap
    && e.grades == courseMap[e.courseId].gradeRestrictions
  }

  /** Every step read its section correctly, and no section was placed twice. */
  ghost predicate StepsOk(snap: seq<Section>, courseMap: map<CourseId, Course>, steps: seq<Step>) {
    |steps| == 0 ||
    (StepsOk(snap, courseMap, steps[..|steps| - 1]) && StepOk(snap, courseMap, steps[|steps| - 1])
     && steps[|steps| - 1].index !in IndexSet(steps[..|steps| - 1]))
  }

  lemma {:induction false} StepsOkAt(snap: seq<Section>, courseMap: map<CourseId, Course>, steps: seq<Step>, k: nat)
    requires StepsOk(snap, courseMap, steps) && k < |steps|
    ensures StepOk(snap, courseMap, steps[k])
    ensures forall a :: 0 <= a < k ==> steps[a].index != steps[k].index
  {
    var init := steps[..|steps| - 1];
    if k < |steps| - 1 {
      StepsOkAt(snap, courseMap, init, k);
    } else {
      forall a | 0 <= a < k
        ensures steps[a].index != steps[k].index
      {
        IndexSetHas(init, a);
      }
    }
  }

  /** The sections after the steps: `snap` with each step's periods appended to its section. */
  function ApplySteps(snap: seq<Section>, steps: seq<Step>, days: u8): (r: seq<Section>)
    ensures |r| == |snap|
  {
    if |steps| == 0 then snap
    else
      var cur := ApplySteps(snap, steps[..|steps| - 1], days);
      var e := steps[|steps| - 1];
      if e.index < |cur| then cur[e.index := Placed(cur[e.index], days, e.slot)] else cur
  }

  /** A section no step placed is as it was. */
  lemma {:induction false} ApplyUntouched(snap: seq<Section>, steps: seq<Step>, days: u8, i: nat)
    requires i < |snap| && i !in IndexSet(steps)
    ensures ApplySteps(snap, steps, days)[i] == snap[i]
  {
    if |steps| > 0 {
      ApplyUntouched(snap, steps[..|steps| - 1], days, i);
    }
  }

  /** A placed section got the periods of the one step that placed it, once. */
  lemma {:induction false} ApplyPlaced(snap: seq<Section>, courseMap: map<CourseId, Course>, steps: seq<Step>, days: u8, k: nat)
    requires StepsOk(snap, courseMap, steps) && k < |steps|
    ensures steps[k].index < |snap|
    ensures ApplySteps(snap, steps, days)[steps[k].index] == Placed(snap[steps[k].index], days, steps[k].slot)
  {
    var init := steps[..|steps| - 1];
    StepsOkAt(snap, courseMap, steps, k);
    if k < |steps| - 1 {
      ApplyPlaced(snap, courseMap, init, days, k);
      StepsOkAt(snap, courseMap, steps, |steps| - 1);
    } else {
      ApplyUntouched(snap, init, days, steps[k].index);
    }
  }

  /** The tracking state of `assign_time_slots` is the one the steps leave. */
  ghost predicate Tracked(steps: seq<Step>, n: nat, schedules: map<TeacherId, set<u8>>, slotUsage: seq<nat>, u: Usage) {
    schedules == SchedulesOf(steps) && slotUsage == SlotUsageOf(steps, n) && u == UsageAfter(steps)
  }

  lemma {:induction false} CourseSlotsNone(steps: seq<Step>, c: CourseId)
    requires forall k :: 0 <= k < |steps| ==> steps[k].courseId != c
    ensures CourseSlotsOf(steps, c) == {}
  {
    if |steps| > 0 {
      CourseSlotsNone(steps[..|steps| - 1], c);
    }
  }

  /** The folds after one more step. */
  lemma {:induction false} StepFolds(steps: seq<Step>, e: Step, n: nat, c: CourseId, teacherMap: map<TeacherId, Teacher>, config: Config)
    ensures SchedulesOf(steps + [e]) == (match e.teacher
              case None => SchedulesOf(steps)
              case Some(t) => SchedulesOf(steps)[t := Slots(SchedulesOf(steps), t) + {e.slot}])
    ensures SlotUsageOf(steps + [e], n) == Incremented(SlotUsageOf(steps, n), e.slot)
    ensures CourseSlotsOf(steps + [e], c) == CourseSlotsOf(steps, c) + (if e.courseId == c then {e.slot} else {})
    ensures UsageAfter(steps + [e]) == Record(UsageAfter(steps), e.grades, e.slot)
    ensures Follows(steps, teacherMap, config) && SlotChosen(steps, e, teacherMap, config) ==> Follows(steps + [e], teacherMap, config)
    ensures IndexSet(steps + [e]) == IndexSet(steps) + {e.index}
  {
    assert (steps + [e])[..|steps|] == steps;
  }

  /** Placing one more section keeps the tracking state in step with the steps. */
  lemma {:induction false} TrackStep(steps: seq<Step>, e: Step, n: nat, schedules: map<TeacherId, set<u8>>, slotUsage: seq<nat>, u: Usage)
    requires Tracked(steps, n, schedules, slotUsage, u) && e.slot < n
    ensures Tracked(steps + [e], n,
                    match e.teacher
                    case None => schedules
                    case Some(t) => schedules[t := Slots(schedules, t) + {e.slot}],
                    Incremented(slotUsage, e.slot), Record(u, e.grades, e.slot))
  {
    assert (steps + [e])[..|steps|] == steps;
  }

  /** The state of `assign_time_slots` after the steps so far: the sections and the
      tracking state are the ones the steps leave, and each slot was chosen in turn. */
  ghost predicate Inv(snap: seq<Section>, courseMap: map<CourseId, Course>, teacherMap: map<TeacherId, Teacher>,
                      config: Config, steps: seq<Step>, cur: seq<Section>,
                      schedules: map<TeacherId, set<u8>>, slotUsage: seq<nat>, u: Usage) {
    && StepsOk(snap, courseMap, steps) && cur == ApplySteps(snap, steps, config.daysPerWeek)
    && Tracked(steps, config.periodsPerDay, schedules, slotUsage, u)
    && Follows(steps, teacherMap, config)
  }

  /** One pass of the inner loop keeps the state in step with the steps. */
  lemma {:induction false} InvStep(snap: seq<Section>, courseMap: map<CourseId, Course>, teacherMap: map<TeacherId, Teacher>,
                config: Config, steps: seq<Step>, cur: seq<Section>,
                schedules: map<TeacherId, set<u8>>, slotUsage: seq<nat>, u: Usage,
                course: Course, courseUsed: set<u8>, e: Step,
                cur': seq<Section>, schedules': map<TeacherId, set<u8>>, slotUsage': seq<nat>, u': Usage)
    requires Inv(snap, courseMap, teacherMap, config, steps, cur, schedules, slotUsage, u)
    requires course.id in courseMap && courseMap[course.id] == course && courseUsed == CourseSlotsOf(steps, course.id)
    requires e.index < |snap| && snap[e.index].courseId == course.id && e.index !in IndexSet(steps)
    requires e.courseId == course.id && e.teacher == cur[e.index].teacherId && e.grades == course.gradeRestrictions
    requires e.slot == FindBestSlot(e.teacher, teacherMap, schedules, courseUsed, e.grades, slotUsage, u, config)
    requires config.periodsPerDay > 0
    requires cur' == cur[e.index := Placed(cur[e.index], config.daysPerWeek, e.slot)]
    requires schedules' == match e.teacher
                           case None => schedules
                           case Some(t) => schedules[t := Slots(schedules, t) + {e.slot}]
    requires slotUsage' == Incremented(slotUsage, e.slot)
    requires u' == Record(u, e.grades, e.slot)
    ensures e.slot < config.periodsPerDay && e.slot < |slotUsage|
    ensures Inv(snap, courseMap, teacherMap, config, steps + [e], cur', schedules', slotUsage', u')
    ensures CourseSlotsOf(steps + [e], course.id) == courseUsed + {e.slot}
    ensures IndexSet(steps + [e]) == IndexSet(steps) + {e.index}
  {
    ApplyUntouched(snap, steps, config.daysPerWeek, e.index);
    StepFolds(steps, e, config.periodsPerDay, course.id, teacherMap, config);
    TrackStep(steps, e, config.periodsPerDay, schedules, slotUsage, u);
    assert (steps + [e])[..|steps|] == steps;
  }

  /** The steps taken so far for one course: the `k`-th places section `list[k]`. */
  ghost predicate Batch(news: seq<Step>, list: seq<nat>, c: CourseId) {
    && |news| <= |list|
    && (|news| == 0 || (Batch(news[..|news| - 1], list, c) && news[|news| - 1].courseId == c && news[|news| - 1].index == list[|news| - 1]))
  }

  lemma {:induction false} BatchAt(news: seq<Step>, list: seq<nat>, c: CourseId, k: nat)
    requires Batch(news, list, c) && k < |news|
    ensures news[k].courseId == c && news[k].index == list[k]
  {
    if k < |news| - 1 {
      BatchAt(news[..|news| - 1], list, c, k);
    }
  }

  lemma {:induction false} BatchSnoc(news: seq<Step>, e: Step, list: seq<nat>, c: CourseId)
    requires Batch(news, list, c) && |news| < |list|
    requires e.courseId == c && e.index == list[|news|]
    ensures Batch(news + [e], list, c)
  {
    assert (news + [e])[..|news|] == news;
  }

  /** The next section of the course has not been placed yet: earlier steps belong to other
      courses, and this course's steps placed the smaller indices of `list`. */
  lemma {:induction false} Fresh(snap: seq<Section>, courseMap: map<CourseId, Course>, steps: seq<Step>, news: seq<Step>, list: seq<nat>, c: CourseId)
    requires |news| < |list| && Batch(news, list, c)
    requires forall k :: 0 <= k < |steps| ==> steps[k].courseId != c
    requires StepsOk(snap, courseMap, steps + news)
    requires list == IndicesWithCourse(snap, c)
    ensures list[|news|] !in IndexSet(steps + news)
  {
    var prev := steps + news;
    forall k | 0 <= k < |prev|
      ensures prev[k].index != list[|news|]
    {
      if k < |steps| {
        assert prev[k] == steps[k];
        StepsOkAt(snap, courseMap, prev, k);
      } else {
        assert prev[k] == news[k - |steps|];
        BatchAt(news, list, c, k - |steps|);
      }
    }
    IndexSetMissing(prev, list[|news|]);
  }

  /** One pass of the inner loop of `assign_time_slots`: the best slot for section `idx`,
      its periods, and the tracking state updated for it. The ghost parameters name the
      state before the pass. */
  method PlaceOne(sections: array<Section>, teacherMap: map<TeacherId, Teacher>, config: Config, course: Course,
                  idx: nat, schedules: map<TeacherId, set<u8>>, courseUsed: set<u8>, slotUsage: array<nat>,
                  tracker: GradeSlotTracker, ghost cur: seq<Section>, ghost usage: seq<nat>, ghost u: Usage)
    returns (schedules': map<TeacherId, set<u8>>, courseUsed': set<u8>, best: u8)
    requires config.periodsPerDay > 0 && slotUsage.Length == config.periodsPerDay && idx < sections.Length
    requires sections[..] == cur && slotUsage[..] == usage && tracker.usage == u
    modifies sections, slotUsage, tracker
    ensures best == FindBestSlot(cur[idx].teacherId, teacherMap, schedules, courseUsed, course.gradeRestrictions,
                                 usage, u, config)
    ensures best < |usage|
    ensures sections[..] == cur[idx := Placed(cur[idx], config.daysPerWeek, best)]
    ensures schedules' == match cur[idx].teacherId
                          case None => schedules
                          case Some(t) => schedules[t := Slots(schedules, t) + {best}]
    ensures slotUsage[..] == Incremented(usage, best)
    ensures tracker.usage == Record(u, course.gradeRestrictions, best)
    ensures courseUsed' == courseUsed + {best}
  {
    var teacher := sections[idx].teacherId;
    best := FindBestSlot(teacher, teacherMap, schedules, courseUsed, course.gradeRestrictions,
                         slotUsage[..], tracker.usage, config);
    schedules' := schedules;
    if teacher.Some? {
      schedules' := schedules[teacher.value := Slots(schedules, teacher.value) + {best}];
    }
    PlaceSection(sections, idx, best, config.daysPerWeek);
    assert sections[..] == cur[idx := Placed(cur[idx], config.daysPerWeek, best)];
    slotUsage[best] := slotUsage[best] + 1;
    assert slotUsage[..] == usage[best := usage[best] + 1];
    tracker.RecordUsage(course.gradeRestrictions, best);
    courseUsed' := courseUsed + {best};
  }

  lemma {:induction false} NextStep(snap: seq<Section>, courseMap: map<CourseId, Course>, teacherMap: map<TeacherId, Teacher>,
                 config: Config, course: Course, list: seq<nat>, steps: seq<Step>, news: seq<Step>, cur: seq<Section>,
                 schedules: map<TeacherId, set<u8>>, slotUsage: seq<nat>, u: Usage, courseUsed: set<u8>, e: Step,
                 cur': seq<Section>, schedules': map<TeacherId, set<u8>>, slotUsage': seq<nat>, u': Usage)
    requires config.periodsPerDay > 0
    requires course.id in courseMap && courseMap[course.id] == course
    requires list == IndicesWithCourse(snap, course.id)
    requires forall k :: 0 <= k < |steps| ==> steps[k].courseId != course.id
    requires |news| < |list| && Batch(news, list, course.id)
    requires Inv(snap, courseMap, teacherMap, config, steps + news, cur, schedules, slotUsage, u)
    requires courseUsed == CourseSlotsOf(steps + news, course.id)
    requires e.index == list[|news|] && e.courseId == course.id && e.grades == course.gradeRestrictions
    requires e.index < |cur| && e.teacher == cur[e.index].teacherId
    requires e.slot == FindBestSlot(e.teacher, teacherMap, schedules, courseUsed, e.grades, slotUsage, u, config)
    requires cur' == cur[e.index := Placed(cur[e.index], config.daysPerWeek, e.slot)]
    requires schedules' == match e.teacher
                           case None => schedules
                           case Some(t) => schedules[t := Slots(schedules, t) + {e.slot}]
    requires slotUsage' == Incremented(slotUsage, e.slot)
    requires u' == Record(u, e.grades, e.slot)
    ensures Batch(news + [e], list, course.id)
    ensures Inv(snap, courseMap, teacherMap, config, steps + (news + [e]), cur', schedules', slotUsage', u')
    ensures CourseSlotsOf(steps + (news + [e]), course.id) == courseUsed + {e.slot}
  {
    var prev := steps + news;
    Fresh(snap, courseMap, steps, news, list, course.id);
    InvStep(snap, courseMap, teacherMap, config, prev, cur, schedules, slotUsage, u, course, courseUsed, e,
            cur', schedules', slotUsage', u');
    assert prev + [e] == steps + (news + [e]);
    BatchSnoc(news, e, list, course.id);
  }

  /** One pass of the inner loop for section `list[j]`, with the invariant carried over. */
  method PlaceNext(sections: array<Section>, ghost snap: seq<Section>, courseMap: map<CourseId, Course>,
                   teacherMap: map<TeacherId, Teacher>, config: Config, course: Course, list: seq<nat>,
                   schedules: map<TeacherId, set<u8>>, courseUsed: set<u8>, slotUsage: array<nat>,
                   tracker: GradeSlotTracker, j: nat, ghost steps: seq<Step>, ghost news: seq<Step>,
                   ghost cur: seq<Section>, ghost usage: seq<nat>, ghost u: Usage)
    returns (schedules': map<TeacherId, set<u8>>, courseUsed': set<u8>, ghost news': seq<Step>,
             ghost cur': seq<Section>, ghost usage': seq<nat>, ghost u': Usage)
    requires config.periodsPerDay > 0 && slotUsage.Length == config.periodsPerDay
    requires course.id in courseMap && courseMap[course.id] == course
    requires list == IndicesWithCourse(snap, course.id)
    requires forall k :: 0 <= k < |steps| ==> steps[k].courseId != course.id
    requires j == |news| < |list| && Batch(news, list, course.id)
    requires sections[..] == cur && slotUsage[..] == usage && tracker.usage == u
    requires Inv(snap, courseMap, teacherMap, config, steps + news, cur, schedules, usage, u)
    requires courseUsed == CourseSlotsOf(steps + news, course.id)
    modifies sections, slotUsage, tracker
    ensures sections[..] == cur' && slotUsage[..] == usage' && tracker.usage == u'
    ensures |news'| == j + 1 && Batch(news', list, course.id)
    ensures Inv(snap, courseMap, teacherMap, config, steps + news', cur', schedules', usage', u')
    ensures courseUsed' == CourseSlotsOf(steps + news', course.id)
  {
    var idx := list[j];
    var best;
    assert idx < |snap| == |cur|;
    schedules', courseUsed', best := PlaceOne(sections, teacherMap, config, course, idx, schedules, courseUsed,
                                              slotUsage, tracker, cur, usage, u);
    ghost var e := Step(idx, course.id, cur[idx].teacherId, course.gradeRestrictions, best);
    cur', usage', u' := sections[..], slotUsage[..], tracker.usage;
    NextStep(snap, courseMap, teacherMap, config, course, list, steps, news, cur, schedules, usage, u, courseUsed, e,
             cur', schedules', usage', u');
    news' := news + [e];
  }

  /** The inner loop of `assign_time_slots`: the sections of one course, in index order.
      The ghost parameters name the state before and after the loop. */
  method AssignCourse(sections: array<Section>, ghost snap: seq<Section>, courseMap: map<CourseId, Course>,
                      teacherMap: map<TeacherId, Teacher>, config: Config, course: Course, list: seq<nat>,
                      schedules: map<TeacherId, set<u8>>, slotUsage: array<nat>, tracker: GradeSlotTracker,
                      ghost steps: seq<Step>, ghost cur: seq<Section>, ghost usage: seq<nat>, ghost u: Usage)
    returns (schedules': map<TeacherId, set<u8>>, ghost steps': seq<Step>,
             ghost cur': seq<Section>, ghost usage': seq<nat>, ghost u': Usage)
    requires (config.periodsPerDay > 0 || list == []) && slotUsage.Length == config.periodsPerDay
    requires course.id in courseMap && courseMap[course.id] == course
    requires list == IndicesWithCourse(snap, course.id)
    requires forall k :: 0 <= k < |steps| ==> steps[k].courseId != course.id
    requires sections[..] == cur && slotUsage[..] == usage && tracker.usage == u
    requires Inv(snap, courseMap, teacherMap, config, steps, cur, schedules, usage, u)
    modifies sections, slotUsage, tracker
    ensures sections[..] == cur' && slotUsage[..] == usage' && tracker.usage == u'
    ensures |steps'| == |steps| + |list| && steps'[..|steps|] == steps
    ensures forall k :: |steps| <= k < |steps'| ==> steps'[k].courseId == course.id
    ensures forall i :: i in IndexSet(steps') <==> i in IndexSet(steps) || i in list
    ensures Indices(steps') == Indices(steps) + list
    ensures Inv(snap, courseMap, teacherMap, config, steps', cur', schedules', usage', u')
  {
    schedules' := schedules;
    ghost var news: seq<Step> := [];
    var courseUsed: set<u8> := {};
    CourseSlotsNone(steps, course.id);
    assert steps + news == steps;
    cur', usage', u' := cur, usage, u;
    for j := 0 to |list|
      invariant |news| == j && Batch(news, list, course.id)
      invariant sections[..] == cur' && slotUsage[..] == usage' && tracker.usage == u'
      invariant Inv(snap, courseMap, teacherMap, config, steps + news, cur', schedules', usage', u')
      invariant courseUsed == CourseSlotsOf(steps + news, course.id)
    {
      schedules', courseUsed, news, cur', usage', u' :=
        PlaceNext(sections, snap, courseMap, teacherMap, config, course, list, schedules', courseUsed, slotUsage, tracker,
                  j, steps, news, cur', usage', u');
    }
    steps' := steps + news;
    BatchDone(steps, news, list, course.id);
    BatchIndices(steps, news, list, course.id);
    assert list[..|news|] == list;
  }

  /** What a finished batch adds to the steps. */
  lemma {:induction false} BatchDone(steps: seq<Step>, news: seq<Step>, list: seq<nat>, c: CourseId)
    requires Batch(news, list, c) && |news| == |list|
    ensures (steps + news)[..|steps|] == steps
    ensures forall k :: |steps| <= k < |steps + news| ==> (steps + news)[k].courseId == c
    ensures forall i :: i in IndexSet(steps + news) <==> i in IndexSet(steps) || i in list
  {
    IndexSetOfList(steps, news, list, c);
    assert list[..|news|] == list;
    forall k | |steps| <= k < |steps + news|
      ensures (steps + news)[k].courseId == c
    {
      BatchAt(news, list, c, k - |steps|);
    }
  }

  lemma {:induction false} IndexSetOfList(steps: seq<Step>, news: seq<Step>, list: seq<nat>, c: CourseId)
    requires Batch(news, list, c)
    ensures forall i :: i in IndexSet(steps + news) <==> i in IndexSet(steps) || i in list[..|news|]
  {
    if |news| == 0 {
      assert steps + news == steps;
    } else {
      var n := |news| - 1;
      IndexSetOfList(steps, news[..n], list, c);
      assert (steps + news)[..|steps| + n] == steps + news[..n];
      assert list[..n + 1] == list[..n] + [list[n]];
    }
  }

  /** The indices of the sections the steps placed, in the order they were placed. */
  function Indices(steps: seq<Step>): seq<nat> {
    if |steps| == 0 then [] else Indices(steps[..|steps| - 1]) + [steps[|steps| - 1].index]
  }

  /** A batch adds the course's sections to the placements in the order of `list`. */
  lemma {:induction false} BatchIndices(steps: seq<Step>, news: seq<Step>, list: seq<nat>, c: CourseId)
    requires Batch(news, list, c)
    ensures Indices(steps + news) == Indices(steps) + list[..|news|]
  {
    if |news| == 0 {
      assert steps + news == steps;
    } else {
      var n := |news| - 1;
      BatchIndices(steps, news[..n], list, c);
      assert (steps + news)[..|steps| + n] == steps + news[..n];
      assert list[..n + 1] == list[..n] + [list[n]];
    }
  }

  /** The sections one pass of the outer loop places: those of course `c` in index order,
      or none when the catalogue does not know `c`. */
  ghost function CourseBatch(snap: seq<Section>, courseMap: map<CourseId, Course>, c: CourseId): seq<nat> {
    if c in courseMap then IndicesWithCourse(snap, c) else []
  }

  /** The sections the outer loop places, in the order it places them: course after course
      of `order`, each course the catalogue knows with its sections in index order. */
  ghost function Plan(snap: seq<Section>, courseMap: map<CourseId, Course>, order: seq<CourseId>): (r: seq<nat>)
    ensures forall k :: 0 <= k < |r| ==> r[k] < |snap|
  {
    if |order| == 0 then []
    else Plan(snap, courseMap, order[..|order| - 1]) + CourseBatch(snap, courseMap, order[|order| - 1])
  }

  /** Every section the plan places exists and belongs to a listed course the catalogue knows. */
  lemma {:induction false} PlanRange(snap: seq<Section>, courseMap: map<CourseId, Course>, order: seq<CourseId>)
    ensures forall k :: 0 <= k < |Plan(snap, courseMap, order)| ==>
              var i := Plan(snap, courseMap, order)[k];
              i < |snap| && snap[i].courseId in order && snap[i].courseId in courseMap
  {
    if |order| > 0 {
      var n := |order| - 1;
      PlanRange(snap, courseMap, order[..n]);
      var init := Plan(snap, courseMap, order[..n]);
      var p := Plan(snap, courseMap, order);
      forall k | 0 <= k < |p|
        ensures p[k] < |snap| && snap[p[k]].courseId in order && snap[p[k]].courseId in courseMap
      {
        if k < |init| {
          assert p[k] == init[k];
        } else {
          assert p[k] == CourseBatch(snap, courseMap, order[n])[k - |init|];
        }
      }
    }
  }

  /** With no course listed twice, the plan of all but the last course comes first, and
      none of its sections belongs to the last course. */
  lemma {:induction false} PlanBefore(snap: seq<Section>, courseMap: map<CourseId, Course>, order: seq<CourseId>, k: nat)
    requires Distinct(order) && |order| > 0 && k < |Plan(snap, courseMap, order[..|order| - 1])|
    ensures k < |Plan(snap, courseMap, order)|
    ensures Plan(snap, courseMap, order)[k] == Plan(snap, courseMap, order[..|order| - 1])[k]
    ensures snap[Plan(snap, courseMap, order)[k]].courseId != order[|order| - 1]
  {
    var n := |order| - 1;
    var init := Plan(snap, courseMap, order[..n]);
    assert Plan(snap, courseMap, order) == init + CourseBatch(snap, courseMap, order[n]);
    PlanRange(snap, courseMap, order[..n]);
    var c := snap[init[k]].courseId;
    assert c in order[..n];
    var j :| 0 <= j < n && order[..n][j] == c;
    assert order[j] == c && order[j] != order[n];
  }

  /** The last course's sections close the plan, in index order. */
  lemma {:induction false} PlanLast(snap: seq<Section>, courseMap: map<CourseId, Course>, order: seq<CourseId>, k: nat)
    requires |order| > 0 && |Plan(snap, courseMap, order[..|order| - 1])| <= k < |Plan(snap, courseMap, order)|
    ensures Plan(snap, courseMap, order)[k] ==
              CourseBatch(snap, courseMap, order[|order| - 1])[k - |Plan(snap, courseMap, order[..|order| - 1])|]
    ensures snap[Plan(snap, courseMap, order)[k]].courseId == order[|order| - 1]
  {
    var n := |order| - 1;
    var init := Plan(snap, courseMap, order[..n]);
    var part := CourseBatch(snap, courseMap, order[n]);
    assert Plan(snap, courseMap, order) == init + part;
    assert order[n] in courseMap && part == IndicesWithCourse(snap, order[n]);
  }

  lemma {:induction false} PlanNext(snap: seq<Section>, courseMap: map<CourseId, Course>, order: seq<CourseId>, i: nat)
    requires i < |order|
    ensures Plan(snap, courseMap, order[..i + 1]) == Plan(snap, courseMap, order[..i]) + CourseBatch(snap, courseMap, order[i])
  {
    assert order[..i + 1][..i] == order[..i];
  }

  /** With no course listed twice, the sections of one course are placed one after the
      other, with nothing in between, and in index order. */
  lemma {:induction false} PlanGrouped(snap: seq<Section>, courseMap: map<CourseId, Course>, order: seq<CourseId>,
                                       a: nat, b: nat)
    requires Distinct(order) && a < b < |Plan(snap, courseMap, order)|
    requires snap[Plan(snap, courseMap, order)[a]].courseId == snap[Plan(snap, courseMap, order)[b]].courseId
    ensures Plan(snap, courseMap, order)[a] < Plan(snap, courseMap, order)[b]
    ensures forall m :: a <= m <= b ==>
              snap[Plan(snap, courseMap, order)[m]].courseId == snap[Plan(snap, courseMap, order)[a]].courseId
  {
    var n := |order| - 1;
    var init := Plan(snap, courseMap, order[..n]);
    var part := CourseBatch(snap, courseMap, order[n]);
    var p := Plan(snap, courseMap, order);
    assert p == init + part;
    if b < |init| {
      PlanBefore(snap, courseMap, order, a);
      PlanBefore(snap, courseMap, order, b);
      assert Distinct(order[..n]);
      PlanGrouped(snap, courseMap, order[..n], a, b);
      forall m | a <= m <= b
        ensures snap[p[m]].courseId == snap[p[a]].courseId
      {
        PlanBefore(snap, courseMap, order, m);
      }
    } else if a >= |init| {
      PlanLast(snap, courseMap, order, a);
      PlanLast(snap, courseMap, order, b);
      assert part[a - |init|] < part[b - |init|];
      forall m | a <= m <= b
        ensures snap[p[m]].courseId == snap[p[a]].courseId
      {
        PlanLast(snap, courseMap, order, m);
      }
    } else {
      PlanBefore(snap, courseMap, order, a);
      PlanLast(snap, courseMap, order, b);
      assert false;
    }
  }

  /** The sort key of the outer loop: grade-restricted courses first, those with fewer
      grades earlier, then open courses and courses missing from the catalogue. */
  function Priority(courseMap: map<CourseId, Course>, c: CourseId): Key {
    if c in courseMap && courseMap[c].gradeRestrictions.Some? then Key(0, |courseMap[c].gradeRestrictions.value|)
    else Key(1, 0)
  }

  function PriorityKey(courseMap: map<CourseId, Course>): CourseId -> Key {
    (c: CourseId) => Priority(courseMap, c)
  }

  /** Courses taken in priority order keep the steps in priority order. */
  lemma {:induction false} PriorityOrder(courseMap: map<CourseId, Course>, order: seq<CourseId>, i: nat,
                                         steps: seq<Step>, steps': seq<Step>)
    requires SortedBy(order, PriorityKey(courseMap)) && i < |order|
    requires forall a, b :: 0 <= a < b < |steps| ==> KeyLe(Priority(courseMap, steps[a].courseId), Priority(courseMap, steps[b].courseId))
    requires forall k :: 0 <= k < |steps| ==> steps[k].courseId in order[..i]
    requires |steps| <= |steps'| && steps'[..|steps|] == steps
    requires forall k :: |steps| <= k < |steps'| ==> steps'[k].courseId == order[i]
    ensures forall a, b :: 0 <= a < b < |steps'| ==> KeyLe(Priority(courseMap, steps'[a].courseId), Priority(courseMap, steps'[b].courseId))
  {
    forall a, b | 0 <= a < b < |steps'|
      ensures KeyLe(Priority(courseMap, steps'[a].courseId), Priority(courseMap, steps'[b].courseId))
    {
      if b >= |steps| {
        if a < |steps| {
          assert steps'[a] == steps[a];
          var j :| 0 <= j < i && order[j] == steps[a].courseId;
          assert KeyLe(PriorityKey(courseMap)(order[j]), PriorityKey(courseMap)(order[i]));
        }
      } else {
        assert steps'[a] == steps[a] && steps'[b] == steps[b];
      }
    }
  }

  /** One pass of the outer loop: the `i`-th course in order, when the catalogue knows it,
      has its sections placed; otherwise nothing changes. */
  method AssignNextCourse(sections: array<Section>, ghost snap: seq<Section>, courseMap: map<CourseId, Course>,
                          teacherMap: map<TeacherId, Teacher>, config: Config, byCourse: map<CourseId, seq<nat>>,
                          order: seq<CourseId>, i: nat, schedules: map<TeacherId, set<u8>>,
                          slotUsage: array<nat>, tracker: GradeSlotTracker,
                          ghost steps: seq<Step>, ghost cur: seq<Section>, ghost usage: seq<nat>, ghost u: Usage)
    returns (schedules': map<TeacherId, set<u8>>, ghost steps': seq<Step>,
             ghost cur': seq<Section>, ghost usage': seq<nat>, ghost u': Usage)
    requires config.periodsPerDay > 0 || forall j :: 0 <= j < |snap| ==> snap[j].courseId !in courseMap
    requires slotUsage.Length == config.periodsPerDay
    requires i < |order| && Distinct(order)
    requires forall k :: k in courseMap ==> courseMap[k].id == k
    requires forall c :: Group(byCourse, c) == IndicesWithCourse(snap, c)
    requires forall k :: 0 <= k < |steps| ==> steps[k].courseId in order[..i]
    requires sections[..] == cur && slotUsage[..] == usage && tracker.usage == u
    requires Inv(snap, courseMap, teacherMap, config, steps, cur, schedules, usage, u)
    modifies sections, slotUsage, tracker
    ensures sections[..] == cur' && slotUsage[..] == usage' && tracker.usage == u'
    ensures Inv(snap, courseMap, teacherMap, config, steps', cur', schedules', usage', u')
    ensures |steps| <= |steps'| && steps'[..|steps|] == steps
    ensures forall k :: |steps| <= k < |steps'| ==> steps'[k].courseId == order[i]
    ensures forall j: nat :: j in IndexSet(steps') <==>
              j in IndexSet(steps) || (order[i] in courseMap && j in IndicesWithCourse(snap, order[i]))
    ensures Indices(steps') == Indices(steps) + CourseBatch(snap, courseMap, order[i])
  {
    var c := order[i];
    schedules', steps', cur', usage', u' := schedules, steps, cur, usage, u;
    if c in courseMap && c in byCourse {
      var course := courseMap[c];
      assert config.periodsPerDay > 0 || byCourse[c] == [] by {
        if byCourse[c] != [] {
          assert snap[byCourse[c][0]].courseId == c;
        }
      }
      forall k | 0 <= k < |steps|
        ensures steps[k].courseId != c
      {
        var j :| 0 <= j < i && order[j] == steps[k].courseId;
      }
      schedules', steps', cur', usage', u' :=
        AssignCourse(sections, snap, courseMap, teacherMap, config, course, byCourse[c], schedules, slotUsage, tracker,
                     steps, cur, usage, u);
    } else if c in courseMap {
      assert IndicesWithCourse(snap, c) == Group(byCourse, c) == [];
      assert Indices(steps) + [] == Indices(steps);
    } else {
      assert Indices(steps) + [] == Indices(steps);
    }
  }

  /** `assign_time_slots`: the courses that have sections, taken by priority (their order
      among equal priorities is the hash map's), each section of a course in index order
      given the best slot for it, the same slot on every day of the week. The ghost results
      are the placements in the order they were made and the order the courses were taken in. */
  method AssignTimeSlots(sections: array<Section>, courses: seq<Course>, teachers: seq<Teacher>, config: Config)
    returns (ghost steps: seq<Step>, ghost order: seq<CourseId>)
    requires config.periodsPerDay > 0 || forall j :: 0 <= j < sections.Length ==> sections[j].courseId !in Courses.ById(courses)
    modifies sections
    ensures StepsOk(old(sections[..]), Courses.ById(courses), steps)
    ensures sections[..] == ApplySteps(old(sections[..]), steps, config.daysPerWeek)
    ensures Follows(steps, Teachers.ById(teachers), config)
    ensures forall j: nat :: j in IndexSet(steps) <==> j < sections.Length && old(sections[j]).courseId in Courses.ById(courses)
    ensures forall a, b :: 0 <= a < b < |steps| ==>
              KeyLe(Priority(Courses.ById(courses), steps[a].courseId), Priority(Courses.ById(courses), steps[b].courseId))
    ensures Distinct(order) && SortedBy(order, PriorityKey(Courses.ById(courses)))
    ensures forall c :: c in order <==> IndicesWithCourse(old(sections[..]), c) != []
    ensures Indices(steps) == Plan(old(sections[..]), Courses.ById(courses), order)
  {
    ghost var snap := sections[..];
    var courseMap := Courses.ById(courses);
    var teacherMap := Teachers.ById(teachers);
    var byCourse := GroupByCourse(sections);
    var ids := Elements(byCourse.Keys);
    var sorted := SortByKey(ids, PriorityKey(courseMap));
    SortSorted(ids, PriorityKey(courseMap));
    DistinctPermutation(ids, sorted);
    steps := AssignInOrder(sections, snap, courseMap, teacherMap, config, byCourse, sorted);
    EveryCourseListed(snap, courseMap, byCourse, ids, sorted, IndexSet(steps));
    order := sorted;
    SortedListsGrouped(snap, byCourse, ids, order);
  }

  /** Every course that has a section is among the keys the outer loop goes through, so
      the sections placed are those of the courses the catalogue knows. */
  lemma EveryCourseListed(snap: seq<Section>, courseMap: map<CourseId, Course>, byCourse: map<CourseId, seq<nat>>,
                          ids: seq<CourseId>, order: seq<CourseId>, placed: set<nat>)
    requires forall c :: Group(byCourse, c) == IndicesWithCourse(snap, c)
    requires forall c :: c in ids <==> c in byCourse
    requires multiset(order) == multiset(ids)
    requires forall j: nat :: j in placed <==> j < |snap| && snap[j].courseId in courseMap && snap[j].courseId in order
    ensures forall j: nat :: j in placed <==> j < |snap| && snap[j].courseId in courseMap
  {
    forall j: nat | j < |snap|
      ensures snap[j].courseId in order
    {
      CourseOfSectionListed(snap, byCourse, ids, order, j);
    }
  }

  /** The courses sorted are exactly those that have a section. */
  lemma {:induction false} SortedListsGrouped(snap: seq<Section>, byCourse: map<CourseId, seq<nat>>, ids: seq<CourseId>, order: seq<CourseId>)
    requires forall c :: c in byCourse <==> IndicesWithCourse(snap, c) != []
    requires forall c :: c in ids <==> c in byCourse
    requires multiset(order) == multiset(ids)
    ensures forall c :: c in order <==> IndicesWithCourse(snap, c) != []
  {
    forall c
      ensures c in order <==> IndicesWithCourse(snap, c) != []
    {
      assert c in order <==> c in multiset(order);
      assert c in ids <==> c in multiset(ids);
    }
  }

  /** The course of any section is a key of the grouping, hence one of the keys ordered. */
  lemma CourseOfSectionListed(snap: seq<Section>, byCourse: map<CourseId, seq<nat>>,
                              ids: seq<CourseId>, order: seq<CourseId>, j: nat)
    requires forall c :: Group(byCourse, c) == IndicesWithCourse(snap, c)
    requires forall c :: c in ids <==> c in byCourse
    requires multiset(order) == multiset(ids)
    requires j < |snap|
    ensures snap[j].courseId in order
  {
    var c := snap[j].courseId;
    assert j in IndicesWithCourse(snap, c);
    assert Group(byCourse, c) != [];
    assert c in byCourse;
    assert c in multiset(ids);
    assert c in multiset(order);
  }

  /** The outer loop of `assign_time_slots`, over the courses in `order`. */
  method AssignInOrder(sections: array<Section>, ghost snap: seq<Section>, courseMap: map<CourseId, Course>,
                       teacherMap: map<TeacherId, Teacher>, config: Config, byCourse: map<CourseId, seq<nat>>,
                       order: seq<CourseId>)
    returns (ghost steps: seq<Step>)
    requires config.periodsPerDay > 0 || forall j :: 0 <= j < |snap| ==> snap[j].courseId !in courseMap
    requires sections[..] == snap
    requires Distinct(order) && SortedBy(order, PriorityKey(courseMap))
    requires forall k :: k in courseMap ==> courseMap[k].id == k
    requires forall c :: Group(byCourse, c) == IndicesWithCourse(snap, c)
    modifies sections
    ensures StepsOk(snap, courseMap, steps) && sections[..] == ApplySteps(snap, steps, config.daysPerWeek)
    ensures Follows(steps, teacherMap, config)
    ensures forall j: nat :: j in IndexSet(steps) <==> j < |snap| && snap[j].courseId in courseMap && snap[j].courseId in order
    ensures Indices(steps) == Plan(snap, courseMap, order)
    ensures forall a, b :: 0 <= a < b < |steps| ==>
              KeyLe(Priority(courseMap, steps[a].courseId), Priority(courseMap, steps[b].courseId))
  {
    var schedules: map<TeacherId, set<u8>> := map[];
    var slotUsage := new nat[config.periodsPerDay](_ => 0);
    var tracker := new GradeSlotTracker();
    steps := [];
    ghost var cur, usage, u := snap, slotUsage[..], tracker.usage;
    assert usage == SlotUsageOf([], config.periodsPerDay);
    for i := 0 to |order|
      invariant sections[..] == cur && slotUsage[..] == usage && tracker.usage == u
      invariant Inv(snap, courseMap, teacherMap, config, steps, cur, schedules, usage, u)
      invariant Outer(snap, courseMap, order[..i], steps)
    {
      ghost var prev := steps;
      schedules, steps, cur, usage, u :=
        AssignNextCourse(sections, snap, courseMap, teacherMap, config, byCourse, order, i, schedules, slotUsage, tracker,
                         steps, cur, usage, u);
      OuterStep(snap, courseMap, order, i, prev, steps);
    }
    assert order[..|order|] == order;
  }

  /** What the outer loop has done after the courses `done`: only their sections are placed,
      all of those of known courses, course after course as the plan lists them, with the
      priority never decreasing. */
  ghost predicate Outer(snap: seq<Section>, courseMap: map<CourseId, Course>, done: seq<CourseId>, steps: seq<Step>) {
    && (forall k :: 0 <= k < |steps| ==> steps[k].courseId in done)
    && (forall j: nat :: j in IndexSet(steps) <==> j < |snap| && snap[j].courseId in courseMap && snap[j].courseId in done)
    && Indices(steps) == Plan(snap, courseMap, done)
    && (forall a, b :: 0 <= a < b < |steps| ==>
          KeyLe(Priority(courseMap, steps[a].courseId), Priority(courseMap, steps[b].courseId)))
  }

  /** The outer loop's bookkeeping after one more course. */
  lemma {:induction false} OuterStep(snap: seq<Section>, courseMap: map<CourseId, Course>, order: seq<CourseId>, i: nat,
                  steps: seq<Step>, steps': seq<Step>)
    requires i < |order| && SortedBy(order, PriorityKey(courseMap))
    requires Outer(snap, courseMap, order[..i], steps)
    requires |steps| <= |steps'| && steps'[..|steps|] == steps
    requires forall k :: |steps| <= k < |steps'| ==> steps'[k].courseId == order[i]
    requires forall j: nat :: j in IndexSet(steps') <==>
               j in IndexSet(steps) || (order[i] in courseMap && j in IndicesWithCourse(snap, order[i]))
    requires Indices(steps') == Indices(steps) + CourseBatch(snap, courseMap, order[i])
    ensures Outer(snap, courseMap, order[..i + 1], steps')
  {
    PriorityOrder(courseMap, order, i, steps, steps');
    OuterSets(snap, courseMap, order, i, steps, steps');
    PlanNext(snap, courseMap, order, i);
  }

  /** The courses and sections placed after one more course. */
  lemma {:induction false} OuterSets(snap: seq<Section>, courseMap: map<CourseId, Course>, order: seq<CourseId>, i: nat,
                                     steps: seq<Step>, steps': seq<Step>)
    requires i < |order|
    requires forall k :: 0 <= k < |steps| ==> steps[k].courseId in order[..i]
    requires forall j: nat :: j in IndexSet(steps) <==> j < |snap| && snap[j].courseId in courseMap && snap[j].courseId in order[..i]
    requires |steps| <= |steps'| && steps'[..|steps|] == steps
    requires forall k :: |steps| <= k < |steps'| ==> steps'[k].courseId == order[i]
    requires forall j: nat :: j in IndexSet(steps') <==>
               j in IndexSet(steps) || (order[i] in courseMap && j in IndicesWithCourse(snap, order[i]))
    ensures forall k :: 0 <= k < |steps'| ==> steps'[k].courseId in order[..i + 1]
    ensures forall j: nat :: j in IndexSet(steps') <==> j < |snap| && snap[j].courseId in courseMap && snap[j].courseId in order[..i + 1]
  {
    assert order[..i + 1] == order[..i] + [order[i]];
    forall k | 0 <= k < |steps'|
      ensures steps'[k].courseId in order[..i + 1]
    {
      if k < |steps| {
        assert steps'[k] == steps[k];
      }
    }
  }
}
