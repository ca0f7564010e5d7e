/** Phase 1 of the scheduler: create the sections of every course and give each one the
    least-loaded qualified teacher that can still take a section. */
module SectionCreator {
  import opened Wrappers
  import opened Ids
  import opened Seqs
  import opened Text
  import opened Sections
  import opened Courses
  import opened Teachers

  /** `k` copies of `t`. */
  function Copies(t: Teacher, k: nat): seq<Teacher> {
    if k == 0 then [] else Copies(t, k - 1) + [t]
  }

  lemma {:induction false} CopiesAre(t: Teacher, k: nat)
    ensures |Copies(t, k)| == k && forall i :: 0 <= i < k ==> Copies(t, k)[i] == t
  {
    if k > 0 {
      CopiesAre(t, k - 1);
    }
  }

  /** The teachers listed for course `c`: teachers in input order, each once per
      occurrence of `c` among its subjects. */
  function TeachersFor(ts: seq<Teacher>, c: CourseId): seq<Teacher> {
    if |ts| == 0 then []
    else TeachersFor(ts[..|ts| - 1], c) + Copies(ts[|ts| - 1], multiset(ts[|ts| - 1].subjects)[c])
  }

  /** The teachers listed for a course are exactly the teachers that can teach it. */
  lemma {:induction false} TeachersForQualified(ts: seq<Teacher>, c: CourseId)
    ensures forall i :: 0 <= i < |TeachersFor(ts, c)| ==> TeachersFor(ts, c)[i] in ts && TeachersFor(ts, c)[i].CanTeach(c)
    ensures forall k :: 0 <= k < |ts| && ts[k].CanTeach(c) ==> ts[k] in TeachersFor(ts, c)
  {
    if |ts| > 0 {
      var init := ts[..|ts| - 1];
      var t := ts[|ts| - 1];
      var n := multiset(t.subjects)[c];
      TeachersForQualified(init, c);
      CopiesAre(t, n);
      assert forall k :: 0 <= k < |init| ==> init[k] == ts[k];
      assert t.CanTeach(c) <==> n > 0;
      var r := TeachersFor(ts, c);
      assert r == TeachersFor(init, c) + Copies(t, n);
      forall k | 0 <= k < |ts| && ts[k].CanTeach(c) ensures ts[k] in r {
        if k == |ts| - 1 {
          assert r[|TeachersFor(init, c)|] == t;
        } else {
          assert ts[k] in TeachersFor(init, c);
        }
      }
    }
  }

  function Lookup(m: map<CourseId, seq<Teacher>>, c: CourseId): seq<Teacher> {
    if c in m then m[c] else []
  }

  lemma TeachersForSnoc(ts: seq<Teacher>, i: nat, c: CourseId)
    requires i < |ts|
    ensures TeachersFor(ts[..i + 1], c) == TeachersFor(ts[..i], c) + Copies(ts[i], multiset(ts[i].subjects)[c])
  {
    assert ts[..i + 1][..i] == ts[..i];
  }

  /** The invariant of the inner loop of `build_teachers_by_course`: `m` holds the lists
      for the first `i` teachers plus teacher `i` for its first `j` subjects. */
  ghost predicate PushedUpTo(m: map<CourseId, seq<Teacher>>, ts: seq<Teacher>, i: nat, j: nat)
    requires i < |ts| && j <= |ts[i].subjects|
  {
    forall c :: Lookup(m, c) == TeachersFor(ts[..i], c) + Copies(ts[i], multiset(ts[i].subjects[..j])[c])
  }

  lemma MultisetPrefixSnoc<T>(s: seq<T>, j: nat, x: T)
    requires j < |s|
    ensures multiset(s[..j + 1])[x] == multiset(s[..j])[x] + (if s[j] == x then 1 else 0)
  {
    assert s[..j + 1] == s[..j] + [s[j]];
  }

  lemma PushStep(m: map<CourseId, seq<Teacher>>, ts: seq<Teacher>, i: nat, j: nat)
    requires i < |ts| && j < |ts[i].subjects|
    requires PushedUpTo(m, ts, i, j)
    ensures PushedUpTo(m[ts[i].subjects[j] := Lookup(m, ts[i].subjects[j]) + [ts[i]]], ts, i, j + 1)
  {
    var t := ts[i];
    var c := t.subjects[j];
    var m' := m[c := Lookup(m, c) + [t]];
    forall c' ensures Lookup(m', c') == TeachersFor(ts[..i], c') + Copies(t, multiset(t.subjects[..j + 1])[c']) {
      MultisetPrefixSnoc(t.subjects, j, c');
      PushOne(m, c, t, c', TeachersFor(ts[..i], c'), multiset(t.subjects[..j])[c']);
    }
  }

  lemma PushOne(m: map<CourseId, seq<Teacher>>, c: CourseId, t: Teacher, c': CourseId, prior: seq<Teacher>, n: nat)
    requires Lookup(m, c') == prior + Copies(t, n)
    ensures Lookup(m[c := Lookup(m, c) + [t]], c') == prior + Copies(t, n + if c == c' then 1 else 0)
  {
  }

  /** The invariant of the outer loop: `m` holds the lists for the first `i` teachers. */
  ghost predicate BuiltUpTo(m: map<CourseId, seq<Teacher>>, ts: seq<Teacher>, i: nat)
    requires i <= |ts|
  {
    forall c :: Lookup(m, c) == TeachersFor(ts[..i], c)
  }

  lemma StartTeacher(m: map<CourseId, seq<Teacher>>, ts: seq<Teacher>, i: nat)
    requires i < |ts| && BuiltUpTo(m, ts, i)
    ensures PushedUpTo(m, ts, i, 0)
  {
    assert ts[i].subjects[..0] == [];
  }

  lemma FinishTeacher(m: map<CourseId, seq<Teacher>>, ts: seq<Teacher>, i: nat)
    requires i < |ts| && PushedUpTo(m, ts, i, |ts[i].subjects|)
    ensures BuiltUpTo(m, ts, i + 1)
  {
    assert ts[i].subjects[..|ts[i].subjects|] == ts[i].subjects;
    forall c ensures Lookup(m, c) == TeachersFor(ts[..i + 1], c) {
      TeachersForSnoc(ts, i, c);
    }
  }

  /** Every list in the map holds at least one teacher. */
  predicate NoEmptyLists(m: map<CourseId, seq<Teacher>>) {
    forall c :: c in m ==> m[c] != []
  }

  /** `build_teachers_by_course`: for each teacher and each of its subjects, push the
      teacher onto that course's list. */
  method BuildTeachersByCourse(ts: seq<Teacher>) returns (m: map<CourseId, seq<Teacher>>)
    ensures m == BuildMap(ts)
    ensures forall c :: Lookup(m, c) == TeachersFor(ts, c)
    ensures forall c :: c in m <==> TeachersFor(ts, c) != []
  {
    m := map[];
    var i := 0;
    while i < |ts|
      invariant 0 <= i <= |ts|
      invariant m == BuildMap(ts[..i])
    {
      assert ts[..i + 1][..i] == ts[..i];
      m := PushTeacher(m, ts[i]);
      i := i + 1;
    }
    assert ts[..i] == ts;
    BuildMapSpec(ts);
    BuiltAll(m, ts);
  }

  /** The lists after pushing every teacher of `ts`, one teacher after the other. */
  function BuildMap(ts: seq<Teacher>): map<CourseId, seq<Teacher>> {
    if |ts| == 0 then map[]
    else PushAll(BuildMap(ts[..|ts| - 1]), ts[|ts| - 1], ts[|ts| - 1].subjects)
  }

  /** After all the teachers, the lists are those of all the teachers and none is empty. */
  lemma {:induction false} BuildMapSpec(ts: seq<Teacher>)
    ensures BuiltUpTo(BuildMap(ts), ts, |ts|) && NoEmptyLists(BuildMap(ts))
    decreases |ts|
  {
    if |ts| > 0 {
      var init := ts[..|ts| - 1];
      BuildMapSpec(init);
      assert init[..|init|] == init && ts[..|ts| - 1] == init;
      BuildStep(BuildMap(init), ts, |ts| - 1);
    }
  }

  /** Pushing teacher `i` onto the lists of the first `i` teachers gives the lists of the
      first `i + 1`. */
  lemma BuildStep(m: map<CourseId, seq<Teacher>>, ts: seq<Teacher>, i: nat)
    requires i < |ts| && BuiltUpTo(m, ts, i) && NoEmptyLists(m)
    ensures BuiltUpTo(PushAll(m, ts[i], ts[i].subjects), ts, i + 1)
    ensures NoEmptyLists(PushAll(m, ts[i], ts[i].subjects))
  {
    var t := ts[i];
    StartTeacher(m, ts, i);
    PushAllSpec(m, ts, i, |t.subjects|);
    assert t.subjects[..|t.subjects|] == t.subjects;
    FinishTeacher(PushAll(m, t, t.subjects), ts, i);
  }

  /** Teacher `t` pushed onto the list of each course in `subs`, in order. */
  function PushAll(m: map<CourseId, seq<Teacher>>, t: Teacher, subs: seq<CourseId>): map<CourseId, seq<Teacher>> {
    if |subs| == 0 then m
    else
      var m0 := PushAll(m, t, subs[..|subs| - 1]);
      var c := subs[|subs| - 1];
      m0[c := Lookup(m0, c) + [t]]
  }

  /** The inner loop: the teacher pushed onto the list of each of its subjects. */
  method PushTeacher(m: map<CourseId, seq<Teacher>>, t: Teacher) returns (m': map<CourseId, seq<Teacher>>)
    ensures m' == PushAll(m, t, t.subjects)
  {
    m' := m;
    var j := 0;
    while j < |t.subjects|
      invariant 0 <= j <= |t.subjects|
      invariant m' == PushAll(m, t, t.subjects[..j])
    {
      var c := t.subjects[j];
      assert t.subjects[..j + 1][..j] == t.subjects[..j];
      m' := m'[c := Lookup(m', c) + [t]];
      j := j + 1;
    }
    assert t.subjects[..j] == t.subjects;
  }

  /** Pushing teacher `i` for its first `j` subjects onto the lists of the first `i`
      teachers gives the lists counting those subjects, and keeps every list non-empty. */
  lemma {:induction false} PushAllSpec(m: map<CourseId, seq<Teacher>>, ts: seq<Teacher>, i: nat, j: nat)
    requires i < |ts| && j <= |ts[i].subjects| && PushedUpTo(m, ts, i, 0) && NoEmptyLists(m)
    ensures PushedUpTo(PushAll(m, ts[i], ts[i].subjects[..j]), ts, i, j)
    ensures NoEmptyLists(PushAll(m, ts[i], ts[i].subjects[..j]))
    decreases j
  {
    if j > 0 {
      var subs := ts[i].subjects;
      PushAllSpec(m, ts, i, j - 1);
      assert subs[..j][..j - 1] == subs[..j - 1];
      PushStep(PushAll(m, ts[i], subs[..j - 1]), ts, i, j - 1);
    }
  }

  /** Once every teacher is in, each course's list is its qualified teachers, and only
      courses some teacher can teach are keys. */
  lemma BuiltAll(m: map<CourseId, seq<Teacher>>, ts: seq<Teacher>)
    requires BuiltUpTo(m, ts, |ts|) && NoEmptyLists(m)
    ensures forall c :: Lookup(m, c) == TeachersFor(ts, c)
    ensures forall c :: c in m <==> TeachersFor(ts, c) != []
  {
    assert ts[..|ts|] == ts;
  }

  /** `teacher_section_counts.get(id).unwrap_or(0)`. */
  function Get(counts: map<TeacherId, nat>, id: TeacherId): nat {
    if id in counts then counts[id] else 0
  }

  predicate CanTakeMore(t: Teacher, counts: map<TeacherId, nat>) {
    Get(counts, t.id) < t.maxSections
  }

  /** The filter on `count < max_sections` followed by `min_by_key(count)`: the index of
      the first teacher, among those that can take more, whose count is least. */
  function ChooseTeacher(q: seq<Teacher>, counts: map<TeacherId, nat>): (r: Option<nat>)
    ensures r.None? <==> forall k :: 0 <= k < |q| ==> !CanTakeMore(q[k], counts)
    ensures r.Some? ==> r.value < |q| && CanTakeMore(q[r.value], counts)
    ensures r.Some? ==> forall k :: 0 <= k < |q| && CanTakeMore(q[k], counts) ==>
                          Get(counts, q[r.value].id) <= Get(counts, q[k].id)
    ensures r.Some? ==> forall k :: 0 <= k < r.value && CanTakeMore(q[k], counts) ==>
                          Get(counts, q[r.value].id) < Get(counts, q[k].id)
  {
    if |q| == 0 then None
    else
      assert forall k :: 1 <= k < |q| ==> q[k] == q[1..][k - 1];
      var rest := ChooseTeacher(q[1..], counts);
      if CanTakeMore(q[0], counts) &&
         (rest.None? || Get(counts, q[0].id) <= Get(counts, q[1..][rest.value].id))
      then Some(0)
      else if rest.None? then None
      else Some(rest.value + 1)
  }

  /** The teacher id `create_sections` assigns, given the qualified list and the counts. */
  function Chosen(q: seq<Teacher>, counts: map<TeacherId, nat>): Option<TeacherId> {
    match ChooseTeacher(q, counts)
    case None => None
    case Some(k) => Some(q[k].id)
  }

  /** The counts after a sequence of sections: one per section taught. */
  function CountsOf(ss: seq<Section>): map<TeacherId, nat> {
    if |ss| == 0 then map[]
    else
      var m := CountsOf(ss[..|ss| - 1]);
      match ss[|ss| - 1].teacherId
      case None => m
      case Some(t) => m[t := Get(m, t) + 1]
  }

  /** The count kept for a teacher id is the number of sections carrying that id. */
  lemma {:induction false} CountsOfCounts(ss: seq<Section>, id: TeacherId)
    ensures Get(CountsOf(ss), id) == Count(ss, (s: Section) => s.teacherId == Some(id))
  {
    if |ss| > 0 {
      var init := ss[..|ss| - 1];
      assert ss == init + [ss[|ss| - 1]];
      CountAppend(init, [ss[|ss| - 1]], (s: Section) => s.teacherId == Some(id));
      CountsOfCounts(init, id);
    }
  }

  /** `"{course}-{n + 1}"`. */
  function SectionName(c: CourseId, n: nat): string {
    c + "-" + NatToString(n + 1)
  }

  /** Sections of one course numbered apart get different ids. */
  lemma SectionNamesDistinct(c: CourseId, n: nat, k: nat)
    requires SectionName(c, n) == SectionName(c, k)
    ensures n == k
  {
    assert SectionName(c, n)[|c| + 1..] == NatToString(n + 1);
    assert SectionName(c, k)[|c| + 1..] == NatToString(k + 1);
    NatToStringInjective(n + 1, k + 1);
  }

  /** The first `k` sections of a course, before any teacher is chosen. */
  function CourseSections(c: Course, k: nat): (r: seq<Section>)
    ensures |r| == k
  {
    if k == 0 then [] else CourseSections(c, k - 1) + [NewSection(SectionName(c.id, k - 1), c.id, c.maxStudents)]
  }

  /** Section `j` of a course is `Section::new("{course}-{j + 1}", course, max_students)`. */
  lemma {:induction false} CourseSectionsAt(c: Course, k: nat, j: nat)
    requires j < k
    ensures CourseSections(c, k)[j] == NewSection(SectionName(c.id, j), c.id, c.maxStudents)
  {
    if j < k - 1 {
      CourseSectionsAt(c, k - 1, j);
    }
  }

  /** All sections, course after course in input order, before any teacher is chosen. */
  function Skeleton(cs: seq<Course>): seq<Section> {
    if |cs| == 0 then []
    else Skeleton(cs[..|cs| - 1]) + CourseSections(cs[|cs| - 1], cs[|cs| - 1].sections)
  }

  /** Number of sections requested over all courses. */
  function TotalSections(cs: seq<Course>): nat {
    if |cs| == 0 then 0 else TotalSections(cs[..|cs| - 1]) + cs[|cs| - 1].sections
  }

  lemma {:induction false} SkeletonSize(cs: seq<Course>)
    ensures |Skeleton(cs)| == TotalSections(cs)
  {
    if |cs| > 0 {
      SkeletonSize(cs[..|cs| - 1]);
    }
  }

  /** `r` is the skeleton `skel` with some teachers filled in. */
  predicate Shaped(r: seq<Section>, skel: seq<Section>) {
    |r| == |skel| && forall j :: 0 <= j < |r| ==> r[j].(teacherId := None) == skel[j]
  }

  /** The teacher of every section is the choice made from the counts of the sections
      before it. */
  predicate ChoicesFollow(teachers: seq<Teacher>, r: seq<Section>) {
    |r| == 0 ||
    (ChoicesFollow(teachers, r[..|r| - 1]) &&
     r[|r| - 1].teacherId == Chosen(TeachersFor(teachers, r[|r| - 1].courseId), CountsOf(r[..|r| - 1])))
  }

  lemma ShapedSnoc(r: seq<Section>, skel: seq<Section>, s: Section, x: Section)
    requires Shaped(r, skel) && s.(teacherId := None) == x
    ensures Shaped(r + [s], skel + [x])
  {
  }

  lemma ChoicesFollowSnoc(teachers: seq<Teacher>, r: seq<Section>, s: Section)
    requires ChoicesFollow(teachers, r)
    requires s.teacherId == Chosen(TeachersFor(teachers, s.courseId), CountsOf(r))
    ensures ChoicesFollow(teachers, r + [s])
  {
    assert (r + [s])[..|r|] == r;
  }

  /** The choices, section by section. */
  lemma {:induction false} ChoicesFollowAt(teachers: seq<Teacher>, r: seq<Section>, i: nat)
    requires ChoicesFollow(teachers, r) && i < |r|
    ensures ChoicesFollow(teachers, r[..i + 1])
    ensures r[i].teacherId == Chosen(TeachersFor(teachers, r[i].courseId), CountsOf(r[..i]))
  {
    if i < |r| - 1 {
      ChoicesFollowAt(teachers, r[..|r| - 1], i);
      assert r[..|r| - 1][..i + 1] == r[..i + 1];
      assert r[..|r| - 1][..i] == r[..i];
    } else {
      assert r[..i + 1] == r;
    }
  }

  lemma CountsOfSnoc(r: seq<Section>, s: Section)
    ensures CountsOf(r + [s]) == match s.teacherId
      case None => CountsOf(r)
      case Some(t) => CountsOf(r)[t := Get(CountsOf(r), t) + 1]
  {
    assert (r + [s])[..|r|] == r;
  }

  /** The invariant of `create_sections`: the sections so far are `skel` with teachers
      filled in as chosen, and `counts` are their counts. */
  predicate Progress(teachers: seq<Teacher>, r: seq<Section>, counts: map<TeacherId, nat>, skel: seq<Section>) {
    Shaped(r, skel) && ChoicesFollow(teachers, r) && counts == CountsOf(r)
  }

  /** One step of the inner loop of `create_sections` keeps its invariant. */
  lemma CreateStep(teachers: seq<Teacher>, r: seq<Section>, skel: seq<Section>, counts: map<TeacherId, nat>,
                   blank: Section, section: Section, counts': map<TeacherId, nat>)
    requires Progress(teachers, r, counts, skel)
    requires section.(teacherId := None) == blank
    requires section.teacherId == Chosen(TeachersFor(teachers, section.courseId), counts)
    requires counts' == match section.teacherId
                        case None => counts
                        case Some(t) => counts[t := Get(counts, t) + 1]
    ensures Progress(teachers, r + [section], counts', skel + [blank])
  {
    ShapedSnoc(r, skel, section, blank);
    ChoicesFollowSnoc(teachers, r, section);
    CountsOfSnoc(r, section);
  }

  /** One pass of the inner loop of `create_sections`: section `k` of `course`, given the
      least-loaded qualified teacher when there is one, and the counts updated for it. */
  method NextSection(course: Course, k: nat, qualified: seq<Teacher>, counts: map<TeacherId, nat>)
    returns (section: Section, counts': map<TeacherId, nat>)
    ensures section.(teacherId := None) == NewSection(SectionName(course.id, k), course.id, course.maxStudents)
    ensures section.courseId == course.id
    ensures section.teacherId == Chosen(qualified, counts)
    ensures counts' == match section.teacherId
                       case None => counts
                       case Some(t) => counts[t := Get(counts, t) + 1]
  {
    section := NewSection(SectionName(course.id, k), course.id, course.maxStudents);
    counts' := counts;
    if |qualified| > 0 {
      var choice := ChooseTeacher(qualified, counts);
      if choice.Some? {
        var t := qualified[choice.value];
        section := section.(teacherId := Some(t.id));
        counts' := counts[t.id := Get(counts, t.id) + 1];
      }
    }
  }

  /** The sections of one course in `create_sections`, appended to those made so far. */
  method AddCourseSections(teachers: seq<Teacher>, course: Course, qualified: seq<Teacher>,
                           r: seq<Section>, counts: map<TeacherId, nat>, ghost skel: seq<Section>)
    returns (r': seq<Section>, counts': map<TeacherId, nat>)
    requires qualified == TeachersFor(teachers, course.id)
    requires Progress(teachers, r, counts, skel)
    ensures Progress(teachers, r', counts', skel + CourseSections(course, course.sections))
  {
    r', counts' := r, counts;
    var k := 0;
    while k < course.sections
      invariant 0 <= k <= course.sections
      invariant Progress(teachers, r', counts', skel + CourseSections(course, k))
    {
      ghost var blank := NewSection(SectionName(course.id, k), course.id, course.maxStudents);
      ghost var old_counts := counts';
      var section;
      section, counts' := NextSection(course, k, qualified, counts');
      CreateStep(teachers, r', skel + CourseSections(course, k), old_counts, blank, section, counts');
      assert skel + CourseSections(course, k) + [blank] == skel + CourseSections(course, k + 1);
      r' := r' + [section];
      k := k + 1;
    }
  }

  /** `create_sections`. The result is the skeleton with teachers filled in, and the teacher
      of each section is the choice made from the counts of the sections before it. */
  method CreateSections(courses: seq<Course>, teachers: seq<Teacher>) returns (r: seq<Section>)
    ensures |r| == TotalSections(courses)
    ensures Shaped(r, Skeleton(courses))
    ensures ChoicesFollow(teachers, r)
  {
    var byCourse := BuildTeachersByCourse(teachers);
    r := AddAllCourses(courses, teachers, byCourse);
  }

  /** The loop of `create_sections` over the courses, given the teacher lists. */
  method AddAllCourses(courses: seq<Course>, teachers: seq<Teacher>, byCourse: map<CourseId, seq<Teacher>>)
    returns (r: seq<Section>)
    requires byCourse == BuildMap(teachers)
    ensures |r| == TotalSections(courses)
    ensures Shaped(r, Skeleton(courses))
    ensures ChoicesFollow(teachers, r)
  {
    var counts: map<TeacherId, nat> := map[];
    r := [];
    var i := 0;
    while i < |courses|
      invariant 0 <= i <= |courses|
      invariant Progress(teachers, r, counts, Skeleton(courses[..i]))
    {
      var course := courses[i];
      var qualified := if course.id in byCourse then byCourse[course.id] else [];
      LookupBuilt(teachers, course.id);
      r, counts := AddCourseSections(teachers, course, qualified, r, counts, Skeleton(courses[..i]));
      SkeletonStep(courses, i);
      i := i + 1;
    }
    AllCoursesDone(teachers, r, counts, courses);
  }

  lemma SkeletonStep(cs: seq<Course>, i: nat)
    requires i < |cs|
    ensures Skeleton(cs[..i + 1]) == Skeleton(cs[..i]) + CourseSections(cs[i], cs[i].sections)
  {
    assert cs[..i + 1][..i] == cs[..i];
  }

  /** After the last course the sections are the whole skeleton, one per requested
      section. */
  lemma AllCoursesDone(teachers: seq<Teacher>, r: seq<Section>, counts: map<TeacherId, nat>, cs: seq<Course>)
    requires Progress(teachers, r, counts, Skeleton(cs[..|cs|]))
    ensures |r| == TotalSections(cs) && Shaped(r, Skeleton(cs)) && ChoicesFollow(teachers, r)
  {
    assert cs[..|cs|] == cs;
    SkeletonSize(cs);
  }

  /** The list built for a course is its qualified teachers, and the course is a key
      exactly when it has one. */
  lemma LookupBuilt(ts: seq<Teacher>, c: CourseId)
    ensures Lookup(BuildMap(ts), c) == TeachersFor(ts, c)
    ensures c in BuildMap(ts) <==> TeachersFor(ts, c) != []
  {
    BuildMapSpec(ts);
    BuiltAll(BuildMap(ts), ts);
  }

  /** Every teacher chosen can teach the section's course. */
  lemma ChoicesQualified(teachers: seq<Teacher>, r: seq<Section>, i: nat)
    requires ChoicesFollow(teachers, r) && i < |r| && r[i].teacherId.Some?
    ensures exists k :: 0 <= k < |teachers| && teachers[k].id == r[i].teacherId.value &&
                        teachers[k].CanTeach(r[i].courseId)
  {
    ChoicesFollowAt(teachers, r, i);
    var q := TeachersFor(teachers, r[i].courseId);
    var c := ChooseTeacher(q, CountsOf(r[..i])).value;
    TeachersForQualified(teachers, r[i].courseId);
    assert q[c] in teachers;
  }

  /** No teacher id is given more sections than the cap of some teacher carrying that id
      (its own cap when ids are distinct). */
  lemma {:induction false} ChoicesRespectCaps(teachers: seq<Teacher>, r: seq<Section>, id: TeacherId)
    requires ChoicesFollow(teachers, r)
    requires Get(CountsOf(r), id) > 0
    ensures exists k :: 0 <= k < |teachers| && teachers[k].id == id &&
                        Get(CountsOf(r), id) <= teachers[k].maxSections
  {
    var n := |r| - 1;
    var init := r[..n];
    var before := CountsOf(init);
    var q := TeachersFor(teachers, r[n].courseId);
    assert r[..n] == init;
    match ChooseTeacher(q, before)
    case None =>
      ChoicesRespectCaps(teachers, init, id);
    case Some(c) =>
      var t := q[c];
      if t.id == id {
        TeachersForQualified(teachers, r[n].courseId);
        assert t in teachers;
        var k :| 0 <= k < |teachers| && teachers[k] == t;
        assert Get(CountsOf(r), id) == Get(before, id) + 1;
      } else {
        assert Get(CountsOf(r), id) == Get(before, id);
        ChoicesRespectCaps(teachers, init, id);
      }
  }
}
