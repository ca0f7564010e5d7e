/** Phase 3 of the scheduler: give each section the smallest room that seats it, has the
    course's required features and is free and available at every one of its periods. */
module RoomAssigner {
  import opened Wrappers
  import opened Ids
  import opened Seqs
  import opened Periods
  import opened Sections
  import opened Courses
  import opened Rooms
  import opened StableSort

  /** The periods a room is already booked for. */
  function Booked(schedules: map<RoomId, set<Period>>, id: RoomId): set<Period> {
    if id in schedules then schedules[id] else {}
  }

  /** The availability test of `find_suitable_room`: at each of the periods the room is
      neither booked nor marked unavailable. */
  predicate FreeAt(room: Room, schedules: map<RoomId, set<Period>>, periods: seq<Period>) {
    forall k :: 0 <= k < |periods| ==> periods[k] !in Booked(schedules, room.id) && room.IsAvailable(periods[k])
  }

  /** A room that seats the section, has every required feature and is free. */
  predicate Suitable(section: Section, room: Room, required: seq<string>, schedules: map<RoomId, set<Period>>) {
    room.capacity >= section.capacity && room.HasFeatures(required) && FreeAt(room, schedules, section.periods)
  }

  /** `find_suitable_room`: the position of the first suitable room in `rooms`. */
  function FirstSuitable(section: Section, rooms: seq<Room>, required: seq<string>,
                         schedules: map<RoomId, set<Period>>): (r: Option<nat>)
    ensures r.Some? ==> r.value < |rooms| && Suitable(section, rooms[r.value], required, schedules)
    ensures r.Some? ==> forall k :: 0 <= k < r.value ==> !Suitable(section, rooms[k], required, schedules)
    ensures r.None? ==> forall k :: 0 <= k < |rooms| ==> !Suitable(section, rooms[k], required, schedules)
  {
    if |rooms| == 0 then None
    else if Suitable(section, rooms[0], required, schedules) then Some(0)
    else match FirstSuitable(section, rooms[1..], required, schedules)
      case None => None
      case Some(k) => Some(k + 1)
  }

  /** The room `find_suitable_room` returns. */
  function PickRoom(section: Section, rooms: seq<Room>, required: seq<string>,
                    schedules: map<RoomId, set<Period>>): Option<Room> {
    match FirstSuitable(section, rooms, required, schedules)
    case None => None
    case Some(k) => Some(rooms[k])
  }

  /** `find_suitable_room`, scanning the rooms in order and returning at the first fit. */
  method FindSuitableRoom(section: Section, rooms: seq<Room>, required: seq<string>,
                          schedules: map<RoomId, set<Period>>) returns (r: Option<nat>)
    ensures r == FirstSuitable(section, rooms, required, schedules)
  {
    for i := 0 to |rooms|
      invariant forall k :: 0 <= k < i ==> !Suitable(section, rooms[k], required, schedules)
    {
      var room := rooms[i];
      if room.capacity < section.capacity {
        continue;
      }
      if !room.HasFeatures(required) {
        continue;
      }
      var available := IsFree(room, schedules, section.periods);
      if available {
        FirstSuitableIs(section, rooms, required, schedules, i);
        return Some(i);
      }
    }
    FirstSuitableNone(section, rooms, required, schedules);
    return None;
  }

  /** `section.periods.iter().all(..)` of the availability test. */
  method IsFree(room: Room, schedules: map<RoomId, set<Period>>, periods: seq<Period>) returns (b: bool)
    ensures b == FreeAt(room, schedules, periods)
  {
    var booked := Booked(schedules, room.id);
    for k := 0 to |periods|
      invariant FreeAt(room, schedules, periods[..k])
    {
      if periods[k] in booked || !room.IsAvailable(periods[k]) {
        return false;
      }
    }
    assert periods[..|periods|] == periods;
    return true;
  }

  /** The first suitable room is the one after a run of unsuitable rooms. */
  lemma {:induction false} FirstSuitableIs(section: Section, rooms: seq<Room>, required: seq<string>,
                                           schedules: map<RoomId, set<Period>>, i: nat)
    requires i < |rooms| && Suitable(section, rooms[i], required, schedules)
    requires forall k :: 0 <= k < i ==> !Suitable(section, rooms[k], required, schedules)
    ensures FirstSuitable(section, rooms, required, schedules) == Some(i)
  {
    if i > 0 {
      FirstSuitableIs(section, rooms[1..], required, schedules, i - 1);
    }
  }

  lemma {:induction false} FirstSuitableNone(section: Section, rooms: seq<Room>, required: seq<string>,
                                             schedules: map<RoomId, set<Period>>)
    requires forall k :: 0 <= k < |rooms| ==> !Suitable(section, rooms[k], required, schedules)
    ensures FirstSuitable(section, rooms, required, schedules) == None
  {
    if |rooms| > 0 {
      FirstSuitableNone(section, rooms[1..], required, schedules);
    }
  }

  /** The sort key of the rooms: capacity, smallest first. */
  function CapacityKey(): Room -> Key {
    (r: Room) => Key(r.capacity, 0)
  }

  /** Since the rooms are tried smallest first, the room picked is the smallest of all the
      rooms that would have suited. */
  lemma SmallestSuitable(section: Section, rooms: seq<Room>, required: seq<string>, schedules: map<RoomId, set<Period>>)
    ensures var sorted := SortByKey(rooms, CapacityKey());
            var r := PickRoom(section, sorted, required, schedules);
            r.Some? ==> forall k :: 0 <= k < |rooms| && Suitable(section, rooms[k], required, schedules) ==>
                          r.value.capacity <= rooms[k].capacity
    ensures var sorted := SortByKey(rooms, CapacityKey());
            PickRoom(section, sorted, required, schedules).None? ==>
              forall k :: 0 <= k < |rooms| ==> !Suitable(section, rooms[k], required, schedules)
  {
    var sorted := SortByKey(rooms, CapacityKey());
    SortSorted(rooms, CapacityKey());
    var m := FirstSuitable(section, sorted, required, schedules);
    forall k | 0 <= k < |rooms|
      ensures exists j :: 0 <= j < |sorted| && sorted[j] == rooms[k]
    {
      assert rooms[k] in multiset(sorted);
    }
    if m.Some? {
      forall k | 0 <= k < |rooms| && Suitable(section, rooms[k], required, schedules)
        ensures sorted[m.value].capacity <= rooms[k].capacity
      {
        var j :| 0 <= j < |sorted| && sorted[j] == rooms[k];
        if j != m.value {
          assert KeyLe(CapacityKey()(sorted[m.value]), CapacityKey()(sorted[j]));
        }
      }
    }
  }

  /** The features the section's course requires; none for a course missing from the
      catalogue. */
  function Required(courseMap: map<CourseId, Course>, s: Section): seq<string> {
    if s.courseId in courseMap then courseMap[s.courseId].requiredFeatures else []
  }

  /** The sort key of the sections: `Reverse(feature_count)`, most features first. */
  function FeatureKey(courseMap: map<CourseId, Course>, snap: seq<Section>): nat -> Key {
    (i: nat) => Key(if i < |snap| then -|Required(courseMap, snap[i])| else 0, 0)
  }

  /** `(0..n).collect()`. */
  function Range(n: nat): (r: seq<nat>)
    ensures |r| == n && forall k :: 0 <= k < n ==> r[k] == k
  {
    seq(n, k requires 0 <= k < n => k)
  }

  /** One section taken by the loop of `assign_rooms`, and the room it got, if any. */
  datatype Pick = Pick(index: nat, room: Option<Room>)

  /** `room_schedules` after the picks: each room given a section is booked for all of the
      section's periods. */
  function SchedulesAfter(snap: seq<Section>, picks: seq<Pick>): map<RoomId, set<Period>> {
    if |picks| == 0 then map[]
    else
      var m := SchedulesAfter(snap, picks[..|picks| - 1]);
      var p := picks[|picks| - 1];
      if p.room.Some? && p.index < |snap| then
        m[p.room.value.id := Booked(m, p.room.value.id) + Elems(snap[p.index].periods)]
      else m
  }

  function Elems(ps: seq<Period>): (r: set<Period>)
    ensures forall p :: p in r <==> p in ps
  {
    set p | p in ps
  }

  /** The sections after the picks: each section given a room records the room's id, and
      nothing else changes. */
  function WithRooms(snap: seq<Section>, picks: seq<Pick>): (r: seq<Section>)
    ensures |r| == |snap|
    ensures forall i :: 0 <= i < |snap| ==> r[i] == snap[i].(roomId := r[i].roomId)
  {
    if |picks| == 0 then snap
    else
      var cur := WithRooms(snap, picks[..|picks| - 1]);
      var p := picks[|picks| - 1];
      if p.room.Some? && p.index < |cur| then cur[p.index := cur[p.index].(roomId := Some(p.room.value.id))]
      else cur
  }

  /** Every pick is the room `find_suitable_room` returns for its section, given the
      bookings of the picks before it. */
  ghost predicate Chosen(snap: seq<Section>, rooms: seq<Room>, courseMap: map<CourseId, Course>, picks: seq<Pick>) {
    |picks| == 0 ||
    (var p := picks[|picks| - 1];
     && Chosen(snap, rooms, courseMap, picks[..|picks| - 1])
     && p.index < |snap|
     && p.room == PickRoom(snap[p.index], rooms, Required(courseMap, snap[p.index]), SchedulesAfter(snap, picks[..|picks| - 1])))
  }

  lemma {:induction false} ChosenAt(snap: seq<Section>, rooms: seq<Room>, courseMap: map<CourseId, Course>,
                                    picks: seq<Pick>, k: nat)
    requires Chosen(snap, rooms, courseMap, picks) && k < |picks|
    ensures picks[k].index < |snap|
    ensures picks[k].room == PickRoom(snap[picks[k].index], rooms, Required(courseMap, snap[picks[k].index]),
                                      SchedulesAfter(snap, picks[..k]))
  {
    if k < |picks| - 1 {
      ChosenAt(snap, rooms, courseMap, picks[..|picks| - 1], k);
      assert picks[..|picks| - 1][..k] == picks[..k];
    }
  }

  /** A room given to a section seats it, has the course's features and is available at
      every period of the section; a section left without a room had no suitable room. */
  lemma PickFits(snap: seq<Section>, rooms: seq<Room>, courseMap: map<CourseId, Course>, picks: seq<Pick>, k: nat)
    requires Chosen(snap, rooms, courseMap, picks) && k < |picks|
    ensures picks[k].index < |snap|
    ensures var s := snap[picks[k].index];
            picks[k].room.Some? ==>
              && picks[k].room.value in rooms
              && picks[k].room.value.capacity >= s.capacity
              && picks[k].room.value.HasFeatures(Required(courseMap, s))
              && forall j :: 0 <= j < |s.periods| ==> picks[k].room.value.IsAvailable(s.periods[j])
    ensures var s := snap[picks[k].index];
            picks[k].room.None? ==>
              forall j :: 0 <= j < |rooms| ==> !Suitable(s, rooms[j], Required(courseMap, s), SchedulesAfter(snap, picks[..k]))
  {
    ChosenAt(snap, rooms, courseMap, picks, k);
  }

  /** Every period of a section given a room stays booked for that room. */
  lemma {:induction false} BookedHas(snap: seq<Section>, picks: seq<Pick>, a: nat)
    requires a < |picks| && picks[a].room.Some? && picks[a].index < |snap|
    ensures Elems(snap[picks[a].index].periods) <= Booked(SchedulesAfter(snap, picks), picks[a].room.value.id)
  {
    if a < |picks| - 1 {
      BookedHas(snap, picks[..|picks| - 1], a);
    }
  }

  /** No room is booked twice for the same period: two sections given rooms with the same
      id share no period. */
  lemma {:induction false} NoRoomDoubleBooking(snap: seq<Section>, rooms: seq<Room>, courseMap: map<CourseId, Course>,
                                               picks: seq<Pick>, a: nat, b: nat)
    requires Chosen(snap, rooms, courseMap, picks) && a < b < |picks|
    requires picks[a].room.Some? && picks[b].room.Some? && picks[a].room.value.id == picks[b].room.value.id
    ensures picks[a].index < |snap| && picks[b].index < |snap|
    ensures forall p :: p in snap[picks[a].index].periods ==> p !in snap[picks[b].index].periods
  {
    ChosenAt(snap, rooms, courseMap, picks, a);
    ChosenAt(snap, rooms, courseMap, picks, b);
    var prev := picks[..b];
    assert prev[a] == picks[a];
    BookedHas(snap, prev, a);
    var s := snap[picks[b].index];
    var schedules := SchedulesAfter(snap, prev);
    var m := FirstSuitable(s, rooms, Required(courseMap, s), schedules);
    assert Suitable(s, rooms[m.value], Required(courseMap, s), schedules);
  }

  /** The room id of each section the picks visited once: its pick's room, or the id it
      had before when no room suited. */
  lemma {:induction false} WithRoomsAt(snap: seq<Section>, picks: seq<Pick>, k: nat)
    requires k < |picks| && picks[k].index < |snap|
    requires forall a :: 0 <= a < |picks| && a != k ==> picks[a].index != picks[k].index
    ensures WithRooms(snap, picks)[picks[k].index].roomId
            == if picks[k].room.Some? then Some(picks[k].room.value.id) else snap[picks[k].index].roomId
  {
    var init := picks[..|picks| - 1];
    if k < |picks| - 1 {
      WithRoomsAt(snap, init, k);
    } else {
      WithRoomsUntouched(snap, init, picks[k].index);
    }
  }

  lemma {:induction false} WithRoomsUntouched(snap: seq<Section>, picks: seq<Pick>, i: nat)
    requires i < |snap| && forall a :: 0 <= a < |picks| ==> picks[a].index != i
    ensures WithRooms(snap, picks)[i] == snap[i]
  {
    if |picks| > 0 {
      WithRoomsUntouched(snap, picks[..|picks| - 1], i);
    }
  }

  /** The loop of `assign_rooms` after `k` sections: the picks follow `order`, and the
      sections and the bookings are the ones the picks leave. */
  ghost predicate Inv(snap: seq<Section>, sorted: seq<Room>, courseMap: map<CourseId, Course>, order: seq<nat>,
                      picks: seq<Pick>, cur: seq<Section>, schedules: map<RoomId, set<Period>>) {
    && |picks| <= |order|
    && (forall j :: 0 <= j < |picks| ==> picks[j].index == order[j])
    && Chosen(snap, sorted, courseMap, picks)
    && cur == WithRooms(snap, picks)
    && schedules == SchedulesAfter(snap, picks)
  }

  /** One pass of the loop of `assign_rooms`, for section `order[k]`. */
  method AssignOne(sections: array<Section>, ghost snap: seq<Section>, sorted: seq<Room>,
                   courseMap: map<CourseId, Course>, order: seq<nat>, k: nat,
                   schedules: map<RoomId, set<Period>>, ghost picks: seq<Pick>)
    returns (schedules': map<RoomId, set<Period>>, ghost picks': seq<Pick>)
    requires k == |picks| < |order| && order[k] < sections.Length
    requires Inv(snap, sorted, courseMap, order, picks, sections[..], schedules)
    modifies sections
    ensures |picks'| == k + 1
    ensures Inv(snap, sorted, courseMap, order, picks', sections[..], schedules')
  {
    ghost var cur := sections[..];
    var idx := order[k];
    var section := sections[idx];
    var required := if section.courseId in courseMap then courseMap[section.courseId].requiredFeatures else [];
    var found := FindSuitableRoom(section, sorted, required, schedules);
    var picked: Option<Room> := None;
    schedules' := schedules;
    if found.Some? {
      var room := sorted[found.value];
      picked := Some(room);
      sections[idx] := section.(roomId := Some(room.id));
      schedules' := Book(schedules, room.id, section.periods);
    }
    picks' := picks + [Pick(idx, picked)];
    PickStep(snap, sorted, courseMap, order, picks, cur, schedules, found, Pick(idx, picked), sections[..], schedules');
  }

  /** `room_schedules.entry(&room.id).or_default()` and one `insert` per period. */
  method Book(schedules: map<RoomId, set<Period>>, id: RoomId, periods: seq<Period>)
    returns (schedules': map<RoomId, set<Period>>)
    ensures schedules' == schedules[id := Booked(schedules, id) + Elems(periods)]
  {
    var booked := Booked(schedules, id);
    for p := 0 to |periods|
      invariant booked == Booked(schedules, id) + Elems(periods[..p])
    {
      booked := booked + {periods[p]};
      assert periods[..p + 1] == periods[..p] + [periods[p]];
    }
    assert periods[..|periods|] == periods;
    schedules' := schedules[id := booked];
  }

  /** One pass of the loop keeps the sections and the bookings in step with the picks. */
  lemma {:induction false} PickStep(snap: seq<Section>, sorted: seq<Room>, courseMap: map<CourseId, Course>,
                                    order: seq<nat>, picks: seq<Pick>, cur: seq<Section>,
                                    schedules: map<RoomId, set<Period>>, found: Option<nat>, p: Pick,
                                    cur': seq<Section>, schedules': map<RoomId, set<Period>>)
    requires |picks| < |order| && p.index == order[|picks|] && p.index < |cur|
    requires Inv(snap, sorted, courseMap, order, picks, cur, schedules)
    requires found == FirstSuitable(cur[p.index], sorted, Required(courseMap, cur[p.index]), schedules)
    requires p.room == (if found.Some? then Some(sorted[found.value]) else None)
    requires cur' == if found.Some? then cur[p.index := cur[p.index].(roomId := Some(sorted[found.value].id))] else cur
    requires schedules' == if found.Some? then schedules[sorted[found.value].id := Booked(schedules, sorted[found.value].id)
                                                     + Elems(cur[p.index].periods)]
                           else schedules
    ensures Inv(snap, sorted, courseMap, order, picks + [p], cur', schedules')
  {
    var s := cur[p.index];
    assert s == snap[p.index].(roomId := s.roomId);
    SuitableIgnoresRoom(s, snap[p.index], sorted, Required(courseMap, s), schedules);
    var picks' := picks + [p];
    assert picks'[..|picks|] == picks;
  }

  /** Only the room id of the section differs from the snapshot, and suitability does not
      look at it. */
  lemma {:induction false} SuitableIgnoresRoom(s: Section, t: Section, rooms: seq<Room>, required: seq<string>,
                                               schedules: map<RoomId, set<Period>>)
    requires s == t.(roomId := s.roomId)
    ensures FirstSuitable(s, rooms, required, schedules) == FirstSuitable(t, rooms, required, schedules)
  {
    if |rooms| > 0 {
      SuitableIgnoresRoom(s, t, rooms[1..], required, schedules);
    }
  }

  /** `assign_rooms`: the rooms sorted by capacity, the sections by the number of features
      their course requires (most first, stably), and each section in that order given the
      first suitable room, which is then booked for the section's periods. The ghost results
      are the order the sections were taken in and what each was given. */
  method AssignRooms(sections: array<Section>, rooms: seq<Room>, courses: seq<Course>)
    returns (ghost order: seq<nat>, ghost picks: seq<Pick>)
    modifies sections
    ensures |order| == |picks| == sections.Length && Distinct(order)
    ensures forall k :: 0 <= k < |order| ==> order[k] < sections.Length && picks[k].index == order[k]
    ensures SortedBy(order, FeatureKey(Courses.ById(courses), old(sections[..])))
    ensures order == SortByKey(Range(sections.Length), FeatureKey(Courses.ById(courses), old(sections[..])))
    ensures forall k :: Increasing(WithKey(order, FeatureKey(Courses.ById(courses), old(sections[..])), k))
    ensures Chosen(old(sections[..]), SortByKey(rooms, CapacityKey()), Courses.ById(courses), picks)
    ensures sections[..] == WithRooms(old(sections[..]), picks)
  {
    ghost var snap := sections[..];
    var courseMap := Courses.ById(courses);
    var schedules: map<RoomId, set<Period>> := map[];
    var sorted := SortByKey(rooms, CapacityKey());
    var indices := SortByKey(Range(sections.Length), FeatureKey(courseMap, sections[..]));
    SortSorted(Range(sections.Length), FeatureKey(courseMap, sections[..]));
    RangeIndices(sections.Length, indices);
    forall k {
      TiesInIndexOrder(sections.Length, FeatureKey(courseMap, sections[..]), k);
    }
    order, picks := indices, [];
    for k := 0 to |indices|
      invariant |picks| == k
      invariant Inv(snap, sorted, courseMap, indices, picks, sections[..], schedules)
    {
      schedules, picks := AssignOne(sections, snap, sorted, courseMap, indices, k, schedules, picks);
    }
  }

  /** A rearrangement of `0..n` lists every index below `n` once. */
  lemma RangeIndices(n: nat, order: seq<nat>)
    requires multiset(order) == multiset(Range(n))
    ensures |order| == n && Distinct(order)
    ensures forall k :: 0 <= k < |order| ==> order[k] < n
  {
    assert Distinct(Range(n));
    DistinctPermutation(Range(n), order);
    assert |order| == |multiset(order)| == |multiset(Range(n))| == n;
    forall k | 0 <= k < |order|
      ensures order[k] < n
    {
      assert order[k] in multiset(Range(n));
    }
  }

  /** Indices in strictly increasing order. */
  predicate Increasing(s: seq<nat>) {
    forall i, j :: 0 <= i < j < |s| ==> s[i] < s[j]
  }

  /** The indices of `0..n` sharing a key come in increasing order. */
  lemma {:induction false} RangeWithKey(n: nat, key: nat -> Key, k: Key)
    ensures Increasing(WithKey<nat>(Range(n), key, k))
    ensures forall x :: x in WithKey<nat>(Range(n), key, k) ==> x < n
  {
    if n > 0 {
      assert Range(n)[..n - 1] == Range(n - 1);
      RangeWithKey(n - 1, key, k);
      var w := WithKey<nat>(Range(n - 1), key, k);
      assert WithKey<nat>(Range(n), key, k) == w + (if key(n - 1) == k then [n - 1] else []);
      assert forall i :: 0 <= i < |w| ==> w[i] < n - 1 by {
        forall i | 0 <= i < |w| ensures w[i] < n - 1 {
          assert w[i] in w;
        }
      }
    }
  }

  /** Sorting `0..n` stably by a key visits the indices sharing a key in increasing order:
      ties are broken by index. */
  lemma TiesInIndexOrder(n: nat, key: nat -> Key, k: Key)
    ensures Increasing(WithKey<nat>(SortByKey<nat>(Range(n), key), key, k))
  {
    SortStable(Range(n), key, k);
    RangeWithKey(n, key, k);
  }
}
