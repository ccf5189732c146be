/**
 The read-only operations of the store. Each is a function of `s`, the
 table's iteration in ascending id order at the time of the call; the
 store passes its `entries` field.
 */
module Queries {
  import opened Missions
  import opened OrderedTable

  /** `get_space_mission`: the mission stored under `id`, or `NotFound`. */
  function GetSpaceMission(s: seq<Mission>, id: U64): (r: Result<Mission>)
    ensures r.Ok? <==> id in View(s)
    ensures r.Ok? ==> r.value == View(s)[id]
    ensures r.Err? ==> r.error == NotFound(MissingId(id))
  {
    match Get(s, id)
    case Some(m) => Ok(m)
    case None => Err(NotFound(MissingId(id)))
  }

  /** `get_all_space_missions`: every stored mission once, by ascending id. */
  function GetAllSpaceMissions(s: seq<Mission>): (r: seq<Mission>)
    requires Ascending(s)
    ensures Ascending(r)
    ensures forall m :: m in r <==> m.id in View(s) && View(s)[m.id] == m
    ensures |r| == |View(s)|
  {
    ViewEntries(s);
    ViewOfAscending(s);
    ViewSize(s);
    s
  }

  /** `get_total_space_missions`: the number of keys in the table. */
  function GetTotalSpaceMissions(s: seq<Mission>): (n: nat)
    requires Ascending(s)
    ensures n == |View(s)|
    ensures n == |GetAllSpaceMissions(s)|
  {
    ViewSize(s);
    |s|
  }

  /** The missions of `s` that `keep` accepts, in their order in `s`
      (`iter().filter(..).map(..).collect()`). */
  function Filter(s: seq<Mission>, keep: Mission -> bool): (r: seq<Mission>)
    ensures forall m :: m in r <==> m in s && keep(m)
  {
    if s == [] then []
    else
      var rest := Filter(s[1..], keep);
      if keep(s[0]) then [s[0]] + rest else rest
  }

  /** Filtering keeps the ascending id order. */
  lemma {:induction false} FilterAscending(s: seq<Mission>, keep: Mission -> bool)
    ensures Ascending(s) ==> Ascending(Filter(s, keep))
  {
    if s != [] && Ascending(s) {
      TailAbove(s);
      FilterAscending(s[1..], keep);
    }
  }

  /** The number of missions of `s` that `keep` accepts
      (`iter().filter(..).count()`). */
  function Count(s: seq<Mission>, keep: Mission -> bool): nat
  {
    if s == [] then 0
    else (if keep(s[0]) then 1 else 0) + Count(s[1..], keep)
  }

  /** Counting agrees with the length of the filtered list. */
  lemma {:induction false} CountIsFilterLength(s: seq<Mission>, keep: Mission -> bool)
    ensures Count(s, keep) == |Filter(s, keep)|
  {
    if s != [] {
      CountIsFilterLength(s[1..], keep);
    }
  }

  /** Two ascending lists with the same members are the same list. */
  lemma {:induction false} AscendingByMembers(a: seq<Mission>, b: seq<Mission>)
    requires Ascending(a) && Ascending(b)
    requires forall m :: m in a <==> m in b
    ensures a == b
  {
    assert a != [] ==> a[0] in a;
    assert b != [] ==> b[0] in b;
    if a != [] && b != [] {
      TailAbove(a);
      TailAbove(b);
      assert a == [a[0]] + a[1..] && b == [b[0]] + b[1..];
      assert a[0] in b && b[0] in a;
      assert a[0].id == b[0].id;
      assert a[0] == b[0];
      forall m
        ensures m in a[1..] <==> m in b[1..]
      {
        if m in a[1..] {
          assert m in b && m != b[0];
        }
        if m in b[1..] {
          assert m in a && m != a[0];
        }
      }
      AscendingByMembers(a[1..], b[1..]);
    }
  }

  /** The filter condition of `get_space_missions_before_date`. */
  function ArrivesBy(date: U64): Mission -> bool
  {
    (m: Mission) => m.estimatedArrivalDate <= date
  }

  /** `get_space_missions_before_date`: the missions arriving at or
      before `date`, by ascending id. */
  function GetSpaceMissionsBeforeDate(s: seq<Mission>, date: U64): (r: seq<Mission>)
    ensures forall m :: m in r <==> m in s && m.estimatedArrivalDate <= date
    ensures Ascending(s) ==> Ascending(r)
  {
    FilterAscending(s, ArrivesBy(date));
    Filter(s, ArrivesBy(date))
  }

  /** No other ascending list holds exactly the missions arriving by `date`. */
  lemma BeforeDateIsExactly(s: seq<Mission>, date: U64, list: seq<Mission>)
    requires Ascending(s) && Ascending(list)
    requires forall m :: m in list <==> m in s && m.estimatedArrivalDate <= date
    ensures list == GetSpaceMissionsBeforeDate(s, date)
  {
    AscendingByMembers(list, GetSpaceMissionsBeforeDate(s, date));
  }

  /** `get_space_missions_count_before_date`: how many missions arrive at
      or before `date`. */
  function GetSpaceMissionsCountBeforeDate(s: seq<Mission>, date: U64): (n: nat)
    ensures n == |GetSpaceMissionsBeforeDate(s, date)|
    ensures n <= |s|
  {
    CountIsFilterLength(s, ArrivesBy(date));
    FilterLength(s, ArrivesBy(date));
    Count(s, ArrivesBy(date))
  }

  /** A filtered list is no longer than its input. */
  lemma {:induction false} FilterLength(s: seq<Mission>, keep: Mission -> bool)
    ensures |Filter(s, keep)| <= |s|
  {
    if s != [] {
      FilterLength(s[1..], keep);
    }
  }

  /** The filter condition of `get_space_missions_by_destination`. */
  function BoundFor(destination: string): Mission -> bool
  {
    (m: Mission) => m.destination == destination
  }

  /** `get_space_missions_by_destination`: the missions whose destination
      is exactly `destination`, by ascending id. */
  function GetSpaceMissionsByDestination(s: seq<Mission>, destination: string): (r: seq<Mission>)
    ensures forall m :: m in r <==> m in s && m.destination == destination
    ensures Ascending(s) ==> Ascending(r)
  {
    FilterAscending(s, BoundFor(destination));
    Filter(s, BoundFor(destination))
  }

  /** `find_closest_space_mission`: among the missions arriving at or
      after `target`, the first one with the smallest arrival date
      (`min_by_key` keeps the first of equal minima). */
  function FindClosestSpaceMission(s: seq<Mission>, target: U64): (r: Option<Mission>)
    ensures r.None? <==> forall m | m in s :: m.estimatedArrivalDate < target
    ensures r.Some? ==> r.value in s && target <= r.value.estimatedArrivalDate
    ensures r.Some? ==> forall m | m in s && target <= m.estimatedArrivalDate ::
                          r.value.estimatedArrivalDate <= m.estimatedArrivalDate
  {
    if s == [] then None
    else
      var rest := FindClosestSpaceMission(s[1..], target);
      if s[0].estimatedArrivalDate < target then rest
      else if rest.Some? && rest.value.estimatedArrivalDate < s[0].estimatedArrivalDate then rest
      else Some(s[0])
  }

  /** Among missions tied for the closest arrival, the lowest id wins. */
  lemma {:induction false} ClosestTieGoesToLowestId(s: seq<Mission>, target: U64)
    requires Ascending(s)
    ensures var r := FindClosestSpaceMission(s, target);
      r.Some? ==> forall m | m in s && target <= m.estimatedArrivalDate
                               && m.estimatedArrivalDate == r.value.estimatedArrivalDate ::
                    r.value.id <= m.id
  {
    if s != [] {
      TailAbove(s);
      ClosestTieGoesToLowestId(s[1..], target);
    }
  }

  /** `calculate_remaining_days_for_arrival`: the nanoseconds from `now`
      until the mission's arrival; `NotFound` when the id is absent or the
      arrival is not in the future. */
  function CalculateRemainingDaysForArrival(s: seq<Mission>, id: U64, now: U64): (r: Result<U64>)
    ensures r.Ok? <==> id in View(s) && now < View(s)[id].estimatedArrivalDate
    ensures r.Ok? ==> 0 < r.value && now + r.value == View(s)[id].estimatedArrivalDate
    ensures id !in View(s) ==> r == Err(NotFound(MissingId(id)))
    ensures id in View(s) && View(s)[id].estimatedArrivalDate <= now ==>
              r == Err(NotFound(AlreadyArrived))
  {
    match Get(s, id)
    case Some(m) =>
      if m.estimatedArrivalDate > now then Ok(m.estimatedArrivalDate - now)
      else Err(NotFound(AlreadyArrived))
    case None => Err(NotFound(MissingId(id)))
  }
}
