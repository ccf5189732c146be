/**
 The process-wide state of the mission service and the operations that
 change it: the persisted id counter (memory segment 0) and the mission
 table (memory segment 1), owned by one `MissionStore` object. The host
 clock is the `now` parameter of the operations that read it.
 */
module Store {
  import opened Missions
  import opened OrderedTable
  import opened Queries

  class MissionStore {
    /** The value in the id counter cell. */
    var counter: U64
    /** The mission table, as its ascending iteration. */
    var entries: seq<Mission>
    /** Every id handed out so far, deleted or not. */
    ghost var issued: set<U64>

    /** The ids issued are exactly those below the counter, and every key
        in the table is one of them. */
    ghost predicate Valid()
      reads this
    {
      && Ascending(entries)
      && (forall i: U64 :: i in issued <==> i < counter)
      && (forall k | k in View(entries) :: k in issued)
    }

    /** The state at first start-up: the counter cell holds 0 and the table
        is empty. */
    constructor ()
      ensures Valid()
      ensures counter == 0 && View(entries) == map[] && issued == {}
    {
      counter := 0;
      entries := [];
      issued := {};
    }

    /** `Cell::set` on the counter: stores `value` and returns the value it
        replaces. */
    method SetCounter(value: U64) returns (previous: U64)
      modifies this`counter
      ensures counter == value && previous == old(counter)
    {
      previous := counter;
      counter := value;
    }

    /** `do_insert_space_mission`: store `item` under its own id. */
    method DoInsertSpaceMission(item: Mission)
      requires Ascending(entries)
      modifies this`entries
      ensures Ascending(entries)
      ensures View(entries) == old(View(entries))[item.id := item]
    {
      InsertView(entries, item);
      entries := Insert(entries, item);
    }

    /** `add_space_mission`: issue the next id and store a mission built
        from `item`, with both dates moved one day past `now`. */
    method AddSpaceMission(item: Payload, now: U64) returns (r: Option<Mission>)
      requires Valid()
      requires counter < U64_MAX
      requires item.launchDate + NANOS_PER_DAY + now <= U64_MAX
      requires item.estimatedArrivalDate + NANOS_PER_DAY + now <= U64_MAX
      modifies this
      ensures Valid()
      ensures r.Some?
      ensures r.value.id == old(counter) && counter == old(counter) + 1
      ensures r.value.id !in old(issued) && issued == old(issued) + {r.value.id}
      ensures forall i | i in old(issued) :: i < r.value.id
      ensures r.value.id !in old(View(entries))
      ensures r.value.missionName == item.missionName
      ensures r.value.destination == item.destination
      ensures r.value.launchDate == item.launchDate + NANOS_PER_DAY + now
      ensures r.value.estimatedArrivalDate == item.estimatedArrivalDate + NANOS_PER_DAY + now
      ensures r.value.description == item.description
      ensures View(entries) == old(View(entries))[r.value.id := r.value]
      ensures GetSpaceMission(entries, r.value.id) == Ok(r.value)
    {
      var current := counter;
      var id := SetCounter(current + 1);
      issued := issued + {id};
      var mission := Mission(
        id,
        item.missionName,
        item.destination,
        item.launchDate + NANOS_PER_DAY + now,
        item.estimatedArrivalDate + NANOS_PER_DAY + now,
        item.description);
      DoInsertSpaceMission(mission);
      r := Some(mission);
    }

    /** `update_space_mission`: overwrite every field but the id with the
        payload's, taken verbatim. */
    method UpdateSpaceMission(id: U64, item: Payload) returns (r: Result<Mission>)
      requires Valid()
      modifies this`entries
      ensures Valid()
      ensures id in old(View(entries)) ==>
                && r == Ok(Mission(id, item.missionName, item.destination, item.launchDate,
                                   item.estimatedArrivalDate, item.description))
                && View(entries) == old(View(entries))[id := r.value]
      ensures id !in old(View(entries)) ==>
                r == Err(NotFound(MissingId(id))) && entries == old(entries)
    {
      ViewEntries(entries);
      match Get(entries, id)
      case Some(mission) =>
        var updated := mission.(
          missionName := item.missionName,
          destination := item.destination,
          launchDate := item.launchDate,
          estimatedArrivalDate := item.estimatedArrivalDate,
          description := item.description);
        DoInsertSpaceMission(updated);
        r := Ok(updated);
      case None =>
        r := Err(NotFound(MissingId(id)));
    }

    /** `delete_space_mission`: remove the mission under `id` and return it. */
    method DeleteSpaceMission(id: U64) returns (r: Result<Mission>)
      requires Valid()
      modifies this`entries
      ensures Valid()
      ensures id in old(View(entries)) ==>
                r == Ok(old(View(entries))[id]) && View(entries) == old(View(entries)) - {id}
      ensures id !in old(View(entries)) ==>
                r == Err(NotFound(MissingId(id))) && entries == old(entries)
      ensures GetSpaceMission(entries, id) == Err(NotFound(MissingId(id)))
      ensures GetTotalSpaceMissions(entries) ==
                GetTotalSpaceMissions(old(entries)) - if r.Ok? then 1 else 0
    {
      var removed := Get(entries, id);
      if removed.None? {
        RemoveAbsent(entries, id);
      }
      RemoveView(entries, id);
      ViewSize(entries);
      entries := Remove(entries, id);
      ViewSize(entries);
      match removed
      case Some(mission) =>
        r := Ok(mission);
      case None =>
        r := Err(NotFound(MissingId(id)));
    }

    /** `update_estimated_arrival_date`: set only the arrival date. */
    method UpdateEstimatedArrivalDate(id: U64, newEstimatedArrivalDate: U64) returns (r: Result<Mission>)
      requires Valid()
      modifies this`entries
      ensures Valid()
      ensures id in old(View(entries)) ==>
                && r == Ok(old(View(entries))[id].(estimatedArrivalDate := newEstimatedArrivalDate))
                && View(entries) == old(View(entries))[id := r.value]
      ensures id !in old(View(entries)) ==>
                r == Err(NotFound(MissingId(id))) && entries == old(entries)
    {
      ViewEntries(entries);
      match Get(entries, id)
      case Some(mission) =>
        var updated := mission.(estimatedArrivalDate := newEstimatedArrivalDate);
        DoInsertSpaceMission(updated);
        r := Ok(updated);
      case None =>
        r := Err(NotFound(MissingId(id)));
    }

    /** `update_launch_date`: set only the launch date. */
    method UpdateLaunchDate(id: U64, newLaunchDate: U64) returns (r: Result<Mission>)
      requires Valid()
      modifies this`entries
      ensures Valid()
      ensures id in old(View(entries)) ==>
                && r == Ok(old(View(entries))[id].(launchDate := newLaunchDate))
                && View(entries) == old(View(entries))[id := r.value]
      ensures id !in old(View(entries)) ==>
                r == Err(NotFound(MissingId(id))) && entries == old(entries)
    {
      ViewEntries(entries);
      match Get(entries, id)
      case Some(mission) =>
        var updated := mission.(launchDate := newLaunchDate);
        DoInsertSpaceMission(updated);
        r := Ok(updated);
      case None =>
        r := Err(NotFound(MissingId(id)));
    }
  }

  /** The table never holds more missions than ids were issued, so its
      length fits the `u64` that `get_total_space_missions` returns. */
  lemma TotalFitsCounter(store: MissionStore)
    requires store.Valid()
    ensures GetTotalSpaceMissions(store.entries) <= store.counter <= U64_MAX
  {
    ViewEntries(store.entries);
    LengthBound(store.entries, store.counter);
  }
}
