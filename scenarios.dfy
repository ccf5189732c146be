/**
 Call sequences against the store, proved from the operations' contracts
 alone, in the way an external caller would issue them.
 */
module Scenarios {
  import opened Missions
  import opened OrderedTable
  import opened Queries
  import opened Store

  /** Deleting twice: the second call finds nothing, whatever the first did. */
  method DeleteTwice(store: MissionStore, id: U64) returns (first: Result<Mission>, second: Result<Mission>)
    requires store.Valid()
    modifies store
    ensures store.Valid()
    ensures first.Ok? <==> id in old(View(store.entries))
    ensures second == Err(NotFound(MissingId(id)))
    ensures GetSpaceMission(store.entries, id) == Err(NotFound(MissingId(id)))
  {
    first := store.DeleteSpaceMission(id);
    second := store.DeleteSpaceMission(id);
  }

  /** Create, delete what was created, create again: the second id is new
      and larger, and the deleted id stays absent. */
  method CreateDeleteCreate(store: MissionStore, item: Payload, now: U64)
    returns (a: Mission, b: Mission)
    requires store.Valid()
    requires store.counter < U64_MAX - 1
    requires item.launchDate + NANOS_PER_DAY + now <= U64_MAX
    requires item.estimatedArrivalDate + NANOS_PER_DAY + now <= U64_MAX
    modifies store
    ensures store.Valid()
    ensures a.id < b.id
    ensures store.counter == old(store.counter) + 2
    ensures GetSpaceMission(store.entries, a.id) == Err(NotFound(MissingId(a.id)))
    ensures GetSpaceMission(store.entries, b.id) == Ok(b)
  {
    var created := store.AddSpaceMission(item, now);
    a := created.value;
    var deleted := store.DeleteSpaceMission(a.id);
    created := store.AddSpaceMission(item, now);
    b := created.value;
  }

  /** Two missions created with arrival inputs 5 and 10 both arrive one day
      past `now`, give or take a few nanoseconds: the inputs are added as
      nanoseconds, not scaled as days. So both are listed as arriving within
      six days, and the first is the closest after one day. */
  method ArrivalInputsAreNanoseconds(now: U64) returns (store: MissionStore, a: Mission, b: Mission)
    requires now + 6 * NANOS_PER_DAY <= U64_MAX
    ensures store.Valid()
    ensures a.estimatedArrivalDate == now + NANOS_PER_DAY + 5
    ensures b.estimatedArrivalDate == now + NANOS_PER_DAY + 10
    ensures GetSpaceMissionsBeforeDate(store.entries, now + 6 * NANOS_PER_DAY) == [a, b]
    ensures FindClosestSpaceMission(store.entries, now + NANOS_PER_DAY) == Some(a)
  {
    store := new MissionStore();
    var created := store.AddSpaceMission(Payload("A", "Mars", 0, 5, ""), now);
    a := created.value;
    created := store.AddSpaceMission(Payload("B", "Mars", 0, 10, ""), now);
    b := created.value;
    ViewOfAscending(store.entries);
    ViewEntries(store.entries);
    BeforeDateIsExactly(store.entries, now + 6 * NANOS_PER_DAY, [a, b]);
  }
}
