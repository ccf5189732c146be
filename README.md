# Space-mission record store, modelled in Dafny

This project models the storage core of a small Internet Computer service
(`src/backend/src/lib.rs`) that keeps space missions. Each mission has a name,
a destination, a launch date, an estimated arrival date and a description.
The service keeps two pieces of process-wide state:

- a persisted `u64` id counter (a stable `Cell` in memory segment 0);
- a stable B-tree map from `u64` id to `SpaceMission` (memory segment 1).

About a dozen operations sit on top of that state. They create, read, update
and delete missions, and they filter, count or search the table in ascending
id order.

Files:

- `missions.dfy` (module `Missions`): `u64` as a subset type, `NANOS_PER_DAY`,
  the `Mission` and `Payload` records, and the single error variant
  `NotFound`. The error carries a `Reason` in place of the message text:
  `MissingId(id)` or `AlreadyArrived`.
- `ordered_table.dfy` (module `OrderedTable`): the B-tree map as the store
  uses it. Every mission is inserted under its own `id`. So the table is the
  sequence of its missions with strictly ascending ids, which is also the
  map's iteration order. `View` gives the abstract `map<U64, Mission>`.
  `Get`, `Insert` and `Remove` are the map's point operations, each specified
  against `View`.
- `queries.dfy` (module `Queries`): the read-only operations as functions of
  the table's ascending iteration.
- `store.dfy` (module `Store`): class `MissionStore`. It has the fields
  `counter` and `entries` and a ghost set `issued` of every id handed out so
  far. The operations that change state are methods, and `Valid()` is the
  invariant they keep: the table is ascending, the issued ids are exactly
  those below the counter, and every key is an issued id.
- `scenarios.dfy` (module `Scenarios`): call sequences proved from the
  operations' contracts alone.

The host clock `ic_cdk::api::time()` becomes a `now` parameter of
`AddSpaceMission` and `CalculateRemainingDaysForArrival`.

Which id `add_space_mission` issues: lines 88-93 read the counter, call
`Cell::set(current_value + 1)` and use the value that call returns as the id.
`Cell::set` in `ic-stable-structures` returns the value it replaced. So the
id is the counter's value before the increment: the first mission gets id 0,
and the counter then counts the ids issued. The model follows the code. A
reading where the id is the incremented value would be wrong by one. Either
way, ids are fresh and strictly increasing, and `AddSpaceMission` proves
both.

Arrival and launch dates on create: the comments on lines 98 and 101 say
"convert days to nanoseconds". The code, however, adds the input to one day
in nanoseconds and to the current time; it does not multiply. The model
follows the code. `Scenarios.ArrivalInputsAreNanoseconds` shows the effect:
inputs 5 and 10 both land a few nanoseconds after `now` plus one day.

## Model

| member | source | states |
|---|---|---|
| `OrderedTable.ViewEntries` | src/backend/src/lib.rs:59-62 | every entry's id is a key of the table, and every key maps to an entry that carries that id |
| `OrderedTable.ViewOfAscending` | src/backend/src/lib.rs:59-62 | in the ascending iteration every mission is exactly the value its own id maps to |
| `OrderedTable.ViewSize` | src/backend/src/lib.rs:187-190 | the iteration has as many missions as the map has keys |
| `OrderedTable.LengthBound` | src/backend/src/lib.rs:88-93 | ascending ids that are all below `bound` leave room for at most `bound` missions |
| `OrderedTable.Get` | src/backend/src/lib.rs:82-84 | lookup yields `Some` of the value stored under the id when the id is a key, and `None` otherwise |
| `OrderedTable.Insert` | src/backend/src/lib.rs:66-70 | inserting keeps the iteration strictly ascending and adds no mission other than the inserted one |
| `OrderedTable.InsertView` | src/backend/src/lib.rs:66-70 | inserting sets the key `item.id` to `item` and leaves every other key as it was (insert or overwrite) |
| `OrderedTable.Remove` | src/backend/src/lib.rs:133 | removing keeps the iteration ascending and adds no mission |
| `OrderedTable.RemoveView` | src/backend/src/lib.rs:133 | removing drops exactly the key `id` and leaves every other key as it was |
| `OrderedTable.RemoveAbsent` | src/backend/src/lib.rs:133-141 | removing an absent id leaves the table unchanged |
| `Queries.GetSpaceMission` | src/backend/src/lib.rs:72-84 | `Ok(m)` exactly when the id is a key, with `m` the stored value; otherwise `NotFound` for that id |
| `Queries.GetAllSpaceMissions` | src/backend/src/lib.rs:176-185 | every stored mission exactly once, in ascending id order, as many as there are keys |
| `Queries.GetTotalSpaceMissions` | src/backend/src/lib.rs:187-190 | the number of keys, equal to the length of the full listing |
| `Queries.Filter` | src/backend/src/lib.rs:145-154 | a mission is in the result exactly when it is in the iteration and the filter condition accepts it |
| `Queries.FilterAscending` | src/backend/src/lib.rs:145-154 | filtering an ascending iteration yields an ascending list |
| `Queries.CountIsFilterLength` | src/backend/src/lib.rs:192-201 | `filter().count()` equals the length of `filter().collect()` |
| `Queries.AscendingByMembers` | src/backend/src/lib.rs:145-154 | two ascending lists with the same missions are equal, so a filter result is fixed by its members |
| `Queries.GetSpaceMissionsBeforeDate` | src/backend/src/lib.rs:144-154 | exactly the stored missions with `estimated_arrival_date <= date`, in ascending id order |
| `Queries.BeforeDateIsExactly` | src/backend/src/lib.rs:144-154 | any ascending list holding exactly the missions that arrive by `date` is the result of the query |
| `Queries.GetSpaceMissionsCountBeforeDate` | src/backend/src/lib.rs:192-201 | the count equals the length of the before-date listing and never exceeds the table size |
| `Queries.GetSpaceMissionsByDestination` | src/backend/src/lib.rs:234-244 | exactly the stored missions whose destination equals the argument string, in ascending id order |
| `Queries.FindClosestSpaceMission` | src/backend/src/lib.rs:203-213 | `None` exactly when no mission arrives at or after `target`; otherwise a stored mission arriving at or after `target` whose arrival is minimal among those |
| `Queries.ClosestTieGoesToLowestId` | src/backend/src/lib.rs:203-213 | among missions tied for the minimal qualifying arrival, the one returned has the lowest id (`min_by_key` keeps the first minimum) |
| `Queries.CalculateRemainingDaysForArrival` | src/backend/src/lib.rs:215-232 | `Ok(d)` exactly when the id is a key and its arrival is after `now`, with `now + d` the arrival and `d > 0`; `NotFound(AlreadyArrived)` for a present id whose arrival is not after `now`; `NotFound(MissingId(id))` for an absent id |
| `Store.MissionStore.constructor` | src/backend/src/lib.rs:49-63 | at first start-up the counter holds 0, the table is empty and no id has been issued |
| `Store.MissionStore.SetCounter` | src/backend/src/lib.rs:88-93 | `Cell::set`: the counter takes the new value and the call returns the value it replaced |
| `Store.MissionStore.DoInsertSpaceMission` | src/backend/src/lib.rs:65-70 | the table maps `item.id` to `item` afterwards, every other key is unchanged, and the iteration stays ascending |
| `Store.MissionStore.AddSpaceMission` | src/backend/src/lib.rs:86-107 | always `Some`; the id is the old counter value, which was never issued, is above every issued id and is not a key; the counter grows by one; name, destination and description are copied verbatim; both dates are `input + NANOS_PER_DAY + now`; exactly that one key is added, and a later get of the id returns the record |
| `Store.MissionStore.UpdateSpaceMission` | src/backend/src/lib.rs:109-129 | on a present id, returns and stores the mission with the same id and all five other fields taken verbatim from the payload, with no other key changed; on an absent id, `NotFound` and the table unchanged |
| `Store.MissionStore.DeleteSpaceMission` | src/backend/src/lib.rs:131-142 | on a present id, returns the prior value and drops exactly that key; on an absent id, `NotFound` and the table unchanged; afterwards get of the id is `NotFound` and the total drops by one exactly when a mission was removed; the counter is untouched |
| `Store.MissionStore.UpdateEstimatedArrivalDate` | src/backend/src/lib.rs:156-174 | on a present id, only `estimated_arrival_date` of that mission changes and no other key changes; on an absent id, `NotFound` and no change |
| `Store.MissionStore.UpdateLaunchDate` | src/backend/src/lib.rs:246-261 | on a present id, only `launch_date` of that mission changes and no other key changes; on an absent id, `NotFound` and no change |
| `Store.TotalFitsCounter` | src/backend/src/lib.rs:187-190 | the number of stored missions never exceeds the counter, so the total fits the `u64` result |
| `Scenarios.DeleteTwice` | src/backend/src/lib.rs:131-142 | a second delete of the same id returns `NotFound`, and so does a get |
| `Scenarios.CreateDeleteCreate` | src/backend/src/lib.rs:86-107 | an id is never reissued after its mission is deleted: the next create gets a larger id and the deleted one stays absent |
| `Scenarios.ArrivalInputsAreNanoseconds` | src/backend/src/lib.rs:94-104 | arrival inputs 5 and 10 give arrivals `now + NANOS_PER_DAY + 5` and `+ 10`; both are listed as arriving within six days, and the first is the closest after one day |

## Left out

- The Candid `Encode!`/`Decode!` codec of `Storable` (lines 32-46). Its wire format belongs to an external library that is not part of this model; records are stored as values. With it goes the 1024-byte `MAX_SIZE` of `BoundedStorable` (lines 43-46), which the stable map enforces: a record whose encoding is over 1024 bytes makes `insert` trap and the whole call is rolled back, including the counter increment of `add_space_mission`. The model accepts strings of any length, so `AddSpaceMission`, `UpdateSpaceMission`, `UpdateEstimatedArrivalDate`, `UpdateLaunchDate` and `DoInsertSpaceMission` succeed on inputs where the service traps.
- The `MemoryManager`, virtual-memory segments, the B-tree's internal layout and the persistence of the cell and the map across restarts (lines 4-9, 49-63). The model is one object holding a counter and an ordered map.
- The `expect` panics when the counter cell cannot be created or written (lines 56 and 93). They depend on stable-memory growth, which is not modelled.
- `thread_local!` and `RefCell`: these are only the host's way of holding single-threaded global state.
- `ic_cdk::api::time()`: it is the `now` parameter.
- The `#[ic_cdk::query]`/`#[ic_cdk::update]` attributes, `export_candid!` and the generated client bindings under `src/declarations/backend/`. These are transport and have no logic.
- The text of the `NotFound` messages: only the variant is modelled, with `MissingId(id)` or `AlreadyArrived` as its reason.
- AddSpaceMission: does not model `u64` overflow of `current_value + 1` or of `input + NANOS_PER_DAY + now`. The result depends on the build profile (a trap that rolls the call back, or wrap-around). The method requires all three sums to fit in a `u64`.
- Queries.GetSpaceMissionsCountBeforeDate: returns a `nat`; the width of the source's `usize` result (32 bits on the wasm32 target) is not modelled.
