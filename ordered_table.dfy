/**
 The stable B-tree map from id to mission, as the store uses it: every
 entry is inserted under its own `id`, so the table is represented by the
 sequence of its missions in ascending id order, which is exactly the order
 in which the map iterates. `View` gives the abstract map; `Get`, `Insert`
 and `Remove` are the map's point operations, specified against `View`.
 */
module OrderedTable {
  import opened Missions

  /** Ids strictly increase along the sequence: keys are unique and the
      sequence is the map's iteration order. */
  predicate Ascending(s: seq<Mission>)
  {
    forall i, j | 0 <= i < j < |s| :: s[i].id < s[j].id
  }

  /** The map from id to mission that `s` represents; an earlier entry
      wins over a later one with the same id. */
  function View(s: seq<Mission>): map<U64, Mission>
  {
    if s == [] then map[] else View(s[1..])[s[0].id := s[0]]
  }

  /** The keys of the map are the ids of the entries, and each key maps to
      an entry carrying that id. */
  lemma {:induction false} ViewEntries(s: seq<Mission>)
    ensures forall m | m in s :: m.id in View(s)
    ensures forall k | k in View(s) :: View(s)[k] in s && View(s)[k].id == k
  {
    if s != [] {
      ViewEntries(s[1..]);
    }
  }

  /** Entries whose ids all lie above `bound` give keys above `bound`. */
  lemma {:induction false} KeysAbove(s: seq<Mission>, bound: int)
    requires forall x | x in s :: bound < x.id
    ensures forall k | k in View(s) :: bound < k
  {
    if s != [] {
      KeysAbove(s[1..], bound);
    }
  }

  /** In an ascending sequence every entry after the first lies above it. */
  lemma TailAbove(s: seq<Mission>)
    requires Ascending(s) && s != []
    ensures forall x | x in s[1..] :: s[0].id < x.id
    ensures forall k | k in View(s[1..]) :: s[0].id < k
  {
    forall x | x in s[1..]
      ensures s[0].id < x.id
    {
      var i :| 0 <= i < |s[1..]| && s[1..][i] == x;
      assert s[i + 1] == x;
    }
    KeysAbove(s[1..], s[0].id);
  }

  /** In an ascending sequence every entry is the one its id maps to. */
  lemma {:induction false} ViewOfAscending(s: seq<Mission>)
    requires Ascending(s)
    ensures forall m | m in s :: m.id in View(s) && View(s)[m.id] == m
  {
    if s != [] {
      ViewOfAscending(s[1..]);
      TailAbove(s);
    }
  }

  /** An ascending sequence has as many entries as its map has keys. */
  lemma {:induction false} ViewSize(s: seq<Mission>)
    requires Ascending(s)
    ensures |View(s)| == |s|
  {
    if s != [] {
      ViewSize(s[1..]);
      TailAbove(s);
    }
  }

  /** Ids below `bound` leave room for at most `bound` entries. */
  lemma {:induction false} LengthBound(s: seq<Mission>, bound: nat)
    requires Ascending(s)
    requires forall m | m in s :: m.id < bound
    ensures |s| <= bound
  {
    if s != [] {
      var last := s[|s| - 1];
      var front := s[..|s| - 1];
      forall m | m in front
        ensures m.id < last.id
      {
        var i :| 0 <= i < |front| && front[i] == m;
        assert s[i] == m;
      }
      LengthBound(front, last.id);
    }
  }

  /** Point lookup (`StableBTreeMap::get`). */
  function Get(s: seq<Mission>, id: U64): (r: Option<Mission>)
    ensures r == if id in View(s) then Some(View(s)[id]) else None
  {
    if s == [] then None
    else if s[0].id == id then Some(s[0])
    else Get(s[1..], id)
  }

  /** Insert or overwrite the entry under `m.id` (`StableBTreeMap::insert`). */
  function Insert(s: seq<Mission>, m: Mission): (r: seq<Mission>)
    requires Ascending(s)
    ensures Ascending(r)
    ensures forall x | x in r :: x in s || x == m
  {
    if s == [] then [m]
    else if m.id < s[0].id then [m] + s
    else if m.id == s[0].id then [m] + s[1..]
    else
      TailAbove(s);
      [s[0]] + Insert(s[1..], m)
  }

  /** Inserting sets the key `m.id` to `m` and leaves every other key as it was. */
  lemma {:induction false} InsertView(s: seq<Mission>, m: Mission)
    requires Ascending(s)
    ensures View(Insert(s, m)) == View(s)[m.id := m]
  {
    if s != [] {
      var tail := View(s[1..]);
      assert View(s) == tail[s[0].id := s[0]];
      if m.id < s[0].id {
        assert ([m] + s)[1..] == s;
      } else if m.id == s[0].id {
        assert ([m] + s[1..])[1..] == s[1..];
        assert View(s)[m.id := m] == tail[m.id := m];
      } else {
        InsertView(s[1..], m);
        var rest := Insert(s[1..], m);
        assert ([s[0]] + rest)[1..] == rest;
        assert View(rest) == tail[m.id := m];
        var head := s[0];
        var withM: map<U64, Mission> := tail[m.id := m];
        var withHead: map<U64, Mission> := tail[head.id := head];
        assert withM[head.id := head] == withHead[m.id := m];
      }
    }
  }

  /** Remove the entry under `id`, if any (`StableBTreeMap::remove`). */
  function Remove(s: seq<Mission>, id: U64): (r: seq<Mission>)
    requires Ascending(s)
    ensures Ascending(r)
    ensures forall x | x in r :: x in s
  {
    if s == [] then []
    else if s[0].id == id then s[1..]
    else
      TailAbove(s);
      [s[0]] + Remove(s[1..], id)
  }

  /** Removing drops the key `id` and leaves every other key as it was. */
  lemma {:induction false} RemoveView(s: seq<Mission>, id: U64)
    requires Ascending(s)
    ensures View(Remove(s, id)) == View(s) - {id}
  {
    if s != [] {
      TailAbove(s);
      var head := s[0];
      var tail: map<U64, Mission> := View(s[1..]);
      assert View(s) == tail[head.id := head];
      if head.id == id {
        assert View(s) - {id} == tail;
      } else {
        RemoveView(s[1..], id);
        var rest := Remove(s[1..], id);
        assert ([head] + rest)[1..] == rest;
        assert View(rest) == tail - {id};
        var dropped: map<U64, Mission> := tail - {id};
        assert View(s) - {id} == dropped[head.id := head];
      }
    }
  }

  /** Removing an absent key leaves the table as it was. */
  lemma {:induction false} RemoveAbsent(s: seq<Mission>, id: U64)
    requires Ascending(s)
    requires id !in View(s)
    ensures Remove(s, id) == s
  {
    if s != [] {
      assert s[0].id != id;
      RemoveAbsent(s[1..], id);
    }
  }
}
