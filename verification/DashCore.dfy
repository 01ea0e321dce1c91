/**
 The dashboard core: operations run one at a time under its lock, on a cache of the
 stored topology. An operation changes cached objects in place and then writes them;
 a write may fail, with or without having taken effect. Keys that an operation touched
 are queued and dropped from the cache before the next operation starts.
 */
module DashCore {

  import opened Topology
  import Books = RebalanceBooks
  import Phases = RebalancePhases
  import Balancer = SlotsRebalance

  datatype Option<T> = None | Some(value: T)

  datatype Hook = DirtySlot(sid: nat) | DirtyGroup(gid: int) | DirtyAll

  type SlotCache = Option<seq<Option<Mapping>>>

  type GroupCache = Option<map<int, Option<Group>>>

  datatype Result = NoContext | Refused | Failed | Done

  // ---------- Coherence ----------

  /** A cached slot is the stored one, or a queued hook will drop it. */
  ghost predicate SlotClean(store: Topo, cache: seq<Option<Mapping>>, hooks: seq<Hook>, s: nat) {
    s < |cache| && s < |store.slots| ==>
      cache[s].None? || cache[s].value == store.slots[s] || DirtySlot(s) in hooks || DirtyAll in hooks
  }

  /** A cached group is the stored one, and absent exactly when it is not stored, or a hook is queued. */
  ghost predicate GroupClean(store: Topo, cache: map<int, Option<Group>>, hooks: seq<Hook>, g: int) {
    || (g in cache && cache[g].None?)
    || DirtyGroup(g) in hooks || DirtyAll in hooks
    || (if g in store.groups then g in cache && cache[g] == Some(store.groups[g]) else g !in cache)
  }

  ghost predicate SlotsClean(store: Topo, cache: SlotCache, hooks: seq<Hook>) {
    cache.Some? ==>
      && |cache.value| == |store.slots|
      && forall s {:trigger SlotClean(store, cache.value, hooks, s)} :: SlotClean(store, cache.value, hooks, s)
  }

  ghost predicate GroupsClean(store: Topo, cache: GroupCache, hooks: seq<Hook>) {
    cache.Some? ==>
      forall g {:trigger GroupClean(store, cache.value, hooks, g)} :: GroupClean(store, cache.value, hooks, g)
  }

  /** The cache holds exactly what the store holds. */
  ghost predicate SlotsLoaded(store: Topo, cache: SlotCache) {
    && cache.Some? && |cache.value| == |store.slots|
    && forall s :: 0 <= s < |store.slots| ==> cache.value[s] == Some(store.slots[s])
  }

  ghost predicate GroupsLoaded(store: Topo, cache: GroupCache) {
    && cache.Some?
    && (forall g :: g in store.groups <==> g in cache.value)
    && (forall g :: g in store.groups ==> cache.value[g] == Some(store.groups[g]))
  }

  lemma RunHook(store: Topo, slots: SlotCache, groups: GroupCache, h: Hook, rest: seq<Hook>,
                slots1: SlotCache, groups1: GroupCache)
    requires SlotsClean(store, slots, [h] + rest) && GroupsClean(store, groups, [h] + rest)
    requires slots1 == match h
                       case DirtySlot(s) =>
                         if slots.Some? && s < |slots.value| then Some(slots.value[s := None]) else slots
                       case DirtyGroup(_) => slots
                       case DirtyAll => None
    requires groups1 == match h
                        case DirtySlot(_) => groups
                        case DirtyGroup(g) => if groups.Some? then Some(groups.value[g := None]) else groups
                        case DirtyAll => None
    ensures SlotsClean(store, slots1, rest) && GroupsClean(store, groups1, rest)
  {
    if slots1.Some? {
      forall s: nat ensures SlotClean(store, slots1.value, rest, s) {
        assert SlotClean(store, slots.value, [h] + rest, s);
      }
    }
    if groups1.Some? {
      forall g ensures GroupClean(store, groups1.value, rest, g) {
        assert GroupClean(store, groups.value, [h] + rest, g);
      }
    }
  }

  lemma MoreHooks(store: Topo, slots: SlotCache, groups: GroupCache, hooks: seq<Hook>, h: Hook)
    requires SlotsClean(store, slots, hooks) && GroupsClean(store, groups, hooks)
    ensures SlotsClean(store, slots, hooks + [h]) && GroupsClean(store, groups, hooks + [h])
  {
    if slots.Some? {
      forall s: nat ensures SlotClean(store, slots.value, hooks + [h], s) {
        assert SlotClean(store, slots.value, hooks, s);
      }
    }
    if groups.Some? {
      forall g ensures GroupClean(store, groups.value, hooks + [h], g) {
        assert GroupClean(store, groups.value, hooks, g);
      }
    }
  }

  lemma SlotsReady(store: Topo, cache: SlotCache)
    requires SlotsClean(store, cache, []) && cache.Some? && forall s :: 0 <= s < |cache.value| ==> cache.value[s].Some?
    ensures SlotsLoaded(store, cache)
  {
    forall s: nat | s < |store.slots| ensures cache.value[s] == Some(store.slots[s]) {
      assert SlotClean(store, cache.value, [], s);
    }
  }

  lemma GroupsReady(store: Topo, cache: GroupCache)
    requires GroupsClean(store, cache, []) && cache.Some? && forall g :: g in cache.value ==> cache.value[g].Some?
    ensures GroupsLoaded(store, cache)
  {
    forall g ensures g in store.groups <==> g in cache.value {
      assert GroupClean(store, cache.value, [], g);
    }
    forall g | g in store.groups ensures cache.value[g] == Some(store.groups[g]) {
      assert GroupClean(store, cache.value, [], g);
    }
  }

  lemma FillOne(store: Topo, cache: SlotCache, s: nat)
    requires SlotsClean(store, cache, []) && cache.Some? && s < |cache.value|
    ensures SlotsClean(store, Some(cache.value[s := Some(store.slots[s])]), [])
  {
    var next := cache.value[s := Some(store.slots[s])];
    forall k: nat ensures SlotClean(store, next, [], k) {
      assert SlotClean(store, cache.value, [], k);
    }
  }

  lemma FillGroup(store: Topo, cache: GroupCache, g: int, next: map<int, Option<Group>>)
    requires GroupsClean(store, cache, []) && cache.Some?
    requires next == if g in store.groups then cache.value[g := Some(store.groups[g])] else cache.value - {g}
    ensures GroupsClean(store, Some(next), [])
  {
    forall k ensures GroupClean(store, next, [], k) {
      assert GroupClean(store, cache.value, [], k);
    }
  }

  lemma AllLoaded(store: Topo, loaded: seq<Option<Mapping>>)
    requires |loaded| == |store.slots| && forall k :: 0 <= k < |loaded| ==> loaded[k] == Some(store.slots[k])
    ensures SlotsClean(store, Some(loaded), [])
  {
  }

  lemma AllGroupsLoaded(store: Topo, loaded: map<int, Option<Group>>)
    requires loaded.Keys == store.groups.Keys && forall g :: g in loaded ==> loaded[g] == Some(store.groups[g])
    ensures GroupsClean(store, Some(loaded), [])
  {
  }

  /** A cached slot is changed in place and its hook queued; the store may or may not have followed. */
  lemma WroteSlot(store: Topo, cache: SlotCache, groups: GroupCache, hooks: seq<Hook>, s: nat, m: Mapping, after: Topo)
    requires SlotsClean(store, cache, hooks) && GroupsClean(store, groups, hooks)
    requires cache.Some? && s < |store.slots|
    requires after == store || after == store.(slots := store.slots[s := m])
    ensures SlotsClean(after, Some(cache.value[s := Some(m)]), hooks + [DirtySlot(s)])
    ensures GroupsClean(after, groups, hooks + [DirtySlot(s)])
  {
    var next, queue := cache.value[s := Some(m)], hooks + [DirtySlot(s)];
    assert DirtySlot(s) in queue;
    forall k: nat ensures SlotClean(after, next, queue, k) {
      assert SlotClean(store, cache.value, hooks, k);
    }
    if groups.Some? {
      forall g ensures GroupClean(after, groups.value, queue, g) {
        assert GroupClean(store, groups.value, hooks, g);
      }
    }
  }

  /** The same for a group; `next` differs from the cache in group `g` at most. */
  lemma WroteGroup(store: Topo, cache: SlotCache, groups: GroupCache, hooks: seq<Hook>, g: int,
                   next: GroupCache, after: Topo)
    requires SlotsClean(store, cache, hooks) && GroupsClean(store, groups, hooks)
    requires groups.Some? && next.Some? && groups.value - {g} == next.value - {g}
    requires after.slots == store.slots && after.groups - {g} == store.groups - {g}
    ensures SlotsClean(after, cache, hooks + [DirtyGroup(g)]) && GroupsClean(after, next, hooks + [DirtyGroup(g)])
  {
    var queue := hooks + [DirtyGroup(g)];
    assert DirtyGroup(g) in queue;
    if cache.Some? {
      forall k: nat ensures SlotClean(after, cache.value, queue, k) {
        assert SlotClean(store, cache.value, hooks, k);
      }
    }
    forall k ensures GroupClean(after, next.value, queue, k) {
      assert GroupClean(store, groups.value, hooks, k);
      if k != g {
        assert k in next.value <==> k in next.value - {g};
        assert k in groups.value <==> k in groups.value - {g};
        assert k in after.groups <==> k in after.groups - {g};
        assert k in store.groups <==> k in store.groups - {g};
        assert k in next.value ==> next.value[k] == (next.value - {g})[k];
        assert k in groups.value ==> groups.value[k] == (groups.value - {g})[k];
        assert k in after.groups ==> after.groups[k] == (after.groups - {g})[k];
        assert k in store.groups ==> store.groups[k] == (store.groups - {g})[k];
      }
    }
  }

  lemma RunMore(states: seq<Topo>, writes: seq<Write>, w: Write)
    requires Run(states, writes) && Allowed(states[|states| - 1], w)
    ensures Run(states + [Apply(states[|states| - 1], w)], writes + [w])
  {
    hide Allowed, Apply;
    var n := |writes|;
    var longer, all := states + [Apply(states[n], w)], writes + [w];
    forall i | 0 <= i < |all| ensures Allowed(longer[i], all[i]) && longer[i + 1] == Apply(longer[i], all[i]) {
      if i < n {
        assert all[i] == writes[i];
      }
    }
  }

  lemma SlotsSized(store: Topo, cache: SlotCache, hooks: seq<Hook>)
    requires SlotsClean(store, cache, hooks) && cache.Some?
    ensures |cache.value| == |store.slots|
  {
  }

  lemma SomeKey(keys: set<int>)
    ensures keys == {} || exists g :: g in keys
  {
    if forall g :: g !in keys {
      assert keys == {};
    }
  }

  function Values(cache: seq<Option<Mapping>>): seq<Mapping> {
    seq(|cache|, s requires 0 <= s < |cache| => if cache[s].Some? then cache[s].value else Resting(0))
  }

  function GroupValues(cache: map<int, Option<Group>>): map<int, Group> {
    map g | g in cache && cache[g].Some? :: cache[g].value
  }

  lemma GroupsAre(store: Topo, cache: map<int, Option<Group>>)
    requires GroupsLoaded(store, Some(cache))
    ensures GroupValues(cache) == store.groups
  {
    var values := GroupValues(cache);
    forall g | g in store.groups ensures g in values && values[g] == store.groups[g] {
      assert g in cache && cache[g] == Some(store.groups[g]);
    }
    forall g | g in values ensures g in store.groups {
      assert g in cache;
    }
    assert values.Keys == store.groups.Keys;
    assert values == store.groups;
  }

  // ---------- Creating several actions ----------

  datatype Move = Move(sid: nat, gid: int)

  function Moves(sids: seq<nat>, gid: int): seq<Move> {
    seq(|sids|, i requires 0 <= i < |sids| => Move(sids[i], gid))
  }

  /** The slots after creating actions one by one, each with the next index. */
  function Created(slots: seq<Mapping>, moves: seq<Move>, noData: bool): (r: seq<Mapping>)
    ensures |r| == |slots|
  {
    if moves == [] then slots else
      var n := |moves| - 1;
      var rest := Created(slots, moves[..n], noData);
      if moves[n].sid < |slots| then
        rest[moves[n].sid := Written(rest, Create(moves[n].sid, moves[n].gid, noData))]
      else rest
  }

  /** The same servers with the first and the one at `at` in each other's place. */
  ghost predicate Exchanged(was: seq<Server>, at: nat, s: seq<Server>) {
    && at < |was| == |s| && s[0] == was[at] && s[at] == was[0]
    && forall i :: 0 < i < |was| && i != at ==> s[i] == was[i]
  }

  /** One above the largest index under way, or one if there is none. */
  ghost predicate FreshIndex(slots: seq<Mapping>, index: int) {
    && index >= 1 && (forall s :: 0 <= s < |slots| && slots[s].state != Nothing ==> slots[s].index < index)
    && (index == 1 || exists s :: 0 <= s < |slots| && slots[s].state != Nothing && slots[s].index == index - 1)
  }

  ghost predicate MoveOk(t: Topo, m: Move) {
    && m.sid < |t.slots| && t.slots[m.sid].state == Nothing
    && t.slots[m.sid].group != m.gid && m.gid != 0 && Served(t, m.gid)
  }

  /** Distinct resting slots, each with a served target other than its own group. */
  ghost predicate Creatable(t: Topo, moves: seq<Move>) {
    && (forall i :: 0 <= i < |moves| ==> MoveOk(t, moves[i]))
    && (forall i, j :: 0 <= i < j < |moves| ==> moves[i].sid != moves[j].sid)
  }

  lemma CreatableFirst(t: Topo, moves: seq<Move>, noData: bool)
    requires Creatable(t, moves) && moves != []
    ensures var w := Create(moves[0].sid, moves[0].gid, noData);
            Allowed(t, w) && OfSlot(w) && Creatable(Apply(t, w), moves[1..])
            && Apply(t, w) == t.(slots := t.slots[w.sid := Written(t.slots, w)])
  {
    hide MaxIndex;
    var w := Create(moves[0].sid, moves[0].gid, noData);
    assert MoveOk(t, moves[0]);
    var u := Apply(t, w);
    forall i | 0 <= i < |moves[1..]| ensures MoveOk(u, moves[1..][i]) {
      assert MoveOk(t, moves[i + 1]);
      assert moves[i + 1].sid != moves[0].sid;
    }
  }

  lemma CreatedNext(slots: seq<Mapping>, moves: seq<Move>, i: nat, noData: bool)
    requires i < |moves| && moves[i].sid < |slots|
    ensures var rest := Created(slots, moves[..i], noData);
            Created(slots, moves[..i + 1], noData) ==
            rest[moves[i].sid := Written(rest, Create(moves[i].sid, moves[i].gid, noData))]
  {
    assert moves[..i + 1][..i] == moves[..i];
  }

  ghost predicate CreatedAs(t: Topo, moves: seq<Move>, noData: bool, r: seq<Mapping>, i: nat) {
    i < |moves| && moves[i].sid < |t.slots| && |r| == |t.slots| ==>
      r[moves[i].sid] ==
      Mapping(t.slots[moves[i].sid].group, Pending, MaxIndex(t.slots) + 1 + i, moves[i].gid, noData)
  }

  ghost predicate Untouched(t: Topo, moves: seq<Move>, r: seq<Mapping>, s: nat) {
    s < |r| == |t.slots| && (forall i :: 0 <= i < |moves| ==> moves[i].sid != s) ==> r[s] == t.slots[s]
  }

  /** What creating several actions means: consecutive fresh indices, everything else as before. */
  lemma {:induction false} CreatedMeaning(t: Topo, moves: seq<Move>, noData: bool)
    requires Creatable(t, moves)
    ensures var r := Created(t.slots, moves, noData);
            && (forall i {:trigger CreatedAs(t, moves, noData, r, i)} :: CreatedAs(t, moves, noData, r, i))
            && (forall s {:trigger Untouched(t, moves, r, s)} :: Untouched(t, moves, r, s))
            && MaxIndex(r) == MaxIndex(t.slots) + |moves|
  {
    hide MaxIndex;
    if moves != [] {
      var n := |moves| - 1;
      var front, r := moves[..n], Created(t.slots, moves, noData);
      var rest := Created(t.slots, front, noData);
      CreatedMeaning(t, front, noData);
      assert MoveOk(t, moves[n]);
      var m := moves[n];
      assert Untouched(t, front, rest, m.sid);
      var next := Written(rest, Create(m.sid, m.gid, noData));
      assert r == rest[m.sid := next];
      MaxIndexFresh(rest, m.sid, next);
      forall i: nat ensures CreatedAs(t, moves, noData, r, i) {
        assert CreatedAs(t, front, noData, rest, i);
        if i < n {
          assert front[i] == moves[i];
        }
      }
      forall s: nat ensures Untouched(t, moves, r, s) {
        assert Untouched(t, front, rest, s);
        assert s == m.sid || forall i :: 0 <= i < n ==> front[i] == moves[i];
      }
    }
  }

  /** A new largest index is the maximum. */
  lemma {:induction false} MaxIndexFresh(slots: seq<Mapping>, s: nat, m: Mapping)
    requires s < |slots| && m.state != Nothing && m.index > MaxIndex(slots)
    ensures MaxIndex(slots[s := m]) == m.index
  {
    var n := |slots| - 1;
    var next := slots[s := m];
    if s == n {
      assert next[..n] == slots[..n];
    } else {
      assert next[..n] == slots[..n][s := m];
      assert MaxIndex(slots[..n]) <= MaxIndex(slots);
      MaxIndexFresh(slots[..n], s, m);
      assert next[n] == slots[n];
    }
  }

  predicate Mobile(m: Mapping, gid: int) { m.state == Nothing && m.group != gid }

  /** The slots in a range that can be given an action towards `gid`. */
  function Movable(slots: seq<Mapping>, beg: nat, end: nat, gid: int): seq<nat>
    requires beg <= end <= |slots|
  {
    if beg == end then [] else
      Movable(slots, beg, end - 1, gid) + if Mobile(slots[end - 1], gid) then [end - 1] else []
  }

  /** Increasing slots that can all be given an action towards `gid`. */
  ghost predicate Picks(slots: seq<Mapping>, p: seq<nat>, end: nat, gid: int) {
    && (forall i :: 0 <= i < |p| ==> p[i] < end && p[i] < |slots| && Mobile(slots[p[i]], gid))
    && (forall i, j :: 0 <= i < j < |p| ==> p[i] < p[j])
  }

  lemma {:induction false} MovableMoves(slots: seq<Mapping>, beg: nat, end: nat, gid: int)
    requires beg <= end <= |slots|
    ensures Picks(slots, Movable(slots, beg, end, gid), end, gid)
  {
    if beg < end {
      MovableMoves(slots, beg, end - 1, gid);
      assert Picks(slots, Movable(slots, beg, end - 1, gid), end, gid);
    }
  }

  lemma MovesCreatable(t: Topo, p: seq<nat>, gid: int)
    requires TopoOk(t) && Served(t, gid) && Picks(t.slots, p, |t.slots|, gid)
    ensures Creatable(t, Moves(p, gid))
  {
    var moves := Moves(p, gid);
    forall i | 0 <= i < |moves| ensures MoveOk(t, moves[i]) {
    }
  }

  predicate Chosen(m: Mapping, source: int, gid: int) {
    m.state == Nothing && m.group == source && m.group != gid
  }

  function AllOf(slots: seq<Mapping>, source: int, gid: int, end: nat): seq<nat>
    requires end <= |slots|
  {
    if end == 0 then [] else
      AllOf(slots, source, gid, end - 1) + if Chosen(slots[end - 1], source, gid) then [end - 1] else []
  }

  /** The first `num` slots of `source` that can move to `gid`. */
  function FirstOf(slots: seq<Mapping>, source: int, gid: int, num: int): seq<nat> {
    var all := AllOf(slots, source, gid, |slots|);
    if num <= 0 then [] else if num < |all| then all[..num] else all
  }

  lemma {:induction false} AllOfPrefix(slots: seq<Mapping>, source: int, gid: int, i: nat, end: nat)
    requires i <= end <= |slots|
    ensures AllOf(slots, source, gid, i) <= AllOf(slots, source, gid, end)
  {
    if i < end {
      AllOfPrefix(slots, source, gid, i, end - 1);
    }
  }

  lemma AllOfNext(slots: seq<Mapping>, source: int, gid: int, s: nat)
    requires s < |slots|
    ensures AllOf(slots, source, gid, s + 1) ==
            if Chosen(slots[s], source, gid) then AllOf(slots, source, gid, s) + [s] else AllOf(slots, source, gid, s)
  {
  }

  /** Increasing slots at rest in the source group, whose action would lead elsewhere; all of them before `end`. */
  ghost predicate Sources(slots: seq<Mapping>, p: seq<nat>, end: nat, source: int, gid: int) {
    && (forall i :: 0 <= i < |p| ==> p[i] < end && p[i] < |slots|)
    && (forall i, j :: 0 <= i < j < |p| ==> p[i] < p[j])
    && forall s :: 0 <= s < end && s < |slots| ==>
         (s in p <==> slots[s].state == Nothing && slots[s].group == source && source != gid)
  }

  lemma {:induction false} AllOfSources(slots: seq<Mapping>, source: int, gid: int, end: nat)
    requires end <= |slots|
    ensures Sources(slots, AllOf(slots, source, gid, end), end, source, gid)
  {
    if end > 0 {
      AllOfSources(slots, source, gid, end - 1);
    }
  }

  /** The first slots of the source group that can move, in order; none is left out unless there are enough before it. */
  lemma FirstOfMeaning(slots: seq<Mapping>, source: int, gid: int, num: int)
    ensures var p := FirstOf(slots, source, gid, num);
            && (|p| <= num || p == [])
            && (forall i, j :: 0 <= i < j < |p| ==> p[i] < p[j])
            && (forall i :: 0 <= i < |p| ==>
                  p[i] < |slots| && slots[p[i]].state == Nothing && slots[p[i]].group == source && source != gid)
            && forall s :: (0 <= s < |slots| && slots[s].state == Nothing && slots[s].group == source && source != gid
                            && s !in p) ==> num <= |p| && forall i :: 0 <= i < |p| ==> p[i] < s
  {
    var all, p := AllOf(slots, source, gid, |slots|), FirstOf(slots, source, gid, num);
    AllOfSources(slots, source, gid, |slots|);
    hide FirstOf, AllOf;
    forall s | 0 <= s < |slots| && slots[s].state == Nothing && slots[s].group == source && source != gid && s !in p
      ensures num <= |p| && forall i :: 0 <= i < |p| ==> p[i] < s
    {
      assert s in all;
      var k :| 0 <= k < |all| && all[k] == s;
      FirstOfPrefix(slots, source, gid, num);
      assert forall i :: 0 <= i < |p| ==> p[i] == all[i] && p[i] in p;
    }
    FirstOfPrefix(slots, source, gid, num);
    forall i | 0 <= i < |p|
      ensures p[i] < |slots| && slots[p[i]].state == Nothing && slots[p[i]].group == source && source != gid
    {
      assert all[i] in all;
    }
  }

  lemma FirstOfPrefix(slots: seq<Mapping>, source: int, gid: int, num: int)
    ensures FirstOf(slots, source, gid, num) <= AllOf(slots, source, gid, |slots|)
    ensures var p := FirstOf(slots, source, gid, num);
            (|p| <= num || p == []) && (p == AllOf(slots, source, gid, |slots|) || num <= |p|)
  {
  }

  lemma PicksMore(slots: seq<Mapping>, p: seq<nat>, s: nat, source: int, gid: int)
    requires s < |slots| && Picks(slots, p, s, gid)
    ensures Picks(slots, if Chosen(slots[s], source, gid) then p + [s] else p, s + 1, gid)
  {
  }

  method PickSome(slots: seq<Mapping>, source: int, gid: int, num: int) returns (pending: seq<nat>)
    ensures pending == FirstOf(slots, source, gid, num) && Picks(slots, pending, |slots|, gid)
  {
    hide AllOf, Picks, Chosen;
    pending := [];
    var s: nat := 0;
    NothingPicked(slots, source, gid);
    while s < |slots| && |pending| < num
      invariant s <= |slots| && pending == AllOf(slots, source, gid, s) && Picks(slots, pending, s, gid)
      invariant num > 0 ==> |pending| <= num
      invariant num <= 0 ==> pending == []
    {
      AllOfNext(slots, source, gid, s);
      PicksMore(slots, pending, s, source, gid);
      if Chosen(slots[s], source, gid) {
        pending := pending + [s];
      }
      s := s + 1;
    }
    AllOfPrefix(slots, source, gid, s, |slots|);
    PicksWiden(slots, pending, s, |slots|, gid);
  }

  lemma NothingPicked(slots: seq<Mapping>, source: int, gid: int)
    ensures AllOf(slots, source, gid, 0) == [] && Picks(slots, [], 0, gid)
  {
  }

  lemma PicksWiden(slots: seq<Mapping>, p: seq<nat>, s: nat, end: nat, gid: int)
    requires Picks(slots, p, s, gid) && s <= end
    ensures Picks(slots, p, end, gid)
  {
  }

  method PickRange(slots: seq<Mapping>, beg: nat, end: nat, gid: int, must: bool) returns (ok: bool, pending: seq<nat>)
    requires beg <= end <= |slots|
    ensures ok ==> pending == Movable(slots, beg, end, gid) && (must ==> |pending| == end - beg)
    ensures !ok ==> must && |Movable(slots, beg, end, gid)| != end - beg
  {
    pending := [];
    for s := beg to end
      invariant pending == Movable(slots, beg, s, gid) && (must ==> |pending| == s - beg)
    {
      if slots[s].state != Nothing || slots[s].group == gid {
        if must {
          MovableShort(slots, beg, s + 1, end, gid);
          return false, [];
        }
      } else {
        pending := pending + [s];
      }
    }
    ok := true;
  }

  lemma {:induction false} MovableShort(slots: seq<Mapping>, beg: nat, s: nat, end: nat, gid: int)
    requires beg < s <= end <= |slots| && |Movable(slots, beg, s, gid)| < s - beg
    ensures |Movable(slots, beg, end, gid)| < end - beg
  {
    if s < end {
      MovableShort(slots, beg, s, end - 1, gid);
    }
  }

  // ---------- The first distribution of the slots ----------

  lemma {:induction false} MovableEach(slots: seq<Mapping>, beg: nat, end: nat, gid: int)
    requires beg <= end <= |slots|
    ensures |Movable(slots, beg, end, gid)| <= end - beg
    ensures |Movable(slots, beg, end, gid)| == end - beg <==> forall s :: beg <= s < end ==> Mobile(slots[s], gid)
  {
    if beg < end {
      MovableEach(slots, beg, end - 1, gid);
    }
  }

  lemma {:induction false} MovableAll(slots: seq<Mapping>, beg: nat, end: nat, gid: int)
    requires beg <= end <= |slots|
    ensures |Movable(slots, beg, end, gid)| <= end - beg
    ensures |Movable(slots, beg, end, gid)| == end - beg ==>
              forall i :: 0 <= i < end - beg ==> Movable(slots, beg, end, gid)[i] == beg + i
  {
    if beg < end {
      MovableAll(slots, beg, end - 1, gid);
    }
  }

  lemma {:induction false} CreatedConcat(slots: seq<Mapping>, a: seq<Move>, b: seq<Move>, noData: bool)
    ensures Created(slots, a + b, noData) == Created(Created(slots, a, noData), b, noData)
  {
    if b == [] {
      assert a + b == a;
    } else {
      var n := |b| - 1;
      CreatedConcat(slots, a, b[..n], noData);
      assert (a + b)[..|a + b| - 1] == a + b[..n] && (a + b)[|a + b| - 1] == b[n];
    }
  }

  function Quotient(n: nat): nat
    requires n > 0
  {
    MAX_SLOT_NUM / n
  }

  function Remainder(n: nat): nat
    requires n > 0
  {
    MAX_SLOT_NUM % n
  }

  /** Where the share of the `k`-th of `n` groups begins: the first shares are one larger, as the remainder has it. */
  function Cut(n: nat, k: nat): nat
    requires n > 0
  {
    k * Quotient(n) + if k < Remainder(n) then k else Remainder(n)
  }

  lemma CutNext(n: nat, k: nat)
    requires k < n
    ensures Cut(n, k + 1) == Cut(n, k) + Quotient(n) + (if k < Remainder(n) then 1 else 0)
    ensures Cut(n, n) == MAX_SLOT_NUM && Cut(n, k + 1) <= MAX_SLOT_NUM
  {
    var q := Quotient(n);
    assert (k + 1) * q == k * q + q;
    assert n * q + Remainder(n) == MAX_SLOT_NUM;
    MulUp(k + 1, n, q);
  }

  lemma MulUp(a: nat, b: nat, q: nat)
    requires a <= b
    ensures a * q <= b * q
  {
  }

  /** The slots are handed out in order, an even share to each group in `gids`. */
  ghost predicate Divided(moves: seq<Move>, gids: seq<int>, n: nat)
    requires n > 0
  {
    && |gids| <= n && |moves| == Cut(n, |gids|)
    && (forall k {:trigger gids[k]} :: 0 <= k < |gids| ==> Share(moves, gids[k], Cut(n, k), Cut(n, k + 1)))
  }

  ghost predicate Share(moves: seq<Move>, gid: int, beg: nat, end: nat) {
    beg <= end <= |moves| && forall i {:trigger moves[i]} :: beg <= i < end ==> moves[i] == Move(i, gid)
  }

  ghost predicate Distinct(gids: seq<int>) {
    forall i, j :: 0 <= i < j < |gids| ==> gids[i] != gids[j]
  }

  lemma DividedMore(moves: seq<Move>, gids: seq<int>, n: nat, gid: int, blk: seq<Move>)
    requires n > 0 && Divided(moves, gids, n) && |gids| < n
    requires |moves| + |blk| == Cut(n, |gids| + 1)
    requires forall i :: 0 <= i < |blk| ==> blk[i] == Move(|moves| + i, gid)
    ensures Divided(moves + blk, gids + [gid], n)
  {
    hide Cut;
    var m, g := moves + blk, gids + [gid];
    forall k {:trigger g[k]} | 0 <= k < |g|
      ensures Share(m, g[k], Cut(n, k), Cut(n, k + 1))
    {
      if k < |gids| {
        assert g[k] == gids[k];
        assert Share(moves, gids[k], Cut(n, k), Cut(n, k + 1));
      }
    }
  }

  /** The groups in `gids` have their shares, those in `todo` not yet. */
  ghost predicate Dealt(t: Topo, moves: seq<Move>, gids: seq<int>, n: nat, todo: set<int>)
    requires n > 0
  {
    && Divided(moves, gids, n) && Distinct(gids) && |todo| + |gids| == n
    && (forall g :: g in gids ==> g !in todo && Served(t, g))
    && (forall i {:trigger moves[i]} :: 0 <= i < |moves| ==> moves[i].sid == i)
  }

  /** The first distribution can be made: there are groups, not too many, all with servers, and every slot is free. */
  ghost predicate CanInit(t: Topo) {
    && 0 < |t.groups| < MAX_SLOT_NUM && (forall g :: g in t.groups ==> Served(t, g))
    && forall s {:trigger t.slots[s]} :: 0 <= s < |t.slots| ==> t.slots[s].group == 0 && t.slots[s].state == Nothing
  }

  /** Slots that no move names stay as they are. */
  lemma {:induction false} CreatedOthers(slots: seq<Mapping>, moves: seq<Move>, noData: bool, s: nat)
    requires s < |slots| && forall i :: 0 <= i < |moves| ==> moves[i].sid != s
    ensures Created(slots, moves, noData)[s] == slots[s]
  {
    if moves != [] {
      CreatedOthers(slots, moves[..|moves| - 1], noData, s);
    }
  }

  /** A share that is refused shows that the distribution could not be made; what is dealt was free. */
  lemma {:induction false} ShareTells(t: Topo, u: Topo, done: seq<Move>, beg: nat, end: nat, gid: int)
    requires u == t.(slots := Created(t.slots, done, true)) && TopoOk(t) && gid in t.groups && beg <= end <= |t.slots|
    requires forall i {:trigger done[i]} :: 0 <= i < |done| ==> done[i].sid < beg
    requires forall s {:trigger t.slots[s]} :: 0 <= s < |t.slots| ==> t.slots[s].group == 0
    ensures CanInit(t) ==> Served(u, gid) && |Movable(u.slots, beg, end, gid)| == end - beg
    ensures |Movable(u.slots, beg, end, gid)| == end - beg ==> forall s :: beg <= s < end ==> t.slots[s].state == Nothing
  {
    hide TopoOk, Movable;
    GroupPositive(t, gid);
    forall s | beg <= s < end ensures u.slots[s] == t.slots[s] {
      CreatedOthers(t.slots, done, true, s);
    }
    hide Created;
    MovableEach(u.slots, beg, end, gid);
  }

  lemma GroupPositive(t: Topo, g: int)
    requires TopoOk(t) && g in t.groups
    ensures g > 0
  {
  }

  lemma NothingDealt(t: Topo, n: nat, todo: set<int>)
    requires n > 0 && |todo| == n
    ensures Dealt(t, [], [], n, todo) && Cut(n, 0) == 0
  {
  }

  lemma DealtMore(t: Topo, moves: seq<Move>, gids: seq<int>, n: nat, todo: set<int>, gid: int, blk: seq<Move>,
                  rest: set<int>)
    requires n > 0 && Dealt(t, moves, gids, n, todo) && gid in todo && rest == todo - {gid} && Served(t, gid)
    requires |moves| + |blk| == Cut(n, |gids| + 1)
    requires forall i :: 0 <= i < |blk| ==> blk[i] == Move(|moves| + i, gid)
    ensures Dealt(t, moves + blk, gids + [gid], n, rest)
  {
    hide Cut, Divided, Served;
    DividedMore(moves, gids, n, gid, blk);
  }

  lemma DealtSids(t: Topo, moves: seq<Move>, gids: seq<int>, n: nat, todo: set<int>)
    requires n > 0 && Dealt(t, moves, gids, n, todo)
    ensures forall i {:trigger moves[i]} :: 0 <= i < |moves| ==> moves[i].sid == i
  {
  }

  lemma SameServed(t: Topo, u: Topo, g: int)
    requires t.groups == u.groups
    ensures Served(t, g) == Served(u, g)
  {
  }

  lemma NothingCreated(slots: seq<Mapping>)
    ensures Created(slots, [], true) == slots
  {
  }

  // ---------- Assigning slots by hand ----------

  function Assigned(slots: seq<Mapping>, moves: seq<Move>): (r: seq<Mapping>)
    ensures |r| == |slots|
  {
    if moves == [] then slots else
      var n := |moves| - 1;
      var rest := Assigned(slots, moves[..n]);
      if moves[n].sid < |slots| then rest[moves[n].sid := Resting(moves[n].gid)] else rest
  }

  predicate AssignOk(t: Topo, m: Move) { m.sid < |t.slots| && m.gid != 0 && Served(t, m.gid) }

  ghost predicate Assignable(t: Topo, moves: seq<Move>) {
    forall i :: 0 <= i < |moves| ==>
      moves[i].sid < |t.slots| && moves[i].gid in t.groups && moves[i].gid != 0 && t.groups[moves[i].gid].servers != []
  }

  lemma AssignNext(slots: seq<Mapping>, moves: seq<Move>, i: nat)
    requires i < |moves| && moves[i].sid < |slots|
    ensures Assigned(slots, moves[..i + 1]) == Assigned(slots, moves[..i])[moves[i].sid := Resting(moves[i].gid)]
  {
    assert moves[..i + 1][..i] == moves[..i];
  }

  lemma NothingAssigned(slots: seq<Mapping>, moves: seq<Move>)
    ensures Assigned(slots, moves[..0]) == slots
  {
  }

  lemma AssignAllowed(t: Topo, m: Move)
    requires AssignOk(t, m)
    ensures var w := Topology.Assign(m.sid, m.gid);
            Allowed(t, w) && Apply(t, w) == t.(slots := t.slots[m.sid := Resting(m.gid)])
  {
  }

  lemma OfflineAllowed(t: Topo, s: nat)
    requires s < |t.slots|
    ensures Allowed(t, Offline(s)) && Apply(t, Offline(s)) == t.(slots := t.slots[s := Resting(0)])
  {
  }

  lemma TouchAllowed(t: Topo, gid: int, g: Group)
    requires gid in t.groups && g.servers == t.groups[gid].servers
    ensures Allowed(t, Touch(gid, g)) && Apply(t, Touch(gid, g)) == t.(groups := t.groups[gid := g])
  {
  }

  lemma KnownAddr(t: Topo, a: string)
    ensures AddrKnown(t, a) <==> exists g, i :: HasAddr(t, g, i, a)
  {
    if AddrKnown(t, a) {
      var g :| g in t.groups && exists i :: 0 <= i < |t.groups[g].servers| && t.groups[g].servers[i].addr == a;
      var i :| 0 <= i < |t.groups[g].servers| && t.groups[g].servers[i].addr == a;
      assert HasAddr(t, g, i, a);
    }
  }

  /** The first server with an address, or past the end when there is none. */
  ghost predicate FirstAddr(servers: seq<Server>, addr: string, at: nat) {
    && at <= |servers| && (forall i :: 0 <= i < at ==> servers[i].addr != addr)
    && (at < |servers| ==> servers[at].addr == addr)
  }

  method FindServer(servers: seq<Server>, addr: string) returns (at: nat)
    ensures FirstAddr(servers, addr, at)
  {
    at := 0;
    while at < |servers| && servers[at].addr != addr
      invariant at <= |servers| && forall i :: 0 <= i < at ==> servers[i].addr != addr
    {
      at := at + 1;
    }
  }

  /** The process known behind an address, or nothing. */
  function ProcessOf(pids: map<string, string>, addr: string): string { if addr in pids then pids[addr] else "" }

  predicate SameProcess(pids: map<string, string>, a: string, b: string) {
    ProcessOf(pids, a) != "" && ProcessOf(pids, a) == ProcessOf(pids, b)
  }

  /** The server meant by an address: the one that has it, or else the first one run by the same process. */
  ghost predicate MeantBy(servers: seq<Server>, addr: string, pids: map<string, string>, at: nat) {
    if exists i :: 0 <= i < |servers| && servers[i].addr == addr then at < |servers| && FirstAddr(servers, addr, at)
    else if addr !in pids || pids[addr] == "" then at == |servers|
    else && at <= |servers| && (at < |servers| ==> servers[at].addr in pids && pids[servers[at].addr] == pids[addr])
         && forall i :: 0 <= i < at ==> servers[i].addr !in pids || pids[servers[i].addr] != pids[addr]
  }

  method FindMaster(servers: seq<Server>, addr: string, pids: map<string, string>) returns (at: nat)
    ensures MeantBy(servers, addr, pids, at)
  {
    at := FindServer(servers, addr);
    if at < |servers| {
      return;
    }
    at := 0;
    while at < |servers| && !SameProcess(pids, addr, servers[at].addr)
      invariant at <= |servers| && forall i :: 0 <= i < at ==> !SameProcess(pids, addr, servers[i].addr)
    {
      at := at + 1;
    }
  }

  /** The first server with an address takes a role; nothing happens if there is none. */
  function WithRole(servers: seq<Server>, at: nat, role: string): seq<Server> {
    if at < |servers| then servers[at := servers[at].(role := role)] else servers
  }

  /** Reads may be served by any server but a witness or an observer. */
  predicate CanEnable(t: Topo, gid: int, at: nat) {
    && gid in t.groups && at < |t.groups[gid].servers| && !t.groups[gid].promoting
    && t.groups[gid].servers[at].role !in {"witness_node", "observer_node"}
  }

  /** The groups are as they were, except that marks may have been cleared. */
  ghost predicate OnlyCleared(t: Topo, u: Topo) {
    && t.groups.Keys == u.groups.Keys
    && forall g :: g in t.groups ==> u.groups[g] == t.groups[g] || u.groups[g] == t.groups[g].(outOfSync := false)
  }

  ghost predicate Named(moves: seq<Move>, g: int) { exists i :: 0 <= i < |moves| && moves[i].gid == g }

  /** A group is as it was, or named by a move and marked out of sync. */
  ghost predicate GroupMarked(before: Group, after: Group, named: bool) {
    after == before || (named && after == before.(outOfSync := true))
  }

  ghost predicate OnlyMarked(t: Topo, u: Topo, moves: seq<Move>) {
    && t.groups.Keys == u.groups.Keys
    && forall g :: g in t.groups ==> GroupMarked(t.groups[g], u.groups[g], Named(moves, g))
  }

  lemma OnlyMarkedRefl(t: Topo, moves: seq<Move>)
    ensures OnlyMarked(t, t, moves)
  {
  }

  lemma OnlyMarkedTouch(t: Topo, u: Topo, moves: seq<Move>, i: nat)
    requires OnlyMarked(t, u, moves) && i < |moves| && moves[i].gid in u.groups
    ensures var gid := moves[i].gid;
            OnlyMarked(t, u.(groups := u.groups[gid := u.groups[gid].(outOfSync := true)]), moves)
  {
    assert Named(moves, moves[i].gid);
  }

  lemma OnlyMarkedSlots(t: Topo, u: Topo, v: Topo, moves: seq<Move>)
    requires OnlyMarked(t, u, moves) && v.groups == u.groups
    ensures OnlyMarked(t, v, moves)
  {
  }

  lemma AssignableSame(t: Topo, u: Topo, moves: seq<Move>)
    requires Assignable(t, moves) && |t.slots| == |u.slots|
    requires forall g :: g in t.groups ==> g in u.groups && u.groups[g].servers == t.groups[g].servers
    ensures Assignable(u, moves)
  {
    forall i | 0 <= i < |moves| ensures AssignOk(u, moves[i]) {
      assert AssignOk(t, moves[i]);
    }
  }

  /** The last assignment of a slot wins; slots not named keep their mapping. */
  lemma {:induction false} AssignedMeaning(slots: seq<Mapping>, moves: seq<Move>, s: nat)
    requires s < |slots|
    ensures if exists i :: 0 <= i < |moves| && moves[i].sid == s
            then exists i :: 0 <= i < |moves| && moves[i].sid == s && Assigned(slots, moves)[s] == Resting(moves[i].gid)
                             && forall k :: i < k < |moves| ==> moves[k].sid != s
            else Assigned(slots, moves)[s] == slots[s]
  {
    if moves != [] {
      var n := |moves| - 1;
      AssignedMeaning(slots, moves[..n], s);
      assert forall k :: 0 <= k < n ==> moves[..n][k] == moves[k];
    }
  }

  // ---------- Rounds of migrations ----------

  /** The groups and slots taken in one round. */
  datatype Round = Round(marks: set<int>, plans: map<nat, Mapping>)

  predicate Accepts(round: Round, s: nat, m: Mapping) {
    m.group !in round.marks && m.target !in round.marks && s !in round.plans
  }

  function Planned(round: Round, s: nat, m: Mapping): Round {
    Round(round.marks + (if m.group != 0 then {m.group} else {}) + {m.target}, round.plans[s := m])
  }

  /** An action, begun or pending, of a slot not in the round, whose two groups are free. */
  ghost predicate Candidate(slots: seq<Mapping>, round: Round, begun: bool, s: nat) {
    && s < |slots| && slots[s].state != Nothing && (begun <==> slots[s].state != Pending)
    && s !in round.plans && slots[s].group !in round.marks && slots[s].target !in round.marks
  }

  /** An action that can be taken up: a pending one only if migrations are not disabled. */
  ghost predicate Eligible(slots: seq<Mapping>, round: Round, disabled: bool, s: nat) {
    && s < |slots| && slots[s].state != Nothing && (slots[s].state == Pending ==> !disabled)
    && s !in round.plans && slots[s].group !in round.marks && slots[s].target !in round.marks
  }

  ghost predicate Least(slots: seq<Mapping>, round: Round, begun: bool, s: nat) {
    && Candidate(slots, round, begun, s)
    && forall k :: 0 <= k < |slots| && Candidate(slots, round, begun, k) ==> slots[s].index <= slots[k].index
  }

  /** The least index among accepted actions already begun, or, if there is none, among pending ones. */
  ghost predicate FirstChoice(slots: seq<Mapping>, round: Round, disabled: bool, s: nat) {
    || Least(slots, round, true, s)
    || (!disabled && Least(slots, round, false, s)
        && forall k :: 0 <= k < |slots| ==> !Candidate(slots, round, true, k))
  }

  method MinActionIndex(slots: seq<Mapping>, round: Round, begun: bool) returns (picked: Option<nat>)
    ensures picked.None? ==> forall k :: 0 <= k < |slots| ==> !Candidate(slots, round, begun, k)
    ensures picked.Some? ==> picked.value < |slots| && Least(slots, round, begun, picked.value)
  {
    picked := None;
    for s := 0 to |slots|
      invariant picked.None? ==> forall k :: 0 <= k < s ==> !Candidate(slots, round, begun, k)
      invariant picked.Some? ==> picked.value < s && Candidate(slots, round, begun, picked.value)
      invariant picked.Some? ==> forall k :: 0 <= k < s && Candidate(slots, round, begun, k) ==>
                                   slots[picked.value].index <= slots[k].index
    {
      var m := slots[s];
      if m.state != Nothing && (begun <==> m.state != Pending) {
        if picked.Some? && slots[picked.value].index < m.index {
          continue;
        }
        if Accepts(round, s, m) {
          picked := Some(s);
        }
      }
    }
  }

  lemma AdvanceAllowed(t: Topo, s: nat)
    requires s < |t.slots| && Stage(t.slots[s].state) < 3 && t.slots[s].state != Nothing
    ensures Allowed(t, Advance(s)) && Apply(t, Advance(s)) ==
                                      t.(slots := t.slots[s := t.slots[s].(state := NextState(t.slots[s].state))])
  {
  }

  /** An action stays where it is, or moves up, at most to the migrating state. */
  ghost predicate Forward(a: State, b: State) { b == a || Stage(a) < Stage(b) <= Stage(Migrating) }

  const PARALLEL: nat := 36

  ghost function Touches(m: Mapping): set<int> { {m.group, m.target} - {0} }

  ghost predicate Taken(round: Round, g: int) { exists s :: s in round.plans && g in Touches(round.plans[s]) }

  /** No two migrations of a round share a group, and exactly the groups they involve are taken. */
  ghost predicate RoundOk(round: Round) {
    && (forall s :: s in round.plans ==> Touches(round.plans[s]) <= round.marks)
    && (forall g :: g in round.marks ==> Taken(round, g))
    && (forall s, t :: s in round.plans && t in round.plans && s != t ==>
          Touches(round.plans[s]) !! Touches(round.plans[t]))
    && (forall s :: s in round.plans ==> round.plans[s].state != Nothing && round.plans[s].target != 0)
  }

  lemma EmptyRound()
    ensures RoundOk(Round({}, map[]))
  {
  }

  lemma RoundNext(t: Topo, round: Round, disabled: bool, s: nat)
    requires RoundOk(round) && TopoOk(t) && s < |t.slots| && FirstChoice(t.slots, round, disabled, s)
    ensures RoundOk(Planned(round, s, t.slots[s])) && |Planned(round, s, t.slots[s]).plans| == |round.plans| + 1
  {
    hide AddrsUnique, IndicesUnique, Least;
    var m := t.slots[s];
    assert SlotOk(t, m);
    ChoiceAccepted(t.slots, round, disabled, s);
    PlannedOk(round, s, m);
    assert Planned(round, s, m).plans.Keys == round.plans.Keys + {s};
  }

  lemma ChoiceAccepted(slots: seq<Mapping>, round: Round, disabled: bool, s: nat)
    requires FirstChoice(slots, round, disabled, s)
    ensures s < |slots| && slots[s].state != Nothing && Accepts(round, s, slots[s])
  {
  }

  lemma Apart(a: set<int>, b: set<int>, c: set<int>)
    requires a <= b && b !! c
    ensures a !! c
  {
  }

  lemma MarksOf(round: Round, s: nat, m: Mapping, g: int)
    requires m.target != 0 && g in Planned(round, s, m).marks && g !in round.marks
    ensures g in Touches(m)
  {
  }

  /** Nothing is left out of a full round but what shares a group with a migration in it. */
  ghost predicate Exhausted(slots: seq<Mapping>, round: Round, disabled: bool) {
    forall s :: 0 <= s < |slots| && slots[s].state != Nothing && (slots[s].state == Pending ==> !disabled) ==>
      s in round.plans || Shares(round, slots[s])
  }

  ghost predicate Shares(round: Round, m: Mapping) {
    exists p :: p in round.plans && !(Touches(round.plans[p]) !! Touches(m))
  }

  lemma RefusedExhausts(slots: seq<Mapping>, round: Round, disabled: bool)
    requires RoundOk(round) && forall s :: 0 <= s < |slots| ==> !Eligible(slots, round, disabled, s)
    ensures Exhausted(slots, round, disabled)
  {
    forall s | 0 <= s < |slots| && slots[s].state != Nothing && (slots[s].state == Pending ==> !disabled)
      ensures s in round.plans || Shares(round, slots[s])
    {
      assert !Eligible(slots, round, disabled, s);
      if s !in round.plans {
        var g := if slots[s].group in round.marks then slots[s].group else slots[s].target;
        assert Taken(round, g);
        var p :| p in round.plans && g in Touches(round.plans[p]);
        assert g in Touches(slots[s]);
      }
    }
  }

  lemma PlannedOk(round: Round, s: nat, m: Mapping)
    requires RoundOk(round) && Accepts(round, s, m) && m.state != Nothing && m.target != 0
    ensures RoundOk(Planned(round, s, m))
  {
    var next := Planned(round, s, m);
    assert Touches(m) !! round.marks && Touches(m) <= next.marks;
    hide Touches, Accepts;
    forall x | x in next.plans ensures Touches(next.plans[x]) <= next.marks {
      assert x != s ==> Touches(round.plans[x]) <= round.marks;
    }
    forall g | g in next.marks ensures Taken(next, g) {
      if g in round.marks {
        var x :| x in round.plans && g in Touches(round.plans[x]);
        assert x in next.plans && next.plans[x] == round.plans[x];
      } else {
        assert s in next.plans && g in Touches(next.plans[s]) by { MarksOf(round, s, m, g); }
      }
    }
    forall x, y | x in next.plans && y in next.plans && x != y
      ensures Touches(next.plans[x]) !! Touches(next.plans[y])
    {
      if x == s {
        Apart(Touches(round.plans[y]), round.marks, Touches(m));
      } else if y == s {
        Apart(Touches(round.plans[x]), round.marks, Touches(m));
      }
    }
  }

  // ---------- Rebalancing ----------

  function Abstract(slots: seq<Mapping>): seq<Books.Slot> {
    seq(|slots|, s requires 0 <= s < |slots| =>
      Books.Slot(slots[s].group, slots[s].state != Nothing, slots[s].target))
  }

  /** Where a slot ends up once a plan and the actions under way are finished. */
  ghost function EndsIn(slots: seq<Mapping>, plan: map<nat, int>, s: nat): int
    requires s < |slots|
  {
    if s in plan then plan[s] else if slots[s].state != Nothing then slots[s].target else slots[s].group
  }

  ghost function EndSize(slots: seq<Mapping>, plan: map<nat, int>, g: int): nat {
    |set s: nat | s < |slots| && EndsIn(slots, plan, s) == g|
  }

  /** The number of slots with an action towards a group. */
  ghost function UnderWay(slots: seq<Mapping>, g: int): nat {
    |set s: nat | s < |slots| && slots[s].state != Nothing && slots[s].target == g|
  }

  /** The actions under way leave room: no group gets too many, and not too many groups get one more than the rest. */
  ghost predicate RoomLeft(slots: seq<Mapping>, live: seq<int>, lower: int, upper: int) {
    && (forall g :: g in live ==> UnderWay(slots, g) <= upper)
    && |set g | g in live && UnderWay(slots, g) > lower| <= |slots| - |live| * lower
  }

  /**
   What a plan does to the stored slots: it moves slots at rest to other live groups and gives every free slot one,
   and the groups end within a slot of each other exactly when there is room.
   */
  ghost predicate Balances(slots: seq<Mapping>, live: seq<int>, plan: map<nat, int>) {
    && live != []
    && (forall s :: s in plan ==>
          s < |slots| && slots[s].state == Nothing && plan[s] in live && plan[s] != slots[s].group)
    && (forall s :: 0 <= s < |slots| && slots[s].state == Nothing && slots[s].group == 0 ==> s in plan)
    && var lower, upper := |slots| / |live|, (|slots| + |live| - 1) / |live|;
       (forall g :: g in live ==> lower <= EndSize(slots, plan, g) <= upper) <==> RoomLeft(slots, live, lower, upper)
  }

  /** No slot is free, and the live groups are within a slot of each other when all actions are finished. */
  ghost predicate Balanced(slots: seq<Mapping>, live: seq<int>) {
    && (forall s :: 0 <= s < |slots| ==> slots[s].state != Nothing || slots[s].group != 0)
    && forall g, h :: g in live && h in live ==> EndSize(slots, map[], g) - EndSize(slots, map[], h) <= 1
  }

  lemma SameEnds(slots: seq<Mapping>, plan: map<nat, int>, g: int)
    ensures Balancer.FinalSize(Abstract(slots), plan, g) == EndSize(slots, plan, g)
    ensures |Books.Arriving(Abstract(slots), g, |slots|)| == UnderWay(slots, g)
  {
    var a := Abstract(slots);
    assert (set s: nat | s < |a| && Balancer.Final(a, plan, s) == g)
        == (set s: nat | s < |slots| && EndsIn(slots, plan, s) == g);
    assert Books.Arriving(a, g, |slots|)
        == (set s: nat | s < |slots| && slots[s].state != Nothing && slots[s].target == g);
  }

  lemma SameRoom(slots: seq<Mapping>, live: seq<int>, lower: int, upper: int)
    ensures Balancer.Placeable(Abstract(slots), live, lower, upper) <==> RoomLeft(slots, live, lower, upper)
  {
    hide Abstract, UnderWay, Books.Arriving;
    var a := Abstract(slots);
    assert |a| == |slots| by { AbstractLength(slots); }
    forall g ensures |Books.Arriving(a, g, |slots|)| == UnderWay(slots, g) {
      SameEnds(slots, map[], g);
    }
    assert Balancer.Crowded(a, live, lower) == set g | g in live && UnderWay(slots, g) > lower;
  }

  lemma AbstractLength(slots: seq<Mapping>)
    ensures |Abstract(slots)| == |slots|
  {
  }

  /** What the balancer promises of the slots it is given, said of the slots that are stored. */
  lemma PlanBalances(slots: seq<Mapping>, live: seq<int>, plan: map<nat, int>)
    requires Levels(Abstract(slots), live, plan) && Books.AllLive(Abstract(slots), live)
    ensures Balances(slots, live, plan)
  {
    hide EndSize, Balancer.FinalSize, Balancer.Placeable, RoomLeft, Balancer.InOrder, Balancer.FromTop, Balancer.Into;
    var a := Abstract(slots);
    var lower, upper := |slots| / |live|, (|slots| + |live| - 1) / |live|;
    forall s | s in plan
      ensures s < |slots| && slots[s].state == Nothing && plan[s] in live && plan[s] != slots[s].group
    {
      assert Balancer.PlannedOk(a, live, plan, lower, upper, s);
    }
    forall s | 0 <= s < |slots| && slots[s].state == Nothing && slots[s].group == 0 ensures s in plan {
      assert !a[s].active && a[s].group == 0;
    }
    forall g ensures Balancer.FinalSize(a, plan, g) == EndSize(slots, plan, g) {
      SameEnds(slots, plan, g);
    }
    SameRoom(slots, live, lower, upper);
  }

  lemma BalancedLevel(slots: seq<Mapping>, live: seq<int>)
    requires Balanced(slots, live) && 0 !in live
    ensures Balancer.AlreadyLevel(Abstract(slots), live)
  {
    hide EndSize, Balancer.Expected;
    var a := Abstract(slots);
    forall g | g in live ensures Balancer.Expected(a, g) == EndSize(slots, map[], g) {
      ExpectedEnd(slots, g);
    }
  }

  lemma ExpectedEnd(slots: seq<Mapping>, g: int)
    requires g != 0
    ensures Balancer.Expected(Abstract(slots), g) == EndSize(slots, map[], g)
  {
    var a, none: map<nat, int> := Abstract(slots), map[];
    var way, here := Books.Arriving(a, g, |a|), Books.Sitting(a, g, |a|);
    assert way !! here && way + here == set s: nat | s < |slots| && EndsIn(slots, none, s) == g;
    assert |way + here| == |way| + |here|;
  }

  /** The groups with a server, in increasing order. */
  ghost predicate LiveOf(t: Topo, live: seq<int>) {
    Balancer.Ascending(live) && forall g :: g in live <==> Served(t, g)
  }

  ghost predicate Levels(slots: seq<Books.Slot>, live: seq<int>, plan: map<nat, int>) {
    live != [] && Balancer.PlanOk(slots, live, plan, |slots| / |live|, (|slots| + |live| - 1) / |live|)
  }

  method Listed(keys: set<nat>) returns (list: seq<nat>)
    ensures Books.Increasing(list) && forall k :: k in list <==> k in keys
  {
    var todo := keys;
    var some: seq<nat> := [];
    while todo != {}
      invariant Phases.NoRepeats(some) && todo <= keys
      invariant forall k :: k in some <==> k in keys && k !in todo
      decreases todo
    {
      assert exists k :: k in todo by { SomeNat(todo); }
      var k :| k in todo;
      todo := todo - {k};
      some := some + [k];
    }
    Balancer.SortIncreasing(some);
    list := Balancer.SortInts(some);
  }

  lemma SomeNat(keys: set<nat>)
    ensures keys == {} || exists k :: k in keys
  {
    if forall k :: k !in keys {
      assert keys == {};
    }
  }

  /** The moves of a plan, lowest slot first. */
  ghost predicate MovesOf(plan: map<nat, int>, moves: seq<Move>) {
    && (forall i, j :: 0 <= i < j < |moves| ==> moves[i].sid < moves[j].sid)
    && (forall i :: 0 <= i < |moves| ==> moves[i].sid in plan && plan[moves[i].sid] == moves[i].gid)
    && (forall s :: s in plan ==> Move(s, plan[s]) in moves)
  }

  method PlanMoves(plan: map<nat, int>) returns (moves: seq<Move>)
    ensures MovesOf(plan, moves)
  {
    var sids := Listed(plan.Keys);
    moves := [];
    for i := 0 to |sids|
      invariant |moves| == i
      invariant forall k :: 0 <= k < i ==> sids[k] in plan && moves[k] == Move(sids[k], plan[sids[k]])
    {
      assert sids[i] in sids;
      moves := moves + [Move(sids[i], plan[sids[i]])];
    }
    forall s | s in plan ensures Move(s, plan[s]) in moves {
      assert s in sids;
      var k :| 0 <= k < |sids| && sids[k] == s;
      assert moves[k] == Move(s, plan[s]);
    }
  }

  lemma PlanCreatable(t: Topo, live: seq<int>, plan: map<nat, int>, moves: seq<Move>)
    requires TopoOk(t) && LiveOf(t, live) && Levels(Abstract(t.slots), live, plan) && MovesOf(plan, moves)
    ensures Creatable(t, moves)
  {
    hide Books.AllLive, Balancer.LevelFinal, Balancer.Placeable, Balancer.InOrder, Balancer.FromTop, Balancer.FinalSize;
    hide AddrsUnique, IndicesUnique;
    var slots := Abstract(t.slots);
    var lower, upper := |slots| / |live|, (|slots| + |live| - 1) / |live|;
    forall i | 0 <= i < |moves| ensures MoveOk(t, moves[i]) {
      var s := moves[i].sid;
      assert Balancer.PlannedOk(slots, live, plan, lower, upper, s);
      assert slots[s] == Books.Slot(t.slots[s].group, t.slots[s].state != Nothing, t.slots[s].target);
    }
  }

  lemma LevelsOf(slots: seq<Books.Slot>, live: seq<int>, plan: map<nat, int>)
    requires live != [] && Balancer.PlanOk(slots, live, plan, |slots| / |live|, (|slots| + |live| - 1) / |live|)
    ensures Levels(slots, live, plan)
  {
  }

  /** A sound topology has every slot free, on a live group, or on its way to one. */
  lemma LiveFacts(t: Topo, live: seq<int>)
    requires TopoOk(t) && LiveOf(t, live)
    ensures Balancer.Ascending(live) && 0 !in live && Books.AllLive(Abstract(t.slots), live)
    ensures live == [] ==> forall g :: !Served(t, g)
  {
    hide AddrsUnique, IndicesUnique;
    var slots := Abstract(t.slots);
    forall s | 0 <= s < |slots|
      ensures if slots[s].active then slots[s].target in live else slots[s].group == 0 || slots[s].group in live
    {
      assert SlotOk(t, t.slots[s]);
    }
    if live == [] {
      forall g ensures !Served(t, g) {
        assert g !in live;
      }
    }
  }

  lemma GroupIdsPositive(t: Topo)
    requires TopoOk(t)
    ensures forall g :: g in t.groups ==> 0 < g
  {
  }

  method LiveGroups(t: Topo) returns (live: seq<int>)
    requires forall g :: g in t.groups ==> 0 < g
    ensures LiveOf(t, live)
  {
    live := Listed(set g | g in t.groups && Served(t, g));
  }

  predicate Completable(t: Topo, sid: int) {
    0 <= sid < |t.slots| && (t.slots[sid].state == Migrating || t.slots[sid].state == Finished)
  }

  lemma SoundSlot(t: Topo, s: nat)
    requires TopoOk(t) && s < |t.slots|
    ensures SlotOk(t, t.slots[s])
  {
  }

  lemma NextIndex(slots: seq<Mapping>)
    ensures FreshIndex(slots, MaxIndex(slots) + 1)
  {
  }

  lemma InRange(t: Topo, w: Write)
    requires Allowed(t, w) && OfSlot(w)
    ensures w.sid < |t.slots|
  {
  }

  class Dash {
    // The store.
    var store: Topo
    // The cache and the queued hooks; nothing cached until the first load.
    var cachedSlots: SlotCache
    var cachedGroups: GroupCache
    var hooks: seq<Hook>
    // Migrations are started only while this is false.
    var disabled: bool
    // Whether the store and the proxies answer. While they do, no load, write or resync fails.
    var up: bool
    // The run so far.
    ghost var states: seq<Topo>
    ghost var writes: seq<Write>

    ghost predicate History()
      reads this`states, this`writes, this`store
    {
      && Run(states, writes) && TopoOk(states[0]) && |store.slots| == MAX_SLOT_NUM
      && states[|states| - 1] == store
    }

    ghost predicate Valid()
      reads this`store, this`cachedSlots, this`cachedGroups, this`hooks, this`states, this`writes
    {
      && History()
      && SlotsClean(store, cachedSlots, hooks) && GroupsClean(store, cachedGroups, hooks)
    }

    /** What an operation works on: the cache, equal to the store. */
    ghost predicate Loaded()
      reads this`store, this`cachedSlots, this`cachedGroups, this`hooks, this`states, this`writes
    {
      Valid() && SlotsLoaded(store, cachedSlots) && GroupsLoaded(store, cachedGroups)
    }

    constructor ()
      ensures Valid() && !disabled && |store.slots| == 1024
      ensures store.groups == map[] && forall s :: 0 <= s < 1024 ==> store.slots[s] == Resting(0)
    {
      store := Topo(seq(MAX_SLOT_NUM, _ => Resting(0)), map[]);
      cachedSlots, cachedGroups, hooks, disabled, up := None, None, [], false, true;
      states := [Topo(seq(MAX_SLOT_NUM, _ => Resting(0)), map[])];
      writes := [];
      new;
    }

    // ---------- Refilling the cache ----------

    method DrainHooks()
      requires Valid()
      modifies this`hooks, this`cachedSlots, this`cachedGroups
      ensures Valid() && hooks == []
    {
      while hooks != []
        invariant Valid()
        decreases |hooks|
      {
        hide *;
        var h, rest := hooks[0], hooks[1..];
        assert hooks == [h] + rest;
        ghost var slots0, groups0 := cachedSlots, cachedGroups;
        CleanOf();
        match h {
          case DirtySlot(s) =>
            if cachedSlots.Some? && s < |cachedSlots.value| {
              cachedSlots := Some(cachedSlots.value[s := None]);
            }
          case DirtyGroup(g) =>
            if cachedGroups.Some? {
              cachedGroups := Some(cachedGroups.value[g := None]);
            }
          case DirtyAll =>
            cachedSlots, cachedGroups := None, None;
        }
        RunHook(store, slots0, groups0, h, rest, cachedSlots, cachedGroups);
        hooks := rest;
        MakeValid();
      }
    }

    /** Loads missing slots; a load may fail, leaving the rest for later. */
    method FillSlots() returns (ok: bool)
      requires Valid() && hooks == []
      modifies this`cachedSlots
      ensures Valid() && (ok ==> SlotsLoaded(store, cachedSlots)) && (up ==> ok)
    {
      hide Valid, History, SlotsClean, GroupsClean, SlotsLoaded;
      CleanOf();
      ok := false;
      if cachedSlots.None? {
        var loaded: seq<Option<Mapping>> := [];
        for s := 0 to |store.slots|
          invariant |loaded| == s && forall k :: 0 <= k < s ==> loaded[k] == Some(store.slots[k])
          invariant cachedSlots == old(cachedSlots)
        {
          var failed: bool := *;
          if failed && !up {
            return;
          }
          loaded := loaded + [Some(store.slots[s])];
        }
        AllLoaded(store, loaded);
        cachedSlots := Some(loaded);
      } else {
        SlotsSized(store, cachedSlots, hooks);
        for s := 0 to |cachedSlots.value|
          invariant cachedSlots.Some? && |cachedSlots.value| == |store.slots| && SlotsClean(store, cachedSlots, [])
          invariant forall k :: 0 <= k < s ==> cachedSlots.value[k].Some?
        {
          if cachedSlots.value[s].None? {
            var failed: bool := *;
            if failed && !up {
              MakeValid();
              return;
            }
            FillOne(store, cachedSlots, s);
            cachedSlots := Some(cachedSlots.value[s := Some(store.slots[s])]);
          }
        }
      }
      MakeValid();
      SlotsReady(store, cachedSlots);
      ok := true;
    }

    /** Loads missing groups; a group that is no longer stored is forgotten. */
    method FillGroups() returns (ok: bool)
      requires Valid() && hooks == []
      modifies this`cachedGroups
      ensures Valid() && (ok ==> GroupsLoaded(store, cachedGroups)) && (up ==> ok)
    {
      hide Valid, History, SlotsClean, GroupsClean, GroupsLoaded;
      CleanOf();
      ok := false;
      if cachedGroups.None? {
        var failed: bool := *;
        if failed && !up {
          return;
        }
        cachedGroups := Some(map g | g in store.groups :: Some(store.groups[g]));
        AllGroupsLoaded(store, cachedGroups.value);
      } else {
        var todo := cachedGroups.value.Keys;
        while todo != {}
          invariant cachedGroups.Some? && GroupsClean(store, cachedGroups, [])
          invariant forall g :: g in cachedGroups.value && cachedGroups.value[g].None? ==> g in todo
          decreases todo
        {
          assert exists g :: g in todo by { SomeKey(todo); }
          var g :| g in todo;
          todo := todo - {g};
          if g in cachedGroups.value && cachedGroups.value[g].None? {
            var failed: bool := *;
            if failed && !up {
              MakeValid();
              return;
            }
            ghost var before := cachedGroups;
            if g in store.groups {
              cachedGroups := Some(cachedGroups.value[g := Some(store.groups[g])]);
            } else {
              cachedGroups := Some(cachedGroups.value - {g});
            }
            FillGroup(store, before, g, cachedGroups.value);
          }
        }
      }
      MakeValid();
      GroupsReady(store, cachedGroups);
      ok := true;
    }

    /** Starts an operation: drops dirty keys and reloads them, so the cache equals the store. */
    method NewContext() returns (ok: bool)
      requires Valid()
      modifies this`hooks, this`cachedSlots, this`cachedGroups
      ensures Valid() && hooks == [] && (ok ==> Loaded()) && (up ==> ok)
    {
      hide History, SlotsClean, GroupsClean, SlotsLoaded, GroupsLoaded;
      DrainHooks();
      ok := FillSlots();
      if ok {
        ok := FillGroups();
      }
    }

    /** An operator asks for everything to be loaded again. */
    method Reload() returns (ok: bool)
      requires Valid()
      modifies this`hooks, this`cachedSlots, this`cachedGroups
      ensures Valid() && store == old(store) && (ok ==> hooks == [DirtyAll]) && (up ==> ok)
    {
      hide History, SlotsClean, GroupsClean, SlotsLoaded, GroupsLoaded;
      ok := NewContext();
      if ok {
        MoreHooks(store, cachedSlots, cachedGroups, hooks, DirtyAll);
        hooks := hooks + [DirtyAll];
        MakeValid();
      }
    }

    // ---------- Writing ----------

    twostate predicate Unchanged()
      reads this
    {
      store == old(store) && states == old(states) && writes == old(writes)
    }

    /** The write took effect; it is in the history. */
    twostate predicate Applied(w: Write)
      reads this
    {
      && Allowed(old(store), w) && store == Apply(old(store), w)
      && states == old(states) + [store] && writes == old(writes) + [w]
    }

    /** Changes a cached slot in place, queues its hook, and writes it to the store. */
    method WriteSlot(w: Write) returns (ok: bool)
      requires Loaded() && OfSlot(w) && Allowed(store, w)
      modifies this`store, this`cachedSlots, this`hooks, this`states, this`writes
      ensures Valid() && (Applied(w) || Unchanged()) && (up ==> ok)
      ensures ok ==> Loaded() && Applied(w)
    {
      hide Valid, SlotsClean, GroupsClean, Allowed, Run, TopoOk, Context, Written;
      LoadedParts();
      assert w.sid < |store.slots| by { InRange(store, w); }
      var m := Written(Context().slots, w);
      var applied: bool, told: bool := *, *;
      applied := applied || up;
      ok := applied && (told || up);
      ghost var after := store.(slots := store.slots[w.sid := m]);
      WroteSlot(store, cachedSlots, cachedGroups, hooks, w.sid, m, store);
      WroteSlot(store, cachedSlots, cachedGroups, hooks, w.sid, m, after);
      cachedSlots := Some(cachedSlots.value[w.sid := Some(m)]);
      hooks := hooks + [DirtySlot(w.sid)];
      if applied {
        RecordWrite(w);
        store := store.(slots := store.slots[w.sid := m]);
      }
      MakeValid();
    }

    ghost method RecordWrite(w: Write)
      requires History() && Allowed(store, w)
      modifies this`states, this`writes
      ensures states == old(states) + [Apply(store, w)] && writes == old(writes) + [w]
      ensures Run(states, writes) && TopoOk(states[0]) && states[|states| - 1] == Apply(store, w)
    {
      hide Allowed, Apply, TopoOk;
      RunMore(states, writes, w);
      states, writes := states + [Apply(store, w)], writes + [w];
    }

    /** Changes a cached group in place, queues its hook, and writes it to the store. */
    method WriteGroup(w: Write) returns (ok: bool)
      requires Loaded() && !OfSlot(w) && !w.AddGroup? && !w.DropGroup? && Allowed(store, w)
      modifies this`store, this`cachedGroups, this`hooks, this`states, this`writes
      ensures Valid() && (Applied(w) || Unchanged()) && (up ==> ok)
      ensures ok ==> Loaded() && Applied(w)
    {
      hide Valid, SlotsClean, GroupsClean, Run, TopoOk, Context, WrittenGroup, InUse;
      LoadedParts();
      var g := WrittenGroup(Context().groups[w.gid], w);
      var applied: bool, told: bool := *, *;
      applied := applied || up;
      ok := applied && (told || up);
      ghost var after := store.(groups := store.groups[w.gid := g]);
      var next := Some(cachedGroups.value[w.gid := Some(g)]);
      WroteGroup(store, cachedSlots, cachedGroups, hooks, w.gid, next, store);
      WroteGroup(store, cachedSlots, cachedGroups, hooks, w.gid, next, after);
      cachedGroups := next;
      hooks := hooks + [DirtyGroup(w.gid)];
      if applied {
        RecordWrite(w);
        store := store.(groups := store.groups[w.gid := g]);
      }
      MakeValid();
    }

    /** Creates or removes a stored group; the cache follows through its hook. */
    method WriteGroupKey(w: Write) returns (ok: bool)
      requires Loaded() && (w.AddGroup? || w.DropGroup?) && Allowed(store, w)
      modifies this`store, this`hooks, this`states, this`writes
      ensures Valid() && (Applied(w) || Unchanged()) && (up ==> ok)
      ensures ok ==> Applied(w)
    {
      hide Valid, SlotsClean, GroupsClean, Run, TopoOk, Context, InUse;
      LoadedParts();
      var after := store.(groups := if w.AddGroup? then store.groups[w.gid := Group([], false, false)]
                                    else store.groups - {w.gid});
      var applied: bool, told: bool := *, *;
      applied := applied || up;
      ok := applied && (told || up);
      WroteGroup(store, cachedSlots, cachedGroups, hooks, w.gid, cachedGroups, store);
      WroteGroup(store, cachedSlots, cachedGroups, hooks, w.gid, cachedGroups, after);
      hooks := hooks + [DirtyGroup(w.gid)];
      if applied {
        RecordWrite(w);
        store := after;
      }
      MakeValid();
    }

    // ---------- Group operations ----------

    /** How a single-write operation may end, given when it is permitted: it fails only if the store does not answer. */
    twostate predicate Ends(w: Write, permitted: bool, r: Result)
      reads this
    {
      match r
      case NoContext => !old(up) && Unchanged()
      case Refused => Unchanged() && !permitted
      case Failed => !old(up) && permitted && (Applied(w) || Unchanged())
      case Done => permitted && Applied(w)
    }

    /** What an operation leaves in the store: `t` if it succeeded, `t` or the old one if its write failed. */
    twostate predicate Leaves(t: Topo, r: Result)
      reads this
    {
      match r
      case Done => store == t
      case Failed => store == t || store == old(store)
      case _ => store == old(store)
    }

    method CreateGroup(gid: int) returns (r: Result)
      requires Valid()
      modifies this
      ensures Valid() && disabled == old(disabled)
      ensures Ends(AddGroup(gid), Allowed(old(store), AddGroup(gid)), r)
      ensures Leaves(old(store).(groups := old(store).groups[gid := Group([], false, false)]), r)
      ensures r == Done || r == Failed ==> 0 < gid <= 9999 && gid !in old(store).groups
      ensures r == Refused ==> !(0 < gid <= 9999) || gid in old(store).groups
    {
      hide Valid, Loaded, Run, TopoOk, SlotsClean, GroupsClean;
      var ok := NewContext();
      if !ok {
        return NoContext;
      }
      LoadedParts();
      if gid <= 0 || gid > MAX_GROUP_ID || gid in Context().groups {
        assert Valid() by { ValidOf(); }
        return Refused;
      }
      ok := WriteGroupKey(AddGroup(gid));
      r := if ok then Done else Failed;
    }

    method RemoveGroup(gid: int) returns (r: Result)
      requires Valid()
      modifies this
      ensures Valid() && disabled == old(disabled)
      ensures Ends(DropGroup(gid), Allowed(old(store), DropGroup(gid)), r)
      ensures Leaves(old(store).(groups := map g | g in old(store).groups && g != gid :: old(store).groups[g]), r)
    {
      hide Valid, Loaded, Run, TopoOk, SlotsClean, GroupsClean, InUse;
      var ok := NewContext();
      if !ok {
        return NoContext;
      }
      LoadedParts();
      if gid !in Context().groups || InUse(Context(), gid) {
        assert Valid() by { ValidOf(); }
        return Refused;
      }
      ok := WriteGroupKey(DropGroup(gid));
      r := if ok then Done else Failed;
    }

    method GroupAddServer(gid: int, server: Server) returns (r: Result)
      requires Valid()
      modifies this
      ensures Valid() && disabled == old(disabled)
      ensures Ends(AddServer(gid, server),
                   Allowed(old(store), AddServer(gid, server)) && !old(store).groups[gid].promoting, r)
      ensures if gid in old(store).groups
              then var g := old(store).groups[gid];
                   Leaves(old(store).(groups := old(store).groups[gid := g.(servers := g.servers + [server])]), r)
              else r != Done && r != Failed
      ensures r == Done || r == Failed ==> forall g, i :: !HasAddr(old(store), g, i, server.addr)
      ensures r == Refused ==>
                || server.addr == "" || gid !in old(store).groups || old(store).groups[gid].promoting
                || exists g, i :: HasAddr(old(store), g, i, server.addr)
    {
      hide Valid, Loaded, Run, TopoOk, SlotsClean, GroupsClean, AddrKnown;
      var ok := NewContext();
      if !ok {
        return NoContext;
      }
      LoadedParts();
      KnownAddr(store, server.addr);
      if server.addr == "" || AddrKnown(Context(), server.addr) || gid !in Context().groups
         || Context().groups[gid].promoting {
        assert Valid() by { ValidOf(); }
        return Refused;
      }
      ok := WriteGroup(AddServer(gid, server));
      r := if ok then Done else Failed;
    }

    method GroupDelServer(gid: int, addr: string) returns (r: Result, ghost at: nat)
      requires Valid()
      modifies this
      ensures Valid() && disabled == old(disabled)
      ensures r != NoContext && gid in old(store).groups ==> FirstAddr(old(store).groups[gid].servers, addr, at)
      ensures Ends(DelServer(gid, at), Allowed(old(store), DelServer(gid, at)) && !old(store).groups[gid].promoting, r)
      ensures r == Done || r == Failed ==>
                && gid in old(store).groups && at < |old(store).groups[gid].servers|
                && var g := old(store).groups[gid];
                   var rest := g.servers[..at] + g.servers[at + 1..];
                   var mark := |g.servers| > 1 && (g.outOfSync || (at > 0 && g.servers[at].replica));
                   Leaves(old(store).(groups := old(store).groups[gid := Group(rest, mark, g.promoting)]), r)
    {
      hide Valid, Loaded, Run, TopoOk, SlotsClean, GroupsClean, InUse;
      at := 0;
      var ok := NewContext();
      if !ok {
        return NoContext, at;
      }
      LoadedParts();
      assert Valid() by { ValidOf(); }
      if gid !in Context().groups {
        return Refused, at;
      }
      var servers := Context().groups[gid].servers;
      var index := FindServer(servers, addr);
      at := index;
      if index == |servers| || Context().groups[gid].promoting
         || (index == 0 && (|servers| != 1 || InUse(Context(), gid))) {
        return Refused, at;
      }
      ok := WriteGroup(DelServer(gid, index));
      r := if ok then Done else Failed;
    }

    /** Makes the server meant by an address the master; nothing to do when it is. */
    method SwitchMaster(gid: int, master: string, pids: map<string, string>) returns (r: Result, ghost at: nat)
      requires Valid()
      modifies this
      ensures Valid() && disabled == old(disabled)
      ensures r != NoContext && gid in old(store).groups ==> MeantBy(old(store).groups[gid].servers, master, pids, at)
      ensures if gid in old(store).groups && at == 0 && old(store).groups[gid].servers != []
              then Unchanged() && (r == Done || (r == NoContext && !old(up)))
              else Ends(Switch(gid, at), gid in old(store).groups && at < |old(store).groups[gid].servers|, r)
      ensures r == Failed || (r == Done && at > 0) ==>
                && gid in old(store).groups && 0 < at < |old(store).groups[gid].servers|
                && var g := old(store).groups[gid];
                   exists s {:trigger Exchanged(g.servers, at, s)} ::
                     && Exchanged(g.servers, at, s)
                     && Leaves(old(store).(groups := old(store).groups[gid := Group(s, true, g.promoting)]), r)
    {
      hide Valid, Loaded, Run, TopoOk, SlotsClean, GroupsClean, MeantBy;
      at := 0;
      var ok := NewContext();
      if !ok {
        return NoContext, at;
      }
      LoadedParts();
      assert Valid() by { ValidOf(); }
      if gid !in Context().groups {
        return Refused, at;
      }
      var index := FindMaster(Context().groups[gid].servers, master, pids);
      at := index;
      if index >= |Context().groups[gid].servers| {
        return Refused, at;
      }
      if index == 0 {
        return Done, at;
      }
      ghost var was := store.groups[gid].servers;
      assert Exchanged(was, at, was[0 := was[at]][at := was[0]]);
      ok := WriteGroup(Switch(gid, index));
      r := if ok then Done else Failed;
    }

    /** Gives the first server with an address another role; an address nobody has only rewrites the group. */
    method ChangeServerRole(gid: int, role: string, addr: string) returns (r: Result, ghost at: nat)
      requires Valid()
      modifies this
      ensures Valid() && disabled == old(disabled)
      ensures r != NoContext && r != Refused ==>
                gid in old(store).groups && FirstAddr(old(store).groups[gid].servers, addr, at)
      ensures if addr != "" && gid in old(store).groups && !old(store).groups[gid].promoting
              then var g := old(store).groups[gid];
                   var s := if at < |g.servers| then g.servers[at := g.servers[at].(role := role)] else g.servers;
                   Ends(Touch(gid, g.(servers := s)), true, r)
              else Unchanged() && (r == Refused || (r == NoContext && !old(up)))
    {
      hide Valid, Loaded, Run, TopoOk, SlotsClean, GroupsClean, FirstAddr;
      at := 0;
      var ok := NewContext();
      if !ok {
        return NoContext, at;
      }
      LoadedParts();
      assert Valid() by { ValidOf(); }
      if addr == "" || gid !in Context().groups || Context().groups[gid].promoting {
        return Refused, at;
      }
      var g := Context().groups[gid];
      var index := FindServer(g.servers, addr);
      at := index;
      ok := WriteGroup(Touch(gid, g.(servers := WithRole(g.servers, index, role))));
      r := if ok then Done else Failed;
    }

    /** The proxies have been told of a group: its mark is cleared, whether or not they all answered. */
    method ResyncGroup(gid: int) returns (r: Result)
      requires Valid()
      modifies this
      ensures Valid() && disabled == old(disabled)
      ensures if gid in old(store).groups then Ends(Touch(gid, old(store).groups[gid].(outOfSync := false)), true, r)
              else Unchanged() && (r == Refused || (r == NoContext && !old(up)))
    {
      hide Valid, Loaded, Run, TopoOk, SlotsClean, GroupsClean;
      var ok := NewContext();
      if !ok {
        return NoContext;
      }
      LoadedParts();
      assert Valid() by { ValidOf(); }
      if gid !in Context().groups {
        return Refused;
      }
      ok := WriteGroup(Touch(gid, Context().groups[gid].(outOfSync := false)));
      r := if ok then Done else Failed;
    }

    /** The same for all groups, in any order, up to the first write that fails. */
    method ResyncGroupAll() returns (r: Result)
      requires Valid()
      modifies this
      ensures Valid() && disabled == old(disabled) && r != Refused && (r == NoContext ==> Unchanged())
      ensures old(up) ==> r == Done
      ensures store == old(store).(groups := store.groups) && OnlyCleared(old(store), store)
      ensures r == Done ==> forall g :: g in store.groups ==> !store.groups[g].outOfSync
    {
      hide Valid, Loaded, Run, SlotsClean, GroupsClean, Context, Allowed, Apply, TopoOk;
      var ok := NewContext();
      if !ok {
        return NoContext;
      }
      LoadedParts();
      var todo := Context().groups.Keys;
      while todo != {}
        invariant Loaded() && disabled == old(disabled) && up == old(up) && todo <= store.groups.Keys
        invariant store == old(store).(groups := store.groups) && OnlyCleared(old(store), store)
        invariant forall g :: g in store.groups && g !in todo ==> !store.groups[g].outOfSync
        decreases todo
      {
        assert exists g :: g in todo by { SomeKey(todo); }
        var g :| g in todo;
        todo := todo - {g};
        LoadedParts();
        var clear := Context().groups[g].(outOfSync := false);
        TouchAllowed(store, g, clear);
        ok := WriteGroup(Touch(g, clear));
        if !ok {
          return Failed;
        }
      }
      assert Valid() by { ValidOf(); }
      r := Done;
    }

    /**
     Turns reads from one replica on or off. The group in the cache is changed before the role is
     checked, so a refusal leaves the cache different from the store; the queued hook repairs it.
     */
    method EnableReplica(gid: int, addr: string, value: bool) returns (r: Result, ghost at: nat)
      requires Valid()
      modifies this
      ensures Valid() && disabled == old(disabled)
      ensures r != NoContext && gid in old(store).groups ==> FirstAddr(old(store).groups[gid].servers, addr, at)
      ensures if CanEnable(old(store), gid, at)
              then var g := old(store).groups[gid];
                   Ends(Touch(gid, Group(g.servers[at := g.servers[at].(replica := value)],
                                         g.outOfSync || (|g.servers| != 1 && InUse(old(store), gid)), false)), true, r)
              else Unchanged() && (r == Refused || (r == NoContext && !old(up)))
    {
      hide Valid, Loaded, Run, TopoOk, SlotsClean, GroupsClean, InUse, FirstAddr;
      at := 0;
      var ok := NewContext();
      if !ok {
        return NoContext, at;
      }
      LoadedParts();
      assert Valid() by { ValidOf(); }
      if gid !in Context().groups {
        return Refused, at;
      }
      var g := Context().groups[gid];
      var index := FindServer(g.servers, addr);
      at := index;
      if index >= |g.servers| || g.promoting {
        return Refused, at;
      }
      if |g.servers| != 1 && InUse(Context(), gid) {
        g := g.(outOfSync := true);
      }
      var role := g.servers[index].role;
      if role == "witness_node" || role == "observer_node" {
        LeaveDirty(gid, g);
        return Refused, at;
      }
      g := g.(servers := g.servers[index := g.servers[index].(replica := value)]);
      ok := WriteGroup(Touch(gid, g));
      r := if ok then Done else Failed;
    }

    /** A cached group was changed but not written: its hook is queued all the same. */
    method LeaveDirty(gid: int, g: Group)
      requires Loaded() && gid in store.groups
      modifies this`cachedGroups, this`hooks
      ensures Valid()
    {
      hide Valid, SlotsClean, GroupsClean, Run, TopoOk, Context;
      LoadedParts();
      var next := Some(cachedGroups.value[gid := Some(g)]);
      WroteGroup(store, cachedSlots, cachedGroups, hooks, gid, next, store);
      cachedGroups := next;
      hooks := hooks + [DirtyGroup(gid)];
      MakeValid();
    }

    lemma ValidOf()
      requires Loaded()
      ensures Valid()
    {
    }

    // ---------- Slot operations ----------

    method SlotCreateAction(sid: int, gid: int) returns (r: Result)
      requires Valid()
      modifies this
      ensures Valid() && disabled == old(disabled)
      ensures sid >= 0 ==> Ends(Create(sid, gid, false), Allowed(old(store), Create(sid, gid, false)), r)
      ensures r == Done || r == Failed ==>
                && 0 <= sid < |old(store).slots|
                && exists index {:trigger FreshIndex(old(store).slots, index)} ::
                     && FreshIndex(old(store).slots, index)
                     && var m := Mapping(old(store).slots[sid].group, Pending, index, gid, false);
                        Leaves(old(store).(slots := old(store).slots[sid := m]), r)
      ensures sid < 0 ==> Unchanged() && (r == Refused || (r == NoContext && !old(up)))
    {
      hide Valid, Loaded, Run, SlotsClean, GroupsClean, Context, TopoOk, FreshIndex, MaxIndex;
      var ok := NewContext();
      if !ok {
        return NoContext;
      }
      LoadedParts();
      LoadedOk();
      assert Valid() by { ValidOf(); }
      if !Served(Context(), gid) || sid < 0 || sid >= MAX_SLOT_NUM
         || Context().slots[sid].state != Nothing || Context().slots[sid].group == gid {
        return Refused;
      }
      SoundSlot(store, sid);
      GroupIdsPositive(store);
      NextIndex(store.slots);
      ok := WriteSlot(Create(sid, gid, Context().slots[sid].noData));
      r := if ok then Done else Failed;
    }

    /** Creates the given actions one write at a time; a failed write ends it early. */
    method CreateAll(moves: seq<Move>, noData: bool) returns (ok: bool, ghost done: nat)
      requires Loaded() && Creatable(store, moves)
      modifies this`store, this`cachedSlots, this`hooks, this`states, this`writes
      ensures Valid() && done <= |moves| && (ok ==> Loaded() && done == |moves|) && (up ==> ok)
      ensures store == old(store).(slots := Created(old(store).slots, moves[..done], noData))
    {
      hide Valid, Loaded, Run, SlotsClean, GroupsClean, Context, Allowed, Apply;
      done := 0;
      for i := 0 to |moves|
        invariant Loaded() && Creatable(store, moves[i..])
        invariant store == old(store).(slots := Created(old(store).slots, moves[..i], noData))
      {
        ghost var before := store;
        CreatableFirst(store, moves[i..], noData);
        assert moves[i..][0] == moves[i] && moves[i..][1..] == moves[i + 1..];
        CreatedNext(old(store).slots, moves, i, noData);
        var w := Create(moves[i].sid, moves[i].gid, noData);
        ok := WriteSlot(w);
        done := if store == before then i else i + 1;
        if !ok {
          return;
        }
      }
      assert moves[..|moves|] == moves;
      assert Valid() by { ValidOf(); }
      ok, done := true, |moves|;
    }

    lemma LoadedOk()
      requires Loaded()
      ensures TopoOk(store)
    {
      hide TopoOk;
      RunSafe(states, writes, |states| - 1);
    }

    /** Creates actions for the first `num` resting slots of one group. */
    method SlotCreateActionSome(source: int, gid: int, num: int) returns (r: Result, ghost done: seq<Move>)
      requires Valid()
      modifies this
      ensures old(up) ==> r == Done || r == Refused
      ensures Valid() && disabled == old(disabled)
      ensures r == NoContext || r == Refused ==> Unchanged()
      ensures r == Refused ==> !Served(old(store), gid)
      ensures r == Failed || r == Done ==>
                && Served(old(store), gid)
                && store == old(store).(slots := Created(old(store).slots, done, false))
                && done <= Moves(FirstOf(old(store).slots, source, gid, num), gid)
                && (r == Done ==> done == Moves(FirstOf(old(store).slots, source, gid, num), gid))
    {
      hide Valid, Loaded, Run, SlotsClean, GroupsClean, Context, Created, Creatable;
      done := [];
      var ok := NewContext();
      if !ok {
        return NoContext, done;
      }
      LoadedParts();
      LoadedOk();
      if !Served(Context(), gid) {
        assert Valid() by { ValidOf(); }
        return Refused, done;
      }
      var pending := PickSome(Context().slots, source, gid, num);
      var moves := Moves(pending, gid);
      MovesCreatable(store, pending, gid);
      ghost var k;
      ok, k := CreateAll(moves, false);
      done := moves[..k];
      r := if ok then Done else Failed;
    }

    /** Creates actions for a range of slots; with `must`, only if every one of them can move. */
    method SlotCreateActionRange(beg: int, end: int, gid: int, must: bool, noData: bool)
      returns (r: Result, ghost done: seq<Move>)
      requires Valid()
      modifies this
      ensures old(up) ==> r == Done || r == Refused
      ensures Valid() && disabled == old(disabled)
      ensures r == NoContext || r == Refused ==> Unchanged()
      ensures r == Refused ==>
                !(0 <= beg <= end < MAX_SLOT_NUM) || !Served(old(store), gid)
                || (must && |Movable(old(store).slots, beg, end + 1, gid)| != end + 1 - beg)
      ensures r == Failed || r == Done ==>
                && 0 <= beg <= end < MAX_SLOT_NUM && Served(old(store), gid)
                && store == old(store).(slots := Created(old(store).slots, done, noData))
                && done <= Moves(Movable(old(store).slots, beg, end + 1, gid), gid)
                && (must ==> |Movable(old(store).slots, beg, end + 1, gid)| == end + 1 - beg)
                && (r == Done ==> done == Moves(Movable(old(store).slots, beg, end + 1, gid), gid))
    {
      hide Valid, Loaded, Run, SlotsClean, GroupsClean, Context, Created, Creatable;
      done := [];
      var ok := NewContext();
      if !ok {
        return NoContext, done;
      }
      LoadedParts();
      LoadedOk();
      assert Valid() by { ValidOf(); }
      if !(0 <= beg <= end < MAX_SLOT_NUM) || !Served(Context(), gid) {
        return Refused, done;
      }
      var pending;
      ok, pending := PickRange(Context().slots, beg, end + 1, gid, must);
      if !ok {
        return Refused, done;
      }
      var moves := Moves(pending, gid);
      MovableMoves(store.slots, beg, end + 1, gid);
      MovesCreatable(store, pending, gid);
      ghost var k;
      ok, k := CreateAll(moves, noData);
      done := moves[..k];
      r := if ok then Done else Failed;
    }

    /** Creates actions for all slots of a range towards one group, or refuses. */
    method InitShare(gid: int, beg: nat, end: nat) returns (r: Result, ghost moves: seq<Move>, ghost k: nat)
      requires Loaded() && beg <= end <= |store.slots|
      modifies this`store, this`cachedSlots, this`hooks, this`states, this`writes
      ensures Valid() && r != NoContext && (r == Refused ==> Unchanged()) && (r == Done ==> Loaded())
      ensures up ==> r != Failed
      ensures r != Refused ==>
                && Served(old(store), gid) && |moves| == end - beg
                && (forall i :: 0 <= i < |moves| ==> moves[i] == Move(beg + i, gid))
                && k <= |moves| && (r == Done ==> k == |moves|)
                && store == old(store).(slots := Created(old(store).slots, moves[..k], true))
                && |Movable(old(store).slots, beg, end, gid)| == end - beg
      ensures r == Refused ==> !Served(store, gid) || |Movable(store.slots, beg, end, gid)| != end - beg
    {
      hide Valid, Loaded, Run, SlotsClean, GroupsClean, Context, Created, Creatable;
      moves, k := [], 0;
      LoadedParts();
      LoadedOk();
      assert Valid() by { ValidOf(); }
      if !Served(Context(), gid) {
        return Refused, moves, k;
      }
      var ok, pending := PickRange(Context().slots, beg, end, gid, true);
      if !ok {
        return Refused, moves, k;
      }
      MovableAll(store.slots, beg, end, gid);
      var list := Moves(pending, gid);
      moves := list;
      MovableMoves(store.slots, beg, end, gid);
      MovesCreatable(store, pending, gid);
      ok, k := CreateAll(list, true);
      r := if ok then Done else Failed;
    }

    /**
     The first distribution: every slot, none of which has a group yet, gets an action, without data,
     towards one of the groups, in even shares. A group without servers, or a slot with an action, is
     noticed only when its turn comes, and what was created before stays. Without groups the code
     divides by zero.
     */
    method SlotCreateActionInit() returns (r: Result, panicked: bool, ghost done: seq<Move>, ghost gids: seq<int>)
      requires Valid()
      modifies this
      ensures old(up) ==> r == Done || r == Refused
      ensures Valid() && disabled == old(disabled) && (r == NoContext || panicked ==> Unchanged())
      ensures r == NoContext ==> !panicked
      ensures r != NoContext ==>
                (panicked <==> && old(store).groups == map[]
                               && forall s :: 0 <= s < |old(store).slots| ==> old(store).slots[s].group == 0)
      ensures (r == Done ==> CanInit(old(store))) && (r == Refused ==> !CanInit(old(store)))
      ensures store == old(store).(slots := Created(old(store).slots, done, true))
      ensures forall i {:trigger done[i]} :: 0 <= i < |done| ==> done[i].sid == i
      ensures r == Done ==>
                |old(store).groups| > 0 && Dealt(old(store), done, gids, |old(store).groups|, {}) && |done| == MAX_SLOT_NUM
    {
      hide Valid, Loaded, Run, SlotsClean, GroupsClean, Context, Dealt, TopoOk;
      done, gids, panicked := [], [], false;
      var ok := NewContext();
      if !ok {
        return NoContext, false, done, gids;
      }
      LoadedParts();
      var n := |Context().groups|;
      if n >= MAX_SLOT_NUM || exists s :: 0 <= s < |Context().slots| && Context().slots[s].group != 0 {
        assert Valid() by { ValidOf(); }
        return Refused, false, done, gids;
      }
      if n == 0 {
        assert Valid() by { ValidOf(); }
        return Refused, true, done, gids;
      }
      r, done, gids := InitAll(n);
    }

    method InitAll(n: nat) returns (r: Result, ghost done: seq<Move>, ghost gids: seq<int>)
      requires Loaded() && 0 < n == |store.groups| < MAX_SLOT_NUM && |store.slots| == MAX_SLOT_NUM
      requires forall s {:trigger store.slots[s]} :: 0 <= s < |store.slots| ==> store.slots[s].group == 0
      modifies this`store, this`cachedSlots, this`hooks, this`states, this`writes
      ensures Valid() && r != NoContext && (up ==> r != Failed)
      ensures (r == Done ==> CanInit(old(store))) && (r == Refused ==> !CanInit(old(store)))
      ensures store == old(store).(slots := Created(old(store).slots, done, true))
      ensures forall i {:trigger done[i]} :: 0 <= i < |done| ==> done[i].sid == i
      ensures r == Done ==> Dealt(old(store), done, gids, n, {}) && |done| == MAX_SLOT_NUM
    {
      hide Valid, Loaded, Run, SlotsClean, GroupsClean, Context, Dealt, Cut, Quotient, Remainder, TopoOk, Created, Served;
      done, gids := [], [];
      LoadedParts();
      var todo, beg: nat, quo, rem := Context().groups.Keys, 0, Quotient(n), Remainder(n);
      NothingDealt(store, n, todo);
      NothingCreated(store.slots);
      LoadedOk();
      while todo != {}
        invariant Loaded() && Dealt(old(store), done, gids, n, todo) && beg == |done| == Cut(n, |gids|)
        invariant |gids| + |todo| == n && rem == if |gids| < Remainder(n) then Remainder(n) - |gids| else 0
        invariant store == old(store).(slots := Created(old(store).slots, done, true))
        invariant todo <= old(store).groups.Keys
        invariant forall g :: g in old(store).groups && g !in todo ==> Served(old(store), g)
        invariant beg <= MAX_SLOT_NUM && forall s :: 0 <= s < beg ==> old(store).slots[s].state == Nothing
        decreases todo
      {
        assert exists g :: g in todo by { SomeKey(todo); }
        var gid :| gid in todo;
        var end := beg + quo;
        if rem > 0 {
          end := end + 1;
          rem := rem - 1;
        }
        CutNext(n, |gids|);
        ghost var slots0, before := old(store).slots, store;
        ghost var moves, k;
        r, moves, k := InitShare(gid, beg, end);
        DealtSids(old(store), done, gids, n, todo);
        ShareTells(old(store), before, done, beg, end, gid);
        if r == Refused {
          return r, done, gids;
        }
        CreatedConcat(slots0, done, moves[..k], true);
        if r == Failed {
          done := done + moves[..k];
          return;
        }
        assert moves[..k] == moves;
        SameServed(before, old(store), gid);
        DealtMore(old(store), done, gids, n, todo, gid, moves, todo - {gid});
        todo := todo - {gid};
        done, gids := done + moves, gids + [gid];
        beg := end;
      }
      CutNext(n, n - 1);
      DealtSids(old(store), done, gids, n, todo);
      assert Valid() by { ValidOf(); }
      r := Done;
    }

    /**
     Plans a rebalancing and, if confirmed, creates its actions, lowest slot first. In every reachable
     topology all slots are on live groups or free, so the plan levels the groups whenever the
     migrations under way leave room for that.
     */
    method SlotsRebalance(confirm: bool)
      returns (r: Result, plan: map<nat, int>, ghost live: seq<int>, ghost moves: seq<Move>, ghost done: nat)
      requires Valid()
      modifies this
      ensures old(up) ==> r == Done || r == Refused
      ensures Valid() && disabled == old(disabled)
      ensures r == NoContext || r == Refused || !confirm ==> Unchanged()
      ensures r == Refused ==> forall g :: !Served(old(store), g)
      ensures r == Failed || r == Done ==>
                && LiveOf(old(store), live) && live != []
                && Books.AllLive(Abstract(old(store).slots), live)
                && Levels(Abstract(old(store).slots), live, plan)
                && Balances(old(store).slots, live, plan)
                && (Balanced(old(store).slots, live) ==> plan == map[])
      ensures confirm && (r == Failed || r == Done) ==>
                && MovesOf(plan, moves) && Creatable(old(store), moves) && done <= |moves|
                && store == old(store).(slots := Created(old(store).slots, moves[..done], false))
      ensures confirm && r == Done ==> done == |moves|
    {
      hide Valid, Loaded, Run, SlotsClean, GroupsClean, Context, Created, Creatable, LiveOf, Levels, MovesOf, TopoOk;
      hide Balances, Balanced, Abstract, Books.AllLive, Balancer.AlreadyLevel, Balancer.PlanOk;
      plan, live, moves, done := map[], [], [], 0;
      var ok := NewContext();
      if !ok {
        return NoContext, plan, live, moves, done;
      }
      LoadedParts();
      LoadedOk();
      assert Valid() by { ValidOf(); }
      GroupIdsPositive(store);
      var groups := LiveGroups(Context());
      live := groups;
      LiveFacts(store, live);
      var outcome := Balancer.Rebalance(Abstract(Context().slots), groups);
      if outcome.NoGroup? {
        return Refused, plan, live, moves, done;
      }
      plan := outcome.plan;
      assert Levels(Abstract(store.slots), live, plan) by { LevelsOf(Abstract(store.slots), live, plan); }
      PlanBalances(store.slots, live, plan);
      if Balanced(store.slots, live) {
        BalancedLevel(store.slots, live);
      }
      if !confirm {
        return Done, plan, live, moves, done;
      }
      var list := PlanMoves(plan);
      moves := list;
      PlanCreatable(store, live, plan, moves);
      ok, done := CreateAll(list, false);
      r := if ok then Done else Failed;
    }

    method SlotRemoveAction(sid: int) returns (r: Result)
      requires Valid()
      modifies this
      ensures Valid() && disabled == old(disabled)
      ensures sid >= 0 ==> Ends(Remove(sid), Allowed(old(store), Remove(sid)), r)
      ensures r == Done || r == Failed ==>
                && 0 <= sid < |old(store).slots|
                && var m := Mapping(old(store).slots[sid].group, Nothing, 0, 0, false);
                   Leaves(old(store).(slots := old(store).slots[sid := m]), r)
      ensures sid < 0 ==> Unchanged() && (r == Refused || (r == NoContext && !old(up)))
    {
      hide Valid, Loaded, Run, SlotsClean, GroupsClean, Context, TopoOk;
      var ok := NewContext();
      if !ok {
        return NoContext;
      }
      LoadedParts();
      assert Valid() by { ValidOf(); }
      if sid < 0 || sid >= MAX_SLOT_NUM || Context().slots[sid].state != Pending {
        return Refused;
      }
      ok := WriteSlot(Remove(sid));
      r := if ok then Done else Failed;
    }

    /** Ends a migration: the slot is marked finished, proxies are resynced, then the target owns it. */
    method SlotActionComplete(sid: int) returns (r: Result)
      requires Valid()
      modifies this
      ensures old(up) ==> r == Done || r == Refused
      ensures Valid() && disabled == old(disabled)
      ensures r == NoContext || r == Refused ==> Unchanged()
      ensures r == Refused ==> !Completable(old(store), sid)
      ensures r == Failed || r == Done ==>
                && Completable(old(store), sid)
                && var m := old(store).slots[sid];
                   && (store == old(store)
                       || store == old(store).(slots := old(store).slots[sid := m.(state := Finished)])
                       || store == old(store).(slots := old(store).slots[sid := Resting(m.target)]))
                   && (r == Done ==> store.slots[sid] == Resting(m.target))
    {
      hide Valid, Loaded, Run, SlotsClean, GroupsClean, Context, TopoOk;
      var ok := NewContext();
      if !ok {
        return NoContext;
      }
      LoadedParts();
      assert Valid() by { ValidOf(); }
      if !(0 <= sid < MAX_SLOT_NUM) || (Context().slots[sid].state != Migrating && Context().slots[sid].state != Finished) {
        return Refused;
      }
      if Context().slots[sid].state == Migrating {
        ok := WriteSlot(Finish(sid));
        if !ok {
          return Failed;
        }
      }
      var synced: bool := *;
      if !synced && !up {
        assert Valid() by { ValidOf(); }
        return Failed;
      }
      ok := WriteSlot(Settle(sid));
      r := if ok then Done else Failed;
    }

    /** Marks the listed groups out of sync, up to the first write that fails. */
    method MarkGroups(moves: seq<Move>) returns (ok: bool)
      requires Loaded() && Assignable(store, moves)
      modifies this`store, this`cachedGroups, this`hooks, this`states, this`writes
      ensures Valid() && store.slots == old(store).slots && OnlyMarked(old(store), store, moves) && (up ==> ok)
      ensures ok ==> Loaded() && Assignable(store, moves)
      ensures ok ==> forall i :: 0 <= i < |moves| ==> store.groups[moves[i].gid].outOfSync
    {
      hide Valid, Loaded, Run, SlotsClean, GroupsClean, Context, Allowed, Apply, OnlyMarked;
      OnlyMarkedRefl(store, moves);
      for i := 0 to |moves|
        invariant Loaded() && store.slots == old(store).slots && OnlyMarked(old(store), store, moves)
        invariant Assignable(store, moves)
        invariant forall k :: 0 <= k < i ==> store.groups[moves[k].gid].outOfSync
      {
        LoadedParts();
        var gid := moves[i].gid;
        var g := Context().groups[gid];
        if !g.outOfSync {
          ghost var before := store;
          TouchAllowed(store, gid, g.(outOfSync := true));
          ok := WriteGroup(Touch(gid, g.(outOfSync := true)));
          OnlyMarkedTouch(old(store), before, moves, i);
          if !ok {
            return;
          }
          AssignableSame(before, store, moves);
        }
      }
      assert Valid() by { ValidOf(); }
      ok := true;
    }

    /** Writes the assignments in order, up to the first write that fails. */
    method AssignAll(moves: seq<Move>) returns (ok: bool, ghost done: nat)
      requires Loaded() && Assignable(store, moves)
      modifies this`store, this`cachedSlots, this`hooks, this`states, this`writes
      ensures Valid() && done <= |moves| && (ok ==> done == |moves|) && (up ==> ok)
      ensures store == old(store).(slots := Assigned(old(store).slots, moves[..done]))
    {
      hide Valid, Loaded, Run, SlotsClean, GroupsClean, Context, Allowed, Apply, Assigned;
      assert Assigned(store.slots, moves[..0]) == store.slots by { NothingAssigned(store.slots, moves); }
      for i := 0 to |moves|
        invariant Loaded() && Assignable(store, moves)
        invariant store == old(store).(slots := Assigned(old(store).slots, moves[..i]))
      {
        ghost var before := store;
        AssignNext(old(store).slots, moves, i);
        AssignAllowed(store, moves[i]);
        ok := WriteSlot(Topology.Assign(moves[i].sid, moves[i].gid));
        done := if store == before then i else i + 1;
        if !ok {
          return;
        }
        AssignableSame(before, store, moves);
      }
      assert moves[..|moves|] == moves;
      assert Valid() by { ValidOf(); }
      ok, done := true, |moves|;
    }

    /** An operator puts slots into groups by hand, dropping any migration of theirs. */
    method SlotsAssignGroup(moves: seq<Move>) returns (r: Result, ghost done: nat)
      requires Valid()
      modifies this
      ensures old(up) ==> r == Done || r == Refused
      ensures Valid() && disabled == old(disabled) && done <= |moves|
      ensures r == NoContext || r == Refused ==> Unchanged()
      ensures r == Refused ==> !Assignable(old(store), moves)
      ensures r == Failed || r == Done ==>
                Assignable(old(store), moves) && store.slots == Assigned(old(store).slots, moves[..done])
      ensures r == Done ==>
                done == |moves| && forall i :: 0 <= i < |moves| ==>
                  moves[i].gid in store.groups && store.groups[moves[i].gid].outOfSync
      ensures OnlyMarked(old(store), store, moves)
    {
      hide Valid, Loaded, Run, SlotsClean, GroupsClean, Context, OnlyMarked, Assigned, TopoOk;
      done := 0;
      OnlyMarkedRefl(store, moves);
      NothingAssigned(store.slots, moves);
      var ok := NewContext();
      if !ok {
        return NoContext, done;
      }
      LoadedParts();
      if exists i :: 0 <= i < |moves| && !AssignOk(Context(), moves[i]) {
        assert Valid() by { ValidOf(); }
        return Refused, done;
      }
      ok := MarkGroups(moves);
      if !ok {
        return Failed, done;
      }
      ghost var marked := store;
      ok, done := AssignAll(moves);
      OnlyMarkedSlots(old(store), marked, store, moves);
      var synced: bool := *;
      r := if ok && (synced || up) then Done else Failed;
    }

    /** Takes slots out of all groups; each request must name no group. */
    method SlotsAssignOffline(moves: seq<Move>) returns (r: Result, ghost done: nat)
      requires Valid()
      modifies this
      ensures old(up) ==> r == Done || r == Refused
      ensures Valid() && disabled == old(disabled) && done <= |moves|
      ensures r == NoContext || r == Refused ==> Unchanged()
      ensures r == Refused ==> exists i :: 0 <= i < |moves| && !(moves[i].sid < MAX_SLOT_NUM && moves[i].gid == 0)
      ensures r == Failed || r == Done ==>
                && (forall i :: 0 <= i < |moves| ==> moves[i].sid < MAX_SLOT_NUM && moves[i].gid == 0)
                && store == old(store).(slots := Assigned(old(store).slots, moves[..done]))
      ensures r == Done ==> done == |moves|
    {
      hide Valid, Loaded, Run, SlotsClean, GroupsClean, Context, Allowed, Apply, TopoOk;
      done := 0;
      var ok := NewContext();
      if !ok {
        return NoContext, done;
      }
      LoadedParts();
      if exists i :: 0 <= i < |moves| && !(moves[i].sid < MAX_SLOT_NUM && moves[i].gid == 0) {
        assert Valid() by { ValidOf(); }
        return Refused, done;
      }
      assert moves[..0] == [];
      for i := 0 to |moves|
        invariant Loaded() && disabled == old(disabled) && up == old(up) && |store.slots| == MAX_SLOT_NUM
        invariant store == old(store).(slots := Assigned(old(store).slots, moves[..i]))
      {
        ghost var before := store;
        AssignNext(old(store).slots, moves, i);
        OfflineAllowed(store, moves[i].sid);
        ok := WriteSlot(Offline(moves[i].sid));
        done := if store == before then i else i + 1;
        if !ok {
          return Failed, done;
        }
      }
      assert moves[..|moves|] == moves;
      assert Valid() by { ValidOf(); }
      var synced: bool := *;
      r, done := if synced || up then Done else Failed, |moves|;
    }

    // ---------- Planning migrations ----------

    /**
     Picks the action to take up next, records it in the round, and takes it to the migrating state.
     Actions already begun go first; a pending one is begun only if migrations are not disabled.
     */
    method SlotActionPrepare(round: Round) returns (r: Result, next: Round, ghost sid: nat)
      requires Valid()
      modifies this
      ensures old(up) ==> r == Done || r == Refused
      ensures Valid() && disabled == old(disabled)
      ensures r == NoContext || r == Refused ==> Unchanged() && next == round
      ensures r == Refused ==> forall s :: 0 <= s < |old(store).slots| ==> !Eligible(old(store).slots, round, disabled, s)
      ensures r == Failed || r == Done ==>
                && sid < |old(store).slots| && FirstChoice(old(store).slots, round, disabled, sid)
                && next == Planned(round, sid, old(store).slots[sid])
                && next.plans == round.plans[sid := old(store).slots[sid]]
                && (forall g :: g in next.marks <==>
                      || g in round.marks || g == old(store).slots[sid].target
                      || (g == old(store).slots[sid].group && g != 0))
                && exists st :: Forward(old(store).slots[sid].state, st) &&
                     store == old(store).(slots := old(store).slots[sid := old(store).slots[sid].(state := st)])
      ensures r == Done ==> store.slots[sid].state == if old(store).slots[sid].state == Finished then Finished else Migrating
    {
      hide Valid, Loaded, Run, SlotsClean, GroupsClean, Context, TopoOk, Allowed, Apply;
      next, sid := round, 0;
      var ok := NewContext();
      if !ok {
        return NoContext, next, sid;
      }
      LoadedParts();
      assert Valid() by { ValidOf(); }
      var slots := Context().slots;
      var picked := MinActionIndex(slots, round, true);
      if picked.None? && !disabled {
        picked := MinActionIndex(slots, round, false);
      }
      if picked.None? {
        forall s | 0 <= s < |slots| ensures !Eligible(slots, round, disabled, s) {
          assert !Candidate(slots, round, true, s) && (disabled || !Candidate(slots, round, false, s));
        }
        return Refused, next, sid;
      }
      sid := picked.value;
      next := Planned(round, picked.value, slots[picked.value]);
      r := TakeUp(picked.value);
    }

    /** Takes an action to the migrating state, one write per state; a finished one is left alone. */
    method TakeUp(k: nat) returns (r: Result)
      requires Loaded() && k < |store.slots| && store.slots[k].state != Nothing
      modifies this`store, this`cachedSlots, this`hooks, this`states, this`writes
      ensures Valid() && (r == Done || (r == Failed && !up))
      ensures exists st :: Forward(old(store).slots[k].state, st) &&
                store == old(store).(slots := old(store).slots[k := old(store).slots[k].(state := st)])
      ensures r == Done ==> store.slots[k].state == if old(store).slots[k].state == Finished then Finished else Migrating
    {
      hide Valid, Loaded, Run, SlotsClean, GroupsClean, Context, TopoOk, Allowed, Apply;
      LoadedParts();
      var slots := Context().slots;
      var m := slots[k];
      assert store.slots == slots[k := m.(state := m.state)];
      while slots[k].state != Migrating && slots[k].state != Finished
        invariant Loaded() && k < |slots| && slots[k].state != Nothing
        invariant slots == old(store).slots[k := m.(state := slots[k].state)] && Forward(m.state, slots[k].state)
        invariant store == old(store).(slots := slots)
        decreases 4 - Stage(slots[k].state)
      {
        AdvanceAllowed(store, k);
        var ok := WriteSlot(Advance(k));
        if !ok {
          assert store == old(store).(slots := old(store).slots[k := m.(state := slots[k].state)])
              || store == old(store).(slots := old(store).slots[k := m.(state := NextState(slots[k].state))]);
          return Failed;
        }
        LoadedParts();
        slots := Context().slots;
      }
      assert Valid() by { ValidOf(); }
      r := Done;
    }

    lemma ValidOk()
      requires Valid()
      ensures TopoOk(store)
    {
      hide TopoOk;
      RunSafe(states, writes, |states| - 1);
    }

    /** Any operations, with any arguments, in any order, any of whose loads and writes may fail. */
    method AnyOperations()
      requires Valid()
      modifies this
      ensures Valid() && TopoOk(store)
    {
      hide *;
      var n: int := *;
      while n > 0
        invariant Valid()
        decreases n
      {
        n := n - 1;
        up := *;
        var what: int := *;
        var sid: int, gid: int, num: int, flag: bool, other: bool := *, *, *, *, *;
        var server: Server, moves: seq<Move>, round: Round, text: string, role: string := *, *, *, *, *;
        var pids: map<string, string> := *;
        match what % 20 {
          case 0 => var _ := CreateGroup(gid);
          case 1 => var _ := RemoveGroup(gid);
          case 2 => var _ := GroupAddServer(gid, server);
          case 3 => var _, _ := GroupDelServer(gid, text);
          case 4 => var _, _ := SwitchMaster(gid, text, pids);
          case 5 => var _, _ := EnableReplica(gid, text, flag);
          case 6 => var _ := SlotCreateAction(sid, gid);
          case 7 => var _, _ := SlotCreateActionSome(sid, gid, num);
          case 8 => var _, _ := SlotCreateActionRange(sid, num, gid, flag, other);
          case 9 => var _ := SlotRemoveAction(sid);
          case 10 => var _ := SlotActionComplete(sid);
          case 11 => var _, _ := SlotsAssignGroup(moves);
          case 12 => var _, _ := SlotsAssignOffline(moves);
          case 13 => var _, _, _, _, _ := SlotsRebalance(flag);
          case 14 => var _, _, _ := SlotActionPrepare(round);
          case 15 => var _, _ := ChangeServerRole(gid, role, text);
          case 16 => var _ := ResyncGroup(gid);
          case 17 => var _ := ResyncGroupAll();
          case 18 => var _, _, _, _ := SlotCreateActionInit();
          case _ => var _ := Reload();
        }
      }
      ValidOk();
    }

    /**
     Plans one round of migrations. Other operations may run between the picks. Whatever they do,
     the migrations of a round involve pairwise different groups, and the round is finite.
     */
    method PlanRound() returns (r: Result, round: Round)
      requires Valid()
      modifies this
      ensures Valid() && RoundOk(round) && |round.plans| <= 36
      ensures r == Refused ==> Exhausted(store.slots, round, disabled)
      ensures r == Done ==> |round.plans| == 36
    {
      hide Valid, RoundOk, FirstChoice, Eligible, Exhausted, TopoOk, Planned;
      round := Round({}, map[]);
      EmptyRound();
      r := Done;
      while |round.plans| < PARALLEL
        invariant Valid() && RoundOk(round) && |round.plans| <= PARALLEL
        decreases PARALLEL - |round.plans|
      {
        AnyOperations();
        ghost var before := store;
        ghost var sid;
        var next;
        r, next, sid := SlotActionPrepare(round);
        if r == NoContext || r == Refused {
          if r == Refused {
            RefusedExhausts(store.slots, round, disabled);
          }
          return;
        }
        RoundNext(before, round, disabled, sid);
        round := next;
        if r == Failed {
          return;
        }
      }
      r := Done;
    }

    /** What an operation reads: the cached objects. */
    function Context(): Topo
      reads this
    {
      Topo(if cachedSlots.Some? then Values(cachedSlots.value) else [],
           if cachedGroups.Some? then GroupValues(cachedGroups.value) else map[])
    }

    lemma LoadedParts()
      requires Loaded()
      ensures History() && SlotsClean(store, cachedSlots, hooks) && GroupsClean(store, cachedGroups, hooks)
      ensures SlotsLoaded(store, cachedSlots) && GroupsLoaded(store, cachedGroups)
      ensures cachedSlots.Some? && cachedGroups.Some? && |cachedSlots.value| == |store.slots| == MAX_SLOT_NUM
      ensures Context() == store
    {
      GroupsAre(store, cachedGroups.value);
      assert Context().slots == store.slots;
    }

    lemma SlotCount()
      requires Valid()
      ensures |store.slots| == MAX_SLOT_NUM
    {
    }

    lemma CleanOf()
      requires Valid()
      ensures History() && SlotsClean(store, cachedSlots, hooks) && GroupsClean(store, cachedGroups, hooks)
    {
    }

    lemma MakeValid()
      requires History() && SlotsClean(store, cachedSlots, hooks) && GroupsClean(store, cachedGroups, hooks)
      ensures Valid()
    {
    }
  }

  /** On a new dashboard the first distribution, once it has loaded the topology, divides by zero. */
  method InitWithoutGroups() returns (r: Result, panicked: bool)
    ensures r != NoContext ==> panicked
  {
    hide Dash.Valid;
    var d := new Dash();
    assert |d.store.slots| == MAX_SLOT_NUM by { d.SlotCount(); }
    ghost var done, gids;
    r, panicked, done, gids := d.SlotCreateActionInit();
  }
}
