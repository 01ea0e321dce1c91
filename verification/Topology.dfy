/**
 The cluster topology kept by the dashboard: which server group owns each slot,
 which migrations are under way, and which servers form each group. Every change
 is one write to the store; runs are sequences of writes that the dashboard's
 own checks let through.
 */
module Topology {

  const MAX_SLOT_NUM: nat := 1024
  const MAX_GROUP_ID: nat := 9999

  datatype State = Nothing | Pending | Preparing | Prepared | Migrating | Finished

  /** A slot's owner and its migration, if any. */
  datatype Mapping = Mapping(group: int, state: State, index: int, target: int, noData: bool)

  datatype Server = Server(addr: string, role: string, replica: bool)

  datatype Group = Group(servers: seq<Server>, outOfSync: bool, promoting: bool)

  datatype Topo = Topo(slots: seq<Mapping>, groups: map<int, Group>)

  function Resting(group: int): Mapping { Mapping(group, Nothing, 0, 0, false) }

  // ---------- Reading the topology ----------

  predicate Served(t: Topo, g: int) { g in t.groups && t.groups[g].servers != [] }

  predicate InUse(t: Topo, g: int) {
    exists s :: 0 <= s < |t.slots| && (t.slots[s].group == g || t.slots[s].target == g)
  }

  /** The group whose master serves a slot. */
  function Route(m: Mapping): int { if m.state == Finished then m.target else m.group }

  function Master(t: Topo, g: int): string { if Served(t, g) then t.groups[g].servers[0].addr else "" }

  /** The largest index of an action under way. */
  function MaxIndex(slots: seq<Mapping>): (r: int)
    ensures r >= 0
    ensures forall s :: 0 <= s < |slots| && slots[s].state != Nothing ==> slots[s].index <= r
    ensures r == 0 || exists s :: 0 <= s < |slots| && slots[s].state != Nothing && slots[s].index == r
  {
    if slots == [] then 0 else
      var n := |slots| - 1;
      var rest := MaxIndex(slots[..n]);
      assert forall s :: 0 <= s < n ==> slots[..n][s] == slots[s];
      if slots[n].state != Nothing && slots[n].index > rest then slots[n].index else rest
  }

  // ---------- What holds in every reachable topology ----------

  /** Every group a slot owns or targets exists and has a server. */
  ghost predicate SlotOk(t: Topo, m: Mapping) {
    && (m.group != 0 ==> Served(t, m.group))
    && (m.state == Nothing ==> m == Resting(m.group))
    && (m.state != Nothing ==> m.target != 0 && m.target != m.group && Served(t, m.target))
  }

  ghost predicate HasAddr(t: Topo, g: int, i: int, a: string) {
    g in t.groups && 0 <= i < |t.groups[g].servers| && t.groups[g].servers[i].addr == a
  }

  /** No server address appears twice, in one group or in two. */
  ghost predicate AddrsUnique(t: Topo) {
    forall g, i, h, j, a {:trigger HasAddr(t, g, i, a), HasAddr(t, h, j, a)} ::
      HasAddr(t, g, i, a) && HasAddr(t, h, j, a) ==> g == h && i == j && a != ""
  }

  /** Actions under way have distinct indices. */
  ghost predicate IndicesUnique(slots: seq<Mapping>) {
    forall i, j :: 0 <= i < j < |slots| && slots[i].state != Nothing && slots[j].state != Nothing ==>
      slots[i].index != slots[j].index
  }

  ghost predicate TopoOk(t: Topo) {
    && (forall s {:trigger SlotOk(t, t.slots[s])} :: 0 <= s < |t.slots| ==> SlotOk(t, t.slots[s]))
    && (forall g :: g in t.groups ==> 0 < g <= MAX_GROUP_ID)
    && AddrsUnique(t)
    && IndicesUnique(t.slots)
  }

  // ---------- Writes ----------

  datatype Write =
    | Create(sid: nat, gid: int, noData: bool)
    | Remove(sid: nat)
    | Advance(sid: nat)
    | Finish(sid: nat)
    | Settle(sid: nat)
    | Assign(sid: nat, gid: int)
    | Offline(sid: nat)
    | AddGroup(gid: int)
    | DropGroup(gid: int)
    | AddServer(gid: int, server: Server)
    | DelServer(gid: int, at: nat)
    | Switch(gid: int, at: nat)
    | Touch(gid: int, group: Group)

  predicate OfSlot(w: Write) {
    w.Create? || w.Remove? || w.Advance? || w.Finish? || w.Settle? || w.Assign? || w.Offline?
  }

  predicate SameAddrs(a: seq<Server>, b: seq<Server>) {
    |a| == |b| && forall i :: 0 <= i < |a| ==> a[i].addr == b[i].addr
  }

  predicate AddrKnown(t: Topo, a: string) {
    exists g :: g in t.groups && exists i :: 0 <= i < |t.groups[g].servers| && t.groups[g].servers[i].addr == a
  }

  /** The checks an operation makes before it writes. */
  ghost predicate Allowed(t: Topo, w: Write) {
    if OfSlot(w) then
      && w.sid < |t.slots|
      && var m := t.slots[w.sid];
         match w
         case Create(_, gid, _) => m.state == Nothing && m.group != gid && gid != 0 && Served(t, gid)
         case Remove(_) => m.state == Pending
         case Advance(_) => m.state == Pending || m.state == Preparing || m.state == Prepared
         case Finish(_) => m.state == Migrating
         case Settle(_) => m.state == Finished
         case Assign(_, gid) => gid != 0 && Served(t, gid)
         case _ => true
    else
      match w
      case AddGroup(gid) => gid !in t.groups && 0 < gid <= MAX_GROUP_ID
      case DropGroup(gid) => gid in t.groups && !InUse(t, gid)
      case AddServer(gid, server) => gid in t.groups && server.addr != "" && !AddrKnown(t, server.addr)
      case DelServer(gid, at) =>
        gid in t.groups && at < |t.groups[gid].servers|
        && (at == 0 ==> |t.groups[gid].servers| == 1 && !InUse(t, gid))
      case Switch(gid, at) => gid in t.groups && 0 < at < |t.groups[gid].servers|
      case Touch(gid, group) => gid in t.groups && SameAddrs(group.servers, t.groups[gid].servers)
      case _ => false
  }

  function NextState(s: State): State {
    match s
    case Pending => Preparing
    case Preparing => Prepared
    case _ => Migrating
  }

  /** What a slot write stores. */
  function Written(slots: seq<Mapping>, w: Write): Mapping
    requires OfSlot(w) && w.sid < |slots|
  {
    var m := slots[w.sid];
    match w
    case Create(_, gid, noData) => Mapping(m.group, Pending, MaxIndex(slots) + 1, gid, noData)
    case Remove(_) => Resting(m.group)
    case Advance(_) => m.(state := NextState(m.state))
    case Finish(_) => m.(state := Finished)
    case Settle(_) => Resting(m.target)
    case Assign(_, gid) => Resting(gid)
    case _ => Resting(0)
  }

  function Without(servers: seq<Server>, at: nat): seq<Server>
    requires at < |servers|
  {
    servers[..at] + servers[at + 1..]
  }

  /** What a group write stores. */
  function WrittenGroup(g: Group, w: Write): Group
    requires w.AddServer? || w.DelServer? || w.Switch? || w.Touch?
    requires (w.DelServer? || w.Switch?) ==> w.at < |g.servers|
  {
    match w
    case AddServer(_, server) => g.(servers := g.servers + [server])
    case DelServer(_, at) =>
      var rest := Without(g.servers, at);
      Group(rest, if rest == [] then false else g.outOfSync || (at != 0 && g.servers[at].replica), g.promoting)
    case Switch(_, at) => g.(servers := g.servers[0 := g.servers[at]][at := g.servers[0]], outOfSync := true)
    case Touch(_, group) => group
  }

  ghost function Apply(t: Topo, w: Write): Topo
    requires Allowed(t, w)
  {
    if OfSlot(w) then t.(slots := t.slots[w.sid := Written(t.slots, w)])
    else if w.AddGroup? then t.(groups := t.groups[w.gid := Group([], false, false)])
    else if w.DropGroup? then t.(groups := t.groups - {w.gid})
    else t.(groups := t.groups[w.gid := WrittenGroup(t.groups[w.gid], w)])
  }

  // ---------- Every allowed write keeps the topology sound ----------

  lemma SlotWriteOk(t: Topo, w: Write)
    requires TopoOk(t) && Allowed(t, w) && OfSlot(w)
    ensures TopoOk(Apply(t, w))
  {
    hide MaxIndex, AddrsUnique;
    var u, m := Apply(t, w), Written(t.slots, w);
    assert SlotOk(t, t.slots[w.sid]);
    assert u.groups == t.groups;
    forall s | 0 <= s < |u.slots| ensures SlotOk(u, u.slots[s]) {
      assert SlotOk(t, t.slots[s]);
    }
    SlotWriteIndices(t.slots, w);
    SameGroups(t, u);
  }

  lemma SameGroups(t: Topo, u: Topo)
    requires AddrsUnique(t) && u.groups == t.groups
    ensures AddrsUnique(u)
  {
    forall g, i, h, j, a | HasAddr(u, g, i, a) && HasAddr(u, h, j, a) ensures g == h && i == j && a != "" {
      assert HasAddr(t, g, i, a) && HasAddr(t, h, j, a);
    }
  }

  lemma SlotWriteIndices(slots: seq<Mapping>, w: Write)
    requires IndicesUnique(slots) && OfSlot(w) && w.sid < |slots|
    requires !w.Create? && slots[w.sid].state == Nothing ==> w.Remove? || w.Settle? || w.Assign? || w.Offline?
    ensures IndicesUnique(slots[w.sid := Written(slots, w)])
  {
    hide MaxIndex;
  }

  /** A write to a group other than dropping it keeps the servers of groups in use. */
  lemma GroupWriteOk(t: Topo, w: Write)
    requires TopoOk(t) && Allowed(t, w) && !OfSlot(w)
    ensures TopoOk(Apply(t, w))
  {
    hide AddrsUnique, IndicesUnique;
    var u := Apply(t, w);
    forall s | 0 <= s < |u.slots| ensures SlotOk(u, u.slots[s]) {
      assert SlotOk(t, t.slots[s]);
    }
    GroupWriteAddrs(t, w);
  }

  lemma GroupWriteAddrs(t: Topo, w: Write)
    requires AddrsUnique(t) && Allowed(t, w) && !OfSlot(w)
    ensures AddrsUnique(Apply(t, w))
  {
    hide InUse;
    var u := Apply(t, w);
    forall g, i, h, j, a | HasAddr(u, g, i, a) && HasAddr(u, h, j, a) ensures g == h && i == j && a != "" {
      var i1, j1 := Was(t, w, g, i), Was(t, w, h, j);
      WasThere(t, w, g, i, a);
      WasThere(t, w, h, j, a);
      if i1 >= 0 && j1 >= 0 {
        assert HasAddr(t, g, i1, a) && HasAddr(t, h, j1, a);
      }
    }
  }

  /** Where the server now at `(g, i)` was before the write, -1 if it is new. */
  ghost function Was(t: Topo, w: Write, g: int, i: int): int
    requires Allowed(t, w) && !OfSlot(w)
  {
    if g != w.gid then i
    else match w
         case AddServer(_, _) => if i == |t.groups[g].servers| then -1 else i
         case DelServer(_, at) => if i < at then i else i + 1
         case Switch(_, at) => if i == 0 then at else if i == at then 0 else i
         case _ => i
  }

  lemma WasThere(t: Topo, w: Write, g: int, i: int, a: string)
    requires Allowed(t, w) && !OfSlot(w) && HasAddr(Apply(t, w), g, i, a)
    ensures var k := Was(t, w, g, i);
            if k >= 0 then HasAddr(t, g, k, a)
            else w.AddServer? && g == w.gid && i == |t.groups[g].servers| && a == w.server.addr
  {
    hide InUse, AddrKnown;
  }

  // ---------- Runs ----------

  /** The states of a run, one more than its writes. */
  ghost predicate Run(states: seq<Topo>, writes: seq<Write>) {
    && |states| == |writes| + 1
    && forall i {:trigger writes[i]} :: 0 <= i < |writes| ==>
         Allowed(states[i], writes[i]) && states[i + 1] == Apply(states[i], writes[i])
  }

  /** Every topology a run reaches is sound. */
  lemma {:induction false} RunSafe(states: seq<Topo>, writes: seq<Write>, i: nat)
    requires Run(states, writes) && TopoOk(states[0]) && i < |states|
    ensures TopoOk(states[i])
  {
    hide TopoOk, Allowed, Apply;
    if i > 0 {
      RunSafe(states, writes, i - 1);
      assert writes[i - 1] == writes[i - 1];
      if OfSlot(writes[i - 1]) {
        SlotWriteOk(states[i - 1], writes[i - 1]);
      } else {
        GroupWriteOk(states[i - 1], writes[i - 1]);
      }
    }
  }

  // ---------- Routing ----------

  /** Routing always finds a master: the slot's group, or the target once the migration has finished. */
  lemma RouteServed(t: Topo, s: nat)
    requires TopoOk(t) && s < |t.slots| && Route(t.slots[s]) != 0
    ensures var m := t.slots[s];
            var g := if m.state == Finished then m.target else m.group;
            && Route(m) == g && g in t.groups && t.groups[g].servers != []
            && Master(t, Route(m)) == t.groups[g].servers[0].addr != ""
  {
    var g := Route(t.slots[s]);
    assert SlotOk(t, t.slots[s]);
    assert HasAddr(t, g, 0, t.groups[g].servers[0].addr);
  }

  ghost predicate Rerouted(w: Write, s: nat) {
    OfSlot(w) && w.sid == s && (w.Finish? || w.Assign? || w.Offline?)
  }

  /** One write moves a slot's route only when its migration finishes, or when an operator assigns it. */
  lemma RouteStep(t: Topo, w: Write, s: nat)
    requires TopoOk(t) && Allowed(t, w) && s < |t.slots|
    ensures Route(Apply(t, w).slots[s]) != Route(t.slots[s]) ==> Rerouted(w, s)
    ensures w == Finish(s) ==> t.slots[s].state == Migrating
                               && Route(t.slots[s]) == t.slots[s].group
                               && Route(Apply(t, w).slots[s]) == t.slots[s].target != t.slots[s].group
  {
    hide MaxIndex, AddrsUnique, InUse;
    assert SlotOk(t, t.slots[s]);
  }

  /** Over a whole run, a different route means a finished migration or an assignment in between. */
  lemma {:induction false} RouteHistory(states: seq<Topo>, writes: seq<Write>, s: nat, i: nat, j: nat) returns (k: nat)
    requires Run(states, writes) && TopoOk(states[0]) && i <= j < |states|
    requires s < |states[0].slots|
    ensures |states[i].slots| == |states[j].slots| == |states[0].slots|
    ensures Route(states[i].slots[s]) != Route(states[j].slots[s]) ==> i <= k < j && Rerouted(writes[k], s)
  {
    hide TopoOk, Allowed, Apply, Rerouted, Route;
    SlotCount(states, writes, i);
    SlotCount(states, writes, j);
    k := 0;
    if i < j {
      k := RouteHistory(states, writes, s, i, j - 1);
      assert writes[j - 1] == writes[j - 1];
      RunSafe(states, writes, j - 1);
      RouteStep(states[j - 1], writes[j - 1], s);
      if Route(states[j].slots[s]) != Route(states[j - 1].slots[s]) {
        k := j - 1;
      }
    }
  }

  lemma {:induction false} SlotCount(states: seq<Topo>, writes: seq<Write>, i: nat)
    requires Run(states, writes) && i < |states|
    ensures |states[i].slots| == |states[0].slots|
  {
    hide InUse, MaxIndex, WrittenGroup;
    if i > 0 {
      SlotCount(states, writes, i - 1);
      assert writes[i - 1] == writes[i - 1];
    }
  }

  // ---------- The life of a migration ----------

  function Stage(s: State): nat {
    match s
    case Nothing => 0
    case Pending => 0
    case Preparing => 1
    case Prepared => 2
    case Migrating => 3
    case Finished => 4
  }

  predicate OnSlot(w: Write, s: nat) { OfSlot(w) && w.sid == s }

  /** The number of writes to slot `s` among `writes[lo..hi]`. */
  function Steps(writes: seq<Write>, s: nat, lo: nat, hi: nat): nat
    requires lo <= hi <= |writes|
  {
    if lo == hi then 0 else Steps(writes, s, lo, hi - 1) + (if OnSlot(writes[hi - 1], s) then 1 else 0)
  }

  /** The action `m` was created by write `c` and has since been taken through its states one by one. */
  ghost predicate Since(writes: seq<Write>, s: nat, c: nat, i: nat, m: Mapping) {
    && c < i <= |writes|
    && writes[c] == Create(s, m.target, m.noData)
    && (forall k :: c < k < i && OnSlot(writes[k], s) ==> writes[k].Advance? || writes[k].Finish?)
    && Steps(writes, s, c + 1, i) == Stage(m.state)
  }

  /**
   An action under way was created by exactly one write, for this very target; since then no
   state was skipped and nothing else touched the slot.
   */
  lemma {:induction false} Provenance(states: seq<Topo>, writes: seq<Write>, s: nat, i: nat) returns (c: nat)
    requires Run(states, writes) && i < |states| && s < |states[0].slots|
    requires states[0].slots[s].state == Nothing
    ensures |states[i].slots| == |states[0].slots|
    ensures states[i].slots[s].state != Nothing ==> Since(writes, s, c, i, states[i].slots[s])
  {
    hide Since, Apply, Allowed;
    SlotCount(states, writes, i);
    c := 0;
    if i > 0 {
      SlotCount(states, writes, i - 1);
      var w := writes[i - 1];
      c := Provenance(states, writes, s, i - 1);
      if w.Create? && w.sid == s {
        c := i - 1;
      }
      SinceStep(writes, s, c, i - 1, states[i - 1], states[i]);
    }
  }

  lemma SinceStep(writes: seq<Write>, s: nat, c: nat, i: nat, t: Topo, u: Topo)
    requires i < |writes| && s < |t.slots| && Allowed(t, writes[i]) && u == Apply(t, writes[i])
    requires if writes[i].Create? && writes[i].sid == s then c == i
             else t.slots[s].state != Nothing ==> Since(writes, s, c, i, t.slots[s])
    ensures u.slots[s].state != Nothing ==> Since(writes, s, c, i + 1, u.slots[s])
  {
    hide MaxIndex, InUse, WrittenGroup;
    if u.slots[s].state != Nothing {
      if c == i {
        assert Steps(writes, s, i + 1, i + 1) == 0;
      }
    }
  }

  /** The master of a group in use changes only by an explicit switch. */
  lemma MasterStep(t: Topo, w: Write, g: int)
    requires TopoOk(t) && Allowed(t, w) && g != 0 && InUse(t, g)
    ensures var u := Apply(t, w);
            && g in t.groups && t.groups[g].servers != [] && g in u.groups && u.groups[g].servers != []
            && Master(t, g) == t.groups[g].servers[0].addr && Master(u, g) == u.groups[g].servers[0].addr
            && (Master(u, g) != Master(t, g) ==>
                  w.Switch? && w.gid == g && Master(u, g) == t.groups[g].servers[w.at].addr)
  {
    hide AddrsUnique, MaxIndex;
    var s :| 0 <= s < |t.slots| && (t.slots[s].group == g || t.slots[s].target == g);
    assert SlotOk(t, t.slots[s]);
  }
}
