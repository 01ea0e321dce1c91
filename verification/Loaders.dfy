/**
 Which incarnation of a cluster's replica the threads of a raft host have loaded. The host keeps
 one replica of each cluster; the snapshot pool and the stepping, committing and applying threads
 follow it. A thread looks at the host's clusters, loads what is new, publishes its list and lets
 go of what is gone, and each of these is a step of its own. Every holder of a replica counts
 towards its closing.
 */
module Loaders {

  /** The cluster an incarnation belongs to, and its replica id there. */
  datatype Ident = Ident(cid: nat, rid: nat)

  /** The clusters a thread looks after: those with a given remainder. */
  datatype Part = Part(shards: nat, bucket: nat)

  predicate Mine(p: Part, c: nat) { p.shards > 0 && c % p.shards == p.bucket }

  const ALL: Part := Part(1, 0)

  datatype Phase = Rest | Looked | Published

  /**
   What one thread knows: the replicas it has loaded, the list it has published, what it saw when it
   looked last, how far it has come since, and the host's change counter at that look.
   */
  datatype View = View(part: Part, pool: bool, own: map<nat, nat>, listed: map<nat, nat>, seen: map<nat, nat>,
                       phase: Phase, index: nat)

  function NewView(part: Part, pool: bool): View { View(part, pool, map[], map[], map[], Rest, 0) }

  /** The host's replicas by cluster, its change counter, the threads' views, the jobs at work, and the counts. */
  datatype Loads = Loads(ids: map<nat, Ident>, hosted: map<nat, nat>, index: nat, views: seq<View>,
                         working: multiset<nat>, count: map<nat, nat>, closed: set<nat>, revived: set<nat>)

  function MineOf(hosted: map<nat, nat>, p: Part): map<nat, nat> { map c | c in hosted && Mine(p, c) :: hosted[c] }

  predicate AtPlace(m: map<nat, nat>, cid: nat, n: nat) { cid in m && m[cid] == n }

  function One(b: bool): nat { if b then 1 else 0 }

  // ---------- Holders ----------

  /** The number of threads that have loaded replica `n` of cluster `cid`. */
  function Owners(views: seq<View>, cid: nat, n: nat): nat {
    if views == [] then 0
    else Owners(views[..|views| - 1], cid, n) + One(AtPlace(views[|views| - 1].own, cid, n))
  }

  lemma {:induction false} OwnersUpdate(views: seq<View>, t: nat, v: View, cid: nat, n: nat)
    requires t < |views|
    ensures Owners(views[t := v], cid, n) ==
            Owners(views, cid, n) - One(AtPlace(views[t].own, cid, n)) + One(AtPlace(v.own, cid, n))
    ensures Owners(views, cid, n) >= One(AtPlace(views[t].own, cid, n))
  {
    var k := |views| - 1;
    if t == k {
      assert views[t := v][..k] == views[..k];
    } else {
      assert views[t := v][..k] == views[..k][t := v];
      OwnersUpdate(views[..k], t, v, cid, n);
    }
  }

  lemma {:induction false} NoOwner(views: seq<View>, cid: nat, n: nat)
    requires forall t :: 0 <= t < |views| ==> !AtPlace(views[t].own, cid, n)
    ensures Owners(views, cid, n) == 0
  {
    if views != [] {
      NoOwner(views[..|views| - 1], cid, n);
    }
  }

  /** The host, every thread that has loaded it and every worker with a job for it hold a replica, once each. */
  ghost function Holders(l: Loads, n: nat): nat
    requires n in l.ids
  {
    One(AtPlace(l.hosted, l.ids[n].cid, n)) + Owners(l.views, l.ids[n].cid, n) + l.working[n]
  }

  /**
   The count of a replica is the number of its holders. At zero it is closed; a closed replica has a
   holder only if it was loaded again after that.
   */
  ghost predicate CountOk(l: Loads, n: nat) {
    if n in l.ids
    then && n in l.count && l.count[n] == Holders(l, n)
         && (l.count[n] == 0 ==> n in l.closed) && (n in l.revived ==> n in l.closed)
         && (n in l.closed && n !in l.revived ==> l.count[n] == 0)
    else n !in l.count && n !in l.closed && n !in l.revived && l.working[n] == 0
  }

  // ---------- Views ----------

  /** Each cluster is mapped to a replica of its own. */
  ghost predicate MapOk(ids: map<nat, Ident>, m: map<nat, nat>) {
    forall c {:trigger m[c]} :: c in m ==> m[c] in ids && ids[m[c]].cid == c
  }

  /** Where both have a cluster they have the same incarnation of it. */
  ghost predicate Agree(m: map<nat, nat>, k: map<nat, nat>) {
    forall c {:trigger m[c]} {:trigger k[c]} :: c in m && c in k ==> m[c] == k[c]
  }

  ghost predicate PhaseOk(v: View) {
    match v.phase
    case Rest => v.own == v.seen && v.listed == v.seen
    case Looked =>
      && Agree(v.own, v.seen) && Agree(v.listed, v.own) && v.listed.Keys <= v.own.Keys
      && (forall c :: c in v.own ==> c in v.listed || c in v.seen) && (v.pool ==> v.own == v.listed)
    case Published => Agree(v.own, v.seen) && v.listed == v.seen && (v.pool || v.seen.Keys <= v.own.Keys)
  }

  ghost predicate ViewOk(ids: map<nat, Ident>, hosted: map<nat, nat>, index: nat, v: View) {
    && MapOk(ids, v.own) && MapOk(ids, v.seen) && PhaseOk(v)
    && v.index <= index && (v.index == index ==> v.seen == MineOf(hosted, v.part))
  }

  ghost predicate LoadsOk(l: Loads) {
    && (forall n {:trigger CountOk(l, n)} :: CountOk(l, n)) && MapOk(l.ids, l.hosted)
    && (forall t {:trigger l.views[t]} :: 0 <= t < |l.views| ==> ViewOk(l.ids, l.hosted, l.index, l.views[t]))
  }

  /** Of cluster `c` the thread has in view another incarnation than the host has. */
  predicate Outdated(v: View, hosted: map<nat, nat>, c: nat) { c in v.seen && c in hosted && v.seen[c] != hosted[c] }

  /** A thread at rest that finds the counter unchanged has in view what the host has. */
  lemma UnchangedView(l: Loads, t: nat, c: nat)
    requires LoadsOk(l) && t < |l.views| && l.views[t].index == l.index
    ensures !Outdated(l.views[t], l.hosted, c)
  {
    assert ViewOk(l.ids, l.hosted, l.index, l.views[t]);
  }

  /** What a thread publishes is loaded or in view, and of the right cluster. */
  lemma ListedKnown(ids: map<nat, Ident>, hosted: map<nat, nat>, index: nat, v: View, c: nat)
    requires ViewOk(ids, hosted, index, v) && c in v.listed
    ensures v.listed[c] in ids && ids[v.listed[c]].cid == c
    ensures c in v.seen ==> v.listed[c] == v.seen[c]
  {
  }

  // ---------- Steps of a thread ----------

  /** A step that loads and unloads nothing. */
  lemma SameOwn(l: Loads, u: Loads, t: nat, v: View)
    requires LoadsOk(l) && t < |l.views| && u == l.(views := l.views[t := v]) && v.own == l.views[t].own
    requires ViewOk(l.ids, l.hosted, l.index, v)
    ensures LoadsOk(u)
  {
    hide ViewOk, MapOk;
    forall n ensures CountOk(u, n) {
      assert CountOk(l, n);
      if n in l.ids {
        OwnersUpdate(l.views, t, v, l.ids[n].cid, n);
      }
    }
    forall i | 0 <= i < |u.views| ensures ViewOk(u.ids, u.hosted, u.index, u.views[i]) {
      assert ViewOk(l.ids, l.hosted, l.index, l.views[i]);
    }
  }

  function Look(v: View, hosted: map<nat, nat>, index: nat): View {
    v.(seen := MineOf(hosted, v.part), phase := Looked, index := index)
  }

  lemma LookOk(l: Loads, t: nat)
    requires LoadsOk(l) && t < |l.views| && l.views[t].phase == Rest
    requires forall c :: !Outdated(l.views[t], l.hosted, c)
    ensures LoadsOk(l.(views := l.views[t := Look(l.views[t], l.hosted, l.index)]))
  {
    var v := l.views[t];
    assert ViewOk(l.ids, l.hosted, l.index, v);
    var next := Look(v, l.hosted, l.index);
    forall c | c in v.own && c in next.seen ensures v.own[c] == next.seen[c] {
      assert !Outdated(v, l.hosted, c);
    }
    hide CountOk;
    SameOwn(l, l.(views := l.views[t := next]), t, next);
  }

  function Publish(v: View): View { v.(listed := v.seen, phase := Published) }

  lemma PublishOk(l: Loads, t: nat)
    requires LoadsOk(l) && t < |l.views| && l.views[t].phase == Looked
    requires l.views[t].pool || l.views[t].seen.Keys <= l.views[t].own.Keys
    ensures LoadsOk(l.(views := l.views[t := Publish(l.views[t])]))
  {
    var v := l.views[t];
    assert ViewOk(l.ids, l.hosted, l.index, v);
    hide CountOk;
    SameOwn(l, l.(views := l.views[t := Publish(v)]), t, Publish(v));
  }

  lemma FinishOk(l: Loads, t: nat)
    requires LoadsOk(l) && t < |l.views| && l.views[t].phase == Published && l.views[t].own.Keys == l.views[t].seen.Keys
    ensures LoadsOk(l.(views := l.views[t := l.views[t].(phase := Rest)])) && l.views[t].own == l.views[t].seen
  {
    var v := l.views[t];
    assert ViewOk(l.ids, l.hosted, l.index, v);
    hide CountOk;
    SameOwn(l, l.(views := l.views[t := v.(phase := Rest)]), t, v.(phase := Rest));
  }

  /** One more holder; one that comes after the closing revives the replica. */
  function Loaded(l: Loads, n: nat): Loads
    requires n in l.count
  {
    l.(count := l.count[n := l.count[n] + 1], revived := if n in l.closed then l.revived + {n} else l.revived)
  }

  /** One holder less; the last one closes the replica. */
  function Unloaded(l: Loads, n: nat): Loads
    requires n in l.count && l.count[n] > 0
  {
    l.(count := l.count[n := l.count[n] - 1], closed := if l.count[n] == 1 then l.closed + {n} else l.closed)
  }

  /** A pool loads after it has let go of everything that is gone, another thread before it publishes. */
  predicate CanTake(v: View, c: nat) {
    c in v.seen && c !in v.own && if v.pool then v.phase == Published && v.own.Keys <= v.seen.Keys else v.phase == Looked
  }

  function Take(v: View, c: nat): View
    requires c in v.seen
  {
    v.(own := v.own[c := v.seen[c]])
  }

  lemma TakenOk(l: Loads, t: nat, c: nat)
    requires LoadsOk(l) && t < |l.views| && CanTake(l.views[t], c)
    ensures l.views[t].seen[c] in l.count
    ensures LoadsOk(Loaded(l, l.views[t].seen[c]).(views := l.views[t := Take(l.views[t], c)]))
  {
    var v := l.views[t];
    var n := v.seen[c];
    assert ViewOk(l.ids, l.hosted, l.index, v);
    assert CountOk(l, n);
    TakeView(l.ids, l.hosted, l.index, v, c);
    hide ViewOk;
    var u := Loaded(l, n).(views := l.views[t := Take(v, c)]);
    forall x ensures CountOk(u, x) {
      assert CountOk(l, x);
      if x in l.ids {
        OwnersUpdate(l.views, t, Take(v, c), l.ids[x].cid, x);
      }
    }
    forall i | 0 <= i < |u.views| ensures ViewOk(u.ids, u.hosted, u.index, u.views[i]) {
      assert ViewOk(l.ids, l.hosted, l.index, l.views[i]);
    }
  }

  lemma TakeView(ids: map<nat, Ident>, hosted: map<nat, nat>, index: nat, v: View, c: nat)
    requires ViewOk(ids, hosted, index, v) && CanTake(v, c)
    ensures ViewOk(ids, hosted, index, Take(v, c))
  {
  }

  predicate CanDrop(v: View, c: nat) { v.phase == Published && c in v.own && c !in v.seen }

  function Drop(v: View, c: nat): View { v.(own := v.own - {c}) }

  lemma DroppedOk(l: Loads, t: nat, c: nat)
    requires LoadsOk(l) && t < |l.views| && CanDrop(l.views[t], c)
    ensures l.views[t].own[c] in l.count && l.count[l.views[t].own[c]] > 0
    ensures LoadsOk(Unloaded(l, l.views[t].own[c]).(views := l.views[t := Drop(l.views[t], c)]))
  {
    var v := l.views[t];
    var n := v.own[c];
    assert ViewOk(l.ids, l.hosted, l.index, v);
    assert CountOk(l, n);
    OwnersUpdate(l.views, t, Drop(v, c), c, n);
    DropView(l.ids, l.hosted, l.index, v, c);
    hide ViewOk;
    var u := Unloaded(l, n).(views := l.views[t := Drop(v, c)]);
    forall x ensures CountOk(u, x) {
      assert CountOk(l, x);
      if x in l.ids {
        OwnersUpdate(l.views, t, Drop(v, c), l.ids[x].cid, x);
      }
    }
    forall i | 0 <= i < |u.views| ensures ViewOk(u.ids, u.hosted, u.index, u.views[i]) {
      assert ViewOk(l.ids, l.hosted, l.index, l.views[i]);
    }
  }

  lemma DropView(ids: map<nat, Ident>, hosted: map<nat, nat>, index: nat, v: View, c: nat)
    requires ViewOk(ids, hosted, index, v) && CanDrop(v, c)
    ensures ViewOk(ids, hosted, index, Drop(v, c))
  {
  }

  // ---------- Steps of the host ----------

  function Started(l: Loads, n: nat, id: Ident): Loads {
    l.(ids := l.ids[n := id], hosted := l.hosted[id.cid := n], index := l.index + 1, count := l.count[n := 1])
  }

  lemma StartedOk(l: Loads, n: nat, id: Ident)
    requires LoadsOk(l) && n !in l.ids && id.cid !in l.hosted
    ensures LoadsOk(Started(l, n, id))
  {
    var u := Started(l, n, id);
    forall t | 0 <= t < |u.views|
      ensures !AtPlace(u.views[t].own, id.cid, n) && ViewOk(u.ids, u.hosted, u.index, u.views[t])
    {
      assert ViewOk(l.ids, l.hosted, l.index, l.views[t]);
    }
    NoOwner(l.views, id.cid, n);
    hide ViewOk, Owners;
    forall x ensures CountOk(u, x) {
      assert CountOk(l, x);
    }
  }

  /** A start outdates exactly the views that have the cluster. */
  lemma StartedView(l: Loads, n: nat, id: Ident)
    requires LoadsOk(l) && n !in l.ids && id.cid !in l.hosted
    ensures forall v, c {:trigger Outdated(v, Started(l, n, id).hosted, c)} :: v in l.views ==>
              (Outdated(v, Started(l, n, id).hosted, c) <==>
                 Outdated(v, l.hosted, c) || (c == id.cid && id.cid in v.seen))
  {
    forall v, c {:trigger Outdated(v, Started(l, n, id).hosted, c)} | v in l.views
      ensures Outdated(v, Started(l, n, id).hosted, c) <==>
                Outdated(v, l.hosted, c) || (c == id.cid && id.cid in v.seen)
    {
      var t :| 0 <= t < |l.views| && l.views[t] == v;
      assert ViewOk(l.ids, l.hosted, l.index, l.views[t]);
    }
  }

  function Stopped(l: Loads, c: nat): Loads
    requires c in l.hosted && l.hosted[c] in l.count && l.count[l.hosted[c]] > 0
  {
    Unloaded(l, l.hosted[c]).(hosted := l.hosted - {c}, index := l.index + 1)
  }

  lemma StoppedOk(l: Loads, c: nat)
    requires LoadsOk(l) && c in l.hosted
    ensures l.hosted[c] in l.count && l.count[l.hosted[c]] > 0 && LoadsOk(Stopped(l, c))
  {
    var n := l.hosted[c];
    assert CountOk(l, n);
    var u := Stopped(l, c);
    forall t | 0 <= t < |u.views| ensures ViewOk(u.ids, u.hosted, u.index, u.views[t]) {
      assert ViewOk(l.ids, l.hosted, l.index, l.views[t]);
    }
    hide ViewOk;
    forall x ensures CountOk(u, x) {
      assert CountOk(l, x);
    }
  }

  // ---------- Steps of the jobs ----------

  lemma JobStarted(l: Loads, n: nat, t: nat)
    requires LoadsOk(l) && n in l.ids && t < |l.views| && AtPlace(l.views[t].own, l.ids[n].cid, n)
    ensures n in l.count && l.count[n] > 0
    ensures LoadsOk(l.(count := l.count[n := l.count[n] + 1], working := l.working + multiset{n}))
  {
    assert CountOk(l, n);
    OwnersUpdate(l.views, t, l.views[t], l.ids[n].cid, n);
    var u := l.(count := l.count[n := l.count[n] + 1], working := l.working + multiset{n});
    hide ViewOk;
    forall x ensures CountOk(u, x) {
      assert CountOk(l, x);
    }
  }

  lemma JobEnded(l: Loads, n: nat)
    requires LoadsOk(l) && n in l.working
    ensures n in l.count && l.count[n] > 0 && LoadsOk(Unloaded(l, n).(working := l.working - multiset{n}))
  {
    assert CountOk(l, n);
    var u := Unloaded(l, n).(working := l.working - multiset{n});
    hide ViewOk;
    forall x ensures CountOk(u, x) {
      assert CountOk(l, x);
    }
  }

  /** A replica is closed exactly when nobody holds it or it was loaded again after it was closed. */
  lemma ClosedUnheld(l: Loads, n: nat)
    requires LoadsOk(l) && n in l.ids
    ensures n in l.closed <==>
              || n in l.revived
              || (&& !AtPlace(l.hosted, l.ids[n].cid, n) && n !in l.working
                  && forall t :: 0 <= t < |l.views| ==> !AtPlace(l.views[t].own, l.ids[n].cid, n))
  {
    assert CountOk(l, n);
    if t :| 0 <= t < |l.views| && AtPlace(l.views[t].own, l.ids[n].cid, n) {
      OwnersUpdate(l.views, t, l.views[t], l.ids[n].cid, n);
    } else {
      NoOwner(l.views, l.ids[n].cid, n);
    }
  }

  // ---------- Calm hosts ----------

  /** A published list, of a thread or of the workers, has a replica of the cluster under this id. */
  predicate Listed(ids: map<nat, Ident>, views: seq<View>, busyTable: map<nat, nat>, cid: nat, rid: nat) {
    || (exists t :: 0 <= t < |views| && Names(ids, views[t].listed, cid, rid))
    || Names(ids, busyTable, cid, rid)
  }

  predicate Names(ids: map<nat, Ident>, m: map<nat, nat>, cid: nat, rid: nat) {
    cid in m && m[cid] in ids && ids[m[cid]].rid == rid
  }

  /** No thread is on its way to a replica of the cluster: whoever saw it has loaded and published it. */
  predicate Settled(views: seq<View>, c: nat) {
    forall t :: 0 <= t < |views| && c in views[t].seen ==> c in views[t].own && c in views[t].listed
  }

  /** What the thread has seen is what the host has, and what it has not loaded and published yet is still there. */
  ghost predicate CalmView(v: View, hosted: map<nat, nat>) {
    forall c {:trigger v.seen[c]} :: c in v.seen ==>
      && (c in hosted ==> v.seen[c] == hosted[c])
      && ((c in v.own && c in v.listed) || c in hosted)
  }

  /** Every cluster has one replica id, no replica was loaded after its closing, and all threads are calm. */
  ghost predicate CalmHost(ids: map<nat, Ident>, hosted: map<nat, nat>, views: seq<View>, revived: set<nat>,
                           fixed: map<nat, nat>) {
    && (forall n {:trigger ids[n]} :: n in ids ==> ids[n].cid in fixed && ids[n].rid == fixed[ids[n].cid])
    && revived == {} && (forall t {:trigger views[t]} :: 0 <= t < |views| ==> CalmView(views[t], hosted))
  }

  ghost predicate Calm(l: Loads, fixed: map<nat, nat>) { CalmHost(l.ids, l.hosted, l.views, l.revived, fixed) }

  /** On a calm host no thread ever finds two incarnations, and nothing is closed twice. */
  lemma CalmSafe(l: Loads, fixed: map<nat, nat>)
    requires LoadsOk(l) && Calm(l, fixed)
    ensures forall t, c :: 0 <= t < |l.views| ==> !Outdated(l.views[t], l.hosted, c)
    ensures forall n :: n in l.count && l.count[n] > 0 ==> n !in l.closed
  {
    forall t, c | 0 <= t < |l.views| ensures !Outdated(l.views[t], l.hosted, c) {
      assert CalmView(l.views[t], l.hosted);
    }
    forall n | n in l.count && l.count[n] > 0 ensures n !in l.closed {
      assert CountOk(l, n);
    }
  }

  /** Where a cluster that is not hosted is still in view, its id is still listed, so a start under it is refused. */
  lemma CalmListed(l: Loads, fixed: map<nat, nat>, busyTable: map<nat, nat>, t: nat, c: nat)
    requires LoadsOk(l) && Calm(l, fixed) && t < |l.views| && c in l.views[t].seen && c !in l.hosted
    ensures c in fixed && Listed(l.ids, l.views, busyTable, c, fixed[c])
  {
    var v := l.views[t];
    assert ViewOk(l.ids, l.hosted, l.index, v) && CalmView(v, l.hosted);
    assert v.seen[c] in l.ids;
    ListedKnown(l.ids, l.hosted, l.index, v, c);
    assert Names(l.ids, v.listed, c, fixed[c]);
  }

  lemma CalmStart(l: Loads, fixed: map<nat, nat>, busyTable: map<nat, nat>, n: nat, c: nat)
    requires LoadsOk(l) && Calm(l, fixed) && c in fixed && n !in l.ids
    requires c !in l.hosted && !Listed(l.ids, l.views, busyTable, c, fixed[c])
    ensures Calm(Started(l, n, Ident(c, fixed[c])), fixed)
  {
    hide Listed, LoadsOk;
    var u := Started(l, n, Ident(c, fixed[c]));
    forall t | 0 <= t < |u.views| ensures CalmView(u.views[t], u.hosted) {
      assert CalmView(l.views[t], l.hosted);
      if c in l.views[t].seen {
        CalmListed(l, fixed, busyTable, t, c);
      }
    }
  }

  lemma CalmStop(l: Loads, fixed: map<nat, nat>, c: nat)
    requires LoadsOk(l) && Calm(l, fixed) && c in l.hosted && Settled(l.views, c)
    ensures l.hosted[c] in l.count && l.count[l.hosted[c]] > 0 && Calm(Stopped(l, c), fixed)
  {
    StoppedOk(l, c);
    hide LoadsOk;
    var u := Stopped(l, c);
    forall t | 0 <= t < |u.views| ensures CalmView(u.views[t], u.hosted) {
      assert CalmView(l.views[t], l.hosted);
    }
  }

  lemma CalmStep(l: Loads, fixed: map<nat, nat>, t: nat, v: View)
    requires Calm(l, fixed) && t < |l.views| && CalmView(v, l.hosted)
    ensures Calm(l.(views := l.views[t := v]), fixed)
  {
    hide CalmView;
    var next := l.views[t := v];
    forall i | 0 <= i < |next| ensures CalmView(next[i], l.hosted) {
      assert CalmView(l.views[i], l.hosted);
    }
  }

  /** Whatever a thread of a calm host does next, it stays calm; a replica it is about to load has not been closed. */
  lemma ViewCalm(l: Loads, fixed: map<nat, nat>, t: nat, c: nat)
    requires LoadsOk(l) && Calm(l, fixed) && t < |l.views|
    ensures Calm(l.(views := l.views[t := Look(l.views[t], l.hosted, l.index)]), fixed)
    ensures Calm(l.(views := l.views[t := Publish(l.views[t])]), fixed)
    ensures Calm(l.(views := l.views[t := Drop(l.views[t], c)]), fixed) || !CanDrop(l.views[t], c)
    ensures Calm(l.(views := l.views[t := l.views[t].(phase := Rest)]), fixed)
    ensures CanTake(l.views[t], c) ==>
              l.views[t].seen[c] !in l.closed && Calm(l.(views := l.views[t := Take(l.views[t], c)]), fixed)
  {
    var v := l.views[t];
    assert CalmView(v, l.hosted);
    CalmStep(l, fixed, t, Look(v, l.hosted, l.index));
    CalmStep(l, fixed, t, Publish(v));
    CalmStep(l, fixed, t, v.(phase := Rest));
    if CanDrop(v, c) {
      CalmStep(l, fixed, t, Drop(v, c));
    }
    if CanTake(v, c) {
      CalmTake(l, fixed, t, c);
      CalmStep(l, fixed, t, Take(v, c));
    }
  }

  lemma CalmTake(l: Loads, fixed: map<nat, nat>, t: nat, c: nat)
    requires LoadsOk(l) && Calm(l, fixed) && t < |l.views| && CanTake(l.views[t], c)
    ensures l.views[t].seen[c] !in l.closed && CalmView(Take(l.views[t], c), l.hosted)
  {
    var v := l.views[t];
    assert ViewOk(l.ids, l.hosted, l.index, v) && CalmView(v, l.hosted);
    assert CountOk(l, v.seen[c]);
  }

  /** The list of a thread names nothing under an id that is not listed. */
  lemma OtherId(ids: map<nat, Ident>, views: seq<View>, busyTable: map<nat, nat>, t: nat, cid: nat, rid: nat)
    requires !Listed(ids, views, busyTable, cid, rid) && t < |views|
    requires cid in views[t].listed && views[t].listed[cid] in ids
    ensures ids[views[t].listed[cid]].rid != rid
  {
    assert !Names(ids, views[t].listed, cid, rid);
  }

  lemma SameSeen(v: View, w: View, hosted: map<nat, nat>)
    requires v.seen == w.seen
    ensures forall c :: Outdated(v, hosted, c) <==> Outdated(w, hosted, c)
  {
  }

  /** A thread looks after the host's replicas of the clusters with its remainder, and of no other cluster. */
  lemma MineOfAre(hosted: map<nat, nat>, p: Part)
    ensures forall c :: c in MineOf(hosted, p) <==> c in hosted && 0 < p.shards && c % p.shards == p.bucket
    ensures forall c :: c in MineOf(hosted, p) ==> MineOf(hosted, p)[c] == hosted[c]
  {
  }

  /** A start is refused for what any thread's list, or the list of busy replicas, has under the id. */
  lemma ListedMeans(ids: map<nat, Ident>, views: seq<View>, busyTable: map<nat, nat>, cid: nat, rid: nat)
    ensures !Listed(ids, views, busyTable, cid, rid) <==>
            && (forall v :: v in views && cid in v.listed && v.listed[cid] in ids ==> ids[v.listed[cid]].rid != rid)
            && (cid in busyTable && busyTable[cid] in ids ==> ids[busyTable[cid]].rid != rid)
  {
    if !Listed(ids, views, busyTable, cid, rid) {
      forall v | v in views && cid in v.listed && v.listed[cid] in ids ensures ids[v.listed[cid]].rid != rid {
        var t :| 0 <= t < |views| && views[t] == v;
        assert !Names(ids, views[t].listed, cid, rid);
      }
    } else if !Names(ids, busyTable, cid, rid) {
      var t :| 0 <= t < |views| && Names(ids, views[t].listed, cid, rid);
      assert views[t] in views;
    }
  }

  lemma AllMine(hosted: map<nat, nat>)
    ensures MineOf(hosted, ALL) == hosted
  {
  }

  /** A replica that is closed although it has a holder was loaded after it was closed. */
  lemma HeldThoughClosed(l: Loads, n: nat)
    requires LoadsOk(l) && n in l.count && l.count[n] > 0 && n in l.closed
    ensures n in l.revived
  {
    assert CountOk(l, n);
  }
}
