/**
 Snapshot work on a raft host. Each replica is driven by one apply thread; snapshot
 requests travel through one-slot mailboxes to a pool, which hands jobs to workers;
 results come back through another set of mailboxes. All threads interleave freely:
 a method below is one atomic step of one of them. A method returns `true` where the
 code would panic.
 */
module SnapshotPool {

  import opened Loaders

  datatype Kind = Save | Recover | Stream

  /** Where an apply thread is in its pass over a replica. */
  datatype Pc = AtSave | AtStream | AtRecover | AtInit | Handling | Deliver(kind: Kind)

  /**
   An incarnation of a replica: its kind of state machine, the snapshot tasks in its queue, its
   flags, the mailboxes holding a request, and the mailboxes holding a result (with the `Initial`
   mark of a finished recovery).
   */
  datatype Node = Node(concurrent: bool, onDisk: bool, initialized: bool, tasks: seq<Kind>,
                       flags: set<Kind>, ready: set<Kind>, done: map<Kind, bool>, pc: Pc)

  datatype Job = Job(nid: nat, cid: nat, kind: Kind)

  /** A job sits in the request channel, runs, has stored its result, or has been signalled. */
  datatype Worker = Idle | Given(job: Job) | Running(job: Job) | Notified(job: Job) | Signalled(job: Job)

  /** The place of a request between the raising and the lowering of its flag. */
  datatype Place = Nowhere | InReady | InPending | AtWorker(w: nat) | InDone

  type Places = map<(nat, Kind), Place>

  function At(where: Places, n: nat, k: Kind): Place {
    if (n, k) in where then where[(n, k)] else Nowhere
  }

  // ---------- Invariants of the replicas ----------

  ghost predicate NodeOk(n: Node) {
    && (Save in n.flags || Stream in n.flags ==> n.initialized)
    && (Stream in n.flags || Stream in n.tasks ==> n.onDisk)
    && (Recover in n.done ==> n.done[Recover] == !n.initialized)
    && (n.pc != AtSave && Save in n.flags ==> n.concurrent)
    && (n.pc == AtInit || n.pc == Handling || n.pc.Deliver? ==> Recover !in n.flags)
    && (n.pc == Handling || n.pc.Deliver? ==> n.initialized)
    && (n.pc == Deliver(Stream) ==> n.onDisk)
  }

  /** A mailbox is filled only while the token is there, and a token only while the flag is up. */
  ghost predicate TokenOk(n: Node, p: Place, k: Kind) {
    && (k in n.ready ==> p == InReady)
    && (k in n.done ==> p == InDone)
    && (p != Nowhere ==> k in n.flags)
  }

  ghost predicate NodesOk(nodes: map<nat, Node>, where: Places) {
    && (forall n {:trigger nodes[n]} :: n in nodes ==> NodeOk(nodes[n]))
    && (forall n, k {:trigger At(where, n, k)} ::
          if n in nodes then TokenOk(nodes[n], At(where, n, k), k) else At(where, n, k) == Nowhere)
  }

  /** A flag comes down exactly when its result is there, and the result is used up; nothing else moves. */
  ghost predicate Lowered(before: Node, after: Node, k: Kind) {
    && after.flags == before.flags - (if k in before.done then {k} else {})
    && after.done == before.done - {k} && after.ready == before.ready
  }

  /** A request of kind `k` enters its mailbox and raises its flag. */
  ghost predicate Raised(before: Node, after: Node, k: Kind) {
    && after.flags == before.flags + {k} && after.ready == before.ready + {k}
    && after.done == before.done && after.initialized == before.initialized
  }

  // ---------- Invariants of the jobs ----------

  ghost predicate JobOk(ids: map<nat, Ident>, j: Job) { j.nid in ids && ids[j.nid].cid == j.cid }

  ghost predicate PendingOk(ids: map<nat, Ident>, pending: seq<Job>, where: Places) {
    && (forall p {:trigger pending[p]} :: 0 <= p < |pending| ==>
          JobOk(ids, pending[p]) && At(where, pending[p].nid, pending[p].kind) == InPending)
    && (forall p, q :: 0 <= p < q < |pending| ==> pending[p] != pending[q])
  }

  ghost predicate WorkerOk(ids: map<nat, Ident>, w: Worker, i: nat, where: Places) {
    && (w != Idle ==> JobOk(ids, w.job))
    && (w.Given? || w.Running? ==> At(where, w.job.nid, w.job.kind) == AtWorker(i))
  }

  ghost predicate WorkersOk(ids: map<nat, Ident>, workers: seq<Worker>, where: Places) {
    forall i {:trigger workers[i]} :: 0 <= i < |workers| ==> WorkerOk(ids, workers[i], i, where)
  }

  // ---------- The pool's ledger ----------

  function Working(w: Worker, c: nat, k: Kind): nat {
    if w != Idle && w.job.cid == c && w.job.kind == k then 1 else 0
  }

  /** The number of workers with a job of kind `k` for cluster `c`. */
  function Count(workers: seq<Worker>, c: nat, k: Kind): nat {
    if workers == [] then 0
    else Count(workers[..|workers| - 1], c, k) + Working(workers[|workers| - 1], c, k)
  }

  /** What the pool has on record for a cluster: at most one save or recovery, any number of streams. */
  datatype Ledger = Ledger(saving: set<nat>, recovering: set<nat>, streaming: map<nat, nat>)

  function Recorded(l: Ledger, c: nat, k: Kind): nat {
    match k
    case Save => if c in l.saving then 1 else 0
    case Recover => if c in l.recovering then 1 else 0
    case Stream => if c in l.streaming then l.streaming[c] else 0
  }

  /** Exactly the recorded jobs are at work, and all jobs of a cluster are of one kind. */
  ghost predicate ClusterOk(workers: seq<Worker>, l: Ledger, c: nat) {
    && (forall k {:trigger Count(workers, c, k)} :: Count(workers, c, k) == Recorded(l, c, k))
    && (c in l.streaming ==> l.streaming[c] > 0)
    && !(c in l.saving && c in l.recovering)
    && !(c in l.saving && c in l.streaming)
    && !(c in l.recovering && c in l.streaming)
  }

  ghost predicate LedgerOk(workers: seq<Worker>, l: Ledger) {
    forall c {:trigger ClusterOk(workers, l, c)} :: ClusterOk(workers, l, c)
  }

  ghost predicate BusyOk(workers: seq<Worker>, busy: map<nat, nat>) {
    && (forall w :: w in busy ==> w < |workers|)
    && (forall w {:trigger workers[w]} :: 0 <= w < |workers| ==>
          (w in busy <==> workers[w] != Idle) && (w in busy ==> busy[w] == workers[w].job.nid))
  }

  // ---------- Counting ----------

  lemma {:induction false} CountUpdate(workers: seq<Worker>, i: nat, w: Worker, c: nat, k: Kind)
    requires i < |workers|
    ensures Count(workers[i := w], c, k) == Count(workers, c, k) - Working(workers[i], c, k) + Working(w, c, k)
  {
    var n := |workers| - 1;
    if i == n {
      assert workers[i := w][..n] == workers[..n];
    } else {
      assert workers[i := w][..n] == workers[..n][i := w];
      CountUpdate(workers[..n], i, w, c, k);
    }
  }

  lemma {:induction false} CountPositive(workers: seq<Worker>, i: nat)
    requires i < |workers| && workers[i] != Idle
    ensures Count(workers, workers[i].job.cid, workers[i].job.kind) > 0
  {
    var n := |workers| - 1;
    if i < n {
      assert workers[..n][i] == workers[i];
      CountPositive(workers[..n], i);
    }
  }

  /** A worker with a job: its cluster is recorded under that kind and no other. */
  lemma JobRecorded(workers: seq<Worker>, l: Ledger, i: nat)
    requires LedgerOk(workers, l) && i < |workers| && workers[i] != Idle
    ensures var j := workers[i].job;
            && Recorded(l, j.cid, j.kind) > 0
            && (j.cid in l.saving <==> j.kind == Save)
            && (j.cid in l.recovering <==> j.kind == Recover)
            && (j.cid in l.streaming <==> j.kind == Stream)
  {
    CountPositive(workers, i);
    assert ClusterOk(workers, l, workers[i].job.cid);
  }

  lemma StreamsPositive(workers: seq<Worker>, l: Ledger, c: nat)
    requires LedgerOk(workers, l)
    ensures c in l.streaming ==> l.streaming[c] > 0
  {
    assert ClusterOk(workers, l, c);
  }

  /** No snapshot work of another kind, and no second save or recovery, runs beside a job of a cluster. */
  lemma ExclusiveJobs(workers: seq<Worker>, l: Ledger, i: nat, j: nat)
    requires LedgerOk(workers, l) && i < |workers| && j < |workers| && i != j
    requires workers[i] != Idle && workers[j] != Idle && workers[i].job.cid == workers[j].job.cid
    ensures workers[i].job.kind == workers[j].job.kind == Stream
  {
    var c, k := workers[i].job.cid, workers[i].job.kind;
    JobRecorded(workers, l, i);
    JobRecorded(workers, l, j);
    CountUpdate(workers, i, Idle, c, k);
    CountPositive(workers[i := Idle], j);
    assert ClusterOk(workers, l, c);
    assert Count(workers, c, k) == Recorded(l, c, k);
  }

  // ---------- Steps on the ledger ----------

  function Begun(l: Ledger, c: nat, k: Kind): Ledger {
    match k
    case Save => l.(saving := l.saving + {c})
    case Recover => l.(recovering := l.recovering + {c})
    case Stream => l.(streaming := l.streaming[c := Recorded(l, c, Stream) + 1])
  }

  function Ended(l: Ledger, c: nat, k: Kind): Ledger {
    match k
    case Save => l.(saving := l.saving - {c})
    case Recover => l.(recovering := l.recovering - {c})
    case Stream =>
      if Recorded(l, c, Stream) <= 1 then l.(streaming := l.streaming - {c})
      else l.(streaming := l.streaming[c := Recorded(l, c, Stream) - 1])
  }

  predicate CanSchedule(l: Ledger, j: Job) {
    && j.cid !in l.saving && j.cid !in l.recovering
    && (j.kind != Stream ==> j.cid !in l.streaming)
  }

  lemma BeginOk(workers: seq<Worker>, l: Ledger, i: nat, j: Job)
    requires LedgerOk(workers, l) && i < |workers| && workers[i] == Idle && CanSchedule(l, j)
    ensures LedgerOk(workers[i := Given(j)], Begun(l, j.cid, j.kind))
  {
    var next, m := workers[i := Given(j)], Begun(l, j.cid, j.kind);
    forall c ensures ClusterOk(next, m, c) {
      assert ClusterOk(workers, l, c);
      forall k ensures Count(next, c, k) == Recorded(m, c, k) {
        CountUpdate(workers, i, Given(j), c, k);
        assert Count(workers, c, k) == Recorded(l, c, k);
      }
    }
  }

  lemma EndOk(workers: seq<Worker>, l: Ledger, i: nat)
    requires LedgerOk(workers, l) && i < |workers| && workers[i] != Idle
    ensures LedgerOk(workers[i := Idle], Ended(l, workers[i].job.cid, workers[i].job.kind))
  {
    var j := workers[i].job;
    var next, m := workers[i := Idle], Ended(l, j.cid, j.kind);
    JobRecorded(workers, l, i);
    forall c ensures ClusterOk(next, m, c) {
      assert ClusterOk(workers, l, c);
      forall k ensures Count(next, c, k) == Recorded(m, c, k) {
        CountUpdate(workers, i, Idle, c, k);
        assert Count(workers, c, k) == Recorded(l, c, k);
      }
    }
  }

  /** A worker moving on with the same job changes no count. */
  lemma SameJobOk(workers: seq<Worker>, l: Ledger, i: nat, w: Worker)
    requires LedgerOk(workers, l) && i < |workers| && workers[i] != Idle && w != Idle && w.job == workers[i].job
    ensures LedgerOk(workers[i := w], l)
  {
    var next := workers[i := w];
    forall c ensures ClusterOk(next, l, c) {
      assert ClusterOk(workers, l, c);
      forall k ensures Count(next, c, k) == Recorded(l, c, k) {
        CountUpdate(workers, i, w, c, k);
        assert Count(workers, c, k) == Recorded(l, c, k);
      }
    }
  }

  // ---------- Steps of the queue ----------

  /** The worker is busy with the job's cluster, and not both of the two jobs are streams. */
  ghost predicate Hinders(w: Worker, j: Job) {
    w != Idle && w.job.cid == j.cid && !(w.job.kind == Stream && j.kind == Stream)
  }

  ghost predicate Hindered(workers: seq<Worker>, j: Job) {
    exists w :: 0 <= w < |workers| && Hinders(workers[w], j)
  }

  /** A counted job is some worker's. */
  lemma {:induction false} CountWitness(workers: seq<Worker>, c: nat, k: Kind) returns (i: nat)
    requires Count(workers, c, k) > 0
    ensures i < |workers| && workers[i] != Idle && workers[i].job.cid == c && workers[i].job.kind == k
  {
    i := |workers| - 1;
    if Working(workers[i], c, k) == 0 {
      i := CountWitness(workers[..i], c, k);
    }
  }

  /** The pool's records let a job start exactly when no worker is in its way. */
  lemma FreeToStart(workers: seq<Worker>, l: Ledger, j: Job)
    requires LedgerOk(workers, l)
    ensures CanSchedule(l, j) <==> !Hindered(workers, j)
  {
    assert ClusterOk(workers, l, j.cid);
    if Hindered(workers, j) {
      var w :| 0 <= w < |workers| && Hinders(workers[w], j);
      JobRecorded(workers, l, w);
    }
    if !CanSchedule(l, j) {
      var k := if j.cid in l.saving then Save else if j.cid in l.recovering then Recover else Stream;
      assert Count(workers, j.cid, k) == Recorded(l, j.cid, k);
      var w := CountWitness(workers, j.cid, k);
      assert Hinders(workers[w], j);
    }
  }

  predicate Stale(current: map<nat, nat>, j: Job) { j.cid !in current || current[j.cid] != j.nid }

  function Without(s: seq<Job>, p: nat): seq<Job>
    requires p < |s|
  {
    s[..p] + s[p + 1..]
  }

  /**
   The first job that could go on has left the queue: to the first idle worker, or dropped because
   its replica is gone.
   */
  ghost predicate Advanced(was: seq<Job>, pending: seq<Job>, before: seq<Worker>, workers: seq<Worker>,
                           current: map<nat, nat>, p: nat, w: nat) {
    && p < |was| && pending == was[..p] + was[p + 1..]
    && (forall q :: 0 <= q < p ==> was[q].cid in current && Hindered(before, was[q]))
    && (was[p].cid in current ==> !Hindered(before, was[p]))
    && w < |before| && before[w] == Idle && (forall i :: 0 <= i < w ==> before[i] != Idle)
    && workers == if AtPlace(current, was[p].cid, was[p].nid) then before[w := Given(was[p])] else before
  }

  /** Every job that was queued still is, has been given out, or has lost its replica; and no other job was given out. */
  ghost predicate Handed(was: seq<Job>, pending: seq<Job>, before: seq<Worker>, workers: seq<Worker>,
                         current: map<nat, nat>) {
    && |workers| == |before|
    && (forall j :: j in pending ==> j in was)
    && (forall j :: j in was ==> j in pending || !AtPlace(current, j.cid, j.nid) || Given(j) in workers)
    && (forall i :: 0 <= i < |workers| ==>
          workers[i] == before[i] || (before[i] == Idle && workers[i].Given? && workers[i].job in was))
  }

  lemma HandedMore(first: seq<Job>, was: seq<Job>, pending: seq<Job>, start: seq<Worker>, before: seq<Worker>,
                   workers: seq<Worker>, current: map<nat, nat>, p: nat, w: nat)
    requires Handed(first, was, start, before, current)
    requires Advanced(was, pending, before, workers, current, p, w)
    ensures |pending| < |was| && Handed(first, pending, start, workers, current)
  {
    hide Hindered;
    forall j | j in pending ensures j in was {
      var q :| 0 <= q < |pending| && pending[q] == j;
      assert j == was[if q < p then q else q + 1];
    }
    forall j | j in was && j != was[p] ensures j in pending {
      var q :| 0 <= q < |was| && was[q] == j;
      assert j == pending[if q < p then q else q - 1];
    }
    forall j | Given(j) in before ensures Given(j) in workers {
      var i :| 0 <= i < |before| && before[i] == Given(j);
      assert workers[i] == Given(j);
    }
    assert !AtPlace(current, was[p].cid, was[p].nid) || workers[w] == Given(was[p]);
    assert was[p] in was;
  }

  // ---------- Steps on a replica ----------

  predicate Elsewhere(p: Place) { !p.InPending? && !p.AtWorker? }

  function Moved(where: Places, n: nat, k: Kind, p: Place): Places { where[(n, k) := p] }

  /** A step on replica `n` that moves at most the token of kind `k`, from mailbox to mailbox. */
  lemma NodeStep(nodes: map<nat, Node>, ids: map<nat, Ident>, pending: seq<Job>, workers: seq<Worker>, where: Places,
                 n: nat, m: Node, k: Kind, p: Place)
    requires NodesOk(nodes, where) && PendingOk(ids, pending, where) && WorkersOk(ids, workers, where)
    requires n in nodes && NodeOk(m) && TokenOk(m, p, k)
    requires forall i :: i != k ==> TokenOk(m, At(where, n, i), i)
    requires p == At(where, n, k) || Elsewhere(At(where, n, k))
    ensures var next, moved := nodes[n := m], Moved(where, n, k, p);
            && NodesOk(next, moved) && PendingOk(ids, pending, moved) && WorkersOk(ids, workers, moved)
  {
    var next, moved := nodes[n := m], Moved(where, n, k, p);
    forall a, i ensures At(moved, a, i) == if a == n && i == k then p else At(where, a, i) {
    }
    forall a, i
      ensures if a in next then TokenOk(next[a], At(moved, a, i), i) else At(moved, a, i) == Nowhere
    {
      assert At(where, a, i) == At(where, a, i);
    }
    forall a | a in next ensures NodeOk(next[a]) {
      assert a == n || next[a] == nodes[a];
    }
    forall w | 0 <= w < |workers| ensures WorkerOk(ids, workers[w], w, moved) {
      assert WorkerOk(ids, workers[w], w, where);
    }
  }

  // ---------- The table of busy workers ----------

  lemma BusyStarted(workers: seq<Worker>, busy: map<nat, nat>, w: nat, j: Job)
    requires BusyOk(workers, busy) && w < |workers| && workers[w] == Idle
    ensures w !in busy && BusyOk(workers[w := Given(j)], busy[w := j.nid])
  {
  }

  lemma BusyEnded(ids: map<nat, Ident>, workers: seq<Worker>, busy: map<nat, nat>, where: Places, w: nat)
    requires BusyOk(workers, busy) && WorkersOk(ids, workers, where) && w < |workers| && workers[w] != Idle
    ensures w in busy && busy[w] == workers[w].job.nid && BusyOk(workers[w := Idle], busy - {w})
    ensures JobOk(ids, workers[w].job) && WorkersOk(ids, workers[w := Idle], where)
  {
    assert WorkerOk(ids, workers[w], w, where);
  }

  lemma BusyKnown(ids: map<nat, Ident>, workers: seq<Worker>, busy: map<nat, nat>, where: Places)
    requires BusyOk(workers, busy) && WorkersOk(ids, workers, where)
    ensures forall w :: w in busy ==> busy[w] in ids
  {
    forall w | w in busy ensures busy[w] in ids {
      assert WorkerOk(ids, workers[w], w, where);
    }
  }

  /** The published list of the workers names one of the replicas at work for each cluster. */
  ghost predicate TableOk(ids: map<nat, Ident>, busy: map<nat, nat>, table: map<nat, nat>) {
    && (forall c {:trigger table[c]} :: c in table ==>
          table[c] in ids && ids[table[c]].cid == c && exists w :: w in busy && busy[w] == table[c])
    && (forall w {:trigger busy[w]} :: w in busy ==> busy[w] in ids && ids[busy[w]].cid in table)
  }

  // ---------- The replicas at work ----------

  function Held(w: Worker): multiset<nat> { if w == Idle then multiset{} else multiset{w.job.nid} }

  /** The replicas of the jobs the workers have, each as often as it has a job. */
  function Workload(workers: seq<Worker>): multiset<nat> {
    if workers == [] then multiset{} else Workload(workers[..|workers| - 1]) + Held(workers[|workers| - 1])
  }

  lemma {:induction false} WorkloadUpdate(workers: seq<Worker>, i: nat, w: Worker)
    requires i < |workers|
    ensures Workload(workers[i := w]) == Workload(workers) - Held(workers[i]) + Held(w)
    ensures Held(workers[i]) <= Workload(workers)
  {
    hide Held;
    var k := |workers| - 1;
    var next := workers[i := w];
    if i == k {
      assert next[..k] == workers[..k];
      SwapLast(Workload(workers[..k]), Held(workers[k]), Held(w));
    } else {
      assert next[..k] == workers[..k][i := w];
      WorkloadUpdate(workers[..k], i, w);
      SwapInner(Workload(workers[..k]), Held(workers[i]), Held(w), Held(workers[k]));
    }
  }

  lemma SwapLast(a: multiset<nat>, x: multiset<nat>, y: multiset<nat>)
    ensures a + y == a + x - x + y && x <= a + x
  {
  }

  lemma SwapInner(a: multiset<nat>, x: multiset<nat>, y: multiset<nat>, b: multiset<nat>)
    requires x <= a
    ensures a - x + y + b == a + b - x + y && x <= a + b
  {
  }

  lemma WorkloadSame(workers: seq<Worker>, i: nat, w: Worker)
    requires i < |workers| && workers[i] != Idle && w != Idle && w.job == workers[i].job
    ensures Workload(workers[i := w]) == Workload(workers)
  {
    WorkloadUpdate(workers, i, w);
  }

  lemma WorkloadMore(workers: seq<Worker>, i: nat, j: Job)
    requires i < |workers| && workers[i] == Idle
    ensures Workload(workers[i := Given(j)]) == Workload(workers) + multiset{j.nid}
  {
    WorkloadUpdate(workers, i, Given(j));
  }

  lemma WorkloadLess(workers: seq<Worker>, i: nat)
    requires i < |workers| && workers[i] != Idle
    ensures workers[i].job.nid in Workload(workers)
    ensures Workload(workers[i := Idle]) == Workload(workers) - multiset{workers[i].job.nid}
  {
    WorkloadUpdate(workers, i, Idle);
  }

  lemma {:induction false} NoWorkload(workers: seq<Worker>)
    requires forall i :: 0 <= i < |workers| ==> workers[i] == Idle
    ensures Workload(workers) == multiset{}
  {
    if workers != [] {
      NoWorkload(workers[..|workers| - 1]);
    }
  }

  lemma {:induction false} AtWork(workers: seq<Worker>, n: nat)
    ensures n in Workload(workers) <==> exists w :: 0 <= w < |workers| && workers[w] != Idle && workers[w].job.nid == n
  {
    if workers != [] {
      var k := |workers| - 1;
      AtWork(workers[..k], n);
      if exists w :: 0 <= w < |workers| && workers[w] != Idle && workers[w].job.nid == n {
        var w :| 0 <= w < |workers| && workers[w] != Idle && workers[w].job.nid == n;
        assert w < k ==> workers[..k][w] == workers[w];
      }
    }
  }

  /** One holder is left of a replica that has been closed already. */
  ghost predicate LastOfClosed(n: nat, count: map<nat, nat>, closed: set<nat>) {
    n in closed && n in count && count[n] == 1
  }

  lemma LastMeans(n: nat, count: map<nat, nat>, closed: set<nat>)
    ensures LastOfClosed(n, count, closed) <==> n in closed && n in count && count[n] == 1
  {
  }

  class Host {
    // The incarnations of replicas, with the cluster and id of each, and the workers.
    var nodes: map<nat, Node>
    var ids: map<nat, Ident>
    var workers: seq<Worker>
    // The pool: queued jobs, jobs at work, and the replicas of busy workers, with the list published of them.
    var pending: seq<Job>
    var saving: set<nat>
    var recovering: set<nat>
    var streaming: map<nat, nat>
    var busy: map<nat, nat>
    var busyTable: map<nat, nat>
    // The host: its replica of each cluster and its change counter, what each thread has loaded (the pool is
    // the first), the number of holders of each replica, and the replicas that have been closed.
    var hosted: map<nat, nat>
    var index: nat
    var views: seq<View>
    var count: map<nat, nat>
    var closed: set<nat>
    // The replicas that were loaded again after they had been closed, and where each request is.
    ghost var revived: set<nat>
    ghost var where: Places

    function Books(): Ledger
      reads this`saving, this`recovering, this`streaming
    {
      Ledger(saving, recovering, streaming)
    }

    /** What the pool has loaded. */
    function Current(): map<nat, nat>
      reads this`views
    {
      if views == [] then map[] else views[0].own
    }

    ghost function Tallies(): Loads
      reads this`ids, this`hosted, this`index, this`views, this`workers, this`count, this`closed, this`revived
    {
      Loads(ids, hosted, index, views, Workload(workers), count, closed, revived)
    }

    ghost predicate Threads()
      reads this`views
    {
      |views| > 0 && forall t :: 0 <= t < |views| ==> (views[t].pool <==> t == 0)
    }

    /** The requests are where they should be, from the mailboxes through the queue to the workers. */
    ghost predicate JobsOk()
      reads this`nodes, this`ids, this`workers, this`pending, this`saving, this`recovering, this`streaming, this`busy
      reads this`where
    {
      && NodesOk(nodes, where) && PendingOk(ids, pending, where) && WorkersOk(ids, workers, where)
      && LedgerOk(workers, Books()) && BusyOk(workers, busy) && nodes.Keys == ids.Keys
    }

    ghost predicate Valid()
      reads this
    {
      JobsOk() && TableOk(ids, busy, busyTable) && Threads() && LoadsOk(Tallies())
    }

    /** A host with workers for snapshots and threads for the given parts of the clusters. */
    constructor (size: nat, parts: seq<Part>)
      ensures Valid() && ids == map[] && hosted == map[] && busyTable == map[] && revived == {} && |workers| == size
      ensures index == 0 && count == map[] && closed == {}
      ensures views == [NewView(ALL, true)] + seq(|parts|, i requires 0 <= i < |parts| => NewView(parts[i], false))
    {
      nodes, ids, workers, pending := map[], map[], seq(size, _ => Idle), [];
      saving, recovering, streaming, busy, busyTable, where := {}, {}, map[], map[], map[], map[];
      hosted, index, count, closed, revived := map[], 0, map[], {}, {};
      views := [NewView(ALL, true)] + seq(|parts|, i requires 0 <= i < |parts| => NewView(parts[i], false));
      new;
      NoWorkload(workers);
      forall c ensures ClusterOk(workers, Books(), c) {
        forall k ensures Count(workers, c, k) == 0 {
          NoneWorking(workers, c, k);
        }
      }
    }

    // ---------- The host ----------

    /** Starts a replica, unless the cluster has one or an earlier incarnation under the same id is still listed. */
    method StartCluster(n: nat, cid: nat, rid: nat, concurrent: bool, onDisk: bool) returns (accepted: bool)
      requires Valid() && n !in ids
      modifies this`nodes, this`ids, this`hosted, this`index, this`count
      ensures Valid() && (accepted <==> cid !in old(hosted) && !Listed(old(ids), views, busyTable, cid, rid))
      ensures accepted <==>
              && cid !in old(hosted)
              && (forall v :: v in views && cid in v.listed && v.listed[cid] in old(ids) ==>
                      old(ids)[v.listed[cid]].rid != rid)
              && (cid in busyTable && busyTable[cid] in old(ids) ==> old(ids)[busyTable[cid]].rid != rid)
      ensures if accepted
              then && nodes == old(nodes)[n := Node(concurrent, onDisk, false, [], {}, {}, map[], AtSave)]
                   && ids == old(ids)[n := Ident(cid, rid)] && hosted == old(hosted)[cid := n]
                   && index == old(index) + 1 && count == old(count)[n := 1]
              else nodes == old(nodes) && ids == old(ids) && hosted == old(hosted) && index == old(index)
      ensures forall v, c {:trigger Outdated(v, hosted, c)} :: v in views ==>
                (Outdated(v, hosted, c) <==> Outdated(v, old(hosted), c) || (accepted && c == cid && cid in v.seen))
    {
      hide JobsOk, TableOk, LoadsOk, Listed, Workload, Outdated, Threads;
      accepted := cid !in hosted && !Listed(ids, views, busyTable, cid, rid);
      ListedMeans(ids, views, busyTable, cid, rid);
      if accepted {
        StartedOk(Tallies(), n, Ident(cid, rid));
        StartedView(Tallies(), n, Ident(cid, rid));
        Enrol(n, Node(concurrent, onDisk, false, [], {}, {}, map[], AtSave), Ident(cid, rid));
        hosted, index, count := hosted[cid := n], index + 1, count[n := 1];
      }
    }

    /** A new incarnation, without any request. */
    method Enrol(n: nat, m: Node, id: Ident)
      requires JobsOk() && TableOk(ids, busy, busyTable) && n !in ids
      requires NodeOk(m) && m.flags == {} && m.ready == {} && m.done == map[]
      modifies this`nodes, this`ids
      ensures JobsOk() && TableOk(ids, busy, busyTable)
      ensures nodes == old(nodes)[n := m] && ids == old(ids)[n := id]
    {
      hide NodesOk, PendingOk, WorkersOk, LedgerOk, BusyOk, TableOk, NodeOk;
      NewNodeOk(nodes, ids, pending, workers, where, n, m, id);
      NewTableOk(ids, busy, busyTable, n, id);
      nodes, ids := nodes[n := m], ids[n := id];
    }

    /** One holder gives a replica up. The last one asks for it to be closed, and closing it again panics. */
    method Unload(n: nat) returns (again: bool)
      requires n in count && count[n] > 0
      modifies this`count, this`closed
      ensures again <==> old(count)[n] == 1 && n in old(closed)
      ensures Tallies() == Unloaded(old(Tallies()), n)
    {
      again := false;
      if count[n] == 1 {
        again := n in closed;
        closed := closed + {n};
      }
      count := count[n := count[n] - 1];
    }

    /** The host gives its replica of a cluster up. */
    method StopCluster(cid: nat) returns (again: bool)
      requires Valid() && cid in hosted
      modifies this`hosted, this`index, this`count, this`closed
      ensures Valid() && hosted == old(hosted) - {cid} && index == old(index) + 1
      ensures var n := old(hosted)[cid];
              && n in old(count) && old(count)[n] > 0 && count == old(count)[n := old(count)[n] - 1]
              && closed == (if old(count)[n] == 1 then old(closed) + {n} else old(closed))
              && (again <==> n in old(closed) && old(count)[n] == 1)
    {
      hide JobsOk, TableOk, LoadsOk, Workload;
      StoppedOk(Tallies(), cid);
      again := Unload(hosted[cid]);
      hosted, index := hosted - {cid}, index + 1;
    }

    /** A replica is closed exactly when nobody holds it or it was loaded again after it was closed. */
    lemma ClosedUnheld(n: nat)
      requires Valid() && n in ids
      ensures n in closed <==>
                || n in revived
                || (&& !AtPlace(hosted, ids[n].cid, n)
                    && (forall t :: 0 <= t < |views| ==> !AtPlace(views[t].own, ids[n].cid, n))
                    && forall w :: 0 <= w < |workers| ==> workers[w] == Idle || workers[w].job.nid != n)
    {
      Loaders.ClosedUnheld(Tallies(), n);
      AtWork(workers, n);
    }

    // ---------- How a thread follows the host ----------

    method SetView(t: nat, v: View)
      requires Valid() && t < |views| && v.pool == views[t].pool
      requires LoadsOk(Tallies().(views := views[t := v]))
      modifies this`views
      ensures Valid() && views == old(views)[t := v]
    {
      hide JobsOk, TableOk, LoadsOk, Workload;
      views := views[t := v];
    }

    /** A thread looks at the host's clusters; it panics exactly when it has another incarnation of one. */
    method LookAt(t: nat) returns (clash: bool)
      requires Valid() && t < |views| && views[t].phase == Rest
      modifies this`views
      ensures Valid() && (clash <==> exists c :: Outdated(old(views)[t], hosted, c))
      ensures views == if clash || old(views)[t].index == index then old(views)
                       else old(views)[t := Look(old(views)[t], hosted, index)]
      ensures !clash ==> views[t].index == index && views[t].part == old(views)[t].part
    {
      hide JobsOk, TableOk, LoadsOk, Workload, ViewOk;
      clash := false;
      if views[t].index == index {
        forall c ensures !Outdated(views[t], hosted, c) {
          UnchangedView(Tallies(), t, c);
        }
        return;
      }
      clash := exists c :: c in hosted && Outdated(views[t], hosted, c);
      if !clash {
        LookOk(Tallies(), t);
        SetView(t, Look(views[t], hosted, index));
      }
    }

    /** A thread publishes the list of what it saw. */
    method PublishList(t: nat)
      requires Valid() && t < |views| && views[t].phase == Looked
      requires t == 0 || views[t].seen.Keys <= views[t].own.Keys
      modifies this`views
      ensures Valid() && views == old(views)[t := Publish(old(views)[t])]
    {
      hide JobsOk, TableOk, LoadsOk, Workload;
      PublishOk(Tallies(), t);
      SetView(t, Publish(views[t]));
    }

    /**
     A thread loads a replica it saw; the pool, once nothing is left that it has to let go of. If it has been
     closed meanwhile, it now has a holder again.
     */
    method TakeSeen(t: nat, c: nat)
      requires Valid() && t < |views| && CanTake(views[t], c)
      modifies this`views, this`count, this`revived
      ensures Valid() && views == old(views)[t := Take(old(views)[t], c)]
      ensures views[t].pool ==> views[t].phase == Published && forall x :: x in views[t].own ==> x in views[t].seen
      ensures !views[t].pool ==> views[t].phase == Looked
      ensures var n := old(views)[t].seen[c];
              && revived == (if n in closed then old(revived) + {n} else old(revived))
              && n in old(count) && count == old(count)[n := old(count)[n] + 1]
    {
      hide JobsOk, TableOk, LoadsOk, Workload;
      TakenOk(Tallies(), t, c);
      var n := views[t].seen[c];
      count := count[n := count[n] + 1];
      revived := if n in closed then revived + {n} else revived;
      views := views[t := Take(views[t], c)];
    }

    /** A thread lets go of a replica that is gone. */
    method DropGone(t: nat, c: nat) returns (again: bool)
      requires Valid() && t < |views| && CanDrop(views[t], c)
      modifies this`views, this`count, this`closed
      ensures Valid() && views == old(views)[t := Drop(old(views)[t], c)]
      ensures var n := old(views)[t].own[c];
              && n in old(count) && old(count)[n] > 0 && (again <==> n in old(closed) && old(count)[n] == 1)
              && count == old(count)[n := old(count)[n] - 1]
              && closed == if old(count)[n] == 1 then old(closed) + {n} else old(closed)
    {
      hide JobsOk, TableOk, LoadsOk, Workload;
      DroppedOk(Tallies(), t, c);
      again := Unload(views[t].own[c]);
      views := views[t := Drop(views[t], c)];
    }

    /** A thread has loaded what it saw and nothing else. */
    method FinishLoading(t: nat)
      requires Valid() && t < |views| && views[t].phase == Published && views[t].own.Keys == views[t].seen.Keys
      modifies this`views
      ensures Valid() && views == old(views)[t := old(views)[t].(phase := Rest)]
    {
      hide JobsOk, TableOk, LoadsOk, Workload;
      FinishOk(Tallies(), t);
      SetView(t, views[t].(phase := Rest));
    }

    // ---------- The node's queue ----------

    /** A snapshot is sent to another replica: only a state machine on disk streams it. */
    method SendSnapshot(n: nat)
      requires Valid() && n in nodes
      modifies this`nodes, this`where
      ensures Valid()
      ensures nodes == if old(nodes)[n].onDisk then old(nodes)[n := old(nodes)[n].(tasks := old(nodes)[n].tasks + [Stream])]
                       else old(nodes)
    {
      hide Valid;
      Facts(n, Save);
      if nodes[n].onDisk {
        PutNode(n, nodes[n].(tasks := nodes[n].tasks + [Stream]), Save, At(where, n, Save));
      }
    }

    /** A snapshot is asked for, or has been received. */
    method PushTask(n: nat, kind: Kind)
      requires Valid() && n in nodes && kind != Stream
      modifies this`nodes, this`where
      ensures Valid() && nodes == old(nodes)[n := old(nodes)[n].(tasks := old(nodes)[n].tasks + [kind])]
    {
      hide Valid;
      Facts(n, Save);
      PutNode(n, nodes[n].(tasks := nodes[n].tasks + [kind]), Save, At(where, n, Save));
    }

    // ---------- The apply thread ----------

    ghost predicate OnPc(n: nat, pc: Pc)
      reads this
    {
      Valid() && n in nodes && nodes[n].pc == pc
    }

    /** Only replica `n` has changed, and not which kind of state machine it is. */
    twostate predicate OnlyNode(n: nat)
      reads this
    {
      && n in old(nodes) && nodes.Keys == old(nodes).Keys
      && (forall a :: a in nodes && a != n ==> nodes[a] == old(nodes)[a])
      && nodes[n].concurrent == old(nodes)[n].concurrent && nodes[n].onDisk == old(nodes)[n].onDisk
    }

    method PutNode(n: nat, m: Node, k: Kind, ghost p: Place)
      requires Valid() && n in nodes && NodeOk(m) && TokenOk(m, p, k)
      requires forall i :: i != k ==> TokenOk(m, At(where, n, i), i)
      requires p == At(where, n, k) || Elsewhere(At(where, n, k))
      modifies this`nodes, this`where
      ensures Valid() && nodes == old(nodes)[n := m] && where == Moved(old(where), n, k, p)
    {
      hide NodesOk, PendingOk, WorkersOk, LedgerOk, BusyOk, TableOk, NodeOk, TokenOk, LoadsOk, Workload;
      NodeStep(nodes, ids, pending, workers, where, n, m, k, p);
      nodes, where := nodes[n := m], Moved(where, n, k, p);
    }

    lemma Facts(n: nat, k: Kind)
      requires Valid() && n in nodes
      ensures NodeOk(nodes[n]) && TokenOk(nodes[n], At(where, n, k), k)
      ensures forall i :: TokenOk(nodes[n], At(where, n, i), i)
    {
    }

    /** A finished save lowers its flag; an unfinished one holds up a state machine that cannot run beside it. */
    method ProcessSaveStatus(n: nat) returns (panicked: bool)
      requires OnPc(n, AtSave)
      modifies this`nodes, this`where
      ensures Valid() && !panicked && OnlyNode(n)
      ensures nodes[n].pc == if Save in nodes[n].flags && !nodes[n].concurrent then AtSave else AtStream
      ensures Lowered(old(nodes)[n], nodes[n], Save) && nodes[n].initialized == old(nodes)[n].initialized
      ensures Save in old(nodes)[n].flags && Save in old(nodes)[n].done ==> old(nodes)[n].initialized
    {
      hide Valid;
      Facts(n, Save);
      var m := nodes[n];
      panicked := false;
      if Save in m.flags {
        if Save in m.done {
          if !m.initialized {
            panicked := true;
          }
          PutNode(n, m.(flags := m.flags - {Save}, done := m.done - {Save}, pc := AtStream), Save, Nowhere);
        } else if m.concurrent {
          PutNode(n, m.(pc := AtStream), Save, At(where, n, Save));
        } else {
          PutNode(n, m.(pc := AtSave), Save, At(where, n, Save));
        }
      } else {
        PutNode(n, m.(pc := AtStream), Save, At(where, n, Save));
      }
    }

    method ProcessStreamStatus(n: nat) returns (panicked: bool)
      requires OnPc(n, AtStream)
      modifies this`nodes, this`where
      ensures Valid() && !panicked && OnlyNode(n) && nodes[n].pc == AtRecover
      ensures Lowered(old(nodes)[n], nodes[n], Stream) && nodes[n].initialized == old(nodes)[n].initialized
      ensures Stream in old(nodes)[n].flags ==> old(nodes)[n].onDisk
    {
      hide Valid;
      Facts(n, Stream);
      var m := nodes[n];
      panicked := false;
      if Stream in m.flags {
        if !m.onDisk {
          panicked := true;
        }
        if Stream in m.done {
          PutNode(n, m.(flags := m.flags - {Stream}, done := m.done - {Stream}, pc := AtRecover), Stream, Nowhere);
          return;
        }
      }
      PutNode(n, m.(pc := AtRecover), Stream, At(where, n, Stream));
    }

    /** A finished recovery lowers its flag; until then the replica is skipped. */
    method ProcessRecoverStatus(n: nat)
      requires OnPc(n, AtRecover)
      modifies this`nodes, this`where
      ensures Valid() && OnlyNode(n)
      ensures nodes[n].pc == if Recover in nodes[n].flags then AtSave else AtInit
      ensures Lowered(old(nodes)[n], nodes[n], Recover)
      ensures nodes[n].initialized <==> old(nodes)[n].initialized || Recover in old(nodes)[n].done
    {
      hide Valid;
      Facts(n, Recover);
      var m := nodes[n];
      if Recover in m.flags {
        if Recover in m.done {
          var init := m.initialized || m.done[Recover];
          PutNode(n, m.(flags := m.flags - {Recover}, done := m.done - {Recover}, initialized := init, pc := AtInit),
                  Recover, Nowhere);
        } else {
          PutNode(n, m.(pc := AtSave), Recover, At(where, n, Recover));
        }
      } else {
        PutNode(n, m.(pc := AtInit), Recover, At(where, n, Recover));
      }
    }

    /** A replica that is not initialized first asks for its initial recovery. */
    method ProcessUninitialized(n: nat) returns (panicked: bool)
      requires OnPc(n, AtInit)
      modifies this`nodes, this`where
      ensures Valid() && !panicked && OnlyNode(n)
      ensures nodes[n].pc == if old(nodes)[n].initialized then Handling else AtSave
      ensures if old(nodes)[n].initialized then nodes[n] == old(nodes)[n].(pc := Handling)
              else Raised(old(nodes)[n], nodes[n], Recover) && Recover !in old(nodes)[n].ready
    {
      hide Valid;
      Facts(n, Recover);
      var m := nodes[n];
      panicked := false;
      if m.initialized {
        PutNode(n, m.(pc := Handling), Recover, At(where, n, Recover));
      } else {
        if Recover in m.ready {
          panicked := true;
        }
        PutNode(n, m.(flags := m.flags + {Recover}, ready := m.ready + {Recover}, pc := AtSave), Recover, InReady);
      }
    }

    /** The state machine has applied a batch; if it reached a snapshot task, that one is next. */
    method HandleTask(n: nat, reached: bool)
      requires OnPc(n, Handling)
      modifies this`nodes, this`where
      ensures Valid() && OnlyNode(n)
      ensures var m := old(nodes)[n];
              nodes[n] == if reached && m.tasks != [] then m.(tasks := m.tasks[1..], pc := Deliver(m.tasks[0]))
                          else m.(pc := AtSave)
    {
      hide Valid;
      Facts(n, Save);
      var m := nodes[n];
      if reached && m.tasks != [] {
        assert m.tasks[0] in m.tasks;
        PutNode(n, m.(tasks := m.tasks[1..], pc := Deliver(m.tasks[0])), Save, At(where, n, Save));
      } else {
        PutNode(n, m.(pc := AtSave), Save, At(where, n, Save));
      }
    }

    /** Raises a flag and fills its mailbox, unless such a request is already under way. */
    method HandleSnapshotTask(n: nat, readyToStream: bool) returns (panicked: bool)
      requires Valid() && n in nodes && nodes[n].pc.Deliver?
      modifies this`nodes, this`where
      ensures Valid() && !panicked && OnlyNode(n) && nodes[n].pc == AtSave
      ensures var k := old(nodes)[n].pc.kind;
              if k in old(nodes)[n].flags || (k == Stream && !readyToStream)
              then nodes[n] == old(nodes)[n].(pc := AtSave)
              else Raised(old(nodes)[n], nodes[n], k) && k !in old(nodes)[n].ready
      ensures Recover !in old(nodes)[n].flags
    {
      hide Valid;
      Facts(n, nodes[n].pc.kind);
      var m := nodes[n];
      var k := m.pc.kind;
      panicked := Recover in m.flags;
      if (k == Save && Save in m.flags) || (k == Stream && (Stream in m.flags || !readyToStream)) {
        PutNode(n, m.(pc := AtSave), k, At(where, n, k));
        return;
      }
      if k in m.ready {
        panicked := true;
      }
      PutNode(n, m.(flags := m.flags + {k}, ready := m.ready + {k}, pc := AtSave), k, InReady);
    }

    // ---------- The pool ----------

    /** Takes a request out of its mailbox and queues it as a job, if the replica is loaded. */
    method CollectJob(cid: nat, kind: Kind)
      requires Valid()
      modifies this`nodes, this`pending, this`where
      ensures Valid()
      ensures var current := Current();
              if cid in current && current[cid] in old(nodes) && kind in old(nodes)[current[cid]].ready
              then && pending == old(pending) + [Job(current[cid], cid, kind)]
                   && nodes == old(nodes)[current[cid] :=
                        old(nodes)[current[cid]].(ready := old(nodes)[current[cid]].ready - {kind})]
              else pending == old(pending) && nodes == old(nodes)
      ensures cid in Current() ==> Current()[cid] in nodes
    {
      hide LedgerOk, BusyOk, NodesOk, PendingOk, WorkersOk, LoadsOk, TableOk, Workload;
      PooledKnown();
      if cid in views[0].own && kind in nodes[views[0].own[cid]].ready {
        var n := views[0].own[cid];
        CollectOk(nodes, ids, pending, workers, where, n, kind);
        nodes := nodes[n := nodes[n].(ready := nodes[n].ready - {kind})];
        pending := pending + [Job(n, cid, kind)];
        where := Moved(where, n, kind, InPending);
      }
    }

    lemma PooledKnown()
      requires Valid()
      ensures forall c {:trigger views[0].own[c]} :: c in views[0].own ==>
                views[0].own[c] in nodes && ids[views[0].own[c]].cid == c
    {
      assert ViewOk(ids, hosted, index, views[0]);
    }

    /** The first idle worker. */
    method GetWorker() returns (w: nat)
      requires Valid()
      ensures w <= |workers| && (w < |workers| ==> workers[w] == Idle)
      ensures forall i :: 0 <= i < w ==> workers[i] != Idle
    {
      w := 0;
      while w < |workers| && w in busy
        invariant w <= |workers| && forall i :: 0 <= i < w ==> workers[i] != Idle
      {
        w := w + 1;
      }
    }

    /** Records that a job of a cluster has begun; a second save or recovery beside the first one panics. */
    method RecordStart(j: Job) returns (panicked: bool)
      modifies this`saving, this`recovering, this`streaming
      ensures panicked <==> (j.kind == Save && j.cid in old(saving)) || (j.kind == Recover && j.cid in old(recovering))
      ensures Books() == Begun(old(Books()), j.cid, j.kind)
    {
      panicked := false;
      match j.kind {
        case Recover =>
          panicked := j.cid in recovering;
          recovering := recovering + {j.cid};
        case Save =>
          panicked := j.cid in saving;
          saving := saving + {j.cid};
        case Stream =>
          streaming := streaming[j.cid := if j.cid in streaming then streaming[j.cid] + 1 else 1];
      }
    }

    /** Records that the job of a cluster has ended; it must be found under one kind only. */
    method RecordEnd(c: nat, ghost k: Kind) returns (panicked: bool)
      modifies this`saving, this`recovering, this`streaming
      ensures !panicked <==>
              && One(c in old(saving)) + One(c in old(recovering)) + One(c in old(streaming)) == 1
              && (c in old(streaming) ==> old(streaming)[c] > 0)
      ensures c in old(match k case Save => saving case Recover => recovering case Stream => streaming.Keys) ==>
                panicked || Books() == Ended(old(Books()), c, k)
    {
      var kinds := 0;
      panicked := false;
      if c in saving {
        saving := saving - {c};
        kinds := kinds + 1;
      }
      if c in recovering {
        recovering := recovering - {c};
        kinds := kinds + 1;
      }
      if c in streaming {
        if streaming[c] == 0 {
          panicked := true;
        } else if streaming[c] == 1 {
          streaming := streaming - {c};
        } else {
          streaming := streaming[c := streaming[c] - 1];
        }
        kinds := kinds + 1;
      }
      panicked := panicked || kinds != 1;
    }

    /** Publishes the list of busy replicas by cluster; of several for a cluster any one may stay. */
    method PublishBusy()
      requires forall w :: w in busy ==> busy[w] in ids
      modifies this`busyTable
      ensures TableOk(ids, busy, busyTable)
    {
      var todo, table: map<nat, nat> := busy.Keys, map[];
      while todo != {}
        invariant todo <= busy.Keys
        invariant forall c {:trigger table[c]} :: c in table ==>
                    table[c] in ids && ids[table[c]].cid == c && exists w :: w in busy && busy[w] == table[c]
        invariant forall w {:trigger busy[w]} :: w in busy && w !in todo ==> ids[busy[w]].cid in table
        decreases todo
      {
        assert exists w :: w in todo by { SomeKey(todo); }
        var w :| w in todo;
        todo := todo - {w};
        table := table[ids[busy[w]].cid := busy[w]];
      }
      busyTable := table;
    }

    /** Books a job and hands it to an idle worker. */
    method Assign(p: nat, w: nat) returns (panicked: bool)
      requires JobsOk() && p < |pending| && w < |workers| && workers[w] == Idle && CanSchedule(Books(), pending[p])
      modifies this`workers, this`busy, this`saving, this`recovering, this`streaming, this`where, this`pending
      ensures JobsOk() && !panicked && workers == old(workers)[w := Given(old(pending)[p])]
      ensures Books() == Begun(old(Books()), old(pending)[p].cid, old(pending)[p].kind)
      ensures pending == Without(old(pending), p) && forall v :: v in busy ==> busy[v] in ids
      ensures w !in old(busy) && busy == old(busy)[w := old(pending)[p].nid]
    {
      hide LedgerOk, NodesOk, PendingOk, WorkersOk, BusyOk, Begun, Without, Moved;
      var j := pending[p];
      StartOk(nodes, ids, pending, workers, where, p, w);
      BeginOk(workers, Books(), w, j);
      BusyStarted(workers, busy, w, j);
      panicked := w in busy || workers[w] != Idle;
      busy := busy[w := j.nid];
      var again := RecordStart(j);
      panicked := panicked || again;
      workers := workers[w := Given(j)];
      pending := Without(pending, p);
      where := Moved(where, j.nid, j.kind, AtWorker(w));
      BusyKnown(ids, workers, busy, where);
    }

    /** A job goes to an idle worker, which holds the replica until it is done. */
    method StartJob(p: nat, w: nat) returns (panicked: bool)
      requires Valid() && p < |pending| && w < |workers| && workers[w] == Idle
      requires CanSchedule(Books(), pending[p]) && AtPlace(Current(), pending[p].cid, pending[p].nid)
      modifies this`workers, this`busy, this`saving, this`recovering, this`streaming, this`where, this`pending, this`count
      modifies this`busyTable
      ensures Valid() && !panicked
      ensures workers == old(workers)[w := Given(old(pending)[p])]
      ensures Books() == Begun(old(Books()), old(pending)[p].cid, old(pending)[p].kind)
      ensures pending == Without(old(pending), p)
    {
      hide *;
      var n := pending[p].nid;
      HoldForJob(p, w);
      count := count[n := count[n] + 1];
      panicked := Assign(p, w);
      PublishBusy();
      assert Valid() by { Assembled(); }
    }

    lemma Assembled()
      requires JobsOk() && TableOk(ids, busy, busyTable) && Threads()
      requires LoadsOk(Loads(ids, hosted, index, views, Workload(workers), count, closed, revived))
      ensures Valid()
    {
    }

    /** The replica of a queued job that the pool has loaded gets one more holder. */
    lemma HoldForJob(p: nat, w: nat)
      requires Valid() && p < |pending| && w < |workers| && workers[w] == Idle
      requires AtPlace(Current(), pending[p].cid, pending[p].nid)
      ensures JobsOk() && TableOk(ids, busy, busyTable) && Threads()
      ensures var n := pending[p].nid;
              n in count && LoadsOk(Loads(ids, hosted, index, views, Workload(workers[w := Given(pending[p])]),
                                          count[n := count[n] + 1], closed, revived))
    {
      hide TableOk, LoadsOk, Workload;
      QueuedKnown(p);
      hide JobsOk;
      JobStarted(Tallies(), pending[p].nid, 0);
      WorkloadMore(workers, w, pending[p]);
    }

    lemma QueuedKnown(p: nat)
      requires JobsOk() && p < |pending|
      ensures pending[p].nid in ids && ids[pending[p].nid].cid == pending[p].cid
    {
      assert JobOk(ids, pending[p]);
    }

    /** Drops a queued job whose replica is gone. */
    method DropJob(p: nat)
      requires Valid() && p < |pending|
      modifies this`pending
      ensures Valid() && pending == Without(old(pending), p)
    {
      hide LedgerOk, NodesOk, WorkersOk, BusyOk, LoadsOk, TableOk, Workload, Threads;
      DropOk(ids, pending, where, p);
      pending := pending[..p] + pending[p + 1..];
    }

    /** The first queued job that can go on: its replica is gone or its cluster is free for it. */
    method NextJob() returns (p: nat)
      requires Valid()
      ensures p <= |pending|
      ensures forall q :: 0 <= q < p ==> pending[q].cid in Current() && Hindered(workers, pending[q])
      ensures p < |pending| && pending[p].cid in Current() ==>
                !Hindered(workers, pending[p]) && CanSchedule(Books(), pending[p])
    {
      hide *;
      p := 0;
      while p < |pending| && pending[p].cid in Current() && !CanSchedule(Books(), pending[p])
        invariant p <= |pending|
        invariant forall q :: 0 <= q < p ==> pending[q].cid in Current() && Hindered(workers, pending[q])
      {
        Free(pending[p]);
        p := p + 1;
      }
      if p < |pending| {
        Free(pending[p]);
      }
    }

    lemma Free(j: Job)
      requires Valid()
      ensures CanSchedule(Books(), j) <==> !Hindered(workers, j)
    {
      FreeToStart(workers, Books(), j);
    }

    /** Starts or drops one queued job; false when nothing more can be done now. */
    method ScheduleWorker() returns (more: bool, panicked: bool)
      requires Valid()
      modifies this`workers, this`busy, this`saving, this`recovering, this`streaming, this`where, this`pending, this`count
      modifies this`busyTable
      ensures Valid() && !panicked && |workers| == |old(workers)|
      ensures more ==> exists p, w :: Advanced(old(pending), pending, old(workers), workers, Current(), p, w)
      ensures !more ==> AllScheduled() && pending == old(pending) && workers == old(workers)
    {
      hide Valid, Current, Books, CanSchedule, Hindered;
      more, panicked := false, false;
      if |pending| == 0 {
        return;
      }
      var w := GetWorker();
      if w == |workers| {
        return;
      }
      var p := NextJob();
      if p == |pending| {
        return;
      }
      more := true;
      if Stale(Current(), pending[p]) {
        DropJob(p);
      } else {
        panicked := StartJob(p, w);
      }
      assert Advanced(old(pending), pending, old(workers), workers, Current(), p, w);
    }

    /** No idle worker stands beside a job that could start. */
    ghost predicate AllScheduled()
      reads this
    {
      || (forall i :: 0 <= i < |workers| ==> workers[i] != Idle)
      || (forall p :: 0 <= p < |pending| ==> pending[p].cid in Current() && Hindered(workers, pending[p]))
    }

    method Schedule() returns (panicked: bool)
      requires Valid()
      modifies this`workers, this`busy, this`saving, this`recovering, this`streaming, this`where, this`pending, this`count
      modifies this`busyTable
      ensures Valid() && !panicked && AllScheduled()
      ensures Handed(old(pending), pending, old(workers), workers, Current())
    {
      hide Valid, Advanced;
      panicked := false;
      var more := true;
      while more
        invariant Valid() && !panicked && (!more ==> AllScheduled())
        invariant Handed(old(pending), pending, old(workers), workers, Current())
        decreases |pending| + if more then 1 else 0
      {
        hide AllScheduled, Handed;
        ghost var q, v := pending, workers;
        more, panicked := ScheduleWorker();
        if more {
          ghost var p, w :| Advanced(q, pending, v, workers, Current(), p, w);
          HandedMore(old(pending), q, pending, old(workers), v, workers, Current(), p, w);
        }
      }
    }

    /** The record of a finished job is closed and its worker is idle again. */
    method Release(w: nat) returns (panicked: bool)
      requires JobsOk() && w < |workers| && workers[w].Signalled?
      modifies this`workers, this`busy, this`saving, this`recovering, this`streaming
      ensures JobsOk() && !panicked && workers == old(workers)[w := Idle]
      ensures Books() == Ended(old(Books()), old(workers)[w].job.cid, old(workers)[w].job.kind)
      ensures w in old(busy) && old(busy)[w] == old(workers)[w].job.nid && forall v :: v in busy ==> busy[v] in ids
      ensures busy == old(busy) - {w}
    {
      hide LedgerOk, NodesOk, PendingOk, WorkersOk, BusyOk, Ended;
      ghost var job := workers[w].job;
      JobRecorded(workers, Books(), w);
      StreamsPositive(workers, Books(), job.cid);
      EndOk(workers, Books(), w);
      BusyEnded(ids, workers, busy, where, w);
      panicked := RecordEnd(ids[busy[w]].cid, job.kind);
      busy := busy - {w};
      workers := workers[w := Idle];
      BusyKnown(ids, workers, busy, where);
    }

    /** A worker has reported: it is idle again and gives its replica up. */
    method Completed(w: nat) returns (panicked: bool, again: bool)
      requires Valid() && w < |workers| && workers[w].Signalled?
      modifies this`workers, this`busy, this`saving, this`recovering, this`streaming, this`count, this`closed
      modifies this`busyTable
      ensures Valid() && !panicked && workers == old(workers)[w := Idle]
      ensures Books() == Ended(old(Books()), old(workers)[w].job.cid, old(workers)[w].job.kind)
      ensures var n := old(workers)[w].job.nid;
              n in old(count) && old(count)[n] > 0 && (again <==> n in old(closed) && old(count)[n] == 1)
    {
      hide JobsOk, LoadsOk, TableOk, Ended, Workload;
      var n := workers[w].job.nid;
      WorkloadLess(workers, w);
      JobEnded(Tallies(), n);
      panicked := Release(w);
      PublishBusy();
      again := Unload(n);
    }

    // ---------- A worker ----------

    method BeginWork(w: nat)
      requires Valid() && w < |workers| && workers[w].Given?
      modifies this`workers
      ensures Valid() && workers == old(workers)[w := Running(old(workers)[w].job)]
    {
      hide LedgerOk, NodesOk, PendingOk, LoadsOk, TableOk, Workload;
      SameJobOk(workers, Books(), w, Running(workers[w].job));
      WorkloadSame(workers, w, Running(workers[w].job));
      workers := workers[w := Running(workers[w].job)];
    }

    method PostResult(w: nat) returns (panicked: bool)
      requires JobsOk() && w < |workers| && workers[w].Running?
      modifies this`workers, this`nodes, this`where
      ensures JobsOk() && !panicked && workers == old(workers)[w := Notified(old(workers)[w].job)]
      ensures OnlyNode(old(workers)[w].job.nid)
      ensures var j := old(workers)[w].job;
              var m := old(nodes)[j.nid];
              j.kind !in m.done && nodes[j.nid] == m.(done := m.done[j.kind := j.kind == Recover && !m.initialized])
    {
      hide LedgerOk, NodesOk, PendingOk, Moved;
      var j := workers[w].job;
      assert WorkerOk(ids, workers[w], w, where);
      var m := nodes[j.nid];
      panicked := j.kind in m.done;
      NotifyOk(nodes, ids, pending, workers, where, w);
      SameJobOk(workers, Books(), w, Notified(j));
      hide WorkersOk;
      nodes := nodes[j.nid := m.(done := m.done[j.kind := j.kind == Recover && !m.initialized])];
      workers := workers[w := Notified(j)];
      where := Moved(where, j.nid, j.kind, InDone);
    }

    /** The work is done: the result goes into the replica's mailbox. */
    method Notify(w: nat) returns (panicked: bool)
      requires Valid() && w < |workers| && workers[w].Running?
      modifies this`workers, this`nodes, this`where
      ensures Valid() && !panicked && workers == old(workers)[w := Notified(old(workers)[w].job)]
      ensures OnlyNode(old(workers)[w].job.nid)
      ensures var j := old(workers)[w].job;
              var m := old(nodes)[j.nid];
              j.kind !in m.done && nodes[j.nid] == m.(done := m.done[j.kind := j.kind == Recover && !m.initialized])
    {
      hide JobsOk, TableOk, LoadsOk, Threads, Workload, OnlyNode;
      WorkloadSame(workers, w, Notified(workers[w].job));
      panicked := PostResult(w);
    }

    method Signal(w: nat)
      requires Valid() && w < |workers| && workers[w].Notified?
      modifies this`workers
      ensures Valid() && workers == old(workers)[w := Signalled(old(workers)[w].job)]
    {
      hide LedgerOk, NodesOk, PendingOk, LoadsOk, TableOk, Workload;
      SameJobOk(workers, Books(), w, Signalled(workers[w].job));
      WorkloadSame(workers, w, Signalled(workers[w].job));
      workers := workers[w := Signalled(workers[w].job)];
    }

    // ---------- A whole reload ----------

    /** Only what thread `t` has loaded has changed. */
    twostate predicate OnlyOwn(t: nat)
      reads this
    {
      && t < |old(views)| && |views| == |old(views)|
      && views == old(views)[t := old(views)[t].(own := views[t].own)]
    }

    method TakeAll(t: nat)
      requires Valid() && t < |views| && views[t].phase == (if t == 0 then Published else Looked)
      requires t == 0 ==> views[t].own.Keys <= views[t].seen.Keys
      modifies this`views, this`count, this`revived
      ensures Valid() && OnlyOwn(t) && old(revived) <= revived
      ensures views[t].own.Keys == old(views)[t].own.Keys + views[t].seen.Keys
    {
      hide Valid;
      var todo := views[t].seen.Keys - views[t].own.Keys;
      PoolFirst();
      while todo != {}
        invariant Valid() && OnlyOwn(t) && old(revived) <= revived && todo == views[t].seen.Keys - views[t].own.Keys
        invariant views[t].own.Keys + todo == old(views)[t].own.Keys + views[t].seen.Keys
        decreases todo
      {
        assert exists c :: c in todo by { SomeKey(todo); }
        var c :| c in todo;
        todo := todo - {c};
        TakeSeen(t, c);
      }
    }

    method DropAll(t: nat) returns (again: bool)
      requires Valid() && t < |views| && views[t].phase == Published
      modifies this`views, this`count, this`closed
      ensures Valid() && OnlyOwn(t) && views[t].own.Keys == old(views)[t].own.Keys * views[t].seen.Keys
      ensures again ==> revived != {}
      ensures again <==> exists c {:trigger old(views)[t].own[c]} ::
                c in old(views)[t].own && c !in views[t].seen && LastOfClosed(old(views)[t].own[c], old(count), old(closed))
    {
      hide Valid, LastOfClosed;
      again := false;
      ghost var own, count0, closed0 := views[t].own, count, closed;
      OwnIds(t);
      var todo := views[t].own.Keys - views[t].seen.Keys;
      while todo != {}
        invariant Valid() && OnlyOwn(t) && todo == views[t].own.Keys - views[t].seen.Keys
        invariant views[t].own.Keys - todo == own.Keys * views[t].seen.Keys
        invariant again ==> revived != {}
        invariant forall c {:trigger own[c]} :: c in todo ==>
                    && views[t].own[c] == own[c]
                    && (LastOfClosed(own[c], count, closed) <==> LastOfClosed(own[c], count0, closed0))
        invariant again <==> exists c {:trigger own[c]} ::
                    c in own && c !in views[t].seen && c !in todo && LastOfClosed(own[c], count0, closed0)
        decreases todo
      {
        assert exists c :: c in todo by { SomeKey(todo); }
        var c :| c in todo;
        todo := todo - {c};
        AgainRevived(views[t].own[c]);
        ghost var was, shut := count, closed;
        var twice := DropGone(t, c);
        assert twice <==> LastOfClosed(own[c], was, shut) by { LastMeans(own[c], was, shut); }
        forall d | d in todo ensures LastOfClosed(own[d], count, closed) <==> LastOfClosed(own[d], was, shut) {
          assert ids[own[d]].cid == d && ids[own[c]].cid == c;
          LastMeans(own[d], was, shut);
          LastMeans(own[d], count, closed);
        }
        again := again || twice;
      }
    }

    lemma OwnIds(t: nat)
      requires Valid() && t < |views|
      ensures forall c {:trigger views[t].own[c]} :: c in views[t].own ==>
                views[t].own[c] in ids && ids[views[t].own[c]].cid == c
    {
      assert ViewOk(ids, hosted, index, views[t]);
    }

    lemma PoolFirst()
      requires Valid()
      ensures |views| > 0 && forall t :: 0 <= t < |views| ==> (views[t].pool <==> t == 0)
    {
    }

    lemma AgainRevived(n: nat)
      requires Valid()
      ensures n in count && count[n] > 0 && n in closed ==> n in revived
    {
      if n in count && count[n] > 0 && n in closed {
        HeldThoughClosed(Tallies(), n);
      }
    }

    lemma ListKnown(t: nat, c: nat)
      requires Valid() && t < |views|
      ensures PhaseOk(views[t])
      ensures c in views[t].listed ==> views[t].listed[c] in ids && ids[views[t].listed[c]].cid == c
      ensures c in views[t].seen && c !in views[t].listed ==> views[t].phase == Looked
    {
      assert ViewOk(ids, hosted, index, views[t]);
      if c in views[t].listed {
        ListedKnown(ids, hosted, index, views[t], c);
      }
    }

    lemma ViewFacts(t: nat)
      requires Valid() && t < |views|
      ensures PhaseOk(views[t])
    {
      assert ViewOk(ids, hosted, index, views[t]);
    }

    /** A thread goes on with its reload, if it is in one, until it has loaded just what it saw. */
    method Complete(t: nat) returns (again: bool)
      requires Valid() && t < |views|
      modifies this`views, this`count, this`closed, this`revived
      ensures Valid() && |views| == |old(views)| && (again ==> revived != {})
      ensures var v := old(views)[t];
              views == old(views)[t := v.(own := v.seen, listed := v.seen, phase := Rest)]
    {
      hide Valid;
      again := false;
      ghost var v := views[t];
      ViewFacts(t);
      if views[t].phase == Rest {
        assert views == views[t := v];
        return;
      }
      if t != 0 && views[t].phase == Looked {
        TakeAll(t);
      }
      if views[t].phase == Looked {
        PublishList(t);
      }
      ViewFacts(t);
      PoolFirst();
      again := DropAll(t);
      ghost var late := revived;
      if t == 0 {
        TakeAll(t);
      }
      assert late <= revived;
      ViewFacts(t);
      assert views[t].own == views[t].seen;
      FinishLoading(t);
    }

    /**
     An undisturbed reload of a thread: it panics on two incarnations exactly when the host has another one of
     some cluster than the thread, and otherwise it has loaded the host's replicas of its clusters.
     */
    method LoadNodes(t: nat) returns (clash: bool, again: bool)
      requires Valid() && t < |views| && views[t].phase == Rest
      modifies this`views, this`count, this`closed, this`revived
      ensures Valid() && |views| == |old(views)|
      ensures clash <==> exists c :: c in hosted && c in old(views)[t].own && hosted[c] != old(views)[t].own[c]
      ensures !clash ==> views[t].phase == Rest && views[t].part == old(views)[t].part
      ensures !clash ==> forall c :: c in views[t].own <==>
                c in hosted && 0 < views[t].part.shards && c % views[t].part.shards == views[t].part.bucket
      ensures !clash ==> forall c :: c in views[t].own ==> views[t].own[c] == hosted[c]
      ensures again ==> revived != {}
    {
      hide *;
      ghost var was := views[t];
      again := false;
      OutdatedOwn(t);
      clash := LookAt(t);
      assert clash <==> exists c :: Outdated(was, hosted, c);
      if !clash {
        ViewSeen(t);
        again := Complete(t);
        MineOfAre(hosted, views[t].part);
      }
    }

    lemma OutdatedOwn(t: nat)
      requires Valid() && t < |views| && views[t].phase == Rest
      ensures (exists c :: Outdated(views[t], hosted, c)) <==>
              exists c :: c in hosted && c in views[t].own && hosted[c] != views[t].own[c]
    {
      ViewFacts(t);
      hide Valid;
      if c :| Outdated(views[t], hosted, c) {
        assert hosted[c] != views[t].own[c];
      }
      if c :| c in hosted && c in views[t].own && hosted[c] != views[t].own[c] {
        assert Outdated(views[t], hosted, c);
      }
    }

    lemma ViewSeen(t: nat)
      requires Valid() && t < |views| && views[t].index == index
      ensures views[t].seen == MineOf(hosted, views[t].part)
    {
      assert ViewOk(ids, hosted, index, views[t]);
    }

    // ---------- What every interleaving keeps ----------

    /** If the host is to be calm, it is. */
    ghost predicate Kept(calm: bool, fixed: map<nat, nat>)
      reads this`ids, this`hosted, this`views, this`revived
    {
      calm ==> CalmHost(ids, hosted, views, revived, fixed)
    }

    /** A thread has in view another incarnation of a cluster than the host, or a closed replica has been loaded. */
    ghost predicate Torn()
      reads this`hosted, this`views, this`revived
    {
      revived != {} || exists v, c :: v in views && Outdated(v, hosted, c)
    }

    /**
     Any steps of any threads, in any order. None of the panics on flags, mailboxes, workers and the ledger ever
     happens. A thread finds two incarnations, or a replica is closed twice, only on a torn host. If clusters are
     restarted only under the same id, and stopped only while no thread is on its way to them, the host is never
     torn and nothing at all panics.
     */
    method AnyInterleaving(calm: bool, fixed: map<nat, nat>) returns (panicked: bool, clash: bool)
      requires Valid() && Kept(calm, fixed)
      modifies this
      ensures Valid() && !panicked && Kept(calm, fixed) && (clash ==> Torn()) && (calm ==> !clash)
    {
      hide *;
      panicked, clash := false, false;
      var steps: int := *;
      while steps > 0 && !clash
        invariant Valid() && !panicked && Kept(calm, fixed) && (clash ==> Torn())
        decreases steps
      {
        steps := steps - 1;
        var thread: int, n: int, w: int, found: bool, kind: Kind := *, *, *, *, *;
        if n < 0 || w < 0 {
          continue;
        }
        if thread == 0 && n in nodes {
          panicked := ApplyStep(n, found);
        } else if thread == 1 && w < |workers| && workers[w] != Idle {
          panicked, clash := WorkerStep(w, calm, fixed);
        } else if thread == 2 {
          panicked := PoolStep(n, found, kind, calm, fixed);
        } else if thread == 3 && w < |views| {
          clash := ThreadStep(w, n, calm, fixed);
        } else {
          clash := HostStep(n, w, found, kind, calm, fixed);
        }
      }
      CalmWhole(calm, fixed);
    }

    lemma CalmWhole(calm: bool, fixed: map<nat, nat>)
      requires Valid() && Kept(calm, fixed)
      ensures calm ==> !Torn()
    {
      hide JobsOk, TableOk, Workload, CalmHost, LoadsOk;
      if calm {
        CalmSafe(Tallies(), fixed);
        NoneRevived(fixed);
        forall v, c | v in views ensures !Outdated(v, hosted, c) {
          var t :| 0 <= t < |views| && views[t] == v;
          assert !Outdated(views[t], hosted, c);
        }
      }
    }

    lemma NoneRevived(fixed: map<nat, nat>)
      requires CalmHost(ids, hosted, views, revived, fixed)
      ensures revived == {}
    {
    }

    /** One step of the apply thread of replica `n`, whatever its queue turns up. */
    method ApplyStep(n: nat, found: bool) returns (panicked: bool)
      requires Valid() && n in nodes
      modifies this`nodes, this`where
      ensures Valid() && !panicked
    {
      hide Valid;
      panicked := false;
      match nodes[n].pc {
        case AtSave => OnPcOf(n); panicked := ProcessSaveStatus(n);
        case AtStream => OnPcOf(n); panicked := ProcessStreamStatus(n);
        case AtRecover => OnPcOf(n); ProcessRecoverStatus(n);
        case AtInit => OnPcOf(n); panicked := ProcessUninitialized(n);
        case Handling => OnPcOf(n); HandleTask(n, found);
        case Deliver(_) => panicked := HandleSnapshotTask(n, found);
      }
    }

    /** One step of worker `w`, or the pool's answer to its signal. */
    method WorkerStep(w: nat, ghost calm: bool, ghost fixed: map<nat, nat>) returns (panicked: bool, clash: bool)
      requires Valid() && w < |workers| && workers[w] != Idle && Kept(calm, fixed)
      modifies this
      ensures Valid() && !panicked && Kept(calm, fixed) && (clash ==> Torn())
    {
      hide Valid, Kept;
      panicked, clash := false, false;
      match workers[w] {
        case Given(_) => BeginWork(w);
        case Running(_) => panicked := Notify(w);
        case Notified(_) => Signal(w);
        case Signalled(j) =>
          AgainRevived(j.nid);
          panicked, clash := Completed(w);
      }
    }

    /** One step of the pool that has followed the host: it queues a request, or starts or drops one job. */
    method PoolStep(cid: nat, collect: bool, kind: Kind, ghost calm: bool, ghost fixed: map<nat, nat>)
      returns (panicked: bool)
      requires Valid() && Kept(calm, fixed)
      modifies this
      ensures Valid() && !panicked && Kept(calm, fixed)
    {
      hide Valid, Kept;
      panicked := false;
      if |views| == 0 || views[0].phase != Rest {
        return;
      }
      if collect {
        CollectJob(cid, kind);
      } else {
        var more;
        more, panicked := ScheduleWorker();
      }
    }

    /** One step of a thread that follows the host. */
    method ThreadStep(t: nat, c: nat, ghost calm: bool, ghost fixed: map<nat, nat>) returns (clash: bool)
      requires Valid() && t < |views| && Kept(calm, fixed)
      modifies this`views, this`count, this`closed, this`revived
      ensures Valid() && Kept(calm, fixed) && (clash ==> Torn())
    {
      hide Valid, CalmHost, CalmView;
      clash := false;
      ghost var v := views[t];
      ThreadCalm(t, c, calm, fixed);
      if views[t].phase == Rest {
        clash := LookAt(t);
        if clash {
          ghost var x :| Outdated(v, hosted, x);
          assert views[t] in views;
          return;
        }
      } else if CanTake(views[t], c) {
        TakeSeen(t, c);
      } else if CanDrop(views[t], c) {
        AgainRevived(views[t].own[c]);
        clash := DropGone(t, c);
      } else if views[t].phase == Looked && (t == 0 || views[t].seen.Keys <= views[t].own.Keys) {
        PublishList(t);
      } else if views[t].phase == Published && views[t].own.Keys == views[t].seen.Keys {
        FinishLoading(t);
      }
    }

    /** On a calm host every step of a thread leaves it calm. */
    lemma ThreadCalm(t: nat, c: nat, calm: bool, fixed: map<nat, nat>)
      requires Valid() && t < |views| && Kept(calm, fixed)
      ensures calm && CanTake(views[t], c) ==> views[t].seen[c] !in closed
      ensures calm ==> && Kept(calm, fixed)
                       && CalmHost(ids, hosted, views[t := Look(views[t], hosted, index)], revived, fixed)
                       && CalmHost(ids, hosted, views[t := Publish(views[t])], revived, fixed)
                       && (CanDrop(views[t], c) ==> CalmHost(ids, hosted, views[t := Drop(views[t], c)], revived, fixed))
                       && CalmHost(ids, hosted, views[t := views[t].(phase := Rest)], revived, fixed)
      ensures calm && CanTake(views[t], c) ==> CalmHost(ids, hosted, views[t := Take(views[t], c)], revived, fixed)
    {
      if calm {
        ViewCalm(Tallies(), fixed, t, c);
      }
    }

    /** A step of the host. */
    method HostStep(n: nat, what: nat, flag: bool, kind: Kind, calm: bool, fixed: map<nat, nat>) returns (clash: bool)
      requires Valid() && Kept(calm, fixed)
      modifies this
      ensures Valid() && Kept(calm, fixed) && (clash ==> Torn())
    {
      hide Valid, CalmHost, Listed, Settled;
      clash := false;
      var other: bool, cid: int, rid: int := *, *, *;
      if what == 0 && n !in ids && cid >= 0 && rid >= 0 && (calm ==> cid in fixed && rid == fixed[cid]) {
        StartCalm(n, cid, calm, fixed);
        var _ := StartCluster(n, cid, rid, flag, other);
      } else if what == 1 && n in hosted && (calm ==> Settled(views, n)) {
        StopCalm(n, calm, fixed);
        AgainRevived(hosted[n]);
        clash := StopCluster(n);
      } else if what == 2 && n in nodes {
        SendSnapshot(n);
      } else if what == 3 && n in nodes && kind != Stream {
        PushTask(n, kind);
      }
    }

    lemma StartCalm(n: nat, cid: nat, calm: bool, fixed: map<nat, nat>)
      requires Valid() && Kept(calm, fixed) && n !in ids && (calm ==> cid in fixed)
      ensures calm && cid !in hosted && !Listed(ids, views, busyTable, cid, fixed[cid]) ==>
                CalmHost(ids[n := Ident(cid, fixed[cid])], hosted[cid := n], views, revived, fixed)
    {
      hide JobsOk, TableOk, Workload, CalmHost, LoadsOk, Listed;
      if calm && cid !in hosted && !Listed(ids, views, busyTable, cid, fixed[cid]) {
        CalmStart(Tallies(), fixed, busyTable, n, cid);
      }
    }

    lemma StopCalm(cid: nat, calm: bool, fixed: map<nat, nat>)
      requires Valid() && Kept(calm, fixed) && cid in hosted && (calm ==> Settled(views, cid))
      ensures hosted[cid] in count && count[hosted[cid]] > 0 && Kept(calm, fixed)
      ensures calm ==> CalmHost(ids, hosted - {cid}, views, revived, fixed)
    {
      hide JobsOk, TableOk, Workload, CalmHost, LoadsOk, Settled;
      StoppedOk(Tallies(), cid);
      if calm {
        CalmStop(Tallies(), fixed, cid);
      }
    }

    lemma OnPcOf(n: nat)
      requires Valid() && n in nodes
      ensures OnPc(n, nodes[n].pc)
    {
    }

    /**
     While a state machine applies entries, no worker is recovering it, and none is saving it
     unless it can save concurrently.
     */
    lemma ApplyAlone(n: nat, w: nat)
      requires Valid() && n in nodes && nodes[n].pc == Handling
      requires w < |workers| && (workers[w].Given? || workers[w].Running?) && workers[w].job.nid == n
      ensures workers[w].job.kind != Recover
      ensures workers[w].job.kind == Save ==> nodes[n].concurrent
    {
      assert WorkerOk(ids, workers[w], w, where);
      Facts(n, workers[w].job.kind);
    }

    /** Two workers share a cluster only to stream. */
    lemma ClusterAlone(w: nat, v: nat)
      requires Valid() && w < |workers| && v < |workers| && w != v
      requires workers[w] != Idle && workers[v] != Idle && workers[w].job.cid == workers[v].job.cid
      ensures workers[w].job.kind == workers[v].job.kind == Stream
    {
      ExclusiveJobs(workers, Books(), w, v);
    }
  }

  /**
   A cluster is started, and a thread that had in view nothing outdated ends its reload and looks again. It finds two
   incarnations exactly when the start was accepted while the thread had the cluster in view. Then its list
   names the cluster under another id, or it had seen the cluster and not yet published it, whatever the id.
   */
  method StartThenLook(h: Host, t: nat, n: nat, cid: nat, rid: nat, concurrent: bool, onDisk: bool) returns (clash: bool)
    requires h.Valid() && n !in h.ids && t < |h.views| && forall c :: !Outdated(h.views[t], h.hosted, c)
    modifies h
    ensures h.Valid()
    ensures clash <==> && cid !in old(h.hosted) && !Listed(old(h.ids), old(h.views), old(h.busyTable), cid, rid)
                       && cid in old(h.views)[t].seen
    ensures clash ==> var v := old(h.views)[t];
                      if cid in v.listed then v.listed[cid] in old(h.ids) && old(h.ids)[v.listed[cid]].rid != rid
                      else v.phase == Looked
  {
    hide *;
    ghost var v, ids, views, table := h.views[t], h.ids, h.views, h.busyTable;
    h.ListKnown(t, cid);
    var accepted := h.StartCluster(n, cid, rid, concurrent, onDisk);
    assert v in h.views && h.views == views;
    if accepted && cid in v.listed {
      OtherId(ids, views, table, t, cid, rid);
    }
    var again := h.Complete(t);
    SameSeen(v, h.views[t], h.hosted);
    ghost var w, hosted := h.views[t], h.hosted;
    assert forall c :: Outdated(w, hosted, c) <==> accepted && c == cid && cid in v.seen;
    clash := h.LookAt(t);
    assert h.hosted == hosted;
    assert clash ==> exists c :: Outdated(w, h.hosted, c);
    assert !clash ==> !Outdated(w, h.hosted, cid);
  }

  /** The host, with a pool and no other threads, has started replica 10 of cluster 1, and the pool has seen it. */
  method SeenByPool() returns (h: Host)
    ensures h.Valid() && fresh(h) && h.ids == map[10 := Ident(1, 1)] && h.hosted == map[1 := 10] && h.index == 1
    ensures h.views == [View(ALL, true, map[], map[], map[1 := 10], Looked, 1)]
    ensures h.count == map[10 := 1] && h.closed == {} && h.busyTable == map[]
  {
    hide Host.Valid, MineOf;
    h := new Host(1, []);
    assert h.views == [NewView(ALL, true)];
    AllMine(map[1 := 10]);
    NoneListed(h.views, 1, 1);
    var ok := h.StartCluster(10, 1, 1, true, true);
    var clash := h.LookAt(0);
  }

  lemma NoneListed(views: seq<View>, cid: nat, rid: nat)
    requires forall t :: 0 <= t < |views| ==> cid !in views[t].listed
    ensures forall ids :: !Listed(ids, views, map[], cid, rid)
  {
  }

  /**
   Started again under another id before the pool has followed, a cluster has two incarnations: the
   host does not notice, and the pool panics.
   */
  method TwoIncarnations() returns (h: Host, clash: bool)
    ensures h.Valid() && clash
  {
    hide Host.Valid, MineOf;
    h := SeenByPool();
    var again := h.Complete(0);
    again := h.StopCluster(1);
    assert !Listed(h.ids, h.views, h.busyTable, 1, 2);
    var ok := h.StartCluster(11, 1, 2, true, true);
    assert Outdated(h.views[0], h.hosted, 1);
    clash := h.LookAt(0);
  }

  /**
   The same under one and the same id: between the pool's look and its list the cluster is stopped and started
   again. Nobody lists the first incarnation, so the second is accepted, and the pool goes on to load the first.
   */
  method SameIdClash() returns (h: Host, clash: bool)
    ensures h.Valid() && clash && h.ids == map[10 := Ident(1, 1), 11 := Ident(1, 1)]
  {
    hide Host.Valid, MineOf;
    h := SeenByPool();
    var again := h.StopCluster(1);
    NoneListed(h.views, 1, 1);
    var ok := h.StartCluster(11, 1, 1, true, true);
    again := h.Complete(0);
    assert Outdated(h.views[0], h.hosted, 1);
    clash := h.LookAt(0);
  }

  /** A cluster stopped between the pool's look and its loading is closed, loaded, and in the end closed again. */
  method ClosedTwice() returns (h: Host, again: bool)
    ensures h.Valid() && again
  {
    hide Host.Valid, MineOf;
    h := SeenByPool();
    AllMine(map[]);
    again := h.StopCluster(1);
    h.PublishList(0);
    h.TakeSeen(0, 1);
    h.FinishLoading(0);
    assert h.closed == {10} && h.count == map[10 := 1];
    var clash := h.LookAt(0);
    h.PublishList(0);
    again := h.DropGone(0, 1);
  }

  lemma SomeKey(keys: set<nat>)
    ensures keys == {} || exists k :: k in keys
  {
    if forall k :: k !in keys {
      assert keys == {};
    }
  }

  // ---------- Steps between the pool, the mailboxes and the workers ----------

  lemma CollectOk(nodes: map<nat, Node>, ids: map<nat, Ident>, pending: seq<Job>, workers: seq<Worker>, where: Places,
                  n: nat, k: Kind)
    requires NodesOk(nodes, where) && PendingOk(ids, pending, where) && WorkersOk(ids, workers, where)
    requires n in nodes && n in ids && k in nodes[n].ready
    ensures var m := nodes[n].(ready := nodes[n].ready - {k});
            var next, moved := nodes[n := m], Moved(where, n, k, InPending);
            && NodesOk(next, moved) && WorkersOk(ids, workers, moved)
            && PendingOk(ids, pending + [Job(n, ids[n].cid, k)], moved)
  {
    var m := nodes[n].(ready := nodes[n].ready - {k});
    assert At(where, n, k) == InReady;
    forall i ensures TokenOk(nodes[n], At(where, n, i), i) {
    }
    NodeStep(nodes, ids, pending, workers, where, n, m, k, InPending);
    var moved := Moved(where, n, k, InPending);
    forall q | 0 <= q < |pending| ensures pending[q] != Job(n, ids[n].cid, k) {
      assert At(where, pending[q].nid, pending[q].kind) == InPending;
    }
    assert At(moved, n, k) == InPending;
  }

  lemma DropOk(ids: map<nat, Ident>, pending: seq<Job>, where: Places, p: nat)
    requires PendingOk(ids, pending, where) && p < |pending|
    ensures PendingOk(ids, pending[..p] + pending[p + 1..], where)
  {
    var rest := pending[..p] + pending[p + 1..];
    forall q | 0 <= q < |rest| ensures rest[q] == pending[if q < p then q else q + 1] {
    }
  }

  lemma StartOk(nodes: map<nat, Node>, ids: map<nat, Ident>, pending: seq<Job>, workers: seq<Worker>, where: Places,
                p: nat, w: nat)
    requires NodesOk(nodes, where) && PendingOk(ids, pending, where) && WorkersOk(ids, workers, where)
    requires p < |pending| && w < |workers| && workers[w] == Idle
    ensures var j := pending[p];
            var moved := Moved(where, j.nid, j.kind, AtWorker(w));
            && JobOk(ids, j) && NodesOk(nodes, moved) && PendingOk(ids, Without(pending, p), moved)
            && WorkersOk(ids, workers[w := Given(j)], moved)
  {
    var j := pending[p];
    var moved := Moved(where, j.nid, j.kind, AtWorker(w));
    forall a, i ensures At(moved, a, i) == if a == j.nid && i == j.kind then AtWorker(w) else At(where, a, i) {
    }
    forall a, i ensures if a in nodes then TokenOk(nodes[a], At(moved, a, i), i) else At(moved, a, i) == Nowhere {
      assert At(where, a, i) == At(where, a, i);
    }
    var rest := pending[..p] + pending[p + 1..];
    DropOk(ids, pending, where, p);
    forall q | 0 <= q < |rest| ensures rest[q] != j {
      assert rest[q] == pending[if q < p then q else q + 1];
    }
    forall q | 0 <= q < |rest| ensures At(moved, rest[q].nid, rest[q].kind) == InPending {
      assert JobOk(ids, rest[q]) && JobOk(ids, j);
    }
    var next := workers[w := Given(j)];
    forall i | 0 <= i < |next| ensures WorkerOk(ids, next[i], i, moved) {
      assert WorkerOk(ids, workers[i], i, where);
    }
  }

  lemma NotifyOk(nodes: map<nat, Node>, ids: map<nat, Ident>, pending: seq<Job>, workers: seq<Worker>, where: Places,
                 w: nat)
    requires NodesOk(nodes, where) && PendingOk(ids, pending, where) && WorkersOk(ids, workers, where)
    requires w < |workers| && workers[w].Running? && nodes.Keys == ids.Keys
    ensures workers[w].job.nid in nodes
    ensures var j := workers[w].job;
            var m := nodes[j.nid];
            var after := m.(done := m.done[j.kind := j.kind == Recover && !m.initialized]);
            var next, moved := nodes[j.nid := after], Moved(where, j.nid, j.kind, InDone);
            && j.kind !in m.done
            && NodesOk(next, moved) && PendingOk(ids, pending, moved)
            && WorkersOk(ids, workers[w := Notified(j)], moved)
  {
    assert WorkerOk(ids, workers[w], w, where);
    var j := workers[w].job;
    var m := nodes[j.nid];
    var after := m.(done := m.done[j.kind := j.kind == Recover && !m.initialized]);
    var next, moved := nodes[j.nid := after], Moved(where, j.nid, j.kind, InDone);
    forall a, i ensures At(moved, a, i) == if a == j.nid && i == j.kind then InDone else At(where, a, i) {
    }
    forall a, i ensures if a in next then TokenOk(next[a], At(moved, a, i), i) else At(moved, a, i) == Nowhere {
      assert At(where, a, i) == At(where, a, i);
    }
    forall a | a in next ensures NodeOk(next[a]) {
      assert NodeOk(nodes[a]);
    }
    forall q | 0 <= q < |pending|
      ensures JobOk(ids, pending[q]) && At(moved, pending[q].nid, pending[q].kind) == InPending
    {
      assert JobOk(ids, pending[q]);
    }
    var changed := workers[w := Notified(j)];
    forall i | 0 <= i < |changed| ensures WorkerOk(ids, changed[i], i, moved) {
      assert WorkerOk(ids, workers[i], i, where);
    }
  }

  lemma {:induction false} NoneWorking(workers: seq<Worker>, c: nat, k: Kind)
    requires forall i :: 0 <= i < |workers| ==> workers[i] == Idle
    ensures Count(workers, c, k) == 0
  {
    if workers != [] {
      NoneWorking(workers[..|workers| - 1], c, k);
    }
  }

  lemma NewNodeOk(nodes: map<nat, Node>, ids: map<nat, Ident>, pending: seq<Job>, workers: seq<Worker>, where: Places,
                  n: nat, m: Node, id: Ident)
    requires NodesOk(nodes, where) && PendingOk(ids, pending, where) && WorkersOk(ids, workers, where)
    requires n !in nodes && n !in ids && NodeOk(m) && m.flags == {} && m.ready == {} && m.done == map[]
    ensures var next, more := nodes[n := m], ids[n := id];
            NodesOk(next, where) && PendingOk(more, pending, where) && WorkersOk(more, workers, where)
  {
    var next, more := nodes[n := m], ids[n := id];
    forall a | a in next ensures NodeOk(next[a]) {
      assert a == n || next[a] == nodes[a];
    }
    forall a, i ensures if a in next then TokenOk(next[a], At(where, a, i), i) else At(where, a, i) == Nowhere {
    }
    forall w | 0 <= w < |workers| ensures WorkerOk(more, workers[w], w, where) {
      assert WorkerOk(ids, workers[w], w, where);
    }
  }

  lemma NewTableOk(ids: map<nat, Ident>, busy: map<nat, nat>, table: map<nat, nat>, n: nat, id: Ident)
    requires TableOk(ids, busy, table) && n !in ids
    ensures TableOk(ids[n := id], busy, table)
  {
  }
}
