/**
 The table of proposals waiting for their outcome. Proposers, the commit and apply
 paths, expiry and closing run concurrently; a method below is one atomic step of one
 of them. Proposals are named by their keys, which are fresh. Committed entries go
 through two queues: the commit worker tells the waiting requests of the commit and
 then passes the entries on to the apply worker. A method returns `true` where the
 code would panic because a one-place channel is full.
 */
module Proposals {

  datatype Code = Completed | Rejected | Dropped | Timeout | Terminated

  datatype Request = Request(client: nat, series: nat, deadline: nat)

  /** A proposer has entered its request but not yet queued the entry, or failed to queue it. */
  datatype Proposing = Entered | Unqueued

  /** A committed entry: this node's own, or another's that may even share a key. */
  datatype Entry = Entry(key: nat, client: nat, series: nat)

  /** The commit worker at its current entry: it has read the clock, and then found the request. */
  datatype Phase = Idle | Read(now: nat) | Found(now: nat)

  /** The entry the apply worker is at, with the time it read. */
  datatype Turn = NoTurn | Turn(entry: Entry, now: nat)

  /** The shared state, for stating what holds of each key. */
  datatype Table = Table(
    notifyCommit: bool, stopped: bool, locked: bool, pending: map<nat, Request>, queued: set<nat>,
    results: map<nat, Code>, signalled: set<nat>, proposing: map<nat, Proposing>, hand: map<nat, Code>,
    committed: map<nat, nat>, made: map<nat, Request>, pushed: set<nat>, tick: nat)

  /** The way of committed entries: keys of other nodes seen, the two queues and the workers. */
  datatype Line = Line(foreign: set<nat>, commitQ: seq<seq<Entry>>, taken: nat, pos: nat, phase: Phase,
                       applyQ: seq<Entry>, turn: Turn)

  predicate Applied(c: Code) { c == Completed || c == Rejected }

  ghost predicate EntryOk(t: Table, k: nat) {
    && (k in t.pending ==> k in t.made && t.made[k] == t.pending[k])
    && (k in t.hand ==> k !in t.pending && k !in t.results && k in t.queued)
    && (k in t.results && k in t.pending ==> t.stopped && !t.locked)
    && (k in t.queued || k in t.proposing || k in t.results ==> k in t.made)
    && (k in t.proposing ==> k !in t.queued)
    && (k in t.proposing && t.proposing[k] == Entered ==> k in t.pending || k in t.results)
  }

  /** An accepted proposal is waiting, in a notifier's hand, or notified; after closing it does not wait. */
  ghost predicate NotLost(t: Table, k: nat) {
    k in t.queued ==> k in t.hand || k in t.results || (k in t.pending && (t.stopped ==> t.locked))
  }

  /** An applied result goes only to a request that was told of the commit first. */
  ghost predicate CommitFirst(t: Table, k: nat) {
    && (k in t.signalled ==> k in t.committed)
    && (k in t.committed ==> k in t.queued && k in t.pushed && t.committed[k] <= t.tick)
    && (k in t.committed && k in t.made ==>
          k in t.signalled || t.stopped || k !in t.pending || t.made[k].deadline < t.committed[k])
    && (t.notifyCommit && k in t.hand && Applied(t.hand[k]) ==> k in t.signalled)
    && (t.notifyCommit && k in t.results && Applied(t.results[k]) ==> k in t.signalled)
  }

  ghost predicate KeyOk(t: Table, k: nat) { EntryOk(t, k) && NotLost(t, k) && CommitFirst(t, k) }

  ghost predicate KeysOk(t: Table) {
    forall k {:trigger KeyOk(t, k)} :: KeyOk(t, k)
  }

  /** A waiting request has not been notified while the table is open or closing. */
  lemma NoneNotified(t: Table)
    requires KeysOk(t) && (t.stopped ==> t.locked)
    ensures forall k :: k in t.pending ==> k !in t.results
  {
    forall k | k in t.pending ensures k !in t.results {
      assert KeyOk(t, k);
    }
  }

  lemma Expire(t: Table, k: nat)
    requires KeysOk(t) && !t.stopped && k in t.pending
    ensures k !in t.results
    ensures KeysOk(t.(results := t.results[k := Timeout], pending := t.pending - {k}))
  {
    var u := t.(results := t.results[k := Timeout], pending := t.pending - {k});
    assert KeyOk(t, k);
    forall i ensures KeyOk(u, i) {
      assert KeyOk(t, i);
    }
  }

  /** What a collection did to one request: nothing, or it was overdue and has been told. */
  ghost predicate Collected(k: nat, was: map<nat, Request>, told: map<nat, Code>,
                            pending: map<nat, Request>, results: map<nat, Code>, now: nat) {
    if k in was && k !in pending
    then was[k].deadline < now && k !in told && k in results && results[k] == Timeout
    else
      && (k in was <==> k in pending) && (k in pending ==> pending[k] == was[k])
      && (k in results <==> k in told) && (k in told ==> results[k] == told[k])
  }

  lemma StillTold(k: nat, was: map<nat, Request>, told: map<nat, Code>, pending: map<nat, Request>,
                  results: map<nat, Code>, now: nat)
    requires Collected(k, was, told, pending, results, now) && k in told
    ensures k in results
  {
  }

  lemma CollectedMore(was: map<nat, Request>, told: map<nat, Code>, pending: map<nat, Request>, results: map<nat, Code>,
                      now: nat, e: nat, left: map<nat, Request>, after: map<nat, Code>)
    requires left == pending - {e} && after == results[e := Timeout]
    requires forall k :: Collected(k, was, told, pending, results, now)
    requires e in pending && e !in results && pending[e].deadline < now
    ensures forall k :: Collected(k, was, told, left, after, now)
  {
    forall k ensures Collected(k, was, told, left, after, now) {
      assert Collected(k, was, told, pending, results, now);
      assert Collected(e, was, told, pending, results, now);
    }
  }

  lemma AllTerminated(t: Table, u: Table)
    requires KeysOk(t) && t.stopped && t.locked && u == t.(results := u.results, locked := false)
    requires forall k :: k in u.results <==> k in t.results || k in t.pending
    requires forall k :: k in u.results ==>
               if k in t.pending then u.results[k] == Terminated else u.results[k] == t.results[k]
    ensures KeysOk(u) && forall k :: k in u.queued ==> k in u.hand || k in u.results
  {
    forall k ensures KeyOk(u, k) {
      assert KeyOk(t, k);
    }
    forall k | k in u.queued ensures k in u.hand || k in u.results {
      assert KeyOk(t, k);
    }
  }

  lemma EnteredOnly(t: Table, k: nat)
    requires KeysOk(t) && k in t.proposing
    ensures k !in t.queued
  {
    assert KeyOk(t, k);
  }

  /** `u` differs from `t` in the queue and the proposers only. */
  ghost predicate SameButQueue(t: Table, u: Table) {
    && u.notifyCommit == t.notifyCommit && u.stopped == t.stopped && u.locked == t.locked
    && u.pending == t.pending && u.results == t.results && u.signalled == t.signalled && u.hand == t.hand
    && u.committed == t.committed && u.made == t.made && u.pushed == t.pushed && u.tick == t.tick
  }

  lemma QueuedOk(t: Table, u: Table, k: nat)
    requires KeysOk(t) && k in t.proposing && t.proposing[k] == Entered && SameButQueue(t, u)
    requires t.stopped ==> t.locked
    requires u.queued == t.queued + {k} && u.proposing == t.proposing - {k}
    ensures KeysOk(u)
  {
    forall i ensures KeyOk(u, i) {
      assert KeyOk(t, i);
    }
  }

  lemma UnqueuedOk(t: Table, u: Table, k: nat)
    requires KeysOk(t) && k in t.proposing && SameButQueue(t, u)
    requires u.queued == t.queued && u.proposing == t.proposing[k := Unqueued]
    ensures KeysOk(u)
  {
    forall i ensures KeyOk(u, i) {
      assert KeyOk(t, i);
    }
  }

  // ---------- Steps on one key ----------

  lemma TickOk(t: Table, u: Table)
    requires KeysOk(t) && t.tick <= u.tick && u == t.(tick := u.tick)
    ensures KeysOk(u)
  {
    forall i ensures KeyOk(u, i) {
      assert KeyOk(t, i);
    }
  }

  lemma EnterOk(t: Table, u: Table, k: nat, r: Request)
    requires KeysOk(t) && k !in t.made && !t.locked
    requires u == t.(pending := t.pending[k := r], proposing := t.proposing[k := Entered], made := t.made[k := r])
    ensures KeysOk(u)
  {
    forall i ensures KeyOk(u, i) {
      assert KeyOk(t, i);
    }
  }

  lemma WithdrawOk(t: Table, u: Table, k: nat)
    requires KeysOk(t) && k in t.proposing && t.proposing[k] == Unqueued
    requires u == t.(pending := t.pending - {k}, proposing := t.proposing - {k})
    ensures KeysOk(u) && k !in t.queued
  {
    assert KeyOk(t, k);
    forall i ensures KeyOk(u, i) {
      assert KeyOk(t, i);
    }
  }

  lemma PushOk(t: Table, u: Table)
    requires KeysOk(t) && u == t.(pushed := u.pushed) && t.pushed <= u.pushed
    ensures KeysOk(u) && forall k :: k in t.committed ==> k in t.pushed
  {
    forall i ensures KeyOk(u, i) {
      assert KeyOk(t, i);
    }
    forall k | k in t.committed ensures k in t.pushed {
      assert KeyOk(t, k);
    }
  }

  lemma SignalOk(t: Table, u: Table, k: nat, now: nat)
    requires KeysOk(t) && k in t.queued && k in t.pushed && k !in t.committed && now <= t.tick
    requires u == t.(signalled := t.signalled + {k}, committed := t.committed[k := now])
    ensures KeysOk(u) && k !in t.signalled
  {
    assert KeyOk(t, k);
    forall i ensures KeyOk(u, i) {
      assert KeyOk(t, i);
    }
  }

  lemma TakeOk(t: Table, u: Table, k: nat, now: nat, code: Code)
    requires KeysOk(t) && !t.stopped && k in t.pending && k in t.queued && t.pending[k].deadline >= now
    requires t.notifyCommit && Applied(code) ==> k in t.committed && t.committed[k] <= now
    requires u == t.(pending := t.pending - {k}, hand := t.hand[k := code])
    ensures KeysOk(u)
  {
    assert KeyOk(t, k);
    forall i ensures KeyOk(u, i) {
      assert KeyOk(t, i);
    }
  }

  lemma PendingMade(t: Table, k: nat)
    requires KeysOk(t)
    ensures k in t.pending ==> k in t.made && t.made[k] == t.pending[k]
  {
    assert KeyOk(t, k);
  }

  lemma NotifyOk(t: Table, u: Table, k: nat)
    requires KeysOk(t) && k in t.hand && u == t.(results := t.results[k := t.hand[k]], hand := t.hand - {k})
    ensures KeysOk(u) && k !in t.results
  {
    assert KeyOk(t, k);
    forall i ensures KeyOk(u, i) {
      assert KeyOk(t, i);
    }
  }

  lemma CloseOk(t: Table, u: Table)
    requires KeysOk(t) && !t.stopped && u == t.(stopped := true, locked := true)
    ensures KeysOk(u)
  {
    forall i ensures KeyOk(u, i) {
      assert KeyOk(t, i);
    }
  }

  // ---------- The way of committed entries ----------

  /** The entry is a committed proposal of this table. */
  predicate Ours(made: map<nat, Request>, e: Entry) {
    e.key in made && made[e.key].client == e.client && made[e.key].series == e.series
  }

  /** The entry waits for the commit worker at place `j` of task `i`. */
  ghost predicate Waits(q: seq<seq<Entry>>, pos: nat, e: Entry, i: int, j: int) {
    0 <= i < |q| && 0 <= j < |q[i]| && (i == 0 ==> j >= pos) && q[i][j] == e
  }

  ghost predicate Known(t: Table, foreign: set<nat>, e: Entry) { e.key in t.made || e.key in foreign }

  ghost predicate WaitOk(t: Table, foreign: set<nat>, e: Entry) {
    Known(t, foreign, e) && (Ours(t.made, e) ==> e.key in t.queued && e.key in t.pushed && e.key !in t.committed)
  }

  /** An entry past the commit worker: if it is ours, its commit notice is done. */
  ghost predicate PastOk(t: Table, foreign: set<nat>, e: Entry) {
    Known(t, foreign, e) && (Ours(t.made, e) ==> e.key in t.queued && (t.notifyCommit ==> e.key in t.committed))
  }

  ghost predicate WorkerOk(t: Table, l: Line) {
    && l.taken <= |l.commitQ| && (l.pos > 0 ==> l.taken > 0) && (l.taken > 0 ==> l.pos <= |l.commitQ[0]|)
    && (l.phase != Idle ==> l.taken > 0 && l.pos < |l.commitQ[0]| && l.phase.now <= t.tick)
    && (l.phase.Found? ==> Ours(t.made, l.commitQ[0][l.pos]))
    && (forall j :: 0 <= j < l.pos ==> PastOk(t, l.foreign, l.commitQ[0][j]))
  }

  ghost predicate TurnOk(t: Table, l: Line) {
    l.turn.Turn? ==>
      && PastOk(t, l.foreign, l.turn.entry) && l.turn.now <= t.tick
      && (t.notifyCommit && Ours(t.made, l.turn.entry) ==> t.committed[l.turn.entry.key] <= l.turn.now)
  }

  ghost predicate WaitsOk(t: Table, foreign: set<nat>, q: seq<seq<Entry>>, pos: nat) {
    && (forall e, i, j {:trigger Waits(q, pos, e, i, j)} :: Waits(q, pos, e, i, j) ==> WaitOk(t, foreign, e))
    && (forall e, i, j, a, b {:trigger Waits(q, pos, e, i, j), Waits(q, pos, e, a, b)} ::
          Waits(q, pos, e, i, j) && Waits(q, pos, e, a, b) && Ours(t.made, e) ==> i == a && j == b)
  }

  ghost predicate LineOk(t: Table, l: Line) {
    && (!t.notifyCommit ==> l.commitQ == [])
    && WaitsOk(t, l.foreign, l.commitQ, l.pos) && WorkerOk(t, l) && TurnOk(t, l)
    && (forall i :: 0 <= i < |l.applyQ| ==> PastOk(t, l.foreign, l.applyQ[i]))
  }

  /** Steps elsewhere do not disturb the entries on their way. */
  lemma LineKept(t: Table, u: Table, l: Line)
    requires LineOk(t, l) && u.notifyCommit == t.notifyCommit && u.made == t.made && t.queued <= u.queued
    requires u.committed == t.committed && u.pushed == t.pushed && t.tick <= u.tick
    ensures LineOk(u, l)
  {
    hide Ours;
    forall e, i, j | Waits(l.commitQ, l.pos, e, i, j) ensures WaitOk(u, l.foreign, e) {
      assert WaitOk(t, l.foreign, e);
    }
    forall e | PastOk(t, l.foreign, e) ensures PastOk(u, l.foreign, e) {
    }
  }

  /** A new request under a fresh key owns none of the entries on their way. */
  lemma LineEntered(t: Table, u: Table, l: Line, k: nat, r: Request)
    requires LineOk(t, l) && k !in t.made && k !in l.foreign && u.made == t.made[k := r]
    requires u.notifyCommit == t.notifyCommit && t.queued == u.queued
    requires u.committed == t.committed && u.pushed == t.pushed && t.tick == u.tick
    ensures LineOk(u, l)
  {
    forall e | Known(t, l.foreign, e) ensures Known(u, l.foreign, e) && (Ours(u.made, e) <==> Ours(t.made, e)) {
    }
    hide Ours;
    forall e, i, j | Waits(l.commitQ, l.pos, e, i, j) ensures WaitOk(u, l.foreign, e) {
      assert WaitOk(t, l.foreign, e);
    }
    forall e, i, j, a, b | Waits(l.commitQ, l.pos, e, i, j) && Waits(l.commitQ, l.pos, e, a, b) && Ours(u.made, e)
      ensures i == a && j == b
    {
      assert WaitOk(t, l.foreign, e);
    }
    forall e | PastOk(t, l.foreign, e) ensures PastOk(u, l.foreign, e) {
    }
  }

  /** What raft promises of the entries it commits: a proposal is committed only when accepted, and only once. */
  predicate Committable(made: map<nat, Request>, queued: set<nat>, pushed: set<nat>, task: seq<Entry>) {
    && (forall i :: 0 <= i < |task| && Ours(made, task[i]) ==> task[i].key in queued && task[i].key !in pushed)
    && (forall i, j :: 0 <= i < j < |task| && Ours(made, task[i]) ==> task[i] != task[j])
  }

  lemma LinePushed(t: Table, u: Table, l: Line, m: Line, task: seq<Entry>)
    requires LineOk(t, l) && t.notifyCommit && Committable(t.made, t.queued, t.pushed, task)
    requires forall k :: k in t.committed ==> k in t.pushed
    requires u == t.(pushed := u.pushed) && t.pushed <= u.pushed
    requires forall i :: 0 <= i < |task| && Ours(t.made, task[i]) ==> task[i].key in u.pushed
    requires m == l.(foreign := m.foreign, commitQ := l.commitQ + [task]) && l.foreign <= m.foreign
    requires forall i :: 0 <= i < |task| ==> Known(t, m.foreign, task[i])
    ensures LineOk(u, m)
  {
    hide Ours;
    var n := |l.commitQ|;
    forall e, i, j | Waits(m.commitQ, m.pos, e, i, j)
      ensures if i == n then j < |task| && task[j] == e else Waits(l.commitQ, l.pos, e, i, j)
    {
    }
    forall e, i, j | Waits(m.commitQ, m.pos, e, i, j) ensures WaitOk(u, m.foreign, e) {
      assert i != n ==> WaitOk(t, l.foreign, e);
    }
    forall e, i, j, a, b | Waits(m.commitQ, m.pos, e, i, j) && Waits(m.commitQ, m.pos, e, a, b) && Ours(u.made, e)
      ensures i == a && j == b
    {
      assert i != n ==> WaitOk(t, l.foreign, e);
      assert a != n ==> WaitOk(t, l.foreign, e);
    }
    forall e | PastOk(t, l.foreign, e) ensures PastOk(u, m.foreign, e) {
    }
  }

  lemma LinePassed(t: Table, u: Table, l: Line, m: Line, task: seq<Entry>)
    requires LineOk(t, l) && !t.notifyCommit && Committable(t.made, t.queued, t.pushed, task)
    requires u == t.(pushed := u.pushed) && t.pushed <= u.pushed
    requires m == l.(foreign := m.foreign, applyQ := l.applyQ + task) && l.foreign <= m.foreign
    requires forall i :: 0 <= i < |task| ==> Known(t, m.foreign, task[i])
    ensures LineOk(u, m)
  {
    hide Ours;
    forall e | PastOk(t, l.foreign, e) ensures PastOk(u, m.foreign, e) {
    }
    forall i | 0 <= i < |m.applyQ| ensures PastOk(u, m.foreign, m.applyQ[i]) {
      assert i < |l.applyQ| ==> PastOk(t, l.foreign, l.applyQ[i]);
    }
  }

  /** The current entry of the commit worker waits. */
  lemma CurrentWaits(t: Table, l: Line)
    requires LineOk(t, l) && l.taken > 0 && l.pos < |l.commitQ[0]|
    ensures WaitOk(t, l.foreign, l.commitQ[0][l.pos])
  {
    assert Waits(l.commitQ, l.pos, l.commitQ[0][l.pos], 0, l.pos);
  }

  /** The commit worker is done with its current entry; if it is ours, its notice is recorded. */
  lemma LineNoticed(t: Table, u: Table, l: Line, m: Line, now: nat)
    requires LineOk(t, l) && l.taken > 0 && l.pos < |l.commitQ[0]|
    requires m == l.(pos := l.pos + 1, phase := Idle)
    requires var e := l.commitQ[0][l.pos];
             u == t.(committed := if Ours(t.made, e) then t.committed[e.key := now] else t.committed,
                     signalled := u.signalled)
    ensures LineOk(u, m)
  {
    hide Ours;
    var e := l.commitQ[0][l.pos];
    assert Waits(l.commitQ, l.pos, e, 0, l.pos);
    forall x, i, j | Waits(m.commitQ, m.pos, x, i, j) ensures Waits(l.commitQ, l.pos, x, i, j) && !(i == 0 && j == l.pos) {
    }
    forall x, i, j | Waits(m.commitQ, m.pos, x, i, j) ensures WaitOk(u, m.foreign, x) {
      assert Waits(l.commitQ, l.pos, x, i, j);
      SameKeySame(t, l, x, e);
    }
    forall x | PastOk(t, l.foreign, x) ensures PastOk(u, m.foreign, x) {
    }
    assert PastOk(u, m.foreign, e);
    NoticedTurn(t, u, l, m, now);
  }

  /** Two entries of ours under one key are the same entry. */
  lemma SameKeySame(t: Table, l: Line, x: Entry, y: Entry)
    ensures Ours(t.made, x) && Ours(t.made, y) && x.key == y.key ==> x == y
  {
  }

  lemma NoticedTurn(t: Table, u: Table, l: Line, m: Line, now: nat)
    requires LineOk(t, l) && l.taken > 0 && l.pos < |l.commitQ[0]| && m.turn == l.turn && m.foreign == l.foreign
    requires var e := l.commitQ[0][l.pos];
             u == t.(committed := if Ours(t.made, e) then t.committed[e.key := now] else t.committed,
                     signalled := u.signalled)
    ensures TurnOk(u, m)
  {
    CurrentWaits(t, l);
  }

  /** A finished task goes to the apply queue. */
  lemma LineForwarded(t: Table, l: Line, m: Line)
    requires LineOk(t, l) && l.taken > 0 && l.pos == |l.commitQ[0]| && l.phase == Idle
    requires m == l.(commitQ := l.commitQ[1..], taken := l.taken - 1, pos := 0, applyQ := l.applyQ + l.commitQ[0])
    ensures LineOk(t, m)
  {
    hide Ours;
    forall x, i, j | Waits(m.commitQ, m.pos, x, i, j) ensures Waits(l.commitQ, l.pos, x, i + 1, j) {
    }
    forall x, i, j | Waits(m.commitQ, m.pos, x, i, j) ensures WaitOk(t, m.foreign, x) {
      assert Waits(l.commitQ, l.pos, x, i + 1, j);
    }
    forall x, i, j, a, b | Waits(m.commitQ, m.pos, x, i, j) && Waits(m.commitQ, m.pos, x, a, b) && Ours(t.made, x)
      ensures i == a && j == b
    {
      assert Waits(l.commitQ, l.pos, x, i + 1, j) && Waits(l.commitQ, l.pos, x, a + 1, b);
    }
    forall i | 0 <= i < |m.applyQ| ensures PastOk(t, m.foreign, m.applyQ[i]) {
      assert PastOk(t, l.foreign, if i < |l.applyQ| then l.applyQ[i] else l.commitQ[0][i - |l.applyQ|]);
    }
  }

  lemma AtCurrent(t: Table, l: Line)
    requires LineOk(t, l) && l.phase != Idle
    ensures l.commitQ != [] && l.taken > 0 && l.pos < |l.commitQ[0]| && l.phase.now <= t.tick
    ensures WaitOk(t, l.foreign, l.commitQ[0][l.pos]) && (l.phase.Found? ==> Ours(t.made, l.commitQ[0][l.pos]))
  {
    CurrentWaits(t, l);
  }

  lemma TakenSome(t: Table, l: Line)
    requires LineOk(t, l) && l.taken > 0
    ensures l.commitQ != []
  {
  }

  lemma LineFound(t: Table, l: Line, m: Line)
    requires LineOk(t, l) && l.phase.Read? && m == l.(phase := Found(l.phase.now)) && Ours(t.made, l.commitQ[0][l.pos])
    ensures LineOk(t, m)
  {
    hide Ours;
  }

  /** The commit worker found no request to tell: it has none, or is overdue at the time it read. */
  lemma NoticeMissed(t: Table, u: Table, l: Line, now: nat)
    requires KeysOk(t) && LineOk(t, l) && l.phase != Idle && l.phase.now == now
    requires var e := l.commitQ[0][l.pos];
             && u == t.(committed := if Ours(t.made, e) then t.committed[e.key := now] else t.committed)
             && (Ours(t.made, e) ==> t.stopped || e.key !in t.pending || t.pending[e.key].deadline < now)
    ensures KeysOk(u)
  {
    AtCurrent(t, l);
    hide LineOk;
    forall i ensures KeyOk(u, i) {
      assert KeyOk(t, i);
    }
  }

  lemma LineNext(t: Table, l: Line, m: Line)
    requires KeysOk(t) && LineOk(t, l) && l.applyQ != []
    requires m == l.(applyQ := l.applyQ[1..], turn := Turn(l.applyQ[0], t.tick))
    ensures LineOk(t, m)
  {
    var e := l.applyQ[0];
    assert PastOk(t, l.foreign, e);
    assert KeyOk(t, e.key);
    forall i | 0 <= i < |m.applyQ| ensures PastOk(t, m.foreign, m.applyQ[i]) {
      assert PastOk(t, l.foreign, l.applyQ[i + 1]);
    }
  }

  lemma TurnFacts(t: Table, l: Line)
    requires LineOk(t, l)
    ensures l.turn.Turn? && t.notifyCommit && Ours(t.made, l.turn.entry) ==>
              l.turn.entry.key in t.committed && t.committed[l.turn.entry.key] <= l.turn.now
  {
  }

  lemma TurnEnds(t: Table, l: Line, m: Line)
    requires LineOk(t, l) && m == l.(turn := NoTurn)
    ensures LineOk(t, m)
  {
  }

  // ---------- The order of committed entries ----------

  ghost function Flat(q: seq<seq<Entry>>): seq<Entry> {
    if q == [] then [] else q[0] + Flat(q[1..])
  }

  /** What was handed over is what has been turned to, then what waits to be applied, then what waits for its notice. */
  ghost predicate InOrder(log: seq<Entry>, passed: seq<Entry>, applyQ: seq<Entry>, commitQ: seq<seq<Entry>>) {
    log == passed + applyQ + Flat(commitQ)
  }

  lemma {:induction false} FlatMore(q: seq<seq<Entry>>, task: seq<Entry>)
    ensures Flat(q + [task]) == Flat(q) + task
  {
    if q == [] {
      assert [task][1..] == [] && q + [task] == [task];
    } else {
      FlatMore(q[1..], task);
      assert (q + [task])[1..] == q[1..] + [task];
    }
  }

  lemma HandedOver(notify: bool, t: Table, l: Line, log: seq<Entry>, passed: seq<Entry>, task: seq<Entry>)
    requires InOrder(log, passed, l.applyQ, l.commitQ) && Sound(t, l) && notify == t.notifyCommit
    ensures if notify then InOrder(log + task, passed, l.applyQ, l.commitQ + [task])
            else InOrder(log + task, passed, l.applyQ + task, l.commitQ)
  {
    hide KeysOk, WaitsOk, WorkerOk, TurnOk, PastOk;
    FlatMore(l.commitQ, task);
    if notify {
      assert passed + l.applyQ + Flat(l.commitQ) + task == passed + l.applyQ + Flat(l.commitQ + [task]);
    } else {
      assert Flat(l.commitQ) == [];
      assert passed + l.applyQ + [] + task == passed + (l.applyQ + task) + [];
    }
  }

  lemma OrderForward(log: seq<Entry>, passed: seq<Entry>, applyQ: seq<Entry>, commitQ: seq<seq<Entry>>)
    requires InOrder(log, passed, applyQ, commitQ) && commitQ != []
    ensures InOrder(log, passed, applyQ + commitQ[0], commitQ[1..])
  {
    assert passed + applyQ + (commitQ[0] + Flat(commitQ[1..])) == passed + (applyQ + commitQ[0]) + Flat(commitQ[1..]);
  }

  lemma OrderNext(log: seq<Entry>, passed: seq<Entry>, applyQ: seq<Entry>, commitQ: seq<seq<Entry>>)
    requires InOrder(log, passed, applyQ, commitQ) && applyQ != []
    ensures InOrder(log, passed + [applyQ[0]], applyQ[1..], commitQ)
  {
    assert applyQ == [applyQ[0]] + applyQ[1..];
    assert passed + applyQ == passed + [applyQ[0]] + applyQ[1..];
  }

  // ---------- Steps on the whole state ----------

  ghost predicate Sound(t: Table, l: Line) { KeysOk(t) && LineOk(t, l) }

  lemma TickStep(t: Table, l: Line, u: Table)
    requires Sound(t, l) && t.tick <= u.tick && u == t.(tick := u.tick)
    ensures Sound(u, l)
  {
    hide KeysOk, LineOk;
    TickOk(t, u);
    LineKept(t, u, l);
  }

  lemma EnterStep(t: Table, l: Line, u: Table, k: nat, r: Request)
    requires Sound(t, l) && k !in t.made && k !in l.foreign && !t.locked
    requires u == t.(pending := t.pending[k := r], proposing := t.proposing[k := Entered], made := t.made[k := r])
    ensures Sound(u, l)
  {
    hide KeysOk, LineOk;
    EnterOk(t, u, k, r);
    LineEntered(t, u, l, k, r);
  }

  lemma QueuedStep(t: Table, l: Line, u: Table, k: nat)
    requires Sound(t, l) && k in t.proposing && t.proposing[k] == Entered && (t.stopped ==> t.locked)
    requires u == t.(queued := t.queued + {k}, proposing := t.proposing - {k})
    ensures Sound(u, l)
  {
    hide KeysOk, LineOk;
    QueuedOk(t, u, k);
    LineKept(t, u, l);
  }

  lemma UnqueuedStep(t: Table, l: Line, u: Table, k: nat)
    requires Sound(t, l) && k in t.proposing && u == t.(proposing := t.proposing[k := Unqueued])
    ensures Sound(u, l) && k !in t.queued
  {
    hide KeysOk, LineOk;
    EnteredOnly(t, k);
    UnqueuedOk(t, u, k);
    LineKept(t, u, l);
  }

  lemma WithdrawStep(t: Table, l: Line, u: Table, k: nat)
    requires Sound(t, l) && k in t.proposing && t.proposing[k] == Unqueued
    requires u == t.(pending := t.pending - {k}, proposing := t.proposing - {k})
    ensures Sound(u, l) && k !in t.queued
  {
    hide KeysOk, LineOk;
    WithdrawOk(t, u, k);
    LineKept(t, u, l);
  }

  /** The keys a task adds to those of other nodes, and to our own. */
  function ForeignKeys(made: map<nat, Request>, task: seq<Entry>): set<nat> {
    set i | 0 <= i < |task| && task[i].key !in made :: task[i].key
  }

  function OurKeys(made: map<nat, Request>, task: seq<Entry>): set<nat> {
    set i | 0 <= i < |task| && Ours(made, task[i]) :: task[i].key
  }

  lemma PushStep(t: Table, l: Line, u: Table, m: Line, task: seq<Entry>)
    requires Sound(t, l) && Committable(t.made, t.queued, t.pushed, task)
    requires u == t.(pushed := t.pushed + OurKeys(t.made, task))
    requires m == l.(foreign := l.foreign + ForeignKeys(t.made, task),
                     commitQ := if t.notifyCommit then l.commitQ + [task] else l.commitQ,
                     applyQ := if t.notifyCommit then l.applyQ else l.applyQ + task)
    ensures Sound(u, m)
  {
    hide KeysOk, LineOk;
    PushOk(t, u);
    if t.notifyCommit {
      LinePushed(t, u, l, m, task);
    } else {
      LinePassed(t, u, l, m, task);
    }
  }

  lemma TakenStep(t: Table, l: Line, m: Line)
    requires Sound(t, l) && l.taken == 0 && m == l.(taken := |l.commitQ|)
    ensures Sound(t, m)
  {
    hide KeysOk, WaitsOk, PastOk, Ours;
  }

  lemma ReadStep(t: Table, l: Line, m: Line)
    requires Sound(t, l) && l.taken > 0 && l.commitQ != [] && l.pos < |l.commitQ[0]| && l.phase == Idle
    requires m == l.(phase := Read(t.tick))
    ensures Sound(t, m)
  {
    hide KeysOk, WaitsOk, PastOk, Ours;
  }

  /** The commit worker found the request of its entry. */
  lemma FoundStep(t: Table, l: Line, m: Line)
    requires Sound(t, l) && l.phase.Read? && m == l.(phase := Found(l.phase.now))
    requires l.commitQ != [] && l.pos < |l.commitQ[0]| && Matches(t.pending, l.commitQ[0][l.pos])
    ensures Sound(t, m)
  {
    PendingMade(t, l.commitQ[0][l.pos].key);
    hide KeysOk, LineOk;
    LineFound(t, l, m);
  }

  predicate Matches(pending: map<nat, Request>, e: Entry) {
    e.key in pending && pending[e.key].client == e.client && pending[e.key].series == e.series
  }

  /** The notice of an entry of ours is done at a time. */
  function Recorded(made: map<nat, Request>, committed: map<nat, nat>, e: Entry, now: nat): map<nat, nat> {
    if Ours(made, e) then committed[e.key := now] else committed
  }

  /** It found none that is waiting and in time. */
  lemma MissedStep(t: Table, l: Line, u: Table, m: Line, e: Entry)
    requires Sound(t, l) && l.phase != Idle && m == l.(pos := l.pos + 1, phase := Idle)
    requires l.commitQ != [] && l.pos < |l.commitQ[0]| && e == l.commitQ[0][l.pos]
    requires u == t.(committed := Recorded(t.made, t.committed, e, l.phase.now))
    requires t.stopped || !Matches(t.pending, e) || t.pending[e.key].deadline < l.phase.now
    ensures Sound(u, m)
  {
    PendingMade(t, e.key);
    AtCurrent(t, l);
    hide KeysOk, LineOk;
    NoticeMissed(t, u, l, l.phase.now);
    LineNoticed(t, u, l, m, l.phase.now);
  }

  lemma SignalStep(t: Table, l: Line, u: Table, m: Line, k: nat)
    requires Sound(t, l) && l.phase.Found? && m == l.(pos := l.pos + 1, phase := Idle)
    requires l.commitQ != [] && l.pos < |l.commitQ[0]| && k == l.commitQ[0][l.pos].key
    requires u == t.(signalled := t.signalled + {k}, committed := t.committed[k := l.phase.now])
    ensures Sound(u, m) && k !in t.signalled
  {
    AtCurrent(t, l);
    hide KeysOk, LineOk;
    SignalOk(t, u, k, l.phase.now);
    LineNoticed(t, u, l, m, l.phase.now);
  }

  lemma ForwardStep(t: Table, l: Line, m: Line)
    requires Sound(t, l) && l.taken > 0 && l.commitQ != [] && l.pos == |l.commitQ[0]| && l.phase == Idle
    requires m == l.(commitQ := l.commitQ[1..], taken := l.taken - 1, pos := 0, applyQ := l.applyQ + l.commitQ[0])
    ensures Sound(t, m)
  {
    hide KeysOk, LineOk;
    LineForwarded(t, l, m);
  }

  lemma NextStep(t: Table, l: Line, m: Line)
    requires Sound(t, l) && l.applyQ != [] && m == l.(applyQ := l.applyQ[1..], turn := Turn(l.applyQ[0], t.tick))
    ensures Sound(t, m)
  {
    hide KeysOk, LineOk;
    LineNext(t, l, m);
  }

  /** A waiting request is taken for an entry that is dropped, or applied in its turn. */
  lemma TakeStep(t: Table, l: Line, u: Table, m: Line, e: Entry, now: nat, code: Code)
    requires Sound(t, l) && (Ours(t.made, e) ==> e.key in t.queued)
    requires code == Dropped || (Applied(code) && l.turn == Turn(e, now))
    requires !t.stopped && Matches(t.pending, e) && t.pending[e.key].deadline >= now
    requires u == t.(pending := t.pending - {e.key}, hand := t.hand[e.key := code])
    requires m == l.(turn := if code == Dropped then l.turn else NoTurn)
    ensures Sound(u, m)
  {
    PendingMade(t, e.key);
    TurnFacts(t, l);
    hide KeysOk, LineOk;
    TakeOk(t, u, e.key, now, code);
    LineKept(t, u, l);
    if code != Dropped {
      TurnEnds(u, l, m);
    }
  }

  lemma TurnStep(t: Table, l: Line, m: Line)
    requires Sound(t, l) && (m == l || m == l.(turn := NoTurn))
    ensures Sound(t, m)
  {
    hide KeysOk, LineOk;
    if m != l {
      TurnEnds(t, l, m);
    }
  }

  lemma NotifyStep(t: Table, l: Line, u: Table, k: nat)
    requires Sound(t, l) && k in t.hand && u == t.(results := t.results[k := t.hand[k]], hand := t.hand - {k})
    ensures Sound(u, l) && k !in t.results
  {
    hide KeysOk, LineOk;
    NotifyOk(t, u, k);
    LineKept(t, u, l);
  }

  lemma ExpireStep(t: Table, l: Line, u: Table, k: nat)
    requires Sound(t, l) && !t.stopped && k in t.pending
    requires u == t.(results := t.results[k := Timeout], pending := t.pending - {k})
    ensures Sound(u, l) && k !in t.results
  {
    hide KeysOk, LineOk;
    Expire(t, k);
    LineKept(t, u, l);
  }

  lemma CloseStep(t: Table, l: Line, u: Table)
    requires Sound(t, l) && !t.stopped && u == t.(stopped := true, locked := true)
    ensures Sound(u, l)
  {
    hide KeysOk, LineOk;
    CloseOk(t, u);
    LineKept(t, u, l);
  }

  lemma ClosedStep(t: Table, l: Line, u: Table)
    requires Sound(t, l) && t.stopped && t.locked && u == t.(results := u.results, locked := false)
    requires forall k :: k in u.results <==> k in t.results || k in t.pending
    requires forall k :: k in u.results ==>
               if k in t.pending then u.results[k] == Terminated else u.results[k] == t.results[k]
    ensures Sound(u, l) && forall k :: k in u.queued ==> k in u.hand || k in u.results
  {
    hide KeysOk, LineOk;
    AllTerminated(t, u);
    LineKept(t, u, l);
  }

  lemma SoundAt(t: Table, l: Line)
    requires Sound(t, l) && l.phase != Idle
    ensures l.commitQ != [] && l.pos < |l.commitQ[0]|
  {
    AtCurrent(t, l);
  }

  lemma MatchesOurs(t: Table, l: Line, e: Entry)
    requires Sound(t, l)
    ensures Matches(t.pending, e) <==> e.key in t.pending && Ours(t.made, e)
    ensures Matches(t.pending, e) ==> t.made[e.key] == t.pending[e.key]
  {
    PendingMade(t, e.key);
  }

  /** In an open table a request that has been told does not wait. */
  lemma ToldNotWaiting(t: Table, l: Line, e: Entry)
    requires Sound(t, l) && e.key in t.results
    ensures t.stopped || (e.key !in t.pending && !Matches(t.pending, e))
  {
    assert KeyOk(t, e.key);
  }

  /** The commit worker has not told the request it found before. */
  lemma FoundUntold(t: Table, l: Line)
    requires Sound(t, l) && l.phase.Found?
    ensures l.commitQ != [] && l.pos < |l.commitQ[0]|
    ensures l.commitQ[0][l.pos].key !in t.signalled && l.commitQ[0][l.pos].key in t.made
  {
    AtCurrent(t, l);
    assert KeyOk(t, l.commitQ[0][l.pos].key);
  }

  lemma NoneTold(t: Table, l: Line)
    requires Sound(t, l) && (t.stopped ==> t.locked)
    ensures forall k :: k in t.pending ==> k !in t.results
  {
    hide KeyOk;
    NoneNotified(t);
  }

  class Shard {
    const notifyCommit: bool
    // The table, its lock while closing, and the clock.
    var pending: map<nat, Request>
    var stopped: bool
    var locked: bool
    var tick: nat
    const gcTick: nat
    var lastGc: nat
    // The entry queue shared by all shards: its fill, whether it is paused or closed, and what it accepted here.
    const size: nat
    var count: nat
    var paused: bool
    var queueClosed: bool
    var queued: set<nat>
    // Signals sent to the requests.
    var results: map<nat, Code>
    var signalled: set<nat>
    // What the threads hold: proposers, and notifiers.
    var proposing: map<nat, Proposing>
    var hand: map<nat, Code>
    // Committed entries: keys seen of other nodes, our keys, the queue of tasks for the commit worker, the
    // number of tasks it has taken, its place in the first of them, and what it is doing there.
    var foreign: set<nat>
    var pushed: set<nat>
    var commitQ: seq<seq<Entry>>
    var taken: nat
    var pos: nat
    var phase: Phase
    // The entries of the tasks in the apply queue, and the one at hand.
    var applyQ: seq<Entry>
    var turn: Turn
    // All entries raft has handed over, and those the apply worker has turned to.
    ghost var log: seq<Entry>
    ghost var passed: seq<Entry>
    // Entries whose commit notice is done, with the time it used.
    var committed: map<nat, nat>
    // Every request ever made.
    var made: map<nat, Request>

    ghost function State(): Table
      reads this
    {
      Table(notifyCommit, stopped, locked, pending, queued, results, signalled, proposing, hand,
            committed, made, pushed, tick)
    }

    ghost function Way(): Line
      reads this
    {
      Line(foreign, commitQ, taken, pos, phase, applyQ, turn)
    }

    ghost predicate Valid()
      reads this
    {
      && count <= size && (locked ==> stopped) && (stopped && !locked ==> queueClosed)
      && Sound(State(), Way()) && InOrder(log, passed, applyQ, commitQ)
    }

    /** A table that nothing has happened to. */
    ghost predicate Fresh()
      reads this
    {
      && pending == map[] && !stopped && !locked && tick == 0 && lastGc == 0 && count == 0 && !paused && !queueClosed
      && queued == {} && results == map[] && signalled == {} && proposing == map[] && hand == map[]
      && foreign == {} && pushed == {} && commitQ == [] && taken == 0 && pos == 0 && phase == Idle && made == map[]
    }

    constructor (notifyCommit: bool, gcTick: nat, size: nat)
      ensures Valid() && Fresh() && this.notifyCommit == notifyCommit && this.gcTick == gcTick && this.size == size
    {
      this.notifyCommit := notifyCommit;
      pending, stopped, locked, tick, lastGc := map[], false, false, 0, 0;
      this.gcTick := gcTick;
      this.size := size;
      count, paused, queued, queueClosed, results, signalled := 0, false, {}, false, map[], {};
      proposing, hand, committed, made := map[], map[], map[], map[];
      foreign, pushed, commitQ, taken, pos, phase := {}, {}, [], 0, 0, Idle;
      applyQ, turn, log, passed := [], NoTurn, [], [];
    }

    lemma FreshFields()
      requires Fresh()
      ensures pending == map[] && !stopped && !locked && tick == 0 && lastGc == 0 && count == 0 && !paused && !queueClosed
      ensures queued == {} && results == map[] && signalled == {} && proposing == map[] && made == map[]
      ensures foreign == {} && pushed == {} && commitQ == [] && taken == 0 && pos == 0 && phase == Idle
    {
    }

    method Tick(now: nat)
      requires Valid() && now >= tick
      modifies this`tick
      ensures Valid() && tick == now
    {
      hide Sound, InOrder;
      ghost var t := State();
      tick := now;
      TickStep(t, Way(), State());
    }

    // ---------- Proposing ----------

    /** Enters a request under a fresh key; its deadline counts from a reading of the clock before the lock. */
    method Enter(k: nat, client: nat, series: nat, read: nat, timeout: nat)
      requires Valid() && !locked && k !in made && k !in foreign && read <= tick && timeout > 0
      modifies this`pending, this`proposing, this`made
      ensures Valid() && proposing == old(proposing)[k := Entered]
      ensures pending == old(pending)[k := Request(client, series, read + timeout)] && made == old(made)[k := pending[k]]
    {
      hide Sound, InOrder;
      ghost var t := State();
      var r := Request(client, series, read + timeout);
      pending := pending[k := r];
      proposing := proposing[k := Entered];
      made := made[k := r];
      EnterStep(t, Way(), State(), k, r);
    }

    method Accept(k: nat)
      requires Valid() && k in proposing && proposing[k] == Entered && count < size && !queueClosed
      modifies this`queued, this`proposing, this`count
      ensures Valid() && queued == old(queued) + {k} && proposing == old(proposing) - {k} && count == old(count) + 1
    {
      hide Sound, InOrder;
      ghost var t := State();
      count := count + 1;
      queued := queued + {k};
      proposing := proposing - {k};
      QueuedStep(t, Way(), State(), k);
    }

    method Refuse(k: nat)
      requires Valid() && k in proposing && proposing[k] == Entered
      modifies this`proposing
      ensures Valid() && k !in queued && proposing == old(proposing)[k := Unqueued]
    {
      hide Sound, InOrder;
      ghost var t := State();
      proposing := proposing[k := Unqueued];
      UnqueuedStep(t, Way(), State(), k);
    }

    /** Queues the entry unless the queue is full, paused or closed. */
    method Enqueue(k: nat) returns (accepted: bool, closed: bool)
      requires Valid() && k in proposing && proposing[k] == Entered
      modifies this`queued, this`proposing, this`count
      ensures Valid() && (accepted <==> !paused && old(count) < size && !queueClosed) && closed == (!accepted && queueClosed)
      ensures if accepted then queued == old(queued) + {k} && proposing == old(proposing) - {k} && count == old(count) + 1
              else queued == old(queued) && k !in queued && proposing == old(proposing)[k := Unqueued] && count == old(count)
    {
      hide Valid;
      if paused || count >= size || queueClosed {
        Refuse(k);
        return false, queueClosed;
      }
      Accept(k);
      return true, false;
    }

    /** Takes back a request whose entry was not queued. */
    method Withdraw(k: nat)
      requires Valid() && !locked && k in proposing && proposing[k] == Unqueued
      modifies this`pending, this`proposing
      ensures Valid() && k !in queued && pending == old(pending) - {k} && proposing == old(proposing) - {k}
    {
      hide Sound, InOrder;
      ghost var t := State();
      pending := pending - {k};
      proposing := proposing - {k};
      WithdrawStep(t, Way(), State(), k);
    }

    // ---------- The shared entry queue, as seen from here ----------

    /** The stepping thread takes what is queued, and may pause the queue. */
    method Drain(pause: bool)
      requires Valid()
      modifies this`count, this`paused
      ensures Valid() && count == 0 && paused == pause
    {
      hide Sound, InOrder;
      count, paused := 0, pause;
    }

    /** Another shard queues an entry. */
    method OtherEnqueues()
      requires Valid()
      modifies this`count
      ensures Valid() && count == if !paused && old(count) < size && !queueClosed then old(count) + 1 else old(count)
    {
      hide Sound, InOrder;
      if !paused && count < size && !queueClosed {
        count := count + 1;
      }
    }

    /** This shard or another one closes the queue. */
    method CloseQueue()
      requires Valid()
      modifies this`queueClosed
      ensures Valid() && queueClosed
    {
      hide Sound, InOrder;
      queueClosed := true;
    }

    // ---------- Committing ----------

    method PushToCommit(task: seq<Entry>)
      requires Valid() && Committable(made, queued, pushed, task) && notifyCommit
      modifies this`foreign, this`pushed, this`commitQ, this`log
      ensures Valid() && log == old(log) + task && commitQ == old(commitQ) + [task]
      ensures foreign == old(foreign) + ForeignKeys(made, task) && pushed == old(pushed) + OurKeys(made, task)
    {
      hide Sound, InOrder, ForeignKeys, OurKeys, Committable;
      ghost var t, l := State(), Way();
      HandedOver(notifyCommit, t, l, log, passed, task);
      log := log + task;
      foreign, pushed := foreign + ForeignKeys(made, task), pushed + OurKeys(made, task);
      commitQ := commitQ + [task];
      PushStep(t, l, State(), Way(), task);
    }

    method PushToApply(task: seq<Entry>)
      requires Valid() && Committable(made, queued, pushed, task) && !notifyCommit
      modifies this`foreign, this`pushed, this`applyQ, this`log
      ensures Valid() && log == old(log) + task && applyQ == old(applyQ) + task
      ensures foreign == old(foreign) + ForeignKeys(made, task) && pushed == old(pushed) + OurKeys(made, task)
    {
      hide Sound, InOrder, ForeignKeys, OurKeys, Committable;
      ghost var t, l := State(), Way();
      HandedOver(notifyCommit, t, l, log, passed, task);
      log := log + task;
      foreign, pushed := foreign + ForeignKeys(made, task), pushed + OurKeys(made, task);
      applyQ := applyQ + task;
      PushStep(t, l, State(), Way(), task);
    }

    /** Raft hands over a task of committed entries; other nodes' entries are among them. */
    method PushTask(task: seq<Entry>)
      requires Valid() && Committable(made, queued, pushed, task)
      modifies this`foreign, this`pushed, this`commitQ, this`applyQ, this`log
      ensures Valid() && log == old(log) + task
      ensures if notifyCommit then commitQ == old(commitQ) + [task] && applyQ == old(applyQ)
              else commitQ == old(commitQ) && applyQ == old(applyQ) + task
      ensures foreign == old(foreign) + ForeignKeys(made, task) && pushed == old(pushed) + OurKeys(made, task)
    {
      hide Valid, Committable, ForeignKeys, OurKeys;
      if notifyCommit {
        PushToCommit(task);
      } else {
        PushToApply(task);
      }
    }

    /** The commit worker takes all tasks there are. */
    method CommitTake()
      requires Valid() && taken == 0
      modifies this`taken
      ensures Valid() && taken == |commitQ|
    {
      hide Sound, InOrder;
      ghost var l := Way();
      taken := |commitQ|;
      TakenStep(State(), l, Way());
    }

    /** It turns to its next entry and reads the clock. */
    method CommitRead()
      requires Valid() && taken > 0 && commitQ != [] && pos < |commitQ[0]| && phase == Idle
      modifies this`phase
      ensures Valid() && phase == Read(tick)
    {
      hide Sound, InOrder;
      ghost var l := Way();
      phase := Read(tick);
      ReadStep(State(), l, Way());
    }

    /** The entry has no request to tell that is waiting and in time. */
    method CommitMiss()
      requires Valid() && phase.Read? && commitQ != [] && pos < |commitQ[0]|
      requires stopped || !Matches(pending, commitQ[0][pos]) || pending[commitQ[0][pos].key].deadline < phase.now
      modifies this`phase, this`pos, this`committed
      ensures Valid() && phase == Idle && pos == old(pos) + 1
      ensures var e := commitQ[0][old(pos)];
              committed == Recorded(made, old(committed), e, old(phase).now)
    {
      hide Sound, InOrder, Recorded, Matches;
      ghost var t, l := State(), Way();
      var e := commitQ[0][pos];
      committed := Recorded(made, committed, e, phase.now);
      pos, phase := pos + 1, Idle;
      MissedStep(t, l, State(), Way(), e);
    }

    /** Under the lock it looks up the request without removing it. */
    method CommitFind()
      requires Valid() && !locked && phase.Read?
      modifies this`phase, this`pos, this`committed
      ensures Valid() && commitQ != [] && old(pos) < |commitQ[0]|
      ensures var e := old(commitQ)[0][old(pos)];
              if !stopped && Matches(pending, e) && pending[e.key].deadline >= old(phase).now
              then phase == Found(old(phase).now) && pos == old(pos) && committed == old(committed)
              else && phase == Idle && pos == old(pos) + 1
                   && committed == Recorded(made, old(committed), e, old(phase).now)
    {
      hide Sound, InOrder, Recorded;
      SoundAt(State(), Way());
      var e := commitQ[0][pos];
      if !stopped && Matches(pending, e) && pending[e.key].deadline >= phase.now {
        ghost var l := Way();
        phase := Found(phase.now);
        FoundStep(State(), l, Way());
      } else {
        CommitMiss();
      }
    }

    /** It sends the committed signal to the request it found. */
    method CommitSignal() returns (panicked: bool)
      requires Valid() && phase.Found?
      modifies this`phase, this`pos, this`committed, this`signalled
      ensures Valid() && !panicked && phase == Idle && pos == old(pos) + 1
      ensures var k := old(commitQ)[0][old(pos)].key;
              k !in old(signalled) && signalled == old(signalled) + {k} && committed == old(committed)[k := old(phase).now]
    {
      hide Sound, InOrder;
      ghost var t, l := State(), Way();
      SoundAt(t, l);
      var k := commitQ[0][pos].key;
      panicked := k in signalled;
      signalled := signalled + {k};
      committed := committed[k := phase.now];
      pos, phase := pos + 1, Idle;
      SignalStep(t, l, State(), Way(), k);
    }

    /** The request it found has been told its outcome meanwhile, and the notice does not reach it. */
    method CommitLost()
      requires Valid() && phase.Found? && commitQ != [] && pos < |commitQ[0]| && commitQ[0][pos].key in results
      modifies this`phase, this`pos, this`committed
      ensures Valid() && phase == Idle && pos == old(pos) + 1
      ensures var e := commitQ[0][old(pos)];
              committed == Recorded(made, old(committed), e, old(phase).now)
    {
      hide Sound, InOrder, Recorded, Matches;
      ghost var t, l := State(), Way();
      var e := commitQ[0][pos];
      ToldNotWaiting(t, l, e);
      committed := Recorded(made, committed, e, phase.now);
      pos, phase := pos + 1, Idle;
      MissedStep(t, l, State(), Way(), e);
    }

    /** It passes a finished task on to the apply queue. */
    method CommitForward()
      requires Valid() && taken > 0 && commitQ != [] && pos == |commitQ[0]| && phase == Idle
      modifies this`commitQ, this`taken, this`pos, this`applyQ
      ensures Valid() && applyQ == old(applyQ) + old(commitQ)[0] && commitQ == old(commitQ)[1..]
      ensures taken == old(taken) - 1 && pos == 0
    {
      hide Sound, InOrder;
      ghost var l := Way();
      OrderForward(log, passed, applyQ, commitQ);
      applyQ := applyQ + commitQ[0];
      commitQ := commitQ[1..];
      taken, pos := taken - 1, 0;
      ForwardStep(State(), l, Way());
    }

    // ---------- Outcomes ----------

    /** The apply worker turns to the next entry and reads the clock. */
    method ApplyNext()
      requires Valid() && applyQ != [] && turn == NoTurn
      modifies this`applyQ, this`turn, this`passed
      ensures Valid() && turn == Turn(old(applyQ)[0], tick) && applyQ == old(applyQ)[1..]
      ensures passed == old(passed) + [old(applyQ)[0]]
    {
      hide Sound, InOrder;
      ghost var l := Way();
      OrderNext(log, passed, applyQ, commitQ);
      passed := passed + [applyQ[0]];
      turn := Turn(applyQ[0], tick);
      applyQ := applyQ[1..];
      NextStep(State(), l, Way());
    }

    method TakeOut(e: Entry, now: nat, code: Code)
      requires Valid() && (Ours(made, e) ==> e.key in queued)
      requires code == Dropped || (Applied(code) && turn == Turn(e, now))
      requires !stopped && Matches(pending, e) && pending[e.key].deadline >= now
      modifies this`pending, this`hand, this`turn
      ensures Valid() && turn == (if code == Dropped then old(turn) else NoTurn)
      ensures hand == old(hand)[e.key := code] && pending == old(pending) - {e.key}
    {
      hide Sound, InOrder, Ours;
      ghost var t, l := State(), Way();
      pending := pending - {e.key};
      hand := hand[e.key := code];
      turn := if code == Dropped then turn else NoTurn;
      TakeStep(t, l, State(), Way(), e, now, code);
    }

    /** Looks the request of a key up and takes it out of the table, for an entry dropped or applied. */
    method Take(e: Entry, now: nat, code: Code) returns (found: bool)
      requires Valid() && !locked && (Ours(made, e) ==> e.key in queued)
      requires code == Dropped || (Applied(code) && turn == Turn(e, now))
      modifies this`pending, this`hand, this`turn
      ensures Valid() && turn == (if code == Dropped then old(turn) else NoTurn)
      ensures found <==> !stopped && e.key in old(pending) && Ours(made, e) && made[e.key].deadline >= now
      ensures if found then hand == old(hand)[e.key := code] && pending == old(pending) - {e.key}
              else hand == old(hand) && pending == old(pending)
    {
      hide Sound, InOrder, Ours;
      MatchesOurs(State(), Way(), e);
      found := !stopped && Matches(pending, e) && pending[e.key].deadline >= now;
      if found {
        TakeOut(e, now, code);
      } else {
        ghost var l := Way();
        turn := if code == Dropped then turn else NoTurn;
        TurnStep(State(), l, Way());
      }
    }

    /** Delivers the outcome of a request that was taken. */
    method Notify(k: nat) returns (panicked: bool)
      requires Valid() && k in hand
      modifies this`hand, this`results
      ensures Valid() && !panicked && k !in old(results)
      ensures results == old(results)[k := old(hand)[k]] && hand == old(hand) - {k}
    {
      hide Sound, InOrder;
      ghost var t := State();
      panicked := k in results;
      results := results[k := hand[k]];
      hand := hand - {k};
      NotifyStep(t, Way(), State(), k);
    }

    method ExpireOne(k: nat) returns (panicked: bool)
      requires Valid() && !stopped && k in pending
      modifies this`pending, this`results
      ensures Valid() && !panicked && k !in old(results)
      ensures pending == old(pending) - {k} && results == old(results)[k := Timeout]
    {
      hide Sound, InOrder;
      ghost var t := State();
      panicked := k in results;
      results := results[k := Timeout];
      pending := pending - {k};
      ExpireStep(t, Way(), State(), k);
    }

    method SetLastGc(now: nat)
      requires Valid()
      modifies this`lastGc
      ensures Valid() && lastGc == now
    {
      hide Sound, InOrder;
      lastGc := now;
    }

    /** Times out overdue requests, at most once per period. */
    method Gc(now: nat) returns (panicked: bool)
      requires Valid() && !locked
      modifies this`pending, this`results, this`lastGc
      ensures Valid() && !panicked
      ensures forall k :: Collected(k, old(pending), old(results), pending, results, now)
      ensures if stopped || (now >= old(lastGc) && now - old(lastGc) < gcTick)
              then pending == old(pending) && results == old(results)
              else lastGc == now && forall k :: k in pending ==> pending[k].deadline >= now
    {
      hide Valid;
      panicked := false;
      if stopped || (now >= lastGc && now - lastGc < gcTick) {
        return;
      }
      SetLastGc(now);
      var todo := pending.Keys;
      while todo != {}
        invariant Valid() && !panicked && !stopped && !locked && lastGc == now && todo <= pending.Keys
        invariant forall k :: Collected(k, old(pending), old(results), pending, results, now)
        invariant forall k :: k in pending && k !in todo ==> pending[k].deadline >= now
        decreases todo
      {
        hide Collected;
        assert exists k :: k in todo by { SomeKey(todo); }
        var k :| k in todo;
        todo := todo - {k};
        if pending[k].deadline < now {
          ghost var p, r := pending, results;
          panicked := ExpireOne(k);
          CollectedMore(old(pending), old(results), p, r, now, k, pending, results);
        }
      }
    }

    // ---------- Closing ----------

    /** Takes the lock and stops the table; the queue is closed next. */
    method CloseBegin()
      requires Valid() && !stopped
      modifies this`stopped, this`locked
      ensures Valid() && stopped && locked
    {
      hide Sound, InOrder;
      ghost var t := State();
      stopped, locked := true, true;
      CloseStep(t, Way(), State());
    }

    /** Terminates every waiting request and releases the lock. */
    method CloseFinish() returns (panicked: bool)
      requires Valid() && locked && queueClosed
      modifies this`results, this`locked
      ensures Valid() && !panicked && !locked && forall k :: k in pending ==> k !in old(results)
      ensures forall k :: k in results <==> k in old(results) || k in pending
      ensures forall k :: k in results ==> results[k] == if k in pending then Terminated else old(results)[k]
      ensures forall k :: k in queued ==> k in hand || k in results
    {
      hide Sound, InOrder;
      ghost var t := State();
      panicked := false;
      NoneTold(t, Way());
      var todo := pending.Keys;
      while todo != {}
        invariant todo <= pending.Keys && locked && !panicked
        invariant forall k :: k in todo ==> k !in results
        invariant forall k :: k in results <==> k in t.results || (k in pending && k !in todo)
        invariant forall k :: k in results ==>
                    if k in pending then results[k] == Terminated else results[k] == t.results[k]
        decreases todo
      {
        assert exists k :: k in todo by { SomeKey(todo); }
        var k :| k in todo;
        todo := todo - {k};
        panicked := panicked || k in results;
        results := results[k := Terminated];
      }
      locked := false;
      ClosedStep(t, Way(), State());
    }

    // ---------- What every interleaving keeps ----------

    /** The commit worker is where it was, no request is new or told of a commit, and what was told stays told. */
    twostate predicate Quiet()
      reads this
    {
      && made == old(made) && signalled == old(signalled) && phase == old(phase) && pos == old(pos)
      && old(results).Keys <= results.Keys && old(queued) <= queued
      && (old(commitQ) != [] ==> commitQ != [] && commitQ[0] == old(commitQ)[0])
    }

    /** Any steps of any threads, in any order: no channel is ever full. */
    method AnyInterleaving() returns (panicked: bool)
      requires Valid()
      modifies this
      ensures Valid() && !panicked
    {
      hide *;
      panicked := false;
      var steps: int := *;
      while steps > 0
        invariant Valid() && !panicked
        decreases steps
      {
        steps := steps - 1;
        var what: int, k: int, now: int, read: int, flag: bool, e: Entry, code: Code := *, *, *, *, *, *, *;
        if k < 0 || now < 0 || read < 0 {
          continue;
        }
        if what == 0 && !locked && e.key !in made && e.key !in foreign && read <= tick && now > 0 {
          Enter(e.key, e.client, e.series, read, now);
        } else if what < 10 {
          panicked := CommitStep(what);
        } else {
          panicked := OtherStep(what, k, now, flag, e, code);
        }
      }
    }

    /** A step of the commit worker. */
    method CommitStep(what: int) returns (panicked: bool)
      requires Valid()
      modifies this
      ensures Valid() && !panicked
    {
      hide *;
      panicked := false;
      if what == 1 && taken == 0 {
        CommitTake();
      } else if what == 2 && taken > 0 && commitQ != [] && pos < |commitQ[0]| && phase == Idle {
        CommitRead();
      } else if what == 3 && phase.Read? && !locked {
        CommitFind();
      } else if what == 4 && phase.Found? {
        panicked := CommitSignal();
      } else if what == 5 && taken > 0 && commitQ != [] && pos == |commitQ[0]| && phase == Idle {
        CommitForward();
      }
    }

    /** A step of any other thread than an entering proposer. */
    method OtherStep(what: int, k: nat, now: nat, flag: bool, e: Entry, code: Code) returns (panicked: bool)
      requires Valid()
      modifies this
      ensures Valid() && !panicked && Quiet()
    {
      hide *;
      panicked := false;
      if what == 10 && now >= tick {
        Tick(now);
      } else if what == 11 && k in proposing && proposing[k] == Entered {
        var _, _ := Enqueue(k);
      } else if what == 12 && applyQ != [] && turn == NoTurn {
        ApplyNext();
      } else if what < 20 {
        QueueStep(what, flag);
      } else if what < 30 {
        panicked := TellStep(what, k, now);
      } else if !locked {
        LockedStep(what, k, now, e, code);
      }
      assert Quiet() by { StillQuiet(); }
    }

    twostate lemma StillQuiet()
      requires made == old(made) && signalled == old(signalled) && phase == old(phase) && pos == old(pos)
      requires old(results).Keys <= results.Keys && old(queued) <= queued
      requires old(commitQ) != [] ==> commitQ != [] && commitQ[0] == old(commitQ)[0]
      ensures Quiet()
    {
    }

    /** A step on the queues. */
    method QueueStep(what: int, flag: bool)
      requires Valid()
      modifies this`count, this`paused, this`queueClosed, this`foreign, this`pushed, this`commitQ, this`applyQ, this`log
      ensures Valid() && (old(commitQ) != [] ==> commitQ != [] && commitQ[0] == old(commitQ)[0])
    {
      hide *;
      if what == 13 {
        Drain(flag);
      } else if what == 14 {
        OtherEnqueues();
      } else if what == 15 {
        CloseQueue();
      } else if what == 16 {
        var task: seq<Entry> := *;
        if Committable(made, queued, pushed, task) {
          PushTask(task);
        }
      }
    }

    /** A step that may tell requests their outcome. */
    method TellStep(what: int, k: nat, now: nat) returns (panicked: bool)
      requires Valid()
      modifies this`hand, this`results, this`pending, this`lastGc, this`stopped, this`locked
      ensures Valid() && !panicked && old(results).Keys <= results.Keys
    {
      hide *;
      panicked := false;
      if what == 20 && k in hand {
        panicked := Notify(k);
      } else if what == 21 && locked && queueClosed {
        panicked := CloseFinish();
      } else if what == 22 && !stopped {
        CloseBegin();
      } else if what == 23 && !locked {
        ghost var p, r := pending, results;
        panicked := Gc(now);
        forall i | i in r ensures i in results {
          assert Collected(i, p, r, pending, results, now);
          StillTold(i, p, r, pending, results, now);
        }
      }
    }

    lemma TurnQueued()
      requires Valid() && turn.Turn?
      ensures Ours(made, turn.entry) ==> turn.entry.key in queued
    {
    }

    /** A step that takes the table's lock. */
    method LockedStep(what: int, k: nat, now: nat, e: Entry, code: Code)
      requires Valid() && !locked
      modifies this`pending, this`proposing, this`hand, this`turn
      ensures Valid()
    {
      hide *;
      if what == 30 && k in proposing && proposing[k] == Unqueued {
        Withdraw(k);
      } else if what == 31 && turn.Turn? && (code == Completed || code == Rejected) {
        TurnQueued();
        assert Applied(code) by { IsApplied(code); }
        var _ := Take(turn.entry, turn.now, code);
      } else if what == 32 && (Ours(made, e) ==> e.key in queued) {
        var _ := Take(e, now, Dropped);
      }
    }

    lemma Untold(k: nat)
      requires Valid() && !stopped && k in pending
      ensures k !in results
    {
      assert KeyOk(State(), k);
    }

    lemma ToldMade(k: nat)
      requires Valid() && k in results
      ensures k in made
    {
      assert KeyOk(State(), k);
    }

    lemma FoundNotified()
      requires Valid() && phase.Found?
      ensures notifyCommit
    {
      hide InOrder;
      FoundUntold(State(), Way());
    }

    lemma FoundFacts()
      requires Valid() && phase.Found?
      ensures commitQ != [] && pos < |commitQ[0]|
      ensures commitQ[0][pos].key !in signalled && commitQ[0][pos].key in made
    {
      hide InOrder;
      FoundUntold(State(), Way());
    }

    /** An accepted proposal is notified, about to be, or still waiting; and once closed, not waiting. */
    lemma NeverLost(k: nat)
      requires Valid() && k in queued
      ensures k in pending || k in hand || k in results
      ensures stopped && !locked ==> k in hand || k in results
      ensures k in hand ==> k !in results && k !in pending
    {
      assert KeyOk(State(), k);
    }

    /** The apply worker turns to the entries in the order raft committed them, and misses none. */
    lemma AppliedInOrder()
      requires Valid()
      ensures passed <= log
      ensures applyQ == [] && commitQ == [] ==> passed == log
    {
      hide Sound;
    }

    /** A request told of its result has been told of the commit before. */
    lemma CommittedBeforeApplied(k: nat)
      requires Valid() && notifyCommit && k in results && Applied(results[k])
      ensures k in signalled
    {
      assert KeyOk(State(), k);
    }
  }

  lemma IsApplied(c: Code)
    requires c == Completed || c == Rejected
    ensures Applied(c)
  {
  }

  lemma SomeKey(keys: set<nat>)
    ensures keys == {} || exists k :: k in keys
  {
    if forall k :: k !in keys {
      assert keys == {};
    }
  }
}
