/**
 Linearizable reads waiting for their turn. A read enters a double-buffered queue, is taken
 together with others into a batch, waits until the raft layer confirms an index for the
 batch, and is served once the state machine has applied that index.
 */
module PendingReads {

  datatype Option<T> = None | Some(value: T)

  datatype Code = Completed | Dropped | Timeout | Terminated

  // ---------- The double buffer ----------

  /** How far closing has got: stopped under the lock, queue closed, queue taken, and done. */
  datatype Stage = Running | Stopping | Shut | Telling | Closed

  /** Two buffers of one size: one takes new requests while the other is lent to the reader. */
  class Queue {
    const size: nat
    const left: array<nat>
    const right: array<nat>
    var leftInWrite: bool
    var stopped: bool
    var idx: nat

    ghost predicate Valid()
      reads this
    {
      left != right && left.Length == right.Length == size && idx <= size
    }

    function Target(): array<nat>
      reads this
    {
      if leftInWrite then left else right
    }

    /** The requests waiting to be taken, in order. */
    ghost function Contents(): seq<nat>
      requires Valid()
      reads this, left, right
    {
      Target()[..idx]
    }

    constructor (size: nat)
      ensures Valid() && fresh(left) && fresh(right) && Contents() == [] && !stopped && this.size == size
    {
      this.size := size;
      left, right := new nat[size](_ => 0), new nat[size](_ => 0);
      leftInWrite, stopped, idx := false, false, 0;
    }

    method Close()
      requires Valid()
      modifies this`stopped
      ensures Valid() && stopped && Contents() == old(Contents())
    {
      stopped := true;
    }

    /** Adds a request unless the buffer is full or the queue closed; the lent buffer is not touched. */
    method Add(r: nat) returns (added: bool, closed: bool)
      requires Valid()
      modifies this`idx, Target()
      ensures Valid() && Target() == old(Target()) && closed == (!added && stopped)
      ensures added <==> old(idx) < size && !stopped
      ensures Contents() == if added then old(Contents()) + [r] else old(Contents())
      ensures !added ==> Target()[..] == old(Target()[..])
    {
      if idx >= size {
        return false, stopped;
      }
      if stopped {
        return false, true;
      }
      var w := Target();
      w[idx] := r;
      idx := idx + 1;
      return true, false;
    }

    /** Lends out the filled buffer and turns to the other one. */
    method Get() returns (lent: array<nat>, n: nat)
      requires Valid()
      modifies this`idx, this`leftInWrite
      ensures Valid() && Contents() == [] && n <= lent.Length
      ensures lent[..n] == old(Contents()) && lent == old(Target()) && lent != Target()
    {
      n := idx;
      idx := 0;
      lent := Target();
      leftInWrite := !leftInWrite;
    }
  }

  // ---------- Batches ----------

  /** The name of a batch: a random part and the time after which it may be forgotten. */
  datatype Ctx = Ctx(low: nat, high: nat)

  /** Reads that share one confirmation; index 0 means not confirmed yet. */
  datatype Batch = Batch(index: nat, requests: seq<Option<nat>>)

  /** Where an accepted read is. */
  datatype Place = InQueue(i: nat) | InHand(i: nat) | InClosing(i: nat) | InBatch(ctx: Ctx, i: nat) | Done | Lost

  datatype Table = Table(queue: seq<nat>, hand: seq<nat>, closing: seq<nat>, batches: map<Ctx, Batch>,
                         results: map<nat, Code>, lost: set<nat>)

  ghost predicate Located(t: Table, r: nat, p: Place) {
    match p
    case InQueue(i) => i < |t.queue| && t.queue[i] == r
    case InHand(i) => i < |t.hand| && t.hand[i] == r
    case InClosing(i) => i < |t.closing| && t.closing[i] == r
    case InBatch(c, i) => c in t.batches && i < |t.batches[c].requests| && t.batches[c].requests[i] == Some(r)
    case Done => r in t.results
    case Lost => r in t.lost
  }

  type Places = map<nat, Place>

  /** Every accepted read is at exactly one place. */
  ghost predicate TableOk(t: Table, where: Places) {
    && (forall r {:trigger where[r]} :: r in where ==> Located(t, r, where[r]))
    && (forall r, p {:trigger Located(t, r, p)} :: Located(t, r, p) ==> r in where && where[r] == p)
  }

  lemma Queued(t: Table, where: Places, r: nat)
    requires TableOk(t, where) && r !in where
    ensures TableOk(t.(queue := t.queue + [r]), where[r := InQueue(|t.queue|)])
  {
    var u, next := t.(queue := t.queue + [r]), where[r := InQueue(|t.queue|)];
    forall x | x in next ensures Located(u, x, next[x]) {
      assert x == r || Located(t, x, where[x]);
    }
    forall x, p | Located(u, x, p) ensures x in next && next[x] == p {
      assert p == InQueue(|t.queue|) || Located(t, x, p);
    }
  }

  function Taken(p: Place): Place { if p.InQueue? then InHand(p.i) else p }

  ghost function AllTaken(where: Places): (next: Places)
    ensures next.Keys == where.Keys
  {
    map r | r in where :: Taken(where[r])
  }

  lemma TakenOk(t: Table, where: Places)
    requires TableOk(t, where) && t.hand == []
    ensures TableOk(t.(hand := t.queue, queue := []), AllTaken(where))
  {
    var u, next := t.(hand := t.queue, queue := []), AllTaken(where);
    forall x | x in next ensures Located(u, x, next[x]) {
      assert Located(t, x, where[x]);
    }
    forall x, p | Located(u, x, p) ensures x in next && next[x] == p {
      assert Located(t, x, if p.InHand? then InQueue(p.i) else p);
    }
  }

  function Withdrawn(p: Place): Place { if p.InQueue? then InClosing(p.i) else p }

  ghost function AllWithdrawn(where: Places): (next: Places)
    ensures next.Keys == where.Keys
  {
    map r | r in where :: Withdrawn(where[r])
  }

  lemma WithdrawnOk(t: Table, where: Places)
    requires TableOk(t, where) && t.closing == []
    ensures TableOk(t.(closing := t.queue, queue := []), AllWithdrawn(where))
  {
    var u, next := t.(closing := t.queue, queue := []), AllWithdrawn(where);
    forall x | x in next ensures Located(u, x, next[x]) {
      assert Located(t, x, where[x]);
    }
    forall x, p | Located(u, x, p) ensures x in next && next[x] == p {
      assert Located(t, x, if p.InClosing? then InQueue(p.i) else p);
    }
  }

  function Batched(p: Place, c: Ctx): Place { if p.InHand? then InBatch(c, p.i) else p }

  ghost function AllBatched(where: Places, c: Ctx): (next: Places)
    ensures next.Keys == where.Keys
  {
    map r | r in where :: Batched(where[r], c)
  }

  function Wrapped(hand: seq<nat>): seq<Option<nat>> { seq(|hand|, i requires 0 <= i < |hand| => Some(hand[i])) }

  lemma BatchedOk(t: Table, where: Places, c: Ctx)
    requires TableOk(t, where) && c !in t.batches
    ensures TableOk(t.(hand := [], batches := t.batches[c := Batch(0, Wrapped(t.hand))]),
                    AllBatched(where, c))
  {
    var u := t.(hand := [], batches := t.batches[c := Batch(0, Wrapped(t.hand))]);
    var next := AllBatched(where, c);
    forall x | x in next ensures Located(u, x, next[x]) {
      assert Located(t, x, where[x]);
    }
    forall x, p | Located(u, x, p) ensures x in next && next[x] == p {
      assert Located(t, x, if p.InBatch? && p.ctx == c then InHand(p.i) else p);
    }
  }

  ghost function AllForgotten(where: Places): (next: Places)
    ensures next.Keys == where.Keys
  {
    map r | r in where :: if where[r].InHand? then Lost else where[r]
  }

  ghost function Members(s: seq<nat>): set<nat> { set r | r in s }

  lemma LostOk(t: Table, where: Places)
    requires TableOk(t, where)
    ensures TableOk(t.(hand := [], lost := t.lost + Members(t.hand)),
                    AllForgotten(where))
  {
    var u := t.(hand := [], lost := t.lost + Members(t.hand));
    var next := AllForgotten(where);
    forall x | x in next ensures Located(u, x, next[x]) {
      assert Located(t, x, where[x]);
    }
    forall x, p | Located(u, x, p) ensures x in next && next[x] == p {
      if p == Lost && x !in t.lost {
        var i :| 0 <= i < |t.hand| && t.hand[i] == x;
        assert Located(t, x, InHand(i));
      } else {
        assert Located(t, x, p);
      }
    }
  }

  /** Confirming an index moves nothing. */
  lemma ConfirmedOk(t: Table, where: Places, c: Ctx, index: nat)
    requires TableOk(t, where) && c in t.batches
    ensures TableOk(t.(batches := t.batches[c := t.batches[c].(index := index)]), where)
  {
    var u := t.(batches := t.batches[c := t.batches[c].(index := index)]);
    forall x | x in where ensures Located(u, x, where[x]) {
      assert Located(t, x, where[x]);
    }
    forall x, p | Located(u, x, p) ensures x in where && where[x] == p {
      assert Located(t, x, p);
    }
  }

  lemma NotifiedOk(t: Table, where: Places, c: Ctx, i: nat, code: Code)
    requires TableOk(t, where) && c in t.batches && i < |t.batches[c].requests| && t.batches[c].requests[i].Some?
    ensures var r := t.batches[c].requests[i].value;
            && r in where && r !in t.results
            && TableOk(t.(batches := t.batches[c := t.batches[c].(requests := t.batches[c].requests[i := None])],
                          results := t.results[r := code]), where[r := Done])
  {
    var r := t.batches[c].requests[i].value;
    assert Located(t, r, InBatch(c, i));
    assert Located(t, r, Done) <==> r in t.results;
    var u := t.(batches := t.batches[c := t.batches[c].(requests := t.batches[c].requests[i := None])],
                results := t.results[r := code]);
    var next := where[r := Done];
    forall x | x in next ensures Located(u, x, next[x]) {
      assert x == r || Located(t, x, where[x]);
    }
    forall x, p | Located(u, x, p) ensures x in next && next[x] == p {
      assert (x == r && p == Done) || Located(t, x, p);
    }
  }

  lemma EmptiedOk(t: Table, where: Places, c: Ctx)
    requires TableOk(t, where) && c in t.batches
    requires forall i :: 0 <= i < |t.batches[c].requests| ==> t.batches[c].requests[i].None?
    ensures TableOk(t.(batches := t.batches - {c}), where)
  {
    var u := t.(batches := t.batches - {c});
    forall x | x in where ensures Located(u, x, where[x]) {
      assert Located(t, x, where[x]);
    }
    forall x, p | Located(u, x, p) ensures x in where && where[x] == p {
      assert Located(t, x, p);
    }
  }

  lemma LastOk(t: Table, where: Places, code: Code)
    requires TableOk(t, where) && t.closing != []
    ensures var n := |t.closing| - 1;
            var r := t.closing[n];
            && r !in t.results && r in where
            && TableOk(t.(closing := t.closing[..n], results := t.results[r := code]), where[r := Done])
  {
    var n := |t.closing| - 1;
    var r := t.closing[n];
    assert Located(t, r, InClosing(n));
    assert Located(t, r, Done) <==> r in t.results;
    var u, next := t.(closing := t.closing[..n], results := t.results[r := code]), where[r := Done];
    forall x | x in next ensures Located(u, x, next[x]) {
      assert x == r || Located(t, x, where[x]);
    }
    forall x, p | Located(u, x, p) ensures x in next && next[x] == p {
      assert (x == r && p == Done) || Located(t, x, p);
    }
  }

  // ---------- The table of reads ----------

  /** Served reads, and only they, have seen the applied index reach their confirmed index. */
  ghost predicate ServedOk(results: map<nat, Code>, ready: set<nat>, served: map<nat, (nat, nat)>) {
    && (forall r :: r in ready <==> r in results && results[r] == Completed)
    && (forall r :: r in ready ==> r in served && 0 < served[r].0 <= served[r].1)
  }

  /** Told `told`: a batch that is served may still be too late for a read; otherwise all are told the same. */
  ghost predicate Fits(told: Code, deadline: nat, serve: bool, code: Code, now: nat) {
    if serve then (if now < deadline then told == Completed else told == Timeout) else told == code
  }

  /** Every read of a batch has been told its outcome. */
  ghost predicate Answered(q: seq<Option<nat>>, results: map<nat, Code>, deadline: map<nat, nat>,
                           serve: bool, code: Code, now: nat) {
    forall i :: 0 <= i < |q| && q[i].Some? ==>
      var r := q[i].value;
      r in deadline && r in results && Fits(results[r], deadline[r], serve, code, now)
  }

  /** A served batch: a read whose deadline is still ahead may go ahead, any other has timed out. */
  ghost predicate GoneAhead(q: seq<Option<nat>>, results: map<nat, Code>, ready: set<nat>, deadline: map<nat, nat>,
                            now: nat) {
    forall i :: 0 <= i < |q| && q[i].Some? ==>
      var r := q[i].value;
      && r in deadline && r in results
      && if deadline[r] > now then results[r] == Completed && r in ready else results[r] == Timeout && r !in ready
  }

  lemma AnsweredAhead(q: seq<Option<nat>>, results: map<nat, Code>, ready: set<nat>, served: map<nat, (nat, nat)>,
                      deadline: map<nat, nat>, now: nat)
    requires Answered(q, results, deadline, true, Timeout, now) && ServedOk(results, ready, served)
    ensures GoneAhead(q, results, ready, deadline, now)
  {
  }

  ghost predicate Grown(results: map<nat, Code>, after: map<nat, Code>) {
    forall r :: r in results ==> r in after && after[r] == results[r]
  }

  lemma AnsweredMore(q: seq<Option<nat>>, i: nat, results: map<nat, Code>, after: map<nat, Code>, deadline: map<nat, nat>,
                     serve: bool, code: Code, now: nat)
    requires i < |q| && Answered(q[..i], results, deadline, serve, code, now) && Grown(results, after)
    requires q[i].Some? ==> q[i].value in deadline && q[i].value in after &&
                            Fits(after[q[i].value], deadline[q[i].value], serve, code, now)
    ensures Answered(q[..i + 1], after, deadline, serve, code, now)
  {
    hide Fits;
    forall k | 0 <= k < i + 1 && q[k].Some?
      ensures q[k].value in deadline && q[k].value in after &&
              Fits(after[q[k].value], deadline[q[k].value], serve, code, now)
    {
      assert k < i ==> q[..i][k] == q[k];
    }
  }

  lemma NoneAsked(results: map<nat, Code>, deadline: map<nat, nat>, serve: bool, code: Code, now: nat)
    ensures Answered([], results, deadline, serve, code, now)
  {
  }

  lemma AnsweredStill(q: seq<Option<nat>>, results: map<nat, Code>, after: map<nat, Code>, deadline: map<nat, nat>,
                      serve: bool, code: Code, now: nat)
    requires Answered(q, results, deadline, serve, code, now) && Grown(results, after)
    ensures Answered(q, after, deadline, serve, code, now)
  {
    hide Fits;
  }

  /** One place of a batch before and after a sweep: only an overdue read is gone, and it has been told. */
  ghost predicate SlotSwept(before: Option<nat>, after: Option<nat>, results: map<nat, Code>,
                            deadline: map<nat, nat>, now: nat) {
    match before
    case None => after == None
    case Some(r) =>
      && r in deadline
      && if deadline[r] < now then after == None && r in results && results[r] == Timeout else after == before
  }

  ghost predicate Swept(q: seq<Option<nat>>, after: seq<Option<nat>>, results: map<nat, Code>,
                        deadline: map<nat, nat>, now: nat) {
    |q| == |after| && forall i :: 0 <= i < |q| ==> SlotSwept(q[i], after[i], results, deadline, now)
  }

  /** What is left of a batch that had n places. */
  ghost function Left(batches: map<Ctx, Batch>, c: Ctx, n: nat): seq<Option<nat>> {
    if c in batches then batches[c].requests else seq(n, _ => None)
  }

  predicate Waiting(q: seq<Option<nat>>) { exists i :: 0 <= i < |q| && q[i].Some? }

  lemma WaitingMeans(q: seq<Option<nat>>)
    ensures Waiting(q) <==> exists i :: 0 <= i < |q| && q[i].Some?
  {
  }

  /** What became of one batch in a sweep. */
  ghost predicate BatchSwept(b: Batch, c: Ctx, batches: map<Ctx, Batch>, results: map<nat, Code>,
                             deadline: map<nat, nat>, now: nat) {
    && Swept(b.requests, Left(batches, c, |b.requests|), results, deadline, now)
    && if c in batches then batches[c].index == b.index else c.high < now
  }

  lemma SweptStill(b: Batch, c: Ctx, batches: map<Ctx, Batch>, next: map<Ctx, Batch>,
                   results: map<nat, Code>, after: map<nat, Code>, deadline: map<nat, nat>, now: nat)
    requires BatchSwept(b, c, batches, results, deadline, now) && Grown(results, after)
    requires c in next <==> c in batches
    requires c in next ==> next[c] == batches[c]
    ensures BatchSwept(b, c, next, after, deadline, now)
  {
    var q := b.requests;
    var l := Left(batches, c, |q|);
    forall i | 0 <= i < |q| ensures SlotSwept(q[i], l[i], after, deadline, now) {
      assert SlotSwept(q[i], l[i], results, deadline, now);
    }
  }

  lemma SweptAway(b: Batch, c: Ctx, batches: map<Ctx, Batch>, results: map<nat, Code>, deadline: map<nat, nat>, now: nat)
    requires c in batches && BatchSwept(b, c, batches, results, deadline, now) && c.high < now
    requires !Waiting(batches[c].requests)
    ensures BatchSwept(b, c, batches - {c}, results, deadline, now)
  {
    hide SlotSwept;
    assert Left(batches, c, |b.requests|) == Left(batches - {c}, c, |b.requests|);
  }

  lemma StillServed(results: map<nat, Code>, ready: set<nat>, served: map<nat, (nat, nat)>, r: nat)
    requires ServedOk(results, ready, served) && r !in results
    ensures ServedOk(results[r := Terminated], ready, served)
  {
  }

  /** Earlier answers stay, and every new one says that the table was closed. */
  ghost predicate Ended(results: map<nat, Code>, after: map<nat, Code>) {
    Grown(results, after) && forall r :: r in after && r !in results ==> after[r] == Terminated
  }

  lemma EndedMore(a: map<nat, Code>, b: map<nat, Code>, c: map<nat, Code>)
    requires Ended(a, b) && Ended(b, c)
    ensures Ended(a, c)
  {
  }

  // ---------- The books as a whole ----------

  /** All that is known of the reads, apart from how the queue is stored. */
  datatype Book = Book(t: Table, where: Places, ready: set<nat>, served: map<nat, (nat, nat)>, deadline: map<nat, nat>,
                       stage: Stage)

  ghost predicate Sound(b: Book) {
    && TableOk(b.t, b.where) && ServedOk(b.t.results, b.ready, b.served)
    && (forall r :: r in b.where ==> r in b.deadline)
    && (b.stage == Telling || b.stage == Closed ==> b.t.queue == [])
    && (b.stage != Telling ==> b.t.closing == [])
    && (b.stage == Closed ==> b.t.batches == map[])
    && (b.t.lost != {} ==> b.stage != Running)
  }

  lemma ReadStep(b: Book, c: Book, r: nat, d: nat)
    requires Sound(b) && r !in b.where && (b.stage == Running || b.stage == Stopping)
    requires c == b.(t := b.t.(queue := b.t.queue + [r]), where := b.where[r := InQueue(|b.t.queue|)],
                     deadline := b.deadline[r := d])
    ensures Sound(c)
  {
    hide TableOk, ServedOk;
    Queued(b.t, b.where, r);
  }

  lemma TakeStep(b: Book, c: Book)
    requires Sound(b) && b.t.hand == []
    requires c == b.(t := b.t.(hand := b.t.queue, queue := []), where := AllTaken(b.where))
    ensures Sound(c)
  {
    hide TableOk, ServedOk;
    TakenOk(b.t, b.where);
  }

  lemma WithdrawStep(b: Book, c: Book)
    requires Sound(b) && b.stage == Shut
    requires c == b.(t := b.t.(closing := b.t.queue, queue := []), where := AllWithdrawn(b.where),
                     stage := Telling)
    ensures Sound(c)
  {
    hide TableOk, ServedOk;
    WithdrawnOk(b.t, b.where);
  }

  lemma LoseStep(b: Book, c: Book)
    requires Sound(b) && b.stage != Running
    requires c == b.(t := b.t.(hand := [], lost := b.t.lost + Members(b.t.hand)),
                     where := AllForgotten(b.where))
    ensures Sound(c)
  {
    hide TableOk, ServedOk;
    LostOk(b.t, b.where);
  }

  lemma BatchStep(b: Book, c: Book, ctx: Ctx)
    requires Sound(b) && b.stage == Running && ctx !in b.t.batches
    requires c == b.(t := b.t.(hand := [], batches := b.t.batches[ctx := Batch(0, Wrapped(b.t.hand))]),
                     where := AllBatched(b.where, ctx))
    ensures Sound(c)
  {
    hide TableOk, ServedOk;
    BatchedOk(b.t, b.where, ctx);
  }

  lemma ConfirmStep(b: Book, c: Book, ctx: Ctx, index: nat)
    requires Sound(b) && ctx in b.t.batches
    requires c == b.(t := b.t.(batches := b.t.batches[ctx := b.t.batches[ctx].(index := index)]))
    ensures Sound(c)
  {
    hide TableOk, ServedOk;
    ConfirmedOk(b.t, b.where, ctx, index);
  }

  function Struck(b: Batch, i: nat): Batch
    requires i < |b.requests|
  {
    b.(requests := b.requests[i := None])
  }

  lemma NotifyStep(b: Book, c: Book, ctx: Ctx, i: nat, r: nat, code: Code, applied: nat)
    requires Sound(b) && ctx in b.t.batches && i < |b.t.batches[ctx].requests| && b.t.batches[ctx].requests[i] == Some(r)
    requires code == Completed ==> 0 < b.t.batches[ctx].index <= applied
    requires c == b.(t := b.t.(batches := b.t.batches[ctx := Struck(b.t.batches[ctx], i)],
                               results := b.t.results[r := code]),
                     where := b.where[r := Done],
                     ready := if code == Completed then b.ready + {r} else b.ready,
                     served := if code == Completed then b.served[r := (b.t.batches[ctx].index, applied)] else b.served)
    ensures Sound(c) && r !in b.t.results && r in b.where
  {
    hide TableOk;
    NotifiedOk(b.t, b.where, ctx, i, code);
  }

  /** A read in a batch has not been told, and has a deadline. */
  lemma WaitingRead(b: Book, ctx: Ctx, i: nat)
    requires Sound(b) && ctx in b.t.batches && i < |b.t.batches[ctx].requests| && b.t.batches[ctx].requests[i].Some?
    ensures b.t.batches[ctx].requests[i].value in b.deadline && b.t.batches[ctx].requests[i].value !in b.t.results
  {
    NotifiedOk(b.t, b.where, ctx, i, Timeout);
  }

  lemma EmptyStep(b: Book, c: Book, ctx: Ctx)
    requires Sound(b) && ctx in b.t.batches && c == b.(t := b.t.(batches := b.t.batches - {ctx}))
    requires forall i :: 0 <= i < |b.t.batches[ctx].requests| ==> b.t.batches[ctx].requests[i].None?
    ensures Sound(c)
  {
    hide TableOk, ServedOk;
    EmptiedOk(b.t, b.where, ctx);
  }

  lemma LastStep(b: Book, c: Book, n: nat, r: nat)
    requires Sound(b) && b.stage == Telling && |b.t.closing| == n + 1 && b.t.closing[n] == r
    requires c == b.(t := b.t.(closing := b.t.closing[..n], results := b.t.results[r := Terminated]),
                     where := b.where[r := Done])
    ensures Sound(c) && r !in b.t.results && r in b.where
  {
    hide TableOk, ServedOk;
    LastOk(b.t, b.where, Terminated);
    StillServed(b.t.results, b.ready, b.served, r);
  }

  lemma StageStep(b: Book, c: Book)
    requires Sound(b) && c == b.(stage := c.stage)
    requires || (b.stage == Running && c.stage == Stopping) || (b.stage == Stopping && c.stage == Shut)
             || (b.stage == Telling && c.stage == Closed && b.t.closing == [] && b.t.batches == map[])
    ensures Sound(c)
  {
    hide TableOk, ServedOk;
  }

  class Reads {
    // The queue of new reads, the slice of it the stepping thread has just taken, and the one closing took.
    const q: Queue
    var handArr: array<nat>
    var handLen: nat
    var closeArr: array<nat>
    var closeLen: nat
    // The batches and the clock.
    var stage: Stage
    var batches: map<Ctx, Batch>
    var tick: nat
    var gcTick: nat
    var lastGc: nat
    var deadline: map<nat, nat>
    // What the requests have been told.
    var results: map<nat, Code>
    var ready: set<nat>
    // The reads in the queue, and those in the two slices when they were taken.
    ghost var queue: seq<nat>
    ghost var hand: seq<nat>
    ghost var closing: seq<nat>
    // Reads forgotten, the place of each read, and the confirmed and applied index when it was served.
    ghost var lost: set<nat>
    ghost var where: Places
    ghost var served: map<nat, (nat, nat)>

    ghost function All(): Book
      reads this
    {
      Book(Table(queue, hand, closing, batches, results, lost), where, ready, served, deadline, stage)
    }

    predicate Locked()
      reads this
    {
      stage == Stopping || stage == Shut || stage == Telling
    }

    /** The slices still show what was taken: new reads go to the other buffer, or nowhere. */
    ghost predicate Linked()
      reads this`handArr, this`handLen, this`closeArr, this`closeLen, this`queue, this`hand, this`closing, this`stage
      reads q, q.left, q.right
    {
      && q.Valid() && q.Contents() == queue
      && (handArr == q.left || handArr == q.right) && handLen <= q.size && handArr[..handLen] == hand
      && (closeArr == q.left || closeArr == q.right) && closeLen <= q.size && closeArr[..closeLen] == closing
      && (handLen > 0 && !q.stopped ==> handArr != q.Target())
      && (q.stopped <==> stage != Running && stage != Stopping) && (stage != Telling ==> closeLen == 0)
    }

    ghost predicate Valid()
      reads this, q, q.left, q.right
    {
      Linked() && Sound(All())
    }

    constructor (gcTick: nat, size: nat)
      ensures Valid() && stage == Running && queue == [] && hand == [] && where == map[] && q.size == size
      ensures tick == lastGc == 0 && batches == map[] && results == map[] && ready == {} && this.gcTick == gcTick
      ensures fresh(q) && fresh(q.left) && fresh(q.right)
    {
      var fresh' := new Queue(size);
      q := fresh';
      handArr, handLen, closeArr, closeLen := fresh'.left, 0, fresh'.left, 0;
      batches, stage := map[], Running;
      tick, lastGc, deadline, results, ready := 0, 0, map[], map[], {};
      this.gcTick := gcTick;
      queue, hand, closing, lost, where, served := [], [], [], {}, map[], map[];
    }

    // ---------- The queue and the slices taken from it ----------

    method Store(r: nat) returns (added: bool, closed: bool)
      requires Linked()
      modifies this`queue, q`idx, q.left, q.right
      ensures Linked() && (added <==> |old(queue)| < q.size && !q.stopped) && closed == (!added && q.stopped)
      ensures queue == if added then old(queue) + [r] else old(queue)
    {
      ghost var h, c := handArr[..], closeArr[..];
      added, closed := q.Add(r);
      if added {
        queue := queue + [r];
        assert handLen > 0 ==> handArr[..] == h;
      } else {
        assert handArr[..] == h && closeArr[..] == c;
      }
      assert handArr[..handLen] == h[..handLen] && closeArr[..closeLen] == c[..closeLen];
    }

    method LendHand()
      requires Linked() && handLen == 0
      modifies this`queue, this`hand, this`handArr, this`handLen, q`idx, q`leftInWrite
      ensures Linked() && hand == old(queue) && queue == []
    {
      handArr, handLen := q.Get();
      hand, queue := queue, [];
    }

    method LendClosing()
      requires Linked() && stage == Shut
      modifies this`stage, this`queue, this`closing, this`closeArr, this`closeLen, q`idx, q`leftInWrite
      ensures Linked() && closing == old(queue) && queue == [] && stage == Telling
    {
      closeArr, closeLen := q.Get();
      closing, queue := queue, [];
      stage := Telling;
    }

    method DropHand()
      requires Linked()
      modifies this`hand, this`handLen
      ensures Linked() && hand == []
    {
      hand, handLen := [], 0;
    }

    // ---------- Reading ----------

    /** A read enters the queue unless it is full or closed. */
    method Read(r: nat, timeout: nat) returns (accepted: bool, closed: bool)
      requires Valid() && r !in where && timeout > 0
      modifies this`queue, this`deadline, this`where, q`idx, q.left, q.right
      ensures Valid() && (accepted <==> |old(queue)| < q.size && !q.stopped) && closed == (!accepted && q.stopped)
      ensures accepted ==> queue == old(queue) + [r] && deadline == old(deadline)[r := tick + timeout] && r in where
      ensures !accepted ==> queue == old(queue) && deadline == old(deadline) && where == old(where)
    {
      hide Sound, Linked;
      ghost var b := All();
      OpenQueue();
      accepted, closed := Store(r);
      if accepted {
        where := where[r := InQueue(|b.t.queue|)];
        deadline := deadline[r := tick + timeout];
        ReadStep(b, All(), r, tick + timeout);
      }
    }

    /** The stepping thread takes what is queued. */
    method TakeHand()
      requires Valid() && handLen == 0
      modifies this`queue, this`hand, this`handArr, this`handLen, this`where, q`idx, q`leftInWrite
      ensures Valid() && hand == old(queue) && queue == [] && where.Keys == old(where).Keys
    {
      hide Sound, Linked, AllTaken;
      SliceIntact();
      ghost var b := All();
      LendHand();
      where := AllTaken(where);
      TakeStep(b, All());
    }

    method Forget()
      requires Valid() && stage != Running
      modifies this`hand, this`handLen, this`where, this`lost
      ensures Valid() && hand == [] && lost == old(lost) + Members(old(hand)) && where.Keys == old(where).Keys
    {
      hide Sound, Linked, AllForgotten, Members;
      ghost var b := All();
      DropHand();
      lost := lost + Members(b.t.hand);
      where := AllForgotten(where);
      LoseStep(b, All());
    }

    method Keep(ctx: Ctx)
      requires Valid() && stage == Running && ctx !in batches
      modifies this`hand, this`handLen, this`batches, this`where
      ensures Valid() && hand == [] && where.Keys == old(where).Keys
      ensures batches == old(batches)[ctx := Batch(0, Wrapped(old(hand)))]
    {
      hide Sound, Linked, AllBatched, Wrapped;
      ghost var b := All();
      SliceIntact();
      batches := batches[ctx := Batch(0, Wrapped(handArr[..handLen]))];
      DropHand();
      where := AllBatched(where, ctx);
      BatchStep(b, All(), ctx);
    }

    /** It makes a batch of them; if the table has been closed meanwhile, they are forgotten. */
    method AddBatch(ctx: Ctx) returns (panicked: bool)
      requires Valid() && !Locked()
      modifies this`hand, this`handLen, this`batches, this`where, this`lost
      ensures Valid() && (panicked <==> stage == Running && ctx in old(batches))
      ensures where.Keys == old(where).Keys
      ensures stage == Closed ==> batches == old(batches) && hand == [] && lost == old(lost) + Members(old(hand))
      ensures stage == Running && !panicked ==>
                hand == [] && lost == old(lost) && batches == old(batches)[ctx := Batch(0, Wrapped(old(hand)))]
    {
      hide Sound, Linked, Members, Wrapped;
      panicked := false;
      if stage != Running {
        Forget();
      } else if ctx in batches {
        panicked := true;
      } else {
        Keep(ctx);
      }
    }

    /** The raft layer confirms an index for a batch. */
    method AddReady(ctx: Ctx, index: nat)
      requires Valid() && !Locked()
      modifies this`batches
      ensures Valid() && batches.Keys == old(batches).Keys
      ensures forall c :: c in batches ==>
                batches[c] == old(batches)[c].(index := if c == ctx then index else old(batches)[c].index)
    {
      hide Sound, Linked;
      if ctx in batches {
        ghost var b := All();
        batches := batches[ctx := batches[ctx].(index := index)];
        ConfirmStep(b, All(), ctx, index);
      }
    }

    /** Tells the read in one place of a batch its outcome. */
    method NotifySlot(ctx: Ctx, i: nat, code: Code, ghost applied: nat) returns (panicked: bool)
      requires Valid() && ctx in batches && i < |batches[ctx].requests| && batches[ctx].requests[i].Some?
      requires code == Completed ==> 0 < batches[ctx].index <= applied
      modifies this`batches, this`results, this`ready, this`where, this`served
      ensures Valid() && !panicked
      ensures batches == old(batches)[ctx := old(batches)[ctx].(requests := old(batches)[ctx].requests[i := None])]
      ensures old(batches)[ctx].requests[i].value !in old(results) && where.Keys == old(where).Keys
      ensures results == old(results)[old(batches)[ctx].requests[i].value := code]
    {
      hide Sound, Linked;
      ghost var b := All();
      var r := batches[ctx].requests[i].value;
      panicked := r in results;
      if code == Completed {
        ready := ready + {r};
      }
      served := if code == Completed then served[r := (batches[ctx].index, applied)] else served;
      results := results[r := code];
      batches := batches[ctx := Struck(batches[ctx], i)];
      where := where[r := Done];
      NotifyStep(b, All(), ctx, i, r, code, applied);
    }

    /** Tells every read of a batch its outcome and removes the batch. */
    method NotifyBatch(ctx: Ctx, serve: bool, code: Code, now: nat, ghost applied: nat) returns (panicked: bool)
      requires Valid() && ctx in batches && code != Completed
      requires serve ==> 0 < batches[ctx].index <= applied
      modifies this`batches, this`results, this`ready, this`where, this`served
      ensures Valid() && !panicked && batches == old(batches) - {ctx} && where.Keys == old(where).Keys
      ensures Answered(old(batches)[ctx].requests, results, deadline, serve, code, now) && Grown(old(results), results)
      ensures forall r :: r in results && r !in old(results) ==> Some(r) in old(batches)[ctx].requests
    {
      hide Sound, Linked, Answered;
      panicked := false;
      ghost var reqs := batches[ctx].requests;
      assert Answered(reqs[..0], results, deadline, serve, code, now) by { NoneAsked(results, deadline, serve, code, now); }
      for i := 0 to |batches[ctx].requests|
        invariant Valid() && !panicked && ctx in batches && batches - {ctx} == old(batches) - {ctx}
        invariant where.Keys == old(where).Keys
        invariant |batches[ctx].requests| == |reqs| && batches[ctx].index == old(batches)[ctx].index
        invariant forall k :: 0 <= k < |reqs| ==> batches[ctx].requests[k] == if k < i then None else reqs[k]
        invariant Answered(reqs[..i], results, deadline, serve, code, now) && Grown(old(results), results)
        invariant forall r :: r in results && r !in old(results) ==> Some(r) in reqs
      {
        ghost var before := results;
        if batches[ctx].requests[i].Some? {
          var r := batches[ctx].requests[i].value;
          assert reqs[i] == Some(r);
          WaitingRead(All(), ctx, i);
          var told := if !serve then code else if deadline[r] > now then Completed else Timeout;
          panicked := NotifySlot(ctx, i, told, applied);
        }
        AnsweredMore(reqs, i, before, results, deadline, serve, code, now);
      }
      assert reqs[..|reqs|] == reqs;
      ghost var b := All();
      batches := batches - {ctx};
      EmptyStep(b, All(), ctx);
    }

    method DropBatch(ctx: Ctx) returns (panicked: bool)
      requires Valid() && !Locked()
      modifies this`batches, this`results, this`ready, this`where, this`served
      ensures Valid() && !panicked && batches == if stage != Running then old(batches) else old(batches) - {ctx}
      ensures stage == Running && ctx in old(batches) ==>
                forall r :: Some(r) in old(batches)[ctx].requests ==> r in results && results[r] == Dropped
      ensures stage != Running || ctx !in old(batches) ==> results == old(results)
      ensures Grown(old(results), results)
    {
      hide Valid;
      panicked := false;
      if stage == Running && ctx in batches {
        panicked := NotifyBatch(ctx, false, Dropped, tick, 0);
      }
    }

    /** Times out overdue reads in a batch. */
    method ExpireBatch(ctx: Ctx, now: nat) returns (panicked: bool)
      requires Valid() && ctx in batches
      modifies this`batches, this`results, this`ready, this`where, this`served
      ensures Valid() && !panicked && batches.Keys == old(batches).Keys
      ensures forall c :: c in batches && c != ctx ==> batches[c] == old(batches)[c]
      ensures BatchSwept(old(batches)[ctx], ctx, batches, results, deadline, now) && Grown(old(results), results)
    {
      hide Sound, Linked;
      panicked := false;
      ghost var reqs := batches[ctx].requests;
      for i := 0 to |batches[ctx].requests|
        invariant Valid() && !panicked && batches.Keys == old(batches).Keys
        invariant forall c :: c in batches && c != ctx ==> batches[c] == old(batches)[c]
        invariant batches[ctx].index == old(batches)[ctx].index && |batches[ctx].requests| == |reqs|
        invariant forall k :: i <= k < |reqs| ==> batches[ctx].requests[k] == reqs[k]
        invariant forall k :: 0 <= k < i ==> SlotSwept(reqs[k], batches[ctx].requests[k], results, deadline, now)
        invariant Grown(old(results), results)
      {
        if batches[ctx].requests[i].Some? {
          WaitingRead(All(), ctx, i);
          if deadline[batches[ctx].requests[i].value] < now {
            panicked := NotifySlot(ctx, i, Timeout, 0);
          }
        }
      }
    }

    /** Forgets a batch nobody waits in. */
    method Discard(c: Ctx)
      requires Valid() && c in batches && !Waiting(batches[c].requests)
      modifies this`batches
      ensures Valid() && batches == old(batches) - {c}
    {
      hide Sound, Linked;
      ghost var b := All();
      batches := batches - {c};
      EmptyStep(b, All(), c);
    }

    /** Times out overdue reads and forgets batches that are empty and out of date. */
    method Gc(now: nat) returns (panicked: bool)
      requires Valid() && stage == Running
      modifies this`batches, this`results, this`ready, this`where, this`served
      ensures Valid() && !panicked && batches.Keys <= old(batches).Keys && Grown(old(results), results)
      ensures forall c :: c in old(batches) ==> BatchSwept(old(batches)[c], c, batches, results, deadline, now)
      ensures forall c :: c in batches && c.high < now ==> Waiting(batches[c].requests)
    {
      hide Valid, BatchSwept, Waiting;
      panicked := false;
      var todo := batches.Keys;
      while todo != {}
        invariant Valid() && !panicked && stage == Running && todo <= batches.Keys <= old(batches).Keys
        invariant forall c :: c in todo ==> batches[c] == old(batches)[c]
        invariant forall c :: c in batches && c !in todo && c.high < now ==> Waiting(batches[c].requests)
        invariant forall c :: c in old(batches) && c !in todo ==>
                    BatchSwept(old(batches)[c], c, batches, results, deadline, now)
        invariant Grown(old(results), results)
        decreases todo
      {
        assert exists c :: c in todo by { SomeKey(todo); }
        var c :| c in todo;
        ghost var kept, r := batches, results;
        todo := todo - {c};
        panicked := ExpireBatch(c, now);
        if c.high < now && !Waiting(batches[c].requests) {
          SweptAway(old(batches)[c], c, batches, results, deadline, now);
          Discard(c);
        }
        forall d | d in old(batches) && d !in todo && d != c
          ensures BatchSwept(old(batches)[d], d, batches, results, deadline, now)
        {
          SweptStill(old(batches)[d], d, kept, batches, r, results, deadline, now);
        }
      }
    }

    /** Serves the batches confirmed at or below an index, and no other. */
    method ServeConfirmed(applied: nat) returns (panicked: bool)
      requires Valid() && stage == Running
      modifies this`batches, this`results, this`ready, this`where, this`served
      ensures Valid() && !panicked && batches.Keys <= old(batches).Keys && Grown(old(results), results)
      ensures forall c :: c in old(batches) ==>
                if 0 < old(batches)[c].index <= applied
                then c !in batches && Answered(old(batches)[c].requests, results, deadline, true, Timeout, tick)
                else c in batches && batches[c] == old(batches)[c]
    {
      hide Valid, Answered;
      panicked := false;
      var todo := batches.Keys;
      while todo != {}
        invariant Valid() && !panicked && stage == Running && todo <= batches.Keys <= old(batches).Keys
        invariant Grown(old(results), results) && forall c :: c in batches ==> batches[c] == old(batches)[c]
        invariant forall c :: c in old(batches) && c !in todo ==>
                    if 0 < old(batches)[c].index <= applied
                    then c !in batches && Answered(old(batches)[c].requests, results, deadline, true, Timeout, tick)
                    else c in batches
        decreases todo
      {
        assert exists c :: c in todo by { SomeKey(todo); }
        var c :| c in todo;
        todo := todo - {c};
        if 0 < batches[c].index <= applied {
          ghost var r := results;
          panicked := NotifyBatch(c, true, Timeout, tick, applied);
          forall d | d in old(batches) && d !in todo && d != c && 0 < old(batches)[d].index <= applied
            ensures Answered(old(batches)[d].requests, results, deadline, true, Timeout, tick)
          {
            AnsweredStill(old(batches)[d].requests, r, results, deadline, true, Timeout, tick);
          }
        }
      }
    }

    predicate GcDue()
      reads this
    {
      tick < lastGc || tick - lastGc >= gcTick
    }

    /**
     The state machine has reached an index: every batch confirmed at or below it is served, and when
     a collection is due the overdue reads of the others are told so.
     */
    method Applied(applied: nat) returns (panicked: bool)
      requires Valid() && !Locked()
      modifies this`batches, this`results, this`ready, this`where, this`served, this`lastGc
      ensures Valid() && !panicked && batches.Keys <= old(batches).Keys && Grown(old(results), results)
      ensures stage != Running ==> results == old(results)
      ensures stage == Running ==> forall c :: c in old(batches) ==>
                if 0 < old(batches)[c].index <= applied
                then c !in batches && GoneAhead(old(batches)[c].requests, results, ready, deadline, tick)
                else if old(GcDue()) then BatchSwept(old(batches)[c], c, batches, results, deadline, tick)
                else c in batches && batches[c] == old(batches)[c]
      ensures stage == Running && old(batches) != map[] && old(GcDue()) ==>
                forall c :: c in batches && c.high < tick ==>
                  exists i :: 0 <= i < |batches[c].requests| && batches[c].requests[i].Some?
      ensures lastGc == if stage == Running && old(batches) != map[] && old(GcDue()) then tick else old(lastGc)
    {
      hide Sound, Linked, Answered, GoneAhead, ServedOk, BatchSwept, Waiting;
      panicked := false;
      if stage != Running || batches == map[] {
        return;
      }
      panicked := ServeConfirmed(applied);
      if tick < lastGc || tick - lastGc >= gcTick {
        lastGc := tick;
        ghost var r := results;
        panicked := Gc(tick);
        forall c | c in batches && c.high < tick
          ensures exists i :: 0 <= i < |batches[c].requests| && batches[c].requests[i].Some?
        {
          WaitingMeans(batches[c].requests);
        }
        forall c | c in old(batches) && 0 < old(batches)[c].index <= applied
          ensures Answered(old(batches)[c].requests, results, deadline, true, Timeout, tick)
        {
          AnsweredStill(old(batches)[c].requests, r, results, deadline, true, Timeout, tick);
        }
      }
      forall c | c in old(batches) && 0 < old(batches)[c].index <= applied
        ensures GoneAhead(old(batches)[c].requests, results, ready, deadline, tick)
      {
        AllServed();
        AnsweredAhead(old(batches)[c].requests, results, ready, served, deadline, tick);
      }
    }

    lemma AllServed()
      requires Valid()
      ensures ServedOk(results, ready, served)
    {
    }

    // ---------- Closing, step by step ----------

    /** Takes the lock and stops the table. */
    method CloseBegin()
      requires Valid() && stage == Running
      modifies this`stage
      ensures Valid() && stage == Stopping
    {
      hide Sound;
      ghost var b := All();
      stage := Stopping;
      assert Sound(All()) by { StageStep(b, All()); }
    }

    /** Closes the queue: no read enters any more. */
    method CloseQueue()
      requires Valid() && stage == Stopping
      modifies this`stage, q`stopped
      ensures Valid() && stage == Shut
    {
      hide Sound;
      ghost var b := All();
      q.Close();
      stage := Shut;
      assert Sound(All()) by { StageStep(b, All()); }
    }

    /**
     Takes what is queued. The buffer the stepping thread may still hold becomes the one for new
     reads, but none is written any more.
     */
    method CloseTake()
      requires Valid() && stage == Shut
      modifies this`stage, this`queue, this`closing, this`closeArr, this`closeLen, this`where, q`idx, q`leftInWrite
      ensures Valid() && stage == Telling && closing == old(queue) && hand == old(hand) && where.Keys == old(where).Keys
    {
      hide Sound, Linked, AllWithdrawn;
      ghost var b := All();
      LendClosing();
      where := AllWithdrawn(where);
      WithdrawStep(b, All());
    }

    /** Tells one of the reads taken from the queue. */
    method CloseTell() returns (panicked: bool)
      requires Valid() && stage == Telling && closeLen > 0
      modifies this`closing, this`closeLen, this`results, this`where
      ensures Valid() && !panicked && closing == old(closing)[..old(closeLen) - 1] && where.Keys == old(where).Keys
      ensures |old(closing)| == old(closeLen) && old(closing)[old(closeLen) - 1] !in old(results)
      ensures results == old(results)[old(closing)[old(closeLen) - 1] := Terminated]
    {
      hide Sound;
      ghost var b := All();
      var n := closeLen - 1;
      var r := closeArr[n];
      assert r == closing[n] && |closing| == closeLen;
      panicked := r in results;
      results := results[r := Terminated];
      closeLen, closing := n, closing[..n];
      where := where[r := Done];
      assert closeArr[..n] == closing;
      LastStep(b, All(), n, r);
    }

    /** Tells the reads of one batch. */
    method CloseBatch(c: Ctx) returns (panicked: bool)
      requires Valid() && stage == Telling && c in batches
      modifies this`batches, this`results, this`ready, this`where, this`served
      ensures Valid() && !panicked && batches == old(batches) - {c} && where.Keys == old(where).Keys
      ensures Ended(old(results), results)
    {
      hide Sound, Linked;
      panicked := NotifyBatch(c, false, Terminated, tick, 0);
    }

    /** Releases the lock when all have been told. */
    method CloseEnd()
      requires Valid() && stage == Telling && closeLen == 0 && batches == map[]
      modifies this`stage
      ensures Valid() && stage == Closed
      ensures (forall r :: r in where ==> r in results) <==> hand == [] && lost == {}
      ensures forall r :: r in where && r !in results ==> r in hand || r in lost
    {
      hide Sound;
      ghost var b := All();
      assert closing == [];
      stage := Closed;
      assert Sound(All()) by { StageStep(b, All()); }
      ClosedEmpty();
      Told();
    }

    // ---------- Closing without interruption ----------

    method CloseStart()
      requires Valid() && stage == Running
      modifies this`stage, this`queue, this`closing, this`closeArr, this`closeLen, this`where
      modifies q`idx, q`leftInWrite, q`stopped
      ensures Valid() && stage == Telling && where.Keys == old(where).Keys
    {
      hide Valid;
      CloseBegin();
      CloseQueue();
      CloseTake();
    }

    method TellQueued() returns (panicked: bool)
      requires Valid() && stage == Telling
      modifies this`closing, this`closeLen, this`results, this`where
      ensures Valid() && !panicked && closeLen == 0 && where.Keys == old(where).Keys && Ended(old(results), results)
    {
      hide Valid;
      panicked := false;
      while closeLen > 0
        invariant Valid() && !panicked && stage == Telling && where.Keys == old(where).Keys && Ended(old(results), results)
        decreases closeLen
      {
        panicked := CloseTell();
        LengthIs();
      }
    }

    lemma LengthIs()
      requires Valid()
      ensures |closing| == closeLen
    {
    }

    method TellBatches() returns (panicked: bool)
      requires Valid() && stage == Telling
      modifies this`batches, this`results, this`ready, this`where, this`served
      ensures Valid() && !panicked && batches == map[] && where.Keys == old(where).Keys && Ended(old(results), results)
    {
      hide Valid;
      panicked := false;
      while batches != map[]
        invariant Valid() && !panicked && stage == Telling && where.Keys == old(where).Keys && Ended(old(results), results)
        decreases batches.Keys
      {
        var todo := batches.Keys;
        assert exists c :: c in todo by { SomeKey(todo); }
        var c :| c in todo;
        panicked := CloseBatch(c);
      }
    }

    /** Closes the table in one go: every read in the queue or in a batch is told so. */
    method Close() returns (panicked: bool)
      requires Valid() && stage == Running
      modifies this, q`idx, q`leftInWrite, q`stopped
      ensures Valid() && !panicked && stage == Closed && hand == old(hand) && where.Keys == old(where).Keys
      ensures queue == [] && batches == map[] && Ended(old(results), results) && lost == old(lost)
      ensures (forall r :: r in where ==> r in results) <==> hand == []
      ensures forall r :: r in where && r !in results ==> r in hand
    {
      hide Valid, Ended;
      NoneLost();
      CloseStart();
      panicked := TellQueued();
      ghost var told := results;
      panicked := TellBatches();
      EndedMore(old(results), told, results);
      CloseEnd();
      QueueEmpty();
    }

    lemma NoneLost()
      requires Valid() && stage == Running
      ensures lost == {}
    {
    }

    lemma QueueEmpty()
      requires Valid() && stage == Closed
      ensures queue == []
    {
    }

    /** Once the table is closed, exactly the reads in the stepping thread's hand, or forgotten from it, are untold. */
    lemma Told()
      requires Valid() && queue == [] && closing == [] && batches == map[]
      ensures forall r :: r in where ==> (r in results || r in hand || r in lost)
      ensures forall r :: r in hand || r in lost ==> r in where && r !in results
      ensures hand != [] ==> exists r :: r in where && r !in results
    {
      var t := All().t;
      forall r | r in where ensures r in results || r in hand || r in lost {
        assert Located(t, r, where[r]);
      }
      forall r | r in lost ensures r in where && r !in results {
        assert Located(t, r, Lost);
        assert Located(t, r, Done) <==> r in results;
      }
      forall r | r in hand ensures r in where && r !in results {
        var i :| 0 <= i < |hand| && hand[i] == r;
        assert Located(t, r, InHand(i));
        assert Located(t, r, Done) <==> r in results;
      }
      if hand != [] {
        var r := hand[0];
        assert r in hand;
      }
    }

    /** A read that was told to go ahead had its batch confirmed at an index the state machine had applied. */
    lemma ServedInTime(r: nat)
      requires Valid() && r in ready
      ensures r in served && 0 < served[r].0 <= served[r].1 && results[r] == Completed
    {
    }

    /**
     Any steps of the reading, stepping, applying and closing threads: no read is told twice. The run ends early
     when the random name of a batch is drawn again while that batch waits, on which the code panics.
     */
    method AnyInterleaving() returns (panicked: bool, repeated: bool)
      requires Valid()
      modifies this, q, q.left, q.right
      ensures Valid() && !panicked
    {
      hide *;
      panicked, repeated := false, false;
      var steps: int := *;
      while steps > 0 && !repeated
        invariant Valid() && !panicked
        decreases steps
      {
        steps := steps - 1;
        var what: int, n: int, m: int, ctx: Ctx := *, *, *, *;
        if n < 0 || m <= 0 {
          continue;
        }
        if what == 0 && n !in deadline {
          NotYet(n);
          var _, _ := Read(n, m);
        } else if what == 1 && handLen == 0 {
          TakeHand();
        } else if what == 2 && n >= tick {
          Tick(n);
        } else if what < 10 && !Locked() {
          panicked, repeated := OpenStep(what, n, ctx);
        } else {
          panicked := CloseStep(what, ctx);
        }
      }
    }

    /** A step under the table's lock. */
    method OpenStep(what: int, n: nat, ctx: Ctx) returns (panicked: bool, repeated: bool)
      requires Valid() && !Locked()
      modifies this, q`stopped, q`idx, q`leftInWrite
      ensures Valid() && !panicked && (repeated ==> what == 3 && stage == Running && ctx in old(batches))
    {
      hide *;
      panicked, repeated := false, false;
      if what == 3 {
        repeated := AddBatch(ctx);
      } else if what == 4 {
        AddReady(ctx, n);
      } else if what == 5 {
        panicked := DropBatch(ctx);
      } else if what == 6 {
        panicked := Applied(n);
      } else if what == 7 && stage == Running {
        CloseBegin();
      }
    }

    /** A step of the closing thread. */
    method CloseStep(what: int, ctx: Ctx) returns (panicked: bool)
      requires Valid()
      modifies this, q`stopped, q`idx, q`leftInWrite
      ensures Valid() && !panicked
    {
      hide *;
      panicked := false;
      if stage == Stopping {
        CloseQueue();
      } else if stage == Shut {
        CloseTake();
      } else if stage == Telling && closeLen > 0 {
        panicked := CloseTell();
      } else if stage == Telling && ctx in batches {
        panicked := CloseBatch(ctx);
      } else if stage == Telling && batches == map[] {
        CloseEnd();
      }
    }

    method Tick(now: nat)
      requires Valid() && now >= tick
      modifies this`tick
      ensures Valid() && tick == now
    {
      tick := now;
    }

    lemma OpenQueue()
      requires Valid()
      ensures !q.stopped <==> stage == Running || stage == Stopping
    {
    }

    lemma SliceIntact()
      requires Valid()
      ensures handLen <= handArr.Length && handArr[..handLen] == hand && |hand| == handLen
    {
    }

    lemma ClosedEmpty()
      requires Valid() && stage == Closed
      ensures queue == [] && closing == [] && batches == map[]
    {
    }

    lemma NotYet(r: nat)
      requires Valid() && r !in deadline
      ensures r !in where
    {
    }
  }

  /**
   Closing does not reach a read that the stepping thread holds at that moment: the read is accepted,
   then taken, the table is closed, and the batch is refused. The read is never told.
   */
  method ForgottenRead() returns (t: Reads)
    ensures fresh(t) && t.Valid() && t.stage == Closed && t.queue == [] && t.hand == [] && t.batches == map[]
    ensures 7 in t.where && 7 !in t.results
  {
    hide Reads.Valid;
    t := new Reads(1, 1);
    t.OpenQueue();
    var accepted, closed := t.Read(7, 1);
    t.SliceIntact();
    t.TakeHand();
    assert 7 in t.hand;
    var p := t.Close();
    assert t.hand == [7];
    p := t.AddBatch(Ctx(1, 30));
    assert 7 in t.lost;
    t.ClosedEmpty();
    t.Told();
  }

  lemma SomeKey(keys: set<Ctx>)
    ensures keys == {} || exists k :: k in keys
  {
    if forall k :: k !in keys {
      assert keys == {};
    }
  }
}
