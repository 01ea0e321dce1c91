/**
 The objects that stand for proposals. A client that has been told its outcome may release the
 object, and the pool may hand it to a later proposal. The commit worker holds on to the object it
 found between looking it up under the lock and sending the notice.
 */
module RequestPool {

  import opened Proposals

  /**
   The object the commit worker holds: none, still that of the proposal it was found for, released, or
   already serving another proposal.
   */
  datatype Lent = None | Own(k: nat) | Free(k: nat) | Other(k: nat, taker: nat)

  class Pool {
    const shard: Shard
    var lent: Lent
    // The proposals whose object has been released, and those that got a commit notice meant for another.
    var released: set<nat>
    var strayed: set<nat>
    // The proposals released while the commit worker held their object.
    ghost var early: set<nat>

    ghost predicate Valid()
      reads this, shard
    {
      && shard.Valid() && (lent == None <==> !shard.phase.Found?)
      && (lent != None ==>
            && shard.commitQ != [] && shard.pos < |shard.commitQ[0]|
            && lent.k == shard.commitQ[0][shard.pos].key)
      && early <= released <= shard.results.Keys && (strayed != {} ==> early != {})
      && (lent.Own? ==> lent.k !in released)
      && (lent.Free? || lent.Other? ==> lent.k in early)
      && (lent.Other? ==> lent.taker in shard.made && lent.taker !in released)
    }

    constructor (notifyCommit: bool, gcTick: nat, size: nat)
      ensures Valid() && fresh(shard) && released == {} && strayed == {} && early == {} && lent == None
      ensures shard.Fresh() && shard.notifyCommit == notifyCommit && shard.gcTick == gcTick && shard.size == size
    {
      shard := new Shard(notifyCommit, gcTick, size);
      lent, released, strayed, early := None, {}, {}, {};
    }

    /** A proposer enters a request; its object may be one that was released. */
    method Enter(k: nat, client: nat, series: nat, read: nat, timeout: nat, reuse: bool)
      requires Valid() && !shard.locked && k !in shard.made && k !in shard.foreign && read <= shard.tick && timeout > 0
      modifies this`lent, shard`pending, shard`proposing, shard`made
      ensures Valid() && lent == if reuse && old(lent).Free? then Other(old(lent).k, k) else old(lent)
      ensures var r := Request(client, series, read + timeout);
              && shard.pending == old(shard.pending)[k := r] && shard.made == old(shard.made)[k := r]
              && shard.proposing == old(shard.proposing)[k := Entered]
    {
      hide Shard.Valid;
      NotReleased(k);
      shard.Enter(k, client, series, read, timeout);
      if reuse && lent.Free? {
        lent := Other(lent.k, k);
      }
    }

    lemma NotReleased(k: nat)
      requires Valid() && k !in shard.made
      ensures k !in released
    {
      hide Shard.Valid;
      if k in released {
        shard.ToldMade(k);
      }
    }

    /** A client that has been told its outcome gives the object back. */
    method Release(k: nat)
      requires Valid() && k in shard.queued && k in shard.results && k !in released
      modifies this`released, this`lent, this`early
      ensures Valid() && released == old(released) + {k}
      ensures early == if old(lent) == Own(k) then old(early) + {k} else old(early)
      ensures lent == if old(lent) == Own(k) || (old(lent).Other? && old(lent).taker == k)
                      then Free(old(lent).k) else old(lent)
    {
      hide Shard.Valid;
      released := released + {k};
      if lent == Own(k) {
        early := early + {k};
        lent := Free(k);
      } else if lent.Other? && lent.taker == k {
        lent := Free(lent.k);
      }
    }

    /** The commit worker looks up the request of its entry and holds its object if it finds one. */
    method CommitFind()
      requires Valid() && !shard.locked && shard.phase.Read?
      modifies this`lent, shard`phase, shard`pos, shard`committed
      ensures Valid() && old(shard.commitQ) != [] && old(shard.pos) < |old(shard.commitQ)[0]|
      ensures var e := old(shard.commitQ)[0][old(shard.pos)];
              if !old(shard.stopped) && Matches(old(shard.pending), e)
                 && old(shard.pending)[e.key].deadline >= old(shard.phase).now
              then lent == Own(e.key) && shard.phase.Found? && shard.pos == old(shard.pos)
              else lent == None
    {
      hide Shard.Valid;
      shard.CommitFind();
      if shard.phase.Found? {
        shard.Untold(shard.commitQ[0][shard.pos].key);
        lent := Own(shard.commitQ[0][shard.pos].key);
      }
    }

    /**
     It sends the notice to whoever the object stands for now. An object that stands for nobody panics, and so
     does one whose channel is full. A notice may go astray.
     */
    method CommitSignal() returns (panicked: bool)
      requires Valid() && shard.phase.Found?
      modifies this`lent, this`strayed, shard`phase, shard`pos, shard`committed, shard`signalled
      ensures panicked <==> match old(lent)
                            case Own(k) => k in old(strayed)
                            case Free(_) => true
                            case Other(_, taker) => taker in old(shard.signalled) || taker in old(strayed)
                            case None => false
      ensures Valid() && (panicked ==> early != {})
      ensures strayed == if old(lent).Other? && !panicked then old(strayed) + {old(lent).taker} else old(strayed)
      ensures shard.signalled == if old(lent).Own? then old(shard.signalled) + {old(lent).k} else old(shard.signalled)
    {
      hide Shard.Valid;
      panicked := false;
      match lent {
        case Own(k) =>
          panicked := k in strayed;
          var full := shard.CommitSignal();
          lent := None;
        case Free(_) =>
          panicked := true;
        case Other(_, taker) =>
          panicked := taker in shard.signalled || taker in strayed;
          if !panicked {
            strayed := strayed + {taker};
            shard.CommitLost();
            lent := None;
          }
      }
    }

    /** The notice meets its own request exactly when that has not been released since it was found. */
    lemma MeetsItsOwn()
      requires Valid() && lent != None
      ensures lent.Own? <==> lent.k !in released
    {
    }

    /** If clients wait for the notice, nothing has been released too early. */
    ghost predicate Kept(patient: bool)
      reads this`early
    {
      patient ==> early == {}
    }

    /**
     Any steps of any threads and clients, in any order. A full channel, or a notice to nobody, can only follow a
     release of an object that the commit worker held. If no client releases an object before its commit notice, where
     there are such notices, nothing panics and no notice goes astray.
     */
    method AnyInterleaving(patient: bool) returns (panicked: bool)
      requires Valid() && Kept(patient)
      modifies this, shard
      ensures Valid() && Kept(patient) && (panicked ==> early != {}) && (patient ==> !panicked && strayed == {})
    {
      hide *;
      panicked := false;
      var steps: int := *;
      while steps > 0 && !panicked
        invariant Valid() && Kept(patient) && (panicked ==> early != {})
        decreases steps
      {
        steps := steps - 1;
        var what: int, k: int, now: int, read: int, flag: bool, e: Entry, code: Code := *, *, *, *, *, *, *;
        if k < 0 || now < 0 || read < 0 {
          continue;
        }
        if what == 0 && !shard.locked && e.key !in shard.made && e.key !in shard.foreign
           && read <= shard.tick && now > 0 {
          Enter(e.key, e.client, e.series, read, now, flag);
        } else if what == 1 && k in shard.queued && k in shard.results && k !in released
               && (patient ==> k in shard.signalled || !shard.notifyCommit) {
          ReleaseStep(k, patient);
        } else if what < 10 {
          panicked := CommitStep(what);
        } else {
          OtherStep(what, k, now, flag, e, code);
        }
      }
      NoneStrayed(patient);
    }

    /** The worker holds no object of a proposal that has had its notice, and none at all where there are no notices. */
    lemma NoticePending(k: nat)
      requires Valid()
      ensures lent == Own(k) ==> k !in shard.signalled && shard.notifyCommit
    {
      if lent == Own(k) {
        shard.FoundFacts();
        shard.FoundNotified();
      }
    }

    method ReleaseStep(k: nat, ghost patient: bool)
      requires Valid() && Kept(patient) && k in shard.queued && k in shard.results && k !in released
      requires patient ==> k in shard.signalled || !shard.notifyCommit
      modifies this`released, this`lent, this`early
      ensures Valid() && Kept(patient)
    {
      hide Valid;
      NoticePending(k);
      Release(k);
    }

    lemma NoneStrayed(patient: bool)
      requires Valid() && Kept(patient)
      ensures patient ==> strayed == {} && early == {}
    {
    }

    /** A step of the commit worker. */
    method CommitStep(what: int) returns (panicked: bool)
      requires Valid()
      modifies this`lent, this`strayed, shard
      ensures Valid() && (panicked ==> early != {})
    {
      hide Shard.Valid;
      panicked := false;
      if what == 3 && shard.phase.Read? && !shard.locked {
        CommitFind();
      } else if what == 4 && shard.phase.Found? {
        panicked := CommitSignal();
      } else if what == 1 && shard.taken == 0 && !shard.phase.Found? {
        shard.CommitTake();
      } else if what == 2 && shard.taken > 0 && shard.commitQ != [] && shard.pos < |shard.commitQ[0]|
             && shard.phase == Idle {
        shard.CommitRead();
      } else if what == 5 && shard.taken > 0 && shard.commitQ != [] && shard.pos == |shard.commitQ[0]|
             && shard.phase == Idle {
        shard.CommitForward();
      }
    }

    method OtherStep(what: int, k: nat, now: nat, flag: bool, e: Entry, code: Code)
      requires Valid()
      modifies shard
      ensures Valid()
    {
      hide Shard.Valid;
      var full := shard.OtherStep(what, k, now, flag, e, code);
    }
  }

  /** One proposal has been made and committed, and the commit worker has read the clock for it. */
  method CommittedOne(t: Shard)
    requires t.Valid() && t.Fresh() && t.notifyCommit && t.size > 0
    modifies t
    ensures t.Valid() && t.phase == Read(0) && t.commitQ == [[Entry(1, 5, 5)]] && t.pos == 0 && t.foreign == {}
    ensures t.made == t.pending == map[1 := Request(5, 5, 1)] && t.queued == {1} && t.results == map[]
    ensures !t.stopped && !t.locked && t.tick == t.lastGc == 0 && t.signalled == {}
  {
    hide Shard.Valid, Shard.Fresh;
    t.FreshFields();
    t.Enter(1, 5, 5, 0, 1);
    var ok, closed := t.Enqueue(1);
    var task := [Entry(1, 5, 5)];
    OneOfOurs(t.made, t.queued, t.pushed, task);
    t.PushTask(task);
    t.CommitTake();
    t.CommitRead();
  }

  lemma OneOfOurs(made: map<nat, Request>, queued: set<nat>, pushed: set<nat>, task: seq<Entry>)
    requires task == [Entry(1, 5, 5)] && made == map[1 := Request(5, 5, 1)] && queued == {1} && pushed == {}
    ensures Committable(made, queued, pushed, task) && ForeignKeys(made, task) == {}
  {
  }

  /** One proposal has been found by the commit worker and has then timed out. */
  method FoundThenExpired() returns (p: Pool)
    ensures p.Valid() && fresh(p) && fresh(p.shard) && p.lent == Own(1) && p.released == {} && p.strayed == {}
    ensures 1 in p.shard.results && p.shard.queued == {1} && p.shard.signalled == {}
    ensures !p.shard.locked && 2 !in p.shard.made && 2 !in p.shard.foreign && p.shard.phase.Found?
  {
    hide Shard.Valid, Shard.Fresh;
    p := new Pool(true, 0, 1);
    CommittedOne(p.shard);
    p.CommitFind();
    p.shard.Tick(2);
    ghost var was, told := p.shard.pending, p.shard.results;
    var full := p.shard.Gc(2);
    assert Collected(1, was, told, p.shard.pending, p.shard.results, 2);
  }

  /** Released then, its object stands for nobody when the notice comes: the commit worker panics. */
  method ReleasedWhileFound() returns (p: Pool, panicked: bool)
    ensures p.Valid() && panicked
  {
    hide Shard.Valid, Pool.Valid;
    p := FoundThenExpired();
    p.Release(1);
    panicked := p.CommitSignal();
  }

  /** Reused then, it carries the notice to a proposal whose entry has not even been queued. */
  method StrayNotice() returns (p: Pool, panicked: bool)
    ensures p.Valid() && !panicked && 2 in p.strayed && 2 !in p.shard.queued
  {
    hide Shard.Valid, Pool.Valid;
    p := FoundThenExpired();
    p.Release(1);
    p.Enter(2, 6, 6, 0, 9, true);
    panicked := p.CommitSignal();
  }
}
