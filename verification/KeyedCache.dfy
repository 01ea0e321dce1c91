/**
 The dashboard's caches of stored records by key: proxies, proxy configurations and
 migration records. A write may fail, with or without having taken effect. Keys that were
 touched are queued and dropped from the cache before the next operation, which then loads
 what is missing. For proxies and configurations the key is queued whatever became of the
 write; for migration records only after a write that succeeded.
 */
module KeyedCache {

  datatype Option<T> = None | Some(value: T)

  datatype Hook<K> = DirtyKey(key: K) | DirtyAll

  /** How a write to the store ends: a failure may be reported after it took effect. */
  datatype Fate = Succeeds | FailsBefore | FailsAfter

  /** Nothing loaded yet, or for each known key its record or a note that it must be loaded. */
  type Entries<K, V> = Option<map<K, Option<V>>>

  ghost function Stored<K, V>(store: map<K, V>, k: K): Option<V> { if k in store then Some(store[k]) else None }

  /** What a reader of a filled cache finds under a key. */
  ghost function Shown<K, V>(cache: map<K, Option<V>>, k: K): Option<V> { if k in cache then cache[k] else None }

  /** The entry of a key is the stored one, or is about to be loaded. */
  ghost predicate KeyClean<K, V>(store: map<K, V>, cache: map<K, Option<V>>, hooks: seq<Hook<K>>, resets: bool, k: K) {
    || (k in cache && cache[k].None?)
    || DirtyKey(k) in hooks || (resets && DirtyAll in hooks)
    || Shown(cache, k) == Stored(store, k)
  }

  /** Every key outside `missed` is clean. */
  ghost predicate Clean<K(!new), V>(store: map<K, V>, cache: Entries<K, V>, hooks: seq<Hook<K>>, resets: bool,
                                    missed: set<K>) {
    cache.Some? ==>
      forall k {:trigger KeyClean(store, cache.value, hooks, resets, k)} ::
        k in missed || KeyClean(store, cache.value, hooks, resets, k)
  }

  function AfterHook<K, V>(cache: Entries<K, V>, h: Hook<K>, resets: bool): Entries<K, V> {
    match h
    case DirtyKey(k) => if cache.Some? then Some(cache.value[k := None]) else None
    case DirtyAll => if resets then None else cache
  }

  lemma HookRun<K(!new), V>(store: map<K, V>, cache: Entries<K, V>, h: Hook<K>, rest: seq<Hook<K>>, resets: bool,
                              missed: set<K>, next: Entries<K, V>)
    requires Clean(store, cache, [h] + rest, resets, missed) && next == AfterHook(cache, h, resets)
    ensures Clean(store, next, rest, resets, missed)
  {
    if next.Some? {
      forall k | k !in missed ensures KeyClean(store, next.value, rest, resets, k) {
        assert KeyClean(store, cache.value, [h] + rest, resets, k);
      }
    }
  }

  /** What the hooks do together: everything goes if one says so and it concerns this cache, else the queued keys. */
  ghost predicate Drained<K(!new), V>(was: Entries<K, V>, hooks: seq<Hook<K>>, resets: bool, now: Entries<K, V>) {
    && (now.Some? <==> was.Some? && !(resets && DirtyAll in hooks))
    && (now.Some? ==> forall k {:trigger DirtyKey(k)} ::
          && (k in now.value <==> k in was.value || DirtyKey(k) in hooks)
          && (k in now.value ==> now.value[k] == if DirtyKey(k) in hooks then None else was.value[k]))
  }

  lemma OneMoreHook<K(!new), V>(was: Entries<K, V>, hooks: seq<Hook<K>>, h: Hook<K>, resets: bool, now: Entries<K, V>)
    requires Drained(was, hooks, resets, now)
    ensures Drained(was, hooks + [h], resets, AfterHook(now, h, resets))
  {
    var next := AfterHook(now, h, resets);
    if next.Some? {
      forall k ensures && (k in next.value <==> k in was.value || DirtyKey(k) in hooks + [h])
                       && (k in next.value ==> next.value[k] == if DirtyKey(k) in hooks + [h] then None else was.value[k])
      {
        assert DirtyKey(k) in hooks + [h] <==> DirtyKey(k) in hooks || DirtyKey(k) == h;
      }
    }
  }

  lemma HookQueued<K(!new), V>(store: map<K, V>, cache: Entries<K, V>, hooks: seq<Hook<K>>, resets: bool,
                                 missed: set<K>, k: K)
    requires Clean(store, cache, hooks, resets, missed)
    ensures Clean(store, cache, hooks + [DirtyKey(k)], resets, missed - {k})
  {
    if cache.Some? {
      forall x | x !in missed - {k} ensures KeyClean(store, cache.value, hooks + [DirtyKey(k)], resets, x) {
        assert DirtyKey(k) in hooks + [DirtyKey(k)];
        assert x in missed || KeyClean(store, cache.value, hooks, resets, x);
      }
    }
  }

  /** A change of the stored or the cached record of `k` concerns `k` alone. */
  lemma KeyTouched<K(!new), V>(store: map<K, V>, next: map<K, V>, cache: Entries<K, V>, after: Entries<K, V>,
                                 hooks: seq<Hook<K>>, resets: bool, missed: set<K>, k: K)
    requires Clean(store, cache, hooks, resets, missed)
    requires forall x :: x != k ==> Stored(next, x) == Stored(store, x)
    requires cache.None? ==> after.None?
    requires after.Some? ==> cache.Some? && forall x :: x != k ==>
               (x in after.value <==> x in cache.value) && (x in after.value ==> after.value[x] == cache.value[x])
    ensures Clean(next, after, hooks, resets, missed + {k})
  {
    if after.Some? {
      forall x | x !in missed + {k} ensures KeyClean(next, after.value, hooks, resets, x) {
        assert KeyClean(store, cache.value, hooks, resets, x);
      }
    }
  }

  lemma KeyLoaded<K(!new), V>(store: map<K, V>, cache: map<K, Option<V>>, resets: bool, missed: set<K>, k: K,
                                next: map<K, Option<V>>)
    requires Clean(store, Some(cache), [], resets, missed)
    requires next == if k in store then cache[k := Some(store[k])] else cache - {k}
    ensures Clean(store, Some(next), [], resets, missed - {k})
  {
    forall x | x !in missed - {k} ensures KeyClean(store, next, [], resets, x) {
      assert x in missed || KeyClean(store, cache, [], resets, x);
    }
  }

  /** With no hook queued and nothing left to load, clean keys show what is stored. */
  lemma CleanShown<K(!new), V>(store: map<K, V>, cache: map<K, Option<V>>, resets: bool, missed: set<K>)
    requires Clean(store, Some(cache), [], resets, missed) && forall k :: k in cache ==> cache[k].Some?
    ensures forall k {:trigger Shown(cache, k)} :: k !in missed ==> Shown(cache, k) == Stored(store, k)
  {
    forall k | k !in missed ensures Shown(cache, k) == Stored(store, k) {
      assert KeyClean(store, cache, [], resets, k);
    }
  }

  class Cache<K(==, !new), V(==, !new)> {
    // Whether dropping everything concerns this cache: it does not for proxy configurations.
    const resets: bool
    var store: map<K, V>
    var entries: Entries<K, V>
    var hooks: seq<Hook<K>>
    // For each key written with effect and neither queued nor loaded since, what was written last.
    ghost var missed: map<K, V>

    ghost predicate Valid()
      reads this
    {
      && Clean(store, entries, hooks, resets, missed.Keys)
      && forall k :: k in missed ==> k in store && store[k] == missed[k]
    }

    /** Ready for an operation. */
    ghost predicate Filled()
      reads this
    {
      Valid() && hooks == [] && entries.Some? && forall k :: k in entries.value ==> entries.value[k].Some?
    }

    constructor (store: map<K, V>, resets: bool)
      ensures Valid() && missed == map[] && this.store == store && this.resets == resets && hooks == [] && entries == None
    {
      this.store, this.resets := store, resets;
      entries, hooks, missed := None, [], map[];
    }

    method DrainHooks()
      requires Valid()
      modifies this`hooks, this`entries
      ensures Valid() && hooks == [] && Drained(old(entries), old(hooks), resets, entries)
      ensures old(hooks) == [] ==> entries == old(entries)
    {
      ghost var run := [];
      while hooks != []
        invariant Valid() && run + hooks == old(hooks) && Drained(old(entries), run, resets, entries)
        invariant old(hooks) == [] ==> entries == old(entries)
        decreases |hooks|
      {
        hide Clean, Drained;
        var h, rest := hooks[0], hooks[1..];
        assert hooks == [h] + rest;
        ghost var before := entries;
        OneMoreHook(old(entries), run, h, resets, entries);
        entries := AfterHook(entries, h, resets);
        HookRun(store, before, h, rest, resets, missed.Keys, entries);
        hooks, run := rest, run + [h];
      }
      assert run == old(hooks);
    }

    /** Drops the queued keys and loads what is missing; a load may fail unless the store is up. */
    method Refill(up: bool) returns (ok: bool)
      requires Valid()
      modifies this`hooks, this`entries, this`missed
      ensures Valid() && hooks == [] && missed.Keys <= old(missed).Keys && (ok ==> Filled()) && (up ==> ok)
      ensures ok && old(entries).Some? && !(resets && DirtyAll in old(hooks)) ==>
                forall k {:trigger DirtyKey(k)} ::
                  k in old(entries).value && old(entries).value[k].Some? && DirtyKey(k) !in old(hooks) ==>
                    k in entries.value && entries.value[k] == old(entries).value[k]
      ensures ok && (old(entries).None? || (resets && DirtyAll in old(hooks))) ==> missed == map[]
      ensures old(Filled()) ==> ok && entries == old(entries) && missed == old(missed)
    {
      ghost var entries0, missed0, filled := entries, missed, Filled();
      DrainHooks();
      ok := false;
      var failed: bool := *;
      if entries.None? {
        if failed && !up {
          return;
        }
        entries := Some(map k | k in store :: Some(store[k]));
        missed := map[];
        return true;
      }
      ghost var drained := entries.value;
      var todo := entries.value.Keys;
      while todo != {}
        invariant Valid() && hooks == [] && entries.Some? && missed.Keys <= old(missed).Keys
        invariant forall k :: k in entries.value && entries.value[k].None? ==> k in todo
        invariant filled ==> entries == entries0 && missed == missed0
        invariant forall k :: k in drained && drained[k].Some? ==> k in entries.value && entries.value[k] == drained[k]
        decreases todo
      {
        hide Clean;
        assert exists k :: k in todo by { SomeKey(todo); }
        var k :| k in todo;
        todo := todo - {k};
        if k in entries.value && entries.value[k].None? {
          failed := *;
          if failed && !up {
            return;
          }
          ghost var before := entries.value;
          entries := Some(if k in store then entries.value[k := Some(store[k])] else entries.value - {k});
          KeyLoaded(store, before, resets, missed.Keys, k, entries.value);
          missed := missed - {k};
        }
      }
      ok := true;
    }

    /**
     The careful way, of proxies and configurations: the cached record may be changed in place, and
     the key is queued whatever became of the write.
     */
    method Update(k: K, v: Option<V>, draft: Option<V>, fate: Fate)
      requires Filled()
      modifies this`store, this`entries, this`hooks, this`missed
      ensures Valid() && missed == old(missed) - {k} && hooks == [DirtyKey(k)]
      ensures forall x :: Stored(store, x) == if x == k && fate != FailsBefore then v else Stored(old(store), x)
      ensures entries == if k in old(entries).value && draft.Some? then Some(old(entries).value[k := draft])
                         else old(entries)
    {
      hide Clean;
      ghost var store0, entries0 := store, entries;
      if k in entries.value && draft.Some? {
        entries := Some(entries.value[k := draft]);
      }
      if fate != FailsBefore {
        store := Written(store, k, v);
      }
      KeyTouched(store0, store, entries0, entries, hooks, resets, missed.Keys, k);
      HookQueued(store, entries, hooks, resets, missed.Keys + {k}, k);
      hooks := hooks + [DirtyKey(k)];
      missed := missed - {k};
      assert missed.Keys == old(missed).Keys + {k} - {k};
    }

    /**
     The way of migration records: first the write, outside the lock and whatever the state of the
     cache, then the hook, which a failed write never reaches.
     */
    method WriteRecord(k: K, v: V, fate: Fate)
      requires Valid()
      modifies this`store, this`missed
      ensures Valid() && store == (if fate == FailsBefore then old(store) else old(store)[k := v])
      ensures missed == (if fate == FailsBefore then old(missed) else old(missed)[k := v])
    {
      hide Clean;
      if fate != FailsBefore {
        ghost var store0 := store;
        store := store[k := v];
        KeyTouched(store0, store, entries, entries, hooks, resets, missed.Keys, k);
        missed := missed[k := v];
        assert missed.Keys == old(missed).Keys + {k};
      }
    }

    /** The hook after a write that succeeded. */
    method QueueHook(k: K)
      requires Valid()
      modifies this`hooks, this`missed
      ensures Valid() && hooks == old(hooks) + [DirtyKey(k)] && missed == old(missed) - {k}
    {
      hide Clean;
      HookQueued(store, entries, hooks, resets, missed.Keys, k);
      hooks := hooks + [DirtyKey(k)];
      missed := missed - {k};
      assert missed.Keys == old(missed).Keys - {k};
    }

    /** An operator asks for everything to be loaded again. */
    method Reload()
      requires Valid()
      modifies this`hooks
      ensures Valid() && hooks == old(hooks) + [DirtyAll]
    {
      ghost var before := hooks;
      hooks := hooks + [DirtyAll];
      if entries.Some? {
        forall k | k !in missed ensures KeyClean(store, entries.value, hooks, resets, k) {
          assert KeyClean(store, entries.value, before, resets, k);
        }
      }
    }

    /**
     After a refill a key shows what is stored exactly when no write to it was missed, or the last
     one that was wrote the very record shown.
     */
    lemma ShownStored(k: K)
      requires Filled()
      ensures Shown(entries.value, k) == Stored(store, k) <==> (k in missed ==> Shown(entries.value, k) == Some(missed[k]))
    {
      CleanShown(store, entries.value, resets, missed.Keys);
    }

    /**
     A write and a refill with nothing missed before: only this key can differ from the store, and it
     does exactly when the write failed after taking effect and wrote another record than the one shown.
     */
    method WriteThenRefill(k: K, v: V, fate: Fate, up: bool) returns (loaded: bool)
      requires Filled() && missed == map[]
      modifies this
      ensures Valid() && (fate != Succeeds || up ==> loaded) && (loaded ==> Filled())
      ensures store == if fate == FailsBefore then old(store) else old(store)[k := v]
      ensures fate != Succeeds ==> entries == old(entries)
      ensures loaded ==> forall x {:trigger Shown(entries.value, x)} ::
                Shown(entries.value, x) == Stored(store, x) <==>
                !(x == k && fate == FailsAfter && old(Shown(entries.value, k)) != Some(v))
    {
      hide Clean;
      ghost var before := entries.value;
      WriteRecord(k, v, fate);
      if fate == Succeeds {
        QueueHook(k);
      }
      loaded := Refill(up);
      if loaded {
        forall x ensures Shown(entries.value, x) == Stored(store, x) <==>
                         !(x == k && fate == FailsAfter && Shown(before, k) != Some(v))
        {
          ShownStored(x);
        }
      }
    }

    /**
     Any careful operations, refills and reloads leave nothing missed, so a refilled cache shows what
     is stored.
     */
    method AnyUpdates(steps: seq<Step<K, V>>)
      requires Valid() && missed == map[]
      modifies this
      ensures Valid() && missed == map[]
    {
      hide *;
      for i := 0 to |steps|
        invariant Valid() && missed == map[]
      {
        var up: bool := *;
        var ok := Refill(up);
        NoneMissed();
        if ok {
          match steps[i] {
            case Change(k, v, draft, fate) => Update(k, v, draft, fate);
            case Again => Reload();
          }
        }
      }
    }

    /**
     Any writes of records, hooks, refills and reloads, in any order: `ShownStored` holds of every
     cache they leave filled.
     */
    method AnyWrites(steps: seq<Event<K, V>>)
      requires Valid()
      modifies this
      ensures Valid()
    {
      hide *;
      for i := 0 to |steps|
        invariant Valid()
      {
        match steps[i] {
          case Write(k, v, fate) => WriteRecord(k, v, fate);
          case Queue(k) => QueueHook(k);
          case Load(up) => var _ := Refill(up);
          case LoadAgain => Reload();
        }
      }
    }

    lemma NoneMissed()
      ensures missed.Keys <= {} ==> missed == map[]
    {
    }
  }

  datatype Event<K, V> = Write(k: K, v: V, fate: Fate) | Queue(k: K) | Load(up: bool) | LoadAgain

  datatype Step<K, V> = Change(k: K, v: Option<V>, draft: Option<V>, fate: Fate) | Again

  function Written<K, V>(store: map<K, V>, k: K, v: Option<V>): map<K, V> {
    match v
    case None => store - {k}
    case Some(x) => store[k := x]
  }

  // ---------- A migration record that goes unseen ----------

  datatype Record = Record(source: int, target: int, finished: bool)

  /**
   The record of slot 7 was stored as running and has been loaded. Its end is written and the write
   fails after taking effect: no later refill shows it.
   */
  method UnseenRecord() returns (c: Cache<nat, Record>)
    ensures c.Filled() && c.store == map[7 := Record(1, 2, true)] && Shown(c.entries.value, 7) == Some(Record(1, 2, false))
  {
    hide Clean;
    c := new Cache(map[7 := Record(1, 2, false)], true);
    var loaded := c.Refill(true);
    c.ShownStored(7);
    loaded := c.WriteThenRefill(7, Record(1, 2, true), FailsAfter, false);
    loaded := c.Refill(true);
  }

  /** Asking for everything to be loaded again shows it. */
  method SeenAfterReload(c: Cache<nat, Record>)
    requires c.Valid() && c.resets
    modifies c
    ensures c.Filled() && c.store == old(c.store)
    ensures forall k {:trigger Shown(c.entries.value, k)} :: Shown(c.entries.value, k) == Stored(c.store, k)
  {
    hide Clean;
    c.Reload();
    var loaded := c.Refill(true);
    forall k ensures Shown(c.entries.value, k) == Stored(c.store, k) {
      c.ShownStored(k);
    }
  }

  lemma SomeKey<K(!new)>(keys: set<K>)
    ensures keys == {} || exists k :: k in keys
  {
    if forall k :: k !in keys {
      assert keys == {};
    }
  }
}
