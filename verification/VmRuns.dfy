/**
 Whole runs of a shard: every sequence of operations acts as the same
 operations on a finite map with a use count for each key, and a window handed
 to a reader keeps its bytes and its memory until the reader closes it.
 */
module VmRuns {
  import opened VmBytes
  import opened VmArena
  import opened VmTable
  import opened VmShardState
  import opened VmHolder
  import opened VmLfuMap

  datatype Op =
    | RePut(key: Key, value: seq<byte>)
    | Put(key: Key, value: seq<byte>)
    | PutMulti(key: Key, pieces: seq<seq<byte>>)
    | Get(key: Key)
    | Has(key: Key)
    | Delete(key: Key)
    | Collect
    | Evict(count: nat)
    | Clear

  /** What a caller sees of an operation. */
  datatype Answer = Done(ok: bool) | Value(bytes: seq<byte>) | Nothing | Gone(keys: set<Key>)

  /** The operations on the map itself.  Lack of room makes an update drop the key, or leave a `RePut` undone. */
  ghost predicate MapStep(m: map<Key, seq<byte>>, op: Op, a: Answer, m': map<Key, seq<byte>>) {
    match op
    case RePut(k, v) =>
      a.Done? && if a.ok then m' == m[k := v] else m' == m || m' == Removed(m, k)
    case Put(k, v) =>
      a.Done? && if a.ok then k in m && |v| < LIMIT_SIZE && m' == m[k := v] else m' == Removed(m, k)
    case PutMulti(k, vs) =>
      a.Done? && if a.ok then k in m && |Flatten(vs)| < LIMIT_SIZE && m' == m[k := Flatten(vs)] else m' == Removed(m, k)
    case Get(k) => m' == m && a == if k in m then Value(m[k]) else Nothing
    case Has(k) => m' == m && a == Done(k in m)
    case Delete(k) => m' == Removed(m, k) && a == Done(k in m)
    case Collect => m' == m && a == Nothing
    case Evict(count) =>
      a.Gone? && a.keys <= m.Keys && m' == m - a.keys && |a.keys| <= count && (|a.keys| < count ==> m' == map[])
    case Clear => m' == map[] && a == Nothing
  }

  /** A least frequently used cache: its map, and how often each key has been used. */
  datatype Cache = Cache(values: map<Key, seq<byte>>, uses: map<Key, nat>)

  /** What is kept has been used at least as much as anything that left, and ages by the largest count that left. */
  ghost predicate Aged(c: Cache, gone: set<Key>, c': Cache, top: nat) {
    && gone <= c.uses.Keys
    && (if gone == {} then top == 0 else exists e :: e in gone && c.uses[e] == top)
    && (forall e :: e in gone ==> c.uses[e] <= top)
    && (forall k :: k in c'.uses ==> k in c.uses && k !in gone && c.uses[k] >= top && c'.uses[k] == c.uses[k] - top)
  }

  ghost predicate UsedMore(c: Cache, x: Key, c': Cache) {
    forall k :: k in c'.uses ==>
      k in c.uses && c'.uses[k] == if k == x && c.uses[k] < 200 then c.uses[k] + 1 else c.uses[k]
  }

  /** How an operation changes the use counts. */
  ghost predicate UseStep(c: Cache, op: Op, a: Answer, c': Cache) {
    && c'.uses.Keys == c'.values.Keys
    && match op
       case Get(x) => UsedMore(c, x, c')
       case Has(x) => UsedMore(c, x, c')
       case RePut(_, _) => forall k :: k in c'.uses ==> c'.uses[k] == if k in c.uses then c.uses[k] else 1
       case Evict(_) => a.Gone? && exists top :: Aged(c, a.keys, c', top)
       case _ => forall k :: k in c'.uses ==> k in c.uses && c'.uses[k] == c.uses[k]
  }

  ghost predicate CacheStep(c: Cache, op: Op, a: Answer, c': Cache) {
    MapStep(c.values, op, a, c'.values) && UseStep(c, op, a, c')
  }

  /** A run of the cache: each operation takes one state to the next. */
  ghost predicate CacheRun(states: seq<Cache>, ops: seq<Op>, answers: seq<Answer>) {
    && |states| == |ops| + 1 && |answers| == |ops|
    && forall i :: 0 <= i < |ops| ==> CacheStep(states[i], ops[i], answers[i], states[i + 1])
  }

  // ---------- What every run promises a reader ----------

  /** The operation stored `v` under `k`. */
  predicate Stores(op: Op, a: Answer, k: Key, v: seq<byte>) {
    a == Done(true) && (op == RePut(k, v) || op == Put(k, v) || (op.PutMulti? && op.key == k && Flatten(op.pieces) == v))
  }

  /** The operation does not store, delete or evict `k`. */
  predicate Spares(op: Op, a: Answer, k: Key) {
    match op
    case RePut(x, _) => x != k
    case Put(x, _) => x != k
    case PutMulti(x, _) => x != k
    case Delete(x) => x != k
    case Evict(_) => a.Gone? && k !in a.keys
    case Clear => false
    case _ => true
  }

  /** A lookup answers with the value stored last. */
  lemma {:induction false} ReadsLastStore(states: seq<Cache>, ops: seq<Op>, answers: seq<Answer>, i: nat, j: nat,
                                          k: Key, v: seq<byte>)
    requires CacheRun(states, ops, answers) && i < j <= |ops| && Stores(ops[i], answers[i], k, v)
    requires forall x :: i < x < j ==> Spares(ops[x], answers[x], k)
    ensures k in states[j].values && states[j].values[k] == v
    ensures j < |ops| && ops[j] == Get(k) ==> answers[j] == Value(v)
    decreases j
  {
    hide UseStep;
    assert CacheStep(states[j - 1], ops[j - 1], answers[j - 1], states[j]);
    if j > i + 1 {
      ReadsLastStore(states, ops, answers, i, j - 1, k, v);
    }
    if j < |ops| {
      assert CacheStep(states[j], ops[j], answers[j], states[j + 1]);
    }
  }

  /** A key that is not there comes back only by a `RePut`. */
  lemma {:induction false} StaysAbsent(states: seq<Cache>, ops: seq<Op>, answers: seq<Answer>, i: nat, j: nat, k: Key)
    requires CacheRun(states, ops, answers) && i <= j <= |ops| && k !in states[i].values
    requires forall x :: i <= x < j && ops[x].RePut? && ops[x].key == k ==> answers[x] == Done(false)
    ensures k !in states[j].values
    ensures j < |ops| && ops[j] == Get(k) ==> answers[j] == Nothing
    decreases j
  {
    hide UseStep;
    if j > i {
      StaysAbsent(states, ops, answers, i, j - 1, k);
      assert CacheStep(states[j - 1], ops[j - 1], answers[j - 1], states[j]);
    }
    if j < |ops| {
      assert CacheStep(states[j], ops[j], answers[j], states[j + 1]);
    }
  }

  // ---------- The shard as such a cache ----------

  /** The cache a shard with the use counters `u` stands for. */
  ghost function CacheAt(s: Shard, u: seq<nat>): Cache {
    Cache(Contents(s), map k | k in Contents(s) :: UsesOf(s, u, k))
  }

  ghost function CacheOf(m: LfuMap): Cache
    reads m
  {
    CacheAt(m.st, m.counters)
  }

  lemma KeptUses(s: Shard, u: seq<nat>, t: Shard, w: seq<nat>, op: Op, a: Answer)
    requires ShardOk(s) && ShardOk(t) && SameUses(s, u, t, w) && MapStep(Contents(s), op, a, Contents(t))
    requires op.Put? || op.PutMulti? || op.Delete? || op.Collect?
    ensures CacheStep(CacheAt(s, u), op, a, CacheAt(t, w))
  {
    hide ShardOk, Contents, UsesOf;
    SameKeys(t);
    assert Contents(t).Keys <= Contents(s).Keys;
  }

  lemma LookedUp(s: Shard, u: seq<nat>, w: seq<nat>, op: Op, a: Answer)
    requires ShardOk(s) && (op.Get? || op.Has?) && UsedOnce(s, u, w, op.key) && MapStep(Contents(s), op, a, Contents(s))
    ensures CacheStep(CacheAt(s, u), op, a, CacheAt(s, w))
  {
    hide ShardOk, Contents, UsesOf, Bumped;
    SameKeys(s);
  }

  lemma SetUses(s: Shard, u: seq<nat>, t: Shard, w: seq<nat>, op: Op, a: Answer)
    requires ShardOk(s) && ShardOk(t) && op.RePut? && UsesAfterSet(s, u, t, w, op.key)
    requires MapStep(Contents(s), op, a, Contents(t))
    ensures CacheStep(CacheAt(s, u), op, a, CacheAt(t, w))
  {
    hide ShardOk, Contents, UsesOf;
    SameKeys(s);
    SameKeys(t);
  }

  lemma ClearedUses(s: Shard, u: seq<nat>, t: Shard, w: seq<nat>)
    requires Contents(t) == map[]
    ensures CacheStep(CacheAt(s, u), Clear, Nothing, CacheAt(t, w))
  {
  }

  lemma EvictedUses(s: Shard, u: seq<nat>, t: Shard, w: seq<nat>, op: Op, a: Answer, top: nat)
    requires ShardOk(s) && ShardOk(t) && op.Evict? && a.Gone? && MapStep(Contents(s), op, a, Contents(t))
    requires forall k, e :: k in Contents(t) && e in a.keys ==> UsesOf(s, u, e) <= UsesOf(s, u, k)
    requires forall e :: e in a.keys ==> UsesOf(s, u, e) <= top
    requires if a.keys == {} then top == 0 else exists e :: e in a.keys && UsesOf(s, u, e) == top
    requires forall k :: k in Contents(t) ==> UsesOf(t, w, k) == if UsesOf(s, u, k) > top then UsesOf(s, u, k) - top else 0
    ensures CacheStep(CacheAt(s, u), op, a, CacheAt(t, w))
  {
    hide ShardOk, Contents, UsesOf;
    var c, c' := CacheAt(s, u), CacheAt(t, w);
    if a.keys != {} {
      var e :| e in a.keys && UsesOf(s, u, e) == top;
      assert c.uses[e] == top;
    }
    assert Aged(c, a.keys, c', top);
  }

  /** Sizes are those of 32-bit lengths. */
  predicate Sized(op: Op) {
    match op
    case RePut(_, v) => |v| < 0x1_0000_0000
    case Put(_, v) => |v| < 0x1_0000_0000
    case PutMulti(_, vs) => |Flatten(vs)| < 0x1_0000_0000
    case _ => true
  }

  predicate PutsEmpty(op: Op) {
    (op.Put? && op.value == []) || (op.PutMulti? && Flatten(op.pieces) == [])
  }

  /** A window showing `v` that a reader still holds: its arena is alive and no operation of `m` writes there. */
  ghost predicate Held(m: LfuMap, r: Lookup, v: seq<byte>)
    reads m, if r.Lent? then {r.buf, r.buf.data} else {}, m.kv
  {
    r.Lent? ==>
    && Reads(r, v) && r.buf.RefOk() && r.buf.readers > 0
    && (r.buf == m.kv ==> forall p :: r.off <= p < r.off + r.len ==> p in m.kv.frozen)
    && (r.buf != m.kv ==> r.buf.data != m.kv.data)
  }

  method PerformRePut(m: LfuMap, op: Op, ghost r: Lookup, ghost v: seq<byte>) returns (ghost a: Answer)
    requires m.Valid() && op.RePut? && Sized(op) && Held(m, r, v)
    modifies m, m.kv, m.kv.data
    ensures m.Valid() && CacheStep(old(CacheOf(m)), op, a, CacheOf(m)) && Held(m, r, v)
    ensures m.kv == old(m.kv) || fresh(m.kv)
    ensures m.kv.data == old(m.kv.data) || fresh(m.kv.data)
  {
    hide ShardOk, Contents, Removed, KeyLow, CacheStep, UsesAfterSet, LfuMap.Room, ValueCap;
    ghost var s, u := m.st, m.counters;
    ghost var d, frozen, buf := if r.Lent? then r.buf.data[..] else [], m.kv.frozen, m.kv;
    var ok := m.RePut(KeyLow(op.key), op.key, op.value);
    a := Done(ok);
    SetUses(s, u, m.st, m.counters, op, a);
    if r.Lent? && r.buf == buf {
      WindowKept(d, r.buf.data[..], r.off, r.len, frozen);
    }
  }

  method PerformPut(m: LfuMap, op: Op, ghost r: Lookup, ghost v: seq<byte>) returns (ghost a: Answer)
    requires m.Valid() && (op.Put? || op.PutMulti?) && Sized(op) && Held(m, r, v)
    requires m.kv.tail == MAX_ARENA ==> !PutsEmpty(op)
    modifies m, m.kv, m.kv.data
    ensures m.Valid() && CacheStep(old(CacheOf(m)), op, a, CacheOf(m)) && Held(m, r, v)
    ensures m.kv == old(m.kv) || fresh(m.kv)
    ensures m.kv.data == old(m.kv.data) || fresh(m.kv.data)
  {
    hide ShardOk, Contents, Removed, KeyLow, CacheStep, SameUses;
    ghost var s, u := m.st, m.counters;
    ghost var d, frozen := if r.Lent? then r.buf.data[..] else [], m.kv.frozen;
    var ok;
    if op.Put? {
      ok := m.Put(KeyLow(op.key), op.key, op.value);
    } else {
      ok := m.PutMultiValue(KeyLow(op.key), op.key, |Flatten(op.pieces)|, op.pieces);
    }
    a := Done(ok);
    KeptUses(s, u, m.st, m.counters, op, a);
    if r.Lent? && r.buf == m.kv {
      WindowKept(d, r.buf.data[..], r.off, r.len, frozen);
    }
  }

  /** What the caller of a lookup sees, read through the window it was lent if there is one. */
  function Seen(r: Lookup): Answer
    requires r.Lent? ==> r.off + r.len <= r.buf.data.Length
    reads if r.Lent? then {r.buf.data} else {}
  {
    match r
    case Miss => Nothing
    case Copied(bytes) => Value(bytes)
    case Lent(buf, off, len) => Value(buf.data[off..off + len])
  }

  method PerformLookup(m: LfuMap, op: Op, ghost r: Lookup, ghost v: seq<byte>) returns (ghost a: Answer)
    requires m.Valid() && (op.Get? || op.Has?) && Held(m, r, v)
    modifies m`counters, m`queryCnt, m`missCnt, m.kv
    ensures m.Valid() && CacheStep(old(CacheOf(m)), op, a, CacheOf(m)) && Held(m, r, v)
  {
    hide ShardOk, Contents, Removed, KeyLow, CacheStep, UsedOnce, UsesOf;
    ghost var s, u := m.st, m.counters;
    if op.Get? {
      var got := m.Get(KeyLow(op.key), op.key);
      a := Seen(got);
      if got.Lent? {
        got.buf.CloseReader();
      }
    } else {
      var ok := m.Has(KeyLow(op.key), op.key);
      a := Done(ok);
    }
    LookedUp(s, u, m.counters, op, a);
  }

  /** Operations that write no byte of the arena. */
  method PerformOther(m: LfuMap, op: Op, ghost r: Lookup, ghost v: seq<byte>) returns (ghost a: Answer)
    requires m.Valid() && (op.Delete? || op.Collect? || op.Evict? || op.Clear?) && Held(m, r, v)
    modifies m, m.kv, m.kv.data
    ensures m.Valid() && CacheStep(old(CacheOf(m)), op, a, CacheOf(m)) && Held(m, r, v)
    ensures m.kv == old(m.kv) || fresh(m.kv)
    ensures m.kv.data == old(m.kv.data) || fresh(m.kv.data)
  {
    hide ShardOk, Contents, Removed, KeyLow, CacheStep, SameUses, UsedOnce, UsesOf;
    ghost var s, u := m.st, m.counters;
    match op {
      case Delete(k) =>
        var ok := m.Delete(KeyLow(k), k);
        a := Done(ok);
        KeptUses(s, u, m.st, m.counters, op, a);
      case Collect =>
        var _, _, _ := m.GCCopy();
        a := Nothing;
        KeptUses(s, u, m.st, m.counters, op, a);
      case Evict(count) =>
        var _, top, g := m.EvictLeast(count);
        a := Gone(g);
        EvictedUses(s, u, m.st, m.counters, op, a, top);
      case Clear =>
        m.Clear();
        a := Nothing;
        ClearedUses(s, u, m.st, m.counters);
    }
  }

  /** Runs a list of operations while a reader holds the window `r`.  An empty value is not put into a
      completely full 64MB arena; see `OverflowExample` for what happens there. */
  method Run(m: LfuMap, ops: seq<Op>, ghost r: Lookup, ghost v: seq<byte>)
    returns (done: nat, ghost states: seq<Cache>, ghost answers: seq<Answer>)
    requires m.Valid() && Held(m, r, v) && forall op :: op in ops ==> Sized(op)
    modifies m, m.kv, m.kv.data
    ensures m.Valid() && done <= |ops|
    ensures CacheRun(states, ops[..done], answers) && states[0] == old(CacheOf(m)) && states[done] == CacheOf(m)
    ensures done < |ops| ==> m.kv.tail == MAX_ARENA && PutsEmpty(ops[done])
    ensures Held(m, r, v) && (r.Lent? ==> !r.buf.freed)
  {
    hide ShardOk, Contents, CacheStep, CacheOf;
    states, answers, done := [CacheOf(m)], [], 0;
    while done < |ops|
      invariant 0 <= done <= |ops| && m.Valid() && Held(m, r, v)
      invariant CacheRun(states, ops[..done], answers) && states[0] == old(CacheOf(m)) && states[done] == CacheOf(m)
      invariant m.kv == old(m.kv) || fresh(m.kv)
      invariant m.kv.data == old(m.kv.data) || fresh(m.kv.data)
    {
      var op := ops[done];
      if m.kv.tail == MAX_ARENA && PutsEmpty(op) {
        return;
      }
      ghost var a;
      if op.RePut? {
        a := PerformRePut(m, op, r, v);
      } else if op.Put? || op.PutMulti? {
        a := PerformPut(m, op, r, v);
      } else if op.Get? || op.Has? {
        a := PerformLookup(m, op, r, v);
      } else {
        a := PerformOther(m, op, r, v);
      }
      assert ops[..done + 1] == ops[..done] + [op];
      states, answers := states + [CacheOf(m)], answers + [a];
      done := done + 1;
    }
  }

  lemma WindowKept(d: seq<byte>, e: seq<byte>, off: nat, len: nat, frozen: set<int>)
    requires |d| == |e| && off + len <= |d| && (forall p :: off <= p < off + len ==> p in frozen)
    requires forall p :: p in frozen && 0 <= p < |d| ==> d[p] == e[p]
    ensures d[off..off + len] == e[off..off + len]
  {
  }

  // ---------- An empty value at the end of a full arena ----------

  function NumberedKey(i: byte): Key { [i] + seq(15, _ => 0) }

  /** Sixteen new keys with values below 4MB fill a 64MB arena to the last byte. */
  method FillArena() returns (m: LfuMap)
    ensures m.Valid() && fresh(m) && fresh(m.kv) && fresh(m.kv.data) && m.kv.tail == MAX_ARENA
    ensures NumberedKey(0) in m.Map() && |m.Map()[NumberedKey(0)]| == 4194280
  {
    hide ShardOk, Contents, KeyLow, Removed;
    m := new LfuMap(28, 0);
    var v := seq(4194280, _ => 0);
    for i := 0 to 15
      invariant m.Valid() && fresh(m) && fresh(m.kv) && fresh(m.kv.data)
      invariant m.n == 2 && m.resident == i && m.kv.cap == MAX_ARENA && m.kv.tail == BUFFER_SIZE + i * LIMIT_SIZE
      invariant forall k :: k in m.Map() ==> k[0] < i
      invariant i > 0 ==> NumberedKey(0) in m.Map() && m.Map()[NumberedKey(0)] == v
    {
      var done := m.RePut(KeyLow(NumberedKey(i)), NumberedKey(i), v);
      assert done;
    }
    var last := m.RePut(KeyLow(NumberedKey(15)), NumberedKey(15), seq(4194248, _ => 0));
    assert last;
  }

  /** Putting the empty value under a key of the full arena is reported as done, but its offset wraps into
      the size field: the record reads as one stray byte, not as the empty value that was put. */
  method OverflowExample() returns (m: LfuMap, ok: bool)
    ensures ok && NumberedKey(0) in m.st.slotOf && m.ReadsStrayByte(m.st.slotOf[NumberedKey(0)])
  {
    hide ShardOk, Contents, KeyLow, Removed;
    m := FillArena();
    KeyFacts(m.st, NumberedKey(0));
    ok := m.Put(KeyLow(NumberedKey(0)), NumberedKey(0), []);
  }
}
