/**
 The balancer's main phases over the books: free slots are docked, groups are
 levelled, the leaving slots are picked, and the plan is drawn up.
 */
module RebalancePhases {

  import opened RebalanceBooks

  method BuildTree(b: Books, live: seq<int>) returns (tree: seq<int>)
    requires Distinct(live)
    ensures Ordered(b, tree) && SameKeys(tree, live)
  {
    tree := [];
    for i := 0 to |live|
      invariant Ordered(b, tree) && SameKeys(tree, live[..i])
    {
      TreePutOrdered(b, tree, live[i]);
      tree := TreePut(b, tree, live[i]);
    }
    assert live[..|live|] == live;
  }

  // ---------- Docking free slots ----------

  /** What the phases after opening share: only moves change, and the tree lists the live groups by size. */
  ghost predicate Moving(b: Books, c: Books, live: seq<int>, lower: int, upper: int) {
    c.kept == b.kept && c.pendings == b.pendings && MovesOk(c, live, lower, upper)
  }

  ghost predicate Docking(slots: seq<Slot>, live: seq<int>, b: Books, docking: seq<nat>, i: nat)
    requires i <= |slots|
  {
    && Increasing(docking)
    && (forall x :: x in docking <==> x in AllFree(slots, i))
    && |docking| == |AllFree(slots, i)|
    && Total(MovesOnly(b), live) == |docking|
    && Holds(slots, live, b, |AllActive(slots, |slots|)| + |AllSitting(slots, |slots|)| + |AllFree(slots, i)|)
  }

  lemma DockStep(slots: seq<Slot>, live: seq<int>, b: Books, docking: seq<nat>, i: nat, g: int, c: Books)
    requires i < |slots| && Docking(slots, live, b, docking, i) && Distinct(live)
    requires !slots[i].active && slots[i].group == 0 && g in live && c == AddMove(b, g, -1)
    ensures Docking(slots, live, c, docking + [i], i + 1)
  {
    hide Total, AllActive, AllSitting, AllFree;
    AllNext(slots, i);
    NotYet(slots, 0, i);
    AddMoveShifts(b, g, -1, c);
    TotalShift(b, c, live, g, 1);
    TotalShift(MovesOnly(b), MovesOnly(c), live, g, 1);
    assert forall x :: x in AllFree(slots, i) ==> x < i by { FreeBelow(slots, i); }
    assert forall k :: 0 <= k < |docking| ==> docking[k] in docking;
  }

  lemma FreeBelow(slots: seq<Slot>, i: nat)
    requires i <= |slots|
    ensures forall x :: x in AllFree(slots, i) ==> x < i
  {
  }

  lemma SameFree(slots: seq<Slot>, i: nat)
    requires i < |slots| && (slots[i].active || slots[i].group != 0)
    ensures AllFree(slots, i + 1) == AllFree(slots, i)
  {
  }

  lemma DockSkip(slots: seq<Slot>, live: seq<int>, b: Books, docking: seq<nat>, i: nat)
    requires i < |slots| && Docking(slots, live, b, docking, i)
    requires slots[i].active || slots[i].group != 0
    ensures Docking(slots, live, b, docking, i + 1)
  {
    hide Total, AllActive, AllSitting, AllFree, Holds, AllLive;
    SameFree(slots, i);
  }

  lemma StillFree(slots: seq<Slot>, live: seq<int>, b: Books, docking: seq<nat>, i: nat)
    requires i < |slots| && Docking(slots, live, b, docking, i)
    requires !slots[i].active && slots[i].group == 0
    ensures Total(b, live) < |slots|
  {
    ThreeKinds(slots, |slots|);
    assert i in AllFree(slots, |slots|) && i !in AllFree(slots, i);
    SubsetSmaller(AllFree(slots, i), AllFree(slots, |slots|), i);
  }

  lemma SubsetSmaller(a: set<nat>, c: set<nat>, x: nat)
    requires a <= c && x in c && x !in a
    ensures |a| < |c|
  {
    assert c == a + (c - a);
    assert x in c - a;
  }

  ghost predicate NoneFree(slots: seq<Slot>, i: nat)
    requires i <= |slots|
  {
    forall s :: 0 <= s < i ==> slots[s].active || slots[s].group != 0
  }

  /** Docks every free slot to the group that is smallest at that moment. */
  method DockFree(slots: seq<Slot>, live: seq<int>, start: Books, lower: int, upper: int)
    returns (b: Books, tree: seq<int>, docking: seq<nat>)
    requires Distinct(live) && Bounds(|slots|, |live|, lower, upper)
    requires start.moveout == map[]
    requires Holds(slots, live, start, |AllActive(slots, |slots|)| + |AllSitting(slots, |slots|)|)
    ensures Moving(start, b, live, lower, upper)
    ensures Ordered(b, tree) && SameKeys(tree, live)
    ensures Docking(slots, live, b, docking, |slots|)
    ensures NoneFree(slots, |slots|) ==> b == start && docking == []
  {
    hide Total, Ordered, Docking, MovesOk;
    b, docking := start, [];
    tree := BuildTree(b, live);
    assert MovesOk(b, live, lower, upper) by {
      NoMoves(b, live, lower, upper);
    }
    assert Docking(slots, live, b, docking, 0) by {
      DockNone(slots, live, b);
    }
    for i := 0 to |slots|
      invariant Moving(start, b, live, lower, upper)
      invariant Ordered(b, tree) && SameKeys(tree, live)
      invariant Docking(slots, live, b, docking, i)
      invariant NoneFree(slots, i) ==> b == start && docking == []
    {
      ghost var c := b;
      if !slots[i].active && slots[i].group == 0 {
        NotEmpty(tree, live);
        OrderedTail(b, tree);
        var dest := tree[0];
        StillFree(slots, live, b, docking, i);
        SmallestBelowUpper(b, live, dest, |slots|, lower, upper);
        tree := tree[1..];
        docking := docking + [i];
        b := AddMove(b, dest, -1);
        AddMoveOk(c, live, lower, upper, dest, -1, b);
        DockStep(slots, live, c, docking[..|docking| - 1], i, dest, b);
        Replace(c, tree, dest, -1, b);
        tree := TreePut(b, tree, dest);
      } else {
        DockSkip(slots, live, b, docking, i);
      }
    }
  }

  lemma NotEmpty(tree: seq<int>, live: seq<int>)
    requires SameKeys(tree, live) && live != []
    ensures tree != []
  {
    var g := live[0];
    assert g in live;
    assert g in tree;
  }

  lemma NoMoves(b: Books, live: seq<int>, lower: int, upper: int)
    requires b.moveout == map[]
    ensures MovesOk(b, live, lower, upper)
  {
    forall g ensures MoveOk(b, live, lower, upper, g) {
    }
  }

  lemma DockNone(slots: seq<Slot>, live: seq<int>, b: Books)
    requires b.moveout == map[]
    requires Holds(slots, live, b, |AllActive(slots, |slots|)| + |AllSitting(slots, |slots|)|)
    ensures Docking(slots, live, b, [], 0)
  {
    Empty(slots, 0);
    TotalEmpty(MovesOnly(b), live);
  }

  // ---------- Levelling ----------

  /** A group outside the tree has nothing left to give and is at least as large as the rest. */
  ghost predicate Aside(b: Books, live: seq<int>, tree: seq<int>, g: int) {
    g in live && g !in tree ==>
      GroupSize(b, g) == Kept(b, g) && forall t :: t in tree ==> GroupSize(b, t) <= GroupSize(b, g)
  }

  ghost predicate AllAside(b: Books, live: seq<int>, tree: seq<int>) {
    forall g {:trigger Aside(b, live, tree, g)} :: Aside(b, live, tree, g)
  }

  ghost predicate Stuck(b: Books, g: int) { GroupSize(b, g) == Kept(b, g) }

  /** How levelling ends: with large groups stuck, with nobody below the upper bound, or level. */
  ghost predicate Settled(b: Books, live: seq<int>, lower: int, upper: int) {
    || (forall g :: g in live ==> GroupSize(b, g) <= lower || Stuck(b, g))
    || (forall g :: g in live ==> GroupSize(b, g) >= upper)
    || (forall g :: g in live ==> GroupSize(b, g) >= lower && (GroupSize(b, g) <= upper || Stuck(b, g)))
  }

  lemma NoneAside(b: Books, live: seq<int>, tree: seq<int>)
    requires SameKeys(tree, live)
    ensures AllAside(b, live, tree)
  {
    forall g ensures Aside(b, live, tree, g) {
    }
  }

  lemma SetAside(b: Books, live: seq<int>, tree: seq<int>, n: nat)
    requires Ordered(b, tree) && AllAside(b, live, tree) && |tree| == n + 1 && Stuck(b, tree[n])
    ensures AllAside(b, live, tree[..n])
  {
    OrderedFront(b, tree);
    forall g ensures Aside(b, live, tree[..n], g) {
      assert Aside(b, live, tree, g);
    }
  }

  /** One move from the largest to the smallest group keeps everything in order. */
  lemma MoveAside(b: Books, live: seq<int>, tree: seq<int>, from: int, dest: int, c: Books, after: seq<int>)
    requires AllAside(b, live, tree) && SameKeys(after, tree)
    requires from in tree && dest in tree && GroupSize(b, from) - GroupSize(b, dest) >= 2
    requires forall t :: t in tree ==> GroupSize(b, t) <= GroupSize(b, from)
    requires c == AddMove(AddMove(b, from, 1), dest, -1)
    ensures AllAside(c, live, after)
  {
    AddMoveShifts(b, from, 1, AddMove(b, from, 1));
    AddMoveShifts(AddMove(b, from, 1), dest, -1, c);
    forall g ensures Aside(c, live, after, g) {
      assert Aside(b, live, tree, g);
    }
  }

  lemma MoveTotals(b: Books, live: seq<int>, from: int, dest: int, c: Books)
    requires Distinct(live) && from in live && dest in live && GroupSize(b, from) - GroupSize(b, dest) >= 2
    requires c == AddMove(AddMove(b, from, 1), dest, -1)
    ensures Total(c, live) == Total(b, live) && Total(MovesOnly(c), live) == Total(MovesOnly(b), live)
    ensures Squares(c, live) < Squares(b, live)
  {
    hide Total, Squares, Square;
    var m := AddMove(b, from, 1);
    AddMoveShifts(b, from, 1, m);
    AddMoveShifts(m, dest, -1, c);
    TotalShift(b, m, live, from, -1);
    TotalShift(m, c, live, dest, 1);
    TotalShift(MovesOnly(b), MovesOnly(m), live, from, -1);
    TotalShift(MovesOnly(m), MovesOnly(c), live, dest, 1);
    SquaresShift(b, m, live, from, -1);
    SquaresShift(m, c, live, dest, 1);
    MoveLowersSquares(GroupSize(b, from), GroupSize(b, dest));
  }

  lemma MoveOrdered(b: Books, live: seq<int>, lower: int, upper: int,
                    rest: seq<int>, from: int, dest: int, c: Books)
    requires Ordered(b, rest) && from !in rest && dest !in rest && from != dest
    requires MovesOk(b, live, lower, upper) && from in live && dest in live
    requires Moveout(b, from) < |Pendings(b, from)| && GroupSize(b, from) > lower && GroupSize(b, dest) < upper
    requires c == AddMove(AddMove(b, from, 1), dest, -1)
    ensures MovesOk(c, live, lower, upper)
    ensures Ordered(c, TreePut(c, TreePut(c, rest, from), dest))
  {
    hide Ordered, MovesOk;
    var m := AddMove(b, from, 1);
    AddMoveShifts(b, from, 1, m);
    AddMoveShifts(m, dest, -1, c);
    AddMoveOk(b, live, lower, upper, from, 1, m);
    AddMoveOk(m, live, lower, upper, dest, -1, c);
    OrderedKept(b, c, rest);
    TreePutOrdered(c, rest, from);
    TreePutOrdered(c, TreePut(c, rest, from), dest);
  }

  lemma SettledEmpty(b: Books, live: seq<int>, tree: seq<int>, lower: int, upper: int)
    requires AllAside(b, live, tree) && |tree| < 2 && upper <= lower + 1
    ensures Settled(b, live, lower, upper)
  {
    forall g | g in live ensures Aside(b, live, tree, g) {
    }
    if |tree| == 1 && GroupSize(b, tree[0]) > lower {
      assert forall g :: g in live ==> GroupSize(b, g) >= upper;
    } else {
      assert forall g :: g in live ==> GroupSize(b, g) <= lower || Stuck(b, g);
    }
  }

  lemma SettledStop(b: Books, live: seq<int>, tree: seq<int>, lower: int, upper: int, from: int, dest: int)
    requires AllAside(b, live, tree) && lower <= upper <= lower + 1
    requires forall t :: t in tree ==> GroupSize(b, dest) <= GroupSize(b, t) <= GroupSize(b, from)
    requires from in tree && dest in tree
    requires GroupSize(b, from) <= lower || GroupSize(b, dest) >= upper
             || GroupSize(b, from) - GroupSize(b, dest) <= 1
    ensures Settled(b, live, lower, upper)
  {
    forall g | g in live ensures Aside(b, live, tree, g) {
    }
    if GroupSize(b, from) <= lower {
      assert forall g :: g in live ==> GroupSize(b, g) <= lower || Stuck(b, g);
    } else if GroupSize(b, dest) >= upper {
      assert forall g :: g in live ==> GroupSize(b, g) >= upper;
    } else {
      assert forall g :: g in live ==> GroupSize(b, g) >= lower && (GroupSize(b, g) <= upper || Stuck(b, g));
    }
  }

  ghost predicate Near(b: Books, live: seq<int>) {
    forall g, h :: g in live && h in live ==> GroupSize(b, g) - GroupSize(b, h) <= 1
  }

  /** Moves slots from the largest to the smallest group until no move would help. */
  method Level(live: seq<int>, start: Books, initial: seq<int>, lower: int, upper: int) returns (b: Books)
    requires Distinct(live) && lower <= upper <= lower + 1
    requires MovesOk(start, live, lower, upper) && Ordered(start, initial) && SameKeys(initial, live)
    ensures Moving(start, b, live, lower, upper)
    ensures Total(b, live) == Total(start, live) && Total(MovesOnly(b), live) == Total(MovesOnly(start), live)
    ensures Settled(b, live, lower, upper)
    ensures Near(start, live) ==> b == start
  {
    hide Ordered, MovesOk, AllAside, Settled, Total, Squares;
    b := start;
    var tree := initial;
    NoneAside(b, live, tree);
    while |tree| >= 2
      invariant Moving(start, b, live, lower, upper)
      invariant Total(b, live) == Total(start, live) && Total(MovesOnly(b), live) == Total(MovesOnly(start), live)
      invariant Ordered(b, tree) && (forall t :: t in tree ==> t in live) && AllAside(b, live, tree)
      invariant Near(start, live) ==> b == start
      decreases Squares(b, live), |tree|
    {
      var n := |tree| - 1;
      OrderedFront(b, tree);
      var from := tree[n];
      if |Pendings(b, from)| == Moveout(b, from) {
        SetAside(b, live, tree, n);
        tree := tree[..n];
        continue;
      }
      assert |Pendings(b, from)| > Moveout(b, from) by {
        GivesAtMost(b, live, lower, upper, from);
      }
      ghost var whole := tree;
      tree := tree[..n];
      OrderedTail(b, tree);
      var dest := tree[0];
      tree := tree[1..];
      assert forall t :: t in whole <==> t in tree || t == from || t == dest;
      if GroupSize(b, from) <= lower || GroupSize(b, dest) >= upper || GroupSize(b, from) - GroupSize(b, dest) <= 1 {
        SettledStop(b, live, whole, lower, upper, from, dest);
        return;
      }
      ghost var c := b;
      b := AddMove(AddMove(b, from, 1), dest, -1);
      MoveTotals(c, live, from, dest, b);
      MoveOrdered(c, live, lower, upper, tree, from, dest, b);
      tree := TreePut(b, TreePut(b, tree, from), dest);
      MoveAside(c, live, whole, from, dest, b, tree);
    }
    SettledEmpty(b, live, tree, lower, upper);
  }

  lemma GivesAtMost(b: Books, live: seq<int>, lower: int, upper: int, g: int)
    requires MovesOk(b, live, lower, upper)
    ensures Moveout(b, g) <= |Pendings(b, g)|
  {
    assert MoveOk(b, live, lower, upper, g);
  }

  // ---------- Picking the slots that leave ----------

  ghost function Elements(docking: seq<nat>): set<nat> { set x | x in docking }

  ghost predicate NoRepeats(docking: seq<nat>) {
    forall i, j :: 0 <= i < j < |docking| ==> docking[i] != docking[j]
  }

  /** Gives up the moves of `g`: its `n` largest movable slots leave. */
  function TakeOut(b: Books, g: int, n: nat): Books
    requires n <= |Pendings(b, g)|
  {
    var p := Pendings(b, g);
    Books(b.kept, if n > 0 then b.pendings[g := p[..|p| - n]] else b.pendings, b.moveout - {g})
  }

  function Taken(b: Books, g: int, n: nat): seq<nat>
    requires n <= |Pendings(b, g)|
  {
    Pendings(b, g)[|Pendings(b, g)| - n..]
  }

  ghost predicate Docked(slots: seq<Slot>, docked: set<nat>, x: nat) {
    x in docked ==> x < |slots| && !slots[x].active
  }

  /** Slots taken from a group: the group stands at or above the lower bound and receives nothing. */
  ghost predicate GiverOk(slots: seq<Slot>, b: Books, live: seq<int>, lower: int, docked: set<nat>, x: nat) {
    x in docked && x < |slots| && slots[x].group != 0 ==>
      slots[x].group !in b.moveout && slots[x].group in live && GroupSize(b, slots[x].group) >= lower
  }

  /** The state between visits of the moves. */
  ghost predicate Picking(slots: seq<Slot>, live: seq<int>, b: Books, lower: int, upper: int, docking: seq<nat>) {
    var d := Elements(docking);
    && NoRepeats(docking)
    && (forall x {:trigger Docked(slots, d, x)} :: Docked(slots, d, x))
    && (forall x {:trigger GiverOk(slots, b, live, lower, d, x)} :: GiverOk(slots, b, live, lower, d, x))
    && AllFree(slots, |slots|) <= d
    && BooksOk(slots, b, d, |slots|)
    && MovesOk(b, live, lower, upper)
    && Total(MovesOnly(b), live) == |docking|
  }

  lemma BooksMoved(slots: seq<Slot>, b: Books, c: Books, docked: set<nat>)
    requires BooksOk(slots, b, docked, |slots|) && c.kept == b.kept && c.pendings == b.pendings
    ensures BooksOk(slots, c, docked, |slots|)
  {
    hide Sitting, Arriving;
    var k := |slots|;
    forall g ensures GroupOk(slots, c, docked, g, k) && TopOk(slots, c, docked, g, k) {
      assert GroupOk(slots, b, docked, g, k);
      assert Pendings(c, g) == Pendings(b, g) && Kept(c, g) == Kept(b, g);
      forall x ensures Rank(c, docked, g, x) == Rank(b, docked, g, x) {
      }
    }
  }

  /** Free slots belong to no group, so docking them changes no group's account. */
  lemma BooksDocked(slots: seq<Slot>, b: Books)
    requires BooksOk(slots, b, {}, |slots|)
    ensures BooksOk(slots, b, AllFree(slots, |slots|), |slots|)
  {
    hide Arriving;
    var k, none: set<nat>, d := |slots|, {}, AllFree(slots, |slots|);
    forall g ensures GroupOk(slots, b, d, g, k) && TopOk(slots, b, d, g, k) {
      assert GroupOk(slots, b, none, g, k);
      if g != 0 {
        assert d * Sitting(slots, g, k) == {} == none * Sitting(slots, g, k);
        forall x | x in Sitting(slots, g, k) ensures Rank(b, d, g, x) == Rank(b, none, g, x) {
        }
      } else {
        assert d == Sitting(slots, 0, k);
      }
    }
  }

  lemma PickStart(slots: seq<Slot>, live: seq<int>, b: Books, lower: int, upper: int, docking: seq<nat>)
    requires Increasing(docking) && Elements(docking) == AllFree(slots, |slots|)
    requires BooksOk(slots, b, {}, |slots|) && MovesOk(b, live, lower, upper)
    requires Total(MovesOnly(b), live) == |docking|
    ensures Picking(slots, live, b, lower, upper, docking)
  {
    hide BooksOk, MovesOk, Total;
    BooksDocked(slots, b);
  }

  /** `n` slots `t` of group `g` leave, `q` stay movable. */
  ghost predicate Leaves(b: Books, g: int, n: nat, q: seq<nat>, t: seq<nat>, c: Books) {
    && Moveout(b, g) == n == |t| && Pendings(b, g) == q + t
    && c.kept == b.kept && c.moveout == b.moveout - {g}
    && forall h {:trigger Pendings(c, h)} :: Pendings(c, h) == if h == g then q else Pendings(b, h)
  }

  lemma TakeOutLeaves(b: Books, g: int, n: nat)
    requires n <= |Pendings(b, g)| && Moveout(b, g) == n
    ensures Leaves(b, g, n, Pendings(b, g)[..|Pendings(b, g)| - n], Taken(b, g, n), TakeOut(b, g, n))
  {
  }

  lemma LeavesSizes(b: Books, g: int, n: nat, q: seq<nat>, t: seq<nat>, c: Books, h: int)
    requires Leaves(b, g, n, q, t, c)
    ensures GroupSize(c, h) == GroupSize(b, h)
    ensures Kept(c, h) == Kept(b, h) && Moveout(c, h) == if h == g then 0 else Moveout(b, h)
  {
  }

  lemma TakenSplit(p: seq<nat>, q: seq<nat>, t: seq<nat>)
    requires Increasing(p) && p == q + t
    ensures forall x :: x in p <==> x in q || x in t
    ensures forall x, y :: x in t && y in q ==> y < x
    ensures NoRepeats(t) && Increasing(q)
    ensures |Elements(t)| == |t|
  {
    assert forall i :: 0 <= i < |q| ==> p[i] == q[i];
    assert forall i :: 0 <= i < |t| ==> p[|q| + i] == t[i];
    NoRepeatsSize(t);
  }

  lemma {:induction false} NoRepeatsSize(p: seq<nat>)
    requires NoRepeats(p)
    ensures |Elements(p)| == |p|
  {
    if p != [] {
      var k := |p| - 1;
      NoRepeatsSize(p[..k]);
      assert p == p[..k] + [p[k]];
      assert Elements(p) == Elements(p[..k]) + {p[k]};
    }
  }

  lemma SittingApart(slots: seq<Slot>, g: int, h: int)
    requires g != h
    ensures Sitting(slots, g, |slots|) !! Sitting(slots, h, |slots|)
  {
  }

  lemma MoreDocked(d: set<nat>, t: set<nat>, sitting: set<nat>)
    requires t <= sitting && t !! d
    ensures |(d + t) * sitting| == |d * sitting| + |t|
  {
    assert (d + t) * sitting == d * sitting + t;
  }

  lemma PickSame(slots: seq<Slot>, b: Books, d: set<nat>, g: int, n: nat,
                 q: seq<nat>, t: seq<nat>, c: Books, e: set<nat>)
    requires Leaves(b, g, n, q, t, c) && e == d + Elements(t)
    requires GroupOk(slots, b, d, g, |slots|)
    ensures GroupOk(slots, c, e, g, |slots|)
  {
    hide Arriving, Sitting;
    var sitting := Sitting(slots, g, |slots|);
    LeavesSizes(b, g, n, q, t, c, g);
    TakenSplit(Pendings(b, g), q, t);
    assert Pendings(c, g) == q;
    forall x | x in t ensures x in sitting && x !in d {
      assert x in Pendings(b, g);
    }
    MoreDocked(d, Elements(t), sitting);
    forall x | x in q ensures x in sitting && x !in e {
      assert x in Pendings(b, g);
      assert x !in t;
    }
  }

  lemma PickOther(slots: seq<Slot>, b: Books, d: set<nat>, g: int, n: nat,
                  q: seq<nat>, t: seq<nat>, c: Books, e: set<nat>, h: int)
    requires Leaves(b, g, n, q, t, c) && e == d + Elements(t) && h != g
    requires GroupOk(slots, b, d, g, |slots|) && GroupOk(slots, b, d, h, |slots|)
    ensures GroupOk(slots, c, e, h, |slots|)
  {
    hide Arriving, Sitting;
    var sitting := Sitting(slots, h, |slots|);
    LeavesSizes(b, g, n, q, t, c, h);
    SittingApart(slots, g, h);
    assert Pendings(c, h) == Pendings(b, h);
    forall x | x in t ensures x !in sitting {
      assert x in Pendings(b, g);
    }
    assert e * sitting == d * sitting;
  }

  lemma PickTop(slots: seq<Slot>, b: Books, d: set<nat>, g: int, n: nat,
                q: seq<nat>, t: seq<nat>, c: Books, e: set<nat>, h: int)
    requires Leaves(b, g, n, q, t, c) && e == d + Elements(t)
    requires GroupOk(slots, b, d, g, |slots|) && TopOk(slots, b, d, h, |slots|)
    ensures TopOk(slots, c, e, h, |slots|)
  {
    hide Arriving, Sitting;
    var sitting := Sitting(slots, h, |slots|);
    TakenSplit(Pendings(b, g), q, t);
    assert Pendings(c, h) == if h == g then q else Pendings(b, h);
    if h != g {
      SittingApart(slots, g, h);
    }
    forall x, y | x in sitting && y in sitting && Rank(c, e, h, y) < Rank(c, e, h, x)
      ensures y < x
    {
      RankAfter(b, d, g, n, q, t, c, e, h, x);
      RankAfter(b, d, g, n, q, t, c, e, h, y);
    }
  }

  lemma RankAfter(b: Books, d: set<nat>, g: int, n: nat,
                  q: seq<nat>, t: seq<nat>, c: Books, e: set<nat>, h: int, x: nat)
    requires Leaves(b, g, n, q, t, c) && e == d + Elements(t)
    requires h != g ==> x !in t
    ensures Rank(b, d, h, x) == if x in d then 2 else if x in t then 1 else Rank(c, e, h, x)
  {
    assert Pendings(c, h) == if h == g then q else Pendings(b, h);
    assert x in q + t <==> x in q || x in t;
  }

  lemma PickBooks(slots: seq<Slot>, b: Books, d: set<nat>, g: int, n: nat,
                  q: seq<nat>, t: seq<nat>, c: Books, e: set<nat>)
    requires Leaves(b, g, n, q, t, c) && e == d + Elements(t) && BooksOk(slots, b, d, |slots|)
    ensures BooksOk(slots, c, e, |slots|)
  {
    hide GroupOk, TopOk;
    var k := |slots|;
    assert GroupOk(slots, b, d, g, k);
    forall h ensures GroupOk(slots, c, e, h, k) && TopOk(slots, c, e, h, k) {
      assert GroupOk(slots, b, d, h, k);
      if h == g {
        PickSame(slots, b, d, g, n, q, t, c, e);
      } else {
        PickOther(slots, b, d, g, n, q, t, c, e, h);
      }
      PickTop(slots, b, d, g, n, q, t, c, e, h);
    }
  }

  lemma PickMoves(b: Books, live: seq<int>, lower: int, upper: int, g: int, n: nat, q: seq<nat>, t: seq<nat>, c: Books)
    requires Leaves(b, g, n, q, t, c) && g in live
    requires MovesOk(b, live, lower, upper) && Distinct(live)
    ensures MovesOk(c, live, lower, upper)
    ensures Total(MovesOnly(c), live) == Total(MovesOnly(b), live) + n
  {
    forall h ensures MoveOk(c, live, lower, upper, h) {
      assert MoveOk(b, live, lower, upper, h);
      LeavesSizes(b, g, n, q, t, c, h);
    }
    assert Shifted(MovesOnly(b), MovesOnly(c), g, n);
    TotalShift(MovesOnly(b), MovesOnly(c), live, g, n);
  }

  lemma PickDocked(slots: seq<Slot>, b: Books, live: seq<int>, lower: int, upper: int,
                   docking: seq<nat>, g: int, n: nat, q: seq<nat>, t: seq<nat>, c: Books)
    requires Picking(slots, live, b, lower, upper, docking) && g in b.moveout
    requires Leaves(b, g, n, q, t, c)
    ensures var e := Elements(docking + t);
            && NoRepeats(docking + t)
            && (forall x {:trigger Docked(slots, e, x)} :: Docked(slots, e, x))
            && (forall x {:trigger GiverOk(slots, c, live, lower, e, x)} :: GiverOk(slots, c, live, lower, e, x))
  {
    hide Total, AllFree, Distinct, BooksOk, MovesOk, Leaves;
    var d, e := Elements(docking), Elements(docking + t);
    PickFacts(slots, b, live, lower, upper, d, g, n, q, t, c);
    Joined(docking, t);
    forall x: nat ensures Docked(slots, e, x) && GiverOk(slots, c, live, lower, e, x) {
      assert Docked(slots, d, x) && GiverOk(slots, b, live, lower, d, x);
      if x in d && x < |slots| {
        LeavesSizes(b, g, n, q, t, c, slots[x].group);
      }
    }
  }

  lemma PickFacts(slots: seq<Slot>, b: Books, live: seq<int>, lower: int, upper: int,
                  d: set<nat>, g: int, n: nat, q: seq<nat>, t: seq<nat>, c: Books)
    requires BooksOk(slots, b, d, |slots|) && MovesOk(b, live, lower, upper) && g in b.moveout
    requires Leaves(b, g, n, q, t, c)
    ensures g in live && c.moveout == b.moveout - {g} && NoRepeats(t)
    ensures forall x :: x in t ==> x !in d && x < |slots| && !slots[x].active && slots[x].group == g
    ensures t != [] ==> g != 0 && GroupSize(c, g) >= lower
  {
    hide Arriving, TopOk;
    assert GroupOk(slots, b, d, g, |slots|);
    assert MoveOk(b, live, lower, upper, g);
    TakenSplit(Pendings(b, g), q, t);
    LeavesSizes(b, g, n, q, t, c, g);
    forall x | x in t ensures x !in d && x in Sitting(slots, g, |slots|) {
      assert x in Pendings(b, g);
    }
  }

  lemma Joined(docking: seq<nat>, t: seq<nat>)
    requires NoRepeats(docking) && NoRepeats(t) && forall x :: x in t ==> x !in docking
    ensures NoRepeats(docking + t)
    ensures Elements(docking + t) == Elements(docking) + Elements(t)
  {
    forall i, j | 0 <= i < j < |docking + t| ensures (docking + t)[i] != (docking + t)[j] {
      if i < |docking| <= j {
        assert (docking + t)[j] in t && (docking + t)[i] in docking;
      }
    }
  }

  lemma PickStep(slots: seq<Slot>, b: Books, live: seq<int>, lower: int, upper: int,
                 docking: seq<nat>, g: int, n: nat, q: seq<nat>, t: seq<nat>, c: Books)
    requires Picking(slots, live, b, lower, upper, docking) && g in b.moveout && Distinct(live)
    requires Leaves(b, g, n, q, t, c)
    ensures Picking(slots, live, c, lower, upper, docking + t)
  {
    hide Total, Leaves, AllFree, BooksOk, MovesOk, NoRepeats, Docked, GiverOk, Distinct;
    assert g in live by { MovedLive(b, live, lower, upper, g); }
    PickDocked(slots, b, live, lower, upper, docking, g, n, q, t, c);
    assert Elements(docking + t) == Elements(docking) + Elements(t);
    PickBooks(slots, b, Elements(docking), g, n, q, t, c, Elements(docking + t));
    PickMoves(b, live, lower, upper, g, n, q, t, c);
    assert |t| == n by { LeavesCount(b, g, n, q, t, c); }
  }

  lemma LeavesCount(b: Books, g: int, n: nat, q: seq<nat>, t: seq<nat>, c: Books)
    requires Leaves(b, g, n, q, t, c)
    ensures |t| == n
  {
  }

  lemma MovedLive(b: Books, live: seq<int>, lower: int, upper: int, g: int)
    requires MovesOk(b, live, lower, upper) && g in b.moveout
    ensures g in live
  {
    assert MoveOk(b, live, lower, upper, g);
  }

  lemma NonEmpty(s: set<int>)
    ensures s == {} || exists g :: g in s
  {
    if forall g :: g !in s {
      assert s == {};
    }
  }

  ghost predicate SameSizes(b: Books, c: Books) {
    forall g {:trigger GroupSize(c, g)} :: GroupSize(c, g) == GroupSize(b, g)
  }

  /** Visits the moves in whatever order the map yields them and picks the slots that leave. */
  method PickLeaving(ghost slots: seq<Slot>, ghost live: seq<int>, start: Books,
                     ghost lower: int, ghost upper: int, docked: seq<nat>)
    returns (b: Books, docking: seq<nat>)
    requires Distinct(live) && Picking(slots, live, start, lower, upper, docked)
    ensures Picking(slots, live, b, lower, upper, docking) && SameSizes(start, b)
    ensures forall g :: g in b.moveout ==> b.moveout[g] < 0
    ensures b.kept == start.kept
    ensures start.moveout == map[] ==> docking == docked
  {
    hide Picking, Leaves, Distinct;
    b, docking := start, docked;
    var todo: set<int> := b.moveout.Keys;
    while todo != {}
      invariant Picking(slots, live, b, lower, upper, docking) && SameSizes(start, b)
      invariant todo <= b.moveout.Keys && b.kept == start.kept
      invariant start.moveout == map[] ==> todo == {} && docking == docked
      invariant forall g :: g in b.moveout && g !in todo ==> b.moveout[g] < 0
      decreases todo
    {
      assert exists g :: g in todo by { NonEmpty(todo); }
      var g :| g in todo;
      todo := todo - {g};
      var n := b.moveout[g];
      if n >= 0 {
        ghost var q := Pendings(b, g);
        assert n <= |q| by { PickEnough(slots, live, b, lower, upper, docking, g); }
        q := q[..|q| - n];
        TakeOutLeaves(b, g, n);
        var t := Taken(b, g, n);
        ghost var c := b;
        b := TakeOut(b, g, n);
        PickStep(slots, c, live, lower, upper, docking, g, n, q, t, b);
        docking := docking + t;
        forall h ensures GroupSize(b, h) == GroupSize(start, h) {
          LeavesSizes(c, g, n, q, t, b, h);
          assert GroupSize(c, h) == GroupSize(start, h);
        }
      }
    }
  }

  lemma PickEnough(slots: seq<Slot>, live: seq<int>, b: Books, lower: int, upper: int, docking: seq<nat>, g: int)
    requires Picking(slots, live, b, lower, upper, docking)
    ensures Moveout(b, g) <= |Pendings(b, g)|
  {
    GivesAtMost(b, live, lower, upper, g);
  }
}
