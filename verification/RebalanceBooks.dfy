/**
 The slot balancer: moves slots between server groups until their sizes
 differ by at most one, working greedily from the largest group to the
 smallest through a tree ordered by the current sizes.
 */
module RebalanceBooks {

  /** A slot belongs to a group (0: none); an active slot is already on its way to `target`. */
  datatype Slot = Slot(group: int, active: bool, target: int)

  /** The balancer's books: slots that stay, slots that may leave, and the net number leaving. */
  datatype Books = Books(kept: map<int, nat>, pendings: map<int, seq<nat>>, moveout: map<int, int>)

  function Kept(b: Books, g: int): nat { if g in b.kept then b.kept[g] else 0 }

  function Pendings(b: Books, g: int): seq<nat> { if g in b.pendings then b.pendings[g] else [] }

  function Moveout(b: Books, g: int): int { if g in b.moveout then b.moveout[g] else 0 }

  /** The size a group will have if the moves booked so far are carried out. */
  function GroupSize(b: Books, g: int): int { Kept(b, g) + |Pendings(b, g)| - Moveout(b, g) }

  // ---------- Sums over groups ----------

  function Total(b: Books, groups: seq<int>): int {
    if groups == [] then 0 else Total(b, groups[..|groups| - 1]) + GroupSize(b, groups[|groups| - 1])
  }

  function Square(x: int): (r: int)
    ensures r >= 0
  {
    x * x
  }

  function Squares(b: Books, groups: seq<int>): (r: nat) {
    if groups == [] then 0 else Squares(b, groups[..|groups| - 1]) + Square(GroupSize(b, groups[|groups| - 1]))
  }

  ghost predicate Distinct(groups: seq<int>) {
    forall i, j :: 0 <= i < j < |groups| ==> groups[i] != groups[j]
  }

  /** `c` differs from `b` in the size of group `h` only, by `d`. */
  ghost predicate Shifted(b: Books, c: Books, h: int, d: int) {
    && GroupSize(c, h) == GroupSize(b, h) + d
    && forall g {:trigger GroupSize(c, g)} :: g != h ==> GroupSize(c, g) == GroupSize(b, g)
  }

  lemma {:induction false} TotalShift(b: Books, c: Books, groups: seq<int>, h: int, d: int)
    requires Distinct(groups) && Shifted(b, c, h, d)
    ensures Total(c, groups) == Total(b, groups) + if h in groups then d else 0
  {
    if groups != [] {
      var n := |groups| - 1;
      TotalShift(b, c, groups[..n], h, d);
      assert groups == groups[..n] + [groups[n]];
    }
  }

  lemma {:induction false} SquaresShift(b: Books, c: Books, groups: seq<int>, h: int, d: int)
    requires Distinct(groups) && Shifted(b, c, h, d)
    ensures Squares(c, groups) == Squares(b, groups) +
                                  if h in groups then Square(GroupSize(c, h)) - Square(GroupSize(b, h)) else 0
  {
    hide Square;
    if groups != [] {
      var n := |groups| - 1;
      SquaresShift(b, c, groups[..n], h, d);
      assert groups == groups[..n] + [groups[n]];
    }
  }

  /** Moving one unit from a larger to a smaller group lowers the sum of squares. */
  lemma MoveLowersSquares(s: int, t: int)
    requires s - t >= 2
    ensures Square(s - 1) + Square(t + 1) < Square(s) + Square(t)
  {
    assert Square(s - 1) == Square(s) - 2 * s + 1;
    assert Square(t + 1) == Square(t) + 2 * t + 1;
  }

  lemma {:induction false} TotalAtMost(b: Books, groups: seq<int>, x: int)
    requires forall g :: g in groups ==> GroupSize(b, g) <= x
    ensures Total(b, groups) <= |groups| * x
    ensures Total(b, groups) == |groups| * x ==> forall g :: g in groups ==> GroupSize(b, g) == x
  {
    if groups != [] {
      var n := |groups| - 1;
      assert groups == groups[..n] + [groups[n]];
      TotalAtMost(b, groups[..n], x);
      assert |groups| * x == n * x + x;
    }
  }

  lemma {:induction false} TotalAtLeast(b: Books, groups: seq<int>, x: int)
    requires forall g :: g in groups ==> GroupSize(b, g) >= x
    ensures Total(b, groups) >= |groups| * x
    ensures Total(b, groups) == |groups| * x ==> forall g :: g in groups ==> GroupSize(b, g) == x
  {
    if groups != [] {
      var n := |groups| - 1;
      assert groups == groups[..n] + [groups[n]];
      TotalAtLeast(b, groups[..n], x);
      assert |groups| * x == n * x + x;
    }
  }

  // ---------- The tree ordered by size ----------

  /** The comparator: by current size, then by group. */
  predicate Before(b: Books, x: int, y: int) {
    GroupSize(b, x) < GroupSize(b, y) || (GroupSize(b, x) == GroupSize(b, y) && x < y)
  }

  /** The keys are in the comparator's order under the current books, as every lookup needs. */
  ghost predicate Ordered(b: Books, tree: seq<int>) {
    forall i, j :: 0 <= i < j < |tree| ==> Before(b, tree[i], tree[j])
  }

  /** The sizes ascend, and among groups of one size the numbers do. */
  lemma OrderedMeaning(b: Books, tree: seq<int>)
    requires Ordered(b, tree)
    ensures forall i, j :: 0 <= i < j < |tree| ==>
              && GroupSize(b, tree[i]) <= GroupSize(b, tree[j])
              && (GroupSize(b, tree[i]) == GroupSize(b, tree[j]) ==> tree[i] < tree[j])
  {
  }

  function TreePut(b: Books, tree: seq<int>, g: int): (r: seq<int>)
    ensures forall x :: x in r <==> x in tree || x == g
    ensures |r| == |tree| + 1
  {
    if tree == [] then [g]
    else if Before(b, g, tree[0]) then [g] + tree
    else [tree[0]] + TreePut(b, tree[1..], g)
  }

  lemma {:induction false} TreePutOrdered(b: Books, tree: seq<int>, g: int)
    requires Ordered(b, tree) && g !in tree
    ensures Ordered(b, TreePut(b, tree, g))
  {
    if tree != [] && !Before(b, g, tree[0]) {
      TreePutOrdered(b, tree[1..], g);
      var r := TreePut(b, tree[1..], g);
      forall x | x in r ensures Before(b, tree[0], x) {
        if x != g {
          var j :| 0 <= j < |tree[1..]| && tree[1..][j] == x;
          assert tree[j + 1] == x;
        }
      }
    }
  }

  /** Keys whose sizes did not change stay in order. */
  lemma OrderedKept(b: Books, c: Books, tree: seq<int>)
    requires Ordered(b, tree) && forall g :: g in tree ==> GroupSize(c, g) == GroupSize(b, g)
    ensures Ordered(c, tree)
  {
  }

  // ---------- Who is where ----------

  /** Slots below `i` on their way to `g`. */
  ghost function Arriving(slots: seq<Slot>, g: int, i: nat): set<nat>
    requires i <= |slots|
  {
    set s: nat | s < i && slots[s].active && slots[s].target == g
  }

  /** Slots below `i` that sit in `g`. */
  ghost function Sitting(slots: seq<Slot>, g: int, i: nat): set<nat>
    requires i <= |slots|
  {
    set s: nat | s < i && !slots[s].active && slots[s].group == g
  }

  ghost function AllActive(slots: seq<Slot>, i: nat): set<nat>
    requires i <= |slots|
  {
    set s: nat | s < i && slots[s].active
  }

  ghost function AllSitting(slots: seq<Slot>, i: nat): set<nat>
    requires i <= |slots|
  {
    set s: nat | s < i && !slots[s].active && slots[s].group != 0
  }

  ghost function AllFree(slots: seq<Slot>, i: nat): set<nat>
    requires i <= |slots|
  {
    set s: nat | s < i && !slots[s].active && slots[s].group == 0
  }

  lemma ArrivingNext(slots: seq<Slot>, g: int, i: nat)
    requires i < |slots|
    ensures Arriving(slots, g, i + 1) ==
              Arriving(slots, g, i) + if slots[i].active && slots[i].target == g then {i} else {}
  {
  }

  lemma SittingNext(slots: seq<Slot>, g: int, i: nat)
    requires i < |slots|
    ensures Sitting(slots, g, i + 1) ==
              Sitting(slots, g, i) + if !slots[i].active && slots[i].group == g then {i} else {}
  {
  }

  lemma AllNext(slots: seq<Slot>, i: nat)
    requires i < |slots|
    ensures AllActive(slots, i + 1) == AllActive(slots, i) + if slots[i].active then {i} else {}
    ensures AllSitting(slots, i + 1) ==
              AllSitting(slots, i) + if !slots[i].active && slots[i].group != 0 then {i} else {}
    ensures AllFree(slots, i + 1) ==
              AllFree(slots, i) + if !slots[i].active && slots[i].group == 0 then {i} else {}
  {
  }

  /** Every slot is active, sitting in a group, or free. */
  lemma {:induction false} ThreeKinds(slots: seq<Slot>, i: nat)
    requires i <= |slots|
    ensures |AllActive(slots, i)| + |AllSitting(slots, i)| + |AllFree(slots, i)| == i
  {
    if i > 0 {
      ThreeKinds(slots, i - 1);
      AllNext(slots, i - 1);
    } else {
      assert AllActive(slots, 0) == {} && AllSitting(slots, 0) == {} && AllFree(slots, 0) == {};
    }
  }

  ghost predicate AllLive(slots: seq<Slot>, live: seq<int>) {
    forall s :: 0 <= s < |slots| ==>
      if slots[s].active then slots[s].target in live else slots[s].group == 0 || slots[s].group in live
  }

  // ---------- The books ----------

  function AddKept(b: Books, g: int): Books { b.(kept := b.kept[g := Kept(b, g) + 1]) }

  function AddPending(b: Books, g: int, x: nat): Books { b.(pendings := b.pendings[g := Pendings(b, g) + [x]]) }

  function AddMove(b: Books, g: int, d: int): Books { b.(moveout := b.moveout[g := Moveout(b, g) + d]) }

  ghost predicate Increasing(p: seq<nat>) {
    forall i, j :: 0 <= i < j < |p| ==> p[i] < p[j]
  }

  /**
   What the books say about group `g`, once the slots below `j` are entered and the slots
   in `docked` have been taken out: every slot that sits there or is on its way is
   counted exactly once, and the movable ones are known by name.
   */
  ghost predicate GroupOk(slots: seq<Slot>, b: Books, docked: set<nat>, g: int, j: nat)
    requires j <= |slots|
  {
    && Increasing(Pendings(b, g))
    && (forall x :: x in Pendings(b, g) ==> x in Sitting(slots, g, j) && x !in docked)
    && (Pendings(b, g) != [] ==> g != 0)
    && (g != 0 ==> Kept(b, g) + |Pendings(b, g)| + |docked * Sitting(slots, g, j)| ==
                   |Arriving(slots, g, |slots|)| + |Sitting(slots, g, j)|)
  }

  ghost function Rank(b: Books, docked: set<nat>, g: int, x: nat): nat {
    if x in docked then 2 else if x in Pendings(b, g) then 1 else 0
  }

  /** Slots leave a group from the top: leaving ones are above movable ones, those above the kept ones. */
  ghost predicate TopOk(slots: seq<Slot>, b: Books, docked: set<nat>, g: int, j: nat)
    requires j <= |slots|
  {
    forall x, y {:trigger Rank(b, docked, g, x), Rank(b, docked, g, y)} ::
      x in Sitting(slots, g, j) && y in Sitting(slots, g, j) && Rank(b, docked, g, y) < Rank(b, docked, g, x) ==> y < x
  }

  ghost predicate BooksOk(slots: seq<Slot>, b: Books, docked: set<nat>, j: nat)
    requires j <= |slots|
  {
    forall g {:trigger GroupOk(slots, b, docked, g, j)} ::
      GroupOk(slots, b, docked, g, j) && TopOk(slots, b, docked, g, j)
  }

  /** All groups together hold `k` slots, or fewer when some slot belongs to no live group. */
  ghost predicate Holds(slots: seq<Slot>, live: seq<int>, b: Books, k: int) {
    Total(b, live) <= k && (AllLive(slots, live) ==> Total(b, live) == k)
  }

  function Max(x: int, y: int): int { if x < y then y else x }

  /** Nobody keeps more than the lower bound, except that everybody keeps what is already on its way. */
  ghost predicate KeptBound(slots: seq<Slot>, b: Books, lower: int) {
    forall g {:trigger Kept(b, g)} ::
      |Arriving(slots, g, |slots|)| <= Kept(b, g) <= Max(lower, |Arriving(slots, g, |slots|)|)
  }

  lemma {:induction false} TotalEmpty(b: Books, groups: seq<int>)
    requires b == Books(map[], map[], map[])
    ensures Total(b, groups) == 0
  {
    if groups != [] {
      TotalEmpty(b, groups[..|groups| - 1]);
    }
  }

  // ---------- Opening the books ----------

  /** The books after the active slots below `i` have been entered. */
  ghost predicate Booking(slots: seq<Slot>, live: seq<int>, b: Books, i: nat)
    requires i <= |slots|
  {
    && b.pendings == map[] && b.moveout == map[]
    && (forall g {:trigger Kept(b, g)} :: Kept(b, g) == |Arriving(slots, g, i)|)
    && Holds(slots, live, b, |AllActive(slots, i)|)
  }

  lemma BookingStep(slots: seq<Slot>, live: seq<int>, b: Books, i: nat, c: Books)
    requires i < |slots| && Distinct(live) && Booking(slots, live, b, i)
    requires c == if slots[i].active then AddKept(b, slots[i].target) else b
    ensures Booking(slots, live, c, i + 1)
  {
    hide Total, Arriving, AllActive, AllSitting, AllFree, Holds;
    forall g ensures Kept(c, g) == |Arriving(slots, g, i + 1)| {
      assert Kept(b, g) == |Arriving(slots, g, i)|;
      ArrivingCount(slots, g, i);
    }
    BookingTotal(slots, live, b, i, c);
  }

  lemma ArrivingCount(slots: seq<Slot>, g: int, i: nat)
    requires i < |slots|
    ensures |Arriving(slots, g, i + 1)| ==
            |Arriving(slots, g, i)| + if slots[i].active && slots[i].target == g then 1 else 0
  {
    ArrivingNext(slots, g, i);
    NotYet(slots, g, i);
  }

  lemma ActiveCount(slots: seq<Slot>, i: nat)
    requires i < |slots|
    ensures |AllActive(slots, i + 1)| == |AllActive(slots, i)| + if slots[i].active then 1 else 0
  {
    AllNext(slots, i);
    NotYet(slots, 0, i);
  }

  lemma BookingTotal(slots: seq<Slot>, live: seq<int>, b: Books, i: nat, c: Books)
    requires i < |slots| && Distinct(live) && Holds(slots, live, b, |AllActive(slots, i)|)
    requires c == if slots[i].active then AddKept(b, slots[i].target) else b
    ensures Holds(slots, live, c, |AllActive(slots, i + 1)|)
  {
    hide Total, AllActive;
    ActiveCount(slots, i);
    if slots[i].active {
      assert Shifted(b, c, slots[i].target, 1);
      TotalShift(b, c, live, slots[i].target, 1);
    }
  }

  lemma NotYet(slots: seq<Slot>, g: int, i: nat)
    requires i <= |slots|
    ensures i !in Arriving(slots, g, i) && i !in Sitting(slots, g, i)
    ensures i !in AllActive(slots, i) && i !in AllSitting(slots, i) && i !in AllFree(slots, i)
  {
  }

  lemma Empty(slots: seq<Slot>, g: int)
    ensures Arriving(slots, g, 0) == {} && Sitting(slots, g, 0) == {}
    ensures AllActive(slots, 0) == {} && AllSitting(slots, 0) == {} && AllFree(slots, 0) == {}
  {
  }

  lemma BookingDone(slots: seq<Slot>, live: seq<int>, b: Books)
    requires Booking(slots, live, b, |slots|)
    ensures BooksOk(slots, b, {}, 0)
    ensures Holds(slots, live, b, |AllActive(slots, |slots|)| + |AllSitting(slots, 0)|)
  {
    hide Total, Holds;
    Empty(slots, 0);
    forall g ensures GroupOk(slots, b, {}, g, 0) && TopOk(slots, b, {}, g, 0) {
      Empty(slots, g);
      assert Kept(b, g) == |Arriving(slots, g, |slots|)|;
    }
  }

  /** Enters the slots already on their way. */
  method BookActive(slots: seq<Slot>, ghost live: seq<int>) returns (b: Books)
    requires Distinct(live)
    ensures b.moveout == map[] && b.pendings == map[] && BooksOk(slots, b, {}, 0)
    ensures Holds(slots, live, b, |AllActive(slots, |slots|)| + |AllSitting(slots, 0)|)
    ensures forall g :: Kept(b, g) == |Arriving(slots, g, |slots|)|
  {
    b := Books(map[], map[], map[]);
    assert Booking(slots, live, b, 0) by {
      TotalEmpty(b, live);
      forall g ensures Kept(b, g) == |Arriving(slots, g, 0)| { Empty(slots, g); }
      Empty(slots, 0);
    }
    for i := 0 to |slots|
      invariant Booking(slots, live, b, i)
    {
      hide Booking;
      ghost var c := b;
      if slots[i].active {
        b := AddKept(b, slots[i].target);
      }
      BookingStep(slots, live, c, i, b);
    }
    BookingDone(slots, live, b);
  }

  lemma SpreadGroup(slots: seq<Slot>, b: Books, j: nat, c: Books, h: int, g: int)
    requires j < |slots| && GroupOk(slots, b, {}, g, j)
    requires h == slots[j].group && !slots[j].active && h != 0
    requires c == AddKept(b, h) || c == AddPending(b, h, j)
    ensures GroupOk(slots, c, {}, g, j + 1)
  {
    hide Arriving, Sitting;
    SittingNext(slots, g, j);
    NotYet(slots, g, j);
    SittingBelow(slots, g, j);
    var none: set<nat> := {};
    assert none * Sitting(slots, g, j + 1) == none && none * Sitting(slots, g, j) == none;
    if g != h {
      assert Pendings(c, g) == Pendings(b, g) && Kept(c, g) == Kept(b, g);
    } else if c == AddPending(b, h, j) {
      var p := Pendings(b, h);
      assert Pendings(c, h) == p + [j];
      assert forall i :: 0 <= i < |p| ==> p[i] in p;
    } else {
      assert Pendings(c, h) == Pendings(b, h) && Kept(c, h) == Kept(b, h) + 1;
    }
  }

  /** A group starts a list of movable slots only once it is full. */
  ghost predicate FullFirst(b: Books, lower: int) {
    forall g {:trigger Pendings(b, g)} :: Pendings(b, g) != [] ==> Kept(b, g) + |Pendings(b, g)| >= lower
  }

  lemma SpreadTop(slots: seq<Slot>, b: Books, j: nat, c: Books, h: int, g: int)
    requires j < |slots| && TopOk(slots, b, {}, g, j)
    requires h == slots[j].group && !slots[j].active && h != 0
    requires if c == AddKept(b, h) then Pendings(b, h) == [] else c == AddPending(b, h, j)
    ensures TopOk(slots, c, {}, g, j + 1)
  {
    hide Sitting;
    SittingNext(slots, g, j);
    SittingBelow(slots, g, j);
    var none: set<nat> := {};
    forall x, y | x in Sitting(slots, g, j + 1) && y in Sitting(slots, g, j + 1)
                  && Rank(c, none, g, y) < Rank(c, none, g, x)
      ensures y < x
    {
      assert Rank(b, none, g, x) <= 1 && Rank(b, none, g, y) <= 1;
      if x != j && y != j {
        assert Rank(b, none, g, x) == Rank(c, none, g, x) && Rank(b, none, g, y) == Rank(c, none, g, y);
      }
    }
  }

  lemma SpreadStep(slots: seq<Slot>, b: Books, j: nat, c: Books, h: int, lower: int)
    requires j < |slots| && BooksOk(slots, b, {}, j) && KeptBound(slots, b, lower) && FullFirst(b, lower)
    requires h == slots[j].group && !slots[j].active && h != 0
    requires if Kept(b, h) + |Pendings(b, h)| < lower then c == AddKept(b, h) else c == AddPending(b, h, j)
    ensures BooksOk(slots, c, {}, j + 1) && KeptBound(slots, c, lower) && FullFirst(c, lower)
  {
    hide GroupOk, TopOk, Arriving, Sitting;
    var none: set<nat>, k := {}, j + 1;
    assert c == AddKept(b, h) ==> Pendings(b, h) == [];
    forall g ensures GroupOk(slots, c, none, g, k) && TopOk(slots, c, none, g, k) {
      assert GroupOk(slots, b, none, g, j);
      SpreadGroup(slots, b, j, c, h, g);
      SpreadTop(slots, b, j, c, h, g);
    }
    forall g ensures |Arriving(slots, g, |slots|)| <= Kept(c, g) <= Max(lower, |Arriving(slots, g, |slots|)|) {
      assert Kept(b, g) <= Max(lower, |Arriving(slots, g, |slots|)|);
    }
    forall g ensures Pendings(c, g) != [] ==> Kept(c, g) + |Pendings(c, g)| >= lower {
      assert Pendings(b, g) != [] ==> Kept(b, g) + |Pendings(b, g)| >= lower;
    }
  }

  lemma SittingBelow(slots: seq<Slot>, g: int, j: nat)
    requires j <= |slots|
    ensures forall x :: x in Sitting(slots, g, j) ==> x < j
  {
  }

  lemma SpreadSkip(slots: seq<Slot>, b: Books, j: nat)
    requires j < |slots| && BooksOk(slots, b, {}, j)
    requires slots[j].active || slots[j].group == 0
    ensures BooksOk(slots, b, {}, j + 1)
  {
    hide Arriving, Sitting;
    var none: set<nat>, k := {}, j + 1;
    forall g ensures GroupOk(slots, b, none, g, k) && TopOk(slots, b, none, g, k) {
      assert GroupOk(slots, b, none, g, j);
      SittingNext(slots, g, j);
      if g != 0 {
        assert Sitting(slots, g, k) == Sitting(slots, g, j);
      } else {
        assert forall x :: Rank(b, none, g, x) == 0;
      }
    }
  }

  /** Enters the slots sitting in groups: a group keeps its first ones up to the lower bound. */
  method BookSitting(slots: seq<Slot>, ghost live: seq<int>, start: Books, lower: int) returns (b: Books)
    requires Distinct(live) && start.moveout == map[] && start.pendings == map[]
    requires BooksOk(slots, start, {}, 0) && KeptBound(slots, start, lower)
    requires Holds(slots, live, start, |AllActive(slots, |slots|)| + |AllSitting(slots, 0)|)
    ensures b.moveout == map[] && BooksOk(slots, b, {}, |slots|) && KeptBound(slots, b, lower)
    ensures Holds(slots, live, b, |AllActive(slots, |slots|)| + |AllSitting(slots, |slots|)|)
  {
    hide BooksOk, KeptBound, Total, Arriving, AllSitting, AllActive;
    b := start;
    for j := 0 to |slots|
      invariant b.moveout == map[] && BooksOk(slots, b, {}, j) && KeptBound(slots, b, lower) && FullFirst(b, lower)
      invariant Holds(slots, live, b, |AllActive(slots, |slots|)| + |AllSitting(slots, j)|)
    {
      AllNext(slots, j);
      NotYet(slots, 0, j);
      ghost var c := b;
      var h := slots[j].group;
      if !slots[j].active && h != 0 {
        if GroupSize(b, h) < lower {
          b := AddKept(b, h);
        } else {
          b := AddPending(b, h, j);
        }
        SpreadStep(slots, c, j, b, h, lower);
        assert Shifted(c, b, h, 1);
        TotalShift(c, b, live, h, 1);
      } else {
        SpreadSkip(slots, b, j);
      }
    }
  }

  // ---------- Moves ----------

  function MovesOnly(b: Books): Books { Books(map[], map[], b.moveout) }

  ghost predicate MoveOk(b: Books, live: seq<int>, lower: int, upper: int, g: int) {
    && Moveout(b, g) <= |Pendings(b, g)|
    && (Moveout(b, g) < 0 ==> GroupSize(b, g) <= upper)
    && (Moveout(b, g) > 0 ==> GroupSize(b, g) >= lower)
    && (g in b.moveout ==> g in live)
  }

  /** Nobody gives more than it has; receivers stay within the upper bound, givers within the lower. */
  ghost predicate MovesOk(b: Books, live: seq<int>, lower: int, upper: int) {
    forall g {:trigger MoveOk(b, live, lower, upper, g)} :: MoveOk(b, live, lower, upper, g)
  }

  ghost predicate SameKeys(tree: seq<int>, live: seq<int>) {
    forall g :: g in tree <==> g in live
  }

  lemma AddMoveShifts(b: Books, g: int, d: int, c: Books)
    requires c == AddMove(b, g, d)
    ensures Shifted(b, c, g, -d) && Shifted(MovesOnly(b), MovesOnly(c), g, -d)
    ensures c.kept == b.kept && c.pendings == b.pendings
  {
  }

  lemma AddMoveOk(b: Books, live: seq<int>, lower: int, upper: int, g: int, d: int, c: Books)
    requires MovesOk(b, live, lower, upper) && c == AddMove(b, g, d) && g in live
    requires d == 1 || d == -1
    requires d == 1 ==> Moveout(b, g) < |Pendings(b, g)| && GroupSize(b, g) > lower
    requires d == -1 ==> GroupSize(b, g) < upper
    ensures MovesOk(c, live, lower, upper)
  {
    forall h ensures MoveOk(c, live, lower, upper, h) {
      assert MoveOk(b, live, lower, upper, h);
    }
  }

  lemma Replace(b: Books, tree: seq<int>, g: int, d: int, c: Books)
    requires Ordered(b, tree) && g !in tree && c == AddMove(b, g, d)
    ensures Ordered(c, tree) && Ordered(c, TreePut(c, tree, g))
  {
    hide Ordered;
    AddMoveShifts(b, g, d, c);
    OrderedKept(b, c, tree);
    TreePutOrdered(c, tree, g);
  }

  lemma OrderedTail(b: Books, tree: seq<int>)
    requires Ordered(b, tree) && tree != []
    ensures Ordered(b, tree[1..]) && tree[0] !in tree[1..]
    ensures forall x :: x in tree ==> GroupSize(b, tree[0]) <= GroupSize(b, x)
    ensures forall x :: x in tree <==> x == tree[0] || x in tree[1..]
  {
    assert tree == [tree[0]] + tree[1..];
  }

  lemma OrderedFront(b: Books, tree: seq<int>)
    requires Ordered(b, tree) && tree != []
    ensures var n := |tree| - 1; Ordered(b, tree[..n]) && tree[n] !in tree[..n]
    ensures var n := |tree| - 1; forall x :: x in tree ==> GroupSize(b, x) <= GroupSize(b, tree[n])
    ensures var n := |tree| - 1; forall x :: x in tree <==> x == tree[n] || x in tree[..n]
  {
    var n := |tree| - 1;
    assert tree == tree[..n] + [tree[n]];
  }

  /** The bounds: `n * lower <= total < n * (lower + 1)`, and the upper bound rounds up. */
  ghost predicate Bounds(total: nat, n: nat, lower: int, upper: int) {
    && n > 0
    && n * lower <= total < n * lower + n
    && upper == if n * lower == total then lower else lower + 1
  }

  lemma BoundsHold(total: nat, n: nat)
    requires n > 0
    ensures Bounds(total, n, total / n, (total + n - 1) / n)
  {
    var lower, r := total / n, total % n;
    assert total == n * lower + r;
    if r == 0 {
      DivUnique(n, lower, n - 1, total + n - 1);
    } else {
      assert n * (lower + 1) == n * lower + n;
      DivUnique(n, lower + 1, r - 1, total + n - 1);
    }
  }

  lemma MulMono(n: nat, a: int, b: int)
    requires a <= b
    ensures n * a <= n * b
  {
  }

  lemma MulNext(n: nat, a: int)
    ensures n * (a + 1) == n * a + n
  {
  }

  lemma DivUnique(n: nat, q: int, r: int, x: int)
    requires 0 <= r < n && x == n * q + r
    ensures x / n == q
  {
    var p, m := x / n, x % n;
    assert x == n * p + m;
    MulNext(n, p);
    MulNext(n, q);
    if p < q {
      MulMono(n, p + 1, q);
    } else if p > q {
      MulMono(n, q + 1, p);
    }
  }

  /** While slots remain to be placed, the smallest group is below the upper bound. */
  lemma SmallestBelowUpper(b: Books, live: seq<int>, g: int, total: nat, lower: int, upper: int)
    requires Bounds(total, |live|, lower, upper) && Total(b, live) < total
    requires forall x :: x in live ==> GroupSize(b, g) <= GroupSize(b, x)
    ensures GroupSize(b, g) < upper
  {
    var n, s := |live|, GroupSize(b, g);
    TotalAtLeast(b, live, s);
    MulNext(n, lower);
    if s >= upper {
      MulMono(n, upper, s);
    }
  }
}
