/**
 The plan of the slot balancer and what carrying it out achieves.
 */
module SlotsRebalance {

  import opened RebalanceBooks
  import opened RebalancePhases

  // ---------- Sorting the docked slots ----------

  function Insert(s: seq<nat>, x: nat): (r: seq<nat>)
    ensures |r| == |s| + 1 && forall y :: y in r <==> y in s || y == x
  {
    if s == [] || x <= s[0] then [x] + s else
      assert s == [s[0]] + s[1..];
      [s[0]] + Insert(s[1..], x)
  }

  function SortInts(s: seq<nat>): (r: seq<nat>)
    ensures |r| == |s| && forall y :: y in r <==> y in s
  {
    if s == [] then [] else
      assert s == [s[0]] + s[1..];
      Insert(SortInts(s[1..]), s[0])
  }

  lemma {:induction false} InsertIncreasing(s: seq<nat>, x: nat)
    requires Increasing(s) && x !in s
    ensures Increasing(Insert(s, x))
  {
    if s != [] && x > s[0] {
      InsertIncreasing(s[1..], x);
      var r := Insert(s[1..], x);
      forall k | 0 <= k < |r| ensures s[0] < r[k] {
        assert r[k] in r;
        if r[k] != x {
          var m :| 0 <= m < |s[1..]| && s[1..][m] == r[k];
          assert s[m + 1] == r[k];
        }
      }
    }
  }

  lemma {:induction false} SortIncreasing(s: seq<nat>)
    requires NoRepeats(s)
    ensures Increasing(SortInts(s))
  {
    if s != [] {
      SortIncreasing(s[1..]);
      forall k | 0 <= k < |s[1..]| ensures s[1..][k] != s[0] {
        assert s[1..][k] == s[k + 1];
      }
      InsertIncreasing(SortInts(s[1..]), s[0]);
    }
  }

  // ---------- Drawing up the plan ----------

  ghost predicate Ascending(live: seq<int>) {
    forall i, j :: 0 <= i < j < |live| ==> live[i] < live[j]
  }

  /** The slots a plan sends to `g`. */
  ghost function Into(plan: map<nat, int>, g: int): set<nat> { set s | s in plan && plan[s] == g }

  /** Lower slots go to lower groups. */
  ghost predicate InOrder(plan: map<nat, int>) {
    forall s, t :: s in plan && t in plan && s < t ==> plan[s] <= plan[t]
  }

  /** What group `live[j]` has been given when group `live[i]` has got `q` slots so far. */
  ghost predicate Share(b: Books, live: seq<int>, plan: map<nat, int>, i: nat, q: nat, j: nat) {
    j < |live| ==>
      |Into(plan, live[j])| == if j < i then -Moveout(b, live[j]) else if j == i then q else 0
  }

  ghost predicate Target(b: Books, live: seq<int>, plan: map<nat, int>, i: nat, s: nat) {
    s in plan ==> plan[s] in live && Moveout(b, plan[s]) < 0 && (i < |live| ==> plan[s] <= live[i])
  }

  /** The plan after `k` slots, `q` of them for group `live[i]`. */
  ghost predicate Assigning(b: Books, live: seq<int>, docking: seq<nat>, plan: map<nat, int>, i: nat, q: nat, k: nat)
    requires i <= |live| && k <= |docking|
  {
    && k == Total(MovesOnly(b), live[..i]) + q
    && plan.Keys == Elements(docking[..k])
    && (forall j {:trigger Share(b, live, plan, i, q, j)} :: Share(b, live, plan, i, q, j))
    && (forall s {:trigger Target(b, live, plan, i, s)} :: Target(b, live, plan, i, s))
    && InOrder(plan)
  }

  lemma AssignOne(b: Books, live: seq<int>, docking: seq<nat>, plan: map<nat, int>, i: nat, q: nat, k: nat)
    requires Ascending(live) && Increasing(docking) && i < |live| && k < |docking|
    requires Assigning(b, live, docking, plan, i, q, k) && Moveout(b, live[i]) < 0
    ensures Assigning(b, live, docking, plan[docking[k] := live[i]], i, q + 1, k + 1)
  {
    hide Total, InOrder;
    var x, g := docking[k], live[i];
    var next, p := plan[x := g], q + 1;
    TakeNext(docking, k);
    forall j: nat ensures Share(b, live, next, i, p, j) {
      assert Share(b, live, plan, i, q, j);
      if j < |live| {
        IntoNext(plan, x, g, live[j]);
      }
    }
    forall s: nat ensures Target(b, live, next, i, s) {
      assert Target(b, live, plan, i, s);
    }
    assert InOrder(next) by {
      OrderNext(b, live, plan, i, x);
    }
  }

  lemma TakeNext(docking: seq<nat>, k: nat)
    requires Increasing(docking) && k < |docking|
    ensures Elements(docking[..k + 1]) == Elements(docking[..k]) + {docking[k]}
    ensures forall x :: x in Elements(docking[..k]) ==> x < docking[k]
  {
    assert docking[..k + 1] == docking[..k] + [docking[k]];
  }

  lemma IntoNext(plan: map<nat, int>, x: nat, g: int, h: int)
    requires x !in plan
    ensures |Into(plan[x := g], h)| == |Into(plan, h)| + if h == g then 1 else 0
  {
    assert Into(plan[x := g], h) == Into(plan, h) + if h == g then {x} else {};
  }

  lemma OrderNext(b: Books, live: seq<int>, plan: map<nat, int>, i: nat, x: nat)
    requires i < |live| && InOrder(plan)
    requires forall s :: s in plan ==> s < x
    requires forall s {:trigger Target(b, live, plan, i, s)} :: Target(b, live, plan, i, s)
    ensures InOrder(plan[x := live[i]])
  {
    forall s | s in plan ensures plan[s] <= live[i] {
      assert Target(b, live, plan, i, s);
    }
  }

  lemma AssignNext(b: Books, live: seq<int>, docking: seq<nat>, plan: map<nat, int>, i: nat, k: nat)
    requires Ascending(live) && i < |live| && k <= |docking|
    requires Moveout(b, live[i]) <= 0 && Assigning(b, live, docking, plan, i, -Moveout(b, live[i]), k)
    ensures Assigning(b, live, docking, plan, i + 1, 0, k)
  {
    hide Total, InOrder, Into;
    var q: nat, l, zero: nat := -Moveout(b, live[i]), i + 1, 0;
    TotalNext(b, live, i);
    forall j: nat ensures Share(b, live, plan, l, zero, j) {
      assert Share(b, live, plan, i, q, j);
    }
    forall s: nat ensures Target(b, live, plan, l, s) {
      assert Target(b, live, plan, i, s);
    }
  }

  lemma TotalNext(b: Books, live: seq<int>, i: nat)
    requires i < |live|
    ensures Total(MovesOnly(b), live[..i + 1]) == Total(MovesOnly(b), live[..i]) - Moveout(b, live[i])
  {
    assert live[..i + 1][..i] == live[..i];
    assert live[..i + 1][i] == live[i];
  }

  lemma {:induction false} PrefixTotal(b: Books, live: seq<int>, i: nat)
    requires i <= |live| && forall g :: g in b.moveout ==> b.moveout[g] < 0
    ensures Total(MovesOnly(b), live[..i]) <= Total(MovesOnly(b), live)
    decreases |live|
  {
    hide Total;
    var n := |live| - 1;
    assert live[..|live|] == live;
    if i <= n {
      PrefixTotal(b, live[..n], i);
      assert live[..n][..i] == live[..i];
      TotalNext(b, live, n);
    }
  }

  /** Hands the docked slots, lowest first, to the receiving groups in their order. */
  method Assign(b: Books, live: seq<int>, docking: seq<nat>) returns (plan: map<nat, int>)
    requires Ascending(live) && Increasing(docking)
    requires forall g :: g in b.moveout ==> b.moveout[g] < 0
    requires Total(MovesOnly(b), live) == |docking|
    ensures plan.Keys == Elements(docking)
    ensures forall g :: g in live ==> |Into(plan, g)| == -Moveout(b, g)
    ensures forall s :: s in plan ==> plan[s] in live && Moveout(b, plan[s]) < 0
    ensures InOrder(plan)
  {
    hide Total, Assigning, Ascending, Increasing;
    plan := map[];
    var k: nat := 0;
    AssignNone(b, live, docking);
    for i := 0 to |live|
      invariant k <= |docking| && Assigning(b, live, docking, plan, i, 0, k)
    {
      var most := -Moveout(b, live[i]);
      var q: nat := 0;
      while q < most && k < |docking|
        invariant q <= most && k <= |docking| && Assigning(b, live, docking, plan, i, q, k)
      {
        AssignOne(b, live, docking, plan, i, q, k);
        plan := plan[docking[k] := live[i]];
        q, k := q + 1, k + 1;
      }
      assert q == most by {
        AssignEnough(b, live, docking, plan, i, q, k);
      }
      AssignNext(b, live, docking, plan, i, k);
    }
    AssignDone(b, live, docking, plan, k);
  }

  lemma AssignNone(b: Books, live: seq<int>, docking: seq<nat>)
    ensures Assigning(b, live, docking, map[], 0, 0, 0)
  {
    assert forall g :: Into(map[], g) == {};
  }

  /** The docked slots never run out before the receiving groups are served. */
  lemma AssignEnough(b: Books, live: seq<int>, docking: seq<nat>, plan: map<nat, int>, i: nat, q: nat, k: nat)
    requires i < |live| && k <= |docking| && Assigning(b, live, docking, plan, i, q, k)
    requires forall g :: g in b.moveout ==> b.moveout[g] < 0
    requires Total(MovesOnly(b), live) == |docking|
    requires q <= -Moveout(b, live[i]) && (q == -Moveout(b, live[i]) || k == |docking|)
    ensures q == -Moveout(b, live[i])
  {
    hide Total, InOrder, Share, Target;
    PrefixTotal(b, live, i + 1);
    TotalNext(b, live, i);
  }

  lemma AssignDone(b: Books, live: seq<int>, docking: seq<nat>, plan: map<nat, int>, k: nat)
    requires k <= |docking| && Assigning(b, live, docking, plan, |live|, 0, k)
    requires Total(MovesOnly(b), live) == |docking|
    ensures plan.Keys == Elements(docking)
    ensures forall g :: g in live ==> |Into(plan, g)| == -Moveout(b, g)
    ensures forall s :: s in plan ==> plan[s] in live && Moveout(b, plan[s]) < 0
    ensures InOrder(plan)
  {
    hide Total, InOrder;
    var n: nat, zero: nat := |live|, 0;
    assert live[..n] == live && docking[..|docking|] == docking;
    forall g | g in live ensures |Into(plan, g)| == -Moveout(b, g) {
      var j: nat :| j < n && live[j] == g;
      assert Share(b, live, plan, n, zero, j);
    }
    forall s | s in plan ensures plan[s] in live && Moveout(b, plan[s]) < 0 {
      assert Target(b, live, plan, n, s);
    }
  }

  // ---------- What carrying out the plan achieves ----------

  /** Where a slot ends up once the plan and the actions under way are finished. */
  ghost function Final(slots: seq<Slot>, plan: map<nat, int>, s: nat): int
    requires s < |slots|
  {
    if s in plan then plan[s] else if slots[s].active then slots[s].target else slots[s].group
  }

  ghost function FinalSize(slots: seq<Slot>, plan: map<nat, int>, g: int): nat {
    |set s: nat | s < |slots| && Final(slots, plan, s) == g|
  }

  /** The books are right: each live group ends with exactly the size the balancer computed. */
  lemma FinalSizeIs(slots: seq<Slot>, plan: map<nat, int>, b: Books, d: set<nat>, g: int)
    requires plan.Keys == d && forall x :: x in d ==> x < |slots| && !slots[x].active
    requires GroupOk(slots, b, d, g, |slots|) && g != 0 && |Into(plan, g)| == -Moveout(b, g)
    ensures FinalSize(slots, plan, g) == GroupSize(b, g)
  {
    hide Arriving, Sitting, Into;
    var here, way := Sitting(slots, g, |slots|), Arriving(slots, g, |slots|);
    FinalSets(slots, plan, d, g);
    ThreeParts(way, here - d, Into(plan, g));
    Minus(here, d);
  }

  lemma Minus(here: set<nat>, d: set<nat>)
    ensures |here - d| == |here| - |d * here|
  {
    assert here == (here - d) + d * here;
  }

  lemma ThreeParts(a: set<nat>, b: set<nat>, c: set<nat>)
    requires a !! b && (a + b) !! c
    ensures |a + b + c| == |a| + |b| + |c|
  {
  }

  lemma FinalSets(slots: seq<Slot>, plan: map<nat, int>, d: set<nat>, g: int)
    requires plan.Keys == d && forall x :: x in d ==> x < |slots| && !slots[x].active
    ensures var here, way := Sitting(slots, g, |slots|), Arriving(slots, g, |slots|);
            && (set s: nat | s < |slots| && Final(slots, plan, s) == g) == way + (here - d) + Into(plan, g)
            && way !! (here - d) && (way + (here - d)) !! Into(plan, g)
  {
  }

  /** Groups that already receive more than the lower bound. */
  ghost function Crowded(slots: seq<Slot>, live: seq<int>, lower: int): set<int> {
    set g | g in live && |Arriving(slots, g, |slots|)| > lower
  }

  /** Whether slots already on their way leave room for a level outcome. */
  ghost predicate Placeable(slots: seq<Slot>, live: seq<int>, lower: int, upper: int) {
    && (forall g :: g in live ==> |Arriving(slots, g, |slots|)| <= upper)
    && |Crowded(slots, live, lower)| <= |slots| - |live| * lower
  }

  ghost predicate LevelSizes(b: Books, live: seq<int>, lower: int, upper: int) {
    forall g :: g in live ==> lower <= GroupSize(b, g) <= upper
  }

  ghost function Over(b: Books, live: seq<int>, lower: int): set<int> {
    set g | g in live && GroupSize(b, g) > lower
  }

  /** The excess a group contributes: below zero when short, at most one when not above `lower + 1`. */
  lemma {:induction false} CountOver(b: Books, live: seq<int>, lower: int)
    requires Distinct(live) && forall g :: g in live ==> GroupSize(b, g) <= lower + 1
    ensures Total(b, live) <= |live| * lower + |Over(b, live, lower)|
    ensures Total(b, live) == |live| * lower + |Over(b, live, lower)| ==>
            forall g :: g in live ==> GroupSize(b, g) >= lower
  {
    hide Over, Distinct, GroupSize;
    if live != [] {
      var n := |live| - 1;
      var g := live[n];
      assert live == live[..n] + [g];
      assert g in live;
      DistinctPrefix(live, n);
      CountOver(b, live[..n], lower);
      OverNext(b, live, lower, n);
      MulSucc(n, lower);
    }
  }

  lemma {:induction false} CountLevel(b: Books, live: seq<int>, lower: int)
    requires Distinct(live) && forall g :: g in live ==> lower <= GroupSize(b, g) <= lower + 1
    ensures Total(b, live) == |live| * lower + |Over(b, live, lower)|
  {
    if live == [] {
      assert Over(b, live, lower) == {};
    } else {
      hide Over, Distinct, GroupSize;
      var n := |live| - 1;
      var g := live[n];
      assert live == live[..n] + [g];
      assert g in live;
      DistinctPrefix(live, n);
      CountLevel(b, live[..n], lower);
      OverNext(b, live, lower, n);
      MulSucc(n, lower);
    }
  }

  lemma MulSucc(n: nat, x: int)
    ensures (n + 1) * x == n * x + x
  {
  }

  lemma DistinctPrefix(live: seq<int>, n: nat)
    requires Distinct(live) && n <= |live|
    ensures Distinct(live[..n])
  {
  }

  lemma OverNext(b: Books, live: seq<int>, lower: int, n: nat)
    requires Distinct(live) && |live| == n + 1
    ensures |Over(b, live, lower)| == |Over(b, live[..n], lower)| + if GroupSize(b, live[n]) > lower then 1 else 0
  {
    hide GroupSize;
    var g := live[n];
    assert live == live[..n] + [g];
    assert g !in live[..n];
    assert Over(b, live, lower) == Over(b, live[..n], lower) + if GroupSize(b, g) > lower then {g} else {};
  }

  lemma SmallerSet(a: set<int>, c: set<int>)
    requires a <= c
    ensures |a| <= |c|
  {
    assert c == a + (c - a);
  }

  lemma LevelNeedsRoom(slots: seq<Slot>, live: seq<int>, b: Books, lower: int, upper: int)
    requires Distinct(live) && Bounds(|slots|, |live|, lower, upper)
    requires forall g {:trigger GroupSize(b, g)} :: |Arriving(slots, g, |slots|)| <= GroupSize(b, g)
    requires Total(b, live) == |slots| && LevelSizes(b, live, lower, upper)
    ensures Placeable(slots, live, lower, upper)
  {
    hide Total, Arriving;
    CountLevel(b, live, lower);
    forall g | g in live ensures |Arriving(slots, g, |slots|)| <= GroupSize(b, g) <= upper {
    }
    SmallerSet(Crowded(slots, live, lower), Over(b, live, lower));
  }

  lemma RoomMakesLevel(slots: seq<Slot>, live: seq<int>, b: Books, lower: int, upper: int)
    requires Distinct(live) && Bounds(|slots|, |live|, lower, upper)
    requires KeptBound(slots, b, lower) && Settled(b, live, lower, upper)
    requires Total(b, live) == |slots| && Placeable(slots, live, lower, upper)
    ensures LevelSizes(b, live, lower, upper)
  {
    hide Total, Arriving;
    forall g | g in live ensures Kept(b, g) <= upper && (Kept(b, g) > lower ==> g in Crowded(slots, live, lower)) {
    }
    if forall g :: g in live ==> GroupSize(b, g) <= lower || Stuck(b, g) {
      CountOver(b, live, lower);
      SmallerSet(Over(b, live, lower), Crowded(slots, live, lower));
    } else if forall g :: g in live ==> GroupSize(b, g) >= upper {
      TotalAtLeast(b, live, upper);
      MulNext(|live|, lower);
    }
  }

  /** With no action under way there is always room, so the plan always levels the groups. */
  lemma RestingHasRoom(slots: seq<Slot>, live: seq<int>, lower: int, upper: int)
    requires Bounds(|slots|, |live|, lower, upper) && lower >= 0
    requires forall s :: 0 <= s < |slots| ==> !slots[s].active
    ensures Placeable(slots, live, lower, upper)
  {
    forall g ensures Arriving(slots, g, |slots|) == {} {
    }
    assert Crowded(slots, live, lower) == {};
  }

  // ---------- The balancer ----------

  datatype Outcome = NoGroup | Plan(plan: map<nat, int>)

  ghost predicate LevelFinal(slots: seq<Slot>, live: seq<int>, plan: map<nat, int>, lower: int, upper: int) {
    forall g :: g in live ==> lower <= FinalSize(slots, plan, g) <= upper
  }

  /** A planned slot is at rest, changes group, and neither end of the move overshoots its bound. */
  ghost predicate PlannedOk(slots: seq<Slot>, live: seq<int>, plan: map<nat, int>, lower: int, upper: int, s: nat) {
    s in plan ==>
      && s < |slots| && !slots[s].active
      && plan[s] in live && plan[s] != slots[s].group
      && FinalSize(slots, plan, plan[s]) <= upper
      && (slots[s].group != 0 ==> slots[s].group in live && Into(plan, slots[s].group) == {}
                                  && FinalSize(slots, plan, slots[s].group) >= lower)
  }

  /** Slots leave a group from the top. */
  ghost predicate FromTop(slots: seq<Slot>, plan: map<nat, int>) {
    forall s, t ::
      0 <= s < |slots| && 0 <= t < |slots| && s in plan && t !in plan &&
      !slots[t].active && slots[t].group == slots[s].group ==>
        t < s
  }

  ghost predicate PlanOk(slots: seq<Slot>, live: seq<int>, plan: map<nat, int>, lower: int, upper: int) {
    && (forall s {:trigger PlannedOk(slots, live, plan, lower, upper, s)} ::
          PlannedOk(slots, live, plan, lower, upper, s))
    && (forall s :: 0 <= s < |slots| && !slots[s].active && slots[s].group == 0 ==> s in plan)
    && InOrder(plan) && FromTop(slots, plan)
    && (AllLive(slots, live) ==>
          (LevelFinal(slots, live, plan, lower, upper) <==> Placeable(slots, live, lower, upper)))
  }

  /** The size of a group counting the slots on their way to it. */
  ghost function Expected(slots: seq<Slot>, g: int): nat {
    |Arriving(slots, g, |slots|)| + |Sitting(slots, g, |slots|)|
  }

  ghost predicate AlreadyLevel(slots: seq<Slot>, live: seq<int>) {
    && NoneFree(slots, |slots|)
    && forall g, h :: g in live && h in live ==> Expected(slots, g) - Expected(slots, h) <= 1
  }

  lemma StartNear(slots: seq<Slot>, live: seq<int>, b: Books)
    requires AlreadyLevel(slots, live) && 0 !in live
    requires b.moveout == map[] && BooksOk(slots, b, {}, |slots|)
    ensures Near(b, live)
  {
    hide Arriving, Sitting, TopOk;
    var none: set<nat> := {};
    forall g | g in live ensures GroupSize(b, g) == Expected(slots, g) {
      assert GroupOk(slots, b, none, g, |slots|);
      assert none * Sitting(slots, g, |slots|) == {};
    }
  }

  lemma AscendingDistinct(live: seq<int>)
    requires Ascending(live)
    ensures Distinct(live)
  {
  }

  lemma BoundsOrder(total: nat, n: nat, lower: int, upper: int)
    requires Bounds(total, n, lower, upper)
    ensures lower <= upper <= lower + 1
  {
  }

  lemma KeptStart(slots: seq<Slot>, b: Books, lower: int)
    requires forall g :: Kept(b, g) == |Arriving(slots, g, |slots|)|
    ensures KeptBound(slots, b, lower)
  {
  }

  lemma MovingMoves(b: Books, c: Books, live: seq<int>, lower: int, upper: int)
    requires Moving(b, c, live, lower, upper)
    ensures MovesOk(c, live, lower, upper)
  {
  }

  /** The books after levelling are ready for picking the leaving slots. */
  lemma Ready(slots: seq<Slot>, live: seq<int>, b1: Books, b2: Books, b3: Books,
              lower: int, upper: int, docked: seq<nat>)
    requires BooksOk(slots, b1, {}, |slots|)
    requires Moving(b1, b2, live, lower, upper) && Docking(slots, live, b2, docked, |slots|)
    requires Moving(b2, b3, live, lower, upper)
    requires Total(MovesOnly(b3), live) == Total(MovesOnly(b2), live) && Total(b3, live) == Total(b2, live)
    ensures Picking(slots, live, b3, lower, upper, docked)
    ensures b3.kept == b1.kept && Holds(slots, live, b3, |slots|)
  {
    hide BooksOk, MovesOk, Total, AllActive, AllSitting, AllFree;
    ThreeKinds(slots, |slots|);
    BooksMoved(slots, b1, b3, {});
    assert Elements(docked) == AllFree(slots, |slots|);
    PickStart(slots, live, b3, lower, upper, docked);
  }

  lemma PickingFacts(slots: seq<Slot>, live: seq<int>, b: Books, lower: int, upper: int, docking: seq<nat>)
    requires Picking(slots, live, b, lower, upper, docking)
    ensures NoRepeats(docking) && Total(MovesOnly(b), live) == |docking|
  {
  }

  lemma Sorted(leaving: seq<nat>)
    requires NoRepeats(leaving)
    ensures Increasing(SortInts(leaving)) && |SortInts(leaving)| == |leaving|
    ensures Elements(SortInts(leaving)) == Elements(leaving)
  {
    hide SortInts;
    SortIncreasing(leaving);
  }

  lemma Conclude(slots: seq<Slot>, live: seq<int>, b1: Books, b3: Books, b: Books, lower: int, upper: int,
                 leaving: seq<nat>, plan: map<nat, int>)
    requires Distinct(live) && 0 !in live && Bounds(|slots|, |live|, lower, upper)
    requires KeptBound(slots, b1, lower) && b3.kept == b1.kept
    requires Holds(slots, live, b3, |slots|) && Settled(b3, live, lower, upper)
    requires MovesOk(b3, live, lower, upper)
    requires Picking(slots, live, b, lower, upper, leaving) && SameSizes(b3, b)
    requires plan.Keys == Elements(leaving) && InOrder(plan)
    requires forall g :: g in live ==> |Into(plan, g)| == -Moveout(b, g)
    requires forall s :: s in plan ==> plan[s] in live && Moveout(b, plan[s]) < 0
    ensures PlanOk(slots, live, plan, lower, upper)
  {
    hide *;
    forall g | g in live ensures FinalSize(slots, plan, g) == GroupSize(b, g) == GroupSize(b3, g) {
      SizesAgree(slots, live, b3, b, lower, upper, leaving, plan, g);
    }
    PlannedAll(slots, live, b, lower, upper, leaving, plan);
    PlannedTop(slots, live, b, lower, upper, leaving, plan);
    if AllLive(slots, live) {
      LevelIff(slots, live, b1, b3, lower, upper, plan);
    }
    PlanParts(slots, live, plan, lower, upper);
  }

  lemma PlanParts(slots: seq<Slot>, live: seq<int>, plan: map<nat, int>, lower: int, upper: int)
    requires forall s {:trigger PlannedOk(slots, live, plan, lower, upper, s)} ::
               PlannedOk(slots, live, plan, lower, upper, s)
    requires forall s :: 0 <= s < |slots| && !slots[s].active && slots[s].group == 0 ==> s in plan
    requires InOrder(plan) && FromTop(slots, plan)
    requires AllLive(slots, live) ==>
               (LevelFinal(slots, live, plan, lower, upper) <==> Placeable(slots, live, lower, upper))
    ensures PlanOk(slots, live, plan, lower, upper)
  {
    hide PlannedOk, InOrder, FromTop, AllLive, LevelFinal, Placeable;
  }

  lemma SizesAgree(slots: seq<Slot>, live: seq<int>, b3: Books, b: Books, lower: int, upper: int,
                   leaving: seq<nat>, plan: map<nat, int>, g: int)
    requires Picking(slots, live, b, lower, upper, leaving) && SameSizes(b3, b)
    requires plan.Keys == Elements(leaving) && g != 0 && |Into(plan, g)| == -Moveout(b, g)
    ensures FinalSize(slots, plan, g) == GroupSize(b, g) == GroupSize(b3, g)
  {
    hide GroupOk, TopOk, MovesOk, Total, AllFree, Elements, Into, FinalSize, GroupSize;
    var d := Elements(leaving);
    assert GroupOk(slots, b, d, g, |slots|);
    forall x | x in d ensures x < |slots| && !slots[x].active {
      assert Docked(slots, d, x);
    }
    FinalSizeIs(slots, plan, b, d, g);
  }

  lemma PlannedAll(slots: seq<Slot>, live: seq<int>, b: Books, lower: int, upper: int,
                   leaving: seq<nat>, plan: map<nat, int>)
    requires 0 !in live && Picking(slots, live, b, lower, upper, leaving) && plan.Keys == Elements(leaving)
    requires forall g :: g in live ==> FinalSize(slots, plan, g) == GroupSize(b, g)
    requires forall g :: g in live ==> |Into(plan, g)| == -Moveout(b, g)
    requires forall s :: s in plan ==> plan[s] in live && Moveout(b, plan[s]) < 0
    ensures forall s {:trigger PlannedOk(slots, live, plan, lower, upper, s)} ::
              PlannedOk(slots, live, plan, lower, upper, s)
    ensures forall s :: 0 <= s < |slots| && !slots[s].active && slots[s].group == 0 ==> s in plan
  {
    hide BooksOk, Total, Elements, FinalSize, NoRepeats, Into;
    var d := Elements(leaving);
    forall s: nat ensures PlannedOk(slots, live, plan, lower, upper, s) {
      if s in plan {
        assert Docked(slots, d, s) && GiverOk(slots, b, live, lower, d, s);
        assert MoveOk(b, live, lower, upper, plan[s]);
      }
    }
  }

  lemma PlannedTop(slots: seq<Slot>, live: seq<int>, b: Books, lower: int, upper: int,
                   leaving: seq<nat>, plan: map<nat, int>)
    requires Picking(slots, live, b, lower, upper, leaving) && plan.Keys == Elements(leaving)
    ensures FromTop(slots, plan)
  {
    hide Total, Elements, NoRepeats, GroupOk, MovesOk, Arriving, AllFree;
    var d := Elements(leaving);
    forall s: nat, t: nat | s < |slots| && t < |slots| && s in plan && t !in plan
                            && !slots[t].active && slots[t].group == slots[s].group
      ensures t < s
    {
      var g := slots[s].group;
      assert GroupOk(slots, b, d, g, |slots|);
      assert Docked(slots, d, s);
      assert Rank(b, d, g, t) < Rank(b, d, g, s);
    }
  }

  lemma LevelIff(slots: seq<Slot>, live: seq<int>, b1: Books, b: Books, lower: int, upper: int, plan: map<nat, int>)
    requires Distinct(live) && Bounds(|slots|, |live|, lower, upper) && AllLive(slots, live)
    requires KeptBound(slots, b1, lower) && b.kept == b1.kept && MovesOk(b, live, lower, upper)
    requires Holds(slots, live, b, |slots|) && Settled(b, live, lower, upper)
    requires forall g :: g in live ==> FinalSize(slots, plan, g) == GroupSize(b, g)
    ensures LevelFinal(slots, live, plan, lower, upper) <==> Placeable(slots, live, lower, upper)
  {
    hide AllLive, Settled, Placeable, Total, FinalSize, Arriving, Distinct, Bounds;
    assert KeptBound(slots, b, lower) by {
      forall g ensures Kept(b, g) == Kept(b1, g) {
      }
    }
    assert LevelFinal(slots, live, plan, lower, upper) <==> LevelSizes(b, live, lower, upper);
    if LevelSizes(b, live, lower, upper) {
      forall g ensures |Arriving(slots, g, |slots|)| <= GroupSize(b, g) {
        assert MoveOk(b, live, lower, upper, g);
        assert |Arriving(slots, g, |slots|)| <= Kept(b, g);
      }
      LevelNeedsRoom(slots, live, b, lower, upper);
    } else if Placeable(slots, live, lower, upper) {
      RoomMakesLevel(slots, live, b, lower, upper);
    }
  }

  lemma LevelNone(slots: seq<Slot>, live: seq<int>, b1: Books, b2: Books, b3: Books, lower: int, upper: int,
                  docked: seq<nat>, leaving: seq<nat>, plan: map<nat, int>)
    requires AlreadyLevel(slots, live) && 0 !in live
    requires b1.moveout == map[] && BooksOk(slots, b1, {}, |slots|)
    requires NoneFree(slots, |slots|) ==> b2 == b1 && docked == []
    requires Near(b2, live) ==> b3 == b2
    requires b3.moveout == map[] ==> leaving == docked
    requires plan.Keys == Elements(leaving)
    ensures plan == map[]
  {
    hide BooksOk, Near;
    StartNear(slots, live, b1);
    assert plan.Keys == {};
  }

  /** Plans moves that leave the live groups level, whenever the actions under way allow it at all. */
  method Rebalance(slots: seq<Slot>, live: seq<int>) returns (r: Outcome)
    requires Ascending(live) && 0 !in live
    ensures r.NoGroup? <==> live == []
    ensures r.Plan? ==> PlanOk(slots, live, r.plan, |slots| / |live|, (|slots| + |live| - 1) / |live|)
    ensures r.Plan? && AlreadyLevel(slots, live) ==> r.plan == map[]
  {
    hide *;
    if live == [] {
      return NoGroup;
    }
    var n := |live|;
    var lower, upper := |slots| / n, (|slots| + n - 1) / n;
    AscendingDistinct(live);
    BoundsHold(|slots|, n);
    BoundsOrder(|slots|, n, lower, upper);
    var b0 := BookActive(slots, live);
    KeptStart(slots, b0, lower);
    var b1 := BookSitting(slots, live, b0, lower);
    var b2, tree, docked := DockFree(slots, live, b1, lower, upper);
    MovingMoves(b1, b2, live, lower, upper);
    var b3 := Level(live, b2, tree, lower, upper);
    MovingMoves(b2, b3, live, lower, upper);
    Ready(slots, live, b1, b2, b3, lower, upper, docked);
    var b4, leaving := PickLeaving(slots, live, b3, lower, upper, docked);
    PickingFacts(slots, live, b4, lower, upper, leaving);
    var docking := SortInts(leaving);
    Sorted(leaving);
    var plan := Assign(b4, live, docking);
    Conclude(slots, live, b1, b3, b4, lower, upper, leaving, plan);
    assert AlreadyLevel(slots, live) ==> plan == map[] by {
      if AlreadyLevel(slots, live) {
        LevelNone(slots, live, b1, b2, b3, lower, upper, docked, leaving, plan);
      }
    }
    r := Plan(plan);
  }

  // ---------- No room ----------

  /** A plan, by whatever rule, for slots at rest. */
  ghost predicate OverResting(slots: seq<Slot>, plan: map<nat, int>) {
    forall s :: s in plan ==> s < |slots| && !slots[s].active
  }

  lemma PlanResting(slots: seq<Slot>, live: seq<int>, plan: map<nat, int>, lower: int, upper: int)
    requires PlanOk(slots, live, plan, lower, upper)
    ensures OverResting(slots, plan)
  {
    hide FinalSize, Into, InOrder, FromTop, LevelFinal, Placeable;
    forall s | s in plan ensures s < |slots| && !slots[s].active {
      assert PlannedOk(slots, live, plan, lower, upper, s);
    }
  }

  /** No plan for slots at rest turns away a slot under way, so a group with too many of them does not become level. */
  lemma TooManyArriving(slots: seq<Slot>, live: seq<int>, plan: map<nat, int>, lower: int, upper: int, g: int)
    requires OverResting(slots, plan) && g in live
    ensures FinalSize(slots, plan, g) >= |Arriving(slots, g, |slots|)|
    ensures |Arriving(slots, g, |slots|)| > upper ==> !LevelFinal(slots, live, plan, lower, upper)
  {
    var way, all := Arriving(slots, g, |slots|), set s: nat | s < |slots| && Final(slots, plan, s) == g;
    assert way <= all;
    Minus(all, way);
    assert way * all == way;
  }

  /** Three slots under way to group 1, and one at rest in it. */
  const THREE_TO_ONE: seq<Slot> := [Slot(2, true, 1), Slot(2, true, 1), Slot(1, false, 0), Slot(2, true, 1)]

  /** Of four slots group 1 is bound to end with three, so there is no room, and no plan leaves the two groups level. */
  lemma NoRoomForThree()
    ensures !Placeable(THREE_TO_ONE, [1, 2], 2, 2) && AllLive(THREE_TO_ONE, [1, 2])
    ensures forall plan :: OverResting(THREE_TO_ONE, plan) ==> !LevelFinal(THREE_TO_ONE, [1, 2], plan, 2, 2)
  {
    var slots := THREE_TO_ONE;
    assert Arriving(slots, 1, |slots|) == {0, 1, 3};
    assert 1 in [1, 2];
    forall plan | OverResting(slots, plan) ensures !LevelFinal(slots, [1, 2], plan, 2, 2) {
      TooManyArriving(slots, [1, 2], plan, 2, 2, 1);
    }
  }

  /** The balancer cannot always level the groups: here it answers with a plan that leaves them at three and one. */
  method CannotLevel() returns (r: Outcome)
    ensures r.Plan? && !LevelFinal(THREE_TO_ONE, [1, 2], r.plan, 2, 2)
  {
    hide PlanOk, LevelFinal, Placeable, OverResting;
    r := Rebalance(THREE_TO_ONE, [1, 2]);
    NoRoomForThree();
    PlanResting(THREE_TO_ONE, [1, 2], r.plan, 2, 2);
  }
}
