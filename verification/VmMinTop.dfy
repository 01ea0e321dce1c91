/** Selecting the least used slots with a bounded max-heap. */
module VmMinTop {
  import opened VmTable

  datatype Item = Item(slot: nat, value: nat)

  // ---------- The heap ----------

  function Parent(j: int): int { (j - 1) / 2 }

  ghost predicate EdgeOk(s: seq<Item>, j: int) {
    1 <= j < |s| ==> s[Parent(j)].value >= s[j].value
  }

  /** Every parent from position `i` on is at least as large as its children. */
  ghost predicate HeapFrom(s: seq<Item>, i: int) {
    forall j {:trigger EdgeOk(s, j)} :: Parent(j) >= i ==> EdgeOk(s, j)
  }

  /** A heap from `i0` on except that position `i` may be smaller than its children. */
  ghost predicate Sifting(s: seq<Item>, i0: nat, i: nat) {
    && i0 <= i
    && (forall j {:trigger EdgeOk(s, j)} :: Parent(j) >= i0 && Parent(j) != i ==> EdgeOk(s, j))
    && (i0 < i < |s| ==>
          && Parent(i) >= i0
          && (forall j {:trigger s[j]} :: 1 <= j < |s| && Parent(j) == i ==> s[Parent(i)].value >= s[j].value))
  }

  /** The root of a heap is its maximum. */
  lemma {:induction false} RootIsMax(s: seq<Item>, k: nat)
    requires HeapFrom(s, 0) && k < |s|
    ensures s[0].value >= s[k].value
  {
    if k > 0 {
      assert EdgeOk(s, k);
      RootIsMax(s, Parent(k));
    }
  }

  /** Exchanging a position with its larger child moves the only possible defect down to that child. */
  lemma SiftStep(s: seq<Item>, t: seq<Item>, i0: nat, i: nat, j: nat)
    requires Sifting(s, i0, i) && 1 <= j < |s| && Parent(j) == i && s[j].value > s[i].value
    requires forall c :: 1 <= c < |s| && Parent(c) == i ==> s[c].value <= s[j].value
    requires t == s[i := s[j]][j := s[i]]
    ensures Sifting(t, i0, j)
  {
    forall c | Parent(c) >= i0 && Parent(c) != j
      ensures EdgeOk(t, c)
    {
      if 1 <= c < |s| {
        if Parent(c) == i {
          assert s[c].value <= s[j].value;
        } else {
          assert EdgeOk(s, c);
        }
      }
    }
    forall c | 1 <= c < |t| && Parent(c) == j
      ensures t[Parent(j)].value >= t[c].value
    {
      assert EdgeOk(s, c);
    }
  }

  /** When no child is larger the defect is gone. */
  lemma SiftDone(s: seq<Item>, i0: nat, i: nat)
    requires Sifting(s, i0, i)
    requires forall c :: 1 <= c < |s| && Parent(c) == i ==> s[i].value >= s[c].value
    ensures HeapFrom(s, i0)
  {
    forall j | Parent(j) >= i0
      ensures EdgeOk(s, j)
    {
      if Parent(j) == i && 1 <= j < |s| {
        assert s[i].value >= s[j].value;
      }
    }
  }

  lemma LargerChild(s: seq<Item>, i: nat, j: nat)
    requires 2 * i + 1 < |s| && (j == 2 * i + 1 || j == 2 * i + 2) && j < |s|
    requires s[j].value >= s[2 * i + 1].value && (2 * i + 2 < |s| ==> s[j].value >= s[2 * i + 2].value)
    ensures Parent(j) == i
    ensures forall c {:trigger s[c]} :: 1 <= c < |s| && Parent(c) == i ==> s[c].value <= s[j].value
  {
    forall c | 1 <= c < |s| && Parent(c) == i
      ensures s[c].value <= s[j].value
    {
      assert c == 2 * i + 1 || c == 2 * i + 2;
    }
  }

  method Swap(a: array<Item>, n: nat, i: nat, j: nat)
    requires i < n <= a.Length && j < n
    modifies a
    ensures a[..n] == old(a[..n])[i := old(a[j])][j := old(a[i])]
    ensures multiset(a[..n]) == multiset(old(a[..n]))
  {
    a[i], a[j] := a[j], a[i];
  }

  lemma SiftStart(s: seq<Item>, i0: nat)
    requires HeapFrom(s, i0 + 1)
    ensures Sifting(s, i0, i0)
  {
  }

  /** Sifts position `i0` down until no child is larger. */
  method Down(a: array<Item>, i0: nat, n: nat)
    requires n <= a.Length && HeapFrom(a[..n], i0 + 1)
    modifies a
    ensures HeapFrom(a[..n], i0)
    ensures multiset(a[..n]) == multiset(old(a[..n]))
  {
    hide Sifting, HeapFrom;
    var i := i0;
    SiftStart(a[..n], i0);
    while true
      invariant i0 <= i && Sifting(a[..n], i0, i)
      invariant multiset(a[..n]) == multiset(old(a[..n]))
      decreases n - i
    {
      var j1 := 2 * i + 1;
      if j1 >= n {
        SiftDone(a[..n], i0, i);
        break;
      }
      var j := j1;
      if j1 + 1 < n && a[j1 + 1].value > a[j1].value {
        j := j1 + 1;
      }
      ghost var s := a[..n];
      LargerChild(s, i, j);
      if a[j].value <= a[i].value {
        SiftDone(s, i0, i);
        break;
      }
      Swap(a, n, i, j);
      SiftStep(s, a[..n], i0, i, j);
      i := j;
    }
  }

  /** Heapifies the first `n` items bottom up. */
  method Heapify(a: array<Item>, n: nat)
    requires n <= a.Length
    modifies a
    ensures HeapFrom(a[..n], 0)
    ensures multiset(a[..n]) == multiset(old(a[..n]))
  {
    var i := n / 2 - 1;
    while i >= 0
      invariant -1 <= i <= n / 2 - 1
      invariant HeapFrom(a[..n], i + 1)
      invariant multiset(a[..n]) == multiset(old(a[..n]))
    {
      Down(a, i, n);
      i := i - 1;
    }
  }

  // ---------- The selection ----------

  predicate LiveMark(c: int) { c != EMPTY && c != TOMB }

  ghost predicate Candidate(x: Item, ctrl: seq<int>, values: seq<nat>, pos: nat) {
    x.slot < pos && x.slot < |ctrl| && x.slot < |values| && LiveMark(ctrl[x.slot]) && x.value == values[x.slot]
  }

  /** Slot `q` is selected, or the selection is full of slots used no more than it. */
  ghost predicate Accounted(m: multiset<Item>, values: seq<nat>, cap: nat, q: nat)
    requires q < |values|
  {
    Item(q, values[q]) in m || (|m| == cap && forall x :: x in m ==> x.value <= values[q])
  }

  /** `m` holds the least used live slots among the first `pos`, at most `cap` of them, each once. */
  ghost predicate Selection(m: multiset<Item>, ctrl: seq<int>, values: seq<nat>, pos: nat, cap: nat)
    requires pos <= |ctrl| == |values|
  {
    && |m| <= cap
    && (forall x :: x in m ==> m[x] == 1 && Candidate(x, ctrl, values, pos))
    && (forall q {:trigger Accounted(m, values, cap, q)} ::
          0 <= q < pos && LiveMark(ctrl[q]) ==> Accounted(m, values, cap, q))
  }

  lemma SelectSkip(m: multiset<Item>, ctrl: seq<int>, values: seq<nat>, pos: nat, cap: nat)
    requires pos < |ctrl| == |values| && Selection(m, ctrl, values, pos, cap)
    requires !LiveMark(ctrl[pos]) || Accounted(m, values, cap, pos)
    ensures Selection(m, ctrl, values, pos + 1, cap)
  {
  }

  lemma SelectAdd(m: multiset<Item>, ctrl: seq<int>, values: seq<nat>, pos: nat, cap: nat)
    requires pos < |ctrl| == |values| && Selection(m, ctrl, values, pos, cap)
    requires LiveMark(ctrl[pos]) && |m| < cap
    ensures Selection(m + multiset{Item(pos, values[pos])}, ctrl, values, pos + 1, cap)
  {
    var m' := m + multiset{Item(pos, values[pos])};
    assert Item(pos, values[pos]) !in m;
    forall q | 0 <= q < pos + 1 && LiveMark(ctrl[q])
      ensures Accounted(m', values, cap, q)
    {
      if q < pos {
        assert Accounted(m, values, cap, q);
      }
    }
  }

  lemma SelectReplace(m: multiset<Item>, root: Item, ctrl: seq<int>, values: seq<nat>, pos: nat, cap: nat)
    requires pos < |ctrl| == |values| && Selection(m, ctrl, values, pos, cap)
    requires LiveMark(ctrl[pos]) && |m| == cap && root in m && values[pos] < root.value
    requires forall x :: x in m ==> x.value <= root.value
    ensures Selection(m - multiset{root} + multiset{Item(pos, values[pos])}, ctrl, values, pos + 1, cap)
  {
    var x := Item(pos, values[pos]);
    var m' := m - multiset{root} + multiset{x};
    assert x !in m;
    assert forall y :: y in m' ==> y == x || y in m;
    forall q | 0 <= q < pos + 1 && LiveMark(ctrl[q])
      ensures Accounted(m', values, cap, q)
    {
      if q < pos {
        assert Accounted(m, values, cap, q);
        if Item(q, values[q]) == root {
          assert forall y :: y in m' ==> y.value <= values[q];
        }
      }
    }
  }

  /** The root of a heap bounds every member. */
  lemma RootBounds(s: seq<Item>)
    requires HeapFrom(s, 0) && |s| > 0
    ensures forall x :: x in multiset(s) ==> x.value <= s[0].value
  {
    forall x | x in multiset(s)
      ensures x.value <= s[0].value
    {
      var k :| 0 <= k < |s| && s[k] == x;
      RootIsMax(s, k);
    }
  }

  /** Offers a slot to a full heap: it takes the root's place when it is used less. */
  method Push(a: array<Item>, ctrl: seq<int>, values: seq<nat>, pos: nat)
    requires a.Length > 0 && pos < |ctrl| == |values| && LiveMark(ctrl[pos])
    requires HeapFrom(a[..], 0) && Selection(multiset(a[..]), ctrl, values, pos, a.Length)
    modifies a
    ensures HeapFrom(a[..], 0) && Selection(multiset(a[..]), ctrl, values, pos + 1, a.Length)
  {
    hide Selection, HeapFrom, Accounted, LiveMark;
    ghost var s := a[..];
    RootBounds(s);
    if a[0].value == 0 || values[pos] >= a[0].value {
      Outweighed(s, values, pos);
      SelectSkip(multiset(s), ctrl, values, pos, a.Length);
      return;
    }
    SelectReplace(multiset(s), s[0], ctrl, values, pos, a.Length);
    ReplaceRoot(a, Item(pos, values[pos]));
  }

  /** Puts an item in the root's place and restores the order. */
  method ReplaceRoot(a: array<Item>, x: Item)
    requires a.Length > 0 && HeapFrom(a[..], 0)
    modifies a
    ensures HeapFrom(a[..], 0) && multiset(a[..]) == multiset(old(a[..])) - multiset{old(a[0])} + multiset{x}
  {
    hide *;
    ghost var s := a[..];
    a[0] := x;
    ghost var t := a[..a.Length];
    assert t == s[0 := x];
    assert HeapFrom(t, 1) by { ReplacedRoot(s, t); }
    Down(a, 0, a.Length);
    assert a[..] == a[..a.Length];
    RootItems(s, x);
  }

  lemma Outweighed(s: seq<Item>, values: seq<nat>, pos: nat)
    requires |s| > 0 && pos < |values| && (s[0].value == 0 || values[pos] >= s[0].value)
    requires forall x :: x in multiset(s) ==> x.value <= s[0].value
    ensures Accounted(multiset(s), values, |s|, pos)
  {
    assert |multiset(s)| == |s|;
  }

  lemma RootItems(s: seq<Item>, x: Item)
    requires |s| > 0
    ensures multiset(s[0 := x]) == multiset(s) - multiset{s[0]} + multiset{x}
  {
  }

  lemma ReplacedRoot(s: seq<Item>, t: seq<Item>)
    requires HeapFrom(s, 0) && |s| > 0 && |t| == |s| && s[1..] == t[1..]
    ensures HeapFrom(t, 1)
  {
    forall j | Parent(j) >= 1
      ensures EdgeOk(t, j)
    {
      assert EdgeOk(s, j);
      if 1 <= j < |s| {
        assert s[1..][j - 1] == t[1..][j - 1];
        assert s[1..][Parent(j) - 1] == t[1..][Parent(j) - 1];
      }
    }
  }

  /** Appends a slot to a heap that is not full and restores the order. */
  method Append(a: array<Item>, len: nat, ctrl: seq<int>, values: seq<nat>, pos: nat)
    requires len < a.Length && pos < |ctrl| == |values| && LiveMark(ctrl[pos])
    requires Selection(multiset(a[..len]), ctrl, values, pos, a.Length)
    modifies a
    ensures HeapFrom(a[..len + 1], 0) && Selection(multiset(a[..len + 1]), ctrl, values, pos + 1, a.Length)
  {
    ghost var s := a[..len];
    SelectAdd(multiset(s), ctrl, values, pos, a.Length);
    a[len] := Item(pos, values[pos]);
    assert a[..len + 1] == s + [Item(pos, values[pos])];
    Heapify(a, len + 1);
  }

  lemma SelectNone(ctrl: seq<int>, values: seq<nat>, cap: nat)
    requires |ctrl| == |values|
    ensures Selection(multiset([]), ctrl, values, 0, cap) && HeapFrom([], 0)
  {
  }

  lemma SelectNothing(ctrl: seq<int>, values: seq<nat>)
    requires |ctrl| == |values|
    ensures Selection(multiset([]), ctrl, values, |ctrl|, 0)
  {
  }

  /** The `l` least used live slots, or all of them when there are fewer, and the largest use among them. */
  method BuildMinTop(ctrl: seq<int>, values: seq<nat>, l: nat) returns (items: seq<Item>, top: nat)
    requires |ctrl| == |values| && |ctrl| % GROUP == 0
    ensures Selection(multiset(items), ctrl, values, |ctrl|, l)
    ensures forall k :: 0 <= k < |items| ==> items[k].value <= top
    ensures if items == [] then top == 0 else top == items[0].value
  {
    hide Selection, HeapFrom;
    SelectNone(ctrl, values, l);
    if l == 0 {
      SelectNothing(ctrl, values);
      return [], 0;
    }
    var a := new Item[l](_ => Item(0, 0));
    var len := 0;
    assert a[..0] == [];
    for g := 0 to |ctrl| / GROUP
      invariant len <= l && HeapFrom(a[..len], 0)
      invariant Selection(multiset(a[..len]), ctrl, values, GROUP * g, l)
    {
      var left := GROUP;
      var i := 0;
      while len < l && i < GROUP
        invariant 0 <= i <= GROUP && left == GROUP - i && len <= l && HeapFrom(a[..len], 0)
        invariant Selection(multiset(a[..len]), ctrl, values, GROUP * g + i, l)
      {
        if LiveMark(ctrl[GROUP * g + i]) {
          Append(a, len, ctrl, values, GROUP * g + i);
          len := len + 1;
        } else {
          SelectSkip(multiset(a[..len]), ctrl, values, GROUP * g + i, l);
        }
        left := left - 1;
        i := i + 1;
      }
      while left > 0
        invariant 0 <= left <= GROUP && len <= l && (left > 0 ==> len == l) && HeapFrom(a[..len], 0)
        invariant Selection(multiset(a[..len]), ctrl, values, GROUP * g + GROUP - left, l)
      {
        var s := GROUP - left;
        if LiveMark(ctrl[GROUP * g + s]) {
          assert a[..len] == a[..];
          Push(a, ctrl, values, GROUP * g + s);
          assert a[..len] == a[..];
        } else {
          SelectSkip(multiset(a[..len]), ctrl, values, GROUP * g + s, l);
        }
        left := left - 1;
      }
    }
    items := a[..len];
    if len == 0 {
      return items, 0;
    }
    RootBounds(items);
    top := items[0].value;
    forall k | 0 <= k < |items| ensures items[k].value <= top {
      assert items[k] in multiset(items);
    }
  }

  lemma RepeatCounted(s: seq<Item>, j: nat, k: nat)
    requires j < k < |s| && s[j] == s[k]
    ensures multiset(s)[s[j]] >= 2
  {
    assert s == s[..j] + [s[j]] + (s[j + 1..k] + [s[k]] + s[k + 1..]);
  }

  /** No slot is selected twice, and each carries its own use count. */
  lemma SelectedSlots(s: seq<Item>, ctrl: seq<int>, values: seq<nat>, cap: nat)
    requires |ctrl| == |values| && Selection(multiset(s), ctrl, values, |ctrl|, cap)
    ensures forall j :: 0 <= j < |s| ==> Candidate(s[j], ctrl, values, |ctrl|)
    ensures forall j, k :: 0 <= j < k < |s| ==> s[j].slot != s[k].slot
  {
    forall j | 0 <= j < |s| ensures Candidate(s[j], ctrl, values, |ctrl|) {
      assert s[j] in multiset(s);
    }
    forall j, k | 0 <= j < k < |s| ensures s[j].slot != s[k].slot {
      if s[j].slot == s[k].slot {
        RepeatCounted(s, j, k);
        assert false;
      }
    }
  }

  /** The selection is complete: short of `cap` only when every live slot is in it, and nothing
      left out is used less than anything chosen. */
  lemma SelectedLeast(s: seq<Item>, ctrl: seq<int>, values: seq<nat>, cap: nat, q: nat)
    requires |ctrl| == |values| && Selection(multiset(s), ctrl, values, |ctrl|, cap)
    requires q < |ctrl| && LiveMark(ctrl[q]) && forall j :: 0 <= j < |s| ==> s[j].slot != q
    ensures |s| == cap
    ensures forall j :: 0 <= j < |s| ==> s[j].value <= values[q]
  {
    assert Accounted(multiset(s), values, cap, q);
    assert Item(q, values[q]) !in s;
    forall j | 0 <= j < |s| ensures s[j].value <= values[q] {
      assert s[j] in multiset(s);
    }
  }
}
