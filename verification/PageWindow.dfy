/** Which page numbers a pagination control shows, and what its gaps stand for. */
module PageWindow {

  datatype Slot = Number(n: int) | Gap

  function Range(lo: int, hi: int): seq<int>
    decreases hi - lo
  {
    if lo > hi then [] else Range(lo, hi - 1) + [hi]
  }

  /** First, last, and what the radius reaches. */
  predicate Shown(page: int, total: int, radius: int, n: int) {
    n == 1 || n == total || (page - radius <= n <= page + radius && 1 <= n <= total)
  }

  ghost predicate Increasing(ns: seq<int>) {
    forall i, j | 0 <= i < j < |ns| :: ns[i] < ns[j]
  }

  /** One missing number is spelled out; more are a gap. */
  function Between(previous: int, n: int): seq<Slot> {
    if n - previous == 2 then [Number(previous + 1)]
    else if n - previous > 2 then [Gap]
    else []
  }

  function SlotsOf(ns: seq<int>): seq<Slot> {
    if ns == [] then []
    else
      var k := |ns| - 1;
      SlotsOf(ns[..k]) + (if k == 0 then [] else Between(ns[k - 1], ns[k])) + [Number(ns[k])]
  }

  /** The numbers up to hi that are shown. */
  function Numbers(page: int, total: int, radius: int, hi: nat): seq<int> {
    if hi == 0 then []
    else Numbers(page, total, radius, hi - 1) + if Shown(page, total, radius, hi) then [hi] else []
  }

  function PageSlots(page: int, total: int, radius: int): seq<Slot> {
    if total < 1 then [] else SlotsOf(Numbers(page, total, radius, total))
  }

  /** The numbers shown, in order. */
  ghost predicate IsWindow(page: int, total: int, radius: int, ns: seq<int>) {
    Increasing(ns) && forall n :: n in ns <==> Shown(page, total, radius, n)
  }

  lemma {:induction false} LeastFrom(s: set<nat>, lo: nat, some: nat)
    requires some in s && lo <= some && forall x | x in s :: lo <= x
    ensures exists m :: m in s && forall x | x in s :: m <= x
    decreases some - lo
  {
    if lo !in s {
      LeastFrom(s, lo + 1, some);
    }
  }

  lemma AppendLarger(ns: seq<nat>, m: nat)
    requires Increasing(ns) && (ns != [] ==> ns[|ns| - 1] < m)
    ensures Increasing(ns + [m]) && forall n :: n in ns + [m] <==> n in ns || n == m
  {
    assert forall i | 0 <= i < |ns| - 1 :: ns[i] < ns[|ns| - 1];
  }

  method Least(s: set<nat>) returns (m: nat)
    requires s != {}
    ensures m in s && forall x | x in s :: m <= x
  {
    ghost var some :| some in s;
    LeastFrom(s, 0, some);
    m :| m in s && forall x | x in s :: m <= x;
  }

  method Sorted(s: set<nat>) returns (ns: seq<nat>)
    ensures Increasing(ns) && forall n :: n in ns <==> n in s
  {
    var rest := s;
    ns := [];
    while rest != {}
      invariant rest <= s && Increasing(ns)
      invariant forall n :: n in ns <==> n in s - rest
      invariant ns != [] ==> forall r | r in rest :: ns[|ns| - 1] < r
      decreases |rest|
    {
      var m := Least(rest);
      AppendLarger(ns, m);
      ns, rest := ns + [m], rest - {m};
    }
    assert s - rest == s;
  }

  lemma {:induction false} NumbersUpTo(page: int, total: int, radius: int, hi: nat)
    ensures Increasing(Numbers(page, total, radius, hi))
    ensures forall n :: n in Numbers(page, total, radius, hi) <==> 1 <= n <= hi && Shown(page, total, radius, n)
  {
    if hi > 0 {
      NumbersUpTo(page, total, radius, hi - 1);
      var front := Numbers(page, total, radius, hi - 1);
      assert forall i | 0 <= i < |front| :: front[i] in front;
    }
  }

  lemma NumbersAreTheWindow(page: int, total: int, radius: int)
    requires total >= 1
    ensures IsWindow(page, total, radius, Numbers(page, total, radius, total))
  {
    NumbersUpTo(page, total, radius, total);
  }

  lemma HeadsCarryOver(a: seq<int>, b: seq<int>)
    requires forall n | n in a :: n in b
    ensures a != [] ==> b != []
  {
    if a != [] {
      var head := a[0];
      assert head in a;
      assert head in b;
    }
  }

  /** An increasing list is determined by its elements. */
  lemma {:induction false} SameElementsSameList(a: seq<int>, b: seq<int>)
    requires Increasing(a) && Increasing(b) && forall n :: n in a <==> n in b
    ensures a == b
  {
    HeadsCarryOver(a, b);
    HeadsCarryOver(b, a);
    if a != [] && b != [] {
      LastsAgree(a, b);
      var i, j := |a| - 1, |b| - 1;
      forall n ensures n in a[..i] <==> n in b[..j] {
        AllButTheLast(a, n);
        AllButTheLast(b, n);
      }
      SameElementsSameList(a[..i], b[..j]);
      assert a == a[..i] + [a[i]] && b == b[..j] + [b[j]];
    }
  }

  lemma AllButTheLast(ns: seq<int>, n: int)
    requires ns != [] && Increasing(ns)
    ensures n in ns[..|ns| - 1] <==> n in ns && n != ns[|ns| - 1]
  {
    assert ns == ns[..|ns| - 1] + [ns[|ns| - 1]];
    assert forall i | 0 <= i < |ns| - 1 :: ns[..|ns| - 1][i] == ns[i] < ns[|ns| - 1];
  }

  lemma LastsAgree(a: seq<int>, b: seq<int>)
    requires a != [] && b != [] && Increasing(a) && Increasing(b) && forall n :: n in a <==> n in b
    ensures a[|a| - 1] == b[|b| - 1]
  {
    assert a[|a| - 1] in b && b[|b| - 1] in a;
    var i :| 0 <= i < |b| && b[i] == a[|a| - 1];
    var j :| 0 <= j < |a| && a[j] == b[|b| - 1];
  }

  /** The second loop: each number, after the one missing before it or a gap. Zero stands for no previous. */
  method Spaced(sorted: seq<int>) returns (slots: seq<Slot>)
    requires forall i | 0 <= i < |sorted| :: sorted[i] != 0
    ensures slots == SlotsOf(sorted)
  {
    slots := [];
    var previous := 0;
    for i := 0 to |sorted|
      invariant slots == SlotsOf(sorted[..i])
      invariant previous == if i == 0 then 0 else sorted[i - 1]
    {
      assert sorted[..i + 1][..i] == sorted[..i];
      if previous != 0 {
        if sorted[i] - previous == 2 {
          slots := slots + [Number(previous + 1)];
        } else if sorted[i] - previous > 2 {
          slots := slots + [Gap];
        }
      }
      slots := slots + [Number(sorted[i])];
      previous := sorted[i];
    }
    assert sorted[..|sorted|] == sorted;
  }

  method Window(page: int, total: int, radius: int) returns (slots: seq<Slot>)
    ensures slots == PageSlots(page, total, radius)
  {
    if total < 1 {
      return [];
    }
    var shown: set<nat> := {1, total};
    var n := page - radius;
    while n <= page + radius
      invariant forall x :: x in shown <==>
                  x == 1 || x == total || (page - radius <= x < n && x <= page + radius && 1 <= x <= total)
    {
      if n >= 1 && n <= total {
        shown := shown + {n};
      }
      n := n + 1;
    }
    var sorted := Sorted(shown);
    assert forall i | 0 <= i < |sorted| :: sorted[i] in shown;
    slots := Spaced(sorted);
    NumbersAreTheWindow(page, total, radius);
    SameElementsSameList(sorted, Numbers(page, total, radius, total));
  }

  // ---- What the slots stand for --------------------------------------------------------------------------------

  function LastNumber(slots: seq<Slot>): int {
    if slots == [] then 0
    else match slots[|slots| - 1] case Number(n) => n case Gap => LastNumber(slots[..|slots| - 1])
  }

  /** What the last slot adds to what the slots before it stand for. */
  function ExpandLast(expanded: seq<int>, front: seq<Slot>, last: Slot): seq<int> {
    match last
    case Gap => expanded
    case Number(n) =>
      if front != [] && front[|front| - 1] == Gap then expanded + Range(LastNumber(front) + 1, n - 1) + [n]
      else expanded + [n]
  }

  /** Each gap replaced by the numbers missing between its neighbours. */
  function Expand(slots: seq<Slot>): seq<int> {
    if slots == [] then []
    else
      var front, last := slots[..|slots| - 1], slots[|slots| - 1];
      ExpandLast(Expand(front), front, last)
  }

  lemma ExpandOneMore(slots: seq<Slot>, last: Slot)
    ensures Expand(slots + [last]) == ExpandLast(Expand(slots), slots, last)
  {
    var more := slots + [last];
    assert more[..|more| - 1] == slots && more[|more| - 1] == last;
  }

  lemma {:induction false} RangeSplit(lo: int, mid: int, hi: int)
    requires lo <= mid + 1 && mid <= hi
    ensures Range(lo, hi) == Range(lo, mid) + Range(mid + 1, hi)
    decreases hi - mid
  {
    if mid < hi {
      RangeSplit(lo, mid, hi - 1);
    }
  }

  lemma {:induction false} SlotsEndInTheLast(ns: seq<int>)
    requires ns != []
    ensures SlotsOf(ns) != [] && SlotsOf(ns)[|SlotsOf(ns)| - 1] == Number(ns[|ns| - 1])
    ensures LastNumber(SlotsOf(ns)) == ns[|ns| - 1]
  {
  }

  lemma ExpandNumber(slots: seq<Slot>, n: int)
    requires slots != [] && slots[|slots| - 1].Number?
    ensures Expand(slots + [Number(n)]) == Expand(slots) + [n]
  {
    ExpandOneMore(slots, Number(n));
  }

  lemma ExpandGap(slots: seq<Slot>, previous: int, n: int)
    requires slots != [] && slots[|slots| - 1] == Number(previous)
    ensures Expand(slots + [Gap] + [Number(n)]) == Expand(slots) + Range(previous + 1, n - 1) + [n]
  {
    var gapped := slots + [Gap];
    ExpandOneMore(slots, Gap);
    ExpandOneMore(gapped, Number(n));
    LastNumberOfGapped(slots, previous);
  }

  lemma LastNumberOfGapped(slots: seq<Slot>, previous: int)
    requires slots != [] && slots[|slots| - 1] == Number(previous)
    ensures LastNumber(slots + [Gap]) == previous
  {
    var gapped := slots + [Gap];
    assert gapped[..|gapped| - 1] == slots && gapped[|gapped| - 1] == Gap;
  }

  lemma Reassociate<T>(a: seq<T>, b: seq<T>, c: seq<T>)
    ensures a + b + c == a + (b + c)
  {
  }

  lemma SmallRanges(n: int)
    ensures Range(n, n) == [n] && Range(n, n + 1) == [n, n + 1]
  {
    assert Range(n, n - 1) == [];
  }

  lemma ExpandFiller(slots: seq<Slot>, n: int)
    requires slots != [] && slots[|slots| - 1].Number?
    ensures Expand(slots + [Number(n)] + [Number(n + 1)]) == Expand(slots) + [n, n + 1]
  {
    var filled := slots + [Number(n)];
    ExpandNumber(slots, n);
    ExpandNumber(filled, n + 1);
    assert [n] + [n + 1] == [n, n + 1];
    Reassociate(Expand(slots), [n], [n + 1]);
  }

  lemma StepNext(slots: seq<Slot>, n: int)
    requires slots != [] && slots[|slots| - 1].Number?
    ensures Expand(slots + [Number(n)]) == Expand(slots) + Range(n, n)
  {
    SmallRanges(n);
    ExpandNumber(slots, n);
  }

  lemma StepFiller(slots: seq<Slot>, n: int)
    requires slots != [] && slots[|slots| - 1].Number?
    ensures Expand(slots + [Number(n)] + [Number(n + 1)]) == Expand(slots) + Range(n, n + 1)
  {
    SmallRanges(n);
    ExpandFiller(slots, n);
  }

  lemma StepGap(slots: seq<Slot>, previous: int, n: int)
    requires slots != [] && slots[|slots| - 1] == Number(previous) && previous < n
    ensures Expand(slots + [Gap] + [Number(n)]) == Expand(slots) + Range(previous + 1, n)
  {
    ExpandGap(slots, previous, n);
    Reassociate(Expand(slots), Range(previous + 1, n - 1), [n]);
  }

  lemma ExpandStep(slots: seq<Slot>, previous: int, n: int)
    requires slots != [] && slots[|slots| - 1] == Number(previous) && previous < n
    ensures Expand(slots + Between(previous, n) + [Number(n)]) == Expand(slots) + Range(previous + 1, n)
  {
    var between := Between(previous, n);
    if n - previous == 1 {
      assert slots + between == slots;
      StepNext(slots, n);
    } else if n - previous == 2 {
      assert between == [Number(n - 1)];
      StepFiller(slots, n - 1);
    } else {
      assert between == [Gap];
      StepGap(slots, previous, n);
    }
  }

  lemma OneSlot(n: int)
    ensures SlotsOf([n]) == [Number(n)] && Expand([Number(n)]) == [n]
  {
    assert [n][..0] == [] && [Number(n)][..0] == [];
  }

  lemma SlotsOfMore(ns: seq<int>)
    requires |ns| > 1
    ensures var k := |ns| - 1;
            SlotsOf(ns) == SlotsOf(ns[..k]) + Between(ns[k - 1], ns[k]) + [Number(ns[k])]
  {
  }

  lemma {:induction false} ExpandSlots(ns: seq<int>)
    requires ns != [] && Increasing(ns)
    ensures Expand(SlotsOf(ns)) == Range(ns[0], ns[|ns| - 1])
  {
    var k := |ns| - 1;
    if k == 0 {
      assert ns == [ns[0]];
      OneSlot(ns[0]);
      SmallRanges(ns[0]);
    } else {
      ExpandSlots(ns[..k]);
      SlotsEndInTheLast(ns[..k]);
      SlotsOfMore(ns);
      ExpandStep(SlotsOf(ns[..k]), ns[k - 1], ns[k]);
      RangeSplit(ns[0], ns[k - 1], ns[k]);
    }
  }

  lemma EndsOfTheWindow(page: int, total: int, radius: int, ns: seq<int>)
    requires total >= 1 && IsWindow(page, total, radius, ns)
    ensures ns != [] && ns[0] == 1 && ns[|ns| - 1] == total
  {
    assert 1 in ns && total in ns;
    var i :| 0 <= i < |ns| && ns[i] == 1;
    var j :| 0 <= j < |ns| && ns[j] == total;
    assert ns[0] in ns && ns[|ns| - 1] in ns;
  }

  /** Putting the missing numbers back gives every page once, in order: the fast form stands for 1..N. */
  lemma GapsStandForWhatIsMissing(page: int, total: int, radius: int)
    ensures Expand(PageSlots(page, total, radius)) == Range(1, total)
  {
    if total >= 1 {
      var ns := Numbers(page, total, radius, total);
      NumbersAreTheWindow(page, total, radius);
      EndsOfTheWindow(page, total, radius, ns);
      ExpandSlots(ns);
    }
  }

  /** Position i is a gap, between two numbers with at least two numbers missing between them. */
  ghost predicate WorthAGap(slots: seq<Slot>, i: nat) {
    && 0 < i < |slots| - 1 && slots[i - 1].Number? && slots[i + 1].Number?
    && slots[i + 1].n - slots[i - 1].n > 2
  }

  lemma {:induction false} GapBetweenNumbers(ns: seq<int>, i: nat)
    requires Increasing(ns) && i < |SlotsOf(ns)| && SlotsOf(ns)[i] == Gap
    ensures WorthAGap(SlotsOf(ns), i)
  {
    var k := |ns| - 1;
    var front, slots := SlotsOf(ns[..k]), SlotsOf(ns);
    if i < |front| {
      GapBetweenNumbers(ns[..k], i);
      assert slots[..|front|] == front;
      assert slots[i - 1] == front[i - 1] && slots[i + 1] == front[i + 1];
    } else {
      SlotsEndInTheLast(ns[..k]);
      assert slots[|front|] == Gap && i == |front|;
    }
  }

  lemma {:induction false} EveryNumberIsASlot(ns: seq<int>, n: int)
    requires n in ns
    ensures Number(n) in SlotsOf(ns)
  {
    var k := |ns| - 1;
    if n != ns[k] {
      assert ns == ns[..k] + [ns[k]];
      EveryNumberIsASlot(ns[..k], n);
    } else {
      assert SlotsOf(ns)[|SlotsOf(ns)| - 1] == Number(n);
    }
  }

  lemma EveryGapHidesTwo(page: int, total: int, radius: int, i: nat)
    requires i < |PageSlots(page, total, radius)| && PageSlots(page, total, radius)[i] == Gap
    ensures WorthAGap(PageSlots(page, total, radius), i)
  {
    NumbersAreTheWindow(page, total, radius);
    GapBetweenNumbers(Numbers(page, total, radius, total), i);
  }

  /** Both ends and every page within the radius are there to be clicked. */
  lemma EndsAndNeighboursAreShown(page: int, total: int, radius: int, n: int)
    requires 1 <= n <= total && (n == 1 || n == total || page - radius <= n <= page + radius)
    ensures Number(n) in PageSlots(page, total, radius)
  {
    NumbersUpTo(page, total, radius, total);
    EveryNumberIsASlot(Numbers(page, total, radius, total), n);
  }

  // ---- How long the control gets ---------------------------------------------------------------------------------

  function Breaks(ns: seq<int>): nat {
    if |ns| < 2 then 0
    else
      var k := |ns| - 1;
      Breaks(ns[..k]) + if ns[k] - ns[k - 1] >= 2 then 1 else 0
  }

  lemma {:induction false} SlotsAreNumbersAndBreaks(ns: seq<int>)
    requires Increasing(ns)
    ensures |SlotsOf(ns)| == |ns| + Breaks(ns)
    ensures ns != [] ==> |SlotsOf(ns)| <= ns[|ns| - 1] - ns[0] + 1
  {
    if |ns| > 1 {
      SlotsAreNumbersAndBreaks(ns[..|ns| - 1]);
    } else if |ns| == 1 {
      assert SlotsOf(ns[..0]) == [];
    }
  }

  /** Numbers are missing only next to the first page or the last. */
  lemma {:induction false} BreaksOnlyAtTheEnds(ns: seq<int>, k: nat)
    requires k <= |ns|
    requires forall j | 0 <= j < |ns| - 1 && ns[j + 1] - ns[j] >= 2 :: j == 0 || j == |ns| - 2
    ensures Breaks(ns[..k]) <= (if k < 2 then 0 else if k < |ns| || k == 2 then 1 else 2)
  {
    if k >= 2 {
      BreaksOnlyAtTheEnds(ns, k - 1);
      assert ns[..k][..k - 1] == ns[..k - 1];
    }
  }

  function Interval(lo: int, hi: int): (s: set<int>)
    ensures forall n :: n in s <==> lo <= n <= hi
    ensures |s| == if lo > hi then 0 else hi - lo + 1
    decreases hi - lo
  {
    if lo > hi then {} else Interval(lo, hi - 1) + {hi}
  }

  function Elements(ns: seq<int>): (s: set<int>)
    requires Increasing(ns)
    ensures |s| == |ns| && forall n :: n in s <==> n in ns
  {
    if ns == [] then {}
    else
      var k := |ns| - 1;
      assert ns == ns[..k] + [ns[k]] && ns[k] !in ns[..k];
      Elements(ns[..k]) + {ns[k]}
  }

  lemma SubsetIsNoLarger<T>(a: set<T>, b: set<T>)
    requires a <= b
    ensures |a| <= |b|
    decreases |b|
  {
    if a != {} {
      var x :| x in a;
      SubsetIsNoLarger(a - {x}, b - {x});
    }
  }

  function Max(a: int, b: int): int {
    if a < b then b else a
  }

  function Min(a: int, b: int): int {
    if a < b then a else b
  }

  lemma NothingBetween(ns: seq<int>, j: nat, n: int)
    requires Increasing(ns) && j < |ns| - 1 && ns[j] < n < ns[j + 1]
    ensures n !in ns
  {
    forall i | 0 <= i < |ns| ensures ns[i] != n {
      assert i < j ==> ns[i] < ns[j];
      assert i > j + 1 ==> ns[j + 1] < ns[i];
    }
  }

  lemma WindowBreaksAtTheEnds(page: int, total: int, radius: int, ns: seq<int>, j: nat)
    requires total >= 1 && IsWindow(page, total, radius, ns) && j < |ns| - 1 && ns[j + 1] - ns[j] >= 2
    ensures j == 0 || j == |ns| - 2
  {
    EndsOfTheWindow(page, total, radius, ns);
    assert ns[j] in ns && ns[j + 1] in ns;
    assert Shown(page, total, radius, ns[j]) && Shown(page, total, radius, ns[j + 1]);
    if ns[j] != 1 && ns[j + 1] != total {
      assert Shown(page, total, radius, ns[j] + 1);
      NothingBetween(ns, j, ns[j] + 1);
    }
  }

  lemma WindowIsSmall(page: int, total: int, radius: int, ns: seq<int>)
    requires IsWindow(page, total, radius, ns)
    ensures |ns| <= 2 + Max(0, 2 * radius + 1)
  {
    var window, ends := Interval(page - radius, page + radius), {1, total};
    forall n | n in Elements(ns) ensures n in ends + window {
      assert Shown(page, total, radius, n);
    }
    SubsetIsNoLarger(Elements(ns), ends + window);
    assert |ends| <= 2;
  }

  lemma WindowStaysShort(page: int, total: int, radius: int, ns: seq<int>)
    requires total >= 1 && IsWindow(page, total, radius, ns)
    ensures |SlotsOf(ns)| <= Min(total, 2 * Max(radius, -1) + 5)
  {
    EndsOfTheWindow(page, total, radius, ns);
    SlotsAreNumbersAndBreaks(ns);
    forall j | 0 <= j < |ns| - 1 && ns[j + 1] - ns[j] >= 2 ensures j == 0 || j == |ns| - 2 {
      WindowBreaksAtTheEnds(page, total, radius, ns, j);
    }
    BreaksOnlyAtTheEnds(ns, |ns|);
    assert ns[..|ns|] == ns;
    WindowIsSmall(page, total, radius, ns);
  }

  lemma SlotsOfAWindow(page: int, total: int, radius: int) returns (ns: seq<int>)
    requires total >= 1
    ensures IsWindow(page, total, radius, ns) && PageSlots(page, total, radius) == SlotsOf(ns)
  {
    ns := Numbers(page, total, radius, total);
    NumbersAreTheWindow(page, total, radius);
  }

  /** However many pages there are, the control stays this short -- and never longer than the plain list. */
  lemma TheControlStaysShort(page: int, total: int, radius: int)
    ensures |PageSlots(page, total, radius)| <= Min(Max(total, 0), 2 * Max(radius, -1) + 5)
  {
    if total >= 1 {
      var ns := SlotsOfAWindow(page, total, radius);
      WindowStaysShort(page, total, radius, ns);
    }
  }
}
