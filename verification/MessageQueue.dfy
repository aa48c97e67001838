/** The priority message queue: `Pop` is a selection scan, `PopAll` a partition
    followed by a stable sort, and a signal marks pending messages. */
module MessageQueue {
  import opened Sequences
  import opened Options

  datatype Item<M> = Item(priority: int, message: M)

  // ------------------------------------------------------------------
  // Specification functions
  // ------------------------------------------------------------------

  function Eligible<M>(items: seq<Item<M>>, max: int): seq<Item<M>> {
    if items == [] then []
    else Eligible(items[..|items| - 1], max) + if items[|items| - 1].priority <= max then [items[|items| - 1]] else []
  }

  function Kept<M>(items: seq<Item<M>>, max: int): seq<Item<M>> {
    if items == [] then []
    else Kept(items[..|items| - 1], max) + if items[|items| - 1].priority <= max then [] else [items[|items| - 1]]
  }

  /** Inserts before the first element that is not strictly more urgent. */
  function Insert<M>(x: Item<M>, sorted: seq<Item<M>>): seq<Item<M>> {
    if sorted == [] || x.priority <= sorted[0].priority then [x] + sorted
    else [sorted[0]] + Insert(x, sorted[1..])
  }

  /** A stable sort by priority. */
  function StableSort<M>(items: seq<Item<M>>): seq<Item<M>> {
    if items == [] then [] else Insert(items[0], StableSort(items[1..]))
  }

  function Messages<M>(items: seq<Item<M>>): seq<M> {
    seq(|items|, i requires 0 <= i < |items| => items[i].message)
  }

  /** `i` is the earliest of the most urgent items allowed by `max`. */
  ghost predicate IsBest<M>(items: seq<Item<M>>, max: int, i: nat) {
    && i < |items| && items[i].priority <= max
    && (forall j | 0 <= j < |items| :: items[i].priority <= items[j].priority)
    && (forall j | 0 <= j < i :: items[i].priority < items[j].priority)
  }

  function RemoveAt<M>(items: seq<Item<M>>, i: nat): seq<Item<M>>
    requires i < |items|
  {
    items[..i] + items[i + 1..]
  }

  // ------------------------------------------------------------------
  // The stable sort is the stable sort
  // ------------------------------------------------------------------

  ghost predicate Sorted<M>(items: seq<Item<M>>) {
    forall i, j | 0 <= i < j < |items| :: items[i].priority <= items[j].priority
  }

  /** The items of one priority, in order. */
  function OfPriority<M>(items: seq<Item<M>>, p: int): seq<Item<M>> {
    if items == [] then []
    else (if items[0].priority == p then [items[0]] else []) + OfPriority(items[1..], p)
  }

  lemma {:induction false} InsertPermutes<M>(x: Item<M>, sorted: seq<Item<M>>)
    ensures multiset(Insert(x, sorted)) == multiset{x} + multiset(sorted)
  {
    if sorted != [] && x.priority > sorted[0].priority {
      InsertPermutes(x, sorted[1..]);
      assert sorted == [sorted[0]] + sorted[1..];
    }
  }

  lemma {:induction false} InsertSorted<M>(x: Item<M>, sorted: seq<Item<M>>)
    requires Sorted(sorted)
    ensures Sorted(Insert(x, sorted))
  {
    if sorted != [] && x.priority > sorted[0].priority {
      InsertSorted(x, sorted[1..]);
      InsertPermutes(x, sorted[1..]);
      var rest := Insert(x, sorted[1..]);
      forall i | 0 <= i < |rest| ensures sorted[0].priority <= rest[i].priority {
        assert rest[i] in multiset(rest);
      }
    }
  }

  lemma OfPriorityCons<M>(x: Item<M>, items: seq<Item<M>>, p: int)
    ensures OfPriority([x] + items, p) == (if x.priority == p then [x] else []) + OfPriority(items, p)
  {
    assert ([x] + items)[1..] == items;
  }

  lemma {:induction false} InsertStable<M>(x: Item<M>, sorted: seq<Item<M>>, p: int)
    requires Sorted(sorted)
    ensures OfPriority(Insert(x, sorted), p) == (if x.priority == p then [x] else []) + OfPriority(sorted, p)
  {
    if sorted == [] || x.priority <= sorted[0].priority {
      OfPriorityCons(x, sorted, p);
    } else {
      var y, rest := sorted[0], sorted[1..];
      InsertStable(x, rest, p);
      OfPriorityCons(y, Insert(x, rest), p);
      Commute(if y.priority == p then [y] else [], if x.priority == p then [x] else [], OfPriority(rest, p));
    }
  }

  /** Sorted, a permutation, and stable: items of equal priority keep their order. */
  lemma {:induction false} StableSortCorrect<M>(items: seq<Item<M>>, p: int)
    ensures Sorted(StableSort(items))
    ensures multiset(StableSort(items)) == multiset(items)
    ensures OfPriority(StableSort(items), p) == OfPriority(items, p)
  {
    if items == [] {
    } else {
      assert items == [items[0]] + items[1..];
      StableSortCorrect(items[1..], p);
      InsertPermutes(items[0], StableSort(items[1..]));
      InsertSorted(items[0], StableSort(items[1..]));
      InsertStable(items[0], StableSort(items[1..]), p);
    }
  }

  // ------------------------------------------------------------------
  // The class
  // ------------------------------------------------------------------

  class MessageQueue<M> {
    var items: seq<Item<M>>
    var signal: bool

    /** A waiting consumer is never left asleep: a non-empty queue has its signal set. */
    ghost predicate Valid()
      reads this
    {
      items != [] ==> signal
    }

    constructor ()
      ensures Valid() && items == [] && !signal
    {
      items, signal := [], false;
    }

    method Push(message: M, priority: int)
      requires Valid()
      modifies this
      ensures Valid() && signal
      ensures items == old(items) + [Item(priority, message)]
    {
      items := items + [Item(priority, message)];
      signal := true;
    }

    method Pop(max: int) returns (r: Option<M>)
      requires Valid()
      modifies this
      ensures Valid() && signal == old(signal)
      ensures r.None? ==> items == old(items) && Eligible(items, max) == []
      ensures r.Some? ==> exists i: nat :: IsBest(old(items), max, i) &&
                                      r.value == old(items)[i].message && items == RemoveAt(old(items), i)
    {
      if items == [] {
        return None;
      }
      var bestIdx, bestPri := -1, max + 1;
      for i := 0 to |items|
        invariant -1 <= bestIdx < i
        invariant bestIdx == -1 ==> bestPri == max + 1 && forall j | 0 <= j < i :: items[j].priority > max
        invariant bestIdx >= 0 ==>
                    && items[bestIdx].priority == bestPri <= max
                    && (forall j | 0 <= j < i :: bestPri <= items[j].priority)
                    && (forall j | 0 <= j < bestIdx :: bestPri < items[j].priority)
      {
        var pri := items[i].priority;
        if pri <= max && pri < bestPri {
          bestIdx, bestPri := i, pri;
        }
      }
      if bestIdx == -1 {
        NoneEligible(items, max);
        return None;
      }
      assert IsBest(items, max, bestIdx);
      r := Some(items[bestIdx].message);
      items := items[..bestIdx] + items[bestIdx + 1..];
    }

    method PopAll(max: int) returns (r: seq<M>)
      requires Valid()
      modifies this
      ensures Valid()
      ensures items == Kept(old(items), max)
      ensures r == Messages(StableSort(Eligible(old(items), max)))
      ensures signal == (old(signal) && items != [])
    {
      var keep, drain := [], [];
      for i := 0 to |items|
        invariant keep == Kept(items[..i], max) && drain == Eligible(items[..i], max)
        invariant items == old(items) && signal == old(signal)
      {
        assert items[..i + 1][..i] == items[..i];
        if items[i].priority <= max {
          drain := drain + [items[i]];
        } else {
          keep := keep + [items[i]];
        }
      }
      assert items[..|items|] == items;
      items := keep;
      if items == [] {
        signal := false;
      }
      r := Messages(StableSort(drain));
    }

    method Empty() returns (r: bool)
      ensures r <==> items == []
    {
      r := |items| == 0;
    }
  }

  lemma {:induction false} NoneEligible<M>(items: seq<Item<M>>, max: int)
    requires forall j | 0 <= j < |items| :: items[j].priority > max
    ensures Eligible(items, max) == [] && Kept(items, max) == items
  {
    if items == [] {
    } else {
      NoneEligible(items[..|items| - 1], max);
      assert items == items[..|items| - 1] + [items[|items| - 1]];
    }
  }

  // ------------------------------------------------------------------
  // Draining one by one equals draining at once
  // ------------------------------------------------------------------

  lemma {:induction false} EligibleConcat<M>(a: seq<Item<M>>, b: seq<Item<M>>, max: int)
    ensures Eligible(a + b, max) == Eligible(a, max) + Eligible(b, max)
    ensures Kept(a + b, max) == Kept(a, max) + Kept(b, max)
  {
    if b == [] {
      assert a + b == a;
    } else {
      var k := |b| - 1;
      assert (a + b)[..|a + b| - 1] == a + b[..k];
      EligibleConcat(a, b[..k], max);
    }
  }

  lemma MinimumStaysFirst<M>(x: Item<M>, rest: seq<Item<M>>)
    requires forall j | 0 <= j < |rest| :: x.priority <= rest[j].priority
    ensures Insert(x, StableSort(rest)) == [x] + StableSort(rest)
  {
    var sorted := StableSort(rest);
    StableSortCorrect(rest, 0);
    if sorted != [] {
      assert sorted[0] in multiset(rest);
    }
  }

  /** The head of the sorted list is the earliest most urgent element. */
  lemma {:induction false} SortTakesBest<M>(items: seq<Item<M>>, i: nat)
    requires i < |items|
    requires forall j | 0 <= j < |items| :: items[i].priority <= items[j].priority
    requires forall j | 0 <= j < i :: items[i].priority < items[j].priority
    ensures StableSort(items) == [items[i]] + StableSort(RemoveAt(items, i))
  {
    var rest := items[1..];
    if i == 0 {
      assert RemoveAt(items, 0) == rest;
      MinimumStaysFirst(items[0], rest);
    } else {
      assert rest[i - 1] == items[i];
      SortTakesBest(rest, i - 1);
      var removed := RemoveAt(rest, i - 1);
      InsertBehindHead(items[0], items[i], StableSort(removed));
      var r := [items[0]] + removed;
      assert RemoveAt(items, i) == r;
      assert r[0] == items[0] && r[1..] == removed;
    }
  }

  lemma InsertBehindHead<M>(x: Item<M>, head: Item<M>, tail: seq<Item<M>>)
    requires head.priority < x.priority
    ensures Insert(x, [head] + tail) == [head] + Insert(x, tail)
  {
    assert ([head] + tail)[1..] == tail;
  }

  lemma RemovalSplits<M>(items: seq<Item<M>>, max: int, i: nat)
    requires i < |items| && items[i].priority <= max
    ensures var el, er := Eligible(items[..i], max), Eligible(items[i + 1..], max);
            && Eligible(items, max) == el + [items[i]] + er
            && Eligible(RemoveAt(items, i), max) == el + er
            && Kept(items, max) == Kept(RemoveAt(items, i), max)
  {
    var x := items[i];
    var left, right := items[..i], items[i + 1..];
    assert items == left + [x] + right;
    EligibleConcat(left + [x], right, max);
    EligibleConcat(left, [x], max);
    EligibleConcat(left, right, max);
    assert [x][..0] == [];
    assert Eligible([x], max) == [x] && Kept([x], max) == [];
  }

  /** Removing the best item removes the head of the sorted eligible items and
      leaves the kept ones alone. */
  lemma PopTakesHead<M>(items: seq<Item<M>>, max: int, i: nat)
    requires IsBest(items, max, i)
    ensures StableSort(Eligible(items, max)) == [items[i]] + StableSort(Eligible(RemoveAt(items, i), max))
    ensures Kept(items, max) == Kept(RemoveAt(items, i), max)
  {
    var x, el, er := items[i], Eligible(items[..i], max), Eligible(items[i + 1..], max);
    RemovalSplits(items, max, i);
    EligibleMembers(items[..i], max);
    EligibleMembers(items[i + 1..], max);
    assert forall y | y in el :: x.priority < y.priority;
    assert forall y | y in er :: x.priority <= y.priority;
    SortTakesMiddle(el, x, er);
  }

  lemma SortTakesMiddle<M>(left: seq<Item<M>>, x: Item<M>, right: seq<Item<M>>)
    requires forall y | y in left :: x.priority < y.priority
    requires forall y | y in right :: x.priority <= y.priority
    ensures StableSort(left + [x] + right) == [x] + StableSort(left + right)
  {
    var all := left + [x] + right;
    forall j | 0 <= j < |all|
      ensures x.priority <= all[j].priority && (j < |left| ==> x.priority < all[j].priority)
    {
      if j < |left| {
        assert all[j] == left[j] && left[j] in left;
      } else if j > |left| {
        assert all[j] == right[j - |left| - 1] && all[j] in right;
      }
    }
    SortTakesBest(all, |left|);
    assert RemoveAt(all, |left|) == left + right;
  }

  lemma {:induction false} EligibleMembers<M>(items: seq<Item<M>>, max: int)
    ensures forall x | x in Eligible(items, max) :: x in items
  {
    if items == [] {
    } else {
      EligibleMembers(items[..|items| - 1], max);
    }
  }

  lemma MessagesAppend<M>(popped: seq<Item<M>>, x: Item<M>)
    ensures Messages(popped + [x]) == Messages(popped) + [x.message]
  {
    assert (popped + [x])[..|popped|] == popped;
  }

  /** What one successful pop does to what has been and what will be drained. */
  lemma PopMoves<M>(before: seq<Item<M>>, after: seq<Item<M>>, popped: seq<Item<M>>, max: int, i: nat)
    requires IsBest(before, max, i) && after == RemoveAt(before, i)
    ensures popped + StableSort(Eligible(before, max)) == (popped + [before[i]]) + StableSort(Eligible(after, max))
    ensures Kept(before, max) == Kept(after, max) && |after| == |before| - 1
    ensures Messages(popped + [before[i]]) == Messages(popped) + [before[i].message]
  {
    PopTakesHead(before, max, i);
    Assoc(popped, [before[i]], StableSort(Eligible(after, max)));
    MessagesAppend(popped, before[i]);
  }

  /** Popping until nothing is left yields the same messages in the same order as
      one PopAll, and leaves the same items in the same order. The signal differs:
      popping never clears it, so an emptied queue keeps a set signal here. */
  method DrainByPop<M>(q: MessageQueue<M>, max: int) returns (r: seq<M>)
    requires q.Valid()
    modifies q
    ensures q.Valid() && q.signal == old(q.signal)
    ensures r == Messages(StableSort(Eligible(old(q.items), max)))
    ensures q.items == Kept(old(q.items), max)
  {
    r := [];
    ghost var popped: seq<Item<M>> := [];
    while true
      invariant q.Valid() && q.signal == old(q.signal)
      invariant r == Messages(popped)
      invariant StableSort(Eligible(old(q.items), max)) == popped + StableSort(Eligible(q.items, max))
      invariant Kept(old(q.items), max) == Kept(q.items, max)
      decreases |q.items|
    {
      ghost var before := q.items;
      var m := q.Pop(max);
      if m.None? {
        NothingLeft(q.items, max);
        break;
      }
      ghost var i: nat :| IsBest(before, max, i) && m.value == before[i].message && q.items == RemoveAt(before, i);
      PopMoves(before, q.items, popped, max, i);
      r := r + [m.value];
      popped := popped + [before[i]];
    }
  }

  lemma {:induction false} NothingLeft<M>(items: seq<Item<M>>, max: int)
    requires Eligible(items, max) == []
    ensures Kept(items, max) == items
  {
    if items == [] {
    } else {
      var init, last := items[..|items| - 1], items[|items| - 1];
      assert |Eligible(items, max)| == |Eligible(init, max)| + if last.priority <= max then 1 else 0;
      NothingLeft(init, max);
      assert Kept(items, max) == init + [last];
    }
  }
}
