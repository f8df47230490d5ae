/**
 * The priority queue behind the task queue: an array kept in descending order of priority by
 * binary search (priority-queue.ts, lower-bound.ts), proved to serve the earliest of the most
 * urgent elements.
 */
module PriorityQueues {
  import opened Wrappers

  datatype Element<R> = Element(priority: int, run: R)

  // ------------------------------------------------------------------- lower bound

  /** The first index whose element the comparator puts after `value`. */
  method LowerBound<T>(elements: seq<T>, value: T, comparator: (T, T) -> int) returns (first: nat)
    requires forall i, j :: 0 <= i < j < |elements| && comparator(elements[j], value) <= 0 ==> comparator(elements[i], value) <= 0
    ensures first <= |elements|
    ensures forall i :: 0 <= i < first ==> comparator(elements[i], value) <= 0
    ensures forall i :: first <= i < |elements| ==> comparator(elements[i], value) > 0
  {
    first := 0;
    var count := |elements|;
    while count > 0
      invariant 0 <= count && first + count <= |elements|
      invariant forall i :: 0 <= i < first ==> comparator(elements[i], value) <= 0
      invariant forall i :: first + count <= i < |elements| ==> comparator(elements[i], value) > 0
      decreases count
    {
      var step := count / 2;
      var it := first + step;
      if comparator(elements[it], value) <= 0 {
        it := it + 1;
        first := it;
        count := count - (step + 1);
      } else {
        count := step;
      }
    }
  }

  // --------------------------------------------------------------- sorted insertion

  predicate Descending<R>(queue: seq<Element<R>>) {
    forall i, j :: 0 <= i < j < |queue| ==> queue[i].priority >= queue[j].priority
  }

  /** How many elements of a descending queue are served before a new one of this priority. */
  function Rank<R>(queue: seq<Element<R>>, priority: int): (k: nat)
    ensures k <= |queue|
    ensures forall i :: 0 <= i < k ==> queue[i].priority >= priority
    ensures k < |queue| ==> queue[k].priority < priority
  {
    if queue == [] || queue[0].priority < priority then 0 else 1 + Rank(queue[1..], priority)
  }

  /** A new element goes behind all elements of the same or a higher priority. */
  function Insert<R>(queue: seq<Element<R>>, e: Element<R>): (r: seq<Element<R>>)
    ensures |r| == |queue| + 1
  {
    var k := Rank(queue, e.priority);
    queue[..k] + [e] + queue[k..]
  }

  /** Wherever a search finds the boundary between higher-or-equal and lower, it is the rank. */
  lemma InsertAt<R>(queue: seq<Element<R>>, e: Element<R>, k: nat)
    requires Descending(queue) && k <= |queue|
    requires forall i :: 0 <= i < k ==> queue[i].priority >= e.priority
    requires k < |queue| ==> queue[k].priority < e.priority
    ensures Insert(queue, e) == queue[..k] + [e] + queue[k..]
    ensures k == |queue| ==> Insert(queue, e) == queue + [e]
    ensures Descending(Insert(queue, e))
  {
    assert k == Rank(queue, e.priority);
    InsertKeepsDescending(queue, e);
  }

  lemma InsertKeepsDescending<R>(queue: seq<Element<R>>, e: Element<R>)
    requires Descending(queue)
    ensures Descending(Insert(queue, e))
  {
  }

  class PriorityQueue<R> {
    var queue: seq<Element<R>>

    constructor ()
      ensures queue == []
    {
      queue := [];
    }

    predicate Valid()
      reads this
    {
      Descending(queue)
    }

    function Size(): nat
      reads this
    {
      |queue|
    }

    method Enqueue(run: R, priority: Option<int>)
      requires Valid()
      modifies this
      ensures Valid()
      ensures queue == Insert(old(queue), Element(if priority.Some? then priority.value else 0, run))
    {
      var element := Element(if priority.Some? then priority.value else 0, run);
      if Size() > 0 && queue[Size() - 1].priority >= element.priority {
        InsertAt(queue, element, |queue|);
        queue := queue + [element];
        return;
      }
      var index := LowerBound(queue, element, (a: Element<R>, b: Element<R>) => b.priority - a.priority);
      InsertAt(queue, element, index);
      queue := queue[..index] + [element] + queue[index..];
    }

    method Dequeue() returns (item: Option<R>)
      requires Valid()
      modifies this
      ensures Valid()
      ensures old(queue) == [] ==> item == None && queue == []
      ensures old(queue) != [] ==> item == Some(old(queue)[0].run) && queue == old(queue)[1..]
    {
      if |queue| == 0 {
        return None;
      }
      item := Some(queue[0].run);
      queue := queue[1..];
    }
  }

  // ------------------------------------------------- what a caller may expect of it

  datatype Op<R> = Enq(e: Element<R>) | Deq

  /** The answers of the sorted array to a sequence of operations. */
  function ServeSorted<R>(queue: seq<Element<R>>, ops: seq<Op<R>>): seq<Option<Element<R>>>
    decreases |ops|
  {
    if ops == [] then []
    else
      match ops[0]
      case Enq(e) => ServeSorted(Insert(queue, e), ops[1..])
      case Deq =>
        if queue == [] then [None] + ServeSorted(queue, ops[1..])
        else [Some(queue[0])] + ServeSorted(queue[1..], ops[1..])
  }

  /** The earliest element of the highest priority. */
  function MostUrgent<R>(arrived: seq<Element<R>>): (k: nat)
    requires arrived != []
    ensures k < |arrived|
    ensures forall i :: 0 <= i < |arrived| ==> arrived[i].priority <= arrived[k].priority
    ensures forall i :: 0 <= i < k ==> arrived[i].priority < arrived[k].priority
  {
    if |arrived| == 1 then 0
    else
      var k := MostUrgent(arrived[..|arrived| - 1]);
      if arrived[k].priority >= arrived[|arrived| - 1].priority then k else |arrived| - 1
  }

  function Without<R>(arrived: seq<Element<R>>, k: nat): seq<Element<R>>
    requires k < |arrived|
  {
    arrived[..k] + arrived[k + 1..]
  }

  /** The answers of a list in order of arrival from which the most urgent element is served. */
  function ServeUrgent<R>(arrived: seq<Element<R>>, ops: seq<Op<R>>): seq<Option<Element<R>>>
    decreases |ops|
  {
    if ops == [] then []
    else
      match ops[0]
      case Enq(e) => ServeUrgent(arrived + [e], ops[1..])
      case Deq =>
        if arrived == [] then [None] + ServeUrgent(arrived, ops[1..])
        else
          var k := MostUrgent(arrived);
          [Some(arrived[k])] + ServeUrgent(Without(arrived, k), ops[1..])
  }

  /** The array after the arrivals `arrived`. */
  function SortedArrivals<R>(arrived: seq<Element<R>>): (r: seq<Element<R>>)
    ensures |r| == |arrived|
  {
    if arrived == [] then [] else Insert(SortedArrivals(arrived[..|arrived| - 1]), arrived[|arrived| - 1])
  }

  lemma {:induction false} ArrivalsDescend<R>(arrived: seq<Element<R>>)
    ensures Descending(SortedArrivals(arrived))
    decreases |arrived|
  {
    if arrived != [] {
      ArrivalsDescend(arrived[..|arrived| - 1]);
      InsertKeepsDescending(SortedArrivals(arrived[..|arrived| - 1]), arrived[|arrived| - 1]);
    }
  }

  lemma InsertBehind<R>(queue: seq<Element<R>>, e: Element<R>)
    requires queue != [] && queue[0].priority >= e.priority
    ensures Insert(queue, e)[0] == queue[0] && Insert(queue, e)[1..] == Insert(queue[1..], e)
  {
    var k := Rank(queue[1..], e.priority);
    assert Rank(queue, e.priority) == k + 1;
    assert queue[..k + 1][1..] == queue[1..][..k];
  }

  lemma InsertInFront<R>(queue: seq<Element<R>>, e: Element<R>)
    requires queue == [] || queue[0].priority < e.priority
    ensures Insert(queue, e)[0] == e && Insert(queue, e)[1..] == queue
  {
  }

  lemma LaterArrival<R>(front: seq<Element<R>>, e: Element<R>)
    ensures SortedArrivals(front + [e]) == Insert(SortedArrivals(front), e)
  {
    assert (front + [e])[..|front|] == front;
  }

  lemma WithoutEarlier<R>(front: seq<Element<R>>, e: Element<R>, k: nat)
    requires k < |front|
    ensures Without(front + [e], k) == Without(front, k) + [e]
  {
    assert (front + [e])[..k] == front[..k];
    assert (front + [e])[k + 1..] == front[k + 1..] + [e];
  }

  lemma WithoutLatest<R>(front: seq<Element<R>>, e: Element<R>)
    ensures Without(front + [e], |front|) == front
  {
  }

  /** Head and rest of the array are the most urgent arrival and the array of the others. */
  lemma {:induction false} HeadIsMostUrgent<R>(arrived: seq<Element<R>>)
    requires arrived != []
    ensures var k := MostUrgent(arrived);
            && SortedArrivals(arrived)[0] == arrived[k]
            && SortedArrivals(arrived)[1..] == SortedArrivals(Without(arrived, k))
    decreases |arrived|
  {
    var last := |arrived| - 1;
    var front, e := arrived[..last], arrived[last];
    var sorted := SortedArrivals(front);
    assert arrived == front + [e];
    LaterArrival(front, e);
    if front == [] {
      InsertInFront(sorted, e);
      WithoutLatest(front, e);
    } else {
      HeadIsMostUrgent(front);
      if sorted[0].priority >= e.priority {
        InsertBehind(sorted, e);
        WithoutEarlier(front, e, MostUrgent(front));
        LaterArrival(Without(front, MostUrgent(front)), e);
      } else {
        InsertInFront(sorted, e);
        WithoutLatest(front, e);
      }
    }
  }

  /**
   * Over any sequence of operations the sorted array answers as the list of arrivals does: highest
   * priority first, and elements of equal priority in the order in which they were added.
   */
  lemma {:induction false} ServesMostUrgentFirst<R>(arrived: seq<Element<R>>, ops: seq<Op<R>>)
    ensures ServeSorted(SortedArrivals(arrived), ops) == ServeUrgent(arrived, ops)
    decreases |ops|
  {
    if ops != [] {
      match ops[0]
      case Enq(e) =>
        assert (arrived + [e])[..|arrived|] == arrived;
        ServesMostUrgentFirst(arrived + [e], ops[1..]);
      case Deq =>
        if arrived == [] {
          ServesMostUrgentFirst(arrived, ops[1..]);
        } else {
          HeadIsMostUrgent(arrived);
          ServesMostUrgentFirst(Without(arrived, MostUrgent(arrived)), ops[1..]);
        }
    }
  }
}
