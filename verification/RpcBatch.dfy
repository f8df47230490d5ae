/**
 * Batched JSON-RPC requests (eth/client.ts). A callback is named by its request's position in the
 * batch, and the log of callback calls is what the model returns; the answer of the transport is
 * a parameter.
 */
module RpcBatch {
  import opened Wrappers

  /** Response ids may be numbers, strings or missing; only a number can match a request. */
  datatype Id = Number(n: int) | Text(s: string) | Missing

  /** An element of the response array: anything with or without an id, or `null`. */
  datatype Reply<B> = Message(id: Id, body: B) | Null

  datatype Payload<R> = Payload(id: int, request: R)

  datatype Outcome<B> = Response(body: B) | MissingResult | Failure

  datatype Call<B> = Call(index: int, outcome: Outcome<B>)

  // ------------------------------------------------------------------ what each callback sees

  /** The outcomes passed to callback `i`, in order. */
  function CallsFor<B>(calls: seq<Call<B>>, i: int): seq<Outcome<B>> {
    CallsAmong(calls, |calls|, i)
  }

  /** Those among the first `n` calls. */
  function CallsAmong<B>(calls: seq<Call<B>>, n: nat, i: int): seq<Outcome<B>>
    requires n <= |calls|
  {
    if n == 0 then []
    else CallsAmong(calls, n - 1, i) + (if calls[n - 1].index == i then [calls[n - 1].outcome] else [])
  }

  lemma {:induction false} CallsInPrefix<B>(calls: seq<Call<B>>, more: seq<Call<B>>, n: nat, i: int)
    requires n <= |calls|
    ensures CallsAmong(calls + more, n, i) == CallsAmong(calls, n, i)
  {
    if n > 0 {
      CallsInPrefix(calls, more, n - 1, i);
    }
  }

  lemma AppendCall<B>(calls: seq<Call<B>>, c: Call<B>, i: int)
    ensures CallsFor(calls + [c], i) == CallsFor(calls, i) + (if c.index == i then [c.outcome] else [])
  {
    CallsInPrefix(calls, [c], |calls|, i);
  }

  /** The first of the first `n` replies that carries `id`. */
  function FirstFor<B>(replies: seq<Reply<B>>, n: nat, id: int): Option<B>
    requires n <= |replies|
  {
    if n == 0 then None
    else
      var before := FirstFor(replies, n - 1, id);
      if before.Some? then before
      else if replies[n - 1].Message? && replies[n - 1].id == Number(id) then Some(replies[n - 1].body)
      else None
  }

  /** The number of replies before the first `null`. */
  function Readable<B>(replies: seq<Reply<B>>): (n: nat)
    ensures n <= |replies| && forall k :: 0 <= k < n ==> replies[k].Message?
    ensures n < |replies| ==> replies[n].Null?
  {
    if replies == [] || replies[0].Null? then 0 else 1 + Readable(replies[1..])
  }

  function Answered<B>(first: Option<B>): seq<Outcome<B>> {
    if first.Some? then [Response(first.value)] else []
  }

  /**
   * What the callback of the request with this id sees: the first response with its own id; an
   * error if there is none; an error if the transport failed. A `null` among the responses makes
   * every callback see an error, also those that have seen their response.
   */
  function Seen<B>(answer: Option<seq<Reply<B>>>, id: int): seq<Outcome<B>> {
    if answer.None? then [Failure]
    else
      var readable := Readable(answer.value);
      var first := FirstFor(answer.value, readable, id);
      if readable < |answer.value| then Answered(first) + [Failure]
      else if first.Some? then [Response(first.value)]
      else [MissingResult]
  }

  // ------------------------------------------------------------------ executeBatchRequest

  /** The `catch` branch: every callback of the batch is called with the error. */
  method FailAll<B>(n: nat, before: seq<Call<B>>) returns (calls: seq<Call<B>>)
    ensures forall i :: 0 <= i < n ==> CallsFor(calls, i) == CallsFor(before, i) + [Failure]
    ensures |calls| == |before| + n && before <= calls
    ensures forall k :: |before| <= k < |calls| ==> 0 <= calls[k].index < n
  {
    calls := before;
    for j := 0 to n
      invariant |calls| == |before| + j && before <= calls
      invariant forall k :: |before| <= k < |calls| ==> 0 <= calls[k].index < n
      invariant forall i :: 0 <= i < j ==> CallsFor(calls, i) == CallsFor(before, i) + [Failure]
      invariant forall i :: j <= i < n ==> CallsFor(calls, i) == CallsFor(before, i)
    {
      forall i | 0 <= i < n {
        AppendCall(calls, Call(j, Failure), i);
      }
      calls := calls + [Call(j, Failure)];
    }
  }

  /** One payload per request with a fresh id each, and the map from ids to positions. */
  method CreatePayloads<R>(batch: seq<R>, msgId: int) returns (payloads: seq<Payload<R>>, items: map<int, int>)
    ensures |payloads| == |batch|
    ensures forall i :: 0 <= i < |batch| ==> payloads[i] == Payload(msgId + 1 + i, batch[i])
    ensures forall id :: id in items <==> msgId < id <= msgId + |batch|
    ensures forall id :: id in items ==> items[id] == id - msgId - 1
  {
    payloads, items := [], map[];
    for i := 0 to |batch|
      invariant |payloads| == i
      invariant forall k :: 0 <= k < i ==> payloads[k] == Payload(msgId + 1 + k, batch[k])
      invariant forall id :: id in items <==> msgId < id <= msgId + i
      invariant forall id :: id in items ==> items[id] == id - msgId - 1
    {
      payloads := payloads + [Payload(msgId + 1 + i, batch[i])];
      items := items[msgId + 1 + i := i];
    }
  }

  /** The entries left in the map, in insertion order. */
  method ReportMissing<B>(n: nat, msgId: int, items: map<int, int>, before: seq<Call<B>>) returns (calls: seq<Call<B>>)
    requires forall id :: id in items ==> msgId < id <= msgId + n && items[id] == id - msgId - 1
    requires forall k :: 0 <= k < |before| ==> 0 <= before[k].index < n
    ensures forall i :: 0 <= i < n ==>
                        CallsFor(calls, i) == CallsFor(before, i) + (if msgId + 1 + i in items then [MissingResult] else [])
    ensures forall k :: 0 <= k < |calls| ==> 0 <= calls[k].index < n
  {
    calls := before;
    for j := 0 to n
      invariant forall k :: 0 <= k < |calls| ==> 0 <= calls[k].index < n
      invariant forall i :: 0 <= i < j ==>
                            CallsFor(calls, i) == CallsFor(before, i) + (if msgId + 1 + i in items then [MissingResult] else [])
      invariant forall i :: j <= i < n ==> CallsFor(calls, i) == CallsFor(before, i)
    {
      var id := msgId + 1 + j;
      if id in items {
        forall i | 0 <= i < n {
          AppendCall(calls, Call(items[id], MissingResult), i);
        }
        calls := calls + [Call(items[id], MissingResult)];
      }
    }
  }

  /** Ids still in the map have not been answered, and the log says so for every callback. */
  ghost predicate Matches<B>(replies: seq<Reply<B>>, k: nat, msgId: int, n: nat, items: map<int, int>, calls: seq<Call<B>>)
    requires k <= |replies|
  {
    && (forall id :: id in items <==> msgId < id <= msgId + n && FirstFor(replies, k, id).None?)
    && (forall id :: id in items ==> items[id] == id - msgId - 1)
    && (forall i :: 0 <= i < n ==> CallsFor(calls, i) == Answered(FirstFor(replies, k, msgId + 1 + i)))
    && (forall j :: 0 <= j < |calls| ==> 0 <= calls[j].index < n)
  }

  lemma MatchesHit<B>(replies: seq<Reply<B>>, k: nat, msgId: int, n: nat, items: map<int, int>, calls: seq<Call<B>>, id: int)
    requires k < |replies| && Matches(replies, k, msgId, n, items, calls)
    requires replies[k].Message? && replies[k].id == Number(id) && id in items
    ensures Matches(replies, k + 1, msgId, n, items - {id}, calls + [Call(items[id], Response(replies[k].body))])
  {
    var c := Call(items[id], Response(replies[k].body));
    forall i | 0 <= i < n
      ensures CallsFor(calls + [c], i) == Answered(FirstFor(replies, k + 1, msgId + 1 + i))
    {
      AppendCall(calls, c, i);
    }
  }

  lemma MatchesMiss<B>(replies: seq<Reply<B>>, k: nat, msgId: int, n: nat, items: map<int, int>, calls: seq<Call<B>>)
    requires k < |replies| && Matches(replies, k, msgId, n, items, calls)
    requires replies[k].Message? && (replies[k].id.Number? ==> replies[k].id.n !in items)
    ensures Matches(replies, k + 1, msgId, n, items, calls)
  {
    forall id | msgId < id <= msgId + n
      ensures FirstFor(replies, k + 1, id) == FirstFor(replies, k, id)
    {
      assert id in items <==> FirstFor(replies, k, id).None?;
    }
    forall i | 0 <= i < n
      ensures CallsFor(calls, i) == Answered(FirstFor(replies, k + 1, msgId + 1 + i))
    {
      assert FirstFor(replies, k + 1, msgId + 1 + i) == FirstFor(replies, k, msgId + 1 + i);
    }
  }

  lemma SeenIfComplete<B>(replies: seq<Reply<B>>, msgId: int, n: nat, items: map<int, int>,
                          before: seq<Call<B>>, calls: seq<Call<B>>)
    requires Readable(replies) == |replies| && Matches(replies, |replies|, msgId, n, items, before)
    requires forall i :: 0 <= i < n ==>
                         CallsFor(calls, i) == CallsFor(before, i) + (if msgId + 1 + i in items then [MissingResult] else [])
    ensures forall i :: 0 <= i < n ==> CallsFor(calls, i) == Seen(Some(replies), msgId + 1 + i)
  {
    forall i | 0 <= i < n
      ensures CallsFor(calls, i) == Seen(Some(replies), msgId + 1 + i)
    {
      assert msgId + 1 + i in items <==> FirstFor(replies, |replies|, msgId + 1 + i).None?;
    }
  }

  /**
   * The `try` block after the answer has arrived. It throws on reading the id of a `null`, after
   * the callbacks of the responses before that have run.
   */
  method HandleReplies<B>(replies: seq<Reply<B>>, msgId: int, n: nat, items: map<int, int>) returns (calls: seq<Call<B>>, threw: bool)
    requires forall id :: id in items <==> msgId < id <= msgId + n
    requires forall id :: id in items ==> items[id] == id - msgId - 1
    ensures threw <==> Readable(replies) < |replies|
    ensures threw ==> forall i :: 0 <= i < n ==>
                                  CallsFor(calls, i) == Answered(FirstFor(replies, Readable(replies), msgId + 1 + i))
    ensures !threw ==> forall i :: 0 <= i < n ==> CallsFor(calls, i) == Seen(Some(replies), msgId + 1 + i)
    ensures forall k :: 0 <= k < |calls| ==> 0 <= calls[k].index < n
  {
    var left := items;
    calls := [];
    for k := 0 to |replies|
      invariant k <= Readable(replies)
      invariant Matches(replies, k, msgId, n, left, calls)
    {
      var reply := replies[k];
      if reply.Null? {
        assert Readable(replies) == k;
        return calls, true;
      }
      if reply.id.Number? && reply.id.n in left {
        MatchesHit(replies, k, msgId, n, left, calls, reply.id.n);
        calls := calls + [Call(left[reply.id.n], Response(reply.body))];
        left := left - {reply.id.n};
      } else {
        MatchesMiss(replies, k, msgId, n, left, calls);
      }
    }
    ghost var before := calls;
    calls := ReportMissing(n, msgId, left, calls);
    SeenIfComplete(replies, msgId, n, left, before, calls);
    threw := false;
  }

  /** One batch of `n` requests: the answer to it, the id counter before, and the callback calls. */
  datatype Execution<B> = Execution(answer: Option<seq<Reply<B>>>, msgId: int, calls: seq<Call<B>>)

  /** Each callback saw what the answer holds for its own id, and no other callback was called. */
  ghost predicate IsExecution<B>(n: nat, x: Execution<B>) {
    && (forall i :: 0 <= i < n ==> CallsFor(x.calls, i) == Seen(x.answer, x.msgId + 1 + i))
    && (forall k :: 0 <= k < |x.calls| ==> 0 <= x.calls[k].index < n)
  }

  /**
   * `executeBatchRequest`: what is sent, every callback call in order, and the id counter after.
   * Whatever the transport answers, callback `i` sees exactly `Seen` of its own id.
   */
  method ExecuteBatchRequest<R, B>(batch: seq<R>, msgId: int, answer: Option<seq<Reply<B>>>)
    returns (payloads: seq<Payload<R>>, calls: seq<Call<B>>, lastId: int)
    ensures lastId == msgId + |batch| && |payloads| == |batch|
    ensures forall i :: 0 <= i < |batch| ==> payloads[i] == Payload(msgId + 1 + i, batch[i])
    ensures IsExecution(|batch|, Execution(answer, msgId, calls))
  {
    var items;
    payloads, items := CreatePayloads(batch, msgId);
    lastId := msgId + |batch|;
    var threw := answer.None?;
    calls := [];
    if answer.Some? {
      calls, threw := HandleReplies(answer.value, msgId, |batch|, items);
    }
    if threw {
      calls := FailAll(|batch|, calls);
    }
  }

  // ------------------------------------------------------------------ exactly once

  lemma {:induction false} FirstForIff<B>(replies: seq<Reply<B>>, n: nat, id: int)
    requires n <= |replies|
    ensures FirstFor(replies, n, id).Some? <==>
            exists k :: 0 <= k < n && replies[k].Message? && replies[k].id == Number(id)
    ensures forall k :: 0 <= k < n && replies[k].Message? && replies[k].id == Number(id)
                        && (forall j :: 0 <= j < k && replies[j].Message? ==> replies[j].id != Number(id))
                        ==> FirstFor(replies, n, id) == Some(replies[k].body)
  {
    if n > 0 {
      FirstForIff(replies, n - 1, id);
    }
  }

  /** Some request of the batch got its response before the array turned out to hold a `null`. */
  ghost predicate AnsweredThenNull<B>(answer: Option<seq<Reply<B>>>, msgId: int, n: nat) {
    answer.Some? && exists k, p :: IsAnswerThenNull(answer.value, msgId, n, k, p)
  }

  ghost predicate IsAnswerThenNull<B>(replies: seq<Reply<B>>, msgId: int, n: nat, k: int, p: int) {
    && 0 <= k < p < |replies|
    && replies[p].Null? && (forall j :: 0 <= j < p ==> replies[j].Message?)
    && replies[k].id.Number? && msgId < replies[k].id.n <= msgId + n
  }

  /**
   * Every callback of the batch runs exactly once, for missing, repeated, reordered or unknown ids
   * and for a failed transport, unless a `null` follows a delivered response.
   */
  lemma CalledExactlyOnceIff<B>(answer: Option<seq<Reply<B>>>, msgId: int, n: nat)
    ensures (forall id :: msgId < id <= msgId + n ==> |Seen(answer, id)| == 1) <==> !AnsweredThenNull(answer, msgId, n)
  {
    if answer.Some? {
      var replies := answer.value;
      var p := Readable(replies);
      forall id | msgId < id <= msgId + n
        ensures |Seen(answer, id)| == 1 || AnsweredThenNull(answer, msgId, n)
      {
        FirstForIff(replies, p, id);
        if p < |replies| && FirstFor(replies, p, id).Some? {
          var k :| 0 <= k < p && replies[k].Message? && replies[k].id == Number(id);
          assert IsAnswerThenNull(replies, msgId, n, k, p);
        }
      }
      if AnsweredThenNull(answer, msgId, n) {
        var k, q :| IsAnswerThenNull(replies, msgId, n, k, q);
        assert q == p;
        FirstForIff(replies, p, replies[k].id.n);
        assert |Seen(answer, replies[k].id.n)| == 2;
      }
    }
  }

  /** An answered request sees a response with its own id, and no request sees another's. */
  lemma SeesOwnResponse<B>(answer: Option<seq<Reply<B>>>, id: int, body: B)
    requires Response(body) in Seen(answer, id)
    ensures answer.Some? && Message(Number(id), body) in answer.value
  {
    var replies := answer.value;
    OwnBody(replies, Readable(replies), id);
  }

  lemma {:induction false} OwnBody<B>(replies: seq<Reply<B>>, n: nat, id: int)
    requires n <= |replies|
    ensures FirstFor(replies, n, id).Some? ==> Message(Number(id), FirstFor(replies, n, id).value) in replies
  {
    if n > 0 {
      OwnBody(replies, n - 1, id);
    }
  }

  // ------------------------------------------------------------------ the request queue

  /** The queue, whether the flush timer is armed, and the batches handed to the transport. */
  datatype Batching<R> = Batching(queue: seq<R>, armed: bool, sent: seq<seq<R>>)

  /** A call of `request`, or the timer going off; the latter only happens while it is armed. */
  datatype Event<R> = Submit(request: R) | TimerFires

  function Flush<R>(s: Batching<R>): Batching<R> {
    Batching([], false, if s.queue == [] then s.sent else s.sent + [s.queue])
  }

  function Handle<R>(s: Batching<R>, maxBatchSize: int, e: Event<R>): Batching<R> {
    match e
    case TimerFires => if s.armed then Flush(s) else s
    case Submit(request) =>
      var queue := s.queue + [request];
      if |queue| >= maxBatchSize then Flush(s.(queue := queue)) else Batching(queue, true, s.sent)
  }

  function HandleAll<R>(maxBatchSize: int, events: seq<Event<R>>): Batching<R> {
    if events == [] then Batching([], false, [])
    else Handle(HandleAll(maxBatchSize, events[..|events| - 1]), maxBatchSize, events[|events| - 1])
  }

  function Submitted<R>(events: seq<Event<R>>): seq<R> {
    if events == [] then []
    else
      var last := events[|events| - 1];
      Submitted(events[..|events| - 1]) + (if last.Submit? then [last.request] else [])
  }

  function Concat<R>(batches: seq<seq<R>>): seq<R> {
    if batches == [] then [] else Concat(batches[..|batches| - 1]) + batches[|batches| - 1]
  }

  class BatchedEthereumClient<R> {
    const maxBatchSize: int
    var queue: seq<R>
    var flushTimer: bool
    ghost var sent: seq<seq<R>>

    ghost function View(): Batching<R>
      reads this
    {
      Batching(queue, flushTimer, sent)
    }

    constructor (maxBatchSize: int)
      ensures this.maxBatchSize == maxBatchSize && View() == HandleAll(maxBatchSize, [])
    {
      this.maxBatchSize := maxBatchSize;
      queue, flushTimer, sent := [], false, [];
    }

    /** `request` without `immediate`. The batch returned is the one sent at once, if any. */
    method Request(r: R) returns (batch: Option<seq<R>>)
      modifies this
      ensures View() == Handle(old(View()), maxBatchSize, Submit(r))
      ensures sent == old(sent) + (if batch.Some? then [batch.value] else [])
    {
      queue := queue + [r];
      batch := ScheduleFlush();
    }

    method ScheduleFlush() returns (batch: Option<seq<R>>)
      modifies this
      ensures View() == if |old(queue)| >= maxBatchSize then Flush(old(View())) else old(View()).(armed := true)
      ensures sent == old(sent) + (if batch.Some? then [batch.value] else [])
    {
      if |queue| >= maxBatchSize {
        batch := ProcessQueue();
        return;
      }
      if !flushTimer {
        flushTimer := true;
      }
      batch := None;
    }

    /** Also the callback of the flush timer. */
    method ProcessQueue() returns (batch: Option<seq<R>>)
      modifies this
      ensures View() == Flush(old(View()))
      ensures sent == old(sent) + (if batch.Some? then [batch.value] else [])
    {
      if flushTimer {
        flushTimer := false;
      }
      if |queue| == 0 {
        return None;
      }
      batch := Some(queue);
      sent := sent + [queue];
      queue := [];
    }
  }

  // ------------------------------------------------------------------ every history

  function BatchLimit(maxBatchSize: int): int {
    if maxBatchSize > 1 then maxBatchSize else 1
  }

  lemma AppendBatch<R>(batches: seq<seq<R>>, batch: seq<R>)
    ensures Concat(batches + [batch]) == Concat(batches) + batch
  {
    assert (batches + [batch])[..|batches|] == batches;
  }

  lemma HandleKeepsOrder<R>(s: Batching<R>, maxBatchSize: int, e: Event<R>)
    ensures var after := Handle(s, maxBatchSize, e);
            Concat(after.sent) + after.queue
            == (Concat(s.sent) + s.queue) + (if e.Submit? then [e.request] else [])
  {
    var queue := if e.Submit? then s.queue + [e.request] else s.queue;
    AppendBatch(s.sent, queue);
    assert Concat(s.sent) + queue == (Concat(s.sent) + s.queue) + (if e.Submit? then [e.request] else []);
  }

  predicate IsTimely<R>(s: Batching<R>, maxBatchSize: int) {
    && (s.armed <==> s.queue != [])
    && (s.queue != [] ==> |s.queue| < maxBatchSize)
    && forall b :: 0 <= b < |s.sent| ==> 0 < |s.sent[b]| <= BatchLimit(maxBatchSize)
  }

  lemma HandleStaysTimely<R>(s: Batching<R>, maxBatchSize: int, e: Event<R>)
    requires IsTimely(s, maxBatchSize)
    ensures IsTimely(Handle(s, maxBatchSize, e), maxBatchSize)
  {
    if e.Submit? {
      assert |s.queue + [e.request]| <= BatchLimit(maxBatchSize);
    }
  }

  /**
   * After any history: requests leave in the order they came and none is lost or repeated, the
   * timer is armed exactly while something waits, and no batch is empty or over the limit.
   */
  lemma {:induction false} QueueInvariant<R>(maxBatchSize: int, events: seq<Event<R>>)
    ensures var s := HandleAll(maxBatchSize, events);
            Concat(s.sent) + s.queue == Submitted(events) && IsTimely(s, maxBatchSize)
  {
    if events != [] {
      var front, e := events[..|events| - 1], events[|events| - 1];
      var before := HandleAll(maxBatchSize, front);
      QueueInvariant(maxBatchSize, front);
      HandleKeepsOrder(before, maxBatchSize, e);
      HandleStaysTimely(before, maxBatchSize, e);
      assert HandleAll(maxBatchSize, events) == Handle(before, maxBatchSize, e);
    }
  }

  /** When the timer goes off, everything submitted so far has been sent, and nothing waits. */
  lemma TimerSendsEverything<R>(maxBatchSize: int, events: seq<Event<R>>)
    ensures Concat(HandleAll(maxBatchSize, events + [TimerFires]).sent) == Submitted(events)
    ensures HandleAll(maxBatchSize, events + [TimerFires]).queue == []
  {
    var longer := events + [TimerFires];
    assert longer[..|events|] == events;
    QueueInvariant(maxBatchSize, events);
    QueueInvariant(maxBatchSize, longer);
  }

  /** The batches with fewer requests than the limit. */
  function ShortBatches<R>(sent: seq<seq<R>>, limit: int): nat {
    if sent == [] then 0
    else ShortBatches(sent[..|sent| - 1], limit) + if |sent[|sent| - 1]| < limit then 1 else 0
  }

  function TimerCalls<R>(events: seq<Event<R>>): nat {
    if events == [] then 0
    else TimerCalls(events[..|events| - 1]) + if events[|events| - 1].TimerFires? then 1 else 0
  }

  lemma OneMoreBatch<R>(sent: seq<seq<R>>, batch: seq<R>, limit: int)
    ensures ShortBatches(sent + [batch], limit) == ShortBatches(sent, limit) + if |batch| < limit then 1 else 0
  {
    assert (sent + [batch])[..|sent|] == sent;
  }

  /** Requests are held back: a batch goes out before it is full only when the timer goes off. */
  lemma {:induction false} ShortOnlyByTimer<R>(maxBatchSize: int, events: seq<Event<R>>)
    ensures ShortBatches(HandleAll(maxBatchSize, events).sent, maxBatchSize) <= TimerCalls(events)
    decreases |events|
  {
    if events != [] {
      var front, e := events[..|events| - 1], events[|events| - 1];
      var before := HandleAll(maxBatchSize, front);
      ShortOnlyByTimer(maxBatchSize, front);
      OneMoreBatch(before.sent, if e.Submit? then before.queue + [e.request] else before.queue, maxBatchSize);
    }
  }

  /** Without the timer all batches are full, and what does not fill another one waits. */
  lemma {:induction false} FullWithoutTimer<R>(maxBatchSize: int, events: seq<Event<R>>)
    requires TimerCalls(events) == 0
    ensures var s, limit := HandleAll(maxBatchSize, events), BatchLimit(maxBatchSize);
            && (forall b :: 0 <= b < |s.sent| ==> |s.sent[b]| == limit)
            && |s.queue| < limit && |events| == limit * |s.sent| + |s.queue|
    decreases |events|
  {
    if events != [] {
      var front := events[..|events| - 1];
      FullWithoutTimer(maxBatchSize, front);
      var before, limit := HandleAll(maxBatchSize, front), BatchLimit(maxBatchSize);
      assert limit * (|before.sent| + 1) == limit * |before.sent| + limit;
    }
  }

  /** How many requests the first `b` batches hold. */
  function Offset<R>(batches: seq<seq<R>>, b: nat): nat
    requires b <= |batches|
  {
    if b == 0 then 0 else Offset(batches, b - 1) + |batches[b - 1]|
  }

  lemma {:induction false} OffsetOfFront<R>(batches: seq<seq<R>>, front: seq<seq<R>>, b: nat)
    requires b <= |front| && front <= batches
    ensures Offset(batches, b) == Offset(front, b)
  {
    if b > 0 {
      OffsetOfFront(batches, front, b - 1);
    }
  }

  /** Request `j` is at position `i` of batch `b`, if the earlier batches hold `j - i` requests. */
  lemma {:induction false} BatchHoldsItsShare<R>(batches: seq<seq<R>>, b: nat, i: nat)
    requires b < |batches| && i < |batches[b]|
    ensures Offset(batches, b) + i < |Concat(batches)| && Concat(batches)[Offset(batches, b) + i] == batches[b][i]
    decreases |batches|
  {
    var front := batches[..|batches| - 1];
    ConcatLength(front);
    if b == |front| {
      OffsetOfFront(batches, front, b);
    } else {
      BatchHoldsItsShare(front, b, i);
      OffsetOfFront(batches, front, b);
    }
  }

  lemma {:induction false} ConcatLength<R>(batches: seq<seq<R>>)
    ensures |Concat(batches)| == Offset(batches, |batches|)
  {
    if batches != [] {
      var front := batches[..|batches| - 1];
      ConcatLength(front);
      OffsetOfFront(batches, front, |front|);
    }
  }

  /** Every request handed over so far is in some batch: where. */
  lemma {:induction false} InSomeBatch<R>(batches: seq<seq<R>>, j: nat) returns (b: nat, i: nat)
    requires j < |Concat(batches)|
    ensures b < |batches| && i < |batches[b]| && Offset(batches, b) + i == j
    decreases |batches|
  {
    var front := batches[..|batches| - 1];
    ConcatLength(front);
    if j < |Concat(front)| {
      b, i := InSomeBatch(front, j);
    } else {
      b, i := |front|, j - |Concat(front)|;
    }
    OffsetOfFront(batches, front, b);
  }

  lemma {:induction false} OffsetGrows<R>(batches: seq<seq<R>>, b: nat, c: nat)
    requires b < c <= |batches|
    ensures Offset(batches, b) + |batches[b]| <= Offset(batches, c)
  {
    if b + 1 < c {
      OffsetGrows(batches, b, c - 1);
    }
  }

  /** And in one place only. */
  lemma InOneBatchOnly<R>(batches: seq<seq<R>>, b: nat, i: nat, c: nat, k: nat)
    requires b < |batches| && i < |batches[b]| && c < |batches| && k < |batches[c]|
    requires Offset(batches, b) + i == Offset(batches, c) + k
    ensures b == c && i == k
  {
    if b < c {
      OffsetGrows(batches, b, c);
    } else if c < b {
      OffsetGrows(batches, c, b);
    }
  }

  // ------------------------------------------------------------ all callbacks of a history

  ghost predicate AreExecutions<R, B>(sent: seq<seq<R>>, xs: seq<Execution<B>>) {
    |xs| == |sent| && forall b :: 0 <= b < |sent| ==> IsExecution(|sent[b]|, xs[b])
  }

  function Shifted<B>(calls: seq<Call<B>>, offset: int): (r: seq<Call<B>>)
    ensures |r| == |calls|
    ensures forall k :: 0 <= k < |r| ==> r[k] == calls[k].(index := calls[k].index + offset)
  {
    seq(|calls|, k requires 0 <= k < |calls| => calls[k].(index := calls[k].index + offset))
  }

  /** All calls for the first `n` batches, naming callbacks by the position of their request in the history. */
  function CallLog<R, B>(sent: seq<seq<R>>, xs: seq<Execution<B>>, n: nat): seq<Call<B>>
    requires |xs| == |sent| && n <= |sent|
  {
    if n == 0 then [] else CallLog(sent, xs, n - 1) + Shifted(xs[n - 1].calls, Offset(sent, n - 1))
  }

  lemma {:induction false} CallsForConcat<B>(x: seq<Call<B>>, y: seq<Call<B>>, n: nat, j: int)
    requires n <= |y|
    ensures CallsAmong(x + y, |x| + n, j) == CallsFor(x, j) + CallsAmong(y, n, j)
  {
    if n == 0 {
      CallsInPrefix(x, y, |x|, j);
    } else {
      CallsForConcat(x, y, n - 1, j);
      assert (x + y)[|x| + n - 1] == y[n - 1];
    }
  }

  lemma {:induction false} CallsForShifted<B>(calls: seq<Call<B>>, offset: int, n: nat, i: int)
    requires n <= |calls|
    ensures CallsAmong(Shifted(calls, offset), n, i + offset) == CallsAmong(calls, n, i)
  {
    if n > 0 {
      CallsForShifted(calls, offset, n - 1, i);
    }
  }

  lemma {:induction false} NotCalled<B>(calls: seq<Call<B>>, n: nat, i: int)
    requires n <= |calls| && forall k :: 0 <= k < n ==> calls[k].index != i
    ensures CallsAmong(calls, n, i) == []
  {
    if n > 0 {
      NotCalled(calls, n - 1, i);
    }
  }

  lemma NextBatchCalls<R, B>(sent: seq<seq<R>>, xs: seq<Execution<B>>, n: nat, j: int, i: int)
    requires |xs| == |sent| && n < |sent| && j == Offset(sent, n) + i
    ensures CallsFor(xs[n].calls, i) == [] ==> CallsFor(CallLog(sent, xs, n + 1), j) == CallsFor(CallLog(sent, xs, n), j)
    ensures CallsFor(CallLog(sent, xs, n), j) == [] ==> CallsFor(CallLog(sent, xs, n + 1), j) == CallsFor(xs[n].calls, i)
  {
    var calls := xs[n].calls;
    CallsForConcat(CallLog(sent, xs, n), Shifted(calls, Offset(sent, n)), |calls|, j);
    CallsForShifted(calls, Offset(sent, n), |calls|, i);
  }

  predicate StaysInBatch<B>(n: nat, calls: seq<Call<B>>) {
    forall k :: 0 <= k < |calls| ==> 0 <= calls[k].index < n
  }

  predicate AllStayInBatch<R, B>(sent: seq<seq<R>>, xs: seq<Execution<B>>) {
    |xs| == |sent| && forall b :: 0 <= b < |sent| ==> StaysInBatch(|sent[b]|, xs[b].calls)
  }

  /** A batch calls its own callbacks only. */
  lemma OtherBatch<R, B>(sent: seq<seq<R>>, xs: seq<Execution<B>>, n: nat, j: int)
    requires AllStayInBatch(sent, xs) && n < |sent| && !(Offset(sent, n) <= j < Offset(sent, n + 1))
    ensures CallsFor(CallLog(sent, xs, n + 1), j) == CallsFor(CallLog(sent, xs, n), j)
  {
    var i := j - Offset(sent, n);
    NextBatchCalls(sent, xs, n, j, i);
    assert StaysInBatch(|sent[n]|, xs[n].calls);
    NotCalled(xs[n].calls, |xs[n].calls|, i);
  }

  /** Positions of later batches are not called before. */
  lemma {:induction false} NotCalledYet<R, B>(sent: seq<seq<R>>, xs: seq<Execution<B>>, n: nat, j: int)
    requires AllStayInBatch(sent, xs) && n <= |sent| && j >= Offset(sent, n)
    ensures CallsFor(CallLog(sent, xs, n), j) == []
  {
    if n > 0 {
      NotCalledYet(sent, xs, n - 1, j);
      OtherBatch(sent, xs, n - 1, j);
    }
  }

  /** In the log of the whole history each callback is called as in its own batch, and not otherwise. */
  lemma {:induction false} CalledByOwnBatch<R, B>(sent: seq<seq<R>>, xs: seq<Execution<B>>, n: nat, b: nat, i: nat)
    requires AllStayInBatch(sent, xs) && b < n <= |sent| && i < |sent[b]|
    ensures CallsFor(CallLog(sent, xs, n), Offset(sent, b) + i) == CallsFor(xs[b].calls, i)
  {
    if b == n - 1 {
      CalledByLastBatch(sent, xs, b, i);
    } else {
      CalledByOwnBatch(sent, xs, n - 1, b, i);
      OffsetGrows(sent, b, n - 1);
      OtherBatch(sent, xs, n - 1, Offset(sent, b) + i);
    }
  }

  lemma CalledByLastBatch<R, B>(sent: seq<seq<R>>, xs: seq<Execution<B>>, b: nat, i: nat)
    requires AllStayInBatch(sent, xs) && b < |sent| && i < |sent[b]|
    ensures CallsFor(CallLog(sent, xs, b + 1), Offset(sent, b) + i) == CallsFor(xs[b].calls, i)
  {
    NotCalledYet(sent, xs, b, Offset(sent, b) + i);
    NextBatchCalls(sent, xs, b, Offset(sent, b) + i, i);
  }

  lemma SeenInHistory<R, B>(sent: seq<seq<R>>, xs: seq<Execution<B>>, b: nat, i: nat)
    requires AreExecutions(sent, xs) && b < |sent| && i < |sent[b]|
    ensures CallsFor(CallLog(sent, xs, |sent|), Offset(sent, b) + i) == Seen(xs[b].answer, xs[b].msgId + 1 + i)
  {
    assert AllStayInBatch(sent, xs);
    CalledByOwnBatch(sent, xs, |sent|, b, i);
  }

  /** No batch was answered with a `null` after a delivered response. */
  ghost predicate NoneCutShort<R, B>(sent: seq<seq<R>>, xs: seq<Execution<B>>)
    requires |xs| == |sent|
  {
    forall b :: 0 <= b < |sent| ==> !AnsweredThenNull(xs[b].answer, xs[b].msgId, |sent[b]|)
  }

  lemma BatchCalledOnce<R, B>(sent: seq<seq<R>>, xs: seq<Execution<B>>, j: nat)
    requires AreExecutions(sent, xs) && NoneCutShort(sent, xs) && j < |Concat(sent)|
    ensures |CallsFor(CallLog(sent, xs, |sent|), j)| == 1
  {
    var b, i := InSomeBatch(sent, j);
    SeenInHistory(sent, xs, b, i);
    CalledExactlyOnceIff(xs[b].answer, xs[b].msgId, |sent[b]|);
  }

  lemma CutShortInBatch<B>(answer: Option<seq<Reply<B>>>, msgId: int, n: nat) returns (i: nat)
    requires AnsweredThenNull(answer, msgId, n)
    ensures i < n && |Seen(answer, msgId + 1 + i)| != 1
  {
    CalledExactlyOnceIff(answer, msgId, n);
    var id :| msgId < id <= msgId + n && |Seen(answer, id)| != 1;
    i := id - msgId - 1;
  }

  lemma CutShortNotOnce<R, B>(sent: seq<seq<R>>, xs: seq<Execution<B>>) returns (j: nat)
    requires AreExecutions(sent, xs) && !NoneCutShort(sent, xs)
    ensures j < |Concat(sent)| && |CallsFor(CallLog(sent, xs, |sent|), j)| != 1
  {
    var b :| 0 <= b < |sent| && AnsweredThenNull(xs[b].answer, xs[b].msgId, |sent[b]|);
    var i := CutShortInBatch(xs[b].answer, xs[b].msgId, |sent[b]|);
    j := Offset(sent, b) + i;
    NotOnceAt(sent, xs, b, i, j);
  }

  lemma NotOnceAt<R, B>(sent: seq<seq<R>>, xs: seq<Execution<B>>, b: nat, i: nat, j: nat)
    requires AreExecutions(sent, xs) && b < |sent| && i < |sent[b]| && j == Offset(sent, b) + i
    requires |Seen(xs[b].answer, xs[b].msgId + 1 + i)| != 1
    ensures j < |Concat(sent)| && |CallsFor(CallLog(sent, xs, |sent|), j)| != 1
  {
    SeenInHistory(sent, xs, b, i);
    BatchHoldsItsShare(sent, b, i);
  }

  /**
   * Over any history that ends with the timer, and for any answers to its batches, the callback of
   * every request ever submitted runs exactly once, if and only if no answer is cut short.
   */
  lemma DeliveredExactlyOnceIff<R, B>(maxBatchSize: int, events: seq<Event<R>>, xs: seq<Execution<B>>)
    requires AreExecutions(HandleAll(maxBatchSize, events + [TimerFires]).sent, xs)
    ensures var sent := HandleAll(maxBatchSize, events + [TimerFires]).sent;
            (forall j :: 0 <= j < |Submitted(events)| ==> |CallsFor(CallLog(sent, xs, |sent|), j)| == 1) <==> NoneCutShort(sent, xs)
  {
    var sent := HandleAll(maxBatchSize, events + [TimerFires]).sent;
    TimerSendsEverything(maxBatchSize, events);
    if NoneCutShort(sent, xs) {
      forall j | 0 <= j < |Submitted(events)| ensures |CallsFor(CallLog(sent, xs, |sent|), j)| == 1 {
        BatchCalledOnce(sent, xs, j);
      }
    } else {
      var j := CutShortNotOnce(sent, xs);
    }
  }

  /** The failing case: a response followed by `null` makes the callback run with both outcomes. */
  lemma NullCallsTwice<B>(body: B)
    ensures var answer := Some([Message(Number(1), body), Null]);
            AnsweredThenNull(answer, 0, 1) && Seen(answer, 1) == [Response(body), Failure]
  {
    var replies := [Message(Number(1), body), Null];
    assert IsAnswerThenNull(replies, 0, 1, 0, 1);
    assert Readable(replies) == 1;
    assert FirstFor(replies, 1, 1) == Some(body);
  }
}
