/**
 * What the HTTP transport hands to the batching client (http.ts, jsonrpc.ts): it checks every answer
 * before, so over HTTP the callback of every request runs exactly once.
 */
module HttpTransport {
  import opened Wrappers
  import opened RpcBatch

  /** The data of an HTTP answer: `null`, an array, or anything else with its version and id. */
  datatype Data = Nothing | Items(items: seq<Data>) | Object(version: string, id: Id, fields: string)

  /** `validateJsonRpcResponse`; false where it raises an exception. Arrays may be nested. */
  predicate IsValidResponse(data: Data) {
    match data
    case Nothing => false
    case Items(items) => forall i :: 0 <= i < |items| ==> IsValidResponse(items[i])
    case Object(version, id, _) => version == "2.0" && (id.Number? || id.Text?)
  }

  /** An element as the client sees it; an array has no id. */
  function ToReply(data: Data): Reply<Data> {
    match data
    case Nothing => Null
    case Items(_) => Message(Missing, data)
    case Object(_, id, _) => Message(id, data)
  }

  /** `sendBatch`: the elements of a valid array, `None` for every exception and a failed request. */
  function SendBatch(answer: Option<Data>): Option<seq<Reply<Data>>> {
    match answer
    case Some(Items(items)) =>
      if IsValidResponse(Items(items))
      then Some(seq(|items|, i requires 0 <= i < |items| => ToReply(items[i])))
      else None
    case _ => None
  }

  /** `leaf` is `data` itself, or stands somewhere in its arrays; it is no array. */
  ghost predicate IsLeaf(leaf: Data, data: Data) {
    match data
    case Items(items) => exists i :: 0 <= i < |items| && IsLeaf(leaf, items[i])
    case _ => leaf == data
  }

  predicate IsMessage(leaf: Data) {
    leaf.Object? && leaf.version == "2.0" && (leaf.id.Number? || leaf.id.Text?)
  }

  lemma {:induction false} ValidLeaf(data: Data, leaf: Data)
    requires IsValidResponse(data) && IsLeaf(leaf, data)
    ensures IsMessage(leaf)
  {
    if data.Items? {
      var i :| 0 <= i < |data.items| && IsLeaf(leaf, data.items[i]);
      ValidLeaf(data.items[i], leaf);
    }
  }

  lemma {:induction false} InvalidLeaf(data: Data) returns (leaf: Data)
    requires !IsValidResponse(data)
    ensures IsLeaf(leaf, data) && !IsMessage(leaf)
  {
    if data.Items? {
      var i :| 0 <= i < |data.items| && !IsValidResponse(data.items[i]);
      leaf := InvalidLeaf(data.items[i]);
    } else {
      leaf := data;
    }
  }

  /** Valid is what holds messages only, however deep its arrays are nested. */
  lemma ValidIff(data: Data)
    ensures IsValidResponse(data) <==> forall leaf :: IsLeaf(leaf, data) ==> IsMessage(leaf)
  {
    if IsValidResponse(data) {
      forall leaf | IsLeaf(leaf, data) ensures IsMessage(leaf) {
        ValidLeaf(data, leaf);
      }
    } else {
      var leaf := InvalidLeaf(data);
    }
  }

  /** How the client sees an element: a message by its own id, an array without one. */
  predicate IsSeenAs(item: Data, reply: Reply<Data>) {
    match item
    case Nothing => reply == Null
    case Items(_) => reply == Message(Missing, item)
    case Object(_, id, _) => reply == Message(id, item)
  }

  /** What `sendBatch` returns: the elements of an array that holds messages only, each as it came. */
  lemma SendBatchIff(answer: Option<Data>, replies: seq<Reply<Data>>)
    ensures SendBatch(answer) == Some(replies) <==>
            && answer.Some? && answer.value.Items? && (forall leaf :: IsLeaf(leaf, answer.value) ==> IsMessage(leaf))
            && |replies| == |answer.value.items| && forall i :: 0 <= i < |replies| ==> IsSeenAs(answer.value.items[i], replies[i])
  {
    if answer.Some? && answer.value.Items? {
      ValidIff(answer.value);
      var items := answer.value.items;
      var all := seq(|items|, i requires 0 <= i < |items| => ToReply(items[i]));
      assert forall i :: 0 <= i < |items| ==> IsSeenAs(items[i], all[i]);
      if |replies| == |items| && forall i :: 0 <= i < |replies| ==> IsSeenAs(items[i], replies[i]) {
        assert replies == all;
      }
    }
  }

  /** Whatever the server answers, `sendBatch` returns no `null`. */
  lemma NoNullOverHttp(answer: Option<Data>, msgId: int, n: nat)
    ensures !AnsweredThenNull(SendBatch(answer), msgId, n)
  {
    if SendBatch(answer).Some? {
      var items, replies := answer.value.items, SendBatch(answer).value;
      forall i | 0 <= i < |replies| ensures replies[i].Message? {
        assert IsValidResponse(items[i]) && replies[i] == ToReply(items[i]);
      }
    }
  }

  /** Every answer came over HTTP. */
  ghost predicate AllOverHttp(xs: seq<Execution<Data>>) {
    forall b :: 0 <= b < |xs| ==> exists answer :: xs[b].answer == SendBatch(answer)
  }

  /**
   * Over HTTP the callback of every request ever submitted runs exactly once, whatever the server
   * answers: errors, no JSON-RPC at all, missing, repeated, reordered or unknown ids, nested arrays.
   */
  lemma DeliveredExactlyOnceOverHttp<R>(maxBatchSize: int, events: seq<Event<R>>, xs: seq<Execution<Data>>)
    requires AreExecutions(HandleAll(maxBatchSize, events + [TimerFires]).sent, xs) && AllOverHttp(xs)
    ensures var sent := HandleAll(maxBatchSize, events + [TimerFires]).sent;
            forall j :: 0 <= j < |Submitted(events)| ==> |CallsFor(CallLog(sent, xs, |sent|), j)| == 1
  {
    var sent := HandleAll(maxBatchSize, events + [TimerFires]).sent;
    forall b | 0 <= b < |sent| ensures !AnsweredThenNull(xs[b].answer, xs[b].msgId, |sent[b]|) {
      var answer :| xs[b].answer == SendBatch(answer);
      NoNullOverHttp(answer, xs[b].msgId, |sent[b]|);
    }
    DeliveredExactlyOnceIff(maxBatchSize, events, xs);
  }

  /** The answer that makes a callback run twice does not get past the transport. */
  lemma NullIsRefused(answer: Option<Data>)
    requires answer.Some? && answer.value.Items? && Nothing in answer.value.items
    ensures SendBatch(answer) == None
  {
    var i :| 0 <= i < |answer.value.items| && answer.value.items[i] == Nothing;
    assert !IsValidResponse(answer.value.items[i]);
  }
}
