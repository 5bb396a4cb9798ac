/**
 internal/agent/stream_router.go and the retry queue of internal/agent/handler.go: the
 objects, updated in place.  Their concurrent use is the subject of module Relay.
 */
module LiveStreams {
  import opened Wrappers

  const QUEUE_CAP := 64

  /** A message to the control plane.  `queueable`: a terminal deploy status, a backup result or a
      push result, which its sender queues when the send fails. */
  datatype Msg = Msg(id: nat, queueable: bool)

  /** What one Send on a stream answers; Poison is the invalid UTF-8 marshalling error. */
  datatype SendResult = Sent | Broken | Poison

  /** What a detach leaves live: a late teardown of an old connection does not unset a newer one. */
  function Cleared<S(==)>(current: Option<S>, gone: S): Option<S> {
    if current == Some(gone) then None else current
  }

  /** One connection's stream. */
  class LiveStream {
    constructor () {}
  }

  class StreamRouter {
    var current: Option<LiveStream>

    constructor ()
      ensures current == None
    {
      current := None;
    }

    method Attach() returns (ls: LiveStream)
      modifies this
      ensures fresh(ls) && current == Some(ls)
    {
      ls := new LiveStream();
      current := Some(ls);
    }

    method Detach(ls: LiveStream)
      modifies this
      ensures current == Cleared(old(current), ls)
    {
      if current == Some(ls) {
        current := None;
      }
    }
  }

  /** queuePendingResult on the queue's contents. */
  function Queued(queue: seq<Msg>, msg: Msg): seq<Msg> {
    if |queue| < QUEUE_CAP then queue + [msg] else queue
  }

  /** The messages of a batch whose send got the given answer, in order. */
  function Answered(batch: seq<Msg>, answers: seq<SendResult>, answer: SendResult): (r: seq<Msg>)
    requires |answers| == |batch|
    ensures |r| <= |batch|
  {
    if batch == [] then []
    else
      var last := |batch| - 1;
      Answered(batch[..last], answers[..last], answer) + if answers[last] == answer then [batch[last]] else []
  }

  /** Every message of a batch gets exactly one answer: its copies are the sent, the re-queued and the poisoned. */
  lemma {:induction false} AnswersPartition(batch: seq<Msg>, answers: seq<SendResult>, m: Msg)
    requires |answers| == |batch|
    ensures multiset(batch)[m] == multiset(Answered(batch, answers, Sent))[m] + multiset(Answered(batch, answers, Broken))[m] +
                                  multiset(Answered(batch, answers, Poison))[m]
  {
    if batch != [] {
      var last := |batch| - 1;
      AnswersPartition(batch[..last], answers[..last], m);
      CopiesSnoc(batch, m);
      AnsweredSnoc(batch, answers, Sent, m);
      AnsweredSnoc(batch, answers, Broken, m);
      AnsweredSnoc(batch, answers, Poison, m);
    }
  }

  lemma CopiesSnoc(batch: seq<Msg>, m: Msg)
    requires batch != []
    ensures var last := |batch| - 1; multiset(batch)[m] == multiset(batch[..last])[m] + if batch[last] == m then 1 else 0
  {
    assert batch == batch[..|batch| - 1] + [batch[|batch| - 1]];
  }

  lemma AnsweredSnoc(batch: seq<Msg>, answers: seq<SendResult>, answer: SendResult, m: Msg)
    requires |answers| == |batch| && batch != []
    ensures var last := |batch| - 1;
            multiset(Answered(batch, answers, answer))[m] ==
              multiset(Answered(batch[..last], answers[..last], answer))[m] +
              if answers[last] == answer && batch[last] == m then 1 else 0
  {
  }

  class ResultQueue {
    var pendingResults: seq<Msg>

    predicate Valid()
      reads this
    {
      |pendingResults| <= QUEUE_CAP
    }

    constructor ()
      ensures Valid() && pendingResults == []
    {
      pendingResults := [];
    }

    method QueuePendingResult(msg: Msg)
      requires Valid()
      modifies this
      ensures Valid() && pendingResults == Queued(old(pendingResults), msg)
      ensures pendingResults == if |old(pendingResults)| <= 63 then old(pendingResults) + [msg] else old(pendingResults)
    {
      if |pendingResults| < 64 {
        pendingResults := pendingResults + [msg];
      }
    }

    /** DrainPendingResults with no other sender: broken sends are re-queued in order and none is
        lost, whatever the answers. */
    method DrainPendingResults(answers: seq<SendResult>) returns (sent: seq<Msg>)
      requires Valid() && |answers| == |pendingResults|
      modifies this
      ensures Valid()
      ensures pendingResults == Answered(old(pendingResults), answers, Broken)
      ensures sent == Answered(old(pendingResults), answers, Sent)
    {
      var results := pendingResults;
      pendingResults := [];
      sent := [];
      for i := 0 to |results|
        invariant Valid()
        invariant pendingResults == Answered(results[..i], answers[..i], Broken)
        invariant sent == Answered(results[..i], answers[..i], Sent)
      {
        assert results[..i + 1][..i] == results[..i] && answers[..i + 1][..i] == answers[..i];
        match answers[i] {
          case Poison =>
          case Broken => QueuePendingResult(results[i]);
          case Sent => sent := sent + [results[i]];
        }
      }
      assert results[..|results|] == results && answers[..|results|] == answers;
    }
  }
}
