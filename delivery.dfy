/**
 * What one pass of the delivery loop does with its working list, as values.
 *
 * The sends of a pass are numbered base, base + 1, ... (base is the number
 * of RPCs the daemon received before the pass), and answers.At(n) is the status
 * of the n-th RPC. The pass sends front to back; an OK or a failure other
 * than UNAVAILABLE drops the event; the first UNAVAILABLE puts that event
 * and everything after it back on the queue and ends the pass.
 */
module Delivery {
  import opened Hooks
  import opened Dispatch

  function Min(a: nat, b: nat): nat
  {
    if a <= b then a else b
  }

  /**
   * The index in the working list of the first send answered UNAVAILABLE,
   * or |working| when no send of the pass is.
   */
  function RetryPoint(working: seq<HookEvent>, answers: Answers, base: nat): (k: nat)
    ensures k <= |working|
    ensures forall j | base <= j < base + k :: !answers.At(j).IsUnavailable()
    ensures k < |working| ==> answers.At(base + k).IsUnavailable()
    decreases |working|
  {
    if working == [] || answers.At(base).IsUnavailable() then 0
    else 1 + RetryPoint(working[1..], answers, base + 1)
  }

  /** No UNAVAILABLE comes before the retry point: an UNAVAILABLE at j puts it at j or earlier. */
  lemma RetryPointFirst(working: seq<HookEvent>, answers: Answers, base: nat, j: nat)
    requires j < |working| && answers.At(base + j).IsUnavailable()
    ensures RetryPoint(working, answers, base) <= j
  {
  }

  /** The number of sends the pass makes: up to and including the retry point. */
  function SentCount(working: seq<HookEvent>, answers: Answers, base: nat): nat
  {
    Min(RetryPoint(working, answers, base) + 1, |working|)
  }

  /**
   * The events among ws[..n], in order, whose send (that of ws[i] being
   * send base + i) was answered OK when ok holds, and not OK otherwise.
   */
  function Answered(ws: seq<HookEvent>, n: nat, answers: Answers, base: nat, ok: bool): (r: seq<HookEvent>)
    requires n <= |ws|
    ensures |r| <= n
  {
    if n == 0 then []
    else Answered(ws, n - 1, answers, base, ok) + if answers.At(base + n - 1).IsOk() == ok then [ws[n - 1]] else []
  }

  /** The RPCs issued for ws[..n], one per event, in order. */
  function DispatchCalls(ws: seq<HookEvent>, n: nat): (calls: seq<RpcCall>)
    requires n <= |ws|
    ensures |calls| == n
    ensures forall i | 0 <= i < n :: calls[i] == CallFor(ws[i])
  {
    if n == 0 then [] else DispatchCalls(ws, n - 1) + [CallFor(ws[n - 1])]
  }

  /** The events the daemon accepted. */
  function Delivered(working: seq<HookEvent>, answers: Answers, base: nat): seq<HookEvent>
  {
    Answered(working, RetryPoint(working, answers, base), answers, base, true)
  }

  /** The events rejected with a non-transient error, logged and dropped. */
  function Dropped(working: seq<HookEvent>, answers: Answers, base: nat): seq<HookEvent>
  {
    Answered(working, RetryPoint(working, answers, base), answers, base, false)
  }

  /** The tail pushed back onto the queue. */
  function Requeued(working: seq<HookEvent>, answers: Answers, base: nat): seq<HookEvent>
  {
    working[RetryPoint(working, answers, base)..]
  }

  /**
   * The state of a pass that has sent working[..i] without meeting an
   * UNAVAILABLE: sent holds their RPCs, delivered and dropped the events
   * answered OK and the events answered with another error.
   */
  ghost predicate PassInvariant(working: seq<HookEvent>, answers: Answers, base: nat, i: nat,
                                sent: seq<RpcCall>, delivered: seq<HookEvent>, dropped: seq<HookEvent>)
  {
    && i <= |working| && i <= RetryPoint(working, answers, base)
    && sent == DispatchCalls(working, i)
    && delivered == Answered(working, i, answers, base, true)
    && dropped == Answered(working, i, answers, base, false)
  }

  lemma PassStart(working: seq<HookEvent>, answers: Answers, base: nat)
    ensures PassInvariant(working, answers, base, 0, [], [], [])
  {
  }

  /**
   * One step of the pass past event i, whose send was not answered
   * UNAVAILABLE: its RPC is sent and it joins the delivered or the dropped
   * side according to its answer.
   */
  lemma PassStep(working: seq<HookEvent>, answers: Answers, base: nat, i: nat,
                 sent: seq<RpcCall>, delivered: seq<HookEvent>, dropped: seq<HookEvent>)
    requires PassInvariant(working, answers, base, i, sent, delivered, dropped)
    requires i < |working| && !answers.At(base + i).IsUnavailable()
    ensures answers.At(base + i).IsOk() ==>
      PassInvariant(working, answers, base, i + 1, sent + [CallFor(working[i])], delivered + [working[i]], dropped)
    ensures !answers.At(base + i).IsOk() ==>
      PassInvariant(working, answers, base, i + 1, sent + [CallFor(working[i])], delivered, dropped + [working[i]])
  {
  }

  /**
   * A pass whose state reached the retry point k has delivered and dropped
   * exactly the pass's delivered and dropped events, and leaves the tail
   * from k to go back.
   */
  lemma PassSettled(working: seq<HookEvent>, answers: Answers, base: nat, k: nat,
                    sent: seq<RpcCall>, delivered: seq<HookEvent>, dropped: seq<HookEvent>)
    requires PassInvariant(working, answers, base, k, sent, delivered, dropped)
    requires RetryPoint(working, answers, base) == k
    ensures Requeued(working, answers, base) == working[k..]
    ensures delivered == Delivered(working, answers, base) && dropped == Dropped(working, answers, base)
  {
  }

  /**
   * The pass stopping at event i, whose send was answered UNAVAILABLE: the
   * pass has sent working[..i + 1], and the tail from i is what goes back.
   */
  lemma PassStop(working: seq<HookEvent>, answers: Answers, base: nat, i: nat,
                 sent: seq<RpcCall>, delivered: seq<HookEvent>, dropped: seq<HookEvent>)
    requires PassInvariant(working, answers, base, i, sent, delivered, dropped)
    requires i < |working| && answers.At(base + i).IsUnavailable()
    ensures sent + [CallFor(working[i])] == DispatchCalls(working, SentCount(working, answers, base))
    ensures Requeued(working, answers, base) == working[i..]
    ensures delivered == Delivered(working, answers, base) && dropped == Dropped(working, answers, base)
  {
    RetryPointFirst(working, answers, base, i);
    PassSettled(working, answers, base, i, sent, delivered, dropped);
    var n := SentCount(working, answers, base);
    assert n == i + 1;
  }

  /** The pass running off the end of the list: everything was sent and nothing goes back. */
  lemma PassEnd(working: seq<HookEvent>, answers: Answers, base: nat,
                sent: seq<RpcCall>, delivered: seq<HookEvent>, dropped: seq<HookEvent>)
    requires PassInvariant(working, answers, base, |working|, sent, delivered, dropped)
    ensures sent == DispatchCalls(working, SentCount(working, answers, base))
    ensures Requeued(working, answers, base) == []
    ensures delivered == Delivered(working, answers, base) && dropped == Dropped(working, answers, base)
  {
    PassSettled(working, answers, base, |working|, sent, delivered, dropped);
    var n := SentCount(working, answers, base);
    assert n == |working|;
    assert working[|working|..] == [];
  }

  /**
   * Every event occurs in ws[..n] as often as it occurs among the accepted
   * and the rejected events of that prefix together.
   */
  ghost predicate Partitioned(ws: seq<HookEvent>, n: nat, answers: Answers, base: nat)
    requires n <= |ws|
  {
    forall e: HookEvent ::
      multiset(Answered(ws, n, answers, base, true))[e] + multiset(Answered(ws, n, answers, base, false))[e]
      == multiset(ws[..n])[e]
  }

  lemma PartitionBase(ws: seq<HookEvent>, answers: Answers, base: nat)
    ensures Partitioned(ws, 0, answers, base)
  {
    assert ws[..0] == [];
  }

  /** Answering event n - 1 adds it to exactly one side. */
  lemma PartitionStep(ws: seq<HookEvent>, n: nat, answers: Answers, base: nat)
    requires 0 < n <= |ws|
    requires Partitioned(ws, n - 1, answers, base)
    ensures Partitioned(ws, n, answers, base)
  {
    var e := ws[n - 1];
    assert ws[..n] == ws[..n - 1] + [e];
    var ok, notOk := Answered(ws, n - 1, answers, base, true), Answered(ws, n - 1, answers, base, false);
    if answers.At(base + n - 1).IsOk() {
      assert Answered(ws, n, answers, base, true) == ok + [e];
      assert Answered(ws, n, answers, base, false) == notOk;
    } else {
      assert Answered(ws, n, answers, base, true) == ok;
      assert Answered(ws, n, answers, base, false) == notOk + [e];
    }
  }

  lemma {:induction false} AnsweredCounts(ws: seq<HookEvent>, n: nat, answers: Answers, base: nat)
    requires n <= |ws|
    ensures Partitioned(ws, n, answers, base)
  {
    if n == 0 {
      PartitionBase(ws, answers, base);
    } else {
      AnsweredCounts(ws, n - 1, answers, base);
      PartitionStep(ws, n, answers, base);
    }
  }

  /** Multisets that agree on every count are equal. */
  lemma BagSum(a: multiset<HookEvent>, b: multiset<HookEvent>, c: multiset<HookEvent>)
    requires forall e: HookEvent :: a[e] + b[e] == c[e]
    ensures a + b == c
  {
  }

  /** Sorting a prefix by ok-ness of their answers loses and duplicates nothing. */
  lemma AnsweredPartition(ws: seq<HookEvent>, n: nat, answers: Answers, base: nat)
    requires n <= |ws|
    ensures multiset(Answered(ws, n, answers, base, true)) + multiset(Answered(ws, n, answers, base, false))
         == multiset(ws[..n])
  {
    AnsweredCounts(ws, n, answers, base);
    BagSum(multiset(Answered(ws, n, answers, base, true)), multiset(Answered(ws, n, answers, base, false)),
           multiset(ws[..n]));
  }

  /**
   * An event is among the accepted (ok) or the rejected (!ok) events of
   * ws[..n] exactly when some position j < n holds it and the send of that
   * position was answered that way.
   */
  lemma {:induction false} AnsweredMembers(ws: seq<HookEvent>, n: nat, answers: Answers, base: nat, ok: bool, e: HookEvent)
    requires n <= |ws|
    ensures e in Answered(ws, n, answers, base, ok)
        <==> exists j | 0 <= j < n :: ws[j] == e && answers.At(base + j).IsOk() == ok
  {
    if n > 0 {
      AnsweredMembers(ws, n - 1, answers, base, ok, e);
      var last := n - 1;
      if ws[last] == e && answers.At(base + last).IsOk() == ok {
        assert e in Answered(ws, n, answers, base, ok);
      } else {
        assert e in Answered(ws, n, answers, base, ok) <==> e in Answered(ws, n - 1, answers, base, ok);
      }
    }
  }

  /** When every answer for ws[..n] has the same ok-ness, Answered keeps all of ws[..n] on that side. */
  lemma {:induction false} AnsweredUniform(ws: seq<HookEvent>, n: nat, answers: Answers, base: nat, ok: bool)
    requires n <= |ws|
    requires forall j | base <= j < base + n :: answers.At(j).IsOk() == ok
    ensures Answered(ws, n, answers, base, ok) == ws[..n]
    ensures Answered(ws, n, answers, base, !ok) == []
  {
    if n > 0 {
      AnsweredUniform(ws, n - 1, answers, base, ok);
      assert answers.At(base + n - 1).IsOk() == ok;
      assert ws[..n] == ws[..n - 1] + [ws[n - 1]];
    }
  }

  /**
   * Conservation: every dequeued event ends in exactly one way, delivered,
   * dropped or re-enqueued, and none is duplicated or lost.
   */
  lemma PassConservation(working: seq<HookEvent>, answers: Answers, base: nat)
    ensures multiset(working)
         == multiset(Delivered(working, answers, base)) + multiset(Dropped(working, answers, base))
            + multiset(Requeued(working, answers, base))
  {
    var k := RetryPoint(working, answers, base);
    var sent, tail := working[..k], working[k..];
    assert working == sent + tail;
    assert multiset(working) == multiset(sent) + multiset(tail);
    AnsweredPartition(working, k, answers, base);
  }

  /**
   * Conservation over a whole iteration: the queue's events before it are
   * those left in the queue after it (the undequeued rest followed by the
   * re-enqueued tail), plus the delivered ones and the dropped ones.
   */
  lemma IterationConservation(queue: seq<HookEvent>, approxSize: nat, answers: Answers, base: nat)
    ensures var working := queue[..Min(approxSize, |queue|)];
      multiset(queue)
      == multiset(queue[|working|..] + Requeued(working, answers, base))
         + multiset(Delivered(working, answers, base)) + multiset(Dropped(working, answers, base))
  {
    var working := queue[..Min(approxSize, |queue|)];
    var rest := queue[|working|..];
    assert queue == working + rest;
    PassConservation(working, answers, base);
  }

  /**
   * What happens to an event before the retry point: it is delivered
   * exactly when its send was answered OK, and dropped exactly when the
   * answer was an error other than UNAVAILABLE.
   */
  lemma PassOutcomes(working: seq<HookEvent>, answers: Answers, base: nat, e: HookEvent)
    ensures var k := RetryPoint(working, answers, base);
      e in Delivered(working, answers, base)
      <==> exists j | 0 <= j < k :: working[j] == e && answers.At(base + j).IsOk()
    ensures var k := RetryPoint(working, answers, base);
      e in Dropped(working, answers, base)
      <==> exists j | 0 <= j < k :: working[j] == e && !answers.At(base + j).IsOk() && !answers.At(base + j).IsUnavailable()
  {
    var k := RetryPoint(working, answers, base);
    AnsweredMembers(working, k, answers, base, true, e);
    AnsweredMembers(working, k, answers, base, false, e);
  }

  /**
   * The retry split: when the first UNAVAILABLE of the pass answers the send
   * of working[k], the pass sends exactly working[..k + 1], re-enqueues
   * exactly working[k..] in its order, and the events before k are the
   * delivered and the dropped ones.
   */
  lemma RetrySplit(working: seq<HookEvent>, answers: Answers, base: nat, k: nat)
    requires k < |working|
    requires answers.At(base + k).IsUnavailable()
    requires forall j | base <= j < base + k :: !answers.At(j).IsUnavailable()
    ensures Requeued(working, answers, base) == working[k..]
    ensures SentCount(working, answers, base) == k + 1
    ensures multiset(Delivered(working, answers, base)) + multiset(Dropped(working, answers, base))
         == multiset(working[..k])
  {
    assert RetryPoint(working, answers, base) == k;
    AnsweredPartition(working, k, answers, base);
  }

  /**
   * Once the daemon answers every send OK, the pass sends and delivers the
   * whole working list in order and re-enqueues nothing.
   */
  lemma AllOkDeliversAll(working: seq<HookEvent>, answers: Answers, base: nat)
    requires forall j | base <= j < base + |working| :: answers.At(j).IsOk()
    ensures SentCount(working, answers, base) == |working|
    ensures Delivered(working, answers, base) == working
    ensures Dropped(working, answers, base) == []
    ensures Requeued(working, answers, base) == []
  {
    assert RetryPoint(working, answers, base) == |working|;
    AnsweredUniform(working, |working|, answers, base, true);
    assert working[..|working|] == working;
  }

  /**
   * An event the daemon rejects with an error other than UNAVAILABLE is never
   * retried: when every answer is such an error, the pass sends each event
   * once, drops them all and re-enqueues nothing.
   */
  lemma RejectionsAreNeverRetried(working: seq<HookEvent>, answers: Answers, base: nat)
    requires forall j | base <= j < base + |working| :: !answers.At(j).IsOk() && !answers.At(j).IsUnavailable()
    ensures SentCount(working, answers, base) == |working|
    ensures Dropped(working, answers, base) == working
    ensures Delivered(working, answers, base) == []
    ensures Requeued(working, answers, base) == []
  {
    assert RetryPoint(working, answers, base) == |working|;
    AnsweredUniform(working, |working|, answers, base, false);
    assert working[..|working|] == working;
  }
}
