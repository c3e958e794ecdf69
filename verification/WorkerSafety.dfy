/** The acknowledgement protocol is sound under every interleaving. */
module WorkerSafety {
  import opened LogLines
  import opened WorkerProtocol

  function Items(settled: seq<Settled>): (r: seq<Item>)
    ensures |r| == |settled| && forall i | 0 <= i < |r| :: r[i] == settled[i].item
  {
    seq(|settled|, i requires 0 <= i < |settled| => settled[i].item)
  }

  /** Everything ever put on the queue, in order. */
  function AllSent(s: State): seq<Item> {
    Items(s.settled) + s.batch + s.queue
  }

  predicate Numbered(items: seq<Item>) {
    forall i | 0 <= i < |items| :: items[i].no == i + 1
  }

  predicate HoldsLock(pc: Pc) {
    pc.Sending? || pc.Sent?
  }

  /** Sequence numbers, lock and counters. */
  ghost predicate QueueOk(s: State) {
    && s.capacity > 0 && |s.queue| <= s.capacity
    && s.batchSize > 0 && |s.batch| <= s.batchSize + (if s.cancelled then 1 else 0)
    && Numbered(AllSent(s))
    && s.written == |s.settled| && s.failed <= s.written
    && (forall i | 0 <= i < |s.settled| && !s.settled[i].ok :: i < s.failed)
    && (s.failed > 0 ==> !s.settled[s.failed - 1].ok)
    && (s.loop.Wrote? ==> s.batch != [])
    && (s.loop.Exited? ==> s.batch == [] && s.cancelled)
    && (forall p | p in s.producers :: HoldsLock(s.producers[p].pc) <==> s.lock == Some(p))
    && (s.lock.Some? ==> s.lock.value in s.producers)
    && |AllSent(s)| == s.enqueued + (if Unpublished(s) then 1 else 0)
  }

  /** Between the channel send and the move of enqueued. */
  predicate Unpublished(s: State) {
    s.lock.Some? && s.lock.value in s.producers && s.producers[s.lock.value].pc.Sent?
  }

  /** What a producer knows about its own items. */
  ghost predicate ProducerOk(s: State, pr: Producer) {
    && pr.since <= s.enqueued && pr.settledAtMark <= |s.settled|
    && (forall i | 0 <= i < |pr.mine| :: pr.since < pr.mine[i].no <= s.enqueued && pr.settledAtMark < pr.mine[i].no)
    && (forall i | 0 <= i < |pr.mine| :: pr.mine[i].no <= |AllSent(s)| && AllSent(s)[pr.mine[i].no - 1] == pr.mine[i])
    && (forall i, j | 0 <= i < j < |pr.mine| :: pr.mine[i].no < pr.mine[j].no)
    && (pr.pc.Sending? ==> pr.pc.no == s.enqueued + 1 && pr.settledAtMark < pr.pc.no)
    && (pr.pc.Sent? ==> pr.pc.no == s.enqueued + 1 && pr.settledAtMark < pr.pc.no
                        && |AllSent(s)| == pr.pc.no && AllSent(s)[pr.pc.no - 1] == Item(pr.pc.rec, pr.pc.no))
    && (pr.pc.Checking? || pr.pc.Blocked? ==>
          pr.pc.target <= s.enqueued && forall i | 0 <= i < |pr.mine| :: pr.mine[i].no <= pr.pc.target)
    && (pr.pc.Blocked? ==> pr.pc.gen <= s.gen && (pr.pc.gen == s.gen ==> s.written < pr.pc.target))
    && (pr.answer == Some(true) ==> AllAccepted(s, pr.mine))
    && (pr.answer == Some(false) ==> exists i :: pr.since <= i < |s.settled| && !s.settled[i].ok)
  }

  ghost predicate AllAccepted(s: State, mine: seq<Item>) {
    forall i | 0 <= i < |mine| ::
      0 < mine[i].no <= |s.settled| && s.settled[mine[i].no - 1] == Settled(mine[i], true)
  }

  ghost predicate Inv(s: State) {
    QueueOk(s) && forall p | p in s.producers :: ProducerOk(s, s.producers[p])
  }

  // ----- what one step leaves alone

  /** s' has everything s has, and nothing about enqueued or the lock changed. */
  ghost predicate Extends(s: State, s': State) {
    && AllSent(s) <= AllSent(s') && s.settled <= s'.settled
    && s.enqueued <= s'.enqueued && s.gen <= s'.gen
    && (s.gen == s'.gen ==> s.written == s'.written)
  }

  lemma ProducerStays(s: State, s': State, pr: Producer)
    requires ProducerOk(s, pr) && Extends(s, s')
    requires HoldsLock(pr.pc) ==> s.enqueued == s'.enqueued
    requires pr.pc.Sent? ==> |AllSent(s')| == |AllSent(s)|
    ensures ProducerOk(s', pr)
  {
  }

  /** A step of producer p that leaves queue, batch and history alone and does
      not publish: only p and perhaps the lock change. */
  ghost predicate LocalStep(s: State, p: nat, pr: Producer, lock: Option<nat>, s': State) {
    && p in s.producers && s' == With(s, p, pr).(lock := lock)
    && !s.producers[p].pc.Sent? && !pr.pc.Sent?
    && lock == (if HoldsLock(pr.pc) then Some(p) else if HoldsLock(s.producers[p].pc) then None else s.lock)
    && (HoldsLock(pr.pc) && !HoldsLock(s.producers[p].pc) ==> s.lock.None?)
  }

  lemma LocalStepKeepsInv(s: State, p: nat, pr: Producer, lock: Option<nat>, s': State)
    requires Inv(s) && LocalStep(s, p, pr, lock, s') && ProducerOk(s, pr)
    ensures Inv(s')
  {
    LocalStepKeepsQueue(s, p, pr, lock, s');
    hide QueueOk;
    assert AllSent(s') == AllSent(s);
    assert Extends(s, s');
    forall q | q in s'.producers
      ensures ProducerOk(s', s'.producers[q])
    {
      ProducerStays(s, s', if q == p then pr else s.producers[q]);
    }
  }

  lemma LocalStepKeepsQueue(s: State, p: nat, pr: Producer, lock: Option<nat>, s': State)
    requires QueueOk(s) && LocalStep(s, p, pr, lock, s')
    ensures QueueOk(s')
  {
    assert AllSent(s') == AllSent(s);
    hide AllSent;
  }

  /** The lock holder's step on the queue or on enqueued: nobody else holds the
      lock, so every other producer's knowledge stands. */
  lemma OthersStay(s: State, s': State, p: nat)
    requires Inv(s) && Extends(s, s') && s.lock == Some(p) && p in s.producers
    requires p in s'.producers && s'.producers == s.producers[p := s'.producers[p]]
    ensures forall q | q in s'.producers && q != p :: ProducerOk(s', s'.producers[q])
  {
    forall q | q in s'.producers && q != p
      ensures ProducerOk(s', s'.producers[q])
    {
      assert s'.producers[q] == s.producers[q];
      assert !HoldsLock(s.producers[q].pc);
      ProducerStays(s, s', s.producers[q]);
    }
  }

  // ----- producers

  lemma MarkKeepsInv(s: State, p: nat, s': State)
    requires Inv(s) && Next(s, Mark(p), s')
    ensures Inv(s')
  {
    LocalStepKeepsInv(s, p, s'.producers[p], s.lock, s');
  }

  lemma LockKeepsInv(s: State, p: nat, rec: Line, blocking: bool, s': State)
    requires Inv(s) && Next(s, Lock(p, rec, blocking), s')
    ensures Inv(s')
  {
    assert ProducerOk(s, s.producers[p]);
    LocalStepKeepsInv(s, p, s'.producers[p], Some(p), s');
  }

  lemma OutsideKnows(s: State, pr: Producer)
    requires ProducerOk(s, pr)
    ensures ProducerOk(s, pr.(pc := Outside))
  {
    hide AllSent;
    hide AllAccepted;
  }

  lemma ReleaseKeepsInv(s: State, e: Event, p: nat, s': State)
    requires Inv(s) && Next(s, e, s') && (e == Full(p) || e == GiveUp(p))
    ensures Inv(s')
  {
    hide QueueOk;
    hide ProducerOk;
    OutsideKnows(s, s.producers[p]);
    LocalStepKeepsInv(s, p, s.producers[p].(pc := Outside), None, s');
  }

  /** The item goes to the end of everything sent, with the next number. */
  lemma PutSends(s: State, p: nat, s': State)
    requires Inv(s) && Next(s, Put(p), s')
    ensures var pc := s.producers[p].pc;
            pc.no == s.enqueued + 1 == |AllSent(s)| + 1 && AllSent(s') == AllSent(s) + [Item(pc.rec, pc.no)]
    ensures s.lock == Some(p) && Extends(s, s')
  {
    assert ProducerOk(s, s.producers[p]);
    hide ProducerOk;
    assert AllSent(s') == AllSent(s) + [Item(s.producers[p].pc.rec, s.producers[p].pc.no)];
  }

  lemma PutKnows(s: State, s': State, pr: Producer)
    requires ProducerOk(s, pr) && pr.pc.Sending? && pr.pc.no == s.enqueued + 1 == |AllSent(s)| + 1
    requires AllSent(s') == AllSent(s) + [Item(pr.pc.rec, pr.pc.no)]
    requires s'.settled == s.settled && s'.enqueued == s.enqueued
    ensures ProducerOk(s', pr.(pc := Sent(pr.pc.rec, pr.pc.no)))
  {
    hide AllSent;
  }

  lemma PutKeepsInv(s: State, p: nat, s': State)
    requires Inv(s) && Next(s, Put(p), s')
    ensures Inv(s')
  {
    hide QueueOk;
    hide ProducerOk;
    hide AllSent;
    hide Extends;
    PutSends(s, p, s');
    OthersStay(s, s', p);
    PutKnows(s, s', s.producers[p]);
    PutKeepsQueue(s, p, s');
  }

  lemma PutKeepsQueue(s: State, p: nat, s': State)
    requires QueueOk(s) && Next(s, Put(p), s') && s.producers[p].pc.no == s.enqueued + 1
    requires AllSent(s') == AllSent(s) + [Item(s.producers[p].pc.rec, s.producers[p].pc.no)]
    ensures QueueOk(s')
  {
    hide AllSent;
  }

  lemma PublishKeepsInv(s: State, p: nat, s': State)
    requires Inv(s) && Next(s, Publish(p), s')
    ensures Inv(s')
  {
    var pr := s.producers[p];
    assert ProducerOk(s, pr);
    assert AllSent(s') == AllSent(s);
    OthersStay(s, s', p);
    PublishedKnowsItsItems(s, s', pr);
    PublishKeepsQueue(s, p, s');
  }

  lemma PublishedKnowsItsItems(s: State, s': State, pr: Producer)
    requires ProducerOk(s, pr) && pr.pc.Sent?
    requires AllSent(s') == AllSent(s) && s'.settled == s.settled && s'.enqueued == pr.pc.no
    ensures ProducerOk(s', pr.(pc := Outside, mine := pr.mine + [Item(pr.pc.rec, pr.pc.no)], answer := None))
  {
    hide AllSent;
  }

  lemma PublishKeepsQueue(s: State, p: nat, s': State)
    requires QueueOk(s) && Next(s, Publish(p), s') && s.producers[p].pc.no == s.enqueued + 1
    requires AllSent(s') == AllSent(s)
    ensures QueueOk(s')
  {
    hide AllSent;
  }

  /** The check that answers: written has reached the target, so every item of
      the caller has settled, and none in a dropped batch if failed is not past
      the mark. */
  lemma CheckAnswers(s: State, p: nat)
    requires Inv(s) && p in s.producers && s.producers[p].pc.Checking? && s.written >= s.producers[p].pc.target
    ensures s.failed <= s.producers[p].since ==> AllAccepted(s, s.producers[p].mine)
    ensures s.failed > s.producers[p].since ==> exists i :: s.producers[p].since <= i < |s.settled| && !s.settled[i].ok
  {
  }

  lemma AnsweredKnows(s: State, pr: Producer, answer: bool)
    requires ProducerOk(s, pr)
    requires answer ==> AllAccepted(s, pr.mine)
    requires !answer ==> exists i :: pr.since <= i < |s.settled| && !s.settled[i].ok
    ensures ProducerOk(s, pr.(pc := Outside, answer := Some(answer)))
  {
  }

  lemma SuspendedKnows(s: State, pr: Producer)
    requires ProducerOk(s, pr) && pr.pc.Checking? && s.written < pr.pc.target
    ensures ProducerOk(s, pr.(pc := Blocked(pr.pc.target, s.gen)))
  {
  }

  /** What the check leaves its caller with: an answer it may rely on, or a
      generation that is closed once its target is reached. */
  lemma CheckedKnows(s: State, p: nat, s': State)
    requires Inv(s) && Next(s, Check(p), s')
    ensures ProducerOk(s, s'.producers[p])
  {
    hide ProducerOk;
    hide AllAccepted;
    hide QueueOk;
    var pr := s.producers[p];
    if s.written >= pr.pc.target {
      CheckAnswers(s, p);
      AnsweredKnows(s, pr, s.failed <= pr.since);
    } else {
      SuspendedKnows(s, pr);
    }
  }

  lemma CheckKeepsInv(s: State, p: nat, s': State)
    requires Inv(s) && Next(s, Check(p), s')
    ensures Inv(s')
  {
    hide Inv;
    hide ProducerOk;
    CheckedKnows(s, p, s');
    LocalStepKeepsInv(s, p, s'.producers[p], s.lock, s');
  }

  lemma TargetKnows(s: State, pr: Producer, target: nat)
    requires ProducerOk(s, pr) && (target == s.enqueued || (pr.pc.Blocked? && target == pr.pc.target))
    ensures ProducerOk(s, pr.(pc := Checking(target)))
  {
    hide AllSent;
    hide AllAccepted;
  }

  lemma PausedKnows(s: State, e: Event, p: nat, s': State)
    requires Inv(s) && Next(s, e, s') && (e == Wait(p) || e == Wake(p) || e == Abandon(p))
    ensures ProducerOk(s, s'.producers[p])
  {
    hide QueueOk;
    hide ProducerOk;
    var pr := s.producers[p];
    if e.Abandon? {
      OutsideKnows(s, pr);
    } else {
      TargetKnows(s, pr, if e.Wait? then s.enqueued else pr.pc.target);
    }
  }

  lemma PauseKeepsInv(s: State, e: Event, p: nat, s': State)
    requires Inv(s) && Next(s, e, s') && (e == Wait(p) || e == Wake(p) || e == Abandon(p))
    ensures Inv(s')
  {
    hide Inv;
    hide ProducerOk;
    PausedKnows(s, e, p, s');
    LocalStepKeepsInv(s, p, s'.producers[p], s.lock, s');
  }

  // ----- the worker

  lemma WorkerStepKeepsProducers(s: State, s': State)
    requires Inv(s) && Extends(s, s') && s'.producers == s.producers
    requires s.enqueued == s'.enqueued && AllSent(s) == AllSent(s')
    ensures forall p | p in s'.producers :: ProducerOk(s', s'.producers[p])
  {
    forall p | p in s'.producers
      ensures ProducerOk(s', s'.producers[p])
    {
      ProducerStays(s, s', s.producers[p]);
    }
  }

  predicate LoopEvent(e: Event) {
    e.Receive? || e.SinkWrite? || e.Settle? || e.Cancel? || e.Exit?
  }

  lemma LoopKeepsSent(s: State, e: Event, s': State)
    requires Next(s, e, s') && LoopEvent(e)
    ensures AllSent(s') == AllSent(s)
  {
    if e.Settle? {
      assert Items(s'.settled) == Items(s.settled) + s.batch;
    }
  }

  lemma LastOfBatch(s: State)
    requires QueueOk(s) && s.batch != []
    ensures s.batch[|s.batch| - 1].no == |s.settled| + |s.batch|
  {
    assert AllSent(s)[|s.settled| + |s.batch| - 1] == s.batch[|s.batch| - 1];
  }

  lemma SettleKeepsQueue(s: State, s': State)
    requires QueueOk(s) && Next(s, Settle, s') && AllSent(s') == AllSent(s)
    ensures QueueOk(s') && Extends(s, s')
  {
    LastOfBatch(s);
    hide AllSent;
    assert s'.written == |s'.settled|;
    forall i | 0 <= i < |s'.settled| && !s'.settled[i].ok
      ensures i < s'.failed
    {
      assert i < |s.settled| ==> s'.settled[i] == s.settled[i];
    }
    if s.loop.ok {
      assert s.failed > 0 ==> s'.settled[s.failed - 1] == s.settled[s.failed - 1];
    } else {
      assert s'.settled[s'.failed - 1] == Settled(s.batch[|s.batch| - 1], false);
    }
  }

  lemma LoopKeepsQueue(s: State, e: Event, s': State)
    requires QueueOk(s) && Next(s, e, s') && LoopEvent(e) && AllSent(s') == AllSent(s)
    ensures QueueOk(s') && Extends(s, s')
  {
    hide AllSent;
    if e.Settle? {
      SettleKeepsQueue(s, s');
    }
  }

  lemma LoopKeepsInv(s: State, e: Event, s': State)
    requires Inv(s) && Next(s, e, s') && LoopEvent(e)
    ensures Inv(s')
  {
    hide QueueOk;
    hide ProducerOk;
    hide AllSent;
    hide Extends;
    LoopKeepsSent(s, e, s');
    LoopKeepsQueue(s, e, s');
    WorkerStepKeepsProducers(s, s');
  }

  lemma NextKeepsInv(s: State, e: Event, s': State)
    requires Inv(s) && Next(s, e, s')
    ensures Inv(s')
  {
    hide Inv;
    hide Next;
    match e
    case Mark(p) => MarkKeepsInv(s, p, s');
    case Lock(p, rec, blocking) => LockKeepsInv(s, p, rec, blocking, s');
    case Put(p) => PutKeepsInv(s, p, s');
    case Full(p) => ReleaseKeepsInv(s, e, p, s');
    case GiveUp(p) => ReleaseKeepsInv(s, e, p, s');
    case Publish(p) => PublishKeepsInv(s, p, s');
    case Wait(p) => PauseKeepsInv(s, e, p, s');
    case Check(p) => CheckKeepsInv(s, p, s');
    case Wake(p) => PauseKeepsInv(s, e, p, s');
    case Abandon(p) => PauseKeepsInv(s, e, p, s');
    case _ => LoopKeepsInv(s, e, s');
  }

  lemma {:induction false} RunKeepsInv(run: seq<State>, events: seq<Event>, n: nat)
    requires IsRun(run, events) && n < |run|
    ensures Inv(run[n])
  {
    if n > 0 {
      RunKeepsInv(run, events, n - 1);
      NextKeepsInv(run[n - 1], events[n - 1], run[n]);
    }
  }

  lemma ReachableInv(s: State)
    requires Reachable(s)
    ensures Inv(s)
  {
    var run, events :| IsRun(run, events) && run[|events|] == s;
    RunKeepsInv(run, events, |events|);
  }
}
