/** What producers may rely on, in every reachable state of a worker. */
module WorkerTheorems {
  import opened LogLines
  import opened WorkerProtocol
  import opened WorkerSafety

  // ----- acknowledgements

  /** A positive answer means that every item the caller put on the queue since
      its mark was in a batch the sink accepted; a negative one, that some record
      put on the queue after the mark was in a dropped batch. */
  lemma WaitersAreRight(s: State, p: nat)
    requires Reachable(s) && p in s.producers
    ensures s.producers[p].answer == Some(true) ==> AllAccepted(s, s.producers[p].mine)
    ensures s.producers[p].answer == Some(false) ==>
              exists i :: 0 <= i < |s.settled| && s.settled[i].item.no > s.producers[p].since && !s.settled[i].ok
  {
    ReachableInv(s);
    assert ProducerOk(s, s.producers[p]);
    if s.producers[p].answer == Some(false) {
      var i :| s.producers[p].since <= i < |s.settled| && !s.settled[i].ok;
      assert AllSent(s)[i] == s.settled[i].item;
      assert s.settled[i].item.no > s.producers[p].since;
    }
  }

  /** The lines a sink has accepted. */
  function AcceptedLines(settled: seq<Settled>): multiset<Line> {
    if settled == [] then multiset{}
    else
      var last := settled[|settled| - 1];
      AcceptedLines(settled[..|settled| - 1]) + if last.ok then multiset{last.item.rec} else multiset{}
  }

  function Lines(items: seq<Item>): multiset<Line> {
    if items == [] then multiset{} else Lines(items[..|items| - 1]) + multiset{items[|items| - 1].rec}
  }

  /** Items past the first m, in order, each settled in an accepted batch. */
  ghost predicate SettledPast(settled: seq<Settled>, m: nat, mine: seq<Item>) {
    && m <= |settled|
    && (forall i | 0 <= i < |mine| :: m < mine[i].no <= |settled| && settled[mine[i].no - 1] == Settled(mine[i], true))
    && forall i, j | 0 <= i < j < |mine| :: mine[i].no < mine[j].no
  }

  lemma {:induction false} MineOnTop(settled: seq<Settled>, m: nat, mine: seq<Item>)
    requires SettledPast(settled, m, mine)
    ensures m <= |settled|
    ensures AcceptedLines(settled[..m]) + Lines(mine) <= AcceptedLines(settled)
    decreases |settled|
  {
    var rest := WithoutLast(settled, m, mine);
    hide SettledPast;
    if |settled| == m {
      assert settled[..m] == settled;
    } else {
      var init := settled[..|settled| - 1];
      assert init[..m] == settled[..m];
      MineOnTop(init, m, rest);
    }
  }

  /** Nothing is taken back from what a sink accepted. */
  lemma AcceptedOnlyGrows(before: seq<Settled>, after: seq<Settled>)
    requires before <= after
    ensures AcceptedLines(before) <= AcceptedLines(after)
  {
    var m := |before|;
    assert after[..m] == before;
    assert SettledPast(after, m, []);
    MineOnTop(after, m, []);
  }

  /** Leaves the last settled item out, on both sides if it is the caller's. */
  lemma WithoutLast(settled: seq<Settled>, m: nat, mine: seq<Item>) returns (rest: seq<Item>)
    requires SettledPast(settled, m, mine)
    ensures m <= |settled| && (|settled| == m ==> mine == [])
    ensures |settled| > m ==> SettledPast(settled[..|settled| - 1], m, rest)
    ensures |settled| > m ==>
              rest == mine || (mine != [] && rest == mine[..|mine| - 1] &&
                  settled[|settled| - 1] == Settled(mine[|mine| - 1], true))
  {
    rest := if mine != [] && mine[|mine| - 1].no == |settled| then mine[..|mine| - 1] else mine;
    if |settled| > m {
      var init := settled[..|settled| - 1];
      forall i | 0 <= i < |rest|
        ensures m < rest[i].no <= |init| && init[rest[i].no - 1] == Settled(rest[i], true)
      {
        assert rest[i] == mine[i];
        if i < |mine| - 1 { assert mine[i].no < mine[|mine| - 1].no; }
      }
      forall i, j | 0 <= i < j < |rest|
        ensures rest[i].no < rest[j].no
      {
        assert mine[i].no < mine[j].no;
      }
    }
  }

  /** A positive answer in terms of lines, counted with their multiplicity: on
      top of everything the sink had accepted at the mark it has accepted every
      line the caller queued since. */
  lemma AcknowledgedLines(s: State, p: nat)
    requires Reachable(s) && p in s.producers && s.producers[p].answer == Some(true)
    ensures s.producers[p].settledAtMark <= |s.settled|
    ensures AcceptedLines(s.settled[..s.producers[p].settledAtMark]) + Lines(s.producers[p].mine)
            <= AcceptedLines(s.settled)
  {
    ReachableInv(s);
    assert ProducerOk(s, s.producers[p]);
    assert SettledPast(s.settled, s.producers[p].settledAtMark, s.producers[p].mine);
    MineOnTop(s.settled, s.producers[p].settledAtMark, s.producers[p].mine);
  }

  // ----- the queue

  /** History, batch and queue are the records sent, numbered from one without a
      gap; enqueued lags the channel by at most one record; written is the number
      of the last settled one; failed that of the last one in a dropped batch. */
  lemma Watermark(s: State)
    requires Reachable(s)
    ensures forall i | 0 <= i < |AllSent(s)| :: AllSent(s)[i].no == i + 1
    ensures s.enqueued <= |AllSent(s)| <= s.enqueued + 1
    ensures s.written == |s.settled| && (s.settled != [] ==> s.settled[|s.settled| - 1].item.no == s.written)
    ensures forall i | 0 <= i < |s.settled| && !s.settled[i].ok :: s.settled[i].item.no <= s.failed
    ensures s.failed > 0 ==> s.failed <= |s.settled| && !s.settled[s.failed - 1].ok
    ensures |s.batch| <= s.batchSize + (if s.cancelled then 1 else 0)
  {
    ReachableInv(s);
    if s.settled != [] {
      assert AllSent(s)[|s.settled| - 1] == s.settled[|s.settled| - 1].item;
    }
    forall i | 0 <= i < |s.settled| && !s.settled[i].ok
      ensures s.settled[i].item.no <= s.failed
    {
      assert AllSent(s)[i] == s.settled[i].item;
    }
  }

  /** The path that drops on a full queue uses up no number and loses nothing
      that is queued. */
  lemma DropUsesNoNumber(s: State, p: nat, s': State)
    requires Next(s, Full(p), s')
    ensures AllSent(s') == AllSent(s) && s'.enqueued == s.enqueued && s'.lock == None
  {
  }

  // ----- no lost wakeup, no deadlock

  /** A waiter whose target has been reached always finds its progress channel
      closed, so it can wake, and its next check answers. */
  lemma NoLostWakeup(s: State, p: nat)
    requires Reachable(s) && p in s.producers && s.producers[p].pc.Blocked?
    requires s.written >= s.producers[p].pc.target
    ensures s.producers[p].pc.gen < s.gen
    ensures var woken := With(s, p, s.producers[p].(pc := Checking(s.producers[p].pc.target)));
            var done := With(woken, p, woken.producers[p].(pc := Outside,
                answer := Some(s.failed <= woken.producers[p].since)));
            Next(s, Wake(p), woken) && Next(woken, Check(p), done)
  {
    ReachableInv(s);
    assert ProducerOk(s, s.producers[p]);
  }

  predicate WorkerEvent(e: Event) {
    e.Receive? || e.SinkWrite? || e.Settle?
  }

  /** How many steps of its own the worker needs at most to settle the first n
      items ever sent: a settled batch brings it one nearer at least, and a batch
      is full, or over by one, before long. */
  function Rank(s: State, n: nat): int {
    if |s.settled| >= n then 0
    else (n - |s.settled|) * (s.batchSize + 3) + Left(s)
  }

  /** Nobody sets the worker back. */
  lemma RankHolds(s: State, e: Event, s': State, n: nat)
    requires Inv(s) && Next(s, e, s')
    ensures 0 <= Rank(s', n) <= Rank(s, n)
    ensures WorkerEvent(e) && |s.settled| < n ==> Rank(s', n) < Rank(s, n)
  {
    hide *;
    NextKeepsInv(s, e, s');
    RankIsNat(s', n);
    Pace(s, e, s');
    RankByPace(s, s', n, WorkerEvent(e));
  }

  /** What a step does to the quantities the rank is made of. */
  lemma Pace(s: State, e: Event, s': State)
    requires Inv(s) && Next(s, e, s')
    ensures s'.batchSize == s.batchSize && |s.batch| <= s.batchSize + 1 && |s'.batch| <= s.batchSize + 1
    ensures |s'.settled| > |s.settled|
            || (|s'.settled| == |s.settled| && Left(s') <= Left(s) && (WorkerEvent(e) ==> Left(s') < Left(s)))
  {
    hide ProducerOk;
    hide AllSent;
  }

  /** Own steps left before the next batch is settled. */
  function Left(s: State): int {
    if s.loop.Collecting? then s.batchSize + 2 - |s.batch| else 0
  }

  lemma RankByPace(s: State, s': State, n: nat, own: bool)
    requires s'.batchSize == s.batchSize && |s.batch| <= s.batchSize + 1 && |s'.batch| <= s.batchSize + 1
    requires |s'.settled| > |s.settled|
             || (|s'.settled| == |s.settled| && Left(s') <= Left(s) && (own ==> Left(s') < Left(s)))
    ensures Rank(s', n) <= Rank(s, n) && (own && |s.settled| < n ==> Rank(s', n) < Rank(s, n))
  {
    if |s.settled| < n {
      FewerSpans(0, n - |s.settled|, s.batchSize + 3);
      if |s.settled| < |s'.settled| < n {
        FewerSpans(n - |s'.settled|, n - |s.settled|, s.batchSize + 3);
      }
    }
  }

  lemma FewerSpans(a: int, b: int, k: int)
    requires 0 <= a < b && k > 0
    ensures a * k + k <= b * k && a * k >= 0
  {
    var d := b - a - 1;
    assert d * k >= 0 && a * k >= 0;
    assert b == a + 1 + d;
    assert b * k == a * k + k + d * k;
  }

  /** While one of them is unsettled and the worker has not exited, it can take a
      step, whoever holds the send lock or waits for room. */
  lemma WorkerCanStep(s: State, n: nat) returns (e: Event, s': State)
    requires Inv(s) && |s.settled| < n <= |AllSent(s)| && !s.loop.Exited?
    ensures WorkerEvent(e) && Next(s, e, s')
  {
    if s.loop.Wrote? {
      e := Settle;
      s' := AfterSettle(s, s.batch[|s.batch| - 1].no, s.loop.ok)
            .(settled := s.settled + Tagged(s.batch, s.loop.ok), batch := [], loop := Collecting);
    } else if s.batch != [] {
      e := SinkWrite(true);
      s' := s.(loop := Wrote(true));
    } else {
      e := Receive;
      s' := s.(queue := s.queue[1..], batch := s.batch + [s.queue[0]]);
    }
  }

  /** It exits only when everything sent by then has settled. */
  lemma ExitLeavesNothing(s: State, s': State)
    requires Inv(s) && Next(s, Exit, s')
    ensures |s.settled| == |AllSent(s)|
  {
  }

  ghost predicate IsPath(run: seq<State>, events: seq<Event>) {
    && |run| == |events| + 1
    && forall i | 0 <= i < |events| :: Next(run[i], events[i], run[i + 1])
  }

  function WorkerSteps(events: seq<Event>): nat {
    if events == [] then 0
    else WorkerSteps(events[..|events| - 1]) + if WorkerEvent(events[|events| - 1]) then 1 else 0
  }

  lemma {:induction false} PathKeepsInv(run: seq<State>, events: seq<Event>)
    requires IsPath(run, events) && Inv(run[0])
    ensures Inv(run[|events|])
    decreases |events|
  {
    var m := |events|;
    if m > 0 {
      assert IsPath(run[..m], events[..m - 1]);
      PathKeepsInv(run[..m], events[..m - 1]);
      hide Inv;
      NextKeepsInv(run[m - 1], events[m - 1], run[m]);
    }
  }

  /** Along every path the rank pays for the worker's steps. */
  lemma {:induction false} RankPays(run: seq<State>, events: seq<Event>, n: nat)
    requires IsPath(run, events) && Inv(run[0])
    ensures Rank(run[|events|], n) == 0 || Rank(run[|events|], n) + WorkerSteps(events) <= Rank(run[0], n)
    ensures 0 <= Rank(run[|events|], n)
    decreases |events|
  {
    var m := |events|;
    if m == 0 {
      RankIsNat(run[0], n);
    } else {
      var s := run[m - 1];
      assert IsPath(run[..m], events[..m - 1]);
      PathKeepsInv(run[..m], events[..m - 1]);
      RankPays(run[..m], events[..m - 1], n);
      RankHolds(s, events[m - 1], run[m], n);
      RankIsNat(s, n);
      hide Inv;
      hide Next;
    }
  }

  lemma RankIsNat(s: State, n: nat)
    requires Inv(s)
    ensures Rank(s, n) >= 0 && (Rank(s, n) == 0 <==> |s.settled| >= n)
  {
    if |s.settled| < n { FewerSpans(0, n - |s.settled|, s.batchSize + 3); }
  }

  /** In every run from s, whatever the producers do meanwhile, the first n items
      have settled once the worker has taken Rank(s, n) steps. */
  lemma EveryRunSettles(run: seq<State>, events: seq<Event>, n: nat)
    requires IsPath(run, events) && Inv(run[0]) && WorkerSteps(events) >= Rank(run[0], n)
    ensures |run[|events|].settled| >= n
  {
    PathKeepsInv(run, events);
    RankPays(run, events, n);
    RankIsNat(run[|events|], n);
    RankIsNat(run[0], n);
  }

  /** So a blocked waiter's target is reached in every run, and if it has not
      moved its channel is closed. */
  lemma WaiterGetsAnswer(run: seq<State>, events: seq<Event>, p: nat)
    requires IsPath(run, events) && Reachable(run[0]) && p in run[0].producers && run[0].producers[p].pc.Blocked?
    requires WorkerSteps(events) >= Rank(run[0], run[0].producers[p].pc.target)
    ensures run[|events|].written >= run[0].producers[p].pc.target
    ensures p in run[|events|].producers && run[|events|].producers[p] == run[0].producers[p] ==>
              run[0].producers[p].pc.gen < run[|events|].gen
  {
    ReachableInv(run[0]);
    PathKeepsInv(run, events);
    EveryRunSettles(run, events, run[0].producers[p].pc.target);
    var last := run[|events|];
    if p in last.producers {
      assert ProducerOk(last, last.producers[p]);
    }
  }

  /** A producer holding the send lock on a full queue does not stop the worker:
      in every run in which it stays where it is, there is room once the worker
      has settled one item of the queue. */
  lemma BlockedSenderGetsRoom(run: seq<State>, events: seq<Event>, p: nat)
    requires IsPath(run, events) && Reachable(run[0]) && p in run[0].producers && run[0].producers[p].pc.Sending?
    requires forall i | 0 <= i < |run| :: p in run[i].producers && run[i].producers[p].pc == run[0].producers[p].pc
    requires WorkerSteps(events) >= Rank(run[0], |run[0].settled| + |run[0].batch| + 1)
    ensures |run[|events|].queue| < run[|events|].capacity
  {
    ReachableInv(run[0]);
    PathKeepsInv(run, events);
    EveryRunSettles(run, events, |run[0].settled| + |run[0].batch| + 1);
    NobodyElseSends(run, events, p);
    hide Next;
  }

  lemma {:induction false} NobodyElseSends(run: seq<State>, events: seq<Event>, p: nat)
    requires IsPath(run, events) && Inv(run[0]) && p in run[0].producers && run[0].producers[p].pc.Sending?
    requires forall i | 0 <= i < |run| :: p in run[i].producers && run[i].producers[p].pc == run[0].producers[p].pc
    ensures |AllSent(run[|events|])| == |AllSent(run[0])| && run[|events|].capacity == run[0].capacity
    decreases |events|
  {
    var m := |events|;
    if m > 0 {
      assert IsPath(run[..m], events[..m - 1]);
      PathKeepsInv(run[..m], events[..m - 1]);
      NobodyElseSends(run[..m], events[..m - 1], p);
      LockedOut(run[m - 1], events[m - 1], run[m], p);
      hide Next;
      hide Inv;
    }
  }

  lemma LockedOut(s: State, e: Event, s': State, p: nat)
    requires Inv(s) && Next(s, e, s') && p in s.producers && s.producers[p].pc.Sending?
    requires p in s'.producers && s'.producers[p].pc == s.producers[p].pc
    ensures |AllSent(s')| == |AllSent(s)| && s'.capacity == s.capacity
  {
    hide ProducerOk;
    assert s.lock == Some(p);
    assert forall q | q in s.producers && HoldsLock(s.producers[q].pc) :: q == p;
  }

  /** written can be ahead of enqueued, by one record: the worker settled it
      before its producer moved enqueued. */
  lemma WrittenAheadOfEnqueued() returns (s: State)
    ensures Reachable(s) && s.written == s.enqueued + 1
  {
    hide Reachable;
    var sent := QueuedBeforePublished();
    var held := sent.(queue := [], batch := sent.queue);
    StepReachable(sent, Receive, held);
    var sunk := held.(loop := Wrote(true));
    StepReachable(held, SinkWrite(true), sunk);
    s := AfterSettle(sunk, 1, true).(settled := sunk.settled + Tagged(sunk.batch, true), batch := [],
        loop := Collecting);
    StepReachable(sunk, Settle, s);
  }

  lemma QueuedBeforePublished() returns (s: State)
    ensures Reachable(s) && s.queue == [Item(Line(0, 0), 1)] && s.batch == [] && s.settled == []
    ensures s.loop.Collecting? && s.batchSize == 1 && s.enqueued == s.written == s.failed == 0
  {
    hide Reachable;
    var l, idle := Line(0, 0), Producer(Outside, 0, [], 0, None);
    var s0 := State([], 1, [], 1, Collecting, [], 0, 0, 0, 0, None, map[0 := idle], false);
    InitialReachable(s0);
    var s1 := With(s0, 0, idle.(pc := Sending(l, 1, true))).(lock := Some(0));
    StepReachable(s0, Lock(0, l, true), s1);
    s := With(s1, 0, idle.(pc := Sent(l, 1))).(queue := [Item(l, 1)]);
    StepReachable(s1, Put(0), s);
  }
}
