/** How often a poller and its workers hand a line out: in a run without failures
    and restarts no line more often than the source holds it, at any worker. */
module HandedOut {
  import opened LogLines
  import opened Delivery
  import P = PollSystem
  import W = WorkerProtocol
  import PollSafety
  import opened PollTheorems

  /** What the step puts on the queue of worker i for the poller. */
  function PutBy(me: nat, c: System, e: Event, i: nat): multiset<Line> {
    if && e == Queue(W.Publish(me))
       && c.stage.Queuing? && c.stage.to == i < |c.workers|
       && me in c.workers[i].producers && c.workers[i].producers[me].pc.Sent?
    then multiset{c.workers[i].producers[me].pc.rec}
    else multiset{}
  }

  /** What the first n steps of a run put there. */
  function GivenBy(me: nat, run: seq<System>, events: seq<Event>, n: nat, i: nat): multiset<Line>
    requires n <= |events| < |run|
  {
    if n == 0 then multiset{} else GivenBy(me, run, events, n - 1, i) + PutBy(me, run[n - 1], events[n - 1], i)
  }

  /** A step that neither fails nor restarts: no page is given up, no worker's
      answer is negative, and no cursor is loaded. */
  predicate Smooth(e: Event, c': System) {
    && !e.Fail? && !e.GiveUp? && !e.Restart?
    && (e.Poll? ==> !e.own.Start?)
    && (e.Await? ==> !c'.stage.Resting?)
  }

  /** On scope, worker i has been given what the live cursor accounts for and what
      is due of the page in flight. */
  ghost predicate InBalance(cfg: P.Config, c: System, i: nat, given: multiset<Line>) {
    forall l: Line | cfg.scope(l.hash) :: given[l] == c.poll.live.credit[l] + Due(c.stage, i)[l]
  }

  lemma PublishBalances(cfg: P.Config, me: nat, c: System, c': System, i: nat, given: multiset<Line>)
    requires Inv(cfg, me, c) && Next(cfg, me, c, Queue(W.Publish(me)), c') && i < |c.workers|
    requires InBalance(cfg, c, i, given)
    ensures InBalance(cfg, c', i, given + PutBy(me, c, Queue(W.Publish(me)), i))
  {
    hide P.Scanned;
    hide P.Reachable;
    hide AtWorker;
    hide BaseOf;
    hide AfterPublish;
    hide Due;
    var j := c.stage.to;
    PublishesLine(cfg, me, c.stage, j, BaseOf(c, j), c.past[j], c.workers[j], c'.workers[j]);
    forall l: Line | cfg.scope(l.hash)
      ensures Due(c'.stage, i)[l] == Due(c.stage, i)[l] + PutBy(me, c, Queue(W.Publish(me)), i)[l]
    {
      DuePublished(c.stage, |c.workers|, i, l);
    }
  }

  lemma PublishesLine(cfg: P.Config, me: nat, stage: Stage, j: nat, base: multiset<Line>, past: multiset<Line>,
                      w: W.State, w': W.State)
    requires AtWorker(cfg, me, stage, j, base, past, w) && stage.Queuing? && stage.line.Some? && j == stage.to
    requires W.Next(w, W.Publish(me), w')
    ensures me in w.producers && w.producers[me].pc.Sent? && w.producers[me].pc.rec == stage.line.value
  {
    hide Holding;
    hide W.Reachable;
  }

  lemma DuePublished(stage: Stage, workers: nat, i: nat, l: Line)
    requires stage.Queuing? && stage.line.Some? && stage.to < workers && i < workers
    ensures Due(AfterPublish(stage, workers), i)[l]
            == Due(stage, i)[l] + if i == stage.to && l == stage.line.value then 1 else 0
  {
  }

  lemma OwnStepKeepsCredit(cfg: P.Config, s: P.State, own: P.Event, s': P.State)
    requires P.Next(cfg, s, own, s') && !own.Accept? && !own.Start?
    ensures s'.live.credit == s.live.credit
  {
    hide P.Scanned;
    hide P.Drifts;
    hide AnchorContract;
    hide P.Acknowledged;
  }

  lemma PollStepBalances(cfg: P.Config, me: nat, c: System, e: Event, c': System, i: nat, given: multiset<Line>)
    requires |c.past| == |c.workers| && Next(cfg, me, c, e, c') && Smooth(e, c')
    requires e.Surroundings? || e.Poll? || e.FetchPage?
    requires InBalance(cfg, c, i, given)
    ensures InBalance(cfg, c', i, given)
  {
    hide P.Next;
    var own := if e.Surroundings? then P.Drift else if e.Poll? then e.own else P.Fetch(e.page, e.raw);
    OwnStepKeepsCredit(cfg, c.poll, own, c'.poll);
  }

  /** A step of a worker, or of the poller from one stage of a page to the next. */
  lemma PageStepBalances(cfg: P.Config, me: nat, c: System, e: Event, c': System, i: nat, given: multiset<Line>)
    requires |c.past| == |c.workers| && Next(cfg, me, c, e, c') && Smooth(e, c') && e != Queue(W.Publish(me))
    requires !e.Surroundings? && !e.Poll? && !e.FetchPage?
    requires InBalance(cfg, c, i, given) && i < |c.workers|
    ensures InBalance(cfg, c', i, given)
  {
    hide InBalance;
    SameDue(cfg, me, c, e, c', i);
    StillInBalance(cfg, c, c', i, given);
  }

  lemma StillInBalance(cfg: P.Config, c: System, c': System, i: nat, given: multiset<Line>)
    requires InBalance(cfg, c, i, given)
    requires forall l: Line | cfg.scope(l.hash) ::
               c'.poll.live.credit[l] + Due(c'.stage, i)[l] == c.poll.live.credit[l] + Due(c.stage, i)[l]
    ensures InBalance(cfg, c', i, given)
  {
    hide Due;
  }

  lemma SameDue(cfg: P.Config, me: nat, c: System, e: Event, c': System, i: nat)
    requires |c.past| == |c.workers| && Next(cfg, me, c, e, c') && Smooth(e, c') && e != Queue(W.Publish(me))
    requires !e.Surroundings? && !e.Poll? && !e.FetchPage? && i < |c.workers|
    ensures forall l: Line | cfg.scope(l.hash) ::
              c'.poll.live.credit[l] + Due(c'.stage, i)[l] == c.poll.live.credit[l] + Due(c.stage, i)[l]
  {
    hide *;
    match e
    case Take(line) => TakenDue(cfg, me, c, line, c', i);
    case MoveOn => MovedOnDue(cfg, me, c, c', i);
    case _ => StageKeepsDue(cfg, me, c, e, c', i);
  }

  lemma TakenDue(cfg: P.Config, me: nat, c: System, line: Line, c': System, i: nat)
    requires |c.past| == |c.workers| && Next(cfg, me, c, Take(line), c') && i < |c.workers|
    ensures c'.poll == c.poll
    ensures forall l: Line | cfg.scope(l.hash) :: Due(c'.stage, i)[l] == Due(c.stage, i)[l]
  {
  }

  lemma MovedOnDue(cfg: P.Config, me: nat, c: System, c': System, i: nat)
    requires |c.past| == |c.workers| && Next(cfg, me, c, MoveOn, c')
    ensures c'.poll.live.credit == c.poll.live.credit + Due(c.stage, i) && Due(c'.stage, i) == multiset{}
  {
    hide P.Passed;
    hide P.Landing;
    hide P.Final;
  }

  lemma StageKeepsDue(cfg: P.Config, me: nat, c: System, e: Event, c': System, i: nat)
    requires |c.past| == |c.workers| && Next(cfg, me, c, e, c') && Smooth(e, c') && e != Queue(W.Publish(me))
    requires !e.Surroundings? && !e.Poll? && !e.FetchPage? && !e.Take? && !e.MoveOn?
    ensures c'.poll.live == c.poll.live && Due(c'.stage, i) == Due(c.stage, i)
  {
    hide P.Scanned;
    hide W.Next;
    hide AcceptedBy;
  }

  lemma WorkersStay(cfg: P.Config, me: nat, c: System, e: Event, c': System)
    requires |c.past| == |c.workers| && Next(cfg, me, c, e, c')
    ensures |c'.workers| == |c.workers|
  {
    hide P.Next;
    hide W.Next;
    hide P.Scanned;
  }

  lemma StepBalances(cfg: P.Config, me: nat, c: System, e: Event, c': System, i: nat, given: multiset<Line>)
    requires Inv(cfg, me, c) && |c.past| == |c.workers| && Next(cfg, me, c, e, c') && Smooth(e, c')
    requires InBalance(cfg, c, i, given) && i < |c.workers|
    ensures |c'.workers| == |c.workers| && InBalance(cfg, c', i, given + PutBy(me, c, e, i))
  {
    hide *;
    WorkersStay(cfg, me, c, e, c');
    if e == Queue(W.Publish(me)) {
      PublishBalances(cfg, me, c, c', i, given);
    } else {
      PutsNothing(me, c, e, i, given);
      if e.Surroundings? || e.Poll? || e.FetchPage? {
        PollStepBalances(cfg, me, c, e, c', i, given);
      } else {
        PageStepBalances(cfg, me, c, e, c', i, given);
      }
    }
  }

  lemma PutsNothing(me: nat, c: System, e: Event, i: nat, given: multiset<Line>)
    requires e != Queue(W.Publish(me))
    ensures given + PutBy(me, c, e, i) == given
  {
  }

  lemma NothingGiven(cfg: P.Config, me: nat, c: System, i: nat)
    requires Initial(me, c)
    ensures InBalance(cfg, c, i, multiset{})
  {
  }

  lemma {:induction false} RunBalances(cfg: P.Config, me: nat, run: seq<System>, events: seq<Event>, n: nat, i: nat)
    requires IsRun(cfg, me, run, events) && n <= |events| && i < |run[0].workers|
    requires forall k | 0 <= k < n :: Smooth(events[k], run[k + 1])
    ensures |run[n].workers| == |run[0].workers|
    ensures InBalance(cfg, run[n], i, GivenBy(me, run, events, n, i))
  {
    hide Inv;
    hide Next;
    hide Initial;
    hide Smooth;
    hide InBalance;
    hide PutBy;
    if n == 0 {
      NothingGiven(cfg, me, run[0], i);
    } else {
      RunBalances(cfg, me, run, events, n - 1, i);
      RunKeepsInv(cfg, me, run, events, n - 1);
      StepBalances(cfg, me, run[n - 1], events[n - 1], run[n], i, GivenBy(me, run, events, n - 1, i));
    }
  }

  /** What is due of the page in flight, on top of what the cursor accounts for, is
      in the source, and nothing of it lies before the cursor. */
  lemma DueIsInSource(cfg: P.Config, me: nat, c: System, i: nat, l: Line)
    requires Inv(cfg, me, c) && i < |c.workers|
    ensures c.poll.live.credit[l] + Due(c.stage, i)[l] <= c.poll.source[l]
    ensures l.ts < c.poll.live.cur.ts ==> Due(c.stage, i)[l] == 0
  {
    PollSafety.ReachableInv(cfg, c.poll);
    LiveCreditIsSource(cfg, c.poll, l);
    if c.stage.Queuing? || c.stage.Waiting? {
      DueIsScanned(cfg, c, i, l);
      PollSafety.AcceptWithinSource(cfg, c.poll, c.stage.scan);
      assert (c.poll.live.credit + c.stage.scan.sent)[l] <= c.poll.phase.flight.fetched[l] <= c.poll.source[l];
      OwedIsSent(c.poll, c.stage.scan, l);
    }
    hide P.Scanned;
    hide AtWorker;
    hide P.Reachable;
  }

  lemma DueIsScanned(cfg: P.Config, c: System, i: nat, l: Line)
    requires StageOk(cfg, c) && (c.stage.Queuing? || c.stage.Waiting?)
    ensures ScanOk(c.poll, c.stage.scan) && Due(c.stage, i)[l] <= c.stage.scan.sent[l]
  {
    hide P.Scanned;
  }

  /** In a run without failures and restarts every worker is handed each in-scope
      line at most as often as the source holds it, and just as often if its time
      lies in a delivered window: nothing is sent twice. */
  lemma NothingTwice(cfg: P.Config, me: nat, run: seq<System>, events: seq<Event>, n: nat, i: nat, l: Line)
    requires IsRun(cfg, me, run, events) && n <= |events| && i < |run[0].workers| && cfg.scope(l.hash)
    requires forall k | 0 <= k < n :: Smooth(events[k], run[k + 1])
    ensures var given := GivenBy(me, run, events, n, i);
            && given[l] <= run[n].poll.source[l]
            && (PollSafety.InDelivered(run[n].poll.live.ledger, l.ts) ==> given[l] == run[n].poll.source[l])
  {
    RunBalances(cfg, me, run, events, n, i);
    RunKeepsInv(cfg, me, run, events, n);
    DueIsInSource(cfg, me, run[n], i, l);
    LiveCreditIsSource(cfg, run[n].poll, l);
    hide P.Reachable;
    hide AtWorker;
    hide IsRun;
    hide PollSafety.InDelivered;
  }
}
