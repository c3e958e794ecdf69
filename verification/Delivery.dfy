/** One poller and the workers of its sinks as one system. The poller marks every
    worker after its query, queues the page's in-scope lines to each, waits for
    each, and moves its cursor on their answers alone; other producers and the
    workers themselves step freely in between. What PollSystem demands of an
    accepted page, that every sink has taken it, is derived here. */
module Delivery {
  import opened LogLines
  import P = PollSystem
  import W = WorkerProtocol
  import opened WorkerSafety
  import opened WorkerTheorems
  import PollSafety
  import opened PollTheorems

  /** Where the poller is with the page in flight: marking workers; queuing line
      to worker number to, after sent; waiting for worker number on. */
  datatype Stage =
    | Resting
    | Marking(next: nat)
    | Queuing(scan: P.Scan, sent: multiset<Line>, line: Option<Line>, to: nat)
    | Waiting(scan: P.Scan, on: nat)

  /** past: what each sink had accepted before this process came up. */
  datatype System = System(poll: P.State, workers: seq<W.State>, past: seq<multiset<Line>>, stage: Stage)

  datatype Event =
    | Surroundings
    | Work(i: nat, step: W.Event)
    | Poll(own: P.Event)
    | FetchPage(page: seq<Line>, raw: nat)
    | MarkNext
    | Walk(scan: P.Scan)
    | Take(line: Line)
    | Queue(step: W.Event)
    | Listen
    | Await(step: W.Event)
    | MoveOn
    | Fail
    | GiveUp(i: nat, step: W.Event)
    | Restart

  /** What each sink has accepted. */
  function AcceptedBy(past: seq<multiset<Line>>, workers: seq<W.State>): (r: seq<multiset<Line>>)
    requires |past| == |workers|
    ensures |r| == |workers| && forall i | 0 <= i < |r| :: r[i] == past[i] + AcceptedLines(workers[i].settled)
  {
    seq(|workers|, i requires 0 <= i < |workers| => past[i] + AcceptedLines(workers[i].settled))
  }

  /** The step is producer p's. */
  predicate By(e: W.Event, p: nat) {
    match e
    case Mark(q) => q == p
    case Lock(q, _, _) => q == p
    case Put(q) => q == p
    case Full(q) => q == p
    case GiveUp(q) => q == p
    case Publish(q) => q == p
    case Wait(q) => q == p
    case Check(q) => q == p
    case Wake(q) => q == p
    case Abandon(q) => q == p
    case _ => false
  }

  /** Worker i takes a step; everything else is as in c. */
  predicate Steps(c: System, i: nat, e: W.Event, workers: seq<W.State>) {
    && i < |c.workers| == |workers| && workers == c.workers[i := workers[i]]
    && W.Next(c.workers[i], e, workers[i])
  }

  /** The poller's steps between pages. */
  predicate BetweenPages(e: P.Event) {
    e.CatchUp? || e.Floor? || e.Begin? || e.Save? || e.Delete? || e.Start? || e.Abort?
  }

  /** After the line has been published to worker number to. */
  function AfterPublish(stage: Stage, workers: nat): Stage
    requires stage.Queuing? && stage.line.Some?
  {
    if stage.to + 1 < workers then stage.(to := stage.to + 1)
    else Queuing(stage.scan, stage.sent + multiset{stage.line.value}, None, 0)
  }

  predicate Answered(w: W.State, me: nat) {
    me in w.producers && w.producers[me].pc.Outside?
  }

  ghost predicate Next(cfg: P.Config, me: nat, c: System, e: Event, c': System)
    requires |c.past| == |c.workers|
  {
    match e
    case Surroundings =>
      c' == c.(poll := c'.poll) && P.Next(cfg, c.poll, P.Drift, c'.poll) && c'.poll.accepted == c.poll.accepted
    case Work(i, step) =>
      && !By(step, me) && Steps(c, i, step, c'.workers)
      && c' == c.(workers := c'.workers, poll := c.poll.(accepted := AcceptedBy(c.past, c'.workers)))
    case Poll(own) =>
      && ((c.stage.Resting? && BetweenPages(own)) || own.Prune? || own.Flush?)
      && c' == c.(poll := c'.poll) && P.Next(cfg, c.poll, own, c'.poll)
    case FetchPage(page, raw) =>
      && c.stage.Resting? && c' == c.(poll := c'.poll, stage := Marking(0))
      && P.Next(cfg, c.poll, P.Fetch(page, raw), c'.poll)
    case MarkNext =>
      && c.stage.Marking? && Steps(c, c.stage.next, W.Mark(me), c'.workers)
      && c' == c.(workers := c'.workers, stage := Marking(c.stage.next + 1))
    case Walk(scan) =>
      && c.stage == Marking(|c.workers|) && c.poll.phase.InFlight?
      && P.Scanned(c.poll.live.cur, c.poll.phase.round.horizon, multiset(c.poll.phase.flight.page), scan)
      && c' == c.(stage := Queuing(scan, multiset{}, None, 0))
    case Take(line) =>
      && c.stage.Queuing? && c.stage.line.None? && c.stage.sent[line] < c.stage.scan.sent[line]
      && c' == c.(stage := if cfg.scope(line.hash) && c.workers != []
                           then c.stage.(line := Some(line), to := 0)
                           else c.stage.(sent := c.stage.sent + multiset{line}))
    case Queue(step) =>
      && c.stage.Queuing? && c.stage.line.Some?
      && step in {W.Lock(me, c.stage.line.value, true), W.Put(me), W.Publish(me)}
      && Steps(c, c.stage.to, step, c'.workers)
      && c' == c.(workers := c'.workers, stage := if step.Publish? then AfterPublish(c.stage, |c.workers|) else c.stage)
    case Listen =>
      && c.stage.Queuing? && c.stage.line.None? && c.stage.sent == c.stage.scan.sent
      && c' == c.(stage := Waiting(c.stage.scan, 0))
    case Await(step) =>
      && c.stage.Waiting? && step in {W.Wait(me), W.Check(me), W.Wake(me)}
      && Steps(c, c.stage.on, step, c'.workers)
      && var w := c'.workers[c.stage.on];
         if !step.Check? || !Answered(w, me) then c' == c.(workers := c'.workers)
         else if w.producers[me].answer == Some(true)
         then c' == c.(workers := c'.workers, stage := c.stage.(on := c.stage.on + 1))
         else c' == c.(workers := c'.workers, stage := Resting, poll := c.poll.(phase := P.Idle))
    case MoveOn =>
      && c.stage.Waiting? && c.stage.on == |c.workers| && c.poll.phase.InFlight?
      && var r, f := c.poll.phase.round, c.poll.phase.flight;
         c' == c.(stage := Resting,
                  poll := c.poll.(live := P.Accepted(c.poll.live, r.horizon, f, c.stage.scan),
                                  phase := if P.Final(f.page, c.stage.scan) then P.Idle else P.Paging(r)))
    case Fail =>
      && (forall i | 0 <= i < |c.workers| :: Answered(c.workers[i], me))
      && c' == c.(stage := Resting, poll := c.poll.(phase := P.Idle))
    case GiveUp(i, step) =>
      && step in {W.GiveUp(me), W.Abandon(me)} && Steps(c, i, step, c'.workers)
      && c' == c.(workers := c'.workers, stage := Resting, poll := c.poll.(phase := P.Idle))
    case Restart =>
      && P.Next(cfg, c.poll, P.Crash, c'.poll)
      && |c'.workers| == |c.workers| && (forall w | w in c'.workers :: W.Initial(w) && me in w.producers)
      && c' == System(c'.poll, c'.workers, c.poll.accepted, Resting)
  }

  ghost predicate Initial(me: nat, c: System) {
    && P.Initial(c.poll) && c.stage.Resting? && |c.past| == |c.workers| && c.poll.accepted == c.past
    && (forall w | w in c.workers :: W.Initial(w) && me in w.producers)
  }

  ghost predicate IsRun(cfg: P.Config, me: nat, run: seq<System>, events: seq<Event>) {
    && |run| == |events| + 1 && Initial(me, run[0])
    && forall i | 0 <= i < |events| ::
         |run[i].past| == |run[i].workers| && Next(cfg, me, run[i], events[i], run[i + 1])
  }

  // ----- what holds at one worker

  /** Since a mark no earlier than the query the poller has queued lines, as far
      as they are in scope, and nothing else. */
  ghost predicate Holding(cfg: P.Config, base: multiset<Line>, past: multiset<Line>, w: W.State, pr: W.Producer,
                          lines: multiset<Line>) {
    && pr.settledAtMark <= |w.settled| && base <= past + AcceptedLines(w.settled[..pr.settledAtMark])
    && forall l: Line | cfg.scope(l.hash) :: Lines(pr.mine)[l] == lines[l]
  }

  /** The lines due at worker j by now. */
  function Due(stage: Stage, j: nat): multiset<Line> {
    match stage
    case Resting => multiset{}
    case Marking(_) => multiset{}
    case Queuing(scan, sent, line, to) => if line.Some? && j < to then sent + multiset{line.value} else sent
    case Waiting(scan, on) => scan.sent
  }

  predicate PcFits(stage: Stage, j: nat, pc: W.Pc) {
    || pc.Outside?
    || (stage.Queuing? && stage.line.Some? && j == stage.to && (pc.Sending? || pc.Sent?) && pc.rec == stage.line.value)
    || (stage.Waiting? && j == stage.on && (pc.Checking? || pc.Blocked?))
  }

  ghost predicate AtWorker(cfg: P.Config, me: nat, stage: Stage, j: nat, base: multiset<Line>, past: multiset<Line>,
                           w: W.State) {
    && W.Reachable(w) && me in w.producers && PcFits(stage, j, w.producers[me].pc)
    && (stage.Marking? && j >= stage.next ==> base <= past + AcceptedLines(w.settled))
    && (!stage.Resting? && !(stage.Marking? && j >= stage.next) ==>
          Holding(cfg, base, past, w, w.producers[me], Due(stage, j)))
    && (stage.Waiting? && j < stage.on ==> w.producers[me].answer == Some(true))
  }

  function BaseOf(c: System, j: nat): multiset<Line> {
    if c.poll.phase.InFlight? && j < |c.poll.phase.flight.base| then c.poll.phase.flight.base[j] else multiset{}
  }

  ghost predicate ScanOk(poll: P.State, scan: P.Scan) {
    && poll.phase.InFlight?
    && P.Scanned(poll.live.cur, poll.phase.round.horizon, multiset(poll.phase.flight.page), scan)
  }

  ghost predicate StageOk(cfg: P.Config, c: System) {
    match c.stage
    case Resting => !c.poll.phase.InFlight?
    case Marking(next) => c.poll.phase.InFlight? && next <= |c.workers|
    case Queuing(scan, sent, line, to) =>
      && ScanOk(c.poll, scan) && sent <= scan.sent
      && (line.Some? ==> to < |c.workers| && cfg.scope(line.value.hash) && sent[line.value] < scan.sent[line.value])
    case Waiting(scan, on) => ScanOk(c.poll, scan) && on <= |c.workers|
  }

  ghost predicate Coupled(c: System) {
    && |c.past| == |c.workers| && c.poll.accepted == AcceptedBy(c.past, c.workers)
    && (c.poll.phase.InFlight? ==> |c.poll.phase.flight.base| == |c.workers|)
  }

  ghost predicate Inv(cfg: P.Config, me: nat, c: System) {
    && Coupled(c) && P.Reachable(cfg, c.poll) && StageOk(cfg, c)
    && forall j | 0 <= j < |c.workers| :: AtWorker(cfg, me, c.stage, j, BaseOf(c, j), c.past[j], c.workers[j])
  }

  // ----- one worker's step

  lemma SettledOnlyGrows(w: W.State, e: W.Event, w': W.State)
    requires W.Next(w, e, w')
    ensures w.settled <= w'.settled
  {
  }

  lemma OthersLeaveMe(w: W.State, e: W.Event, w': W.State, me: nat)
    requires W.Next(w, e, w') && !By(e, me) && me in w.producers
    ensures me in w'.producers && w'.producers[me] == w.producers[me]
  {
  }

  lemma OwnStepSettlesNothing(w: W.State, e: W.Event, w': W.State, me: nat)
    requires W.Next(w, e, w') && By(e, me)
    ensures w'.settled == w.settled && me in w.producers && me in w'.producers
  {
  }

  lemma HoldingStays(cfg: P.Config, base: multiset<Line>, past: multiset<Line>, w: W.State, w': W.State, pr: W.Producer,
                     lines: multiset<Line>)
    requires Holding(cfg, base, past, w, pr, lines) && w.settled <= w'.settled
    ensures Holding(cfg, base, past, w', pr, lines)
  {
    assert w'.settled[..pr.settledAtMark] == w.settled[..pr.settledAtMark];
  }

  lemma OtherStepAtWorker(cfg: P.Config, me: nat, stage: Stage, j: nat, base: multiset<Line>, past: multiset<Line>,
                          w: W.State, e: W.Event, w': W.State)
    requires AtWorker(cfg, me, stage, j, base, past, w) && W.Next(w, e, w') && !By(e, me)
    ensures AtWorker(cfg, me, stage, j, base, past, w')
  {
    hide Holding;
    hide AcceptedLines;
    W.StepReachable(w, e, w');
    OthersLeaveMe(w, e, w', me);
    SettledOnlyGrows(w, e, w');
    AcceptedOnlyGrows(w.settled, w'.settled);
    if !stage.Resting? && !(stage.Marking? && j >= stage.next) {
      HoldingStays(cfg, base, past, w, w', w.producers[me], Due(stage, j));
    }
    hide W.Next;
    hide W.Reachable;
  }

  /** A mark taken after the query is no earlier than it. */
  lemma MarkAtWorker(cfg: P.Config, me: nat, j: nat, base: multiset<Line>, past: multiset<Line>, w: W.State,
                     w': W.State)
    requires AtWorker(cfg, me, Marking(j), j, base, past, w) && W.Next(w, W.Mark(me), w')
    ensures AtWorker(cfg, me, Marking(j + 1), j, base, past, w')
  {
    W.StepReachable(w, W.Mark(me), w');
    assert w'.settled[..|w'.settled|] == w.settled;
    hide W.Reachable;
  }

  lemma LinesGrow(items: seq<W.Item>, x: W.Item)
    ensures Lines(items + [x]) == Lines(items) + multiset{x.rec}
  {
    assert (items + [x])[..|items|] == items;
  }

  lemma HoldingGrows(cfg: P.Config, base: multiset<Line>, past: multiset<Line>, w: W.State, w': W.State,
                     pr: W.Producer, pr': W.Producer, lines: multiset<Line>, x: W.Item)
    requires Holding(cfg, base, past, w, pr, lines) && w'.settled == w.settled
    requires pr'.mine == pr.mine + [x] && pr'.settledAtMark == pr.settledAtMark
    ensures Holding(cfg, base, past, w', pr', lines + multiset{x.rec})
  {
    LinesGrow(pr.mine, x);
    hide Lines;
    hide AcceptedLines;
  }

  lemma PublishAtWorker(cfg: P.Config, me: nat, stage: Stage, workers: nat, base: multiset<Line>, past: multiset<Line>,
                        w: W.State, w': W.State)
    requires stage.Queuing? && stage.line.Some? && stage.to < workers
    requires AtWorker(cfg, me, stage, stage.to, base, past, w) && W.Next(w, W.Publish(me), w')
    ensures AtWorker(cfg, me, AfterPublish(stage, workers), stage.to, base, past, w')
  {
    hide W.Reachable;
    hide Holding;
    hide AcceptedLines;
    W.StepReachable(w, W.Publish(me), w');
    var pr := w.producers[me];
    HoldingGrows(cfg, base, past, w, w', pr, w'.producers[me], stage.sent, W.Item(pr.pc.rec, pr.pc.no));
  }

  lemma QueueAtWorker(cfg: P.Config, me: nat, stage: Stage, base: multiset<Line>, past: multiset<Line>,
                      w: W.State, e: W.Event, w': W.State)
    requires stage.Queuing? && stage.line.Some?
    requires AtWorker(cfg, me, stage, stage.to, base, past, w) && W.Next(w, e, w')
    requires e in {W.Lock(me, stage.line.value, true), W.Put(me)}
    ensures AtWorker(cfg, me, stage, stage.to, base, past, w')
  {
    hide W.Reachable;
    hide AcceptedLines;
    hide Lines;
    W.StepReachable(w, e, w');
  }

  /** Another worker sees nothing of it. */
  lemma DueElsewhere(stage: Stage, workers: nat, j: nat)
    requires stage.Queuing? && stage.line.Some? && stage.to < workers && j < workers && j != stage.to
    ensures Due(AfterPublish(stage, workers), j) == Due(stage, j)
  {
  }

  lemma AwaitAtWorker(cfg: P.Config, me: nat, stage: Stage, base: multiset<Line>, past: multiset<Line>,
                      w: W.State, e: W.Event, w': W.State)
    requires stage.Waiting? && AtWorker(cfg, me, stage, stage.on, base, past, w) && W.Next(w, e, w')
    requires e in {W.Wait(me), W.Check(me), W.Wake(me)}
    ensures AtWorker(cfg, me, stage, stage.on, base, past, w')
    ensures e.Check? && Answered(w', me) ==> AtWorker(cfg, me, Resting, stage.on, base, past, w')
    ensures e.Check? && Answered(w', me) && w'.producers[me].answer == Some(true) ==>
              AtWorker(cfg, me, stage.(on := stage.on + 1), stage.on, base, past, w')
  {
    W.StepReachable(w, e, w');
    hide W.Reachable;
    hide AcceptedLines;
    hide Lines;
  }

  // ----- the whole system's step

  /** A worker that does not settle changes nothing for the poller. */
  lemma QuietStep(c: System, i: nat, e: W.Event, me: nat, workers: seq<W.State>)
    requires Coupled(c) && Steps(c, i, e, workers) && By(e, me)
    ensures AcceptedBy(c.past, workers) == c.poll.accepted
  {
    OwnStepSettlesNothing(c.workers[i], e, workers[i], me);
    hide W.Next;
    hide AcceptedLines;
    assert forall j | 0 <= j < |workers| :: AcceptedBy(c.past, workers)[j] == c.poll.accepted[j];
  }

  /** A worker step is a drift of the poller's surroundings. */
  lemma WorkerStepIsDrift(cfg: P.Config, me: nat, c: System, i: nat, e: W.Event, c': System)
    requires Coupled(c) && Next(cfg, me, c, Work(i, e), c')
    ensures P.Next(cfg, c.poll, P.Drift, c'.poll)
  {
    SettledOnlyGrows(c.workers[i], e, c'.workers[i]);
    AcceptedOnlyGrows(c.workers[i].settled, c'.workers[i].settled);
    var before, after := c.poll.accepted, AcceptedBy(c.past, c'.workers);
    hide W.Next;
    hide AcceptedLines;
    forall j | 0 <= j < |after|
      ensures P.Covers(after[j], before[j])
    {
      assert j != i ==> after[j] == before[j];
    }
  }

  lemma WorkKeepsInv(cfg: P.Config, me: nat, c: System, i: nat, e: W.Event, c': System)
    requires Inv(cfg, me, c) && Next(cfg, me, c, Work(i, e), c')
    ensures Inv(cfg, me, c')
  {
    hide AtWorker;
    hide AcceptedLines;
    hide By;
    hide W.Next;
    hide P.Next;
    hide P.Reachable;
    hide P.Scanned;
    WorkerStepIsDrift(cfg, me, c, i, e, c');
    P.StepReachable(cfg, c.poll, P.Drift, c'.poll);
    OtherStepAtWorker(cfg, me, c.stage, i, BaseOf(c, i), c.past[i], c.workers[i], e, c'.workers[i]);
  }

  /** Steps of the poller or around it that leave the workers alone. */
  lemma PollKeepsInv(cfg: P.Config, me: nat, c: System, e: Event, own: P.Event, c': System)
    requires Inv(cfg, me, c) && Next(cfg, me, c, e, c')
    requires (e.Surroundings? && own == P.Drift) || e == Poll(own)
    ensures Inv(cfg, me, c')
  {
    hide AtWorker;
    hide AcceptedLines;
    hide P.Next;
    hide P.Reachable;
    hide P.Scanned;
    PollLeavesPage(cfg, me, c, e, own, c');
    P.StepReachable(cfg, c.poll, own, c'.poll);
  }

  lemma PollLeavesPage(cfg: P.Config, me: nat, c: System, e: Event, own: P.Event, c': System)
    requires |c.past| == |c.workers| && Next(cfg, me, c, e, c')
    requires (e.Surroundings? && own == P.Drift) || e == Poll(own)
    ensures P.Next(cfg, c.poll, own, c'.poll) && c'.poll.accepted == c.poll.accepted
    ensures c.stage.Resting? && !c.poll.phase.InFlight? ==> !c'.poll.phase.InFlight?
    ensures !c.stage.Resting? ==> c'.poll.phase == c.poll.phase && c'.poll.live == c.poll.live
  {
    hide P.Scanned;
    hide P.Drifts;
  }

  lemma FetchKeepsInv(cfg: P.Config, me: nat, c: System, page: seq<Line>, raw: nat, c': System)
    requires Inv(cfg, me, c) && Next(cfg, me, c, FetchPage(page, raw), c')
    ensures Inv(cfg, me, c')
  {
    hide AcceptedLines;
    hide Holding;
    hide W.Reachable;
    hide P.Reachable;
    hide P.Scanned;
    hide AnchorContract;
    P.StepReachable(cfg, c.poll, P.Fetch(page, raw), c'.poll);
  }

  /** The stage a step at worker i leads to. */
  predicate StageStep(stage: Stage, stage': Stage, workers: nat, i: nat) {
    || stage' == stage
    || (stage == Marking(i) && stage' == Marking(i + 1))
    || (stage.Queuing? && stage.line.Some? && stage.to == i < workers && stage' == AfterPublish(stage, workers))
    || (stage.Waiting? && stage.on == i && stage' == stage.(on := i + 1))
  }

  /** The other workers are where they were when the poller moves on to the next
      stage at one of them. */
  lemma StageMoves(cfg: P.Config, me: nat, stage: Stage, stage': Stage, workers: nat, i: nat, j: nat,
                   base: multiset<Line>, past: multiset<Line>, w: W.State)
    requires AtWorker(cfg, me, stage, j, base, past, w) && j < workers && j != i
    requires StageStep(stage, stage', workers, i)
    ensures AtWorker(cfg, me, stage', j, base, past, w)
  {
    hide W.Reachable;
    hide Holding;
    hide AcceptedLines;
    if stage.Queuing? && stage.line.Some? && stage.to == i < workers { DueElsewhere(stage, workers, j); }
  }

  /** A step of the poller at worker i that settles nothing, with the stage it
      leads to. */
  lemma OwnStepKeepsInv(cfg: P.Config, me: nat, c: System, i: nat, e: W.Event, c': System)
    requires Inv(cfg, me, c) && Steps(c, i, e, c'.workers) && By(e, me)
    requires c' == c.(workers := c'.workers, stage := c'.stage) && StageOk(cfg, c')
    requires StageStep(c.stage, c'.stage, |c.workers|, i)
    requires AtWorker(cfg, me, c'.stage, i, BaseOf(c, i), c.past[i], c'.workers[i])
    ensures Inv(cfg, me, c')
  {
    hide AtWorker;
    hide AcceptedLines;
    hide W.Next;
    hide By;
    hide StageOk;
    hide P.Reachable;
    QuietStep(c, i, e, me, c'.workers);
    forall j | 0 <= j < |c'.workers|
      ensures AtWorker(cfg, me, c'.stage, j, BaseOf(c', j), c'.past[j], c'.workers[j])
    {
      if j != i {
        StageMoves(cfg, me, c.stage, c'.stage, |c.workers|, i, j, BaseOf(c, j), c.past[j], c.workers[j]);
      }
    }
  }

  lemma MarkKeepsInv(cfg: P.Config, me: nat, c: System, c': System)
    requires Inv(cfg, me, c) && Next(cfg, me, c, MarkNext, c')
    ensures Inv(cfg, me, c')
  {
    hide AtWorker;
    hide AcceptedLines;
    hide W.Next;
    var i := c.stage.next;
    MarkAtWorker(cfg, me, i, BaseOf(c, i), c.past[i], c.workers[i], c'.workers[i]);
    OwnStepKeepsInv(cfg, me, c, i, W.Mark(me), c');
  }

  lemma QueueKeepsInv(cfg: P.Config, me: nat, c: System, e: W.Event, c': System)
    requires Inv(cfg, me, c) && Next(cfg, me, c, Queue(e), c')
    ensures Inv(cfg, me, c')
  {
    hide AtWorker;
    hide W.Next;
    hide P.Scanned;
    hide P.Reachable;
    hide AcceptedLines;
    var i := c.stage.to;
    if e.Publish? {
      PublishAtWorker(cfg, me, c.stage, |c.workers|, BaseOf(c, i), c.past[i], c.workers[i], c'.workers[i]);
    } else {
      QueueAtWorker(cfg, me, c.stage, BaseOf(c, i), c.past[i], c.workers[i], e, c'.workers[i]);
    }
    OwnStepKeepsInv(cfg, me, c, i, e, c');
  }

  lemma AwaitKeepsInv(cfg: P.Config, me: nat, c: System, e: W.Event, c': System)
    requires Inv(cfg, me, c) && Next(cfg, me, c, Await(e), c')
    ensures Inv(cfg, me, c')
  {
    hide AtWorker;
    hide W.Next;
    hide P.Next;
    hide P.Scanned;
    hide P.Reachable;
    hide AcceptedLines;
    var i := c.stage.on;
    AwaitAtWorker(cfg, me, c.stage, BaseOf(c, i), c.past[i], c.workers[i], e, c'.workers[i]);
    if c'.stage.Resting? {
      PageEndsKeepsInv(cfg, me, c, i, e, c');
    } else {
      OwnStepKeepsInv(cfg, me, c, i, e, c');
    }
  }

  /** With no step in progress at a worker it is where it should be at rest. */
  lemma RestsAtWorker(cfg: P.Config, me: nat, stage: Stage, j: nat, base: multiset<Line>, past: multiset<Line>,
                      w: W.State)
    requires AtWorker(cfg, me, stage, j, base, past, w) && Answered(w, me)
    ensures AtWorker(cfg, me, Resting, j, multiset{}, past, w)
  {
  }

  /** At any moment at most one worker sees the poller in the middle of something. */
  lemma BusyAtOne(cfg: P.Config, me: nat, stage: Stage, i: nat, j: nat, base: multiset<Line>, past: multiset<Line>,
                  w: W.State, pc: W.Pc)
    requires AtWorker(cfg, me, stage, j, base, past, w) && PcFits(stage, i, pc) && !pc.Outside? && i != j
    ensures Answered(w, me)
  {
  }

  /** The page in flight is abandoned with a last step at worker i. */
  lemma PageEndsKeepsInv(cfg: P.Config, me: nat, c: System, i: nat, e: W.Event, c': System)
    requires Inv(cfg, me, c) && Steps(c, i, e, c'.workers) && By(e, me) && !e.Mark? && !e.Wait? && !e.Lock?
    requires c' == c.(workers := c'.workers, stage := Resting, poll := c.poll.(phase := P.Idle))
    requires Answered(c'.workers[i], me)
    ensures Inv(cfg, me, c')
  {
    hide AcceptedLines;
    hide W.Next;
    hide W.Reachable;
    hide Holding;
    hide P.Next;
    hide P.Scanned;
    hide P.Reachable;
    QuietStep(c, i, e, me, c'.workers);
    EndsAtWorker(c.workers[i], e, c'.workers[i], me);
    AbortReachable(cfg, c.poll);
    forall j | 0 <= j < |c'.workers|
      ensures AtWorker(cfg, me, Resting, j, multiset{}, c'.past[j], c'.workers[j])
    {
      if j != i {
        BusyAtOne(cfg, me, c.stage, i, j, BaseOf(c, j), c.past[j], c.workers[j], c.workers[i].producers[me].pc);
      } else {
        W.StepReachable(c.workers[i], e, c'.workers[i]);
      }
    }
  }

  lemma EndsAtWorker(w: W.State, e: W.Event, w': W.State, me: nat)
    requires W.Next(w, e, w') && By(e, me) && !e.Mark? && !e.Wait? && !e.Lock?
    ensures me in w.producers && !w.producers[me].pc.Outside?
  {
  }

  lemma AbortReachable(cfg: P.Config, s: P.State)
    requires P.Reachable(cfg, s)
    ensures P.Reachable(cfg, s.(phase := P.Idle))
  {
    P.StepReachable(cfg, s, P.Abort, s.(phase := P.Idle));
  }

  lemma FailKeepsInv(cfg: P.Config, me: nat, c: System, c': System)
    requires Inv(cfg, me, c) && Next(cfg, me, c, Fail, c')
    ensures Inv(cfg, me, c')
  {
    hide AtWorker;
    hide AcceptedLines;
    hide P.Reachable;
    hide P.Scanned;
    AbortReachable(cfg, c.poll);
    forall j | 0 <= j < |c.workers|
      ensures AtWorker(cfg, me, Resting, j, multiset{}, c.past[j], c.workers[j])
    {
      RestsAtWorker(cfg, me, c.stage, j, BaseOf(c, j), c.past[j], c.workers[j]);
    }
  }

  lemma GiveUpKeepsInv(cfg: P.Config, me: nat, c: System, i: nat, e: W.Event, c': System)
    requires Inv(cfg, me, c) && Next(cfg, me, c, GiveUp(i, e), c')
    ensures Inv(cfg, me, c')
  {
    hide Inv;
    hide P.Scanned;
    assert Answered(c'.workers[i], me);
    PageEndsKeepsInv(cfg, me, c, i, e, c');
  }

  lemma RestartKeepsInv(cfg: P.Config, me: nat, c: System, c': System)
    requires Inv(cfg, me, c) && Next(cfg, me, c, Restart, c')
    ensures Inv(cfg, me, c')
  {
    hide AtWorker;
    hide AcceptedLines;
    hide P.Reachable;
    hide P.Scanned;
    P.StepReachable(cfg, c.poll, P.Crash, c'.poll);
    FreshWorkers(cfg, me, c'.workers, c'.past);
  }

  lemma FreshWorkers(cfg: P.Config, me: nat, workers: seq<W.State>, past: seq<multiset<Line>>)
    requires |past| == |workers| && forall w | w in workers :: W.Initial(w) && me in w.producers
    ensures AcceptedBy(past, workers) == past
    ensures forall j | 0 <= j < |workers| :: AtWorker(cfg, me, Resting, j, multiset{}, past[j], workers[j])
  {
    forall j | 0 <= j < |workers|
      ensures AtWorker(cfg, me, Resting, j, multiset{}, past[j], workers[j])
      ensures AcceptedBy(past, workers)[j] == past[j]
    {
      assert workers[j] in workers;
      W.InitialReachable(workers[j]);
    }
  }

  /** The poller's own moves on the page: from marking to queuing, to the next
      line, and from queuing to waiting. */
  lemma PageKeepsInv(cfg: P.Config, me: nat, c: System, e: Event, c': System)
    requires Inv(cfg, me, c) && Next(cfg, me, c, e, c') && (e.Walk? || e.Take? || e.Listen?)
    ensures Inv(cfg, me, c')
  {
    hide AtWorker;
    hide AcceptedLines;
    hide P.Scanned;
    hide P.Reachable;
    forall j | 0 <= j < |c.workers|
      ensures AtWorker(cfg, me, c'.stage, j, BaseOf(c, j), c.past[j], c.workers[j])
    {
      PageAtWorker(cfg, me, c, e, c', j);
    }
    PageStageOk(cfg, me, c, e, c');
    hide StageOk;
  }

  lemma PageStageOk(cfg: P.Config, me: nat, c: System, e: Event, c': System)
    requires |c.past| == |c.workers| && StageOk(cfg, c)
    requires Next(cfg, me, c, e, c') && (e.Walk? || e.Take? || e.Listen?)
    ensures StageOk(cfg, c') && c'.poll == c.poll && c'.workers == c.workers && c'.past == c.past
  {
    hide P.Scanned;
  }

  lemma PageAtWorker(cfg: P.Config, me: nat, c: System, e: Event, c': System, j: nat)
    requires |c.past| == |c.workers| && j < |c.workers| && Next(cfg, me, c, e, c') && (e.Walk? || e.Take? || e.Listen?)
    requires AtWorker(cfg, me, c.stage, j, BaseOf(c, j), c.past[j], c.workers[j])
    ensures AtWorker(cfg, me, c'.stage, j, BaseOf(c, j), c.past[j], c.workers[j])
  {
    hide P.Scanned;
    hide W.Reachable;
    hide AcceptedLines;
    hide Lines;
  }

  // ----- moving on

  /** The answers of all workers make the page acceptable. */
  lemma AnswersAcknowledge(cfg: P.Config, me: nat, c: System)
    requires Inv(cfg, me, c) && c.stage.Waiting? && c.stage.on == |c.workers|
    ensures c.poll.phase.InFlight? && P.Acknowledged(cfg, c.poll.phase.flight.base, c.stage.scan.sent, c.poll.accepted)
  {
    hide P.Scanned;
    hide P.Reachable;
    forall i: int, l: Line | 0 <= i < |c.workers| && cfg.scope(l.hash)
      ensures c.poll.phase.flight.base[i][l] + c.stage.scan.sent[l] <= c.poll.accepted[i][l]
    {
      AnswerAcknowledges(cfg, me, c.stage, i, BaseOf(c, i), c.past[i], c.workers[i], l);
    }
  }

  lemma AnswerAcknowledges(cfg: P.Config, me: nat, stage: Stage, j: nat, base: multiset<Line>, past: multiset<Line>,
                           w: W.State, l: Line)
    requires AtWorker(cfg, me, stage, j, base, past, w) && stage.Waiting? && j < stage.on && cfg.scope(l.hash)
    ensures base[l] + stage.scan.sent[l] <= (past + AcceptedLines(w.settled))[l]
  {
    AcknowledgedLines(w, me);
    var pr := w.producers[me];
    var before := AcceptedLines(w.settled[..pr.settledAtMark]);
    assert base[l] <= (past + before)[l];
    assert (before + Lines(pr.mine))[l] <= AcceptedLines(w.settled)[l];
  }

  /** So the poller's move is one that PollSystem allows. */
  lemma MoveOnIsAccept(cfg: P.Config, me: nat, c: System, c': System)
    requires Inv(cfg, me, c) && Next(cfg, me, c, MoveOn, c')
    ensures P.Next(cfg, c.poll, P.Accept(c.stage.scan), c'.poll)
  {
    AnswersAcknowledge(cfg, me, c);
    hide P.Scanned;
    hide P.Acknowledged;
  }

  lemma MoveOnKeepsInv(cfg: P.Config, me: nat, c: System, c': System)
    requires Inv(cfg, me, c) && Next(cfg, me, c, MoveOn, c')
    ensures Inv(cfg, me, c')
  {
    hide AtWorker;
    hide AcceptedLines;
    hide P.Next;
    hide P.Scanned;
    hide P.Reachable;
    MoveOnIsAccept(cfg, me, c, c');
    P.StepReachable(cfg, c.poll, P.Accept(c.stage.scan), c'.poll);
    forall j | 0 <= j < |c.workers|
      ensures AtWorker(cfg, me, Resting, j, multiset{}, c.past[j], c.workers[j])
    {
      DoneAtWorker(cfg, me, c.stage, j, BaseOf(c, j), c.past[j], c.workers[j]);
    }
  }

  lemma DoneAtWorker(cfg: P.Config, me: nat, stage: Stage, j: nat, base: multiset<Line>, past: multiset<Line>,
                     w: W.State)
    requires AtWorker(cfg, me, stage, j, base, past, w) && stage.Waiting? && j < stage.on
    ensures AtWorker(cfg, me, Resting, j, multiset{}, past, w)
  {
  }

  lemma NextKeepsInv(cfg: P.Config, me: nat, c: System, e: Event, c': System)
    requires Inv(cfg, me, c) && |c.past| == |c.workers| && Next(cfg, me, c, e, c')
    ensures Inv(cfg, me, c')
  {
    hide *;
    match e
    case Surroundings => PollKeepsInv(cfg, me, c, e, P.Drift, c');
    case Work(i, step) => WorkKeepsInv(cfg, me, c, i, step, c');
    case Poll(own) => PollKeepsInv(cfg, me, c, e, own, c');
    case FetchPage(page, raw) => FetchKeepsInv(cfg, me, c, page, raw, c');
    case MarkNext => MarkKeepsInv(cfg, me, c, c');
    case Queue(step) => QueueKeepsInv(cfg, me, c, step, c');
    case Await(step) => AwaitKeepsInv(cfg, me, c, step, c');
    case MoveOn => MoveOnKeepsInv(cfg, me, c, c');
    case Fail => FailKeepsInv(cfg, me, c, c');
    case GiveUp(i, step) => GiveUpKeepsInv(cfg, me, c, i, step, c');
    case Restart => RestartKeepsInv(cfg, me, c, c');
    case _ => PageKeepsInv(cfg, me, c, e, c');
  }

  lemma InitialInv(cfg: P.Config, me: nat, c: System)
    requires Initial(me, c)
    ensures Inv(cfg, me, c)
  {
    P.InitialReachable(cfg, c.poll);
    FreshWorkers(cfg, me, c.workers, c.past);
    hide P.Reachable;
  }

  /** In every run of poller, producers, workers and restarts the poller's marks,
      queued lines and answers are what they should be, and its own steps are
      steps of PollSystem. */
  lemma {:induction false} RunKeepsInv(cfg: P.Config, me: nat, run: seq<System>, events: seq<Event>, n: nat)
    requires IsRun(cfg, me, run, events) && n < |run|
    ensures Inv(cfg, me, run[n])
  {
    hide Inv;
    hide Next;
    if n == 0 {
      InitialInv(cfg, me, run[0]);
    } else {
      RunKeepsInv(cfg, me, run, events, n - 1);
      NextKeepsInv(cfg, me, run[n - 1], events[n - 1], run[n]);
    }
  }

  // ----- what it comes to

  /** No silent loss from end to end: whatever poller, producers, workers and
      restarts did, each in-scope source line before the live or a stored cursor
      is among what the sink's workers got accepted, or NothingLost says why not. */
  lemma NoSilentLossEndToEnd(cfg: P.Config, me: nat, run: seq<System>, events: seq<Event>, n: nat, sink: nat)
    requires IsRun(cfg, me, run, events) && n < |run| && sink < |run[n].workers|
    ensures sink < |run[n].past|
    ensures var accepted := run[n].past[sink] + AcceptedLines(run[n].workers[sink].settled);
            && NothingLost(cfg, run[n].poll.source, accepted, run[n].poll.live)
            && (run[n].poll.mem.Some? ==> NothingLost(cfg, run[n].poll.source, accepted, run[n].poll.mem.value))
            && (run[n].poll.disk.Some? ==> NothingLost(cfg, run[n].poll.source, accepted, run[n].poll.disk.value))
  {
    RunKeepsInv(cfg, me, run, events, n);
    NoSilentLoss(cfg, run[n].poll, sink);
    hide NothingLost;
    hide P.Reachable;
    hide AtWorker;
    hide StageOk;
    hide IsRun;
  }

  /** The cursor moved over one more recorded gap and accounts for nothing more. */
  ghost predicate OverGap(before: P.Position, after: P.Position) {
    exists w :: PollSafety.Gap(w) && after.ledger == before.ledger + [w] && w.lo == before.cur.ts
                && w.hi == after.cur.ts && after.credit == before.credit
  }

  /** But for a restart, a cursor that moves moves over a recorded gap, or past a
      page of which every sink has accepted, on top of what it had when the page
      was queried, each in-scope copy owed to it. */
  lemma CursorMovesOnAnswersOnly(cfg: P.Config, me: nat, run: seq<System>, events: seq<Event>, n: nat, i: nat, l: Line)
    requires IsRun(cfg, me, run, events) && n < |events| && !(events[n].Poll? && events[n].own.Start?)
    requires run[n].poll.live.cur != run[n + 1].poll.live.cur && i < |run[n].workers| && cfg.scope(l.hash)
    ensures |run[n].past| == |run[n].workers|
    ensures var c, live' := run[n], run[n + 1].poll.live;
            if events[n].MoveOn? then
              && c.poll.phase.InFlight? && i < |c.poll.phase.flight.base|
              && c.poll.phase.flight.base[i][l]
                 + P.Owed(c.poll.live.cur, c.poll.phase.round.horizon, multiset(c.poll.phase.flight.page), l)
                 <= c.past[i][l] + AcceptedLines(c.workers[i].settled)[l]
            else OverGap(c.poll.live, live')
  {
    RunKeepsInv(cfg, me, run, events, n);
    var c := run[n];
    OnlyMoveOnMoves(cfg, me, c, events[n], run[n + 1]);
    if events[n].MoveOn? {
      AnswersAcknowledge(cfg, me, c);
      OwedIsSent(c.poll, c.stage.scan, l);
      SunkAt(c, i, l);
    }
    hide *;
  }

  lemma OwedIsSent(poll: P.State, scan: P.Scan, l: Line)
    requires ScanOk(poll, scan)
    ensures scan.sent[l] == P.Owed(poll.live.cur, poll.phase.round.horizon, multiset(poll.phase.flight.page), l)
  {
  }

  lemma SunkAt(c: System, i: nat, l: Line)
    requires Coupled(c) && i < |c.workers|
    ensures c.poll.accepted[i][l] == c.past[i][l] + AcceptedLines(c.workers[i].settled)[l]
  {
  }

  lemma OnlyMoveOnMoves(cfg: P.Config, me: nat, c: System, e: Event, c': System)
    requires |c.past| == |c.workers| && Next(cfg, me, c, e, c') && c.poll.live.cur != c'.poll.live.cur
    requires !(e.Poll? && e.own.Start?)
    ensures e.MoveOn? ==> c.stage.Waiting? && c.stage.on == |c.workers|
    ensures !e.MoveOn? ==> OverGap(c.poll.live, c'.poll.live)
  {
    hide P.Scanned;
    hide P.Drifts;
    hide AnchorContract;
    if e.Poll? {
      var w := if e.own.CatchUp? then P.CatchUpGap(c.poll.live.cur.ts, e.own.to)
               else P.LagGap(c.poll.live.cur.ts, c.poll.deploy.pos - P.MAX_KIND_LAG);
      assert PollSafety.Gap(w) && c'.poll.live.ledger == c.poll.live.ledger + [w];
    }
  }
}
