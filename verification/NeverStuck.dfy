/** A poller with a page in flight is never stuck: until the cursor has moved there
    is always a step to take, its own or one it waits for, so that safety is not
    bought by standing still. */
module NeverStuck {
  import opened LogLines
  import P = PollSystem
  import W = WorkerProtocol
  import opened CursorCells
  import opened Delivery
  import PollSafety
  import WorkerSafety
  import WorkerTheorems

  // ----- a page always has a scan

  lemma {:induction false} WalkExists(cur: P.Cursor, horizon: Time, page: seq<Line>)
    returns (sc: P.Scan, seen: multiset<Hash>)
    requires SortedByTs(page) && cur.ts <= horizon + 1 && forall l | l in page :: l.ts <= horizon
    ensures Walked(cur, horizon, multiset(page), sc, seen)
  {
    if page == [] {
      sc, seen := P.Scan(multiset{}, cur, false), cur.seen;
    } else {
      var n := |page| - 1;
      var init, l := page[..n], page[n];
      assert page == init + [l];
      sc, seen := WalkExists(cur, horizon, init);
      hide Walked;
      if l.ts < cur.ts {
        WalkIgnores(cur, horizon, multiset(init), sc, seen, l);
      } else if l.ts == cur.ts && seen[l.hash] > 0 {
        WalkSkips(cur, horizon, multiset(init), sc, seen, l);
        seen := seen[l.hash := seen[l.hash] - 1];
      } else {
        WalkSends(cur, horizon, multiset(init), sc, seen, l);
        sc := P.Scan(sc.sent + multiset{l}, Advanced(sc.next, l.ts, l.hash), false);
      }
    }
  }

  /** A sorted page up to the horizon, and what is past it. */
  lemma {:induction false} Split(page: seq<Line>, horizon: Time) returns (first: seq<Line>, rest: seq<Line>)
    requires SortedByTs(page)
    ensures SortedByTs(first) && (forall l | l in first :: l.ts <= horizon)
    ensures multiset(page) == multiset(first) + multiset(rest)
    ensures (forall l | l in multiset(rest) :: l.ts > horizon) && |multiset(rest)| == |rest|
  {
    var n := |page| - 1;
    if page == [] || page[n].ts <= horizon {
      first, rest := page, [];
    } else {
      first, rest := Split(page[..n], horizon);
      rest := rest + [page[n]];
      assert page == page[..n] + [page[n]];
    }
  }

  lemma ScanExists(cur: P.Cursor, horizon: Time, page: seq<Line>) returns (sc: P.Scan)
    requires cur.ts <= horizon + 1
    ensures P.Scanned(cur, horizon, multiset(page), sc)
  {
    hide P.Scanned;
    SortByTsSorts(page);
    var first, rest := Split(SortByTs(page), horizon);
    var seen;
    sc, seen := WalkExists(cur, horizon, first);
    WalkedIsScanned(cur, horizon, multiset(first), sc, seen);
    if rest == [] {
      assert multiset(page) == multiset(first);
    } else {
      WalkStops(cur, horizon, multiset(first), sc, seen, multiset(rest));
      sc := sc.(beyond := true);
    }
  }

  lemma WalkedIsScanned(cur: P.Cursor, horizon: Time, page: multiset<Line>, sc: P.Scan, seen: multiset<Hash>)
    requires Walked(cur, horizon, page, sc, seen)
    ensures P.Scanned(cur, horizon, page, sc)
  {
  }

  // ----- what a poller waits for at a worker

  /** A step of the worker, or of the producer that holds its send lock. */
  predicate Helps(w: W.State, step: W.Event) {
    || WorkerTheorems.WorkerEvent(step)
    || (w.lock.Some? && step in {W.Put(w.lock.value), W.Publish(w.lock.value)})
  }

  lemma LockComesFree(w: W.State) returns (step: W.Event, w': W.State)
    requires WorkerSafety.Inv(w) && !w.loop.Exited? && w.lock.Some?
    ensures Helps(w, step) && W.Next(w, step, w')
  {
    var q := w.lock.value;
    var pr := w.producers[q];
    if pr.pc.Sent? {
      step := W.Publish(q);
      w' := W.With(w, q, pr.(pc := W.Outside, mine := pr.mine + [W.Item(pr.pc.rec, pr.pc.no)], answer := None))
            .(lock := None, enqueued := pr.pc.no);
    } else if |w.queue| < w.capacity {
      step := W.Put(q);
      w' := W.With(w, q, pr.(pc := W.Sent(pr.pc.rec, pr.pc.no)))
            .(queue := w.queue + [W.Item(pr.pc.rec, pr.pc.no)]);
    } else {
      assert |w.settled| < |WorkerSafety.AllSent(w)|;
      step, w' := WorkerTheorems.WorkerCanStep(w, |WorkerSafety.AllSent(w)|);
    }
  }

  /** A waiting producer can go on, or the worker can. */
  lemma WaitGoesOn(w: W.State, me: nat) returns (step: W.Event, w': W.State)
    requires WorkerSafety.Inv(w) && !w.loop.Exited? && me in w.producers
    requires !w.producers[me].pc.Sending? && !w.producers[me].pc.Sent?
    ensures W.Next(w, step, w') && (step in {W.Wait(me), W.Check(me), W.Wake(me)} || WorkerTheorems.WorkerEvent(step))
  {
    var pr := w.producers[me];
    assert WorkerSafety.ProducerOk(w, pr);
    if pr.pc.Outside? {
      step := W.Wait(me);
      w' := W.With(w, me, pr.(pc := W.Checking(w.enqueued)));
    } else if pr.pc.Checking? {
      step := W.Check(me);
      w' := W.With(w, me, if w.written >= pr.pc.target then pr.(pc := W.Outside, answer := Some(w.failed <= pr.since))
                          else pr.(pc := W.Blocked(pr.pc.target, w.gen)));
    } else if pr.pc.gen < w.gen {
      step := W.Wake(me);
      w' := W.With(w, me, pr.(pc := W.Checking(pr.pc.target)));
    } else {
      step, w' := WorkerTheorems.WorkerCanStep(w, pr.pc.target);
    }
  }

  /** A producer that is to queue a line can go on, or somebody it waits for can. */
  lemma QueueGoesOn(w: W.State, me: nat, line: Line) returns (step: W.Event, w': W.State)
    requires WorkerSafety.Inv(w) && !w.loop.Exited? && me in w.producers
    requires var pc := w.producers[me].pc; pc.Outside? || ((pc.Sending? || pc.Sent?) && pc.rec == line)
    ensures W.Next(w, step, w') && (step in {W.Lock(me, line, true), W.Put(me), W.Publish(me)} || Helps(w, step))
  {
    var pr := w.producers[me];
    if w.lock.None? {
      step := W.Lock(me, line, true);
      w' := W.With(w, me, pr.(pc := W.Sending(line, w.enqueued + 1, true))).(lock := Some(me));
    } else {
      step, w' := LockComesFree(w);
    }
  }

  // ----- the whole system

  /** Steps that take the page in flight on: the poller's own, and those of a
      worker or of a producer that holds its send lock. */
  ghost predicate Forward(c: System, e: Event) {
    match e
    case Work(i, step) => i < |c.workers| && Helps(c.workers[i], step)
    case MarkNext => true
    case Walk(_) => true
    case Take(_) => true
    case Queue(_) => true
    case Listen => true
    case Await(_) => true
    case MoveOn => true
    case _ => false
  }

  /** In every run, with a page in flight and no worker exited, some such step can
      be taken. */
  lemma PageGoesOn(cfg: P.Config, me: nat, run: seq<System>, events: seq<Event>, n: nat) returns (e: Event, c': System)
    requires IsRun(cfg, me, run, events) && n < |run| && !run[n].stage.Resting?
    requires forall w | w in run[n].workers :: !w.loop.Exited?
    ensures |run[n].past| == |run[n].workers| && Forward(run[n], e) && Next(cfg, me, run[n], e, c')
  {
    hide IsRun;
    hide Next;
    RunKeepsInv(cfg, me, run, events, n);
    e, c' := StageGoesOn(cfg, me, run[n]);
  }

  lemma StageGoesOn(cfg: P.Config, me: nat, c: System) returns (e: Event, c': System)
    requires Inv(cfg, me, c) && !c.stage.Resting? && forall w | w in c.workers :: !w.loop.Exited?
    ensures |c.past| == |c.workers| && Forward(c, e) && Next(cfg, me, c, e, c')
  {
    match c.stage
    case Marking(next) =>
      if next < |c.workers| {
        e, c' := MarkGoesOn(cfg, me, c);
      } else {
        e, c' := WalkGoesOn(cfg, me, c);
      }
    case Queuing(scan, sent, line, to) =>
      if line.Some? {
        e, c' := LineGoesOn(cfg, me, c);
      } else if sent == scan.sent {
        e := Listen;
        c' := c.(stage := Waiting(scan, 0));
      } else {
        var l :| sent[l] != scan.sent[l];
        e := Take(l);
        c' := c.(stage := if cfg.scope(l.hash) && c.workers != [] then c.stage.(line := Some(l), to := 0)
                          else c.stage.(sent := sent + multiset{l}));
      }
    case Waiting(scan, on) =>
      if on < |c.workers| {
        e, c' := AnswerGoesOn(cfg, me, c);
      } else {
        e := MoveOn;
        var r, f := c.poll.phase.round, c.poll.phase.flight;
        c' := c.(stage := Resting,
                 poll := c.poll.(live := P.Accepted(c.poll.live, r.horizon, f, scan),
                                 phase := if P.Final(f.page, scan) then P.Idle else P.Paging(r)));
      }
  }

  lemma MarkGoesOn(cfg: P.Config, me: nat, c: System) returns (e: Event, c': System)
    requires Inv(cfg, me, c) && c.stage.Marking? && c.stage.next < |c.workers|
    ensures e == MarkNext && |c.past| == |c.workers| && Next(cfg, me, c, e, c')
  {
    var j := c.stage.next;
    assert AtWorker(cfg, me, c.stage, j, BaseOf(c, j), c.past[j], c.workers[j]);
    var w := c.workers[j];
    var w' := W.With(w, me, W.Producer(W.Outside, w.enqueued, [], |w.settled|, None));
    e, c' := MarkNext, c.(workers := c.workers[j := w'], stage := Marking(j + 1));
  }

  lemma WalkGoesOn(cfg: P.Config, me: nat, c: System) returns (e: Event, c': System)
    requires Inv(cfg, me, c) && c.stage == Marking(|c.workers|)
    ensures e.Walk? && |c.past| == |c.workers| && Next(cfg, me, c, e, c')
  {
    PollSafety.ReachableInv(cfg, c.poll);
    var scan := ScanExists(c.poll.live.cur, c.poll.phase.round.horizon, c.poll.phase.flight.page);
    hide P.Scanned;
    e, c' := Walk(scan), c.(stage := Queuing(scan, multiset{}, None, 0));
  }

  lemma PollerAt(cfg: P.Config, me: nat, c: System, j: nat)
    requires Inv(cfg, me, c) && j < |c.workers|
    ensures |c.past| == |c.workers| && WorkerSafety.Inv(c.workers[j]) && me in c.workers[j].producers
    ensures PcFits(c.stage, j, c.workers[j].producers[me].pc)
  {
    assert AtWorker(cfg, me, c.stage, j, BaseOf(c, j), c.past[j], c.workers[j]);
    WorkerSafety.ReachableInv(c.workers[j]);
  }

  lemma LineGoesOn(cfg: P.Config, me: nat, c: System) returns (e: Event, c': System)
    requires Inv(cfg, me, c) && c.stage.Queuing? && c.stage.line.Some? && c.stage.to < |c.workers|
    requires forall w | w in c.workers :: !w.loop.Exited?
    ensures |c.past| == |c.workers| && Forward(c, e) && Next(cfg, me, c, e, c')
  {
    hide Inv;
    hide WorkerSafety.Inv;
    hide W.Next;
    hide W.Reachable;
    hide P.Next;
    hide P.Scanned;
    var j := c.stage.to;
    PollerAt(cfg, me, c, j);
    var step, w' := QueueGoesOn(c.workers[j], me, c.stage.line.value);
    if By(step, me) {
      e := Queue(step);
      c' := c.(workers := c.workers[j := w'],
               stage := if step.Publish? then AfterPublish(c.stage, |c.workers|) else c.stage);
    } else {
      e, c' := Works(cfg, me, c, j, step, w');
    }
  }

  lemma AnswerGoesOn(cfg: P.Config, me: nat, c: System) returns (e: Event, c': System)
    requires Inv(cfg, me, c) && c.stage.Waiting? && c.stage.on < |c.workers|
    requires forall w | w in c.workers :: !w.loop.Exited?
    ensures |c.past| == |c.workers| && Forward(c, e) && Next(cfg, me, c, e, c')
  {
    hide Inv;
    hide WorkerSafety.Inv;
    hide W.Next;
    hide W.Reachable;
    hide P.Next;
    hide P.Scanned;
    var j := c.stage.on;
    PollerAt(cfg, me, c, j);
    var step, w' := WaitGoesOn(c.workers[j], me);
    if By(step, me) {
      e, c' := Await(step), c.(workers := c.workers[j := w']);
      if step.Check? && Answered(w', me) {
        c' := if w'.producers[me].answer == Some(true) then c'.(stage := c.stage.(on := j + 1))
              else c'.(stage := Resting, poll := c.poll.(phase := P.Idle));
      }
    } else {
      e, c' := Works(cfg, me, c, j, step, w');
    }
  }

  lemma Works(cfg: P.Config, me: nat, c: System, i: nat, step: W.Event, w': W.State) returns (e: Event, c': System)
    requires |c.past| == |c.workers| && i < |c.workers| && W.Next(c.workers[i], step, w') && !By(step, me)
    ensures e == Work(i, step) && Next(cfg, me, c, e, c')
  {
    var workers := c.workers[i := w'];
    e, c' := Work(i, step), c.(workers := workers, poll := c.poll.(accepted := AcceptedBy(c.past, workers)));
  }
}
