/** One sink worker and its producers as a transition system: sequence numbers
    under the send lock, the bounded queue, the batching consumer, the three
    counters and the generation of the progress channel. Any number of producers
    interleave freely with the worker and with shutdown. */
module WorkerProtocol {
  import opened LogLines

  datatype Item = Item(rec: Line, no: nat)

  /** A settled item and whether its batch was accepted by the sink. */
  datatype Settled = Settled(item: Item, ok: bool)

  /** Where a producer is. Sending holds the send lock with its next sequence
      number; Sent has put the item on the queue but not yet moved enqueued;
      Blocked waits for the progress channel of generation gen to be closed. */
  datatype Pc =
    | Outside
    | Sending(rec: Line, no: nat, blocking: bool)
    | Sent(rec: Line, no: nat)
    | Checking(target: nat)
    | Blocked(target: nat, gen: nat)

  /** since, mine, settledAtMark: the last mark, the items put on the queue since
      then, and how many had settled at the mark. answer: the last result of
      waitWritten for this mark. */
  datatype Producer = Producer(pc: Pc, since: nat, mine: seq<Item>, settledAtMark: nat, answer: Option<bool>)

  datatype Loop = Collecting | Wrote(ok: bool) | Exited

  datatype State = State(
    queue: seq<Item>, capacity: nat, batch: seq<Item>, batchSize: nat, loop: Loop, settled: seq<Settled>,
    enqueued: nat, written: nat, failed: nat, gen: nat,
    lock: Option<nat>, producers: map<nat, Producer>, cancelled: bool)

  datatype Event =
    | Mark(p: nat)
    | Lock(p: nat, rec: Line, blocking: bool)
    | Put(p: nat)
    | Full(p: nat)
    | GiveUp(p: nat)
    | Publish(p: nat)
    | Wait(p: nat)
    | Check(p: nat)
    | Wake(p: nat)
    | Abandon(p: nat)
    | Receive
    | SinkWrite(ok: bool)
    | Settle
    | Cancel
    | Exit

  function Tagged(batch: seq<Item>, ok: bool): (r: seq<Settled>)
    ensures |r| == |batch| && forall i | 0 <= i < |r| :: r[i] == Settled(batch[i], ok)
  {
    seq(|batch|, i requires 0 <= i < |batch| => Settled(batch[i], ok))
  }

  /** The counters after a batch ending at number no has been through the sink. */
  function AfterSettle(s: State, no: nat, ok: bool): State {
    s.(written := if no > s.written then no else s.written,
       failed := if !ok && no > s.failed then no else s.failed,
       gen := s.gen + 1)
  }

  predicate Known(s: State, p: nat) {
    p in s.producers
  }

  function With(s: State, p: nat, pr: Producer): State {
    s.(producers := s.producers[p := pr])
  }

  predicate Next(s: State, e: Event, s': State) {
    match e
    case Mark(p) =>
      && Known(s, p) && s.producers[p].pc.Outside?
      && s' == With(s, p, Producer(Outside, s.enqueued, [], |s.settled|, None))
    case Lock(p, rec, blocking) =>
      && Known(s, p) && s.producers[p].pc.Outside? && s.lock.None?
      && s' == With(s, p, s.producers[p].(pc := Sending(rec, s.enqueued + 1, blocking))).(lock := Some(p))
    case Put(p) =>
      && Known(s, p) && s.producers[p].pc.Sending? && |s.queue| < s.capacity
      && var pc := s.producers[p].pc;
         s' == With(s, p, s.producers[p].(pc := Sent(pc.rec, pc.no))).(queue := s.queue + [Item(pc.rec, pc.no)])
    case Full(p) =>
      && Known(s, p) && s.producers[p].pc.Sending? && !s.producers[p].pc.blocking && |s.queue| >= s.capacity
      && s' == With(s, p, s.producers[p].(pc := Outside)).(lock := None)
    case GiveUp(p) =>
      && Known(s, p) && s.producers[p].pc.Sending? && s.producers[p].pc.blocking
      && s' == With(s, p, s.producers[p].(pc := Outside)).(lock := None)
    case Publish(p) =>
      && Known(s, p) && s.producers[p].pc.Sent?
      && var pr := s.producers[p];
         s' == With(s, p, pr.(pc := Outside, mine := pr.mine + [Item(pr.pc.rec, pr.pc.no)], answer := None))
               .(lock := None, enqueued := pr.pc.no)
    case Wait(p) =>
      && Known(s, p) && s.producers[p].pc.Outside?
      && s' == With(s, p, s.producers[p].(pc := Checking(s.enqueued)))
    case Check(p) =>
      && Known(s, p) && s.producers[p].pc.Checking?
      && var pr := s.producers[p];
         s' == With(s, p, if s.written >= pr.pc.target then pr.(pc := Outside, answer := Some(s.failed <= pr.since))
                          else pr.(pc := Blocked(pr.pc.target, s.gen)))
    case Wake(p) =>
      && Known(s, p) && s.producers[p].pc.Blocked? && s.producers[p].pc.gen < s.gen
      && s' == With(s, p, s.producers[p].(pc := Checking(s.producers[p].pc.target)))
    case Abandon(p) =>
      && Known(s, p) && s.producers[p].pc.Blocked?
      && s' == With(s, p, s.producers[p].(pc := Outside))
    case Receive =>
      && s.loop.Collecting? && s.queue != []
      && (|s.batch| < s.batchSize || (s.cancelled && |s.batch| == s.batchSize))
      && s' == s.(queue := s.queue[1..], batch := s.batch + [s.queue[0]])
    case SinkWrite(ok) =>
      s.loop.Collecting? && s.batch != [] && s' == s.(loop := Wrote(ok))
    case Settle =>
      && s.loop.Wrote? && s.batch != []
      && s' == AfterSettle(s, s.batch[|s.batch| - 1].no, s.loop.ok)
               .(settled := s.settled + Tagged(s.batch, s.loop.ok), batch := [], loop := Collecting)
    case Cancel =>
      s' == s.(cancelled := true)
    case Exit =>
      s.cancelled && s.loop.Collecting? && s.batch == [] && s.queue == [] && s' == s.(loop := Exited)
  }

  predicate Initial(s: State) {
    && s.queue == [] && s.batch == [] && s.settled == [] && s.loop.Collecting? && s.lock.None?
    && s.enqueued == s.written == s.failed == s.gen == 0
    && s.capacity > 0 && s.batchSize > 0
    && forall p | p in s.producers :: s.producers[p] == Producer(Outside, 0, [], 0, None)
  }

  ghost predicate IsRun(run: seq<State>, events: seq<Event>) {
    && |run| == |events| + 1 && Initial(run[0])
    && forall i | 0 <= i < |events| :: Next(run[i], events[i], run[i + 1])
  }

  ghost predicate Reachable(s: State) {
    exists run, events :: IsRun(run, events) && run[|events|] == s
  }

  lemma InitialReachable(s: State)
    requires Initial(s)
    ensures Reachable(s)
  {
    var run: seq<State>, events: seq<Event> := [s], [];
    assert IsRun(run, events) && run[|events|] == s;
  }

  lemma StepReachable(s: State, e: Event, s': State)
    requires Reachable(s) && Next(s, e, s')
    ensures Reachable(s')
  {
    var run, events :| IsRun(run, events) && run[|events|] == s;
    var run', events' := run + [s'], events + [e];
    hide Next;
    forall i | 0 <= i < |events'|
      ensures Next(run'[i], events'[i], run'[i + 1])
    {
      if i < |events| {
        assert Next(run[i], events[i], run[i + 1]);
      }
    }
    assert IsRun(run', events');
    assert run'[|events'|] == s';
  }
}
