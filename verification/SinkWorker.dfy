/** The worker's own code: batches from the queue, bounded retries against the
    sink, the settle bookkeeping, and draining on shutdown. Producers may add to
    the queue between any two steps. */
module SinkWorkers {
  import opened LogLines
  import opened WorkerProtocol
  import opened WorkerSafety
  import opened WorkerTheorems
  import opened Backoff
  import opened Contexts

  const MAX_ATTEMPTS: nat := 3

  /** The records are numbered from one; the settled ones, the batch in hand and
      the queue are all of them, in order. */
  ghost predicate Queued(sent: seq<Item>, settled: seq<Settled>, batch: seq<Item>, queue: seq<Item>) {
    Numbered(sent) && Items(settled) + batch + queue == sent
  }

  /** written and failed describe what has settled. */
  ghost predicate Tallied(settled: seq<Settled>, written: nat, failed: nat) {
    && written == |settled| && failed <= written
    && (forall i | 0 <= i < |settled| && !settled[i].ok :: i < failed)
    && (failed > 0 ==> !settled[failed - 1].ok)
  }

  /** What the consumer's loop may wake up to. */
  datatype Case = Record | Tick | Done

  function RecordTurns(wakes: seq<Case>): nat {
    if wakes == [] then 0
    else RecordTurns(wakes[..|wakes| - 1]) + if wakes[|wakes| - 1].Record? then 1 else 0
  }

  /** The ticker fires after so many records. */
  predicate Enough(wakes: seq<Case>, records: int) {
    wakes != []
    && (Enough(wakes[..|wakes| - 1], records)
        || (wakes[|wakes| - 1].Tick? && RecordTurns(wakes[..|wakes| - 1]) >= records))
  }

  class SinkWorker {
    const ctx: Context
    const batchSize: nat
    const capacity: nat
    var queue: seq<Item>
    var enqueued: nat
    var written: nat
    var failed: nat
    var gen: nat
    var closed: bool

    /** Everything ever put on the queue, everything settled, and what the sink
        has said it accepted. */
    ghost var sent: seq<Item>
    ghost var settled: seq<Settled>
    ghost var accepted: multiset<Line>
    /** The calls to the sink. */
    ghost var tries: nat

    ghost predicate Holds(batch: seq<Item>)
      reads this
    {
      && batchSize > 0 && capacity > 0 && |queue| <= capacity && enqueued == |sent|
      && Queued(sent, settled, batch, queue)
      && Tallied(settled, written, failed) && accepted == AcceptedLines(settled)
    }

    /** History only grows. */
    twostate predicate Onward()
      reads this
    {
      old(sent) <= sent && old(settled) <= settled && old(gen) <= gen && (old(closed) ==> closed)
    }

    constructor (ctx: Context, queueSize: int, batchSize: int)
      ensures Holds([]) && queue == [] && !closed && this.ctx == ctx
      ensures this.capacity == if queueSize <= 0 then 10000 else queueSize
      ensures this.batchSize == if batchSize <= 0 then 500 else batchSize
    {
      this.ctx := ctx;
      this.capacity := if queueSize <= 0 then 10000 else queueSize;
      this.batchSize := if batchSize <= 0 then 500 else batchSize;
      queue, enqueued, written, failed, gen, closed := [], 0, 0, 0, 0, false;
      sent, settled, accepted, tries := [], [], multiset{}, 0;
    }

    /** The subscription path: a record that finds the queue full is dropped, and
        uses up no number. */
    method Enqueue(rec: Line, ghost batch: seq<Item>) returns (ok: bool)
      requires Holds(batch)
      modifies this`queue, this`enqueued, this`sent
      ensures Holds(batch) && ok == (|old(queue)| < capacity)
      ensures ok ==> queue == old(queue) + [Item(rec, old(enqueued) + 1)]
      ensures ok ==> sent == old(sent) + [Item(rec, old(enqueued) + 1)]
      ensures !ok ==> queue == old(queue) && sent == old(sent)
    {
      hide Queued;
      hide Tallied;
      hide AcceptedLines;
      ok := |queue| < capacity;
      if ok {
        var item := Item(rec, enqueued + 1);
        SentItem(sent, settled, batch, queue, item);
        queue, enqueued, sent := queue + [item], enqueued + 1, sent + [item];
      }
    }

    /** The polling path: room on the queue is waited for, unless the context ends
        first, here while the worker wakes up so often. It is waited for in vain
        only if the worker takes no record meanwhile. inHand is the worker's
        batch. */
    method EnqueueWait(rec: Line, inHand: seq<Item>, wakes: seq<Case>) returns (ok: bool, batch: seq<Item>)
      requires Holds(inHand) && |inHand| < batchSize
      modifies this, ctx
      ensures Holds(batch) && Onward() && |batch| < batchSize
      ensures sent == old(sent) + if ok then [Item(rec, old(enqueued) + 1)] else []
      ensures |old(queue)| < capacity ==> ok && settled == old(settled)
      ensures !ok ==> |queue| >= capacity && (closed || forall i | 0 <= i < |wakes| :: !wakes[i].Record?)
    {
      hide Queued;
      hide Tallied;
      hide AcceptedLines;
      hide TurnTaken;
      batch := inHand;
      var at := 0;
      while |queue| >= capacity
        invariant Holds(batch) && Onward() && |batch| < batchSize && sent == old(sent) && at <= |wakes|
        invariant |queue| >= capacity && !closed ==> forall i | 0 <= i < at :: !wakes[i].Record?
        invariant |queue| <= |old(queue)| || closed
        invariant |old(queue)| < capacity ==> queue == old(queue) && settled == old(settled)
        decreases |wakes| - at
      {
        if at == |wakes| {
          return false, batch;
        }
        batch := Consume(batch, wakes[at], 0);
        at := at + 1;
      }
      ok := Enqueue(rec, batch);
    }

    /** How much has been sent by now, as the number to measure from. */
    method Mark(ghost batch: seq<Item>) returns (since: nat)
      requires Holds(batch)
      ensures since == |sent|
    {
      since := enqueued;
    }

    /** Waits until everything enqueued so far has settled. Some(true): each item
        after the mark was accepted. Some(false): one after the mark was dropped.
        None: the context ended first, here while the worker wakes up so often, and
        something is unsettled; not so if its ticker fires after enough records. */
    method WaitWritten(since: nat, inHand: seq<Item>, wakes: seq<Case>)
      returns (answer: Option<bool>, batch: seq<Item>)
      requires Holds(inHand) && |inHand| < batchSize && since <= |sent|
      modifies this, ctx
      ensures Holds(batch) && Onward() && |batch| < batchSize
      ensures answer == Some(true) ==>
                |old(sent)| <= |settled| && forall i | since <= i < |old(sent)| ::
                    settled[i] == Settled(old(sent)[i], true)
      ensures answer == Some(false) ==> exists i :: since <= i < |settled| && !settled[i].ok
      ensures answer == None ==> |settled| < |old(sent)| && (old(closed) || !Enough(wakes, |old(queue)|))
    {
      hide Queued;
      hide AcceptedLines;
      hide TurnTaken;
      hide Enough;
      hide RecordTurns;
      var target := enqueued;
      batch := inHand;
      var at := 0;
      NothingTaken(wakes);
      SentAddsUp(sent, settled, batch, queue);
      while written < target
        invariant Holds(batch) && Onward() && |batch| < batchSize && at <= |wakes| && written == |settled|
        invariant old(closed) ||
                  Served(wakes[..at], |old(sent)|, |old(sent)| - |old(queue)|, |settled|, |batch|, closed)
        decreases |wakes| - at
      {
        if at == |wakes| {
          assert wakes[..at] == wakes;
          return None, batch;
        }
        Producers(batch);
        ghost var n, queued, was, held, done := |sent|, |queue|, |settled|, |batch|, closed;
        SentAddsUp(sent, settled, batch, queue);
        batch := Consume(batch, wakes[at], 0);
        if !old(closed) {
          ServedOn(wakes, at, |old(sent)|, |old(sent)| - |old(queue)|, n, queued, was, held, |settled|, |batch|, done,
                   closed);
        }
        at := at + 1;
      }
      answer := Some(failed <= since);
      AnswerIsRight(old(sent), sent, settled, batch, queue, written, failed, since);
    }

    /** What a poller does with one worker for a page: mark, queue each record,
        wait. Some(true) then means that the sink has accepted every record of the
        page on top of what it had accepted before, whoever else was sending. */
    method SendPage(recs: seq<Line>, inHand: seq<Item>, wakes: seq<Case>)
      returns (answer: Option<bool>, batch: seq<Item>)
      requires Holds(inHand) && |inHand| < batchSize
      modifies this, ctx
      ensures Holds(batch) && Onward() && |batch| < batchSize
      ensures answer == Some(true) ==> old(accepted) + multiset(recs) <= accepted
      ensures answer == None ==> closed || !Enough(wakes, capacity)
    {
      hide Queued;
      hide Tallied;
      hide AcceptedLines;
      hide Records;
      hide SentSince;
      hide Enough;
      batch := inHand;
      var since := Mark(batch);
      NoneSentYet(sent, settled, batch, queue);
      assert recs[..0] == [];
      for i := 0 to |recs|
        invariant Holds(batch) && Onward() && |batch| < batchSize && since <= |sent|
        invariant SentSince(sent, since, recs[..i])
      {
        ghost var before := sent;
        Producers(batch);
        StillSent(before, sent, since, recs[..i]);
        before := sent;
        ghost var no := enqueued + 1;
        var ok;
        ok, batch := EnqueueWait(recs[i], batch, wakes);
        if !ok {
          if !closed { NoneIsNotEnough(wakes, capacity); }
          return None, batch;
        }
        OneMoreSent(before, Item(recs[i], no), since, recs, i);
      }
      assert recs[..|recs|] == recs;
      ghost var queued := sent;
      FewerAreEnough(wakes, |queue|, capacity);
      answer, batch := WaitWritten(since, batch, wakes);
      if answer == Some(true) {
        AcceptedOnTop(old(settled), settled, queued, since, recs);
      }
    }

    /** Producers put more records on the queue, as far as there is room. */
    method Producers(ghost batch: seq<Item>)
      requires Holds(batch)
      modifies this`queue, this`enqueued, this`sent
      ensures Holds(batch) && Onward()
    {
      hide Queued;
      hide Tallied;
      hide AcceptedLines;
      var lines: seq<Line> := *;
      for i := 0 to |lines|
        invariant Holds(batch) && old(sent) <= sent
      {
        var ok := Enqueue(lines[i], batch);
      }
    }

    /** One turn of the consumer. Record: a record joins the batch, which goes out
        as one block once it is full. Tick: what is in hand goes out. Done, and a
        full batch or the ticker once the context has been found to have ended:
        everything settles and the worker closes. */
    method Turn(inHand: seq<Item>, case': Case, late: nat) returns (batch: seq<Item>)
      requires Holds(inHand) && |inHand| < batchSize && !closed
      requires (case'.Record? ==> queue != []) && (case'.Done? ==> ctx.ended)
      modifies this, ctx
      ensures Holds(batch) && Onward() && |batch| < batchSize
      ensures (late == 0 || !closed ==> sent == old(sent)) && (old(ctx.ended) ==> ctx.ended)
      ensures closed ==> ctx.ended && batch == [] && old(sent) <= Items(settled)
      ensures closed <== case'.Done? || (old(ctx.ended) && case'.Tick?)
      ensures closed <== old(ctx.ended) && case'.Record? && |inHand| + 1 >= batchSize
      ensures closed ==> !case'.Record? || |inHand| + 1 >= batchSize
      ensures !closed && case'.Record? ==> queue == old(queue)[1..]
      ensures !closed && case'.Record? && |inHand| + 1 < batchSize ==>
                batch == inHand + [old(queue)[0]] && settled == old(settled)
      ensures !closed && case'.Record? && |inHand| + 1 >= batchSize ==>
                batch == [] && exists ok :: settled == old(settled) + Tagged(inHand + [old(queue)[0]], ok)
                                            && (ok || tries == old(tries) + 3 || ctx.ended)
      ensures !closed && case'.Tick? ==>
                batch == [] && queue == old(queue) && exists ok :: settled == old(settled) + Tagged(inHand, ok)
                                                                   && (ok || tries == old(tries) + 3 || ctx.ended)
    {
      hide Queued;
      hide Tallied;
      hide AcceptedLines;
      batch := inHand;
      var ended := case'.Done?;
      var goes := case'.Tick?;
      if case'.Record? {
        batch := Receive(batch);
        goes := |batch| >= batchSize;
      }
      if goes {
        ended := ctx.Ended();
      }
      if ended {
        ghost var timedOut := DrainAndClose(batch, late);
        batch := [];
      } else if goes {
        if batch != [] {
          var ok := Write(ctx, batch);
          assert settled == old(settled) + Tagged(batch, ok);
        } else {
          assert settled == old(settled) + Tagged(batch, true);
        }
        batch := [];
      }
    }

    /** One turn, for what the worker wakes up to; the ticker stands in for a
        record where there is none and for a context that goes on. No turn once the
        worker has closed. */
    method Consume(inHand: seq<Item>, wake: Case, late: nat) returns (batch: seq<Item>)
      requires Holds(inHand) && |inHand| < batchSize
      modifies this, ctx
      ensures Holds(batch) && Onward() && |batch| < batchSize
      ensures late == 0 || !closed ==> sent == old(sent)
      ensures closed && !old(closed) ==> ctx.ended && batch == [] && old(sent) <= Items(settled)
      ensures old(closed) ==> closed && batch == inHand && sent == old(sent) && settled == old(settled)
      ensures old(closed) ==> queue == old(queue)
      ensures old(ctx.ended) ==> ctx.ended && (wake.Done? ==> closed)
      ensures !closed ==> queue == if wake.Record? && old(queue) != [] then old(queue)[1..] else old(queue)
      ensures TurnTaken(wake, |old(sent)|, |old(queue)|, |old(settled)|, |inHand|, old(closed), |settled|, |batch|,
                        closed)
    {
      hide Queued;
      hide Tallied;
      hide AcceptedLines;
      batch := inHand;
      if closed {
        return;
      }
      var case' := wake;
      if wake.Done? {
        var done := ctx.Ended();
        case' := if done then Done else Tick;
      } else if queue == [] {
        case' := Tick;
      }
      batch := Turn(batch, case', late);
    }

    /** The bookkeeping after a batch, whose last item is number no, has been to the
        sink. */
    method Settle(no: nat, ok: bool)
      modifies this`written, this`failed, this`gen
      ensures written == if no > old(written) then no else old(written)
      ensures failed == if !ok && no > old(failed) then no else old(failed)
      ensures gen == old(gen) + 1
    {
      if no > written {
        written := no;
      }
      if !ok && no > failed {
        failed := no;
      }
      gen := gen + 1;
    }

    /** One call to the sink. */
    method SinkWrite(recs: seq<Line>) returns (refused: bool)
      modifies this`accepted, this`tries
      ensures tries == old(tries) + 1 && accepted == old(accepted) + if refused then multiset{} else multiset(recs)
    {
      tries := tries + 1;
      refused := *;
      if !refused {
        accepted := accepted + multiset(recs);
      }
    }

    /** Sends the records until the sink accepts them, with at most three attempts
        and backing off in between; it gives up earlier only if the context ends.
        True exactly when an attempt was accepted. */
    method WriteRecords(ctx: Context, recs: seq<Line>) returns (ok: bool)
      modifies this`accepted, this`tries, ctx
      ensures accepted == old(accepted) + if ok then multiset(recs) else multiset{}
      ensures old(tries) < tries <= old(tries) + MAX_ATTEMPTS
      ensures !ok ==> tries == old(tries) + 3 || ctx.ended
      ensures old(ctx.ended) ==> ctx.ended && tries == old(tries) + 1
      ensures old(ctx.sleeps) <= ctx.sleeps
      ensures tries - old(tries) - 1 <= |ctx.sleeps| - |old(ctx.sleeps)| <= tries - old(tries)
      ensures forall i | 0 <= i < |ctx.sleeps| - |old(ctx.sleeps)| ::
                ctx.sleeps[|old(ctx.sleeps)| + i] == Capped(RETRY_BASE, RETRY_CAP, i)
    {
      hide Capped;
      var attempt := 1;
      ghost var slept := ctx.sleeps;
      while true
        invariant 1 <= attempt <= MAX_ATTEMPTS && tries == old(tries) + attempt - 1
        invariant accepted == old(accepted) && (old(ctx.ended) ==> ctx.ended && attempt == 1)
        invariant slept <= ctx.sleeps && |ctx.sleeps| == |slept| + attempt - 1
        invariant forall i | 0 <= i < attempt - 1 :: ctx.sleeps[|slept| + i] == Capped(RETRY_BASE, RETRY_CAP, i)
        decreases MAX_ATTEMPTS - attempt
      {
        var refused := SinkWrite(recs);
        if !refused {
          return true;
        }
        var ended := attempt >= MAX_ATTEMPTS;
        if !ended { ended := ctx.Ended(); }
        if ended {
          return false;
        }
        RetryBackoffIsCapped(attempt);
        var cancelled := ctx.Sleep(RetryBackoff(attempt));
        if cancelled {
          return false;
        }
        attempt := attempt + 1;
      }
    }

    /** Sends a batch and settles it. */
    method Write(ctx: Context, batch: seq<Item>) returns (ok: bool)
      requires Holds(batch) && batch != []
      modifies this`accepted, this`tries, this`written, this`failed, this`gen, this`settled, ctx
      ensures Holds([]) && Onward() && gen == old(gen) + 1 && (old(ctx.ended) ==> ctx.ended)
      ensures settled == old(settled) + Tagged(batch, ok) && Items(settled) == Items(old(settled)) + batch
      ensures accepted == old(accepted) + if ok then multiset(Records(batch)) else multiset{}
      ensures old(tries) < tries && (!ok ==> tries == old(tries) + 3 || ctx.ended)
    {
      hide Queued;
      hide Tallied;
      hide AcceptedLines;
      hide Capped;
      var recs := Records(batch);
      ok := WriteRecords(ctx, recs);
      SettledBatch(sent, settled, batch, queue, ok);
      TalliedBatch(settled, batch, ok, written, failed);
      TaggedLines(settled, batch, ok);
      Settle(batch[|batch| - 1].no, ok);
      settled := settled + Tagged(batch, ok);
    }

    /** One record from the queue into the batch. */
    method Receive(inHand: seq<Item>) returns (batch: seq<Item>)
      requires Holds(inHand) && queue != []
      modifies this`queue
      ensures Holds(batch) && batch == inHand + [old(queue)[0]] && queue == old(queue)[1..]
    {
      ReceivedItem(sent, settled, inHand, queue);
      hide *;
      batch, queue := inHand + [queue[0]], queue[1..];
    }

    /** One more record from the queue; a full batch is written. */
    method DrainOne(ctx: Context, inHand: seq<Item>) returns (batch: seq<Item>)
      requires Holds(inHand) && |inHand| <= batchSize && queue != []
      modifies this`queue, this`accepted, this`tries, this`written, this`failed, this`gen, this`settled, ctx
      ensures Holds(batch) && Onward() && |batch| <= batchSize && |queue| < |old(queue)| && old(tries) <= tries
      ensures TriedHard(settled, |old(settled)|, tries - old(tries), ctx.ended) && (old(ctx.ended) ==> ctx.ended)
    {
      hide Queued;
      hide Tallied;
      hide AcceptedLines;
      hide TriedHard;
      NothingNew(settled, ctx.ended);
      batch := Receive(inHand);
      if |batch| >= batchSize {
        var ok := Write(ctx, batch);
        NewAre(old(settled), batch, ok, tries - old(tries), ctx.ended);
        batch := [];
      }
    }

    /** What is left once the queue is empty. */
    method WriteRest(ctx: Context, batch: seq<Item>)
      requires Holds(batch) && queue == []
      modifies this`accepted, this`tries, this`written, this`failed, this`gen, this`settled, ctx
      ensures Holds([]) && Onward() && old(tries) <= tries && sent <= Items(settled)
      ensures TriedHard(settled, |old(settled)|, tries - old(tries), ctx.ended) && (old(ctx.ended) ==> ctx.ended)
    {
      hide Queued;
      hide Tallied;
      hide AcceptedLines;
      hide TriedHard;
      NothingNew(settled, ctx.ended);
      QueueEmptied(sent, settled, batch);
      if batch != [] {
        var ok := Write(ctx, batch);
        NewAre(old(settled), batch, ok, tries - old(tries), ctx.ended);
      }
    }

    /** Settles what is in hand and everything queued, in batches, under a context
        of its own, then closes the sink. late bounds how often producers still get
        in between. */
    method DrainAndClose(inHand: seq<Item>, late: nat) returns (ghost timedOut: bool)
      requires Holds(inHand) && |inHand| <= batchSize
      modifies this
      ensures Holds([]) && Onward() && closed
      ensures TriedHard(settled, |old(settled)|, tries - old(tries), timedOut)
      ensures old(sent) <= Items(settled)
      ensures late == 0 ==> sent == old(sent)
    {
      hide Queued;
      hide Tallied;
      hide AcceptedLines;
      hide TriedHard;
      NothingNew(settled, false);
      var batch, left := inHand, late;
      var draining := new Context();
      while queue != []
        invariant Holds(batch) && Onward() && |batch| <= batchSize && left <= late
        invariant late == 0 ==> sent == old(sent)
        invariant old(tries) <= tries && TriedHard(settled, |old(settled)|, tries - old(tries), draining.ended)
        decreases left, |queue|
      {
        ghost var from, tried := settled, tries;
        batch := DrainOne(draining, batch);
        StillTried(from, settled, |old(settled)|, tried - old(tries), tries - tried, draining.ended);
        if left > 0 {
          Producers(batch);
          left := left - 1;
        }
      }
      ghost var from, tried := settled, tries;
      WriteRest(draining, batch);
      StillTried(from, settled, |old(settled)|, tried - old(tries), tries - tried, draining.ended);
      timedOut, closed := draining.ended, true;
    }

    /** The consumer as it wakes up, until it closes. While it is open, everything
        sent before has settled once the ticker has fired after as many records as
        were queued; once it is closed, in any case. */
    method Serve(inHand: seq<Item>, wakes: seq<Case>, late: nat) returns (batch: seq<Item>)
      requires Holds(inHand) && |inHand| < batchSize && !closed
      modifies this, ctx
      ensures Holds(batch) && Onward() && |batch| < batchSize
      ensures closed ==> ctx.ended && batch == [] && old(sent) <= Items(settled)
      ensures old(ctx.ended) && Done in wakes ==> closed
      ensures Enough(wakes, |old(queue)|) ==> |old(sent)| <= |settled|
    {
      hide Queued;
      hide Tallied;
      hide AcceptedLines;
      hide TurnTaken;
      hide Enough;
      hide RecordTurns;
      batch := inHand;
      var at := 0;
      NothingTaken(wakes);
      SentAddsUp(sent, settled, batch, queue);
      while at < |wakes| && !closed
        invariant Holds(batch) && Onward() && |batch| < batchSize && at <= |wakes|
        invariant closed ==> ctx.ended && batch == [] && old(sent) <= Items(settled)
        invariant old(ctx.ended) ==> ctx.ended && (Done in wakes[..at] ==> closed)
        invariant Served(wakes[..at], |old(sent)|, |old(sent)| - |old(queue)|, |settled|, |batch|, closed)
        decreases |wakes| - at
      {
        Producers(batch);
        ghost var n, queued, was, held := |sent|, |queue|, |settled|, |batch|;
        SentAddsUp(sent, settled, batch, queue);
        batch := Consume(batch, wakes[at], late);
        ServedOn(wakes, at, |old(sent)|, |old(sent)| - |old(queue)|, n, queued, was, held, |settled|, |batch|, false,
                 closed);
        at := at + 1;
      }
      assert at == |wakes| ==> wakes[..at] == wakes;
    }

    /** The consumer from start to end: it serves, and on shutdown everything that
        was queued is settled before the sink is closed. wakes is the part before
        shutdown. */
    method Run(wakes: seq<Case>, late: nat)
      requires Holds([]) && !closed
      modifies this, ctx
      ensures Holds([]) && Onward() && closed
      ensures old(sent) <= Items(settled)
    {
      hide Queued;
      hide Tallied;
      hide AcceptedLines;
      hide Enough;
      var batch := Serve([], wakes, late);
      if !closed {
        ghost var timedOut := DrainAndClose(batch, late);
      }
    }
  }

  /** Of what settled from some point on, all was accepted, unless the sink was
      tried three times or the context ended. */
  ghost predicate TriedHard(settled: seq<Settled>, from: nat, tries: int, ended: bool) {
    ended || tries >= 3 || forall i | from <= i < |settled| :: settled[i].ok
  }

  lemma NothingNew(settled: seq<Settled>, ended: bool)
    ensures TriedHard(settled, |settled|, 0, ended)
  {
  }

  lemma NewAre(settled: seq<Settled>, batch: seq<Item>, ok: bool, tries: int, ended: bool)
    requires ok || tries >= 3 || ended
    ensures TriedHard(settled + Tagged(batch, ok), |settled|, tries, ended)
  {
  }

  lemma StillTried(before: seq<Settled>, now: seq<Settled>, from: nat, tries: nat, more: nat, ended: bool)
    requires TriedHard(before, from, tries, ended) && before <= now && TriedHard(now, |before|, more, ended)
    ensures TriedHard(now, from, tries + more, ended)
  {
  }

  // ----- turns

  /** A turn in numbers: at is how many records had settled, held how many were in
      hand and queued how many on the queue, sent how many had been sent; a closed
      worker takes no turn. */
  ghost predicate TurnTaken(wake: Case, sent: int, queued: int, at: int, held: int, closed: bool,
                            at': int, held': int, closed': bool) {
    if closed then at' == at && held' == held && closed'
    else
      && at <= at'
      && if closed' then at' >= sent && held' == 0
         else
           && at' + held' == at + held + (if wake.Record? && queued > 0 then 1 else 0)
           && (wake.Tick? ==> held' == 0)
  }

  /** After the worker has woken up so often since some moment: from there on target
      records had to settle, of which first had been taken off the queue. */
  ghost predicate Served(wakes: seq<Case>, target: int, first: int, at: int, held: int, closed: bool) {
    && (closed ==> at >= target)
    && (!closed ==> at + held >= target || at + held >= first + RecordTurns(wakes))
    && (Enough(wakes, target - first) ==> at >= target)
  }

  lemma NothingTaken(wakes: seq<Case>)
    ensures wakes[..0] == [] && RecordTurns([]) == 0
    ensures forall n :: !Enough([], n)
  {
  }

  lemma {:induction false} NoneIsNotEnough(wakes: seq<Case>, records: int)
    requires records > 0 && forall i | 0 <= i < |wakes| :: !wakes[i].Record?
    ensures RecordTurns(wakes) == 0 && !Enough(wakes, records)
  {
    if wakes != [] { NoneIsNotEnough(wakes[..|wakes| - 1], records); }
  }

  lemma {:induction false} FewerAreEnough(wakes: seq<Case>, few: int, many: int)
    requires few <= many
    ensures Enough(wakes, many) ==> Enough(wakes, few)
  {
    if wakes != [] { FewerAreEnough(wakes[..|wakes| - 1], few, many); }
  }

  lemma WakesGrow(wakes: seq<Case>, at: nat, records: int)
    requires at < |wakes|
    ensures RecordTurns(wakes[..at + 1]) == RecordTurns(wakes[..at]) + (if wakes[at].Record? then 1 else 0)
    ensures Enough(wakes[..at + 1], records)
            <==> Enough(wakes[..at], records) || (wakes[at].Tick? && RecordTurns(wakes[..at]) >= records)
  {
    assert wakes[..at + 1][..at] == wakes[..at];
  }

  lemma ServedOn(wakes: seq<Case>, i: nat, target: int, first: int, sent: int, queued: int, at: int, held: int,
                 at': int, held': int, closed: bool, closed': bool)
    requires i < |wakes| && Served(wakes[..i], target, first, at, held, closed) && target <= sent
    requires !closed ==> at + held + queued == sent && queued >= 0
    requires TurnTaken(wakes[i], sent, queued, at, held, closed, at', held', closed')
    ensures Served(wakes[..i + 1], target, first, at', held', closed')
  {
    hide Enough;
    hide RecordTurns;
    WakesGrow(wakes, i, target - first);
  }

  lemma AnswerIsRight(before: seq<Item>, sent: seq<Item>, settled: seq<Settled>, batch: seq<Item>, queue: seq<Item>,
                      written: nat, failed: nat, since: nat)
    requires Queued(sent, settled, batch, queue) && Tallied(settled, written, failed)
    requires before <= sent && |before| <= written
    ensures |before| <= |settled|
    ensures failed <= since ==> forall i | since <= i < |before| :: settled[i] == Settled(before[i], true)
    ensures failed > since ==> exists i :: since <= i < |settled| && !settled[i].ok
  {
  }

  function Records(batch: seq<Item>): (r: seq<Line>)
    ensures |r| == |batch| && forall i | 0 <= i < |r| :: r[i] == batch[i].rec
  {
    seq(|batch|, i requires 0 <= i < |batch| => batch[i].rec)
  }

  /** Among the items after the mark are the records of lines. */
  ghost predicate SentSince(sent: seq<Item>, since: nat, lines: seq<Line>) {
    since <= |sent| && multiset(lines) <= multiset(Records(sent[since..]))
  }

  lemma StillSent(before: seq<Item>, sent: seq<Item>, since: nat, lines: seq<Line>)
    requires SentSince(before, since, lines) && before <= sent
    ensures SentSince(sent, since, lines)
  {
    assert Records(sent[since..]) == Records(before[since..]) + Records(sent[|before|..]);
  }

  lemma OneMoreSent(before: seq<Item>, item: Item, since: nat, recs: seq<Line>, i: nat)
    requires i < |recs| && item.rec == recs[i] && SentSince(before, since, recs[..i])
    ensures SentSince(before + [item], since, recs[..i + 1])
  {
    assert recs[..i + 1] == recs[..i] + [recs[i]];
    assert Records((before + [item])[since..]) == Records(before[since..]) + [recs[i]];
  }

  lemma QueueEmptied(sent: seq<Item>, settled: seq<Settled>, batch: seq<Item>)
    requires Queued(sent, settled, batch, [])
    ensures Items(settled) + batch == sent && (batch == [] ==> Items(settled) == sent)
  {
  }

  lemma SentAddsUp(sent: seq<Item>, settled: seq<Settled>, batch: seq<Item>, queue: seq<Item>)
    requires Queued(sent, settled, batch, queue)
    ensures |settled| + |batch| + |queue| == |sent|
  {
  }

  lemma NoneSentYet(sent: seq<Item>, settled: seq<Settled>, batch: seq<Item>, queue: seq<Item>)
    requires Queued(sent, settled, batch, queue)
    ensures SentSince(sent, |sent|, []) && |settled| <= |sent|
  {
  }

  /** Items after the mark that were all accepted come on top of what had been. */
  lemma AcceptedOnTop(before: seq<Settled>, settled: seq<Settled>, queued: seq<Item>, since: nat, lines: seq<Line>)
    requires before <= settled && |before| <= since <= |queued| <= |settled| && SentSince(queued, since, lines)
    requires forall i | since <= i < |queued| :: settled[i] == Settled(queued[i], true)
    ensures AcceptedLines(before) + multiset(lines) <= AcceptedLines(settled)
  {
    var mid, mine := settled[..since], queued[since..];
    AcceptedOnlyGrows(before, mid);
    TaggedLines(mid, mine, true);
    assert settled[..|queued|] == mid + Tagged(mine, true);
    AcceptedOnlyGrows(settled[..|queued|], settled);
    hide AcceptedLines;
  }

  lemma LastSettled(settled: seq<Settled>, x: Settled)
    ensures AcceptedLines(settled + [x]) == AcceptedLines(settled) + if x.ok then multiset{x.item.rec} else multiset{}
  {
  }

  /** Settling a batch adds its lines to what the sink accepted, or none. */
  lemma {:induction false} TaggedLines(settled: seq<Settled>, batch: seq<Item>, ok: bool)
    ensures AcceptedLines(settled + Tagged(batch, ok))
            == AcceptedLines(settled) + if ok then multiset(Records(batch)) else multiset{}
    decreases |batch|
  {
    hide AcceptedLines;
    if batch == [] {
      assert settled + Tagged(batch, ok) == settled;
      assert Records(batch) == [];
    } else {
      var init, last := batch[..|batch| - 1], batch[|batch| - 1];
      assert Records(batch) == Records(init) + [last.rec];
      assert settled + Tagged(batch, ok) == (settled + Tagged(init, ok)) + [Settled(last, ok)];
      TaggedLines(settled, init, ok);
      LastSettled(settled + Tagged(init, ok), Settled(last, ok));
    }
  }

  lemma SettledBatch(sent: seq<Item>, before: seq<Settled>, batch: seq<Item>, queue: seq<Item>, ok: bool)
    requires Queued(sent, before, batch, queue) && batch != []
    ensures Queued(sent, before + Tagged(batch, ok), [], queue)
    ensures Items(before + Tagged(batch, ok)) == Items(before) + batch
    ensures batch[|batch| - 1].no == |before| + |batch|
  {
    assert sent[|before| + |batch| - 1] == batch[|batch| - 1];
    assert Items(before + Tagged(batch, ok)) == Items(before) + batch;
  }

  lemma TalliedBatch(before: seq<Settled>, batch: seq<Item>, ok: bool, written: nat, failed: nat)
    requires Tallied(before, written, failed) && batch != []
    ensures var n := |before| + |batch|;
            n > written >= failed && Tallied(before + Tagged(batch, ok), n, if ok then failed else n)
  {
  }

  lemma ReceivedItem(sent: seq<Item>, settled: seq<Settled>, batch: seq<Item>, queue: seq<Item>)
    requires Queued(sent, settled, batch, queue) && queue != []
    ensures Queued(sent, settled, batch + [queue[0]], queue[1..])
  {
  }

  lemma SentItem(sent: seq<Item>, settled: seq<Settled>, batch: seq<Item>, queue: seq<Item>, item: Item)
    requires Queued(sent, settled, batch, queue) && item.no == |sent| + 1
    ensures Queued(sent + [item], settled, batch, queue + [item])
  {
  }
}
