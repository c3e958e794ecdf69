/** The poller's surroundings as one object: the clock, the log history query,
    the deploy poller's position, the sinks and the cursor store. Every call lets
    time pass first, so anything may have changed between two calls. Answers that
    come from outside are arbitrary within the contract they are checked against.
    The ghost fields carry the PollSystem state; Valid says it is reachable. */
module PollFeed {
  import opened LogLines
  import opened Pacing
  import opened PollSystem
  import opened RawFetch

  /** Lines appear at most settle after their timestamp. */
  predicate Timely(cfg: Config, clock: Time, arrivals: seq<Line>) {
    forall l | l in arrivals :: l.ts + cfg.settle >= clock
  }

  predicate Succeeds(d: Deploy, d': Deploy) {
    && d.gen <= d'.gen
    && (d.gen == d'.gen ==> d.pos <= d'.pos && (d'.registered ==> d.registered))
  }

  function Grown(accepted: seq<multiset<Line>>, more: seq<seq<Line>>): (r: seq<multiset<Line>>)
    requires |accepted| == |more|
    ensures |r| == |accepted| && forall i | 0 <= i < |r| :: Covers(r[i], accepted[i])
  {
    if accepted == [] then [] else [accepted[0] + multiset(more[0])] + Grown(accepted[1..], more[1..])
  }

  function Elapsed(s: State, tick: int, arrivals: seq<Line>, more: seq<seq<Line>>, d: Deploy): State
    requires |more| == |s.accepted|
  {
    s.(clock := s.clock + tick, source := s.source + multiset(arrivals), accepted := Grown(s.accepted, more),
        deploy := d)
  }

  lemma ElapseDrifts(cfg: Config, s: State, tick: int, arrivals: seq<Line>, more: seq<seq<Line>>, d: Deploy)
    requires tick >= 0 && Timely(cfg, s.clock, arrivals) && |more| == |s.accepted| && Succeeds(s.deploy, d)
    requires Reachable(cfg, s)
    ensures Drifts(cfg, s, Elapsed(s, tick, arrivals, more, d))
    ensures Reachable(cfg, Elapsed(s, tick, arrivals, more, d))
  {
    forall l | (s.source + multiset(arrivals))[l] > s.source[l]
      ensures l.ts + cfg.settle >= s.clock
    {
      assert l in multiset(arrivals);
      assert l in arrivals;
    }
    StepReachable(cfg, s, PollSystem.Event.Drift, Elapsed(s, tick, arrivals, more, d));
  }

  lemma NoDrift(cfg: Config, s: State)
    ensures Drifts(cfg, s, s)
  {
  }

  /** What drifts is the clock, the source, the sinks and the deploy poller. */
  lemma DriftsStill(cfg: Config, s: State, s': State, t: State)
    requires Drifts(cfg, s, s')
    requires t.clock == s'.clock && t.source == s'.source && t.accepted == s'.accepted && t.deploy == s'.deploy
    ensures Drifts(cfg, s, t)
  {
  }

  datatype Ack = Written | Dropped | Cancelled

  lemma CoversTrans(a: multiset<Line>, b: multiset<Line>, c: multiset<Line>)
    requires Covers(a, b) && Covers(b, c)
    ensures Covers(a, c)
  {
  }

  /** Sums over a poller's life: the in-scope lines queued to every worker, the
      lines the live cursor accounts for, and how many calls ended in an error. */
  datatype Totals = Totals(handed: multiset<Line>, credit: multiset<Line>, failures: nat)

  class Feed {
    const cfg: Config

    var clock: Time
    var source: multiset<Line>
    var accepted: seq<multiset<Line>>
    var deploy: Deploy
    var stored: Option<Cursor>
    var onDisk: Option<Cursor>
    var retireAt: Option<Time>
    /** The poller has found its context to have ended. */
    var ended: bool

    // The sinks' view of the current page: what each had accepted at the marks,
    // and the in-scope lines queued to every worker since.
    var marked: seq<multiset<Line>>
    var queued: multiset<Line>

    // What the poller has done and been told: every in-scope line queued so far,
    // the calls that ended in an error, the last reply, the last budget, and each
    // floor and gate it has read.
    ghost var handed: multiset<Line>
    ghost var failures: nat
    ghost var reply: seq<RawLine>
    ghost var budget: Budget
    ghost var floors: seq<Option<Time>>
    ghost var gates: seq<Option<Time>>

    // The queries and the waits between them; the waits between rounds since the
    // poller started, and the totals at the last of them.
    ghost var steps: seq<Step>
    ghost var waits: seq<Wait>
    ghost var since: Totals

    ghost var live: Position
    ghost var phase: Phase
    ghost var mem: Option<Position>
    ghost var disk: Option<Position>

    ghost function View(): State
      reads `clock, `source, `accepted, `deploy, `live, `phase, `mem, `disk
    {
      State(clock, source, accepted, deploy, live, phase, mem, disk)
    }

    ghost function Sums(): Totals
      reads `handed, `live, `failures
    {
      Totals(handed, live.credit, failures)
    }

    ghost predicate Valid()
      reads `clock, `source, `accepted, `deploy, `live, `phase, `mem, `disk, `stored, `onDisk
    {
      Reachable(cfg, View()) && stored == CursorOf(mem) && onDisk == CursorOf(disk)
    }

    /** No step of the poller itself between the two states. */
    twostate predicate OnlyDrifted()
      reads this
    {
      && Drifts(cfg, old(View()), View())
      && live == old(live) && phase == old(phase) && old(clock) <= clock && Covers(source, old(source))
      && (old(retireAt).Some? ==> retireAt == old(retireAt))
    }

    constructor (cfg: Config, clock: Time, sinks: nat)
      ensures Valid() && phase.Idle? && this.cfg == cfg
    {
      this.cfg := cfg;
      this.clock := clock;
      source := multiset{};
      accepted := seq(sinks, _ => multiset{});
      deploy := Deploy(0, false, 0);
      stored, onDisk, retireAt := None, None, None;
      marked, queued := [], multiset{};
      ended, handed, failures, reply, budget := false, multiset{}, 0, [], Budget(-1, -1);
      floors, gates, steps, waits, since := [], [], [], [], Totals(multiset{}, multiset{}, 0);
      live, phase, mem, disk := Fresh(clock), Idle, None, None;
      new;
      InitialReachable(cfg, View());
    }

    /** Time passes: lines arrive, sinks accept, the deploy poller moves. */
    method Elapse()
      requires Valid()
      modifies this`clock, this`source, this`accepted, this`deploy
      ensures Valid() && OnlyDrifted()
    {
      hide Reachable;
      hide Drifts;
      hide Covers;
      hide Timely;
      hide Succeeds;
      var tick: int := *;
      var arrivals: seq<Line> := *;
      var written: seq<seq<Line>> := *;
      var d: Deploy := *;
      ghost var before := View();
      NoDrift(cfg, before);
      if && tick >= 0
         && Timely(cfg, clock, arrivals)
         && |written| == |accepted|
         && Succeeds(deploy, d)
      {
        clock := clock + tick;
        source := source + multiset(arrivals);
        accepted := Grown(accepted, written);
        deploy := d;
        ElapseDrifts(cfg, before, tick, arrivals, written, d);
        assert View() == Elapsed(before, tick, arrivals, written, d);
      }
    }

    /** Another source's save prunes this cursor. */
    method PruneStored()
      requires Valid() && stored.Some? && TooOld(stored.value, clock, cfg.pruneAfter)
      modifies this`stored, this`mem
      ensures Valid() && OnlyDrifted()
    {
      ghost var before := View();
      stored, mem := None, None;
      StepReachable(cfg, before, Prune, View());
    }

    /** Another source's save rewrites the cursor file. */
    method FlushStored()
      requires Valid()
      modifies this`onDisk, this`disk
      ensures Valid() && OnlyDrifted()
    {
      ghost var before := View();
      onDisk, disk := stored, mem;
      StepReachable(cfg, before, Flush, View());
    }

    method Drift()
      requires Valid()
      modifies this`clock, this`source, this`accepted, this`deploy, this`stored, this`onDisk, this`mem,
               this`disk, this`retireAt
      ensures Valid() && OnlyDrifted()
    {
      Elapse();
      if retireAt.None? { retireAt := *; }
      var saved: bool := *;
      if saved && stored.Some? && TooOld(stored.value, clock, cfg.pruneAfter) {
        PruneStored();
      }
      if * { FlushStored(); }
    }

    method Now() returns (t: Time)
      requires Valid()
      modifies this`clock, this`source, this`accepted, this`deploy, this`stored, this`onDisk, this`mem,
               this`disk, this`retireAt
      ensures Valid() && OnlyDrifted() && t == clock
    {
      Drift();
      t := clock;
    }

    /** Looks whether the context has ended. */
    method ContextEnded() returns (yes: bool)
      modifies this`ended
      ensures yes == ended && (old(ended) ==> yes)
    {
      if * { ended := true; }
      yes := ended;
    }

    /** The wait between two pages, as long as the last budget read makes it; true
        if the context ended first. */
    method SleepBetweenPages(length: int) returns (cancelled: bool)
      requires Valid() && length == Stretched(CATCH_UP_PAGE_WAIT, ThrottleOf(budget))
      modifies this`clock, this`source, this`accepted, this`deploy, this`stored, this`onDisk, this`mem,
               this`disk, this`retireAt, this`failures, this`steps, this`ended
      ensures Valid() && OnlyDrifted() && steps == old(steps) + [Rest(length, budget)]
      ensures failures == old(failures) + if cancelled then 1 else 0
      ensures cancelled == ended && (old(ended) ==> cancelled)
    {
      Drift();
      steps := steps + [Rest(length, budget)];
      cancelled := ContextEnded();
      if cancelled { failures := failures + 1; }
    }

    /** A wait between two rounds, noted with what it depends on: productive is a
        round since the last one that moved the cursor past lines without error. */
    method SleepBetweenRounds(length: int) returns (cancelled: bool)
      requires Valid()
      modifies this`clock, this`source, this`accepted, this`deploy, this`stored, this`onDisk, this`mem,
               this`disk, this`retireAt, this`waits, this`since, this`ended
      ensures Valid() && OnlyDrifted() && since == Sums() && cancelled == ended && (old(ended) ==> cancelled)
      ensures waits == old(waits) + [Wait(length, budget, old(retireAt).Some?,
                                          old(failures == since.failures && live.credit != since.credit))]
    {
      ghost var productive := failures == since.failures && live.credit != since.credit;
      waits, since := waits + [Wait(length, budget, retireAt.Some?, productive)], Sums();
      Drift();
      cancelled := ContextEnded();
    }

    /** The most recent request budget; negative while unreported. */
    method RateLimitBudget() returns (remaining: int, limit: int)
      modifies this`budget
      ensures budget == Budget(remaining, limit)
    {
      remaining, limit := *, *;
      budget := Budget(remaining, limit);
    }

    /** When the source was retired, if it has been. */
    method Retired() returns (at: Option<Time>)
      requires Valid()
      modifies this`clock, this`source, this`accepted, this`deploy, this`stored, this`onDisk, this`mem,
               this`disk, this`retireAt
      ensures Valid() && OnlyDrifted() && at == retireAt
    {
      Drift();
      at := retireAt;
    }

    /** The oldest position worth reading, if a deploy poller is registered. The
        skip it may cause is taken here on the ghost side. */
    method ReadFloor() returns (floor: Option<Time>)
      requires Valid() && phase.Idle? && cfg.gated
      modifies this`clock, this`source, this`accepted, this`deploy, this`stored, this`onDisk, this`mem,
               this`disk, this`retireAt, this`live, this`phase, this`floors
      ensures Valid() && old(clock) <= clock && Covers(source, old(source)) && floors == old(floors) + [floor]
      ensures floor.None? ==> live == old(live) && phase == Ready(None)
      ensures floor.Some? ==>
                && phase == Ready(Some(floor.value + MAX_KIND_LAG))
                && live == if old(live).cur.ts < floor.value
                           then Skipped(old(live), floor.value, LagGap(old(live).cur.ts, floor.value)) else old(live)
    {
      Drift();
      floor := if deploy.registered then Some(deploy.pos - MAX_KIND_LAG) else None;
      floors := floors + [floor];
      ghost var before := View();
      if floor.Some? && live.cur.ts < floor.value {
        live := Skipped(live, floor.value, LagGap(live.cur.ts, floor.value));
      }
      phase := Ready(if deploy.registered then Some(deploy.pos) else None);
      StepReachable(cfg, before, Floor, View());
    }

    /** A poller without a floor. */
    ghost method NoFloor()
      requires Valid() && phase.Idle? && !cfg.gated
      modifies this`phase
      ensures Valid() && phase == Ready(None)
    {
      var before := View();
      phase := Ready(None);
      StepReachable(cfg, before, Floor, View());
    }

    ghost method SkipTo(to: Time)
      requires Valid() && phase.Idle? && live.cur.ts < to <= clock - cfg.maxCatchUp
      modifies this`live
      ensures Valid() && live == Skipped(old(live), to, CatchUpGap(old(live).cur.ts, to))
    {
      var before := View();
      live := Skipped(live, to, CatchUpGap(live.cur.ts, to));
      StepReachable(cfg, before, CatchUp(to), View());
    }

    method ReadGate() returns (gate: Option<Time>)
      requires Valid()
      modifies this`clock, this`source, this`accepted, this`deploy, this`stored, this`onDisk, this`mem,
               this`disk, this`retireAt, this`gates
      ensures Valid() && OnlyDrifted() && gates == old(gates) + [gate]
      ensures gate == if deploy.registered then Some(deploy.pos + MAX_KIND_SKEW) else None
    {
      Drift();
      gate := if deploy.registered then Some(deploy.pos + MAX_KIND_SKEW) else None;
      gates := gates + [gate];
    }

    ghost method Open(horizon: Time)
      requires Valid() && phase.Ready? && live.cur.ts < horizon <= clock - cfg.settle
      requires cfg.gated && deploy.registered ==> horizon <= deploy.pos + MAX_KIND_SKEW
      modifies this`phase
      ensures Valid() && phase.Paging? && phase.round.horizon == horizon
    {
      var before := View();
      phase := Paging(Round(horizon, if cfg.gated && deploy.registered then Some(deploy.gen) else None, phase.floor));
      StepReachable(cfg, before, Begin(horizon), View());
    }

    /** One history query; None is a query error. Lines of the reply whose
        timestamp does not parse are dropped. */
    method Fetch(anchor: Time) returns (page: Option<seq<Line>>)
      requires Valid() && phase.Paging? && anchor == live.cur.ts
      modifies this`clock, this`source, this`accepted, this`deploy, this`stored, this`onDisk, this`mem,
               this`disk, this`retireAt, this`phase, this`failures, this`reply, this`steps
      ensures Valid() && live == old(live) && old(clock) <= clock && Covers(source, old(source))
      ensures failures == old(failures) + (if page.None? then 1 else 0) && steps == old(steps) + [Query(budget)]
      ensures page.None? ==> phase == old(phase)
      ensures page.Some? ==> page.value == Parsed(reply) && RawContract(source, anchor, reply)
      ensures page.Some? ==> phase == InFlight(old(phase).round, Flight(page.value, |reply|, source, accepted))
    {
      hide Reachable;
      hide Drifts;
      hide Covers;
      hide AnchorContract;
      Drift();
      steps := steps + [Query(budget)];
      var raw: seq<RawLine> := *;
      if RawContract(source, anchor, raw) {
        page := Some(Parsed(raw));
        reply := raw;
        ghost var before := View();
        phase := InFlight(phase.round, Flight(page.value, |raw|, source, accepted));
        StepReachable(cfg, before, PollSystem.Fetch(page.value, |raw|), View());
      } else {
        page := None;
        failures := failures + 1;
      }
    }

    method Marks()
      requires Valid()
      modifies this`clock, this`source, this`accepted, this`deploy, this`stored, this`onDisk, this`mem,
               this`disk, this`retireAt, this`marked, this`queued
      ensures Valid() && marked == accepted && queued == multiset{}
      ensures old(clock) <= clock && Covers(source, old(source))
      ensures |marked| == |old(accepted)| && forall i | 0 <= i < |marked| :: Covers(marked[i], old(accepted)[i])
    {
      Drift();
      marked, queued := accepted, multiset{};
    }

    /** Queues an in-scope line to every worker, waiting for room; false if the
        context ended first. */
    method DispatchWait(l: Line) returns (ok: bool)
      requires Valid()
      modifies this`clock, this`source, this`accepted, this`deploy, this`stored, this`onDisk, this`mem,
               this`disk, this`retireAt, this`queued, this`handed, this`failures, this`ended
      ensures Valid() && OnlyDrifted() && failures == old(failures) + (if ok then 0 else 1)
      ensures ended == (old(ended) || !ok)
      ensures queued == if ok && cfg.scope(l.hash) then old(queued) + multiset{l} else old(queued)
      ensures handed == if ok && cfg.scope(l.hash) then old(handed) + multiset{l} else old(handed)
    {
      Drift();
      ok := true;
      if cfg.scope(l.hash) {
        ok := *;
        if ok {
          queued, handed := queued + multiset{l}, handed + multiset{l};
        } else {
          failures, ended := failures + 1, true;
        }
      }
    }

    /** Waits for every worker. That Written means as much is proved of a poller and
        its workers as one system in Delivery. */
    method WaitWritten() returns (ack: Ack)
      requires Valid()
      modifies this`clock, this`source, this`accepted, this`deploy, this`stored, this`onDisk, this`mem,
               this`disk, this`retireAt, this`failures, this`ended
      ensures Valid() && OnlyDrifted() && failures == old(failures) + (if ack.Written? then 0 else 1)
      ensures ended == (old(ended) || ack.Cancelled?)
      ensures ack.Written? ==> |marked| == |accepted| && forall i | 0 <= i < |accepted| ::
              marked[i] + queued <= accepted[i]
    {
      Drift();
      ack := *;
      if ack.Written? && !(|marked| == |accepted| && forall i | 0 <= i < |accepted| ::
          marked[i] + queued <= accepted[i]) {
        ack := Dropped;
      }
      if !ack.Written? { failures := failures + 1; }
      if ack.Cancelled? { ended := true; }
    }

    /** The page in flight has been acknowledged by every sink. */
    ghost method Commit(sc: Scan)
      requires Valid() && phase.InFlight?
      requires Scanned(live.cur, phase.round.horizon, multiset(phase.flight.page), sc)
      requires Acknowledged(cfg, phase.flight.base, sc.sent, accepted)
      modifies this`live, this`phase
      ensures Valid()
      ensures live == Accepted(old(live), old(phase).round.horizon, old(phase).flight, sc)
      ensures phase == if Final(old(phase).flight.page, sc) then Idle else Paging(old(phase).round)
    {
      var before := View();
      var r, f := phase.round, phase.flight;
      live := Accepted(live, r.horizon, f, sc);
      phase := if Final(f.page, sc) then Idle else Paging(r);
      StepReachable(cfg, before, PollSystem.Accept(sc), View());
    }

    /** The round ends, wherever it was. */
    ghost method Leave()
      requires Valid()
      modifies this`phase
      ensures Valid() && phase.Idle?
    {
      var before := View();
      phase := Idle;
      StepReachable(cfg, before, Abort, View());
    }

    /** Saves the cursor, unless it is itself old enough to be pruned by that; the
        error return means the file was not replaced. */
    method Save(c: Cursor) returns (ok: bool)
      requires Valid() && (phase.Idle? || phase.Paging?) && c == live.cur
      modifies this`clock, this`source, this`accepted, this`deploy, this`stored, this`onDisk, this`mem,
               this`disk, this`retireAt
      ensures Valid() && OnlyDrifted() && (ok ==> onDisk == stored)
      ensures stored == if 0 < cfg.pruneAfter && c.ts < clock - cfg.pruneAfter then None else Some(c)
    {
      hide Reachable;
      hide Drifts;
      hide Covers;
      Drift();
      ok := *;
      ghost var before := View();
      stored := Kept(c, clock, cfg.pruneAfter);
      mem := if stored.Some? then Some(live) else None;
      if ok { onDisk, disk := stored, mem; }
      StepReachable(cfg, before, PollSystem.Save(ok), View());
      DriftsStill(cfg, old(View()), before, View());
    }

    method Delete() returns (ok: bool)
      requires Valid()
      modifies this`clock, this`source, this`accepted, this`deploy, this`stored, this`onDisk, this`mem,
               this`disk, this`retireAt
      ensures Valid() && OnlyDrifted() && stored == None
    {
      hide Reachable;
      hide Drifts;
      hide Covers;
      Drift();
      ok := *;
      ghost var before := View();
      stored, mem := None, None;
      if ok { onDisk, disk := None, None; }
      StepReachable(cfg, before, PollSystem.Delete(ok), View());
      DriftsStill(cfg, old(View()), before, View());
    }

    /** A poller starts: from the stored cursor, or at start. */
    method Load(start: Time) returns (c: Option<Cursor>)
      requires Valid()
      modifies this`live, this`phase, this`waits, this`since
      ensures Valid() && phase.Idle? && c == stored && waits == [] && since == Sums()
      ensures live.cur == if c.Some? then c.value else Cursor(start, multiset{})
      ensures live == if mem.Some? then mem.value else Fresh(start)
    {
      c := stored;
      ghost var before := View();
      live, phase := if mem.Some? then mem.value else Fresh(start), Idle;
      waits, since := [], Sums();
      StepReachable(cfg, before, Start(start), View());
    }
  }
}
