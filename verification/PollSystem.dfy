/** One polled source as a transition system: the poller, its stored cursor and
    everything around it (arriving lines, the sinks, the deploy poller it gates
    on) take interleaved steps. Safety over whole runs is proved here; Poller
    shows that the polling code only ever takes these steps. */
module PollSystem {
  import opened LogLines

  const MAX_KIND_SKEW: Time := 45 * 60 * 1_000_000_000
  const MAX_KIND_LAG: Time := 50 * 60 * 1_000_000_000

  /** gated: the source is an HTTP source, held close to a deploy poller.
      scope: which lines pass the service allowlist. pruneAfter: the age at which
      a save drops a cursor, zero for never. */
  datatype Config = Config(settle: nat, maxCatchUp: nat, gated: bool, scope: Hash -> bool, pruneAfter: nat)

  /** Lines before ts are dealt with; at ts exactly the lines in seen are. */
  datatype Cursor = Cursor(ts: Time, seen: multiset<Hash>)

  /** What happened to the timestamps in [lo, hi). Cut: they were passed on a full
      reply that looked short, because lines without a timestamp were dropped
      from it; the code keeps no record of that. */
  datatype Window =
    | Delivered(lo: Time, hi: Time)
    | CatchUpGap(lo: Time, hi: Time)
    | LagGap(lo: Time, hi: Time)
    | Stepped(lo: Time, hi: Time)
    | Cut(lo: Time, hi: Time)

  /** A cursor with its history: where its lineage began, the lines it accounts
      for, and the windows it went through. A restart that loads a stored cursor
      continues the history that cursor had when it was stored. */
  datatype Position = Position(start: Time, cur: Cursor, credit: multiset<Line>, ledger: seq<Window>)

  /** The deploy poller registered for the same environment or service. gen
      changes whenever it is replaced or removed. */
  datatype Deploy = Deploy(gen: nat, registered: bool, pos: Time)

  /** gate: generation of the deploy poller the horizon was capped by.
      floor: the deploy position the floor was taken from. */
  datatype Round = Round(horizon: Time, gate: Option<nat>, floor: Option<Time>)

  /** A fetched page on its way to the sinks: how many lines the reply had, the
      source when it was fetched, and what each sink had accepted by then. */
  datatype Flight = Flight(page: seq<Line>, raw: nat, fetched: multiset<Line>, base: seq<multiset<Line>>)

  datatype Phase =
    | Idle
    | Ready(floor: Option<Time>)
    | Paging(round: Round)
    | InFlight(round: Round, flight: Flight)

  datatype State = State(clock: Time, source: multiset<Line>, accepted: seq<multiset<Line>>, deploy: Deploy,
                         live: Position, phase: Phase, mem: Option<Position>, disk: Option<Position>)

  /** The result of walking one sorted page: the lines handed to the sinks, the
      next cursor, and whether the page went past the horizon. */
  datatype Scan = Scan(sent: multiset<Line>, next: Cursor, beyond: bool)

  // ----- walking one page

  /** How many copies of l the poller owes the sinks for this page. */
  function Owed(cur: Cursor, horizon: Time, page: multiset<Line>, l: Line): nat {
    if l.ts < cur.ts || l.ts > horizon then 0
    else if l.ts > cur.ts then page[l]
    else if page[l] > cur.seen[l.hash] then page[l] - cur.seen[l.hash]
    else 0
  }

  ghost predicate Scanned(cur: Cursor, horizon: Time, page: multiset<Line>, sc: Scan) {
    && (forall l :: sc.sent[l] == Owed(cur, horizon, page, l))
    && cur.ts <= sc.next.ts
    && (forall l | l in page && l.ts <= horizon :: l.ts <= sc.next.ts)
    && (sc.next.ts == cur.ts ==> forall h :: sc.next.seen[h] == cur.seen[h] + sc.sent[Line(cur.ts, h)])
    && (sc.next.ts > cur.ts ==>
          && sc.next.ts <= horizon
          && (exists l :: l in page && l.ts == sc.next.ts)
          && forall h :: sc.next.seen[h] == page[Line(sc.next.ts, h)])
    && (sc.beyond <==> exists l :: l in page && l.ts > horizon)
  }

  predicate Final(page: seq<Line>, sc: Scan) {
    sc.beyond || |page| < PAGE_SIZE
  }

  /** Where the cursor stands once the page has been accepted. */
  function Landing(cur: Cursor, horizon: Time, page: seq<Line>, sc: Scan): Cursor {
    if Final(page, sc) then
      if sc.next.ts < horizon then Cursor(horizon, multiset{}) else sc.next
    else if sc.next.ts > cur.ts then sc.next
    else Cursor(sc.next.ts + 1, multiset{})
  }

  /** The reply was full, but the page made from it ends the round as a short one. */
  predicate CutShort(page: seq<Line>, raw: nat, sc: Scan) {
    !sc.beyond && |page| < PAGE_SIZE <= raw
  }

  function Passed(cur: Cursor, horizon: Time, f: Flight, sc: Scan): seq<Window> {
    var to := Landing(cur, horizon, f.page, sc);
    if to.ts <= cur.ts then []
    else if !Final(f.page, sc) && sc.next.ts <= cur.ts then [Stepped(cur.ts, to.ts)]
    else if CutShort(f.page, f.raw, sc) && sc.next.ts < to.ts then
      (if sc.next.ts > cur.ts then [Delivered(cur.ts, sc.next.ts)] else []) + [Cut(sc.next.ts, to.ts)]
    else [Delivered(cur.ts, to.ts)]
  }

  /** Cursors that a save drops. */
  predicate TooOld(c: Cursor, now: Time, pruneAfter: Time) {
    pruneAfter > 0 && c.ts < now - pruneAfter
  }

  /** What a save leaves of the cursor it is given. */
  function Kept(c: Cursor, now: Time, pruneAfter: Time): Option<Cursor> {
    if TooOld(c, now, pruneAfter) then None else Some(c)
  }

  // ----- steps

  datatype Event =
    | Drift
    | CatchUp(to: Time)
    | Floor
    | Begin(horizon: Time)
    | Fetch(page: seq<Line>, raw: nat)
    | Accept(scan: Scan)
    | Abort
    | Save(durable: bool)
    | Prune
    | Flush
    | Delete(durable: bool)
    | Crash
    | Start(at: Time)

  ghost predicate Covers(after: multiset<Line>, before: multiset<Line>) {
    forall l :: before[l] <= after[l]
  }

  /** Everything that can change under the poller's feet. A line appears no
      later than settle after its timestamp. */
  ghost predicate Drifts(cfg: Config, s: State, s': State) {
    && s.clock <= s'.clock
    && Covers(s'.source, s.source)
    && (forall l :: s'.source[l] > s.source[l] ==> l.ts + cfg.settle >= s.clock)
    && |s'.accepted| == |s.accepted|
    && (forall i | 0 <= i < |s.accepted| :: Covers(s'.accepted[i], s.accepted[i]))
    && s.deploy.gen <= s'.deploy.gen
    && (s.deploy.gen == s'.deploy.gen ==>
          s.deploy.pos <= s'.deploy.pos && (s'.deploy.registered ==> s.deploy.registered))
  }

  /** Every sink accepted, on top of base, each in-scope line of sent. */
  ghost predicate Acknowledged(cfg: Config, base: seq<multiset<Line>>, sent: multiset<Line>,
                               accepted: seq<multiset<Line>>) {
    && |base| == |accepted|
    && forall i: int, l: Line | 0 <= i < |accepted| && cfg.scope(l.hash) :: base[i][l] + sent[l] <= accepted[i][l]
  }

  function Skipped(pos: Position, to: Time, w: Window): Position {
    pos.(cur := Cursor(to, multiset{}), ledger := pos.ledger + [w])
  }

  function Fresh(at: Time): Position {
    Position(at, Cursor(at, multiset{}), multiset{}, [])
  }

  function Accepted(pos: Position, horizon: Time, f: Flight, sc: Scan): Position {
    Position(pos.start, Landing(pos.cur, horizon, f.page, sc), pos.credit + sc.sent,
             pos.ledger + Passed(pos.cur, horizon, f, sc))
  }

  function CursorOf(p: Option<Position>): Option<Cursor> {
    if p.Some? then Some(p.value.cur) else None
  }

  ghost predicate Next(cfg: Config, s: State, e: Event, s': State) {
    match e
    case Drift =>
      && s' == s.(clock := s'.clock, source := s'.source, accepted := s'.accepted, deploy := s'.deploy)
      && Drifts(cfg, s, s')
    case CatchUp(to) =>
      && s.phase.Idle? && s.live.cur.ts < to <= s.clock - cfg.maxCatchUp
      && s' == s.(live := Skipped(s.live, to, CatchUpGap(s.live.cur.ts, to)))
    case Floor =>
      && s.phase.Idle?
      && var to := s.deploy.pos - MAX_KIND_LAG;
         if !cfg.gated || !s.deploy.registered then s' == s.(phase := Ready(None))
         else if s.live.cur.ts < to then
           s' == s.(live := Skipped(s.live, to, LagGap(s.live.cur.ts, to)), phase := Ready(Some(s.deploy.pos)))
         else s' == s.(phase := Ready(Some(s.deploy.pos)))
    case Begin(horizon) =>
      && s.phase.Ready?
      && s.live.cur.ts < horizon <= s.clock - cfg.settle
      && (cfg.gated && s.deploy.registered ==> horizon <= s.deploy.pos + MAX_KIND_SKEW)
      && var gate := if cfg.gated && s.deploy.registered then Some(s.deploy.gen) else None;
         s' == s.(phase := Paging(Round(horizon, gate, s.phase.floor)))
    case Fetch(page, raw) =>
      && s.phase.Paging? && AnchorContract(s.source, s.live.cur.ts, page, raw)
      && s' == s.(phase := InFlight(s.phase.round, Flight(page, raw, s.source, s.accepted)))
    case Accept(sc) =>
      && s.phase.InFlight?
      && var r, f := s.phase.round, s.phase.flight;
         && Scanned(s.live.cur, r.horizon, multiset(f.page), sc)
         && Acknowledged(cfg, f.base, sc.sent, s.accepted)
         && s' == s.(live := Accepted(s.live, r.horizon, f, sc),
                     phase := if Final(f.page, sc) then Idle else Paging(r))
    case Abort =>
      s' == s.(phase := Idle)
    case Save(durable) =>
      && (s.phase.Idle? || s.phase.Paging?)
      && var mem := if TooOld(s.live.cur, s.clock, cfg.pruneAfter) then None else Some(s.live);
         s' == s.(mem := mem, disk := if durable then mem else s.disk)
    case Prune =>
      && s.mem.Some? && TooOld(s.mem.value.cur, s.clock, cfg.pruneAfter)
      && s' == s.(mem := None)
    case Flush =>
      s' == s.(disk := s.mem)
    case Delete(durable) =>
      s' == s.(mem := None, disk := if durable then None else s.disk)
    case Crash =>
      s' == s.(mem := s.disk, phase := Idle)
    case Start(at) =>
      s' == s.(live := if s.mem.Some? then s.mem.value else Fresh(at), phase := Idle)
  }

  ghost predicate Initial(s: State) {
    && s.live == Fresh(s.live.start) && s.phase.Idle? && s.mem.None? && s.disk.None?
  }

  ghost predicate IsRun(cfg: Config, run: seq<State>, events: seq<Event>) {
    && |run| == |events| + 1
    && Initial(run[0])
    && forall i | 0 <= i < |events| :: Next(cfg, run[i], events[i], run[i + 1])
  }

  ghost predicate Reachable(cfg: Config, s: State) {
    exists run, events :: IsRun(cfg, run, events) && run[|events|] == s
  }

  lemma InitialReachable(cfg: Config, s: State)
    requires Initial(s)
    ensures Reachable(cfg, s)
  {
    var run: seq<State>, events: seq<Event> := [s], [];
    assert IsRun(cfg, run, events) && run[|events|] == s;
  }

  lemma StepReachable(cfg: Config, s: State, e: Event, s': State)
    requires Reachable(cfg, s) && Next(cfg, s, e, s')
    ensures Reachable(cfg, s')
  {
    var run, events :| IsRun(cfg, run, events) && run[|events|] == s;
    var run', events' := run + [s'], events + [e];
    forall i | 0 <= i < |events'|
      ensures Next(cfg, run'[i], events'[i], run'[i + 1])
    {
      if i < |events| {
        assert Next(cfg, run[i], events[i], run[i + 1]);
      }
    }
    assert IsRun(cfg, run', events');
    assert run'[|events'|] == s';
  }
}
