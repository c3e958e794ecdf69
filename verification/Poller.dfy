/** The polling code itself: one round (PollOnce) and the life of a poller
    (RunPoller), taking the steps of PollSystem on the way. */
module Pollers {
  import opened LogLines
  import opened PollSystem
  import opened PollSafety
  import opened PollTheorems
  import opened CursorCells
  import opened PollFeed
  import opened Pacing
  import opened Backoff
  import opened RawFetch
  import opened RoundProofs

  datatype Outcome = Ok | QueryError | DeliveryError | Interrupted

  predicate NonDecreasing(ts: seq<Time>) {
    forall i, j | 0 <= i < j < |ts| :: ts[i] <= ts[j]
  }

  class Poller {
    /** The published position, read by gates and the lag metric. */
    var pos: Time
    /** The counters behind the skip metrics. */
    var skipped: Time
    var stepped: nat
    ghost var published: seq<Time>
    /** What the counters stood at before this poller's first window. */
    ghost var skippedBefore: Time
    ghost var steppedBefore: int

    ghost predicate Valid()
      reads this
    {
      NonDecreasing(published) && (published != [] ==> published[|published| - 1] == pos)
    }

    constructor ()
      ensures Valid() && published == [] && skipped == 0 && stepped == 0
    {
      pos, skipped, stepped, published := 0, 0, 0, [];
      skippedBefore, steppedBefore := 0, 0;
    }

    /** The first position; the counters are read against this ledger from now on. */
    method Begin(ts: Time, ghost ledger: seq<Window>)
      requires Valid() && published == []
      modifies this
      ensures Valid() && pos == ts && published == [ts]
      ensures skipped - skippedBefore == GapTime(ledger) && stepped - steppedBefore == StepCount(ledger)
    {
      skippedBefore, steppedBefore := skipped - GapTime(ledger), stepped - StepCount(ledger);
      SetCursor(ts);
    }

    method SetCursor(ts: Time)
      requires Valid() && (published != [] ==> pos <= ts)
      modifies this`pos, this`published
      ensures Valid() && pos == ts && published == old(published) + [ts]
    {
      pos, published := ts, published + [ts];
    }
  }

  /** Hands one line to the workers, as far as it is in scope. */
  method SendLine(w: Feed, e: Line, ghost held: multiset<Line>, ghost handed: multiset<Line>,
                  ghost sent: multiset<Line>)
    returns (ok: bool)
    requires w.Valid() && QueuedUp(w.cfg, held, w.queued, sent) && QueuedUp(w.cfg, handed, w.handed, sent)
    modifies w`clock, w`source, w`accepted, w`deploy, w`stored, w`onDisk, w`mem, w`disk, w`retireAt, w`queued,
             w`handed, w`failures, w`ended
    ensures w.Valid() && old(w.clock) <= w.clock && Covers(w.source, old(w.source))
    ensures w.failures == old(w.failures) + (if ok then 0 else 1) && w.ended == (old(w.ended) || !ok)
    ensures var now := if ok then sent + multiset{e} else sent;
            QueuedUp(w.cfg, held, w.queued, now) && QueuedUp(w.cfg, handed, w.handed, now)
  {
    hide *;
    ghost var queued, out := w.queued, w.handed;
    ok := w.DispatchWait(e);
    if ok {
      QueuesOne(w.cfg, held, queued, w.queued, sent, e);
      QueuesOne(w.cfg, handed, out, w.handed, sent, e);
    }
  }

  /** Walks one sorted page: skips lines already delivered at the cursor, hands
      the rest to the sinks and builds the next cursor. */
  method WalkPage(w: Feed, cur: CursorCell, horizon: Time, page: seq<Line>)
    returns (next: CursorCell, beyond: bool, n: nat, ok: bool, ghost sent: multiset<Line>)
    requires w.Valid() && SortedByTs(page) && cur.ts <= horizon + 1
    modifies w`clock, w`source, w`accepted, w`deploy, w`stored, w`onDisk, w`mem, w`disk, w`retireAt, w`queued,
             w`handed, w`failures, w`ended
    ensures fresh(next) && w.Valid() && old(w.clock) <= w.clock && Covers(w.source, old(w.source))
    ensures n == |sent| && w.failures == old(w.failures) + (if ok then 0 else 1) && w.ended == (old(w.ended) || !ok)
    ensures ok ==> Scanned(cur.View(), horizon, multiset(page), Scan(sent, next.View(), beyond))
    ensures QueuedUp(w.cfg, old(w.queued), w.queued, sent) && QueuedUp(w.cfg, old(w.handed), w.handed, sent)
  {
    hide *;
    next := cur.Clone();
    var seen: multiset<Hash> := cur.seen;
    beyond, n, sent := false, 0, multiset{};
    ghost var c := cur.View();
    BeginsPage(cur, horizon, page);
    QueuesNone(w.cfg, w.queued);
    QueuesNone(w.cfg, w.handed);
    CoversItself(w.source);
    var i := 0;
    while i < |page|
      invariant 0 <= i <= |page|
      invariant fresh(next) && !beyond && n == |sent| && w.Valid()
      invariant WalkedTo(c, horizon, page, i, Scan(sent, next.View(), false), seen)
      invariant QueuedUp(w.cfg, old(w.queued), w.queued, sent) && QueuedUp(w.cfg, old(w.handed), w.handed, sent)
      invariant old(w.clock) <= w.clock && Covers(w.source, old(w.source))
      invariant w.failures == old(w.failures) && w.ended == old(w.ended)
    {
      var e := page[i];
      ghost var sc := Scan(sent, next.View(), false);
      if e.ts < cur.ts {
        IgnoresLine(c, horizon, page, i, sc, seen);
        i := i + 1;
        continue;
      }
      if e.ts > horizon {
        StopsPage(c, horizon, page, i, sc, seen);
        return next, true, n, true, sent;
      }
      if e.ts == cur.ts && seen[e.hash] > 0 {
        SkipsLine(c, horizon, page, i, sc, seen);
        seen := seen[e.hash := seen[e.hash] - 1];
        i := i + 1;
        continue;
      }
      SendsLine(c, horizon, page, i, sc, seen);
      ghost var source := w.source;
      var queued := SendLine(w, e, old(w.queued), old(w.handed), sent);
      CoversTrans(w.source, source, old(w.source));
      if !queued {
        return next, false, n, false, sent;
      }
      n := n + 1;
      sent := sent + multiset{e};
      next.Advance(e.ts, e.hash);
      i := i + 1;
    }
    EndsPage(c, horizon, page, Scan(sent, next.View(), false), seen);
    ok := true;
  }

  /** The state of the walk before line i of a sorted page. */
  ghost predicate WalkedTo(cur: Cursor, horizon: Time, page: seq<Line>, i: nat, sc: Scan, seen: multiset<Hash>) {
    && i <= |page| && SortedByTs(page) && cur.ts <= horizon + 1
    && Walked(cur, horizon, multiset(page[..i]), sc, seen)
  }

  lemma BeginsPage(cur: CursorCell, horizon: Time, page: seq<Line>)
    requires SortedByTs(page) && cur.ts <= horizon + 1
    ensures cur.View() == Cursor(cur.ts, cur.seen)
    ensures WalkedTo(cur.View(), horizon, page, 0, Scan(multiset{}, cur.View(), false), cur.seen)
  {
  }

  lemma IgnoresLine(cur: Cursor, horizon: Time, page: seq<Line>, i: nat, sc: Scan, seen: multiset<Hash>)
    requires WalkedTo(cur, horizon, page, i, sc, seen) && i < |page| && page[i].ts < cur.ts
    ensures WalkedTo(cur, horizon, page, i + 1, sc, seen)
  {
    EarlierOnPage(page, i);
    WalkIgnores(cur, horizon, multiset(page[..i]), sc, seen, page[i]);
    hide Walked;
  }

  lemma SkipsLine(cur: Cursor, horizon: Time, page: seq<Line>, i: nat, sc: Scan, seen: multiset<Hash>)
    requires WalkedTo(cur, horizon, page, i, sc, seen) && i < |page|
    requires page[i].ts == cur.ts <= horizon && seen[page[i].hash] > 0
    ensures WalkedTo(cur, horizon, page, i + 1, sc, seen[page[i].hash := seen[page[i].hash] - 1])
  {
    EarlierOnPage(page, i);
    WalkSkips(cur, horizon, multiset(page[..i]), sc, seen, page[i]);
    hide Walked;
  }

  lemma SendsLine(cur: Cursor, horizon: Time, page: seq<Line>, i: nat, sc: Scan, seen: multiset<Hash>)
    requires WalkedTo(cur, horizon, page, i, sc, seen) && i < |page|
    requires cur.ts <= page[i].ts <= horizon && (page[i].ts == cur.ts ==> seen[page[i].hash] == 0)
    ensures WalkedTo(cur, horizon, page, i + 1,
                     Scan(sc.sent + multiset{page[i]}, Advanced(sc.next, page[i].ts, page[i].hash), false), seen)
  {
    EarlierOnPage(page, i);
    WalkSends(cur, horizon, multiset(page[..i]), sc, seen, page[i]);
    hide Walked;
    hide Advanced;
  }

  lemma StopsPage(cur: Cursor, horizon: Time, page: seq<Line>, i: nat, sc: Scan, seen: multiset<Hash>)
    requires WalkedTo(cur, horizon, page, i, sc, seen) && i < |page| && page[i].ts > horizon
    ensures Scanned(cur, horizon, multiset(page), sc.(beyond := true))
  {
    RestIsLater(page, i, horizon);
    WalkStops(cur, horizon, multiset(page[..i]), sc, seen, multiset(page[i..]));
    hide Scanned;
  }

  lemma EndsPage(cur: Cursor, horizon: Time, page: seq<Line>, sc: Scan, seen: multiset<Hash>)
    requires WalkedTo(cur, horizon, page, |page|, sc, seen)
    ensures Scanned(cur, horizon, multiset(page), sc)
  {
    assert page[..|page|] == page;
  }

  /** The workers hold, on top of what they held, the in-scope lines of sent. */
  ghost predicate QueuedUp(cfg: Config, before: multiset<Line>, after: multiset<Line>, sent: multiset<Line>) {
    forall l: Line | cfg.scope(l.hash) :: after[l] == before[l] + sent[l]
  }

  lemma QueuesNone(cfg: Config, held: multiset<Line>)
    ensures QueuedUp(cfg, held, held, multiset{})
  {
  }

  lemma CoversItself(m: multiset<Line>)
    ensures Covers(m, m)
  {
  }

  lemma QueuesOn(cfg: Config, before: multiset<Line>, held: multiset<Line>, after: multiset<Line>,
                 sent: multiset<Line>, more: multiset<Line>)
    requires QueuedUp(cfg, before, held, sent) && QueuedUp(cfg, held, after, more)
    ensures QueuedUp(cfg, before, after, sent + more)
  {
  }

  lemma QueuesOne(cfg: Config, before: multiset<Line>, held: multiset<Line>, after: multiset<Line>,
                  sent: multiset<Line>, e: Line)
    requires QueuedUp(cfg, before, held, sent)
    requires after == if cfg.scope(e.hash) then held + multiset{e} else held
    ensures QueuedUp(cfg, before, after, sent + multiset{e})
  {
  }

  lemma RestIsLater(page: seq<Line>, i: nat, horizon: Time)
    requires SortedByTs(page) && i < |page| && page[i].ts > horizon
    ensures multiset(page) == multiset(page[..i]) + multiset(page[i..])
    ensures |multiset(page[i..])| > 0 && forall l | l in multiset(page[i..]) :: l.ts > horizon
  {
    assert page == page[..i] + page[i..];
    forall l | l in multiset(page[i..])
      ensures l.ts > horizon
    {
      assert l in page[i..];
    }
  }

  lemma EarlierOnPage(page: seq<Line>, i: nat)
    requires SortedByTs(page) && i < |page|
    ensures multiset(page[..i + 1]) == multiset(page[..i]) + multiset{page[i]}
    ensures forall l | l in multiset(page[..i]) :: l.ts <= page[i].ts
  {
    assert page[..i + 1] == page[..i] + [page[i]];
    forall l | l in multiset(page[..i])
      ensures l.ts <= page[i].ts
    {
      assert l in page[..i];
    }
  }

  /** What the marks and the acknowledgement amount to: each worker accepted the
      in-scope lines of the page on top of what it had accepted at the query. */
  lemma PageAcknowledged(cfg: Config, base: seq<multiset<Line>>, marked: seq<multiset<Line>>, queued: multiset<Line>,
                         accepted: seq<multiset<Line>>, sent: multiset<Line>)
    requires |base| == |marked| == |accepted|
    requires forall i | 0 <= i < |base| :: Covers(marked[i], base[i])
    requires QueuedUp(cfg, multiset{}, queued, sent)
    requires forall i | 0 <= i < |accepted| :: marked[i] + queued <= accepted[i]
    ensures Acknowledged(cfg, base, sent, accepted)
  {
  }

  lemma CursorInRound(w: Feed, p: Poller, cur: CursorCell)
    requires InStep(w, p, cur) && w.phase.Paging?
    ensures cur.ts <= w.phase.round.horizon + 1
  {
    ReachableInv(w.cfg, w.View());
  }

  lemma RoundBeginsHere(w: Feed, p: Poller, cur: CursorCell, horizon: Time)
    requires InStep(w, p, cur) && cur.ts <= horizon
    ensures Progress(w.live, w.live, multiset{}, horizon, horizon + 1)
  {
    RoundBegins(w.cfg, w.View(), horizon);
  }

  /** The live cursor, its published position, the skip counters and the
      surroundings agree. */
  ghost predicate InStep(w: Feed, p: Poller, cur: CursorCell)
    reads w, p, cur
  {
    InCount(w, p, cur) && cur.View() == w.live.cur
  }

  /** The published position and the counters agree with cursor and history. */
  ghost predicate InCount(w: Feed, p: Poller, cur: CursorCell)
    reads w, p, cur
  {
    && w.Valid() && p.Valid() && p.published != [] && p.pos == cur.ts
    && p.skipped - p.skippedBefore == GapTime(w.live.ledger)
    && p.stepped - p.steppedBefore == StepCount(w.live.ledger)
  }

  /** What only ever grows: the clock, the source, the cursor's history and the
      published positions. */
  datatype Trail = Trail(clock: Time, source: multiset<Line>, start: Time, ledger: seq<Window>, published: seq<Time>,
                         skippedBefore: Time, steppedBefore: int)

  ghost function TrailOf(w: Feed, p: Poller): Trail
    reads w`clock, w`source, w`live, p`published, p`skippedBefore, p`steppedBefore
  {
    Trail(w.clock, w.source, w.live.start, w.live.ledger, p.published, p.skippedBefore, p.steppedBefore)
  }

  ghost predicate Prolongs(a: Trail, b: Trail) {
    && a.clock <= b.clock && Covers(b.source, a.source)
    && a.start == b.start && a.ledger <= b.ledger && a.published <= b.published
    && a.skippedBefore == b.skippedBefore && a.steppedBefore == b.steppedBefore
  }

  lemma ProlongsItself(t: Trail)
    ensures Prolongs(t, t)
  {
  }

  lemma ProlongsTrans(a: Trail, b: Trail, c: Trail)
    requires Prolongs(a, b) && Prolongs(b, c)
    ensures Prolongs(a, c)
  {
    CoversTrans(c.source, b.source, a.source);
    hide Covers;
  }

  /** Time passes along a trail. */
  lemma ProlongsLater(a: Trail, b: Trail, clock: Time, source: multiset<Line>)
    requires Prolongs(a, b) && b.clock <= clock && Covers(source, b.source)
    ensures Prolongs(a, b.(clock := clock, source := source))
  {
    CoversTrans(source, b.source, a.source);
    hide Covers;
  }

  /** Windows and positions are added along a trail. */
  lemma ProlongsBy(a: Trail, b: Trail, windows: seq<Window>, positions: seq<Time>)
    requires Prolongs(a, b)
    ensures Prolongs(a, b.(ledger := b.ledger + windows, published := b.published + positions))
  {
    hide Covers;
  }

  lemma ProlongsFacts(a: Trail, b: Trail)
    requires Prolongs(a, b)
    ensures a.clock <= b.clock && Covers(b.source, a.source) && a.start == b.start && a.ledger <= b.ledger
    ensures a.skippedBefore == b.skippedBefore && a.steppedBefore == b.steppedBefore && a.published <= b.published
  {
  }

  /** The poller went on from where it was. */
  twostate predicate WentOn(w: Feed, p: Poller)
    reads w, p
  {
    Prolongs(old(TrailOf(w, p)), TrailOf(w, p))
  }

  /** What a round is judged by, before it and after it. */
  datatype Moment = Moment(clock: Time, source: multiset<Line>, ledger: seq<Window>, handed: multiset<Line>,
                           credit: multiset<Line>, cur: Cursor, skipped: Time, stored: Option<Cursor>,
                           steps: seq<Step>, floors: seq<Option<Time>>, gates: seq<Option<Time>>, reply: seq<RawLine>)

  ghost function MomentOf(w: Feed, p: Poller, cur: CursorCell): Moment
    reads w`clock, w`source, w`live, w`handed, w`stored, w`steps, w`floors, w`gates, w`reply, p`skipped, cur
  {
    Moment(w.clock, w.source, w.live.ledger, w.handed, w.live.credit, cur.View(), p.skipped, w.stored, w.steps,
           w.floors, w.gates, w.reply)
  }

  /** Floor and gate were each looked at once if the source has them, and not
      otherwise. */
  ghost predicate LooksOnce(cfg: Config, m: Moment, m': Moment) {
    && m.floors <= m'.floors && |m'.floors| == |m.floors| + (if cfg.gated then 1 else 0)
    && m.gates <= m'.gates && |m'.gates| == |m.gates| + (if cfg.gated then 1 else 0)
  }

  function LastOf(cfg: Config, limits: seq<Option<Time>>): Option<Time> {
    if cfg.gated && limits != [] then limits[|limits| - 1] else None
  }

  /** A round begun at a moment may start reading at a timestamp: it is within the
      catch-up limit of that moment and not behind the floor; and if the cursor was
      moved there, then because it was beyond the limit or behind the floor. */
  predicate StartsAt(cfg: Config, began: Time, now: Time, floor: Option<Time>, skipped: Time, at: Time) {
    && began <= at + cfg.maxCatchUp && (floor.Some? ==> floor.value <= at)
    && (skipped > 0 ==> at + cfg.maxCatchUp <= now || floor == Some(at))
  }

  /** It reads up to the settle limit of some moment since, or up to the gate if
      that is lower. */
  predicate EndsAt(cfg: Config, began: Time, now: Time, gate: Option<Time>, horizon: Time) {
    && horizon + cfg.settle <= now && (gate.Some? ==> horizon <= gate.value)
    && (began <= horizon + cfg.settle || gate == Some(horizon))
  }

  /** A round from at to a horizon keeps to the limits it has read. */
  ghost predicate Opened(cfg: Config, m: Moment, m': Moment, at: Time, horizon: Time) {
    && LooksOnce(cfg, m, m')
    && StartsAt(cfg, m.clock, m'.clock, LastOf(cfg, m'.floors), m'.skipped - m.skipped, at)
    && EndsAt(cfg, m.clock, m'.clock, LastOf(cfg, m'.gates), horizon)
  }

  /** A cursor moved over gaps of this total length: to lines not yet seen, or not
      at all. */
  ghost predicate MovedBy(before: Cursor, after: Cursor, skipped: Time) {
    && skipped >= 0 && after.ts == before.ts + skipped
    && (if skipped == 0 then after == before else after.seen == multiset{})
  }

  lemma MovedByBoth(a: Cursor, b: Cursor, c: Cursor, first: Time, second: Time)
    requires MovedBy(a, b, first) && MovedBy(b, c, second)
    ensures MovedBy(a, c, first + second)
  {
  }

  /** The cursor moved by what the skip counter says; nothing was handed out or
      asked for. */
  ghost predicate OnlySkipped(m: Moment, m': Moment) {
    && MovedBy(m.cur, m'.cur, m'.skipped - m.skipped)
    && m'.credit == m.credit && m'.handed == m.handed && m'.steps == m.steps && Later(m, m')
  }

  ghost predicate Later(m: Moment, m': Moment) {
    m.clock <= m'.clock && Covers(m'.source, m.source) && m.ledger <= m'.ledger
  }

  /** Moves the cursor over a gap and counts it. */
  method SkipAhead(p: Poller, cur: CursorCell, to: Time)
    requires p.Valid() && p.published != [] && p.pos == cur.ts < to
    modifies p`skipped, p`pos, p`published, cur
    ensures p.Valid() && p.pos == to && cur.View() == Cursor(to, multiset{})
    ensures p.published == old(p.published) + [to] && p.skipped == old(p.skipped) + (to - old(cur.ts))
  {
    p.skipped := p.skipped + (to - cur.ts);
    cur.Assign(Cursor(to, multiset{}));
    p.SetCursor(cur.ts);
  }

  /** Skips a cursor older than the catch-up limit; returns the settle horizon. */
  method SkipStale(w: Feed, p: Poller, cur: CursorCell) returns (horizon: Time)
    requires InStep(w, p, cur) && w.phase.Idle?
    modifies w`clock, w`source, w`accepted, w`deploy, w`stored, w`onDisk, w`mem, w`disk, w`retireAt, w`live,
             p`pos, p`skipped, p`published, cur
    ensures InStep(w, p, cur) && WentOn(w, p)
    ensures OnlySkipped(old(MomentOf(w, p, cur)), MomentOf(w, p, cur))
    ensures w.phase.Idle? && old(w.clock) <= horizon + w.cfg.settle <= w.clock
    ensures var oldest := horizon + w.cfg.settle - w.cfg.maxCatchUp;
            if old(cur.ts) < oldest then cur.View() == Cursor(oldest, multiset{}) else cur.View() == old(cur.View())
  {
    hide Reachable;
    hide Drifts;
    hide GapTime;
    hide StepCount;
    hide Covers;
    hide Prolongs;
    ghost var trail := TrailOf(w, p);
    ProlongsItself(trail);
    var now := w.Now();
    ProlongsLater(trail, trail, w.clock, w.source);
    horizon := now - w.cfg.settle;
    var oldest := now - w.cfg.maxCatchUp;
    if cur.ts < oldest {
      ghost var gap := CatchUpGap(cur.ts, oldest);
      WindowAppended(w.live.ledger, gap);
      ProlongsBy(trail, TrailOf(w, p), [gap], [oldest]);
      w.SkipTo(oldest);
      SkipAhead(p, cur, oldest);
    }
  }

  /** Skips an HTTP cursor too far behind its deploy poller. */
  method SkipLagging(w: Feed, p: Poller, cur: CursorCell)
    requires InStep(w, p, cur) && w.phase.Idle?
    modifies w`clock, w`source, w`accepted, w`deploy, w`stored, w`onDisk, w`mem, w`disk, w`retireAt, w`live,
             w`phase, w`floors, p`pos, p`skipped, p`published, cur
    ensures InStep(w, p, cur) && WentOn(w, p)
    ensures OnlySkipped(old(MomentOf(w, p, cur)), MomentOf(w, p, cur))
    ensures w.phase.Ready? && old(w.clock) <= w.clock
    ensures w.floors == old(w.floors) + if w.cfg.gated then [LastOf(w.cfg, w.floors)] else []
    ensures var floor := LastOf(w.cfg, w.floors);
            if floor.Some? && old(cur.ts) < floor.value then cur.View() == Cursor(floor.value, multiset{})
            else cur.View() == old(cur.View())
  {
    hide Reachable;
    hide Drifts;
    hide GapTime;
    hide StepCount;
    hide Covers;
    hide Prolongs;
    ghost var trail := TrailOf(w, p);
    ProlongsItself(trail);
    if w.cfg.gated {
      var floor := w.ReadFloor();
      ProlongsLater(trail, trail, w.clock, w.source);
      if floor.Some? && cur.ts < floor.value {
        ghost var gap := LagGap(cur.ts, floor.value);
        WindowAppended(trail.ledger, gap);
        ProlongsBy(trail, trail.(clock := w.clock, source := w.source), [gap], [floor.value]);
        SkipAhead(p, cur, floor.value);
      }
    } else {
      w.NoFloor();
    }
  }

  /** The skips of a round, with the settle limit they leave and the one floor
      they looked at. */
  ghost predicate SkippedTo(cfg: Config, m: Moment, m': Moment, settled: Time) {
    && m'.floors == m.floors + (if cfg.gated then [LastOf(cfg, m'.floors)] else []) && m'.gates == m.gates
    && m.clock <= settled + cfg.settle <= m'.clock
    && StartsAt(cfg, m.clock, m'.clock, LastOf(cfg, m'.floors), m'.skipped - m.skipped, m'.cur.ts)
  }

  lemma SkipsTo(cfg: Config, m0: Moment, m1: Moment, m2: Moment, settled: Time)
    requires OnlySkipped(m0, m1) && OnlySkipped(m1, m2) && m1.floors == m0.floors && m2.gates == m0.gates
    requires m2.floors == m1.floors + if cfg.gated then [LastOf(cfg, m2.floors)] else []
    requires m0.clock <= settled + cfg.settle <= m1.clock
    requires var oldest := settled + cfg.settle - cfg.maxCatchUp;
             m1.cur.ts == if m0.cur.ts < oldest then oldest else m0.cur.ts
    requires var floor := LastOf(cfg, m2.floors);
             m2.cur.ts == if floor.Some? && m1.cur.ts < floor.value then floor.value else m1.cur.ts
    ensures OnlySkipped(m0, m2) && SkippedTo(cfg, m0, m2, settled)
  {
    hide Covers;
    CoversTrans(m2.source, m1.source, m0.source);
    MovedByBoth(m0.cur, m1.cur, m2.cur, m1.skipped - m0.skipped, m2.skipped - m1.skipped);
  }

  /** Skips ahead where it must; returns the settle limit. */
  method SkipBehind(w: Feed, p: Poller, cur: CursorCell) returns (settled: Time)
    requires InStep(w, p, cur) && w.phase.Idle?
    modifies w`clock, w`source, w`accepted, w`deploy, w`stored, w`onDisk, w`mem, w`disk, w`retireAt, w`live,
             w`phase, w`floors, p`pos, p`skipped, p`published, cur
    ensures InStep(w, p, cur) && WentOn(w, p) && w.phase.Ready?
    ensures OnlySkipped(old(MomentOf(w, p, cur)), MomentOf(w, p, cur))
    ensures SkippedTo(w.cfg, old(MomentOf(w, p, cur)), MomentOf(w, p, cur), settled)
  {
    hide Reachable;
    hide Drifts;
    hide GapTime;
    hide StepCount;
    hide Covers;
    hide Prolongs;
    hide OnlySkipped;
    hide SkippedTo;
    hide InStep;
    ghost var trail, m0 := TrailOf(w, p), MomentOf(w, p, cur);
    settled := SkipStale(w, p, cur);
    ghost var here, m1 := TrailOf(w, p), MomentOf(w, p, cur);
    SkipLagging(w, p, cur);
    ProlongsTrans(trail, here, TrailOf(w, p));
    SkipsTo(w.cfg, m0, m1, MomentOf(w, p, cur), settled);
  }

  /** The gate was looked at, and nothing else happened but time. */
  ghost predicate GateRead(cfg: Config, m: Moment, m': Moment) {
    && m.clock <= m'.clock && Covers(m'.source, m.source)
    && m' == m.(clock := m'.clock, source := m'.source, stored := m'.stored, gates := m'.gates)
    && m'.gates == m.gates + if cfg.gated then [LastOf(cfg, m'.gates)] else []
  }

  lemma OpensRound(cfg: Config, m0: Moment, m1: Moment, m2: Moment, settled: Time, horizon: Time)
    requires OnlySkipped(m0, m1) && SkippedTo(cfg, m0, m1, settled) && GateRead(cfg, m1, m2)
    requires var gate := LastOf(cfg, m2.gates);
             horizon == if gate.Some? && gate.value < settled then gate.value else settled
    ensures OnlySkipped(m0, m2) && Opened(cfg, m0, m2, m2.cur.ts, horizon) && horizon + cfg.settle <= m2.clock
  {
    hide Covers;
    CoversTrans(m2.source, m1.source, m0.source);
  }

  /** The horizon is the settle limit or, if lower, the gate. */
  method CapByGate(w: Feed, p: Poller, cur: CursorCell, settled: Time) returns (horizon: Time)
    requires InStep(w, p, cur) && w.phase.Ready?
    modifies w`clock, w`source, w`accepted, w`deploy, w`stored, w`onDisk, w`mem, w`disk, w`retireAt, w`gates
    ensures InStep(w, p, cur) && WentOn(w, p)
    ensures GateRead(w.cfg, old(MomentOf(w, p, cur)), MomentOf(w, p, cur))
    ensures var gate := LastOf(w.cfg, w.gates);
            horizon == if gate.Some? && gate.value < settled then gate.value else settled
    ensures w.cfg.gated && w.deploy.registered ==> horizon <= w.deploy.pos + MAX_KIND_SKEW
  {
    hide Reachable;
    hide Drifts;
    hide GapTime;
    hide StepCount;
    hide Feed.Valid;
    hide Poller.Valid;
    hide Covers;
    hide Prolongs;
    ghost var trail := TrailOf(w, p);
    ProlongsItself(trail);
    CoversItself(w.source);
    horizon := settled;
    if w.cfg.gated {
      var gate := w.ReadGate();
      ProlongsLater(trail, trail, w.clock, w.source);
      if gate.Some? && gate.value < horizon {
        horizon := gate.value;
      }
    }
  }

  /** The first half of a round: skips ahead where it must and fixes the
      horizon; not open means there is nothing to read yet. */
  method OpenRound(w: Feed, p: Poller, cur: CursorCell) returns (open: bool, horizon: Time)
    requires InStep(w, p, cur) && w.phase.Idle?
    modifies w`clock, w`source, w`accepted, w`deploy, w`stored, w`onDisk, w`mem, w`disk, w`retireAt, w`live,
             w`phase, w`floors, w`gates, p`pos, p`skipped, p`published, cur
    ensures InStep(w, p, cur) && WentOn(w, p)
    ensures OnlySkipped(old(MomentOf(w, p, cur)), MomentOf(w, p, cur))
    ensures if open then cur.ts < horizon && w.phase.Paging? && w.phase.round.horizon == horizon
            else horizon <= cur.ts && w.phase.Idle?
    ensures Opened(w.cfg, old(MomentOf(w, p, cur)), MomentOf(w, p, cur), cur.ts, horizon)
  {
    hide Reachable;
    hide Drifts;
    hide GapTime;
    hide StepCount;
    hide Feed.Valid;
    hide Poller.Valid;
    hide Covers;
    hide Prolongs;
    hide SkippedTo;
    hide OnlySkipped;
    hide Opened;
    ghost var trail, m0 := TrailOf(w, p), MomentOf(w, p, cur);
    var settled := SkipBehind(w, p, cur);
    ghost var here, m1 := TrailOf(w, p), MomentOf(w, p, cur);
    horizon := CapByGate(w, p, cur, settled);
    ProlongsTrans(trail, here, TrailOf(w, p));
    OpensRound(w.cfg, m0, m1, MomentOf(w, p, cur), settled, horizon);
    open := horizon > cur.ts;
    if open {
      w.Open(horizon);
    } else {
      w.Leave();
    }
  }

  /** The cursor a round ends with: at the horizon, or where the last page left
      it if that is not before the horizon. */
  function AtHorizon(c: Cursor, horizon: Time): Cursor {
    if c.ts < horizon then Cursor(horizon, multiset{}) else c
  }

  /** Hands the owed lines of a page to the workers and waits for each worker. */
  method HandOut(w: Feed, cur: CursorCell, horizon: Time, page: seq<Line>)
    returns (err: Outcome, next: CursorCell, beyond: bool, k: nat, ghost batch: multiset<Line>)
    requires w.Valid() && cur.ts <= horizon + 1
    modifies w`clock, w`source, w`accepted, w`deploy, w`stored, w`onDisk, w`mem, w`disk, w`retireAt, w`queued,
             w`marked, w`handed, w`failures, w`ended
    ensures w.Valid() && k == |batch| && fresh(next) && old(w.clock) <= w.clock && Covers(w.source, old(w.source))
    ensures QueuedUp(w.cfg, old(w.handed), w.handed, batch)
    ensures w.failures == old(w.failures) + (if err.Ok? then 0 else 1)
    ensures w.ended == (old(w.ended) || err.Interrupted?)
    ensures err.Ok? ==> Scanned(cur.View(), horizon, multiset(page), Scan(batch, next.View(), beyond))
    ensures err.Ok? ==> Acknowledged(w.cfg, old(w.accepted), batch, w.accepted)
  {
    hide *;
    SortByTsSorts(page);
    w.Marks();
    ghost var marked, atMarks := w.marked, w.source;
    var ok;
    next, beyond, k, ok, batch := WalkPage(w, cur, horizon, SortByTs(page));
    CoversTrans(w.source, atMarks, old(w.source));
    err := Interrupted;
    if ok {
      ghost var walked := w.source;
      var ack := w.WaitWritten();
      CoversTrans(w.source, walked, old(w.source));
      err := if ack.Written? then Ok else if ack.Dropped? then DeliveryError else Interrupted;
      if err.Ok? {
        PageAcknowledged(w.cfg, old(w.accepted), marked, w.queued, w.accepted, batch);
      }
    }
  }

  /** Fetches one page, walks it and waits until every sink has accepted it. The
      batch is what was queued meanwhile, on error as well. */
  method DeliverPage(w: Feed, cur: CursorCell, horizon: Time)
    returns (err: Outcome, full: bool, next: CursorCell, beyond: bool, k: nat, ghost batch: multiset<Line>)
    requires w.Valid() && cur.View() == w.live.cur && w.phase.Paging? && cur.ts <= horizon + 1
    modifies w`clock, w`source, w`accepted, w`deploy, w`stored, w`onDisk, w`mem, w`disk, w`retireAt, w`queued,
             w`marked, w`phase, w`handed, w`failures, w`reply, w`steps, w`ended
    ensures w.Valid() && k == |batch| && fresh(next) && old(w.clock) <= w.clock && Covers(w.source, old(w.source))
    ensures QueuedUp(w.cfg, old(w.handed), w.handed, batch)
    ensures w.failures == old(w.failures) + (if err.Ok? then 0 else 1) && w.steps == old(w.steps) + [Query(w.budget)]
    ensures w.ended == (old(w.ended) || err.Interrupted?)
    ensures !err.Ok? ==> w.phase.Idle?
    ensures err.Ok? ==>
              && w.phase.InFlight? && w.phase.round == old(w.phase).round
              && full == (|w.phase.flight.page| >= PAGE_SIZE)
              && w.phase.flight.page == Parsed(w.reply) && w.phase.flight.raw == |w.reply|
              && Covers(w.phase.flight.fetched, old(w.source)) && Covers(w.source, w.phase.flight.fetched)
              && Scanned(w.live.cur, horizon, multiset(w.phase.flight.page), Scan(batch, next.View(), beyond))
              && Acknowledged(w.cfg, w.phase.flight.base, batch, w.accepted)
  {
    hide *;
    cur.ViewFields();
    err, beyond, k, full, batch := QueryError, false, 0, false, multiset{};
    next := cur.Clone();
    QueuesNone(w.cfg, w.handed);
    var page := w.Fetch(cur.ts);
    ghost var fetched := w.source;
    CoversItself(fetched);
    if page.Some? {
      full := |page.value| >= PAGE_SIZE;
      err, next, beyond, k, batch := HandOut(w, cur, horizon, page.value);
    }
    CoversTrans(w.source, fetched, old(w.source));
    if !err.Ok? {
      w.Leave();
    }
  }

  /** The cursor after an accepted page, in terms of the flags of the code. */
  lemma WhereItLands(c: Cursor, horizon: Time, page: seq<Line>, sc: Scan)
    ensures Final(page, sc) <==> !(!sc.beyond && |page| >= PAGE_SIZE)
    ensures Landing(c, horizon, page, sc)
            == if Final(page, sc) then AtHorizon(sc.next, horizon)
               else if sc.next.ts > c.ts then sc.next else Cursor(sc.next.ts + 1, multiset{})
  {
  }

  /** The report of a round that has not come to its end. */
  function Unfinished(begin: Position, horizon: Time, sent: multiset<Line>): Report {
    Report(begin.cur, horizon, sent, multiset{}, [], 0, 0, horizon + 1)
  }

  lemma EndedProgress(begin: Position, pos: Position, r: Report)
    requires Ended(begin, pos, r)
    ensures Progress(begin, pos, r.sent, r.horizon, r.cut) && r.from == begin.cur && pos.cur.ts <= r.horizon + 1
    ensures begin.ledger <= pos.ledger && r.windows == Since(begin, pos)
  {
  }

  /** The report is about the last reply: how long it was, what the source held
      when it was asked for, and the window passed on it if it was cut short. */
  ghost predicate OfLastReply(before: multiset<Line>, now: multiset<Line>, reply: seq<RawLine>, r: Report) {
    && r.raw == |reply| && r.parsed == |Parsed(reply)|
    && Covers(r.fetched, before) && Covers(now, r.fetched)
    && (r.cut < r.horizon ==> Cut(r.cut, r.horizon) in r.windows)
  }

  lemma NoneAdded(ledger: seq<Window>)
    ensures ledger + [] == ledger
  {
  }

  /** Moves past a page that every sink has accepted; a full page that did not
      move the cursor is stepped over. more means the round goes on, from a cursor
      that has been saved. */
  method MovePast(w: Feed, p: Poller, cur: CursorCell, next: CursorCell, full: bool, beyond: bool, ghost sc: Scan)
    returns (more: bool)
    requires InStep(w, p, cur) && w.phase.InFlight? && full == (|w.phase.flight.page| >= PAGE_SIZE)
    requires sc.next == next.View() && sc.beyond == beyond
    requires Scanned(w.live.cur, w.phase.round.horizon, multiset(w.phase.flight.page), sc)
    requires Acknowledged(w.cfg, w.phase.flight.base, sc.sent, w.accepted)
    modifies p`pos, p`published, p`stepped, cur, w`live, w`phase, w`clock, w`source, w`accepted, w`deploy, w`stored,
             w`onDisk, w`mem, w`disk, w`retireAt
    ensures InCount(w, p, cur) && WentOn(w, p)
    ensures w.live == Accepted(old(w.live), old(w.phase).round.horizon, old(w.phase).flight, sc)
    ensures more <==> !Final(old(w.phase).flight.page, sc)
    ensures more ==> w.phase == Paging(old(w.phase).round) && cur.View() == w.live.cur && cur.ts > old(cur.ts)
    ensures more ==> w.stored == Kept(cur.View(), w.clock, w.cfg.pruneAfter)
    ensures !more ==> w.phase.Idle? && w.live.cur == AtHorizon(cur.View(), old(w.phase).round.horizon)
    ensures !more ==> w.source == old(w.source)
  {
    hide Reachable;
    hide Drifts;
    hide Scanned;
    hide Acknowledged;
    hide GapTime;
    hide StepCount;
    hide NonDecreasing;
    hide Passed;
    hide Landing;
    hide Final;
    hide AtHorizon;
    hide Covers;
    hide Prolongs;
    var stuck := full && !beyond && !(next.ts > cur.ts);
    ghost var trail, horizon := TrailOf(w, p), w.phase.round.horizon;
    ProlongsItself(trail);
    PageFacts(w.cfg, w.View(), sc);
    PageCounts(w.cfg, w.View(), sc);
    WhereItLands(w.live.cur, horizon, w.phase.flight.page, sc);
    ProlongsBy(trail, trail, Passed(w.live.cur, horizon, w.phase.flight, sc), [next.ts]);
    w.Commit(sc);
    cur.Assign(next.View());
    p.SetCursor(cur.ts);
    more := !beyond && full;
    if stuck {
      p.stepped := p.stepped + 1;
      cur.Assign(Cursor(cur.ts + 1, multiset{}));
      NoneAdded(w.live.ledger);
      ProlongsBy(trail, TrailOf(w, p), [], [cur.ts]);
      p.SetCursor(cur.ts);
    }
    if more {
      ghost var here := TrailOf(w, p);
      var saved := w.Save(cur.View());
      ProlongsLater(trail, here, w.clock, w.source);
    }
  }

  /** One page of a round: delivered, and only then moved past. more means the
      page was full and the round goes on. */
  method PollPage(w: Feed, p: Poller, cur: CursorCell, horizon: Time, ghost begin: Position, ghost sent: multiset<Line>)
    returns (k: nat, err: Outcome, more: bool, ghost batch: multiset<Line>, ghost report: Report)
    requires InStep(w, p, cur) && w.phase.Paging? && w.phase.round.horizon == horizon
    requires Progress(begin, w.live, sent, horizon, horizon + 1)
    modifies w`clock, w`source, w`accepted, w`deploy, w`stored, w`onDisk, w`mem, w`disk, w`retireAt, w`live, w`phase,
             w`queued, w`marked, w`handed, w`failures, w`reply, w`steps, w`ended, p`pos, p`published, p`stepped, cur
    ensures InCount(w, p, cur) && WentOn(w, p) && k == |batch|
    ensures QueuedUp(w.cfg, old(w.handed), w.handed, batch)
    ensures w.failures == old(w.failures) + (if err.Ok? then 0 else 1)
    ensures w.steps == old(w.steps) + [Query(w.budget)]
    ensures w.ended == (old(w.ended) || err.Interrupted?)
    ensures err.Ok? ==> w.live.credit == old(w.live.credit) + batch
    ensures !err.Ok? ==> w.phase.Idle? && w.live == old(w.live) && cur.View() == old(cur.View())
    ensures err.Ok? && more ==> Progress(begin, w.live, sent + batch, horizon, horizon + 1)
    ensures err.Ok? && more ==> w.phase == old(w.phase) && cur.View() == w.live.cur && cur.ts > old(cur.ts)
    ensures err.Ok? && more ==> w.stored == Kept(cur.View(), w.clock, w.cfg.pruneAfter)
    ensures err.Ok? && !more ==> w.phase.Idle? && w.live.cur == AtHorizon(cur.View(), horizon)
    ensures err.Ok? && !more ==>
              Ended(begin, w.live, report) && report.horizon == horizon && report.sent == sent + batch
    ensures err.Ok? && !more ==> OfLastReply(old(w.source), w.source, w.reply, report)
  {
    hide Reachable;
    hide Drifts;
    hide Progress;
    hide Scanned;
    hide AnchorContract;
    hide Acknowledged;
    hide GapTime;
    hide StepCount;
    hide Ended;
    hide NonDecreasing;
    hide Passed;
    hide Landing;
    hide Final;
    hide AtHorizon;
    hide Covers;
    hide QueuedUp;
    hide Prolongs;
    hide Unfinished;
    hide Kept;
    CursorInRound(w, p, cur);
    ghost var trail := TrailOf(w, p);
    ProlongsItself(trail);
    var full, next, beyond;
    err, full, next, beyond, k, batch := DeliverPage(w, cur, horizon);
    ProlongsLater(trail, trail, w.clock, w.source);
    more, report := false, Unfinished(begin, horizon, sent);
    if !err.Ok? {
      return;
    }
    ghost var here := TrailOf(w, p);
    ghost var sc := Scan(batch, next.View(), beyond);
    ghost var before := w.View();
    RoundAdvances(w.cfg, before, sc, begin, sent);
    more := MovePast(w, p, cur, next, full, beyond, sc);
    ProlongsTrans(trail, here, TrailOf(w, p));
    if !more {
      PageEnds(w.cfg, before, sc, begin, sent);
      NextWithinHorizon(before.live.cur, horizon, multiset(before.phase.flight.page), sc);
      report := Closing(begin, before, sc, sent);
      CutIsRecorded(begin, before, sc, sent);
    }
  }

  lemma CutIsRecorded(begin: Position, s: State, sc: Scan, sent: multiset<Line>)
    requires s.phase.InFlight? && s.live.cur.ts <= sc.next.ts
    requires Progress(begin, s.live, sent, s.phase.round.horizon, s.phase.round.horizon + 1)
    ensures begin.ledger <= Accepted(s.live, s.phase.round.horizon, s.phase.flight, sc).ledger
    ensures var r := Closing(begin, s, sc, sent);
            r.cut < r.horizon ==> Cut(r.cut, r.horizon) in r.windows
  {
    var h, f := s.phase.round.horizon, s.phase.flight;
    var passed := Passed(s.live.cur, h, f, sc);
    assert Since(begin, Accepted(s.live, h, f, sc)) == Since(begin, s.live) + passed;
    if CutPoint(h, f, sc) < h {
      assert passed[|passed| - 1] == Cut(sc.next.ts, h);
    }
  }

  /** Before every page but the first of a round: while the budget is low a wait of
      one second, stretched as the budget asks. */
  method Pause(w: Feed, first: bool) returns (cancelled: bool, ghost rest: seq<Step>)
    requires w.Valid()
    modifies w`clock, w`source, w`accepted, w`deploy, w`stored, w`onDisk, w`mem, w`disk, w`retireAt, w`budget,
             w`failures, w`steps, w`ended
    ensures w.Valid() && old(w.clock) <= w.clock && Covers(w.source, old(w.source))
    ensures w.failures == old(w.failures) + (if cancelled then 1 else 0) && w.ended == (old(w.ended) || cancelled)
    ensures w.steps == old(w.steps) + rest && Rests(w.budget, first, rest) && (cancelled ==> !first)
  {
    hide Reachable;
    hide Drifts;
    hide BudgetThrottle;
    hide Stretched;
    hide Covers;
    hide Low;
    hide Lasts;
    CoversItself(w.source);
    rest := [];
    var remaining, limit := w.RateLimitBudget();
    var f := BudgetThrottle(remaining, limit);
    StretchedLasts(CATCH_UP_PAGE_WAIT, w.budget);
    cancelled := false;
    if f > 1.0 && !first {
      var length := Stretched(CATCH_UP_PAGE_WAIT, f);
      rest := [Rest(length, w.budget)];
      cancelled := w.SleepBetweenPages(length);
    }
  }

  /** What there is between two pages of a round. */
  ghost predicate Rests(b: Budget, first: bool, rest: seq<Step>) {
    if first || !Low(b) then rest == []
    else |rest| == 1 && rest[0].Rest? && rest[0].budget == b && Lasts(rest[0].length, 1_000_000_000, b)
  }

  /** The steps of a round before its next page. */
  ghost predicate Between(first: bool, steps: seq<Step>) {
    if first then steps == [] else Rested(steps) && steps[|steps| - 1].Query?
  }

  lemma RestsAndAsks(first: bool, steps: seq<Step>, b: Budget, rest: seq<Step>)
    requires Between(first, steps) && Rests(b, first, rest)
    ensures !first ==> Rested(steps + rest)
    ensures Between(false, steps + rest + [Query(b)])
  {
    hide Low;
    hide Lasts;
    if !first {
      if rest == [] {
        assert steps + rest == steps;
      } else {
        assert rest == [rest[0]];
        RestedNext(steps, rest[0]);
      }
      RestedNext(steps + rest, Query(b));
    }
  }

  lemma AsksRested(steps: seq<Step>)
    requires Between(false, steps)
    ensures Rested(steps)
  {
  }

  lemma NothingBetween()
    ensures Between(true, [])
  {
  }

  lemma StepsGoOn(before: seq<Step>, steps: seq<Step>, asked: seq<Step>, all: seq<Step>, steps': seq<Step>)
    requires asked == before + steps && asked <= all && steps' == steps + all[|asked|..] && Rested(steps')
    ensures all == before + steps' && RestedSince(before, all)
  {
    assert all == asked + all[|asked|..];
    StepsSince(all, before, steps');
  }

  lemma StepsSince(all: seq<Step>, before: seq<Step>, steps: seq<Step>)
    requires all == before + steps && Rested(steps)
    ensures RestedSince(before, all)
  {
    assert all[|before|..] == steps;
  }

  lemma LastReplySince(before: multiset<Line>, later: multiset<Line>, now: multiset<Line>, reply: seq<RawLine>,
                       r: Report)
    requires OfLastReply(later, now, reply, r) && Covers(later, before)
    ensures OfLastReply(before, now, reply, r)
  {
    CoversTrans(r.fetched, later, before);
    hide Covers;
  }

  /** A round's queries and the waits between them are as they should be. */
  ghost predicate RestedSince(before: seq<Step>, now: seq<Step>) {
    before <= now && Rested(now[|before|..])
  }

  /** The next page of a round, after the wait that goes before it. */
  method NextPage(w: Feed, p: Poller, cur: CursorCell, horizon: Time, first: bool, ghost begin: Position,
                  ghost sent: multiset<Line>, ghost steps: seq<Step>)
    returns (k: nat, err: Outcome, more: bool, ghost batch: multiset<Line>, ghost report: Report,
             ghost steps': seq<Step>)
    requires InStep(w, p, cur) && w.phase.Paging? && w.phase.round.horizon == horizon
    requires Progress(begin, w.live, sent, horizon, horizon + 1) && Between(first, steps)
    modifies w`clock, w`source, w`accepted, w`deploy, w`stored, w`onDisk, w`mem, w`disk, w`retireAt, w`live, w`phase,
             w`queued, w`marked, w`handed, w`failures, w`reply, w`steps, w`ended, w`budget, p`pos, p`published,
             p`stepped, cur
    ensures InCount(w, p, cur) && WentOn(w, p) && k == |batch|
    ensures QueuedUp(w.cfg, old(w.handed), w.handed, batch)
    ensures w.failures == old(w.failures) + (if err.Ok? then 0 else 1) && w.ended == (old(w.ended) || err.Interrupted?)
    ensures old(w.steps) <= w.steps && steps' == steps + w.steps[|old(w.steps)|..] && Rested(steps')
    ensures err.Ok? ==> w.live.credit == old(w.live.credit) + batch
    ensures !err.Ok? ==> w.phase.Idle? && w.live == old(w.live) && cur.View() == old(cur.View())
    ensures err.Ok? && more ==> Progress(begin, w.live, sent + batch, horizon, horizon + 1) && Between(false, steps')
    ensures err.Ok? && more ==> w.phase == old(w.phase) && InStep(w, p, cur) && cur.ts > old(cur.ts)
    ensures err.Ok? && !more ==> w.phase.Idle? && w.live.cur == AtHorizon(cur.View(), horizon)
    ensures err.Ok? && !more ==>
              Ended(begin, w.live, report) && report.horizon == horizon && report.sent == sent + batch
    ensures err.Ok? && !more ==> OfLastReply(old(w.source), w.source, w.reply, report)
  {
    hide Reachable;
    hide Drifts;
    hide Progress;
    hide GapTime;
    hide StepCount;
    hide Ended;
    hide NonDecreasing;
    hide AtHorizon;
    hide Feed.Valid;
    hide Poller.Valid;
    hide Covers;
    hide QueuedUp;
    hide Prolongs;
    hide Rested;
    hide Rests;
    hide Between;
    hide OfLastReply;
    ghost var trail := TrailOf(w, p);
    ProlongsItself(trail);
    var cancelled;
    ghost var rest;
    cancelled, rest := Pause(w, first);
    RestsAndAsks(first, steps, w.budget, rest);
    ProlongsLater(trail, trail, w.clock, w.source);
    steps' := steps + rest;
    if cancelled {
      QueuesNone(w.cfg, w.handed);
      w.Leave();
      return 0, Interrupted, false, multiset{}, Unfinished(begin, horizon, sent), steps';
    }
    ghost var here := TrailOf(w, p);
    k, err, more, batch, report := PollPage(w, p, cur, horizon, begin, sent);
    steps' := steps + rest + [Query(w.budget)];
    AsksRested(steps');
    assert steps' == steps + (rest + [Query(w.budget)]);
    ProlongsTrans(trail, here, TrailOf(w, p));
    if err.Ok? && !more {
      ProlongsFacts(trail, here);
      LastReplySince(trail.source, here.source, w.source, w.reply, report);
    }
  }

  /** The pages of one round, until one is short or passes the horizon.
      Every full page moves the cursor, so this ends however the source grows. */
  method PageThrough(w: Feed, p: Poller, cur: CursorCell, horizon: Time)
    returns (n: nat, err: Outcome, ghost sent: multiset<Line>, ghost report: Report)
    requires InStep(w, p, cur) && w.phase.Paging? && w.phase.round.horizon == horizon && cur.ts <= horizon
    modifies w`clock, w`source, w`accepted, w`deploy, w`stored, w`onDisk, w`mem, w`disk, w`retireAt, w`live, w`phase,
             w`queued, w`marked, w`handed, w`failures, w`reply, w`steps, w`ended, w`budget, p`pos, p`published,
             p`stepped, cur
    ensures InCount(w, p, cur) && WentOn(w, p) && w.phase.Idle? && n == |report.sent|
    ensures RestedSince(old(w.steps), w.steps) && w.ended == (old(w.ended) || err.Interrupted?)
    ensures report.from == old(w.live).cur && report.horizon == horizon
    ensures Progress(old(w.live), w.live, sent, horizon, report.cut)
    ensures QueuedUp(w.cfg, old(w.handed), w.handed, report.sent)
    ensures w.live.credit == old(w.live.credit) + sent && sent <= report.sent
    ensures old(w.failures) <= w.failures && (err.Ok? <==> w.failures == old(w.failures))
    ensures !err.Ok? ==> cur.View() == w.live.cur
    ensures err.Ok? ==> w.live.cur == AtHorizon(cur.View(), horizon) && Ended(old(w.live), w.live, report)
    ensures err.Ok? ==> sent == report.sent && OfLastReply(old(w.source), w.source, w.reply, report)
  {
    hide Reachable;
    hide Drifts;
    hide Progress;
    hide GapTime;
    hide StepCount;
    hide Ended;
    hide NonDecreasing;
    hide AtHorizon;
    hide Feed.Valid;
    hide Poller.Valid;
    hide Covers;
    hide QueuedUp;
    hide Prolongs;
    hide InCount;
    hide Rested;
    hide RestedSince;
    hide Between;
    hide OfLastReply;
    ghost var begin, trail, trailed, source := w.live, TrailOf(w, p), w.steps, w.source;
    n, err, sent, report := 0, Ok, multiset{}, Unfinished(begin, horizon, multiset{});
    RoundBeginsHere(w, p, cur, horizon);
    QueuesNone(w.cfg, w.handed);
    ProlongsItself(trail);
    NothingBetween();
    ghost var steps: seq<Step> := [];
    var first := true;
    while true
      invariant InStep(w, p, cur) && WentOn(w, p) && w.phase.Paging? && w.phase.round.horizon == horizon
      invariant Progress(begin, w.live, sent, horizon, horizon + 1) && n == |sent|
      invariant QueuedUp(w.cfg, old(w.handed), w.handed, sent) && w.live.credit == old(w.live.credit) + sent
      invariant w.failures == old(w.failures) && w.ended == old(w.ended)
      invariant w.steps == trailed + steps && Between(first, steps)
      decreases horizon + 1 - cur.ts
    {
      CursorInRound(w, p, cur);
      ghost var here, handed, asked, source' := TrailOf(w, p), w.handed, w.steps, w.source;
      var k, more;
      ghost var batch, steps';
      k, err, more, batch, report, steps' := NextPage(w, p, cur, horizon, first, begin, sent, steps);
      StepsGoOn(trailed, steps, asked, w.steps, steps');
      steps := steps';
      ProlongsTrans(trail, here, TrailOf(w, p));
      QueuesOn(w.cfg, old(w.handed), handed, w.handed, sent, batch);
      n := n + k;
      if !err.Ok? {
        report := Unfinished(begin, horizon, sent + batch);
        return;
      }
      sent := sent + batch;
      if !more {
        EndedProgress(begin, w.live, report);
        ProlongsFacts(trail, here);
        LastReplySince(source, source', w.source, w.reply, report);
        return;
      }
      first := false;
    }
  }

  /** The end of a round without errors: a cursor the pages left short of the
      horizon is put on it; either way the store gets it. */
  method CloseRound(w: Feed, p: Poller, cur: CursorCell, horizon: Time)
    requires InCount(w, p, cur) && w.phase.Idle? && w.live.cur == AtHorizon(cur.View(), horizon)
    modifies w`clock, w`source, w`accepted, w`deploy, w`stored, w`onDisk, w`mem, w`disk, w`retireAt, p`pos,
             p`published, cur
    ensures InStep(w, p, cur) && WentOn(w, p) && cur.ts >= horizon
    ensures w.stored == Kept(cur.View(), w.clock, w.cfg.pruneAfter)
  {
    hide Reachable;
    hide Drifts;
    hide GapTime;
    hide StepCount;
    hide Covers;
    hide Prolongs;
    ghost var trail := TrailOf(w, p);
    ProlongsItself(trail);
    if cur.ts < horizon {
      cur.Assign(Cursor(horizon, multiset{}));
      NoneAdded(w.live.ledger);
      ProlongsBy(trail, trail, [], [horizon]);
      p.SetCursor(cur.ts);
    }
    ghost var here := TrailOf(w, p);
    var saved := w.Save(cur.View());
    ProlongsLater(trail, here, w.clock, w.source);
  }

  /** What the report of a round has to do with the round, however that ended: it
      began at the cursor, moved by what was skipped; its lines are those handed
      to the workers meanwhile, and cover what the cursor went past. */
  ghost predicate Reported(cfg: Config, m: Moment, m': Moment, r: Report) {
    && QueuedUp(cfg, m.handed, m'.handed, r.sent) && RestedSince(m.steps, m'.steps)
    && m.credit <= m'.credit <= m.credit + r.sent
    && MovedBy(m.cur, r.from, m'.skipped - m.skipped) && r.from.ts < r.horizon
  }

  /** And if it ended without error: the cursor is at the horizon or one past it,
      what was handed out is what it went past, the windows are those it added to
      its history after any gaps, and the account is exact. */
  ghost predicate WentWell(cfg: Config, m: Moment, m': Moment, r: Report) {
    && r.horizon <= m'.cur.ts <= r.horizon + 1 && m'.credit == m.credit + r.sent
    && Adds(m.ledger, m'.ledger, r.windows)
    && OfLastReply(m.source, m'.source, m'.reply, r) && Exact(r, m'.source)
    && m'.stored == if 0 < cfg.pruneAfter && m'.cur.ts < m'.clock - cfg.pruneAfter then None else Some(m'.cur)
  }

  /** windows are the last ones of a ledger that extends before. */
  ghost predicate Adds(before: seq<Window>, ledger: seq<Window>, windows: seq<Window>) {
    && |before| + |windows| <= |ledger|
    && before <= ledger && windows == ledger[|ledger| - |windows|..]
  }

  lemma AddsLater(before: seq<Window>, here: seq<Window>, ledger: seq<Window>, windows: seq<Window>)
    requires before <= here && Adds(here, ledger, windows)
    ensures Adds(before, ledger, windows)
  {
  }

  lemma AddsSince(begin: Position, pos: Position)
    requires begin.ledger <= pos.ledger
    ensures Adds(begin.ledger, pos.ledger, Since(begin, pos))
  {
  }

  /** The second half of a round, to the horizon it has been given. */
  method ReadTo(w: Feed, p: Poller, cur: CursorCell, horizon: Time)
    returns (n: nat, err: Outcome, ghost r: Report)
    requires InStep(w, p, cur) && w.phase.Paging? && w.phase.round.horizon == horizon && cur.ts < horizon
    modifies w`clock, w`source, w`accepted, w`deploy, w`stored, w`onDisk, w`mem, w`disk, w`retireAt, w`live, w`phase,
             w`queued, w`marked, w`handed, w`failures, w`reply, w`steps, w`ended, w`budget, p`pos, p`published,
             p`stepped, cur
    ensures InStep(w, p, cur) && WentOn(w, p) && w.phase.Idle?
    ensures w.ended == (old(w.ended) || err.Interrupted?)
    ensures old(w.failures) <= w.failures && (err.Ok? <==> w.failures == old(w.failures))
    ensures r.horizon == horizon && n == |r.sent|
    ensures ReadFrom(w.cfg, old(MomentOf(w, p, cur)), MomentOf(w, p, cur), r)
    ensures err.Ok? ==> WentWell(w.cfg, old(MomentOf(w, p, cur)), MomentOf(w, p, cur), r)
    ensures err.Ok? && p.stepped == old(p.stepped) ==> NoSteps(r.windows)
    ensures (forall t | r.from.ts <= t <= horizon :: !Overfull(w.source, t)) ==> p.stepped == old(p.stepped)
  {
    hide Reachable;
    hide Drifts;
    hide Progress;
    hide Ended;
    hide Exact;
    hide Overfull;
    hide NoSteps;
    hide GapTime;
    hide StepCount;
    hide Covers;
    hide QueuedUp;
    hide Prolongs;
    hide OfLastReply;
    hide RestedSince;
    hide ReadFrom;
    hide WentWell;
    ghost var begin, trail, m0 := w.live, TrailOf(w, p), MomentOf(w, p, cur);
    ghost var sent;
    n, err, sent, r := PageThrough(w, p, cur, horizon);
    ghost var here, m1 := TrailOf(w, p), MomentOf(w, p, cur);
    ProlongsFacts(trail, here);
    ReadsFrom(w.cfg, m0, m1, sent, r);
    if err.Ok? {
      EndedProgress(begin, w.live, r);
      CloseRound(w, p, cur, horizon);
      ProlongsTrans(trail, here, TrailOf(w, p));
      ProlongsFacts(here, TrailOf(w, p));
      RoundIsExact(w.cfg, w.View(), begin, r);
      NoCountNoStepsHere(begin, w.live, r);
      ClosesWell(w.cfg, begin, w.live, m0, m1, MomentOf(w, p, cur), r);
    }
    NoCrowdNoSkipHere(w, begin, sent, horizon, r.cut);
  }

  lemma ReadsFrom(cfg: Config, m: Moment, m': Moment, sent: multiset<Line>, r: Report)
    requires QueuedUp(cfg, m.handed, m'.handed, r.sent) && RestedSince(m.steps, m'.steps)
    requires m'.credit == m.credit + sent && sent <= r.sent && r.from == m.cur && r.from.ts < r.horizon
    requires Later(m, m') && m'.skipped == m.skipped && m'.floors == m.floors && m'.gates == m.gates
    ensures ReadFrom(cfg, m, m', r)
  {
  }

  /** Closing a round keeps the account of its pages. */
  lemma ClosesWell(cfg: Config, begin: Position, pos: Position, m0: Moment, m1: Moment, m2: Moment, r: Report)
    requires ReadFrom(cfg, m0, m1, r) && OfLastReply(m0.source, m1.source, m1.reply, r) && Exact(r, m2.source)
    requires m1.clock <= m2.clock && Covers(m2.source, m1.source)
    requires m2 == m1.(clock := m2.clock, source := m2.source, stored := m2.stored, cur := m2.cur)
    requires m2.credit == m0.credit + r.sent && r.horizon <= m2.cur.ts <= r.horizon + 1
    requires begin.ledger <= pos.ledger && r.windows == Since(begin, pos)
    requires m0.ledger == begin.ledger && m2.ledger == pos.ledger
    requires m2.stored == Kept(m2.cur, m2.clock, cfg.pruneAfter)
    ensures ReadFrom(cfg, m0, m2, r) && WentWell(cfg, m0, m2, r)
  {
    hide Exact;
    hide Covers;
    hide QueuedUp;
    hide RestedSince;
    CoversTrans(m2.source, m1.source, m0.source);
    CoversTrans(m2.source, m1.source, r.fetched);
    AddsSince(begin, pos);
  }

  /** Nothing to read yet: the settle limit or the gate is not after the cursor. */
  ghost predicate NothingYet(cfg: Config, m: Moment, m': Moment) {
    OnlySkipped(m, m') && exists horizon :: horizon <= m'.cur.ts && Opened(cfg, m, m', m'.cur.ts, horizon)
  }

  lemma IsNothingYet(cfg: Config, m: Moment, m': Moment, horizon: Time)
    requires OnlySkipped(m, m') && horizon <= m'.cur.ts && Opened(cfg, m, m', m'.cur.ts, horizon)
    ensures NothingYet(cfg, m, m')
  {
    hide Opened;
    hide OnlySkipped;
  }

  /** A report of all of a round, from the limits it was opened with. */
  ghost predicate Whole(cfg: Config, m: Moment, m': Moment, r: Report) {
    Reported(cfg, m, m', r) && Opened(cfg, m, m', r.from.ts, r.horizon)
  }

  lemma CursorOfMoment(w: Feed, p: Poller, cur: CursorCell)
    ensures MomentOf(w, p, cur).cur.ts == cur.ts
  {
  }

  /** A report of the second half of a round. */
  ghost predicate ReadFrom(cfg: Config, m: Moment, m': Moment, r: Report) {
    && Reported(cfg, m, m', r) && r.from == m.cur && Later(m, m')
    && m'.skipped == m.skipped && m'.floors == m.floors && m'.gates == m.gates
  }

  /** The two halves of a round together. */
  lemma RoundIsWhole(cfg: Config, m0: Moment, m1: Moment, m2: Moment, r: Report, at: Time)
    requires OnlySkipped(m0, m1) && Opened(cfg, m0, m1, at, r.horizon) && ReadFrom(cfg, m1, m2, r) && m1.cur.ts == at
    ensures Whole(cfg, m0, m2, r)
    ensures WentWell(cfg, m1, m2, r) ==> WentWell(cfg, m0, m2, r)
  {
    hide QueuedUp;
    hide RestedSince;
    hide Exact;
    hide Covers;
    hide LastOf;
    if WentWell(cfg, m1, m2, r) {
      CoversTrans(r.fetched, m1.source, m0.source);
      AddsLater(m0.ledger, m1.ledger, m2.ledger, r.windows);
    }
  }

  /** One round, opened and read to its horizon; n is the size of what it handed
      out. Reported ties the report to the round, WentWell says what else holds of
      one that met no error. For a source without a gate the horizon is the settle
      limit of a moment since the call; a timestamp is skipped only where it holds
      a page of lines. */
  method PollOnce(w: Feed, p: Poller, cur: CursorCell)
    returns (n: nat, err: Outcome, ghost report: Option<Report>)
    requires InStep(w, p, cur) && w.phase.Idle?
    modifies w`clock, w`source, w`accepted, w`deploy, w`stored, w`onDisk, w`mem, w`disk, w`retireAt, w`live, w`phase,
             w`queued, w`marked, w`handed, w`failures, w`reply, w`steps, w`ended, w`budget, w`floors, w`gates,
             p`pos, p`published, p`stepped, p`skipped, cur
    ensures InStep(w, p, cur) && WentOn(w, p) && w.phase.Idle?
    ensures old(w.failures) <= w.failures && (err.Ok? <==> w.failures == old(w.failures))
    ensures w.ended == (old(w.ended) || err.Interrupted?)
    ensures report.None? ==> n == 0 && err.Ok? && NothingYet(w.cfg, old(MomentOf(w, p, cur)), MomentOf(w, p, cur))
    ensures report.Some? ==>
              n == |report.value.sent| && Whole(w.cfg, old(MomentOf(w, p, cur)), MomentOf(w, p, cur), report.value)
    ensures report.Some? && err.Ok? ==> WentWell(w.cfg, old(MomentOf(w, p, cur)), MomentOf(w, p, cur), report.value)
    ensures report.Some? && err.Ok? && p.stepped == old(p.stepped) ==> NoSteps(report.value.windows)
    ensures report.Some? && (forall t | report.value.from.ts <= t <= report.value.horizon :: !Overfull(w.source, t)) ==>
              p.stepped == old(p.stepped)
  {
    hide Reachable;
    hide Drifts;
    hide Overfull;
    hide NoSteps;
    hide GapTime;
    hide StepCount;
    hide Covers;
    hide Prolongs;
    hide Opened;
    hide OnlySkipped;
    hide NothingYet;
    hide ReadFrom;
    hide Whole;
    hide WentWell;
    hide InStep;
    hide TrailOf;
    hide MomentOf;
    n, err, report := 0, Ok, None;
    ghost var trail, before := TrailOf(w, p), MomentOf(w, p, cur);
    var open, horizon := OpenRound(w, p, cur);
    ghost var here, mid, at := TrailOf(w, p), MomentOf(w, p, cur), cur.ts;
    CursorOfMoment(w, p, cur);
    if !open {
      IsNothingYet(w.cfg, before, mid, horizon);
      return;
    }
    ghost var r;
    n, err, r := ReadTo(w, p, cur, horizon);
    report := Some(r);
    ProlongsTrans(trail, here, TrailOf(w, p));
    RoundIsWhole(w.cfg, before, mid, MomentOf(w, p, cur), r, at);
  }

  ghost predicate NoSteps(windows: seq<Window>) {
    forall w | w in windows :: !w.Stepped?
  }

  lemma NoCountNoStepsHere(begin: Position, pos: Position, r: Report)
    requires Ended(begin, pos, r)
    ensures StepCount(pos.ledger) == StepCount(begin.ledger) ==> NoSteps(r.windows)
  {
    NoCountNoSteps(begin.ledger, pos.ledger);
  }

  lemma NoCrowdNoSkipHere(w: Feed, begin: Position, sent: multiset<Line>, horizon: Time, cut: Time)
    requires w.Valid() && Progress(begin, w.live, sent, horizon, cut)
    ensures (forall t | begin.cur.ts <= t <= horizon :: !Overfull(w.source, t)) ==>
              StepCount(w.live.ledger) == StepCount(begin.ledger)
  {
    if forall t | begin.cur.ts <= t <= horizon :: !Overfull(w.source, t) {
      NoCrowdNoSkip(w.cfg, w.View(), begin, sent, horizon, cut);
    }
  }

  datatype Exit = StillRunning | Stopped | Drained

  /** What is handed out and what the cursor goes past keep in balance: on scope
      the one grows by at least as much as the other, and by no more unless a call
      failed. */
  ghost predicate Balanced(cfg: Config, before: Totals, after: Totals) {
    && before.failures <= after.failures && before.credit <= after.credit
    && (forall l: Line | cfg.scope(l.hash) ::
          before.handed[l] + after.credit[l] <= after.handed[l] + before.credit[l])
    && (before.failures == after.failures ==> forall l: Line | cfg.scope(l.hash) ::
            before.handed[l] + after.credit[l] == after.handed[l] + before.credit[l])
  }

  lemma BalancedTrans(cfg: Config, a: Totals, b: Totals, c: Totals)
    requires Balanced(cfg, a, b) && Balanced(cfg, b, c)
    ensures Balanced(cfg, a, c)
  {
  }

  lemma StillBalances(cfg: Config, t: Totals)
    ensures Balanced(cfg, t, t)
  {
  }

  lemma NothingBalances(cfg: Config, m: Moment, m': Moment, failures: nat)
    requires NothingYet(cfg, m, m')
    ensures Balanced(cfg, Totals(m.handed, m.credit, failures), Totals(m'.handed, m'.credit, failures))
    ensures m'.credit == m.credit && (!cfg.gated ==> m.clock <= cfg.settle + m'.cur.ts)
  {
  }

  lemma WholeBalances(cfg: Config, m: Moment, m': Moment, r: Report, failures: nat, failures': nat)
    requires Whole(cfg, m, m', r) && failures <= failures'
    requires failures == failures' ==> WentWell(cfg, m, m', r)
    ensures Balanced(cfg, Totals(m.handed, m.credit, failures), Totals(m'.handed, m'.credit, failures'))
    ensures failures == failures' ==> (m'.credit != m.credit <==> |r.sent| > 0)
    ensures failures == failures' && !cfg.gated ==> m.clock <= cfg.settle + m'.cur.ts
  {
    hide Exact;
    hide OfLastReply;
    hide Adds;
    hide RestedSince;
    hide MovedBy;
    if failures == failures' {
      GrowsBySome(m.credit, r.sent);
    }
  }

  lemma PassBalances(cfg: Config, m: Moment, m': Moment, report: Option<Report>, failures: nat, failures': nat, n: nat)
    requires report.None? ==> NothingYet(cfg, m, m') && n == 0 && failures == failures'
    requires report.Some? ==> Whole(cfg, m, m', report.value) && n == |report.value.sent| && failures <= failures'
    requires report.Some? && failures == failures' ==> WentWell(cfg, m, m', report.value)
    ensures Balanced(cfg, Totals(m.handed, m.credit, failures), Totals(m'.handed, m'.credit, failures'))
    ensures failures == failures' ==> (m'.credit != m.credit <==> n > 0)
    ensures failures == failures' && !cfg.gated ==> m.clock <= cfg.settle + m'.cur.ts
  {
    hide *;
    if report.Some? {
      WholeBalances(cfg, m, m', report.value, failures, failures');
    } else {
      NothingBalances(cfg, m, m', failures);
    }
  }

  lemma GrowsBySome(m: multiset<Line>, more: multiset<Line>)
    ensures m + more != m <==> |more| > 0
  {
    if |more| > 0 {
      var l :| l in more;
      assert (m + more)[l] > m[l];
    } else {
      assert m + more == m;
    }
  }

  /** The poller waited once, as long as it may after a wait of length interval and
      what has happened since; and it had to, because the source was not known to
      be retired, or is not drained. */
  ghost predicate SleptOnce(waits: seq<Wait>, waits': seq<Wait>, interval: int, pollMin: int, pollMax: int,
                            budget: Budget, ok: bool, productive: bool, retireAt: Option<Time>, at: Time)
    requires 0 < pollMin <= pollMax && pollMin <= interval
  {
    && |waits'| == |waits| + 1 && waits <= waits'
    && var wait := waits'[|waits|];
       && Follows(interval, wait, pollMin, pollMax) && wait.budget == budget && wait.productive == productive
       && (wait.retiring ==> retireAt.Some? && !(ok && at >= retireAt.value))
  }

  lemma SleptOn(waits: seq<Wait>, waits': seq<Wait>, interval: int, pollMin: int, pollMax: int, budget: Budget,
                ok: bool, productive: bool, retireAt: Option<Time>, at: Time)
    requires 0 < pollMin <= pollMax && WellPaced(waits, pollMin, pollMax) && pollMin <= interval
    requires interval == LastLength(waits, pollMin)
    requires SleptOnce(waits, waits', interval, pollMin, pollMax, budget, ok, productive, retireAt, at)
    ensures WellPaced(waits', pollMin, pollMax) && |waits'| == |waits| + 1
    ensures LastLength(waits', pollMin) == waits'[|waits|].length
  {
    hide Follows;
    hide WellPaced;
    PacingGoesOn(waits, waits', pollMin, pollMax);
  }

  /** No call has failed since the last wait, the stored cursor is gone, and the
      source has been read past its retirement. */
  predicate IsDrained(failures: nat, before: nat, stored: Option<Cursor>, retireAt: Option<Time>, at: Time) {
    failures == before && stored == None && retireAt.Some? && at >= retireAt.value
  }

  /** What follows a round: nothing if the context has ended; the end for a retired
      source read past its retirement without error; for every other round, failed
      or not, a wait. next is the length of the wait, if there was one. */
  method AfterRound(w: Feed, cur: CursorCell, interval: int, ok: bool, n: nat, pollMin: int, pollMax: int)
    returns (exit: Exit, next: int)
    requires w.Valid() && 0 < pollMin <= pollMax && pollMin <= interval
    requires ok == (w.failures == w.since.failures) && (ok ==> (n > 0 <==> w.live.credit != w.since.credit))
    modifies w`clock, w`source, w`accepted, w`deploy, w`stored, w`onDisk, w`mem, w`disk, w`retireAt, w`budget,
             w`waits, w`since, w`ended
    ensures w.Valid() && old(w.clock) <= w.clock && Covers(w.source, old(w.source)) && pollMin <= next
    ensures exit.Stopped? <==> w.ended
    ensures old(w.ended) ==> w.ended && w.waits == old(w.waits)
    ensures exit.StillRunning? || w.waits != old(w.waits) ==>
              SleptOnce(old(w.waits), w.waits, interval, pollMin, pollMax, w.budget, ok, ok && n > 0, w.retireAt,
                        cur.ts)
    ensures exit.StillRunning? ==> w.since == w.Sums() && |w.waits| == |old(w.waits)| + 1
    ensures exit.StillRunning? ==> next == w.waits[|old(w.waits)|].length
    ensures exit.StillRunning? && old(w.retireAt).Some? ==> w.waits[|old(w.waits)|].retiring
    ensures exit.Drained? ==>
              && w.waits == old(w.waits) && w.since == old(w.since)
              && IsDrained(w.failures, w.since.failures, w.stored, w.retireAt, cur.ts)
  {
    hide Reachable;
    hide Drifts;
    hide BudgetThrottle;
    hide Stretched;
    hide Covers;
    hide Feed.Valid;
    exit, next := Stopped, interval;
    CoversItself(w.source);
    var cancelled := w.ContextEnded();
    if cancelled {
      return;
    }
    var length := BackedOff(interval, ok && n > 0, pollMin, pollMax);
    var remaining, limit := w.RateLimitBudget();
    var f := BudgetThrottle(remaining, limit);
    if f > 1.0 {
      length := Stretched(if length > pollMax then length else pollMax, f);
    }
    var retireAt := w.Retired();
    ghost var source := w.source;
    if retireAt.Some? {
      if ok && cur.ts >= retireAt.value {
        var deleted := w.Delete();
        CoversTrans(w.source, source, old(w.source));
        exit := Drained;
        return;
      }
      length := pollMin;
    }
    next := length;
    var ended := w.SleepBetweenRounds(length);
    CoversTrans(w.source, source, old(w.source));
    if !ended {
      exit := StillRunning;
    }
  }

  /** One pass of a poller's life: a round, and what follows it. */
  method RunRound(w: Feed, p: Poller, cur: CursorCell, interval: int, pollMin: int, pollMax: int)
    returns (exit: Exit, next: int)
    requires InStep(w, p, cur) && w.phase.Idle? && 0 < pollMin <= pollMax && pollMin <= interval
    requires w.since == w.Sums()
    modifies w, p, cur
    ensures InStep(w, p, cur) && WentOn(w, p) && w.phase.Idle?
    ensures Balanced(w.cfg, old(w.Sums()), w.Sums()) && old(w.failures) <= w.failures && pollMin <= next
    ensures !w.cfg.gated && w.failures == old(w.failures) ==> old(w.clock) <= w.cfg.settle + cur.ts
    ensures exit.Stopped? <==> w.ended
    ensures exit.StillRunning? || w.waits != old(w.waits) ==>
              SleptOnce(old(w.waits), w.waits, interval, pollMin, pollMax, w.budget, w.failures == old(w.failures),
                        w.failures == old(w.failures) && w.live.credit != old(w.live.credit), w.retireAt, cur.ts)
    ensures exit.StillRunning? ==> w.since == w.Sums() && |w.waits| == |old(w.waits)| + 1
    ensures exit.StillRunning? ==> next == w.waits[|old(w.waits)|].length
    ensures exit.Drained? ==>
              && w.waits == old(w.waits) && w.since == old(w.since)
              && IsDrained(w.failures, w.since.failures, w.stored, w.retireAt, cur.ts)
  {
    hide Reachable;
    hide Drifts;
    hide Exact;
    hide Overfull;
    hide GapTime;
    hide StepCount;
    hide Feed.Valid;
    hide Poller.Valid;
    hide Covers;
    hide QueuedUp;
    hide Balanced;
    hide Prolongs;
    hide Follows;
    hide IsDrained;
    hide SleptOnce;
    hide NothingYet;
    hide Whole;
    hide WentWell;
    ghost var trail, before := TrailOf(w, p), MomentOf(w, p, cur);
    var n, err;
    ghost var report;
    n, err, report := PollOnce(w, p, cur);
    PassBalances(w.cfg, before, MomentOf(w, p, cur), report, old(w.failures), w.failures, n);
    ghost var here := TrailOf(w, p);
    exit, next := AfterRound(w, cur, interval, err.Ok?, n, pollMin, pollMax);
    ProlongsLater(trail, here, w.clock, w.source);
  }

  function CreditOf(p: Option<Position>): multiset<Line> {
    if p.Some? then p.value.credit else multiset{}
  }

  /** Nothing is handed out twice: on scope, what was handed out since before, with
      what the stored cursor accounted for, is what the cursor accounts for now:
      no line more often than the source holds it, and those of a delivered window
      just as often. */
  ghost predicate HandsOutOnce(w: Feed, before: multiset<Line>, stored: multiset<Line>)
    reads w
  {
    forall l: Line | w.cfg.scope(l.hash) ::
      && w.handed[l] + stored[l] == before[l] + w.live.credit[l] <= before[l] + w.source[l]
      && (InDelivered(w.live.ledger, l.ts) ==> w.live.credit[l] == w.source[l])
  }

  lemma BalanceIsOnce(w: Feed, before: Totals)
    requires w.Valid() && Balanced(w.cfg, before, w.Sums()) && before.failures == w.failures
    ensures HandsOutOnce(w, before.handed, before.credit)
  {
    hide Reachable;
    hide InDelivered;
    forall l: Line | w.cfg.scope(l.hash)
      ensures w.handed[l] + before.credit[l] == before.handed[l] + w.live.credit[l]
      ensures w.live.credit[l] <= w.source[l]
      ensures InDelivered(w.live.ledger, l.ts) ==> w.live.credit[l] == w.source[l]
    {
      LiveCreditIsSource(w.cfg, w.View(), l);
    }
  }

  /** A poller's life begins at the stored cursor, or at start. */
  method BeginLife(w: Feed, p: Poller, start: Time) returns (cur: CursorCell)
    requires w.Valid() && p.Valid() && p.published == []
    modifies w`live, w`phase, w`waits, w`since, p
    ensures fresh(cur) && InStep(w, p, cur) && w.phase.Idle? && w.waits == [] && w.since == w.Sums()
    ensures w.stored.None? ==> w.live.start == start
    ensures w.live.credit == CreditOf(w.mem) && p.published == [cur.ts]
    ensures cur.ts == if w.stored.Some? then w.stored.value.ts else start
  {
    hide Reachable;
    hide GapTime;
    hide StepCount;
    hide NonDecreasing;
    var stored := w.Load(start);
    cur := new CursorCell(if stored.Some? then stored.value else Cursor(start, multiset{}));
    p.Begin(cur.ts, w.live.ledger);
  }

  /** The life of a poller: from the stored cursor (or its start) round by round,
      until its context ends or its retired source is drained. rounds bounds the
      prefix looked at. */
  method RunPoller(w: Feed, p: Poller, start: Time, pollMin: int, pollMax: int, rounds: nat)
    returns (exit: Exit, cur: CursorCell)
    requires w.Valid() && p.Valid() && p.published == [] && 0 < pollMin <= pollMax
    modifies w, p
    ensures InStep(w, p, cur) && w.phase.Idle?
    ensures old(w.stored).None? ==> w.live.start == start
    ensures p.published != [] && p.published[0] == if old(w.stored).Some? then old(w.stored).value.ts else start
    ensures (exit.Stopped? ==> w.ended) && (rounds > 0 && w.ended ==> exit.Stopped?)
    ensures WellPaced(w.waits, pollMin, pollMax) && (exit.StillRunning? ==> |w.waits| == rounds)
    ensures Balanced(w.cfg, old(Totals(w.handed, CreditOf(w.mem), w.failures)), w.Sums())
    ensures w.failures == old(w.failures) ==> HandsOutOnce(w, old(w.handed), old(CreditOf(w.mem)))
    ensures rounds > 0 && !w.cfg.gated && w.failures == old(w.failures) ==> old(w.clock) <= w.cfg.settle + cur.ts
    ensures exit.Drained? ==> IsDrained(w.failures, w.since.failures, w.stored, w.retireAt, cur.ts)
    ensures exit.Drained? ==> LosesNothingBefore(w, w.retireAt.value)
  {
    hide Reachable;
    hide Drifts;
    hide GapTime;
    hide StepCount;
    hide SleptOnce;
    hide NonDecreasing;
    hide Follows;
    hide WellPaced;
    hide LosesNothingBefore;
    hide Covers;
    hide Balanced;
    hide Prolongs;
    hide HandsOutOnce;
    exit := StillRunning;
    NoWaits(pollMin, pollMax);
    cur := BeginLife(w, p, start);
    ghost var lineage, before, first := w.live.start, w.Sums(), cur.ts;
    StillBalances(w.cfg, before);
    var interval, round := pollMin, 0;
    while round < rounds && exit.StillRunning?
      invariant fresh(cur) && InStep(w, p, cur) && w.phase.Idle?
      invariant round <= rounds && (round == 0 ==> exit.StillRunning?)
      invariant w.live.start == lineage && pollMin <= interval && [first] <= p.published
      invariant (exit.Stopped? ==> w.ended) && (round > 0 && w.ended ==> exit.Stopped?)
      invariant Balanced(w.cfg, before, w.Sums()) && old(w.clock) <= w.clock && old(w.failures) <= w.failures
      invariant round > 0 && !w.cfg.gated && w.failures == old(w.failures) ==> old(w.clock) <= w.cfg.settle + cur.ts
      invariant WellPaced(w.waits, pollMin, pollMax)
      invariant exit.StillRunning? ==>
                  interval == LastLength(w.waits, pollMin) && |w.waits| == round && w.since == w.Sums()
      invariant exit.Drained? ==> IsDrained(w.failures, w.since.failures, w.stored, w.retireAt, cur.ts)
      decreases rounds - round
    {
      ghost var sums, waits, trail := w.Sums(), w.waits, TrailOf(w, p);
      var next;
      exit, next := RunRound(w, p, cur, interval, pollMin, pollMax);
      BalancedTrans(w.cfg, before, sums, w.Sums());
      ProlongsFacts(trail, TrailOf(w, p));
      if w.waits != waits {
        SleptOn(waits, w.waits, interval, pollMin, pollMax, w.budget, w.failures == sums.failures,
                w.failures == sums.failures && w.live.credit != sums.credit, w.retireAt, cur.ts);
      }
      interval, round := next, round + 1;
    }
    if exit.Drained? {
      NothingLostBefore(w, w.retireAt.value);
    }
    if w.failures == old(w.failures) {
      BalanceIsOnce(w, before);
    }
  }

  /** Nothing before t is lost, in the sense of NothingLost, at any sink. */
  ghost predicate LosesNothingBefore(w: Feed, t: Time)
    reads w
  {
    w.live.cur.ts >= t && forall sink | 0 <= sink < |w.accepted| ::
        NothingLost(w.cfg, w.source, w.accepted[sink], w.live)
  }

  lemma NothingLostBefore(w: Feed, t: Time)
    requires w.Valid() && w.live.cur.ts >= t
    ensures LosesNothingBefore(w, t)
  {
    forall sink | 0 <= sink < |w.accepted|
      ensures NothingLost(w.cfg, w.source, w.accepted[sink], w.live)
    {
      NoSilentLoss(w.cfg, w.View(), sink);
    }
  }

  /** Every in-scope line of the source at time t is accounted for at every sink. */
  ghost predicate AccountedAt(w: Feed, t: Time)
    reads w
  {
    forall sink, l: Line | 0 <= sink < |w.accepted| && w.cfg.scope(l.hash) && l.ts == t ::
      AccountedFor(w.cfg, w.source, w.accepted[sink], w.live, l)
  }

  /** Handover: with a drained poller and one that began no later than the drained
      one's retirement, no moment from the start of the one to the cursor of the
      other is left to neither. */
  lemma HandOverCovers(drained: Feed, next: Feed, retireAt: Time, t: Time)
    requires LosesNothingBefore(drained, retireAt) && next.Valid() && next.live.start <= retireAt
    requires drained.live.start <= t < next.live.cur.ts
    ensures (t < retireAt && AccountedAt(drained, t)) || (t >= next.live.start && AccountedAt(next, t))
  {
    hide AccountedFor;
    NothingLostBefore(next, next.live.cur.ts);
  }
}
