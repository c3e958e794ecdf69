/** What holds in every reachable state of PollSystem. */
module PollSafety {
  import opened LogLines
  import opened PollSystem

  // ----- the ledger

  /** The windows follow each other without hole or overlap from start to end. */
  ghost predicate Tiles(ledger: seq<Window>, start: Time, end: Time) {
    && (forall i | 0 <= i < |ledger| :: ledger[i].lo < ledger[i].hi)
    && (forall i | 0 < i < |ledger| :: ledger[i - 1].hi == ledger[i].lo)
    && if ledger == [] then start == end else ledger[0].lo == start && ledger[|ledger| - 1].hi == end
  }

  lemma TilesExtend(ledger: seq<Window>, start: Time, end: Time, w: Window)
    requires Tiles(ledger, start, end) && w.lo == end < w.hi
    ensures Tiles(ledger + [w], start, w.hi)
  {
  }

  lemma TilesPrefix(ledger: seq<Window>, start: Time, end: Time, n: nat)
    requires Tiles(ledger, start, end) && n < |ledger|
    ensures Tiles(ledger[..n], start, ledger[n].lo)
  {
  }

  lemma {:induction false} WindowsEndByCursor(ledger: seq<Window>, start: Time, end: Time, i: nat)
    requires Tiles(ledger, start, end) && i < |ledger|
    ensures start <= ledger[i].lo && ledger[i].hi <= end
    decreases |ledger|
  {
    var last := |ledger| - 1;
    if last > 0 {
      TilesPrefix(ledger, start, end, last);
      WindowsEndByCursor(ledger[..last], start, ledger[last].lo, if i < last then i else 0);
      assert ledger[0].lo < ledger[0].hi;
    }
  }

  lemma TilesSpan(ledger: seq<Window>, start: Time, end: Time)
    requires Tiles(ledger, start, end)
    ensures start <= end
  {
    if ledger != [] {
      WindowsEndByCursor(ledger, start, end, 0);
    }
  }

  lemma WindowsInOrder(ledger: seq<Window>, start: Time, end: Time, i: nat, j: nat)
    requires Tiles(ledger, start, end) && i < j < |ledger|
    ensures ledger[i].hi <= ledger[j].lo
  {
    TilesPrefix(ledger, start, end, j);
    WindowsEndByCursor(ledger[..j], start, ledger[j].lo, i);
  }

  predicate Gap(w: Window) {
    w.CatchUpGap? || w.LagGap?
  }

  /** The time t lies in a recorded gap. */
  ghost predicate InGap(ledger: seq<Window>, t: Time) {
    exists i :: 0 <= i < |ledger| && Gap(ledger[i]) && ledger[i].lo <= t < ledger[i].hi
  }

  /** The time t is a recorded timestamp skip. */
  ghost predicate AtStep(ledger: seq<Window>, t: Time) {
    exists i :: 0 <= i < |ledger| && ledger[i].Stepped? && ledger[i].lo <= t < ledger[i].hi
  }

  /** The time t was passed on a reply cut short. */
  ghost predicate InCut(ledger: seq<Window>, t: Time) {
    exists i :: 0 <= i < |ledger| && ledger[i].Cut? && ledger[i].lo <= t < ledger[i].hi
  }

  /** The time t lies in a delivered window. */
  ghost predicate InDelivered(ledger: seq<Window>, t: Time) {
    exists i :: 0 <= i < |ledger| && ledger[i].Delivered? && ledger[i].lo <= t < ledger[i].hi
  }

  // ----- the invariant

  ghost predicate Settled(cfg: Config, clock: Time, source: multiset<Line>, pos: Position, w: Window) {
    && (w.Stepped? ==> w.hi == w.lo + 1 && Overfull(pos.credit, w.lo))
    && (w.Delivered? ==>
          && w.hi + cfg.settle <= clock
          && forall l: Line :: w.lo <= l.ts < w.hi ==> pos.credit[l] == source[l])
  }

  ghost predicate Backed(cfg: Config, pos: Position, accepted: multiset<Line>) {
    forall l: Line :: cfg.scope(l.hash) ==> pos.credit[l] <= accepted[l]
  }

  /** The cursor means what it says: the ledger covers [start, ts), the source
      lines of every delivered window are accounted for, and a page of lines at
      every stepped timestamp; at ts exactly the lines in seen are, beyond ts none
      is, and each is backed by every sink. */
  ghost predicate Sound(cfg: Config, clock: Time, source: multiset<Line>, accepted: seq<multiset<Line>>,
                        pos: Position) {
    && Tiles(pos.ledger, pos.start, pos.cur.ts)
    && Covers(source, pos.credit)
    && (forall l: Line :: pos.credit[l] > 0 ==> pos.start <= l.ts <= pos.cur.ts)
    && (forall h :: pos.credit[Line(pos.cur.ts, h)] == pos.cur.seen[h])
    && (forall i | 0 <= i < |pos.ledger| :: Settled(cfg, clock, source, pos, pos.ledger[i]))
    && (forall i | 0 <= i < |accepted| :: Backed(cfg, pos, accepted[i]))
  }

  ghost predicate SoundIn(cfg: Config, s: State, pos: Position) {
    Sound(cfg, s.clock, s.source, s.accepted, pos)
  }

  ghost predicate RoundOk(cfg: Config, s: State, r: Round) {
    && r.horizon + cfg.settle <= s.clock
    && s.live.cur.ts <= r.horizon + 1
    && (r.floor.Some? ==> s.live.cur.ts >= r.floor.value - MAX_KIND_LAG)
    && (r.gate.Some? ==> r.gate.value <= s.deploy.gen)
    && (r.gate.Some? && s.deploy.registered && s.deploy.gen == r.gate.value ==>
        r.horizon <= s.deploy.pos + MAX_KIND_SKEW)
  }

  ghost predicate FlightOk(cfg: Config, s: State, r: Round, f: Flight) {
    && AnchorContract(f.fetched, s.live.cur.ts, f.page, f.raw)
    && Covers(s.source, f.fetched)
    && Covers(f.fetched, s.live.credit)
    && (forall l: Line :: l.ts < r.horizon ==> f.fetched[l] == s.source[l])
    && |f.base| == |s.accepted|
    && forall i | 0 <= i < |f.base| :: Backed(cfg, s.live, f.base[i])
  }

  ghost predicate PhaseOk(cfg: Config, s: State) {
    match s.phase
    case Idle => true
    case Ready(floor) => floor.Some? ==> s.live.cur.ts >= floor.value - MAX_KIND_LAG
    case Paging(r) => RoundOk(cfg, s, r)
    case InFlight(r, f) => RoundOk(cfg, s, r) && FlightOk(cfg, s, r, f)
  }

  ghost predicate Inv(cfg: Config, s: State) {
    && SoundIn(cfg, s, s.live)
    && (s.mem.Some? ==> SoundIn(cfg, s, s.mem.value))
    && (s.disk.Some? ==> SoundIn(cfg, s, s.disk.value))
    && PhaseOk(cfg, s)
  }

  lemma OverfullStays(before: multiset<Line>, after: multiset<Line>, t: Time)
    requires Overfull(before, t) && Covers(after, before)
    ensures Overfull(after, t)
  {
  }

  lemma DriftKeepsSound(cfg: Config, s: State, s': State, pos: Position)
    requires Drifts(cfg, s, s') && SoundIn(cfg, s, pos)
    ensures SoundIn(cfg, s', pos)
  {
    forall i | 0 <= i < |pos.ledger|
      ensures Settled(cfg, s'.clock, s'.source, pos, pos.ledger[i])
    {
      assert Settled(cfg, s.clock, s.source, pos, pos.ledger[i]);
    }
    forall i | 0 <= i < |s'.accepted|
      ensures Backed(cfg, pos, s'.accepted[i])
    {
      assert Backed(cfg, pos, s.accepted[i]);
      assert Covers(s'.accepted[i], s.accepted[i]);
    }
  }

  lemma SkipKeepsSound(cfg: Config, s: State, to: Time, w: Window)
    requires SoundIn(cfg, s, s.live) && s.live.cur.ts < to
    requires Gap(w) && w.lo == s.live.cur.ts && w.hi == to
    ensures SoundIn(cfg, s, Skipped(s.live, to, w))
  {
    var pos := Skipped(s.live, to, w);
    TilesExtend(s.live.ledger, s.live.start, s.live.cur.ts, w);
    forall i | 0 <= i < |pos.ledger|
      ensures Settled(cfg, s.clock, s.source, pos, pos.ledger[i])
    {
      if i < |s.live.ledger| {
        assert Settled(cfg, s.clock, s.source, s.live, s.live.ledger[i]);
      }
    }
    forall i | 0 <= i < |s.accepted|
      ensures Backed(cfg, pos, s.accepted[i])
    {
      assert Backed(cfg, s.live, s.accepted[i]);
    }
  }

  // ----- accepting a page

  /** A line of the fetched source that the page had to contain: nothing later
      than it would otherwise be on the page, and a short reply holds everything. */
  lemma PageHolds(fetched: multiset<Line>, anchor: Time, page: seq<Line>, raw: nat, l: Line)
    requires AnchorContract(fetched, anchor, page, raw) && l.ts >= anchor
    requires raw < PAGE_SIZE || exists p :: p in multiset(page) && p.ts > l.ts
    ensures multiset(page)[l] == fetched[l]
  {
  }

  /** After acceptance a line inside a delivered part of the page is accounted
      for exactly as often as the source holds it. */
  lemma AcceptCredits(cfg: Config, s: State, sc: Scan, l: Line)
    requires Inv(cfg, s) && s.phase.InFlight?
    requires Scanned(s.live.cur, s.phase.round.horizon, multiset(s.phase.flight.page), sc)
    requires s.live.cur.ts <= l.ts <= s.phase.round.horizon
    requires l.ts < sc.next.ts
             || (Final(s.phase.flight.page, sc) && !CutShort(s.phase.flight.page, s.phase.flight.raw, sc))
    ensures s.live.credit[l] + sc.sent[l] == s.phase.flight.fetched[l]
  {
    var cur, r, f := s.live.cur, s.phase.round, s.phase.flight;
    PageHolds(f.fetched, cur.ts, f.page, f.raw, l);
    assert l == Line(l.ts, l.hash);
    assert s.live.credit[l] <= f.fetched[l];
    if l.ts == cur.ts {
      assert s.live.credit[l] == cur.seen[l.hash];
    } else {
      assert s.live.credit[l] == 0;
    }
    assert sc.sent[l] == Owed(cur, r.horizon, multiset(f.page), l);
  }

  /** Lines are never counted more often than the source holds them. */
  lemma AcceptWithinSource(cfg: Config, s: State, sc: Scan)
    requires Inv(cfg, s) && s.phase.InFlight?
    requires Scanned(s.live.cur, s.phase.round.horizon, multiset(s.phase.flight.page), sc)
    ensures Covers(s.phase.flight.fetched, s.live.credit + sc.sent)
  {
    var cur, r, f := s.live.cur, s.phase.round, s.phase.flight;
    forall l
      ensures (s.live.credit + sc.sent)[l] <= f.fetched[l]
    {
      assert sc.sent[l] == Owed(cur, r.horizon, multiset(f.page), l);
      assert multiset(f.page)[l] <= f.fetched[l];
      assert s.live.credit[l] <= f.fetched[l];
      assert l == Line(l.ts, l.hash);
      if l.ts == cur.ts {
        assert s.live.credit[l] == cur.seen[l.hash];
      } else if l.ts > cur.ts {
        assert s.live.credit[l] == 0;
      }
    }
  }

  /** A full page that leaves the cursor where it is holds only lines at that
      instant, which is within the horizon. */
  lemma StuckPage(cfg: Config, s: State, sc: Scan, l: Line)
    requires Inv(cfg, s) && s.phase.InFlight?
    requires Scanned(s.live.cur, s.phase.round.horizon, multiset(s.phase.flight.page), sc)
    requires !Final(s.phase.flight.page, sc) && sc.next.ts <= s.live.cur.ts
    requires l in multiset(s.phase.flight.page) && l.ts >= s.live.cur.ts
    ensures l.ts == s.live.cur.ts <= s.phase.round.horizon
  {
  }

  /** Every full page moves the cursor, at most one nanosecond past the horizon. */
  lemma FullPageMoves(cfg: Config, s: State, sc: Scan)
    requires Inv(cfg, s) && s.phase.InFlight?
    requires Scanned(s.live.cur, s.phase.round.horizon, multiset(s.phase.flight.page), sc)
    ensures var to := Landing(s.live.cur, s.phase.round.horizon, s.phase.flight.page, sc);
            && s.live.cur.ts <= to.ts <= s.phase.round.horizon + 1
            && (!Final(s.phase.flight.page, sc) ==> s.live.cur.ts < to.ts)
  {
    if !Final(s.phase.flight.page, sc) && sc.next.ts <= s.live.cur.ts {
      FullPageReachesAnchor(s.phase.flight.fetched, s.live.cur.ts, s.phase.flight.page, s.phase.flight.raw);
      var p :| p in multiset(s.phase.flight.page) && p.ts >= s.live.cur.ts;
      StuckPage(cfg, s, sc, p);
    }
  }

  /** A round steps over a timestamp only once it has accounted for a page of
      lines there. */
  lemma StepsOnlyOverfull(cfg: Config, s: State, sc: Scan)
    requires Inv(cfg, s) && s.phase.InFlight?
    requires Scanned(s.live.cur, s.phase.round.horizon, multiset(s.phase.flight.page), sc)
    requires !Final(s.phase.flight.page, sc) && sc.next.ts <= s.live.cur.ts
    ensures Overfull(s.live.credit + sc.sent, s.live.cur.ts)
  {
    hide *;
    var f := s.phase.flight;
    forall l: Line | l in f.page && l.ts >= s.live.cur.ts
      ensures l.ts == s.live.cur.ts && (s.live.credit + sc.sent)[l] >= multiset(f.page)[l]
    {
      StuckCredit(cfg, s, sc, l);
    }
    StuckPageFull(cfg, s, sc);
    CrowdAt(s.live.credit + sc.sent, s.live.cur.ts, f.page);
  }

  lemma StuckPageFull(cfg: Config, s: State, sc: Scan)
    requires Inv(cfg, s) && s.phase.InFlight? && !Final(s.phase.flight.page, sc)
    ensures |From(s.phase.flight.page, s.live.cur.ts)| >= PAGE_SIZE
  {
    hide Sound;
  }

  lemma StuckCredit(cfg: Config, s: State, sc: Scan, l: Line)
    requires Inv(cfg, s) && s.phase.InFlight?
    requires Scanned(s.live.cur, s.phase.round.horizon, multiset(s.phase.flight.page), sc)
    requires !Final(s.phase.flight.page, sc) && sc.next.ts <= s.live.cur.ts
    requires l in s.phase.flight.page && l.ts >= s.live.cur.ts
    ensures l.ts == s.live.cur.ts && (s.live.credit + sc.sent)[l] >= multiset(s.phase.flight.page)[l]
  {
    StuckPage(cfg, s, sc, l);
    assert l == Line(s.live.cur.ts, l.hash);
    assert sc.sent[l] == Owed(s.live.cur, s.phase.round.horizon, multiset(s.phase.flight.page), l);
    assert s.live.credit[l] == s.live.cur.seen[l.hash];
  }

  lemma CrowdAt(credit: multiset<Line>, t: Time, page: seq<Line>)
    requires |From(page, t)| >= PAGE_SIZE
    requires forall l | l in page && l.ts >= t :: l.ts == t && credit[l] >= multiset(page)[l]
    ensures Overfull(credit, t)
  {
    var crowd := From(page, t);
    forall l: Line | l in multiset(crowd)
      ensures l.ts == t && multiset(crowd)[l] <= credit[l]
    {
      assert l in crowd && l in page;
      assert multiset(crowd)[l] <= multiset(page)[l];
    }
    assert multiset(crowd) <= credit;
  }

  lemma EarlierWindowStays(cfg: Config, s: State, sc: Scan, i: nat)
    requires Inv(cfg, s) && s.phase.InFlight? && i < |s.live.ledger|
    requires Scanned(s.live.cur, s.phase.round.horizon, multiset(s.phase.flight.page), sc)
    ensures var pos := Accepted(s.live, s.phase.round.horizon, s.phase.flight, sc);
            Settled(cfg, s.clock, s.source, pos, s.live.ledger[i])
  {
    var w, r := s.live.ledger[i], s.phase.round;
    assert Settled(cfg, s.clock, s.source, s.live, w);
    if w.Delivered? {
      WindowsEndByCursor(s.live.ledger, s.live.start, s.live.cur.ts, i);
      forall l: Line | w.lo <= l.ts < w.hi
        ensures s.live.credit[l] + sc.sent[l] == s.source[l]
      {
        assert sc.sent[l] == Owed(s.live.cur, r.horizon, multiset(s.phase.flight.page), l);
      }
    } else if w.Stepped? {
      OverfullStays(s.live.credit, s.live.credit + sc.sent, w.lo);
    }
  }

  lemma PassedIsSettled(cfg: Config, s: State, sc: Scan)
    requires Inv(cfg, s) && s.phase.InFlight?
    requires Scanned(s.live.cur, s.phase.round.horizon, multiset(s.phase.flight.page), sc)
    ensures var pos := Accepted(s.live, s.phase.round.horizon, s.phase.flight, sc);
            forall w | w in Passed(s.live.cur, s.phase.round.horizon, s.phase.flight, sc) ::
              Settled(cfg, s.clock, s.source, pos, w)
  {
    hide Inv;
    hide Scanned;
    hide Overfull;
    hide Landing;
    var r, f := s.phase.round, s.phase.flight;
    forall w | w in Passed(s.live.cur, r.horizon, f, sc)
      ensures Settled(cfg, s.clock, s.source, Accepted(s.live, r.horizon, f, sc), w)
    {
      if w.Stepped? {
        StepsOnlyOverfull(cfg, s, sc);
        StepIsOne(cfg, s, sc);
      } else if w.Delivered? {
        DeliveredIsSettled(cfg, s, sc, w);
      }
    }
  }

  lemma StepIsOne(cfg: Config, s: State, sc: Scan)
    requires Inv(cfg, s) && s.phase.InFlight?
    requires Scanned(s.live.cur, s.phase.round.horizon, multiset(s.phase.flight.page), sc)
    requires !Final(s.phase.flight.page, sc) && sc.next.ts <= s.live.cur.ts
    ensures Landing(s.live.cur, s.phase.round.horizon, s.phase.flight.page, sc).ts == s.live.cur.ts + 1
  {
    hide Inv;
  }

  lemma DeliveredIsSettled(cfg: Config, s: State, sc: Scan, w: Window)
    requires Inv(cfg, s) && s.phase.InFlight?
    requires Scanned(s.live.cur, s.phase.round.horizon, multiset(s.phase.flight.page), sc)
    requires w in Passed(s.live.cur, s.phase.round.horizon, s.phase.flight, sc) && w.Delivered?
    ensures w.hi + cfg.settle <= s.clock
    ensures forall l: Line | w.lo <= l.ts < w.hi :: (s.live.credit + sc.sent)[l] == s.source[l]
  {
    DeliveredRange(cfg, s, sc, w);
    hide Scanned;
    hide Passed;
    forall l: Line | w.lo <= l.ts < w.hi
      ensures s.live.credit[l] + sc.sent[l] == s.source[l]
    {
      AcceptCredits(cfg, s, sc, l);
      FetchedBefore(cfg, s, l);
    }
    hide Inv;
  }

  lemma FetchedBefore(cfg: Config, s: State, l: Line)
    requires Inv(cfg, s) && s.phase.InFlight? && l.ts < s.phase.round.horizon
    ensures s.phase.flight.fetched[l] == s.source[l]
  {
    hide Sound;
  }

  lemma DeliveredRange(cfg: Config, s: State, sc: Scan, w: Window)
    requires Inv(cfg, s) && s.phase.InFlight?
    requires Scanned(s.live.cur, s.phase.round.horizon, multiset(s.phase.flight.page), sc)
    requires w in Passed(s.live.cur, s.phase.round.horizon, s.phase.flight, sc) && w.Delivered?
    ensures s.live.cur.ts == w.lo && w.hi <= s.phase.round.horizon && s.phase.round.horizon + cfg.settle <= s.clock
    ensures w.hi <= sc.next.ts
            || (Final(s.phase.flight.page, sc) && !CutShort(s.phase.flight.page, s.phase.flight.raw, sc))
  {
    hide Sound;
    hide FlightOk;
  }

  lemma PassedTiles(pos: Position, horizon: Time, f: Flight, sc: Scan)
    requires Tiles(pos.ledger, pos.start, pos.cur.ts) && pos.cur.ts <= Landing(pos.cur, horizon, f.page, sc).ts
    requires pos.cur.ts <= sc.next.ts
    ensures Tiles(pos.ledger + Passed(pos.cur, horizon, f, sc), pos.start, Landing(pos.cur, horizon, f.page, sc).ts)
  {
    var passed := Passed(pos.cur, horizon, f, sc);
    if passed == [] {
      assert pos.ledger + passed == pos.ledger;
    } else if |passed| == 1 {
      assert passed == [passed[0]];
      TilesExtend(pos.ledger, pos.start, pos.cur.ts, passed[0]);
    } else {
      assert pos.ledger + passed == (pos.ledger + [passed[0]]) + [passed[1]];
      TilesExtend(pos.ledger, pos.start, pos.cur.ts, passed[0]);
      TilesExtend(pos.ledger + [passed[0]], pos.start, sc.next.ts, passed[1]);
    }
  }

  lemma NextNotBefore(cur: Cursor, horizon: Time, page: multiset<Line>, sc: Scan)
    requires Scanned(cur, horizon, page, sc)
    ensures cur.ts <= sc.next.ts
  {
  }

  lemma AcceptLedger(cfg: Config, s: State, sc: Scan)
    requires Inv(cfg, s) && s.phase.InFlight?
    requires Scanned(s.live.cur, s.phase.round.horizon, multiset(s.phase.flight.page), sc)
    ensures var pos := Accepted(s.live, s.phase.round.horizon, s.phase.flight, sc);
            && Tiles(pos.ledger, pos.start, pos.cur.ts)
            && forall i | 0 <= i < |pos.ledger| :: Settled(cfg, s.clock, s.source, pos, pos.ledger[i])
  {
    hide Scanned;
    hide Landing;
    hide Passed;
    hide Settled;
    hide Tiles;
    var pos := Accepted(s.live, s.phase.round.horizon, s.phase.flight, sc);
    FullPageMoves(cfg, s, sc);
    NextNotBefore(s.live.cur, s.phase.round.horizon, multiset(s.phase.flight.page), sc);
    PassedTiles(s.live, s.phase.round.horizon, s.phase.flight, sc);
    PassedIsSettled(cfg, s, sc);
    forall i | 0 <= i < |pos.ledger|
      ensures Settled(cfg, s.clock, s.source, pos, pos.ledger[i])
    {
      if i < |s.live.ledger| {
        EarlierWindowStays(cfg, s, sc, i);
      }
    }
  }

  lemma AcceptCursor(cfg: Config, s: State, sc: Scan)
    requires Inv(cfg, s) && s.phase.InFlight?
    requires Scanned(s.live.cur, s.phase.round.horizon, multiset(s.phase.flight.page), sc)
    ensures var pos := Accepted(s.live, s.phase.round.horizon, s.phase.flight, sc);
            && (forall l: Line :: pos.credit[l] > 0 ==> pos.start <= l.ts <= pos.cur.ts)
            && forall h :: pos.credit[Line(pos.cur.ts, h)] == pos.cur.seen[h]
  {
    var cur, r, f := s.live.cur, s.phase.round, s.phase.flight;
    var page := multiset(f.page);
    var pos := Accepted(s.live, r.horizon, f, sc);
    TilesSpan(s.live.ledger, s.live.start, cur.ts);
    forall l | pos.credit[l] > 0
      ensures pos.start <= l.ts <= pos.cur.ts
    {
      assert sc.sent[l] == Owed(cur, r.horizon, page, l);
      assert s.live.credit[l] > 0 || sc.sent[l] > 0;
    }
    forall h
      ensures pos.credit[Line(pos.cur.ts, h)] == pos.cur.seen[h]
    {
      var l := Line(pos.cur.ts, h);
      assert sc.sent[l] == Owed(cur, r.horizon, page, l);
      if pos.cur.ts > cur.ts {
        assert s.live.credit[l] == 0;
        assert pos.cur != sc.next ==> sc.sent[l] == 0;
      } else {
        assert s.live.credit[Line(cur.ts, h)] == cur.seen[h];
      }
    }
  }

  lemma AcceptIsBacked(cfg: Config, s: State, sc: Scan)
    requires Inv(cfg, s) && s.phase.InFlight? && Acknowledged(cfg, s.phase.flight.base, sc.sent, s.accepted)
    ensures var pos := Accepted(s.live, s.phase.round.horizon, s.phase.flight, sc);
            forall i | 0 <= i < |s.accepted| :: Backed(cfg, pos, s.accepted[i])
  {
    var f := s.phase.flight;
    forall i | 0 <= i < |s.accepted|
      ensures Backed(cfg, Accepted(s.live, s.phase.round.horizon, f, sc), s.accepted[i])
    {
      assert Backed(cfg, s.live, f.base[i]);
    }
  }

  lemma CreditWithinSource(cfg: Config, s: State, sc: Scan)
    requires Inv(cfg, s) && s.phase.InFlight?
    requires Scanned(s.live.cur, s.phase.round.horizon, multiset(s.phase.flight.page), sc)
    ensures Covers(s.source, Accepted(s.live, s.phase.round.horizon, s.phase.flight, sc).credit)
  {
    AcceptWithinSource(cfg, s, sc);
    assert Covers(s.source, s.phase.flight.fetched);
    hide Inv;
    hide Scanned;
  }

  lemma SoundFromParts(cfg: Config, s: State, pos: Position)
    requires Tiles(pos.ledger, pos.start, pos.cur.ts) && Covers(s.source, pos.credit)
    requires forall l: Line :: pos.credit[l] > 0 ==> pos.start <= l.ts <= pos.cur.ts
    requires forall h :: pos.credit[Line(pos.cur.ts, h)] == pos.cur.seen[h]
    requires forall i | 0 <= i < |pos.ledger| :: Settled(cfg, s.clock, s.source, pos, pos.ledger[i])
    requires forall i | 0 <= i < |s.accepted| :: Backed(cfg, pos, s.accepted[i])
    ensures SoundIn(cfg, s, pos)
  {
  }

  lemma AcceptKeepsSound(cfg: Config, s: State, sc: Scan)
    requires Inv(cfg, s) && s.phase.InFlight? && Acknowledged(cfg, s.phase.flight.base, sc.sent, s.accepted)
    requires Scanned(s.live.cur, s.phase.round.horizon, multiset(s.phase.flight.page), sc)
    ensures SoundIn(cfg, s, Accepted(s.live, s.phase.round.horizon, s.phase.flight, sc))
  {
    hide *;
    CreditWithinSource(cfg, s, sc);
    AcceptLedger(cfg, s, sc);
    AcceptCursor(cfg, s, sc);
    AcceptIsBacked(cfg, s, sc);
    SoundFromParts(cfg, s, Accepted(s.live, s.phase.round.horizon, s.phase.flight, sc));
  }

  lemma PagingKeepsInv(cfg: Config, s: State, live: Position, done: bool)
    requires Inv(cfg, s) && s.phase.InFlight? && SoundIn(cfg, s, live)
    requires s.live.cur.ts <= live.cur.ts <= s.phase.round.horizon + 1
    ensures Inv(cfg, s.(live := live, phase := if done then Idle else Paging(s.phase.round)))
  {
    hide Sound;
    hide FlightOk;
  }

  lemma AcceptKeepsInv(cfg: Config, s: State, sc: Scan, s': State)
    requires Inv(cfg, s) && Next(cfg, s, Accept(sc), s')
    ensures Inv(cfg, s')
  {
    AcceptKeepsSound(cfg, s, sc);
    FullPageMoves(cfg, s, sc);
    PagingKeepsInv(cfg, s, Accepted(s.live, s.phase.round.horizon, s.phase.flight, sc), Final(s.phase.flight.page, sc));
    hide Inv;
    hide Sound;
    hide Scanned;
    hide Acknowledged;
    hide Landing;
    hide Passed;
    hide Final;
  }

  lemma DriftKeepsInv(cfg: Config, s: State, s': State)
    requires Inv(cfg, s) && Next(cfg, s, Drift, s')
    ensures Inv(cfg, s')
  {
    DriftKeepsSound(cfg, s, s', s.live);
    if s.mem.Some? { DriftKeepsSound(cfg, s, s', s.mem.value); }
    if s.disk.Some? { DriftKeepsSound(cfg, s, s', s.disk.value); }
  }

  lemma FreshIsSound(cfg: Config, s: State, at: Time)
    ensures SoundIn(cfg, s, Fresh(at))
  {
  }

  lemma FetchKeepsInv(cfg: Config, s: State, page: seq<Line>, raw: nat, s': State)
    requires Inv(cfg, s) && Next(cfg, s, Fetch(page, raw), s')
    ensures Inv(cfg, s')
  {
  }

  lemma FloorKeepsInv(cfg: Config, s: State, s': State)
    requires Inv(cfg, s) && Next(cfg, s, Floor, s')
    ensures Inv(cfg, s')
  {
    hide Sound;
    var to := s.deploy.pos - MAX_KIND_LAG;
    if s.live.cur.ts < to { SkipKeepsSound(cfg, s, to, LagGap(s.live.cur.ts, to)); }
  }

  /** Steps that only touch the phase or move whole positions around. */
  lemma BookkeepingKeepsInv(cfg: Config, s: State, e: Event, s': State)
    requires Inv(cfg, s) && Next(cfg, s, e, s')
    requires e.Begin? || e.Abort? || e.Save? || e.Prune? || e.Flush? || e.Delete? || e.Crash?
    ensures Inv(cfg, s')
  {
  }

  lemma NextKeepsInv(cfg: Config, s: State, e: Event, s': State)
    requires Inv(cfg, s) && Next(cfg, s, e, s')
    ensures Inv(cfg, s')
  {
    hide Sound;
    match e
    case Drift => DriftKeepsInv(cfg, s, s');
    case CatchUp(to) => SkipKeepsSound(cfg, s, to, CatchUpGap(s.live.cur.ts, to));
    case Floor => FloorKeepsInv(cfg, s, s');
    case Accept(sc) => AcceptKeepsInv(cfg, s, sc, s');
    case Start(at) => FreshIsSound(cfg, s, at);
    case Fetch(page, raw) => FetchKeepsInv(cfg, s, page, raw, s');
    case _ => BookkeepingKeepsInv(cfg, s, e, s');
  }

  lemma {:induction false} RunKeepsInv(cfg: Config, run: seq<State>, events: seq<Event>, n: nat)
    requires IsRun(cfg, run, events) && n < |run|
    ensures Inv(cfg, run[n])
  {
    if n == 0 {
      FreshIsSound(cfg, run[0], run[0].live.start);
    } else {
      RunKeepsInv(cfg, run, events, n - 1);
      NextKeepsInv(cfg, run[n - 1], events[n - 1], run[n]);
    }
  }

  lemma ReachableInv(cfg: Config, s: State)
    requires Reachable(cfg, s)
    ensures Inv(cfg, s)
  {
    var run, events :| IsRun(cfg, run, events) && run[|events|] == s;
    RunKeepsInv(cfg, run, events, |events|);
  }
}
