/** What a reader of the polling engine wants to know, for every reachable state
    of PollSystem: no silent loss, exact rounds, what is lost where, gap
    accounting, and how far deploy and HTTP logs drift apart. */
module PollTheorems {
  import opened LogLines
  import opened PollSystem
  import opened PollSafety
  import opened RawFetch

  // ----- no silent loss

  lemma {:induction false} WindowAt(ledger: seq<Window>, start: Time, end: Time, t: Time) returns (i: nat)
    requires Tiles(ledger, start, end) && start <= t < end
    ensures i < |ledger| && ledger[i].lo <= t < ledger[i].hi
    decreases |ledger|
  {
    var last := |ledger| - 1;
    if t >= ledger[last].lo {
      i := last;
    } else {
      TilesPrefix(ledger, start, end, last);
      i := WindowAt(ledger[..last], start, ledger[last].lo, t);
    }
  }

  /** The sink has accepted the in-scope lines of some page of source lines at t. */
  ghost predicate PageAccepted(cfg: Config, source: multiset<Line>, accepted: multiset<Line>, t: Time) {
    exists page: multiset<Line> ::
      && page <= source && |page| >= PAGE_SIZE && AllAt(page, t)
      && forall l: Line | cfg.scope(l.hash) :: page[l] <= accepted[l]
  }

  /** The sink has accepted the line as often as the source holds it, unless its
      timestamp is in a recorded gap; is a recorded skip, where a page of lines
      was accepted; or was passed on a reply cut short. */
  ghost predicate AccountedFor(cfg: Config, source: multiset<Line>, accepted: multiset<Line>, pos: Position, l: Line) {
    || source[l] <= accepted[l]
    || InGap(pos.ledger, l.ts)
    || (AtStep(pos.ledger, l.ts) && PageAccepted(cfg, source, accepted, l.ts))
    || InCut(pos.ledger, l.ts)
  }

  /** So is every in-scope line between the start of the lineage and the cursor. */
  ghost predicate NothingLost(cfg: Config, source: multiset<Line>, accepted: multiset<Line>, pos: Position) {
    forall l: Line | pos.start <= l.ts < pos.cur.ts && cfg.scope(l.hash) :: AccountedFor(cfg, source, accepted, pos, l)
  }

  lemma SoundLosesNothing(cfg: Config, s: State, pos: Position, sink: nat)
    requires SoundIn(cfg, s, pos) && sink < |s.accepted|
    ensures NothingLost(cfg, s.source, s.accepted[sink], pos)
  {
    var accepted := s.accepted[sink];
    forall l: Line | pos.start <= l.ts < pos.cur.ts && cfg.scope(l.hash)
      ensures AccountedFor(cfg, s.source, accepted, pos, l)
    {
      var i := WindowAt(pos.ledger, pos.start, pos.cur.ts, l.ts);
      var w := pos.ledger[i];
      assert Settled(cfg, s.clock, s.source, pos, w) && Backed(cfg, pos, accepted);
      if w.Stepped? {
        assert AtStep(pos.ledger, l.ts);
        CreditedPageIsAccepted(cfg, s.source, pos, accepted, l.ts);
      }
    }
  }

  lemma CreditedPageIsAccepted(cfg: Config, source: multiset<Line>, pos: Position, accepted: multiset<Line>, t: Time)
    requires Overfull(pos.credit, t) && Covers(source, pos.credit) && Backed(cfg, pos, accepted)
    ensures PageAccepted(cfg, source, accepted, t)
  {
    var crowd :| crowd <= pos.credit && |crowd| >= PAGE_SIZE && AllAt(crowd, t);
    forall l: Line
      ensures crowd[l] <= source[l] && (cfg.scope(l.hash) ==> crowd[l] <= accepted[l])
    {
      assert crowd[l] <= pos.credit[l];
    }
    assert crowd <= source;
  }

  /** In every reachable state, whatever rounds, query errors, sink failures,
      arrivals, crashes and restarts led there, nothing before the live cursor
      or before a stored cursor is lost silently. */
  lemma NoSilentLoss(cfg: Config, s: State, sink: nat)
    requires Reachable(cfg, s) && sink < |s.accepted|
    ensures NothingLost(cfg, s.source, s.accepted[sink], s.live)
    ensures s.mem.Some? ==> NothingLost(cfg, s.source, s.accepted[sink], s.mem.value)
    ensures s.disk.Some? ==> NothingLost(cfg, s.source, s.accepted[sink], s.disk.value)
  {
    ReachableInv(cfg, s);
    SoundLosesNothing(cfg, s, s.live, sink);
    if s.mem.Some? { SoundLosesNothing(cfg, s, s.mem.value, sink); }
    if s.disk.Some? { SoundLosesNothing(cfg, s, s.disk.value, sink); }
  }

  /** Even a stepped timestamp loses nothing unless it holds more than a page. */
  lemma ThinTimestampLosesNothing(cfg: Config, source: multiset<Line>, accepted: multiset<Line>, pos: Position, l: Line)
    requires AccountedFor(cfg, source, accepted, pos, l) && cfg.scope(l.hash)
    requires !Crowded(source, l.ts) && !InGap(pos.ledger, l.ts) && !InCut(pos.ledger, l.ts)
    ensures source[l] <= accepted[l]
  {
    if source[l] > accepted[l] {
      var page: multiset<Line> :| page <= source && |page| >= PAGE_SIZE && AllAt(page, l.ts)
                                  && forall k: Line | cfg.scope(k.hash) :: page[k] <= accepted[k];
      PageIsAll(source, page, l);
    }
  }

  // ----- replies cut short

  /** The page stands for the whole reply, as far as being short is concerned. */
  predicate Whole(page: seq<Line>, raw: nat) {
    raw < PAGE_SIZE || |page| >= PAGE_SIZE
  }

  ghost predicate NeverCut(pos: Position) {
    forall i | 0 <= i < |pos.ledger| :: !pos.ledger[i].Cut?
  }

  ghost predicate UncutSoFar(s: State) {
    && NeverCut(s.live) && (s.mem.Some? ==> NeverCut(s.mem.value)) && (s.disk.Some? ==> NeverCut(s.disk.value))
    && (s.phase.InFlight? ==> Whole(s.phase.flight.page, s.phase.flight.raw))
  }

  /** If dropping unparsable lines never makes a short page out of a full reply,
      as when every line has a timestamp that parses, no window is cut. */
  lemma {:induction false} WholeRepliesCutNothing(cfg: Config, run: seq<State>, events: seq<Event>, n: nat)
    requires IsRun(cfg, run, events) && n < |run|
    requires forall i | 0 <= i < |events| && events[i].Fetch? :: Whole(events[i].page, events[i].raw)
    ensures UncutSoFar(run[n])
  {
    if n > 0 {
      WholeRepliesCutNothing(cfg, run, events, n - 1);
      WholeStep(cfg, run[n - 1], events[n - 1], run[n]);
    }
  }

  lemma WholeStep(cfg: Config, s: State, e: Event, s': State)
    requires UncutSoFar(s) && Next(cfg, s, e, s') && (e.Fetch? ==> Whole(e.page, e.raw))
    ensures UncutSoFar(s')
  {
    hide Scanned;
    hide Drifts;
    hide AnchorContract;
    hide Acknowledged;
  }

  /** A reply cut short can lose a line for good without a trace: nothing in this
      reply parses, so the empty page ends the round, and the cursor moves to the
      horizon past a line that no sink was ever given. */
  lemma CutReplyLosesALine() returns (cfg: Config, s: State, l: Line)
    ensures Reachable(cfg, s) && cfg.scope(l.hash) && l in s.source && s.live.start <= l.ts < s.live.cur.ts
    ensures s.accepted == [multiset{}] && s.live.credit == multiset{}
    ensures !InGap(s.live.ledger, l.ts) && !AtStep(s.live.ledger, l.ts)
    ensures RawContract(s.source, s.live.start, Unparsable(PAGE_SIZE))
  {
    hide Reachable;
    hide Unparsable;
    hide Scanned;
    cfg, l := Config(0, 1000, false, h => true, 0), Line(5, 0);
    var paging := PagingAtZero(cfg, multiset{l});
    var reply := Unparsable(PAGE_SIZE);
    var f := Flight(Parsed(reply), |reply|, paging.source, paging.accepted);
    var flying := paging.(phase := InFlight(paging.phase.round, f));
    StepReachable(cfg, paging, Fetch(Parsed(reply), |reply|), flying);
    var sc := Scan(multiset{}, flying.live.cur, false);
    s := flying.(live := Position(0, Cursor(50, multiset{}), multiset{}, [Cut(0, 50)]), phase := Idle);
    EmptyPageLands(flying.live, f, sc);
    StepReachable(cfg, flying, Accept(sc), s);
  }

  lemma EmptyPageLands(pos: Position, f: Flight, sc: Scan)
    requires pos == Fresh(0) && f.page == [] && f.raw == PAGE_SIZE && sc == Scan(multiset{}, pos.cur, false)
    ensures Accepted(pos, 50, f, sc) == Position(0, Cursor(50, multiset{}), multiset{}, [Cut(0, 50)])
    ensures Final(f.page, sc) && Scanned(pos.cur, 50, multiset(f.page), sc)
  {
  }

  /** A round from 0 to 50 is under way. */
  lemma PagingAtZero(cfg: Config, source: multiset<Line>) returns (s: State)
    requires cfg.settle == 0 && !cfg.gated
    ensures s == State(100, source, [multiset{}], Deploy(0, false, 0), Fresh(0), Paging(Round(50, None, None)),
                       None, None)
    ensures Reachable(cfg, s)
  {
    hide Reachable;
    var s0 := State(100, source, [multiset{}], Deploy(0, false, 0), Fresh(0), Idle, None, None);
    InitialReachable(cfg, s0);
    var s1 := s0.(phase := Ready(None));
    StepReachable(cfg, s0, Floor, s1);
    s := s1.(phase := Paging(Round(50, None, None)));
    StepReachable(cfg, s1, Begin(50), s);
  }

  // ----- between two pages

  /** A page of n copies of one line. */
  ghost predicate AllCopies(page: seq<Line>, l: Line, n: nat) {
    |page| == n && multiset(page) == multiset{}[l := n] && forall k | k in page :: k == l
  }

  lemma {:induction false} Copies(l: Line, n: nat) returns (page: seq<Line>)
    ensures AllCopies(page, l, n)
  {
    page := [];
    if n > 0 {
      page := Copies(l, n - 1);
      page := page + [l];
    }
  }

  /** Between two pages not every line at the cursor's timestamp has been written:
      after a first page of a thousand lines at 1 the cursor is at 1, while a
      further line at 1 is neither counted in seen nor known to any sink. */
  lemma CursorTimestampIsOpen() returns (cfg: Config, s: State, l: Line)
    ensures Reachable(cfg, s) && s.phase.Paging? && cfg.scope(l.hash) && l in s.source && l.ts == s.live.cur.ts
    ensures s.live.cur.seen[l.hash] == 0 && |s.accepted| == 1 && l !in s.accepted[0]
  {
    hide Reachable;
    hide Scanned;
    hide AnchorContract;
    hide AllCopies;
    cfg, l := Config(0, 1000, false, h => true, 0), Line(1, 1);
    var page := Copies(Line(1, 0), PAGE_SIZE);
    FullPageOf(page, l);
    var paging := PagingAtZero(cfg, multiset(page) + multiset{l});
    var f := Flight(page, PAGE_SIZE, paging.source, paging.accepted);
    var flying := paging.(phase := InFlight(paging.phase.round, f));
    StepReachable(cfg, paging, Fetch(page, PAGE_SIZE), flying);
    var written := flying.(accepted := [multiset(page)]);
    StepReachable(cfg, flying, Drift, written);
    var sc := Scan(multiset(page), Cursor(1, multiset{}[0 := PAGE_SIZE]), false);
    FullPageLands(written.live, f, sc);
    s := written.(live := Accepted(written.live, 50, f, sc), phase := paging.phase);
    StepReachable(cfg, written, Accept(sc), s);
  }

  lemma FullPageOf(page: seq<Line>, l: Line)
    requires AllCopies(page, Line(1, 0), PAGE_SIZE) && l == Line(1, 1)
    ensures AnchorContract(multiset(page) + multiset{l}, 0, page, PAGE_SIZE) && l !in multiset(page)
  {
    assert From(page, 0) == page;
    hide From;
  }

  lemma FullPageLands(pos: Position, f: Flight, sc: Scan)
    requires pos == Fresh(0) && AllCopies(f.page, Line(1, 0), PAGE_SIZE)
    requires sc == Scan(multiset(f.page), Cursor(1, multiset{}[0 := PAGE_SIZE]), false)
    ensures Scanned(pos.cur, 50, multiset(f.page), sc) && !Final(f.page, sc)
    ensures Accepted(pos, 50, f, sc).cur == sc.next
  {
    assert f.page[0] in f.page;
  }

  // ----- what turns up late

  /** The line stays covered: once a cursor is past it, a line that turns up
      later can only be one in a gap, at a skip or passed on a reply cut short. */
  lemma LateLineIsExcused(cfg: Config, s: State, s': State, l: Line)
    requires Reachable(cfg, s) && Next(cfg, s, Drift, s')
    requires s'.source[l] > s.source[l] && s.live.start <= l.ts < s.live.cur.ts
    ensures InGap(s.live.ledger, l.ts) || AtStep(s.live.ledger, l.ts) || InCut(s.live.ledger, l.ts)
  {
    ReachableInv(cfg, s);
    var i := WindowAt(s.live.ledger, s.live.start, s.live.cur.ts, l.ts);
    assert Settled(cfg, s.clock, s.source, s.live, s.live.ledger[i]);
  }

  // ----- the cursor

  /** Along every step but a restart the position never moves back and its
      history is only extended. */
  lemma CursorNeverMovesBack(cfg: Config, s: State, e: Event, s': State)
    requires Next(cfg, s, e, s') && !e.Start?
    ensures s.live.cur.ts <= s'.live.cur.ts && s.live.start == s'.live.start
    ensures s.live.ledger <= s'.live.ledger
  {
  }

  function Larger(a: nat, b: nat): nat {
    if a >= b then a else b
  }

  /** How Seen changes over one page. At an unchanged timestamp it becomes the
      pointwise maximum of itself and the page's counts there; at a later
      timestamp it is exactly the page's counts there. */
  lemma SeenAfterPage(cur: Cursor, horizon: Time, page: multiset<Line>, sc: Scan)
    requires Scanned(cur, horizon, page, sc)
    ensures sc.next.ts == cur.ts <= horizon ==>
              forall h :: sc.next.seen[h] == Larger(cur.seen[h], page[Line(cur.ts, h)])
    ensures sc.next.ts > cur.ts ==> forall h :: sc.next.seen[h] == page[Line(sc.next.ts, h)]
  {
  }

  /** A page determines its scan: there is one way to walk it. */
  lemma ScanIsUnique(cur: Cursor, horizon: Time, page: multiset<Line>, a: Scan, b: Scan)
    requires Scanned(cur, horizon, page, a) && Scanned(cur, horizon, page, b)
    ensures a == b
  {
  }

  // ----- what a position accounts for

  /** The live position accounts for no line more often than the source holds it,
      and for each line of a delivered window just as often. */
  lemma LiveCreditIsSource(cfg: Config, s: State, l: Line)
    requires Reachable(cfg, s)
    ensures s.live.credit[l] <= s.source[l]
    ensures InDelivered(s.live.ledger, l.ts) ==> s.live.credit[l] == s.source[l] && l.ts < s.live.cur.ts
  {
    ReachableInv(cfg, s);
    if InDelivered(s.live.ledger, l.ts) {
      var i :| 0 <= i < |s.live.ledger| && s.live.ledger[i].Delivered?
               && s.live.ledger[i].lo <= l.ts < s.live.ledger[i].hi;
      WindowsEndByCursor(s.live.ledger, s.live.start, s.live.cur.ts, i);
      assert Settled(cfg, s.clock, s.source, s.live, s.live.ledger[i]);
    }
  }

  // ----- exact rounds

  function AlreadySeen(cur: Cursor, l: Line): nat {
    if l.ts == cur.ts then cur.seen[l.hash] else 0
  }

  /** Between two positions of one lineage without a gap in between, the lines
      handed out are, copy by copy, the source lines from the earlier cursor on,
      minus those it had already seen; save where a reply was cut short, and at
      stepped timestamps that hold more than a page. */
  lemma ExactBetween(cfg: Config, s: State, from: Position, sent: multiset<Line>, l: Line)
    requires SoundIn(cfg, s, s.live) && from.start == s.live.start
    requires from.ledger <= s.live.ledger && s.live.credit == from.credit + sent
    requires Tiles(from.ledger, from.start, from.cur.ts)
    requires from.credit[l] == AlreadySeen(from.cur, l)
    requires forall i | |from.ledger| <= i < |s.live.ledger| :: !Gap(s.live.ledger[i])
    requires from.cur.ts <= l.ts < s.live.cur.ts
    requires !InCut(s.live.ledger[|from.ledger|..], l.ts)
    requires AtStep(s.live.ledger[|from.ledger|..], l.ts) ==> !Crowded(s.source, l.ts)
    ensures sent[l] + AlreadySeen(from.cur, l) == s.source[l]
  {
    var i := NewWindowAt(s.live, from, l.ts);
    var w := s.live.ledger[i];
    assert Settled(cfg, s.clock, s.source, s.live, w);
    if w.Stepped? {
      SteppedCreditIsAll(s.source, s.live.credit, l);
    }
  }

  /** The window that holds t is one added since from. */
  lemma NewWindowAt(pos: Position, from: Position, t: Time) returns (i: nat)
    requires Tiles(pos.ledger, pos.start, pos.cur.ts) && Tiles(from.ledger, from.start, from.cur.ts)
    requires from.start == pos.start && from.ledger <= pos.ledger && from.cur.ts <= t < pos.cur.ts
    ensures |from.ledger| <= i < |pos.ledger| && pos.ledger[i].lo <= t < pos.ledger[i].hi
    ensures pos.ledger[i].Stepped? ==> AtStep(pos.ledger[|from.ledger|..], t)
    ensures pos.ledger[i].Cut? ==> InCut(pos.ledger[|from.ledger|..], t)
  {
    TilesSpan(from.ledger, from.start, from.cur.ts);
    i := WindowAt(pos.ledger, pos.start, pos.cur.ts, t);
    if i < |from.ledger| {
      assert from.ledger[i] == pos.ledger[i];
      WindowsEndByCursor(from.ledger, from.start, from.cur.ts, i);
    }
    assert pos.ledger[|from.ledger|..][i - |from.ledger|] == pos.ledger[i];
  }

  lemma SteppedCreditIsAll(source: multiset<Line>, credit: multiset<Line>, l: Line)
    requires Overfull(credit, l.ts) && Covers(source, credit) && !Crowded(source, l.ts)
    ensures credit[l] == source[l]
  {
    var crowd :| crowd <= credit && |crowd| >= PAGE_SIZE && AllAt(crowd, l.ts);
    forall k: Line
      ensures crowd[k] <= source[k]
    {
      assert crowd[k] <= credit[k];
    }
    assert crowd <= source;
    PageIsAll(source, crowd, l);
  }

  /** The last page of a round accounts for everything up to and including the
      horizon that the source held when the page was fetched, unless the reply
      was cut short. */
  lemma FinalPageIsExact(cfg: Config, s: State, sc: Scan, s': State, l: Line)
    requires Reachable(cfg, s) && Next(cfg, s, Accept(sc), s') && Final(s.phase.flight.page, sc)
    requires !CutShort(s.phase.flight.page, s.phase.flight.raw, sc)
    requires s.live.cur.ts <= l.ts <= s.phase.round.horizon
    ensures s'.live.credit[l] == s.phase.flight.fetched[l]
  {
    ReachableInv(cfg, s);
    AcceptCredits(cfg, s, sc, l);
  }

  /** What a timestamp skip costs: of each line at that instant the source's
      copies beyond the larger of those already seen and those on the page. */
  lemma StepLosesOnlyBeyondThePage(cfg: Config, s: State, sc: Scan, h: Hash)
    requires Reachable(cfg, s) && s.phase.InFlight?
    requires Scanned(s.live.cur, s.phase.round.horizon, multiset(s.phase.flight.page), sc)
    requires !Final(s.phase.flight.page, sc) && sc.next.ts <= s.live.cur.ts
    ensures var pos := Accepted(s.live, s.phase.round.horizon, s.phase.flight, sc);
            var l := Line(s.live.cur.ts, h);
            && pos.credit[l] == Larger(s.live.cur.seen[h], multiset(s.phase.flight.page)[l])
            && pos.ledger == s.live.ledger + [Stepped(s.live.cur.ts, s.live.cur.ts + 1)]
            && pos.cur == Cursor(s.live.cur.ts + 1, multiset{})
  {
    StuckWithinHorizon(cfg, s, sc, h);
    hide Reachable;
    SeenTakesMaximum(s.live.cur, s.phase.round.horizon, multiset(s.phase.flight.page), sc, h);
    assert s.live.cur.ts <= sc.next.ts;
    hide Scanned;
  }

  lemma StuckWithinHorizon(cfg: Config, s: State, sc: Scan, h: Hash)
    requires Reachable(cfg, s) && s.phase.InFlight?
    requires Scanned(s.live.cur, s.phase.round.horizon, multiset(s.phase.flight.page), sc)
    requires !Final(s.phase.flight.page, sc) && sc.next.ts <= s.live.cur.ts
    ensures s.live.cur.ts <= s.phase.round.horizon
    ensures s.live.credit[Line(s.live.cur.ts, h)] == s.live.cur.seen[h]
  {
    ReachableInv(cfg, s);
    var cur, f := s.live.cur, s.phase.flight;
    FullPageReachesAnchor(f.fetched, cur.ts, f.page, f.raw);
    var p :| p in multiset(f.page) && p.ts >= cur.ts;
    StuckPage(cfg, s, sc, p);
  }

  lemma SeenTakesMaximum(cur: Cursor, horizon: Time, page: multiset<Line>, sc: Scan, h: Hash)
    requires Scanned(cur, horizon, page, sc) && cur.ts <= horizon
    ensures cur.seen[h] + sc.sent[Line(cur.ts, h)] == Larger(cur.seen[h], page[Line(cur.ts, h)])
  {
  }

  // ----- gap accounting

  function GapTime(ledger: seq<Window>): Time {
    if ledger == [] then 0
    else GapTime(ledger[..|ledger| - 1]) + var w := ledger[|ledger| - 1]; if Gap(w) then w.hi - w.lo else 0
  }

  function DeliveredTime(ledger: seq<Window>): Time {
    if ledger == [] then 0
    else DeliveredTime(ledger[..|ledger| - 1]) + var w := ledger[|ledger| - 1]; if w.Delivered? then w.hi - w.lo else 0
  }

  function CutTime(ledger: seq<Window>): Time {
    if ledger == [] then 0
    else CutTime(ledger[..|ledger| - 1]) + var w := ledger[|ledger| - 1]; if w.Cut? then w.hi - w.lo else 0
  }

  function StepCount(ledger: seq<Window>): nat {
    if ledger == [] then 0
    else StepCount(ledger[..|ledger| - 1]) + if ledger[|ledger| - 1].Stepped? then 1 else 0
  }

  lemma {:induction false} TilesAddUp(ledger: seq<Window>, start: Time, end: Time)
    requires Tiles(ledger, start, end)
    requires forall i | 0 <= i < |ledger| :: ledger[i].Stepped? ==> ledger[i].hi == ledger[i].lo + 1
    ensures GapTime(ledger) + DeliveredTime(ledger) + CutTime(ledger) + StepCount(ledger) == end - start
    decreases |ledger|
  {
    if ledger != [] {
      var last := |ledger| - 1;
      TilesPrefix(ledger, start, end, last);
      TilesAddUp(ledger[..last], start, ledger[last].lo);
    }
  }

  /** Windows do not overlap, and gaps, delivered windows, what was passed on
      replies cut short and one nanosecond per timestamp skip add up to the
      distance covered. */
  lemma GapAccounting(cfg: Config, s: State)
    requires Reachable(cfg, s)
    ensures GapTime(s.live.ledger) + DeliveredTime(s.live.ledger) + CutTime(s.live.ledger) + StepCount(s.live.ledger)
            == s.live.cur.ts - s.live.start
    ensures forall i, j | 0 <= i < j < |s.live.ledger| :: s.live.ledger[i].hi <= s.live.ledger[j].lo
  {
    ReachableInv(cfg, s);
    var ledger := s.live.ledger;
    forall i | 0 <= i < |ledger|
      ensures ledger[i].Stepped? ==> ledger[i].hi == ledger[i].lo + 1
    {
      assert Settled(cfg, s.clock, s.source, s.live, ledger[i]);
    }
    TilesAddUp(ledger, s.live.start, s.live.cur.ts);
    forall i, j | 0 <= i < j < |ledger|
      ensures ledger[i].hi <= ledger[j].lo
    {
      WindowsInOrder(ledger, s.live.start, s.live.cur.ts, i, j);
    }
  }

  // ----- deploy and HTTP logs stay close

  /** Every line an HTTP poller hands out is no older than the lag limit behind
      the deploy position its floor was read from, and, while the deploy poller
      that capped its horizon is still the registered one, no newer than the
      skew limit ahead of the deploy position at that very moment. */
  lemma KindSkew(cfg: Config, s: State, l: Line)
    requires Reachable(cfg, s) && s.phase.InFlight?
    requires Owed(s.live.cur, s.phase.round.horizon, multiset(s.phase.flight.page), l) > 0
    ensures s.phase.round.floor.Some? ==> s.phase.round.floor.value - MAX_KIND_LAG <= l.ts
    ensures s.phase.round.gate == Some(s.deploy.gen) && s.deploy.registered ==> l.ts <= s.deploy.pos + MAX_KIND_SKEW
  {
    ReachableInv(cfg, s);
  }
}
