/** What a polling round has achieved so far, carried from page to page. */
module RoundProofs {
  import opened LogLines
  import opened PollSystem
  import opened PollSafety
  import opened PollTheorems

  /** What one round did: the cursor it paged from, its horizon, every line it
      handed to the sinks, the source at its last query, the windows it passed,
      how many lines the last reply and the page made of it had, and from where on
      that reply may have left lines out (past the horizon if nowhere). */
  datatype Report = Report(from: Cursor, horizon: Time, sent: multiset<Line>, fetched: multiset<Line>,
                           windows: seq<Window>, parsed: nat, raw: nat, cut: Time)

  /** Copy by copy, what was handed out is what the source held in [from, horizon]
      minus what the cursor had already seen, and nothing else; short of it only
      where the last reply was cut short, and at stepped timestamps that hold more
      than a page. */
  ghost predicate Accounted(r: Report) {
    && r.from.ts <= r.cut <= r.horizon + 1 && (r.cut <= r.horizon ==> r.parsed < PAGE_SIZE <= r.raw)
    && (forall l: Line | !(r.from.ts <= l.ts <= r.horizon) :: r.sent[l] == 0)
    && (forall l: Line | r.from.ts <= l.ts <= r.horizon :: r.sent[l] + AlreadySeen(r.from, l) <= r.fetched[l])
    && (forall l: Line | r.from.ts <= l.ts < r.cut && (AtStep(r.windows, l.ts) ==> !Crowded(r.fetched, l.ts)) ::
          r.sent[l] + AlreadySeen(r.from, l) == r.fetched[l])
  }

  /** And nothing before the horizon has appeared since. */
  ghost predicate Exact(r: Report, source: multiset<Line>) {
    && Accounted(r)
    && (forall l: Line | r.from.ts <= l.ts < r.horizon && l.ts < r.cut
                         && (AtStep(r.windows, l.ts) ==> !Crowded(source, l.ts)) ::
          r.sent[l] + AlreadySeen(r.from, l) == source[l])
  }

  /** The credit of a sound position at and past its cursor is what it has seen. */
  ghost predicate Clean(begin: Position) {
    && Tiles(begin.ledger, begin.start, begin.cur.ts)
    && forall l: Line | l.ts >= begin.cur.ts :: begin.credit[l] == AlreadySeen(begin.cur, l)
  }

  /** The windows passed since begin. */
  function Since(begin: Position, pos: Position): seq<Window>
    requires begin.ledger <= pos.ledger
  {
    pos.ledger[|begin.ledger|..]
  }

  /** No gap among them, and no reply cut short before cut. */
  ghost predicate OnlyPaged(windows: seq<Window>, cut: Time) {
    forall w | w in windows :: !Gap(w) && (w.Cut? ==> cut <= w.lo)
  }

  /** Where a round that began at begin stands after accepting the lines sent. */
  ghost predicate Progress(begin: Position, pos: Position, sent: multiset<Line>, horizon: Time, cut: Time) {
    && Clean(begin)
    && pos.start == begin.start && begin.ledger <= pos.ledger && begin.cur.ts <= pos.cur.ts <= horizon + 1
    && begin.cur.ts <= cut <= horizon + 1
    && (forall l :: pos.credit[l] == begin.credit[l] + sent[l])
    && (forall l :: sent[l] > 0 ==> begin.cur.ts <= l.ts <= horizon)
    && GapTime(pos.ledger) == GapTime(begin.ledger)
    && OnlyPaged(Since(begin, pos), cut)
  }

  lemma WindowAppended(ledger: seq<Window>, w: Window)
    ensures GapTime(ledger + [w]) == GapTime(ledger) + (if Gap(w) then w.hi - w.lo else 0)
    ensures StepCount(ledger + [w]) == StepCount(ledger) + (if w.Stepped? then 1 else 0)
  {
  }

  lemma RoundBegins(cfg: Config, s: State, horizon: Time)
    requires Reachable(cfg, s) && s.live.cur.ts <= horizon
    ensures Progress(s.live, s.live, multiset{}, horizon, horizon + 1)
  {
    ReachableInv(cfg, s);
    forall l: Line | l.ts >= s.live.cur.ts
      ensures s.live.credit[l] == AlreadySeen(s.live.cur, l)
    {
      assert l == Line(l.ts, l.hash);
    }
  }

  /** Where the reply of the last page of a round may have left lines out. */
  function CutPoint(horizon: Time, f: Flight, sc: Scan): Time {
    if Final(f.page, sc) && CutShort(f.page, f.raw, sc) && sc.next.ts <= horizon then sc.next.ts else horizon + 1
  }

  /** A full page that does not move the cursor. */
  predicate Stuck(cur: Cursor, page: seq<Line>, sc: Scan) {
    !Final(page, sc) && sc.next.ts <= cur.ts
  }

  lemma RoundAdvances(cfg: Config, s: State, sc: Scan, begin: Position, sent: multiset<Line>)
    requires Reachable(cfg, s) && s.phase.InFlight?
    requires Scanned(s.live.cur, s.phase.round.horizon, multiset(s.phase.flight.page), sc)
    requires Progress(begin, s.live, sent, s.phase.round.horizon, s.phase.round.horizon + 1)
    ensures PageDone(begin, s.live, sent, s.phase.round.horizon, s.phase.flight, sc)
  {
    hide *;
    PageFacts(cfg, s, sc);
    PageAdvances(begin, s.live, sent, s.phase.round.horizon, s.phase.flight, sc);
  }

  lemma PageFacts(cfg: Config, s: State, sc: Scan)
    requires Reachable(cfg, s) && s.phase.InFlight?
    requires Scanned(s.live.cur, s.phase.round.horizon, multiset(s.phase.flight.page), sc)
    ensures var horizon := s.phase.round.horizon;
            var to := Landing(s.live.cur, horizon, s.phase.flight.page, sc);
            && s.live.cur.ts <= sc.next.ts && (s.live.cur.ts <= horizon ==> sc.next.ts <= horizon)
            && s.live.cur.ts <= to.ts <= horizon + 1
            && (!Final(s.phase.flight.page, sc) ==> s.live.cur.ts < to.ts)
            && forall l: Line :: sc.sent[l] > 0 ==> s.live.cur.ts <= l.ts <= horizon
  {
    ReachableInv(cfg, s);
    FullPageMoves(cfg, s, sc);
    NextWithinHorizon(s.live.cur, s.phase.round.horizon, multiset(s.phase.flight.page), sc);
    SentInRange(s.live.cur, s.phase.round.horizon, multiset(s.phase.flight.page), sc);
  }

  /** A page is no gap, and counts as a skip exactly if it is stuck. */
  lemma PageCounts(cfg: Config, s: State, sc: Scan)
    requires Reachable(cfg, s) && s.phase.InFlight?
    requires Scanned(s.live.cur, s.phase.round.horizon, multiset(s.phase.flight.page), sc)
    ensures var pos' := Accepted(s.live, s.phase.round.horizon, s.phase.flight, sc);
            && GapTime(pos'.ledger) == GapTime(s.live.ledger)
            && StepCount(pos'.ledger)
               == StepCount(s.live.ledger) + if Stuck(s.live.cur, s.phase.flight.page, sc) then 1 else 0
  {
    hide *;
    PageFacts(cfg, s, sc);
    PassedCounts(s.live, s.phase.round.horizon, s.phase.flight, sc);
    PassedIsPaged(s.live, s.phase.round.horizon, s.phase.flight, sc);
    AcceptedLedger(s.live, s.phase.round.horizon, s.phase.flight, sc);
  }

  lemma AcceptedLedger(pos: Position, horizon: Time, f: Flight, sc: Scan)
    ensures Accepted(pos, horizon, f, sc).ledger == pos.ledger + Passed(pos.cur, horizon, f, sc)
  {
  }

  /** Accepting the page keeps the round's progress, counts a timestamp skip if
      the page was stuck, and moves the cursor. */
  ghost predicate PageDone(begin: Position, pos: Position, sent: multiset<Line>, horizon: Time,
                           f: Flight, sc: Scan) {
    var pos' := Accepted(pos, horizon, f, sc);
    && Progress(begin, pos', sent + sc.sent, horizon, CutPoint(horizon, f, sc))
    && GapTime(pos'.ledger) == GapTime(pos.ledger)
    && StepCount(pos'.ledger) == StepCount(pos.ledger) + (if Stuck(pos.cur, f.page, sc) then 1 else 0)
    && (Final(f.page, sc) ==> pos'.cur.ts >= horizon)
    && (!Final(f.page, sc) ==> pos.cur.ts < pos'.cur.ts)
  }

  lemma PageAdvances(begin: Position, pos: Position, sent: multiset<Line>, horizon: Time, f: Flight, sc: Scan)
    requires Progress(begin, pos, sent, horizon, horizon + 1)
    requires pos.cur.ts <= sc.next.ts && (pos.cur.ts <= horizon ==> sc.next.ts <= horizon)
    requires forall l: Line :: sc.sent[l] > 0 ==> pos.cur.ts <= l.ts <= horizon
    requires pos.cur.ts <= Landing(pos.cur, horizon, f.page, sc).ts <= horizon + 1
    requires !Final(f.page, sc) ==> pos.cur.ts < Landing(pos.cur, horizon, f.page, sc).ts
    ensures PageDone(begin, pos, sent, horizon, f, sc)
  {
    hide GapTime;
    hide StepCount;
    hide Passed;
    hide Clean;
    hide Stuck;
    var passed, pos' := Passed(pos.cur, horizon, f, sc), Accepted(pos, horizon, f, sc);
    assert Since(begin, pos') == Since(begin, pos) + passed;
    PassedCounts(pos, horizon, f, sc);
    PassedIsPaged(pos, horizon, f, sc);
  }

  lemma PassedCounts(pos: Position, horizon: Time, f: Flight, sc: Scan)
    ensures var passed := Passed(pos.cur, horizon, f, sc);
            var skips := if passed != [] && passed[0].Stepped? then 1 else 0;
            && GapTime(pos.ledger + passed) == GapTime(pos.ledger)
            && StepCount(pos.ledger + passed) == StepCount(pos.ledger) + skips
  {
    var passed := Passed(pos.cur, horizon, f, sc);
    if passed == [] {
      assert pos.ledger + passed == pos.ledger;
    } else {
      WindowAppended(pos.ledger, passed[0]);
      if |passed| == 2 {
        WindowAppended(pos.ledger + [passed[0]], passed[1]);
        assert pos.ledger + passed == (pos.ledger + [passed[0]]) + [passed[1]];
      } else {
        assert passed == [passed[0]];
      }
    }
  }

  lemma PassedIsPaged(pos: Position, horizon: Time, f: Flight, sc: Scan)
    requires pos.cur.ts <= sc.next.ts && (!Final(f.page, sc) ==> pos.cur.ts < Landing(pos.cur, horizon, f.page, sc).ts)
    ensures var passed := Passed(pos.cur, horizon, f, sc);
            && OnlyPaged(passed, CutPoint(horizon, f, sc))
            && ((passed != [] && passed[0].Stepped?) <==> Stuck(pos.cur, f.page, sc))
  {
  }

  lemma NextWithinHorizon(cur: Cursor, horizon: Time, page: multiset<Line>, sc: Scan)
    requires Scanned(cur, horizon, page, sc)
    ensures cur.ts <= sc.next.ts && (cur.ts <= horizon ==> sc.next.ts <= horizon)
  {
  }

  lemma SentInRange(cur: Cursor, horizon: Time, page: multiset<Line>, sc: Scan)
    requires Scanned(cur, horizon, page, sc)
    ensures forall l :: sc.sent[l] > 0 ==> cur.ts <= l.ts <= horizon
  {
  }

  /** The report of a round that ends with the page in flight. */
  function Closing(begin: Position, s: State, sc: Scan, sent: multiset<Line>): Report
    requires s.phase.InFlight?
    requires begin.ledger <= Accepted(s.live, s.phase.round.horizon, s.phase.flight, sc).ledger
  {
    var h, f := s.phase.round.horizon, s.phase.flight;
    Report(begin.cur, h, sent + sc.sent, f.fetched, Since(begin, Accepted(s.live, h, f, sc)),
           |f.page|, f.raw, CutPoint(h, f, sc))
  }

  /** The last page of a round leaves every line from where the round began up to
      the horizon accounted for. */
  lemma RoundCloses(cfg: Config, s: State, sc: Scan, begin: Position, sent: multiset<Line>)
    requires Reachable(cfg, s) && s.phase.InFlight? && Final(s.phase.flight.page, sc)
    requires Scanned(s.live.cur, s.phase.round.horizon, multiset(s.phase.flight.page), sc)
    requires Progress(begin, s.live, sent, s.phase.round.horizon, s.phase.round.horizon + 1)
    ensures begin.ledger <= Accepted(s.live, s.phase.round.horizon, s.phase.flight, sc).ledger
    ensures Accounted(Closing(begin, s, sc, sent))
  {
    hide Reachable;
    hide Scanned;
    hide Inv;
    hide Crowded;
    hide AtStep;
    hide Landing;
    hide Passed;
    hide GapTime;
    hide StepCount;
    hide AlreadySeen;
    hide OnlyPaged;
    hide Clean;
    ReachableInv(cfg, s);
    RoundAdvances(cfg, s, sc, begin, sent);
    var r := Closing(begin, s, sc, sent);
    CutPointInRound(s.live, s.phase.round.horizon, s.phase.flight, sc);
    forall l: Line | r.from.ts <= l.ts <= r.horizon
      ensures r.sent[l] + AlreadySeen(r.from, l) <= r.fetched[l]
      ensures l.ts < r.cut && (AtStep(r.windows, l.ts) ==> !Crowded(r.fetched, l.ts)) ==>
                r.sent[l] + AlreadySeen(r.from, l) == r.fetched[l]
    {
      CreditAtClose(cfg, s, sc, l);
      CreditOfRound(begin, s.live, sent, r.horizon, r.horizon + 1, l);
      if l.ts < r.cut && (AtStep(r.windows, l.ts) ==> !Crowded(r.fetched, l.ts)) {
        if l.ts >= s.live.cur.ts {
          AcceptCredits(cfg, s, sc, l);
        } else {
          StepStays(Since(begin, s.live), r.windows, l.ts);
          PagedIsAccounted(cfg, s, sc, begin, sent, l);
        }
      }
    }
  }

  /** The round that began at begin has ended with this report. */
  ghost predicate Ended(begin: Position, pos: Position, r: Report) {
    && begin.ledger <= pos.ledger && r.from == begin.cur && r.windows == Since(begin, pos)
    && Progress(begin, pos, r.sent, r.horizon, r.cut) && Accounted(r)
  }

  lemma PageEnds(cfg: Config, s: State, sc: Scan, begin: Position, sent: multiset<Line>)
    requires Reachable(cfg, s) && s.phase.InFlight? && Final(s.phase.flight.page, sc)
    requires Scanned(s.live.cur, s.phase.round.horizon, multiset(s.phase.flight.page), sc)
    requires Progress(begin, s.live, sent, s.phase.round.horizon, s.phase.round.horizon + 1)
    ensures begin.ledger <= Accepted(s.live, s.phase.round.horizon, s.phase.flight, sc).ledger
    ensures Ended(begin, Accepted(s.live, s.phase.round.horizon, s.phase.flight, sc), Closing(begin, s, sc, sent))
  {
    hide Reachable;
    hide Scanned;
    hide Progress;
    hide Accounted;
    hide GapTime;
    hide StepCount;
    hide Passed;
    hide Landing;
    RoundAdvances(cfg, s, sc, begin, sent);
    RoundCloses(cfg, s, sc, begin, sent);
  }

  lemma CutPointInRound(pos: Position, horizon: Time, f: Flight, sc: Scan)
    ensures CutPoint(horizon, f, sc) <= horizon ==> |f.page| < PAGE_SIZE <= f.raw
  {
  }

  lemma CreditOfRound(begin: Position, pos: Position, sent: multiset<Line>, horizon: Time, cut: Time, l: Line)
    requires Progress(begin, pos, sent, horizon, cut) && l.ts >= begin.cur.ts
    ensures pos.credit[l] == AlreadySeen(begin.cur, l) + sent[l]
  {
  }

  lemma StepStays(windows: seq<Window>, longer: seq<Window>, t: Time)
    requires windows <= longer
    ensures AtStep(windows, t) ==> AtStep(longer, t)
  {
  }

  lemma CreditAtClose(cfg: Config, s: State, sc: Scan, l: Line)
    requires Inv(cfg, s) && s.phase.InFlight?
    requires Scanned(s.live.cur, s.phase.round.horizon, multiset(s.phase.flight.page), sc)
    ensures s.live.credit[l] + sc.sent[l] <= s.phase.flight.fetched[l]
  {
    hide *;
    AcceptWithinSource(cfg, s, sc);
    CoversAt(s.phase.flight.fetched, s.live.credit + sc.sent, l);
  }

  lemma CoversAt(after: multiset<Line>, before: multiset<Line>, l: Line)
    requires Covers(after, before)
    ensures before[l] <= after[l]
  {
  }

  /** The window of the round that passed a line before the cursor. */
  lemma WindowOfRound(cfg: Config, s: State, begin: Position, sent: multiset<Line>, horizon: Time, l: Line)
    returns (w: Window)
    requires SoundIn(cfg, s, s.live) && Progress(begin, s.live, sent, horizon, horizon + 1)
    requires begin.cur.ts <= l.ts < s.live.cur.ts && l.ts <= horizon
    ensures Settled(cfg, s.clock, s.source, s.live, w) && (w.Delivered? || w.Stepped?) && w.lo <= l.ts < w.hi
    ensures w.Stepped? ==> w.hi == w.lo + 1 && AtStep(Since(begin, s.live), l.ts)
  {
    hide AtStep;
    hide Overfull;
    hide GapTime;
    hide StepCount;
    hide Backed;
    var i := NewWindowAt(s.live, begin, l.ts);
    w := s.live.ledger[i];
    assert w in Since(begin, s.live) by { assert Since(begin, s.live)[i - |begin.ledger|] == w; }
    assert Settled(cfg, s.clock, s.source, s.live, w);
  }

  lemma NoneOwedBefore(cur: Cursor, horizon: Time, page: multiset<Line>, sc: Scan, l: Line)
    requires Scanned(cur, horizon, page, sc) && l.ts < cur.ts
    ensures sc.sent[l] == 0
  {
  }

  lemma FlightWithin(cfg: Config, s: State, l: Line)
    requires Inv(cfg, s) && s.phase.InFlight?
    ensures SoundIn(cfg, s, s.live) && Covers(s.phase.flight.fetched, s.live.credit)
    ensures s.live.credit[l] <= s.phase.flight.fetched[l] <= s.source[l]
  {
    hide Sound;
  }

  lemma SettledCredit(cfg: Config, clock: Time, source: multiset<Line>, pos: Position, w: Window, l: Line)
    requires Settled(cfg, clock, source, pos, w) && w.lo <= l.ts < w.hi
    ensures w.Delivered? ==> pos.credit[l] == source[l]
    ensures w.Stepped? ==> w.lo == l.ts && Overfull(pos.credit, l.ts)
  {
  }

  /** A line before the cursor that earlier pages of the round passed. */
  lemma PagedIsAccounted(cfg: Config, s: State, sc: Scan, begin: Position, sent: multiset<Line>, l: Line)
    requires Inv(cfg, s) && s.phase.InFlight?
    requires Scanned(s.live.cur, s.phase.round.horizon, multiset(s.phase.flight.page), sc)
    requires Progress(begin, s.live, sent, s.phase.round.horizon, s.phase.round.horizon + 1)
    requires begin.cur.ts <= l.ts < s.live.cur.ts && l.ts <= s.phase.round.horizon
    requires AtStep(Since(begin, s.live), l.ts) ==> !Crowded(s.phase.flight.fetched, l.ts)
    ensures s.live.credit[l] + sc.sent[l] == s.phase.flight.fetched[l]
  {
    hide *;
    FlightWithin(cfg, s, l);
    NoneOwedBefore(s.live.cur, s.phase.round.horizon, multiset(s.phase.flight.page), sc, l);
    var w := WindowOfRound(cfg, s, begin, sent, s.phase.round.horizon, l);
    SettledCredit(cfg, s.clock, s.source, s.live, w, l);
    if w.Stepped? {
      SteppedCreditIsAll(s.phase.flight.fetched, s.live.credit, l);
    }
  }

  lemma PagedSince(cfg: Config, s: State, begin: Position, sent: multiset<Line>, horizon: Time, cut: Time, l: Line)
    requires SoundIn(cfg, s, s.live) && Progress(begin, s.live, sent, horizon, cut)
    requires begin.cur.ts <= l.ts < s.live.cur.ts && l.ts < cut
    requires AtStep(Since(begin, s.live), l.ts) ==> !Crowded(s.source, l.ts)
    ensures sent[l] + AlreadySeen(begin.cur, l) == s.source[l]
  {
    forall i | |begin.ledger| <= i < |s.live.ledger|
      ensures !Gap(s.live.ledger[i])
    {
      assert Since(begin, s.live)[i - |begin.ledger|] == s.live.ledger[i];
    }
    assert s.live.credit == begin.credit + sent;
    ExactBetween(cfg, s, begin, sent, l);
  }

  /** The round's report at its end. */
  lemma RoundIsExact(cfg: Config, s: State, begin: Position, r: Report)
    requires Reachable(cfg, s) && Ended(begin, s.live, r) && s.live.cur.ts >= r.horizon
    ensures Exact(r, s.source)
  {
    ReachableInv(cfg, s);
    hide Inv;
    forall l: Line | r.from.ts <= l.ts < r.horizon && l.ts < r.cut
                     && (AtStep(r.windows, l.ts) ==> !Crowded(s.source, l.ts))
      ensures r.sent[l] + AlreadySeen(r.from, l) == s.source[l]
    {
      PagedSince(cfg, s, begin, r.sent, r.horizon, r.cut, l);
    }
  }

  /** Timestamps are only skipped where they hold a page of lines. */
  lemma NoCrowdNoSkip(cfg: Config, s: State, begin: Position, sent: multiset<Line>, horizon: Time, cut: Time)
    requires Reachable(cfg, s) && Progress(begin, s.live, sent, horizon, cut)
    requires forall t | begin.cur.ts <= t <= horizon :: !Overfull(s.source, t)
    ensures StepCount(s.live.ledger) == StepCount(begin.ledger)
  {
    ReachableInv(cfg, s);
    var ledger := s.live.ledger;
    forall i | |begin.ledger| <= i < |ledger|
      ensures !ledger[i].Stepped?
    {
      WindowAfterPrefix(begin, s.live, i);
      WindowsEndByCursor(ledger, s.live.start, s.live.cur.ts, i);
      assert Settled(cfg, s.clock, s.source, s.live, ledger[i]);
      if ledger[i].Stepped? { OverfullStays(s.live.credit, s.source, ledger[i].lo); }
    }
    NoStepsNoCount(begin.ledger, ledger);
  }

  lemma WindowAfterPrefix(begin: Position, pos: Position, i: nat)
    requires Tiles(begin.ledger, begin.start, begin.cur.ts) && Tiles(pos.ledger, pos.start, pos.cur.ts)
    requires begin.start == pos.start && begin.ledger <= pos.ledger && |begin.ledger| <= i < |pos.ledger|
    ensures begin.cur.ts <= pos.ledger[i].lo
  {
    if begin.ledger == [] {
      WindowsEndByCursor(pos.ledger, pos.start, pos.cur.ts, i);
    } else {
      WindowsInOrder(pos.ledger, pos.start, pos.cur.ts, |begin.ledger| - 1, i);
    }
  }

  lemma {:induction false} NoStepsNoCount(shorter: seq<Window>, longer: seq<Window>)
    requires shorter <= longer && forall i | |shorter| <= i < |longer| :: !longer[i].Stepped?
    ensures StepCount(longer) == StepCount(shorter)
    decreases |longer|
  {
    if |shorter| == |longer| {
      assert shorter == longer;
    } else {
      NoStepsNoCount(shorter, longer[..|longer| - 1]);
    }
  }

  /** The count tells whether any timestamp was skipped. */
  lemma {:induction false} NoCountNoSteps(shorter: seq<Window>, longer: seq<Window>)
    requires shorter <= longer
    ensures StepCount(shorter) <= StepCount(longer)
    ensures StepCount(longer) == StepCount(shorter) ==> forall i | |shorter| <= i < |longer| :: !longer[i].Stepped?
    decreases |longer|
  {
    if |shorter| == |longer| {
      assert shorter == longer;
    } else {
      NoCountNoSteps(shorter, longer[..|longer| - 1]);
      assert forall i | |shorter| <= i < |longer| - 1 :: longer[i] == longer[..|longer| - 1][i];
    }
  }
}
