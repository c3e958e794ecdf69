/** A deploy poller and an HTTP poller that gates on it, running side by side. */
module KindPairs {
  import opened LogLines
  import opened PollSystem
  import opened PollTheorems

  /** registered and gen: whether a deploy poller is registered, and which. */
  datatype Pair = Pair(deploy: State, http: State, registered: bool, gen: nat)

  /** Replace: another deploy poller is registered in its place. */
  datatype PairEvent = DeployStep(own: Event) | HttpStep(own: Event) | Replace | Remove

  /** What the HTTP poller can read of the deploy poller. */
  function Published(p: Pair): Deploy {
    Deploy(p.gen, p.registered, p.deploy.live.cur.ts)
  }

  ghost predicate PairNext(dcfg: Config, hcfg: Config, p: Pair, e: PairEvent, p': Pair) {
    match e
    case DeployStep(own) =>
      && !own.Start? && Next(dcfg, p.deploy, own, p'.deploy)
      && p' == p.(deploy := p'.deploy, http := p.http.(deploy := Published(p')))
    case HttpStep(own) =>
      Next(hcfg, p.http, own, p'.http) && p'.http.deploy == p.http.deploy && p' == p.(http := p'.http)
    case Replace =>
      p'.gen > p.gen && p' == Pair(p'.deploy, p.http.(deploy := Published(p')), true, p'.gen)
    case Remove =>
      p' == p.(registered := false, http := p.http.(deploy := Published(p')))
  }

  ghost predicate IsPairRun(dcfg: Config, hcfg: Config, run: seq<Pair>, events: seq<PairEvent>) {
    && |run| == |events| + 1
    && Initial(run[0].http) && run[0].http.deploy == Published(run[0])
    && forall i | 0 <= i < |events| :: PairNext(dcfg, hcfg, run[i], events[i], run[i + 1])
  }

  /** The deploy poller's position never moves back, so each of its steps is one
      of the HTTP poller's surroundings. */
  lemma {:induction false} PairRefines(dcfg: Config, hcfg: Config, run: seq<Pair>, events: seq<PairEvent>, n: nat)
    requires IsPairRun(dcfg, hcfg, run, events) && n < |run|
    ensures Reachable(hcfg, run[n].http) && run[n].http.deploy == Published(run[n])
  {
    hide Reachable;
    if n == 0 {
      InitialReachable(hcfg, run[0].http);
    } else {
      PairRefines(dcfg, hcfg, run, events, n - 1);
      StepRefines(dcfg, hcfg, run[n - 1], events[n - 1], run[n]);
    }
  }

  lemma StepRefines(dcfg: Config, hcfg: Config, p: Pair, e: PairEvent, p': Pair)
    requires PairNext(dcfg, hcfg, p, e, p') && p.http.deploy == Published(p) && Reachable(hcfg, p.http)
    ensures Reachable(hcfg, p'.http) && p'.http.deploy == Published(p')
  {
    hide Reachable;
    if e.HttpStep? {
      StepReachable(hcfg, p.http, e.own, p'.http);
    } else {
      if e.DeployStep? { CursorNeverMovesBack(dcfg, p.deploy, e.own, p'.deploy); }
      DeployDrifts(hcfg, p.http, Published(p'));
      StepReachable(hcfg, p.http, Drift, p'.http);
    }
  }

  lemma DeployDrifts(cfg: Config, s: State, d: Deploy)
    requires s.deploy.gen <= d.gen
    requires s.deploy.gen == d.gen ==> s.deploy.pos <= d.pos && (d.registered ==> s.deploy.registered)
    ensures Next(cfg, s, Drift, s.(deploy := d))
  {
  }

  predicate InRound(p: Pair) {
    p.http.phase.Paging? || p.http.phase.InFlight?
  }

  /** Over whole runs: a line handed out in a round is at most the lag limit before
      the deploy position its floor was read from; and if a deploy poller was
      registered when the round began and has stayed so, at most the skew limit
      past the deploy position at that very moment. */
  lemma SkewOverRun(dcfg: Config, hcfg: Config, run: seq<Pair>, events: seq<PairEvent>, f: nat, i: nat, j: nat, l: Line)
    requires IsPairRun(dcfg, hcfg, run, events) && f < i < j < |run| && hcfg.gated
    requires events[f] == HttpStep(Floor) && forall k | f < k <= i :: run[k].http.phase.Ready?
    requires events[i].HttpStep? && events[i].own.Begin? && forall k | i < k <= j :: InRound(run[k])
    requires run[j].http.phase.InFlight?
    requires Owed(run[j].http.live.cur, run[j].http.phase.round.horizon, multiset(run[j].http.phase.flight.page), l) > 0
    ensures run[f].registered ==> l.ts >= run[f].deploy.live.cur.ts - MAX_KIND_LAG
    ensures run[i].registered && (forall k | i <= k < j :: !events[k].Replace? && !events[k].Remove?) ==>
              l.ts <= run[j].deploy.live.cur.ts + MAX_KIND_SKEW
  {
    PairRefines(dcfg, hcfg, run, events, f);
    PairRefines(dcfg, hcfg, run, events, i);
    PairRefines(dcfg, hcfg, run, events, j);
    hide Reachable;
    hide Drifts;
    hide Scanned;
    FloorStays(dcfg, hcfg, run, events, f, i);
    RoundStays(dcfg, hcfg, run, events, i, j);
    KindSkew(hcfg, run[j].http, l);
  }

  lemma {:induction false} FloorStays(dcfg: Config, hcfg: Config, run: seq<Pair>, events: seq<PairEvent>,
                                      f: nat, k: nat)
    requires IsPairRun(dcfg, hcfg, run, events) && f < k < |run| && hcfg.gated && events[f] == HttpStep(Floor)
    requires forall m | f < m <= k :: run[m].http.phase.Ready?
    ensures run[f].registered ==> run[k].http.phase.floor == Some(run[f].deploy.live.cur.ts)
    decreases k
  {
    hide Drifts;
    hide Scanned;
    hide Reachable;
    assert PairNext(dcfg, hcfg, run[k - 1], events[k - 1], run[k]);
    if k == f + 1 {
      PairRefines(dcfg, hcfg, run, events, f);
    } else {
      FloorStays(dcfg, hcfg, run, events, f, k - 1);
    }
  }

  lemma {:induction false} RoundStays(dcfg: Config, hcfg: Config, run: seq<Pair>, events: seq<PairEvent>,
                                      i: nat, k: nat)
    requires IsPairRun(dcfg, hcfg, run, events) && i < k < |run| && hcfg.gated
    requires events[i].HttpStep? && events[i].own.Begin? && run[i].http.phase.Ready?
    requires forall m | i < m <= k :: InRound(run[m])
    ensures InRound(run[k]) && run[k].http.phase.round.floor == run[i].http.phase.floor
    ensures run[i].registered && (forall m | i <= m < k :: !events[m].Replace? && !events[m].Remove?) ==>
              run[k].registered && run[k].http.phase.round.gate == Some(run[k].gen)
    decreases k
  {
    hide Drifts;
    hide Scanned;
    hide Reachable;
    assert PairNext(dcfg, hcfg, run[k - 1], events[k - 1], run[k]);
    if k == i + 1 {
      PairRefines(dcfg, hcfg, run, events, i);
    } else {
      RoundStays(dcfg, hcfg, run, events, i, k - 1);
    }
  }
}
