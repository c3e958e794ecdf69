/** The manager in poll mode: which pollers run, when they start, and how HTTP
    pollers of replaced deployments are retired. */
module Managers {
  import opened LogLines

  type Key = string

  datatype Service = Service(id: string, name: string, hasDomain: bool, deploymentID: string)
  datatype Target = Target(envID: string, services: seq<Service>)

  /** An empty allowlist admits everything. */
  predicate InScope(allowed: set<string>, id: string, name: string) {
    allowed == {} || (id != "" && id in allowed) || (name != "" && name in allowed)
  }

  /** What a deploy poller reads: an environment, or one service of it. */
  datatype DeploySource = DeploySource(envID: string, serviceID: string)

  class DeployPoller {
    const source: DeploySource
    const start: Time

    constructor (source: DeploySource, start: Time)
      ensures this.source == source && this.start == start
    {
      this.source, this.start := source, start;
    }
  }

  /** Reads one deployment of one service. */
  class HttpPoller {
    const serviceID: string
    const deploymentID: string
    const start: Time
    var retireAt: Option<Time>
    /** How often the retire channel has been closed; a second close panics. */
    var closes: nat

    constructor (serviceID: string, deploymentID: string, start: Time)
      ensures this.serviceID == serviceID && this.deploymentID == deploymentID
      ensures this.start == start && retireAt == None && closes == 0
    {
      this.serviceID, this.deploymentID, this.start, retireAt, closes := serviceID, deploymentID, start, None, 0;
    }

    method Close()
      requires closes == 0
      modifies this`closes
      ensures closes == 1
    {
      closes := closes + 1;
    }

    method Retire(at: Time)
      requires retireAt.None? && closes == 0
      modifies this
      ensures retireAt == Some(at) && closes == 1
    {
      retireAt := Some(at);
      Close();
    }
  }

  /** Keys of different sources differ, as long as the first id holds no '|'. */
  lemma KeysTellApart(a: string, d: string, b: string, e: string)
    requires '|' !in a && '|' !in b && a + "|" + d == b + "|" + e
    ensures a == b && d == e
  {
    var l, r := a + "|" + d, b + "|" + e;
    assert l[..|a|] == a && l[|a|] == '|' && l[|a| + 1..] == d;
    assert r[..|b|] == b && r[|b|] == '|' && r[|b| + 1..] == e;
    assert forall i | 0 <= i < |a| :: l[i] == a[i];
    assert forall i | 0 <= i < |b| :: r[i] == b[i];
    assert |a| == |b|;
  }

  /** One id continues another after a '|'. */
  predicate Continues(a: string, b: string) {
    |b| < |a| && a[..|b| + 1] == b + "|"
  }

  lemma LongerContinues(a: string, d: string, b: string, e: string)
    requires |a| > |b| && a + "|" + d == b + "|" + e
    ensures Continues(a, b)
  {
    var l, r := a + "|" + d, b + "|" + e;
    assert l[..|b| + 1] == a[..|b| + 1] && r[..|b| + 1] == b + "|";
  }

  lemma SameLengthIsSame(a: string, d: string, b: string, e: string)
    requires |a| == |b| && a + "|" + d == b + "|" + e
    ensures a == b && d == e
  {
    var l, r := a + "|" + d, b + "|" + e;
    assert l[..|a|] == a && r[..|b|] == b && l[|a| + 1..] == d && r[|b| + 1..] == e;
  }

  /** The keys that begin with some ids tell sources apart exactly if none of the
      ids continues another after a '|'. */
  lemma KeysTellApartIff(ids: set<string>)
    ensures (forall a, d, b, e | a in ids && b in ids && a + "|" + d == b + "|" + e :: a == b && d == e)
            <==> forall a, b | a in ids && b in ids :: !Continues(a, b)
  {
    forall a, b | a in ids && b in ids && Continues(a, b)
      ensures a + "|" + "" == b + "|" + (a[|b| + 1..] + "|")
    {
      assert a == a[..|b| + 1] + a[|b| + 1..];
    }
    forall a, d, b, e | a in ids && b in ids && a + "|" + d == b + "|" + e
      ensures (a == b && d == e) || Continues(a, b) || Continues(b, a)
    {
      if |a| > |b| {
        LongerContinues(a, d, b, e);
      } else if |b| > |a| {
        LongerContinues(b, e, a, d);
      } else {
        SameLengthIsSame(a, d, b, e);
      }
    }
  }

  /** No id that begins a key holds '|'. */
  predicate PlainIds(targets: seq<Target>) {
    forall t | t in targets :: '|' !in t.envID && forall s | s in t.services :: '|' !in s.id
  }

  /** The pollers by key, and when each HTTP poller was retired. */
  datatype Polls = Polls(http: map<Key, HttpPoller>, retired: map<Key, Option<Time>>, deploy: map<Key, DeployPoller>)

  class Manager {
    const perService: bool
    const services: set<string>
    const httpServices: set<string>
    const firstStart: Time

    var clock: Time
    var envSubs: set<Key>
    var deployPollers: map<Key, DeployPoller>
    var httpSubs: set<Key>
    var httpPolls: map<Key, HttpPoller>
    var lastReconcile: Option<Time>

    /** Subscriptions and pollers agree; a retire channel is closed exactly when
        its poller has a retirement time; no two keys share a poller, and a key
        spells out what its poller reads. */
    ghost predicate Valid()
      reads this, httpPolls.Values
    {
      HttpOk() && DeployOk()
    }

    ghost predicate HttpOk()
      reads this`clock, this`lastReconcile, this`httpSubs, this`httpPolls, httpPolls.Values
    {
      && httpSubs == httpPolls.Keys
      && (lastReconcile.Some? ==> lastReconcile.value <= clock) && firstStart <= clock
      && (forall k | k in httpPolls :: httpPolls[k].closes == if httpPolls[k].retireAt.Some? then 1 else 0)
      && (forall j, k | j in httpPolls && k in httpPolls && j != k :: httpPolls[j] != httpPolls[k])
      && (forall k | k in httpPolls :: k == httpPolls[k].serviceID + "|" + httpPolls[k].deploymentID)
    }

    ghost predicate DeployOk()
      reads this`envSubs, this`deployPollers
    {
      envSubs == deployPollers.Keys && forall k | k in deployPollers :: KeySpells(k, deployPollers[k].source)
    }

    ghost function PollsNow(): Polls
      reads this`httpPolls, this`deployPollers, httpPolls.Values
    {
      Polls(httpPolls, Retirements(), deployPollers)
    }

    /** When each HTTP poller was retired. */
    ghost function Retirements(): map<Key, Option<Time>>
      reads this`httpPolls, httpPolls.Values
    {
      map k | k in httpPolls :: httpPolls[k].retireAt
    }

    predicate KeySpells(k: Key, source: DeploySource) {
      k == if perService then source.envID + "|" + source.serviceID else source.envID
    }

    /** startedAt less the initial lookback is where a first poller starts. */
    constructor (perService: bool, services: set<string>, httpServices: set<string>, startedAt: Time,
                 initialLookback: nat)
      ensures Valid() && envSubs == {} && httpSubs == {} && lastReconcile == None
      ensures this.perService == perService && this.services == services && this.httpServices == httpServices
      ensures firstStart == startedAt - initialLookback && clock == startedAt
    {
      this.perService, this.services, this.httpServices := perService, services, httpServices;
      firstStart, clock := startedAt - initialLookback, startedAt;
      envSubs, deployPollers, httpSubs, httpPolls, lastReconcile := {}, map[], {}, map[], None;
    }

    /** A monotone clock. */
    method Now() returns (t: Time)
      modifies this`clock
      ensures old(clock) <= clock == t
    {
      var later: int := *;
      if later > clock {
        clock := later;
      }
      t := clock;
    }

    // ----- what discovery asks for

    function DeployKey(envID: string, serviceID: string): Key {
      if perService then envID + "|" + serviceID else envID
    }

    function HttpKey(s: Service): Key {
      s.id + "|" + s.deploymentID
    }

    predicate WantsDeploy(s: Service) {
      s.deploymentID != "" && InScope(services, s.id, s.name)
    }

    predicate WantsHttp(s: Service) {
      s.hasDomain && s.deploymentID != "" && InScope(httpServices, s.id, s.name)
    }

    /** One deploy source per environment, or per service with an active
        deployment. */
    ghost function WantedDeploy(next: map<string, Target>): set<Key> {
      if perService
      then set env, s | env in next && s in next[env].services && WantsDeploy(s) :: DeployKey(env, s.id)
      else next.Keys
    }

    ghost function WantedHttp(targets: seq<Target>): set<Key> {
      set t, s | t in targets && s in t.services && WantsHttp(s) :: HttpKey(s)
    }

    /** The last target listed for an environment counts. */
    function ByEnvironment(targets: seq<Target>): map<string, Target> {
      if targets == [] then map[]
      else ByEnvironment(targets[..|targets| - 1])[targets[|targets| - 1].envID := targets[|targets| - 1]]
    }

    method NextTargets(targets: seq<Target>) returns (next: map<string, Target>)
      ensures next == ByEnvironment(targets)
    {
      next := map[];
      for i := 0 to |targets|
        invariant next == ByEnvironment(targets[..i])
      {
        next := next[targets[i].envID := targets[i]];
        assert targets[..i + 1][..i] == targets[..i];
      }
      assert targets[..|targets|] == targets;
    }

    /** A source that the targets ask for, under its key. */
    ghost predicate DeployListed(next: map<string, Target>, k: Key, source: DeploySource) {
      && source.envID in next && KeySpells(k, source)
      && (perService ==> exists s :: s in next[source.envID].services && WantsDeploy(s) && s.id == source.serviceID)
    }

    method DeploySources(next: map<string, Target>) returns (wanted: map<Key, DeploySource>)
      ensures wanted.Keys == WantedDeploy(next)
      ensures forall k | k in wanted :: DeployListed(next, k, wanted[k])
    {
      hide DeployListed;
      wanted := map[];
      ghost var done := {};
      NoneWanted(next);
      var todo := next.Keys;
      while todo != {}
        invariant todo !! done && todo + done == next.Keys
        invariant wanted.Keys == DeployKeysOf(next, done)
        invariant forall k | k in wanted :: DeployListed(next, k, wanted[k])
        decreases todo
      {
        var env :| env in todo;
        var mine := map[env := DeploySource(env, "")];
        if perService {
          mine := ServiceSources(env, next[env].services);
        }
        OneMoreWanted(next, done, env, mine);
        wanted := wanted + mine;
        todo := todo - {env};
        done := done + {env};
      }
      assert done == next.Keys;
    }

    /** The keys that the targets of some environments ask for. */
    ghost function DeployKeysOf(next: map<string, Target>, envs: set<string>): set<Key>
      requires envs <= next.Keys
    {
      if perService
      then set env, s | env in envs && s in next[env].services && WantsDeploy(s) :: DeployKey(env, s.id)
      else envs
    }

    lemma NoneWanted(next: map<string, Target>)
      ensures DeployKeysOf(next, {}) == {}
    {
    }

    lemma OneMoreWanted(next: map<string, Target>, done: set<string>, env: string, mine: map<Key, DeploySource>)
      requires done <= next.Keys && env in next
      requires if perService then MineOf(next[env].services, env, mine) else mine == map[env := DeploySource(env, "")]
      ensures DeployKeysOf(next, done + {env}) == DeployKeysOf(next, done) + mine.Keys
      ensures forall k | k in mine :: DeployListed(next, k, mine[k])
    {
      hide WantsDeploy;
    }

    ghost predicate MineOf(list: seq<Service>, env: string, sources: map<Key, DeploySource>) {
      && sources.Keys == (set s | s in list && WantsDeploy(s) :: DeployKey(env, s.id))
      && forall k | k in sources ::
           && sources[k].envID == env && k == DeployKey(env, sources[k].serviceID)
           && exists s :: s in list && WantsDeploy(s) && s.id == sources[k].serviceID
    }

    method ServiceSources(env: string, list: seq<Service>) returns (sources: map<Key, DeploySource>)
      ensures MineOf(list, env, sources)
    {
      hide WantsDeploy;
      sources := map[];
      for i := 0 to |list|
        invariant sources.Keys == set s | s in list[..i] && WantsDeploy(s) :: DeployKey(env, s.id)
        invariant forall k | k in sources ::
                    && sources[k].envID == env && k == DeployKey(env, sources[k].serviceID)
                    && exists s :: s in list && WantsDeploy(s) && s.id == sources[k].serviceID
      {
        if WantsDeploy(list[i]) {
          sources := sources[DeployKey(env, list[i].id) := DeploySource(env, list[i].id)];
        }
        assert list[..i + 1] == list[..i] + [list[i]];
      }
      assert list[..|list|] == list;
    }

    /** A service that the targets ask for, under its key. */
    ghost predicate HttpListed(targets: seq<Target>, k: Key, s: Service) {
      && k == s.id + "|" + s.deploymentID
      && exists t :: t in targets && s in t.services && WantsHttp(s)
    }

    method HttpSources(targets: seq<Target>) returns (wanted: map<Key, Service>)
      ensures wanted.Keys == WantedHttp(targets)
      ensures forall k | k in wanted :: HttpListed(targets, k, wanted[k])
    {
      wanted := map[];
      for i := 0 to |targets|
        invariant wanted.Keys == WantedHttp(targets[..i])
        invariant forall k | k in wanted :: HttpListed(targets, k, wanted[k])
      {
        var mine := DeploymentSources(targets[i].services);
        assert forall k | k in mine :: HttpListed(targets, k, mine[k]);
        wanted := wanted + mine;
        assert targets[..i + 1] == targets[..i] + [targets[i]];
      }
      assert targets[..|targets|] == targets;
    }

    method DeploymentSources(list: seq<Service>) returns (sources: map<Key, Service>)
      ensures sources.Keys == set s | s in list && WantsHttp(s) :: HttpKey(s)
      ensures forall k | k in sources :: sources[k] in list && WantsHttp(sources[k]) && k == HttpKey(sources[k])
    {
      sources := map[];
      for i := 0 to |list|
        invariant sources.Keys == set s | s in list[..i] && WantsHttp(s) :: HttpKey(s)
        invariant forall k | k in sources :: sources[k] in list && WantsHttp(sources[k]) && k == HttpKey(sources[k])
      {
        if WantsHttp(list[i]) {
          sources := sources[HttpKey(list[i]) := list[i]];
        }
        assert list[..i + 1] == list[..i] + [list[i]];
      }
      assert list[..|list|] == list;
    }

    // ----- reconciling

    /** Deploy sources: exactly the wanted ones run; those that already ran are
        left alone, the others start at start. */
    method ReconcileDeploy(next: map<string, Target>, start: Time)
      requires Valid()
      modifies this`envSubs, this`deployPollers
      ensures Valid() && envSubs == deployPollers.Keys == WantedDeploy(next)
      ensures forall k | k in deployPollers :: if k in old(deployPollers) then deployPollers[k] == old(deployPollers[k])
                                               else fresh(deployPollers[k]) && deployPollers[k].start == start
      ensures DeployMoved(next, old(PollsNow()), PollsNow(), start)
    {
      hide DeployListed;
      hide HttpOk;
      hide DeployOk;
      hide Retirements;
      hide WantedDeploy;
      hide KeySpells;
      var wanted := DeploySources(next);
      forall k | k in wanted
        ensures KeySpells(k, wanted[k])
      {
        ListedSpells(next, k, wanted[k]);
      }
      StartDeploy(wanted, start);
      StopDeploy(wanted.Keys);
    }

    /** Every earlier deploy poller that still runs is unchanged; every other one is
        asked for and begins at start. HTTP pollers are left alone. */
    ghost predicate DeployMoved(next: map<string, Target>, before: Polls, now: Polls, start: Time) {
      && now.http == before.http && now.retired == before.retired
      && forall k | k in now.deploy ::
           if k in before.deploy then now.deploy[k] == before.deploy[k]
           else now.deploy[k].start == start && DeployListed(next, k, now.deploy[k].source)
    }

    lemma ListedSpells(next: map<string, Target>, k: Key, source: DeploySource)
      requires DeployListed(next, k, source)
      ensures KeySpells(k, source)
    {
    }

    method StartDeploy(wanted: map<Key, DeploySource>, start: Time)
      requires DeployOk() && forall k | k in wanted :: KeySpells(k, wanted[k])
      modifies this`envSubs, this`deployPollers
      ensures DeployOk() && envSubs == deployPollers.Keys == old(envSubs) + wanted.Keys
      ensures forall k | k in deployPollers :: if k in old(deployPollers) then deployPollers[k] == old(deployPollers[k])
                                               else fresh(deployPollers[k]) && deployPollers[k].start == start
      ensures forall k | k in deployPollers && k !in old(deployPollers) :: deployPollers[k].source == wanted[k]
    {
      var todo := wanted.Keys;
      while todo != {}
        invariant todo <= wanted.Keys && envSubs == deployPollers.Keys == old(envSubs) + (wanted.Keys - todo)
        invariant forall k | k in deployPollers ::
                    if k in old(deployPollers) then deployPollers[k] == old(deployPollers[k])
                    else fresh(deployPollers[k]) && deployPollers[k].start == start
                         && deployPollers[k].source == wanted[k]
        decreases todo
      {
        var k :| k in todo;
        if k !in envSubs {
          var p := new DeployPoller(wanted[k], start);
          envSubs, deployPollers := envSubs + {k}, deployPollers[k := p];
        }
        todo := todo - {k};
      }
    }

    method StopDeploy(wanted: set<Key>)
      requires DeployOk()
      modifies this`envSubs, this`deployPollers
      ensures DeployOk() && envSubs == deployPollers.Keys == old(envSubs) * wanted
      ensures forall k | k in deployPollers :: deployPollers[k] == old(deployPollers[k])
    {
      var todo := envSubs;
      while todo != {}
        invariant todo <= old(envSubs) && envSubs == deployPollers.Keys == todo + wanted * old(envSubs)
        invariant forall k | k in deployPollers :: deployPollers[k] == old(deployPollers[k])
        decreases todo
      {
        var k :| k in todo;
        if k !in wanted {
          envSubs, deployPollers := envSubs - {k}, deployPollers - {k};
        }
        todo := todo - {k};
      }
    }

    /** Starts the poller of one deployment. */
    method StartOne(k: Key, s: Service, start: Time) returns (p: HttpPoller)
      requires Valid() && k !in httpPolls && k == s.id + "|" + s.deploymentID
      modifies this`httpSubs, this`httpPolls
      ensures Valid() && fresh(p) && httpPolls == old(httpPolls)[k := p] && httpSubs == httpPolls.Keys
      ensures Begun(p, s, start) && Retirements() == old(Retirements())[k := None]
    {
      hide DeployOk;
      hide Retirements;
      ghost var before := Retirements();
      RetirementsAre();
      p := new HttpPoller(s.id, s.deploymentID, start);
      httpSubs, httpPolls := httpSubs + {k}, httpPolls[k := p];
      RetirementsNow(before, k);
    }

    lemma RetirementsAre()
      ensures Retirements().Keys == httpPolls.Keys
      ensures forall k | k in httpPolls :: Retirements()[k] == httpPolls[k].retireAt
    {
    }

    lemma RetirementsNow(before: map<Key, Option<Time>>, k: Key)
      requires k in httpPolls && httpPolls.Keys == before.Keys + {k}
      requires forall j | j in before && j != k :: before[j] == httpPolls[j].retireAt
      ensures Retirements() == before[k := httpPolls[k].retireAt]
    {
    }

    /** Starts the wanted HTTP sources that do not run yet. */
    method StartHTTP(wanted: map<Key, Service>, start: Time)
      requires Valid() && forall k | k in wanted :: k == wanted[k].id + "|" + wanted[k].deploymentID
      modifies this`httpSubs, this`httpPolls
      ensures Valid() && httpSubs == httpPolls.Keys
      ensures Started(wanted, {}, old(PollsNow()), PollsNow(), start)
      ensures forall k | k in httpPolls && k !in old(httpPolls) :: fresh(httpPolls[k])
    {
      hide Begun;
      hide Started;
      hide Retirements;
      SubsAreKeys();
      hide HttpOk;
      hide DeployOk;
      ghost var before := PollsNow();
      var todo := wanted.Keys;
      NoneStarted(wanted, start);
      while todo != {}
        invariant Started(wanted, todo, before, PollsNow(), start)
        invariant Valid() && httpSubs == httpPolls.Keys
        invariant forall k | k in httpPolls && k !in old(httpPolls) :: fresh(httpPolls[k])
        decreases todo
      {
        var k :| k in todo;
        ghost var now := PollsNow();
        RunsAlready(wanted, todo, before, now, start, k);
        if k !in httpSubs {
          var p := StartOne(k, wanted[k], start);
          OneStarted(wanted, todo, before, now, start, k, p);
        }
        todo := todo - {k};
      }
    }

    /** The HTTP pollers are those before, unchanged, and those of the wanted ones,
        except todo, each begun at start. */
    ghost predicate Started(wanted: map<Key, Service>, todo: set<Key>, before: Polls, now: Polls, start: Time) {
      && todo <= wanted.Keys && now.deploy == before.deploy && before.retired.Keys == before.http.Keys
      && now.http.Keys == now.retired.Keys == before.http.Keys + (wanted.Keys - todo)
      && (forall k | k in before.http :: now.http[k] == before.http[k] && now.retired[k] == before.retired[k])
      && (forall k | k in now.http && k !in before.http :: Begun(now.http[k], wanted[k], start) && now.retired[k].None?)
    }

    lemma NoneStarted(wanted: map<Key, Service>, start: Time)
      ensures Started(wanted, wanted.Keys, PollsNow(), PollsNow(), start)
    {
    }

    lemma RunsAlready(wanted: map<Key, Service>, todo: set<Key>, before: Polls, now: Polls, start: Time, k: Key)
      requires Started(wanted, todo, before, now, start) && k in todo
      ensures k in wanted && (k in now.http ==> Started(wanted, todo - {k}, before, now, start))
    {
      hide Begun;
    }

    lemma OneStarted(wanted: map<Key, Service>, todo: set<Key>, before: Polls, now: Polls, start: Time, k: Key,
                     p: HttpPoller)
      requires Started(wanted, todo, before, now, start) && k in todo && k !in now.http
      requires k in wanted && Begun(p, wanted[k], start)
      ensures var now' := now.(http := now.http[k := p], retired := now.retired[k := None]);
              Started(wanted, todo - {k}, before, now', start)
    {
      hide Begun;
    }

    lemma SubsAreKeys()
      requires Valid()
      ensures httpSubs == httpPolls.Keys
    {
    }

    /** The poller reads the service's deployment from start on. */
    predicate Begun(p: HttpPoller, s: Service, start: Time) {
      p.start == start && p.serviceID == s.id && p.deploymentID == s.deploymentID
    }

    /** Retires one poller, and no other. */
    method RetireOne(k: Key)
      requires Valid() && k in httpPolls && httpPolls[k].retireAt.None?
      modifies this`clock, httpPolls[k]
      ensures Valid() && old(clock) <= clock && Retirements() == old(Retirements())[k := Some(clock)]
    {
      hide DeployOk;
      hide Retirements;
      ghost var before := Retirements();
      RetirementsAre();
      forall j | j in httpPolls && j != k
        ensures httpPolls[j] != httpPolls[k]
      {
        OwnPoller(j, k);
      }
      var now := Now();
      httpPolls[k].Retire(now);
      RetirementsNow(before, k);
    }

    lemma OwnPoller(j: Key, k: Key)
      requires Valid() && j in httpPolls && k in httpPolls && j != k
      ensures httpPolls[j] != httpPolls[k]
    {
    }

    /** Retires, once, each poller whose key is no longer wanted. */
    method RetireHTTP(wanted: set<Key>)
      requires Valid()
      modifies this`clock, httpPolls.Values
      ensures Valid() && old(clock) <= clock
      ensures PollsNow() == old(PollsNow()).(retired := PollsNow().retired)
      ensures RetiredSince(old(PollsNow()), PollsNow(), wanted, old(clock), clock)
    {
      hide Retirements;
      hide RetiredBut;
      hide RetiredSince;
      hide HttpOk;
      hide DeployOk;
      SubsAreKeys();
      var todo := httpSubs;
      ghost var before := Retirements();
      RetirementsAre();
      NoneRetired(before, wanted, clock);
      while todo != {}
        invariant todo <= httpPolls.Keys && Valid() && old(clock) <= clock
        invariant RetiredBut(before, Retirements(), todo, wanted, old(clock), clock)
        decreases todo
      {
        var k :| k in todo;
        RetirementsAre();
        ghost var now, at := Retirements(), clock;
        if k !in wanted && httpPolls[k].retireAt.None? {
          RetireOne(k);
        }
        RetiredNext(before, now, Retirements(), todo, wanted, old(clock), at, clock, k);
        todo := todo - {k};
      }
      AllRetired(old(PollsNow()), PollsNow(), wanted, old(clock), clock);
    }

    /** What retiring leaves, before it has come to todo. */
    ghost predicate RetiredBut(before: map<Key, Option<Time>>, now: map<Key, Option<Time>>, todo: set<Key>,
                               wanted: set<Key>, since: Time, until: Time) {
      && todo <= now.Keys == before.Keys
      && forall k | k in before ::
           if k in todo || k in wanted || before[k].Some? then now[k] == before[k]
           else now[k].Some? && since <= now[k].value <= until
    }

    lemma NoneRetired(before: map<Key, Option<Time>>, wanted: set<Key>, now: Time)
      ensures RetiredBut(before, before, before.Keys, wanted, now, now)
    {
    }

    lemma AllRetired(before: Polls, now: Polls, wanted: set<Key>, since: Time, until: Time)
      requires RetiredBut(before.retired, now.retired, {}, wanted, since, until)
      ensures RetiredSince(before, now, wanted, since, until)
    {
    }

    lemma RetiredNext(before: map<Key, Option<Time>>, now: map<Key, Option<Time>>, now': map<Key, Option<Time>>,
                      todo: set<Key>, wanted: set<Key>, since: Time, until: Time, until': Time, k: Key)
      requires RetiredBut(before, now, todo, wanted, since, until) && k in todo && since <= until <= until'
      requires now' == if k !in wanted && now[k].None? then now[k := Some(until')] else now
      ensures RetiredBut(before, now', todo - {k}, wanted, since, until')
    {
    }

    /** Every earlier HTTP poller is still there; every other one begins at start. */
    ghost predicate KeptOrStarted(before: Polls, now: Polls, start: Time) {
      && (forall k | k in before.http :: k in now.http && now.http[k] == before.http[k])
      && (forall k | k in now.http && k !in before.http ::
            now.http[k].start == start && k in now.retired && now.retired[k].None?)
    }

    /** Wanted and already retired pollers keep their state; every other earlier
        one was retired between since and until. */
    ghost predicate RetiredSince(before: Polls, now: Polls, wanted: set<Key>, since: Time, until: Time) {
      && (forall k | k in before.retired && (k in wanted || before.retired[k].Some?) ::
            k in now.retired && now.retired[k] == before.retired[k])
      && (forall k | k in before.retired && k !in wanted && before.retired[k].None? ::
            k in now.retired && now.retired[k].Some? && since <= now.retired[k].value <= until)
    }

    /** Some target lists the service, with a domain, an active deployment and
        admitted by the allowlist. */
    ghost predicate Lists(targets: seq<Target>, s: Service) {
      && (exists t :: t in targets && s in t.services)
      && s.hasDomain && s.deploymentID != ""
      && (httpServices == {} || (s.id != "" && s.id in httpServices) || (s.name != "" && s.name in httpServices))
    }

    /** The deployment is the active one of such a service. */
    ghost predicate IsListed(targets: seq<Target>, serviceID: string, deploymentID: string) {
      exists s :: Lists(targets, s) && s.id == serviceID && s.deploymentID == deploymentID
    }

    ghost predicate NewAreAsked(targets: seq<Target>, before: Polls, now: Polls) {
      forall k | k in now.http && k !in before.http ::
        IsListed(targets, now.http[k].serviceID, now.http[k].deploymentID)
    }

    /** HTTP sources: every wanted one runs; none is stopped. A poller whose key
        is no longer wanted is retired, once, and removes itself when drained. */
    method ReconcileHTTP(targets: seq<Target>, start: Time)
      requires Valid()
      modifies this`clock, this`httpSubs, this`httpPolls, httpPolls.Values
      ensures Valid() && old(clock) <= clock
      ensures httpSubs == httpPolls.Keys == old(httpPolls.Keys) + WantedHttp(targets)
      ensures forall k | k in httpPolls && k !in old(httpPolls) :: fresh(httpPolls[k])
      ensures KeptOrStarted(old(PollsNow()), PollsNow(), start) && PollsNow().deploy == old(PollsNow()).deploy
      ensures RetiredSince(old(PollsNow()), PollsNow(), WantedHttp(targets), old(clock), clock)
      ensures NewAreAsked(targets, old(PollsNow()), PollsNow())
    {
      hide WantedHttp;
      hide HttpListed;
      hide Started;
      hide KeptOrStarted;
      hide RetiredSince;
      hide NewAreAsked;
      hide PollsNow;
      hide HttpOk;
      hide DeployOk;
      var wanted := HttpSources(targets);
      forall k | k in wanted
        ensures k == wanted[k].id + "|" + wanted[k].deploymentID
      {
        ListedIsKey(targets, k, wanted[k]);
      }
      ghost var before := PollsNow();
      KeysOfPolls();
      StartHTTP(wanted, start);
      ghost var mid := PollsNow();
      KeysOfPolls();
      StartedKeeps(wanted, before, mid, start);
      RetireHTTP(wanted.Keys);
      HttpReconciled(targets, wanted, before, mid, PollsNow(), start, old(clock), clock);
    }

    lemma StartedKeeps(wanted: map<Key, Service>, before: Polls, mid: Polls, start: Time)
      requires Started(wanted, {}, before, mid, start)
      ensures forall k | k in before.http :: k in mid.http && mid.http[k] == before.http[k]
    {
    }

    lemma HttpReconciled(targets: seq<Target>, wanted: map<Key, Service>, before: Polls, mid: Polls, now: Polls,
                         start: Time, since: Time, until: Time)
      requires Started(wanted, {}, before, mid, start) && now == mid.(retired := now.retired)
      requires RetiredSince(mid, now, wanted.Keys, since, until)
      requires forall k | k in wanted :: HttpListed(targets, k, wanted[k])
      ensures KeptOrStarted(before, now, start) && now.deploy == before.deploy && NewAreAsked(targets, before, now)
      ensures now.http.Keys == before.http.Keys + wanted.Keys
      ensures RetiredSince(before, now, wanted.Keys, since, until)
    {
      hide HttpListed;
      hide IsListed;
      forall k | k in now.http && k !in before.http
        ensures IsListed(targets, now.http[k].serviceID, now.http[k].deploymentID)
      {
        ListedIsAsked(targets, k, wanted[k], now.http[k]);
      }
    }

    lemma ListedIsKey(targets: seq<Target>, k: Key, s: Service)
      requires HttpListed(targets, k, s)
      ensures k == s.id + "|" + s.deploymentID
    {
    }

    lemma ListedIsAsked(targets: seq<Target>, k: Key, s: Service, p: HttpPoller)
      requires HttpListed(targets, k, s) && p.serviceID == s.id && p.deploymentID == s.deploymentID
      ensures IsListed(targets, p.serviceID, p.deploymentID)
    {
      assert Lists(targets, s);
    }

    // ----- what a reconcile means for services

    /** No id that begins a key of a poller holds '|'. */
    ghost predicate PlainPolls(polls: Polls) {
      && (forall k | k in polls.http :: '|' !in polls.http[k].serviceID)
      && forall k | k in polls.deploy :: '|' !in polls.deploy[k].source.envID
    }

    /** A key spells out what its poller reads. */
    ghost predicate KeysSpell(polls: Polls) {
      && polls.retired.Keys == polls.http.Keys
      && (forall k | k in polls.http :: k == polls.http[k].serviceID + "|" + polls.http[k].deploymentID)
      && (forall k | k in polls.deploy :: KeySpells(k, polls.deploy[k].source))
    }

    lemma ValidSpells()
      requires Valid()
      ensures KeysSpell(PollsNow())
    {
    }

    /** The service's active deployment has a poller: the one it had, not retired by
        this, or one begun at start. */
    ghost predicate ReadFrom(s: Service, before: Polls, now: Polls, start: Time) {
      var k := s.id + "|" + s.deploymentID;
      && k in now.http && now.http[k].serviceID == s.id && now.http[k].deploymentID == s.deploymentID
      && k in now.retired
      && if k in before.http
         then now.http[k] == before.http[k] && k in before.retired && now.retired[k] == before.retired[k]
         else now.http[k].start == start && now.retired[k].None?
    }

    /** Every such service is read from. */
    ghost predicate ReadsServices(targets: seq<Target>, before: Polls, now: Polls, start: Time) {
      forall s | Lists(targets, s) :: ReadFrom(s, before, now, start)
    }

    /** Every other poller is retired. */
    ghost predicate RetiresTheRest(targets: seq<Target>, now: Polls) {
      forall k | k in now.http && !IsListed(targets, now.http[k].serviceID, now.http[k].deploymentID) ::
        k in now.retired && now.retired[k].Some?
    }

    lemma NotListedNotWanted(targets: seq<Target>, serviceID: string, deploymentID: string)
      requires PlainIds(targets) && '|' !in serviceID && !IsListed(targets, serviceID, deploymentID)
      ensures serviceID + "|" + deploymentID !in WantedHttp(targets)
    {
      var k := serviceID + "|" + deploymentID;
      if k in WantedHttp(targets) {
        var t, s :| t in targets && s in t.services && WantsHttp(s) && k == HttpKey(s);
        KeysTellApart(s.id, s.deploymentID, serviceID, deploymentID);
        assert Lists(targets, s);
      }
    }

    lemma ListedIsPlainId(targets: seq<Target>, serviceID: string, deploymentID: string)
      requires PlainIds(targets) && IsListed(targets, serviceID, deploymentID)
      ensures '|' !in serviceID
    {
    }

    /** What the keys say of services. */
    lemma KeysMeanServices(targets: seq<Target>, before: Polls, now: Polls, start: Time, since: Time, until: Time)
      requires PlainIds(targets) && KeysSpell(before) && KeysSpell(now)
      requires forall k | k in before.http :: '|' !in before.http[k].serviceID
      requires now.http.Keys == before.http.Keys + WantedHttp(targets) && NewAreAsked(targets, before, now)
      requires KeptOrStarted(before, now, start) && RetiredSince(before, now, WantedHttp(targets), since, until)
      ensures forall k | k in now.http :: '|' !in now.http[k].serviceID
      ensures ReadsServices(targets, before, now, start) && RetiresTheRest(targets, now)
    {
      forall k | k in now.http
        ensures '|' !in now.http[k].serviceID
      {
        if k !in before.http { ListedIsPlainId(targets, now.http[k].serviceID, now.http[k].deploymentID); }
      }
      forall s | Lists(targets, s)
        ensures ReadFrom(s, before, now, start)
      {
        var k := s.id + "|" + s.deploymentID;
        assert WantsHttp(s) && k == HttpKey(s) && k in WantedHttp(targets);
        KeysTellApart(s.id, s.deploymentID, now.http[k].serviceID, now.http[k].deploymentID);
      }
      forall k | k in now.http && !IsListed(targets, now.http[k].serviceID, now.http[k].deploymentID)
        ensures now.retired[k].Some?
      {
        NotListedNotWanted(targets, now.http[k].serviceID, now.http[k].deploymentID);
      }
    }

    /** No later target is for the same environment. */
    predicate LastFor(targets: seq<Target>, t: Target) {
      exists i :: 0 <= i < |targets| && targets[i] == t && forall j | i < j < |targets| :: targets[j].envID != t.envID
    }

    lemma LastOfMore(init: seq<Target>, last: Target, t: Target)
      ensures LastFor(init + [last], t) <==> t == last || (t.envID != last.envID && LastFor(init, t))
    {
      var all := init + [last];
      if LastFor(all, t) && t != last {
        var i :| 0 <= i < |all| && all[i] == t && forall j | i < j < |all| :: all[j].envID != t.envID;
        assert init[i] == t && all[|init|] == last && forall j | i < j < |init| :: init[j] == all[j];
      }
      if t == last {
        assert all[|init|] == t;
      } else if t.envID != last.envID && LastFor(init, t) {
        var i :| 0 <= i < |init| && init[i] == t && forall j | i < j < |init| :: init[j].envID != t.envID;
        assert all[i] == t;
      }
    }

    lemma {:induction false} LastCounts(targets: seq<Target>, t: Target)
      ensures LastFor(targets, t) <==> t.envID in ByEnvironment(targets) && ByEnvironment(targets)[t.envID] == t
      ensures forall env | env in ByEnvironment(targets) ::
                ByEnvironment(targets)[env].envID == env && ByEnvironment(targets)[env] in targets
    {
      if targets != [] {
        hide LastFor;
        var n := |targets| - 1;
        assert targets == targets[..n] + [targets[n]];
        LastCounts(targets[..n], t);
        LastOfMore(targets[..n], targets[n], t);
      }
    }

    /** The deploy sources are what the last target of each environment asks for:
        the environment, or in per-service scope each of its services with an active
        deployment that the allowlist admits. */
    ghost predicate ReadsEnvironments(targets: seq<Target>, now: Polls) {
      && (forall t | LastFor(targets, t) && !perService ::
            t.envID in now.deploy && now.deploy[t.envID].source.envID == t.envID)
      && (forall t, s | LastFor(targets, t) && perService && s in t.services && s.deploymentID != ""
                        && (services == {} || (s.id != "" && s.id in services)
                            || (s.name != "" && s.name in services)) ::
            var k := t.envID + "|" + s.id;
            k in now.deploy && now.deploy[k].source == DeploySource(t.envID, s.id))
      && (forall k | k in now.deploy :: AskedFor(targets, now.deploy[k].source))
    }

    ghost predicate AskedFor(targets: seq<Target>, source: DeploySource) {
      exists t :: LastFor(targets, t) && t.envID == source.envID
                  && (perService ==> exists s ::
                        && s in t.services && s.id == source.serviceID && s.deploymentID != ""
                        && (services == {} || (s.id != "" && s.id in services) || (s.name != "" && s.name in services)))
    }

    lemma KeysMeanEnvironments(targets: seq<Target>, now: Polls)
      requires PlainIds(targets) && (forall k | k in now.deploy :: '|' !in now.deploy[k].source.envID)
      requires forall k | k in now.deploy :: KeySpells(k, now.deploy[k].source)
      requires now.deploy.Keys == WantedDeploy(ByEnvironment(targets))
      ensures ReadsEnvironments(targets, now)
    {
      forall t | LastFor(targets, t)
        ensures t.envID in ByEnvironment(targets) && ByEnvironment(targets)[t.envID] == t
      {
        LastCounts(targets, t);
      }
      forall t, s | LastFor(targets, t) && perService && s in t.services && s.deploymentID != ""
                    && (services == {} || (s.id != "" && s.id in services) || (s.name != "" && s.name in services))
        ensures var k := t.envID + "|" + s.id; k in now.deploy && now.deploy[k].source == DeploySource(t.envID, s.id)
      {
        var k := t.envID + "|" + s.id;
        assert WantsDeploy(s) && k == DeployKey(t.envID, s.id) && k in WantedDeploy(ByEnvironment(targets));
        var source := now.deploy[k].source;
        KeysTellApart(t.envID, s.id, source.envID, source.serviceID);
      }
      forall k | k in now.deploy
        ensures AskedFor(targets, now.deploy[k].source)
      {
        SourceIsAskedFor(targets, k, now.deploy[k].source);
      }
    }

    lemma ListedIsPlain(targets: seq<Target>, next: map<string, Target>, k: Key, source: DeploySource)
      requires PlainIds(targets) && next == ByEnvironment(targets) && DeployListed(next, k, source)
      ensures '|' !in source.envID
    {
      LastCounts(targets, next[source.envID]);
    }

    lemma SourceIsAskedFor(targets: seq<Target>, k: Key, source: DeploySource)
      requires PlainIds(targets) && '|' !in source.envID && KeySpells(k, source)
      requires k in WantedDeploy(ByEnvironment(targets))
      ensures AskedFor(targets, source)
    {
      var next := ByEnvironment(targets);
      if perService {
        var env, s :| env in next && s in next[env].services && WantsDeploy(s) && k == DeployKey(env, s.id);
        LastCounts(targets, next[env]);
        KeysTellApart(env, s.id, source.envID, source.serviceID);
        assert LastFor(targets, next[env]);
      } else {
        LastCounts(targets, next[k]);
        assert LastFor(targets, next[k]);
      }
    }

    ghost predicate DeployKept(before: Polls, now: Polls, start: Time) {
      forall k | k in now.deploy ::
        if k in before.deploy then now.deploy[k] == before.deploy[k] else now.deploy[k].start == start
    }

    /** What a reconcile leaves, in terms of services and environments. */
    ghost predicate Serves(targets: seq<Target>, before: Polls, now: Polls, start: Time) {
      && PlainPolls(now) && ReadsServices(targets, before, now, start) && RetiresTheRest(targets, now)
      && ReadsEnvironments(targets, now)
    }

    lemma ServesAll(targets: seq<Target>, before: Polls, now: Polls, start: Time, since: Time, until: Time)
      requires PlainIds(targets) && KeysSpell(before) && KeysSpell(now) && PlainPolls(before)
      requires forall k | k in now.deploy :: '|' !in now.deploy[k].source.envID
      requires now.deploy.Keys == WantedDeploy(ByEnvironment(targets))
      requires now.http.Keys == before.http.Keys + WantedHttp(targets) && NewAreAsked(targets, before, now)
      requires KeptOrStarted(before, now, start) && RetiredSince(before, now, WantedHttp(targets), since, until)
      ensures Serves(targets, before, now, start)
    {
      hide WantedDeploy;
      hide WantedHttp;
      hide NewAreAsked;
      hide KeptOrStarted;
      hide RetiredSince;
      hide ReadsServices;
      hide RetiresTheRest;
      hide ReadsEnvironments;
      KeysMeanServices(targets, before, now, start, since, until);
      KeysMeanEnvironments(targets, now);
    }

    lemma DeploysArePlain(targets: seq<Target>, next: map<string, Target>, before: Polls, now: Polls)
      requires PlainIds(targets) && next == ByEnvironment(targets) && PlainPolls(before)
      requires forall k | k in now.deploy ::
                 if k in before.deploy then now.deploy[k] == before.deploy[k]
                 else DeployListed(next, k, now.deploy[k].source)
      ensures forall k | k in now.deploy :: '|' !in now.deploy[k].source.envID
    {
      hide DeployListed;
      forall k | k in now.deploy
        ensures '|' !in now.deploy[k].source.envID
      {
        if k !in before.deploy { ListedIsPlain(targets, next, k, now.deploy[k].source); }
      }
    }

    /** The two halves of a reconcile together. */
    lemma Reconciled(targets: seq<Target>, next: map<string, Target>, before: Polls, mid: Polls, now: Polls,
                     start: Time, since: Time, until: Time)
      requires next == ByEnvironment(targets) && DeployMoved(next, before, mid, start) && now.deploy == mid.deploy
      requires KeptOrStarted(mid, now, start) && NewAreAsked(targets, mid, now)
      requires RetiredSince(mid, now, WantedHttp(targets), since, until)
      requires KeysSpell(before) && KeysSpell(now) && now.deploy.Keys == WantedDeploy(next)
      requires now.http.Keys == before.http.Keys + WantedHttp(targets)
      ensures KeptOrStarted(before, now, start) && RetiredSince(before, now, WantedHttp(targets), since, until)
      ensures DeployKept(before, now, start)
      ensures PlainIds(targets) && PlainPolls(before) ==> Serves(targets, before, now, start)
    {
      hide WantedDeploy;
      hide WantedHttp;
      hide ByEnvironment;
      hide DeployListed;
      hide IsListed;
      hide KeysSpell;
      hide PlainPolls;
      hide PlainIds;
      hide Serves;
      if PlainIds(targets) && PlainPolls(before) {
        DeploysArePlain(targets, next, before, now);
        ServesAll(targets, before, now, start, since, until);
      }
    }

    lemma KeysOfPolls()
      ensures PollsNow().http == httpPolls && PollsNow().deploy == deployPollers
    {
    }

    /** One reconcile. None is a failed discovery: nothing changes. */
    method Reconcile(targets: Option<seq<Target>>)
      requires Valid()
      modifies this, httpPolls.Values
      ensures Valid()
      ensures targets.None? ==> unchanged(this) && forall k | k in httpPolls :: unchanged(httpPolls[k])
      ensures targets.Some? ==>
                && envSubs == deployPollers.Keys == WantedDeploy(ByEnvironment(targets.value))
                && httpSubs == httpPolls.Keys == old(httpPolls.Keys) + WantedHttp(targets.value)
                && lastReconcile.Some? && old(clock) <= lastReconcile.value <= clock
                && KeptOrStarted(old(PollsNow()), PollsNow(), old(NextStart()))
                && RetiredSince(old(PollsNow()), PollsNow(), WantedHttp(targets.value), lastReconcile.value, clock)
      ensures forall k | k in httpPolls && k !in old(httpPolls) :: fresh(httpPolls[k])
      ensures targets.Some? ==> DeployKept(old(PollsNow()), PollsNow(), old(NextStart()))
      ensures targets.Some? && PlainIds(targets.value) && old(PlainPolls(PollsNow())) ==>
                Serves(targets.value, old(PollsNow()), PollsNow(),
                       if old(lastReconcile).Some? then old(lastReconcile).value else firstStart)
    {
      hide WantedDeploy;
      hide WantedHttp;
      hide ByEnvironment;
      hide KeptOrStarted;
      hide RetiredSince;
      hide PlainPolls;
      hide PlainIds;
      hide Serves;
      hide DeployKept;
      hide HttpOk;
      hide DeployOk;
      hide PollsNow;
      if targets.Some? {
        var start, now := BeginReconcile();
        Align(targets.value, start);
      }
    }

    /** The two halves of a reconcile. */
    method Align(targets: seq<Target>, start: Time)
      requires Valid()
      modifies this`clock, this`envSubs, this`deployPollers, this`httpSubs, this`httpPolls, httpPolls.Values
      ensures Valid() && old(clock) <= clock
      ensures envSubs == deployPollers.Keys == WantedDeploy(ByEnvironment(targets))
      ensures httpSubs == httpPolls.Keys == old(httpPolls.Keys) + WantedHttp(targets)
      ensures KeptOrStarted(old(PollsNow()), PollsNow(), start)
      ensures RetiredSince(old(PollsNow()), PollsNow(), WantedHttp(targets), old(clock), clock)
      ensures forall k | k in httpPolls && k !in old(httpPolls) :: fresh(httpPolls[k])
      ensures DeployKept(old(PollsNow()), PollsNow(), start)
      ensures PlainIds(targets) && PlainPolls(old(PollsNow())) ==> Serves(targets, old(PollsNow()), PollsNow(), start)
    {
      hide WantedDeploy;
      hide WantedHttp;
      hide ByEnvironment;
      hide DeployListed;
      hide NewAreAsked;
      hide KeptOrStarted;
      hide RetiredSince;
      hide PlainPolls;
      hide PlainIds;
      hide Serves;
      hide DeployMoved;
      hide DeployKept;
      hide HttpOk;
      hide DeployOk;
      hide PollsNow;
      hide KeysSpell;
      ghost var before := PollsNow();
      ValidSpells();
      KeysOfPolls();
      var next := NextTargets(targets);
      ReconcileDeploy(next, start);
      ghost var mid := PollsNow();
      ReconcileHTTP(targets, start);
      ValidSpells();
      KeysOfPolls();
      Reconciled(targets, next, before, mid, PollsNow(), start, old(clock), clock);
    }

    /** Notes when discovery last succeeded; start is where new pollers begin. */
    method BeginReconcile() returns (start: Time, now: Time)
      requires Valid()
      modifies this`clock, this`lastReconcile
      ensures Valid() && start == old(NextStart()) && lastReconcile == Some(now) && old(clock) <= now == clock
    {
      start := NextStart();
      now := Now();
      lastReconcile := Some(now);
    }

    /** Where a poller with no stored cursor begins: the previous reconcile, or
        shortly before startup. */
    function NextStart(): Time
      reads this
    {
      if lastReconcile.Some? then lastReconcile.value else firstStart
    }

    /** A drained HTTP poller removes itself, unless its key has passed on. */
    method PollerExits(key: Key, p: HttpPoller)
      requires Valid()
      modifies this`httpSubs, this`httpPolls
      ensures Valid()
      ensures if key in old(httpPolls) && old(httpPolls[key]) == p
              then httpPolls == old(httpPolls) - {key} else httpPolls == old(httpPolls)
    {
      if key in httpPolls && httpPolls[key] == p {
        httpPolls, httpSubs := httpPolls - {key}, httpSubs - {key};
      }
    }

    /** No poller reads the service's active deployment. */
    ghost predicate Unread(polls: Polls, s: Service) {
      forall k | k in polls.http :: polls.http[k].serviceID != s.id || polls.http[k].deploymentID != s.deploymentID
    }

    lemma ListedIsWanted(targets: seq<Target>, s: Service)
      requires Lists(targets, s)
      ensures s.id + "|" + s.deploymentID in WantedHttp(targets)
      ensures PlainIds(targets) ==> '|' !in s.id
    {
      assert WantsHttp(s) && HttpKey(s) == s.id + "|" + s.deploymentID;
    }

    /** Some poller reads the service's active deployment, from until or before. */
    ghost predicate ReadSince(polls: Polls, s: Service, until: Time) {
      exists k | k in polls.http ::
        && polls.http[k].serviceID == s.id && polls.http[k].deploymentID == s.deploymentID
        && polls.http[k].start <= until
    }

    lemma UnreadHasNoKey(polls: Polls, s: Service)
      requires KeysSpell(polls) && '|' !in s.id
      ensures Unread(polls, s) && PlainPolls(polls) ==> s.id + "|" + s.deploymentID !in polls.http
      ensures s.id + "|" + s.deploymentID !in polls.http ==> Unread(polls, s)
    {
      var k := s.id + "|" + s.deploymentID;
      if Unread(polls, s) && PlainPolls(polls) && k in polls.http {
        KeysTellApart(polls.http[k].serviceID, polls.http[k].deploymentID, s.id, s.deploymentID);
      }
    }

    /** A reconcile that does not list a deployment starts no poller for it. */
    lemma StaysUnread(targets: seq<Target>, before: Polls, now: Polls, s: Service)
      requires PlainIds(targets) && KeysSpell(before) && PlainPolls(before) && KeysSpell(now) && '|' !in s.id
      requires Unread(before, s) && !IsListed(targets, s.id, s.deploymentID)
      requires now.http.Keys == before.http.Keys + WantedHttp(targets)
      ensures Unread(now, s)
    {
      UnreadHasNoKey(before, s);
      NotListedNotWanted(targets, s.id, s.deploymentID);
      UnreadHasNoKey(now, s);
    }

    /** The reconcile that finds a service unread starts its poller at start. */
    lemma TakesOver(targets: seq<Target>, before: Polls, now: Polls, s: Service, start: Time, until: Time)
      requires PlainIds(targets) && KeysSpell(before) && PlainPolls(before) && Unread(before, s) && Lists(targets, s)
      requires Serves(targets, before, now, start) && start <= until
      ensures ReadSince(now, s, until)
    {
      ListedIsWanted(targets, s);
      UnreadHasNoKey(before, s);
      assert ReadFrom(s, before, now, start);
    }

    /** The reconcile that no longer lists a deployment retires its poller. */
    lemma LetsGo(targets: seq<Target>, before: Polls, now: Polls, k: Key, since: Time, until: Time)
      requires PlainIds(targets) && KeysSpell(before) && PlainPolls(before)
      requires k in before.http && before.retired[k].None?
      requires !IsListed(targets, before.http[k].serviceID, before.http[k].deploymentID)
      requires RetiredSince(before, now, WantedHttp(targets), since, until)
      ensures k in now.retired && now.retired[k].Some? && since <= now.retired[k].value
    {
      NotListedNotWanted(targets, before.http[k].serviceID, before.http[k].deploymentID);
    }

    lemma StaysRetired(before: Polls, now: Polls, k: Key, wanted: set<Key>, since: Time, until: Time)
      requires k in before.retired && before.retired[k].Some? && RetiredSince(before, now, wanted, since, until)
      ensures k in now.retired && now.retired[k] == before.retired[k]
    {
    }

    lemma AllStay(before: Polls, now: Polls, start: Time)
      requires KeptOrStarted(before, now, start)
      ensures forall k | k in before.http :: k in now.http && now.http[k] == before.http[k]
    {
    }

    /** Handover: when a deployment goes and another turns up, the other's poller, if
        it has no stored cursor, begins no later than where the retired one stops,
        whether the other turns up in the reconcile that retires the first, */
    method HandOver(targets: seq<Target>, retired: Key, s: Service)
      requires Valid() && retired in httpPolls && httpPolls[retired].retireAt.None?
      requires PlainIds(targets) && PlainPolls(PollsNow())
      requires !IsListed(targets, httpPolls[retired].serviceID, httpPolls[retired].deploymentID)
      requires Lists(targets, s) && Unread(PollsNow(), s)
      modifies this, httpPolls.Values
      ensures Valid() && retired in httpPolls && httpPolls[retired] == old(httpPolls[retired])
      ensures httpPolls[retired].retireAt.Some? && ReadSince(PollsNow(), s, httpPolls[retired].retireAt.value)
    {
      hide WantedDeploy;
      hide WantedHttp;
      hide ByEnvironment;
      hide KeptOrStarted;
      hide RetiredSince;
      hide PlainPolls;
      hide PlainIds;
      hide Serves;
      hide DeployKept;
      hide HttpOk;
      hide DeployOk;
      hide KeysSpell;
      hide IsListed;
      hide Lists;
      hide Unread;
      hide ReadSince;
      ghost var before := PollsNow();
      ghost var start := NextStart();
      NotAfter();
      ValidSpells();
      Reconcile(Some(targets));
      LetsGo(targets, before, PollsNow(), retired, lastReconcile.value, clock);
      AllStay(before, PollsNow(), start);
      TakesOver(targets, before, PollsNow(), s, start, httpPolls[retired].retireAt.value);
    }

    /** or in the next one. */
    method HandOverLater(first: seq<Target>, second: seq<Target>, retired: Key, s: Service)
      requires Valid() && retired in httpPolls && httpPolls[retired].retireAt.None?
      requires PlainIds(first) && PlainIds(second) && PlainPolls(PollsNow())
      requires !IsListed(first, httpPolls[retired].serviceID, httpPolls[retired].deploymentID)
      requires !IsListed(first, s.id, s.deploymentID) && Lists(second, s) && Unread(PollsNow(), s)
      modifies this, httpPolls.Values
      ensures Valid() && retired in httpPolls && httpPolls[retired] == old(httpPolls[retired])
      ensures httpPolls[retired].retireAt.Some? && ReadSince(PollsNow(), s, httpPolls[retired].retireAt.value)
    {
      hide WantedDeploy;
      hide WantedHttp;
      hide ByEnvironment;
      hide KeptOrStarted;
      hide RetiredSince;
      hide PlainPolls;
      hide PlainIds;
      hide Serves;
      hide DeployKept;
      hide HttpOk;
      hide DeployOk;
      hide KeysSpell;
      hide IsListed;
      hide Lists;
      hide Unread;
      hide ReadSince;
      ghost var before := PollsNow();
      ValidSpells();
      Reconcile(Some(first));
      ghost var mid := PollsNow();
      ghost var start := lastReconcile.value;
      ValidSpells();
      LetsGo(first, before, mid, retired, start, clock);
      AllStay(before, mid, old(NextStart()));
      ServesPlain(first, before, mid, old(NextStart()));
      ListedIsWanted(second, s);
      StaysUnread(first, before, mid, s);
      Reconcile(Some(second));
      StaysRetired(mid, PollsNow(), retired, WantedHttp(second), lastReconcile.value, clock);
      AllStay(mid, PollsNow(), start);
      TakesOver(second, mid, PollsNow(), s, start, httpPolls[retired].retireAt.value);
    }

    lemma ServesPlain(targets: seq<Target>, before: Polls, now: Polls, start: Time)
      requires Serves(targets, before, now, start)
      ensures PlainPolls(now)
    {
    }

    lemma NotAfter()
      requires Valid()
      ensures NextStart() <= clock
    {
    }

    /** The HTTP poller of a wanted service finds a deploy poller to gate on after
        every reconcile; in per-service scope if the service's deploy logs are
        collected at all. */
    lemma WantedHttpHasGate(targets: seq<Target>, t: Target, s: Service)
      requires LastFor(targets, t) && s in t.services && s.hasDomain && s.deploymentID != ""
      requires perService ==>
                 services == {} || (s.id != "" && s.id in services) || (s.name != "" && s.name in services)
      ensures (if perService then t.envID + "|" + s.id else t.envID) in WantedDeploy(ByEnvironment(targets))
    {
      LastCounts(targets, t);
      assert perService ==> WantsDeploy(s) && DeployKey(t.envID, s.id) == t.envID + "|" + s.id;
    }

    /** The bookkeeping of a shutdown: nothing stays registered. */
    method Shutdown()
      requires Valid()
      modifies this
      ensures Valid() && envSubs == {} && httpSubs == {} && deployPollers == map[] && httpPolls == map[]
    {
      envSubs, httpSubs, deployPollers, httpPolls := {}, {}, map[], map[];
    }
  }
}
