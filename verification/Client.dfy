/** The GraphQL client's retry loop and endpoint rotation. What the service
    answers is arbitrary. */
module Clients {
  import opened Backoff
  import opened Contexts

  /** Down: the endpoint failed at the transport. Unbuilt: the request could not be
      made for it. blocked: the body is a Cloudflare rate-limit page. */
  datatype Reply = Down | Unbuilt | Answer(status: int, retryAfter: int, blocked: bool)

  /** What came of one endpoint. */
  datatype Trip = Trip(host: nat, reply: Reply)

  datatype Result = Decoded | Refused(status: int) | Exhausted | Cancelled | Limited

  /** The endpoints, and what came of every trip to one. */
  class Network {
    ghost var trips: seq<Trip>

    constructor ()
      ensures trips == []
    {
      trips := [];
    }

    method RoundTrip(host: nat) returns (r: Reply)
      modifies this
      ensures trips == old(trips) + [Trip(host, r)]
    {
      r := *;
      trips := trips + [Trip(host, r)];
    }
  }

  /** The request limiter: refused once a wait for it has failed. */
  class Limiter {
    ghost var refused: bool

    constructor ()
      ensures !refused
    {
      refused := false;
    }

    method Wait() returns (ok: bool)
      modifies this
      ensures refused == (old(refused) || !ok)
    {
      ok := *;
      refused := refused || !ok;
    }
  }

  /** One attempt: endpoints in turn from start on, each but the last down, until
      one of n is not, whose reply counts; if it is down too, all n were tried. */
  ghost predicate Rotates(trips: seq<Trip>, start: nat, n: nat, r: Reply) {
    && 0 < |trips| <= n && trips[|trips| - 1].reply == r
    && (forall i | 0 <= i < |trips| :: trips[i].host == (start + i) % n)
    && (forall i | 0 <= i < |trips| - 1 :: trips[i].reply.Down?)
    && (r.Down? ==> |trips| == n)
  }

  /** No endpoint is tried twice in an attempt, and one that fails for good has
      tried each. */
  lemma RotationIsFair(trips: seq<Trip>, start: nat, n: nat, r: Reply)
    requires Rotates(trips, start, n, r)
    ensures forall i, j | 0 <= i < j < |trips| :: trips[i].host != trips[j].host
    ensures r.Down? ==> forall host | 0 <= host < n :: Trip(host, Down) in trips
  {
    forall i, j | 0 <= i < j < |trips|
      ensures trips[i].host != trips[j].host
    {
      RotationsDiffer(start, i, j, n);
    }
    if r.Down? {
      forall host | 0 <= host < n
        ensures Trip(host, Down) in trips
      {
        var i := RotationReaches(start, host, n);
        assert trips[i] == Trip(host, Down);
      }
    }
  }

  ghost function Flat(rounds: seq<seq<Trip>>): seq<Trip> {
    if rounds == [] then [] else Flat(rounds[..|rounds| - 1]) + rounds[|rounds| - 1]
  }

  lemma NoTrips()
    ensures Flat([]) == []
  {
  }

  lemma FlatGrows(rounds: seq<seq<Trip>>, more: seq<Trip>)
    ensures Flat(rounds + [more]) == Flat(rounds) + more
  {
    assert (rounds + [more])[..|rounds|] == rounds;
  }

  class Client {
    const net: Network
    const limiter: Limiter
    const endpoints: nat
    const maxRetries: int
    const rateLimitFloor: int

    ghost predicate Valid() {
      endpoints > 0 && maxRetries > 0 && rateLimitFloor > 0
    }

    /** Unset options get their defaults. */
    constructor (net: Network, limiter: Limiter, endpoints: nat, maxRetries: int, rateLimitFloor: int)
      ensures Valid() && this.net == net && this.limiter == limiter
      ensures this.endpoints == if endpoints == 0 then 2 else endpoints
      ensures this.maxRetries == if maxRetries <= 0 then 4 else maxRetries
      ensures this.rateLimitFloor == if rateLimitFloor <= 0 then 15_000_000_000 else rateLimitFloor
    {
      this.net, this.limiter := net, limiter;
      this.endpoints := if endpoints == 0 then 2 else endpoints;
      this.maxRetries := if maxRetries <= 0 then 4 else maxRetries;
      this.rateLimitFloor := if rateLimitFloor <= 0 then 15_000_000_000 else rateLimitFloor;
    }

    /** One request: the endpoints in turn, until one answers or the request for it
        cannot be made. */
    method Do(start: nat) returns (r: Reply, ghost tried: seq<Trip>)
      requires Valid()
      modifies net
      ensures net.trips == old(net.trips) + tried && Rotates(tried, start, endpoints, r)
    {
      r, tried := Down, [];
      for i := 0 to endpoints
        invariant |tried| == i && net.trips == old(net.trips) + tried && r.Down?
        invariant forall j | 0 <= j < i :: tried[j] == Trip((start + j) % endpoints, Down)
      {
        r := net.RoundTrip((start + i) % endpoints);
        tried := tried + [Trip((start + i) % endpoints, r)];
        if !r.Down? {
          return;
        }
      }
    }

    /** The pause before a retry. */
    method WaitToRetry(ctx: Context, attempt: nat, asked: int) returns (cancelled: bool, ghost wait: int)
      requires attempt > 0
      modifies ctx
      ensures wait == Max(Capped(CLIENT_BASE, CLIENT_CAP, attempt - 1), asked)
      ensures ctx.sleeps == old(ctx.sleeps) + [wait] && cancelled == ctx.ended
    {
      var length := ClientBackoff(attempt);
      ClientBackoffIsCapped(attempt);
      if asked > length {
        length := asked;
      }
      wait := length;
      cancelled := ctx.Sleep(length);
    }

    /** The retry loop. replies are the answers the request hook is told of; attempt
        number i starts at endpoint i. The context's sleeps are the waits: the
        doubling backoff, or longer if the service asked for it. */
    method Execute(ctx: Context)
      returns (result: Result, replies: seq<Reply>, ghost rounds: seq<seq<Trip>>, ghost waits: seq<int>)
      requires Valid()
      modifies net, limiter, ctx
      ensures |replies| <= maxRetries + 1
      ensures |rounds| == |replies| && net.trips == old(net.trips) + Flat(rounds)
      ensures forall i | 0 <= i < |replies| :: Rotates(rounds[i], i, endpoints, replies[i])
      ensures forall i | 0 <= i < |replies| - 1 && replies[i].Answer? ::
                replies[i].blocked || replies[i].status == 429 || replies[i].status >= 500
      ensures match result
              case Decoded =>
                replies != [] && var r := replies[|replies| - 1]; r.Answer? && r.status == 200 && !r.blocked
              case Refused(status) =>
                replies != [] && var r := replies[|replies| - 1];
                r.Answer? && r.status == status && !r.blocked && status != 200 && status != 429 && status < 500
              case Exhausted =>
                |replies| == maxRetries + 1 && var r := replies[|replies| - 1];
                r.Answer? ==> r.blocked || r.status == 429 || r.status >= 500
              case Cancelled => ctx.ended
              case Limited => limiter.refused
      ensures ctx.sleeps == old(ctx.sleeps) + waits && |replies| - 1 <= |waits| <= |replies|
      ensures forall i | 0 <= i < |waits| ::
                var r, backoff := replies[i], Capped(CLIENT_BASE, CLIENT_CAP, i);
                waits[i] == if !r.Answer? || !(r.blocked || r.status == 429) then backoff
                            else if r.blocked && r.retryAfter == 0 then Max(backoff, rateLimitFloor)
                            else Max(backoff, r.retryAfter)
    {
      hide Rotates;
      hide Flat;
      hide Capped;
      result, replies, rounds, waits := Exhausted, [], [], [];
      NoTrips();
      PositiveBackoff();
      var asked := 0;
      var attempt := 0;
      while attempt <= maxRetries
        invariant 0 <= attempt && |rounds| == |replies| == attempt <= maxRetries + 1
        invariant net.trips == old(net.trips) + Flat(rounds)
        invariant forall i | 0 <= i < attempt :: Rotates(rounds[i], i, endpoints, replies[i])
        invariant forall i | 0 <= i < attempt :: TryAgain(replies[i])
        invariant attempt > 0 ==> asked == Asked(replies[attempt - 1], rateLimitFloor)
        invariant ctx.sleeps == old(ctx.sleeps) + waits && |waits| == if attempt == 0 then 0 else attempt - 1
        invariant forall i | 0 <= i < |waits| ::
                    waits[i] == Max(Capped(CLIENT_BASE, CLIENT_CAP, i), Asked(replies[i], rateLimitFloor))
        invariant result == Exhausted
        decreases maxRetries + 1 - attempt
      {
        if attempt > 0 {
          ghost var wait;
          var cancelled;
          cancelled, wait := WaitToRetry(ctx, attempt, asked);
          waits := waits + [wait];
          if cancelled {
            result := Cancelled;
            break;
          }
        }
        var admitted := limiter.Wait();
        if !admitted {
          result := Limited;
          break;
        }
        ghost var tried;
        var last;
        last, tried := Do(attempt);
        FlatGrows(rounds, tried);
        replies, rounds := replies + [last], rounds + [tried];
        asked := 0;
        if last.Answer? {
          if last.status == 200 && !last.blocked {
            result := Decoded;
            break;
          }
          if last.status == 429 || last.blocked {
            asked := if last.retryAfter == 0 && last.blocked then rateLimitFloor else last.retryAfter;
          } else if last.status < 500 {
            result := Refused(last.status);
            break;
          }
        }
        attempt := attempt + 1;
      }
    }
  }

  predicate TryAgain(r: Reply) {
    r.Answer? ==> r.blocked || r.status == 429 || r.status >= 500
  }

  /** The least wait that a reply asks for. */
  function Asked(r: Reply, floor: int): int {
    if !r.Answer? || !(r.blocked || r.status == 429) then 0
    else if r.retryAfter == 0 && r.blocked then floor else r.retryAfter
  }

  function Max(a: int, b: int): int {
    if a > b then a else b
  }

  lemma PositiveBackoff()
    ensures forall k: nat :: Capped(CLIENT_BASE, CLIENT_CAP, k) > 0
  {
  }

  lemma LargeMultiple(d: int, n: int)
    requires d != 0 && n > 0
    ensures d * n >= n || d * n <= -n
  {
  }

  lemma RotationsDiffer(start: nat, i: nat, j: nat, n: nat)
    requires i < j < n
    ensures (start + i) % n != (start + j) % n
  {
    var q, p := (start + i) / n, (start + j) / n;
    assert start + i == q * n + (start + i) % n;
    assert start + j == p * n + (start + j) % n;
    assert (p - q) * n == p * n - q * n;
    if p != q { LargeMultiple(p - q, n); }
  }

  /** A full turn reaches every endpoint. */
  lemma RotationReaches(start: nat, host: nat, n: nat) returns (i: nat)
    requires host < n
    ensures i < n && (start + i) % n == host
  {
    var at := start % n;
    assert start == start / n * n + at;
    i := if host >= at then host - at else host + n - at;
    var turns := if host >= at then start / n else start / n + 1;
    assert start + i == turns * n + host;
    Remainder(start + i, turns, host, n);
  }

  lemma Remainder(x: nat, q: nat, r: nat, n: nat)
    requires r < n && x == q * n + r
    ensures x % n == r
  {
    var p := x / n;
    assert x == p * n + x % n;
    assert (p - q) * n == p * n - q * n == r - x % n;
    if p != q { LargeMultiple(p - q, n); }
  }
}
