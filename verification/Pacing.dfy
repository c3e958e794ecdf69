/** How long a poller waits, between the pages of a round and between rounds. */
module Pacing {
  import opened Backoff

  const MAX_THROTTLE: real := 20.0
  const BUDGET_LOW_WATER: real := 0.2
  /** The wait between pages of one round while throttled, before it is stretched. */
  const CATCH_UP_PAGE_WAIT: int := 1_000_000_000

  /** Stretch factor for waits, from the request budget; either value is
      negative while the service has not reported it. Below a fifth of the budget
      waits grow so that the budget left would last as if it were that fifth, and
      from a hundredth on no further. */
  function BudgetThrottle(remaining: int, limit: int): (f: real)
    ensures 1.0 <= f <= MAX_THROTTLE
    ensures f > 1.0 <==> 0 <= 5 * remaining < limit
    ensures 0 <= 5 * remaining < limit <= 100 * remaining ==> f * (5 * remaining) as real == limit as real
    ensures 0 <= 100 * remaining <= limit && 0 < limit ==> f == MAX_THROTTLE
  {
    if remaining < 0 || limit <= 0 then 1.0
    else
      var frac := remaining as real / limit as real;
      LowWater(remaining, limit);
      if frac >= BUDGET_LOW_WATER then 1.0
      else if remaining == 0 then MAX_THROTTLE
      else
        StretchAboveOne(frac);
        StretchMeetsLimit(remaining, limit);
        if BUDGET_LOW_WATER / frac < MAX_THROTTLE then BUDGET_LOW_WATER / frac else MAX_THROTTLE
  }

  lemma LowWater(remaining: int, limit: int)
    requires 0 <= remaining && 0 < limit
    ensures remaining as real / limit as real >= BUDGET_LOW_WATER <==> 5 * remaining >= limit
    ensures remaining > 0 ==> remaining as real / limit as real > 0.0
  {
  }

  lemma StretchAboveOne(frac: real)
    requires 0.0 < frac < BUDGET_LOW_WATER
    ensures BUDGET_LOW_WATER / frac > 1.0
  {
  }

  lemma StretchMeetsLimit(remaining: int, limit: int)
    requires 0 < remaining && 0 < limit
    ensures var f := BUDGET_LOW_WATER / (remaining as real / limit as real);
            && f * (5 * remaining) as real == limit as real
            && (f < MAX_THROTTLE <==> limit < 100 * remaining)
  {
  }

  /** More budget left never means longer waits. */
  lemma ThrottleFallsWithBudget(less: int, more: int, limit: int)
    requires 0 <= less <= more
    ensures BudgetThrottle(less, limit) >= BudgetThrottle(more, limit)
  {
    if 0 < less && 5 * more < limit {
      var l, m, n := less as real, more as real, limit as real;
      LowWater(less, limit);
      LowWater(more, limit);
      FractionsOrdered(l, m, n);
      QuotientsOrdered(l / n, m / n);
    }
  }

  lemma FractionsOrdered(a: real, b: real, n: real)
    requires a <= b && n > 0.0
    ensures a / n <= b / n
  {
  }

  lemma QuotientsOrdered(a: real, b: real)
    requires 0.0 < a <= b
    ensures BUDGET_LOW_WATER / a >= BUDGET_LOW_WATER / b
  {
  }

  function Mul(a: real, b: real): real {
    a * b
  }

  lemma Scaled(a: real, x: real, y: real)
    requires a > 0.0
    ensures x <= y ==> Mul(a, x) <= Mul(a, y)
    ensures x < y ==> Mul(a, x) < Mul(a, y)
  {
  }

  function Times(wait: int, f: real): real {
    wait as real * f
  }

  /** A wait stretched by a throttle factor and truncated to a whole number. */
  function Stretched(wait: int, f: real): (r: int)
    requires 0 < wait && 1.0 <= f <= MAX_THROTTLE
    ensures wait <= r <= 20 * wait
    ensures r as real <= Times(wait, f) < (r + 1) as real
  {
    StretchRange(wait, f);
    RoundedDown(wait, Times(wait, f))
  }

  lemma StretchRange(wait: int, f: real)
    requires wait > 0 && 1.0 <= f <= 20.0
    ensures wait as real <= Times(wait, f) <= 20.0 * wait as real
  {
    ProductRange(wait as real, f);
  }

  lemma ProductRange(w: real, f: real)
    requires w > 0.0 && 1.0 <= f <= 20.0
    ensures w <= w * f <= 20.0 * w
  {
    assert w * f - w == w * (f - 1.0) && 20.0 * w - w * f == w * (20.0 - f);
  }

  function RoundedDown(wait: int, x: real): (r: int)
    requires wait as real <= x <= 20.0 * wait as real
    ensures wait <= r <= 20 * wait
    ensures r as real <= x < (r + 1) as real
  {
    x.Floor
  }

  /** A request budget as last reported; negative while unreported. */
  datatype Budget = Budget(remaining: int, limit: int)

  /** A wait between rounds: its length, the budget read before it, whether the
      source was being drained, and whether the round before it handed lines out
      and met no error. */
  datatype Wait = Wait(length: int, budget: Budget, retiring: bool, productive: bool)

  function ThrottleOf(b: Budget): (f: real)
    ensures 1.0 <= f <= MAX_THROTTLE
  {
    BudgetThrottle(b.remaining, b.limit)
  }

  /** Less than a fifth of the budget is left. */
  predicate Low(b: Budget) {
    0 <= 5 * b.remaining < b.limit
  }

  /** length is wait times the factor for a low budget, rounded down, in whole
      numbers: limit over five times what is left, and 20 at most. */
  predicate Lasts(length: int, wait: int, b: Budget) {
    if 100 * b.remaining <= b.limit then length == 20 * wait
    else 5 * b.remaining * length <= wait * b.limit < 5 * b.remaining * (length + 1)
  }

  /** A low budget, and no other, stretches a wait; by that much. */
  lemma StretchedLasts(wait: int, b: Budget)
    requires 0 < wait
    ensures Low(b) <==> ThrottleOf(b) > 1.0
    ensures Low(b) ==> Lasts(Stretched(wait, ThrottleOf(b)), wait, b)
  {
    if Low(b) {
      var f, five := ThrottleOf(b), 5 * b.remaining;
      var length := Stretched(wait, f);
      hide BudgetThrottle;
      hide Times;
      if 100 * b.remaining <= b.limit {
        assert f == 20.0;
      } else {
        assert f * five as real == b.limit as real;
        RoundedQuotient(wait, f, five, b.limit, length);
      }
    }
  }

  lemma RoundedQuotient(wait: int, f: real, five: int, limit: int, length: int)
    requires five > 0 && f * five as real == limit as real
    requires length as real <= Times(wait, f) < (length + 1) as real
    ensures five * length <= wait * limit < five * (length + 1)
  {
    Regrouped(five as real, wait, f, limit as real);
    ProductsOrdered(five, length, wait, limit, Times(wait, f));
  }

  lemma Regrouped(a: real, wait: int, f: real, limit: real)
    requires f * a == limit
    ensures Mul(a, Times(wait, f)) == Mul(wait as real, limit)
  {
    assert a * (wait as real * f) == wait as real * (f * a);
  }

  lemma ProductsOrdered(five: int, length: int, wait: int, limit: int, x: real)
    requires five > 0 && length as real <= x < (length + 1) as real
    requires Mul(five as real, x) == Mul(wait as real, limit as real)
    ensures MulInt(five, length) <= MulInt(wait, limit) < MulInt(five, length + 1)
  {
    hide Mul;
    hide MulInt;
    Scaled(five as real, length as real, x);
    Scaled(five as real, x, (length + 1) as real);
    Product(five, length);
    Product(five, length + 1);
    Product(wait, limit);
  }

  function MulInt(a: int, b: int): int {
    a * b
  }

  lemma Product(a: int, b: int)
    ensures Mul(a as real, b as real) == MulInt(a, b) as real
  {
  }

  // ----- between the pages of a round

  /** What a round does around its queries: a query with the budget last read
      before it, and a wait with the budget it is for. */
  datatype Step = Query(budget: Budget) | Rest(length: int, budget: Budget)

  /** The first query of a round goes out at once; before every other one there is
      a wait of a second, stretched, exactly if the budget is low. */
  ghost predicate Rested(steps: seq<Step>) {
    && steps != [] && steps[0].Query?
    && forall i | 0 < i < |steps| :: MayFollow(steps[i - 1], steps[i])
  }

  predicate MayFollow(before: Step, step: Step) {
    match step
    case Query(b) => if Low(b) then before.Rest? && before.budget == b else before.Query?
    case Rest(length, b) => before.Query? && Low(b) && Lasts(length, 1_000_000_000, b)
  }

  lemma RestedNext(steps: seq<Step>, next: Step)
    requires Rested(steps) && MayFollow(steps[|steps| - 1], next)
    ensures Rested(steps + [next])
  {
  }

  // ----- between rounds

  /** The wait after a round, before the budget and retirement are looked at:
      short after a productive round, doubling up to pollMax otherwise. */
  function BackedOff(interval: int, productive: bool, pollMin: int, pollMax: int): (r: int)
    requires 0 < pollMin <= pollMax && pollMin <= interval
    ensures pollMin <= r <= pollMax
  {
    if productive then pollMin else if interval * 2 < pollMax then interval * 2 else pollMax
  }

  /** The same once the budget has been looked at. */
  function Throttled(wait: int, budget: Budget, pollMax: int): (r: int)
    requires 0 < wait <= pollMax
    ensures if ThrottleOf(budget) > 1.0 then pollMax <= r <= 20 * pollMax else r == wait
  {
    var f := ThrottleOf(budget);
    if f > 1.0 then Stretched(pollMax, f) else wait
  }

  /** How long w lasts if it follows a wait of length prev. */
  predicate Follows(prev: int, w: Wait, pollMin: int, pollMax: int)
    requires 0 < pollMin <= pollMax && pollMin <= prev
  {
    w.length == if w.retiring then pollMin
                else Throttled(BackedOff(prev, w.productive, pollMin, pollMax), w.budget, pollMax)
  }

  /** The bounds every wait keeps. */
  predicate Paced(w: Wait, pollMin: int, pollMax: int) {
    && pollMin <= w.length <= 20 * pollMax
    && (!Low(w.budget) ==> w.length <= pollMax)
    && (Low(w.budget) && !w.retiring ==> pollMax <= w.length)
    && (w.retiring ==> w.length == pollMin)
  }

  lemma FollowsIsPaced(prev: int, w: Wait, pollMin: int, pollMax: int)
    requires 0 < pollMin <= pollMax && pollMin <= prev && Follows(prev, w, pollMin, pollMax)
    ensures Paced(w, pollMin, pollMax)
  {
    hide BudgetThrottle;
    hide ThrottleOf;
    hide BackedOff;
    hide Throttled;
    hide Low;
    StretchedLasts(pollMax, w.budget);
  }

  function LastLength(waits: seq<Wait>, pollMin: int): int {
    if waits == [] then pollMin else waits[|waits| - 1].length
  }

  /** The waits of one poller, each as it may follow the one before, the first as
      after pollMin. */
  predicate WellPaced(waits: seq<Wait>, pollMin: int, pollMax: int)
    requires 0 < pollMin <= pollMax
  {
    waits == []
    || (var earlier := waits[..|waits| - 1];
        && WellPaced(earlier, pollMin, pollMax) && pollMin <= LastLength(earlier, pollMin)
        && Follows(LastLength(earlier, pollMin), waits[|waits| - 1], pollMin, pollMax))
  }

  lemma NoWaits(pollMin: int, pollMax: int)
    requires 0 < pollMin <= pollMax
    ensures WellPaced([], pollMin, pollMax)
  {
  }

  lemma PacingGoesOn(waits: seq<Wait>, longer: seq<Wait>, pollMin: int, pollMax: int)
    requires 0 < pollMin <= pollMax && WellPaced(waits, pollMin, pollMax)
    requires |longer| == |waits| + 1 && waits <= longer && pollMin <= LastLength(waits, pollMin)
    requires Follows(LastLength(waits, pollMin), longer[|waits|], pollMin, pollMax)
    ensures WellPaced(longer, pollMin, pollMax) && LastLength(longer, pollMin) == longer[|waits|].length
  {
    hide Follows;
    assert longer[..|longer| - 1] == waits;
  }

  /** The length of the wait that wait number i follows. */
  function PrecedingLength(waits: seq<Wait>, i: nat, pollMin: int): int
    requires i <= |waits|
  {
    if i == 0 then pollMin else waits[i - 1].length
  }

  lemma {:induction false} WaitAt(waits: seq<Wait>, pollMin: int, pollMax: int, i: nat)
    requires 0 < pollMin <= pollMax && WellPaced(waits, pollMin, pollMax) && i < |waits|
    ensures Paced(waits[i], pollMin, pollMax)
    ensures pollMin <= PrecedingLength(waits, i, pollMin)
    ensures Follows(PrecedingLength(waits, i, pollMin), waits[i], pollMin, pollMax)
    decreases |waits|
  {
    var earlier := waits[..|waits| - 1];
    FollowsIsPaced(LastLength(earlier, pollMin), waits[|waits| - 1], pollMin, pollMax);
    hide Follows;
    hide Paced;
    if i < |waits| - 1 {
      WaitAt(earlier, pollMin, pollMax, i);
    }
  }

  /** The waits of a poller, one by one, in whole numbers. */
  lemma WaitLengths(waits: seq<Wait>, pollMin: int, pollMax: int, i: nat)
    requires 0 < pollMin <= pollMax && WellPaced(waits, pollMin, pollMax) && i < |waits|
    ensures var w, before := waits[i], PrecedingLength(waits, i, pollMin);
            if w.retiring then w.length == pollMin
            else if Low(w.budget) then Lasts(w.length, pollMax, w.budget)
            else if w.productive then w.length == pollMin
            else w.length == if before * 2 < pollMax then before * 2 else pollMax
  {
    hide WellPaced;
    hide BudgetThrottle;
    hide ThrottleOf;
    hide Stretched;
    hide Low;
    hide Lasts;
    hide Paced;
    WaitAt(waits, pollMin, pollMax, i);
    StretchedLasts(pollMax, waits[i].budget);
  }

  predicate Quiet(w: Wait) {
    !Low(w.budget) && !w.retiring && !w.productive
  }

  /** Over k idle or failing rounds in a row the waits double, up to pollMax. */
  lemma {:induction false} IdleWaitsDouble(waits: seq<Wait>, pollMin: int, pollMax: int, i: nat, k: nat)
    requires 0 < pollMin <= pollMax && WellPaced(waits, pollMin, pollMax)
    requires i + k < |waits| && waits[i].length <= pollMax
    requires forall j | i < j <= i + k :: Quiet(waits[j])
    ensures waits[i + k].length == Capped(waits[i].length, pollMax, k)
  {
    if k == 0 {
      assert Pow2(0) == 1;
    } else {
      IdleWaitsDouble(waits, pollMin, pollMax, i, k - 1);
      WaitAt(waits, pollMin, pollMax, i);
      CappedDoubles(waits[i].length, pollMax, k - 1);
      hide Capped;
      assert Quiet(waits[i + k]);
      WaitLengths(waits, pollMin, pollMax, i + k);
    }
  }
}
