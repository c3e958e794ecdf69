/** The log history of one source, as the poller sees it: lines identified by
    timestamp and content hash, and the anchored page query. */
module LogLines {

  /** Nanoseconds. */
  type Time = int

  /** The FNV value that stands for a line's raw content, kept opaque. */
  type Hash = nat

  datatype Line = Line(ts: Time, hash: Hash)

  datatype Option<+T> = None | Some(value: T)

  /** How many lines a full reply has at least. */
  const PAGE_SIZE: nat := 1000

  /** The lines of a page at or after the anchor, in page order. */
  function From(page: seq<Line>, anchor: Time): (r: seq<Line>)
    ensures forall l | l in r :: l in page && l.ts >= anchor
    ensures multiset(r) <= multiset(page)
    ensures (forall l | l in page :: l.ts >= anchor) ==> r == page
  {
    if page == [] then []
    else
      assert page == [page[0]] + page[1..];
      if page[0].ts >= anchor then [page[0]] + From(page[1..], anchor) else From(page[1..], anchor)
  }

  /** What is known of the page made from one reply of raw lines: it holds lines
      of the source; a line at or after the anchor is left out only if the reply
      was full, and only if no line of the page is later than it; a full page has
      a page's worth of lines at or after the anchor. Ties come in any order, and
      a later query may resolve them differently. */
  predicate AnchorContract(source: multiset<Line>, anchor: Time, page: seq<Line>, raw: nat) {
    && multiset(page) <= source && |page| <= raw
    && (forall l | l in source && l.ts >= anchor && source[l] > multiset(page)[l] ::
          raw >= PAGE_SIZE && forall p | p in page :: p.ts <= l.ts)
    && (|page| >= PAGE_SIZE ==> |From(page, anchor)| >= PAGE_SIZE)
  }

  /** Lines at one timestamp. */
  ghost predicate AllAt(crowd: multiset<Line>, t: Time) {
    forall l | l in crowd :: l.ts == t
  }

  /** A timestamp that holds at least a page of lines. */
  ghost predicate Overfull(source: multiset<Line>, t: Time) {
    exists crowd: multiset<Line> :: crowd <= source && |crowd| >= PAGE_SIZE && AllAt(crowd, t)
  }

  /** A timestamp that holds more than a page of lines. */
  ghost predicate Crowded(source: multiset<Line>, t: Time) {
    exists crowd: multiset<Line> :: crowd <= source && |crowd| > PAGE_SIZE && AllAt(crowd, t)
  }

  lemma MoreIsCrowded(source: multiset<Line>, crowd: multiset<Line>, l: Line)
    requires crowd <= source && |crowd| >= PAGE_SIZE && AllAt(crowd, l.ts) && source[l] > crowd[l]
    ensures Crowded(source, l.ts)
  {
    var more := crowd + multiset{l};
    assert more <= source && |more| > PAGE_SIZE && AllAt(more, l.ts);
  }

  /** A page of lines at a timestamp that is not crowded is all there is. */
  lemma PageIsAll(source: multiset<Line>, crowd: multiset<Line>, l: Line)
    requires crowd <= source && |crowd| >= PAGE_SIZE && AllAt(crowd, l.ts) && !Crowded(source, l.ts)
    ensures source[l] == crowd[l]
  {
    if source[l] > crowd[l] {
      MoreIsCrowded(source, crowd, l);
    }
  }

  predicate SortedByTs(page: seq<Line>) {
    forall i, j | 0 <= i < j < |page| :: page[i].ts <= page[j].ts
  }

  /** Stable insertion: after every line that is not later. */
  function InsertByTs(sorted: seq<Line>, l: Line): seq<Line> {
    if sorted == [] || sorted[|sorted| - 1].ts <= l.ts then sorted + [l]
    else InsertByTs(sorted[..|sorted| - 1], l) + [sorted[|sorted| - 1]]
  }

  lemma {:induction false} InsertKeepsLines(sorted: seq<Line>, l: Line)
    ensures multiset(InsertByTs(sorted, l)) == multiset(sorted) + multiset{l}
  {
    if sorted != [] && sorted[|sorted| - 1].ts > l.ts {
      var init, last := sorted[..|sorted| - 1], sorted[|sorted| - 1];
      assert sorted == init + [last];
      InsertKeepsLines(init, l);
    }
  }

  lemma {:induction false} InsertKeepsOrder(sorted: seq<Line>, l: Line)
    requires SortedByTs(sorted)
    ensures SortedByTs(InsertByTs(sorted, l))
  {
    if sorted != [] && sorted[|sorted| - 1].ts > l.ts {
      var init, last := sorted[..|sorted| - 1], sorted[|sorted| - 1];
      InsertKeepsOrder(init, l);
      var r := InsertByTs(init, l);
      forall i | 0 <= i < |r|
        ensures r[i].ts <= last.ts
      {
        InsertKeepsLines(init, l);
        assert r[i] in multiset(r);
        assert r[i] in init || r[i] == l;
      }
    }
  }

  /** The stable sort by timestamp that every page goes through. */
  function SortByTs(page: seq<Line>): seq<Line> {
    if page == [] then []
    else InsertByTs(SortByTs(page[..|page| - 1]), page[|page| - 1])
  }

  lemma {:induction false} SortByTsSorts(page: seq<Line>)
    ensures SortedByTs(SortByTs(page))
    ensures multiset(SortByTs(page)) == multiset(page)
  {
    if page != [] {
      var init, last := page[..|page| - 1], page[|page| - 1];
      assert page == init + [last];
      SortByTsSorts(init);
      InsertKeepsLines(SortByTs(init), last);
      InsertKeepsOrder(SortByTs(init), last);
    }
  }

  /** The lines at one timestamp, in page order. */
  function At(page: seq<Line>, t: Time): seq<Line> {
    if page == [] then []
    else At(page[..|page| - 1], t) + if page[|page| - 1].ts == t then [page[|page| - 1]] else []
  }

  lemma {:induction false} InsertGoesLast(sorted: seq<Line>, l: Line, t: Time)
    requires SortedByTs(sorted)
    ensures At(InsertByTs(sorted, l), t) == At(sorted, t) + if l.ts == t then [l] else []
  {
    var n := |sorted| - 1;
    if sorted == [] || sorted[n].ts <= l.ts {
      assert (sorted + [l])[..|sorted|] == sorted;
    } else {
      InsertGoesLast(sorted[..n], l, t);
      var rest := InsertByTs(sorted[..n], l);
      assert (rest + [sorted[n]])[..|rest|] == rest;
      if l.ts == t {
        assert At(sorted, t) == At(sorted[..n], t);
      }
    }
  }

  /** Sorting keeps the page order of lines with equal timestamps. */
  lemma {:induction false} SortByTsIsStable(page: seq<Line>, t: Time)
    ensures At(SortByTs(page), t) == At(page, t)
  {
    if page != [] {
      var init, last := page[..|page| - 1], page[|page| - 1];
      SortByTsSorts(init);
      SortByTsIsStable(init, t);
      InsertGoesLast(SortByTs(init), last, t);
    }
  }

  /** A full page has a line at or after its anchor. */
  lemma FullPageReachesAnchor(source: multiset<Line>, anchor: Time, page: seq<Line>, raw: nat)
    requires AnchorContract(source, anchor, page, raw) && |page| >= PAGE_SIZE
    ensures exists l :: l in multiset(page) && l.ts >= anchor
  {
    var f := From(page, anchor);
    assert f[0] in f;
    assert f[0] in page;
  }
}

/** The fetch closures: raw entries whose timestamp does not parse are dropped
    before the length of the page is looked at. */
module RawFetch {
  import opened LogLines

  datatype RawLine = RawLine(ts: Option<Time>, hash: Hash)

  function Parsed(raw: seq<RawLine>): (r: seq<Line>)
    ensures |r| <= |raw|
  {
    if raw == [] then []
    else if raw[0].ts.Some? then [Line(raw[0].ts.value, raw[0].hash)] + Parsed(raw[1..])
    else Parsed(raw[1..])
  }

  /** Parsing keeps each entry that has a timestamp, with its timestamp and hash,
      and makes up nothing. */
  lemma {:induction false} ParsedKeepsLines(raw: seq<RawLine>, l: Line)
    ensures multiset(Parsed(raw))[l] == multiset(raw)[RawLine(Some(l.ts), l.hash)]
  {
    if raw != [] {
      assert raw == [raw[0]] + raw[1..];
      ParsedKeepsLines(raw[1..], l);
    }
  }

  /** A reply the service may give for an anchor: "full" is measured on it, not
      on the page made from it. */
  predicate RawContract(source: multiset<Line>, anchor: Time, raw: seq<RawLine>) {
    AnchorContract(source, anchor, Parsed(raw), |raw|)
  }

  function LatestTs(lines: seq<Line>, anchor: Time): (t: Time)
    ensures t >= anchor && (t == anchor || exists l :: l in lines && l.ts == t)
    ensures forall l | l in lines :: l.ts <= t
  {
    if lines == [] then anchor
    else
      var rest := LatestTs(lines[1..], anchor);
      assert forall l | l in lines :: l == lines[0] || l in lines[1..];
      if lines[0].ts > rest then lines[0].ts else rest
  }

  /** Every source line in [anchor, end) is on the page. */
  ghost predicate PageHasAll(source: multiset<Line>, anchor: Time, end: Time, page: seq<Line>) {
    forall l: Line | anchor <= l.ts < end :: multiset(page)[l] == source[l]
  }

  /** A short page ends a round, which then moves the cursor to the horizon. It
      has everything before the horizon, whatever the source holds beyond the
      reply, exactly when the reply itself was short or reaches the horizon. */
  lemma ShortPageHasAll(anchor: Time, horizon: Time, raw: seq<RawLine>)
    requires |Parsed(raw)| < PAGE_SIZE
    ensures (forall source | RawContract(source, anchor, raw) :: PageHasAll(source, anchor, horizon, Parsed(raw)))
            <==> (anchor >= horizon || |raw| < PAGE_SIZE || exists l :: l in Parsed(raw) && l.ts >= horizon)
  {
    var page := Parsed(raw);
    if anchor >= horizon || |raw| < PAGE_SIZE || exists l :: l in page && l.ts >= horizon {
      forall source | RawContract(source, anchor, raw)
        ensures PageHasAll(source, anchor, horizon, page)
      {
        if anchor < horizon { ReachedHorizonHasAll(source, anchor, horizon, raw); }
      }
    } else {
      var source := HiddenBehind(anchor, horizon, raw);
    }
  }

  lemma ReachedHorizonHasAll(source: multiset<Line>, anchor: Time, horizon: Time, raw: seq<RawLine>)
    requires RawContract(source, anchor, raw)
    requires |raw| < PAGE_SIZE || exists l :: l in Parsed(raw) && l.ts >= horizon
    ensures PageHasAll(source, anchor, horizon, Parsed(raw))
  {
    forall l: Line | anchor <= l.ts < horizon
      ensures multiset(Parsed(raw))[l] == source[l]
    {
      assert multiset(Parsed(raw))[l] <= source[l];
    }
  }

  /** Otherwise a line may hide behind the reply: one more at the timestamp the
      page ends with. */
  lemma HiddenBehind(anchor: Time, horizon: Time, raw: seq<RawLine>) returns (source: multiset<Line>)
    requires anchor < horizon && |Parsed(raw)| < PAGE_SIZE <= |raw|
    requires forall l | l in Parsed(raw) :: l.ts < horizon
    ensures RawContract(source, anchor, raw) && !PageHasAll(source, anchor, horizon, Parsed(raw))
  {
    var page := Parsed(raw);
    var hidden := Line(LatestTs(page, anchor), 0);
    source := multiset(page) + multiset{hidden};
    forall l | l in source && l.ts >= anchor && source[l] > multiset(page)[l]
      ensures forall p | p in page :: p.ts <= l.ts
    {
      assert l == hidden;
    }
    assert source[hidden] > multiset(page)[hidden];
  }

  /** The reply that makes the point: full, and nothing in it parses. */
  function Unparsable(n: nat): (r: seq<RawLine>)
    ensures |r| == n && Parsed(r) == []
  {
    if n == 0 then [] else [RawLine(None, 0)] + Unparsable(n - 1)
  }
}
