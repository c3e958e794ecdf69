/** The mutable cursor a poller works on. */
module CursorCells {
  import opened LogLines
  import opened PollSystem

  /** A delivered line recorded on a cursor value. */
  function Advanced(c: Cursor, ts: Time, hash: Hash): Cursor {
    if ts > c.ts then Cursor(ts, multiset{hash}) else Cursor(c.ts, c.seen + multiset{hash})
  }

  class CursorCell {
    var ts: Time
    var seen: multiset<Hash>

    function View(): Cursor
      reads this
    {
      Cursor(ts, seen)
    }

    lemma ViewFields()
      ensures View().ts == ts && View().seen == seen
    {
    }

    constructor (c: Cursor)
      ensures View() == c
    {
      ts, seen := c.ts, c.seen;
    }

    /** Moves the cursor to a line that has been sent, or counts it there. */
    method Advance(at: Time, hash: Hash)
      modifies this
      ensures View() == Advanced(old(View()), at, hash)
    {
      if at > ts {
        ts, seen := at, multiset{hash};
        return;
      }
      seen := seen[hash := seen[hash] + 1];
    }

    method Clone() returns (c: CursorCell)
      ensures fresh(c) && c.View() == View()
    {
      c := new CursorCell(Cursor(ts, seen));
    }

    method Assign(c: Cursor)
      modifies this
      ensures View() == c
    {
      ts, seen := c.ts, c.seen;
    }
  }

  // ----- walking a sorted page

  /** What is left of the cursor's counts after the page so far. */
  ghost predicate Remaining(cur: Cursor, page: multiset<Line>, seen: multiset<Hash>) {
    forall h :: seen[h] == if page[Line(cur.ts, h)] < cur.seen[h] then cur.seen[h] - page[Line(cur.ts, h)] else 0
  }

  /** The state of the walk after the lines in page. */
  ghost predicate Walked(cur: Cursor, horizon: Time, page: multiset<Line>, sc: Scan, seen: multiset<Hash>) {
    Scanned(cur, horizon, page, sc) && Remaining(cur, page, seen) && !sc.beyond
  }

  /** A line older than the cursor changes nothing. */
  lemma WalkIgnores(cur: Cursor, horizon: Time, page: multiset<Line>, sc: Scan, seen: multiset<Hash>, e: Line)
    requires Walked(cur, horizon, page, sc, seen) && e.ts < cur.ts && e.ts <= horizon
    ensures Walked(cur, horizon, page + multiset{e}, sc, seen)
  {
    ScanPasses(cur, horizon, page, sc, e);
  }

  /** A line already delivered at the cursor's timestamp uses up one count. */
  lemma WalkSkips(cur: Cursor, horizon: Time, page: multiset<Line>, sc: Scan, seen: multiset<Hash>, e: Line)
    requires Walked(cur, horizon, page, sc, seen) && e.ts == cur.ts <= horizon && seen[e.hash] > 0
    ensures Walked(cur, horizon, page + multiset{e}, sc, seen[e.hash := seen[e.hash] - 1])
  {
    assert e == Line(cur.ts, e.hash);
    ScanPasses(cur, horizon, page, sc, e);
  }

  lemma WalkSends(cur: Cursor, horizon: Time, page: multiset<Line>, sc: Scan, seen: multiset<Hash>, e: Line)
    requires Walked(cur, horizon, page, sc, seen) && cur.ts <= e.ts <= horizon
    requires e.ts == cur.ts ==> seen[e.hash] == 0
    requires forall l | l in page :: l.ts <= e.ts
    ensures Walked(cur, horizon, page + multiset{e},
                   Scan(sc.sent + multiset{e}, Advanced(sc.next, e.ts, e.hash), false), seen)
  {
    assert e == Line(e.ts, e.hash);
    ScanSends(cur, horizon, page, sc, e);
  }

  /** Nothing to do: the line is older than the cursor, or one of those already
      delivered at the cursor's timestamp. */
  lemma ScanPasses(cur: Cursor, horizon: Time, page: multiset<Line>, sc: Scan, e: Line)
    requires Scanned(cur, horizon, page, sc) && !sc.beyond && e.ts <= horizon
    requires e.ts < cur.ts || (e.ts == cur.ts && page[e] < cur.seen[e.hash])
    ensures Scanned(cur, horizon, page + multiset{e}, sc)
  {
    var page' := page + multiset{e};
    forall l
      ensures sc.sent[l] == Owed(cur, horizon, page', l)
    {
      assert sc.sent[l] == Owed(cur, horizon, page, l);
    }
    if sc.next.ts > cur.ts {
      var l :| l in page && l.ts == sc.next.ts;
      assert l in page';
      forall h
        ensures sc.next.seen[h] == page'[Line(sc.next.ts, h)]
      {
        assert Line(sc.next.ts, h) != e;
      }
    }
  }

  /** The line goes to the sinks and onto the next cursor. */
  lemma ScanSends(cur: Cursor, horizon: Time, page: multiset<Line>, sc: Scan, e: Line)
    requires Scanned(cur, horizon, page, sc) && !sc.beyond && cur.ts <= e.ts <= horizon
    requires e.ts == cur.ts ==> page[e] >= cur.seen[e.hash]
    requires forall l | l in page :: l.ts <= e.ts
    ensures Scanned(cur, horizon, page + multiset{e},
                    Scan(sc.sent + multiset{e}, Advanced(sc.next, e.ts, e.hash), false))
  {
    var page', sent', next' := page + multiset{e}, sc.sent + multiset{e}, Advanced(sc.next, e.ts, e.hash);
    forall l
      ensures sent'[l] == Owed(cur, horizon, page', l)
    {
      assert sc.sent[l] == Owed(cur, horizon, page, l);
    }
    assert sc.next.ts <= e.ts;
    assert e in page' && next'.ts == e.ts;
    forall h
      ensures next'.ts == cur.ts ==> next'.seen[h] == cur.seen[h] + sent'[Line(cur.ts, h)]
      ensures next'.ts > cur.ts ==> next'.seen[h] == page'[Line(next'.ts, h)]
    {
      assert Line(e.ts, h) == e <==> h == e.hash;
      if e.ts > sc.next.ts {
        assert Line(e.ts, h) in page ==> e.ts <= sc.next.ts;
      }
    }
  }

  /** The first line past the horizon ends the walk: what follows is later still. */
  lemma WalkStops(cur: Cursor, horizon: Time, page: multiset<Line>, sc: Scan, seen: multiset<Hash>,
                  rest: multiset<Line>)
    requires Walked(cur, horizon, page, sc, seen)
    requires |rest| > 0 && forall l | l in rest :: l.ts > horizon
    ensures Scanned(cur, horizon, page + rest, sc.(beyond := true))
  {
  }
}
