/** The cursor store: every source's cursor in memory, and a file that is
    replaced as a whole. */
module CursorStores {
  import opened LogLines
  import opened PollSystem

  type Key = string

  function Lookup(m: map<Key, Cursor>, k: Key): Option<Cursor> {
    if k in m then Some(m[k]) else None
  }

  function Pruned(m: map<Key, Cursor>, now: Time, pruneAfter: Time): map<Key, Cursor> {
    map k | k in m && !TooOld(m[k], now, pruneAfter) :: m[k]
  }

  class FileCursorStore {
    /** False for an in-memory store. */
    const persistent: bool
    const pruneAfter: Time
    var cursors: map<Key, Cursor>
    /** What a new process would read back. */
    var file: map<Key, Cursor>
    /** What memory held after each change, oldest first. */
    ghost var history: seq<map<Key, Cursor>>
    /** How often the file was tried to be replaced. */
    ghost var rewrites: nat

    /** A crash at any moment finds a complete earlier version. */
    ghost predicate Valid()
      reads this
    {
      cursors in history && (persistent ==> file in history)
    }

    /** Opens the store: a persistent one starts from the file's contents. */
    constructor (persistent: bool, pruneAfter: Time, contents: map<Key, Cursor>)
      ensures Valid() && this.persistent == persistent && this.pruneAfter == pruneAfter && file == contents
      ensures cursors == if persistent then contents else map[]
    {
      this.persistent, this.pruneAfter := persistent, pruneAfter;
      file := contents;
      cursors := if persistent then contents else map[];
      history := [if persistent then contents else map[]];
      rewrites := 0;
    }

    method Load(key: Key) returns (c: Option<Cursor>)
      ensures c == Lookup(cursors, key)
    {
      c := if key in cursors then Some(cursors[key]) else None;
    }

    /** Replaces the file in one step that may fail and then changes nothing. */
    method Replace() returns (ok: bool)
      requires Valid()
      modifies this`file, this`rewrites
      ensures rewrites == old(rewrites) + 1 && file == if ok then cursors else old(file)
    {
      rewrites := rewrites + 1;
      ok := *;
      if ok {
        file := cursors;
      }
    }

    /** A persistent store rewrites its file, an in-memory one has nothing to do. */
    method Flush() returns (ok: bool)
      requires Valid()
      modifies this`file, this`rewrites
      ensures Valid() && file == (if persistent && ok then cursors else old(file)) && (!persistent ==> ok)
      ensures rewrites == old(rewrites) + if persistent then 1 else 0
    {
      if !persistent {
        return true;
      }
      ok := Replace();
    }

    /** Drops every cursor that is too old. */
    method PruneBefore(now: Time)
      requires pruneAfter > 0
      modifies this`cursors
      ensures cursors == Pruned(old(cursors), now, pruneAfter)
    {
      ghost var all := cursors;
      var cutoff := now - pruneAfter;
      var left := cursors.Keys;
      while left != {}
        invariant left <= all.Keys && cursors.Keys <= all.Keys && left <= cursors.Keys
        invariant forall k | k in all :: k in cursors <==> k in left || !TooOld(all[k], now, pruneAfter)
        invariant forall k | k in cursors :: cursors[k] == all[k]
        decreases left
      {
        var k :| k in left;
        if cursors[k].ts < cutoff {
          cursors := cursors - {k};
        }
        left := left - {k};
      }
    }

    method Save(key: Key, c: Cursor, now: Time) returns (ok: bool)
      requires Valid()
      modifies this
      ensures Valid() && old(history) <= history
      ensures if pruneAfter <= 0 || c.ts >= now - pruneAfter then key in cursors && cursors[key] == c
              else key !in cursors
      ensures forall k | k in old(cursors) && k != key ::
                if pruneAfter <= 0 || old(cursors)[k].ts >= now - pruneAfter
                then k in cursors && cursors[k] == old(cursors)[k] else k !in cursors
      ensures forall k | k in cursors :: k == key || k in old(cursors)
      ensures cursors == Pruned(old(cursors)[key := c], now, pruneAfter)
      ensures file == if persistent && ok then cursors else old(file)
      ensures rewrites == old(rewrites) + (if persistent then 1 else 0) && (!persistent ==> ok)
    {
      cursors := cursors[key := c];
      if pruneAfter > 0 {
        PruneBefore(now);
      }
      history := history + [cursors];
      ok := Flush();
    }

    method Delete(key: Key) returns (ok: bool)
      requires Valid()
      modifies this
      ensures Valid() && old(history) <= history && cursors == old(cursors) - {key}
      ensures file == if persistent && ok && key in old(cursors) then cursors else old(file)
      ensures rewrites == old(rewrites) + (if persistent && key in old(cursors) then 1 else 0)
      ensures !persistent || key !in old(cursors) ==> ok
    {
      if key !in cursors {
        assert cursors - {key} == cursors;
        return true;
      }
      cursors := cursors - {key};
      history := history + [cursors];
      ok := Flush();
    }
  }

  /** What a save leaves under any key: the saved cursor is read back exactly when
      it is not itself old enough to be pruned by its own save, and so is what was
      stored under another key. */
  lemma LoadAfterSave(before: map<Key, Cursor>, key: Key, c: Cursor, now: Time, pruneAfter: Time, k: Key)
    ensures var stored := if k == key then Some(c) else Lookup(before, k);
            Lookup(Pruned(before[key := c], now, pruneAfter), k)
            == if stored.Some? && (pruneAfter <= 0 || stored.value.ts >= now - pruneAfter) then stored else None
  {
  }

  // ----- one source's view of the store

  /** An operation on the store as one source sees it: its own save or delete, or
      anything done for another source. */
  datatype KeyOp = Saved(c: Cursor) | Deleted | Others

  /** What the operation may do to the source's stored cursor and to its entry in
      the file. */
  predicate KeyStep(mem: Option<Cursor>, file: Option<Cursor>, mem': Option<Cursor>, file': Option<Cursor>, op: KeyOp,
                    now: Time, pruneAfter: Time) {
    && (file' == file || file' == mem')
    && match op
       case Saved(c) => mem' == Kept(c, now, pruneAfter)
       case Deleted => mem' == None
       case Others => mem' == mem || (mem' == None && mem.Some? && TooOld(mem.value, now, pruneAfter))
  }

  /** Saving one source's cursor is such a step for every source. */
  lemma SaveIsKeyStep(cursors: map<Key, Cursor>, file: map<Key, Cursor>, key: Key, c: Cursor, now: Time,
                      pruneAfter: Time, flushed: bool, k: Key)
    ensures var cursors' := Pruned(cursors[key := c], now, pruneAfter);
            KeyStep(Lookup(cursors, k), Lookup(file, k), Lookup(cursors', k),
                Lookup(if flushed then cursors' else file, k),
                    if k == key then Saved(c) else Others, now, pruneAfter)
  {
  }

  /** So is deleting one. */
  lemma DeleteIsKeyStep(cursors: map<Key, Cursor>, file: map<Key, Cursor>, key: Key, now: Time, pruneAfter: Time,
                        flushed: bool, k: Key)
    ensures var cursors' := cursors - {key};
            KeyStep(Lookup(cursors, k), Lookup(file, k), Lookup(cursors', k),
                Lookup(if flushed then cursors' else file, k),
                    if k == key then Deleted else Others, now, pruneAfter)
  {
  }

  /** And each such step is made of steps of the source's transition system, at
      any moment; its own save between pages or rounds. */
  lemma KeyStepIsModelled(cfg: Config, s: State, mem': Option<Cursor>, file': Option<Cursor>, op: KeyOp)
    returns (s': State)
    requires Reachable(cfg, s)
    requires KeyStep(CursorOf(s.mem), CursorOf(s.disk), mem', file', op, s.clock, cfg.pruneAfter)
    requires op.Saved? ==> op.c == s.live.cur && (s.phase.Idle? || s.phase.Paging?)
    ensures Reachable(cfg, s') && s' == s.(mem := s'.mem, disk := s'.disk)
    ensures CursorOf(s'.mem) == mem' && CursorOf(s'.disk) == file'
  {
    hide Reachable;
    var s1 := s;
    if op.Saved? {
      s1 := s.(mem := if TooOld(s.live.cur, s.clock, cfg.pruneAfter) then None else Some(s.live));
      StepReachable(cfg, s, Save(false), s1);
    } else if op.Deleted? {
      s1 := s.(mem := None);
      StepReachable(cfg, s, Delete(false), s1);
    } else if mem' != CursorOf(s.mem) {
      s1 := s.(mem := None);
      StepReachable(cfg, s, Prune, s1);
    }
    s' := s1;
    if file' != CursorOf(s.disk) {
      s' := s1.(disk := s1.mem);
      StepReachable(cfg, s1, Flush, s');
    }
  }
}
