/**
 * The interactive loop: the cursor, the current sort type and the running
 * flag, updated once per snapshot and key press. Key input arrives as
 * abstract events; a kill request is reported as the pid it targets.
 */
module MainLoop {
  import opened Options
  import opened Snapshot

  /** The key events the loop reacts to; `KeyF(n)` is function key Fn. */
  datatype Key = KeyUp | KeyDown | KeyF(n: int) | OtherKey(code: int)

  /**
   * The up and down keys on a snapshot of `count` rows: up moves to the row
   * above unless on the first, down to the row below unless on the last;
   * every other key leaves the cursor alone.
   */
  function MoveCursor(cursor: int, count: int, key: Key): (c: int)
    ensures 0 <= cursor < count ==> 0 <= c < count
    ensures c != cursor ==> key == KeyUp || key == KeyDown
  {
    match key
    case KeyUp => if cursor > 0 then cursor - 1 else cursor
    case KeyDown => if cursor < count - 1 then cursor + 1 else cursor
    case _ => cursor
  }

  /**
   * The cursor clamp as the loop writes it: a cursor at or past the end
   * moves to the last row, count - 1, which is -1 for an empty snapshot;
   * the clamp never lifts a negative cursor back to 0 (only a KEY_DOWN on a
   * non-empty snapshot does).
   */
  function ClampAsWritten(cursor: int, count: int): (c: int)
    ensures c <= cursor
  {
    if cursor >= count then count - 1 else cursor
  }

  /** One refresh's cursor update as the loop writes it: the clamp as written, then the key. */
  function NextCursorAsWritten(cursor: int, count: int, key: Key): int {
    MoveCursor(ClampAsWritten(cursor, count), count, key)
  }

  /**
   * An empty snapshot leaves the cursor at -1 whatever key is pressed on it,
   * and the clamp of a following snapshot of three rows keeps it there, so
   * F9 would read the record before the array.
   */
  lemma AsWrittenCursorEscapesSnapshot(key: Key)
    ensures var afterEmpty := NextCursorAsWritten(0, 0, key);
            var afterThree := ClampAsWritten(afterEmpty, 3);
            afterEmpty == -1 && afterThree == -1 && !(0 <= afterThree < 3)
  {
  }

  /**
   * The clamp the loop evidently intends: a cursor past the end moves to the
   * last row, and the cursor never goes below 0, so it indexes a row whenever
   * the snapshot has one.
   */
  function Clamp(cursor: int, count: int): (c: int)
    ensures 0 <= c
    ensures count > 0 ==> c < count
    ensures 0 <= cursor < count ==> c == cursor
    ensures 0 < count <= cursor ==> c == count - 1
  {
    var c := if cursor >= count then count - 1 else cursor;
    if c < 0 then 0 else c
  }

  /** One refresh's cursor update with the corrected clamp: clamp to the snapshot, then the key. */
  function NextCursor(cursor: int, count: int, key: Key): (c: int)
    ensures 0 <= c
    ensures count > 0 ==> c < count
  {
    MoveCursor(Clamp(cursor, count), count, key)
  }

  /** F5, F6, F7 and F8, the keys that select a sort order. */
  predicate IsSortKey(key: Key) {
    key.KeyF? && 5 <= key.n <= 8
  }

  /**
   * The sort type after `key`: F5, F6, F7 and F8 select pid, name, CPU and
   * memory order; every other key keeps the current one.
   */
  function NextSort(sortType: int, key: Key): (s: int)
    ensures SortByPid <= sortType <= SortByCpu ==> SortByPid <= s <= SortByCpu
    ensures !IsSortKey(key) ==> s == sortType
  {
    if key == KeyF(5) then SortByPid
    else if key == KeyF(6) then SortByName
    else if key == KeyF(7) then SortByCpu
    else if key == KeyF(8) then SortByMem
    else sortType
  }

  /** The sort type after the keys `keys`, pressed in order from `sortType`. */
  function SortAfter(sortType: int, keys: seq<Key>): int
    decreases |keys|
  {
    if keys == [] then sortType
    else NextSort(SortAfter(sortType, keys[..|keys| - 1]), keys[|keys| - 1])
  }

  /** One more key on top of a prefix of `keys`. */
  lemma SortAfterExtend(sortType: int, keys: seq<Key>, n: nat)
    requires n < |keys|
    ensures SortAfter(sortType, keys[..n + 1]) == NextSort(SortAfter(sortType, keys[..n]), keys[n])
  {
    assert keys[..n + 1][..n] == keys[..n];
  }

  /** Keys other than F5..F8 never change the sort type, however many refreshes they span. */
  lemma {:induction false} SortAfterWithoutSortKeys(sortType: int, keys: seq<Key>)
    requires forall i :: 0 <= i < |keys| ==> !IsSortKey(keys[i])
    ensures SortAfter(sortType, keys) == sortType
  {
    if keys != [] {
      SortAfterWithoutSortKeys(sortType, keys[..|keys| - 1]);
    }
  }

  /** The sort type in force is the one the last F5..F8 key selected. */
  lemma {:induction false} SortAfterLastSortKey(sortType: int, keys: seq<Key>, k: nat)
    requires k < |keys| && IsSortKey(keys[k])
    requires forall i :: k < i < |keys| ==> !IsSortKey(keys[i])
    ensures SortAfter(sortType, keys) == NextSort(SortByPid, keys[k])
    decreases |keys|
  {
    if k < |keys| - 1 {
      SortAfterLastSortKey(sortType, keys[..|keys| - 1], k);
    }
  }

  /** The records the snapshot of one registry state holds; none when the registry cannot be opened. */
  ghost function SnapshotRecords(cycle: Option<seq<DirEntry>>): seq<ProcessInfo> {
    match cycle
    case None => []
    case Some(entries) => Admit(entries, MaxProcesses).records
  }

  /**
   * `pid` is the pid of the row the cursor selects in the snapshot of
   * `records` sorted by `sortType`: the record at the clamped cursor in some
   * arrangement the sort may produce (qsort is not stable, so records that
   * compare equal may come in any order).
   */
  ghost predicate Selected(pid: int, records: seq<ProcessInfo>, sortType: int, cursor: int, cmps: Comparators) {
    exists s: seq<ProcessInfo> ::
      |s| == |records| && Arranged(s, records, sortType, cmps) &&
      0 <= Clamp(cursor, |s|) < |s| && pid == s[Clamp(cursor, |s|)].pid
  }

  /** The selected row is one of the admitted records, so a kill request targets a listed process. */
  lemma SelectedIsAdmitted(pid: int, records: seq<ProcessInfo>, sortType: int, cursor: int, cmps: Comparators)
    requires Selected(pid, records, sortType, cursor, cmps)
    ensures exists p :: p in records && p.pid == pid
  {
    var s: seq<ProcessInfo> :| |s| == |records| && Arranged(s, records, sortType, cmps) &&
                               0 <= Clamp(cursor, |s|) < |s| && pid == s[Clamp(cursor, |s|)].pid;
    var p := s[Clamp(cursor, |s|)];
    assert p in multiset(s);
    assert p in records;
  }

  /**
   * How the loop answers `key` on the snapshot of `cycle`, with `sortType`
   * and `cursor` in force before the key: a kill request exactly when the key
   * is F9 and the snapshot holds a record, and then for the pid of the
   * selected row.
   */
  ghost predicate Answered(key: Key, cycle: Option<seq<DirEntry>>, sortType: int, cursor: int,
                           cmps: Comparators, request: Option<int>) {
    (request.Some? <==> key == KeyF(9) && |SnapshotRecords(cycle)| > 0) &&
    (request.Some? ==> Selected(request.value, SnapshotRecords(cycle), sortType, cursor, cmps))
  }

  /**
   * What a run has produced after the first `c` registry states: key `i` was
   * pressed on the snapshot of registry state `shown[i]`, those states are
   * taken in order, every state before `c` that could be opened showed a
   * snapshot, and `requests[i]` is how the loop answered key `i` with the
   * sort type and cursor the earlier keys left, in a run that began at
   * `sort0` and `cursor0`.
   */
  ghost predicate Trace(cycles: seq<Option<seq<DirEntry>>>, keys: seq<Key>, c: nat,
                        requests: seq<Option<int>>, shown: seq<nat>,
                        sort0: int, cursor0: int, cmps: Comparators) {
    |requests| == |shown| <= |keys| &&
    Visits(cycles, c, shown) &&
    Answers(cycles, keys, requests, shown, sort0, cursor0, cmps)
  }

  /**
   * The registry states `shown`, taken in order, are exactly those among the
   * first `c` that could be opened.
   */
  ghost predicate Visits(cycles: seq<Option<seq<DirEntry>>>, c: nat, shown: seq<nat>) {
    c <= |cycles| &&
    (forall i, j :: 0 <= i < j < |shown| ==> shown[i] < shown[j]) &&
    (forall i :: 0 <= i < |shown| ==> shown[i] < c && cycles[shown[i]].Some?) &&
    (forall j :: 0 <= j < c && cycles[j].Some? ==> j in shown)
  }

  /** Registry state `c` is visited next: shown when it can be opened, passed over when not. */
  lemma VisitsNext(cycles: seq<Option<seq<DirEntry>>>, c: nat, shown: seq<nat>)
    requires Visits(cycles, c, shown) && c < |cycles|
    ensures cycles[c].Some? ==> Visits(cycles, c + 1, shown + [c])
    ensures cycles[c].None? ==> Visits(cycles, c + 1, shown)
  {
  }

  /**
   * `requests[i]` is how the loop answered key `i` on the snapshot of
   * registry state `shown[i]`, with the sort type and cursor the keys before
   * it left.
   */
  ghost predicate Answers(cycles: seq<Option<seq<DirEntry>>>, keys: seq<Key>,
                          requests: seq<Option<int>>, shown: seq<nat>,
                          sort0: int, cursor0: int, cmps: Comparators)
    requires |requests| == |shown| <= |keys|
  {
    forall i :: 0 <= i < |requests| && shown[i] < |cycles| ==>
      Answered(keys[i], cycles[shown[i]], SortAfter(sort0, keys[..i]),
               CursorAfter(cursor0, cycles, shown[..i], keys), cmps, requests[i])
  }

  /** The answer to one more key, with the state the earlier keys left, extends the answers. */
  lemma AnswersExtend(cycles: seq<Option<seq<DirEntry>>>, keys: seq<Key>,
                      requests: seq<Option<int>>, shown: seq<nat>,
                      sort0: int, cursor0: int, cmps: Comparators, c: nat, kill: Option<int>)
    requires |requests| == |shown| < |keys| && c < |cycles|
    requires Answers(cycles, keys, requests, shown, sort0, cursor0, cmps)
    requires Answered(keys[|requests|], cycles[c], SortAfter(sort0, keys[..|requests|]),
                      CursorAfter(cursor0, cycles, shown, keys), cmps, kill)
    ensures Answers(cycles, keys, requests + [kill], shown + [c], sort0, cursor0, cmps)
  {
    var requests', shown' := requests + [kill], shown + [c];
    forall i | 0 <= i < |requests'| && shown'[i] < |cycles|
      ensures Answered(keys[i], cycles[shown'[i]], SortAfter(sort0, keys[..i]),
                       CursorAfter(cursor0, cycles, shown'[..i], keys), cmps, requests'[i])
    {
      assert shown'[..i] == shown[..i];
      if i == |requests| {
        assert shown[..i] == shown;
      }
    }
  }

  /** A registry state that shows a snapshot extends the trace by the next key's answer. */
  lemma TraceTaken(cycles: seq<Option<seq<DirEntry>>>, keys: seq<Key>, c: nat,
                   requests: seq<Option<int>>, shown: seq<nat>,
                   sort0: int, cursor0: int, cmps: Comparators, kill: Option<int>)
    requires Trace(cycles, keys, c, requests, shown, sort0, cursor0, cmps)
    requires c < |cycles| && cycles[c].Some? && |requests| < |keys|
    requires Answered(keys[|requests|], cycles[c], SortAfter(sort0, keys[..|requests|]),
                      CursorAfter(cursor0, cycles, shown, keys), cmps, kill)
    ensures Trace(cycles, keys, c + 1, requests + [kill], shown + [c], sort0, cursor0, cmps)
  {
    VisitsNext(cycles, c, shown);
    AnswersExtend(cycles, keys, requests, shown, sort0, cursor0, cmps, c, kill);
  }

  /** A registry state that cannot be opened extends the trace by nothing. */
  lemma TraceSkipped(cycles: seq<Option<seq<DirEntry>>>, keys: seq<Key>, c: nat,
                     requests: seq<Option<int>>, shown: seq<nat>,
                     sort0: int, cursor0: int, cmps: Comparators)
    requires Trace(cycles, keys, c, requests, shown, sort0, cursor0, cmps)
    requires c < |cycles| && cycles[c].None?
    ensures Trace(cycles, keys, c + 1, requests, shown, sort0, cursor0, cmps)
  {
    VisitsNext(cycles, c, shown);
  }

  /** The number of records the snapshot of registry state `j` holds (none for a state not in `cycles`). */
  ghost function ShownCount(cycles: seq<Option<seq<DirEntry>>>, j: nat): nat {
    if j < |cycles| then |SnapshotRecords(cycles[j])| else 0
  }

  /**
   * The cursor after keys `keys[i]` were pressed, in order, on the snapshots
   * of registry states `shown[i]`, starting from `cursor`.
   */
  ghost function CursorAfter(cursor: int, cycles: seq<Option<seq<DirEntry>>>, shown: seq<nat>, keys: seq<Key>): int
    requires |shown| <= |keys|
    decreases |shown|
  {
    if shown == [] then cursor
    else
      var n := |shown| - 1;
      NextCursor(CursorAfter(cursor, cycles, shown[..n], keys), ShownCount(cycles, shown[n]), keys[n])
  }

  /** One more snapshot shown, with the next key pressed on it. */
  lemma CursorAfterExtend(cursor: int, cycles: seq<Option<seq<DirEntry>>>, shown: seq<nat>, keys: seq<Key>, c: nat)
    requires |shown| < |keys| && c < |cycles|
    ensures CursorAfter(cursor, cycles, shown + [c], keys) ==
            NextCursor(CursorAfter(cursor, cycles, shown, keys), |SnapshotRecords(cycles[c])|, keys[|shown|])
  {
  }

  /** None of the first `n` keys is F10, the key that stops the loop. */
  ghost predicate NoQuit(keys: seq<Key>, n: nat)
    requires n <= |keys|
  {
    forall i :: 0 <= i < n ==> keys[i] != KeyF(10)
  }

  /**
   * The loop's state `running`, `sortType`, `cursor` after keys were pressed
   * on the snapshots of registry states `shown`, in a run that began at
   * `running0`, `sort0`, `cursor0`: the state is valid, running was cleared
   * exactly by a consumed F10 (then the last key consumed), and the sort type
   * and cursor are what the consumed keys made of them on their snapshots.
   */
  ghost predicate StateOf(cycles: seq<Option<seq<DirEntry>>>, keys: seq<Key>, shown: seq<nat>,
                          running0: bool, sort0: int, cursor0: int,
                          running: bool, sortType: int, cursor: int)
  {
    0 <= cursor && SortByPid <= sortType <= SortByCpu &&
    |shown| <= |keys| &&
    running == (running0 && NoQuit(keys, |shown|)) &&
    (running0 && !running ==> keys[|shown| - 1] == KeyF(10)) &&
    sortType == SortAfter(sort0, keys[..|shown|]) &&
    cursor == CursorAfter(cursor0, cycles, shown, keys)
  }

  /** A key pressed on the snapshot of registry state `c` moves the state on by that key. */
  lemma StateTaken(cycles: seq<Option<seq<DirEntry>>>, keys: seq<Key>, shown: seq<nat>,
                   running0: bool, sort0: int, cursor0: int,
                   running: bool, sortType: int, cursor: int,
                   c: nat, running': bool, sortType': int, cursor': int)
    requires StateOf(cycles, keys, shown, running0, sort0, cursor0, running, sortType, cursor)
    requires running && c < |cycles| && |shown| < |keys|
    requires running' == (keys[|shown|] != KeyF(10))
    requires sortType' == NextSort(sortType, keys[|shown|])
    requires cursor' == NextCursor(cursor, |SnapshotRecords(cycles[c])|, keys[|shown|])
    ensures StateOf(cycles, keys, shown + [c], running0, sort0, cursor0, running', sortType', cursor')
  {
    NoQuitExtend(keys, |shown|);
    SortAfterExtend(sort0, keys, |shown|);
    CursorAfterExtend(cursor0, cycles, shown, keys, c);
  }

  /** One more key is not F10 exactly when none of the keys so far nor it is. */
  lemma NoQuitExtend(keys: seq<Key>, n: nat)
    requires n < |keys|
    ensures NoQuit(keys, n + 1) == (NoQuit(keys, n) && keys[n] != KeyF(10))
  {
  }

  /** The loop's own state: main's `running`, `cursor` and `sort_type`. */
  class Session {
    var running: bool
    var cursor: int
    var sortType: int

    /** The cursor is never negative and the sort type is one of the four keys. */
    ghost predicate Valid()
      reads this
    {
      0 <= cursor && SortByPid <= sortType <= SortByCpu
    }

    /** The loop starts running, on the first row, sorted by pid. */
    constructor ()
      ensures Valid() && running && cursor == 0 && sortType == SortByPid
    {
      running := true;
      cursor := 0;
      sortType := SortByPid;
    }

    /**
     * One pass of the loop body once a snapshot of `count` records is in
     * hand: clamp the cursor, then react to one key. Returns the pid a kill
     * request is sent to, if any.
     */
    method Step(processes: array<ProcessInfo>, count: int, key: Key) returns (kill: Option<int>)
      requires Valid() && 0 <= count <= processes.Length
      modifies this
      ensures Valid()
      ensures count > 0 ==> cursor < count
      ensures running == (old(running) && key != KeyF(10))
      ensures cursor == NextCursor(old(cursor), count, key)
      ensures sortType == NextSort(old(sortType), key)
      ensures key == KeyF(5) ==> sortType == SortByPid
      ensures key == KeyF(6) ==> sortType == SortByName
      ensures key == KeyF(7) ==> sortType == SortByCpu
      ensures key == KeyF(8) ==> sortType == SortByMem
      ensures !IsSortKey(key) ==> sortType == old(sortType)
      ensures kill == if key == KeyF(9) && count > 0 then Some(processes[Clamp(old(cursor), count)].pid) else None
    {
      cursor := Clamp(cursor, count);
      kill := None;
      match key {
        case KeyUp =>
          if cursor > 0 { cursor := cursor - 1; }
        case KeyDown =>
          if cursor < count - 1 { cursor := cursor + 1; }
        case KeyF(n) =>
          if n == 5 {
            sortType := SortByPid;
          } else if n == 6 {
            sortType := SortByName;
          } else if n == 7 {
            sortType := SortByCpu;
          } else if n == 8 {
            sortType := SortByMem;
          } else if n == 9 {
            if count > 0 { kill := Some(processes[cursor].pid); }
          } else if n == 10 {
            running := false;
          }
        case OtherKey(_) =>
      }
    }

    /**
     * The loop of main: while running, take a snapshot of the next registry
     * state; when one is produced, consume the next key and act on it. A
     * registry that cannot be opened consumes no key. The run also ends when
     * the given registry states or keys are used up.
     *
     * `requests[i]` is the kill request (if any) key `keys[i]` produced, the
     * ghost `shown[i]` is the registry state whose snapshot that key was
     * pressed on, and `visited` is how many registry states were taken.
     */
    method Run(cycles: seq<Option<seq<DirEntry>>>, keys: seq<Key>, cmps: Comparators)
      returns (requests: seq<Option<int>>, ghost shown: seq<nat>, visited: nat)
      requires Valid() && ValidComparators(cmps)
      modifies this
      ensures Valid()
      ensures visited <= |cycles| && Trace(cycles, keys, visited, requests, shown, old(sortType), old(cursor), cmps)
      ensures StateOf(cycles, keys, shown, old(running), old(sortType), old(cursor), running, sortType, cursor)
      ensures visited < |cycles| ==> !running || |requests| == |keys|
    {
      requests, shown := [], [];
      visited := 0;
      ghost var running0, sort0, cursor0 := running, sortType, cursor;
      while running && visited < |cycles| && |requests| < |keys|
        invariant Trace(cycles, keys, visited, requests, shown, sort0, cursor0, cmps)
        invariant StateOf(cycles, keys, shown, running0, sort0, cursor0, running, sortType, cursor)
        decreases |cycles| - visited
      {
        requests, shown := Turn(cycles, keys, visited, requests, shown, running0, sort0, cursor0, cmps);
        visited := visited + 1;
      }
    }

    /** One turn of the loop of Run: registry state `c`, and the next key if it yields a snapshot. */
    method Turn(cycles: seq<Option<seq<DirEntry>>>, keys: seq<Key>, c: nat,
                requests: seq<Option<int>>, ghost shown: seq<nat>,
                ghost running0: bool, ghost sort0: int, ghost cursor0: int, cmps: Comparators)
      returns (requests': seq<Option<int>>, ghost shown': seq<nat>)
      requires Trace(cycles, keys, c, requests, shown, sort0, cursor0, cmps)
      requires StateOf(cycles, keys, shown, running0, sort0, cursor0, running, sortType, cursor)
      requires running && c < |cycles| && |requests| < |keys| && ValidComparators(cmps)
      modifies this
      ensures Trace(cycles, keys, c + 1, requests', shown', sort0, cursor0, cmps)
      ensures StateOf(cycles, keys, shown', running0, sort0, cursor0, running, sortType, cursor)
    {
      ghost var running1, sort1, cursor1 := running, sortType, cursor;
      var taken, kill := Cycle(cycles[c], keys[|requests|], cmps);
      if taken {
        TraceTaken(cycles, keys, c, requests, shown, sort0, cursor0, cmps, kill);
        StateTaken(cycles, keys, shown, running0, sort0, cursor0, running1, sort1, cursor1,
                   c, running, sortType, cursor);
        requests', shown' := requests + [kill], shown + [c];
      } else {
        TraceSkipped(cycles, keys, c, requests, shown, sort0, cursor0, cmps);
        requests', shown' := requests, shown;
      }
    }

    /**
     * One turn of the loop of main on one registry state: take the snapshot;
     * if there is one, act on `key` (`taken` says whether the key was
     * consumed). A kill request names the pid of the row the clamped cursor
     * selects in that snapshot, sorted by the sort type in force before the key.
     */
    method Cycle(registry: Option<seq<DirEntry>>, key: Key, cmps: Comparators) returns (taken: bool, kill: Option<int>)
      requires Valid() && ValidComparators(cmps)
      modifies this
      ensures Valid()
      ensures taken == registry.Some?
      ensures !taken ==> kill == None && running == old(running) && cursor == old(cursor) && sortType == old(sortType)
      ensures taken ==> running == (old(running) && key != KeyF(10))
      ensures taken ==> cursor == NextCursor(old(cursor), |SnapshotRecords(registry)|, key)
      ensures taken ==> sortType == NextSort(old(sortType), key)
      ensures taken ==> Answered(key, registry, old(sortType), old(cursor), cmps, kill)
    {
      var processes, count, read := GetProcesses(registry, sortType, cmps);
      taken := processes != null;
      kill := None;
      if taken {
        var before := cursor;
        kill := Step(processes, count, key);
        if kill.Some? {
          assert kill.value == processes[..count][Clamp(before, count)].pid;
        }
      }
    }
  }
}
