/**
 * The snapshot builder: one pass over the process registry that admits at
 * most MaxProcesses records into a preallocated array, then orders the
 * admitted prefix by the selected sort key.
 */
module Snapshot {
  import opened Options
  import opened CStrings
  import opened Status
  import opened Sorting

  /** Capacity of the record array and the bound on records per snapshot. */
  const MaxProcesses := 100

  const SortByPid := 0
  const SortByName := 1
  const SortByMem := 2
  const SortByCpu := 3

  /** One process at snapshot time. `cpuUsage` is the sampled percentage, kept opaque. */
  datatype ProcessInfo = ProcessInfo(pid: int, name: string, memUsage: string, cpuUsage: real)

  /** Placeholder content of an array slot no record has been written to. */
  const Unfilled := ProcessInfo(0, "", "", 0.0)

  /**
   * One registry entry as readdir hands it out: its name, the lines of its
   * status file (None when the file cannot be opened), and the CPU figure the
   * sampler reports for it.
   */
  datatype DirEntry = DirEntry(name: string, status: Option<seq<string>>, cpuUsage: real)

  /** An entry yields a record: a digit-only name whose status file opens. */
  predicate Admissible(e: DirEntry) {
    AllDigits(e.name) && e.status.Some?
  }

  /** The record built for an admissible entry. */
  function Record(e: DirEntry): ProcessInfo
    requires Admissible(e)
  {
    var info := ReadStatus(e.status.value);
    ProcessInfo(DecimalValue(e.name), info.name, info.mem, e.cpuUsage)
  }

  /** The records a pass admits, and how many entries it read from the registry. */
  datatype Admission = Admission(records: seq<ProcessInfo>, read: nat)

  /**
   * The admission loop with `room` free slots: while there is room, read the
   * next entry and admit it if it is admissible.
   */
  function Admit(entries: seq<DirEntry>, room: nat): (r: Admission)
    ensures |r.records| <= room && |r.records| <= r.read <= |entries|
    ensures r.read < |entries| ==> |r.records| == room
    decreases |entries|
  {
    if room == 0 || entries == [] then Admission([], 0)
    else if Admissible(entries[0]) then
      var rest := Admit(entries[1..], room - 1);
      Admission([Record(entries[0])] + rest.records, rest.read + 1)
    else
      var rest := Admit(entries[1..], room);
      Admission(rest.records, rest.read + 1)
  }

  /** Reference definition: the records of every admissible entry, in registry order, with no bound. */
  function Candidates(entries: seq<DirEntry>): seq<ProcessInfo> {
    if entries == [] then []
    else if Admissible(entries[0]) then [Record(entries[0])] + Candidates(entries[1..])
    else Candidates(entries[1..])
  }

  lemma {:induction false} CandidatesAppend(a: seq<DirEntry>, b: seq<DirEntry>)
    ensures Candidates(a + b) == Candidates(a) + Candidates(b)
  {
    if a != [] {
      assert (a + b)[1..] == a[1..] + b;
      CandidatesAppend(a[1..], b);
    } else {
      assert a + b == b;
    }
  }

  /**
   * The bounded pass keeps exactly the first `room` candidates, in registry
   * order, or all of them when there are fewer.
   */
  lemma {:induction false} AdmitTakesFirstCandidates(entries: seq<DirEntry>, room: nat)
    ensures var c := Candidates(entries);
            Admit(entries, room).records == c[..if room < |c| then room else |c|]
  {
    if room != 0 && entries != [] {
      if Admissible(entries[0]) {
        AdmitTakesFirstCandidates(entries[1..], room - 1);
      } else {
        AdmitTakesFirstCandidates(entries[1..], room);
      }
    }
  }

  /** An entry whose status file fails to open contributes no record and takes no slot. */
  lemma SkippedEntryContributesNothing(before: seq<DirEntry>, e: DirEntry, after: seq<DirEntry>, room: nat)
    requires e.status.None?
    ensures Admit(before + [e] + after, room).records == Admit(before + after, room).records
  {
    CandidatesAppend(before + [e], after);
    CandidatesAppend(before, [e]);
    CandidatesAppend(before, after);
    assert Candidates([e]) == [];
    AdmitTakesFirstCandidates(before + [e] + after, room);
    AdmitTakesFirstCandidates(before + after, room);
  }

  /** A pass that fills every slot stops right after the entry that filled the last one. */
  lemma {:induction false} FullPassStopsAtLastAdmitted(entries: seq<DirEntry>, room: nat)
    requires 0 < room == |Admit(entries, room).records|
    ensures var r := Admit(entries, room);
            0 < r.read && Admissible(entries[r.read - 1]) && r.records[room - 1] == Record(entries[r.read - 1])
  {
    if Admissible(entries[0]) {
      if room > 1 {
        FullPassStopsAtLastAdmitted(entries[1..], room - 1);
      }
    } else {
      FullPassStopsAtLastAdmitted(entries[1..], room);
    }
  }

  /** One turn of the admission loop, at entry `i` with `room` free slots. */
  lemma AdmitStep(entries: seq<DirEntry>, i: nat, room: nat)
    requires i < |entries| && 0 < room
    ensures var here := Admit(entries[i..], room);
            if Admissible(entries[i]) then
              var rest := Admit(entries[i + 1..], room - 1);
              here == Admission([Record(entries[i])] + rest.records, rest.read + 1)
            else
              var rest := Admit(entries[i + 1..], room);
              here == Admission(rest.records, rest.read + 1)
  {
  }

  /** The process ids the registry lists under admissible entries. */
  ghost function ListedPids(entries: seq<DirEntry>): set<int> {
    set e | e in entries && Admissible(e) :: DecimalValue(e.name)
  }

  /** Every admitted record is the record of an admissible entry, so its pid is one the registry lists. */
  lemma {:induction false} AdmittedFromEntries(entries: seq<DirEntry>, room: nat)
    ensures forall p :: p in Admit(entries, room).records ==>
              exists e :: e in entries && Admissible(e) && p == Record(e) && p.pid in ListedPids(entries)
  {
    if room != 0 && entries != [] {
      var room' := if Admissible(entries[0]) then room - 1 else room;
      AdmittedFromEntries(entries[1..], room');
      forall p | p in Admit(entries, room).records
        ensures exists e :: e in entries && Admissible(e) && p == Record(e) && p.pid in ListedPids(entries)
      {
        if p !in Admit(entries[1..], room').records {
          assert p == Record(entries[0]);
          assert entries[0] in entries;
        } else {
          var e :| e in entries[1..] && Admissible(e) && p == Record(e) && p.pid in ListedPids(entries[1..]);
          assert e in entries;
        }
      }
    }
  }

  /** An empty registry yields an empty snapshot after reading nothing. */
  lemma EmptyRegistryEmptySnapshot(room: nat)
    ensures Admit([], room) == Admission([], 0)
  {
  }

  /** The four comparators the sort keys dispatch to; their key semantics are not modelled. */
  datatype Comparators = Comparators(byPid: Cmp<ProcessInfo>, byName: Cmp<ProcessInfo>,
                                     byMem: Cmp<ProcessInfo>, byCpu: Cmp<ProcessInfo>)

  ghost predicate ValidComparators(cmps: Comparators) {
    TotalPreorder(cmps.byPid) && TotalPreorder(cmps.byName) &&
    TotalPreorder(cmps.byMem) && TotalPreorder(cmps.byCpu)
  }

  /** The comparator a sort type selects; a sort type outside 0..3 selects none. */
  function Comparator(cmps: Comparators, sortType: int): Option<Cmp<ProcessInfo>> {
    if sortType == SortByPid then Some(cmps.byPid)
    else if sortType == SortByName then Some(cmps.byName)
    else if sortType == SortByMem then Some(cmps.byMem)
    else if sortType == SortByCpu then Some(cmps.byCpu)
    else None
  }

  /**
   * `s` is how the snapshot may hold the admitted records: a permutation of
   * them ordered by the selected comparator, or exactly them when no
   * comparator is selected.
   */
  ghost predicate Arranged(s: seq<ProcessInfo>, admitted: seq<ProcessInfo>, sortType: int, cmps: Comparators) {
    multiset(s) == multiset(admitted) &&
    match Comparator(cmps, sortType)
    case Some(c) => SortedPairwise(s, c)
    case None => s == admitted
  }

  /** qsort over the first `n` slots: they become a sorted permutation of themselves, the rest stay. */
  method QSort(a: array<ProcessInfo>, n: int, c: Cmp<ProcessInfo>)
    requires 0 <= n <= a.Length && TotalPreorder(c)
    modifies a
    ensures a[n..] == old(a[n..])
    ensures multiset(a[..n]) == multiset(old(a[..n]))
    ensures SortedPairwise(a[..n], c)
  {
    var sorted := SortBy(a[..n], c);
    SortedIsPairwise(sorted, c);
    for i := 0 to n
      invariant a[..i] == sorted[..i]
      invariant a[i..] == old(a[i..])
    {
      a[i] := sorted[i];
    }
    assert a[..n] == sorted;
  }

  /**
   * get_processes: allocates the record array, returns null with count 0 if
   * the registry cannot be opened, otherwise admits records while there is
   * room and then sorts the admitted prefix by `sortType`. The ghost `read`
   * is the number of entries taken from the registry.
   */
  method GetProcesses(registry: Option<seq<DirEntry>>, sortType: int, cmps: Comparators)
    returns (processes: array?<ProcessInfo>, count: int, ghost read: nat)
    requires ValidComparators(cmps)
    ensures registry.None? ==> processes == null && count == 0
    ensures registry.Some? ==>
              var pass := Admit(registry.value, MaxProcesses);
              processes != null && fresh(processes) && processes.Length == MaxProcesses &&
              count == |pass.records| && read == pass.read &&
              Arranged(processes[..count], pass.records, sortType, cmps)
  {
    count := 0;
    processes := new ProcessInfo[MaxProcesses](_ => Unfilled);
    if registry.None? {
      return null, count, 0;
    }
    count, read := AdmitInto(processes, registry.value);
    SortProcesses(processes, count, sortType, cmps);
  }

  /**
   * The admission loop of get_processes: reads entries while fewer than
   * MaxProcesses records are held, writing a record into the next free slot
   * for each digit-named entry whose status file opens.
   */
  method AdmitInto(processes: array<ProcessInfo>, entries: seq<DirEntry>) returns (count: int, ghost read: nat)
    requires processes.Length == MaxProcesses
    modifies processes
    ensures var pass := Admit(entries, MaxProcesses);
            count == |pass.records| && read == pass.read && processes[..count] == pass.records
    ensures processes[count..] == old(processes[count..])
  {
    count := 0;
    ghost var pass := Admit(entries, MaxProcesses);
    var i := 0;
    assert entries[i..] == entries;
    while count < MaxProcesses && i < |entries|
      invariant 0 <= count <= MaxProcesses && i <= |entries|
      invariant processes.Length == MaxProcesses
      invariant processes[..count] + Admit(entries[i..], MaxProcesses - count).records == pass.records
      invariant i + Admit(entries[i..], MaxProcesses - count).read == pass.read
      invariant processes[count..] == old(processes[count..])
      decreases |entries| - i
    {
      count := AdmitNext(processes, entries, i, count);
      i := i + 1;
    }
    read := i;
  }

  /**
   * One turn of the admission loop on entry `i`: if its name is all digits
   * and its status file opens, its record goes into slot `count` and the
   * count grows by one; otherwise nothing is written. Either way the pass
   * over the remaining entries continues from entry `i + 1`.
   */
  method AdmitNext(processes: array<ProcessInfo>, entries: seq<DirEntry>, i: nat, count: nat) returns (count': nat)
    requires i < |entries| && count < processes.Length == MaxProcesses
    modifies processes
    ensures count <= count' <= count + 1
    ensures var here := Admit(entries[i..], MaxProcesses - count);
            var next := Admit(entries[i + 1..], MaxProcesses - count');
            processes[..count'] + next.records == old(processes[..count]) + here.records &&
            here.read == next.read + 1
    ensures processes[count'..] == old(processes[count'..])
  {
    ghost var done := processes[..count];
    var entry := entries[i];
    AdmitStep(entries, i, MaxProcesses - count);
    var isDir := IsProcessDir(entry.name);
    count' := count;
    if isDir && entry.status.Some? {
      var info := ReadProcessInfo(entry);
      processes[count] := info;
      count' := count + 1;
      ghost var rest := Admit(entries[i + 1..], MaxProcesses - count');
      assert processes[..count'] == done + [info];
      assert done + [info] + rest.records == done + ([info] + rest.records);
    }
  }

  /**
   * The record get_processes fills in for a digit-named entry whose status
   * file opened: pid from the name, then the `Name:` and `VmSize:` lookups on
   * one stream, then the CPU sample.
   */
  method ReadProcessInfo(entry: DirEntry) returns (info: ProcessInfo)
    requires Admissible(entry)
    ensures info == Record(entry)
  {
    var fp := new StatusStream(entry.status.value);
    var pid := DecimalValue(entry.name);
    var name := ExtractInfoFromStatus(fp, NameLabel);
    var memory := ExtractInfoFromStatus(fp, VmSizeLabel);
    info := ProcessInfo(pid, name, memory, entry.cpuUsage);
  }

  /** The sort dispatch closing get_processes: qsort with the comparator `sortType` selects, if any. */
  method SortProcesses(processes: array<ProcessInfo>, count: int, sortType: int, cmps: Comparators)
    requires 0 <= count <= processes.Length && ValidComparators(cmps)
    modifies processes
    ensures processes[count..] == old(processes[count..])
    ensures Arranged(processes[..count], old(processes[..count]), sortType, cmps)
  {
    if sortType == SortByPid {
      QSort(processes, count, cmps.byPid);
    } else if sortType == SortByName {
      QSort(processes, count, cmps.byName);
    } else if sortType == SortByMem {
      QSort(processes, count, cmps.byMem);
    } else if sortType == SortByCpu {
      QSort(processes, count, cmps.byCpu);
    }
  }
}
