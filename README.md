# my_htop: the process snapshot pipeline and its interactive loop

`my_htop` is a small terminal process monitor. On every pass of its main loop
it walks the `/proc` registry and keeps the entries whose names are all digits
and whose `status` file opens, up to 100 of them. For each one it reads the
`Name:` and `VmSize:` fields and a CPU figure, then sorts the records by the
current sort key. It then shows them and reacts to one key: move the cursor,
change the sort key, send SIGTERM to the selected process, or quit.

This project models that core in Dafny:

- `CStrings` (`cstrings.dfy`) holds the string helpers. `StartsWith` is the prefix test, and a lemma proves that the source's `strncmp` computation is the same test. `IsProcessDir` is the digit-only name filter, a method with the source's scanning loop. `DecimalValue` is `atoi` on a digit-only name, with its inverse `DecimalString` and a round-trip lemma.
- `Status` (`status.dfy`) models a status file as a `StatusStream` object: its lines and the position of the next unread line. `ExtractInfoFromStatus` is the scanning loop and consumes lines as it goes. `ReadStatus` states what the two lookups of one refresh return.
- `Sorting` (`sorting.dfy`) models what `qsort` does to a record array. The result is a permutation of the input, ordered by a comparator that returns a negative, zero or positive int. An insertion sort shows that such a result exists.
- `Snapshot` (`snapshot.dfy`) holds the process record, the registry entry, the admission loop `AdmitInto`, which fills a preallocated array of `MaxProcesses` = 100 slots, the sort dispatch, and `GetProcesses`. The reference functions `Admit` and `Candidates` state which records a pass must produce.
- `MainLoop` (`main_loop.dfy`) holds the loop's state (`running`, `cursor`, `sort_type`) as the class `Session`. `Step` is one key press on one snapshot. `Run` is the loop, driven by a sequence of registry states and a sequence of keys.

The environment becomes inputs:

- The registry is `Option<seq<DirEntry>>`. `None` means `opendir` failed.
- Each entry carries its name, its status lines (`None` means `fopen` failed) and the CPU figure the sampler would report for it.
- Keys are a `Key` datatype.
- A kill request is returned as the pid it targets.

Behaviour a reader might not expect, which the model follows as the code does:

- When the registry cannot be opened, `get_processes` returns NULL, and the loop goes round again without reading a key. It does not show an empty list.
- F7 selects CPU order (sort type 3) and F8 selects memory order (sort type 2).
- The cursor is clamped only from above (see Findings).
- Sort types outside 0..3 leave the records in registry order.

## Model

| member | source | states |
|---|---|---|
| CStrings.StrNCmpIsPrefixTest | main.c:32-34 | strncmp over the whole length of a NUL-free prefix returns 0 exactly when the string begins with that prefix; a string shorter than the prefix never matches |
| CStrings.StartsWith | main.c:32-34 | the prefix test: the string is at least as long as the prefix and its first characters are the prefix |
| CStrings.IsProcessDir | main.c:36-42 | the name filter accepts a name iff every character is a decimal digit |
| CStrings.ControlEntriesRejected | main.c:36-42 | the registry's control entries `.`, `..` and `self` are rejected |
| CStrings.DecimalValue | main.c:87 | atoi of a digit-only name: a name not starting with `0` has a positive value and is exactly the decimal spelling of that value |
| CStrings.DecimalRoundTrip | main.c:87 | atoi applied to the decimal name of process n gives back n |
| Status.StatusStream.constructor | main.c:85 | an opened status file is read from its first line |
| Status.StatusStream.GetLine | main.c:46 | fgets hands out the next unread line and advances past it, or reports end of file and stays put |
| Status.FirstMatch | main.c:46-51 | the index found is the first line at or after the start position that begins with the tag, or the end if no line does |
| Status.ExtractFromFindsFirstMatch | main.c:44-53 | a lookup returns the rest of the first matching line (tag + value is that line) and stops just past it; with no matching line it returns "" and drains the stream |
| Status.ExtractInfoFromStatus | main.c:44-53 | the scanning loop returns what the lookup specifies and leaves the stream exactly where the lookup says |
| Status.ReadStatus | main.c:89-92 | the two lookups of one refresh on one stream: `Name:` first, then `VmSize:` from where the first stopped |
| Status.ReadStatusFields | main.c:89-92 | the name is the rest of the first `Name:` line (both fields empty when there is none), and a non-empty memory field is the rest of a `VmSize:` line after it |
| Status.MemLookupResumesAfterName | main.c:89-92 | the `VmSize:` lookup starts on the line after the first `Name:` line, and the name is the rest of that line |
| Status.MissingNameHidesMem | main.c:89-92 | a status file with no `Name:` line gives an empty name and an empty memory field |
| Status.VmSizeBeforeNameIsMissed | main.c:89-92 | a `VmSize:` line placed before the `Name:` line is not found |
| Sorting.Insert | main.c:102-110 | insertion adds exactly one element and keeps every other element |
| Sorting.InsertSorted | main.c:102-110 | inserting into a sequence ordered by a total comparator keeps it ordered |
| Sorting.SortBy | main.c:102-110 | a sorted permutation exists for every input under a total comparator |
| Sorting.SortedIsPairwise | main.c:102-110 | under a transitive comparator, ordered neighbours mean every pair is ordered |
| Snapshot.Record | main.c:87-95 | the record of an admitted entry: pid atoi(name), the `Name:` and `VmSize:` values of its status file, and its CPU figure |
| Snapshot.Admit | main.c:81-100 | a pass holds at most `room` records, having read at least as many entries as it holds; it stops early only when full |
| Snapshot.AdmitTakesFirstCandidates | main.c:81-98 | the bounded pass keeps exactly the first 100 admissible entries' records, in registry order, each with pid = decimal value of its name |
| Snapshot.CandidatesAppend | main.c:81-98 | the unbounded admission of two registry segments is the admission of each, concatenated |
| Snapshot.SkippedEntryContributesNothing | main.c:85-98 | an entry whose status file fails to open adds no record and takes no slot |
| Snapshot.FullPassStopsAtLastAdmitted | main.c:81 | a full pass stops right after the entry that filled the last slot, so no further entry is read |
| Snapshot.AdmittedFromEntries | main.c:82-96 | every admitted record is the record of an admissible registry entry, so its pid is one the registry lists |
| Snapshot.EmptyRegistryEmptySnapshot | main.c:74-81 | an empty registry yields zero records after reading nothing |
| Snapshot.QSort | main.c:103 | qsort leaves the first n slots a sorted permutation of themselves and the other slots unchanged |
| Snapshot.SortProcesses | main.c:102-110 | the sort step only permutes the first count records: sort types 0..3 order them by pid, name, memory or CPU comparator; any other sort type leaves them as they are |
| Snapshot.ReadProcessInfo | main.c:85-97 | the record filled in for an admitted entry has pid atoi(name), the `Name:` value, the `VmSize:` value read after it, and the CPU figure |
| Snapshot.AdmitInto | main.c:80-100 | the array's first count slots are exactly the admitted records in registry order, count is at most 100, and the slots past count are not written |
| Snapshot.AdmitNext | main.c:81-98 | one turn of the loop writes the entry's record into slot count and grows count by one iff the entry is admissible, writes nothing else, and leaves the rest of the pass to the next entry |
| Snapshot.GetProcesses | main.c:73-112 | an unreadable registry gives NULL and count 0; otherwise a fresh 100-slot array whose first count slots are the admitted records, arranged by the sort type |
| MainLoop.ClampAsWritten | main.c:137-139 | the clamp as written never raises the cursor |
| MainLoop.MoveCursor | main.c:143-148 | up moves to the row above unless on the first, down to the row below unless on the last; a cursor on a row stays on a row, and no other key moves it |
| MainLoop.NextCursorAsWritten | main.c:137-148 | the cursor update of one refresh as written: the clamp as written, then the key |
| MainLoop.AsWrittenCursorEscapesSnapshot | main.c:137-148 | as written, an empty snapshot leaves the cursor at -1 whatever key is pressed on it (up needs a cursor above 0, down one below -1), and the clamp of a later 3-row snapshot keeps it at -1, outside the rows |
| MainLoop.Clamp | main.c:137-139 | the cursor is never negative, lies in [0, count-1] whenever count > 0, is left alone when already in range, and moves to count-1 when at or past the end |
| MainLoop.NextCursor | main.c:137-148 | with the corrected clamp, the cursor after a refresh and one key is never negative and names a row whenever the snapshot has one |
| MainLoop.NextSort | main.c:149-160 | F5, F6, F7, F8 select pid, name, CPU and memory order; any other key keeps the sort type; a valid sort type stays valid |
| MainLoop.SortAfter | main.c:131-167 | the sort type after keys pressed in order, carried over from one refresh to the next |
| MainLoop.SortAfterWithoutSortKeys | main.c:142-167 | keys other than F5..F8 never change the sort type, across any number of refreshes |
| MainLoop.SortAfterLastSortKey | main.c:149-160 | the sort type in force is the one the last F5..F8 key selected, whatever came before it |
| MainLoop.CursorAfter | main.c:134-148 | the cursor, with the corrected clamp, after keys pressed in order on the snapshots of the registry states they were pressed on |
| MainLoop.Session.constructor | main.c:129-131 | the loop starts running, cursor 0, sorted by pid |
| MainLoop.Session.Step | main.c:137-167 | the new cursor is the corrected clamp followed by the key (NextCursor), so it stays non-negative and below count when count > 0; F5/F6/F7/F8 select pid/name/CPU/memory order and any other key keeps the sort type (NextSort); F9 sends one kill request for the selected row's pid iff count > 0; only F10 clears running |
| MainLoop.SelectedIsAdmitted | main.c:162 | the row the cursor selects in the sorted snapshot is one of the admitted records, so a kill request targets a listed process |
| MainLoop.AnswersExtend | main.c:134-167 | the answer to one more key, given with the sort type and cursor the earlier keys left, extends the answers of the run |
| MainLoop.TraceTaken | main.c:134-167 | a registry state that yields a snapshot consumes exactly the next key, and the record of the run grows by that key's answer |
| MainLoop.StateTaken | main.c:134-167 | a key pressed on a snapshot moves running, the sort type and the cursor on by exactly that key, keeping the state valid |
| MainLoop.Session.Cycle | main.c:135-167 | an unreadable registry consumes no key and leaves running, cursor and sort type as they were; otherwise the key is answered on that snapshot: the new cursor and sort type are NextCursor and NextSort of the old ones, running is cleared iff the key is F10, and a kill request is sent iff the key is F9 and the snapshot is non-empty, naming the pid of the row the clamped old cursor selects in the snapshot sorted by the old sort type (some arrangement qsort may produce, since it is not stable) |
| MainLoop.Session.Turn | main.c:134-167 | one turn of the loop extends the record of the run and the loop state by one registry state |
| MainLoop.Session.Run | main.c:134-170 | after `visited` registry states: one answer per consumed key, each key pressed on a later state than the one before, and no openable state skipped; answer i is a kill request iff key i is F9 and that state's snapshot is non-empty, and then names the pid of the row that the clamped cursor selects in that snapshot, sorted by the sort type in force then; the sort type and cursor in force before key i are SortAfter and CursorAfter of the keys before it; running is cleared iff an F10 was consumed, and then F10 is the last key consumed; the sort type is SortAfter and the cursor CursorAfter of the consumed keys, starting from the initial ones; the run stops early only when running is cleared or the keys run out |

## Left out

- `draw_ui` and the ncurses calls (`initscr`, `clear`, `mvprintw`, `getch`, `endwin`) are terminal I/O. Keys are an input sequence instead.
- `get_process_cpu_usage` runs `ps` through `popen` and parses a float with `atof`. That is external process I/O plus floating point. The CPU figure is an opaque `real` carried by each entry. Its unclosed `popen` stream on the success path is not modelled.
- `kill_process` is a bare `kill(2)`. The model returns the targeted pid as a kill request.
- `opendir`, `readdir`, `fopen` and `fclose` are replaced by the registry and status-line inputs. The leaked `malloc` buffer on the NULL path and the `free` calls are not modelled. Slots that get no record hold a placeholder where C leaves uninitialised memory.
- The comparators `cmp_pid`, `cmp_name`, `cmp_mem` and `cmp_cpu` are not part of this model. Each sort key has an abstract comparator, of which only what `qsort` needs (a consistent total preorder) is required. Their direction and key semantics are not stated.
- Snapshot.QSort: the order of records that compare equal is unspecified, because `qsort` is not stable. So the model does not claim that sorting twice gives the same order.
- C buffer limits are not modelled: `fgets` truncation at 256 bytes, `strcpy` overflow of the 256-byte name and 128-byte memory fields, `atoi` overflow beyond `int`, `snprintf` truncation of the 100-byte status file path (`MAX_COMMAND_LENGTH`, main.c:83-84) for a digit-only name longer than 86 characters, and the unused `MAX_PID_DIGITS`.
- CStrings.DecimalValue models `atoi` only on digit-only names, the only names that reach it. Leading whitespace and signs are not modelled. An empty name passes the filter and reads as 0, as in the source; readdir never yields one.
- Characters are Dafny `char`s rather than C bytes. `StartsWith` agrees with `strncmp` only for prefixes without NUL, which the two literal tags are.
- MainLoop.Session.Run ends when its given registry states or keys run out. The source loops until F10. When the registry cannot be opened, the source spins without reading a key, and the model consumes the next registry state the same way.
- MainLoop.Session.Step, MainLoop.NextCursor, MainLoop.CursorAfter, MainLoop.Session.Cycle and MainLoop.Session.Run use the corrected clamp from Findings, not the clamp as written. Negative cursors that the source can reach are described by `ClampAsWritten` instead.

## Findings

| source | as written | input that shows it | evidently intended | confidence | as-written member | corrected member |
|---|---|---|---|---|---|---|
| main.c:137-139 | when `cursor >= count`, the cursor becomes `count - 1`, which is -1 for an empty snapshot; the clamp never raises a negative cursor, only a KEY_DOWN on a non-empty snapshot does | a refresh that admits no process and any key, then a refresh with 3 processes and F9: the cursor is still -1, so `processes[-1].pid` is read and signalled (main.c:162) | keep the cursor in [0, count-1] whenever count > 0, and never below 0 | high, not executed | MainLoop.AsWrittenCursorEscapesSnapshot | MainLoop.Clamp |
