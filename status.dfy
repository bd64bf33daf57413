/**
 * Reading labelled fields out of a process's status file, a stream of lines
 * of the form `Label:<whitespace>value`. Each line is kept as the stream
 * hands it out, trailing newline included.
 */
module Status {
  import opened Options
  import opened CStrings

  const NameLabel := "Name:"
  const VmSizeLabel := "VmSize:"

  /** An open status file: its lines and the position of the next unread one. */
  class StatusStream {
    const lines: seq<string>
    var pos: nat

    ghost predicate Valid()
      reads this
    {
      pos <= |lines|
    }

    /** fopen: a fresh stream positioned at the first line. */
    constructor (lines: seq<string>)
      ensures Valid() && this.lines == lines && pos == 0
    {
      this.lines := lines;
      pos := 0;
    }

    /** fgets: the next line, or None once every line has been read. */
    method GetLine() returns (line: Option<string>)
      requires Valid()
      modifies this`pos
      ensures Valid()
      ensures old(pos) < |lines| ==> line == Some(lines[old(pos)]) && pos == old(pos) + 1
      ensures old(pos) == |lines| ==> line == None && pos == old(pos)
    {
      if pos < |lines| {
        line := Some(lines[pos]);
        pos := pos + 1;
      } else {
        line := None;
      }
    }
  }

  /** The index of the first line at or after `from` that starts with `tag`, or |lines| if none does. */
  function FirstMatch(lines: seq<string>, from: nat, tag: string): (k: nat)
    requires from <= |lines|
    ensures from <= k <= |lines|
    ensures forall j :: from <= j < k ==> !StartsWith(tag, lines[j])
    ensures k < |lines| ==> StartsWith(tag, lines[k])
    decreases |lines| - from
  {
    if from == |lines| || StartsWith(tag, lines[from]) then from
    else FirstMatch(lines, from + 1, tag)
  }

  /** The value a lookup returns and the position of the stream after it. */
  datatype Scan = Scan(value: string, next: nat)

  /**
   * One lookup from position `from`: the rest of the first matching line and
   * the position just past it, or "" and the end of the stream.
   */
  function ExtractFrom(lines: seq<string>, from: nat, tag: string): (r: Scan)
    requires from <= |lines|
    ensures from <= r.next <= |lines|
  {
    var k := FirstMatch(lines, from, tag);
    if k < |lines| then Scan(lines[k][|tag|..], k + 1) else Scan("", |lines|)
  }

  /**
   * A lookup stops at the first line from `from` on that starts with the tag
   * and returns the rest of that line, leaving the stream just past it; when
   * no such line remains it returns "" and leaves the stream at its end.
   */
  lemma ExtractFromFindsFirstMatch(lines: seq<string>, from: nat, tag: string)
    requires from <= |lines|
    ensures var r := ExtractFrom(lines, from, tag);
            ((exists j :: from <= j < |lines| && StartsWith(tag, lines[j])) <==>
               from < r.next && StartsWith(tag, lines[r.next - 1])) &&
            (from < r.next && StartsWith(tag, lines[r.next - 1]) ==> tag + r.value == lines[r.next - 1]) &&
            (forall j :: from <= j < r.next - 1 ==> !StartsWith(tag, lines[j])) &&
            (!(exists j :: from <= j < |lines| && StartsWith(tag, lines[j])) ==> r == Scan("", |lines|))
  {
  }

  /**
   * extract_info_from_status: reads lines until one starts with `tag` and
   * returns what follows the tag, or "" once the stream runs out. The lines
   * read are consumed, so a later lookup resumes after them.
   */
  method ExtractInfoFromStatus(fp: StatusStream, tag: string) returns (value: string)
    requires fp.Valid()
    modifies fp`pos
    ensures fp.Valid()
    ensures Scan(value, fp.pos) == ExtractFrom(fp.lines, old(fp.pos), tag)
  {
    ghost var start := fp.pos;
    while true
      invariant fp.Valid() && start <= fp.pos
      invariant FirstMatch(fp.lines, fp.pos, tag) == FirstMatch(fp.lines, start, tag)
      decreases |fp.lines| - fp.pos
    {
      var line := fp.GetLine();
      if line.None? {
        return "";
      }
      if StartsWith(tag, line.value) {
        return line.value[|tag|..];
      }
    }
  }

  /** The two fields read from one status file: the process name and its VmSize text. */
  datatype StatusInfo = StatusInfo(name: string, mem: string)

  /** The `Name:` lookup from the start of the file, then the `VmSize:` lookup from where it stopped. */
  function ReadStatus(lines: seq<string>): StatusInfo {
    var n := ExtractFrom(lines, 0, NameLabel);
    StatusInfo(n.value, ExtractFrom(lines, n.next, VmSizeLabel).value)
  }

  /**
   * The name is the rest of the first `Name:` line, and both fields are
   * empty when there is none; a non-empty memory field is the rest of a
   * `VmSize:` line that comes after that `Name:` line.
   */
  lemma ReadStatusFields(lines: seq<string>)
    ensures var r := ReadStatus(lines);
            var i := FirstMatch(lines, 0, NameLabel);
            (if i < |lines| then NameLabel + r.name == lines[i] else r == StatusInfo("", "")) &&
            (r.mem != "" ==> exists j :: i < j < |lines| && VmSizeLabel + r.mem == lines[j])
  {
  }

  /**
   * Once the first `Name:` line is at index i, the memory field is looked up
   * only among the lines after i: a `VmSize:` line placed earlier is not seen.
   */
  lemma MemLookupResumesAfterName(lines: seq<string>, i: nat)
    requires i < |lines| && StartsWith(NameLabel, lines[i])
    requires forall j :: 0 <= j < i ==> !StartsWith(NameLabel, lines[j])
    ensures NameLabel + ReadStatus(lines).name == lines[i]
    ensures ReadStatus(lines).mem == ExtractFrom(lines, i + 1, VmSizeLabel).value
  {
  }

  /** With no `Name:` line the first lookup drains the file, so both fields come back empty. */
  lemma MissingNameHidesMem(lines: seq<string>)
    requires forall j :: 0 <= j < |lines| ==> !StartsWith(NameLabel, lines[j])
    ensures ReadStatus(lines) == StatusInfo("", "")
  {
  }

  /** A memory line written before the name line is missed. */
  lemma VmSizeBeforeNameIsMissed()
    ensures ReadStatus(["VmSize:\t4 kB\n", "Name:\tsh\n"]) == StatusInfo("\tsh\n", "")
  {
    var lines := ["VmSize:\t4 kB\n", "Name:\tsh\n"];
    assert !StartsWith(NameLabel, lines[0]) by { assert lines[0][0] != NameLabel[0]; }
    assert StartsWith(NameLabel, lines[1]);
    MemLookupResumesAfterName(lines, 1);
  }
}
