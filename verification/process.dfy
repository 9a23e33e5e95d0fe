/** `Process` (process_info.cpp): one process with the command, owner,
    state and resident memory its constructor reads from
    `/proc/<pid>/status`, and a CPU share computed from successive samples
    of its own and the machine's jiffy counters. */
module ProcessState {
  import opened Wrappers
  import opened Text
  import opened Conversions
  import opened InputStream
  import opened ProcFs
  import opened Sorting

  /** The fields of a `Process`. memory is in bytes. */
  datatype Process = Process(
    pid: int,
    user: string,
    command: string,
    cpuUtilization: real,
    memory: int,
    state: string,
    lastActiveJiffies: int,
    lastTotalJiffies: int)

  const NAME_LABEL: string := "Name:"
  const STATE_LABEL: string := "State:"
  const VMRSS_LABEL: string := "VmRSS:"
  const UID_LABEL: string := "Uid:"
  const KB_SUFFIX: string := " kB"
  const BYTES_PER_KB: int := 1024
  /** `/proc/<pid>/stat` fields before utime, and the four CPU times
      (utime, stime, cutime, cstime) that follow. */
  const FIELDS_BEFORE_UTIME: nat := 13
  const CPU_TIME_FIELDS: nat := 4

  // ---------------------------------------------------------------------------
  // The status file
  // ---------------------------------------------------------------------------

  /** What one line of the status file sets. */
  datatype StatusField =
    | CommandField(command: string)
    | StateField(state: string)
    | MemoryField(memory: int)
    | UserField(user: string)
    | OtherLine

  /** One pass of the `getline` loop of `updateProcessInfo`: the first of
      the four labels the line starts with decides what it sets. `substr`,
      `stol` and `stoi` may throw. */
  function ParseStatusLine(line: string, passwd: nat -> Option<string>): (r: Result<StatusField>)
    ensures StartsWith(line, NAME_LABEL) ==> r == ParseCommand(line)
    ensures !StartsWith(line, NAME_LABEL) && StartsWith(line, STATE_LABEL) ==> r == ParseState(line)
    ensures !StartsWith(line, NAME_LABEL) && !StartsWith(line, STATE_LABEL) && StartsWith(line, VMRSS_LABEL) ==>
      r == ParseMemory(line)
    ensures (!StartsWith(line, NAME_LABEL) && !StartsWith(line, STATE_LABEL) && !StartsWith(line, VMRSS_LABEL) &&
             StartsWith(line, UID_LABEL)) ==> r == ParseUser(line, passwd)
    ensures r == Ok(OtherLine) <==> Unlabelled(line)
  {
    FindAtStart(line, NAME_LABEL);
    FindAtStart(line, STATE_LABEL);
    FindAtStart(line, VMRSS_LABEL);
    FindAtStart(line, UID_LABEL);
    if Find(line, NAME_LABEL) == Some(0) then ParseCommand(line)
    else if Find(line, STATE_LABEL) == Some(0) then ParseState(line)
    else if Find(line, VMRSS_LABEL) == Some(0) then ParseMemory(line)
    else if Find(line, UID_LABEL) == Some(0) then ParseUser(line, passwd)
    else Ok(OtherLine)
  }

  predicate Unlabelled(line: string) {
    !StartsWith(line, NAME_LABEL) && !StartsWith(line, STATE_LABEL) &&
    !StartsWith(line, VMRSS_LABEL) && !StartsWith(line, UID_LABEL)
  }

  /** `command_ = line.substr(6)`: everything after the label and the one
      character that follows it. */
  function ParseCommand(line: string): (r: Result<StatusField>)
    ensures r.Thrown? <==> |line| < 6
    ensures r.Ok? ==> r.value.CommandField? && line == line[..6] + r.value.command
  {
    match Substr(line, 6, None)
    case Thrown(e) => Thrown(e)
    case Ok(command) => Ok(CommandField(command))
  }

  /** `state_ = line.substr(7, 1)`: the character at offset 7, or nothing
      when the line ends there. */
  function ParseState(line: string): (r: Result<StatusField>)
    ensures r.Thrown? <==> |line| < 7
    ensures r.Ok? ==> r.value.StateField? && |r.value.state| == (if |line| > 7 then 1 else 0)
    ensures r.Ok? && |line| > 7 ==> r.value.state == [line[7]]
  {
    match Substr(line, 7, Some(1))
    case Thrown(e) => Thrown(e)
    case Ok(state) => Ok(StateField(state))
  }

  /** `memory_ = std::stol(<text from offset 7 up to " kB">) * 1024`. */
  function ParseMemory(line: string): (r: Result<StatusField>)
    ensures |line| < 7 ==> r == Thrown(OutOfRange)
    ensures |line| >= 7 ==> (r.Thrown? <==> Stol(Before(line[7..], KB_SUFFIX)).Thrown?)
    ensures r.Ok? ==> (r.value.MemoryField? && r.value.memory % BYTES_PER_KB == 0 &&
                       r.value.memory == BYTES_PER_KB * Stol(Before(line[7..], KB_SUFFIX)).value)
  {
    match Substr(line, 7, None)
    case Thrown(e) => Thrown(e)
    case Ok(rest) =>
      match Stol(Before(rest, KB_SUFFIX))
      case Thrown(e) => Thrown(e)
      case Ok(kb) => Ok(MemoryField(kb * BYTES_PER_KB))
  }

  /** The text from offset 5 up to the next tab is a uid (`std::stoi`,
      converted to the unsigned `uid_t`); the user is the account of that
      uid, or that text as written when the account is unknown. */
  function ParseUser(line: string, passwd: nat -> Option<string>): (r: Result<StatusField>)
    ensures |line| < 5 ==> r == Thrown(OutOfRange)
    ensures |line| >= 5 ==> (r.Thrown? <==> Stoi(Before(line[5..], "\t")).Thrown?)
    ensures r.Ok? ==> r.value.UserField?
    ensures r.Ok? && passwd(ToUid(Stoi(Before(line[5..], "\t")).value)).Some? ==>
      r.value.user == passwd(ToUid(Stoi(Before(line[5..], "\t")).value)).value
    ensures r.Ok? && passwd(ToUid(Stoi(Before(line[5..], "\t")).value)).None? ==>
      r.value.user == Before(line[5..], "\t")
  {
    match Substr(line, 5, None)
    case Thrown(e) => Thrown(e)
    case Ok(rest) =>
      var uidText := Before(rest, "\t");
      match Stoi(uidText)
      case Thrown(e) => Thrown(e)
      case Ok(uid) =>
        Ok(UserField(match passwd(ToUid(uid)) case Some(name) => name case None => uidText))
  }

  /** The process with the field a line sets replaced. */
  function Assign(p: Process, f: StatusField): Process {
    match f
    case CommandField(command) => p.(command := command)
    case StateField(state) => p.(state := state)
    case MemoryField(memory) => p.(memory := memory)
    case UserField(user) => p.(user := user)
    case OtherLine => p
  }

  /** The fields the status file never touches: the pid and the sampling
      state. */
  predicate SameSampling(p: Process, q: Process) {
    q.pid == p.pid && q.cpuUtilization == p.cpuUtilization &&
    q.lastActiveJiffies == p.lastActiveJiffies && q.lastTotalJiffies == p.lastTotalJiffies
  }

  /** The `getline` loop over the lines of the status file; the first
      exception leaves the loop and the constructor. */
  function ApplyStatusLines(p: Process, lines: seq<string>, passwd: nat -> Option<string>): (r: Result<Process>)
    ensures r.Ok? ==> SameSampling(p, r.value)
  {
    RunLines(p, lines, StatusParser(passwd))
  }

  /** One line of the status file read with the given account lookup. */
  function StatusParser(passwd: nat -> Option<string>): string -> Result<StatusField> {
    line => ParseStatusLine(line, passwd)
  }

  /** The same loop for any way of reading one line. */
  function RunLines(p: Process, lines: seq<string>, parse: string -> Result<StatusField>): (r: Result<Process>)
    ensures r.Ok? ==> SameSampling(p, r.value)
    decreases |lines|
  {
    if |lines| == 0 then Ok(p)
    else match parse(lines[0])
      case Thrown(e) => Thrown(e)
      case Ok(f) => RunLines(Assign(p, f), lines[1..], parse)
  }

  /** The loop throws exactly when one of the lines does; which line throws
      does not depend on what earlier lines set. */
  lemma {:induction false} ApplyStatusLinesThrows(p: Process, lines: seq<string>, passwd: nat -> Option<string>)
    ensures ApplyStatusLines(p, lines, passwd).Thrown? <==>
      exists k :: 0 <= k < |lines| && ParseStatusLine(lines[k], passwd).Thrown?
  {
    var parse := StatusParser(passwd);
    RunLinesThrows(p, lines, parse);
    assert forall k :: 0 <= k < |lines| ==> parse(lines[k]) == ParseStatusLine(lines[k], passwd);
  }

  lemma {:induction false} RunLinesThrows(p: Process, lines: seq<string>, parse: string -> Result<StatusField>)
    ensures RunLines(p, lines, parse).Thrown? <==> exists k :: 0 <= k < |lines| && parse(lines[k]).Thrown?
    decreases |lines|
  {
    if |lines| > 0 {
      var tail := lines[1..];
      match parse(lines[0])
      case Thrown(_) =>
      case Ok(f) =>
        RunLinesThrows(Assign(p, f), tail, parse);
        assert forall k :: 1 <= k < |lines| ==> lines[k] == tail[k - 1];
        if exists k :: 0 <= k < |tail| && parse(tail[k]).Thrown? {
          var k :| 0 <= k < |tail| && parse(tail[k]).Thrown?;
          assert parse(lines[k + 1]).Thrown?;
        }
    }
  }

  /** Running the loop over two stretches of lines one after the other. */
  lemma {:induction false} RunLinesAppend(p: Process, a: seq<string>, b: seq<string>, parse: string -> Result<StatusField>)
    ensures RunLines(p, a + b, parse) ==
      match RunLines(p, a, parse)
      case Thrown(e) => Thrown(e)
      case Ok(q) => RunLines(q, b, parse)
    decreases |a|
  {
    if |a| == 0 {
      assert a + b == b;
    } else {
      var tail := a[1..];
      assert (a + b)[0] == a[0] && (a + b)[1..] == tail + b;
      match parse(a[0])
      case Thrown(_) =>
      case Ok(f) => RunLinesAppend(Assign(p, f), tail, b, parse);
    }
  }

  /** Lines that set nothing change nothing. */
  lemma {:induction false} RunOtherLines(p: Process, lines: seq<string>, parse: string -> Result<StatusField>)
    requires forall k :: 0 <= k < |lines| ==> parse(lines[k]) == Ok(OtherLine)
    ensures RunLines(p, lines, parse) == Ok(p)
    decreases |lines|
  {
    if |lines| > 0 {
      RunOtherLines(p, lines[1..], parse);
    }
  }

  /** `Process(pid)`: no CPU share yet, both jiffy samples 0, then the
      status file. `memory_` is not initialised by the constructor, so a
      status file without a `VmRSS:` line leaves it at strayMemory. An
      exception from the status file leaves the constructor. */
  function NewProcess(h: Host, pid: int, strayMemory: int): (r: Result<Process>)
    ensures r.Ok? ==> r.value.pid == pid && r.value.cpuUtilization == 0.0
    ensures r.Ok? ==> r.value.lastActiveJiffies == 0 && r.value.lastTotalJiffies == 0
    ensures h.statusOf(pid) == [] ==> r == Ok(Process(pid, "", "", 0.0, strayMemory, "", 0, 0))
  {
    ApplyStatusLines(Process(pid, "", "", 0.0, strayMemory, "", 0, 0), h.statusOf(pid), h.passwd)
  }

  // ---------------------------------------------------------------------------
  // Status lines as the kernel writes them
  // ---------------------------------------------------------------------------

  /** `Name:<tab><command>` sets the command. */
  lemma {:induction false} CommandLine(line: string, command: string, passwd: nat -> Option<string>)
    requires line == NAME_LABEL + "\t" + command
    ensures ParseStatusLine(line, passwd) == Ok(CommandField(command))
  {
    assert StartsWith(line, NAME_LABEL);
    assert line[6..] == command;
  }

  /** `State:<tab><c> (<description>)` sets the state to the one letter c. */
  lemma {:induction false} StateLine(line: string, c: char, more: string, passwd: nat -> Option<string>)
    requires line == STATE_LABEL + "\t" + [c] + more
    ensures ParseStatusLine(line, passwd) == Ok(StateField([c]))
  {
    assert line[0] == 'S' && !StartsWith(line, NAME_LABEL);
    assert StartsWith(line, STATE_LABEL);
    assert line[7] == c;
  }

  /** `VmRSS:<tab><blanks><n> kB` sets the memory to n KiB in bytes. */
  lemma {:induction false} MemoryLine(line: string, pad: string, kb: int, passwd: nat -> Option<string>)
    requires line == VMRSS_LABEL + "\t" + (pad + IntToString(kb) + KB_SUFFIX)
    requires AllSpaces(pad) && InLongRange(kb)
    ensures ParseStatusLine(line, passwd) == Ok(MemoryField(kb * BYTES_PER_KB))
  {
    var number := pad + IntToString(kb);
    VmRssLabelled(line, number + KB_SUFFIX, passwd);
    BeforeSuffix(pad, kb, number, line[7..]);
    StolOfIntToString(number, pad, kb, "");
  }

  /** A line starting with `VmRSS:` is read as a memory line. */
  lemma {:induction false} VmRssLabelled(line: string, body: string, passwd: nat -> Option<string>)
    requires line == VMRSS_LABEL + "\t" + body
    ensures ParseStatusLine(line, passwd) == ParseMemory(line) && line[7..] == body
  {
    assert line[0] == 'V' && !StartsWith(line, NAME_LABEL) && !StartsWith(line, STATE_LABEL);
    assert StartsWith(line, VMRSS_LABEL);
  }

  /** Blanks and a decimal number, then ` kB`: the text before ` kB` is the
      blanks and the number. */
  lemma {:induction false} BeforeSuffix(pad: string, n: int, number: string, rest: string)
    requires AllSpaces(pad) && number == pad + IntToString(n)
    requires rest == number + KB_SUFFIX
    ensures Before(rest, KB_SUFFIX) == number
  {
    NumeralChars(n);
    forall i: nat | i < |number|
      ensures !OccursAt(rest, KB_SUFFIX, i)
    {
      assert rest[i + 1] != 'k' by {
        if i + 1 < |pad| {
          assert rest[i + 1] == pad[i + 1];
        } else if i + 1 < |number| {
          assert rest[i + 1] == IntToString(n)[i + 1 - |pad|];
        } else {
          assert rest[i + 1] == ' ';
        }
      }
    }
    assert StartsWith(rest, number) && OccursAt(rest, KB_SUFFIX, |number|);
    BeforeOccurrence(rest, KB_SUFFIX, number);
  }

  /** A decimal numeral is a minus sign or digits. */
  lemma {:induction false} NumeralChars(i: int)
    ensures forall k :: 0 <= k < |IntToString(i)| ==> IntToString(i)[k] == '-' || IsDigit(IntToString(i)[k])
  {
    if i < 0 {
      var s := IntToString(i);
      assert forall k :: 1 <= k < |s| ==> s[k] == NatToString(-i)[k - 1];
    }
  }

  /** `Uid:<tab><real uid><tab>...` names the account of the real uid, or
      keeps the number as written; a uid beyond the range of `int` makes
      `std::stoi` throw. */
  lemma {:induction false} UserLine(line: string, body: string, uid: int, passwd: nat -> Option<string>)
    requires line == UID_LABEL + "\t" + body && StartsWith(body, IntToString(uid) + "\t")
    ensures InIntRange(uid) ==> ParseStatusLine(line, passwd) == Ok(UserField(UserName(passwd, uid)))
    ensures !InIntRange(uid) ==> ParseStatusLine(line, passwd) == Thrown(OutOfRange)
  {
    UidLabelled(line, body, passwd);
    UserOfUidText(line, body, uid, passwd);
  }

  /** A line starting with `Uid:` is read as a user line. */
  lemma {:induction false} UidLabelled(line: string, body: string, passwd: nat -> Option<string>)
    requires line == UID_LABEL + "\t" + body
    ensures ParseStatusLine(line, passwd) == ParseUser(line, passwd)
  {
    assert line[0] == 'U';
    assert !StartsWith(line, NAME_LABEL) && !StartsWith(line, STATE_LABEL) && !StartsWith(line, VMRSS_LABEL);
    assert StartsWith(line, UID_LABEL);
  }

  lemma {:induction false} UserOfUidText(line: string, body: string, uid: int, passwd: nat -> Option<string>)
    requires line == UID_LABEL + "\t" + body && StartsWith(body, IntToString(uid) + "\t")
    ensures InIntRange(uid) ==> ParseUser(line, passwd) == Ok(UserField(UserName(passwd, uid)))
    ensures !InIntRange(uid) ==> ParseUser(line, passwd) == Thrown(OutOfRange)
  {
    var number := IntToString(uid);
    assert line[5..] == body;
    BeforeTab(number, uid, body);
    LeadingIntegerOfIntToString(number, "", uid, "");
  }

  /** The text after a labelled prefix, when it starts with a given
      continuation. */
  lemma {:induction false} AfterLabel(line: string, head: string, next: string)
    requires StartsWith(line, head + next)
    ensures line == head + line[|head|..] && StartsWith(line[|head|..], next)
  {
    assert line[|head|..][..|next|] == line[..|head + next|][|head|..];
  }

  /** A numeral, then a tab: the text before the tab is the numeral. */
  lemma {:induction false} BeforeTab(number: string, uid: int, rest: string)
    requires number == IntToString(uid) && StartsWith(rest, number + "\t")
    ensures Before(rest, "\t") == number
  {
    NumeralIsWord(uid);
    forall i: nat | i < |number|
      ensures !OccursAt(rest, "\t", i)
    {
      assert rest[i] == (number + "\t")[i] == number[i];
    }
    assert rest[..|number|] == (number + "\t")[..|number|] == number;
    assert rest[|number|..|number| + 1] == "\t";
    BeforeOccurrence(rest, "\t", number);
  }

  /** A status file in the kernel's order (`Name:`, then `State:`, then
      `Uid:`, then `VmRSS:`, with lines carrying none of these labels in
      between) gives the process that command, state, user and memory. */
  lemma {:induction false} NewProcessOfStatus(h: Host, pid: int, strayMemory: int, lines: seq<string>,
                           s1: seq<string>, s2: seq<string>, s3: seq<string>, s4: seq<string>,
                           command: string, c: char, uid: int, pad: string, kb: int)
    requires InIntRange(uid) && AllSpaces(pad) && InLongRange(kb)
    requires h.statusOf(pid) == lines && lines == s1 + s2 + s3 + s4
    requires |s1| > 0 && s1[0] == NAME_LABEL + "\t" + command
    requires |s2| > 0 && StartsWith(s2[0], STATE_LABEL + "\t" + [c])
    requires |s3| > 0 && StartsWith(s3[0], (UID_LABEL + "\t") + (IntToString(uid) + "\t"))
    requires |s4| > 0 && s4[0] == VMRSS_LABEL + "\t" + (pad + IntToString(kb) + KB_SUFFIX)
    requires forall k :: 1 <= k < |s1| ==> Unlabelled(s1[k])
    requires forall k :: 1 <= k < |s2| ==> Unlabelled(s2[k])
    requires forall k :: 1 <= k < |s3| ==> Unlabelled(s3[k])
    requires forall k :: 1 <= k < |s4| ==> Unlabelled(s4[k])
    ensures NewProcess(h, pid, strayMemory) ==
      Ok(Process(pid, UserName(h.passwd, uid), command, 0.0, kb * BYTES_PER_KB, [c], 0, 0))
  {
    var parse := StatusParser(h.passwd);
    var p0 := Process(pid, "", "", 0.0, strayMemory, "", 0, 0);
    var p1 := p0.(command := command);
    var p2 := p1.(state := [c]);
    var p3 := p2.(user := UserName(h.passwd, uid));
    var p4 := p3.(memory := kb * BYTES_PER_KB);
    CommandStretch(p0, s1, command, h.passwd);
    StateStretch(p1, s2, c, h.passwd);
    UserStretch(p2, s3, uid, h.passwd);
    MemoryStretch(p3, s4, pad, kb, h.passwd);
    FourStretches(p0, p1, p2, p3, p4, s1, s2, s3, s4, parse);
  }

  lemma {:induction false} CommandStretch(p: Process, stretch: seq<string>, command: string, passwd: nat -> Option<string>)
    requires |stretch| > 0 && stretch[0] == NAME_LABEL + "\t" + command
    requires forall k :: 1 <= k < |stretch| ==> Unlabelled(stretch[k])
    ensures RunLines(p, stretch, StatusParser(passwd)) == Ok(p.(command := command))
  {
    CommandLine(stretch[0], command, passwd);
    OneLabelledLine(p, stretch, passwd, p.(command := command));
  }

  lemma {:induction false} StateStretch(p: Process, stretch: seq<string>, c: char, passwd: nat -> Option<string>)
    requires |stretch| > 0 && StartsWith(stretch[0], STATE_LABEL + "\t" + [c])
    requires forall k :: 1 <= k < |stretch| ==> Unlabelled(stretch[k])
    ensures RunLines(p, stretch, StatusParser(passwd)) == Ok(p.(state := [c]))
  {
    var more := stretch[0][|STATE_LABEL + "\t" + [c]|..];
    assert stretch[0] == STATE_LABEL + "\t" + [c] + more;
    StateLine(stretch[0], c, more, passwd);
    OneLabelledLine(p, stretch, passwd, p.(state := [c]));
  }

  lemma {:induction false} UserStretch(p: Process, stretch: seq<string>, uid: int, passwd: nat -> Option<string>)
    requires InIntRange(uid)
    requires |stretch| > 0 && StartsWith(stretch[0], (UID_LABEL + "\t") + (IntToString(uid) + "\t"))
    requires forall k :: 1 <= k < |stretch| ==> Unlabelled(stretch[k])
    ensures RunLines(p, stretch, StatusParser(passwd)) == Ok(p.(user := UserName(passwd, uid)))
  {
    AfterLabel(stretch[0], UID_LABEL + "\t", IntToString(uid) + "\t");
    UserLine(stretch[0], stretch[0][5..], uid, passwd);
    OneLabelledLine(p, stretch, passwd, p.(user := UserName(passwd, uid)));
  }

  lemma {:induction false} MemoryStretch(p: Process, stretch: seq<string>, pad: string, kb: int, passwd: nat -> Option<string>)
    requires AllSpaces(pad) && InLongRange(kb)
    requires |stretch| > 0 && stretch[0] == VMRSS_LABEL + "\t" + (pad + IntToString(kb) + KB_SUFFIX)
    requires forall k :: 1 <= k < |stretch| ==> Unlabelled(stretch[k])
    ensures RunLines(p, stretch, StatusParser(passwd)) == Ok(p.(memory := kb * BYTES_PER_KB))
  {
    MemoryLine(stretch[0], pad, kb, passwd);
    OneLabelledLine(p, stretch, passwd, p.(memory := kb * BYTES_PER_KB));
  }

  /** Four stretches of lines, each taking the process one step further. */
  lemma {:induction false} FourStretches(p0: Process, p1: Process, p2: Process, p3: Process, p4: Process,
                      s1: seq<string>, s2: seq<string>, s3: seq<string>, s4: seq<string>,
                      parse: string -> Result<StatusField>)
    requires RunLines(p0, s1, parse) == Ok(p1)
    requires RunLines(p1, s2, parse) == Ok(p2)
    requires RunLines(p2, s3, parse) == Ok(p3)
    requires RunLines(p3, s4, parse) == Ok(p4)
    ensures RunLines(p0, s1 + s2 + s3 + s4, parse) == Ok(p4)
  {
    TwoStretches(p0, p1, p2, s1, s2, parse);
    TwoStretches(p2, p3, p4, s3, s4, parse);
    TwoStretches(p0, p2, p4, s1 + s2, s3 + s4, parse);
    assert s1 + s2 + s3 + s4 == (s1 + s2) + (s3 + s4);
  }

  lemma {:induction false} TwoStretches(p0: Process, p1: Process, p2: Process, a: seq<string>, b: seq<string>,
                                        parse: string -> Result<StatusField>)
    requires RunLines(p0, a, parse) == Ok(p1) && RunLines(p1, b, parse) == Ok(p2)
    ensures RunLines(p0, a + b, parse) == Ok(p2)
  {
    RunLinesAppend(p0, a, b, parse);
  }

  /** One labelled line followed by unlabelled ones. */
  lemma {:induction false} OneLabelledLine(p: Process, stretch: seq<string>, passwd: nat -> Option<string>, q: Process)
    requires |stretch| > 0 && ParseStatusLine(stretch[0], passwd).Ok?
    requires q == Assign(p, ParseStatusLine(stretch[0], passwd).value)
    requires forall k :: 1 <= k < |stretch| ==> Unlabelled(stretch[k])
    ensures RunLines(p, stretch, StatusParser(passwd)) == Ok(q)
  {
    var parse := StatusParser(passwd);
    var others := stretch[1..];
    forall k | 0 <= k < |others|
      ensures parse(others[k]) == Ok(OtherLine)
    {
      assert Unlabelled(stretch[k + 1]);
    }
    RunOtherLines(q, others, parse);
  }

  /** The user name a uid shows as: its account, else its decimal text. */
  function UserName(passwd: nat -> Option<string>, uid: int): string {
    match passwd(ToUid(uid))
    case Some(name) => name
    case None => IntToString(uid)
  }

  // ---------------------------------------------------------------------------
  // Jiffies
  // ---------------------------------------------------------------------------

  /** `getActiveJiffies`: skip 13 white-space words of the first line of
      `/proc/<pid>/stat`, then extract utime, stime, cutime and cstime and
      add them; 0 when the file cannot be opened. */
  function ActiveJiffies(h: Host, pid: int): (r: Option<int>)
    ensures h.statOf(pid).None? ==> r == Some(0)
  {
    match h.statOf(pid)
    case None => Some(0)
    case Some(lines) => StatLineJiffies(FirstLine(lines))
  }

  /** What `getActiveJiffies` computes from the first line of the stat
      file. */
  function StatLineJiffies(line: string): Option<int> {
    AddStored(Extractions(SkipWords(Open(line), FIELDS_BEFORE_UTIME), CPU_TIME_FIELDS))
  }

  /** `utime + stime + cutime + cstime`: the sum of the variables, None
      when one of them was left uninitialised. */
  function AddStored(ts: seq<Extracted<int>>): (r: Option<int>)
  {
    if |ts| == 0 then Some(0)
    else if ts[0].Untouched? then None
    else
      var rest := AddStored(ts[1..]);
      if rest.None? then None else Some(ts[0].value + rest.value)
  }

  /** The sum is missing exactly when one of the variables was left
      uninitialised. */
  lemma {:induction false} AddStoredMissing(ts: seq<Extracted<int>>)
    ensures AddStored(ts).None? <==> exists i :: 0 <= i < |ts| && ts[i].Untouched?
    decreases |ts|
  {
    if |ts| > 0 && ts[0].Stored? {
      var tail := ts[1..];
      AddStoredMissing(tail);
      assert forall i :: 1 <= i < |ts| ==> ts[i] == tail[i - 1];
      if AddStored(tail).None? {
        var i :| 0 <= i < |tail| && tail[i].Untouched?;
        assert ts[i + 1].Untouched?;
      }
    }
  }

  /** A stat line whose words 14 to 17 are the numerals of vs gives their
      sum. */
  lemma {:induction false} StatLineOfNumerals(line: string, vs: seq<int>)
    requires |vs| == CPU_TIME_FIELDS && forall i :: 0 <= i < |vs| ==> InLongRange(vs[i])
    requires |Words(line)| >= 17 && Words(line)[13..17] == Numerals(vs)
    ensures StatLineJiffies(line) == Some(Sum(vs))
  {
    CpuTimesOfStatLine(line, vs);
    AddStoredAll(vs);
  }

  /** The four extractions after the 13 skipped words store the CPU
      times. */
  lemma {:induction false} CpuTimesOfStatLine(line: string, vs: seq<int>)
    requires |vs| == CPU_TIME_FIELDS && forall i :: 0 <= i < |vs| ==> InLongRange(vs[i])
    requires |Words(line)| >= 17 && Words(line)[13..17] == Numerals(vs)
    ensures Extractions(SkipWords(Open(line), FIELDS_BEFORE_UTIME), CPU_TIME_FIELDS) == AllStored(vs)
  {
    var st := SkipWords(Open(line), FIELDS_BEFORE_UTIME);
    SkipWordsOfWords(Open(line), FIELDS_BEFORE_UTIME);
    CpuTimeNumerals(Words(line), Words(st.rest), vs);
    ExtractionsOfNumerals(st, vs);
  }

  /** The four words after the 13 skipped ones are the numerals of the CPU
      times. */
  lemma {:induction false} CpuTimeNumerals(ws: seq<string>, later: seq<string>, vs: seq<int>)
    requires |vs| == CPU_TIME_FIELDS && forall i :: 0 <= i < |vs| ==> InLongRange(vs[i])
    requires |ws| >= 17 && later == ws[13..] && ws[13..17] == Numerals(vs)
    ensures |later| >= |vs|
    ensures forall i :: 0 <= i < |vs| ==> later[i] == IntToString(vs[i]) && InLongRange(vs[i])
  {
    NumeralsPointwise(vs);
    forall i | 0 <= i < |vs|
      ensures later[i] == IntToString(vs[i])
    {
      assert later[i] == ws[13 + i] == Numerals(vs)[i];
    }
  }

  /** With every value stored the sum is the sum of the values. */
  lemma {:induction false} AddStoredAll(vs: seq<int>)
    ensures AddStored(AllStored(vs)) == Some(Sum(vs))
    decreases |vs|
  {
    if |vs| > 0 {
      var tail := vs[1..];
      AddStoredAll(tail);
      assert AllStored(vs)[1..] == AllStored(tail);
      SumCons(vs[0], tail);
      Text.ConsTail(vs);
    }
  }

  /** A stat line with no more than 13 words leaves utime uninitialised. */
  lemma {:induction false} StatLineOfFewWords(line: string)
    requires |Words(line)| <= 13
    ensures StatLineJiffies(line).None?
  {
    var st0 := Open(line);
    var st := SkipWords(st0, FIELDS_BEFORE_UTIME);
    if |Words(st0.rest)| < FIELDS_BEFORE_UTIME {
      SkipWordsOfFewWords(st0, FIELDS_BEFORE_UTIME);
    } else {
      SkipWordsOfWords(st0, FIELDS_BEFORE_UTIME);
      assert Words(st.rest) == [];
      assert ReadLong(st).target.Untouched?;
    }
    assert Extractions(st, CPU_TIME_FIELDS)[0].Untouched?;
  }

  /** The values the `while (iss >> time)` loop of `getTotalJiffies` adds:
      the numbers after the first word of the first line of `/proc/stat`,
      up to the first extraction that fails. */
  function CpuLineCounters(lines: seq<string>): seq<int> {
    LongsRead(ReadWord(Open(FirstLine(lines))).stream)
  }

  function Sum(vs: seq<int>): int {
    if |vs| == 0 then 0 else Sum(vs[..|vs| - 1]) + vs[|vs| - 1]
  }

  lemma {:induction false} SumSnoc(vs: seq<int>, v: int)
    ensures Sum(vs + [v]) == Sum(vs) + v
  {
    assert (vs + [v])[..|vs|] == vs;
  }

  lemma {:induction false} SumCons(v: int, vs: seq<int>)
    ensures Sum([v] + vs) == v + Sum(vs)
    decreases |vs|
  {
    if |vs| > 0 {
      var init := vs[..|vs| - 1];
      SumCons(v, init);
      assert ([v] + vs)[..|vs|] == [v] + init;
    }
  }

  method TotalJiffies(h: Host) returns (total: int)
    ensures h.procStat.None? ==> total == 0
    ensures h.procStat.Some? ==> total == Sum(CpuLineCounters(h.procStat.value))
  {
    if h.procStat.None? {
      return 0;
    }
    var st := ReadWord(Open(FirstLine(h.procStat.value))).stream;
    ReadLongConsumes();
    total := SumOfLongs(ReadLong, st);
  }

  /** `while (iss >> time) total += time;` for a reader that consumes
      input whenever it succeeds. */
  method SumOfLongs(read: Reader, st0: Stream) returns (total: int)
    requires Consumes(read)
    ensures total == Sum(LongsReadWith(read, st0))
  {
    ghost var all := LongsReadWith(read, st0);
    var st := st0;
    ghost var added: seq<int> := [];
    total := 0;
    while true
      invariant added + LongsReadWith(read, st) == all
      invariant total == Sum(added)
      decreases |st.rest|
    {
      var e := read(st);
      if e.stream.failed {
        assert added + [] == added;
        break;
      }
      var time := e.target.value;
      SumSnoc(added, time);
      Regroup(added, time, LongsReadWith(read, e.stream));
      total := total + time;
      added := added + [time];
      st := e.stream;
    }
  }

  lemma {:induction false} Regroup<X>(a: seq<X>, x: X, b: seq<X>)
    ensures a + ([x] + b) == (a + [x]) + b
  {
  }

  /** The `cpu` line as the kernel writes it: every counter is read. */
  lemma {:induction false} CpuLineCountersOfLine(lines: seq<string>, pad: string, vs: seq<int>)
    requires |lines| > 0 && lines[0] == "cpu" + pad + Join(Numerals(vs), ' ')
    requires |pad| > 0 && AllSpaces(pad)
    requires forall i :: 0 <= i < |vs| ==> InLongRange(vs[i])
    ensures CpuLineCounters(lines) == vs
  {
    WordsOfCpuLine(lines[0], pad, vs);
    var st := ReadWord(Open(lines[0])).stream;
    var ws := Numerals(vs);
    assert Words(st.rest) == ws;
    NumeralsPointwise(vs);
    LongsReadOfNumerals(st, vs);
  }

  lemma {:induction false} WordsOfCpuLine(line: string, pad: string, vs: seq<int>)
    requires line == "cpu" + pad + Join(Numerals(vs), ' ')
    requires |pad| > 0 && AllSpaces(pad)
    ensures Words(line) == ["cpu"] + Numerals(vs)
  {
    var rest := pad + Join(Numerals(vs), ' ');
    assert line == "cpu" + rest && IsSpace(rest[0]);
    WordsCons(line, "cpu", rest);
    WordsOfNumerals(pad, vs);
  }

  // ---------------------------------------------------------------------------
  // CPU share
  // ---------------------------------------------------------------------------

  /** `std::min(100.0, std::max(0.0, x))`. */
  function Clamp(x: real): real {
    if x < 0.0 then 0.0 else if x > 100.0 then 100.0 else x
  }

  /** The CPU share lies in [0, 100]. */
  predicate InPercentRange(p: Process) {
    0.0 <= p.cpuUtilization <= 100.0
  }

  /** `updateCpuUtilization(active, total)`: when both previous samples are
      non-zero and total jiffies advanced, the share becomes the active
      advance as a percentage of the total advance, clamped to [0, 100];
      otherwise it is kept. The new samples are stored in every case. */
  function UpdateCpuUtilization(p: Process, active: int, total: int): (r: Process)
    ensures r.lastActiveJiffies == active && r.lastTotalJiffies == total
    ensures r == p.(cpuUtilization := r.cpuUtilization, lastActiveJiffies := active, lastTotalJiffies := total)
    ensures p.lastActiveJiffies == 0 || p.lastTotalJiffies == 0 || total - p.lastTotalJiffies <= 0 ==>
      r.cpuUtilization == p.cpuUtilization
    ensures InPercentRange(p) ==> InPercentRange(r)
  {
    var cpu :=
      if p.lastActiveJiffies != 0 && p.lastTotalJiffies != 0 && total - p.lastTotalJiffies > 0 then
        Clamp(Percent((active - p.lastActiveJiffies) as real, (total - p.lastTotalJiffies) as real))
      else p.cpuUtilization;
    p.(cpuUtilization := cpu, lastActiveJiffies := active, lastTotalJiffies := total)
  }

  /** When the share is recomputed: no active advance gives 0, an active
      advance at least the total advance gives 100, and in between the
      share is the active advance in percent of the total advance. */
  lemma {:induction false} RecomputedShare(p: Process, active: int, total: int)
    requires p.lastActiveJiffies != 0 && p.lastTotalJiffies != 0 && total - p.lastTotalJiffies > 0
    ensures var r := UpdateCpuUtilization(p, active, total);
      var ad := active - p.lastActiveJiffies;
      var td := total - p.lastTotalJiffies;
      (ad <= 0 ==> r.cpuUtilization == 0.0) &&
      (ad >= td ==> r.cpuUtilization == 100.0) &&
      (0 <= ad <= td ==> r.cpuUtilization * td as real == 100.0 * ad as real)
  {
    var ad := active - p.lastActiveJiffies;
    var td := total - p.lastTotalJiffies;
    var x := Percent(ad as real, td as real);
    assert x * td as real == 100.0 * ad as real;
    if ad <= 0 {
      NonPositiveShare(ad as real, td as real, x);
    } else if ad >= td {
      FullShare(ad as real, td as real, x);
    }
  }

  lemma {:induction false} NonPositiveShare(ad: real, td: real, x: real)
    requires td > 0.0 && ad <= 0.0 && x * td == 100.0 * ad
    ensures x <= 0.0
  {
  }

  lemma {:induction false} FullShare(ad: real, td: real, x: real)
    requires td > 0.0 && ad >= td && x * td == 100.0 * ad
    ensures x >= 100.0
  {
    assert (x - 100.0) * td == 100.0 * (ad - td);
  }

  /** Feeding a sequence of samples, one per refresh. */
  function Replay(p: Process, samples: seq<(int, int)>): Process
    decreases |samples|
  {
    if |samples| == 0 then p
    else Replay(UpdateCpuUtilization(p, samples[0].0, samples[0].1), samples[1..])
  }

  /** The share stays in [0, 100] however many samples are fed, starting
      from a constructed process; the last sample is the one stored. */
  lemma {:induction false} ReplayInRange(p: Process, samples: seq<(int, int)>)
    requires InPercentRange(p)
    ensures InPercentRange(Replay(p, samples))
    ensures |samples| > 0 ==> Replay(p, samples).lastActiveJiffies == samples[|samples| - 1].0 &&
                               Replay(p, samples).lastTotalJiffies == samples[|samples| - 1].1
    ensures Replay(p, samples).pid == p.pid && Replay(p, samples).memory == p.memory
    decreases |samples|
  {
    if |samples| > 0 {
      var tail := samples[1..];
      var q := UpdateCpuUtilization(p, samples[0].0, samples[0].1);
      ReplayInRange(q, tail);
      if |tail| > 0 {
        assert tail[|tail| - 1] == samples[|samples| - 1];
      }
    }
  }

  // ---------------------------------------------------------------------------
  // Comparators
  // ---------------------------------------------------------------------------

  /** `operator<`: more memory first. */
  predicate Less(a: Process, b: Process) {
    a.memory > b.memory
  }

  /** `compareByMemory`: more memory first. */
  predicate CompareByMemory(a: Process, b: Process) {
    a.memory > b.memory
  }

  /** `compareByCpu`: higher CPU share first. */
  predicate CompareByCpu(a: Process, b: Process) {
    a.cpuUtilization > b.cpuUtilization
  }

  /** All three comparators are strict weak orders, so `std::sort` may use
      them; `operator<` orders exactly as `compareByMemory`. */
  lemma {:induction false} ComparatorsAreStrictWeakOrders()
    ensures StrictWeakOrder(Less) && StrictWeakOrder(CompareByMemory) && StrictWeakOrder(CompareByCpu)
    ensures forall a, b :: Less(a, b) == CompareByMemory(a, b)
  {
  }

  /** A sequence sorted with `compareByMemory` lists memory from largest to
      smallest, and conversely. */
  lemma {:induction false} SortedByMemory(s: seq<Process>)
    ensures Sorted(CompareByMemory, s) <==> forall i, j :: 0 <= i < j < |s| ==> s[i].memory >= s[j].memory
  {
  }

  /** A sequence sorted with `compareByCpu` lists CPU shares from largest to
      smallest, and conversely. */
  lemma {:induction false} SortedByCpu(s: seq<Process>)
    ensures Sorted(CompareByCpu, s) <==> forall i, j :: 0 <= i < j < |s| ==> s[i].cpuUtilization >= s[j].cpuUtilization
  {
  }
}
