/** `UIManager` (ui_Manager.cpp): the four fields the controller keeps, what
    one key press does to them, the order the process table is shown in,
    the pure rules by which a process becomes a table row, and the main
    loop. The terminal itself is not modelled: the key `getch` returns, the
    window size and what the readers return in each iteration are inputs. */
module UIManager {
  import opened Wrappers
  import opened Text
  import opened Conversions
  import opened Sorting
  import opened SystemInfoReader

  // ---------------------------------------------------------------------------
  // Controller state
  // ---------------------------------------------------------------------------

  datatype SortType = SortCpu | SortMemory | SortPid | SortName

  /** `current_sort`, `sort_descending`, `selected_process` (a C `int`) and
      `should_exit`. */
  datatype UIState = UIState(currentSort: SortType, sortDescending: bool, selectedProcess: int, shouldExit: bool)

  /** The selection is never negative. */
  predicate Valid(s: UIState) {
    s.selectedProcess >= 0
  }

  /** The constructor: sorted by CPU, descending, first row selected, not
      exiting. */
  function Initial(): (s: UIState)
    ensures Valid(s) && !s.shouldExit
    ensures s.currentSort == SortCpu && s.sortDescending && s.selectedProcess == 0
  {
    UIState(SortCpu, true, 0, false)
  }

  // ---------------------------------------------------------------------------
  // Key presses
  // ---------------------------------------------------------------------------

  /** ncurses key codes: `KEY_DOWN`, `KEY_UP` and `KEY_F(n)`. */
  const KEY_DOWN: int := 0x102
  const KEY_UP: int := 0x103
  const KEY_F0: int := 0x108

  function KeyF(n: nat): int {
    KEY_F0 + n
  }

  predicate IsQuitKey(ch: int) {
    ch == 'q' as int || ch == 'Q' as int
  }

  predicate IsKillKey(ch: int) {
    ch == 'k' as int || ch == 'K' as int
  }

  predicate IsSortKey(ch: int) {
    ch == KeyF(1) || ch == KeyF(2) || ch == KeyF(3)
  }

  /** What a key press leaves behind: the new state and the pid sent
      `SIGTERM`, if any. */
  datatype Outcome = Outcome(state: UIState, signalled: Option<int>)

  /** `handleInput`. refetched is what `getProcessList` returns when the
      key is `k` or `K` (its exception leaves the call); no other key reads
      it. Any other key, including `ERR` when `getch` times out, changes
      nothing. */
  function HandleInput(s: UIState, ch: int, refetched: Result<seq<ProcessInfo>>): (r: Result<Outcome>)
    ensures r.Thrown? <==> IsKillKey(ch) && refetched.Thrown?
    ensures r.Ok? ==> (r.value.state.shouldExit <==> s.shouldExit || IsQuitKey(ch))
    ensures r.Ok? && r.value.signalled.Some? ==> IsKillKey(ch)
    ensures r.Ok? && !IsSortKey(ch) ==>
      r.value.state.currentSort == s.currentSort && r.value.state.sortDescending == s.sortDescending
    ensures Valid(s) && r.Ok? ==> Valid(r.value.state)
    ensures IsQuitKey(ch) ==> r == Ok(Outcome(s.(shouldExit := true), None))
    ensures ch == KEY_UP ==>
      r == Ok(Outcome(s.(selectedProcess := if s.selectedProcess > 0 then s.selectedProcess - 1 else s.selectedProcess), None))
    ensures ch == KEY_DOWN ==> r.Ok? && r.value == Outcome(s.(selectedProcess := s.selectedProcess + 1), None)
    ensures IsKillKey(ch) && r.Ok? ==> r.value.state == s
    ensures ch == KeyF(1) ==> r == Ok(Outcome(s.(currentSort := SortCpu, sortDescending := true, selectedProcess := 0), None))
    ensures ch == KeyF(2) ==> r == Ok(Outcome(s.(currentSort := SortMemory, sortDescending := true, selectedProcess := 0), None))
    ensures ch == KeyF(3) ==> r == Ok(Outcome(s.(currentSort := SortPid, sortDescending := false, selectedProcess := 0), None))
    ensures !IsQuitKey(ch) && !IsKillKey(ch) && !IsSortKey(ch) && ch != KEY_UP && ch != KEY_DOWN ==> r == Ok(Outcome(s, None))
  {
    if IsQuitKey(ch) then Ok(Outcome(s.(shouldExit := true), None))
    else if ch == KEY_UP then
      Ok(Outcome(if s.selectedProcess > 0 then s.(selectedProcess := s.selectedProcess - 1) else s, None))
    else if ch == KEY_DOWN then Ok(Outcome(s.(selectedProcess := s.selectedProcess + 1), None))
    else if IsKillKey(ch) then
      match refetched
      case Thrown(e) => Thrown(e)
      case Ok(ps) => Ok(Outcome(s, KillTarget(s, ps)))
    else if ch == KeyF(1) then Ok(Outcome(s.(currentSort := SortCpu, sortDescending := true, selectedProcess := 0), None))
    else if ch == KeyF(2) then Ok(Outcome(s.(currentSort := SortMemory, sortDescending := true, selectedProcess := 0), None))
    else if ch == KeyF(3) then Ok(Outcome(s.(currentSort := SortPid, sortDescending := false, selectedProcess := 0), None))
    else Ok(Outcome(s, None))
  }

  /** The pid the kill key signals: the one at the selected index of the
      freshly sorted list, when the index is inside it. */
  function KillTarget(s: UIState, ps: seq<ProcessInfo>): (target: Option<int>)
    ensures target.Some? <==> 0 <= s.selectedProcess < |ps|
    ensures target.Some? ==> exists i :: 0 <= i < |ps| && ps[i].pid == target.value
    ensures target.Some? ==> target.value == SortProcesses(s.currentSort, ps)[s.selectedProcess].pid
  {
    var sorted := SortProcesses(s.currentSort, ps);
    if 0 <= s.selectedProcess < |sorted| then
      var p := sorted[s.selectedProcess];
      assert p in multiset(ps);
      Some(p.pid)
    else None
  }

  // ---------------------------------------------------------------------------
  // Ordering
  // ---------------------------------------------------------------------------

  /** The comparator `sortProcesses` hands to `std::sort` for each key. */
  function LessFor(key: SortType): (ProcessInfo, ProcessInfo) -> bool {
    match key
    case SortCpu => (a: ProcessInfo, b: ProcessInfo) => a.cpuUsage > b.cpuUsage
    case SortMemory => (a: ProcessInfo, b: ProcessInfo) => a.memoryUsage > b.memoryUsage
    case SortPid => (a: ProcessInfo, b: ProcessInfo) => a.pid < b.pid
    case SortName => (a: ProcessInfo, b: ProcessInfo) => LexLess(a.name, b.name)
  }

  /** Each comparator meets the requirement `std::sort` places on it. */
  lemma {:induction false} LessForIsStrictWeakOrder(key: SortType)
    ensures StrictWeakOrder(LessFor(key))
  {
    if key == SortName {
      var less := LessFor(key);
      forall a: ProcessInfo
        ensures !less(a, a)
      {
        LexIrreflexive(a.name);
      }
      forall a: ProcessInfo, b: ProcessInfo, c: ProcessInfo | less(a, b) && less(b, c)
        ensures less(a, c)
      {
        LexTransitive(a.name, b.name, c.name);
      }
      forall a: ProcessInfo, b: ProcessInfo, c: ProcessInfo | Equivalent(less, a, b) && Equivalent(less, b, c)
        ensures Equivalent(less, a, c)
      {
        LexTotal(a.name, b.name);
        LexTotal(b.name, c.name);
        LexIrreflexive(a.name);
      }
    }
  }

  /** `sortProcesses`: a permutation of the list ordered by the current key
      alone (the descending flag is not consulted), with no promise about
      the order of ties. */
  function SortProcesses(key: SortType, ps: seq<ProcessInfo>): (r: seq<ProcessInfo>)
    ensures multiset(r) == multiset(ps) && |r| == |ps|
    ensures Sorted(LessFor(key), r)
    ensures key == SortCpu ==> forall i, j :: 0 <= i < j < |r| ==> r[i].cpuUsage >= r[j].cpuUsage
    ensures key == SortMemory ==> forall i, j :: 0 <= i < j < |r| ==> r[i].memoryUsage >= r[j].memoryUsage
    ensures key == SortPid ==> forall i, j :: 0 <= i < j < |r| ==> r[i].pid <= r[j].pid
    ensures key == SortName ==> forall i, j :: 0 <= i < j < |r| ==> !LexLess(r[j].name, r[i].name)
  {
    LessForIsStrictWeakOrder(key);
    SortSorted(LessFor(key), ps);
    Sort(LessFor(key), ps)
  }

  /** `std::sort` leaves the order of ties open, and the insertion sort
      behind SortProcesses fixes one such order. Every order `std::sort`
      may produce, any permutation of the list sorted by the key, shows the
      same value of that key on every row: the same CPU shares, memory
      shares, pids or names. Sorting a list already sorted gives back the
      same key column. */
  lemma {:induction false} SortedOrdersAgree(key: SortType, ps: seq<ProcessInfo>, other: seq<ProcessInfo>)
    requires multiset(other) == multiset(ps) && Sorted(LessFor(key), other)
    ensures |other| == |SortProcesses(key, ps)|
    ensures key == SortCpu ==>
      forall i :: 0 <= i < |other| ==> other[i].cpuUsage == SortProcesses(key, ps)[i].cpuUsage
    ensures key == SortMemory ==>
      forall i :: 0 <= i < |other| ==> other[i].memoryUsage == SortProcesses(key, ps)[i].memoryUsage
    ensures key == SortPid ==>
      forall i :: 0 <= i < |other| ==> other[i].pid == SortProcesses(key, ps)[i].pid
    ensures key == SortName ==>
      forall i :: 0 <= i < |other| ==> other[i].name == SortProcesses(key, ps)[i].name
  {
    var r := SortProcesses(key, ps);
    match key
    case SortCpu =>
      SameKeys((p: ProcessInfo) => p.cpuUsage, (x: real, y: real) => x > y, other, r);
    case SortMemory =>
      SameKeys((p: ProcessInfo) => p.memoryUsage, (x: real, y: real) => x > y, other, r);
    case SortPid =>
      SameKeys((p: ProcessInfo) => p.pid, (x: int, y: int) => x < y, other, r);
    case SortName =>
      forall a: string, b: string
        ensures LexLess(a, b) || LexLess(b, a) || a == b
      {
        LexTotal(a, b);
      }
      SameKeys((p: ProcessInfo) => p.name, LexLess, other, r);
  }

  // ---------------------------------------------------------------------------
  // Table rows
  // ---------------------------------------------------------------------------

  /** Rows of the window the process table does not use, and the column
      where the command starts (one more for the blank before it). */
  const RESERVED_ROWS: int := 8
  const COMMAND_COLUMN: int := 61
  const USER_WIDTH: nat := 12
  const USER_KEPT: nat := 9
  const ELLIPSIS: string := "..."

  /** A user name longer than 12 characters keeps its first 9 and ends in
      `...`, so that it fills the 12 columns exactly. */
  function UserDisplay(user: string): (d: string)
    ensures |user| <= USER_WIDTH ==> d == user
    ensures |user| > USER_WIDTH ==> |d| == USER_WIDTH && d[..USER_KEPT] == user[..USER_KEPT] && d[USER_KEPT..] == ELLIPSIS
  {
    if |user| > USER_WIDTH then Substr(user, 0, Some(USER_KEPT)).value + ELLIPSIS else user
  }

  /** A name already shown is shown as it is. */
  lemma {:induction false} UserDisplayIdempotent(user: string)
    ensures UserDisplay(UserDisplay(user)) == UserDisplay(user)
  {
    assert |UserDisplay(user)| <= USER_WIDTH;
  }

  /** The memory column: kB below 1024 kB, MB below 1024 * 1024 kB, GB
      beyond. MB and GB are shown to one decimal, which is not modelled. */
  datatype MemoryText = Kilobytes(text: string) | Megabytes(mb: real) | Gigabytes(gb: real)

  const KB_PER_MB: int := 1024
  const KB_PER_GB: int := 1024 * 1024

  function MemoryDisplay(kb: int): (m: MemoryText)
    ensures m.Kilobytes? <==> kb < KB_PER_MB
    ensures m.Megabytes? <==> KB_PER_MB <= kb < KB_PER_GB
    ensures m.Gigabytes? <==> KB_PER_GB <= kb
    ensures m.Kilobytes? ==> m.text == IntToString(kb) + " KB"
    ensures m.Megabytes? ==> m.mb * KB_PER_MB as real == kb as real && 1.0 <= m.mb < 1024.0
    ensures m.Gigabytes? ==> m.gb * KB_PER_GB as real == kb as real && 1.0 <= m.gb
  {
    if kb < KB_PER_MB then Kilobytes(IntToString(kb) + " KB")
    else if kb < KB_PER_GB then Megabytes(kb as real / KB_PER_MB as real)
    else Gigabytes(kb as real / KB_PER_GB as real)
  }

  /** The three header lines: CPU usage, memory used and total in GB with
      the share used, and the process counts. The share is a division by
      the total, which has no value when the total is 0 (the double
      division gives infinity or NaN there); None stands for that. */
  datatype Header = Header(cpuUsage: Option<real>, usedGb: real, totalGb: real, memoryPercent: Option<real>,
                           totalProcesses: nat, runningProcesses: nat)

  function HeaderOf(info: SystemInfo): (h: Header)
    ensures h.cpuUsage == info.cpuUsage
    ensures h.usedGb * KB_PER_GB as real == info.usedMemory as real
    ensures h.totalGb * KB_PER_GB as real == info.totalMemory as real
    ensures h.memoryPercent.Some? <==> info.totalMemory != 0
    ensures h.memoryPercent.Some? ==> h.memoryPercent.value * info.totalMemory as real == 100.0 * info.usedMemory as real
    ensures 0 <= info.usedMemory <= info.totalMemory && info.totalMemory != 0 ==>
      0.0 <= h.memoryPercent.value <= 100.0
    ensures h.totalProcesses == info.totalProcesses && h.runningProcesses == info.runningProcesses
  {
    var percent := if info.totalMemory == 0 then None else Some(Percent(info.usedMemory as real, info.totalMemory as real));
    Header(info.cpuUsage, info.usedMemory as real / KB_PER_GB as real, info.totalMemory as real / KB_PER_GB as real,
           percent, info.totalProcesses, info.runningProcesses)
  }

  /** The command column as the table draws it: the room left is
      `width - 61`, a C `int`; both the comparison with the name's length
      and the count handed to `substr` convert it to `size_t`. A name that
      fits is shown as it is, and so is every name in a window narrower
      than 61 columns, where the negative room compares as a huge size. A
      longer name is cut to room - 3 characters followed by `...`; rooms of
      0, 1 and 2 are the exception NameDisplayAsWrittenGrows shows. */
  function NameDisplayAsWritten(name: string, room: int): (d: string)
    ensures InIntRange(room) && |name| <= room ==> d == name
    ensures InIntRange(room) && room < 0 && |name| <= LONG_MAX ==> d == name
    ensures InIntRange(room) && 3 <= room < |name| ==>
      |d| == room && d[..room - 3] == name[..room - 3] && d[room - 3..] == ELLIPSIS
  {
    if |name| > ToSize(room) then Substr(name, 0, Some(ToSize(room - 3))).value + ELLIPSIS else name
  }

  /** When the room is 0, 1 or 2 columns, `room - 3` is negative and becomes
      a huge count: the whole name is kept and `...` is added, so the cut
      name is longer than the name itself. */
  lemma {:induction false} NameDisplayAsWrittenGrows(name: string, room: int)
    requires 0 <= room < 3 && room < |name| <= LONG_MAX
    ensures NameDisplayAsWritten(name, room) == name + ELLIPSIS
    ensures |NameDisplayAsWritten(name, room)| > |name| && |NameDisplayAsWritten(name, room)| > 3
  {
    assert ToSize(room) == room;
    assert ToSize(room - 3) > |name|;
  }

  /** The command column as evidently intended: a name that does not fit
      is cut to exactly the room, its first room - 3 characters followed by
      `...`, and to as much of `...` as fits when the room is under 3. A
      negative room leaves the name as it is, as the code does. */
  function NameDisplay(name: string, room: int): (d: string)
    ensures (room < 0 || |name| <= room) ==> d == name
    ensures 0 <= room < |name| ==> |d| == room
    ensures 3 <= room < |name| ==> d[..room - 3] == name[..room - 3] && d[room - 3..] == ELLIPSIS
    ensures 0 <= room < 3 && room < |name| ==> d == ELLIPSIS[..room]
  {
    if 0 <= room < |name| then
      if room < 3 then ELLIPSIS[..room] else Substr(name, 0, Some(room - 3)).value + ELLIPSIS
    else name
  }

  /** The two agree except when the room is 0, 1 or 2 columns. */
  lemma {:induction false} NameDisplayAgrees(name: string, room: int)
    requires InIntRange(room) && |name| <= LONG_MAX
    requires room < 0 || room >= 3
    ensures NameDisplayAsWritten(name, room) == NameDisplay(name, room)
  {
    if room < 0 {
      assert ToSize(room) > |name|;
    } else {
      assert ToSize(room) == room && ToSize(room - 3) == room - 3;
    }
  }

  /** One line of the table. */
  datatype Row = Row(pid: int, user: string, cpuUsage: real, memoryUsage: real, memory: MemoryText,
                     state: string, command: string, highlighted: bool)

  function RowOf(p: ProcessInfo, room: int, highlighted: bool): Row {
    Row(p.pid, UserDisplay(p.user), p.cpuUsage, p.memoryUsage, MemoryDisplay(p.memoryKb), p.state,
        NameDisplayAsWritten(p.name, room), highlighted)
  }

  /** `min(size, height - 8)` rows are drawn, none when that is negative. */
  function VisibleCount(n: nat, height: int): (k: nat)
    ensures k <= n && k <= (if height - RESERVED_ROWS < 0 then 0 else height - RESERVED_ROWS)
    ensures k < n ==> k == (if height - RESERVED_ROWS < 0 then 0 else height - RESERVED_ROWS)
  {
    var maxRows := height - RESERVED_ROWS;
    if n < maxRows then n else if maxRows < 0 then 0 else maxRows
  }

  /** `drawProcessList`: the first rows of the list in order, the row whose
      index equals the selection highlighted. */
  function ProcessRows(ps: seq<ProcessInfo>, height: int, width: int, selected: int): (rows: seq<Row>)
    ensures |rows| == VisibleCount(|ps|, height)
    ensures forall i :: 0 <= i < |rows| ==> (rows[i].highlighted <==> i == selected)
    ensures forall i :: 0 <= i < |rows| ==> rows[i].pid == ps[i].pid && rows[i].state == ps[i].state
    ensures forall i :: 0 <= i < |rows| ==> rows[i].user == UserDisplay(ps[i].user)
    ensures forall i :: 0 <= i < |rows| ==> rows[i].cpuUsage == ps[i].cpuUsage && rows[i].memoryUsage == ps[i].memoryUsage
    ensures forall i :: 0 <= i < |rows| ==> rows[i].memory == MemoryDisplay(ps[i].memoryKb)
    ensures forall i :: 0 <= i < |rows| ==> rows[i].command == NameDisplayAsWritten(ps[i].name, width - COMMAND_COLUMN)
  {
    var k := VisibleCount(|ps|, height);
    seq(k, i requires 0 <= i < k => RowOf(ps[i], width - COMMAND_COLUMN, i == selected))
  }

  /** At most one row is highlighted, and one is exactly when the selection
      is a drawn row. */
  lemma {:induction false} OneHighlightedRow(ps: seq<ProcessInfo>, height: int, width: int, selected: int)
    ensures var rows := ProcessRows(ps, height, width, selected);
      (forall i, j :: 0 <= i < j < |rows| ==> !(rows[i].highlighted && rows[j].highlighted)) &&
      ((exists i :: 0 <= i < |rows| && rows[i].highlighted) <==> 0 <= selected < |rows|)
  {
    var rows := ProcessRows(ps, height, width, selected);
    if 0 <= selected < |rows| {
      assert rows[selected].highlighted;
    }
  }

  /** With the list unchanged since it was drawn, the kill key signals the
      pid of the highlighted row; a selection below the drawn rows but
      inside the list still signals a process, one that is not on screen. */
  lemma {:induction false} KillTargetsSelectedRow(s: UIState, ps: seq<ProcessInfo>, height: int, width: int)
    requires Valid(s)
    ensures var rows := ProcessRows(SortProcesses(s.currentSort, ps), height, width, s.selectedProcess);
      (s.selectedProcess < |rows| ==>
        rows[s.selectedProcess].highlighted &&
        HandleInput(s, 'k' as int, Ok(ps)) == Ok(Outcome(s, Some(rows[s.selectedProcess].pid)))) &&
      (|rows| <= s.selectedProcess < |ps| ==> HandleInput(s, 'k' as int, Ok(ps)).value.signalled.Some?) &&
      (|ps| <= s.selectedProcess ==> HandleInput(s, 'k' as int, Ok(ps)) == Ok(Outcome(s, None)))
  {
    var sorted := SortProcesses(s.currentSort, ps);
    var rows := ProcessRows(sorted, height, width, s.selectedProcess);
    if s.selectedProcess < |rows| {
      assert rows[s.selectedProcess].pid == sorted[s.selectedProcess].pid;
    }
  }

  // ---------------------------------------------------------------------------
  // The main loop
  // ---------------------------------------------------------------------------

  /** What one iteration reads: the snapshot and the list (either may have
      thrown), the window size, the key, and the list the kill key would
      read. */
  datatype Frame = Frame(info: Result<SystemInfo>, listed: Result<seq<ProcessInfo>>, height: int, width: int,
                         key: int, refetched: Result<seq<ProcessInfo>>)

  /** One completed iteration: the header and the table drawn, then the key
      handled. */
  datatype Step = Step(header: Header, screen: seq<Row>, outcome: Outcome)

  function Iterate(s: UIState, f: Frame): (r: Result<Step>)
    ensures r.Ok? ==> f.info.Ok? && f.listed.Ok? && HandleInput(s, f.key, f.refetched) == Ok(r.value.outcome)
    ensures r.Ok? ==> r.value.header == HeaderOf(f.info.value)
    ensures r.Ok? ==>
      r.value.screen == ProcessRows(SortProcesses(s.currentSort, f.listed.value), f.height, f.width, s.selectedProcess)
    ensures r.Thrown? <==> f.info.Thrown? || f.listed.Thrown? || HandleInput(s, f.key, f.refetched).Thrown?
  {
    match f.info
    case Thrown(e) => Thrown(e)
    case Ok(info) =>
      match f.listed
      case Thrown(e) => Thrown(e)
      case Ok(ps) =>
        var screen := ProcessRows(SortProcesses(s.currentSort, ps), f.height, f.width, s.selectedProcess);
        match HandleInput(s, f.key, f.refetched)
        case Thrown(e) => Thrown(e)
        case Ok(o) => Ok(Step(HeaderOf(info), screen, o))
  }

  /** How the loop ended: the last state, the tables drawn and pids
      signalled by the completed iterations, and the exception that left
      the loop, if any. */
  datatype LoopEnd = LoopEnd(state: UIState, screens: seq<seq<Row>>, signalled: seq<int>, error: Option<Exception>)

  function PidsOf(target: Option<int>): seq<int> {
    match target
    case None => []
    case Some(pid) => [pid]
  }

  /** One pass of the loop body, as a value: `Iterate`, or any step that
      keeps the selection valid. The loop is stated for any such step. */
  type Stepper = (UIState, Frame) -> Result<Step>

  ghost predicate KeepsValid(iterate: Stepper) {
    forall s: UIState, f: Frame :: Valid(s) && iterate(s, f).Ok? ==> Valid(iterate(s, f).value.outcome.state)
  }

  lemma {:induction false} IterateKeepsValid()
    ensures KeepsValid(Iterate)
  {
    forall s: UIState, f: Frame | Valid(s) && Iterate(s, f).Ok?
      ensures Valid(Iterate(s, f).value.outcome.state)
    {
    }
  }

  /** `mainLoop` over the given frames. The loop runs only while the exit
      flag is clear; it stops early only on an exception or when the flag
      is set. */
  function Run(s: UIState, frames: seq<Frame>): (e: LoopEnd)
    ensures |e.screens| <= |frames|
    ensures s.shouldExit ==> e == LoopEnd(s, [], [], None)
    ensures e.error.None? && |e.screens| < |frames| ==> e.state.shouldExit
    ensures Valid(s) ==> Valid(e.state)
  {
    IterateKeepsValid();
    RunWith(Iterate, s, frames)
  }

  function RunWith(iterate: Stepper, s: UIState, frames: seq<Frame>): (e: LoopEnd)
    ensures |e.screens| <= |frames|
    ensures s.shouldExit ==> e == LoopEnd(s, [], [], None)
    ensures e.error.None? && |e.screens| < |frames| ==> e.state.shouldExit
    ensures KeepsValid(iterate) && Valid(s) ==> Valid(e.state)
    decreases |frames|
  {
    if s.shouldExit || |frames| == 0 then LoopEnd(s, [], [], None)
    else
      match iterate(s, frames[0])
      case Thrown(err) => LoopEnd(s, [], [], Some(err))
      case Ok(step) =>
        var rest := RunWith(iterate, step.outcome.state, frames[1..]);
        LoopEnd(rest.state, [step.screen] + rest.screens, PidsOf(step.outcome.signalled) + rest.signalled, rest.error)
  }

  /** `q` ends the loop after the iteration that reads it. */
  lemma {:induction false} QuitEndsLoop(s: UIState, frames: seq<Frame>)
    requires !s.shouldExit && |frames| > 0 && IsQuitKey(frames[0].key)
    requires frames[0].info.Ok? && frames[0].listed.Ok?
    ensures Run(s, frames).state == s.(shouldExit := true)
    ensures |Run(s, frames).screens| == 1 && Run(s, frames).signalled == [] && Run(s, frames).error.None?
  {
    var step := Iterate(s, frames[0]).value;
    assert step.outcome == Outcome(s.(shouldExit := true), None);
    assert RunWith(Iterate, step.outcome.state, frames[1..]) == LoopEnd(s.(shouldExit := true), [], [], None);
  }

  /** The loop after some completed iterations: what they drew and
      signalled, in front of how the rest of the loop ends. */
  function After(screens: seq<seq<Row>>, signalled: seq<int>, e: LoopEnd): LoopEnd {
    LoopEnd(e.state, screens + e.screens, signalled + e.signalled, e.error)
  }

  method MainLoop(s0: UIState, frames: seq<Frame>) returns (e: LoopEnd)
    ensures e == Run(s0, frames)
    ensures Valid(s0) ==> Valid(e.state)
  {
    e := LoopWith(Iterate, s0, frames);
  }

  /** `while (!should_exit) { ... }` with the given loop body. */
  method LoopWith(iterate: Stepper, s0: UIState, frames: seq<Frame>) returns (e: LoopEnd)
    ensures e == RunWith(iterate, s0, frames)
  {
    var s := s0;
    var i := 0;
    var screens: seq<seq<Row>> := [];
    var signalled: seq<int> := [];
    while !s.shouldExit && i < |frames|
      invariant 0 <= i <= |frames| && |screens| == i
      invariant RunWith(iterate, s0, frames) == After(screens, signalled, RunWith(iterate, s, frames[i..]))
      decreases |frames| - i
    {
      var r := iterate(s, frames[i]);
      if r.Thrown? {
        RunThrows(iterate, s, frames, i);
        return LoopEnd(s, screens, signalled, Some(r.error));
      }
      var step := r.value;
      RunSteps(iterate, s, frames, i);
      AfterStep(screens, signalled, step.screen, PidsOf(step.outcome.signalled),
                RunWith(iterate, step.outcome.state, frames[i + 1..]));
      screens := screens + [step.screen];
      signalled := signalled + PidsOf(step.outcome.signalled);
      s := step.outcome.state;
      i := i + 1;
    }
    assert RunWith(iterate, s, frames[i..]) == LoopEnd(s, [], [], None);
    assert screens + [] == screens && signalled + [] == signalled;
    e := LoopEnd(s, screens, signalled, None);
  }

  /** An iteration that throws ends the loop with its exception. */
  lemma {:induction false} RunThrows(iterate: Stepper, s: UIState, frames: seq<Frame>, i: nat)
    requires !s.shouldExit && i < |frames| && iterate(s, frames[i]).Thrown?
    ensures RunWith(iterate, s, frames[i..]) == LoopEnd(s, [], [], Some(iterate(s, frames[i]).error))
  {
    assert frames[i..][0] == frames[i];
  }

  /** A completed iteration is followed by the loop over the remaining
      frames. */
  lemma {:induction false} RunSteps(iterate: Stepper, s: UIState, frames: seq<Frame>, i: nat)
    requires !s.shouldExit && i < |frames| && iterate(s, frames[i]).Ok?
    ensures var step := iterate(s, frames[i]).value;
      var rest := RunWith(iterate, step.outcome.state, frames[i + 1..]);
      RunWith(iterate, s, frames[i..]) ==
        LoopEnd(rest.state, [step.screen] + rest.screens, PidsOf(step.outcome.signalled) + rest.signalled, rest.error)
  {
    assert frames[i..][0] == frames[i] && frames[i..][1..] == frames[i + 1..];
  }

  lemma {:induction false} AfterStep(screens: seq<seq<Row>>, signalled: seq<int>, screen: seq<Row>, pids: seq<int>, e: LoopEnd)
    ensures After(screens, signalled, LoopEnd(e.state, [screen] + e.screens, pids + e.signalled, e.error)) ==
      After(screens + [screen], signalled + pids, e)
  {
    assert screens + ([screen] + e.screens) == (screens + [screen]) + e.screens;
    assert signalled + (pids + e.signalled) == (signalled + pids) + e.signalled;
  }
}
