/** `SystemInfoReader`: the whole-system snapshot (CPU share, memory, process
    counts) and the list of processes the monitor displays, read from
    `/proc`. */
module SystemInfoReader {
  import opened Wrappers
  import opened Text
  import opened Conversions
  import opened InputStream
  import opened ProcFs

  /** One row of the process table. */
  datatype ProcessInfo = ProcessInfo(
    pid: int,
    name: string,
    user: string,
    cpuUsage: real,
    memoryUsage: real,
    memoryKb: int,
    state: string)

  /** The header figures. cpuUsage is None when the `cpu` line did not
      provide the eight counters the computation reads (they are left
      uninitialised in that case). */
  datatype SystemInfo = SystemInfo(
    cpuUsage: Option<real>,
    totalMemory: int,
    usedMemory: int,
    freeMemory: int,
    runningProcesses: nat,
    totalProcesses: nat)

  const MEM_TOTAL: string := "MemTotal:"
  const MEM_AVAILABLE: string := "MemAvailable:"
  const UID_LABEL: string := "Uid:"
  const RUNNING: string := "R"
  const UNKNOWN_USER: string := "unknown"

  /** The index of the first line that starts with prefix. */
  function FirstWith(lines: seq<string>, prefix: string): (r: Option<nat>)
    ensures r.Some? ==> r.value < |lines| && StartsWith(lines[r.value], prefix)
    ensures forall j :: 0 <= j < |lines| && (r.None? || j < r.value) ==> !StartsWith(lines[j], prefix)
  {
    if |lines| == 0 then None
    else if StartsWith(lines[0], prefix) then Some(0)
    else match FirstWith(lines[1..], prefix)
      case None => None
      case Some(i) => Some(i + 1)
  }

  // ---------------------------------------------------------------------------
  // CPU share
  // ---------------------------------------------------------------------------

  /** The first eight counters of the `cpu` line of `/proc/stat`. */
  datatype CpuTimes = CpuTimes(
    user: int, nice: int, system: int, idle: int,
    iowait: int, irq: int, softirq: int, steal: int)

  function IdleTime(c: CpuTimes): int {
    c.idle + c.iowait
  }

  function BusyTime(c: CpuTimes): int {
    c.user + c.nice + c.system + c.irq + c.softirq + c.steal
  }

  predicate NonNegative(c: CpuTimes) {
    c.user >= 0 && c.nice >= 0 && c.system >= 0 && c.idle >= 0 &&
    c.iowait >= 0 && c.irq >= 0 && c.softirq >= 0 && c.steal >= 0
  }

  /** The busy share of all counted time, in percent; 0 when nothing has
      been counted. */
  function BusyPercent(c: CpuTimes): (r: real)
    ensures IdleTime(c) + BusyTime(c) == 0 ==> r == 0.0
    ensures IdleTime(c) + BusyTime(c) != 0 ==> r * (IdleTime(c) + BusyTime(c)) as real == 100.0 * BusyTime(c) as real
    ensures NonNegative(c) ==> 0.0 <= r <= 100.0
  {
    var total := IdleTime(c) + BusyTime(c);
    if total == 0 then 0.0 else Percent(BusyTime(c) as real, total as real)
  }

  /** The values successive `%ld` conversions of `sscanf` store, at most max
      of them. Each conversion skips white space and reads like `strtol`
      (saturating); the first one that finds no number ends the scan. */
  function ScanLongs(s: string, max: nat): (vs: seq<int>)
    ensures |vs| <= max
  {
    ScanWith(LeadingInteger, s, max)
  }

  /** Successive conversions by `read`, each saturated to the `long` range,
      until max values are stored or `read` finds no number. */
  function ScanWith(read: string -> Option<Scanned>, s: string, max: nat): (vs: seq<int>)
    ensures |vs| <= max
    decreases max
  {
    if max == 0 then []
    else match read(s)
      case None => []
      case Some(sc) => [SaturateLong(sc.value)] + ScanWith(read, sc.rest, max - 1)
  }

  /** The first n values of vs, or all of them when there are fewer. */
  function Prefix(vs: seq<int>, n: nat): seq<int> {
    if n < |vs| then vs[..n] else vs
  }

  lemma {:induction false} PrefixCons(vs: seq<int>, tail: seq<int>, n: nat, m: nat)
    requires |vs| > 0 && tail == vs[1..] && n > 0 && m == n - 1
    ensures Prefix(vs, n) == [vs[0]] + Prefix(tail, m)
  {
  }

  /** Scanning a text of `long` numerals reads them in order, up to max. */
  lemma {:induction false} ScanLongsOfNumerals(s: string, vs: seq<int>, max: nat)
    requires |Words(s)| == |vs|
    requires forall i :: 0 <= i < |vs| ==> Words(s)[i] == IntToString(vs[i]) && InLongRange(vs[i])
    ensures ScanLongs(s, max) == Prefix(vs, max)
    decreases max
  {
    if max > 0 {
      if |vs| == 0 {
        LeadingIntegerOfBlank(s);
        assert ScanLongs(s, max) == [];
      } else {
        var rest := LeadingIntegerOfWord(s, vs[0]);
        var tail, m := vs[1..], max - 1;
        ScanLongsOfNumerals(rest, tail, m);
        ScanLongsCons(s, rest, vs[0], max, m);
        PrefixCons(vs, tail, max, m);
      }
    } else {
      assert Prefix(vs, max) == [];
    }
  }

  lemma {:induction false} ScanLongsCons(s: string, rest: string, v: int, max: nat, m: nat)
    requires max > 0 && m == max - 1
    requires LeadingInteger(s) == Some(Scanned(v, rest)) && InLongRange(v)
    ensures ScanLongs(s, max) == [v] + ScanLongs(rest, m)
  {
    ScanWithCons(LeadingInteger, s, rest, v, max, m);
  }

  lemma {:induction false} ScanWithCons(read: string -> Option<Scanned>, s: string, rest: string, v: int, max: nat, m: nat)
    requires max > 0 && m == max - 1
    requires read(s) == Some(Scanned(v, rest)) && InLongRange(v)
    ensures ScanWith(read, s, max) == [v] + ScanWith(read, rest, m)
  {
  }

  function TimesOf(vs: seq<int>): CpuTimes
    requires |vs| >= 8
  {
    CpuTimes(vs[0], vs[1], vs[2], vs[3], vs[4], vs[5], vs[6], vs[7])
  }

  /** `calculateCPUUsage`: match the literal `cpu` at the head of the first
      line of `/proc/stat`, then convert up to ten numbers. The result is
      defined only when the eight counters it adds up were all converted;
      the guest counters are scanned but never used. */
  function CalculateCpuUsage(statLines: seq<string>): (r: Option<real>)
    ensures !StartsWith(FirstLine(statLines), "cpu") ==> r.None?
    ensures StartsWith(FirstLine(statLines), "cpu") ==>
      (r.Some? <==> |ScanLongs(FirstLine(statLines)[3..], 10)| >= 8)
  {
    var line := FirstLine(statLines);
    if !StartsWith(line, "cpu") then None
    else
      var vs := ScanLongs(line[3..], 10);
      if |vs| < 8 then None else Some(BusyPercent(TimesOf(vs)))
  }

  /** A `cpu` line as the kernel writes it: the prefix, blanks, then at least
      the eight counters. The result is the busy share of those eight
      counters, whatever follows them, and lies in [0, 100]. */
  lemma {:induction false} CpuUsageOfLine(statLines: seq<string>, pad: string, vs: seq<int>)
    requires |statLines| > 0 && statLines[0] == "cpu" + pad + Join(Numerals(vs), ' ')
    requires AllSpaces(pad)
    requires |vs| >= 8 && forall i :: 0 <= i < |vs| ==> 0 <= vs[i] <= LONG_MAX
    ensures CalculateCpuUsage(statLines) == Some(BusyPercent(TimesOf(vs)))
    ensures 0.0 <= CalculateCpuUsage(statLines).value <= 100.0
  {
    var line := statLines[0];
    var body := line[3..];
    assert StartsWith(line, "cpu") && body == pad + Join(Numerals(vs), ' ');
    ScanOfPaddedNumerals(body, pad, vs);
    var scanned := ScanLongs(body, 10);
    assert TimesOf(scanned) == TimesOf(vs);
    assert NonNegative(TimesOf(vs));
  }

  lemma {:induction false} ScanOfPaddedNumerals(body: string, pad: string, vs: seq<int>)
    requires body == pad + Join(Numerals(vs), ' ')
    requires AllSpaces(pad)
    requires forall i :: 0 <= i < |vs| ==> InLongRange(vs[i])
    ensures ScanLongs(body, 10) == Prefix(vs, 10)
  {
    var ws := Numerals(vs);
    WordsOfNumerals(pad, vs);
    assert Words(body) == ws;
    NumeralsPointwise(vs);
    ScanLongsOfNumerals(body, vs, 10);
  }

  /** Only the first eight counters matter: two `cpu` lines that agree on
      them give the same result, whatever guest time follows. */
  lemma {:induction false} CpuUsageIgnoresGuest(a: seq<string>, padA: string, va: seq<int>,
                                                b: seq<string>, padB: string, vb: seq<int>)
    requires |a| > 0 && a[0] == "cpu" + padA + Join(Numerals(va), ' ') && AllSpaces(padA)
    requires |b| > 0 && b[0] == "cpu" + padB + Join(Numerals(vb), ' ') && AllSpaces(padB)
    requires |va| >= 8 && forall i :: 0 <= i < |va| ==> 0 <= va[i] <= LONG_MAX
    requires |vb| >= 8 && forall i :: 0 <= i < |vb| ==> 0 <= vb[i] <= LONG_MAX
    requires va[..8] == vb[..8]
    ensures CalculateCpuUsage(a) == CalculateCpuUsage(b)
  {
    CpuUsageOfLine(a, padA, va);
    CpuUsageOfLine(b, padB, vb);
    assert forall i :: 0 <= i < 8 ==> va[i] == va[..8][i] == vb[..8][i] == vb[i];
    assert TimesOf(va) == TimesOf(vb);
  }

  // ---------------------------------------------------------------------------
  // Memory
  // ---------------------------------------------------------------------------

  /** What `sscanf(line, "<prefix> %ld kB", &v)` leaves in v (initialised to
      0) for the first line of `/proc/meminfo` that starts with prefix; 0
      when no line does or no number follows the prefix. */
  function MemField(lines: seq<string>, prefix: string): (kb: int)
    ensures InLongRange(kb)
    ensures FirstWith(lines, prefix).None? ==> kb == 0
  {
    match FirstWith(lines, prefix)
    case None => 0
    case Some(i) => StrtolDecimal(lines[i][|prefix|..]).value
  }

  /** A meminfo line as the kernel writes it is read back exactly. */
  lemma {:induction false} MemFieldOfLine(lines: seq<string>, prefix: string, i: nat, pad: string, kb: int)
    requires i < |lines| && lines[i] == prefix + pad + IntToString(kb) + " kB"
    requires forall j :: 0 <= j < i ==> !StartsWith(lines[j], prefix)
    requires AllSpaces(pad) && InLongRange(kb)
    ensures MemField(lines, prefix) == kb
  {
    assert StartsWith(lines[i], prefix);
    assert FirstWith(lines, prefix) == Some(i);
    var s := lines[i][|prefix|..];
    assert s == pad + IntToString(kb) + " kB";
    LeadingIntegerOfIntToString(s, pad, kb, " kB");
  }

  /** `getTotalMemory`. */
  function GetTotalMemory(h: Host): int {
    MemField(h.meminfo, MEM_TOTAL)
  }

  // ---------------------------------------------------------------------------
  // One process
  // ---------------------------------------------------------------------------

  /** The pid a `/proc` entry names: a directory whose whole name `strtol`
      consumes (an empty name gives 0), narrowed to `int`. */
  function PidOfEntry(e: DirEntry): (pid: Option<int>)
    ensures pid.Some? ==> e.isDirectory && InIntRange(pid.value)
    ensures pid.Some? <==> (e.isDirectory &&
      (e.name == [] || (LeadingInteger(e.name).Some? && LeadingInteger(e.name).value.rest == [])))
  {
    if !e.isDirectory then None
    else
      var r := StrtolDecimal(e.name);
      if r.end == [] then Some(NarrowToInt(r.value)) else None
  }

  /** A directory named by the decimal text of a pid is that pid. */
  lemma {:induction false} PidOfNumeral(i: int)
    requires InIntRange(i)
    ensures PidOfEntry(DirEntry(IntToString(i), true)) == Some(i)
  {
    LeadingIntegerOfIntToString(IntToString(i), [], i, []);
  }

  /** Entries whose name starts with neither white space, a sign nor a
      digit (`.`, `..`, `self`, `sys`, ...) name no process. */
  lemma {:induction false} NoPidOfWord(e: DirEntry)
    requires |e.name| > 0
    requires !IsSpace(e.name[0]) && !IsDigit(e.name[0]) && e.name[0] != '-' && e.name[0] != '+'
    ensures PidOfEntry(e).None?
  {
    assert SpaceRun(e.name) == 0;
    assert DigitRun(e.name) == 0;
  }

  /** The `comm` field without its parentheses, when it has them and
      something between them. */
  function StripParens(name: string): (r: string)
    ensures |name| > 2 && name[0] == '(' && name[|name| - 1] == ')' ==> name == "(" + r + ")"
    ensures !(|name| > 2 && name[0] == '(' && name[|name| - 1] == ')') ==> r == name
  {
    if |name| > 2 && name[0] == '(' && name[|name| - 1] == ')' then name[1..|name| - 1] else name
  }

  /** Stripping undoes the parentheses the kernel puts around a non-empty
      command name. */
  lemma {:induction false} StripParensOfComm(comm: string)
    requires |comm| > 0
    ensures StripParens("(" + comm + ")") == comm
  {
    var name := "(" + comm + ")";
    assert name[1..|name| - 1] == comm;
  }

  /** The tokens `getline(iss, token, ' ')` splits the first line of
      `/proc/<pid>/stat` into. */
  function StatTokens(lines: seq<string>): seq<string> {
    GetlineTokens(FirstLine(lines), ' ')
  }

  /** `memory_kb / getTotalMemory() * 100.0`; 0 for a zero total. */
  function MemoryShare(kb: int, total: int): (r: real)
    ensures total != 0 ==> r * total as real == 100.0 * kb as real
    ensures 0 <= kb <= total ==> 0.0 <= r <= 100.0
  {
    if total == 0 then 0.0 else Percent(kb as real, total as real)
  }

  /** `getProcessUser`: the first `Uid:` line of the status file gives a
      uid (`sscanf("%d")`, or whatever the uninitialised local held when no
      number follows); its account name, else its decimal text. With no
      `Uid:` line the user is "unknown". */
  function GetProcessUser(h: Host, pid: int): (user: string)
    ensures FirstWith(h.statusOf(pid), UID_LABEL).None? ==> user == UNKNOWN_USER
  {
    var lines := h.statusOf(pid);
    match FirstWith(lines, UID_LABEL)
    case None => UNKNOWN_USER
    case Some(i) =>
      var uid := match LeadingInteger(lines[i][4..])
        case None => h.strayInt
        case Some(sc) => NarrowToInt(SaturateLong(sc.value));
      match h.passwd(ToUid(uid))
      case Some(name) => name
      case None => IntToString(uid)
  }

  /** A `Uid:` line as the kernel writes it (real, effective, saved and
      file-system uid separated by tabs) names the account of the real uid,
      or gives its decimal text when the account is unknown. */
  lemma {:induction false} UserOfUidLine(h: Host, pid: int, i: nat, uid: int, more: string)
    requires InIntRange(uid) && 0 <= uid
    requires i < |h.statusOf(pid)| && h.statusOf(pid)[i] == UID_LABEL + "\t" + IntToString(uid) + "\t" + more
    requires forall j :: 0 <= j < i ==> !StartsWith(h.statusOf(pid)[j], UID_LABEL)
    ensures h.passwd(uid).Some? ==> GetProcessUser(h, pid) == h.passwd(uid).value
    ensures h.passwd(uid).None? ==> GetProcessUser(h, pid) == IntToString(uid)
  {
    var line := h.statusOf(pid)[i];
    assert StartsWith(line, UID_LABEL);
    assert FirstWith(h.statusOf(pid), UID_LABEL) == Some(i);
    assert line[4..] == "\t" + IntToString(uid) + ("\t" + more);
    LeadingIntegerOfIntToString(line[4..], "\t", uid, "\t" + more);
  }

  /** `getProcessInfo`: None for the record marked with pid -1 (no stat
      file, or fewer than 24 tokens); otherwise the record built from the
      tokens. `std::stol` on the rss field may throw, and that exception
      leaves the call. The CPU share is always 0. */
  function GetProcessInfo(h: Host, pid: int): (r: Result<Option<ProcessInfo>>)
    ensures h.statOf(pid).None? ==> r == Ok(None)
    ensures h.statOf(pid).Some? && |StatTokens(h.statOf(pid).value)| < 24 ==> r == Ok(None)
    ensures r.Thrown? <==> (h.statOf(pid).Some? && |StatTokens(h.statOf(pid).value)| >= 24 &&
      Stol(StatTokens(h.statOf(pid).value)[23]).Thrown?)
    ensures r.Ok? && r.value.Some? ==> r.value.value.pid == pid && r.value.value.cpuUsage == 0.0
    ensures (h.statOf(pid).Some? && |StatTokens(h.statOf(pid).value)| >= 24 &&
             Stol(StatTokens(h.statOf(pid).value)[23]).Ok?) ==> r.Ok? && r.value.Some?
    ensures r.Ok? && r.value.Some? ==>
      var tokens := StatTokens(h.statOf(pid).value);
      var kb := TruncatingDiv(Stol(tokens[23]).value * h.pageSize, 1024);
      r.value.value.name == StripParens(tokens[1]) && r.value.value.state == tokens[2] &&
      r.value.value.user == GetProcessUser(h, pid) &&
      r.value.value.memoryKb == kb && r.value.value.memoryUsage == MemoryShare(kb, GetTotalMemory(h))
  {
    match h.statOf(pid)
    case None => Ok(None)
    case Some(lines) =>
      var tokens := StatTokens(lines);
      if |tokens| < 24 then Ok(None)
      else
        match Stol(tokens[23])
        case Thrown(e) => Thrown(e)
        case Ok(rss) =>
          var kb := TruncatingDiv(rss * h.pageSize, 1024);
          Ok(Some(ProcessInfo(pid, StripParens(tokens[1]), GetProcessUser(h, pid), 0.0,
                              MemoryShare(kb, GetTotalMemory(h)), kb, tokens[2])))
  }

  /** A stat line as the kernel writes it (fields separated by single
      spaces, the command in parentheses, the resident set size in pages as
      field 24) gives the process its pid, command, state and resident size
      in kB. */
  lemma {:induction false} ProcessInfoOfStatLine(h: Host, pid: int, fields: seq<string>, comm: string, rss: int)
    requires h.statOf(pid).Some? && |h.statOf(pid).value| > 0
    requires h.statOf(pid).value[0] == Join(fields, ' ')
    requires |fields| >= 24 && fields[|fields| - 1] != ""
    requires forall k :: 0 <= k < |fields| ==> ' ' !in fields[k]
    requires |comm| > 0 && fields[1] == "(" + comm + ")"
    requires fields[23] == IntToString(rss) && InLongRange(rss) && rss >= 0 && h.pageSize > 0
    ensures GetProcessInfo(h, pid).Ok? && GetProcessInfo(h, pid).value.Some?
    ensures GetProcessInfo(h, pid).value.value.pid == pid
    ensures GetProcessInfo(h, pid).value.value.name == comm
    ensures GetProcessInfo(h, pid).value.value.state == fields[2]
    ensures GetProcessInfo(h, pid).value.value.memoryKb == rss * h.pageSize / 1024
  {
    GetlineTokensOfJoin(fields, ' ');
    assert StatTokens(h.statOf(pid).value) == fields;
    StoiOrStol(fields[23], rss);
    StripParensOfComm(comm);
    var bytes := rss * h.pageSize;
    MulNonNegative(rss, h.pageSize);
    assert TruncatingDiv(bytes, 1024) == bytes / 1024;
  }

  /** The space split of a stat line whose command holds a space, written
      by the kernel as `(first second)`: the tokens are the space-free
      pieces, and the first half keeps its parenthesis because stripping
      needs both at once. */
  lemma {:induction false} StatTokensOfSpacedComm(lines: seq<string>, tokens: seq<string>, first: string, second: string)
    requires |lines| > 0 && lines[0] == Join(tokens, ' ')
    requires |tokens| >= 24 && tokens[|tokens| - 1] != ""
    requires forall k :: 0 <= k < |tokens| ==> ' ' !in tokens[k]
    requires tokens[1] == "(" + first && tokens[2] == second + ")"
    requires |first| > 0 && first[|first| - 1] != ')'
    ensures StatTokens(lines) == tokens
    ensures StripParens(tokens[1]) == "(" + first
  {
    GetlineTokensOfJoin(tokens, ' ');
    assert tokens[1][|tokens[1]| - 1] == first[|first| - 1];
  }

  /** A command containing a space, as in `(Web Content)`, is written by the
      kernel as one field but split by the code into two tokens, `(Web` and
      `Content)`. Every later token moves up by one: the name keeps its
      opening parenthesis, the state is the second half of the command, and
      token 23 is the field before the resident size. */
  lemma {:induction false} CommWithSpaceShifts(h: Host, pid: int, tokens: seq<string>, first: string, second: string)
    requires h.statOf(pid).Some? && |h.statOf(pid).value| > 0
    requires h.statOf(pid).value[0] == Join(tokens, ' ')
    requires |tokens| >= 24 && tokens[|tokens| - 1] != ""
    requires forall k :: 0 <= k < |tokens| ==> ' ' !in tokens[k]
    requires tokens[1] == "(" + first && tokens[2] == second + ")"
    requires |first| > 0 && first[|first| - 1] != ')'
    ensures GetProcessInfo(h, pid).Ok? ==>
      GetProcessInfo(h, pid).value.Some? &&
      GetProcessInfo(h, pid).value.value.name == "(" + first &&
      GetProcessInfo(h, pid).value.value.state == second + ")"
  {
    StatTokensOfSpacedComm(h.statOf(pid).value, tokens, first, second);
  }

  lemma {:induction false} MulNonNegative(a: int, b: int)
    requires a >= 0 && b >= 0
    ensures a * b >= 0
  {
  }

  lemma {:induction false} StoiOrStol(s: string, rss: int)
    requires s == IntToString(rss) && InLongRange(rss)
    ensures Stol(s) == Ok(rss)
  {
    StolOfIntToString(s, [], rss, []);
  }

  // ---------------------------------------------------------------------------
  // The process list
  // ---------------------------------------------------------------------------

  /** What `getProcessInfo` yields for a pid. The loop below is stated for
      any such reader; the monitor's is `ReaderOf(h)`. */
  type PidReader = int -> Result<Option<ProcessInfo>>

  function ReaderOf(h: Host): PidReader {
    pid => GetProcessInfo(h, pid)
  }

  /** p is the record the entry e yields. */
  predicate Listed(info: PidReader, e: DirEntry, p: ProcessInfo) {
    PidOfEntry(e).Some? && info(PidOfEntry(e).value) == Ok(Some(p))
  }

  /** Entry e yields a record that the list keeps. */
  predicate Kept(info: PidReader, e: DirEntry) {
    PidOfEntry(e).Some? && info(PidOfEntry(e).value).Ok? &&
    info(PidOfEntry(e).value).value.Some? &&
    info(PidOfEntry(e).value).value.value.pid != -1
  }

  /** Entry e makes `getProcessInfo` throw. */
  predicate Throws(info: PidReader, e: DirEntry) {
    PidOfEntry(e).Some? && info(PidOfEntry(e).value).Thrown?
  }

  /** The loop over the `/proc` entries: each entry that names a pid and
      yields a record with a pid other than -1 contributes that record, in
      directory order; the first exception ends the loop and leaves the
      call. */
  function CollectProcesses(info: PidReader, entries: seq<DirEntry>): (r: Result<seq<ProcessInfo>>)
    ensures r.Ok? ==> |r.value| <= |entries|
  {
    if |entries| == 0 then Ok([])
    else Head(info, entries[0], CollectProcesses(info, entries[1..]))
  }

  /** The list throws exactly when some entry makes `getProcessInfo`
      throw. */
  lemma {:induction false} CollectProcessesThrows(info: PidReader, entries: seq<DirEntry>)
    ensures CollectProcesses(info, entries).Thrown? <==> exists j :: 0 <= j < |entries| && Throws(info, entries[j])
  {
    if |entries| > 0 {
      var tail := entries[1..];
      CollectProcessesThrows(info, tail);
      HeadThrows(info, entries[0], CollectProcesses(info, tail));
      assert forall j :: 1 <= j < |entries| ==> entries[j] == tail[j - 1];
      if exists j :: 0 <= j < |tail| && Throws(info, tail[j]) {
        var j :| 0 <= j < |tail| && Throws(info, tail[j]);
        assert Throws(info, entries[j + 1]);
      }
    }
  }

  /** One step throws when its entry throws or the outcome after it
      threw. */
  lemma {:induction false} HeadThrows(info: PidReader, e: DirEntry, rest: Result<seq<ProcessInfo>>)
    ensures Head(info, e, rest).Thrown? <==> Throws(info, e) || rest.Thrown?
  {
  }

  /** p has a pid other than -1 and is the record some entry yields. */
  predicate ListedBySome(info: PidReader, entries: seq<DirEntry>, p: ProcessInfo) {
    p.pid != -1 && exists j :: 0 <= j < |entries| && Listed(info, entries[j], p)
  }

  /** Every record of ps has a pid other than -1 and is the record some
      entry yields. */
  predicate AllListed(info: PidReader, entries: seq<DirEntry>, ps: seq<ProcessInfo>) {
    forall i :: 0 <= i < |ps| ==> ListedBySome(info, entries, ps[i])
  }

  /** Every listed record has a pid other than -1 and is the record some
      entry yields. */
  lemma {:induction false} CollectProcessesSound(info: PidReader, entries: seq<DirEntry>)
    ensures CollectProcesses(info, entries).Ok? ==> AllListed(info, entries, CollectProcesses(info, entries).value)
  {
    if |entries| > 0 {
      var tail := entries[1..];
      var rest := CollectProcesses(info, tail);
      CollectProcessesSound(info, tail);
      assert CollectProcesses(info, entries) == Head(info, entries[0], rest);
      SoundStep(info, entries, tail, rest);
    }
  }

  lemma {:induction false} SoundStep(info: PidReader, entries: seq<DirEntry>, tail: seq<DirEntry>, rest: Result<seq<ProcessInfo>>)
    requires |entries| > 0 && tail == entries[1..]
    requires rest.Ok? ==> AllListed(info, tail, rest.value)
    ensures Head(info, entries[0], rest).Ok? ==> AllListed(info, entries, Head(info, entries[0], rest).value)
  {
    var r := Head(info, entries[0], rest);
    HeadSound(info, entries[0], rest);
    if r.Ok? {
      AllListedWiden(info, entries, tail, rest.value);
      if r.value != rest.value {
        assert Listed(info, entries[0], r.value[0]);
        AllListedCons(info, entries, r.value[0], rest.value);
      }
    }
  }

  lemma {:induction false} AllListedWiden(info: PidReader, entries: seq<DirEntry>, tail: seq<DirEntry>, ps: seq<ProcessInfo>)
    requires |entries| > 0 && tail == entries[1..]
    requires AllListed(info, tail, ps)
    ensures AllListed(info, entries, ps)
  {
    forall i | 0 <= i < |ps|
      ensures ListedBySome(info, entries, ps[i])
    {
      assert ListedBySome(info, tail, ps[i]);
      var j :| 0 <= j < |tail| && Listed(info, tail[j], ps[i]);
      assert entries[j + 1] == tail[j];
    }
  }

  lemma {:induction false} AllListedCons(info: PidReader, entries: seq<DirEntry>, p: ProcessInfo, ps: seq<ProcessInfo>)
    requires AllListed(info, entries, ps) && ListedBySome(info, entries, p)
    ensures AllListed(info, entries, [p] + ps)
  {
    var qs := [p] + ps;
    forall i | 0 <= i < |qs|
      ensures ListedBySome(info, entries, qs[i])
    {
      if i > 0 {
        assert qs[i] == ps[i - 1];
      }
    }
  }

  /** One step passes the outcome after it through, or puts in front of it
      the record its entry yields. */
  lemma {:induction false} HeadSound(info: PidReader, e: DirEntry, rest: Result<seq<ProcessInfo>>)
    ensures Head(info, e, rest).Ok? ==> rest.Ok?
    ensures Head(info, e, rest).Ok? && Head(info, e, rest).value != rest.value ==>
      |Head(info, e, rest).value| > 0 && Head(info, e, rest).value == [Head(info, e, rest).value[0]] + rest.value &&
      Head(info, e, rest).value[0].pid != -1 && Listed(info, e, Head(info, e, rest).value[0])
  {
  }

  /** Every record an entry yields with a pid other than -1 is in ps. */
  predicate AllKept(info: PidReader, entries: seq<DirEntry>, ps: seq<ProcessInfo>) {
    forall j :: 0 <= j < |entries| && Kept(info, entries[j]) ==> info(PidOfEntry(entries[j]).value).value.value in ps
  }

  /** Every record an entry yields with a pid other than -1 is listed. */
  lemma {:induction false} CollectProcessesComplete(info: PidReader, entries: seq<DirEntry>)
    ensures CollectProcesses(info, entries).Ok? ==> AllKept(info, entries, CollectProcesses(info, entries).value)
  {
    if |entries| > 0 {
      var tail := entries[1..];
      var rest := CollectProcesses(info, tail);
      CollectProcessesComplete(info, tail);
      assert CollectProcesses(info, entries) == Head(info, entries[0], rest);
      CompleteStep(info, entries, tail, rest);
    }
  }

  lemma {:induction false} CompleteStep(info: PidReader, entries: seq<DirEntry>, tail: seq<DirEntry>, rest: Result<seq<ProcessInfo>>)
    requires |entries| > 0 && tail == entries[1..]
    requires rest.Ok? ==> AllKept(info, tail, rest.value)
    ensures Head(info, entries[0], rest).Ok? ==> AllKept(info, entries, Head(info, entries[0], rest).value)
  {
    var r := Head(info, entries[0], rest);
    HeadKeepsRest(info, entries[0], rest);
    if r.Ok? {
      forall j | 0 <= j < |entries| && Kept(info, entries[j])
        ensures info(PidOfEntry(entries[j]).value).value.value in r.value
      {
        if j > 0 {
          assert entries[j] == tail[j - 1];
        }
      }
    }
  }

  /** One step keeps every record of the outcome after it, and adds the
      record of a kept entry. */
  lemma {:induction false} HeadKeepsRest(info: PidReader, e: DirEntry, rest: Result<seq<ProcessInfo>>)
    ensures Head(info, e, rest).Ok? ==> rest.Ok? && forall p :: p in rest.value ==> p in Head(info, e, rest).value
    ensures Head(info, e, rest).Ok? && Kept(info, e) ==> info(PidOfEntry(e).value).value.value in Head(info, e, rest).value
  {
  }

  /** The first of two outcomes that threw, or both lists one after the
      other. */
  function Concat(a: Result<seq<ProcessInfo>>, b: Result<seq<ProcessInfo>>): Result<seq<ProcessInfo>> {
    match a
    case Thrown(e) => Thrown(e)
    case Ok(x) =>
      match b
      case Thrown(e) => Thrown(e)
      case Ok(y) => Ok(x + y)
  }

  /** Directory order is kept: the list for two runs of entries is the list
      for the first run followed by the list for the second. */
  lemma {:induction false} CollectProcessesAppend(info: PidReader, a: seq<DirEntry>, b: seq<DirEntry>)
    ensures CollectProcesses(info, a + b) == Concat(CollectProcesses(info, a), CollectProcesses(info, b))
    decreases |a|
  {
    if |a| == 0 {
      assert a + b == b;
      ConcatEmpty(CollectProcesses(info, b));
    } else {
      assert (a + b)[1..] == a[1..] + b;
      assert (a + b)[0] == a[0];
      CollectProcessesAppend(info, a[1..], b);
      HeadConcat(info, a[0], CollectProcesses(info, a[1..]), CollectProcesses(info, b));
    }
  }

  lemma {:induction false} ConcatEmpty(y: Result<seq<ProcessInfo>>)
    ensures Concat(Ok([]), y) == y
  {
    if y.Ok? {
      assert [] + y.value == y.value;
    }
  }

  lemma {:induction false} HeadConcat(info: PidReader, e: DirEntry, x: Result<seq<ProcessInfo>>, y: Result<seq<ProcessInfo>>)
    ensures Concat(Head(info, e, x), y) == Head(info, e, Concat(x, y))
  {
    if PidOfEntry(e).Some? {
      var got := info(PidOfEntry(e).value);
      if got.Ok? && got.value.Some? && got.value.value.pid != -1 && x.Ok? && y.Ok? {
        var p := got.value.value;
        assert [p] + (x.value + y.value) == ([p] + x.value) + y.value;
      }
    }
  }

  /** One step of the loop: what entry e contributes in front of the
      outcome for the entries after it. */
  function Head(info: PidReader, e: DirEntry, rest: Result<seq<ProcessInfo>>): Result<seq<ProcessInfo>> {
    match PidOfEntry(e)
    case None => rest
    case Some(pid) =>
      match info(pid)
      case Thrown(err) => Thrown(err)
      case Ok(None) => rest
      case Ok(Some(p)) =>
        if p.pid == -1 then rest
        else match rest
          case Thrown(err) => Thrown(err)
          case Ok(ps) => Ok([p] + ps)
  }

  /** `getProcessList`: an empty list when `/proc` cannot be opened. */
  function GetProcessList(h: Host): (r: Result<seq<ProcessInfo>>)
    ensures h.procEntries.None? ==> r == Ok([])
    ensures r.Ok? ==> forall i :: 0 <= i < |r.value| ==> r.value[i].pid != -1
  {
    match h.procEntries
    case None => Ok([])
    case Some(entries) => CollectProcessesSound(ReaderOf(h), entries); CollectProcesses(ReaderOf(h), entries)
  }

  // ---------------------------------------------------------------------------
  // The snapshot
  // ---------------------------------------------------------------------------

  /** The records in state "R", in order. */
  function Running(ps: seq<ProcessInfo>): (rs: seq<ProcessInfo>)
    ensures |rs| <= |ps|
    ensures forall p :: multiset(rs)[p] == if p.state == RUNNING then multiset(ps)[p] else 0
  {
    if |ps| == 0 then []
    else
      var init := ps[..|ps| - 1];
      var last := ps[|ps| - 1];
      assert ps == init + [last];
      Running(init) + if last.state == RUNNING then [last] else []
  }

  /** The loop that counts the records in state "R". */
  method CountRunning(ps: seq<ProcessInfo>) returns (running: nat)
    ensures running == |Running(ps)|
    ensures running <= |ps|
  {
    running := 0;
    for i := 0 to |ps|
      invariant running == |Running(ps[..i])|
    {
      RunningSnoc(ps, i);
      if ps[i].state == RUNNING {
        running := running + 1;
      }
    }
    assert ps[..|ps|] == ps;
  }

  lemma {:induction false} RunningSnoc(ps: seq<ProcessInfo>, i: nat)
    requires i < |ps|
    ensures |Running(ps[..i + 1])| == |Running(ps[..i])| + if ps[i].state == RUNNING then 1 else 0
  {
    assert ps[..i + 1][..i] == ps[..i];
  }

  /** `getSystemInfo`: used memory is the total less the available memory,
      free memory is the available memory, and the process counts are the
      length of the list and the number of its records in state "R". An
      exception from building the list leaves the call. */
  method GetSystemInfo(h: Host) returns (r: Result<SystemInfo>)
    ensures r.Thrown? <==> GetProcessList(h).Thrown?
    ensures r.Ok? ==> r.value.cpuUsage == CalculateCpuUsage(ProcStatLines(h))
    ensures r.Ok? ==> r.value.totalMemory == MemField(h.meminfo, MEM_TOTAL)
    ensures r.Ok? ==> r.value.freeMemory == MemField(h.meminfo, MEM_AVAILABLE)
    ensures r.Ok? ==> r.value.usedMemory + r.value.freeMemory == r.value.totalMemory
    ensures r.Ok? ==> r.value.totalProcesses == |GetProcessList(h).value|
    ensures r.Ok? ==> r.value.runningProcesses == |Running(GetProcessList(h).value)|
    ensures r.Ok? ==> r.value.runningProcesses <= r.value.totalProcesses
  {
    var cpu := CalculateCpuUsage(ProcStatLines(h));
    var total := GetTotalMemory(h);
    var available := MemField(h.meminfo, MEM_AVAILABLE);
    var listed := GetProcessList(h);
    if listed.Thrown? {
      return Thrown(listed.error);
    }
    var ps := listed.value;
    var running := CountRunning(ps);
    r := Ok(SystemInfo(cpu, total, total - available, available, running, |ps|));
  }
}
