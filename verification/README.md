# System monitor: a Dafny model of the sampling layer and the controller

This project models the core of a terminal system monitor written in C++
over ncurses. The monitor has three parts:

- **`SystemInfoReader`** (`src/system_info.cpp`) reads `/proc`. It takes a
  whole-system snapshot: the CPU share from the `cpu` line of `/proc/stat`,
  total and available memory from `/proc/meminfo`, and the number of
  processes and of running ones. It also builds the process table, one
  record per numeric directory of `/proc`, from `/proc/<pid>/stat` and the
  `Uid:` line of `/proc/<pid>/status`.
- **`Process`** (`src/process_info.cpp`) is a process object. It fills its
  command, state, owner and resident memory from the status file. It reads
  active jiffies from its stat line and total jiffies from `/proc/stat`. It
  keeps a CPU share computed from the difference between two samples, and
  it has three comparators.
- **`UIManager`** (`src/ui_Manager.cpp`) is the controller. Its state is the
  sort key, a sort direction flag, the selected row and the exit flag. The
  main loop samples, sorts and draws the header and the table. It then
  handles one key: quit, move the selection, kill the selected process, or
  pick a sort key.

The operating system is a value of type `ProcFs.Host`: the entries of
`/proc`, the lines of each file the monitor opens, the page size and the
account lookup. Each C++ exception the code can raise (`std::stol`,
`std::stoi`, `substr`) is a `Thrown` result. Standard-library behaviour the
code depends on has its own definitions, each with a contract:

- `std::to_string`, `strtol`, `sscanf("%ld")`;
- stream extraction of words and `long`s;
- `getline` with a separator, `find`, `substr`;
- `std::sort`'s requirement on comparators.

Modules, in dependency order:

- `Wrappers`: `Option` and `Result`.
- `Text`: character classes, number scanning, `find`/`substr`, splitting.
- `Conversions`: integer widths, `strtol`, `stol`, `stoi`, percentages.
- `InputStream`: `istringstream` extraction.
- `ProcFs`: the host.
- `Sorting`: comparators and a reference sort.
- `SystemInfoReader`, `ProcessState`, `UIManager`: the three source files.

Behaviours of the code worth noting, which the model keeps:

- The arrow keys are not clamped to the table. `KEY_UP` stops at 0, and
  `KEY_DOWN` always adds one.
- A re-sort does not move the selection back into range.
- Ties in a sort are not broken by pid. No tie order is promised.
- The sort direction flag is set by F1–F3 but never read.
- The table's CPU column is the 0.0 that `getProcessInfo` stores; the
  jiffy-difference share lives only in `Process`.
- In a window 61 to 63 columns wide the command column is not cut but
  grows by `...` (see "## Findings"); the table is modelled as drawn.
- The stat line is split at every space, so a command containing a space
  shifts the later tokens: the name, state and resident size are then
  read from the wrong fields, as in the code.

## Model

| member | source | states |
|---|---|---|
| UIManager.Initial | src/ui_Manager.cpp:11-13 | The controller starts sorted by CPU, with the descending flag set, row 0 selected and the exit flag clear; that state is valid. |
| UIManager.HandleInput | src/ui_Manager.cpp:233-273 | `q`/`Q` set the exit flag and nothing else. `KEY_UP` lowers a positive selection by one. `KEY_DOWN` raises it by one. F1, F2 and F3 pick CPU/descending, memory/descending and pid/ascending and reset the selection to 0. `k`/`K` keep the state and may signal a pid. Every other key changes nothing. The call throws exactly when the kill key's re-read of the process list throws. Only F-keys change the sort, only `k` signals, the exit flag is set exactly by `q` or when already set, and a non-negative selection stays non-negative. |
| UIManager.KillTarget | src/ui_Manager.cpp:247-256 | The kill key signals a pid exactly when the selection indexes the freshly re-read and re-sorted list; the pid is the one at the selected index of the list sorted by the current key, and so that of a process in the list. |
| UIManager.LessForIsStrictWeakOrder | src/ui_Manager.cpp:275-304 | Each of the four comparators (CPU `>`, memory share `>`, pid `<`, name `<`) is a strict weak order, as `std::sort` requires. |
| UIManager.SortProcesses | src/ui_Manager.cpp:275-304 | The result is a permutation of the list, sorted by the current key alone: CPU share and memory share non-increasing, pid non-decreasing, names in lexicographic order. The direction flag is not consulted. |
| UIManager.SortedOrdersAgree | src/ui_Manager.cpp:275-304 | `std::sort` leaves the order of ties open. Every permutation of the list sorted by the current key, whichever order it gives ties, shows on every row the same CPU share, memory share, pid or name (for the key in use) as the modelled order. In particular, sorting an already sorted list gives back the same key column. |
| UIManager.UserDisplay | src/ui_Manager.cpp:146-149 | A user name of at most 12 characters is shown as it is. A longer one keeps its first 9 characters followed by `...`, exactly 12 characters. |
| UIManager.UserDisplayIdempotent | src/ui_Manager.cpp:146-149 | A user name already cut for display is shown unchanged. |
| UIManager.MemoryDisplay | src/ui_Manager.cpp:173-186 | Below 1024 kB the text is the decimal kB count followed by ` KB`. From 1024 kB up to 1024 × 1024 kB it is kB / 1024 MB, a value in [1, 1024). From 1024 × 1024 kB up it is kB / (1024 × 1024) GB, at least 1. |
| UIManager.HeaderOf | src/ui_Manager.cpp:63-110 | The header shows the snapshot's CPU share, used and total memory in GB (kB / 1024 / 1024), the used share of the total, and the two process counts. The share exists exactly when the total is non-zero, and it lies in [0, 100] when used memory is within the total. |
| UIManager.NameDisplayAsWritten | src/ui_Manager.cpp:199-204 | The command column as drawn. A name that fits the room (window width − 61) is shown as it is, and so is any name in a window narrower than 61 columns. From a room of 3 up, a longer name keeps its first room − 3 characters followed by `...`, exactly filling the room. |
| UIManager.NameDisplayAsWrittenGrows | src/ui_Manager.cpp:199-204 | With 0, 1 or 2 columns of room, a name that does not fit is shown whole with `...` appended, longer than the name itself. |
| UIManager.NameDisplay | src/ui_Manager.cpp:199-204 | A name that fits the room after column 61, or any name in a window narrower than 61 columns, is shown as it is. A longer name is cut to exactly the room: its first room − 3 characters followed by `...`, or, when the room is under 3, as much of `...` as fits. This corrected cut is not the one the table uses. |
| UIManager.NameDisplayAgrees | src/ui_Manager.cpp:199-204 | The corrected cut and the code as written agree whenever the room is negative or at least 3 columns. |
| UIManager.VisibleCount | src/ui_Manager.cpp:129-132 | The table draws min(list size, window height − 8) rows, and none when that is negative. |
| UIManager.ProcessRows | src/ui_Manager.cpp:115-212 | Row i shows the i-th process of the list in order: its pid and state, the cut user name, its CPU% and MEM% shares, the memory text and the command cut as the code cuts it (`NameDisplayAsWritten`). It is highlighted exactly when i equals the selection. |
| UIManager.OneHighlightedRow | src/ui_Manager.cpp:137-140 | At most one row is highlighted, and one is exactly when the selection indexes a drawn row. |
| UIManager.KillTargetsSelectedRow | src/ui_Manager.cpp:247-256 | When the list is unchanged since it was drawn, `k` signals the highlighted row's pid. A selection below the drawn rows but inside the list still signals a process that is not on screen. A selection past the list signals nothing. |
| UIManager.Iterate | src/ui_Manager.cpp:43-60 | One loop pass reads the snapshot and the list, then draws the header of the snapshot and the rows of the list sorted by the current key with the current selection, then handles one key. It throws exactly when one of the two reads or the key handling throws. |
| UIManager.IterateKeepsValid | src/ui_Manager.cpp:43-60 | A loop pass never makes the selection negative. |
| UIManager.Run | src/ui_Manager.cpp:42-61 | The loop does not run when the exit flag is already set. It stops before the frames run out only when an exception leaves it or the exit flag is set. It never makes the selection negative. |
| UIManager.RunWith | src/ui_Manager.cpp:42-61 | The same for any loop body, with validity kept when the body keeps it. |
| UIManager.QuitEndsLoop | src/ui_Manager.cpp:236-239 | When both reads of the first pass succeed, a `q` read in that pass ends the loop after exactly that pass, with the exit flag set and nothing signalled. |
| UIManager.MainLoop | src/ui_Manager.cpp:42-61 | The iterative loop gives exactly the outcome `Run` defines, and keeps the selection valid. |
| UIManager.LoopWith | src/ui_Manager.cpp:42-61 | `while (!should_exit)` over any loop body gives exactly what `RunWith` defines for it. |
| SystemInfoReader.GetSystemInfo | src/system_info.cpp:14-46 | The snapshot throws exactly when reading the process list throws. The CPU share is that of the `cpu` line. Total memory is `MemTotal` and free memory is `MemAvailable`, and used plus free is the total. The process count is the size of the list, and the running count is the number of its records in state `R`, no more than the total. |
| SystemInfoReader.CountRunning | src/system_info.cpp:40-43 | The loop counts the records in state `R`, which is at most the list size. |
| SystemInfoReader.Running | src/system_info.cpp:41-43 | The running records are exactly those of the list in state `R`, with their multiplicities. |
| SystemInfoReader.CalculateCpuUsage | src/system_info.cpp:48-64 | The share is defined exactly when the first line starts with `cpu` and `sscanf` converts at least the eight counters the formula adds. Otherwise the result depends on uninitialised locals, which the model leaves undetermined. |
| SystemInfoReader.BusyPercent | src/system_info.cpp:57-63 | The busy share times the total is 100 times the busy time. It is 0 for a zero total, and in [0, 100] for non-negative counters. |
| SystemInfoReader.CpuUsageOfLine | src/system_info.cpp:48-64 | A `cpu` line as the kernel writes it, with at least eight non-negative counters, gives the busy share of its first eight counters: (user + nice + system + irq + softirq + steal) as a percentage of that plus idle + iowait, and 0 when all are 0. The value lies in [0, 100]. |
| SystemInfoReader.CpuUsageIgnoresGuest | src/system_info.cpp:54-59 | Two `cpu` lines as the kernel writes them that agree on their first eight counters give the same share, whatever `guest` and `guest_nice` hold; those two are read but unused. |
| SystemInfoReader.ScanLongsOfNumerals | src/system_info.cpp:54-55 | `sscanf` with `%ld` conversions reads back, in order, up to the conversion count of the `long` numerals a text holds. |
| SystemInfoReader.FirstWith | src/system_info.cpp:27-31 | The index found is that of the first line with the prefix; no earlier line has it, and None means no line has it. |
| SystemInfoReader.MemField | src/system_info.cpp:23-32 | The value read from the first line with the label is a `long`, and 0 when no line has the label. |
| SystemInfoReader.MemFieldOfLine | src/system_info.cpp:66-78 | A meminfo line `<label><blanks><n> kB`, the first with its label, is read back as n. |
| SystemInfoReader.PidOfEntry | src/system_info.cpp:87-92 | An entry yields a pid exactly when it is a directory whose whole name `strtol` consumes (an empty name included). The pid fits an `int`. |
| SystemInfoReader.PidOfNumeral | src/system_info.cpp:88-92 | A directory named by the decimal text of an `int` yields that pid. |
| SystemInfoReader.NoPidOfWord | src/system_info.cpp:88-92 | A name that starts with neither white space, a sign nor a digit (`self`, `sys`) yields no pid. |
| SystemInfoReader.StripParens | src/system_info.cpp:128-131 | A name longer than 2 characters that starts with `(` and ends with `)` loses exactly those two characters; any other name is kept. |
| SystemInfoReader.StripParensOfComm | src/system_info.cpp:128-131 | Stripping undoes the parentheses the kernel puts around a non-empty `comm`. |
| SystemInfoReader.MemoryShare | src/system_info.cpp:137 | For a non-zero total, the memory share times the total is 100 times the process's kB. The share lies in [0, 100] when the process uses no more than the total. |
| SystemInfoReader.GetProcessUser | src/system_info.cpp:147-163 | With no `Uid:` line in the status file the user is `unknown`. |
| SystemInfoReader.UserOfUidLine | src/system_info.cpp:147-163 | A `Uid:` line as the kernel writes it, the first such line, gives the account of its real uid, or the uid's decimal text. |
| SystemInfoReader.GetProcessInfo | src/system_info.cpp:105-145 | The record marked invalid (pid −1) is None. It is returned when the stat file cannot be opened or its first line has fewer than 24 space-separated tokens. The call throws exactly when token 23 is not a `long`; with 24 tokens and a readable token 23 there is a record. It carries the pid asked for, a CPU share of 0, token 1 with its parentheses stripped as the name, token 2 as the state, the owner from the status file, token 23 × page size / 1024 kB (truncating) and that size's share of total memory. |
| SystemInfoReader.ProcessInfoOfStatLine | src/system_info.cpp:105-145 | A stat line as the kernel writes it gives a record with that pid, the unparenthesised command, token 2 as state, and rss × page size / 1024 kB. |
| SystemInfoReader.StatTokensOfSpacedComm | src/system_info.cpp:117-131 | Splitting a stat line at every space yields exactly its space-free pieces. A command written as `(first second)` therefore spans two tokens, and stripping leaves `(first` untouched, because its closing parenthesis is in the next token. |
| SystemInfoReader.CommWithSpaceShifts | src/system_info.cpp:117-132 | A command containing a space, written by the kernel as `(first second)`, is split into two tokens. The record then takes `(first` as its name and `second)` as its state. |
| SystemInfoReader.GetProcessList | src/system_info.cpp:80-103 | An unreadable `/proc` gives an empty list. No listed record carries pid −1. |
| SystemInfoReader.CollectProcesses | src/system_info.cpp:87-99 | The loop lists at most one record per directory entry. |
| SystemInfoReader.CollectProcessesThrows | src/system_info.cpp:87-99 | The list throws exactly when some entry names a pid whose record throws. |
| SystemInfoReader.CollectProcessesSound | src/system_info.cpp:87-99 | Every listed record has a pid other than −1 and is the record some entry names. |
| SystemInfoReader.CollectProcessesComplete | src/system_info.cpp:87-99 | Every record an entry names with a pid other than −1 is listed. |
| SystemInfoReader.CollectProcessesAppend | src/system_info.cpp:87-99 | The list follows `readdir` order: the list for two runs of entries is the first run's list followed by the second's, or the first exception. |
| ProcessState.ParseStatusLine | src/process_info.cpp:22-43 | A status line is matched against `Name:`, `State:`, `VmRSS:` and `Uid:` in that order, and the first label it starts with decides what it sets. A line with none of them sets nothing. |
| ProcessState.ParseCommand | src/process_info.cpp:23-24 | `substr(6)` throws exactly for lines shorter than 6; otherwise the command is the rest of the line after offset 6. |
| ProcessState.ParseState | src/process_info.cpp:25-26 | `substr(7, 1)` throws exactly for lines shorter than 7; otherwise the state is the character at offset 7, or empty when there is none. |
| ProcessState.ParseMemory | src/process_info.cpp:27-31 | The text from offset 7 up to ` kB` goes to `stol`, and the line throws exactly when `substr` or `stol` does. The memory is that number times 1024, in bytes. |
| ProcessState.ParseUser | src/process_info.cpp:32-42 | The text from offset 5 up to the next tab goes to `stoi`, and the line throws exactly when `substr` or `stoi` does. When the account lookup knows the uid (as `uid_t`) the user is that account's name; otherwise it is the text itself. |
| ProcessState.ApplyStatusLines | src/process_info.cpp:14-47 | Reading the status file never changes the pid, the CPU share or the jiffy samples. |
| ProcessState.ApplyStatusLinesThrows | src/process_info.cpp:22-44 | Reading the status file throws exactly when one of its lines throws. |
| ProcessState.RunLinesAppend | src/process_info.cpp:22-44 | The loop over two stretches of lines is the loop over the first, then over the second from where it left off. |
| ProcessState.RunOtherLines | src/process_info.cpp:22-44 | Lines with no known label leave the process unchanged. |
| ProcessState.CommandLine | src/process_info.cpp:23-24 | `Name:<tab><command>` sets exactly that command. |
| ProcessState.StateLine | src/process_info.cpp:25-26 | `State:<tab><c> (<description>)` sets the state to the one letter c. |
| ProcessState.MemoryLine | src/process_info.cpp:27-31 | `VmRSS:<tab><blanks><n> kB` sets the memory to n × 1024 bytes. |
| ProcessState.UserLine | src/process_info.cpp:32-42 | `Uid:<tab><uid><tab>...` sets the user to the uid's account or decimal text, and throws when the uid does not fit an `int`. |
| ProcessState.NewProcess | src/process_info.cpp:10-12 | A new process has the pid asked for, a CPU share of 0 and both jiffy samples 0. Without a status file all its text fields are empty. |
| ProcessState.NewProcessOfStatus | src/process_info.cpp:10-47 | A status file in the kernel's order yields the command, the state letter, the owner and the resident memory in bytes. |
| ProcessState.ActiveJiffies | src/process_info.cpp:49-72 | Without a stat file the result is 0. |
| ProcessState.StatLineOfNumerals | src/process_info.cpp:59-69 | When words 14 to 17 of the stat line are `long` numerals, the active jiffies are their sum. |
| ProcessState.StatLineOfFewWords | src/process_info.cpp:59-69 | A stat line of at most 13 words leaves `utime` unassigned, so the sum is indeterminate. |
| ProcessState.AddStoredMissing | src/process_info.cpp:66-69 | The sum is indeterminate exactly when one of the four variables was left unassigned. |
| ProcessState.CpuTimesOfStatLine | src/process_info.cpp:59-67 | After the 13 skipped words, the four extractions store the four CPU-time numerals. |
| ProcessState.TotalJiffies | src/process_info.cpp:74-92 | Without `/proc/stat` the total is 0. Otherwise it is the sum of the values read after the first word of the first line, up to the first failed extraction. |
| ProcessState.SumOfLongs | src/process_info.cpp:84-89 | The summing loop adds exactly the values the extraction loop reads. |
| ProcessState.CpuLineCountersOfLine | src/process_info.cpp:78-88 | On a `cpu` line as the kernel writes it, the loop reads every counter. |
| ProcessState.UpdateCpuUtilization | src/process_info.cpp:94-107 | The new sample always replaces the old one, and nothing else but the share changes. The share is kept when either old sample is 0 or total time has not advanced. A share in [0, 100] stays there. |
| ProcessState.RecomputedShare | src/process_info.cpp:95-102 | When recomputed, the share is active advance / total advance × 100 clamped to [0, 100]. It is 0 when active time has not advanced and 100 when it advanced at least as much as total time. |
| ProcessState.ReplayInRange | src/process_info.cpp:94-107 | Any number of updates keeps the share in [0, 100], remembers the last sample, and never changes the pid or memory. |
| ProcessState.ComparatorsAreStrictWeakOrders | src/process_info.cpp:116-126 | `operator<`, `compareByMemory` and `compareByCpu` are strict weak orders, and `operator<` is `compareByMemory`. This follows directly from the comparator definitions; the ordering proofs with real content are `UIManager.LessForIsStrictWeakOrder` and `UIManager.SortedOrdersAgree`. |
| ProcessState.SortedByMemory | src/process_info.cpp:120-122 | A list is sorted by `compareByMemory` exactly when memory never increases along it. This restates the comparator as an ordering of the list and follows directly from the definitions. |
| ProcessState.SortedByCpu | src/process_info.cpp:124-126 | A list is sorted by `compareByCpu` exactly when the CPU share never increases along it. This restates the comparator as an ordering of the list and follows directly from the definitions. |
| Sorting.SortSorted | src/ui_Manager.cpp:275-304 | Under a strict weak order the reference sort returns a sorted list, which `std::sort` promises. |
| Sorting.Sort | src/ui_Manager.cpp:275-304 | The reference sort returns a permutation of its input. |
| Sorting.SortedUnique | src/ui_Manager.cpp:275-304 | Under a total order, two sorted arrangements of the same elements are the same sequence. |
| Sorting.SameKeys | src/ui_Manager.cpp:275-304 | Two arrangements of the same elements, each ordered by a total order on a key, carry the same key at every position, whatever order they give elements with equal keys. |
| Sorting.LexTotal | src/ui_Manager.cpp:296-300 | For `std::string`'s `<`, two names neither of which is less than the other are equal. |
| Sorting.LexTransitive | src/ui_Manager.cpp:296-300 | `std::string`'s `<` is transitive. |
| Conversions.Stol | src/process_info.cpp:31 | `std::stol` throws `invalid_argument` when no number starts the text, and `out_of_range` when the number does not fit a `long`. Otherwise it returns the number. |
| Conversions.Stoi | src/process_info.cpp:36 | `std::stoi` is the same, for `int`. |
| Conversions.StolOfIntToString | src/system_info.cpp:135 | `std::stol` reads back any `long` that `std::to_string` wrote. |
| Conversions.StrtolDecimal | src/system_info.cpp:90 | `strtol` returns a value in `long` range. When no number starts the text, the value is 0 and the end is the whole text; otherwise the end is right after the digits. |
| Conversions.ToSize | src/ui_Manager.cpp:202-203 | Converting to `size_t` keeps non-negative values and maps a negative `long` to 2^64 plus it, above `LONG_MAX`. |
| Text.Substr | src/process_info.cpp:24 | `substr(pos, len)` throws exactly when pos is past the end. Otherwise it returns the characters from pos, at most len of them. |
| Text.Before | src/process_info.cpp:30 | `s.substr(0, s.find(pat))` is the prefix up to the first occurrence of pat, or all of s when pat does not occur. |
| Text.FindAtStart | src/process_info.cpp:23 | `line.find(label) == 0` holds exactly when the line starts with the label. |
| Text.GetlineTokens | src/system_info.cpp:121-123 | The tokens contain no separator, and joined with it they give back the line, less one trailing separator. |
| Text.GetlineTokensOfJoin | src/system_info.cpp:121-123 | Tokenising a line joined from pieces without separators gives back the pieces. |
| InputStream.ReadWord | src/process_info.cpp:60-63 | `stream >> word` stores the next white-space word, and the stream goes on with the words after it; at the end nothing is stored and the stream fails. |
| InputStream.ReadLong | src/process_info.cpp:67 | `stream >> number` reads what `strtol` would, consumes input when it succeeds, and stores nothing at the end of the text. |
| InputStream.ExtractionsOfLongsRead | src/process_info.cpp:67 | k chained extractions store the first k values the reading loop would see. |
| InputStream.LongsReadOfNumerals | src/process_info.cpp:86-88 | The reading loop reads back every word of a text made of `long` numerals. |

## Left out

- UIManager.SortProcesses: ties are left in the order the insertion sort gives them, one of the orders `std::sort` may produce; which order the library picks is not modelled. Under the CPU key every record ties at 0.0, so which process a given row shows, and which pid the kill key signals, is that one order's choice; `SortedOrdersAgree` states what every order shares.
- Drawing is left out: ncurses windows, colours, bold and reverse attributes, emoji and the footer. The model keeps what each row and the header show, not how they are painted.
- The `%.1f` and `%5.1f` formatting is left out. The MB and GB figures and the percentages are exact reals; IEEE double rounding, infinities and NaN are not modelled.
- UIManager.HeaderOf: a zero total memory gives None in place of the infinity or NaN the double division produces.
- SystemInfoReader.MemoryShare: a zero total gives 0 in place of the infinity or NaN the double division produces.
- UIManager.MemoryDisplay: a negative kB count shows as kB text, as in the code; the kB count is never negative for a parsed stat line.
- File access, `opendir`/`readdir`, `getpwuid` and `sysconf` are fields of the `Host` parameter. So are `getch`, `getmaxy` and `getmaxx`, which are fields of each loop `Frame`. Nothing is read from a real system.
- `kill(pid, SIGTERM)` and `killProcess` are not called. The model returns the pid that would be signalled, and whether the signal succeeds is not modelled.
- UIManager.HandleInput: `KEY_DOWN` adds one without the signed overflow at `INT_MAX`. Reaching it would take two billion key presses.
- Arithmetic on `long` values is computed exactly. That covers the jiffy sums, `rss * page size`, `stol * 1024` and `total - available`. Their signed-overflow behaviour, undefined in C++, is not modelled.
- An uninitialised local (an `int uid` that `sscanf` did not assign, the `long` counters of `calculateCPUUsage`, `getActiveJiffies`' variables) becomes None or an explicit parameter. The value such a variable holds is not modelled.
- The main loop runs over a finite sequence of frames. A run that never quits is represented by its finite prefixes.
- `Process` objects are not used by the controller, and the model keeps them separate in the same way.
- `main.cpp`, `initializeUI` and the destructor are left out: they do terminal setup and teardown only.
- The first line and the last line of `src/ui_Manager.cpp` are shell heredoc markers, not C++. The include of `../include/process.h` at `src/process_info.cpp:1` names a header that is not part of this model; the class it declares is in `include/process_info.h`.

## Findings

| source | as written | input that shows it | evidently intended | confidence | as-written member | corrected member |
|---|---|---|---|---|---|---|
| src/ui_Manager.cpp:201-203 | `if (name.length() > max_name_width) name = name.substr(0, max_name_width - 3) + "..."` with `int max_name_width = getmaxx - 61` | A window 62 columns wide gives a room of 1. The name `bash` is longer than 1, and `1 - 3 = -2` becomes a huge `size_t` count. The whole name is kept and `bash...` is drawn, 7 characters in a 1-column room. The same happens for rooms of 0 and 2. | A name that does not fit is cut to exactly the room: its first room − 3 characters and `...`, or as much of `...` as fits when the room is under 3 | not executed | UIManager.NameDisplayAsWrittenGrows, with UIManager.NameDisplayAsWritten | UIManager.NameDisplay |
