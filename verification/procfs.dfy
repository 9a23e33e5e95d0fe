/** The operating system as the monitor sees it: the contents of the files
    under `/proc` it opens, the entries of the `/proc` directory, the page
    size and the password database. One value stands for one moment; the
    files the source reads again later are read again from the same value. */
module ProcFs {
  import opened Wrappers

  /** One entry `readdir` returns: its name and whether `d_type` is
      `DT_DIR`. */
  datatype DirEntry = DirEntry(name: string, isDirectory: bool)

  datatype Host = Host(
    /** The entries of `/proc` in `readdir` order; None when `opendir` fails. */
    procEntries: Option<seq<DirEntry>>,
    /** The lines of `/proc/<pid>/stat`; None when it cannot be opened. */
    statOf: int -> Option<seq<string>>,
    /** The lines of `/proc/<pid>/status` (none when it cannot be opened). */
    statusOf: int -> seq<string>,
    /** The lines of `/proc/stat`; None when it cannot be opened. */
    procStat: Option<seq<string>>,
    /** The lines of `/proc/meminfo` (none when it cannot be opened). */
    meminfo: seq<string>,
    /** `sysconf(_SC_PAGE_SIZE)`. */
    pageSize: int,
    /** `getpwuid(uid)->pw_name`, or None for a null result. */
    passwd: nat -> Option<string>,
    /** The value an uninitialised `int` local holds when `sscanf` assigns
        nothing to it. */
    strayInt: int)

  /** The lines of `/proc/stat` a read sees: none when it cannot be opened. */
  function ProcStatLines(h: Host): seq<string> {
    match h.procStat
    case None => []
    case Some(lines) => lines
  }
}
