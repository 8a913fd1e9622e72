/** What the tree walker hands the listing engine for one node: its name and
    paths, its depth, the walker's classification of the visit and the stat
    snapshot taken when it was read. The walker itself is not modelled. */
module Fts {
  import opened Opt

  /** The file type encoded in `st_mode`. */
  datatype FileKind = Regular | Directory | SymbolicLink | CharDevice | BlockDevice | Fifo | Socket | Whiteout

  /** The walker's `fts_info` for a visit: a directory in preorder (FTS_D),
      a directory cycle (FTS_DC), an unreadable directory (FTS_DNR), a
      directory in postorder (FTS_DP), an error (FTS_ERR), a regular file
      (FTS_F), no stat information (FTS_NS and FTS_NSOK), a symbolic link
      (FTS_SL), a dangling symbolic link (FTS_SLNONE), `.` or `..` (FTS_DOT),
      and anything else (FTS_DEFAULT). */
  datatype Info = DirPre | DirCycle | DirUnreadable | DirPost | Failed | PlainFile
                | NoStat | NoStatOk | SymLink | SymLinkNone | DotDir | OtherInfo

  type Uint32 = x: int | 0 <= x < 0x1_0000_0000

  /** The `struct stat` fields the engine reads; `major` and `minor` are the
      halves of `st_rdev`. `exec` says whether any of the three execute
      permission bits is set. */
  datatype Stat = Stat(
    ino: nat,
    blocks: int,
    kind: FileKind,
    exec: bool,
    nlink: nat,
    uid: Uint32,
    gid: Uint32,
    major: int,
    minor: int,
    size: int,
    atime: int,
    mtime: int,
    ctime: int)

  /** One node as the walker reports it (the fields of FTSENT). */
  datatype Entry = Entry(
    name: seq<char>,
    path: seq<char>,
    accpath: seq<char>,
    level: int,
    info: Info,
    errno: int,
    stat: Stat)

  predicate IsDevice(st: Stat) { st.kind == CharDevice || st.kind == BlockDevice }

  predicate IsDotName(name: seq<char>) { |name| > 0 && name[0] == '.' }

  /** The timestamp selected by the time category: status change time, last
      access time, and the modification time for everything else. */
  function TimeOf(st: Stat, t: TimeCategory): int
  {
    if t == StatusChanged then st.ctime
    else if t == LastAccessed then st.atime
    else st.mtime
  }
}
