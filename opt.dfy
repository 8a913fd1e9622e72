/** The listing options (the `options` record of the source) and the three
    enumerations it is built from. */
module Opt {

  /** Which dot entries are listed: `-a` shows everything, `-A` everything
      but `.` and `..`, and the default hides names starting with a dot. */
  datatype ListFilter = Normal | All | AllExceptDot

  /** Which timestamp `-t` sorts by and long mode shows: `-c` status change,
      `-u` last access, modification time otherwise. */
  datatype TimeCategory = StatusChanged | LastModified | LastAccessed

  /** `-f` leaves entries in directory order, `-S` sorts by size, `-t` by
      time, and the default is by name. */
  datatype SortField = NotSorted | Size | Time | Alphabetical

  datatype Options = Options(
    blocksize: int,
    filter: ListFilter,
    sort: SortField,
    time: TimeCategory,
    blocksKb: bool,
    fileTypeChar: bool,
    goIntoDirs: bool,
    hideNonprintable: bool,
    humanize: bool,
    longMode: bool,
    numericalIds: bool,
    printBlocks: bool,
    printInode: bool,
    recurse: bool,
    sortReverse: bool)
}
