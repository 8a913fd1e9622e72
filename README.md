# ls listing engine, modelled in Dafny

A model of the listing engine of a small BSD-style `ls(1)`, with proofs:

- `humanize_number`: a signed byte count rendered as `999B`, `1.0K` or `12K`;
- the sibling comparators handed to the tree walker;
- the display record of one entry (`get_print_data`) and the two-pass,
  column-aligned listing of a group (`print_all`);
- the visit loop of `ls()` and the option-letter fold of `main`.

One module per source file:

- `Humanize` (humanize.dfy) holds `mac.h`.
- `Compare` (compare.dfy) holds `compare.c`.
- `Print` (print.dfy) holds `print.c`.
- `Ls` (ls.dfy) holds `ls.c`.
- `Opt` (opt.dfy) and `Fts` (fts.dfy) are the records these files share: the `options` record, and what the walker reports for one node.
- `Text` (text.dfy) is the part of printf the engine relies on: `%d`, field padding, snprintf truncation, and C strings read back from a buffer.
- `Wrappers` (wrappers.dfy) has `Option` and `Result`. `Fatal(message)` stands for the source's `err(1, ...)`.

Every imperative routine of the source is a Dafny method with the source's loops. Each method is proved equal to a reference function:

- `HumanizeNumber` against `Humanize`
- `GetPrintData` against `PrintDataOf`
- `PrintAll` against `PrintAllSpec`
- `Ls` against `LsSpec`
- `ParseArgs` against `ParseSpec`

The lemmas state what those functions promise. The comparators are pure and are modelled as functions.

Foreign calls become parameters:

- `Print.Env` holds `getpwuid`, `getgrgid`, `localtime`, `strmode`, `readlink` and the Linux/whiteout build switch.
- `Ls.Host` holds the record builder's lookups, `isatty`, `getprogname` and `strerror`.
- `Ls.Command` also takes the option letters `getopt` returns and the operands after them, the size `getbsize` returns, whether `getuid()` is 0, whether `fts_open` succeeded, the walker's visits (each directory in preorder with the children `fts_children` would return) and `errno` once `fts_read` returns nothing.

Skip marks (`fts_set(..., FTS_SKIP)`) are recorded as the positions of the visits they were issued for. Standard output and standard error are sequences of chunks.

In these places the model follows the code as written:

- A non-directory operand prints nothing. Only `FTS_D` visits list anything, so a file named on the command line does not appear.
- `print_all` can fail. A humanized `total` that does not render is fatal (print.c:190-193).
- `-r` also reverses the size order (compare.c:76-77).
- An unsorted mode reaching `main_compare` is modelled as its fatal branch, a `Fatal` result. It is not modelled as a precondition. `Ls.ComparatorInstalledWhenTotal` proves the walker gets the comparator exactly when that branch is unreachable.

In two places the main line of the model uses the evidently intended behaviour instead of the code, because the code is wrong there. Both are listed under "## Findings", where the as-written behaviour is modelled and related to the corrected one, and both are admitted under "## Left out":

- A negative value printed with one decimal keeps its minus sign when the integer part is 0 (mac.h:117-122).
- `-F` prints nothing after the name of an entry that has no indicator. The source prints a NUL byte there (print.c:236-238).

## Model

| member | source | states |
|---|---|---|
| Humanize.HumanizeNumber | mac.h:15-129 | returns -1 on failure, the scale under GETSCALE, else the length of the whole text; a refused scale or `len` 0 leaves the buffer untouched; every other non-written outcome leaves only `buf[0] = NUL`; a written text is copied truncated to `len - 1` bytes and NUL-terminated, the rest of the buffer unchanged (decimal sign corrected, see "## Left out") |
| Humanize.Humanize | mac.h:15-129 | reference definition; a scale result only under GETSCALE and never above 6; a refused scale always fails (decimal sign corrected) |
| Humanize.Format | mac.h:57-126 | the scaling and formatting steps after the scale check equal the reference definition (decimal sign corrected) |
| Humanize.PrepareMagnitude | mac.h:59-85 | sign, magnitude in hundredths (or unscaled with `post` 100 when that would overflow), separator and `baselen`, equal to `Prepare` |
| Humanize.Prepare | mac.h:59-85 | `negative` iff the input is negative; `post` is 1 or 100; `baselen` = 2 or 3 for the sign, plus 2 when `post` is 100, plus the separator, plus the suffix length |
| Humanize.PrefixOf | mac.h:28-47 | the prefix for scale `i` is one character, except at scale 0 without HN_B where it is empty |
| Humanize.ColumnBudget | mac.h:93-94 | the `max *= 10` loop yields `100 * 10^(len - baselen)` |
| Humanize.DivideToFit | mac.h:101-102 | the divide-until-fits loop equals `AutoDivide` |
| Humanize.AutoDivide | mac.h:101-102 | the scale index stays within 0..6, and a loop that stops before 6 stops because the value is below `max - 50` |
| Humanize.DivideBy | mac.h:108-109 | the explicit-scale loop equals `FixedDivide` |
| Humanize.FixedDivide | mac.h:108-109 | the scale index is `min(scale, 6)` |
| Humanize.Scale | mac.h:26-110 | a scale-only stage only under GETSCALE; a rendering stage carries the prepared state, a scale index of at most 6 and a buffer of at least `baselen + 1` |
| Humanize.ScaleMagnitude | mac.h:91-110 | an accepted scale never gets rejected at this stage; a scale-only stage has GETSCALE set; a rendering stage keeps the prepared state |
| Humanize.RenderText | mac.h:113-126 | the decimal or integer branch equals `Render` (decimal sign corrected) |
| Humanize.Snprintf | mac.h:120-126 | returns the length of the text; the buffer holds its first `len - 1` bytes and a NUL, the rest unchanged |
| Humanize.ScaleArgBits | mac.h:12-13 | the AUTOSCALE argument is automatic without GETSCALE; the GETSCALE argument is automatic with it |
| Humanize.FailsExactly | mac.h:26-116 | fails iff the scale is refused, `len < baselen + 1`, or the decimal branch is taken with `len < baselen + 3` |
| Humanize.GetScaleMatchesAutoScale | mac.h:88-126 | GETSCALE fails iff `len < baselen + 1`, and the AUTOSCALE text of the same value ends with the prefix of the reported scale and the suffix |
| Humanize.RenderEndsWithPrefix | mac.h:120-126 | every rendering ends with the prefix of its scale and the suffix |
| Humanize.HumanizeTextNoNul | mac.h:120-126 | with a NUL-free suffix the text is NUL-free, so it reads back as a C string |
| Humanize.RenderNoNul | mac.h:113-126 | both branches render NUL-free text |
| Humanize.AutoDivideFits | mac.h:96-102 | for a 64-bit magnitude and divisor at least 1000 the loop stops because the value fits, never for lack of prefixes |
| Humanize.AutoDivideLowerBound | mac.h:101-102 | once it has divided, the loop leaves at least `(max - 50) / divisor` |
| Humanize.AutoScaleRendersAsWritten | mac.h:113-122 | in automatic mode the source's decimal text and the corrected one agree (the value is at least 0.97 of a unit) |
| Humanize.RendersAgreeFrom97 | mac.h:117-122 | from 97 hundredths up the two decimal renderings are equal |
| Humanize.RenderFits | mac.h:113-126 | a value below `max - 50` renders in at most `len - 1` characters |
| Humanize.AutoScaleFits | mac.h:87-126 | in automatic mode a 64-bit input renders without truncation: text plus NUL fit in `len` bytes |
| Humanize.ListingHumanizeSucceeds | mac.h:59-126 | the listing's call (`len` 5, AUTOSCALE, DECIMAL, B, NOSPACE) succeeds on every value in `0 .. INT64_MAX / 100` with at most four characters |
| Humanize.ListingHumanizeFailsAt1000PiB | mac.h:72-116 | the same call fails on 1000 PiB, an input in the 64-bit range |
| Humanize.FixedPointsBytes | mac.h:93-126 | 999 gives `999B`, 10 gives `10B`, 5 gives `5B` |
| Humanize.FixedPointsKilo | mac.h:93-126 | 1000 gives `1.0K`, 2048 gives `2.0K`, and 1000 with HN_DIVISOR_1000 gives `1.0k` |
| Humanize.FixedPointNegative | mac.h:59-126 | -2048 gives `-2.0K` in 6 bytes and fails in 5 (the sign takes a column) |
| Humanize.DecimalTextKeepsSign | mac.h:117-122 | the corrected decimal text starts with `-` exactly for a negative input with a non-zero printed value |
| Humanize.DecimalSignDropped | mac.h:117-122 | -100 bytes at explicit scale 1: the source prints `0.1K`, the corrected text is `-0.1K` |
| Compare.LexCompare | compare.c:13-15 | strcmp's sign: in {-1, 0, 1}, 0 exactly on equal names |
| Compare.LexCompareIsLexLess | compare.c:13-15 | negative iff `s` is a proper prefix of `t` or has the smaller byte at the first difference |
| Compare.LexCompareAntisymmetric | compare.c:13-15 | swapping the names negates the result |
| Compare.LexCompareTransitive | compare.c:13-15 | sorting before is transitive |
| Compare.CmpAlpha | compare.c:13-15 | 0 iff equal names, negative iff the first name sorts before |
| Compare.CmpTime | compare.c:20-39 | -1 iff the first entry's selected timestamp is newer, 0 iff equal, 1 iff older |
| Compare.CmpSize | compare.c:44-55 | -1 iff the first entry is larger, 0 iff equal sizes, 1 iff smaller |
| Compare.MainCompare | compare.c:61-79 | fatal exactly in the unsorted mode, otherwise in {-1, 0, 1} |
| Compare.ReverseNegates | compare.c:76-78 | `-r` negates the result after the tie-break |
| Compare.MainCompareAntisymmetric | compare.c:61-79 | swapping the entries negates the result in every sorted mode |
| Compare.TiesOnlyOnEqualNames | compare.c:64-71 | by name or by time a tie means equal names (and, by time, equal timestamps) |
| Compare.SizeTiesOnEqualSizes | compare.c:64-65 | by size a tie means equal sizes whatever the names |
| Compare.TimeThenName | compare.c:66-69 | by time the order is newer first, then by name |
| Compare.MainCompareTransitive | compare.c:61-79 | strictly-before is transitive in every sorted mode |
| Compare.MainCompareTiesTransitive | compare.c:61-79 | ties are transitive |
| Compare.MainCompareIncomparableTransitive | compare.c:61-79 | before-then-tie is before, so the comparator is a strict weak order |
| Print.GetPrintData | print.c:28-140 | the record is built field by field and equals `PrintDataOf`, including the first fatal error in source order |
| Print.BlocksField | print.c:45-55 | the blocks field equals `BlocksText` |
| Print.SizeField | print.c:83-96 | the size field equals `SizeOf` |
| Print.TimeField | print.c:98-106 | `localtime` of the timestamp `opt.time` selects; its failure is fatal |
| Print.TypeIndicator | print.c:119-132 | the if-chain equals `TypeChar` |
| Print.SymTarget | print.c:134-139 | equals `SymTargetOf` |
| Print.HumanizeInto | print.c:46-51 | the humanize call into a zeroed buffer, read back as a C string, equals `HumanizedField`; -1 is fatal |
| Print.CopyName | print.c:112-117 | the copied, masked name equals `Masked(mask, name)` |
| Print.MaskNonprintable | print.c:115-117 | the in-place loop leaves `Masked(mask, old contents)` |
| Print.Masked | print.c:115-117 | masking keeps the length |
| Print.CeilDiv | print.c:53-54 | `r` is the least integer with `x <= r * d` |
| Print.AsInt32 | print.c:65-70 | `%d` of an unsigned id: a 32-bit signed value congruent to the id modulo 2^32 |
| Print.BlocksColumn | print.c:45-55 | without `-h`, the decimal of `ceil(st_blocks * 512 / blocksize)`; with `-h`, at most four characters, never failing on a 64-bit count below `INT64_MAX / 100` |
| Print.HumanizedFieldFits | print.c:46-51 | a humanized field is at most four characters and succeeds below `INT64_MAX / 100` |
| Print.OwnerFallback | print.c:61-81 | the owner is the looked-up name iff numeric ids are off and the lookup succeeds; otherwise the decimal id, which reads back as the id below 2^31 |
| Print.SizeColumnKind | print.c:83-96 | devices fill `(major, minor)` and never a size text; other kinds fill the size text, in decimal without `-h` |
| Print.TimeColumn | print.c:108-110 | the time text is 12 characters: month, padded day, and `hh:mm` whose digits read back as hour and minute |
| Print.TwoDigits | print.c:108-110 | `%02d` of a value below 100 is two digits that read back as the value |
| Print.MaskedProperties | print.c:112-117 | printable bytes are kept; when masking every other byte becomes `?` and the result is printable; without masking the name is unchanged |
| Print.TypeCharPriority | print.c:119-132 | each indicator exactly under its priority rule (directory, link, executable, whiteout off Linux, socket, FIFO), NUL otherwise |
| Print.SymTargetRules | print.c:134-139 | only links get a target; it fails iff `readlink` fails; the target is at most PATH_MAX - 1 bytes |
| Print.PrintAll | print.c:146-248 | the measuring loop, the total line and the emitting loop equal `PrintAllSpec` (`-F` indicator corrected, see "## Left out") |
| Print.MeasureAll | print.c:153-185 | the running maxima and totals equal `Measure` |
| Print.Total | print.c:187-198 | the total line equals `TotalLine` |
| Print.EmitAll | print.c:200-247 | appends `Lines` to what was already written (`-F` indicator corrected) |
| Print.ShownRows | print.c:158-161 | the rows kept are shown, never more than given |
| Print.WidthIsMaximum | print.c:158-168 | each text column's width bounds every shown field and is attained by one, or is 0 |
| Print.WidthBounds | print.c:158-168 | each text column's width bounds every shown field |
| Print.WidthAttained | print.c:158-168 | each non-zero text column width is the length of some shown field |
| Print.SizeWidths | print.c:175-184 | shown size texts fit the size column, shown device numbers fit their digit columns, and the size column holds `major, minor` |
| Print.SizeTextsFit | print.c:182-184 | every shown size text fits the size column |
| Print.DeviceDigitsFit | print.c:175-180 | every shown device number fits its digit column |
| Print.DeviceColumnWide | print.c:175-181 | `max_size_len >= max_major_len + 2 + max_minor_len` once a device is measured |
| Print.DeviceColumnFits | print.c:175-181 | with a shown device the size column is at least `major + 2 + minor` wide |
| Print.TotalsAreSums | print.c:170-173 | with `-h` the size total is the sum of shown sizes and the block total 0; otherwise the block total is the sum of shown raw blocks |
| Print.OneLinePerShownEntry | print.c:200-246 | exactly one line per shown entry, in list order |
| Print.LinesEndInNewline | print.c:246 | every emitted line ends in a newline |
| Print.PrintAllShape | print.c:187-247 | fails iff the humanized total is shown and fails; otherwise one line per shown entry plus the total line exactly in long or blocks mode on a terminal |
| Print.HiddenEntriesIgnored | print.c:158-203 | listing only the shown entries gives the same widths, totals and lines |
| Print.MeasureIgnoresHidden | print.c:158-185 | hidden entries do not affect widths or totals |
| Print.LinesIgnoreHidden | print.c:200-203 | hidden entries do not affect the lines |
| Print.ColumnsAligned | print.c:205-232 | the file name of every shown line starts at the same column, given permission strings of one length |
| Print.PrefixLength | print.c:205-232 | a line whose fields fit their columns has a prefix exactly as wide as the columns |
| Print.LongPartLength | print.c:213-232 | the long-mode part is exactly as wide as its columns and separators |
| Print.SizeCellFits | print.c:221-229 | a shown size cell is never wider than the size column |
| Print.ArrowOnlyForLinksInLongMode | print.c:240-244 | ` -> target` appears iff long mode and the entry is a link |
| Print.TypeSuffix | print.c:236-238 | the corrected indicator is NUL-free and is the character itself when there is one |
| Print.TypeIndicatorNul | print.c:236-238 | as written, `-F` emits a NUL after the name of an entry without an indicator; the corrected line has nothing there |
| Print.TypeIndicatorAgrees | print.c:236-238 | the corrected indicator agrees with the source wherever there is an indicator |
| Text.NatTextRoundTrip | print.c:43 | the decimal text of a natural reads back as it |
| Text.IntTextRoundTrip | print.c:59 | the `%d` text of an integer reads back as it |
| Text.NatTextFits | print.c:43 | the decimal text has at most `k` characters exactly when the value is below 10^k |
| Text.DigitCountIsTextLength | print.c:177-178 | `floor(log10(x) + 1)` is the length of the decimal text of `x` |
| Text.PadLeft | print.c:206 | right justification: the text at the end, fill before it, never truncated |
| Text.PadRight | print.c:218-219 | left justification: the text first, blanks after it, never truncated |
| Text.Truncate | print.c:43 | snprintf keeps the longest prefix that leaves room for the NUL |
| Text.CStringOfTerminated | print.c:48-50 | a buffer holding a NUL-free text and then a NUL reads back as the text |
| Ls.Ls | ls.c:22-96 | the visit loop equals `LsSpec`: `fts_open` failure is fatal first, the loop stops at the first fatal listing, and an `errno` left by `fts_read` is fatal |
| Ls.VisitOne | ls.c:40-90 | one visit equals `Step`: a dot entry below the operands is only marked, `-d` marks every visit, a directory in preorder is listed, an error visit writes one diagnostic |
| Ls.ListDirectory | ls.c:49-82 | separator unless first, header, lines, then the skip mark without `-R`, equal to `AfterListing` |
| Ls.ListGroup | ls.c:58-79 | the records of the children (or of the directory under `-d`), then `print_all`, equal to `Listing` |
| Ls.CollectRows | ls.c:59-61 | `get_print_data` in list order equals `Collect`, stopping at the first fatal record |
| Ls.NextRecord | ls.c:60-61 | one more record extends the collected records, or decides the fatal outcome of the group |
| Ls.CollectFails | ls.c:59-61 | collecting fails iff some entry's record fails |
| Ls.CollectShape | ls.c:59-61 | the collected records are one per entry, in order, each its entry's record |
| Ls.RowsCountable | ls.c:58-63 | records of a group whose shown devices are numbered can be measured |
| Ls.ComparatorInstalledWhenTotal | ls.c:28-35 | the comparator is installed iff it never reaches its fatal branch; dot entries are requested iff the filter is `-a` |
| Ls.DotEntrySkipped | ls.c:41-44 | a dot entry below the operands under the default filter is marked and nothing else changes |
| Ls.SkipMarks | ls.c:41-82 | in a run without a fatal error the marks are exactly the skipped dot entries, every visit under `-d`, and every listed directory without `-R` |
| Ls.OutputIsBlocks | ls.c:49-82 | output is the blocks of the listed directories joined by blank lines, none before the first; `first` holds until one is listed; the run fails iff a block fails, with its message |
| Ls.ListedStep | ls.c:49-63 | listing one more directory appends a blank line (unless first), its header and its lines |
| Ls.JoinedAppend | ls.c:50-53 | one more block follows a blank line unless it is the first |
| Ls.ErrorsReported | ls.c:83-90 | standard error gets one `prog: accpath: reason` line per error visit, in order, and the loop continues |
| Ls.LsOutcome | ls.c:34-95 | an unopenable walker is fatal before any output; otherwise output is the joined blocks, errors the diagnostics, and the run is fatal iff `errno` is set |
| Ls.ApplyLetter | ls.c:133-198 | fails with the usage message iff the letter is not in `1AacdFfhiklnqRrSstuw`; otherwise has exactly `LetterEffect` on each field |
| Ls.Letter | ls.c:133-198 | the `switch` on one letter equals `ApplyLetter` |
| Ls.FoldFailsOnUnknownLetter | ls.c:132-199 | the fold fails, with the usage message, iff some letter is not an option |
| Ls.LongModeLastWins | ls.c:134-170 | the last of `-1`, `-l`, `-n` decides long mode |
| Ls.MaskLastWins | ls.c:171-194 | the last of `-q`, `-w` decides masking |
| Ls.FilterLastWins | ls.c:137-142 | the last of `-A`, `-a` decides the filter |
| Ls.SortLastWins | ls.c:152-188 | the last of `-f`, `-S`, `-t` decides the sort field |
| Ls.TimeLastWins | ls.c:143-191 | the last of `-c`, `-u` decides the timestamp |
| Ls.StickyLetters | ls.c:132-199 | `-n`, `-F`, `-h`, `-i`, `-k`, `-R`, `-r`, `-s` are set iff present (or set before), `-d` clears entering directories iff present, the block size is untouched |
| Ls.NumericImpliesLong | ls.c:167-170 | a final `-n` leaves both numeric ids and long mode on |
| Ls.Finish | ls.c:201-219 | no operand means exactly `["."]`; the block size becomes `BlockSize` |
| Ls.BlockSize | ls.c:213-219 | positive; 1024 under `-k`; otherwise `getbsize`'s value in blocks or long mode; otherwise unchanged |
| Ls.ParseArgs | ls.c:114-219 | the defaults, the getopt loop and the fix-ups equal `ParseSpec` |
| Ls.PlainInvocation | ls.c:114-211 | no letters and no operands list `.` with the defaults (by name, modification time, 512-byte blocks, directories entered, dot files shown to root apart from `.` and `..`) |
| Ls.Command | ls.c:108-222 | a usage error ends the run before the walker opens; otherwise the run is `ls()` on the parsed options and files |

## Left out

- The tree walker (`fts_open`, `fts_read`, `fts_children`, `fts_set`, `fts_close`) is not modelled. Its visits are an input sequence, its skip marks an output set, and its order with the comparator is not derived.
- `getopt`, `getbsize`, `isatty`, `getuid`, `getprogname`, `strerror`, `getpwuid`, `getgrgid`, `localtime`, `strmode`, `readlink` and `localeconv` are parameters or constants. The decimal point is `"."`.
- The text of `usage()` and the process exits are left out. A usage error is `Fatal("usage")`, and each `err(1, ...)` is a `Fatal` carrying its message.
- `calloc`, `strdup` and `free`, and the fatal errors on allocation failure, are left out.
- Floating point is exact: `ceil(x / (double)blocksize)` is integer ceiling division, and `floor(log10(x) + 1)` is a digit count.
- Ls.AllNumbered: shown devices must have positive major and minor numbers. `log10(0)` is undefined in the source, so the model does not define that case.
- Integers are unbounded. The 64-bit overflows of the source are not modelled:
  - negating INT64_MIN;
  - `max *= 10` past 10^18;
  - `bytes *= post` after an explicit scale;
  - `st_blocks * 512`;
  - the totals.
- Humanize.AutoScaleFits requires the input to be in the 64-bit range.
- Print.PrintAll decides device against size using the record's tagged union, where the source tests `st_mode` again. The two agree because `GetPrintData` fills the union by file kind (Print.SizeColumnKind).
- Compare.LexCompare returns only the sign of `strcmp`. C promises no more.
- Humanize.HumanizeNumber: renders a negative value below one unit at an explicit scale with its minus sign (`-0.1K` for -100 at scale 1 in 6 bytes), where mac.h:117-122 drops it and prints `0.1K`; the corrected text is kept on the main line (see "## Findings"), and the as-written text is `Humanize.RenderAsWritten`.
- Humanize.Humanize: the same corrected decimal sign as `Humanize.HumanizeNumber`; `Humanize.AutoScaleRendersAsWritten` shows the two agree on every automatic-scale call, including every call the listing makes.
- Humanize.Format: the same corrected decimal sign as `Humanize.HumanizeNumber`.
- Humanize.RenderText: the same corrected decimal sign as `Humanize.HumanizeNumber`.
- Print.PrintAll: under `-F`, a line for an entry without an indicator has nothing after the name, where print.c:236-238 writes a NUL byte; the as-written line is `Print.LineAsWritten` and `Print.TypeIndicatorNul`/`Print.TypeIndicatorAgrees` relate the two.
- Print.EmitAll: the same corrected `-F` indicator as `Print.PrintAll`.
- Ls.Ls: its output inherits the corrected `-F` indicator from `Print.PrintAll`; the decimal sign does not reach it, because the listing only calls `humanize_number` with automatic scale.
- Ls.Command: the same corrected `-F` indicator as `Ls.Ls`.
- Fts.Entry: a name is any sequence of characters. A name that holds a NUL is compared by `Compare.LexCompare` and copied by `Print.CopyName` past the NUL, where `strcmp` and `strdup` stop; names from the walker are C strings, so they never hold one.
- Output is a sequence of strings. Buffering, write errors and interleaving of standard output with standard error are not modelled.

## Findings

| source | as written | input that shows it | evidently intended | confidence | as-written member | corrected member |
|---|---|---|---|---|---|---|
| mac.h:117-122 | the decimal branch prints `sign * s1` with `%d`, so the minus sign is lost when `s1` is 0 | `humanize_number(buf, 6, -100, "", 1, HN_DECIMAL \| HN_B \| HN_NOSPACE)` prints `0.1K` | `-0.1K`: a negative value keeps its sign | not executed | Humanize.DecimalSignDropped (on Humanize.RenderAsWritten) | Humanize.DecimalTextKeepsSign (on Humanize.Render); Humanize.AutoScaleRendersAsWritten shows the listing's automatic calls are unaffected |
| print.c:236-238 | `-F` prints `%c` of `mode_char` even when no indicator applies; `mode_char` is then 0, so a NUL byte is written | `ls -F` on a plain non-executable file writes the name followed by a NUL byte | nothing after the name | not executed | Print.TypeIndicatorNul (on Print.LineAsWritten) | Print.TypeIndicatorAgrees (on Print.TypeSuffix, used by Print.LineOf) |
