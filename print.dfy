/** The display record of one entry and the listing of a group of sibling
    entries: `GetPrintData` turns the stat snapshot into the strings a line
    is made of, `PrintAll` measures the widest string of every column over
    the entries that are shown and then emits one justified line per entry.
    Standard output is a sequence of lines. */
module Print {
  import opened Wrappers
  import opened Text
  import opened Opt
  import opened Fts
  import Humanize

  /** Capacities of the fixed buffers of the display record. */
  const InodeCap: nat := 21
  const BlocksCap: nat := 21
  const NlinkCap: nat := 11
  const IdCap: nat := 11
  const TimeCap: nat := 13
  const SizeCap: nat := 21
  const DeviceCap: nat := 24
  const TotalCap: nat := 5
  const PathMax: nat := 4096

  /** Every humanized field is rendered into five bytes: `999B` and `1.0K`
      are four characters. */
  const HumanizeLen: nat := 5

  const Months: seq<seq<char>> := ["Jan", "Feb", "Mar", "Apr", "May", "Jun",
                                   "Jul", "Aug", "Sep", "Oct", "Nov", "Dec"]

  type Month = x: int | 0 <= x < 12
  type Day = x: int | 1 <= x <= 31 witness 1
  type Hour = x: int | 0 <= x < 24
  type Minute = x: int | 0 <= x < 60

  /** The broken-down local time fields the listing prints. */
  datatype Tm = Tm(mon: Month, mday: Day, hour: Hour, min: Minute)

  /** The foreign calls of the record builder, taken as parameters: the
      password and group lookups, `localtime`, `strmode`, `readlink`, and
      whether the build is for Linux (which has no whiteouts). */
  datatype Env = Env(
    userName: Uint32 -> Option<seq<char>>,
    groupName: Uint32 -> Option<seq<char>>,
    localtime: int -> Option<Tm>,
    strmode: Stat -> seq<char>,
    readlink: seq<char> -> Option<seq<char>>,
    linux: bool)

  /** The union in the record: a size text, or the device numbers of a
      character or block device. */
  datatype SizeColumn = SizeText(text: seq<char>) | DevicePair(major: int, minor: int)

  /** `print_data`: every field as the text that is printed. */
  datatype PrintData = PrintData(
    inode: seq<char>,
    blocks: seq<char>,
    mode: seq<char>,
    nlink: seq<char>,
    user: seq<char>,
    group: seq<char>,
    time: seq<char>,
    size: SizeColumn,
    filename: seq<char>,
    modeChar: char,
    symTarget: seq<char>)

  // ---------------------------------------------------------------------
  // The fields, one by one.

  /** `ceil(x / (double)d)` for a positive `d`, in exact integers. */
  function CeilDiv(x: int, d: int): (r: int)
    requires d > 0
    ensures (r - 1) * d < x <= r * d
  {
    (x + d - 1) / d
  }

  /** The value `%d` prints for an unsigned 32-bit id: the same bits read as
      a signed 32-bit integer. */
  function AsInt32(u: Uint32): (r: int)
    ensures -0x8000_0000 <= r < 0x8000_0000
    ensures (u - r) % 0x1_0000_0000 == 0
  {
    if u < 0x8000_0000 then u else u - 0x1_0000_0000
  }

  /** The owner (or group) column: the looked-up name unless numeric ids are
      asked for or the lookup fails, and then the id in an 11-byte buffer. */
  function OwnerText(o: Options, lookup: Uint32 -> Option<seq<char>>, id: Uint32): seq<char> {
    if !o.numericalIds && lookup(id).Some? then lookup(id).value
    else Truncate(IdCap, IntText(AsInt32(id)))
  }

  function HumanizeMessage(bytes: int): seq<char> {
    "humanize_number(" + IntText(bytes) + ")"
  }

  /** The listing's humanize call (`len` 5, AUTOSCALE, DECIMAL | B | NOSPACE)
      read back as a C string; -1 is fatal. */
  function HumanizedField(bytes: int): Result<seq<char>> {
    match Humanize.Humanize(HumanizeLen, bytes, "", Humanize.AutoScaleArg, Humanize.ListingFlags)
    case Failed => Fatal(HumanizeMessage(bytes))
    case Scaled(_) => Ok("")
    case Written(t) => Ok(Truncate(HumanizeLen, t))
  }

  /** The blocks column: `st_blocks * 512` bytes, humanized, or else counted
      in units of the block size, rounded up. */
  function BlocksText(o: Options, st: Stat): Result<seq<char>>
    requires o.humanize || o.blocksize > 0
  {
    if o.humanize then HumanizedField(st.blocks * 512)
    else Ok(Truncate(BlocksCap, IntText(CeilDiv(st.blocks * 512, o.blocksize))))
  }

  /** The size column: device numbers for devices, the size otherwise. */
  function SizeOf(o: Options, st: Stat): Result<SizeColumn> {
    if IsDevice(st) then Ok(DevicePair(st.major, st.minor))
    else if o.humanize then
      var t :- HumanizedField(st.size);
      Ok(SizeText(t))
    else Ok(SizeText(Truncate(SizeCap, IntText(st.size))))
  }

  /** `"%s %2d %02d:%02d "` into 13 bytes: the trailing space is cut off. */
  function TimeText(tm: Tm): seq<char> {
    Truncate(TimeCap, Months[tm.mon] + " " + PadLeft(IntText(tm.mday), 2, ' ') + " " +
                      PadLeft(IntText(tm.hour), 2, '0') + ":" + PadLeft(IntText(tm.min), 2, '0') + " ")
  }

  /** `isprint` in the C locale. */
  predicate IsPrint(c: char) { ' ' <= c <= '~' }

  /** The file name with every non-printable byte replaced by `?` when
      non-printable bytes are hidden. */
  function Masked(mask: bool, s: seq<char>): (r: seq<char>)
    ensures |r| == |s|
  {
    seq(|s|, k requires 0 <= k < |s| => if mask && !IsPrint(s[k]) then '?' else s[k])
  }

  /** The `-F` indicator, by priority; NUL when no rule applies. */
  function TypeChar(st: Stat, linux: bool): char {
    if st.kind == Directory then '/'
    else if st.kind == SymbolicLink then '@'
    else if st.exec then '*'
    else if !linux && st.kind == Whiteout then '%'
    else if st.kind == Socket then '='
    else if st.kind == Fifo then '|'
    else NUL
  }

  predicate IsLink(info: Info) { info == SymLink || info == SymLinkNone }

  /** `"%s/%s"` of the path and the access path, in a PATH_MAX buffer. */
  function LinkPath(ent: Entry): seq<char> {
    Truncate(PathMax, ent.path + "/" + ent.accpath)
  }

  /** The link target of a symbolic link, read into a zeroed PATH_MAX
      buffer with room for at most PATH_MAX - 1 bytes; empty otherwise. */
  function SymTargetOf(env: Env, ent: Entry): Result<seq<char>> {
    if !IsLink(ent.info) then Ok("")
    else match env.readlink(LinkPath(ent))
      case None => Fatal("readlink(" + LinkPath(ent) + ")")
      case Some(t) => Ok(CString(Truncate(PathMax, t)))
  }

  function LocalTime(env: Env, t: int): Result<Tm> {
    match env.localtime(t)
    case None => Fatal("localtime")
    case Some(tm) => Ok(tm)
  }

  /** `get_print_data`: the record of one entry, or the first fatal error in
      the order the source meets them. */
  function PrintDataOf(o: Options, env: Env, ent: Entry): Result<PrintData>
    requires o.humanize || o.blocksize > 0
  {
    var st := ent.stat;
    var blocks :- BlocksText(o, st);
    var size :- SizeOf(o, st);
    var tm :- LocalTime(env, TimeOf(st, o.time));
    var target :- SymTargetOf(env, ent);
    Ok(PrintData(Truncate(InodeCap, NatText(st.ino)),
                 blocks,
                 env.strmode(st),
                 Truncate(NlinkCap, IntText(st.nlink)),
                 OwnerText(o, env.userName, st.uid),
                 OwnerText(o, env.groupName, st.gid),
                 TimeText(tm),
                 size,
                 Masked(o.hideNonprintable, ent.name),
                 TypeChar(st, env.linux),
                 target))
  }

  /** `get_print_data`, filling the record field by field: humanized fields
      go through a zeroed buffer and the copied file name is masked in
      place. */
  method GetPrintData(o: Options, env: Env, ent: Entry) returns (r: Result<PrintData>)
    requires o.humanize || o.blocksize > 0
    ensures r == PrintDataOf(o, env, ent)
  {
    var st := ent.stat;
    var inode := Truncate(InodeCap, NatText(st.ino));

    var blocks := BlocksField(o, st);
    if blocks.Fatal? {
      return Fatal(blocks.message);
    }

    var mode := env.strmode(st);
    var nlink := Truncate(NlinkCap, IntText(st.nlink));
    var user := OwnerText(o, env.userName, st.uid);
    var group := OwnerText(o, env.groupName, st.gid);

    var size := SizeField(o, st);
    if size.Fatal? {
      return Fatal(size.message);
    }

    var tm := TimeField(o, env, st);
    if tm.Fatal? {
      return Fatal(tm.message);
    }
    var time := TimeText(tm.value);

    var filename := CopyName(o.hideNonprintable, ent.name);

    var modeChar := TypeIndicator(st, env.linux);

    var target := SymTarget(env, ent);
    if target.Fatal? {
      return Fatal(target.message);
    }

    r := Ok(PrintData(inode, blocks.value, mode, nlink, user, group, time, size.value, filename, modeChar, target.value));
  }

  /** The blocks field: humanized through the record's 21-byte buffer, or
      the rounded-up count of `blocksize` units. */
  method BlocksField(o: Options, st: Stat) returns (r: Result<seq<char>>)
    requires o.humanize || o.blocksize > 0
    ensures r == BlocksText(o, st)
  {
    var blockBytes := st.blocks * 512;
    if o.humanize {
      r := HumanizeInto(blockBytes, BlocksCap);
    } else {
      r := Ok(Truncate(BlocksCap, IntText(CeilDiv(blockBytes, o.blocksize))));
    }
  }

  /** The size field: the device numbers of a device, otherwise the size,
      humanized through the record's 21-byte buffer or in decimal. */
  method SizeField(o: Options, st: Stat) returns (r: Result<SizeColumn>)
    ensures r == SizeOf(o, st)
  {
    if st.kind == CharDevice || st.kind == BlockDevice {
      r := Ok(DevicePair(st.major, st.minor));
    } else if o.humanize {
      var h := HumanizeInto(st.size, SizeCap);
      if h.Fatal? {
        return Fatal(h.message);
      }
      r := Ok(SizeText(h.value));
    } else {
      r := Ok(SizeText(Truncate(SizeCap, IntText(st.size))));
    }
  }

  /** The broken-down time of the timestamp the time category selects. */
  method TimeField(o: Options, env: Env, st: Stat) returns (r: Result<Tm>)
    ensures r == LocalTime(env, TimeOf(st, o.time))
  {
    var when: int;
    if o.time == StatusChanged {
      when := st.ctime;
    } else if o.time == LastModified {
      when := st.mtime;
    } else {
      when := st.atime;
    }
    var tm := env.localtime(when);
    if tm.None? {
      return Fatal("localtime");
    }
    r := Ok(tm.value);
  }

  /** The `-F` indicator, left NUL when no rule applies. */
  method TypeIndicator(st: Stat, linux: bool) returns (c: char)
    ensures c == TypeChar(st, linux)
  {
    c := NUL;
    if st.kind == Directory {
      c := '/';
    } else if st.kind == SymbolicLink {
      c := '@';
    } else if st.exec {
      c := '*';
    } else if !linux && st.kind == Whiteout {
      c := '%';
    } else if st.kind == Socket {
      c := '=';
    } else if st.kind == Fifo {
      c := '|';
    }
  }

  /** The link target, read for symbolic links only. */
  method SymTarget(env: Env, ent: Entry) returns (r: Result<seq<char>>)
    ensures r == SymTargetOf(env, ent)
  {
    r := Ok("");
    if ent.info == SymLink || ent.info == SymLinkNone {
      var path := Truncate(PathMax, ent.path + "/" + ent.accpath);
      var link := env.readlink(path);
      if link.None? {
        return Fatal("readlink(" + path + ")");
      }
      r := Ok(CString(Truncate(PathMax, link.value)));
    }
  }

  /** The listing's humanize call into a zeroed buffer of `cap` bytes, read
      back as a C string. */
  method HumanizeInto(bytes: int, cap: nat) returns (r: Result<seq<char>>)
    requires cap >= HumanizeLen
    ensures r == HumanizedField(bytes)
  {
    var buf := new char[cap](_ => NUL);
    ghost var o := Humanize.Humanize(HumanizeLen, bytes, "", Humanize.AutoScaleArg, Humanize.ListingFlags);
    var rc := Humanize.HumanizeNumber(buf, HumanizeLen, bytes, "", Humanize.AutoScaleArg, Humanize.ListingFlags);
    if rc == -1 {
      return Fatal(HumanizeMessage(bytes));
    }
    Humanize.ScaleArgBits();
    assert o.Written?;
    Humanize.HumanizeTextNoNul(HumanizeLen, bytes, "", Humanize.AutoScaleArg, Humanize.ListingFlags);
    var k := Min(|o.text|, HumanizeLen - 1);
    assert NoNul(o.text[..k]);
    CStringOfTerminated(o.text[..k], buf[..]);
    r := Ok(CString(buf[..]));
  }

  /** `strdup` of the name, then the masking loop over the copy. */
  method CopyName(mask: bool, name: seq<char>) returns (filename: seq<char>)
    ensures filename == Masked(mask, name)
  {
    var a := new char[|name|](k requires 0 <= k < |name| => name[k]);
    assert a[..] == name;
    MaskNonprintable(mask, a);
    filename := a[..];
  }

  /** The masking loop over the copied file name, one byte at a time. */
  method MaskNonprintable(mask: bool, a: array<char>)
    modifies a
    ensures a[..] == Masked(mask, old(a[..]))
  {
    var k := 0;
    while k < a.Length
      invariant 0 <= k <= a.Length
      invariant forall j :: 0 <= j < k ==> a[j] == if mask && !IsPrint(old(a[j])) then '?' else old(a[j])
      invariant forall j :: k <= j < a.Length ==> a[j] == old(a[j])
    {
      if mask && !IsPrint(a[k]) {
        a[k] := '?';
      }
      k := k + 1;
    }
    assert a[..] == Masked(mask, old(a[..]));
  }

  // ---------------------------------------------------------------------
  // What the record promises.

  /** Without `-h` the blocks column is the number of `blocksize` units that
      cover `st_blocks * 512` bytes; with `-h` it is at most four characters
      and the call succeeds on every non-negative count of the 64-bit range. */
  lemma BlocksColumn(o: Options, st: Stat)
    requires o.humanize || o.blocksize > 0
    ensures !o.humanize ==> BlocksText(o, st) == Ok(Truncate(BlocksCap, IntText(CeilDiv(st.blocks * 512, o.blocksize))))
    ensures o.humanize && BlocksText(o, st).Ok? ==> |BlocksText(o, st).value| <= 4
    ensures o.humanize && 0 <= st.blocks * 512 < Humanize.Int64Max / 100 ==> BlocksText(o, st).Ok?
  {
    if o.humanize {
      HumanizedFieldFits(st.blocks * 512);
    }
  }

  /** A humanized field is at most four characters; it fails on no
      non-negative count below `INT64_MAX / 100`. */
  lemma HumanizedFieldFits(bytes: int)
    ensures HumanizedField(bytes).Ok? ==> |HumanizedField(bytes).value| <= 4
    ensures 0 <= bytes < Humanize.Int64Max / 100 ==> HumanizedField(bytes).Ok?
  {
    if 0 <= bytes < Humanize.Int64Max / 100 {
      Humanize.ListingHumanizeSucceeds(bytes);
    }
  }

  /** The owner column is the name exactly when numeric ids are not asked
      for and the lookup succeeds; otherwise it is the decimal id, which
      reads back as the id whenever the id is below 2^31. */
  lemma OwnerFallback(o: Options, lookup: Uint32 -> Option<seq<char>>, id: Uint32)
    ensures !o.numericalIds && lookup(id).Some? ==> OwnerText(o, lookup, id) == lookup(id).value
    ensures (o.numericalIds || lookup(id).None?) && id < 0x8000_0000 ==>
              var t := OwnerText(o, lookup, id);
              |t| > 0 && AllDigits(t) && NatValue(t) == id
  {
    if (o.numericalIds || lookup(id).None?) && id < 0x8000_0000 {
      var s := IntText(id);
      NatTextFits(id, 10);
      assert Truncate(IdCap, s) == s;
      NatTextRoundTrip(id);
    }
  }

  /** Devices fill the device numbers and never a size text; every other
      kind fills the size text. */
  lemma SizeColumnKind(o: Options, env: Env, ent: Entry)
    requires o.humanize || o.blocksize > 0
    ensures var r := PrintDataOf(o, env, ent);
            r.Ok? ==> (r.value.size.DevicePair? <==> IsDevice(ent.stat)) &&
                      (r.value.size.DevicePair? ==> r.value.size == DevicePair(ent.stat.major, ent.stat.minor)) &&
                      (r.value.size.SizeText? && !o.humanize ==> r.value.size.text == Truncate(SizeCap, IntText(ent.stat.size)))
  {
  }

  /** The time column is twelve characters: the month, the day padded to two
      columns, and `hh:mm`, whose digits read back as the hour and minute. */
  lemma TimeColumn(tm: Tm)
    ensures var t := TimeText(tm);
            |t| == 12 && t[..3] == Months[tm.mon] && t[3] == ' ' && t[6] == ' ' && t[9] == ':' &&
            AllDigits(t[7..9]) && NatValue(t[7..9]) == tm.hour &&
            AllDigits(t[10..12]) && NatValue(t[10..12]) == tm.min
  {
    var mon := Months[tm.mon];
    assert |mon| == 3;
    var d := PadLeft(IntText(tm.mday), 2, ' ');
    assert |d| == 2 by { NatTextFits(tm.mday, 2); }
    var h := PadLeft(IntText(tm.hour), 2, '0');
    var m := PadLeft(IntText(tm.min), 2, '0');
    TwoDigits(tm.hour);
    TwoDigits(tm.min);
    TimeLayout(mon, d, h, m);
    assert TimeText(tm) == Truncate(TimeCap, mon + " " + d + " " + h + ":" + m + " ");
  }

  /** Where the parts of `"%s %2d %02d:%02d "` land once the last byte is cut. */
  lemma TimeLayout(mon: seq<char>, d: seq<char>, h: seq<char>, m: seq<char>)
    requires |mon| == 3 && |d| == 2 && |h| == 2 && |m| == 2
    ensures var t := Truncate(TimeCap, mon + " " + d + " " + h + ":" + m + " ");
            |t| == 12 && t[..3] == mon && t[3] == ' ' && t[6] == ' ' && t[9] == ':' &&
            t[7..9] == h && t[10..12] == m
  {
    var full := mon + " " + d + " " + h + ":" + m + " ";
    var t := full[..12];
    assert t == mon + " " + d + " " + h + ":" + m;
  }

  /** `%02d` of a value below 100: two digits that read back as the value. */
  lemma TwoDigits(v: nat)
    requires v < 100
    ensures var s := PadLeft(IntText(v), 2, '0'); |s| == 2 && AllDigits(s) && NatValue(s) == v
  {
    var s := PadLeft(IntText(v), 2, '0');
    NatTextFits(v, 2);
    NatTextRoundTrip(v);
    if v < 10 {
      assert s == ['0'] + NatText(v);
      assert s[..1] == ['0'];
    } else {
      assert s == NatText(v);
    }
  }

  /** Masking keeps the length and every printable byte, turns every
      non-printable byte into `?` when hiding, and changes nothing
      otherwise. */
  lemma MaskedProperties(mask: bool, s: seq<char>)
    ensures var r := Masked(mask, s);
            (forall k :: 0 <= k < |s| && IsPrint(s[k]) ==> r[k] == s[k]) &&
            (mask ==> forall k :: 0 <= k < |s| && !IsPrint(s[k]) ==> r[k] == '?') &&
            (mask ==> forall k :: 0 <= k < |r| ==> IsPrint(r[k])) &&
            (!mask ==> r == s)
  {
  }

  /** The `-F` indicator follows the priority directory, link, executable,
      whiteout (not on Linux), socket, FIFO, and is NUL otherwise. */
  lemma TypeCharPriority(st: Stat, linux: bool)
    ensures (TypeChar(st, linux) == '/') <==> st.kind == Directory
    ensures (TypeChar(st, linux) == '@') <==> st.kind == SymbolicLink
    ensures (TypeChar(st, linux) == '*') <==> st.exec && st.kind != Directory && st.kind != SymbolicLink
    ensures (TypeChar(st, linux) == '%') <==> !linux && !st.exec && st.kind == Whiteout
    ensures (TypeChar(st, linux) == '=') <==> !st.exec && st.kind == Socket
    ensures (TypeChar(st, linux) == '|') <==> !st.exec && st.kind == Fifo
    ensures (TypeChar(st, linux) == NUL) <==>
              !st.exec && (st.kind in {Regular, CharDevice, BlockDevice} || (linux && st.kind == Whiteout))
  {
  }

  /** Only links get a target; the call fails exactly when `readlink` does,
      and the target is at most PATH_MAX - 1 bytes. */
  lemma SymTargetRules(env: Env, ent: Entry)
    ensures !IsLink(ent.info) ==> SymTargetOf(env, ent) == Ok("")
    ensures IsLink(ent.info) ==> (SymTargetOf(env, ent).Fatal? <==> env.readlink(LinkPath(ent)).None?)
    ensures SymTargetOf(env, ent).Ok? ==> |SymTargetOf(env, ent).value| <= PathMax - 1
  {
  }

  // ---------------------------------------------------------------------
  // The listing of a group of siblings.

  datatype Row = Row(ent: Entry, data: PrintData)

  /** An entry is listed unless it is a dot file, the filter is the default
      one and we are inside directories. */
  predicate Shown(o: Options, ent: Entry) {
    !(o.goIntoDirs && IsDotName(ent.name) && o.filter == Normal)
  }

  /** The digit count of a device number is only defined for positive
      numbers (`floor(log10(x) + 1)`). */
  predicate CountableDevice(o: Options, r: Row) {
    Shown(o, r.ent) && r.data.size.DevicePair? ==> r.data.size.major > 0 && r.data.size.minor > 0
  }

  predicate CountableDevices(o: Options, rows: seq<Row>) {
    forall k :: 0 <= k < |rows| ==> CountableDevice(o, rows[k])
  }

  datatype Widths = Widths(inode: nat, blocks: nat, nlink: nat, user: nat, group: nat,
                           size: nat, major: nat, minor: nat, time: nat)

  /** The state of the measuring pass: the column widths and both totals. */
  datatype Measures = Measures(w: Widths, blockTotal: int, sizeTotal: int)

  const Unmeasured: Measures := Measures(Widths(0, 0, 0, 0, 0, 0, 0, 0, 0), 0, 0)

  /** One step of the measuring pass. */
  function MeasureStep(o: Options, m: Measures, r: Row): Measures
    requires CountableDevice(o, r)
  {
    if !Shown(o, r.ent) then m
    else
      var d, w := r.data, m.w;
      var w1 := w.(inode := Max(w.inode, |d.inode|), blocks := Max(w.blocks, |d.blocks|),
                   nlink := Max(w.nlink, |d.nlink|), user := Max(w.user, |d.user|),
                   group := Max(w.group, |d.group|), time := Max(w.time, |d.time|));
      var w2 := (match d.size
        case DevicePair(major, minor) =>
          var mj := Max(w1.major, DigitCount(major));
          var mn := Max(w1.minor, DigitCount(minor));
          w1.(major := mj, minor := mn, size := Max(w1.size, mj + 2 + mn))
        case SizeText(t) => w1.(size := Max(w1.size, |t|)));
      if o.humanize then Measures(w2, m.blockTotal, m.sizeTotal + r.ent.stat.size)
      else Measures(w2, m.blockTotal + r.ent.stat.blocks, m.sizeTotal)
  }

  /** The measuring pass over the first entries, in list order. */
  function Measure(o: Options, rows: seq<Row>): Measures
    requires CountableDevices(o, rows)
  {
    if rows == [] then Unmeasured
    else MeasureStep(o, Measure(o, rows[..|rows| - 1]), rows[|rows| - 1])
  }

  /** `"%*d, %*d"` of the device numbers into 24 bytes. */
  function DeviceText(w: Widths, major: int, minor: int): seq<char> {
    Truncate(DeviceCap, PadLeft(IntText(major), w.major, ' ') + ", " + PadLeft(IntText(minor), w.minor, ' '))
  }

  function SizeCell(w: Widths, s: SizeColumn): seq<char> {
    match s
    case SizeText(t) => t
    case DevicePair(major, minor) => DeviceText(w, major, minor)
  }

  /** Everything a line holds before the file name. */
  function LinePrefix(o: Options, w: Widths, d: PrintData): seq<char> {
    (if o.printInode then PadLeft(d.inode, w.inode, ' ') + " " else "") +
    (if o.printBlocks then PadLeft(d.blocks, w.blocks, ' ') + " " else "") +
    (if o.longMode then LongPart(w, d) else "")
  }

  /** The `-F` indicator as evidently intended: nothing for an entry without
      one. The source prints the NUL itself (TypeSuffixAsWritten). */
  function TypeSuffix(c: char): (s: seq<char>)
    ensures NoNul(s)
    ensures c != NUL ==> s == [c]
  {
    if c == NUL then [] else [c]
  }

  /** The `-F` indicator as the source prints it, `%c` of the character even
      when it is NUL. */
  function TypeSuffixAsWritten(c: char): seq<char> {
    [c]
  }

  function LinkArrow(o: Options, r: Row): seq<char> {
    if o.longMode && IsLink(r.ent.info) then " -> " + r.data.symTarget else ""
  }

  /** The line of one shown entry. */
  function LineOf(o: Options, w: Widths, r: Row): seq<char> {
    LinePrefix(o, w, r.data) + r.data.filename +
    (if o.fileTypeChar then TypeSuffix(r.data.modeChar) else "") + LinkArrow(o, r) + "\n"
  }

  /** The line of one shown entry with the indicator as the source prints it. */
  function LineAsWritten(o: Options, w: Widths, r: Row): seq<char> {
    LinePrefix(o, w, r.data) + r.data.filename +
    (if o.fileTypeChar then TypeSuffixAsWritten(r.data.modeChar) else "") + LinkArrow(o, r) + "\n"
  }

  /** The emitting pass over the first entries, in list order. */
  function Lines(o: Options, w: Widths, rows: seq<Row>): seq<seq<char>> {
    if rows == [] then []
    else
      var last := rows[|rows| - 1];
      Lines(o, w, rows[..|rows| - 1]) + (if Shown(o, last.ent) then [LineOf(o, w, last)] else [])
  }

  /** The `total` line: only in long or blocks mode on a terminal. */
  function TotalLine(o: Options, isTty: bool, m: Measures): Result<seq<seq<char>>> {
    if (o.longMode || o.printBlocks) && isTty then
      if o.humanize then
        var t :- HumanizedField(m.sizeTotal);
        Ok(["total " + t + "\n"])
      else Ok(["total " + IntText(m.blockTotal) + "\n"])
    else Ok([])
  }

  /** `print_all`: the total line, then one line per shown entry. */
  function PrintAllSpec(o: Options, isTty: bool, rows: seq<Row>): Result<seq<seq<char>>>
    requires CountableDevices(o, rows)
  {
    var m := Measure(o, rows);
    var total :- TotalLine(o, isTty, m);
    Ok(total + Lines(o, m.w, rows))
  }

  /** `print_all`: a measuring loop keeping the running maxima and totals,
      the total line, and an emitting loop. */
  method PrintAll(o: Options, isTty: bool, rows: seq<Row>) returns (r: Result<seq<seq<char>>>)
    requires CountableDevices(o, rows)
    ensures r == PrintAllSpec(o, isTty, rows)
  {
    var m := MeasureAll(o, rows);
    var total := Total(o, isTty, m);
    if total.Fatal? {
      return Fatal(total.message);
    }
    var lines := EmitAll(o, m.w, rows, total.value);
    r := Ok(lines);
  }

  /** The measuring loop, keeping the running maxima and totals. */
  method MeasureAll(o: Options, rows: seq<Row>) returns (m: Measures)
    requires CountableDevices(o, rows)
    ensures m == Measure(o, rows)
  {
    var maxInode: nat, maxBlocks: nat, maxNlink: nat, maxUser: nat, maxGroup: nat := 0, 0, 0, 0, 0;
    var maxSize: nat, maxMajor: nat, maxMinor: nat, maxTime: nat := 0, 0, 0, 0;
    var blockTotal, sizeTotal := 0, 0;
    var k := 0;
    while k < |rows|
      invariant 0 <= k <= |rows|
      invariant Measure(o, rows[..k]) ==
                Measures(Widths(maxInode, maxBlocks, maxNlink, maxUser, maxGroup, maxSize, maxMajor, maxMinor, maxTime),
                         blockTotal, sizeTotal)
    {
      var cur := rows[k];
      assert CountableDevice(o, cur);
      ghost var before := Measures(Widths(maxInode, maxBlocks, maxNlink, maxUser, maxGroup, maxSize, maxMajor, maxMinor, maxTime),
                                   blockTotal, sizeTotal);
      if Shown(o, cur.ent) {
        var d := cur.data;
        maxInode := Max(maxInode, |d.inode|);
        maxBlocks := Max(maxBlocks, |d.blocks|);
        maxNlink := Max(maxNlink, |d.nlink|);
        maxUser := Max(maxUser, |d.user|);
        maxGroup := Max(maxGroup, |d.group|);
        maxTime := Max(maxTime, |d.time|);
        if o.humanize {
          sizeTotal := sizeTotal + cur.ent.stat.size;
        } else {
          blockTotal := blockTotal + cur.ent.stat.blocks;
        }
        match d.size {
          case DevicePair(major, minor) =>
            maxMajor := Max(maxMajor, DigitCount(major));
            maxMinor := Max(maxMinor, DigitCount(minor));
            maxSize := Max(maxSize, maxMajor + 2 + maxMinor);
          case SizeText(t) =>
            maxSize := Max(maxSize, |t|);
        }
      }
      assert Measures(Widths(maxInode, maxBlocks, maxNlink, maxUser, maxGroup, maxSize, maxMajor, maxMinor, maxTime),
                      blockTotal, sizeTotal) == MeasureStep(o, before, cur);
      assert rows[..k + 1][..k] == rows[..k];
      k := k + 1;
    }
    assert rows[..k] == rows;
    m := Measures(Widths(maxInode, maxBlocks, maxNlink, maxUser, maxGroup, maxSize, maxMajor, maxMinor, maxTime),
                  blockTotal, sizeTotal);
  }

  /** The total line, humanized through a 5-byte buffer with `-h`. */
  method Total(o: Options, isTty: bool, m: Measures) returns (r: Result<seq<seq<char>>>)
    ensures r == TotalLine(o, isTty, m)
  {
    r := Ok([]);
    if (o.longMode || o.printBlocks) && isTty {
      if o.humanize {
        var t := HumanizeInto(m.sizeTotal, TotalCap);
        if t.Fatal? {
          return Fatal(t.message);
        }
        r := Ok(["total " + t.value + "\n"]);
      } else {
        r := Ok(["total " + IntText(m.blockTotal) + "\n"]);
      }
    }
  }

  /** The emitting loop: one line per shown entry after what is already out. */
  method EmitAll(o: Options, w: Widths, rows: seq<Row>, before: seq<seq<char>>) returns (lines: seq<seq<char>>)
    ensures lines == before + Lines(o, w, rows)
  {
    lines := before;
    var k := 0;
    while k < |rows|
      invariant 0 <= k <= |rows|
      invariant lines == before + Lines(o, w, rows[..k])
    {
      assert rows[..k + 1][..k] == rows[..k];
      if Shown(o, rows[k].ent) {
        lines := lines + [LineOf(o, w, rows[k])];
      }
      k := k + 1;
    }
    assert rows[..k] == rows;
  }

  // ---------------------------------------------------------------------
  // What the listing promises.

  /** The entries that are shown, in list order. */
  function ShownRows(o: Options, rows: seq<Row>): (s: seq<Row>)
    ensures |s| <= |rows|
    ensures forall k :: 0 <= k < |s| ==> Shown(o, s[k].ent)
  {
    if rows == [] then []
    else (if Shown(o, rows[0].ent) then [rows[0]] else []) + ShownRows(o, rows[1..])
  }

  lemma {:induction false} ShownRowsAppend(o: Options, rows: seq<Row>, r: Row)
    ensures ShownRows(o, rows + [r]) == ShownRows(o, rows) + (if Shown(o, r.ent) then [r] else [])
  {
    if rows == [] {
      assert [r][1..] == [];
    } else {
      assert (rows + [r])[1..] == rows[1..] + [r];
      ShownRowsAppend(o, rows[1..], r);
    }
  }

  /** The text columns the measuring pass takes the maximum of. */
  datatype Column = InodeCol | BlocksCol | NlinkCol | UserCol | GroupCol | TimeCol

  function ColumnText(d: PrintData, c: Column): seq<char> {
    match c
    case InodeCol => d.inode
    case BlocksCol => d.blocks
    case NlinkCol => d.nlink
    case UserCol => d.user
    case GroupCol => d.group
    case TimeCol => d.time
  }

  function ColumnWidth(w: Widths, c: Column): nat {
    match c
    case InodeCol => w.inode
    case BlocksCol => w.blocks
    case NlinkCol => w.nlink
    case UserCol => w.user
    case GroupCol => w.group
    case TimeCol => w.time
  }

  /** Each text column's width is the length of its longest string over the
      shown entries (0 when none is shown): it bounds every shown string and
      is attained by one. */
  lemma WidthIsMaximum(o: Options, rows: seq<Row>, c: Column)
    requires CountableDevices(o, rows)
    ensures var w := Measure(o, rows).w;
            (forall k :: 0 <= k < |rows| && Shown(o, rows[k].ent) ==> |ColumnText(rows[k].data, c)| <= ColumnWidth(w, c)) &&
            (ColumnWidth(w, c) == 0 ||
             exists k :: 0 <= k < |rows| && Shown(o, rows[k].ent) && |ColumnText(rows[k].data, c)| == ColumnWidth(w, c))
  {
    WidthBounds(o, rows, c);
    WidthAttained(o, rows, c);
  }

  lemma {:induction false} WidthBounds(o: Options, rows: seq<Row>, c: Column)
    requires CountableDevices(o, rows)
    ensures forall k :: 0 <= k < |rows| && Shown(o, rows[k].ent) ==>
              |ColumnText(rows[k].data, c)| <= ColumnWidth(Measure(o, rows).w, c)
  {
    if rows != [] {
      var init := rows[..|rows| - 1];
      PrefixCountable(o, rows);
      WidthBounds(o, init, c);
      var w := Measure(o, rows).w;
      assert ColumnWidth(Measure(o, init).w, c) <= ColumnWidth(w, c);
      forall k | 0 <= k < |rows| && Shown(o, rows[k].ent)
        ensures |ColumnText(rows[k].data, c)| <= ColumnWidth(w, c)
      {
        if k < |init| { assert init[k] == rows[k]; }
      }
    }
  }

  lemma {:induction false} WidthAttained(o: Options, rows: seq<Row>, c: Column)
    requires CountableDevices(o, rows)
    ensures var w := Measure(o, rows).w;
            ColumnWidth(w, c) == 0 ||
            exists k :: 0 <= k < |rows| && Shown(o, rows[k].ent) && |ColumnText(rows[k].data, c)| == ColumnWidth(w, c)
  {
    if rows != [] {
      var init := rows[..|rows| - 1];
      PrefixCountable(o, rows);
      WidthAttained(o, init, c);
      var w0 := Measure(o, init).w;
      var w := Measure(o, rows).w;
      if ColumnWidth(w, c) != 0 {
        if ColumnWidth(w, c) == ColumnWidth(w0, c) {
          var j :| 0 <= j < |init| && Shown(o, init[j].ent) && |ColumnText(init[j].data, c)| == ColumnWidth(w0, c);
          assert init[j] == rows[j];
        } else {
          assert |ColumnText(rows[|rows| - 1].data, c)| == ColumnWidth(w, c);
        }
      }
    }
  }

  lemma PrefixCountable(o: Options, rows: seq<Row>)
    requires CountableDevices(o, rows) && rows != []
    ensures CountableDevices(o, rows[..|rows| - 1]) && CountableDevice(o, rows[|rows| - 1])
  {
    var init := rows[..|rows| - 1];
    forall k | 0 <= k < |init| ensures CountableDevice(o, init[k]) { assert init[k] == rows[k]; }
  }

  /** Every shown size text fits the size column, every shown device number
      fits its digit column, and once a device is measured the size column
      holds `major, minor` at the measured widths. */
  lemma SizeWidths(o: Options, rows: seq<Row>)
    requires CountableDevices(o, rows)
    ensures var w := Measure(o, rows).w;
            (forall k :: 0 <= k < |rows| && Shown(o, rows[k].ent) && rows[k].data.size.SizeText? ==>
               |rows[k].data.size.text| <= w.size) &&
            (forall k :: 0 <= k < |rows| && Shown(o, rows[k].ent) && rows[k].data.size.DevicePair? ==>
               DigitCount(rows[k].data.size.major) <= w.major && DigitCount(rows[k].data.size.minor) <= w.minor) &&
            ((w.major == 0 && w.minor == 0) || w.major + 2 + w.minor <= w.size)
  {
    SizeTextsFit(o, rows);
    DeviceDigitsFit(o, rows);
    DeviceColumnWide(o, rows);
  }

  lemma {:induction false} SizeTextsFit(o: Options, rows: seq<Row>)
    requires CountableDevices(o, rows)
    ensures forall k :: 0 <= k < |rows| && Shown(o, rows[k].ent) && rows[k].data.size.SizeText? ==>
              |rows[k].data.size.text| <= Measure(o, rows).w.size
  {
    if rows != [] {
      var init := rows[..|rows| - 1];
      PrefixCountable(o, rows);
      SizeTextsFit(o, init);
      var w := Measure(o, rows).w;
      assert Measure(o, init).w.size <= w.size;
      forall k | 0 <= k < |rows| && Shown(o, rows[k].ent) && rows[k].data.size.SizeText?
        ensures |rows[k].data.size.text| <= w.size
      {
        if k < |init| { assert init[k] == rows[k]; }
      }
    }
  }

  lemma {:induction false} DeviceDigitsFit(o: Options, rows: seq<Row>)
    requires CountableDevices(o, rows)
    ensures forall k :: 0 <= k < |rows| && Shown(o, rows[k].ent) && rows[k].data.size.DevicePair? ==>
              DigitCount(rows[k].data.size.major) <= Measure(o, rows).w.major &&
              DigitCount(rows[k].data.size.minor) <= Measure(o, rows).w.minor
  {
    if rows != [] {
      var init := rows[..|rows| - 1];
      PrefixCountable(o, rows);
      DeviceDigitsFit(o, init);
      var w := Measure(o, rows).w;
      assert Measure(o, init).w.major <= w.major && Measure(o, init).w.minor <= w.minor;
      forall k | 0 <= k < |rows| && Shown(o, rows[k].ent) && rows[k].data.size.DevicePair?
        ensures DigitCount(rows[k].data.size.major) <= w.major && DigitCount(rows[k].data.size.minor) <= w.minor
      {
        if k < |init| { assert init[k] == rows[k]; }
      }
    }
  }

  lemma {:induction false} DeviceColumnWide(o: Options, rows: seq<Row>)
    requires CountableDevices(o, rows)
    ensures var w := Measure(o, rows).w; (w.major == 0 && w.minor == 0) || w.major + 2 + w.minor <= w.size
  {
    if rows != [] {
      PrefixCountable(o, rows);
      DeviceColumnWide(o, rows[..|rows| - 1]);
    }
  }

  /** The device column is at least as wide as `major, minor` whenever a
      device is shown. */
  lemma DeviceColumnFits(o: Options, rows: seq<Row>, k: nat)
    requires CountableDevices(o, rows)
    requires k < |rows| && Shown(o, rows[k].ent) && rows[k].data.size.DevicePair?
    ensures var w := Measure(o, rows).w; w.size >= w.major + 2 + w.minor
  {
    SizeWidths(o, rows);
  }

  /** The blocks counted (without `-h`) and the sizes counted (with `-h`)
      over the shown entries. */
  function BlockSum(rows: seq<Row>): int {
    if rows == [] then 0 else rows[0].ent.stat.blocks + BlockSum(rows[1..])
  }

  function SizeSum(rows: seq<Row>): int {
    if rows == [] then 0 else rows[0].ent.stat.size + SizeSum(rows[1..])
  }

  lemma {:induction false} SumsAppend(rows: seq<Row>, r: Row)
    ensures BlockSum(rows + [r]) == BlockSum(rows) + r.ent.stat.blocks
    ensures SizeSum(rows + [r]) == SizeSum(rows) + r.ent.stat.size
  {
    if rows == [] {
      assert [r][1..] == [];
    } else {
      assert (rows + [r])[1..] == rows[1..] + [r];
      SumsAppend(rows[1..], r);
    }
  }

  /** With `-h` the total is the sum of the shown sizes and the block total
      stays 0; otherwise the total is the sum of the shown raw block counts. */
  lemma {:induction false} TotalsAreSums(o: Options, rows: seq<Row>)
    requires CountableDevices(o, rows)
    ensures Measure(o, rows).sizeTotal == (if o.humanize then SizeSum(ShownRows(o, rows)) else 0)
    ensures Measure(o, rows).blockTotal == (if o.humanize then 0 else BlockSum(ShownRows(o, rows)))
  {
    if rows != [] {
      var init, last := rows[..|rows| - 1], rows[|rows| - 1];
      assert CountableDevices(o, init) by {
        forall k | 0 <= k < |init| ensures CountableDevice(o, init[k]) { assert init[k] == rows[k]; }
      }
      TotalsAreSums(o, init);
      assert rows == init + [last];
      ShownRowsAppend(o, init, last);
      if Shown(o, last.ent) {
        SumsAppend(ShownRows(o, init), last);
      } else {
        assert ShownRows(o, rows) == ShownRows(o, init);
      }
    }
  }

  /** One line per shown entry, in list order. */
  lemma {:induction false} OneLinePerShownEntry(o: Options, w: Widths, rows: seq<Row>)
    ensures |Lines(o, w, rows)| == |ShownRows(o, rows)|
    ensures forall k :: 0 <= k < |ShownRows(o, rows)| ==> Lines(o, w, rows)[k] == LineOf(o, w, ShownRows(o, rows)[k])
  {
    if rows != [] {
      var init, last := rows[..|rows| - 1], rows[|rows| - 1];
      OneLinePerShownEntry(o, w, init);
      assert rows == init + [last];
      ShownRowsAppend(o, init, last);
      var l0, s0 := Lines(o, w, init), ShownRows(o, init);
      if Shown(o, last.ent) {
        var l, s := l0 + [LineOf(o, w, last)], s0 + [last];
        assert Lines(o, w, rows) == l && ShownRows(o, rows) == s;
        forall k | 0 <= k < |s| ensures l[k] == LineOf(o, w, s[k]) {
          if k < |s0| { assert l[k] == l0[k] && s[k] == s0[k]; }
        }
      } else {
        assert Lines(o, w, rows) == l0 && ShownRows(o, rows) == s0;
      }
    }
  }

  /** Every emitted line ends in a newline. */
  lemma LinesEndInNewline(o: Options, w: Widths, rows: seq<Row>)
    ensures forall l :: l in Lines(o, w, rows) ==> |l| > 0 && l[|l| - 1] == '\n'
  {
    OneLinePerShownEntry(o, w, rows);
    var ls, s := Lines(o, w, rows), ShownRows(o, rows);
    forall l | l in ls ensures |l| > 0 && l[|l| - 1] == '\n' {
      var k :| 0 <= k < |ls| && ls[k] == l;
      assert l == LineOf(o, w, s[k]);
    }
  }

  /** The output of `print_all`: the total line exactly in long or blocks
      mode on a terminal, then one line per shown entry; the only failure is
      a humanized total that does not render. */
  lemma PrintAllShape(o: Options, isTty: bool, rows: seq<Row>)
    requires CountableDevices(o, rows)
    ensures var r := PrintAllSpec(o, isTty, rows);
            var totalShown := (o.longMode || o.printBlocks) && isTty;
            (r.Fatal? <==> totalShown && o.humanize && HumanizedField(Measure(o, rows).sizeTotal).Fatal?) &&
            (r.Ok? ==> |r.value| == |ShownRows(o, rows)| + (if totalShown then 1 else 0))
  {
    OneLinePerShownEntry(o, Measure(o, rows).w, rows);
  }

  /** Hidden entries count in neither pass: the listing equals the listing
      of the shown entries alone. */
  lemma HiddenEntriesIgnored(o: Options, rows: seq<Row>)
    requires CountableDevices(o, rows)
    ensures CountableDevices(o, ShownRows(o, rows))
    ensures Measure(o, ShownRows(o, rows)) == Measure(o, rows)
    ensures Lines(o, Measure(o, rows).w, ShownRows(o, rows)) == Lines(o, Measure(o, rows).w, rows)
  {
    MeasureIgnoresHidden(o, rows);
    LinesIgnoreHidden(o, Measure(o, rows).w, rows);
  }

  lemma {:induction false} MeasureIgnoresHidden(o: Options, rows: seq<Row>)
    requires CountableDevices(o, rows)
    ensures CountableDevices(o, ShownRows(o, rows))
    ensures Measure(o, ShownRows(o, rows)) == Measure(o, rows)
  {
    if rows != [] {
      var init, last := rows[..|rows| - 1], rows[|rows| - 1];
      assert CountableDevices(o, init) by {
        forall k | 0 <= k < |init| ensures CountableDevice(o, init[k]) { assert init[k] == rows[k]; }
      }
      MeasureIgnoresHidden(o, init);
      assert rows == init + [last];
      ShownRowsAppend(o, init, last);
      var s0 := ShownRows(o, init);
      assert CountableDevice(o, last);
      if Shown(o, last.ent) {
        var s := s0 + [last];
        assert ShownRows(o, rows) == s;
        assert CountableDevices(o, s) by {
          forall k | 0 <= k < |s| ensures CountableDevice(o, s[k]) {
            if k < |s0| { assert s[k] == s0[k]; }
          }
        }
        assert s[..|s| - 1] == s0 && s[|s| - 1] == last;
        assert Measure(o, s) == MeasureStep(o, Measure(o, s0), last);
      } else {
        assert ShownRows(o, rows) == s0;
        assert Measure(o, rows) == Measure(o, init);
      }
    }
  }

  /** Lines never depend on hidden entries. */
  lemma {:induction false} LinesIgnoreHidden(o: Options, w: Widths, rows: seq<Row>)
    ensures Lines(o, w, ShownRows(o, rows)) == Lines(o, w, rows)
  {
    if rows != [] {
      var init, last := rows[..|rows| - 1], rows[|rows| - 1];
      LinesIgnoreHidden(o, w, init);
      assert rows == init + [last];
      ShownRowsAppend(o, init, last);
      var s0 := ShownRows(o, init);
      if Shown(o, last.ent) {
        var s := s0 + [last];
        assert ShownRows(o, rows) == s;
        assert s[..|s| - 1] == s0 && s[|s| - 1] == last;
        assert Lines(o, w, s) == Lines(o, w, s0) + [LineOf(o, w, last)];
        assert Lines(o, w, rows) == Lines(o, w, init) + [LineOf(o, w, last)];
      } else {
        assert ShownRows(o, rows) == s0;
        assert Lines(o, w, rows) == Lines(o, w, init);
      }
    }
  }

  /** The width of everything before the file name, from the measured
      widths and the length of the permission string. */
  function PrefixWidth(o: Options, w: Widths, modeLen: nat): nat {
    (if o.printInode then w.inode + 1 else 0) +
    (if o.printBlocks then w.blocks + 1 else 0) +
    (if o.longMode then modeLen + 1 + w.nlink + 1 + w.user + 2 + w.group + 2 + w.size + 1 + w.time + 1 else 0)
  }

  /** The columns line up: every shown line starts its file name at the same
      column, given permission strings of one length. */
  lemma ColumnsAligned(o: Options, rows: seq<Row>, modeLen: nat, k: nat)
    requires CountableDevices(o, rows)
    requires k < |rows| && Shown(o, rows[k].ent) && |rows[k].data.mode| == modeLen
    ensures |LinePrefix(o, Measure(o, rows).w, rows[k].data)| == PrefixWidth(o, Measure(o, rows).w, modeLen)
  {
    var w := Measure(o, rows).w;
    var d := rows[k].data;
    WidthIsMaximum(o, rows, InodeCol);
    WidthIsMaximum(o, rows, BlocksCol);
    WidthIsMaximum(o, rows, NlinkCol);
    WidthIsMaximum(o, rows, UserCol);
    WidthIsMaximum(o, rows, GroupCol);
    WidthIsMaximum(o, rows, TimeCol);
    assert ColumnText(rows[k].data, InodeCol) == d.inode && ColumnText(rows[k].data, BlocksCol) == d.blocks;
    assert ColumnText(rows[k].data, NlinkCol) == d.nlink && ColumnText(rows[k].data, UserCol) == d.user;
    assert ColumnText(rows[k].data, GroupCol) == d.group && ColumnText(rows[k].data, TimeCol) == d.time;
    SizeCellFits(o, rows, k);
    PrefixLength(o, w, d);
  }

  /** The prefix of a line whose fields all fit their columns is exactly as
      wide as the columns. */
  lemma PrefixLength(o: Options, w: Widths, d: PrintData)
    requires |d.inode| <= w.inode && |d.blocks| <= w.blocks && |d.nlink| <= w.nlink
    requires |d.user| <= w.user && |d.group| <= w.group && |d.time| <= w.time
    requires |SizeCell(w, d.size)| <= w.size
    ensures |LinePrefix(o, w, d)| == PrefixWidth(o, w, |d.mode|)
  {
    var a := if o.printInode then PadLeft(d.inode, w.inode, ' ') + " " else "";
    var b := if o.printBlocks then PadLeft(d.blocks, w.blocks, ' ') + " " else "";
    var c := if o.longMode then LongPart(w, d) else "";
    assert LinePrefix(o, w, d) == a + b + c;
    if o.longMode { LongPartLength(w, d); }
  }

  /** The long-mode columns of a line. */
  function LongPart(w: Widths, d: PrintData): seq<char> {
    (d.mode + " " + PadLeft(d.nlink, w.nlink, ' ') + " ") +
    (PadRight(d.user, w.user) + "  " + PadRight(d.group, w.group) + "  ") +
    (PadLeft(SizeCell(w, d.size), w.size, ' ') + " " + PadLeft(d.time, w.time, ' ') + " ")
  }

  lemma LongPartLength(w: Widths, d: PrintData)
    requires |d.nlink| <= w.nlink && |d.user| <= w.user && |d.group| <= w.group && |d.time| <= w.time
    requires |SizeCell(w, d.size)| <= w.size
    ensures |LongPart(w, d)| == |d.mode| + 1 + w.nlink + 1 + w.user + 2 + w.group + 2 + w.size + 1 + w.time + 1
  {
    var p1 := d.mode + " " + PadLeft(d.nlink, w.nlink, ' ') + " ";
    var p2 := PadRight(d.user, w.user) + "  " + PadRight(d.group, w.group) + "  ";
    var p3 := PadLeft(SizeCell(w, d.size), w.size, ' ') + " " + PadLeft(d.time, w.time, ' ') + " ";
    assert |p1| == |d.mode| + 1 + w.nlink + 1 by { assert |PadLeft(d.nlink, w.nlink, ' ')| == w.nlink; }
    assert |p2| == w.user + 2 + w.group + 2 by {
      assert |PadRight(d.user, w.user)| == w.user && |PadRight(d.group, w.group)| == w.group;
    }
    assert |p3| == w.size + 1 + w.time + 1 by {
      assert |PadLeft(SizeCell(w, d.size), w.size, ' ')| == w.size && |PadLeft(d.time, w.time, ' ')| == w.time;
    }
    assert LongPart(w, d) == p1 + p2 + p3;
  }

  /** The size cell of a shown entry is never wider than the size column. */
  lemma SizeCellFits(o: Options, rows: seq<Row>, k: nat)
    requires CountableDevices(o, rows)
    requires k < |rows| && Shown(o, rows[k].ent)
    ensures |SizeCell(Measure(o, rows).w, rows[k].data.size)| <= Measure(o, rows).w.size
  {
    var w := Measure(o, rows).w;
    SizeWidths(o, rows);
    match rows[k].data.size
    case SizeText(t) =>
    case DevicePair(major, minor) =>
      assert CountableDevice(o, rows[k]);
      DigitCountIsTextLength(major);
      DigitCountIsTextLength(minor);
      assert |IntText(major)| <= w.major && |IntText(minor)| <= w.minor;
  }

  /** The ` -> target` part appears only in long mode, for links. */
  lemma ArrowOnlyForLinksInLongMode(o: Options, r: Row)
    ensures LinkArrow(o, r) != [] <==> o.longMode && IsLink(r.ent.info)
  {
  }

  /** As written, `-F` emits a NUL byte after the name of an entry without
      an indicator (a plain non-executable file, for one); the corrected
      indicator emits nothing and agrees wherever there is an indicator. */
  lemma TypeIndicatorNul(o: Options, w: Widths, r: Row)
    requires o.fileTypeChar && r.data.modeChar == NUL
    ensures var l := LineAsWritten(o, w, r); var n := |LinePrefix(o, w, r.data) + r.data.filename|;
            n < |l| && l[n] == NUL
    ensures LineOf(o, w, r) == LinePrefix(o, w, r.data) + r.data.filename + LinkArrow(o, r) + "\n"
  {
  }

  lemma TypeIndicatorAgrees(c: char)
    ensures NoNul(TypeSuffix(c))
    ensures c != NUL ==> TypeSuffix(c) == TypeSuffixAsWritten(c)
  {
  }
}
