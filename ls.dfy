/** The traversal policy of `ls()` and the option fold of `main`.

    The tree walker is not modelled: its visits arrive as a sequence, each
    directory in preorder carrying the children the walker would return for
    it, already in the walker's order. The skip marks the loop issues are
    collected as the positions of the visits they were issued for. Standard
    output and standard error are sequences of the chunks written to them. */
module Ls {
  import opened Wrappers
  import opened Opt
  import opened Fts
  import Compare
  import Print

  /** One node returned by the walker, with the children the walker would
      hand back if asked right then. */
  datatype Visit = Visit(ent: Entry, children: seq<Entry>)

  /** What the visit loop has produced so far: whether no directory has been
      listed yet, the chunks written to standard output and to standard
      error, the skip marks, and the fatal error that stopped the run. */
  datatype LsState = LsState(first: bool, out: seq<seq<char>>, err: seq<seq<char>>,
                             skip: set<nat>, fatal: Option<seq<char>>)

  /** The foreign calls of the loop besides the walker: the record
      builder's lookups, whether standard output is a terminal, the program
      name and `strerror`. */
  datatype Host = Host(env: Print.Env, isTty: bool, progName: seq<char>, strerror: int -> seq<char>)

  const Initial: LsState := LsState(true, [], [], {}, None)

  // ---------------------------------------------------------------------
  // Opening the walker.

  /** The walker's configuration: physical traversal always, `.` and `..`
      only under `-a`, and the comparator only when sorting. */
  datatype FtsConfig = FtsConfig(physical: bool, seeDot: bool, comparator: bool)

  function FtsOpenFlags(o: Options): FtsConfig {
    FtsConfig(true, o.filter == All, o.sort != NotSorted)
  }

  /** The comparator is installed exactly when it cannot reach its fatal
      branch on any pair of entries. */
  lemma ComparatorInstalledWhenTotal(o: Options)
    ensures FtsOpenFlags(o).comparator <==> forall a, b :: Compare.MainCompare(o, a, b).Ok?
    ensures FtsOpenFlags(o).seeDot <==> o.filter == All
  {
    if !FtsOpenFlags(o).comparator {
      var st := Stat(0, 0, Regular, false, 0, 0, 0, 0, 0, 0, 0, 0, 0);
      var e := Entry(".", ".", ".", 0, PlainFile, 0, st);
      assert Compare.MainCompare(o, e, e).Fatal?;
    }
  }

  // ---------------------------------------------------------------------
  // The policy for one visit.

  /** `ls -R` does not show dot files: a dot name below the operands under
      the default filter is skipped before anything else. */
  predicate DotSkipped(o: Options, ent: Entry) {
    IsDotName(ent.name) && o.filter == Normal && ent.level > 0
  }

  /** The visits that list a directory. */
  predicate Listed(o: Options, ent: Entry) {
    !DotSkipped(o, ent) && ent.info == DirPre
  }

  /** The visits that report an error on standard error. */
  predicate IsError(info: Info) {
    info == DirCycle || info == DirUnreadable || info == Failed || info == NoStat || info == NoStatOk
  }

  /** The visits that receive a skip mark. */
  predicate Marked(o: Options, ent: Entry) {
    DotSkipped(o, ent) || !o.goIntoDirs || (!o.recurse && ent.info == DirPre)
  }

  /** What a listed directory shows: its children, or itself under `-d`. */
  function Group(o: Options, v: Visit): seq<Entry> {
    if o.goIntoDirs then v.children else [v.ent]
  }

  /** The device numbers of the shown devices of a group are positive, so
      that their digit counts exist. */
  predicate DevicesNumbered(o: Options, ents: seq<Entry>) {
    forall k :: 0 <= k < |ents| && Print.Shown(o, ents[k]) && IsDevice(ents[k].stat) ==>
      ents[k].stat.major > 0 && ents[k].stat.minor > 0
  }

  predicate AllNumbered(o: Options, visits: seq<Visit>) {
    forall k :: 0 <= k < |visits| && Listed(o, visits[k].ent) ==> DevicesNumbered(o, Group(o, visits[k]))
  }

  function Separator(first: bool): seq<seq<char>> {
    if first then [] else ["\n"]
  }

  /** The `path:` line before a group. */
  function Header(o: Options, filesLen: nat, ent: Entry): seq<seq<char>> {
    if (filesLen > 1 || o.recurse) && o.goIntoDirs then [ent.path + ":\n"] else []
  }

  /** `prog: accpath: message` for a visit the walker could not complete. */
  function Diagnostic(host: Host, ent: Entry): seq<char> {
    host.progName + ": " + ent.accpath + ": " + host.strerror(ent.errno) + "\n"
  }

  /** The record of one entry; `-k`, the default and `getbsize` all give
      a positive block size. */
  function Builder(o: Options, env: Print.Env): Entry --> Result<Print.PrintData> {
    (e: Entry) requires o.blocksize > 0 => Print.PrintDataOf(o, env, e)
  }

  /** The records of a group, built by `build` in list order; the first
      entry whose record cannot be built ends the run. */
  function Collect(build: Entry --> Result<Print.PrintData>, ents: seq<Entry>): Result<seq<Print.Row>>
    requires forall k :: 0 <= k < |ents| ==> build.requires(ents[k])
  {
    if ents == [] then Ok([])
    else
      var init :- Collect(build, ents[..|ents| - 1]);
      var d :- build(ents[|ents| - 1]);
      Ok(init + [Print.Row(ents[|ents| - 1], d)])
  }

  /** The lines `print_all` writes for a group. */
  function Listing(o: Options, host: Host, ents: seq<Entry>): Result<seq<seq<char>>>
    requires o.blocksize > 0 && DevicesNumbered(o, ents)
  {
    var rows :- Collect(Builder(o, host.env), ents);
    RowsCountable(o, host.env, ents, rows);
    Print.PrintAllSpec(o, host.isTty, rows)
  }

  /** The listing of a listed directory's group. */
  function Lister(o: Options, host: Host): Visit --> Result<seq<seq<char>>> {
    (v: Visit) requires o.blocksize > 0 && DevicesNumbered(o, Group(o, v)) => Listing(o, host, Group(o, v))
  }

  /** `lister` can list every listed visit. */
  ghost predicate Listable(o: Options, lister: Visit --> Result<seq<seq<char>>>, visits: seq<Visit>) {
    forall k :: 0 <= k < |visits| && Listed(o, visits[k].ent) ==> lister.requires(visits[k])
  }

  /** One iteration of the visit loop, visit number `k`, where `lister`
      produces the lines of a listed directory. */
  function Step(o: Options, filesLen: nat, host: Host, lister: Visit --> Result<seq<seq<char>>>,
                s: LsState, k: nat, v: Visit): LsState
    requires Listed(o, v.ent) ==> lister.requires(v)
  {
    if DotSkipped(o, v.ent) then s.(skip := s.skip + {k})
    else
      var s1 := if o.goIntoDirs then s else s.(skip := s.skip + {k});
      if v.ent.info == DirPre then AfterListing(o, filesLen, s1, k, v.ent, lister(v))
      else if IsError(v.ent.info) then s1.(err := s1.err + [Diagnostic(host, v.ent)])
      else s1
  }

  /** A listed directory: the separator unless it is the first, its header,
      then its lines, or the fatal error that stopped them. */
  function AfterListing(o: Options, filesLen: nat, s: LsState, k: nat, ent: Entry,
                        listing: Result<seq<seq<char>>>): LsState {
    var s2 := s.(first := false, out := s.out + Separator(s.first) + Header(o, filesLen, ent));
    match listing
    case Fatal(m) => s2.(fatal := Some(m))
    case Ok(lines) => s2.(out := s2.out + lines, skip := if o.recurse then s2.skip else s2.skip + {k})
  }

  /** The visit loop over the first visits; a fatal error stops it. */
  function Run(o: Options, filesLen: nat, host: Host, lister: Visit --> Result<seq<seq<char>>>,
               visits: seq<Visit>): LsState
    requires Listable(o, lister, visits)
  {
    if visits == [] then Initial
    else
      var s := Run(o, filesLen, host, lister, visits[..|visits| - 1]);
      if s.fatal.Some? then s else Step(o, filesLen, host, lister, s, |visits| - 1, visits[|visits| - 1])
  }

  /** `ls()`: open the walker on the operands, run the loop, and fail if
      the walker stopped on an error. */
  function LsSpec(o: Options, files: seq<seq<char>>, host: Host, walkerOpen: bool,
                  visits: seq<Visit>, readErrno: int): LsState
    requires |files| > 0 && o.blocksize > 0 && AllNumbered(o, visits)
  {
    if !walkerOpen then Initial.(fatal := Some("fts_open " + files[0]))
    else
      var s := Run(o, |files|, host, Lister(o, host), visits);
      if s.fatal.None? && readErrno != 0 then s.(fatal := Some("fts_read")) else s
  }

  // ---------------------------------------------------------------------
  // The loop itself.

  /** `ls()`: `walkerOpen` says whether the walker could be opened, `visits`
      is what it returns and `readErrno` is `errno` once it returns nothing. */
  method Ls(o: Options, files: seq<seq<char>>, host: Host, walkerOpen: bool,
            visits: seq<Visit>, readErrno: int) returns (s: LsState)
    requires |files| > 0 && o.blocksize > 0 && AllNumbered(o, visits)
    ensures s == LsSpec(o, files, host, walkerOpen, visits, readErrno)
  {
    if !walkerOpen {
      return Initial.(fatal := Some("fts_open " + files[0]));
    }
    ghost var lister := Lister(o, host);
    s := Initial;
    var k := 0;
    while k < |visits|
      invariant 0 <= k <= |visits|
      invariant s == Run(o, |files|, host, lister, visits[..k]) && s.fatal.None?
    {
      assert visits[..k + 1][..k] == visits[..k];
      s := VisitOne(o, |files|, host, s, k, visits[k]);
      k := k + 1;
      if s.fatal.Some? {
        RunStopsAtFatal(o, |files|, host, lister, visits, k);
        return;
      }
    }
    assert visits[..k] == visits;
    if readErrno != 0 {
      s := s.(fatal := Some("fts_read"));
    }
  }

  /** The body of the visit loop. */
  method VisitOne(o: Options, filesLen: nat, host: Host, s: LsState, k: nat, v: Visit) returns (t: LsState)
    requires o.blocksize > 0
    requires Listed(o, v.ent) ==> DevicesNumbered(o, Group(o, v))
    ensures t == Step(o, filesLen, host, Lister(o, host), s, k, v)
  {
    t := s;
    if DotSkipped(o, v.ent) {
      t := t.(skip := t.skip + {k});
      return;
    }
    if !o.goIntoDirs {
      t := t.(skip := t.skip + {k});
    }
    if v.ent.info == DirPre {
      var lines := ListGroup(o, host, Group(o, v));
      t := ListDirectory(o, filesLen, t, k, v.ent, lines);
    } else if IsError(v.ent.info) {
      t := t.(err := t.err + [Diagnostic(host, v.ent)]);
    }
  }

  /** The separator, the header and the lines of a listed directory. */
  method ListDirectory(o: Options, filesLen: nat, s: LsState, k: nat, ent: Entry,
                       listing: Result<seq<seq<char>>>) returns (t: LsState)
    ensures t == AfterListing(o, filesLen, s, k, ent, listing)
  {
    t := s;
    if t.first {
      t := t.(first := false);
    } else {
      t := t.(out := t.out + ["\n"]);
    }
    if (filesLen > 1 || o.recurse) && o.goIntoDirs {
      t := t.(out := t.out + [ent.path + ":\n"]);
    }
    if listing.Fatal? {
      t := t.(fatal := Some(listing.message));
      return;
    }
    t := t.(out := t.out + listing.value);
    if !o.recurse {
      t := t.(skip := t.skip + {k});
    }
  }

  /** The records of a group, then `print_all` of them. */
  method ListGroup(o: Options, host: Host, ents: seq<Entry>) returns (r: Result<seq<seq<char>>>)
    requires o.blocksize > 0 && DevicesNumbered(o, ents)
    ensures r == Listing(o, host, ents)
  {
    var rows := CollectRows(o, host.env, ents);
    if rows.Fatal? {
      return Fatal(rows.message);
    }
    RowsCountable(o, host.env, ents, rows.value);
    r := Print.PrintAll(o, host.isTty, rows.value);
  }

  /** `get_print_data` for every entry of a group, in list order. */
  method CollectRows(o: Options, env: Print.Env, ents: seq<Entry>) returns (r: Result<seq<Print.Row>>)
    requires o.blocksize > 0
    ensures r == Collect(Builder(o, env), ents)
  {
    var rows: seq<Print.Row> := [];
    var k := 0;
    while k < |ents|
      invariant 0 <= k <= |ents|
      invariant Collect(Builder(o, env), ents[..k]) == Ok(rows)
    {
      var d;
      d, rows := NextRecord(o, env, ents, k, rows);
      if d.Fatal? {
        return Fatal(d.message);
      }
      k := k + 1;
    }
    assert ents[..k] == ents;
    r := Ok(rows);
  }

  /** `get_print_data` of entry `k`: on success the records of the first
      `k + 1` entries, on failure the outcome of the whole group. */
  method NextRecord(o: Options, env: Print.Env, ents: seq<Entry>, k: nat, rows: seq<Print.Row>)
    returns (d: Result<Print.PrintData>, rows': seq<Print.Row>)
    requires o.blocksize > 0 && k < |ents| && Collect(Builder(o, env), ents[..k]) == Ok(rows)
    ensures d.Ok? ==> Collect(Builder(o, env), ents[..k + 1]) == Ok(rows')
    ensures d.Fatal? ==> Collect(Builder(o, env), ents) == Fatal(d.message)
  {
    d := Print.GetPrintData(o, env, ents[k]);
    CollectAppend(Builder(o, env), ents, k, rows);
    if d.Fatal? {
      CollectStopsAtFatal(Builder(o, env), ents, k + 1);
      rows' := rows;
    } else {
      rows' := rows + [Print.Row(ents[k], d.value)];
    }
  }

  /** One more record: the build of the next entry decides. */
  lemma CollectAppend(build: Entry --> Result<Print.PrintData>, ents: seq<Entry>, k: nat, rows: seq<Print.Row>)
    requires forall j :: 0 <= j < |ents| ==> build.requires(ents[j])
    requires k < |ents| && Collect(build, ents[..k]) == Ok(rows)
    ensures Collect(build, ents[..k + 1]) ==
            match build(ents[k])
            case Fatal(m) => Fatal(m)
            case Ok(d) => Ok(rows + [Print.Row(ents[k], d)])
  {
    assert ents[..k + 1][..k] == ents[..k];
  }

  lemma {:induction false} CollectStopsAtFatal(build: Entry --> Result<Print.PrintData>, ents: seq<Entry>, j: nat)
    requires forall k :: 0 <= k < |ents| ==> build.requires(ents[k])
    requires j <= |ents| && Collect(build, ents[..j]).Fatal?
    ensures Collect(build, ents) == Collect(build, ents[..j])
  {
    if j < |ents| {
      var init := ents[..|ents| - 1];
      assert init[..j] == ents[..j];
      CollectStopsAtFatal(build, init, j);
    } else {
      assert ents[..j] == ents;
    }
  }

  lemma {:induction false} RunStopsAtFatal(o: Options, filesLen: nat, host: Host,
                                           lister: Visit --> Result<seq<seq<char>>>, visits: seq<Visit>, j: nat)
    requires Listable(o, lister, visits)
    requires j <= |visits| && Run(o, filesLen, host, lister, visits[..j]).fatal.Some?
    ensures Run(o, filesLen, host, lister, visits) == Run(o, filesLen, host, lister, visits[..j])
  {
    if j < |visits| {
      var init := visits[..|visits| - 1];
      assert init[..j] == visits[..j];
      RunStopsAtFatal(o, filesLen, host, lister, init, j);
    } else {
      assert visits[..j] == visits;
    }
  }

  // ---------------------------------------------------------------------
  // What the records of a group promise.

  /** Building the records fails exactly when some entry's record cannot
      be built. */
  lemma {:induction false} CollectFails(build: Entry --> Result<Print.PrintData>, ents: seq<Entry>)
    requires forall k :: 0 <= k < |ents| ==> build.requires(ents[k])
    ensures Collect(build, ents).Fatal? <==> exists k :: 0 <= k < |ents| && build(ents[k]).Fatal?
  {
    if ents != [] {
      var init, last := ents[..|ents| - 1], ents[|ents| - 1];
      CollectFails(build, init);
      if Collect(build, init).Fatal? {
        var k :| 0 <= k < |init| && build(init[k]).Fatal?;
        assert ents[k] == init[k];
      } else if build(last).Ok? {
        forall k | 0 <= k < |ents| ensures build(ents[k]).Ok? {
          if k < |init| { assert ents[k] == init[k]; }
        }
      }
    }
  }

  /** The records are built for every entry, in list order. */
  lemma {:induction false} CollectShape(build: Entry --> Result<Print.PrintData>, ents: seq<Entry>)
    requires forall k :: 0 <= k < |ents| ==> build.requires(ents[k])
    requires Collect(build, ents).Ok?
    ensures var rows := Collect(build, ents).value;
            |rows| == |ents| &&
            forall k :: 0 <= k < |ents| ==> rows[k].ent == ents[k] && build(ents[k]) == Ok(rows[k].data)
  {
    if ents != [] {
      var init, last := ents[..|ents| - 1], ents[|ents| - 1];
      CollectShape(build, init);
      var r0 := Collect(build, init).value;
      var rows := r0 + [Print.Row(last, build(last).value)];
      assert Collect(build, ents) == Ok(rows);
      forall k | 0 <= k < |ents|
        ensures rows[k].ent == ents[k] && build(ents[k]) == Ok(rows[k].data)
      {
        if k < |init| { assert ents[k] == init[k] && rows[k] == r0[k]; }
      }
    }
  }

  /** The records of a group whose shown devices have positive numbers can
      be measured. */
  lemma RowsCountable(o: Options, env: Print.Env, ents: seq<Entry>, rows: seq<Print.Row>)
    requires o.blocksize > 0 && DevicesNumbered(o, ents) && Collect(Builder(o, env), ents) == Ok(rows)
    ensures Print.CountableDevices(o, rows)
  {
    CollectShape(Builder(o, env), ents);
    forall k | 0 <= k < |rows| ensures Print.CountableDevice(o, rows[k]) {
      assert Builder(o, env)(ents[k]) == Print.PrintDataOf(o, env, ents[k]);
      Print.SizeColumnKind(o, env, ents[k]);
    }
  }

  // ---------------------------------------------------------------------
  // What the visit loop promises, whatever the listing of a directory is.

  /** A dot entry below the operands is marked and leaves everything else
      as it was. */
  lemma DotEntrySkipped(o: Options, filesLen: nat, host: Host, lister: Visit --> Result<seq<seq<char>>>,
                        s: LsState, k: nat, v: Visit)
    requires DotSkipped(o, v.ent)
    ensures Step(o, filesLen, host, lister, s, k, v) == s.(skip := s.skip + {k})
  {
  }

  /** The skip marks of a run without a fatal error are exactly the visits
      that are dot entries below the operands, every visit under `-d`, and
      every listed directory without `-R`. */
  lemma {:induction false} SkipMarks(o: Options, filesLen: nat, host: Host,
                                     lister: Visit --> Result<seq<seq<char>>>, visits: seq<Visit>)
    requires Listable(o, lister, visits)
    requires Run(o, filesLen, host, lister, visits).fatal.None?
    ensures forall k :: k in Run(o, filesLen, host, lister, visits).skip <==> 0 <= k < |visits| && Marked(o, visits[k].ent)
  {
    if visits != [] {
      var init, last := visits[..|visits| - 1], visits[|visits| - 1];
      var n := |visits| - 1;
      var s0 := Run(o, filesLen, host, lister, init);
      assert s0.fatal.None?;
      SkipMarks(o, filesLen, host, lister, init);
      var s := Run(o, filesLen, host, lister, visits);
      assert s == Step(o, filesLen, host, lister, s0, n, last);
      assert s.skip == s0.skip + {n} || (s.skip == s0.skip && !Marked(o, last.ent));
      assert s.skip == s0.skip + {n} ==> Marked(o, last.ent);
      forall k ensures k in s.skip <==> 0 <= k < |visits| && Marked(o, visits[k].ent) {
        if 0 <= k < n { assert visits[k] == init[k]; }
      }
    }
  }

  /** A blank line separates the groups, the first is preceded by nothing. */
  function Joined(blocks: seq<seq<seq<char>>>): seq<seq<char>> {
    if blocks == [] then []
    else if |blocks| == 1 then blocks[0]
    else Joined(blocks[..|blocks| - 1]) + ["\n"] + blocks[|blocks| - 1]
  }

  /** The block of a listed directory: its header line, then its listing. */
  function Block(o: Options, filesLen: nat, lister: Visit --> Result<seq<seq<char>>>, v: Visit): Result<seq<seq<char>>>
    requires lister.requires(v)
  {
    var lines :- lister(v);
    Ok(Header(o, filesLen, v.ent) + lines)
  }

  /** The blocks of the listed directories in visit order, or the first
      fatal error among them. */
  function BlocksOf(o: Options, filesLen: nat, lister: Visit --> Result<seq<seq<char>>>,
                    visits: seq<Visit>): Result<seq<seq<seq<char>>>>
    requires Listable(o, lister, visits)
  {
    if visits == [] then Ok([])
    else
      var init :- BlocksOf(o, filesLen, lister, visits[..|visits| - 1]);
      var last := visits[|visits| - 1];
      if Listed(o, last.ent) then
        var b :- Block(o, filesLen, lister, last);
        Ok(init + [b])
      else Ok(init)
  }

  /** Standard output is the blocks of the listed directories joined by
      blank lines, so only directories in preorder produce output; `first`
      holds until one is listed; the run fails exactly when a block fails,
      with its message. */
  lemma {:induction false} OutputIsBlocks(o: Options, filesLen: nat, host: Host,
                                          lister: Visit --> Result<seq<seq<char>>>, visits: seq<Visit>)
    requires Listable(o, lister, visits)
    ensures var s := Run(o, filesLen, host, lister, visits);
            var b := BlocksOf(o, filesLen, lister, visits);
            (s.fatal.None? <==> b.Ok?) &&
            (b.Fatal? ==> s.fatal == Some(b.message)) &&
            (b.Ok? ==> s.out == Joined(b.value) && s.first == (b.value == []))
  {
    if visits != [] {
      var init, last := visits[..|visits| - 1], visits[|visits| - 1];
      OutputIsBlocks(o, filesLen, host, lister, init);
      var s0 := Run(o, filesLen, host, lister, init);
      if s0.fatal.None? {
        var bs0 := BlocksOf(o, filesLen, lister, init).value;
        if Listed(o, last.ent) {
          ListedStep(o, filesLen, s0, bs0, |visits| - 1, last.ent, lister(last));
        } else {
          assert BlocksOf(o, filesLen, lister, visits) == Ok(bs0);
          assert Run(o, filesLen, host, lister, visits).out == s0.out;
          assert Run(o, filesLen, host, lister, visits).first == s0.first;
        }
      }
    }
  }

  /** Listing one more directory appends its block after a blank line. */
  lemma ListedStep(o: Options, filesLen: nat, s0: LsState, bs0: seq<seq<seq<char>>>, k: nat, ent: Entry,
                   listing: Result<seq<seq<char>>>)
    requires s0.fatal.None? && s0.out == Joined(bs0) && s0.first == (bs0 == [])
    ensures var s := AfterListing(o, filesLen, s0, k, ent, listing);
            (s.fatal.None? <==> listing.Ok?) &&
            (listing.Fatal? ==> s.fatal == Some(listing.message)) &&
            (listing.Ok? ==> s.out == Joined(bs0 + [Header(o, filesLen, ent) + listing.value]) && !s.first)
  {
    if listing.Ok? {
      var h := Header(o, filesLen, ent);
      JoinedAppend(bs0, h + listing.value);
      if bs0 != [] {
        assert s0.out + Separator(s0.first) + h + listing.value == Joined(bs0) + ["\n"] + (h + listing.value);
      }
    }
  }

  lemma JoinedAppend(bs: seq<seq<seq<char>>>, b: seq<seq<char>>)
    ensures Joined(bs + [b]) == if bs == [] then b else Joined(bs) + ["\n"] + b
  {
    var c := bs + [b];
    assert c[..|c| - 1] == bs && c[|c| - 1] == b;
  }

  /** The diagnostics of the error visits, in visit order. */
  function Diagnostics(o: Options, host: Host, visits: seq<Visit>): seq<seq<char>> {
    if visits == [] then []
    else
      var last := visits[|visits| - 1];
      Diagnostics(o, host, visits[..|visits| - 1]) +
      (if !DotSkipped(o, last.ent) && IsError(last.ent.info) then [Diagnostic(host, last.ent)] else [])
  }

  /** Standard error receives one line for each error visit that is not a
      skipped dot entry, and the loop carries on after each. */
  lemma {:induction false} ErrorsReported(o: Options, filesLen: nat, host: Host,
                                          lister: Visit --> Result<seq<seq<char>>>, visits: seq<Visit>)
    requires Listable(o, lister, visits)
    requires Run(o, filesLen, host, lister, visits).fatal.None?
    ensures Run(o, filesLen, host, lister, visits).err == Diagnostics(o, host, visits)
  {
    if visits != [] {
      ErrorsReported(o, filesLen, host, lister, visits[..|visits| - 1]);
    }
  }

  /** The run of `ls()`: a walker that cannot be opened is fatal before any
      output, and a walker that stops on an error is fatal after it. */
  lemma LsOutcome(o: Options, files: seq<seq<char>>, host: Host, walkerOpen: bool, visits: seq<Visit>, readErrno: int)
    requires |files| > 0 && o.blocksize > 0 && AllNumbered(o, visits)
    ensures var s := LsSpec(o, files, host, walkerOpen, visits, readErrno);
            var b := BlocksOf(o, |files|, Lister(o, host), visits);
            (!walkerOpen ==> s.out == [] && s.err == [] && s.fatal == Some("fts_open " + files[0])) &&
            (walkerOpen && b.Ok? ==>
               s.out == Joined(b.value) && s.err == Diagnostics(o, host, visits) && (s.fatal.None? <==> readErrno == 0))
  {
    if walkerOpen {
      OutputIsBlocks(o, |files|, host, Lister(o, host), visits);
      if BlocksOf(o, |files|, Lister(o, host), visits).Ok? {
        ErrorsReported(o, |files|, host, Lister(o, host), visits);
      }
    }
  }

  // ---------------------------------------------------------------------
  // The option fold of `main`.

  /** The letters of the getopt string `1AacdFfhiklnqRrSstuw`. */
  predicate IsOptionLetter(c: char) {
    c == '1' || c == 'A' || c == 'a' || c == 'c' || c == 'd' || c == 'F' || c == 'f' ||
    c == 'h' || c == 'i' || c == 'k' || c == 'l' || c == 'n' || c == 'q' || c == 'R' ||
    c == 'r' || c == 'S' || c == 's' || c == 't' || c == 'u' || c == 'w'
  }

  /** The options before any letter: sorted by name on modification time,
      blocks of 512 bytes, directories entered, dot files shown to root but
      `.` and `..`, and non-printable bytes hidden on a terminal. */
  function Defaults(isRoot: bool, isTty: bool): Options {
    Options(blocksize := 512, filter := if isRoot then AllExceptDot else Normal, sort := Alphabetical,
            time := LastModified, blocksKb := false, fileTypeChar := false, goIntoDirs := true,
            hideNonprintable := isTty, humanize := false, longMode := false, numericalIds := false,
            printBlocks := false, printInode := false, recurse := false, sortReverse := false)
  }

  /** One letter of the `getopt` loop; an unknown letter ends the run with
      the usage message. */
  function ApplyLetter(o: Options, c: char): (r: Result<Options>)
    ensures r.Fatal? <==> !IsOptionLetter(c)
    ensures r.Fatal? ==> r.message == "usage"
    ensures r.Ok? ==> LetterEffect(o, c, r.value)
  {
    match c
    case '1' => Ok(o.(longMode := false))
    case 'A' => Ok(o.(filter := AllExceptDot))
    case 'a' => Ok(o.(filter := All))
    case 'c' => Ok(o.(time := StatusChanged))
    case 'd' => Ok(o.(goIntoDirs := false))
    case 'F' => Ok(o.(fileTypeChar := true))
    case 'f' => Ok(o.(sort := NotSorted))
    case 'h' => Ok(o.(humanize := true))
    case 'i' => Ok(o.(printInode := true))
    case 'k' => Ok(o.(blocksKb := true))
    case 'l' => Ok(o.(longMode := true))
    case 'n' => Ok(o.(numericalIds := true, longMode := true))
    case 'q' => Ok(o.(hideNonprintable := true))
    case 'R' => Ok(o.(recurse := true))
    case 'r' => Ok(o.(sortReverse := true))
    case 'S' => Ok(o.(sort := Size))
    case 's' => Ok(o.(printBlocks := true))
    case 't' => Ok(o.(sort := Time))
    case 'u' => Ok(o.(time := LastAccessed))
    case 'w' => Ok(o.(hideNonprintable := false))
    case _ => Fatal("usage")
  }

  /** What one letter does: `-1`, `-l` and `-n` set long mode, `-q` and
      `-w` the masking, `-A` and `-a` the filter, `-f`, `-S` and `-t` the
      sort field, `-c` and `-u` the timestamp; every other letter switches
      its own flag on (`-d` switches entering directories off); nothing
      else changes, the block size least of all. */
  predicate LetterEffect(o: Options, c: char, p: Options) {
    p.longMode == (if c == '1' || c == 'l' || c == 'n' then c != '1' else o.longMode) &&
    p.hideNonprintable == (if c == 'q' || c == 'w' then c == 'q' else o.hideNonprintable) &&
    p.filter == (if c == 'a' then All else if c == 'A' then AllExceptDot else o.filter) &&
    p.sort == (if c == 'f' then NotSorted else if c == 'S' then Size else if c == 't' then Time else o.sort) &&
    p.time == (if c == 'c' then StatusChanged else if c == 'u' then LastAccessed else o.time) &&
    p.numericalIds == (o.numericalIds || c == 'n') &&
    p.fileTypeChar == (o.fileTypeChar || c == 'F') &&
    p.humanize == (o.humanize || c == 'h') &&
    p.printInode == (o.printInode || c == 'i') &&
    p.blocksKb == (o.blocksKb || c == 'k') &&
    p.recurse == (o.recurse || c == 'R') &&
    p.sortReverse == (o.sortReverse || c == 'r') &&
    p.printBlocks == (o.printBlocks || c == 's') &&
    p.goIntoDirs == (o.goIntoDirs && c != 'd') &&
    p.blocksize == o.blocksize
  }

  /** The getopt loop over the option letters, in order. */
  function FoldLetters(o: Options, letters: seq<char>): Result<Options> {
    if letters == [] then Ok(o)
    else
      var p :- FoldLetters(o, letters[..|letters| - 1]);
      ApplyLetter(p, letters[|letters| - 1])
  }

  /** The last of `letters` that belongs to `group`. */
  function LastOf(letters: seq<char>, group: seq<char>): (r: Option<char>)
    ensures r.Some? ==> r.value in group && r.value in letters
    ensures r.None? <==> forall k :: 0 <= k < |letters| ==> letters[k] !in group
  {
    if letters == [] then None
    else if letters[|letters| - 1] in group then Some(letters[|letters| - 1])
    else
      var r := LastOf(letters[..|letters| - 1], group);
      assert forall k :: 0 <= k < |letters| - 1 ==> letters[..|letters| - 1][k] == letters[k];
      r
  }

  /** The letters fold fails exactly when one of them is not an option. */
  lemma {:induction false} FoldFailsOnUnknownLetter(o: Options, letters: seq<char>)
    ensures FoldLetters(o, letters).Fatal? <==> exists k :: 0 <= k < |letters| && !IsOptionLetter(letters[k])
    ensures FoldLetters(o, letters).Fatal? ==> FoldLetters(o, letters).message == "usage"
  {
    if letters != [] {
      var init := letters[..|letters| - 1];
      FoldFailsOnUnknownLetter(o, init);
      if FoldLetters(o, init).Fatal? {
        var k :| 0 <= k < |init| && !IsOptionLetter(init[k]);
        assert letters[k] == init[k];
      } else if IsOptionLetter(letters[|letters| - 1]) {
        forall k | 0 <= k < |letters| ensures IsOptionLetter(letters[k]) {
          if k < |init| { assert letters[k] == init[k]; }
        }
      }
    }
  }

  // The exclusive letters: among the letters that set the same field the
  // last one decides it; without any, the value before the fold stays.

  /** `-1`, `-l` and `-n`: the later decides long mode. */
  lemma {:induction false} LongModeLastWins(o: Options, letters: seq<char>)
    requires FoldLetters(o, letters).Ok?
    ensures FoldLetters(o, letters).value.longMode ==
            match LastOf(letters, "1ln") case None => o.longMode case Some(c) => c != '1'
  {
    if letters != [] {
      LongModeLastWins(o, letters[..|letters| - 1]);
    }
  }

  /** `-q` and `-w`: the later decides whether non-printable bytes are masked. */
  lemma {:induction false} MaskLastWins(o: Options, letters: seq<char>)
    requires FoldLetters(o, letters).Ok?
    ensures FoldLetters(o, letters).value.hideNonprintable ==
            match LastOf(letters, "qw") case None => o.hideNonprintable case Some(c) => c == 'q'
  {
    if letters != [] {
      MaskLastWins(o, letters[..|letters| - 1]);
    }
  }

  /** `-A` and `-a`: the later decides the filter. */
  lemma {:induction false} FilterLastWins(o: Options, letters: seq<char>)
    requires FoldLetters(o, letters).Ok?
    ensures FoldLetters(o, letters).value.filter ==
            match LastOf(letters, "Aa") case None => o.filter case Some(c) => if c == 'a' then All else AllExceptDot
  {
    if letters != [] {
      FilterLastWins(o, letters[..|letters| - 1]);
    }
  }

  /** `-f`, `-S` and `-t`: the last decides the sort field. */
  lemma {:induction false} SortLastWins(o: Options, letters: seq<char>)
    requires FoldLetters(o, letters).Ok?
    ensures FoldLetters(o, letters).value.sort ==
            match LastOf(letters, "fSt") case None => o.sort case Some(c) => if c == 'f' then NotSorted else if c == 'S' then Size else Time
  {
    if letters != [] {
      SortLastWins(o, letters[..|letters| - 1]);
    }
  }

  /** `-c` and `-u`: the later decides the timestamp. */
  lemma {:induction false} TimeLastWins(o: Options, letters: seq<char>)
    requires FoldLetters(o, letters).Ok?
    ensures FoldLetters(o, letters).value.time ==
            match LastOf(letters, "cu") case None => o.time case Some(c) => if c == 'c' then StatusChanged else LastAccessed
  {
    if letters != [] {
      TimeLastWins(o, letters[..|letters| - 1]);
    }
  }

  /** The other letters only switch their flag on (or, for `-d`, off), so
      one occurrence anywhere decides it; the fold never changes the block
      size. */
  lemma {:induction false} StickyLetters(o: Options, letters: seq<char>)
    requires FoldLetters(o, letters).Ok?
    ensures var p := FoldLetters(o, letters).value;
            p.numericalIds == (o.numericalIds || 'n' in letters) &&
            p.fileTypeChar == (o.fileTypeChar || 'F' in letters) &&
            p.humanize == (o.humanize || 'h' in letters) &&
            p.printInode == (o.printInode || 'i' in letters) &&
            p.blocksKb == (o.blocksKb || 'k' in letters) &&
            p.recurse == (o.recurse || 'R' in letters) &&
            p.sortReverse == (o.sortReverse || 'r' in letters) &&
            p.printBlocks == (o.printBlocks || 's' in letters) &&
            p.goIntoDirs == (o.goIntoDirs && 'd' !in letters) &&
            p.blocksize == o.blocksize
  {
    if letters != [] {
      var init := letters[..|letters| - 1];
      StickyLetters(o, init);
      assert letters == init + [letters[|letters| - 1]];
    }
  }

  /** `-n` implies long mode, whatever letters follow it but `-1`. */
  lemma NumericImpliesLong(o: Options, letters: seq<char>)
    requires FoldLetters(o, letters).Ok?
    requires |letters| > 0 && letters[|letters| - 1] == 'n'
    ensures FoldLetters(o, letters).value.numericalIds && FoldLetters(o, letters).value.longMode
  {
  }

  /** The options and file operands `ls()` is called with. */
  datatype Invocation = Invocation(o: Options, files: seq<seq<char>>)

  /** After the fold: no operand means `.`; `getbsize` (which returns a
      positive size) applies in blocks or long mode, and `-k` overrides it
      with 1024. */
  function Finish(o: Options, operands: seq<seq<char>>, bsize: int): (r: Invocation)
    requires bsize > 0 && o.blocksize > 0
    ensures |r.files| >= 1 && r.files == (if operands == [] then ["."] else operands)
    ensures r.o == o.(blocksize := BlockSize(o, bsize))
  {
    Invocation(o.(blocksize := BlockSize(o, bsize)), if operands == [] then ["."] else operands)
  }

  /** The block size `ls()` runs with: 1024 under `-k`, else what `getbsize`
      returns when blocks are shown, else the default; always positive. */
  function BlockSize(o: Options, bsize: int): (b: int)
    requires bsize > 0 && o.blocksize > 0
    ensures b > 0
    ensures o.blocksKb ==> b == 1024
    ensures !o.blocksKb && (o.printBlocks || o.longMode) ==> b == bsize
    ensures !o.blocksKb && !o.printBlocks && !o.longMode ==> b == o.blocksize
  {
    if o.blocksKb then 1024 else if o.printBlocks || o.longMode then bsize else o.blocksize
  }

  function ParseSpec(isRoot: bool, isTty: bool, letters: seq<char>, operands: seq<seq<char>>, bsize: int): Result<Invocation>
    requires bsize > 0
  {
    var o :- FoldLetters(Defaults(isRoot, isTty), letters);
    StickyLetters(Defaults(isRoot, isTty), letters);
    Ok(Finish(o, operands, bsize))
  }

  /** `main` up to the call of `ls()`: the defaults, the getopt loop and
      the fix-ups after it. `letters` are the option letters getopt
      returns, `operands` the arguments after them, `bsize` what `getbsize`
      returns. */
  method ParseArgs(isRoot: bool, isTty: bool, letters: seq<char>, operands: seq<seq<char>>, bsize: int)
    returns (r: Result<Invocation>)
    requires bsize > 0
    ensures r == ParseSpec(isRoot, isTty, letters, operands, bsize)
  {
    var o := Defaults(isRoot, isTty);
    var k := 0;
    while k < |letters|
      invariant 0 <= k <= |letters|
      invariant FoldLetters(Defaults(isRoot, isTty), letters[..k]) == Ok(o)
    {
      assert letters[..k + 1][..k] == letters[..k];
      var next := Letter(o, letters[k]);
      if next.Fatal? {
        FoldStopsAtFatal(Defaults(isRoot, isTty), letters, k + 1);
        return Fatal("usage");
      }
      o := next.value;
      k := k + 1;
    }
    assert letters[..k] == letters;
    StickyLetters(Defaults(isRoot, isTty), letters);
    var files := if operands == [] then ["."] else operands;
    var size := o.blocksize;
    if o.printBlocks || o.longMode {
      size := bsize;
    }
    if o.blocksKb {
      size := 1024;
    }
    assert size == BlockSize(o, bsize);
    r := Ok(Invocation(o.(blocksize := size), files));
  }

  /** One pass of the `switch` in the getopt loop, updating the record. */
  method Letter(o0: Options, c: char) returns (r: Result<Options>)
    ensures r == ApplyLetter(o0, c)
  {
    var o := o0;
    match c {
    case '1' => o := o.(longMode := false);
    case 'A' => o := o.(filter := AllExceptDot);
    case 'a' => o := o.(filter := All);
    case 'c' => o := o.(time := StatusChanged);
    case 'd' => o := o.(goIntoDirs := false);
    case 'F' => o := o.(fileTypeChar := true);
    case 'f' => o := o.(sort := NotSorted);
    case 'h' => o := o.(humanize := true);
    case 'i' => o := o.(printInode := true);
    case 'k' => o := o.(blocksKb := true);
    case 'l' => o := o.(longMode := true);
    case 'n' => o := o.(numericalIds := true, longMode := true);
    case 'q' => o := o.(hideNonprintable := true);
    case 'R' => o := o.(recurse := true);
    case 'r' => o := o.(sortReverse := true);
    case 'S' => o := o.(sort := Size);
    case 's' => o := o.(printBlocks := true);
    case 't' => o := o.(sort := Time);
    case 'u' => o := o.(time := LastAccessed);
    case 'w' => o := o.(hideNonprintable := false);
    case _ => return Fatal("usage");
    }
    r := Ok(o);
  }

  lemma {:induction false} FoldStopsAtFatal(o: Options, letters: seq<char>, j: nat)
    requires j <= |letters| && FoldLetters(o, letters[..j]).Fatal?
    ensures FoldLetters(o, letters) == FoldLetters(o, letters[..j])
  {
    if j < |letters| {
      var init := letters[..|letters| - 1];
      assert init[..j] == letters[..j];
      FoldStopsAtFatal(o, init, j);
    } else {
      assert letters[..j] == letters;
    }
  }

  /** With no letters and no operands, `ls` lists `.` with the defaults. */
  lemma PlainInvocation(isRoot: bool, isTty: bool, bsize: int)
    requires bsize > 0
    ensures ParseSpec(isRoot, isTty, [], [], bsize) == Ok(Invocation(Defaults(isRoot, isTty), ["."]))
  {
  }

  /** The whole program: parse the arguments, then `ls()`. A usage error
      ends the run before the walker is opened. */
  method Command(isRoot: bool, letters: seq<char>, operands: seq<seq<char>>, bsize: int,
                 host: Host, walkerOpen: bool, visits: seq<Visit>, readErrno: int)
    returns (r: Result<LsState>)
    requires bsize > 0
    requires var p := ParseSpec(isRoot, host.isTty, letters, operands, bsize);
             p.Ok? ==> AllNumbered(p.value.o, visits)
    ensures FoldLetters(Defaults(isRoot, host.isTty), letters).Fatal? ==> r == Fatal("usage")
    ensures FoldLetters(Defaults(isRoot, host.isTty), letters).Ok? ==>
              var inv := ParseSpec(isRoot, host.isTty, letters, operands, bsize).value;
              r == Ok(LsSpec(inv.o, inv.files, host, walkerOpen, visits, readErrno))
  {
    var inv := ParseArgs(isRoot, host.isTty, letters, operands, bsize);
    FoldFailsOnUnknownLetter(Defaults(isRoot, host.isTty), letters);
    if inv.Fatal? {
      return Fatal(inv.message);
    }
    var s := Ls(inv.value.o, inv.value.files, host, walkerOpen, visits, readErrno);
    r := Ok(s);
  }
}
