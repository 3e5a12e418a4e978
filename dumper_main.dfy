/** The dumper's main after its option checks: for every input file, print
    a header naming the file, run the selected actions in a fixed order and
    add their return codes to the exit code. Printing and the ROOT and
    SQLite calls are not modelled; each action is recorded as a step, and
    its only modelled effect is its return code. */
module InfoDumper {
  import opened CppString
  import opened FileNames
  import opened DumperOptions

  /** The per-file actions: print_process_history, print_range_sets (full
      or compact), print_file_index, print_event_list, db_to_file and
      print_branchIDLists. */
  datatype Action =
    | ProcessHistory
    | RangeSets(compact: bool)
    | FileIndex
    | EventList
    | DbToFile
    | BranchIdLists

  /** What the loop does, in order: the "File: " header of a file, then one
      step per action run on it. */
  datatype Step = Header(printedName: string) | Ran(action: Action)

  /** The option bit that selects an action. */
  function Selector(a: Action): OptionBit
  {
    match a
    case ProcessHistory => PrintProcessHistory
    case RangeSets(compact) => if compact then PrintRangeSetsCompact else PrintRangeSetsFull
    case FileIndex => PrintFileIndex
    case EventList => PrintEventList
    case DbToFile => SaveDBtoFile
    case BranchIdLists => PrintBranchIDLists
  }

  /** The place of each action in the loop body: the file index comes
      before the event list, unlike the order of options_t. */
  function Rank(a: Action): nat
  {
    match a
    case ProcessHistory => 0
    case RangeSets(compact) => if compact then 2 else 1
    case FileIndex => 3
    case EventList => 4
    case DbToFile => 5
    case BranchIdLists => 6
  }

  /** The actions of the loop body, in the order it tests them. */
  const LoopOrder: seq<Action> :=
    [ProcessHistory, RangeSets(false), RangeSets(true), FileIndex, EventList, DbToFile, BranchIdLists]

  /** The actions of `acts` whose bit is set, in their order in `acts`. */
  function Selected(options: Bitset, acts: seq<Action>): seq<Action>
  {
    if acts == [] then []
    else
      var init := Selected(options, acts[..|acts| - 1]);
      if Test(options, Selector(acts[|acts| - 1])) then init + [acts[|acts| - 1]] else init
  }

  /** Selecting keeps exactly the actions whose bit is set. */
  lemma {:induction false} SelectedMembers(options: Bitset, acts: seq<Action>)
    ensures forall a :: a in Selected(options, acts) <==> a in acts && Test(options, Selector(a))
  {
    if acts != [] {
      var init := acts[..|acts| - 1];
      SelectedMembers(options, init);
      assert acts == init + [acts[|acts| - 1]];
    }
  }

  /** Selecting keeps the order: from actions of increasing rank it picks
      actions of increasing rank. */
  lemma {:induction false} SelectedOrdered(options: Bitset, acts: seq<Action>)
    requires forall i, j :: 0 <= i < j < |acts| ==> Rank(acts[i]) < Rank(acts[j])
    ensures forall i, j :: 0 <= i < j < |Selected(options, acts)|
              ==> Rank(Selected(options, acts)[i]) < Rank(Selected(options, acts)[j])
  {
    if acts != [] {
      var init := acts[..|acts| - 1];
      var last := acts[|acts| - 1];
      SelectedOrdered(options, init);
      SelectedMembers(options, init);
      var r := Selected(options, init);
      forall i | 0 <= i < |r|
        ensures Rank(r[i]) < Rank(last)
      {
        assert r[i] in init;
        var m :| 0 <= m < |init| && init[m] == r[i];
      }
    }
  }

  /** The loop body tests every action, each at its rank. */
  lemma LoopOrderComplete()
    ensures forall a: Action :: a in LoopOrder
    ensures forall i :: 0 <= i < |LoopOrder| ==> Rank(LoopOrder[i]) == i
  {
    forall a: Action
      ensures a in LoopOrder
    {
      match a
      case ProcessHistory => assert LoopOrder[0] == a;
      case RangeSets(compact) => assert LoopOrder[if compact then 2 else 1] == a;
      case FileIndex => assert LoopOrder[3] == a;
      case EventList => assert LoopOrder[4] == a;
      case DbToFile => assert LoopOrder[5] == a;
      case BranchIdLists => assert LoopOrder[6] == a;
    }
  }

  /** The actions run on every file: exactly those whose bit is set, each
      once, in loop-body order. */
  function ActionsFor(options: Bitset): (r: seq<Action>)
    ensures forall a :: a in r <==> Test(options, Selector(a))
    ensures forall i, j :: 0 <= i < j < |r| ==> Rank(r[i]) < Rank(r[j])
  {
    LoopOrderComplete();
    SelectedMembers(options, LoopOrder);
    SelectedOrdered(options, LoopOrder);
    Selected(options, LoopOrder)
  }

  /** The code an action returns: every print_* function returns 0;
      db_to_file returns the code of the SQLite backup, given here as
      `backupRc` since SQLite is not modelled. */
  function ReturnCode(a: Action, backupRc: int): int
  {
    if a == DbToFile then backupRc else 0
  }

  /** The sum of the codes of a run of actions on one file. */
  function Codes(acts: seq<Action>, backupRc: int): int
  {
    if acts == [] then 0
    else Codes(acts[..|acts| - 1], backupRc) + ReturnCode(acts[|acts| - 1], backupRc)
  }

  /** One step per action, in the same order. */
  function RanSteps(acts: seq<Action>): seq<Step>
  {
    if acts == [] then [] else RanSteps(acts[..|acts| - 1]) + [Ran(acts[|acts| - 1])]
  }

  /** The steps for one file. */
  function FileSteps(options: Bitset, fn: StdString): seq<Step>
  {
    [Header(PrintedName(fn, Test(options, FullPath)))] + RanSteps(ActionsFor(options))
  }

  /** The steps for a list of files, file after file. */
  function Trace(options: Bitset, files: seq<StdString>): seq<Step>
  {
    if files == [] then []
    else Trace(options, files[..|files| - 1]) + FileSteps(options, files[|files| - 1])
  }

  /** The exit code after a list of files, given each file's backup code. */
  function Total(options: Bitset, backupRcs: seq<int>): int
  {
    if backupRcs == [] then 0
    else Total(options, backupRcs[..|backupRcs| - 1])
         + Codes(ActionsFor(options), backupRcs[|backupRcs| - 1])
  }

  /** The sum of a sequence of codes. */
  function Sum(xs: seq<int>): int
  {
    if xs == [] then 0 else Sum(xs[..|xs| - 1]) + xs[|xs| - 1]
  }

  /** Codes and steps of one more action. */
  lemma AppendAction(done: seq<Action>, a: Action, backupRc: int)
    ensures Codes(done + [a], backupRc) == Codes(done, backupRc) + ReturnCode(a, backupRc)
    ensures RanSteps(done + [a]) == RanSteps(done) + [Ran(a)]
  {
    assert (done + [a])[..|done|] == done;
  }

  /** `[a]` when the bit of `a` is set, else nothing. */
  function Pick(options: Bitset, a: Action): seq<Action>
  {
    if Test(options, Selector(a)) then [a] else []
  }

  /** Testing one more action of the loop body extends the selection by
      that action exactly when its bit is set. */
  lemma SelectedStep(options: Bitset, k: nat)
    requires k < |LoopOrder|
    ensures Selected(options, LoopOrder[..k + 1])
            == Selected(options, LoopOrder[..k]) + Pick(options, LoopOrder[k])
  {
    assert LoopOrder[..k + 1][..k] == LoopOrder[..k];
  }

  /** db_to_file is the only action at rank 5. */
  lemma RankFive(a: Action)
    ensures a == DbToFile <==> Rank(a) == 5
  {
  }

  /** The codes of the first k actions of the loop body: only db_to_file,
      the sixth, can contribute. */
  lemma {:induction false} PrefixCodes(options: Bitset, k: nat, backupRc: int)
    requires k <= |LoopOrder|
    ensures Codes(Selected(options, LoopOrder[..k]), backupRc)
            == if k > 5 && Test(options, SaveDBtoFile) then backupRc else 0
  {
    if k > 0 {
      var a := LoopOrder[k - 1];
      var init := Selected(options, LoopOrder[..k - 1]);
      PrefixCodes(options, k - 1, backupRc);
      SelectedStep(options, k - 1);
      LoopOrderComplete();
      RankFive(a);
      if Test(options, Selector(a)) {
        AppendAction(init, a, backupRc);
        assert Codes(Selected(options, LoopOrder[..k]), backupRc)
               == Codes(init, backupRc) + ReturnCode(a, backupRc);
      } else {
        assert Selected(options, LoopOrder[..k]) == init;
        assert a == DbToFile ==> !Test(options, SaveDBtoFile);
      }
    }
  }

  /** Only db_to_file can make a file's code nonzero: the file contributes
      the backup's code when --db-to-file is set and 0 otherwise. */
  lemma FileCodeIsBackup(options: Bitset, backupRc: int)
    ensures Codes(ActionsFor(options), backupRc)
            == if Test(options, SaveDBtoFile) then backupRc else 0
  {
    PrefixCodes(options, |LoopOrder|, backupRc);
    assert LoopOrder[..|LoopOrder|] == LoopOrder;
  }

  /** The exit code of a run is the sum of the backup codes of all files
      when --db-to-file is set, and 0 otherwise. */
  lemma {:induction false} TotalIsBackupSum(options: Bitset, backupRcs: seq<int>)
    ensures Total(options, backupRcs)
            == if Test(options, SaveDBtoFile) then Sum(backupRcs) else 0
  {
    if backupRcs != [] {
      TotalIsBackupSum(options, backupRcs[..|backupRcs| - 1]);
      FileCodeIsBackup(options, backupRcs[|backupRcs| - 1]);
    }
  }

  /** The selection, written out line by line of the loop body. */
  lemma ActionsForLines(options: Bitset)
    ensures ActionsFor(options)
            == [] + Pick(options, ProcessHistory) + Pick(options, RangeSets(false))
               + Pick(options, RangeSets(true)) + Pick(options, FileIndex)
               + Pick(options, EventList) + Pick(options, DbToFile)
               + Pick(options, BranchIdLists)
  {
    assert LoopOrder[..0] == [];
    SelectedStep(options, 0);
    SelectedStep(options, 1);
    SelectedStep(options, 2);
    SelectedStep(options, 3);
    SelectedStep(options, 4);
    SelectedStep(options, 5);
    SelectedStep(options, 6);
    assert LoopOrder[..7] == LoopOrder;
  }

  /** One step per action. */
  lemma {:induction false} RanStepsLength(acts: seq<Action>)
    ensures |RanSteps(acts)| == |acts|
  {
    if acts != [] {
      RanStepsLength(acts[..|acts| - 1]);
    }
  }

  /** Every file takes the same number of steps: its header and one step
      per selected action. */
  lemma {:induction false} TraceLength(options: Bitset, files: seq<StdString>)
    ensures |Trace(options, files)| == |files| * (1 + |ActionsFor(options)|)
  {
    RanStepsLength(ActionsFor(options));
    if files != [] {
      TraceLength(options, files[..|files| - 1]);
      var m := 1 + |ActionsFor(options)|;
      assert |files| * m == (|files| - 1) * m + m;
    }
  }

  /** The files are dumped in the order given: the header of file i opens
      the i-th block of the trace and names the file as printed. */
  lemma {:induction false} TraceHeaders(options: Bitset, files: seq<StdString>, i: nat)
    requires i < |files|
    ensures i * (1 + |ActionsFor(options)|) < |Trace(options, files)|
    ensures Trace(options, files)[i * (1 + |ActionsFor(options)|)]
            == Header(PrintedName(files[i], Test(options, FullPath)))
  {
    var m := 1 + |ActionsFor(options)|;
    var init := files[..|files| - 1];
    TraceLength(options, files);
    TraceLength(options, init);
    assert |files| * m == (|files| - 1) * m + m;
    if i < |files| - 1 {
      TraceHeaders(options, init, i);
      assert init[i] == files[i];
    } else {
      assert i * m == |Trace(options, init)|;
    }
  }

  /** Concatenation of steps is associative. */
  lemma AppendAssociates(xs: seq<Step>, ys: seq<Step>, zs: seq<Step>)
    ensures (xs + ys) + zs == xs + (ys + zs)
  {
  }

  /** One line of the loop body: when the bit of `a` is set, run `a`, add
      its code to `rc` and record its step in `ran`. `done` lists the
      actions run so far on the file and `ran` holds their steps; `rc`
      holds their codes on top of `rcBase`. */
  method RunAction(options: Bitset, a: Action, backupRc: int, rc0: int, ran0: seq<Step>,
                   ghost done0: seq<Action>, ghost rcBase: int)
    returns (rc: int, ran: seq<Step>, ghost done: seq<Action>)
    requires rc0 == rcBase + Codes(done0, backupRc)
    requires ran0 == RanSteps(done0)
    ensures done == done0 + Pick(options, a)
    ensures rc == rcBase + Codes(done, backupRc)
    ensures ran == RanSteps(done)
  {
    rc, ran, done := rc0, ran0, done0;
    if Test(options, Selector(a)) {
      AppendAction(done0, a, backupRc);
      rc, ran, done := rc + ReturnCode(a, backupRc), ran + [Ran(a)], done0 + [a];
    } else {
      assert done0 + Pick(options, a) == done0;
    }
  }

  /** The body of the file loop for one file `fn`: print its header, then
      test each option bit in turn and run the selected actions, adding
      their codes to `rc`. */
  method DumpFile(options: Bitset, fn: StdString, backupRc: int, rc0: int, steps0: seq<Step>)
    returns (rc: int, steps: seq<Step>)
    ensures rc == rc0 + Codes(ActionsFor(options), backupRc)
    ensures steps == steps0 + FileSteps(options, fn)
  {
    var printedName := PrintedName(fn, Test(options, FullPath));
    steps := steps0 + [Header(printedName)];
    rc := rc0;
    var ran: seq<Step> := [];
    ghost var done: seq<Action> := [];
    rc, ran, done := RunAction(options, ProcessHistory, backupRc, rc, ran, done, rc0);
    rc, ran, done := RunAction(options, RangeSets(false), backupRc, rc, ran, done, rc0);
    rc, ran, done := RunAction(options, RangeSets(true), backupRc, rc, ran, done, rc0);
    rc, ran, done := RunAction(options, FileIndex, backupRc, rc, ran, done, rc0);
    rc, ran, done := RunAction(options, EventList, backupRc, rc, ran, done, rc0);
    rc, ran, done := RunAction(options, DbToFile, backupRc, rc, ran, done, rc0);
    rc, ran, done := RunAction(options, BranchIdLists, backupRc, rc, ran, done, rc0);
    ActionsForLines(options);
    AppendAssociates(steps0, [Header(printedName)], ran);
    steps := steps + ran;
  }

  /** main's loop over the file names: the exit code is the sum of every
      file's codes and the steps are every file's steps, in file order.
      `backupRcs[i]` is the code db_to_file would get for `files[i]`. */
  method DumpFiles(options: Bitset, files: seq<StdString>, backupRcs: seq<int>)
    returns (rc: int, steps: seq<Step>)
    requires |backupRcs| == |files|
    ensures rc == Total(options, backupRcs)
    ensures steps == Trace(options, files)
  {
    rc, steps := 0, [];
    for i := 0 to |files|
      invariant rc == Total(options, backupRcs[..i])
      invariant steps == Trace(options, files[..i])
    {
      rc, steps := DumpFile(options, files[i], backupRcs[i], rc, steps);
      assert files[..i + 1][..i] == files[..i];
      assert backupRcs[..i + 1][..i] == backupRcs[..i];
    }
    assert files[..|files|] == files;
    assert backupRcs[..|backupRcs|] == backupRcs;
  }

  /** main, without its exception handlers: the option checks, then the
      file loop. */
  method RunDumper(vm: ParsedOptions, backupRcs: seq<int>) returns (code: int, steps: seq<Step>)
    requires |backupRcs| == |vm.sources|
    ensures vm.help ==> code == 1 && steps == []
    ensures !vm.help && vm.sources == [] ==> code == 3 && steps == []
    ensures !vm.help && vm.sources != [] && !RovAccepted(vm) ==> code == 4 && steps == []
    ensures !vm.help && vm.sources != [] && RovAccepted(vm) && NothingRequested(vm)
            ==> code == 5 && steps == []
    ensures !vm.help && vm.sources != [] && RovAccepted(vm) && !NothingRequested(vm)
            && vm.eventList && vm.fileIndex
            ==> code == 6 && steps == []
    ensures Proceeds(vm) ==> code == Total(RequestedBits(vm), backupRcs)
    ensures Proceeds(vm) ==> steps == Trace(RequestedBits(vm), vm.sources)
  {
    var selection := SelectOptions(vm);
    match selection
    case Exit(c) =>
      code, steps := c, [];
    case Run(options, files) =>
      code, steps := DumpFiles(options, files, backupRcs);
  }
}
