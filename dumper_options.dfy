/** How the dumper's main turns the command-line options it was given into
    either an early exit code or the set of actions to run on each file. */
module DumperOptions {
  import opened CppString

  /** The enumerators of options_t, the bit positions of the options
      bitset. */
  datatype OptionBit =
    | PrintProcessHistory
    | PrintRangeSetsFull
    | PrintRangeSetsCompact
    | PrintEventList
    | PrintFileIndex
    | SaveDBtoFile
    | FullPath
    | PrintBranchIDLists

  /** std::bitset<NumOptions> (NumOptions == 8, one bit per enumerator
      above), as the set of enumerators whose bit is set. */
  type Bitset = set<OptionBit>

  /** options.test(o). */
  predicate Test(b: Bitset, o: OptionBit)
  {
    o in b
  }

  /** options[o] = v, and options.set(o) when v is true: bit o becomes v,
      every other bit keeps its value. */
  function Assign(b: Bitset, o: OptionBit, v: bool): (r: Bitset)
    ensures Test(r, o) == v
    ensures r - {o} == b - {o}
  {
    if v then b + {o} else b - {o}
  }

  /** options.none(). */
  predicate NoneSet(b: Bitset)
  {
    b == {}
  }

  /** How --range-of-validity appeared: absent, bare (boost's implicit
      value applies) or with an explicit value. */
  datatype RangeOfValidity = RovAbsent | RovImplicit | RovGiven(value: string)

  /** The value main reads back: the implicit value of the option is
      "full". */
  function RovValue(a: RangeOfValidity): string
    requires !a.RovAbsent?
  {
    match a
    case RovImplicit => "full"
    case RovGiven(value) => value
  }

  /** The parsed command line, as main queries it with vm.count(...) and
      vm[...]. `sources` holds the positional and --source file names; an
      empty sequence means vm.count("source") is 0. */
  datatype ParsedOptions = ParsedOptions(
    help: bool,
    fullPath: bool,
    eventList: bool,
    fileIndex: bool,
    processHistory: bool,
    rangeOfValidity: RangeOfValidity,
    branchIds: bool,
    dbToFile: bool,
    sources: seq<StdString>)

  /** What main makes of --range-of-validity. */
  datatype RovChoice = RovNone | RovFull | RovCompact | RovBad

  /** main compares the value with "full", then with "compact"; anything
      else is rejected. */
  function RovKind(a: RangeOfValidity): RovChoice
  {
    if a.RovAbsent? then RovNone
    else if RovValue(a) == "full" then RovFull
    else if RovValue(a) == "compact" then RovCompact
    else RovBad
  }

  /** The --range-of-validity value is one main accepts (or is absent). */
  predicate RovAccepted(vm: ParsedOptions)
  {
    RovKind(vm.rangeOfValidity) != RovBad
  }

  /** Whether the command line asks for the bit of enumerator `o`. */
  predicate Requested(vm: ParsedOptions, o: OptionBit)
  {
    match o
    case PrintProcessHistory => vm.processHistory
    case PrintRangeSetsFull => RovKind(vm.rangeOfValidity) == RovFull
    case PrintRangeSetsCompact => RovKind(vm.rangeOfValidity) == RovCompact
    case PrintEventList => vm.eventList
    case PrintFileIndex => vm.fileIndex
    case SaveDBtoFile => vm.dbToFile
    case FullPath => vm.fullPath
    case PrintBranchIDLists => vm.branchIds
  }

  /** Nothing at all was requested for the files. */
  predicate NothingRequested(vm: ParsedOptions)
  {
    forall o :: !Requested(vm, o)
  }

  /** main reaches its file loop: every early exit is passed. */
  predicate Proceeds(vm: ParsedOptions)
  {
    !vm.help && vm.sources != [] && RovAccepted(vm) && !NothingRequested(vm)
    && !(vm.eventList && vm.fileIndex)
  }

  /** The bitset main builds, as one value: the enumerators the command
      line asks for. SelectOptions is proved against it. */
  function RequestedBits(vm: ParsedOptions): Bitset
  {
    set o: OptionBit | Requested(vm, o)
  }

  /** The outcome of main's checks: an exit code, or the actions to run and
      the files to run them on. */
  datatype Selection = Exit(code: int) | Run(options: Bitset, files: seq<StdString>)

  /** main's option checks, in their order: --help first (1), then missing
      source files (3), then a bad range-of-validity value (4), then no
      option bit at all (5), then --event-list with --file-index (6). */
  method SelectOptions(vm: ParsedOptions) returns (r: Selection)
    ensures vm.help ==> r == Exit(1)
    ensures !vm.help && vm.sources == [] ==> r == Exit(3)
    ensures !vm.help && vm.sources != [] && !RovAccepted(vm) ==> r == Exit(4)
    ensures !vm.help && vm.sources != [] && RovAccepted(vm) && NothingRequested(vm)
            ==> r == Exit(5)
    ensures !vm.help && vm.sources != [] && RovAccepted(vm) && !NothingRequested(vm)
            && vm.eventList && vm.fileIndex
            ==> r == Exit(6)
    ensures r.Run? <==> Proceeds(vm)
    ensures r.Run? ==> r.files == vm.sources
    ensures r.Run? ==> r.options == RequestedBits(vm)
  {
    if vm.help {
      return Exit(1);
    }
    if |vm.sources| < 1 {
      return Exit(3);
    }
    var fileNames := vm.sources;
    var options: Bitset := {};
    options := Assign(options, PrintProcessHistory, vm.processHistory);
    if !vm.rangeOfValidity.RovAbsent? {
      var rovValue := RovValue(vm.rangeOfValidity);
      if rovValue == "full" {
        options := Assign(options, PrintRangeSetsFull, true);
      } else if rovValue == "compact" {
        options := Assign(options, PrintRangeSetsCompact, true);
      } else {
        return Exit(4);
      }
    }
    options := Assign(options, PrintEventList, vm.eventList);
    options := Assign(options, PrintFileIndex, vm.fileIndex);
    options := Assign(options, SaveDBtoFile, vm.dbToFile);
    options := Assign(options, FullPath, vm.fullPath);
    options := Assign(options, PrintBranchIDLists, vm.branchIds);
    forall o
      ensures Test(options, o) <==> Requested(vm, o)
    {
      match o
      case PrintProcessHistory =>
      case PrintRangeSetsFull =>
      case PrintRangeSetsCompact =>
      case PrintEventList =>
      case PrintFileIndex =>
      case SaveDBtoFile =>
      case FullPath =>
      case PrintBranchIDLists =>
    }
    if !NoneSet(options) {
      var o :| o in options;
      assert Requested(vm, o);
    }
    if NoneSet(options) {
      return Exit(5);
    }
    if Test(options, PrintEventList) && Test(options, PrintFileIndex) {
      return Exit(6);
    }
    return Run(options, fileNames);
  }

  /** --range-of-validity, in terms of the command line itself: a bare
      option (its implicit value) or "full" selects the full range sets,
      "compact" the compact ones, and any other value stops the run,
      whatever the other options are. */
  lemma RangeOfValidityBits(vm: ParsedOptions)
    ensures PrintRangeSetsFull in RequestedBits(vm)
            <==> vm.rangeOfValidity in {RovImplicit, RovGiven("full")}
    ensures PrintRangeSetsCompact in RequestedBits(vm)
            <==> vm.rangeOfValidity == RovGiven("compact")
    ensures vm.rangeOfValidity.RovGiven? && vm.rangeOfValidity.value != "full"
            && vm.rangeOfValidity.value != "compact"
            ==> !Proceeds(vm)
  {
    assert Requested(vm, PrintRangeSetsFull) <==> PrintRangeSetsFull in RequestedBits(vm);
    assert Requested(vm, PrintRangeSetsCompact) <==> PrintRangeSetsCompact in RequestedBits(vm);
  }

  /** A run always has something to do, never prints both the event list and
      the file index, and never prints the range sets both ways. */
  lemma RunOptionsConsistent(vm: ParsedOptions)
    requires Proceeds(vm)
    ensures !NoneSet(RequestedBits(vm))
    ensures !(Test(RequestedBits(vm), PrintEventList) && Test(RequestedBits(vm), PrintFileIndex))
    ensures !(Test(RequestedBits(vm), PrintRangeSetsFull)
              && Test(RequestedBits(vm), PrintRangeSetsCompact))
  {
    var o :| Requested(vm, o);
    assert o in RequestedBits(vm);
  }

  /** --full-path is one of the bits, so it alone passes the "no options"
      check, and the run does nothing but print the file headers. */
  lemma FullPathAloneProceeds(files: seq<StdString>)
    requires files != []
    ensures Proceeds(ParsedOptions(false, true, false, false, false, RovAbsent, false, false, files))
  {
    assert Requested(ParsedOptions(false, true, false, false, false, RovAbsent, false, false, files), FullPath);
  }
}
