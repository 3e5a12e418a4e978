# file_info_dumper, modelled in Dafny

A model of `file_info_dumper`, the art command-line tool that prints
information about art/ROOT files. The model covers four parts of the tool:

- **Option checks.** `main` reads the parsed command line and either exits
  early or builds the `options_t` bitset. It exits with 1 for `--help`, 3
  when no source file is given, 4 for a bad `--range-of-validity` value, 5
  when no option bit is set, and 6 for `--event-list` together with
  `--file-index`. The checks run in that order.
- **File names.** Each file's header shows a printed name: the whole path
  under `--full-path`, otherwise the last path component. `db_to_file`
  derives the name of the external SQLite file from the input file's name.
  Both derivations use `std::string::find`, `find_last_of`, `npos` and
  `substr`, with `std::size_t` arithmetic modulo 2^64. Module `CppString`
  states these operations explicitly, so the edge cases are the C++ ones:
  a name without `/`, a name without `.root`, and a `.root` inside a
  directory name.
- **The ROOT error handler.** It drops ROOT's "no dictionary" warning from
  `TClass::TClass` and forwards every other diagnostic unchanged.
- **The file loop.** For each file, `main` prints a header, then runs the
  selected actions in a fixed order. The order is process history, range
  sets (full, then compact), file index, event list, database copy, and
  branch-ID lists. `main` adds each action's return code to `rc`. Every
  `print_*` function returns 0. `db_to_file` returns the code of the
  SQLite backup, so it is the only action that can change `rc`.

Files:

- `cpp_string.dfy` — module `CppString`.
- `root_errors.dfy` — module `RootErrors`.
- `file_names.dfy` — module `FileNames`.
- `dumper_options.dfy` — module `DumperOptions`.
- `dumper_main.dfy` — module `InfoDumper`.

Boost's option parser is replaced by its result, the record
`DumperOptions.ParsedOptions`. Printing is replaced by a trace of steps: a
header naming the file, then one step per action run. The SQLite backup's
return code for each file is an input to the model.

## Model

| member | source | states |
|---|---|---|
| CppString.SizeArithmeticIsModular | art_root_io/file_info_dumper.cc:315-316 | `a + b` and `a - b` on `std::size_t`, computed by cases, are the exact results reduced modulo 2^64, so `npos + 1` is 0 and a negative difference wraps |
| CppString.FindFrom | art_root_io/file_info_dumper.cc:315 | `find(p, pos)` returns the first index at or after `pos` where `p` occurs; it returns `npos` exactly when there is no such index |
| CppString.FindFindsIff | art_root_io/file_info_dumper.cc:52 | `find(p) != npos` holds if and only if `p` occurs somewhere in the string |
| CppString.FindLastOf | art_root_io/file_info_dumper.cc:237 | `find_last_of(c)` is `npos` exactly when `c` does not occur; otherwise it is an index holding `c` with no `c` after it |
| CppString.Substr | art_root_io/file_info_dumper.cc:317-318 | `substr(pos, n)` has `min(n, size - pos)` characters, copied from `pos` on; calling it with `pos > size` is an error the callers must rule out |
| RootErrors.RootErrorHandler | art_root_io/file_info_dumper.cc:43-57 | a diagnostic is dropped if and only if its level is kWarning, `die` is false, the location is "TClass::TClass" and the message contains "no dictionary"; any other diagnostic is forwarded unchanged |
| RootErrors.DictionaryWarningExample | art_root_io/file_info_dumper.cc:50-53 | a concrete missing-dictionary warning is dropped; the same message at a higher level is forwarded |
| FileNames.BaseNameUnique | art_root_io/file_info_dumper.cc:236-237 | a path has exactly one last component, so the printed name is determined |
| FileNames.PrintedName | art_root_io/file_info_dumper.cc:236-237 | under `--full-path` the printed name is the whole name; otherwise it is the last path component: it contains no '/' and is either the whole name or follows the last '/' |
| FileNames.PrintedNameOfPath | art_root_io/file_info_dumper.cc:236-237 | `dir/base` prints as `base`; a name without '/' prints whole, because `npos + 1` wraps to 0 |
| FileNames.DbBaseIsPrefix | art_root_io/file_info_dumper.cc:315-318 | the database base name is a prefix of the last path component |
| FileNames.DbBaseUpToRoot | art_root_io/file_info_dumper.cc:315-318 | when ".root" starts after the last '/', the base runs from just after that '/' (or from index 0) up to and including the '.' of ".root" |
| FileNames.DbFileNameInWorkingDirectory | art_root_io/file_info_dumper.cc:315-319 | the database file name is a prefix of the last path component followed by "db", so it never contains a directory |
| FileNames.DbFileNameOfRootFile | art_root_io/file_info_dumper.cc:315-319 | `dir/name.root` and `name.root` give `name.db` when the path holds no other ".root" |
| FileNames.DbFileNameWithoutRoot | art_root_io/file_info_dumper.cc:315-319 | a name without ".root" gives its last component followed by "db" when it has a '/', and just "db" when it has none |
| FileNames.DbFileNameRootBeforeSlash | art_root_io/file_info_dumper.cc:315-319 | as written, when the first ".root" lies before the last '/', the subtraction wraps and the result is the whole last component followed by "db" |
| FileNames.DbFileNameRootInDirectory | art_root_io/file_info_dumper.cc:315-319 | as written, `dir/name.root` whose directory contains ".root" gives `name.rootdb` |
| FileNames.DbFileNameCorrectedInWorkingDirectory | art_root_io/file_info_dumper.cc:315-319 | with the search starting after the last '/', the result is still a prefix of the last component followed by "db" |
| FileNames.DbFileNameCorrectedOfRootFile | art_root_io/file_info_dumper.cc:315-319 | with the correction, `dir/name.root` gives `name.db` whatever the directory is called |
| FileNames.DbFileNameCorrectedAgrees | art_root_io/file_info_dumper.cc:315-319 | the correction changes the name only when the first ".root" lies before the last '/' |
| DumperOptions.Assign | art_root_io/file_info_dumper.cc:193-213 | `options[o] = v` and `options.set(o)` give bit `o` the value `v` and leave every other bit unchanged |
| DumperOptions.RangeOfValidityBits | art_root_io/file_info_dumper.cc:194-208 | a bare `--range-of-validity` (implicit value "full", line 138) or "full" sets exactly the full-range bit, "compact" exactly the compact one, and any other value stops the run whatever the other options are |
| DumperOptions.SelectOptions | art_root_io/file_info_dumper.cc:162-226 | exit codes 1, 3, 4, 5 and 6 in their order of precedence; otherwise the run goes ahead with exactly the requested bits and the source files in the order given |
| DumperOptions.RunOptionsConsistent | art_root_io/file_info_dumper.cc:194-226 | a run that goes ahead has at least one bit set, never both event list and file index, and never both kinds of range set |
| DumperOptions.FullPathAloneProceeds | art_root_io/file_info_dumper.cc:211-220 | `--full-path` alone with a file passes every check, since FullPath is one of the bits |
| InfoDumper.SelectedMembers | art_root_io/file_info_dumper.cc:241-254 | the loop body runs an action exactly when its bit is set |
| InfoDumper.SelectedOrdered | art_root_io/file_info_dumper.cc:241-254 | the actions run in the order the loop body tests them |
| InfoDumper.ActionsFor | art_root_io/file_info_dumper.cc:241-254 | each file gets exactly the actions whose bits are set, each once, in loop-body order |
| InfoDumper.PrefixCodes | art_root_io/file_info_dumper.cc:241-254 | among the first k actions of the loop body, only the database copy (the sixth) adds a code |
| InfoDumper.FileCodeIsBackup | art_root_io/file_info_dumper.cc:271-331 | the print functions return 0, so a file adds the backup's code under `--db-to-file` and 0 otherwise |
| InfoDumper.TotalIsBackupSum | art_root_io/file_info_dumper.cc:234-257 | the exit code of a run is the sum of all files' backup codes under `--db-to-file`, and 0 otherwise |
| InfoDumper.TraceLength | art_root_io/file_info_dumper.cc:235-256 | every file gets one header and one step per selected action |
| InfoDumper.TraceHeaders | art_root_io/file_info_dumper.cc:235-239 | the files are dumped in the order given: block i of the trace opens with the printed name of file i |
| InfoDumper.ActionsForLines | art_root_io/file_info_dumper.cc:241-254 | the selected actions are the seven guarded lines of the loop body, concatenated in order |
| InfoDumper.RunAction | art_root_io/file_info_dumper.cc:241-254 | one guarded line runs its action, adds its code and records its step only when its bit is set |
| InfoDumper.DumpFile | art_root_io/file_info_dumper.cc:235-256 | one iteration prints the file's header, then adds the codes of the selected actions to `rc` |
| InfoDumper.DumpFiles | art_root_io/file_info_dumper.cc:234-257 | the loop's `rc` is the sum of every file's codes; its output is every file's steps, in file order |
| InfoDumper.RunDumper | art_root_io/file_info_dumper.cc:162-257 | `main` returns the early exit codes with no output; otherwise it returns the loop's total and produces the loop's trace |

## Left out

- `art_root_io/RootOutputFile.h` holds only declarations. No member bodies are available to model.
- Boost `program_options` parsing (`art_root_io/file_info_dumper.cc:127-160`) is not modelled. Its result is the input record `ParsedOptions`.
- `dbToFile` is not modelled because it only calls the SQLite backup API. Its return code is an input to the model, one per file.
- The printing of `InfoDumperInputFile` is not modelled: process history, range sets, file index, event list and branch-ID lists. Its bodies are not available, and its only modelled effect is the return code 0.
- The text main writes to `std::cout` and `std::cerr` is not modelled: usage, the error messages, the rule line, and the blank line after each file. A file's header is recorded as one step holding its printed name.
- `SetErrorHandler`, `tkeyvfs_init` and `DefaultErrorHandler` are foreign ROOT calls. They are not modelled, and forwarding is a value of the model.
- The `catch` handlers that return 7 and 8 are not modelled. They react to exceptions thrown by library code that is not available.
- `db_to_file` receives the input file name through `TFile::GetName`. The name-derivation lemmas take that name as their input and assume nothing about how ROOT stores it.
- InfoDumper.Total: does not model overflow of the C++ `int rc`. The exit code is an unbounded sum, and the operating system's truncation of the exit status is not modelled.
- RootErrors.RootErrorHandler: the location and message are modelled as whole strings. A C string is cut at its first NUL, and that is not modelled.
- The level kWarning is 2000, the value in ROOT's `TError.h`. `TError.h` is not part of this model.

## Findings

| source | as written | input that shows it | evidently intended | confidence | as-written member | corrected member |
|---|---|---|---|---|---|---|
| art_root_io/file_info_dumper.cc:315-319 | `find(".root")` searches the whole path. When a directory name contains ".root", `find(".root") - find_last_of('/')` wraps around, `substr` runs to the end of the name, and the extension stays in the database name | `x.root/a.root` gives `a.rootdb` | `a.db`, the base of the input file followed by "db" | medium, not executed | FileNames.DbFileNameRootInDirectory | FileNames.DbFileNameCorrectedOfRootFile |
