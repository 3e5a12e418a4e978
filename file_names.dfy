/** The two names the dumper derives from an input file name: the name it
    prints in each file's header, and the name of the external SQLite file
    that --db-to-file writes. Both are computed with std::string index
    arithmetic, so npos and the 64-bit wrap-around of std::size_t decide the
    edge cases. */
module FileNames {
  import opened CppString

  /** `r` is the last component of the path `fn`: a suffix of `fn` with no
      '/' that is either all of `fn` or preceded by a '/'. */
  predicate IsBaseName(fn: string, r: string)
  {
    '/' !in r && |r| <= |fn| && fn[|fn| - |r|..] == r
    && (|r| == |fn| || fn[|fn| - |r| - 1] == '/')
  }

  /** A path has exactly one last component. */
  lemma {:induction false} BaseNameUnique(fn: string, r1: string, r2: string)
    requires IsBaseName(fn, r1) && IsBaseName(fn, r2)
    ensures r1 == r2
  {
    assert |r1| == |r2|;
  }

  /** The name shown after "File: ": the whole name under --full-path,
      otherwise fn.substr(fn.find_last_of('/') + 1). When fn has no '/',
      npos + 1 wraps to 0 and the whole name is printed. */
  function PrintedName(fn: StdString, fullPath: bool): (r: string)
    ensures fullPath ==> r == fn
    ensures !fullPath ==> IsBaseName(fn, r)
  {
    if fullPath then fn
    else
      var slash := FindLastOf(fn, '/');
      var r := Substr(fn, AddSize(slash, 1), NPOS);
      assert slash != NPOS ==> r == fn[slash + 1..];
      r
  }

  /** In `dir + rest`, where `dir` is empty or ends in '/' and `rest` has no
      '/', the last '/' is the one that ends `dir`. */
  lemma LastSlashOfPath(dir: string, rest: string)
    requires dir == [] || dir[|dir| - 1] == '/'
    requires '/' !in rest
    requires |dir + rest| < NPOS
    ensures FindLastOf(dir + rest, '/') == if dir == [] then NPOS else |dir| - 1
  {
    var s := dir + rest;
    var r := FindLastOf(s, '/');
    if dir == [] {
      assert s == rest;
    } else {
      assert s[|dir| - 1] == '/';
    }
  }

  /** The name printed for `dir/base` is `base`; with no directory at all it
      is the whole name. */
  lemma PrintedNameOfPath(dir: string, base: string)
    requires dir == [] || dir[|dir| - 1] == '/'
    requires '/' !in base
    requires |dir + base| < NPOS
    ensures PrintedName(dir + base, false) == base
  {
    var fn := dir + base;
    assert fn[|fn| - |base|..] == base;
    assert IsBaseName(fn, base);
    BaseNameUnique(fn, PrintedName(fn, false), base);
  }

  /** The one occurrence of ".root" that starts at or after `start` in
      `pre + ".root"` is the appended one, when `pre` has none from `start`
      on: an occurrence cannot straddle the join, since ".root" holds its
      only '.' at index 0. */
  lemma RootSuffixFoundFrom(pre: string, start: SizeT)
    requires |pre + ".root"| < NPOS
    requires start <= |pre|
    requires forall j :: start <= j ==> !OccursAt(pre, ".root", j)
    ensures FindFrom(pre + ".root", ".root", start) == |pre|
  {
    var s := pre + ".root";
    assert s[|pre|..|pre| + 5] == ".root";
    assert OccursAt(s, ".root", |pre|);
    forall j | start <= j < |pre|
      ensures !OccursAt(s, ".root", j)
    {
      if j + 5 <= |pre| {
        assert !OccursAt(pre, ".root", j);
        assert s[j..j + 5] == pre[j..j + 5];
      } else {
        var k := |pre| - j;
        assert 1 <= k < 5;
        assert s[j..j + 5][k] == s[|pre|] == '.';
        assert ".root"[k] != '.';
      }
    }
  }

  /** The base of the external database name, as the dumper computes it:
      from just after the last '/', find(".root") - find_last_of('/')
      characters, in unsigned arithmetic, clamped to the end of the name. */
  function DbBase(rootFileName: StdString, rootPos: SizeT): string
  {
    var slash := FindLastOf(rootFileName, '/');
    Substr(rootFileName, AddSize(slash, 1), SubSize(rootPos, slash))
  }

  /** Whatever ".root" position it is given, the base is a prefix of the
      last path component. */
  lemma DbBaseIsPrefix(rootFileName: StdString, rootPos: SizeT)
    ensures |DbBase(rootFileName, rootPos)| <= |PrintedName(rootFileName, false)|
    ensures DbBase(rootFileName, rootPos)
            == PrintedName(rootFileName, false)[..|DbBase(rootFileName, rootPos)|]
  {
    var slash := FindLastOf(rootFileName, '/');
    var start := AddSize(slash, 1);
    var r := DbBase(rootFileName, rootPos);
    assert r == rootFileName[start..start + |r|];
    assert PrintedName(rootFileName, false) == rootFileName[start..];
  }

  /** When ".root" starts at `rootPos`, after the last '/', the base runs
      from just after that '/' (or from the start of a name without one)
      up to and including the '.' of ".root". */
  lemma DbBaseUpToRoot(s: StdString, rootPos: SizeT)
    requires rootPos < |s|
    requires FindLastOf(s, '/') == NPOS || FindLastOf(s, '/') < rootPos
    ensures FindLastOf(s, '/') == NPOS ==> DbBase(s, rootPos) == s[..rootPos + 1]
    ensures FindLastOf(s, '/') != NPOS
            ==> DbBase(s, rootPos) == s[FindLastOf(s, '/') + 1..rootPos + 1]
  {
    var slash := FindLastOf(s, '/');
    var start := AddSize(slash, 1);
    var count := SubSize(rootPos, slash);
    assert start == if slash == NPOS then 0 else slash + 1;
    assert count == rootPos + 1 - start;
    SubstrWithin(s, start, count);
  }

  /** The external database name written by db_to_file, as the code is
      written: the base runs up to and including the '.' before the FIRST
      ".root" of the whole name, then "db" follows. */
  function DbFileName(rootFileName: StdString): string
  {
    DbBase(rootFileName, Find(rootFileName, ".root")) + "db"
  }

  /** The database name is always a prefix of the file's last path
      component followed by "db", so the file lands in the working
      directory. */
  lemma DbFileNameInWorkingDirectory(rootFileName: StdString)
    ensures var r := DbFileName(rootFileName);
            2 <= |r| <= |PrintedName(rootFileName, false)| + 2
            && r[|r| - 2..] == "db"
            && r[..|r| - 2] == PrintedName(rootFileName, false)[..|r| - 2]
  {
    var base := DbBase(rootFileName, Find(rootFileName, ".root"));
    DbBaseIsPrefix(rootFileName, Find(rootFileName, ".root"));
    assert (base + "db")[..|base|] == base;
  }

  /** The characters of `dir + name + ".root"` from the end of `dir` up to
      and including the '.' of ".root". */
  lemma NameAndDot(dir: string, name: string)
    ensures (dir + name + ".root")[|dir|..|dir + name| + 1] == name + "."
    ensures name + "." + "db" == name + ".db"
  {
    var s := dir + name + ".root";
    assert forall i :: 0 <= i < |name| ==> s[|dir| + i] == name[i];
    assert s[|dir + name|] == '.';
  }

  /** An occurrence in `x` is an occurrence in `x + y`, at the same index. */
  lemma OccursInPrefix(x: string, y: string, p: string, j: int)
    requires OccursAt(x, p, j)
    ensures OccursAt(x + y, p, j)
  {
    assert (x + y)[j..j + |p|] == x[j..j + |p|];
  }

  /** An occurrence in `dir + name` that starts inside `name` is an
      occurrence in `name`. */
  lemma OccursInSuffix(dir: string, name: string, p: string, j: int)
    requires |dir| <= j
    ensures OccursAt(dir + name, p, j) ==> OccursAt(name, p, j - |dir|)
  {
    if OccursAt(dir + name, p, j) {
      assert (dir + name)[j..j + |p|] == name[j - |dir|..j - |dir| + |p|];
    }
  }

  /** For `dir/name.root` (or `name.root` alone) whose directory holds no
      ".root", the database file is `name.db`. */
  lemma DbFileNameOfRootFile(dir: string, name: string)
    requires dir == [] || dir[|dir| - 1] == '/'
    requires '/' !in name
    requires !Contains(dir + name, ".root")
    requires |dir + name + ".root"| < NPOS
    ensures DbFileName(dir + name + ".root") == name + ".db"
  {
    var pre := dir + name;
    var s := pre + ".root";
    assert s == dir + (name + ".root");
    assert '/' !in name + ".root";
    LastSlashOfPath(dir, name + ".root");
    RootSuffixFoundFrom(pre, 0);
    assert Find(s, ".root") == |pre|;
    DbBaseUpToRoot(s, |pre|);
    NameAndDot(dir, name);
    assert DbBase(s, |pre|) == name + ".";
  }

  /** A name without ".root" gets its last path component followed by "db"
      ("dir/file" gives "filedb"); with no '/' either, both positions are
      npos, the length wraps to 0 and the name is just "db". This is what
      the code does, reproduced on purpose; the tool expects ROOT files,
      and these names are not claimed as a defect. */
  lemma DbFileNameWithoutRoot(rootFileName: StdString)
    requires !Contains(rootFileName, ".root")
    ensures DbFileName(rootFileName)
            == (if '/' in rootFileName then PrintedName(rootFileName, false) else "") + "db"
  {
    FindFindsIff(rootFileName, ".root");
    var slash := FindLastOf(rootFileName, '/');
    if slash != NPOS {
      assert PrintedName(rootFileName, false) == rootFileName[slash + 1..];
    }
  }

  // ---------------------------------------------------------------------
  // Finding: a directory whose name contains ".root".

  /** As written, find(".root") searches the whole path. When its first
      ".root" lies before the last '/', find(".root") - find_last_of('/')
      wraps to nearly 2^64, substr clamps at the end of the name, and the
      whole last component, extension included, is followed by "db". */
  lemma DbFileNameRootBeforeSlash(s: StdString)
    requires FindLastOf(s, '/') != NPOS
    requires Find(s, ".root") < FindLastOf(s, '/')
    ensures DbFileName(s) == PrintedName(s, false) + "db"
  {
    var slash := FindLastOf(s, '/');
    assert SubSize(Find(s, ".root"), slash) >= |s| - slash - 1;
    assert PrintedName(s, false) == s[slash + 1..];
  }

  /** In `dir + name + ".root"` where `dir` contains ".root", the first
      ".root" lies before the last '/', which ends `dir`. */
  lemma RootInDirectoryBeforeSlash(dir: string, name: string)
    requires |dir| > 0 && dir[|dir| - 1] == '/'
    requires Contains(dir, ".root")
    requires '/' !in name
    requires |dir + name + ".root"| < NPOS
    ensures FindLastOf(dir + name + ".root", '/') == |dir| - 1
    ensures Find(dir + name + ".root", ".root") < |dir| - 1
  {
    var s := dir + name + ".root";
    var j :| OccursAt(dir, ".root", j);
    assert j + 5 < |dir| by {
      assert dir[j..j + 5] == ".root";
      assert dir[j + 4] == dir[j..j + 5][4] == 't';
    }
    assert s == dir + (name + ".root");
    OccursInPrefix(dir, name + ".root", ".root", j);
    assert '/' !in name + ".root";
    LastSlashOfPath(dir, name + ".root");
  }

  /** So `dir/name.root` whose directory contains ".root" (for instance
      "x.root/a.root") gets `name.rootdb`, not `name.db`. */
  lemma DbFileNameRootInDirectory(dir: string, name: string)
    requires |dir| > 0 && dir[|dir| - 1] == '/'
    requires Contains(dir, ".root")
    requires '/' !in name
    requires |dir + name + ".root"| < NPOS
    ensures DbFileName(dir + name + ".root") == name + ".rootdb"
  {
    var s := dir + name + ".root";
    RootInDirectoryBeforeSlash(dir, name);
    assert s == dir + (name + ".root");
    assert '/' !in name + ".root";
    PrintedNameOfPath(dir, name + ".root");
    DbFileNameRootBeforeSlash(s);
    assert (name + ".root") + "db" == name + ".rootdb";
  }

  /** The derivation with the search limited to the last path component,
      find(".root", find_last_of('/') + 1). Like the original it still cuts
      at the first ".root" of that component. */
  function DbFileNameCorrected(rootFileName: StdString): string
  {
    var slash := FindLastOf(rootFileName, '/');
    DbBase(rootFileName, FindFrom(rootFileName, ".root", AddSize(slash, 1))) + "db"
  }

  /** The correction keeps the name in the working directory. */
  lemma DbFileNameCorrectedInWorkingDirectory(rootFileName: StdString)
    ensures var r := DbFileNameCorrected(rootFileName);
            2 <= |r| <= |PrintedName(rootFileName, false)| + 2
            && r[|r| - 2..] == "db"
            && r[..|r| - 2] == PrintedName(rootFileName, false)[..|r| - 2]
  {
    var slash := FindLastOf(rootFileName, '/');
    var rootPos := FindFrom(rootFileName, ".root", AddSize(slash, 1));
    var base := DbBase(rootFileName, rootPos);
    DbBaseIsPrefix(rootFileName, rootPos);
    assert (base + "db")[..|base|] == base;
  }

  /** In `dir + name + ".root"` the search that starts just after the last
      '/' finds the final ".root" when `name` holds none. */
  lemma RootOfLastComponent(dir: string, name: string)
    requires dir == [] || dir[|dir| - 1] == '/'
    requires '/' !in name
    requires !Contains(name, ".root")
    requires |dir + name + ".root"| < NPOS
    ensures FindLastOf(dir + name + ".root", '/') == if dir == [] then NPOS else |dir| - 1
    ensures FindFrom(dir + name + ".root", ".root", |dir|) == |dir + name|
  {
    var pre := dir + name;
    assert pre + ".root" == dir + (name + ".root");
    assert '/' !in name + ".root";
    LastSlashOfPath(dir, name + ".root");
    forall j | |dir| <= j
      ensures !OccursAt(pre, ".root", j)
    {
      OccursInSuffix(dir, name, ".root", j);
    }
    RootSuffixFoundFrom(pre, |dir|);
  }

  /** With the correction, `dir/name.root` gives `name.db` whatever the
      directory is called. */
  lemma DbFileNameCorrectedOfRootFile(dir: string, name: string)
    requires dir == [] || dir[|dir| - 1] == '/'
    requires '/' !in name
    requires !Contains(name, ".root")
    requires |dir + name + ".root"| < NPOS
    ensures DbFileNameCorrected(dir + name + ".root") == name + ".db"
  {
    var s := dir + name + ".root";
    RootOfLastComponent(dir, name);
    assert AddSize(FindLastOf(s, '/'), 1) == |dir|;
    DbBaseUpToRoot(s, |dir + name|);
    NameAndDot(dir, name);
  }

  /** The correction changes nothing unless the first ".root" of the name
      lies before its last '/'. */
  lemma DbFileNameCorrectedAgrees(rootFileName: StdString)
    requires Find(rootFileName, ".root") == NPOS
             || FindLastOf(rootFileName, '/') == NPOS
             || FindLastOf(rootFileName, '/') < Find(rootFileName, ".root")
    ensures DbFileNameCorrected(rootFileName) == DbFileName(rootFileName)
  {
    var slash := FindLastOf(rootFileName, '/');
    var first := Find(rootFileName, ".root");
    var from := FindFrom(rootFileName, ".root", AddSize(slash, 1));
    if first != NPOS {
      assert OccursAt(rootFileName, ".root", first);
    }
    assert from == first;
  }
}
