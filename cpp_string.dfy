/** The parts of C++'s std::string and std::size_t that the dumper's name
    derivations rely on: the npos sentinel, unsigned 64-bit wrap-around,
    find, find_last_of and the clamping substr. */
module CppString {

  /** std::size_t is a 64-bit unsigned integer: arithmetic is modulo 2^64. */
  const SizeModulus: int := 0x1_0000_0000_0000_0000

  /** std::string::npos, the largest std::size_t: "not found". */
  const NPOS: int := SizeModulus - 1

  type SizeT = x: int | 0 <= x < SizeModulus

  /** A std::string is always shorter than npos (max_size() < npos), so every
      position in it is a std::size_t distinct from npos. */
  type StdString = s: string | |s| < NPOS

  /** Unsigned addition `a + b` on std::size_t: the sum modulo 2^64, which
      for two operands below 2^64 subtracts 2^64 at most once. */
  function AddSize(a: SizeT, b: SizeT): SizeT
  {
    if a + b < SizeModulus then a + b else a + b - SizeModulus
  }

  /** Unsigned subtraction `a - b` on std::size_t: the difference modulo
      2^64, which adds 2^64 when b exceeds a. */
  function SubSize(a: SizeT, b: SizeT): SizeT
  {
    if b <= a then a - b else a - b + SizeModulus
  }

  /** Both operations are C++'s unsigned arithmetic: the exact result
      reduced modulo 2^64. */
  lemma SizeArithmeticIsModular(a: SizeT, b: SizeT)
    ensures AddSize(a, b) == (a + b) % SizeModulus
    ensures SubSize(a, b) == (a - b) % SizeModulus
  {
  }

  /** `p` occurs in `s` starting at index `i`. */
  predicate OccursAt(s: string, p: string, i: int)
  {
    0 <= i && i + |p| <= |s| && s[i..i + |p|] == p
  }

  /** Reference definition of "s contains p", independent of any search. */
  ghost predicate Contains(s: string, p: string)
  {
    exists i :: OccursAt(s, p, i)
  }

  /** s.find(p, pos): the first occurrence of p at or after pos, else npos. */
  function FindFrom(s: StdString, p: string, pos: SizeT): (r: SizeT)
    ensures r != NPOS ==> pos <= r && OccursAt(s, p, r)
    ensures r != NPOS ==> forall j :: pos <= j < r ==> !OccursAt(s, p, j)
    ensures r == NPOS ==> forall j :: pos <= j ==> !OccursAt(s, p, j)
    decreases |s| - pos
  {
    if |s| < pos + |p| then NPOS
    else if s[pos..pos + |p|] == p then pos
    else FindFrom(s, p, pos + 1)
  }

  /** s.find(p): the first occurrence of p, else npos. */
  function Find(s: StdString, p: string): (r: SizeT)
  {
    FindFrom(s, p, 0)
  }

  /** Find reports npos exactly when p does not occur in s. */
  lemma FindFindsIff(s: StdString, p: string)
    ensures Find(s, p) != NPOS <==> Contains(s, p)
  {
    if Find(s, p) != NPOS {
      assert OccursAt(s, p, Find(s, p));
    }
  }

  /** s.find_last_of(c): the index of the last c in s, else npos. */
  function FindLastOf(s: StdString, c: char): (r: SizeT)
    ensures r == NPOS <==> c !in s
    ensures r != NPOS ==> r < |s| && s[r] == c
    ensures r != NPOS ==> forall j :: r < j < |s| ==> s[j] != c
  {
    if |s| == 0 then NPOS
    else if s[|s| - 1] == c then |s| - 1
    else
      assert s == s[..|s| - 1] + [s[|s| - 1]];
      FindLastOf(s[..|s| - 1], c)
  }

  /** s.substr(pos, count): at most count characters from pos, clamped to the
      end of s. The C++ call throws std::out_of_range when pos > size(); the
      requires clause makes every caller prove it never does. */
  function Substr(s: string, pos: SizeT, count: SizeT): (r: string)
    requires pos <= |s|
    ensures |r| == if count < |s| - pos then count else |s| - pos
    ensures forall i :: 0 <= i < |r| ==> r[i] == s[pos + i]
  {
    if count < |s| - pos then s[pos..pos + count] else s[pos..]
  }

  /** A substr that stays inside the string is the plain slice. */
  lemma SubstrWithin(s: string, pos: SizeT, count: SizeT)
    requires pos + count <= |s|
    ensures Substr(s, pos, count) == s[pos..pos + count]
  {
  }
}
