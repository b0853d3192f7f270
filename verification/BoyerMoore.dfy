/** The Boyer-Moore text search of recovery/recovery_updater.cpp: the two skip tables, the search loop
    over them, and the exact set of patterns for which no skip ever jumps over an occurrence. */
module BoyerMoore {
  const ALPHABET_LEN := 256
  const INT_MAX := 0x7fff_ffff

  type byte = x: int | 0 <= x < ALPHABET_LEN

  /** The C type `int`: every value stored in a variable of this type is proved to be in range. */
  type int32 = x: int | -INT_MAX - 1 <= x <= INT_MAX

  // ---------- What the search is for ----------

  predicate OccursAt(str: seq<byte>, pat: seq<byte>, a: int) {
    0 <= a <= |str| - |pat| && forall k :: 0 <= k < |pat| ==> str[a + k] == pat[k]
  }

  /** Least index at or after `a` at which `pat` occurs, or -1. */
  function FirstFrom(str: seq<byte>, pat: seq<byte>, a: nat): (r: int)
    ensures r == -1 <==> forall b :: a <= b ==> !OccursAt(str, pat, b)
    ensures r != -1 ==> a <= r && OccursAt(str, pat, r) && forall b :: a <= b < r ==> !OccursAt(str, pat, b)
    decreases |str| - a
  {
    if |str| < a + |pat| then -1
    else if OccursAt(str, pat, a) then a
    else if a == |str| then -1
    else FirstFrom(str, pat, a + 1)
  }

  // ---------- Vocabulary of the tables ----------

  /** The suffix pat[p..] is also a prefix: moving the pattern by `p` lays it over itself. */
  predicate Border(pat: seq<byte>, p: int) {
    1 <= p < |pat| && forall k :: p <= k < |pat| ==> pat[k - p] == pat[k]
  }

  /** What C's strncmp(pat + p, pat, |pat| - p) == 0 decides from offset `k` on: it stops at a zero byte. */
  predicate StrncmpEqual(pat: seq<byte>, p: nat, k: nat)
    decreases |pat| - k
  {
    p + k >= |pat| || (pat[p + k] == pat[k] && (pat[k] == 0 || StrncmpEqual(pat, p, k + 1)))
  }

  /** Moving by `s` keeps the matched suffix pat[j+1..] aligned with an equal part of the pattern that is
      preceded by a different character: the strong good-suffix condition. */
  predicate Strong(pat: seq<byte>, j: int, s: int) {
    && 1 <= s <= j < |pat|
    && pat[j - s] != pat[j]
    && forall k :: j < k < |pat| ==> pat[k - s] == pat[k]
  }

  /** Is none of the characters from `k` up to `i` zero? */
  predicate NoZeroIn(pat: seq<byte>, k: nat, i: nat) {
    forall j :: k <= j < i && j < |pat| ==> pat[j] != 0
  }

  /** Said without recursion: `pat` agrees with pat[p..] up to and including its first zero byte, or to the end. */
  lemma {:induction false} StrncmpStopsAtZero(pat: seq<byte>, p: nat, k: nat)
    ensures StrncmpEqual(pat, p, k) <==>
      forall i {:trigger NoZeroIn(pat, k, i)} :: k <= i < |pat| - p && NoZeroIn(pat, k, i) ==> pat[p + i] == pat[i]
    decreases |pat| - k
  {
    if p + k < |pat| {
      assert NoZeroIn(pat, k, k);
      if pat[p + k] == pat[k] && pat[k] != 0 {
        StrncmpStopsAtZero(pat, p, k + 1);
        assert forall i: nat {:trigger NoZeroIn(pat, k, i)} {:trigger NoZeroIn(pat, k + 1, i)} ::
          k < i ==> (NoZeroIn(pat, k, i) <==> NoZeroIn(pat, k + 1, i));
      } else if pat[p + k] == pat[k] {
        forall i | k < i < |pat| - p ensures !NoZeroIn(pat, k, i) {
          assert pat[k] == 0;
        }
      }
    }
  }

  predicate ZeroFree(pat: seq<byte>) {
    forall k :: 0 <= k < |pat| ==> pat[k] != 0
  }

  predicate Unbordered(pat: seq<byte>) {
    forall p :: 1 <= p < |pat| ==> !Border(pat, p)
  }

  // ---------- The tables as functions ----------

  /** Distance from the end of `pat` to the last `c` among its first `n` characters. */
  function BadCharacter(pat: seq<byte>, c: byte, n: nat): (d: int)
    requires n < |pat|
    ensures |pat| - n <= d <= |pat|
  {
    if n == 0 then |pat|
    else if pat[n - 1] == c then |pat| - n
    else BadCharacter(pat, c, n - 1)
  }

  /** Value of `last_prefix` when the first filling loop has visited `p`. */
  function LastPrefix(pat: seq<byte>, p: nat): (s: nat)
    requires p <= |pat| && pat != []
    ensures s <= |pat|
    decreases |pat| - p
  {
    if p == |pat| then |pat| - 1
    else if StrncmpEqual(pat, p, 0) then p + 1
    else LastPrefix(pat, p + 1)
  }

  /** Least strong shift in lo..j, or 0 when there is none. */
  function LeastStrong(pat: seq<byte>, j: nat, lo: nat): (s: nat)
    requires j < |pat| && 1 <= lo
    ensures s != 0 ==> lo <= s <= j
    decreases j + 1 - lo
  {
    if lo > j then 0
    else if Strong(pat, j, lo) then lo
    else LeastStrong(pat, j, lo + 1)
  }

  /** How far the second table moves the pattern after a mismatch at `j`, with strong shifts from `lo` on. */
  function GoodSuffixFrom(pat: seq<byte>, j: nat, lo: nat): nat
    requires j < |pat| && 1 <= lo
  {
    var s := LeastStrong(pat, j, lo);
    if s != 0 then s else LastPrefix(pat, j)
  }

  function GoodSuffix(pat: seq<byte>, j: nat): nat
    requires j < |pat|
  {
    GoodSuffixFrom(pat, j, 1)
  }

  /** The character found is the last of its kind before `n`. */
  lemma {:induction false} BadCharacterIsLast(pat: seq<byte>, c: byte, n: nat)
    requires n < |pat|
    ensures BadCharacter(pat, c, n) < |pat| ==> pat[|pat| - 1 - BadCharacter(pat, c, n)] == c
    ensures forall i :: |pat| - 1 - BadCharacter(pat, c, n) < i < n ==> pat[i] != c
  {
    if n != 0 && pat[n - 1] != c {
      BadCharacterIsLast(pat, c, n - 1);
    }
  }

  lemma {:induction false} LeastStrongIsLeast(pat: seq<byte>, j: nat, lo: nat)
    requires j < |pat| && 1 <= lo
    ensures LeastStrong(pat, j, lo) == 0 <==> forall t :: lo <= t <= j ==> !Strong(pat, j, t)
    ensures LeastStrong(pat, j, lo) != 0 ==> Strong(pat, j, LeastStrong(pat, j, lo))
    ensures LeastStrong(pat, j, lo) != 0 ==> forall t :: lo <= t < LeastStrong(pat, j, lo) ==> !Strong(pat, j, t)
    decreases j + 1 - lo
  {
    if lo <= j && !Strong(pat, j, lo) {
      LeastStrongIsLeast(pat, j, lo + 1);
    }
  }

  // ---------- Filling the tables ----------

  /** max_suffix_len: how far the text ending at str[p] agrees with the end of `str`, but at most `p`. */
  method MaxSuffixLen(str: seq<byte>, p: nat) returns (i: nat)
    requires p < |str|
    ensures i <= p
    ensures forall k :: |str| - i <= k < |str| ==> str[k - (|str| - 1 - p)] == str[k]
    ensures i == p || str[p - i] != str[|str| - 1 - i]
  {
    i := 0;
    while str[p - i] == str[|str| - 1 - i] && i < p
      invariant i <= p
      invariant forall k :: |str| - i <= k < |str| ==> str[k - (|str| - 1 - p)] == str[k]
    {
      i := i + 1;
    }
  }

  ghost predicate BadCharacterTable(delta1: array<int32>, pat: seq<byte>)
    reads delta1
  {
    && pat != [] && delta1.Length == ALPHABET_LEN
    && forall c: byte {:trigger delta1[c]} :: delta1[c] == BadCharacter(pat, c, |pat| - 1)
  }

  method BmMakeDelta1(delta1: array<int32>, pat: seq<byte>)
    requires delta1.Length == ALPHABET_LEN && 1 <= |pat| <= INT_MAX
    modifies delta1
    ensures BadCharacterTable(delta1, pat)
  {
    var i := 0;
    while i < ALPHABET_LEN
      invariant 0 <= i <= ALPHABET_LEN
      invariant forall c: byte {:trigger delta1[c]} :: c < i ==> delta1[c] == |pat|
    {
      delta1[i] := |pat|;
      i := i + 1;
    }
    i := 0;
    while i < |pat| - 1
      invariant 0 <= i <= |pat| - 1
      invariant forall c: byte {:trigger delta1[c]} :: delta1[c] == BadCharacter(pat, c, i)
    {
      delta1[pat[i]] := |pat| - 1 - i;
      i := i + 1;
    }
  }

  /** One turn of the second filling loop: position `p` stands for shift m-1-p, and that shift is strong
      for exactly the index the loop body writes, or for none. */
  lemma StrongAtSuffixEnd(pat: seq<byte>, p: nat, suf: nat, j: nat)
    requires p < |pat| - 1 && suf <= p && j < |pat|
    requires forall k :: |pat| - suf <= k < |pat| ==> pat[k - (|pat| - 1 - p)] == pat[k]
    requires suf == p || pat[p - suf] != pat[|pat| - 1 - suf]
    ensures Strong(pat, j, |pat| - 1 - p)
       <==> j == |pat| - 1 - suf && pat[p - suf] != pat[|pat| - 1 - suf]
  {
    var s, first := |pat| - 1 - p, |pat| - 1 - suf;
    assert p - suf == first - s;
    assert first < j < |pat| ==> pat[j - s] == pat[j];
  }

  /** An entry of the second table when only strong shifts from `lo` on have been considered. */
  ghost function Entry(pat: seq<byte>, j: nat, lo: nat): int
    requires j < |pat| && 1 <= lo
  {
    GoodSuffixFrom(pat, j, lo) + (|pat| - 1 - j)
  }

  ghost predicate GoodSuffixTable(delta2: array<int32>, pat: seq<byte>, lo: nat)
    reads delta2
  {
    && 1 <= lo && delta2.Length == |pat|
    && forall j: nat {:trigger delta2[j]} :: j < |pat| ==> delta2[j] == Entry(pat, j, lo)
  }

  /** What one turn of the second loop does: one entry takes the new shift, which is the least so far. */
  lemma EntryStep(pat: seq<byte>, lo: nat, suf: nat, j: nat)
    requires 1 <= lo < |pat| && suf <= |pat| - 1 - lo && j < |pat|
    requires forall k :: |pat| - suf <= k < |pat| ==> pat[k - lo] == pat[k]
    requires suf == |pat| - 1 - lo || pat[|pat| - 1 - suf - lo] != pat[|pat| - 1 - suf]
    ensures j == |pat| - 1 - suf && pat[j - lo] != pat[j] ==> Entry(pat, j, lo) == lo + suf
    ensures !(j == |pat| - 1 - suf && pat[j - lo] != pat[j]) ==> Entry(pat, j, lo) == Entry(pat, j, lo + 1)
  {
    StrongAtSuffixEnd(pat, |pat| - 1 - lo, suf, j);
  }

  /** The first loop of bm_make_delta2. */
  method FillPrefixShifts(delta2: array<int32>, pat: seq<byte>)
    requires delta2.Length == |pat| && 1 <= |pat| && 2 * |pat| - 1 <= INT_MAX
    modifies delta2
    ensures GoodSuffixTable(delta2, pat, |pat|)
  {
    var lastPrefix: int32 := |pat| - 1;
    var p := |pat| - 1;
    while p >= 0
      invariant -1 <= p < |pat|
      invariant lastPrefix == LastPrefix(pat, p + 1)
      invariant forall j: nat {:trigger delta2[j]} ::
        p < j < |pat| ==> delta2[j] == LastPrefix(pat, j) + (|pat| - 1 - j)
    {
      if StrncmpEqual(pat, p, 0) {
        lastPrefix := p + 1;
      }
      delta2[p] := lastPrefix + (|pat| - 1 - p);
      p := p - 1;
    }
  }

  /** The second loop of bm_make_delta2. */
  method FillSuffixShifts(delta2: array<int32>, pat: seq<byte>)
    requires 1 <= |pat| && 2 * |pat| - 1 <= INT_MAX && GoodSuffixTable(delta2, pat, |pat|)
    modifies delta2
    ensures GoodSuffixTable(delta2, pat, 1)
  {
    hide Entry;
    var p := 0;
    while p < |pat| - 1
      invariant 0 <= p <= |pat| - 1
      invariant GoodSuffixTable(delta2, pat, |pat| - p)
    {
      var sufLen := MaxSuffixLen(pat, p);
      label before:
      if pat[p - sufLen] != pat[|pat| - 1 - sufLen] {
        delta2[|pat| - 1 - sufLen] := |pat| - 1 - p + sufLen;
      }
      forall j: nat | j < |pat| ensures delta2[j] == Entry(pat, j, |pat| - 1 - p) {
        assert old@before(delta2[j]) == Entry(pat, j, |pat| - p);
        EntryStep(pat, |pat| - 1 - p, sufLen, j);
      }
      p := p + 1;
    }
  }

  method BmMakeDelta2(delta2: array<int32>, pat: seq<byte>)
    requires delta2.Length == |pat| && 1 <= |pat| && 2 * |pat| - 1 <= INT_MAX
    modifies delta2
    ensures GoodSuffixTable(delta2, pat, 1)
  {
    FillPrefixShifts(delta2, pat);
    FillSuffixShifts(delta2, pat);
  }

  // ---------- The search ----------

  /** Index of the last character, at or below `j`, where the pattern laid at `a` disagrees; -1 if none. */
  function Mismatch(str: seq<byte>, pat: seq<byte>, a: nat, j: int): (r: int)
    requires -1 <= j < |pat| && a + |pat| <= |str|
    ensures -1 <= r <= j
    decreases j + 1
  {
    if j < 0 then -1
    else if str[a + j] == pat[j] then Mismatch(str, pat, a, j - 1)
    else j
  }

  lemma {:induction false} MismatchIsLast(str: seq<byte>, pat: seq<byte>, a: nat, j: int)
    requires -1 <= j < |pat| && a + |pat| <= |str|
    ensures var r := Mismatch(str, pat, a, j); r >= 0 ==> str[a + r] != pat[r]
    ensures forall k :: Mismatch(str, pat, a, j) < k <= j ==> str[a + k] == pat[k]
    decreases j + 1
  {
    if j >= 0 && str[a + j] == pat[j] {
      MismatchIsLast(str, pat, a, j - 1);
    }
  }

  /** Where the loop of bm_search, having the pattern at alignment `a`, ends: an index into `str`, or -1. */
  function SearchFrom(str: seq<byte>, pat: seq<byte>, a: nat): (r: int)
    requires pat != []
    decreases |str| - a
  {
    if |str| < a + |pat| then -1
    else
      var j := Mismatch(str, pat, a, |pat| - 1);
      if j < 0 then a else SearchFrom(str, pat, a + Skip(pat, str[a + j], j))
  }

  /** How far one turn of the search moves the pattern when it fails on text character `c` at `j`. */
  function Skip(pat: seq<byte>, c: byte, j: nat): (s: nat)
    requires j < |pat|
    ensures 1 <= s <= |pat|
  {
    LastPrefixPositive(pat, j);
    var d1 := BadCharacter(pat, c, |pat| - 1) - (|pat| - 1 - j);
    if d1 > GoodSuffix(pat, j) then d1 else GoodSuffix(pat, j)
  }

  lemma {:induction false} LastPrefixPositive(pat: seq<byte>, p: nat)
    requires p < |pat|
    ensures 1 <= LastPrefix(pat, p)
    ensures LastPrefix(pat, 0) == 1
    decreases |pat| - p
  {
    StrncmpSelf(pat, 0);
    if p + 1 < |pat| {
      LastPrefixPositive(pat, p + 1);
    }
  }

  lemma {:induction false} StrncmpSelf(pat: seq<byte>, k: nat)
    ensures StrncmpEqual(pat, 0, k)
    decreases |pat| - k
  {
    if k < |pat| {
      StrncmpSelf(pat, k + 1);
    }
  }

  /** Any pattern at all: what the search reports is a real occurrence. */
  lemma {:induction false} SearchIsSound(str: seq<byte>, pat: seq<byte>, a: nat)
    requires pat != []
    ensures var r := SearchFrom(str, pat, a); r == -1 || (a <= r && OccursAt(str, pat, r))
    decreases |str| - a
  {
    if a + |pat| <= |str| {
      var j := Mismatch(str, pat, a, |pat| - 1);
      MismatchIsLast(str, pat, a, |pat| - 1);
      if j >= 0 {
        SearchIsSound(str, pat, a + Skip(pat, str[a + j], j));
      }
    }
  }

  /** One turn of the outer loop of bm_search, in terms of where the inner loop stopped. */
  lemma SearchStep(str: seq<byte>, pat: seq<byte>, a: nat)
    requires pat != []
    ensures |str| < a + |pat| ==> SearchFrom(str, pat, a) == -1
    ensures a + |pat| <= |str| ==>
      var j := Mismatch(str, pat, a, |pat| - 1);
      SearchFrom(str, pat, a) == if j < 0 then a else SearchFrom(str, pat, a + Skip(pat, str[a + j], j))
  {
  }

  /** The inner loop of bm_search: compare from the end of the pattern, which lies at `end` in the text. */
  method CompareBackwards(str: seq<byte>, pat: seq<byte>, end: int32) returns (i: int32, j: int32)
    requires 1 <= |pat| <= INT_MAX && |pat| - 1 <= end < |str|
    ensures j == Mismatch(str, pat, end - (|pat| - 1), |pat| - 1)
    ensures i == end - (|pat| - 1) + j
  {
    i, j := end, |pat| - 1;
    while j >= 0 && str[i] == pat[j]
      invariant -1 <= j < |pat| && i == end - (|pat| - 1) + j
      invariant Mismatch(str, pat, end - (|pat| - 1), |pat| - 1) == Mismatch(str, pat, end - (|pat| - 1), j)
    {
      i := i - 1;
      j := j - 1;
    }
  }

  /** bm_search. The bounds on the lengths are what keep the table entries and `i` within a C int. */
  method BmSearch(str: seq<byte>, pat: seq<byte>) returns (r: int)
    requires 1 <= |pat| && |str| + |pat| - 1 <= INT_MAX && 2 * |pat| - 1 <= INT_MAX
    ensures r == SearchFrom(str, pat, 0)
    ensures r == -1 || OccursAt(str, pat, r)
    ensures SkipSafe(pat) ==> r == FirstFrom(str, pat, 0)
  {
    var delta1 := new int32[ALPHABET_LEN];
    var delta2 := new int32[|pat|];
    BmMakeDelta1(delta1, pat);
    BmMakeDelta2(delta2, pat);
    r := SearchLoop(str, pat, delta1, delta2);
    SearchIsSound(str, pat, 0);
    if SkipSafe(pat) {
      SearchFindsFirst(str, pat, 0);
    }
  }

  /** The outer loop of bm_search. */
  method SearchLoop(str: seq<byte>, pat: seq<byte>, delta1: array<int32>, delta2: array<int32>) returns (r: int)
    requires 1 <= |pat| && |str| + |pat| - 1 <= INT_MAX && 2 * |pat| - 1 <= INT_MAX
    requires BadCharacterTable(delta1, pat) && GoodSuffixTable(delta2, pat, 1)
    ensures r == SearchFrom(str, pat, 0)
  {
    hide SearchFrom, Skip, BadCharacterTable, GoodSuffixTable;
    var i: int32 := |pat| - 1;
    ghost var a: nat := 0;
    while i < |str|
      invariant i == a + (|pat| - 1) <= |str| + |pat| - 1
      invariant SearchFrom(str, pat, 0) == SearchFrom(str, pat, a)
    {
      var j: int32;
      i, j := CompareBackwards(str, pat, i);
      SearchStep(str, pat, a);
      if j < 0 {
        return i + 1;
      }
      SkipIsLarger(delta1, delta2, pat, str[i], j);
      a := a + Skip(pat, str[i], j);
      i := i + Max(delta1[str[i]], delta2[j]);
    }
    SearchStep(str, pat, a);
    return -1;
  }

  function Max(a: int, b: int): int {
    if a > b then a else b
  }

  /** The larger table entry moves the end of the pattern; Skip is how far the pattern itself moves. */
  lemma SkipIsLarger(delta1: array<int32>, delta2: array<int32>, pat: seq<byte>, c: byte, j: nat)
    requires j < |pat| && BadCharacterTable(delta1, pat) && GoodSuffixTable(delta2, pat, 1)
    ensures delta1.Length == ALPHABET_LEN && delta2.Length == |pat|
    ensures Max(delta1[c], delta2[j]) == Skip(pat, c, j) + (|pat| - 1 - j)
  {
    assert delta2[j] == Entry(pat, j, 1);
  }

  // ---------- No skip jumps over an occurrence, for exactly these patterns ----------

  /** After a mismatch at `j` that no strong shift resolves, the table moves by one more than the first
      position from `j` on that passes the prefix comparison. The pattern is safe when that never
      overtakes a border beyond `j`. */
  predicate SkipSafe(pat: seq<byte>) {
    forall j, b :: 1 <= j < b < |pat| && Border(pat, b) && LeastStrong(pat, j, 1) == 0 ==>
      exists p :: j <= p < b && StrncmpEqual(pat, p, 0)
  }

  lemma {:induction false} BorderPassesStrncmp(pat: seq<byte>, p: nat, k: nat)
    requires Border(pat, p)
    ensures StrncmpEqual(pat, p, k)
    decreases |pat| - k
  {
    if p + k < |pat| {
      assert pat[p + k - p] == pat[p + k];
      BorderPassesStrncmp(pat, p, k + 1);
    }
  }

  lemma {:induction false} StrncmpMeansBorder(pat: seq<byte>, p: nat, k: nat)
    requires ZeroFree(pat) && StrncmpEqual(pat, p, k)
    ensures forall i :: p + k <= i < |pat| ==> pat[i - p] == pat[i]
    decreases |pat| - k
  {
    if p + k < |pat| {
      StrncmpMeansBorder(pat, p, k + 1);
    }
  }

  /** LastPrefix is one more than the first position that passes the prefix comparison. */
  lemma {:induction false} LastPrefixIsFirst(pat: seq<byte>, j: nat, p: nat)
    requires j <= p < |pat| && StrncmpEqual(pat, p, 0)
    ensures LastPrefix(pat, j) <= p + 1
    ensures (forall q :: j <= q < p ==> !StrncmpEqual(pat, q, 0)) ==> LastPrefix(pat, j) == p + 1
    decreases p - j
  {
    if !StrncmpEqual(pat, j, 0) {
      LastPrefixIsFirst(pat, j + 1, p);
    }
  }

  lemma {:induction false} LastPrefixNone(pat: seq<byte>, j: nat)
    requires j <= |pat| && pat != []
    requires forall q :: j <= q < |pat| ==> !StrncmpEqual(pat, q, 0)
    ensures LastPrefix(pat, j) == |pat| - 1
    decreases |pat| - j
  {
    if j < |pat| {
      LastPrefixNone(pat, j + 1);
    }
  }

  /** An occurrence that a move by `s` would reach, after the pattern failed at `j`, makes the move either
      a strong shift or a border. */
  lemma OccurrenceAfterMismatch(str: seq<byte>, pat: seq<byte>, a: nat, j: nat, s: nat)
    requires j < |pat| && a + |pat| <= |str| && 1 <= s
    requires str[a + j] != pat[j] && forall k :: j < k < |pat| ==> str[a + k] == pat[k]
    requires OccursAt(str, pat, a + s)
    ensures s <= j ==> Strong(pat, j, s)
    ensures j < s < |pat| ==> Border(pat, s)
  {
    forall k | j < k < |pat| && s <= k ensures pat[k - s] == pat[k] {
      assert str[a + s + (k - s)] == pat[k - s];
    }
    if s <= j {
      assert str[a + s + (j - s)] == pat[j - s];
    }
  }

  lemma SkipMissesNothing(str: seq<byte>, pat: seq<byte>, a: nat, j: nat, s: nat)
    requires SkipSafe(pat)
    requires j < |pat| && a + |pat| <= |str|
    requires str[a + j] != pat[j] && forall k :: j < k < |pat| ==> str[a + k] == pat[k]
    requires 1 <= s < Skip(pat, str[a + j], j)
    ensures !OccursAt(str, pat, a + s)
  {
    if OccursAt(str, pat, a + s) {
      OccurrenceAfterMismatch(str, pat, a, j, s);
      BadCharacterIsLast(pat, str[a + j], |pat| - 1);
      assert s <= j ==> str[a + s + (j - s)] == pat[j - s];
      GoodSuffixMissesNothing(pat, j, s);
    }
  }

  /** On a safe pattern the second table alone overtakes neither a strong shift nor a border. */
  lemma GoodSuffixMissesNothing(pat: seq<byte>, j: nat, s: nat)
    requires SkipSafe(pat) && j < |pat|
    requires 1 <= s < GoodSuffix(pat, j)
    ensures !Strong(pat, j, s)
    ensures j < s < |pat| ==> !Border(pat, s)
  {
    LeastStrongIsLeast(pat, j, 1);
    LastPrefixPositive(pat, j);
    if j < s < |pat| && Border(pat, s) && j >= 1 && LeastStrong(pat, j, 1) == 0 {
      var p :| j <= p < s && StrncmpEqual(pat, p, 0);
      LastPrefixIsFirst(pat, j, p);
    }
  }

  /** No alignment that one turn of the search passes over holds an occurrence. */
  lemma PassedOverAreEmpty(str: seq<byte>, pat: seq<byte>, a: nat, j: nat)
    requires pat != [] && SkipSafe(pat) && a + |pat| <= |str|
    requires j == Mismatch(str, pat, a, |pat| - 1)
    ensures forall b :: a <= b < a + Skip(pat, str[a + j], j) ==> !OccursAt(str, pat, b)
  {
    MismatchIsLast(str, pat, a, |pat| - 1);
    forall b | a <= b < a + Skip(pat, str[a + j], j) ensures !OccursAt(str, pat, b) {
      if b == a {
        assert str[a + j] != pat[j];
      } else {
        SkipMissesNothing(str, pat, a, j, b - a);
      }
    }
  }

  lemma {:induction false} SearchFindsFirst(str: seq<byte>, pat: seq<byte>, a: nat)
    requires pat != [] && SkipSafe(pat)
    ensures SearchFrom(str, pat, a) == FirstFrom(str, pat, a)
    decreases |str| - a
  {
    hide SkipSafe, Skip;
    if a + |pat| <= |str| {
      var j := Mismatch(str, pat, a, |pat| - 1);
      MismatchIsLast(str, pat, a, |pat| - 1);
      if j >= 0 {
        var n := Skip(pat, str[a + j], j);
        PassedOverAreEmpty(str, pat, a, j);
        FirstSkips(str, pat, a, a + n);
        SearchFindsFirst(str, pat, a + n);
      }
    }
  }

  lemma {:induction false} FirstSkips(str: seq<byte>, pat: seq<byte>, a: nat, b: nat)
    requires pat != [] && a <= b && forall c :: a <= c < b ==> !OccursAt(str, pat, c)
    ensures FirstFrom(str, pat, a) == FirstFrom(str, pat, b)
    decreases b - a
  {
    if a != b {
      FirstSkips(str, pat, a + 1, b);
    }
  }

  /** The text on which an unsafe pattern is missed: one wrong character at `j`, the pattern at `b`. */
  function MissedText(pat: seq<byte>, j: nat, b: nat): seq<byte>
    requires j < b < |pat|
  {
    pat[..j] + [if pat[j] == 0 then 1 else 0] + pat[j + 1..b] + pat
  }

  /** Behind its wrong character the text agrees with the pattern at 0. */
  lemma MissedTextAt(pat: seq<byte>, j: nat, b: nat, k: nat)
    requires j < k < |pat| && j < b < |pat| && Border(pat, b)
    ensures MissedText(pat, j, b)[k] == pat[k]
  {
    var str, front := MissedText(pat, j, b), pat[..j] + [if pat[j] == 0 then 1 else 0] + pat[j + 1..b];
    assert str == front + pat && |front| == b;
    if k < b {
      assert str[k] == front[k] == pat[j + 1..b][k - (j + 1)] == pat[k];
    } else {
      assert str[k] == pat[k - b];
    }
  }

  lemma MissedTextShape(pat: seq<byte>, j: nat, b: nat)
    requires j < b < |pat| && Border(pat, b)
    ensures var str := MissedText(pat, j, b);
      && |str| == b + |pat| && str[j] != pat[j] && OccursAt(str, pat, b)
      && forall k :: j < k < |pat| ==> str[k] == pat[k]
  {
    var str := MissedText(pat, j, b);
    forall k | 0 <= k < |pat| ensures str[b + k] == pat[k] {
      assert str[b..] == pat;
      assert str[b..][k] == str[b + k];
    }
    forall k | j < k < |pat| ensures str[k] == pat[k] {
      MissedTextAt(pat, j, b, k);
    }
  }

  lemma UnsafeMisses(pat: seq<byte>, j: nat, b: nat)
    requires 1 <= j < b < |pat| && Border(pat, b) && LeastStrong(pat, j, 1) == 0
    requires forall p :: j <= p < b ==> !StrncmpEqual(pat, p, 0)
    ensures SearchFrom(MissedText(pat, j, b), pat, 0) == -1
    ensures OccursAt(MissedText(pat, j, b), pat, b)
  {
    hide *;
    var str := MissedText(pat, j, b);
    MissedTextShape(pat, j, b);
    MismatchAt(str, pat, j, |pat| - 1);
    UnsafeSkip(pat, str[j], j, b);
    SearchStep(str, pat, 0);
    SearchStep(str, pat, Skip(pat, str[j], j));
  }

  /** There the search moves the pattern past the border. */
  lemma UnsafeSkip(pat: seq<byte>, c: byte, j: nat, b: nat)
    requires 1 <= j < b < |pat| && Border(pat, b) && LeastStrong(pat, j, 1) == 0
    requires forall p :: j <= p < b ==> !StrncmpEqual(pat, p, 0)
    ensures Skip(pat, c, j) >= b + 1
  {
    BorderPassesStrncmp(pat, b, 0);
    LastPrefixIsFirst(pat, j, b);
    hide Border, StrncmpEqual, LastPrefix, LeastStrong, BadCharacter;
  }

  lemma {:induction false} MismatchAt(str: seq<byte>, pat: seq<byte>, j: nat, n: nat)
    requires j <= n < |pat| <= |str| && str[j] != pat[j]
    requires forall k :: j < k <= n ==> str[k] == pat[k]
    ensures Mismatch(str, pat, 0, n) == j
  {
    if j < n {
      MismatchAt(str, pat, j, n - 1);
    }
  }

  /** bm_search finds the first occurrence in every text if and only if its pattern is safe. */
  lemma SearchExactlyWhenSafe(pat: seq<byte>)
    requires pat != []
    ensures SkipSafe(pat) <==> forall str: seq<byte> :: SearchFrom(str, pat, 0) == FirstFrom(str, pat, 0)
  {
    if SkipSafe(pat) {
      forall str: seq<byte> ensures SearchFrom(str, pat, 0) == FirstFrom(str, pat, 0) {
        SearchFindsFirst(str, pat, 0);
      }
    } else {
      var j, b :| 1 <= j < b < |pat| && Border(pat, b) && LeastStrong(pat, j, 1) == 0
               && forall p :: j <= p < b ==> !StrncmpEqual(pat, p, 0);
      UnsafeMisses(pat, j, b);
      assert OccursAt(MissedText(pat, j, b), pat, b);
      assert SearchFrom(MissedText(pat, j, b), pat, 0) != FirstFrom(MissedText(pat, j, b), pat, 0);
    }
  }

  /** Without borders and zero bytes the second table is the strong good-suffix rule itself. */
  lemma UnborderedTable(pat: seq<byte>, j: nat)
    requires j < |pat| && Unbordered(pat) && ZeroFree(pat)
    ensures SkipSafe(pat)
    ensures (exists s :: Strong(pat, j, s)) ==>
      Strong(pat, j, GoodSuffix(pat, j)) && forall s :: Strong(pat, j, s) ==> GoodSuffix(pat, j) <= s
    ensures (forall s :: !Strong(pat, j, s)) ==> GoodSuffix(pat, j) == if j == 0 then 1 else |pat| - 1
  {
    LastPrefixPositive(pat, 0);
    LeastStrongIsLeast(pat, j, 1);
    forall q | 1 <= q < |pat| ensures !StrncmpEqual(pat, q, 0) {
      if StrncmpEqual(pat, q, 0) {
        StrncmpMeansBorder(pat, q, 0);
        assert Border(pat, q);
      }
    }
    if j >= 1 {
      LastPrefixNone(pat, j);
    }
  }

  // ---------- The comparison one position further on ----------

  /** The first loop of bm_make_delta2 had it compared from pat + p + 1, as the method intends: the first
      position after `p` that passes, the end of the pattern at the latest. */
  function RepairedPrefix(pat: seq<byte>, p: nat): (s: nat)
    requires p < |pat|
    ensures p < s <= |pat|
    decreases |pat| - p
  {
    if StrncmpEqual(pat, p + 1, 0) then p + 1 else RepairedPrefix(pat, p + 1)
  }

  function RepairedSkip(pat: seq<byte>, c: byte, j: nat): (s: nat)
    requires j < |pat|
    ensures 1 <= s
  {
    var s, d1 := LeastStrong(pat, j, 1), BadCharacter(pat, c, |pat| - 1) - (|pat| - 1 - j);
    Max(d1, if s != 0 then s else RepairedPrefix(pat, j))
  }

  function RepairedSearchFrom(str: seq<byte>, pat: seq<byte>, a: nat): (r: int)
    requires pat != []
    decreases |str| - a
  {
    if |str| < a + |pat| then -1
    else
      var j := Mismatch(str, pat, a, |pat| - 1);
      if j < 0 then a else RepairedSearchFrom(str, pat, a + RepairedSkip(pat, str[a + j], j))
  }

  lemma {:induction false} RepairedPrefixIsFirst(pat: seq<byte>, j: nat, b: nat)
    requires j < b < |pat| && Border(pat, b)
    ensures RepairedPrefix(pat, j) <= b
    decreases b - j
  {
    BorderPassesStrncmp(pat, b, 0);
    if j + 1 < b {
      RepairedPrefixIsFirst(pat, j + 1, b);
    }
  }

  lemma RepairedMissesNothing(str: seq<byte>, pat: seq<byte>, a: nat, j: nat, s: nat)
    requires j < |pat| && a + |pat| <= |str|
    requires str[a + j] != pat[j] && forall k :: j < k < |pat| ==> str[a + k] == pat[k]
    requires 1 <= s < RepairedSkip(pat, str[a + j], j)
    ensures !OccursAt(str, pat, a + s)
  {
    if OccursAt(str, pat, a + s) {
      OccurrenceAfterMismatch(str, pat, a, j, s);
      BadCharacterIsLast(pat, str[a + j], |pat| - 1);
      assert s <= j ==> str[a + s + (j - s)] == pat[j - s];
      LeastStrongIsLeast(pat, j, 1);
      hide StrncmpEqual, LeastStrong, RepairedPrefix, BadCharacter, Border;
      if j < s < |pat| {
        RepairedPrefixIsFirst(pat, j, s);
      }
    }
  }

  /** With that comparison every pattern, bordered or not, is found wherever it first occurs. */
  lemma {:induction false} RepairedSearchFindsFirst(str: seq<byte>, pat: seq<byte>, a: nat)
    requires pat != []
    ensures RepairedSearchFrom(str, pat, a) == FirstFrom(str, pat, a)
    decreases |str| - a
  {
    hide RepairedSkip;
    if a + |pat| <= |str| {
      var j := Mismatch(str, pat, a, |pat| - 1);
      MismatchIsLast(str, pat, a, |pat| - 1);
      if j >= 0 {
        var n := RepairedSkip(pat, str[a + j], j);
        forall b | a <= b < a + n ensures !OccursAt(str, pat, b) {
          if b == a {
            assert str[b + j] != pat[j];
          } else {
            RepairedMissesNothing(str, pat, a, j, b - a);
          }
        }
        FirstSkips(str, pat, a, a + n);
        RepairedSearchFindsFirst(str, pat, a + n);
      }
    }
  }

  // ---------- Two concrete patterns ----------

  /** MODEM_VER_STR as bytes: Time_Stamp": " */
  const MODEM_VER_STR: seq<byte> := [84, 105, 109, 101, 95, 83, 116, 97, 109, 112, 34, 58, 32, 34]

  lemma ModemVersionSearchIsExact(str: seq<byte>)
    ensures SearchFrom(str, MODEM_VER_STR, 0) == FirstFrom(str, MODEM_VER_STR, 0)
  {
    forall p | 1 <= p < |MODEM_VER_STR| ensures !Border(MODEM_VER_STR, p) {
      assert p < |MODEM_VER_STR| && MODEM_VER_STR[p - p] == 84 && MODEM_VER_STR[p] != 84;
    }
    UnborderedTable(MODEM_VER_STR, 0);
    SearchFindsFirst(str, MODEM_VER_STR, 0);
  }

  /** "aba" in a five-byte text: a real occurrence at 2 that is not found. */
  lemma BorderedPatternMissed()
    ensures SearchFrom([97, 0, 97, 98, 97], [97, 98, 97], 0) == -1
    ensures OccursAt([97, 0, 97, 98, 97], [97, 98, 97], 2)
    ensures !SkipSafe([97, 98, 97])
  {
    var pat: seq<byte> := [97, 98, 97];
    assert Border(pat, 2);
    assert pat[2 - 1] != pat[2];
    assert !StrncmpEqual(pat, 1, 0);
    UnsafeMisses(pat, 1, 2);
    assert MissedText(pat, 1, 2) == [97, 0, 97, 98, 97];
  }
}
