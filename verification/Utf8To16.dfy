/** libshims/strdup8to16.cpp: a decoder of modified UTF-8 that tolerates malformed input, the predictor of
    its output length, and the allocating wrapper. A string is the sequence of bytes before its terminator. */
module Utf8To16 {
  import opened Wrappers

  const UTF16_REPLACEMENT_CHAR: bv32 := 0xfffd
  const UNICODE_UPPER_LIMIT: bv32 := 0x10fffd

  // ---------- Bytes ----------

  predicate ZeroFree(s: seq<bv8>) {
    forall i :: 0 <= i < |s| ==> s[i] != 0
  }

  /** The byte a pointer into the string sees, the terminator included. */
  function Peek(s: seq<bv8>): bv8 {
    if s == [] then 0 else s[0]
  }

  predicate IsExtension(b: bv8) {
    b & 0xc0 == 0x80
  }

  /** The macro UTF8_SEQ_LENGTH: two bits per leading nibble, packed into one word. */
  function PackedLength(b: bv8): bv32 {
    ((0xe500_0000 >> (((b >> 3) & 0x1e) as bv32)) & 3) + 1
  }

  function SeqLength(b: bv8): (n: nat)
    ensures 1 <= n <= 4
  {
    PackedLengthByRange(b);
    PackedLength(b) as nat
  }

  lemma PackedLengthByRange(b: bv8)
    ensures PackedLength(b) == if b < 0xc0 then 1 else if b < 0xe0 then 2 else if b < 0xf0 then 3 else 4
  {
  }

  lemma SeqLengthByRange(b: bv8)
    ensures SeqLength(b) == if b < 0xc0 then 1 else if b < 0xe0 then 2 else if b < 0xf0 then 3 else 4
  {
    PackedLengthByRange(b);
  }

  /** Does the byte, as a leader, announce a sequence of four? */
  predicate AnnouncesFour(b: bv8) {
    !IsExtension(b) && SeqLength(b) == 4
  }

  function LeaderMask(seqLen: nat): bv8
    requires 1 <= seqLen <= 4
  {
    [0xff, 0x1f, 0x0f, 0x07][seqLen - 1]
  }

  /** What a leader contributes to the value. */
  function LeaderBits(b: bv8): bv32 {
    (b & LeaderMask(SeqLength(b))) as bv32
  }

  /** The macro UTF8_SHIFT_AND_MASK. */
  function ShiftAndMask(unicode: bv32, b: bv8): bv32 {
    (unicode << 6) | (0x3f & b) as bv32
  }

  // ---------- The decoder as a function ----------

  /** The loop of getUtf32FromUtf8 with `n` extension bytes still expected: the value, and how many bytes
      of `s` it took. */
  function TakeExtensions(s: seq<bv8>, n: nat, ret: bv32): (r: (bv32, nat))
    ensures r.1 <= |s| && r.1 <= n
    ensures forall i :: 0 <= i < r.1 ==> IsExtension(s[i])
    ensures r.1 < n ==> !IsExtension(Peek(s[r.1..]))
    decreases n
  {
    if n == 0 then (ret, 0)
    else if Peek(s) == 0 || !IsExtension(Peek(s)) then (UTF16_REPLACEMENT_CHAR, 0)
    else
      var (value, taken) := TakeExtensions(s[1..], n - 1, ShiftAndMask(ret, s[0]));
      assert s[1..][taken..] == s[1 + taken..];
      (value, 1 + taken)
  }

  /** getUtf32FromUtf8: the next value, and how many bytes it took. */
  function GetUtf32(s: seq<bv8>): (r: (bv32, nat))
    requires s != [] && s[0] != 0
    ensures 1 <= r.1 <= |s|
  {
    if IsExtension(s[0]) then (UTF16_REPLACEMENT_CHAR, 1)
    else
      var seqLen := SeqLength(s[0]);
      var (value, taken) := TakeExtensions(s[1..], seqLen - 1, LeaderBits(s[0]));
      (value, 1 + taken)
  }

  /** The units strcpy8to16 writes for one value. */
  function Units(ret: bv32): (us: seq<bv16>)
    ensures 1 <= |us| <= 2
    ensures |us| == 2 <==> 0xffff < ret <= UNICODE_UPPER_LIMIT
  {
    if ret <= 0xffff then [ret as bv16]
    else if ret <= UNICODE_UPPER_LIMIT then
      [0xd800 | (((ret - 0x10000) >> 10) & 0xffff) as bv16, 0xdc00 | ((ret - 0x10000) & 0x3ff) as bv16]
    else [UTF16_REPLACEMENT_CHAR as bv16]
  }

  function Decode(s: seq<bv8>): seq<bv16>
    requires ZeroFree(s)
    decreases |s|
  {
    if s == [] then [] else
      var (ret, n) := GetUtf32(s);
      Units(ret) + Decode(s[n..])
  }

  /** strlen8to16 from a point where `expected` extension bytes are still expected. */
  function Predict(s: seq<bv8>, expected: int): nat {
    if s == [] then 0
    else if IsExtension(s[0]) then (if expected <= 0 then 1 else 0) + Predict(s[1..], expected - 1)
    else (if SeqLength(s[0]) == 4 then 2 else 1) + Predict(s[1..], SeqLength(s[0]) - 1)
  }

  // ---------- The code ----------

  /** strlen8to16. The counter `expected` falls by one with every extension byte. */
  method Strlen8To16(s: seq<bv8>) returns (len: nat)
    ensures len == Predict(s, 0)
  {
    len := 0;
    var expected, i := 0, 0;
    while i < |s|
      invariant i <= |s|
      invariant len + Predict(s[i..], expected) == Predict(s, 0)
    {
      if s[i] & 0xc0 == 0x80 {
        expected := expected - 1;
        if expected < 0 {
          len := len + 1;
        }
      } else {
        len := len + 1;
        expected := SeqLength(s[i]) - 1;
        if expected == 3 {
          len := len + 1;
        }
      }
      assert s[i..][1..] == s[i + 1..];
      i := i + 1;
    }
  }

  /** One turn of the loop of getUtf32FromUtf8. */
  lemma TakeStep(s: seq<bv8>, n: nat, ret: bv32)
    requires n > 0
    ensures Peek(s) == 0 || !IsExtension(Peek(s)) ==> TakeExtensions(s, n, ret) == (UTF16_REPLACEMENT_CHAR, 0)
    ensures Peek(s) != 0 && IsExtension(Peek(s)) ==>
      && s != []
      && var (value, taken) := TakeExtensions(s[1..], n - 1, ShiftAndMask(ret, s[0]));
         TakeExtensions(s, n, ret) == (value, 1 + taken)
  {
  }

  /** The first byte decides. */
  lemma GetStep(s: seq<bv8>, p: nat)
    requires p < |s| && ZeroFree(s)
    ensures s[p..] != [] && s[p..][0] != 0
    ensures GetUtf32(s[p..]) ==
      if IsExtension(s[p]) then (UTF16_REPLACEMENT_CHAR, 1)
      else
        var seqLen := SeqLength(s[p]);
        var (value, taken) := TakeExtensions(s[p + 1..], seqLen - 1, LeaderBits(s[p]));
        (value, 1 + taken)
  {
    assert s[p..][0] == s[p] && s[p] != 0 && s[p..][1..] == s[p + 1..];
    hide TakeExtensions, LeaderBits, IsExtension, SeqLength, ZeroFree;
  }

  /** getUtf32FromUtf8 on the string `s` from index `p` on. */
  method GetUtf32FromUtf8(s: seq<bv8>, p: nat) returns (ret: bv32, next: nat)
    requires p < |s| && ZeroFree(s)
    ensures (ret, next - p) == GetUtf32(s[p..]) && p < next <= |s|
  {
    GetStep(s, p);
    hide GetUtf32, TakeExtensions, IsExtension, SeqLength, ZeroFree, LeaderBits;
    if IsExtension(s[p]) {
      return UTF16_REPLACEMENT_CHAR, p + 1;
    }
    var seqLen := SeqLength(s[p]);
    ret := LeaderBits(s[p]);
    ret, next := TakeLoop(s, p + 1, seqLen, ret);
  }

  /** The loop of getUtf32FromUtf8, after the first byte. */
  method TakeLoop(s: seq<bv8>, first: nat, seqLen: nat, leader: bv32) returns (ret: bv32, next: nat)
    requires 1 <= first <= |s| && 1 <= seqLen
    ensures first <= next <= |s| && (ret, next - first) == TakeExtensions(s[first..], seqLen - 1, leader)
  {
    hide *;
    ret, next := leader, first;
    var i := 1;
    while i < seqLen
      invariant 1 <= i <= seqLen && next == first + i - 1 <= |s|
      invariant TakeExtensions(s[first..], seqLen - 1, leader).0 == TakeExtensions(s[next..], seqLen - i, ret).0
      invariant TakeExtensions(s[first..], seqLen - 1, leader).1 == TakeExtensions(s[next..], seqLen - i, ret).1 + i - 1
    {
      TakeStep(s[next..], seqLen - i, ret);
      if Peek(s[next..]) == 0 || !IsExtension(Peek(s[next..])) {
        return UTF16_REPLACEMENT_CHAR, next;
      }
      ret := ShiftAndMask(ret, s[next]);
      assert s[next..][1..] == s[next + 1..];
      i, next := i + 1, next + 1;
    }
    TakeNone(s[next..], ret);
  }

  lemma TakeNone(s: seq<bv8>, ret: bv32)
    ensures TakeExtensions(s, 0, ret) == (ret, 0)
  {
  }

  lemma DecodeStep(s: seq<bv8>, p: nat)
    requires ZeroFree(s) && p <= |s|
    ensures p == |s| ==> Decode(s[p..]) == []
    ensures p < |s| ==>
      var (ret, n) := GetUtf32(s[p..]);
      p + n <= |s| && Decode(s[p..]) == Units(ret) + Decode(s[p + n..])
  {
    if p < |s| {
      var n := GetUtf32(s[p..]).1;
      assert s[p..][n..] == s[p + n..];
    }
  }

  /** strcpy8to16: the destination holds the decoded units, and out_len tells how many. */
  method Strcpy8To16(utf16Str: array<bv16>, s: seq<bv8>) returns (outLen: nat)
    requires ZeroFree(s) && Predict(s, 0) <= utf16Str.Length
    modifies utf16Str
    ensures outLen == |Decode(s)| <= utf16Str.Length && utf16Str[..outLen] == Decode(s)
    ensures utf16Str[outLen..] == old(utf16Str[outLen..])
  {
    hide Decode, GetUtf32, Units, Predict;
    DecodeFits(s, 0);
    assert s[0..] == s;
    outLen := 0;
    var p := 0;
    ghost var all := Decode(s);
    while p < |s|
      invariant p <= |s| && outLen <= |all|
      invariant utf16Str[..outLen] + Decode(s[p..]) == all
      invariant utf16Str[|all|..] == old(utf16Str[|all|..])
    {
      p, outLen := PutNext(utf16Str, s, p, outLen, all);
    }
    DecodeStep(s, p);
  }

  /** The body of the loop: one value, decoded and written. */
  method PutNext(utf16Str: array<bv16>, s: seq<bv8>, p: nat, dest: nat, ghost all: seq<bv16>)
      returns (next: nat, dest': nat)
    requires ZeroFree(s) && p < |s| && dest <= |all| <= utf16Str.Length
    requires utf16Str[..dest] + Decode(s[p..]) == all
    modifies utf16Str
    ensures p < next <= |s| && dest <= dest' <= |all|
    ensures utf16Str[..dest'] + Decode(s[next..]) == all
    ensures utf16Str[|all|..] == old(utf16Str[|all|..])
  {
    hide Decode, GetUtf32, Units;
    DecodeStep(s, p);
    var ret;
    ret, next := GetUtf32FromUtf8(s, p);
    ghost var before := utf16Str[..dest];
    assert before + (Units(ret) + Decode(s[next..])) == (before + Units(ret)) + Decode(s[next..]);
    dest' := PutUnits(utf16Str, dest, ret, |all|);
  }

  method PutUnits(utf16Str: array<bv16>, dest: nat, ret: bv32, ghost limit: nat) returns (next: nat)
    requires dest + |Units(ret)| <= limit <= utf16Str.Length
    modifies utf16Str
    ensures next == dest + |Units(ret)|
    ensures utf16Str[..next] == old(utf16Str[..dest]) + Units(ret)
    ensures utf16Str[limit..] == old(utf16Str[limit..])
  {
    if ret <= 0xffff {
      utf16Str[dest] := ret as bv16;
      next := dest + 1;
    } else if ret <= UNICODE_UPPER_LIMIT {
      utf16Str[dest] := 0xd800 | (((ret - 0x10000) >> 10) & 0xffff) as bv16;
      utf16Str[dest + 1] := 0xdc00 | ((ret - 0x10000) & 0x3ff) as bv16;
      next := dest + 2;
    } else {
      utf16Str[dest] := UTF16_REPLACEMENT_CHAR as bv16;
      next := dest + 1;
    }
  }

  // ---------- The predictor never promises too little ----------

  /** A byte that announces four bytes begins a complete sequence for a value above 0xFFFF that the
      decoder does not refuse. */
  predicate StartsPair(s: seq<bv8>) {
    && |s| >= 4 && IsExtension(s[1]) && IsExtension(s[2]) && IsExtension(s[3])
    && 0xffff < FourByteValue(s) <= UNICODE_UPPER_LIMIT
  }

  function FourByteValue(s: seq<bv8>): bv32
    requires |s| >= 4
  {
    ShiftAndMask(ShiftAndMask(ShiftAndMask((s[0] & 0x07) as bv32, s[1]), s[2]), s[3])
  }

  predicate FoursArePairs(s: seq<bv8>) {
    forall i :: 0 <= i < |s| && AnnouncesFour(s[i]) ==> StartsPair(s[i..])
  }

  /** While extension bytes are expected they are not counted. */
  lemma {:induction false} PredictSkipsTaken(s: seq<bv8>, n: nat, ret: bv32)
    ensures var taken := TakeExtensions(s, n, ret).1; Predict(s, n) == Predict(s[taken..], n - taken)
    decreases n
  {
    hide ShiftAndMask, IsExtension, SeqLength, TakeExtensions;
    if n == 0 {
      TakeNone(s, ret);
    } else {
      TakeStep(s, n, ret);
      if s != [] && s[0] != 0 && IsExtension(s[0]) {
        PredictSkipsTaken(s[1..], n - 1, ShiftAndMask(ret, s[0]));
        var taken := TakeExtensions(s[1..], n - 1, ShiftAndMask(ret, s[0])).1;
        assert s[1..][taken..] == s[1 + taken..];
      }
    }
  }

  /** The value of `n` extension bytes after `ret`. */
  function Chain(s: seq<bv8>, n: nat, ret: bv32): bv32
    requires n <= |s|
  {
    if n == 0 then ret else Chain(s[1..], n - 1, ShiftAndMask(ret, s[0]))
  }

  /** Are the first `n` bytes all there, and all extension bytes? */
  predicate ExtensionsAhead(s: seq<bv8>, n: nat) {
    n <= |s| && forall i :: 0 <= i < n ==> IsExtension(s[i])
  }

  lemma AheadStep(s: seq<bv8>, n: nat)
    requires n > 0
    ensures ExtensionsAhead(s, n) <==> s != [] && IsExtension(s[0]) && ExtensionsAhead(s[1..], n - 1)
  {
    hide IsExtension;
    if s != [] {
      assert forall i :: 0 < i < |s| ==> s[i] == s[1..][i - 1];
    }
  }

  /** Either all the expected extension bytes are there and make the value, or the replacement is. */
  lemma {:induction false} TakeAllOrReplace(s: seq<bv8>, n: nat, ret: bv32)
    requires ZeroFree(s)
    ensures var (value, taken) := TakeExtensions(s, n, ret);
      && (taken < n ==> value == UTF16_REPLACEMENT_CHAR)
      && (taken == n ==> n <= |s| && value == Chain(s, n, ret))
      && (taken == n <==> ExtensionsAhead(s, n))
    decreases n
  {
    if n == 0 {
      TakeNone(s, ret);
    } else {
      TakeStep(s, n, ret);
      AheadStep(s, n);
      PeekIsFirst(s);
      hide ShiftAndMask, IsExtension, TakeExtensions, ExtensionsAhead, Peek;
      if s != [] && IsExtension(s[0]) {
        TakeAllOrReplace(s[1..], n - 1, ShiftAndMask(ret, s[0]));
      }
    }
  }

  lemma PeekIsFirst(s: seq<bv8>)
    requires ZeroFree(s)
    ensures Peek(s) != 0 <==> s != []
    ensures s != [] ==> Peek(s) == s[0] && ZeroFree(s[1..])
  {
  }

  lemma ShortValuesFit(b: bv8, x: bv8, y: bv8)
    ensures (b & 0xff) as bv32 <= 0xffff
    ensures ShiftAndMask((b & 0x1f) as bv32, x) <= 0xffff
    ensures ShiftAndMask(ShiftAndMask((b & 0x0f) as bv32, x), y) <= 0xffff
  {
  }

  lemma ChainOfUpToThree(s: seq<bv8>, ret: bv32)
    ensures Chain(s, 0, ret) == ret
    ensures |s| >= 1 ==> Chain(s, 1, ret) == ShiftAndMask(ret, s[0])
    ensures |s| >= 2 ==> Chain(s, 2, ret) == ShiftAndMask(ShiftAndMask(ret, s[0]), s[1])
    ensures |s| >= 3 ==> Chain(s, 3, ret) == ShiftAndMask(ShiftAndMask(ShiftAndMask(ret, s[0]), s[1]), s[2])
  {
    hide ShiftAndMask;
    if |s| >= 2 {
      var first := ShiftAndMask(ret, s[0]);
      assert Chain(s[1..], 1, first) == Chain(s[1..][1..], 0, ShiftAndMask(first, s[1]));
    }
    if |s| >= 3 {
      assert s[1..][1..] == s[2..];
      assert Chain(s[2..], 1, ShiftAndMask(ShiftAndMask(ret, s[0]), s[1]))
          == ShiftAndMask(ShiftAndMask(ShiftAndMask(ret, s[0]), s[1]), s[2]);
    }
  }

  /** What getUtf32FromUtf8 makes of a leader. */
  lemma LeaderValue(s: seq<bv8>)
    requires s != [] && ZeroFree(s) && !IsExtension(s[0])
    ensures var n, ret := SeqLength(s[0]) - 1, LeaderBits(s[0]);
      if ExtensionsAhead(s[1..], n) then GetUtf32(s).0 == Chain(s[1..], n, ret)
      else GetUtf32(s).0 == UTF16_REPLACEMENT_CHAR
  {
    var n, ret := SeqLength(s[0]) - 1, LeaderBits(s[0]);
    TakeAllOrReplace(s[1..], n, ret);
    assert GetUtf32(s).0 == TakeExtensions(s[1..], n, ret).0;
    hide GetUtf32, TakeExtensions, Chain, ExtensionsAhead, ZeroFree, SeqLength, LeaderBits;
  }

  lemma ShortIsOneUnit(s: seq<bv8>)
    requires s != [] && ZeroFree(s) && !IsExtension(s[0]) && SeqLength(s[0]) < 4
    ensures |Units(GetUtf32(s).0)| == 1
  {
    LeaderValue(s);
    ChainOfUpToThree(s[1..], LeaderBits(s[0]));
    ShortValuesFit(s[0], if |s| >= 2 then s[1] else 0, if |s| >= 3 then s[2] else 0);
    hide GetUtf32, Chain, ShiftAndMask, IsExtension, ZeroFree, SeqLength;
  }

  lemma ThreeExtensions(s: seq<bv8>)
    requires s != []
    ensures ExtensionsAhead(s[1..], 3) <==> |s| >= 4 && IsExtension(s[1]) && IsExtension(s[2]) && IsExtension(s[3])
  {
    hide IsExtension;
    if |s| >= 4 {
      assert s[1..][0] == s[1] && s[1..][1] == s[2] && s[1..][2] == s[3];
    }
  }

  /** The decoder writes two units only for a complete four-byte sequence in range. */
  lemma PairsComeFromFours(s: seq<bv8>)
    requires s != [] && ZeroFree(s) && !IsExtension(s[0])
    ensures |Units(GetUtf32(s).0)| == if SeqLength(s[0]) == 4 && StartsPair(s) then 2 else 1
  {
    if SeqLength(s[0]) < 4 {
      ShortIsOneUnit(s);
    } else {
      LeaderValue(s);
      ChainOfUpToThree(s[1..], LeaderBits(s[0]));
      hide GetUtf32, Chain, ShiftAndMask, IsExtension, ZeroFree, SeqLength;
      ThreeExtensions(s);
    }
  }

  /** How many units one step of the decoder writes, and how much of the prediction it uses up. */
  lemma DecodeStepFits(s: seq<bv8>, expected: int)
    requires s != [] && ZeroFree(s) && (expected <= 0 || !IsExtension(Peek(s)))
    ensures var (ret, n) := GetUtf32(s);
      var left := if IsExtension(s[0]) then expected - 1 else SeqLength(s[0]) - n;
      && (left <= 0 || !IsExtension(Peek(s[n..])))
      && Predict(s, expected) == (if AnnouncesFour(s[0]) then 2 else 1) + Predict(s[n..], left)
      && |Units(ret)| == (if AnnouncesFour(s[0]) && StartsPair(s) then 2 else 1)
  {
    if !IsExtension(s[0]) {
      hide StartsPair, Units, IsExtension, SeqLength;
      PairsComeFromFours(s);
      LeaderStepFits(s, expected);
      hide GetUtf32, Predict, ZeroFree;
    } else {
      hide TakeExtensions, SeqLength, StartsPair;
      ReplacementIsOneUnit();
    }
  }

  /** A leader and the extension bytes taken with it use up what was predicted for the leader. */
  lemma LeaderStepFits(s: seq<bv8>, expected: int)
    requires s != [] && s[0] != 0 && !IsExtension(s[0])
    ensures var n := GetUtf32(s).1;
      && (SeqLength(s[0]) - n <= 0 || !IsExtension(Peek(s[n..])))
      && Predict(s, expected) == (if SeqLength(s[0]) == 4 then 2 else 1) + Predict(s[n..], SeqLength(s[0]) - n)
  {
    hide IsExtension, SeqLength, LeaderBits, TakeExtensions;
    var n, bits := GetUtf32(s).1, LeaderBits(s[0]);
    assert n == 1 + TakeExtensions(s[1..], SeqLength(s[0]) - 1, bits).1;
    hide GetUtf32;
    PredictSkipsTaken(s[1..], SeqLength(s[0]) - 1, bits);
    assert s[1..][n - 1..] == s[n..];
  }

  lemma ReplacementIsOneUnit()
    ensures |Units(UTF16_REPLACEMENT_CHAR)| == 1
  {
  }

  lemma DecodeHead(s: seq<bv8>)
    requires s != [] && ZeroFree(s)
    ensures var (ret, n) := GetUtf32(s);
      ZeroFree(s[n..]) && Decode(s) == Units(ret) + Decode(s[n..])
  {
  }

  /** How many bytes announce four without beginning such a pair. */
  function Refused(s: seq<bv8>): nat {
    if s == [] then 0 else (if AnnouncesFour(s[0]) && !StartsPair(s) then 1 else 0) + Refused(s[1..])
  }

  lemma {:induction false} RefusedNowhere(s: seq<bv8>)
    ensures Refused(s) == 0 <==> FoursArePairs(s)
  {
    if s != [] {
      RefusedNowhere(s[1..]);
      hide AnnouncesFour, StartsPair;
      assert s[0..] == s;
      assert forall i :: 1 <= i < |s| ==> s[i] == s[1..][i - 1] && s[i..] == s[1..][i - 1..];
      assert forall i :: 0 <= i < |s[1..]| ==> s[1..][i] == s[i + 1] && s[1..][i..] == s[i + 1..];
    }
  }

  /** Bytes that announce nothing refuse nothing. */
  lemma {:induction false} RefusedLater(s: seq<bv8>, n: nat)
    requires n <= |s| && forall i :: 0 <= i < n ==> !AnnouncesFour(s[i])
    ensures Refused(s) == Refused(s[n..])
  {
    if n == 0 {
      assert s[0..] == s;
    } else {
      hide AnnouncesFour, StartsPair;
      assert forall i :: 0 <= i < n - 1 ==> s[1..][i] == s[i + 1];
      RefusedLater(s[1..], n - 1);
      assert s[1..][n - 1..] == s[n..];
    }
  }

  lemma RefusedHead(s: seq<bv8>)
    requires s != [] && s[0] != 0
    ensures Refused(s) == (if AnnouncesFour(s[0]) && !StartsPair(s) then 1 else 0) + Refused(s[GetUtf32(s).1..])
  {
    var n := GetUtf32(s).1;
    OnlyExtensionsInside(s);
    hide AnnouncesFour, StartsPair, GetUtf32;
    assert forall i :: 0 <= i < n - 1 ==> s[1..][i] == s[i + 1];
    RefusedLater(s[1..], n - 1);
    assert s[1..][n - 1..] == s[n..];
  }

  /** The prediction exceeds the output by exactly the number of bytes that announce four in vain. */
  lemma {:induction false} PredictionIsExact(s: seq<bv8>, expected: int)
    requires ZeroFree(s) && (expected <= 0 || !IsExtension(Peek(s)))
    ensures |Decode(s)| + Refused(s) == Predict(s, expected)
    decreases |s|
  {
    if s == [] {
      hide AnnouncesFour, StartsPair, GetUtf32;
    } else {
      assert s[0] != 0;
      hide *;
      var n := GetUtf32(s).1;
      DecodeHead(s);
      DecodeStepFits(s, expected);
      RefusedHead(s);
      PredictionIsExact(s[n..], if IsExtension(s[0]) then expected - 1 else SeqLength(s[0]) - n);
    }
  }

  /** So it never promises too little, and promises what is written exactly for strings without such bytes. */
  lemma DecodeFits(s: seq<bv8>, expected: int)
    requires ZeroFree(s) && (expected <= 0 || !IsExtension(Peek(s)))
    ensures |Decode(s)| <= Predict(s, expected)
    ensures |Decode(s)| == Predict(s, expected) <==> FoursArePairs(s)
  {
    PredictionIsExact(s, expected);
    RefusedNowhere(s);
    hide Decode, Predict, FoursArePairs, Refused;
  }

  /** Extension bytes announce nothing. */
  lemma OnlyExtensionsInside(s: seq<bv8>)
    requires s != [] && s[0] != 0
    ensures forall i :: 1 <= i < GetUtf32(s).1 ==> !AnnouncesFour(s[i])
  {
    hide SeqLength, LeaderBits, ShiftAndMask;
    forall i | 1 <= i < GetUtf32(s).1 ensures !AnnouncesFour(s[i]) {
      assert s[i] == s[1..][i - 1];
    }
  }

  /** How strdup8to16 ends: with a null pointer, with a buffer, or in a write through the null pointer that
      malloc returned, which the code does not look at. */
  datatype Duplicate = Null | Buffer(units: array<bv16>) | NullWritten

  /** strdup8to16: None stands for a null argument; the size in bytes must fit. The buffer that the prediction
      allocates always suffices. With Null on overflow or a null argument `outLen` is not written. */
  method Strdup8To16(s: Option<seq<bv8>>, sizeMax: nat, memory: bool) returns (ret: Duplicate, outLen: nat)
    requires s.Some? ==> ZeroFree(s.value)
    ensures ret.Buffer? <==> s.Some? && memory && (Predict(s.value, 0) == 0 || 2 <= sizeMax / Predict(s.value, 0))
    ensures ret.NullWritten? <==>
      s.Some? && !memory && Predict(s.value, 0) != 0 && 2 <= sizeMax / Predict(s.value, 0)
    ensures ret.Buffer? ==>
      && fresh(ret.units) && ret.units.Length == Predict(s.value, 0)
      && outLen == |Decode(s.value)| <= ret.units.Length && ret.units[..outLen] == Decode(s.value)
  {
    ret, outLen := Null, 0;
    if s.None? {
      return;
    }
    var len := Strlen8To16(s.value);
    if len != 0 && sizeMax / len < 2 {
      return;
    }
    if !memory {
      ret := if len == 0 then Null else NullWritten;
      return;
    }
    var buffer := new bv16[len];
    outLen := Strcpy8To16(buffer, s.value);
    ret := Buffer(buffer);
  }
}
