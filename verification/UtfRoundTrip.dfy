/** The two codecs of libshims together, and against the standard encodings. */
module UtfRoundTrip {
  import opened Utf16To8
  import opened Utf8To16

  /** A leader followed by all the extension bytes it announces. */
  predicate Complete(s: seq<bv8>) {
    && s != [] && !IsExtension(s[0]) && SeqLength(s[0]) <= |s|
    && forall i :: 1 <= i < SeqLength(s[0]) ==> IsExtension(s[i])
  }

  /** The value of a complete sequence: the leader's low bits and then six bits a byte. */
  function Assembled(s: seq<bv8>): bv32
    requires Complete(s)
  {
    Chain(s[1..], SeqLength(s[0]) - 1, LeaderBits(s[0]))
  }

  lemma CompleteDecodes(s: seq<bv8>)
    requires Complete(s) && ZeroFree(s)
    ensures GetUtf32(s) == (Assembled(s), SeqLength(s[0]))
  {
    LeaderValue(s);
    var n, ret := SeqLength(s[0]) - 1, LeaderBits(s[0]);
    TakeAllOrReplace(s[1..], n, ret);
    assert ExtensionsAhead(s[1..], n) by {
      hide IsExtension, SeqLength;
      assert forall i :: 0 <= i < |s[1..]| ==> s[1..][i] == s[i + 1];
    }
    hide IsExtension, SeqLength, LeaderBits, ZeroFree, TakeExtensions, Chain, ExtensionsAhead;
  }

  lemma OneByte(a: bv8, rest: seq<bv8>)
    requires !IsExtension(a) && SeqLength(a) == 1
    ensures Complete([a] + rest) && Assembled([a] + rest) == (a & 0xff) as bv32
  {
    hide IsExtension, SeqLength, ShiftAndMask;
    ChainOfUpToThree(([a] + rest)[1..], (a & 0xff) as bv32);
  }

  lemma TwoBytes(a: bv8, b: bv8, rest: seq<bv8>)
    requires !IsExtension(a) && SeqLength(a) == 2 && IsExtension(b)
    ensures Complete([a, b] + rest) && Assembled([a, b] + rest) == ShiftAndMask((a & 0x1f) as bv32, b)
  {
    hide IsExtension, SeqLength, ShiftAndMask;
    ChainOfUpToThree(([a, b] + rest)[1..], (a & 0x1f) as bv32);
  }

  lemma ThreeBytes(a: bv8, b: bv8, c: bv8, rest: seq<bv8>)
    requires !IsExtension(a) && SeqLength(a) == 3 && IsExtension(b) && IsExtension(c)
    ensures Complete([a, b, c] + rest)
    ensures Assembled([a, b, c] + rest) == ShiftAndMask(ShiftAndMask((a & 0x0f) as bv32, b), c)
  {
    hide IsExtension, SeqLength, ShiftAndMask;
    ChainOfUpToThree(([a, b, c] + rest)[1..], (a & 0x0f) as bv32);
  }

  lemma FourBytes(a: bv8, b: bv8, c: bv8, d: bv8, rest: seq<bv8>)
    requires !IsExtension(a) && SeqLength(a) == 4 && IsExtension(b) && IsExtension(c) && IsExtension(d)
    ensures Complete([a, b, c, d] + rest)
    ensures Assembled([a, b, c, d] + rest) == ShiftAndMask(ShiftAndMask(ShiftAndMask((a & 0x07) as bv32, b), c), d)
  {
    hide IsExtension, SeqLength, ShiftAndMask;
    ChainOfUpToThree(([a, b, c, d] + rest)[1..], (a & 0x07) as bv32);
  }

  // ---------- One step of the decoder, for any input ----------

  /** A complete sequence gives its value. Anything else gives the replacement, for a lone extension byte or for a
      leader with those of its extension bytes that are there. */
  lemma HeadDecodes(s: seq<bv8>)
    requires s != [] && ZeroFree(s)
    ensures var (v, n) := GetUtf32(s);
      if Complete(s) then v == Assembled(s) && n == SeqLength(s[0])
      else
        && v == UTF16_REPLACEMENT_CHAR && 1 <= n <= |s|
        && (IsExtension(s[0]) ==> n == 1)
        && (!IsExtension(s[0]) ==>
              n < SeqLength(s[0]) && (forall i :: 1 <= i < n ==> IsExtension(s[i])) && !IsExtension(Peek(s[n..])))
  {
    if Complete(s) {
      CompleteDecodes(s);
    } else if !IsExtension(s[0]) {
      LeaderFallsShort(s);
    }
    hide Complete, Assembled, SeqLength, TakeExtensions;
  }

  lemma LeaderFallsShort(s: seq<bv8>)
    requires s != [] && ZeroFree(s) && !IsExtension(s[0]) && !Complete(s)
    ensures var (v, n) := GetUtf32(s);
      && v == UTF16_REPLACEMENT_CHAR && 1 <= n <= |s| && n < SeqLength(s[0])
      && (forall i :: 1 <= i < n ==> IsExtension(s[i])) && !IsExtension(Peek(s[n..]))
  {
    var m, bits := SeqLength(s[0]) - 1, LeaderBits(s[0]);
    hide IsExtension, SeqLength, LeaderBits, TakeExtensions, Peek;
    TakeAllOrReplace(s[1..], m, bits);
    var taken := TakeExtensions(s[1..], m, bits).1;
    assert forall i :: 0 <= i < |s[1..]| ==> s[1..][i] == s[i + 1];
    assert GetUtf32(s).1 == 1 + taken;
    assert s[1..][taken..] == s[1 + taken..];
  }

  /** What is not a complete sequence for a value up to the limit becomes one U+FFFD. */
  lemma MalformedIsReplaced(s: seq<bv8>)
    requires s != [] && ZeroFree(s) && (!Complete(s) || Assembled(s) > UNICODE_UPPER_LIMIT)
    ensures var n := GetUtf32(s).1;
      ZeroFree(s[n..]) && Decode(s) == [0xfffd] + Decode(s[n..])
  {
    HeadDecodes(s);
    DecodeHead(s);
    hide Complete, Assembled, Decode, GetUtf32, ZeroFree;
  }

  // ---------- Units there and back ----------

  /** The bytes written for one unit, read back. */
  lemma UnitBytes(u: bv16)
    ensures u > 0x07ff ==>
      var a, b, c := ((u >> 12) & 0xff) as bv8 | 0xe0, ((u >> 6) & 0x3f) as bv8 | 0x80, (u & 0x3f) as bv8 | 0x80;
      && !IsExtension(a) && 0xe0 <= a < 0xf0 && IsExtension(b) && IsExtension(c)
      && ShiftAndMask(ShiftAndMask((a & 0x0f) as bv32, b), c) == u as bv32
    ensures !(u > 0x07ff) && (u > 0x7f || u == 0) ==>
      var a, b := ((u >> 6) & 0xff) as bv8 | 0xc0, (u & 0x3f) as bv8 | 0x80;
      && !IsExtension(a) && 0xc0 <= a < 0xe0 && IsExtension(b)
      && ShiftAndMask((a & 0x1f) as bv32, b) == u as bv32
    ensures 0 < u <= 0x7f ==>
      !IsExtension(u as bv8) && u as bv8 < 0xc0 && (u as bv8 & 0xff) as bv32 == u as bv32
  {
  }

  lemma UnitIsComplete(u: bv16, rest: seq<bv8>)
    ensures var s := EncodeUnit(u) + rest;
      Complete(s) && Assembled(s) == u as bv32 && SeqLength(s[0]) == |EncodeUnit(u)|
  {
    UnitBytes(u);
    SeqLengthByRange(EncodeUnit(u)[0]);
    hide IsExtension, ShiftAndMask, SeqLength, Complete, Assembled;
    if u > 0x07ff {
      ThreeBytes(EncodeUnit(u)[0], EncodeUnit(u)[1], EncodeUnit(u)[2], rest);
    } else if u > 0x7f || u == 0 {
      TwoBytes(EncodeUnit(u)[0], EncodeUnit(u)[1], rest);
    } else {
      OneByte(u as bv8, rest);
    }
  }

  lemma UnitsOfUnit(u: bv16)
    ensures Units(u as bv32) == [u]
  {
  }

  /** A complete sequence at the head of a string is decoded as its value, and the rest after it. */
  lemma CompleteHead(b: seq<bv8>, rest: seq<bv8>, v: bv32)
    requires ZeroFree(b) && ZeroFree(rest)
    requires Complete(b + rest) && Assembled(b + rest) == v && SeqLength((b + rest)[0]) == |b|
    ensures ZeroFree(b + rest) && Decode(b + rest) == Units(v) + Decode(rest)
  {
    hide IsExtension, Assembled, GetUtf32, Decode, SeqLength, Units;
    var s := b + rest;
    CompleteDecodes(s);
    DecodeHead(s);
    assert s[|b|..] == rest;
  }

  lemma UnitHead(u: bv16, rest: seq<bv8>)
    requires ZeroFree(rest)
    ensures ZeroFree(EncodeUnit(u) + rest) && Decode(EncodeUnit(u) + rest) == [u] + Decode(rest)
  {
    EncodeUnitIsZeroFree(u);
    UnitIsComplete(u, rest);
    UnitsOfUnit(u);
    hide EncodeUnit, Complete, Assembled, Decode, SeqLength, Units;
    CompleteHead(EncodeUnit(u), rest, u as bv32);
  }

  /** strcpy8to16 undoes strncpy16to8: any units, zero and lone surrogates among them, come back. */
  lemma {:induction false} DecodeUndoesEncode(us: seq<bv16>)
    ensures ZeroFree(Encode(us)) && Decode(Encode(us)) == us
  {
    if us == [] {
      hide EncodeUnit, Units, GetUtf32;
    } else {
      hide EncodeUnit, Decode, ZeroFree;
      DecodeUndoesEncode(us[1..]);
      UnitHead(us[0], Encode(us[1..]));
    }
  }

  // ---------- Against the standards ----------

  /** Unicode scalar values. */
  predicate Scalar(v: bv32) {
    v < 0xd800 || 0xdfff < v <= 0x10ffff
  }

  /** Section 3 of RFC 3629. */
  function Utf8Of(v: bv32): (b: seq<bv8>)
    requires v <= 0x10ffff
    ensures 1 <= |b| <= 4
  {
    if v <= 0x7f then [(v & 0xff) as bv8]
    else if v <= 0x7ff then [0xc0 | ((v >> 6) & 0x1f) as bv8, 0x80 | (v & 0x3f) as bv8]
    else if v <= 0xffff then
      [0xe0 | ((v >> 12) & 0x0f) as bv8, 0x80 | ((v >> 6) & 0x3f) as bv8, 0x80 | (v & 0x3f) as bv8]
    else [0xf0 | ((v >> 18) & 0x07) as bv8, 0x80 | ((v >> 12) & 0x3f) as bv8,
          0x80 | ((v >> 6) & 0x3f) as bv8, 0x80 | (v & 0x3f) as bv8]
  }

  /** Section 2.1 of RFC 2781. */
  function Utf16Of(v: bv32): (us: seq<bv16>)
    requires v <= 0x10ffff
    ensures |us| == if v < 0x10000 then 1 else 2
  {
    if v < 0x10000 then [(v & 0xffff) as bv16]
    else
      var v' := v - 0x10000;
      [0xd800 | ((v' >> 10) & 0x3ff) as bv16, 0xdc00 | (v' & 0x3ff) as bv16]
  }

  /** Each unit is written as UTF-8 would write a value as large, in as few bytes, except that zero takes two. */
  lemma UnitsAreWrittenAsUtf8(u: bv16)
    ensures EncodeUnit(u) == if u == 0 then [0xc0, 0x80] else Utf8Of(u as bv32)
  {
    if u > 0x07ff {
      LargeUnit(u);
    } else if u > 0x7f {
      MediumUnit(u);
    } else {
      assert (u as bv32 & 0xff) as bv8 == u as bv8;
    }
  }

  lemma LargeUnit(u: bv16)
    requires u > 0x07ff
    ensures 0x7ff < u as bv32 <= 0xffff && EncodeUnit(u)[0] == 0xe0 | ((u as bv32 >> 12) & 0x0f) as bv8
    ensures EncodeUnit(u)[1] == 0x80 | ((u as bv32 >> 6) & 0x3f) as bv8
    ensures EncodeUnit(u)[2] == 0x80 | (u as bv32 & 0x3f) as bv8
  {
  }

  lemma MediumUnit(u: bv16)
    requires 0x7f < u <= 0x07ff
    ensures 0x7f < u as bv32 <= 0x7ff && EncodeUnit(u)[0] == 0xc0 | ((u as bv32 >> 6) & 0x1f) as bv8
    ensures EncodeUnit(u)[1] == 0x80 | (u as bv32 & 0x3f) as bv8
  {
  }

  predicate Text(vs: seq<bv32>) {
    forall i :: 0 <= i < |vs| ==> Scalar(vs[i]) && vs[i] != 0
  }

  function Utf8(vs: seq<bv32>): seq<bv8>
    requires Text(vs)
  {
    if vs == [] then [] else Utf8Of(vs[0]) + Utf8(vs[1..])
  }

  function Utf16(vs: seq<bv32>): seq<bv16>
    requires Text(vs)
  {
    if vs == [] then [] else Utf16Of(vs[0]) + Utf16(vs[1..])
  }

  lemma OneByteScalar(v: bv32)
    requires 0 < v <= 0x7f
    ensures var a := (v & 0xff) as bv8; !IsExtension(a) && 0 < a < 0xc0 && (a & 0xff) as bv32 == v
  {
  }

  lemma TwoByteScalar(v: bv32)
    requires 0x7f < v <= 0x7ff
    ensures var a, b := 0xc0 | ((v >> 6) & 0x1f) as bv8, 0x80 | (v & 0x3f) as bv8;
      !IsExtension(a) && 0xc0 <= a < 0xe0 && IsExtension(b) && b != 0 && ShiftAndMask((a & 0x1f) as bv32, b) == v
  {
  }

  lemma ThreeByteScalar(v: bv32)
    requires 0x7ff < v <= 0xffff
    ensures var a, b, c := 0xe0 | ((v >> 12) & 0x0f) as bv8, 0x80 | ((v >> 6) & 0x3f) as bv8, 0x80 | (v & 0x3f) as bv8;
      && !IsExtension(a) && 0xe0 <= a < 0xf0 && IsExtension(b) && IsExtension(c) && b != 0 && c != 0
      && ShiftAndMask(ShiftAndMask((a & 0x0f) as bv32, b), c) == v
  {
  }

  lemma FourByteScalar(v: bv32)
    requires 0xffff < v <= 0x10ffff
    ensures var a, b := 0xf0 | ((v >> 18) & 0x07) as bv8, 0x80 | ((v >> 12) & 0x3f) as bv8;
      var c, d := 0x80 | ((v >> 6) & 0x3f) as bv8, 0x80 | (v & 0x3f) as bv8;
      && !IsExtension(a) && 0xf0 <= a && IsExtension(b) && IsExtension(c) && IsExtension(d)
      && b != 0 && c != 0 && d != 0
      && ShiftAndMask(ShiftAndMask(ShiftAndMask((a & 0x07) as bv32, b), c), d) == v
  {
  }

  /** The standard bytes of a value, under names. */
  lemma Utf8Shape(v: bv32) returns (a: bv8, b: bv8, c: bv8, d: bv8)
    requires 0 < v <= 0x10ffff
    ensures v <= 0x7f ==>
      Utf8Of(v) == [a] && !IsExtension(a) && 0 < a < 0xc0 && (a & 0xff) as bv32 == v
    ensures 0x7f < v <= 0x7ff ==>
      Utf8Of(v) == [a, b] && !IsExtension(a) && 0xc0 <= a < 0xe0 && IsExtension(b) && b != 0 &&
      ShiftAndMask((a & 0x1f) as bv32, b) == v
    ensures 0x7ff < v <= 0xffff ==>
      Utf8Of(v) == [a, b, c] && !IsExtension(a) && 0xe0 <= a < 0xf0 && IsExtension(b) && IsExtension(c) &&
      b != 0 && c != 0 && ShiftAndMask(ShiftAndMask((a & 0x0f) as bv32, b), c) == v
    ensures 0xffff < v ==>
      Utf8Of(v) == [a, b, c, d] && !IsExtension(a) && 0xf0 <= a && IsExtension(b) && IsExtension(c) &&
      IsExtension(d) && b != 0 && c != 0 && d != 0 &&
      ShiftAndMask(ShiftAndMask(ShiftAndMask((a & 0x07) as bv32, b), c), d) == v
  {
    hide IsExtension, ShiftAndMask;
    var u := Utf8Of(v);
    a, b, c, d := u[0], 0, 0, 0;
    if v <= 0x7f {
      OneByteScalar(v);
    } else if v <= 0x7ff {
      b := u[1];
      TwoByteScalar(v);
    } else if v <= 0xffff {
      b, c := u[1], u[2];
      ThreeByteScalar(v);
    } else {
      b, c, d := u[1], u[2], u[3];
      FourByteScalar(v);
    }
  }

  lemma ScalarIsComplete(v: bv32, rest: seq<bv8>)
    requires Scalar(v) && v != 0
    ensures ZeroFree(Utf8Of(v))
    ensures var s := Utf8Of(v) + rest;
      Complete(s) && Assembled(s) == v && SeqLength(s[0]) == |Utf8Of(v)| && !IsExtension(s[0])
  {
    var a, b, c, d := Utf8Shape(v);
    SeqLengthByRange(a);
    hide IsExtension, ShiftAndMask, SeqLength, Complete, Assembled, Utf8Of;
    if v <= 0x7f {
      OneByte(a, rest);
    } else if v <= 0x7ff {
      TwoBytes(a, b, rest);
    } else if v <= 0xffff {
      ThreeBytes(a, b, c, rest);
    } else {
      FourBytes(a, b, c, d, rest);
    }
  }

  /** What the decoder writes for a value: the standard units, or one replacement above the limit. */
  function Written(v: bv32): seq<bv16>
    requires v <= 0x10ffff
  {
    if v > UNICODE_UPPER_LIMIT then [0xfffd] else Utf16Of(v)
  }

  lemma UnitsOfScalar(v: bv32)
    requires v <= 0x10ffff
    ensures Units(v) == Written(v)
  {
  }

  function WrittenAll(vs: seq<bv32>): seq<bv16>
    requires Text(vs)
  {
    if vs == [] then [] else Written(vs[0]) + WrittenAll(vs[1..])
  }

  lemma {:induction false} DecodesStandard(vs: seq<bv32>)
    requires Text(vs)
    ensures ZeroFree(Utf8(vs)) && Decode(Utf8(vs)) == WrittenAll(vs)
  {
    if vs != [] {
      DecodesStandard(vs[1..]);
      ScalarIsComplete(vs[0], Utf8(vs[1..]));
      UnitsOfScalar(vs[0]);
      hide Complete, Utf8Of, Units, Decode, SeqLength, Assembled, Written, IsExtension, ZeroFree;
      CompleteHead(Utf8Of(vs[0]), Utf8(vs[1..]), vs[0]);
    }
  }

  lemma {:induction false} WrittenIsStandardUnless(vs: seq<bv32>)
    requires Text(vs)
    ensures |WrittenAll(vs)| <= |Utf16(vs)|
    ensures |WrittenAll(vs)| == |Utf16(vs)| ==> forall i :: 0 <= i < |vs| ==> vs[i] <= UNICODE_UPPER_LIMIT
    ensures (forall i :: 0 <= i < |vs| ==> vs[i] <= UNICODE_UPPER_LIMIT) ==> WrittenAll(vs) == Utf16(vs)
  {
    if vs != [] {
      WrittenIsStandardUnless(vs[1..]);
      assert forall i :: 0 <= i < |vs[1..]| ==> vs[1..][i] == vs[i + 1];
      assert forall i :: 1 <= i < |vs| ==> vs[i] == vs[1..][i - 1];
    }
  }

  /** The UTF-8 of any text without U+0000 decodes to its UTF-16 exactly when it holds neither U+10FFFE nor
      U+10FFFF, the two scalar values above UNICODE_UPPER_LIMIT. */
  lemma StandardTextSurvives(vs: seq<bv32>)
    requires Text(vs)
    ensures ZeroFree(Utf8(vs))
    ensures Decode(Utf8(vs)) == Utf16(vs) <==> forall i :: 0 <= i < |vs| ==> vs[i] <= UNICODE_UPPER_LIMIT
  {
    DecodesStandard(vs);
    WrittenIsStandardUnless(vs);
    hide Decode, Utf8, WrittenAll, Utf16, ZeroFree;
  }

  /** Four bytes for a scalar value go with two units. */
  lemma ScalarPair(v: bv32, rest: seq<bv8>)
    requires Scalar(v) && v != 0
    ensures AnnouncesFour((Utf8Of(v) + rest)[0]) <==> |Utf16Of(v)| == 2
  {
    ScalarIsComplete(v, rest);
    hide IsExtension, SeqLength, Complete, Assembled, ZeroFree;
  }

  lemma ScalarPredicted(v: bv32, rest: seq<bv8>)
    requires Scalar(v) && v != 0 && ZeroFree(rest)
    ensures Predict(Utf8Of(v) + rest, 0) == |Utf16Of(v)| + Predict(rest, 0)
  {
    ScalarIsComplete(v, rest);
    ScalarPair(v, rest);
    var s := Utf8Of(v) + rest;
    assert ZeroFree(s);
    hide IsExtension, GetUtf32, Predict, Units, Complete, SeqLength, Assembled, ZeroFree, StartsPair, Utf8Of, Utf16Of;
    CompleteDecodes(s);
    DecodeStepFits(s, 0);
    assert s[|Utf8Of(v)|..] == rest;
  }

  /** strlen8to16 is the standard length even then. */
  lemma {:induction false} StandardLengthPredicted(vs: seq<bv32>)
    requires Text(vs)
    ensures Predict(Utf8(vs), 0) == |Utf16(vs)|
  {
    if vs != [] {
      hide Predict, Utf8Of, Utf16Of, Decode, ZeroFree;
      StandardLengthPredicted(vs[1..]);
      DecodesStandard(vs[1..]);
      ScalarPredicted(vs[0], Utf8(vs[1..]));
    }
  }
}
