/** libshims/strdup16to8.cpp: UTF-16 units to Java's modified UTF-8 (section 4.4.7 of the Java Virtual
    Machine Specification), the length predictor that goes with it, and the allocating wrapper. */
module Utf16To8 {
  import opened Wrappers

  /** The bytes written for one unit; conversions to char keep the low eight bits. */
  function EncodeUnit(u: bv16): (b: seq<bv8>)
    ensures 1 <= |b| <= 3
  {
    if u > 0x07ff then
      [((u >> 12) & 0xff) as bv8 | 0xe0, ((u >> 6) & 0x3f) as bv8 | 0x80, (u & 0x3f) as bv8 | 0x80]
    else if u > 0x7f || u == 0 then
      [((u >> 6) & 0xff) as bv8 | 0xc0, (u & 0x3f) as bv8 | 0x80]
    else
      [u as bv8]
  }

  function Encode(us: seq<bv16>): seq<bv8> {
    if us == [] then [] else EncodeUnit(us[0]) + Encode(us[1..])
  }

  /** Units 0 and 0x80 and above are written with bytes that are never zero, and so are all others. */
  lemma {:induction false} EncodeIsZeroFree(us: seq<bv16>)
    ensures forall i :: 0 <= i < |Encode(us)| ==> Encode(us)[i] != 0
  {
    if us != [] {
      EncodeUnitIsZeroFree(us[0]);
      EncodeIsZeroFree(us[1..]);
    }
  }

  lemma EncodeUnitIsZeroFree(u: bv16)
    ensures forall i :: 0 <= i < |EncodeUnit(u)| ==> EncodeUnit(u)[i] != 0
  {
  }

  lemma {:induction false} EncodeAppend(us: seq<bv16>, u: bv16)
    ensures Encode(us + [u]) == Encode(us) + EncodeUnit(u)
  {
    if us == [] {
      assert us + [u] == [u];
    } else {
      assert (us + [u])[1..] == us[1..] + [u];
      EncodeAppend(us[1..], u);
    }
  }

  lemma {:induction false} EncodedLengths(us: seq<bv16>, n: nat)
    requires n <= |us|
    ensures |Encode(us[..n])| <= |Encode(us)| && |Encode(us[..n])| <= 3 * n
    ensures n < |us| ==> |Encode(us[..n])| + |EncodeUnit(us[n])| <= |Encode(us)|
  {
    if us == [] {
    } else if n == 0 {
      assert us[..0] == [];
    } else {
      EncodedLengths(us[1..], n - 1);
      assert us[..n][1..] == us[1..][..n - 1];
    }
  }

  function Min(a: nat, b: nat): nat {
    if a < b then a else b
  }

  /** The bytes of one unit, counted. */
  method CountUnit(uic: bv16) returns (n: nat)
    ensures n == |EncodeUnit(uic)|
  {
    if uic > 0x07ff {
      n := 3;
    } else if uic > 0x7f || uic == 0 {
      n := 2;
    } else {
      n := 1;
    }
  }

  /** The number of bytes strncpy16to8 will write before its terminator, or SIZE_MAX - 1 when that does
      not fit: sums of type size_t wrap, and the slow loop notices when they do. */
  method Strnlen16To8(us: seq<bv16>, sizeMax: nat) returns (utf8Len: nat)
    requires |us| <= sizeMax && 3 <= sizeMax
    ensures utf8Len == Min(|Encode(us)|, sizeMax - 1)
  {
    if |us| < (sizeMax - 1) / 3 {
      utf8Len := FastLength(us);
      EncodedLengths(us, |us|);
      assert us[..|us|] == us;
    } else {
      utf8Len := ParanoidLength(us, sizeMax);
    }
  }

  /** The usual case, in which nothing can wrap. */
  method FastLength(us: seq<bv16>) returns (utf8Len: nat)
    ensures utf8Len == |Encode(us)|
  {
    assert |Encode(us[..0])| == 0;
    hide Encode, EncodeUnit;
    utf8Len := 0;
    var i := 0;
    while i < |us|
      invariant i <= |us| && utf8Len == |Encode(us[..i])|
    {
      NextUnit(us, i);
      var n := CountUnit(us[i]);
      utf8Len := utf8Len + n;
      i := i + 1;
    }
    assert us[..i] == us;
  }

  method ParanoidLength(us: seq<bv16>, sizeMax: nat) returns (utf8Len: nat)
    requires 3 <= sizeMax
    ensures utf8Len == Min(|Encode(us)|, sizeMax - 1)
  {
    assert |Encode(us[..0])| == 0;
    hide Encode, EncodeUnit;
    utf8Len := 0;
    var i := 0;
    while i < |us|
      invariant i <= |us| && utf8Len == |Encode(us[..i])| <= sizeMax
    {
      NextUnit(us, i);
      var utf8Cur := utf8Len;
      var n := CountUnit(us[i]);
      utf8Len := (utf8Len + n) % (sizeMax + 1);
      WrapShows(utf8Cur, n, sizeMax);
      if utf8Len < utf8Cur {
        return sizeMax - 1;
      }
      i := i + 1;
    }
    assert us[..i] == us;
    if utf8Len == sizeMax {
      utf8Len := sizeMax - 1;
    }
  }

  lemma NextUnit(us: seq<bv16>, i: nat)
    requires i < |us|
    ensures |Encode(us[..i + 1])| == |Encode(us[..i])| + |EncodeUnit(us[i])| <= |Encode(us)|
    ensures |EncodeUnit(us[i])| == if us[i] > 0x07ff then 3 else if us[i] > 0x7f || us[i] == 0 then 2 else 1
    ensures |Encode(us[..i])| <= 3 * i
  {
    assert us[..i + 1] == us[..i] + [us[i]];
    EncodeAppend(us[..i], us[i]);
    EncodedLengths(us, i);
  }

  /** Adding 1, 2 or 3 wraps around exactly when the sum comes out smaller. */
  lemma WrapShows(cur: nat, add: nat, sizeMax: nat)
    requires cur <= sizeMax && 1 <= add <= 3 <= sizeMax
    ensures (cur + add) % (sizeMax + 1) == if cur + add <= sizeMax then cur + add else cur + add - sizeMax - 1
  {
  }

  /** The destination receives the encoding and its terminator, and nothing beyond. */
  method Strncpy16To8(utf8Str: array<bv8>, us: seq<bv16>)
    requires |Encode(us)| + 1 <= utf8Str.Length
    modifies utf8Str
    ensures utf8Str[..|Encode(us)|] == Encode(us) && utf8Str[|Encode(us)|] == 0
    ensures utf8Str[|Encode(us)| + 1..] == old(utf8Str[|Encode(us)| + 1..])
  {
    var cur, i := 0, 0;
    while i < |us|
      invariant i <= |us| && cur == |Encode(us[..i])| <= |Encode(us)|
      invariant utf8Str[..cur] == Encode(us[..i])
      invariant utf8Str[|Encode(us)| + 1..] == old(utf8Str[|Encode(us)| + 1..])
    {
      NextUnit(us, i);
      cur := PutUnit(utf8Str, cur, us[i], |Encode(us)|);
      assert us[..i + 1] == us[..i] + [us[i]];
      EncodeAppend(us[..i], us[i]);
      i := i + 1;
    }
    assert us[..i] == us;
    utf8Str[cur] := 0;
  }

  /** The body of the loop: the bytes of one unit, short of `limit`. */
  method PutUnit(utf8Str: array<bv8>, cur: nat, uic: bv16, ghost limit: nat) returns (next: nat)
    requires cur + |EncodeUnit(uic)| <= limit < utf8Str.Length
    modifies utf8Str
    ensures next == cur + |EncodeUnit(uic)|
    ensures utf8Str[..next] == old(utf8Str[..cur]) + EncodeUnit(uic)
    ensures utf8Str[limit + 1..] == old(utf8Str[limit + 1..])
  {
    next := cur;
    if uic > 0x07ff {
      utf8Str[next] := ((uic >> 12) & 0xff) as bv8 | 0xe0;
      utf8Str[next + 1] := ((uic >> 6) & 0x3f) as bv8 | 0x80;
      utf8Str[next + 2] := (uic & 0x3f) as bv8 | 0x80;
      next := next + 3;
    } else if uic > 0x7f || uic == 0 {
      utf8Str[next] := ((uic >> 6) & 0xff) as bv8 | 0xc0;
      utf8Str[next + 1] := (uic & 0x3f) as bv8 | 0x80;
      next := next + 2;
    } else {
      utf8Str[next] := uic as bv8;
      next := next + 1;
    }
  }

  /** strndup16to8: None stands for a null pointer, given or, when the string is too long or there is no
      memory, returned. Otherwise the new buffer is filled to its last byte. */
  method Strndup16To8(us: Option<seq<bv16>>, sizeMax: nat, memory: bool) returns (ret: Option<array<bv8>>)
    requires us.Some? ==> |us.value| <= sizeMax
    requires 3 <= sizeMax
    ensures ret.Some? <==> us.Some? && memory && |Encode(us.value)| < sizeMax - 1
    ensures ret.Some? ==> fresh(ret.value) && ret.value[..] == Encode(us.value) + [0]
  {
    ret := None;
    if us.None? {
      return;
    }
    var len := Strnlen16To8(us.value, sizeMax);
    if len >= sizeMax - 1 || !memory {
      return;
    }
    var buffer := new bv8[len + 1];
    Strncpy16To8(buffer, us.value);
    assert buffer[..] == buffer[..len] + [buffer[len]];
    ret := Some(buffer);
  }
}
