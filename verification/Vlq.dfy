/** Variable-length quantities: base 128, most significant group first, the high bit set
    on every byte but the last, and one subtracted for every group shifted out, so that
    every number has exactly one encoding. */
module Vlq {
  import opened Types
  import Arith

  // The bytes before the last one, for a number already shifted once.
  function HighBytes(m: nat): (s: seq<byte>)
    ensures |s| >= 1
  {
    if m <= 0x7f then [m + 0x80] else HighBytes(m / 128 - 1) + [m % 128 + 0x80]
  }

  function Encode(n: nat): (s: seq<byte>)
    ensures |s| >= 1
  {
    if n <= 0x7f then [n] else HighBytes(n / 128 - 1) + [n % 128]
  }

  predicate Terminated(s: seq<byte>) {
    |s| > 0 && s[|s| - 1] < 0x80 && forall i :: 0 <= i < |s| - 1 ==> s[i] >= 0x80
  }

  // What reading s as the leading bytes of a longer encoding has accumulated.
  function Accumulate(s: seq<byte>): nat {
    if s == [] then 0 else Accumulate(s[..|s| - 1]) * 128 + s[|s| - 1] % 128 + 1
  }

  function Value(s: seq<byte>): nat
    requires s != []
  {
    Accumulate(s[..|s| - 1]) * 128 + s[|s| - 1] % 128
  }

  /** Encoding and value are inverse bijections between numbers and terminated strings */

  lemma AccumulateLast(s: seq<byte>, b: byte)
    ensures Accumulate(s + [b]) == Accumulate(s) * 128 + b % 128 + 1
    ensures Value(s + [b]) == Accumulate(s) * 128 + b % 128
  {
    assert (s + [b])[..|s|] == s;
  }

  lemma {:induction false} HighBytesShape(m: nat)
    ensures forall i :: 0 <= i < |HighBytes(m)| ==> HighBytes(m)[i] >= 0x80
    ensures Accumulate(HighBytes(m)) == m + 1
  {
    hide Accumulate, Value;
    if m <= 0x7f {
      assert [m + 0x80] == [] + [m + 0x80];
      assert Accumulate([]) == 0 by { AccumulateNone([]); }
      AccumulateLast([], m + 0x80);
    } else {
      HighBytesShape(m / 128 - 1);
      assert (m % 128 + 0x80) % 128 == m % 128;
      AccumulateLast(HighBytes(m / 128 - 1), m % 128 + 0x80);
    }
  }

  lemma EncodeValue(n: nat)
    ensures Terminated(Encode(n)) && Value(Encode(n)) == n
  {
    hide Accumulate, Value;
    if n <= 0x7f {
      assert [n] == [] + [n];
      assert Accumulate([]) == 0 by { AccumulateNone([]); }
      AccumulateLast([], n);
    } else {
      HighBytesShape(n / 128 - 1);
      AccumulateLast(HighBytes(n / 128 - 1), n % 128);
    }
  }

  lemma {:induction false} HighBytesUnique(s: seq<byte>)
    requires s != [] && forall i :: 0 <= i < |s| ==> s[i] >= 0x80
    ensures Accumulate(s) >= 1 && HighBytes(Accumulate(s) - 1) == s
  {
    var t := s[..|s| - 1];
    var last: int := s[|s| - 1];
    assert s == t + [s[|s| - 1]];
    if t == [] {
      assert Accumulate(s) - 1 == last - 0x80;
    } else {
      HighBytesUnique(t);
      var m := Accumulate(s) - 1;
      assert m == Accumulate(t) * 128 + (last - 0x80);
      assert m / 128 == Accumulate(t) && m % 128 == last - 0x80;
    }
  }

  lemma ValueEncode(s: seq<byte>)
    requires Terminated(s)
    ensures Encode(Value(s)) == s
  {
    var t := s[..|s| - 1];
    var last: int := s[|s| - 1];
    assert s == t + [s[|s| - 1]];
    if t != [] {
      HighBytesUnique(t);
      assert Value(s) / 128 == Accumulate(t) && Value(s) % 128 == last;
    }
  }

  // No encoding is a proper prefix of another.
  lemma EncodePrefixFree(m: nat, n: nat, t: seq<byte>)
    requires Encode(m) == Encode(n) + t
    ensures m == n && t == []
  {
    EncodeValue(m);
    EncodeValue(n);
    var last := |Encode(n)| - 1;
    assert (Encode(n) + t)[last] == Encode(n)[last] < 0x80;
    assert |t| == 0;
    assert Encode(n) + t == Encode(n);
  }

  /** Reading */

  // How many bytes are read: up to and including the first without the high bit.
  function ReadSize(s: seq<byte>): (n: nat)
    ensures n <= |s| && (s != [] ==> n > 0)
  {
    if s == [] then 0 else if s[0] < 0x80 then 1 else 1 + ReadSize(s[1..])
  }

  // The number read, on unbounded integers; an unterminated string counts as the leading
  // part of an encoding.
  function ReadValue(s: seq<byte>): nat {
    var t := s[..ReadSize(s)];
    if t != [] && t[|t| - 1] < 0x80 then Value(t) else Accumulate(t)
  }

  lemma {:induction false} ReadSizeTerminated(s: seq<byte>, t: seq<byte>)
    requires Terminated(s)
    ensures ReadSize(s + t) == |s|
  {
    if s[0] >= 0x80 {
      assert (s + t)[1..] == s[1..] + t;
      ReadSizeTerminated(s[1..], t);
    }
  }

  // Whatever follows an encoding, it reads back.
  lemma ReadEncode(n: nat, t: seq<byte>)
    ensures ReadValue(Encode(n) + t) == n && ReadSize(Encode(n) + t) == |Encode(n)|
  {
    EncodeValue(n);
    ReadSizeTerminated(Encode(n), t);
    assert (Encode(n) + t)[..|Encode(n)|] == Encode(n);
  }

  lemma {:induction false} ReadSizeAt(s: seq<byte>, i: nat)
    requires i < |s| && s[i] < 0x80 && forall j :: 0 <= j < i ==> s[j] >= 0x80
    ensures ReadSize(s) == i + 1
  {
    if i > 0 {
      ReadSizeAt(s[1..], i - 1);
    }
  }

  lemma {:induction false} ReadSizeAll(s: seq<byte>)
    requires forall j :: 0 <= j < |s| ==> s[j] >= 0x80
    ensures ReadSize(s) == |s|
  {
    if s != [] {
      ReadSizeAll(s[1..]);
    }
  }

  // One round of the reader on 64-bit words is the unbounded one taken modulo 2^64.
  lemma WordStep(x: nat, n: nat, low: nat)
    requires n == x % TWO_64
    ensures (n * 128 % TWO_64 + low) % TWO_64 == (x * 128 + low) % TWO_64
  {
    var q, q2, y := x / TWO_64, n * 128 / TWO_64, n * 128 % TWO_64;
    assert x * 128 == (q * 128 + q2) * TWO_64 + y;
    ModShift(q * 128 + q2, y + low);
  }

  lemma WordIncrement(x: nat, n: nat)
    requires n == x % TWO_64
    ensures (n + 1) % TWO_64 == (x + 1) % TWO_64
  {
    ModShift(x / TWO_64, n + 1);
  }

  lemma ModShift(k: int, y: int)
    ensures (k * TWO_64 + y) % TWO_64 == y % TWO_64
  {
    Arith.DivModUnique(k * TWO_64 + y, TWO_64, k + y / TWO_64, y % TWO_64);
  }

  // The uint64 reader: shifting left drops the high bits, and the increment may wrap.
  method DeserializeVLQ(serialized: seq<byte>) returns (n: nat, size: nat)
    ensures n == ReadValue(serialized) % TWO_64
    ensures size == ReadSize(serialized)
  {
    hide Accumulate, Value, ReadValue, ReadSize;
    AccumulateNone(serialized);
    n, size := 0, 0;
    while size < |serialized|
      invariant size <= |serialized|
      invariant forall j :: 0 <= j < size ==> serialized[j] >= 0x80
      invariant n == Accumulate(serialized[..size]) % TWO_64
    {
      var val: int := serialized[size];
      ghost var before := Accumulate(serialized[..size]);
      WordStep(before, n, val % 128);
      ReadStep(serialized, size);
      n := (n * 128 % TWO_64 + val % 128) % TWO_64;
      size := size + 1;
      if val < 0x80 {
        return;
      }
      WordIncrement(before * 128 + val % 128, n);
      n := (n + 1) % TWO_64;
    }
    ReadAll(serialized);
  }

  lemma AccumulateNone(s: seq<byte>)
    ensures Accumulate(s[..0]) == 0 && s[..0] == []
  {
  }

  lemma ReadStep(s: seq<byte>, i: nat)
    requires i < |s| && forall j :: 0 <= j < i ==> s[j] >= 0x80
    ensures Accumulate(s[..i + 1]) == Accumulate(s[..i]) * 128 + s[i] % 128 + 1
    ensures s[i] < 0x80 ==> ReadSize(s) == i + 1 && ReadValue(s) == Accumulate(s[..i]) * 128 + s[i] % 128
  {
    assert s[..i + 1][..i] == s[..i];
    if s[i] < 0x80 {
      ReadSizeAt(s, i);
    }
  }

  lemma ReadAll(s: seq<byte>)
    requires forall j :: 0 <= j < |s| ==> s[j] >= 0x80
    ensures ReadSize(s) == |s| && ReadValue(s) == Accumulate(s[..|s|])
  {
    ReadSizeAll(s);
  }

  /** Writing */

  // serializeSizeVLQ predicts the length of the encoding.
  method SerializeSizeVLQ(n: nat) returns (size: nat)
    ensures size == |Encode(n)|
  {
    size := 1;
    var m := n;
    while m > 0x7f
      invariant size >= 1
      invariant size == 1 ==> m == n
      invariant size > 1 ==> |Encode(n)| == size - 1 + |HighBytes(m)|
      decreases m
    {
      m := m / 128 - 1;
      size := size + 1;
    }
  }

  // The bytes in the order they are produced, least significant first.
  function LowFirst(n: nat, first: bool): (s: seq<byte>)
    ensures |s| == if first then |Encode(n)| else |HighBytes(n)|
  {
    [n % 128 + if first then 0 else 0x80] + if n <= 0x7f then [] else LowFirst(n / 128 - 1, false)
  }

  lemma {:induction false} LowFirstMirrorsAt(n: nat, first: bool, i: nat)
    requires i < |LowFirst(n, first)|
    ensures LowFirst(n, first)[i] == (if first then Encode(n) else HighBytes(n))[|LowFirst(n, first)| - 1 - i]
    decreases i
  {
    hide LowFirst, Encode, HighBytes;
    LowFirstSplit(n, first);
    if i > 0 {
      LowFirstMirrorsAt(n / 128 - 1, false, i - 1);
    }
  }

  lemma LowFirstSplit(n: nat, first: bool)
    ensures var low, e := LowFirst(n, first), if first then Encode(n) else HighBytes(n);
      && |low| == |e| && low[0] == e[|e| - 1]
      && (n <= 0x7f ==> |low| == 1)
      && (n > 0x7f ==> low[1..] == LowFirst(n / 128 - 1, false) && e[..|e| - 1] == HighBytes(n / 128 - 1))
  {
  }

  lemma LowFirstMirrors(n: nat, first: bool)
    ensures forall i :: 0 <= i < |LowFirst(n, first)| ==>
      LowFirst(n, first)[i] == (if first then Encode(n) else HighBytes(n))[|LowFirst(n, first)| - 1 - i]
  {
    hide LowFirst, Encode, HighBytes;
    forall i: nat | i < |LowFirst(n, first)|
      ensures LowFirst(n, first)[i] == (if first then Encode(n) else HighBytes(n))[|LowFirst(n, first)| - 1 - i]
    {
      LowFirstMirrorsAt(n, first, i);
    }
  }

  // Replace the bytes of s from position i on by e.
  function Splice(s: seq<byte>, i: nat, e: seq<byte>): (r: seq<byte>)
    requires i + |e| <= |s|
    ensures |r| == |s|
  {
    s[..i] + e + s[i + |e|..]
  }

  lemma SpliceSplice(s: seq<byte>, i: nat, a: seq<byte>, b: seq<byte>)
    requires i + |a| + |b| <= |s|
    ensures Splice(Splice(s, i, a), i + |a|, b) == Splice(s, i, a + b)
  {
  }

  lemma SpliceAll(s: seq<byte>, e: seq<byte>)
    requires |s| == |e|
    ensures Splice(s, 0, e) == e
  {
  }

  lemma LowFirstStep(n: nat, first: bool)
    ensures LowFirst(n, first)[0] == n % 128 + if first then 0 else 0x80
    ensures LowFirst(n, first)[1..] == if n <= 0x7f then [] else LowFirst(n / 128 - 1, false)
  {
  }

  lemma SuffixStep(all: seq<byte>, j: nat, s: seq<byte>)
    requires j < |all| && all[j..] == s
    ensures all[j] == s[0] && all[j + 1..] == s[1..]
    ensures |s| == 1 ==> all[..j + 1] == all
  {
    assert all[j..][0] == all[j];
  }

  method PutLowFirst(target: array<byte>, off: nat, n: nat) returns (last: nat)
    requires off + |Encode(n)| <= target.Length
    modifies target
    ensures target[..] == Splice(old(target[..]), off, LowFirst(n, true))
    ensures last + 1 == |Encode(n)|
  {
    hide Splice, LowFirst, Encode, HighBytes;
    var m := n;
    last := 0;
    ghost var all := LowFirst(n, true);
    ghost var was := target[..];
    SpliceNone(was, off, all);
    while true
      invariant last < |all| == |Encode(n)|
      invariant target[..] == Splice(was, off, all[..last])
      invariant all[last..] == LowFirst(m, last == 0)
      decreases m
    {
      var mask := if last == 0 then 0 else 0x80;
      LowFirstStep(m, last == 0);
      SuffixStep(all, last, LowFirst(m, last == 0));
      SpliceNext(was, off, all, last);
      target[off + last] := m % 128 + mask;
      if m <= 0x7f {
        break;
      }
      m := m / 128 - 1;
      last := last + 1;
    }
  }

  lemma SpliceNone(s: seq<byte>, off: nat, e: seq<byte>)
    requires off <= |s|
    ensures Splice(s, off, e[..0]) == s
  {
  }

  lemma SpliceNext(s: seq<byte>, off: nat, e: seq<byte>, j: nat)
    requires off + |e| <= |s| && j < |e|
    ensures Splice(s, off, e[..j])[off + j := e[j]] == Splice(s, off, e[..j + 1])
  {
  }

  method ReverseRange(target: array<byte>, lo: nat, hi: nat)
    requires lo <= hi < target.Length
    modifies target
    ensures forall k :: 0 <= k < target.Length ==>
      target[k] == old(target[if lo <= k <= hi then lo + hi - k else k])
  {
    var i, j := lo, hi;
    while i < j
      invariant lo <= i <= j + 1 <= hi + 1 && i + j == lo + hi
      invariant forall k :: 0 <= k < target.Length ==>
        target[k] == old(target[if lo <= k < i || j < k <= hi then lo + hi - k else k])
    {
      target[i], target[j] := target[j], target[i];
      i, j := i + 1, j - 1;
    }
  }

  // putVLQ: write the groups least significant first, then reverse them in place.
  method PutVLQ(target: array<byte>, off: nat, n: nat) returns (size: nat)
    requires off + |Encode(n)| <= target.Length
    modifies target
    ensures size == |Encode(n)|
    ensures target[..] == Splice(old(target[..]), off, Encode(n))
  {
    hide Splice, LowFirst, Encode, HighBytes;
    var last := PutLowFirst(target, off, n);
    ghost var mid := target[..];
    ReverseRange(target, off, off + last);
    size := last + 1;
    LowFirstMirrors(n, true);
    MirrorSplice(old(target[..]), off, LowFirst(n, true), Encode(n), mid, target[..]);
  }

  lemma MirrorSplice(was: seq<byte>, off: nat, low: seq<byte>, e: seq<byte>, mid: seq<byte>, now: seq<byte>)
    requires |low| == |e| > 0 && off + |e| <= |was| && |now| == |was| && mid == Splice(was, off, low)
    requires forall i :: 0 <= i < |low| ==> low[i] == e[|low| - 1 - i]
    requires forall k :: 0 <= k < |was| ==>
      now[k] == mid[if off <= k <= off + |e| - 1 then off + (off + |e| - 1) - k else k]
    ensures now == Splice(was, off, e)
  {
    var r := Splice(was, off, e);
    forall k | 0 <= k < |now| ensures now[k] == r[k] {
      if off <= k < off + |e| {
        var i := |e| - 1 - (k - off);
        assert now[k] == mid[off + i] == low[i] == e[k - off];
      }
    }
  }
}
