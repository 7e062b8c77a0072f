/** Little-endian words and UTF-16 units in byte sequences. */
module LittleEndian {
  import opened Common

  type wchar = x: int | 0 <= x < 0x1_0000

  function Put16(v: wchar): Bytes { [v % 0x100, v / 0x100] }

  function Put32(v: uint32): Bytes {
    [v % 0x100, v / 0x100 % 0x100, v / 0x1_0000 % 0x100, v / 0x100_0000]
  }

  function Get16(b: Bytes): wchar
    requires |b| >= 2
  {
    b[0] as int + 0x100 * b[1] as int
  }

  function Get32(b: Bytes): uint32
    requires |b| >= 4
  {
    b[0] as int + 0x100 * b[1] as int + 0x1_0000 * b[2] as int + 0x100_0000 * b[3] as int
  }

  lemma Get32Put32(v: uint32, rest: Bytes)
    ensures |Put32(v)| == 4 && Get32(Put32(v) + rest) == v
  {
    assert v / 0x1_0000 == v / 0x100 / 0x100 && v / 0x100_0000 == v / 0x1_0000 / 0x100;
  }

  /** The bytes of a UTF-16 string. */
  function WideBytes(w: seq<wchar>): (b: Bytes)
    ensures |b| == 2 * |w|
  {
    if w == [] then [] else Put16(w[0]) + WideBytes(w[1..])
  }

  /** The UTF-16 units in a byte sequence; an odd last byte is left out. */
  function Units(b: Bytes): (w: seq<wchar>)
    ensures |w| == |b| / 2
  {
    if |b| < 2 then [] else [Get16(b)] + Units(b[2..])
  }

  lemma {:induction false} UnitsOfWide(w: seq<wchar>)
    ensures Units(WideBytes(w)) == w
  {
    if w != [] {
      assert WideBytes(w)[2..] == WideBytes(w[1..]);
      UnitsOfWide(w[1..]);
    }
  }

  lemma {:induction false} WideAppend(x: seq<wchar>, y: seq<wchar>)
    ensures WideBytes(x + y) == WideBytes(x) + WideBytes(y)
  {
    if x == [] {
      assert x + y == y;
    } else {
      assert (x + y)[1..] == x[1..] + y;
      WideAppend(x[1..], y);
    }
  }

  /** _wcsnlen over all whole units: how many come before the first NUL. */
  function WideLength(b: Bytes): (n: nat)
    ensures 2 * n <= |b|
    ensures 2 * n + 2 <= |b| ==> Get16(b[2 * n..]) == 0
  {
    if |b| < 2 || Get16(b) == 0 then 0
    else
      var n := WideLength(b[2..]);
      assert b[2..][2 * n..] == b[2 * (n + 1)..];
      n + 1
  }

  /** A NUL-free string followed by a NUL is found whole. */
  lemma {:induction false} WideLengthTerminated(w: seq<wchar>, rest: Bytes)
    requires 0 !in w
    ensures WideLength(WideBytes(w) + [0, 0] + rest) == |w|
  {
    var b := WideBytes(w) + [0, 0] + rest;
    if w == [] {
      assert Get16(b) == 0;
    } else {
      assert w[0] in w && Get16(b) == w[0];
      assert b[2..] == WideBytes(w[1..]) + [0, 0] + rest;
      WideLengthTerminated(w[1..], rest);
    }
  }

  method FindWideLength(b: Bytes) returns (n: nat)
    ensures n == WideLength(b)
  {
    n := 0;
    while 2 * n + 2 <= |b| && Get16(b[2 * n..]) != 0
      invariant 2 * n <= |b|
      invariant WideLength(b) == n + WideLength(b[2 * n..])
    {
      assert b[2 * n..][2..] == b[2 * (n + 1)..];
      n := n + 1;
    }
  }

  function Zeros(n: nat): (z: Bytes)
    ensures |z| == n && forall k :: 0 <= k < n ==> z[k] == 0
  {
    seq(n, i => 0)
  }
}
