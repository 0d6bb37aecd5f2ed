/** Byte-order conversion of include/ByteOrder.h: integers in host memory and on the wire. */
module ByteOrder {
  import opened Bytes

  function Pow256(w: nat): (p: int)
    ensures p > 0
  {
    if w == 0 then 1 else 256 * Pow256(w - 1)
  }

  // The w low-order bytes of x in two's complement, most significant first.
  function BigEndian(x: int, w: nat): (s: seq<byte>)
    ensures |s| == w
    decreases w
  {
    if w == 0 then [] else BigEndian(x / 256, w - 1) + [x % 256]
  }

  function Unsigned(s: seq<byte>): (n: nat)
    ensures n < Pow256(|s|)
  {
    if s == [] then 0 else 256 * Unsigned(s[..|s| - 1]) + s[|s| - 1]
  }

  function Signed(s: seq<byte>): int {
    var n := Unsigned(s);
    if 2 * n >= Pow256(|s|) then n - Pow256(|s|) else n
  }

  function Reverse(s: seq<byte>): (r: seq<byte>)
    ensures |r| == |s|
    ensures forall i :: 0 <= i < |s| ==> r[i] == s[|s| - 1 - i]
  {
    seq(|s|, i requires 0 <= i < |s| => s[|s| - 1 - i])
  }

  // ---------- Host memory ----------

  // The w bytes of the integer v as they lie in memory.
  function Memory(littleEndian: bool, v: int, w: nat): (s: seq<byte>)
    ensures |s| == w
  {
    if littleEndian then Reverse(BigEndian(v, w)) else BigEndian(v, w)
  }

  // The integer whose memory is s.
  function FromMemory(littleEndian: bool, s: seq<byte>): nat {
    if littleEndian then Unsigned(Reverse(s)) else Unsigned(s)
  }

  // The bytes of v in the opposite order.
  function ByteSwap(v: int, w: nat): nat {
    Unsigned(Reverse(BigEndian(v, w)))
  }

  // host_to_net and net_to_host are the same conversion.
  function HostToNet(littleEndian: bool, v: int, w: nat): int {
    if littleEndian then ByteSwap(v, w) else v
  }

  lemma ReverseTwice(s: seq<byte>)
    ensures Reverse(Reverse(s)) == s
  {
    assert forall i :: 0 <= i < |s| ==> Reverse(Reverse(s))[i] == s[i];
  }

  lemma {:induction false} BigEndianOfUnsigned(s: seq<byte>)
    ensures BigEndian(Unsigned(s), |s|) == s
  {
    if s != [] {
      var front := s[..|s| - 1];
      BigEndianOfUnsigned(front);
      assert Unsigned(s) / 256 == Unsigned(front);
      assert s == front + [s[|s| - 1]];
    }
  }

  // Whatever the host order, what reaches the buffer is big-endian.
  lemma HostToNetIsBigEndian(littleEndian: bool, v: int, w: nat)
    ensures Memory(littleEndian, HostToNet(littleEndian, v, w), w) == BigEndian(v, w)
  {
    if littleEndian {
      var s := BigEndian(v, w);
      BigEndianOfUnsigned(Reverse(s));
      ReverseTwice(s);
    }
  }

  lemma NetToHostReadsBigEndian(littleEndian: bool, s: seq<byte>)
    ensures littleEndian ==> HostToNet(true, FromMemory(true, s), |s|) == Unsigned(s)
    ensures !littleEndian ==> HostToNet(false, FromMemory(false, s), |s|) == Unsigned(s)
  {
    BigEndianOfUnsigned(Reverse(s));
    ReverseTwice(s);
  }

  // ---------- Round trips ----------

  lemma {:induction false} UnsignedOfBigEndian(x: int, w: nat)
    ensures Unsigned(BigEndian(x, w)) == x % Pow256(w)
    decreases w
  {
    if w == 0 {
    } else {
      var s := BigEndian(x, w);
      assert s[..w - 1] == BigEndian(x / 256, w - 1);
      UnsignedOfBigEndian(x / 256, w - 1);
      ModSplit(x, Pow256(w - 1));
    }
  }

  lemma ModSplit(x: int, p: int)
    requires p > 0
    ensures 256 * (x / 256 % p) + x % 256 == x % (256 * p)
  {
    var q, r := x / 256 / p, x / 256 % p;
    assert x / 256 == q * p + r;
    var low := 256 * r + x % 256;
    assert x == 256 * (q * p + r) + x % 256;
    assert x == q * (256 * p) + low;
    assert 0 <= low < 256 * p;
    ModUnique(x, 256 * p, q, low);
  }

  lemma MulAtLeast(k: int, m: int)
    requires m > 0
    ensures k >= 1 ==> k * m >= m
    ensures k <= -1 ==> k * m <= -m
  {
    if k >= 1 {
      assert k * m == (k - 1) * m + m && (k - 1) * m >= 0;
    } else if k <= -1 {
      assert k * m == (k + 1) * m - m && (k + 1) * m <= 0;
    }
  }

  lemma ModUnique(x: int, m: int, q: int, r: int)
    requires m > 0 && x == q * m + r && 0 <= r < m
    ensures x % m == r
  {
    var q' := x / m;
    assert x == q' * m + x % m;
    assert (q - q') * m == q * m - q' * m;
    MulAtLeast(q - q', m);
  }

  lemma DivUnique(x: int, m: int, q: int, r: int)
    requires m > 0 && x == q * m + r && 0 <= r < m
    ensures x / m == q
  {
    var q' := x / m;
    assert x == q' * m + x % m;
    assert (q - q') * m == q * m - q' * m;
    MulAtLeast(q - q', m);
  }

  lemma DivTwice(x: int, p: int)
    requires p > 0
    ensures x / 256 / p == x / (256 * p)
  {
    var q, r := x / 256 / p, x / 256 % p;
    assert x / 256 == q * p + r;
    var low := 256 * r + x % 256;
    assert x == 256 * (q * p + r) + x % 256;
    assert x == q * (256 * p) + low;
    DivUnique(x, 256 * p, q, low);
  }

  // Byte i counts multiples of the power of 256 that belongs to its place, the first byte
  // the highest.
  lemma {:induction false} MostSignificantFirst(x: int, w: nat, i: nat)
    requires i < w
    ensures BigEndian(x, w)[i] == x / Pow256(w - 1 - i) % 256
    decreases w
  {
    if i == w - 1 {
      assert Pow256(0) == 1;
    } else {
      MostSignificantFirst(x / 256, w - 1, i);
      DivTwice(x, Pow256(w - 2 - i));
    }
  }

  // ---------- Signed integers ----------

  // What is left of x in a two's complement integer with m values.
  function Wrapped(x: int, m: int): int
    requires m > 0
  {
    if 2 * (x % m) >= m then x % m - m else x % m
  }

  lemma SignedOfBigEndian(x: int, w: nat)
    ensures Signed(BigEndian(x, w)) == Wrapped(x, Pow256(w))
  {
    hide BigEndian, Unsigned, Pow256;
    UnsignedOfBigEndian(x, w);
  }

  lemma WrappedInRange(x: int, m: int)
    requires m > 0
    ensures -m <= 2 * Wrapped(x, m) < m
  {
    ModRange(x, m);
  }

  lemma ModRange(x: int, m: int)
    requires m > 0
    ensures 0 <= x % m < m
  {
  }

  lemma WrappedInside(x: int, m: int)
    requires m > 0 && -m <= 2 * x < m
    ensures Wrapped(x, m) == x
  {
    if x >= 0 {
      ModUnique(x, m, 0, x);
    } else {
      ModUnique(x, m, -1, x + m);
    }
  }

  // A signed header of w bytes carries x exactly when x is in its range.
  lemma SignedRoundTrip(x: int, w: nat)
    ensures Signed(BigEndian(x, w)) == x <==> -Pow256(w) <= 2 * x < Pow256(w)
  {
    hide BigEndian, Unsigned, Pow256, Signed, Wrapped;
    SignedOfBigEndian(x, w);
    WrappedInRange(x, Pow256(w));
    if -Pow256(w) <= 2 * x < Pow256(w) {
      WrappedInside(x, Pow256(w));
    }
  }
}
