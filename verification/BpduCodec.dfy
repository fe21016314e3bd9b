/**
 Configuration and TCN messages on the wire: a 38-byte layout written byte by byte, the parser
 on the other side, and what the conversion of times to 1/256 second ticks does to them.
 */
module BpduCodec {
  import opened Basics
  import opened BridgeTypes

  // ----- big-endian numbers -----------------------------------------------------------------

  function Pow256(n: nat): (r: int)
    ensures r >= 1
  {
    if n == 0 then 1 else 256 * Pow256(n - 1)
  }

  /** The n low bytes of v, most significant first. */
  function Bytes(v: int, n: nat): (s: seq<byte>)
    ensures |s| == n
    decreases n
  {
    if n == 0 then [] else Bytes(v / 256, n - 1) + [v % 256]
  }

  /** The number that bytes spell, most significant byte first. */
  function Number(bytes: seq<byte>): (v: int)
    ensures 0 <= v < Pow256(|bytes|)
  {
    if bytes == [] then 0
    else Number(bytes[..|bytes| - 1]) * 256 + bytes[|bytes| - 1]
  }

  lemma {:induction false} NumberOfBytes(v: int, n: nat)
    requires 0 <= v < Pow256(n)
    ensures Number(Bytes(v, n)) == v
    decreases n
  {
    if n > 0 {
      NumberOfBytes(v / 256, n - 1);
      assert Bytes(v, n)[..n - 1] == Bytes(v / 256, n - 1);
    }
  }

  lemma {:induction false} BytesOfNumber(bytes: seq<byte>)
    ensures Bytes(Number(bytes), |bytes|) == bytes
    decreases |bytes|
  {
    if bytes != [] {
      var n := |bytes| - 1;
      var v, w := Number(bytes), Number(bytes[..n]);
      BytesOfNumber(bytes[..n]);
      assert v == w * 256 + bytes[n];
      assert v / 256 == w && v % 256 == bytes[n];
      assert Bytes(v, n + 1) == Bytes(w, n) + [bytes[n]];
      assert bytes == bytes[..n] + [bytes[n]];
    }
  }

  function Memcmp(s: seq<byte>, t: seq<byte>): int
    requires |s| == |t|
  {
    if s == [] then 0 else if s[0] != t[0] then s[0] - t[0] else Memcmp(s[1..], t[1..])
  }

  lemma {:induction false} MemcmpLast(s: seq<byte>, t: seq<byte>)
    requires |s| == |t| > 0
    ensures var n := |s| - 1;
            Memcmp(s, t) == if Memcmp(s[..n], t[..n]) != 0 then Memcmp(s[..n], t[..n]) else s[n] as int - t[n] as int
    decreases |s|
  {
    var n := |s| - 1;
    if n > 0 && s[0] == t[0] {
      MemcmpLast(s[1..], t[1..]);
      assert s[1..][..n - 1] == s[..n][1..] && t[1..][..n - 1] == t[..n][1..];
    }
  }

  /** Comparing identifiers byte by byte is comparing the numbers they spell. */
  lemma {:induction false} MemcmpComparesNumbers(s: seq<byte>, t: seq<byte>)
    requires |s| == |t|
    ensures Memcmp(s, t) < 0 <==> Number(s) < Number(t)
    ensures Memcmp(s, t) == 0 <==> Number(s) == Number(t)
    decreases |s|
  {
    if s != [] {
      var n := |s| - 1;
      MemcmpLast(s, t);
      MemcmpComparesNumbers(s[..n], t[..n]);
    }
  }

  lemma QuotientUnique(v: int, d: int, q: int, r: int)
    requires d > 0 && v == q * d + r && 0 <= r < d
    ensures v / d == q && v % d == r
  {
    var q', r' := v / d, v % d;
    assert v == q' * d + r';
    if q' < q {
      ProductGrows(q' + 1, q, d);
      assert false;
    } else if q < q' {
      ProductGrows(q + 1, q', d);
      assert false;
    }
  }

  // ----- times ------------------------------------------------------------------------------

  /** C division of an int by a positive constant rounds towards zero. */
  function QuotientTowardsZero(v: int, d: int): int
    requires d > 0
  {
    if v >= 0 then v / d else -(-v / d)
  }

  /** The 16-bit tick count written for a time in jiffies. */
  function TicksFor(jiffies: int, hz: nat): int
    requires hz > 0
  {
    QuotientTowardsZero(jiffies * 256, hz) % 0x1_0000
  }

  function JiffiesFor(ticks: nat, hz: nat): int {
    (ticks * hz) / 256
  }

  /** What the receiver makes of a time. */
  function Relayed(jiffies: int, hz: nat): int
    requires hz > 0
  {
    JiffiesFor(TicksFor(jiffies, hz), hz)
  }

  /** The time fits the 16-bit tick field. */
  predicate FitsTicks(jiffies: int, hz: nat) {
    0 <= jiffies && jiffies * 256 < 0x1_0000 * hz
  }

  /** A time comes back unchanged if it is a whole number of ticks, and one jiffy short if not. */
  lemma RelayedIs(j: int, hz: nat)
    requires 0 < hz <= 256 && FitsTicks(j, hz)
    ensures Relayed(j, hz) == if (j * 256) % hz == 0 then j else j - 1
  {
    var q, r := (j * 256) / hz, (j * 256) % hz;
    assert j * 256 == q * hz + r;
    if q >= 0x1_0000 {
      ProductGrows(0x1_0000, q, hz);
      assert false;
    }
    assert TicksFor(j, hz) == q;
    assert q * hz == j * 256 - r;
  }

  /** A number without its factors of two. */
  function OddPart(hz: nat): (u: nat)
    requires hz > 0
    ensures u > 0 && u % 2 == 1 && u <= hz
  {
    if hz % 2 == 0 then OddPart(hz / 2) else hz
  }

  lemma MultipleMod(u: int, k: int)
    requires u > 0
    ensures (u * k) % u == 0
  {
    QuotientUnique(u * k, u, k, 0);
  }

  lemma DoubleOfMultiple(u: int, x: int)
    requires u > 0 && x % u == 0
    ensures (2 * x) % u == 0
  {
    var q := x / u;
    assert x == u * q;
    assert 2 * x == u * (2 * q);
    MultipleMod(u, 2 * q);
  }

  lemma HalfOfMultiple(u: int, x: int)
    requires u > 0 && u % 2 == 1 && (2 * x) % u == 0
    ensures x % u == 0
  {
    var q, a := (2 * x) / u, u / 2;
    assert 2 * x == u * q;
    assert u * q == (2 * a + 1) * q == 2 * (a * q) + q;
    assert q == 2 * (x - a * q);
    var h := x - a * q;
    assert x == u * h by {
      assert 2 * x == u * (2 * h) == 2 * (u * h);
    }
    MultipleMod(u, h);
  }

  lemma OddDividesDouble(u: int, x: int)
    requires u > 0 && u % 2 == 1
    ensures (2 * x) % u == 0 <==> x % u == 0
  {
    if x % u == 0 {
      DoubleOfMultiple(u, x);
    }
    if (2 * x) % u == 0 {
      HalfOfMultiple(u, x);
    }
  }

  lemma HalfMod(x: int, h: int)
    requires h > 0
    ensures (2 * x) % (2 * h) == 0 <==> x % h == 0
  {
    var q, r := x / h, x % h;
    assert x == q * h + r;
    assert 2 * x == q * (2 * h) + 2 * r;
    QuotientUnique(2 * x, 2 * h, q, 2 * r);
  }

  /** hz divides 2^e times j exactly when its odd part divides j, provided 2^e is no smaller. */
  lemma {:induction false} OddPartDecides(e: nat, hz: nat, j: int)
    requires 0 < hz <= Pow2(e)
    ensures (Pow2(e) * j) % hz == 0 <==> j % OddPart(hz) == 0
    decreases e
  {
    if e > 0 {
      var half := Pow2(e - 1) * j;
      assert Pow2(e) * j == 2 * half;
      if hz % 2 == 0 {
        HalfMod(half, hz / 2);
        OddPartDecides(e - 1, hz / 2, j);
      } else {
        OddDividesDouble(hz, half);
        OddPowerDecides(e - 1, hz, j);
      }
    }
  }

  lemma {:induction false} OddPowerDecides(e: nat, u: nat, j: int)
    requires u > 0 && u % 2 == 1
    ensures (Pow2(e) * j) % u == 0 <==> j % u == 0
    decreases e
  {
    if e > 0 {
      var half := Pow2(e - 1) * j;
      assert Pow2(e) * j == 2 * half;
      OddDividesDouble(u, half);
      OddPowerDecides(e - 1, u, j);
    }
  }

  lemma RelayByOddPart(j: int, hz: nat)
    requires 0 < hz <= 256 && FitsTicks(j, hz)
    ensures Relayed(j, hz) == if j % OddPart(hz) == 0 then j else j - 1
  {
    RelayedIs(j, hz);
    assert Pow2(8) == 256 by {
      assert Pow2(4) == 16;
    }
    OddPartDecides(8, hz, j);
  }

  function RelayedTimes(j: int, hz: nat, k: nat): int
    requires hz > 0
  {
    if k == 0 then j else Relayed(RelayedTimes(j, hz, k - 1), hz)
  }

  lemma ModWithin(j: int, u: int, i: int)
    requires u > 0 && j - j % u <= i <= j
    ensures i % u == i - (j - j % u)
  {
    var q := j / u;
    assert j == q * u + j % u;
    QuotientUnique(i, u, q, i - (j - j % u));
  }

  lemma {:induction false} ChainByOddPart(j: int, hz: nat, k: nat)
    requires 0 < hz <= 256 && FitsTicks(j, hz)
    ensures var low := j - j % OddPart(hz);
            RelayedTimes(j, hz, k) == if j - k >= low then j - k else low
    ensures j - k <= RelayedTimes(j, hz, k) <= j && FitsTicks(RelayedTimes(j, hz, k), hz)
    decreases k
  {
    var u := OddPart(hz);
    var low := j - j % u;
    LowIsNatural(j, u);
    if k > 0 {
      ChainByOddPart(j, hz, k - 1);
      var i := RelayedTimes(j, hz, k - 1);
      RelayByOddPart(i, hz);
      ModWithin(j, u, i);
    }
  }

  lemma LowIsNatural(j: int, u: int)
    requires j >= 0 && u > 0
    ensures 0 <= j - j % u <= j
  {
    var q := j / u;
    assert j == q * u + j % u && q >= 0;
    ProductGrows(0, q, u);
  }

  // ----- the greatest common divisor with 256 -----------------------------------------------

  predicate Divides(d: nat, x: nat) {
    d > 0 && x % d == 0
  }

  ghost predicate IsGcd(g: nat, a: nat, b: nat) {
    Divides(g, a) && Divides(g, b) && forall d: nat | Divides(d, a) && Divides(d, b) :: d <= g
  }

  /** The factors of two of a number. */
  function Twos(x: nat): (g: nat)
    requires x > 0
    ensures g > 0
  {
    if x % 2 == 0 then 2 * Twos(x / 2) else 1
  }

  lemma {:induction false} TwosTimesOdd(x: nat)
    requires x > 0
    ensures Twos(x) * OddPart(x) == x
  {
    if x % 2 == 0 {
      TwosTimesOdd(x / 2);
      assert 2 * Twos(x / 2) * OddPart(x) == 2 * (Twos(x / 2) * OddPart(x / 2));
    }
  }

  lemma {:induction false} TwosDividePower(e: nat, x: nat)
    requires 0 < x <= Pow2(e)
    ensures Divides(Twos(x), Pow2(e))
    decreases e
  {
    if e > 0 && x % 2 == 0 {
      TwosDividePower(e - 1, x / 2);
      HalfMod(Pow2(e - 1), Twos(x / 2));
    }
  }

  lemma EvenMultiple(h: nat, x: nat)
    requires h > 0 && x % (2 * h) == 0
    ensures x % 2 == 0
  {
    var q := x / (2 * h);
    assert x == 2 * h * q == 2 * (h * q);
  }

  /** A common divisor with a power of two is at most the factors of two. */
  lemma {:induction false} CommonDivisor(e: nat, x: nat, d: nat)
    requires x > 0 && Divides(d, x) && Divides(d, Pow2(e))
    ensures d <= Twos(x)
    decreases e
  {
    if d % 2 == 1 {
      OddPowerDecides(e, d, 1);
      assert d == 1;
    } else {
      var h := d / 2;
      assert e > 0;
      EvenMultiple(h, x);
      HalfMod(x / 2, h);
      HalfMod(Pow2(e - 1), h);
      CommonDivisor(e - 1, x / 2, h);
    }
  }

  /** What hz / gcd(hz, 256) is. */
  lemma GcdLeavesOddPart(hz: nat, g: nat)
    requires 0 < hz <= 256 && IsGcd(g, hz, 256)
    ensures g == Twos(hz) && hz / g == OddPart(hz)
  {
    hide Twos, OddPart;
    GcdIsTwos(hz);
    TwosTimesOdd(hz);
    QuotientUnique(hz, g, OddPart(hz), 0);
  }

  lemma GcdIsTwos(hz: nat)
    requires 0 < hz <= 256
    ensures IsGcd(Twos(hz), hz, 256)
  {
    hide Twos, OddPart;
    assert Pow2(8) == 256 by { assert Pow2(4) == 16; }
    TwosTimesOdd(hz);
    MultipleMod(Twos(hz), OddPart(hz));
    TwosDividePower(8, hz);
    forall d: nat | Divides(d, hz) && Divides(d, 256)
      ensures d <= Twos(hz)
    {
      CommonDivisor(8, hz, d);
    }
  }

  /** One relay keeps a time exactly when it is a multiple of hz / gcd(hz, 256). */
  lemma RelayExactIff(j: int, hz: nat, g: nat)
    requires 0 < hz <= 256 && FitsTicks(j, hz) && IsGcd(g, hz, 256)
    ensures hz / g > 0 && Relayed(j, hz) == if j % (hz / g) == 0 then j else j - 1
  {
    GcdLeavesOddPart(hz, g);
    RelayByOddPart(j, hz);
  }

  /** After k relays a time has lost one jiffy per relay, but never drops below the last whole
      multiple of hz / gcd(hz, 256). */
  lemma RelayChain(j: int, hz: nat, g: nat, k: nat)
    requires 0 < hz <= 256 && FitsTicks(j, hz) && IsGcd(g, hz, 256)
    ensures hz / g > 0
    ensures var low := j - j % (hz / g);
            RelayedTimes(j, hz, k) == if j - k >= low then j - k else low
    ensures j - k <= RelayedTimes(j, hz, k) <= j && FitsTicks(RelayedTimes(j, hz, k), hz)
  {
    GcdLeavesOddPart(hz, g);
    ChainByOddPart(j, hz, k);
  }

  // ----- the frame --------------------------------------------------------------------------

  const HEADER: seq<byte> := [0x42, 0x42, 0x03, 0, 0, 0]
  const TYPE_CONFIG: byte := 0
  const TYPE_TCN: byte := 0x80
  const INT_RANGE: int := 0x1_0000_0000

  /** Bit pattern of a 32-bit int, and back. */
  function Unsigned(v: int): int {
    v % INT_RANGE
  }

  function Signed(v: int): int {
    if v < INT_RANGE / 2 then v else v - INT_RANGE
  }

  function Flags(m: ConfigBpdu): byte {
    (if m.topologyChange then 0x01 else 0) + (if m.topologyChangeAck then 0x80 else 0)
  }

  /** s is message m as it is written on the wire, possibly followed by padding. */
  predicate IsConfigFrame(s: seq<byte>, m: ConfigBpdu, hz: nat)
    requires hz > 0
  {
    && |s| >= 38
    && s[..6] == HEADER
    && s[6] == TYPE_CONFIG
    && s[7] == Flags(m)
    && s[8..16] == Bytes(m.vector.root, 8)
    && s[16..20] == Bytes(Unsigned(m.vector.cost), 4)
    && s[20..28] == Bytes(m.vector.bridge, 8)
    && s[28..30] == Bytes(m.vector.port, 2)
    && s[30..32] == Bytes(TicksFor(m.messageAge, hz), 2)
    && s[32..34] == Bytes(TicksFor(m.maxAge, hz), 2)
    && s[34..36] == Bytes(TicksFor(m.helloTime, hz), 2)
    && s[36..38] == Bytes(TicksFor(m.forwardDelay, hz), 2)
  }

  predicate IsTcnFrame(s: seq<byte>) {
    |s| >= 7 && s[..6] == HEADER && s[6] == TYPE_TCN
  }

  lemma TwoBytes(v: int)
    ensures Bytes(v, 2) == [(v / 0x100) % 256, v % 256]
  {
    assert Bytes(v / 256, 1) == [(v / 256) % 256];
  }

  lemma FourBytes(v: int)
    ensures Bytes(v, 4) == [(v / 0x100_0000) % 256, (v / 0x1_0000) % 256, (v / 0x100) % 256, v % 256]
  {
    TwoBytes(v / 0x1_0000);
    assert v / 256 / 256 == v / 0x1_0000;
    assert Bytes(v, 4) == Bytes(v / 256 / 256, 2) + [(v / 256) % 256] + [v % 256];
    assert v / 0x1_0000 / 0x100 == v / 0x100_0000;
  }

  method SetTicks(buf: array<byte>, at: nat, jiffies: int, hz: nat)
    requires hz > 0 && at + 2 <= buf.Length
    modifies buf
    ensures buf[..] == old(buf[..at]) + Bytes(TicksFor(jiffies, hz), 2) + old(buf[at + 2..])
  {
    var ticks := TicksFor(jiffies, hz);
    TwoBytes(ticks);
    buf[at] := (ticks / 256) % 256;
    buf[at + 1] := ticks % 256;
  }

  /** The eight bytes of an identifier, priority first. */
  method SetId(buf: array<byte>, at: nat, id: int)
    requires at + 8 <= buf.Length
    modifies buf
    ensures buf[..] == old(buf[..at]) + Bytes(id, 8) + old(buf[at + 8..])
  {
    var b := Bytes(id, 8);
    buf[at], buf[at + 1] := b[0], b[1];
    buf[at + 2], buf[at + 3], buf[at + 4] := b[2], b[3], b[4];
    buf[at + 5], buf[at + 6], buf[at + 7] := b[5], b[6], b[7];
  }

  method SetCost(buf: array<byte>, at: nat, value: int)
    requires at + 4 <= buf.Length
    modifies buf
    ensures buf[..] == old(buf[..at]) + Bytes(Unsigned(value), 4) + old(buf[at + 4..])
  {
    var v := Unsigned(value);
    FourBytes(v);
    buf[at], buf[at + 1] := (v / 0x100_0000) % 256, (v / 0x1_0000) % 256;
    buf[at + 2], buf[at + 3] := (v / 0x100) % 256, v % 256;
  }

  method SetPortId(buf: array<byte>, at: nat, id: int)
    requires at + 2 <= buf.Length
    modifies buf
    ensures buf[..] == old(buf[..at]) + Bytes(id, 2) + old(buf[at + 2..])
  {
    TwoBytes(id);
    buf[at], buf[at + 1] := (id / 0x100) % 256, id % 256;
  }

  /** The first thirty bytes of the frame. */
  function VectorPart(m: ConfigBpdu): (s: seq<byte>)
    ensures |s| == 30
  {
    HEADER + [TYPE_CONFIG, Flags(m)] + Bytes(m.vector.root, 8) + Bytes(Unsigned(m.vector.cost), 4)
    + Bytes(m.vector.bridge, 8) + Bytes(m.vector.port, 2)
  }

  /** The four times. */
  function TimePart(m: ConfigBpdu, hz: nat): (s: seq<byte>)
    requires hz > 0
    ensures |s| == 8
  {
    Bytes(TicksFor(m.messageAge, hz), 2) + Bytes(TicksFor(m.maxAge, hz), 2)
    + Bytes(TicksFor(m.helloTime, hz), 2) + Bytes(TicksFor(m.forwardDelay, hz), 2)
  }

  lemma Slices(a: seq<byte>, b: seq<byte>, c: seq<byte>, d: seq<byte>, e: seq<byte>)
    requires |a| == 8 && |b| == 8 && |c| == 4 && |d| == 8 && |e| == 2
    ensures var s := a + b + c + d + e;
            s[..8] == a && s[8..16] == b && s[16..20] == c && s[20..28] == d && s[28..30] == e
  {
  }

  lemma VectorPartSlices(m: ConfigBpdu)
    ensures var s := VectorPart(m);
            && s[..6] == HEADER
            && s[6] == TYPE_CONFIG
            && s[7] == Flags(m)
            && s[8..16] == Bytes(m.vector.root, 8)
            && s[16..20] == Bytes(Unsigned(m.vector.cost), 4)
            && s[20..28] == Bytes(m.vector.bridge, 8)
            && s[28..30] == Bytes(m.vector.port, 2)
  {
    var head := HEADER + [TYPE_CONFIG, Flags(m)];
    Slices(head, Bytes(m.vector.root, 8), Bytes(Unsigned(m.vector.cost), 4),
           Bytes(m.vector.bridge, 8), Bytes(m.vector.port, 2));
    var s := VectorPart(m);
    assert s[..6] == s[..8][..6] && s[6] == s[..8][6] && s[7] == s[..8][7];
  }

  lemma PartsMakeFrame(s: seq<byte>, m: ConfigBpdu, hz: nat)
    requires hz > 0 && s == VectorPart(m) + TimePart(m, hz)
    ensures IsConfigFrame(s, m, hz)
  {
    var v, t := VectorPart(m), TimePart(m, hz);
    VectorPartSlices(m);
    assert s[..6] == v[..6] && s[6] == v[6] && s[7] == v[7];
    assert s[8..16] == v[8..16] && s[16..20] == v[16..20];
    assert s[20..28] == v[20..28] && s[28..30] == v[28..30];
    assert s[30..32] == t[0..2] && s[32..34] == t[2..4] && s[34..36] == t[4..6] && s[36..38] == t[6..8];
  }

  method EncodeVector(buf: array<byte>, m: ConfigBpdu)
    requires buf.Length == 38
    modifies buf
    ensures buf[..30] == VectorPart(m)
  {
    buf[0], buf[1], buf[2], buf[3], buf[4], buf[5] := 0x42, 0x42, 0x03, 0, 0, 0;
    buf[6] := TYPE_CONFIG;
    buf[7] := Flags(m);
    ghost var head := HEADER + [TYPE_CONFIG, Flags(m)];
    assert buf[..8] == head;
    SetId(buf, 8, m.vector.root);
    head := head + Bytes(m.vector.root, 8);
    assert buf[..16] == head;
    SetCost(buf, 16, m.vector.cost);
    head := head + Bytes(Unsigned(m.vector.cost), 4);
    assert buf[..20] == head;
    SetId(buf, 20, m.vector.bridge);
    head := head + Bytes(m.vector.bridge, 8);
    assert buf[..28] == head;
    SetPortId(buf, 28, m.vector.port);
    assert buf[..30] == head + Bytes(m.vector.port, 2);
  }

  method EncodeTimes(buf: array<byte>, m: ConfigBpdu, hz: nat)
    requires buf.Length == 38 && hz > 0
    modifies buf
    ensures buf[..] == old(buf[..30]) + TimePart(m, hz)
  {
    ghost var head := buf[..30];
    SetTicks(buf, 30, m.messageAge, hz);
    head := head + Bytes(TicksFor(m.messageAge, hz), 2);
    assert buf[..32] == head;
    SetTicks(buf, 32, m.maxAge, hz);
    head := head + Bytes(TicksFor(m.maxAge, hz), 2);
    assert buf[..34] == head;
    SetTicks(buf, 34, m.helloTime, hz);
    head := head + Bytes(TicksFor(m.helloTime, hz), 2);
    assert buf[..36] == head;
    SetTicks(buf, 36, m.forwardDelay, hz);
    assert buf[..] == head + Bytes(TicksFor(m.forwardDelay, hz), 2);
  }

  method EncodeConfig(m: ConfigBpdu, hz: nat) returns (buf: array<byte>)
    requires hz > 0
    ensures fresh(buf) && buf.Length == 38 && IsConfigFrame(buf[..], m, hz)
  {
    buf := new byte[38];
    EncodeVector(buf, m);
    EncodeTimes(buf, m, hz);
    PartsMakeFrame(buf[..], m, hz);
  }

  method EncodeTcn() returns (buf: array<byte>)
    ensures fresh(buf) && buf.Length == 7 && IsTcnFrame(buf[..])
  {
    buf := new byte[7];
    buf[0], buf[1], buf[2], buf[3], buf[4], buf[5] := 0x42, 0x42, 0x03, 0, 0, 0;
    buf[6] := TYPE_TCN;
  }

  datatype Received = Ignored | Config(bpdu: ConfigBpdu) | Tcn

  /** The fields a receiver reads out of a configuration frame. */
  function Fields(s: seq<byte>, hz: nat): ConfigBpdu
    requires |s| >= 38
  {
    ConfigBpdu(
      s[7] % 2 == 1,
      s[7] >= 0x80,
      Vector(Number(s[8..16]), Signed(Number(s[16..20])), Number(s[20..28]), Number(s[28..30])),
      JiffiesFor(Number(s[30..32]), hz),
      JiffiesFor(Number(s[32..34]), hz),
      JiffiesFor(Number(s[34..36]), hz),
      JiffiesFor(Number(s[36..38]), hz))
  }

  /** What a bridge does with the payload of a frame sent to the bridge group address. */
  function HandleBpdu(s: seq<byte>, stpEnabled: bool, hz: nat): Received {
    if !stpEnabled || |s| < 7 || s[..6] != HEADER then Ignored
    else if s[6] == TYPE_CONFIG then (if |s| < 38 then Ignored else Config(Fields(s, hz)))
    else if s[6] == TYPE_TCN then Tcn
    else Ignored
  }

  /** Field widths of the message. */
  predicate Representable(v: Vector) {
    && 0 <= v.root < Pow256(8)
    && -0x8000_0000 <= v.cost < 0x8000_0000
    && 0 <= v.bridge < Pow256(8)
    && 0 <= v.port < Pow256(2)
  }

  lemma VectorReadBack(v: Vector)
    requires Representable(v)
    ensures Number(Bytes(v.root, 8)) == v.root
    ensures Signed(Number(Bytes(Unsigned(v.cost), 4))) == v.cost
    ensures Number(Bytes(v.bridge, 8)) == v.bridge
    ensures Number(Bytes(v.port, 2)) == v.port
  {
    NumberOfBytes(v.root, 8);
    FourBytesRange();
    NumberOfBytes(Unsigned(v.cost), 4);
    NumberOfBytes(v.bridge, 8);
    NumberOfBytes(v.port, 2);
  }

  lemma FourBytesRange()
    ensures Pow256(4) == INT_RANGE && Pow256(2) == 0x1_0000
  {
    assert Pow256(2) == 0x1_0000;
    assert Pow256(4) == 256 * Pow256(3) == 256 * (256 * Pow256(2));
  }

  lemma TicksReadBack(jiffies: int, hz: nat)
    requires hz > 0
    ensures JiffiesFor(Number(Bytes(TicksFor(jiffies, hz), 2)), hz) == Relayed(jiffies, hz)
  {
    FourBytesRange();
    NumberOfBytes(TicksFor(jiffies, hz), 2);
  }

  function AsRelayed(m: ConfigBpdu, hz: nat): ConfigBpdu
    requires hz > 0
  {
    m.(messageAge := Relayed(m.messageAge, hz), maxAge := Relayed(m.maxAge, hz),
       helloTime := Relayed(m.helloTime, hz), forwardDelay := Relayed(m.forwardDelay, hz))
  }

  lemma FieldsReadBack(s: seq<byte>, m: ConfigBpdu, hz: nat)
    requires hz > 0 && IsConfigFrame(s, m, hz) && Representable(m.vector)
    ensures Fields(s, hz) == AsRelayed(m, hz)
  {
    hide Bytes, Number, Relayed, JiffiesFor, Signed, Unsigned;
    VectorReadBack(m.vector);
    TicksReadBack(m.messageAge, hz);
    TicksReadBack(m.maxAge, hz);
    TicksReadBack(m.helloTime, hz);
    TicksReadBack(m.forwardDelay, hz);
  }

  /** A message that was sent arrives with flags, ids, cost and port unchanged, and with each time
      as its tick count gives it back; whatever padding follows. */
  lemma SentIsReceived(s: seq<byte>, m: ConfigBpdu, hz: nat)
    requires hz > 0 && IsConfigFrame(s, m, hz) && Representable(m.vector)
    ensures HandleBpdu(s, true, hz) == Config(AsRelayed(m, hz))
  {
    hide Fields, AsRelayed, Bytes, TicksFor;
    FieldsReadBack(s, m, hz);
  }

  /** A frame is taken for a TCN exactly when it is one, and the two kinds exclude each other. */
  lemma TcnIsReceived(s: seq<byte>, hz: nat)
    ensures HandleBpdu(s, true, hz) == Tcn <==> IsTcnFrame(s)
    ensures HandleBpdu(s, false, hz) == Ignored
  {
  }

  /** Every frame accepted as a configuration message is the encoding of the vector it is read as. */
  lemma ReceivedWasEncoded(s: seq<byte>, hz: nat)
    requires HandleBpdu(s, true, hz).Config?
    ensures var v := HandleBpdu(s, true, hz).bpdu.vector;
            && Representable(v)
            && s[8..30] == Bytes(v.root, 8) + Bytes(Unsigned(v.cost), 4) + Bytes(v.bridge, 8) + Bytes(v.port, 2)
  {
    BytesOfNumber(s[8..16]);
    BytesOfNumber(s[16..20]);
    BytesOfNumber(s[20..28]);
    BytesOfNumber(s[28..30]);
    FourBytesRange();
    UnsignedOfSigned(Number(s[16..20]));
    assert s[8..30] == s[8..16] + s[16..20] + s[20..28] + s[28..30];
  }

  lemma UnsignedOfSigned(v: int)
    requires 0 <= v < INT_RANGE
    ensures -0x8000_0000 <= Signed(v) < 0x8000_0000 && Unsigned(Signed(v)) == v
  {
  }
}
