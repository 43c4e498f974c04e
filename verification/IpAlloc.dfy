/** Address allocation: the broadcast address built bit by bit, the scan for the first free host, and
    what a sequence of allocations hands out. */
module IpAlloc {
  import opened Wrappers

  // ---- 32-bit addresses ----------------------------------------------------------------------------------

  const TOP: int := 0x1_0000_0000

  /** An IPv4 address as a number; `None` is the zero Addr, which is not valid. */
  type Addr = Option<int>

  /** `Addr.Next`: there is nothing after 255.255.255.255. */
  function After(a: Addr): Addr {
    if a.Some? && a.value + 1 < TOP then Some(a.value + 1) else None
  }

  function Pow2(n: nat): (r: nat)
    ensures r > 0
  {
    if n == 0 then 1 else 2 * Pow2(n - 1)
  }

  lemma {:induction false} Pow2Adds(m: nat, n: nat)
    ensures Pow2(m + n) == Pow2(m) * Pow2(n)
  {
    if n > 0 {
      Pow2Adds(m, n - 1);
      assert Pow2(m + n) == 2 * Pow2(m + n - 1) == 2 * (Pow2(m) * Pow2(n - 1)) == Pow2(m) * (2 * Pow2(n - 1));
    }
  }

  /** A parsed IPv4 prefix: an address, host bits included, and a length. */
  datatype Prefix = Prefix(addr: int, bits: int)

  ghost predicate Wellformed(p: Prefix) { 0 <= p.addr < TOP && 0 <= p.bits <= 32 }

  ghost function Size(p: Prefix): nat
    requires Wellformed(p)
  {
    Pow2(32 - p.bits)
  }

  ghost function Network(p: Prefix): int
    requires Wellformed(p)
  {
    p.addr - p.addr % Size(p)
  }

  ghost function Broadcast(p: Prefix): int
    requires Wellformed(p)
  {
    Network(p) + Size(p) - 1
  }

  lemma Divides(a: int, k: int, m: int)
    requires a > 0
    ensures (k * a + m) / a == k + m / a
  {
    var q, r := m / a, m % a;
    assert m == q * a + r && 0 <= r < a;
    assert k * a + m == (k + q) * a + r;
    Quotient(a, k + q, r);
  }

  lemma Multiples(x: int, y: int, a: int)
    requires x <= y && a > 0
    ensures x * a <= y * a
  {
  }

  lemma Quotient(a: int, q: int, r: int)
    requires 0 <= r < a
    ensures (q * a + r) / a == q
  {
    var x := q * a + r;
    var d := x / a;
    assert x == d * a + x % a && 0 <= x % a < a;
    if d > q { Multiples(q + 1, d, a); assert false; }
    if d < q { Multiples(d + 1, q, a); assert false; }
  }

  // ---- lastAddr: one OR per host bit -----------------------------------------------------------------------

  /** The four bytes of an address as a number. */
  function Value(b: seq<int>): int
    requires |b| == 4
  {
    b[0] * 0x100_0000 + b[1] * 0x1_0000 + b[2] * 0x100 + b[3]
  }

  predicate Bytes(b: seq<int>) { |b| == 4 && forall k :: 0 <= k < 4 ==> 0 <= b[k] < 256 }

  /** `x | 1 << r`. */
  function OrBit(x: int, r: nat): int { if (x / Pow2(r)) % 2 == 1 then x else x + Pow2(r) }

  /** `addr` with its lowest `i` bits set. */
  ghost function Filled(addr: int, i: nat): int { addr - addr % Pow2(i) + Pow2(i) - 1 }

  /** The place values inside a byte. */
  lemma PlaceValue(r: nat)
    requires r < 8
    ensures Pow2(r) == [1, 2, 4, 8, 16, 32, 64, 128][r]
  {
    assert Pow2(3) == 2 * Pow2(2) == 4 * Pow2(1) == 8;
    assert Pow2(7) == 2 * Pow2(6) == 4 * Pow2(5) == 8 * Pow2(4) == 16 * Pow2(3);
  }

  lemma ByteWeight(m: nat)
    requires m < 4
    ensures Pow2(8 * m) == [1, 0x100, 0x1_0000, 0x100_0000][m]
  {
    PlaceValue(7);
    assert Pow2(8) == 2 * Pow2(7);
    if m > 1 { Pow2Adds(8, 8); Pow2Adds(8, 16); }
  }

  lemma LowBits(hi: int, x: int, r: nat)
    requires r < 8
    ensures ((hi * 256 + x) / Pow2(r)) % 2 == (x / Pow2(r)) % 2
  {
    PlaceValue(r);
    EvenMultiple(hi, [128, 64, 32, 16, 8, 4, 2, 1][r], Pow2(r));
    Divides(Pow2(r), 2 * (hi * [128, 64, 32, 16, 8, 4, 2, 1][r]), x);
    Parity(hi * [128, 64, 32, 16, 8, 4, 2, 1][r], x / Pow2(r));
  }

  lemma EvenMultiple(hi: int, e: int, p: int)
    requires e * p == 128
    ensures 2 * (hi * e) * p == hi * 256
  {
    assert 2 * (hi * e) * p == 2 * hi * (e * p);
  }

  lemma Parity(u: int, v: int)
    ensures (2 * u + v) % 2 == v % 2
  {
  }

  /** Bit `i` of the address is bit `i % 8` of byte `3 - i / 8`. */
  lemma BitOfByte(b: seq<int>, i: nat)
    requires Bytes(b) && i < 32
    ensures (Value(b) / Pow2(i)) % 2 == (b[3 - i / 8] / Pow2(i % 8)) % 2
  {
    var m, r := i / 8, i % 8;
    var hi := if m == 3 then 0 else if m == 2 then b[0] else if m == 1 then b[0] * 256 + b[1] else b[0] * 0x1_0000 + b[1] * 256 + b[2];
    var lo := if m == 0 then 0 else if m == 1 then b[3] else if m == 2 then b[2] * 256 + b[3] else b[1] * 0x1_0000 + b[2] * 256 + b[3];
    ByteWeight(m);
    assert Value(b) == (hi * 256 + b[3 - m]) * Pow2(8 * m) + lo && 0 <= lo < Pow2(8 * m);
    DivideTwice(hi * 256 + b[3 - m], lo, Pow2(8 * m), Pow2(r));
    Pow2Adds(r, 8 * m);
    LowBits(hi, b[3 - m], r);
  }

  lemma DivideTwice(y: int, lo: int, A: int, P: int)
    requires A > 0 && P > 0 && 0 <= lo < A
    ensures P * A > 0 && (y * A + lo) / (P * A) == y / P
  {
    var q, t := y / P, y % P;
    assert y == q * P + t && 0 <= t <= P - 1;
    assert y * A == q * (P * A) + t * A by { assert (q * P) * A == q * (P * A); }
    assert 0 <= t * A <= (P - 1) * A == P * A - A;
    Quotient(P * A, q, t * A + lo);
  }

  /** Setting bit `i` after the bits below it. */
  lemma FillOne(addr: int, i: nat)
    requires addr >= 0
    ensures (Filled(addr, i) / Pow2(i)) % 2 == (addr / Pow2(i)) % 2
    ensures Filled(addr, i + 1) == if (addr / Pow2(i)) % 2 == 1 then Filled(addr, i) else Filled(addr, i) + Pow2(i)
  {
    var a := Pow2(i);
    Quotient(a, addr / a, a - 1);
    assert Filled(addr, i) == (addr / a) * a + (a - 1);
    ModDouble(addr, a);
  }

  lemma ModDouble(x: int, a: int)
    requires a > 0
    ensures x % (2 * a) == (x / a) % 2 * a + x % a
  {
    var q, r := x / a, x % a;
    var h, bit := q / 2, q % 2;
    assert q * a == h * (2 * a) + bit * a by {
      assert (2 * h + bit) * a == 2 * h * a + bit * a;
    }
    assert x == h * (2 * a) + (bit * a + r);
    assert 0 <= bit * a + r < 2 * a;
    Quotient(2 * a, h, bit * a + r);
  }

  lemma OrKeepsByte(x: int, r: nat)
    requires 0 <= x < 256 && r < 8
    ensures 0 <= OrBit(x, r) < 256
  {
    PlaceValue(r);
  }

  /** Raising byte `3 - m` by `d` raises the address by `d` place values. */
  lemma RaiseByte(b: seq<int>, m: nat, d: int)
    requires Bytes(b) && m < 4
    ensures Value(b[3 - m := b[3 - m] + d]) == Value(b) + d * Pow2(8 * m)
  {
    ByteWeight(m);
  }

  lemma FillByte(addr: int, b: seq<int>, i: nat)
    requires addr >= 0 && Bytes(b) && i < 32 && Value(b) == Filled(addr, i)
    ensures var b' := b[3 - i / 8 := OrBit(b[3 - i / 8], i % 8)];
      Bytes(b') && Value(b') == Filled(addr, i + 1)
  {
    var m, r := i / 8, i % 8;
    BitOfByte(b, i);
    FillOne(addr, i);
    OrKeepsByte(b[3 - m], r);
    RaiseByte(b, m, OrBit(b[3 - m], r) - b[3 - m]);
    Pow2Adds(r, 8 * m);
  }

  /** The four bytes of a 32-bit address. */
  function AsBytes(a: int): seq<int> { [a / 256 / 256 / 256, a / 256 / 256 % 256, a / 256 % 256, a % 256] }

  lemma BytesOfAddress(a: int)
    requires 0 <= a < TOP
    ensures Bytes(AsBytes(a)) && Value(AsBytes(a)) == Filled(a, 0) == a
  {
    var b, c := a / 256, a / 256 / 256;
    assert a == b * 256 + a % 256 && b == c * 256 + b % 256 && c == c / 256 * 256 + c % 256;
  }

  /** Every host bit set: the loop over single bits, byte by byte, is the network plus its size less one. */
  method LastAddr(p: Prefix) returns (last: int)
    requires Wellformed(p)
    ensures last == Broadcast(p)
  {
    BytesOfAddress(p.addr);
    var b := AsBytes(p.addr);
    var bytes := new int[4](i requires 0 <= i < 4 => b[i]);
    assert bytes[..] == b;
    var hostBits := 32 - p.bits;
    for i := 0 to hostBits
      invariant Bytes(bytes[..]) && Value(bytes[..]) == Filled(p.addr, i)
    {
      ghost var before := bytes[..];
      FillByte(p.addr, before, i);
      bytes[3 - i / 8] := OrBit(bytes[3 - i / 8], i % 8);
      assert bytes[..] == before[3 - i / 8 := OrBit(before[3 - i / 8], i % 8)];
    }
    last := Value(bytes[..]);
  }

  // ---- Next: the lowest free host --------------------------------------------------------------------------

  /** What parsing the CIDR string gives. */
  datatype Cidr = Malformed | NotIPv4 | IPv4(prefix: Prefix)

  datatype Answer = Address(value: int) | BadCidr | Refused | Exhausted

  function Masked(p: Prefix): (m: Prefix)
    requires p.bits <= 32
  {
    Prefix(p.addr - p.addr % Pow2(32 - p.bits), p.bits)
  }

  /** Masking clears the host bits, keeps the network and the broadcast address, and stays in 32 bits. */
  lemma MaskedPrefix(p: Prefix)
    requires Wellformed(p)
    ensures Wellformed(Masked(p)) && Masked(p).addr == Network(p)
    ensures Network(Masked(p)) == Network(p) && Broadcast(Masked(p)) == Broadcast(p)
    ensures 0 <= Network(p) <= p.addr <= Broadcast(p) < TOP
  {
    WholeBlocks(32 - p.bits);
    BlockInside(p.addr, Size(p), Pow2(p.bits));
  }

  /** The block of `n` that holds `x` starts at a multiple of `n` and lies below any `k * n` above `x`. */
  lemma BlockInside(x: int, n: int, k: int)
    requires 0 <= x < k * n && n > 0
    ensures 0 <= x - x % n <= x && (x - x % n) % n == 0
    ensures x < x - x % n + n <= k * n
  {
    var q := x / n;
    assert x - x % n == q * n;
    Quotient(n, q, 0);
    if q >= k { Multiples(k, q, n); assert false; }
    Multiples(q + 1, k, n);
  }

  lemma WholeBlocks(h: nat)
    requires h <= 32
    ensures Pow2(32 - h) * Pow2(h) == TOP
  {
    ByteWeight(2);
    Pow2Adds(16, 16);
    Pow2Adds(32 - h, h);
  }

  /** The addresses that may be handed out: above the network and the gateway, below the broadcast. */
  ghost predicate Host(p: Prefix, a: int)
    requires Wellformed(p)
  {
    Network(p) + 2 <= a < Broadcast(p)
  }

  /** `r` is the lowest host not in `taken`, or says that there is none. */
  ghost predicate IsNext(p: Prefix, taken: set<int>, r: Answer)
    requires Wellformed(p)
  {
    match r
    case Address(a) => Host(p, a) && a !in taken && forall b :: Host(p, b) && b < a ==> b in taken
    case Exhausted => forall b :: Host(p, b) ==> b in taken
    case _ => false
  }

  method Next(cidr: Cidr, taken: set<int>) returns (r: Answer)
    requires cidr.IPv4? ==> Wellformed(cidr.prefix)
    ensures cidr.Malformed? ==> r == BadCidr
    ensures cidr.NotIPv4? ==> r == Refused
    ensures cidr.IPv4? ==> IsNext(cidr.prefix, taken, r)
  {
    if cidr.Malformed? { return BadCidr; }
    if cidr.NotIPv4? { return Refused; }
    MaskedPrefix(cidr.prefix);
    var prefix := Masked(cidr.prefix);
    var network := prefix.addr;
    var broadcast := LastAddr(prefix);
    var candidate := After(After(Some(network)));
    while candidate.Some? && candidate.value < broadcast
      invariant candidate.Some? ==> network + 2 <= candidate.value
      invariant candidate.None? ==> broadcast <= network + 2
      invariant candidate.Some? ==> forall b :: Host(cidr.prefix, b) && b < candidate.value ==> b in taken
      decreases if candidate.Some? then TOP - candidate.value else 0
    {
      if candidate.value !in taken {
        return Address(candidate.value);
      }
      candidate := After(candidate);
    }
    r := Exhausted;
  }

  lemma NextIsUnique(p: Prefix, taken: set<int>, r: Answer, q: Answer)
    requires Wellformed(p) && IsNext(p, taken, r) && IsNext(p, taken, q)
    ensures r == q
  {
    if r.Address? { assert Host(p, r.value); }
    if q.Address? { assert Host(p, q.value); }
  }

  // ---- Allocate, then record -------------------------------------------------------------------------------

  ghost function Given(rs: seq<Answer>): set<int> {
    set i | 0 <= i < |rs| && rs[i].Address? :: rs[i].value
  }

  /** Every answer is what `Next` says with the earlier answers recorded. */
  ghost predicate Allocations(p: Prefix, rs: seq<Answer>)
    requires Wellformed(p)
  {
    forall i :: 0 <= i < |rs| ==> IsNext(p, Given(rs[..i]), rs[i])
  }

  /** How many hosts a subnet has for this allocator: none for /31 and /32, else 2^h - 3. */
  ghost function Capacity(p: Prefix): (n: nat)
    requires Wellformed(p)
  {
    if Size(p) > 3 then Size(p) - 3 else 0
  }

  /** From an empty subnet the hosts come out in order, each once, until there are none. */
  lemma {:induction false} HandsOutInOrder(p: Prefix, rs: seq<Answer>)
    requires Wellformed(p) && Allocations(p, rs)
    ensures forall i :: 0 <= i < |rs| ==>
      rs[i] == if i < Capacity(p) then Address(Network(p) + 2 + i) else Exhausted
  {
    if rs == [] {
    } else {
      var n := |rs| - 1;
      var before := rs[..n];
      forall i | 0 <= i < n ensures IsNext(p, Given(before[..i]), before[i]) {
        assert before[..i] == rs[..i];
      }
      HandsOutInOrder(p, before);
      InOrder(p, before, rs[n]);
    }
  }

  lemma InOrder(p: Prefix, before: seq<Answer>, r: Answer)
    requires Wellformed(p) && IsNext(p, Given(before), r)
    requires forall i :: 0 <= i < |before| ==>
      before[i] == if i < Capacity(p) then Address(Network(p) + 2 + i) else Exhausted
    ensures r == if |before| < Capacity(p) then Address(Network(p) + 2 + |before|) else Exhausted
  {
    var n, lowest := |before|, Network(p) + 2;
    forall b ensures b in Given(before) <==> Host(p, b) && b < lowest + n {
      if Host(p, b) && b < lowest + n {
        assert before[b - lowest] == Address(b);
      }
    }
    NextIsUnique(p, Given(before), r, if n < Capacity(p) then Address(lowest + n) else Exhausted);
  }

  /** A released host below every other free one is the next to be handed out. */
  lemma ReleasedIsNext(p: Prefix, taken: set<int>, a: int, r: Answer)
    requires Wellformed(p) && Host(p, a)
    requires forall b :: Host(p, b) && b < a ==> b in taken
    requires IsNext(p, taken - {a}, r)
    ensures r == Address(a)
  {
    NextIsUnique(p, taken - {a}, r, Address(a));
  }

  // ---- The DNS address of a peer configuration --------------------------------------------------------------

  /** `BuildPeerConfig` names the address after the prefix's own, host bits and all. */
  function DnsAddress(p: Prefix): Addr { After(Some(p.addr)) }

  /** Some set of used addresses makes `a` the next one. */
  ghost predicate CanBeHandedOut(p: Prefix, a: int)
    requires Wellformed(p)
  {
    exists taken: set<int> :: IsNext(p, taken, Address(a))
  }

  /** For a masked CIDR it is the gateway, the address after the network, which the allocator passes over. */
  lemma DnsOfMaskedIsGateway(p: Prefix)
    requires Wellformed(p) && p.addr < TOP - 1
    ensures DnsAddress(Masked(p)) == Some(Network(p) + 1)
    ensures DnsAddress(p) == Some(p.addr + 1)
    ensures !CanBeHandedOut(p, Network(p) + 1)
  {
    MaskedPrefix(p);
  }

  ghost function Below(n: nat): (s: set<int>)
    ensures forall b :: b in s <==> 0 <= b < n
  {
    if n == 0 then {} else Below(n - 1) + {n - 1}
  }

  /** The allocator can hand out the DNS address exactly when the network was configured with host bits
      set and the following address is still below the broadcast; never for a masked CIDR. */
  lemma DnsAddressCanBeHandedOut(p: Prefix)
    requires Wellformed(p)
    ensures DnsAddress(p).Some? && CanBeHandedOut(p, DnsAddress(p).value) <==> Network(p) < p.addr && p.addr + 1 < Broadcast(p)
  {
    MaskedPrefix(p);
    if Network(p) < p.addr && p.addr + 1 < Broadcast(p) {
      var below := Below(p.addr + 1);
      assert DnsAddress(p) == Some(p.addr + 1) && Host(p, p.addr + 1);
      assert IsNext(p, below, Address(DnsAddress(p).value));
    }
  }
}
