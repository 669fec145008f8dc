/** What masking does to an address of n octets in network order, read as one big-endian number. */
module Subnets {

  import opened Bits
  import opened Blocks
  import opened Encoding

  function Value(s: seq<byte>): nat {
    if s == [] then 0 else Joined(Value(s[..|s| - 1]), s[|s| - 1] as nat, 8)
  }

  function BigEndian(v: nat, n: nat): (r: seq<byte>)
    ensures |r| == n
  {
    if n == 0 then [] else BigEndian(v / 256, n - 1) + [(v % 256) as byte]
  }

  function AndOctets(a: seq<byte>, b: seq<byte>): (r: seq<byte>)
    requires |a| == |b|
    ensures |r| == |a|
  {
    seq(|a|, i requires 0 <= i < |a| => And(a[i] as nat, b[i] as nat) as byte)
  }

  function OrOctet(a: byte, b: byte): (r: byte)
    ensures r as nat == Or(a as nat, b as nat)
  {
    EightBits();
    OrBound(a as nat, b as nat, 8);
    Or(a as nat, b as nat) as byte
  }

  function OrOctets(a: seq<byte>, b: seq<byte>): (r: seq<byte>)
    requires |a| == |b|
    ensures |r| == |a|
  {
    seq(|a|, i requires 0 <= i < |a| => OrOctet(a[i], b[i]))
  }

  function NotOctets(a: seq<byte>): (r: seq<byte>)
    ensures |r| == |a|
  {
    seq(|a|, i requires 0 <= i < |a| => 255 - a[i])
  }

  // The host part of a prefix of p bits: the low ones.
  function HostMask(n: nat, p: nat): (r: seq<byte>)
    requires p <= 8 * n
    ensures |r| == n
  {
    BigEndian(Pow2(8 * n - p) - 1, n)
  }

  function Network(a: seq<byte>, p: nat): seq<byte>
    requires p <= 8 * |a|
  {
    AndOctets(a, NotOctets(HostMask(|a|, p)))
  }

  function Broadcast(a: seq<byte>, p: nat): seq<byte>
    requires p <= 8 * |a|
  {
    OrOctets(a, HostMask(|a|, p))
  }

  function SubnetMask(n: nat, p: nat): seq<byte>
    requires p <= 8 * n
  {
    NotOctets(HostMask(n, p))
  }

  // --- octets and numbers ------------------------------------------------------------------------------------

  lemma EightBits()
    ensures Pow2(8) == 256
  {
    assert Pow2(0) == 1;
    assert Pow2(4) == 16;
  }

  lemma PowEight(n: nat)
    requires n > 0
    ensures Pow2(8 * n) == 256 * Pow2(8 * (n - 1))
  {
    EightBits();
    PowSum(8, 8 * (n - 1));
  }

  lemma JoinedEight(q: nat, r: nat)
    ensures Joined(q, r, 8) == q * 256 + r
  {
    EightBits();
  }

  lemma {:induction false} ValueBound(s: seq<byte>)
    ensures Value(s) < Pow2(8 * |s|)
  {
    if s != [] {
      ValueBound(s[..|s| - 1]);
      PowEight(|s|);
      JoinedEight(Value(s[..|s| - 1]), s[|s| - 1] as nat);
    }
  }

  lemma {:induction false} ValueOfBigEndian(v: nat, n: nat)
    requires v < Pow2(8 * n)
    ensures Value(BigEndian(v, n)) == v
  {
    if n > 0 {
      PowEight(n);
      ValueOfBigEndian(v / 256, n - 1);
      JoinedEight(v / 256, v % 256);
    }
  }

  lemma {:induction false} ValueOfAnd(a: seq<byte>, b: seq<byte>)
    requires |a| == |b|
    ensures Value(AndOctets(a, b)) == And(Value(a), Value(b))
  {
    if a != [] {
      var a', b' := a[..|a| - 1], b[..|a| - 1];
      ValueOfAnd(a', b');
      assert AndOctets(a, b)[..|a| - 1] == AndOctets(a', b');
      EightBits();
      AndJoined(Value(a'), a[|a| - 1] as nat, Value(b'), b[|a| - 1] as nat, 8);
    }
  }

  lemma {:induction false} ValueOfOr(a: seq<byte>, b: seq<byte>)
    requires |a| == |b|
    ensures Value(OrOctets(a, b)) == Or(Value(a), Value(b))
  {
    if a != [] {
      var a', b' := a[..|a| - 1], b[..|a| - 1];
      ValueOfOr(a', b');
      assert OrOctets(a, b)[..|a| - 1] == OrOctets(a', b');
      EightBits();
      OrJoined(Value(a'), a[|a| - 1] as nat, Value(b'), b[|a| - 1] as nat, 8);
    }
  }

  lemma {:induction false} ValueOfNot(a: seq<byte>)
    ensures Value(NotOctets(a)) == Pow2(8 * |a|) - 1 - Value(a)
  {
    if a != [] {
      var a' := a[..|a| - 1];
      ValueOfNot(a');
      assert NotOctets(a)[..|a| - 1] == NotOctets(a');
      PowEight(|a|);
      JoinedEight(Value(a'), a[|a| - 1] as nat);
      JoinedEight(Value(NotOctets(a')), 255 - a[|a| - 1] as nat);
    }
  }

  // --- subnets -----------------------------------------------------------------------------------------------

  lemma MaskValue(n: nat, p: nat)
    requires p <= 8 * n
    ensures Pow2(8 * n - p) <= Pow2(8 * n)
    ensures Value(HostMask(n, p)) == Pow2(8 * n - p) - 1
    ensures Value(SubnetMask(n, p)) == Pow2(8 * n) - Pow2(8 * n - p)
  {
    PowMonotone(8 * n - p, 8 * n);
    ValueOfBigEndian(Pow2(8 * n - p) - 1, n);
    ValueOfNot(HostMask(n, p));
  }

  // The network is the first address with the same first p bits, the broadcast address the last one.
  lemma NetworkAndBroadcast(a: seq<byte>, p: nat)
    requires p <= 8 * |a|
    ensures Value(Network(a, p)) == Value(a) - Low(Value(a), 8 * |a| - p)
    ensures Value(Broadcast(a, p)) == Value(a) - Low(Value(a), 8 * |a| - p) + Pow2(8 * |a| - p) - 1
  {
    hide And, Or, Low, Value, AndOctets, OrOctets, NotOctets, HostMask, Pow2;
    var n := |a|;
    MaskValue(n, p);
    ValueBound(a);
    ValueOfAnd(a, SubnetMask(n, p));
    AndHigh(Value(a), 8 * n - p, 8 * n);
    ValueOfOr(a, HostMask(n, p));
    OrLow(Value(a), 8 * n - p);
  }

  // The first p bits, as a number.
  function Leading(a: seq<byte>, p: nat): nat
    requires p <= 8 * |a|
  {
    High(Value(a), 8 * |a| - p)
  }

  // An address lies between network and broadcast address exactly when it has the same first p bits, and exactly when
  // it has the same network.
  lemma BetweenIffSameNetwork(a: seq<byte>, x: seq<byte>, p: nat)
    requires |a| == |x| && p <= 8 * |a|
    ensures Value(Network(a, p)) <= Value(x) <= Value(Broadcast(a, p)) <==> Leading(x, p) == Leading(a, p)
    ensures Value(Network(a, p)) <= Value(x) <= Value(Broadcast(a, p)) <==> Value(Network(x, p)) == Value(Network(a, p))
  {
    hide Value, Pow2, Network, Broadcast;
    NetworkAndBroadcast(a, p);
    NetworkAndBroadcast(x, p);
    InBlock(Value(a), Value(x), Pow2(8 * |a| - p));
  }

  lemma InBlock(v: nat, x: nat, size: nat)
    requires size > 0
    ensures v - v % size <= x <= v - v % size + size - 1 <==> x / size == v / size
    ensures x / size == v / size <==> x - x % size == v - v % size
  {
    Divided(v, size);
    Divided(x, size);
    if v - v % size <= x <= v - v % size + size - 1 {
      DivisionAt(x, v / size, size);
    }
    if x - x % size == v - v % size {
      DivisionAt(x, v / size, size);
    }
  }

  // --- prefix lengths ----------------------------------------------------------------------------------------

  function BitSum(s: seq<byte>): nat {
    if s == [] then 0 else BitSum(s[..|s| - 1]) + BitCount(s[|s| - 1] as nat)
  }

  lemma {:induction false} CountOfValue(s: seq<byte>)
    ensures BitCount(Value(s)) == BitSum(s)
  {
    if s != [] {
      CountOfValue(s[..|s| - 1]);
      EightBits();
      CountJoined(Value(s[..|s| - 1]), s[|s| - 1] as nat, 8);
    }
  }

  lemma {:induction false} BitSumFront(s: seq<byte>)
    requires s != []
    ensures BitSum(s) == BitCount(s[0] as nat) + BitSum(s[1..])
  {
    if |s| > 1 {
      var front := s[..|s| - 1];
      BitSumFront(front);
      assert s[1..][..|s| - 2] == front[1..];
    }
  }

  // The order in which the machine puts the octets together does not matter to the count.
  lemma {:induction false} CountOfLittleEndian(s: seq<byte>)
    ensures BitCount(FromLittleEndian(s)) == BitSum(s)
  {
    if s != [] {
      CountOfLittleEndian(s[1..]);
      BitSumFront(s);
      EightBits();
      CountJoined(FromLittleEndian(s[1..]), s[0] as nat, 8);
      JoinedEight(FromLittleEndian(s[1..]), s[0] as nat);
    }
  }

  // The bits set in a subnet mask give back its prefix length.
  lemma MaskCountsPrefix(n: nat, p: nat)
    requires p <= 8 * n
    ensures BitSum(SubnetMask(n, p)) == p
  {
    hide Value, BitCount, BitSum, Pow2, SubnetMask, HostMask;
    MaskValue(n, p);
    CountOfValue(SubnetMask(n, p));
    OnesCounted(8 * n - p, 8 * n);
  }

  // The host mask octet by octet: zeros, one partial octet, ones.
  lemma {:induction false} MaskOctet(n: nat, p: nat, i: nat)
    requires p <= 8 * n && i < n
    ensures HostMask(n, p)[i] as nat ==
            if i < p / 8 then 0 else if i == p / 8 then Pow2(8 - p % 8) - 1 else 255
  {
    var k := 8 * n - p;
    if k >= 8 {
      EightBits();
      PowSum(8, k - 8);
      var v := Pow2(k) - 1;
      assert v / 256 == Pow2(k - 8) - 1 && v % 256 == 255;
      if i < n - 1 {
        MaskOctet(n - 1, p, i);
      } else if i == p / 8 {
        assert k == 8;
      }
    } else {
      EightBits();
      PowMonotone(k, 8);
      var v := Pow2(k) - 1;
      assert v / 256 == 0 && v % 256 == v;
      if i < n - 1 {
        ZeroOctets(n - 1, i);
      }
    }
  }

  lemma {:induction false} ZeroOctets(n: nat, i: nat)
    requires i < n
    ensures BigEndian(0, n)[i] == 0
  {
    if i < n - 1 {
      ZeroOctets(n - 1, i);
    }
  }
}
