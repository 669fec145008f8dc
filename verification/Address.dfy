/**
 The subnet arithmetic of `IPv4Address` and `IPv6Address` and the prefix lengths of `GetInterfaceAddresses`. Addresses
 are octets in network order; a bitwise operation on a word acts on each of its octets.
 */
module Address {

  import opened Bits
  import opened Blocks
  import opened Encoding
  import opened Subnets

  // Kernighan's count: one turn for each bit set.
  method CountBytes(value: nat) returns (result: nat)
    ensures result == BitCount(value)
  {
    result := 0;
    var rest := value;
    while rest != 0
      invariant result + BitCount(rest) == BitCount(value)
    {
      ClearLowest(rest);
      rest := And(rest, rest - 1);
      result := result + 1;
    }
  }

  // --- IPv4 --------------------------------------------------------------------------------------------------

  // An address, the null pointer, or behaviour the language does not define.
  datatype Made<+T> = Null | Undefined | Made(address: T)

  // `htonl(CreateMask<uint32_t>(bits))`: 1 is shifted left as a signed int, so 32 and 31 places are undefined.
  function HostMask4(p: nat): (r: Made<seq<byte>>)
    ensures r.Undefined? <==> p < 2
    ensures r.Null? <==> p > 32
    ensures r.Made? ==> r.address == HostMask(4, p)
  {
    if p > 32 then Null else if p < 2 then Undefined else Made(BigEndian(Pow2(32 - p) - 1, 4))
  }

  function BroadcastAddress4(a: seq<byte>, p: nat): Made<seq<byte>>
    requires |a| == 4
  {
    match HostMask4(p)
    case Made(mask) => Made(OrOctets(a, mask))
    case Null => Null
    case Undefined => Undefined
  }

  function NetworkAddress4(a: seq<byte>, p: nat): Made<seq<byte>>
    requires |a| == 4
  {
    match HostMask4(p)
    case Made(mask) => Made(AndOctets(a, NotOctets(mask)))
    case Null => Null
    case Undefined => Undefined
  }

  function SubnetMask4(p: nat): Made<seq<byte>> {
    match HostMask4(p)
    case Made(mask) => Made(NotOctets(mask))
    case Null => Null
    case Undefined => Undefined
  }

  // For 2 to 32 bits all three are made: the range from network to broadcast address holds exactly the addresses with
  // the same first p bits, and the mask counts p bits.
  lemma Subnet4(a: seq<byte>, x: seq<byte>, p: nat)
    requires |a| == 4 && |x| == 4
    ensures var network, broadcast, mask := NetworkAddress4(a, p), BroadcastAddress4(a, p), SubnetMask4(p);
            && (2 <= p <= 32 <==> network.Made?) && (2 <= p <= 32 <==> broadcast.Made?)
            && (2 <= p <= 32 <==> mask.Made?)
            && (p < 2 <==> network.Undefined?) && (p < 2 <==> broadcast.Undefined?) && (p < 2 <==> mask.Undefined?)
            && (2 <= p <= 32 ==>
                  && (Value(network.address) <= Value(x) <= Value(broadcast.address) <==>
                      Leading(x, p) == Leading(a, p))
                  && BitSum(mask.address) == p && Value(mask.address) == Pow2(32) - Pow2(32 - p))
  {
    hide Value, BitSum, Leading, HostMask4, BigEndian, AndOctets, OrOctets, NotOctets, HostMask;
    if 2 <= p <= 32 {
      BetweenIffSameNetwork(a, x, p);
      MaskCountsPrefix(4, p);
      MaskValue(4, p);
    }
  }

  // The prefix length of a netmask held as a 32-bit number of a little-endian machine.
  method PrefixLength4(netmask: seq<byte>) returns (prefix: nat)
    requires |netmask| == 4
    ensures prefix == BitSum(netmask)
  {
    CountOfLittleEndian(netmask);
    prefix := CountBytes(FromLittleEndian(netmask));
  }

  // --- IPv6 --------------------------------------------------------------------------------------------------

  // The prefix length of a 16-octet netmask, octet by octet.
  method PrefixLength6(netmask: array<byte>) returns (prefix: nat)
    requires netmask.Length == 16
    ensures prefix == BitSum(netmask[..])
  {
    prefix := 0;
    var i := 0;
    while i < 16
      invariant 0 <= i <= 16 && prefix == BitSum(netmask[..i])
    {
      var count := CountBytes(netmask[i] as nat);
      prefix := prefix + count;
      assert netmask[..i + 1][..i] == netmask[..i];
      i := i + 1;
    }
    assert netmask[..16] == netmask[..];
  }

  class Ipv6Address {
    const octets: array<byte>
    const port: nat

    constructor (octets: array<byte>, port: nat)
      ensures this.octets == octets && this.port == port
    {
      this.octets, this.port := octets, port;
    }

    // The octet where the prefix ends keeps its high bits; `bits` is below 8.
    static function PartialMask(bits: nat): (r: byte)
      requires bits < 8
      ensures r as nat == Pow2(8 - bits) - 1
    {
      EightBits();
      PowMonotone(8 - bits, 8);
      (Pow2(8 - bits) - 1) as byte
    }

    method Copy() returns (copy: array<byte>)
      ensures fresh(copy) && copy[..] == octets[..]
    {
      copy := new byte[octets.Length];
      forall i | 0 <= i < octets.Length {
        copy[i] := octets[i];
      }
    }

    // From 128 bits on the octet where the prefix ends lies outside the address.
    method BroadcastAddress(p: nat) returns (made: Made<Ipv6Address>)
      requires octets.Length == 16
      ensures if p >= 128 then made.Undefined? else made.Made?
      ensures made.Made? ==> fresh(made.address) && fresh(made.address.octets) && made.address.port == port
      ensures made.Made? ==> made.address.octets[..] == Broadcast(octets[..], p)
      ensures octets[..] == old(octets[..])
    {
      hide Or, And, HostMask, BigEndian;
      if p / 8 >= 16 {
        return Undefined;
      }
      var address := Copy();
      address[p / 8] := OrOctet(address[p / 8], PartialMask(p % 8));
      for i := p / 8 + 1 to 16
        invariant forall j :: p / 8 < j < i ==> address[j] == 0xFF
        invariant forall j :: 0 <= j < p / 8 || i <= j < 16 ==> address[j] == octets[j]
        invariant address[p / 8] == OrOctet(octets[p / 8], PartialMask(p % 8))
        invariant octets[..] == old(octets[..])
      {
        address[i] := 0xFF;
      }
      forall i | 0 <= i < 16
        ensures address[i] == Broadcast(octets[..], p)[i]
      {
        MaskOctet(16, p, i);
        JoinOctet(octets[i]);
      }
      assert address[..] == Broadcast(octets[..], p);
      var masked := new Ipv6Address(address, port);
      made := Made(masked);
    }

    method NetworkAddress(p: nat) returns (made: Made<Ipv6Address>)
      requires octets.Length == 16
      ensures if p >= 128 then made.Undefined? else made.Made?
      ensures made.Made? ==> fresh(made.address) && fresh(made.address.octets) && made.address.port == port
      ensures made.Made? ==> made.address.octets[..] == Network(octets[..], p)
      ensures octets[..] == old(octets[..])
    {
      hide Or, And, HostMask, BigEndian;
      if p / 8 >= 16 {
        return Undefined;
      }
      var address := Copy();
      address[p / 8] := And(address[p / 8] as nat, (255 - PartialMask(p % 8)) as nat) as byte;
      for i := p / 8 + 1 to 16
        invariant forall j :: p / 8 < j < i ==> address[j] == 0
        invariant forall j :: 0 <= j < p / 8 || i <= j < 16 ==> address[j] == octets[j]
        invariant address[p / 8] == And(octets[p / 8] as nat, (255 - PartialMask(p % 8)) as nat) as byte
        invariant octets[..] == old(octets[..])
      {
        address[i] := 0;
      }
      forall i | 0 <= i < 16
        ensures address[i] == Network(octets[..], p)[i]
      {
        MaskOctet(16, p, i);
        JoinOctet(octets[i]);
      }
      assert address[..] == Network(octets[..], p);
      var masked := new Ipv6Address(address, port);
      made := Made(masked);
    }

    // The mask of a prefix; it carries no port.
    method MakeSubnetMask(p: nat) returns (made: Made<Ipv6Address>)
      ensures if p >= 128 then made.Undefined? else made.Made?
      ensures made.Made? ==> made.address.octets[..] == SubnetMask(16, p) && made.address.port == 0
    {
      hide HostMask, BigEndian;
      if p / 8 >= 16 {
        return Undefined;
      }
      var address := new byte[16](i => 0);
      address[p / 8] := 255 - PartialMask(p % 8);
      for i := 0 to p / 8
        invariant forall j :: 0 <= j < i ==> address[j] == 0xFF
        invariant forall j :: p / 8 < j < 16 ==> address[j] == 0
        invariant address[p / 8] == 255 - PartialMask(p % 8)
      {
        address[i] := 0xFF;
      }
      forall i | 0 <= i < 16
        ensures address[i] == SubnetMask(16, p)[i]
      {
        MaskOctet(16, p, i);
      }
      assert address[..] == SubnetMask(16, p);
      var mask := new Ipv6Address(address, 0);
      made := Made(mask);
    }
  }

  // Joining nothing or everything, keeping everything or nothing.
  lemma JoinOctet(a: byte)
    ensures Or(a as nat, 0) == a as nat && Or(a as nat, 255) == 255
    ensures And(a as nat, 255) == a as nat && And(a as nat, 0) == 0
  {
    hide And, Or;
    EightBits();
    OrNothing(a as nat);
    OrLow(a as nat, 8);
    AndLow(a as nat, 8);
    assert a as nat % 256 == a as nat;
  }

  // For 0 to 127 bits: the range from network to broadcast address, and the bits of the mask.
  lemma Subnet6(a: seq<byte>, x: seq<byte>, p: nat)
    requires |a| == 16 && |x| == 16 && p < 128
    ensures Value(Network(a, p)) <= Value(x) <= Value(Broadcast(a, p)) <==> Leading(x, p) == Leading(a, p)
    ensures BitSum(SubnetMask(16, p)) == p && Value(SubnetMask(16, p)) == Pow2(128) - Pow2(128 - p)
  {
    hide *;
    BetweenIffSameNetwork(a, x, p);
    MaskCountsPrefix(16, p);
    MaskValue(16, p);
  }
}
