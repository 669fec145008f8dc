/** The byte formats of the typed stream. */
module Encoding {

  // Little-endian fixed widths, groups of seven bits with a continuation bit, zigzag signed numbers and length-prefixed
  // strings, all in numbers: `>> 7` is `/ 128`, and the methods that use `&` and `|` are proved equal to these formats.

  import opened Blocks

  // 256 to the power of w: what w bytes can count.
  function Bound(w: nat): (r: nat)
    ensures r > 0
  {
    if w == 0 then 1 else 256 * Bound(w - 1)
  }

  // 128 to the power of k.
  function Groups(k: nat): (r: nat)
    ensures r > 0
  {
    if k == 0 then 1 else 128 * Groups(k - 1)
  }

  // --- fixed widths ------------------------------------------------------------------------------------------

  function LittleEndian(v: nat, w: nat): (r: seq<byte>)
    ensures |r| == w
  {
    if w == 0 then [] else [(v % 256) as byte] + LittleEndian(v / 256, w - 1)
  }

  function FromLittleEndian(s: seq<byte>): (r: nat)
    ensures r < Bound(|s|)
  {
    if s == [] then 0 else s[0] as nat + 256 * FromLittleEndian(s[1..])
  }

  // Reading back what was written keeps the low bytes; nothing is lost below the bound.
  lemma {:induction false} FixedRoundTrip(v: nat, w: nat)
    ensures FromLittleEndian(LittleEndian(v, w)) == v % Bound(w)
  {
    if w > 0 {
      FixedRoundTrip(v / 256, w - 1);
      assert LittleEndian(v, w)[1..] == LittleEndian(v / 256, w - 1);
      SplitRemainder(v, 256, Bound(w - 1));
    }
  }

  lemma Spread(a: nat, b: nat, c: nat)
    ensures a * (b * c) == b * (a * c) && (a + 1) * b == a * b + b
  {
  }

  lemma Monotone(a: nat, b: nat, c: nat)
    requires a <= b
    ensures a * c <= b * c
  {
  }

  // The remainder by a product, unit first.
  lemma SplitRemainder(v: nat, unit: nat, rest: nat)
    requires unit > 0 && rest > 0
    ensures unit * rest > 0
    ensures v % (unit * rest) == v % unit + v / unit % rest * unit
    ensures v / (unit * rest) == v / unit / rest
  {
    var q := v / unit;
    Divided(v, unit);
    Divided(q, rest);
    var k, r := q / rest, q % rest;
    assert v == (k * rest + r) * unit + v % unit;
    Product(k, rest, r, unit);
    Monotone(r + 1, rest, unit);
    Spread(r, unit, 1);
    Remainder(v, unit * rest, k, v % unit + r * unit);
  }

  lemma Product(k: nat, rest: nat, r: nat, unit: nat)
    ensures (k * rest + r) * unit == k * (unit * rest) + r * unit
  {
  }

  lemma Remainder(v: nat, b: nat, q: nat, r: nat)
    requires b > 0 && v == q * b + r && r < b
    ensures v % b == r && v / b == q
  {
    DivisionAt(v, q, b);
  }

  // Byte i of a number is its digit i in base 256, so the low one comes first.
  lemma {:induction false} LittleEndianAt(v: nat, w: nat, i: nat)
    requires i < w
    ensures LittleEndian(v, w)[i] as nat == v / Bound(i) % 256
  {
    if i > 0 {
      LittleEndianAt(v / 256, w - 1, i - 1);
      SplitRemainder(v, 256, Bound(i - 1));
    }
  }

  lemma {:induction false} BytesReadBack(s: seq<byte>)
    ensures LittleEndian(FromLittleEndian(s), |s|) == s
  {
    if s != [] {
      BytesReadBack(s[1..]);
      Remainder(FromLittleEndian(s), 256, FromLittleEndian(s[1..]), s[0] as nat);
    }
  }

  // And the number some bytes stand for has just those digits.
  lemma FromLittleEndianAt(s: seq<byte>, i: nat)
    requires i < |s|
    ensures FromLittleEndian(s) / Bound(i) % 256 == s[i] as nat && FromLittleEndian(s) < Bound(|s|)
  {
    BytesReadBack(s);
    LittleEndianAt(FromLittleEndian(s), |s|, i);
  }

  // --- signed numbers ----------------------------------------------------------------------------------------

  predicate InSigned(n: int, w: nat) {
    0 <= 2 * n + Bound(w) && 2 * n < Bound(w)
  }

  // The bits of a signed number, and the number they stand for.
  function ToBits(n: int, w: nat): (r: nat)
    requires InSigned(n, w)
    ensures r < Bound(w)
  {
    if n < 0 then n + Bound(w) else n
  }

  function FromBits(u: nat, w: nat): int
    requires u < Bound(w)
  {
    if 2 * u < Bound(w) then u else u - Bound(w)
  }

  // Two's complement: bits and number differ by nothing or by one bound.
  lemma TwosComplement(n: int, u: nat, w: nat)
    requires InSigned(n, w) && u < Bound(w)
    ensures ToBits(n, w) == if n < 0 then n + Bound(w) else n
    ensures FromBits(ToBits(n, w), w) == n && ToBits(FromBits(u, w), w) == u
  {
  }

  // Negation as the machine does it: the smallest number is its own negation.
  function Negated(n: int, w: nat): (r: int)
    requires InSigned(n, w)
    ensures w > 0 ==> InSigned(r, w)
  {
    if 2 * n + Bound(w) == 0 then n else -n
  }

  // Twice the size, minus one for a negative number; all unsigned.
  function EncodeZigzag(n: int, w: nat): (r: nat)
    requires w > 0 && InSigned(n, w)
    ensures r < Bound(w)
  {
    if n < 0 then (ToBits(Negated(n, w), w) * 2 % Bound(w) + Bound(w) - 1) % Bound(w)
    else n * 2
  }

  // Half of it, with every bit flipped for an odd code.
  function DecodeZigzag(u: nat, w: nat): (n: int)
    requires w > 0 && u < Bound(w)
    ensures InSigned(n, w)
  {
    FromBits(if u % 2 == 0 then u / 2 else Bound(w) - 1 - u / 2, w)
  }

  // Both ways, the smallest number included; and the code of a number is small when the number is.
  lemma ZigzagRoundTrip(n: int, u: nat, w: nat)
    requires w > 0 && InSigned(n, w) && u < Bound(w)
    ensures DecodeZigzag(EncodeZigzag(n, w), w) == n
    ensures EncodeZigzag(DecodeZigzag(u, w), w) == u
    ensures EncodeZigzag(n, w) == if n < 0 then -2 * n - 1 else 2 * n
  {
    hide EncodeZigzag, DecodeZigzag;
    var h := 128 * Bound(w - 1);
    assert Bound(w) == 2 * h;
    ZigzagCode(n, w, h);
    ZigzagCode(DecodeZigzag(u, w), w, h);
    ZigzagDecoded(EncodeZigzag(n, w), w, h);
    ZigzagDecoded(u, w, h);
  }

  lemma ZigzagDecoded(u: nat, w: nat, h: nat)
    requires w > 0 && u < Bound(w) && Bound(w) == 2 * h
    ensures DecodeZigzag(u, w) == if u % 2 == 0 then u / 2 else -(u / 2) - 1
  {
    hide Bound;
  }

  lemma ZigzagCode(n: int, w: nat, h: nat)
    requires w > 0 && InSigned(n, w) && Bound(w) == 2 * h
    ensures EncodeZigzag(n, w) == if n < 0 then -2 * n - 1 else 2 * n
  {
    hide Bound;
    if n + h == 0 {
      assert ToBits(n, w) == h;
      Remainder(2 * h, 2 * h, 1, 0);
      Remainder(2 * h - 1, 2 * h, 0, 2 * h - 1);
    } else if n < 0 {
      Remainder(-2 * n, 2 * h, 0, -2 * n);
      Remainder(-2 * n + 2 * h - 1, 2 * h, 1, -2 * n - 1);
    }
  }

  // --- seven bits a byte -------------------------------------------------------------------------------------

  // What a reader finds at a place: a value and where it ends, or the data end first, or a length is more than a string
  // can have, with the position moved to where reading stopped.
  datatype Parsed<+T> = Parsed(value: T, next: nat) | Short(next: nat) | TooLong(next: nat)

  function Varint(v: nat): (r: seq<byte>)
    ensures |r| > 0
  {
    if v < 128 then [v as byte] else [(v % 128 + 128) as byte] + Varint(v / 128)
  }

  // Up to `limit` groups; the value may exceed what the result type holds.
  function ParseVarint(data: seq<byte>, at: nat, limit: nat): (r: Parsed<nat>)
    requires at <= |data|
    ensures at <= r.next <= |data|
    decreases limit
  {
    if limit == 0 then Parsed(0, at)
    else if at == |data| then Short(at)
    else if data[at] < 128 then Parsed(data[at] as nat, at + 1)
    else match ParseVarint(data, at + 1, limit - 1)
         case Parsed(rest, next) => Parsed(data[at] as nat - 128 + 128 * rest, next)
         case Short(next) => Short(next)
         case TooLong(next) => TooLong(next)
  }

  // k bytes are enough for exactly the numbers below 2^(7k).
  lemma {:induction false} VarintLength(v: nat, k: nat)
    requires k > 0
    ensures |Varint(v)| <= k <==> v < Groups(k)
  {
    if v >= 128 {
      if k > 1 {
        VarintLength(v / 128, k - 1);
        var g := Groups(k - 1);
        assert v == 128 * (v / 128) + v % 128;
        assert v / 128 < g <==> v < 128 * g;
      } else {
        assert Groups(0) == 1;
        assert Groups(1) == 128;
      }
    } else if k > 1 {
      assert Groups(k) >= 128;
    } else {
      assert Groups(0) == 1;
    }
  }

  // Wherever it stands, an encoded number is read back, and nothing behind it is touched.
  lemma {:induction false} VarintRoundTrip(before: seq<byte>, v: nat, after: seq<byte>, limit: nat)
    requires |Varint(v)| <= limit
    ensures ParseVarint(before + Varint(v) + after, |before|, limit) == Parsed(v, |before| + |Varint(v)|)
    decreases limit
  {
    var data := before + Varint(v) + after;
    assert data[|before|] == Varint(v)[0];
    if v >= 128 {
      var front := before + [Varint(v)[0]];
      assert data == front + Varint(v / 128) + after;
      VarintRoundTrip(front, v / 128, after, limit - 1);
    }
  }

  // Digit i of a number in base 128.
  function Group(v: nat, i: nat): nat {
    v / Groups(i) % 128
  }

  // Byte i holds digit i in base 128, with 128 more in every byte but the last.
  lemma {:induction false} VarintAt(v: nat, i: nat)
    requires i < |Varint(v)|
    ensures Varint(v)[i] as nat == Group(v, i) + if i + 1 < |Varint(v)| then 128 else 0
    ensures i + 1 == |Varint(v)| ==> v / Groups(i) < 128
  {
    if v >= 128 && i > 0 {
      VarintAt(v / 128, i - 1);
      SplitRemainder(v, 128, Groups(i - 1));
    }
  }

  // The groups before the end are all continued.
  predicate Continued(data: seq<byte>, at: nat, n: nat)
    requires at + n <= |data|
  {
    forall i :: at <= i < at + n ==> data[i] >= 128
  }

  // One more group below the others.
  lemma GroupBelow(low: nat, rest: nat, i: nat)
    requires low < 128
    ensures Group(low + 128 * rest, i) == if i == 0 then low else Group(rest, i - 1)
    ensures low + 128 * rest < Groups(i + 1) <==> rest < Groups(i)
  {
    var v := low + 128 * rest;
    Remainder(v, 128, rest, low);
    if i == 0 {
      assert Groups(0) == 1 && Groups(1) == 128;
    } else {
      SplitRemainder(v, 128, Groups(i - 1));
    }
  }

  // Whatever the data: a number ends with the first byte below 128 or with the last group allowed, and its digits in
  // base 128 are the low seven bits of its bytes.
  lemma {:induction false} VarintStops(data: seq<byte>, at: nat, limit: nat, n: nat)
    requires 0 < n <= limit && at + n <= |data| && Continued(data, at, n - 1)
    requires data[at + n - 1] < 128 || n == limit
    ensures ParseVarint(data, at, limit).Parsed? && ParseVarint(data, at, limit).next == at + n
    ensures ParseVarint(data, at, limit).value < Groups(n)
    ensures forall i :: 0 <= i < n ==> Group(ParseVarint(data, at, limit).value, i) == data[at + i] as nat % 128
    decreases n
  {
    hide Groups, Group;
    var low := data[at] as nat % 128;
    var rest := 0;
    if data[at] >= 128 {
      if n > 1 {
        VarintStops(data, at + 1, limit - 1, n - 1);
      }
      rest := ParseVarint(data, at + 1, limit - 1).value;
    }
    var value := low + 128 * rest;
    assert ParseVarint(data, at, limit).value == value;
    GroupBelow(low, rest, n - 1);
    forall i | 0 <= i < n
      ensures Group(value, i) == data[at + i] as nat % 128
    {
      GroupBelow(low, rest, i);
      assert i > 0 ==> Group(rest, i - 1) == data[at + 1 + (i - 1)] as nat % 128;
    }
  }

  // And it runs short exactly when the data end before either.
  lemma {:induction false} VarintRunsShort(data: seq<byte>, at: nat, limit: nat)
    requires at <= |data|
    ensures ParseVarint(data, at, limit).Short? <==> |data| - at < limit && Continued(data, at, |data| - at)
    ensures ParseVarint(data, at, limit).Short? ==> ParseVarint(data, at, limit).next == |data|
    ensures !ParseVarint(data, at, limit).TooLong?
    decreases limit
  {
    if limit > 0 && at < |data| && data[at] >= 128 {
      VarintRunsShort(data, at + 1, limit - 1);
    }
  }

  // A varint below the bound of its type fits in the groups its reader accepts: 5 for 32 bits, 10 for 64.
  function Limit(w: nat): nat {
    if w == 4 then 5 else 10
  }

  lemma VarintFits(v: nat, w: nat)
    requires (w == 4 || w == 8) && v < Bound(w)
    ensures |Varint(v)| <= Limit(w)
  {
    BoundOfFour();
    GroupsOfFive();
    if w == 8 {
      BoundOfEight();
      assert Groups(10) == 128 * Groups(9) == 16384 * Groups(8) == 2097152 * Groups(7) ==
             268435456 * Groups(6) == 34359738368 * Groups(5);
    }
    VarintLength(v, Limit(w));
  }

  lemma BoundOfFour()
    ensures Bound(1) == 256 && Bound(2) == 65536 && Bound(4) == 4294967296
  {
    assert Bound(0) == 1;
    assert Bound(1) == 256;
    assert Bound(2) == 65536;
    assert Bound(3) == 16777216;
  }

  lemma BoundOfEight()
    ensures Bound(8) == 0x1_0000_0000_0000_0000
  {
    BoundOfFour();
    assert Bound(8) == 256 * Bound(7) == 65536 * Bound(6) == 16777216 * Bound(5) == 4294967296 * Bound(4);
  }

  lemma GroupsOfFive()
    ensures Groups(5) == 34359738368
  {
    assert Groups(0) == 1;
    assert Groups(1) == 128;
    assert Groups(2) == 16384;
    assert Groups(3) == 2097152;
    assert Groups(4) == 268435456;
  }
}
