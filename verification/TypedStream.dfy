/** The typed readers and writers of `ByteArray`, over one list of values. */
module TypedStream {

  // Numbers of fixed width, varints, zigzag varints and length-prefixed strings. Widths are in bytes; one byte order,
  // the little-endian one, is fixed.

  import opened Blocks
  import opened Encoding
  import opened Bits
  import B = ByteArray

  // std::string::max_size(), whatever the platform makes it.
  const MAX_TEXT: nat

  datatype Prefix = Two | Four | Eight | Packed

  datatype Kind =
    | Whole(width: nat)
    | Signed(width: nat)
    | Compressed(width: nat)
    | CompressedSigned(width: nat)
    | Text(prefix: Prefix)

  datatype Value = Number(n: int) | Chars(s: seq<byte>)

  // The kinds the class offers.
  predicate Known(kind: Kind) {
    match kind
    case Whole(w) => w == 1 || w == 2 || w == 4 || w == 8
    case Signed(w) => w == 1 || w == 2 || w == 4 || w == 8
    case Compressed(w) => w == 4 || w == 8
    case CompressedSigned(w) => w == 4 || w == 8
    case Text(_) => true
  }

  // The values a writer of that kind takes, by the type of its parameter.
  predicate Typed(kind: Kind, value: Value) {
    match kind
    case Whole(w) => value.Number? && 0 <= value.n < Bound(w)
    case Signed(w) => value.Number? && InSigned(value.n, w)
    case Compressed(w) => value.Number? && 0 <= value.n < Bound(w)
    case CompressedSigned(w) => value.Number? && InSigned(value.n, w)
    case Text(_) => value.Chars? && |value.s| <= MAX_TEXT
  }

  function PrefixBound(prefix: Prefix): (r: nat)
    ensures r > 0
  {
    match prefix
    case Two => Bound(2)
    case Four => Bound(4)
    case Eight => Bound(8)
    case Packed => Bound(8)
  }

  // The length as the prefix holds it: cut down to its type.
  function EncodeLength(prefix: Prefix, length: nat): (r: seq<byte>) {
    var n := length % PrefixBound(prefix);
    match prefix
    case Two => LittleEndian(n, 2)
    case Four => LittleEndian(n, 4)
    case Eight => LittleEndian(n, 8)
    case Packed => Varint(n)
  }

  function Encode(kind: Kind, value: Value): seq<byte>
    requires Known(kind) && Typed(kind, value)
  {
    match kind
    case Whole(w) => LittleEndian(value.n, w)
    case Signed(w) => LittleEndian(ToBits(value.n, w), w)
    case Compressed(w) => Varint(value.n)
    case CompressedSigned(w) => Varint(EncodeZigzag(value.n, w))
    case Text(prefix) => EncodeLength(prefix, |value.s|) + value.s
  }

  // --- reading -----------------------------------------------------------------------------------------------

  function ParseFixed(data: seq<byte>, at: nat, w: nat): (r: Parsed<nat>)
    requires at <= |data|
    ensures at <= r.next <= |data|
    ensures r.Parsed? ==> r.value < Bound(w)
  {
    if at + w <= |data| then Parsed(FromLittleEndian(data[at..at + w]), at + w) else Short(at)
  }

  // A number cut down to w bytes.
  function CutTo(n: nat, w: nat): (r: nat)
    ensures r < Bound(w)
  {
    n % Bound(w)
  }

  function ParseCompressed(data: seq<byte>, at: nat, w: nat): (r: Parsed<nat>)
    requires at <= |data|
    ensures at <= r.next <= |data|
    ensures r.Parsed? ==> r.value < Bound(w)
  {
    match ParseVarint(data, at, Limit(w))
    case Parsed(n, next) => Parsed(CutTo(n, w), next)
    case Short(next) => Short(next)
    case TooLong(next) => TooLong(next)
  }

  function ParseLength(prefix: Prefix, data: seq<byte>, at: nat): (r: Parsed<nat>)
    requires at <= |data|
    ensures at <= r.next <= |data|
  {
    match prefix
    case Two => ParseFixed(data, at, 2)
    case Four => ParseFixed(data, at, 4)
    case Eight => ParseFixed(data, at, 8)
    case Packed => ParseCompressed(data, at, 8)
  }

  // The string is resized to its length before its bytes are looked for.
  function ParseText(prefix: Prefix, data: seq<byte>, at: nat): (r: Parsed<Value>)
    requires at <= |data|
    ensures at <= r.next <= |data|
  {
    match ParseLength(prefix, data, at)
    case Parsed(length, next) =>
      if length > MAX_TEXT then TooLong(next)
      else if next + length <= |data| then Parsed(Chars(data[next..next + length]), next + length)
      else Short(next)
    case Short(next) => Short(next)
    case TooLong(next) => TooLong(next)
  }

  // A number as its reader returns it.
  function Interpret(kind: Kind, bits: nat): int
    requires Known(kind) && !kind.Text? && bits < Bound(kind.width)
  {
    match kind
    case Whole(_) => bits
    case Signed(w) => FromBits(bits, w)
    case Compressed(_) => bits
    case CompressedSigned(w) => DecodeZigzag(bits, w)
  }

  function Parse(kind: Kind, data: seq<byte>, at: nat): (r: Parsed<Value>)
    requires Known(kind) && at <= |data|
    ensures at <= r.next <= |data|
  {
    if kind.Text? then ParseText(kind.prefix, data, at)
    else
      var bits := if kind.Whole? || kind.Signed? then ParseFixed(data, at, kind.width)
                  else ParseCompressed(data, at, kind.width);
      match bits
      case Parsed(u, next) => Parsed(Number(Interpret(kind, u)), next)
      case Short(next) => Short(next)
      case TooLong(next) => TooLong(next)
  }

  // --- the wire format ---------------------------------------------------------------------------------------

  // The bytes of a number in base 256, the low one first.
  ghost predicate Bytes(code: seq<byte>, n: nat, w: nat) {
    |code| == w && forall i :: 0 <= i < w ==> code[i] as nat == n / Bound(i) % 256
  }

  // Its digits in base 128, the low one first, with the high bit set in every byte but the last; the last is not a
  // needless zero.
  ghost predicate Sevens(code: seq<byte>, n: nat) {
    && code != [] && n < Groups(|code|) && (|code| > 1 ==> n >= Groups(|code| - 1))
    && forall i :: 0 <= i < |code| ==>
                     code[i] as nat == Group(n, i) + if i + 1 < |code| then 128 else 0
  }

  lemma FixedBytes(n: nat, w: nat)
    ensures Bytes(LittleEndian(n, w), n, w)
  {
    forall i | 0 <= i < w
      ensures LittleEndian(n, w)[i] as nat == n / Bound(i) % 256
    {
      LittleEndianAt(n, w, i);
    }
  }

  lemma VarintSevens(n: nat)
    ensures Sevens(Varint(n), n)
  {
    hide Varint, Groups;
    var k := |Varint(n)|;
    VarintLength(n, k);
    if k > 1 {
      VarintLength(n, k - 1);
    }
    forall i | 0 <= i < k
      ensures Varint(n)[i] as nat == Group(n, i) + if i + 1 < k then 128 else 0
    {
      VarintAt(n, i);
    }
  }

  lemma Bounds()
    ensures Bound(2) == 0x1_0000 && Bound(4) == 0x1_0000_0000 && Bound(8) == 0x1_0000_0000_0000_0000
  {
    BoundOfFour();
    BoundOfEight();
  }

  // A prefix of two, four or eight bytes, or a varint, holds the length cut down to 16, 32 or 64 bits.
  lemma PrefixOnWire(prefix: Prefix, length: nat)
    ensures var code := EncodeLength(prefix, length);
            match prefix
            case Two => Bytes(code, length % 0x1_0000, 2)
            case Four => Bytes(code, length % 0x1_0000_0000, 4)
            case Eight => Bytes(code, length % 0x1_0000_0000_0000_0000, 8)
            case Packed => Sevens(code, length % 0x1_0000_0000_0000_0000)
  {
    hide Bytes, Sevens, Bound, LittleEndian, Varint;
    Bounds();
    var n := length % PrefixBound(prefix);
    match prefix
    case Two => FixedBytes(n, 2);
    case Four => FixedBytes(n, 4);
    case Eight => FixedBytes(n, 8);
    case Packed => VarintSevens(n);
  }

  // What each writer puts on the wire.
  lemma OnWire(kind: Kind, value: Value)
    requires Known(kind) && Typed(kind, value)
    ensures var code := Encode(kind, value);
            match kind
            case Whole(w) => Bytes(code, value.n, w)
            case Signed(w) => Bytes(code, if value.n < 0 then value.n + Bound(w) else value.n, w)
            case Compressed(w) => Sevens(code, value.n)
            case CompressedSigned(w) => Sevens(code, if value.n < 0 then -2 * value.n - 1 else 2 * value.n)
            case Text(prefix) => code == EncodeLength(prefix, |value.s|) + value.s
  {
    hide Bytes, Sevens, LittleEndian, Varint, EncodeLength, EncodeZigzag, DecodeZigzag;
    match kind
    case Whole(w) => FixedBytes(value.n, w);
    case Signed(w) =>
      TwosComplement(value.n, 0, w);
      FixedBytes(ToBits(value.n, w), w);
    case Compressed(w) => VarintSevens(value.n);
    case CompressedSigned(w) =>
      ZigzagRoundTrip(value.n, 0, w);
      VarintSevens(EncodeZigzag(value.n, w));
    case Text(_) =>
  }

  // Whatever the data, a fixed-width reader takes w bytes, or none when they are not there.
  lemma FixedFromWire(data: seq<byte>, at: nat, w: nat)
    requires at <= |data|
    ensures var r := ParseFixed(data, at, w);
            if at + w <= |data| then r.Parsed? && r.next == at + w && Bytes(data[at..at + w], r.value, w)
            else r == Short(at)
  {
    if at + w <= |data| {
      BytesReadBack(data[at..at + w]);
      FixedBytes(FromLittleEndian(data[at..at + w]), w);
    }
  }

  // A varint reader takes the bytes up to the first one below 128, but never more than 5 or 10; n is how many.
  lemma CompressedFromWire(data: seq<byte>, at: nat, w: nat, n: nat) returns (exact: nat)
    requires (w == 4 || w == 8) && 0 < n <= (if w == 4 then 5 else 10) && at + n <= |data|
    requires Continued(data, at, n - 1) && (data[at + n - 1] < 128 || n == if w == 4 then 5 else 10)
    ensures ParseCompressed(data, at, w) == Parsed(exact % Bound(w), at + n) && exact < Groups(n)
    ensures forall i :: 0 <= i < n ==> Group(exact, i) == data[at + i] as nat % 128
  {
    hide ParseVarint;
    VarintStops(data, at, Limit(w), n);
    exact := ParseVarint(data, at, Limit(w)).value;
  }

  // It runs short exactly when the data end before that.
  lemma CompressedRunsShort(data: seq<byte>, at: nat, w: nat)
    requires (w == 4 || w == 8) && at <= |data|
    ensures var r := ParseCompressed(data, at, w);
            && (r.Short? <==> |data| - at < (if w == 4 then 5 else 10) && Continued(data, at, |data| - at))
            && (r.Short? ==> r.next == |data|) && !r.TooLong?
  {
    hide ParseVarint;
    VarintRunsShort(data, at, Limit(w));
  }

  // Whatever the data, a length takes two, four or eight bytes, or a varint of 64 bits, or runs short.
  lemma PrefixFromWire(prefix: Prefix, data: seq<byte>, at: nat)
    requires at <= |data|
    ensures var r := ParseLength(prefix, data, at);
            match prefix
            case Two =>
              if at + 2 <= |data| then r.Parsed? && r.next == at + 2 && Bytes(data[at..at + 2], r.value, 2)
              else r == Short(at)
            case Four =>
              if at + 4 <= |data| then r.Parsed? && r.next == at + 4 && Bytes(data[at..at + 4], r.value, 4)
              else r == Short(at)
            case Eight =>
              if at + 8 <= |data| then r.Parsed? && r.next == at + 8 && Bytes(data[at..at + 8], r.value, 8)
              else r == Short(at)
            case Packed => r == ParseCompressed(data, at, 8)
    ensures prefix.Two? && ParseLength(prefix, data, at).Parsed? ==>
              ParseLength(prefix, data, at).value == data[at] as nat + 256 * data[at + 1] as nat
  {
    hide Bytes, ParseFixed, ParseCompressed;
    match prefix
    case Two =>
      FixedFromWire(data, at, 2);
      if at + 2 <= |data| {
        TwoBytes(data, at);
      }
    case Four => FixedFromWire(data, at, 4);
    case Eight => FixedFromWire(data, at, 8);
    case Packed =>
  }

  lemma TwoBytes(data: seq<byte>, at: nat)
    requires at + 2 <= |data|
    ensures ParseFixed(data, at, 2) == Parsed(data[at] as nat + 256 * data[at + 1] as nat, at + 2)
  {
    var two := data[at..at + 2];
    assert two[1..] == [data[at + 1]] && [data[at + 1]][1..] == [];
    assert FromLittleEndian([data[at + 1]]) == data[at + 1] as nat + 256 * FromLittleEndian([]);
  }

  // What a reader makes of the bits it took: themselves, or the signed number they are the two's complement or the
  // zigzag code of.
  lemma NumberFromBits(kind: Kind, bits: nat)
    requires Known(kind) && !kind.Text? && bits < Bound(kind.width)
    ensures var n := Interpret(kind, bits);
            match kind
            case Whole(_) => n == bits
            case Signed(w) => InSigned(n, w) && bits == if n < 0 then n + Bound(w) else n
            case Compressed(_) => n == bits
            case CompressedSigned(w) => InSigned(n, w) && bits == if n < 0 then -2 * n - 1 else 2 * n
  {
    hide EncodeZigzag, DecodeZigzag;
    match kind
    case Signed(w) => TwosComplement(Interpret(kind, bits), bits, w);
    case CompressedSigned(w) =>
      ZigzagRoundTrip(0, bits, w);
      ZigzagRoundTrip(Interpret(kind, bits), 0, w);
    case _ =>
  }

  // Which bits the reader of a number takes.
  lemma NumberFromWire(kind: Kind, data: seq<byte>, at: nat)
    requires Known(kind) && !kind.Text? && at <= |data|
    ensures var r := Parse(kind, data, at);
            var bits := if kind.Whole? || kind.Signed? then ParseFixed(data, at, kind.width)
                        else ParseCompressed(data, at, kind.width);
            r == if bits.Parsed? then Parsed(Number(Interpret(kind, bits.value)), bits.next) else Short(bits.next)
  {
    hide ParseFixed, ParseCompressed, Interpret;
    if kind.Whole? || kind.Signed? {
      FixedFromWire(data, at, kind.width);
    } else {
      CompressedRunsShort(data, at, kind.width);
    }
  }

  // A text reader takes a length and then that many bytes, unless no string has that length or they are not there.
  lemma TextFromWire(prefix: Prefix, data: seq<byte>, at: nat)
    requires at <= |data|
    ensures var r, length := Parse(Text(prefix), data, at), ParseLength(prefix, data, at);
            && (!length.Parsed? ==> r == Short(length.next))
            && (length.Parsed? && length.value > MAX_TEXT ==> r == TooLong(length.next))
            && (length.Parsed? && length.value <= MAX_TEXT ==>
                  if length.next + length.value > |data| then r == Short(length.next)
                  else
                    && r.Parsed? && r.next == length.next + length.value && r.value.Chars?
                    && |r.value.s| == length.value
                    && forall i :: 0 <= i < |r.value.s| ==> r.value.s[i] == data[length.next + i])
  {
    hide ParseFixed, ParseCompressed;
    PrefixFromWire(prefix, data, at);
    CompressedRunsShort(data, at, 8);
  }

  // --- what is read back -------------------------------------------------------------------------------------

  lemma FixedReadsBack(before: seq<byte>, v: nat, w: nat, after: seq<byte>)
    requires v < Bound(w)
    ensures ParseFixed(before + LittleEndian(v, w) + after, |before|, w) == Parsed(v, |before| + w)
  {
    FixedRoundTrip(v, w);
    var data := before + LittleEndian(v, w) + after;
    assert data[|before|..|before| + w] == LittleEndian(v, w);
    Remainder(v, Bound(w), 0, v);
  }

  lemma CompressedReadsBack(before: seq<byte>, v: nat, w: nat, after: seq<byte>)
    requires (w == 4 || w == 8) && v < Bound(w)
    ensures ParseCompressed(before + Varint(v) + after, |before|, w) == Parsed(v, |before| + |Varint(v)|)
  {
    VarintFits(v, w);
    VarintRoundTrip(before, v, after, Limit(w));
    Remainder(v, Bound(w), 0, v);
  }

  lemma LengthReadsBack(before: seq<byte>, prefix: Prefix, length: nat, after: seq<byte>)
    ensures var code := EncodeLength(prefix, length);
            ParseLength(prefix, before + code + after, |before|) ==
            Parsed(length % PrefixBound(prefix), |before| + |code|)
  {
    var n := length % PrefixBound(prefix);
    match prefix
    case Two => FixedReadsBack(before, n, 2, after);
    case Four => FixedReadsBack(before, n, 4, after);
    case Eight => FixedReadsBack(before, n, 8, after);
    case Packed => CompressedReadsBack(before, n, 8, after);
  }

  lemma AtMost(n: nat, bound: nat)
    requires bound > 0
    ensures n % bound <= n
  {
  }

  // What a string reader returns: as much of the string as the prefix could count.
  lemma TextReadsBack(before: seq<byte>, prefix: Prefix, s: seq<byte>, after: seq<byte>)
    requires |s| <= MAX_TEXT
    ensures var code, kept := EncodeLength(prefix, |s|), |s| % PrefixBound(prefix);
            ParseText(prefix, before + (code + s) + after, |before|) ==
            Parsed(Chars(s[..kept]), |before| + |code| + kept)
  {
    hide EncodeLength, ParseLength, PrefixBound, Bound;
    var code := EncodeLength(prefix, |s|);
    var kept := |s| % PrefixBound(prefix);
    LengthReadsBack(before, prefix, |s|, s + after);
    var data := before + (code + s) + after;
    assert data == before + code + (s + after);
    AtMost(|s|, PrefixBound(prefix));
    assert data[|before| + |code|..|before| + |code| + kept] == s[..kept];
  }

  lemma NumberReadsBack(before: seq<byte>, kind: Kind, value: Value, after: seq<byte>)
    requires Known(kind) && Typed(kind, value) && !kind.Text?
    ensures Parse(kind, before + Encode(kind, value) + after, |before|) ==
            Parsed(value, |before| + |Encode(kind, value)|)
  {
    hide ParseFixed, ParseCompressed, LittleEndian, Varint, Bound, EncodeZigzag, DecodeZigzag;
    match kind
    case Whole(w) => FixedReadsBack(before, value.n, w, after);
    case Signed(w) => FixedReadsBack(before, ToBits(value.n, w), w, after);
    case Compressed(w) => CompressedReadsBack(before, value.n, w, after);
    case CompressedSigned(w) =>
      ZigzagRoundTrip(value.n, 0, w);
      CompressedReadsBack(before, EncodeZigzag(value.n, w), w, after);
  }

  // A value comes back whole, with the position behind it, exactly when its length fits its prefix.
  lemma ReadsBackIff(before: seq<byte>, kind: Kind, value: Value, after: seq<byte>)
    requires Known(kind) && Typed(kind, value)
    ensures Parse(kind, before + Encode(kind, value) + after, |before|) ==
            Parsed(value, |before| + |Encode(kind, value)|) <==>
            (kind.Text? ==> |value.s| < PrefixBound(kind.prefix))
  {
    hide EncodeLength, ParseText, PrefixBound, Bound;
    if kind.Text? {
      TextReadsBack(before, kind.prefix, value.s, after);
      var length, bound := |value.s|, PrefixBound(kind.prefix);
      assert length < bound ==> length % bound == length by {
        if length < bound { Remainder(length, bound, 0, length); }
      }
      assert value.s[..length] == value.s;
    } else {
      NumberReadsBack(before, kind, value, after);
    }
  }

  // --- lists of values ---------------------------------------------------------------------------------------

  datatype Item = Item(kind: Kind, value: Value)

  predicate Writable(items: seq<Item>) {
    forall i :: 0 <= i < |items| ==> Known(items[i].kind) && Typed(items[i].kind, items[i].value)
  }

  // No string is longer than its prefix can say.
  predicate Countable(items: seq<Item>) {
    forall i :: 0 <= i < |items| && items[i].kind.Text? && items[i].value.Chars? ==>
                  |items[i].value.s| < PrefixBound(items[i].kind.prefix)
  }

  function EncodeAll(items: seq<Item>): seq<byte>
    requires Writable(items)
  {
    if items == [] then [] else Encode(items[0].kind, items[0].value) + EncodeAll(items[1..])
  }

  function Kinds(items: seq<Item>): seq<Kind> {
    seq(|items|, i requires 0 <= i < |items| => items[i].kind)
  }

  function Values(items: seq<Item>): seq<Value> {
    seq(|items|, i requires 0 <= i < |items| => items[i].value)
  }

  // Values read before the rest.
  function Behind(values: seq<Value>, rest: Parsed<seq<Value>>): Parsed<seq<Value>> {
    match rest
    case Parsed(more, next) => Parsed(values + more, next)
    case Short(next) => Short(next)
    case TooLong(next) => TooLong(next)
  }

  predicate AllKnown(kinds: seq<Kind>) {
    forall i :: 0 <= i < |kinds| ==> Known(kinds[i])
  }

  function ParseAll(kinds: seq<Kind>, data: seq<byte>, at: nat): (r: Parsed<seq<Value>>)
    requires AllKnown(kinds) && at <= |data|
    ensures at <= r.next <= |data|
  {
    if kinds == [] then Parsed([], at)
    else
      match Parse(kinds[0], data, at)
      case Parsed(v, next) => Behind([v], ParseAll(kinds[1..], data, next))
      case Short(next) => Short(next)
      case TooLong(next) => TooLong(next)
  }

  lemma ParseOneMore(kinds: seq<Kind>, data: seq<byte>, at: nat, value: Value, next: nat)
    requires AllKnown(kinds) && kinds != [] && at <= |data| && Parse(kinds[0], data, at) == Parsed(value, next)
    ensures ParseAll(kinds, data, at) == Behind([value], ParseAll(kinds[1..], data, next))
  {
    hide Parse;
  }

  lemma ListParts(items: seq<Item>)
    requires Writable(items)
    ensures AllKnown(Kinds(items))
    ensures items != [] ==>
              && Kinds(items) == [items[0].kind] + Kinds(items[1..])
              && Values(items) == [items[0].value] + Values(items[1..])
              && EncodeAll(items) == Encode(items[0].kind, items[0].value) + EncodeAll(items[1..])
    ensures items == [] ==> Kinds(items) == [] && Values(items) == [] && EncodeAll(items) == []
  {
    hide Encode, Known;
  }

  // Any list of values written one after the other is read back by the matching readers, up to its last byte.
  lemma {:induction false} ListReadsBack(before: seq<byte>, items: seq<Item>, after: seq<byte>)
    requires Writable(items) && Countable(items)
    ensures AllKnown(Kinds(items))
    ensures ParseAll(Kinds(items), before + EncodeAll(items) + after, |before|) ==
            Parsed(Values(items), |before| + |EncodeAll(items)|)
    decreases |items|
  {
    hide Encode, EncodeAll, Parse, PrefixBound, Known, Kinds, Values;
    ListParts(items);
    var data := before + EncodeAll(items) + after;
    if items != [] {
      var kind, value := items[0].kind, items[0].value;
      var code, rest := Encode(kind, value), EncodeAll(items[1..]);
      ReadsBackIff(before, kind, value, rest + after);
      assert before + code + (rest + after) == data;
      ParseOneMore(Kinds(items), data, |before|, value, |before| + |code|);
      ListReadsBack(before + code, items[1..], after);
      assert (before + code) + rest + after == data;
      assert Kinds(items)[1..] == Kinds(items[1..]);
    }
  }

  // --- the writers -------------------------------------------------------------------------------------------

  method WriteFixed(b: B.ByteArray, v: nat, w: nat)
    requires b.Valid()
    modifies b, b.nodes, b.Buffers()
    ensures b.Valid() && b.Extended()
    ensures b.position == old(b.position) + w
    ensures b.Data() == Written(old(b.Data()), old(b.position), LittleEndian(v, w))
  {
    b.Write(LittleEndian(v, w));
  }

  lemma PowerOfSeven()
    ensures Pow2(7) == 128
  {
    ShiftBySeven(0);
  }

  // The byte operations of both loops, in numbers.
  lemma GroupBytes(v: nat)
    ensures And(v, 0x7F) == v % 128 && Or(And(v, 0x7F), 0x80) == v % 128 + 128
  {
    hide And, Or;
    PowerOfSeven();
    AndLow(v, 7);
    OrAbove(v % 128, 1, 7);
  }

  // Groups of seven bits go into a buffer of 5 or 10 bytes.
  method FillGroups(v: nat, w: nat) returns (groups: seq<byte>)
    requires (w == 4 || w == 8) && v < Bound(w)
    ensures groups == Varint(v)
  {
    hide And, Or;
    VarintFits(v, w);
    var buffer := new byte[Limit(w)];
    var rest, i := v, 0;
    while rest >= 128
      invariant 0 <= i && i + |Varint(rest)| == |Varint(v)| <= buffer.Length
      invariant buffer[..i] + Varint(rest) == Varint(v)
    {
      GroupBytes(rest);
      buffer[i] := Or(And(rest, 0x7F), 0x80) as byte;
      rest := rest / 128;
      i := i + 1;
    }
    buffer[i] := rest as byte;
    groups := buffer[..i + 1];
  }

  method WriteVarint(b: B.ByteArray, v: nat, w: nat)
    requires b.Valid() && (w == 4 || w == 8) && v < Bound(w)
    modifies b, b.nodes, b.Buffers()
    ensures b.Valid() && b.Extended()
    ensures b.position == old(b.position) + |Varint(v)|
    ensures b.Data() == Written(old(b.Data()), old(b.position), Varint(v))
  {
    var groups := FillGroups(v, w);
    b.Write(groups);
  }

  method WriteLength(b: B.ByteArray, prefix: Prefix, length: nat)
    requires b.Valid()
    modifies b, b.nodes, b.Buffers()
    ensures b.Valid() && b.Extended()
    ensures b.position == old(b.position) + |EncodeLength(prefix, length)|
    ensures b.Data() == Written(old(b.Data()), old(b.position), EncodeLength(prefix, length))
  {
    var n := length % PrefixBound(prefix);
    match prefix
    case Two => WriteFixed(b, n, 2);
    case Four => WriteFixed(b, n, 4);
    case Eight => WriteFixed(b, n, 8);
    case Packed => WriteVarint(b, n, 8);
  }

  method WriteText(b: B.ByteArray, prefix: Prefix, s: seq<byte>)
    requires b.Valid()
    modifies b, b.nodes, b.Buffers()
    ensures b.Valid() && b.Extended()
    ensures b.position == old(b.position) + |EncodeLength(prefix, |s|)| + |s|
    ensures b.Data() == Written(old(b.Data()), old(b.position), EncodeLength(prefix, |s|) + s)
  {
    hide EncodeLength, Written, At, Flat, B.ByteArray.Chained, B.ByteArray.Memory, B.ByteArray.NodeAt;
    WrittenTwice(b.Data(), b.position, EncodeLength(prefix, |s|), s);
    WriteLength(b, prefix, |s|);
    b.Write(s);
  }

  method WriteItem(b: B.ByteArray, kind: Kind, value: Value)
    requires b.Valid() && Known(kind) && Typed(kind, value)
    modifies b, b.nodes, b.Buffers()
    ensures b.Valid() && b.Extended()
    ensures b.position == old(b.position) + |Encode(kind, value)|
    ensures b.Data() == Written(old(b.Data()), old(b.position), Encode(kind, value))
  {
    hide Written, Bound, LittleEndian, Varint, EncodeLength;
    match kind
    case Whole(w) => WriteFixed(b, value.n, w);
    case Signed(w) => WriteFixed(b, ToBits(value.n, w), w);
    case Compressed(w) => WriteVarint(b, value.n, w);
    case CompressedSigned(w) => WriteVarint(b, EncodeZigzag(value.n, w), w);
    case Text(prefix) => WriteText(b, prefix, value.s);
  }

  method WriteAll(b: B.ByteArray, items: seq<Item>)
    requires b.Valid() && Writable(items)
    modifies b, b.nodes, b.Buffers()
    ensures b.Valid() && b.Extended()
    ensures b.position == old(b.position) + |EncodeAll(items)|
    ensures b.Data() == Written(old(b.Data()), old(b.position), EncodeAll(items))
    decreases |items|
  {
    hide Encode, Written, At, Flat, B.ByteArray.Chained, B.ByteArray.Memory, B.ByteArray.NodeAt;
    if items == [] {
      WrittenNothing(b.Data(), b.position);
    } else {
      WrittenTwice(b.Data(), b.position, Encode(items[0].kind, items[0].value), EncodeAll(items[1..]));
      WriteItem(b, items[0].kind, items[0].value);
      WriteAll(b, items[1..]);
    }
  }

  // --- the readers -------------------------------------------------------------------------------------------

  method ReadFixed(b: B.ByteArray, w: nat) returns (outcome: B.Outcome, v: nat)
    requires b.Valid()
    modifies b`position, b`current, b`index
    ensures b.Valid() && b.Data() == old(b.Data())
    ensures Returned(ParseFixed(b.Data(), old(b.position), w), outcome, b.position, v)
  {
    var bytes;
    outcome, bytes := b.Read(w);
    v := FromLittleEndian(bytes);
  }

  method ReadByte(b: B.ByteArray) returns (outcome: B.Outcome, v: nat)
    requires b.Valid()
    modifies b`position, b`current, b`index
    ensures b.Valid() && b.Data() == old(b.Data())
    ensures outcome == if old(b.position) < |b.Data()| then B.Done else B.OutOfRange
    ensures outcome.OutOfRange? ==> b.position == old(b.position)
    ensures outcome.Done? ==> b.position == old(b.position) + 1 && v == b.Data()[old(b.position)] as nat
  {
    outcome, v := ReadFixed(b, 1);
  }

  // What a reader promises: the value found, or the error with the position where reading stopped.
  predicate Returned<T(==)>(found: Parsed<T>, outcome: B.Outcome, position: nat, value: T) {
    match found
    case Parsed(v, next) => outcome == B.Done && position == next && value == v
    case Short(next) => outcome == B.OutOfRange && position == next
    case TooLong(next) => outcome == B.LengthError && position == next
  }

  // A group shifted by i.
  function Shifted(group: nat, i: nat): nat {
    group * Pow2(i)
  }

  // A number whose low i bits are known, in front of the groups still to come.
  function Above(low: nat, i: nat, rest: Parsed<nat>): Parsed<nat> {
    match rest
    case Parsed(high, next) => Parsed(low + Shifted(high, i), next)
    case Short(next) => Short(next)
    case TooLong(next) => TooLong(next)
  }

  // Joining a group cut down to w bytes, to a sum below its shift, is adding it and cutting down the sum.
  lemma GroupCutDown(low: nat, group: nat, i: nat, w: nat)
    requires low < Pow2(i) && i < 8 * w && group < 128
    ensures Or(CutTo(low, w), CutTo(Shifted(group, i), w)) == CutTo(low + Shifted(group, i), w)
    ensures low + Shifted(group, i) < Pow2(i + 7)
  {
    hide Pow2, Bound, And, Or;
    BoundIsPower(w);
    PowSum(i, 8 * w - i);
    ShiftBySeven(i);
    var unit, rest := Pow2(i), Pow2(8 * w - i);
    Remainder(low, Bound(w), 0, low) by { Monotone(1, rest, unit); }
    CutDown(low, group, unit, rest);
    OrAbove(low, group % rest, i);
    Monotone(group + 1, 128, unit);
    Spread(group, unit, 1);
  }

  // Modulo a multiple of `unit`, whatever lies below `unit` is left alone.
  lemma CutDown(low: nat, group: nat, unit: nat, rest: nat)
    requires low < unit && rest > 0
    ensures unit * rest > 0
    ensures (low + group * unit) % (unit * rest) == low + group % rest * unit
    ensures group * unit % (unit * rest) == group % rest * unit
  {
    SplitRemainder(group * unit, unit, rest);
    SplitRemainder(low + group * unit, unit, rest);
    Remainder(group * unit, unit, group, 0);
    Remainder(low + group * unit, unit, group, low);
  }

  lemma {:induction false} BoundIsPower(w: nat)
    ensures Bound(w) == Pow2(8 * w)
  {
    if w > 0 {
      BoundIsPower(w - 1);
      ShiftBySeven(8 * (w - 1));
    }
  }

  lemma ShiftBySeven(i: nat)
    ensures Pow2(i + 7) == 128 * Pow2(i)
  {
    assert Pow2(i + 7) == 2 * Pow2(i + 6) == 4 * Pow2(i + 5) == 8 * Pow2(i + 4) == 16 * Pow2(i + 3) ==
           32 * Pow2(i + 2) == 64 * Pow2(i + 1);
  }

  lemma ShiftedSum(group: nat, high: nat, i: nat)
    ensures Shifted(group + 128 * high, i) == Shifted(group, i) + Shifted(high, i + 7)
  {
    hide Pow2;
    ShiftBySeven(i);
    Product(high, 128, group, Pow2(i));
    Spread(high, Pow2(i), 128);
  }

  // One turn of the reading loop: the last group ends the number, a continued one is added to what is known.
  lemma GroupRead(data: seq<byte>, at: nat, limit: nat, low: nat, i: nat)
    requires at < |data| && limit > 0
    ensures var sum := low + Shifted(data[at] as nat % 128, i);
            Above(low, i, ParseVarint(data, at, limit)) ==
            if data[at] < 128 then Parsed(sum, at + 1) else Above(sum, i + 7, ParseVarint(data, at + 1, limit - 1))
  {
    hide Shifted;
    if data[at] >= 128 {
      var rest := ParseVarint(data, at + 1, limit - 1);
      if rest.Parsed? {
        ShiftedSum(data[at] as nat - 128, rest.value, i);
      }
    }
  }

  method ReadVarint(b: B.ByteArray, w: nat) returns (outcome: B.Outcome, v: nat)
    requires b.Valid() && (w == 4 || w == 8)
    modifies b`position, b`current, b`index
    ensures b.Valid() && b.Data() == old(b.Data())
    ensures Returned(ParseCompressed(b.Data(), old(b.position), w), outcome, b.position, v)
  {
    hide ParseVarint, Above, Pow2, Shifted, CutTo, Bound, And, Or;
    hide At, Flat, B.ByteArray.Data, B.ByteArray.Chained, B.ByteArray.Memory, B.ByteArray.NodeAt;
    v := 0;
    var i: nat := 0;
    ghost var data, exact: nat, limit: nat := b.Data(), 0, Limit(w);
    ghost var whole := ParseVarint(data, b.position, limit);
    NothingAbove(whole, w);
    while i < 8 * w
      invariant i == 7 * (Limit(w) - limit) && limit <= Limit(w)
      invariant b.Valid() && b.Data() == data
      invariant v == CutTo(exact, w) && exact < Pow2(i)
      invariant whole == Above(exact, i, ParseVarint(data, b.position, limit))
      decreases limit
    {
      ghost var at := b.position;
      var byte;
      outcome, byte := ReadByte(b);
      if outcome.OutOfRange? {
        NothingLeft(data, limit, exact, i);
        return;
      }
      GroupRead(data, at, limit, exact, i);
      GroupCutDown(exact, byte % 128, i, w);
      GroupBytes(byte);
      if byte < 128 {
        v := Or(v, CutTo(Shifted(byte, i), w));
        return B.Done, v;
      }
      v := Or(v, CutTo(Shifted(And(byte, 0x7F), i), w));
      exact := exact + Shifted(byte % 128, i);
      limit := limit - 1;
      i := i + 7;
    }
    outcome := B.Done;
    AllRead(whole, exact, i, data, b.position);
  }

  lemma AllRead(whole: Parsed<nat>, low: nat, i: nat, data: seq<byte>, at: nat)
    requires at <= |data| && whole == Above(low, i, ParseVarint(data, at, 0))
    ensures whole == Parsed(low, at)
  {
  }

  lemma NothingAbove(rest: Parsed<nat>, w: nat)
    ensures Pow2(0) == 1 && Above(0, 0, rest) == rest && CutTo(0, w) == 0
  {
    Remainder(0, Bound(w), 0, 0);
  }

  lemma NothingLeft(data: seq<byte>, limit: nat, low: nat, i: nat)
    requires limit > 0
    ensures Above(low, i, ParseVarint(data, |data|, limit)) == Short(|data|)
  {
  }

  method ReadLength(b: B.ByteArray, prefix: Prefix) returns (outcome: B.Outcome, length: nat)
    requires b.Valid()
    modifies b`position, b`current, b`index
    ensures b.Valid() && b.Data() == old(b.Data())
    ensures Returned(ParseLength(prefix, b.Data(), old(b.position)), outcome, b.position, length)
  {
    hide ParseFixed, ParseCompressed;
    hide At, Flat, B.ByteArray.Data, B.ByteArray.Chained, B.ByteArray.Memory, B.ByteArray.NodeAt;
    match prefix
    case Two => outcome, length := ReadFixed(b, 2);
    case Four => outcome, length := ReadFixed(b, 4);
    case Eight => outcome, length := ReadFixed(b, 8);
    case Packed => outcome, length := ReadVarint(b, 8);
  }

  method ReadText(b: B.ByteArray, prefix: Prefix) returns (outcome: B.Outcome, value: Value)
    requires b.Valid()
    modifies b`position, b`current, b`index
    ensures b.Valid() && b.Data() == old(b.Data())
    ensures Returned(ParseText(prefix, b.Data(), old(b.position)), outcome, b.position, value)
  {
    hide ParseLength;
    hide At, Flat, B.ByteArray.Data, B.ByteArray.Chained, B.ByteArray.Memory, B.ByteArray.NodeAt;
    var length, text;
    outcome, length := ReadLength(b, prefix);
    value := Chars([]);
    if outcome.Done? && length > MAX_TEXT {
      outcome := B.LengthError;
    } else if outcome.Done? {
      outcome, text := b.Read(length);
      value := Chars(text);
    }
  }

  method ReadValue(b: B.ByteArray, kind: Kind) returns (outcome: B.Outcome, value: Value)
    requires b.Valid() && Known(kind)
    modifies b`position, b`current, b`index
    ensures b.Valid() && b.Data() == old(b.Data())
    ensures Returned(Parse(kind, b.Data(), old(b.position)), outcome, b.position, value)
  {
    hide ParseFixed, ParseCompressed, ParseText, Interpret, Bound;
    hide At, Flat, B.ByteArray.Data, B.ByteArray.Chained, B.ByteArray.Memory, B.ByteArray.NodeAt;
    if kind.Text? {
      outcome, value := ReadText(b, kind.prefix);
      return;
    }
    var bits;
    if kind.Whole? || kind.Signed? {
      outcome, bits := ReadFixed(b, kind.width);
    } else {
      outcome, bits := ReadVarint(b, kind.width);
    }
    value := Number(if outcome.Done? then Interpret(kind, bits) else 0);
  }

  method ReadAll(b: B.ByteArray, kinds: seq<Kind>) returns (outcome: B.Outcome, values: seq<Value>)
    requires b.Valid() && AllKnown(kinds)
    modifies b`position, b`current, b`index
    ensures b.Valid() && b.Data() == old(b.Data())
    ensures Returned(ParseAll(kinds, b.Data(), old(b.position)), outcome, b.position, values)
    decreases |kinds|
  {
    hide Parse;
    hide At, Flat, B.ByteArray.Data, B.ByteArray.Chained, B.ByteArray.Memory, B.ByteArray.NodeAt;
    outcome, values := B.Done, [];
    if kinds != [] {
      var value, more;
      outcome, value := ReadValue(b, kinds[0]);
      if outcome.Done? {
        outcome, more := ReadAll(b, kinds[1..]);
        values := [value] + more;
      }
    }
  }

  // Write a list into an empty array of any block size, go back to the start, read it back: the same list, and nothing
  // left to read.
  method Exchange(blockSize: nat, items: seq<Item>) returns (back: seq<Value>, left: nat)
    requires blockSize > 0 && Writable(items) && Countable(items)
    ensures back == Values(items) && left == 0
  {
    hide ParseAll, EncodeAll;
    hide At, Flat, B.ByteArray.Data, B.ByteArray.Chained, B.ByteArray.Memory, B.ByteArray.NodeAt;
    var b := new B.ByteArray(blockSize);
    WriteAll(b, items);
    WrittenToNothing(EncodeAll(items));
    assert b.Data() == EncodeAll(items);
    b.SomeCapacity();
    var sought := b.SetPosition(0);
    assert b.Data()[..b.dataSize] == b.Data();
    ListReadsBack([], items, []);
    assert [] + EncodeAll(items) + [] == EncodeAll(items);
    var outcome;
    outcome, back := ReadAll(b, Kinds(items));
    left := b.dataSize - b.position;
  }

  lemma WrittenToNothing(chunk: seq<byte>)
    ensures Written([], 0, chunk) == chunk
  {
  }
}
