/**
 The text of an IPv6 address: the zero-compressing printer, and a reader that follows section 2.2 of RFC 4291 and knows
 nothing of the printer. An address is eight groups of 16 bits.
 */
module Ipv6Text {

  import opened Base
  import opened Blocks

  type uint16 = n: nat | n < 0x1_0000

  // --- digits ------------------------------------------------------------------------------------------------

  function Digit(d: nat): char
    requires d < 16
  {
    if d < 10 then ('0' as int + d) as char else ('a' as int + d - 10) as char
  }

  // In lower case and without leading zeros, as a stream prints a number.
  function Digits(v: nat, base: nat): (r: string)
    requires 2 <= base <= 16
    ensures |r| > 0
    decreases v
  {
    if v < base then [Digit(v)] else Digits(v / base, base) + [Digit(v % base)]
  }

  function DigitValue(c: char): Option<nat> {
    if '0' <= c <= '9' then Some(c as nat - '0' as nat)
    else if 'a' <= c <= 'f' then Some(c as nat - 'a' as nat + 10)
    else if 'A' <= c <= 'F' then Some(c as nat - 'A' as nat + 10)
    else None
  }

  function ReadDigits(s: string, base: nat): Option<nat> {
    if s == "" then Some(0)
    else
      match (ReadDigits(s[..|s| - 1], base), DigitValue(s[|s| - 1]))
      case (Some(high), Some(low)) => if low < base then Some(high * base + low) else None
      case (_, _) => None
  }

  lemma DigitOf(d: nat)
    requires d < 16
    ensures DigitValue(Digit(d)) == Some(d)
  {
  }

  lemma ReadOneDigit(front: string, high: nat, low: nat, base: nat)
    requires 2 <= base <= 16 && low < base && ReadDigits(front, base) == Some(high)
    ensures ReadDigits(front + [Digit(low)], base) == Some(high * base + low)
  {
    hide Digit, DigitValue;
    DigitOf(low);
    assert (front + [Digit(low)])[..|front|] == front;
  }

  lemma {:induction false} DigitsReadBack(v: nat, base: nat)
    requires 2 <= base <= 16
    ensures ReadDigits(Digits(v, base), base) == Some(v)
    ensures forall c :: c in Digits(v, base) ==> DigitValue(c).Some?
    decreases v
  {
    hide Digit, DigitValue, ReadDigits;
    if v >= base {
      DigitsReadBack(v / base, base);
      Divided(v, base);
      DigitOf(v % base);
      ReadOneDigit(Digits(v / base, base), v / base, v % base, base);
    } else {
      DigitOf(v);
      NoDigits(base);
      ReadOneDigit("", 0, v, base);
      assert "" + [Digit(v)] == [Digit(v)];
    }
  }

  lemma NoDigits(base: nat)
    ensures ReadDigits("", base) == Some(0)
  {
  }

  lemma HexLength(v: uint16)
    ensures |Digits(v, 16)| <= 4
  {
    assert v / 16 < 4096 && v / 16 / 16 < 256 && v / 16 / 16 / 16 < 16;
    assert |Digits(v / 16 / 16 / 16, 16)| == 1;
    assert |Digits(v / 16 / 16, 16)| <= 2;
    assert |Digits(v / 16, 16)| <= 3;
  }

  // --- the reader --------------------------------------------------------------------------------------------

  function Find(s: string, c: char): (k: nat)
    ensures k <= |s| && c !in s[..k] && (k < |s| ==> s[k] == c)
  {
    if s == "" || s[0] == c then 0 else 1 + Find(s[1..], c)
  }

  // Where the first "::" stands, or the length.
  function FindDouble(s: string): (k: nat)
    ensures k <= |s| && (k < |s| ==> k + 2 <= |s|)
  {
    if |s| < 2 then |s|
    else if s[0] == ':' && s[1] == ':' then 0
    else 1 + FindDouble(s[1..])
  }

  // Groups of one to four hexadecimal digits with single colons between them; the empty text has none.
  function ReadGroups(s: string): Option<seq<nat>> {
    if s == "" then Some([])
    else
      var k := Find(s, ':');
      var group := if 1 <= k <= 4 then ReadDigits(s[..k], 16) else None;
      if group.None? then None
      else if k == |s| then Some([group.value])
      else
        match ReadGroups(s[k + 1..])
        case Some(rest) => if rest == [] then None else Some([group.value] + rest)
        case None => None
  }

  function Zeros(n: nat): (r: seq<nat>)
    ensures |r| == n && forall i :: 0 <= i < n ==> r[i] == 0
  {
    seq(n, i => 0)
  }

  // All eight groups, or a "::" that stands for one or more groups of zeros.
  function ReadAddress(s: string): Option<seq<nat>> {
    var k := FindDouble(s);
    if k == |s| then
      match ReadGroups(s)
      case Some(groups) => if |groups| == 8 then Some(groups) else None
      case None => None
    else
      match (ReadGroups(s[..k]), ReadGroups(s[k + 2..]))
      case (Some(a), Some(b)) => if |a| + |b| < 8 then Some(a + Zeros(8 - |a| - |b|) + b) else None
      case (_, _) => None
  }

  datatype Endpoint = Endpoint(groups: seq<nat>, port: nat)

  // "[address]:port".
  function ReadEndpoint(s: string): Option<Endpoint> {
    if s == "" || s[0] != '[' then None
    else
      var k := Find(s, ']');
      if k + 2 >= |s| || s[k + 1] != ':' then None
      else
        match (ReadAddress(s[1..k]), ReadDigits(s[k + 2..], 10))
        case (Some(groups), Some(port)) => Some(Endpoint(groups, port))
        case (_, _) => None
  }

  // --- what is printed ---------------------------------------------------------------------------------------

  function JoinHex(groups: seq<uint16>): string {
    if groups == [] then ""
    else if |groups| == 1 then Digits(groups[0], 16)
    else JoinHex(groups[..|groups| - 1]) + ":" + Digits(groups[|groups| - 1], 16)
  }

  function FirstZero(groups: seq<uint16>, i: nat): (lo: nat)
    requires i <= |groups|
    ensures i <= lo <= |groups| && (lo < |groups| ==> groups[lo] == 0)
    ensures forall j :: i <= j < lo ==> groups[j] != 0
    decreases |groups| - i
  {
    if i == |groups| || groups[i] == 0 then i else FirstZero(groups, i + 1)
  }

  function RunEnd(groups: seq<uint16>, i: nat): (hi: nat)
    requires i <= |groups|
    ensures i <= hi <= |groups| && (hi < |groups| ==> groups[hi] != 0)
    ensures forall j :: i <= j < hi ==> groups[j] == 0
    decreases |groups| - i
  {
    if i == |groups| || groups[i] != 0 then i else RunEnd(groups, i + 1)
  }

  // The first run of zeros, even a single one, is left out.
  function Text(groups: seq<uint16>): string {
    var lo := FirstZero(groups, 0);
    if lo == |groups| then JoinHex(groups)
    else JoinHex(groups[..lo]) + "::" + JoinHex(groups[RunEnd(groups, lo)..])
  }

  function EndpointText(groups: seq<uint16>, port: uint16): string {
    "[" + Text(groups) + "]:" + Digits(port, 10)
  }

  // What has been printed before group i.
  ghost function Printed(groups: seq<uint16>, i: nat): string
    requires i <= |groups|
  {
    var lo := FirstZero(groups, 0);
    var hi := RunEnd(groups, lo);
    if i <= lo then JoinHex(groups[..i])
    else if i <= hi then JoinHex(groups[..lo])
    else JoinHex(groups[..lo]) + "::" + JoinHex(groups[hi..i])
  }

  // The colons in front of a group: one for "::", one for every group but the first.
  function Colons(zeros: bool, later: bool): string {
    if zeros then (if later then "::" else ":") else if later then ":" else ""
  }

  lemma Regroup(a: string, b: string, c: string, d: string)
    ensures a + (b + c + d) == (a + b) + (c + d)
    ensures a + (b + c) == (a + b) + c
  {
  }

  // What one turn adds: nothing inside the first zero run, a second colon behind it.
  ghost function Turn(groups: seq<uint16>, i: nat): string
    requires i < |groups|
  {
    var lo := FirstZero(groups, 0);
    var hi := RunEnd(groups, lo);
    if lo <= i < hi then ""
    else Colons(lo < i == hi, i > 0) + Digits(groups[i], 16)
  }

  lemma JoinHexMore(groups: seq<uint16>, lo: nat, i: nat)
    requires lo <= i < |groups|
    ensures JoinHex(groups[lo..i + 1]) == JoinHex(groups[lo..i]) + (Colons(false, i > lo) + Digits(groups[i], 16))
  {
    assert groups[lo..i + 1][..i - lo] == groups[lo..i];
    if i > lo {
      Regroup(JoinHex(groups[lo..i]), ":", Digits(groups[i], 16), "");
    }
  }

  lemma NextBeforeZeros(groups: seq<uint16>, i: nat)
    requires i < FirstZero(groups, 0)
    ensures Printed(groups, i + 1) == Printed(groups, i) + Turn(groups, i)
  {
    hide Digits, FirstZero, RunEnd, JoinHex, Colons;
    assert groups[0..i] == groups[..i] && groups[0..i + 1] == groups[..i + 1];
    JoinHexMore(groups, 0, i);
  }

  lemma NextInsideZeros(groups: seq<uint16>, i: nat)
    requires FirstZero(groups, 0) <= i < RunEnd(groups, FirstZero(groups, 0))
    ensures Printed(groups, i + 1) == Printed(groups, i) + Turn(groups, i)
  {
    hide Digits, FirstZero, RunEnd, JoinHex, Colons;
  }

  lemma NextAfterZeros(groups: seq<uint16>, i: nat)
    requires FirstZero(groups, 0) < i == RunEnd(groups, FirstZero(groups, 0)) < |groups|
    ensures Printed(groups, i + 1) == Printed(groups, i) + Turn(groups, i)
  {
    hide Digits, FirstZero, RunEnd, JoinHex;
    NoGroups();
    JoinHexMore(groups, i, i);
    assert groups[i..i] == [];
    Regroup(JoinHex(groups[..FirstZero(groups, 0)]), "::", Digits(groups[i], 16), "");
  }

  lemma NextBehindZeros(groups: seq<uint16>, i: nat)
    requires FirstZero(groups, 0) < RunEnd(groups, FirstZero(groups, 0)) < i < |groups|
    ensures Printed(groups, i + 1) == Printed(groups, i) + Turn(groups, i)
  {
    hide Digits, FirstZero, RunEnd, JoinHex, Colons;
    var hi := RunEnd(groups, FirstZero(groups, 0));
    JoinHexMore(groups, hi, i);
    var start := JoinHex(groups[..FirstZero(groups, 0)]) + "::";
    Regroup(start, JoinHex(groups[hi..i]), Colons(false, true) + Digits(groups[i], 16), "");
  }

  lemma PrintedNext(groups: seq<uint16>, i: nat)
    requires i < |groups|
    ensures Printed(groups, i + 1) == Printed(groups, i) + Turn(groups, i)
  {
    hide Digits, JoinHex, Printed, Turn;
    var lo := FirstZero(groups, 0);
    var hi := RunEnd(groups, lo);
    if i < lo {
      NextBeforeZeros(groups, i);
    } else if i < hi {
      NextInsideZeros(groups, i);
    } else if i == hi {
      NextAfterZeros(groups, i);
    } else {
      NextBehindZeros(groups, i);
    }
  }

  lemma NoGroups()
    ensures JoinHex([]) == ""
  {
  }

  lemma AllPrinted(groups: seq<uint16>)
    requires groups != []
    ensures var lo := FirstZero(groups, 0);
            var hi := RunEnd(groups, lo);
            Text(groups) == Printed(groups, |groups|) + if lo < hi == |groups| then "::" else ""
  {
    hide Digits, FirstZero, RunEnd, JoinHex;
    NoGroups();
    var lo := FirstZero(groups, 0);
    var hi := RunEnd(groups, lo);
    assert groups[..|groups|] == groups;
    assert groups[|groups|..] == [];
    assert groups[hi..|groups|] == groups[hi..];
  }

  // The printer's single pass over the groups.
  method Print(groups: seq<uint16>, port: uint16) returns (os: string)
    requires |groups| == 8
    ensures os == EndpointText(groups, port)
  {
    hide Digits, FirstZero, RunEnd, JoinHex, Printed, Text;
    os := "[";
    var usedZeros := false;
    ghost var lo := FirstZero(groups, 0);
    ghost var hi := RunEnd(groups, lo);
    NothingPrinted(groups);
    for i := 0 to 8
      invariant usedZeros <==> lo < hi < i
      invariant os == "[" + Printed(groups, i)
    {
      PrintedNext(groups, i);
      ghost var before := os;
      if groups[i] == 0 && !usedZeros {
        continue;
      }
      if i > 0 && groups[i - 1] == 0 && !usedZeros {
        os := os + ":";
        usedZeros := true;
      }
      if i > 0 {
        os := os + ":";
      }
      os := os + Digits(groups[i], 16);
      TurnPrinted(before, lo < i == hi, i > 0, Digits(groups[i], 16));
    }
    AllPrinted(groups);
    if !usedZeros && groups[7] == 0 {
      os := os + "::";
    }
    os := os + "]:" + Digits(port, 10);
  }

  // Two colons, one or none, and then the group.
  lemma TurnPrinted(before: string, zeros: bool, later: bool, group: string)
    ensures var first := if zeros then before + ":" else before;
            var second := if later then first + ":" else first;
            second + group == before + (Colons(zeros, later) + group)
  {
    assert before + ":" + ":" + group == before + (":" + ":" + group);
  }

  lemma NothingPrinted(groups: seq<uint16>)
    ensures Printed(groups, 0) == ""
  {
  }

  // --- what is printed is read back --------------------------------------------------------------------------

  // No colon at either end, and no two in a row.
  ghost predicate Clean(s: string) {
    forall i :: 0 <= i < |s| && s[i] == ':' ==> 0 < i < |s| - 1 && s[i + 1] != ':'
  }

  lemma HexDigitsOnly(v: nat)
    ensures ':' !in Digits(v, 16) && ']' !in Digits(v, 16)
  {
    DigitsReadBack(v, 16);
  }

  lemma {:induction false} JoinHexClean(groups: seq<uint16>)
    ensures Clean(JoinHex(groups)) && ']' !in JoinHex(groups)
    ensures groups != [] ==> JoinHex(groups) != ""
  {
    hide Digits;
    if groups != [] {
      var n := |groups| - 1;
      HexDigitsOnly(groups[n]);
      if n > 0 {
        JoinHexClean(groups[..n]);
        CleanMore(JoinHex(groups[..n]), Digits(groups[n], 16));
      }
    }
  }

  lemma CleanMore(s: string, piece: string)
    requires Clean(s) && s != "" && ':' !in piece && piece != ""
    ensures Clean(s + ":" + piece)
  {
    var t := s + ":" + piece;
    assert forall j :: |s| < j < |t| ==> t[j] in piece;
    forall i | 0 <= i < |t| && t[i] == ':'
      ensures 0 < i < |t| - 1 && t[i + 1] != ':'
    {
      assert i < |s| ==> s[i] == ':';
      assert i <= |s|;
    }
  }

  // The groups seen from the front, as the reader meets them.
  lemma {:induction false} JoinHexFront(groups: seq<uint16>)
    requires |groups| > 1
    ensures JoinHex(groups) == Digits(groups[0], 16) + ":" + JoinHex(groups[1..])
  {
    hide Digits;
    var n := |groups| - 1;
    var front := groups[..n];
    assert front[0] == groups[0] && groups[1..][..n - 1] == front[1..] && groups[1..][n - 1] == groups[n];
    if n > 1 {
      JoinHexFront(front);
    }
  }

  lemma {:induction false} FindFirst(a: string, c: char, b: string)
    requires c !in a
    ensures Find(a + [c] + b, c) == |a|
  {
    if a != "" {
      assert (a + [c] + b)[1..] == a[1..] + [c] + b;
      FindFirst(a[1..], c, b);
    }
  }

  lemma {:induction false} FindNothing(s: string, c: char)
    requires c !in s
    ensures Find(s, c) == |s|
  {
    if s != "" {
      FindNothing(s[1..], c);
    }
  }

  lemma ReadLast(piece: string, group: nat)
    requires ':' !in piece && 1 <= |piece| <= 4 && ReadDigits(piece, 16) == Some(group)
    ensures ReadGroups(piece) == Some([group])
  {
    hide ReadDigits;
    FindNothing(piece, ':');
    assert piece[..|piece|] == piece;
  }

  lemma ReadOneMore(piece: string, rest: string, group: nat, groups: seq<nat>)
    requires ':' !in piece && 1 <= |piece| <= 4 && ReadDigits(piece, 16) == Some(group)
    requires ReadGroups(rest) == Some(groups) && groups != []
    ensures ReadGroups(piece + ":" + rest) == Some([group] + groups)
  {
    hide ReadDigits;
    FindFirst(piece, ':', rest);
    var s := piece + ":" + rest;
    assert s[..|piece|] == piece && s[|piece| + 1..] == rest;
  }

  lemma FewGroups(group: uint16)
    ensures JoinHex([]) == "" && JoinHex([group]) == Digits(group, 16)
    ensures ReadGroups("") == Some([])
  {
  }

  lemma {:induction false} GroupsReadBack(groups: seq<uint16>)
    ensures ReadGroups(JoinHex(groups)) == Some(groups)
  {
    hide Digits, ReadDigits, DigitValue, ReadGroups, JoinHex;
    FewGroups(if groups == [] then 0 else groups[0]);
    if groups != [] {
      var piece := Digits(groups[0], 16);
      DigitsReadBack(groups[0], 16);
      HexLength(groups[0]);
      HexDigitsOnly(groups[0]);
      if |groups| == 1 {
        assert groups == [groups[0]];
        ReadLast(piece, groups[0]);
      } else {
        JoinHexFront(groups);
        GroupsReadBack(groups[1..]);
        ReadOneMore(piece, JoinHex(groups[1..]), groups[0], groups[1..]);
        assert groups == [groups[0]] + groups[1..];
      }
    }
  }

  predicate DoubleAt(s: string, i: nat) {
    i + 1 < |s| && s[i] == ':' && s[i + 1] == ':'
  }

  lemma {:induction false} NoDouble(s: string)
    requires forall i: nat :: !DoubleAt(s, i)
    ensures FindDouble(s) == |s|
  {
    if |s| >= 2 {
      assert !DoubleAt(s, 0);
      assert forall i: nat :: DoubleAt(s[1..], i) ==> DoubleAt(s, i + 1);
      NoDouble(s[1..]);
    }
  }

  lemma {:induction false} FirstDouble(s: string, k: nat)
    requires DoubleAt(s, k) && forall i: nat :: i < k ==> !DoubleAt(s, i)
    ensures FindDouble(s) == k
  {
    if k > 0 {
      assert !DoubleAt(s, 0);
      assert forall i: nat :: DoubleAt(s[1..], i) ==> DoubleAt(s, i + 1);
      FirstDouble(s[1..], k - 1);
    }
  }

  // Reading what was printed, the first zero run given back.
  lemma TextReadsBack(groups: seq<uint16>)
    requires |groups| == 8
    ensures ReadAddress(Text(groups)) == Some(groups)
    ensures ']' !in Text(groups)
  {
    hide Digits, JoinHex, ReadGroups, FindDouble;
    var lo := FirstZero(groups, 0);
    if lo == 8 {
      var s := JoinHex(groups);
      JoinHexClean(groups);
      NoDouble(s);
      GroupsReadBack(groups);
    } else {
      var hi := RunEnd(groups, lo);
      var a, b := JoinHex(groups[..lo]), JoinHex(groups[hi..]);
      JoinHexClean(groups[..lo]);
      JoinHexClean(groups[hi..]);
      var s := a + "::" + b;
      FirstDouble(s, |a|);
      assert s[..|a|] == a && s[|a| + 2..] == b;
      GroupsReadBack(groups[..lo]);
      GroupsReadBack(groups[hi..]);
      assert groups == groups[..lo] + Zeros(8 - lo - (8 - hi)) + groups[hi..];
    }
  }

  // The first run of zeros reaches from lo to hi.
  predicate FirstRun(groups: seq<uint16>, lo: nat, hi: nat) {
    && lo < hi <= |groups|
    && (forall i :: 0 <= i < lo ==> groups[i] != 0)
    && (forall i :: lo <= i < hi ==> groups[i] == 0)
    && (hi < |groups| ==> groups[hi] != 0)
  }

  lemma RunIsFirst(groups: seq<uint16>, lo: nat, hi: nat)
    requires FirstRun(groups, lo, hi)
    ensures FirstZero(groups, 0) == lo && RunEnd(groups, lo) == hi
  {
    assert groups[lo] == 0;
  }

  // A "::" is printed exactly when some group is zero, and it stands for the whole first run of zeros and nothing else.
  lemma FirstRunLeftOut(groups: seq<uint16>, lo: nat, hi: nat)
    ensures FindDouble(Text(groups)) < |Text(groups)| <==> 0 in groups
    ensures FirstRun(groups, lo, hi) ==>
              var text := Text(groups);
              var k := FindDouble(text);
              && k < |text|
              && ReadGroups(text[..k]) == Some(groups[..lo]) && ReadGroups(text[k + 2..]) == Some(groups[hi..])
    ensures 0 !in groups ==> ReadGroups(Text(groups)) == Some(groups)
  {
    hide Digits, JoinHex, ReadGroups, FindDouble;
    var start := FirstZero(groups, 0);
    if FirstRun(groups, lo, hi) {
      RunIsFirst(groups, lo, hi);
    }
    if start == |groups| {
      JoinHexClean(groups);
      NoDouble(JoinHex(groups));
      GroupsReadBack(groups);
    } else {
      var end := RunEnd(groups, start);
      var a, b := JoinHex(groups[..start]), JoinHex(groups[end..]);
      JoinHexClean(groups[..start]);
      JoinHexClean(groups[end..]);
      var s := a + "::" + b;
      FirstDouble(s, |a|);
      assert s[..|a|] == a && s[|a| + 2..] == b;
      GroupsReadBack(groups[..start]);
      GroupsReadBack(groups[end..]);
      assert groups[start] == 0;
    }
  }

  predicate LowerCase(s: string) {
    forall c :: c in s ==> c == ':' || '0' <= c <= '9' || 'a' <= c <= 'f'
  }

  predicate LeadingZero(s: string, i: nat) {
    && i + 1 < |s| && s[i] == '0' && (i == 0 || s[i - 1] == ':') && s[i + 1] != ':'
  }

  // In lower case, and a zero begins a number only when it is the whole number.
  ghost predicate Lean(s: string) {
    LowerCase(s) && forall i: nat :: !LeadingZero(s, i)
  }

  lemma DigitLower(d: nat)
    requires d < 16
    ensures '0' <= Digit(d) <= '9' || 'a' <= Digit(d) <= 'f'
    ensures if d < 10 then '0' <= Digit(d) <= '9' else 'a' <= Digit(d)
    ensures Digit(d) == '0' <==> d == 0
  {
  }

  lemma {:induction false} AtLeastTwice(q: nat, base: nat)
    requires base >= 2
    ensures At(q, base) >= 2 * q && (q == 0 ==> At(q, base) == 0)
  {
    if q > 0 {
      AtLeastTwice(q - 1, base);
      AtSum(q - 1, 1, base);
    }
  }

  lemma Shrinks(v: nat, base: nat)
    requires 2 <= base <= v
    ensures 0 < v / base < v && v % base < base
  {
    hide At;
    Divided(v, base);
    AtLeastTwice(v / base, base);
  }

  lemma {:induction false} DigitsLower(v: nat, base: nat)
    requires 2 <= base <= 16
    ensures LowerCase(Digits(v, base)) && ':' !in Digits(v, base)
    ensures base <= 10 ==> forall c :: c in Digits(v, base) ==> '0' <= c <= '9'
    decreases v
  {
    hide Digit;
    if v < base {
      DigitLower(v);
    } else {
      Shrinks(v, base);
      DigitsLower(v / base, base);
      DigitLower(v % base);
      var front, last := Digits(v / base, base), Digit(v % base);
      assert Digits(v, base) == front + [last];
      assert forall c :: c in front + [last] ==> c in front || c == last;
    }
  }

  lemma {:induction false} DigitsFirst(v: nat, base: nat)
    requires 2 <= base <= 16
    ensures v > 0 ==> Digits(v, base)[0] != '0'
    ensures v < base ==> |Digits(v, base)| == 1
    decreases v
  {
    hide Digit;
    if v >= base {
      Shrinks(v, base);
      DigitsFirst(v / base, base);
    } else {
      DigitLower(v);
    }
  }

  lemma DigitsLean(v: nat, base: nat)
    requires 2 <= base <= 16
    ensures Lean(Digits(v, base))
  {
    hide Digits;
    DigitsLower(v, base);
    DigitsFirst(v, base);
  }

  lemma LeanMore(s: string, colons: string, piece: string)
    requires Lean(s) && Lean(piece) && (colons == ":" || colons == "::")
    ensures Lean(s + colons + piece)
  {
    var t := s + colons + piece;
    forall i: nat
      ensures !LeadingZero(t, i)
    {
      if i < |s| {
        assert !LeadingZero(s, i);
      } else if i >= |s| + |colons| {
        assert !LeadingZero(piece, i - |s| - |colons|);
      }
    }
  }

  lemma {:induction false} JoinHexLean(groups: seq<uint16>)
    ensures Lean(JoinHex(groups))
  {
    hide Digits, Lean;
    if groups == [] {
      NothingLean();
    } else {
      var n := |groups| - 1;
      DigitsLean(groups[n], 16);
      JoinHexLean(groups[..n]);
      if n > 0 {
        LeanMore(JoinHex(groups[..n]), ":", Digits(groups[n], 16));
      }
    }
  }

  lemma NothingLean()
    ensures Lean("")
  {
  }

  // Every group and the port are printed in lower case without leading zeros, the port in decimal.
  lemma PrintedLean(groups: seq<uint16>, port: uint16)
    ensures Lean(Text(groups))
    ensures EndpointText(groups, port) == "[" + Text(groups) + "]:" + Digits(port, 10)
    ensures Lean(Digits(port, 10)) && forall c :: c in Digits(port, 10) ==> '0' <= c <= '9'
  {
    hide Digits, JoinHex, Lean;
    DigitsLean(port, 10);
    DigitsLower(port, 10);
    var lo := FirstZero(groups, 0);
    JoinHexLean(groups);
    if lo < |groups| {
      JoinHexLean(groups[..lo]);
      JoinHexLean(groups[RunEnd(groups, lo)..]);
      LeanMore(JoinHex(groups[..lo]), "::", JoinHex(groups[RunEnd(groups, lo)..]));
    }
  }

  // Every address and port is read back from its text.
  lemma EndpointReadsBack(groups: seq<uint16>, port: uint16)
    requires |groups| == 8
    ensures ReadEndpoint(EndpointText(groups, port)) == Some(Endpoint(groups, port))
  {
    hide Digits, Text, ReadAddress, ReadDigits;
    var inner, digits := Text(groups), Digits(port, 10);
    var s := EndpointText(groups, port);
    TextReadsBack(groups);
    DigitsReadBack(port, 10);
    assert s == "[" + inner + "]" + (":" + digits);
    FindFirst("[" + inner, ']', ":" + digits);
    assert s[1..|inner| + 1] == inner && s[|inner| + 3..] == digits;
  }

  // Different addresses or ports print differently.
  lemma PrintedOnce(a: seq<uint16>, p: uint16, b: seq<uint16>, q: uint16)
    requires |a| == 8 && |b| == 8
    ensures EndpointText(a, p) == EndpointText(b, q) <==> a == b && p == q
  {
    hide EndpointText, ReadEndpoint;
    EndpointReadsBack(a, p);
    EndpointReadsBack(b, q);
  }
}
