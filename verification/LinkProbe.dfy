/** Whether the requested network is really connected: common/src/wifi_link_probe.cpp. */
module LinkProbe {
  import opened Octets
  import opened Profile
  import opened Platform

  const BACKSLASH: byte := 92
  const NEWLINE: byte := 10
  const DOT: byte := 46

  // ---- Escaped network names ----

  /** The character a short escape stands for; -1 if there is no such escape. */
  function ShortEscape(c: byte): int {
    if c == 92 then 92 else if c == 34 then 34 else if c == 110 then 10 else if c == 114 then 13
    else if c == 116 then 9 else if c == 101 then 27 else -1
  }

  /** The character at position i and the position behind it. */
  function CharAt(e: Bytes, i: nat): (r: Option<(byte, nat)>)
    requires i < |e|
    ensures r.Some? ==> i < r.value.1 <= |e|
  {
    if e[i] != BACKSLASH then Some((e[i], i + 1))
    else if i + 1 == |e| then None
    else if ShortEscape(e[i + 1]) >= 0 then Some((ShortEscape(e[i + 1]), i + 2))
    else if e[i + 1] == 120 && i + 3 < |e| && HexValue(e[i + 2]) >= 0 && HexValue(e[i + 3]) >= 0
      then Some((HexValue(e[i + 2]) * 16 + HexValue(e[i + 3]), i + 4))
    else None
  }

  function Prepend(a: Bytes, r: Option<Bytes>): Option<Bytes> {
    if r.Some? then Some(a + r.value) else None
  }

  lemma PrependTwice(a: Bytes, b: Bytes, r: Option<Bytes>)
    ensures Prepend(a, Prepend(b, r)) == Prepend(a + b, r) && Prepend([], r) == r
  {
    if r.Some? { assert a + (b + r.value) == a + b + r.value && [] + r.value == r.value; }
  }

  /** The bytes an escaped name stands for. */
  function Unescape(e: Bytes, i: nat): (r: Option<Bytes>)
    requires i <= |e|
    decreases |e| - i
  {
    if i == |e| then Some([])
    else match CharAt(e, i)
      case None => None
      case Some((c, next)) => Prepend([c], Unescape(e, next))
  }

  /** How the status report prints one byte of a name. */
  function PrintedByte(c: byte): (e: Bytes)
    ensures e != []
  {
    if c == 34 || c == 92 then [BACKSLASH, c]
    else if c == 27 then [BACKSLASH, 101]
    else if c == 10 then [BACKSLASH, 110]
    else if c == 13 then [BACKSLASH, 114]
    else if c == 9 then [BACKSLASH, 116]
    else if 32 <= c <= 126 then [c]
    else [BACKSLASH, 120, HexDigit(c / 16), HexDigit(c % 16)]
  }

  function Printed(ssid: Bytes): (e: Bytes) {
    if ssid == [] then [] else PrintedByte(ssid[0]) + Printed(ssid[1..])
  }

  lemma PrintedByteReads(e: Bytes, i: nat, c: byte)
    requires i + |PrintedByte(c)| <= |e| && e[i..i + |PrintedByte(c)|] == PrintedByte(c)
    ensures CharAt(e, i) == Some((c, i + |PrintedByte(c)|))
  {
    var p := PrintedByte(c);
    assert forall k :: 0 <= k < |p| ==> e[i + k] == p[k];
    NibblesOfByte(c);
    assert e[i] == p[0];
    if |p| > 1 { assert e[i + 1] == p[1]; }
    if |p| > 2 { assert e[i + 2] == p[2] && e[i + 3] == p[3]; }
  }

  /** Printing a name and unescaping it gives the name back. */
  lemma {:induction false} PrintedThenUnescaped(before: Bytes, ssid: Bytes)
    ensures Unescape(before + Printed(ssid), |before|) == Some(ssid)
    decreases |ssid|
  {
    hide PrintedByte, CharAt;
    var e := before + Printed(ssid);
    if ssid != [] {
      var p := PrintedByte(ssid[0]);
      assert e[|before|..|before| + |p|] == p;
      PrintedByteReads(e, |before|, ssid[0]);
      PrintedThenUnescaped(before + p, ssid[1..]);
      assert (before + p) + Printed(ssid[1..]) == e;
      assert [ssid[0]] + ssid[1..] == ssid;
    }
  }

  /** ssid_hex */
  method SsidHex(encoded: Bytes) returns (ok: bool, hex: Bytes)
    ensures ok <==> Unescape(encoded, 0).Some? && 1 <= |Unescape(encoded, 0).value| <= 32
    ensures ok ==> hex == HexOf(Unescape(encoded, 0).value)
  {
    hex := [];
    ghost var bytes: Bytes := [];
    var i := 0;
    hide HexOf, HexDigit, HexValue, ShortEscape;
    assert HexOf([]) == [];
    PrependTwice([], [], Unescape(encoded, 0));
    while i < |encoded|
      invariant i <= |encoded| && |bytes| <= 32 && hex == HexOf(bytes)
      invariant Unescape(encoded, 0) == Prepend(bytes, Unescape(encoded, i))
    {
      var c := encoded[i];
      ghost var start := i;
      if c == BACKSLASH {
        i := i + 1;
        if i == |encoded| { return false, hex; }
        var short := ShortEscape(encoded[i]);
        if short >= 0 {
          c := short;
        } else if encoded[i] == 120 {
          if i + 2 >= |encoded| { return false, hex; }
          var high, low := HexValue(encoded[i + 1]), HexValue(encoded[i + 2]);
          if high < 0 || low < 0 { return false, hex; }
          c := high * 16 + low;
          i := i + 2;
        } else {
          return false, hex;
        }
      }
      i := i + 1;
      assert CharAt(encoded, start) == Some((c, i));
      HexAppend(bytes, c);
      PrependTwice(bytes, [c], Unescape(encoded, i));
      bytes := bytes + [c];
      hex := hex + [HexDigit(c / 16), HexDigit(c % 16)];
      if |hex| > 64 { return false, hex; }
    }
    assert bytes + [] == bytes;
    ok := hex != [];
  }

  lemma HexAppend(s: Bytes, c: byte)
    ensures HexOf(s + [c]) == HexOf(s) + [HexDigit(c / 16), HexDigit(c % 16)]
  {
    hide HexDigit;
  }

  // ---- Addresses ----

  predicate IsDigit(c: byte) { 48 <= c <= 57 }

  /** A number below 256 in decimal, without leading zeros. */
  function Decimal(n: byte): (s: Bytes)
    ensures 1 <= |s| <= 3 && forall i :: 0 <= i < |s| ==> IsDigit(s[i])
  {
    if n < 10 then [48 + n] else if n < 100 then [48 + n / 10, 48 + n % 10]
    else [48 + n / 100, 48 + n / 10 % 10, 48 + n % 10]
  }

  datatype Quad = Quad(a: byte, b: byte, c: byte, d: byte)

  function Dotted(q: Quad): (s: Bytes) {
    Decimal(q.a) + [DOT] + Decimal(q.b) + [DOT] + Decimal(q.c) + [DOT] + Decimal(q.d)
  }

  /** Not "this network", loopback, link-local, multicast or reserved. */
  predicate Assignable(q: Quad) {
    q.a != 0 && q.a != 127 && q.a < 224 && !(q.a == 169 && q.b == 254)
  }

  ghost predicate Usable(ip: Bytes) {
    exists q: Quad :: Dotted(q) == ip && Assignable(q)
  }

  /** A whole number stands at position i, and no digit follows it. */
  ghost predicate NumberAt(s: Bytes, i: nat, n: byte, end: nat) {
    && i < end <= |s| && s[i..end] == Decimal(n) && (end < |s| ==> !IsDigit(s[end]))
  }

  lemma OneNumberAt(s: Bytes, i: nat, n: byte, end: nat, m: byte, other: nat)
    requires NumberAt(s, i, n, end) && NumberAt(s, i, m, other)
    ensures n == m && end == other
  {
    assert forall k :: i <= k < end ==> s[k] == s[i..end][k - i];
    assert forall k :: i <= k < other ==> s[k] == s[i..other][k - i];
    assert end == other;
    DecimalInjective(n, m);
  }

  /** The number a few digits stand for. */
  function Number(s: Bytes): int {
    if s == [] then 0 else Number(s[..|s| - 1]) * 10 + DigitOf(s[|s| - 1])
  }

  function DigitOf(c: byte): int { c as int - 48 }

  lemma NumberOfFew(s: Bytes)
    ensures |s| == 1 ==> Number(s) == DigitOf(s[0])
    ensures |s| == 2 ==> Number(s) == DigitOf(s[0]) * 10 + DigitOf(s[1])
    ensures |s| == 3 ==> Number(s) == (DigitOf(s[0]) * 10 + DigitOf(s[1])) * 10 + DigitOf(s[2])
  {
    if 1 <= |s| <= 3 {
      assert Number(s[..0]) == 0;
      assert s[..1][..0] == s[..0] && Number(s[..1]) == DigitOf(s[0]);
      if |s| >= 2 { assert s[..2][..1] == s[..1] && Number(s[..2]) == Number(s[..1]) * 10 + DigitOf(s[1]); }
      if |s| == 3 { assert s[..3][..2] == s[..2]; }
      assert s[..|s|] == s;
    }
  }

  lemma NumberOfDecimal(n: byte)
    ensures Number(Decimal(n)) == n
  {
    NumberOfFew(Decimal(n));
    hide Number;
    if n >= 100 { assert n / 10 == n / 100 * 10 + n / 10 % 10; }
  }

  lemma TwoDigits(a: int, b: int)
    requires 1 <= a <= 9 && 0 <= b <= 9
    ensures var n := a * 10 + b; 10 <= n < 100 && n / 10 == a && n % 10 == b
  {}

  lemma ThreeDigits(a: int, b: int, c: int)
    requires 1 <= a <= 9 && 0 <= b <= 9 && 0 <= c <= 9
    ensures var n := (a * 10 + b) * 10 + c; 100 <= n && n / 100 == a && n / 10 % 10 == b && n % 10 == c
  {
    TwoDigits(a, b);
    assert ((a * 10 + b) * 10 + c) / 10 == a * 10 + b;
  }

  lemma DecimalOfOne(s: Bytes, n: byte)
    requires |s| == 1 && IsDigit(s[0]) && n == DigitOf(s[0])
    ensures Decimal(n) == s
  {
    assert s == [s[0]];
  }

  lemma DecimalOfTwo(s: Bytes, n: byte)
    requires |s| == 2 && IsDigit(s[0]) && IsDigit(s[1]) && s[0] != 48 && n == DigitOf(s[0]) * 10 + DigitOf(s[1])
    ensures Decimal(n) == s
  {
    TwoDigits(DigitOf(s[0]), DigitOf(s[1]));
    DecimalForms(n);
    hide Decimal;
    assert s == [s[0], s[1]];
  }

  lemma DecimalOfThree(s: Bytes, n: byte)
    requires |s| == 3 && IsDigit(s[0]) && IsDigit(s[1]) && IsDigit(s[2]) && s[0] != 48
    requires n == (DigitOf(s[0]) * 10 + DigitOf(s[1])) * 10 + DigitOf(s[2])
    ensures Decimal(n) == s
  {
    ThreeDigits(DigitOf(s[0]), DigitOf(s[1]), DigitOf(s[2]));
    DecimalForms(n);
    hide Decimal;
    assert s == [s[0], s[1], s[2]];
  }

  /** Canonical digits below 256 are the decimal form of their number. */
  lemma DecimalOfNumber(s: Bytes)
    requires 1 <= |s| <= 3 && (forall i :: 0 <= i < |s| ==> IsDigit(s[i])) && (|s| > 1 ==> s[0] != 48)
    requires 0 <= Number(s) <= 255
    ensures Decimal(Number(s)) == s
  {
    NumberOfFew(s);
    hide Number, Decimal, DigitOf, IsDigit;
    if |s| == 1 { DecimalOfOne(s, Number(s)); }
    else if |s| == 2 { DecimalOfTwo(s, Number(s)); }
    else { DecimalOfThree(s, Number(s)); }
  }

  lemma DecimalForms(n: byte)
    ensures 10 <= n < 100 ==> Decimal(n) == [48 + n as int / 10, 48 + n as int % 10]
    ensures n >= 100 ==> Decimal(n) == [48 + n as int / 100, 48 + n as int / 10 % 10, 48 + n as int % 10]
  {}

  lemma DecimalInjective(n: byte, m: byte)
    requires Decimal(n) == Decimal(m)
    ensures n == m
  {
    NumberOfDecimal(n);
    NumberOfDecimal(m);
  }

  /** One part of an address: up to three digits, no leading zero, at most 255. */
  method ReadPart(ip: Bytes, start: nat) returns (ok: bool, part: nat, position: nat)
    requires start <= |ip|
    ensures start <= position <= |ip|
    ensures ok ==> part < 256 && NumberAt(ip, start, part, position)
    ensures !ok ==> forall n: byte, end: nat :: !NumberAt(ip, start, n, end)
  {
    part, position := 0, start;
    hide Decimal, Number;
    assert Number([]) == 0 by { NoDigits(); }
    while position < |ip| && IsDigit(ip[position])
      invariant start <= position <= |ip| && position - start <= 3
      invariant forall k :: start <= k < position ==> IsDigit(ip[k])
      invariant part == Number(ip[start..position])
      decreases |ip| - position
    {
      if position - start >= 3 {
        TooLong(ip, start);
        return false, part, position;
      }
      NumberStep(ip, start, position);
      part := part * 10 + DigitOf(ip[position]);
      position := position + 1;
    }
    ghost var run := ip[start..position];
    if position == start || part > 255 || (position - start > 1 && ip[start] == 48) {
      NotCanonical(ip, start, position);
      return false, part, position;
    }
    assert forall i :: 0 <= i < |run| ==> run[i] == ip[start + i];
    DecimalOfNumber(run);
    ok := true;
  }

  lemma NoDigits()
    ensures Number([]) == 0
  {}

  lemma NumberStep(s: Bytes, i: nat, j: nat)
    requires i <= j < |s|
    ensures Number(s[i..j + 1]) == Number(s[i..j]) * 10 + DigitOf(s[j])
    ensures (forall k :: i <= k < j ==> IsDigit(s[k])) ==> Number(s[i..j]) >= 0
    decreases j - i
  {
    assert s[i..j + 1][..j - i] == s[i..j];
    if i < j {
      NumberStep(s, i, j - 1);
    } else {
      assert s[i..j] == [];
    }
  }

  /** A number ends exactly where its digits end. */
  lemma NumberEnds(s: Bytes, i: nat, j: nat, n: byte, end: nat)
    requires i <= j <= |s| && (forall k :: i <= k < j ==> IsDigit(s[k])) && (j < |s| ==> !IsDigit(s[j]))
    requires NumberAt(s, i, n, end)
    ensures end == j && n == Number(s[i..j])
  {
    assert forall k :: i <= k < end ==> s[k] == s[i..end][k - i];
    NumberOfDecimal(n);
    hide Decimal, Number;
  }

  lemma AtMostThree(s: Bytes, i: nat, n: byte, end: nat)
    requires NumberAt(s, i, n, end)
    ensures end <= i + 3
  {
    assert |s[i..end]| == |Decimal(n)|;
  }

  lemma TooLong(s: Bytes, i: nat)
    requires i + 4 <= |s| && forall k :: i <= k < i + 4 ==> IsDigit(s[k])
    ensures forall n: byte, end: nat :: !NumberAt(s, i, n, end)
  {
    forall n: byte, end: nat | NumberAt(s, i, n, end) ensures false { AtMostThree(s, i, n, end); }
  }

  lemma NotCanonical(s: Bytes, i: nat, j: nat)
    requires i <= j <= |s| && (forall k :: i <= k < j ==> IsDigit(s[k])) && (j < |s| ==> !IsDigit(s[j]))
    requires j == i || Number(s[i..j]) > 255 || (j - i > 1 && s[i] == 48)
    ensures forall n: byte, end: nat :: !NumberAt(s, i, n, end)
  {
    forall n: byte, end: nat | NumberAt(s, i, n, end) ensures false { CanonicalRun(s, i, j, n, end); }
  }

  lemma CanonicalRun(s: Bytes, i: nat, j: nat, n: byte, end: nat)
    requires i <= j <= |s| && (forall k :: i <= k < j ==> IsDigit(s[k])) && (j < |s| ==> !IsDigit(s[j]))
    requires NumberAt(s, i, n, end)
    ensures j > i && Number(s[i..j]) <= 255 && !(j - i > 1 && s[i] == 48)
  {
    NumberEnds(s, i, j, n, end);
    LeadingDigit(n);
    hide Decimal, Number;
    assert s[i..j][0] == s[i];
  }

  lemma LeadingDigit(n: byte)
    ensures |Decimal(n)| > 1 ==> Decimal(n)[0] != 48
  {}

  /** Numbers with a dot behind each. */
  function Front(ns: seq<byte>): (s: Bytes) {
    if ns == [] then [] else Front(ns[..|ns| - 1]) + Decimal(ns[|ns| - 1]) + [DOT]
  }

  /** Numbers with dots between them. */
  function Full(ns: seq<byte>): (s: Bytes)
    requires ns != []
  {
    Front(ns[..|ns| - 1]) + Decimal(ns[|ns| - 1])
  }

  lemma DottedIsFull(q: Quad)
    ensures Dotted(q) == Full([q.a, q.b, q.c, q.d])
  {
    hide Decimal;
    var ns := [q.a, q.b, q.c, q.d];
    assert ns[..3] == [q.a, q.b, q.c] && [q.a, q.b, q.c][..2] == [q.a, q.b] && [q.a, q.b][..1] == [q.a];
    assert Front([q.a]) == Decimal(q.a) + [DOT] by { assert [q.a][..0] == []; }
    assert Front([q.a, q.b]) == Decimal(q.a) + [DOT] + Decimal(q.b) + [DOT];
    assert Front([q.a, q.b, q.c]) == Decimal(q.a) + [DOT] + Decimal(q.b) + [DOT] + Decimal(q.c) + [DOT];
  }

  lemma {:induction false} FrontPrefix(ns: seq<byte>, j: nat)
    requires j <= |ns|
    ensures Front(ns[..j]) <= Front(ns)
    decreases |ns|
  {
    hide Decimal;
    var n := |ns| - 1;
    if j == |ns| {
      assert ns[..j] == ns;
    } else {
      FrontPrefix(ns[..n], j);
      assert ns[..n][..j] == ns[..j];
    }
  }

  /** In a printed address every part stands behind the parts before it. */
  lemma PartStands(ip: Bytes, ns: seq<byte>, i: nat)
    requires i < |ns| && ip == Full(ns)
    ensures var start := |Front(ns[..i])|;
      var end := start + |Decimal(ns[i])|;
      NumberAt(ip, start, ns[i], end) && (if i + 1 < |ns| then end < |ip| && ip[end] == DOT else end == |ip|)
  {
    hide Decimal;
    var head := Front(ns[..i]);
    if i + 1 < |ns| {
      FrontPrefix(ns[..|ns| - 1], i + 1);
      assert ns[..|ns| - 1][..i + 1] == ns[..i + 1] && ns[..i + 1][..i] == ns[..i];
      var part := head + Decimal(ns[i]) + [DOT];
      assert part == Front(ns[..i + 1]) <= ip;
      InPrefix(head, Decimal(ns[i]), [DOT], ip);
    } else {
      assert ip == head + Decimal(ns[i]) + [];
      InPrefix(head, Decimal(ns[i]), [], ip);
    }
  }

  lemma InPrefix(a: Bytes, b: Bytes, c: Bytes, s: Bytes)
    requires a + b + c <= s
    ensures |a| + |b| + |c| <= |s| && s[|a|..|a| + |b|] == b && (c != [] ==> s[|a| + |b|] == c[0])
  {
    assert s[..|a + b + c|] == a + b + c;
    assert forall k :: 0 <= k < |a + b + c| ==> s[k] == (a + b + c)[k];
  }

  /** What is known after i parts: they are printed so far, and no address has others. */
  ghost predicate PartsRead(ip: Bytes, parts: seq<byte>, position: nat) {
    && position <= |ip| && |parts| <= 4
    && ip[..position] == (if |parts| < 4 then Front(parts) else Full(parts))
    && forall ns: seq<byte> :: |ns| == 4 && Full(ns) == ip ==> parts <= ns && (|parts| == 4 ==> position == |ip|)
  }

  /** One more number: every address there is has it, and nothing but a dot or the end behind it. */
  lemma NextPart(ip: Bytes, parts: seq<byte>, position: nat, part: byte, next: nat, ns: seq<byte>)
    requires PartsRead(ip, parts, position) && |parts| < 4 && NumberAt(ip, position, part, next)
    requires |ns| == 4 && Full(ns) == ip
    ensures parts + [part] <= ns && (if |parts| < 3 then next < |ip| && ip[next] == DOT else next == |ip|)
  {
    hide Decimal, Full, Front, PartsRead, NumberAt;
    var i := |parts|;
    PartsAgree(ip, parts, position, ns);
    PartStands(ip, ns, i);
    OneNumberAt(ip, position, part, next, ns[i], position + |Decimal(ns[i])|);
    assert ns[..i + 1] == ns[..i] + [ns[i]];
  }

  lemma PartsAgree(ip: Bytes, parts: seq<byte>, position: nat, ns: seq<byte>)
    requires PartsRead(ip, parts, position) && |parts| < 4 && |ns| == 4 && Full(ns) == ip
    ensures ns[..|parts|] == parts && position == |Front(parts)|
  {
    hide Full, Front;
    assert |ip[..position]| == position;
  }

  lemma NoPart(ip: Bytes, parts: seq<byte>, position: nat)
    requires PartsRead(ip, parts, position) && |parts| < 4
    requires forall n: byte, end: nat :: !NumberAt(ip, position, n, end)
    ensures forall ns: seq<byte> :: |ns| == 4 ==> Full(ns) != ip
  {
    hide Decimal;
    forall ns: seq<byte> | |ns| == 4 && Full(ns) == ip ensures false {
      PartsAgree(ip, parts, position, ns);
      PartStands(ip, ns, |parts|);
    }
  }

  lemma NoAddress(ip: Bytes)
    requires forall ns: seq<byte> :: |ns| == 4 ==> Full(ns) != ip
    ensures !Usable(ip)
  {
    hide Dotted, Full;
    forall q: Quad ensures Dotted(q) != ip {
      DottedIsFull(q);
      assert |[q.a, q.b, q.c, q.d]| == 4;
    }
  }

  /** One turn of the loop. */
  lemma PartTaken(ip: Bytes, parts: seq<byte>, position: nat, part: byte, next: nat)
    requires PartsRead(ip, parts, position) && |parts| < 4 && NumberAt(ip, position, part, next)
    ensures |parts| < 3 && (next == |ip| || ip[next] != DOT) ==> forall ns: seq<byte> :: |ns| == 4 ==> Full(ns) != ip
    ensures |parts| < 3 && next < |ip| && ip[next] == DOT ==> PartsRead(ip, parts + [part], next + 1)
    ensures |parts| == 3 ==> PartsRead(ip, parts + [part], next)
  {
    hide Decimal;
    forall ns: seq<byte> | |ns| == 4 && Full(ns) == ip
      ensures parts + [part] <= ns && (if |parts| < 3 then next < |ip| && ip[next] == DOT else next == |ip|) {
      NextPart(ip, parts, position, part, next, ns);
    }
    var more := parts + [part];
    assert more[..|more| - 1] == parts;
    assert ip[..next] == ip[..position] + ip[position..next];
    if next < |ip| { assert ip[..next + 1] == ip[..next] + [ip[next]]; }
  }

  /** usable_ipv4 */
  method UsableIpv4(ip: Bytes) returns (ok: bool)
    ensures ok <==> Usable(ip)
  {
    hide Decimal, Full, Front, PartsRead, Number, Usable;
    var parts: seq<byte> := [];
    var position := 0;
    assert PartsRead(ip, [], 0) by { NothingRead(ip); }
    for i := 0 to 4
      invariant |parts| == i && position <= |ip| && PartsRead(ip, parts, position)
    {
      var number, part, next := ReadPart(ip, position);
      if !number {
        NoPart(ip, parts, position);
        NoAddress(ip);
        return false;
      }
      PartTaken(ip, parts, position, part, next);
      position := next;
      if i != 3 {
        if position == |ip| || ip[position] != DOT {
          NoAddress(ip);
          return false;
        }
        position := position + 1;
      }
      parts := parts + [part];
    }
    ok := position == |ip| && parts[0] != 0 && parts[0] != 127 && parts[0] < 224 && !(parts[0] == 169 && parts[1] == 254);
    AllRead(ip, parts, position);
  }

  lemma NothingRead(ip: Bytes)
    ensures PartsRead(ip, [], 0)
  {}

  lemma AllRead(ip: Bytes, parts: seq<byte>, position: nat)
    requires PartsRead(ip, parts, position) && |parts| == 4
    ensures Usable(ip) <==> position == |ip| && Assignable(Quad(parts[0], parts[1], parts[2], parts[3]))
  {
    hide Decimal;
    var q := Quad(parts[0], parts[1], parts[2], parts[3]);
    assert parts == [q.a, q.b, q.c, q.d];
    DottedIsFull(q);
    hide Full, Dotted;
    if position == |ip| { assert ip[..position] == ip; }
    forall other: Quad | Dotted(other) == ip ensures other == q && position == |ip| {
      DottedIsFull(other);
      var ns := [other.a, other.b, other.c, other.d];
      assert Full(ns) == ip && parts <= ns;
      assert ns == parts;
    }
  }

  // ---- The status report ----

  const EQUALS: byte := 61
  const MAX_STATUS := 8192
  const MAX_VALUE := 256

  type Fields = map<Bytes, Bytes>

  /** The fields the assessment looks at. */
  predicate Relevant(key: Bytes) {
    key in {Ascii("wpa_state"), Ascii("ssid"), Ascii("key_mgmt"), Ascii("pairwise_cipher"), Ascii("group_cipher"), Ascii("ip_address")}
  }

  predicate CleanLine(line: Bytes) {
    forall i :: 0 <= i < |line| ==> line[i] >= 32 && line[i] != 127
  }

  /** One line: its key, its value, and whether it makes the report unacceptable. */
  function AddLine(fields: Fields, line: Bytes): (r: Option<Fields>) {
    var equals := Find(line, EQUALS, 0);
    if !CleanLine(line) || equals == |line| then None
    else
      var key, value := line[..equals], line[equals + 1..];
      if !Relevant(key) then Some(fields)
      else if |value| > MAX_VALUE || key in fields then None
      else Some(fields[key := value])
  }

  predicate Terminated(status: Bytes) {
    status == [] || status[|status| - 1] == NEWLINE
  }

  /** All lines of a terminated report, from position i on. */
  function FieldsOf(status: Bytes, i: nat, fields: Fields): (r: Option<Fields>)
    requires i <= |status| && Terminated(status)
    decreases |status| - i
  {
    if i == |status| then Some(fields)
    else
      var end := Find(status, NEWLINE, i);
      LineEnds(status, i);
      match AddLine(fields, status[i..end])
      case None => None
      case Some(more) => FieldsOf(status, end + 1, more)
  }

  /** In a terminated report every line has an end. */
  lemma LineEnds(status: Bytes, i: nat)
    requires i < |status| && Terminated(status)
    ensures Find(status, NEWLINE, i) < |status|
  {
    var end := Find(status, NEWLINE, i);
    assert status[|status| - 1] == NEWLINE;
    assert forall k :: i <= k < end ==> status[i..end][k - i] == status[k];
  }

  /** A missing field reads as an empty one. */
  function Get(fields: Fields, key: string): Bytes {
    if Ascii(key) in fields then fields[Ascii(key)] else []
  }

  /** States on the way to a connection. */
  predicate Connecting(state: Bytes) {
    state in {Ascii("DISCONNECTED"), Ascii("INACTIVE"), Ascii("SCANNING"), Ascii("AUTHENTICATING"), Ascii("ASSOCIATING"),
      Ascii("ASSOCIATED"), Ascii("4WAY_HANDSHAKE"), Ascii("GROUP_HANDSHAKE")}
  }

  /** A complete, acceptable report about the requested profile. */
  ghost predicate Reported(target: WifiProfile, status: Bytes) {
    && |target.psk| == KEY_SIZE && target.ssidHex != []
    && 0 < |status| <= MAX_STATUS && Terminated(status) && FieldsOf(status, 0, map[]).Some?
  }

  /** The name in the report, in hexadecimal. */
  ghost predicate Named(fields: Fields, hex: Bytes) {
    var name := Unescape(Get(fields, "ssid"), 0);
    name.Some? && 1 <= |name.value| <= 32 && HexOf(name.value) == hex
  }

  ghost predicate Protected(fields: Fields) {
    Get(fields, "key_mgmt") == Ascii("WPA2-PSK") && Get(fields, "pairwise_cipher") == Ascii("CCMP") &&
    Get(fields, "group_cipher") == Ascii("CCMP")
  }

  /** Connected, to the requested network, under WPA2 with CCMP, with an address that is really on the interface. */
  ghost predicate Established(target: WifiProfile, fields: Fields, addresses: seq<Bytes>) {
    && Get(fields, "wpa_state") == Ascii("COMPLETED")
    && Named(fields, target.ssidHex)
    && Protected(fields)
    && Usable(Get(fields, "ip_address")) && Get(fields, "ip_address") in addresses
  }

  /** The connected network is another one, or it is the right one but without a usable address. */
  ghost predicate Unready(target: WifiProfile, fields: Fields, addresses: seq<Bytes>, hex: Bytes) {
    var ip := Get(fields, "ip_address");
    hex != target.ssidHex || (Protected(fields) && !(Usable(ip) && ip in addresses))
  }

  /** Still under way: authenticating, on another network, or without a usable address. */
  ghost predicate UnderWay(target: WifiProfile, fields: Fields, addresses: seq<Bytes>) {
    var state := Get(fields, "wpa_state");
    || Connecting(state)
    || (state == Ascii("COMPLETED") && exists hex :: Named(fields, hex) && Unready(target, fields, addresses, hex))
  }

  /** The parsing loop: it ends because what remains is empty or terminated. */
  method ReadStatus(report: Bytes) returns (r: Option<Fields>)
    requires Terminated(report)
    ensures r == FieldsOf(report, 0, map[])
  {
    var fields: Fields := map[];
    var status := report;
    ghost var i := 0;
    hide Find, AddLine;
    while status != []
      invariant i <= |report| && status == report[i..]
      invariant FieldsOf(report, 0, map[]) == FieldsOf(report, i, fields)
      decreases |status|
    {
      LineEnds(report, i);
      FindFrom(report, NEWLINE, i);
      var end := Find(status, NEWLINE, 0);
      var line := status[..end];
      assert line == report[i..i + end];
      var next := ReadLine(fields, line);
      if next.None? { return None; }
      fields := next.value;
      status := status[end + 1..];
      i := i + end + 1;
    }
    r := Some(fields);
  }

  lemma FindFrom(s: Bytes, c: byte, i: nat)
    requires i <= |s|
    ensures Find(s[i..], c, 0) == Find(s, c, i) - i
  {
    var t := s[i..];
    var a, b := Find(t, c, 0), Find(s, c, i);
    assert forall k :: 0 <= k < a ==> s[i + k] == t[0..a][k];
    assert forall k :: i <= k < b ==> s[k] == s[i..b][k - i];
    assert forall k :: 0 <= k < |t| ==> t[k] == s[i + k];
  }

  method ReadLine(fields: Fields, line: Bytes) returns (r: Option<Fields>)
    ensures r == AddLine(fields, line)
  {
    for k := 0 to |line|
      invariant forall j :: 0 <= j < k ==> line[j] >= 32 && line[j] != 127
    {
      if line[k] < 32 || line[k] == 127 { return None; }
    }
    var equals := Find(line, EQUALS, 0);
    if equals == |line| { return None; }
    var key, value := line[..equals], line[equals + 1..];
    if !Relevant(key) { return Some(fields); }
    if |value| > MAX_VALUE || key in fields { return None; }
    r := Some(fields[key := value]);
  }

  /** assess_wifi_link */
  method AssessWifiLink(target: WifiProfile, status: Bytes, addresses: seq<Bytes>) returns (link: WifiLink)
    ensures link == LinkReady <==> Reported(target, status) && Established(target, FieldsOf(status, 0, map[]).value, addresses)
    ensures link == LinkPending <==> Reported(target, status) && UnderWay(target, FieldsOf(status, 0, map[]).value, addresses)
  {
    hide Find, AddLine, FieldsOf, Unescape, Usable, HexOf, Ascii;
    if |target.psk| != KEY_SIZE || target.ssidHex == [] { return LinkFailed; }
    if status == [] || |status| > MAX_STATUS || status[|status| - 1] != NEWLINE { return LinkFailed; }
    var report := ReadStatus(status);
    if report.None? { return LinkFailed; }
    var fields := report.value;
    link := Judge(target, fields, addresses);
  }

  lemma NotBoth(state: Bytes)
    requires Connecting(state)
    ensures state != Ascii("COMPLETED")
  {
    var c := Ascii("COMPLETED");
    assert |c| == 9 && c[0] == 67;
    assert Ascii("DISCONNECTED")[0] == 68 && Ascii("INACTIVE")[0] == 73 && Ascii("SCANNING")[0] == 83;
    assert Ascii("AUTHENTICATING")[0] == 65 && Ascii("ASSOCIATING")[0] == 65 && Ascii("ASSOCIATED")[0] == 65;
    assert Ascii("4WAY_HANDSHAKE")[0] == 52 && Ascii("GROUP_HANDSHAKE")[0] == 71;
  }

  /** The verdict on a well-formed report. */
  method Judge(target: WifiProfile, fields: Fields, addresses: seq<Bytes>) returns (link: WifiLink)
    ensures link == LinkReady <==> Established(target, fields, addresses)
    ensures link == LinkPending <==> UnderWay(target, fields, addresses)
  {
    hide Unescape, Usable, HexOf, Ascii, Connecting;
    var state := Get(fields, "wpa_state");
    if Connecting(state) {
      NotBoth(state);
      return LinkPending;
    }
    if state != Ascii("COMPLETED") { return LinkFailed; }
    var ok, actual := SsidHex(Get(fields, "ssid"));
    if !ok { return LinkFailed; }
    assert Named(fields, actual);
    if actual != target.ssidHex { return LinkPending; }
    if Get(fields, "key_mgmt") != Ascii("WPA2-PSK") || Get(fields, "pairwise_cipher") != Ascii("CCMP") ||
       Get(fields, "group_cipher") != Ascii("CCMP") { return LinkFailed; }
    var ip := Get(fields, "ip_address");
    ok := UsableIpv4(ip);
    link := if ok && ip in addresses then LinkReady else LinkPending;
  }
}
