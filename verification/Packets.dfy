/** The request notation of the helper: fields separated by bars. */
module Packets {
  import opened Octets
  import opened Profile

  const BAR: byte := 124
  const MAX_PACKET := 256

  function Join(fields: seq<Bytes>): (packet: Bytes)
    requires fields != []
  {
    if |fields| == 1 then fields[0] else fields[0] + [BAR] + Join(fields[1..])
  }

  ghost predicate Separate(fields: seq<Bytes>) {
    fields != [] && forall i :: 0 <= i < |fields| ==> FreeOf(fields[i], BAR)
  }

  lemma {:induction false} JoinAppend(fields: seq<Bytes>, last: Bytes)
    requires fields != []
    ensures Join(fields + [last]) == Join(fields) + [BAR] + last
  {
    if |fields| == 1 {
      assert (fields + [last])[1..] == [last];
    } else {
      JoinAppend(fields[1..], last);
      assert (fields + [last])[1..] == fields[1..] + [last];
      assert fields[0] + [BAR] + (Join(fields[1..]) + [BAR] + last) == Join(fields) + [BAR] + last;
    }
  }

  /** A list of fields is determined by the packet it makes. */
  lemma {:induction false} JoinInjective(a: seq<Bytes>, b: seq<Bytes>)
    requires Separate(a) && Separate(b) && Join(a) == Join(b)
    ensures a == b
    decreases |a|
  {
    var p := Join(a);
    SameHead(a, b, p);
    if |a| == 1 {
      assert a == [a[0]] && b == [b[0]];
    } else {
      assert Join(a[1..]) == p[|a[0]| + 1..] && Join(b[1..]) == p[|b[0]| + 1..];
      JoinInjective(a[1..], b[1..]);
      assert a == [a[0]] + a[1..] && b == [b[0]] + b[1..];
    }
  }

  /** The first field ends at the first bar. */
  lemma SameHead(a: seq<Bytes>, b: seq<Bytes>, p: Bytes)
    requires Separate(a) && Separate(b) && Join(a) == p == Join(b)
    ensures a[0] == b[0] && (|a| == 1 <==> |b| == 1)
  {
    HeadOf(a, p);
    HeadOf(b, p);
    assert forall i :: 0 <= i < |a[0]| ==> p[i] == a[0][i];
    assert forall i :: 0 <= i < |b[0]| ==> p[i] == b[0][i];
    assert |a[0]| == |b[0]|;
    assert a[0] == p[..|a[0]|] && b[0] == p[..|b[0]|];
  }

  lemma HeadOf(a: seq<Bytes>, p: Bytes)
    requires Separate(a) && Join(a) == p
    ensures |a[0]| <= |p| && p[..|a[0]|] == a[0]
    ensures if |a| == 1 then |p| == |a[0]| else |a[0]| < |p| && p[|a[0]|] == BAR
  {}

  /** The splitting loop: the only bar-free fields that join to the packet. */
  method Split(packet: Bytes) returns (fields: seq<Bytes>)
    ensures Separate(fields) && Join(fields) == packet
    ensures forall others :: Separate(others) && Join(others) == packet ==> others == fields
  {
    fields := [];
    var begin := 0;
    while true
      invariant 0 <= begin <= |packet|
      invariant forall i :: 0 <= i < |fields| ==> FreeOf(fields[i], BAR)
      invariant if fields == [] then begin == 0 else packet[..begin] == Join(fields) + [BAR]
      decreases |packet| - begin
    {
      var end := Find(packet, BAR, begin);
      if fields != [] { JoinAppend(fields, packet[begin..end]); }
      assert packet[..end] == packet[..begin] + packet[begin..end];
      fields := fields + [packet[begin..end]];
      assert Join(fields) == packet[..end];
      if end == |packet| { break; }
      begin := end + 1;
      assert packet[..begin] == packet[..end] + [BAR];
    }
    assert packet[..|packet|] == packet;
    forall others | Separate(others) && Join(others) == packet ensures others == fields {
      JoinInjective(others, fields);
    }
  }

  const START: Bytes := [115, 116, 97, 114, 116]
  const STATUS: Bytes := [115, 116, 97, 116, 117, 115]
  const CONFIRM: Bytes := [99, 111, 110, 102, 105, 114, 109]
  const CANCEL: Bytes := [99, 97, 110, 99, 101, 108]

  /** hex */
  method IsHexField(value: Bytes, min: nat, max: nat) returns (ok: bool)
    ensures ok <==> min <= |value| <= max && |value| % 2 == 0 && IsHex(value)
  {
    if |value| < min || |value| > max || |value| % 2 != 0 { return false; }
    for i := 0 to |value|
      invariant IsHex(value[..i])
    {
      if Unhex(value[i]) < 0 { return false; }
    }
    assert value[..|value|] == value;
    ok := true;
  }

  /** The decoding loop of a start request. */
  method ReadHex(digits: Bytes) returns (bytes: Bytes)
    requires |digits| % 2 == 0 && IsHex(digits)
    ensures bytes == FromHex(digits)
  {
    bytes := [];
    var i := 0;
    assert FromHex(digits[..0]) == [];
    while i < |digits|
      invariant 0 <= i <= |digits| && i % 2 == 0 && bytes == FromHex(digits[..i])
    {
      FromHexStep(digits, i);
      bytes := bytes + [Unhex(digits[i]) * 16 + Unhex(digits[i + 1])];
      i := i + 2;
    }
    assert digits[..i] == digits;
  }

  /** The start packet of the administration client (admin/src/admin_window.cpp). */
  function StartPacket(p: WifiProfile): (packet: Bytes) {
    START + [BAR] + p.ssidHex + [BAR] + HexOf(p.psk)
  }

  ghost predicate Refused(packet: Bytes) {
    |packet| > MAX_PACKET || 0 in packet
  }

  lemma HexFree(s: Bytes, c: byte)
    requires IsHex(s) && Unhex(c) < 0
    ensures FreeOf(s, c)
  {}

  lemma JoinThree(a: Bytes, b: Bytes, c: Bytes)
    ensures Join([a, b, c]) == a + [BAR] + b + [BAR] + c
  {
    assert [a, b, c] == [a] + [b] + [c];
    assert Join([a]) == a;
    JoinAppend([a], b);
    JoinAppend([a] + [b], c);
  }

  lemma StartPacketFields(p: WifiProfile)
    requires ValidProfile(p)
    ensures Separate([START, p.ssidHex, HexOf(p.psk)]) && Join([START, p.ssidHex, HexOf(p.psk)]) == StartPacket(p)
    ensures !Refused(StartPacket(p)) && 2 <= |p.ssidHex| <= 64 && |HexOf(p.psk)| == 64
  {
    hide ValidSsid, IsHex;
    var key := HexOf(p.psk);
    JoinThree(START, p.ssidHex, key);
    assert 1 <= |FromHex(p.ssidHex)| <= 32 by { SsidSize(p); }
    assert Unhex(BAR) < 0 && Unhex(0) < 0;
    HexFree(p.ssidHex, BAR);
    HexFree(key, BAR);
    HexFree(p.ssidHex, 0);
    HexFree(key, 0);
  }

  lemma SsidSize(p: WifiProfile)
    requires ValidProfile(p)
    ensures 1 <= |FromHex(p.ssidHex)| <= 32
  {}

  /** What the client prints is accepted, and means the profile it was printed from. */
  lemma StartPacketMeaning(p: WifiProfile, fields: seq<Bytes>, derive: Derivation)
    requires ValidProfile(p)
    ensures !Refused(StartPacket(p))
    ensures Separate(fields) && Join(fields) == StartPacket(p) ==> fields == [START, p.ssidHex, HexOf(p.psk)]
    ensures 2 <= |p.ssidHex| <= 64 && |HexOf(p.psk)| == 64
    ensures Made(FromHex(p.ssidHex), HexOf(p.psk), derive) == Some(p.WithDhcp6(None))
  {
    MadeAgain(p, derive);
    StartPacketFields(p);
    hide Made, Join, Separate, ValidProfile, Refused;
    if Separate(fields) && Join(fields) == StartPacket(p) { JoinInjective(fields, [START, p.ssidHex, HexOf(p.psk)]); }
  }
}
