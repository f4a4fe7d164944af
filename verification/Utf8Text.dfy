/**
  * Text SSIDs: common/src/wifi_profile.cpp, lines 5-31, against sections 3 and 4 of
  * RFC 3629. Shifts and masks are written as the arithmetic they perform.
  */
module Utf8Text {
  import opened Octets

  /** A scalar value an SSID may contain. */
  predicate Permitted(point: int) {
    && 0 <= point <= 0x10FFFF
    && !(0xD800 <= point <= 0xDFFF)                      // surrogates
    && !(point < 0x20) && !(0x7F <= point <= 0x9F)       // C0, delete, C1
    && point != 0x2028 && point != 0x2029                // line separators
    && !(0xFDD0 <= point <= 0xFDEF) && point % 0x10000 < 0xFFFE  // noncharacters
  }

  type Scalar = p: int | Permitted(p) witness 0x20

  /** The shortest UTF-8 form. */
  function EncodeScalar(p: Scalar): (s: Bytes)
    ensures 1 <= |s| <= 4
  {
    assert Permitted(p);
    if p < 0x80 then [p]
    else if p < 0x800 then [0xC0 + p / 64, 0x80 + p % 64]
    else if p < 0x10000 then [0xE0 + p / 4096, 0x80 + p / 64 % 64, 0x80 + p % 64]
    else [0xF0 + p / 262144, 0x80 + p / 4096 % 64, 0x80 + p / 64 % 64, 0x80 + p % 64]
  }

  function EncodeText(ps: seq<Scalar>): (s: Bytes) {
    if ps == [] then [] else EncodeScalar(ps[0]) + EncodeText(ps[1..])
  }

  /** How many continuation bytes a leading byte announces; -1 if it cannot lead. */
  function Continuations(first: byte): (n: int)
    ensures -1 <= n <= 3
  {
    if 0xC2 <= first <= 0xDF then 1
    else if 0xE0 <= first <= 0xEF then 2
    else if 0xF0 <= first <= 0xF4 then 3
    else if first >= 0x80 then -1
    else 0
  }

  function LeadBits(first: byte): (v: nat) {
    if 0xC2 <= first <= 0xDF then first % 32
    else if 0xE0 <= first <= 0xEF then first % 16
    else if 0xF0 <= first <= 0xF4 then first % 8
    else first
  }

  function Minimum(first: byte): (v: nat) {
    if 0xC2 <= first <= 0xDF then 0x80
    else if 0xE0 <= first <= 0xEF then 0x800
    else if 0xF0 <= first <= 0xF4 then 0x10000
    else 0
  }

  predicate IsContinuation(b: byte) { 0x80 <= b <= 0xBF }

  /** The accumulator after the leading byte and n continuation bytes. */
  function Gather(s: Bytes, n: nat): (v: nat)
    requires n < |s|
  {
    if n == 0 then LeadBits(s[0]) else Gather(s, n - 1) * 64 + s[n] % 64
  }

  ghost predicate Continued(s: Bytes, n: int) {
    n < |s| && forall i :: 1 <= i <= n ==> IsContinuation(s[i])
  }

  /** The first character of s and its length, if the loop body accepts it. */
  ghost function Leading(s: Bytes): (r: Option<(Scalar, nat)>)
    requires s != []
    ensures r.Some? ==> 1 <= r.value.1 <= |s|
  {
    var n := Continuations(s[0]);
    if n < 0 || !Continued(s, n) then None
    else if Gather(s, n) < Minimum(s[0]) || !Permitted(Gather(s, n)) then None
    else Some((Gather(s, n), 1 + n))
  }

  lemma GatherUnrolled(s: Bytes, n: nat)
    requires n < |s| && n <= 3
    ensures n == 0 ==> Gather(s, n) == LeadBits(s[0])
    ensures n == 1 ==> Gather(s, n) == LeadBits(s[0]) * 64 + s[1] % 64
    ensures n == 2 ==> Gather(s, n) == (LeadBits(s[0]) * 64 + s[1] % 64) * 64 + s[2] % 64
    ensures n == 3 ==> Gather(s, n) == ((LeadBits(s[0]) * 64 + s[1] % 64) * 64 + s[2] % 64) * 64 + s[3] % 64
  {
    if n >= 1 { assert Gather(s, 1) == Gather(s, 0) * 64 + s[1] % 64; }
    if n >= 2 { assert Gather(s, 2) == Gather(s, 1) * 64 + s[2] % 64; }
    if n >= 3 { assert Gather(s, 3) == Gather(s, 2) * 64 + s[3] % 64; }
  }

  lemma Digit(x: nat, y: nat)
    requires y < 64
    ensures (x * 64 + y) / 64 == x && (x * 64 + y) % 64 == y
  {}

  lemma Digits(v: nat, x: nat, y: nat, z: nat)
    requires y < 64 && z < 64 && v == (x * 64 + y) * 64 + z
    ensures v / 4096 == x && v / 64 % 64 == y && v % 64 == z
  {
    Digit(x * 64 + y, z);
    Digit(x, y);
    assert v / 4096 == v / 64 / 64;
  }

  lemma FourDigits(v: nat, w: nat, x: nat, y: nat, z: nat)
    requires x < 64 && y < 64 && z < 64 && v == ((w * 64 + x) * 64 + y) * 64 + z
    ensures v / 262144 == w && v / 4096 % 64 == x && v / 64 % 64 == y && v % 64 == z
  {
    Digits(v, w * 64 + x, y, z);
    Digit(w, x);
    assert v / 262144 == v / 4096 / 64;
  }

  lemma ContinuationBits(b: byte)
    requires IsContinuation(b)
    ensures b % 64 == b - 0x80
  {}

  /** The bits of a leading byte that announces n continuations. */
  function Mark(n: nat): (m: int)
    requires n <= 3
  {
    if n == 0 then 0 else if n == 1 then 0xC0 else if n == 2 then 0xE0 else 0xF0
  }

  lemma LeadBitsAre(first: byte)
    requires Continuations(first) >= 0
    ensures LeadBits(first) == first - Mark(Continuations(first))
  {}

  /** What the loop body accepts is the shortest form of what it computes. */
  lemma LeadingIsShortest(s: Bytes)
    requires s != [] && Leading(s).Some?
    ensures s[..Leading(s).value.1] == EncodeScalar(Leading(s).value.0)
  {
    var n := Continuations(s[0]);
    var p := Gather(s, n);
    GatherUnrolled(s, n);
    LeadBitsAre(s[0]);
    var x := LeadBits(s[0]);
    forall i | 1 <= i <= n ensures s[i] % 64 == s[i] - 0x80 { ContinuationBits(s[i]); }
    if n == 1 {
      Digit(x, s[1] % 64);
    } else if n == 2 {
      Digits(p, x, s[1] % 64, s[2] % 64);
    } else if n == 3 {
      FourDigits(p, x, s[1] % 64, s[2] % 64, s[3] % 64);
    }
  }

  lemma ScalarDigits(p: Scalar)
    ensures p == p / 64 * 64 + p % 64
    ensures p / 64 == p / 4096 * 64 + p / 64 % 64
    ensures p / 4096 == p / 262144 * 64 + p / 4096 % 64
  {
    assert Permitted(p);
    assert p / 4096 == p / 64 / 64;
    assert p / 262144 == p / 4096 / 64;
  }

  /** The shortest form announces its own length. */
  lemma LeadByte(p: Scalar)
    ensures var e := EncodeScalar(p);
      Continuations(e[0]) == |e| - 1 && LeadBits(e[0]) == e[0] - Mark(|e| - 1) && p >= Minimum(e[0])
  {
    assert Permitted(p);
    ScalarDigits(p);
    LeadBitsAre(EncodeScalar(p)[0]);
  }

  lemma LeadingOfEncoded(p: Scalar, rest: Bytes)
    ensures Leading(EncodeScalar(p) + rest) == Some((p, |EncodeScalar(p)|))
  {
    var e := EncodeScalar(p);
    var s := e + rest;
    var n := |e| - 1;
    assert Permitted(p);
    LeadByte(p);
    ScalarDigits(p);
    assert forall i :: 0 <= i <= n ==> s[i] == e[i];
    assert forall i :: 1 <= i <= n ==> IsContinuation(e[i]);
    forall i | 1 <= i <= n ensures s[i] % 64 == e[i] - 0x80 { ContinuationBits(e[i]); }
    GatherUnrolled(s, n);
    assert Gather(s, n) == p;
  }

  /** The scalars of a text, character by character. */
  ghost function DecodeText(s: Bytes): (r: Option<seq<Scalar>>)
    decreases |s|
  {
    if s == [] then Some([])
    else match Leading(s)
      case None => None
      case Some(head) =>
        match DecodeText(s[head.1..])
        case None => None
        case Some(tail) => Some([head.0] + tail)
  }

  lemma {:induction false} DecodeReencodes(s: Bytes)
    requires DecodeText(s).Some?
    ensures EncodeText(DecodeText(s).value) == s
    decreases |s|
  {
    hide Leading, EncodeScalar, Permitted;
    if s != [] {
      var head := Leading(s).value;
      LeadingIsShortest(s);
      DecodeReencodes(s[head.1..]);
      var ps := DecodeText(s).value;
      assert ps[1..] == DecodeText(s[head.1..]).value;
      assert s == s[..head.1] + s[head.1..];
    }
  }

  lemma {:induction false} EncodeDecodes(ps: seq<Scalar>)
    ensures DecodeText(EncodeText(ps)) == Some(ps)
  {
    hide Leading, EncodeScalar, Permitted;
    if ps != [] {
      var rest := EncodeText(ps[1..]);
      LeadingOfEncoded(ps[0], rest);
      EncodeDecodes(ps[1..]);
      assert EncodeText(ps)[|EncodeScalar(ps[0])|..] == rest;
      assert [ps[0]] + ps[1..] == ps;
    }
  }

  /** The texts the validator is meant to accept. */
  ghost predicate IsText(s: Bytes) {
    exists ps: seq<Scalar> :: EncodeText(ps) == s
  }

  /** Being text and being decodable character by character are the same thing. */
  lemma TextIffDecodable(s: Bytes)
    ensures IsText(s) <==> DecodeText(s).Some?
  {
    if IsText(s) {
      var ps: seq<Scalar> :| EncodeText(ps) == s;
      EncodeDecodes(ps);
    }
    if DecodeText(s).Some? { DecodeReencodes(s); }
  }

  /** A text has only one decoding. */
  lemma TextIsUnambiguous(ps: seq<Scalar>, qs: seq<Scalar>)
    requires EncodeText(ps) == EncodeText(qs)
    ensures ps == qs
  {
    EncodeDecodes(ps);
    EncodeDecodes(qs);
  }

  /** The inner loop: the continuation bytes of the character at position start. */
  method Continue(text: Bytes, start: nat, remaining: nat, lead: nat) returns (ok: bool, point: nat, i: nat)
    requires start + remaining < |text| && lead == LeadBits(text[start])
    ensures ok <==> Continued(text[start..], remaining)
    ensures ok ==> i == start + 1 + remaining && point == Gather(text[start..], remaining)
  {
    ghost var rest := text[start..];
    point, i := lead, start + 1;
    var n := 0;
    while n < remaining
      invariant 0 <= n <= remaining && i == start + 1 + n
      invariant point == Gather(rest, n)
      invariant forall k :: 1 <= k <= n ==> IsContinuation(rest[k])
    {
      var next := text[i];
      assert next == rest[n + 1];
      i := i + 1;
      if !(128 <= next < 192) { return false, point, i; }
      point := point * 64 + next % 64;
      n := n + 1;
    }
    ok := true;
  }

  /** valid_text_ssid */
  method ValidTextSsid(text: Bytes) returns (ok: bool)
    ensures ok <==> IsText(text)
  {
    var i := 0;
    TextIffDecodable(text);
    assert text[0..] == text;
    hide IsText, EncodeText, EncodeScalar, Gather, Continued;
    while i < |text|
      invariant i <= |text|
      invariant DecodeText(text).Some? <==> DecodeText(text[i..]).Some?
    {
      ghost var rest := text[i..];
      var start, first := i, text[i];
      var point, remaining, minimum := first as int, 0, 0;
      if 0xC2 <= first <= 0xDF { point := first % 32; remaining := 1; minimum := 0x80; }
      else if 0xE0 <= first <= 0xEF { point := first % 16; remaining := 2; minimum := 0x800; }
      else if 0xF0 <= first <= 0xF4 { point := first % 8; remaining := 3; minimum := 0x10000; }
      else if first >= 0x80 { return false; }
      assert rest[0] == first && remaining == Continuations(first) && minimum == Minimum(first);
      if |text| - (i + 1) < remaining {
        TooShort(rest, remaining);
        return false;
      }
      var complete;
      complete, point, i := Continue(text, start, remaining, point);
      if !complete { return false; }
      if point < minimum || point > 0x10FFFF || 0xD800 <= point <= 0xDFFF { return false; }
      if point < 0x20 || 0x7F <= point <= 0x9F || point == 0x2028 || point == 0x2029 { return false; }
      if 0xFDD0 <= point <= 0xFDEF || point % 0x10000 >= 0xFFFE { return false; }
      assert Leading(rest) == Some((point, 1 + remaining));
      assert rest[1 + remaining..] == text[i..];
    }
    return true;
  }

  lemma TooShort(s: Bytes, n: nat)
    requires |s| <= n
    ensures !Continued(s, n)
  {}
}
