/** Byte strings and the lowercase hexadecimal notation shared by every component. */
module Octets {
  type byte = b: int | 0 <= b < 256
  type Bytes = seq<byte>

  datatype Option<+T> = None | Some(value: T)

  /** The bytes of an ASCII literal (any character above 255 keeps only its low byte). */
  function Ascii(s: string): (b: Bytes)
    ensures |b| == |s|
  {
    seq(|s|, i requires 0 <= i < |s| => s[i] as int % 256)
  }

  function HexDigit(n: int): (c: byte)
    requires 0 <= n < 16
  {
    if n < 10 then 48 + n else 87 + n
  }

  /** The value of a lowercase hexadecimal digit, -1 for anything else. */
  function Unhex(c: byte): (n: int)
    ensures -1 <= n < 16
    ensures n >= 0 ==> HexDigit(n) == c
  {
    if 48 <= c <= 57 then c - 48
    else if 97 <= c <= 102 then c - 87
    else -1
  }

  predicate IsHex(s: Bytes) {
    forall i :: 0 <= i < |s| ==> Unhex(s[i]) >= 0
  }

  /** Two lowercase digits per byte, most significant first. */
  function HexOf(s: Bytes): (h: Bytes)
    ensures |h| == 2 * |s|
    ensures IsHex(h)
  {
    seq(2 * |s|, i requires 0 <= i < 2 * |s| =>
      if i % 2 == 0 then HexDigit(s[i / 2] / 16) else HexDigit(s[i / 2] % 16))
  }

  function FromHex(h: Bytes): (s: Bytes)
    requires |h| % 2 == 0 && IsHex(h)
    ensures |s| == |h| / 2
  {
    seq(|h| / 2, i requires 0 <= i < |h| / 2 => Unhex(h[2 * i]) * 16 + Unhex(h[2 * i + 1]))
  }

  lemma NibblesOfByte(c: byte)
    ensures Unhex(HexDigit(c / 16)) == c / 16 && Unhex(HexDigit(c % 16)) == c % 16
  {}

  lemma ByteOfNibbles(high: byte, low: byte)
    requires Unhex(high) >= 0 && Unhex(low) >= 0
    ensures var c := Unhex(high) * 16 + Unhex(low);
      c < 256 && HexDigit(c / 16) == high && HexDigit(c % 16) == low
  {}

  lemma HexOfAt(s: Bytes, k: nat)
    requires k < |s|
    ensures HexOf(s)[2 * k] == HexDigit(s[k] / 16) && HexOf(s)[2 * k + 1] == HexDigit(s[k] % 16)
  {
    hide HexDigit;
    assert 2 * k % 2 == 0 && (2 * k + 1) % 2 == 1 && 2 * k / 2 == k && (2 * k + 1) / 2 == k;
  }

  lemma HexInverse(s: Bytes)
    ensures FromHex(HexOf(s)) == s
  {
    forall i | 0 <= i < |s| ensures FromHex(HexOf(s))[i] == s[i] {
      HexOfAt(s, i);
      NibblesOfByte(s[i]);
      hide HexDigit, Unhex, HexOf;
    }
  }

  lemma SameByPairs(a: Bytes, b: Bytes, n: nat)
    requires |a| == |b| == 2 * n
    requires forall k :: 0 <= k < n ==> a[2 * k] == b[2 * k] && a[2 * k + 1] == b[2 * k + 1]
    ensures a == b
  {
    forall i | 0 <= i < 2 * n ensures a[i] == b[i] {
      var k := i / 2;
      assert a[2 * k] == b[2 * k] && a[2 * k + 1] == b[2 * k + 1];
    }
  }

  lemma FromHexAt(h: Bytes, k: nat)
    requires |h| % 2 == 0 && IsHex(h) && k < |h| / 2
    ensures FromHex(h)[k] == Unhex(h[2 * k]) * 16 + Unhex(h[2 * k + 1])
  {}

  lemma FromHexInverse(h: Bytes)
    requires |h| % 2 == 0 && IsHex(h)
    ensures HexOf(FromHex(h)) == h
  {
    var s := FromHex(h);
    var n := |s|;
    forall k | 0 <= k < n ensures HexOf(s)[2 * k] == h[2 * k] && HexOf(s)[2 * k + 1] == h[2 * k + 1] {
      assert Unhex(h[2 * k]) >= 0 && Unhex(h[2 * k + 1]) >= 0;
      hide HexDigit, Unhex, HexOf, FromHex, IsHex;
      FromHexAt(h, k);
      HexOfAt(s, k);
      ByteOfNibbles(h[2 * k], h[2 * k + 1]);
    }
    hide HexOf, FromHex;
    SameByPairs(HexOf(s), h, n);
  }

  /** One more pair of digits is one more byte. */
  lemma FromHexStep(h: Bytes, i: nat)
    requires i % 2 == 0 && i + 2 <= |h| && IsHex(h[..i])
    requires Unhex(h[i]) >= 0 && Unhex(h[i + 1]) >= 0
    ensures IsHex(h[..i + 2])
    ensures FromHex(h[..i + 2]) == FromHex(h[..i]) + [Unhex(h[i]) * 16 + Unhex(h[i + 1])]
  {
    var a, b := h[..i], h[..i + 2];
    forall k | 0 <= k < i + 2 ensures Unhex(b[k]) >= 0 {
      if k < i { assert b[k] == a[k]; }
    }
    forall k | 0 <= k < i / 2 ensures FromHex(b)[k] == FromHex(a)[k] {
      assert a[2 * k] == b[2 * k] && a[2 * k + 1] == b[2 * k + 1];
    }
  }

  predicate FreeOf(s: Bytes, c: byte) {
    forall i :: 0 <= i < |s| ==> s[i] != c
  }

  /** Where c first occurs from position begin on; the length of s if it does not. */
  function Find(s: Bytes, c: byte, begin: nat): (end: nat)
    requires begin <= |s|
    ensures begin <= end <= |s| && FreeOf(s[begin..end], c)
    ensures end < |s| ==> s[end] == c
    decreases |s| - begin
  {
    if begin == |s| || s[begin] == c then begin
    else
      var end := Find(s, c, begin + 1);
      assert s[begin..end] == [s[begin]] + s[begin + 1..end];
      end
  }

  function Copies<T>(x: T, n: nat): (s: seq<T>)
    ensures |s| == n && forall i :: 0 <= i < n ==> s[i] == x
  {
    seq(n, _ => x)
  }
}
