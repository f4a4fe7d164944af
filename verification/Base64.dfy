/** common/src/base64.cpp, against section 4 of RFC 4648. */
module Base64 {
  import opened Octets

  type Sextet = v: int | 0 <= v < 64

  const PAD: byte := 61

  /** The alphabet of section 4. */
  function Letter(v: Sextet): byte {
    if v < 26 then 65 + v else if v < 52 then 71 + v else if v < 62 then v - 4 else if v == 62 then 43 else 47
  }

  /** base64_value */
  function Value(c: byte): (v: int)
    ensures -1 <= v < 64
    ensures v >= 0 ==> Letter(v) == c
  {
    if 65 <= c <= 90 then c - 65
    else if 97 <= c <= 122 then c - 71
    else if 48 <= c <= 57 then c + 4
    else if c == 43 then 62
    else if c == 47 then 63
    else -1
  }

  /** Characters the decoder passes over: padding, line breaks, blanks. */
  predicate Skipped(c: byte) {
    c == PAD || c == 10 || c == 13 || c == 32 || c == 9
  }

  // the four sextets of three bytes, and the three bytes of four sextets
  function First(a: byte): Sextet { a / 4 }
  function Second(a: byte, b: byte): Sextet { var x: int := a; x % 4 * 16 + b / 16 }
  function Third(b: byte, c: byte): Sextet { var y: int := b; y % 16 * 4 + c / 64 }
  function Fourth(c: byte): Sextet { c % 64 }
  function High(u: Sextet, v: Sextet): byte { var x: int := u; x * 4 + v / 16 }
  function Middle(v: Sextet, w: Sextet): byte { var x: int := v; x % 16 * 16 + w / 4 }
  function Low(w: Sextet, x: Sextet): byte { var y: int := w; y % 4 * 64 + x }

  /** Three bytes are four sextets; one or two left over are two or three. */
  function Pack(data: Bytes): (vs: seq<Sextet>)
    decreases |data|
  {
    if data == [] then []
    else if |data| == 1 then [First(data[0]), Second(data[0], 0)]
    else if |data| == 2 then [First(data[0]), Second(data[0], data[1]), Third(data[1], 0)]
    else [First(data[0]), Second(data[0], data[1]), Third(data[1], data[2]), Fourth(data[2])] + Pack(data[3..])
  }

  /** Four sextets are three bytes; bits that do not fill a byte are dropped. */
  function Unpack(vs: seq<Sextet>): (data: Bytes)
    decreases |vs|
  {
    if |vs| < 2 then []
    else if |vs| == 2 then [High(vs[0], vs[1])]
    else if |vs| == 3 then [High(vs[0], vs[1]), Middle(vs[1], vs[2])]
    else [High(vs[0], vs[1]), Middle(vs[1], vs[2]), Low(vs[2], vs[3])] + Unpack(vs[4..])
  }

  lemma GroupInverse(a: byte, b: byte, c: byte)
    ensures High(First(a), Second(a, b)) == a
    ensures Middle(Second(a, b), Third(b, c)) == b
    ensures Low(Third(b, c), Fourth(c)) == c
  {}

  lemma {:induction false} UnpackPack(data: Bytes)
    ensures Unpack(Pack(data)) == data
    decreases |data|
  {
    hide First, Second, Third, Fourth, High, Middle, Low;
    if |data| == 1 {
      GroupInverse(data[0], 0, 0);
    } else if |data| == 2 {
      GroupInverse(data[0], data[1], 0);
    } else if |data| >= 3 {
      GroupInverse(data[0], data[1], data[2]);
      UnpackPack(data[3..]);
      assert Pack(data)[4..] == Pack(data[3..]);
      assert data == data[..3] + data[3..];
    }
  }

  function Letters(vs: seq<Sextet>): (text: Bytes)
    ensures |text| == |vs|
  {
    seq(|vs|, i requires 0 <= i < |vs| => Letter(vs[i]))
  }

  /** The encoding: letters, then as many pads as the last group is short of. */
  function Encoding(data: Bytes): (text: Bytes) {
    Letters(Pack(data)) + (if |data| % 3 == 0 then [] else if |data| % 3 == 1 then [PAD, PAD] else [PAD])
  }

  /** The sextets spelt by a text, everything else left out. */
  function Sextets(text: Bytes): (vs: seq<Sextet>) {
    if text == [] then []
    else
      var c := text[|text| - 1];
      Sextets(text[..|text| - 1]) + (if !Skipped(c) && Value(c) >= 0 then [Value(c)] else [])
  }

  ghost predicate Clean(text: Bytes) {
    forall i :: 0 <= i < |text| ==> Skipped(text[i]) || Value(text[i]) >= 0
  }

  lemma {:induction false} SextetsOfLetters(vs: seq<Sextet>)
    ensures Sextets(Letters(vs)) == vs && Clean(Letters(vs))
  {
    if vs != [] {
      var n := |vs| - 1;
      SextetsOfLetters(vs[..n]);
      assert Letters(vs)[..n] == Letters(vs[..n]);
      assert vs == vs[..n] + [vs[n]];
      assert forall i :: 0 <= i < n ==> Letters(vs)[i] == Letters(vs[..n])[i];
    }
  }

  lemma {:induction false} SextetsConcat(a: Bytes, b: Bytes)
    ensures Sextets(a + b) == Sextets(a) + Sextets(b)
    decreases |b|
  {
    if b == [] {
      assert a + b == a;
    } else {
      var n := |b| - 1;
      assert (a + b)[..|a + b| - 1] == a + b[..n];
      SextetsConcat(a, b[..n]);
    }
  }

  /** Line breaks and blanks may be put anywhere, and padding taken away, without changing the meaning. */
  lemma {:induction false} SkippedMeansNothing(a: Bytes, blank: Bytes, b: Bytes)
    requires forall i :: 0 <= i < |blank| ==> Skipped(blank[i])
    ensures Sextets(a + blank + b) == Sextets(a + b)
    ensures Clean(a + blank + b) <==> Clean(a + b)
  {
    SextetsConcat(a + blank, b);
    SextetsConcat(a, blank);
    SextetsConcat(a, b);
    AllSkipped(blank);
    var long, short := a + blank + b, a + b;
    if Clean(short) {
      forall i | 0 <= i < |long| ensures Skipped(long[i]) || Value(long[i]) >= 0 {
        if i < |a| { assert long[i] == short[i]; }
        else if i >= |a| + |blank| { assert long[i] == short[i - |blank|]; }
      }
    }
    if Clean(long) {
      forall i | 0 <= i < |short| ensures Skipped(short[i]) || Value(short[i]) >= 0 {
        assert short[i] == long[if i < |a| then i else i + |blank|];
      }
    }
  }

  lemma {:induction false} AllSkipped(blank: Bytes)
    requires forall i :: 0 <= i < |blank| ==> Skipped(blank[i])
    ensures Sextets(blank) == []
  {
    if blank != [] { AllSkipped(blank[..|blank| - 1]); }
  }

  /** Every byte string is clean and meaningful once encoded. */
  lemma EncodingMeans(data: Bytes)
    ensures Unpack(Sextets(Encoding(data))) == data && Clean(Encoding(data))
  {
    var pads := Encoding(data)[|Pack(data)|..];
    SextetsOfLetters(Pack(data));
    SkippedMeansNothing(Letters(Pack(data)), pads, []);
    assert Letters(Pack(data)) + pads + [] == Encoding(data);
    assert Letters(Pack(data)) + [] == Letters(Pack(data));
    UnpackPack(data);
  }

  // ---- The encoder ----

  /** The four sextets of a 24-bit group, by shifts and masks. */
  function Shifted(triple: nat): (vs: seq<Sextet>) {
    [triple / 262144 % 64, triple / 4096 % 64, triple / 64 % 64, triple % 64]
  }

  /** Shifts and masks of a number written in base 64. */
  lemma FourDigits(t: nat, u: Sextet, v: Sextet, w: Sextet, x: Sextet)
    requires t == u as int * 262144 + v as int * 4096 + w as int * 64 + x
    ensures Shifted(t) == [u, v, w, x]
  {
    Digit64(u as int * 4096 + v as int * 64 + w, x);
    Digit4096(u as int * 64 + v, w as int * 64 + x);
    Digit262144(u, v as int * 4096 + w as int * 64 + x);
    Digit64(u as int * 64 + v, w);
    Digit64(u, v);
  }

  lemma Digit64(q: nat, r: nat)
    requires r < 64
    ensures (q * 64 + r) / 64 == q && (q * 64 + r) % 64 == r
  {}

  lemma Digit4096(q: nat, r: nat)
    requires r < 4096
    ensures (q * 4096 + r) / 4096 == q
  {}

  lemma Digit262144(q: nat, r: nat)
    requires r < 262144
    ensures (q * 262144 + r) / 262144 == q
  {}

  /** The bits of three bytes, regrouped by six. */
  lemma Regrouped(a: byte, b: byte, c: byte)
    ensures a as int * 65536 + b as int * 256 + c ==
      First(a) as int * 262144 + Second(a, b) as int * 4096 + Third(b, c) as int * 64 + Fourth(c)
  {
    var a1: int, b0: int, b1: int := a % 4, b / 16, b % 16;
    var c0: int, c1: int := c / 64, c % 64;
    assert a == 4 * First(a) as int + a1 && b == 16 * b0 + b1 && c == 64 * c0 + c1;
    assert Second(a, b) == a1 * 16 + b0 && Third(b, c) == b1 * 4 + c0 && Fourth(c) == c1;
  }

  lemma ShiftedIsPacked(a: byte, b: byte, c: byte)
    ensures Shifted(a * 65536 + b * 256 + c) == [First(a), Second(a, b), Third(b, c), Fourth(c)]
  {
    Regrouped(a, b, c);
    hide First, Second, Third, Fourth, Shifted;
    FourDigits(a as int * 65536 + b as int * 256 + c, First(a), Second(a, b), Third(b, c), Fourth(c));
  }

  lemma {:induction false} PackWhole(a: Bytes, b: Bytes)
    requires |a| % 3 == 0
    ensures Pack(a + b) == Pack(a) + Pack(b)
    decreases |a|
  {
    hide First, Second, Third, Fourth;
    var all := a + b;
    if a == [] {
      assert all == b;
    } else {
      assert all[3..] == a[3..] + b && all[0] == a[0] && all[1] == a[1] && all[2] == a[2];
      PackWhole(a[3..], b);
      var group := [First(a[0]), Second(a[0], a[1]), Third(a[1], a[2]), Fourth(a[2])];
      assert Pack(all) == group + Pack(all[3..]) && Pack(a) == group + Pack(a[3..]);
    }
  }

  lemma LettersConcat(a: seq<Sextet>, b: seq<Sextet>)
    ensures Letters(a + b) == Letters(a) + Letters(b)
  {}

  lemma EncodeGroup(done: Bytes, group: Bytes)
    requires |done| % 3 == 0
    ensures Letters(Pack(done + group)) == Letters(Pack(done)) + Letters(Pack(group))
  {
    PackWhole(done, group);
    LettersConcat(Pack(done), Pack(group));
  }

  /** The four letters of a group of up to three bytes, the missing ones zero. */
  method Quad(a: byte, b: byte, c: byte) returns (letters: Bytes)
    ensures letters == Letters([First(a), Second(a, b), Third(b, c), Fourth(c)])
  {
    var triple := a as int * 65536 + b * 256 + c;
    ShiftedIsPacked(a, b, c);
    letters := [Letter(triple / 262144 % 64), Letter(triple / 4096 % 64), Letter(triple / 64 % 64), Letter(triple % 64)];
  }

  lemma PackGroup(a: byte, b: byte, c: byte)
    ensures Pack([a, b, c]) == [First(a), Second(a, b), Third(b, c), Fourth(c)]
  {
    hide First, Second, Third, Fourth;
    assert [a, b, c][3..] == [] && Pack([]) == [];
  }

  lemma EncodeStep(data: Bytes, i: nat)
    requires i % 3 == 0 && i + 3 <= |data|
    ensures var (a, b, c) := (data[i], data[i + 1], data[i + 2]);
      Letters(Pack(data[..i + 3])) == Letters(Pack(data[..i])) + Letters([First(a), Second(a, b), Third(b, c), Fourth(c)])
  {
    hide First, Second, Third, Fourth, Pack, Letters;
    var group := data[i..i + 3];
    assert group == [data[i], data[i + 1], data[i + 2]];
    PackGroup(data[i], data[i + 1], data[i + 2]);
    EncodeGroup(data[..i], group);
    assert data[..i] + group == data[..i + 3];
  }

  /** base64_encode */
  method Encode(data: Bytes) returns (text: Bytes)
    ensures text == Encoding(data)
  {
    text := [];
    var i := 0;
    assert Letters(Pack(data[..0])) == [] && Letters(Pack([])) == [];
    hide First, Second, Third, Fourth, Pack, Letters;
    while i + 2 < |data|
      invariant i <= |data| && i % 3 == 0 && text == Letters(Pack(data[..i]))
    {
      var letters := Quad(data[i], data[i + 1], data[i + 2]);
      EncodeStep(data, i);
      text := text + letters;
      i := i + 3;
    }
    ghost var rest := data[i..];
    EncodeGroup(data[..i], rest);
    assert data == data[..i] + rest;
    assert |data| % 3 == |rest|;
    if i < |data| {
      var tail := LastGroup(data, i);
      text := text + tail;
    }
  }

  /** One or two bytes left over. */
  method LastGroup(data: Bytes, i: nat) returns (text: Bytes)
    requires i < |data| <= i + 2
    ensures text == Letters(Pack(data[i..])) + (if i + 1 == |data| then [PAD, PAD] else [PAD])
  {
    hide Letter, First, Second, Third, Fourth;
    ghost var rest := data[i..];
    var letters := Quad(data[i], if i + 1 < |data| then data[i + 1] else 0, 0);
    if i + 1 < |data| {
      assert letters[..3] == Letters(Pack(rest));
      text := letters[..3] + [PAD];
    } else {
      assert letters[..2] == Letters(Pack(rest));
      text := letters[..2] + [PAD, PAD];
    }
  }

  // ---- The decoder ----

  const TWO31 := 0x8000_0000
  const TWO32 := 0x1_0000_0000

  /** Two's complement, 32 bits. */
  function Int32(x: int): (y: int)
    ensures -TWO31 <= y < TWO31 && (y - x) % TWO32 == 0
  {
    (x + TWO31) % TWO32 - TWO31
  }

  /** Shift right by 0, 2 or 4 bits and mask a byte. */
  function Extract(x: int, shift: nat): byte
    requires shift in {0, 2, 4}
  {
    x / (if shift == 0 then 1 else if shift == 2 then 4 else 16) % 256
  }

  lemma SameByte(x: int, y: int, k: int)
    requires x == y + 256 * k
    ensures x % 256 == y % 256
  {}

  lemma Quarter(x: int, y: int, k: int)
    requires x == y + 4 * k
    ensures x / 4 == y / 4 + k
  {}

  /** The overflow of the accumulator never reaches a byte that is taken from it. */
  lemma WrapHarmless(x: int, y: int, shift: nat)
    requires shift in {0, 2, 4} && (x - y) % TWO32 == 0
    ensures Extract(x, shift) == Extract(y, shift)
  {
    var k := (x - y) / TWO32;
    assert x == y + k * TWO32;
    if shift == 0 {
      SameByte(x, y, k * 0x100_0000);
    } else {
      Quarter(x, y, k * 0x4000_0000);
      if shift == 2 {
        SameByte(x / 4, y / 4, k * 0x40_0000);
      } else {
        Quarter(x / 4, y / 4, k * 0x1000_0000);
        assert x / 16 == x / 4 / 4 && y / 16 == y / 4 / 4;
        SameByte(x / 16, y / 16, k * 0x10_0000);
      }
    }
  }

  lemma WrapKeepsSextet(x: int, y: int)
    requires (x - y) % TWO32 == 0
    ensures x % 64 == y % 64
  {
    var k := (x - y) / TWO32;
    assert x == y + 64 * (k * 0x400_0000);
  }

  /** How many sextets of the current group have been seen. */
  function Phase(vs: seq<Sextet>): (n: nat)
    ensures n < 4 && n <= |vs|
  {
    |vs| % 4
  }

  lemma PhaseStep(vs: seq<Sextet>, v: Sextet)
    ensures Phase(vs + [v]) == if Phase(vs) == 3 then 0 else Phase(vs) + 1
    ensures |vs| >= 4 ==> Phase(vs[4..]) == Phase(vs)
    ensures |vs| < 4 ==> Phase(vs) == |vs|
  {}

  /** How many bits the accumulator is short of a byte, as the decoder counts them. */
  function Fill(phase: nat): int {
    if phase == 0 then -8 else if phase == 1 then -2 else if phase == 2 then -4 else -6
  }

  /** What one more sextet adds: nothing at the start of a group, a byte otherwise. */
  function Added(vs: seq<Sextet>, v: Sextet): Bytes {
    match Phase(vs)
    case 0 => []
    case 1 => [High(vs[|vs| - 1], v)]
    case 2 => [Middle(vs[|vs| - 1], v)]
    case _ => [Low(vs[|vs| - 1], v)]
  }

  lemma UnpackFew(vs: seq<Sextet>)
    requires |vs| < 4
    ensures Unpack(vs) == if |vs| < 2 then [] else if |vs| == 2 then [High(vs[0], vs[1])] else [High(vs[0], vs[1]), Middle(vs[1], vs[2])]
  {}

  lemma UnpackGroup(vs: seq<Sextet>)
    requires |vs| >= 4
    ensures Unpack(vs) == [High(vs[0], vs[1]), Middle(vs[1], vs[2]), Low(vs[2], vs[3])] + Unpack(vs[4..])
  {}

  lemma UnpackShort(vs: seq<Sextet>, v: Sextet)
    requires |vs| < 4
    ensures Unpack(vs + [v]) == Unpack(vs) + Added(vs, v)
  {
    PhaseStep(vs, v);
    hide High, Middle, Low, Phase, Unpack;
    var all := vs + [v];
    assert all[|vs|] == v;
    UnpackFew(vs);
    if |vs| == 3 {
      UnpackGroup(all);
      UnpackFew([]);
      assert all[4..] == [];
    } else {
      UnpackFew(all);
    }
  }

  lemma {:induction false} UnpackStep(vs: seq<Sextet>, v: Sextet)
    ensures Unpack(vs + [v]) == Unpack(vs) + Added(vs, v)
    decreases |vs|
  {
    PhaseStep(vs, v);
    hide High, Middle, Low, Unpack, Phase;
    var all := vs + [v];
    if |vs| >= 4 {
      UnpackStep(vs[4..], v);
      assert all[4..] == vs[4..] + [v];
      assert all[0] == vs[0] && all[1] == vs[1] && all[2] == vs[2] && all[3] == vs[3];
      UnpackGroup(vs);
      UnpackGroup(all);
    } else {
      UnpackShort(vs, v);
    }
  }

  lemma Above16(y: int, k: int, r: nat)
    requires r < 16 && y == 16 * k + r
    ensures y / 16 == k
  {}

  lemma Above4(y: int, k: int, r: nat)
    requires r < 4 && y == 4 * k + r
    ensures y / 4 == k
  {}

  lemma LowByte(k: int, q: int, r: nat)
    requires r < 256 && k == 256 * q + r
    ensures k % 256 == r
  {}

  /** The byte the decoder takes when the last two sextets are u and v. */
  lemma ExtractLast(x: int, u: Sextet, v: Sextet)
    requires x % 64 == u
    ensures Extract(x * 64 + v, 4) == High(u, v)
    ensures Extract(x * 64 + v, 2) == Middle(u, v)
    ensures Extract(x * 64 + v, 0) == Low(u, v)
    ensures (x * 64 + v) % 64 == v
  {
    SplitSextet(u);
    SplitSextet(v);
    ExtractParts(x / 64, u as int / 16, u as int % 16, u as int / 4, u as int % 4,
      v as int / 16, v as int % 16, v as int / 4, v as int % 4);
  }

  lemma SplitSextet(u: Sextet)
    ensures u == 16 * (u as int / 16) + u as int % 16 && u == 4 * (u as int / 4) + u as int % 4
    ensures 0 <= u as int / 16 < 4 && 0 <= u as int / 4 < 16
  {}

  // u is u0 * 16 + u1 and u2 * 4 + u3, and likewise v
  lemma ExtractParts(q: int, u0: nat, u1: nat, u2: nat, u3: nat, v0: nat, v1: nat, v2: nat, v3: nat)
    requires 16 * u0 + u1 == 4 * u2 + u3 && u0 < 4 && u1 < 16 && u2 < 16 && u3 < 4
    requires 16 * v0 + v1 == 4 * v2 + v3 && v0 < 4 && v1 < 16 && v2 < 16 && v3 < 4
    ensures var y := (64 * q + 16 * u0 + u1) * 64 + 16 * v0 + v1;
      && Extract(y, 4) == 4 * (16 * u0 + u1) + v0 && Extract(y, 2) == 16 * u1 + v2 && Extract(y, 0) == 64 * u3 + 4 * v2 + v3
      && y % 64 == 16 * v0 + v1
  {
    var u, v := 16 * u0 + u1, 16 * v0 + v1;
    var y := (64 * q + u) * 64 + v;
    Above16(y, 256 * q + 4 * u + v0, v1);
    LowByte(256 * q + 4 * u + v0, q, 4 * u + v0);
    Above4(y, 1024 * q + 16 * u + v2, v3);
    LowByte(1024 * q + 16 * u + v2, 4 * q + u0, 16 * u1 + v2);
    LowByte(y, 16 * q + u2, 64 * u3 + v);
  }

  lemma CleanStep(text: Bytes, i: nat)
    requires i < |text|
    ensures Clean(text[..i + 1]) <==> Clean(text[..i]) && (Skipped(text[i]) || Value(text[i]) >= 0)
  {
    hide Skipped, Value;
    assert text[..i + 1] == text[..i] + [text[i]];
    var long := text[..i + 1];
    if Clean(long) {
      forall k | 0 <= k < i ensures Skipped(text[..i][k]) || Value(text[..i][k]) >= 0 { assert text[..i][k] == long[k]; }
      assert long[i] == text[i];
    }
  }

  /** One sextet through the wrapping accumulator, against the unbounded one. */
  lemma DecodeStep(vs: seq<Sextet>, v: Sextet, val: int)
    requires vs != [] ==> val % 64 == vs[|vs| - 1]
    ensures Int32(val * 64 + v) % 64 == v
    ensures var shift := Fill(Phase(vs)) + 6;
      && (shift >= 0 ==> shift in {0, 2, 4})
      && Fill(Phase(vs + [v])) == (if shift >= 0 then shift - 8 else shift)
      && Unpack(vs + [v]) == Unpack(vs) + (if shift >= 0 then [Extract(Int32(val * 64 + v), shift)] else [])
  {
    PhaseStep(vs, v);
    UnpackStep(vs, v);
    var exact := val * 64 + v;
    ExtractLast(val, val % 64, v);
    WrapKeepsSextet(Int32(exact), exact);
    hide Unpack, High, Middle, Low, Extract, Int32, Phase;
    if Phase(vs) != 0 { WrapHarmless(Int32(exact), exact, Fill(Phase(vs)) + 6); }
  }

  /** base64_decode: the accumulator wraps at 32 bits and is never masked. */
  method Decode(text: Bytes) returns (data: Bytes, ok: bool)
    ensures data == Unpack(Sextets(text))
    ensures ok <==> Clean(text)
  {
    data, ok := [], true;
    var val, valb := 0, -8;
    assert Clean(text[..0]) && Sextets(text[..0]) == [] && Fill(Phase([])) == -8;
    hide Unpack, High, Middle, Low, Value, Skipped, Extract, Clean, Int32, Fill, Phase, Sextets;
    assert Unpack(Sextets(text[..0])) == [] by { Nothing(text); }
    for i := 0 to |text|
      invariant ok <==> Clean(text[..i])
      invariant data == Unpack(Sextets(text[..i])) && valb == Fill(Phase(Sextets(text[..i])))
      invariant var vs := Sextets(text[..i]); vs != [] ==> val % 64 == vs[|vs| - 1]
      invariant -TWO31 <= val < TWO31
    {
      ghost var vs := Sextets(text[..i]);
      SextetsStep(text, i);
      CleanStep(text, i);
      var c := text[i];
      if Skipped(c) { continue; }
      var v := Value(c);
      if v < 0 {
        ok := false;
        continue;
      }
      DecodeStep(vs, v, val);
      val := Int32(val * 64 + v);
      valb := valb + 6;
      if valb >= 0 {
        data := data + [Extract(val, valb)];
        valb := valb - 8;
      }
    }
    assert text[..|text|] == text;
  }

  lemma Nothing(text: Bytes)
    ensures Unpack(Sextets(text[..0])) == []
  {}

  lemma SextetsStep(text: Bytes, i: nat)
    requires i < |text|
    ensures Sextets(text[..i + 1]) ==
      if Skipped(text[i]) || Value(text[i]) < 0 then Sextets(text[..i]) else Sextets(text[..i]) + [Value(text[i])]
  {
    assert text[..i + 1][..i] == text[..i];
  }
}
