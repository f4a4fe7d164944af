/**
  * Legacy Kuznechik files: the writer gost.c pads only a partial last block, the reader
  * decr.c guesses, and common/src/gost_native.cpp and server/tools/recover_legacy_gost.py
  * decide by a trusted digest. The block cipher and the hash are parameters; chaining is
  * the CBC mode of section 6.2 of NIST SP 800-38A.
  */
module LegacyGost {
  import opened Octets

  const BLOCK := 16
  const KEY_BYTES := 32
  const MAX_SIZE := 100 * 1024 * 1024

  type Block = b: Bytes | |b| == 16 witness seq(16, _ => 0)

  /** A keyed block cipher. */
  datatype Cipher = Cipher(enc: Block -> Block, dec: Block -> Block)

  ghost predicate Inverse(c: Cipher) {
    forall b: Block {:trigger c.enc(b)} :: c.dec(c.enc(b)) == b
  }

  function Pow2(n: nat): (p: int)
    ensures p >= 1
  {
    if n == 0 then 1 else 2 * Pow2(n - 1)
  }

  /** Exclusive or of the low n bits. */
  function XorBits(a: nat, b: nat, n: nat): (c: nat)
    ensures c < Pow2(n)
  {
    if n == 0 then 0 else 2 * XorBits(a / 2, b / 2, n - 1) + (a + b) % 2
  }

  lemma LowBit(a: nat, b: nat, high: nat)
    ensures var c := 2 * high + (a + b) % 2;
      c / 2 == high && (c + b) % 2 == a % 2 && a == 2 * (a / 2) + a % 2
  {}

  lemma {:induction false} XorBitsTwice(a: nat, b: nat, n: nat)
    requires a < Pow2(n)
    ensures XorBits(XorBits(a, b, n), b, n) == a
  {
    if n > 0 {
      LowBit(a, b, XorBits(a / 2, b / 2, n - 1));
      XorBitsTwice(a / 2, b / 2, n - 1);
    }
  }

  lemma ByteWidth()
    ensures Pow2(8) == 256
  {
    assert Pow2(4) == 2 * (2 * (2 * (2 * Pow2(0))));
    assert Pow2(8) == 2 * (2 * (2 * (2 * Pow2(4))));
  }

  function Xor(a: byte, b: byte): (c: byte) {
    ByteWidth();
    XorBits(a, b, 8)
  }

  lemma XorTwice(a: byte, b: byte)
    ensures Xor(Xor(a, b), b) == a
  {
    ByteWidth();
    XorBitsTwice(a, b, 8);
  }

  function XorBlock(a: Block, b: Block): (c: Block) {
    seq(16, i requires 0 <= i < 16 => Xor(a[i], b[i]))
  }

  lemma XorBlockTwice(a: Block, b: Block)
    ensures XorBlock(XorBlock(a, b), b) == a
  {
    forall i | 0 <= i < 16 ensures XorBlock(XorBlock(a, b), b)[i] == a[i] { XorTwice(a[i], b[i]); }
  }

  predicate Whole(s: Bytes) {
    |s| % 16 == 0
  }

  function CbcEncrypt(c: Cipher, iv: Block, s: Bytes): (r: Bytes)
    requires Whole(s)
    ensures |r| == |s|
    decreases |s|
  {
    if s == [] then [] else
      var block := c.enc(XorBlock(s[..16], iv));
      block + CbcEncrypt(c, block, s[16..])
  }

  function CbcDecrypt(c: Cipher, iv: Block, s: Bytes): (r: Bytes)
    requires Whole(s)
    ensures |r| == |s|
    decreases |s|
  {
    if s == [] then [] else XorBlock(c.dec(s[..16]), iv) + CbcDecrypt(c, s[..16], s[16..])
  }

  lemma {:induction false} CbcInverse(c: Cipher, iv: Block, s: Bytes)
    requires Inverse(c) && Whole(s)
    ensures CbcDecrypt(c, iv, CbcEncrypt(c, iv, s)) == s
    decreases |s|
  {
    hide XorBlock;
    if s != [] {
      var block: Block := c.enc(XorBlock(s[..16], iv));
      var rest: Bytes := CbcEncrypt(c, block, s[16..]);
      assert (block + rest)[..16] == block && (block + rest)[16..] == rest;
      XorBlockTwice(s[..16], iv);
      CbcInverse(c, block, s[16..]);
      assert s[..16] + s[16..] == s;
    }
  }

  /** The chaining value after s: its last cipher block, or the initial one. */
  function Chain(iv: Block, s: Bytes): (b: Block)
    requires Whole(s)
  {
    if s == [] then iv else s[|s| - 16..]
  }

  lemma {:induction false} CbcEncryptAppend(c: Cipher, iv: Block, s: Bytes, block: Block)
    requires Whole(s)
    ensures CbcEncrypt(c, iv, s + block) ==
      CbcEncrypt(c, iv, s) + c.enc(XorBlock(block, Chain(iv, CbcEncrypt(c, iv, s))))
    decreases |s|
  {
    hide XorBlock;
    var all := s + block;
    if s == [] {
      assert all == block && block[..16] == block && block[16..] == [];
    } else {
      var first := c.enc(XorBlock(s[..16], iv));
      var rest := CbcEncrypt(c, first, s[16..]);
      assert all[..16] == s[..16] && all[16..] == s[16..] + block;
      CbcEncryptAppend(c, first, s[16..], block);
      assert Chain(first, rest) == Chain(iv, first + rest);
      assert first + (rest + c.enc(XorBlock(block, Chain(first, rest)))) ==
        (first + rest) + c.enc(XorBlock(block, Chain(first, rest)));
    }
  }

  lemma {:induction false} CbcDecryptAppend(c: Cipher, iv: Block, s: Bytes, block: Block)
    requires Whole(s)
    ensures CbcDecrypt(c, iv, s + block) == CbcDecrypt(c, iv, s) + XorBlock(c.dec(block), Chain(iv, s))
    decreases |s|
  {
    hide XorBlock;
    var all := s + block;
    if s == [] {
      assert all == block && block[..16] == block && block[16..] == [];
    } else {
      var first := XorBlock(c.dec(s[..16]), iv);
      var rest := CbcDecrypt(c, s[..16], s[16..]);
      assert all[..16] == s[..16] && all[16..] == s[16..] + block;
      CbcDecryptAppend(c, s[..16], s[16..], block);
      assert Chain(s[..16], s[16..]) == Chain(iv, s);
      var last := XorBlock(c.dec(block), Chain(iv, s));
      assert first + (rest + last) == (first + rest) + last;
    }
  }

  /** Only a partial last block is padded. */
  function Pad(s: Bytes): (r: Bytes)
    ensures Whole(r)
  {
    if |s| % 16 == 0 then s else s + Copies<byte>(16 - |s| % 16, 16 - |s| % 16)
  }

  /** The last k bytes all have value k. */
  ghost predicate EndsIn(s: Bytes, k: int) {
    1 <= k <= |s| && k < 256 && s[|s| - k..] == Copies<byte>(k, k)
  }

  /** At most one length can be guessed: the value of the last byte. */
  lemma EndsInLastByte(s: Bytes, k: int)
    requires EndsIn(s, k)
    ensures k == s[|s| - 1]
  {
    assert s[|s| - k..][k - 1] == Copies<byte>(k, k)[k - 1];
  }

  /** Whether the guess of a reader that knows lengths up to most would cut something off. */
  ghost predicate Guessable(s: Bytes, most: nat) {
    exists k :: 1 <= k <= most && EndsIn(s, k)
  }

  /** What remains of s once the guess is cut off. */
  ghost function Stripped(s: Bytes, most: nat): (r: Bytes) {
    if Guessable(s, most) then s[..|s| - s[|s| - 1]] else s
  }

  lemma GuessableLast(s: Bytes, most: nat)
    ensures Guessable(s, most) <==> s != [] && s[|s| - 1] <= most && EndsIn(s, s[|s| - 1])
  {
    if Guessable(s, most) {
      var k :| 1 <= k <= most && EndsIn(s, k);
      EndsInLastByte(s, k);
    }
  }

  /** The padding of a partial block is always guessed right. */
  lemma PadThenStrip(s: Bytes, most: nat)
    requires |s| % 16 != 0 && most >= 15
    ensures Guessable(Pad(s), most) && Stripped(Pad(s), most) == s
  {
    var k := 16 - |s| % 16;
    var p := Pad(s);
    assert p[|p| - k..] == Copies<byte>(k, k);
    assert EndsIn(p, k);
    EndsInLastByte(p, k);
    assert p[..|p| - k] == s;
  }

  /**
    * Exactly which plaintexts survive the writer and the guessing reader: everything but a
    * non-empty whole number of blocks that happens to end like padding. Compare section 6.3
    * of RFC 5652, which pads such a plaintext with a block of its own.
    */
  lemma GuessIsRight(s: Bytes, most: nat)
    requires most >= 15
    ensures Stripped(Pad(s), most) == s <==> s == [] || |s| % 16 != 0 || !Guessable(s, most)
  {
    if |s| % 16 != 0 {
      PadThenStrip(s, most);
    } else {
      GuessableLast(s, most);
    }
  }

  /** The next block of the input, padded if it is a partial one. */
  method Gather(input: Bytes, position: nat, buffer: array<byte>) returns (next: nat)
    requires position < |input| && position % 16 == 0 && buffer.Length == 16
    modifies buffer
    ensures next <= |input| && (next == |input| || next == position + 16)
    ensures input[..position] + buffer[..] == if next == |input| then Pad(input) else input[..next]
  {
    var size := if |input| - position < 16 then |input| - position else 16;
    forall i | 0 <= i < size { buffer[i] := input[position + i]; }
    next := position + size;
    if size < 16 {
      forall i | size <= i < 16 { buffer[i] := 16 - size; }
    }
    assert buffer[..][..size] == input[position..next];
    Gathered(input, position, buffer[..]);
  }

  lemma EncryptStep(c: Cipher, iv: Block, done: Bytes, plain: Block, output: Bytes)
    requires Whole(done) && output == iv + CbcEncrypt(c, iv, done)
    ensures var block := c.enc(XorBlock(plain, Chain(iv, CbcEncrypt(c, iv, done))));
      output + block == iv + CbcEncrypt(c, iv, done + plain) && Chain(iv, CbcEncrypt(c, iv, done + plain)) == block
  {
    hide XorBlock, CbcEncrypt;
    var sofar: Bytes := CbcEncrypt(c, iv, done);
    var block: Block := c.enc(XorBlock(plain, Chain(iv, sofar)));
    CbcEncryptAppend(c, iv, done, plain);
    var head: Bytes := iv;
    assert head + (sofar + block) == (head + sofar) + block;
    assert (sofar + block)[|sofar|..] == block;
  }

  /** ak_bckey_encrypt_ecb on the buffer itself. */
  method Encipher(buffer: array<byte>, c: Cipher)
    requires buffer.Length == 16
    modifies buffer
    ensures buffer[..] == c.enc(old(buffer[..]))
  {
    var block: Block := c.enc(buffer[..]);
    forall i | 0 <= i < 16 { buffer[i] := block[i]; }
    assert buffer[..] == block;
  }

  /** gost.c: one block at a time, padded, chained and enciphered in place. */
  method EncryptFile(input: Bytes, iv: Block, c: Cipher) returns (output: Bytes)
    ensures output == iv + CbcEncrypt(c, iv, Pad(input))
  {
    output := iv;
    var buffer := new byte[16];
    var current: Block := iv;
    var position := 0;
    ghost var done: Bytes := [];
    assert CbcEncrypt(c, iv, []) == [] && output + [] == output && Chain(iv, []) == iv && Pad([]) == [];
    hide XorBlock, CbcEncrypt, Pad, Chain;
    while position < |input|
      invariant position <= |input| && Whole(done) && (position == |input| || position % 16 == 0)
      invariant done == if position < |input| then input[..position] else Pad(input)
      invariant output == iv + CbcEncrypt(c, iv, done) && current == Chain(iv, CbcEncrypt(c, iv, done))
    {
      position := Gather(input, position, buffer);
      ghost var plain: Block := buffer[..];
      XorInto(buffer, current);
      Encipher(buffer, c);
      EncryptStep(c, iv, done, plain, output);
      done := done + plain;
      current := buffer[..];
      output := output + buffer[..];
    }
  }

  lemma Gathered(input: Bytes, position: nat, plain: Block)
    requires position < |input| && position % 16 == 0
    requires var size := if |input| - position < 16 then |input| - position else 16;
      plain[..size] == input[position..position + size] && forall i :: size <= i < 16 ==> plain[i] == 16 - size
    ensures input[..position] + plain ==
      if |input| - position <= 16 then Pad(input) else input[..position + 16]
  {
    var left := |input| - position;
    if left < 16 {
      assert |input| % 16 == left;
      assert plain == input[position..] + Copies<byte>(16 - left, 16 - left);
      assert input[..position] + (input[position..] + Copies<byte>(16 - left, 16 - left)) == Pad(input);
    } else {
      assert plain[..16] == plain;
    }
  }

  /** XORs a block into the buffer. */
  method XorInto(buffer: array<byte>, mask: Block)
    requires buffer.Length == 16
    modifies buffer
    ensures buffer[..] == XorBlock(old(buffer[..]), mask)
  {
    hide Xor;
    for i := 0 to 16
      invariant forall k :: 0 <= k < i ==> buffer[k] == Xor(old(buffer[k]), mask[k])
      invariant forall k :: i <= k < 16 ==> buffer[k] == old(buffer[k])
    {
      buffer[i] := Xor(buffer[i], mask[i]);
    }
  }

  /** The guess looks at the last block only. */
  lemma StrippedTail(head: Bytes, last: Block, most: nat)
    requires most <= 16
    ensures Stripped(head + last, most) == head + Stripped(last, most)
  {
    var all: Bytes := head + last;
    var k := last[15];
    assert all[|all| - 1] == k;
    GuessableLast(all, most);
    GuessableLast(last, most);
    if k <= 16 {
      assert all[|all| - k..] == last[16 - k..];
      assert all[..|all| - k] == head + last[..16 - k];
    }
  }

  /** How many bytes of the last block decr.c keeps. */
  method Keep(last: array<byte>, raw: bool) returns (size: nat)
    requires last.Length == 16
    ensures size <= 16 && last[..size] == if raw then last[..] else Stripped(last[..], 16)
  {
    var padding := last[15];
    GuessableLast(last[..], 16);
    assert last[..16] == last[..];
    if raw || padding == 0 || padding > 16 { return 16; }
    for i := 16 - padding to 16
      invariant forall k :: 16 - padding <= k < i ==> last[k] == padding
    {
      if last[i] != padding {
        assert last[..][16 - padding..][i - (16 - padding)] != Copies<byte>(padding, padding)[i - (16 - padding)];
        return 16;
      }
    }
    assert last[..][16 - padding..] == Copies<byte>(padding, padding);
    size := 16 - padding;
  }

  lemma DecryptStep(c: Cipher, iv: Block, done: Bytes, block: Block)
    requires Whole(done)
    ensures Whole(done + block) && Chain(iv, done + block) == block
    ensures CbcDecrypt(c, iv, done + block) == CbcDecrypt(c, iv, done) + XorBlock(c.dec(block), Chain(iv, done))
  {
    hide XorBlock, CbcDecrypt;
    CbcDecryptAppend(c, iv, done, block);
    assert (done + block)[|done|..] == block;
  }

  /** fread of one block's worth. */
  function ReadSize(file: Bytes, position: nat): (n: nat)
    requires position <= |file|
    ensures position + n <= |file| && n <= 16
  {
    if |file| - position < 16 then |file| - position else 16
  }

  /** All whole blocks behind the initial one. */
  function Blocks(file: Bytes): (s: Bytes)
    requires |file| >= 16
    ensures Whole(s)
  {
    file[16..|file| - |file| % 16]
  }

  /** One block into the buffer, deciphered and unchained. */
  method Decipher(buffer: array<byte>, block: Block, current: Block, c: Cipher)
    requires buffer.Length == 16
    modifies buffer
    ensures buffer[..] == XorBlock(c.dec(block), current)
  {
    var deciphered: Block := c.dec(block);
    forall i | 0 <= i < 16 { buffer[i] := deciphered[i]; }
    assert buffer[..] == deciphered;
    XorInto(buffer, current);
  }

  /** decr.c: decipher block by block, one block behind, and guess the length of the last. */
  method DecryptFile(file: Bytes, c: Cipher, raw: bool) returns (ok: bool, output: Bytes)
    ensures ok <==> |file| >= 16 && Whole(file)
    ensures ok ==> var plain := CbcDecrypt(c, file[..16], Blocks(file));
      output == if raw then plain else Stripped(plain, 16)
    ensures !ok ==> output == if |file| >= 16 then CbcDecrypt(c, file[..16], Blocks(file)) else []
  {
    output := [];
    if |file| < 16 { return false, output; }
    var iv: Block := file[..16];
    var current, position := iv, 16;
    var last := new byte[16];
    var lastSize := 0;
    var buffer := new byte[16];
    ghost var done: Bytes := [];
    hide XorBlock, CbcDecrypt, Chain;
    assert Chain(iv, done) == iv && CbcDecrypt(c, iv, done) == [] by { Nothing(c, iv); }
    while position < |file|
      invariant 16 <= position <= |file| && Whole(done) && done == file[16..position]
      invariant current == Chain(iv, done)
      invariant lastSize == if position == |file| && done != [] then 16 else 0
      invariant CbcDecrypt(c, iv, done) == output + last[..lastSize]
    {
      var size := ReadSize(file, position);
      if size != 16 {
        assert position == |file| - |file| % 16;
        assert output + last[..0] == output;
        return false, output;
      }
      var block: Block := file[position..position + 16];
      position := position + size;
      Decipher(buffer, block, current, c);
      DecryptStep(c, iv, done, block);
      assert output + last[..lastSize] == output;
      done := done + block;
      current := block;
      var next := ReadSize(file, position);
      position := position + next;
      if next > 0 {
        output := output + buffer[..];
        position := position - next;
        assert output + last[..lastSize] == output;
      } else {
        forall i | 0 <= i < 16 { last[i] := buffer[i]; }
        lastSize := 16;
        assert last[..16] == buffer[..];
      }
    }
    assert done == Blocks(file);
    if lastSize > 0 {
      assert last[..16] == last[..];
      StrippedTail(output, last[..], 16);
      var size := Keep(last, raw);
      output := output + last[..size];
    }
    ok := true;
  }

  /** What the writer makes of p, read back whole block by whole block, is p with its padding. */
  lemma FileBlocks(p: Bytes, iv: Block, c: Cipher)
    requires Inverse(c)
    ensures var file := iv + CbcEncrypt(c, iv, Pad(p));
      |file| >= 16 && Whole(file) && file[..16] == iv && CbcDecrypt(c, file[..16], Blocks(file)) == Pad(p)
  {
    var body: Bytes := CbcEncrypt(c, iv, Pad(p));
    var file: Bytes := iv + body;
    CbcInverse(c, iv, Pad(p));
    hide CbcEncrypt, CbcDecrypt;
    assert file[..16] == iv && Blocks(file) == body;
  }

  /** Exactly which plaintexts gost.c and decr.c together preserve. */
  lemma FileRoundTrip(p: Bytes, iv: Block, c: Cipher)
    requires Inverse(c)
    ensures var file := iv + CbcEncrypt(c, iv, Pad(p));
      Stripped(CbcDecrypt(c, file[..16], Blocks(file)), 16) == p <==> p == [] || |p| % 16 != 0 || !Guessable(p, 16)
  {
    FileBlocks(p, iv, c);
    GuessIsRight(p, 16);
  }

  /** Sixteen bytes that the writer and the guessing reader do not preserve: fifteen zeros and a one. */
  lemma LostByte(iv: Block, c: Cipher)
    requires Inverse(c)
    ensures var p := Copies<byte>(0, 15) + [1];
      var file := iv + CbcEncrypt(c, iv, Pad(p));
      Stripped(CbcDecrypt(c, file[..16], Blocks(file)), 16) == Copies<byte>(0, 15) != p
  {
    var p: Bytes := Copies<byte>(0, 15) + [1];
    FileBlocks(p, iv, c);
    hide CbcEncrypt, CbcDecrypt, Blocks;
    assert p[15..] == Copies<byte>(1, 1);
    assert EndsIn(p, 1);
    assert p[..15] == Copies<byte>(0, 15);
  }

  /** A digest function, in hexadecimal; the algorithm may be unknown. */
  type Hash = Bytes -> Option<Bytes>

  /** gost_native.cpp: the first candidate with the digest. */
  ghost function Native(plain: Bytes, hash: Hash, digest: Bytes): (r: Option<Bytes>) {
    if hash(plain).None? then None
    else if hash(plain) == Some(digest) then Some(plain)
    else if Guessable(plain, 15) && hash(Stripped(plain, 15)) == Some(digest) then Some(Stripped(plain, 15))
    else None
  }

  /** recover_legacy_gost.py: the length of the only candidate with the digest. */
  ghost function Tool(plain: Bytes, hash: Hash, digest: Bytes): (r: Option<nat>) {
    var long := hash(plain) == Some(digest);
    var short := Guessable(plain, 15) && hash(Stripped(plain, 15)) == Some(digest);
    if long && !short then Some(|plain|)
    else if short && !long then Some(|Stripped(plain, 15)|)
    else None
  }

  lemma StrippedPrefix(plain: Bytes, most: nat)
    ensures |Stripped(plain, most)| <= |plain| && Stripped(plain, most) == plain[..|Stripped(plain, most)|]
    ensures Guessable(plain, most) ==> |Stripped(plain, most)| < |plain|
  {
    GuessableLast(plain, most);
    assert plain[..|plain|] == plain;
  }

  /**
    * Recovery is complete and sound on everything the writer ever wrote, and returns the
    * plaintext itself exactly when the hash does not confuse it with its padded form.
    */
  lemma Recovery(p: Bytes, iv: Block, c: Cipher, hash: Hash, digest: Bytes)
    requires Inverse(c) && |p| <= MAX_SIZE
    requires hash(p) == Some(digest) && hash(Pad(p)).Some?
    ensures var file := iv + CbcEncrypt(c, iv, Pad(p));
      && Acceptable(file)
      && var r := Native(CbcDecrypt(c, file[..16], Blocks(file)), hash, digest);
      && r.Some? && hash(r.value) == Some(digest)
      && (r.value == p <==> |p| % 16 == 0 || hash(Pad(p)) != hash(p))
  {
    FileBlocks(p, iv, c);
    hide CbcEncrypt, CbcDecrypt;
    if |p| % 16 != 0 { PadThenStrip(p, 15); }
  }

  /** Whatever the tool dares to return, the native code returns; it returns more only on a collision. */
  lemma ToolAgrees(plain: Bytes, hash: Hash, digest: Bytes)
    requires hash(plain).Some?
    ensures Tool(plain, hash, digest).Some? ==>
      var n := Tool(plain, hash, digest).value; n <= |plain| && Native(plain, hash, digest) == Some(plain[..n])
    ensures Native(plain, hash, digest).Some? && Tool(plain, hash, digest).None? <==>
      hash(plain) == Some(digest) && Guessable(plain, 15) && hash(Stripped(plain, 15)) == Some(digest)
  {
    StrippedPrefix(plain, 15);
    assert plain[..|plain|] == plain;
  }

  /** The file sizes both recoveries accept. */
  predicate Acceptable(file: Bytes) {
    |file| >= 16 && (|file| - 16) % 16 == 0 && |file| <= MAX_SIZE + 32
  }

  /** The last byte and whether as many bytes of that value end the data. */
  method EndsPadded(data: Bytes) returns (padding: nat)
    requires data == [] || |data| >= 16
    ensures if Guessable(data, 15) then padding > 0 && padding == data[|data| - 1] else padding == 0
  {
    GuessableLast(data, 15);
    if data == [] { return 0; }
    padding := data[|data| - 1];
    if padding == 0 || padding > 15 { return 0; }
    ghost var tail := data[|data| - padding..];
    for i := |data| - padding to |data|
      invariant forall k :: |data| - padding <= k < i ==> data[k] == padding
    {
      if data[i] != padding {
        assert tail[i - (|data| - padding)] != Copies<byte>(padding, padding)[i - (|data| - padding)];
        return 0;
      }
    }
    assert tail == Copies<byte>(padding, padding);
  }

  /** gost_native_recover_legacy */
  method RecoverLegacy(frame: Bytes, key: Bytes, kuznechik: Bytes -> Cipher, hash: Hash, digest: Bytes)
    returns (r: Option<Bytes>)
    ensures r == if |key| == KEY_BYTES && Acceptable(frame) && digest != []
      then Native(CbcDecrypt(kuznechik(key), frame[..16], Blocks(frame)), hash, digest) else None
  {
    if |key| != KEY_BYTES || |frame| < 16 || (|frame| - 16) % 16 != 0 || |frame| > MAX_SIZE + 32 || digest == [] { return None; }
    assert Blocks(frame) == frame[16..];
    var plain := CbcDecrypt(kuznechik(key), frame[..16], frame[16..]);
    hide CbcDecrypt;
    var calculated := hash(plain);
    if calculated.None? { return None; }
    if calculated.value == digest { return Some(plain); }
    if plain == [] { return None; }
    var padding := EndsPadded(plain);
    if padding == 0 { return None; }
    plain := plain[..|plain| - padding];
    calculated := hash(plain);
    if calculated != Some(digest) { return None; }
    r := Some(plain);
  }

  /** The tool's candidate lengths. */
  method CandidateLengths(data: Bytes) returns (lengths: seq<nat>)
    requires data == [] || |data| >= 16
    ensures lengths == if Guessable(data, 15) then [|data|, |Stripped(data, 15)|] else [|data|]
  {
    lengths := [|data|];
    var padding := EndsPadded(data);
    StrippedPrefix(data, 15);
    if padding > 0 { lengths := lengths + [|data| - padding]; }
  }

  ghost function One(hash: Hash, digest: Bytes, candidate: Bytes): (lengths: seq<nat>) {
    if hash(candidate) == Some(digest) then [|candidate|] else []
  }

  /** What the environment does to the tool: does the decoder run, does the link appear, is the staged file cleaned away? */
  datatype Luck = Luck(ran: bool, linked: bool, cleaned: bool)

  /** The tool refuses these before it decodes anything. */
  ghost predicate Tried(ciphertext: Bytes, key: Bytes, expected: Bytes, digestSize: nat, output: Option<Bytes>) {
    |expected| == digestSize && IsHex(expected) && output.None? && |key| == KEY_BYTES && Acceptable(ciphertext)
  }

  /** recover: the decoder is decr.c run with raw blocks; output is what the path of the output held, and holds afterwards. */
  method RecoverWithTool(ciphertext: Bytes, key: Bytes, kuznechik: Bytes -> Cipher, hash: Hash, expected: Bytes, digestSize: nat,
                         before: Option<Bytes>, luck: Luck)
    returns (r: Option<nat>, output: Option<Bytes>)
    ensures !Tried(ciphertext, key, expected, digestSize, before) || !luck.ran || !luck.linked ==> r.None? && output == before
    ensures Tried(ciphertext, key, expected, digestSize, before) && luck.ran && luck.linked ==>
      var plain := CbcDecrypt(kuznechik(key), ciphertext[..16], Blocks(ciphertext));
      var found := Tool(plain, hash, expected);
      && r == (if luck.cleaned then found else None)
      && (found.None? ==> output.None?)
      && (found.Some? ==> output.Some? && output.value <= plain && |output.value| == found.value && hash(output.value) == Some(expected))
  {
    hide CbcDecrypt, IsHex, Unhex, EndsIn;
    r, output := None, before;
    if |expected| != digestSize || !IsHex(expected) || before.Some? { return; }
    if |key| != KEY_BYTES { return; }
    if |ciphertext| < 16 || (|ciphertext| - 16) % 16 != 0 || |ciphertext| > MAX_SIZE + 32 { return; }
    if !luck.ran { return; }
    var ok, data := DecryptFile(ciphertext, kuznechik(key), true);
    var lengths := CandidateLengths(data);
    StrippedPrefix(data, 15);
    assert data[..|data|] == data;
    var matches: seq<nat> := [];
    for i := 0 to |lengths|
      invariant |matches| <= i
      invariant forall m :: m in matches ==> m <= |data| && hash(data[..m]) == Some(expected)
      invariant i == 1 ==> matches == One(hash, expected, data)
      invariant i == 2 ==> matches == One(hash, expected, data) + One(hash, expected, Stripped(data, 15))
    {
      if hash(data[..lengths[i]]) == Some(expected) { matches := matches + [lengths[i]]; }
    }
    if |matches| != 1 || !luck.linked { return; }
    assert matches[0] in matches;
    output := Some(data[..matches[0]]);
    if luck.cleaned { r := Some(matches[0]); }
  }

  lemma Nothing(c: Cipher, iv: Block)
    ensures CbcDecrypt(c, iv, []) == [] && Chain(iv, []) == iv && !Guessable([], 16)
  {}
}
