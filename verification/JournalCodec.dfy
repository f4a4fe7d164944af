/** The byte layout of the recovery journal: server/src/wifi_journal.cpp. */
module JournalCodec {
  import opened Octets
  import opened Records

  const HEADER := 90
  const DIGEST_SIZE := 32
  const MIN_FILE := HEADER + DIGEST_SIZE
  const MAX_FILE := HEADER + MAX_BACKUP + DIGEST_SIZE

  type Digest = d: Bytes | |d| == 32 witness seq(32, _ => 0)

  /** "ENCWIFI1" */
  function Magic(): (m: Bytes)
    ensures |m| == 8
  {
    [69, 78, 67, 87, 73, 70, 73, 49]
  }

  function PhaseCode(p: Phase): byte {
    match p case Pending => 1 case Committed => 2 case Restored => 3
  }

  function PhaseOf(b: byte): Option<Phase> {
    if b == 1 then Some(Pending) else if b == 2 then Some(Committed) else if b == 3 then Some(Restored) else None
  }

  function Pow256(n: nat): (p: int)
    ensures p >= 1
  {
    if n == 0 then 1 else 256 * Pow256(n - 1)
  }

  /** The low n bytes of a value, most significant first. */
  function BigEndian(value: nat, n: nat): (s: Bytes)
    ensures |s| == n
  {
    if n == 0 then [] else BigEndian(value / 256, n - 1) + [value % 256]
  }

  function FromBigEndian(s: Bytes): (v: nat)
    ensures v < Pow256(|s|)
  {
    if s == [] then 0 else FromBigEndian(s[..|s| - 1]) * 256 + s[|s| - 1]
  }

  lemma {:induction false} BigEndianInverse(value: nat, n: nat)
    requires value < Pow256(n)
    ensures FromBigEndian(BigEndian(value, n)) == value
  {
    if n > 0 {
      var s := BigEndian(value, n);
      assert s[..n - 1] == BigEndian(value / 256, n - 1);
      BigEndianInverse(value / 256, n - 1);
    }
  }

  lemma LastByte(high: nat, low: byte)
    ensures (high * 256 + low) / 256 == high && (high * 256 + low) % 256 == low
  {}

  lemma {:induction false} FromBigEndianInverse(s: Bytes)
    ensures BigEndian(FromBigEndian(s), |s|) == s
  {
    hide Pow256;
    if s != [] {
      var high, low := s[..|s| - 1], s[|s| - 1];
      FromBigEndianInverse(high);
      LastByte(FromBigEndian(high), low);
      assert BigEndian(FromBigEndian(s), |s|) == BigEndian(FromBigEndian(high), |high|) + [low];
      assert s == high + [low];
    }
  }

  lemma PowerValues()
    ensures Pow256(4) == 0x1_0000_0000
    ensures Pow256(8) == U64
  {
    assert Pow256(4) == 256 * (256 * (256 * (256 * Pow256(0))));
    assert Pow256(8) == 256 * (256 * (256 * (256 * Pow256(4))));
  }

  /** Everything in front of the checksum. */
  function Body(r: RecoveryRecord): (b: Bytes)
    requires |r.transaction| == TRANSACTION_SIZE && |r.bootId| == BOOT_SIZE && r.deadline >= 0
    ensures |b| == HEADER + |r.previous|
  {
    Magic() + [PhaseCode(r.phase)] + [if r.previousExists then 1 else 0] + r.transaction + r.bootId +
    BigEndian(r.deadline, 8) + BigEndian(|r.previous|, 4) + r.previous
  }

  function Encode(r: RecoveryRecord, digest: Bytes -> Digest): (b: Bytes)
    requires |r.transaction| == TRANSACTION_SIZE && |r.bootId| == BOOT_SIZE && r.deadline >= 0
    ensures |b| == MIN_FILE + |r.previous|
  {
    Body(r) + digest(Body(r))
  }

  function Fields(b: Bytes, phase: Phase): (r: RecoveryRecord)
    requires |b| >= MIN_FILE
  {
    RecoveryRecord(phase, b[9] != 0, b[10..42], b[42..78], FromBigEndian(b[78..86]), b[HEADER..|b| - DIGEST_SIZE])
  }

  /** The loader's verdict on a complete journal file. */
  function Decode(b: Bytes, digest: Bytes -> Digest): (r: Option<RecoveryRecord>) {
    if |b| < MIN_FILE || |b| > MAX_FILE then None
    else if b[..8] != Magic() || b[9] > 1 || FromBigEndian(b[86..90]) != |b| - MIN_FILE then None
    else if b[|b| - DIGEST_SIZE..] != digest(b[..|b| - DIGEST_SIZE]) then None
    else if PhaseOf(b[8]).None? then None
    else if !ValidRecord(Fields(b, PhaseOf(b[8]).value)) then None
    else Some(Fields(b, PhaseOf(b[8]).value))
  }

  lemma BodySlices(r: RecoveryRecord)
    requires ValidRecord(r)
    ensures var b := Body(r);
      && b[..8] == Magic() && b[8] == PhaseCode(r.phase) && b[9] == (if r.previousExists then 1 else 0)
      && b[10..42] == r.transaction && b[42..78] == r.bootId
      && b[78..86] == BigEndian(r.deadline, 8) && b[86..90] == BigEndian(|r.previous|, 4)
      && b[90..] == r.previous
  {}

  /** Every valid record survives a save and a load unchanged. */
  lemma SavedThenLoaded(r: RecoveryRecord, digest: Bytes -> Digest)
    requires ValidRecord(r)
    ensures Decode(Encode(r, digest), digest) == Some(r)
  {
    var b := Encode(r, digest);
    var body := Body(r);
    var n := |body|;
    BodySlices(r);
    PowerValues();
    BigEndianInverse(r.deadline, 8);
    BigEndianInverse(|r.previous|, 4);
    assert b[..n] == body && b[n..] == digest(body);
    assert b[..8] == body[..8] && b[10..42] == body[10..42] && b[42..78] == body[42..78];
    assert b[78..86] == body[78..86] && b[86..90] == body[86..90] && b[90..n] == body[90..];
    assert Fields(b, r.phase) == r;
  }

  lemma SlicesJoin(b: Bytes, i: nat, j: nat)
    requires i <= j <= |b|
    ensures b[..i] + b[i..j] == b[..j]
  {}

  /** Every byte string the loader accepts is exactly what saving the loaded record writes. */
  lemma LoadedThenSaved(b: Bytes, digest: Bytes -> Digest)
    requires Decode(b, digest).Some?
    ensures ValidRecord(Decode(b, digest).value)
    ensures Encode(Decode(b, digest).value, digest) == b
  {
    var r := Decode(b, digest).value;
    var n := |b| - DIGEST_SIZE;
    FromBigEndianInverse(b[78..86]);
    FromBigEndianInverse(b[86..90]);
    assert [PhaseCode(r.phase)] == b[8..9];
    assert [if r.previousExists then 1 else 0] == b[9..10];
    hide BigEndian, FromBigEndian, Magic;
    SlicesJoin(b, 8, 9);
    SlicesJoin(b, 9, 10);
    SlicesJoin(b, 10, 42);
    SlicesJoin(b, 42, 78);
    SlicesJoin(b, 78, 86);
    SlicesJoin(b, 86, 90);
    SlicesJoin(b, 90, n);
    assert Body(r) == b[..n];
    assert b == b[..n] + b[n..];
  }

  /** put: the loop writes the least significant byte last-to-first. */
  method Put(target: array<byte>, offset: nat, value: nat, bytes: nat)
    requires offset + bytes <= target.Length
    modifies target
    ensures target[..] == old(target[..offset]) + BigEndian(value, bytes) + old(target[offset + bytes..])
  {
    var rest := value;
    var i := 0;
    assert BigEndian(rest, bytes) + target[offset + bytes..offset + bytes] == BigEndian(value, bytes);
    while i < bytes
      invariant i <= bytes
      invariant target[..offset] == old(target[..offset])
      invariant target[offset + bytes..] == old(target[offset + bytes..])
      invariant BigEndian(rest, bytes - i) + target[offset + bytes - i..offset + bytes] == BigEndian(value, bytes)
    {
      var at := offset + bytes - i - 1;
      ghost var tail := target[at + 1..offset + bytes];
      target[at] := rest % 256;
      assert target[at..offset + bytes] == [rest % 256] + tail;
      assert BigEndian(rest, bytes - i) == BigEndian(rest / 256, bytes - i - 1) + [rest % 256];
      assert BigEndian(rest / 256, bytes - i - 1) + ([rest % 256] + tail) == BigEndian(rest, bytes - i) + tail;
      rest := rest / 256;
      i := i + 1;
    }
    assert target[..] == target[..offset] + target[offset..offset + bytes] + target[offset + bytes..];
  }

  lemma {:induction false} PowMonotone(i: nat, n: nat)
    requires i <= n
    ensures Pow256(i) <= Pow256(n)
  {
    if i < n { PowMonotone(i, n - 1); }
  }

  /** get: a 64-bit accumulator shifted left once per byte; eight bytes never overflow it. */
  method Get(source: array<byte>, offset: nat, bytes: nat) returns (value: nat)
    requires bytes <= 8 && offset + bytes <= source.Length
    ensures value == FromBigEndian(source[offset..offset + bytes])
  {
    value := 0;
    PowerValues();
    for i := 0 to bytes
      invariant value == FromBigEndian(source[offset..offset + i])
    {
      ghost var seen := source[offset..offset + i + 1];
      assert seen[..i] == source[offset..offset + i];
      PowMonotone(i + 1, 8);
      assert value * 256 < Pow256(i + 1);
      value := (value * 256) % U64 + source[offset + i];
    }
  }
}
