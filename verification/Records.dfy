/** The recovery record of server/src/wifi_journal.h and its field checks. */
module Records {
  import opened Octets

  const TRANSACTION_SIZE := 32
  const BOOT_SIZE := 36
  const MAX_BACKUP := 65536
  const U64 := 0x1_0000_0000_0000_0000

  datatype Phase = Pending | Committed | Restored

  datatype RecoveryRecord = RecoveryRecord(
    phase: Phase,
    previousExists: bool,
    transaction: Bytes,
    bootId: Bytes,
    deadline: int,
    previous: Bytes)
  {
    /** The managed file this record would put back. */
    function Backup(): Option<Bytes> {
      if previousExists then Some(previous) else None
    }

    /** The resolved form: the phase changes and the old credentials are dropped. */
    function Resolve(p: Phase): RecoveryRecord {
      this.(phase := p, previous := [])
    }
  }

  predicate IsTransaction(t: Bytes) {
    |t| == TRANSACTION_SIZE && IsHex(t)
  }

  predicate IsDash(i: int) {
    i == 8 || i == 13 || i == 18 || i == 23
  }

  predicate IsBoot(b: Bytes) {
    |b| == BOOT_SIZE && forall i :: 0 <= i < BOOT_SIZE ==> if IsDash(i) then b[i] == 45 else Unhex(b[i]) >= 0
  }

  predicate ValidRecord(r: RecoveryRecord) {
    && IsTransaction(r.transaction)
    && IsBoot(r.bootId)
    && 0 < r.deadline < U64
    && |r.previous| <= MAX_BACKUP
    && (r.previousExists || r.previous == [])
  }
}
