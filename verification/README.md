# Verification of the encoder's Wi-Fi transaction, codecs, legacy recovery and monitor

This project models the parts of the repository whose correctness spans several
functions, files or runs, and proves properties of them with Dafny 4.11. Check it
with `dafny verify dfyconfig.toml`.

**The crash-safe Wi-Fi change transaction.** An owner journals a backup of the managed
Netplan file, swaps in the new profile, checks the connection and then records the
outcome; an independent supervisor undoes whatever is not confirmed in time.
`Protocol` is the transition system: one step is one visible effect (a rename, an
unlink, a directory fsync, taking or losing the lock, reading the clock, the passing
of the live checks, time passing) or a power loss, which keeps for each of the two
directories independently any entry the disk might hold. A process may die between
any two steps; its lock is then released. `Runs` states what holds over every run.
`Machine` is the only way to change that world: its primitives demand the guard of the
step they take, so the classes in `Journal`, `NetplanFiles`, `RecoveryWorker` and
`ManagedBackend`, which follow the C++ code branch by branch, refine the protocol
because they verify. `Change`, `Session`, `Packets` and `Rpc` stack the in-memory state
machine, the tickets and the request handler on top, down to the helper's serving loop.

Two places where the code does less than one might expect are stated as they are.
A committed record that was renamed into place can still be lost to a power failure
before its directory is synced, and the transaction is then undone; `Runs.CommitWindow`
and `Runs.UndoableIffPendingOnDisk` give the exact condition, and
`RecoveryWorker.ConfirmedThenLost` a run from a fresh machine, under the program's own strict
reader and with the draft of any profile. And a session can block every later start for the life
of the helper. After a tick at or past the deadline a start is turned away as busy exactly
if the current session is `Blocked`: still Idle, because its start was refused before anything
happened (exactly if the generator or the Ethernet check refused, `Rpc.WifiRpc.Replace`), or
in RecoveryRequired, because its reversal failed. With no system call or callback failing, a
reversal fails exactly if it meets a journal lock that somebody holds or a record that is no
longer its own, or is committed (`ManagedBackend.WifiManagedBackend.Rollback`,
`Change.WifiChange.Revert`). `Rpc.WifiRpc.Tick` has the equivalence, and `Rpc.WifiRpc.Serve`
proves that such a session blocks over every further sequence of requests.

**Codecs.** `Utf8Text`, `Profile` and `ConfigDraft` cover the SSID validator, the profile
factory and the two strict draft formats; `JournalCodec` the binary journal record;
`LinkProbe` the status report, the escaped network name and the IPv4 parser; `Base64` the
decoder whose accumulator is never masked; `Framing` headers and the embedded container.

**Legacy recovery.** `LegacyGost` has the writer that pads only partial blocks, the reader
that guesses, and the two recoveries that decide by a trusted digest, over an arbitrary
invertible block cipher and an arbitrary hash.

**The security monitor.** `MonitorHistory` is a reference monitor that keeps nothing but
the history of one user; `Monitor` is the program with its queues, counters and cached
time stamps, proved to decide the same. `MonitorRuns` takes whole runs of events: on a clock
that does not go back the program's log is the reference history of the run, and in every
run, on any clock, the alerts of a group are spaced by the cooldown. A configured lock
duration of 0 selects the strike ladder (server/src/monitor.cpp:21-27); README.md:95-96 says
it disables locking, and the code is followed.

Conventions: bytes are integers below 256; fixed-width arithmetic is written out where it
can wrap. The layout texts of the drafts are any texts with the properties the proofs
need; the program's own texts are one instance (`ConfigDraft.EncoderTexts`). The hash of the
journal, the key derivation, the block cipher and the digest are parameters. The accumulator
of the base64 decoder (common/src/base64.cpp:65) is modelled with two's-complement wrap-around;
the project builds as C++17 (CMakeLists.txt:4), where that overflow of a signed shift is
undefined, so what is proved of the decoder assumes a compiler that wraps.

## Model

| member | source | states |
|---|---|---|
| Protocol.StepInv | server/src/wifi_journal.cpp:100-172 | every step of every actor - lock, clock, rename, unlink, directory fsync, process death, power loss, reboot - keeps the whole protocol invariant |
| Protocol.BeginInv | server/src/wifi_journal.cpp:126-132 | journalling a backup as Pending is safe because a resolved (or absent) record pins the file exactly |
| Protocol.InstallInv | server/src/wifi_managed_backend.cpp:90-91 | swapping the candidate in keeps the invariant because the Pending record is already durable |
| Protocol.UndoInv | server/src/netplan_files.cpp:81-88 | putting the backup back, at any time and by anyone entitled to, keeps the invariant |
| Protocol.MarkCommittedInv | server/src/wifi_journal.cpp:133-141 | recording the commit keeps the invariant because the candidate is already durable |
| Protocol.MarkRestoredInv | server/src/wifi_journal.cpp:164-172 | recording the restoration keeps the invariant because the original is already durable |
| Protocol.PowerLossInv | server/src/wifi_journal.cpp:120-123 | a power loss keeps, for each directory independently, any entry it might hold, and the invariant survives |
| Runs.ExecInv | server/src/wifi_recovery_worker.cpp:13-72 | the invariant holds after every run of steps, whatever their interleaving |
| Runs.CrashSafety | server/src/wifi_managed_backend.cpp:28-123 | in every reachable state, whichever journal and file a crash leaves, the file is the original, or the surviving journal is Pending with exactly the original as backup and the file is its candidate, or the journal is Committed and the file is exactly the candidate |
| Runs.SettledIsFinal | server/src/wifi_journal.cpp:133-141 | once a commit is durable no continuation, crashes included, restores the transaction or leaves it Pending |
| Runs.RestoredIsFinal | server/src/wifi_journal.cpp:164-172 | once a restoration is recorded the transaction is never committed afterwards and never becomes durably committed |
| Runs.UndoableIffPendingOnDisk | server/src/wifi_journal.cpp:120-124 | exact condition: a transaction not yet restored can still be restored by some continuation if and only if the disk may still hold its Pending record |
| Runs.CommitWindow | server/src/wifi_journal.cpp:120-124 | every commit can still be undone by a power loss between its rename and the directory fsync, and by nothing after the fsync: "never both Committed and Restored" holds for durable commits only |
| Runs.CommitLost | server/src/wifi_journal.cpp:120-124 | the window is real whatever the reader accepts: for every acceptable candidate a reachable run from a fresh machine up to the committing rename, and a continuation that restores the transaction although its committed record had been renamed in |
| Runs.ResolvedOnlyReplaced | server/src/wifi_journal.cpp:126-132 | over every run without a power loss a resolved record stays the visible one unless a transaction that was not yet recorded is begun, and then the visible record belongs to such a transaction |
| Runs.OnlyOwnerBeforeDue | server/src/wifi_journal.cpp:148-149 | over any run in which the owner does nothing and the transaction does not fall due, nobody changes its journal or its file |
| Machine.OneOtherMoved | server/src/wifi_managed_backend.cpp:21-27 | whatever one other actor does leaves an owner's knowledge true, and leaves everything alone while the owner holds the lock |
| Machine.Machine.Interfere | server/src/wifi_managed_backend.cpp:40-43 | any number of steps of other actors between two operations of an owner preserve what the owner relies on |
| Machine.Machine.ReadFully | server/src/wifi_journal.cpp:75-82 | the read loop fills the buffer with exactly the file or reports failure |
| Machine.Machine.WriteFully | server/src/wifi_journal.cpp:113-119 | the write loop reports success only if every byte was written |
| JournalCodec.SavedThenLoaded | server/src/wifi_journal.cpp:68-125 | every valid record survives save and load unchanged |
| JournalCodec.LoadedThenSaved | server/src/wifi_journal.cpp:68-125 | every byte string the loader accepts is exactly what saving the loaded record writes |
| JournalCodec.BigEndianInverse | server/src/wifi_journal.cpp:42-47 | reading a big-endian number that fits gives back the number written |
| JournalCodec.FromBigEndianInverse | server/src/wifi_journal.cpp:42-47 | writing the number read gives back the same bytes |
| JournalCodec.Put | server/src/wifi_journal.cpp:42-44 | the in-place loop writes the big-endian bytes at the offset and nothing else |
| JournalCodec.Get | server/src/wifi_journal.cpp:45-47 | the 64-bit accumulator reads the big-endian number without losing a bit, up to eight bytes |
| Journal.HexString | server/src/wifi_journal.cpp:22-26 | accepts exactly strings of the given length of lowercase hexadecimal digits |
| Journal.BootValid | server/src/wifi_journal.cpp:27-35 | accepts exactly boot identities: 36 characters, dashes at 8, 13, 18 and 23, lowercase digits elsewhere |
| Journal.Valid | server/src/wifi_journal.cpp:36-41 | accepts exactly valid records |
| Journal.Serialize | server/src/wifi_journal.cpp:102-108 | the buffer filled in place is exactly the encoding of the record |
| Journal.Parse | server/src/wifi_journal.cpp:83-98 | the checks and field reads on the buffer are exactly the decoding |
| Journal.WifiJournal.Load | server/src/wifi_journal.cpp:68-99 | returns exactly the record on disk; only a failing system call can refuse it |
| Journal.WifiJournal.Save | server/src/wifi_journal.cpp:100-125 | performs its effect and the directory fsync in order on success; on failure the effect happened without its fsync or not at all |
| Journal.WifiJournal.Begin | server/src/wifi_journal.cpp:126-132 | journals a new Pending record only while none is pending |
| Journal.WifiJournal.Commit | server/src/wifi_journal.cpp:133-141 | commits only the pending record of this transaction, in this boot and before the deadline; anything else leaves the world unchanged |
| Journal.WifiJournal.RecoverDue | server/src/wifi_journal.cpp:142-150 | Nothing, Waiting and Restored mean exactly what they say; an overdue pending record is always restored when system calls and callback succeed |
| Journal.WifiJournal.Cancel | server/src/wifi_journal.cpp:151-163 | undoes only the named pending transaction; a transaction that is not the pending one is left alone |
| Journal.WifiJournal.RestorePending | server/src/wifi_journal.cpp:164-172 | Restored is reported only with the original durably in the file, the resolved record durable and the backup erased |
| NetplanFiles.NetplanFiles.Canonical | server/src/netplan_files.cpp:17-21 | in the YAML mode accepts exactly what the strict reader accepts, in the supplicant mode exactly the printed supplicant configurations |
| NetplanFiles.NetplanFiles.Backup | server/src/netplan_files.cpp:41-60 | returns exactly the visible file, and only if it is canonical |
| NetplanFiles.NetplanFiles.Replace | server/src/netplan_files.cpp:61-80 | atomic replacement: the rename and its fsync in order, or the rename without the fsync, or nothing |
| NetplanFiles.NetplanFiles.Restore | server/src/netplan_files.cpp:81-88 | the backup of the pending record is durably back, by replacement or by removal, and the canonical check can never stop it |
| NetplanFiles.ManagedRestore.Run | server/src/wifi_recovery_worker.cpp:7-11 | the restoring callback succeeds only with the original durably in place and the network reconfigured |
| RecoveryWorker.ManagedRecoveryTick | server/src/wifi_recovery_worker.cpp:13-28 | one supervisor tick in another boot or at/after the deadline, with nothing failing, ends with the original file, the Restored record and the erased backup; a transaction that is not due when the clock is read is left alone, its record, its file and the network; Waiting and Nothing are reported truthfully |
| RecoveryWorker.ManagedCancel | server/src/wifi_recovery_worker.cpp:29-39 | cancelling affects only the caller's own pending transaction, and fails while somebody holds the journal lock; Nothing and RestoredNow both mean that the record of this transaction is the restored one; with nothing failing both are reported whenever they are due |
| RecoveryWorker.RestoredIsBack | server/src/wifi_journal.cpp:164-172 | in every reachable state a visible Restored record means that the file is, durably, the original of its transaction |
| RecoveryWorker.ManagedCommit | server/src/wifi_recovery_worker.cpp:40-71 | success means: this transaction was pending, all four live checks passed under the lock, the committed record is durable and the file is exactly the candidate |
| RecoveryWorker.ConfirmUnderLock | server/src/wifi_recovery_worker.cpp:47-70 | the commit record appears only if the clock, read after all four live checks had passed under this lock, was before the deadline in the same boot; the file equals the target's draft before and is never touched |
| RecoveryWorker.CommitSettles | server/src/wifi_journal.cpp:133-141 | a completed commit leaves only the candidate in the file, whatever survives |
| RecoveryWorker.ConfirmedThenLost | server/src/wifi_recovery_worker.cpp:47-70 | the same under the strict reader of the program, with the draft of any valid profile installed: a confirmed change whose committed record is in place is undone after a power loss |
| ManagedBackend.SoundForOthers | server/src/wifi_managed_backend.cpp:21-27 | the owner's flags stay true whatever other actors do |
| ManagedBackend.SoundBegun | server/src/wifi_managed_backend.cpp:70-72 | a completed or half-completed journal entry keeps the owner's flags true |
| ManagedBackend.SoundInstalled | server/src/wifi_managed_backend.cpp:91-96 | a completed or half-completed swap keeps the owner's flags true |
| ManagedBackend.MayInstall | server/src/wifi_managed_backend.cpp:84-91 | an owner that has prepared and still sees its own pending record and the untouched file may swap |
| ManagedBackend.WifiManagedBackend.constructor | server/src/wifi_managed_backend.cpp:14-17 | a new owner starts with no transaction, no target and no flag set |
| ManagedBackend.WifiManagedBackend.Prepare | server/src/wifi_managed_backend.cpp:28-78 | never touches the file; on success the own Pending record is durable with the present file as backup, a deadline at most 90 s ahead, and the target is the requested profile under the installed DHCPv6 policy; while any transaction is pending nothing on disk changes; with nothing failing and no transaction pending it succeeds unless the generator refuses or the time runs out |
| ManagedBackend.WifiManagedBackend.Activate | server/src/wifi_managed_backend.cpp:79-99 | on success the candidate is durably in the file and the transaction still pending; the four checks answered yes in order; unless the own transaction is the pending one nothing on disk changes; with nothing failing and the file untouched it succeeds unless the time runs out |
| ManagedBackend.WifiManagedBackend.Probe | server/src/wifi_managed_backend.cpp:100-103 | Ready only after activation and only if the platform said so for this target |
| ManagedBackend.WifiManagedBackend.Commit | server/src/wifi_managed_backend.cpp:104-113 | on success the transaction is durably committed with its candidate in the file and the four live checks answered yes; unless the own transaction is pending nothing changes; with nothing failing it succeeds unless the time runs out |
| ManagedBackend.WifiManagedBackend.Rollback | server/src/wifi_managed_backend.cpp:114-123 | success means never begun, or this transaction's Restored record visible with the original durably in the file; unless the own transaction is pending nothing on disk changes; with nothing failing it succeeds exactly if nothing was committed and either nothing is left to undo or the lock is free and the own record is pending or restored already |
| Change.FlagsAgree | common/src/wifi_change.cpp:12-17 | committed and restored flags cannot contradict the durable history |
| Change.WifiChange.Start | common/src/wifi_change.cpp:18-41 | success leaves exactly the requested profile durably in the file with its transaction pending, under the DHCPv6 policy of the file found when the lock was taken; exactly nine checks answered yes, in order; the change stays Idle, with nothing changed, exactly if the generator, the profile or the Ethernet check refused; otherwise a failure ends needing recovery, or rolled back with the original durably in the file |
| Change.WifiChange.Tick | common/src/wifi_change.cpp:42-50 | an expired deadline, a lost Ethernet or a failed link reverts, RolledBack only with the original durably back; otherwise the change stays pending before its deadline, awaiting confirmation exactly when the link was reported ready |
| Change.WifiChange.Confirm | common/src/wifi_change.cpp:51-60 | Committed only from a pending change, with the ticket, before the deadline, and only if the transaction is durably committed with the candidate in the file; a change that still awaits confirmation afterwards was offered another ticket |
| Change.WifiChange.Cancel | common/src/wifi_change.cpp:61-61 | a pending change ends RolledBack, with this transaction's Restored record visible and the original durably in the file or nothing ever begun, or RecoveryRequired; which of the two is decided, with nothing failing, by the lock and the record it finds |
| Change.WifiChange.Revert | common/src/wifi_change.cpp:12-17 | RolledBack is claimed only if this transaction's Restored record is the visible one and the file is durably its original, never committed, or if no transaction was ever begun; so never while the record or the file is another owner's; with nothing failing it ends RolledBack exactly if it finds the lock free and its own record pending or restored already, or never began |
| Session.WifiSession.Start | common/src/wifi_session.cpp:9-21 | the ticket handed out is the 64 digits retained; a second start is refused and leaves the world as it was; the session stays Idle exactly if the generator, the profile or the Ethernet check refused |
| Session.WifiSession.Status | common/src/wifi_session.cpp:22-26 | answers exactly the holder of the ticket, truthfully with respect to the durable history; a change that this call rolls back has its original durably in the file |
| Session.WifiSession.Confirm | common/src/wifi_session.cpp:27-33 | confirming again after success succeeds without touching anything; success always means Committed |
| Session.WifiSession.Cancel | common/src/wifi_session.cpp:34-38 | a session that is over stays as it ended |
| Packets.Split | common/src/wifi_rpc.cpp:23-30 | the splitting loop returns the only bar-free fields that join to the packet |
| Packets.JoinInjective | common/src/wifi_rpc.cpp:23-30 | different field lists make different packets |
| Packets.IsHexField | common/src/wifi_rpc.cpp:5-9 | accepts exactly even-length lowercase hexadecimal within the length limits |
| Packets.ReadHex | common/src/wifi_rpc.cpp:33-36 | the decoding loop yields exactly the bytes |
| Packets.StartPacketMeaning | admin/src/admin_window.cpp:200-206 | the packet the administration client prints is accepted, has exactly three fields, and decodes to the same SSID and key |
| Rpc.RenderInjective | common/src/wifi_rpc.cpp:10-19 | a caller can tell from the text which reply was given |
| Rpc.WifiRpc.Handle | common/src/wifi_rpc.cpp:21-53 | oversized packets and packets with NUL get error without effect; an unfinished session is never replaced; a start packet printed from a profile puts exactly that profile in the file; any ticket but the non-empty one of the current session gets only error; a blocked session stays, and nothing is opened |
| Rpc.WifiRpc.Open | common/src/wifi_rpc.cpp:31-46 | rejected without effect exactly while a session is unfinished or for an unusable request (or, the old session gone, when there is no new owner); the reply carries the new ticket and the session is the new one; the new session stays Idle exactly if the generator or the Ethernet check refused; recovery_required stands for a start that was refused, was rolled back, or needs recovery |
| Rpc.WifiRpc.Replace | common/src/wifi_rpc.cpp:40-46 | recovery_required is answered exactly if the new session is still Idle, was rolled back, or needs recovery; rejected exactly if there is no new owner; otherwise the ticket is handed out with the requested profile in the file |
| Rpc.WifiRpc.Query | common/src/wifi_rpc.cpp:47-53 | only the current ticket gets an answer, and the ticket stays; committed is newly answered only to confirm and only with the durable commit in place; rolled_back is newly answered only with the original durably in the file or nothing ever begun |
| Rpc.WifiRpc.Tick | common/src/wifi_rpc.cpp:55-55 | a session that is over stays as it ended and no expired change is left pending; at or past the deadline the handler is busy exactly if its session is refused-before-begun or in RecoveryRequired, and such a session stays blocked |
| Rpc.WifiRpc.Serve | server/src/wifi_change_helper.cpp:28-37 | every Committed or RolledBack answer, over any sequence of requests and whatever others do, has its own entry on record, in order, and that entry is true of the final world; a blocked session makes every further request end in error, busy or recovery_required, for ever |
| Rpc.NeverBoth | common/src/wifi_rpc.cpp:47-53 | no transaction is ever reported both committed and rolled back |
| Utf8Text.ValidTextSsid | common/src/wifi_profile.cpp:7-31 | accepts exactly the concatenations of shortest-form UTF-8 encodings of permitted scalar values |
| Utf8Text.DecodeReencodes | common/src/wifi_profile.cpp:8-28 | the scalars decoded from an accepted text re-encode to the same bytes |
| Utf8Text.EncodeDecodes | common/src/wifi_profile.cpp:8-28 | every text of permitted scalars is accepted and decodes to them |
| Utf8Text.TextIffDecodable | common/src/wifi_profile.cpp:7-31 | being text and being accepted character by character are the same |
| Utf8Text.TextIsUnambiguous | common/src/wifi_profile.cpp:7-31 | a text has only one decoding |
| Profile.Make | common/src/wifi_profile.cpp:32-59 | the profile made is the specified one, or none, for every SSID and password |
| Profile.AcceptablePassword | common/src/wifi_profile.cpp:43-48 | accepts exactly 64 hexadecimal digits or 8 to 63 printable ASCII characters |
| Profile.MadeAgain | common/src/wifi_profile.cpp:49-58 | SSID and key of a profile, written in hexadecimal, make the same profile again |
| ConfigDraft.YamlRoundTrip | common/src/wifi_config_draft.cpp:43-116 | read(make(p)) = p for every valid profile and each DHCPv6 setting |
| ConfigDraft.YamlExact | common/src/wifi_config_draft.cpp:70-116 | make(read(s)) = s for every accepted s: the accepted language is exactly the printer's image |
| ConfigDraft.YamlSize | common/src/wifi_config_draft.cpp:76-76 | every printed draft fits the 4096-byte limit |
| ConfigDraft.YamlInjective | common/src/wifi_config_draft.cpp:43-69 | different profiles print different drafts |
| ConfigDraft.SupplicantRoundTrip | common/src/wifi_config_draft.cpp:64-67 | the supplicant format round-trips up to the forgotten DHCPv6 setting |
| ConfigDraft.SupplicantExact | common/src/wifi_config_draft.cpp:117-144 | the supplicant reader accepts exactly printed supplicant configurations |
| ConfigDraft.FormatsDisjoint | common/src/wifi_config_draft.cpp:70-144 | neither reader accepts the other printer's output |
| ConfigDraft.WithPsk | common/src/wifi_config_draft.cpp:26-36 | the buffer is prefix, key digits and suffix in place |
| ConfigDraft.QuoteSsid | common/src/wifi_config_draft.cpp:53-61 | the quoting loop escapes exactly backslash and quote and rejects exactly non-hexadecimal input |
| ConfigDraft.MakeWifiConfigDraft | common/src/wifi_config_draft.cpp:43-69 | fails exactly for consumed or malformed profiles and otherwise prints both formats |
| ConfigDraft.ScanSsid | common/src/wifi_config_draft.cpp:89-104 | the scanning loop finds the SSID and what follows it, or fails, exactly as specified |
| ConfigDraft.ReadWifiConfigDraft | common/src/wifi_config_draft.cpp:70-116 | the imperative reader is the strict reader, for every input and every key derivation |
| ConfigDraft.ReadWifiSupplicantDraft | common/src/wifi_config_draft.cpp:117-144 | the imperative supplicant reader is the strict supplicant reader |
| LegacyGost.CbcInverse | common/src/gost_native.cpp:92-94 | CBC decryption inverts CBC encryption for any invertible block cipher and IV |
| LegacyGost.EncryptFile | gost.c:134-163 | the in-place streaming loop writes the IV and the CBC encryption of the plaintext with only a partial last block padded |
| LegacyGost.DecryptFile | decr.c:111-198 | the streaming decryptor with one-block look-ahead equals decrypting everything and then perhaps stripping the last block; it succeeds exactly on whole blocks |
| LegacyGost.Keep | decr.c:163-196 | the guessing code keeps exactly what stripping the last block would |
| LegacyGost.GuessIsRight | gost.c:134-140 | padding then guessing is the identity exactly when the plaintext is empty, is not a whole number of blocks, or does not end in k bytes of value k |
| LegacyGost.FileRoundTrip | decr.c:160-198 | exactly which plaintexts gost.c and decr.c together preserve |
| LegacyGost.LostByte | decr.c:160-198 | a concrete plaintext that the two programs do not preserve: fifteen zero bytes and a one come back without the one |
| LegacyGost.Recovery | common/src/gost_native.cpp:79-110 | recovering what the writer wrote, with the plaintext's digest, always succeeds with data of that digest, and returns the plaintext itself exactly when the hash does not confuse it with its padded form |
| LegacyGost.RecoverLegacy | common/src/gost_native.cpp:79-110 | the native code returns the first candidate length with the digest, or nothing |
| LegacyGost.RecoverWithTool | server/tools/recover_legacy_gost.py:18-63 | the tool returns the length of the only candidate with the digest and publishes exactly those bytes, or refuses; an output that exists is never replaced, and one appears only with the trusted digest |
| LegacyGost.ToolAgrees | server/tools/recover_legacy_gost.py:40-50 | whatever the tool returns the native code returns; it returns more exactly on a collision of both candidates |
| Monitor.Evict | server/src/monitor.cpp:165-168 | the pop-front loop leaves exactly the window of an ordered queue |
| Monitor.Refreshed | server/src/monitor.cpp:164-168 | pushing the events of one moment and evicting equals filtering the whole history by the window |
| Monitor.Sum | server/src/monitor.cpp:264-267 | the volume total equals the sum over the window modulo 2^64 |
| Monitor.SecurityMonitor.RecordLoginFailure | server/src/monitor.cpp:159-189 | under an ordered clock decides and records exactly what the history-based monitor decides; the log equals the reference history of all the user's events as long as the clock has not gone back; other users are untouched, locks never shorten, an alert leaves the user locked |
| Monitor.SecurityMonitor.RecordLoginSuccess | server/src/monitor.cpp:114-157 | decides exactly what the history-based monitor decides, on any clock; the log equals the reference history of all the user's events as long as the clock has not gone back; clears the failure window; locks never shorten |
| Monitor.SecurityMonitor.RecordFileOp | server/src/monitor.cpp:191-321 | under an ordered clock all four tests decide exactly what the history-based monitor decides, in order; the log equals the reference history of all the user's events as long as the clock has not gone back; locks never shorten, an alert leaves the user locked |
| Monitor.SecurityMonitor.AlertsSpaced | server/src/monitor.cpp:114-348 | in any state the program can be in, any two alerts of one group recorded for a user are more than a non-negative cooldown apart |
| Monitor.SecurityMonitor.Test | server/src/monitor.cpp:170-187 | an alert is raised exactly when the limit is reached and the group's cooldown is over, with the strike and the lock of the history |
| Monitor.SecurityMonitor.ChooseLockDuration | server/src/monitor.cpp:21-27 | the lock lasts a positive time and ends when the verdict of the reference monitor says, whatever the clock; the strike level kept is the one counted over the whole history; nothing else of the record changes |
| Monitor.SecurityMonitor.IsLocked | server/src/monitor.cpp:323-335 | locked exactly while the latest lock imposed since the last unlocking has not ended |
| Monitor.SecurityMonitor.UnlockUser | server/src/monitor.cpp:337-348 | clears the lock and the strikes of a known user and nothing else |
| Monitor.HourCountersSum | server/src/monitor.cpp:128-132 | the hour counters sum to the login total, up to 32-bit wrap-around |
| MonitorHistory.Strikes | server/src/monitor.cpp:21-27 | the strike level stays at most 1000 |
| MonitorHistory.Ladder | server/src/monitor.cpp:12-19 | every rung is at least a minute |
| MonitorHistory.AlertsApart | server/src/monitor.cpp:170-172 | in a legitimate history any two alerts of one group are more than a non-negative cooldown apart, decrypt_burst and behavior_deviation counting as one group |
| MonitorHistory.LocksHonoured | server/src/monitor.cpp:180-180 | until somebody unlocks the user, every lock ever imposed is still in force |
| MonitorHistory.LockGrows | server/src/monitor.cpp:180-180 | only unlocking shortens a lock, over any further history |
| MonitorHistory.AfterFileOpLegitimate | server/src/monitor.cpp:208-318 | after a legitimate history every alert of a file operation respects its cooldown and locks beyond its own time; the step of the theorem about runs |
| MonitorRuns.EveryRunLegitimate | server/src/monitor.cpp:114-348 | in every run of logins, failures, file operations and unlockings, on any clock, every alert respects its cooldown and locks the user beyond its own time |
| MonitorRuns.EveryRunApart | server/src/monitor.cpp:170-172 | in every run any two alerts of one group are more than a non-negative cooldown apart |
| MonitorRuns.ClockOrders | server/src/monitor.cpp:164-168 | on a clock that does not go back all four event windows of every run are in order, which is what the sliding queues rely on |
| MonitorHistory.HoursAccount | server/src/monitor.cpp:128-132 | the hours of the day account for every login |
| Base64.Encode | common/src/base64.cpp:8-39 | the encoder writes the encoding of section 4 of RFC 4648 |
| Base64.Decode | common/src/base64.cpp:50-76 | the decoder with its unmasked 32-bit accumulator yields exactly the bytes of the sextets spelt, and ok exactly for clean text |
| Base64.EncodingMeans | common/src/base64.cpp:8-76 | decode(encode(x)) = x with ok for every byte string |
| Base64.WrapHarmless | common/src/base64.cpp:65-69 | the overflow of the accumulator never reaches a byte taken from it: each equals what an unbounded accumulator gives |
| Base64.SkippedMeansNothing | common/src/base64.cpp:57-59 | inserting blanks, line breaks or padding anywhere changes neither meaning nor cleanness |
| Base64.UnpackPack | common/src/base64.cpp:13-36 | regrouping by six bits and back is the identity |
| Framing.TrimBlanks | common/src/protocol.cpp:26-31 | removes exactly the blanks at both ends |
| Framing.Parse | common/src/protocol.cpp:33-49 | the line loop is the specified parser |
| Framing.Serialize | common/src/protocol.cpp:17-24 | prints every field once, in whatever order the map iterates |
| Framing.ReadHeader | common/src/protocol.cpp:51-81 | succeeds exactly when an empty line ends within the limit, consuming nothing beyond it |
| Framing.ParseText | common/src/protocol.cpp:17-49 | parse(serialize(h)) = h for every plain header and every field order, whatever follows |
| Framing.Received | common/src/protocol.cpp:51-81 | a header with a field, followed by any payload, is received exactly and exactly the header is consumed |
| Framing.EmptyHeaderNotReceived | common/src/protocol.cpp:65-69 | a header without fields is not: the reader runs on into the payload |
| Framing.WriteEmbedded | client/src/client_core.cpp:48-92 | the file is the magic, the header in some order and the ciphertext; refused exactly for a missing client key |
| Framing.ReadEmbedded | client/src/client_core.cpp:94-133 | foreign, damaged and proper containers are told apart exactly, and split at the first empty line |
| Framing.ContainerReadBack | client/src/client_core.cpp:110-132 | a container is split at the right byte even if the ciphertext contains empty lines |
| Framing.ContainerRecognised | client/src/client_core.cpp:104-119 | a written container is never taken for a foreign or damaged file |
| Framing.WrittenThenRead | client/src/client_core.cpp:48-133 | what was written is read back: cipher, hash and key storage as they were, IV, tag and key after base64, the ciphertext untouched |
| LinkProbe.SsidHex | common/src/wifi_link_probe.cpp:13-40 | accepts exactly names of 1 to 32 bytes in the escaped notation and yields their hexadecimal form |
| LinkProbe.PrintedThenUnescaped | common/src/wifi_link_probe.cpp:16-38 | unescaping inverts the escaping of every name |
| LinkProbe.ReadPart | common/src/wifi_link_probe.cpp:44-50 | reads exactly a canonical decimal number below 256, or there is none |
| LinkProbe.UsableIpv4 | common/src/wifi_link_probe.cpp:41-55 | accepts exactly canonical dotted quads outside 0/8, 127/8, 169.254/16 and 224 and above |
| LinkProbe.ReadStatus | common/src/wifi_link_probe.cpp:64-78 | the line loop terminates because what remains is empty or newline-terminated, and collects exactly the fields |
| LinkProbe.AssessWifiLink | common/src/wifi_link_probe.cpp:57-93 | Ready if and only if the report is well formed and state, identity, ciphers and an address on the interface all agree; Pending if and only if the connection is under way |

## Left out

- Sockets, TLS, peer credentials, file ownership and permission bits, symbolic and hard links: an operation that such a check refuses is one that fails without effect.
- Interrupted system calls that are simply retried, and the naming of temporary files.
- Exceptions inside the owner and the callbacks: they count as the failure the code turns them into.
- Processes outside the program that write into the two directories: the managed file may start out in any form, but a journal is only ever written by the modelled code.
- SHA-256, PBKDF2, Kuznechik, MGM and the digest algorithms: parameters, with invertibility of the block cipher as the only law.
- The GOST-MGM frame of common/src/gost_native.cpp:35-78: one authenticated call around a fixed header.
- Random numbers: any bytes may be drawn; an identity that was drawn before counts as a refusal by the generator.
- The factory of the request handler may refuse; otherwise it hands out an owner that has not acted yet.
- The supplicant mode of the managed files: its reader and the canonical check are modelled, not its use at run time.
- The supervisor's process and socket exchange: any actor may tick at any time.
- Null pointers passed for results, error and status message texts, and the wiping of secrets from memory.
- The mutex of a session and of the monitor: calls on one object do not overlap.
- Header.get, name tables of ciphers and hashes, the extraction of metadata from headers and the rest of client/src/client_core.cpp.
- The monitor's loading, saving and dumping of statistics, and the conversion of a time stamp to the local hour, which is a parameter.
- Floating point in the monitor is real arithmetic; its time stamps are unbounded integers.
- User interfaces, configuration loading, deployment scripts and server request handlers.
- The recovery tool's decoder process and file system: whether the process runs, the link appears and the staged file is cleaned away are parameters.
- ReadHeader: does not model a read that fails before the stream is exhausted, because it ends like an exhausted stream.
- ReadEmbedded: does not model failure to read the file, because it only adds an error return.
