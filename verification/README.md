# Bastion firmware: verified model

The firmware turns an ESP32 into an SSH bastion: it keeps a WireGuard tunnel up, serves a small recovery
console and a relay to one PC over SSH, updates itself over an A/B pair of flash slots, and is set up through a
captive portal. This project models the parts where state, interleaving or arithmetic decide whether the
promises hold, and proves those promises for every input, every run and every interleaving.

| file | what it models |
|---|---|
| `Common.dfy` | bytes, options, wrapping 32-bit arithmetic |
| `SessionPool.dfy`, `PoolRuns.dfy`, `PoolSessions.dfy` | four session slots as a step system, one step per atomic load or store; two concrete runs; what becomes of single sessions |
| `Signer.dfy`, `OtaSink.dfy` | the signed image layout and the streaming receiver with its held-back tail |
| `OtaSlots.dfy`, `OtaRuns.dfy`, `OtaProbation.dfy` | the two flash slots, the writer token, self-test, rollback and reboots over whole runs; which events write a slot; a new image from its first byte to its confirmation or rollback |
| `Versions.dfy`, `OtaUpdate.dfy` | release versions, downloads, the release check and the installs it drives |
| `VpnFailover.dfy`, `VpnPolicy.dfy` | the VPN task: two profiles, a failure counter, a grace period, a one-slot mailbox; what it does for what happens to it |
| `EventJournal.dfy` | the 256-line ring and readers that drop its lock between lines |
| `CText.dfy`, `Ipv4.dfy`, `WgConf.dfy`, `WgLines.dfy`, `WgAccepted.dfy`, `WgLayout.dfy` | the wg-quick parser, its IPv4 arithmetic, its lines by their characters, what it accepts, and its round trip |
| `Relay.dfy`, `LineEditor.dfy`, `Dispatch.dfy` | the byte relay, the line editor, the command lookup |
| `SshWire.dfy`, `ErrorList.dfy`, `Portal.dfy` | SSH wire fields, the portal's error buffer, the configuration transaction |

Concurrent and timed parts are state machines: a datatype of events, a total step function with the branches of
the code, and runs over all event sequences. Code that updates objects in place is a class whose methods are
proved equal to a function on its contents; the promises are then lemmas about that function. The outside world
(sockets, flash, clocks, cryptography, Wi-Fi, ESP-IDF) answers through parameters that range over everything it
could answer. SHA-256 and Ed25519 (section 5.1 of RFC 8032) are arbitrary functions of which only one thing is
used: a signature made by the release tool is 64 bytes long and verifies.

## What the code does not keep

- A fresh session can start with its leave flag already raised, because the eviction store can land after the
  victim's teardown (`StaleEviction`). It does exactly if a selection that has the slot in hand when the flag is
  cleared goes on to store into it (`StaleExactlyWhenSelectionStores`); clearing the flag under the mutex would be
  enough (`TeardownUnderMutexSuffices`).
- Two newcomers cannot pick the same victim (`VictimIsNew`), but they can pick each other
  (`NewcomersCanEvictEachOther`). A waiting newcomer is picked exactly if it was accepted before all others that stay,
  ties going to the lower slot, and two newcomers pick each other exactly if each was accepted before both settled
  sessions (`PickedExactlyWhenFirst`, `NewcomersPickEachOtherExactlyWhen`).
- The documentation says that a rejected image leaves the other slot untouched
  (docs/recovery-access-architecture.md:414-415). Whatever the rejection, that holds exactly for files of at most 96
  bytes and files that do not start with the image magic (`RejectedImageIsHarmlessExactlyWhen`): a signed file that
  carries another release than its tag is refused, but its image stays in the slot (`OtherReleaseStaysInSlot`). The
  running slot is never written.
- The slot selected for the next boot need not stay verified: after an install the token is given back before the
  reboot, and the first write of another update destroys the image (`SelectedSlotCanBeOverwritten`; exact condition in
  `SelectedStaysVerifiedExactlyWhen`).
- The lower bound on the time to fail over needs that no counted failed check is stamped 0, since 0 also means "no
  check yet" (`ZeroStampBreaksTheBound`; exact condition for one check in `EarlyCheckExactlyAfterZeroStamp`).
- Journal readers stop early around every 2^32nd line (`FollowerStallsAtTheWrap`; exact condition in
  `ReadersGoOnExactlyOffTheWrap`).
- The aliases `?`, `quit` and `logout` hand the handler a pointer computed from two different strings; on every
  other line the arguments are the rest of that line (`ExecuteCommand`, `AliasesGoAstray`).
- An error response of the portal leaves the settings in memory alone only if it is a rejection: when the write to
  flash fails, the new settings stay in memory (`ErrorsLeaveMemoryAloneWhen`, `FailedSaveStaysInMemory`).

## Model

| member | source | states |
|---|---|---|
| Common.Sub32IsElapsed | src/recovery_vpn.cpp:368 | Wrapping subtraction of two stored times is the true elapsed time for anything under 2^32 ms. |
| Common.Earlier32Exact | src/recovery_ssh.cpp:1855-1857 | The signed wrapped difference orders two times correctly, both ways, exactly when they are less than 2^31 ms apart. |
| Common.Earlier32Cycles | src/recovery_ssh.cpp:1855-1857 | Beyond that window the comparison is not an order: three accept times each precede the next, in a circle. |
| SessionPool.RunKeepsInv | src/recovery_ssh.cpp:1824-1904 | The pool invariant (mutex, slot ownership, what the holder of the mutex has learned from its scans) survives every interleaving of atomic steps. |
| SessionPool.FourStayingMeansOnePending | src/recovery_ssh.cpp:1837-1868 | If all four slots hold authenticated sessions not told to leave, one of them has not finished its eviction section. |
| SessionPool.AtMostThreeStay | src/recovery_ssh.cpp:1837-1868 | Once every authenticated session has passed its eviction section, at most three are not told to leave, despite the non-atomic count and the unlocked teardown. |
| SessionPool.OnlyOthersEvict | src/recovery_ssh.cpp:1847-1868 | A leave flag goes up only by the store of another, authenticated session that holds the mutex. |
| SessionPool.VictimIsOldest | src/recovery_ssh.cpp:1849-1862 | With accept times inside a 2^31 ms window during the selection, the victim was accepted before every other session that stays from its start to the store, settled or still waiting for the mutex, or at the same time in a lower slot, although the scan is not atomic. |
| SessionPool.PickedExactlyWhenFirst | src/recovery_ssh.cpp:1844-1862 | In a selection during which nobody joins and the victim does not leave, a session that stays, a waiting newcomer included, is the victim if and only if it was accepted before all the others that stay. |
| SessionPool.NewcomersPickEachOtherExactlyWhen | src/recovery_ssh.cpp:1844-1866 | Two newcomers that select one after the other, the others staying, pick each other if and only if each was accepted before both other sessions. |
| SessionPool.VictimIsNew | src/recovery_ssh.cpp:1845-1862 | A session told to leave is not picked again while its flag is up, so two newcomers never pick the same victim. |
| SessionPool.CleanTeardownStartsFresh | src/recovery_ssh.cpp:1884-1887 | If, whenever a slot's session clears its leave flag, no selection has that slot as candidate or next to compare, every next session in it starts un-evicted. |
| SessionPool.StoreAtTeardownIsStale | src/recovery_ssh.cpp:1860-1887 | If a selection is at the point of storing into the slot at that moment, the next session in it always starts with the flag up. |
| SessionPool.StaleExactlyWhenSelectionStores | src/recovery_ssh.cpp:1860-1887 | The session that follows a teardown starts with the flag up if and only if a selection that had the slot in hand when the flag was cleared goes on to store into it. |
| SessionPool.TeardownUnderMutexSuffices | src/recovery_ssh.cpp:1884-1887 | Were the flag cleared under the pool mutex, no session would start with a stale flag. |
| PoolRuns.StaleEviction | src/recovery_ssh.cpp:1860-1862 | A reachable state in which a session is just starting with its leave flag up. |
| PoolRuns.NewcomersCanEvictEachOther | src/recovery_ssh.cpp:1844-1846 | A run in which two slow newcomers, accepted before two sessions that have settled meanwhile, tell each other to leave, up to the second store, after which both are flagged. |
| PoolSessions.OnlyLoginsAuthenticate | src/recovery_ssh.cpp:1829-1838 | In every run a slot comes to be occupied only by a task that could be started, and authenticated only by its own successful login. |
| PoolSessions.FailedLoginEvictsNobody | src/recovery_ssh.cpp:118-120 | Whatever the others do, a login that fails goes through the three steps of its teardown to an idle slot: until another session starts there it is never authenticated, never holds the mutex, and none of its steps raises a leave flag. |
| PoolSessions.EvictionsFindFourSessions | src/recovery_ssh.cpp:1844-1848 | Nobody is told to leave below capacity: at an eviction each of the four slots has held an authenticated session at some moment since the newcomer waited for the mutex, although the count is not atomic. |
| PoolSessions.NewcomerIsServed | src/recovery_ssh.cpp:113-118 | From every reachable state with the mutex free, a newcomer's own steps alone take it from a good login to serving its client; the only other change is that the oldest of the others that stay is told to leave, exactly if all four slots are taken by authenticated sessions. |
| PoolSessions.FreeSlotIsGiven | src/recovery_ssh.cpp:1892-2008 | A connection gets the first free slot, stamped with its time, or frees it again if its task cannot be started; with all slots busy it is turned away and nothing has changed. |
| Signer.SplitIsUnique | scripts/ota_sign.py:124-126 | A file splits into image, 32-byte field and 64-byte signature in exactly one way. |
| Signer.VerifyAfterSign | scripts/ota_sign.py:103-130 | What the tool signs, the tool verifies, reading back the same image and version. |
| Signer.SignsExactlyWhen | scripts/ota_sign.py:103-114 | The tool signs exactly application images under versions of at most 31 bytes. |
| Signer.VerifiesExactlyWhen | scripts/ota_sign.py:119-130 | A file verifies exactly if it is a non-empty image with a field and a good signature of their digest. |
| OtaSink.Sink.constructor | src/ota_update.cpp:152-166 | A new sink owns nothing, is inactive and expects no version. |
| OtaSink.Sink.Begin | src/ota_update.cpp:202-245 | A begin fails at the first obstacle it meets and starts if there is none; the token is taken on every exit after the first two, and a started sink is empty. |
| OtaSink.Sink.Destroy | src/ota_update.cpp:194-200 | The token goes back exactly if this sink held it. |
| OtaSink.Sink.ExpectVersion | src/ota_update.cpp:247-250 | At most 32 bytes of the expected version are kept. |
| OtaSink.Sink.CommitImageBytes | src/ota_update.cpp:168-189 | Bytes are appended to flash and to the hash input alike; the first byte ever must be the image magic. |
| OtaSink.Sink.Displace | src/ota_update.cpp:270-275 | The oldest held-back bytes are committed and the others move to the front. |
| OtaSink.Sink.Feed | src/ota_update.cpp:252-290 | Flash followed by the tail is everything fed so far, the tail is its last min(96, total) bytes, the hash input is the flashed bytes; failure means a flash fault or a bad first byte, and flash is still a prefix of the stream. |
| OtaSink.Sink.FeedAll | src/ota_update.cpp:488-521 | The same for the whole receive loop. |
| OtaSink.Sink.ReadVersion | src/ota_update.cpp:307-314 | The version text ends before the first unprintable byte. |
| OtaSink.Sink.Finish | src/ota_update.cpp:292-363 | The verdict is a function of the received stream and the expected version alone, and the sink is closed whatever it is. |
| OtaSink.ChunkingIsIrrelevant | src/ota_update.cpp:252-290 | Any chunking of a stream leads to the same flash contents and tail. |
| OtaSink.PrintableIsWhole | src/ota_update.cpp:309-314 | The board reads a version in full exactly when it is printable. |
| OtaSink.SignedFileIsInstalled | src/ota_update.cpp:292-363 | A signed file in any chunking is installed if and only if the image has 64 KiB and no other release was expected; flash then holds exactly the image. |
| OtaSink.VerdictNamesTheFirstFailure | src/ota_update.cpp:297-363 | On any stream with a trailer, in any chunking, the verdict names the first check that fails, and an install needs them all: 64 KiB, the signature, the expected release, ESP-IDF's image check and its boot selection. |
| OtaSink.ShortStreamsAreTooShort | src/ota_update.cpp:297-303 | A stream without a trailer is too short. |
| OtaSink.InstalledIsVerified | src/ota_update.cpp:297-340 | Whatever is installed splits uniquely into image, field and signature, and the release tool verifies it with the same image and version. |
| OtaSlots.StepKeepsInv | src/ota_update.cpp:194-245 | Every call, rollback, self-test step and reboot keeps the slot invariant, and leaves the running slot alone unless it restarts the device. |
| OtaSlots.OneWriter | src/ota_update.cpp:212-217 | At most one receiver holds the writer token, and nobody else is active. |
| OtaSlots.RunningSlotIsNeverWritten | src/ota_update.cpp:218-235 | In every reachable state no event changes the contents of the running slot. |
| OtaSlots.FallbackIsIntact | src/ota_update.cpp:204-211 | While the running image is unconfirmed the other slot holds, byte for byte, the image that ran before, and nobody writes. |
| OtaSlots.BeforeIsThePreviousImage | src/ota_update.cpp:605-641 | The image "before" is the one that was running at the last restart, and only a restart changes it. |
| OtaRuns.OnlyReceiversWrite | src/ota_update.cpp:168-189 | In every reachable state, for every event: a slot's content changes only by a chunk that an opened receiver commits, which holds the token and never works on the running slot; a certificate comes only from an install of exactly that content. |
| OtaRuns.OnlyFirstWriteRevokes | src/ota_update.cpp:225-283 | A verified install stays byte for byte what was verified and signed, through reboots and begins, until and only until a receiver's first write to its slot. |
| OtaRuns.SelectedStaysVerifiedExactlyWhen | src/ota_update.cpp:575-598 | From any reachable state whose selected slot is verified, the next event keeps that if and only if it neither writes to the slot nor picks an unverified one. |
| OtaRuns.SelectedSlotCanBeOverwritten | src/ota_update.cpp:478-533 | For every signed image and any other stream that starts like one: after the install a second reception leaves its own bytes in the slot still selected for the next boot. |
| OtaRuns.FeedingLeaves | src/ota_update.cpp:252-290 | What feeding any stream in any chunking leaves in the other slot, from every state in which a begin succeeds, whether or not a release is expected; what runs and what is selected stay as they are. |
| OtaRuns.ReceptionLeaves | src/ota_update.cpp:202-363 | What a whole reception leaves and selects, for every expected release or none, accepted or not. |
| OtaRuns.RejectedImageIsHarmlessExactlyWhen | src/ota_update.cpp:168-189 | A file rejected for whatever reason, another release than the expected one included, leaves the other slot as it was, whatever that held, if and only if it has at most 96 bytes or does not start with the image magic. |
| OtaRuns.OtherReleaseStaysInSlot | src/ota_update.cpp:331-339 | A signed file that carries another release than the expected one is never selected, but in any chunking its image replaces what the other slot held. |
| OtaProbation.SelfTestDecides | src/ota_update.cpp:605-641 | In every reachable state: a healthy poll ends the self-test and confirms the running image, so does a timeout with nothing to roll back to; the timeout of an image that can be rolled back marks it invalid and restarts; until then nothing happens. |
| OtaProbation.SelfTestStartsOnProbation | src/ota_update.cpp:644-666 | The self-test starts exactly on an image on probation; if its task cannot be started the image is confirmed at once. |
| OtaProbation.RebootJudges | src/ota_update.cpp:613-640 | A reboot aborts the image that was running exactly if it was still on probation, puts a new image that is picked on probation, and keeps all contents. |
| OtaProbation.NothingBeginsDuringSelfTest | src/ota_update.cpp:203-211 | No update begins while the self-test is pending. |
| OtaProbation.RollbackSelectsTheOther | src/ota_update.cpp:575-598 | A manual rollback selects the other slot as a new image, or changes nothing. |
| OtaProbation.UpdateGoesOnProbation | src/ota_update.cpp:202-363 | From every state in which a begin succeeds, an accepted file that is rebooted into runs on probation, byte for byte, with the former image as its fallback. |
| OtaProbation.HealthyUpdateIsConfirmed | src/ota_update.cpp:605-623 | Found healthy it is confirmed and stays valid when it is rebooted into again; without that the same reboot aborts it. |
| OtaProbation.FailedUpdateIsRolledBack | src/ota_update.cpp:624-635 | Not healthy in time it is marked invalid, and the former image runs again, byte for byte. |
| OtaProbation.ReceiverLife | src/ota_update.cpp:194-245 | A receiver owns the token exactly from a claim of the free token outside a self-test until it goes away, and is open exactly from a completed begin until an abort, a finish, a refused or failed chunk or its end. |
| Versions.ParseVersion | src/ota_update.cpp:80-102 | The scanning loop computes major[.minor[.patch]] as a grammar reads it, with a leading v dropped and the rest ignored; its 32-bit values never overflow exactly if the parts of the result fit. |
| Versions.NineDigitsFit | src/ota_update.cpp:92 | Runs of at most nine digits stay inside a 32-bit int. |
| Versions.IsNewerVersion | src/ota_update.cpp:104-115 | True exactly when both parse and the candidate is above in lexicographic order. |
| Versions.SameReleaseVersion | src/ota_update.cpp:118-122 | True exactly when both parse to the same release. |
| Versions.NewerIsStrictOrder | src/ota_update.cpp:104-122 | Newer is a strict order on releases, and same-release is its equivalence. |
| Versions.NewerIsNotEmpty | src/ota_update.cpp:331-332 | A newer tag is never the empty string, so the expected-version check is always on. |
| Versions.PrintedReleaseIsRead | src/ota_update.cpp:80-102 | Every printed major.minor.patch is read back, with or without a v and whatever non-digit suffix follows. |
| Versions.MissingPartsAreZero | src/ota_update.cpp:80-102 | Parts that are not there are 0. |
| Versions.NoVersionExactlyWhen | src/ota_update.cpp:80-102 | A text is no version exactly if no digit stands first, after an optional v. |
| Versions.RaisingAPartIsNewer | src/ota_update.cpp:104-115 | Raising one part, those before it unchanged, makes a version newer, whatever happens to those after it. |
| Versions.JunkIsNothing | src/ota_update.cpp:104-122 | What does not parse is neither newer nor older nor the same as anything. |
| OtaUpdate.Receive | src/ota_update.cpp:488-522 | A verdict is given exactly if the whole body arrived, started like an image and was written without a flash fault, and it is the verdict on that body. |
| OtaUpdate.OtaFromUrl | src/ota_update.cpp:478-533 | On every exit the writer token is back where it was; a verdict is given exactly if the server answers, no self-test or other update is under way, the begin succeeds, and the body comes through. |
| OtaUpdate.CheckForUpdate | src/ota_update.cpp:760-786 | The tag without its v, cut to its buffer; newer exactly if the check succeeded and that is above the running release. |
| OtaUpdate.LatestIsTheTag | src/ota_update.cpp:760-770 | The version looked for is the tag itself, a v before it aside, as far as it fits 31 bytes. |
| OtaUpdate.TagDecidesRelease | src/ota_update.cpp:331-339 | An install under a newer tag carries a signed version of that same release, so a strictly newer one. |
| OtaUpdate.InstallLatest | src/recovery_ssh.cpp:942-967 | An upgrade succeeds exactly if a newer release was found and its download comes through with a good verdict; it is then strictly newer than the running release and a file the release tool verifies. |
| OtaUpdate.CheckerRound | src/ota_update.cpp:849-891 | An unattended install is attempted exactly if the check succeeds, the release is newer, the setting is on and a moment without sessions comes before the setting is found off; it succeeds exactly if its download does. |
| VpnFailover.RunKeeps | src/recovery_vpn.cpp:311-400 | The loop-head invariant, with the history of starts, checks and decisions, on every run. |
| VpnFailover.TunnelIsDesired | src/recovery_vpn.cpp:336-365 | At every loop head a tunnel that is up runs the desired profile, and that profile exists. |
| VpnFailover.FailoverIsJustified | src/recovery_vpn.cpp:355-363 | Every automatic change of profile needs two profiles and three failures in a row of the profile it leaves. |
| VpnFailover.CounterIsHonest | src/recovery_vpn.cpp:114-118 | The counter never exceeds the true number of consecutive failures of the active profile. |
| VpnFailover.EveryChangeHasAReason | src/recovery_vpn.cpp:340-397 | Whenever the desired profile differs from the active one, the last decision was exactly that switch. |
| VpnFailover.FailoverTakesTime | src/recovery_vpn.cpp:364-398 | A profile started with the counter at zero is not left by the health path before 50000 ms, on wrapping clocks, if no counted failed check is stamped 0. |
| VpnFailover.EarlyCheckExactlyAfterZeroStamp | src/recovery_vpn.cpp:367-372 | On a true clock a check runs less than 10 s after the previous one if and only if that one was stamped 0. |
| VpnFailover.ZeroStampBreaksTheBound | src/recovery_vpn.cpp:368-372 | A run on a true clock in which one counted failed check is stamped 0, every other stamp is not, and the profile is left before its 50000 ms. |
| VpnFailover.VpnTask.Ask | src/recovery_vpn.cpp:410-412 | The newest request replaces the one in the mailbox. |
| VpnFailover.VpnTask.NoteFailure | src/recovery_vpn.cpp:114-118 | The counter saturates at 255. |
| VpnFailover.VpnTask.StopTunnel | src/recovery_vpn.cpp:140-146 | Only the tunnel flag changes. |
| VpnFailover.VpnTask.Connect | src/recovery_vpn.cpp:199-206 | The retry loop goes on only while the library asks for it, Wi-Fi is up and time remains. |
| VpnFailover.VpnTask.Start | src/recovery_vpn.cpp:165-255 | Starting a profile in place is the specified transition; the counter is reset when the profile changes, even if the start fails. |
| VpnFailover.VpnTask.HandleRequest | src/recovery_vpn.cpp:343-352 | The mailbox is emptied, and what was in it decides the desired profile. |
| VpnFailover.VpnTask.StartDesired | src/recovery_vpn.cpp:354-365 | The branch without a tunnel, with its failover after three failed starts. |
| VpnFailover.VpnTask.Check | src/recovery_vpn.cpp:367-399 | The health branch in 32-bit time: interval, grace period, counting, failover. |
| VpnFailover.VpnTask.Iterate | src/recovery_vpn.cpp:315-400 | One iteration of the loop is one step of the machine the run properties are about. |
| VpnPolicy.FailoverExactlyOnTheThird | src/recovery_vpn.cpp:354-397 | In every run the counter is exactly the number of failures in a row, and a failed start or counted check is followed by an automatic switch if and only if it is at least the third and there are two profiles. |
| VpnPolicy.FailedStartsFailOver | src/recovery_vpn.cpp:354-363 | From every reachable state about to start a profile with nothing counted against it, three cycles with Wi-Fi whose starts fail make the other profile the desired one, with a fresh counter. |
| VpnPolicy.FailedChecksFailOver | src/recovery_vpn.cpp:367-397 | Three failed checks in a row, after the grace period and at least ten seconds apart, take the tunnel down and do the same. |
| VpnPolicy.StartsExactlyWhen | src/recovery_vpn.cpp:188-255 | A profile starts exactly if it initialises, connects after nothing but retries with Wi-Fi and within the deadline, and takes its routes and the default route. |
| VpnPolicy.RequestsAreHonoured | src/recovery_vpn.cpp:336-352 | A request met with Wi-Fi is honoured in that cycle: the primary, or the other profile than the active one, is started; with one profile a failover request changes nothing; without Wi-Fi the tunnel is down and the request waits. |
| VpnPolicy.NewestRequestWins | src/recovery_vpn.cpp:410-412 | Of two requests with no cycle between them the newer one counts. |
| VpnPolicy.ChecksThatCountNothing | src/recovery_vpn.cpp:367-388 | In true time: a check that is not due changes nothing, a healthy one clears the counter, one that fails in the grace period counts nothing, any later failure is counted. |
| VpnPolicy.NothingWithoutProfiles | src/recovery_vpn.cpp:315-319 | Without profiles nothing is started, and the state says so. |
| VpnPolicy.OnlineMeansHealthy | src/recovery_vpn.cpp:374-381 | The VPN reports itself online only with a tunnel whose last finding is a healthy check of the active profile. |
| EventJournal.EventLog.constructor | src/event_log.cpp:41-55 | An empty ring. |
| EventJournal.EventLog.Log | src/event_log.cpp:57-84 | The ring holds exactly the last min(n, 256) of all n lines ever written, in order, each in the slot of its number. |
| EventJournal.EventLog.ForEachSince | src/event_log.cpp:96-120 | Under any writers between its lines and for any number of lines since boot: strictly increasing lines from the given one on, each with its own text. If the sequence number does not wrap meanwhile, a jump goes only to the oldest line the ring held at that moment, and it ends caught up unless the number has wrapped within the ring, in which case it is sent ahead of the writers. |
| EventJournal.EventLog.ForEach | src/event_log.cpp:213-234 | Walking by position: increasing, genuine, never more than 256 lines however fast the writers are, and all retained lines if nobody writes. |
| EventJournal.EventLog.Follow | src/recovery_ssh.cpp:692-714 | For any number of lines since boot, chained calls report every line at most once, in order, each with its own text; unless the sequence number wraps meanwhile or within the ring at the start, they skip a line only if it had already been overwritten. |
| EventJournal.EventLog.PersistFrom | src/event_log.cpp:150-153 | For any number of lines since boot the snapshot starts at the wrapped number of a line within the ring; it reaches back to the last 120 lines retained when the count was read exactly if no line arrives before the sequence is read, and otherwise loses one of them for each that does. |
| EventJournal.LookIsExact | src/event_log.cpp:105-112 | Below 2^32 lines the reader stops exactly when it has caught up. |
| EventJournal.ReadersGoOnExactlyOffTheWrap | src/event_log.cpp:105-112 | For any number of lines, a reader with retained lines to read gets the next one if and only if the counter has not wrapped within the ring. |
| EventJournal.FollowerStallsAtTheWrap | src/event_log.cpp:105-112 | From the 2^32nd line on a reader that is behind finds nothing to read until the wrapped counter overtakes it. |
| CText.CopyTrimmed | src/wg_conf.cpp:24-38 | The trimmed slice, or nothing exactly when it does not fit its buffer. |
| CText.NumberOfDigits | src/wg_conf.cpp:111-119 | Plain digits are read as the number they spell, exactly if it is within the bounds. |
| CText.BoundedNumberExactlyWhen | src/wg_conf.cpp:111-119 | A number is read exactly from whitespace, at most one sign and at least one digit with nothing after them, cut off at the ends of a 32-bit long. |
| CText.TrimExactlyWhen | src/wg_conf.cpp:26-31 | Trimming takes away the whitespace around a text, all of it and nothing else. |
| CText.PiecesOfConcat | src/wg_conf.cpp:240-245 | The cursor loop visits the lines of two texts joined at a line end one after the other. |
| Ipv4.ParseIpv4 | src/wg_conf.cpp:51-78 | The digit loops compute the grammar: four octets of one to three digits, at most 255, with dots between. |
| Ipv4.ParseExactlyWhen | src/wg_conf.cpp:51-78 | A text starts with an address exactly if it starts with four octets of one to three digits worth at most 255, with dots between them; the address is theirs. |
| Ipv4.ParseAfterFormat | src/wg_conf.cpp:80-83 | All 2^32 addresses are read back from their printed form, whatever non-digit follows. |
| Ipv4.FormatIsInjective | src/wg_conf.cpp:80-83 | Two addresses print alike only if they are equal. |
| Ipv4.FormatFits | src/wg_conf.cpp:80-83 | A printed address has 7 to 15 characters, so it fits 16 bytes with its NUL. |
| Ipv4.MaskIsContiguous | src/wg_conf.cpp:85-87 | The complement of a mask is one less than a power of two (section 3.1 of RFC 4632). |
| Ipv4.MasksAreNested | src/wg_conf.cpp:85-87 | A shorter prefix has a smaller mask. |
| Ipv4.OnlyPrefixZeroHasZeroMask | src/wg_conf.cpp:85-87 | The mask is zero exactly for prefix 0. |
| Ipv4.MaskedIsCanonical | src/wg_conf.cpp:194-196 | Masking twice changes nothing; prefix 0 gives 0.0.0.0 and prefix 32 the address. |
| Ipv4.ParsePrintedNet | src/wg_conf.cpp:90-109 | Every address with every prefix length is read back from its notation. |
| Ipv4.ParseIpv4WithPrefix | src/wg_conf.cpp:90-109 | An address, or an address, a slash and a number in 0..32 with nothing after it. |
| Ipv4.ParseNetExactlyWhen | src/wg_conf.cpp:90-109 | A network is exactly an address alone, as a /32, or an address, a slash and a number up to 32. |
| WgConf.HandleAddress | src/wg_conf.cpp:121-166 | The cursor loop over the entries fills the profile as the entry-by-entry specification does, with the same first error. |
| WgConf.HandleAllowedIps | src/wg_conf.cpp:168-199 | The same for routes, at most four. |
| WgConf.HandleEndpoint | src/wg_conf.cpp:201-224 | Host before the last colon with legal characters, port in 1..65535 after it. |
| WgConf.HandleSetting | src/wg_conf.cpp:295-345 | The branches on section and key, with the 128- and 256-byte value limits. |
| WgConf.ParseWireGuardConf | src/wg_conf.cpp:227-384 | The whole parser equals the recursive specification over trimmed lines and sections, error by error. |
| WgLines.BlankExactlyWhen | src/wg_conf.cpp:247-255 | A line is passed over exactly if it is whitespace or its first visible character is a '#' or ';'. |
| WgLines.HeaderExactlyWhen | src/wg_conf.cpp:257-264 | A header is exactly a name of at most 23 characters in brackets. |
| WgLines.SectionsByName | src/wg_conf.cpp:262-281 | Sections are told apart by name in any letter case; all others are unknown. |
| WgLines.AssignmentExactlyWhen | src/wg_conf.cpp:283-291 | An assignment is exactly a key of 1 to 31 characters, the first equals sign and a trimmed value, on a line that is neither comment nor header. |
| WgLines.SkippedExactlyWhen | src/wg_conf.cpp:133-138 | An entry of a list is passed over exactly if it is blank or holds a colon. |
| WgLines.EndpointExactlyWhen | src/wg_conf.cpp:201-224 | An endpoint is accepted exactly if it is a host of 1 to 63 letters, digits, dots and hyphens, the last colon, and a port in 1..65535; it does not start with a bracket. |
| WgLines.OnlyCaseIsIgnored | src/wg_conf.cpp:295-336 | Names are compared letter by letter, and only the case of letters is ignored. |
| WgAccepted.LinesAreHeadersAndItems | src/wg_conf.cpp:257-281 | A run over lines decomposes into section headers, each named section at most once, and assignments. |
| WgAccepted.ItemsMean | src/wg_conf.cpp:295-345 | Assignments run through exactly when each is legal and the counts fit; hosts and routes collect in order. |
| WgAccepted.LastWins | src/wg_conf.cpp:295-345 | Of several assignments to one setting the last decides, and no other field is disturbed. |
| WgAccepted.UsableHosts | src/wg_conf.cpp:147-160 | An interface address passes exactly if its first octet is in 1..223 and, below /32, it is neither the first nor the last address of its subnet. |
| WgAccepted.DefaultRouteHasPrefixZero | src/wg_conf.cpp:371-378 | The textual default-route test holds for a stored route exactly when its entry had prefix 0. |
| WgAccepted.AcceptedExactlyWhen | src/wg_conf.cpp:227-384 | A text is accepted if and only if its lines are well formed, its assignments legal, it has one Interface and one Peer header, both keys and an endpoint, exactly one IPv4 host address, and one to four routes of which one has prefix 0. |
| WgAccepted.AcceptedProfile | src/wg_conf.cpp:227-384 | What an accepted profile holds: that host address, those routes in order and masked, the last value of everything else. |
| WgAccepted.AcceptedIsWellFormed | include/device_config.h:14-31 | Every string of an accepted profile fits its buffer, numbers are in range, routes are canonical and one is the default route. |
| WgAccepted.RouteIsItsNetwork | src/wg_conf.cpp:194-197 | A stored route keeps the bits of its mask and clears the others. |
| WgAccepted.BlankLinesAreFree | src/wg_conf.cpp:247-255 | A line of whitespace, or one whose first visible character is a '#' or ';', inserted at any line boundary changes nothing. |
| WgAccepted.BlankLinesCanFollow | src/wg_conf.cpp:240-255 | Nor does one appended to a last line without a line end. |
| WgLayout.KeysOfSections | src/wg_conf.cpp:295-336 | Each section knows its own keys, in any letter case, and no others. |
| WgLayout.ListedIsRead | src/wg_conf.cpp:168-199 | A printed, comma-separated list of networks is read back as that list. |
| WgLayout.EndpointIsRead | src/wg_conf.cpp:201-224 | A legal host, a colon and a port in digits are read back as that host and port. |
| WgLayout.WrittenProfileIsRead | src/wg_conf.cpp:227-384 | Any sensible profile written out in the usual layout is accepted and read back as it was: keys, address and mask, endpoint, port, routes. |
| Relay.SendAllToPc | src/recovery_ssh.cpp:1340-1363 | Exactly the bytes that got through before a break or a stall, in order; true if and only if all did. |
| Relay.WriteAllToChannel | src/recovery_ssh.cpp:211-234 | The same towards the client. |
| Relay.PartialWritesComplete | src/recovery_ssh.cpp:211-234 | A socket that keeps taking bytes gets them all, however it cuts them up. |
| Relay.WriteGivesUp | src/recovery_ssh.cpp:211-234 | A write that is not complete ends at the first answer that breaks the connection or comes more than 30 s after the last progress, with exactly what got through before. |
| Relay.AnswersMean | src/recovery_ssh.cpp:1340-1363 | What the two sockets' answers mean: bytes taken, no room yet, or the end of the connection. |
| Relay.ForwardClient | src/recovery_ssh.cpp:1507-1526 | One read from the client and its write to the PC. |
| Relay.ForwardPc | src/recovery_ssh.cpp:1535-1554 | One read from the PC and its write to the client. |
| Relay.RelayDirectTcpip | src/recovery_ssh.cpp:1444-1562 | The loop is the fold of the specified turn over what the environment does. |
| Relay.RelayConserves | src/recovery_ssh.cpp:1444-1562 | Both directions deliver what was read, in order, unless that write failed, and then a proper prefix; totals equal delivered lengths; the PC side is half-closed exactly once, after all the client's bytes, as soon as these are passed on. |
| Relay.PcFlowContinues | src/recovery_ssh.cpp:1449-1453 | A running relay has delivered to the client all that the PC's socket offered, half-closed or not. |
| Relay.PendingBytesMove | src/recovery_ssh.cpp:1460-1469 | Bytes already inside the SSH session go out in the next turn without waiting for the socket. |
| Relay.NothingAfterHalfClose | src/recovery_ssh.cpp:1527-1533 | After the half-close nothing more goes to the PC. |
| Relay.EveryEndHasItsCause | src/recovery_ssh.cpp:1459-1561 | For every run: each reason a relay ends for is given exactly by what the turn brings; a failed write is one that did not deliver all it had read; the idle timeout comes exactly in a turn that brings and delivers nothing, more than ten minutes after bytes last got through. |
| LineEditor.Ring.constructor | src/recovery_ssh.cpp:1268-1271 | A fresh editor. |
| LineEditor.Ring.FeedByte | src/recovery_ssh.cpp:1160-1227 | One byte does to the class what it does to the editor with an unbounded history. |
| LineEditor.Ring.RecallLine | src/recovery_ssh.cpp:1249-1266 | The ring shows the line that the cursor stands on. |
| LineEditor.Ring.AcceptLine | src/recovery_ssh.cpp:1229-1237 | The ring keeps holding the last eight accepted lines, each in the slot of its number. |
| LineEditor.ServeShell | src/recovery_ssh.cpp:1306-1330 | The byte loop executes the commands that the abstract session executes. |
| LineEditor.EverySession | src/recovery_ssh.cpp:1150-1272 | On every byte sequence: printable line of at most 127, cursor within the last eight lines, history equal to the executed commands without empty ones and repeats in a row. |
| LineEditor.LineEndingsAreInterchangeable | src/recovery_ssh.cpp:1202-1207 | Anywhere in a session a non-empty line may end in CR, LF or CR LF with the same commands and state. |
| LineEditor.TypedTextAppears | src/recovery_ssh.cpp:1218-1225 | Typed text goes to the end of the line as far as it fits 127 characters, and executes nothing. |
| LineEditor.TypedLineIsExecuted | src/recovery_ssh.cpp:1306-1330 | A typed line and Enter execute exactly that line, once, and leave an empty one; the session ends exactly if the command quits. |
| LineEditor.EditingKeys | src/recovery_ssh.cpp:1182-1214 | Backspace takes the last character, Ctrl-U and Ctrl-C the line, Ctrl-D ends the session; nothing is executed and the history stays. |
| LineEditor.BackspaceUndoesTyping | src/recovery_ssh.cpp:1208-1218 | A character that is taken back was never typed. |
| LineEditor.OtherBytesDoNothing | src/recovery_ssh.cpp:1182-1227 | All other control bytes and bytes beyond ASCII are passed over. |
| LineEditor.OtherSequencesDoNothing | src/recovery_ssh.cpp:1168-1180 | An escape sequence that is no arrow key, however long, leaves the editor as it was. |
| LineEditor.ArrowRecalls | src/recovery_ssh.cpp:1164-1180 | The three bytes of an arrow key, in both terminal forms, recall once. |
| LineEditor.BackShows | src/recovery_ssh.cpp:1249-1266 | n steps back show the n-th last line and stop at the oldest of the last eight. |
| LineEditor.ForthUndoesBack | src/recovery_ssh.cpp:1249-1266 | A step forward undoes a step back, except that a line being typed is gone. |
| LineEditor.BackUndoesForth | src/recovery_ssh.cpp:1249-1266 | And the other way round. |
| Dispatch.CollapseSpaces | src/recovery_ssh.cpp:1124-1127 | The repeated replacement ends and equals one pass over the runs of spaces. |
| Dispatch.CollapseIsIdempotent | src/recovery_ssh.cpp:1124-1127 | Collapsing twice changes nothing. |
| Dispatch.CollapseHasNoDouble | src/recovery_ssh.cpp:1124-1127 | No two spaces in a row remain. |
| Dispatch.OrderIsIrrelevant | src/recovery_ssh.cpp:550-557 | Two tables with the same names give the same longest match. |
| Dispatch.FindCommand | src/recovery_ssh.cpp:547-574 | The longest name that is a whole-word prefix, with the space-stripped rest of the line; aliases only if nothing matches, and then with arguments inside a literal. |
| Dispatch.ExecuteCommand | src/recovery_ssh.cpp:1119-1143 | The handler gets the rest of the line in its original letter case, except that the argument pointer goes astray if and only if the line is an alias that no name matches. |
| Dispatch.ArgumentsAreTheRest | src/recovery_ssh.cpp:1119-1143 | The arguments are all that follows the name and the spaces after it, from the first other character on. |
| Dispatch.CaseDoesNotMatter | src/recovery_ssh.cpp:1119-1143 | Lines that differ only in letter case are matched alike. |
| Dispatch.SpacesDoNotMatter | src/recovery_ssh.cpp:1119-1127 | So are lines that differ in surrounding whitespace and repeated spaces. |
| Dispatch.AliasesGoAstray | src/recovery_ssh.cpp:484-545 | With the firmware's table that is each of the three aliases. |
| SshWire.DecodeOfEncode | src/setup_portal.cpp:233-240 | Encoding any list of fields (section 5 of RFC 4251) decodes back to it. |
| SshWire.EncodeOfDecode | src/setup_portal.cpp:233-240 | What decodes is the encoding of its fields. |
| SshWire.DecompositionIsUnique | src/setup_portal.cpp:233-240 | Bytes can be cut into fields in at most one way. |
| SshWire.IsWellFormedSshWireFields | src/setup_portal.cpp:241-259 | True exactly when the bytes are one or more length-prefixed fields and nothing else; no index leaves the buffer. |
| SshWire.FirstFieldIsEmbedded | src/setup_portal.cpp:307-314 | The length and name checks hold exactly when the first field of the decomposition spells the key type. |
| SshWire.ParseSshPublicKey | src/setup_portal.cpp:263-334 | A key is returned exactly when the upload has two words, a known type, base64 that fits and decodes to fields whose first is the type, and libssh imports it. |
| SshWire.WordsExactlyWhen | src/setup_portal.cpp:263-291 | The two words are found exactly in blanks, a word, blanks, and a key that ends at a blank, a line end or the end: whatever comment follows, they are the same. |
| SshWire.GoodKeysAre | src/setup_portal.cpp:282-334 | A key is good exactly if it names one of the five types, has 1 to 799 characters of base64 that decode to fields of which the first spells the type, and can be imported. |
| ErrorList.Errors.Add | src/setup_portal.cpp:49-66 | The buffer always holds the JSON of the entries that fitted in full; the flag is up if there is one. |
| ErrorList.Errors.Finish | src/setup_portal.cpp:68-71 | The closing braces always fit. |
| ErrorList.FirstShortErrorCounts | src/setup_portal.cpp:49-66 | The flag is set if and only if some reported error was short enough for the empty buffer, despite truncation. |
| Portal.MergeHost | src/setup_portal.cpp:379-394 | Network and address fields: each one sent is either valid and merged into the draft, or named in the error list, in order. |
| Portal.MergeLogin | src/setup_portal.cpp:395-422 | The same for port, user and key. |
| Portal.MergeSlot | src/setup_portal.cpp:424-456 | The same for a profile and its port; a port set before survives a new profile sent without one. |
| Portal.CheckComplete | src/setup_portal.cpp:458-482 | The checks on the merged draft and the two port defaults. |
| Portal.SetupPortal.HandleApply | src/setup_portal.cpp:374-520 | The handler is the transaction: rejected and unchanged exactly if the request is not acceptable, otherwise merged and committed; the response names exactly the failed checks, in their order. |
| Portal.NothingIsDropped | src/setup_portal.cpp:42-65 | The assumption behind the 1 KB error buffer: whatever is wrong with a request, every error fits, so none is cut off. |
| Portal.MergedIsReady | src/setup_portal.cpp:503-511 | A committed configuration has a network, user, key, LAN address and valid ports; slot 2 is filled only if slot 1 is; the count is right; filled slots hold well-formed profiles with a port. |
| Portal.FromTheFactory | src/setup_portal.cpp:374-520 | So after any sequence of requests to an unprovisioned device memory is zero or such a configuration, and flash holds nothing else. |
| Portal.ErrorsLeaveMemoryAloneWhen | src/setup_portal.cpp:498-516 | An error response leaves flash alone, and memory exactly if it was a rejection or the commit would change nothing. |
| Portal.FailedSaveStaysInMemory | src/setup_portal.cpp:511-516 | Every acceptable first setup whose write fails is an error, leaves flash empty, and stays in memory. |
| Portal.FirstSetupsExist | src/setup_portal.cpp:374-520 | There are such requests. |
| Portal.AbsentFieldsStay | src/setup_portal.cpp:374-457 | Fields that are not sent are kept, but for the two port defaults. |
| Portal.SentFieldsAreTaken | src/setup_portal.cpp:374-516 | In every acceptable request each field that is sent takes effect as it was sent: name, password and user as text, the address as printed, ports as numbers, the key's two words, each profile parsed or cleared; the update flag is on exactly for "1"; all of it goes to flash if the write succeeds. |
| Portal.FieldsOkExactlyWhen | src/setup_portal.cpp:379-456 | What is asked of each field that is sent, with its limits. |
| Portal.AcceptableExactlyWhen | src/setup_portal.cpp:458-496 | And of the merged whole, and of the network if its name or password was sent. |
| Portal.CStrExactlyWhen | src/setup_portal.cpp:397-420 | A field's text ends at its first NUL. |
| Portal.ToIntOfDigits | src/setup_portal.cpp:396-403 | A field of digits is the number they spell. |

## Left out

- Wi-Fi, HTTP and TLS, DNS, NVS and SPIFFS calls, base64, `ssh_pki` import: they only answer, through parameters; redirects and the HTTP status of a download are one "reached" answer.
- libssh, lwIP, mbedTLS, libsodium and esp_wireguard internals: a channel reports EOF only once nothing is left to read, a client sends nothing after its EOF, on a value without line breaks, a key that decodes to 32 bytes has 44 characters.
- Key exchange and authentication: one step with either outcome.
- Dashboard, help texts, terminal output, LED, the portal page: presentation only.
- Network monitor, BOOT button, boot counter, JSON escaping of scan results: easy members.
- OtaSink.Sink.Feed: the count of received bytes is unbounded, the code's `size_t` wraps at 4 GiB.
- OtaSlots.StepKeepsInv: once a slot is written its content is what has been written, the not yet erased rest of the former image is not kept apart; the bootloader's choice of slot is left free.
- Versions.ParseVersion: what the code does when a part leaves the 32-bit `int`, which is undefined; the comparisons are stated on unbounded parts.
- OtaUpdate.InstallLatest: one shared method stands for the console upgrade and the automatic one, which pass the same two arguments.
- VpnFailover.FailoverTakesTime: one direction over runs, since a counted check stamped 0 breaks the bound only if the next one really comes early; check by check the condition is exact.
- VpnFailover.VpnTask.Iterate: waiting for NTP and all delays are time that passes between two events.
- EventJournal.EventLog.ForEachSince: which lines are skipped when the sequence number wraps during the call; look by look the condition is `ReadersGoOnExactlyOffTheWrap`.
- EventJournal.EventLog.Log: the uptime stamp is part of the line's text.
- LineEditor.Ring.FeedByte: echo is not modelled; the history counter is unbounded, the code's wraps at 2^32 accepted lines.
- Relay.RelayDirectTcpip: connecting to the PC and allocating buffers come before the loop; a script that ends is a relay still running, and inside one write a stall that reaches its limit.
- Dispatch.ExecuteCommand: the handlers, and strings with an embedded NUL.
- WgConf.ParseWireGuardConf: the text holds no NUL (the portal passes a C string); messages are an enumeration; numbers are read with a 32-bit `long`.
- Portal.SetupPortal.HandleApply: what a failed parse leaves in the draft's slot, which only the check for a secondary profile without a primary one sees; the reboot timer after a success.
- SshWire.ParseSshPublicKey: the type buffer that a refused key may leave changed in the draft, which is then discarded.
