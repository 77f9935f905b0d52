# Pilot: proofs about its stateful core

A Dafny model of the parts of Pilot where state survives failures, restarts and interleavings, and
proofs of what those parts promise. Five components are modelled:

- **Installing apps** (`cmd/pilotctl/appstore_state.go`, `appstore_lock.go`, the install and
  uninstall sequences of `appstore.go`): stage, carry state, swap, reconcile, retire, prune, and
  recovery of whatever a killed `pilotctl` left. Files: `AppTree`, `AppCarry`, `AppMerge`,
  `AppBackups`, `AppInstall`, `InstallLock`.
- **The spend log and its anchor** (`cmd/pilotctl/appstore.go`). File: `CapState`.
- **Log rotation** (`internal/logcap/logcap.go`): the slots of one log, and who may work on a staged
  copy. Files: `LogSlots`, `StagedCopy`.
- **The daemon's schedulers** (`pkg/daemon`): the own-address watcher, the relayed-handshake poll
  scheduler and the per-peer path watchdog. Files: `AddrWatch`, `HandshakePoll`, `PathWatch`.
- **Matching a reply to a request** (`cmd/pilotctl/firstcontact.go`). File: `ReplyWatch`.

How it is modelled:

- Code that updates an object is a class with the same fields. Each method's contract ties its new
  state to a function (or relation) of the old one, and the laws are proved about that function over
  every run.
- Clocks, the network, the kernel's answers and every file-system outcome are inputs. A file-system
  step is `Done`, `Denied` or `Killed` (`Common.Io`); a kill comes before any step and nothing changes
  after it. A contract over all inputs therefore covers every pattern of failures and a kill at any
  point.
- Protocols between processes (`InstallLock`, `StagedCopy`) are state machines whose steps are single
  system calls, and their laws hold for every interleaving.
- Times are nanoseconds as unbounded integers. `uint64` arithmetic is written out where it matters.
- `hide` statements in proofs only keep definitions out of the verifier's sight.

`dafny verify dfyconfig.toml` checks the project.

## Where the code and its promises differ

Each of these follows the code, shows the failing input as a lemma, and proves when the promise holds.

- **Reported usage can go down** (`cmd/pilotctl/appstore.go:2072-2084`). The sum is a `uint64` that
  wraps. `CapState.WrappedUsage` is such a run; `CapState.UsageNeverDecreases` shows that the report
  keeps growing exactly when adding the new spends does not carry out of 64 bits.
- **A pinned backup can be pruned** (`cmd/pilotctl/appstore_state.go:1085-1096`). The metadata is
  written last, so a dir that already held a routine `.pilot-backup.json` is prunable after a kill or a
  failed write (`AppBackups.StaleMetadataIsPruned`). `AppBackups.PinnedUnlessStale`: a pinned backup is
  out of reach whatever happens exactly when the dir held no routine metadata. Conservation is
  therefore stated for live dirs without one (`AppInstall.Keeps`).
- **Leftover is not complete** (`cmd/pilotctl/appstore_state.go:649-655, 660-788`). A file the walk does not
  come to is neither taken nor reported when the directory above it became one since the carry
  (`AppMerge.DirectoryHidesFile`), or cannot be listed (`AppMerge.UnlistableHidesFile`).
  `AppMerge.LeftoverComplete` gives the exact condition.
- **A replaced file can be lost** (`cmd/pilotctl/appstore_state.go:822-836`). A file this user can neither link nor
  read is moved to a temporary name, and deleted there when the rename over the old copy fails
  (`AppMerge.ReplacementIsLost`). `AppMerge.ReplacementLost` says exactly when an entry is in neither tree.
- **A retired dir can stay adoptable** (`cmd/pilotctl/appstore_state.go:1022-1032`). Copied to another file
  system, the original's manifest is disabled before it is removed, but a failure to do so is ignored
  (`AppInstall.AdoptableRemainder`). `AppInstall.RestInert`: what a failed removal leaves has no manifest,
  whatever it leaves, exactly when the disabling succeeded or there was none.
- **Recovery may act on a dir of a running process** (`cmd/pilotctl/appstore_lock.go:15-30`). An install that
  cannot retire the old dir, or fails and cannot discard staging, gives the lock back with that dir in
  place (`InstallLock.PreviousLeftBehind`, `StagingLeftBehind`, `MakerStillRuns`). The maker is always dead
  when no process gives the lock back that way (`RemnantsOfTheDead`), and its tenure is always over
  (`RecoveryActsOnRemnants`).
- **The grace of an untagged reply is not per message** (`cmd/pilotctl/firstcontact.go:466-503`). A message that
  replaces the held one inherits its hold (`ReplyWatch.HoldIsInherited`). `ReplyWatch.GraceRespected`: its own
  grace is kept exactly when nothing was held when it was first polled, or since no earlier than its own start.
- **One worker per staged copy needs flock** (`internal/logcap/logcap.go:734-763`). Where the file system has none,
  rotations of one log carry on unlocked (`StagedCopy.AloneNeedsFlock`); another log's copy is still left alone
  (`StagedCopy.FinisherLeavesLiveCopies`).

## Model

| member | source | states |
|---|---|---|
| AddrWatch.Watcher.constructor | pkg/daemon/addrwatch.go:140-158 | A new watcher knows nothing and has run nothing. |
| AddrWatch.Watcher.SetBeacon | pkg/daemon/addrwatch.go:175-185 | A beacon switch forgets what was read against the old beacon, except a pending move. |
| AddrWatch.Watcher.AddSample | pkg/daemon/addrwatch.go:189-197 | An offline or empty sample changes nothing; the first address is the announced one. |
| AddrWatch.Watcher.AddReplies | pkg/daemon/addrwatch.go:205-215 | The observed address changes only on two agreeing replies of the current beacon. |
| AddrWatch.Watcher.AskConfirm | pkg/daemon/addrwatch.go:222-232 | A second reply is asked for once per reply and at most every 30 s, and exactly then it is remembered. |
| AddrWatch.Watcher.CooldownFor | pkg/daemon/addrwatch.go:269-279 | The doubling loop computes min(base * 2^(streak-1), max), and base before the first recovery. |
| AddrWatch.Watcher.Begin | pkg/daemon/addrwatch.go:312-343 | The whole state a recovery leaves: streak bumped or restarted after a quiet period, what is announced, what is forgotten. |
| AddrWatch.Watcher.Finish | pkg/daemon/addrwatch.go:346-354 | A failed registration leaves three retries, unless it was itself one. |
| AddrWatch.Watcher.IsDue | pkg/daemon/addrwatch.go:235-295 | The first pending reason is due exactly when its own gap and 10 s since any recovery have passed. |
| AddrWatch.Watcher.RunTick | pkg/daemon/addrwatch.go:436-483 | One tick is the switch, the samples, the replies, the confirmation and at most one recovery, in that order. |
| AddrWatch.CreditPays | pkg/daemon/addrwatch.go:250-279 | Each recovery of a streak is paid for by its cooldown and the streak's credit: the potential behind the rate bound. |
| AddrWatch.PaidStep | pkg/daemon/addrwatch.go:312-322 | One more recovery keeps the account paid, with the streak continued or restarted. |
| AddrWatch.PaidTick | pkg/daemon/addrwatch.go:436-483 | Every tick keeps the account paid, whether or not it runs a local recovery. |
| AddrWatch.RateInvariant | pkg/daemon/addrwatch.go:87-96 | After any stretch of a run the local recoveries in it are paid for. |
| AddrWatch.LocalRecoveryRate | pkg/daemon/addrwatch.go:87-96 | In any stretch of T seconds of any run, n local recoveries satisfy 120 n <= T + 450, from any start state. |
| AddrWatch.LastRecoverTracks | pkg/daemon/addrwatch.go:312-322 | Once a recovery ran, the last one is at or after it. |
| AddrWatch.RecoveriesSpaced | pkg/daemon/addrwatch.go:283-295 | Two recoveries of any kind are at least 10 s apart. |
| AddrWatch.StationarySettled | pkg/daemon/addrwatch.go:175-245 | With fixed addresses per beacon, local equals announced and the observed address is settled after every tick. |
| AddrWatch.StationaryNeverFires | pkg/daemon/addrwatch.go:436-468 | A host that does not move never re-announces, over any run of beacon switches, offline samples and replies. |
| AddrWatch.Announced | pkg/daemon/addrwatch.go:175-197 | Nothing is announced only before the first sample. |
| AddrWatch.MoveKept | pkg/daemon/addrwatch.go:175-197 | A tick that does not sample the announced address keeps a pending move pending. |
| AddrWatch.MovePersists | pkg/daemon/addrwatch.go:235-343 | A pending move outlives offline samples, switches and deferred ticks, and no other recovery runs or pushes it back meanwhile. |
| AddrWatch.NoMoveLost | pkg/daemon/addrwatch.go:446-482 | A pending move is announced, or its address returned, by the first tick with a route once the gaps that hold it back have passed. |
| AddrWatch.GapsPass | pkg/daemon/addrwatch.go:250-295 | Those gaps have passed at most 120 s after the previous local recovery and 10 s after any. |
| AddrWatch.PendingMoveFires | pkg/daemon/addrwatch.go:283-295 | A tick with a pending move announces it if and only if it has a route and the gaps have passed, and runs nothing else. |
| AddrWatch.LocalRecoveryAnnounces | pkg/daemon/addrwatch.go:312-343 | A local recovery announces the address the tick sampled, ends the pending move and forgets the public address. |
| AddrWatch.SwitchSeesMove | pkg/daemon/addrwatch.go:446-460 | A move made just before a beacon switch is seen on the old route and kept across the switch. |
| AddrWatch.PublicMoveFires | pkg/daemon/addrwatch.go:205-245 | A host whose beacon says a new public address twice re-registers in that tick if and only if it has a route and 10 s since any recovery and the public gap have passed; then the new address is the announced one. |
| AddrWatch.PublicKept | pkg/daemon/addrwatch.go:205-215 | A pending public move survives a tick that neither switches beacon nor hears the announced address twice. |
| AddrWatch.PublicMovePersists | pkg/daemon/addrwatch.go:235-343 | ... and any stretch of such ticks, with no registry retry pushing it back. |
| AddrWatch.NoPublicMoveLost | pkg/daemon/addrwatch.go:235-295 | By the first tick with a route past its gaps a public move was announced or ended, unless a local move is then pending. |
| AddrWatch.PublicGapsPass | pkg/daemon/addrwatch.go:250-295 | Its gaps have passed at most an hour after the previous public recovery and 10 s after any. |
| AddrWatch.GapsBackOff | pkg/daemon/addrwatch.go:269-322 | Two recoveries of one kind in a row are at least the current gap apart, and the streak grows by one or restarts after a quiet period. |
| AddrWatch.GapSchedule | pkg/daemon/addrwatch.go:87-106 | The gaps and quiet periods in seconds. |
| AddrWatch.RetriesLeft | pkg/daemon/addrwatch.go:312-354 | A failed registration leaves three retries, a successful one none; a retry uses one up. |
| AddrWatch.RetryRuns | pkg/daemon/addrwatch.go:235-295 | With nothing else pending a retry runs if and only if the tick has a route and its gaps have passed. |
| AddrWatch.RetriesBackOff | pkg/daemon/addrwatch.go:312-343 | The first retry may run 10 s after the failed recovery; later ones back off. |
| AddrWatch.AtMostThreeRetries | pkg/daemon/addrwatch.go:346-354 | Between two recoveries for a move there are at most three retries, over any run. |
| AddrWatch.LoneReplyConfirmed | pkg/daemon/addrwatch.go:222-232 | A lone reply with a new address is confirmed in the tick that sees it. |
| AddrWatch.ConfirmsSpaced | pkg/daemon/addrwatch.go:222-232 | While the beacon stays the same, confirmations are at least 30 s apart. |
| HandshakePoll.PollSched.constructor | pkg/daemon/handshakepoll.go:122-129 | A new scheduler has a full poke bucket, no peers and no poll. |
| HandshakePoll.PollSched.PruneTable | pkg/daemon/handshakepoll.go:193-199 | Exactly the peers whose window is closed and whose hold-off has ended are forgotten. |
| HandshakePoll.PollSched.OldestClosed | pkg/daemon/handshakepoll.go:161-168 | The peer found has a closed window and the earliest hold-off end; none is found only if every window is open. |
| HandshakePoll.PollSched.MakeRoom | pkg/daemon/handshakepoll.go:154-172 | Room is made by forgetting, then by evicting one closed peer, if there is one. |
| HandshakePoll.PollSched.SendRequest | pkg/daemon/handshakepoll.go:142-181 | A request opens a window unless one is open or an automatic request is held off, or the table is full of open ones. |
| HandshakePoll.PollSched.Answer | pkg/daemon/handshakepoll.go:184-191 | An answer closes the peer's window and leaves its hold-off. |
| HandshakePoll.PollSched.ScanOpen | pkg/daemon/handshakepoll.go:217-235 | Whether a peer not trusted is still in its window, and exactly which trusted ones are. |
| HandshakePoll.PollSched.Settle | pkg/daemon/handshakepoll.go:217-249 | The windows of exactly the peers found trusted are closed. |
| HandshakePoll.PollSched.BeginPoll | pkg/daemon/handshakepoll.go:259-288 | The caller gets the poll in flight, or starts one if allowed, or is told there is none to wait for. |
| HandshakePoll.PollSched.EndPoll | pkg/daemon/handshakepoll.go:292-300 | The poll in flight is over. |
| HandshakePoll.PollSched.CloseDown | pkg/daemon/handshakepoll.go:309-325 | The scheduler is closed and the poll to wait for is named. |
| HandshakePoll.PollSched.TakePoke | pkg/daemon/handshakepoll.go:337-362 | The lazily refilled bucket: the loop is woken exactly for an accepted poke. |
| HandshakePoll.PollSched.PokeWait | pkg/daemon/handshakepoll.go:366-384 | The wait it names is the least after which a poll may start, with none in flight. |
| HandshakePoll.PollsNeverOverlap | pkg/daemon/handshakepoll.go:259-300 | Between two starts a poll ended, and a start claimed with gap g comes at least g after every earlier one. |
| HandshakePoll.PokeCovered | pkg/daemon/handshakepoll.go:337-384 | An accepted poke stays owed until a poll starts after it, unless the registry was gone. |
| HandshakePoll.PokeWhileOwed | pkg/daemon/handshakepoll.go:337-341 | A poke while a poll is owed changes nothing and costs nothing. |
| HandshakePoll.StartSettlesPokes | pkg/daemon/handshakepoll.go:259-267 | One poll settles every poke before it. |
| HandshakePoll.EndFrees | pkg/daemon/handshakepoll.go:292-300 | Once a poll ended, one may start if and only if the scheduler is open and the gap has passed. |
| HandshakePoll.RunningIsNewest | pkg/daemon/handshakepoll.go:259-288 | The poll in flight is the last one started. |
| HandshakePoll.PollsHaveNumbers | pkg/daemon/handshakepoll.go:259-288 | Two polls never have the same number, so waiting for one is never satisfied by another. |
| HandshakePoll.ClosedForGood | pkg/daemon/handshakepoll.go:309-325 | After shutdown began only the poll it found may run, and once it ended none does. |
| HandshakePoll.ShutdownIsFinal | pkg/daemon/handshakepoll.go:309-325 | Once shutdown returned true no poll is running and none ever starts. |
| HandshakePoll.RoomKeepsOpen | pkg/daemon/handshakepoll.go:154-172 | Making room never takes an open window away and never grows the table. |
| HandshakePoll.TableBounded | pkg/daemon/handshakepoll.go:142-181 | The waiting table never exceeds 64 peers, in any history. |
| HandshakePoll.OpenWindowKept | pkg/daemon/handshakepoll.go:142-199 | An open window is never extended and never evicted. |
| HandshakePoll.RequestOpens | pkg/daemon/handshakepoll.go:142-181 | A request by the user opens a two-minute window even during the hold-off, an automatic one only after it, neither while a window is open. |
| HandshakePoll.NewRequestOpens | pkg/daemon/handshakepoll.go:154-181 | A request to a new peer opens one while the table has room or a closed peer. |
| HandshakePoll.AnswerCloses | pkg/daemon/handshakepoll.go:184-191 | An answer closes the peer's window; its hold-off and all other peers stay. |
| HandshakePoll.PruneForgets | pkg/daemon/handshakepoll.go:193-199 | A peer is forgotten if and only if its window and its hold-off are over. |
| HandshakePoll.EvictsSoonest | pkg/daemon/handshakepoll.go:156-172 | The peer evicted is the closed one whose hold-off ends soonest. |
| HandshakePoll.OpenIsRecent | pkg/daemon/handshakepoll.go:217-249 | A window not answered is open exactly until two minutes after its request, in any history. |
| HandshakePoll.WindowOrigin | pkg/daemon/handshakepoll.go:142-181 | Every entry goes back to one request, two minutes before its window and ten before its hold-off end. |
| HandshakePoll.WindowsAreShort | pkg/daemon/handshakepoll.go:217-249 | A peer polled fast sent its request less than two minutes ago. |
| HandshakePoll.HoldOffKept | pkg/daemon/handshakepoll.go:142-199 | A hold-off lasts its ten minutes unless the peer is evicted. |
| HandshakePoll.AutomaticWindowsApart | pkg/daemon/handshakepoll.go:142-181 | For a peer not evicted, an automatic window starts at least ten minutes after the previous window. |
| HandshakePoll.PokeCost | pkg/daemon/handshakepoll.go:337-362 | Counted in time, refilling changes nothing and an accepted poke costs exactly one refill period. |
| HandshakePoll.AcceptsPaid | pkg/daemon/handshakepoll.go:337-362 | Accepted pokes are paid for by the bucket's worth and elapsed time. |
| HandshakePoll.WorthRefills | pkg/daemon/handshakepoll.go:337-362 | Without accepted pokes the bucket's worth grows with time up to a full bucket. |
| HandshakePoll.PokeAccepted | pkg/daemon/handshakepoll.go:337-362 | A poke with none owed is accepted if the last accepted one was 5 s before, or there was none. |
| HandshakePoll.TokenBucket | pkg/daemon/handshakepoll.go:69-74 | In any stretch of time T at most 3 + T / 5 s pokes are accepted. |
| PathWatch.PathWatcher.constructor | pkg/daemon/pathwatch.go:95-115 | No peer is tracked at the start. |
| PathWatch.PathWatcher.WatchPeer | pkg/daemon/pathwatch.go:154-212 | One peer's decision and the memory it leaves. |
| PathWatch.PathWatcher.Tick | pkg/daemon/pathwatch.go:123-151 | Every ready peer in use is evaluated once from its own memory; all others are forgotten. |
| PathWatch.ProbeHistory | pkg/daemon/pathwatch.go:154-212 | The probes a peer's memory counts were sent, with nothing heard from 55 s before the first, given scans under 55 s apart. |
| PathWatch.ResetFollowsSilence | pkg/daemon/pathwatch.go:44-63 | With scans under 55 s apart, a reset follows three probe scans and silence from 55 s before the first until the reset. |
| PathWatch.SilenceIsOld | pkg/daemon/pathwatch.go:154-163 | A peer found silent had a record at the scan before too: one written since a scan without a record is too young. |
| PathWatch.FartherScansFail | pkg/daemon/pathwatch.go:44-63 | A run with scans 55 s and 1 ns apart that resets a peer heard after the first probe. |
| PathWatch.ResetRemembered | pkg/daemon/pathwatch.go:123-151 | A reset of a peer that stays tracked is remembered. |
| PathWatch.ResetsApart | pkg/daemon/pathwatch.go:154-212 | Two resets of a peer that stays tracked are at least two minutes apart. |
| PathWatch.SilentScan | pkg/daemon/pathwatch.go:154-212 | What a scan does with a silent peer, by its probes and last reset. |
| PathWatch.HeardScan | pkg/daemon/pathwatch.go:166-180 | A peer heard within 55 s is healthy and its probes are forgotten. |
| PathWatch.RecordlessScan | pkg/daemon/pathwatch.go:154-163 | A peer without a record is left alone with its memory. |
| PathWatch.SilentPeerIsReset | pkg/daemon/pathwatch.go:44-63 | A peer that stays silent is probed at three scans and reset at the fourth. |
| PathWatch.RestsAfterReset | pkg/daemon/pathwatch.go:154-212 | A reset peer that stays silent is left alone for two minutes ... |
| PathWatch.ProbedAgain | pkg/daemon/pathwatch.go:154-212 | ... and probed again at the first scan after that. |
| PathWatch.ForgottenWhenIdle | pkg/daemon/pathwatch.go:123-151 | A peer nobody uses is forgotten. |
| CapState.LoadRecords | cmd/pilotctl/appstore.go:2317-2387 | A log is accepted if and only if it parses and, with a key, is all plain or one intact chain; the records are exactly its entries. |
| CapState.BrokenLink | cmd/pilotctl/appstore.go:2355-2375 | One broken link refuses the log, whatever follows. |
| CapState.CapStore.constructor | cmd/pilotctl/appstore.go:2433-2454 | The store starts from the anchor it finds. |
| CapState.CapStore.LoadAnchored | cmd/pilotctl/appstore.go:2500-2555 | Accepted exactly when the log continues the anchor (or there is none and strictness allows it); a corrupt anchor, a plain log after an anchored chain and, if strict, a chain without anchor are refused and leave the anchor; it only moves forward. |
| CapState.ChainDetermines | cmd/pilotctl/appstore.go:2355-2375 | Two chains that agree on one chain value agree on everything before it. |
| CapState.AdmitsExtensionsOnly | cmd/pilotctl/appstore.go:2500-2555 | With an anchor taken from a chain, a chain is accepted if and only if it continues that chain. |
| CapState.AnchorRemembers | cmd/pilotctl/appstore.go:2500-2555 | From any anchor found first, the anchor comes from a chain that continues every authenticated log accepted so far. |
| CapState.AcceptedLogsGrow | cmd/pilotctl/appstore.go:2500-2555 | Accepted authenticated logs are prefix-monotone over any run from any anchor, whatever the log file was changed to in between. |
| CapState.CorruptRefusesAll | cmd/pilotctl/appstore.go:2433-2454 | From an unreadable or forged anchor no load of any run is accepted. |
| CapState.FirstLogAnchored | cmd/pilotctl/appstore.go:2524-2535 | The first authenticated log is accepted unless strict, and anchored whole. |
| CapState.AnchorFollows | cmd/pilotctl/appstore.go:2540-2555 | A longer chain moves the anchor to its end. |
| CapState.EntriesAre | cmd/pilotctl/appstore.go:2330-2345 | The entries are the lines that are not blank. |
| CapState.Used | cmd/pilotctl/appstore.go:2068-2084 | The report is the true sum modulo 2^64. |
| CapState.OthersCountNothing | cmd/pilotctl/appstore.go:2072-2084 | Records of another asset or from before the cutoff count for nothing. |
| CapState.EachCountsOnce | cmd/pilotctl/appstore.go:2072-2084 | Every other record counts for exactly its amount, wherever it stands. |
| CapState.SpentSplits | cmd/pilotctl/appstore.go:2072-2084 | The sum over a log is the sum over a prefix plus that over the rest. |
| CapState.UsageNeverDecreases | cmd/pilotctl/appstore.go:2072-2084 | The true sum never decreases over a run; the reported one keeps that if and only if nothing carries out of 64 bits. |
| CapState.WrappedUsage | cmd/pilotctl/appstore.go:2072-2084 | Two accepted spends that report as nothing spent. |
| ReplyWatch.ScanFinds | cmd/pilotctl/firstcontact.go:410-464 | A pass ends with the first reply naming ours, or with whether another request was named and the oldest untagged message. |
| ReplyWatch.TakenIsOurs | cmd/pilotctl/firstcontact.go:390-405 | With an ID registered no message naming another request is taken. |
| ReplyWatch.NamedReplyWins | cmd/pilotctl/firstcontact.go:410-464 | A reply naming ours beats every untagged message of the same poll, the oldest such reply first. |
| ReplyWatch.TakenFromFile | cmd/pilotctl/firstcontact.go:418-448 | Whatever a poll takes or newly holds is the message of a listed file: no directory, not in the snapshot, modified since, and from the peer. |
| ReplyWatch.NamedFileTaken | cmd/pilotctl/firstcontact.go:410-464 | A reply naming ours in such a file is never passed over. |
| ReplyWatch.FirstUntaggedTaken | cmd/pilotctl/firstcontact.go:474-486 | To a request without its ID, an untagged message from the peer is enough for a reply. |
| ReplyWatch.OldestTakenWithoutIDs | cmd/pilotctl/firstcontact.go:390-405 | With no ID registered the oldest new message from the peer is the reply, whatever it names. |
| ReplyWatch.HeldIsThere | cmd/pilotctl/firstcontact.go:474-478 | A poll that takes nothing holds only a message that is in the inbox now. |
| ReplyWatch.HoldStartIs | cmd/pilotctl/firstcontact.go:486-499 | A hold starts when the message arrived, not in the future and not before the acknowledgement. |
| ReplyWatch.InboxWatch.constructor | cmd/pilotctl/firstcontact.go:255-277 | A new watch has the snapshot and no ID, tag or held message. |
| ReplyWatch.InboxWatch.AddID | cmd/pilotctl/firstcontact.go:358-368 | An ID is registered; the empty one is not. |
| ReplyWatch.InboxWatch.MarkTagged | cmd/pilotctl/firstcontact.go:375-379 | The request went out with its ID. |
| ReplyWatch.InboxWatch.UntaggedReply | cmd/pilotctl/firstcontact.go:474-503 | The decision on the oldest untagged message and the hold it leaves. |
| ReplyWatch.InboxWatch.Poll | cmd/pilotctl/firstcontact.go:410-464 | One poll fails only on an unreadable inbox, and takes and remembers what the pass decides. |
| ReplyWatch.InboxWatch.Await | cmd/pilotctl/firstcontact.go:556-621 | The wait ends at the first turn that does not go on: on an unreadable inbox, with what the poll took, or, past the budget with no re-send in flight, with what is held. |
| ReplyWatch.AwaitedResends | cmd/pilotctl/firstcontact.go:592-607 | At most one re-send, and one exactly if a turn found it due; a wait without a reply taken lasted its budget and half of one from a re-send's acknowledgement. |
| ReplyWatch.InboxWatch.PollTurn | cmd/pilotctl/firstcontact.go:556-575 | One turn's poll sees the IDs and tag a re-send registered meanwhile. |
| ReplyWatch.AwaitedReply | cmd/pilotctl/firstcontact.go:556-621 | Over a whole wait with an ID registered, the reply names ours or none, and ours once tagged and the peer named another. |
| ReplyWatch.AwaitedFromPeer | cmd/pilotctl/firstcontact.go:556-621 | The reply of a whole wait, taken or held, is the message of such a file of one of its turns. |
| ReplyWatch.PollKeepsHeld | cmd/pilotctl/firstcontact.go:474-513 | With an ID registered only a message naming no request is ever held. |
| ReplyWatch.TakenOnceEchoed | cmd/pilotctl/firstcontact.go:474-503 | Tagged, and the peer seen naming another request: only a reply naming ours is taken. |
| ReplyWatch.EchoedForGood | cmd/pilotctl/firstcontact.go:410-464 | Over any schedule, IDs, the tag and the peer's echoing are never forgotten. |
| ReplyWatch.OnlyOursOnceEchoed | cmd/pilotctl/firstcontact.go:410-513 | Over any inbox growth and schedule, from then on only replies naming ours are taken and no held message is given out. |
| ReplyWatch.HeldThroughout | cmd/pilotctl/firstcontact.go:474-503 | While a message stays the oldest untagged one its hold start does not move, its own or the one it walked into. |
| ReplyWatch.HoldDecides | cmd/pilotctl/firstcontact.go:474-525 | Such a message is taken if and only if 750 ms have passed since that start. |
| ReplyWatch.GraceRespected | cmd/pilotctl/firstcontact.go:474-525 | Its own grace is kept at every later poll if and only if nothing was held at its first one, or since no earlier than its own start. |
| ReplyWatch.HoldIsInherited | cmd/pilotctl/firstcontact.go:485-499 | A run in which a message is taken 1 ms after it arrived. |
| LogSlots.MidShiftOrdered | internal/logcap/logcap.go:564-589 | A shift stopped after any step leaves the generations newest to oldest. |
| LogSlots.MidUnshiftOrdered | internal/logcap/logcap.go:593-605 | So does an unshift stopped after any step. |
| LogSlots.UnshiftRestores | internal/logcap/logcap.go:593-605 | Undoing a complete shift restores slots 1..keep exactly, gaps included. |
| LogSlots.ShiftedUp | internal/logcap/logcap.go:564-589 | After a complete shift slot g holds the old slot g-1. |
| LogSlots.LogDisk.RenameGen | internal/logcap/logcap.go:579-587 | A rename moves one generation whole, or finds none, or changes nothing. |
| LogSlots.LogDisk.RemoveGen | internal/logcap/logcap.go:570-578 | A removal drops one generation or changes nothing. |
| LogSlots.LogDisk.DropBeyond | internal/logcap/logcap.go:570-578 | Only generations beyond keep are dropped. |
| LogSlots.LogDisk.ShiftBackups | internal/logcap/logcap.go:564-589 | The disk is at a known point of the shift; it completes exactly when no slot is foreign and the renames succeed; the oldest is parked. |
| LogSlots.LogDisk.UnshiftBackups | internal/logcap/logcap.go:593-605 | The disk is at a known point of the unshift, complete when the renames succeed. |
| LogSlots.LogDisk.DropParked | internal/logcap/logcap.go:608-612 | Only the parked generation goes. |
| LogSlots.LogDisk.Compress | internal/logcap/logcap.go:768-804 | Slot 1 is written whole or not at all, and the copy goes only after it. |
| LogSlots.LogDisk.FinishStaged | internal/logcap/logcap.go:625-656 | Finishing an interrupted copy keeps the order and never overwrites a different generation; it succeeds when it can, and leaves a copy in use alone. |
| LogSlots.LogDisk.CreateStaged | internal/logcap/logcap.go:710-732 | On success the copy is the whole log. |
| LogSlots.LogDisk.Stage | internal/logcap/logcap.go:420-439 | Succeeds whenever the copy can be staged; then slot 1 is free, the rest shifted and the copy staged. On failure the order holds and no parked generation stays. |
| LogSlots.LogDisk.Unstage | internal/logcap/logcap.go:300-309 | The copy goes before the generations move down; one that stays finds slot 1 free. |
| LogSlots.LogDisk.Commit | internal/logcap/logcap.go:274-281 | The copy becomes generation 1, the others stay, the parked one goes. |
| LogSlots.LogDisk.Rotate | internal/logcap/logcap.go:239-293 | All or nothing: a log that can be copied is backed up before it is truncated; one that cannot be truncated keeps every generation exactly; with its backup every slot moves up by one and only the oldest is dropped; a copied log is never lost. |
| LogSlots.LogDisk.RunRounds | internal/logcap/logcap.go:228-293 | Over any sequence of rotations, failures and kills the generations are newest to oldest and a staged copy fits slot 1. |
| StagedCopy.ActWarranted | internal/logcap/logcap.go:625-656 | Each step's effect is warranted by what the process saw or already held. |
| StagedCopy.Invariant | internal/logcap/logcap.go:710-763 | Over every interleaving, who works on a copy holds its lock and the name points at it, where there is flock. |
| StagedCopy.OneWorkerPerCopy | internal/logcap/logcap.go:740-763 | Two processes never work on one staged copy, where there is flock. |
| StagedCopy.AloneNeedsFlock | internal/logcap/logcap.go:734-763 | That holds of all runs if and only if the file system has flock. |
| StagedCopy.FinisherLeavesLiveCopies | internal/logcap/logcap.go:625-656 | A finisher compresses only a copy no rotation holds; an orphan finisher, flock or not, only one whose maker is past it for good. |
| StagedCopy.RotationStaysOver | internal/logcap/logcap.go:740-763 | A process past a copy never holds it as its own again. |
| StagedCopy.Unhindered | internal/logcap/logcap.go:625-656 | A process nobody is in the way of goes on to lock the copy ... |
| StagedCopy.UnhinderedHolder | internal/logcap/logcap.go:710-763 | ... and, holding it, to copy, compress and unlink it. |
| StagedCopy.GivesWay | internal/logcap/logcap.go:625-656 | One that finds the lock taken, the name moved on or another log's copy empty ends with nothing held or changed. |
| StagedCopy.OtherSteps | internal/logcap/logcap.go:710-732 | A rotation writes only its own copy and unlinks it when it gives up. |
| StagedCopy.LeavingReleases | internal/logcap/logcap.go:704-732 | Who returns or dies holds no lock, and the name stays. |
| AppTree.SkipMeansStopped | cmd/pilotctl/appstore_state.go:362-367 | A walk that skips below stopping directories comes to an entry exactly when no directory above it stops. |
| AppTree.WalkDir | cmd/pilotctl/appstore_state.go:331-336 | Every entry is listed once, directories before what is in them. |
| AppTree.VolatileName | cmd/pilotctl/appstore_state.go:480-488 | Database sidecars, lock files and temporaries are volatile, by suffix. |
| AppTree.SockName | cmd/pilotctl/appstore_state.go:727-729 | A name ending in .sock is a socket's. |
| AppTree.OrdinaryName | cmd/pilotctl/appstore_state.go:480-488 | Names with other endings are neither. |
| AppCarry.CarryEntry | cmd/pilotctl/appstore_state.go:336-440 | What the carry does with one entry it comes to. |
| AppCarry.CarryAll | cmd/pilotctl/appstore_state.go:324-450 | The new dir is path by path the bundle plus what is carried, the record is exact, and only a broken entry fails it. |
| AppCarry.StateIsCarried | cmd/pilotctl/appstore_state.go:324-450 | State the bundle leaves room for is carried with its content, or is in an entry left for the move. |
| AppCarry.CarriedOk | cmd/pilotctl/appstore_state.go:324-450 | The carried tree is a proper tree. |
| AppCarry.CarryLeavesOut | cmd/pilotctl/appstore_state.go:362-440 | The bundle wins; control files, the old binary and sockets are never carried. |
| AppCarry.ControlNames | cmd/pilotctl/appstore_state.go:132-149 | The control files by name. |
| AppCarry.CarriedNode | cmd/pilotctl/appstore_state.go:371-440 | A linked file is the same file, a copied one has the same bytes, a symlink the same target. |
| AppMerge.CarriedFileMerges | cmd/pilotctl/appstore_state.go:682-765 | Three-way merge of every carried file whose parent dir is still in the new install: the new dir's change or removal wins, else the old dir's change is taken or reported, else untouched; volatile files included. |
| AppMerge.MergeByFingerprint | cmd/pilotctl/appstore_state.go:734-794 | The law in inode, size and modification time: a new copy that differs in any wins, an old file that agrees in all changes nothing, one that differs in any has its bytes in the new dir or is reported. |
| AppMerge.LinkMergesByTarget | cmd/pilotctl/appstore_state.go:747-764 | For a symlink the target counts too. |
| AppMerge.CarriedIsVisited | cmd/pilotctl/appstore_state.go:682-722 | Reconcile comes to every such file. |
| AppMerge.VisitedMerges | cmd/pilotctl/appstore_state.go:734-764 | The same law for any carried file reconcile comes to. |
| AppMerge.NewFileMerges | cmd/pilotctl/appstore_state.go:734-746 | A file new in the old dir is added only if the new dir has none, or reported. |
| AppMerge.NewEntryArrives | cmd/pilotctl/appstore_state.go:700-746 | A new file or directory below a directory of the new install arrives or is reported. |
| AppMerge.NewIsVisited | cmd/pilotctl/appstore_state.go:682-709 | Reconcile comes to every such entry. |
| AppMerge.DeletedFileMerges | cmd/pilotctl/appstore_state.go:767-783 | A carried file gone from the old dir is dropped if and only if volatile and unchanged in the new one (and removable). |
| AppMerge.DeletedByFingerprint | cmd/pilotctl/appstore_state.go:767-783 | The same in inode, size and modification time. |
| AppMerge.UnreadableMerges | cmd/pilotctl/appstore_state.go:664-678 | An entry left for the move goes across with everything below it, or is reported. |
| AppMerge.UnreadableMoves | cmd/pilotctl/appstore_state.go:664-678 | It goes across if and only if its name is free, its parent is there and the rename succeeds. |
| AppMerge.LeftoverComplete | cmd/pilotctl/appstore_state.go:660-788 | What should move is taken or reported if and only if no directory above it is left out silently, it is listed and can be looked at, and it is not dropped for a stale copy. |
| AppMerge.DirectoryHidesFile | cmd/pilotctl/appstore_state.go:700-709 | A file that should move and is neither taken nor reported. |
| AppMerge.UnlistableHidesFile | cmd/pilotctl/appstore_state.go:682-686 | So does a new directory this user cannot list. |
| AppMerge.ReplacementLost | cmd/pilotctl/appstore_state.go:803-836 | An entry is in neither tree if and only if it replaces a carried file, can be neither linked nor read, and its rename fails (over different content) or it is dropped for a stale copy. |
| AppMerge.ReplacementIsLost | cmd/pilotctl/appstore_state.go:822-836 | A replacement in neither tree. |
| AppMerge.QuietEntryKept | cmd/pilotctl/appstore_state.go:747-757 | With both trees as the carry left them a carried entry stays in both. |
| AppMerge.MoveUnreadable | cmd/pilotctl/appstore_state.go:664-678 | The first loop moves entries whole, independent of order, killed at any point. |
| AppMerge.Decide | cmd/pilotctl/appstore_state.go:692-764 | What the walk does with one entry, from what it sees of both copies. |
| AppMerge.WalkPrior | cmd/pilotctl/appstore_state.go:680-766 | Killed at any point the trees are the merge of what was walked. |
| AppMerge.DropVolatile | cmd/pilotctl/appstore_state.go:767-783 | Exactly the volatile files deleted from the old dir and left alone are dropped. |
| AppMerge.Reconcile | cmd/pilotctl/appstore_state.go:660-788 | Killed anywhere nothing unchanged is lost, the bundle is untouched and both trees are proper; completed, the new dir is the merge and all three lists of the report are exact. |
| AppMerge.CarrySeparates | cmd/pilotctl/appstore_state.go:324-450 | Nothing carried is at, above or below an entry left for the move. |
| AppMerge.QuietConserves | cmd/pilotctl/appstore_state.go:660-788 | With the app quiet no state the bundle leaves room for is lost, even by a reconcile that is killed. |
| AppMerge.QuietCarriesAll | cmd/pilotctl/appstore_state.go:660-788 | ... and with nothing left over all of it is in the new install. |
| AppMerge.QuietLeftover | cmd/pilotctl/appstore_state.go:660-788 | With the app quiet, left over is exactly what was left for the move and could not be moved. |
| AppBackups.RoutineMeansCarried | cmd/pilotctl/appstore_state.go:892-905 | A backup is of a routine kind if and only if the state was kept, carried in full, from a readable install; an upgrade if and only if the versions differ too. |
| AppBackups.PinnedUnlessStale | cmd/pilotctl/appstore_state.go:1085-1096 | A pinned backup is never prunable, whatever happens, if and only if the dir held no routine metadata. |
| AppBackups.StripIsExact | cmd/pilotctl/appstore_state.go:1101-1128 | A finished backup holds everything but the old binary and sockets, contents unchanged. |
| AppBackups.StaleMetadataIsPruned | cmd/pilotctl/appstore_state.go:1212-1237 | An uninstalled app's backup that retention removes. |
| AppBackups.OfKind | cmd/pilotctl/appstore_state.go:1212-1228 | The listing of a kind holds exactly the backups whose readable metadata says so. |
| AppBackups.PruneKind | cmd/pilotctl/appstore_state.go:1226-1235 | Only the oldest beyond keep go; each is tried, and a removal that fails leaves its remainder. |
| AppBackups.PruneBackups | cmd/pilotctl/appstore_state.go:1212-1237 | Retention touches nothing else, and leaves exactly the rest when removals succeed. |
| AppBackups.OutdatedIsPrunable | cmd/pilotctl/appstore_state.go:1212-1237 | What retention removes is of a routine kind by its readable metadata. |
| AppBackups.NewestAreKept | cmd/pilotctl/appstore_state.go:1212-1237 | The newest three of a kind are never removed. |
| AppBackups.OldestGo | cmd/pilotctl/appstore_state.go:1226-1235 | All older ones of a routine kind are outdated. |
| AppBackups.ListPlace | cmd/pilotctl/appstore_state.go:1174-1205 | The backups of one place, each once, oldest first. |
| AppInstall.StrippedHolds | cmd/pilotctl/appstore_state.go:1101-1128 | Stripping a backup keeps every content but the old binary. |
| AppInstall.FinishKeeps | cmd/pilotctl/appstore_state.go:1085-1128 | Finishing a pinned backup, or being killed meanwhile, keeps what it held out of retention's reach. |
| AppInstall.PruneKeeps | cmd/pilotctl/appstore_state.go:1212-1237 | Retention leaves every kept content kept. |
| AppInstall.CopyKeeps | cmd/pilotctl/appstore_state.go:1038-1074 | A copy for a backup keeps every content but the old binary. |
| AppInstall.Installer.FreshSlot | cmd/pilotctl/appstore_state.go:1004-1010 | The name found is not taken. |
| AppInstall.Installer.MoveTo | cmd/pilotctl/appstore_state.go:996-1033 | The dir is at the location in full before anything of it is removed; what is left is not adoptable if its manifest could be disabled or was gone. |
| AppInstall.Installer.CopyTo | cmd/pilotctl/appstore_state.go:1018-1032 | Across file systems the copy keeps everything kept, killed between any two steps; a failed removal leaves a known remainder, in place or parked. |
| AppInstall.RestInert | cmd/pilotctl/appstore_state.go:1022-1032 | A remainder never has a manifest if and only if disabling it succeeded or there was none. |
| AppInstall.AdoptableRemainder | cmd/pilotctl/appstore_state.go:1022-1032 | A remainder the supervisor would adopt. |
| AppInstall.Installer.FinishAt | cmd/pilotctl/appstore_state.go:1085-1128 | Finishing, killed before, during or after the strip, and retention keep every other backup's content and, for a pinned kind, this one's. |
| AppInstall.Installer.Park | cmd/pilotctl/appstore_state.go:968-981 | When every location fails the dir is parked or stays, its content kept. |
| AppInstall.Installer.Retire | cmd/pilotctl/appstore_state.go:925-982 | Under every pattern of failures and a kill anywhere, kept content stays kept; a pinned kind keeps the retired dir's own. Smoothly run the dir is finished at the first usable location and exactly the outdated backups there are gone. |
| AppInstall.Installer.RetireTo | cmd/pilotctl/appstore_state.go:945-965 | One location takes the dir or leaves it as it was; smoothly run the finished backup and the retention there are exact. |
| AppInstall.PinnedIsThere | cmd/pilotctl/appstore_state.go:925-982 | A pinned backup made without trouble is there afterwards, with its kind and everything but the binary. |
| AppInstall.BackupLeavesBinary | cmd/pilotctl/appstore_state.go:1101-1128 | The backup of an install does not hold its binary. |
| AppInstall.Installer.Discard | cmd/pilotctl/appstore_state.go:614-627 | Staging is gone exactly when the removal succeeds; nothing else changes. |
| AppInstall.Installer.Swap | cmd/pilotctl/appstore_state.go:531-587 | The old install is whole at the live place or beside it at every moment; success is staged in, old aside; a failure restores it unless undoing fails too. |
| AppInstall.Installer.RollBack | cmd/pilotctl/appstore_state.go:547-573 | The old install is put back, or stays whole beside the live place. |
| AppInstall.Installer.Recover | cmd/pilotctl/appstore_state.go:207-238 | The current install stays the same and nothing kept is lost; smoothly run no remnant is left; without remnants nothing changes. |
| AppInstall.SwapGuards | cmd/pilotctl/appstore_state.go:531-587 | Wherever a swap stops, kept content is still kept. |
| AppInstall.Installer.Stage | cmd/pilotctl/appstore.go:1423-1553 | On success staging is the manifest, the bundle and the carried state; a failure changes nothing else, and leaves nothing with a manifest. |
| AppInstall.StagedLeavesBinary | cmd/pilotctl/appstore_state.go:307-310 | The old binary is in the new install only if the bundle ships it. |
| AppInstall.MergedIsInstall | cmd/pilotctl/appstore.go:1570-1581 | Reconciling leaves the installed bundle complete. |
| AppInstall.MergeKeeps | cmd/pilotctl/appstore.go:1570-1581 | After reconciling, killed or not, spared state is kept in the old or the new dir. |
| AppInstall.MergeArrives | cmd/pilotctl/appstore.go:1570-1581 | With nothing left over, spared state is in the new install. |
| AppInstall.Installer.BringAcross | cmd/pilotctl/appstore.go:1570-1581 | The reconcile step on the two dirs: both properties, and a complete install. |
| AppInstall.Installer.Settle | cmd/pilotctl/appstore.go:1570-1598 | After the swap, spared state stays kept through reconcile, retire and retention. |
| AppInstall.Installer.Replace | cmd/pilotctl/appstore.go:1558-1602 | From a filled staging dir on: the same promises, and the replaced install backed up with the kind it earned. |
| AppInstall.Installer.Install | cmd/pilotctl/appstore.go:1374-1602 | Finished, failed or killed anywhere: spared state is kept, the app has its old install or a complete new one, no replacement without --force, a full carry arrives, no staging dir stays, and the replaced install is backed up with its kind. |
| AppInstall.SmoothInstallsExist | cmd/pilotctl/appstore.go:1374-1602 | Outcomes without trouble exist, so what is promised of them is promised of some. |
| AppInstall.Installer.InstallThenRecover | cmd/pilotctl/appstore.go:1384-1395 | After any interrupted install, recovery leaves the complete old or new install live without remnants, and repeating it changes nothing. |
| AppInstall.Installer.Uninstall | cmd/pilotctl/appstore.go:809-871 | Nothing kept is lost, what stays is never adoptable, and smoothly run the dir is a pinned backup. |
| AppInstall.Installer.RunOp | cmd/pilotctl/appstore.go:1374-1602 | One command or app write keeps state it spares. |
| AppInstall.Installer.RunOps | cmd/pilotctl/appstore_state.go:892-982 | Over any run of installs, upgrades, resets, uninstalls and app writes, each finished, failed or killed, spared state is never lost and never in retention's reach. |
| InstallLock.Invariant | cmd/pilotctl/appstore_lock.go:44-82 | Over every interleaving all processes lock one file, a tenure holds it, and dirs are marked by tenures that made them. |
| InstallLock.OneHolder | cmd/pilotctl/appstore_lock.go:44-82 | At most one process is in its tenure. |
| InstallLock.OnlyHoldersTouch | cmd/pilotctl/appstore.go:1374-1394 | Only a holder changes the dirs beside the live one. |
| InstallLock.TenureStaysOver | cmd/pilotctl/appstore_lock.go:73-81 | A tenure that is over never comes back. |
| InstallLock.TenuresDoNotInterleave | cmd/pilotctl/appstore.go:1374-1382 | No other process works between two moments of one tenure, so the runs of AppInstall are all there are. |
| InstallLock.RecoveryActsOnRemnants | cmd/pilotctl/appstore_state.go:207-238 | Recovery acts only on what a tenure left that is over, for good. |
| InstallLock.RemnantsOfTheDead | cmd/pilotctl/appstore_lock.go:15-30 | If no process gives the lock back with a dir of its own in place, every remnant is a dead process's. |
| InstallLock.MakerStillRuns | cmd/pilotctl/appstore_lock.go:15-30 | If one does, with a previous or a staging dir, the next holder's recovery acts on a dir of a running process. |
| InstallLock.PreviousLeftBehind | cmd/pilotctl/appstore_lock.go:15-30 | A run in which that happens. |
| InstallLock.StagingLeftBehind | cmd/pilotctl/appstore_update.go:286-297 | Another, with a staging dir and a process that goes on to the next app. |
| InstallLock.DeadStayDead | cmd/pilotctl/appstore_lock.go:28-30 | A dead process never acts again. |
| InstallLock.LockNeverStuck | cmd/pilotctl/appstore_lock.go:28-30 | With no process in its tenure the next try gets the lock, whoever was killed before. |
| InstallLock.HolderSteps | cmd/pilotctl/appstore_state.go:531-587 | What a holder's steps do to the dirs beside the live one. |
| InstallLock.NeverOverwrites | cmd/pilotctl/appstore_state.go:533-536 | A dir set aside or being filled is never overwritten. |
| InstallLock.WaitingChangesNothing | cmd/pilotctl/appstore_lock.go:53-72 | A process that finds the lock taken changes nothing, and neither does giving up. |

## Left out

- AppInstall.Installer.RunOps: the app is quiet while a command runs, as the promise says; what a reconcile does with concurrent changes is stated path by path in AppMerge. App writes are whole files: a write in place through a hard link also reaches a backup's copy of that file, which a path that is not rewritten never sees.
- AppInstall.Installer.Stage: what a failed or killed step leaves in staging is an arbitrary tree, and the binary's checksum is part of the step's outcome.
- AppInstall.Installer.Swap: the verification of the new dir is an outcome; what it compares is not modelled.
- AppInstall.Installer.Uninstall: stopping the app's processes and the audit records.
- AppCarry.CarryAll: directory modes and temporary permission changes are part of each entry's outcome. The sideload marker's name comes from a library outside the repository; `.sideloaded` stands for it.
- InstallLock.Invariant: the five-minute limit of a waiter, after which it fails without a step, as it does on a file system without flock; both are the step GiveUp.
- HandshakePoll.ShutdownIsFinal: the deadline of shutdown; it is stated for a shutdown that returns true.
- LogSlots.LogDisk.RunRounds: sizes and the choice of when to rotate, the back-off after failed truncates, and writes by the daemon between the copy and the truncate.
- StagedCopy.Invariant: one name of one log directory; the search for other logs' copies is the `Look` step.
- CapState.LoadRecords: JSON, base64, key derivation and HMAC are an injective function from a record and the previous value.
- ReplyWatch.InboxWatch.Await: sleeping between polls; the turns the clock allows are an input.
- AddrWatch.Watcher.RunTick: how a recovery talks to the beacon, the registry and the peers; its outcome is an input.
- PathWatch.ResetFollowsSilence: that inbound records are stamped when they are written (pkg/daemon/keyexchange/keyexchange.go:630-634) is part of the input, as Truthful.
- PathWatch.PathWatcher.Tick: what a probe and a reset do to a session, and give-ups of the rekey machinery.
- Catalogue fetching, tar extraction, platform checks, HTTP, proxies and the CONNECT relay: input and output over libraries outside the repository.
- The tunnel manager, the registry client, the handshake plugin and the loops that drive the schedulers: their answers are inputs.
- Waiting for an app to start (appstore_startwait.go): supervisor lines do not name an instance, so only weak laws hold.
- Semver comparison, next-steps scoring, registry selection, resendDelay and retryAfter: each computes one value from its arguments and keeps no state between calls.
- Catalogue lint, managed prune and fill, and the event bus: separate features; the modelled code reads nothing of theirs and at most sends the bus a notice.
- Command-line parsing, help, hints, rendering, telemetry and updates: user interface.
