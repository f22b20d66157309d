# A Dafny model of HiveWard's small hard cores

HiveWard is a desktop shell around coding agents. Much of its correctness sits in small pieces that
are hard to see through: protocols between processes, bounded walks over hostile input, hand-written
scanners, in-place tables. This project models a dozen of them and proves what each is for, over every
input, every run or every reachable state. To check it, use Dafny 4.11: `dafny verify dfyconfig.toml`.

| file | what it models |
|---|---|
| `MessageMeasure.dfy`, `SendBudget.dfy` | the size measure and the sliding-window send budget of a plugin-frame guest |
| `HostMeasure.dfy`, `HostSizes.dfy` | the host's size measure of the same messages, and when the guest's admission implies the host's |
| `KeyElection.dfy`, `KeyOutcomes.dfy` | mock servers racing for one persisted key pair, and how each of them ends |
| `SyncFanout.dfy`, `SyncRuns.dfy`, `SyncListeners.dfy` | the fan-out of storage.sync changes over pages, worker and content scripts |
| `ListenChannel.dfy`, `ListenRuns.dfy`, `LineFraming.dfy` | the worker's listen registrations over reconnects, and the framing of its event stream |
| `NativePorts.dfy`, `NativeFates.dfy` | native messaging ports |
| `OptionScanner.dfy`, `OptionSyntax.dfy`, `OptionCalls.dfy`, `OptionOperands.dfy`, `OptionRefusals.dfy` | the two scanners that read call option keys, and a syntax of calls to prove them against |
| `TabCompaction.dfy`, `TreeRenderer.dfy`, `TreePages.dfy` | the accessibility tree renderer, its compaction of browser tabs, and what a complete rendering reads like |
| `EntryGuard.dfy` | the build guard that keeps Electron out of plain-Node module graphs |
| `ClipboardOwner.dfy`, `ClipboardRuns.dfy` | the Wayland clipboard owner's table of transfers |
| `CliArgs.dfy`, `CliItems.dfy`, `CliRoundTrip.dfy` | the command-line parser, its grammar and a canonical printer |
| `RunsPaging.dfy` | reading all automation runs page by page |
| `StorageRelay.dfy` | published storage differences and the mirror that follows them |

Each core has a reference meaning in functions, the program's own loops and updates as methods of
the same shape proved equal to it, and the main results as lemmas about whole runs. Protocols
between processes are step machines: a step is one operation of one participant, and a run is any
sequence of steps. What the steps of a run come to is then told a second time by the steps alone,
without the functions that define a step, and proved to be the same. What comes from outside (clocks, poll and write results, file faults, replies,
the order of messages) is a parameter of the step.

Some promises do not hold as they read. For each the model has an input on which it fails, and the
exact condition under which it holds for all the inputs that its bullet names:

- **The send window** (`plugin-frame-guest-send-budget.ts`) depends on the clock and on how large a
  message can be. For every rate that can admit a byte and every cap on messages, every window keeps
  the rate, whatever is sent, exactly when no crowd of calls shares a window of which the first had
  been outlived by a whole period in between; a crowd is as many calls as the rate needs messages to be
  broken (`WindowsHoldExactlyWithoutCrowd`). At the shipped rate and lanes that is three
  (`ShippedWindowsHoldExactly`), and four files can put 256 MiB into a window for 160 MiB
  (`BackwardClockBreaksTheWindow`). A clock that never steps back makes no crowd
  (`EveryWindowWithinRate`).
- **Sizes in UTF-8**, which line 4 of that file promises, holds for string values; object keys are
  counted in code units. The guest's size is the UTF-8 size exactly when every key is ASCII, and
  short of it otherwise (`Utf8SizeExactlyForAsciiKeys`, `AccentedKeyIsShort`).
- **A message this admits is one the host can admit too**, which line 5 promises, fails: the host
  charges entries and keys that the guest does not (`ManyNumbersAreRefused`), and views, maps and sets
  hide their size from the guest (`ViewsHideTheirBuffer`, `MapsHideTheirEntries`). For plain messages
  the promise holds exactly when the guest's size and the toll the host adds fit the host's cap
  together (`AdmissionCarriesOverExactly`, `AdmissionWithoutRepeats`).
- **One persisted key** needs the lock holder to be able to read a key that is there. From every good
  world one unreadable answer to it, and no other step, lets returned keys fork
  (`OnlyBadReadsForkKeys`, `KeysAgreeExactlyWhenReliable`).
- **No posts on a closed port, and none before the connect reply** holds exactly when no message
  disconnects its own port while it is serialized (`SilentExactlyWhenOrderly`,
  `WaitsExactlyWhenPatient`): the state is checked before the serialization and read again after it.
- **A worker's listen calls** that fail are not sent again. Main then agrees with the listeners exactly
  when it knows the truth of the events whose last call was lost (`DrainingAgreesExactly`). A reconnect
  makes up for lost adds and filter updates and for no lost removal (`ReconnectHealsExactly`,
  `LostRemovalStays`).
- **No hidden option keys**, which line 1 of `config/scripts/call-site-option-keys.ts` promises,
  fails in four ways:
  - quoted keys: `({'port': 1})` reads as a call without keys (`QuotedPortIsHidden`);
  - literals behind the first one: `({a: 1}, {b: 2})` and `({a: 1} || {b: 2})` read as having the one
    key `a` (`SecondArgumentIsHidden`);
  - a quote in a regular expression, which hides every entry up to the next quote, as in
    `({a: /'/, b: /'/})` (`QuoteInRegexHidesEntries`, `RegexHidesB`);
  - a line comment that ends in anything but a newline (`LineEndInCommentHidesEntries`,
    `CarriageReturnHidesB`).

  The printed calls of the model leave out the last two: their regular expressions hold no quote,
  bracket or comment opener and have code behind them, and their line comments end in a newline. For
  these calls a readable answer hides an entry exactly when a key is quoted or a further literal has an
  entry (`FurtherLiteralsAreHidden`, and `QuotedKeysAreHidden` for a single literal).
- **A mirror of the published changes equals the area** under every key but `__proto__`, which the
  plain object that collects the changes cannot hold. With that key it does exactly when the area
  holds there what it held at first (`MirrorEqualsArea`, `ProtoIsSilent`).

## Model

| member | source | states |
|---|---|---|
| MessageMeasure.Utf8AtLeastUnits | src/browser-preload/plugin-frame-guest-send-budget.ts:46-48 | a string is at least as long in UTF-8 bytes as in code units, so a string over the cap in units is over it in bytes |
| MessageMeasure.Utf8LengthCountsOctets | src/browser-preload/plugin-frame-guest-send-budget.ts:46-48 | the length of a string is the octets of the characters its units stand for, with one character for a surrogate pair and U+FFFD for a lone one |
| MessageMeasure.MeasureMessageBytes | src/browser-preload/plugin-frame-guest-send-budget.ts:33-66 | the early-stopping stack walk answers within the cap exactly when the recursive measure fits nodes, depth and bytes, and then answers that measure; it visits at most maxNodes + 1 nodes on any heap, cyclic ones included |
| MessageMeasure.MeasuredByKind | src/browser-preload/plugin-frame-guest-send-budget.ts:46-63 | the measure of a message within the levels is, over all nodes reached, the UTF-8 length of texts, the bytes of buffers and views, the units of keys, and 8 for each list and scalar |
| MessageMeasure.ReachedSizesCount | src/browser-preload/plugin-frame-guest-send-budget.ts:43-63 | whatever a message reaches through lists and fields counts in full: it never measures below a text, buffer, view or key in it |
| MessageMeasure.CyclesAreNeverShallow | src/browser-preload/plugin-frame-guest-send-budget.ts:43-45 | a value on a cycle exceeds every depth cap, so it never fits |
| MessageMeasure.VisitAccounts | src/browser-preload/plugin-frame-guest-send-budget.ts:46-63 | visiting one node moves its share from the stack to the count and loses nothing |
| HostMeasure.HostWalk.Visit | src/shared/plugins/frames/plugin-panel-message-budget.ts:83-201 | the host's recursive visit adds to its total, its count of objects and its set of seen objects what the recursive count of the value says, until the message is too much |
| HostMeasure.StructuredCloneMessageBytes | src/shared/plugins/frames/plugin-panel-message-budget.ts:68-205 | the host's size is within the cap exactly when nothing in the message is refused and its objects and bytes fit, and is then the count's bytes; cyclic messages included |
| HostSizes.ChargedByKind | src/shared/plugins/frames/plugin-panel-message-budget.ts:83-201 | what the host charges for a message without repeated objects, kind by kind over all nodes it looks into |
| HostSizes.HeldIsListed | src/shared/plugins/frames/plugin-panel-message-budget.ts:126-197 | it looks into everything that objects hold: buffers of views, keys and values of maps, entries of sets and lists, values of fields |
| HostSizes.TakenMessagesAreSmall | src/shared/plugins/frames/plugin-panel-message-budget.ts:79-124 | without repeated objects it takes a message only if everything in it can be cloned, its objects are no more than allowed and its charges fit |
| HostSizes.DeepMessagesAreRefused | src/shared/plugins/frames/plugin-panel-message-budget.ts:118-122 | and never one with a chain of objects longer than its levels |
| HostMeasure.AdmissionCarriesOverExactly | src/browser-preload/plugin-frame-guest-send-budget.ts:3-5 | a plain message that the guest admits fits the host exactly when the guest's size and the toll fit the host's cap: 4 per entry and key, the keys' extra UTF-8 bytes, a bigint's digits less 8, 7 less per flag, and 8 instead of its size for a repeated object |
| HostMeasure.AdmissionWithoutRepeats | src/shared/plugins/frames/plugin-panel-message-budget.ts:173-197 | without repeated objects the toll is the sum over all nodes of 4 per entry and key, the keys' extra UTF-8 bytes, a bigint's digits less 8, and 7 less per flag |
| HostMeasure.WiderCapAdmitsAll | src/browser-preload/plugin-frame-guest-send-budget.ts:3-5 | a host cap of three times the guest's plus 12 per node admits every plain message without bigints that the guest admits, repeated objects included |
| HostMeasure.NumberListsDiffer | src/shared/plugins/frames/plugin-panel-message-budget.ts:173-183 | for a list of n numbers the guest admits from 8 + 8n on, and the host any that the guest admits from 8 + 12n on |
| HostMeasure.ManyNumbersAreRefused | src/browser-preload/plugin-frame-guest-send-budget.ts:9 | the promise that an admitted message fits the host fails: 8000 numbers fit the shared lane of 66560 bytes, and neither the host's cap of 65536 nor one as wide as the lane |
| HostMeasure.ViewsHideTheirBuffer | src/shared/plugins/frames/plugin-panel-message-budget.ts:132-136 | a view of nothing is admitted by the guest whatever the size of its buffer, which the host charges |
| HostMeasure.MapsHideTheirEntries | src/shared/plugins/frames/plugin-panel-message-budget.ts:150-161 | a map of n numbers is admitted by the guest whatever n is, and by the host exactly from 8 + 20n on |
| HostMeasure.Utf8SizeExactlyForAsciiKeys | src/browser-preload/plugin-frame-guest-send-budget.ts:57-61 | on every heap the guest's size is at most the UTF-8 size, and equal to it exactly when every key reached is ASCII |
| HostMeasure.AccentedKeyIsShort | src/browser-preload/plugin-frame-guest-send-budget.ts:59 | the promise of UTF-8 sizes fails: a key of one accented letter counts one byte |
| SendBudget.Budget.EvictOld | src/browser-preload/plugin-frame-guest-send-budget.ts:100-103 | the loop evicts exactly the leading entries that left the window and keeps the byte count equal to the queue's total |
| SendBudget.EnvelopesHaveTheirLane | src/browser-preload/plugin-frame-guest-send-budget.ts:68-85 | a message with any method and event is charged its size up to 640 KiB for a render event, else up to 64 MiB and 4 KiB for the two methods with files, and else up to 65 KiB |
| SendBudget.Budget.Send | src/browser-preload/plugin-frame-guest-send-budget.ts:98-118 | one call: the new queue and the outcome, from the clock, the lane and the measure of the message |
| SendBudget.QueueStaysBounded | src/browser-preload/plugin-frame-guest-send-budget.ts:96-117 | the queue keeps both limits whatever the clock does |
| SendBudget.WindowsHoldExactlyWithoutCrowd | src/browser-preload/plugin-frame-guest-send-budget.ts:92-119 | for all call times, rates and caps on messages: whatever is sent, no interval (t - perMs, t] holds more messages or bytes than the rate allows, exactly when no interval holds as many calls as it takes to break the rate, from one that a whole period had outlived before the last of them |
| SendBudget.ShippedWindowsHoldExactly | src/browser-preload/plugin-frame-guest-send-budget.ts:25-29 | at the shipped rate, with messages of at most 64 MiB and 4 KiB, that takes three calls |
| SendBudget.EveryWindowWithinRate | src/browser-preload/plugin-frame-guest-send-budget.ts:92-119 | with a clock that never steps back every window keeps the rate, whatever is sent at whatever rate |
| SendBudget.RefusalIsExact | src/browser-preload/plugin-frame-guest-send-budget.ts:109-114 | a within-lane message is rate limited exactly when admitting it would break the window's bounds |
| SendBudget.BackwardClockBreaksTheWindow | src/browser-preload/plugin-frame-guest-send-budget.ts:99-103 | at the shipped rate a clock that steps back lets four files of 64 MiB into a window for 160 MiB |
| SendBudget.RefusedUntilDeadline | src/browser-preload/plugin-frame-guest-send-budget.ts:109-114 | whatever is sent in between, a retry before retryAfterMs is refused with the same deadline |
| SendBudget.WaitingAdmits | src/browser-preload/plugin-frame-guest-send-budget.ts:100-117 | waiting out each deadline in turn admits the message after at most as many refusals as queued entries |
| KeyElection.AcquireKeyLock | mobile/scripts/mock-server-key-pair.ts:53-89 | the bounded retry loop ends with the lock, another process's key or the busy error, as the process's positions say for every sequence of answers |
| KeyElection.OnlyBadReadsForkKeys | mobile/scripts/mock-server-key-pair.ts:48-50 | from every good world a step leaves all keys returned later in agreement exactly when it is not an unreadable answer about a valid key to the lock holder |
| KeyElection.KeysAgreeExactlyWhenReliable | mobile/scripts/mock-server-key-pair.ts:53-167 | in every run, no world on the way lets returned keys fork exactly when no such answer occurs |
| KeyElection.MutualExclusion | mobile/scripts/mock-server-key-pair.ts:53-89 | at most one process holds the lock in every reachable world, crashes and stale-lock removal included |
| KeyElection.KeyIsPersistedOnce | mobile/scripts/mock-server-key-pair.ts:108-124 | the key file turns valid at most once and keeps its key |
| KeyElection.EveryReturnAgrees | mobile/scripts/mock-server-key-pair.ts:135-167 | all processes that return a key, at whatever times, return the one persisted key |
| KeyElection.UnreadableUnderLockForksKey | mobile/scripts/mock-server-key-pair.ts:48-50 | a run with a transient read failure under the lock after which two processes return different keys |
| KeyElection.OwnStepsAreBounded | mobile/scripts/mock-server-key-pair.ts:53-106 | every process ends within a fixed number of steps of its own, whatever the others do |
| KeyOutcomes.EndsAsItMet | mobile/scripts/mock-server-key-pair.ts:53-167 | in every run a process that ends without a crash met either a key, read or persisted by itself, and returns it, or trouble, and fails: an error on opening, writing or renaming, a fifth busy rename, or no key at the read behind the 51st refused lock |
| KeyOutcomes.ReadKeyIsReturned | mobile/scripts/mock-server-key-pair.ts:65-85 | whichever read finds a key, that key is returned unless the process crashes |
| KeyOutcomes.EndsLeftAlone | mobile/scripts/mock-server-key-pair.ts:53-167 | no process waits for another: left alone at any point of any run, it ends by itself |
| KeyOutcomes.OnlyFaultsLeaveLocks | mobile/scripts/mock-server-key-pair.ts:126-133 | a lock file is its creator's while it holds it, and only a crash or a failed removal leaves one behind |
| KeyOutcomes.OnlyCrashesLeaveTemporaries | mobile/scripts/mock-server-key-pair.ts:108-124 | whatever fails, only a crash leaves a temporary file behind |
| KeyOutcomes.CrashLeavesLock | mobile/scripts/mock-server-key-pair.ts:53-89 | a crash with the lock leaves it until somebody removes it by hand |
| KeyOutcomes.RestartPersists | mobile/scripts/mock-server-key-pair.ts:135-167 | from every world in which nobody holds the lock, removing it and starting a process persists and returns its key and leaves neither lock nor temporary file |
| SyncFanout.HeardExactlyWhenReached | src/browser-preload/browser-extension-storage-sync.ts:143-199 | a context with a listener that keeps it hears a change exactly once if it wrote it or if main knew its page, or for scripts and the worker the worker, when the change was committed; never otherwise |
| SyncFanout.OwnWriteIsHeardOnce | src/browser-preload/browser-extension-storage-sync.ts:168-187 | a writer with a listener hears its own change exactly once, even when its write overtakes its listen message |
| SyncFanout.ListenersHearEachChangeOnce | src/browser-preload/browser-extension-storage-sync.ts:143-199 | once main has heard all its listen messages, a page, worker or content script that keeps listening hears every change committed from then on exactly once, whichever context wrote it |
| SyncFanout.StepKeepsTracked | src/browser-preload/browser-extension-storage-sync.ts:114-139 | whatever listeners come and go, main ends up knowing exactly the pages with a listener, and the worker, once it has heard the listen messages on their way |
| SyncFanout.ListensMakeLive | src/browser-preload/browser-extension-storage-sync.ts:116-121 | every context with a listener comes to be known: the listen messages on their way, and no more, make it so |
| SyncFanout.ReceivingDrains | src/browser-preload/browser-extension-content-script-relay.ts:162-185 | receiving whatever is under way ends with nothing under way, since every message received leaves less to receive |
| SyncFanout.NeverTwice | src/browser-preload/browser-extension-content-script-relay.ts:162-176 | no context hears a change twice in any run, however listeners and tabs come and go |
| SyncFanout.WriteAccounts | src/browser-preload/browser-extension-storage-sync.ts:168-187 | a committed write is under way exactly once to every context it reaches and to no other |
| SyncFanout.ReceiveAccounts | src/browser-preload/browser-extension-content-script-relay.ts:95-118 | handling a message moves one delivery from the network to the listeners it stood for, the relayed write's echo to its own script excepted |
| SyncFanout.WorkerAccounts | src/browser-preload/browser-extension-content-script-relay.ts:228-240 | the worker's delivery forwards the change to every content script but the one that wrote it |
| SyncRuns.EveryWriteIsHeardOnce | src/browser-preload/browser-extension-storage-sync.ts:114-199 | in every run from the start: once a context's last word is to listen, by the steps so far, and main has handled its listen messages, each later write comes to it at most once, and exactly once when the network is drained, which can always be done |
| SyncRuns.RunFollowsSteps | src/browser-preload/browser-extension-storage-sync.ts:123-139 | in every run who listens, which tabs are open and who wrote what is what the steps say |
| SyncRuns.HeardOnlyByListeners | src/browser-preload/browser-extension-storage-sync.ts:143-161 | nothing is heard by a context that had no listener, or no open tab, at some message of the run |
| SyncListeners.SyncContext.SyncListening | src/browser-preload/browser-extension-storage-sync.ts:114-121 | registers or unregisters with main exactly when the first listener came or the last one went |
| SyncListeners.SyncContext.AddListener | src/browser-preload/browser-extension-storage-sync.ts:123-131 | a listener is added once to its set and the registration follows |
| SyncListeners.SyncContext.RemoveListener | src/browser-preload/browser-extension-storage-sync.ts:132-139 | a listener is removed from its set alone and the registration follows |
| SyncListeners.SyncContext.Deliver | src/browser-preload/browser-extension-storage-sync.ts:143-161 | calls all registered listeners in order, then forwards the change with its writer's name |
| SyncListeners.EachRegistrationCalledOnce | src/browser-preload/browser-extension-storage-sync.ts:143-159 | one delivery calls a listener once for each set that holds it, and nobody else |
| SyncListeners.CallsInOrder | src/browser-preload/browser-extension-storage-sync.ts:143-159 | the calls come set by set, and in each set in the order the listeners were added |
| SyncListeners.WithoutKeepsOrder | src/browser-preload/browser-extension-storage-sync.ts:132-139 | removing a listener leaves the others in their order |
| ListenChannel.WorkerShim.BridgeListen | src/browser-preload/browser-extension-worker-shim.ts:180-188 | a listen call is remembered for replay and queued last |
| ListenChannel.WorkerShim.Add | src/browser-preload/browser-extension-main-world.ts:246-254 | a new listener is registered, and main is told at the first one or when the event has filters |
| ListenChannel.WorkerShim.Remove | src/browser-preload/browser-extension-main-world.ts:255-264 | a listener is unregistered, and main is told at the last one or when the event has filters |
| ListenChannel.WorkerShim.StreamOpened | src/browser-preload/browser-extension-worker-shim.ts:162-170 | the first connect releases the chain, and a later one queues a replay of all remembered events |
| ListenChannel.WorkerShim.Dispatch | src/browser-preload/browser-extension-main-world.ts:220-234 | calls exactly the listeners whose filter takes the event, in the order they were added |
| ListenChannel.TakersArePicked | src/browser-preload/browser-extension-main-world.ts:220-234 | for every registration list there are increasing positions, those of all listeners whose filter takes the event, whose callbacks are called in that order |
| ListenChannel.StepKeepsInv | src/browser-preload/browser-extension-worker-shim.ts:134-188 | every add, remove, break, loss at main, reconnect and send keeps registry, replay map, chain and main's view in agreement |
| ListenChannel.DrainingAgreesExactly | src/browser-preload/browser-extension-worker-shim.ts:75-89 | after any run, with any calls lost, with the stream open and the chain sent, main is right about every event whose last call was not lost, and about all exactly when it knows the truth of the others |
| ListenChannel.DrainingAgrees | src/browser-preload/browser-extension-worker-shim.ts:149-176 | so without lost calls main ends active on exactly the events with a listener, with their latest filters |
| ListenChannel.ReconnectHealsExactly | src/browser-preload/browser-extension-worker-shim.ts:162-176 | once a reconnect's replay and the calls before it get through, main is right exactly when no removal was lost that main still remembers: lost adds and filter updates are made up for |
| ListenChannel.ReplaySays | src/browser-preload/browser-extension-worker-shim.ts:166-170 | a replay says of every remembered event, in whatever order, what is remembered of it, and of no other event anything |
| ListenChannel.LostRemovalStays | src/browser-preload/browser-extension-worker-shim.ts:75-89 | a run with one lost call after which main stays active on an event without a listener, through a reconnect |
| ListenRuns.RegistryFollowsSteps | src/browser-preload/browser-extension-main-world.ts:246-265 | in every run exactly those callbacks are registered whose last word was to be added, with the filter they were added with, in that order |
| ListenRuns.MainKnowsWhoListens | src/browser-preload/browser-extension-main-world.ts:246-265 | without lost calls main ends up active on exactly the events for which some callback's last word was to be added |
| ListenRuns.ReconnectRestoresEverything | src/browser-preload/browser-extension-worker-shim.ts:162-176 | without lost calls main knows everything again after a reconnect, whatever it forgot meanwhile |
| ListenChannel.PreFilterIsExact | src/browser-preload/browser-extension-main-world.ts:239-244 | when main agrees, it sends an event exactly when somebody listens and the event is none of webRequest's, some listener has no filter, or some listener takes it |
| ListenChannel.PreFilterLosesNothing | src/browser-preload/browser-extension-main-world.ts:239-244 | when main agrees, its pre-filter passes every event that some listener takes |
| ListenChannel.PreFilterIsTight | src/browser-preload/browser-extension-main-world.ts:241-244 | when all listeners of a webRequest event have filters, main sends no event that no listener takes |
| LineFraming.ReadLines | src/browser-preload/browser-extension-worker-shim.ts:111-132 | however the stream is cut into chunks, the lines delivered are those of the concatenated text |
| LineFraming.LinesAppend | src/browser-preload/browser-extension-worker-shim.ts:121-127 | what more text adds depends on the unfinished rest only |
| LineFraming.LinesReframe | src/browser-preload/browser-extension-worker-shim.ts:121-127 | lines and rest are the text again and hold no newline, which fixes them both |
| LineFraming.FramedMessagesRoundTrip | src/browser-preload/browser-extension-worker-shim.ts:111-132 | messages without newlines survive framing, with any unfinished text behind them |
| NativePorts.NativeMessaging.Connecting | src/browser-preload/browser-extension-native-messaging.ts:167-209 | a new port has a new id, starts, and main is asked to connect it |
| NativePorts.NativeMessaging.BeginPosting | src/browser-preload/browser-extension-native-messaging.ts:184-188 | a post throws on a closed port and otherwise goes on to serialize its message |
| NativePorts.NativeMessaging.EndPosting | src/browser-preload/browser-extension-native-messaging.ts:188-194 | after the serialization the post throws, waits or goes out by the state the port has then |
| NativePorts.NativeMessaging.Disconnecting | src/browser-preload/browser-extension-native-messaging.ts:195-206 | the extension's disconnect closes the port and tells main when it was open |
| NativePorts.NativeMessaging.OnConnectReply | src/browser-preload/browser-extension-native-messaging.ts:209-225 | the connect reply opens the port and sends its queue, ends it, or has main let go |
| NativePorts.NativeMessaging.EndPort | src/browser-preload/browser-extension-native-messaging.ts:124-132 | an ending port closes, empties its queue and runs its onDisconnect listeners once |
| NativePorts.PostsAreConserved | src/browser-preload/browser-extension-native-messaging.ts:179-225 | in every run the accepted posts are, in order, those lost with the queue of a port that closed, those sent and those queued: none lost while the port is not closed, none sent while it starts, none twice |
| NativePorts.PortsEndOnce | src/browser-preload/browser-extension-native-messaging.ts:124-154 | the map holds exactly the ports not closed; onDisconnect runs at most once and never for the extension's own disconnect; main is told to let go at most once, and exactly when the host was accepted and the extension closed the port or it ended while starting |
| NativePorts.SilentExactlyWhenOrderly | src/browser-preload/browser-extension-native-messaging.ts:184-206 | in a run no post goes out on a closed port, on any port at any later time, exactly when no serialization closes its own port |
| NativePorts.WaitsExactlyWhenPatient | src/browser-preload/browser-extension-native-messaging.ts:113-116 | in a run nothing goes out before main accepted the connection exactly when no serialization closes its own starting port |
| NativePorts.EarlyPostGoesOut | src/browser-preload/browser-extension-native-messaging.ts:188-193 | a message that disconnects its starting port as it is serialized goes out before the connect reply |
| NativePorts.LatePostGoesOut | src/browser-preload/browser-extension-native-messaging.ts:188-193 | on an open port such a message goes out after the disconnect |
| NativeFates.PortFollowsSteps | src/browser-preload/browser-extension-native-messaging.ts:124-225 | in every run each port stands as the steps say: born by its connect, answered once, ended by the first of the caller, its host and a refusal, with the messages its host sent until then heard in order |
| NativeFates.PortsEndAsToldBySteps | src/browser-preload/browser-extension-native-messaging.ts:124-225 | so by the steps alone: onDisconnect runs once if the host or main ended the port and never else; main is told to let go once if it had accepted and the caller ended the port, or the host did before the answer, and never else; while the port lives, its posts were sent, or are queued until it is answered |
| OptionScanner.BalancedArguments | config/scripts/call-site-option-keys.ts:37-90 | the loop finds the bracket that its recursive meaning finds, or that there is none |
| OptionScanner.ObjectLiteralKeys | config/scripts/call-site-option-keys.ts:93-167 | the loop collects the keys that its recursive meaning collects |
| OptionScanner.ReadCallOptionKeys | config/scripts/call-site-option-keys.ts:170-188 | the keys, or the reason why they are unreadable, for every text and position |
| OptionSyntax.BalancedLeaves | config/scripts/call-site-option-keys.ts:63-87 | the first scanner leaves a string or comment where the shared meaning says, with its depth unchanged |
| OptionSyntax.ReadLeaves | config/scripts/call-site-option-keys.ts:142-161 | the second scanner leaves it at the same place and keeps nothing of it |
| OptionSyntax.LeaveUnits | config/scripts/call-site-option-keys.ts:76-87 | an escaped string body is left exactly at its closing quote |
| OptionSyntax.ArgumentsFound | config/scripts/call-site-option-keys.ts:37-90 | the arguments of a printed call are found whole, whatever follows the call |
| OptionSyntax.ReadPieces | config/scripts/call-site-option-keys.ts:106-161 | the second scanner passes over balanced code, strings and comments and keeps exactly the visible code |
| OptionCalls.IdentifierKeysAreRead | config/scripts/call-site-option-keys.ts:170-188 | for every printed call with identifier keys and shorthands, anywhere in a text, the two scanners return exactly the keys in order |
| OptionCalls.QuotedKeysAreHidden | config/scripts/call-site-option-keys.ts:169-188 | for every printed call the answer is readable exactly without spreads and computed keys, and a readable answer hides a key exactly when one is quoted |
| OptionCalls.QuotedPortIsHidden | config/scripts/call-site-option-keys.ts:1 | the header's promise fails: a call with a quoted key reads as having none |
| OptionOperands.FurtherLiteralsAreHidden | config/scripts/call-site-option-keys.ts:170-188 | for every printed call with any number of literals, further arguments or operands: the answer is readable exactly when each literal but the last ends in a value and no entry read is a spread or computed; it then names the keys of the first literal and those of each further one but its first entry, and hides an entry exactly when a key is quoted or a further literal has one |
| OptionOperands.OtherEndsAreUnreadable | config/scripts/call-site-option-keys.ts:178-181 | arguments that end in anything but a brace are reported as unreadable |
| OptionOperands.SecondArgumentIsHidden | config/scripts/call-site-option-keys.ts:178-182 | for all identifiers a and b, a call with `{a: 1}` and `{b: 2}` reads as having the one key a |
| OptionRefusals.InterpolationsAreUnreadable | config/scripts/call-site-option-keys.ts:80-84 | an interpolated template makes the call unreadable, at whatever depth it stands and whatever follows |
| OptionRefusals.UnfinishedCallsAreUnreadable | config/scripts/call-site-option-keys.ts:37-90 | so does a text that ends before the call does, in code or in a string |
| OptionRefusals.NothingOpened | config/scripts/call-site-option-keys.ts:54-60 | and one in which a bracket closes before one opens |
| OptionRefusals.BlankCallsAreUnreadable | config/scripts/call-site-option-keys.ts:175-177 | white space alone is no argument |
| OptionRefusals.OtherStartsAreUnreadable | config/scripts/call-site-option-keys.ts:178-181 | arguments that start with anything but a brace are reported as unreadable |
| OptionRefusals.FirstUnreadableIsFirst | config/scripts/call-site-option-keys.ts:183-186 | the key named in a refusal is the first that is no identifier |
| OptionCalls.QuoteInRegexHidesEntries | config/scripts/call-site-option-keys.ts:17-34 | a quote in a regular expression opens a string to both scanners: whatever entries stand before the next quote, the answer is readable and names the first key alone |
| OptionCalls.RegexHidesB | config/scripts/call-site-option-keys.ts:1 | so the header's promise also fails without quoted keys |
| OptionCalls.LineEndInCommentHidesEntries | config/scripts/call-site-option-keys.ts:63-68 | whatever stands in a line comment up to the newline is skipped, entries behind another line terminator among it |
| OptionCalls.CarriageReturnHidesB | config/scripts/call-site-option-keys.ts:1 | so a carriage return at the end of a comment hides the next key |
| TabCompaction.Rendering.CompactTabs | native/computer-use-linux/runtime.py:514-545 | deleting inactive tabs back to front and inserting the marker equals filtering lines and records at once |
| TabCompaction.SweepOne | native/computer-use-linux/runtime.py:534-541 | deleting one tab leaves the lines before it in place and the lines after it filtered |
| TreeRenderer.Walker.Walk | native/computer-use-linux/runtime.py:464-508 | the recursive walk computes the rendering of the subtree with its limits, elisions and compactions |
| TreeRenderer.RenderedTreeIsConsistent | native/computer-use-linux/runtime.py:409-511 | for every tree: records and element lines carry the same increasing indexes, records and omissions add up to the indexes handed out, at most MAX_NODES records remain, and only inactive tabs are missing |
| TreeRenderer.CompactionKeepsInv | native/computer-use-linux/runtime.py:514-545 | a compaction drops the same indexes from lines and records and counts them in its marker |
| TreeRenderer.UntruncatedShowsAll | native/computer-use-linux/runtime.py:464-508 | unless a truncation is reported, every node to be shown gets an index, in order |
| TreePages.RenderedTreeIsPage | native/computer-use-linux/runtime.py:464-545 | unless truncated, every rendering reads as the page of its tree, told without the walk and its compactions: each shown node one tab deeper than the one around it, and among ten or more tabs, one of them active, the inactive ones replaced by one marker before the first |
| TreePages.RenderedTreeShowsSpots | native/computer-use-linux/runtime.py:490-508 | so each node has its line, as deep as it has shown ancestors, but for the inactive tabs among crowded siblings |
| TreePages.CrowdsKeepNoIdleTab | native/computer-use-linux/runtime.py:514-545 | among crowded siblings no inactive tab keeps its line |
| TreePages.SmallTreesAreComplete | native/computer-use-linux/runtime.py:464-471 | a tree of at most 1200 nodes is rendered completely exactly when no node stands below 64 levels, and says so otherwise |
| TreePages.DeepTreesAreTruncated | native/computer-use-linux/runtime.py:464-471 | every tree with a node below 64 levels is reported as truncated |
| TreePages.ContainersGiveWay | native/computer-use-linux/runtime.py:459-489 | a nameless container with at most one child gives way to it, at its own depth; every other node gets a line |
| EntryGuard.CollectReachableChunks | config/build-plugins/plain-node-entry-guard.ts:96-119 | on every graph the depth-first walk ends with exactly the reachable chunks of the bundle, each once |
| EntryGuard.AssertNoElectronRequire | config/build-plugins/plain-node-entry-guard.ts:121-143 | with a sound memo, passes exactly when no chunk the entry reaches requires Electron; a leak it reports is one |
| EntryGuard.ScanEntries | config/build-plugins/plain-node-entry-guard.ts:309-334 | the memo shared across entries changes no verdict, and the first failing entry is named |
| EntryGuard.AssertDaemonExternalsAreMirrored | config/build-plugins/plain-node-entry-guard.ts:146-184 | passes exactly when every chunk the daemon's entry reaches requires nothing but built-in modules and mirrored packages; what it reports is such a require |
| EntryGuard.WriteBundle | config/build-plugins/plain-node-entry-guard.ts:293-344 | outside watch mode the hook passes exactly when no guarded entry of either kind in the bundle reaches an Electron require and the daemon's packages are mirrored; in watch mode it always passes |
| EntryGuard.ClosedHoldsReachable | config/build-plugins/plain-node-entry-guard.ts:103-117 | a set closed under imports holds everything reachable from a member |
| EntryGuard.ReachedByImports | config/build-plugins/plain-node-entry-guard.ts:103-117 | a chunk is reached from itself, and else exactly by a static or dynamic import of one that is reached |
| EntryGuard.EntriesAreLast | config/build-plugins/plain-node-entry-guard.ts:302-307 | the entry of a name is the last chunk that is an entry of that name |
| EntryGuard.PackagesAre | config/build-plugins/plain-node-entry-guard.ts:153-156 | the package of a specifier is its first part, or with a scope its first two |
| EntryGuard.ThreePackagesPass | config/build-plugins/plain-node-entry-guard.ts:146-151 | besides built-in modules exactly three packages pass, with what lies in them |
| ClipboardOwner.Owner.OnSend | native/wayland-clipboard/wayland-clipboard.c:132-144 | a request takes the first free slot with a fresh deadline, or is refused and closed |
| ClipboardOwner.Owner.Poll | native/wayland-clipboard/wayland-clipboard.c:227-235 | poll is asked about every slot's descriptor and sleeps exactly until the earliest deadline of an open transfer |
| ClipboardOwner.Owner.Serve | native/wayland-clipboard/wayland-clipboard.c:245-262 | one slot's turn: closed, advanced by what the write took, or left alone |
| ClipboardOwner.Owner.CloseTransfer | native/wayland-clipboard/wayland-clipboard.c:210-213 | the slot is free, its descriptor closed and what its reader got on record |
| ClipboardOwner.EveryRunDeliversTheText | native/wayland-clipboard/wayland-clipboard.c:215-265 | in every run each open descriptor is in exactly one slot and got the text up to its offset; a closed one got a prefix, all of the text if its transfer completed and nothing if it was refused |
| ClipboardOwner.PollResultsStayWithTheirDescriptor | native/wayland-clipboard/wayland-clipboard.c:228-262 | a poll result is applied only to the descriptor it was taken for, with requests arriving in between |
| ClipboardOwner.WritableTransfersComplete | native/wayland-clipboard/wayland-clipboard.c:215-265 | a transfer whose reader takes a byte or more each turn, within its deadline, completes with exactly the text within as many turns as it has bytes left: its descriptor is among those closed in these turns, whatever an earlier transfer on the number did |
| ClipboardRuns.RefusedExactlyWhenFull | native/wayland-clipboard/wayland-clipboard.c:132-144 | a request is refused exactly when all eight slots are in use or its descriptor stays blocking, and else gets a free one, from the start of the text, for two seconds |
| ClipboardRuns.WritesMoveOn | native/wayland-clipboard/wayland-clipboard.c:251-262 | what a reader takes in time are the next bytes of the text, at most 65536 a turn; then the transfer is complete or has two more seconds |
| ClipboardRuns.StalledTransfersEnd | native/wayland-clipboard/wayland-clipboard.c:245-262 | in every run a transfer that its reader takes nothing from stands until the first turn at its deadline, with a broken pipe or with a write error, which closes it with what its reader had got |
| CliArgs.ParseArgs | src/cli/args.ts:63-120 | the token loop and the flag loop give the path and flags that the recursive meaning gives, with the flags repeatable for the chosen spec |
| CliArgs.SpecForPathPrefix | src/cli/args.ts:44-61 | the spec found owns the first of the longest paths that start the given one, and none is found only when no path does |
| CliArgs.BestIsUnique | src/cli/args.ts:44-61 | that determines the spec |
| CliArgs.CollectFlags | src/cli/args.ts:107-118 | the flag loop applies the entries in order, joining repeated values |
| CliItems.ItemsAreParsed | src/cli/args.ts:63-120 | an argument list that shows words and flags, alone, assigned or with the next argument as value, is parsed into them: boolean flags, flags right before the command and flags before a flag or at the end take no argument |
| CliItems.EveryListShowsItems | src/cli/args.ts:71-105 | and every argument list shows some words and flags |
| CliItems.RepeatableMeans | src/cli/args.ts:107-111 | flags repeat exactly when every command's do or the spec of the longest matching path declares them |
| CliItems.EveryPathIsCandidate | src/cli/args.ts:44-61 | the paths looked at are those of all specs, aliases included |
| CliRoundTrip.PrintedArgsParseBack | src/cli/args.ts:29-120 | printing a path and flags and parsing them gives back the same path and flag map, in any order of the flags |
| CliRoundTrip.ParsingIsStable | src/cli/args.ts:63-120 | for every argument list, printing what was parsed and parsing it again changes nothing |
| CliRoundTrip.SpacedValuesAgree | src/cli/args.ts:79-104 | after the command begins, a value given as the next argument equals one given after an equals sign |
| CliRoundTrip.CollectTexts | src/cli/args.ts:29-41 | repeated values of a repeatable flag are joined by the separator in order |
| RunsPaging.ReadShrinkingPage | src/cli/automation-runs-paging.ts:29-44 | the retry loop halves the limit until the reply is no longer too large or the limit is one |
| RunsPaging.ShrinkIsFirstFit | src/cli/automation-runs-paging.ts:29-44 | what is returned is the answer to the first of the halved limits that is not too large, or to a limit of one |
| RunsPaging.ReadAllAutomationRuns | src/cli/automation-runs-paging.ts:54-75 | the paging loop computes the reading, its calls and its pages |
| RunsPaging.ServedListIsRead | src/cli/automation-runs-paging.ts:29-75 | from a host that serves a list and fits every single run, the list is read exactly with at most max(1, n) + 4 calls |
| RunsPaging.AnyHostStopsAtRepeatedCursor | src/cli/automation-runs-paging.ts:58-74 | for any host, pages number at most the distinct cursors plus one, every page before the last brought a new cursor, and the result is all pages' runs in order |
| StorageRelay.DiffInPlace | src/browser-preload/browser-extension-storage-relay.ts:51-65 | the loop finds exactly the keys whose values differ, with old and new value, `__proto__` apart |
| StorageRelay.Area.WrappedWrite | src/browser-preload/browser-extension-storage-relay.ts:148-191 | a wrapped write stores what the native one stores and publishes what is reported of the difference of the whole area, or nothing when it failed or nothing is |
| StorageRelay.WriteTouchesItsKeys | src/browser-preload/browser-extension-storage-relay.ts:127-137 | comparing only the touched keys reports every difference in the area |
| StorageRelay.SilentExactlyWhenUnchanged | src/browser-preload/browser-extension-storage-relay.ts:116-119 | nothing is published exactly when no stored value changed, `__proto__` apart |
| StorageRelay.PublishedWholeExactly | src/browser-preload/browser-extension-storage-relay.ts:51-65 | the whole difference is published exactly when the value under `__proto__` did not change |
| StorageRelay.FollowingReportArrives | src/browser-preload/browser-extension-storage-relay.ts:51-65 | following what is reported brings every key but `__proto__` to its new value and leaves that one |
| StorageRelay.UndoingReportReturns | src/browser-preload/browser-extension-storage-relay.ts:51-65 | the old values reported are true: following a report backwards leads back, under every key but `__proto__` |
| StorageRelay.MirrorEqualsArea | src/browser-preload/browser-extension-storage-relay.ts:138-193 | after any sequence of writes, failed ones among them, a mirror that follows the published changes equals the area exactly when the area holds under `__proto__` what it held at first |
| StorageRelay.AreaHoldsLastWord | src/browser-preload/browser-extension-storage-relay.ts:148-191 | after any writes the area holds under each key what the last write that did not fail says of it |
| StorageRelay.MirrorHoldsLastWord | src/browser-preload/browser-extension-storage-relay.ts:138-193 | and so does a mirror of the published changes, under every key but `__proto__` |
| StorageRelay.ProtoIsSilent | src/browser-preload/browser-extension-storage-relay.ts:59-62 | setting `__proto__` stores it and publishes nothing |

## Left out

- ReadAllAutomationRuns: answers end after a number of pages given as `patience`, because a host with ever new cursors is read for ever; every result holds for all values of it.
- MeasureMessageBytes: numbers are integers; sizes beyond the doubles' exact range are not modelled.
- ReadLines: starts from decoded text; the incremental UTF-8 decoder in front of it is not part of this model.
- Walk: the record fields, summaries and action labels that shape a line's text are flags of a node; reading a line's depth, index and tab role back from its text is taken as exact.
- WriteBundle: the smoke start of the daemon and the check of the entry names at the start of a build are left out; what code requires and what is built into Node are parameters.
- ListenersHearEachChangeOnce: no message is lost and the worker lives through the run; main's queue for a stopped worker is not part of this model, nor is an extension without content scripts, whose worker registers like a page.
- StructuredCloneMessageBytes: what the host charges for a date, pattern, blob or shared buffer, and whether it can clone an object, are given with the object; the host's count and rate limits are left out.
- AdmissionCarriesOverExactly: views, maps, sets and special objects are outside; ViewsHideTheirBuffer and MapsHideTheirEntries say why.
- DrainingAgreesExactly: the direct listen calls of other modules, one event each, are left out, and so is the end of connecting when main refuses the stream.
- ParseArgs: where the command starts and which flags are boolean are parameters, so nothing depends on their tables.
- IdentifierKeysAreRead: JSX, methods, accessors and numeric keys are outside the syntax; a division sign stands behind a digit, string or list, and a regular expression stands behind an operator, holds no quote, bracket or comment opener, outside brackets no comma, and is followed by flags or other plain code.
- FurtherLiteralsAreHidden: what stands between two literals holds no group with a comma of its own, and blocks with statements are outside.
- OnSend: a refused descriptor is recorded as closed with nothing sent; descriptors are only ever reused after they were closed.
- The key election assumes that nobody else writes the key file, that temporary names are unique, and that an operator removes a lock only when its creator no longer holds it.
- Storage reads and writes of one area run in order with no other writer between the two reads of a write, and a native write takes effect whole or not at all.
- The clipboard owner's start-up, its read of the text from standard input and the Wayland protocol itself.
- The gesture tracker, sendNativeMessage, help paths, positional normalisation and flag validation: short functions that can be settled by reading them.
- Listener bodies, callbacks with lastError and thrown listener errors: a listener that calls back is a further step of a run, and so is what a message does while it is serialized.
