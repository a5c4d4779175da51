# Plasma NetHogs, verified

Plasma NetHogs shows which applications use the network. A kernel program adds bytes to a map keyed by
process. A daemon reads the map on a timer, turns counters into rates, groups processes into applications,
ranks and cuts the list and writes `state.json`. A watcher in the widget reads that file, decides what is
new, thins it out to the spacing the user asked for, and reports a daemon that has stopped. The widget keeps
a sample window per application, lets quiet applications linger, and reconciles the rows of its list in place.

This project models that chain and proves what it promises, over whole runs where the promise is about runs.

| module | part of the system | form |
|---|---|---|
| `Accounting`, `Calls`, `Shortfall` | `account()` on every CPU, the LRU map, the daemon's tick and releases | machine whose runs are all interleavings, with a ledger per process and direction |
| `Daemon`, `DaemonRuns` | the map as the collector reads it; the timer's handler; the documents of a whole run | classes; a tick is shown to be a run of the accounting machine |
| `UnitName`, `ProcessResolver` | cgroup names, identity, the two caches | methods with loops and a class, against functions |
| `Grouping`, `Aggregation`, `Ranking`, `Sorting` | one tick of the aggregator | a class and its loop, against the tally of the samples |
| `JsonWriter` | the published document and its rounding | loops, against a relation between snapshot and document |
| `StateWatcher`, `Coalescing`, `WatcherRuns` | the reader of `state.json`, what it hands on, and when | a class, against a state machine |
| `ListSync` | the list model and `syncModel` | a class and an in-place algorithm |
| `History`, `Lingering`, `Widget`, `WidgetRuns` | windows, grace period, `ingest` and the resets | a class, against a state machine and the log of what it was told |
| `Applet` | watcher and widget together | signals delivered as events |
| `Basics`, `Arithmetic`, `Sampling` | shared types, rounding, samples | functions |

Where a class changes its fields, each method is proved against a function of the old state, and the
statements about runs are about those functions. Counters are natural numbers, rates and elapsed time are
reals. What comes from outside is a parameter: the clocks, what /proc says of a pid, the icon a desktop file
names, what opening and parsing the file yields, when a wake-up arrives, and in which order a hash is walked.

## Results worth knowing

- Reported bytes never exceed accounted bytes since the priming tick, through eviction, pid reuse, skipped
  ticks and CPUs caught between lookup and add; the shortfall is accounted for byte by byte, and is nil when no
  entry was dropped. The same goes for what the documents themselves add up to, within half a byte a second.
- Groups, totals and the next baseline do not depend on the order in which the samples came. The published
  list follows from them if and only if no listed application has the total of another group; in a tie the
  sort may put either first, and cut either.
- Two live processes share a published row exactly when they were given the same key, and a process that lives
  on keeps its key, name and icon from tick to tick, whatever becomes of its files.
- `syncModel` moves no row exactly when the survivors' order is unchanged, and never moves one twice.
- The sparse windows are indistinguishable from a dense history, whatever happens to the window length.
- The rows shown are those the activity log, the exclusions, the grace period and the row limit call for; the
  sort only decides between applications that were last active at the same instant.

Some expectations are false of the code. For each there is an input that shows it and the exact condition:

- A scope whose name carries no launch pid loses part of an id that ends in a dash and digits, and only
  then (`ScopeWithoutPid`; foo-1 in `DashedIdIsCut`). A service instance loses what follows an unescaped at
  sign (`ServiceRoundTrip`; a@b in `AtSignIsCut`).
- The comment on `coalesceMs` in main.qml calls it the shortest spacing passed on. It is rounded to the
  nearest multiple of the publishing interval, and `NotShorter` says when that is shorter than the setting
  (1400 ms served every second in `ShorterThanAsked`).
- `setStaleAfterMs` re-arms with the bare value, below the floor of three publishing intervals that a read
  applies; `RetuningDropsFloor` says when what the read promised is still kept, and in `PunctualYetStale` a
  daemon that publishes every second is called stale after 600 ms.
- `setPath` leaves the watchdog running, so a leftover document at the new path is called stale by the first
  read exactly when the watcher was not ok (`AgeCheckAfterPathChange`; one a minute old is accepted in
  `OldDocumentAccepted`).
- The comment in `Aggregator::update` takes a counter that went backwards as the sign of a recreated entry. A
  recreated counter that has already passed the old baseline does not show it, and a tick then loses the
  baseline's worth of bytes (`RecreatedUnnoticed`); `ShortfallIsExact` has all that is lost, and when.
- A document numbered -1 can leave the watcher with no timer running: `StrandedRuns` says in which runs, and
  `StrandingHappens` gives one. The daemon's numbers start at 1.

## Model

| member | source | states |
|---|---|---|
| Accounting.KernelConservation | daemon/bpf/plasma-nethogs.bpf.c:70-105 | Over every interleaving each byte handed to account() is in the counter, in flight, in a call that lost the race to insert, or in an element that was dropped |
| Calls.FinishStores | daemon/bpf/plasma-nethogs.bpf.c:86-104 | What the end of a call does to the map, field by field: a new element has the bytes in the direction of the call, nothing in the other, and the comm of the call; an old one gains the bytes in that direction and keeps its comm |
| Calls.CommOfItsProcess | daemon/bpf/plasma-nethogs.bpf.c:95-98 | Over every run the comm of an element is one that a call of this very process came with |
| Calls.PassedIsHanded | daemon/bpf/plasma-nethogs.bpf.c:72-82 | What the books have as passed is what the calls hand in: more than no bytes, and on an internet socket that is not loopback; told from the events alone |
| Calls.HandedIsConserved | daemon/bpf/plasma-nethogs.bpf.c:70-105 | Conservation from the calls to the two counters of the element |
| Accounting.CounterIsExact | daemon/bpf/plasma-nethogs.bpf.c:84-104 | While the element of a process stays in the map, its counter plus the bytes of losing first inserts is everything that was accounted |
| Accounting.CountersOnlyGrow | daemon/bpf/plasma-nethogs.bpf.c:86-93 | Nothing but a drop overwrites an element, and a counter changes only by the bytes of the add that finishes |
| Accounting.AtMostOneLossPerOtherCpu | daemon/bpf/plasma-nethogs.bpf.c:95-104 | Each creation of an element costs at most one lost call per CPU other than the creator |
| Accounting.NeverOverReported | daemon/src/Aggregator.cpp:31-60 | Over every run, reported plus pending plus in-flight plus raced bytes never exceed what was accounted since the priming tick, and fall short by at most what was dropped |
| Shortfall.ShortfallIsExact | daemon/src/Aggregator.cpp:56-60 | The shortfall to the byte, over every run: what was pending at a drop, adds to a dropped element, and the old baseline wherever a recreated counter had passed it by the next tick |
| Accounting.ExactWhenUndropped | daemon/src/Aggregator.cpp:56-60 | With no drop of the element, the books balance exactly |
| Accounting.SettledAfterTick | daemon/src/Aggregator.cpp:113-113 | Right after a reporting tick that no call straddles, all that was accounted has been reported, but for lost races |
| Accounting.SkippedTickDefers | daemon/src/Aggregator.cpp:41-44 | A tick with no time elapsed can be taken out of any run: machine and books end up the same |
| Shortfall.RecreatedUnnoticed | daemon/src/Aggregator.cpp:57-60 | A run of seven events in which ten of fifteen bytes are lost because a recreated counter had passed the old baseline |
| Sampling.BaselineOfSnapshot | daemon/src/Aggregator.cpp:54-54 | After a tick over a snapshot of the map the baseline is the map's own counters |
| Daemon.TrafficMap.Account | daemon/bpf/plasma-nethogs.bpf.c:70-105 | One uninterrupted call of account() is the machine's lookup step followed by its add-or-insert step; a new element starts with the bytes and the comm of the call |
| Daemon.TrafficMap.Poll | daemon/src/BpfCollector.cpp:124-152 | The list holds every element of the map exactly once, with its counters and comm; nothing when no map is open |
| Daemon.TrafficMap.Forget | daemon/src/BpfCollector.cpp:154-159 | Deletes that element and no other |
| Daemon.RateIsPending | daemon/src/Aggregator.cpp:56-63 | A published rate times the elapsed time is exactly what the account's books are credited with at this tick |
| Daemon.SampledKeys | daemon/src/Aggregator.cpp:68-75 | Live and dead pids partition the keys of the map |
| Daemon.Daemon.ForgetDead | daemon/src/main.cpp:136-138 | The loop over the dead pids is a run of releases that removes them all and nothing else |
| Daemon.Daemon.Measure | daemon/src/main.cpp:132-134 | Poll and update are the tick step of the accounting machine, and yield what may be published |
| Daemon.Daemon.Tick | daemon/src/main.cpp:130-141 | A tick is a run of the accounting machine; it writes a document exactly when primed and time has passed, from the readings of this tick and with its time; afterwards the identity cache holds exactly the live sampled pids, with what was answered for them, and so does the map |
| DaemonRuns.MeasuredIsReported | daemon/src/Aggregator.cpp:56-66 | Over every history of ticks and kernel work, a process's measured rates times the intervals add up to what its books have as reported |
| DaemonRuns.ListedIsMeasured | daemon/src/JsonWriter.cpp:42-53 | A rate listed for a process is the measured one to within half a byte |
| DaemonRuns.ListedAsAnswered | daemon/src/JsonWriter.cpp:42-66 | In the document too: the row of a listed process is that of its answered appKey, its comm the one answered, its rates those measured to the nearest byte |
| DaemonRuns.SharedRow | daemon/src/Aggregator.cpp:81-83 | Two live processes of a document share a row if and only if the same appKey was answered for them, and the row has that key |
| DaemonRuns.ListedAtMostOnce | daemon/src/Aggregator.cpp:77-110 | No document lists a process twice, in one row or in two |
| DaemonRuns.DocumentsNeverOvercount | daemon/src/JsonWriter.cpp:42-79 | From the kernel to the file: all that the documents list for a process, over all their rows and members, never adds up to more than was accounted to it, but for half a byte a second |
| UnitName.NoMarkNoChange | daemon/src/ProcessResolver.cpp:43-45 | The fast path agrees with the loop |
| UnitName.NothingToDecode | daemon/src/ProcessResolver.cpp:49-60 | A mark that is cut short, or followed by what is no code, stays as it is |
| UnitName.DecodesFirst | daemon/src/ProcessResolver.cpp:50-57 | An escape becomes the one character whose code it is, and decoding goes on behind it |
| UnitName.UnescapeSystemd | daemon/src/ProcessResolver.cpp:41-62 | The index loop computes the left-to-right decoding of escapes, whatever pairs of characters toUInt accepts |
| UnitName.UnescapeInverts | daemon/src/ProcessResolver.cpp:41-62 | Decoding inverts every encoding that escapes at least each backslash |
| UnitName.EscapeEncodes | daemon/src/ProcessResolver.cpp:40-62 | Writing any choice of characters of a single-byte id as hex escapes, backslashes among them, is such an encoding |
| UnitName.ParseCgroupIdentity | daemon/src/ProcessResolver.cpp:118-150 | The out-parameters are those of the parsing function, for every leaf and whatever isDigit and toUInt accept |
| UnitName.ScopeRoundTrip | daemon/src/ProcessResolver.cpp:120-130 | app-, an encoded id, a dash, any launch pid and .scope give the id back, whatever the id ends in |
| UnitName.ScopeWithoutPid | daemon/src/ProcessResolver.cpp:126-129 | Without a launch pid the id comes back if and only if the name does not end in a dash and digits |
| UnitName.DashedIdIsCut | daemon/src/ProcessResolver.cpp:126-129 | An input that shows it: foo-1 becomes foo |
| UnitName.ServiceRoundTrip | daemon/src/ProcessResolver.cpp:139-149 | app-, an encoded id, an at sign, an instance and .service give the id back if and only if the encoding keeps no at sign |
| UnitName.AtSignIsCut | daemon/src/ProcessResolver.cpp:139-149 | An input that shows it: a@b does not come back |
| UnitName.EscapedRoundTrip | daemon/src/ProcessResolver.cpp:118-150 | Parsing inverts naming for every non-empty single-byte id: a scope with any launch pid, and a service instance if the at sign is escaped too |
| UnitName.OtherScopes | daemon/src/ProcessResolver.cpp:131-136 | A docker, libpod or crio scope is its own unit, and any other scope tells nothing |
| UnitName.ServiceNames | daemon/src/ProcessResolver.cpp:139-149 | A service gives its encoded id back, with an instance or without: as desktop id if named app-, and otherwise as unit |
| UnitName.OnlyScopesAndServices | daemon/src/ProcessResolver.cpp:118-150 | Nothing else tells anything, and nothing gives both a desktop id and a unit |
| ProcessResolver.Resolver.IconFor | daemon/src/ProcessResolver.cpp:229-250 | A cached icon wins over what the files say now, misses included; the empty id is never cached |
| ProcessResolver.Resolver.Resolve | daemon/src/ProcessResolver.cpp:252-305 | Answer and both caches for whatever the reads of this call return: no start time, a hit with the same start time, and a miss |
| ProcessResolver.Resolver.Prune | daemon/src/ProcessResolver.cpp:307-312 | Keeps exactly the live entries |
| ProcessResolver.IdentityIsWellFormed | daemon/src/ProcessResolver.cpp:283-298 | Keys are never empty, and a comm key comes with no path, no desktop id and a name equal to its suffix |
| ProcessResolver.GroupedExactly | daemon/src/ProcessResolver.cpp:279-295 | Which processes share a key, if and only if: one readable executable whatever its cgroups; otherwise desktop id, then unit, then path, then name; keys of different kinds never meet |
| ProcessResolver.KeyedByExecutable | daemon/src/ProcessResolver.cpp:283-293 | The key of a readable executable in full: its path, or for an interpreter the desktop id, the unit or the path |
| ProcessResolver.NamedByExecutable | daemon/src/ProcessResolver.cpp:182-187 | The path is the link's without the mark of a replaced binary, and the name shown is the executable's file name |
| ProcessResolver.NamedByComm | daemon/src/ProcessResolver.cpp:269-272 | The comm is that of /proc, or the kernel's if that is empty; it is the name when no executable can be read, and then the key comes from the cgroup or the comm |
| ProcessResolver.ShownByDesktopId | daemon/src/ProcessResolver.cpp:229-250 | The desktop id is the cgroup's; its icon the one on record, or the one the directories have now |
| ProcessResolver.InterpretersExactly | daemon/src/ProcessResolver.cpp:18-38 | Which programs are interpreters, if and only if |
| ProcessResolver.AnswerIsForLife | daemon/src/ProcessResolver.cpp:254-261 | Under the same start time the answer stays, whatever the files say by then; under another everything is read afresh |
| ProcessResolver.ResolveKeepsConsistent | daemon/src/ProcessResolver.cpp:252-305 | Every cached and every returned info carries the icon on record for its desktop id, and icons on record never change |
| ProcessResolver.AnswersAreIndependent | daemon/src/ProcessResolver.cpp:252-305 | Resolving one process does not change the answer for another |
| ProcessResolver.NeverInheritsIdentity | daemon/src/ProcessResolver.cpp:254-303 | Over every run of spawns, exits, pid reuse and prunes, also between the reads of one call: no answer is made from files of an occupant earlier than the one the call began with, and a cached one from those of that very occupant |
| ProcessResolver.OneIconPerDesktopId | daemon/src/ProcessResolver.cpp:229-250 | For the daemon's life all answers with one desktop id carry one icon, even if the files change |
| Grouping.JoinCommutes | daemon/src/Aggregator.cpp:83-110 | Two samples may join one group in either order; the conditional write of exePath is harmless |
| Grouping.TallyIgnoresOrder | daemon/src/Aggregator.cpp:53-111 | Groups and totals are the same for every permutation of the samples |
| Grouping.GroupsDescribeSamples | daemon/src/Aggregator.cpp:77-110 | A group exists exactly for a key that something contributes to; it has the sums and the members of its contributors, name and path of the lowest pid, desktop id and icon of the lowest pid having one |
| Grouping.TotalsAreGroups | daemon/src/Aggregator.cpp:65-66 | The totals are the rates of the groups together |
| Grouping.InExactlyOneGroup | daemon/src/Aggregator.cpp:77-110 | A process that moved bytes is a member of the group of its key, once, and of no other |
| Grouping.MembersByAnswer | daemon/src/Aggregator.cpp:77-110 | From answers to groups: the members of a group are exactly the processes that moved bytes and whose answered appKey, or comm if there is no answer, is its key, each once and as measured |
| Grouping.IdentityByAnswer | daemon/src/Aggregator.cpp:83-106 | A group bears what was answered for its lowest pid, and the desktop id and icon answered for its lowest pid with a desktop id |
| Aggregation.SampleOrderIsInvisible | daemon/src/Aggregator.cpp:46-113 | From raw samples: tally and next baseline do not depend on hash order |
| Aggregation.Merge | daemon/src/Aggregator.cpp:83-110 | The mutable group after one sample presents the tally's group |
| Aggregation.Rank | daemon/src/Aggregator.cpp:116-131 | The list is the head of a descending arrangement of all groups, each with its members descending |
| Aggregation.Collect | daemon/src/Aggregator.cpp:46-111 | The loop over the samples: groups, totals, baseline, live and dead pids, and the resolver's caches |
| Aggregation.Aggregator.Update | daemon/src/Aggregator.cpp:27-141 | When it reports and what: the published list against the tally of the readings, baseline, dead pids, serial, time stamp, and of each live process its answer on record under its start time; and what a priming or skipped tick leaves alone |
| Aggregation.GroupsAddUp | daemon/src/Aggregator.cpp:62-66 | Before the cut the applications together have exactly the total rate |
| Aggregation.PublishedLength | daemon/src/Aggregator.cpp:129-131 | As many applications as there are groups, or topCount if that is less |
| Aggregation.PublishedDistinct | daemon/src/Aggregator.cpp:116-131 | No key is published twice |
| Aggregation.PublishedDescends | daemon/src/Aggregator.cpp:120-128 | Rows descend in what they receive and send together, and so do the pids of each row |
| Aggregation.RowLists | daemon/src/Aggregator.cpp:77-110 | A sampled process is in the row of the appKey that resolve() answered, or of its comm, if and only if it has a rate, once, with the rates measured; and in no other row in any form |
| Aggregation.ListedWasSampled | daemon/src/Aggregator.cpp:110-110 | Whatever a row lists was sampled |
| Aggregation.RowIsNamed | daemon/src/Aggregator.cpp:84-97 | A row bears the name and path answered for its lowest pid |
| Aggregation.RowIsShown | daemon/src/Aggregator.cpp:99-106 | A row shows the desktop id and icon answered for the lowest of its pids that has one, and none if none has |
| Aggregation.AnswersFromRecords | daemon/src/Aggregator.cpp:68-68 | What a tick is answered for each process, from the caches it starts with and the records |
| Aggregation.IdentityLasts | daemon/src/ProcessResolver.cpp:259-261 | From tick to tick a sampled process that lives on keeps its identity, whatever its files say by then |
| Ranking.OrderFollowsUnlessTied | daemon/src/Aggregator.cpp:126-131 | Which applications are published, and in which order, follows from the tally if and only if no listed one has the total of another group |
| Ranking.PublishedOrderIsUnique | daemon/src/Aggregator.cpp:126-131 | In particular when the group totals all differ |
| Ranking.EitherIsPublished | daemon/src/Aggregator.cpp:126-131 | A tie at the cut: two processes with one byte a second each, and either may be the one published |
| Aggregation.CutKeepsLargest | daemon/src/Aggregator.cpp:126-131 | No group that was cut has a larger total than one that was kept |
| Aggregation.PublishedWithinTotal | daemon/src/Aggregator.cpp:129-137 | The kept applications never exceed the total, and equal it when none was cut |
| JsonWriter.Rounded | daemon/src/JsonWriter.cpp:18-21 | The nearest integer, halves up |
| JsonWriter.WriteApp | daemon/src/JsonWriter.cpp:33-66 | A row as published: its rates are the sums of its members' published rates |
| JsonWriter.Write | daemon/src/JsonWriter.cpp:30-79 | The whole document against the snapshot |
| JsonWriter.PidDrift | daemon/src/JsonWriter.cpp:39-46 | A row is within half a byte per member of the group's true rate |
| JsonWriter.AppDrift | daemon/src/JsonWriter.cpp:33-66 | The rows together are within half a byte per listed pid of the true sum |
| JsonWriter.RowsAgainstTotal | daemon/src/JsonWriter.cpp:73-77 | Listed rows exceed the published total by at most (n+1)/2 for n listed pids, and differ by no more when nothing was cut |
| JsonWriter.PickedAgainstTotal | plasmoid/package/contents/ui/main.qml:173-187 | Any selection of rows with m pids taken from the published total leaves at least -(m+1)/2 |
| JsonWriter.PublishedIsWritable | daemon/src/JsonWriter.cpp:18-21 | No rate that is published is negative, so rounding meets non-negative values only |
| StateWatcher.QuantizedExactly | plasmoid/plugin/StateWatcher.cpp:26-29 | Which measured intervals are taken for k tenths of a second |
| StateWatcher.SpacingApproximatesSetting | plasmoid/plugin/StateWatcher.cpp:206-211 | The accepted spacing is a positive multiple of the publishing interval, within half of it of the setting, or the interval itself for a smaller setting |
| StateWatcher.NotShorter | plasmoid/package/contents/ui/main.qml:115-119 | When the spacing is at least the setting, if and only if: the setting is no longer than the interval, a multiple of it, or half an interval or more past one |
| StateWatcher.ShorterThanAsked | plasmoid/package/contents/ui/main.qml:115-119 | An input where it is not: 1400 ms asked for, 1000 ms served |
| StateWatcher.Watcher.Fail | plasmoid/plugin/StateWatcher.cpp:218-237 | New state and signals, in order |
| StateWatcher.Watcher.SetPath | plasmoid/plugin/StateWatcher.cpp:60-78 | New state and signals, in order |
| StateWatcher.Watcher.SetCoalesceMs | plasmoid/plugin/StateWatcher.cpp:80-91 | New state and signals, in order |
| StateWatcher.Watcher.SetStaleAfterMs | plasmoid/plugin/StateWatcher.cpp:93-103 | New state and signals, in order |
| StateWatcher.Watcher.ReadFile | plasmoid/plugin/StateWatcher.cpp:136-216 | New state and signals of a read, for every outcome |
| StateWatcher.UnreadableIsUnavailable | plasmoid/plugin/StateWatcher.cpp:140-166 | No path, no file, no object or another version: everything is forgotten and the status is unavailable |
| StateWatcher.OldIsStale | plasmoid/plugin/StateWatcher.cpp:174-180 | While the watchdog is stopped, a document written longer ago than the stale window, to the millisecond, is a failure by the name of stale |
| StateWatcher.FreshIsOk | plasmoid/plugin/StateWatcher.cpp:182-216 | Any other document with a new number makes the status ok, opens the longer of the stale window and three publishing intervals, and is handed on at once or counted |
| StateWatcher.SeenIsNothing | plasmoid/plugin/StateWatcher.cpp:185-188 | With the number seen last it changes nothing |
| StateWatcher.ExpiryForgets | plasmoid/plugin/StateWatcher.cpp:55-57 | What the watchdog does when it fires |
| StateWatcher.SettersChange | plasmoid/plugin/StateWatcher.cpp:60-103 | What each setter changes, signals and leaves alone |
| StateWatcher.StartsUp | plasmoid/plugin/StateWatcher.cpp:174-180 | From the start, the first document read is handed on if and only if it is at most five seconds old, and called stale otherwise |
| StateWatcher.ReachableIsCoherent | plasmoid/plugin/StateWatcher.cpp:60-237 | In every reachable state, whatever the documents: the watchdog is armed exactly when ok, and a snapshot, an interval and a last number are held only then |
| StateWatcher.NeverStranded | plasmoid/plugin/StateWatcher.cpp:60-237 | With numbers of at least 1, once a path is set some timer is running in every reachable state |
| StateWatcher.StrandedExactly | plasmoid/plugin/StateWatcher.cpp:185-188 | For documents of any number: the one kind of step after which no timer is left, if and only if |
| StateWatcher.StrandedRuns | plasmoid/plugin/StateWatcher.cpp:60-237 | A run keeps some timer running all along if and only if it has no such step |
| StateWatcher.StrandingHappens | plasmoid/plugin/StateWatcher.cpp:185-188 | The input that does it: a fresh document numbered -1, read first |
| StateWatcher.AgeCheckAfterPathChange | plasmoid/plugin/StateWatcher.cpp:60-78 | After a change of path a leftover document is called stale exactly when the watcher was not ok before |
| StateWatcher.OldDocumentAccepted | plasmoid/plugin/StateWatcher.cpp:60-78 | An input that shows it: from ok, a document a minute old is accepted |
| Coalescing.EvenSpacing | plasmoid/plugin/StateWatcher.cpp:198-215 | From any coherent state on, over any events that fail no read and leave path and coalescing alone: after as many publications as the count of skipped ones still lacks, every f-th is handed on, and a change of intervalMs to f publishing intervals is signalled at most once, with the first of them |
| Coalescing.EvenSpacingFromReset | plasmoid/plugin/StateWatcher.cpp:198-215 | From a reset that forgets the interval: exactly publications 1, 1+f, 1+2f, ... |
| Coalescing.EvenSpacingFromSetting | plasmoid/plugin/StateWatcher.cpp:80-91 | From a change of coalesceMs while an interval is in force: exactly publications f, 2f, 3f, ... |
| Coalescing.EveryAt | plasmoid/plugin/StateWatcher.cpp:198-215 | What is handed on i-th, from 0, is number first + i*f, from 0 |
| Coalescing.DuplicatesAreInvisible | plasmoid/plugin/StateWatcher.cpp:182-189 | Two such runs with the same publications hand on the same snapshots at the same intervals, whatever duplicate reads and other events they have |
| Coalescing.JitterNeverClearsHistory | plasmoid/plugin/StateWatcher.cpp:22-29 | Over such a run, measurements within 50 ms of one multiple of 100 ms change intervalMs at most once, with the first acceptance, and never again |
| WatcherRuns.FreshWhileOk | plasmoid/plugin/StateWatcher.cpp:191-196 | While ok, the last unseen publication or change of the stale window is no older than the window it opened, if the watchdog fires on time |
| WatcherRuns.StaleMeansSilence | plasmoid/plugin/StateWatcher.cpp:55-57 | When the watchdog fires, nothing unseen was read for the larger of the stale window and three publishing intervals |
| WatcherRuns.NoFalseAlarm | plasmoid/plugin/StateWatcher.cpp:191-196 | A daemon whose unseen publications are each read within the window opened last, with no failed read, is never called stale, through changes of path and of the stale window |
| WatcherRuns.RetuningDropsFloor | plasmoid/plugin/StateWatcher.cpp:93-103 | After a change of the stale window at any later time, the three intervals promised at the read are kept if and only if the new window reaches as far |
| WatcherRuns.PunctualYetStale | plasmoid/plugin/StateWatcher.cpp:93-103 | A run that shows it: a daemon publishing every second is called stale 600 ms after it was heard |
| WatcherRuns.DuplicateWakesAreInvisible | plasmoid/plugin/StateWatcher.cpp:182-188 | A wake-up that finds a document already seen can be taken out of any run with nothing changed after it: no signal, no count, no deadline |
| WatcherRuns.SpacingFollowsSetting | plasmoid/plugin/StateWatcher.cpp:206-215 | Over every run, each snapshot is handed on at the spacing that its own publishing interval and the setting then in force give: a multiple of the one, within half of it of the other |
| WatcherRuns.WindowsNeverMixSpacings | plasmoid/plugin/StateWatcher.cpp:210-215 | At no moment of any run does a consumer that clears on intervalMs hold samples of two spacings; and whoever follows the signals knows interval, status and snapshot |
| ListSync.ListModel.Remove | plasmoid/package/contents/ui/main.qml:307-311 | The other elements stay, in order |
| ListSync.ListModel.Insert | plasmoid/package/contents/ui/main.qml:327-329 | A new element at the place, the others in order |
| ListSync.ListModel.Move | plasmoid/package/contents/ui/main.qml:332-333 | The element itself moves forward, the others keep their order |
| ListSync.ListModel.Set | plasmoid/package/contents/ui/main.qml:335-335 | New content in the same element |
| ListSync.Prune | plasmoid/package/contents/ui/main.qml:307-311 | The backward pass leaves the wanted elements in their order and removes each vanished one once |
| ListSync.Find | plasmoid/package/contents/ui/main.qml:318-324 | The first element with the key from position i on, or none |
| ListSync.PlaceOne | plasmoid/package/contents/ui/main.qml:315-336 | One step of the second pass keeps: placed rows in front, remaining survivors behind in their old order, and what the log says of moves |
| ListSync.PlaceAll | plasmoid/package/contents/ui/main.qml:315-336 | The second pass keeps that for every row |
| ListSync.SyncModel | plasmoid/package/contents/ui/main.qml:297-336 | The model equals rows; keys in both keep their element; only vanished keys are removed and only new ones inserted, once each; a survivor moves at most once, and none moves if and only if their order is unchanged |
| History.Peak | plasmoid/package/contents/ui/Rates.js:30-38 | The largest sample; zero exactly when the window is silent |
| History.AdvanceRefines | plasmoid/package/contents/ui/main.qml:195-212 | One snapshot keeps the sparse windows a refinement of the dense history, whatever the new length: a dropped window was silent |
| History.SparseShowsDense | plasmoid/package/contents/ui/main.qml:239-254 | Every window, zeros if absent, equals the dense one and has the current length |
| History.AdvanceSamples | plasmoid/package/contents/ui/main.qml:195-212 | The sample that enters at the right edge is what an active application receives and sends together, and zero for any other |
| History.AdvanceShifts | plasmoid/package/contents/ui/main.qml:255-266 | The samples before it move one place to the left, and what is missing is zero |
| History.KnownWhileDrawn | plasmoid/package/contents/ui/main.qml:202-212 | A window is kept for an active application, and for another exactly as long as it has a sample that is not zero |
| History.WindowsAreAligned | plasmoid/package/contents/ui/main.qml:239-254 | j places from the right edge every window holds its reading of j snapshots ago, if that stayed inside through all changes of length, and zero if not |
| History.RoomKeepsSamples | plasmoid/package/contents/ui/main.qml:251-254 | A sample is never lost while every length had room for it |
| Lingering.LingerRemembers | plasmoid/package/contents/ui/main.qml:192-227 | Under a clock that does not run backwards the map holds exactly the applications last active within the grace period, as they were then |
| Lingering.ShownDistinct | plasmoid/package/contents/ui/main.qml:231-234 | No key is shown twice |
| Lingering.IdleNeverDisplaces | plasmoid/package/contents/ui/main.qml:229-233 | Active applications come first, in the order of the snapshot; an idle row means all of them are shown, and it reads zero |
| Lingering.ActiveShownFirst | plasmoid/package/contents/ui/main.qml:229-233 | The i-th active application has the i-th row whenever there is room for that many |
| Lingering.IdleIsResting | plasmoid/package/contents/ui/main.qml:214-227 | An idle row is that of a lingering, inactive application, and the rows are in order of last activity |
| Lingering.HiddenOnlyWhenFull | plasmoid/package/contents/ui/main.qml:227-233 | A lingering application without a row means a full list of applications active no less recently |
| Lingering.RowsShowApps | plasmoid/package/contents/ui/main.qml:275-291 | Field by field: an active row shows its application as the document has it, an idle one as it was last active and with rates of zero |
| Widget.HistoryLength | plasmoid/package/contents/ui/main.qml:30-32 | Between 2 and 1200 samples for any settings |
| Widget.TraceCoversSpan | plasmoid/package/contents/ui/main.qml:30-32 | The trace covers the configured span to within half a sample, unless that takes fewer than 2 samples or more than 1200; samples are as far apart as intervalMs, or as the refresh interval while that is zero |
| Widget.LastPart | plasmoid/package/contents/ui/main.qml:168-168 | The part after the last slash |
| Widget.LowerExactly | plasmoid/package/contents/ui/main.qml:167-168 | What counts as the same in any case: letter by letter |
| Widget.HiddenByEither | plasmoid/package/contents/ui/main.qml:163-170 | Excluded if and only if an entry is the name or the executable's file name, in any case and whatever the directory; by the name alone when there is no file name |
| Widget.KeptMembers | plasmoid/package/contents/ui/main.qml:177-187 | Exactly the applications that are not excluded |
| Widget.KeptInOrder | plasmoid/package/contents/ui/main.qml:177-187 | In the order of the snapshot |
| Widget.TotalsShown | plasmoid/package/contents/ui/main.qml:173-190 | Each total is the published one less what the excluded rows have in that direction, and zero if that is less |
| Widget.LingersForSeconds | plasmoid/package/contents/ui/main.qml:192-226 | An inactive application keeps lingering if and only if it was last active at most the configured seconds ago; an active one starts anew |
| Widget.TopIsFirst | plasmoid/package/contents/ui/main.qml:236-236 | The top application is the first active one, as its row shows it, and there is none without an active one |
| Widget.ResetsClear | plasmoid/package/contents/ui/main.qml:128-160 | What each of the other events clears, and nothing else |
| Widget.Widget.Rebind | plasmoid/package/contents/ui/main.qml:30-32 | The window length follows span and spacing, and nothing is reset |
| Widget.Widget.OnIntervalMsChanged | plasmoid/package/contents/ui/main.qml:128-133 | Clears the windows and nothing else |
| Widget.Widget.OnDaemonStatusChanged | plasmoid/package/contents/ui/main.qml:136-145 | Anything but ok empties rows, windows, lingering entries and totals |
| Widget.Widget.OnLingerSecondsChanged | plasmoid/package/contents/ui/main.qml:154-156 | Clears the lingering entries and nothing else |
| Widget.Widget.OnExcludeProcessesChanged | plasmoid/package/contents/ui/main.qml:158-160 | Clears the lingering entries and nothing else |
| Widget.Widget.PushSample | plasmoid/package/contents/ui/main.qml:255-266 | The shifting loops append one sample and fit the window to the length, padding or dropping at the left |
| Widget.Widget.Separate | plasmoid/package/contents/ui/main.qml:172-190 | Active list and clamped totals |
| Widget.Widget.SampleActive | plasmoid/package/contents/ui/main.qml:195-200 | Every active application gets its rate and a fresh lingering entry |
| Widget.Widget.SampleOthers | plasmoid/package/contents/ui/main.qml:202-212 | Every other known key gets a zero, and silent windows go |
| Widget.Widget.CollectIdle | plasmoid/package/contents/ui/main.qml:214-226 | Expired entries go, and the list holds each remaining inactive one once |
| Widget.Widget.ShowRows | plasmoid/package/contents/ui/main.qml:227-235 | Rows shown, and the model reconciled with them |
| Widget.Widget.Present | plasmoid/package/contents/ui/main.qml:227-236 | The same, and the top application |
| Widget.Widget.Ingest | plasmoid/package/contents/ui/main.qml:172-237 | The whole new state, the rows shown and the reconciliation of the model |
| WidgetRuns.RunAgrees | plasmoid/package/contents/ui/main.qml:128-237 | After any run of snapshots and resets, windows and lingering entries are those of the log |
| WidgetRuns.WindowsAgree | plasmoid/package/contents/ui/main.qml:128-212 | The windows alone agree with the log whatever the clock does |
| WidgetRuns.RowsAreRecent | plasmoid/package/contents/ui/main.qml:192-237 | Every row is of an application active now or last active within the grace period, as it was then; none is excluded; keys are distinct |
| WidgetRuns.RecentIsShown | plasmoid/package/contents/ui/main.qml:214-233 | Conversely, whatever is within its grace period is shown unless the list is full of applications active no less recently |
| WidgetRuns.SparksAreDense | plasmoid/package/contents/ui/main.qml:275-291 | What a row draws is the dense history of its application; a window left out was silent |
| WidgetRuns.PublishedKeysDistinct | daemon/src/Aggregator.cpp:116-124 | The daemon publishes no key twice, which is what the widget relies on |
| WidgetRuns.ClampIsSmall | plasmoid/package/contents/ui/main.qml:189-190 | The clamp at zero hides at most half a byte per excluded pid and half a byte for the total |
| WidgetRuns.TotalMatchesRows | plasmoid/package/contents/ui/main.qml:173-190 | The total shown is at least what the rows kept add up to, less (n+1)/2, and no more than that above it when the daemon cut nothing |
| Applet.WindowsHoldOneSpacing | plasmoid/package/contents/ui/main.qml:126-161 | For watcher and widget together, with changes of the widget's settings in between: the widget's windows are those of the samples of the snapshots since they were last cleared, in order, and of no others; and each of those was accepted at the spacing intervalMs now claims |
| Applet.WindowsReadBack | plasmoid/package/contents/ui/main.qml:126-161 | What stands j places from the right edge of a window of the widget: the rate j snapshots ago, counted from when the windows were last cleared |
| Applet.SettingsReachWidget | plasmoid/package/contents/ui/main.qml:151-161 | A change of the grace period or of the exclusions takes hold at once and lets go of what lingered under the old one, and of nothing else |

## Left out

- Kernel map: `poll` sees one atomic snapshot, eviction removes any element at any time, and an element's
  memory is not recycled while a CPU still refers to it; an insert never fails for lack of memory.
- Kernel program: attachment, choice of hooks and the socket family and loopback tests; an event says
  whether it is counted.
- Numbers: overflow of 64-bit counters and floating-point error; `qRound` and `qRound64` are modelled for
  non-negative values and `Math.round` for all.
- Atomicity: poll and update are one step of the accounting machine, since what CPUs do in between commutes
  with them; /proc has no entry for pid 0.
- Process identity: no two occupants of one pid have the same start time.
- Files: /proc, desktop files, JSON text, `QSaveFile`, permissions and inotify re-arming; a read yields
  nothing, garbage or a document, and a snapshot is held as the document instead of its text.
- Text: case folding is ASCII only; trimming and lower-casing of the exclusion list itself. What `isDigit` and
  `toUInt` accept beyond digits and hex digits is left open, so every statement holds for any answer.
- Timers: a timer may fire late, but not early, though the source's are coarse and may be early by a few
  percent. `FreshWhileOk` also takes it that nothing else is handled between the watchdog's deadline and its
  firing. A negative stale window is taken to be over at once.
- Signals: `updated` carries the accepted spacing, which the source keeps in `intervalMs`.
- Qt re-entrancy: each handler is one step; the order of signals inside one is kept.
- Sorts: ties are in no particular order in `std::sort`; statements claim a descending permutation only.
- Aliasing: `samples` in `pushSample` is one array changed in place in the source and a sequence reassigned
  here, so that the array and the map's value are one object is not captured.
- Settings: the widget's `topCount` is a natural number.
- `Rates.format`, animation, visuals, configuration pages, translations, packaging and command line: single
  branches or nothing to prove.
