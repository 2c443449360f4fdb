# Models of the engine's AI interface, camera, console and launcher

The project models seven parts of the engine and proves what they are for.

- **Versions and keys** (`Strings`, `Versions`, `VersionOrder`, `LibraryKeys`). How `VersionCompare` orders versions, in 32-bit
  arithmetic and for every magnitude that `std::string::compare` may return, and what `FindFittingInterfaceKey` and
  `ResolveSkirmishAIKey` choose.
- **The life of AIs** (`Libraries`, `LibraryManager`, `Lifecycle`, `Engine`, `Delivery`, `EngineOut`, `Dispatch`,
  `AIHandler`).
  Load counts of AI libraries, the wrapper of one AI with its kill flag, the tables of active AIs, the delivery of unit
  events, and the table of AI data. Foreign AI code answers every call with an arbitrary result, and may get its own
  kill flag set during any call. `Lifecycle`, `Engine`, `Delivery` and `Libraries` hold the state functions and the
  theorems about all runs; the classes of `LibraryManager` and `EngineOut` are the mutable objects, each method proved equal to its
  state function.
- **Unit commands** (`Commands`). The structures of the AI interface, the engine commands they become, and
  `executeCommand` as a normaliser of raw commands.
- **Yard maps** (`YardMap`). The rotation loop as a permutation and as an action of the cyclic group of order four.
- **The camera** (`Vectors`, `Frustum`, `FrustumLines`). The frustum planes, conservative culling, and the clipping of
  frustum lines, over the real numbers.
- **Launcher messages** (`SeenFile`, `Launcher`, `LaunchEffects`). Version targets, kill switches and the file of seen ids over any
  number of launches.
- **The console** (`Console`, `ConsoleHistory`). The command table with its binary search, and the line history.

`Options` holds the option type.

## Findings

Some properties that the documentation or the comments promise hold only under a condition. The condition is proved
exact in each case; several come with a concrete input that breaks the property as well.

- For versions of up to n parts, n at most 15, and any comparison function whose partial sums never overflow,
  `VersionCompare` gives the documented order if and only if every part comparison outweighs n - 1 comparisons of the
  opposite sign (`CodedOrdersIff`). Which comparison functions never overflow is exact as well (`NeverOverflowsIff`).
  Outweighing for every n is being within a factor of three of each other (`BalancedIffOutweighsAll`), which is the
  condition for a sum without bounds (`OrdersIffBalanced`). With byte differences as results of
  `std::string::compare`, 0.9 comes after 1.0 (`ByteDifferencesMisorder`); fifteen differences of three overflow
  (`FifteenThreesWrap`).
- Let `VersionCompare` order versions of n + 1 parts, as it does up to 14 parts if comparisons are within three
  (`SmallOrders`). Then, for keys of up to n parts, `FindFittingInterfaceKey` returns the next higher version for every
  request of up to n + 1 parts if and only if the iteration order of the set steps back only to versions already seen
  (`NextHigherIff`). This holds for versions made of letters and digits (`WellFormedNextHigher`) and fails with a dash
  (`DashIsChosenTooEarly`). Without the hypothesis it can fail for such versions too: with byte differences, 0.9 is
  chosen for a request for 1.0 (`ByteDifferencesChooseTooOld`).
- `UnitCaptured` runs before the unit changes its ally team, so only the old team's own AIs are told, not its allies;
  and AIs allied with both sides are told by neither `UnitCaptured` nor `UnitGiven`, although the comment in each
  refers to the other (`WhoIsToldOfTransfer`, `AlliesOfBothHearNothing`).
- `UnitCreated` hands the builder's id to the new unit's team without looking whether that team can see the builder
  (`BuilderKeptIff`, `BuilderIsGivenAway`).
- Kill flags are saved with a game, but loading resets them: they are given back if and only if none was set
  (`LoadGivesBackTheTable`, `KillFlagIsLost`).
- While it is created an AI asks for its destruction twice if and only if one of its two initialisations fails and
  crashes; over its whole life it may ask up to three times, since a crash in a release asks again (`AsksTwiceIff`,
  `LifetimeRequests`).
- `Command::FromRawCommand` copies as many bytes as there are parameters, so `executeCommand` takes every reclaim order
  with fewer than three parameters for a unit, and changes the topic of exactly those that are for a feature; the order
  that results is the same (`SeenUpToReclaim`, `FeatureIsSeenAsUnit`, `ReclaimEncodesAlike`).
- The frustum normals point inward if and only if up has a positive component along right cross forward.
  `UpdateDirsFromRot` achieves that if and only if right and forward are not parallel, which they are only for a look
  straight up or down with a quarter roll; the axes that a camera is constructed with have the other orientation
  (`EnclosesIffOriented`, `CrossUpIsOriented`, `RotIsOrientedIff`, `InitialAxesAreFlipped`).
- The seen file gives back a set of ids if and only if no id is empty or contains a lone line feed, and no id before
  the last ends with a carriage return, because Swift reads a carriage return and a line feed as one character
  (`RoundTripIff`, `ReturnLosesIds`).
- A launcher message that was suppressed comes back, in a launch that nothing quits, if and only if it is served, meant
  for the version and set to be shown always; making it non-suppressible is not enough, unlike message-config/README.md
  says (`OnlyAlwaysBringsBack`).
- The hard block of message-config/README.md, a message that names no way on, is one if and only if every link to stay
  at can be opened; a "stay" button without such a link closes the dialog and goes on (`DocumentedBlockIff`).
- Going any number of lines up and down the console history leads back to the same history and draft if and only if the draft has no text
  and, without a chat prefix, no line passed looks like chat (`UpAndDown`). Such lines do get into the history
  (`ChatLikeLineIsSplit`).
- With a full history of 256 lines, going up from a new draft shows the draft itself (`DraftIsStored`).
- In a command table without repeated names every command is reached if and only if the table is sorted; only
  `commands` is intercepted before the table is looked at. A new command registered after sorting is reached before the next sorting if and only if its name comes after all the others;
  otherwise it is missed (`AllFoundIffSorted`, `LateCommandIff`, `LateCommandIsMissed`).

## Model

| member | source | states |
|---|---|---|
| Versions.SplitJoin | rts/System/FileSystem/SimpleParser.cpp:113-132 | Splitting the dots out of joined parts gives the parts back, for all lists of non-empty parts without dots |
| Versions.SplitAtDot | rts/System/FileSystem/SimpleParser.cpp:113-132 | For all strings, the parts of two strings joined by a dot are those of the one and then those of the other |
| Strings.LessIff | rts/ExternalAI/AILibraryManager.cpp:486-502 | One string is below another exactly if after some common prefix it ends or has the smaller character |
| Versions.LexAntisymmetric | rts/ExternalAI/AILibraryManager.h:158-180 | The documented order, padded with "0" parts, flips its sign when the versions are exchanged |
| Versions.LexTransitive | rts/ExternalAI/AILibraryManager.h:158-180 | The documented order is transitive across different numbers of parts, and equal only if both steps are |
| Versions.SignOfWeighted | rts/ExternalAI/AILibraryManager.cpp:486-502 | If differences of opposite sign are within a factor of three, the sum weighted by powers of four has the sign of its first non-zero difference |
| Versions.FourIsTooMuch | rts/ExternalAI/AILibraryManager.cpp:486-502 | A difference of four after one of minus one already hides the first part, and five turns the order around |
| Versions.ByteDifferencesMisorder | rts/ExternalAI/AILibraryManager.cpp:486-502 | With byte differences 0.9 is put after 1.0 |
| Versions.NoOverflow | rts/ExternalAI/AILibraryManager.cpp:486-502 | No partial sum overflows 32 bits with 14 parts and differences up to three, or 15 parts and differences up to one |
| Versions.FifteenThreesWrap | rts/ExternalAI/AILibraryManager.cpp:486-502 | Fifteen differences of three wrap around to the wrong sign |
| Versions.BitSign | rts/ExternalAI/AILibraryManager.cpp:500-501 | The shift and the bitwise or compute the sign of every 32-bit value |
| Versions.VersionCompare | rts/ExternalAI/AILibraryManager.cpp:486-502 | The loop returns the sign of the wrapped sum for up to 15 parts, and the documented order when comparisons are within three and parts at most 14 |
| Versions.SmallIsFaithful | rts/ExternalAI/AILibraryManager.cpp:486-502 | Within these bounds the 32-bit result is the documented order |
| VersionOrder.NeverOverflowsIff | rts/ExternalAI/AILibraryManager.cpp:486-502 | No partial sum of versions of up to n parts overflows if and only if no single comparison overflows when it is repeated n times |
| VersionOrder.TermsFit | rts/ExternalAI/AILibraryManager.cpp:486-502 | Then the single products fit as well |
| VersionOrder.CodedIsExact | rts/ExternalAI/AILibraryManager.cpp:486-502 | Then the 32-bit result is the sign of the exact sum |
| VersionOrder.FirstDecides | rts/ExternalAI/AILibraryManager.cpp:486-502 | The sum of up to n differences has the sign of the first non-zero one if each outweighs n - 1 of the opposite sign |
| VersionOrder.OutvotedFails | rts/ExternalAI/AILibraryManager.cpp:486-502 | A comparison that does not outweigh n - 1 opposite ones leads to two versions of n parts in the wrong order |
| VersionOrder.ExactOrdersIff | rts/ExternalAI/AILibraryManager.cpp:486-502 | The exact sum orders all versions of up to n parts as documented if and only if every comparison outweighs n - 1 opposite ones |
| VersionOrder.CodedOrdersIff | rts/ExternalAI/AILibraryManager.cpp:486-502 | So does the 32-bit comparison, for n up to 15 and comparison functions whose sums never overflow |
| VersionOrder.BalancedIffOutweighsAll | rts/ExternalAI/AILibraryManager.cpp:486-502 | Comparisons outweigh any number of opposite ones if and only if they are within a factor of three |
| VersionOrder.OrdersIffBalanced | rts/ExternalAI/AILibraryManager.cpp:486-502 | A sum without bounds orders all versions as documented if and only if the comparisons are within a factor of three |
| VersionOrder.SmallNeverOverflows | rts/ExternalAI/AILibraryManager.cpp:486-502 | Comparisons within three never overflow up to 14 parts, nor do those within one up to 15 |
| VersionOrder.SmallOrders | rts/ExternalAI/AILibraryManager.cpp:486-502 | Comparisons within three order all versions of up to 14 parts as documented |
| LibraryKeys.FindFittingInterfaceKey | rts/ExternalAI/AILibraryManager.cpp:385-407 | The loop picks the first equal version, or else the first newer one in iteration order, for any comparison function |
| LibraryKeys.PickIsFirstFit | rts/ExternalAI/AILibraryManager.cpp:385-407 | If comparisons order the versions concerned, the pick is the one made with the documented order |
| LibraryKeys.NextHigherIff | rts/ExternalAI/AILibraryManager.h:145-156 | If comparisons order versions of n + 1 parts and the keys have up to n: the pick is the next higher version for every request of up to n + 1 parts if and only if iteration steps back only to versions seen before |
| LibraryKeys.ChosenIsNextHigher | rts/ExternalAI/AILibraryManager.h:145-156 | In such an order: nothing if nothing fits, otherwise a fitting key with the least version, for every comparison function that orders the versions concerned |
| LibraryKeys.StepBackFails | rts/ExternalAI/AILibraryManager.cpp:385-407 | Any other order has a request, with one part more than the keys, that gets the wrong answer |
| LibraryKeys.StringOrderRefines | rts/ExternalAI/AIInterfaceKey.cpp:35-42 | For dot-joined parts of characters not below '0', raw string order refines the version order |
| LibraryKeys.WellFormedNextHigher | rts/ExternalAI/AILibraryManager.cpp:385-407 | So with the set's order, such versions and comparisons that order them the answer is always right |
| LibraryKeys.DashIsChosenTooEarly | rts/ExternalAI/AIInterfaceKey.cpp:35-42 | 1-a is iterated and chosen before the lower version 1.0, by comparisons that order versions of two parts |
| LibraryKeys.ByteDifferencesChooseTooOld | rts/ExternalAI/AILibraryManager.cpp:385-407 | With byte differences the older 0.9 is chosen for a request for 1.0 |
| LibraryKeys.FittingSkirmishAIKeys | rts/ExternalAI/AILibraryManager.cpp:268-290 | Exactly the keys with the requested name and, if one is given, version, in order; none for an unspecified request |
| LibraryKeys.ResolveSkirmishAIKey | rts/ExternalAI/AILibraryManager.cpp:429-448 | Unspecified if and only if nothing matches; otherwise a known matching key, one with the highest version when comparisons order them |
| LibraryKeys.HighestVersion | rts/ExternalAI/AILibraryManager.cpp:436-447 | The loop leaves the index that survives every later challenge |
| LibraryKeys.BestIsNewest | rts/ExternalAI/AILibraryManager.cpp:436-447 | With comparisons that order the versions the survivor has a version at least that of every key, and is the first such key |
| Libraries.FetchCounts | rts/ExternalAI/AILibraryManager.cpp:294-313 | A fetch adds one to the count of its own AI exactly if it succeeds, and changes no other count |
| Libraries.FetchSucceedsIff | rts/ExternalAI/AILibraryManager.cpp:294-313 | A fetch succeeds if and only if the AI is known and its interface was loaded before, or was not tried before and initialises now; a failure is remembered |
| Libraries.ReleaseCounts | rts/ExternalAI/AILibraryManager.cpp:315-326 | A release takes one from its own AI's count, never below zero, and changes no other count |
| Libraries.ReleaseUnloadsIff | rts/ExternalAI/AILibraryManager.cpp:315-326 | A release unloads the interface if and only if no other AI of it is counted, and touches no other slot |
| Libraries.ReleaseOfUnloaded | rts/ExternalAI/AILibraryManager.cpp:315-326 | A release of an AI whose interface is not loaded at most remembers that the interface failed |
| Libraries.FailedStays | rts/ExternalAI/AILibraryManager.cpp:345-367 | An interface that failed to initialise stays failed |
| Libraries.FailedFetchIsBalanced | rts/ExternalAI/AILibraryManager.cpp:315-326 | After a fetch that failed, a release changes nothing and later fetches fail as well |
| Libraries.FetchReleaseIsNeutral | rts/ExternalAI/SkirmishAIWrapper.cpp:108-118 | IsLoadSupported leaves every load count as it was |
| Libraries.DestroyedOnlyWhenUnused | rts/ExternalAI/AILibraryManager.cpp:369-382 | An interface disappears only when none of its AIs is counted any more |
| Libraries.FetchKeepsSound | rts/ExternalAI/AILibraryManager.cpp:294-313 | Fetching keeps counts to known AIs of their own interface, and loaded interfaces in use |
| Libraries.ReleaseKeepsSound | rts/ExternalAI/AILibraryManager.cpp:315-326 | So does releasing |
| LibraryManager.InterfaceLibrary.GetLoadCount | rts/ExternalAI/AIInterfaceLibrary.cpp:154-161 | The sum of all counts, zero exactly if every count is zero |
| LibraryManager.InterfaceLibrary.FetchSkirmishAILibrary | rts/ExternalAI/AIInterfaceLibrary.cpp:183-213 | Only the first fetch loads the library, or the empty stand-in; a library is there exactly while its count is positive |
| LibraryManager.InterfaceLibrary.ReleaseSkirmishAILibrary | rts/ExternalAI/AIInterfaceLibrary.cpp:215-230 | Only the last release unloads it; releasing at zero does nothing |
| LibraryManager.InterfaceLibrary.ReleaseAllSkirmishAILibraries | rts/ExternalAI/AIInterfaceLibrary.cpp:238-245 | No library and no count is left |
| LibraryManager.Manager.FetchInterface | rts/ExternalAI/AILibraryManager.cpp:345-367 | The table afterwards is that of the state function; a known interface is returned as it was stored, a new one if and only if it initialises |
| LibraryManager.Manager.ReleaseInterface | rts/ExternalAI/AILibraryManager.cpp:369-382 | Removes exactly an interface whose counts are all zero |
| LibraryManager.Manager.FetchSkirmishAILibrary | rts/ExternalAI/AILibraryManager.cpp:294-313 | The objects realise the fetch; it succeeds exactly for a known AI of an interface that was loaded or initialises now, and the first fetch gives the foreign library or the stand-in |
| LibraryManager.Manager.ReleaseSkirmishAILibrary | rts/ExternalAI/AILibraryManager.cpp:315-326 | The objects realise the release of the state model |
| LibraryManager.Manager.ReleaseAll | rts/ExternalAI/AILibraryManager.cpp:329-341 | Over the keys present at the start: exactly the entries that were null remain, as nulls |
| Lifecycle.BadIsFinal | rts/ExternalAI/SkirmishAIWrapper.cpp:59-203 | A log whose end does not break the protocol has no prefix that does |
| Lifecycle.SettledHasLibrary | rts/ExternalAI/SkirmishAIWrapper.cpp:457-465 | Between calls, unblocked events, an initialised AI and a pending library release all imply a library, so no null library is called |
| Lifecycle.EventKeepsSettled | rts/ExternalAI/SkirmishAIWrapper.cpp:457-465 | An ordinary event keeps the fields in step with the log of foreign calls, also if the AI crashes in it |
| Lifecycle.EventsKeepSettled | rts/ExternalAI/SkirmishAIWrapper.cpp:205-233 | So does any series of events |
| Lifecycle.InitLibraryReplay | rts/ExternalAI/SkirmishAIWrapper.cpp:120-137 | Library init is the first call and may be followed by the init event exactly if it succeeded and no kill flag is set |
| Lifecycle.InitEventSettles | rts/ExternalAI/SkirmishAIWrapper.cpp:190-203 | After the init event the AI is initialised if it returned zero, and otherwise killed and blocked |
| Lifecycle.CreatedIsSettled | rts/ExternalAI/EngineOutHandler.cpp:523-558 | Creation as a whole keeps fields and log in step and leaves the AI with its id, team, key and library |
| Lifecycle.StopSettles | rts/ExternalAI/SkirmishAIWrapper.cpp:147-188 | Kill sends the release event only to an initialised AI, releases the library last and only if its init succeeded, and ends the incarnation |
| Lifecycle.SetKillFlagKeepsSettled | rts/ExternalAI/SkirmishAIHandler.cpp:258-270 | Setting a kill flag from outside keeps fields and log in step |
| Lifecycle.ClearFlagKeepsSettled | rts/ExternalAI/SkirmishAIHandler.cpp:199-213 | So does the reset of the flag when the AI is removed |
| Lifecycle.EventsRequest | rts/ExternalAI/SkirmishAIWrapper.cpp:457-465 | Of any series of events only the first crash asks for the AI's destruction |
| Lifecycle.CreationRequests | rts/ExternalAI/SkirmishAIWrapper.cpp:120-203 | How often an AI asks for its destruction while it is created, for every outcome of its calls |
| Lifecycle.AsksTwiceIff | rts/ExternalAI/SkirmishAIHandler.cpp:258-270 | It asks at most twice, and twice if and only if one of its two initialisations fails and crashes |
| Lifecycle.StopRequests | rts/ExternalAI/SkirmishAIWrapper.cpp:147-188 | While it is released it asks once for the release event and once for the library release, if they crash |
| Lifecycle.LifetimeRequests | rts/ExternalAI/SkirmishAIHandler.cpp:258-270 | The exact number of requests from creation to end over any later events, three at most |
| Delivery.EventReaches | rts/ExternalAI/SkirmishAIWrapper.cpp:457-465 | An event reaches the library if and only if events are not blocked or it is the release event; its answer is returned, and a blocked event is answered by zero |
| Delivery.EventsReach | rts/ExternalAI/SkirmishAIWrapper.cpp:205-233 | Unless events are blocked, every event of a series up to the first crash is delivered, once and in order |
| Delivery.CreationReaches | rts/ExternalAI/SkirmishAIWrapper.cpp:120-203 | The exact calls while an AI is created: library init, the init event if that went well, and then the events |
| Delivery.ReasonAtCreation | rts/ExternalAI/SkirmishAIHandler.cpp:258-270 | The kill flag afterwards, for every outcome of these calls |
| Delivery.StopReaches | rts/ExternalAI/SkirmishAIWrapper.cpp:147-188 | The exact calls of Kill: the release event for an AI that handled its init event, and the release of an initialised library |
| Delivery.LifetimeReaches | rts/ExternalAI/SkirmishAIWrapper.cpp:59-203 | The exact calls from creation to end, over any later events |
| Engine.Apply | rts/ExternalAI/EngineOutHandler.cpp:523-589 | Every step keeps the invariant: lists agree, hosts reflect their logs, counts are conserved |
| Engine.HostUpdateKeeps | rts/ExternalAI/EngineOutHandler.cpp:141-148 | A change of one wrapper that keeps id, team, key and library keeps the whole invariant |
| Engine.CreateKeeps | rts/ExternalAI/EngineOutHandler.cpp:523-558 | Creation keeps the invariant, also if the fetch fails |
| Engine.PostLoadKeeps | rts/ExternalAI/EngineOutHandler.cpp:560-567 | Asking for load support keeps the invariant |
| Engine.DestroyKeeps | rts/ExternalAI/EngineOutHandler.cpp:569-589 | Destruction keeps it: the release balances the fetch exactly, also one that failed |
| Engine.CreateKeepsLists | rts/ExternalAI/EngineOutHandler.cpp:539-542 | The active list stays duplicate-free and the disjoint union of the team lists |
| Engine.DestroyKeepsLists | rts/ExternalAI/EngineOutHandler.cpp:573-581 | Erasing from both lists keeps this |
| Engine.InitialInvariant | rts/ExternalAI/EngineOutHandler.h:111-119 | Fresh tables satisfy the invariant |
| Engine.EveryLogConforms | rts/ExternalAI/SkirmishAIWrapper.cpp:59-203 | In every run, every AI's calls obey the protocol: library init, init event once, events only while initialised and not killed, one release event, library release last |
| Engine.NoDanglingLibrary | rts/ExternalAI/AILibraryManager.cpp:294-326 | In every reachable state the library of every active AI that has one is loaded and counted |
| Engine.KillAll | rts/ExternalAI/EngineOutHandler.h:35-44 | The loop of Kill ends and leaves no active AI, whatever the AIs answer |
| Engine.KillAllIsRun | rts/ExternalAI/EngineOutHandler.h:35-44 | The loop of Kill is a run of destructions, the last active AI first |
| Engine.NothingLeft | rts/ExternalAI/EngineOutHandler.h:35-44 | Then all team lists are empty, no wrapper holds a library, all counts are zero, and only interfaces looked up at start-up remain |
| Delivery.DeliverReaches | rts/ExternalAI/EngineOutHandler.cpp:85-88 | One event reaches the AI it is for, unless that one is blocked, and changes nothing else |
| Delivery.PostLoadReaches | rts/ExternalAI/EngineOutHandler.cpp:560-567 | An AI without load support hears the events instead, one with it hears none; nothing else changes, the loaded libraries included |
| Engine.PostLoadKeepsSlots | rts/ExternalAI/SkirmishAIWrapper.cpp:108-118 | Fetching and releasing the library of an active AI changes no slot at all |
| Delivery.FlagSteps | rts/ExternalAI/SkirmishAIHandler.cpp:199-270 | A kill flag keeps its reason and blocks its AI alone; the removal resets it |
| EngineOut.Wrapper.HandleEvent | rts/ExternalAI/SkirmishAIWrapper.cpp:457-465 | The wrapper's fields, flag and log afterwards: the call is logged and answered unless it is blocked |
| EngineOut.Wrapper.InitLibrary | rts/ExternalAI/SkirmishAIWrapper.cpp:120-137 | The fields, the kill flag and the log afterwards, for every outcome of fetch and library init |
| EngineOut.Wrapper.SendInitEvent | rts/ExternalAI/SkirmishAIWrapper.cpp:190-203 | The same for every result of the init event |
| EngineOut.Wrapper.HandleEvents | rts/ExternalAI/SkirmishAIWrapper.cpp:205-233 | The loop delivers each event in turn, and none after the AI is blocked |
| EngineOut.Wrapper.Stop | rts/ExternalAI/SkirmishAIWrapper.cpp:147-188 | Kill of the wrapper, apart from the load count |
| EngineOut.Handler.constructor | rts/ExternalAI/EngineOutHandler.h:111-119 | All wrappers are distinct and new, all lists empty, no kill flag set |
| EngineOut.Handler.CreateSkirmishAI | rts/ExternalAI/EngineOutHandler.cpp:523-558 | The objects realise the creation step and keep the invariant |
| EngineOut.Handler.HandleEvent | rts/ExternalAI/EngineOutHandler.cpp:85-88 | The objects realise the delivery of one event to an active AI and keep the invariant |
| EngineOut.Handler.SetLocalKillFlag | rts/ExternalAI/SkirmishAIHandler.cpp:258-270 | The objects realise a kill flag set from outside and keep the invariant |
| EngineOut.Handler.ResetLocalKillFlag | rts/ExternalAI/SkirmishAIHandler.cpp:205-205 | The objects realise the reset of the flag and keep the invariant |
| EngineOut.Handler.PostLoadSkirmishAI | rts/ExternalAI/EngineOutHandler.cpp:560-567 | The objects realise the post-load step and keep the invariant |
| EngineOut.Handler.EraseFirst | rts/ExternalAI/EngineOutHandler.cpp:573-579 | Find and erase remove the first occurrence of the id and nothing else |
| EngineOut.Handler.DestroySkirmishAI | rts/ExternalAI/EngineOutHandler.cpp:569-589 | The objects realise the destruction step and keep the invariant |
| EngineOut.Handler.Kill | rts/ExternalAI/EngineOutHandler.h:35-44 | The loop terminates with all lists empty, no library held and all counts zero |
| Dispatch.EngineTablesAreConsistent | rts/ExternalAI/EngineOutHandler.h:111-119 | The tables of every reachable engine state satisfy what the dispatch loops need |
| Dispatch.DoForEnemies | rts/ExternalAI/EngineOutHandler.cpp:201-216 | Notifies exactly the AIs hostile to the unit that cheat or sense it, in order |
| Dispatch.DoForTeam | rts/ExternalAI/EngineOutHandler.cpp:189-197 | Notifies exactly the AIs of a team, in order |
| Dispatch.SendUnitCreated | rts/ExternalAI/EngineOutHandler.cpp:229-240 | The list of notices for a new unit, also when no AI is active |
| Dispatch.SendUnitFinished | rts/ExternalAI/EngineOutHandler.cpp:242-251 | The list of notices for a finished unit |
| Dispatch.TellOwnersOfDeath | rts/ExternalAI/EngineOutHandler.cpp:341-354 | The owners hear of the attacker exactly if their ally team senses it or they cheat |
| Dispatch.TellOwnersOfDamage | rts/ExternalAI/EngineOutHandler.cpp:392-410 | The same for damage, with its amount, the direction of the attacker if there is one, the weapon and the paralyzer flag |
| Dispatch.TellAttackers | rts/ExternalAI/EngineOutHandler.cpp:423-431 | The attacker's team hears of the damage exactly if its ally team senses the unit or the AI cheats |
| Dispatch.SendUnitDestroyed | rts/ExternalAI/EngineOutHandler.cpp:334-376 | The list of notices for a death |
| Dispatch.SendUnitDamaged | rts/ExternalAI/EngineOutHandler.cpp:378-432 | The list of notices for damage, with everything they carry and all early returns |
| Dispatch.SendUnitCaptured | rts/ExternalAI/EngineOutHandler.cpp:298-332 | The list of notices to the old side |
| Dispatch.SendUnitGiven | rts/ExternalAI/EngineOutHandler.cpp:263-296 | The list of notices to the new side |
| Dispatch.ToldOfOccasionOnce | rts/ExternalAI/EngineOutHandler.cpp:334-376 | No AI gets two notices of one creation, completion or death, such as UnitDestroyed and EnemyDestroyed |
| Dispatch.ToldOfDamageOnce | rts/ExternalAI/EngineOutHandler.cpp:378-432 | No AI gets both UnitDamaged and EnemyDamaged |
| Dispatch.WhoIsTold | rts/ExternalAI/EngineOutHandler.cpp:199-251 | Told are exactly the own team's AIs and the AIs of ally teams not allied with the unit's that have it in sight, on radar or by global sight, or that cheat |
| Dispatch.WhoIsToldOfDamage | rts/ExternalAI/EngineOutHandler.cpp:378-432 | Of damage, exactly the own team, and the attacker's team if it is no ally and senses the unit or the AI cheats |
| Dispatch.WhatIsToldOfCreation | rts/ExternalAI/EngineOutHandler.cpp:229-240 | The own team gets the unit and the builder's id, the others the unit |
| Dispatch.WhatIsToldOfCompletion | rts/ExternalAI/EngineOutHandler.cpp:242-251 | The own team gets a finished unit, the others a finished enemy |
| Dispatch.WhatIsToldOfDeath | rts/ExternalAI/EngineOutHandler.cpp:334-376 | The own team is told the weapon, and the attacker if and only if its ally team senses that one or the AI cheats; the others are told the attacker if and only if it is their ally |
| Dispatch.WhatIsToldOfDamage | rts/ExternalAI/EngineOutHandler.cpp:378-432 | Damage, weapon and paralyzer flag go to both sides; the own team is told the attacker under the same condition, each side gets its own direction |
| Dispatch.WhatIsToldOfTransfer | rts/ExternalAI/EngineOutHandler.cpp:263-332 | Both steps carry the unit, the old and the new team |
| Dispatch.OnlyKnownUnits | rts/ExternalAI/EngineOutHandler.cpp:229-251 | A hostile unit's id reaches only AIs that cheat or sense it, on creation and completion |
| Dispatch.OnlyKnownAttackers | rts/ExternalAI/EngineOutHandler.cpp:334-376 | The same for the destroyed unit and its attacker |
| Dispatch.OnlyKnownDamagers | rts/ExternalAI/EngineOutHandler.cpp:378-432 | The same for the damaged unit and its attacker |
| Dispatch.BuilderKeptIff | rts/ExternalAI/EngineOutHandler.cpp:229-240 | The builder's id gives nothing away if and only if there is no builder, it is allied or sensed, or all receivers cheat |
| Dispatch.BuilderIsGivenAway | rts/ExternalAI/EngineOutHandler.cpp:229-240 | A world in which it does give something away |
| Dispatch.WhoIsToldOfTransfer | rts/ExternalAI/EngineOutHandler.cpp:263-332 | Exactly which AIs hear of each step of a transfer, whether the first step sees the old or the new ally team; both steps only for a team that gives to itself |
| Dispatch.ToldOfTransferOnce | rts/Sim/Units/Unit.cpp:1545-1590 | No AI is told twice of one transfer if and only if the teams differ or the old team has no AI |
| Dispatch.AlliesOfBothHearNothing | rts/ExternalAI/EngineOutHandler.cpp:278-281 | AIs allied with both sides, of neither team, are told by neither step |
| AIHandler.DefaultsFillGaps | rts/ExternalAI/SkirmishAIHandler.cpp:331-342 | Given options are never changed; exactly the missing ones are added and listed, each with the default of its first entry |
| AIHandler.DefaultsAreIdempotent | rts/ExternalAI/SkirmishAIHandler.cpp:331-342 | Filling in twice is filling in once, also with repeated entries |
| AIHandler.FinishedIsIdempotent | rts/ExternalAI/SkirmishAIHandler.cpp:303-357 | Completing an AI twice is completing it once, also without the cached library key |
| AIHandler.FinishedKeepsOptions | rts/ExternalAI/SkirmishAIHandler.cpp:303-357 | Completion changes only the Lua flag and missing options, and no options of Lua AIs or of AIs of other hosts |
| AIHandler.FinishedFills | rts/ExternalAI/SkirmishAIHandler.cpp:303-357 | A local AI that is no Lua AI has every option of its library afterwards, the missing ones with their first default, and its key is cached |
| AIHandler.FinishedMarksLua | rts/ExternalAI/SkirmishAIHandler.cpp:345-357 | A valid AI is marked as a Lua AI exactly if it is one; Lua AIs and those of other hosts are left alone otherwise |
| AIHandler.AddKeeps | rts/ExternalAI/SkirmishAIHandler.cpp:182-197 | Adding keeps index, byte counter and entries in agreement |
| AIHandler.RemoveKeeps | rts/ExternalAI/SkirmishAIHandler.cpp:199-213 | Removing keeps them in agreement and leaves no flag or key behind |
| AIHandler.LoadPreGameKeeps | rts/ExternalAI/SkirmishAIHandler.cpp:93-117 | So does loading the game, after which every entry is complete |
| AIHandler.CreateLocalKeeps | rts/ExternalAI/SkirmishAIHandler.cpp:216-229 | So does starting a local AI |
| AIHandler.CreateLocalTables | rts/ExternalAI/SkirmishAIHandler.cpp:216-229 | Its data is handed over as that of the AI in creation of its team, and once the game is initialised nothing else changes |
| AIHandler.Apply | rts/ExternalAI/SkirmishAIHandler.cpp:182-270 | Every step keeps the invariant |
| AIHandler.EveryReachableIndexAgrees | rts/ExternalAI/SkirmishAIHandler.cpp:55-270 | After any run, loads of saved games included, the index holds exactly the valid ids, and the counter is their number |
| AIHandler.AddAndLoadCommute | rts/ExternalAI/SkirmishAIHandler.cpp:93-117 | Adding an AI before or after LoadPreGame gives the same state and the same answer |
| AIHandler.LoadGivesBackTheTable | rts/ExternalAI/SkirmishAIHandler.cpp:55-83 | Loading a saved game gives back data, index and counter, but no kill flag; the flags come back if and only if none was set |
| AIHandler.KillFlagIsLost | rts/ExternalAI/SkirmishAIHandler.cpp:55-83 | A run that flags an AI, and whose saved game is loaded without the flag |
| AIHandler.ReloadKeeps | rts/ExternalAI/SkirmishAIHandler.cpp:55-83 | Loading any saved data whose teams exist gives tables in agreement |
| AIHandler.SkirmishAIHandler.CompleteWithDefaultOptionValues | rts/ExternalAI/SkirmishAIHandler.cpp:331-342 | The loop over the options fills the gaps |
| AIHandler.SkirmishAIHandler.CompleteSkirmishAI | rts/ExternalAI/SkirmishAIHandler.cpp:345-357 | The tables after completion of one AI, including the cached key |
| AIHandler.SkirmishAIHandler.AddSkirmishAI | rts/ExternalAI/SkirmishAIHandler.cpp:182-197 | The objects realise the step; fails, changing nothing, if the id is taken |
| AIHandler.SkirmishAIHandler.RemoveSkirmishAI | rts/ExternalAI/SkirmishAIHandler.cpp:199-213 | The objects realise the step; fails, changing nothing, if there is no such AI |
| AIHandler.SkirmishAIHandler.LoadPreGame | rts/ExternalAI/SkirmishAIHandler.cpp:93-117 | The loop completes every entry once; a second call does nothing |
| AIHandler.ReadStateNeedsPostLoad | rts/ExternalAI/SkirmishAIHandler.cpp:47-53 | What has been read from a saved game with an AI in it is not consistent: the index is missing |
| AIHandler.SkirmishAIHandler.PostLoad | rts/ExternalAI/SkirmishAIHandler.cpp:55-67 | For whatever index, counter and flags there are, emptying, refilling and completing the tables makes them consistent and realises the load of the data |
| AIHandler.SkirmishAIHandler.Read | rts/ExternalAI/SkirmishAIHandler.cpp:47-67 | Reading saved data and kill flags into any tables and completing them gives the restored tables |
| AIHandler.SkirmishAIHandler.GetSkirmishAIsInTeam | rts/ExternalAI/SkirmishAIHandler.cpp:141-163 | Exactly the valid ids of the team, and of the host if one is given, in strictly ascending order |
| Commands.TopicRoundTrip | rts/ExternalAI/AISCommands.cpp:244-461 | The topic is read back from an encoded structure if and only if it is recoverable: at most two units to load, a positive build id, reclaim ids on their side of the unit limit, an unreserved custom id |
| Commands.TruncBelow | rts/ExternalAI/SSkirmishAICallbackImpl.cpp:291-639 | Truncating a parameter never moves it across the unit limit |
| Commands.TruncTowardsZero | rts/ExternalAI/SSkirmishAICallbackImpl.cpp:291-639 | Truncation gives the integer next to a parameter on the side of zero |
| Commands.KindByParameters | rts/ExternalAI/AISCommands.cpp:244-461 | Where one id stands for several kinds of order, which number of parameters makes which kind |
| Commands.SeenUpToReclaim | rts/Sim/Units/CommandAI/Command.h:245-262 | The byte copy of a raw command changes its topic exactly for reclaim orders of a feature with fewer than three parameters, to those of a unit, and never the number of parameters it needs |
| Commands.FeatureIsSeenAsUnit | rts/Sim/Units/CommandAI/Command.h:245-262 | A feature reclaimed with one parameter is dispatched as a unit, and ordered unchanged |
| Commands.ReclaimEncodesAlike | rts/ExternalAI/AISCommands.cpp:463-767 | Both readings of a reclaim parameter encode to the same command |
| Commands.NormaliseIsNormaliser | rts/ExternalAI/SSkirmishAICallbackImpl.cpp:291-639 | Decoding and encoding preserves id, options, time-out and topic of every raw command with enough parameters, is idempotent, and drops only an empty load order |
| Commands.NormalFormIsCanonical | rts/ExternalAI/AISCommands.cpp:463-767 | Every result is a canonical encoding |
| Commands.FixedIffCanonical | rts/ExternalAI/SSkirmishAICallbackImpl.cpp:291-639 | The raw commands left unchanged are exactly the canonical ones |
| Commands.ParametersStay | rts/ExternalAI/SSkirmishAICallbackImpl.cpp:291-639 | For every raw command: how many parameters the order has, and each is the raw one at the same place, exact, truncated or as a flag; only a missing radius is filled in, with zero |
| Commands.FieldsStand | rts/ExternalAI/AISCommands.cpp:463-767 | Where each field of a structure stands among the parameters of its command |
| Commands.PayloadRoundTrip | rts/ExternalAI/SSkirmishAICallbackImpl.cpp:291-639 | A structure survives encoding and decoding if and only if it is recoverable |
| Commands.EngineCommand.FromStructure | rts/ExternalAI/AISCommands.cpp:463-767 | newCommand, step by step, builds the encoding, whose id is that of toInternalUnitCommandTopic |
| Commands.EngineCommand.FromScalar | rts/ExternalAI/AISCommands.cpp:463-767 | The cases without a position or a list |
| Commands.EngineCommand.FromPlaced | rts/ExternalAI/AISCommands.cpp:463-767 | The cases with a position or a list |
| Commands.EngineCommand.PushUnits | rts/ExternalAI/AISCommands.cpp:598-606 | Appends all unit ids in order |
| Commands.ExecuteCommand | rts/ExternalAI/SSkirmishAICallbackImpl.cpp:291-639 | Orders the normal form, for the unit or, with a negative unit id, for the group |
| YardMap.DestinationIsTurn | rts/ExternalAI/SSkirmishAICallbackImpl.cpp:2892-2935 | The computed index is the row-major position of the cell turned geometrically |
| YardMap.DestinationIsPermutation | rts/ExternalAI/SSkirmishAICallbackImpl.cpp:2928-2937 | Every destination is in range, no two cells share one, and every position is hit |
| YardMap.TurnedIsUnique | rts/ExternalAI/SSkirmishAICallbackImpl.cpp:2928-2937 | A buffer with the right value at every destination is the turned map |
| YardMap.TurnedTurned | rts/ExternalAI/SSkirmishAICallbackImpl.cpp:2892-2937 | Turning to f and then, with the new dimensions, to g is turning to f + g modulo four |
| YardMap.TurnedSouth | rts/ExternalAI/SSkirmishAICallbackImpl.cpp:2899-2904 | Facing south is the identity |
| YardMap.FrontFaces | rts/ExternalAI/SSkirmishAICallbackImpl.cpp:2892-2935 | A cell is at the front exactly if, turned, it is on the side that is faced |
| YardMap.GetYardMap | rts/ExternalAI/SSkirmishAICallbackImpl.cpp:2876-2942 | The loops fill the buffer with the turned map, leave the rest alone and return the size; without a buffer only the size |
| Vectors.TripleWorld | rts/Game/Camera.cpp:181-188 | Changing to world coordinates multiplies every volume by the volume of the axes |
| Vectors.UnitReach | rts/Game/Camera.cpp:787-805 | A unit normal moves a point within the radius by at most the radius |
| Frustum.LocalSideNonNegative | rts/Game/Camera.cpp:190-208 | In camera coordinates no corner is outside any plane, and one corner is strictly inside each |
| Frustum.NormalIsUnit | rts/Game/Camera.cpp:198-200 | The normals never vanish, so normalising them works and gives unit vectors |
| Frustum.EnclosesIffOriented | rts/Game/Camera.cpp:164-208 | The planes enclose all eight corners if and only if up has a positive component along right cross forward |
| Frustum.ShowsIffRoom | rts/Game/Camera.cpp:164-208 | Outside no plane are exactly the points with room to all six, measured along the camera's axes |
| Frustum.PerspectiveRoom | rts/Game/Camera.cpp:172-175 | For a perspective view these are the points between near and far, sideways and up within depth times the tangents |
| Frustum.OrthographicRoom | rts/Game/Camera.cpp:176-179 | For an orthographic view, the points between near and far within the scales |
| Frustum.Camera.ShowsIffInView | rts/Game/Camera.cpp:164-208 | So the planes of a camera show exactly what its settings say |
| Frustum.CrossUpIsOriented | rts/Game/Camera.cpp:549-555 | Up as normalised cross product has that orientation if and only if right and forward are not parallel; otherwise the axes have no volume |
| Frustum.ParallelIff | rts/Game/Camera.cpp:520-546 | Right and forward of a rotation are parallel if and only if it looks straight up or down with a quarter roll |
| Frustum.RotIsOrientedIff | rts/Game/Camera.cpp:520-555 | The axes of a rotation have the enclosing orientation in exactly the other cases |
| Frustum.UnrolledAxes | rts/Game/Camera.cpp:520-555 | Without roll the axes are orthonormal, right is level and up is straight up for a level look |
| Frustum.RollLiftsRight | rts/Game/Camera.cpp:530-546 | Roll turns the right axis from the level towards the vertical, and leaves forward alone |
| Frustum.Camera.UpdateDirsFromRot | rts/Game/Camera.cpp:549-555 | Sets the axes to those of the rotation, so oriented |
| Frustum.InitialAxesAreFlipped | rts/Game/Camera.h:257-261 | The axes of a new camera have the other one |
| Frustum.HullIsInside | rts/Game/Camera.cpp:787-805 | The convex hull of points inside a plane is inside |
| Frustum.SphereNotOutside | rts/Game/Camera.cpp:787-805 | A sphere that meets the hull of the corners is outside no plane |
| Frustum.VertexPIsFurthest | rts/System/AABB.cpp:27-30 | No point of the box is further along the normal than the chosen vertex |
| Frustum.BoxNotOutside | rts/Game/Camera.cpp:865-881 | A box that meets the hull is outside no plane |
| Frustum.BoxInSphere | rts/System/AABB.hpp:81-85 | Every point of a box is within the box's radius of its center |
| Frustum.CornerOnSphere | rts/System/AABB.hpp:81-85 | The corners of a box are on that sphere, so no smaller radius would do |
| Frustum.TestedBits | rts/Game/Camera.cpp:787-805 | Every plane has its own bit in the mask |
| Frustum.Camera.UpdateFrustum | rts/Game/Camera.cpp:164-208 | Corners and planes are those of position, axes and projection; with well-oriented axes the planes enclose the corners, and show exactly the points between near and far within the tangents, or the scales, of the view |
| Frustum.Camera.SetFrustumPlane | rts/Game/Camera.cpp:190-201 | Sets one plane to the one through three corners |
| Frustum.Camera.IntersectSphere | rts/Game/Camera.cpp:787-805 | False if and only if the sphere is outside a tested plane |
| Frustum.Camera.IntersectAABB | rts/Game/Camera.cpp:865-881 | False if and only if the furthest vertex is outside a tested plane |
| Frustum.Camera.InViewSphere | rts/Game/Camera.cpp:356-360 | Never rejects a sphere that meets the frustum, and rejects exactly those outside a tested plane |
| Frustum.Camera.InViewBox | rts/Game/Camera.cpp:362-366 | Never rejects a box that meets the frustum, and rejects exactly those with their sphere or furthest vertex outside a tested plane |
| FrustumLines.ClippedIsUnique | rts/Game/Camera.cpp:679-709 | The clipped bounds do not depend on the order of the tests |
| FrustumLines.ClipIsExact | rts/Game/Camera.cpp:679-709 | A point of a line is kept if and only if it is on the view side of every line whose crossing passed the guard |
| FrustumLines.ClippedToView | rts/Game/Camera.cpp:679-709 | The same from the coordinates alone: on the view side of every line that meets it in one point, below zmax where it comes into view and above zmin where it goes out |
| FrustumLines.ClipStep | rts/Game/Camera.cpp:692-706 | One more test keeps the bounds the greatest and the least of the admissible crossings |
| FrustumLines.ClipPair | rts/Game/Camera.cpp:692-706 | The body of the inner loop changes only the one bound of the one line |
| FrustumLines.ClipFrustumLines | rts/Game/Camera.cpp:679-709 | In place, every line ends with its clipped bounds, and the unused slots and the count are left alone |
| SeenFile.RoundTripIff | packaging/message-check.swift:227-234 | Written and read again, a set of ids comes back if and only if the file can hold it |
| SeenFile.MergedLines | packaging/message-check.swift:227-234 | There are never more lines than ids, and fewer if an id before the last ends with a carriage return |
| SeenFile.ReturnLosesIds | packaging/message-check.swift:227-234 | Two ids that are merged into one |
| Launcher.Vcmp | packaging/message-check.swift:198-206 | The loop computes the comparison of the numbers of two versions |
| Launcher.FirstDifferenceDecides | packaging/message-check.swift:198-206 | The first part that differs decides, missing parts counting as zero |
| Launcher.NoDifferenceIsEqual | packaging/message-check.swift:198-206 | Versions are equal if and only if no part differs |
| Launcher.TrailingZeroIsEqual | packaging/message-check.swift:198-206 | A further part zero makes no difference |
| Launcher.ComponentReads | packaging/message-check.swift:198-206 | A part is read as the decimal number it prints, with or without a sign, if that fits into 64 bits, and as zero otherwise |
| Launcher.CompareIsOrder | packaging/message-check.swift:198-206 | The comparison is a total preorder |
| Launcher.TargetsHaveNoGaps | packaging/message-check.swift:207-221 | Apart from ne, what lies between two targeted versions is targeted |
| Launcher.TargetsByDifference | packaging/message-check.swift:207-221 | Which operators target a version, from its first part that differs from the target's |
| Launcher.TargetsItself | packaging/message-check.swift:207-221 | Which operators target a version none of whose parts differs |
| Launcher.RangeIsBoth | packaging/message-check.swift:214-218 | A range is the conjunction of its two bounds, inclusive unless said otherwise |
| Launcher.TargetsAllOrNone | packaging/message-check.swift:207-221 | Everything else targets all versions or none |
| Launcher.OldestFirstIsStable | packaging/message-check.swift:244-248 | Messages are shown by date, and those of one date in their order |
| Launcher.ProcessMessages | packaging/message-check.swift:425-468 | The loop's effect on seen ids, file, exit and messages shown, for every choice of the user |
| Launcher.KillSwitchQuits | packaging/message-check.swift:427-468 | A blocking message makes every completed launch quit, whatever is shown before it |
| Launcher.OthersLetPass | packaging/message-check.swift:286-294 | Any other message that is shown can be left without quitting |
| Launcher.DocumentedButtons | packaging/message-check.swift:222-224 | Every documented button either names a way on, quits or asks to stay |
| Launcher.NoButtonsLetPass | packaging/message-check.swift:435-436 | A message without buttons can be left without quitting |
| Launcher.AlwaysKillSwitchHolds | packaging/message-check.swift:427-470 | A kill switch that is always shown gives exit code 2 on every launch, for any seen file |
| Launcher.KillSwitchHolds | packaging/message-check.swift:427-470 | Any kill switch gives exit code 2 after any launches, if its id was only ever served as a kill switch and ids are clean |
| Launcher.WrittenIsRead | packaging/message-check.swift:227-234 | With clean ids the next launch reads what this one wrote |
| Launcher.VisitsKeep | packaging/message-check.swift:427-468 | Over any launches the seen ids only grow and the file stays readable |
| Launcher.ShownMessages | packaging/message-check.swift:427-468 | What is shown is for this version and always shown or was not seen; what is always shown is shown unless the launch quits |
| Launcher.DismissedIsSeen | packaging/message-check.swift:455-466 | A one-time message dismissed without quitting has been seen, also if a later message quits the same launch |
| Launcher.DismissedStaysAway | packaging/message-check.swift:427-468 | Such a message never comes back after any launches unless it is shown always |
| Launcher.OnlyAlwaysBringsBack | message-config/README.md:90-97 | A seen message is shown only if it is forced: served, for this version and shown always; a forced one is shown unless the launch quits, so without quitting exactly the forced ones are |
| LaunchEffects.ShownAtIff | packaging/message-check.swift:427-434 | A message is shown if and only if none before it made the user quit, it is for this version, and it is always shown or neither seen nor put away in this launch |
| LaunchEffects.ProcessExactly | packaging/message-check.swift:425-468 | The launch quits, marks an id and shows a message if and only if the user did so at, or put away, a message shown |
| LaunchEffects.ExitIffQuit | packaging/message-check.swift:470-470 | The exit code is 2 exactly if the user chose to quit at a message shown, else 0 |
| LaunchEffects.FailsOpen | packaging/message-check.swift:236-242 | Without a config of the right schema the launcher goes on and leaves the file alone |
| Launcher.DocumentedBlockIff | message-config/README.md:86-87 | A message with documented buttons that names no way on is a kill switch if and only if every link to stay at can be opened |
| Console.UniqueIsStrict | rts/Game/Console.cpp:21-33 | Sorted and made unique, the names are strictly increasing |
| Console.UniqueKeepsNames | rts/Game/Console.cpp:21-33 | No name is lost and none is added |
| Console.UniqueKeepsFirst | rts/Game/Console.cpp:21-33 | Of several entries with one name the first stays |
| Console.LowerBoundSplits | rts/Game/Console.cpp:48-49 | On a sorted table everything before the bound is smaller and nothing from there on is |
| Console.LookupIsLinearSearch | rts/Game/Console.cpp:48-55 | The binary search finds a name if and only if a linear search does, and its one entry |
| Console.SortedTableFindsAll | rts/Game/Console.cpp:21-56 | After any registrations and sorting, a name is found if and only if it was registered, and reaches one of its receivers |
| Console.BeforeBound | rts/Game/Console.cpp:48-49 | On any table, what stands just before the place found is smaller |
| Console.FoundIsSorted | rts/Game/Console.cpp:48-55 | A range in which bisection finds every entry at its place is sorted |
| Console.AllFoundIffSorted | rts/Game/Console.cpp:48-55 | Without repeated names, the search finds every command if and only if the table is sorted |
| Console.LateCommandIff | rts/Game/Console.cpp:35-56 | A new name appended to a sorted table is found if and only if it comes after all others, and only then is every command found |
| Console.LateCommandIsMissed | rts/Game/Console.cpp:35-56 | A late command that is missed and hides one found before |
| Console.CommandConsole.AddCommandReceiver | rts/Game/Console.h:52-52 | Appends the registration |
| Console.CommandConsole.SortCommandMap | rts/Game/Console.cpp:21-33 | For any result of the sort: strictly increasing names, only old entries, the same names |
| Console.CommandConsole.ExecuteAction | rts/Game/Console.cpp:35-56 | The search loop hands the action to the receiver of that name, and on a sorted table fails if and only if the name is not registered; "commands" always succeeds |
| ConsoleHistory.AddRawKeeps | rts/Game/ConsoleHistory.cpp:41-63 | Storing a line keeps the invariant: at most 256 lines, no equal neighbours, an empty line only first |
| ConsoleHistory.MovesKeep | rts/Game/ConsoleHistory.cpp:66-136 | Moving up and down keeps it, and the position within the queue |
| ConsoleHistory.UpAndDown | rts/Game/ConsoleHistory.cpp:66-136 | Any k moves up and k moves down, fed back verbatim, lead back to the same history and draft if and only if the draft has no text and, without a prefix, no line passed looks like chat; then, as far as the history goes, the lines come back in reverse |
| ConsoleHistory.UnfaithfulFails | rts/Game/ConsoleHistory.cpp:66-136 | In every other case the history or the draft is different afterwards |
| ConsoleHistory.PrefixStays | rts/Game/ConsoleHistory.cpp:66-136 | Once a line has a chat prefix, whatever is shown next has one |
| ConsoleHistory.ChatLikeLineIsSplit | rts/Game/ConsoleHistory.cpp:26-38 | A line that looks like chat gets into the history behind another prefix, and going up and down then changes the history |
| ConsoleHistory.DraftIsStored | rts/Game/ConsoleHistory.cpp:103-136 | A new draft is appended, and the former last line is shown unless the queue was full |
| ConsoleHistory.EditIsStored | rts/Game/ConsoleHistory.cpp:66-136 | A line edited above the end is stored as a new one by either move, and where each move goes then |
| ConsoleHistory.UneditedStays | rts/Game/ConsoleHistory.cpp:66-136 | A line without text or edits is not stored again, and the moves go one line up or down |
| ConsoleHistory.PrefixAndBody | rts/Game/ConsoleHistory.cpp:26-38 | A line consists of its chat prefix, one of four letters and a colon, and its text |
| ConsoleHistory.CConsoleHistory.AddLineRaw | rts/Game/ConsoleHistory.cpp:41-63 | The queue afterwards, and whether the line was stored |
| ConsoleHistory.CConsoleHistory.AddLine | rts/Game/ConsoleHistory.cpp:26-38 | The same without the chat prefix |
| ConsoleHistory.CConsoleHistory.NextLine | rts/Game/ConsoleHistory.cpp:66-100 | The queue, the position and the line shown after a move down, in every branch |
| ConsoleHistory.CConsoleHistory.PrevLine | rts/Game/ConsoleHistory.cpp:103-136 | The same for a move up |

## Left out

- Foreign AI and interface libraries: every call into them is an arbitrary answer, with or without a crash, and the only trace of it is the log.
- CreateSkirmishAI for Lua AIs, network messages about AI states, timers, callbacks and the files of Load and Save: they do not touch the modelled tables.
- DestroySkirmishAI of an AI that is not active: the source asserts that it is in both lists; without assertions a second request (see `LifetimeRequests`; rts/Net/NetCommands.cpp:1354-1357 destroys the AI on each) would index the teams with -1.
- LibraryManager.Manager.ReleaseAll: works over the keys present at the start, because the source erases from the map while iterating over it, which is undefined.
- VersionCompare with more than 15 parts: the shift is undefined there, and so is every sum that overflows, which the model wraps around. The result of std::string::compare is a parameter of which only the sign is assumed.
- ResolveSkirmishAIKey and FindFittingInterfaceKey take the iteration sequence of the key set as a list; gathering the keys from files is not modelled.
- Events other than created, finished, given, captured, destroyed and damaged. The two directions of a hit are parameters, since the units' error positions are not modelled.
- Whether a delivered notice passes the wrapper's event block is the subject of Lifecycle, not of Dispatch.
- Commands: 32-bit integers and floats are exact numbers, so rounding of large unit ids is not captured; the unit, group and time-out fields shared by all structures, and the cheat and drawing commands of handleCommand are left out.
- GetYardMap: a yard map of a size other than xsize times zsize, and a buffer shorter than the map, which the source excludes by assertion, are not modelled; the cast of a cell to short is exact.
- Frustum: the reciprocal square root is an exact one; edges, matrices, the shadow camera's choice of planes beyond the mask, and rounding are left out, and angles enter as tangents, sines and cosines.
- FrustumLines: how the lines are computed from the planes is left out; the clipping is modelled for any lines.
- AIHandler: the pointers of the id map are the ids themselves; statistics, names of AIs and the lookups by name or by player are left out.
- Launcher: fetching, parsing and HTML cleaning, dialog layout, and the dry run are left out; the user's choice is any button that closes the dialog. Strings are compared by character, not by Unicode equivalence.
- Console.CommandConsole.SortCommandMap: the result of std::sort is a parameter, any sorted permutation, since the sort is not stable.
- Camera transitions, text input drawing and everything that needs a window.
