# A verified model of the Ethernet-over-UDP tunnel

The program carries Ethernet frames between TAP devices and UDP peers. Each remote endpoint (an IPv6
address and a port) gets a TAP device of its own; worker threads, one per queue, share the table from
endpoints to taps. This project models the four parts of it that hold its hard behaviour and proves
what they do, on all inputs and over all runs.

* **The endpoint table** (`src/endpoint_map.c`). `EndpointTable` gives the effect of each operation on
  the stored structure as a function on values, branch by branch, and `Overlay`, the plain finite map
  a table stands for. `EndpointMap.Map` is the structure itself, changed in place and proved against
  those functions, on every table the operations can leave, with or without repeated keys.
  `EndpointRebuild` proves when the randomised rebuild can succeed, `EndpointRemoval` what removal
  keeps and breaks, and `EndpointRuns` exactly which runs of additions, removals and lookups refine the
  finite map; `EndpointGrowth` builds one that does not. Random numbers are an arbitrary stream of 32-bit words.
* **The worker protocol** (`src/tunnel.c`). `Worker` is a step machine: any number of workers, one step
  per lock operation, lookup, system call, counter load or store, and turn of the table's retry loop.
  `Enabled` and `Apply` say when a worker can take a step and what it does; everything the machine
  cannot know (which events arrive, what a read returns, whether a call fails, which random numbers
  come, which worker runs) is chosen by the action. The other `Worker*` modules prove one invariant,
  piece by piece; `WorkerSafety` puts it together for every reachable state, and `WorkerTheorems` draws the
  conclusions. `WorkerDeliveries` follows each answered datagram to its tap; `WorkerTrace` follows each frame
  read to its endpoint, and compares the counters with the system calls of the run themselves.
  `WorkerBlocked`, `WorkerAdmission` and `WorkerFaults` build runs, towards service and towards failure, and
  `WorkerScenarios` starts them from a tunnel just created.
* **The allow list** (`src/ip_addr.c`). `Cidr` computes masks with the shifts and byte swaps of the
  source on a little-endian host; `CidrList` is the tokeniser and the list. `atoi` and `inet_pton` are
  parameters.
* **The configuration pipeline** (`src/ini.c`, `src/main.c`). `Ini` parses each line in place in its
  buffer, against a specification on strings; `IniPrint` prints and parses back; `Config.Parser` is
  the callback's state; `ConfigBlocks` says what a whole file means. `atoi`, the number of processors
  and whether a tunnel can be created are parameters.

## What the proofs found

These follow the code where it differs from what its comments or documentation suggest.

* The fold used by tables of at most 256 slots reads four of the sixteen address bytes
  (`src/endpoint_map.c:50`). For IPv4-mapped addresses (section 2.5.5.2 of RFC 4291) it is the port
  alone, so a third IPv4 peer on one port can never be added: the retry loop goes on forever while
  its worker holds the write lock, and the whole tunnel stops (`ThirdIpv4PeerBlocksTunnel`). Three
  datagrams are enough (`ThreeIpv4PeersStopTunnel`). In general an addition can complete exactly when
  some nonces place its keys (`AdditionCompletesIff`, `SomeNoncesIff`).
* A full table is rebuilt from the doubled array, whose new half `realloc` leaves as it finds it
  (`src/endpoint_map.c:107`, `src/endpoint_map.c:115`). The addition is an ordinary update exactly when
  that half binds nothing new and its key does not sit in its second slot below a free first one
  (`AddIsUpdateIff`, and over whole runs `RunRefinesMapIff`). The first half of that condition can fail in a
  run of additions alone: 33 of them can end in a table that answers for a peer nobody added
  (`GrowthCanBringBackAStranger`).
* The CIDR test is "some masked bit of the address is set" (`src/ip_addr.c:56`), not prefix membership.
  It is membership, for every address, for exactly one network (`MatchIsMembershipIff`). Of IPv4 peers a
  list admits all, when it has a prefix longer than 80 bits, or none (`ListAllowsIpv4Iff`); the list given
  in the documentation (`README.md:88`) admits none (`DocumentedListAllowsNoIpv4`).
* `inet_pton` reports malformed text by returning 0 and the code looks for a negative one
  (`src/ip_addr.c:10`), so such a token is accepted with a zero address. A prefix length of 0 shifts a
  128-bit word by 128, and a token of 46 characters or more overflows its buffer; both are marked
  `Undefined`.
* Registering a tap's descriptors can fail halfway (`src/tunnel.c:113-132`). The events already
  registered stay behind (`OrphansGrowExactly`). Until another tap gets the abandoned id such an event
  names no counted tap, and handling it reads through a pointer to descriptors that were freed
  (`src/tunnel.c:120`, `src/tunnel.c:129`, `src/tunnel.c:237`); this is the only way a worker can fault
  (`FaultsExactly`), and it can happen (`HalfRegistrationCanFault`). Afterwards the event names a counted tap
  but carries the abandoned descriptor: there is no fault, the named tap's device is read, and the one that
  had something to read is not (`HalfRegistrationCanMislead`). An event carries its own tap's descriptor
  exactly when it was not left behind (`EventsCarryOwnDescriptorIff`).
* Creating a tap for a source with port 0 fails an assertion and ends the program (`src/tunnel.c:99`).
  That is the only step that does (`AbortsExactly`, `RunAbortsIff`), and one datagram from an allowed
  address can bring it about (`PortZeroCanEndProgram`).
* Trimming keeps the first word only (`src/ini.c:13`): a value survives exactly when it holds no whitespace
  (`FirstWordPaddedIff`), and of a command with arguments only its name is left (`ValueIsCut`). The commands
  the documentation gives for `post_exec` (`README.md:132`, `README.md:138`) are cut to `ip`
  (`DocumentedCommandIsCut`).
* `seen_values` is never cleared, so once a section has had a setting every later section becomes a tunnel,
  even an empty one (`FileMeansBlocks`).

## Assumptions

* In the worker machine, the half of the array added by growth holds no present entry. `EndpointMap.Map` and
  `EndpointRuns` do not assume it.
* Allocation succeeds and the map keeps its address when it grows: the result of `endpoint_map_add` is
  dropped at `src/tunnel.c:340`.
* A tap is created only while fewer than 2^30 exist, since ids live in signed 31-bit fields.
* Descriptors opened for a new tap differ from all registered ones.

## Model

| member | source | states |
|---|---|---|
| `IpAddr.SameEndpoint` | src/endpoint_map.c:77 | comparing the 128-bit views of the addresses and the ports compares the endpoints |
| `EndpointHash.Hash` | src/endpoint_map.c:38-45 | the loop over the address words, from the nonce, gives the nonce combined with a fold of the key alone |
| `EndpointHash.HashSmall` | src/endpoint_map.c:47-56 | the 8-bit hash is a fold of the nonce combined with a fold of four address bytes and the port |
| `EndpointHash.SlotSplits` | src/endpoint_map.c:64-70 | for a power-of-two capacity a slot is the masked fold of the key combined with the masked nonce, and is in bounds |
| `EndpointHash.SecondSlot` | src/endpoint_map.c:64-72 | every key's second slot is its first displaced by the same spread, the masked exclusive-or of the nonces |
| `EndpointHash.SlotPairs` | src/endpoint_map.c:64-73 | the slot pairs of two keys are equal when their folds are equal or differ by the spread, and disjoint otherwise |
| `EndpointHash.OneSlotIff` | src/endpoint_map.c:64-73 | a key has one slot rather than two exactly when the spread is zero |
| `EndpointHash.Ipv4FoldIsPort` | src/endpoint_map.c:47-56 | at 256 slots or fewer, IPv4-mapped endpoints with one port have one fold whatever their addresses |
| `EndpointHash.Ipv4FoldBlindIff` | src/endpoint_map.c:47-69 | the fold does not see the address of an IPv4-mapped endpoint exactly in tables of at most 256 slots |
| `EndpointHash.HashOfChange` | src/endpoint_map.c:38-45 | changing one 32-bit word of the address, or the port, changes the 32-bit hash by the exclusive-or of that change, under every nonce |
| `EndpointHash.SmallHashOfChange` | src/endpoint_map.c:47-56 | changing one of the first four address bytes, or the port, changes the 8-bit hash by the exclusive-or of that change, and changing any other address byte does not change it |
| `EndpointHash.NonceFoldOfBytes` | src/endpoint_map.c:48-49 | the nonce enters the 8-bit hash by the exclusive-or of its four bytes |
| `EndpointTable.InsertAgrees` | src/endpoint_map.c:58-91 | insertion fails only with both slots held by other keys, and otherwise is a map update that keeps keys unique, well placed and never in a second slot below a free first one |
| `EndpointTable.LookupAgrees` | src/endpoint_map.c:164-185 | lookup gives the id bound to the key, and -1 exactly when none is |
| `EndpointTable.ReinsertAgrees` | src/endpoint_map.c:134-146 | re-inserting saved entries, when it succeeds, stands for everything that was saved |
| `EndpointTable.AttemptAgrees` | src/endpoint_map.c:127-153 | a successful turn of the retry loop stands for what was saved with the new binding on top, under any nonces |
| `EndpointTable.Field31Exact` | src/endpoint_map.c:9 | a 31-bit field keeps the low 31 bits of an id, and so the id itself exactly when it is in range |
| `EndpointRebuild.RebuildCriterion` | src/endpoint_map.c:126-155 | a turn of the retry loop succeeds exactly when no slot pair is chosen by more keys than it has slots, and exactly when the keys can be placed by any means at all |
| `EndpointRebuild.RebuildDependsOnSpread` | src/endpoint_map.c:126-155 | neither the order of the entries nor anything about the nonces but their spread decides success |
| `EndpointRebuild.SomeNoncesIff` | src/endpoint_map.c:126-155 | some nonces end the retry loop exactly when some spread leaves no slot pair overfull |
| `EndpointRebuild.ThreeOfOneFold` | src/endpoint_map.c:126-155 | with three distinct keys of one masked fold no nonces end the retry loop |
| `EndpointRebuild.ThirdIpv4PeerHangs` | src/endpoint_map.c:47-56 | three IPv4 peers on one port never fit a table of at most 256 slots |
| `EndpointRebuild.AtMostTwoEntriesPerFold` | src/endpoint_map.c:64-91 | of any three entries whose keys have one masked fold, in any table the operations leave, two are the same entry |
| `EndpointRebuild.AtMostTwoPerFold` | src/endpoint_map.c:64-91 | so no table, with or without repeated keys, holds three keys of one masked fold |
| `EndpointMap.Map.constructor` | src/endpoint_map.c:23-36 | a new map has 32 free slots, the next two random numbers as nonces, and stands for the empty map |
| `EndpointMap.Map.TryInsertAt` | src/endpoint_map.c:74-89 | one slot: overwrite the id of the same key, fill a free slot and count it, or refuse |
| `EndpointMap.Map.TryInsert` | src/endpoint_map.c:58-91 | the in-place insertion computes the insertion on values, and leaves the map alone when it fails |
| `EndpointMap.Map.Lookup` | src/endpoint_map.c:164-185 | on every table the lookup on values; with distinct keys, the id the finite map binds to the key, or -1 |
| `EndpointMap.Map.Remove` | src/endpoint_map.c:187-210 | the in-place removal computes the removal on values, on every table the operations leave |
| `EndpointMap.Map.TryRebuild` | src/endpoint_map.c:127-154 | one turn of the retry loop in place computes the attempt on values |
| `EndpointMap.Map.RebuildUntilGood` | src/endpoint_map.c:126-155 | the loop stops at the first good pair of random numbers; its measure is the distance to some good pair |
| `EndpointMap.Map.Add` | src/endpoint_map.c:93-162 | addition with rebuild and growth, on every table the operations leave and every stream on which it returns: the new table, the retries and the random numbers consumed; distinct keys stay distinct exactly when the key is not shadowed |
| `EndpointMap.AddedAgrees` | src/endpoint_map.c:93-162 | every addition leaves a well-formed table, and one that rebuilds leaves a valid table standing for the saved entries with the new binding on top |
| `EndpointMap.AddedUsesPairs` | src/endpoint_map.c:126-155 | the i-th turn of the retry loop uses the next two random numbers and is the last exactly when they let the keys be placed; the table keeps the last two as its nonces |
| `EndpointMap.AddedKeepsValid` | src/endpoint_map.c:93-162 | additions alone never leave a key in its second slot below a free first one |
| `EndpointMap.AddIsUpdateIff` | src/endpoint_map.c:93-162 | an addition, with its rebuild and growth, keeps keys distinct exactly when its key is not in its second slot below a free first one, and is then a plain map update exactly when the new half, if read, binds nothing new |
| `EndpointMap.ClearHalfHarmless` | src/endpoint_map.c:97-124 | a new half with no present entries is harmless |
| `EndpointMap.ThirdIpv4PeerNeverReturns` | src/endpoint_map.c:126-155 | adding the third IPv4 peer on one port to a small table returns for no stream of random numbers |
| `EndpointMap.ReinsertStaysTaken` | src/endpoint_map.c:138-149 | leaving the loop at the first failure loses nothing: the attempt has failed |
| `EndpointRuns.RunRefinesMapIff` | src/endpoint_map.c:93-210 | a run of additions, removals and lookups stays faithful to the finite map its operations build exactly as long as each addition is clean: its key not in its second slot below a free first one, its new half binding nothing new |
| `EndpointRuns.RunAnswersAsMap` | src/endpoint_map.c:164-210 | while additions are clean, lookups and removals answer as on the finite map and the count is the number of keys |
| `EndpointRuns.MeaningIsLast` | src/endpoint_map.c:93-210 | that map binds a key exactly when the last operation on it was an addition, to the id then added |
| `EndpointRuns.AdditionsAreClean` | src/endpoint_map.c:93-185 | runs of additions and lookups with no present entry in any new half are always clean |
| `EndpointGrowth.DistinctFoldsFit` | src/endpoint_map.c:126-155 | keys of distinct masked folds are placed by any nonces with a nonzero spread |
| `EndpointGrowth.FillsUpTo` | src/endpoint_map.c:93-111 | from any creation nonces, the peers of one address on ports 1 to 32 fill the table without a rebuild |
| `EndpointGrowth.GrowthCanBringBackAStranger` | src/endpoint_map.c:97-124 | from any creation nonces there is a run of 33 additions that is faithful up to the 32nd and not after the 33rd, whose new half holds an entry for a peer never added: the table then answers for that peer |
| `EndpointRuns.RunKeepsFormed` | src/endpoint_map.c:97-210 | in every run the capacity is a power of two of at least 32 that only doubles when full, indices are in bounds, entries are in slots of their keys and the count is the number of present entries |
| `EndpointRemoval.RemoveAgrees` | src/endpoint_map.c:187-210 | removal deletes exactly the given key, keeps keys unique and the count right, and reports absence exactly when there was none |
| `EndpointRemoval.InsertKeepsUniqueIff` | src/endpoint_map.c:74-89 | the same for one insertion: keys stay distinct exactly when the key is not in its second slot below a free first one |
| `EndpointRemoval.ShadowedCopyReturns` | src/endpoint_map.c:74-89 | in the other case the key is stored twice, and removing it once brings the old id back |
| `EndpointRemoval.AddsStack` | src/endpoint_map.c:74-89 | adding two keys of one fold puts one in the first slot and the other in the second |
| `EndpointRemoval.RemoveLeavesShadow` | src/endpoint_map.c:199-207 | removing the first of them leaves the second in that situation, so removal does not keep the stronger invariant |
| `Cidr.SwapAndExchange` | src/ip_addr.c:36-42 | swapping the bytes of each half and exchanging the halves reverses all sixteen bytes |
| `Cidr.MaskOf` | src/ip_addr.c:24-42 | for a prefix of 1 to 128 bits the stored mask has exactly the first p network-order bits set |
| `Cidr.MatchBits` | src/ip_addr.c:55-60 | the 128-bit test holds exactly when address and mask share a set bit |
| `Cidr.MatchIsSomePrefixBit` | src/ip_addr.c:55-60 | with a p-bit mask the test holds exactly when one of the address's first p bits is set, so it holds of every member of a network whose prefix is not all zeros |
| `Cidr.MatchIsMembershipIff` | src/ip_addr.c:55-60 | the test is prefix membership for every address exactly for the one-bit prefix whose bit is set |
| `Cidr.Ipv4MatchIff` | src/ip_addr.c:55-60 | an entry admits every IPv4-mapped address when its prefix is longer than 80 bits, and none otherwise |
| `Cidr.UnfilledMatchesNothing` | src/ip_addr.c:76-77 | a zeroed entry matches no address |
| `CidrList.ParseToken` | src/ip_addr.c:17-47 | what a token denotes: its mask and address, a rejected prefix length, or undefined behaviour |
| `CidrList.DenotesOnce` | src/ip_addr.c:17-47 | a token denotes one thing |
| `CidrList.TokenReads` | src/ip_addr.c:17-47 | of a text, a slash and a number the text is the address and the number the prefix length, of a text alone the prefix length is 128; a text that is no address stands for the zero one |
| `CidrList.AcceptedIff` | src/ip_addr.c:17-47 | a token denotes an entry exactly when it has fewer than 46 characters and its prefix length, 128 when it has none, is 1 to 128 |
| `CidrList.CountEntries` | src/ip_addr.c:63-69 | the loop counts the commas plus one |
| `CidrList.NextToken` | src/ip_addr.c:79-88 | each call yields the next token and where to resume |
| `CidrList.TokensAreFields` | src/ip_addr.c:79-88 | the tokens are exactly the non-empty stretches between commas, in order |
| `CidrList.TokensOfJoin` | src/ip_addr.c:79-88 | joining any non-empty words without commas by commas, and splitting again, gives back the words |
| `CidrList.TokensFit` | src/ip_addr.c:64-82 | tokens number at most commas plus one, so every write is in bounds |
| `CidrList.Create` | src/ip_addr.c:62-93 | a list is created exactly when every token is short with a prefix length of 1 to 128; it has an entry per token, in order, and zeroed entries after them; a failure names a token that caused it |
| `CidrList.ListMatch` | src/ip_addr.c:95-103 | the list matches exactly when some entry does |
| `CidrList.ListAllowsIff` | src/ip_addr.c:62-103 | a created list admits an address exactly when some token does: unfilled entries add nothing |
| `CidrList.ListAllowsIpv4Iff` | src/ip_addr.c:62-103 | a created list admits every IPv4 peer exactly when some token's prefix is longer than 80 bits, and none otherwise |
| `CidrList.DocumentedListAllowsNoIpv4` | README.md:88 | the documented list of two IPv4 networks admits no IPv4 peer |
| `WorkerSafety.InitInv` | src/tunnel.c:565-591 | the state built at creation, with or without a default endpoint, satisfies the invariant |
| `WorkerSafety.StepKeepsInv` | src/tunnel.c:210-383 | every step of every worker keeps the invariant |
| `WorkerSafety.ReachableInv` | src/tunnel.c:210-383 | every reachable state, under every interleaving, satisfies the invariant |
| `WorkerTheorems.Linearisable` | src/tunnel.c:306-348 | every interleaving refines a sequential run of lookup-or-allocate from the configured endpoint; the sources each worker has answered, in order, are those of the datagrams it has received, less the one at hand, and each datagram is delivered under the answer for its source |
| `WorkerTheorems.AnswerPoints` | src/tunnel.c:311-341 | an answer is given exactly at the first lookup when the source has a tap or is not allowed, otherwise at the second lookup on a hit, and else where the tap is counted or given up; it is for the source at hand, and one the sequential server may give |
| `WorkerHistory.StepKeepsHistory` | src/tunnel.c:306-348 | every step keeps the answers a sequential run and each worker's answered sources those it has received |
| `WorkerDeliveries.AnsweredIsWrittenOnce` | src/tunnel.c:311-371 | each worker has written to taps, in order, exactly the datagrams it has answered with a tap, less the one in hand, each to the tap of its answer |
| `WorkerHistory.OneIdPerEndpoint` | src/tunnel.c:306-348 | in a sequential run an endpoint that has an id gets that id in every later answer |
| `WorkerTheorems.IdsAreConsecutiveAndUnique` | src/tunnel.c:99-136 | new ids are consecutive in the order of the answers, and no endpoint gets two taps |
| `WorkerTheorems.AllowedIff` | src/tunnel.c:316 | an address is allowed exactly when there is a list and it shares a set bit with the mask of some entry |
| `WorkerTheorems.NoListNoStrangers` | src/tunnel.c:316-347 | in every run of a tunnel without an allow list there is at most the configured tap, and every other source is refused |
| `WorkerTheorems.ListDecides` | src/tunnel.c:316-347 | with a list, a source given or denied a new tap shares a set bit with some entry's mask, and a refused one with none |
| `WorkerTheorems.TableMirrorsTaps` | src/tunnel.c:311-341 | with no worker mid-update, table and taps are inverse: an endpoint looks up to an id exactly when that tap holds it, and to nothing exactly when no tap does |
| `WorkerTheorems.AssignmentsNeverChange` | src/tunnel.c:82-137 | in every run taps keep their ids and endpoints |
| `WorkerTheorems.LockDiscipline` | src/tunnel.c:227-341 | each worker holds exactly what its program point says, also on the `continue` taken while write-locked; a writer excludes all others |
| `WorkerTheorems.NoDeadlock` | src/tunnel.c:322-341 | unless the assertion has ended the program, a worker whose request cannot be granted waits for another that holds the lock and can step, unless that one has faulted |
| `WorkerTheorems.SharedStateIsGuarded` | src/tunnel.c:322-341 | the table, the taps and the tap array change only under the write hold |
| `WorkerTheorems.TapsFitArray` | src/tunnel.c:85-98 | the counted taps fit the allocated array, and their ids the 31-bit fields |
| `WorkerTheorems.ReallocatedExactly` | src/tunnel.c:85-98 | the tap array is reallocated exactly when a tap is created with the array full; it then doubles, from one |
| `WorkerTheorems.FaultsExactly` | src/tunnel.c:232-266 | a step follows a stale or dangling pointer exactly when it reads a tap through an event that names no counted tap, and that event was left by an abandoned tap |
| `WorkerTheorems.NoFault` | src/tunnel.c:234-237 | so no worker has faulted while no tap has been abandoned half registered |
| `WorkerTheorems.OrphansGrowExactly` | src/tunnel.c:119-131 | events are left behind exactly by a registration that fails after the first descriptor, and are the ones registered so far |
| `WorkerFaults.AbandonedTapCanFault` | src/tunnel.c:113-132 | with two workers or more, from a state with a free lock there is a run through such a failure to a fault |
| `WorkerFaults.AbandonedTapCanMislead` | src/tunnel.c:99-132 | and, once the abandoned id is given out again, a run to handling an event that names a counted tap with another descriptor |
| `WorkerTheorems.CarriedIdsAreGood` | src/tunnel.c:327-352 | a tap pointer held across a read is of the current array, and an id obtained under the write hold stays the endpoint's own after the switch to the read hold |
| `WorkerTheorems.RoutingIsSafe` | src/tunnel.c:260-371 | every frame was sent to the endpoint of the tap it is counted against, and every datagram written to a tap came from that tap's endpoint |
| `WorkerTrace.FrameInHand` | src/tunnel.c:232-241 | a worker about to send a frame read it from the tap its event names |
| `WorkerTrace.SendStep` | src/tunnel.c:260-281 | a send goes to the endpoint of the tap the event names, and is counted there: the bytes sent on the sent counter, or one error |
| `WorkerTrace.WriteStep` | src/tunnel.c:350-371 | a write goes to the tap of the source last received, and is counted there: the bytes written on the received counter, or one error |
| `WorkerTrace.ReadIsSentOnce` | src/tunnel.c:232-281 | over every run, each worker has sent, in order, exactly the frames it has read, less the one it may hold, each for the tap its event named: none is rerouted, dropped or sent twice |
| `WorkerTheorems.RefusalIsInert` | src/tunnel.c:312-347 | an unknown source, when there is no list or its address shares no set bit with an entry's mask, changes nothing and writes to no tap |
| `WorkerTheorems.TotalsAreExact` | src/tunnel.c:271-280 | with no worker mid-count, a tap's counters add up to what the log says was counted on each, modulo their width: no update is lost |
| `WorkerTrace.PrintedIsWhatHappened` | src/tunnel.c:271-280 | over every run to a state with no worker mid-count, a tap's sent total is the bytes its send calls returned, its received total the bytes the writes of its endpoint's datagrams returned, and its errors the number of both that failed, modulo 2^64 |
| `WorkerTrace.PrintedTotals` | src/tunnel.c:428-450 | so the totals printed for a tap, computed by the printer's loop, are what the run's calls sent, wrote and failed to |
| `WorkerTotals.SumStats` | src/tunnel.c:428-434 | the printer's loop computes those sums in 64-bit words |
| `WorkerTheorems.QueuesAreDistinct` | src/tunnel.c:212 | running workers use distinct queues, so each counter has one writer |
| `WorkerTheorems.DescriptorsAccounted` | src/tunnel.c:374-380 | every registered descriptor is armed, in the unfinished part of a batch, or dropped by a failed re-arming, and only one of these; every tap's descriptors are registered with the workers of their queues |
| `WorkerTheorems.EventsGoToTheirLoop` | src/tunnel.c:228-300 | a tap's event is handled by reading the tap and a socket's by receiving; a batch has at most 64 events |
| `WorkerTheorems.EventsAreDrained` | src/tunnel.c:237-380 | an event is done with exactly when a read or a receive has found nothing more |
| `WorkerTheorems.StaysWithEvent` | src/tunnel.c:232-373 | until then a worker stays with its event, whatever becomes of each frame or datagram: sent or failed, refused, given a tap or denied one |
| `WorkerTheorems.RearmsExactly` | src/tunnel.c:374-380 | re-arming takes the event off the batch and arms it; a failure leaves it and the rest of the batch disarmed and ends the batch |
| `WorkerTheorems.EveryOutcomePossible` | src/tunnel.c:210-383 | at each call every outcome the call can have is a step of the machine: short and failed sends and writes, any datagram, failed creation, registration and re-arming |
| `WorkerTheorems.NothingIsDroppedIff` | src/tunnel.c:374-380 | over a run nothing is dropped exactly when no re-arming fails |
| `WorkerTheorems.EventsCarryOwnDescriptorIff` | src/tunnel.c:112-132 | a tap event being handled carries the worker's own descriptor of the tap it names exactly when it was not left behind by an abandoned tap |
| `WorkerTheorems.AbortsExactly` | src/tunnel.c:99 | a step ends the program exactly when a tap is to be created for a source with port 0 |
| `WorkerTheorems.RunAbortsIff` | src/tunnel.c:99 | a run has ended the program exactly when that was its last move |
| `WorkerBlocked.AdditionCompletesIff` | src/endpoint_map.c:126-155 | from a reachable state some run completes a worker's addition exactly when its key can be inserted or some nonces place all keys |
| `WorkerBlocked.TurnForgets` | src/endpoint_map.c:126-155 | a turn of the retry loop does not depend on what the turns before it left in the table |
| `WorkerBlocked.SecondKeyCanBeAdded` | src/endpoint_map.c:126-155 | the first two keys of a table can always be added |
| `WorkerBlocked.HopelessAdditionBlocks` | src/tunnel.c:340 | an addition no nonces can complete keeps the write lock held in every continuation, and nothing is received, answered or forwarded any more |
| `WorkerBlocked.ThirdIpv4PeerBlocksTunnel` | src/tunnel.c:333-340 | the third IPv4 peer on one port brings this about in every run, while the table stays at 256 slots or below |
| `WorkerAdmission.SourceGetsTap` | src/tunnel.c:306-340 | from a free lock, an allowed unknown source whose datagram reaches a waiting worker can be given the next tap, or, if its port is 0, the program can be ended: the run that does it |
| `WorkerAdmission.SourceIsServed` | src/tunnel.c:306-381 | unless its addition is blocked, such a source with a port can be added, delivered to and the worker be waiting again |
| `WorkerAdmission.ThirdIpv4PeerCanStopTunnel` | src/tunnel.c:306-340 | one datagram of a third IPv4 peer on a port leads from such a state to one after which no run receives, answers or forwards anything |
| `WorkerScenarios.FirstStateIsInit` | src/tunnel.c:497-591 | a tunnel just created without a default endpoint is an initial state |
| `WorkerScenarios.ThreeIpv4PeersStopTunnel` | src/tunnel.c:306-340 | from any tunnel created without a default endpoint, a datagram from each of three allowed IPv4 peers using one port can stop it for good |
| `WorkerScenarios.PortZeroCanEndProgram` | src/tunnel.c:99 | one datagram from port 0 of an allowed address can end the program |
| `WorkerScenarios.HalfRegistrationCanFault` | src/tunnel.c:113-132 | one datagram and one failed registration can lead a worker to a pointer to freed descriptors |
| `WorkerScenarios.HalfRegistrationCanMislead` | src/tunnel.c:113-132 | or, followed by another datagram, to an event that names a counted tap with another descriptor |
| `WorkerBlocked.TwoIpv4PeersPerPort` | src/tunnel.c:306-348 | a tunnel not mid-update with a table of at most 256 slots serves at most two IPv4 peers on any port |
| `Ini.TrimWhitespace` | src/ini.c:8-18 | trimming in place leaves the first word, and writes nowhere but between its start and the string's own terminator |
| `Ini.SplitSetting` | src/ini.c:54-64 | key and value are the first words on either side of the equals sign: trimming the key does not disturb the value |
| `Ini.SplitSection` | src/ini.c:45-52 | the section name is the first word after the opening bracket, ended by the closing bracket only when that follows |
| `Ini.ParseInPlace` | src/ini.c:37-78 | one line, parsed by writing into the buffer, is classified as the specification on strings says |
| `Ini.LineVerdict` | src/ini.c:37-73 | up to its first semicolon a line is skipped exactly when it is all whitespace, an error exactly when it has one kind of bracket alone or neither bracket, equals sign nor only whitespace, a section exactly with both brackets, and a setting exactly with an equals sign and neither |
| `Ini.LineEnds` | src/ini.c:33 | a line ends at its newline, or after 2047 characters |
| `Ini.TrimsExactly` | src/ini.c:8-18 | space, tab, newline and carriage return are dropped before a word and end it; no other character is or does |
| `Ini.ReadLine` | src/ini.c:33 | the buffer holds the next line up to its first NUL, whatever it held before |
| `IniPrint.FirstWordPaddedIff` | src/ini.c:8-18 | trimming a padded text gives the text back exactly when it holds no whitespace |
| `IniPrint.ValueIsCut` | src/ini.c:54-64 | of a value of several words the first is kept and the rest lost |
| `IniPrint.DocumentedCommandIsCut` | README.md:132 | the documented command for post_exec is cut to its first word |
| `IniPrint.CommentIgnored` | src/ini.c:37-41 | appending a comment to any line changes nothing |
| `IniPrint.ParsedIsProducible` | src/ini.c:37-73 | whatever a line is parsed to, its name, key and value hold no whitespace, terminator or semicolon, a key and a value no bracket, and a key no equals sign |
| `IniPrint.LineRoundTripIff` | src/ini.c:37-73 | a printed section or setting parses back, whatever its padding and comment, exactly when it is of that form and a section name does not hold the closing bracket |
| `IniPrint.RoundTripIff` | src/ini.c:33-82 | a list of sections and settings, printed one to a line within the buffer with blank lines and comment lines anywhere, parses back to exactly that list exactly when each of them is of that form |
| `IniPrint.FillerIsBlank` | src/ini.c:65-73 | a line of whitespace, with or without a comment, is skipped |
| `Config.Parser.constructor` | src/main.c:28-33 | parsing starts with nothing seen, cleared parameters and no tunnels |
| `Config.Parser.ResetParams` | src/main.c:35-44 | every parameter is cleared |
| `Config.Parser.OnSetting` | src/main.c:50-82 | one setting in place computes the step on values; a default endpoint without a colon is stored and rejected |
| `Config.Parser.OnEvent` | src/main.c:46-117 | one event in place computes the step on values |
| `Config.LoadLine` | src/ini.c:37-78 | one line is parsed in the buffer and its event given to the callback |
| `Config.Load` | src/ini.c:21-83 | reading a whole text, buffer and callback together, leaves the state and verdict of parsing it and then running the machine on the events, ended by the end of the file, an invalid line or a rejection |
| `ConfigBlocks.SetIsLast` | src/main.c:53-78 | applying the settings of a block one at a time leaves the value last written for each key |
| `ConfigBlocks.RunMidway` | src/main.c:46-117 | in the middle of a file the finished blocks are tunnels and the current one is in the parameters |
| `ConfigBlocks.FileMeansBlocks` | src/main.c:46-117 | a file is accepted exactly when every block from the first with a setting on is, and gives one tunnel for each, in file order, from its own settings and the defaults, named by its section, or "default" without one |
| `ConfigBlocks.NamesAreSections` | src/main.c:85-110 | in an accepted file the i-th tunnel is named by the i-th section from the first used one; only the first can have none, and is named "default" |
| `ConfigBlocks.RejectedAt` | src/main.c:61-108 | the first event a file is rejected at leaves exactly the tunnels of the blocks before; a tunnel that cannot be created leaves cleared parameters, a setting refused leaves them alone but for the host of an endpoint without a colon |
| `ConfigBlocks.OnlyFirstUnnamed` | src/main.c:85-110 | only the settings before the first header are without a section name |
| `ConfigBlocks.PrintedFileMeansBlocks` | src/ini.c:33-82 | from text to tunnels: a printed configuration loads exactly when its blocks are good, and gives their tunnels |

## Left out

- Linearisable: ids are below 2^30, beyond which the 31-bit fields would wrap.
- NoDeadlock: says that the lock's holder can step, not that it ever releases the lock; `HopelessAdditionBlocks` shows runs in which it does not.
- AdditionCompletesIff: for the worker machine, in which the half added by growth holds no present entry.
- AbandonedTapCanFault: for a waiting worker of queue 0, whose descriptor is the first to be registered.
- TotalsAreExact: modulo 2^64, and for a state in which no worker is between an effect and its count.
- RoundTripIff: for lines that fit the 2048-byte buffer; longer ones are split by `fgets`, which the parser model does follow.
- MaskOf: a prefix length of 0 is undefined in C and is not given a mask; `ParseToken` marks it.
- Whether a failed turn of the retry loop leaves some particular partly filled table: it may leave any, since the next turn clears it.
- `endpoint_map_remove` has no caller in the repository; it is part of the table's runs, but not a worker step.
- Wrap-around of the table's capacity beyond the width of `size_t`, and failure of any allocation.
- Sockets, TAP and bridge set-up, name resolution and MTU checks: creating a tunnel or a tap is an operation that may succeed or fail.
- The contents of frames and datagrams, and partial sends: only lengths are carried.
- Fairness and liveness of the lock and the scheduler beyond the absence of deadlock.
- Teardown: `tunnel_delete`, thread cancellation, signal handlers and freeing of memory.
- Logging, help text, the post-creation script, timestamps, and `time_since_human_str`, which only formats a duration.
- `tunnel_list_*`: the list of tunnels is a sequence, and adding to it succeeds.
