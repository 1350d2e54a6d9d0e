# quicgate: a verified model

quicgate is a reverse proxy written in Go. Its hard parts are small protocols and exact
algorithms behind mutexes, atomics and transactions. This project models them in Dafny,
each on its own, and proves what they promise over every run, every input or every
interleaving.

Where the source changes state step by step there is a class or a method with loops, proved
against functions on values; what the source promises is then proved about those functions.
Concurrent code is a transition system: one mutex section, channel operation, atomic operation
or database statement is one step, and a run is any sequence of steps.

| part | files | what is proved |
|---|---|---|
| Traffic history | `TrafficFrames`, `TrafficRollup`, `TrafficWindows`, `TrafficModel`, `TrafficSampling`, `TrafficRestart`, `TrafficRuns`, `TrafficReport`, `TrafficStats`, `TrafficLatency` | A frame stands for a list of samples. In every run, restarts of the process included, each resolution stands for the samples in order, none lost and none repeated; they hold exactly the growth of every engine counter, of every retained dimension and of the totals over all listeners; every report is the direct sum over the samples of its window, and where a restart within a sample step may cost the newest hour a frame is stated exactly; renumbering keys changes no meaning; quantiles lie in the right bucket and in order. |
| Flow log admission | `FlowLog` | In every interleaving of admissions and the writer, with any time-outs and write failures: no flow without its line, no line for a refused flow, no refusal without a reason, one probe at a time, and nobody blocks. |
| VPN leases | `Lease` | In every interleaving of logins, ticks, renewals, marks and ends: deadlines stay in order, stale renewals never commit, an ended session stays ended until a login, access stops without evidence, and with it logins and renewals go through to the deadlines the settings give. |
| Reading the SNI | `Sni` | The loops equal recursive readers, and these invert a serializer of ClientHello messages however the message is split over records (section 4.1.2 and section 5.1 of RFC 8446, section 3 of RFC 6066). |
| Import | `Names`, `TextMeaning`, `Upserts`, `Entries`, `Imports`, `ImportFields` | One transaction, refused for exact reasons, that stores every entry field by field as written; over any number of imports no host loses a protection; importing a document twice equals importing it once, under an exact condition. |
| Response cache | `Cache`, `AcceptEncoding` | Map, recency list and byte count agree and refine a list in order of use; what is found is what was last stored; the key of a header is its set of codings. |
| Edit distance | `EditDistance` | The two-row loop is the least number of turns over all scripts, hence a metric. |
| Access lists | `Access`, `AccessRules` | The verdict is that of the first configured rule that bears on the query, prefixes read bit by bit; who is admitted, challenged and counted; verdicts related to each other: raw connections and requests, failing and working lookups, the two vocabularies. |
| Path rules | `PathGates`, `PathReadings` | Sorting and taking the first match is choosing the most specific rule; on paths that are let by, every way an upstream may read the path is the identity. |
| Login throttle | `Throttle` | The exact bound on attempts per window, that it is reached, why a key is locked out and what ends it. |
| UDP sessions | `UdpSessions` | Table, counts per address and accounting agree over every interleaving; a session outlives no reader, dies by no other's, and idles from the last packet. |
| Routing names | `Routes` | Which manual host answers a name; manual hosts win over containers; kept container routes share no name and no port, and are placed as kept. |

One promise turned out false as made: that a repeated import changes nothing
(`internal/store/import.go:23-35`). A second import of a document succeeds only
if every gated path, trimmed, is gated in the entry as written (`Imports.SecondImport`, with the
document of `Imports.RefusedTheSecondTime`): stored paths are trimmed, the paths compared with
them are not. The model follows the code.

Checking the project: `dafny verify dfyconfig.toml`.

## Model

| member | source | states |
|---|---|---|
| TrafficFrames.Merge | internal/engine/traffic.go:316-359 | The merging loops compute `Merged`: counters added, open connections by their maximum, one entry per dimension id. |
| TrafficFrames.CombineLaws | internal/engine/traffic.go:316-359 | Combining loads is associative and commutative, with a neutral element, so frames may be merged in any grouping. |
| TrafficFrames.MergeAddsLoads | internal/engine/traffic.go:338-359 | Merging two frames and then reading them by key is reading each by key and combining: ids are only a representation. |
| TrafficRollup.RollupConserves | internal/engine/traffic.go:370-394 | For any samples in order, each level with the groups held back below it is the whole list of samples: nothing lost, nothing twice, in order. |
| TrafficRollup.HoldKeeps | internal/engine/traffic.go:381-394 | Holding a later group keeps a level ordered and on its boundaries and moves its samples along. |
| TrafficWindows.NothingEvicted | internal/engine/traffic.go:370-376 | No frame in the widest window of a range has been evicted from its ring: on the coarser levels whatever the samples, on the finest if each has its own step. |
| TrafficWindows.WindowIsExact | internal/engine/traffic.go:870-912 | A window of a report, read from ring, pending frame and frames held back, is exactly the samples that start in it, for the whole range and for each point; on the finest level if each sample has its own step. |
| TrafficWindows.KeptExactly | internal/engine/traffic.go:370-376 | A ring that evicts by number holds all samples of a window exactly if none is in it or no more start in or after it than the ring holds. |
| TrafficModel.AddReps | internal/engine/traffic.go:381-394 | Adding a frame to a level acts on what the frames stand for as `Hold` does on groups of samples. |
| TrafficModel.CompactedRepsLevel | internal/engine/traffic.go:702-740 | Renumbering keys leaves every frame of a level standing for the same samples. |
| TrafficSampling.GatherMeaning | internal/engine/traffic.go:644-686 | A frame holds exactly the growth of every dimension; a key left out did not grow, or is unknown to a full table. |
| TrafficSampling.SampleIsOfNow | internal/engine/traffic.go:577-601 | A sample starts ten seconds before its end, lasts the seconds read, and holds the connections open now: of all listeners together, and of each dimension its own. |
| TrafficSampling.RecordRepresents | internal/engine/traffic.go:577-601 | One sampling keeps the history a representation of the samples so far, with the new sample last. |
| TrafficSampling.StepEnabled | internal/engine/traffic.go:577-601 | From any history that stands for some samples, any reading can be sampled, with a compaction where the table would overflow. |
| TrafficRuns.RunTracks | internal/engine/traffic.go:577-601 | Over every run, compactions and any number of restarts included, the history represents the samples of the run, its table is duplicate-free with the ids as its inverse, and never exceeds its cap. |
| TrafficRuns.RunGoesOn | internal/engine/traffic.go:577-601 | Every run can go on with any reading, given a compaction of its history for where the table would overflow. |
| TrafficRuns.SamplesHoldAllGrowth | internal/engine/traffic.go:644-686 | For every counter of the engine and every dimension that was always retained, the samples of a run sum to exactly what the counter grew by, restarts included. |
| TrafficRuns.ListenerTotalsHoldAllGrowth | internal/engine/traffic.go:665-674 | Bytes in, bytes out and connections of the samples of a run sum to exactly what all the listeners together counted, restarts included, whether or not a listener's dimension was ever retained. |
| TrafficReport.ReportIsDirectSum | internal/engine/traffic.go:868-965 | From a history that represents some samples, every point, the totals and the dimension totals of a report are, field by field, sums over those samples of their interval that their level still has frames of: bytes in and out, requests, each status class and each latency bucket summed, all reasons of a block summed, open connections their attained maximum, the seconds the sum or, where that is none, the step. |
| TrafficReport.ReportAfterAnyRun | internal/engine/traffic.go:868-965 | After any run in order, restarts within one sample step included, the report of every range is that direct sum; it misses no sample of its window exactly if the range is not the newest hour, or at most 360 samples start in that hour or after it, or none in it. |
| TrafficReport.RestartWithinAStep | internal/engine/traffic.go:562-571 | For every table size there is a run that samples every step of an hour, the last in part before a shutdown and in part after a restart, and whose newest hour is not the direct sum: its first point is a gap although that step was sampled. |
| TrafficReport.EveryReportIsDirectSum | internal/engine/traffic.go:868-965 | In any run from the empty history, restarts included, that samples at most once a step, for every range and any moment not before the end of the last sample, the report is that direct sum over the samples that start in its window, with gaps exactly where there are none. |
| TrafficReport.ReportSpans | internal/engine/traffic.go:868-905 | The four ranges by name: their length, the step of a point, and the end, aligned to the step. |
| TrafficReport.RangesKnown | internal/engine/traffic.go:868-874 | A report is made for these four names and no other, and a ring holds exactly as many frames as its widest range has points. |
| TrafficRestart.LoadedIdsKnown | internal/engine/traffic.go:1112-1157 | Whatever the file holds, after loading every id a frame uses is in the table. |
| TrafficRestart.LoadedFrames | internal/engine/traffic.go:1112-1157 | A saved frame is loaded exactly if it starts after the first moment, on a boundary of its level, and holds no more dimensions than allowed, all of them in the table. |
| TrafficRestart.RestartKeepsHistory | internal/engine/traffic.go:1090-1157 | Saving and loading loses no frame and keeps what the history represents, from any history a run ends in, restarted ones included. |
| TrafficStats.NumberUsed | internal/engine/traffic.go:702-725 | The first loop of compaction gives every key in use a new id, one per key however often the old table lists it, and no other. |
| TrafficStats.RenumberedIsCompacted | internal/engine/traffic.go:702-740 | The result is a compaction: by-key contents of every frame unchanged, also when the old table held a key twice; no duplicates, every entry used, ids in range, `dimIDs` the inverse. |
| TrafficStats.HistoryLevel.Push | internal/engine/traffic.go:370-376 | The ring keeps its newest frames. |
| TrafficStats.HistoryLevel.Add | internal/engine/traffic.go:381-394 | In place, what `AddFrame` is on values, and the frame completed, if any. |
| TrafficStats.TrafficStats.Sample | internal/engine/traffic.go:577-601 | One sampling on the object is the step of the model: compaction when the table would overflow, then the frame, then the roll-up. |
| TrafficStats.SecsCovered | internal/engine/traffic.go:593-593 | The seconds of a sample are those between the readings to the nearest whole one, never below one or above ten. |
| TrafficStats.TrafficStats.DimID | internal/engine/traffic.go:690-698 | A key keeps its id, a new one gets the next. |
| TrafficStats.TrafficStats.Compact | internal/engine/traffic.go:702-740 | Marking, numbering and remapping in place give exactly the compacted history. |
| TrafficStats.TrafficStats.Report | internal/engine/traffic.go:868-965 | The report built by the loops equals `BuildReport` on the object's history. |
| TrafficStats.TrafficStats.Load | internal/engine/traffic.go:1112-1157 | Loading yields a compaction of what `Loaded` describes, damaged frames dropped; a file with too many dimensions changes nothing. |
| TrafficLatency.Percentile | internal/engine/traffic.go:97-124 | The loops compute `Quantile`. |
| TrafficLatency.EstimateIsInTheRightBucket | internal/engine/traffic.go:78-124 | For any samples the estimate lies in the bucket that holds the quantile: fewer samples than the rank at or below its lower bound, at least so many at or below its upper. Between the bounds it is as far along as the rank is between these counts; in the bucket without an end it is ten seconds. |
| TrafficLatency.QuantilesAreOrdered | internal/engine/traffic.go:93-124 | A higher quantile is never estimated lower. |
| FlowLog.InvAlways | internal/engine/vpnflow.go:53-187 | The invariant that ties queue, writer, item states, channels and log together holds in every interleaving. |
| FlowLog.AdmittedIsWritten | internal/engine/vpnflow.go:108-187 | An admission returns true only if its allow line is in the log, and its lines are that line alone, then and ever after. |
| FlowLog.RefusedIsNotAllowed | internal/engine/vpnflow.go:108-187 | A queued record whose admission returned false ends with no line or with a refusal last, unless the write of the correction failed. |
| FlowLog.NotQueuedLeavesNoLine | internal/engine/vpnflow.go:144-170 | A record that never got into the queue leaves no line and returns false if at all. |
| FlowLog.RefusedForAReason | internal/engine/vpnflow.go:108-187 | If an admission has returned false, then at some step it met a full queue, found the probe held by another, gave up waiting, or the writer failed to write its record. |
| FlowLog.NextIsQueued | internal/engine/vpnflow.go:144-170 | With room in the queue the next admission is queued, as the probe where the log fails and no probe is out. |
| FlowLog.HealthyLogAdmits | internal/engine/vpnflow.go:108-187 | From any reachable state with the writer idle and nothing queued, the log failing or not, steps of the writer and the admission alone let the next one in: its allow line is written, it returns true, and the log counts as working. |
| FlowLog.SwitchAndCount | internal/engine/vpnflow.go:108-187 | What sets `failed`, what clears it, what is counted as dropped, and which correction is missed, step by step. |
| FlowLog.FailuresSwitchOff | internal/engine/vpnflow.go:108-140 | A write that fails sets `failed` in the writer's next step, and giving up sets it in the admission's. |
| FlowLog.OfferedIsWritten | internal/engine/vpnflow.go:108-140 | A record offered with room in the queue is in the log, in the queue or with the writer until a write fails. |
| FlowLog.WrittenWasOffered | internal/engine/vpnflow.go:108-140 | Nothing is written, queued or in the writer's hands but what was offered. |
| FlowLog.ReturnedForGood | internal/engine/vpnflow.go:144-187 | What an admission returned is final, so the other results hold from then on. |
| FlowLog.OneProbeAtATime | internal/engine/vpnflow.go:144-165 | At most one admission holds the probe, and `probing` is set while one does. |
| FlowLog.OnlyAnAdmissionClears | internal/engine/vpnflow.go:108-140 | `failed` is cleared only by the writer, for a record whose admission must return true. |
| FlowLog.ClearingAdmissionReturnsTrue | internal/engine/vpnflow.go:108-187 | That admission returns true or has not returned yet, in every continuation. |
| FlowLog.WriterNeverBlocks | internal/engine/vpnflow.go:108-140 | When the writer sends a result, the channel is empty. |
| FlowLog.MustReceiveIsServed | internal/engine/vpnflow.go:170-187 | An admission past giving up waits only for a result that is there or about to be sent. |
| FlowLog.EveryAdmissionReturns | internal/engine/vpnflow.go:144-187 | From every reachable state its own steps, its wait over, and those of the writer bring an admission to its end. |
| FlowLog.NothingAtStart | internal/engine/vpnflow.go:78-86 | At the start the log works and nothing is queued, written or counted. |
| Lease.InvAlways | internal/engine/portal.go:655-816 | The invariant over stamps, deadlines and renewals in flight holds in every interleaving. |
| Lease.DeadlinesInOrder | internal/engine/portal.go:563-586 | Always lease <= grace <= hard limit. |
| Lease.OnlyLoginMovesHardLimit | internal/engine/portal.go:327-331 | Only storing a login moves the hard limit. |
| Lease.LoginStoresDeadlines | internal/engine/portal.go:563-586 | A stored login leaves an active row whose lease is the lesser of the lease minutes (at least two) and the days of a session from the moment it was checked, and whose grace is at most an hour more within the same limit. |
| Lease.LoginGoesThrough | internal/store/vpn.go:590-646 | Where the owner is not blocked, a login that passed its checks is stored, whatever else is in flight. |
| Lease.OnlyABlockStopsLogins | internal/store/vpn.go:590-646 | A checked login is stored exactly if the owner is not blocked at that moment. |
| Lease.LiveUntilItsLease | internal/store/vpn.go:214-228 | In every continuation without a later login, an end, a block or a lapse the session is live at every moment before its lease runs out. |
| Lease.TickFollowsTheRow | internal/engine/portal.go:655-695 | A tick ends the row it read if its access was over by then, and else, once half the lease has passed, starts a renewal unless one is under way; it does nothing else. |
| Lease.RenewalGoesThrough | internal/engine/portal.go:655-816 | A live session past half its lease is renewed by one tick where nothing interferes: to the full deadlines on positive evidence, ended on negative, marked and no shorter otherwise. |
| Lease.OverdueLapses | internal/engine/portal.go:655-695 | A session whose access is over is ended by the next tick. |
| Lease.JudgedByEvidence | internal/engine/portal.go:697-816 | A renewal goes on, ends the session or is tried again exactly as the answers are positive in every point, speak against the owner, or neither. |
| Lease.CommitFollowsEvidence | internal/engine/portal.go:716-816 | A commit writes what its answers call for if the row is still the one read, and nothing otherwise. |
| Lease.EndsAtOnce | internal/store/vpn.go:693-745 | An end and a block take the session away at once and change nothing else of the row but its generation and mark. |
| Lease.FailedIsOver | internal/engine/portal.go:716-816 | A login or a tick that failed stores nothing later, and a failed renewal makes way for another. |
| Lease.TimePasses | internal/engine/portal.go:655-660 | Only the clock moves the time. |
| Lease.OneRenewalAtATime | internal/engine/portal.go:655-695 | One renewal of an owner is in flight at a time. |
| Lease.StaleRenewalNeverCommits | internal/store/vpn.go:648-664 | A renewal that extends the lease started from the very row it extends, but for the transient mark. |
| Lease.EndedUntilLogin | internal/store/vpn.go:590-702 | A session that was ended, lapsed or blocked admits nobody until a later login is stored, whatever was in flight. |
| Lease.BlockedIsNeverLive | internal/store/vpn.go:732-745 | While the owner is blocked, nothing makes the session live. |
| Lease.AccessStopsWithoutEvidence | internal/engine/portal.go:563-586 | If no renewal or login is stored after T, access stops by T + lease + grace, with grace at most an hour. |
| Lease.TransientMarkMovesNoDeadline | internal/store/vpn.go:668-690 | A transient mark moves no deadline and never shortens access. |
| Lease.AccessUntilMeaning | internal/store/vpn.go:214-222 | With deadlines in order, access lasts to the grace deadline while transient and to the lease otherwise. |
| Lease.RenewedOnPositiveEvidence | internal/engine/portal.go:700-816 | In every interleaving, a commit that extends a lease goes back to a reading of that very row and to answers that are positive in every point; the row did not change since the reading but for the transient mark, and the deadlines are those of the moment of the answers. |
| Lease.LapsedOnNegativeEvidence | internal/engine/portal.go:700-816 | In the same way, a renewal ends a session only on answers that say the grant or the account is gone. |
| Sni.ParseServerNameExt | internal/engine/sni.go:130-153 | The shrinking-slice loop finds the first host_name of the list, within bounds on any input. |
| Sni.ParseSNI | internal/engine/sni.go:65-126 | The walk over the nested fields equals the recursive reader, within bounds on any input. |
| Sni.PeekSNI | internal/engine/sni.go:23-61 | Peeking equals `Peek` on what is unread, returns every byte it consumed and leaves the rest unread. |
| Sni.HelloInverted | internal/engine/sni.go:65-153 | Reading a serialized ClientHello yields exactly the name it carries. |
| Sni.PeekInvertsEverySplit | internal/engine/sni.go:16-153 | For every well-formed ClientHello split in any way over at most four records, peeking yields exactly its name and consumes exactly those records, whatever follows. |
| Sni.FiveRecordsAreRefused | internal/engine/sni.go:16-61 | A message that needs a fifth record is refused. |
| Sni.PeekIsSound | internal/engine/sni.go:23-61 | Where peeking yields a name, the bytes consumed are at most four records of 1 to 16384 bytes whose bodies carry a ClientHello that the last completes, and the name is the one read from it. |
| Names.KeyIsTheSetOfDomains | internal/store/import.go:226-237 | Two lists of valid domains have one key exactly when, normalised, they are the same with the same repetitions; without repetitions, when they are the same set. |
| TextMeaning.TrimMeaning | internal/store/import.go:226-237 | Trimming takes the spaces away at both ends, and nothing else. |
| TextMeaning.SplitMeaning | internal/engine/cache.go:153-172 | Splitting is the one way to take text apart at a character: parts without it that give the text when put together with it. |
| TextMeaning.LowerMeaning | internal/store/import.go:226-237 | Lower case changes the capitals of the alphabet to small letters, and nothing else. |
| TextMeaning.DomainMeaning | internal/store/store.go:299-319 | A domain is labels of 1 to 63 letters, digits and inner dashes with dots between them, the last of several a top-level name of two letters or more, and in front of several perhaps a wildcard. |
| Upserts.RunInv | internal/store/import.go:43-158 | A pass that succeeds keeps every row under its id and key, takes nothing from any, and keeps ids, keys and claims apart. |
| Upserts.RunTwice | internal/store/import.go:43-158 | A second pass with distinct keys goes to the same rows and changes nothing, or is refused exactly when some entry is refused by the row it settled to. |
| Upserts.RunLeavesOthers | internal/store/import.go:43-158 | A row no entry is for is left as it was. |
| Upserts.RunStores | internal/store/import.go:43-158 | After a pass over entries with distinct keys each entry's row holds what the entry settles to over what was stored under its key. |
| Upserts.RunRefused | internal/store/import.go:43-158 | A pass over entries with distinct keys is refused exactly if some entry, all before it taken, is not. |
| Entries.UsersAgain | internal/store/access.go:110-139 | Storing an access list's users over themselves keeps every hash, also where the password is left out. |
| Entries.ProtectionRemovedMeaning | internal/store/import.go:173-211 | The switch and the loop find nothing exactly when every protection is kept: who may reach the host, how, and every gated path. |
| Entries.HostKeptWhenStored | internal/store/import.go:121-128 | Comparing with the entry as written is enough: what validation stores keeps the same protections. |
| Entries.HostKeptChain | internal/store/import.go:173-211 | Keeping protections is transitive. |
| Entries.HostRefusesItself | internal/store/import.go:173-211 | A stored host refuses the entry it came from exactly when some gated path, trimmed, is not gated in the entry as written. |
| Imports.Store.Import | internal/store/import.go:36-158 | The three loops compute `Imported`; on any refusal the configuration is as it was. |
| Imports.ImportKeeps | internal/store/import.go:23-35 | A successful import keeps the configuration sound: unique ids, keys, names and ports, every list named exists; and nothing is lost by it. |
| Imports.RunsLoseNothing | internal/store/import.go:23-35 | Over any sequence of documents, refused ones included, nothing that was there is ever lost. |
| Imports.HostsStayProtected | internal/store/import.go:166-211 | After any sequence of imports every host there was has its id, its domains and every protection it had. |
| Imports.HostsAreMatched | internal/store/import.go:100-134 | With distinct keys, an entry with a host's domains replaces what that host holds, and a host no entry names is left alone. |
| ImportFields.ListMeaning | internal/store/access.go:31-139 | Validation stores an access list exactly as written: its trimmed name, its satisfy ("any" only for an empty one), its switch, each rule and each user in order; or refuses it where no such list can be. |
| ImportFields.UsersBeforeMeaning | internal/store/import.go:51-78 | The users an entry is stored over are those of the list of its name, none where there is no such list. |
| ImportFields.IdsMeaning | internal/store/import.go:79-92 | The lists a host or stream may refer to are those in the database. |
| ImportFields.HostMeaning | internal/store/store.go:355-505 | The same of a host, field by field: domains, gates with their lists and sign-on, rules of paths, certificate and client certificate, references bound. |
| ImportFields.StreamMeaning | internal/store/access.go:259-370 | The same of a stream. |
| ImportFields.ImportStores | internal/store/import.go:36-158 | A successful import of entries with distinct keys stores every one of them as written, references bound, and counts exactly what it created and updated. |
| ImportFields.ImportRefused | internal/store/import.go:36-158 | An import of entries with distinct keys is refused exactly if some entry, those before it taken, cannot be taken. |
| ImportFields.ListTaken | internal/store/import.go:51-78 | An access list is taken exactly if it can be stored over the users there were. |
| ImportFields.HostTaken | internal/store/import.go:100-134 | A host is taken exactly if it takes no protection from the host it updates, can be stored, and shares no name with another. |
| ImportFields.StreamTaken | internal/store/import.go:135-158 | A stream is taken exactly if a restricted one stays restricted, it can be stored, and it shares no port and protocol with another. |
| Imports.ReferencesFollowNames | internal/store/import.go:79-92 | A reference to a list the document defines is to the row of that list's name, whatever its id; any other is as written. |
| Imports.SecondImport | internal/store/import.go:23-35 | With distinct keys a second import creates nothing, binds references to the same lists and changes nothing, if and only if every gated path, trimmed, is gated in the entry as written; otherwise it is refused. |
| Imports.RefusedTheSecondTime | internal/store/import.go:196-209 | A document whose first import succeeds and whose second is refused. |
| Cache.GetAnswers | internal/engine/cache.go:77-92 | What a lookup returns and what it does to the list, expired entries included. |
| Cache.PutStores | internal/engine/cache.go:95-112 | Storing puts the entry first under its key and keeps both limits. |
| Cache.EvictsOnlyASuffix | internal/engine/cache.go:103-109 | Eviction keeps a front of the list, and no shorter one than it must. |
| Cache.AlwaysWithin | internal/engine/cache.go:77-119 | In every run keys are distinct and both limits hold. |
| Cache.FoundIsLastStored | internal/engine/cache.go:77-112 | In every run what is under a key, if anything, is the last entry stored under it. |
| Cache.EntryLeavesForAReason | internal/engine/cache.go:77-119 | An entry leaves by expiry at a lookup, by being stored over, or by eviction. |
| Cache.ListIsByUse | internal/engine/cache.go:77-112 | In every run the list is in order of last use. |
| Cache.SizeCharged | internal/engine/cache.go:55-68 | An entry is charged 256 bytes, its key and body, every header name, and for every value four bytes more than its length. |
| Cache.RespCache.Fetch | internal/engine/cache.go:77-92 | With map, list and byte count in agreement, `get` steps as the list does. |
| Cache.RespCache.Store | internal/engine/cache.go:95-112 | The same of `put`. |
| Cache.RespCache.MakeRoom | internal/engine/cache.go:103-109 | The eviction loop ends with room and has evicted what `Evict` does. |
| AcceptEncoding.NormalizeAcceptEncoding | internal/engine/cache.go:153-172 | The loop over the parts computes `Key`. |
| AcceptEncoding.KeyIsTheSetOfCodings | internal/engine/cache.go:151-172 | Two headers share the key exactly when they accept the same codings. |
| AcceptEncoding.CutMeaning | internal/engine/cache.go:153-172 | A part is cut at its first semicolon. |
| AcceptEncoding.SpacesDoNotMatter | internal/engine/cache.go:153-172 | Spaces in a weight change nothing. |
| EditDistance.DistanceIsLeast | internal/docker/derive.go:78-96 | The recurrence is the least cost over all edit scripts: no script is cheaper, and one is as cheap. |
| EditDistance.Symmetric | internal/docker/derive.go:78-96 | The distance is symmetric. |
| EditDistance.ZeroOnlyForEqual | internal/docker/derive.go:78-96 | It is zero exactly for equal words. |
| EditDistance.Triangle | internal/docker/derive.go:78-96 | It satisfies the triangle inequality. |
| EditDistance.Compute | internal/docker/derive.go:78-96 | The two-row loop over arrays computes the distance. |
| EditDistance.Suggest | internal/docker/derive.go:66-75 | The suggestion is the first known label at the least distance, given that is at most two; there is none exactly when all are further. |
| Access.CompileAccess | internal/engine/access.go:143-206 | The loop compiles the rules in order, unresolvable ones closed. |
| Access.Evaluate | internal/engine/access.go:342-408 | The first-match loop computes `Verdict`. |
| AccessRules.VerdictMeaning | internal/engine/access.go:342-408 | In the terms of the list as configured: a query is let in if no rule selects, or if the first rule that bears on it allows; addresses, names, countries, VPN subjects and methods bear as the rule says, and what cannot be looked up bears only as a refusal. |
| AccessRules.ContainsIsCovers | internal/engine/access.go:403-405 | A prefix covers exactly the addresses of its family that agree with it in its leading bits. |
| AccessRules.UpperMeaning | internal/engine/access.go:146-158 | A method is compared in capitals, which changes the small letters of the alphabet and nothing else. |
| AccessRules.AdmissionMeaning | internal/engine/access.go:512-575 | A request is admitted exactly if its address is let in and, where there are users, it gives the password of one, either being enough under "any" with rules; a preflight is judged by the method announced or let through where a password may do; who gave a password is known by it, and it goes upstream only where the list passes it on. |
| AccessRules.RawMeaning | internal/engine/access.go:307-319 | A raw connection is admitted exactly where its address is let in and no password would be asked for besides. |
| AccessRules.MissingListRefuses | internal/engine/access.go:73-77 | The stand-in for a missing list refuses every request and every connection. |
| AccessRules.RefusalMeaning | internal/engine/access.go:512-575 | A refused preflight is forbidden, marked blocked and never counted; any other refusal asks for a password exactly where there are users and none of their passwords came, and is forbidden else. |
| AccessRules.CountedMeaning | internal/engine/access.go:470-490 | A refusal counts toward a ban exactly for a wrong password or an address not let in, from outside and with bans on, unless another site had the browser ask or the list is open to every IPv4 address, not to every IPv6 one, and the client has one of these. |
| Access.RawAdmissionImpliesHttp | internal/engine/access.go:307-319 | If a list admits a raw connection from outside the tunnel, it admits every HTTP request from there, any method, preflights included, without credentials. |
| Access.FailureNarrows | internal/engine/access.go:143-206 | With any subset of names and CIDRs unresolved or the country database not loaded, no verdict admits what the full list refuses. |
| Access.FailureNarrowsAdmission | internal/engine/access.go:512-536 | The same of admitted requests and raw connections. |
| Access.CachedFailureNarrows | internal/engine/access.go:108-206 | After any lookups in any order of their times, a list compiled from what the cache answers admits no request and no raw connection that the newest good answer of every name would refuse. |
| Access.VpnRulesOutside | internal/engine/access.go:295-306 | Taking out the VPN rules changes no verdict outside the tunnel exactly when the list stays restricted; otherwise it changes every one. |
| Access.AddressRulesInside | internal/engine/access.go:295-306 | The same of address rules and queries from inside the tunnel. |
| Access.PromptWhenCredentialsWouldDo | internal/engine/access.go:540-560 | A refusal is a login prompt exactly when no Authorization header came and valid credentials would do; a prompt never counts toward a ban, what counts came from outside, and from an address let in only with a wrong password. |
| Access.DnsCache.Resolve | internal/engine/access.go:108-138 | In whatever order lookups with their times arrive, a failing one is answered from the last good one for that name, if that is at most a day old and no lookup of the name failed more than a day after it; if none came later than now, the day alone decides. Entries are exactly the last good answers not outlived so. |
| PathGates.WithinIsBelow | internal/engine/pathauth.go:39-48 | A rule covers whole segments: a path is within a prefix exactly when its segments begin with the prefix's. |
| PathGates.Dispatch | internal/engine/pathauth.go:58-70 | The dispatch loop takes the first match, the login paths apart. |
| PathGates.SortedFirstIsBest | internal/engine/pathauth.go:136-141 | The first match in sorted order is the most specific match as entered, the earlier of equals. |
| PathGates.BestIsMostSpecific | internal/engine/pathauth.go:84-87 | The gate chosen matches; its path is the longest of those that match, and it is exact if one of that length is. None is chosen only if none matches. |
| PathGates.LongestRuleAnswers | internal/engine/pathauth.go:93-145 | The whole answer in terms of the rules as entered: of those that cover the path and method one with the longest path answers, an exact one if there is one of that length, the first entered of the rest, with what that rule sends through; the login paths, refused paths and the fallback apart. |
| PathGates.OrderDoesNotMatter | internal/engine/pathauth.go:84-87 | The choice is the same for every permutation of rules of which no two share path, exactness and a method. |
| PathGates.OrderMattersInConflict | internal/engine/pathauth.go:136-141 | In any list, of two rules that share path, exactness and a method and are the most specific matches, the one entered first answers, and exchanging them exchanges the answer. |
| PathGates.OnlyPublicRulesOpen | internal/engine/pathauth.go:93-135 | A request passes without a gate only where the rule that answers, by length, exactness and order of entry, is public. |
| PathGates.CoveredNeverFallsBack | internal/engine/pathauth.go:72-83 | A path some rule covers never falls back to the host's own gate, whether or not the rule's gate can be built. |
| PathReadings.AdmittedIsPlain | internal/engine/pathsafe.go:28-57 | On a path both guards let by, removing dot segments (section 5.2.4 of RFC 3986), merging slashes, folding backslashes, stripping parameters and decoding percent escapes each change nothing. |
| PathReadings.DotsRemoved | internal/engine/pathsafe.go:28-57 | Elsewhere a segment of one dot goes away and one of two takes the segment before it along. |
| PathReadings.ParametersStripped | internal/engine/pathsafe.go:28-57 | A semicolon and what follows it in its segment is dropped. |
| PathReadings.EscapeDecoded | internal/engine/pathsafe.go:28-57 | An escape is decoded to the character its two digits of either case spell, other characters to themselves. |
| PathReadings.RefusedIsAmbiguous | internal/engine/pathsafe.go:28-57 | A path is refused exactly when some reading changes it or it holds a percent sign; where every percent sign begins an escape, exactly when some reading changes it. |
| PathReadings.SameGateUpstream | internal/engine/pathsafe.go:59-86 | However an upstream reads the decoded path, in any order and any number of times, a request that is not refused gets the gate its path upstream would get. |
| PathReadings.ReadsDecodedOrRaw | internal/engine/pathsafe.go:28-57 | From any spelling that decodes to a path let by, readings in any order yield the decoded path if decoding is among them and the spelling itself if not. |
| PathReadings.SameGateFromRaw | internal/engine/pathsafe.go:59-86 | So an upstream that decodes the path as sent, at whatever point among its readings, sees a path with the same gate. |
| Throttle.LoginThrottle.Allow | internal/admin/throttle.go:81-96 | Refuses exactly while locked out; drops only a stale entry. |
| Throttle.LoginThrottle.Fail | internal/admin/throttle.go:99-126 | One failure counted, another key's entry gone only if stale or to make room, never a locked one. |
| Throttle.LoginThrottle.MakeRoom | internal/admin/throttle.go:131-150 | The entry dropped is not locked out, and stale if any is; no room only if all are locked out or the empty name is tracked. |
| Throttle.NeverOverCap | internal/admin/throttle.go:58-62 | The table never tracks more keys than its cap. |
| Throttle.LockoutHolds | internal/admin/throttle.go:99-150 | A lockout lasts: until it is over only a success of that key ends it, over every run of calls. |
| Throttle.LockedForAReason | internal/admin/throttle.go:81-126 | In every run a key is refused only within a quarter of an hour of one of its own failures, with at least the maximum and at least two of them since its last success. |
| Throttle.LocksWhenTooMany | internal/admin/throttle.go:99-126 | The failure that is too many locks the key out for a quarter of an hour to the second. |
| Throttle.FailureCounts | internal/admin/throttle.go:99-126 | A failure counts one more within a window of a quarter of an hour, or while locked, and else starts at one. |
| Throttle.AtMostTwiceLessTwo | internal/admin/throttle.go:81-126 | In any half-open span of a window's length at most twice the threshold less two attempts on a tracked key are admitted. |
| Throttle.BoundIsReached | internal/admin/throttle.go:81-126 | That bound is reached. |
| Throttle.FewerThanTwiceTheMaximum | internal/admin/throttle.go:81-126 | Fewer than twice the maximum are admitted in every span if and only if the maximum is at least two. |
| UdpSessions.InvAlways | internal/engine/streams.go:776-904 | Both caps hold, sessions begun less ended are those open, every session has its own connection and its reader, in every interleaving. |
| UdpSessions.EndsForAReason | internal/engine/streams.go:800-904 | A session ends exactly by its own reader, by stop, or by a sweep more than two minutes after the last packet let in from its client; the reader of an earlier session of the same client never removes it. |
| UdpSessions.LastSeenIsLastHeard | internal/engine/streams.go:829-896 | In every interleaving a session was last used when the last packet let in from its client came. |
| UdpSessions.NoReaderNoSession | internal/engine/streams.go:868-904 | Once every reader has exited nothing is open, stop and late packets included. |
| UdpSessions.Listener.Packet | internal/engine/streams.go:829-896 | One packet, with the counts per address kept equal to those of the table: a client with a session is served, a dropped packet changes nothing, no other session changes, and a new one has a connection of its own. |
| UdpSessions.Listener.ReaderExit | internal/engine/streams.go:875-883 | The exit of a reader, which forgets only its own session. |
| UdpSessions.Listener.Stop | internal/engine/streams.go:894-904 | Stop leaves no session and no count. |
| Routes.RoutingTable.Reload | internal/engine/engine.go:371-447 | Manual hosts first, then the containers', computes `Merged`. |
| Routes.ManualHostsWin | internal/engine/engine.go:371-447 | A name that manual hosts alone resolve, exactly or through a wildcard, goes to the same manual host whatever containers claim. |
| Routes.AnsweredByManual | internal/engine/engine.go:371-447 | A lookup is answered by a manual host exactly if it is the last of those enabled that has the name, or where none has, the last that has the wildcard over it. |
| Routes.DisabledNames | internal/engine/engine.go:385-404 | A name a manual host has but does not serve reaches a container only through a container's wildcard, under no manual wildcard. |
| Routes.SpellingsOfAName | internal/engine/engine.go:94-103 | The port, a trailing dot and the case a client sends do not change the route. |
| Routes.RouteNameMeaning | internal/engine/engine.go:94-103 | What a client sends is read in lower case, without a port after a host, an IPv6 one in brackets, and without one dot at the end. |
| Routes.OneDotDropped | internal/engine/engine.go:94-103 | Of dots at the end of a name one is dropped. |
| Routes.CoveringMeaning | internal/engine/engine.go:371-404 | A name is covered by the wildcard over what follows its first label, and one that is a wildcard or has no second label by none. |
| Routes.Aggregate | internal/docker/provider.go:356-433 | The loops over the containers compute `Granted`. |
| Routes.KeptApart | internal/docker/provider.go:352-433 | No two kept routes share a name or a listen port, and none has a manual one. |
| Routes.AskedIsKept | internal/docker/provider.go:352-433 | A name some container asks for and no manual host has or covers is kept. |
| Routes.AskedPortIsKept | internal/docker/provider.go:352-433 | A port some container asks for and no manual stream uses is kept, for a stream that was asked for. |
| Routes.PlacedAsKept | internal/docker/provider.go:352-433 | In the merged table every kept name is routed to the container that keeps it, and every other name is as the manual hosts leave it. |

## Left out

- TrafficReport.EveryReportIsDirectSum: speaks of the series and totals; the ten busiest hosts and countries, sparklines, rounding and JSON nulls are not modelled.
- TrafficReport.BuildReport: a point holds the latency histogram its percentiles are read from (see TrafficLatency), not the percentiles; the fields of a protocol, a status and a block reason are entries of vectors.
- TrafficRuns.RunTracks: with restarts, asks that the samples start after the first hour of 1970, because loading drops frames that start at or before zero once rounded to an hour.
- TrafficRuns.Run: a crash loses what was sampled since the last save, so the run that goes on after it is the one up to that save.
- TrafficRuns.SamplesHoldAllGrowth: counters are naturals, and `delta` is applied to them as in the source; wrap-around of a 64-bit sum of samples is not modelled.
- TrafficSampling.GatherMeaning: the order of the keys of a snapshot is a parameter (the source sorts them), so the result holds for every order.
- TrafficStats.TrafficStats.Load: the file's encoding and version number are not modelled, only what it holds.
- TrafficLatency.Percentile: over the reals; rounding to one decimal and floating-point error are not modelled.
- FlowLog.InvAlways: a transition system rather than a class, because admissions and the writer interleave between any two atomic operations; the text of lines, rotation of the file and the counter behind `noteFull` are left out.
- PathReadings.SameGateFromRaw: a server that never decodes sees the path as sent, which no rule was matched against; a path whose percent signs do not parse is refused by the HTTP library before and is not modelled.
- Lease.InvAlways: a transition system, one owner's row at a time, store errors being steps that write nothing; restoring a backup, which wipes sessions, and the portal's web sessions are left out. What the identity provider answers is a parameter.
- Lease.RenewedOnPositiveEvidence: tokens, claims and their verification are outcomes, not cryptography.
- Sni.PeekSNI: read deadlines and errors of the connection are one outcome, the end of the bytes.
- Imports.SecondImport: hashes are known by the password they accept, since bcrypt salts them anew; timestamps are left out.
- Imports.Store.Import: the text of errors and their order are not modelled, any refusal is None; checks that bear on no protection and no reference (upstreams, rewrites, headers, bounds, PEM and CIDR syntax) are functions of the entry whose outcome is open.
- Names.KeyIsTheSetOfDomains: case folding is that of ASCII and trimming that of Latin-1 spaces; a letter outside ASCII that Go lowers into it is not modelled.
- Cache.RespCache.Fetch: which responses may be cached and for how long (`wrap`, `decide`, Cache-Control) are not modelled; the clock is a parameter.
- AcceptEncoding.NormalizeAcceptEncoding: whether a weight reads as the number zero is a parameter.
- EditDistance.Suggest: takes the label already in lower case with underscores made dashes; words are strings of characters, where the source counts bytes.
- Access.CompileAccess: the parser of CIDRs, the name service, the country database and the password check are parameters; warnings and the decoy comparison are left out. One request sees one state of the country database.
- Access.PromptWhenCredentialsWouldDo: the text of the reason and the ban list itself are left out.
- Access.CachedFailureNarrows: within one compile a name is taken to be answered alike each time it is asked.
- PathGates.Dispatch: what each gate does with a request is not modelled, only which one is chosen; the library's stable sort is its specification, an insertion.
- Throttle.LoginThrottle.Fail: how often the stale entries are swept out is left open; a failure may sweep at any time.
- Throttle.AtMostTwiceLessTwo: the clock is a parameter that does not go back, and the check and the failure of one attempt are one step; attempts in parallel between the two are not bounded by the source either.
- UdpSessions.InvAlways: the packets themselves, the target connections' reads and writes and the once-a-minute count of refusals are left out.
- Routes.ManualHostsWin: certificates to manage, health targets and the building of a route's handlers are left out; whether a container's host is enabled is a parameter.
- Routes.Aggregate: the status shown for each container and its warnings are left out.
- Listeners, TLS and QUIC serving, UPnP, WireGuard control, DNS relaying, the Docker client, certificates, OIDC and TOTP verification, the user interface and the admin handlers: I/O or foreign cryptography around the parts modelled.
- `connTracker`, `sourceCap`, `choosePort`, `parseStreamEntry`, `truthy`: they would only add easy members.
- `idlePair` and the reach of cancellation on reload: what they ensure depends on how the peer closes.
