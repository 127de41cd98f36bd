# Verified model of an eBPF observability tool

The tool watches a Linux machine through small kernel programs. Programs on many CPUs update shared
BPF maps, maps evict entries, user space polls the maps, subtracts what it saw last, and shows the
difference. This project models that path, and the state machines around it, in Dafny, and proves
what the numbers shown mean in terms of the events that happened.

`dafny verify dfyconfig.toml` checks everything.

## What is modelled

**Syscall latencies.** `Log2` is the six-step reduction that finds a bucket. `SyscallKernel` is the
pair of tracepoint programs as a machine that takes one map operation at a time, for any number of
threads, with evictions from both LRU maps at any moment; `SyscallRuns` and `SyscallPairing` prove what
all its runs keep, and `SyscallMeasuring` which syscalls are measured. `Histogram` has the histogram
arithmetic and rank selection, and `OrderStatistics` what a rank means for a list of latencies.
`SyscallAggregator` is the polling class. `SyscallPolling` puts everything together: threads,
evictions, and a poll that reads the map key by key while the threads go on. `SyscallReports` and
`SyscallAccuracy` relate each report to the log of latencies, and `SyscallLatencies` the latencies to
the tracepoint events.

**CPU time.** `CpuKernel` (sampling programs with per-CPU values), `CpuAggregator` (the polling class
with its name cache and its batch reader), `CpuRuns` (samples, polls, name look-ups and deletions
interleaved), `CpuAccounting` and `CpuSamples` (where every sample ends up), `CpuNames` (the name a process
is shown under), `CpuRefinement` (the class does what the polling steps of a run do).

**Flows.** `Packet` parses frames byte by byte on a machine of either byte order, `Frames` encodes
connections into frames, `FlowTable` is the table as sequential code, evictions included, `FlowRace` the
same program on several CPUs, `Rtt` the socket-keyed table of round-trip times and the join,
`FlowAggregator` the poll and what its differences mean.

**Network namespaces.** `NetnsEvents`, `NetnsWatcher` and `NetnsRun`: enumeration, the watcher that
announces differences, the bounded channel, and the consumer that attaches programs. `NetnsRefinement`:
the watcher's code does what its steps in a run do.

**Loader and pipeline.** `Loader`: who owns and who closes links and descriptors. `Decimal` and `CpuList`:
the kernel's list of online CPUs. `PipelineSource`, `PipelineRun` and `PipelineProgress`: decoding,
enrichment and fan-out.

A machine is a deterministic step function over actions; whatever is not determined, such as
scheduling, clocks, evictions, failures and map order, is in the actions. A run is any sequence of
actions. States carry history: logs of what happened, which the theorems are stated about. A count is a
sum of a weight over a log (`Sums`); conservation is stated for every weight where that is possible.
64-bit counters wrap around (`U64`).

## Results that differ from the comments in the source

- `internal/syscalls/syscalls.go:108-111` says that the current count becomes the difference of a bucket that
  went backwards. The code leaves that bucket at zero, and so does the model.
- `internal/cpu/cpu.go:64-67` explains the clamp by counters that go backwards. They never do:
  `CpuAccounting.NothingToClamp`.
- `internal/loader/perf_event.go:23-25` promises an event on every online CPU. The code opens CPUs 0 to
  n - 1 for n online ones. `CpuList.OpensTheOnlineCpus` says exactly when these are the same, and
  `CpuList.OfflineCpuMisleads` gives every machine on which one CPU, but not the last, is offline as a
  counterexample.
- `internal/loader/manager.go:95` promises reverse registration order. The code reverses the order in
  which a Go map happens to yield its keys.
- A syscall exit can be measured from the start of an earlier syscall of its thread, when an exit was
  missed and the next number is out of range: `SyscallPairing.MissedExitMispairs`. Exactly when this
  happens is `SyscallPairing.PairedExactlyWhenStored`.
- The maximum shown is above every sample exactly when none is in the topmost bucket
  (`OrderStatistics.MaxExactlyBelowTop`); no reachable state has one there
  (`SyscallRuns.TopBucketStaysEmpty`).
- The packet difference of a flow is its traffic between two polls exactly when its entry was not evicted
  in between (`FlowAggregator.DeltaExactlyUnlessEvicted`). For an entry that was evicted and made again
  it is too small, or, if the new counter is below the old one, almost 2^64
  (`FlowAggregator.RecreatedEntry`, with runs of both kinds in `FlowAggregator.EvictionMisreports`).

## Model

| member | source | states |
|---|---|---|
| Log2.ReduceFirst | bpf/c/syscall_lat.c:70-74 | The first step takes 32 off the logarithm when the value needs more than 32 bits, and leaves less than 32 bits |
| Log2.ReduceBy | bpf/c/syscall_lat.c:75-78 | A middle step halves the bits left and moves what it shifts out into r, without the two overlapping |
| Log2.ReduceLast | bpf/c/syscall_lat.c:79-81 | From two bits the last step completes the floor of the base-2 logarithm |
| Log2.Log2U64 | bpf/c/syscall_lat.c:70-81 | For every 64-bit value v > 0 the result r satisfies 2^r <= v < 2^(r+1) |
| SyscallKernel.BucketOf | bpf/c/syscall_lat.c:121-123 | The clamped bucket is always inside the histogram |
| SyscallRuns.BucketIsLog | bpf/c/syscall_lat.c:118-123 | After the sign test the clamp never acts: the bucket is the logarithm and is below 63 |
| SyscallRuns.CountersRun | bpf/c/syscall_lat.c:85-145 | In every reachable state, evictions included, entries belong to the key they are found under, and bucket i of an entry is the number of samples with logarithm i added to it, modulo 2^64 |
| SyscallRuns.TopBucketStaysEmpty | bpf/c/syscall_lat.c:118-143 | Bucket 63 is zero in every entry of every reachable state |
| SyscallRuns.SamplesConserved | bpf/c/syscall_lat.c:103-145 | For every weighing of samples: measured = added + given up + still carried, whatever is evicted |
| SyscallMeasuring.ExitMeasures | bpf/c/syscall_lat.c:103-128 | An exit that found a start deletes it and measures exactly one sample, of its process and the start's number, if the difference of the clocks modulo 2^64 is in 1..2^63 - 1, and none otherwise |
| SyscallMeasuring.SyscallIsMeasured | bpf/c/syscall_lat.c:85-128 | Over runs: a syscall with a number from 0 to 511 that a thread enters and leaves at a later time is measured with its own time, whatever other threads and the maps do meanwhile except evict its start |
| SyscallMeasuring.SampleIsCounted | bpf/c/syscall_lat.c:130-143 | If the kernel finds memory, a measured sample that nothing interferes with is counted in the entry its key then has |
| SyscallRuns.KeptRun | bpf/c/syscall_lat.c:130-143 | A key that is not evicted has one entry for good, to which all its increments go; if seeding finds memory nobody gives its samples up |
| SyscallRuns.SeedingIsLossless | bpf/c/syscall_lat.c:130-143 | However many threads look up, seed, look up again and add at once, each bucket of a key that is not evicted holds every measured exit exactly once, except those still carried; so in a quiescent state all |
| SyscallPairing.PairedExactlyWhenStored | bpf/c/syscall_lat.c:85-118 | For any interleaving and eviction: each measured exit has the number and start of its thread's immediately preceding enter if and only if that enter stored its start |
| SyscallPairing.NoEnterTwice | bpf/c/syscall_lat.c:103-118 | Of two measured exits of a thread the later one used a later enter, so no enter is measured twice |
| SyscallPairing.AlternatingIsPaired | bpf/c/syscall_lat.c:85-118 | If each thread's events alternate, possibly from an unmatched exit on, every measured exit is paired with the enter just before it, and its number is in range |
| SyscallPairing.MissedExitMispairs | bpf/c/syscall_lat.c:85-118 | Without alternation there is a run that measures an exit from an earlier syscall's start |
| Histogram.Total | internal/syscalls/syscalls.go:53-60 | The loop returns the number of samples modulo 2^64 |
| Histogram.RankOf | internal/syscalls/syscalls.go:79-86 | The rank is the number of 1..total nearest to the rounded product of total and fraction: the product itself if it is one of them, 1 if it is below, the total if it is above |
| Histogram.FirstReaching | internal/syscalls/syscalls.go:88-95 | The bucket found reaches the rank and no earlier one does |
| Histogram.Percentile | internal/syscalls/syscalls.go:62-96 | The two passes find the lower bound of the first bucket that reaches this rank; an empty histogram or a p outside 0..1 gives 0 |
| OrderStatistics.KthSmallestExists | internal/syscalls/syscalls.go:79-86 | Every rank from 1 to the number of latencies has its order statistic, so the next two rows are never about nothing |
| OrderStatistics.RankedBucket | internal/syscalls/syscalls.go:62-96 | The bucket found for rank k is the one that holds the k-th smallest latency |
| OrderStatistics.PercentileBrackets | internal/syscalls/syscalls.go:62-96 | For the rank k that the rounded product alone determines, the value v reported and the k-th smallest latency s satisfy v <= s < 2v |
| Histogram.SubBuckets | internal/syscalls/syscalls.go:98-114 | Bucket by bucket the number that added to the previous count gives the present one, and 0 for a bucket that went backwards |
| Histogram.FirstNonEmpty | internal/syscalls/aggregator.go:136-143 | The lowest non-empty bucket |
| Histogram.LastNonEmpty | internal/syscalls/aggregator.go:145-155 | The highest non-empty bucket |
| Histogram.MinNs | internal/syscalls/aggregator.go:136-143 | The loop returns the lower bound of the first non-empty bucket, 0 when there is none |
| Histogram.MaxNs | internal/syscalls/aggregator.go:145-155 | The loop returns the upper bound of the last non-empty bucket, its lower bound for the topmost one, 0 when there is none |
| OrderStatistics.MinMaxEnclose | internal/syscalls/aggregator.go:136-155 | Every latency counted is at least the minimum and strictly below the maximum shown, when the topmost bucket is empty |
| OrderStatistics.MinMaxTight | internal/syscalls/aggregator.go:136-155 | Some latency is below twice the minimum shown, and some is at least half the maximum |
| OrderStatistics.MaxExactlyBelowTop | internal/syscalls/aggregator.go:145-155 | For any latencies the maximum shown is above all of them if and only if the topmost bucket is empty |
| OrderStatistics.PercentilesOrdered | internal/syscalls/syscalls.go:62-96 | With a monotone rounding a higher percentile is never below a lower one |
| OrderStatistics.PercentileWithin | internal/syscalls/syscalls.go:62-96 | Without overflow each percentile is at least the minimum and, with an empty topmost bucket, below the maximum |
| SyscallAggregator.ReportIsOrdered | internal/syscalls/aggregator.go:115-133 | In each record min <= P50 <= P90 <= P99 < max, with a monotone rounding and without overflow |
| SyscallAggregator.BuildRecord | internal/syscalls/aggregator.go:95-134 | The percentiles and bounds come from the interval's histogram when it has samples and from the whole one otherwise; no delta on a poll that is not later |
| SyscallAggregator.BuildRecords | internal/syscalls/aggregator.go:82-91 | One record for each key of the snapshot, in some order, against the previous value or zero |
| SyscallAggregator.Aggregator.Poll | internal/syscalls/aggregator.go:72-93 | A poll replaces both fields; one whose read fails changes nothing |
| SyscallPolling.InvRun | internal/syscalls/aggregator.go:72-93 | In every reachable state of threads, evictions and polls, each value read is what had been added to its entry when it was read, and reads of an entry come in order |
| SyscallPolling.PollFollowsTheRun | internal/syscalls/aggregator.go:72-93 | The class, started in the state a run has reached, ends in the state and with the reports the run's poll ends with |
| SyscallReports.NeverOverReports | internal/syscalls/syscalls.go:102-114 | Whatever is evicted and re-created: each bucket's difference, and the delta count, are at most the samples of the key recorded since it was last read |
| SyscallAccuracy.RunningSumNeverOverReports | internal/syscalls/aggregator.go:72-113 | The sum of the delta counts in all records of a key never exceeds its samples recorded after the first successful poll, failed polls and evictions included |
| SyscallAccuracy.ReportsAreAccurate | internal/syscalls/aggregator.go:97-134 | End to end: without eviction and overflow the count is the number of latencies recorded, the delta count the number since the last read if the poll is later and else 0; the values for the fractions 0.5, 0.9 and 0.99 each bracket the order statistic of the rank nearest to the rounded product within a factor of two; minimum and maximum enclose all latencies and are tight |
| SyscallAccuracy.DeltasTelescope | internal/syscalls/aggregator.go:72-113 | Without eviction and with strictly later polls, the delta counts in all records of a key add up to its last total minus what the first successful poll found; failed polls lose nothing |
| SyscallLatencies.KernelOf | bpf/c/syscall_lat.c:85-145 | Polling does not influence the tracepoint programs: what is proved of their runs holds in the whole system |
| SyscallLatencies.SyscallIsMeasured | bpf/c/syscall_lat.c:85-128 | The same of SyscallMeasuring.SyscallIsMeasured in the whole system, with polls at any point |
| SyscallLatencies.ReportsAreOfSyscalls | internal/syscalls/aggregator.go:97-134 | If each thread's events alternate, every latency a report speaks about is the time from an enter of that syscall to the exit after it in the same thread |
| SyscallLatencies.EveryExitIsRecorded | bpf/c/syscall_lat.c:130-143 | For a key that is not evicted, if seeding finds memory, the measured exits of each bucket are those recorded and those about to be, in the whole system |
| CpuKernel.SumCPUs | internal/cpu/cpu.go:49-59 | The loop adds the three counters of all CPUs separately, modulo 2^64 |
| CpuKernel.SumCpusCounts | bpf/c/cpu_sample.c:75-97 | Summed over the CPUs, an entry holds exactly what all executors added to it, for each of the three counters |
| CpuKernel.EntriesStep | bpf/c/cpu_sample.c:50-99 | In every step entries belong to the process they are found under, and increments go to the executor's own process and CPU |
| CpuKernel.StragglersStep | bpf/c/cpu_sample.c:59-79 | A deleted entry receives increments only from executors that had looked it up before, at most one from each |
| CpuAggregator.CommReader.Comm | internal/cpu/proc.go:28-44 | A name that can be read is cached and returned, an empty one as the number of the process; else the cached name is returned; else the number |
| CpuAggregator.CommReader.Forget | internal/cpu/proc.go:79-83 | Forgetting a process removes its name and no other |
| CpuAggregator.Aggregator.BuildRecord | internal/cpu/cpu.go:61-89 | Each delta added to the previous value, or to zero for a new process, gives the present one; it is zero for a counter that went backwards and on a poll that is not later; name and totals are as read |
| CpuAggregator.DescribedBy | internal/cpu/cpu.go:61-89 | This describes exactly one record |
| CpuAggregator.Aggregator.BuildRecords | internal/cpu/aggregator.go:91-100 | One record for each process of the snapshot, in some order; the dead ones are listed; names do not depend on the order |
| CpuAggregator.Aggregator.Reap | internal/cpu/aggregator.go:107-118 | Exactly the dead entries whose delete succeeds leave the snapshot and the name cache |
| CpuAggregator.Aggregator.Poll | internal/cpu/aggregator.go:79-105 | The dead are reported once more; exactly the living and the undeletable stay in the snapshot that is kept; the interval is the time since the last poll, 0 for the first; a poll whose read fails changes nothing |
| CpuAggregator.ReadMapBatch | internal/cpu/aggregator.go:131-154 | A snapshot results exactly when the end of the map is reported before any other error; each key in it has the sum over its own values, one per CPU, in whatever batches they came, and the last batch counts although it comes with an error |
| CpuAggregator.OneSnapshot | internal/cpu/aggregator.go:131-154 | So the snapshot depends only on the keys and values read, not on where the batches are cut |
| CpuRuns.InvRun | internal/cpu/aggregator.go:79-118 | The inductive invariant of samples, polls, deletions and failures in any order: every tracked entry is in the map, every cached name is of a tracked process, nobody has reported on an entry in the map that is not tracked |
| CpuRuns.TrackedIsSeen | internal/cpu/aggregator.go:79-118 | A complete read sees every process of the previous snapshot, in the same entry and no earlier |
| CpuAccounting.PrevIsInTheMap | internal/cpu/aggregator.go:79-118 | Outside a deletion phase, each process of the previous snapshot is in the map with summed counters at least as large |
| CpuAccounting.NothingToClamp | internal/cpu/cpu.go:84-97 | A process with a previous value has not gone backwards; one without is reported from an entry no poll has reported on, and takes no name from the cache |
| CpuAccounting.CacheFollowsPrev | internal/cpu/proc.go:28-83 | The name cache only has processes of the kept snapshot |
| CpuAccounting.DeltaIsWindow | internal/cpu/cpu.go:61-89 | On a poll later than the last, each delta is exactly what was added to the entry since it was last reported on |
| CpuAccounting.CpuTimeConserved | internal/cpu/aggregator.go:79-118 | With strictly later polls: all increments of a process = those in the first snapshot + those in records + those waiting in the map + those lost with a deletion |
| CpuAccounting.OnlyDeletionLoses | internal/cpu/aggregator.go:107-118 | A lost increment came to an entry after its last read, the entry was read and then deleted, and after the deletion it received at most one increment per executor |
| CpuSamples.EverySampleIsAccountedFor | bpf/c/cpu_sample.c:50-99 | From events to records: of the events of a run, the periods sampled at addresses from 2^63 on, the periods below, and the switches of a process are each the sum of baseline, records, unread, lost, given up and under way |
| CpuSamples.SampleIsAdded | bpf/c/cpu_sample.c:50-82 | If the kernel finds memory, a sample that nothing interferes with adds its period, as kernel time from address 2^63 on and as user time below, to the entry of its process, for its own CPU |
| CpuSamples.SwitchIsAdded | bpf/c/cpu_sample.c:84-99 | A switch adds one to the entry of the process, if it has one, and makes none |
| CpuSamples.IdleIsNotCounted | bpf/c/cpu_sample.c:50-99 | In every reachable state process 0 is neither in the map, nor in the log, nor in a snapshot or a report |
| CpuSamples.NoSampleGivenUp | bpf/c/cpu_sample.c:59-69 | A process that is never deleted loses no sample for want of an entry, if seeding finds memory; only switches before its first sample go uncounted |
| CpuNames.CacheIsLastName | internal/cpu/proc.go:28-83 | In every reachable state the cache has exactly the processes whose name was read and that were not reaped since, each with the last name read |
| CpuNames.ShownName | internal/cpu/proc.go:28-44 | A readable name is shown as it is; without one, the last name read of the process since one with its number was reaped; without either, or if that is empty, its number |
| CpuRefinement.PollEnds | internal/cpu/aggregator.go:91-118 | In whatever order the dead are deleted, and while sampling goes on, a poll ends with the snapshot and the cache less the reaped |
| CpuRefinement.PollFollowsTheRun | internal/cpu/aggregator.go:79-118 | The class, started in the state a run has reached, ends in the state the run's poll ends in; its records have the totals read, the deltas that the accounting counts as emitted, and the names of CpuNames.ShownName |
| Packet.PortRoundTrip | internal/flows/flows.go:92-101 | Loading a port from the wire and decoding it with the accessors gives the port, on machines of both byte orders |
| Packet.ParseL4 | bpf/c/flows.c:82-128 | TCP and UDP headers give ports and the six flags; too short ones are rejected; other protocols have no ports |
| Packet.ParseIPv4 | bpf/c/flows.c:143-164 | Protocol, addresses and the start of the transport header from a header of any length; too short ones are rejected |
| Packet.ParseIPv6 | bpf/c/flows.c:166-182 | The same for the fixed IPv6 header |
| Packet.Parse | bpf/c/flows.c:131-197 | A frame is accepted exactly when it is long enough for what its own bytes say it holds, and then has the key and flags at the offsets of the standards |
| Packet.AcceptedExactly | bpf/c/flows.c:82-197 | Exactly which frames are accepted, by their bytes: IPv4 with at least five words of header, or IPv6, long enough for the addresses and for what the protocol needs of the transport header |
| Frames.TransportFields | bpf/c/flows.c:82-128 | In an encoded frame the ports and flags are found behind a network header of any length |
| Frames.EncodeThenParse | bpf/c/flows.c:131-197 | Any connection encoded as a frame, with any header length from 5 to 15 words and any other contents, IPv6 traffic class included, is accepted, and the accessors read its addresses, ports and protocol back |
| Frames.KeysAreFaithful | bpf/c/flows.c:142-197 | Two frames have the same key if and only if they belong to the same connection and direction |
| Frames.AccessAddress | internal/flows/flows.go:144-153 | The address accessor undoes the zero padding of the key |
| Frames.KeyOfSwapped | internal/flows/aggregator.go:107-128 | The key of the opposite direction is the reversed key, and reversing twice gives the key back |
| FlowTable.Table.Count | bpf/c/flows.c:199-214 | A table that is the group-by of what happened is the group-by of that and one more frame afterwards; only the entry of its key changes |
| FlowTable.Table.ProcessPacket | bpf/c/flows.c:131-217 | The table remains the group-by of what happened, to which an accepted frame adds its key, its whole length, its flags and its time once; a rejected one changes nothing |
| FlowTable.Table.Evict | bpf/c/flows.c:54-59 | So it does when the kernel evicts an entry |
| FlowTable.TableIsGroupBy | bpf/c/flows.c:199-214 | For any accepted frames and evictions, each entry is the count, sum of lengths, first and last time and bitwise OR of the flags of the frames with its key since its last eviction, and there is an entry exactly if there is such a frame |
| FlowTable.OneTable | bpf/c/flows.c:199-214 | These words determine the table |
| FlowRace.RaceRun | bpf/c/flows.c:199-214 | For every weighing of frames: accepted = counted + inserts that came too late + inserts without memory + under way, for packets and for bytes, at every point of every interleaving |
| FlowRace.InsertRaceLosesFewerThanN | bpf/c/flows.c:199-214 | With n executors fewer than n inserts of a key ever come too late, and its counters are the accepted frames minus these, those the kernel had no memory for, and those under way; if it has memory nothing else is lost |
| FlowRace.LossBoundIsTight | bpf/c/flows.c:199-214 | For every n there is a run in which n - 1 of n packets are not counted |
| Rtt.RttTable.RecordRtt | bpf/c/flows.c:242-302 | An IPv4 or IPv6 socket that has an estimate updates the entry of its key; others change nothing |
| Rtt.LastEstimateWins | bpf/c/flows.c:281-302 | An entry has the last estimate of its sockets, scaled down, the time of it, and the number of estimates |
| Rtt.SocketMatchesItsFrames | bpf/c/flows.c:242-281 | A socket's key is the key of the frames it sends and the reversed key of the frames it receives |
| Rtt.ReverseInvolution | internal/flows/aggregator.go:112-122 | Reversing a key twice gives it back |
| Rtt.JoinIs | internal/flows/aggregator.go:107-128 | For TCP the last estimate of the flow's own orientation is shown, else that of the opposite one; nothing without either, for other protocols, or if the estimates cannot be read |
| Rtt.DirectionsAgree | internal/flows/aggregator.go:107-128 | Both directions of a flow show the same estimate if and only if the table does not hold different ones for the two orientations |
| Rtt.EachDirectionShowsItsSender | internal/flows/aggregator.go:107-128 | With both ends of a connection on this machine, the record of each direction shows the estimate of the socket that sends it |
| Rtt.BothDirectionsShowTheSocket | internal/flows/aggregator.go:107-128 | From sockets and frames to records: with one end of the connection on this machine, the records of both directions show that socket's last estimate |
| FlowAggregator.Aggregator.Poll | internal/flows/aggregator.go:73-150 | One record for each flow, against the previous snapshot, with the joined estimate; failing to read the estimates does not fail the poll, failing to read the flows changes nothing |
| FlowAggregator.RecordShowsTheFlow | internal/flows/aggregator.go:93-150 | From frames and sockets to records: the record of a connection has its addresses, ports and protocol in the right places, totals that sum up its frames since its last eviction, no differences if it is new or no time has passed, and the last estimate of its sender |
| FlowAggregator.DeltaIsTraffic | internal/flows/aggregator.go:130-141 | If the entry is not evicted between the polls, the packet and byte differences are those of the flow's frames between them, also across a wrap-around and whatever else is evicted |
| FlowAggregator.DeltaExactlyUnlessEvicted | internal/flows/aggregator.go:130-141 | With fewer than 2^64 frames, the packet difference is the traffic between the polls if and only if the entry was not evicted between them |
| FlowAggregator.RecreatedEntry | internal/flows/aggregator.go:130-141 | After an eviction the difference is what the new entry counted if and only if the old counter was zero, and exceeds it, being 2^64 minus the drop, if and only if the new counter is below the old one |
| FlowAggregator.EvictionMisreports | internal/flows/aggregator.go:130-141 | Runs with n frames, an eviction and m frames: the difference is m - n, or 2^64 - (n - m), and never the traffic m |
| NetnsWatcher.FirstProcessNames | internal/netns/netns_linux.go:19-52 | Each inode that a directory of /proc named by a digit and more shows is seen once, under the path and name of the first such process |
| NetnsWatcher.LastNameWins | internal/netns/netns_linux.go:53-78 | An inode with names gets the last of them, and its path in /var/run/netns; the others keep what they had |
| NetnsWatcher.NamedTakePrecedence | internal/netns/netns_linux.go:53-78 | So there is one handle per observed inode, named after a name of it where there is one and else after a process |
| NetnsWatcher.Enumerate | internal/netns/netns_linux.go:19-78 | The two loops compute this; an unreadable /proc is an error, a missing directory of names is not |
| NetnsWatcher.Watcher.EmitAdded | internal/netns/netns_linux.go:173-187 | Every new inode becomes known and is announced once with its handle; known handles are kept; replaying the events gives the known inodes |
| NetnsWatcher.Watcher.EmitRemoved | internal/netns/netns_linux.go:188-197 | Every inode that is gone is forgotten and announced once with its old handle; replaying the events gives the known inodes |
| NetnsWatcher.Watcher.Tick | internal/netns/netns_linux.go:162-198 | A tick ends with the present inodes under the handles they were first seen with, and announces every difference and nothing else, in orderly turns |
| NetnsEvents.OrderlyAlternates | internal/netns/netns_linux.go:148-200 | The events of an inode alternate between added and removed, beginning with added |
| NetnsEvents.PresentExactly | internal/netns/netns_linux.go:148-200 | Replaying events gives exactly the inodes that were added and not removed since |
| NetnsRun.StreamReplaysToKnown | internal/netns/netns_linux.go:148-210 | At every step replaying consumed, queued and in-flight events gives exactly the known inodes; after a completed tick these are the enumerated ones; the queue keeps its bound; events alternate |
| NetnsRun.EndsExactly | internal/netns/netns_linux.go:148-170 | The watcher has ended exactly if it was cancelled or the enumeration failed before one succeeded; later failures are skipped |
| NetnsRefinement.TickEnds | internal/netns/netns_linux.go:162-210 | In a run, whatever the order of the maps and the pace of the consumer, a tick ends with the same known handles and the same announcements |
| NetnsRefinement.TickCompletes | internal/netns/netns_linux.go:162-210 | However full the channel is, a tick that has begun can be completed if the consumer goes on |
| NetnsRefinement.TickFollowsTheRun | internal/netns/netns_linux.go:162-210 | The class, started with what a run's watcher knows, ends with what that one knows and announces the same events |
| NetnsRun.Consumer.OnEvent | cmd/ebpfview/flows_run.go:202-236 | The loop body: attaching is tried for an added inode that is not attached, and afterwards it is remembered exactly if that succeeded; a removed one is forgotten; others do not change |
| NetnsRun.AttachedExactly | cmd/ebpfview/flows_run.go:189-236 | In every reachable state the remembered inodes are the own one, until it is removed, and those added when attaching worked and not removed since; attaching was tried at exactly the additions of inodes not remembered then |
| NetnsRun.AttachedOnce | cmd/ebpfview/flows_run.go:189-236 | After a successful attach none is tried to the inode before it is reported removed; none to the own inode before that |
| NetnsRun.AttachedToThePresent | cmd/ebpfview/flows_run.go:189-236 | Only present inodes and the own one are remembered; all present ones, if no attach that was tried failed |
| Loader.Kernel.CloseAll | internal/loader/handle.go:59-76 | Every resource of the list is closed once more, the others not; an error stops nothing and is reported |
| Loader.Manager.Load | internal/loader/manager.go:44-85 | A failed load leaves no trace; a successful one registers a handle under an unused identifier that owns nothing |
| Loader.Manager.AttachLink | internal/loader/attach.go:11-33 | A missing program changes nothing; a failed attach marks the handle and leaves its links; a successful one adds exactly the new link; the books stay balanced |
| Loader.Manager.AttachFentry | internal/loader/attach.go:137-165 | The same behind the check for trampolines |
| Loader.Manager.AttachTCXInNs | internal/loader/attach.go:179-241 | Both links or an error; if only the second attach fails, the first link stays with the handle |
| Loader.Manager.OpenCpu | internal/loader/perf_event.go:46-64 | Whichever of the three calls fails, everything opened so far is closed once |
| Loader.Manager.AttachPerf | internal/loader/perf_event.go:23-81 | One closer per CPU, or, if any CPU fails, an unchanged handle and everything opened closed once |
| Loader.Manager.Detach | internal/loader/attach.go:270-311 | Links and closers are closed once and given up, the collection stays; unknown and detached handles are errors that close nothing |
| Loader.Manager.CloseHandle | internal/loader/handle.go:55-87 | Links, closers and collection go; closing twice closes nothing more |
| Loader.Manager.Close | internal/loader/manager.go:95-123 | The registry is empty, every handle is closed, and every link and descriptor ever opened was closed exactly once; an error is returned exactly if closing one of the resources still owned fails |
| Loader.PerformOn | internal/loader/attach.go:11-268 | Every attach call on an open handle, failing or not, keeps the books: each resource is owned by exactly one handle and open, or owned by none and closed exactly once; a loaded or detached handle owns nothing |
| Loader.Perform | internal/loader/handle.go:55-87 | So does every other call, closing a closed handle again included |
| Loader.Lifetime | internal/loader/manager.go:30-123 | Over any sequence of calls with any failures, from the constructor to Close, each resource is closed exactly once |
| Decimal.ScanPrinted | internal/loader/perf_event.go:103-108 | Scanning a printed number below 2^63 gives the number and stops behind it |
| Decimal.ScanDigits | internal/loader/perf_event.go:103-108 | Exactly the digits a text begins with are read, if their value fits 64 bits; without a digit nothing is |
| Decimal.ScanSigned | internal/loader/perf_event.go:103-108 | So they are behind one sign, from -2^63 on for a minus |
| CpuList.SplitTrim | internal/loader/perf_event.go:116-133 | The loop returns the items between commas and newlines, without spaces and without empty ones |
| CpuList.ScanRange | internal/loader/perf_event.go:102-108 | It reads two numbers exactly if the item begins with two joined by a dash, one if with one, and these are they, signs and trailing text included |
| CpuList.RangeAdds | internal/loader/perf_event.go:101-108 | Any two numbers joined by a dash, whatever follows, add their difference and one, even if that is not positive |
| CpuList.OtherTextAdds | internal/loader/perf_event.go:101-108 | A number alone adds one, whatever other text follows; text that begins with none adds nothing |
| CpuList.ParseCpuRange | internal/loader/perf_event.go:97-114 | The sum of what the items contribute, in 64 bits, or the number of CPUs if that is 0 |
| CpuList.ParsingInvertsPrinting | internal/loader/perf_event.go:97-133 | For every list of disjoint ranges printed in decimal, and wherever spaces are put into the text, the items add up to exactly the CPUs of the list |
| CpuList.OnlineCpus | internal/loader/perf_event.go:89-95 | Whatever list the file holds, the result is the number of its CPUs; without a file it is the number of CPUs of the machine |
| CpuList.OpensTheOnlineCpus | internal/loader/perf_event.go:32-39 | The CPUs opened are the online ones if and only if every online CPU has a number below the count |
| CpuList.OfflineCpuMisleads | internal/loader/perf_event.go:32-39 | With any one CPU but the last offline, CPU 0 included, that one is tried and the last is left out |
| PipelineSource.ReaderSource.Read | internal/pipeline/source.go:45-76 | The batch is the successfully decoded events in order; a failed read changes nothing; the counters advance by the good and the bad ones |
| PipelineSource.DecodedExactly | internal/pipeline/source.go:48-66 | There is one event for each raw event that can be decoded, in the order of these, and none else |
| PipelineSource.EveryRawEventIsCounted | internal/pipeline/source.go:54-69 | EventsRead keeps being the number of decoded raw events and DecodeErrors that of the others, modulo 2^64 |
| PipelineSource.CountersAddUp | internal/pipeline/source.go:54-69 | So EventsRead + DecodeErrors is the number of raw events, modulo 2^64 |
| PipelineRun.SinksFollowTheSource | internal/pipeline/pipeline.go:86-121 | Under any interleaving, what a sink was sent from a source is, but for the names that enrichment fills in, the beginning of what the reads of the run returned and could be decoded, and all that is missing is the one batch in flight |
| PipelineRun.SinksDifferByOneBatch | internal/pipeline/pipeline.go:115-120 | Of one source, two sinks have the same enriched events, or the earlier sink has the batch in flight more |
| PipelineRun.StoppedMeansDelivered | internal/pipeline/pipeline.go:86-121 | A source that has stopped, by cancellation or failure, has given every sink everything it read and could decode |
| PipelineRun.CountersAccount | internal/pipeline/source.go:48-76 | In every reachable state the counters of each source are the numbers of decoded and undecodable raw events of its reads |
| PipelineRun.ErrorChannelSuffices | internal/pipeline/pipeline.go:62-73 | The error channel never holds more errors than there are sources, so no goroutine blocks on it |
| PipelineRun.RunReportsFailures | internal/pipeline/pipeline.go:57-84 | Run fails at once exactly when there is no source, and else exactly when some read failed before anything was cancelled, and names the source whose read was the first to |
| PipelineProgress.RoundDelivers | internal/pipeline/pipeline.go:86-121 | From any reachable state in which nothing is cancelled and a source is about to read: whatever it reads, the run can go on so that every sink gets exactly the decodable events, and the source is about to read again |
| PipelineProgress.EachReadIsPermitted | internal/pipeline/pipeline.go:86-95 | Before each read, and since any earlier one, the source has found that nothing was cancelled; so at most one read begins late |

## Left out

- Map element memory: the kernel may reuse an evicted element while a program still holds it; here an increment through a stale pointer goes to an entry nobody finds.
- Reading one map value is one step; a value changing while it is copied is not modelled.
- Reading a map: a read that succeeds is taken to return every key that was there all the time (`Complete`); what the kernel's batch and iteration calls do when the map changes underneath is not part of this model.
- Batch reading of the syscall and flow maps, which is the CPU reader without the sum.
- Floating point: the product of total and p is an arbitrary rounding of it, which the code clamps; rates are left as the differences they are made of.
- SyscallAccuracy.ReportsAreAccurate: assumes no eviction of the key and fewer than 2^64 samples; with evictions only `SyscallReports.NeverOverReports` holds.
- CpuAccounting.CpuTimeConserved: assumes strictly later polls and no counter overflow, without which the code itself reports nothing or wraps around.
- Flows: eviction from the table of round-trip times, and from the flow table while several CPUs update it; the non-atomic updates of the last time and the flags on several CPUs (`FlowRace` has the atomic counters only); VLAN tags, fragments, IPv6 extension headers and IPv4-mapped sockets, which the code does not handle either.
- FlowTable.TableIsGroupBy: the flags are the low byte of a 32-bit field; only six of its bits are ever set.
- NetnsWatcher.Enumerate: the order of the returned handles, which is sorted by inode for display.
- Namespaces: inode reuse between scans, and entering a namespace, which is a parameter that succeeds or fails.
- Loader.Manager.Close: the order in which handles are closed.
- Loader: several goroutines calling with the same handle, whose fields the code reads outside its mutex; pinning and the hello probe; the last error kept in a handle.
- CpuList.ScanRange: white space other than blanks and newlines inside an item.
- Pipeline: the contents of a sink, and a sink that changes the batch it was given.
- Ring and perf buffer readers, feature probes, tickers, signals, logging, command line, tables, sorting and formatting; the clean-up of process names; the table of syscall names.
